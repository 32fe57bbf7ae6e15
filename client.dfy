/**
 * The client's own state and the parts of wawebpy/client.py that do not call into an auth
 * strategy: the lifecycle flags, `stop`, and the defaulting of the options dictionary.
 * `initialize`, which calls the strategies (and is called back by them), is in ClientLifecycle.
 */
module Client {
  import opened Wrappers
  import opened ClientOptions
  import opened Environment

  const DefaultHeadless := true
  const DefaultWebUrl := "https://web.whatsapp.com/"
  const DefaultQrDataSelector := "div[data-ref]"

  /** `options.setdefault("auth", NoAuth(client=self))`: only an absent auth is filled in. */
  function WithAuthDefault(o: Options): (r: Options)
    ensures r.auth.Some?
    ensures o.auth.Some? ==> r.auth == o.auth
    ensures o.auth.None? ==> r.auth == Some(NoAuth)
    ensures r.(auth := o.auth) == o
  {
    if o.auth.None? then o.(auth := Some(NoAuth)) else o
  }

  /** The three `setdefault` calls: each key keeps its value if present and gets its default if absent. */
  function WithDefaults(o: Options): (r: Options)
    ensures r.headless == Some(o.headless.GetOr(DefaultHeadless))
    ensures r.webUrl == Some(o.webUrl.GetOr(DefaultWebUrl))
    ensures r.qrDataSelector == Some(o.qrDataSelector.GetOr(DefaultQrDataSelector))
    ensures o.headless.Some? ==> r.headless == o.headless
    ensures o.webUrl.Some? ==> r.webUrl == o.webUrl
    ensures o.qrDataSelector.Some? ==> r.qrDataSelector == o.qrDataSelector
    ensures r.auth == o.auth && r.loadedSelector == o.loadedSelector
  {
    var h := if o.headless.None? then o.(headless := Some(DefaultHeadless)) else o;
    var w := if h.webUrl.None? then h.(webUrl := Some(DefaultWebUrl)) else h;
    if w.qrDataSelector.None? then w.(qrDataSelector := Some(DefaultQrDataSelector)) else w
  }

  /** What `stop` does to the page and the runtime: each is closed only if it is set. */
  function StopEffects(hasPage: bool, hasPlaywright: bool): (r: seq<Effect>)
    ensures ClosePage in r <==> hasPage
    ensures StopPlaywright in r <==> hasPlaywright
    ensures forall e :: e in r ==> e == ClosePage || e == StopPlaywright
    ensures hasPage && hasPlaywright ==> r == [ClosePage, StopPlaywright]
  {
    (if hasPage then [ClosePage] else []) + (if hasPlaywright then [StopPlaywright] else [])
  }

  class Client {
    var initialized: bool
    var hasPage: bool        // `_page` is set
    var hasPlaywright: bool  // `_playwright` is set

    /** A fresh client is not initialized and holds neither a page nor a runtime. */
    constructor ()
      ensures !initialized && !hasPage && !hasPlaywright
    {
      initialized, hasPage, hasPlaywright := false, false, false;
    }

    /** The `initialized` property. */
    function Initialized(): bool
      reads this
    {
      initialized
    }

    /**
     * Closes the page if set, stops the runtime if set, and always clears the flag. The
     * references themselves are not cleared, so a later `stop` closes them again.
     */
    method Stop(env: Env)
      modifies this, env
      ensures !initialized
      ensures hasPage == old(hasPage) && hasPlaywright == old(hasPlaywright)
      ensures env.log == old(env.log) + StopEffects(old(hasPage), old(hasPlaywright))
      ensures env.qrScript == old(env.qrScript) && env.uiScript == old(env.uiScript) && env.dirs == old(env.dirs)
    {
      if hasPage {
        env.Record(ClosePage);
      }
      if hasPlaywright {
        env.Record(StopPlaywright);
      }
      initialized := false;
    }
  }
}
