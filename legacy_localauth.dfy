/**
 * The older LocalAuth (wawebpy/structures/auth/_localauth.py). It derives the profile path
 * exactly as LocalAuth does (LocalAuthentication.DirPath, SessionId and Filepath), and its
 * `logout` is the same stop-then-remove (LocalAuthentication.Logout). Its `_load_session` makes
 * a single QR probe and never reloads, probes the UI or removes the profile.
 */
module LegacyLocalAuthentication {
  import opened Wrappers
  import opened Exceptions
  import opened ClientOptions
  import opened Environment
  import opened BaseAuth
  import opened BaseAuthProperties

  /**
   * `_load_session`: a new page, one navigation, one QR probe. A QR code means the persisted
   * session is no longer valid; no QR code means the page is returned as it is.
   */
  function LegacyLoadRun(webUrl: Option<string>, qrs: seq<Option<string>>, uis: seq<bool>): Run
  {
    var nav := [NewPage, Goto(webUrl)];
    if qrs == [] then Run(OutOfScript, nav, qrs, uis)
    else if qrs[0].Some? then Run(Raised(InvalidAuth(LegacySessionInvalid)), nav + [QrProbed(qrs[0])], qrs[1..], uis)
    else Run(PageReturned, nav + [QrProbed(None)], qrs[1..], uis)
  }

  /** `authenticate`: check for the profile, launch the persistent context on it, then load or log in. */
  function LegacyAuthenticateRun(opts: Options, path: string, existed: bool, qrs: seq<Option<string>>, uis: seq<bool>): Run
  {
    Prepend([LaunchPersistent(path, opts.headless)],
            if existed then LegacyLoadRun(opts.webUrl, qrs, uis)
            else QrRun(opts.webUrl, DefaultMaxRetries, qrs, uis))
  }

  /**
   * `authenticate` as the code is written: `_save_session` passes the options as `clientOptions=`
   * to `_auth_with_qr`, whose parameter is `client_options`, so a missing profile ends in
   * TypeError right after the persistent context was launched, before any page is opened.
   */
  function LegacyAuthenticateAsWritten(opts: Options, path: string, existed: bool, qrs: seq<Option<string>>,
                                       uis: seq<bool>): Run
  {
    if existed then LegacyAuthenticateRun(opts, path, existed, qrs, uis)
    else Run(Raised(TypeError), [LaunchPersistent(path, opts.headless)], qrs, uis)
  }

  /** `_load_session`: what it returns, does and consumes is exactly LegacyLoadRun. */
  method LoadSession(env: Env, opts: Options) returns (outcome: Outcome)
    modifies env
    ensures var run := LegacyLoadRun(opts.webUrl, old(env.qrScript), old(env.uiScript));
      outcome == run.outcome && env.log == old(env.log) + run.effects &&
      env.qrScript == run.qrRest && env.uiScript == run.uiRest
    ensures env.dirs == old(env.dirs)
  {
    env.Record(NewPage);
    env.Record(Goto(opts.webUrl));
    var qr := env.ProbeQr();
    if qr.Exhausted? {
      return OutOfScript;
    } else if qr.value.Some? {
      return Raised(InvalidAuth(LegacySessionInvalid));
    }
    return PageReturned;
  }

  /**
   * `authenticate` on the path `dirPath + sessionId`: the persistent context is launched either
   * way, which creates the profile directory; the run is exactly LegacyAuthenticateRun.
   */
  method Authenticate(env: Env, opts: Options, dirPath: string, sessionId: string) returns (outcome: Outcome)
    modifies env
    ensures var path := dirPath + sessionId;
      var run := LegacyAuthenticateRun(opts, path, path in old(env.dirs), old(env.qrScript), old(env.uiScript));
      outcome == run.outcome && env.log == old(env.log) + run.effects &&
      env.qrScript == run.qrRest && env.uiScript == run.uiRest
    ensures env.dirs == old(env.dirs) + {dirPath + sessionId}
  {
    var path := dirPath + sessionId;
    var sessionExists := env.PathExists(path);
    env.LaunchPersistentContext(path, opts.headless);
    if sessionExists {
      outcome := LoadSession(env, opts);
    } else {
      outcome := AuthWithQr(env, opts, DefaultMaxRetries);
    }
  }

  /**
   * The single probe: at most one QR read, no reload, no UI probe, no removal; the UI script is
   * left untouched.
   */
  lemma LegacyLoadProbesOnce(webUrl: Option<string>, qrs: seq<Option<string>>, uis: seq<bool>)
    ensures forall e :: e in LegacyLoadRun(webUrl, qrs, uis).effects ==> e == NewPage || e == Goto(webUrl) || e.QrProbed?
    ensures |QrReads(LegacyLoadRun(webUrl, qrs, uis).effects)| == (if qrs == [] then 0 else 1)
    ensures LegacyLoadRun(webUrl, qrs, uis).uiRest == uis
  {
    var nav := [NewPage, Goto(webUrl)];
    Unobserved(nav);
    if qrs != [] {
      QrReadsAppend(nav, [QrProbed(qrs[0])]);
      assert QrReads([QrProbed(qrs[0])]) == [qrs[0]] by {
        assert [QrProbed(qrs[0])][1..] == [];
      }
    }
  }

  /** A read QR code is the only way this load fails, and it raises the plain InvalidAuth. */
  lemma LegacyLoadOutcomes(webUrl: Option<string>, qrs: seq<Option<string>>, uis: seq<bool>)
    ensures LegacyLoadRun(webUrl, qrs, uis).outcome == Raised(InvalidAuth(LegacySessionInvalid))
            <==> qrs != [] && qrs[0].Some?
    ensures LegacyLoadRun(webUrl, qrs, uis).outcome == PageReturned <==> qrs != [] && qrs[0].None?
  {
  }

  /**
   * An existing profile is never logged in to and never removed: no "qr" event, and no other
   * exception than the plain InvalidAuth. A missing one is created by the QR login.
   */
  lemma LegacyAuthenticateBranches(opts: Options, path: string, existed: bool, qrs: seq<Option<string>>, uis: seq<bool>)
    ensures LegacyAuthenticateRun(opts, path, existed, qrs, uis).effects[0] == LaunchPersistent(path, opts.headless)
    ensures forall e :: e in LegacyAuthenticateRun(opts, path, existed, qrs, uis).effects ==> !e.RemoveDir?
    ensures existed ==> QrEmits(LegacyAuthenticateRun(opts, path, existed, qrs, uis).effects) == []
    ensures existed ==>
      LegacyAuthenticateRun(opts, path, existed, qrs, uis).outcome in
        {PageReturned, OutOfScript, Raised(InvalidAuth(LegacySessionInvalid))}
    ensures !existed ==>
      LegacyAuthenticateRun(opts, path, existed, qrs, uis).outcome in
        {PageReturned, OutOfScript, Raised(QrNotFound(DefaultMaxRetries))}
  {
    var es := LegacyAuthenticateRun(opts, path, existed, qrs, uis).effects;
    if existed {
      LegacyLoadProbesOnce(opts.webUrl, qrs, uis);
      NoEvents(es);
    } else {
      PollEffectKinds(DefaultMaxRetries, 0, None, qrs, uis);
      QrRunRaisesOnlyQrNotFound(opts.webUrl, DefaultMaxRetries, qrs, uis);
    }
  }

  /**
   * As written, a missing profile can never be logged in to: the call raises TypeError and no
   * QR code is read or emitted, while the intended call (LegacyAuthenticateRun) runs the QR login,
   * which never raises TypeError.
   */
  lemma LegacyNewSessionRaisesTypeError(opts: Options, path: string, qrs: seq<Option<string>>, uis: seq<bool>)
    ensures LegacyAuthenticateAsWritten(opts, path, false, qrs, uis).outcome == Raised(TypeError)
    ensures QrReads(LegacyAuthenticateAsWritten(opts, path, false, qrs, uis).effects) == []
    ensures LegacyAuthenticateRun(opts, path, false, qrs, uis).outcome != Raised(TypeError)
    ensures forall existed: bool :: existed ==>
      LegacyAuthenticateAsWritten(opts, path, existed, qrs, uis) == LegacyAuthenticateRun(opts, path, existed, qrs, uis)
  {
    Unobserved([LaunchPersistent(path, opts.headless)]);
    QrRunRaisesOnlyQrNotFound(opts.webUrl, DefaultMaxRetries, qrs, uis);
  }
}
