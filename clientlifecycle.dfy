/**
 * `Client.initialize` (wawebpy/client.py): refuse a second initialization, fill in the auth
 * default, reject a non-BaseAuth object, fill in the other defaults, set the flag, start the
 * runtime, authenticate with the chosen strategy and, once a page is returned, emit "ready".
 */
module ClientLifecycle {
  import opened Wrappers
  import opened Exceptions
  import opened ClientOptions
  import opened Environment
  import opened Client
  import opened BaseAuth
  import opened BaseAuthProperties
  import LocalAuthentication
  import LocalAuthProperties
  import LegacyLocalAuthentication
  import NoAuthentication
  import opened Strings

  /** The guards of `initialize` let it go on to authenticate. */
  predicate Proceeds(opts: Options, initialized: bool) {
    !initialized && WithAuthDefault(opts).auth != Some(AuthKind.NotBaseAuth)
  }

  /** An outcome that is the SessionExpired form of InvalidAuth (the one that stops the client). */
  predicate Expired(outcome: Outcome) {
    outcome.Raised? && outcome.error.InvalidAuth? && outcome.error.kind.SessionExpired?
  }

  /** The profile path a LocalAuth or legacy LocalAuth object authenticates on. */
  function ProfilePath(auth: AuthKind): string {
    match auth
    case LocalAuth(d, s) => d + s
    case LegacyLocalAuth(d, s) => d + s
    case _ => ""
  }

  /** A `LocalAuth(dir_path, session_id)` object launches on its `filepath`. */
  lemma LocalAuthProfilePath(dirPath: string, sessionId: string)
    ensures ProfilePath(LocalAuthentication.Create(dirPath, sessionId)) == LocalAuthentication.Filepath(dirPath, sessionId)
  {
  }

  /** With the default arguments, that is ".wawebpy_auth" + "/" + "default" + "-session/". */
  lemma DefaultProfilePath()
    ensures ProfilePath(LocalAuthentication.Create(LocalAuthentication.DefaultDirPath, LocalAuthentication.DefaultSessionId))
         == (LocalAuthentication.DefaultDirPath + "/") + (LocalAuthentication.DefaultSessionId + LocalAuthentication.SessionSuffix)
  {
    DefaultDirPathKept();
    DefaultSessionNameKept();
    SessionIdParts(LocalAuthentication.DefaultSessionId);
  }

  lemma SessionIdParts(id: string)
    ensures LocalAuthentication.SessionId(id) == LocalAuthentication.SessionName(id) + LocalAuthentication.SessionSuffix
  {
  }

  lemma DefaultDirPathKept()
    ensures LocalAuthentication.DirPath(LocalAuthentication.DefaultDirPath) == LocalAuthentication.DefaultDirPath + "/"
  {
    var d := LocalAuthentication.DefaultDirPath;
    TrimRightStop(d, {'/'});
    TrimRightStop(d, {'\\'});
  }

  lemma DefaultSessionNameKept()
    ensures LocalAuthentication.SessionName(LocalAuthentication.DefaultSessionId) == LocalAuthentication.DefaultSessionId
  {
    var id := LocalAuthentication.DefaultSessionId;
    assert '/' !in id && '\\' !in id;
    RemoveCharAbsent(id, '/');
    RemoveCharAbsent(id, '\\');
  }

  /** `options.get("auth").authenticate(...)` for each strategy; the runtime has just been started. */
  function StrategyRun(o: Options, dirs: set<string>, qrs: seq<Option<string>>, uis: seq<bool>, hasPage: bool): Run
  {
    match o.auth
    case Some(LocalAuth(d, s)) =>
      LocalAuthentication.AuthenticateRun(o, d + s, d + s in dirs, qrs, uis, StopEffects(hasPage, true))
    case Some(LegacyLocalAuth(d, s)) =>
      LegacyLocalAuthentication.LegacyAuthenticateRun(o, d + s, d + s in dirs, qrs, uis)
    case _ => NoAuthentication.FreshRun(o, qrs, uis)
  }

  /** The options dictionary as `initialize` leaves it: `setdefault` mutates the caller's dictionary. */
  function OptionsAfter(opts: Options, initialized: bool): Options {
    if initialized then opts
    else if !Proceeds(opts, initialized) then WithAuthDefault(opts)
    else WithDefaults(WithAuthDefault(opts))
  }

  /** What `initialize` returns or raises, does, and consumes. */
  function InitializeRun(opts: Options, initialized: bool, hasPage: bool, dirs: set<string>,
                         qrs: seq<Option<string>>, uis: seq<bool>): Run
  {
    if initialized then Run(Raised(ClientAlreadyInitialized), [], qrs, uis)
    else if !Proceeds(opts, initialized) then Run(Raised(InvalidAuth(InvalidAuthKind.NotBaseAuth)), [], qrs, uis)
    else
      var r := StrategyRun(OptionsAfter(opts, initialized), dirs, qrs, uis, hasPage);
      var ready := if r.outcome == PageReturned then [Emit("ready", [])] else [];
      Run(r.outcome, [StartPlaywright] + r.effects + ready, r.qrRest, r.uiRest)
  }

  /**
   * `initialize` as the code is written: it calls `authenticate(clientOptions=..., playwright=...)`,
   * but NoAuth's and LocalAuth's `authenticate` take `client_options`, so with either strategy the
   * call raises TypeError once the runtime is started (the flag stays set). Only the older
   * LocalAuth, whose parameter is `clientOptions`, is reached.
   */
  function InitializeAsWritten(opts: Options, initialized: bool, hasPage: bool, dirs: set<string>,
                               qrs: seq<Option<string>>, uis: seq<bool>): Run
  {
    if !Proceeds(opts, initialized) then InitializeRun(opts, initialized, hasPage, dirs, qrs, uis)
    else
      var o := OptionsAfter(opts, initialized);
      match o.auth
      case Some(LegacyLocalAuth(d, s)) =>
        var r := LegacyLocalAuthentication.LegacyAuthenticateAsWritten(o, d + s, d + s in dirs, qrs, uis);
        var ready := if r.outcome == PageReturned then [Emit("ready", [])] else [];
        Run(r.outcome, [StartPlaywright] + r.effects + ready, r.qrRest, r.uiRest)
      case _ => Run(Raised(TypeError), [StartPlaywright], qrs, uis)
  }

  /** The directories after authenticating: a persistent profile is created, and removed on expiry. */
  function DirsAfter(o: Options, dirs: set<string>, outcome: Outcome): set<string> {
    match o.auth
    case Some(LocalAuth(d, s)) => if Expired(outcome) then dirs - {d + s} else dirs + {d + s}
    case Some(LegacyLocalAuth(d, s)) => dirs + {d + s}
    case _ => dirs
  }

  /** Every event a strategy emits is "qr": none of them emits "ready". */
  lemma StrategyEmitsOnlyQr(o: Options, dirs: set<string>, qrs: seq<Option<string>>, uis: seq<bool>, hasPage: bool)
    ensures forall e :: e in StrategyRun(o, dirs, qrs, uis, hasPage).effects && e.Emit? ==> e.event == "qr"
  {
    var es := StrategyRun(o, dirs, qrs, uis, hasPage).effects;
    PollEffectKinds(DefaultMaxRetries, 0, None, qrs, uis);
    match o.auth
    case Some(LocalAuth(d, s)) =>
      LocalAuthProperties.ValidationEffectKinds(LocalAuthentication.DefaultLoadRetries, 0, qrs, uis,
                                                StopEffects(hasPage, true), d + s);
    case Some(LegacyLocalAuth(d, s)) =>
      LegacyLocalAuthentication.LegacyLoadProbesOnce(o.webUrl, qrs, uis);
    case _ =>
  }

  /** What each strategy can end with; only LocalAuth can end with SessionExpired, on its own path. */
  lemma StrategyOutcomes(o: Options, dirs: set<string>, qrs: seq<Option<string>>, uis: seq<bool>, hasPage: bool)
    ensures var outcome := StrategyRun(o, dirs, qrs, uis, hasPage).outcome;
      outcome in {PageReturned, OutOfScript, Raised(QrNotFound(DefaultMaxRetries)),
                  Raised(InvalidAuth(SessionExpired(ProfilePath(o.auth.GetOr(NoAuth))))),
                  Raised(InvalidAuth(SessionLoadError(LocalAuthentication.DefaultLoadRetries + 1))),
                  Raised(InvalidAuth(LegacySessionInvalid))}
    ensures Expired(StrategyRun(o, dirs, qrs, uis, hasPage).outcome) ==> o.auth.Some? && o.auth.value.LocalAuth?
  {
    match o.auth
    case Some(LocalAuth(d, s)) =>
      if d + s in dirs {
        LocalAuthProperties.AuthenticateExistingSession(o, d + s, qrs, uis, hasPage, true);
      } else {
        LocalAuthProperties.AuthenticateNewSession(o, d + s, qrs, uis, StopEffects(hasPage, true));
      }
    case Some(LegacyLocalAuth(d, s)) =>
      LegacyLocalAuthentication.LegacyAuthenticateBranches(o, d + s, d + s in dirs, qrs, uis);
    case _ =>
      NoAuthentication.FreshRunShape(o, qrs, uis);
  }

  /**
   * `options.get("auth").authenticate(...)`, dispatched on the strategy. The client is passed to
   * LocalAuth, whose logout stops it; the other strategies do not touch it.
   */
  method Authenticate(client: Client, env: Env, options: Options) returns (outcome: Outcome)
    requires options.auth.Some? && options.auth.value != AuthKind.NotBaseAuth && client.hasPlaywright
    modifies client, env
    ensures var run := StrategyRun(options, old(env.dirs), old(env.qrScript), old(env.uiScript), old(client.hasPage));
      outcome == run.outcome && env.log == old(env.log) + run.effects &&
      env.qrScript == run.qrRest && env.uiScript == run.uiRest
    ensures client.initialized == (old(client.initialized) && !Expired(outcome))
    ensures client.hasPage == old(client.hasPage) && client.hasPlaywright
    ensures env.dirs == DirsAfter(options, old(env.dirs), outcome)
  {
    StrategyOutcomes(options, env.dirs, env.qrScript, env.uiScript, client.hasPage);
    match options.auth.value {
      case LocalAuth(d, s) =>
        outcome := LocalAuthentication.Authenticate(client, env, options, d, s);
      case LegacyLocalAuth(d, s) =>
        outcome := LegacyLocalAuthentication.Authenticate(env, options, d, s);
      case NoAuth =>
        outcome := NoAuthentication.Authenticate(env, options);
    }
  }

  /** `initialize`: what it returns or raises, does and consumes is exactly InitializeRun. */
  method Initialize(client: Client, env: Env, opts: Options) returns (outcome: Outcome, options: Options)
    modifies client, env
    ensures var run := InitializeRun(opts, old(client.initialized), old(client.hasPage), old(env.dirs),
                                     old(env.qrScript), old(env.uiScript));
      outcome == run.outcome && env.log == old(env.log) + run.effects &&
      env.qrScript == run.qrRest && env.uiScript == run.uiRest
    ensures options == OptionsAfter(opts, old(client.initialized))
    ensures !Proceeds(opts, old(client.initialized)) ==>
      client.initialized == old(client.initialized) && client.hasPage == old(client.hasPage) &&
      client.hasPlaywright == old(client.hasPlaywright) && env.dirs == old(env.dirs)
    ensures Proceeds(opts, old(client.initialized)) ==>
      client.initialized == !Expired(outcome) && client.hasPlaywright &&
      client.hasPage == (old(client.hasPage) || outcome == PageReturned) &&
      env.dirs == DirsAfter(options, old(env.dirs), outcome)
  {
    if client.Initialized() {
      assert env.log == old(env.log) + [];
      return Raised(ClientAlreadyInitialized), opts;
    }
    options := WithAuthDefault(opts);
    if options.auth == Some(AuthKind.NotBaseAuth) {
      assert env.log == old(env.log) + [];
      return Raised(InvalidAuth(InvalidAuthKind.NotBaseAuth)), options;
    }
    options := WithDefaults(options);
    client.initialized := true;
    env.Record(StartPlaywright);
    client.hasPlaywright := true;
    ghost var run := StrategyRun(options, env.dirs, env.qrScript, env.uiScript, client.hasPage);
    outcome := Authenticate(client, env, options);
    assert env.log == old(env.log) + ([StartPlaywright] + run.effects);
    if outcome == PageReturned {
      client.hasPage := true;
      env.Record(Emit("ready", []));
    } else {
      assert env.log == old(env.log) + ([StartPlaywright] + run.effects + []);
    }
  }

  // ---------------------------------------------------------------- properties

  /**
   * "ready" is emitted exactly once when `initialize` returns, never when it raises, and it is
   * the last thing `initialize` does: after authentication has returned the page.
   */
  lemma ReadyExactlyOnce(opts: Options, initialized: bool, hasPage: bool, dirs: set<string>,
                         qrs: seq<Option<string>>, uis: seq<bool>)
    ensures Count(InitializeRun(opts, initialized, hasPage, dirs, qrs, uis).effects, Emit("ready", [])) ==
      if InitializeRun(opts, initialized, hasPage, dirs, qrs, uis).outcome == PageReturned then 1 else 0
    ensures InitializeRun(opts, initialized, hasPage, dirs, qrs, uis).outcome == PageReturned ==>
      var es := InitializeRun(opts, initialized, hasPage, dirs, qrs, uis).effects;
      |es| > 0 && es[|es| - 1] == Emit("ready", [])
  {
    if Proceeds(opts, initialized) {
      var o := OptionsAfter(opts, initialized);
      var r := StrategyRun(o, dirs, qrs, uis, hasPage);
      StrategyEmitsOnlyQr(o, dirs, qrs, uis, hasPage);
      CountAbsent(r.effects, Emit("ready", []));
      CountAppend([StartPlaywright], r.effects, Emit("ready", []));
      var ready := if r.outcome == PageReturned then [Emit("ready", [])] else [];
      CountAppend([StartPlaywright] + r.effects, ready, Emit("ready", []));
    }
  }

  /**
   * Two calls of `initialize` in a row: the second raises ClientAlreadyInitialized, and adds
   * nothing to the log, exactly when the client was initialized already or the first call got
   * past the guards and ended any way but SessionExpired (including a raised error), since the
   * flag is set before authenticating and cleared only by the logout of an expired session.
   */
  method InitializeTwice(client: Client, env: Env, opts: Options, opts2: Options) returns (first: Outcome, second: Outcome)
    modifies client, env
    ensures second == Raised(ClientAlreadyInitialized) <==>
      old(client.initialized) || (Proceeds(opts, false) && !Expired(first))
    ensures second == Raised(ClientAlreadyInitialized) ==>
      env.log == old(env.log) + InitializeRun(opts, old(client.initialized), old(client.hasPage), old(env.dirs),
                                              old(env.qrScript), old(env.uiScript)).effects
  {
    var options;
    first, options := Initialize(client, env, opts);
    StrategyOutcomes(OptionsAfter(opts2, false), env.dirs, env.qrScript, env.uiScript, client.hasPage);
    second, options := Initialize(client, env, opts2);
  }

  /** A non-BaseAuth object is rejected before the flag is set or anything is started. */
  lemma NotBaseAuthRejected(opts: Options, hasPage: bool, dirs: set<string>, qrs: seq<Option<string>>, uis: seq<bool>)
    requires opts.auth == Some(AuthKind.NotBaseAuth)
    ensures InitializeRun(opts, false, hasPage, dirs, qrs, uis) == Run(Raised(InvalidAuth(InvalidAuthKind.NotBaseAuth)), [], qrs, uis)
    ensures OptionsAfter(opts, false) == opts
  {
  }

  /**
   * Once the guards pass, the runtime is started first and the strategy's browser launched
   * next; unset options get their defaults, set ones are kept, and a missing auth means NoAuth.
   */
  lemma StartsRuntimeThenBrowser(opts: Options, hasPage: bool, dirs: set<string>, qrs: seq<Option<string>>, uis: seq<bool>)
    requires Proceeds(opts, false)
    ensures var es := InitializeRun(opts, false, hasPage, dirs, qrs, uis).effects;
      |es| >= 4 && es[0] == StartPlaywright && (es[1].Launch? || es[1].LaunchPersistent?) &&
      es[2] == NewPage && es[3] == Goto(OptionsAfter(opts, false).webUrl)
    ensures OptionsAfter(opts, false).auth == Some(opts.auth.GetOr(NoAuth))
    ensures OptionsAfter(opts, false).headless == Some(opts.headless.GetOr(DefaultHeadless))
    ensures OptionsAfter(opts, false).webUrl == Some(opts.webUrl.GetOr(DefaultWebUrl))
    ensures OptionsAfter(opts, false).qrDataSelector == Some(opts.qrDataSelector.GetOr(DefaultQrDataSelector))
  {
    var o := OptionsAfter(opts, false);
    match o.auth
    case Some(LocalAuth(d, s)) =>
      LocalAuthProperties.AuthenticateLaunchesFirst(o, d + s, d + s in dirs, qrs, uis, StopEffects(hasPage, true));
    case Some(LegacyLocalAuth(d, s)) =>
      QrRunNavigatesOnceFirst(o.webUrl, DefaultMaxRetries, qrs, uis);
    case _ =>
      NoAuthentication.FreshRunShape(o, qrs, uis);
  }

  /**
   * As written, `Client().initialize({})` (no auth, so NoAuth) raises TypeError after starting the
   * runtime and never emits "ready", whereas the intended call authenticates with NoAuth. As
   * written, "ready" follows only the older LocalAuth on an existing profile.
   */
  lemma DefaultOptionsRaiseTypeError(hasPage: bool, dirs: set<string>, qrs: seq<Option<string>>, uis: seq<bool>)
    ensures var opts := Options(None, None, None, None, None);
      InitializeAsWritten(opts, false, hasPage, dirs, qrs, uis) == Run(Raised(TypeError), [StartPlaywright], qrs, uis) &&
      InitializeRun(opts, false, hasPage, dirs, qrs, uis).outcome != Raised(TypeError)
  {
    var opts := Options(None, None, None, None, None);
    StrategyOutcomes(OptionsAfter(opts, false), dirs, qrs, uis, hasPage);
  }

  lemma AsWrittenReadyOnlyForLegacyExisting(opts: Options, initialized: bool, hasPage: bool, dirs: set<string>,
                                            qrs: seq<Option<string>>, uis: seq<bool>)
    ensures InitializeAsWritten(opts, initialized, hasPage, dirs, qrs, uis).outcome == PageReturned ==>
      var o := OptionsAfter(opts, initialized);
      o.auth.Some? && o.auth.value.LegacyLocalAuth? && ProfilePath(o.auth.value) in dirs
  {
  }
}
