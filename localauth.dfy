/**
 * LocalAuth (wawebpy/structures/auth/localauth.py): a persistent browser profile under
 * `<dirPath>/<sessionId>-session/`. An existing profile is validated by `_load_session`;
 * a missing one is created by logging in with the QR loop.
 */
module LocalAuthentication {
  import opened Wrappers
  import opened Strings
  import opened Exceptions
  import opened ClientOptions
  import opened Environment
  import opened Client
  import opened BaseAuth
  import opened BaseAuthProperties

  const DefaultDirPath := ".wawebpy_auth"
  const DefaultSessionId := "default"
  const DefaultLoadRetries := 3
  const SessionSuffix := "-session/"
  const Separators: set<char> := {'/', '\\'}

  // ---------------------------------------------------------------- the session path

  /**
   * `_dirPath`: trailing '/' stripped, then trailing '\\' stripped, then one '/' appended.
   * The part kept is a prefix of the input, does not end in '\\', and only separators were cut.
   */
  function DirPath(dirPath: string): (r: string)
    ensures EndsWith(r, "/")
    ensures r[..|r| - 1] <= dirPath
    ensures r[..|r| - 1] == [] || r[|r| - 2] != '\\'
    ensures forall i :: |r| - 1 <= i < |dirPath| ==> dirPath[i] in Separators
  {
    TrimRight(TrimRight(dirPath, {'/'}), {'\\'}) + "/"
  }

  /** The name part of `_sessionId`: the id without its '/' and '\\' characters. */
  function SessionName(sessionId: string): string {
    RemoveChar(RemoveChar(sessionId, '/'), '\\')
  }

  /**
   * `_sessionId`: every '/' and '\\' removed from the id, then "-session/" appended. The name
   * part keeps every other character of the id, with its multiplicity.
   */
  function SessionId(sessionId: string): (r: string)
    ensures EndsWith(r, SessionSuffix) && r[..|r| - |SessionSuffix|] == SessionName(sessionId)
    ensures var name := r[..|r| - |SessionSuffix|];
      '/' !in name && '\\' !in name && multiset(name) == multiset(sessionId)['/' := 0]['\\' := 0]
  {
    var once := RemoveChar(sessionId, '/');
    var name := SessionName(sessionId);
    RemoveCharKeepsOthers(sessionId, '/');
    RemoveCharKeepsOthers(once, '\\');
    assert '/' !in name by {
      assert multiset(name)['/'] == multiset(once)['/'] == 0;
    }
    assert (name + SessionSuffix)[..|name|] == name;
    name + SessionSuffix
  }

  /** Removing both separators works piecewise over a concatenation. */
  lemma SessionNameAppend(x: string, y: string)
    ensures SessionName(x + y) == SessionName(x) + SessionName(y)
  {
    RemoveCharAppend(x, y, '/');
    RemoveCharAppend(RemoveChar(x, '/'), RemoveChar(y, '/'), '\\');
  }

  /** A separator alone has an empty name. */
  lemma SeparatorNameEmpty(c: char)
    requires c in Separators
    ensures SessionName([c]) == []
  {
    assert [c][1..] == [];
    assert RemoveChar([], '/') == [] && RemoveChar([], '\\') == [];
    if c == '/' {
      assert RemoveChar([c], '/') == [];
    } else {
      assert RemoveChar([c], '/') == [c];
    }
  }

  /** The constructor: the stored auth object with both derived fields. */
  function Create(dirPath: string, sessionId: string): (a: AuthKind)
    ensures a.LocalAuth? && a.dirPath == DirPath(dirPath) && a.sessionId == SessionId(sessionId)
  {
    LocalAuth(DirPath(dirPath), SessionId(sessionId))
  }

  /** `filepath`: the directory part followed by the session part. */
  function Filepath(dirPath: string, sessionId: string): (p: string)
    ensures p == DirPath(dirPath) + SessionId(sessionId)
    ensures EndsWith(p, SessionSuffix)
    ensures p[..|DirPath(dirPath)|] == DirPath(dirPath)
  {
    var d, s := DirPath(dirPath), SessionId(sessionId);
    EndsWithAppend(d, s, SessionSuffix);
    assert (d + s)[..|d|] == d;
    d + s
  }

  /** A separator anywhere in the id does not change its name part. */
  lemma SessionNameDropsSeparator(a: string, b: string, c: char)
    requires c in Separators
    ensures SessionName(a + [c] + b) == SessionName(a + b)
  {
    SessionNameAppend(a + [c], b);
    SessionNameAppend(a, [c]);
    SessionNameAppend(a, b);
    SeparatorNameEmpty(c);
  }

  /** So it does not change the session part of the path either. */
  lemma SessionIdDropsSeparator(a: string, b: string, c: char)
    requires c in Separators
    ensures SessionId(a + [c] + b) == SessionId(a + b)
  {
    SessionNameDropsSeparator(a, b, c);
  }

  /** Different session ids can share one profile directory: only separators tell them apart. */
  lemma SessionPathsCollide(dirPath: string)
    ensures "a/b" != "ab" && Filepath(dirPath, "a/b") == Filepath(dirPath, "ab")
  {
    assert "a/b" == "a" + ['/'] + "b" && "ab" == "a" + "b";
    SessionIdDropsSeparator("a", "b", '/');
  }

  /** A trailing "/\\" leaves a doubled separator: stripping '/' first cannot see past the '\\'. */
  lemma DirPathKeepsSlashBeforeBackslash()
    ensures DirPath("a/\\") == "a//"
  {
    assert TrimRight("a/\\", {'/'}) == "a/\\";
    assert "a/\\"[..2] == "a/";
    assert TrimRight("a/\\", {'\\'}) == "a/" by {
      assert TrimRight("a/", {'\\'}) == "a/";
    }
  }

  // ---------------------------------------------------------------- `_load_session`

  /**
   * The validation loop from attempt `retry`: an attempt probes for the QR code (one seen means
   * the session expired: stop the client, remove the profile, raise), then for the loaded UI
   * (seen: the page is returned), else reloads and counts the attempt. `stop` is what stopping
   * the client does.
   */
  function Validation(maxRetries: int, retry: int, qrs: seq<Option<string>>, uis: seq<bool>,
                      stop: seq<Effect>, path: string): Run
    decreases |qrs|
  {
    if retry > maxRetries then Run(Raised(InvalidAuth(SessionLoadError(retry))), [], qrs, uis)
    else if qrs == [] then Run(OutOfScript, [], qrs, uis)
    else if qrs[0].Some? then
      Run(Raised(InvalidAuth(SessionExpired(path))), [QrProbed(qrs[0])] + stop + [RemoveDir(path)], qrs[1..], uis)
    else if uis == [] then Run(OutOfScript, [QrProbed(None)], qrs[1..], uis)
    else if uis[0] then Run(PageReturned, [QrProbed(None), UiProbed(true)], qrs[1..], uis[1..])
    else Prepend(FailedAttempt, Validation(maxRetries, retry + 1, qrs[1..], uis[1..], stop, path))
  }

  /** An attempt that saw neither the QR code nor the loaded UI. */
  const FailedAttempt: seq<Effect> := [QrProbed(None), UiProbed(false), Reload]

  /** The whole of `_load_session`: a new page, one navigation, then the attempts from zero. */
  function LoadRun(webUrl: Option<string>, maxRetries: int, qrs: seq<Option<string>>, uis: seq<bool>,
                   stop: seq<Effect>, path: string): Run
  {
    Prepend([NewPage, Goto(webUrl)], Validation(maxRetries, 0, qrs, uis, stop, path))
  }

  /** `logout`: stop the client, then remove the profile directory. */
  method Logout(client: Client, env: Env, path: string)
    modifies client, env
    ensures !client.initialized
    ensures client.hasPage == old(client.hasPage) && client.hasPlaywright == old(client.hasPlaywright)
    ensures env.log == old(env.log) + StopEffects(old(client.hasPage), old(client.hasPlaywright)) + [RemoveDir(path)]
    ensures env.dirs == old(env.dirs) - {path}
    ensures env.qrScript == old(env.qrScript) && env.uiScript == old(env.uiScript)
  {
    client.Stop(env);
    env.RemoveTree(path);
  }

  /** How one attempt of `_load_session` ends: `Reloaded` goes on to the next attempt. */
  datatype Attempt = Reloaded | Expired | Finished(outcome: Outcome)

  /**
   * One attempt, up to the logout: probe for the QR code (seen: the session expired), then for
   * the loaded UI (seen: the page is valid), else reload. `total` is the run of the whole loop
   * and `done` what the earlier attempts did; the attempt either completes `total` (an expired
   * session once `stop` and the removal follow) or extends `done`.
   */
  method TryLoad(env: Env, path: string, maxRetries: int, retry: int,
                 ghost stop: seq<Effect>, ghost total: Run, ghost log0: seq<Effect>, ghost done: seq<Effect>)
    returns (attempt: Attempt, ghost done': seq<Effect>)
    requires retry <= maxRetries
    requires env.log == log0 + done
    requires total == Prepend(done, Validation(maxRetries, retry, env.qrScript, env.uiScript, stop, path))
    modifies env
    ensures env.dirs == old(env.dirs)
    ensures attempt.Expired? ==>
      total.outcome == Raised(InvalidAuth(SessionExpired(path))) &&
      log0 + total.effects == env.log + stop + [RemoveDir(path)] &&
      env.qrScript == total.qrRest && env.uiScript == total.uiRest
    ensures attempt.Finished? ==>
      attempt.outcome == total.outcome && attempt.outcome != Raised(InvalidAuth(SessionExpired(path))) &&
      env.log == log0 + total.effects && env.qrScript == total.qrRest && env.uiScript == total.uiRest
    ensures attempt.Reloaded? ==>
      |env.qrScript| < |old(env.qrScript)| && env.log == log0 + done' &&
      total == Prepend(done', Validation(maxRetries, retry + 1, env.qrScript, env.uiScript, stop, path))
  {
    var qr := env.ProbeQr();
    if qr.Exhausted? {
      assert done + [] == done;
      return Finished(OutOfScript), done;
    } else if qr.value.Some? {
      assert log0 + (done + ([QrProbed(qr.value)] + stop + [RemoveDir(path)])) == env.log + stop + [RemoveDir(path)];
      return Expired, done;
    }
    var ui := env.ProbeUi();
    if ui.Exhausted? {
      assert env.log == log0 + (done + [QrProbed(None)]);
      return Finished(OutOfScript), done;
    } else if ui.value {
      assert env.log == log0 + (done + [QrProbed(None), UiProbed(true)]);
      return Finished(PageReturned), done;
    }
    env.Reload();
    assert env.log == log0 + (done + FailedAttempt);
    PrependTwice(done, FailedAttempt, Validation(maxRetries, retry + 1, env.qrScript, env.uiScript, stop, path));
    return Reloaded, done + FailedAttempt;
  }

  /** `_load_session`: what it returns, does and consumes is exactly LoadRun. */
  method LoadSession(client: Client, env: Env, opts: Options, path: string, maxRetries: int)
    returns (outcome: Outcome)
    modifies client, env
    ensures var run := LoadRun(opts.webUrl, maxRetries, old(env.qrScript), old(env.uiScript),
                               StopEffects(old(client.hasPage), old(client.hasPlaywright)), path);
      outcome == run.outcome && env.log == old(env.log) + run.effects &&
      env.qrScript == run.qrRest && env.uiScript == run.uiRest
    ensures var expired := outcome == Raised(InvalidAuth(SessionExpired(path)));
      env.dirs == (if expired then old(env.dirs) - {path} else old(env.dirs)) &&
      client.initialized == (old(client.initialized) && !expired)
    ensures client.hasPage == old(client.hasPage) && client.hasPlaywright == old(client.hasPlaywright)
  {
    ghost var stop := StopEffects(client.hasPage, client.hasPlaywright);
    ghost var total := LoadRun(opts.webUrl, maxRetries, env.qrScript, env.uiScript, stop, path);
    env.Record(NewPage);
    env.Record(Goto(opts.webUrl));
    ghost var done: seq<Effect> := [NewPage, Goto(opts.webUrl)];
    var retry := 0;
    var pageIsValid := false;
    while retry <= maxRetries
      invariant !pageIsValid
      invariant env.log == old(env.log) + done
      invariant total == Prepend(done, Validation(maxRetries, retry, env.qrScript, env.uiScript, stop, path))
      invariant env.dirs == old(env.dirs) && client.initialized == old(client.initialized)
      invariant client.hasPage == old(client.hasPage) && client.hasPlaywright == old(client.hasPlaywright)
      decreases |env.qrScript|
    {
      var attempt;
      attempt, done := TryLoad(env, path, maxRetries, retry, stop, total, old(env.log), done);
      if attempt.Expired? {
        Logout(client, env, path);
        return Raised(InvalidAuth(SessionExpired(path)));
      } else if attempt == Finished(PageReturned) {
        pageIsValid := true;
        break;
      } else if attempt.Finished? {
        return attempt.outcome;
      }
      retry := retry + 1;
    }
    if !pageIsValid {
      assert done + [] == done;
      return Raised(InvalidAuth(SessionLoadError(retry)));
    }
    return PageReturned;
  }

  // ---------------------------------------------------------------- `authenticate`

  /** `authenticate`: check for the profile, launch the persistent context on it, then load or log in. */
  function AuthenticateRun(opts: Options, path: string, existed: bool, qrs: seq<Option<string>>, uis: seq<bool>,
                           stop: seq<Effect>): Run
  {
    Prepend([LaunchPersistent(path, opts.headless)],
            if existed then LoadRun(opts.webUrl, DefaultLoadRetries, qrs, uis, stop, path)
            else QrRun(opts.webUrl, DefaultMaxRetries, qrs, uis))
  }

  method Authenticate(client: Client, env: Env, opts: Options, dirPath: string, sessionId: string)
    returns (outcome: Outcome)
    modifies client, env
    ensures var path := dirPath + sessionId;
      var run := AuthenticateRun(opts, path, path in old(env.dirs), old(env.qrScript), old(env.uiScript),
                                 StopEffects(old(client.hasPage), old(client.hasPlaywright)));
      outcome == run.outcome && env.log == old(env.log) + run.effects &&
      env.qrScript == run.qrRest && env.uiScript == run.uiRest
    ensures var path := dirPath + sessionId;
      env.dirs == if outcome == Raised(InvalidAuth(SessionExpired(path))) then old(env.dirs) - {path}
                  else old(env.dirs) + {path}
    ensures client.initialized == (old(client.initialized) && outcome != Raised(InvalidAuth(SessionExpired(dirPath + sessionId))))
    ensures client.hasPage == old(client.hasPage) && client.hasPlaywright == old(client.hasPlaywright)
  {
    var path := dirPath + sessionId;
    var sessionExists := env.PathExists(path);
    env.LaunchPersistentContext(path, opts.headless);
    if sessionExists {
      outcome := LoadSession(client, env, opts, path, DefaultLoadRetries);
    } else {
      outcome := AuthWithQr(env, opts, DefaultMaxRetries);
      QrRunRaisesOnlyQrNotFound(opts.webUrl, DefaultMaxRetries, old(env.qrScript), old(env.uiScript));
    }
  }
}

/** What `_load_session` and LocalAuth's `authenticate` promise, proved about Validation and LoadRun. */
module LocalAuthProperties {
  import opened Wrappers
  import opened Exceptions
  import opened ClientOptions
  import opened Environment
  import opened Client
  import opened BaseAuth
  import opened BaseAuthProperties
  import opened LocalAuthentication

  /** `k` failed attempts in a row: each probes the QR code, then the UI, then reloads. */
  function Failures(k: nat): seq<Effect>
    decreases k
  {
    if k == 0 then [] else FailedAttempt + Failures(k - 1)
  }

  /** The failed attempts reload once each and remove nothing. */
  lemma {:induction false} FailuresCounts(k: nat, path: string)
    ensures Count(Failures(k), Reload) == k
    ensures RemoveDir(path) !in Failures(k)
    ensures forall e :: e in Failures(k) ==> e == QrProbed(None) || e == UiProbed(false) || e == Reload
    decreases k
  {
    if k > 0 {
      FailuresCounts(k - 1, path);
      CountAppend(FailedAttempt, Failures(k - 1), Reload);
      assert Count(FailedAttempt, Reload) == 1 by {
        assert FailedAttempt[1..][1..] == [Reload];
        assert FailedAttempt[1..][1..][1..] == [];
      }
    }
  }

  /**
   * Attempts that see neither the QR code nor the loaded UI, while the budget lasts, only
   * reload: `k` of them put `Failures(k)` in front of the rest of the loop.
   */
  lemma {:induction false} FailedAttempts(maxRetries: int, retry: int, qrs: seq<Option<string>>, uis: seq<bool>,
                                          stop: seq<Effect>, path: string, k: nat)
    requires retry + k <= maxRetries + 1 && k <= |qrs| && k <= |uis|
    requires forall i :: 0 <= i < k ==> qrs[i] == None
    requires forall i :: 0 <= i < k ==> !uis[i]
    ensures Validation(maxRetries, retry, qrs, uis, stop, path)
              == Prepend(Failures(k), Validation(maxRetries, retry + k, qrs[k..], uis[k..], stop, path))
    decreases k
  {
    if k == 0 {
      var v := Validation(maxRetries, retry, qrs, uis, stop, path);
      assert qrs[0..] == qrs && uis[0..] == uis && [] + v.effects == v.effects;
    } else {
      assert qrs[0] == None && !uis[0];
      FailedAttempts(maxRetries, retry + 1, qrs[1..], uis[1..], stop, path, k - 1);
      assert qrs[1..][k - 1..] == qrs[k..] && uis[1..][k - 1..] == uis[k..];
      PrependTwice(FailedAttempt, Failures(k - 1),
                   Validation(maxRetries, retry + k, qrs[k..], uis[k..], stop, path));
    }
  }

  /** A load run made of the navigation, `k` failed attempts and a tail without reloads reloads `k` times. */
  lemma ReloadsOfAttempts(webUrl: Option<string>, k: nat, tail: seq<Effect>)
    requires Reload !in tail
    ensures Count([NewPage, Goto(webUrl)] + Failures(k) + tail, Reload) == k
  {
    var nav: seq<Effect> := [NewPage, Goto(webUrl)];
    CountAppend(nav + Failures(k), tail, Reload);
    CountAppend(nav, Failures(k), Reload);
    CountAbsent(nav, Reload);
    CountAbsent(tail, Reload);
    FailuresCounts(k, "");
  }

  lemma LoadedAfterFailures(webUrl: Option<string>, maxRetries: int, qrs: seq<Option<string>>, uis: seq<bool>,
                            stop: seq<Effect>, path: string, k: nat)
    requires k <= maxRetries && k < |qrs| && k < |uis|
    requires forall i :: 0 <= i < k ==> qrs[i] == None
    requires forall i :: 0 <= i < k ==> !uis[i]
    requires qrs[k] == None && uis[k]
    ensures LoadRun(webUrl, maxRetries, qrs, uis, stop, path)
              == Run(PageReturned, [NewPage, Goto(webUrl)] + Failures(k) + [QrProbed(None), UiProbed(true)],
                     qrs[k + 1..], uis[k + 1..])
  {
    var tail: seq<Effect> := [QrProbed(None), UiProbed(true)];
    FailedAttempts(maxRetries, 0, qrs, uis, stop, path, k);
    assert Validation(maxRetries, k, qrs[k..], uis[k..], stop, path) == Run(PageReturned, tail, qrs[k + 1..], uis[k + 1..]) by {
      assert qrs[k..][0] == qrs[k] && uis[k..][0] == uis[k];
      assert qrs[k..][1..] == qrs[k + 1..] && uis[k..][1..] == uis[k + 1..];
    }
    assert [NewPage, Goto(webUrl)] + (Failures(k) + tail) == [NewPage, Goto(webUrl)] + Failures(k) + tail;
  }

  /**
   * A valid session: after `k` failed attempts within the budget, an attempt without QR code
   * and with the loaded UI returns the page; `k` reloads, and the profile is kept.
   */
  lemma LoadedOnAttempt(webUrl: Option<string>, maxRetries: int, qrs: seq<Option<string>>, uis: seq<bool>,
                        stop: seq<Effect>, path: string, k: nat)
    requires k <= maxRetries && k < |qrs| && k < |uis|
    requires forall i :: 0 <= i < k ==> qrs[i] == None
    requires forall i :: 0 <= i < k ==> !uis[i]
    requires qrs[k] == None && uis[k]
    ensures LoadRun(webUrl, maxRetries, qrs, uis, stop, path)
              == Run(PageReturned, [NewPage, Goto(webUrl)] + Failures(k) + [QrProbed(None), UiProbed(true)],
                     qrs[k + 1..], uis[k + 1..])
    ensures Count(LoadRun(webUrl, maxRetries, qrs, uis, stop, path).effects, Reload) == k
    ensures RemoveDir(path) !in LoadRun(webUrl, maxRetries, qrs, uis, stop, path).effects
  {
    LoadedAfterFailures(webUrl, maxRetries, qrs, uis, stop, path, k);
    ReloadsOfAttempts(webUrl, k, [QrProbed(None), UiProbed(true)]);
    FailuresCounts(k, path);
  }

  /**
   * An expired session: after `k` failed attempts within the budget, an attempt that reads the
   * QR code stops the client, removes the profile and raises SessionExpired.
   */
  lemma ExpiredOnAttempt(webUrl: Option<string>, maxRetries: int, qrs: seq<Option<string>>, uis: seq<bool>,
                         stop: seq<Effect>, path: string, k: nat)
    requires k <= maxRetries && k < |qrs| && k <= |uis|
    requires forall i :: 0 <= i < k ==> qrs[i] == None
    requires forall i :: 0 <= i < k ==> !uis[i]
    requires qrs[k].Some?
    ensures LoadRun(webUrl, maxRetries, qrs, uis, stop, path)
              == Run(Raised(InvalidAuth(SessionExpired(path))),
                     [NewPage, Goto(webUrl)] + Failures(k) + ([QrProbed(qrs[k])] + stop + [RemoveDir(path)]),
                     qrs[k + 1..], uis[k..])
  {
    FailedAttempts(maxRetries, 0, qrs, uis, stop, path, k);
    assert qrs[k..][0] == qrs[k] && qrs[k..][1..] == qrs[k + 1..];
    var tail := [QrProbed(qrs[k])] + stop + [RemoveDir(path)];
    assert [NewPage, Goto(webUrl)] + (Failures(k) + tail) == [NewPage, Goto(webUrl)] + Failures(k) + tail;
  }

  /**
   * A spent budget: `maxRetries + 1` failed attempts raise SessionLoadError with that count,
   * after as many reloads, and the profile is kept.
   */
  lemma BudgetSpent(webUrl: Option<string>, maxRetries: int, qrs: seq<Option<string>>, uis: seq<bool>,
                    stop: seq<Effect>, path: string)
    requires 0 <= maxRetries + 1 <= |qrs| && maxRetries + 1 <= |uis|
    requires forall i :: 0 <= i <= maxRetries ==> qrs[i] == None
    requires forall i :: 0 <= i <= maxRetries ==> !uis[i]
    ensures LoadRun(webUrl, maxRetries, qrs, uis, stop, path)
              == Run(Raised(InvalidAuth(SessionLoadError(maxRetries + 1))),
                     [NewPage, Goto(webUrl)] + Failures(maxRetries + 1),
                     qrs[maxRetries + 1..], uis[maxRetries + 1..])
    ensures Count(LoadRun(webUrl, maxRetries, qrs, uis, stop, path).effects, Reload) == maxRetries + 1
    ensures RemoveDir(path) !in LoadRun(webUrl, maxRetries, qrs, uis, stop, path).effects
  {
    var k: nat := maxRetries + 1;
    FailedAttempts(maxRetries, 0, qrs, uis, stop, path, k);
    assert [NewPage, Goto(webUrl)] + (Failures(k) + []) == [NewPage, Goto(webUrl)] + Failures(k) + [];
    assert [NewPage, Goto(webUrl)] + Failures(k) + [] == [NewPage, Goto(webUrl)] + Failures(k);
    ReloadsOfAttempts(webUrl, k, []);
    FailuresCounts(k, path);
  }

  /** With the default budget of 3, four attempts are made and four reloads issued before giving up. */
  lemma DefaultBudgetFourAttempts(webUrl: Option<string>, qrs: seq<Option<string>>, uis: seq<bool>,
                                  stop: seq<Effect>, path: string)
    requires |qrs| >= 4 && |uis| >= 4
    requires forall i :: 0 <= i < 4 ==> qrs[i] == None
    requires forall i :: 0 <= i < 4 ==> !uis[i]
    ensures LoadRun(webUrl, DefaultLoadRetries, qrs, uis, stop, path).outcome == Raised(InvalidAuth(SessionLoadError(4)))
    ensures Count(LoadRun(webUrl, DefaultLoadRetries, qrs, uis, stop, path).effects, Reload) == 4
  {
    BudgetSpent(webUrl, DefaultLoadRetries, qrs, uis, stop, path);
  }

  // ---------------------------------------------------------------- outcomes and removal

  /**
   * The ways validation from attempt `retry` ends: the page, an expired session, a spent budget
   * (counting the attempts made: `maxRetries + 1`, or `retry` if that is already past it), or the
   * end of a probe script.
   */
  predicate ValidationOutcome(o: Outcome, maxRetries: int, retry: int, path: string) {
    o == PageReturned || o == OutOfScript || o == Raised(InvalidAuth(SessionExpired(path))) ||
    o == Raised(InvalidAuth(SessionLoadError(if retry > maxRetries then retry else maxRetries + 1)))
  }

  lemma {:induction false} ValidationOutcomes(maxRetries: int, retry: int, qrs: seq<Option<string>>, uis: seq<bool>,
                                              stop: seq<Effect>, path: string)
    ensures ValidationOutcome(Validation(maxRetries, retry, qrs, uis, stop, path).outcome, maxRetries, retry, path)
    decreases |qrs|
  {
    if retry <= maxRetries && qrs != [] && qrs[0].None? && uis != [] && !uis[0] {
      ValidationOutcomes(maxRetries, retry + 1, qrs[1..], uis[1..], stop, path);
    }
  }

  /**
   * `_load_session` raises only LocalAuth's own errors: SessionExpired for this profile, or
   * SessionLoadError with the number of attempts (none at all when the budget is negative).
   */
  lemma LoadRunOutcomes(webUrl: Option<string>, maxRetries: int, qrs: seq<Option<string>>, uis: seq<bool>,
                        stop: seq<Effect>, path: string)
    ensures LoadRun(webUrl, maxRetries, qrs, uis, stop, path).outcome in
      {PageReturned, OutOfScript, Raised(InvalidAuth(SessionExpired(path))),
       Raised(InvalidAuth(SessionLoadError(if maxRetries < 0 then 0 else maxRetries + 1)))}
  {
    ValidationOutcomes(maxRetries, 0, qrs, uis, stop, path);
  }

  /** The state of the run for the removal: expired runs remove the profile once, others never. */
  predicate RemovesIffExpired(run: Run, path: string) {
    Count(run.effects, RemoveDir(path)) == (if run.outcome == Raised(InvalidAuth(SessionExpired(path))) then 1 else 0)
  }

  /** The profile is removed exactly when the session expired, and then once. */
  lemma {:induction false} ValidationRemovesOnlyWhenExpired(maxRetries: int, retry: int, qrs: seq<Option<string>>,
                                                            uis: seq<bool>, stop: seq<Effect>, path: string)
    requires RemoveDir(path) !in stop
    ensures RemovesIffExpired(Validation(maxRetries, retry, qrs, uis, stop, path), path)
    decreases |qrs|
  {
    var run := Validation(maxRetries, retry, qrs, uis, stop, path);
    if retry > maxRetries || qrs == [] {
    } else if qrs[0].Some? {
      var tail := stop + [RemoveDir(path)];
      assert run.effects == [QrProbed(qrs[0])] + tail;
      CountAppend([QrProbed(qrs[0])], tail, RemoveDir(path));
      CountAppend(stop, [RemoveDir(path)], RemoveDir(path));
      CountAbsent(stop, RemoveDir(path));
      CountAbsent([QrProbed(qrs[0])], RemoveDir(path));
      assert Count([RemoveDir(path)], RemoveDir(path)) == 1;
    } else if uis == [] || uis[0] {
      CountAbsent(run.effects, RemoveDir(path));
    } else {
      var next := Validation(maxRetries, retry + 1, qrs[1..], uis[1..], stop, path);
      ValidationRemovesOnlyWhenExpired(maxRetries, retry + 1, qrs[1..], uis[1..], stop, path);
      CountAppend(FailedAttempt, next.effects, RemoveDir(path));
      CountAbsent(FailedAttempt, RemoveDir(path));
    }
  }

  /** The effects of `run` end with the logout: stopping the client, then removing the profile. */
  predicate EndsWithLogout(run: Run, stop: seq<Effect>, path: string) {
    |run.effects| > |stop| && run.effects[|run.effects| - |stop| - 1..] == stop + [RemoveDir(path)]
  }

  /** Whatever comes before a run does not change how it ends. */
  lemma EndsWithLogoutPrepend(pre: seq<Effect>, run: Run, stop: seq<Effect>, path: string)
    requires EndsWithLogout(run, stop, path)
    ensures EndsWithLogout(Prepend(pre, run), stop, path)
  {
    SuffixOfAppend(pre, run.effects, |stop| + 1);
  }

  lemma SuffixOfAppend(a: seq<Effect>, b: seq<Effect>, n: nat)
    requires n <= |b|
    ensures (a + b)[|a + b| - n..] == b[|b| - n..]
  {
    assert (a + b)[|a|..] == b;
    assert (a + b)[|a + b| - n..] == (a + b)[|a|..][|b| - n..];
  }

  /** The run of an attempt that saw the QR code ends with the logout. */
  lemma ExpiredAttemptEndsWithLogout(o: Outcome, probe: Effect, stop: seq<Effect>, path: string,
                                     qrs: seq<Option<string>>, uis: seq<bool>)
    ensures EndsWithLogout(Run(o, [probe] + stop + [RemoveDir(path)], qrs, uis), stop, path)
  {
    var tail := stop + [RemoveDir(path)];
    assert [probe] + stop + [RemoveDir(path)] == [probe] + tail;
    assert tail[|tail| - |stop| - 1..] == tail;
    EndsWithLogoutPrepend([probe], Run(o, tail, qrs, uis), stop, path);
  }

  /** An expired session is logged out as the very last thing before SessionExpired is raised. */
  lemma {:induction false} ExpiredEndsWithLogout(maxRetries: int, retry: int, qrs: seq<Option<string>>,
                                                 uis: seq<bool>, stop: seq<Effect>, path: string)
    requires Validation(maxRetries, retry, qrs, uis, stop, path).outcome == Raised(InvalidAuth(SessionExpired(path)))
    ensures EndsWithLogout(Validation(maxRetries, retry, qrs, uis, stop, path), stop, path)
    decreases |qrs|
  {
    assert retry <= maxRetries && qrs != [];
    if qrs[0].Some? {
      ExpiredAttemptEndsWithLogout(Raised(InvalidAuth(SessionExpired(path))), QrProbed(qrs[0]), stop, path, qrs[1..], uis);
    } else {
      assert uis != [] && !uis[0];
      var next := Validation(maxRetries, retry + 1, qrs[1..], uis[1..], stop, path);
      assert Validation(maxRetries, retry, qrs, uis, stop, path) == Prepend(FailedAttempt, next);
      ExpiredEndsWithLogout(maxRetries, retry + 1, qrs[1..], uis[1..], stop, path);
      EndsWithLogoutPrepend(FailedAttempt, next, stop, path);
    }
  }

  lemma LoadRunRemovesIffExpired(webUrl: Option<string>, maxRetries: int, qrs: seq<Option<string>>, uis: seq<bool>,
                                 stop: seq<Effect>, path: string)
    requires RemoveDir(path) !in stop
    ensures RemovesIffExpired(LoadRun(webUrl, maxRetries, qrs, uis, stop, path), path)
  {
    var v := Validation(maxRetries, 0, qrs, uis, stop, path);
    var nav: seq<Effect> := [NewPage, Goto(webUrl)];
    ValidationRemovesOnlyWhenExpired(maxRetries, 0, qrs, uis, stop, path);
    CountAppend(nav, v.effects, RemoveDir(path));
    CountAbsent(nav, RemoveDir(path));
  }

  /** `_load_session` with the stop of a client, for the flags it holds. */
  lemma LoadRunRemovesOnlyWhenExpired(webUrl: Option<string>, maxRetries: int, qrs: seq<Option<string>>,
                                      uis: seq<bool>, hasPage: bool, hasPlaywright: bool, path: string)
    ensures RemovesIffExpired(LoadRun(webUrl, maxRetries, qrs, uis, StopEffects(hasPage, hasPlaywright), path), path)
    ensures LoadRun(webUrl, maxRetries, qrs, uis, StopEffects(hasPage, hasPlaywright), path).outcome
              == Raised(InvalidAuth(SessionExpired(path))) ==>
            EndsWithLogout(LoadRun(webUrl, maxRetries, qrs, uis, StopEffects(hasPage, hasPlaywright), path),
                           StopEffects(hasPage, hasPlaywright), path)
  {
    var stop := StopEffects(hasPage, hasPlaywright);
    assert RemoveDir(path) !in stop;
    LoadRunRemovesIffExpired(webUrl, maxRetries, qrs, uis, stop, path);
    if LoadRun(webUrl, maxRetries, qrs, uis, stop, path).outcome == Raised(InvalidAuth(SessionExpired(path))) {
      ExpiredEndsWithLogout(maxRetries, 0, qrs, uis, stop, path);
      EndsWithLogoutPrepend([NewPage, Goto(webUrl)], Validation(maxRetries, 0, qrs, uis, stop, path), stop, path);
    }
  }

  // ---------------------------------------------------------------- probe order and effect kinds

  /** Within an attempt, the loaded UI is waited for only after the QR probe found nothing. */
  lemma {:induction false} ValidationProbesUiAfterMiss(maxRetries: int, retry: int, qrs: seq<Option<string>>,
                                                       uis: seq<bool>, stop: seq<Effect>, path: string)
    requires forall e :: e in stop ==> !e.UiProbed?
    ensures UiAfterMiss(Validation(maxRetries, retry, qrs, uis, stop, path).effects)
    decreases |qrs|
  {
    var es := Validation(maxRetries, retry, qrs, uis, stop, path).effects;
    if retry > maxRetries || qrs == [] {
    } else if qrs[0].Some? {
      forall i | 0 <= i < |es|
        ensures UiAfterMissAt(es, i)
      {
        assert es[i] in es && es == [QrProbed(qrs[0])] + stop + [RemoveDir(path)];
      }
    } else if uis == [] || uis[0] {
      assert UiAfterMiss(es);
    } else {
      assert UiAfterMiss(FailedAttempt);
      ValidationProbesUiAfterMiss(maxRetries, retry + 1, qrs[1..], uis[1..], stop, path);
      UiAfterMissAppend(FailedAttempt, Validation(maxRetries, retry + 1, qrs[1..], uis[1..], stop, path).effects);
    }
  }

  /** What validation does: probes, reloads, and the logout (`stop`, then the removal of the profile). */
  predicate ValidationEffect(e: Effect, stop: seq<Effect>, path: string) {
    e.QrProbed? || e.UiProbed? || e == Reload || e in stop || e == RemoveDir(path)
  }

  lemma {:induction false} ValidationEffectKinds(maxRetries: int, retry: int, qrs: seq<Option<string>>,
                                                 uis: seq<bool>, stop: seq<Effect>, path: string)
    ensures forall e :: e in Validation(maxRetries, retry, qrs, uis, stop, path).effects ==> ValidationEffect(e, stop, path)
    decreases |qrs|
  {
    if retry <= maxRetries && qrs != [] && qrs[0].None? && uis != [] && !uis[0] {
      ValidationEffectKinds(maxRetries, retry + 1, qrs[1..], uis[1..], stop, path);
    }
  }

  // ---------------------------------------------------------------- `authenticate`

  /** Either way, the persistent context on the profile directory is launched first. */
  lemma AuthenticateLaunchesFirst(opts: Options, path: string, existed: bool, qrs: seq<Option<string>>,
                                  uis: seq<bool>, stop: seq<Effect>)
    ensures var es := AuthenticateRun(opts, path, existed, qrs, uis, stop).effects;
      |es| >= 3 && es[0] == LaunchPersistent(path, opts.headless) && es[1] == NewPage && es[2] == Goto(opts.webUrl)
  {
    if !existed {
      QrRunNavigatesOnceFirst(opts.webUrl, DefaultMaxRetries, qrs, uis);
    }
  }

  /**
   * An existing profile is validated, never logged in to: no "qr" event, no QrNotFound; it
   * ends with the page, SessionExpired (the profile removed) or SessionLoadError after four attempts.
   */
  lemma AuthenticateExistingSession(opts: Options, path: string, qrs: seq<Option<string>>, uis: seq<bool>,
                                    hasPage: bool, hasPlaywright: bool)
    ensures QrEmits(AuthenticateRun(opts, path, true, qrs, uis, StopEffects(hasPage, hasPlaywright)).effects) == []
    ensures AuthenticateRun(opts, path, true, qrs, uis, StopEffects(hasPage, hasPlaywright)).outcome in
      {PageReturned, OutOfScript, Raised(InvalidAuth(SessionExpired(path))), Raised(InvalidAuth(SessionLoadError(4)))}
    ensures RemovesIffExpired(AuthenticateRun(opts, path, true, qrs, uis, StopEffects(hasPage, hasPlaywright)), path)
  {
    var stop := StopEffects(hasPage, hasPlaywright);
    var load := LoadRun(opts.webUrl, DefaultLoadRetries, qrs, uis, stop, path);
    var es := [LaunchPersistent(path, opts.headless)] + load.effects;
    LoadRunOutcomes(opts.webUrl, DefaultLoadRetries, qrs, uis, stop, path);
    LoadRunRemovesOnlyWhenExpired(opts.webUrl, DefaultLoadRetries, qrs, uis, hasPage, hasPlaywright, path);
    ValidationEffectKinds(DefaultLoadRetries, 0, qrs, uis, stop, path);
    forall e | e in es
      ensures !e.Emit?
    {
      if e !in [LaunchPersistent(path, opts.headless), NewPage, Goto(opts.webUrl)] {
        assert e in Validation(DefaultLoadRetries, 0, qrs, uis, stop, path).effects;
      }
    }
    NoEvents(es);
    CountAppend([LaunchPersistent(path, opts.headless)], load.effects, RemoveDir(path));
  }

  /**
   * A missing profile is created by the QR login: nothing is removed, and the only exception
   * is QrNotFound with the default budget.
   */
  lemma AuthenticateNewSession(opts: Options, path: string, qrs: seq<Option<string>>, uis: seq<bool>, stop: seq<Effect>)
    ensures forall e :: e in AuthenticateRun(opts, path, false, qrs, uis, stop).effects ==> !e.RemoveDir?
    ensures AuthenticateRun(opts, path, false, qrs, uis, stop).outcome in
      {PageReturned, OutOfScript, Raised(QrNotFound(DefaultMaxRetries))}
  {
    PollEffectKinds(DefaultMaxRetries, 0, None, qrs, uis);
    QrRunRaisesOnlyQrNotFound(opts.webUrl, DefaultMaxRetries, qrs, uis);
  }
}
