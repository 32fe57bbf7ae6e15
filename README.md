# whatsapp-web.py authentication core, modelled in Dafny

This project models the authentication orchestrator of whatsapp-web.py (`wawebpy`), a Python
client that drives WhatsApp Web through Playwright. The modelled parts are:

- **QR login** (`BaseAuth._auth_with_qr`): open a page and navigate to WhatsApp Web. Then poll
  for the QR code and emit `"qr"` whenever its data changes. Count consecutive misses, reload
  the page on every third miss, and give up with `QrNotFound` once `max_retries` misses are
  consecutive. After a miss, check whether the loaded UI appeared.
- **Persisted sessions** (`LocalAuth`): the profile path is derived from `dirPath` and
  `sessionId`. A persistent Chromium context is launched on that path. An existing profile is
  validated by `_load_session`:
  - a QR code means the session expired: log out, remove the profile, raise `SessionExpired`;
  - the loaded UI means the session is valid;
  - otherwise reload and retry, raising `SessionLoadError` once the budget is spent.

  A missing profile is created by the QR login.
- **The older LocalAuth** (`_localauth.py`): a single QR probe decides between a valid page
  and `InvalidAuth`.
- **NoAuth**: a plain browser, then the QR login.
- **The client**: `initialize` with its two guards, its defaulting of the options dictionary,
  the runtime start, the dispatch to the strategy, and `"ready"` on success. Also `stop`.
- **The event emitters**: the full one (`on`, `once`, `off`, `emit`) and the minimal one
  (`on`, `emit`).
- **`get_module_script`**, which builds the `require('…')…(…)` JavaScript expression.

The browser, the file system and Playwright are one oracle, `Environment.Env`. Its QR probe
answers from a finite script of `Some(data-ref)` / `None` (the timeout of `get_qr_in_page`). Its
loaded-UI probe answers from a script of booleans (`wait_for_selector` found, or timed out). A
set of existing directories stands for the file system. Every effect the code causes goes, in
order, into a log: navigation, reload, probes, events, launch, removal, close and stop.

Each imperative routine is a `method` with the source's loop. It is proved to return, log and
consume exactly what a recursive specification function says: `Poll`/`QrRun` for the QR login,
`Validation`/`LoadRun` for `_load_session`, `InitializeRun` for `initialize`. The properties the
source promises are then proved as lemmas about those functions. `OutOfScript` is the outcome
of a run that is still polling when a probe script is used up; the source would go on waiting.

In these places the code behaves in ways that are easy to misread; the model follows the code:

- `emit` does not isolate a raising callback. It re-raises it as `RuntimeError`, and the
  callbacks after it are not invoked (`EmitterProperties.EmitStopsAtRaising`).
- `initialize` sets the flag before authenticating and does not reset it when authentication
  fails. Only the logout of an expired session clears it, through `stop`
  (`ClientLifecycle.InitializeTwice`). No failure is wrapped in an initialization
  error, and `initialize` does not wait for network idle before emitting `"ready"`.
- `stop` has no `finally`. It closes the page and the runtime only when they are set, and it
  never clears them.
- With `max_retries = 3` and the QR code never found, the code reloads **zero** times, not
  once. The third miss raises before the reload check (`BaseAuthProperties.BudgetThreeNeverReloads`).
  With the default budget of five it reloads once (`BaseAuthProperties.DefaultBudgetReloadsOnce`).
- The session path is not injective. Ids that differ only in `/` or `\` share one profile
  (`LocalAuthentication.SessionPathsCollide`).

## Model

| member | source | states |
|---|---|---|
| BaseAuth.AuthWithQr | wawebpy/structures/auth/baseauth.py:24-93 | the outcome, the effect log and the consumed probe answers are exactly `QrRun`: a new page, one navigation to `web_url`, then the polling loop from a zero counter; no directory changes |
| BaseAuth.PollPass | wawebpy/structures/auth/baseauth.py:41-91 | one loop iteration is one step of `Poll`. A read resets the counter, and emits only changed data, with no UI probe. A miss counts; at the budget it raises `QrNotFound(max_retries)`; on multiples of 3 it reloads; then the UI is probed. The counter at the loop head stays 0 or strictly below the budget |
| BaseAuthProperties.PollEffectKinds | wawebpy/structures/auth/baseauth.py:41-91 | the loop only probes, reloads and emits `"qr"`; it never navigates, removes or launches |
| BaseAuthProperties.QrRunNavigatesOnceFirst | wawebpy/structures/auth/baseauth.py:36-38 | the page is opened and navigated first and never again; no probe precedes the navigation |
| BaseAuthProperties.PollRaisesOnlyQrNotFound | wawebpy/structures/auth/baseauth.py:58-65 | from any loop state, the only exception is `QrNotFound` carrying `max_retries` |
| BaseAuthProperties.QrRunRaisesOnlyQrNotFound | wawebpy/structures/auth/baseauth.py:24-93 | `_auth_with_qr` returns the page, runs out of answers, or raises `QrNotFound(max_retries)`, and nothing else |
| BaseAuthProperties.PollProbesUiOnlyAfterMiss | wawebpy/structures/auth/baseauth.py:81-91 | every loaded-UI probe directly follows a QR miss, or the reload that miss caused: passes that read a QR code never probe the UI |
| BaseAuthProperties.PollLoadedUiEndsLoop | wawebpy/structures/auth/baseauth.py:84-89 | a loaded UI breaks the loop: it can only be the last effect, and the page is returned |
| BaseAuthProperties.PollReturnsOnlyAfterLoadedUi | wawebpy/structures/auth/baseauth.py:41-93 | from a valid loop head, the page is returned only right after a miss and a loaded UI in the same pass, or, when the budget is negative, before any probe |
| BaseAuthProperties.QrRunReturnsOnlyAfterLoadedUi | wawebpy/structures/auth/baseauth.py:24-93 | a negative budget returns the navigated page without probing; otherwise a returned page always follows a miss and a loaded UI |
| BaseAuthProperties.ChangesNeverRepeat | wawebpy/structures/auth/baseauth.py:73-79 | the reference change detector never reports the same data twice in a row, nor the data last reported before |
| BaseAuthProperties.ChangesAreReads | wawebpy/structures/auth/baseauth.py:73-79 | every reported change is one of the values read |
| BaseAuthProperties.ChangesOfOneCode | wawebpy/structures/auth/baseauth.py:73-79 | reading one code repeatedly, with misses between, reports it at most once, and not at all if it was the last one reported |
| BaseAuthProperties.HitObserved | wawebpy/structures/auth/baseauth.py:44-50 | a pass that reads `data` records exactly that read, and the `"qr"` event exactly when the data differs from the last emitted |
| BaseAuthProperties.MissObserved | wawebpy/structures/auth/baseauth.py:51-70 | a missed pass records one missing read and no event |
| BaseAuthProperties.PollEmitsChanges | wawebpy/structures/auth/baseauth.py:72-79 | the `"qr"` events the loop emits are exactly the changes in the sequence of its QR reads, relative to the last emitted code |
| BaseAuthProperties.QrRunEmitsChanges | wawebpy/structures/auth/baseauth.py:35 | starting from `qr = None`, the `"qr"` events of `_auth_with_qr` are exactly the changes of its reads |
| BaseAuthProperties.PollMissesRun | wawebpy/structures/auth/baseauth.py:51-70 | `max_retries - retry` misses in a row, with the UI not loaded after all but the last, give exactly the run `MissesUntilFailure`, ending in `QrNotFound`, and consume exactly those answers |
| BaseAuthProperties.MissesReloads | wawebpy/structures/auth/baseauth.py:66-68 | in such a run the reloads are the multiples of 3 strictly between the start counter and the budget |
| BaseAuthProperties.PollConsecutiveMissesFail | wawebpy/structures/auth/baseauth.py:51-68 | consecutive misses from a counter below the budget end in `QrNotFound(max_retries)`, reload exactly `ReloadsBetween(retry, max_retries)` times, and consume one QR answer per miss |
| BaseAuthProperties.MissReloads | wawebpy/structures/auth/baseauth.py:66-68 | a missed pass reloads once when its counter is a multiple of 3, else never |
| BaseAuthProperties.DefaultBudgetReloadsOnce | wawebpy/structures/auth/baseauth.py:24 | with the default budget of 5, five misses raise `QrNotFound(5)` after exactly one reload |
| BaseAuthProperties.BudgetThreeNeverReloads | wawebpy/structures/auth/baseauth.py:58-68 | with a budget of 3, three misses raise `QrNotFound(3)` after no reload: the raise comes before the reload check |
| BaseAuthProperties.MissCounterCountsMisses | wawebpy/structures/auth/baseauth.py:50-52 | the loop's counter after a run of effects is the number of misses since the last read, plus the starting counter when nothing was read yet |
| BaseAuthProperties.PollReloadsOnPeriod | wawebpy/structures/auth/baseauth.py:50-68 | from a valid loop head, in any run, an effect is a reload exactly when it directly follows a miss that brings the counter to a positive multiple of 3 below `max_retries`, and every such miss is followed by one; the miss that reaches the budget never reloads |
| BaseAuthProperties.QrRunReloadsOnPeriod | wawebpy/structures/auth/baseauth.py:36-68 | over the whole of `_auth_with_qr`, counting from 0, the reloads are exactly those right after the misses that reach a positive multiple of 3 below the budget |
| BaseAuthProperties.PollQrNotFoundAfterMisses | wawebpy/structures/auth/baseauth.py:50-65 | `QrNotFound` is raised only once the read sequence ends in misses that, with those counted before the last successful read, reach the budget (one miss for a budget of 0) |
| BaseAuthProperties.QrRunQrNotFoundAfterMisses | wawebpy/structures/auth/baseauth.py:40-65 | `_auth_with_qr` raises `QrNotFound` only after its last `max_retries` reads (at least one) all missed |
| BaseAuthProperties.FailedAfterRead | wawebpy/structures/auth/baseauth.py:50 | a successful read resets the count: the misses that cause `QrNotFound` all come after it |
| BaseAuthProperties.FailedAfterMiss | wawebpy/structures/auth/baseauth.py:52 | a miss joins the run of misses that follows it |
| BaseAuthProperties.TrailingMissesCons | wawebpy/structures/auth/baseauth.py:50-52 | prefixing a read to a sequence adds one trailing miss exactly when the whole sequence and the new read are misses |
| LocalAuthentication.DirPath | wawebpy/structures/auth/localauth.py:21 | `_dirPath` ends in `/`; what precedes it is a prefix of the argument that does not end in `\`; only `/` and `\` were cut from the end |
| LocalAuthentication.SessionId | wawebpy/structures/auth/localauth.py:22 | `_sessionId` ends in `-session/`; its name part has no `/` or `\` and keeps every other character of the id with its multiplicity |
| LocalAuthentication.Create | wawebpy/structures/auth/localauth.py:19-22 | the constructed LocalAuth stores the derived directory and session parts |
| LocalAuthentication.Filepath | wawebpy/structures/auth/localauth.py:24-26 | the profile path is the directory part followed by the session part, and ends in `-session/` |
| LocalAuthentication.SessionNameAppend | wawebpy/structures/auth/localauth.py:22 | the separator removal works piecewise over concatenation |
| LocalAuthentication.SessionIdDropsSeparator | wawebpy/structures/auth/localauth.py:22 | inserting a `/` or `\` anywhere in the id does not change the session part |
| LocalAuthentication.SessionPathsCollide | wawebpy/structures/auth/localauth.py:22-26 | the ids `"a/b"` and `"ab"` differ but map to the same profile path, for every `dirPath` |
| LocalAuthentication.DirPathKeepsSlashBeforeBackslash | wawebpy/structures/auth/localauth.py:21 | `"a/\"` becomes `"a//"`: `/` is stripped before `\`, so a doubled separator survives |
| LocalAuthentication.Logout | wawebpy/structures/auth/localauth.py:45-49 | logout stops the client (closing what is set, clearing the flag), then removes the profile directory, in that order |
| LocalAuthentication.TryLoad | wawebpy/structures/auth/localauth.py:58-75 | one attempt is one step of `Validation`. A QR code means expired, and what remains is the logout and the raise. A loaded UI finishes with the page. Otherwise it reloads and goes to the next attempt |
| LocalAuthentication.LoadSession | wawebpy/structures/auth/localauth.py:51-81 | the outcome, log and consumed answers are exactly `LoadRun`. The profile is removed and the client flag cleared exactly when `SessionExpired` is raised; the page and runtime references are untouched |
| LocalAuthentication.Authenticate | wawebpy/structures/auth/localauth.py:28-43 | the run is exactly `AuthenticateRun`: the existence check, then the persistent launch, which creates the profile, then the load or the QR login. The profile is gone afterwards exactly on `SessionExpired` |
| LocalAuthProperties.FailuresCounts | wawebpy/structures/auth/localauth.py:66-75 | `k` inconclusive attempts reload `k` times, remove nothing, and only probe and reload |
| LocalAuthProperties.FailedAttempts | wawebpy/structures/auth/localauth.py:57-75 | while the budget lasts, `k` attempts with neither a QR code nor the loaded UI put exactly `k` probe-probe-reload triples before the rest of the loop |
| LocalAuthProperties.LoadedOnAttempt | wawebpy/structures/auth/localauth.py:51-81 | after `k` inconclusive attempts within the budget, an attempt with no QR code and the loaded UI returns the page after exactly `k` reloads, keeping the profile |
| LocalAuthProperties.ExpiredOnAttempt | wawebpy/structures/auth/localauth.py:58-62 | after `k` inconclusive attempts, an attempt that reads a QR code stops the client, removes the profile and raises `SessionExpired` for that path, whatever the UI would have shown |
| LocalAuthProperties.BudgetSpent | wawebpy/structures/auth/localauth.py:74-79 | `max_retries + 1` inconclusive attempts raise `SessionLoadError` with that count, after as many reloads, and keep the profile |
| LocalAuthProperties.DefaultBudgetFourAttempts | wawebpy/structures/auth/localauth.py:51 | with the default budget of 3, four attempts and four reloads precede `SessionLoadError(4)` |
| LocalAuthProperties.ValidationOutcomes | wawebpy/structures/auth/localauth.py:57-79 | validation ends only with the page, `SessionExpired` for this path, `SessionLoadError` counting the attempts, or the end of a script |
| LocalAuthProperties.LoadRunOutcomes | wawebpy/structures/auth/localauth.py:51-81 | `_load_session` raises only `SessionExpired(path)` or `SessionLoadError(max_retries + 1)`, or `SessionLoadError(0)` for a negative budget |
| LocalAuthProperties.ValidationRemovesOnlyWhenExpired | wawebpy/structures/auth/localauth.py:58-62 | the profile is removed exactly once when the session expired and never otherwise |
| LocalAuthProperties.ExpiredEndsWithLogout | wawebpy/structures/auth/localauth.py:60-62 | an expired session ends with the logout: stopping the client and then removing the profile are the last effects before the raise |
| LocalAuthProperties.LoadRunRemovesOnlyWhenExpired | wawebpy/structures/auth/localauth.py:51-81 | with the stop of a real client, `_load_session` removes the profile exactly when it raises `SessionExpired`, as the very last effect after the stop |
| LocalAuthProperties.ValidationProbesUiAfterMiss | wawebpy/structures/auth/localauth.py:58-67 | within an attempt, the loaded UI is waited for only after the QR probe found nothing |
| LocalAuthProperties.ValidationEffectKinds | wawebpy/structures/auth/localauth.py:57-75 | validation only probes, reloads, stops the client and removes the profile: it never emits |
| LocalAuthProperties.AuthenticateLaunchesFirst | wawebpy/structures/auth/localauth.py:33-43 | either way the persistent context on the profile path, with the caller's `headless`, is launched first, then a page is opened and navigated |
| LocalAuthProperties.AuthenticateExistingSession | wawebpy/structures/auth/localauth.py:38-40 | an existing profile is never logged in to (no `"qr"` event). It ends with the page, `SessionExpired`, or `SessionLoadError(4)`. It is removed exactly on expiry |
| LocalAuthProperties.AuthenticateNewSession | wawebpy/structures/auth/localauth.py:42-43 | a missing profile is created by the QR login: nothing is removed, and the only exception is `QrNotFound(5)` |
| LegacyLocalAuthentication.LoadSession | wawebpy/structures/auth/_localauth.py:55-66 | the outcome, log and consumed answers are exactly `LegacyLoadRun`: one navigation, one QR probe; a QR code raises `InvalidAuth`, none returns the page |
| LegacyLocalAuthentication.Authenticate | wawebpy/structures/auth/_localauth.py:30-48 | the run is exactly `LegacyAuthenticateRun` (with the intended keyword for `_auth_with_qr`); the launch creates the profile, and nothing removes it |
| LegacyLocalAuthentication.LegacyLoadProbesOnce | wawebpy/structures/auth/_localauth.py:57-64 | at most one QR read; no reload, UI probe or removal; the UI script is untouched |
| LegacyLocalAuthentication.LegacyLoadOutcomes | wawebpy/structures/auth/_localauth.py:60-66 | `InvalidAuth` exactly when the probe reads a QR code; the page exactly when it misses |
| LegacyLocalAuthentication.LegacyAuthenticateBranches | wawebpy/structures/auth/_localauth.py:36-48 | the persistent launch comes first. An existing profile gets no `"qr"` event and fails only with `InvalidAuth`. A new one fails only with `QrNotFound(5)`. Nothing is removed |
| LegacyLocalAuthentication.LegacyNewSessionRaisesTypeError | wawebpy/structures/auth/_localauth.py:68-69 | as written, a missing profile raises TypeError with no QR read, while the intended login never raises TypeError; on an existing profile both agree |
| NoAuthentication.Authenticate | wawebpy/structures/auth/noauth.py:18-36 | the run is exactly `FreshRun`: a plain browser launch with the caller's `headless`, then `_auth_with_qr` with the default budget; no directory changes |
| NoAuthentication.FreshRunShape | wawebpy/structures/auth/noauth.py:29-31 | the launch, a new page and the navigation come first. No persistent profile is launched or removed. The only exception is `QrNotFound(5)` |
| Client.WithAuthDefault | wawebpy/client.py:66 | `setdefault("auth", NoAuth)`: an absent auth becomes NoAuth, a present one is kept, nothing else changes |
| Client.WithDefaults | wawebpy/client.py:72-74 | each of `headless`, `web_url`, `qr_data_selector` keeps a present value and gets `True`, `"https://web.whatsapp.com/"`, `"div[data-ref]"` when absent; auth and the loaded selector are untouched |
| Client.StopEffects | wawebpy/client.py:90-93 | the page is closed iff it is set, the runtime stopped iff it is set, page first; nothing else |
| Client.Client.constructor | wawebpy/client.py:14-25 | a new client is not initialized and holds neither page nor runtime |
| Client.Client.Stop | wawebpy/client.py:85-95 | `stop` logs `StopEffects` for the references held, always clears the flag, and leaves both references set |
| ClientLifecycle.Authenticate | wawebpy/client.py:81 | the dispatch runs exactly the chosen strategy's specification; only LocalAuth can clear the flag (via logout on expiry), and the directories change as `DirsAfter` says |
| ClientLifecycle.Initialize | wawebpy/client.py:51-82 | the run is exactly `InitializeRun`, and the options dictionary is left as `OptionsAfter`. When a guard fails, nothing changes. Otherwise the flag is set (cleared only after `SessionExpired`), the runtime is held, and the page is held after success |
| ClientLifecycle.StrategyEmitsOnlyQr | wawebpy/client.py:81 | no strategy emits anything but `"qr"` |
| ClientLifecycle.StrategyOutcomes | wawebpy/client.py:81 | the strategies end only with the page, `QrNotFound(5)`, `SessionExpired` on the configured path, `SessionLoadError(4)` or the legacy `InvalidAuth`; only LocalAuth can end with `SessionExpired` |
| ClientLifecycle.ReadyExactlyOnce | wawebpy/client.py:81-82 | `"ready"` is emitted exactly once when `initialize` returns, never when it raises, and as its last effect |
| ClientLifecycle.InitializeTwice | wawebpy/client.py:63-64 | of two `initialize` calls in a row, the second raises `ClientAlreadyInitialized` exactly when the client was initialized already or the first got past the guards and ended any way but `SessionExpired` (including a raised error); then it adds nothing to the log |
| ClientLifecycle.LocalAuthProfilePath | wawebpy/structures/auth/localauth.py:19-34 | a `LocalAuth(dir_path, session_id)` object authenticates on its `filepath` |
| ClientLifecycle.DefaultProfilePath | wawebpy/structures/auth/localauth.py:19-26 | with the default arguments the profile path is `.wawebpy_auth` + `/` + `default` + `-session/` |
| ClientLifecycle.NotBaseAuthRejected | wawebpy/client.py:69-70 | a non-BaseAuth object raises `InvalidAuth` before the flag is set or anything starts, and the dictionary is not changed |
| ClientLifecycle.StartsRuntimeThenBrowser | wawebpy/client.py:66-81 | past the guards, the runtime starts first, the strategy's browser is launched next, then a page is opened on the defaulted `web_url`; the defaults fill only absent keys |
| ClientLifecycle.DefaultOptionsRaiseTypeError | wawebpy/client.py:81 | as written, `initialize({})` raises TypeError right after starting the runtime, while the intended call does not raise TypeError |
| ClientLifecycle.AsWrittenReadyOnlyForLegacyExisting | wawebpy/client.py:81-82 | as written, `"ready"` can only follow the older LocalAuth on an existing profile |
| Emitter.EventEmitter.constructor | wawebpy/structures/eventemitter.py:9-10 | a new emitter has no events |
| Emitter.EventEmitter.On | wawebpy/structures/eventemitter.py:12-14 | the registration is appended to the event's list, created if absent; nothing else changes |
| Emitter.EventEmitter.Once | wawebpy/structures/eventemitter.py:16-23 | a new wrapper, distinct from every earlier one, is registered around the callback |
| Emitter.EventEmitter.Off | wawebpy/structures/eventemitter.py:25-32 | every registration equal to the given one is removed from the event's list, and the key goes once the list is empty; unknown events are untouched |
| Emitter.EventEmitter.Emit | wawebpy/structures/eventemitter.py:34-41 | the callbacks of the list as it was at the start are invoked in order with the arguments, up to and including the first that raises. Then it raises `RuntimeError(event)`. Every `once` wrapper invoked has removed itself |
| EmitterProperties.OnAppends | wawebpy/structures/eventemitter.py:14 | `on` appends at the end (duplicates allowed) and touches no other event |
| EmitterProperties.FilterMembers | wawebpy/structures/eventemitter.py:28-30 | the filter keeps exactly the registrations other than the removed one |
| EmitterProperties.FilterAppend | wawebpy/structures/eventemitter.py:28-30 | the filter keeps relative order |
| EmitterProperties.FilterCounts | wawebpy/structures/eventemitter.py:28-30 | every copy of the removed callback goes; every other registration stays as often as it was |
| EmitterProperties.FilterAbsent | wawebpy/structures/eventemitter.py:28-30 | removing an unregistered callback changes nothing |
| EmitterProperties.OffFilters | wawebpy/structures/eventemitter.py:25-32 | `off` filters only that event's list, drops its key exactly when nothing is left, and leaves other events alone |
| EmitterProperties.OffKeepsOnceRegistrations | wawebpy/structures/eventemitter.py:19-29 | `off(event, cb)` does not remove a `once` registration of `cb`, since the stored entry is the wrapper |
| EmitterProperties.OnKeepsValid | wawebpy/structures/eventemitter.py:12-14 | `on` keeps the registry invariant: no empty list, every wrapper registered once |
| EmitterProperties.OnceKeepsValid | wawebpy/structures/eventemitter.py:16-23 | `once` keeps the invariant, because its wrapper is new |
| EmitterProperties.OffKeepsValid | wawebpy/structures/eventemitter.py:31-32 | `off` keeps the invariant: an emptied list is removed |
| EmitterProperties.AfterEmitKeepsValid | wawebpy/structures/eventemitter.py:34-41 | an emission keeps the invariant |
| EmitterProperties.EmitUnknownEvent | wawebpy/structures/eventemitter.py:36 | emitting an unknown event invokes nothing and changes nothing |
| EmitterProperties.EmitReachesEveryRegistration | wawebpy/structures/eventemitter.py:36-38 | with no raising callback, every registration of the starting list is invoked once, in order, also those after a `once` wrapper that removed itself |
| EmitterProperties.EmitStopsAtRaising | wawebpy/structures/eventemitter.py:37-41 | a raising callback ends the emission: those before it and itself are invoked, none after it |
| EmitterProperties.AfterEmitRemovesFired | wawebpy/structures/eventemitter.py:19-21 | every `once` wrapper an emission invoked is gone afterwards |
| EmitterProperties.AfterEmitKeepsRest | wawebpy/structures/eventemitter.py:19-21 | an emission removes nothing but the `once` wrappers it invoked, and other events are untouched |
| EmitterProperties.OnceDeliveredAtMostOnce | wawebpy/structures/eventemitter.py:16-23 | a `once` registration occurs once, is gone after it fired, and cannot be re-created by a later `once` |
| Delivery.DeliverInOrder | wawebpy/structures/eventemitter.py:36-41 | delivery invokes the callbacks in order with the same arguments, up to the first raising one, and reports exactly that one |
| Delivery.DeliverRaisesIffSomeRaises | wawebpy/structures/eventemitter.py:37-41 | an emission raises iff one of its callbacks raises |
| Delivery.FirstRaising | wawebpy/structures/eventemitter.py:36-41 | the index of the first raising callback: all before it do not raise |
| MinimalEmitter.EventEmitter.constructor | src/structures/EventEmitter.py:4-5 | a new emitter has no events |
| MinimalEmitter.EventEmitter.On | src/structures/EventEmitter.py:7-10 | the callback is appended to the event's list, created if absent |
| MinimalEmitter.EventEmitter.Emit | src/structures/EventEmitter.py:12-15 | the registered callbacks are invoked in order with the arguments. The first raising one ends the emission with its own exception. The registry does not change |
| MinimalEmitter.OnOnlyGrows | src/structures/EventEmitter.py:7-10 | registrations are never removed: each event's old list is a prefix of its new one |
| Util.GetModuleScript | wawebpy/util.py:41-59 | the built string is exactly `ModuleScript`: `require('<module>')`, one stripped access per variable, and the call when `args` is given |
| Util.ScriptStartsWithRequire | wawebpy/util.py:42-47 | the expression starts with `require('<module>')` and then the accesses, in order |
| Util.ScriptWithoutArgs | wawebpy/util.py:49 | without `args` there is no call and the function name is ignored; with neither, the expression is exactly `require('<module>')` |
| Util.ScriptCallSuffix | wawebpy/util.py:49-57 | with `args`, the expression ends with `.<name>(` or `(`, the arguments joined by `", "`, and `)`; no arguments give `()` |
| Util.AccessorsAppend | wawebpy/util.py:44-47 | the accesses for `a + b` are those of `a` followed by those of `b` |
| Util.AccessorsOfOne | wawebpy/util.py:46-47 | each variable contributes `.` and itself stripped of whitespace |
| Util.CalledNameStripsInOrder | wawebpy/util.py:52 | `" .f. "` calls `f`: whitespace is stripped, then dots |
| Util.CalledNameKeepsInnerWhitespace | wawebpy/util.py:52 | `". f"` calls `" f"`: whitespace between a dot and the name survives |
| Strings.TrimRight | wawebpy/structures/auth/localauth.py:21 | `rstrip`: the longest prefix not ending in a stripped character; everything cut was a stripped character |
| Strings.TrimLeft | wawebpy/util.py:46 | `lstrip`: the longest suffix not starting with a stripped character; everything cut was a stripped character |
| Strings.Strip | wawebpy/util.py:46 | `strip` leaves a string no longer than the input whose ends are not stripped characters, and an empty one when every character is stripped |
| Strings.StripFrame | wawebpy/util.py:46 | `strip` cuts exactly a framing of stripped characters around an infix whose ends are not stripped |
| Strings.RemoveCharKeepsOthers | wawebpy/structures/auth/localauth.py:22 | `replace(c, "")` keeps every other character with its multiplicity |
| Strings.RemoveCharAppend | wawebpy/structures/auth/localauth.py:22 | the removal works piecewise over concatenation |

## Left out

- Logging (`logger` calls), the probe timeouts (5000, 1000 and 7500 ms) and `page.url` in messages: probes answer from the oracle's scripts, and exception messages are not modelled.
- `get_qr_in_page` (wawebpy/util.py:8-37) is the oracle's QR probe. The `qrcode.QRCode` object is not built. The change test at wawebpy/structures/auth/baseauth.py:75 compares `qr.data_list[0].data`, the first data chunk the `qrcode` library builds from the data-ref string. The model uses the string itself in place of that chunk, so it assumes that equal strings give equal chunks and different strings give different ones.
- The `loaded_selector` option is never defaulted by `initialize`. The model's UI probe answers regardless of the selector.
- `options["auth"].client = self` (wawebpy/client.py:67): the auth values carry no client reference. LocalAuth's `authenticate` is handed the client directly, for `logout`. An explicit `"auth": None`, or an object refusing the attribute, would raise AttributeError; that is not modelled, because an absent key and `None` are the same here.
- Client.Client.Stop: an exception raised by `page.close()` or `playwright.stop()` is not modelled; the oracle never fails.
- The client's own `emit("qr", …)` and `emit("ready")` are recorded as log effects. Their delivery to listeners, and the `RuntimeError` a raising listener would cause, is not connected to `Emitter.EventEmitter`.
- `Client.on` (wawebpy/client.py:27-44): the typed overloads only forward to the emitter's `on`.
- Emitter.EventEmitter.Emit: callbacks are ids with a fixed set that raises. A callback that calls `on`, `off` or `emit` itself (re-entrancy) is not modelled, except the `once` wrapper's own `off`. Keyword arguments to callbacks are left out.
- Util.GetModuleScript: variables and arguments are already strings, so `str()` of other values is not modelled. `strip()` uses ASCII whitespace, not Unicode whitespace.
- BaseAuth's constructor and abstract `authenticate`, and `_save_session`, which only calls `_auth_with_qr` and re-raises after logging.
- The browser or context is not closed when authentication fails. The model has no browser objects to leak.
- An unbounded poll: when the QR code keeps being read, the source loops for ever. The model ends with `OutOfScript` when the script is used up.
- The model assumes Python 3.12 or later. wawebpy/structures/auth/localauth.py:22 and wawebpy/structures/auth/_localauth.py:24 put `"\\"` inside an f-string expression, which earlier versions reject as a SyntaxError (PEP 701).
- The rest of the repository (contacts, groups, chats, messages, wids, constants, `wawebpy/util/_utils.py`) is not part of this model.

## Findings

| source | as written | input that shows it | evidently intended | confidence | as-written member | corrected member |
|---|---|---|---|---|---|---|
| wawebpy/client.py:81 | `authenticate(clientOptions=options, playwright=…)`, while NoAuth and LocalAuth declare `authenticate(self, client_options, playwright)` (noauth.py:18, localauth.py:28): Python raises TypeError | `Client().initialize({})`: the default NoAuth raises TypeError after the runtime started, the flag stays set, and `"ready"` is never emitted | the options are passed to the strategy's options parameter, and the strategy runs | high; not executed | ClientLifecycle.InitializeAsWritten, ClientLifecycle.DefaultOptionsRaiseTypeError | ClientLifecycle.Initialize, ClientLifecycle.ReadyExactlyOnce |
| wawebpy/structures/auth/_localauth.py:69 | `_auth_with_qr(browser_or_ctx=…, clientOptions=clientOptions)`, while the parameter is `client_options` (baseauth.py:24): Python raises TypeError | the older LocalAuth on a path that does not exist: TypeError right after the persistent launch, no QR code read | the QR login runs on the new profile | high; not executed | LegacyLocalAuthentication.LegacyAuthenticateAsWritten, LegacyLocalAuthentication.LegacyNewSessionRaisesTypeError | LegacyLocalAuthentication.Authenticate, LegacyLocalAuthentication.LegacyAuthenticateBranches |
