/**
 * NoAuth (wawebpy/structures/auth/noauth.py): a plain, non-persistent browser and a QR login
 * with the default budget. Nothing is read from or written to disk.
 */
module NoAuthentication {
  import opened Wrappers
  import opened Exceptions
  import opened ClientOptions
  import opened Environment
  import opened BaseAuth
  import opened BaseAuthProperties

  /** `authenticate`: launch a browser, then `_auth_with_qr` on it with the default budget. */
  function FreshRun(opts: Options, qrs: seq<Option<string>>, uis: seq<bool>): Run
  {
    Prepend([Launch(opts.headless)], QrRun(opts.webUrl, DefaultMaxRetries, qrs, uis))
  }

  /** `authenticate`: what it returns, does and consumes is exactly FreshRun; no directory changes. */
  method Authenticate(env: Env, opts: Options) returns (outcome: Outcome)
    modifies env
    ensures var run := FreshRun(opts, old(env.qrScript), old(env.uiScript));
      outcome == run.outcome && env.log == old(env.log) + run.effects &&
      env.qrScript == run.qrRest && env.uiScript == run.uiRest
    ensures env.dirs == old(env.dirs)
  {
    env.Record(Launch(opts.headless));
    outcome := AuthWithQr(env, opts, DefaultMaxRetries);
  }

  /**
   * The browser is launched first, with the caller's `headless`, then a page opened and navigated;
   * no persistent profile is launched or removed, and the only exception is QrNotFound(5).
   */
  lemma FreshRunShape(opts: Options, qrs: seq<Option<string>>, uis: seq<bool>)
    ensures var es := FreshRun(opts, qrs, uis).effects;
      |es| >= 3 && es[0] == Launch(opts.headless) && es[1] == NewPage && es[2] == Goto(opts.webUrl) &&
      forall e :: e in es ==> !e.LaunchPersistent? && !e.RemoveDir?
    ensures FreshRun(opts, qrs, uis).outcome in {PageReturned, OutOfScript, Raised(QrNotFound(DefaultMaxRetries))}
  {
    QrRunNavigatesOnceFirst(opts.webUrl, DefaultMaxRetries, qrs, uis);
    PollEffectKinds(DefaultMaxRetries, 0, None, qrs, uis);
    QrRunRaisesOnlyQrNotFound(opts.webUrl, DefaultMaxRetries, qrs, uis);
  }
}
