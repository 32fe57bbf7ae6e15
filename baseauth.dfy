/**
 * BaseAuth._auth_with_qr: open a page, go to the login URL, then poll for the QR code,
 * emitting "qr" whenever its data changes, reloading every third consecutive miss, probing
 * for the loaded UI after each miss, and giving up after `max_retries` consecutive misses.
 */
module BaseAuth {
  import opened Wrappers
  import opened Exceptions
  import opened ClientOptions
  import opened Environment

  const DefaultMaxRetries := 5
  const ReloadPeriod := 3

  /**
   * The polling loop from its head, with miss counter `retry`, last emitted QR data `last`,
   * and what is left of the QR and loaded-UI probe scripts.
   */
  function Poll(maxRetries: int, retry: int, last: Option<string>,
                qrs: seq<Option<string>>, uis: seq<bool>): Run
    decreases |qrs|
  {
    if retry > maxRetries then Run(PageReturned, [], qrs, uis)
    else if qrs == [] then Run(OutOfScript, [], qrs, uis)
    else if qrs[0].Some? then
      Prepend(HitEffects(last, qrs[0].value), Poll(maxRetries, 0, qrs[0], qrs[1..], uis))
    else
      // A miss: the counter becomes `retry + 1`.
      if retry + 1 >= maxRetries then Run(Raised(QrNotFound(maxRetries)), [QrProbed(None)], qrs[1..], uis)
      else if uis == [] then Run(OutOfScript, MissEffects(retry + 1), qrs[1..], uis)
      else if uis[0] then Run(PageReturned, MissEffects(retry + 1) + [UiProbed(true)], qrs[1..], uis[1..])
      else Prepend(MissEffects(retry + 1) + [UiProbed(false)], Poll(maxRetries, retry + 1, last, qrs[1..], uis[1..]))
  }

  /** What one iteration that reads `data` does, given the last emitted data. */
  function HitEffects(last: Option<string>, data: string): seq<Effect> {
    [QrProbed(Some(data))] + (if last == Some(data) then [] else [Emit("qr", [data])])
  }

  /** What a miss that brings the counter to `missed` does before the UI probe. */
  function MissEffects(missed: int): seq<Effect> {
    [QrProbed(None)] + (if missed % ReloadPeriod == 0 then [Reload] else [])
  }

  /** The whole of `_auth_with_qr`: a new page, one navigation, then the loop from a zero counter. */
  function QrRun(webUrl: Option<string>, maxRetries: int, qrs: seq<Option<string>>, uis: seq<bool>): Run
  {
    Prepend([NewPage, Goto(webUrl)], Poll(maxRetries, 0, None, qrs, uis))
  }

  /** The loop-head invariant: the counter is zero or strictly below the budget. */
  predicate HeadInvariant(maxRetries: int, retry: int) {
    retry == 0 || 0 < retry < maxRetries
  }

  /** Where one pass of the loop body leaves the loop: go round again with a new state, or leave it. */
  datatype Pass = Again(retry: int, last: Option<string>) | Done(outcome: Outcome)

  /**
   * One pass of the loop body: probe for the QR code; on a read, reset the counter and emit
   * "qr" if the data changed; on a miss, count it, raise once `max_retries` misses are
   * consecutive, reload every third one, and probe the loaded UI, leaving the loop if it is there.
   * Its effects `fx` are one step of Poll.
   */
  method PollPass(env: Env, maxRetries: int, retry: int, qr: Option<string>) returns (pass: Pass, ghost fx: seq<Effect>)
    requires retry <= maxRetries && HeadInvariant(maxRetries, retry)
    modifies env
    ensures env.log == old(env.log) + fx && env.dirs == old(env.dirs)
    ensures pass.Again? ==> HeadInvariant(maxRetries, pass.retry)
    ensures pass.Done? ==>
      Poll(maxRetries, retry, qr, old(env.qrScript), old(env.uiScript)) == Run(pass.outcome, fx, env.qrScript, env.uiScript)
    ensures pass.Again? ==>
      |env.qrScript| < |old(env.qrScript)| &&
      Poll(maxRetries, retry, qr, old(env.qrScript), old(env.uiScript))
        == Prepend(fx, Poll(maxRetries, pass.retry, pass.last, env.qrScript, env.uiScript))
  {
    var probe := env.ProbeQr();
    if probe.Exhausted? {
      return Done(OutOfScript), [];
    }
    var current := probe.value;
    if current.Some? {
      // The QR code was read: the UI is not probed in this pass.
      if qr.None? || qr.value != current.value {
        env.Record(Emit("qr", [current.value]));
      }
      return Again(0, current), HitEffects(qr, current.value);
    }
    var missed := retry + 1;
    if missed >= maxRetries {
      return Done(Raised(QrNotFound(maxRetries))), [QrProbed(None)];
    } else if missed % ReloadPeriod == 0 {
      env.Reload();
    }
    var ui := env.ProbeUi();
    if ui.Exhausted? {
      return Done(OutOfScript), MissEffects(missed);
    } else if ui.value {
      return Done(PageReturned), MissEffects(missed) + [UiProbed(true)];
    }
    return Again(missed, qr), MissEffects(missed) + [UiProbed(false)];
  }

  /**
   * `_auth_with_qr`: opens a page, navigates to `web_url`, and runs the polling loop; what it
   * returns, what it does and what it consumes of the probe scripts is exactly QrRun.
   */
  method AuthWithQr(env: Env, opts: Options, maxRetries: int) returns (outcome: Outcome)
    modifies env
    ensures var run := QrRun(opts.webUrl, maxRetries, old(env.qrScript), old(env.uiScript));
      outcome == run.outcome && env.log == old(env.log) + run.effects &&
      env.qrScript == run.qrRest && env.uiScript == run.uiRest
    ensures env.dirs == old(env.dirs)
  {
    ghost var total := QrRun(opts.webUrl, maxRetries, env.qrScript, env.uiScript);
    var qr: Option<string> := None;
    env.Record(NewPage);
    env.Record(Goto(opts.webUrl));
    ghost var done: seq<Effect> := [NewPage, Goto(opts.webUrl)];
    var retry := 0;
    while retry <= maxRetries
      invariant HeadInvariant(maxRetries, retry)
      invariant env.log == old(env.log) + done
      invariant total == Prepend(done, Poll(maxRetries, retry, qr, env.qrScript, env.uiScript))
      invariant env.dirs == old(env.dirs)
      decreases |env.qrScript|
    {
      var pass;
      ghost var fx;
      pass, fx := PollPass(env, maxRetries, retry, qr);
      if pass.Done? {
        assert env.log == old(env.log) + (done + fx);
        return pass.outcome;
      }
      PrependTwice(done, fx, Poll(maxRetries, pass.retry, pass.last, env.qrScript, env.uiScript));
      retry, qr := pass.retry, pass.last;
      done := done + fx;
    }
    assert total.effects == done + [] == done;
    return PageReturned;
  }
}

/** What the polling loop promises, proved about its specification Poll and QrRun. */
module BaseAuthProperties {
  import opened Wrappers
  import opened Exceptions
  import opened Environment
  import opened BaseAuth

  // ---------------------------------------------------------------- what the loop may do

  /** Every effect of the loop is a probe, a reload or a "qr" event. */
  predicate LoopEffect(e: Effect) {
    e.QrProbed? || e.UiProbed? || e == Reload || (e.Emit? && e.event == "qr")
  }

  lemma {:induction false} PollEffectKinds(maxRetries: int, retry: int, last: Option<string>,
                                           qrs: seq<Option<string>>, uis: seq<bool>)
    ensures forall e :: e in Poll(maxRetries, retry, last, qrs, uis).effects ==> LoopEffect(e)
    decreases |qrs|
  {
    if retry <= maxRetries && qrs != [] {
      if qrs[0].Some? {
        PollEffectKinds(maxRetries, 0, qrs[0], qrs[1..], uis);
      } else if retry + 1 < maxRetries && uis != [] && !uis[0] {
        PollEffectKinds(maxRetries, retry + 1, last, qrs[1..], uis[1..]);
      }
    }
  }

  /** The page is opened and navigated first, and never again: no probe comes before the navigation. */
  lemma QrRunNavigatesOnceFirst(webUrl: Option<string>, maxRetries: int, qrs: seq<Option<string>>, uis: seq<bool>)
    ensures var es := QrRun(webUrl, maxRetries, qrs, uis).effects;
      |es| >= 2 && es[0] == NewPage && es[1] == Goto(webUrl) &&
      forall i :: 2 <= i < |es| ==> !es[i].Goto? && !es[i].NewPage?
  {
    var rest := Poll(maxRetries, 0, None, qrs, uis).effects;
    PollEffectKinds(maxRetries, 0, None, qrs, uis);
    var es := QrRun(webUrl, maxRetries, qrs, uis).effects;
    forall i | 2 <= i < |es|
      ensures !es[i].Goto? && !es[i].NewPage?
    {
      assert es[i] == rest[i - 2];
      assert LoopEffect(rest[i - 2]);
    }
  }

  /** The only exception the loop raises is QrNotFound, carrying the budget. */
  lemma {:induction false} PollRaisesOnlyQrNotFound(maxRetries: int, retry: int, last: Option<string>,
                                                    qrs: seq<Option<string>>, uis: seq<bool>)
    ensures Poll(maxRetries, retry, last, qrs, uis).outcome in
      {PageReturned, OutOfScript, Raised(QrNotFound(maxRetries))}
    decreases |qrs|
  {
    if retry <= maxRetries && qrs != [] {
      if qrs[0].Some? {
        PollRaisesOnlyQrNotFound(maxRetries, 0, qrs[0], qrs[1..], uis);
      } else if retry + 1 < maxRetries && uis != [] && !uis[0] {
        PollRaisesOnlyQrNotFound(maxRetries, retry + 1, last, qrs[1..], uis[1..]);
      }
    }
  }

  lemma QrRunRaisesOnlyQrNotFound(webUrl: Option<string>, maxRetries: int, qrs: seq<Option<string>>, uis: seq<bool>)
    ensures QrRun(webUrl, maxRetries, qrs, uis).outcome in {PageReturned, OutOfScript, Raised(QrNotFound(maxRetries))}
  {
    PollRaisesOnlyQrNotFound(maxRetries, 0, None, qrs, uis);
  }

  // ---------------------------------------------------------------- the loaded-UI probe

  /** The effect at `i`, if it is a UI probe, follows a QR miss, directly or through the reload that miss caused. */
  predicate UiAfterMissAt(es: seq<Effect>, i: int)
    requires 0 <= i < |es|
  {
    es[i].UiProbed? ==>
      (1 <= i && es[i - 1] == QrProbed(None)) || (2 <= i && es[i - 1] == Reload && es[i - 2] == QrProbed(None))
  }

  predicate UiAfterMiss(es: seq<Effect>) {
    forall i :: 0 <= i < |es| ==> UiAfterMissAt(es, i)
  }

  lemma UiAfterMissAppend(a: seq<Effect>, b: seq<Effect>)
    requires UiAfterMiss(a) && UiAfterMiss(b)
    ensures UiAfterMiss(a + b)
  {
    var ab := a + b;
    forall i | 0 <= i < |ab|
      ensures UiAfterMissAt(ab, i)
    {
      if i >= |a| {
        var j := i - |a|;
        assert b[j] == ab[i] && UiAfterMissAt(b, j);
        if b[j].UiProbed? {
          assert ab[i - 1] == b[j - 1];
          if b[j - 1] != QrProbed(None) {
            assert ab[i - 2] == b[j - 2];
          }
        }
      } else {
        assert ab[i] == a[i] && UiAfterMissAt(a, i);
      }
    }
  }

  /** The loaded UI is probed only in passes where no QR code was read. */
  lemma {:induction false} PollProbesUiOnlyAfterMiss(maxRetries: int, retry: int, last: Option<string>,
                                                     qrs: seq<Option<string>>, uis: seq<bool>)
    ensures UiAfterMiss(Poll(maxRetries, retry, last, qrs, uis).effects)
    decreases |qrs|
  {
    if retry <= maxRetries && qrs != [] {
      if qrs[0].Some? {
        var data := qrs[0].value;
        PollProbesUiOnlyAfterMiss(maxRetries, 0, qrs[0], qrs[1..], uis);
        UiAfterMissAppend(HitEffects(last, data), Poll(maxRetries, 0, qrs[0], qrs[1..], uis).effects);
      } else if retry + 1 < maxRetries && uis != [] {
        var pass := MissEffects(retry + 1) + [UiProbed(uis[0])];
        assert UiAfterMiss(pass);
        if !uis[0] {
          PollProbesUiOnlyAfterMiss(maxRetries, retry + 1, last, qrs[1..], uis[1..]);
          UiAfterMissAppend(pass, Poll(maxRetries, retry + 1, last, qrs[1..], uis[1..]).effects);
        }
      }
    }
  }

  /** If the effect at `i` is a loaded UI, it is the last effect and the page is returned. */
  predicate LoadedUiEndsAt(run: Run, i: int)
    requires 0 <= i < |run.effects|
  {
    run.effects[i] == UiProbed(true) ==> i == |run.effects| - 1 && run.outcome == PageReturned
  }

  predicate LoadedUiEnds(run: Run) {
    forall i :: 0 <= i < |run.effects| ==> LoadedUiEndsAt(run, i)
  }

  lemma LoadedUiEndsPrepend(pre: seq<Effect>, next: Run)
    requires UiProbed(true) !in pre && LoadedUiEnds(next)
    ensures LoadedUiEnds(Prepend(pre, next))
  {
    var run := Prepend(pre, next);
    forall i | 0 <= i < |run.effects|
      ensures LoadedUiEndsAt(run, i)
    {
      if i < |pre| {
        assert run.effects[i] == pre[i] && pre[i] in pre;
      } else {
        assert run.effects[i] == next.effects[i - |pre|] && LoadedUiEndsAt(next, i - |pre|);
      }
    }
  }

  /** A loaded UI ends the loop: it can only be the very last effect, and the page is returned. */
  lemma {:induction false} PollLoadedUiEndsLoop(maxRetries: int, retry: int, last: Option<string>,
                                                qrs: seq<Option<string>>, uis: seq<bool>)
    ensures LoadedUiEnds(Poll(maxRetries, retry, last, qrs, uis))
    decreases |qrs|
  {
    if retry <= maxRetries && qrs != [] {
      if qrs[0].Some? {
        PollLoadedUiEndsLoop(maxRetries, 0, qrs[0], qrs[1..], uis);
        LoadedUiEndsPrepend(HitEffects(last, qrs[0].value), Poll(maxRetries, 0, qrs[0], qrs[1..], uis));
      } else if retry + 1 < maxRetries && uis != [] && !uis[0] {
        PollLoadedUiEndsLoop(maxRetries, retry + 1, last, qrs[1..], uis[1..]);
        LoadedUiEndsPrepend(MissEffects(retry + 1) + [UiProbed(false)], Poll(maxRetries, retry + 1, last, qrs[1..], uis[1..]));
      }
    }
  }

  /** The last effects of a run that returns the page: a QR miss (maybe with its reload), then a loaded UI. */
  predicate EndsWithLoadedUi(es: seq<Effect>) {
    |es| >= 2 && es[|es| - 1] == UiProbed(true) &&
    (es[|es| - 2] == QrProbed(None) || (|es| >= 3 && es[|es| - 2] == Reload && es[|es| - 3] == QrProbed(None)))
  }

  lemma EndsWithLoadedUiPrepend(pre: seq<Effect>, es: seq<Effect>)
    requires EndsWithLoadedUi(es)
    ensures EndsWithLoadedUi(pre + es)
  {
    var all := pre + es;
    assert all[|all| - 1] == es[|es| - 1] && all[|all| - 2] == es[|es| - 2];
    if es[|es| - 2] != QrProbed(None) {
      assert all[|all| - 3] == es[|es| - 3];
    }
  }

  /**
   * From the loop head, the page is returned only right after a miss and a loaded UI in the
   * same pass; the guard `retry <= max_retries` ends the loop only when the budget is negative,
   * and then before any probe.
   */
  lemma {:induction false} PollReturnsOnlyAfterLoadedUi(maxRetries: int, retry: int, last: Option<string>,
                                                        qrs: seq<Option<string>>, uis: seq<bool>)
    requires HeadInvariant(maxRetries, retry)
    ensures var run := Poll(maxRetries, retry, last, qrs, uis);
      run.outcome == PageReturned ==> (maxRetries < 0 && run.effects == []) || EndsWithLoadedUi(run.effects)
    decreases |qrs|
  {
    if retry > maxRetries || qrs == [] || (qrs[0].None? && (retry + 1 >= maxRetries || uis == [])) {
    } else if qrs[0].Some? {
      var next := Poll(maxRetries, 0, qrs[0], qrs[1..], uis);
      assert Poll(maxRetries, retry, last, qrs, uis) == Prepend(HitEffects(last, qrs[0].value), next) by {
        PollHitStep(maxRetries, retry, last, qrs, uis);
      }
      PollReturnsOnlyAfterLoadedUi(maxRetries, 0, qrs[0], qrs[1..], uis);
      if next.outcome == PageReturned {
        EndsWithLoadedUiPrepend(HitEffects(last, qrs[0].value), next.effects);
      }
    } else if uis[0] {
      assert Poll(maxRetries, retry, last, qrs, uis).effects == MissEffects(retry + 1) + [UiProbed(true)];
      MissThenLoadedUi(retry + 1);
    } else {
      var next := Poll(maxRetries, retry + 1, last, qrs[1..], uis[1..]);
      assert Poll(maxRetries, retry, last, qrs, uis) == Prepend(MissEffects(retry + 1) + [UiProbed(false)], next) by {
        PollMissStep(maxRetries, retry, last, qrs, uis);
      }
      PollReturnsOnlyAfterLoadedUi(maxRetries, retry + 1, last, qrs[1..], uis[1..]);
      if next.outcome == PageReturned {
        EndsWithLoadedUiPrepend(MissEffects(retry + 1) + [UiProbed(false)], next.effects);
      }
    }
  }

  /** A read within the budget: one pass, then the loop from a zero counter with the data read. */
  lemma PollHitStep(maxRetries: int, retry: int, last: Option<string>, qrs: seq<Option<string>>, uis: seq<bool>)
    requires retry <= maxRetries && qrs != [] && qrs[0].Some?
    ensures Poll(maxRetries, retry, last, qrs, uis) ==
      Prepend(HitEffects(last, qrs[0].value), Poll(maxRetries, 0, qrs[0], qrs[1..], uis))
  {
  }

  lemma MissThenLoadedUi(missed: int)
    ensures EndsWithLoadedUi(MissEffects(missed) + [UiProbed(true)])
  {
    if missed % ReloadPeriod == 0 {
      assert MissEffects(missed) + [UiProbed(true)] == [QrProbed(None), Reload, UiProbed(true)];
    } else {
      assert MissEffects(missed) + [UiProbed(true)] == [QrProbed(None), UiProbed(true)];
    }
  }

  /** `_auth_with_qr` as a whole: a returned page follows a loaded UI, unless the budget is negative. */
  lemma QrRunReturnsOnlyAfterLoadedUi(webUrl: Option<string>, maxRetries: int, qrs: seq<Option<string>>, uis: seq<bool>)
    ensures var run := QrRun(webUrl, maxRetries, qrs, uis);
      (maxRetries < 0 ==> run == Run(PageReturned, [NewPage, Goto(webUrl)], qrs, uis)) &&
      (maxRetries >= 0 && run.outcome == PageReturned ==> EndsWithLoadedUi(run.effects))
  {
    PollReturnsOnlyAfterLoadedUi(maxRetries, 0, None, qrs, uis);
    var next := Poll(maxRetries, 0, None, qrs, uis);
    if maxRetries >= 0 && next.outcome == PageReturned {
      EndsWithLoadedUiPrepend([NewPage, Goto(webUrl)], next.effects);
    }
  }

  // ---------------------------------------------------------------- "qr" events

  /**
   * A reference change detector over the sequence of QR reads: a read is reported when it
   * differs from the last one reported (or nothing was reported yet); misses report nothing.
   */
  function Changes(last: Option<string>, seen: seq<Option<string>>): seq<string>
    decreases |seen|
  {
    if seen == [] then []
    else if seen[0].None? then Changes(last, seen[1..])
    else (if last == seen[0] then [] else [seen[0].value]) + Changes(seen[0], seen[1..])
  }

  /** No two consecutive reported values are equal, and the first differs from the last one before. */
  lemma {:induction false} ChangesNeverRepeat(last: Option<string>, seen: seq<Option<string>>)
    ensures var c := Changes(last, seen);
      (forall i :: 0 <= i < |c| - 1 ==> c[i] != c[i + 1]) &&
      (|c| > 0 && last.Some? ==> c[0] != last.value)
    decreases |seen|
  {
    if seen != [] {
      ChangesNeverRepeat(if seen[0].None? then last else seen[0], seen[1..]);
    }
  }

  /** Every reported value was read. */
  lemma {:induction false} ChangesAreReads(last: Option<string>, seen: seq<Option<string>>)
    ensures forall x :: x in Changes(last, seen) ==> Some(x) in seen
    decreases |seen|
  {
    if seen != [] {
      ChangesAreReads(if seen[0].None? then last else seen[0], seen[1..]);
    }
  }

  /** Reading the same code over and over, with misses in between, reports it once at most. */
  lemma {:induction false} ChangesOfOneCode(last: Option<string>, data: string, seen: seq<Option<string>>)
    requires Some(data) in seen
    requires forall i :: 0 <= i < |seen| ==> seen[i] == None || seen[i] == Some(data)
    ensures Changes(last, seen) == if last == Some(data) then [] else [data]
    decreases |seen|
  {
    if seen[0].None? {
      ChangesOfOneCode(last, data, seen[1..]);
    } else {
      ChangesOfSameCode(data, seen[1..]);
    }
  }

  lemma {:induction false} ChangesOfSameCode(data: string, seen: seq<Option<string>>)
    requires forall i :: 0 <= i < |seen| ==> seen[i] == None || seen[i] == Some(data)
    ensures Changes(Some(data), seen) == []
    decreases |seen|
  {
    if seen != [] {
      ChangesOfSameCode(data, seen[1..]);
    }
  }

  lemma ChangesCons(last: Option<string>, x: Option<string>, seen: seq<Option<string>>)
    ensures Changes(last, [x] + seen) ==
      if x.None? then Changes(last, seen)
      else (if last == x then [] else [x.value]) + Changes(x, seen)
  {
    assert ([x] + seen)[1..] == seen;
  }

  /** What a read pass shows the change detector: one read, and the event if the data changed. */
  lemma HitObserved(last: Option<string>, data: string)
    ensures QrReads(HitEffects(last, data)) == [Some(data)]
    ensures QrEmits(HitEffects(last, data)) == if last == Some(data) then [] else [data]
  {
    var emit: seq<Effect> := if last == Some(data) then [] else [Emit("qr", [data])];
    QrReadsAppend([QrProbed(Some(data))], emit);
    QrEmitsAppend([QrProbed(Some(data))], emit);
    assert QrReads([QrProbed(Some(data))]) == [Some(data)];
    assert QrEmits([QrProbed(Some(data))]) == [];
  }

  /** What a missed pass shows the change detector: one missing read and no event. */
  lemma MissObserved(missed: int, after: seq<Effect>)
    requires after == [] || after == [UiProbed(true)] || after == [UiProbed(false)]
    ensures QrReads(MissEffects(missed) + after) == [None] && QrEmits(MissEffects(missed) + after) == []
  {
    var es := MissEffects(missed) + after;
    assert es[0] == QrProbed(None);
    assert es == [es[0]] + es[1..];
    assert es[1..] == [] || es[1..] == [Reload] || es[1..] == after || es[1..] == [Reload] + after;
    Unobserved(es[1..]);
    QrReadsAppend([es[0]], es[1..]);
    QrEmitsAppend([es[0]], es[1..]);
    assert QrReads([es[0]]) == [None] && QrEmits([es[0]]) == [];
  }

  /** The "qr" events the loop emits are exactly the changes in what its QR probes read. */
  lemma {:induction false} PollEmitsChanges(maxRetries: int, retry: int, last: Option<string>,
                                            qrs: seq<Option<string>>, uis: seq<bool>)
    ensures QrEmits(Poll(maxRetries, retry, last, qrs, uis).effects)
         == Changes(last, QrReads(Poll(maxRetries, retry, last, qrs, uis).effects))
    decreases |qrs|
  {
    if retry <= maxRetries && qrs != [] {
      if qrs[0].Some? {
        var data := qrs[0].value;
        var pass := HitEffects(last, data);
        var next := Poll(maxRetries, 0, qrs[0], qrs[1..], uis).effects;
        PollEmitsChanges(maxRetries, 0, qrs[0], qrs[1..], uis);
        HitObserved(last, data);
        QrReadsAppend(pass, next);
        QrEmitsAppend(pass, next);
        ChangesCons(last, qrs[0], QrReads(next));
      } else if retry + 1 < maxRetries && uis != [] {
        var pass := MissEffects(retry + 1) + [UiProbed(uis[0])];
        MissObserved(retry + 1, [UiProbed(uis[0])]);
        if !uis[0] {
          var next := Poll(maxRetries, retry + 1, last, qrs[1..], uis[1..]).effects;
          PollEmitsChanges(maxRetries, retry + 1, last, qrs[1..], uis[1..]);
          QrReadsAppend(pass, next);
          QrEmitsAppend(pass, next);
          ChangesCons(last, None, QrReads(next));
        }
      } else if retry + 1 < maxRetries {
        MissObserved(retry + 1, []);
        assert MissEffects(retry + 1) + [] == MissEffects(retry + 1);
      }
    }
  }

  /** Over the whole of `_auth_with_qr`, the "qr" events are the changes of the reads from "none yet". */
  lemma QrRunEmitsChanges(webUrl: Option<string>, maxRetries: int, qrs: seq<Option<string>>, uis: seq<bool>)
    ensures QrEmits(QrRun(webUrl, maxRetries, qrs, uis).effects)
         == Changes(None, QrReads(QrRun(webUrl, maxRetries, qrs, uis).effects))
  {
    var rest := Poll(maxRetries, 0, None, qrs, uis).effects;
    PollEmitsChanges(maxRetries, 0, None, qrs, uis);
    assert QrRun(webUrl, maxRetries, qrs, uis).effects == [NewPage, Goto(webUrl)] + rest;
    QrReadsAppend([NewPage, Goto(webUrl)], rest);
    QrEmitsAppend([NewPage, Goto(webUrl)], rest);
    Unobserved([NewPage, Goto(webUrl)]);
    assert [] + QrReads(rest) == QrReads(rest) && [] + QrEmits(rest) == QrEmits(rest);
  }

  // ---------------------------------------------------------------- misses, reloads, QrNotFound

  /** The number of counter values k with from < k < to that are multiples of the reload period. */
  function ReloadsBetween(from: int, to: int): nat
    decreases to - from
  {
    if from + 1 >= to then 0
    else (if (from + 1) % ReloadPeriod == 0 then 1 else 0) + ReloadsBetween(from + 1, to)
  }

  /**
   * What the loop does from counter `retry` when every QR probe misses and the UI never shows:
   * one pass per miss, each but the last followed by a UI probe, the last raising.
   */
  function MissesUntilFailure(retry: int, maxRetries: int): seq<Effect>
    decreases maxRetries - retry
  {
    if retry + 1 >= maxRetries then [QrProbed(None)]
    else MissEffects(retry + 1) + [UiProbed(false)] + MissesUntilFailure(retry + 1, maxRetries)
  }

  /**
   * From a counter `retry` below the budget, `max_retries - retry` misses in a row (with the
   * UI not loaded after each but the last) end in QrNotFound, reloading exactly at the
   * multiples of three strictly between `retry` and `max_retries`, never on the final miss.
   */
  lemma PollConsecutiveMissesFail(maxRetries: int, retry: int, last: Option<string>,
                                  qrs: seq<Option<string>>, uis: seq<bool>)
    requires 0 <= retry < maxRetries
    requires |qrs| >= maxRetries - retry && forall i :: 0 <= i < maxRetries - retry ==> qrs[i] == None
    requires |uis| >= maxRetries - retry - 1 && forall i :: 0 <= i < maxRetries - retry - 1 ==> !uis[i]
    ensures Poll(maxRetries, retry, last, qrs, uis).outcome == Raised(QrNotFound(maxRetries))
    ensures Count(Poll(maxRetries, retry, last, qrs, uis).effects, Reload) == ReloadsBetween(retry, maxRetries)
    ensures Poll(maxRetries, retry, last, qrs, uis).qrRest == qrs[maxRetries - retry..]
    ensures Poll(maxRetries, retry, last, qrs, uis).uiRest == uis[maxRetries - retry - 1..]
  {
    PollMissesRun(maxRetries, retry, last, qrs, uis);
    MissesReloads(retry, maxRetries);
  }

  /** The run of consecutive misses, exactly. */
  lemma {:induction false} PollMissesRun(maxRetries: int, retry: int, last: Option<string>,
                                         qrs: seq<Option<string>>, uis: seq<bool>)
    requires 0 <= retry < maxRetries
    requires |qrs| >= maxRetries - retry && forall i :: 0 <= i < maxRetries - retry ==> qrs[i] == None
    requires |uis| >= maxRetries - retry - 1 && forall i :: 0 <= i < maxRetries - retry - 1 ==> !uis[i]
    ensures Poll(maxRetries, retry, last, qrs, uis) ==
      Run(Raised(QrNotFound(maxRetries)), MissesUntilFailure(retry, maxRetries), qrs[maxRetries - retry..],
          uis[maxRetries - retry - 1..])
    decreases maxRetries - retry
  {
    assert qrs[0] == None;
    if retry + 1 >= maxRetries {
      assert uis[0..] == uis;
    } else {
      assert !uis[0];
      assert Poll(maxRetries, retry, last, qrs, uis) ==
        Prepend(MissEffects(retry + 1) + [UiProbed(false)], Poll(maxRetries, retry + 1, last, qrs[1..], uis[1..])) by {
        PollMissStep(maxRetries, retry, last, qrs, uis);
      }
      MissesShift(qrs, maxRetries - retry);
      NotLoadedShift(uis, maxRetries - retry - 1);
      PollMissesRun(maxRetries, retry + 1, last, qrs[1..], uis[1..]);
    }
  }

  /** The reloads among consecutive misses are those at the multiples of three before the budget. */
  lemma {:induction false} MissesReloads(retry: int, maxRetries: int)
    ensures Count(MissesUntilFailure(retry, maxRetries), Reload) == ReloadsBetween(retry, maxRetries)
    decreases maxRetries - retry
  {
    if retry + 1 >= maxRetries {
      CountAbsent([QrProbed(None)], Reload);
    } else {
      MissesReloads(retry + 1, maxRetries);
      MissReloads(retry + 1);
      CountAppend(MissEffects(retry + 1) + [UiProbed(false)], MissesUntilFailure(retry + 1, maxRetries), Reload);
    }
  }

  /** The misses after the first are the first misses of the rest of the script. */
  lemma MissesShift(qrs: seq<Option<string>>, n: int)
    requires 1 <= n <= |qrs| && forall i :: 0 <= i < n ==> qrs[i] == None
    ensures forall i :: 0 <= i < n - 1 ==> qrs[1..][i] == None
    ensures qrs[1..][n - 1..] == qrs[n..]
  {
    assert forall i :: 0 <= i < n - 1 ==> qrs[1..][i] == qrs[i + 1];
  }

  lemma NotLoadedShift(uis: seq<bool>, n: int)
    requires 1 <= n <= |uis| && forall i :: 0 <= i < n ==> !uis[i]
    ensures forall i :: 0 <= i < n - 1 ==> !uis[1..][i]
    ensures uis[1..][n - 1..] == uis[n..]
  {
    assert forall i :: 0 <= i < n - 1 ==> uis[1..][i] == uis[i + 1];
  }

  /** A miss below the budget with the UI not loaded: one pass, then the loop from the raised counter. */
  lemma PollMissStep(maxRetries: int, retry: int, last: Option<string>, qrs: seq<Option<string>>, uis: seq<bool>)
    requires retry <= maxRetries && retry + 1 < maxRetries
    requires qrs != [] && qrs[0] == None && uis != [] && !uis[0]
    ensures Poll(maxRetries, retry, last, qrs, uis) ==
      Prepend(MissEffects(retry + 1) + [UiProbed(false)], Poll(maxRetries, retry + 1, last, qrs[1..], uis[1..]))
  {
  }

  lemma MissReloads(missed: int)
    ensures Count(MissEffects(missed) + [UiProbed(false)], Reload) == if missed % ReloadPeriod == 0 then 1 else 0
  {
    var reload: seq<Effect> := if missed % ReloadPeriod == 0 then [Reload] else [];
    assert MissEffects(missed) + [UiProbed(false)] == [QrProbed(None)] + (reload + [UiProbed(false)]);
    CountAppend([QrProbed(None)], reload + [UiProbed(false)], Reload);
    CountAppend(reload, [UiProbed(false)], Reload);
    CountAbsent([QrProbed(None)], Reload);
    CountAbsent([UiProbed(false)], Reload);
    if reload != [] {
      assert reload[1..] == [];
    }
  }

  /** With the default budget of five, five misses in a row raise QrNotFound after exactly one reload. */
  lemma DefaultBudgetReloadsOnce(webUrl: Option<string>, qrs: seq<Option<string>>, uis: seq<bool>)
    requires |qrs| >= 5 && forall i :: 0 <= i < 5 ==> qrs[i] == None
    requires |uis| >= 4 && forall i :: 0 <= i < 4 ==> !uis[i]
    ensures QrRun(webUrl, DefaultMaxRetries, qrs, uis).outcome == Raised(QrNotFound(5))
    ensures Count(QrRun(webUrl, DefaultMaxRetries, qrs, uis).effects, Reload) == 1
  {
    PollConsecutiveMissesFail(5, 0, None, qrs, uis);
    assert ReloadsBetween(0, 5) == 1;
    CountAppend([NewPage, Goto(webUrl)], Poll(5, 0, None, qrs, uis).effects, Reload);
    assert Count([NewPage, Goto(webUrl)], Reload) == 0 by {
      CountAbsent([NewPage, Goto(webUrl)], Reload);
    }
  }

  /** With a budget of three, three misses in a row raise QrNotFound without any reload. */
  lemma BudgetThreeNeverReloads(webUrl: Option<string>, qrs: seq<Option<string>>, uis: seq<bool>)
    requires |qrs| >= 3 && forall i :: 0 <= i < 3 ==> qrs[i] == None
    requires |uis| >= 2 && forall i :: 0 <= i < 2 ==> !uis[i]
    ensures QrRun(webUrl, 3, qrs, uis).outcome == Raised(QrNotFound(3))
    ensures Count(QrRun(webUrl, 3, qrs, uis).effects, Reload) == 0
  {
    PollConsecutiveMissesFail(3, 0, None, qrs, uis);
    assert ReloadsBetween(0, 3) == 0;
    CountAppend([NewPage, Goto(webUrl)], Poll(3, 0, None, qrs, uis).effects, Reload);
    assert Count([NewPage, Goto(webUrl)], Reload) == 0 by {
      CountAbsent([NewPage, Goto(webUrl)], Reload);
    }
  }

  // ---------------------------------------------------------------- where reloads happen

  /** One step of the loop's consecutive-miss counter: a read resets it, a miss raises it. */
  function Tick(k: int, e: Effect): int
  {
    if e == QrProbed(None) then k + 1 else if e.QrProbed? then 0 else k
  }

  /** The consecutive-miss counter after the effects `es`, starting from `c`. */
  function MissCounter(c: int, es: seq<Effect>): int
    decreases |es|
  {
    if es == [] then c else Tick(MissCounter(c, es[..|es| - 1]), es[|es| - 1])
  }

  /** The counter values after which the page is reloaded: positive multiples of three below the budget. */
  predicate Periodic(maxRetries: int, k: int)
  {
    0 < k < maxRetries && k % ReloadPeriod == 0
  }

  /** Position `i` is a reload exactly when it directly follows a miss that brought the counter to a reload value. */
  predicate ReloadAt(maxRetries: int, c: int, es: seq<Effect>, i: int)
    requires 0 <= i < |es|
  {
    es[i] == Reload <==> (1 <= i && es[i - 1] == QrProbed(None) && Periodic(maxRetries, MissCounter(c, es[..i])))
  }

  /** A miss that brings the counter to a reload value is never the last effect. */
  predicate ReloadFollowsAt(maxRetries: int, c: int, es: seq<Effect>, i: int)
    requires 0 <= i < |es|
  {
    es[i] == QrProbed(None) && Periodic(maxRetries, MissCounter(c, es[..i + 1])) ==> i + 1 < |es|
  }

  predicate ReloadsOnPeriod(maxRetries: int, c: int, es: seq<Effect>)
  {
    forall i :: 0 <= i < |es| ==> ReloadAt(maxRetries, c, es, i) && ReloadFollowsAt(maxRetries, c, es, i)
  }

  /** The counter is the number of misses since the last read, plus `c` when nothing was read yet. */
  lemma {:induction false} MissCounterCountsMisses(c: int, es: seq<Effect>)
    ensures var seen := QrReads(es);
      MissCounter(c, es) == TrailingMisses(seen) + (if TrailingMisses(seen) == |seen| then c else 0)
    decreases |es|
  {
    if es != [] {
      var p, e := es[..|es| - 1], es[|es| - 1];
      assert es == p + [e];
      QrReadsAppend(p, [e]);
      assert ([e])[1..] == [];
      assert QrReads([e]) == (if e.QrProbed? then [e.found] else []) + QrReads([]);
      MissCounterCountsMisses(c, p);
      var seen := QrReads(es);
      if e.QrProbed? {
        assert seen[..|seen| - 1] == QrReads(p);
      } else {
        assert seen == QrReads(p);
      }
    }
  }

  lemma {:induction false} MissCounterAppend(c: int, a: seq<Effect>, b: seq<Effect>)
    ensures MissCounter(c, a + b) == MissCounter(MissCounter(c, a), b)
    decreases |b|
  {
    if b == [] {
      assert a + b == a;
    } else {
      assert (a + b)[..|a + b| - 1] == a + b[..|b| - 1];
      MissCounterAppend(c, a, b[..|b| - 1]);
    }
  }

  lemma MissCounterSnoc(c: int, es: seq<Effect>, i: int)
    requires 0 <= i < |es|
    ensures MissCounter(c, es[..i + 1]) == Tick(MissCounter(c, es[..i]), es[i])
  {
    assert es[..i + 1][..i] == es[..i];
  }

  lemma ReloadsInFirst(maxRetries: int, c: int, a: seq<Effect>, b: seq<Effect>, i: int)
    requires 0 <= i < |a| && ReloadAt(maxRetries, c, a, i) && ReloadFollowsAt(maxRetries, c, a, i)
    ensures ReloadAt(maxRetries, c, a + b, i) && ReloadFollowsAt(maxRetries, c, a + b, i)
  {
    assert (a + b)[..i] == a[..i];
    assert (a + b)[..i + 1] == a[..i + 1];
  }

  lemma ReloadsInSecond(maxRetries: int, c: int, a: seq<Effect>, b: seq<Effect>, j: int)
    requires 0 <= j < |b|
    requires ReloadAt(maxRetries, MissCounter(c, a), b, j) && ReloadFollowsAt(maxRetries, MissCounter(c, a), b, j)
    requires |a| > 0 ==> ReloadFollowsAt(maxRetries, c, a, |a| - 1)
    ensures ReloadAt(maxRetries, c, a + b, |a| + j) && ReloadFollowsAt(maxRetries, c, a + b, |a| + j)
  {
    assert (a + b)[..|a| + j] == a + b[..j];
    assert (a + b)[..|a| + j + 1] == a + b[..j + 1];
    MissCounterAppend(c, a, b[..j]);
    MissCounterAppend(c, a, b[..j + 1]);
    if j == 0 {
      assert b[..0] == [];
      assert |a| > 0 ==> a[..|a|] == a;
    }
  }

  /** Reload positions compose: the second part is read from the counter the first part leaves. */
  lemma ReloadsOnPeriodAppend(maxRetries: int, c: int, a: seq<Effect>, b: seq<Effect>)
    requires ReloadsOnPeriod(maxRetries, c, a) && ReloadsOnPeriod(maxRetries, MissCounter(c, a), b)
    ensures ReloadsOnPeriod(maxRetries, c, a + b)
  {
    forall i | 0 <= i < |a + b|
      ensures ReloadAt(maxRetries, c, a + b, i) && ReloadFollowsAt(maxRetries, c, a + b, i)
    {
      if i < |a| {
        ReloadsInFirst(maxRetries, c, a, b, i);
      } else {
        ReloadsInSecond(maxRetries, c, a, b, i - |a|);
      }
    }
  }

  lemma HitOnPeriod(maxRetries: int, c: int, last: Option<string>, data: string)
    ensures ReloadsOnPeriod(maxRetries, c, HitEffects(last, data))
    ensures MissCounter(c, HitEffects(last, data)) == 0
  {
    var es := HitEffects(last, data);
    MissCounterSnoc(c, es, 0);
    if |es| == 2 {
      MissCounterSnoc(c, es, 1);
      assert es[..2] == es;
    } else {
      assert es[..1] == es;
    }
  }

  /** Effects that probe no QR code leave the counter alone. */
  lemma {:induction false} MissCounterQuiet(c: int, es: seq<Effect>)
    requires forall i :: 0 <= i < |es| ==> !es[i].QrProbed?
    ensures MissCounter(c, es) == c
    decreases |es|
  {
    if es != [] {
      MissCounterQuiet(c, es[..|es| - 1]);
    }
  }

  /** A miss below the budget, with what follows it in the same pass. */
  lemma MissOnPeriod(maxRetries: int, retry: int, after: seq<Effect>)
    requires 0 <= retry && retry + 1 < maxRetries
    requires after == [] || after == [UiProbed(true)] || after == [UiProbed(false)]
    ensures ReloadsOnPeriod(maxRetries, retry, MissEffects(retry + 1) + after)
    ensures MissCounter(retry, MissEffects(retry + 1) + after) == retry + 1
  {
    var es := MissEffects(retry + 1) + after;
    var rest := es[1..];
    assert es == [QrProbed(None)] + rest;
    assert MissCounter(retry, [QrProbed(None)]) == retry + 1 by {
      assert [QrProbed(None)][..0] == [];
    }
    forall i | 1 <= i <= |es|
      ensures MissCounter(retry, es[..i]) == retry + 1
    {
      assert es[..i] == [QrProbed(None)] + rest[..i - 1];
      MissCounterAppend(retry, [QrProbed(None)], rest[..i - 1]);
      MissCounterQuiet(retry + 1, rest[..i - 1]);
    }
    assert es[..|es|] == es;
    if (retry + 1) % ReloadPeriod == 0 {
      assert es[1] == Reload && forall i :: 2 <= i < |es| ==> es[i].UiProbed?;
    } else {
      assert forall i :: 1 <= i < |es| ==> es[i].UiProbed?;
    }
  }

  /** The miss that exhausts the budget. */
  lemma LastMissOnPeriod(maxRetries: int, retry: int)
    requires retry + 1 >= maxRetries
    ensures ReloadsOnPeriod(maxRetries, retry, [QrProbed(None)])
  {
    assert [QrProbed(None)][..0] == [];
    MissCounterSnoc(retry, [QrProbed(None)], 0);
  }

  /**
   * In the polling loop, a reload comes exactly right after a miss that brings the number of
   * misses since the last read (counting from `retry`) to a positive multiple of three below
   * `max_retries`, and every such miss is followed by one; the miss that exhausts the budget is not.
   */
  lemma {:induction false} PollReloadsOnPeriod(maxRetries: int, retry: int, last: Option<string>,
                                               qrs: seq<Option<string>>, uis: seq<bool>)
    requires HeadInvariant(maxRetries, retry)
    ensures ReloadsOnPeriod(maxRetries, retry, Poll(maxRetries, retry, last, qrs, uis).effects)
    decreases |qrs|
  {
    if retry > maxRetries || qrs == [] {
    } else if qrs[0].Some? {
      var next := Poll(maxRetries, 0, qrs[0], qrs[1..], uis);
      PollHitStep(maxRetries, retry, last, qrs, uis);
      PollReloadsOnPeriod(maxRetries, 0, qrs[0], qrs[1..], uis);
      HitOnPeriod(maxRetries, retry, last, qrs[0].value);
      ReloadsOnPeriodAppend(maxRetries, retry, HitEffects(last, qrs[0].value), next.effects);
    } else if retry + 1 >= maxRetries {
      LastMissOnPeriod(maxRetries, retry);
    } else if uis == [] {
      MissOnPeriod(maxRetries, retry, []);
      assert MissEffects(retry + 1) + [] == MissEffects(retry + 1);
    } else if uis[0] {
      MissOnPeriod(maxRetries, retry, [UiProbed(true)]);
    } else {
      var pass := MissEffects(retry + 1) + [UiProbed(false)];
      var next := Poll(maxRetries, retry + 1, last, qrs[1..], uis[1..]);
      PollMissStep(maxRetries, retry, last, qrs, uis);
      PollReloadsOnPeriod(maxRetries, retry + 1, last, qrs[1..], uis[1..]);
      MissOnPeriod(maxRetries, retry, [UiProbed(false)]);
      ReloadsOnPeriodAppend(maxRetries, retry, pass, next.effects);
    }
  }

  /** Over the whole of `_auth_with_qr`, reloads follow exactly the misses at the reload counts. */
  lemma QrRunReloadsOnPeriod(webUrl: Option<string>, maxRetries: int, qrs: seq<Option<string>>, uis: seq<bool>)
    ensures ReloadsOnPeriod(maxRetries, 0, QrRun(webUrl, maxRetries, qrs, uis).effects)
  {
    var nav := [NewPage, Goto(webUrl)];
    assert nav[..0] == [];
    MissCounterSnoc(0, nav, 0);
    MissCounterSnoc(0, nav, 1);
    assert nav[..2] == nav;
    PollReloadsOnPeriod(maxRetries, 0, None, qrs, uis);
    ReloadsOnPeriodAppend(maxRetries, 0, nav, Poll(maxRetries, 0, None, qrs, uis).effects);
  }

  /** How many reads at the end of `seen` are misses. */
  function TrailingMisses(seen: seq<Option<string>>): nat
    decreases |seen|
  {
    if seen == [] || seen[|seen| - 1].Some? then 0 else 1 + TrailingMisses(seen[..|seen| - 1])
  }

  lemma {:induction false} TrailingMissesCons(x: Option<string>, seen: seq<Option<string>>)
    ensures TrailingMisses([x] + seen) ==
      if TrailingMisses(seen) < |seen| || x.Some? then TrailingMisses(seen) else TrailingMisses(seen) + 1
    decreases |seen|
  {
    var all := [x] + seen;
    if seen == [] {
      assert all[..0] == [];
    } else {
      assert all[|all| - 1] == seen[|seen| - 1];
      assert all[..|all| - 1] == [x] + seen[..|seen| - 1];
      TrailingMissesCons(x, seen[..|seen| - 1]);
    }
  }

  lemma {:induction false} TrailingMissesBound(seen: seq<Option<string>>)
    ensures TrailingMisses(seen) <= |seen|
    decreases |seen|
  {
    if seen != [] && seen[|seen| - 1].None? {
      TrailingMissesBound(seen[..|seen| - 1]);
    }
  }

  /** The budget a run of misses has to exhaust: a budget of zero is exhausted by one miss. */
  function MissesToFail(maxRetries: int): int {
    if maxRetries == 0 then 1 else maxRetries
  }

  /**
   * The reads `seen` end in misses that, with the `retry` misses counted before them when no
   * read succeeded in between, exhaust the budget.
   */
  predicate FailedAfterMisses(maxRetries: int, retry: int, seen: seq<Option<string>>) {
    TrailingMisses(seen) + (if TrailingMisses(seen) == |seen| then retry else 0) == MissesToFail(maxRetries)
  }

  /** QrNotFound after a pass that read `data`: the misses all come after the read. */
  lemma FailedAfterRead(maxRetries: int, retry: int, last: Option<string>, data: string, run: Run, next: Run)
    requires run == Prepend(HitEffects(last, data), next)
    requires next.outcome == Raised(QrNotFound(maxRetries)) ==>
      maxRetries >= 0 && FailedAfterMisses(maxRetries, 0, QrReads(next.effects))
    ensures run.outcome == Raised(QrNotFound(maxRetries)) ==>
      maxRetries >= 0 && FailedAfterMisses(maxRetries, retry, QrReads(run.effects))
  {
    HitObserved(last, data);
    QrReadsAppend(HitEffects(last, data), next.effects);
    TrailingMissesCons(Some(data), QrReads(next.effects));
    TrailingMissesBound(QrReads(next.effects));
  }

  /** QrNotFound after a missed pass: the miss joins the run of misses after it. */
  lemma FailedAfterMiss(maxRetries: int, retry: int, run: Run, next: Run)
    requires run == Prepend(MissEffects(retry + 1) + [UiProbed(false)], next)
    requires next.outcome == Raised(QrNotFound(maxRetries)) ==>
      maxRetries >= 0 && FailedAfterMisses(maxRetries, retry + 1, QrReads(next.effects))
    ensures run.outcome == Raised(QrNotFound(maxRetries)) ==>
      maxRetries >= 0 && FailedAfterMisses(maxRetries, retry, QrReads(run.effects))
  {
    MissObserved(retry + 1, [UiProbed(false)]);
    QrReadsAppend(MissEffects(retry + 1) + [UiProbed(false)], next.effects);
    TrailingMissesCons(None, QrReads(next.effects));
    TrailingMissesBound(QrReads(next.effects));
  }

  /** The miss that exhausts the budget: one missing read, which with the earlier misses is the budget. */
  lemma FailedOnLastMiss(maxRetries: int, retry: int, run: Run)
    requires HeadInvariant(maxRetries, retry) && retry <= maxRetries && retry + 1 >= maxRetries
    requires run.outcome == Raised(QrNotFound(maxRetries)) && run.effects == [QrProbed(None)]
    ensures maxRetries >= 0 && FailedAfterMisses(maxRetries, retry, QrReads(run.effects))
  {
    var seen: seq<Option<string>> := [None];
    assert QrReads([QrProbed(None)]) == seen;
    assert TrailingMisses(seen) == 1 by {
      assert seen[..0] == [];
    }
  }

  /**
   * From the loop head, QrNotFound is raised only after the counter reaches the budget: the
   * reads end in a run of misses that, with the misses counted before (`retry`, when no read
   * succeeded in between), is exactly the budget.
   */
  lemma {:induction false} PollQrNotFoundAfterMisses(maxRetries: int, retry: int, last: Option<string>,
                                                     qrs: seq<Option<string>>, uis: seq<bool>)
    requires HeadInvariant(maxRetries, retry)
    ensures Poll(maxRetries, retry, last, qrs, uis).outcome == Raised(QrNotFound(maxRetries)) ==>
      maxRetries >= 0 && FailedAfterMisses(maxRetries, retry, QrReads(Poll(maxRetries, retry, last, qrs, uis).effects))
    decreases |qrs|
  {
    var run := Poll(maxRetries, retry, last, qrs, uis);
    if retry <= maxRetries && qrs != [] {
      if qrs[0].Some? {
        var next := Poll(maxRetries, 0, qrs[0], qrs[1..], uis);
        PollQrNotFoundAfterMisses(maxRetries, 0, qrs[0], qrs[1..], uis);
        FailedAfterRead(maxRetries, retry, last, qrs[0].value, run, next);
      } else if retry + 1 >= maxRetries {
        FailedOnLastMiss(maxRetries, retry, run);
      } else if uis != [] && !uis[0] {
        var next := Poll(maxRetries, retry + 1, last, qrs[1..], uis[1..]);
        PollQrNotFoundAfterMisses(maxRetries, retry + 1, last, qrs[1..], uis[1..]);
        FailedAfterMiss(maxRetries, retry, run, next);
      }
    }
  }

  /** `_auth_with_qr` raises QrNotFound only after its last `max_retries` reads (at least one) all missed. */
  lemma QrRunQrNotFoundAfterMisses(webUrl: Option<string>, maxRetries: int, qrs: seq<Option<string>>, uis: seq<bool>)
    ensures QrRun(webUrl, maxRetries, qrs, uis).outcome == Raised(QrNotFound(maxRetries)) ==>
      maxRetries >= 0 && TrailingMisses(QrReads(QrRun(webUrl, maxRetries, qrs, uis).effects)) == MissesToFail(maxRetries)
  {
    var rest := Poll(maxRetries, 0, None, qrs, uis).effects;
    PollQrNotFoundAfterMisses(maxRetries, 0, None, qrs, uis);
    assert QrRun(webUrl, maxRetries, qrs, uis).effects == [NewPage, Goto(webUrl)] + rest;
    QrReadsAppend([NewPage, Goto(webUrl)], rest);
    Unobserved([NewPage, Goto(webUrl)]);
    assert [] + QrReads(rest) == QrReads(rest);
  }
}
