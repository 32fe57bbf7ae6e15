/**
 * The world the authentication code talks to, as an oracle: a browser page whose QR and
 * loaded-UI probes answer from finite scripts, a set of existing directories, and a log of
 * every effect the code causes, in order.
 */
module Environment {
  import opened Wrappers
  import opened Exceptions

  datatype Effect =
    | StartPlaywright
    | StopPlaywright
    | Launch(headless: Option<bool>)                               // chromium.launch
    | LaunchPersistent(userDataDir: string, headless: Option<bool>) // chromium.launch_persistent_context
    | NewPage
    | Goto(url: Option<string>)
    | QrProbed(found: Option<string>)   // get_qr_in_page: Some(data-ref) or QrNotFound
    | UiProbed(loaded: bool)            // wait_for_selector(loaded_selector): found or timeout
    | Reload
    | ClosePage
    | Emit(event: string, args: seq<string>)
    | RemoveDir(path: string)

  /** What a probe returns: an answer from the script, or nothing once the script is used up. */
  datatype Probe<T> = Answer(value: T) | Exhausted

  /** How a routine ended: it returned the page, raised, or ran past the end of a probe script. */
  datatype Outcome = PageReturned | Raised(error: Error) | OutOfScript

  /** A whole run of a routine: how it ended, what it did, and what is left of the scripts. */
  datatype Run = Run(outcome: Outcome, effects: seq<Effect>, qrRest: seq<Option<string>>, uiRest: seq<bool>)

  function Prepend(pre: seq<Effect>, r: Run): (r': Run)
    ensures r'.outcome == r.outcome && r'.qrRest == r.qrRest && r'.uiRest == r.uiRest
    ensures r'.effects == pre + r.effects
  {
    r.(effects := pre + r.effects)
  }

  lemma PrependTwice(a: seq<Effect>, b: seq<Effect>, r: Run)
    ensures Prepend(a, Prepend(b, r)) == Prepend(a + b, r)
  {
    assert a + (b + r.effects) == (a + b) + r.effects;
  }

  /** Number of occurrences of `e` in the log `es`. */
  function Count(es: seq<Effect>, e: Effect): nat
    decreases |es|
  {
    if es == [] then 0 else (if es[0] == e then 1 else 0) + Count(es[1..], e)
  }

  lemma {:induction false} CountAppend(a: seq<Effect>, b: seq<Effect>, e: Effect)
    ensures Count(a + b, e) == Count(a, e) + Count(b, e)
    decreases |a|
  {
    if a != [] {
      assert (a + b)[1..] == a[1..] + b;
      CountAppend(a[1..], b, e);
    } else {
      assert a + b == b;
    }
  }

  lemma {:induction false} CountAbsent(es: seq<Effect>, e: Effect)
    requires e !in es
    ensures Count(es, e) == 0
    decreases |es|
  {
    if es != [] {
      assert es == [es[0]] + es[1..];
      CountAbsent(es[1..], e);
    }
  }

  /** The answers of the QR probes recorded in `es`, in order. */
  function QrReads(es: seq<Effect>): seq<Option<string>>
    decreases |es|
  {
    if es == [] then []
    else (if es[0].QrProbed? then [es[0].found] else []) + QrReads(es[1..])
  }

  lemma {:induction false} QrReadsAppend(a: seq<Effect>, b: seq<Effect>)
    ensures QrReads(a + b) == QrReads(a) + QrReads(b)
    decreases |a|
  {
    if a != [] {
      assert (a + b)[1..] == a[1..] + b;
      QrReadsAppend(a[1..], b);
    } else {
      assert a + b == b;
    }
  }

  /** The payloads of the "qr" events emitted in `es`, in order. */
  function QrEmits(es: seq<Effect>): seq<string>
    decreases |es|
  {
    if es == [] then []
    else
      var head := if es[0].Emit? && es[0].event == "qr" && |es[0].args| == 1 then [es[0].args[0]] else [];
      head + QrEmits(es[1..])
  }

  lemma {:induction false} QrEmitsAppend(a: seq<Effect>, b: seq<Effect>)
    ensures QrEmits(a + b) == QrEmits(a) + QrEmits(b)
    decreases |a|
  {
    if a != [] {
      assert (a + b)[1..] == a[1..] + b;
      QrEmitsAppend(a[1..], b);
    } else {
      assert a + b == b;
    }
  }

  /** A log with no QR probe and no event shows neither reads nor events. */
  lemma {:induction false} Unobserved(es: seq<Effect>)
    requires forall e :: e in es ==> !e.QrProbed? && !e.Emit?
    ensures QrReads(es) == [] && QrEmits(es) == []
    decreases |es|
  {
    if es != [] {
      assert es[0] in es;
      assert forall e :: e in es[1..] ==> e in es;
      Unobserved(es[1..]);
    }
  }

  /** A log without events has no "qr" event. */
  lemma {:induction false} NoEvents(es: seq<Effect>)
    requires forall e :: e in es ==> !e.Emit?
    ensures QrEmits(es) == []
    decreases |es|
  {
    if es != [] {
      assert es[0] in es;
      assert forall e :: e in es[1..] ==> e in es;
      NoEvents(es[1..]);
    }
  }

  /** The oracle. Every method appends what it does to `log` and changes nothing it does not name. */
  class Env {
    var qrScript: seq<Option<string>>
    var uiScript: seq<bool>
    var dirs: set<string>
    var log: seq<Effect>

    constructor (qrs: seq<Option<string>>, uis: seq<bool>, existing: set<string>)
      ensures qrScript == qrs && uiScript == uis && dirs == existing && log == []
    {
      qrScript, uiScript, dirs, log := qrs, uis, existing, [];
    }

    /** An effect on the page, the browser or the client that the oracle only records. */
    method Record(e: Effect)
      modifies this
      ensures log == old(log) + [e]
      ensures qrScript == old(qrScript) && uiScript == old(uiScript) && dirs == old(dirs)
    {
      log := log + [e];
    }

    /** Wait for the QR element and read its data-ref attribute. */
    method ProbeQr() returns (p: Probe<Option<string>>)
      modifies this
      ensures old(qrScript) == [] ==> p == Exhausted && log == old(log) && qrScript == old(qrScript)
      ensures old(qrScript) != [] ==>
        p == Answer(old(qrScript)[0]) && qrScript == old(qrScript)[1..] && log == old(log) + [QrProbed(p.value)]
      ensures uiScript == old(uiScript) && dirs == old(dirs)
    {
      if qrScript == [] {
        p := Exhausted;
      } else {
        p := Answer(qrScript[0]);
        qrScript := qrScript[1..];
        log := log + [QrProbed(p.value)];
      }
    }

    /** Wait for the loaded-UI selector: true if it appeared, false on timeout. */
    method ProbeUi() returns (p: Probe<bool>)
      modifies this
      ensures old(uiScript) == [] ==> p == Exhausted && log == old(log) && uiScript == old(uiScript)
      ensures old(uiScript) != [] ==>
        p == Answer(old(uiScript)[0]) && uiScript == old(uiScript)[1..] && log == old(log) + [UiProbed(p.value)]
      ensures qrScript == old(qrScript) && dirs == old(dirs)
    {
      if uiScript == [] {
        p := Exhausted;
      } else {
        p := Answer(uiScript[0]);
        uiScript := uiScript[1..];
        log := log + [UiProbed(p.value)];
      }
    }

    /** `page.reload()`. */
    method Reload()
      modifies this
      ensures log == old(log) + [Effect.Reload]
      ensures qrScript == old(qrScript) && uiScript == old(uiScript) && dirs == old(dirs)
    {
      log := log + [Effect.Reload];
    }

    /** `os.path.exists(path)`. */
    method PathExists(path: string) returns (b: bool)
      ensures b <==> path in dirs
    {
      b := path in dirs;
    }

    /** Launching a persistent context creates its profile directory. */
    method LaunchPersistentContext(path: string, headless: Option<bool>)
      modifies this
      ensures dirs == old(dirs) + {path}
      ensures log == old(log) + [LaunchPersistent(path, headless)]
      ensures qrScript == old(qrScript) && uiScript == old(uiScript)
    {
      dirs := dirs + {path};
      log := log + [LaunchPersistent(path, headless)];
    }

    /** `shutil.rmtree(path, ignore_errors=True)`. */
    method RemoveTree(path: string)
      modifies this
      ensures dirs == old(dirs) - {path}
      ensures log == old(log) + [RemoveDir(path)]
      ensures qrScript == old(qrScript) && uiScript == old(uiScript)
    {
      dirs := dirs - {path};
      log := log + [RemoveDir(path)];
    }
  }
}
