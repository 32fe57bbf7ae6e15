/**
 * The delivery of one emission, shared by both emitters: callbacks are opaque ids, a fixed set
 * of them raises when invoked, and every invoked callback receives the same arguments.
 */
module Delivery {
  import opened Wrappers

  /** One invocation of callback `callback` with the emitted arguments. */
  datatype Call = Call(callback: nat, args: seq<string>)

  /** What an emission did: the invocations in order, and the callback that raised, if one did. */
  datatype Emission = Emission(calls: seq<Call>, raisedBy: Option<nat>)

  /** Invoke `cbs` in order with `args`; the first raising callback ends the emission. */
  function Deliver(cbs: seq<nat>, args: seq<string>, raising: set<nat>): Emission
    decreases |cbs|
  {
    if cbs == [] then Emission([], None)
    else if cbs[0] in raising then Emission([Call(cbs[0], args)], Some(cbs[0]))
    else
      var rest := Deliver(cbs[1..], args, raising);
      Emission([Call(cbs[0], args)] + rest.calls, rest.raisedBy)
  }

  /** The index of the first raising callback, or |cbs| when none raises. */
  function FirstRaising(cbs: seq<nat>, raising: set<nat>): (r: nat)
    ensures r <= |cbs|
    ensures forall i :: 0 <= i < r ==> cbs[i] !in raising
    ensures r < |cbs| ==> cbs[r] in raising
    decreases |cbs|
  {
    if cbs == [] || cbs[0] in raising then 0 else 1 + FirstRaising(cbs[1..], raising)
  }

  /** Delivery from position `i`: one invocation, then the rest unless it raised. */
  lemma DeliverAt(cbs: seq<nat>, i: int, args: seq<string>, raising: set<nat>)
    requires 0 <= i < |cbs|
    ensures Deliver(cbs[i..], args, raising) ==
      if cbs[i] in raising then Emission([Call(cbs[i], args)], Some(cbs[i]))
      else Emission([Call(cbs[i], args)] + Deliver(cbs[i + 1..], args, raising).calls,
                    Deliver(cbs[i + 1..], args, raising).raisedBy)
  {
    assert cbs[i..][1..] == cbs[i + 1..];
  }

  /**
   * The registered callbacks are invoked in registration order, each once per registration, with
   * the same arguments, up to and including the first that raises, and no further. The emission
   * raises exactly when one of them raises.
   */
  lemma {:induction false} DeliverInOrder(cbs: seq<nat>, args: seq<string>, raising: set<nat>)
    ensures |Deliver(cbs, args, raising).calls| ==
      if FirstRaising(cbs, raising) < |cbs| then FirstRaising(cbs, raising) + 1 else |cbs|
    ensures forall i :: 0 <= i < |Deliver(cbs, args, raising).calls| ==>
      Deliver(cbs, args, raising).calls[i] == Call(cbs[i], args)
    ensures Deliver(cbs, args, raising).raisedBy ==
      if FirstRaising(cbs, raising) < |cbs| then Some(cbs[FirstRaising(cbs, raising)]) else None
    decreases |cbs|
  {
    if cbs != [] && cbs[0] !in raising {
      DeliverInOrder(cbs[1..], args, raising);
    }
  }

  /** The emission raises exactly when one of the callbacks raises. */
  lemma DeliverRaisesIffSomeRaises(cbs: seq<nat>, args: seq<string>, raising: set<nat>)
    ensures Deliver(cbs, args, raising).raisedBy.Some? <==> exists i :: 0 <= i < |cbs| && cbs[i] in raising
  {
    DeliverInOrder(cbs, args, raising);
  }

  /** No registration, no invocation. */
  lemma DeliverNothing(args: seq<string>, raising: set<nat>)
    ensures Deliver([], args, raising) == Emission([], None)
  {
  }
}

/**
 * The full emitter (wawebpy/structures/eventemitter.py): a dictionary from event names to lists
 * of registrations, with `on`, `once`, `off` and `emit`. A registration is the callback itself,
 * or the wrapper `once` builds around it, a fresh closure each time, told apart by a serial.
 */
module Emitter {
  import opened Wrappers
  import opened Delivery

  datatype Listener = Plain(callback: nat) | OnceWrapper(serial: nat, callback: nat)

  /** `events.get(event, [])`. */
  function Get(m: map<string, seq<Listener>>, event: string): seq<Listener> {
    if event in m then m[event] else []
  }

  /** The callbacks a list of registrations invokes, in order. */
  function Callbacks(ls: seq<Listener>): (cbs: seq<nat>)
    ensures |cbs| == |ls| && forall i :: 0 <= i < |ls| ==> cbs[i] == ls[i].callback
  {
    seq(|ls|, i requires 0 <= i < |ls| => ls[i].callback)
  }

  /** `events.setdefault(event, []).append(l)`. */
  function Added(m: map<string, seq<Listener>>, event: string, l: Listener): map<string, seq<Listener>> {
    m[event := Get(m, event) + [l]]
  }

  /** The list comprehension of `off`: every registration that is not `l`, in order. */
  function Filter(ls: seq<Listener>, l: Listener): seq<Listener>
    decreases |ls|
  {
    if ls == [] then [] else (if ls[0] == l then [] else [ls[0]]) + Filter(ls[1..], l)
  }

  /** `off(event, l)`: filter the event's list, and drop the key once the list is empty. */
  function Without(m: map<string, seq<Listener>>, event: string, l: Listener): map<string, seq<Listener>> {
    if event !in m then m
    else
      var kept := Filter(m[event], l);
      if kept == [] then m - {event} else m[event := kept]
  }

  /**
   * The state after an emission over `event` that invoked the registrations `invoked` (a prefix
   * of the list at the start): every `once` wrapper among them has removed itself.
   */
  function AfterEmit(m: map<string, seq<Listener>>, event: string, invoked: seq<Listener>): map<string, seq<Listener>>
    decreases |invoked|
  {
    if invoked == [] then m
    else
      var prev := AfterEmit(m, event, invoked[..|invoked| - 1]);
      var l := invoked[|invoked| - 1];
      if l.OnceWrapper? then Without(prev, event, l) else prev
  }

  /** What `emit` raises: RuntimeError, naming the event, chained to the callback's exception. */
  datatype EmitError = RuntimeError(event: string)

  class EventEmitter {
    var events: map<string, seq<Listener>>
    /** The serial of the next `once` wrapper: stands for the identity of a fresh closure. */
    var nextSerial: nat

    constructor()
      ensures events == map[] && nextSerial == 0
    {
      events := map[];
      nextSerial := 0;
    }

    /**
     * `on`: append the registration to the event's list, creating the list if absent. A caller
     * registers `Plain(cb)`; `once` registers its wrapper.
     */
    method On(event: string, l: Listener)
      modifies this
      ensures events == Added(old(events), event, l)
      ensures nextSerial == old(nextSerial)
    {
      events := Added(events, event, l);
    }

    /** `once`: register a fresh wrapper around the callback. */
    method Once(event: string, callback: nat)
      modifies this
      ensures events == Added(old(events), event, OnceWrapper(old(nextSerial), callback))
      ensures nextSerial == old(nextSerial) + 1
    {
      var wrapper := OnceWrapper(nextSerial, callback);
      nextSerial := nextSerial + 1;
      On(event, wrapper);
    }

    /**
     * `off`: remove every registration equal to `l`. A caller holds only its callbacks, so it
     * passes `Plain(cb)`; a `once` wrapper passes itself.
     */
    method Off(event: string, l: Listener)
      modifies this
      ensures events == Without(old(events), event, l)
      ensures nextSerial == old(nextSerial)
    {
      if event in events {
        var kept := Filter(events[event], l);
        events := events[event := kept];
        if kept == [] {
          events := events - {event};
        }
      }
    }

    /**
     * `emit`: iterate over the list registered at the start, invoking each registration; a
     * `once` wrapper first removes itself, which rebinds the event's list but not the one being
     * iterated. A raising callback ends the emission with RuntimeError.
     */
    method Emit(event: string, args: seq<string>, raising: set<nat>) returns (calls: seq<Call>, err: Option<EmitError>)
      modifies this
      ensures var em := Deliver(Callbacks(Get(old(events), event)), args, raising);
        calls == em.calls && (err.Some? <==> em.raisedBy.Some?) && (err.Some? ==> err.value == RuntimeError(event))
      ensures |calls| <= |Get(old(events), event)|
      ensures events == AfterEmit(old(events), event, Get(old(events), event)[..|calls|])
      ensures nextSerial == old(nextSerial)
    {
      var snapshot := Get(events, event);
      ghost var cbs := Callbacks(snapshot);
      ghost var total := Deliver(cbs, args, raising);
      calls := [];
      var i := 0;
      while i < |snapshot|
        invariant 0 <= i <= |snapshot| && |calls| == i
        invariant total == Emission(calls + Deliver(cbs[i..], args, raising).calls, Deliver(cbs[i..], args, raising).raisedBy)
        invariant events == AfterEmit(old(events), event, snapshot[..i])
        invariant nextSerial == old(nextSerial)
      {
        var l := snapshot[i];
        DeliverAt(cbs, i, args, raising);
        assert snapshot[..i + 1][..i] == snapshot[..i];
        if l.OnceWrapper? {
          Off(event, l);
        }
        ghost var before := calls;
        calls := calls + [Call(l.callback, args)];
        if l.callback in raising {
          return calls, Some(RuntimeError(event));
        }
        assert calls + Deliver(cbs[i + 1..], args, raising).calls ==
          before + ([Call(l.callback, args)] + Deliver(cbs[i + 1..], args, raising).calls);
        i := i + 1;
      }
      assert cbs[i..] == [];
      assert calls + [] == calls;
      assert snapshot[..i] == snapshot;
      return calls, None;
    }
  }
}
