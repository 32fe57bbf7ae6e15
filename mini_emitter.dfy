/**
 * The minimal emitter (src/structures/EventEmitter.py): `on` and `emit` only. Registrations are
 * never removed, and an exception from a callback is not caught.
 */
module MinimalEmitter {
  import opened Wrappers
  import opened Delivery

  /** `events.get(event, [])`. */
  function Get(m: map<string, seq<nat>>, event: string): seq<nat> {
    if event in m then m[event] else []
  }

  /** `on`: the registry with `callback` appended to the event's list, created if absent. */
  function Appended(m: map<string, seq<nat>>, event: string, callback: nat): map<string, seq<nat>> {
    m[event := Get(m, event) + [callback]]
  }

  /** The exception of the callback that raised, propagated unchanged. */
  datatype EmitError = CallbackError(callback: nat)

  class EventEmitter {
    var events: map<string, seq<nat>>

    constructor()
      ensures events == map[]
    {
      events := map[];
    }

    /** `on`: create an empty list for an unseen event, then append the callback. */
    method On(event: string, callback: nat)
      modifies this
      ensures events == Appended(old(events), event, callback)
    {
      if event !in events {
        events := events[event := []];
      }
      events := events[event := events[event] + [callback]];
    }

    /**
     * `emit`: invoke the registered callbacks in order; the first that raises ends the emission
     * with its own exception. The registry is not changed.
     */
    method Emit(event: string, args: seq<string>, raising: set<nat>) returns (calls: seq<Call>, err: Option<EmitError>)
      ensures var em := Deliver(Get(events, event), args, raising);
        calls == em.calls && err == (if em.raisedBy.Some? then Some(CallbackError(em.raisedBy.value)) else None)
    {
      calls := [];
      err := None;
      if event in events {
        var cbs := events[event];
        var i := 0;
        while i < |cbs|
          invariant 0 <= i <= |cbs|
          invariant Deliver(cbs, args, raising) ==
            Emission(calls + Deliver(cbs[i..], args, raising).calls, Deliver(cbs[i..], args, raising).raisedBy)
        {
          DeliverAt(cbs, i, args, raising);
          ghost var before := calls;
          calls := calls + [Call(cbs[i], args)];
          if cbs[i] in raising {
            return calls, Some(CallbackError(cbs[i]));
          }
          assert calls + Deliver(cbs[i + 1..], args, raising).calls ==
            before + ([Call(cbs[i], args)] + Deliver(cbs[i + 1..], args, raising).calls);
          i := i + 1;
        }
        assert cbs[i..] == [];
        assert calls + [] == calls;
      } else {
        DeliverNothing(args, raising);
      }
    }
  }

  /** Registrations are never removed: after `on`, every event's old list is a prefix of its new one. */
  lemma OnOnlyGrows(m: map<string, seq<nat>>, event: string, callback: nat)
    ensures m.Keys <= Appended(m, event, callback).Keys
    ensures forall k :: k in m ==> Get(m, k) <= Get(Appended(m, event, callback), k)
    ensures Get(Appended(m, event, callback), event) == Get(m, event) + [callback]
  {
  }
}
