/** What the full emitter promises, proved about the functions its methods are specified by. */
module EmitterProperties {
  import opened Wrappers
  import opened Delivery
  import opened Emitter

  // ---------------------------------------------------------------- on

  /** `on` appends at the end of the event's list (duplicates allowed) and touches no other event. */
  lemma OnAppends(m: map<string, seq<Listener>>, event: string, l: Listener)
    ensures Get(Added(m, event, l), event) == Get(m, event) + [l]
    ensures Added(m, event, l).Keys == m.Keys + {event}
    ensures forall k :: k != event ==> Get(Added(m, event, l), k) == Get(m, k)
  {
  }

  // ---------------------------------------------------------------- off

  /** The filter keeps exactly the registrations other than `l`. */
  lemma {:induction false} FilterMembers(ls: seq<Listener>, l: Listener)
    ensures forall x :: x in Filter(ls, l) <==> x in ls && x != l
    decreases |ls|
  {
    if ls != [] {
      FilterMembers(ls[1..], l);
      assert ls == [ls[0]] + ls[1..];
    }
  }

  /** One step of the filter, on a list split as its first registration and the rest. */
  lemma FilterCons(h: Listener, t: seq<Listener>, l: Listener)
    ensures Filter([h] + t, l) == (if h == l then [] else [h]) + Filter(t, l)
  {
    assert ([h] + t)[0] == h && ([h] + t)[1..] == t;
  }

  /** The filter keeps the relative order: it distributes over concatenation. */
  lemma {:induction false} FilterAppend(a: seq<Listener>, b: seq<Listener>, l: Listener)
    ensures Filter(a + b, l) == Filter(a, l) + Filter(b, l)
    decreases |a|
  {
    if a == [] {
      assert a + b == b;
    } else {
      var t := a[1..];
      assert a == [a[0]] + t && a + b == [a[0]] + (t + b);
      FilterCons(a[0], t + b, l);
      FilterCons(a[0], t, l);
      FilterAppend(t, b, l);
      var h := if a[0] == l then [] else [a[0]];
      assert h + (Filter(t, l) + Filter(b, l)) == (h + Filter(t, l)) + Filter(b, l);
    }
  }

  /** Nothing equal to `l`, nothing removed. */
  lemma {:induction false} FilterAbsent(ls: seq<Listener>, l: Listener)
    requires l !in ls
    ensures Filter(ls, l) == ls
    decreases |ls|
  {
    if ls != [] {
      assert forall x :: x in ls[1..] ==> x in ls;
      FilterAbsent(ls[1..], l);
      assert ls == [ls[0]] + ls[1..];
    }
  }

  /** Every copy of `l` goes, every other registration stays as often as it was. */
  lemma {:induction false} FilterCounts(ls: seq<Listener>, l: Listener)
    ensures multiset(Filter(ls, l)) == multiset(ls)[l := 0]
    decreases |ls|
  {
    if ls != [] {
      FilterCounts(ls[1..], l);
      assert ls == [ls[0]] + ls[1..];
      assert multiset(ls) == multiset{ls[0]} + multiset(ls[1..]);
    }
  }

  /**
   * `off` on an unknown event changes nothing; on a known one it filters that event's list, removes
   * the key when nothing is left, and leaves every other event alone.
   */
  lemma OffFilters(m: map<string, seq<Listener>>, event: string, l: Listener)
    ensures event !in m ==> Without(m, event, l) == m
    ensures Get(Without(m, event, l), event) == Filter(Get(m, event), l)
    ensures event in Without(m, event, l) <==> event in m && Filter(m[event], l) != []
    ensures forall k :: k != event ==> (k in Without(m, event, l) <==> k in m)
    ensures forall k :: k != event ==> Get(Without(m, event, l), k) == Get(m, k)
  {
  }

  /** `off(event, cb)` never removes a `once` registration of `cb`: the stored entry is the wrapper. */
  lemma OffKeepsOnceRegistrations(m: map<string, seq<Listener>>, event: string, cb: nat, serial: nat)
    requires OnceWrapper(serial, cb) in Get(m, event)
    ensures OnceWrapper(serial, cb) in Get(Without(m, event, Plain(cb)), event)
  {
    FilterMembers(Get(m, event), Plain(cb));
  }

  // ---------------------------------------------------------------- the registry invariant

  /**
   * A stored list is never empty, every wrapper in it was made before `nextSerial`, and each
   * wrapper occurs once.
   */
  predicate ListValid(ls: seq<Listener>, nextSerial: nat) {
    ls != [] &&
    (forall x :: x in ls && x.OnceWrapper? ==> x.serial < nextSerial) &&
    (forall x :: x in multiset(ls) && x.OnceWrapper? ==> multiset(ls)[x] == 1)
  }

  predicate Valid(m: map<string, seq<Listener>>, nextSerial: nat) {
    forall k :: k in m ==> ListValid(m[k], nextSerial)
  }

  /** The new emitter satisfies the invariant. */
  lemma EmptyValid()
    ensures Valid(map[], 0)
  {
  }

  lemma ListValidLater(ls: seq<Listener>, n: nat, n': nat)
    requires n <= n' && ListValid(ls, n)
    ensures ListValid(ls, n')
  {
  }

  /** `on` with a plain callback keeps the invariant. */
  lemma OnKeepsValid(m: map<string, seq<Listener>>, n: nat, event: string, cb: nat)
    requires Valid(m, n)
    ensures Valid(Added(m, event, Plain(cb)), n)
  {
    var ls := Get(m, event) + [Plain(cb)];
    assert multiset(ls) == multiset(Get(m, event)) + multiset{Plain(cb)};
    assert ListValid(ls, n);
  }

  /** `once` keeps the invariant: its wrapper is new, since every stored one is older. */
  lemma OnceKeepsValid(m: map<string, seq<Listener>>, n: nat, event: string, cb: nat)
    requires Valid(m, n)
    ensures Valid(Added(m, event, OnceWrapper(n, cb)), n + 1)
  {
    var old' := Get(m, event);
    var w := OnceWrapper(n, cb);
    var ls := old' + [w];
    assert w !in old';
    assert multiset(ls) == multiset(old') + multiset{w};
    assert ListValid(ls, n + 1);
    forall k | k in m
      ensures ListValid(m[k], n + 1)
    {
      ListValidLater(m[k], n, n + 1);
    }
  }

  /** `off` keeps the invariant; in particular it never leaves an empty list behind. */
  lemma OffKeepsValid(m: map<string, seq<Listener>>, n: nat, event: string, l: Listener)
    requires Valid(m, n)
    ensures Valid(Without(m, event, l), n)
  {
    if event in m {
      var kept := Filter(m[event], l);
      FilterMembers(m[event], l);
      FilterCounts(m[event], l);
      if kept != [] {
        assert ListValid(kept, n);
      }
    }
  }

  /** An emission keeps the invariant. */
  lemma {:induction false} AfterEmitKeepsValid(m: map<string, seq<Listener>>, n: nat, event: string, invoked: seq<Listener>)
    requires Valid(m, n)
    ensures Valid(AfterEmit(m, event, invoked), n)
    decreases |invoked|
  {
    if invoked != [] {
      var prefix := invoked[..|invoked| - 1];
      AfterEmitKeepsValid(m, n, event, prefix);
      OffKeepsValid(AfterEmit(m, event, prefix), n, event, invoked[|invoked| - 1]);
    }
  }

  // ---------------------------------------------------------------- emit

  /** An emission of an unknown event invokes nothing and changes nothing. */
  lemma EmitUnknownEvent(m: map<string, seq<Listener>>, event: string, args: seq<string>, raising: set<nat>)
    requires event !in m
    ensures Deliver(Callbacks(Get(m, event)), args, raising) == Emission([], None)
    ensures AfterEmit(m, event, Get(m, event)[..0]) == m
  {
    assert Callbacks(Get(m, event)) == [];
  }

  /**
   * When no callback raises, every registration of the list emission started with is invoked,
   * in order, also those after a `once` wrapper that removed itself on the way.
   */
  lemma EmitReachesEveryRegistration(ls: seq<Listener>, args: seq<string>, raising: set<nat>)
    requires forall i :: 0 <= i < |ls| ==> ls[i].callback !in raising
    ensures Deliver(Callbacks(ls), args, raising).raisedBy == None
    ensures |Deliver(Callbacks(ls), args, raising).calls| == |ls|
    ensures forall i :: 0 <= i < |ls| ==> Deliver(Callbacks(ls), args, raising).calls[i] == Call(ls[i].callback, args)
  {
    var cbs := Callbacks(ls);
    DeliverInOrder(cbs, args, raising);
  }

  /**
   * A raising callback ends the emission: the registrations before it were invoked, it was
   * invoked, and none after it is.
   */
  lemma EmitStopsAtRaising(ls: seq<Listener>, args: seq<string>, raising: set<nat>, j: nat)
    requires j < |ls| && ls[j].callback in raising
    requires forall i :: 0 <= i < j ==> ls[i].callback !in raising
    ensures Deliver(Callbacks(ls), args, raising).raisedBy == Some(ls[j].callback)
    ensures |Deliver(Callbacks(ls), args, raising).calls| == j + 1
    ensures forall i :: 0 <= i <= j ==> Deliver(Callbacks(ls), args, raising).calls[i] == Call(ls[i].callback, args)
  {
    var cbs := Callbacks(ls);
    DeliverInOrder(cbs, args, raising);
  }

  /** After an emission, every `once` wrapper it invoked is gone from the event's list. */
  lemma {:induction false} AfterEmitRemovesFired(m: map<string, seq<Listener>>, event: string, invoked: seq<Listener>)
    ensures forall x :: x in invoked && x.OnceWrapper? ==> x !in Get(AfterEmit(m, event, invoked), event)
    decreases |invoked|
  {
    if invoked != [] {
      var prefix := invoked[..|invoked| - 1];
      var last := invoked[|invoked| - 1];
      var prev := AfterEmit(m, event, prefix);
      AfterEmitRemovesFired(m, event, prefix);
      assert invoked == prefix + [last];
      if last.OnceWrapper? {
        OffFilters(prev, event, last);
        FilterMembers(Get(prev, event), last);
      }
    }
  }

  /**
   * An emission removes nothing but the `once` wrappers it invoked, and keeps the order of what
   * remains; other events are untouched.
   */
  lemma {:induction false} AfterEmitKeepsRest(m: map<string, seq<Listener>>, event: string, invoked: seq<Listener>)
    ensures forall x :: x in Get(m, event) && !(x in invoked && x.OnceWrapper?) ==>
      x in Get(AfterEmit(m, event, invoked), event)
    ensures forall k :: k != event ==> (k in AfterEmit(m, event, invoked) <==> k in m)
    ensures forall k :: k != event ==> Get(AfterEmit(m, event, invoked), k) == Get(m, k)
    decreases |invoked|
  {
    if invoked != [] {
      var prefix := invoked[..|invoked| - 1];
      var last := invoked[|invoked| - 1];
      var prev := AfterEmit(m, event, prefix);
      AfterEmitKeepsRest(m, event, prefix);
      assert invoked == prefix + [last];
      if last.OnceWrapper? {
        OffFilters(prev, event, last);
        FilterMembers(Get(prev, event), last);
      }
    }
  }

  /**
   * A `once` registration is delivered at most once: it occurs once in the list an emission
   * iterates, it is gone once that emission has invoked it, and no later `once` can bring it back,
   * since every new wrapper is made at or after `nextSerial`.
   */
  lemma OnceDeliveredAtMostOnce(m: map<string, seq<Listener>>, n: nat, event: string, k: nat, w: Listener)
    requires Valid(m, n)
    requires k <= |Get(m, event)| && w in Get(m, event)[..k] && w.OnceWrapper?
    ensures multiset(Get(m, event))[w] == 1
    ensures w !in Get(AfterEmit(m, event, Get(m, event)[..k]), event)
    ensures forall s, cb :: s >= n ==> w != OnceWrapper(s, cb)
  {
    var ls := Get(m, event);
    assert w in ls;
    assert event in m;
    assert ListValid(ls, n);
    AfterEmitRemovesFired(m, event, ls[..k]);
  }
}
