/**
The set of active servers as the object the worker and the listener share
(crates/bonfire/src/events/state.rs:26-79), proved against its history in `ActiveHistory`.
*/
module ActiveSet {
  import opened Sequences
  import opened Subscriptions
  import A = ActiveHistory

  method Retain(entries: seq<A.Entry>, ttl: nat, now: int) returns (kept: seq<A.Entry>)
    ensures kept == A.Live(entries, ttl, now)
  {
    kept := [];
    for i := 0 to |entries|
      invariant kept == A.Live(entries[..i], ttl, now)
    {
      A.LiveStep(entries, ttl, now, i);
      if (if now < entries[i].touched then 0 else now - entries[i].touched) < ttl {
        kept := kept + [entries[i]];
      }
    }
    assert entries[..|entries|] == entries;
  }

  method KeysOf(entries: seq<A.Entry>) returns (keys: seq<Id>)
    ensures |keys| == |entries| && forall i :: 0 <= i < |keys| ==> keys[i] == entries[i].key
  {
    keys := [];
    for i := 0 to |entries|
      invariant |keys| == i && forall j :: 0 <= j < i ==> keys[j] == entries[j].key
    {
      keys := keys + [entries[i].key];
    }
  }

  class ActiveServers {
    const capacity: nat
    const ttl: nat
    var entries: seq<A.Entry>
    /** Every operation so far. */
    ghost var trace: seq<A.Op>

    ghost predicate Valid()
      reads this
    {
      entries == A.Run(capacity, ttl, trace)
    }

    constructor (capacity: nat, ttl: nat)
      ensures this.capacity == capacity && this.ttl == ttl && entries == [] && trace == [] && Valid()
    {
      this.capacity, this.ttl := capacity, ttl;
      entries, trace := [], [];
    }

    method Position(id: Id) returns (i: nat)
      ensures i == A.Position(entries, id)
    {
      i := 0;
      while i < |entries| && entries[i].key != id
        invariant i <= |entries| && forall j :: 0 <= j < i ==> entries[j].key != id
      {
        i := i + 1;
      }
    }

    method Touch(id: Id, now: int) returns (evicted: Option<Id>)
      requires Valid()
      modifies this
      ensures Valid() && trace == old(trace) + [A.TouchOp(id, now)]
      ensures (entries, evicted) == A.Touch(old(entries), capacity, id, now)
    {
      ghost var op := A.TouchOp(id, now);
      Extends(op);
      var index := Position(id);
      if index < |entries| {
        entries := entries[..index] + entries[index + 1..];
        entries := entries + [A.Entry(id, now)];
        evicted := None;
      } else {
        entries := entries + [A.Entry(id, now)];
        if |entries| > capacity {
          evicted := Some(entries[0].key);
          entries := entries[1..];
        } else {
          evicted := None;
        }
      }
      trace := trace + [op];
    }

    /** The worker's `Subscribe`: the listener is signalled exactly when the set of held keys changed. */
    method Subscribe(id: Id, now: int) returns (changed: bool)
      requires Valid() && capacity >= 1
      modifies this
      ensures Valid() && trace == old(trace) + [A.TouchOp(id, now)]
      ensures entries == A.Touch(old(entries), capacity, id, now).0
      ensures changed <==> A.Keys(entries) != A.Keys(old(entries))
    {
      var held := Contains(id);
      A.RunConsistent(capacity, ttl, trace);
      A.TouchChangesKeysIff(entries, capacity, id, now);
      var evicted := Touch(id, now);
      changed := !held || evicted.Some?;
    }

    method Contains(id: Id) returns (held: bool)
      ensures held == (id in A.Keys(entries))
    {
      var index := Position(id);
      held := index < |entries|;
    }

    method Remove(id: Id) returns (held: bool)
      requires Valid()
      modifies this
      ensures Valid() && trace == old(trace) + [A.RemoveOp(id)]
      ensures entries == A.RemoveKey(old(entries), id) && held == (id in A.Keys(old(entries)))
    {
      ghost var op := A.RemoveOp(id);
      Extends(op);
      var index := Position(id);
      held := index < |entries|;
      if held {
        entries := entries[..index] + entries[index + 1..];
      }
      trace := trace + [op];
    }

    /** `live_keys`: the keys in order, `entries` without the expired ones. */
    method LiveKeys(now: int) returns (keys: seq<Id>)
      requires Valid()
      modifies this
      ensures Valid() && trace == old(trace) + [A.ReadOp(now)]
      ensures entries == A.Live(old(entries), ttl, now)
      ensures |keys| == |entries| && forall i :: 0 <= i < |keys| ==> keys[i] == entries[i].key
    {
      Extends(A.ReadOp(now));
      entries := Retain(entries, ttl, now);
      keys := KeysOf(entries);
      trace := trace + [A.ReadOp(now)];
    }

    lemma Extends(op: A.Op)
      requires Valid()
      ensures A.Run(capacity, ttl, trace + [op]) == A.Step(entries, capacity, ttl, op)
    {
      assert (trace + [op])[..|trace|] == trace;
    }
  }
}
