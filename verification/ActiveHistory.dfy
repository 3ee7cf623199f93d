/**
The bounded, expiring set of servers a client follows member events for
(crates/bonfire/src/events/state.rs:12-79), most recently touched last.
*/
module ActiveHistory {
  import opened Sequences
  import opened Subscriptions

  datatype Entry = Entry(key: Id, touched: int)

  function Keys(entries: seq<Entry>): (r: set<Id>)
  {
    set e | e in entries :: e.key
  }

  /** `position`: the first entry for `id`, or the length when there is none. */
  function Position(entries: seq<Entry>, id: Id): (i: nat)
    ensures i <= |entries|
    ensures i < |entries| ==> entries[i].key == id
    ensures forall j :: 0 <= j < i ==> entries[j].key != id
  {
    if entries == [] || entries[0].key == id then 0 else 1 + Position(entries[1..], id)
  }

  function RemoveAt(entries: seq<Entry>, i: nat): (r: seq<Entry>)
    requires i < |entries|
  {
    entries[..i] + entries[i + 1..]
  }

  /** `remove`. */
  function RemoveKey(entries: seq<Entry>, id: Id): (r: seq<Entry>)
  {
    var i := Position(entries, id);
    if i < |entries| then RemoveAt(entries, i) else entries
  }

  /** `touch`: the entries afterwards and the key evicted to make room. */
  function Touch(entries: seq<Entry>, capacity: nat, id: Id, now: int): (r: (seq<Entry>, Option<Id>))
  {
    var i := Position(entries, id);
    if i < |entries| then (RemoveAt(entries, i) + [Entry(id, now)], None)
    else
      var grown := entries + [Entry(id, now)];
      if |grown| > capacity then (grown[1..], Some(grown[0].key)) else (grown, None)
  }

  /** `saturating_duration_since(touched) < ttl`. */
  predicate Fresh(e: Entry, ttl: nat, now: int)
  {
    (if now < e.touched then 0 else now - e.touched) < ttl
  }

  /** `live_keys` keeps these entries, unrefreshed, and returns their keys. */
  function Live(entries: seq<Entry>, ttl: nat, now: int): (r: seq<Entry>)
    ensures forall e :: e in r <==> e in entries && Fresh(e, ttl, now)
    ensures |r| <= |entries|
  {
    Filter(entries, (e: Entry) => Fresh(e, ttl, now))
  }

  lemma LiveStep(entries: seq<Entry>, ttl: nat, now: int, i: nat)
    requires i < |entries|
    ensures Live(entries[..i + 1], ttl, now) ==
      Live(entries[..i], ttl, now) + if Fresh(entries[i], ttl, now) then [entries[i]] else []
  {
    FilterStep(entries, (e: Entry) => Fresh(e, ttl, now), i);
  }

  /** The key a touch hands back is the one it drops: the least recently touched, for a new key in a full set. */
  lemma EvictedIsDropped(entries: seq<Entry>, capacity: nat, id: Id, now: int)
    requires DistinctKeys(entries) && 1 <= capacity && |entries| <= capacity
    ensures var (after, evicted) := Touch(entries, capacity, id, now);
      && (evicted.Some? <==> id !in Keys(entries) && |entries| == capacity)
      && (evicted.Some? ==> evicted.value == entries[0].key && evicted.value !in Keys(after))
  {
    var after := Touch(entries, capacity, id, now).0;
    KeyAt(entries, id);
    if id !in Keys(entries) && |entries| == capacity {
      forall e | e in after ensures e.key != entries[0].key {
        var i :| 0 <= i < |after| && after[i] == e;
        if i < |entries| - 1 { assert after[i] == entries[i + 1]; }
      }
    }
  }

  /** A touch changes the keys held exactly when the key is new. */
  lemma TouchChangesKeysIff(entries: seq<Entry>, capacity: nat, id: Id, now: int)
    requires capacity >= 1
    ensures var (after, evicted) := Touch(entries, capacity, id, now);
      && (Keys(after) != Keys(entries) <==> id !in Keys(entries))
      && (evicted.Some? ==> id !in Keys(entries))
  {
    var i, after := Position(entries, id), Touch(entries, capacity, id, now).0;
    if i < |entries| {
      assert entries == entries[..i] + [entries[i]] + entries[i + 1..];
      assert forall k :: k in Keys(after) <==> k in Keys(RemoveAt(entries, i)) || k == id;
      assert entries[i] in entries;
    } else {
      assert Entry(id, now) == after[|after| - 1];
      assert id in Keys(after);
    }
  }

  // ----- the set as a function of its history -----

  datatype Op = TouchOp(key: Id, now: int) | RemoveOp(key: Id) | ReadOp(now: int)

  function Step(entries: seq<Entry>, capacity: nat, ttl: nat, op: Op): (r: seq<Entry>)
  {
    match op
    case TouchOp(key, now) => Touch(entries, capacity, key, now).0
    case RemoveOp(key) => RemoveKey(entries, key)
    case ReadOp(now) => Live(entries, ttl, now)
  }

  function Run(capacity: nat, ttl: nat, trace: seq<Op>): (r: seq<Entry>)
  {
    if trace == [] then [] else Step(Run(capacity, ttl, trace[..|trace| - 1]), capacity, ttl, trace[|trace| - 1])
  }

  /** The time of the last touch of `k`, if it was ever touched. */
  ghost function LastTouch(trace: seq<Op>, k: Id): Option<int>
  {
    if trace == [] then None
    else
      var last := trace[|trace| - 1];
      if last.TouchOp? && last.key == k then Some(last.now) else LastTouch(trace[..|trace| - 1], k)
  }

  /** The other keys touched since the last touch of `k`. */
  ghost function Since(trace: seq<Op>, k: Id): set<Id>
  {
    if trace == [] then {}
    else
      var last := trace[|trace| - 1];
      var before := Since(trace[..|trace| - 1], k);
      if !last.TouchOp? then before else if last.key == k then {} else before + {last.key}
  }

  /** `k` was removed, or a read found it too old, since its last touch. */
  ghost predicate Ended(trace: seq<Op>, ttl: nat, k: Id)
  {
    trace != [] &&
    var last, prefix := trace[|trace| - 1], trace[..|trace| - 1];
    match last
    case TouchOp(key, _) => key != k && Ended(prefix, ttl, k)
    case RemoveOp(key) => key == k || Ended(prefix, ttl, k)
    case ReadOp(now) => Ended(prefix, ttl, k) || Expired(prefix, ttl, now, k)
  }

  ghost predicate Expired(trace: seq<Op>, ttl: nat, now: int, k: Id)
  {
    LastTouch(trace, k).Some? && (now - LastTouch(trace, k).value >= ttl || ttl == 0)
  }

  predicate NoRemoves(trace: seq<Op>) { forall op :: op in trace ==> !op.RemoveOp? }

  /** Every timestamp is at most the next one. */
  predicate Monotone(trace: seq<Op>)
  {
    forall i, j :: 0 <= i < j < |trace| && !trace[i].RemoveOp? && !trace[j].RemoveOp? ==> trace[i].now <= trace[j].now
  }

  ghost predicate DistinctKeys(entries: seq<Entry>)
  {
    forall i, j :: 0 <= i < j < |entries| ==> entries[i].key != entries[j].key
  }

  /** What holds after any history: distinct keys, the bound, last-touch times and last-touch order. */
  ghost predicate Consistent(entries: seq<Entry>, capacity: nat, ttl: nat, trace: seq<Op>)
  {
    DistinctKeys(entries) && |entries| <= capacity &&
    (forall i :: 0 <= i < |entries| ==>
      LastTouch(trace, entries[i].key) == Some(entries[i].touched) && !Ended(trace, ttl, entries[i].key)) &&
    (forall i, j :: 0 <= i < j < |entries| ==> entries[j].key in Since(trace, entries[i].key))
  }

  /** A key is lost only by removal, by expiry, or to `capacity` other keys touched since. */
  ghost predicate LostForAReason(entries: seq<Entry>, capacity: nat, ttl: nat, trace: seq<Op>, k: Id)
  {
    LastTouch(trace, k).Some? && k !in Keys(entries) ==> Ended(trace, ttl, k) || |Since(trace, k)| >= capacity
  }

  lemma KeyAt(entries: seq<Entry>, k: Id)
    ensures k in Keys(entries) <==> exists i :: 0 <= i < |entries| && entries[i].key == k
    ensures k in Keys(entries) <==> Position(entries, k) < |entries|
  {
  }

  lemma {:induction false} RunConsistent(capacity: nat, ttl: nat, trace: seq<Op>)
    ensures Consistent(Run(capacity, ttl, trace), capacity, ttl, trace)
  {
    if trace != [] {
      var prefix, op := trace[..|trace| - 1], trace[|trace| - 1];
      RunConsistent(capacity, ttl, prefix);
      StepConsistent(Run(capacity, ttl, prefix), capacity, ttl, prefix, op);
      assert trace == prefix + [op];
    }
  }

  /** How one more operation changes the history of one key. */
  lemma HistorySnoc(trace: seq<Op>, op: Op, ttl: nat, k: Id)
    ensures var next := trace + [op];
      LastTouch(next, k) == (if op.TouchOp? && op.key == k then Some(op.now) else LastTouch(trace, k)) &&
      Since(next, k) ==
        (if !op.TouchOp? then Since(trace, k) else if op.key == k then {} else Since(trace, k) + {op.key}) &&
      (op.TouchOp? ==> (Ended(next, ttl, k) <==> op.key != k && Ended(trace, ttl, k))) &&
      (op.RemoveOp? ==> (Ended(next, ttl, k) <==> op.key == k || Ended(trace, ttl, k))) &&
      (op.ReadOp? ==> (Ended(next, ttl, k) <==> Ended(trace, ttl, k) || Expired(trace, ttl, op.now, k)))
  {
    assert (trace + [op])[..|trace + [op]| - 1] == trace;
  }

  lemma StepConsistent(entries: seq<Entry>, capacity: nat, ttl: nat, trace: seq<Op>, op: Op)
    requires Consistent(entries, capacity, ttl, trace)
    ensures Consistent(Step(entries, capacity, ttl, op), capacity, ttl, trace + [op])
  {
    match op
    case TouchOp(key, now) => TouchConsistent(entries, capacity, ttl, trace, key, now);
    case RemoveOp(key) => RemoveConsistent(entries, capacity, ttl, trace, key);
    case ReadOp(now) => ReadConsistent(entries, capacity, ttl, trace, now);
  }

  /** Dropping one entry keeps the rest consistent, for any operation that leaves the others alone. */
  lemma DropConsistent(entries: seq<Entry>, capacity: nat, ttl: nat, trace: seq<Op>, i: nat)
    requires i < |entries|
    requires DistinctKeys(entries) && |entries| <= capacity + 1
    requires forall j :: 0 <= j < |entries| && j != i ==>
      LastTouch(trace, entries[j].key) == Some(entries[j].touched) && !Ended(trace, ttl, entries[j].key)
    requires forall j, k :: 0 <= j < k < |entries| && j != i && k != i ==>
      entries[k].key in Since(trace, entries[j].key)
    ensures Consistent(RemoveAt(entries, i), capacity, ttl, trace)
    ensures entries[i].key !in Keys(RemoveAt(entries, i))
  {
    var r := RemoveAt(entries, i);
    forall j | 0 <= j < |r| ensures r[j] == entries[if j < i then j else j + 1] { }
  }

  lemma RemoveConsistent(entries: seq<Entry>, capacity: nat, ttl: nat, trace: seq<Op>, key: Id)
    requires Consistent(entries, capacity, ttl, trace)
    ensures Consistent(RemoveKey(entries, key), capacity, ttl, trace + [RemoveOp(key)])
  {
    forall k { HistorySnoc(trace, RemoveOp(key), ttl, k); }
    var i := Position(entries, key);
    if i < |entries| { DropConsistent(entries, capacity, ttl, trace + [RemoveOp(key)], i); }
  }

  lemma ReadConsistent(entries: seq<Entry>, capacity: nat, ttl: nat, trace: seq<Op>, now: int)
    requires Consistent(entries, capacity, ttl, trace)
    ensures Consistent(Live(entries, ttl, now), capacity, ttl, trace + [ReadOp(now)])
  {
    forall k { HistorySnoc(trace, ReadOp(now), ttl, k); }
    LiveKeepsOrder(entries, ttl, now, trace);
    var live := Live(entries, ttl, now);
    forall i | 0 <= i < |live|
      ensures LastTouch(trace, live[i].key) == Some(live[i].touched) && !Ended(trace, ttl, live[i].key)
      ensures Fresh(live[i], ttl, now)
    {
      assert live[i] in entries;
    }
  }

  /** Adding the newest entry behind entries that do not hold its key. */
  lemma AppendConsistent(entries: seq<Entry>, capacity: nat, ttl: nat, trace: seq<Op>, key: Id, now: int)
    requires Consistent(entries, capacity, ttl, trace) && key !in Keys(entries)
    ensures var grown := entries + [Entry(key, now)];
      var next := trace + [TouchOp(key, now)];
      DistinctKeys(grown) &&
      (forall i :: 0 <= i < |grown| ==>
        LastTouch(next, grown[i].key) == Some(grown[i].touched) && !Ended(next, ttl, grown[i].key)) &&
      (forall i, j :: 0 <= i < j < |grown| ==> grown[j].key in Since(next, grown[i].key))
  {
    forall k { HistorySnoc(trace, TouchOp(key, now), ttl, k); }
    forall i | 0 <= i < |entries| ensures entries[i].key != key {
      assert entries[i] in entries;
    }
  }

  lemma TouchConsistent(entries: seq<Entry>, capacity: nat, ttl: nat, trace: seq<Op>, key: Id, now: int)
    requires Consistent(entries, capacity, ttl, trace)
    ensures Consistent(Touch(entries, capacity, key, now).0, capacity, ttl, trace + [TouchOp(key, now)])
  {
    var i := Position(entries, key);
    if i < |entries| {
      DropConsistent(entries, capacity, ttl, trace, i);
      AppendConsistent(RemoveAt(entries, i), capacity, ttl, trace, key, now);
    } else {
      KeyAt(entries, key);
      AppendConsistent(entries, capacity, ttl, trace, key, now);
      var grown := entries + [Entry(key, now)];
      if |grown| > capacity {
        DropConsistent(grown, capacity, ttl, trace + [TouchOp(key, now)], 0);
        assert RemoveAt(grown, 0) == grown[1..];
      }
    }
  }

  /** Filtering keeps distinctness and the last-touch order. */
  lemma {:induction false} LiveKeepsOrder(entries: seq<Entry>, ttl: nat, now: int, trace: seq<Op>)
    requires DistinctKeys(entries)
    requires forall i, j :: 0 <= i < j < |entries| ==> entries[j].key in Since(trace, entries[i].key)
    ensures var live := Live(entries, ttl, now);
      DistinctKeys(live) &&
      forall i, j :: 0 <= i < j < |live| ==> live[j].key in Since(trace, live[i].key)
  {
    if entries != [] {
      var prefix, last := entries[..|entries| - 1], entries[|entries| - 1];
      LiveKeepsOrder(prefix, ttl, now, trace);
      var live := Live(prefix, ttl, now);
      forall i | 0 <= i < |live| ensures live[i].key != last.key && last.key in Since(trace, live[i].key) {
        assert live[i] in prefix;
        var j :| 0 <= j < |prefix| && prefix[j] == live[i];
        assert entries[j] == live[i];
      }
    }
  }

  // ----- why a key is or is not held -----

  lemma {:induction false} RunLosesForAReason(capacity: nat, ttl: nat, trace: seq<Op>, k: Id)
    ensures LostForAReason(Run(capacity, ttl, trace), capacity, ttl, trace, k)
  {
    if trace != [] {
      var prefix, op := trace[..|trace| - 1], trace[|trace| - 1];
      RunLosesForAReason(capacity, ttl, prefix, k);
      RunConsistent(capacity, ttl, prefix);
      assert trace == prefix + [op];
      StepLosesForAReason(Run(capacity, ttl, prefix), capacity, ttl, prefix, op, k);
    }
  }

  lemma StepLosesForAReason(entries: seq<Entry>, capacity: nat, ttl: nat, trace: seq<Op>, op: Op, k: Id)
    requires Consistent(entries, capacity, ttl, trace) && LostForAReason(entries, capacity, ttl, trace, k)
    ensures LostForAReason(Step(entries, capacity, ttl, op), capacity, ttl, trace + [op], k)
  {
    HistorySnoc(trace, op, ttl, k);
    KeyAt(entries, k);
    match op
    case TouchOp(key, now) => TouchLosesForAReason(entries, capacity, ttl, trace, key, now, k);
    case RemoveOp(key) =>
      var i := Position(entries, key);
      if key != k && i < |entries| && k in Keys(entries) {
        var e :| e in entries && e.key == k;
        assert e in RemoveAt(entries, i);
      }
    case ReadOp(now) =>
      if k in Keys(entries) {
        var e :| e in entries && e.key == k;
        assert e in Live(entries, ttl, now) <==> Fresh(e, ttl, now);
      }
  }

  lemma TouchLosesForAReason(entries: seq<Entry>, capacity: nat, ttl: nat, trace: seq<Op>, key: Id, now: int, k: Id)
    requires Consistent(entries, capacity, ttl, trace) && LostForAReason(entries, capacity, ttl, trace, k)
    ensures LostForAReason(Touch(entries, capacity, key, now).0, capacity, ttl, trace + [TouchOp(key, now)], k)
  {
    var next := trace + [TouchOp(key, now)];
    var after := Touch(entries, capacity, key, now).0;
    HistorySnoc(trace, TouchOp(key, now), ttl, k);
    KeyAt(entries, key);
    var i := Position(entries, key);
    if k !in Keys(entries) {
      if k == key {
        NewestHeldUnlessFull(entries, capacity, key, now);
      } else {
        SubsetCount(Since(trace, k), Since(next, k));
      }
    } else if i < |entries| {
      var e :| e in entries && e.key == k;
      if k != key {
        assert e in after;
      } else {
        assert after[|after| - 1].key == k;
        assert after[|after| - 1] in after;
      }
    } else if k !in Keys(after) {
      EvictedBehindAll(entries, capacity, ttl, trace, key, now, k);
    }
  }

  lemma NewestHeldUnlessFull(entries: seq<Entry>, capacity: nat, key: Id, now: int)
    requires |entries| <= capacity
    ensures capacity > 0 ==> key in Keys(Touch(entries, capacity, key, now).0)
  {
    var after := Touch(entries, capacity, key, now).0;
    if capacity > 0 {
      assert after[|after| - 1] == Entry(key, now);
      assert after[|after| - 1] in after;
    }
  }

  lemma TailHolds(entries: seq<Entry>, i: nat)
    requires i < |entries|
    ensures i > 0 ==> entries[i] in entries[1..]
  {
    if i > 0 { assert entries[1..][i - 1] == entries[i]; }
  }

  /** The evicted key was touched before every other entry, and the newcomer fills the bound. */
  lemma EvictedBehindAll(entries: seq<Entry>, capacity: nat, ttl: nat, trace: seq<Op>, key: Id, now: int, k: Id)
    requires Consistent(entries, capacity, ttl, trace) && key !in Keys(entries)
    requires k in Keys(entries) && k !in Keys(Touch(entries, capacity, key, now).0)
    ensures |Since(trace + [TouchOp(key, now)], k)| >= capacity
  {
    var grown := entries + [Entry(key, now)];
    KeyAt(entries, key);
    HistorySnoc(trace, TouchOp(key, now), ttl, k);
    var i :| 0 <= i < |entries| && entries[i].key == k;
    assert grown[i] == entries[i] && grown[i] in grown;
    TailHolds(grown, i);
    assert |grown| > capacity && i == 0;
    var others := grown[1..];
    forall j | 0 <= j < |others| ensures others[j].key in Since(trace + [TouchOp(key, now)], k) {
      if j + 1 < |entries| { assert others[j] == entries[j + 1]; } else { assert others[j] == Entry(key, now); }
    }
    AppendConsistent(entries, capacity, ttl, trace, key, now);
    CountKeys(others);
    SubsetCount(Keys(others), Since(trace + [TouchOp(key, now)], k));
  }

  lemma {:induction false} CountKeys(entries: seq<Entry>)
    requires DistinctKeys(entries)
    ensures |Keys(entries)| == |entries|
  {
    if entries != [] {
      var prefix, last := entries[..|entries| - 1], entries[|entries| - 1];
      CountKeys(prefix);
      assert entries == prefix + [last];
      assert last.key !in Keys(prefix);
      assert Keys(entries) == Keys(prefix) + {last.key};
    }
  }

  /** Without removals every key touched after a held one is itself still held. */
  lemma {:induction false} SinceIsHeld(capacity: nat, ttl: nat, trace: seq<Op>, k: Id)
    requires NoRemoves(trace) && Monotone(trace)
    requires k in Keys(Run(capacity, ttl, trace))
    ensures Since(trace, k) <= Keys(Run(capacity, ttl, trace)) - {k}
  {
    if trace != [] {
      var prefix, op := trace[..|trace| - 1], trace[|trace| - 1];
      var before, after := Run(capacity, ttl, prefix), Run(capacity, ttl, trace);
      assert trace == prefix + [op];
      HistorySnoc(prefix, op, ttl, k);
      RunConsistent(capacity, ttl, prefix);
      RunConsistent(capacity, ttl, trace);
      assert op in trace && !op.RemoveOp?;
      if op.TouchOp? && op.key == k {
      } else if op.TouchOp? {
        TouchedKeysStay(before, capacity, ttl, prefix, op.key, op.now, k);
        SinceIsHeld(capacity, ttl, prefix, k);
      } else {
        LiveIsSubset(before, ttl, op.now, k);
        SinceIsHeld(capacity, ttl, prefix, k);
        LaterStayFresh(capacity, ttl, prefix, op.now, k);
      }
    }
  }

  lemma LiveIsSubset(entries: seq<Entry>, ttl: nat, now: int, k: Id)
    requires k in Keys(Live(entries, ttl, now))
    ensures k in Keys(entries)
  {
    var e :| e in Live(entries, ttl, now) && e.key == k;
  }

  /** A touch that leaves `k` in place leaves everything touched after `k` in place, and adds its own key. */
  lemma TouchedKeysStay(entries: seq<Entry>, capacity: nat, ttl: nat, trace: seq<Op>, key: Id, now: int, k: Id)
    requires Consistent(entries, capacity, ttl, trace) && key != k
    requires k in Keys(Touch(entries, capacity, key, now).0)
    ensures k in Keys(entries) && key in Keys(Touch(entries, capacity, key, now).0)
    ensures forall x :: x in Since(trace, k) && x in Keys(entries) ==> x in Keys(Touch(entries, capacity, key, now).0)
  {
    var after := Touch(entries, capacity, key, now).0;
    var e :| e in after && e.key == k;
    assert e in entries;
    assert after[|after| - 1] == Entry(key, now) && after[|after| - 1] in after;
    var i := Position(entries, key);
    forall x | x in Since(trace, k) && x in Keys(entries) ensures x in Keys(after) {
      var y :| y in entries && y.key == x;
      if y !in after && x != key {
        var grown := entries + [Entry(key, now)];
        var m :| 0 <= m < |entries| && entries[m] == y;
        TailHolds(grown, m);
        assert i == |entries| && after == grown[1..] && m == 0;
        var j :| 0 <= j < |entries| && entries[j] == e;
        assert j > 0;
        assert k in Since(trace, x);
        SinceAsymmetric(trace, k, x);
      }
    }
  }

  /** Two keys cannot each have been touched after the other's last touch. */
  lemma {:induction false} SinceAsymmetric(trace: seq<Op>, a: Id, b: Id)
    requires a != b && LastTouch(trace, a).Some? && LastTouch(trace, b).Some?
    ensures !(a in Since(trace, b) && b in Since(trace, a))
  {
    if trace != [] {
      var prefix, op := trace[..|trace| - 1], trace[|trace| - 1];
      assert trace == prefix + [op];
      if LastTouch(prefix, a).Some? && LastTouch(prefix, b).Some? {
        SinceAsymmetric(prefix, a, b);
      } else if LastTouch(prefix, a).None? {
        NeverTouched(prefix, a, b);
      } else {
        NeverTouched(prefix, b, a);
      }
    }
  }

  lemma {:induction false} NeverTouched(trace: seq<Op>, a: Id, b: Id)
    requires LastTouch(trace, a).None?
    ensures a !in Since(trace, b)
  {
    if trace != [] { NeverTouched(trace[..|trace| - 1], a, b); }
  }

  lemma {:induction false} LastTouchAt(trace: seq<Op>, k: Id) returns (i: nat)
    requires LastTouch(trace, k).Some?
    ensures i < |trace| && trace[i] == TouchOp(k, LastTouch(trace, k).value)
  {
    var last := trace[|trace| - 1];
    if last.TouchOp? && last.key == k {
      i := |trace| - 1;
    } else {
      i := LastTouchAt(trace[..|trace| - 1], k);
    }
  }

  lemma {:induction false} LaterTouch(trace: seq<Op>, k: Id, x: Id)
    requires Monotone(trace) && LastTouch(trace, k).Some? && x in Since(trace, k)
    ensures LastTouch(trace, x).Some? && LastTouch(trace, k).value <= LastTouch(trace, x).value
  {
    var prefix, op := trace[..|trace| - 1], trace[|trace| - 1];
    assert trace == prefix + [op];
    if op.TouchOp? && op.key == x {
      var i := LastTouchAt(trace, k);
    } else {
      LaterTouch(prefix, k, x);
    }
  }

  lemma LaterStayFresh(capacity: nat, ttl: nat, trace: seq<Op>, now: int, k: Id)
    requires Monotone(trace)
    requires k in Keys(Live(Run(capacity, ttl, trace), ttl, now))
    ensures forall x :: x in Since(trace, k) && x in Keys(Run(capacity, ttl, trace)) ==>
      x in Keys(Live(Run(capacity, ttl, trace), ttl, now))
  {
    var entries := Run(capacity, ttl, trace);
    RunConsistent(capacity, ttl, trace);
    var e :| e in Live(entries, ttl, now) && e.key == k;
    forall x | x in Since(trace, k) && x in Keys(entries) ensures x in Keys(Live(entries, ttl, now)) {
      var y :| y in entries && y.key == x;
      LaterTouch(trace, k, x);
      assert y in Live(entries, ttl, now);
    }
  }

  /**
  A key touched, not ended and followed by fewer than `capacity` other keys is always
  held, whatever was removed; without removals and with a monotone clock only such
  keys are held. Reads appear only through `Ended`, so they never extend a lifetime.
  */
  lemma HeldIffRecent(capacity: nat, ttl: nat, trace: seq<Op>, k: Id)
    ensures LastTouch(trace, k).Some? && !Ended(trace, ttl, k) && |Since(trace, k)| < capacity ==>
      k in Keys(Run(capacity, ttl, trace))
    ensures NoRemoves(trace) && Monotone(trace) && k in Keys(Run(capacity, ttl, trace)) ==>
      LastTouch(trace, k).Some? && !Ended(trace, ttl, k) && |Since(trace, k)| < capacity
  {
    var entries := Run(capacity, ttl, trace);
    RunLosesForAReason(capacity, ttl, trace, k);
    if NoRemoves(trace) && Monotone(trace) && k in Keys(entries) {
      RunConsistent(capacity, ttl, trace);
      SinceIsHeld(capacity, ttl, trace, k);
      CountKeys(entries);
      SubsetCount(Since(trace, k), Keys(entries) - {k});
    }
  }
}
