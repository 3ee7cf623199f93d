/**
The subscription half of a Bonfire connection: the topics the connection wants,
the change queued for the Redis subscriber, and the flush that brings the two
together (crates/bonfire/src/events/state.rs, crates/bonfire/src/websocket.rs).
*/
module Subscriptions {

  /** Users, servers and channels are named by ULIDs, which are only ever compared. */
  type Id = int

  /** One constructor per topic namespace; `{server}u` is `MemberTopic(server)`. */
  datatype Topic =
    | UserTopic(user: Id)
    | ServerTopic(server: Id)
    | ChannelTopic(channel: Id)
    | MemberTopic(of: Id)
    | PrivateTopic
    | SessionTopic
    | GlobalTopic

  /** `SubscriptionStateChange`. */
  datatype Change =
    | Unchanged
    | Reset
    | Pending(add: seq<Topic>, remove: seq<Topic>)

  datatype Subs = Subs(subscribed: set<Topic>, queue: Change)

  /** Drops the first occurrence of `t`, as `Vec::remove` at `position` does. */
  function RemoveFirst(q: seq<Topic>, t: Topic): (r: seq<Topic>)
    ensures multiset(r) == multiset(q) - multiset{t}
  {
    if q == [] then []
    else if q[0] == t then
      assert q == [q[0]] + q[1..];
      q[1..]
    else
      assert q == [q[0]] + q[1..];
      [q[0]] + RemoveFirst(q[1..], t)
  }

  /** `insert_subscription`: never cancels a pending removal of the same topic. */
  function Insert(s: Subs, t: Topic): (r: Subs)
    ensures r.queue.Reset? <==> s.queue.Reset?
    ensures r.subscribed == s.subscribed + {t}
  {
    if t in s.subscribed then s
    else
      Subs(s.subscribed + {t},
           match s.queue
           case Unchanged => Pending([t], [])
           case Pending(add, remove) => Pending(add + [t], remove)
           case Reset => Reset)
  }

  /** `remove_subscription`; the source panics on a subscribed topic while `Reset` is queued. */
  function Remove(s: Subs, t: Topic): (r: Subs)
    ensures r.queue.Reset? <==> s.queue.Reset?
    ensures r.subscribed == s.subscribed - {t}
  {
    if t !in s.subscribed then s
    else
      Subs(s.subscribed - {t},
           match s.queue
           case Unchanged => Pending([], [t])
           case Pending(add, remove) => Pending(add, remove + [t])
           case Reset => Reset)
  }

  /** `subscribe_topic`: cancels a pending removal instead of queueing an addition. */
  function SubscribeTopic(s: Subs, t: Topic): (r: Subs)
    ensures r.queue.Reset? <==> s.queue.Reset?
    ensures r.subscribed == s.subscribed + {t}
  {
    Subs(s.subscribed + {t},
         match s.queue
         case Reset => Reset
         case Pending(add, remove) =>
           if t in remove then Pending(add, RemoveFirst(remove, t))
           else if t !in s.subscribed then Pending(add + [t], remove)
           else s.queue
         case Unchanged => if t !in s.subscribed then Pending([t], []) else Unchanged)
  }

  /** `unsubscribe_topic`: cancels a pending addition instead of queueing a removal. */
  function UnsubscribeTopic(s: Subs, t: Topic): (r: Subs)
    ensures r.queue.Reset? <==> s.queue.Reset?
    ensures r.subscribed == s.subscribed - {t}
  {
    Subs(s.subscribed - {t},
         match s.queue
         case Reset => Reset
         case Pending(add, remove) =>
           if t in add then Pending(RemoveFirst(add, t), remove)
           else if t in s.subscribed then Pending(add, remove + [t])
           else s.queue
         case Unchanged => if t in s.subscribed then Pending([], [t]) else Unchanged)
  }

  function Elements(q: seq<Topic>): (r: set<Topic>) { set t | t in q }

  /** `apply_state` after the reconcile: take the queue and replay it, additions first. */
  function Apply(s: Subs): (r: Subs)
  {
    match s.queue
    case Pending(add, remove) => Subs(s.subscribed + Elements(add) - Elements(remove), Unchanged)
    case _ => Subs(s.subscribed, Unchanged)
  }

  /** What Redis holds once the listener has carried the taken queue out, removals first. */
  function Upstream(s: Subs, upstream: set<Topic>): (r: set<Topic>)
  {
    match s.queue
    case Unchanged => upstream
    case Reset => Apply(s).subscribed
    case Pending(add, remove) => upstream - Elements(remove) + Elements(add)
  }

  // ----- one segment between two flushes -----

  /** A call made on the connection state between two flushes. */
  datatype Call =
    | InsertCall(t: Topic)
    | RemoveCall(t: Topic)
    | SubscribeCall(t: Topic)
    | UnsubscribeCall(t: Topic)

  function Do(s: Subs, c: Call): (r: Subs)
  {
    match c
    case InsertCall(t) => Insert(s, t)
    case RemoveCall(t) => Remove(s, t)
    case SubscribeCall(t) => SubscribeTopic(s, t)
    case UnsubscribeCall(t) => UnsubscribeTopic(s, t)
  }

  function DoAll(s: Subs, calls: seq<Call>): (r: Subs)
  {
    if calls == [] then s else Do(DoAll(s, calls[..|calls| - 1]), calls[|calls| - 1])
  }

  /** Member topics go through the cancelling pair only, every other topic through the other pair. */
  predicate WellKinded(c: Call)
  {
    match c
    case InsertCall(t) => !t.MemberTopic?
    case RemoveCall(t) => !t.MemberTopic?
    case SubscribeCall(t) => t.MemberTopic?
    case UnsubscribeCall(t) => t.MemberTopic?
  }

  /** The topics that `insert_subscription` really added during the segment. */
  ghost function Inserted(s: Subs, calls: seq<Call>): set<Topic>
  {
    if calls == [] then {}
    else
      var last := calls[|calls| - 1];
      var before := DoAll(s, calls[..|calls| - 1]);
      Inserted(s, calls[..|calls| - 1]) +
      if last.InsertCall? && last.t !in before.subscribed then {last.t} else {}
  }

  /** The topics that `remove_subscription` really dropped during the segment. */
  ghost function Removed(s: Subs, calls: seq<Call>): set<Topic>
  {
    if calls == [] then {}
    else
      var last := calls[|calls| - 1];
      var before := DoAll(s, calls[..|calls| - 1]);
      Removed(s, calls[..|calls| - 1]) +
      if last.RemoveCall? && last.t in before.subscribed then {last.t} else {}
  }

  ghost function Bit(b: bool): int { if b then 1 else 0 }

  ghost function Count(q: seq<Topic>, t: Topic): int { multiset(q)[t] }

  ghost function Added(s: Subs, t: Topic): int
  {
    if s.queue.Pending? then Count(s.queue.add, t) else 0
  }

  ghost function Dropped(s: Subs, t: Topic): int
  {
    if s.queue.Pending? then Count(s.queue.remove, t) else 0
  }

  /** Redis differs from `subscribed` on `t` by exactly what is queued for it. */
  ghost predicate Balanced(s: Subs, upstream: set<Topic>, t: Topic)
  {
    Bit(t in s.subscribed) - Bit(t in upstream) == Added(s, t) - Dropped(s, t) &&
    (t.MemberTopic? ==> Added(s, t) + Dropped(s, t) <= 1)
  }

  /** Redis differs from `subscribed` by exactly what is queued; nothing is known while `Reset` is. */
  ghost predicate Coherent(s: Subs, upstream: set<Topic>)
  {
    !s.queue.Reset? ==> forall t :: Balanced(s, upstream, t)
  }

  /** Some topic waits in both lists, so the two replay orders give different answers. */
  ghost predicate Clash(s: Subs)
  {
    exists t :: Added(s, t) > 0 && Dropped(s, t) > 0
  }

  lemma CountOfElements(q: seq<Topic>, t: Topic)
    ensures Count(q, t) >= 0
    ensures Count(q, t) > 0 <==> t in q
    ensures t in Elements(q) <==> t in q
  {
  }

  lemma CountAppend(q: seq<Topic>, x: Topic, t: Topic)
    ensures Count(q + [x], t) == Count(q, t) + Bit(x == t)
    ensures Count([x], t) == Bit(x == t)
    ensures Count([], t) == 0
  {
    assert multiset(q + [x]) == multiset(q) + multiset{x};
    assert multiset([x]) == multiset{x};
  }

  lemma CountRemoveFirst(q: seq<Topic>, x: Topic, t: Topic)
    requires x in q
    ensures Count(RemoveFirst(q, x), t) == Count(q, t) - Bit(x == t)
  {
    assert multiset(q)[x] > 0;
  }

  lemma InsertCounts(s: Subs, x: Topic, t: Topic)
    requires !s.queue.Reset?
    ensures Added(Insert(s, x), t) == Added(s, t) + Bit(x == t && t !in s.subscribed)
    ensures Dropped(Insert(s, x), t) == Dropped(s, t)
  {
    CountAppend(if s.queue.Pending? then s.queue.add else [], x, t);
  }

  lemma RemoveCounts(s: Subs, x: Topic, t: Topic)
    requires !s.queue.Reset?
    ensures Dropped(Remove(s, x), t) == Dropped(s, t) + Bit(x == t && t in s.subscribed)
    ensures Added(Remove(s, x), t) == Added(s, t)
  {
    CountAppend(if s.queue.Pending? then s.queue.remove else [], x, t);
  }

  lemma SubscribeCounts(s: Subs, x: Topic, t: Topic)
    requires !s.queue.Reset?
    ensures Dropped(SubscribeTopic(s, x), t) == Dropped(s, t) - Bit(x == t && Dropped(s, t) > 0)
    ensures Added(SubscribeTopic(s, x), t) == Added(s, t) + Bit(x == t && Dropped(s, t) <= 0 && t !in s.subscribed)
  {
    if s.queue.Pending? {
      CountAppend(s.queue.add, x, t);
      CountOfElements(s.queue.remove, x);
      if x in s.queue.remove { CountRemoveFirst(s.queue.remove, x, t); }
    } else {
      CountAppend([], x, t);
    }
  }

  lemma UnsubscribeCounts(s: Subs, x: Topic, t: Topic)
    requires !s.queue.Reset?
    ensures Added(UnsubscribeTopic(s, x), t) == Added(s, t) - Bit(x == t && Added(s, t) > 0)
    ensures Dropped(UnsubscribeTopic(s, x), t) == Dropped(s, t) + Bit(x == t && Added(s, t) <= 0 && t in s.subscribed)
  {
    if s.queue.Pending? {
      CountAppend(s.queue.remove, x, t);
      CountOfElements(s.queue.add, x);
      if x in s.queue.add { CountRemoveFirst(s.queue.add, x, t); }
    } else {
      CountAppend([], x, t);
    }
  }

  lemma CountsNonNegative(s: Subs, t: Topic)
    ensures Added(s, t) >= 0 && Dropped(s, t) >= 0
  {
  }

  lemma CallKeepsCoherent(s: Subs, upstream: set<Topic>, c: Call)
    requires Coherent(s, upstream) && WellKinded(c)
    ensures Coherent(Do(s, c), upstream)
  {
    if !s.queue.Reset? {
      forall t ensures Balanced(Do(s, c), upstream, t) {
        assert Balanced(s, upstream, t);
        CountsNonNegative(s, t);
        match c
        case InsertCall(x) => InsertCounts(s, x, t);
        case RemoveCall(x) => RemoveCounts(s, x, t);
        case SubscribeCall(x) => SubscribeCounts(s, x, t);
        case UnsubscribeCall(x) => UnsubscribeCounts(s, x, t);
      }
    }
  }

  lemma {:induction false} CallsKeepCoherent(s: Subs, upstream: set<Topic>, calls: seq<Call>)
    requires Coherent(s, upstream)
    requires forall c :: c in calls ==> WellKinded(c)
    ensures Coherent(DoAll(s, calls), upstream)
  {
    if calls != [] {
      var before := calls[..|calls| - 1];
      CallsKeepCoherent(s, upstream, before);
      CallKeepsCoherent(DoAll(s, before), upstream, calls[|calls| - 1]);
    }
  }

  /** The flush is exact when, and only when, no topic is queued both ways. */
  lemma FlushExactIffNoClash(s: Subs, upstream: set<Topic>)
    requires Coherent(s, upstream) && !s.queue.Reset?
    ensures Upstream(s, upstream) == Apply(s).subscribed <==> !Clash(s)
    ensures !Clash(s) ==> Apply(s).subscribed == s.subscribed
  {
    forall t: Topic
      ensures t in Upstream(s, upstream) <==> Added(s, t) > 0 || (t in upstream && Dropped(s, t) == 0)
      ensures t in Apply(s).subscribed <==> Dropped(s, t) == 0 && (t in s.subscribed || Added(s, t) > 0)
      ensures Balanced(s, upstream, t) && Added(s, t) >= 0 && Dropped(s, t) >= 0
    {
      if s.queue.Pending? {
        CountOfElements(s.queue.add, t);
        CountOfElements(s.queue.remove, t);
      }
    }
    if Clash(s) {
      var t :| Added(s, t) > 0 && Dropped(s, t) > 0;
      assert t in Upstream(s, upstream) && t !in Apply(s).subscribed;
    }
  }

  /** Outside the member namespace the queue records every effective call of the segment. */
  lemma {:induction false} QueueRecordsCalls(s: Subs, calls: seq<Call>, t: Topic)
    requires s.queue.Unchanged? && !t.MemberTopic?
    requires forall c :: c in calls ==> WellKinded(c)
    ensures var r := DoAll(s, calls);
      (t in Inserted(s, calls) <==> Added(r, t) > 0) && (t in Removed(s, calls) <==> Dropped(r, t) > 0) &&
      Added(r, t) >= 0 && Dropped(r, t) >= 0
  {
    if calls != [] {
      var last := calls[|calls| - 1];
      var prefix := calls[..|calls| - 1];
      var before := DoAll(s, prefix);
      QueueRecordsCalls(s, prefix, t);
      NeverReset(s, prefix);
      assert WellKinded(last);
      match last
      case InsertCall(x) => InsertCounts(before, x, t);
      case RemoveCall(x) => RemoveCounts(before, x, t);
      case SubscribeCall(x) => SubscribeCounts(before, x, t);
      case UnsubscribeCall(x) => UnsubscribeCounts(before, x, t);
    }
  }

  lemma {:induction false} NeverReset(s: Subs, calls: seq<Call>)
    requires !s.queue.Reset?
    ensures !DoAll(s, calls).queue.Reset?
  {
    if calls != [] { NeverReset(s, calls[..|calls| - 1]); }
  }

  lemma {:induction false} EffectiveCallsWellKinded(s: Subs, calls: seq<Call>)
    requires forall c :: c in calls ==> WellKinded(c)
    ensures forall t :: t in Inserted(s, calls) ==> !t.MemberTopic?
    ensures forall t :: t in Removed(s, calls) ==> !t.MemberTopic?
  {
    if calls != [] {
      EffectiveCallsWellKinded(s, calls[..|calls| - 1]);
      assert WellKinded(calls[|calls| - 1]);
    }
  }

  /**
  Flush coherence for any segment of calls made after a flush: Redis ends up with
  exactly the wanted topics if and only if no topic was both really inserted and
  really removed during the segment; then replaying the queue onto `subscribed`
  is a no-op as well.
  */
  lemma SegmentFlushExactIff(s: Subs, upstream: set<Topic>, calls: seq<Call>)
    requires s.queue.Unchanged? && upstream == s.subscribed
    requires forall c :: c in calls ==> WellKinded(c)
    ensures var r := DoAll(s, calls);
      (Upstream(r, upstream) == Apply(r).subscribed <==> Inserted(s, calls) * Removed(s, calls) == {}) &&
      (Inserted(s, calls) * Removed(s, calls) == {} ==> Apply(r).subscribed == r.subscribed)
  {
    var r := DoAll(s, calls);
    forall u ensures Balanced(s, upstream, u) { }
    CallsKeepCoherent(s, upstream, calls);
    NeverReset(s, calls);
    FlushExactIffNoClash(r, upstream);
    EffectiveCallsWellKinded(s, calls);
    forall t ensures t in Inserted(s, calls) * Removed(s, calls) <==> Added(r, t) > 0 && Dropped(r, t) > 0 {
      if t.MemberTopic? {
        assert Balanced(r, upstream, t);
      } else {
        QueueRecordsCalls(s, calls, t);
      }
    }
  }

  /** The condition is needed: dropping and re-adding one topic leaves Redis ahead of `subscribed`. */
  lemma ReinsertedTopicDiverges(t: Topic)
    requires !t.MemberTopic?
    ensures var s := Subs({t}, Unchanged);
      var r := DoAll(s, [RemoveCall(t), InsertCall(t)]);
      r.subscribed == {t} && t in Upstream(r, {t}) && t !in Apply(r).subscribed
  {
    var s := Subs({t}, Unchanged);
    assert [RemoveCall(t), InsertCall(t)][..1] == [RemoveCall(t)];
    assert [RemoveCall(t)][..0] == [];
    assert DoAll(s, [RemoveCall(t)]) == Remove(s, t);
    assert DoAll(s, [RemoveCall(t), InsertCall(t)]) == Insert(Remove(s, t), t);
  }

  // ----- the sharper condition an event handler is checked against -----

  /** Relative to the topics held at the last flush: only new ones were added, only held ones removed. */
  ghost predicate Clean(held: set<Topic>, s: Subs)
  {
    match s.queue
    case Unchanged => true
    case Reset => false
    case Pending(add, remove) => (forall t <- add :: t !in held) && (forall t <- remove :: t in held)
  }

  lemma InsertStaysClean(held: set<Topic>, s: Subs, t: Topic)
    requires Clean(held, s) && (t !in held || t in s.subscribed)
    ensures Clean(held, Insert(s, t))
  {
  }

  lemma RemoveStaysClean(held: set<Topic>, s: Subs, t: Topic)
    requires Clean(held, s) && (t in held || t !in s.subscribed)
    ensures Clean(held, Remove(s, t))
  {
  }

  lemma CleanNeverClashes(held: set<Topic>, s: Subs)
    requires Clean(held, s)
    ensures !Clash(s)
  {
    forall t ensures !(Added(s, t) > 0 && Dropped(s, t) > 0) {
      if s.queue.Pending? {
        CountOfElements(s.queue.add, t);
        CountOfElements(s.queue.remove, t);
      }
    }
  }
}
