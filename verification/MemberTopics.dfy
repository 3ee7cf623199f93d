/**
`reconcile_member_topics` and the flush around it (crates/bonfire/src/events/state.rs:215-363):
which `{server}u` topics a connection holds, whatever the worker touched meanwhile.
*/
module MemberTopics {
  import opened Sequences
  import opened Subscriptions
  import opened Connection
  import ActiveHistory

  const ACTIVE_SERVERS_CAPACITY: nat := 5
  const ACTIVE_SERVERS_TTL: nat := 900

  function UnsubscribeEach(s: Subs, ids: seq<Id>): (r: Subs)
    ensures r.queue.Reset? <==> s.queue.Reset?
  {
    if ids == [] then s
    else UnsubscribeTopic(UnsubscribeEach(s, ids[..|ids| - 1]), MemberTopic(ids[|ids| - 1]))
  }

  function SubscribeEach(s: Subs, ids: seq<Id>): (r: Subs)
    ensures r.queue.Reset? <==> s.queue.Reset?
  {
    if ids == [] then s
    else SubscribeTopic(SubscribeEach(s, ids[..|ids| - 1]), MemberTopic(ids[|ids| - 1]))
  }

  function MemberTopicsOf(ids: seq<Id>): (r: set<Topic>) { set id | id in ids :: MemberTopic(id) }

  /** The entries left after `live_keys`; a bot's set is never read. */
  function LiveEntries(conn: Conn, now: int): (r: seq<ActiveHistory.Entry>)
  {
    if conn.cache.isBot then conn.active else ActiveHistory.Live(conn.active, ACTIVE_SERVERS_TTL, now)
  }

  /** A bot follows every cached server, a user the live requested ones among them. */
  predicate Wanted(conn: Conn, now: int, id: Id)
  {
    id in conn.cache.servers && (conn.cache.isBot || id in ActiveHistory.Keys(LiveEntries(conn, now)))
  }

  function Unwanted(conn: Conn, now: int, order: seq<Id>): (r: seq<Id>)
  {
    Filter(order, id => MemberTopic(id) in conn.memberTopics && !Wanted(conn, now, id))
  }

  /** The topics to add once `tracked` holds only wanted ones; equal counts skip a bot's pass. */
  function Missing(conn: Conn, now: int, order: seq<Id>, tracked: set<Topic>): (r: seq<Id>)
  {
    if conn.cache.isBot && |tracked| == |conn.cache.servers| then []
    else Filter(order, id => Wanted(conn, now, id) && MemberTopic(id) !in tracked)
  }

  function PendingRemovals(conn: Conn, order: seq<Id>): (r: seq<Id>)
  {
    Filter(order, id => MemberTopic(id) in conn.removals)
  }

  /** `reconcile_member_topics`; `order` is the iteration order of the hash sets involved. */
  function Reconcile(conn: Conn, now: int, order: seq<Id>): (r: Conn)
    ensures r.cache == conn.cache
    ensures r.subs.queue.Reset? <==> conn.subs.queue.Reset?
  {
    var s1 := UnsubscribeEach(conn.subs, PendingRemovals(conn, order));
    var unwanted := Unwanted(conn, now, order);
    var s2 := UnsubscribeEach(s1, unwanted);
    var tracked := conn.memberTopics - MemberTopicsOf(unwanted);
    var missing := Missing(conn, now, order, tracked);
    conn.(subs := SubscribeEach(s2, missing),
          memberTopics := tracked + MemberTopicsOf(missing),
          removals := {},
          active := LiveEntries(conn, now))
  }

  /** `apply_state`. */
  function ApplyState(conn: Conn, now: int, order: seq<Id>): (r: Conn)
  {
    var reconciled := Reconcile(conn, now, order);
    reconciled.(subs := Apply(reconciled.subs))
  }

  /** What the listener's Redis subscriber holds after `apply_state` and its flush. */
  function FlushedUpstream(conn: Conn, now: int, order: seq<Id>, upstream: set<Topic>): (r: set<Topic>)
  {
    Upstream(Reconcile(conn, now, order).subs, upstream)
  }

  /** A bot follows every server it is in; a user those asked for less than 900 seconds ago. */
  ghost predicate Follows(conn: Conn, now: int, id: Id)
  {
    id in conn.cache.servers &&
    (conn.cache.isBot || exists e :: e in conn.active && e.key == id && now - e.touched < 900)
  }

  lemma WantedIff(conn: Conn, now: int, id: Id)
    ensures Wanted(conn, now, id) <==> Follows(conn, now, id)
  {
    var live := LiveEntries(conn, now);
    if !conn.cache.isBot {
      if id in ActiveHistory.Keys(live) {
        var e :| e in live && e.key == id;
        assert e in conn.active && now - e.touched < 900;
      }
      if e :| e in conn.active && e.key == id && now - e.touched < 900 { assert e in live; }
    }
  }

  // ----- what the bookkeeping guarantees -----

  /** Every subscribed member topic is tracked or about to be dropped, and every tracked one is subscribed. */
  ghost predicate Tracked(conn: Conn)
  {
    (forall t :: t in conn.memberTopics ==> t.MemberTopic? && t in conn.subs.subscribed && t !in conn.removals) &&
    (forall t :: t in conn.removals ==> t.MemberTopic?) &&
    (forall t :: t in conn.subs.subscribed && t.MemberTopic? ==> t in conn.memberTopics || t in conn.removals)
  }

  /** `order` lists every server a member topic is held, dropped or wanted for. */
  ghost predicate OrderCovers(conn: Conn, order: seq<Id>)
  {
    (forall id :: id in conn.cache.servers ==> id in order) &&
    (forall id :: MemberTopic(id) in conn.memberTopics ==> id in order) &&
    (forall id :: MemberTopic(id) in conn.removals ==> id in order)
  }

  /** Exactly the wanted member topics are tracked, and exactly those are subscribed. */
  ghost predicate Exact(conn: Conn, wanted: Conn, now: int)
  {
    conn.removals == {} &&
    (forall id :: MemberTopic(id) in conn.memberTopics <==> Wanted(wanted, now, id)) &&
    (forall t :: t in conn.memberTopics ==> t.MemberTopic?) &&
    (forall id :: MemberTopic(id) in conn.subs.subscribed <==> MemberTopic(id) in conn.memberTopics)
  }

  lemma {:induction false} UnsubscribeEachSummary(s: Subs, ids: seq<Id>)
    ensures UnsubscribeEach(s, ids).subscribed == s.subscribed - MemberTopicsOf(ids)
  {
    if ids != [] {
      UnsubscribeEachSummary(s, ids[..|ids| - 1]);
      assert ids == ids[..|ids| - 1] + [ids[|ids| - 1]];
      assert MemberTopicsOf(ids) == MemberTopicsOf(ids[..|ids| - 1]) + {MemberTopic(ids[|ids| - 1])};
    }
  }

  lemma {:induction false} SubscribeEachSummary(s: Subs, ids: seq<Id>)
    ensures SubscribeEach(s, ids).subscribed == s.subscribed + MemberTopicsOf(ids)
  {
    if ids != [] {
      SubscribeEachSummary(s, ids[..|ids| - 1]);
      assert ids == ids[..|ids| - 1] + [ids[|ids| - 1]];
      assert MemberTopicsOf(ids) == MemberTopicsOf(ids[..|ids| - 1]) + {MemberTopic(ids[|ids| - 1])};
    }
  }

  lemma InMemberTopicsOf(ids: seq<Id>, id: Id)
    ensures MemberTopic(id) in MemberTopicsOf(ids) <==> id in ids
  {
  }

  /** As many tracked servers as cached ones, all of them cached: none is missing. */
  lemma EqualCountsMeanNoneMissing(tracked: set<Topic>, servers: map<Id, Server>)
    requires forall t :: t in tracked ==> t.MemberTopic? && t.of in servers
    requires |tracked| == |servers|
    ensures forall id :: id in servers ==> MemberTopic(id) in tracked
  {
    var all := TopicsFor(servers.Keys);
    CountTopics(servers.Keys);
    assert tracked <= all;
    if id :| id in servers && MemberTopic(id) !in tracked {
      assert tracked < all;
      ProperSubsetIsSmaller(tracked, all);
      assert false;
    }
  }

  function TopicsFor(ids: set<Id>): (r: set<Topic>) { set id | id in ids :: MemberTopic(id) }

  lemma {:induction false} CountTopics(ids: set<Id>)
    ensures |TopicsFor(ids)| == |ids|
  {
    if forall x :: x !in ids {
      assert ids == {} && TopicsFor(ids) == {};
    } else {
      var x :| x in ids;
      CountTopics(ids - {x});
      assert TopicsFor(ids) == TopicsFor(ids - {x}) + {MemberTopic(x)};
    }
  }

  lemma ProperSubsetIsSmaller(a: set<Topic>, b: set<Topic>)
    requires a < b
    ensures |a| < |b|
  {
    assert b == a + (b - a);
  }

  /** After the reconcile the connection holds exactly the wanted member topics; no other topic moved. */
  lemma ReconcileIsExact(conn: Conn, now: int, order: seq<Id>)
    requires Tracked(conn) && OrderCovers(conn, order)
    ensures Exact(Reconcile(conn, now, order), conn, now)
    ensures forall t: Topic :: !t.MemberTopic? ==>
      (t in Reconcile(conn, now, order).subs.subscribed <==> t in conn.subs.subscribed)
  {
    var removals, unwanted := PendingRemovals(conn, order), Unwanted(conn, now, order);
    var s1 := UnsubscribeEach(conn.subs, removals);
    UnsubscribeEachSummary(conn.subs, removals);
    UnsubscribeEachSummary(s1, unwanted);
    var tracked := conn.memberTopics - MemberTopicsOf(unwanted);
    forall t | t in tracked ensures t.MemberTopic? && Wanted(conn, now, t.of) {
      assert MemberTopic(t.of) == t;
      InMemberTopicsOf(unwanted, t.of);
    }
    if conn.cache.isBot && |tracked| == |conn.cache.servers| {
      EqualCountsMeanNoneMissing(tracked, conn.cache.servers);
    }
    var missing := Missing(conn, now, order, tracked);
    SubscribeEachSummary(UnsubscribeEach(s1, unwanted), missing);
    var r := Reconcile(conn, now, order);
    forall id ensures MemberTopic(id) in r.memberTopics <==> Wanted(conn, now, id) {
      if Wanted(conn, now, id) && MemberTopic(id) !in tracked {
        assert id in missing;
        assert MemberTopic(id) in MemberTopicsOf(missing);
      }
    }
    forall id ensures MemberTopic(id) in r.subs.subscribed <==> MemberTopic(id) in r.memberTopics {
      if MemberTopic(id) in conn.removals {
        assert id in removals;
        assert MemberTopic(id) in MemberTopicsOf(removals);
      }
    }
  }

  /** A user never holds more member topics than the active set has room for. */
  lemma ReconcileIsBounded(conn: Conn, now: int, order: seq<Id>)
    requires Tracked(conn) && OrderCovers(conn, order) && !conn.cache.isBot
    requires |conn.active| <= ACTIVE_SERVERS_CAPACITY
    ensures |Reconcile(conn, now, order).memberTopics| <= ACTIVE_SERVERS_CAPACITY
  {
    ReconcileIsExact(conn, now, order);
    var live := LiveEntries(conn, now);
    var topics := TopicsOfEntries(live);
    forall t | t in Reconcile(conn, now, order).memberTopics ensures t in topics {
      assert MemberTopic(t.of) == t;
      assert t.of in ActiveHistory.Keys(live);
      var e :| e in live && e.key == t.of;
    }
    CountTopicsOfEntries(live);
    var kept := Reconcile(conn, now, order).memberTopics;
    assert topics == kept + (topics - kept);
  }

  function TopicsOfEntries(entries: seq<ActiveHistory.Entry>): (r: set<Topic>)
  {
    set e | e in entries :: MemberTopic(e.key)
  }

  lemma {:induction false} CountTopicsOfEntries(entries: seq<ActiveHistory.Entry>)
    ensures |TopicsOfEntries(entries)| <= |entries|
  {
    if entries != [] {
      var prefix, last := entries[..|entries| - 1], entries[|entries| - 1];
      CountTopicsOfEntries(prefix);
      assert entries == prefix + [last];
      assert TopicsOfEntries(entries) == TopicsOfEntries(prefix) + {MemberTopic(last.key)};
    }
  }

  // ----- the reconcile and the queue -----

  lemma {:induction false} UnsubscribeEachCoherent(s: Subs, upstream: set<Topic>, ids: seq<Id>)
    requires Coherent(s, upstream)
    ensures Coherent(UnsubscribeEach(s, ids), upstream)
  {
    if ids != [] {
      UnsubscribeEachCoherent(s, upstream, ids[..|ids| - 1]);
      CallKeepsCoherent(UnsubscribeEach(s, ids[..|ids| - 1]), upstream, UnsubscribeCall(MemberTopic(ids[|ids| - 1])));
    }
  }

  lemma {:induction false} SubscribeEachCoherent(s: Subs, upstream: set<Topic>, ids: seq<Id>)
    requires Coherent(s, upstream)
    ensures Coherent(SubscribeEach(s, ids), upstream)
  {
    if ids != [] {
      SubscribeEachCoherent(s, upstream, ids[..|ids| - 1]);
      CallKeepsCoherent(SubscribeEach(s, ids[..|ids| - 1]), upstream, SubscribeCall(MemberTopic(ids[|ids| - 1])));
    }
  }

  /** Only member topics are queued by the two loops, so no other topic's counts move. */
  lemma {:induction false} EachLeavesOthers(s: Subs, ids: seq<Id>, t: Topic)
    requires !s.queue.Reset? && !t.MemberTopic?
    ensures Added(UnsubscribeEach(s, ids), t) == Added(s, t) && Dropped(UnsubscribeEach(s, ids), t) == Dropped(s, t)
    ensures Added(SubscribeEach(s, ids), t) == Added(s, t) && Dropped(SubscribeEach(s, ids), t) == Dropped(s, t)
  {
    if ids != [] {
      var prefix, last := ids[..|ids| - 1], MemberTopic(ids[|ids| - 1]);
      EachLeavesOthers(s, prefix, t);
      UnsubscribeCounts(UnsubscribeEach(s, prefix), last, t);
      SubscribeCounts(SubscribeEach(s, prefix), last, t);
    }
  }

  lemma ReconcileKeepsCoherent(conn: Conn, now: int, order: seq<Id>, upstream: set<Topic>)
    requires Coherent(conn.subs, upstream)
    ensures Coherent(Reconcile(conn, now, order).subs, upstream)
  {
    var s1 := UnsubscribeEach(conn.subs, PendingRemovals(conn, order));
    var unwanted := Unwanted(conn, now, order);
    UnsubscribeEachCoherent(conn.subs, upstream, PendingRemovals(conn, order));
    UnsubscribeEachCoherent(s1, upstream, unwanted);
    SubscribeEachCoherent(UnsubscribeEach(s1, unwanted), upstream,
                          Missing(conn, now, order, conn.memberTopics - MemberTopicsOf(unwanted)));
  }

  /** The reconcile cannot introduce a clash: member topics cancel, the others are untouched. */
  lemma ReconcileKeepsNoClash(conn: Conn, now: int, order: seq<Id>, upstream: set<Topic>)
    requires Coherent(conn.subs, upstream) && !conn.subs.queue.Reset? && !Clash(conn.subs)
    ensures !Clash(Reconcile(conn, now, order).subs)
  {
    ReconcileKeepsCoherent(conn, now, order, upstream);
    var r := Reconcile(conn, now, order);
    var s1 := UnsubscribeEach(conn.subs, PendingRemovals(conn, order));
    var unwanted := Unwanted(conn, now, order);
    var s2 := UnsubscribeEach(s1, unwanted);
    forall t ensures !(Added(r.subs, t) > 0 && Dropped(r.subs, t) > 0) {
      assert Balanced(r.subs, upstream, t);
      if !t.MemberTopic? {
        EachLeavesOthers(conn.subs, PendingRemovals(conn, order), t);
        EachLeavesOthers(s1, unwanted, t);
        EachLeavesOthers(s2, Missing(conn, now, order, conn.memberTopics - MemberTopicsOf(unwanted)), t);
      }
    }
  }
}
