/**
One event between two flushes: whatever the handler queues can be flushed exactly.
No topic is queued both ways, so the replay on `subscribed` and the commands sent
to Redis agree (crates/bonfire/src/events/state.rs:214-233, 388-432).
*/
module Flushing {
  import opened Sequences
  import opened Subscriptions
  import opened Connection
  import opened Announcements
  import opened Told
  import opened MemberTopics

  /** The topics events move: those of users, servers and channels. */
  predicate Eventful(t: Topic) { t.UserTopic? || t.ServerTopic? || t.ChannelTopic? }

  /** Since `start`, which had nothing queued: a clean, coherent queue, and no other topic moved. */
  ghost predicate Tidy(start: Conn, conn: Conn)
  {
    var held := start.subs.subscribed;
    Clean(held, conn.subs) && Coherent(conn.subs, held) &&
    (forall t: Topic :: !Eventful(t) ==> (t in conn.subs.subscribed <==> t in held))
  }

  ghost predicate SameTracking(start: Conn, conn: Conn)
  {
    conn.memberTopics == start.memberTopics && conn.removals == start.removals && conn.active == start.active
  }

  lemma StartTidy(start: Conn)
    requires start.subs.queue.Unchanged?
    ensures Tidy(start, start)
  {
    forall t ensures Balanced(start.subs, start.subs.subscribed, t) { }
  }

  lemma SubscribeTidy(start: Conn, conn: Conn, t: Topic)
    requires Tidy(start, conn) && Eventful(t)
    requires t !in start.subs.subscribed || t in conn.subs.subscribed
    ensures Tidy(start, Subscribe(conn, t))
  {
    InsertStaysClean(start.subs.subscribed, conn.subs, t);
    CallKeepsCoherent(conn.subs, start.subs.subscribed, InsertCall(t));
  }

  lemma UnsubscribeTidy(start: Conn, conn: Conn, t: Topic)
    requires Tidy(start, conn) && Eventful(t)
    requires t in start.subs.subscribed || t !in conn.subs.subscribed
    ensures Tidy(start, Unsubscribe(conn, t))
  {
    RemoveStaysClean(start.subs.subscribed, conn.subs, t);
    CallKeepsCoherent(conn.subs, start.subs.subscribed, RemoveCall(t));
  }

  lemma {:induction false} RevealAllTidy(start: Conn, r: Revealing, db: Db, ids: seq<Id>)
    requires Tidy(start, r.conn)
    requires forall c :: c in ids ==> !Subscribed(start, c)
    ensures Tidy(start, RevealAll(r, db, ids).conn) && SameTracking(r.conn, RevealAll(r, db, ids).conn)
  {
    if ids != [] {
      var prefix, id := ids[..|ids| - 1], ids[|ids| - 1];
      RevealAllTidy(start, r, db, prefix);
      var before := RevealAll(r, db, prefix);
      if id in before.rows {
        var cached := CacheChannel(before.conn, id, before.rows[id]);
        assert Tidy(start, cached) && !Subscribed(start, id);
        SubscribeTidy(start, cached, ChannelTopic(id));
      }
    }
  }

  lemma RevealTidy(start: Conn, conn: Conn, db: Db, ids: seq<Id>)
    requires Tidy(start, conn)
    requires forall c :: c in ids ==> !Subscribed(start, c)
    ensures Tidy(start, Reveal(conn, db, ids).conn) && SameTracking(conn, Reveal(conn, db, ids).conn)
  {
    if ids != [] && FreshRows(db, ids).Some? {
      RevealAllTidy(start, Revealing(conn, FreshRows(db, ids).value, [], []), db, ids);
    }
  }

  lemma {:induction false} HideTidy(start: Conn, a: Announcing, ids: seq<Id>)
    requires Tidy(start, a.conn)
    requires forall c :: c in ids ==> Subscribed(start, c)
    ensures Tidy(start, HideAll(a, ids).conn) && SameTracking(a.conn, HideAll(a, ids).conn)
  {
    if ids != [] {
      HideTidy(start, a, ids[..|ids| - 1]);
      assert Subscribed(start, ids[|ids| - 1]);
      UnsubscribeTidy(start, HideAll(a, ids[..|ids| - 1]).conn, ChannelTopic(ids[|ids| - 1]));
    }
  }

  lemma {:induction false} AdoptTidy(start: Conn, a: Announcing, rows: seq<Row>)
    requires Tidy(start, a.conn)
    requires forall row :: row in rows ==> !Subscribed(start, row.id)
    ensures Tidy(start, AdoptAll(a, rows).conn) && SameTracking(a.conn, AdoptAll(a, rows).conn)
  {
    if rows != [] {
      var last := rows[|rows| - 1];
      AdoptTidy(start, a, rows[..|rows| - 1]);
      var cached := CacheChannel(AdoptAll(a, rows[..|rows| - 1]).conn, last.id, last.channel);
      assert Tidy(start, cached);
      SubscribeTidy(start, cached, ChannelTopic(last.id));
    }
  }

  lemma {:induction false} CarryTidy(start: Conn, conn: Conn, rows: seq<Row>)
    requires Tidy(start, conn) && start.subs.subscribed <= conn.subs.subscribed
    ensures var r := CarryAll(conn, rows);
      Tidy(start, r) && SameTracking(conn, r) && start.subs.subscribed <= r.subs.subscribed
  {
    if rows != [] {
      var last := rows[|rows| - 1];
      CarryTidy(start, conn, rows[..|rows| - 1]);
      var cached := CacheChannel(CarryAll(conn, rows[..|rows| - 1]), last.id, last.channel);
      assert Tidy(start, cached);
      SubscribeTidy(start, cached, ChannelTopic(last.id));
    }
  }

  lemma {:induction false} DropTidy(start: Conn, conn: Conn, ids: seq<Id>)
    requires Tidy(start, conn) && conn.subs.subscribed <= start.subs.subscribed
    ensures var r := DropAll(conn, ids);
      Tidy(start, r) && SameTracking(conn, r) && r.subs.subscribed <= start.subs.subscribed
  {
    if ids != [] {
      DropTidy(start, conn, ids[..|ids| - 1]);
      UnsubscribeTidy(start, DropAll(conn, ids[..|ids| - 1]), ChannelTopic(ids[|ids| - 1]));
    }
  }

  lemma {:induction false} SweepTidy(start: Conn, s: Sweep, db: Db, held: set<Topic>, children: seq<Id>)
    requires Tidy(start, s.conn) && held == start.subs.subscribed
    ensures var r := SweepAll(s, db, held, children);
      Tidy(start, r.conn) && SameTracking(s.conn, r.conn)
  {
    if children != [] {
      var prefix, c := children[..|children| - 1], children[|children| - 1];
      SweepTidy(start, s, db, held, prefix);
      var before := SweepAll(s, db, held, prefix);
      if ChannelTopic(c) in held { UnsubscribeTidy(start, before.conn, ChannelTopic(c)); }
    }
  }

  lemma PropagateTidy(start: Conn, conn: Conn, db: Db, children: seq<Id>, parentEvent: Event)
    requires Tidy(start, conn)
    ensures var p := Propagate(conn, db, start.subs.subscribed, children, parentEvent);
      Tidy(start, p.conn) && SameTracking(conn, p.conn)
  {
    var held := start.subs.subscribed;
    SweepTidy(start, Sweep(conn, [], []), db, held, children);
    SweepSummary(conn, db, held, children);
    var swept := SweepAll(Sweep(conn, [], []), db, held, children);
    RevealTidy(start, swept.conn, db, swept.revealed);
  }

  /** A recalculation inside an event that began at `start`: it hides only what was held then. */
  lemma RecalculateTidy(start: Conn, conn: Conn, env: Env, id: Id, told: set<Id>, home: Homes)
    requires Tidy(start, conn) && start.subs.subscribed <= conn.subs.subscribed
    requires id in conn.cache.servers && NoDup(env.order) && ReadsRequested(env.db)
    requires Synced(conn, told, home) && forall c :: c in conn.cache.channels ==> c in env.order
    requires forall c :: Hides(conn, env, id, c) ==> Subscribed(start, c)
    ensures var a := RecalculateBulk(conn, env, id);
      Tidy(start, a.conn) && SameTracking(conn, a.conn)
  {
    var prior := CachedOf(conn.cache, env.order, id);
    var sorted := SortAll(conn.cache, conn.subs.subscribed, env.db, prior);
    RecalculateParts(conn, env, id);
    forall c | c in sorted.revealed ensures !Subscribed(start, c) {
      assert !Subscribed(conn, c);
    }
    RevealTidy(start, conn, env.db, sorted.revealed);
    var revealed := Reveal(conn, env.db, sorted.revealed);
    forall c | c in sorted.hidden ensures Subscribed(start, c) {
      assert Hides(conn, env, id, c);
    }
    HideTidy(start, Announcing(revealed.conn, []), sorted.hidden);
    var hidden := HideAll(Announcing(revealed.conn, []), sorted.hidden);
    var unknowns := (set c | c in conn.cache.servers[id].channels) - (set c | c in prior);
    UnknownsNotHeld(start, conn, env, id, told, home);
    if unknowns != {} && env.db.fetchMany(unknowns).Rows? {
      var all := env.db.fetchMany(unknowns).rows;
      var rows := Accessible(hidden.conn.cache, env.db, all);
      forall row | row in rows ensures !Subscribed(start, row.id) {
        assert row in all && row.id in RowIds(all);
      }
      AdoptTidy(start, hidden, rows);
    }
  }

  /** A listed channel that is not cached was never told, so it is not held. */
  lemma UnknownsNotHeld(start: Conn, conn: Conn, env: Env, id: Id, told: set<Id>, home: Homes)
    requires start.subs.subscribed <= conn.subs.subscribed && id in conn.cache.servers
    requires Synced(conn, told, home) && forall c :: c in conn.cache.channels ==> c in env.order
    ensures var prior := CachedOf(conn.cache, env.order, id);
      forall c :: c in (set c | c in conn.cache.servers[id].channels) - (set c | c in prior) ==> !Subscribed(start, c)
  {
    var prior := CachedOf(conn.cache, env.order, id);
    assert ServerConforms(home, id, conn.cache.servers[id]);
    forall c | c in (set c | c in conn.cache.servers[id].channels) - (set c | c in prior)
      ensures !Subscribed(start, c)
    {
      if Subscribed(conn, c) {
        assert c in told && c in conn.cache.channels;
        assert BelongsTo(conn.cache, id, c);
      }
    }
  }

  lemma RecalculatingTidy(start: Conn, conn: Conn, env: Env, id: Id, event: Event, told: set<Id>, home: Homes)
    requires Tidy(start, conn) && start.subs.subscribed <= conn.subs.subscribed
    requires NoDup(env.order) && ReadsRequested(env.db)
    requires Synced(conn, told, home) && forall c :: c in conn.cache.channels ==> c in env.order
    requires forall c :: Hides(conn, env, id, c) ==> Subscribed(start, c)
    ensures var r := Recalculating(conn, env, id, event);
      Tidy(start, r.conn) && SameTracking(conn, r.conn)
  {
    if id in conn.cache.servers { RecalculateTidy(start, conn, env, id, told, home); }
  }

  lemma ServerCreateTidy(conn: Conn, env: Env, event: Event, told: set<Id>, home: Homes)
    requires event.ServerCreate? && conn.subs.queue.Unchanged?
    requires Synced(conn, told, home) && ReadsRequested(env.db)
    requires EventConforms(home, event) && Covers(env.order, conn, event) && CarriedViewable(conn, env, event)
    ensures var r := Handle(conn, env, event);
      Tidy(conn, r.conn) && SameTracking(conn, r.conn)
  {
    var installed := InstallServer(conn, event.id, event.server);
    var joined := Joined(conn, event.id, event.server, event.carried);
    StartTidy(conn);
    SubscribeTidy(conn, conn, ServerTopic(event.id));
    CarryTidy(conn, installed, event.carried);
    CarrySummary(installed, event.carried);
    JoinedSynced(conn, event.id, event.server, event.carried, told, home);
    forall c | Hides(joined, env, event.id, c) ensures Subscribed(conn, c) { }
    forall c | c in joined.cache.channels ensures c in env.order {
      if c in RowMap(event.carried) { assert Row(c, RowMap(event.carried)[c]) in event.carried; }
    }
    RecalculatingTidy(conn, joined, env, event.id, event, told + RowIds(event.carried), home);
  }

  lemma ChannelUpdateTidy(conn: Conn, env: Env, id: Id, patch: Content -> Content, told: set<Id>, home: Homes)
    requires conn.subs.queue.Unchanged? && Synced(conn, told, home)
    ensures var r := OnChannelUpdate(conn, env, id, patch);
      Tidy(conn, r.conn) && SameTracking(conn, r.conn)
  {
    var db := env.db;
    var children := ChildrenOf(conn.cache, env.order, id);
    var updated := Updated(conn, db, id, patch);
    StartTidy(conn);
    assert Tidy(conn, updated);
    if id in updated.cache.channels {
      var ch := updated.cache.channels[id];
      var canView, couldView := CanView(updated.cache, db, ch), CouldView(conn, db, id);
      if canView && !couldView && id in conn.cache.channels {
        RevealTidy(conn, updated, db, [id]);
        var revealed := Reveal(updated, db, [id]);
        if revealed.events != [] { PropagateTidy(conn, revealed.conn, db, children, revealed.events[0]); }
      } else if canView && !couldView {
        PropagateTidy(conn, updated, db, children, ChannelCreate(id, ch));
        var p := Propagate(updated, db, conn.subs.subscribed, children, ChannelCreate(id, ch));
        SubscribeTidy(conn, p.conn, ChannelTopic(id));
      } else if couldView && !canView {
        PropagateTidy(conn, updated, db, children, ChannelDelete(id));
        var p := Propagate(updated, db, conn.subs.subscribed, children, ChannelDelete(id));
        UnsubscribeTidy(conn, p.conn, ChannelTopic(id));
      } else if canView {
        PropagateTidy(conn, updated, db, children, ChannelUpdate(id, patch));
      }
    }
  }

  lemma LeaveTidy(conn: Conn, order: seq<Id>, id: Id)
    requires conn.subs.queue.Unchanged?
    ensures var r := LeaveServer(conn, order, id);
      Tidy(conn, r) && r.memberTopics == conn.memberTopics - {MemberTopic(id)} &&
      r.removals == conn.removals + {MemberTopic(id)} && r.active == ActiveHistory.RemoveKey(conn.active, id)
  {
    StartTidy(conn);
    UnsubscribeTidy(conn, conn, ServerTopic(id));
    var c0 := Unsubscribe(conn, ServerTopic(id));
    var bare := c0.(cache := c0.cache.(servers := c0.cache.servers - {id}));
    assert Tidy(conn, bare);
    var listed := if id in c0.cache.servers then c0.cache.servers[id].channels else [];
    DropTidy(conn, bare, listed);
    var c1 := if id in c0.cache.servers then DropAll(bare, listed) else c0;
    DropTidy(conn, c1, CachedOf(c1.cache, order, id));
  }

  /** A change of servers, members or users alone leaves the queue as it was. */
  lemma RecalculatingFromStart(conn: Conn, updated: Conn, env: Env, id: Id, event: Event, told: set<Id>, home: Homes)
    requires conn.subs.queue.Unchanged? && updated.subs == conn.subs && SameTracking(conn, updated)
    requires NoDup(env.order) && ReadsRequested(env.db)
    requires Synced(updated, told, home) && forall c :: c in updated.cache.channels ==> c in env.order
    ensures var r := Recalculating(updated, env, id, event);
      Tidy(conn, r.conn) && SameTracking(conn, r.conn)
  {
    StartTidy(conn);
    RecalculatingTidy(conn, updated, env, id, event, told, home);
  }

  lemma AccountTidy(conn: Conn, env: Env, event: Event, told: set<Id>, home: Homes)
    requires IsAccountEvent(event) && EventConforms(home, event) && Covers(env.order, conn, event)
    requires conn.subs.queue.Unchanged? && Synced(conn, told, home) && ReadsRequested(env.db)
    ensures var r := OnAccountEvent(conn, env, event);
      Tidy(conn, r.conn) && SameTracking(conn, r.conn)
  {
    StartTidy(conn);
    AccountSynced(conn, event, told, home);
    RecalculatingFromStart(conn, Account(conn, event), env, event.id, event, told, home);
  }

  /** The arms that move at most one topic. */
  lemma PlainTidy(conn: Conn, env: Env, event: Event)
    requires conn.subs.queue.Unchanged?
    requires event.ChannelCreate? || event.ChannelDelete? || event.ChannelGroupJoin? || event.ChannelGroupLeave?
    ensures var r := Handle(conn, env, event);
      Tidy(conn, r.conn) && SameTracking(conn, r.conn)
  {
    StartTidy(conn);
    match event
    case ChannelCreate(id, ch) =>
      assert Tidy(conn, CacheChannel(conn, id, ch));
      SubscribeTidy(conn, CacheChannel(conn, id, ch), ChannelTopic(id));
    case ChannelDelete(id) => UnsubscribeTidy(conn, conn, ChannelTopic(id));
    case ChannelGroupJoin(_, user) => SubscribeTidy(conn, conn, UserTopic(user));
    case ChannelGroupLeave(id, user) =>
      UnsubscribeTidy(conn, conn, ChannelTopic(id));
      UnsubscribeTidy(conn, conn, UserTopic(user));
  }

  lemma RelationshipTidy(conn: Conn, id: Id, related: set<Id>)
    requires conn.subs.queue.Unchanged?
    ensures var r := OnRelationship(conn, id, related);
      Tidy(conn, r.conn) && SameTracking(conn, r.conn)
  {
    StartTidy(conn);
    var updated := conn.(cache := conn.cache.(users := conn.cache.users[id := related]));
    assert Tidy(conn, updated);
    SubscribeTidy(conn, updated, UserTopic(id));
    UnsubscribeTidy(conn, updated, UserTopic(id));
  }

  lemma ThreadJoinTidy(conn: Conn, db: Db, id: Id, user: Id)
    requires conn.subs.queue.Unchanged?
    ensures var r := OnThreadJoin(conn, db, id, user);
      Tidy(conn, r.conn) && SameTracking(conn, r.conn)
  {
    StartTidy(conn);
    if !Subscribed(conn, id) { RevealTidy(conn, conn, db, [id]); }
  }

  /** Whatever the event, the queue it leaves is clean and coherent, and member topics stay tracked. */
  lemma HandleTidy(conn: Conn, env: Env, event: Event, told: set<Id>, home: Homes)
    requires conn.subs.queue.Unchanged? && Synced(conn, told, home) && ReadsRequested(env.db)
    requires EventConforms(home, event) && Covers(env.order, conn, event) && CarriedViewable(conn, env, event)
    ensures Tidy(conn, Handle(conn, env, event).conn)
    ensures Tracked(conn) ==> Tracked(Handle(conn, env, event).conn)
    ensures |Handle(conn, env, event).conn.active| <= |conn.active|
  {
    if event.ServerMemberLeave? || event.ServerDelete? {
      StartTidy(conn);
      LeaveTidy(conn, env.order, event.id);
    } else {
      HandleTidyTracking(conn, env, event, told, home);
      SameTrackingTracked(conn, Handle(conn, env, event).conn);
    }
  }

  lemma SameTrackingTracked(conn: Conn, r: Conn)
    requires Tidy(conn, r) && SameTracking(conn, r)
    ensures Tracked(conn) ==> Tracked(r)
  {
  }

  /** Every other event leaves the tracking alone. */
  lemma HandleTidyTracking(conn: Conn, env: Env, event: Event, told: set<Id>, home: Homes)
    requires !event.ServerMemberLeave? && !event.ServerDelete?
    requires conn.subs.queue.Unchanged? && Synced(conn, told, home) && ReadsRequested(env.db)
    requires EventConforms(home, event) && Covers(env.order, conn, event) && CarriedViewable(conn, env, event)
    ensures var r := Handle(conn, env, event);
      Tidy(conn, r.conn) && SameTracking(conn, r.conn)
  {
    match event
    case ChannelUpdate(id, patch) => ChannelUpdateTidy(conn, env, id, patch, told, home);
    case ServerCreate(_, _, _) => ServerCreateTidy(conn, env, event, told, home);
    case ServerUpdate(_, _, _) => AccountTidy(conn, env, event, told, home);
    case ServerMemberUpdate(_, _, _, _) => AccountTidy(conn, env, event, told, home);
    case ServerRoleUpdate(_, _, _, _) => AccountTidy(conn, env, event, told, home);
    case ServerRoleDelete(_, _) => AccountTidy(conn, env, event, told, home);
    case UserRelationship(id, related) => RelationshipTidy(conn, id, related);
    case ThreadMemberJoin(id, user) => ThreadJoinTidy(conn, env.db, id, user);
    case ThreadMemberLeave(_, _) => StartTidy(conn);
    case Other => StartTidy(conn);
    case _ => PlainTidy(conn, env, event);
  }
}
