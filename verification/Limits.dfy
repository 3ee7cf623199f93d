/**
Where the handler's guarantees stop: the assumptions the run theorems make are needed,
and for `ServerCreate` the exact condition under which its flush is exact.
*/
module Limits {
  import opened Sequences
  import opened Subscriptions
  import opened Connection
  import opened Announcements
  import opened Told
  import opened Flushing

  // ----- ServerCreate and the queue -----

  /** Still coherent with what Redis holds, and no queued addition was taken back. */
  ghost predicate Queued(upstream: set<Topic>, s0: Subs, s1: Subs)
  {
    Coherent(s1, upstream) && (s1.queue.Reset? <==> s0.queue.Reset?) && forall t :: Added(s1, t) >= Added(s0, t)
  }

  lemma SubscribeQueued(upstream: set<Topic>, s0: Subs, s: Subs, t: Topic)
    requires Queued(upstream, s0, s) && !t.MemberTopic? && !s.queue.Reset?
    ensures Queued(upstream, s0, Insert(s, t)) && Queued(upstream, s0, Remove(s, t))
  {
    CallKeepsCoherent(s, upstream, InsertCall(t));
    CallKeepsCoherent(s, upstream, RemoveCall(t));
    forall u ensures Added(Insert(s, t), u) >= Added(s0, u) && Added(Remove(s, t), u) >= Added(s0, u) {
      InsertCounts(s, t, u);
      RemoveCounts(s, t, u);
    }
  }

  lemma {:induction false} RevealQueued(upstream: set<Topic>, s0: Subs, r: Revealing, db: Db, ids: seq<Id>)
    requires Queued(upstream, s0, r.conn.subs) && !s0.queue.Reset?
    ensures Queued(upstream, s0, RevealAll(r, db, ids).conn.subs)
  {
    if ids != [] {
      RevealQueued(upstream, s0, r, db, ids[..|ids| - 1]);
      SubscribeQueued(upstream, s0, RevealAll(r, db, ids[..|ids| - 1]).conn.subs, ChannelTopic(ids[|ids| - 1]));
    }
  }

  lemma {:induction false} HideQueued(upstream: set<Topic>, s0: Subs, a: Announcing, ids: seq<Id>)
    requires Queued(upstream, s0, a.conn.subs) && !s0.queue.Reset?
    ensures Queued(upstream, s0, HideAll(a, ids).conn.subs)
  {
    if ids != [] {
      HideQueued(upstream, s0, a, ids[..|ids| - 1]);
      SubscribeQueued(upstream, s0, HideAll(a, ids[..|ids| - 1]).conn.subs, ChannelTopic(ids[|ids| - 1]));
    }
  }

  lemma {:induction false} AdoptQueued(upstream: set<Topic>, s0: Subs, a: Announcing, rows: seq<Row>)
    requires Queued(upstream, s0, a.conn.subs) && !s0.queue.Reset?
    ensures Queued(upstream, s0, AdoptAll(a, rows).conn.subs)
  {
    if rows != [] {
      AdoptQueued(upstream, s0, a, rows[..|rows| - 1]);
      SubscribeQueued(upstream, s0, AdoptAll(a, rows[..|rows| - 1]).conn.subs, ChannelTopic(rows[|rows| - 1].id));
    }
  }

  lemma RecalculateQueued(upstream: set<Topic>, conn: Conn, env: Env, id: Id)
    requires id in conn.cache.servers && Coherent(conn.subs, upstream) && !conn.subs.queue.Reset?
    ensures Queued(upstream, conn.subs, RecalculateBulk(conn, env, id).conn.subs)
  {
    var prior := CachedOf(conn.cache, env.order, id);
    var sorted := SortAll(conn.cache, conn.subs.subscribed, env.db, prior);
    if sorted.revealed != [] && FreshRows(env.db, sorted.revealed).Some? {
      var start := Revealing(conn, FreshRows(env.db, sorted.revealed).value, [], []);
      RevealQueued(upstream, conn.subs, start, env.db, sorted.revealed);
    }
    var revealed := Reveal(conn, env.db, sorted.revealed);
    HideQueued(upstream, conn.subs, Announcing(revealed.conn, []), sorted.hidden);
    var hidden := HideAll(Announcing(revealed.conn, []), sorted.hidden);
    var unknowns := (set c | c in conn.cache.servers[id].channels) - (set c | c in prior);
    if unknowns != {} && env.db.fetchMany(unknowns).Rows? {
      AdoptQueued(upstream, conn.subs, hidden, Accessible(hidden.conn.cache, env.db, env.db.fetchMany(unknowns).rows));
    }
  }

  /** A channel the event subscribes and the recalculation hides again is queued both ways. */
  lemma HiddenAgainClashes(conn: Conn, env: Env, event: Event, told: set<Id>, home: Homes, c: Id)
    requires event.ServerCreate? && conn.subs.queue.Unchanged? && NoDup(env.order)
    requires Synced(conn, told, home) && DbConforms(home, env.db) && ReadsRequested(env.db)
    requires EventConforms(home, event)
    requires Hides(Joined(conn, event.id, event.server, event.carried), env, event.id, c) && !Subscribed(conn, c)
    ensures Clash(Handle(conn, env, event).conn.subs)
  {
    var held, t := conn.subs.subscribed, ChannelTopic(c);
    var installed := InstallServer(conn, event.id, event.server);
    var joined := Joined(conn, event.id, event.server, event.carried);
    StartTidy(conn);
    SubscribeTidy(conn, conn, ServerTopic(event.id));
    CarryTidy(conn, installed, event.carried);
    JoinedSynced(conn, event.id, event.server, event.carried, told, home);
    RecalculateQueued(held, joined, env, event.id);
    var gone, created := ServerCreateSides(conn, env, event, told, home);
    var after := Handle(conn, env, event).conn.subs;
    assert c in IdSet(gone) && t !in after.subscribed by { assert !Subscribed(Handle(conn, env, event).conn, c); }
    assert Balanced(joined.subs, held, t) && Balanced(after, held, t);
    CountsNonNegative(joined.subs, t);
    CountsNonNegative(after, t);
    assert Added(after, t) > 0 && Dropped(after, t) > 0;
  }

  /**
  The flush after a `ServerCreate` is exact if and only if every channel the
  recalculation hides was already subscribed before the event. Otherwise the channel
  it carried and hid again stays subscribed in Redis, though not in `subscribed`.
  */
  lemma ServerCreateFlushIff(conn: Conn, env: Env, event: Event, told: set<Id>, home: Homes)
    requires event.ServerCreate? && conn.subs.queue.Unchanged?
    requires Synced(conn, told, home) && DbConforms(home, env.db) && ReadsRequested(env.db)
    requires EventConforms(home, event) && Covers(env.order, conn, event)
    ensures var joined := Joined(conn, event.id, event.server, event.carried);
      var after := Handle(conn, env, event).conn.subs;
      Upstream(after, conn.subs.subscribed) == Apply(after).subscribed <==>
      forall c :: Hides(joined, env, event.id, c) ==> Subscribed(conn, c)
  {
    var held := conn.subs.subscribed;
    var joined := Joined(conn, event.id, event.server, event.carried);
    var after := Handle(conn, env, event).conn.subs;
    var installed := InstallServer(conn, event.id, event.server);
    StartTidy(conn);
    SubscribeTidy(conn, conn, ServerTopic(event.id));
    CarryTidy(conn, installed, event.carried);
    CarrySummary(installed, event.carried);
    JoinedSynced(conn, event.id, event.server, event.carried, told, home);
    RecalculateQueued(held, joined, env, event.id);
    FlushExactIffNoClash(after, held);
    if forall c :: Hides(joined, env, event.id, c) ==> Subscribed(conn, c) {
      forall c | c in joined.cache.channels ensures c in env.order {
        if c in RowMap(event.carried) { assert Row(c, RowMap(event.carried)[c]) in event.carried; }
      }
      RecalculatingTidy(conn, joined, env, event.id, event, told + RowIds(event.carried), home);
      CleanNeverClashes(held, after);
    } else {
      var c :| Hides(joined, env, event.id, c) && !Subscribed(conn, c);
      HiddenAgainClashes(conn, env, event, told, home, c);
    }
  }

  /** A database in which nothing is stored and nothing is viewable. */
  function DarkDb(): (r: Db)
  {
    Db(_ => None, _ => Rows([]), (_, _, _) => false)
  }

  const NEW_CACHE := Cache(0, false, map[0 := {}], map[], map[], map[])

  function DarkConn(): (r: Conn) { Conn(NEW_CACHE, Subs({}, Unchanged), {}, {}, []) }

  function DarkEnv(): (r: Env) { Env(DarkDb(), [10]) }

  /** Channel 10 of server 1, carried by the server's own creation. */
  function DarkCreate(): (r: Event) { ServerCreate(1, Server([10], map[], 0), [Row(10, ServerChannel(1, 0))]) }

  lemma DarkJoined()
    ensures var joined := Joined(DarkConn(), 1, DarkCreate().server, DarkCreate().carried);
      Subscribed(joined, 10) && Hides(joined, DarkEnv(), 1, 10)
  {
    var carried := DarkCreate().carried;
    var installed := InstallServer(DarkConn(), 1, DarkCreate().server);
    assert carried[..0] == [];
    assert CarryAll(installed, carried[..0]) == installed;
    assert Joined(DarkConn(), 1, DarkCreate().server, carried) == CarryStep(installed, carried[0]);
  }

  lemma DarkConforms(home: Homes)
    requires forall c :: home(c) == Some(1)
    ensures Synced(DarkConn(), {}, home) && DbConforms(home, DarkDb()) && ReadsRequested(DarkDb())
    ensures EventConforms(home, DarkCreate()) && Covers(DarkEnv().order, DarkConn(), DarkCreate())
  {
  }

  lemma DarkFlush(home: Homes)
    requires forall c :: home(c) == Some(1)
    ensures var after := Handle(DarkConn(), DarkEnv(), DarkCreate()).conn.subs;
      Upstream(after, {}) != Apply(after).subscribed
  {
    DarkConforms(home);
    DarkJoined();
    assert !Subscribed(DarkConn(), 10);
    ServerCreateFlushIff(DarkConn(), DarkEnv(), DarkCreate(), {}, home);
  }

  /**
  The assumption on `ServerCreate` is needed: a carried channel the new member may not
  view is known to the client, absent from `subscribed`, and still live in Redis.
  */
  lemma UnfilteredServerCreate(home: Homes)
    requires forall c :: home(c) == Some(1)
    ensures var r := Handle(DarkConn(), DarkEnv(), DarkCreate());
      10 in ReplaySent({}, 0, home, r.sent) && !Subscribed(r.conn, 10) &&
      Upstream(r.conn.subs, {}) != Apply(r.conn.subs).subscribed
  {
    DarkFlush(home);
    DarkConforms(home);
    DarkJoined();
    var gone, created := ServerCreateSides(DarkConn(), DarkEnv(), DarkCreate(), {}, home);
    assert 10 in IdSet(gone) && DarkCreate().carried[0].id in RowIds(DarkCreate().carried);
  }
}
