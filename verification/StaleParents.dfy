/**
`reveal_channels` re-checks a thread against its parent as cached at that moment, which need not be
the stored parent yet (crates/bonfire/src/events/impl.rs:547-557): exactly when a thread is announced,
and exactly when that happens under a parent whose stored row is hidden.
*/
module StaleParents {
  import opened Sequences
  import opened Subscriptions
  import opened Connection
  import opened Announcements
  import opened Told
  import opened Recalculation

  /** The parent row the check of `ids[i]` sees: refreshed if the parent came earlier, else as `ParentOf` finds it. */
  function ParentSeen(conn: Conn, db: Db, rows: map<Id, Channel>, ids: seq<Id>, i: nat, parent: Id): Option<Channel>
    requires i < |ids|
  {
    if parent !in ids[..i] then ParentOf(conn.cache, db, parent)
    else if parent in rows then Some(rows[parent])
    else db.fetchOne(parent)
  }

  ghost predicate SeesRow(cache: Cache, db: Db, server: Id, row: Option<Channel>)
  {
    row.Some? && Sees(cache, db, server, row.value)
  }

  /** The channel is announced: it is among the events built. */
  ghost predicate Created(r: Revealing, c: Id)
  {
    c in CreatedIds(r.tops) + CreatedIds(r.threads)
  }

  function Start(conn: Conn, rows: map<Id, Channel>): Revealing { Revealing(conn, rows, [], []) }

  /** One step announces its own channel if it is stored and viewable at that moment, and no other. */
  lemma StepCreates(r: Revealing, db: Db, id: Id, c: Id)
    requires !Created(r, id)
    ensures Created(RevealStep(r, db, id), c) <==>
      Created(r, c) || (c == id && id in r.rows && CanView(r.conn.cache, db, r.rows[id]))
  {
    if id in r.rows {
      CreatedIdsAppend(r.tops, id, r.rows[id]);
      CreatedIdsAppend(r.threads, id, r.rows[id]);
    }
  }

  /** What step `i` finds: its own row, and every parent as `ParentSeen` says. */
  lemma SeenAtStep(conn: Conn, db: Db, rows: map<Id, Channel>, ids: seq<Id>, i: nat, parent: Id)
    requires NoDup(ids) && i < |ids|
    ensures var r := RevealAll(Start(conn, rows), db, ids[..i]);
      && !Created(r, ids[i]) && Get(r.rows, ids[i]) == Get(rows, ids[i])
      && ParentOf(r.conn.cache, db, parent) == ParentSeen(conn, db, rows, ids, i, parent)
      && r.conn.cache.members == conn.cache.members && r.conn.cache.servers == conn.cache.servers
  {
    var before := ids[..i];
    RevealSummary(conn, db, rows, before);
    var r := RevealAll(Start(conn, rows), db, before);
    CreatedWithin(r, rows, IdSet(before));
    assert ids[i] !in before;
    assert Get(r.conn.cache.channels, parent) ==
      if parent in IdSet(before) then Get(rows, parent) else Get(conn.cache.channels, parent);
  }

  lemma RevealPrefix(start: Revealing, db: Db, ids: seq<Id>, n: nat)
    requires 0 < n <= |ids|
    ensures RevealAll(start, db, ids[..n]) == RevealStep(RevealAll(start, db, ids[..n - 1]), db, ids[n - 1])
  {
    assert ids[..n][..n - 1] == ids[..n - 1];
  }

  /** Later steps take nothing back, and earlier ones did not announce it. */
  lemma {:induction false} CreatedIffAtStep(conn: Conn, db: Db, rows: map<Id, Channel>, ids: seq<Id>, i: nat, n: nat)
    requires NoDup(ids) && i < n <= |ids|
    ensures var r := RevealAll(Start(conn, rows), db, ids[..i]);
      Created(RevealAll(Start(conn, rows), db, ids[..n]), ids[i]) <==>
        ids[i] in rows && CanView(r.conn.cache, db, rows[ids[i]])
  {
    var before := RevealAll(Start(conn, rows), db, ids[..n - 1]);
    RevealPrefix(Start(conn, rows), db, ids, n);
    SeenAtStep(conn, db, rows, ids, n - 1, 0);
    StepCreates(before, db, ids[n - 1], ids[i]);
    if i < n - 1 { CreatedIffAtStep(conn, db, rows, ids, i, n - 1); }
  }

  /**
  A stored thread is announced if and only if the parent row at that moment is a channel the member
  can view: the cached or fetched one, or the stored one once the list has passed the parent.
  */
  lemma ThreadRevealedIff(conn: Conn, db: Db, rows: map<Id, Channel>, ids: seq<Id>, i: nat)
    requires NoDup(ids) && i < |ids| && ids[i] in rows && rows[ids[i]].Thread?
    ensures var row := rows[ids[i]];
      Created(RevealAll(Start(conn, rows), db, ids), ids[i]) <==>
        SeesRow(conn.cache, db, row.server, ParentSeen(conn, db, rows, ids, i, row.parent))
  {
    assert ids[..|ids|] == ids;
    CreatedIffAtStep(conn, db, rows, ids, i, |ids|);
    SeenAtStep(conn, db, rows, ids, i, rows[ids[i]].parent);
    ViewOfThread(conn, db, RevealAll(Start(conn, rows), db, ids[..i]).conn, rows[ids[i]]);
  }

  lemma ViewOfThread(conn: Conn, db: Db, now: Conn, ch: Channel)
    requires ch.Thread? && now.cache.members == conn.cache.members && now.cache.servers == conn.cache.servers
    ensures CanView(now.cache, db, ch) <==> SeesRow(conn.cache, db, ch.server, ParentOf(now.cache, db, ch.parent))
  {
  }

  /**
  Every read answers from `rows`: a thread is announced under a parent whose stored row is hidden if
  and only if the cached copy of that parent is not hidden and the list has not passed the parent.
  */
  lemma LeakIff(conn: Conn, db: Db, stored: map<Id, Channel>, rows: map<Id, Channel>, ids: seq<Id>, i: nat)
    requires ReadsFrom(db, rows) && NoDup(ids) && i < |ids| && ids[i] in rows && rows[ids[i]].Thread?
    requires forall c :: c in ids ==> Get(stored, c) == Get(rows, c)
    ensures var row := rows[ids[i]];
      var hidden := !SeesRow(conn.cache, db, row.server, Get(rows, row.parent));
      Created(RevealAll(Start(conn, stored), db, ids), ids[i]) && hidden <==>
        hidden && row.parent !in ids[..i]
        && SeesRow(conn.cache, db, row.server, Get(conn.cache.channels, row.parent))
  {
    var p := rows[ids[i]].parent;
    assert ids[i] in ids && Get(stored, ids[i]) == Get(rows, ids[i]);
    ThreadRevealedIff(conn, db, stored, ids, i);
    assert p in ids[..i] ==> p in ids;
    assert db.fetchOne(p) == Get(rows, p);
  }

  // ----- a whole recalculation -----

  /** The reveal is the only part of a recalculation that can announce a cached channel. */
  lemma CachedCreatedByReveal(conn: Conn, env: Env, id: Id, c: Id)
    requires id in conn.cache.servers && NoDup(env.order) && ReadsRequested(env.db) && c in Prior(conn, env, id)
    ensures c in CreatedIds(RecalculateBulk(conn, env, id).events) <==>
      c in CreatedIds(Reveal(conn, env.db, SortedOf(conn, env, id).revealed).events)
  {
    var sorted, rows := SortedOf(conn, env, id), Adopted(conn, env, id);
    var revealed := Reveal(conn, env.db, sorted.revealed);
    RecalculateShape(conn, env, id);
    AdoptedAreListed(conn, env, id);
    CreatedIdsConcat(Deletes(sorted.hidden) + Creates(rows), revealed.events);
    CreatedIdsConcat(Deletes(sorted.hidden), Creates(rows));
    CreatedIdsOfRows(rows);
    NothingCreated(sorted.hidden);
  }

  lemma NothingCreated(ids: seq<Id>)
    ensures CreatedIds(Deletes(ids)) == {}
  {
  }

  /**
  A recalculation announces the thread it reveals `i`-th under a parent whose stored row is hidden if and
  only if the cached copy of the parent is viewable and the parent is not revealed before the thread.
  */
  lemma RecalculationLeaksIff(conn: Conn, env: Env, id: Id, rows: map<Id, Channel>, i: nat)
    requires id in conn.cache.servers && NoDup(env.order) && ReadsFrom(env.db, rows)
    requires var ids := SortedOf(conn, env, id).revealed; i < |ids| && ids[i] in rows && rows[ids[i]].Thread?
    ensures var ids := SortedOf(conn, env, id).revealed;
      var row := rows[ids[i]];
      var hidden := !SeesRow(conn.cache, env.db, row.server, Get(rows, row.parent));
      ids[i] in CreatedIds(RecalculateBulk(conn, env, id).events) && hidden <==>
        hidden && row.parent !in ids[..i]
        && SeesRow(conn.cache, env.db, row.server, Get(conn.cache.channels, row.parent))
  {
    var ids := SortedOf(conn, env, id).revealed;
    RecalculateParts(conn, env, id);
    SettledReads(env.db, rows);
    assert ids[i] in ids;
    CachedCreatedByReveal(conn, env, id, ids[i]);
    FreshAreStored(env.db, rows, ids);
    var stored := FreshRows(env.db, ids).value;
    LeakIff(conn, env.db, stored, rows, ids, i);
    var r := RevealAll(Start(conn, stored), env.db, ids);
    CreatedIdsConcat(r.tops, r.threads);
  }

  // ----- the order of the cache decides -----

  const OLD_PARENT := ServerChannel(1, 1)
  const NEW_PARENT := ServerChannel(1, 0)
  const THREAD := Thread(1, 20, 0)
  const STALE_ROWS := map[20 := NEW_PARENT, 21 := THREAD]

  /**
  Parent 20 and thread 21 of the cached server 1 are cached and unknown to the client; the cached copy of
  the parent is viewable, its stored row is not.
  */
  ghost predicate Stale(conn: Conn, db: Db)
  {
    && 1 in conn.cache.servers && conn.cache.channels == map[20 := OLD_PARENT, 21 := THREAD]
    && !Subscribed(conn, 20) && !Subscribed(conn, 21) && ReadsFrom(db, STALE_ROWS)
    && Sees(conn.cache, db, 1, OLD_PARENT) && !Sees(conn.cache, db, 1, NEW_PARENT)
  }

  /** Both channels look visible and neither is known, so both are to be revealed, in the order of the cache. */
  lemma BothRevealed(conn: Conn, db: Db, a: Id, b: Id)
    requires Stale(conn, db) && {a, b} == {20, 21}
    ensures SortedOf(conn, Env(db, [a, b]), 1).revealed == [a, b]
  {
    var cache, held := conn.cache, conn.subs.subscribed;
    assert BelongsTo(cache, 1, a) && BelongsTo(cache, 1, b);
    FilterKeepsAll([a, b], c => BelongsTo(cache, 1, c));
    assert CanView(cache, db, OLD_PARENT) && CanView(cache, db, THREAD);
    SortPair(cache, held, db, 1, a, b);
  }

  lemma SortSnoc(cache: Cache, held: set<Topic>, db: Db, ids: seq<Id>, c: Id)
    requires forall x :: x in ids + [c] ==> x in cache.channels
    ensures SortAll(cache, held, db, ids + [c]) == SortStep(SortAll(cache, held, db, ids), cache, held, db, c)
  {
    assert (ids + [c])[..|ids|] == ids;
  }

  lemma SortPair(cache: Cache, held: set<Topic>, db: Db, id: Id, a: Id, b: Id)
    requires BelongsTo(cache, id, a) && BelongsTo(cache, id, b)
    requires CanView(cache, db, cache.channels[a]) && CanView(cache, db, cache.channels[b])
    requires ChannelTopic(a) !in held && ChannelTopic(b) !in held
    ensures SortAll(cache, held, db, [a, b]).revealed == [a, b]
  {
    var none: seq<Id> := [];
    assert none + [a] == [a] && [a] + [b] == [a, b];
    SortSnoc(cache, held, db, none, a);
    SortSnoc(cache, held, db, [a], b);
    SortStepByVisibility(SortAll(cache, held, db, none), cache, held, db, id, a);
    SortStepByVisibility(SortAll(cache, held, db, [a]), cache, held, db, id, b);
  }

  /** The thread is announced if it is listed before its parent. */
  lemma ThreadFirst(conn: Conn, db: Db)
    requires Stale(conn, db)
    ensures 21 in CreatedIds(RecalculateBulk(conn, Env(db, [21, 20]), 1).events)
  {
    BothRevealed(conn, db, 21, 20);
    RecalculationLeaksIff(conn, Env(db, [21, 20]), 1, STALE_ROWS, 0);
  }

  /** And is not if it is listed after. */
  lemma ParentFirst(conn: Conn, db: Db)
    requires Stale(conn, db)
    ensures 21 !in CreatedIds(RecalculateBulk(conn, Env(db, [20, 21]), 1).events)
  {
    BothRevealed(conn, db, 20, 21);
    RecalculationLeaksIff(conn, Env(db, [20, 21]), 1, STALE_ROWS, 1);
  }

  function StaleConn(): (r: Conn)
  {
    Conn(Cache(0, false, map[0 := {}], map[1 := Server([20], map[], 0)], map[1 := BLANK_MEMBER],
               map[20 := OLD_PARENT, 21 := THREAD]),
         Subs({}, Unchanged), {}, {}, [])
  }

  /** Answers from `STALE_ROWS`; only content 1 is viewable. */
  function StaleDb(): (r: Db)
  {
    Db(id => Get(STALE_ROWS, id),
       ids => Rows((if 20 in ids then [Row(20, NEW_PARENT)] else []) + (if 21 in ids then [Row(21, THREAD)] else [])),
       (_, _, ch: Channel) => ch.content == 1)
  }

  lemma StaleReads()
    ensures ReadsFrom(StaleDb(), STALE_ROWS)
  {
    forall ids: set<Id>
      ensures StaleDb().fetchMany(ids).Rows? && AnswersFrom(StaleDb().fetchMany(ids).rows, ids, STALE_ROWS)
    {
      var parent := if 20 in ids then [Row(20, NEW_PARENT)] else [];
      var thread := if 21 in ids then [Row(21, THREAD)] else [];
      assert StaleDb().fetchMany(ids) == Rows(parent + thread);
      TwoAnswers(ids, parent, thread);
    }
  }

  lemma TwoAnswers(ids: set<Id>, parent: seq<Row>, thread: seq<Row>)
    requires parent == if 20 in ids then [Row(20, NEW_PARENT)] else []
    requires thread == if 21 in ids then [Row(21, THREAD)] else []
    ensures AnswersFrom(parent + thread, ids, STALE_ROWS)
  {
  }

  /**
  The agreement between cache and store is needed: whether a recalculation announces the thread of a
  parent that has become hidden depends on the order in which the cache lists the two.
  */
  lemma StaleParentLeaksThread()
    ensures Stale(StaleConn(), StaleDb())
    ensures 21 in CreatedIds(RecalculateBulk(StaleConn(), Env(StaleDb(), [21, 20]), 1).events)
    ensures 21 !in CreatedIds(RecalculateBulk(StaleConn(), Env(StaleDb(), [20, 21]), 1).events)
  {
    StaleReads();
    assert Stale(StaleConn(), StaleDb());
    ThreadFirst(StaleConn(), StaleDb());
    ParentFirst(StaleConn(), StaleDb());
  }
}
