/**
The handler's documented invariant (crates/bonfire/src/events/impl.rs:411-416): a
channel is subscribed exactly when the client has been told about it. What the
client was told is obtained by replaying the forwarded events in order.
*/
module Told {
  import opened Sequences
  import opened Subscriptions
  import opened Connection
  import opened Announcements

  /** The server each channel id belongs to, if any; it never changes. */
  type Homes = Id -> Option<Id>

  /** What the client knows after receiving `e`: the channel ids in its own cache. */
  ghost function Replay(told: set<Id>, self: Id, home: Homes, e: Event): set<Id>
    decreases e, 1
  {
    match e
    case ChannelCreate(id, _) => told + {id}
    case ChannelDelete(id) => told - {id}
    case ChannelGroupLeave(id, user) => if user == self then told - {id} else told
    case ServerCreate(_, _, carried) => told + RowIds(carried)
    case ServerMemberLeave(id, user) => if user == self then OutsideServer(told, home, id) else told
    case ServerDelete(id) => OutsideServer(told, home, id)
    case Bulk(v) => ReplayAll(told, self, home, v)
    case _ => told
  }

  ghost function ReplayAll(told: set<Id>, self: Id, home: Homes, v: seq<Event>): set<Id>
    decreases v, 0
  {
    if v == [] then told
    else Replay(ReplayAll(told, self, home, v[..|v| - 1]), self, home, v[|v| - 1])
  }

  ghost function OutsideServer(told: set<Id>, home: Homes, id: Id): set<Id>
  {
    set c | c in told && home(c) != Some(id)
  }

  ghost function ReplaySent(told: set<Id>, self: Id, home: Homes, sent: Option<Event>): set<Id>
  {
    if sent.Some? then Replay(told, self, home, sent.value) else told
  }

  /** Subscribed exactly when told, only cached channels are subscribed, and the cache has each channel's own server. */
  ghost predicate Synced(conn: Conn, told: set<Id>, home: Homes)
  {
    (forall c :: Subscribed(conn, c) <==> c in told) &&
    (forall c :: c in told ==> c in conn.cache.channels) &&
    (forall c :: c in conn.cache.channels ==> ServerOf(conn.cache.channels[c]) == home(c)) &&
    ServersConform(conn, home)
  }

  ghost predicate ServerConforms(home: Homes, id: Id, server: Server)
  {
    forall c :: c in server.channels ==> home(c) == Some(id)
  }

  ghost predicate ServersConform(conn: Conn, home: Homes)
  {
    forall s :: s in conn.cache.servers ==> ServerConforms(home, s, conn.cache.servers[s])
  }

  ghost predicate RowsConform(home: Homes, rows: seq<Row>)
  {
    forall row :: row in rows ==> ServerOf(row.channel) == home(row.id)
  }

  ghost predicate DbConforms(home: Homes, db: Db)
  {
    (forall i :: db.fetchOne(i).Some? ==> ServerOf(db.fetchOne(i).value) == home(i)) &&
    (forall ids :: db.fetchMany(ids).Rows? ==> RowsConform(home, db.fetchMany(ids).rows))
  }

  /** What the publisher of an event guarantees about the rows it carries; `Bulk` is never published. */
  ghost predicate EventConforms(home: Homes, event: Event)
  {
    match event
    case ChannelCreate(id, ch) => ServerOf(ch) == home(id)
    case ServerCreate(id, server, carried) => ServerConforms(home, id, server) && RowsConform(home, carried)
    case ServerUpdate(id, patch, _) =>
      forall server :: ServerConforms(home, id, server) ==> ServerConforms(home, id, patch(server))
    case Bulk(_) => false
    case _ => true
  }

  /** `order` lists every key the channel cache may hold while the event is handled. */
  ghost predicate Covers(order: seq<Id>, conn: Conn, event: Event)
  {
    NoDup(order) &&
    (forall c :: c in conn.cache.channels ==> c in order) &&
    (event.ServerCreate? ==> forall row :: row in event.carried ==> row.id in order)
  }

  /** `ServerCreate` carries only channels the new, role-less member can view. */
  ghost predicate CarriedViewable(conn: Conn, env: Env, event: Event)
  {
    event.ServerCreate? ==>
      var joined := Joined(conn, event.id, event.server, event.carried);
      forall row :: row in event.carried && BelongsTo(joined.cache, event.id, row.id) ==>
        Visible(joined.cache, env.db, row.id)
  }

  /** How a publisher meets that in any state: top-level channels, those of this server viewable by the blank member. */
  ghost predicate Filtered(db: Db, event: Event)
  {
    event.ServerCreate? ==>
      forall row :: row in event.carried ==>
        row.channel.ServerChannel? &&
        (row.channel.server == event.id ==> db.view(Some(BLANK_MEMBER), Some(event.server), row.channel))
  }

  lemma FilteredIsViewable(conn: Conn, env: Env, event: Event)
    requires Filtered(env.db, event)
    ensures CarriedViewable(conn, env, event)
  {
    if event.ServerCreate? {
      CarrySummary(InstallServer(conn, event.id, event.server), event.carried);
      var joined := Joined(conn, event.id, event.server, event.carried);
      forall row | row in event.carried && BelongsTo(joined.cache, event.id, row.id)
        ensures Visible(joined.cache, env.db, row.id)
      {
        assert row.id in RowMap(event.carried);
        assert Row(row.id, RowMap(event.carried)[row.id]) in event.carried;
      }
    }
  }

  // ----- replay of the lists the handler builds -----

  lemma {:induction false} ReplayConcat(told: set<Id>, self: Id, home: Homes, a: seq<Event>, b: seq<Event>)
    ensures ReplayAll(told, self, home, a + b) == ReplayAll(ReplayAll(told, self, home, a), self, home, b)
    decreases |b|
  {
    if b == [] {
      assert a + b == a;
    } else {
      assert (a + b)[..|a + b| - 1] == a + b[..|b| - 1];
      ReplayConcat(told, self, home, a, b[..|b| - 1]);
    }
  }

  lemma {:induction false} ReplayCreates(told: set<Id>, self: Id, home: Homes, v: seq<Event>)
    requires AllCreates(v)
    ensures ReplayAll(told, self, home, v) == told + CreatedIds(v)
    decreases |v|
  {
    if v != [] {
      var prefix, last := v[..|v| - 1], v[|v| - 1];
      ReplayCreates(told, self, home, prefix);
      assert v == prefix + [last];
      CreatedIdsAppend(prefix, last.id, last.channel);
      assert [last] == [ChannelCreate(last.id, last.channel)];
    }
  }

  lemma {:induction false} ReplayDeletes(told: set<Id>, self: Id, home: Homes, ids: seq<Id>)
    ensures ReplayAll(told, self, home, Deletes(ids)) == told - IdSet(ids)
  {
    if ids != [] {
      ReplayDeletes(told, self, home, ids[..|ids| - 1]);
      assert Deletes(ids)[..|ids| - 1] == Deletes(ids[..|ids| - 1]);
      assert IdSet(ids) == IdSet(ids[..|ids| - 1]) + {ids[|ids| - 1]};
    }
  }

  lemma {:induction false} ReplayLast(told: set<Id>, self: Id, home: Homes, v: seq<Event>, e: Event)
    ensures Replay(told, self, home, Bulk(v + [e])) == Replay(ReplayAll(told, self, home, v), self, home, e)
  {
    assert (v + [e])[..|v + [e]| - 1] == v;
  }

  lemma {:induction false} ReplaySingle(told: set<Id>, self: Id, home: Homes, e: Event)
    ensures ReplayAll(told, self, home, [e]) == Replay(told, self, home, e)
  {
    assert [e][..0] == [];
    assert ReplayAll(told, self, home, [e][..0]) == told;
  }

  lemma {:induction false} ReplayFirst(told: set<Id>, self: Id, home: Homes, e: Event, v: seq<Event>)
    ensures Replay(told, self, home, Bulk([e] + v)) == ReplayAll(Replay(told, self, home, e), self, home, v)
  {
    ReplaySingle(told, self, home, e);
    ReplayConcat(told, self, home, [e], v);
  }

  // ----- reveal_channels -----

  lemma FreshRowsConform(home: Homes, db: Db, ids: seq<Id>)
    requires DbConforms(home, db)
    ensures FreshRows(db, ids).Some? ==>
      forall c :: c in FreshRows(db, ids).value ==> ServerOf(FreshRows(db, ids).value[c]) == home(c)
  {
    var wanted := set id | id in ids;
    if db.fetchMany(wanted).Rows? {
      var rows := db.fetchMany(wanted).rows;
      forall c | c in RowMap(rows) ensures ServerOf(RowMap(rows)[c]) == home(c) {
        assert Row(c, RowMap(rows)[c]) in rows;
      }
    }
  }

  lemma RevealKeepsSynced(conn: Conn, db: Db, ids: seq<Id>, told: set<Id>, home: Homes)
    requires Synced(conn, told, home) && DbConforms(home, db)
    requires NoDup(ids) && forall c :: c in ids ==> !Subscribed(conn, c)
    ensures var r := Reveal(conn, db, ids);
      AllCreates(r.events) && Synced(r.conn, told + CreatedIds(r.events), home) &&
      CreatedIds(r.events) <= IdSet(ids) && r.conn.cache.userId == conn.cache.userId
  {
    RevealGives(conn, db, ids);
    FreshRowsConform(home, db, ids);
    var r := Reveal(conn, db, ids);
    forall c | c in r.conn.cache.channels
      ensures ServerOf(r.conn.cache.channels[c]) == home(c)
    {
      assert Get(r.conn.cache.channels, c) == Some(r.conn.cache.channels[c]);
      if c !in IdSet(ids) {
        assert Get(r.conn.cache.channels, c) == Get(conn.cache.channels, c);
      }
    }
    forall c | c in told + CreatedIds(r.events) ensures c in r.conn.cache.channels {
      if c in told {
        assert c !in IdSet(ids);
        assert Get(r.conn.cache.channels, c) == Get(conn.cache.channels, c);
      }
    }
  }

  // ----- recalculate_server -----

  /** The pieces `RecalculateBulk` is made of, and which ids each one names. */
  lemma RecalculateParts(conn: Conn, env: Env, id: Id)
    requires id in conn.cache.servers && NoDup(env.order)
    ensures var prior := CachedOf(conn.cache, env.order, id);
      var sorted := SortAll(conn.cache, conn.subs.subscribed, env.db, prior);
      NoDup(sorted.revealed) && NoDup(sorted.hidden) &&
      (forall c :: c in sorted.revealed <==> c in prior && !Subscribed(conn, c) && Visible(conn.cache, env.db, c)) &&
      (forall c :: c in sorted.hidden <==> c in prior && Subscribed(conn, c) && !Visible(conn.cache, env.db, c)) &&
      IdSet(sorted.revealed) !! IdSet(sorted.hidden)
  {
    SortSummary(conn.cache, conn.subs.subscribed, env.db, id, CachedOf(conn.cache, env.order, id));
  }

  lemma HideKeepsSynced(conn: Conn, ids: seq<Id>, told: set<Id>, home: Homes)
    requires Synced(conn, told, home)
    ensures var r := HideAll(Announcing(conn, []), ids);
      Synced(r.conn, told - IdSet(ids), home) && r.events == Deletes(ids) && r.conn.cache.userId == conn.cache.userId
  {
    HideSummary(conn, ids);
  }

  /** The unknowns only append ChannelCreates, one for each channel they subscribe. */
  lemma AdoptKeepsSynced(a: Announcing, db: Db, unknowns: set<Id>, told: set<Id>, home: Homes)
      returns (extra: seq<Event>)
    requires Synced(a.conn, told, home) && DbConforms(home, db)
    ensures var r := AdoptUnknowns(a, db, unknowns);
      r.events == a.events + extra && AllCreates(extra) &&
      Synced(r.conn, told + CreatedIds(extra), home) && r.conn.cache.userId == a.conn.cache.userId
  {
    extra := [];
    if unknowns != {} && db.fetchMany(unknowns).Rows? {
      var rows := Accessible(a.conn.cache, db, db.fetchMany(unknowns).rows);
      extra := Creates(rows);
      AdoptSummary(a, rows);
      CreatedIdsOfRows(rows);
      forall c | c in RowMap(rows) ensures ServerOf(RowMap(rows)[c]) == home(c) {
        assert Row(c, RowMap(rows)[c]) in rows;
      }
      forall c | c in RowIds(rows) ensures c in RowMap(rows) {
        var row :| row in rows && row.id == c;
      }
    }
  }

  /** Deletions, unknowns, revealed: the client ends with the same set in any order of the last two. */
  lemma ReplayBulk(told: set<Id>, self: Id, home: Homes, hidden: seq<Id>, extra: seq<Event>, shown: seq<Event>)
    requires AllCreates(extra) && AllCreates(shown)
    ensures ReplayAll(told, self, home, Deletes(hidden) + extra + shown)
         == told - IdSet(hidden) + CreatedIds(extra) + CreatedIds(shown)
  {
    ReplayConcat(told, self, home, Deletes(hidden) + extra, shown);
    ReplayConcat(told, self, home, Deletes(hidden), extra);
    ReplayDeletes(told, self, home, hidden);
    ReplayCreates(told - IdSet(hidden), self, home, extra);
    ReplayCreates(told - IdSet(hidden) + CreatedIds(extra), self, home, shown);
  }

  /** The channels a recalculation takes away: cached, told, and no longer viewable. */
  ghost predicate Hides(conn: Conn, env: Env, id: Id, c: Id)
  {
    c in env.order && BelongsTo(conn.cache, id, c) && Subscribed(conn, c) && !Visible(conn.cache, env.db, c)
  }

  /** Reads answer only what was asked, once each. */
  ghost predicate ReadsRequested(db: Db)
  {
    forall ids :: db.fetchMany(ids).Rows? ==>
      RowIds(db.fetchMany(ids).rows) <= ids && DistinctRows(db.fetchMany(ids).rows)
  }

  ghost predicate DistinctRows(rows: seq<Row>)
  {
    forall i, j :: 0 <= i < j < |rows| ==> rows[i].id != rows[j].id
  }

  lemma AdoptedAreUnknown(a: Announcing, db: Db, unknowns: set<Id>, extra: seq<Event>)
    requires AdoptUnknowns(a, db, unknowns).events == a.events + extra
    requires ReadsRequested(db)
    ensures CreatedIds(extra) <= unknowns
  {
    if unknowns != {} && db.fetchMany(unknowns).Rows? {
      var rows := Accessible(a.conn.cache, db, db.fetchMany(unknowns).rows);
      AdoptSummary(a, rows);
      CreatedIdsOfRows(rows);
      assert extra == (a.events + extra)[|a.events|..] == Creates(rows);
      forall row | row in rows ensures row.id in unknowns {
        assert row in db.fetchMany(unknowns).rows;
        assert row.id in RowIds(db.fetchMany(unknowns).rows);
      }
    } else {
      assert extra == (a.events + extra)[|a.events|..] == [];
    }
  }

  /** The bulk list of a recalculation, taken apart, and the subscriptions it leaves. */
  lemma RecalculatePieces(conn: Conn, env: Env, id: Id, told: set<Id>, home: Homes)
      returns (gone: seq<Id>, extra: seq<Event>, shown: seq<Event>)
    requires id in conn.cache.servers
    requires Synced(conn, told, home) && DbConforms(home, env.db) && NoDup(env.order)
    ensures AllCreates(extra) && AllCreates(shown)
    ensures forall c :: c in gone <==> Hides(conn, env, id, c)
    ensures CreatedIds(shown) !! IdSet(gone)
    ensures ReadsRequested(env.db) ==> CreatedIds(extra) !! IdSet(gone)
    ensures var a := RecalculateBulk(conn, env, id);
      a.events == Deletes(gone) + extra + shown && a.conn.cache.userId == conn.cache.userId &&
      Synced(a.conn, told - IdSet(gone) + CreatedIds(extra) + CreatedIds(shown), home)
  {
    var prior := CachedOf(conn.cache, env.order, id);
    var sorted := SortAll(conn.cache, conn.subs.subscribed, env.db, prior);
    RecalculateParts(conn, env, id);
    var revealed := Reveal(conn, env.db, sorted.revealed);
    RevealKeepsSynced(conn, env.db, sorted.revealed, told, home);
    gone, shown := sorted.hidden, revealed.events;

    var hidden := HideAll(Announcing(revealed.conn, []), gone);
    HideKeepsSynced(revealed.conn, gone, told + CreatedIds(shown), home);

    var unknowns := (set c | c in conn.cache.servers[id].channels) - (set c | c in prior);
    extra := AdoptKeepsSynced(hidden, env.db, unknowns, told + CreatedIds(shown) - IdSet(gone), home);
    if ReadsRequested(env.db) {
      AdoptedAreUnknown(hidden, env.db, unknowns, extra);
      assert IdSet(gone) <= IdSet(prior);
    }
    assert told + CreatedIds(shown) - IdSet(gone) + CreatedIds(extra)
        == told - IdSet(gone) + CreatedIds(extra) + CreatedIds(shown);
  }

  /** What the client knows after the bulk list and an event that tells it nothing by itself. */
  lemma ReplayRecalculated(told: set<Id>, self: Id, home: Homes, events: seq<Event>, event: Event)
    requires IsAccountEvent(event)
    ensures ReplayAll(told, self, home, events)
         == Replay(told, self, home, if events == [] then event else Bulk(events + [event]))
  {
    if events != [] { ReplayLast(told, self, home, events, event); }
  }

  /** Recalculation around an event that tells the client nothing by itself. */
  lemma RecalculatingKeepsSynced(conn: Conn, env: Env, id: Id, event: Event, told: set<Id>, home: Homes)
    requires Synced(conn, told, home) && DbConforms(home, env.db) && NoDup(env.order)
    requires IsAccountEvent(event)
    ensures var r := Recalculating(conn, env, id, event);
      Synced(r.conn, ReplaySent(told, conn.cache.userId, home, r.sent), home)
  {
    if id in conn.cache.servers {
      var a := RecalculateBulk(conn, env, id);
      assert Synced(a.conn, ReplayAll(told, conn.cache.userId, home, a.events), home) by {
        var gone, extra, shown := RecalculatePieces(conn, env, id, told, home);
        ReplayBulk(told, conn.cache.userId, home, gone, extra, shown);
      }
      assert ReplayAll(told, conn.cache.userId, home, a.events)
          == ReplaySent(told, conn.cache.userId, home, Recalculating(conn, env, id, event).sent) by {
        ReplayRecalculated(told, conn.cache.userId, home, a.events, event);
      }
    }
  }

  lemma JoinedSynced(conn: Conn, id: Id, server: Server, carried: seq<Row>, told: set<Id>, home: Homes)
    requires Synced(conn, told, home)
    requires ServerConforms(home, id, server) && RowsConform(home, carried)
    ensures var joined := Joined(conn, id, server, carried);
      Synced(joined, told + RowIds(carried), home) && id in joined.cache.servers &&
      joined.cache.userId == conn.cache.userId
  {
    var installed := InstallServer(conn, id, server);
    CarrySummary(installed, carried);
    var joined := Joined(conn, id, server, carried);
    forall c | c in joined.cache.channels ensures ServerOf(joined.cache.channels[c]) == home(c) {
      if c in RowMap(carried) {
        assert Row(c, RowMap(carried)[c]) in carried;
      }
    }
    forall c | c in RowIds(carried) ensures c in RowMap(carried) {
      var row :| row in carried && row.id == c;
    }
  }

  /** Both sides of `ServerCreate`: the deletions reach the client before the event that lists the channels. */
  lemma ServerCreateSides(conn: Conn, env: Env, event: Event, told: set<Id>, home: Homes)
      returns (gone: seq<Id>, created: set<Id>)
    requires event.ServerCreate? && EventConforms(home, event) && NoDup(env.order)
    requires Synced(conn, told, home) && DbConforms(home, env.db)
    ensures var joined := Joined(conn, event.id, event.server, event.carried);
      Synced(joined, told + RowIds(event.carried), home) &&
      forall c :: c in gone <==> Hides(joined, env, event.id, c)
    ensures var r := Handle(conn, env, event);
      var carried := RowIds(event.carried);
      Synced(r.conn, told + carried - IdSet(gone) + created, home) &&
      ReplaySent(told, conn.cache.userId, home, r.sent) == told - IdSet(gone) + created + carried
    ensures ReadsRequested(env.db) ==> created !! IdSet(gone)
  {
    var self := conn.cache.userId;
    var joined := Joined(conn, event.id, event.server, event.carried);
    JoinedSynced(conn, event.id, event.server, event.carried, told, home);
    var extra, shown;
    gone, extra, shown := RecalculatePieces(joined, env, event.id, told + RowIds(event.carried), home);
    created := CreatedIds(extra) + CreatedIds(shown);
    var a := RecalculateBulk(joined, env, event.id);
    ReplayBulk(told, self, home, gone, extra, shown);
    ReplayLast(told, self, home, a.events, event);
    assert told + RowIds(event.carried) - IdSet(gone) + CreatedIds(extra) + CreatedIds(shown)
        == told + RowIds(event.carried) - IdSet(gone) + created;
    assert ReplayAll(told, self, home, a.events) == told - IdSet(gone) + created;
  }

  /**
  `ServerCreate` keeps client and subscriptions in step if and only if every
  channel it carries is viewable by the blank member it installs: the deletion
  of a hidden one is sent ahead of the event that lists it.
  */
  lemma ServerCreateSyncedIff(conn: Conn, env: Env, event: Event, told: set<Id>, home: Homes)
    requires event.ServerCreate? && EventConforms(home, event) && Covers(env.order, conn, event)
    requires Synced(conn, told, home) && DbConforms(home, env.db)
    ensures var r := Handle(conn, env, event);
      (CarriedViewable(conn, env, event) ==>
        Synced(r.conn, ReplaySent(told, conn.cache.userId, home, r.sent), home)) &&
      (ReadsRequested(env.db) && Synced(r.conn, ReplaySent(told, conn.cache.userId, home, r.sent), home) ==>
        CarriedViewable(conn, env, event))
  {
    var gone, created := ServerCreateSides(conn, env, event, told, home);
    var carried := RowIds(event.carried);
    var r := Handle(conn, env, event);
    if CarriedViewable(conn, env, event) {
      forall c | c in carried ensures c !in IdSet(gone) {
        var row :| row in event.carried && row.id == c;
      }
      assert told - IdSet(gone) + created + carried == told + carried - IdSet(gone) + created;
    } else if ReadsRequested(env.db) {
      CarriedHiddenIsGone(conn, env, event, told, home, gone);
      var row :| row in event.carried && row.id in gone;
      assert row.id in IdSet(gone) && row.id in carried;
      assert !Subscribed(r.conn, row.id);
      assert row.id in told - IdSet(gone) + created + carried;
    }
  }

  lemma CarriedHiddenIsGone(conn: Conn, env: Env, event: Event, told: set<Id>, home: Homes, gone: seq<Id>)
    requires event.ServerCreate? && Covers(env.order, conn, event) && !CarriedViewable(conn, env, event)
    requires var joined := Joined(conn, event.id, event.server, event.carried);
      Synced(joined, told + RowIds(event.carried), home) &&
      forall c :: c in gone <==> Hides(joined, env, event.id, c)
    ensures exists row :: row in event.carried && row.id in gone
  {
    var joined := Joined(conn, event.id, event.server, event.carried);
    var row :| row in event.carried && BelongsTo(joined.cache, event.id, row.id) &&
               !Visible(joined.cache, env.db, row.id);
    assert row.id in RowIds(event.carried);
    assert Hides(joined, env, event.id, row.id);
  }

  // ----- ChannelUpdate -----

  /** What the child threads of an updated channel contribute, in order: deletions, then creations. */
  lemma PropagatePieces(conn: Conn, db: Db, held: set<Topic>, children: seq<Id>, parentEvent: Event,
                        told: set<Id>, home: Homes)
      returns (gone: seq<Id>, shown: seq<Event>)
    requires Synced(conn, told, home) && DbConforms(home, db) && NoDup(children)
    requires forall c :: c in children && Subscribed(conn, c) ==> ChannelTopic(c) in held
    ensures AllCreates(shown)
    ensures forall c :: c in gone ==> c in children && ChannelTopic(c) in held
    ensures forall c :: c in CreatedIds(shown) ==> c in children && ChannelTopic(c) !in held
    ensures var p := Propagate(conn, db, held, children, parentEvent);
      p.conn.cache.userId == conn.cache.userId &&
      Synced(p.conn, told - IdSet(gone) + CreatedIds(shown), home) &&
      (forall before ::
        Replay(before, conn.cache.userId, home, p.event)
          == Replay(before, conn.cache.userId, home, parentEvent) - IdSet(gone) + CreatedIds(shown))
  {
    gone := NewlyHidden(conn.cache, db, held, children);
    var swept := SweepAll(Sweep(conn, [], []), db, held, children);
    SweepSummary(conn, db, held, children);
    assert Synced(swept.conn, told - IdSet(gone), home);
    var self := conn.cache.userId;
    RevealKeepsSynced(swept.conn, db, swept.revealed, told - IdSet(gone), home);
    var revealed := Reveal(swept.conn, db, swept.revealed);
    shown := revealed.events;
    var p := Propagate(conn, db, held, children, parentEvent);
    forall before
      ensures Replay(before, self, home, p.event) ==
        Replay(before, self, home, parentEvent) - IdSet(gone) + CreatedIds(shown)
    {
      var after := Replay(before, self, home, parentEvent);
      ReplayFirst(before, self, home, parentEvent, Deletes(gone) + shown);
      ReplayConcat(after, self, home, Deletes(gone), shown);
      ReplayDeletes(after, self, home, gone);
      ReplayCreates(after - IdSet(gone), self, home, shown);
    }
  }

  lemma UpdatedSynced(conn: Conn, db: Db, id: Id, patch: Content -> Content, told: set<Id>, home: Homes)
    requires Synced(conn, told, home) && DbConforms(home, db)
    ensures Synced(Updated(conn, db, id, patch), told, home)
  {
  }

  /** A thread that is its own parent is never viewable, so an updated channel is not among the threads it reveals. */
  lemma UpdatedNotOwnChild(conn: Conn, env: Env, id: Id, patch: Content -> Content)
    requires id in conn.cache.channels
    requires CanView(Updated(conn, env.db, id, patch).cache, env.db, Patch(conn.cache.channels[id], patch))
    ensures id !in ChildrenOf(conn.cache, env.order, id)
  {
  }

  /** A cached channel that becomes viewable: announced from its stored row, or not at all. */
  lemma UpdateRevealsCached(conn: Conn, env: Env, id: Id, patch: Content -> Content, told: set<Id>, home: Homes)
    requires Synced(conn, told, home) && DbConforms(home, env.db) && NoDup(env.order)
    requires id in conn.cache.channels && !CouldView(conn, env.db, id)
    requires var updated := Updated(conn, env.db, id, patch);
      CanView(updated.cache, env.db, updated.cache.channels[id])
    ensures var r := OnChannelUpdate(conn, env, id, patch);
      Synced(r.conn, ReplaySent(told, conn.cache.userId, home, r.sent), home)
  {
    var db := env.db;
    var updated := Updated(conn, db, id, patch);
    var children := ChildrenOf(conn.cache, env.order, id);
    UpdatedSynced(conn, db, id, patch, told, home);
    UpdatedNotOwnChild(conn, env, id, patch);
    RevealKeepsSynced(updated, db, [id], told, home);
    RevealOne(updated, db, id);
    var revealed := Reveal(updated, db, [id]);
    if revealed.events == [] {
      assert told + CreatedIds(revealed.events) == told;
    } else {
      var gone, shown :=
        PropagatePieces(revealed.conn, db, conn.subs.subscribed, children, revealed.events[0], told + {id}, home);
    }
  }

  lemma UpdateQueuesAdd(conn: Conn, env: Env, id: Id, patch: Content -> Content, told: set<Id>, home: Homes)
    requires Synced(conn, told, home) && DbConforms(home, env.db) && NoDup(env.order)
    requires id !in conn.cache.channels
    requires var updated := Updated(conn, env.db, id, patch);
      id in updated.cache.channels && CanView(updated.cache, env.db, updated.cache.channels[id])
    ensures var r := OnChannelUpdate(conn, env, id, patch);
      Synced(r.conn, ReplaySent(told, conn.cache.userId, home, r.sent), home)
  {
    var updated := Updated(conn, env.db, id, patch);
    var children := ChildrenOf(conn.cache, env.order, id);
    UpdatedSynced(conn, env.db, id, patch, told, home);
    var created := ChannelCreate(id, updated.cache.channels[id]);
    var gone, shown := PropagatePieces(updated, env.db, conn.subs.subscribed, children, created, told, home);
    assert !Subscribed(conn, id);
    assert (told - IdSet(gone) + CreatedIds(shown)) + {id} == told + {id} - IdSet(gone) + CreatedIds(shown);
    var p := Propagate(updated, env.db, conn.subs.subscribed, children, ChannelCreate(id, updated.cache.channels[id]));
    PropagateKeepsParent(updated, env.db, conn.subs.subscribed, children, created, id);
  }

  lemma PropagateKeepsParent(conn: Conn, db: Db, held: set<Topic>, children: seq<Id>, parentEvent: Event, id: Id)
    requires NoDup(children) && id !in children && id in conn.cache.channels
    ensures id in Propagate(conn, db, held, children, parentEvent).conn.cache.channels
  {
    SweepSummary(conn, db, held, children);
    var swept := SweepAll(Sweep(conn, [], []), db, held, children);
    RevealGives(swept.conn, db, swept.revealed);
    var revealed := Reveal(swept.conn, db, swept.revealed);
    assert Get(revealed.conn.cache.channels, id) == Get(swept.conn.cache.channels, id);
  }

  lemma UpdateQueuesRemove(conn: Conn, env: Env, id: Id, patch: Content -> Content, told: set<Id>, home: Homes)
    requires Synced(conn, told, home) && DbConforms(home, env.db) && NoDup(env.order)
    requires CouldView(conn, env.db, id)
    requires var updated := Updated(conn, env.db, id, patch);
      !CanView(updated.cache, env.db, updated.cache.channels[id])
    ensures var r := OnChannelUpdate(conn, env, id, patch);
      Synced(r.conn, ReplaySent(told, conn.cache.userId, home, r.sent), home)
  {
    var updated := Updated(conn, env.db, id, patch);
    var children := ChildrenOf(conn.cache, env.order, id);
    UpdatedSynced(conn, env.db, id, patch, told, home);
    var gone, shown := PropagatePieces(updated, env.db, conn.subs.subscribed, children, ChannelDelete(id), told, home);
    assert (told - IdSet(gone) + CreatedIds(shown)) - {id} == told - {id} - IdSet(gone) + CreatedIds(shown);
  }

  lemma ChannelUpdateKeepsSynced(conn: Conn, env: Env, id: Id, patch: Content -> Content, told: set<Id>, home: Homes)
    requires Synced(conn, told, home) && DbConforms(home, env.db) && NoDup(env.order)
    ensures var r := OnChannelUpdate(conn, env, id, patch);
      Synced(r.conn, ReplaySent(told, conn.cache.userId, home, r.sent), home)
  {
    var updated := Updated(conn, env.db, id, patch);
    UpdatedSynced(conn, env.db, id, patch, told, home);
    if id in updated.cache.channels {
      var canView := CanView(updated.cache, env.db, updated.cache.channels[id]);
      var couldView := CouldView(conn, env.db, id);
      if canView && !couldView && id in conn.cache.channels {
        UpdateRevealsCached(conn, env, id, patch, told, home);
      } else if canView && !couldView {
        UpdateQueuesAdd(conn, env, id, patch, told, home);
      } else if couldView && !canView {
        UpdateQueuesRemove(conn, env, id, patch, told, home);
      } else if canView {
        var children := ChildrenOf(conn.cache, env.order, id);
        var gone, shown :=
          PropagatePieces(updated, env.db, conn.subs.subscribed, children, ChannelUpdate(id, patch), told, home);
      }
    }
  }

  /** A reveal of one id announces at most that id, once. */
  lemma RevealOne(conn: Conn, db: Db, id: Id)
    ensures var r := Reveal(conn, db, [id]);
      r.events == [] || (|r.events| == 1 && r.events[0].ChannelCreate? && r.events[0].id == id)
    ensures var r := Reveal(conn, db, [id]);
      r.events != [] ==>
        CreatedIds(r.events) == {id} && r.conn.subs.subscribed == conn.subs.subscribed + {ChannelTopic(id)}
  {
    if FreshRows(db, [id]).Some? {
      var start := Revealing(conn, FreshRows(db, [id]).value, [], []);
      assert [id][..0] == [];
      assert RevealAll(start, db, [id][..0]) == start;
      assert RevealAll(start, db, [id]) == RevealStep(start, db, id);
      if id in start.rows {
        CreatedIdsAppend([], id, start.rows[id]);
        assert [] + [ChannelCreate(id, start.rows[id])] == [ChannelCreate(id, start.rows[id])];
      }
    }
  }

  // ----- leaving a server -----

  lemma LeaveKeepsSynced(conn: Conn, order: seq<Id>, id: Id, told: set<Id>, home: Homes)
    requires Synced(conn, told, home)
    requires forall c :: c in conn.cache.channels ==> c in order
    ensures Synced(LeaveServer(conn, order, id), OutsideServer(told, home, id), home)
  {
    var c0 := Unsubscribe(conn, ServerTopic(id));
    var listed := if id in c0.cache.servers then c0.cache.servers[id].channels else [];
    var bare := c0.(cache := c0.cache.(servers := c0.cache.servers - {id}));
    DropSummary(bare, listed);
    var c1 := DropAll(bare, listed);
    if id !in c0.cache.servers { assert bare == c0 == c1; }
    DropSummary(c1, CachedOf(c1.cache, order, id));
  }

  // ----- every event -----

  /** One event, any database answers, any iteration order: told and subscribed stay the same set. */
  lemma HandleKeepsSynced(conn: Conn, env: Env, event: Event, told: set<Id>, home: Homes)
    requires Synced(conn, told, home) && DbConforms(home, env.db)
    requires EventConforms(home, event) && Covers(env.order, conn, event) && CarriedViewable(conn, env, event)
    ensures var r := Handle(conn, env, event);
      Synced(r.conn, ReplaySent(told, conn.cache.userId, home, r.sent), home)
  {
    match event
    case ChannelUpdate(id, patch) => ChannelUpdateKeepsSynced(conn, env, id, patch, told, home);
    case ServerCreate(_, _, _) => ServerCreateSyncedIff(conn, env, event, told, home);
    case ServerUpdate(_, _, _) => AccountKeepsSynced(conn, env, event, told, home);
    case ServerMemberLeave(id, user) =>
      if user == conn.cache.userId { LeaveKeepsSynced(conn, env.order, id, told, home); }
    case ServerDelete(id) => LeaveKeepsSynced(conn, env.order, id, told, home);
    case ServerMemberUpdate(_, _, _, _) => AccountKeepsSynced(conn, env, event, told, home);
    case ServerRoleUpdate(_, _, _, _) => AccountKeepsSynced(conn, env, event, told, home);
    case ServerRoleDelete(_, _) => AccountKeepsSynced(conn, env, event, told, home);
    case ThreadMemberJoin(id, user) => ThreadJoinKeepsSynced(conn, env.db, id, user, told, home);
    case ChannelCreate(id, ch) => CreateKeepsSynced(conn, env.db, id, ch, told, home);
    case ChannelDelete(id) => DeleteKeepsSynced(conn, id, told, home);
    case _ => PlainKeepsSynced(conn, env, event, told, home);
  }

  lemma CreateKeepsSynced(conn: Conn, db: Db, id: Id, ch: Channel, told: set<Id>, home: Homes)
    requires Synced(conn, told, home) && ServerOf(ch) == home(id)
    ensures var r := OnChannelCreate(conn, db, id, ch);
      Synced(r.conn, ReplaySent(told, conn.cache.userId, home, r.sent), home)
  {
    var cached := CacheChannel(conn, id, ch);
    assert Synced(cached, told, home);
    if CanView(conn.cache, db, ch) {
      assert Synced(Subscribe(cached, ChannelTopic(id)), told + {id}, home);
    }
  }

  lemma DeleteKeepsSynced(conn: Conn, id: Id, told: set<Id>, home: Homes)
    requires Synced(conn, told, home)
    ensures var r := OnChannelDelete(conn, id);
      Synced(r.conn, ReplaySent(told, conn.cache.userId, home, r.sent), home)
  {
  }

  /** The arms that change no cached channel. */
  lemma PlainKeepsSynced(conn: Conn, env: Env, event: Event, told: set<Id>, home: Homes)
    requires Synced(conn, told, home) && EventConforms(home, event)
    requires event.ChannelGroupJoin? || event.ChannelGroupLeave? || event.UserRelationship?
      || event.ThreadMemberLeave? || event.Other?
    ensures var r := Handle(conn, env, event);
      Synced(r.conn, ReplaySent(told, conn.cache.userId, home, r.sent), home)
  {
  }

  /** Changing a server, role or membership row tells the client about no channel. */
  lemma AccountSynced(conn: Conn, event: Event, told: set<Id>, home: Homes)
    requires IsAccountEvent(event) && EventConforms(home, event) && Synced(conn, told, home)
    ensures Synced(Account(conn, event), told, home)
  {
    var updated := Account(conn, event);
    forall s | s in updated.cache.servers ensures ServerConforms(home, s, updated.cache.servers[s]) {
      if s in conn.cache.servers { assert ServerConforms(home, s, conn.cache.servers[s]); }
    }
  }

  lemma AccountKeepsSynced(conn: Conn, env: Env, event: Event, told: set<Id>, home: Homes)
    requires IsAccountEvent(event) && EventConforms(home, event)
    requires Synced(conn, told, home) && DbConforms(home, env.db) && NoDup(env.order)
    ensures var r := OnAccountEvent(conn, env, event);
      Synced(r.conn, ReplaySent(told, conn.cache.userId, home, r.sent), home)
  {
    AccountSynced(conn, event, told, home);
    RecalculatingKeepsSynced(Account(conn, event), env, event.id, event, told, home);
  }

  lemma ThreadJoinKeepsSynced(conn: Conn, db: Db, id: Id, user: Id, told: set<Id>, home: Homes)
    requires Synced(conn, told, home) && DbConforms(home, db)
    ensures var r := OnThreadJoin(conn, db, id, user);
      Synced(r.conn, ReplaySent(told, conn.cache.userId, home, r.sent), home)
  {
    if !Subscribed(conn, id) {
      var revealed := Reveal(conn, db, [id]);
      RevealKeepsSynced(conn, db, [id], told, home);
      ReplayLast(told, conn.cache.userId, home, revealed.events, ThreadMemberJoin(id, user));
      ReplayCreates(told, conn.cache.userId, home, revealed.events);
      if revealed.events == [] { assert told + CreatedIds(revealed.events) == told; }
    }
  }
}
