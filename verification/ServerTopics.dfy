/**
The server topics of a connection: held exactly for the cached servers, whatever events arrive
(crates/bonfire/src/events/impl.rs:818-907).
*/
module ServerTopics {
  import opened Sequences
  import opened Subscriptions
  import opened Connection
  import opened Announcements
  import opened Told
  import ActiveHistory

  /** A server's topic is subscribed exactly when the server is cached. */
  ghost predicate ServersHeld(conn: Conn)
  {
    forall s :: ServerTopic(s) in conn.subs.subscribed <==> s in conn.cache.servers
  }

  /** The same servers are cached and the same server topics held. */
  ghost predicate SameServers(a: Conn, b: Conn)
  {
    b.cache.servers.Keys == a.cache.servers.Keys &&
    forall s :: ServerTopic(s) in b.subs.subscribed <==> ServerTopic(s) in a.subs.subscribed
  }

  /** Only cached channels and channel or user topics differ. */
  ghost predicate Untouched(a: Conn, b: Conn)
  {
    b.cache == a.cache.(channels := b.cache.channels) &&
    forall s :: ServerTopic(s) in b.subs.subscribed <==> ServerTopic(s) in a.subs.subscribed
  }

  lemma RevealSame(conn: Conn, db: Db, ids: seq<Id>)
    requires NoDup(ids)
    ensures Untouched(conn, Reveal(conn, db, ids).conn)
  {
    RevealGives(conn, db, ids);
  }

  lemma RecalculateSame(conn: Conn, env: Env, id: Id, event: Event)
    requires NoDup(env.order)
    ensures Untouched(conn, Recalculating(conn, env, id, event).conn)
  {
    if id in conn.cache.servers {
      var prior := CachedOf(conn.cache, env.order, id);
      var sorted := SortAll(conn.cache, conn.subs.subscribed, env.db, prior);
      RecalculateParts(conn, env, id);
      RevealSame(conn, env.db, sorted.revealed);
      var revealed := Reveal(conn, env.db, sorted.revealed);
      HideSummary(revealed.conn, sorted.hidden);
      var hidden := HideAll(Announcing(revealed.conn, []), sorted.hidden);
      var unknowns := (set c | c in conn.cache.servers[id].channels) - (set c | c in prior);
      AdoptSame(hidden, env.db, unknowns);
    }
  }

  lemma AdoptSame(a: Announcing, db: Db, unknowns: set<Id>)
    ensures Untouched(a.conn, AdoptUnknowns(a, db, unknowns).conn)
  {
    if unknowns != {} && db.fetchMany(unknowns).Rows? {
      AdoptSummary(a, Accessible(a.conn.cache, db, db.fetchMany(unknowns).rows));
    }
  }

  lemma PropagateSame(conn: Conn, db: Db, held: set<Topic>, children: seq<Id>, parentEvent: Event)
    requires NoDup(children)
    ensures Untouched(conn, Propagate(conn, db, held, children, parentEvent).conn)
  {
    SweepSummary(conn, db, held, children);
    var swept := SweepAll(Sweep(conn, [], []), db, held, children);
    RevealSame(swept.conn, db, swept.revealed);
  }

  lemma ChannelUpdateSame(conn: Conn, env: Env, id: Id, patch: Content -> Content)
    requires NoDup(env.order)
    ensures Untouched(conn, OnChannelUpdate(conn, env, id, patch).conn)
  {
    var db, held := env.db, conn.subs.subscribed;
    var children := ChildrenOf(conn.cache, env.order, id);
    var updated := Updated(conn, db, id, patch);
    if id in updated.cache.channels {
      var ch := updated.cache.channels[id];
      var canView, couldView := CanView(updated.cache, db, ch), CouldView(conn, db, id);
      if canView && !couldView && id in conn.cache.channels {
        RevealSame(updated, db, [id]);
        var revealed := Reveal(updated, db, [id]);
        if revealed.events != [] { PropagateSame(revealed.conn, db, held, children, revealed.events[0]); }
      } else if canView && !couldView {
        PropagateSame(updated, db, held, children, ChannelCreate(id, ch));
      } else if couldView && !canView {
        PropagateSame(updated, db, held, children, ChannelDelete(id));
      } else if canView {
        PropagateSame(updated, db, held, children, ChannelUpdate(id, patch));
      }
    }
  }

  /** Leaving or losing a server takes its topic, its row, its membership and its member topic; no other server's. */
  ghost predicate Left(conn: Conn, r: Conn, id: Id)
  {
    && r.cache.servers == conn.cache.servers - {id} && r.cache.members == conn.cache.members - {id}
    && (forall s :: ServerTopic(s) in r.subs.subscribed <==> ServerTopic(s) in conn.subs.subscribed && s != id)
    && MemberTopic(id) !in r.memberTopics && MemberTopic(id) in r.removals
    && (forall e :: e in conn.active && e.key != id ==> e in r.active)
    && (forall e :: e in r.active ==> e in conn.active)
    && (ActiveHistory.DistinctKeys(conn.active) ==> forall e :: e in r.active ==> e.key != id)
  }

  lemma RemovedFromActive(entries: seq<ActiveHistory.Entry>, id: Id)
    ensures var r := ActiveHistory.RemoveKey(entries, id);
      && (forall e :: e in entries && e.key != id ==> e in r) && (forall e :: e in r ==> e in entries)
      && (ActiveHistory.DistinctKeys(entries) ==> forall e :: e in r ==> e.key != id)
  {
    var i := ActiveHistory.Position(entries, id);
    if i < |entries| { assert entries == entries[..i] + [entries[i]] + entries[i + 1..]; }
  }

  lemma LeaveLeaves(conn: Conn, order: seq<Id>, id: Id)
    ensures Left(conn, LeaveServer(conn, order, id), id)
  {
    var c0 := Unsubscribe(conn, ServerTopic(id));
    var listed := if id in c0.cache.servers then c0.cache.servers[id].channels else [];
    var bare := c0.(cache := c0.cache.(servers := c0.cache.servers - {id}));
    DropSummary(bare, listed);
    var c1 := DropAll(bare, listed);
    if id !in c0.cache.servers { assert bare == c0 == c1; }
    DropSummary(c1, CachedOf(c1.cache, order, id));
    RemovedFromActive(conn.active, id);
  }

  /** After a self-leave, or a deletion, nothing of the server is left; the event is forwarded. */
  lemma LeaveForgets(conn: Conn, env: Env, id: Id)
    ensures var r := Handle(conn, env, ServerMemberLeave(id, conn.cache.userId));
      Left(conn, r.conn, id) && r.sent == Some(ServerMemberLeave(id, conn.cache.userId))
    ensures var r := Handle(conn, env, ServerDelete(id));
      Left(conn, r.conn, id) && r.sent == Some(ServerDelete(id))
  {
    LeaveLeaves(conn, env.order, id);
  }

  /** A join installs the server and the blank member, and its topic. */
  lemma JoinInstalls(conn: Conn, env: Env, id: Id, server: Server, carried: seq<Row>)
    requires NoDup(env.order)
    ensures var r := Handle(conn, env, ServerCreate(id, server, carried)).conn;
      && r.cache.servers == conn.cache.servers[id := server]
      && r.cache.members == conn.cache.members[id := Member({}, 0)]
      && forall s :: ServerTopic(s) in r.subs.subscribed <==> ServerTopic(s) in conn.subs.subscribed || s == id
  {
    var installed := InstallServer(conn, id, server);
    CarrySummary(installed, carried);
    var joined := Joined(conn, id, server, carried);
    RecalculateSame(joined, env, id, ServerCreate(id, server, carried));
  }

  /** Whatever the event, server topics stay those of the cached servers. */
  lemma HandleKeepsServers(conn: Conn, env: Env, event: Event)
    requires ServersHeld(conn) && NoDup(env.order)
    ensures ServersHeld(Handle(conn, env, event).conn)
  {
    match event
    case ServerCreate(id, server, carried) => JoinInstalls(conn, env, id, server, carried);
    case ServerMemberLeave(id, _) => LeaveLeaves(conn, env.order, id);
    case ServerDelete(id) => LeaveLeaves(conn, env.order, id);
    case _ => OthersSame(conn, env, event);
  }

  lemma OthersSame(conn: Conn, env: Env, event: Event)
    requires NoDup(env.order) && !event.ServerCreate? && !event.ServerMemberLeave? && !event.ServerDelete?
    ensures SameServers(conn, Handle(conn, env, event).conn)
  {
    match event
    case ChannelUpdate(id, patch) => ChannelUpdateSame(conn, env, id, patch);
    case ThreadMemberJoin(id, _) => RevealSame(conn, env.db, [id]);
    case ServerUpdate(_, _, _) => AccountSame(conn, env, event);
    case ServerMemberUpdate(_, _, _, _) => AccountSame(conn, env, event);
    case ServerRoleUpdate(_, _, _, _) => AccountSame(conn, env, event);
    case ServerRoleDelete(_, _) => AccountSame(conn, env, event);
    case _ => PlainSame(conn, env, event);
  }

  lemma PlainSame(conn: Conn, env: Env, event: Event)
    requires event.ChannelCreate? || event.ChannelDelete? || event.ChannelGroupJoin? || event.ChannelGroupLeave?
      || event.UserRelationship? || event.ThreadMemberLeave? || event.Bulk? || event.Other?
    ensures SameServers(conn, Handle(conn, env, event).conn)
  {
  }

  lemma AccountSame(conn: Conn, env: Env, event: Event)
    requires IsAccountEvent(event) && NoDup(env.order)
    ensures SameServers(conn, OnAccountEvent(conn, env, event).conn)
  {
    var updated := Account(conn, event);
    assert updated.cache.servers.Keys == conn.cache.servers.Keys;
    RecalculateSame(updated, env, event.id, event);
  }
}
