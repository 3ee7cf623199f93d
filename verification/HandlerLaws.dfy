/**
What each arm of the event handler does, over the rows and the permission answer themselves
(crates/bonfire/src/events/impl.rs:625-1058): what is cached, what is subscribed and what is forwarded.
*/
module HandlerLaws {
  import opened Sequences
  import opened Subscriptions
  import opened Connection
  import opened Announcements
  import opened Told
  import opened Recalculation
  import opened ServerTopics

  /** Whether the cached member of `server` may view the top-level channel `ch`. */
  ghost predicate Views(cache: Cache, db: Db, server: Id, ch: Channel)
  {
    db.view(Get(cache.members, server), Get(cache.servers, server), ch)
  }

  /** A thread is viewed as its parent is: the cached copy, else the stored row, which must be a top-level channel. */
  ghost predicate ViewsParent(cache: Cache, db: Db, server: Id, parent: Id)
  {
    var row := if parent in cache.channels then Some(cache.channels[parent]) else db.fetchOne(parent);
    row.Some? && row.value.ServerChannel? && Views(cache, db, server, row.value)
  }

  /** What comes first of what is forwarded. */
  ghost function First(e: Event): Event
  {
    if e.Bulk? && e.v != [] then e.v[0] else e
  }

  ghost predicate SendsFirst(sent: Option<Event>, e: Event)
  {
    sent.Some? && First(sent.value) == e
  }

  // ----- ChannelUpdate -----

  /** Passing an update on to the threads of a channel leaves the channel itself alone, and its event first. */
  lemma PropagateLeaves(conn: Conn, db: Db, held: set<Topic>, children: seq<Id>, e: Event, id: Id)
    requires NoDup(children) && id !in children && !e.Bulk?
    ensures var p := Propagate(conn, db, held, children, e);
      && Get(p.conn.cache.channels, id) == Get(conn.cache.channels, id)
      && (Subscribed(p.conn, id) <==> Subscribed(conn, id)) && First(p.event) == e
  {
    SweepSummary(conn, db, held, children);
    var swept := SweepAll(Sweep(conn, [], []), db, held, children);
    RevealGives(swept.conn, db, swept.revealed);
    var revealed := Reveal(swept.conn, db, swept.revealed);
    assert id !in IdSet(swept.revealed) && id !in IdSet(NewlyHidden(conn.cache, db, held, children));
    assert ([e] + (swept.deletes + revealed.events))[0] == e;
  }

  /** The row as it is read again when a cached channel becomes visible. */
  ghost function Reread(db: Db, id: Id): Option<Channel>
  {
    if FreshRows(db, [id]).Some? then Get(FreshRows(db, [id]).value, id) else None
  }

  /**
  Rows are read again together; when that says NotFound (one of them is gone), each on its own; when it fails, not
  at all.
  */
  lemma RereadLaw(db: Db, ids: seq<Id>)
    ensures var wanted := set c | c in ids;
      && (db.fetchMany(wanted).Failed? <==> FreshRows(db, ids).None?)
      && (db.fetchMany(wanted).NotFound? ==>
            forall c :: c in ids ==> Get(FreshRows(db, ids).value, c) == db.fetchOne(c))
      && (db.fetchMany(wanted).Rows? && DistinctRows(db.fetchMany(wanted).rows) ==>
            forall c, ch :: Get(FreshRows(db, ids).value, c) == Some(ch) <==> Row(c, ch) in db.fetchMany(wanted).rows)
  {
    var wanted := set c | c in ids;
    if db.fetchMany(wanted).Rows? && DistinctRows(db.fetchMany(wanted).rows) {
      var rows := db.fetchMany(wanted).rows;
      forall c, ch ensures Get(RowMap(rows), c) == Some(ch) <==> Row(c, ch) in rows {
        if Row(c, ch) in rows {
          assert c in RowMap(rows) && Row(c, RowMap(rows)[c]) in rows;
          OneRow(rows, c, ch, RowMap(rows)[c]);
        }
      }
    }
  }

  lemma OneRow(rows: seq<Row>, c: Id, a: Channel, b: Channel)
    requires DistinctRows(rows) && Row(c, a) in rows && Row(c, b) in rows
    ensures a == b
  {
    var i :| 0 <= i < |rows| && rows[i] == Row(c, a);
    var j :| 0 <= j < |rows| && rows[j] == Row(c, b);
    assert i == j;
  }

  /** A failed read reveals nothing and leaves everything as it was. */
  lemma FailedReadLaw(conn: Conn, db: Db, ids: seq<Id>)
    requires db.fetchMany(set c | c in ids).Failed?
    ensures Reveal(conn, db, ids) == Revealed(conn, [])
  {
  }

  /** What a `ChannelUpdate` leaves of its channel and sends first, by what the client knew and what it may see now. */
  ghost predicate UpdateOutcome(env: Env, id: Id, patch: Content -> Content, told: bool, sees: bool, row: Channel,
                                again: bool, r: Outcome)
  {
    if told && sees then
      && SendsFirst(r.sent, ChannelUpdate(id, patch)) && Subscribed(r.conn, id)
      && Get(r.conn.cache.channels, id) == Some(row)
    else if told then
      SendsFirst(r.sent, ChannelDelete(id)) && !Subscribed(r.conn, id) && Get(r.conn.cache.channels, id) == Some(row)
    else if !sees then
      r.sent.None? && !Subscribed(r.conn, id) && Get(r.conn.cache.channels, id) == Some(row)
    else if Reread(env.db, id).Some? && again then
      && SendsFirst(r.sent, ChannelCreate(id, Reread(env.db, id).value)) && Subscribed(r.conn, id)
      && Get(r.conn.cache.channels, id) == Reread(env.db, id)
    else r.sent.None? && !Subscribed(r.conn, id)
  }

  /** One id is revealed exactly when its row can be read again and is visible. */
  lemma RevealOneIff(conn: Conn, db: Db, id: Id)
    ensures var r := Reveal(conn, db, [id]);
      if Reread(db, id).Some? && CanView(conn.cache, db, Reread(db, id).value) then
        && r.events == [ChannelCreate(id, Reread(db, id).value)] && Subscribed(r.conn, id)
        && Get(r.conn.cache.channels, id) == Reread(db, id)
      else r.events == [] && (Subscribed(r.conn, id) <==> Subscribed(conn, id))
  {
    if FreshRows(db, [id]).Some? {
      var start := Revealing(conn, FreshRows(db, [id]).value, [], []);
      assert [id][..0] == [];
      assert RevealAll(start, db, [id][..0]) == start;
      assert RevealAll(start, db, [id]) == RevealStep(start, db, id);
    }
  }

  lemma CachedUpdate(conn: Conn, env: Env, id: Id, patch: Content -> Content)
    requires NoDup(env.order) && id in conn.cache.channels && !conn.cache.channels[id].Direct?
    requires id !in ChildrenOf(conn.cache, env.order, id)
    ensures var row := Patch(conn.cache.channels[id], patch);
      var cache := conn.cache.(channels := conn.cache.channels[id := row]);
      UpdateOutcome(env, id, patch, Subscribed(conn, id), CanView(cache, env.db, row), row,
                    Reread(env.db, id).Some? && CanView(cache, env.db, Reread(env.db, id).value),
                    Handle(conn, env, ChannelUpdate(id, patch)))
  {
    var db, held := env.db, conn.subs.subscribed;
    var children := ChildrenOf(conn.cache, env.order, id);
    var row := Patch(conn.cache.channels[id], patch);
    var updated := conn.(cache := conn.cache.(channels := conn.cache.channels[id := row]));
    assert Updated(conn, db, id, patch) == updated;
    assert CouldView(conn, db, id) == Subscribed(conn, id);
    if CanView(updated.cache, db, row) && !Subscribed(conn, id) {
      RevealOneIff(updated, db, id);
      var revealed := Reveal(updated, db, [id]);
      if revealed.events != [] { PropagateLeaves(revealed.conn, db, held, children, revealed.events[0], id); }
    } else if Subscribed(conn, id) {
      PropagateLeaves(updated, db, held, children, ChannelDelete(id), id);
      PropagateLeaves(updated, db, held, children, ChannelUpdate(id, patch), id);
    }
  }

  /**
  An update of a cached top-level channel patches its content. Told and still viewable: the update is forwarded.
  Told and no longer: a deletion, and it is unsubscribed. Not told and now viewable: it is announced from its row,
  read again, if that is viewable too. Otherwise nothing is sent.
  */
  lemma ChannelUpdateLaw(conn: Conn, env: Env, id: Id, patch: Content -> Content, server: Id, content: Content)
    requires NoDup(env.order) && Get(conn.cache.channels, id) == Some(ServerChannel(server, content))
    requires Reread(env.db, id).Some? ==> Reread(env.db, id).value.ServerChannel?
    ensures var row := ServerChannel(server, patch(content));
      UpdateOutcome(env, id, patch, ChannelTopic(id) in conn.subs.subscribed,
                    Views(conn.cache, env.db, server, row), row,
                    Reread(env.db, id).Some? &&
                      Views(conn.cache, env.db, Reread(env.db, id).value.server, Reread(env.db, id).value),
                    Handle(conn, env, ChannelUpdate(id, patch)))
  {
    CachedUpdate(conn, env, id, patch);
  }

  /** The same for a thread, which is viewed as its parent is. */
  lemma ThreadUpdateLaw(conn: Conn, env: Env, id: Id, patch: Content -> Content, server: Id, parent: Id,
                        content: Content)
    requires NoDup(env.order) && Get(conn.cache.channels, id) == Some(Thread(server, parent, content)) && parent != id
    requires Reread(env.db, id).Some? ==>
      Reread(env.db, id).value == Thread(server, parent, Reread(env.db, id).value.content)
    ensures var sees := ViewsParent(conn.cache, env.db, server, parent);
      UpdateOutcome(env, id, patch, ChannelTopic(id) in conn.subs.subscribed, sees,
                    Thread(server, parent, patch(content)), sees, Handle(conn, env, ChannelUpdate(id, patch)))
  {
    CachedUpdate(conn, env, id, patch);
  }

  /** A direct channel is patched and its update forwarded. */
  lemma DirectUpdateLaw(conn: Conn, env: Env, id: Id, patch: Content -> Content, recipients: set<Id>, content: Content)
    requires NoDup(env.order) && Get(conn.cache.channels, id) == Some(Direct(recipients, content))
    ensures var r := Handle(conn, env, ChannelUpdate(id, patch));
      && SendsFirst(r.sent, ChannelUpdate(id, patch)) && (Subscribed(r.conn, id) <==> Subscribed(conn, id))
      && Get(r.conn.cache.channels, id) == Some(Direct(recipients, patch(content)))
  {
    var children := ChildrenOf(conn.cache, env.order, id);
    var row := Direct(recipients, patch(content));
    var updated := conn.(cache := conn.cache.(channels := conn.cache.channels[id := row]));
    assert Updated(conn, env.db, id, patch) == updated;
    PropagateLeaves(updated, env.db, conn.subs.subscribed, children, ChannelUpdate(id, patch), id);
  }

  /** An update of an uncached channel caches the stored row, and announces it if it is viewable. */
  lemma UncachedUpdateLaw(conn: Conn, env: Env, id: Id, patch: Content -> Content, server: Id, content: Content)
    requires NoDup(env.order) && id !in conn.cache.channels && !Subscribed(conn, id)
    ensures var r := Handle(conn, env, ChannelUpdate(id, patch));
      env.db.fetchOne(id).None? ==> r == Outcome(conn, None)
    ensures var r, row := Handle(conn, env, ChannelUpdate(id, patch)), ServerChannel(server, content);
      env.db.fetchOne(id) == Some(row) ==>
        && Get(r.conn.cache.channels, id) == Some(row)
        && (Subscribed(r.conn, id) <==> Views(conn.cache, env.db, server, row))
        && (if Views(conn.cache, env.db, server, row) then SendsFirst(r.sent, ChannelCreate(id, row)) else r.sent.None?)
  {
    var row := ServerChannel(server, content);
    if env.db.fetchOne(id) == Some(row) {
      var children := ChildrenOf(conn.cache, env.order, id);
      var updated := conn.(cache := conn.cache.(channels := conn.cache.channels[id := row]));
      PropagateLeaves(updated, env.db, conn.subs.subscribed, children, ChannelCreate(id, row), id);
    }
  }

  // ----- create, delete and thread membership -----

  /** A channel created for this connection is cached, subscribed and announced exactly when it is viewable. */
  lemma ChannelCreateLaw(conn: Conn, env: Env, id: Id, server: Id, content: Content)
    requires !Subscribed(conn, id)
    ensures var row := ServerChannel(server, content);
      var r := Handle(conn, env, ChannelCreate(id, row));
      if Views(conn.cache, env.db, server, row) then
        && r.sent == Some(ChannelCreate(id, row)) && Subscribed(r.conn, id)
        && r.conn.cache.channels == conn.cache.channels[id := row]
      else r == Outcome(conn, None)
  {
  }

  /** A hidden thread stays cached, for a later grant to find. */
  lemma ThreadCreateLaw(conn: Conn, env: Env, id: Id, server: Id, parent: Id, content: Content)
    requires !Subscribed(conn, id)
    ensures var row := Thread(server, parent, content);
      var r := Handle(conn, env, ChannelCreate(id, row));
      && r.conn.cache.channels == conn.cache.channels[id := row]
      && (Subscribed(r.conn, id) <==> ViewsParent(conn.cache, env.db, server, parent))
      && r.sent == if ViewsParent(conn.cache, env.db, server, parent) then Some(ChannelCreate(id, row)) else None
  {
  }

  /** Direct channels are always viewable. */
  lemma DirectCreateLaw(conn: Conn, env: Env, id: Id, recipients: set<Id>, content: Content)
    ensures var row := Direct(recipients, content);
      var r := Handle(conn, env, ChannelCreate(id, row));
      && r.sent == Some(ChannelCreate(id, row)) && Subscribed(r.conn, id)
      && r.conn.cache.channels == conn.cache.channels[id := row]
  {
  }

  /** A deleted channel is unsubscribed and forgotten, and no other. */
  lemma ChannelDeleteLaw(conn: Conn, env: Env, id: Id)
    ensures var r := Handle(conn, env, ChannelDelete(id));
      && r.sent == Some(ChannelDelete(id)) && r.conn.cache == conn.cache.(channels := conn.cache.channels - {id})
      && r.conn.subs.subscribed == conn.subs.subscribed - {ChannelTopic(id)}
  {
  }

  /** Membership events of a thread the client knows are forwarded; of others, only the own join can be. */
  lemma ThreadMembershipLaw(conn: Conn, env: Env, id: Id, user: Id)
    ensures Handle(conn, env, ThreadMemberLeave(id, user)) ==
      Outcome(conn, if Subscribed(conn, id) then Some(ThreadMemberLeave(id, user)) else None)
    ensures Subscribed(conn, id) || user != conn.cache.userId ==>
      Handle(conn, env, ThreadMemberJoin(id, user)) ==
        Outcome(conn, if Subscribed(conn, id) then Some(ThreadMemberJoin(id, user)) else None)
  {
  }

  /** The own join of an unknown stored thread announces it first, exactly when its parent is viewable. */
  lemma OwnThreadJoinLaw(conn: Conn, env: Env, id: Id, server: Id, parent: Id, content: Content)
    requires !Subscribed(conn, id) && env.db.fetchOne(id) == Some(Thread(server, parent, content))
    requires Reread(env.db, id) == env.db.fetchOne(id)
    ensures var row, join := Thread(server, parent, content), ThreadMemberJoin(id, conn.cache.userId);
      var r := Handle(conn, env, join);
      && (Subscribed(r.conn, id) <==> ViewsParent(conn.cache, env.db, server, parent))
      && r.sent ==
        if ViewsParent(conn.cache, env.db, server, parent) then Some(Bulk([ChannelCreate(id, row), join])) else None
  {
    var row, join := Thread(server, parent, content), ThreadMemberJoin(id, conn.cache.userId);
    RevealOneIff(conn, env.db, id);
    assert [ChannelCreate(id, row)] + [join] == [ChannelCreate(id, row), join];
  }

  /** A join of what is not stored as a thread is dropped. */
  lemma NoThreadJoinLaw(conn: Conn, env: Env, id: Id)
    requires !Subscribed(conn, id) && (env.db.fetchOne(id).None? || !env.db.fetchOne(id).value.Thread?)
    ensures Handle(conn, env, ThreadMemberJoin(id, conn.cache.userId)) == Outcome(conn, None)
  {
  }

  // ----- users and groups -----

  /** A reason to follow a user: oneself, a relationship, or a direct channel shared with them. */
  ghost predicate SharesDirect(cache: Cache, user: Id)
  {
    exists c :: c in cache.channels && cache.channels[c].Direct? && user in cache.channels[c].recipients
  }

  /** A user who leaves a group stays followed exactly when there is another reason; the own leave drops the group. */
  lemma GroupLaw(conn: Conn, env: Env, id: Id, user: Id)
    requires conn.cache.userId in conn.cache.users
    ensures var r := Handle(conn, env, ChannelGroupJoin(id, user));
      && r.sent == Some(ChannelGroupJoin(id, user)) && r.conn.cache == conn.cache
      && r.conn.subs.subscribed == conn.subs.subscribed + {UserTopic(user)}
    ensures var r := Handle(conn, env, ChannelGroupLeave(id, user));
      && r.sent == Some(ChannelGroupLeave(id, user)) && r.conn.cache == conn.cache
      && r.conn.subs.subscribed == conn.subs.subscribed -
        if user == conn.cache.userId then {ChannelTopic(id)}
        else if user in conn.cache.users[conn.cache.userId] || SharesDirect(conn.cache, user) then {}
        else {UserTopic(user)}
  {
  }

  /** A changed relationship is cached, and the user followed exactly when there is a reason. */
  lemma RelationshipLaw(conn: Conn, env: Env, id: Id, related: set<Id>)
    requires conn.cache.userId in conn.cache.users
    ensures var r := Handle(conn, env, UserRelationship(id, related));
      && r.sent == Some(UserRelationship(id, related))
      && r.conn.cache == conn.cache.(users := conn.cache.users[id := related])
      && (forall t :: t != UserTopic(id) ==> (t in r.conn.subs.subscribed <==> t in conn.subs.subscribed))
      && (UserTopic(id) in r.conn.subs.subscribed <==>
            id == conn.cache.userId || id in conn.cache.users[conn.cache.userId] || SharesDirect(conn.cache, id))
  {
  }

  /** Somebody else's leave, and every event not listed, is forwarded and changes nothing. */
  lemma ForeignLaw(conn: Conn, env: Env, id: Id, user: Id)
    requires user != conn.cache.userId
    ensures Handle(conn, env, ServerMemberLeave(id, user)) == Outcome(conn, Some(ServerMemberLeave(id, user)))
    ensures Handle(conn, env, Other) == Outcome(conn, Some(Other))
  {
  }

  // ----- servers, members and roles -----

  /** The event that caused a recalculation is forwarded, last, after the channels it changed. */
  ghost predicate ForwardsLast(sent: Option<Event>, event: Event)
  {
    sent.Some? &&
    (sent.value == event ||
     (sent.value.Bulk? && |sent.value.v| >= 2 && sent.value.v[|sent.value.v| - 1] == event &&
      forall i :: 0 <= i < |sent.value.v| - 1 ==> sent.value.v[i].ChannelCreate? || sent.value.v[i].ChannelDelete?))
  }

  /** Every cached channel of the server is subscribed exactly when this member of this server may view it. */
  ghost predicate ExactUnder(conn: Conn, db: Db, id: Id, member: Option<Member>, server: Option<Server>)
  {
    && Get(conn.cache.members, id) == member && Get(conn.cache.servers, id) == server
    && (forall c, content :: Get(conn.cache.channels, c) == Some(ServerChannel(id, content)) ==>
          (ChannelTopic(c) in conn.subs.subscribed <==> db.view(member, server, ServerChannel(id, content))))
    && (forall c, p, content :: Get(conn.cache.channels, c) == Some(Thread(id, p, content)) ==>
          (ChannelTopic(c) in conn.subs.subscribed <==> ViewsParent(conn.cache, db, id, p)))
  }

  lemma ExactMeans(conn: Conn, db: Db, id: Id, rows: map<Id, Channel>)
    requires Exact(conn, db, id, rows)
    ensures ExactUnder(conn, db, id, Get(conn.cache.members, id), Get(conn.cache.servers, id))
  {
    forall c, content | Get(conn.cache.channels, c) == Some(ServerChannel(id, content))
      ensures ChannelTopic(c) in conn.subs.subscribed <==> Views(conn.cache, db, id, ServerChannel(id, content))
    {
      assert BelongsTo(conn.cache, id, c) && (Subscribed(conn, c) <==> Visible(conn.cache, db, c));
    }
    forall c, p, content | Get(conn.cache.channels, c) == Some(Thread(id, p, content))
      ensures ChannelTopic(c) in conn.subs.subscribed <==> ViewsParent(conn.cache, db, id, p)
    {
      assert BelongsTo(conn.cache, id, c) && (Subscribed(conn, c) <==> Visible(conn.cache, db, c));
    }
  }

  /** What a recalculation of a settled state leaves and forwards. */
  lemma RecalculatedLaw(conn: Conn, env: Env, id: Id, event: Event, rows: map<Id, Channel>, told: set<Id>, home: Homes)
    requires Settled(conn, env, id, rows, told, home)
    ensures var r := Recalculating(conn, env, id, event);
      && ExactUnder(r.conn, env.db, id, Get(conn.cache.members, id), Get(conn.cache.servers, id))
      && ForwardsLast(r.sent, event)
  {
    RecalculationIsExact(conn, env, id, rows, told, home);
    var r := RecalculateBulk(conn, env, id);
    ExactMeans(r.conn, env.db, id, rows);
    RecalculateSame(conn, env, id, event);
    RecalculationForwards(conn, env, id, event);
  }

  lemma RecalculationForwards(conn: Conn, env: Env, id: Id, event: Event)
    requires NoDup(env.order)
    ensures ForwardsLast(Recalculating(conn, env, id, event).sent, event)
  {
    if id in conn.cache.servers { OnlyAnnounces(conn, env, id); }
  }

  /** A new server is installed with the blank member, and the event forwarded after what it changes. */
  lemma ServerCreateLaw(conn: Conn, env: Env, id: Id, server: Server, carried: seq<Row>)
    requires NoDup(env.order)
    ensures var event := ServerCreate(id, server, carried);
      var r := Handle(conn, env, event);
      && r.conn.cache.servers == conn.cache.servers[id := server]
      && r.conn.cache.members == conn.cache.members[id := Member({}, 0)]
      && ServerTopic(id) in r.conn.subs.subscribed && ForwardsLast(r.sent, event)
  {
    JoinInstalls(conn, env, id, server, carried);
    RecalculationForwards(Joined(conn, id, server, carried), env, id, ServerCreate(id, server, carried));
  }

  lemma OnlyAnnounces(conn: Conn, env: Env, id: Id)
    requires id in conn.cache.servers && NoDup(env.order)
    ensures forall e :: e in RecalculateBulk(conn, env, id).events ==> e.ChannelCreate? || e.ChannelDelete?
  {
    RecalculateShape(conn, env, id);
    RecalculateParts(conn, env, id);
    RevealGives(conn, env.db, SortedOf(conn, env, id).revealed);
    CreatedIdsOfRows(Adopted(conn, env, id));
  }

  /** A connection with the membership row of `id` patched, if there is one. */
  ghost function WithMember(conn: Conn, id: Id, patch: Member -> Member): Conn
  {
    if id !in conn.cache.members then conn
    else conn.(cache := conn.cache.(members := conn.cache.members[id := patch(conn.cache.members[id])]))
  }

  /** A connection with the row of server `id` replaced. */
  ghost function WithServer(conn: Conn, id: Id, server: Server): Conn
  {
    conn.(cache := conn.cache.(servers := conn.cache.servers[id := server]))
  }

  /**
  The own membership changed: the row is patched; if the roles were touched every channel of the server is then
  subscribed exactly when the patched member may view it. Other members' updates are only forwarded.
  */
  lemma MemberUpdateLaw(conn: Conn, env: Env, id: Id, patch: Member -> Member, rows: map<Id, Channel>, told: set<Id>,
                        home: Homes)
    requires Settled(WithMember(conn, id, patch), env, id, rows, told, home)
    ensures var event := ServerMemberUpdate(id, conn.cache.userId, patch, true);
      var r := Handle(conn, env, event);
      && ExactUnder(r.conn, env.db, id, Get(WithMember(conn, id, patch).cache.members, id), Get(conn.cache.servers, id))
      && ForwardsLast(r.sent, event)
  {
    RecalculatedLaw(WithMember(conn, id, patch), env, id, ServerMemberUpdate(id, conn.cache.userId, patch, true),
                    rows, told, home);
  }

  lemma QuietMemberUpdateLaw(conn: Conn, env: Env, id: Id, user: Id, patch: Member -> Member, touched: bool)
    requires user != conn.cache.userId || !touched
    ensures var event := ServerMemberUpdate(id, user, patch, touched);
      Handle(conn, env, event) ==
        Outcome(if user == conn.cache.userId then WithMember(conn, id, patch) else conn, Some(event))
  {
  }

  /** A server row is patched; if default permissions changed, its channels are subscribed as the new row says. */
  lemma ServerUpdateLaw(conn: Conn, env: Env, id: Id, patch: Server -> Server, rows: map<Id, Channel>, told: set<Id>,
                        home: Homes)
    requires id in conn.cache.servers
    requires Settled(WithServer(conn, id, patch(conn.cache.servers[id])), env, id, rows, told, home)
    ensures var event := ServerUpdate(id, patch, true);
      var r := Handle(conn, env, event);
      && ExactUnder(r.conn, env.db, id, Get(conn.cache.members, id), Some(patch(conn.cache.servers[id])))
      && ForwardsLast(r.sent, event)
    ensures var event := ServerUpdate(id, patch, false);
      Handle(conn, env, event) == Outcome(WithServer(conn, id, patch(conn.cache.servers[id])), Some(event))
  {
    RecalculatedLaw(WithServer(conn, id, patch(conn.cache.servers[id])), env, id, ServerUpdate(id, patch, true),
                    rows, told, home);
  }

  /** The server with one role's row patched, if it has that role. */
  ghost function WithRole(server: Server, role: Id, patch: Content -> Content): Server
  {
    if role !in server.roles then server
    else Server(server.channels, server.roles[role := patch(server.roles[role])], server.content)
  }

  ghost predicate Holds(conn: Conn, id: Id, role: Id)
  {
    id in conn.cache.members && role in conn.cache.members[id].roles
  }

  /** A role is patched; if its rank or permissions changed and the member holds it, the channels follow. */
  lemma RoleUpdateLaw(conn: Conn, env: Env, id: Id, role: Id, patch: Content -> Content, ranked: bool,
                      rows: map<Id, Channel>, told: set<Id>, home: Homes)
    requires id in conn.cache.servers
    requires Settled(WithServer(conn, id, WithRole(conn.cache.servers[id], role, patch)), env, id, rows, told, home)
    ensures var event := ServerRoleUpdate(id, role, patch, ranked);
      var r, server := Handle(conn, env, event), WithRole(conn.cache.servers[id], role, patch);
      if ranked && Holds(conn, id, role) then
        ExactUnder(r.conn, env.db, id, Get(conn.cache.members, id), Some(server)) && ForwardsLast(r.sent, event)
      else r == Outcome(WithServer(conn, id, server), Some(event))
  {
    var server, event := WithRole(conn.cache.servers[id], role, patch), ServerRoleUpdate(id, role, patch, ranked);
    RolePatched(conn, id, role, patch, ranked);
    RecalculatedLaw(WithServer(conn, id, server), env, id, event, rows, told, home);
    assert Handle(conn, env, event) == OnAccountEvent(conn, env, event);
  }

  lemma RolePatched(conn: Conn, id: Id, role: Id, patch: Content -> Content, ranked: bool)
    requires id in conn.cache.servers
    ensures var event := ServerRoleUpdate(id, role, patch, ranked);
      && Account(conn, event) == WithServer(conn, id, WithRole(conn.cache.servers[id], role, patch))
      && (Recalculates(Account(conn, event).cache, event) <==> ranked && Holds(conn, id, role))
  {
    if role !in conn.cache.servers[id].roles { SameRow(conn, id); }
  }

  /** A deleted role is gone from the server; if the member held it, the channels follow. */
  lemma RoleDeleteLaw(conn: Conn, env: Env, id: Id, role: Id, rows: map<Id, Channel>, told: set<Id>, home: Homes)
    requires id in conn.cache.servers
    requires var was := conn.cache.servers[id];
      Settled(WithServer(conn, id, Server(was.channels, was.roles - {role}, was.content)), env, id, rows, told, home)
    ensures var event := ServerRoleDelete(id, role);
      var was := conn.cache.servers[id];
      var r, server := Handle(conn, env, event), Server(was.channels, was.roles - {role}, was.content);
      if Holds(conn, id, role) then
        ExactUnder(r.conn, env.db, id, Get(conn.cache.members, id), Some(server)) && ForwardsLast(r.sent, event)
      else r == Outcome(WithServer(conn, id, server), Some(event))
  {
    var was := conn.cache.servers[id];
    RecalculatedLaw(WithServer(conn, id, Server(was.channels, was.roles - {role}, was.content)), env, id,
                    ServerRoleDelete(id, role), rows, told, home);
  }

  lemma SameRow(conn: Conn, id: Id)
    requires id in conn.cache.servers
    ensures WithServer(conn, id, conn.cache.servers[id]) == conn
  {
    assert conn.cache.servers[id := conn.cache.servers[id]] == conn.cache.servers;
  }

  /** An event about a server that is not cached changes no server row, and is forwarded alone. */
  lemma UncachedServerLaw(conn: Conn, env: Env, id: Id, role: Id, patch: Content -> Content,
                          serverPatch: Server -> Server, flag: bool)
    requires id !in conn.cache.servers
    ensures Handle(conn, env, ServerUpdate(id, serverPatch, flag)) ==
      Outcome(conn, Some(ServerUpdate(id, serverPatch, flag)))
    ensures Handle(conn, env, ServerRoleUpdate(id, role, patch, flag)) ==
      Outcome(conn, Some(ServerRoleUpdate(id, role, patch, flag)))
    ensures Handle(conn, env, ServerRoleDelete(id, role)) == Outcome(conn, Some(ServerRoleDelete(id, role)))
  {
  }
}
