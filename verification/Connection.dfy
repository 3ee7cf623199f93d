/**
One Bonfire connection as a value: the cache, the subscriptions and what every
incoming event does to them (crates/bonfire/src/events/impl.rs).

Hash-map iteration order is a parameter (`Env.order`), database reads are an
oracle (`Db`), and the permission calculation is the function `Db.view`.
*/
module Connection {
  import opened Sequences
  import opened Subscriptions
  import ActiveHistory

  /** Everything in a row this model only carries around: names, overrides, flags. */
  type Content = int

  /** `ServerChannel` is a text channel or a forum; `Direct` is a DM, a group or saved messages. */
  datatype Channel =
    | Direct(recipients: set<Id>, content: Content)
    | ServerChannel(server: Id, content: Content)
    | Thread(server: Id, parent: Id, content: Content)

  /** `Channel::server()`. */
  function ServerOf(ch: Channel): (r: Option<Id>)
  {
    match ch
    case Direct(_, _) => None
    case ServerChannel(s, _) => Some(s)
    case Thread(s, _, _) => Some(s)
  }

  /** `remove_field` / `apply_options`: a partial update never changes the variant, server or parent. */
  function Patch(ch: Channel, patch: Content -> Content): (r: Channel)
  {
    ch.(content := patch(ch.content))
  }

  datatype Server = Server(channels: seq<Id>, roles: map<Id, Content>, content: Content)

  datatype Member = Member(roles: set<Id>, content: Content)

  /** The member `ServerCreate` installs: no roles, everything else default. */
  const BLANK_MEMBER := Member({}, 0)

  datatype Cache = Cache(
    userId: Id,
    isBot: bool,
    users: map<Id, set<Id>>,
    servers: map<Id, Server>,
    members: map<Id, Member>,
    channels: map<Id, Channel>)

  datatype Row = Row(id: Id, channel: Channel)

  /** Outcome of reading several channels at once. */
  datatype Read = Rows(rows: seq<Row>) | NotFound | Failed

  /** What the database and the permission calculation answer while one event is handled. */
  datatype Db = Db(
    fetchOne: Id -> Option<Channel>,
    fetchMany: set<Id> -> Read,
    view: (Option<Member>, Option<Server>, Channel) -> bool)

  datatype Env = Env(db: Db, order: seq<Id>)

  datatype Event =
    | ChannelCreate(id: Id, channel: Channel)
    | ChannelUpdate(id: Id, patch: Content -> Content)
    | ChannelDelete(id: Id)
    | ChannelGroupJoin(id: Id, user: Id)
    | ChannelGroupLeave(id: Id, user: Id)
    | ServerCreate(id: Id, server: Server, carried: seq<Row>)
    | ServerUpdate(id: Id, serverPatch: Server -> Server, defaultPermissions: bool)
    | ServerMemberLeave(id: Id, user: Id)
    | ServerDelete(id: Id)
    | ServerMemberUpdate(id: Id, user: Id, memberPatch: Member -> Member, rolesTouched: bool)
    | ServerRoleUpdate(id: Id, role: Id, patch: Content -> Content, ranked: bool)
    | ServerRoleDelete(id: Id, role: Id)
    | UserRelationship(id: Id, related: set<Id>)
    | ThreadMemberJoin(id: Id, user: Id)
    | ThreadMemberLeave(id: Id, user: Id)
    | Bulk(v: seq<Event>)
    | Other

  datatype Conn = Conn(
    cache: Cache,
    subs: Subs,
    memberTopics: set<Topic>,
    removals: set<Topic>,
    active: seq<ActiveHistory.Entry>)

  /** The state after an event, and the event to forward (`None` when the handler returns false). */
  datatype Outcome = Outcome(conn: Conn, sent: Option<Event>)

  function Subscribed(conn: Conn, id: Id): (r: bool)
  {
    ChannelTopic(id) in conn.subs.subscribed
  }

  function Subscribe(conn: Conn, t: Topic): (r: Conn)
    ensures r == conn.(subs := r.subs)
    ensures r.subs.queue.Reset? <==> conn.subs.queue.Reset?
  {
    conn.(subs := Insert(conn.subs, t))
  }

  function Unsubscribe(conn: Conn, t: Topic): (r: Conn)
    ensures r == conn.(subs := r.subs)
    ensures r.subs.queue.Reset? <==> conn.subs.queue.Reset?
  {
    conn.(subs := Remove(conn.subs, t))
  }

  function CacheChannel(conn: Conn, id: Id, ch: Channel): (r: Conn)
  {
    conn.(cache := conn.cache.(channels := conn.cache.channels[id := ch]))
  }

  function ForgetChannel(conn: Conn, id: Id): (r: Conn)
  {
    conn.(cache := conn.cache.(channels := conn.cache.channels - {id}))
  }

  // ----- visibility -----

  /** The parent a thread takes its visibility from: the cached copy, else the stored row. */
  function ParentOf(cache: Cache, db: Db, parent: Id): (r: Option<Channel>)
  {
    if parent in cache.channels then Some(cache.channels[parent]) else db.fetchOne(parent)
  }

  /** `can_view_channel`. */
  function CanView(cache: Cache, db: Db, ch: Channel): (r: bool)
  {
    match ch
    case Direct(_, _) => true
    case ServerChannel(s, _) => db.view(Get(cache.members, s), Get(cache.servers, s), ch)
    case Thread(s, p, _) =>
      var parent := ParentOf(cache, db, p);
      parent.Some? && parent.value.ServerChannel? &&
      db.view(Get(cache.members, s), Get(cache.servers, s), parent.value)
  }

  /** `can_subscribe_to_user`. */
  predicate CanSubscribeToUser(cache: Cache, user: Id)
  {
    cache.userId in cache.users &&
    (user == cache.userId || user in cache.users[cache.userId] ||
     exists c :: c in cache.channels && cache.channels[c].Direct? && user in cache.channels[c].recipients)
  }

  // ----- reveal_channels -----

  function RowMap(rows: seq<Row>): (r: map<Id, Channel>)
    ensures forall id :: id in r <==> exists row :: row in rows && row.id == id
    ensures forall id :: id in r ==> Row(id, r[id]) in rows
  {
    if rows == [] then map[]
    else
      var last := rows[|rows| - 1];
      assert rows == rows[..|rows| - 1] + [last];
      RowMap(rows[..|rows| - 1])[last.id := last.channel]
  }

  /** The rows `reveal_channels` works from; `None` when the read failed outright. */
  function FreshRows(db: Db, ids: seq<Id>): (r: Option<map<Id, Channel>>)
  {
    match db.fetchMany(set id | id in ids)
    case Rows(rows) => Some(RowMap(rows))
    case NotFound => Some(map id | id in ids && db.fetchOne(id).Some? :: db.fetchOne(id).value)
    case Failed => None
  }

  datatype Revealing = Revealing(conn: Conn, rows: map<Id, Channel>, tops: seq<Event>, threads: seq<Event>)

  function RevealStep(r: Revealing, db: Db, id: Id): (r': Revealing)
    ensures r'.conn.subs.queue.Reset? <==> r.conn.subs.queue.Reset?
    ensures r'.conn.cache.userId == r.conn.cache.userId
  {
    if id !in r.rows then r.(conn := ForgetChannel(r.conn, id))
    else
      var ch := r.rows[id];
      var visible := CanView(r.conn.cache, db, ch);
      var cached := r.(conn := CacheChannel(r.conn, id, ch), rows := r.rows - {id});
      if !visible then cached
      else
        var told := cached.(conn := Subscribe(cached.conn, ChannelTopic(id)));
        if ch.Thread? then told.(threads := told.threads + [ChannelCreate(id, ch)])
        else told.(tops := told.tops + [ChannelCreate(id, ch)])
  }

  function RevealAll(r: Revealing, db: Db, ids: seq<Id>): (r': Revealing)
    ensures r'.conn.subs.queue.Reset? <==> r.conn.subs.queue.Reset?
    ensures r'.conn.cache.userId == r.conn.cache.userId
  {
    if ids == [] then r
    else RevealStep(RevealAll(r, db, ids[..|ids| - 1]), db, ids[|ids| - 1])
  }

  datatype Revealed = Revealed(conn: Conn, events: seq<Event>)

  /** `reveal_channels`. */
  function Reveal(conn: Conn, db: Db, ids: seq<Id>): (r: Revealed)
    ensures r.conn.subs.queue.Reset? <==> conn.subs.queue.Reset?
    ensures r.conn.cache.userId == conn.cache.userId
  {
    if ids == [] then Revealed(conn, [])
    else
      match FreshRows(db, ids)
      case None => Revealed(conn, [])
      case Some(rows) =>
        var r := RevealAll(Revealing(conn, rows, [], []), db, ids);
        Revealed(r.conn, r.tops + r.threads)
  }

  // ----- recalculate_server -----

  predicate BelongsTo(cache: Cache, id: Id, c: Id)
  {
    c in cache.channels && ServerOf(cache.channels[c]) == Some(id)
  }

  function CachedOf(cache: Cache, order: seq<Id>, id: Id): (r: seq<Id>)
    ensures NoDup(order) ==> NoDup(r)
    ensures forall c :: c in r <==> c in order && BelongsTo(cache, id, c)
  {
    Filter(order, c => BelongsTo(cache, id, c))
  }

  datatype Sorting = Sorting(memo: map<Id, bool>, revealed: seq<Id>, hidden: seq<Id>)

  /** One channel of the classification loop, with the per-parent memo. */
  function SortStep(s: Sorting, cache: Cache, held: set<Topic>, db: Db, c: Id): (r: Sorting)
    requires c in cache.channels
  {
    var ch := cache.channels[c];
    var known := ch.Thread? && ch.parent in s.memo;
    var canView := if known then s.memo[ch.parent] else CanView(cache, db, ch);
    var memo := if ch.Thread? && !known then s.memo[ch.parent := canView] else s.memo;
    var couldView := ChannelTopic(c) in held;
    Sorting(memo,
            if canView && !couldView then s.revealed + [c] else s.revealed,
            if couldView && !canView then s.hidden + [c] else s.hidden)
  }

  function SortAll(cache: Cache, held: set<Topic>, db: Db, prior: seq<Id>): (r: Sorting)
    requires forall c :: c in prior ==> c in cache.channels
  {
    if prior == [] then Sorting(map[], [], [])
    else SortStep(SortAll(cache, held, db, prior[..|prior| - 1]), cache, held, db, prior[|prior| - 1])
  }

  datatype Announcing = Announcing(conn: Conn, events: seq<Event>)

  function HideStep(a: Announcing, c: Id): (r: Announcing)
    ensures r.conn.subs.queue.Reset? <==> a.conn.subs.queue.Reset?
    ensures r.conn.cache.userId == a.conn.cache.userId
  {
    Announcing(Unsubscribe(a.conn, ChannelTopic(c)), a.events + [ChannelDelete(c)])
  }

  function HideAll(a: Announcing, ids: seq<Id>): (r: Announcing)
    ensures r.conn.subs.queue.Reset? <==> a.conn.subs.queue.Reset?
    ensures r.conn.cache.userId == a.conn.cache.userId
  {
    if ids == [] then a else HideStep(HideAll(a, ids[..|ids| - 1]), ids[|ids| - 1])
  }

  function AdoptStep(a: Announcing, row: Row): (r: Announcing)
    ensures r.conn.subs.queue.Reset? <==> a.conn.subs.queue.Reset?
    ensures r.conn.cache.userId == a.conn.cache.userId
  {
    Announcing(Subscribe(CacheChannel(a.conn, row.id, row.channel), ChannelTopic(row.id)),
               a.events + [ChannelCreate(row.id, row.channel)])
  }

  function AdoptAll(a: Announcing, rows: seq<Row>): (r: Announcing)
    ensures r.conn.subs.queue.Reset? <==> a.conn.subs.queue.Reset?
    ensures r.conn.cache.userId == a.conn.cache.userId
  {
    if rows == [] then a else AdoptStep(AdoptAll(a, rows[..|rows| - 1]), rows[|rows| - 1])
  }

  /** `filter_accessible_channels`. */
  function Accessible(cache: Cache, db: Db, rows: seq<Row>): (r: seq<Row>)
  {
    Filter(rows, (row: Row) => CanView(cache, db, row.channel))
  }

  /** Listed channels of the server that are not cached: read, filtered, cached and announced. */
  function AdoptUnknowns(a: Announcing, db: Db, unknowns: set<Id>): (r: Announcing)
    ensures r.conn.subs.queue.Reset? <==> a.conn.subs.queue.Reset?
    ensures r.conn.cache.userId == a.conn.cache.userId
  {
    if unknowns == {} then a
    else
      match db.fetchMany(unknowns)
      case Rows(rows) => AdoptAll(a, Accessible(a.conn.cache, db, rows))
      case _ => a
  }

  datatype Recalculated = Recalculated(conn: Conn, event: Event)

  /** `recalculate_server` up to the bulk list, which excludes the event being handled. */
  function RecalculateBulk(conn: Conn, env: Env, id: Id): (r: Announcing)
    requires id in conn.cache.servers
    ensures r.conn.subs.queue.Reset? <==> conn.subs.queue.Reset?
    ensures r.conn.cache.userId == conn.cache.userId
  {
    var prior := CachedOf(conn.cache, env.order, id);
    var sorted := SortAll(conn.cache, conn.subs.subscribed, env.db, prior);
    var listed := set c | c in conn.cache.servers[id].channels;
    var revealed := Reveal(conn, env.db, sorted.revealed);
    var hidden := HideAll(Announcing(revealed.conn, []), sorted.hidden);
    var adopted := AdoptUnknowns(hidden, env.db, listed - (set c | c in prior));
    Announcing(adopted.conn, adopted.events + revealed.events)
  }

  /** `recalculate_server`. */
  function Recalculate(conn: Conn, env: Env, id: Id, event: Event): (r: Recalculated)
    ensures r.conn.subs.queue.Reset? <==> conn.subs.queue.Reset?
    ensures r.conn.cache.userId == conn.cache.userId
  {
    if id !in conn.cache.servers then Recalculated(conn, event)
    else
      var a := RecalculateBulk(conn, env, id);
      Recalculated(a.conn, if a.events == [] then event else Bulk(a.events + [event]))
  }

  // ----- handle_incoming_event_v1, arm by arm -----

  function OnChannelCreate(conn: Conn, db: Db, id: Id, ch: Channel): (r: Outcome)
    ensures r.conn.subs.queue.Reset? <==> conn.subs.queue.Reset?
    ensures r.conn.cache.userId == conn.cache.userId
  {
    if CanView(conn.cache, db, ch) then
      Outcome(Subscribe(CacheChannel(conn, id, ch), ChannelTopic(id)), Some(ChannelCreate(id, ch)))
    else if ch.Thread? then Outcome(CacheChannel(conn, id, ch), None)
    else Outcome(conn, None)
  }

  predicate ChildOf(cache: Cache, parent: Id, c: Id)
  {
    c in cache.channels && cache.channels[c].Thread? && cache.channels[c].parent == parent
  }

  function ChildrenOf(cache: Cache, order: seq<Id>, parent: Id): (r: seq<Id>)
    ensures NoDup(order) ==> NoDup(r)
    ensures forall c :: c in r <==> c in order && ChildOf(cache, parent, c)
  {
    Filter(order, c => ChildOf(cache, parent, c))
  }

  datatype Sweep = Sweep(conn: Conn, deletes: seq<Event>, revealed: seq<Id>)

  /** One child thread of an updated channel: hide it now or remember it as revealed. */
  function SweepStep(s: Sweep, db: Db, held: set<Topic>, c: Id): (r: Sweep)
    ensures r.conn.subs.queue.Reset? <==> s.conn.subs.queue.Reset?
    ensures r.conn.cache.userId == s.conn.cache.userId
  {
    var couldView := ChannelTopic(c) in held;
    var canView := c in s.conn.cache.channels && CanView(s.conn.cache, db, s.conn.cache.channels[c]);
    if couldView == canView then s
    else if canView then s.(revealed := s.revealed + [c])
    else Sweep(Unsubscribe(s.conn, ChannelTopic(c)), s.deletes + [ChannelDelete(c)], s.revealed)
  }

  function SweepAll(s: Sweep, db: Db, held: set<Topic>, children: seq<Id>): (r: Sweep)
    ensures r.conn.subs.queue.Reset? <==> s.conn.subs.queue.Reset?
    ensures r.conn.cache.userId == s.conn.cache.userId
  {
    if children == [] then s
    else SweepStep(SweepAll(s, db, held, children[..|children| - 1]), db, held, children[|children| - 1])
  }

  /** The tail of `ChannelUpdate`: the parent's own event, then what its threads need. */
  function Propagate(conn: Conn, db: Db, held: set<Topic>, children: seq<Id>, parentEvent: Event): (r: Recalculated)
    ensures r.conn.subs.queue.Reset? <==> conn.subs.queue.Reset?
    ensures r.conn.cache.userId == conn.cache.userId
  {
    var swept := SweepAll(Sweep(conn, [], []), db, held, children);
    var revealed := Reveal(swept.conn, db, swept.revealed);
    var threadEvents := swept.deletes + revealed.events;
    Recalculated(revealed.conn, if threadEvents == [] then parentEvent else Bulk([parentEvent] + threadEvents))
  }

  /** The cache after `ChannelUpdate` patched the cached channel, or read the uncached one. */
  function Updated(conn: Conn, db: Db, id: Id, patch: Content -> Content): (r: Conn)
    ensures r.subs == conn.subs && r.cache.userId == conn.cache.userId
  {
    if id in conn.cache.channels then CacheChannel(conn, id, Patch(conn.cache.channels[id], patch))
    else
      match db.fetchOne(id)
      case Some(ch) => CacheChannel(conn, id, ch)
      case None => conn
  }

  /** Whether the client knew the channel before the update. */
  function CouldView(conn: Conn, db: Db, id: Id): (r: bool)
  {
    id in conn.cache.channels &&
    if ServerOf(conn.cache.channels[id]).Some? then Subscribed(conn, id)
    else CanView(conn.cache, db, conn.cache.channels[id])
  }

  function OnChannelUpdate(conn: Conn, env: Env, id: Id, patch: Content -> Content): (r: Outcome)
    ensures r.conn.subs.queue.Reset? <==> conn.subs.queue.Reset?
    ensures r.conn.cache.userId == conn.cache.userId
  {
    var db := env.db;
    var couldView := CouldView(conn, db, id);
    var held := conn.subs.subscribed;
    var children := ChildrenOf(conn.cache, env.order, id);
    var fromCache := id in conn.cache.channels;
    var updated := Updated(conn, db, id, patch);
    if id !in updated.cache.channels then Outcome(updated, None)
    else
      var ch := updated.cache.channels[id];
      var canView := CanView(updated.cache, db, ch);
      if canView && !couldView && fromCache then
        var revealed := Reveal(updated, db, [id]);
        if revealed.events == [] then Outcome(revealed.conn, None)
        else
          var p := Propagate(revealed.conn, db, held, children, revealed.events[0]);
          Outcome(p.conn, Some(p.event))
      else if canView && !couldView then
        var p := Propagate(updated, db, held, children, ChannelCreate(id, ch));
        Outcome(Subscribe(p.conn, ChannelTopic(id)), Some(p.event))
      else if couldView && !canView then
        var p := Propagate(updated, db, held, children, ChannelDelete(id));
        Outcome(Unsubscribe(p.conn, ChannelTopic(id)), Some(p.event))
      else if !canView then Outcome(updated, None)
      else
        var p := Propagate(updated, db, held, children, ChannelUpdate(id, patch));
        Outcome(p.conn, Some(p.event))
  }

  function OnChannelDelete(conn: Conn, id: Id): (r: Outcome)
    ensures r.conn.subs.queue.Reset? <==> conn.subs.queue.Reset?
    ensures r.conn.cache.userId == conn.cache.userId
  {
    Outcome(ForgetChannel(Unsubscribe(conn, ChannelTopic(id)), id), Some(ChannelDelete(id)))
  }

  function OnGroupLeave(conn: Conn, id: Id, user: Id): (r: Outcome)
    ensures r.conn.subs.queue.Reset? <==> conn.subs.queue.Reset?
    ensures r.conn.cache.userId == conn.cache.userId
  {
    var sent := Some(ChannelGroupLeave(id, user));
    if user == conn.cache.userId then Outcome(Unsubscribe(conn, ChannelTopic(id)), sent)
    else if !CanSubscribeToUser(conn.cache, user) then Outcome(Unsubscribe(conn, UserTopic(user)), sent)
    else Outcome(conn, sent)
  }

  function CarryStep(conn: Conn, row: Row): (r: Conn)
    ensures r.subs.queue.Reset? <==> conn.subs.queue.Reset?
    ensures r.cache.userId == conn.cache.userId
  {
    Subscribe(CacheChannel(conn, row.id, row.channel), ChannelTopic(row.id))
  }

  function CarryAll(conn: Conn, rows: seq<Row>): (r: Conn)
    ensures r.subs.queue.Reset? <==> conn.subs.queue.Reset?
    ensures r.cache.userId == conn.cache.userId
  {
    if rows == [] then conn else CarryStep(CarryAll(conn, rows[..|rows| - 1]), rows[|rows| - 1])
  }

  function InstallServer(conn: Conn, id: Id, server: Server): (r: Conn)
    ensures r.subs == Insert(conn.subs, ServerTopic(id)) && r.cache.userId == conn.cache.userId
  {
    var c := Subscribe(conn, ServerTopic(id));
    c.(cache := c.cache.(servers := c.cache.servers[id := server], members := c.cache.members[id := BLANK_MEMBER]))
  }

  /** The state `ServerCreate` hands to the recalculation. */
  function Joined(conn: Conn, id: Id, server: Server, carried: seq<Row>): (r: Conn)
    ensures r.subs.queue.Reset? <==> conn.subs.queue.Reset?
    ensures r.cache.userId == conn.cache.userId
  {
    CarryAll(InstallServer(conn, id, server), carried)
  }

  function Recalculating(conn: Conn, env: Env, id: Id, event: Event): (r: Outcome)
    ensures r.conn.subs.queue.Reset? <==> conn.subs.queue.Reset?
    ensures r.conn.cache.userId == conn.cache.userId
  {
    var r := Recalculate(conn, env, id, event);
    Outcome(r.conn, Some(r.event))
  }

  function SetServer(conn: Conn, id: Id, server: Server): (r: Conn)
  {
    conn.(cache := conn.cache.(servers := conn.cache.servers[id := server]))
  }

  /** Unsubscribe and forget each of `ids`; both loops of the leave / delete arms do this. */
  function DropAll(conn: Conn, ids: seq<Id>): (r: Conn)
    ensures r.subs.queue.Reset? <==> conn.subs.queue.Reset?
    ensures r.cache.userId == conn.cache.userId
  {
    if ids == [] then conn
    else
      var last := ids[|ids| - 1];
      ForgetChannel(Unsubscribe(DropAll(conn, ids[..|ids| - 1]), ChannelTopic(last)), last)
  }

  /** The shared body of a self-leave and of a server deletion. */
  function LeaveServer(conn: Conn, order: seq<Id>, id: Id): (r: Conn)
    ensures r.subs.queue.Reset? <==> conn.subs.queue.Reset?
    ensures r.cache.userId == conn.cache.userId
  {
    var c0 := Unsubscribe(conn, ServerTopic(id));
    var c1 :=
      if id in c0.cache.servers then
        DropAll(c0.(cache := c0.cache.(servers := c0.cache.servers - {id})), c0.cache.servers[id].channels)
      else c0;
    var c2 := DropAll(c1, CachedOf(c1.cache, order, id));
    c2.(cache := c2.cache.(members := c2.cache.members - {id}),
        active := ActiveHistory.RemoveKey(c2.active, id),
        memberTopics := c2.memberTopics - {MemberTopic(id)},
        removals := c2.removals + {MemberTopic(id)})
  }

  predicate HasRole(cache: Cache, id: Id, role: Id)
  {
    id in cache.members && role in cache.members[id].roles
  }

  /** The events that change a cached server, role or membership row and may call for a recalculation. */
  predicate IsAccountEvent(event: Event)
  {
    event.ServerUpdate? || event.ServerMemberUpdate? || event.ServerRoleUpdate? || event.ServerRoleDelete?
  }

  /** The cached row such an event changes, if there is one; a member update counts only for this user. */
  function Account(conn: Conn, event: Event): (r: Conn)
    requires IsAccountEvent(event)
    ensures r.subs == conn.subs && r.cache.channels == conn.cache.channels && r.cache.userId == conn.cache.userId
  {
    var id, servers, members := event.id, conn.cache.servers, conn.cache.members;
    match event
    case ServerUpdate(_, patch, _) => if id in servers then SetServer(conn, id, patch(servers[id])) else conn
    case ServerMemberUpdate(_, user, patch, _) =>
      if user == conn.cache.userId && id in members then
        conn.(cache := conn.cache.(members := members[id := patch(members[id])]))
      else conn
    case ServerRoleUpdate(_, role, patch, _) =>
      if id in servers && role in servers[id].roles then
        SetServer(conn, id, servers[id].(roles := servers[id].roles[role := patch(servers[id].roles[role])]))
      else conn
    case ServerRoleDelete(_, role) =>
      if id in servers then SetServer(conn, id, servers[id].(roles := servers[id].roles - {role})) else conn
  }

  /** Whether the event queues a recalculation of its server. */
  predicate Recalculates(cache: Cache, event: Event)
    requires IsAccountEvent(event)
  {
    match event
    case ServerUpdate(_, _, defaultPermissions) => defaultPermissions
    case ServerMemberUpdate(_, user, _, rolesTouched) => user == cache.userId && rolesTouched
    case ServerRoleUpdate(id, role, _, ranked) => ranked && HasRole(cache, id, role)
    case ServerRoleDelete(id, role) => HasRole(cache, id, role)
  }

  function OnAccountEvent(conn: Conn, env: Env, event: Event): (r: Outcome)
    requires IsAccountEvent(event)
    ensures r.conn.subs.queue.Reset? <==> conn.subs.queue.Reset?
    ensures r.conn.cache.userId == conn.cache.userId
  {
    var updated := Account(conn, event);
    if Recalculates(updated.cache, event) then Recalculating(updated, env, event.id, event)
    else Outcome(updated, Some(event))
  }

  function OnRelationship(conn: Conn, id: Id, related: set<Id>): (r: Outcome)
    ensures r.conn.subs.queue.Reset? <==> conn.subs.queue.Reset?
    ensures r.conn.cache.userId == conn.cache.userId
  {
    var updated := conn.(cache := conn.cache.(users := conn.cache.users[id := related]));
    Outcome(if CanSubscribeToUser(updated.cache, id) then Subscribe(updated, UserTopic(id))
            else Unsubscribe(updated, UserTopic(id)),
            Some(UserRelationship(id, related)))
  }

  function OnThreadJoin(conn: Conn, db: Db, id: Id, user: Id): (r: Outcome)
    ensures r.conn.subs.queue.Reset? <==> conn.subs.queue.Reset?
    ensures r.conn.cache.userId == conn.cache.userId
  {
    var event := ThreadMemberJoin(id, user);
    if Subscribed(conn, id) then Outcome(conn, Some(event))
    else if user != conn.cache.userId then Outcome(conn, None)
    else
      var row := db.fetchOne(id);
      if row.None? || !row.value.Thread? then Outcome(conn, None)
      else
        var revealed := Reveal(conn, db, [id]);
        if revealed.events == [] then Outcome(revealed.conn, None)
        else Outcome(revealed.conn, Some(Bulk(revealed.events + [event])))
  }

  /** `handle_incoming_event_v1`. */
  function Handle(conn: Conn, env: Env, event: Event): (r: Outcome)
    ensures r.conn.subs.queue.Reset? <==> conn.subs.queue.Reset?
    ensures r.conn.cache.userId == conn.cache.userId
  {
    match event
    case ChannelCreate(id, ch) => OnChannelCreate(conn, env.db, id, ch)
    case ChannelUpdate(id, patch) => OnChannelUpdate(conn, env, id, patch)
    case ChannelDelete(id) => OnChannelDelete(conn, id)
    case ChannelGroupJoin(_, user) => Outcome(Subscribe(conn, UserTopic(user)), Some(event))
    case ChannelGroupLeave(id, user) => OnGroupLeave(conn, id, user)
    case ServerCreate(id, server, carried) => Recalculating(Joined(conn, id, server, carried), env, id, event)
    case ServerUpdate(_, _, _) => OnAccountEvent(conn, env, event)
    case ServerMemberLeave(id, user) =>
      Outcome(if user == conn.cache.userId then LeaveServer(conn, env.order, id) else conn, Some(event))
    case ServerDelete(id) => Outcome(LeaveServer(conn, env.order, id), Some(event))
    case ServerMemberUpdate(_, _, _, _) => OnAccountEvent(conn, env, event)
    case ServerRoleUpdate(_, _, _, _) => OnAccountEvent(conn, env, event)
    case ServerRoleDelete(_, _) => OnAccountEvent(conn, env, event)
    case UserRelationship(id, related) => OnRelationship(conn, id, related)
    case ThreadMemberJoin(id, user) => OnThreadJoin(conn, env.db, id, user)
    case ThreadMemberLeave(id, _) => Outcome(conn, if Subscribed(conn, id) then Some(event) else None)
    case Bulk(_) => Outcome(conn, Some(event))
    case Other => Outcome(conn, Some(event))
  }
}
