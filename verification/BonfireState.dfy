/**
`State` as the listener task runs it: fields updated in place, loops over vectors and
hash maps (crates/bonfire/src/events/state.rs, crates/bonfire/src/events/impl.rs), and
the Redis subscriber the listener drives. Every method is proved to compute the
function of the same step in `Connection` and `MemberTopics`, so the theorems about
those functions are theorems about these methods.
*/
module BonfireState {
  import opened Sequences
  import opened Subscriptions
  import opened Connection
  import opened MemberTopics
  import ActiveHistory
  import ActiveSet

  class State {
    var cache: Cache
    var subscribed: set<Topic>
    var queue: Change
    var memberTopics: set<Topic>
    var removals: set<Topic>
    /** Shared with the worker. */
    const active: ActiveSet.ActiveServers

    /** The connection as a value. */
    ghost function Model(): (r: Conn)
      reads this, active
    {
      Conn(cache, Subs(subscribed, queue), memberTopics, removals, active.entries)
    }

    ghost predicate Valid()
      reads this, active
    {
      active.Valid() && active.capacity == ACTIVE_SERVERS_CAPACITY && active.ttl == ACTIVE_SERVERS_TTL
    }

    constructor (cache: Cache, session: bool, privileged: bool)
      ensures Valid() && fresh(active) && active.entries == []
      ensures this.cache == cache && queue == Reset && memberTopics == {} && removals == {}
      ensures forall t :: t in subscribed <==>
        || t == PrivateTopic || t == UserTopic(cache.userId)
        || (session && t == SessionTopic) || (privileged && t == GlobalTopic)
    {
      this.cache := cache;
      var topics := {PrivateTopic, UserTopic(cache.userId)};
      if session { topics := topics + {SessionTopic}; }
      if privileged { topics := topics + {GlobalTopic}; }
      subscribed := topics;
      queue := Reset;
      memberTopics, removals := {}, {};
      active := new ActiveSet.ActiveServers(ACTIVE_SERVERS_CAPACITY, ACTIVE_SERVERS_TTL);
    }

    // ----- subscriptions -----

    method InsertSubscription(t: Topic)
      modifies this`subscribed, this`queue
      ensures Model() == Subscribe(old(Model()), t)
    {
      if t in subscribed { return; }
      match queue {
        case Unchanged => queue := Pending([t], []);
        case Pending(add, remove) => queue := Pending(add + [t], remove);
        case Reset =>
      }
      subscribed := subscribed + {t};
    }

    /** The source panics here while a reset is queued. */
    method RemoveSubscription(t: Topic)
      requires t in subscribed ==> !queue.Reset?
      modifies this`subscribed, this`queue
      ensures Model() == Unsubscribe(old(Model()), t)
    {
      if t !in subscribed { return; }
      match queue {
        case Unchanged => queue := Pending([], [t]);
        case Pending(add, remove) => queue := Pending(add, remove + [t]);
        case Reset => assert false;
      }
      subscribed := subscribed - {t};
    }

    method SubscribeMemberTopic(t: Topic)
      modifies this`subscribed, this`queue
      ensures Model() == old(Model()).(subs := SubscribeTopic(old(Model()).subs, t))
    {
      match queue {
        case Reset =>
        case Pending(add, remove) =>
          if t in remove {
            queue := Pending(add, RemoveFirst(remove, t));
          } else if t !in subscribed {
            queue := Pending(add + [t], remove);
          }
        case Unchanged =>
          if t !in subscribed { queue := Pending([t], []); }
      }
      subscribed := subscribed + {t};
    }

    method UnsubscribeMemberTopic(t: Topic)
      modifies this`subscribed, this`queue
      ensures Model() == old(Model()).(subs := UnsubscribeTopic(old(Model()).subs, t))
    {
      match queue {
        case Reset =>
        case Pending(add, remove) =>
          if t in add {
            queue := Pending(RemoveFirst(add, t), remove);
          } else if t in subscribed {
            queue := Pending(add, remove + [t]);
          }
        case Unchanged =>
          if t in subscribed { queue := Pending([], [t]); }
      }
      subscribed := subscribed - {t};
    }

    // ----- apply_state -----

    method CollectDropped(order: seq<Id>) returns (dropped: seq<Id>)
      ensures dropped == PendingRemovals(Model(), order)
    {
      dropped := [];
      for i := 0 to |order|
        invariant dropped == PendingRemovals(Model(), order[..i])
      {
        if MemberTopic(order[i]) in removals { dropped := dropped + [order[i]]; }
        assert order[..i + 1][..i] == order[..i];
      }
      assert order[..|order|] == order;
    }

    /** `keys` are a user's live keys, read once; `start` is the state they were read in. */
    method CollectUnwanted(order: seq<Id>, keys: set<Id>, now: int, ghost start: Conn) returns (unwanted: seq<Id>)
      requires cache == start.cache && memberTopics == start.memberTopics
      requires !cache.isBot ==> keys == ActiveHistory.Keys(LiveEntries(start, now))
      ensures unwanted == Unwanted(start, now, order)
    {
      unwanted := [];
      for i := 0 to |order|
        invariant unwanted == Unwanted(start, now, order[..i])
      {
        var wanted := order[i] in cache.servers && (cache.isBot || order[i] in keys);
        if MemberTopic(order[i]) in memberTopics && !wanted { unwanted := unwanted + [order[i]]; }
        assert order[..i + 1][..i] == order[..i];
      }
      assert order[..|order|] == order;
    }

    method CollectMissing(order: seq<Id>, keys: set<Id>, now: int, ghost start: Conn) returns (missing: seq<Id>)
      requires cache == start.cache && (!cache.isBot ==> keys == ActiveHistory.Keys(LiveEntries(start, now)))
      ensures missing == Missing(start, now, order, memberTopics)
    {
      missing := [];
      if cache.isBot && |memberTopics| == |cache.servers| { return; }
      for i := 0 to |order|
        invariant missing == Missing(start, now, order[..i], memberTopics)
      {
        var wanted := order[i] in cache.servers && (cache.isBot || order[i] in keys);
        if wanted && MemberTopic(order[i]) !in memberTopics { missing := missing + [order[i]]; }
        assert order[..i + 1][..i] == order[..i];
      }
      assert order[..|order|] == order;
    }

    /** `reconcile_member_topics`; `order` is the iteration order of the hash sets. */
    method ReconcileMemberTopics(now: int, order: seq<Id>)
      requires Valid()
      modifies this, active
      ensures Valid() && Model() == Reconcile(old(Model()), now, order)
    {
      ghost var start := Model();
      var dropped := CollectDropped(order);
      UnsubscribeAll(dropped);
      removals := {};
      var keys: set<Id> := {};
      if !cache.isBot { keys := ReadLive(now); }
      var unwanted := CollectUnwanted(order, keys, now, start);
      memberTopics := memberTopics - MemberTopicsOf(unwanted);
      UnsubscribeAll(unwanted);
      var missing := CollectMissing(order, keys, now, start);
      memberTopics := memberTopics + MemberTopicsOf(missing);
      SubscribeAll(missing);
    }

    method ReadLive(now: int) returns (keys: set<Id>)
      requires Valid()
      modifies active
      ensures Valid() && active.entries == ActiveHistory.Live(old(active.entries), ACTIVE_SERVERS_TTL, now)
      ensures keys == ActiveHistory.Keys(active.entries)
    {
      var live := active.LiveKeys(now);
      keys := set k | k in live;
      forall k ensures k in keys <==> k in ActiveHistory.Keys(active.entries) {
        if k in ActiveHistory.Keys(active.entries) {
          var i :| 0 <= i < |active.entries| && active.entries[i].key == k;
          assert live[i] == k;
        }
      }
    }

    method UnsubscribeAll(ids: seq<Id>)
      modifies this`subscribed, this`queue
      ensures Model() == old(Model()).(subs := UnsubscribeEach(old(Model()).subs, ids))
    {
      ghost var start := Model();
      for i := 0 to |ids|
        invariant Model() == start.(subs := UnsubscribeEach(start.subs, ids[..i]))
      {
        UnsubscribeMemberTopic(MemberTopic(ids[i]));
        assert ids[..i + 1][..i] == ids[..i];
      }
      assert ids[..|ids|] == ids;
    }

    method SubscribeAll(ids: seq<Id>)
      modifies this`subscribed, this`queue
      ensures Model() == old(Model()).(subs := SubscribeEach(old(Model()).subs, ids))
    {
      ghost var start := Model();
      for i := 0 to |ids|
        invariant Model() == start.(subs := SubscribeEach(start.subs, ids[..i]))
      {
        SubscribeMemberTopic(MemberTopic(ids[i]));
        assert ids[..i + 1][..i] == ids[..i];
      }
      assert ids[..|ids|] == ids;
    }

    method ApplyQueue(now: int, order: seq<Id>) returns (change: Change)
      requires Valid()
      modifies this, active
      ensures Valid() && Model() == ApplyState(old(Model()), now, order)
      ensures change == Reconcile(old(Model()), now, order).subs.queue
    {
      ReconcileMemberTopics(now, order);
      change := queue;
      queue := Unchanged;
      if change.Pending? { ReplayQueue(change.add, change.remove); }
    }

    /** Additions first, as `apply_state` replays the queue it took. */
    method ReplayQueue(add: seq<Topic>, remove: seq<Topic>)
      modifies this`subscribed
      ensures subscribed == old(subscribed) + Elements(add) - Elements(remove)
    {
      for i := 0 to |add|
        invariant subscribed == old(subscribed) + Elements(add[..i])
      {
        subscribed := subscribed + {add[i]};
        assert add[..i + 1] == add[..i] + [add[i]];
      }
      assert add[..|add|] == add;
      ghost var added := subscribed;
      for i := 0 to |remove|
        invariant subscribed == added - Elements(remove[..i])
      {
        subscribed := subscribed - {remove[i]};
        assert remove[..i + 1] == remove[..i] + [remove[i]];
      }
      assert remove[..|remove|] == remove;
    }

    // ----- events -----

    method RevealChannels(db: Db, ids: seq<Id>) returns (events: seq<Event>)
      modifies this
      ensures Revealed(Model(), events) == Reveal(old(Model()), db, ids)
    {
      if |ids| == 0 { return []; }
      var read := FreshRows(db, ids);
      if read.None? { return []; }
      ghost var start := Revealing(Model(), read.value, [], []);
      var rows := read.value;
      var threads: seq<Event> := [];
      events := [];
      for i := 0 to |ids|
        invariant Revealing(Model(), rows, events, threads) == RevealAll(start, db, ids[..i])
      {
        var id := ids[i];
        assert ids[..i + 1][..i] == ids[..i];
        if id !in rows {
          cache := cache.(channels := cache.channels - {id});
        } else {
          var channel := rows[id];
          rows := rows - {id};
          var visible := CanView(cache, db, channel);
          cache := cache.(channels := cache.channels[id := channel]);
          if visible {
            InsertSubscription(ChannelTopic(id));
            if channel.Thread? {
              threads := threads + [ChannelCreate(id, channel)];
            } else {
              events := events + [ChannelCreate(id, channel)];
            }
          }
        }
      }
      assert ids[..|ids|] == ids;
      events := events + threads;
    }

    /** The classification loop of `recalculate_server`, with one visibility check per parent. */
    method SortByVisibility(db: Db, prior: seq<Id>) returns (revealed: seq<Id>, hidden: seq<Id>)
      requires forall c :: c in prior ==> c in cache.channels
      ensures var sorted := SortAll(cache, subscribed, db, prior);
        revealed == sorted.revealed && hidden == sorted.hidden
    {
      var memo: map<Id, bool> := map[];
      revealed, hidden := [], [];
      for i := 0 to |prior|
        invariant Sorting(memo, revealed, hidden) == SortAll(cache, subscribed, db, prior[..i])
      {
        var c := prior[i];
        assert prior[..i + 1][..i] == prior[..i];
        var channel := cache.channels[c];
        var canView;
        if channel.Thread? {
          if channel.parent in memo {
            canView := memo[channel.parent];
          } else {
            canView := CanView(cache, db, channel);
            memo := memo[channel.parent := canView];
          }
        } else {
          canView := CanView(cache, db, channel);
        }
        var couldView := ChannelTopic(c) in subscribed;
        if canView && !couldView {
          revealed := revealed + [c];
        } else if couldView && !canView {
          hidden := hidden + [c];
        }
      }
      assert prior[..|prior|] == prior;
    }

    method RecalculateServer(env: Env, id: Id, event: Event) returns (rewritten: Event)
      requires !queue.Reset?
      modifies this
      ensures Recalculated(Model(), rewritten) == Recalculate(old(Model()), env, id, event)
    {
      if id !in cache.servers { return event; }
      var prior := CachedOf(cache, env.order, id);
      var revealed, hidden := SortByVisibility(env.db, prior);
      var listed := set c | c in cache.servers[id].channels;
      var revealedEvents := RevealChannels(env.db, revealed);
      var bulk := HideChannels(hidden);
      var unknowns := listed - (set c | c in prior);
      if unknowns != {} { bulk := AdoptChannels(env.db, unknowns, bulk); }
      bulk := bulk + revealedEvents;
      rewritten := if |bulk| == 0 then event else Bulk(bulk + [event]);
    }

    method HideChannels(ids: seq<Id>) returns (bulk: seq<Event>)
      requires !queue.Reset?
      modifies this
      ensures !queue.Reset? && Announcing(Model(), bulk) == HideAll(Announcing(old(Model()), []), ids)
    {
      ghost var start := Announcing(Model(), []);
      bulk := [];
      for i := 0 to |ids|
        invariant !queue.Reset?
        invariant Announcing(Model(), bulk) == HideAll(start, ids[..i])
      {
        RemoveSubscription(ChannelTopic(ids[i]));
        bulk := bulk + [ChannelDelete(ids[i])];
        assert ids[..i + 1][..i] == ids[..i];
      }
      assert ids[..|ids|] == ids;
    }

    /** Reads the listed channels that are not cached, keeps the viewable ones and announces them. */
    method AdoptChannels(db: Db, unknowns: set<Id>, announced: seq<Event>) returns (bulk: seq<Event>)
      requires unknowns != {}
      modifies this
      ensures Announcing(Model(), bulk) == AdoptUnknowns(Announcing(old(Model()), announced), db, unknowns)
    {
      bulk := announced;
      var read := db.fetchMany(unknowns);
      if !read.Rows? { return; }
      ghost var start := Announcing(Model(), bulk);
      var viewable := Accessible(cache, db, read.rows);
      for i := 0 to |viewable|
        invariant Announcing(Model(), bulk) == AdoptAll(start, viewable[..i])
      {
        var row := viewable[i];
        cache := cache.(channels := cache.channels[row.id := row.channel]);
        InsertSubscription(ChannelTopic(row.id));
        bulk := bulk + [ChannelCreate(row.id, row.channel)];
        assert viewable[..i + 1][..i] == viewable[..i];
      }
      assert viewable[..|viewable|] == viewable;
    }

    method DropChannels(ids: seq<Id>)
      requires !queue.Reset?
      modifies this
      ensures Model() == DropAll(old(Model()), ids)
    {
      ghost var start := Model();
      for i := 0 to |ids|
        invariant !queue.Reset?
        invariant Model() == DropAll(start, ids[..i])
      {
        RemoveSubscription(ChannelTopic(ids[i]));
        cache := cache.(channels := cache.channels - {ids[i]});
        assert ids[..i + 1][..i] == ids[..i];
      }
      assert ids[..|ids|] == ids;
    }

    method RemoveServer(order: seq<Id>, id: Id)
      requires Valid() && !queue.Reset?
      modifies this, active
      ensures Valid() && Model() == LeaveServer(old(Model()), order, id)
    {
      RemoveSubscription(ServerTopic(id));
      if id in cache.servers {
        var listed := cache.servers[id].channels;
        cache := cache.(servers := cache.servers - {id});
        DropChannels(listed);
      }
      DropChannels(CachedOf(cache, order, id));
      cache := cache.(members := cache.members - {id});
      var _ := active.Remove(id);
      memberTopics := memberTopics - {MemberTopic(id)};
      removals := removals + {MemberTopic(id)};
    }

    /** The child threads of an updated channel, after its own event. */
    method PropagateToThreads(db: Db, held: set<Topic>, children: seq<Id>, parentEvent: Event)
        returns (rewritten: Event)
      requires !queue.Reset?
      modifies this
      ensures Recalculated(Model(), rewritten) == Propagate(old(Model()), db, held, children, parentEvent)
    {
      ghost var start := Sweep(Model(), [], []);
      var threadEvents: seq<Event> := [];
      var revealed: seq<Id> := [];
      for i := 0 to |children|
        invariant !queue.Reset?
        invariant Sweep(Model(), threadEvents, revealed) == SweepAll(start, db, held, children[..i])
      {
        var c := children[i];
        assert children[..i + 1][..i] == children[..i];
        var couldView := ChannelTopic(c) in held;
        var canView := false;
        if c in cache.channels { canView := CanView(cache, db, cache.channels[c]); }
        if couldView != canView {
          if canView {
            revealed := revealed + [c];
          } else {
            RemoveSubscription(ChannelTopic(c));
            threadEvents := threadEvents + [ChannelDelete(c)];
          }
        }
      }
      assert children[..|children|] == children;
      var shown := RevealChannels(db, revealed);
      threadEvents := threadEvents + shown;
      rewritten := if |threadEvents| == 0 then parentEvent else Bulk([parentEvent] + threadEvents);
    }

    /** Patches the cached channel or reads the uncached one; says whether the client knew it before. */
    method RefreshChannel(db: Db, id: Id, patch: Content -> Content) returns (couldView: bool)
      modifies this`cache
      ensures Model() == Updated(old(Model()), db, id, patch)
      ensures couldView == CouldView(old(Model()), db, id)
    {
      couldView := false;
      if id in cache.channels {
        couldView := if ServerOf(cache.channels[id]).Some? then ChannelTopic(id) in subscribed
                     else CanView(cache, db, cache.channels[id]);
        cache := cache.(channels := cache.channels[id := Patch(cache.channels[id], patch)]);
      } else {
        match db.fetchOne(id) {
          case Some(channel) => cache := cache.(channels := cache.channels[id := channel]);
          case None =>
        }
      }
    }

    method UpdateChannel(env: Env, id: Id, patch: Content -> Content) returns (sent: Option<Event>)
      requires !queue.Reset?
      modifies this
      ensures Outcome(Model(), sent) == OnChannelUpdate(old(Model()), env, id, patch)
    {
      var db, held := env.db, subscribed;
      var fromCache := id in cache.channels;
      var children := ChildrenOf(cache, env.order, id);
      var couldView := RefreshChannel(db, id, patch);
      if id !in cache.channels { return None; }
      var channel := cache.channels[id];
      var canView := CanView(cache, db, channel);
      var event := ChannelUpdate(id, patch);
      var queueAdd, queueRemove := false, false;
      if couldView != canView {
        if canView && fromCache {
          var revealed := RevealChannels(db, [id]);
          if |revealed| == 0 { return None; }
          event := revealed[0];
        } else if canView {
          queueAdd, event := true, ChannelCreate(id, channel);
        } else {
          queueRemove, event := true, ChannelDelete(id);
        }
      } else if !canView {
        return None;
      }
      event := PropagateToThreads(db, held, children, event);
      if queueAdd { InsertSubscription(ChannelTopic(id)); }
      if queueRemove { RemoveSubscription(ChannelTopic(id)); }
      sent := Some(event);
    }

    method JoinServer(id: Id, server: Server, carried: seq<Row>)
      modifies this
      ensures Model() == Joined(old(Model()), id, server, carried)
    {
      InsertSubscription(ServerTopic(id));
      cache := cache.(servers := cache.servers[id := server], members := cache.members[id := BLANK_MEMBER]);
      ghost var installed := Model();
      for i := 0 to |carried|
        invariant Model() == CarryAll(installed, carried[..i])
      {
        cache := cache.(channels := cache.channels[carried[i].id := carried[i].channel]);
        InsertSubscription(ChannelTopic(carried[i].id));
        assert carried[..i + 1][..i] == carried[..i];
      }
      assert carried[..|carried|] == carried;
    }

    /** The arms that change a server, the own member or a role, and may ask for a recalculation. */
    method UpdateAccount(env: Env, event: Event) returns (sent: Option<Event>)
      requires !queue.Reset?
      requires IsAccountEvent(event)
      modifies this
      ensures Outcome(Model(), sent) == OnAccountEvent(old(Model()), env, event)
    {
      var recalculate := false;
      var id := event.id;
      match event {
        case ServerUpdate(_, patch, defaultPermissions) =>
          if id in cache.servers { cache := cache.(servers := cache.servers[id := patch(cache.servers[id])]); }
          recalculate := defaultPermissions;
        case ServerMemberUpdate(_, user, patch, rolesTouched) =>
          if user == cache.userId {
            if id in cache.members { cache := cache.(members := cache.members[id := patch(cache.members[id])]); }
            recalculate := rolesTouched;
          }
        case ServerRoleUpdate(_, role, patch, ranked) =>
          if id in cache.servers && role in cache.servers[id].roles {
            var server := cache.servers[id];
            var roles := server.roles[role := patch(server.roles[role])];
            cache := cache.(servers := cache.servers[id := server.(roles := roles)]);
          }
          recalculate := ranked && HasRole(cache, id, role);
        case ServerRoleDelete(_, role) =>
          if id in cache.servers {
            var server := cache.servers[id];
            cache := cache.(servers := cache.servers[id := server.(roles := server.roles - {role})]);
          }
          recalculate := HasRole(cache, id, role);
      }
      var rewritten := event;
      if recalculate { rewritten := RecalculateServer(env, id, event); }
      sent := Some(rewritten);
    }

    method JoinThread(db: Db, id: Id, user: Id) returns (sent: Option<Event>)
      modifies this
      ensures Outcome(Model(), sent) == OnThreadJoin(old(Model()), db, id, user)
    {
      var event := ThreadMemberJoin(id, user);
      if ChannelTopic(id) in subscribed { return Some(event); }
      if user != cache.userId { return None; }
      var row := db.fetchOne(id);
      if row.None? || !row.value.Thread? { return None; }
      var revealed := RevealChannels(db, [id]);
      sent := if |revealed| == 0 then None else Some(Bulk(revealed + [event]));
    }

    /**
    `handle_incoming_event_v1`: `sent` is the event to forward, `None` when the source
    returns false. It is only called after a flush, so never while a reset is queued,
    and then the panic in `RemoveSubscription` cannot be reached.
    */
    method HandleIncomingEvent(env: Env, event: Event) returns (sent: Option<Event>)
      requires Valid() && !queue.Reset?
      modifies this, active
      ensures Valid()
      ensures Outcome(Model(), sent) == Handle(old(Model()), env, event)
      ensures !queue.Reset?
    {
      sent := Some(event);
      match event {
        case ChannelUpdate(id, patch) => sent := UpdateChannel(env, id, patch);
        case ServerCreate(id, server, carried) =>
          JoinServer(id, server, carried);
          var rewritten := RecalculateServer(env, id, event);
          sent := Some(rewritten);
        case ServerMemberLeave(id, user) =>
          if user == cache.userId { RemoveServer(env.order, id); }
        case ServerDelete(id) => RemoveServer(env.order, id);
        case ThreadMemberJoin(id, user) => sent := JoinThread(env.db, id, user);
        case ThreadMemberLeave(id, _) =>
          if ChannelTopic(id) !in subscribed { sent := None; }
        case ServerUpdate(_, _, _) => sent := UpdateAccount(env, event);
        case ServerMemberUpdate(_, _, _, _) => sent := UpdateAccount(env, event);
        case ServerRoleUpdate(_, _, _, _) => sent := UpdateAccount(env, event);
        case ServerRoleDelete(_, _) => sent := UpdateAccount(env, event);
        case Bulk(_) =>
        case Other =>
        case _ => sent := UpdateTopic(env, event);
      }
    }

    /** The arms that move one topic. */
    method UpdateTopic(env: Env, event: Event) returns (sent: Option<Event>)
      requires !queue.Reset?
      requires event.ChannelCreate? || event.ChannelDelete? || event.ChannelGroupJoin? || event.ChannelGroupLeave?
        || event.UserRelationship?
      modifies this
      ensures Outcome(Model(), sent) == Handle(old(Model()), env, event)
    {
      sent := Some(event);
      match event {
        case ChannelCreate(id, channel) =>
          if CanView(cache, env.db, channel) {
            cache := cache.(channels := cache.channels[id := channel]);
            InsertSubscription(ChannelTopic(id));
          } else {
            if channel.Thread? { cache := cache.(channels := cache.channels[id := channel]); }
            sent := None;
          }
        case ChannelDelete(id) =>
          RemoveSubscription(ChannelTopic(id));
          cache := cache.(channels := cache.channels - {id});
        case ChannelGroupJoin(_, user) => InsertSubscription(UserTopic(user));
        case ChannelGroupLeave(id, user) =>
          if user == cache.userId {
            RemoveSubscription(ChannelTopic(id));
          } else if !CanSubscribeToUser(cache, user) {
            RemoveSubscription(UserTopic(user));
          }
        case UserRelationship(id, related) =>
          cache := cache.(users := cache.users[id := related]);
          if CanSubscribeToUser(cache, id) {
            InsertSubscription(UserTopic(id));
          } else {
            RemoveSubscription(UserTopic(id));
          }
      }
    }
  }

  /** The listener's Redis connection: the topics it currently receives. */
  class Subscriber {
    var topics: set<Topic>

    /** The flush at the top of the listener loop: a reset resubscribes, a change unsubscribes first. */
    method Flush(state: State, now: int, order: seq<Id>)
      requires state.Valid()
      modifies this, state, state.active
      ensures state.Valid() && state.Model() == ApplyState(old(state.Model()), now, order)
      ensures topics == FlushedUpstream(old(state.Model()), now, order, old(topics))
    {
      var change := state.ApplyQueue(now, order);
      match change {
        case Reset => topics := state.subscribed;
        case Pending(add, remove) => SendChanges(add, remove);
        case Unchanged =>
      }
    }

    method SendChanges(add: seq<Topic>, remove: seq<Topic>)
      modifies this
      ensures topics == old(topics) - Elements(remove) + Elements(add)
    {
      for i := 0 to |remove|
        invariant topics == old(topics) - Elements(remove[..i])
      {
        topics := topics - {remove[i]};
        assert remove[..i + 1] == remove[..i] + [remove[i]];
      }
      assert remove[..|remove|] == remove;
      ghost var kept := topics;
      for i := 0 to |add|
        invariant topics == kept + Elements(add[..i])
      {
        topics := topics + {add[i]};
        assert add[..i + 1] == add[..i] + [add[i]];
      }
      assert add[..|add|] == add;
    }
  }
}
