/**
Whole runs of one connection: Ready, then any interleaving of the listener's flushes
and events with worker `Subscribe` frames (crates/bonfire/src/websocket.rs:659-808, 936-957).
*/
module Runs {
  import opened Sequences
  import opened Subscriptions
  import opened Connection
  import opened Told
  import opened MemberTopics
  import opened Flushing
  import opened ServerTopics
  import ActiveHistory

  /** The connection, what Redis delivers to it, and the channels its client knows. */
  datatype World = World(conn: Conn, upstream: set<Topic>, told: set<Id>)

  /** The flush at the top of the listener loop, an event it then receives, and a frame the worker handles. */
  datatype Step =
    | TopOfLoop(now: int, order: seq<Id>)
    | Incoming(env: Env, event: Event)
    | WorkerSubscribe(server: Id, now: int)

  // ----- Ready -----

  function InsertEach(s: Subs, topics: seq<Topic>): (r: Subs)
    ensures r.queue.Reset? <==> s.queue.Reset?
    ensures r.subscribed == s.subscribed + Elements(topics)
  {
    if topics == [] then s
    else
      assert topics == topics[..|topics| - 1] + [topics[|topics| - 1]];
      Insert(InsertEach(s, topics[..|topics| - 1]), topics[|topics| - 1])
  }

  /** `State::from`: the topics a new connection starts with, before Ready. */
  function NewSubs(user: Id, session: bool, privileged: bool): (r: Subs)
  {
    Subs({PrivateTopic, UserTopic(user)} + (if session then {SessionTopic} else {})
         + (if privileged then {GlobalTopic} else {}), Reset)
  }

  /** `reset_state`. */
  function ResetSubs(s: Subs, session: bool): (r: Subs)
  {
    Subs(if session then {SessionTopic} else {}, Reset)
  }

  /** The end of `generate_ready_payload`: `topics` are the users, servers and channels it fetched. */
  function ReadyConn(cache: Cache, session: bool, privileged: bool, topics: seq<Topic>): (r: Conn)
  {
    Conn(cache,
         InsertEach(ResetSubs(NewSubs(cache.userId, session, privileged), session), [PrivateTopic] + topics),
         {}, {}, [])
  }

  /** Exactly the cached servers and channels, and some users. */
  ghost predicate ReadyTopics(cache: Cache, topics: seq<Topic>)
  {
    (forall t :: t in topics ==> Eventful(t)) &&
    (forall c :: ChannelTopic(c) in topics <==> c in cache.channels) &&
    (forall s :: ServerTopic(s) in topics <==> s in cache.servers)
  }

  /** The world once Ready has been sent: the client knows every channel of the payload. */
  ghost function ReadyWorld(cache: Cache, session: bool, privileged: bool, topics: seq<Topic>): World
  {
    World(ReadyConn(cache, session, privileged, topics), {}, cache.channels.Keys)
  }

  // ----- steps -----

  /** The flush at the top of the listener loop. */
  ghost function Flush(w: World, now: int, order: seq<Id>): World
  {
    World(ApplyState(w.conn, now, order), FlushedUpstream(w.conn, now, order, w.upstream), w.told)
  }

  ghost function Deliver(w: World, env: Env, event: Event, home: Homes): World
  {
    var r := Handle(w.conn, env, event);
    World(r.conn, w.upstream, ReplaySent(w.told, w.conn.cache.userId, home, r.sent))
  }

  ghost function Next(w: World, step: Step, home: Homes): World
  {
    match step
    case TopOfLoop(now, order) => Flush(w, now, order)
    case Incoming(env, event) => Deliver(w, env, event, home)
    case WorkerSubscribe(server, now) =>
      w.(conn := w.conn.(active := ActiveHistory.Touch(w.conn.active, ACTIVE_SERVERS_CAPACITY, server, now).0))
  }

  ghost function Run(w: World, steps: seq<Step>, home: Homes): World
  {
    if steps == [] then w else Next(Run(w, steps[..|steps| - 1], home), steps[|steps| - 1], home)
  }

  /** What the surroundings guarantee: reads and events are about real channels, and `ServerCreate` is filtered. */
  ghost predicate Delivers(conn: Conn, env: Env, event: Event, home: Homes)
  {
    DbConforms(home, env.db) && ReadsRequested(env.db) &&
    EventConforms(home, event) && Covers(env.order, conn, event) && CarriedViewable(conn, env, event)
  }

  ghost predicate Admissible(w: World, step: Step, home: Homes)
  {
    match step
    case TopOfLoop(_, order) => OrderCovers(w.conn, order)
    case Incoming(env, event) => Delivers(w.conn, env, event, home)
    case WorkerSubscribe(_, _) => true
  }

  /** The listener has flushed since its last event; the worker may have run since. */
  predicate Flushed(steps: seq<Step>)
  {
    steps != [] &&
    match steps[|steps| - 1]
    case TopOfLoop(_, _) => true
    case Incoming(_, _) => false
    case WorkerSubscribe(_, _) => Flushed(steps[..|steps| - 1])
  }

  /** Every event comes after a flush since the one before. */
  predicate LoopOrder(steps: seq<Step>)
  {
    forall i :: 0 <= i < |steps| && steps[i].Incoming? ==> Flushed(steps[..i])
  }

  ghost predicate AllAdmissible(w: World, steps: seq<Step>, home: Homes)
  {
    steps == [] ||
    var before, step := steps[..|steps| - 1], steps[|steps| - 1];
    AllAdmissible(w, before, home) && Admissible(Run(w, before, home), step, home) &&
    (step.Incoming? ==> Flushed(before))
  }

  // ----- invariants -----

  /** The private and session topics are held, the global one is not. */
  ghost predicate Pinned(conn: Conn, session: bool)
  {
    PrivateTopic in conn.subs.subscribed &&
    (session <==> SessionTopic in conn.subs.subscribed) &&
    GlobalTopic !in conn.subs.subscribed
  }

  /** Client and subscriptions agree, and whatever is queued can be flushed exactly. */
  ghost predicate Good(w: World, home: Homes, session: bool)
  {
    Synced(w.conn, w.told, home) && Tracked(w.conn) && |w.conn.active| <= ACTIVE_SERVERS_CAPACITY &&
    (w.conn.subs.queue.Reset? || (Coherent(w.conn.subs, w.upstream) && !Clash(w.conn.subs))) &&
    Pinned(w.conn, session) && ServersHeld(w.conn)
  }

  lemma ReadyIsGood(cache: Cache, session: bool, privileged: bool, topics: seq<Topic>, home: Homes)
    requires ReadyTopics(cache, topics)
    requires forall c :: c in cache.channels ==> ServerOf(cache.channels[c]) == home(c)
    requires forall s :: s in cache.servers ==> ServerConforms(home, s, cache.servers[s])
    ensures Good(ReadyWorld(cache, session, privileged, topics), home, session)
  {
    var w := ReadyWorld(cache, session, privileged, topics);
    assert Elements([PrivateTopic] + topics) == {PrivateTopic} + Elements(topics);
    forall c ensures Subscribed(w.conn, c) <==> c in w.told {
      assert ChannelTopic(c) in Elements(topics) <==> ChannelTopic(c) in topics;
    }
    forall t | t in w.conn.subs.subscribed ensures !t.MemberTopic? && !t.GlobalTopic? {
      assert t in Elements(topics) ==> Eventful(t);
    }
    assert SessionTopic in Elements(topics) ==> Eventful(SessionTopic);
    ReadyHoldsServers(cache, session, privileged, topics);
  }

  lemma ReadyHoldsServers(cache: Cache, session: bool, privileged: bool, topics: seq<Topic>)
    requires ReadyTopics(cache, topics)
    ensures ServersHeld(ReadyConn(cache, session, privileged, topics))
  {
    assert Elements([PrivateTopic] + topics) == {PrivateTopic} + Elements(topics);
    forall s ensures ServerTopic(s) in Elements(topics) <==> s in cache.servers {
      assert ServerTopic(s) in Elements(topics) <==> ServerTopic(s) in topics;
    }
  }

  /** The flush leaves nothing queued, Redis holding exactly `subscribed`, and the wanted member topics. */
  lemma FlushIsExact(w: World, now: int, order: seq<Id>, home: Homes, session: bool)
    requires Good(w, home, session) && OrderCovers(w.conn, order)
    ensures var f := Flush(w, now, order);
      Good(f, home, session) && f.conn.subs.queue.Unchanged? && f.upstream == f.conn.subs.subscribed &&
      f.conn.subs.subscribed == Reconcile(w.conn, now, order).subs.subscribed &&
      Exact(f.conn, w.conn, now) &&
      (!w.conn.cache.isBot ==> |f.conn.memberTopics| <= ACTIVE_SERVERS_CAPACITY)
    ensures forall t: Topic :: !t.MemberTopic? ==>
      (t in Flush(w, now, order).conn.subs.subscribed <==> t in w.conn.subs.subscribed)
  {
    var reconciled := Reconcile(w.conn, now, order);
    ReconcileIsExact(w.conn, now, order);
    if !w.conn.subs.queue.Reset? {
      ReconcileKeepsCoherent(w.conn, now, order, w.upstream);
      ReconcileKeepsNoClash(w.conn, now, order, w.upstream);
      FlushExactIffNoClash(reconciled.subs, w.upstream);
    }
    if !w.conn.cache.isBot { ReconcileIsBounded(w.conn, now, order); }
    var f := Flush(w, now, order);
    forall t ensures Balanced(f.conn.subs, f.upstream, t) { }
    FlushedSynced(w, now, order, home);
    FlushedTracked(w, now, order);
  }

  lemma FlushedSynced(w: World, now: int, order: seq<Id>, home: Homes)
    requires Synced(w.conn, w.told, home) && Tracked(w.conn) && OrderCovers(w.conn, order)
    requires ApplyState(w.conn, now, order).subs.subscribed == Reconcile(w.conn, now, order).subs.subscribed
    ensures Synced(ApplyState(w.conn, now, order), w.told, home)
  {
    ReconcileIsExact(w.conn, now, order);
    var f := ApplyState(w.conn, now, order);
    forall c ensures Subscribed(f, c) <==> Subscribed(w.conn, c) {
      assert !ChannelTopic(c).MemberTopic?;
    }
  }

  lemma FlushedTracked(w: World, now: int, order: seq<Id>)
    requires Tracked(w.conn) && OrderCovers(w.conn, order)
    requires ApplyState(w.conn, now, order).subs.subscribed == Reconcile(w.conn, now, order).subs.subscribed
    ensures Tracked(ApplyState(w.conn, now, order))
  {
    ReconcileIsExact(w.conn, now, order);
    var f := ApplyState(w.conn, now, order);
    forall t | t in f.memberTopics ensures t in f.subs.subscribed { assert MemberTopic(t.of) == t; }
    forall t | t in f.subs.subscribed && t.MemberTopic? ensures t in f.memberTopics { assert MemberTopic(t.of) == t; }
  }

  lemma DeliverKeepsGood(w: World, env: Env, event: Event, home: Homes, session: bool)
    requires Good(w, home, session) && w.conn.subs.queue.Unchanged? && w.upstream == w.conn.subs.subscribed
    requires Delivers(w.conn, env, event, home)
    ensures Good(Deliver(w, env, event, home), home, session)
  {
    HandleKeepsSynced(w.conn, env, event, w.told, home);
    HandleTidy(w.conn, env, event, w.told, home);
    HandleKeepsServers(w.conn, env, event);
    CleanNeverClashes(w.conn.subs.subscribed, Handle(w.conn, env, event).conn.subs);
    assert !Eventful(PrivateTopic) && !Eventful(SessionTopic) && !Eventful(GlobalTopic);
  }

  /** The worker only touches the active set, which stays within its bound. */
  lemma WorkerKeepsGood(w: World, server: Id, now: int, home: Homes, session: bool)
    requires Good(w, home, session)
    ensures Good(Next(w, WorkerSubscribe(server, now), home), home, session)
  {
    var next := Next(w, WorkerSubscribe(server, now), home);
    assert Synced(next.conn, next.told, home) && Tracked(next.conn);
  }

  /** Nothing is queued and Redis holds exactly `subscribed`. */
  ghost predicate Level(w: World)
  {
    w.conn.subs.queue.Unchanged? && w.upstream == w.conn.subs.subscribed
  }

  lemma NextKeepsGood(w: World, step: Step, flushed: bool, home: Homes, session: bool)
    requires Good(w, home, session) && Admissible(w, step, home)
    requires flushed ==> Level(w)
    requires step.Incoming? ==> flushed
    ensures Good(Next(w, step, home), home, session)
    ensures step.TopOfLoop? || (step.WorkerSubscribe? && flushed) ==> Level(Next(w, step, home))
  {
    match step
    case TopOfLoop(now, order) => FlushIsExact(w, now, order, home, session);
    case Incoming(env, event) => DeliverKeepsGood(w, env, event, home, session);
    case WorkerSubscribe(server, now) => WorkerKeepsGood(w, server, now, home, session);
  }

  /** The invariant; and from a flush to the next event Redis holds `subscribed`, whatever the worker does. */
  lemma {:induction false} RunKeepsGood(w: World, steps: seq<Step>, home: Homes, session: bool)
    requires Good(w, home, session) && AllAdmissible(w, steps, home)
    ensures Good(Run(w, steps, home), home, session)
    ensures Flushed(steps) ==> Level(Run(w, steps, home))
  {
    if steps != [] {
      var before, step := steps[..|steps| - 1], steps[|steps| - 1];
      RunKeepsGood(w, before, home, session);
      NextKeepsGood(Run(w, before, home), step, Flushed(before), home, session);
    }
  }

  /**
  For every run from Ready, at every point: a channel is subscribed exactly when the
  client knows it, and only cached channels are; a server's topic is subscribed exactly when
  the server is cached; and the next flush, whenever it comes
  and whatever the worker has touched, leaves Redis with exactly the wanted topics,
  changes no channel subscription, and holds exactly the member topics of all cached
  servers (bot) or of those asked for less than 900 seconds ago, at most five (user).
  */
  lemma RunIsFaithful(cache: Cache, session: bool, privileged: bool, topics: seq<Topic>, steps: seq<Step>,
                      home: Homes, now: int, order: seq<Id>)
    requires ReadyTopics(cache, topics)
    requires forall c :: c in cache.channels ==> ServerOf(cache.channels[c]) == home(c)
    requires forall s :: s in cache.servers ==> ServerConforms(home, s, cache.servers[s])
    requires AllAdmissible(ReadyWorld(cache, session, privileged, topics), steps, home)
    ensures var w := Run(ReadyWorld(cache, session, privileged, topics), steps, home);
      (forall c :: Subscribed(w.conn, c) <==> c in w.told) &&
      (forall c :: Subscribed(w.conn, c) ==> c in w.conn.cache.channels) &&
      (forall s :: ServerTopic(s) in w.conn.subs.subscribed <==> s in w.conn.cache.servers) &&
      (OrderCovers(w.conn, order) ==> FlushesTo(w, Flush(w, now, order), now))
  {
    var start := ReadyWorld(cache, session, privileged, topics);
    ReadyIsGood(cache, session, privileged, topics, home);
    RunKeepsGood(start, steps, home, session);
    var w := Run(start, steps, home);
    if OrderCovers(w.conn, order) {
      FlushIsExact(w, now, order, home, session);
      forall c ensures Subscribed(Flush(w, now, order).conn, c) <==> Subscribed(w.conn, c) {
        assert !ChannelTopic(c).MemberTopic?;
      }
      forall id ensures Wanted(w.conn, now, id) <==> Follows(w.conn, now, id) { WantedIff(w.conn, now, id); }
    }
  }

  /** `f` is `w` flushed: Redis holds exactly `subscribed`, the same channels, and the wanted member topics. */
  ghost predicate FlushesTo(w: World, f: World, now: int)
  {
    f.upstream == f.conn.subs.subscribed &&
    (forall c :: Subscribed(f.conn, c) <==> Subscribed(w.conn, c)) &&
    (forall id :: MemberTopic(id) in f.upstream <==> Follows(w.conn, now, id)) &&
    (!w.conn.cache.isBot ==> |f.conn.memberTopics| <= 5)
  }

  /**
  The assumptions are about the surroundings, never about the state reached: any run can be
  continued, after a flush, with any conforming event, a filtered `ServerCreate` included, from any
  conforming database and in any iteration order that lists the keys.
  */
  lemma RunContinues(w: World, steps: seq<Step>, env: Env, event: Event, home: Homes)
    requires AllAdmissible(w, steps, home) && Flushed(steps) && Covers(env.order, Run(w, steps, home).conn, event)
    requires DbConforms(home, env.db) && ReadsRequested(env.db) && EventConforms(home, event)
    requires Filtered(env.db, event)
    ensures AllAdmissible(w, steps + [Incoming(env, event)], home)
  {
    assert (steps + [Incoming(env, event)])[..|steps|] == steps;
    FilteredIsViewable(Run(w, steps, home).conn, env, event);
  }

  /**
  Over every run the private topic and (for a non-empty session id) the session topic
  stay subscribed, while the global topic that `State::from` gives a privileged user is
  gone: Ready's `reset_state` drops it and nothing brings it back.
  */
  lemma GlobalTopicIsLost(cache: Cache, session: bool, privileged: bool,
                          topics: seq<Topic>, steps: seq<Step>, home: Homes)
    requires ReadyTopics(cache, topics)
    requires forall c :: c in cache.channels ==> ServerOf(cache.channels[c]) == home(c)
    requires forall s :: s in cache.servers ==> ServerConforms(home, s, cache.servers[s])
    requires AllAdmissible(ReadyWorld(cache, session, privileged, topics), steps, home)
    ensures GlobalTopic in NewSubs(cache.userId, session, privileged).subscribed <==> privileged
    ensures Pinned(Run(ReadyWorld(cache, session, privileged, topics), steps, home).conn, session)
  {
    ReadyIsGood(cache, session, privileged, topics, home);
    RunKeepsGood(ReadyWorld(cache, session, privileged, topics), steps, home, session);
  }

  // ----- the active set over a run -----

  /** What a run does to the active set: touches, the own leaves and deletions, and a user's flushes. */
  ghost function Trace(w: World, steps: seq<Step>, home: Homes): seq<ActiveHistory.Op>
  {
    if steps == [] then []
    else
      var before, step := steps[..|steps| - 1], steps[|steps| - 1];
      Trace(w, before, home) + OpsOf(Run(w, before, home).conn, step)
  }

  ghost function OpsOf(conn: Conn, step: Step): seq<ActiveHistory.Op>
  {
    match step
    case TopOfLoop(now, _) => if conn.cache.isBot then [] else [ActiveHistory.ReadOp(now)]
    case Incoming(_, event) =>
      if event.ServerDelete? || (event.ServerMemberLeave? && event.user == conn.cache.userId)
      then [ActiveHistory.RemoveOp(event.id)] else []
    case WorkerSubscribe(server, now) => [ActiveHistory.TouchOp(server, now)]
  }

  /** One step does to the active set what its operations say. */
  lemma StepIsTraced(w: World, step: Step, home: Homes, session: bool)
    requires Good(w, home, session) && Admissible(w, step, home) && (step.Incoming? ==> Level(w))
    ensures var ops := OpsOf(w.conn, step);
      Next(w, step, home).conn.active ==
        if ops == [] then w.conn.active else ActiveHistory.Step(w.conn.active, 5, 900, ops[0])
  {
    if step.Incoming? && !step.event.ServerDelete? && !step.event.ServerMemberLeave? {
      HandleTidyTracking(w.conn, step.env, step.event, w.told, home);
    } else if step.Incoming? {
      LeaveTidy(w.conn, step.env.order, step.event.id);
    }
  }

  lemma {:induction false} RunIsTraced(w: World, steps: seq<Step>, home: Homes, session: bool)
    requires Good(w, home, session) && AllAdmissible(w, steps, home) && w.conn.active == []
    ensures Run(w, steps, home).conn.active == ActiveHistory.Run(5, 900, Trace(w, steps, home))
  {
    if steps != [] {
      var before, step := steps[..|steps| - 1], steps[|steps| - 1];
      RunIsTraced(w, before, home, session);
      RunKeepsGood(w, before, home, session);
      StepIsTraced(Run(w, before, home), step, home, session);
      TraceStep(Trace(w, before, home), OpsOf(Run(w, before, home).conn, step));
    }
  }

  lemma TraceStep(trace: seq<ActiveHistory.Op>, ops: seq<ActiveHistory.Op>)
    requires |ops| <= 1
    ensures ActiveHistory.Run(5, 900, trace + ops) ==
      if ops == [] then ActiveHistory.Run(5, 900, trace)
      else ActiveHistory.Step(ActiveHistory.Run(5, 900, trace), 5, 900, ops[0])
  {
    if ops == [] {
      assert trace + ops == trace;
    } else {
      assert ops == [ops[0]] && (trace + ops)[..|trace|] == trace;
    }
  }

  /** Asked for less than 900 seconds ago, not left or found expired since, and fewer than five others asked since. */
  ghost predicate StillAsked(trace: seq<ActiveHistory.Op>, now: int, id: Id)
  {
    var asked := ActiveHistory.LastTouch(trace, id);
    && asked.Some? && now - asked.value < 900
    && !ActiveHistory.Ended(trace, 900, id) && |ActiveHistory.Since(trace, id)| < 5
  }

  /**
  At every flush of every run, a user has a server's member topic only if the server was last asked for less than
  900 seconds before; and has it if the server is cached and still asked for.
  */
  lemma MemberTopicByHistory(cache: Cache, session: bool, privileged: bool, topics: seq<Topic>, steps: seq<Step>,
                             home: Homes, now: int, order: seq<Id>, id: Id)
    requires ReadyTopics(cache, topics)
    requires forall c :: c in cache.channels ==> ServerOf(cache.channels[c]) == home(c)
    requires forall s :: s in cache.servers ==> ServerConforms(home, s, cache.servers[s])
    requires AllAdmissible(ReadyWorld(cache, session, privileged, topics), steps, home)
    ensures var start := ReadyWorld(cache, session, privileged, topics);
      var w, trace := Run(start, steps, home), Trace(start, steps, home);
      var asked := ActiveHistory.LastTouch(trace, id);
      OrderCovers(w.conn, order) && !w.conn.cache.isBot ==>
        && (MemberTopic(id) in Flush(w, now, order).upstream ==> asked.Some? && now - asked.value < 900)
        && (StillAsked(trace, now, id) && id in w.conn.cache.servers ==>
              MemberTopic(id) in Flush(w, now, order).upstream)
  {
    var start := ReadyWorld(cache, session, privileged, topics);
    var w, trace := Run(start, steps, home), Trace(start, steps, home);
    ReadyIsGood(cache, session, privileged, topics, home);
    RunIsTraced(start, steps, home, session);
    RunIsFaithful(cache, session, privileged, topics, steps, home, now, order);
    if !w.conn.cache.isBot { FollowedByHistory(w.conn, trace, now, id); }
  }

  lemma FollowedByHistory(conn: Conn, trace: seq<ActiveHistory.Op>, now: int, id: Id)
    requires conn.active == ActiveHistory.Run(5, 900, trace) && !conn.cache.isBot
    ensures var asked := ActiveHistory.LastTouch(trace, id);
      && (Follows(conn, now, id) ==> asked.Some? && now - asked.value < 900)
      && (StillAsked(trace, now, id) && id in conn.cache.servers ==> Follows(conn, now, id))
  {
    ActiveHistory.RunConsistent(5, 900, trace);
    ActiveHistory.HeldIffRecent(5, 900, trace, id);
    HeldSince(conn.active, trace, id);
  }

  lemma HeldSince(active: seq<ActiveHistory.Entry>, trace: seq<ActiveHistory.Op>, id: Id)
    requires ActiveHistory.Consistent(active, 5, 900, trace)
    ensures forall e :: e in active && e.key == id ==> ActiveHistory.LastTouch(trace, id) == Some(e.touched)
    ensures id in ActiveHistory.Keys(active) <==> exists e :: e in active && e.key == id
  {
  }
}
