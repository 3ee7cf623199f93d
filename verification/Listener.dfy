/**
The listener loop over one connection (crates/bonfire/src/websocket.rs:659-808): flush, wait, then at
most one event, with the worker's `Subscribe` frames anywhere in between. Running it is `Runs.Run`.
*/
module Listener {
  import opened Sequences
  import opened Subscriptions
  import opened Connection
  import opened Told
  import opened Runs
  import B = BonfireState

  /** One event; `sent` is what is forwarded to the client. */
  method Receive(state: B.State, env: Env, event: Event, ghost upstream: set<Topic>, ghost told: set<Id>,
                 ghost home: Homes)
      returns (sent: Option<Event>)
    requires state.Valid() && !state.queue.Reset?
    modifies state, state.active
    ensures state.Valid()
    ensures World(state.Model(), upstream, ReplaySent(told, old(state.cache.userId), home, sent))
         == Next(World(old(state.Model()), upstream, told), Incoming(env, event), home)
    ensures state.cache.userId == old(state.cache.userId)
  {
    sent := state.HandleIncomingEvent(env, event);
  }

  lemma {:induction false} ForwardOne(forwarded: seq<Event>, sent: Option<Event>, known: set<Id>, self: Id, home: Homes)
    ensures sent.Some? ==>
      ReplayAll(known, self, home, forwarded + [sent.value])
        == ReplaySent(ReplayAll(known, self, home, forwarded), self, home, sent)
  {
    if sent.Some? { assert (forwarded + [sent.value])[..|forwarded|] == forwarded; }
  }

  /**
  The loop over any sequence of flushes, events and worker frames in which each event comes after a flush;
  `told` is what the client then knows.
  */
  method Listen(subscriber: B.Subscriber, state: B.State, steps: seq<Step>, ghost known: set<Id>, ghost home: Homes)
      returns (forwarded: seq<Event>, ghost told: set<Id>)
    requires state.Valid() && LoopOrder(steps)
    modifies subscriber, state, state.active
    ensures state.Valid()
    ensures told == ReplayAll(known, old(state.cache.userId), home, forwarded)
    ensures World(state.Model(), subscriber.topics, told)
         == Run(World(old(state.Model()), old(subscriber.topics), known), steps, home)
  {
    ghost var start := World(state.Model(), subscriber.topics, known);
    ghost var self := state.cache.userId;
    forwarded, told := [], known;
    for i := 0 to |steps|
      invariant state.Valid() && state.cache.userId == self
      invariant Flushed(steps[..i]) ==> !state.queue.Reset?
      invariant told == ReplayAll(known, self, home, forwarded)
      invariant World(state.Model(), subscriber.topics, told) == Run(start, steps[..i], home)
    {
      assert steps[..i + 1][..i] == steps[..i];
      match steps[i] {
        case TopOfLoop(now, order) => subscriber.Flush(state, now, order);
        case Incoming(env, event) =>
          var sent := Receive(state, env, event, subscriber.topics, told, home);
          ForwardOne(forwarded, sent, known, self, home);
          told := ReplaySent(told, self, home, sent);
          if sent.Some? { forwarded := forwarded + [sent.value]; }
        case WorkerSubscribe(server, now) =>
          var _ := state.active.Subscribe(server, now);
      }
    }
    assert steps[..|steps|] == steps;
  }
}
