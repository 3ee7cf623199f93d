/**
Ratelimit buckets (crates/core/ratelimits/src/ratelimiter.rs:36-137). A bucket is read, checked,
charged and saved in separate accesses to a shared map, so requests on one key interleave.
*/
module Ratelimit {
  import opened Arithmetic
  import opened Sequences

  const WINDOW: nat := 10_000 // milliseconds

  type u32 = x: int | 0 <= x < TWO_32

  datatype Entry = Entry(used: u32, reset: nat)

  /** The bucket `from` makes up for an absent key. */
  function NewEntry(now: nat): Entry
  {
    Entry(0, now + WINDOW)
  }

  /** `get_remaining`; the difference is that of u32. */
  function Remaining(e: Entry, limit: u32, now: nat): u32
  {
    if now > e.reset then limit else (limit - e.used) % TWO_32
  }

  /** `deduct`: `now` is its first clock reading, `later` the one a new window starts at. */
  function Deducted(e: Entry, now: nat, later: nat): Entry
  {
    if now > e.reset then Entry(1, later + WINDOW) else e.(used := (e.used + 1) % TWO_32)
  }

  /** Saturating difference. */
  function LeftUntilReset(e: Entry, now: nat): nat
  {
    if now > e.reset then 0 else e.reset - now
  }

  // ----- every interleaving on one key -----

  /** How far one thread's request has come, and the copy of the bucket it carries. */
  datatype Phase =
    | Idle
    | Missing
    | Got(entry: Entry)
    | Allowed(entry: Entry, checked: nat)
    | Expired
    | Charged(entry: Entry)

  /** One access to the map or one clock reading. */
  datatype Step =
    | Fetch(thread: int)
    | Create(thread: int, at: nat)
    | Check(thread: int, at: nat)
    | Deduct(thread: int, at: nat)
    | Restart(thread: int, at: nat)
    | Save(thread: int)

  datatype System = System(stored: Option<Entry>, phases: map<int, Phase>)
  {
    function At(thread: int): Phase
    {
      if thread in phases then phases[thread] else Idle
    }

    function Put(thread: int, phase: Phase): System
    {
      this.(phases := phases[thread := phase])
    }
  }

  predicate Enabled(s: System, step: Step)
  {
    var phase := s.At(step.thread);
    match step
    case Fetch(_) => phase.Idle?
    case Create(_, _) => phase.Missing?
    case Check(_, _) => phase.Got?
    case Deduct(_, _) => phase.Allowed?
    case Restart(_, _) => phase.Expired?
    case Save(_) => phase.Charged?
  }

  function Next(s: System, limit: u32, step: Step): System
    requires Enabled(s, step)
  {
    var phase := s.At(step.thread);
    match step
    case Fetch(t) => s.Put(t, if s.stored.Some? then Got(s.stored.value) else Missing)
    case Create(t, at) => s.Put(t, Got(NewEntry(at)))
    case Check(t, at) =>
      s.Put(t, if Remaining(phase.entry, limit, at) == 0 then Idle else Allowed(phase.entry, at))
    case Deduct(t, at) =>
      s.Put(t, if at > phase.entry.reset then Expired else Charged(Deducted(phase.entry, at, at)))
    case Restart(t, at) => s.Put(t, Charged(Entry(1, at + WINDOW)))
    case Save(t) => s.Put(t, Idle).(stored := Some(phase.entry))
  }

  /** The steps are possible from `s` in this order. */
  predicate Possible(s: System, limit: u32, steps: seq<Step>)
    decreases |steps|
  {
    steps == [] || (Enabled(s, steps[0]) && Possible(Next(s, limit, steps[0]), limit, steps[1..]))
  }

  function Run(s: System, limit: u32, steps: seq<Step>): System
    requires Possible(s, limit, steps)
    decreases |steps|
  {
    if steps == [] then s else Run(Next(s, limit, steps[0]), limit, steps[1..])
  }

  /** A charge whose clock stepped back over the reset of a full bucket since its check. */
  predicate StepsBack(s: System, limit: u32, step: Step)
    requires Enabled(s, step)
  {
    step.Deduct? &&
    var phase := s.At(step.thread);
    phase.entry.used == limit && step.at <= phase.entry.reset < phase.checked
  }

  /** No charge of the run does that. */
  predicate NoStepBack(s: System, limit: u32, steps: seq<Step>)
    requires Possible(s, limit, steps)
    decreases |steps|
  {
    steps == [] || (!StepsBack(s, limit, steps[0]) && NoStepBack(Next(s, limit, steps[0]), limit, steps[1..]))
  }

  /** Every bucket charged in the run is within the limit. */
  predicate ChargesWithin(s: System, limit: u32, steps: seq<Step>)
    requires Possible(s, limit, steps)
    decreases |steps|
  {
    steps == [] ||
    var next := Next(s, limit, steps[0]);
    var phase := next.At(steps[0].thread);
    (phase.Charged? ==> Within(phase.entry, limit)) && ChargesWithin(next, limit, steps[1..])
  }

  const Empty := System(None, map[])

  predicate Within(e: Entry, limit: u32)
  {
    1 <= e.used <= limit
  }

  /** A copy that was let through had a unit left, or its window had run out when it was checked. */
  ghost predicate PhaseSound(phase: Phase, limit: u32)
  {
    match phase
    case Got(e) => e.used <= limit
    case Allowed(e, checked) => 1 <= limit && e.used <= limit && (checked > e.reset || e.used < limit)
    case Expired => 1 <= limit
    case Charged(e) => Within(e, limit)
    case _ => true
  }

  ghost predicate Sound(s: System, limit: u32)
  {
    (s.stored.Some? ==> Within(s.stored.value, limit)) && forall t :: PhaseSound(s.At(t), limit)
  }

  lemma StepKeepsSound(s: System, limit: u32, step: Step)
    requires Sound(s, limit) && Enabled(s, step) && !StepsBack(s, limit, step)
    ensures Sound(Next(s, limit, step), limit)
  {
    var t := step.thread;
    assert PhaseSound(s.At(t), limit);
    var s' := Next(s, limit, step);
    forall u
      ensures PhaseSound(s'.At(u), limit)
    {
      if u != t {
        assert s'.At(u) == s.At(u) && PhaseSound(s.At(u), limit);
      }
    }
  }

  lemma {:induction false} RunKeepsSound(s: System, limit: u32, steps: seq<Step>)
    requires Sound(s, limit) && Possible(s, limit, steps) && NoStepBack(s, limit, steps)
    ensures Sound(Run(s, limit, steps), limit)
    decreases |steps|
  {
    if steps != [] {
      StepKeepsSound(s, limit, steps[0]);
      RunKeepsSound(Next(s, limit, steps[0]), limit, steps[1..]);
    }
  }

  /** A charge that steps back leaves the limit. */
  lemma StepBackOverfills(s: System, limit: u32, step: Step)
    requires Sound(s, limit) && Enabled(s, step) && StepsBack(s, limit, step)
    ensures var phase := Next(s, limit, step).At(step.thread); phase.Charged? && !Within(phase.entry, limit)
  {
    assert PhaseSound(s.At(step.thread), limit);
  }

  lemma {:induction false} ChargesWithinFrom(s: System, limit: u32, steps: seq<Step>)
    requires Sound(s, limit) && Possible(s, limit, steps)
    ensures ChargesWithin(s, limit, steps) <==> NoStepBack(s, limit, steps)
    decreases |steps|
  {
    if steps != [] {
      var step := steps[0];
      if StepsBack(s, limit, step) {
        StepBackOverfills(s, limit, step);
      } else {
        StepKeepsSound(s, limit, step);
        assert PhaseSound(Next(s, limit, step).At(step.thread), limit);
        ChargesWithinFrom(Next(s, limit, step), limit, steps[1..]);
      }
    }
  }

  /**
  In every interleaving of any number of requests every bucket charged has `1 <= used <= limit` if and only if
  no charge steps back over the reset of a full bucket.
  */
  lemma ChargesWithinIff(limit: u32, steps: seq<Step>)
    requires Possible(Empty, limit, steps)
    ensures ChargesWithin(Empty, limit, steps) <==> NoStepBack(Empty, limit, steps)
  {
    ChargesWithinFrom(Empty, limit, steps);
  }

  /** Then every stored entry is within the limit as well. */
  lemma StoredWithinLimit(limit: u32, steps: seq<Step>)
    requires Possible(Empty, limit, steps) && NoStepBack(Empty, limit, steps)
    ensures var s := Run(Empty, limit, steps); s.stored.Some? ==> Within(s.stored.value, limit)
  {
    RunKeepsSound(Empty, limit, steps);
  }

  /** And no thread computes `limit - used` below zero, nor counts past the largest u32. */
  lemma NeverWraps(limit: u32, steps: seq<Step>, thread: int, now: nat)
    requires Possible(Empty, limit, steps) && NoStepBack(Empty, limit, steps)
    ensures var phase := Run(Empty, limit, steps).At(thread);
      && (phase.Got? && now <= phase.entry.reset ==> Remaining(phase.entry, limit, now) == limit - phase.entry.used)
      && (phase.Allowed? && now <= phase.entry.reset
          && !(phase.entry.used == limit && phase.entry.reset < phase.checked) ==>
            Deducted(phase.entry, now, now).used == phase.entry.used + 1 <= limit)
  {
    RunKeepsSound(Empty, limit, steps);
    assert PhaseSound(Run(Empty, limit, steps).At(thread), limit);
  }

  /** The exact condition on the clock, for one request that was let through. */
  lemma DeductWithinIff(e: Entry, limit: u32, checked: nat, now: nat, later: nat)
    requires e.used <= limit && Remaining(e, limit, checked) != 0
    ensures Within(Deducted(e, now, later), limit) <==> !(e.used == limit && now <= e.reset < checked)
  {
  }

  // ----- one request on its own -----

  /** The clock readings of one request, in program order. */
  datatype Clock = Clock(create: nat, check: nat, before: nat, deduct: nat, restart: nat, after: nat)
  {
    predicate Forward()
    {
      create <= check <= before <= deduct <= restart <= after
    }
  }

  function Found(stored: Option<Entry>, c: Clock): Entry
  {
    if stored.Some? then stored.value else NewEntry(c.create)
  }

  predicate Admitted(stored: Option<Entry>, limit: u32, c: Clock)
  {
    Remaining(Found(stored, c), limit, c.check) != 0
  }

  function Charge(stored: Option<Entry>, c: Clock): Entry
  {
    Deducted(Found(stored, c), c.deduct, c.restart)
  }

  /** What one undisturbed request leaves in the map. */
  function Request(stored: Option<Entry>, limit: u32, c: Clock): Option<Entry>
  {
    if Admitted(stored, limit, c) then Some(Charge(stored, c)) else stored
  }

  function ChargeSteps(t: int, e: Entry, c: Clock): seq<Step>
  {
    [Deduct(t, c.deduct)] + ((if c.deduct > e.reset then [Restart(t, c.restart)] else []) + [Save(t)])
  }

  function RequestSteps(t: int, stored: Option<Entry>, limit: u32, c: Clock): seq<Step>
  {
    [Fetch(t)] + ((if stored.None? then [Create(t, c.create)] else []) +
      ([Check(t, c.check)] + if Admitted(stored, limit, c) then ChargeSteps(t, Found(stored, c), c) else []))
  }

  /** The first step of a run, and the rest of it. */
  lemma RunFirst(s: System, limit: u32, step: Step, rest: seq<Step>)
    requires Enabled(s, step) && Possible(Next(s, limit, step), limit, rest)
    ensures Possible(s, limit, [step] + rest)
    ensures Run(s, limit, [step] + rest) == Run(Next(s, limit, step), limit, rest)
  {
    assert ([step] + rest)[1..] == rest;
  }

  /** The thread is done and its request left `stored` behind. */
  predicate Done(s: System, limit: u32, steps: seq<Step>, t: int, stored: Option<Entry>)
  {
    Possible(s, limit, steps) && Run(s, limit, steps).stored == stored && Run(s, limit, steps).At(t).Idle?
  }

  lemma SaveRuns(s: System, limit: u32, t: int)
    requires s.At(t).Charged?
    ensures Done(s, limit, [Save(t)], t, Some(s.At(t).entry))
  {
    var rest: seq<Step> := [];
    RunFirst(s, limit, Save(t), rest);
    assert [Save(t)] + rest == [Save(t)];
  }

  lemma ChargeRuns(s: System, limit: u32, t: int, c: Clock)
    requires s.At(t).Allowed?
    ensures var e := s.At(t).entry; Done(s, limit, ChargeSteps(t, e, c), t, Some(Deducted(e, c.deduct, c.restart)))
  {
    var e := s.At(t).entry;
    var s' := Next(s, limit, Deduct(t, c.deduct));
    if c.deduct > e.reset {
      var s'' := Next(s', limit, Restart(t, c.restart));
      SaveRuns(s'', limit, t);
      RunFirst(s', limit, Restart(t, c.restart), [Save(t)]);
      RunFirst(s, limit, Deduct(t, c.deduct), [Restart(t, c.restart)] + [Save(t)]);
    } else {
      SaveRuns(s', limit, t);
      var none: seq<Step> := [];
      assert none + [Save(t)] == [Save(t)];
      RunFirst(s, limit, Deduct(t, c.deduct), [Save(t)]);
    }
  }

  lemma CheckRuns(s: System, limit: u32, t: int, c: Clock, stored: Option<Entry>)
    requires s.At(t) == Got(Found(stored, c)) && s.stored == stored
    ensures Done(s, limit,
                 [Check(t, c.check)] + if Admitted(stored, limit, c) then ChargeSteps(t, Found(stored, c), c) else [],
                 t, Request(stored, limit, c))
  {
    var s' := Next(s, limit, Check(t, c.check));
    if Admitted(stored, limit, c) {
      ChargeRuns(s', limit, t, c);
      RunFirst(s, limit, Check(t, c.check), ChargeSteps(t, Found(stored, c), c));
    } else {
      RunFirst(s, limit, Check(t, c.check), []);
    }
  }

  /** A request no other thread interferes with is one of the interleavings, and does what `Request` says. */
  lemma RequestIsARun(s: System, limit: u32, t: int, c: Clock)
    requires s.At(t).Idle?
    ensures Done(s, limit, RequestSteps(t, s.stored, limit, c), t, Request(s.stored, limit, c))
  {
    var s' := Next(s, limit, Fetch(t));
    var charge := if Admitted(s.stored, limit, c) then ChargeSteps(t, Found(s.stored, c), c) else [];
    var rest := [Check(t, c.check)] + charge;
    if s.stored.None? {
      CheckRuns(Next(s', limit, Create(t, c.create)), limit, t, c, s.stored);
      RunFirst(s', limit, Create(t, c.create), rest);
      RunFirst(s, limit, Fetch(t), [Create(t, c.create)] + rest);
    } else {
      CheckRuns(s', limit, t, c, s.stored);
      var none: seq<Step> := [];
      assert none + rest == rest;
      RunFirst(s, limit, Fetch(t), rest);
    }
  }

  /** The `remaining` the guard reports is what the saved bucket has left, unless the window ran out in between. */
  lemma GuardAgreesIff(e: Entry, limit: u32, c: Clock)
    requires e.used <= limit && Remaining(e, limit, c.check) != 0 && c.Forward()
    ensures Remaining(e, limit, c.check) - 1 == limit - Deducted(e, c.deduct, c.restart).used
      <==> (c.deduct <= e.reset || e.reset < c.check || e.used == 0)
  {
  }

  // ----- why the clock and the order matter -----

  /** A clock stepping back over the reset overfills the bucket, which then hands out 2^32 - 1 requests. */
  lemma BackwardClockOverfills()
    ensures var full := Request(None, 1, Clock(0, 0, 0, 0, 0, 0));
      && full == Some(Entry(1, 10_000))
      && Request(full, 1, Clock(10_001, 10_001, 10_001, 10_000, 10_001, 10_001)) == Some(Entry(2, 10_000))
      && Remaining(Entry(2, 10_000), 1, 10_000) == TWO_32 - 1
  {
  }

  /** Threads `k` to `n - 1` each find no bucket, make one up and check it. */
  function Enter(k: nat, n: nat, now: nat): seq<Step>
    decreases n - k
  {
    if k >= n then [] else [Fetch(k)] + ([Create(k, now)] + ([Check(k, now)] + Enter(k + 1, n, now)))
  }

  /** Threads `k` to `n - 1` each charge and save their copy. */
  function Leave(k: nat, n: nat, now: nat): seq<Step>
    decreases n - k
  {
    if k >= n then [] else [Deduct(k, now)] + ([Save(k)] + Leave(k + 1, n, now))
  }

  lemma {:induction false} EnterRuns(s: System, limit: u32, now: nat, k: nat, n: nat)
    requires s.stored.None? && limit >= 1 && forall t :: k <= t < n ==> s.At(t).Idle?
    ensures Possible(s, limit, Enter(k, n, now))
    ensures var s' := Run(s, limit, Enter(k, n, now));
      s'.stored.None? && forall t :: s'.At(t) == if k <= t < n then Allowed(NewEntry(now), now) else s.At(t)
    decreases n - k
  {
    if k < n {
      var s1 := Next(s, limit, Fetch(k));
      var s2 := Next(s1, limit, Create(k, now));
      var s3 := Next(s2, limit, Check(k, now));
      assert forall t :: t != k ==> s3.At(t) == s.At(t);
      EnterRuns(s3, limit, now, k + 1, n);
      RunFirst(s2, limit, Check(k, now), Enter(k + 1, n, now));
      RunFirst(s1, limit, Create(k, now), [Check(k, now)] + Enter(k + 1, n, now));
      RunFirst(s, limit, Fetch(k), [Create(k, now)] + ([Check(k, now)] + Enter(k + 1, n, now)));
    }
  }

  lemma {:induction false} LeaveRuns(s: System, limit: u32, e: Entry, now: nat, k: nat, n: nat)
    requires e.used < limit && now <= e.reset && forall t :: k <= t < n ==> s.At(t) == Allowed(e, now)
    ensures Possible(s, limit, Leave(k, n, now))
    ensures Run(s, limit, Leave(k, n, now)).stored == if k < n then Some(e.(used := e.used + 1)) else s.stored
    decreases n - k
  {
    if k < n {
      var s1 := Next(s, limit, Deduct(k, now));
      var s2 := Next(s1, limit, Save(k));
      assert forall t :: t != k ==> s2.At(t) == s.At(t);
      LeaveRuns(s2, limit, e, now, k + 1, n);
      RunFirst(s1, limit, Save(k), Leave(k + 1, n, now));
      RunFirst(s, limit, Deduct(k, now), [Save(k)] + Leave(k + 1, n, now));
    }
  }

  /** Overlapping requests are not bounded by the limit: any number pass a fresh key, and one is counted. */
  lemma OverlapIsUnbounded(limit: u32, now: nat, n: nat)
    requires limit >= 1 && n > 0
    ensures Possible(Empty, limit, Enter(0, n, now))
    ensures var inside := Run(Empty, limit, Enter(0, n, now));
      && (forall t :: 0 <= t < n ==> inside.At(t).Allowed?)
      && Possible(inside, limit, Leave(0, n, now))
      && Run(inside, limit, Leave(0, n, now)).stored == Some(Entry(1, now + WINDOW))
  {
    EnterRuns(Empty, limit, now, 0, n);
    LeaveRuns(Run(Empty, limit, Enter(0, n, now)), limit, NewEntry(now), now, 0, n);
  }

  // ----- requests one at a time -----

  /** Requests in turn: each one's clock goes forward and none starts before the previous one ended. */
  predicate InTurn(requests: seq<Clock>)
  {
    (forall i :: 0 <= i < |requests| ==> requests[i].Forward())
    && forall i, j :: 0 <= i < j < |requests| ==> requests[i].after <= requests[j].create
  }

  function Stored(requests: seq<Clock>, limit: u32): Option<Entry>
  {
    if requests == [] then None
    else Request(Stored(requests[..|requests| - 1], limit), limit, requests[|requests| - 1])
  }

  /** How many were let through and counted at a moment of `[a, a + 10 s]`. */
  function AdmittedIn(requests: seq<Clock>, limit: u32, a: nat): nat
  {
    if requests == [] then 0
    else
      var before, c := requests[..|requests| - 1], requests[|requests| - 1];
      AdmittedIn(before, limit, a)
      + if Admitted(Stored(before, limit), limit, c) && a <= c.deduct <= a + WINDOW then 1 else 0
  }

  /** What the stored window start says about the count. */
  predicate Bounded(stored: Option<Entry>, count: nat, limit: u32, a: nat, last: nat)
  {
    match stored
    case None => count == 0
    case Some(e) =>
      var start := e.reset - WINDOW;
      && Within(e, limit) && start <= last
      && (last < a ==> count == 0)
      && (start < a ==> count <= e.used)
      && (a <= start <= a + WINDOW ==> count <= limit + e.used)
      && count <= 2 * limit
  }

  lemma RequestKeepsBounded(stored: Option<Entry>, count: nat, limit: u32, a: nat, last: nat, c: Clock)
    requires Bounded(stored, count, limit, a, last) && c.Forward() && last <= c.create
    ensures var admitted := Admitted(stored, limit, c) && a <= c.deduct <= a + WINDOW;
      Bounded(Request(stored, limit, c), count + if admitted then 1 else 0, limit, a, c.after)
  {
  }

  lemma {:induction false} RequestsKeepBounded(requests: seq<Clock>, limit: u32, a: nat)
    requires InTurn(requests)
    ensures Bounded(Stored(requests, limit), AdmittedIn(requests, limit, a), limit, a,
                    if requests == [] then 0 else requests[|requests| - 1].after)
  {
    if requests != [] {
      var before, c := requests[..|requests| - 1], requests[|requests| - 1];
      RequestsKeepBounded(before, limit, a);
      var last := if before == [] then 0 else before[|before| - 1].after;
      RequestKeepsBounded(Stored(before, limit), AdmittedIn(before, limit, a), limit, a, last, c);
    }
  }

  /** When requests on a key run one at a time, any ten-second interval admits at most twice the limit. */
  lemma TwiceTheLimit(requests: seq<Clock>, limit: u32, a: nat)
    requires InTurn(requests)
    ensures AdmittedIn(requests, limit, a) <= 2 * limit
  {
    RequestsKeepBounded(requests, limit, a);
  }

  /** The bound is reached: a bucket opened just in time expires one millisecond after its last request. */
  lemma TwiceIsReached()
    ensures var first := Clock(0, 0, 0, 10_000, 10_000, 10_000);
      var requests := [first, Clock(10_001, 10_001, 10_001, 10_001, 10_001, 10_001)];
      InTurn(requests) && AdmittedIn(requests, 1, 10_000) == 2
  {
    var first := Clock(0, 0, 0, 10_000, 10_000, 10_000);
    var second := Clock(10_001, 10_001, 10_001, 10_001, 10_001, 10_001);
    var none: seq<Clock> := [];
    assert [first, second][..1] == [first] && [first][..0] == none;
    assert Stored(none, 1) == None && AdmittedIn(none, 1, 10_000) == 0;
    assert Stored([first], 1) == Some(Entry(1, 10_000)) && AdmittedIn([first], 1, 10_000) == 1;
  }

  // ----- what is let through -----

  /** All readings of the requests fall into the ten seconds after the first one found no bucket. */
  predicate InFirstWindow(requests: seq<Clock>)
  {
    forall i :: 0 <= i < |requests| ==>
      requests[i].check <= requests[0].create + 10_000 && requests[i].deduct <= requests[0].create + 10_000
  }

  /** The bucket after `k` requests within the window that starts at `start`. */
  function WindowEntry(k: nat, limit: u32, start: nat): Option<Entry>
  {
    if k == 0 || limit == 0 then None else Some(Entry(if k <= limit then k else limit, start + 10_000))
  }

  lemma WindowStep(k: nat, limit: u32, start: nat, c: Clock)
    requires start <= c.create && (k == 0 ==> c.create == start)
    requires c.check <= start + 10_000 && c.deduct <= start + 10_000
    ensures Admitted(WindowEntry(k, limit, start), limit, c) <==> k < limit
    ensures Request(WindowEntry(k, limit, start), limit, c) == WindowEntry(k + 1, limit, start)
  {
  }

  /** Of requests in turn within one window exactly the first `limit` are let through. */
  lemma {:induction false} FirstLimitPass(requests: seq<Clock>, limit: u32, i: nat)
    requires InTurn(requests) && InFirstWindow(requests) && i < |requests|
    ensures Admitted(Stored(requests[..i], limit), limit, requests[i]) <==> i < limit
    ensures Stored(requests[..i], limit) == WindowEntry(i, limit, requests[0].create)
  {
    var start := requests[0].create;
    assert i > 0 ==> requests[0].after <= requests[i].create && requests[0].Forward();
    WindowStep(i, limit, start, requests[i]);
    if i > 0 {
      FirstLimitPass(requests, limit, i - 1);
      assert i > 1 ==> requests[0].after <= requests[i - 1].create && requests[0].Forward();
      WindowStep(i - 1, limit, start, requests[i - 1]);
      assert requests[..i][..i - 1] == requests[..i - 1] && requests[..i][i - 1] == requests[i - 1];
    }
  }

  /** A request more than ten seconds after its window started is let through and starts a new window. */
  lemma NewWindowPasses(e: Entry, limit: u32, c: Clock)
    requires limit >= 1 && c.Forward() && c.check > e.reset
    ensures Admitted(Some(e), limit, c) && Request(Some(e), limit, c) == Some(Entry(1, c.restart + 10_000))
  {
  }

  /** The reported wait is the shortest after which the window is over. */
  lemma WaitEndsWindow(e: Entry, now: nat, later: nat)
    requires now <= later
    ensures LeftUntilReset(e, now) <= later - now <==> e.reset <= later
  {
  }

  // ----- the shared map -----

  datatype Guard = Guard(key: int, limit: u32, remaining: u32, reset: nat)

  datatype Verdict = Ok(guard: Guard) | Err(guard: Guard)

  class Storage {
    var buckets: map<int, Entry>

    constructor ()
      ensures buckets == map[]
    {
      buckets := map[];
    }

    /** `Ratelimiter::from` run on its own. */
    method From(key: int, limit: u32, c: Clock) returns (r: Verdict)
      modifies this
      ensures Get(buckets, key) == Request(old(Get(buckets, key)), limit, c)
      ensures forall k :: k != key ==> Get(buckets, k) == old(Get(buckets, k))
      ensures r.Ok? <==> Admitted(old(Get(buckets, key)), limit, c)
      ensures r.guard.key == key && r.guard.limit == limit
      ensures r.Ok? ==> r.guard.remaining + 1 == Remaining(Found(old(Get(buckets, key)), c), limit, c.check)
      ensures r.Ok? ==> key in buckets && r.guard.reset == LeftUntilReset(buckets[key], c.after)
      ensures r.Err? ==>
        r.guard.remaining == 0 && r.guard.reset == LeftUntilReset(Found(old(Get(buckets, key)), c), c.before)
    {
      var entry := if key in buckets then buckets[key] else NewEntry(c.create);
      var remaining := if c.check > entry.reset then limit else (limit - entry.used) % TWO_32;
      var guard := Guard(key, limit, remaining, if c.before > entry.reset then 0 else entry.reset - c.before);
      if remaining == 0 { return Err(guard); }
      if c.deduct > entry.reset {
        entry := Entry(1, c.restart + WINDOW);
      } else {
        entry := entry.(used := (entry.used + 1) % TWO_32);
      }
      buckets := buckets[key := entry];
      guard := guard.(remaining := remaining - 1, reset := if c.after > entry.reset then 0 else entry.reset - c.after);
      return Ok(guard);
    }
  }
}
