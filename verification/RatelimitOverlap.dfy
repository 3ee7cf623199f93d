/**
How far overlapping requests can overrun a bucket (crates/core/ratelimits/src/ratelimiter.rs:100-137):
a stale copy may take the stored count back, so the overrun depends on how many requests overlap.
*/
module RatelimitOverlap {
  import opened Arithmetic
  import opened Sequences
  import opened Ratelimit

  /** The thread carries a copy with `v` used, which it will save as `v + 1`. */
  predicate Carries(phase: Phase, v: nat)
  {
    match phase
    case Missing => v == 0
    case Got(e) => e.used == v
    case Allowed(e, _) => e.used == v
    case Charged(e) => e.used == v + 1
    case _ => false
  }

  function Carriers(s: System, v: nat): set<int>
  {
    set t | t in s.phases && Carries(s.phases[t], v)
  }

  /** The requests under way. */
  function Busy(s: System): set<int>
  {
    set t | t in s.phases && !s.phases[t].Idle?
  }

  /** How much the stored bucket says is used. */
  function Level(s: System): nat
  {
    if s.stored.None? then 0 else s.stored.value.used
  }

  /** Copies below the limit where they were let through, and no bucket has expired. */
  predicate Tame(phase: Phase, limit: u32)
  {
    match phase
    case Got(e) => e.used <= limit
    case Allowed(e, _) => e.used < limit
    case Charged(e) => 1 <= e.used <= limit
    case Expired => false
    case _ => true
  }

  ghost predicate AllTame(s: System, limit: u32)
  {
    (s.stored.Some? ==> 1 <= s.stored.value.used <= limit) && forall t :: t in s.phases ==> Tame(s.phases[t], limit)
  }

  /** The window does not run out: no reading is past the reset of the copy it is compared with. */
  predicate InWindow(s: System, step: Step)
    requires Enabled(s, step)
  {
    step.Check? || step.Deduct? ==> step.at <= s.At(step.thread).entry.reset
  }

  /** Throughout the run the window lasts and at most `m` requests are under way. */
  predicate Overlapping(s: System, limit: u32, steps: seq<Step>, m: nat)
    requires Possible(s, limit, steps)
    decreases |steps|
  {
    |Busy(s)| <= m &&
    (steps == [] ||
     (InWindow(s, steps[0]) && Overlapping(Next(s, limit, steps[0]), limit, steps[1..], m)))
  }

  predicate SavesAt(s: System, step: Step, v: nat)
    requires Enabled(s, step)
  {
    step.Save? && s.At(step.thread).entry.used == v
  }

  /** How often the run saves a bucket with `v` used. */
  function Saves(s: System, limit: u32, steps: seq<Step>, v: nat): nat
    requires Possible(s, limit, steps)
    decreases |steps|
  {
    if steps == [] then 0
    else (if SavesAt(s, steps[0], v) then 1 else 0) + Saves(Next(s, limit, steps[0]), limit, steps[1..], v)
  }

  /** How often the stored count has been `v`: it starts at zero, and only a save changes it. */
  ghost function Opened(n: nat -> nat, v: nat): nat
  {
    if v == 0 then 1 else n(v)
  }

  /**
  With `n(v)` saves of `v` so far: each time the count was `v`, at most `m` requests took a copy of it, for
  those that did not save it on were all under way when the count moved.
  */
  ghost predicate Chain(s: System, m: nat, n: nat -> nat)
  {
    && Opened(n, Level(s)) >= 1
    && n(Level(s) + 1) <= m * (Opened(n, Level(s)) - 1)
    && forall v: nat :: v != Level(s) ==> n(v + 1) + |Carriers(s, v)| <= m * Opened(n, v)
  }

  lemma CarriersAreBusy(s: System, v: nat)
    ensures |Carriers(s, v)| <= |Busy(s)|
  {
    forall t | t in Carriers(s, v) ensures t in Busy(s) { }
    SubsetCount(Carriers(s, v), Busy(s));
  }

  lemma StepStaysTame(s: System, limit: u32, step: Step)
    requires AllTame(s, limit) && Enabled(s, step) && InWindow(s, step)
    ensures AllTame(Next(s, limit, step), limit)
  {
  }

  /** Only a fetch adds a carrier, of the stored count. */
  lemma CarriersStep(s: System, limit: u32, step: Step, v: nat)
    requires AllTame(s, limit) && Enabled(s, step) && InWindow(s, step) && !step.Save?
    requires step.Fetch? ==> v != Level(s)
    ensures |Carriers(Next(s, limit, step), v)| <= |Carriers(s, v)|
  {
    var s' := Next(s, limit, step);
    assert s.At(step.thread) == if step.thread in s.phases then s.phases[step.thread] else Idle;
    SubsetCount(Carriers(s', v), Carriers(s, v));
  }

  /** A save takes its own thread from the carriers of the copy it saves on. */
  lemma CarriersSave(s: System, limit: u32, step: Step, v: nat)
    requires AllTame(s, limit) && Enabled(s, step) && step.Save?
    ensures var s' := Next(s, limit, step);
      |Carriers(s', v)| + (if SavesAt(s, step, v + 1) then 1 else 0) == |Carriers(s, v)|
  {
    var s', t := Next(s, limit, step), step.thread;
    if SavesAt(s, step, v + 1) {
      assert Carriers(s, v) == Carriers(s', v) + {t};
    } else {
      assert Carriers(s, v) == Carriers(s', v);
    }
  }

  ghost function Counted(n: nat -> nat, s: System, step: Step): nat -> nat
    requires Enabled(s, step)
  {
    v => n(v) + if Enabled(s, step) && SavesAt(s, step, v) then 1 else 0
  }

  lemma Distribute(m: nat, k: nat)
    ensures m * (k + 1) == m * k + m
  {
  }

  lemma SaveKeepsChain(s: System, limit: u32, step: Step, m: nat, n: nat -> nat)
    requires AllTame(s, limit) && Enabled(s, step) && step.Save?
    requires Chain(s, m, n) && |Busy(s)| <= m
    ensures Chain(Next(s, limit, step), m, Counted(n, s, step))
  {
    var s', n', was := Next(s, limit, step), Counted(n, s, step), Level(s);
    var now := Level(s');
    assert now >= 1 && forall v: nat :: n'(v) == n(v) + if v == now then 1 else 0;
    Distribute(m, Opened(n, was) - 1);
    CarriersAreBusy(s, was);
    CarriersSave(s, limit, step, now);
    assert n'(now + 1) == n(now + 1);
    forall v: nat | v != now
      ensures n'(v + 1) + |Carriers(s', v)| <= m * Opened(n', v)
    {
      CarriersSave(s, limit, step, v);
      assert Opened(n', v) == Opened(n, v);
    }
    assert n'(now + 1) <= m * Opened(n, now) by {
      if now == was { assert m * (Opened(n, was) - 1) <= m * Opened(n, was); }
    }
  }

  lemma OtherKeepsChain(s: System, limit: u32, step: Step, m: nat, n: nat -> nat)
    requires AllTame(s, limit) && Enabled(s, step) && InWindow(s, step) && !step.Save?
    requires Chain(s, m, n)
    ensures Chain(Next(s, limit, step), m, Counted(n, s, step))
  {
    var s', n' := Next(s, limit, step), Counted(n, s, step);
    assert Level(s') == Level(s) && forall v: nat :: n'(v) == n(v);
    forall v: nat | v != Level(s')
      ensures n'(v + 1) + |Carriers(s', v)| <= m * Opened(n', v)
    {
      CarriersStep(s, limit, step, v);
    }
  }

  lemma {:induction false} RunKeepsChain(s: System, limit: u32, steps: seq<Step>, m: nat, n: nat -> nat)
      returns (n': nat -> nat)
    requires AllTame(s, limit) && Possible(s, limit, steps) && Overlapping(s, limit, steps, m) && Chain(s, m, n)
    ensures Chain(Run(s, limit, steps), m, n')
    ensures forall v: nat :: n'(v) == n(v) + Saves(s, limit, steps, v)
    decreases |steps|
  {
    if steps == [] {
      n' := n;
    } else {
      var step := steps[0];
      StepStaysTame(s, limit, step);
      if step.Save? {
        SaveKeepsChain(s, limit, step, m, n);
      } else {
        OtherKeepsChain(s, limit, step, m, n);
      }
      n' := RunKeepsChain(Next(s, limit, step), limit, steps[1..], m, Counted(n, s, step));
    }
  }

  function Pow(m: nat, v: nat): nat
  {
    if v == 0 then 1 else m * Pow(m, v - 1)
  }

  /** The stored count becomes `v` at most `m` to the power of `v` times. */
  lemma {:induction false} SavesBounded(limit: u32, steps: seq<Step>, m: nat, v: nat)
    requires Possible(Empty, limit, steps) && Overlapping(Empty, limit, steps, m) && v >= 1
    ensures Saves(Empty, limit, steps, v) <= Pow(m, v)
  {
    var n := RunKeepsChain(Empty, limit, steps, m, _ => 0);
    var end := Run(Empty, limit, steps);
    assert n(v) <= m * Opened(n, v - 1) by {
      if v - 1 == Level(end) { MulMonotone(Opened(n, v - 1) - 1, Opened(n, v - 1), m); }
    }
    if v > 1 {
      SavesBounded(limit, steps, m, v - 1);
      MulMonotone(n(v - 1), Pow(m, v - 1), m);
    }
  }

  // ----- all requests together -----

  /** How many requests were let through and saved. */
  function Completed(steps: seq<Step>): nat
  {
    if steps == [] then 0 else (if steps[0].Save? then 1 else 0) + Completed(steps[1..])
  }

  /** The saves of one up to `k` used. */
  function SavesUpTo(s: System, limit: u32, steps: seq<Step>, k: nat): nat
    requires Possible(s, limit, steps)
  {
    if k == 0 then 0 else SavesUpTo(s, limit, steps, k - 1) + Saves(s, limit, steps, k)
  }

  lemma {:induction false} SavesUpToStep(s: System, limit: u32, steps: seq<Step>, k: nat)
    requires Possible(s, limit, steps) && steps != []
    ensures SavesUpTo(s, limit, steps, k) == SavesUpTo(Next(s, limit, steps[0]), limit, steps[1..], k)
      + if steps[0].Save? && 1 <= s.At(steps[0].thread).entry.used <= k then 1 else 0
  {
    if k > 0 { SavesUpToStep(s, limit, steps, k - 1); }
  }

  lemma {:induction false} NoSaves(s: System, limit: u32, k: nat)
    ensures SavesUpTo(s, limit, [], k) == 0
  {
    if k > 0 { NoSaves(s, limit, k - 1); }
  }

  /** Every completed request saved between one and `limit` used. */
  lemma {:induction false} CompletedSplits(s: System, limit: u32, steps: seq<Step>, m: nat)
    requires AllTame(s, limit) && Possible(s, limit, steps) && Overlapping(s, limit, steps, m)
    ensures Completed(steps) == SavesUpTo(s, limit, steps, limit)
    decreases |steps|
  {
    if steps == [] {
      NoSaves(s, limit, limit);
    } else {
      StepStaysTame(s, limit, steps[0]);
      CompletedSplits(Next(s, limit, steps[0]), limit, steps[1..], m);
      SavesUpToStep(s, limit, steps, limit);
    }
  }

  /** `m + m^2 + ... + m^k`. */
  function Powers(m: nat, k: nat): nat
  {
    if k == 0 then 0 else Powers(m, k - 1) + Pow(m, k)
  }

  lemma {:induction false} SavesUpToBounded(limit: u32, steps: seq<Step>, m: nat, k: nat)
    requires Possible(Empty, limit, steps) && Overlapping(Empty, limit, steps, m)
    ensures SavesUpTo(Empty, limit, steps, k) <= Powers(m, k)
  {
    if k > 0 {
      SavesUpToBounded(limit, steps, m, k - 1);
      SavesBounded(limit, steps, m, k);
    }
  }

  /**
  While a window lasts and at most `m` requests are under way at any moment, at most `m + m^2 + ... + m^limit`
  complete: with requests one at a time that is the limit itself.
  */
  lemma OverlapBound(limit: u32, steps: seq<Step>, m: nat)
    requires Possible(Empty, limit, steps) && Overlapping(Empty, limit, steps, m)
    ensures Completed(steps) <= Powers(m, limit)
    ensures m == 1 ==> Completed(steps) <= limit
  {
    CompletedSplits(Empty, limit, steps, m);
    SavesUpToBounded(limit, steps, m, limit);
    PowersOfOne(limit);
  }

  lemma {:induction false} PowersOfOne(k: nat)
    ensures Powers(1, k) == k && Pow(1, k) == 1
  {
    if k > 0 { PowersOfOne(k - 1); }
  }
}
