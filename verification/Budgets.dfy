/**
Upstream call budgets (crates/core/gamedata/src/budget.rs): fixed windows counted in Redis, with
an in-process count whenever Redis gives no answer.
*/
module Budgets {
  import opened Arithmetic
  import opened Sequences

  datatype Pool = Embed | Interactive

  datatype Budget = SteamStore(pool: Pool) | SteamNews | Blizzard

  datatype Config = Config(
    steamStoreWindowSecs: nat, steamStoreEmbedBudget: nat, steamStoreInteractiveBudget: nat,
    steamNewsPerWindow: nat, blizzardPerSecond: nat)

  datatype BudgetSpec = BudgetSpec(stem: string, limit: nat, windowSecs: nat)

  /** `budget_spec`; a window is never empty. */
  function SpecOf(cfg: Config, budget: Budget): (r: BudgetSpec)
    ensures r.windowSecs >= 1
  {
    var storeWindow := if cfg.steamStoreWindowSecs >= 1 then cfg.steamStoreWindowSecs else 1;
    match budget
    case SteamStore(Embed) => BudgetSpec("steam_store:embed", cfg.steamStoreEmbedBudget, storeWindow)
    case SteamStore(Interactive) => BudgetSpec("steam_store:interactive", cfg.steamStoreInteractiveBudget, storeWindow)
    case SteamNews => BudgetSpec("steam_news:shared", cfg.steamNewsPerWindow, storeWindow)
    case Blizzard => BudgetSpec("blizzard:shared", cfg.blizzardPerSecond, 1)
  }

  /** Two budgets never share a counter. */
  lemma StemsAreDistinct(cfg: Config, a: Budget, b: Budget)
    ensures SpecOf(cfg, a).stem == SpecOf(cfg, b).stem <==> a == b
  {
    assert |"steam_store:embed"| == 17 && |"steam_store:interactive"| == 23;
    assert |"steam_news:shared"| == 17 && |"blizzard:shared"| == 15;
    assert "steam_store:embed"[6] == 's' && "steam_news:shared"[6] == 'n';
  }

  /** Each budget has its own setting; the store and news windows are the configured one, at least a second. */
  lemma BudgetsAreConfigured(cfg: Config)
    ensures SpecOf(cfg, SteamStore(Embed)).limit == cfg.steamStoreEmbedBudget
    ensures SpecOf(cfg, SteamStore(Interactive)).limit == cfg.steamStoreInteractiveBudget
    ensures SpecOf(cfg, SteamNews).limit == cfg.steamNewsPerWindow
    ensures SpecOf(cfg, Blizzard).limit == cfg.blizzardPerSecond && SpecOf(cfg, Blizzard).windowSecs == 1
    ensures forall b :: b != Blizzard && cfg.steamStoreWindowSecs >= 1 ==>
      SpecOf(cfg, b).windowSecs == cfg.steamStoreWindowSecs
  {
  }

  function WindowOf(now: nat, secs: nat): (w: nat)
    requires secs >= 1
    ensures w * secs <= now < (w + 1) * secs
  {
    now / secs
  }

  // ----- the in-process counters -----

  datatype Counter = Counter(window: nat, calls: nat)

  /** The counter a call in `window` meets: a counter of another window starts over. */
  function Current(counter: Option<Counter>, window: nat): Counter
  {
    if counter.Some? && counter.value.window == window then counter.value else Counter(window, 0)
  }

  predicate LocalAdmits(counter: Option<Counter>, window: nat, limit: nat)
  {
    Current(counter, window).calls < limit
  }

  function LocalNext(counter: Option<Counter>, window: nat, limit: nat): Counter
  {
    var c := Current(counter, window);
    if c.calls < limit then c.(calls := c.calls + 1) else c
  }

  class LocalBudgets {
    var counters: map<string, Counter>

    constructor ()
      ensures counters == map[]
    {
      counters := map[];
    }

    /** `take`. */
    method Take(stem: string, window: nat, limit: nat) returns (allowed: bool)
      modifies this
      ensures allowed == LocalAdmits(old(Get(counters, stem)), window, limit)
      ensures counters == old(counters)[stem := LocalNext(old(Get(counters, stem)), window, limit)]
    {
      if stem !in counters {
        counters := counters[stem := Counter(window, 0)];
      }
      if counters[stem].window != window {
        counters := counters[stem := Counter(window, 0)];
      }
      if counters[stem].calls >= limit { return false; }
      counters := counters[stem := counters[stem].(calls := counters[stem].calls + 1)];
      return true;
    }

    /** `take_budget_at`; `answer` is what Redis replied, if it was asked and replied in time. */
    method TakeBudgetAt(cfg: Config, budget: Budget, now: nat, answer: Option<nat>) returns (ok: bool)
      modifies this
      ensures var spec := SpecOf(cfg, budget);
        var window := WindowOf(now, spec.windowSecs);
        && (spec.limit == 0 ==> !ok && counters == old(counters))
        && (spec.limit > 0 && answer.Some? ==> ok == (answer.value <= spec.limit) && counters == old(counters))
        && (spec.limit > 0 && answer.None? ==>
              && ok == LocalAdmits(old(Get(counters, spec.stem)), window, spec.limit)
              && counters == old(counters)[spec.stem := LocalNext(old(Get(counters, spec.stem)), window, spec.limit)])
    {
      var spec := SpecOf(cfg, budget);
      if spec.limit == 0 { return false; }
      var window := WindowOf(now, spec.windowSecs);
      if answer.Some? {
        return answer.value <= spec.limit;
      }
      ok := Take(spec.stem, window, spec.limit);
    }
  }

  // ----- one budget, shared by every process -----

  /** A window's key in Redis. */
  datatype Key = Key(count: nat, expires: nat)

  /**
  One thing that happens to a budget. A call reads the clock at `now`; `counted` is the moment Redis
  counted it, when the count came back. A stray increment is one whose count never came back (or
  came too late): the call it belongs to is a `Call` with `counted == None`.
  */
  datatype Event =
    | Call(process: nat, now: nat, counted: Option<nat>)
    | Stray(now: nat, at: nat)
  {
    function Arrival(): Option<nat>
    {
      if Stray? then Some(at) else counted
    }
  }

  datatype State = State(shared: map<nat, Key>, locals: map<nat, Counter>)

  /** The value `INCR` starts from. */
  function Standing(shared: map<nat, Key>, window: nat, at: nat): nat
  {
    if window in shared && at < shared[window].expires then shared[window].count else 0
  }

  /** `INCR` and `EXPIRE` in one transaction. */
  function Increment(shared: map<nat, Key>, window: nat, at: nat, ttl: nat): map<nat, Key>
  {
    shared[window := Key(Standing(shared, window, at) + 1, at + ttl)]
  }

  predicate Valid(spec: BudgetSpec)
  {
    spec.windowSecs >= 1
  }

  function Window(spec: BudgetSpec, e: Event): nat
    requires Valid(spec)
  {
    WindowOf(e.now, spec.windowSecs)
  }

  function Next(spec: BudgetSpec, s: State, e: Event): State
    requires Valid(spec)
  {
    if spec.limit == 0 then s
    else
      var w := Window(spec, e);
      match e.Arrival()
      case Some(at) => s.(shared := Increment(s.shared, w, at, spec.windowSecs + 5))
      case None => s.(locals := s.locals[e.process := LocalNext(Get(s.locals, e.process), w, spec.limit)])
  }

  /** Whether the event is a call that is let through. */
  predicate Admits(spec: BudgetSpec, s: State, e: Event)
    requires Valid(spec)
  {
    e.Call? && spec.limit > 0 &&
    match e.counted
    case Some(at) => Standing(s.shared, Window(spec, e), at) + 1 <= spec.limit
    case None => LocalAdmits(Get(s.locals, e.process), Window(spec, e), spec.limit)
  }

  function After(spec: BudgetSpec, events: seq<Event>): State
    requires Valid(spec)
  {
    if events == [] then State(map[], map[])
    else Next(spec, After(spec, events[..|events| - 1]), events[|events| - 1])
  }

  /** What to count of a run, in one window. */
  datatype Kind =
    | Admitted            // calls let through
    | AdmittedShared      // those let through on a count from Redis
    | AdmittedBy(p: nat)  // those let through on process p's own count
    | Incremented         // increments Redis executed

  predicate Counts(spec: BudgetSpec, kind: Kind, w: nat, s: State, e: Event)
    requires Valid(spec)
  {
    && Window(spec, e) == w
    && match kind
      case Admitted => Admits(spec, s, e)
      case AdmittedShared => Admits(spec, s, e) && e.Arrival().Some?
      case AdmittedBy(p) => Admits(spec, s, e) && e.Arrival().None? && e.process == p
      case Incremented => spec.limit > 0 && e.Arrival().Some?
  }

  function Tally(spec: BudgetSpec, events: seq<Event>, kind: Kind, w: nat): nat
    requires Valid(spec)
  {
    if events == [] then 0
    else
      var before, e := events[..|events| - 1], events[|events| - 1];
      Tally(spec, before, kind, w) + if Counts(spec, kind, w, After(spec, before), e) then 1 else 0
  }

  // ----- the key outlives its window -----

  /**
  Redis executes an increment at most `lead` seconds before the reading it belongs to, and one whose count came
  back at most `lag` seconds after it. A stray may be executed at any later time.
  */
  predicate Timely(e: Event, lead: nat, lag: nat)
  {
    e.Arrival().Some? ==>
      && e.now <= e.Arrival().value + lead
      && (e.Call? ==> e.Arrival().value <= e.now + lag)
  }

  /** When Redis executed the last increment. */
  function Latest(events: seq<Event>): nat
  {
    if events == [] then 0
    else
      var e := events[|events| - 1];
      if e.Arrival().Some? then e.Arrival().value else Latest(events[..|events| - 1])
  }

  /** Increments are listed in the order Redis executes them, each in time. */
  predicate Orderly(events: seq<Event>, lead: nat, lag: nat)
  {
    events == [] ||
    var before, e := events[..|events| - 1], events[|events| - 1];
    Orderly(before, lead, lag) && Timely(e, lead, lag) &&
    (e.Arrival().Some? ==> Latest(before) <= e.Arrival().value)
  }

  /** The first moment at which no count of window `w` can come back any more. */
  function Deadline(spec: BudgetSpec, w: nat, lag: nat): nat
  {
    (w + 1) * spec.windowSecs + lag
  }

  /** The key holds the number of increments so far, and expires no earlier than that. */
  predicate Exact(spec: BudgetSpec, shared: map<nat, Key>, count: nat, w: nat, lag: nat)
  {
    if w in shared then shared[w].count == count && Deadline(spec, w, lag) <= shared[w].expires else count == 0
  }

  /** An increment of window `w` that arrives before the deadline; every counted one does. */
  lemma StepKeepsExact(spec: BudgetSpec, s: State, e: Event, count: nat, w: nat, lead: nat, lag: nat)
    requires Valid(spec) && Timely(e, lead, lag) && lead + lag <= 5 && Exact(spec, s.shared, count, w, lag)
    ensures Counts(spec, Incremented, w, s, e) && e.Call? ==> e.Arrival().value < Deadline(spec, w, lag)
    ensures e.Arrival().Some? && e.Arrival().value < Deadline(spec, w, lag) ==>
      Exact(spec, Next(spec, s, e).shared, count + if Counts(spec, Incremented, w, s, e) then 1 else 0, w, lag)
    ensures Counts(spec, Incremented, w, s, e) && e.Arrival().value < Deadline(spec, w, lag) ==>
      Standing(s.shared, w, e.Arrival().value) == count
  {
    if Counts(spec, Incremented, w, s, e) {
      assert (w + 1) * spec.windowSecs == w * spec.windowSecs + spec.windowSecs;
    }
  }

  /**
  Until the deadline the key of window `w` holds the number of its increments: no expiry resets it. Redis lets
  through at most `limit` calls of the window, however late it executes increments nobody waits for.
  */
  lemma {:induction false} CountIsExact(spec: BudgetSpec, events: seq<Event>, w: nat, lead: nat, lag: nat)
    requires Valid(spec) && Orderly(events, lead, lag) && lead + lag <= 5
    ensures Exact(spec, After(spec, events).shared, Tally(spec, events, Incremented, w), w, lag)
      || Deadline(spec, w, lag) <= Latest(events)
    ensures Tally(spec, events, AdmittedShared, w) <= Tally(spec, events, Incremented, w)
    ensures Tally(spec, events, AdmittedShared, w) <= spec.limit
  {
    if events != [] {
      var before, e := events[..|events| - 1], events[|events| - 1];
      CountIsExact(spec, before, w, lead, lag);
      CountedInTime(spec, e, w, lead, lag);
      if Latest(before) < Deadline(spec, w, lag) {
        StepKeepsExact(spec, After(spec, before), e, Tally(spec, before, Incremented, w), w, lead, lag);
      }
    }
  }

  lemma CountedInTime(spec: BudgetSpec, e: Event, w: nat, lead: nat, lag: nat)
    requires Valid(spec) && Timely(e, lead, lag)
    ensures e.Call? && e.counted.Some? && Window(spec, e) == w ==> e.counted.value < Deadline(spec, w, lag)
  {
  }

  /**
  Every count that comes back is the number of increments of its window so far, and the call is let through exactly
  when fewer than `limit` came before it.
  */
  lemma AnswerIsExact(spec: BudgetSpec, events: seq<Event>, process: nat, now: nat, at: nat, lead: nat, lag: nat)
    requires Valid(spec) && spec.limit > 0 && lead + lag <= 5
    requires Orderly(events + [Call(process, now, Some(at))], lead, lag)
    ensures var w := WindowOf(now, spec.windowSecs);
      && Standing(After(spec, events).shared, w, at) == Tally(spec, events, Incremented, w)
      && (Admits(spec, After(spec, events), Call(process, now, Some(at))) <==>
            Tally(spec, events, Incremented, w) < spec.limit)
  {
    var e, w := Call(process, now, Some(at)), WindowOf(now, spec.windowSecs);
    assert (events + [e])[..|events|] == events;
    CountIsExact(spec, events, w, lead, lag);
    CountedInTime(spec, e, w, lead, lag);
    StepKeepsExact(spec, After(spec, events), e, Tally(spec, events, Incremented, w), w, lead, lag);
  }

  /** Five seconds is exact: one more, and some run of two calls in one window finds the count reset. */
  lemma SlackIsNeeded(spec: BudgetSpec, lead: nat, lag: nat) returns (events: seq<Event>, w: nat)
    requires Valid(spec) && spec.limit > 0 && lead + lag > 5
    ensures Orderly(events, lead, lag) && forall i :: 0 <= i < |events| ==> events[i].Call?
    ensures Tally(spec, events, Incremented, w) == 2
    ensures w in After(spec, events).shared && After(spec, events).shared[w].count == 1
  {
    w := lead;
    var secs := spec.windowSecs;
    var now := w * secs;
    assert now >= lead by { MulAtLeast(lead, secs); }
    var late := now + secs - 1;
    WindowIs(now, w, secs);
    WindowIs(late, w, secs);
    var first, second := Call(0, now, Some(now - lead)), Call(0, late, Some(late + lag));
    events := [first, second];
    assert events[..1] == [first] && [first][..0] == [];
    var none: seq<Event> := [];
    assert After(spec, none) == State(map[], map[]) && Tally(spec, none, Incremented, w) == 0;
    assert After(spec, [first]) == Next(spec, After(spec, none), first);
    assert After(spec, [first]).shared == map[w := Key(1, now - lead + secs + 5)];
    assert Tally(spec, [first], Incremented, w) == 1;
  }

  lemma MulAtLeast(a: nat, b: nat)
    requires b >= 1
    ensures a * b >= a
  {
  }

  lemma WindowIs(now: nat, w: nat, secs: nat)
    requires secs >= 1 && w * secs <= now < w * secs + secs
    ensures WindowOf(now, secs) == w
  {
    var v := WindowOf(now, secs);
    if v < w {
      MulMonotone(v + 1, w, secs);
    } else if v > w {
      MulMonotone(w + 1, v, secs);
    }
  }

  // ----- a process's own count -----

  predicate CountedBy(e: Event, p: nat)
  {
    e.Arrival().None? && e.process == p
  }

  /** The windows of the calls process `p` counts itself, in order. */
  function WindowsOf(secs: nat, events: seq<Event>, p: nat): seq<nat>
    requires secs >= 1
  {
    if events == [] then []
    else
      var e := events[|events| - 1];
      WindowsOf(secs, events[..|events| - 1], p) + if CountedBy(e, p) then [WindowOf(e.now, secs)] else []
  }

  /** Stretches of consecutive calls in one window, the latest outermost. */
  datatype Stretches = Nothing | Stretch(before: Stretches, window: nat, length: nat)

  /** One more call: the last stretch goes on, or a new one starts. */
  function Extend(rs: Stretches, w: nat): Stretches
  {
    if rs.Stretch? && rs.window == w then rs.(length := rs.length + 1) else Stretch(rs, w, 1)
  }

  function StretchesOf(ws: seq<nat>): Stretches
  {
    if ws == [] then Nothing else Extend(StretchesOf(ws[..|ws| - 1]), ws[|ws| - 1])
  }

  lemma StretchesSnoc(ws: seq<nat>, v: nat)
    ensures StretchesOf(ws + [v]) == Extend(StretchesOf(ws), v)
  {
    assert (ws + [v])[..|ws|] == ws;
  }

  function Repeat(w: nat, n: nat): seq<nat>
  {
    seq(n, _ => w)
  }

  function Unfold(rs: Stretches): seq<nat>
  {
    if rs.Nothing? then [] else Unfold(rs.before) + Repeat(rs.window, rs.length)
  }

  /** No stretch is empty, and none is continued by the next. */
  predicate Maximal(rs: Stretches)
  {
    rs.Nothing? ||
    (rs.length >= 1 && Maximal(rs.before) && (rs.before.Stretch? ==> rs.before.window != rs.window))
  }

  lemma UnfoldExtend(rs: Stretches, w: nat)
    ensures Unfold(Extend(rs, w)) == Unfold(rs) + [w]
  {
    if rs.Stretch? && rs.window == w {
      assert Repeat(w, rs.length + 1) == Repeat(w, rs.length) + [w];
    } else {
      assert Repeat(w, 1) == [w];
    }
  }

  /** The stretches are the windows again, and they are maximal. */
  lemma {:induction false} StretchesAreMaximal(ws: seq<nat>)
    ensures Unfold(StretchesOf(ws)) == ws && Maximal(StretchesOf(ws))
  {
    if ws != [] {
      var prefix, w := ws[..|ws| - 1], ws[|ws| - 1];
      StretchesAreMaximal(prefix);
      UnfoldExtend(StretchesOf(prefix), w);
      assert ws == prefix + [w];
    }
  }

  function Min(a: nat, b: nat): nat { if a <= b then a else b }

  /** What a limit lets through of the stretches in window `w`: each on its own. */
  function Capped(rs: Stretches, w: nat, limit: nat): nat
  {
    if rs.Nothing? then 0
    else Capped(rs.before, w, limit) + if rs.window == w then Min(rs.length, limit) else 0
  }

  /** The counter holds the last stretch, capped, and the count is what the limit lets through. */
  predicate Matches(counter: Option<Counter>, count: nat, rs: Stretches, w: nat, limit: nat)
  {
    && count == Capped(rs, w, limit)
    && counter == if rs.Nothing? || limit == 0 then None else Some(Counter(rs.window, Min(rs.length, limit)))
  }

  /** One more call in window `v`: admitted exactly when it adds to what the limit lets through. */
  lemma StretchGrows(counter: Option<Counter>, count: nat, rs: Stretches, v: nat, w: nat, limit: nat)
    requires limit > 0 && Matches(counter, count, rs, w, limit)
    ensures Matches(Some(LocalNext(counter, v, limit)),
                    count + if v == w && LocalAdmits(counter, v, limit) then 1 else 0,
                    Extend(rs, v), w, limit)
  {
  }

  lemma {:induction false} NothingCapped(rs: Stretches, w: nat)
    ensures Capped(rs, w, 0) == 0
  {
    if rs.Stretch? { NothingCapped(rs.before, w); }
  }

  lemma StepMatches(spec: BudgetSpec, s: State, e: Event, p: nat, w: nat, count: nat, rs: Stretches)
    requires Valid(spec) && Matches(Get(s.locals, p), count, rs, w, spec.limit)
    ensures Matches(Get(Next(spec, s, e).locals, p), count + if Counts(spec, AdmittedBy(p), w, s, e) then 1 else 0,
                    if CountedBy(e, p) then Extend(rs, Window(spec, e)) else rs, w, spec.limit)
  {
    if spec.limit == 0 {
      NothingCapped(rs, w);
      NothingCapped(Extend(rs, Window(spec, e)), w);
    } else if CountedBy(e, p) {
      StretchGrows(Get(s.locals, p), count, rs, Window(spec, e), w, spec.limit);
    }
  }

  lemma WindowsGrow(secs: nat, events: seq<Event>, p: nat)
    requires secs >= 1 && events != []
    ensures var before, e := events[..|events| - 1], events[|events| - 1];
      var rs := StretchesOf(WindowsOf(secs, before, p));
      StretchesOf(WindowsOf(secs, events, p)) == if CountedBy(e, p) then Extend(rs, WindowOf(e.now, secs)) else rs
  {
    var before, e := events[..|events| - 1], events[|events| - 1];
    var ws := WindowsOf(secs, before, p);
    StretchesSnoc(ws, WindowOf(e.now, secs));
    var none: seq<nat> := [];
    assert ws + none == ws;
  }

  /**
  Whatever the order of its windows, a process lets through in window `w` exactly the sum, over the maximal
  stretches of consecutive calls it counts in `w`, of the smaller of their length and the limit.
  */
  lemma {:induction false} LocalCountIsExact(spec: BudgetSpec, events: seq<Event>, p: nat, w: nat)
    requires Valid(spec)
    ensures var rs := StretchesOf(WindowsOf(spec.windowSecs, events, p));
      && Tally(spec, events, AdmittedBy(p), w) == Capped(rs, w, spec.limit)
      && Matches(Get(After(spec, events).locals, p), Tally(spec, events, AdmittedBy(p), w), rs, w, spec.limit)
  {
    if events != [] {
      var before, e := events[..|events| - 1], events[|events| - 1];
      LocalCountIsExact(spec, before, p, w);
      WindowsGrow(spec.windowSecs, events, p);
      StepMatches(spec, After(spec, before), e, p, w, Tally(spec, before, AdmittedBy(p), w),
                  StretchesOf(WindowsOf(spec.windowSecs, before, p)));
    }
  }

  /** Window `w` is never returned to: where it follows another window, it had not occurred before. */
  predicate NoReturn(ws: seq<nat>, w: nat)
  {
    forall k :: 0 < k < |ws| && ws[k] == w && ws[k - 1] != w ==> w !in ws[..k]
  }

  /** How many stretches window `w` has. */
  function Visits(rs: Stretches, w: nat): nat
  {
    if rs.Nothing? then 0 else Visits(rs.before, w) + if rs.window == w then 1 else 0
  }

  ghost predicate VisitsTell(ws: seq<nat>, w: nat)
  {
    var visits := Visits(StretchesOf(ws), w);
    (visits == 0 <==> w !in ws) && (visits <= 1 <==> NoReturn(ws, w))
  }

  lemma {:induction false} VisitedOnceIff(ws: seq<nat>, w: nat)
    ensures VisitsTell(ws, w)
  {
    if ws != [] {
      var prefix, v := ws[..|ws| - 1], ws[|ws| - 1];
      VisitedOnceIff(prefix, w);
      VisitsTellStep(prefix, v, w);
      assert ws == prefix + [v];
    }
  }

  lemma VisitsTellStep(ws: seq<nat>, v: nat, w: nat)
    requires VisitsTell(ws, w)
    ensures VisitsTell(ws + [v], w)
  {
    StretchesSnoc(ws, v);
    LastStretch(ws);
    NoReturnStep(ws, v, w);
  }

  lemma LastStretch(ws: seq<nat>)
    ensures ws == [] <==> StretchesOf(ws).Nothing?
    ensures ws != [] ==> StretchesOf(ws).window == ws[|ws| - 1]
  {
  }

  lemma NoReturnStep(ws: seq<nat>, v: nat, w: nat)
    ensures NoReturn(ws + [v], w) <==>
      NoReturn(ws, w) && (v == w && ws != [] && ws[|ws| - 1] != w ==> w !in ws)
  {
    var more, n := ws + [v], |ws|;
    assert more[..n] == ws;
    forall k | 0 < k < n ensures more[..k] == ws[..k] { }
    assert forall k :: 0 <= k < n ==> more[k] == ws[k];
  }

  lemma {:induction false} CappedByVisits(rs: Stretches, w: nat, limit: nat)
    requires Maximal(rs)
    ensures Visits(rs, w) == 0 ==> Capped(rs, w, limit) == 0
    ensures Visits(rs, w) <= 1 ==> Capped(rs, w, limit) <= limit
    ensures Capped(rs, w, 1) == Visits(rs, w)
  {
    if rs.Stretch? { CappedByVisits(rs.before, w, limit); }
  }

  /** The bound on a process holds for this limit if its count never returns to the window. */
  lemma LocalBound(spec: BudgetSpec, events: seq<Event>, p: nat, w: nat)
    requires Valid(spec) && NoReturn(WindowsOf(spec.windowSecs, events, p), w)
    ensures Tally(spec, events, AdmittedBy(p), w) <= spec.limit
  {
    var ws := WindowsOf(spec.windowSecs, events, p);
    LocalCountIsExact(spec, events, p, w);
    StretchesAreMaximal(ws);
    VisitedOnceIff(ws, w);
    CappedByVisits(StretchesOf(ws), w, spec.limit);
  }

  /** It holds for every limit if and only if its count never returns to the window. */
  lemma LocalBoundIff(stem: string, secs: nat, events: seq<Event>, p: nat, w: nat)
    requires secs >= 1
    ensures (forall limit: nat :: Tally(BudgetSpec(stem, limit, secs), events, AdmittedBy(p), w) <= limit) <==>
      NoReturn(WindowsOf(secs, events, p), w)
  {
    var ws := WindowsOf(secs, events, p);
    if NoReturn(ws, w) {
      forall limit: nat
        ensures Tally(BudgetSpec(stem, limit, secs), events, AdmittedBy(p), w) <= limit
      {
        LocalBound(BudgetSpec(stem, limit, secs), events, p, w);
      }
    } else {
      LocalCountIsExact(BudgetSpec(stem, 1, secs), events, p, w);
      StretchesAreMaximal(ws);
      VisitedOnceIff(ws, w);
      CappedByVisits(StretchesOf(ws), w, 1);
      assert Tally(BudgetSpec(stem, 1, secs), events, AdmittedBy(p), w) > 1;
    }
  }

  /** Windows that never decrease are never returned to. */
  lemma OrderedNeverReturns(ws: seq<nat>, w: nat)
    requires forall i, j :: 0 <= i < j < |ws| ==> ws[i] <= ws[j]
    ensures NoReturn(ws, w)
  {
  }

  /** Counting windows 5, 6 and 5 again lets two calls through window 5 on a limit of one. */
  lemma DisorderOverspends()
    ensures var spec := BudgetSpec("blizzard:shared", 1, 1);
      Tally(spec, [Call(0, 5, None), Call(0, 6, None), Call(0, 5, None)], AdmittedBy(0), 5) == 2
  {
    var spec := BudgetSpec("blizzard:shared", 1, 1);
    var a, b := Call(0, 5, None), Call(0, 6, None);
    assert [a, b, a][..2] == [a, b] && [a, b][..1] == [a] && [a][..0] == [];
    var none: seq<Event> := [];
    assert After(spec, none) == State(map[], map[]) && Tally(spec, none, AdmittedBy(0), 5) == 0;
    assert After(spec, [a]) == State(map[], map[0 := Counter(5, 1)]) && Tally(spec, [a], AdmittedBy(0), 5) == 1;
    assert After(spec, [a, b]) == State(map[], map[0 := Counter(6, 1)]) && Tally(spec, [a, b], AdmittedBy(0), 5) == 1;
  }

  // ----- all processes together -----

  function LocalTotal(spec: BudgetSpec, events: seq<Event>, n: nat, w: nat): nat
    requires Valid(spec)
  {
    if n == 0 then 0 else LocalTotal(spec, events, n - 1, w) + Tally(spec, events, AdmittedBy(n - 1), w)
  }

  /** One more event adds to the total of the process it belongs to. */
  lemma {:induction false} LocalTotalStep(spec: BudgetSpec, events: seq<Event>, n: nat, w: nat)
    requires Valid(spec) && events != []
    ensures var before, e := events[..|events| - 1], events[|events| - 1];
      LocalTotal(spec, events, n, w) == LocalTotal(spec, before, n, w)
        + if e.Call? && e.process < n && Counts(spec, AdmittedBy(e.process), w, After(spec, before), e) then 1 else 0
  {
    if n > 0 {
      LocalTotalStep(spec, events, n - 1, w);
    }
  }

  predicate ProcessesBelow(events: seq<Event>, n: nat)
  {
    forall i :: 0 <= i < |events| && events[i].Call? ==> events[i].process < n
  }

  /** Every call let through was counted by Redis or by one of the processes. */
  lemma {:induction false} AdmittedSplits(spec: BudgetSpec, events: seq<Event>, n: nat, w: nat)
    requires Valid(spec) && ProcessesBelow(events, n)
    ensures Tally(spec, events, Admitted, w) == Tally(spec, events, AdmittedShared, w) + LocalTotal(spec, events, n, w)
  {
    if events == [] {
      NothingLocal(spec, n, w);
    } else {
      AdmittedSplits(spec, events[..|events| - 1], n, w);
      LocalTotalStep(spec, events, n, w);
      assert events[|events| - 1].Call? ==> events[|events| - 1].process < n;
    }
  }

  lemma {:induction false} NothingLocal(spec: BudgetSpec, n: nat, w: nat)
    requires Valid(spec)
    ensures LocalTotal(spec, [], n, w) == 0
  {
    if n > 0 {
      NothingLocal(spec, n - 1, w);
    }
  }

  lemma {:induction false} LocalTotalBounded(spec: BudgetSpec, events: seq<Event>, n: nat, w: nat)
    requires Valid(spec) && forall p :: 0 <= p < n ==> NoReturn(WindowsOf(spec.windowSecs, events, p), w)
    ensures LocalTotal(spec, events, n, w) <= n * spec.limit
  {
    if n > 0 {
      LocalTotalBounded(spec, events, n - 1, w);
      LocalBound(spec, events, n - 1, w);
      assert n * spec.limit == (n - 1) * spec.limit + spec.limit;
    }
  }

  /**
  Whatever Redis answers, loses, refuses or executes too late, N processes let through at most (N + 1) * limit
  calls per window.
  */
  lemma BudgetBound(spec: BudgetSpec, events: seq<Event>, n: nat, w: nat, lead: nat, lag: nat)
    requires Valid(spec) && Orderly(events, lead, lag) && lead + lag <= 5
    requires ProcessesBelow(events, n)
    requires forall p :: 0 <= p < n ==> NoReturn(WindowsOf(spec.windowSecs, events, p), w)
    ensures Tally(spec, events, Admitted, w) <= (n + 1) * spec.limit
  {
    AdmittedSplits(spec, events, n, w);
    CountIsExact(spec, events, w, lead, lag);
    LocalTotalBounded(spec, events, n, w);
    assert (n + 1) * spec.limit == n * spec.limit + spec.limit;
  }
}
