/** How long a charge can last: the whole-run timeout against the timeouts of its phases. */
module ChargeTiming {
  import opened Prelude
  import opened ChargePlan
  import opened ChargeRun
  import opened ChargeSafety

  // --- the whole-run timeout ---

  /** Accepted ticks are never further apart than `gap`. */
  ghost predicate Spaced(log: seq<Entry>, gap: int) {
    forall i | 0 < i < |log| :: log[i].tick.ts - log[i - 1].tick.ts <= gap
  }

  /** The latest a tick of phase k can come after the first tick of the run, if phases 0..k are all
      bounded and each hand-over costs at most one gap. */
  function Reach(plan: Plan, gap: int, k: nat): int
    requires k < |plan.phases|
  {
    (if k == 0 then 0 else Reach(plan, gap, k - 1) + gap) + plan.phases[k].timeout
  }

  predicate BoundedUpTo(plan: Plan, k: nat)
    requires k < |plan.phases|
  {
    forall j | 0 <= j <= k :: plan.phases[j].timeout > 0
  }

  ghost predicate EntriesInReach(plan: Plan, gap: int, log: seq<Entry>) {
    forall e | e in log ::
      && e.phase < |plan.phases|
      && (BoundedUpTo(plan, e.phase) ==> e.tick.ts - log[0].tick.ts <= Reach(plan, gap, e.phase))
  }

  /** The latest start of phase k. */
  function ReachStart(plan: Plan, gap: int, k: nat): int
    requires k < |plan.phases|
  {
    if k == 0 then 0 else Reach(plan, gap, k - 1) + gap
  }

  /** Where a live run stands: the phase's clock started in reach, or the last accepted tick closed
      the phase before it. */
  ghost predicate OnSchedule(plan: Plan, gap: int, st: State, log: seq<Entry>)
    requires st.phase < |plan.phases|
  {
    if st.phaseStart.Some? then
      && log != []
      && (BoundedUpTo(plan, st.phase) ==> st.phaseStart.value - log[0].tick.ts <= ReachStart(plan, gap, st.phase))
    else if st.phase == 0 then log == []
    else log != [] && log[|log| - 1].phase == st.phase - 1
  }

  lemma ClockStartsInReach(s: Setup, gap: int, st: State, log: seq<Entry>, t: Tick)
    requires Live(s, st) && OnSchedule(s.plan, gap, st, log) && EntriesInReach(s.plan, gap, log)
    requires log == [] || t.ts - log[|log| - 1].tick.ts <= gap
    ensures BoundedUpTo(s.plan, st.phase) ==>
              Based(st, t).phaseStart.value - (if log == [] then t.ts else log[0].tick.ts)
              <= ReachStart(s.plan, gap, st.phase)
  {
    if st.phaseStart.None? && st.phase > 0 && BoundedUpTo(s.plan, st.phase) {
      assert log[|log| - 1] in log;
      assert BoundedUpTo(s.plan, st.phase - 1);
    }
  }

  lemma TickStaysInReach(s: Setup, gap: int, st: State, log: seq<Entry>, t: Tick)
    requires Live(s, st) && OnSchedule(s.plan, gap, st, log) && EntriesInReach(s.plan, gap, log)
    requires log == [] || t.ts - log[|log| - 1].tick.ts <= gap
    requires Verdict(s, st, t).None?
    ensures EntriesInReach(s.plan, gap, log + [Entry(st.phase, t)])
  {
    ClockStartsInReach(s, gap, st, log, t);
    var log' := log + [Entry(st.phase, t)];
    var first := log'[0].tick.ts;
    assert BoundedUpTo(s.plan, st.phase) ==> t.ts - Based(st, t).phaseStart.value <= s.plan.phases[st.phase].timeout;
    assert Reach(s.plan, gap, st.phase) == ReachStart(s.plan, gap, st.phase) + s.plan.phases[st.phase].timeout;
    forall e | e in log' && e !in log ensures e == Entry(st.phase, t) {}
  }

  /** An accepted tick starts the phase's clock if it was not running; the clock then runs on or the
      next phase waits for its first tick. */
  lemma ClockAfter(s: Setup, st: State, t: Tick)
    requires Accepts(s, st, Telemetry(t)) && Live(s, Step(s, st, Telemetry(t)))
    ensures var st', start := Step(s, st, Telemetry(t)), Based(st, t).phaseStart;
            (st'.phase == st.phase && st'.phaseStart == start) || (st'.phase == st.phase + 1 && st'.phaseStart.None?)
  {
  }

  lemma StepStaysOnSchedule(s: Setup, gap: int, st: State, log: seq<Entry>, t: Tick)
    requires Live(s, st) && OnSchedule(s.plan, gap, st, log) && EntriesInReach(s.plan, gap, log)
    requires log == [] || t.ts - log[|log| - 1].tick.ts <= gap
    requires Accepts(s, st, Telemetry(t)) && Live(s, Step(s, st, Telemetry(t)))
    ensures OnSchedule(s.plan, gap, Step(s, st, Telemetry(t)), log + [Entry(st.phase, t)])
  {
    ClockAfter(s, st, t);
    ClockStartsInReach(s, gap, st, log, t);
  }

  lemma PrefixIsSpaced(log: seq<Entry>, e: Entry, gap: int)
    requires Spaced(log + [e], gap)
    ensures Spaced(log, gap)
    ensures log == [] || e.tick.ts - log[|log| - 1].tick.ts <= gap
  {
    var log' := log + [e];
    forall i | 0 < i < |log| ensures log[i].tick.ts - log[i - 1].tick.ts <= gap {
      assert log[i] == log'[i] && log[i - 1] == log'[i - 1];
    }
    if log != [] { assert log'[|log|].tick.ts - log'[|log| - 1].tick.ts <= gap; }
  }

  lemma {:induction false} RunOnSchedule(s: Setup, gap: int, feed: seq<Input>)
    requires Spaced(Log(s, feed), gap)
    ensures EntriesInReach(s.plan, gap, Log(s, feed))
    ensures Live(s, After(s, feed)) ==> OnSchedule(s.plan, gap, After(s, feed), Log(s, feed))
  {
    if feed != [] {
      var before, input := feed[..|feed| - 1], feed[|feed| - 1];
      var st, log := After(s, before), Log(s, before);
      if Accepts(s, st, input) {
        PrefixIsSpaced(log, Entry(st.phase, input.tick), gap);
        RunOnSchedule(s, gap, before);
        TickStaysInReach(s, gap, st, log, input.tick);
        if Live(s, Step(s, st, input)) { StepStaysOnSchedule(s, gap, st, log, input.tick); }
      } else {
        RunOnSchedule(s, gap, before);
      }
    }
  }

  /** Every tick accepted before the float phase comes within the whole-run timeout. */
  ghost predicate KeepsTimeout(s: Setup, feed: seq<Input>) {
    forall e | e in Log(s, feed) ::
      e.phase < |s.plan.phases| && (!s.plan.phases[e.phase].kind.Float? ==>
        e.tick.ts - Log(s, feed)[0].tick.ts <= s.plan.limits.timeout)
  }

  /** The time all bounded phases may take. */
  function BoundedTime(req: Request): int
    requires Compile(req).Accepted?
  {
    (if req.Lithium() then HOUR else 0) + MainTimeout(Compile(req).plan.preset, req)
  }

  /** With ticks no further apart than a tenth of the bounded time, the per-phase timeouts enforce
      the whole-run timeout, provided the main phase is bounded at all. */
  lemma PhaseTimeoutsBoundTheRun(req: Request, s: Setup, feed: seq<Input>)
    requires Compile(req) == Accepted(s.plan)
    requires Spaced(Log(s, feed), BoundedTime(req) / 10)
    requires req.chargeA <= req.CapA() * HOUR as real
    ensures KeepsTimeout(s, feed)
  {
    var gap := BoundedTime(req) / 10;
    PhaseOrder(req);
    MainPhaseIsBounded(req);
    RunOnSchedule(s, gap, feed);
    var main := if req.Lithium() then 1 else 0;
    TimeoutIsReach(req, s.plan, main);
  }

  lemma TimeoutIsReach(req: Request, plan: Plan, main: nat)
    requires Compile(req) == Accepted(plan) && main == (if req.Lithium() then 1 else 0)
    requires req.chargeA <= req.CapA() * HOUR as real
    ensures main < |plan.phases| && plan.phases[main].kind.Main? && BoundedUpTo(plan, main)
    ensures forall k | 0 <= k <= main :: Reach(plan, BoundedTime(req) / 10, k) <= plan.limits.timeout
    ensures forall k | main < k < |plan.phases| :: plan.phases[k].kind.Float?
  {
    PhaseOrder(req);
    MainPhaseIsBounded(req);
  }

  // --- when the main phase has no timeout ---

  lemma {:induction false} NoGapNoTime(log: seq<Entry>, i: nat)
    requires Spaced(log, 0) && i < |log|
    ensures log[i].tick.ts <= log[0].tick.ts
  {
    if i > 0 { NoGapNoTime(log, i - 1); }
  }

  function Quiet(ts: int, volts: real, capAh: real): Input {
    Telemetry(Tick(ts, volts, 0.0, capAh, false))
  }

  function TickTime(n: nat, gap: int): int {
    n * gap
  }

  /** The precharge ends on the first tick; then the battery reads 0 V, one tick per gap. */
  function Stalled(n: nat, gap: int, volts: real, capAh: real): seq<Input> {
    if n == 0 then [Quiet(0, volts, capAh)]
    else Stalled(n - 1, gap, volts, capAh) + [Quiet(TickTime(n, gap), 0.0, capAh)]
  }

  /** A precharge that the given voltage ends, and an unbounded second phase that 0 V does not. */
  predicate CanStall(s: Setup, volts: real) {
    && s.offlineAt == {} && |s.plan.phases| == 2
    && !s.plan.phases[0].holdToStop && 0.0 < s.plan.phases[0].untilVolts <= volts <= s.plan.limits.ceilingVolts
    && s.plan.phases[1].timeout == 0 && s.plan.phases[1].volts > 0.0 && s.plan.phases[1].untilVolts == 0.0
    && s.plan.limits.capCapMah >= 0.0 && s.plan.limits.ceilingVolts >= 0.0
  }

  ghost predicate InSecondPhase(s: Setup, st: State, capAh: real) {
    && Live(s, st) && st.phase == 1 && st.taperSince.None?
    && st.base == Some(Base(0, capAh)) && st.lastCap == capAh
  }

  lemma StallBegins(s: Setup, st: State, volts: real, capAh: real)
    requires CanStall(s, volts) && Live(s, st) && st.phase == 0 && st.base.None? && st.phaseStart.None?
    ensures var q := Quiet(0, volts, capAh); Accepts(s, st, q) && InSecondPhase(s, Step(s, st, q), capAh)
  {
  }

  lemma StallGoesOn(s: Setup, st: State, ts: int, volts: real, capAh: real)
    requires CanStall(s, volts) && InSecondPhase(s, st, capAh)
    ensures var q := Quiet(ts, 0.0, capAh); Accepts(s, st, q) && InSecondPhase(s, Step(s, st, q), capAh)
  {
    assert !InTaper(s.plan.phases[1], Quiet(ts, 0.0, capAh).tick);
  }

  ghost predicate Paced(log: seq<Entry>, gap: int) {
    forall k | 0 <= k < |log| :: log[k].tick.ts == TickTime(k, gap)
  }

  ghost predicate StalledFor(s: Setup, n: nat, gap: int, feed: seq<Input>, capAh: real) {
    var log := Log(s, feed);
    && InSecondPhase(s, After(s, feed), capAh)
    && |log| == n + 1 && Paced(log, gap) && (n > 0 ==> log[n].phase == 1)
  }

  lemma FirstTickStalls(s: Setup, gap: int, volts: real, capAh: real)
    requires CanStall(s, volts)
    ensures StalledFor(s, 0, gap, [Quiet(0, volts, capAh)], capAh)
  {
    var q := Quiet(0, volts, capAh);
    StallBegins(s, After(s, []), volts, capAh);
    OneMore(s, [], q);
    assert [] + [q] == [q];
    assert Log(s, [q]) == [Entry(0, q.tick)];
  }

  lemma NextTickStalls(s: Setup, n: nat, gap: int, feed: seq<Input>, volts: real, capAh: real)
    requires CanStall(s, volts) && StalledFor(s, n, gap, feed, capAh)
    ensures StalledFor(s, n + 1, gap, feed + [Quiet(TickTime(n + 1, gap), 0.0, capAh)], capAh)
  {
    var st, log, ts := After(s, feed), Log(s, feed), TickTime(n + 1, gap);
    StallGoesOn(s, st, ts, volts, capAh);
    OneMore(s, feed, Quiet(ts, 0.0, capAh));
    assert Log(s, feed + [Quiet(ts, 0.0, capAh)]) == log + [Entry(1, Quiet(ts, 0.0, capAh).tick)];
  }

  lemma {:induction false} StallNeverEnds(s: Setup, n: nat, gap: int, volts: real, capAh: real)
    requires CanStall(s, volts)
    ensures StalledFor(s, n, gap, Stalled(n, gap, volts, capAh), capAh)
  {
    if n == 0 {
      FirstTickStalls(s, gap, volts, capAh);
    } else {
      StallNeverEnds(s, n - 1, gap, volts, capAh);
      NextTickStalls(s, n - 1, gap, Stalled(n - 1, gap, volts, capAh), volts, capAh);
    }
  }

  lemma PacedIsSpaced(log: seq<Entry>, gap: int)
    requires Paced(log, gap)
    ensures Spaced(log, gap)
  {
    forall i | 0 < i < |log| ensures log[i].tick.ts - log[i - 1].tick.ts <= gap {
      assert TickTime(i, gap) == TickTime(i - 1, gap) + gap;
    }
  }

  lemma StallBreaksTimeout(s: Setup, n: nat, gap: int, volts: real, capAh: real) returns (feed: seq<Input>)
    requires CanStall(s, volts) && !s.plan.phases[1].kind.Float?
    requires n > 0 && TickTime(n, gap) > s.plan.limits.timeout
    ensures Spaced(Log(s, feed), gap) && !KeepsTimeout(s, feed)
  {
    feed := Stalled(n, gap, volts, capAh);
    StallNeverEnds(s, n, gap, volts, capAh);
    var log := Log(s, feed);
    PacedIsSpaced(log, gap);
    assert log[n] in log && log[0].tick.ts == TickTime(0, gap) == 0;
  }

  /** With a precharge and an unbounded main phase a run can sit in the main phase past the
      whole-run timeout for ever. */
  lemma UnboundedMainBreaksTimeout(req: Request, s: Setup) returns (feed: seq<Input>)
    requires Compile(req) == Accepted(s.plan) && s.offlineAt == {}
    requires req.Lithium() && req.chargeA > req.CapA() * HOUR as real
    ensures Spaced(Log(s, feed), BoundedTime(req) / 10) && !KeepsTimeout(s, feed)
  {
    var volts := s.plan.phases[0].untilVolts;
    StallIsPossible(req, s, volts);
    feed := StallBreaksTimeout(s, 12, BoundedTime(req) / 10, volts, req.capacityMah);
  }

  lemma StallIsPossible(req: Request, s: Setup, volts: real)
    requires Compile(req) == Accepted(s.plan) && s.offlineAt == {}
    requires req.Lithium() && req.chargeA > req.CapA() * HOUR as real && volts == s.plan.phases[0].untilVolts
    ensures CanStall(s, volts) && s.plan.phases[1].kind.Main?
    ensures BoundedTime(req) == HOUR && s.plan.limits.timeout == HOUR + HOUR / 10
  {
    MainPhaseIsBounded(req);
    StallStaysLegal(req, s.plan);
  }

  /** The precharge target is a positive voltage below the ceiling. */
  lemma StallStaysLegal(req: Request, plan: Plan)
    requires Compile(req) == Accepted(plan) && req.Lithium()
    ensures |plan.phases| == 2 && 0.0 < plan.phases[0].untilVolts <= plan.limits.ceilingVolts
    ensures plan.phases[1].volts > 0.0 && plan.limits.capCapMah >= 0.0
  {
    AcceptedIffChargeable(req);
  }

  /** The whole-run timeout is kept on every feed exactly when there is no precharge or the main
      phase is bounded. */
  lemma TimeoutKeptIffBounded(req: Request, s: Setup)
    requires Compile(req) == Accepted(s.plan) && s.offlineAt == {}
    ensures (forall feed | Spaced(Log(s, feed), BoundedTime(req) / 10) :: KeepsTimeout(s, feed))
            <==> !req.Lithium() || req.chargeA <= req.CapA() * HOUR as real
  {
    if req.chargeA <= req.CapA() * HOUR as real {
      forall feed | Spaced(Log(s, feed), BoundedTime(req) / 10) ensures KeepsTimeout(s, feed) {
        PhaseTimeoutsBoundTheRun(req, s, feed);
      }
    } else if req.Lithium() {
      var feed := UnboundedMainBreaksTimeout(req, s);
    } else {
      forall feed | Spaced(Log(s, feed), BoundedTime(req) / 10) ensures KeepsTimeout(s, feed) {
        UnboundedPbStandsStill(req, s, feed);
      }
    }
  }

  lemma NoGapStandsStill(log: seq<Entry>, e: Entry)
    requires Spaced(log, 0) && e in log
    ensures e.tick.ts - log[0].tick.ts <= 0
  {
    var i :| 0 <= i < |log| && log[i] == e;
    NoGapNoTime(log, i);
  }

  lemma UnboundedPbHasNoTime(req: Request, plan: Plan)
    requires Compile(req) == Accepted(plan) && !req.Lithium() && req.chargeA > req.CapA() * HOUR as real
    ensures BoundedTime(req) == 0 && plan.limits.timeout >= 0
  {
    MainPhaseIsBounded(req);
  }

  lemma UnboundedPbStandsStill(req: Request, s: Setup, feed: seq<Input>)
    requires Compile(req) == Accepted(s.plan) && !req.Lithium() && req.chargeA > req.CapA() * HOUR as real
    requires Spaced(Log(s, feed), BoundedTime(req) / 10)
    ensures KeepsTimeout(s, feed)
  {
    UnboundedPbHasNoTime(req, s.plan);
    PhaseOrder(req);
    RunOnSchedule(s, 0, feed);
    forall e | e in Log(s, feed) ensures e.tick.ts - Log(s, feed)[0].tick.ts <= 0 {
      NoGapStandsStill(Log(s, feed), e);
    }
  }
}
