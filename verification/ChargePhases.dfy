/** When a charge phase ends, and which tick is kept as the operating point at CC onset. */
module ChargePhases {
  import opened Prelude
  import opened ChargePlan
  import opened ChargeRun
  import opened ChargeSafety
  import Debounce

  /** The accepted ticks of one phase. */
  function TicksIn(log: seq<Entry>, k: nat): seq<Tick> {
    if log == [] then []
    else
      var before, e := TicksIn(log[..|log| - 1], k), log[|log| - 1];
      if e.phase == k then before + [e.tick] else before
  }

  lemma TicksAfter(log: seq<Entry>, e: Entry, k: nat)
    ensures TicksIn(log + [e], k) == if e.phase == k then TicksIn(log, k) + [e.tick] else TicksIn(log, k)
  {
    assert (log + [e])[..|log|] == log;
  }

  // --- the taper ---

  function TaperObs(ph: Phase, ticks: seq<Tick>): (obs: seq<Debounce.Obs>)
    ensures |obs| == |ticks|
  {
    seq(|ticks|, i requires 0 <= i < |ticks| => Debounce.Obs(ticks[i].ts, InTaper(ph, ticks[i])))
  }

  lemma TaperObsAfter(ph: Phase, ticks: seq<Tick>, t: Tick)
    ensures TaperObs(ph, ticks + [t]) == TaperObs(ph, ticks) + [Debounce.Obs(t.ts, InTaper(ph, t))]
  {
  }

  /** From tick w to tick e the pack has been within two percent of the charge voltage with less than the
      taper current, and it was not at the tick before w. */
  ghost predicate Tapered(ph: Phase, ticks: seq<Tick>, w: int, e: int) {
    && 0 <= w <= e < |ticks|
    && (forall k | w <= k <= e :: ticks[k].volts >= 0.98 * ph.volts && ticks[k].amps < ph.taperAmps)
    && (w > 0 ==> ticks[w - 1].volts < 0.98 * ph.volts || ticks[w - 1].amps >= ph.taperAmps)
  }

  lemma WindowIsTaper(ph: Phase, ticks: seq<Tick>, w: int, e: int)
    ensures Debounce.Window(TaperObs(ph, ticks), w, e) <==> Tapered(ph, ticks, w, e)
  {
    var obs := TaperObs(ph, ticks);
    forall k | 0 <= k < |ticks|
      ensures obs[k].ok <==> ticks[k].volts >= 0.98 * ph.volts && ticks[k].amps < ph.taperAmps
    {
      assert InTaper(ph, ticks[k]) == obs[k].ok;
    }
  }

  /** Such a stretch ends at tick e and spans the hold time. */
  ghost predicate HeldAt(ph: Phase, ticks: seq<Tick>, e: int, hold: int) {
    exists w :: Tapered(ph, ticks, w, e) && ticks[e].ts - ticks[w].ts >= hold
  }

  /** The rule by which a phase ends, read off its accepted ticks: a float never ends, a precharge
      ends on its target voltage, the main phase when its taper has held. */
  ghost predicate EndsAt(ph: Phase, ticks: seq<Tick>, e: int, hold: int) {
    && 0 <= e < |ticks| && !ph.holdToStop
    && (if ph.untilVolts > 0.0 then ticks[e].volts >= ph.untilVolts
        else ph.taperAmps > 0.0 && HeldAt(ph, ticks, e, hold))
  }

  ghost predicate Running(ph: Phase, ticks: seq<Tick>, hold: int) {
    forall e | 0 <= e < |ticks| :: !EndsAt(ph, ticks, e, hold)
  }

  /** The phase ended at its last tick and not before. */
  ghost predicate Over(ph: Phase, ticks: seq<Tick>, hold: int) {
    && EndsAt(ph, ticks, |ticks| - 1, hold)
    && forall e | 0 <= e < |ticks| - 1 :: !EndsAt(ph, ticks, e, hold)
  }

  lemma EndIsStable(ph: Phase, ticks: seq<Tick>, t: Tick, e: int, hold: int)
    requires 0 <= e < |ticks|
    ensures EndsAt(ph, ticks + [t], e, hold) <==> EndsAt(ph, ticks, e, hold)
  {
    var obs, obs' := TaperObs(ph, ticks), TaperObs(ph, ticks + [t]);
    TaperObsAfter(ph, ticks, t);
    assert obs'[..e] == obs[..e] && obs'[e] == obs[e];
    Debounce.ClosesOnFullWindow(obs, e, hold);
    Debounce.ClosesOnFullWindow(obs', e, hold);
    HeldIsClosed(ph, ticks, e, hold);
    HeldIsClosed(ph, ticks + [t], e, hold);
  }

  lemma HeldIsClosed(ph: Phase, ticks: seq<Tick>, e: int, hold: int)
    requires 0 <= e < |ticks|
    ensures var obs := TaperObs(ph, ticks);
            HeldAt(ph, ticks, e, hold) <==> Debounce.Closes(Debounce.SinceAfter(obs[..e]), obs[e], hold)
  {
    var obs := TaperObs(ph, ticks);
    Debounce.ClosesOnFullWindow(obs, e, hold);
    if HeldAt(ph, ticks, e, hold) {
      var w :| Tapered(ph, ticks, w, e) && ticks[e].ts - ticks[w].ts >= hold;
      WindowIsTaper(ph, ticks, w, e);
      assert obs[e].ts - obs[w].ts >= hold;
    }
    if w :| Debounce.Window(obs, w, e) && obs[e].ts - obs[w].ts >= hold {
      WindowIsTaper(ph, ticks, w, e);
      assert ticks[e].ts - ticks[w].ts >= hold;
    }
  }

  /** The timer state a live phase carries. */
  function TimerOf(ph: Phase, ticks: seq<Tick>): Option<int> {
    if Tapers(ph) then Debounce.SinceAfter(TaperObs(ph, ticks)) else None
  }

  /** The run's test is the declarative rule. */
  lemma TerminatesIffEnds(ph: Phase, ticks: seq<Tick>, t: Tick, hold: int)
    ensures Terminates(ph, TimerOf(ph, ticks), t, hold) <==> EndsAt(ph, ticks + [t], |ticks|, hold)
    ensures TaperSince(ph, TimerOf(ph, ticks), t) == TimerOf(ph, ticks + [t])
  {
    if Tapers(ph) {
      var obs, o := TaperObs(ph, ticks), Debounce.Obs(t.ts, InTaper(ph, t));
      TaperObsAfter(ph, ticks, t);
      assert (obs + [o])[..|obs|] == obs;
      HeldIsClosed(ph, ticks + [t], |ticks|, hold);
    }
  }

  lemma PhaseAfter(ph: Phase, ticks: seq<Tick>, t: Tick, hold: int)
    requires Running(ph, ticks, hold)
    ensures if Terminates(ph, TimerOf(ph, ticks), t, hold) then Over(ph, ticks + [t], hold)
            else Running(ph, ticks + [t], hold)
  {
    TerminatesIffEnds(ph, ticks, t, hold);
    forall e | 0 <= e < |ticks| ensures !EndsAt(ph, ticks + [t], e, hold) {
      EndIsStable(ph, ticks, t, e, hold);
    }
  }

  /** What the log says about every phase: those before the current one ended, each at the first tick
      its rule held; the current one has not; later ones have no ticks. */
  ghost predicate PhasesInOrder(s: Setup, st: State, log: seq<Entry>) {
    && (forall k | 0 <= k < |s.plan.phases| ::
          if k < st.phase then Over(s.plan.phases[k], TicksIn(log, k), s.taperHold)
          else Running(s.plan.phases[k], TicksIn(log, k), s.taperHold))
    && (forall k: nat | k > st.phase :: TicksIn(log, k) == [])
    && (st.end == Some(Completed) <==> st.phase >= |s.plan.phases|)
  }

  ghost predicate TimerRight(s: Setup, st: State, log: seq<Entry>) {
    st.phase < |s.plan.phases| ==> st.taperSince == TimerOf(s.plan.phases[st.phase], TicksIn(log, st.phase))
  }

  lemma UnacceptedChangesNothing(s: Setup, st: State, input: Input)
    requires !Accepts(s, st, input) && (st.end == Some(Completed) <==> st.phase >= |s.plan.phases|)
    ensures var st' := Step(s, st, input);
            && st'.phase == st.phase && st'.onset == st.onset && st'.ccHighTicks == st.ccHighTicks
            && (!Broken(st') ==> st' == st)
            && (st'.end == Some(Completed) <==> st'.phase >= |s.plan.phases|)
  {
  }

  lemma AcceptedMovesPhase(s: Setup, st: State, t: Tick)
    requires Accepts(s, st, Telemetry(t))
    ensures var st', ph := Step(s, st, Telemetry(t)), s.plan.phases[st.phase];
            && (if Terminates(ph, st.taperSince, t, s.taperHold)
                then st'.phase == st.phase + 1 && st'.taperSince == None
                else st'.phase == st.phase && st'.taperSince == TaperSince(ph, st.taperSince, t))
            && (st'.end == Some(Completed) <==> st'.phase >= |s.plan.phases|)
  {
  }

  lemma AcceptedTickKeepsOrder(s: Setup, st: State, log: seq<Entry>, t: Tick)
    requires PhasesInOrder(s, st, log) && TimerRight(s, st, log) && Accepts(s, st, Telemetry(t))
    ensures var st', log' := Step(s, st, Telemetry(t)), log + [Entry(st.phase, t)];
            PhasesInOrder(s, st', log') && TimerRight(s, st', log')
  {
    var st', log' := Step(s, st, Telemetry(t)), log + [Entry(st.phase, t)];
    var ph, ticks := s.plan.phases[st.phase], TicksIn(log, st.phase);
    TerminatesIffEnds(ph, ticks, t, s.taperHold);
    PhaseAfter(ph, ticks, t, s.taperHold);
    AcceptedMovesPhase(s, st, t);
    OrderAfter(s, st, log, t, st');
  }

  lemma OrderAfter(s: Setup, st: State, log: seq<Entry>, t: Tick, st': State)
    requires PhasesInOrder(s, st, log) && st.phase < |s.plan.phases|
    requires var ph, ticks := s.plan.phases[st.phase], TicksIn(log, st.phase);
             if st'.phase == st.phase then
               Running(ph, ticks + [t], s.taperHold) && st'.taperSince == TimerOf(ph, ticks + [t])
             else
               st'.phase == st.phase + 1 && Over(ph, ticks + [t], s.taperHold) && st'.taperSince == None
    requires st'.end == Some(Completed) <==> st'.phase >= |s.plan.phases|
    ensures PhasesInOrder(s, st', log + [Entry(st.phase, t)]) && TimerRight(s, st', log + [Entry(st.phase, t)])
  {
    var log', ticks := log + [Entry(st.phase, t)], TicksIn(log, st.phase);
    forall k: nat ensures TicksIn(log', k) == if k == st.phase then ticks + [t] else TicksIn(log, k) {
      TicksAfter(log, Entry(st.phase, t), k);
    }
  }

  lemma {:induction false} PhasesEndByTheirRule(s: Setup, feed: seq<Input>)
    ensures PhasesInOrder(s, After(s, feed), Log(s, feed))
    ensures !Broken(After(s, feed)) ==> TimerRight(s, After(s, feed), Log(s, feed))
  {
    if feed != [] {
      var before, input := feed[..|feed| - 1], feed[|feed| - 1];
      PhasesEndByTheirRule(s, before);
      if Accepts(s, After(s, before), input) {
        AcceptedTickKeepsOrder(s, After(s, before), Log(s, before), input.tick);
      } else {
        UnacceptedChangesNothing(s, After(s, before), input);
      }
    }
  }

  /** Only a lithium charge ends by itself, and only by a held taper in its main phase; a lead-acid
      charge floats until it is stopped. */
  lemma OnlyLithiumCompletes(req: Request, s: Setup, feed: seq<Input>)
    requires Compile(req) == Accepted(s.plan) && After(s, feed).end == Some(Completed)
    ensures req.Lithium()
    ensures var ticks := TicksIn(Log(s, feed), 1);
            s.plan.phases[1].kind.Main? && Over(s.plan.phases[1], ticks, s.taperHold)
            && HeldAt(s.plan.phases[1], ticks, |ticks| - 1, s.taperHold)
  {
    PhaseOrder(req);
    PhasesEndByTheirRule(s, feed);
    var last := |s.plan.phases| - 1;
    assert Over(s.plan.phases[last], TicksIn(Log(s, feed), last), s.taperHold);
    MainEndsByTaper(req, s.plan);
  }

  lemma MainEndsByTaper(req: Request, plan: Plan)
    requires Compile(req) == Accepted(plan) && req.Lithium()
    ensures |plan.phases| == 2 && plan.phases[1].untilVolts == 0.0
  {
  }

  // --- CC onset ---

  /** Two main-phase ticks in a row carry the full current and the second is in CC mode. */
  ghost predicate OnsetAt(ticks: seq<Tick>, k: int, chargeA: real) {
    1 <= k < |ticks| && ticks[k - 1].amps >= 0.9 * chargeA && ticks[k].amps >= 0.9 * chargeA && ticks[k].ccMode
  }

  ghost predicate FirstOnset(ticks: seq<Tick>, chargeA: real, onset: Option<Onset>) {
    match onset
    case None => forall k :: !OnsetAt(ticks, k, chargeA)
    case Some(o) => exists k :: OnsetAt(ticks, k, chargeA) && o == Onset(ticks[k].volts, ticks[k].amps)
                                && forall j | j < k :: !OnsetAt(ticks, j, chargeA)
  }

  /** How many of the last ticks in a row were high, as far as the gate asks. */
  ghost predicate CountsHigh(ticks: seq<Tick>, chargeA: real, high: nat) {
    var n := |ticks|;
    && (high >= 1 <==> n >= 1 && ticks[n - 1].amps >= 0.9 * chargeA)
    && (high >= 2 <==> n >= 2 && ticks[n - 1].amps >= 0.9 * chargeA && ticks[n - 2].amps >= 0.9 * chargeA)
  }

  predicate OnlyMain(plan: Plan, m: nat) {
    && m < |plan.phases| && plan.phases[m].kind.Main?
    && forall k | 0 <= k < |plan.phases| && k != m :: !plan.phases[k].kind.Main?
  }

  ghost predicate Watched(st: State, m: nat, ticks: seq<Tick>, chargeA: real) {
    && FirstOnset(ticks, chargeA, st.onset)
    && (st.phase < m ==> ticks == [])
    && (st.onset.None? && st.phase <= m ==> CountsHigh(ticks, chargeA, st.ccHighTicks))
  }

  lemma OnsetGrows(ticks: seq<Tick>, t: Tick, chargeA: real, onset: Option<Onset>)
    requires FirstOnset(ticks, chargeA, onset)
    ensures FirstOnset(ticks + [t], chargeA,
              if onset.Some? then onset
              else if OnsetAt(ticks + [t], |ticks|, chargeA) then Some(Onset(t.volts, t.amps)) else None)
  {
    var ticks' := ticks + [t];
    forall k | k < |ticks| ensures OnsetAt(ticks', k, chargeA) <==> OnsetAt(ticks, k, chargeA) {
      if 1 <= k { assert ticks'[k] == ticks[k] && ticks'[k - 1] == ticks[k - 1]; }
    }
    if onset.Some? {
      var k :| OnsetAt(ticks, k, chargeA) && onset.value == Onset(ticks[k].volts, ticks[k].amps)
               && forall j | j < k :: !OnsetAt(ticks, j, chargeA);
      assert OnsetAt(ticks', k, chargeA);
    }
  }

  lemma AcceptedTickIsWatched(s: Setup, m: nat, st: State, ticks: seq<Tick>, t: Tick)
    requires OnlyMain(s.plan, m) && Accepts(s, st, Telemetry(t))
    requires Watched(st, m, ticks, s.plan.request.chargeA)
    ensures Watched(Step(s, st, Telemetry(t)), m, if st.phase == m then ticks + [t] else ticks, s.plan.request.chargeA)
  {
    OnsetGrows(ticks, t, s.plan.request.chargeA, st.onset);
  }

  lemma NothingToWatch(st: State, m: nat, chargeA: real)
    requires st.onset.None? && st.ccHighTicks == 0
    ensures Watched(st, m, [], chargeA)
  {
  }

  lemma {:induction false} RunWatches(s: Setup, m: nat, feed: seq<Input>)
    requires OnlyMain(s.plan, m)
    ensures var st := After(s, feed);
            && Watched(st, m, TicksIn(Log(s, feed), m), s.plan.request.chargeA)
            && (st.end == Some(Completed) <==> st.phase >= |s.plan.phases|)
  {
    if feed == [] {
      NothingToWatch(After(s, feed), m, s.plan.request.chargeA);
    } else {
      var before, input := feed[..|feed| - 1], feed[|feed| - 1];
      var st, log := After(s, before), Log(s, before);
      RunWatches(s, m, before);
      if Accepts(s, st, input) {
        AcceptedTickIsWatched(s, m, st, TicksIn(log, m), input.tick);
        AcceptedMovesPhase(s, st, input.tick);
        TicksAfter(log, Entry(st.phase, input.tick), m);
        assert After(s, feed) == Step(s, st, input) && Log(s, feed) == log + [Entry(st.phase, input.tick)];
      } else {
        UnacceptedChangesNothing(s, st, input);
      }
    }
  }

  /** The onset kept is that of the first two full-current ticks in a row in the main phase whose
      second is in CC mode; without such a pair none is kept. */
  lemma OnsetIsFirstSteadyTick(req: Request, s: Setup, feed: seq<Input>)
    requires Compile(req) == Accepted(s.plan)
    ensures FirstOnset(TicksIn(Log(s, feed), if req.Lithium() then 1 else 0), req.chargeA, After(s, feed).onset)
  {
    PhaseOrder(req);
    RunWatches(s, if req.Lithium() then 1 else 0, feed);
  }
}
