/** When a charge run ends, and how: the law of every input, in the readings of the feed. */
module ChargeFaults {
  import opened Prelude
  import opened ChargePlan
  import opened ChargeRun
  import opened ChargeSafety
  import opened ChargePhases

  /** The ticks of a feed. */
  function TicksOf(feed: seq<Input>): seq<Tick> {
    if feed == [] then []
    else
      var before, input := TicksOf(feed[..|feed| - 1]), feed[|feed| - 1];
      if input.Telemetry? then before + [input.tick] else before
  }

  function LogTicks(log: seq<Entry>): (ticks: seq<Tick>)
    ensures |ticks| == |log| && forall i | 0 <= i < |log| :: ticks[i] == log[i].tick
  {
    seq(|log|, i requires 0 <= i < |log| => log[i].tick)
  }

  /** The phases of the log never fall, and none is beyond the one the run is in. */
  predicate Rising(log: seq<Entry>, phase: nat) {
    && (forall i, j | 0 <= i <= j < |log| :: log[i].phase <= log[j].phase)
    && (forall i | 0 <= i < |log| :: log[i].phase <= phase)
  }

  /** The phase's clock started at its first tick. */
  predicate PhaseClock(st: State, log: seq<Entry>) {
    var own := TicksIn(log, st.phase);
    st.phaseStart == if own == [] then None else Some(own[0].ts)
  }

  /** Its counters are those of the first and the last tick. */
  predicate Counters(st: State, log: seq<Entry>) {
    if log == [] then st.base.None?
    else st.base == Some(Base(log[0].tick.ts, log[0].tick.capAh)) && st.lastCap == log[|log| - 1].tick.capAh
  }

  /** A run that has not ended: it is in a phase, every tick of the feed is in its log, and its clocks and
      counters are those of the log. */
  ghost predicate InStep(s: Setup, st: State, feed: seq<Input>, log: seq<Entry>) {
    && st.phase < |s.plan.phases|
    && LogTicks(log) == TicksOf(feed) && Rising(log, st.phase)
    && PhaseClock(st, log) && Counters(st, log)
    && PhasesInOrder(s, st, log) && TimerRight(s, st, log)
  }

  lemma NothingYet(s: Setup)
    requires After(s, []).end.None?
    ensures InStep(s, After(s, []), [], [])
  {
    PhasesEndByTheirRule(s, []);
  }

  lemma AcceptedKeepsStep(s: Setup, st: State, feed: seq<Input>, log: seq<Entry>, t: Tick)
    requires InStep(s, st, feed, log) && Accepts(s, st, Telemetry(t))
    requires var st', log' := Step(s, st, Telemetry(t)), log + [Entry(st.phase, t)];
             st'.end.None? && PhasesInOrder(s, st', log') && TimerRight(s, st', log')
    ensures InStep(s, Step(s, st, Telemetry(t)), feed + [Telemetry(t)], log + [Entry(st.phase, t)])
  {
    var st', log', e := Step(s, st, Telemetry(t)), log + [Entry(st.phase, t)], Entry(st.phase, t);
    assert (feed + [Telemetry(t)])[..|feed|] == feed;
    assert LogTicks(log') == LogTicks(log) + [t];
    AcceptedMovesPhase(s, st, t);
    AcceptedStep(s, st, t);
    ClockGoesOn(s, st, log, t);
  }

  lemma PhaseStartAfter(s: Setup, st: State, t: Tick)
    requires Accepts(s, st, Telemetry(t)) && Step(s, st, Telemetry(t)).end.None?
    ensures var st' := Step(s, st, Telemetry(t));
            if st'.phase == st.phase
            then st'.phaseStart == if st.phaseStart.None? then Some(t.ts) else st.phaseStart
            else st'.phase == st.phase + 1 && st'.phaseStart.None?
  {
  }

  lemma ClockGoesOn(s: Setup, st: State, log: seq<Entry>, t: Tick)
    requires Accepts(s, st, Telemetry(t)) && PhaseClock(st, log) && PhasesInOrder(s, st, log)
    requires Step(s, st, Telemetry(t)).end.None?
    ensures PhaseClock(Step(s, st, Telemetry(t)), log + [Entry(st.phase, t)])
  {
    TicksAfter(log, Entry(st.phase, t), st.phase);
    TicksAfter(log, Entry(st.phase, t), st.phase + 1);
    assert TicksIn(log, st.phase + 1) == [];
    PhaseStartAfter(s, st, t);
  }

  lemma {:induction false} LiveRunIsInStep(s: Setup, feed: seq<Input>)
    requires After(s, feed).end.None?
    ensures InStep(s, After(s, feed), feed, Log(s, feed))
  {
    if feed == [] {
      NothingYet(s);
    } else {
      var before, input := feed[..|feed| - 1], feed[|feed| - 1];
      var st := After(s, before);
      OnlyLiveGoesOn(s, st, input);
      LiveRunIsInStep(s, before);
      PhasesEndByTheirRule(s, feed);
      AcceptedKeepsStep(s, st, before, Log(s, before), input.tick);
      assert before + [input] == feed;
    }
  }

  /** A run goes on after an input only if it was live and the input was a tick it accepted. */
  lemma OnlyLiveGoesOn(s: Setup, st: State, input: Input)
    requires Step(s, st, input).end.None?
    ensures st.end.None? && (st.phase < |s.plan.phases| ==> Accepts(s, st, input))
  {
  }

  // --- the law ---

  /** What is wrong with a tick, in the order of the checks. */
  datatype Reading = Reading(slips: bool, over: bool, full: bool, late: bool)
  {
    predicate Fine() { !slips && !over && !full && !late }
  }

  /** `ticks` are all ticks so far and `own` those of the phase, both with this one last: the counter fell by
      more than a millionth of an ampere-hour since the tick before; the voltage is above the ceiling; the
      charge since the first tick is above the cap; the time since the phase's first tick is above its
      timeout. */
  function Read(limits: Limits, ph: Phase, ticks: seq<Tick>, own: seq<Tick>): Reading
    requires ticks != [] && own != []
  {
    var n := |ticks|;
    Reading(n >= 2 && ticks[n - 1].capAh < ticks[n - 2].capAh - 0.000001,
            ticks[n - 1].volts > limits.ceilingVolts,
            (ticks[n - 1].capAh - ticks[0].capAh) * 1000.0 > limits.capCapMah,
            ph.timeout > 0 && ticks[n - 1].ts - own[0].ts > ph.timeout)
  }

  /** The end a live run comes to on a tick, if any. */
  ghost predicate EndsAs(s: Setup, k: nat, own: seq<Tick>, r: Reading, end: Option<End>)
    requires k < |s.plan.phases|
  {
    var over := EndsAt(s.plan.phases[k], own, |own| - 1, s.taperHold);
    && (end == Some(Faulted(CounterReset)) <==> r.slips)
    && (end == Some(Faulted(Ceiling)) <==> !r.slips && r.over)
    && (end == Some(Faulted(CapCap)) <==> !r.slips && !r.over && r.full)
    && (end == Some(Faulted(Timeout)) <==> !r.slips && !r.over && !r.full && r.late)
    && (end == Some(Faulted(Offline)) <==> r.Fine() && over && k + 1 < |s.plan.phases| && k + 1 in s.offlineAt)
    && (end == Some(Completed) <==> r.Fine() && over && k + 1 == |s.plan.phases|)
    && (end == None <==> r.Fine() && !(over && (k + 1 == |s.plan.phases| || k + 1 in s.offlineAt)))
  }

  lemma EndOfStep(s: Setup, st: State, t: Tick)
    requires Live(s, st)
    ensures var verdict, k := Verdict(s, st, t), st.phase + 1;
            Step(s, st, Telemetry(t)).end ==
              if verdict.Some? then Some(Faulted(verdict.value))
              else if !Terminates(s.plan.phases[st.phase], st.taperSince, t, s.taperHold) then None
              else if k == |s.plan.phases| then Some(Completed)
              else if k in s.offlineAt then Some(Faulted(Offline)) else None
  {
  }

  lemma EndFollows(s: Setup, k: nat, own: seq<Tick>, r: Reading, verdict: Option<Fault>, over: bool, end: Option<End>)
    requires k < |s.plan.phases| && (over <==> EndsAt(s.plan.phases[k], own, |own| - 1, s.taperHold))
    requires verdict ==
               if r.slips then Some(CounterReset) else if r.over then Some(Ceiling) else if r.full then Some(CapCap)
               else if r.late then Some(Timeout) else None
    requires end ==
               if verdict.Some? then Some(Faulted(verdict.value))
               else if !over then None
               else if k + 1 == |s.plan.phases| then Some(Completed)
               else if k + 1 in s.offlineAt then Some(Faulted(Offline)) else None
    ensures EndsAs(s, k, own, r, end)
  {
  }

  lemma TickDecides(s: Setup, st: State, feed: seq<Input>, log: seq<Entry>, t: Tick)
    requires InStep(s, st, feed, log) && st.end.None?
    ensures var own := TicksIn(log, st.phase) + [t];
            EndsAs(s, st.phase, own, Read(s.plan.limits, s.plan.phases[st.phase], TicksOf(feed) + [t], own),
                   Step(s, st, Telemetry(t)).end)
  {
    var ticks, own, ph := TicksOf(feed), TicksIn(log, st.phase), s.plan.phases[st.phase];
    TerminatesIffEnds(ph, own, t, s.taperHold);
    CountersAreLogs(st, log);
    var r := Read(s.plan.limits, ph, ticks + [t], own + [t]);
    VerdictIsReading(s, st, t, r);
    EndOfStep(s, st, t);
    EndFollows(s, st.phase, own + [t], r, Verdict(s, st, t), Terminates(ph, st.taperSince, t, s.taperHold),
               Step(s, st, Telemetry(t)).end);
  }

  /** The run's counters in terms of the ticks. */
  lemma CountersAreLogs(st: State, log: seq<Entry>)
    requires Counters(st, log)
    ensures var ticks := LogTicks(log);
            if ticks == [] then st.base.None?
            else st.base == Some(Base(ticks[0].ts, ticks[0].capAh)) && st.lastCap == ticks[|ticks| - 1].capAh
  {
  }

  lemma VerdictIsReading(s: Setup, st: State, t: Tick, r: Reading)
    requires Live(s, st)
    requires r.slips <==> st.base.Some? && t.capAh < st.lastCap - 0.000001
    requires r.over <==> t.volts > s.plan.limits.ceilingVolts
    requires var origin := if st.base.Some? then st.base.value.capAh else t.capAh;
             r.full <==> (t.capAh - origin) * 1000.0 > s.plan.limits.capCapMah
    requires var timeout := s.plan.phases[st.phase].timeout;
             r.late <==> (timeout > 0 && t.ts - (if st.phaseStart.Some? then st.phaseStart.value else t.ts) > timeout)
    ensures Verdict(s, st, t) ==
              if r.slips then Some(CounterReset) else if r.over then Some(Ceiling) else if r.full then Some(CapCap)
              else if r.late then Some(Timeout) else None
  {
  }

  /** A run that is live before an input has ended after it with Protection, Stale or Aborted exactly when
      that input is a trip, silence or the cancellation. A live run is in a phase, and has taken in all ticks
      so far. */
  lemma InterruptionsEndRun(s: Setup, feed: seq<Input>, i: nat)
    requires i < |feed| && After(s, feed[..i]).end.None?
    ensures var end := After(s, feed[..i + 1]).end;
            && (end == Some(Faulted(Protection)) <==> feed[i].Trip?)
            && (end == Some(Faulted(Stale)) <==> feed[i].Silence?)
            && (end == Some(Faulted(Aborted)) <==> feed[i].Cancel?)
    ensures After(s, feed[..i]).phase < |s.plan.phases|
    ensures LogTicks(Log(s, feed[..i])) == TicksOf(feed[..i])
  {
    assert feed[..i + 1][..i] == feed[..i];
    LiveRunIsInStep(s, feed[..i]);
    if feed[i].Telemetry? { TickDecides(s, After(s, feed[..i]), feed[..i], Log(s, feed[..i]), feed[i].tick); }
  }

  /** On a tick it ends as the readings say: by a counter reset, the ceiling, the cap or the phase's timeout,
      in that order; else, if the tick ends its phase, by the failing writes of the next phase or, after the
      last, completed; and otherwise it goes on. */
  lemma TicksEndRun(s: Setup, feed: seq<Input>, i: nat)
    requires i < |feed| && After(s, feed[..i]).end.None? && feed[i].Telemetry?
    ensures var k, t := After(s, feed[..i]).phase, feed[i].tick;
            var own := TicksIn(Log(s, feed[..i]), k) + [t];
            k < |s.plan.phases| &&
            EndsAs(s, k, own, Read(s.plan.limits, s.plan.phases[k], TicksOf(feed[..i + 1]), own),
                   After(s, feed[..i + 1]).end)
  {
    assert feed[..i + 1][..i] == feed[..i];
    LiveRunIsInStep(s, feed[..i]);
    TickDecides(s, After(s, feed[..i]), feed[..i], Log(s, feed[..i]), feed[i].tick);
  }

  /** Before its first input a run has ended exactly when the first setpoints cannot be written, or there is
      no phase at all. */
  lemma StartOfRun(s: Setup)
    ensures After(s, []).end == (if s.plan.phases == [] then Some(Completed)
                                 else if 0 in s.offlineAt then Some(Faulted(Offline)) else None)
  {
  }
}
