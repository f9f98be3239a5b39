/** What holds of every charge run, whatever telemetry it is fed. */
module ChargeSafety {
  import opened Prelude
  import opened ChargePlan
  import opened ChargeRun

  /** An accepted tick and the phase that took it. */
  datatype Entry = Entry(phase: nat, tick: Tick)

  predicate Accepts(s: Setup, st: State, input: Input) {
    Live(s, st) && input.Telemetry? && Verdict(s, st, input.tick).None?
  }

  function Log(s: Setup, feed: seq<Input>): seq<Entry> {
    if feed == [] then [] else Extend(s, After(s, feed[..|feed| - 1]), Log(s, feed[..|feed| - 1]), feed[|feed| - 1])
  }

  function Extend(s: Setup, st: State, log: seq<Entry>, input: Input): seq<Entry> {
    if Accepts(s, st, input) then log + [Entry(st.phase, input.tick)] else log
  }

  lemma OneMore(s: Setup, feed: seq<Input>, input: Input)
    ensures After(s, feed + [input]) == Step(s, After(s, feed), input)
    ensures Log(s, feed + [input]) == Extend(s, After(s, feed), Log(s, feed), input)
  {
    assert (feed + [input])[..|feed|] == feed;
  }

  predicate Broken(st: State) { st.end.Some? && st.end.value.Faulted? }

  // --- what the session records ---

  ghost predicate IsPeak(log: seq<Entry>, peak: real) {
    && 0.0 <= peak
    && (forall e | e in log :: e.tick.volts <= peak)
    && (peak == 0.0 || exists e :: e in log && e.tick.volts == peak)
  }

  /** The status mirrors the accepted ticks: charge and time from the first to the last of them, and
      the highest voltage among them. The counter may creep back by its slack at every tick. */
  ghost predicate Mirrors(status: Status, log: seq<Entry>) {
    && IsPeak(log, status.peakVoltage)
    && (if log == [] then status == BLANK.status
        else
          var first, last := log[0].tick, log[|log| - 1].tick;
          && status.deliveredMah == (last.capAh - first.capAh) * 1000.0
          && status.elapsed == last.ts - first.ts
          && last.capAh >= first.capAh - 0.000001 * (|log| - 1) as real)
  }

  /** What the run keeps in step with the log until it faults. */
  ghost predicate Tracks(st: State, log: seq<Entry>) {
    && st.peakV == st.status.peakVoltage
    && (if log == [] then st.base.None?
        else st.base == Some(Base(log[0].tick.ts, log[0].tick.capAh)) && st.lastCap == log[|log| - 1].tick.capAh)
  }

  ghost predicate WithinEnvelope(limits: Limits, status: Status, log: seq<Entry>) {
    && status.deliveredMah <= limits.capCapMah
    && (forall e | e in log :: e.tick.volts <= limits.ceilingVolts)
  }

  lemma PeakGrows(log: seq<Entry>, peak: real, e: Entry)
    requires IsPeak(log, peak)
    ensures IsPeak(log + [e], if e.tick.volts > peak then e.tick.volts else peak)
  {
    var log' := log + [e];
    assert log'[|log|] == e && e in log';
    if peak != 0.0 && e.tick.volts <= peak {
      var d :| d in log && d.tick.volts == peak;
      assert d in log';
    }
  }

  /** What an accepted tick leaves in the run state. */
  lemma AcceptedStep(s: Setup, st: State, t: Tick)
    requires Accepts(s, st, Telemetry(t))
    ensures var based, st' := Based(st, t), Step(s, st, Telemetry(t));
      && st'.base == based.base && st'.base.Some? && st'.lastCap == t.capAh && t.capAh >= based.lastCap - 0.000001
      && st'.peakV == (if t.volts > st.peakV then t.volts else st.peakV)
      && st'.status == Status(Delivered(based.base.value, t), st'.peakV, t.ts - based.base.value.ts)
      && t.volts <= s.plan.limits.ceilingVolts && Delivered(based.base.value, t) <= s.plan.limits.capCapMah
  {
  }

  /** The log with one more accepted tick: its first and its last entry. */
  lemma OneMoreEntry(log: seq<Entry>, e: Entry)
    ensures var log' := log + [e];
      && log'[0] == (if log == [] then e else log[0]) && log'[|log'| - 1] == e
      && forall d | d in log' :: d in log || d == e
  {
  }

  lemma AcceptedTickIsRecorded(s: Setup, st: State, log: seq<Entry>, t: Tick)
    requires Mirrors(st.status, log) && Tracks(st, log) && Accepts(s, st, Telemetry(t))
    requires WithinEnvelope(s.plan.limits, st.status, log)
    ensures var st', log' := Step(s, st, Telemetry(t)), Extend(s, st, log, Telemetry(t));
            Mirrors(st'.status, log') && Tracks(st', log') && WithinEnvelope(s.plan.limits, st'.status, log')
  {
    AcceptedStep(s, st, t);
    OneMoreEntry(log, Entry(st.phase, t));
    PeakGrows(log, st.peakV, Entry(st.phase, t));
  }

  lemma {:induction false} RunIsRecorded(s: Setup, feed: seq<Input>)
    requires s.plan.limits.capCapMah >= 0.0
    ensures var st, log := After(s, feed), Log(s, feed);
            && Mirrors(st.status, log) && WithinEnvelope(s.plan.limits, st.status, log)
            && (!Broken(st) ==> Tracks(st, log))
  {
    if feed != [] {
      var before, input := feed[..|feed| - 1], feed[|feed| - 1];
      RunIsRecorded(s, before);
      if Accepts(s, After(s, before), input) {
        AcceptedTickIsRecorded(s, After(s, before), Log(s, before), input.tick);
      }
    }
  }

  /** However a charge ends, even by the tick that broke a limit, the session shows no more charge than
      the cap, no voltage above the ceiling, and no more than the counter slack per tick below zero. */
  lemma RecordedWithinLimits(req: Request, s: Setup, feed: seq<Input>)
    requires Compile(req) == Accepted(s.plan)
    ensures var status, log := After(s, feed).status, Log(s, feed);
            && status.deliveredMah <= s.plan.limits.capCapMah
            && 0.0 <= status.peakVoltage <= s.plan.limits.ceilingVolts < s.plan.limits.ovpVolts <= DEVICE_MAX_VOLTAGE
            && (forall e | e in log :: e.tick.volts <= status.peakVoltage)
            && status.deliveredMah >= (if log == [] then 0.0 else -0.001 * (|log| - 1) as real)
  {
    AcceptedIffChargeable(req);
    RunIsRecorded(s, feed);
    AcceptedPlanIsSafe(req, s.plan, s.plan.phases[0]);
  }

  /** An idle tick at 0 V that reads the given counter. */
  function Idle(capAh: real): Input {
    Telemetry(Tick(0, 0.0, 0.0, capAh, false))
  }

  /** A run of n + 1 ticks: the counter slips by its slack at every tick but the first. */
  function Slipping(n: nat, origin: real): seq<Input> {
    if n == 0 then [Idle(origin)] else Slipping(n - 1, origin) + [Idle(Slip(n, origin))]
  }

  function Slip(n: nat, origin: real): real {
    origin - 0.000001 * n as real
  }

  /** Idle in the first phase, having read `origin` first and `capAh` last. */
  ghost predicate Slipped(s: Setup, st: State, origin: real, capAh: real) {
    && Live(s, st) && st.phase == 0 && st.taperSince.None?
    && st.base == Some(Base(0, origin)) && st.phaseStart == Some(0)
    && st.lastCap == capAh && st.status.deliveredMah == (capAh - origin) * 1000.0
  }

  /** Nothing in the first phase ends it at 0 V. */
  predicate HoldsAtZero(s: Setup) {
    && s.plan.phases != [] && 0 !in s.offlineAt
    && s.plan.phases[0].volts > 0.0 && s.plan.limits.ceilingVolts >= 0.0 && s.plan.limits.capCapMah >= 0.0
  }

  lemma ZeroNeverTerminates(s: Setup, capAh: real)
    requires HoldsAtZero(s)
    ensures var t := Idle(capAh).tick; var ph := s.plan.phases[0];
            !Terminates(ph, None, t, s.taperHold) && TaperSince(ph, None, t).None?
  {
    assert !InTaper(s.plan.phases[0], Idle(capAh).tick);
  }

  lemma FirstIdleTick(s: Setup, st: State, origin: real)
    requires HoldsAtZero(s) && Live(s, st) && st.phase == 0
    requires st.base.None? && st.phaseStart.None? && st.taperSince.None?
    ensures Accepts(s, st, Idle(origin)) && Slipped(s, Step(s, st, Idle(origin)), origin, origin)
  {
    ZeroNeverTerminates(s, origin);
  }

  lemma SlipStep(s: Setup, st: State, origin: real, was: real, capAh: real)
    requires HoldsAtZero(s) && Slipped(s, st, origin, was) && was - 0.000001 <= capAh <= origin
    ensures Accepts(s, st, Idle(capAh)) && Slipped(s, Step(s, st, Idle(capAh)), origin, capAh)
  {
    ZeroNeverTerminates(s, capAh);
  }

  /** The lower bound is reached: slips drain the reading tick by tick without ending the run. */
  lemma {:induction false} SlippingDrains(s: Setup, n: nat, origin: real)
    requires HoldsAtZero(s)
    ensures |Log(s, Slipping(n, origin))| == n + 1
    ensures Slipped(s, After(s, Slipping(n, origin)), origin, Slip(n, origin))
  {
    if n == 0 {
      FirstIdleTick(s, After(s, []), origin);
      OneMore(s, [], Idle(origin));
    } else {
      SlippingDrains(s, n - 1, origin);
      SlipStep(s, After(s, Slipping(n - 1, origin)), origin, Slip(n - 1, origin), Slip(n, origin));
      OneMore(s, Slipping(n - 1, origin), Idle(Slip(n, origin)));
    }
  }
}
