/** One charge execution: the tick loop that enforces the safety envelope, advances through the
    compiled phases and records what the session will show. */
module ChargeRun {
  import opened Prelude
  import opened ChargePlan
  import Debounce

  /** A telemetry tick: device counter in Ah, mode flag as reported. */
  datatype Tick = Tick(ts: int, volts: real, amps: real, capAh: real, ccMode: bool)

  /** What a wait for the next tick can bring: a tick, a protection trip (reported as an event or in a tick),
      silence beyond the stale timeout, or the cancelled run. */
  datatype Input = Telemetry(tick: Tick) | Trip | Silence | Cancel

  datatype Fault = Offline | CounterReset | Ceiling | CapCap | Timeout | Protection | Stale | Aborted
  datatype End = Completed | Faulted(fault: Fault)

  datatype Base = Base(ts: int, capAh: real)
  datatype Status = Status(deliveredMah: real, peakVoltage: real, elapsed: int)
  datatype Onset = Onset(volts: real, amps: real)

  /** The run between two ticks. */
  datatype State = State(
    base: Option<Base>, lastCap: real, peakV: real, ccHighTicks: nat, onset: Option<Onset>, status: Status,
    phase: nat, phaseStart: Option<int>, taperSince: Option<int>, end: Option<End>)

  /** A plan, the phases whose setpoint writes fail, and how long the taper must hold. */
  datatype Setup = Setup(plan: Plan, offlineAt: set<nat>, taperHold: int)

  const BLANK := State(None, 0.0, 0.0, 0, None, Status(0.0, 0.0, 0), 0, None, None, None)

  /** Writes the setpoints of phase k, or finishes when there is none. */
  function Enter(s: Setup, st: State, k: nat): State {
    if k >= |s.plan.phases| then st.(phase := k, phaseStart := None, taperSince := None, end := Some(Completed))
    else st.(phase := k, phaseStart := None, taperSince := None,
             end := if k in s.offlineAt then Some(Faulted(Offline)) else None)
  }

  function Based(st: State, t: Tick): State {
    var st := if st.base.None? then st.(base := Some(Base(t.ts, t.capAh)), lastCap := t.capAh) else st;
    if st.phaseStart.None? then st.(phaseStart := Some(t.ts)) else st
  }

  function Peaked(st: State, t: Tick): State {
    st.(lastCap := t.capAh, peakV := if t.volts > st.peakV then t.volts else st.peakV)
  }

  function Delivered(base: Base, t: Tick): real {
    (t.capAh - base.capAh) * 1000.0
  }

  function Breach(limits: Limits, ph: Phase, base: Base, phaseStart: int, t: Tick): Option<Fault> {
    if t.volts > limits.ceilingVolts then Some(Ceiling)
    else if Delivered(base, t) > limits.capCapMah then Some(CapCap)
    else if ph.timeout > 0 && t.ts - phaseStart > ph.timeout then Some(Timeout)
    else None
  }

  function High(chargeA: real, t: Tick): bool {
    t.amps >= 0.9 * chargeA
  }

  /** The operating point at which the full charge current first flows steadily is kept once. */
  function Observed(st: State, ph: Phase, chargeA: real, t: Tick): State {
    if st.onset.Some? then st
    else if !ph.kind.Main? || !High(chargeA, t) then st.(ccHighTicks := 0)
    else
      var high := st.ccHighTicks + 1;
      st.(ccHighTicks := high, onset := if high >= 2 && t.ccMode then Some(Onset(t.volts, t.amps)) else None)
  }

  function Recorded(st: State, t: Tick): State
    requires st.base.Some?
  {
    st.(status := Status(Delivered(st.base.value, t), st.peakV, t.ts - st.base.value.ts))
  }

  predicate InTaper(ph: Phase, t: Tick) {
    t.volts >= ph.volts - 0.02 * ph.volts && t.amps < ph.taperAmps
  }

  /** The timer of a phase that ends by its taper; other phases have none. */
  predicate Tapers(ph: Phase) {
    !ph.holdToStop && ph.untilVolts <= 0.0 && ph.taperAmps > 0.0
  }

  function TaperSince(ph: Phase, since: Option<int>, t: Tick): Option<int> {
    if Tapers(ph) then Debounce.Arm(since, Debounce.Obs(t.ts, InTaper(ph, t))) else since
  }

  predicate Terminates(ph: Phase, since: Option<int>, t: Tick, hold: int) {
    if Tapers(ph) then Debounce.Closes(since, Debounce.Obs(t.ts, InTaper(ph, t)), hold)
    else !ph.holdToStop && ph.untilVolts > 0.0 && t.volts >= ph.untilVolts
  }

  function Advanced(s: Setup, st: State, ph: Phase, t: Tick): State {
    if Terminates(ph, st.taperSince, t, s.taperHold) then Enter(s, st, st.phase + 1)
    else st.(taperSince := TaperSince(ph, st.taperSince, t))
  }

  function Fail(st: State, f: Fault): State {
    st.(end := Some(Faulted(f)))
  }

  predicate Live(s: Setup, st: State) {
    st.end.None? && st.phase < |s.plan.phases|
  }

  /** The checks of one tick, in their order; `None` means the tick is accepted. */
  function Verdict(s: Setup, st: State, t: Tick): Option<Fault>
    requires Live(s, st)
  {
    var based := Based(st, t);
    if t.capAh < based.lastCap - 0.000001 then Some(CounterReset)
    else Breach(s.plan.limits, s.plan.phases[st.phase], based.base.value, based.phaseStart.value, t)
  }

  function OnTick(s: Setup, st: State, t: Tick): State
    requires Live(s, st)
  {
    var ph, based, verdict := s.plan.phases[st.phase], Based(st, t), Verdict(s, st, t);
    if verdict == Some(CounterReset) then Fail(based, CounterReset)
    else
      var peaked := Peaked(based, t);
      if verdict.Some? then Fail(peaked, verdict.value)
      else Advanced(s, Observed(Recorded(peaked, t), ph, s.plan.request.chargeA, t), ph, t)
  }

  function Step(s: Setup, st: State, input: Input): State {
    if !Live(s, st) then st
    else match input
      case Telemetry(t) => OnTick(s, st, t)
      case Trip => Fail(st, Protection)
      case Silence => Fail(st, Stale)
      case Cancel => Fail(st, Aborted)
  }

  function After(s: Setup, feed: seq<Input>): State {
    if feed == [] then Enter(s, BLANK, 0) else Step(s, After(s, feed[..|feed| - 1]), feed[|feed| - 1])
  }

  lemma {:induction false} EndedStays(s: Setup, feed: seq<Input>, n: nat)
    requires n <= |feed| && !Live(s, After(s, feed[..n]))
    ensures After(s, feed) == After(s, feed[..n])
    decreases |feed|
  {
    if n < |feed| {
      assert feed[..|feed| - 1][..n] == feed[..n];
      EndedStays(s, feed[..|feed| - 1], n);
    } else {
      assert feed[..n] == feed;
    }
  }

  // --- the engine ---

  datatype PhaseResult = Next | Failed(fault: Fault) | Waiting

  class Run {
    const plan: Plan
    const offlineAt: set<nat>
    const taperHold: int
    const feed: seq<Input>
    var pos: nat
    var haveBase: bool
    var firstTS: int
    var baseCap: real
    var lastCap: real
    var peakV: real
    var captured: bool
    var ccHighTicks: nat
    var onset: Option<Onset>
    var status: Status

    ghost function Conf(): Setup { Setup(plan, offlineAt, taperHold) }

    ghost function View(phase: nat, phaseStart: Option<int>, taperSince: Option<int>, end: Option<End>): State
      reads this
    {
      State(if haveBase then Some(Base(firstTS, baseCap)) else None, lastCap, peakV, ccHighTicks, onset, status,
            phase, phaseStart, taperSince, end)
    }

    ghost predicate Valid() reads this {
      pos <= |feed| && (captured <==> onset.Some?)
    }

    constructor (s: Setup, feed: seq<Input>)
      ensures Valid() && pos == 0 && this.feed == feed && Conf() == s
      ensures View(0, None, None, None) == BLANK
    {
      plan, offlineAt, taperHold, this.feed, pos := s.plan, s.offlineAt, s.taperHold, feed, 0;
      haveBase, firstTS, baseCap, lastCap, peakV := false, 0, 0.0, 0.0, 0.0;
      captured, ccHighTicks, onset, status := false, 0, None, Status(0.0, 0.0, 0);
    }

    method MaybeCaptureCCOnset(ph: Phase, t: Tick)
      requires Valid()
      modifies this`captured, this`ccHighTicks, this`onset
      ensures Valid()
      ensures forall k, start, since, end ::
                View(k, start, since, end) == Observed(old(View(k, start, since, end)), ph, plan.request.chargeA, t)
    {
      if captured { return; }
      if !ph.kind.Main? { ccHighTicks := 0; return; }
      if t.amps >= 0.9 * plan.request.chargeA {
        ccHighTicks := ccHighTicks + 1;
      } else {
        ccHighTicks := 0;
        return;
      }
      if ccHighTicks < 2 { return; }
      if !t.ccMode { return; }
      captured, onset := true, Some(Onset(t.volts, t.amps));
    }

    /** The bookkeeping and the safety checks of one tick; an accepted tick is recorded. */
    method Admit(ph: Phase, t: Tick, phaseStart: int, ghost before: State) returns (f: Option<Fault>)
      requires Valid() && Live(Conf(), before) && plan.phases[before.phase] == ph
      requires before == View(before.phase, before.phaseStart, before.taperSince, None)
      requires phaseStart == (if before.phaseStart.Some? then before.phaseStart.value else t.ts)
      modifies this`haveBase, this`firstTS, this`baseCap, this`lastCap, this`peakV, this`status
      ensures Valid() && f == Verdict(Conf(), before, t)
      ensures View(before.phase, Some(phaseStart), before.taperSince, None) ==
                if f == Some(CounterReset) then Based(before, t)
                else if f.Some? then Peaked(Based(before, t), t)
                else Recorded(Peaked(Based(before, t), t), t)
    {
      if !haveBase {
        haveBase, firstTS, baseCap, lastCap := true, t.ts, t.capAh, t.capAh;
      }
      ghost var based := Based(before, t);
      assert View(before.phase, Some(phaseStart), before.taperSince, None) == based;
      if t.capAh < lastCap - 0.000001 { return Some(CounterReset); }
      lastCap := t.capAh;
      if t.volts > peakV { peakV := t.volts; }
      assert View(before.phase, Some(phaseStart), before.taperSince, None) == Peaked(based, t);
      f := CheckLimits(ph, t, phaseStart);
      if f.Some? { return; }
      status := Status((t.capAh - baseCap) * 1000.0, peakV, t.ts - firstTS);
    }

    /** Voltage ceiling, capacity cap and phase timeout, in that order. */
    method CheckLimits(ph: Phase, t: Tick, phaseStart: int) returns (f: Option<Fault>)
      ensures f == Breach(plan.limits, ph, Base(firstTS, baseCap), phaseStart, t)
    {
      if t.volts > plan.limits.ceilingVolts { return Some(Ceiling); }
      var delivered := (t.capAh - baseCap) * 1000.0;
      if delivered > plan.limits.capCapMah { return Some(CapCap); }
      if ph.timeout > 0 && t.ts - phaseStart > ph.timeout { return Some(Timeout); }
      f := None;
    }

    method Termination(ph: Phase, t: Tick, holding: bool, since: int) returns (done: bool, holding': bool, since': int)
      ensures var timer := if holding then Some(since) else None;
              && done == Terminates(ph, timer, t, taperHold)
              && (if holding' then Some(since') else None) == TaperSince(ph, timer, t)
    {
      done, holding', since' := false, holding, since;
      if ph.holdToStop {
      } else if ph.untilVolts > 0.0 {
        done := t.volts >= ph.untilVolts;
      } else if ph.taperAmps > 0.0 {
        var inCV := t.volts >= ph.volts - 0.02 * ph.volts;
        if inCV && t.amps < ph.taperAmps {
          if !holding { holding', since' := true, t.ts; }
          done := t.ts - since' >= taperHold;
        } else {
          holding' := false;
        }
      }
    }

    /** The phase's own clocks: when it started and since when the taper has held. */
    ghost function Clock(running: bool, since: int): Option<int> {
      if running then Some(since) else None
    }

    method HandleTick(ph: Phase, k: nat, t: Tick, started: bool, start: int, holding: bool, since: int)
      returns (f: Option<Fault>, done: bool, start': int, holding': bool, since': int)
      requires Valid() && k < |plan.phases| && plan.phases[k] == ph
      modifies this`haveBase, this`firstTS, this`baseCap, this`lastCap, this`peakV, this`status,
               this`captured, this`ccHighTicks, this`onset
      ensures Valid()
      ensures var next := Step(Conf(), old(View(k, Clock(started, start), Clock(holding, since), None)), Telemetry(t));
              if f.Some? then next == View(k, Some(start'), Clock(holding', since'), Some(Faulted(f.value)))
              else if done then next == Enter(Conf(), View(k + 1, None, None, None), k + 1)
              else next == View(k, Some(start'), Clock(holding', since'), None)
    {
      ghost var before := View(k, Clock(started, start), Clock(holding, since), None);
      done, holding', since' := false, holding, since;
      start' := if started then start else t.ts;
      f := Admit(ph, t, start', before);
      if f.None? {
        MaybeCaptureCCOnset(ph, t);
        done, holding', since' := Termination(ph, t, holding, since);
      }
    }

    lemma TakesOne(n: nat)
      requires n < |feed|
      ensures After(Conf(), feed[..n + 1]) == Step(Conf(), After(Conf(), feed[..n]), feed[n])
    {
      assert feed[..n + 1][..n] == feed[..n];
    }

    /** Waits for one input and acts on it. */
    method TakeInput(ph: Phase, k: nat, started: bool, start: int, holding: bool, since: int)
      returns (r: PhaseResult, started': bool, start': int, holding': bool, since': int)
      requires Valid() && k < |plan.phases| && plan.phases[k] == ph && pos < |feed|
      requires After(Conf(), feed[..pos]) == View(k, Clock(started, start), Clock(holding, since), None)
      modifies this
      ensures Valid() && pos == old(pos) + 1
      ensures Reached(k, r, Clock(started', start'), Clock(holding', since'))
    {
      TakesOne(pos);
      var input := feed[pos];
      pos := pos + 1;
      r, started', start', holding', since' := Waiting, started, start, holding, since;
      match input
      case Trip => r := Failed(Protection);
      case Silence => r := Failed(Stale);
      case Cancel => r := Failed(Aborted);
      case Telemetry(t) =>
        var f, done;
        f, done, start', holding', since' := HandleTick(ph, k, t, started, start, holding, since);
        started' := true;
        if f.Some? { r := Failed(f.value); } else if done { r := Next; }
    }

    /** Phase k after the inputs taken so far: still waiting, failed, or over. */
    ghost predicate Reached(k: nat, r: PhaseResult, start: Option<int>, since: Option<int>)
      reads this
    {
      pos <= |feed| && After(Conf(), feed[..pos]) ==
        match r
        case Waiting => View(k, start, since, None)
        case Failed(f) => View(k, start, since, Some(Faulted(f)))
        case Next => Enter(Conf(), View(k + 1, None, None, None), k + 1)
    }

    method RunPhase(ph: Phase, k: nat) returns (r: PhaseResult, ghost start: Option<int>, ghost since: Option<int>)
      requires Valid() && k < |plan.phases| && plan.phases[k] == ph
      requires After(Conf(), feed[..pos]) == Enter(Conf(), View(k, None, None, None), k)
      modifies this
      ensures Valid() && Reached(k, r, start, since)
      ensures r.Waiting? ==> pos == |feed|
    {
      if k in offlineAt { return Failed(Offline), None, None; }
      var phaseStart, havePhaseStart := 0, false;
      var taperSince, taperHolding := 0, false;
      r := Waiting;
      while r.Waiting? && pos < |feed|
        invariant Valid() && Reached(k, r, Clock(havePhaseStart, phaseStart), Clock(taperHolding, taperSince))
        decreases |feed| - pos
      {
        r, havePhaseStart, phaseStart, taperHolding, taperSince :=
          TakeInput(ph, k, havePhaseStart, phaseStart, taperHolding, taperSince);
      }
      start, since := Clock(havePhaseStart, phaseStart), Clock(taperHolding, taperSince);
    }

    /** Runs the phases in order. The recorded status, the onset and the end are those of the whole
        feed, whatever phase the run reached. */
    method Drive() returns (end: Option<End>)
      requires Valid() && pos == 0 && View(0, None, None, None) == BLANK
      modifies this
      ensures var final := After(Conf(), feed);
              end == final.end && status == final.status && onset == final.onset && ccHighTicks == final.ccHighTicks
    {
      var k := 0;
      assert feed[..0] == [];
      while k < |plan.phases|
        invariant Valid() && k <= |plan.phases|
        invariant After(Conf(), feed[..pos]) == Enter(Conf(), View(k, None, None, None), k)
      {
        var r, start, since := RunPhase(plan.phases[k], k);
        if r.Waiting? {
          assert feed[..pos] == feed;
          return None;
        }
        if r.Failed? {
          EndedStays(Conf(), feed, pos);
          return Some(Faulted(r.fault));
        }
        k := k + 1;
      }
      EndedStays(Conf(), feed, pos);
      end := Some(Completed);
    }
  }
}
