/** The two kinds of leaf step of a sequence, as folds over the telemetry ticks they consume: holding
    a setpoint until a condition is met, and ramping a setpoint along a straight line. */
module SequenceSteps {
  import opened Prelude
  import opened AutoStop
  import Debounce

  datatype Reading = Reading(ts: int, amps: real, capacityAh: real, energyWh: real)

  // --- hold until ---

  /** The evaluator of one hold: the readings at the step's first tick, and since when the current
      has stayed below its threshold. */
  datatype Watch = Watch(base: Option<Baseline>, heldSince: Option<int>)

  const UNWATCHED := Watch(None, None)

  function Below(c: Condition, t: Reading): Debounce.Obs {
    Debounce.Obs(t.ts, t.amps < c.amps)
  }

  function Watched(w: Watch, c: Condition, t: Reading): Watch {
    var w := if w.base.None? then w.(base := Some(Baseline(t.capacityAh, t.energyWh, t.ts))) else w;
    if c.kind.CurrentBelow? then w.(heldSince := Debounce.Arm(w.heldSince, Below(c, t))) else w
  }

  /** Whether the condition holds at a tick, given the evaluator after that tick. */
  predicate Holds(w: Watch, c: Condition, t: Reading) {
    match c.kind
    case CurrentBelow => w.heldSince.Some? && t.ts - w.heldSince.value >= c.Need()
    case CapacityAbove => w.base.Some? && t.capacityAh - w.base.value.capacityAh >= c.ah
    case EnergyAbove => w.base.Some? && t.energyWh - w.base.value.energyWh >= c.wh
    case ElapsedAbove => w.base.Some? && t.ts - w.base.value.start >= Truncate(c.seconds * SECOND as real)
    case Unknown => false
  }

  class AdvanceState {
    var haveBaseline: bool
    var base: Baseline
    var holding: bool
    var heldSince: int

    ghost function View(): Watch reads this {
      Watch(if haveBaseline then Some(base) else None, if holding then Some(heldSince) else None)
    }

    constructor () ensures View() == UNWATCHED {
      haveBaseline, base, holding, heldSince := false, Baseline(0.0, 0.0, 0), false, 0;
    }

    method Observe(c: Condition, t: Reading) returns (holds: bool)
      modifies this
      ensures View() == Watched(old(View()), c, t) && holds == Holds(View(), c, t)
    {
      if !haveBaseline {
        haveBaseline, base := true, Baseline(t.capacityAh, t.energyWh, t.ts);
      }
      match c.kind
      case CurrentBelow =>
        if t.amps >= c.amps {
          holding := false;
          return false;
        }
        if !holding {
          holding, heldSince := true, t.ts;
        }
        holds := t.ts - heldSince >= c.Need();
      case CapacityAbove => holds := t.capacityAh - base.capacityAh >= c.ah;
      case EnergyAbove => holds := t.energyWh - base.energyWh >= c.wh;
      case ElapsedAbove => holds := t.ts - base.start >= Truncate(c.seconds * SECOND as real);
      case Unknown => holds := false;
    }
  }

  function WatchAfter(c: Condition, ticks: seq<Reading>): Watch {
    if ticks == [] then UNWATCHED else Watched(WatchAfter(c, ticks[..|ticks| - 1]), c, ticks[|ticks| - 1])
  }

  function BelowObs(c: Condition, ticks: seq<Reading>): (obs: seq<Debounce.Obs>)
    ensures |obs| == |ticks|
  {
    seq(|ticks|, i requires 0 <= i < |ticks| => Below(c, ticks[i]))
  }

  /** The current has been below the threshold from tick w to tick e, and was not at the tick before. */
  ghost predicate LowSince(c: Condition, ticks: seq<Reading>, w: int, e: int) {
    && 0 <= w <= e < |ticks|
    && (forall k | w <= k <= e :: ticks[k].amps < c.amps)
    && (w > 0 ==> ticks[w - 1].amps >= c.amps)
  }

  lemma WindowIsLow(c: Condition, ticks: seq<Reading>, w: int, e: int)
    ensures Debounce.Window(BelowObs(c, ticks), w, e) <==> LowSince(c, ticks, w, e)
  {
    var obs := BelowObs(c, ticks);
    assert forall k | 0 <= k < |ticks| :: obs[k].ok <==> ticks[k].amps < c.amps;
  }

  /** What a condition means at tick e of a hold: charge, energy and time count from the hold's first
      tick; the current must have stayed below without a break for the whole window. */
  ghost predicate MetAt(c: Condition, ticks: seq<Reading>, e: int) {
    0 <= e < |ticks| &&
    match c.kind
    case CurrentBelow =>
      exists w :: LowSince(c, ticks, w, e) && ticks[e].ts - ticks[w].ts >= Truncate(c.forSeconds * SECOND as real)
    case CapacityAbove => ticks[e].capacityAh - ticks[0].capacityAh >= c.ah
    case EnergyAbove => ticks[e].energyWh - ticks[0].energyWh >= c.wh
    case ElapsedAbove => ticks[e].ts - ticks[0].ts >= Truncate(c.seconds * SECOND as real)
    case Unknown => false
  }

  lemma {:induction false} WatchKeeps(c: Condition, ticks: seq<Reading>)
    ensures ticks != [] ==>
              WatchAfter(c, ticks).base == Some(Baseline(ticks[0].capacityAh, ticks[0].energyWh, ticks[0].ts))
    ensures ticks == [] ==> WatchAfter(c, ticks) == UNWATCHED
    ensures WatchAfter(c, ticks).heldSince ==
              if c.kind.CurrentBelow? then Debounce.SinceAfter(BelowObs(c, ticks)) else None
  {
    if ticks != [] {
      var before := ticks[..|ticks| - 1];
      WatchKeeps(c, before);
      assert BelowObs(c, ticks)[..|before|] == BelowObs(c, before);
    }
  }

  /** The evaluator reports a condition at exactly the ticks at which it is met. */
  lemma HoldsIffMet(c: Condition, ticks: seq<Reading>)
    requires ticks != []
    ensures Holds(WatchAfter(c, ticks), c, ticks[|ticks| - 1]) <==> MetAt(c, ticks, |ticks| - 1)
  {
    WatchKeeps(c, ticks);
    if c.kind.CurrentBelow? {
      var obs, e := BelowObs(c, ticks), |ticks| - 1;
      assert obs[..e + 1] == obs;
      Debounce.ClosesOnFullWindow(obs, e, c.Need());
      if w :| Debounce.Window(obs, w, e) && obs[e].ts - obs[w].ts >= c.Need() {
        WindowIsLow(c, ticks, w, e);
        assert ticks[e].ts - ticks[w].ts >= c.Need();
      }
      if w :| LowSince(c, ticks, w, e) && ticks[e].ts - ticks[w].ts >= c.Need() {
        WindowIsLow(c, ticks, w, e);
        assert obs[e].ts - obs[w].ts >= c.Need();
      }
    }
  }

  ghost predicate NeverMet(c: Condition, ticks: seq<Reading>) {
    forall e | 0 <= e < |ticks| :: !MetAt(c, ticks, e)
  }

  /** The last tick is the first one that meets the condition. */
  ghost predicate JustMet(c: Condition, ticks: seq<Reading>) {
    && MetAt(c, ticks, |ticks| - 1)
    && forall e | 0 <= e < |ticks| - 1 :: !MetAt(c, ticks, e)
  }

  /** Later ticks do not change what held before. */
  lemma MetIsStable(c: Condition, ticks: seq<Reading>, t: Reading, e: nat)
    requires e < |ticks|
    ensures MetAt(c, ticks + [t], e) <==> MetAt(c, ticks, e)
  {
    var ticks' := ticks + [t];
    assert forall k | 0 <= k <= e :: ticks'[k] == ticks[k];
    if w :| LowSince(c, ticks, w, e) && ticks[e].ts - ticks[w].ts >= c.Need() {
      assert LowSince(c, ticks', w, e) && ticks'[e].ts - ticks'[w].ts >= c.Need();
    }
    if w :| LowSince(c, ticks', w, e) && ticks'[e].ts - ticks'[w].ts >= c.Need() {
      assert LowSince(c, ticks, w, e) && ticks[e].ts - ticks[w].ts >= c.Need();
    }
  }

  /** One observation: the evaluator reports the first tick that meets the condition, and only that. */
  lemma ObservesFirst(c: Condition, ticks: seq<Reading>, t: Reading)
    requires NeverMet(c, ticks)
    ensures WatchAfter(c, ticks + [t]) == Watched(WatchAfter(c, ticks), c, t)
    ensures if Holds(WatchAfter(c, ticks + [t]), c, t) then JustMet(c, ticks + [t]) else NeverMet(c, ticks + [t])
  {
    assert (ticks + [t])[..|ticks|] == ticks;
    HoldsIffMet(c, ticks + [t]);
    forall e: nat | e < |ticks| ensures !MetAt(c, ticks + [t], e) {
      MetIsStable(c, ticks, t, e);
    }
  }

  // --- ramp ---

  const RAMP_MIN_INTERVAL: int := 100_000_000

  datatype Line = Line(from: real, to: real, dur: int)
  datatype Write = Write(ts: int, value: real)
  datatype Ramping = Ramping(start: Option<int>, writes: seq<Write>, done: bool)

  const UNRAMPED := Ramping(None, [], false)

  function Fraction(line: Line, elapsed: int): real {
    if line.dur <= 0 then 1.0
    else if elapsed < 0 then 0.0
    else if elapsed >= line.dur then 1.0
    else elapsed as real / line.dur as real
  }

  function Scaled(k: real, frac: real): real {
    k * frac
  }

  function Along(line: Line, frac: real): real {
    line.from + Scaled(line.to - line.from, frac)
  }

  predicate Arrived(line: Line, elapsed: int) {
    line.dur <= 0 || elapsed >= line.dur
  }

  function RampStep(line: Line, r: Ramping, t: Reading): Ramping {
    if r.done then r
    else
      var start := if r.start.Some? then r.start.value else t.ts;
      var done := Arrived(line, t.ts - start);
      if !done && r.writes != [] && t.ts - r.writes[|r.writes| - 1].ts < RAMP_MIN_INTERVAL then r.(start := Some(start))
      else Ramping(Some(start), r.writes + [Write(t.ts, Along(line, Fraction(line, t.ts - start)))], done)
  }

  function RampAfter(line: Line, ticks: seq<Reading>): Ramping {
    if ticks == [] then UNRAMPED else RampStep(line, RampAfter(line, ticks[..|ticks| - 1]), ticks[|ticks| - 1])
  }

  lemma RatioOrder(a: int, b: int, d: int)
    requires d > 0
    ensures a <= b <==> a as real / d as real <= b as real / d as real
    ensures 0 <= a <==> 0.0 <= a as real / d as real
    ensures a < d <==> a as real / d as real < 1.0
  {
    var x, y, e := a as real, b as real, d as real;
    DivideOrder(y, x, e);
    DivideOrder(x, 0.0, e);
    DivideOrder(x, e, e);
  }

  /** The clamped fraction lies in [0, 1], never falls with time, and is 1 exactly on arrival. */
  lemma FractionShape(line: Line, a: int, b: int)
    ensures 0.0 <= Fraction(line, a) <= 1.0
    ensures a <= b ==> Fraction(line, a) <= Fraction(line, b)
    ensures Fraction(line, a) == 1.0 <==> Arrived(line, a)
  {
    if line.dur > 0 {
      RatioOrder(a, b, line.dur);
      RatioOrder(b, a, line.dur);
    }
  }

  /** The value the interpreter computes before it clamps the fraction. */
  lemma ClampedFraction(line: Line, elapsed: int)
    requires line.dur > 0
    ensures var raw := elapsed as real / line.dur as real;
            && (raw >= 1.0 <==> Arrived(line, elapsed))
            && Fraction(line, elapsed) == (if raw < 0.0 then 0.0 else if raw >= 1.0 then 1.0 else raw)
  {
    RatioOrder(elapsed, 0, line.dur);
  }

  lemma ScaledByOrder(k: real, f: real, g: real)
    requires f <= g && k >= 0.0
    ensures Scaled(k, f) <= Scaled(k, g)
  {
    var p, q := f * k, g * k;
    assert Scaled(k, f) == p && Scaled(k, g) == q;
    if k > 0.0 { ScaleOrder(g, f, k); }
  }

  lemma ScaledUp(k: real, f: real, g: real)
    requires 0.0 <= f <= g <= 1.0 && k >= 0.0
    ensures 0.0 <= Scaled(k, f) <= Scaled(k, g) <= k
  {
    ScaledByOrder(k, 0.0, f);
    ScaledByOrder(k, f, g);
    ScaledByOrder(k, g, 1.0);
  }

  lemma ScaledNegates(k: real, f: real)
    ensures Scaled(-k, f) == -Scaled(k, f)
  {
  }

  lemma ScaledOrder(k: real, f: real, g: real)
    requires 0.0 <= f <= g <= 1.0
    ensures k >= 0.0 ==> 0.0 <= Scaled(k, f) <= Scaled(k, g) <= k
    ensures k <= 0.0 ==> k <= Scaled(k, g) <= Scaled(k, f) <= 0.0
  {
    if k >= 0.0 { ScaledUp(k, f, g); }
    if k <= 0.0 {
      ScaledUp(-k, f, g);
      ScaledNegates(k, f);
      ScaledNegates(k, g);
    }
  }

  predicate Between(x: real, a: real, b: real) {
    (a <= x <= b) || (b <= x <= a)
  }

  /** Every value lies between the endpoints, and later fractions lie nearer the target. */
  lemma AlongIsMonotone(line: Line, f: real, g: real)
    requires 0.0 <= f <= g <= 1.0
    ensures Between(Along(line, f), line.from, line.to)
    ensures Between(Along(line, g), Along(line, f), line.to)
  {
    ScaledOrder(line.to - line.from, f, g);
  }

  /** All that a ramp has written: points of the line at the elapsed time of their tick, at least the
      minimum interval apart unless final. */
  ghost predicate OnLine(line: Line, start: int, writes: seq<Write>, done: bool) {
    && (forall i | 0 <= i < |writes| :: writes[i].value == Along(line, Fraction(line, writes[i].ts - start)))
    && (forall i | 0 < i < |writes| && (i < |writes| - 1 || !done) ::
          writes[i].ts - writes[i - 1].ts >= RAMP_MIN_INTERVAL)
  }

  /** Only the last write of a finished ramp is at a tick that arrived. */
  ghost predicate LastArrives(line: Line, start: int, writes: seq<Write>, done: bool) {
    && (done ==> writes != [])
    && (forall i | 0 <= i < |writes| :: Arrived(line, writes[i].ts - start) <==> done && i == |writes| - 1)
  }

  lemma WriteFollows(line: Line, start: int, writes: seq<Write>, w: Write, done: bool)
    requires OnLine(line, start, writes, false) && LastArrives(line, start, writes, false)
    requires w.value == Along(line, Fraction(line, w.ts - start)) && (done <==> Arrived(line, w.ts - start))
    requires done || writes == [] || w.ts - writes[|writes| - 1].ts >= RAMP_MIN_INTERVAL
    ensures OnLine(line, start, writes + [w], done) && LastArrives(line, start, writes + [w], done)
  {
    var writes' := writes + [w];
    forall i | 0 <= i < |writes'|
      ensures writes'[i].value == Along(line, Fraction(line, writes'[i].ts - start))
      ensures Arrived(line, writes'[i].ts - start) <==> done && i == |writes'| - 1
    {
      assert writes'[i] == if i < |writes| then writes[i] else w;
    }
    forall i | 0 < i < |writes'| && (i < |writes'| - 1 || !done)
      ensures writes'[i].ts - writes'[i - 1].ts >= RAMP_MIN_INTERVAL
    {
      assert writes'[i - 1] == writes[i - 1] && writes'[i] == if i < |writes| then writes[i] else w;
    }
  }

  lemma RampStepFollows(line: Line, r: Ramping, t: Reading, start: int)
    requires !r.done && start == (if r.start.Some? then r.start.value else t.ts)
    requires OnLine(line, start, r.writes, false) && LastArrives(line, start, r.writes, false)
    ensures var r' := RampStep(line, r, t);
            && r'.start == Some(start) && (r'.done <==> Arrived(line, t.ts - start))
            && OnLine(line, start, r'.writes, r'.done) && LastArrives(line, start, r'.writes, r'.done)
  {
    var r' := RampStep(line, r, t);
    if |r'.writes| > |r.writes| {
      WriteFollows(line, start, r.writes, r'.writes[|r.writes|], r'.done);
    }
  }

  ghost predicate ArrivedBy(line: Line, ticks: seq<Reading>) {
    exists e :: 0 <= e < |ticks| && Arrived(line, ticks[e].ts - ticks[0].ts)
  }

  lemma ArrivesNow(line: Line, ticks: seq<Reading>)
    requires ticks != []
    ensures var before, t := ticks[..|ticks| - 1], ticks[|ticks| - 1];
            ArrivedBy(line, ticks) <==> ArrivedBy(line, before) || Arrived(line, t.ts - ticks[0].ts)
  {
    var before := ticks[..|ticks| - 1];
    if before != [] {
      assert before[0] == ticks[0];
      if e :| 0 <= e < |before| && Arrived(line, before[e].ts - before[0].ts) { assert ticks[e] == before[e]; }
      if e :| 0 <= e < |before| && Arrived(line, ticks[e].ts - ticks[0].ts) { assert ticks[e] == before[e]; }
    }
  }

  /** A ramp's writes lie on its line, start at the first tick, keep their distance, and stop with the
      first tick at or past the duration, whose write is the target value. */
  lemma {:induction false} RampFollowsLine(line: Line, ticks: seq<Reading>)
    requires ticks != []
    ensures var start, r := ticks[0].ts, RampAfter(line, ticks);
            && r.start == Some(start)
            && OnLine(line, start, r.writes, r.done) && LastArrives(line, start, r.writes, r.done)
            && (r.done <==> ArrivedBy(line, ticks))
  {
    var before, t := ticks[..|ticks| - 1], ticks[|ticks| - 1];
    ArrivesNow(line, ticks);
    var r := RampAfter(line, before);
    if before != [] { RampFollowsLine(line, before); }
    if !r.done { RampStepFollows(line, r, t, ticks[0].ts); }
  }

  /** Every value lies between the endpoints; a finished ramp ends exactly on its target. */
  lemma RampStaysBetween(line: Line, ticks: seq<Reading>)
    requires ticks != []
    ensures var r := RampAfter(line, ticks);
            && (forall w | w in r.writes :: Between(w.value, line.from, line.to))
            && (r.done ==> r.writes != [] && r.writes[|r.writes| - 1].value == line.to)
  {
    var start, r := ticks[0].ts, RampAfter(line, ticks);
    RampFollowsLine(line, ticks);
    forall w | w in r.writes ensures Between(w.value, line.from, line.to) {
      FractionShape(line, w.ts - start, w.ts - start);
      AlongIsMonotone(line, Fraction(line, w.ts - start), Fraction(line, w.ts - start));
    }
    if r.done { FractionShape(line, r.writes[|r.writes| - 1].ts - start, 0); }
  }

  lemma {:induction false} WritesAreTicks(line: Line, ticks: seq<Reading>)
    requires forall i, j | 0 <= i <= j < |ticks| :: ticks[i].ts <= ticks[j].ts
    ensures var writes := RampAfter(line, ticks).writes;
            && (forall w | w in writes :: ticks != [] && w.ts <= ticks[|ticks| - 1].ts)
            && (forall i, j | 0 <= i <= j < |writes| :: writes[i].ts <= writes[j].ts)
  {
    if ticks != [] {
      WritesAreTicks(line, ticks[..|ticks| - 1]);
    }
  }

  lemma LaterIsNearer(line: Line, a: int, b: int)
    requires a <= b
    ensures Between(Along(line, Fraction(line, b)), Along(line, Fraction(line, a)), line.to)
  {
    FractionShape(line, a, b);
    FractionShape(line, b, b);
    AlongIsMonotone(line, Fraction(line, a), Fraction(line, b));
  }

  /** If tick times never fall, each write is at least as near the target as every one before it. */
  lemma RampIsMonotone(line: Line, ticks: seq<Reading>, i: nat, j: nat)
    requires forall i, j | 0 <= i <= j < |ticks| :: ticks[i].ts <= ticks[j].ts
    requires i <= j < |RampAfter(line, ticks).writes|
    ensures var writes := RampAfter(line, ticks).writes; Between(writes[j].value, writes[i].value, line.to)
  {
    var writes := RampAfter(line, ticks).writes;
    WritesAreTicks(line, ticks);
    assert writes[i] in writes;
    var start := ticks[0].ts;
    RampFollowsLine(line, ticks);
    LaterIsNearer(line, writes[i].ts - start, writes[j].ts - start);
  }

  // --- the ramp in figures ---

  lemma Slope(k: real, e: real, d: real, q: real)
    requires q * d == e
    ensures k * q * d == k * e
  {
    assert k * q * d == k * (q * d);
  }

  /** Value v after e nanoseconds: on the straight line from `from` to `to` over the duration, before it
      `from`, after it `to`. */
  predicate OnStraight(line: Line, e: int, v: real) {
    if e <= 0 then v == line.from
    else if e >= line.dur then v == line.to
    else (v - line.from) * line.dur as real == (line.to - line.from) * e as real
  }

  lemma AlongIsStraight(line: Line, e: int)
    requires line.dur > 0
    ensures OnStraight(line, e, Along(line, Fraction(line, e)))
  {
    var k, f := line.to - line.from, Fraction(line, e);
    if 0 < e < line.dur {
      var x, d := e as real, line.dur as real;
      var q := x / d;
      assert q * d == x;
      Slope(k, x, d, q);
      assert Along(line, f) - line.from == k * q;
    } else if e == 0 {
      RatioOrder(0, 0, line.dur);
      assert f == 0.0;
    }
  }

  /** Every write lies on the straight line at its time since the first tick. */
  lemma RampIsStraight(line: Line, ticks: seq<Reading>, i: nat)
    requires ticks != [] && line.dur > 0 && i < |RampAfter(line, ticks).writes|
    ensures var w := RampAfter(line, ticks).writes[i]; OnStraight(line, w.ts - ticks[0].ts, w.value)
  {
    RampFollowsLine(line, ticks);
    AlongIsStraight(line, RampAfter(line, ticks).writes[i].ts - ticks[0].ts);
  }

  /** A tick k without a write comes less than the minimum interval after the last write before it, which is
      write i, and before the end of the duration. */
  predicate Waits(line: Line, ticks: seq<Reading>, at: seq<nat>, k: nat, i: nat) {
    && i < |at| && at[i] < k < |ticks| && (i + 1 < |at| ==> k < at[i + 1])
    && ticks[k].ts - ticks[at[i]].ts < 100_000_000 && 0 < line.dur && ticks[k].ts - ticks[0].ts < line.dur
  }

  ghost predicate NotDue(line: Line, ticks: seq<Reading>, at: seq<nat>, k: nat) {
    exists i: nat :: Waits(line, ticks, at, k, i)
  }

  /** The writes are made at the ticks `at`: at the first one, and at every later one that is due. */
  ghost predicate WrittenAt(line: Line, ticks: seq<Reading>, r: Ramping, at: seq<nat>) {
    && |at| == |r.writes| && (ticks != [] ==> at != [] && at[0] == 0)
    && (forall i | 0 <= i < |at| :: at[i] < |ticks| && r.writes[i].ts == ticks[at[i]].ts)
    && (forall i, j | 0 <= i < j < |at| :: at[i] < at[j])
    && (forall k: nat | k < |ticks| && k !in at && (r.done ==> k < at[|at| - 1]) :: NotDue(line, ticks, at, k))
  }

  lemma NotDueLater(line: Line, ticks: seq<Reading>, at: seq<nat>, k: nat, t: Reading, more: seq<nat>)
    requires NotDue(line, ticks, at, k) && (more == [] || more == [|ticks|])
    ensures NotDue(line, ticks + [t], at + more, k)
  {
    var i: nat :| Waits(line, ticks, at, k, i);
    var at', ticks' := at + more, ticks + [t];
    assert at'[i] == at[i] && ticks'[k] == ticks[k] && ticks'[at[i]] == ticks[at[i]] && ticks'[0] == ticks[0];
    assert i + 1 < |at'| ==> k < at'[i + 1];
    assert Waits(line, ticks', at', k, i);
  }

  lemma {:induction false} RampWritesWhenDue(line: Line, ticks: seq<Reading>) returns (at: seq<nat>)
    ensures WrittenAt(line, ticks, RampAfter(line, ticks), at)
  {
    at := [];
    if ticks != [] {
      var n := |ticks| - 1;
      var before := ticks[..n];
      var r := RampAfter(line, before);
      at := RampWritesWhenDue(line, before);
      if before != [] { RampFollowsLine(line, before); }
      at := WriteNext(line, before, ticks[n], r, at);
      assert before + [ticks[n]] == ticks;
    }
  }

  lemma WriteNext(line: Line, ticks: seq<Reading>, t: Reading, r: Ramping, at: seq<nat>) returns (at': seq<nat>)
    requires WrittenAt(line, ticks, r, at) && (r.done ==> at != [])
    requires if ticks == [] then r == UNRAMPED else r.start == Some(ticks[0].ts)
    ensures WrittenAt(line, ticks + [t], RampStep(line, r, t), at')
  {
    var r' := RampStep(line, r, t);
    if |r'.writes| > |r.writes| {
      at' := at + [|ticks|];
      DueIsWritten(line, ticks, t, r, at);
    } else {
      at' := at;
      NotDueIsLeft(line, ticks, t, r, at);
    }
  }

  lemma DueIsWritten(line: Line, ticks: seq<Reading>, t: Reading, r: Ramping, at: seq<nat>)
    requires WrittenAt(line, ticks, r, at) && |RampStep(line, r, t).writes| > |r.writes|
    requires ticks == [] ==> r == UNRAMPED
    ensures WrittenAt(line, ticks + [t], RampStep(line, r, t), at + [|ticks|])
  {
    var n, at', r' := |ticks|, at + [|ticks|], RampStep(line, r, t);
    assert forall i | 0 <= i < |at| :: at'[i] == at[i] && (ticks + [t])[at[i]] == ticks[at[i]];
    forall k: nat | k < n + 1 && k !in at' && (r'.done ==> k < n) ensures NotDue(line, ticks + [t], at', k) {
      assert at'[|at|] == n && k != n && k !in at;
      assert NotDue(line, ticks, at, k);
      NotDueLater(line, ticks, at, k, t, [n]);
    }
  }

  lemma NotDueIsLeft(line: Line, ticks: seq<Reading>, t: Reading, r: Ramping, at: seq<nat>)
    requires WrittenAt(line, ticks, r, at) && RampStep(line, r, t).writes == r.writes && at != [] && ticks != []
    requires r.start == Some(ticks[0].ts)
    ensures WrittenAt(line, ticks + [t], RampStep(line, r, t), at)
  {
    var n, r' := |ticks|, RampStep(line, r, t);
    assert forall i | 0 <= i < |at| :: (ticks + [t])[at[i]] == ticks[at[i]];
    forall k: nat | k < n + 1 && k !in at && (r'.done ==> k < at[|at| - 1]) ensures NotDue(line, ticks + [t], at, k) {
      if k < n {
        assert NotDue(line, ticks, at, k);
        assert at + [] == at;
        NotDueLater(line, ticks, at, k, t, []);
      } else {
        assert Waits(line, ticks + [t], at, k, |at| - 1);
      }
    }
  }
}
