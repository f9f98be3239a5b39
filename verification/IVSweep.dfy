/** An I-V sweep: compiling the request, the list of setpoints, and sampling one settled point per
    setpoint off the telemetry stream. */
module IVSweep {
  import opened Prelude

  // --- compile ---

  datatype Mode = Voltage | Current | OtherMode

  datatype Request = Request(knownComponent: bool, mode: Mode, vStart: real, vStop: real, iStart: real, iStop: real,
                             steps: int, dwellMs: int, complianceA: real, complianceV: real)

  datatype Protections = Protections(ovp: real, ocp: real, opp: real, otp: real)

  datatype Plan = Plan(request: Request, setpoints: seq<real>, protections: Protections, dwell: int, sweepTimeout: int)

  datatype Refusal =
    UnknownComponent | UnknownMode | StepsOutside | DwellTooShort | BadRange | BadCompliance | TooMuchPower

  datatype Compiled = Accepted(plan: Plan) | Refused(why: Refusal)

  const MILLISECOND: int := 1_000_000
  const SWEEP_TIMEOUT_FLOOR: int := 30 * SECOND
  const MAX_VOLTAGE := 30.0
  const MAX_CURRENT := 5.0
  const MAX_POWER := 150.0

  /** Setpoint i of a ramp from start to stop in the given number of steps. */
  function Setpoint(start: real, stop: real, steps: int, i: int): real
    requires steps >= 2
  {
    start + (stop - start) * i as real / (steps - 1) as real
  }

  function Setpoints(start: real, stop: real, steps: int): (s: seq<real>)
    requires steps >= 2
    ensures |s| == steps
  {
    seq(steps, i requires 0 <= i < steps => Setpoint(start, stop, steps, i))
  }

  function Dwell(req: Request): int {
    req.dwellMs * MILLISECOND
  }

  function SweepTimeout(steps: int, dwell: int): int {
    Truncate(steps as real * 3.0 * dwell as real) + SWEEP_TIMEOUT_FLOOR
  }

  function ProtectionsFor(volts: real, amps: real): Protections {
    var ovp, ocp := Min(volts * 1.1, MAX_VOLTAGE), Min(amps * 1.5, MAX_CURRENT);
    Protections(ovp, ocp, Min(ovp * ocp, MAX_POWER), 60.0)
  }

  function Build(req: Request, start: real, stop: real, volts: real, amps: real): Compiled
    requires req.steps >= 2
  {
    Accepted(Plan(req, Setpoints(start, stop, req.steps), ProtectionsFor(volts, amps),
                  Dwell(req), SweepTimeout(req.steps, Dwell(req))))
  }

  function Compile(req: Request): Compiled {
    if !req.knownComponent then Refused(UnknownComponent)
    else if req.mode.OtherMode? then Refused(UnknownMode)
    else if req.steps < 2 || req.steps > 1000 then Refused(StepsOutside)
    else if req.dwellMs < 200 then Refused(DwellTooShort)
    else match req.mode
      case Voltage =>
        if !(req.vStart >= 0.0 && req.vStart < req.vStop && req.vStop <= MAX_VOLTAGE) then Refused(BadRange)
        else if !(req.complianceA > 0.0 && req.complianceA <= MAX_CURRENT) then Refused(BadCompliance)
        else if req.vStop * req.complianceA > MAX_POWER then Refused(TooMuchPower)
        else Build(req, req.vStart, req.vStop, req.vStop, req.complianceA)
      case Current =>
        if !(req.iStart >= 0.0 && req.iStart < req.iStop && req.iStop <= MAX_CURRENT) then Refused(BadRange)
        else if !(req.complianceV > 0.0 && req.complianceV <= MAX_VOLTAGE) then Refused(BadCompliance)
        else if req.complianceV * req.iStop > MAX_POWER then Refused(TooMuchPower)
        else Build(req, req.iStart, req.iStop, req.complianceV, req.iStop)
      case OtherMode => Refused(UnknownMode)
  }

  /** The largest voltage and current of the sweep: the bound of the stepped axis and the compliance of
      the other. */
  function Corner(req: Request): (real, real) {
    if req.mode.Voltage? then (req.vStop, req.complianceA) else (req.complianceV, req.iStop)
  }

  predicate Sweepable(req: Request) {
    var (volts, amps) := Corner(req);
    && req.knownComponent && !req.mode.OtherMode?
    && 2 <= req.steps <= 1000 && req.dwellMs >= 200
    && 0.0 < volts <= 30.0 && 0.0 < amps <= 5.0
    && (if req.mode.Voltage? then 0.0 <= req.vStart < req.vStop else 0.0 <= req.iStart < req.iStop)
  }

  lemma ProductFits(volts: real, amps: real, v: real, a: real)
    requires 0.0 <= volts <= v && 0.0 <= amps <= a
    ensures 0.0 <= volts * amps <= v * a
  {
    var p, q, r := volts * amps, v * amps, v * a;
    ScaleAtMost(volts, v, amps);
    ScaleAtMost(amps, a, v);
    ScaleAtMost(0.0, volts, amps);
    assert amps * v == q && a * v == r;
  }

  lemma ScaleAtMost(a: real, b: real, k: real)
    requires a <= b && 0.0 <= k
    ensures a * k <= b * k
  {
    if k > 0.0 { ScaleOrder(b, a, k); }
  }

  /** A sweep is accepted exactly when its corner lies in the device's voltage and current range; the
      power check never decides. */
  lemma AcceptedIffSweepable(req: Request)
    ensures Compile(req).Accepted? <==> Sweepable(req)
    ensures Compile(req) != Refused(TooMuchPower)
  {
    var (volts, amps) := Corner(req);
    if 0.0 <= volts <= 30.0 && 0.0 <= amps <= 5.0 { ProductFits(volts, amps, 30.0, 5.0); }
  }

  /** The protections lie at or above the corner of the sweep and inside the device. */
  lemma ProtectionsCover(volts: real, amps: real)
    requires 0.0 < volts <= MAX_VOLTAGE && 0.0 < amps <= MAX_CURRENT
    ensures var p := ProtectionsFor(volts, amps);
            && volts <= p.ovp <= MAX_VOLTAGE && amps <= p.ocp <= MAX_CURRENT
            && volts * amps <= p.opp <= MAX_POWER
  {
    var p := ProtectionsFor(volts, amps);
    ProductFits(volts, amps, p.ovp, p.ocp);
    ProductFits(volts, amps, 30.0, 5.0);
  }

  // --- the setpoints ---

  lemma SetpointOrder(start: real, stop: real, steps: int, i: int, j: int)
    requires steps >= 2 && start < stop
    ensures i < j <==> Setpoint(start, stop, steps, i) < Setpoint(start, stop, steps, j)
  {
    var span, d := stop - start, (steps - 1) as real;
    ScaleOrder(i as real, j as real, span);
    var x, y := span * i as real, span * j as real;
    assert x == i as real * span && y == j as real * span;
    DivideOrder(x, y, d);
  }

  lemma Endpoints(start: real, stop: real, steps: int)
    requires steps >= 2
    ensures Setpoint(start, stop, steps, 0) == start && Setpoint(start, stop, steps, steps - 1) == stop
  {
    var span, d := stop - start, (steps - 1) as real;
    assert span * 0.0 == 0.0 && span * d / d == span;
  }

  /** The setpoints rise strictly from start to stop. */
  lemma SetpointsRise(start: real, stop: real, steps: int)
    requires steps >= 2 && start < stop
    ensures var s := Setpoints(start, stop, steps);
            && s[0] == start && s[steps - 1] == stop
            && (forall i, j | 0 <= i < j < steps :: s[i] < s[j])
            && (forall i | 0 <= i < steps :: start <= s[i] <= stop)
  {
    var s := Setpoints(start, stop, steps);
    Endpoints(start, stop, steps);
    forall i, j | 0 <= i < j < steps ensures s[i] < s[j] { SetpointOrder(start, stop, steps, i, j); }
  }

  method BuildSetpoints(start: real, stop: real, steps: int) returns (pts: array<real>)
    requires steps >= 2
    ensures fresh(pts) && pts[..] == Setpoints(start, stop, steps)
  {
    pts := new real[steps];
    var span := stop - start;
    for i := 0 to steps
      invariant forall k | 0 <= k < i :: pts[k] == Setpoint(start, stop, steps, k)
    {
      pts[i] := start + span * i as real / (steps - 1) as real;
    }
  }

  /** Every setpoint of an accepted sweep lies inside the device, below the protections, and so does the
      power at the compliance of the other axis. */
  lemma AcceptedSweepIsSafe(req: Request, plan: Plan)
    requires Compile(req) == Accepted(plan)
    ensures |plan.setpoints| == req.steps
    ensures forall i, j | 0 <= i < j < req.steps :: plan.setpoints[i] < plan.setpoints[j]
    ensures forall i | 0 <= i < req.steps ::
              && 0.0 <= plan.setpoints[i]
              && (if req.mode.Voltage? then plan.setpoints[i] <= req.vStop <= plan.protections.ovp <= MAX_VOLTAGE
                  else plan.setpoints[i] <= req.iStop <= plan.protections.ocp <= MAX_CURRENT)
    ensures var (volts, amps) := Corner(req); volts * amps <= plan.protections.opp <= MAX_POWER
  {
    var (volts, amps) := Corner(req);
    ProtectionsCover(volts, amps);
    if req.mode.Voltage? {
      SetpointsRise(req.vStart, req.vStop, req.steps);
    } else {
      SetpointsRise(req.iStart, req.iStop, req.steps);
    }
  }

  // --- sampling ---

  datatype Tick = Tick(ts: int, volts: real, amps: real)
  datatype Point = Point(v: real, i: real)

  /** What a wait for a tick can bring; a feed that has run out leaves the sweep pending. */
  datatype Input = Telemetry(tick: Tick) | Trip | Silence | Cancel

  datatype Outcome = Done | Pending | Offline | Timeout | Protection | Stale | Aborted

  function TimeAt(feed: seq<Input>, k: int): int {
    if 0 <= k < |feed| && feed[k].Telemetry? then feed[k].tick.ts else 0
  }

  /** The first n inputs are ticks, none later than the timeout after the first. */
  ghost predicate Ticking(feed: seq<Input>, n: nat, timeout: int) {
    && n <= |feed|
    && forall k | 0 <= k < n :: feed[k].Telemetry? && TimeAt(feed, k) - TimeAt(feed, 0) <= timeout
  }

  /** Tick `at` is the first one at least a dwell after tick `ref`. */
  ghost predicate Settles(feed: seq<Input>, ref: nat, at: nat, dwell: int) {
    && ref < at < |feed| && feed[ref].Telemetry? && feed[at].Telemetry?
    && TimeAt(feed, at) - TimeAt(feed, ref) >= dwell
    && Unsettled(feed, ref, at, dwell)
  }

  ghost predicate Unsettled(feed: seq<Input>, ref: nat, at: nat, dwell: int) {
    forall k | ref < k < at :: TimeAt(feed, k) - TimeAt(feed, ref) < dwell
  }

  /** The tick that the next sample waits a dwell from: the first tick of all, or the sample before. */
  function Reference(taken: seq<nat>): nat {
    if taken == [] then 0 else taken[|taken| - 1]
  }

  /** Every sample is the measured point of the first settled tick after the one before. */
  ghost predicate Sampled(feed: seq<Input>, taken: seq<nat>, points: seq<Point>, dwell: int) {
    |points| == |taken| &&
    (taken == [] ||
     var n := |taken| - 1;
     && Sampled(feed, taken[..n], points[..n], dwell)
     && Settles(feed, Reference(taken[..n]), taken[n], dwell)
     && points[n].v == feed[taken[n]].tick.volts && points[n].i == feed[taken[n]].tick.amps)
  }

  lemma OneMoreSample(feed: seq<Input>, taken: seq<nat>, points: seq<Point>, dwell: int, at: nat, p: Point)
    requires Sampled(feed, taken, points, dwell) && Settles(feed, Reference(taken), at, dwell)
    requires p.v == feed[at].tick.volts && p.i == feed[at].tick.amps
    ensures Sampled(feed, taken + [at], points + [p], dwell)
  {
    assert (taken + [at])[..|taken|] == taken && (points + [p])[..|points|] == points;
  }

  class Sweeper {
    const plan: Plan
    const feed: seq<Input>
    const failing: set<nat>
    var pos: nat
    var haveTS: bool
    var firstTS: int
    var lastTS: int
    var points: seq<Point>
    var written: seq<real>
    ghost var taken: seq<nat>

    /** The record is sound, whatever happened. */
    ghost predicate Sound() reads this {
      Sampled(feed, taken, points, plan.dwell)
    }

    /** Between two steps: only ticks so far, and the last of them was the last sample. */
    ghost predicate Ready() reads this {
      && Sound() && Watching()
      && (if taken == [] then pos == 0 else pos == Reference(taken) + 1)
    }

    ghost predicate Watching() reads this {
      && Ticking(feed, pos, plan.sweepTimeout)
      && (haveTS <==> pos > 0)
      && (haveTS ==> firstTS == TimeAt(feed, 0) && lastTS == TimeAt(feed, pos - 1))
    }

    /** What ended the sweep is the input taken last, or a write that failed, or the end of the feed. */
    ghost predicate EndedBy(o: Outcome) reads this {
      match o
      case Done => true
      case Pending => pos == |feed|
      case Offline => |written| in failing
      case Timeout => 0 < pos <= |feed| && TimeAt(feed, pos - 1) - TimeAt(feed, 0) > plan.sweepTimeout
      case Protection => 0 < pos <= |feed| && feed[pos - 1].Trip?
      case Stale => 0 < pos <= |feed| && feed[pos - 1].Silence?
      case Aborted => 0 < pos <= |feed| && feed[pos - 1].Cancel?
    }

    constructor (plan: Plan, feed: seq<Input>, failing: set<nat>)
      ensures Ready() && written == [] && points == []
      ensures this.plan == plan && this.feed == feed && this.failing == failing
    {
      this.plan, this.feed, this.failing := plan, feed, failing;
      pos, haveTS, firstTS, lastTS, points, written, taken := 0, false, 0, 0, [], [], [];
    }

    /** Takes one tick within the timeout; any other outcome ends the sweep. */
    method NextTick() returns (o: Outcome, t: Tick)
      requires Watching()
      modifies this`pos, this`haveTS, this`firstTS, this`lastTS
      ensures o.Done? ==> Watching() && pos == old(pos) + 1 <= |feed| && feed[pos - 1] == Telemetry(t)
      ensures !o.Offline? && EndedBy(o)
    {
      t := Tick(0, 0.0, 0.0);
      if pos == |feed| { return Pending, t; }
      var input := feed[pos];
      pos := pos + 1;
      match input
      case Trip => o := Protection;
      case Silence => o := Stale;
      case Cancel => o := Aborted;
      case Telemetry(tick) =>
        t := tick;
        if !haveTS { firstTS := t.ts; }
        lastTS, haveTS := t.ts, true;
        o := if t.ts - firstTS > plan.sweepTimeout then Timeout else Done;
    }

    method SampleStep(setpoint: real) returns (o: Outcome, t: Tick)
      requires Ready() && plan.dwell > 0
      modifies this`pos, this`haveTS, this`firstTS, this`lastTS, this`written
      ensures written == old(written) + if o.Offline? then [] else [setpoint]
      ensures EndedBy(o)
      ensures o.Done? ==> && Watching() && 0 < pos <= |feed| && feed[pos - 1] == Telemetry(t)
                          && Settles(feed, Reference(taken), pos - 1, plan.dwell)
    {
      t := Tick(0, 0.0, 0.0);
      if |written| in failing { return Offline, t; }
      written := written + [setpoint];
      o, t := Settle();
    }

    method Settle() returns (o: Outcome, t: Tick)
      requires Ready() && plan.dwell > 0
      modifies this`pos, this`haveTS, this`firstTS, this`lastTS
      ensures !o.Offline? && EndedBy(o)
      ensures o.Done? ==> && Watching() && 0 < pos <= |feed| && feed[pos - 1] == Telemetry(t)
                          && Settles(feed, Reference(taken), pos - 1, plan.dwell)
    {
      var writeTS, haveRef := lastTS, haveTS;
      ghost var ref := Reference(taken);
      while true
        invariant Watching()
        invariant haveRef ==> ref < pos && writeTS == TimeAt(feed, ref)
        invariant !haveRef ==> pos == 0 && ref == 0
        invariant Unsettled(feed, ref, pos, plan.dwell)
        decreases |feed| - pos
      {
        o, t := NextTick();
        if !o.Done? { return; }
        if !haveRef {
          writeTS, haveRef := t.ts, true;
        } else if t.ts - writeTS >= plan.dwell {
          return;
        }
      }
    }

    method RecordPoint(t: Tick)
      requires Sound() && Watching() && 0 < pos <= |feed| && feed[pos - 1] == Telemetry(t)
      requires Settles(feed, Reference(taken), pos - 1, plan.dwell)
      modifies this`points, this`taken
      ensures Ready() && points == old(points) + [Point(t.volts, t.amps)] && |taken| == |old(taken)| + 1
    {
      OneMoreSample(feed, taken, points, plan.dwell, pos - 1, Point(t.volts, t.amps));
      points := points + [Point(t.volts, t.amps)];
      taken := taken + [pos - 1];
    }

    /** Steps through the setpoints. A completed sweep has one settled sample for each; a sweep that ends
        early keeps the samples taken so far and has written at most one setpoint more. */
    method Drive() returns (o: Outcome)
      requires Ready() && written == [] && points == [] && plan.dwell > 0
      modifies this
      ensures Sound() && written <= plan.setpoints && EndedBy(o)
      ensures o.Done? ==> |points| == |plan.setpoints| && written == plan.setpoints && Ready()
      ensures !o.Done? ==> |points| < |plan.setpoints|
                           && |written| == |points| + (if o.Offline? then 0 else 1)
    {
      for i := 0 to |plan.setpoints|
        invariant Ready() && |points| == i && written == plan.setpoints[..i]
      {
        var t;
        assert plan.setpoints[..i] + [plan.setpoints[i]] == plan.setpoints[..i + 1];
        o, t := SampleStep(plan.setpoints[i]);
        if !o.Done? { return; }
        RecordPoint(t);
      }
      o := Done;
    }
  }

  // --- how long a sweep takes ---

  lemma {:induction false} EachSampleTakesADwell(feed: seq<Input>, taken: seq<nat>, points: seq<Point>, dwell: int)
    requires Sampled(feed, taken, points, dwell) && taken != []
    ensures TimeAt(feed, Reference(taken)) - TimeAt(feed, 0) >= |taken| * dwell
    decreases |taken|
  {
    var n := |taken| - 1;
    assert |taken| * dwell == n * dwell + dwell;
    if n > 0 { EachSampleTakesADwell(feed, taken[..n], points[..n], dwell); }
  }

  /** The timeout is three ideal sweep times and half a minute. */
  lemma TimeoutIsGenerous(steps: int, dwell: int)
    requires steps >= 0 && dwell >= 0
    ensures SweepTimeout(steps, dwell) == 3 * (steps * dwell) + SWEEP_TIMEOUT_FLOOR
    ensures SweepTimeout(steps, dwell) > steps * dwell
  {
    var n := 3 * (steps * dwell);
    assert steps as real * 3.0 * dwell as real == n as real by {
      assert (steps * dwell) as real == steps as real * dwell as real;
    }
    assert steps * dwell >= 0;
  }

  /** A completed sweep has exactly the requested number of points and lasts at least one dwell for
      each of them, and at most the sweep timeout. */
  lemma CompletedSweepSpan(req: Request, plan: Plan, feed: seq<Input>, taken: seq<nat>, points: seq<Point>)
    requires Compile(req) == Accepted(plan)
    requires Sampled(feed, taken, points, plan.dwell) && |points| == |plan.setpoints|
    requires Ticking(feed, Reference(taken) + 1, plan.sweepTimeout)
    ensures |points| == req.steps >= 2 && plan.dwell >= 200 * MILLISECOND
    ensures var span := TimeAt(feed, Reference(taken)) - TimeAt(feed, 0);
            req.steps * plan.dwell <= span <= 3 * (req.steps * plan.dwell) + SWEEP_TIMEOUT_FLOOR
  {
    EachSampleTakesADwell(feed, taken, points, plan.dwell);
    TimeoutIsGenerous(req.steps, plan.dwell);
  }

  // --- the plan in figures ---

  predicate Capped(p: real, factor: real, x: real, most: real) {
    p == if factor * x <= most then factor * x else most
  }

  predicate Even(s: seq<real>, start: real, stop: real, i: nat)
    requires i < |s|
  {
    s[i] * (|s| - 1) as real == start * (|s| - 1) as real + (stop - start) * i as real
  }

  lemma SetpointIsEven(start: real, stop: real, steps: int, i: nat)
    requires steps >= 2 && i < steps
    ensures Even(Setpoints(start, stop, steps), start, stop, i)
  {
    var d, x := (steps - 1) as real, (stop - start) * i as real;
    var q := x / d;
    assert q * d == x;
    assert (start + q) * d == start * d + q * d;
    assert Setpoints(start, stop, steps)[i] == start + q;
  }

  /** The setpoints are spaced evenly between the ends asked for, each is held for the dwell asked for, and
      the protections lie a tenth above the voltage and half above the current, as far as the device goes. */
  lemma PlanInFigures(req: Request, plan: Plan)
    requires Compile(req) == Accepted(plan)
    ensures var (start, stop) := if req.mode.Voltage? then (req.vStart, req.vStop) else (req.iStart, req.iStop);
            |plan.setpoints| == req.steps && forall i: nat | i < req.steps :: Even(plan.setpoints, start, stop, i)
    ensures plan.dwell == req.dwellMs * 1_000_000
    ensures plan.sweepTimeout == 3 * (req.steps * plan.dwell) + 30 * 1_000_000_000
    ensures var (volts, amps) := if req.mode.Voltage? then (req.vStop, req.complianceA)
                                 else (req.complianceV, req.iStop);
            var p := plan.protections;
            Capped(p.ovp, 1.1, volts, 30.0) && Capped(p.ocp, 1.5, amps, 5.0)
            && Capped(p.opp, p.ovp, p.ocp, 150.0) && p.otp == 60.0
  {
    var (start, stop) := if req.mode.Voltage? then (req.vStart, req.vStop) else (req.iStart, req.iStop);
    forall i: nat | i < req.steps ensures Even(plan.setpoints, start, stop, i) {
      SetpointIsEven(start, stop, req.steps, i);
    }
    TimeoutIsGenerous(req.steps, plan.dwell);
  }
}
