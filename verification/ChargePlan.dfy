/** Compiling a charge request into phases and limits, and the pre-flight check of the measured
    pack voltage. */
module ChargePlan {
  import opened Prelude

  datatype Chemistry = LiIon | LiFePO4 | Pb | Unsupported(name: string)

  /** Electrical constants: voltages per cell, rates as fractions of the rated capacity. */
  datatype Preset = Preset(
    vCharge: real, vCeiling: real, vOVP: real, vFloat: real,
    vPrecharge: real, prechargeC: real, taperC: real,
    vNominal: real, vAbsMin: real, vMaxRest: real,
    capCapFraction: real, maxChargeC: real, timeoutFactor: real)

  const DEVICE_MAX_VOLTAGE := 30.0
  const DEVICE_MAX_CURRENT := 5.0
  const DEVICE_MAX_POWER := 150.0
  const OTP_CELSIUS := 60.0
  const NO_BATTERY_VOLTS := 0.3
  const PRECHARGE_TIMEOUT := HOUR
  const RATE_SLACK := 0.000000001

  function PresetFor(chem: Chemistry): Option<Preset> {
    match chem
    case LiIon => Some(Preset(4.20, 4.25, 4.30, 0.0, 3.0, 0.1, 0.05, 3.7, 2.0, 4.25, 1.15, 1.0, 1.5))
    case LiFePO4 => Some(Preset(3.65, 3.70, 3.80, 0.0, 2.5, 0.1, 0.05, 3.2, 2.0, 3.70, 1.15, 1.0, 1.5))
    case Pb => Some(Preset(2.40, 2.50, 2.55, 2.25, 0.0, 0.0, 0.05, 2.0, 1.6, 2.55, 1.25, 0.3, 2.0))
    case Unsupported(_) => None
  }

  datatype Request = Request(chemistry: Chemistry, cells: int, capacityMah: real, chargeA: real, bmsAttested: bool)
  {
    function CapA(): real { capacityMah / 1000.0 }
    predicate Lithium() { chemistry.LiIon? || chemistry.LiFePO4? }
  }

  datatype PhaseKind = Precharge | Main | Float

  datatype Phase = Phase(kind: PhaseKind, volts: real, amps: real, taperAmps: real, untilVolts: real,
                         holdToStop: bool, timeout: int)

  datatype Limits = Limits(ceilingVolts: real, capCapMah: real, timeout: int,
                           ovpVolts: real, ocpAmps: real, oppWatts: real, otpCelsius: real)

  datatype Plan = Plan(request: Request, preset: Preset, phases: seq<Phase>, limits: Limits)

  datatype Refusal = UnsupportedChemistry | TooFewCells | NoCapacity | NoCurrent | NoBms | RateTooHigh
                   | VoltageEnvelope | CurrentEnvelope | PowerEnvelope | InvertedMargins

  datatype Compiled = Accepted(plan: Plan) | Refused(why: Refusal)

  function FillTime(req: Request): int
    requires req.chargeA > 0.0
  {
    Truncate(req.CapA() / req.chargeA * HOUR as real)
  }

  function MainTimeout(p: Preset, req: Request): int
    requires req.chargeA > 0.0
  {
    Truncate(p.timeoutFactor * FillTime(req) as real)
  }

  /** Whole-pack voltages. */
  datatype Pack = Pack(vCharge: real, vCeiling: real, vOVP: real, vFloat: real, vPrecharge: real)

  function PackOf(p: Preset, cells: real): Pack {
    Pack(p.vCharge * cells, p.vCeiling * cells, p.vOVP * cells, p.vFloat * cells, p.vPrecharge * cells)
  }

  function Power(v: Pack, req: Request): real {
    v.vCharge * req.chargeA
  }

  function Phases(p: Preset, v: Pack, req: Request, mainTimeout: int): seq<Phase> {
    (if p.vPrecharge > 0.0
     then [Phase(Precharge, v.vCharge, p.prechargeC * req.CapA(), 0.0, v.vPrecharge, false, PRECHARGE_TIMEOUT)]
     else [])
    + [Phase(Main, v.vCharge, req.chargeA, p.taperC * req.CapA(), 0.0, false, mainTimeout)]
    + (if p.vFloat > 0.0
       then [Phase(Float, v.vFloat, req.chargeA, 0.0, 0.0, true, 0)]
       else [])
  }

  /** The time of all bounded phases together. */
  function Bounded(p: Preset, mainTimeout: int): int {
    (if p.vPrecharge > 0.0 then PRECHARGE_TIMEOUT else 0) + mainTimeout
  }

  function Build(p: Preset, v: Pack, req: Request, power: real, mainTimeout: int): Plan {
    var bounded := Bounded(p, mainTimeout);
    Plan(req, p, Phases(p, v, req, mainTimeout),
         Limits(v.vCeiling, p.capCapFraction * req.capacityMah, bounded + bounded / 10, v.vOVP,
                Min(req.chargeA * 1.25, DEVICE_MAX_CURRENT),
                Min(power * 1.25, DEVICE_MAX_POWER), OTP_CELSIUS))
  }

  function Compile(req: Request): Compiled {
    if PresetFor(req.chemistry).None? then Refused(UnsupportedChemistry)
    else
      var p := PresetFor(req.chemistry).value;
      if req.cells < 1 then Refused(TooFewCells)
      else if req.capacityMah <= 0.0 then Refused(NoCapacity)
      else if req.chargeA <= 0.0 then Refused(NoCurrent)
      else if req.Lithium() && req.cells >= 2 && !req.bmsAttested then Refused(NoBms)
      else if req.chargeA > p.maxChargeC * req.CapA() + RATE_SLACK then Refused(RateTooHigh)
      else
        var v := PackOf(p, req.cells as real);
        if v.vOVP > DEVICE_MAX_VOLTAGE then Refused(VoltageEnvelope)
        else if req.chargeA > DEVICE_MAX_CURRENT then Refused(CurrentEnvelope)
        else if Power(v, req) > DEVICE_MAX_POWER then Refused(PowerEnvelope)
        else if !(v.vCharge <= v.vCeiling <= v.vOVP) then Refused(InvertedMargins)
        else Accepted(Build(p, v, req, Power(v, req), MainTimeout(p, req)))
  }

  // --- what is accepted ---

  /** The longest string of cells whose protection setpoint the supply can still reach. */
  function MaxCells(chem: Chemistry): int {
    match chem
    case LiIon => 6
    case LiFePO4 => 7
    case Pb => 11
    case Unsupported(_) => 0
  }

  predicate Chargeable(req: Request) {
    && 1 <= req.cells <= MaxCells(req.chemistry)
    && req.capacityMah > 0.0
    && 0.0 < req.chargeA <= 5.0
    && (req.Lithium() && req.cells >= 2 ==> req.bmsAttested)
    && req.chargeA <= (if req.chemistry.Pb? then 0.3 else 1.0) * req.capacityMah / 1000.0 + RATE_SLACK
  }

  lemma ProductBound(v: real, i: real, maxV: real, maxI: real)
    requires 0.0 <= v <= maxV && 0.0 <= i <= maxI
    ensures 0.0 <= v * i <= maxV * maxI
  {
    assert v * i <= maxV * i;
  }

  lemma PowerFollows(req: Request)
    requires PresetFor(req.chemistry).Some?
    requires req.cells >= 1 && 0.0 < req.chargeA <= DEVICE_MAX_CURRENT
    requires PresetFor(req.chemistry).value.vOVP * req.cells as real <= DEVICE_MAX_VOLTAGE
    ensures PresetFor(req.chemistry).value.vCharge * req.cells as real * req.chargeA <= DEVICE_MAX_POWER
  {
    ProductBound(PresetFor(req.chemistry).value.vCharge * req.cells as real, req.chargeA,
                 DEVICE_MAX_VOLTAGE, DEVICE_MAX_CURRENT);
  }

  /** A request is accepted exactly when it is chargeable; the power check and the margin check at
      the end of the list never decide. */
  lemma AcceptedIffChargeable(req: Request)
    ensures Compile(req).Accepted? <==> Chargeable(req)
    ensures Compile(req) != Refused(PowerEnvelope)
    ensures Compile(req) != Refused(InvertedMargins)
  {
    if PresetFor(req.chemistry).Some? && req.cells >= 1 && 0.0 < req.chargeA <= DEVICE_MAX_CURRENT
       && PresetFor(req.chemistry).value.vOVP * req.cells as real <= DEVICE_MAX_VOLTAGE
    {
      PowerFollows(req);
    }
  }

  // --- what an accepted plan promises ---

  lemma PositiveProduct(v: real, i: real) returns (w: real)
    requires v > 0.0 && i > 0.0
    ensures w == v * i && w > 0.0
  {
    w := v * i;
    ScaleOrder(0.0, v, i);
  }

  /** A phase regulates below the abort ceiling, which lies below the hardware trip point and the
      device limit. */
  predicate VoltageOrdered(ph: Phase, limits: Limits) {
    0.0 < ph.volts < limits.ceilingVolts < limits.ovpVolts <= DEVICE_MAX_VOLTAGE
  }

  function Watts(ph: Phase): real {
    ph.volts * ph.amps
  }

  /** Current and power of a phase stay within the hardware limits, and those within the device. */
  predicate LoadCovered(ph: Phase, limits: Limits) {
    && 0.0 < ph.amps <= limits.ocpAmps <= DEVICE_MAX_CURRENT
    && 0.0 < Watts(ph) <= limits.oppWatts <= DEVICE_MAX_POWER
  }

  predicate Ordered(v: Pack) {
    0.0 <= v.vFloat < v.vCharge < v.vCeiling < v.vOVP <= DEVICE_MAX_VOLTAGE
  }

  lemma PowerFits(volts: real, amps: real, vCharge: real, power: real)
    requires 0.0 < volts <= vCharge && 0.0 < amps && power == vCharge * amps
    ensures 0.0 < volts * amps <= power
  {
    var w := PositiveProduct(volts, amps);
    ScaleOrder(vCharge, volts, amps);
  }

  lemma BuildIsSafe(plan: Plan, p: Preset, v: Pack, req: Request, power: real, mainTimeout: int, ph: Phase)
    requires Ordered(v) && (p.vFloat > 0.0 ==> v.vFloat > 0.0)
    requires 0.0 < req.chargeA <= DEVICE_MAX_CURRENT && Power(v, req) == power <= DEVICE_MAX_POWER
    requires ph in Phases(p, v, req, mainTimeout)
    requires plan == Build(p, v, req, power, mainTimeout)
    ensures VoltageOrdered(ph, plan.limits)
    ensures !ph.kind.Precharge? ==> LoadCovered(ph, plan.limits)
  {
    if !ph.kind.Precharge? {
      assert ph.amps == req.chargeA && 0.0 < ph.volts <= v.vCharge;
      PowerFits(ph.volts, ph.amps, v.vCharge, power);
      assert 0.0 < Watts(ph) <= power <= plan.limits.oppWatts;
    }
  }

  lemma PackIsOrdered(chem: Chemistry, cells: int)
    requires PresetFor(chem).Some? && cells >= 1
    ensures var p := PresetFor(chem).value; var v := PackOf(p, cells as real);
            && 0.0 <= v.vFloat < v.vCharge < v.vCeiling < v.vOVP
            && (p.vFloat > 0.0 ==> v.vFloat > 0.0)
  {
  }

  /** What acceptance tells about the plan. */
  lemma AcceptedIsBuilt(req: Request, plan: Plan) returns (p: Preset, v: Pack, power: real, mainTimeout: int)
    requires Compile(req) == Accepted(plan)
    ensures Some(p) == PresetFor(req.chemistry) && req.cells >= 1 && v == PackOf(p, req.cells as real)
    ensures power == Power(v, req) <= DEVICE_MAX_POWER
    ensures v.vOVP <= DEVICE_MAX_VOLTAGE && 0.0 < req.chargeA <= DEVICE_MAX_CURRENT
    ensures mainTimeout == MainTimeout(p, req)
    ensures plan == Build(p, v, req, power, mainTimeout)
  {
    p := PresetFor(req.chemistry).value;
    v := PackOf(p, req.cells as real);
    power := Power(v, req);
    mainTimeout := MainTimeout(p, req);
  }

  /** Every phase of an accepted plan is inside the voltage envelope, and inside the current and
      power envelope unless it is the precharge. */
  lemma AcceptedPlanIsSafe(req: Request, plan: Plan, ph: Phase)
    requires Compile(req) == Accepted(plan) && ph in plan.phases
    ensures VoltageOrdered(ph, plan.limits)
    ensures !ph.kind.Precharge? ==> LoadCovered(ph, plan.limits)
  {
    var p, v, power, mainTimeout := AcceptedIsBuilt(req, plan);
    PackIsOrdered(req.chemistry, req.cells);
    BuildIsSafe(plan, p, v, req, power, mainTimeout, ph);
  }

  /** The trickle is weaker than the main charge exactly when the main charge runs at 0.1C or more,
      trips no hardware limit exactly when 0.1C stays below 1.25 times the charge current and 5 A,
      and nothing in the compiler keeps it below what the supply can deliver. */
  lemma TrickleBounds(req: Request)
    requires Compile(req).Accepted? && req.Lithium()
    ensures var plan := Compile(req).plan;
            var trickle := plan.phases[0];
            && trickle.kind.Precharge?
            && (trickle.amps <= req.chargeA <==> req.chargeA >= req.capacityMah / 10_000.0)
            && (trickle.amps <= DEVICE_MAX_CURRENT <==> req.capacityMah <= 50_000.0)
            && (trickle.amps <= plan.limits.ocpAmps <==>
                  req.capacityMah <= 50_000.0 && req.capacityMah <= 12_500.0 * req.chargeA)
  {
    AcceptedIffChargeable(req);
  }

  lemma TrickleCanExceedTheSupply(req: Request)
    requires req == Request(LiIon, 1, 60_000.0, 5.0, false)
    ensures Compile(req).Accepted? && Compile(req).plan.phases[0].amps == 6.0 > DEVICE_MAX_CURRENT
  {
    AcceptedIffChargeable(req);
  }

  /** The last bounded phase is the main phase, every phase before it is bounded by an hour, and only
      a float phase may follow, which never ends by itself. */
  lemma PhaseOrder(req: Request)
    requires Compile(req).Accepted?
    ensures var phases := Compile(req).plan.phases;
            var main := if req.Lithium() then 1 else 0;
            && |phases| == (if req.Lithium() then main + 1 else main + 2)
            && phases[main].kind.Main?
            && (forall k | 0 <= k < main ::
                  phases[k].kind.Precharge? && phases[k].timeout == HOUR && phases[k].untilVolts > 0.0)
            && (forall k | main < k < |phases| :: phases[k].kind.Float? && phases[k].holdToStop)
            && phases[main].taperAmps > 0.0
  {
    AcceptedIffChargeable(req);
  }

  lemma Regroup(q: real, x: real, y: real, h: real)
    requires q * y == x
    ensures q * h * y == x * h
  {
    assert q * h * y == q * y * h;
  }

  lemma QuotientOrder(q: real, x: real, y: real, h: real)
    requires y > 0.0 && x > 0.0 && q * y == x
    ensures q * h >= 1.0 <==> x * h >= y
    ensures q > 0.0
  {
    var scaled := q * h;
    Regroup(q, x, y, h);
    ScaleOrder(scaled, 1.0, y);
    ScaleOrder(0.0, q, y);
  }

  lemma DivAtLeastOne(x: real, y: real)
    requires x > 0.0 && y > 0.0
    ensures x / y * HOUR as real >= 1.0 <==> x * HOUR as real >= y
    ensures x / y > 0.0
  {
    QuotientOrder(x / y, x, y, HOUR as real);
  }

  /** The main phase is left without a timeout exactly when the theoretical fill time is below one
      nanosecond, which the slack in the rate check lets through for tiny capacities. */
  lemma MainPhaseIsBounded(req: Request)
    requires Compile(req).Accepted?
    ensures var plan := Compile(req).plan;
            && MainTimeout(plan.preset, req) >= 0
            && (MainTimeout(plan.preset, req) > 0 <==> req.chargeA <= req.CapA() * HOUR as real)
  {
    AcceptedIffChargeable(req);
    DivAtLeastOne(req.CapA(), req.chargeA);
    var fill := FillTime(req);
    assert fill >= 1 <==> req.CapA() / req.chargeA * HOUR as real >= 1.0;
  }

  lemma MainPhaseCanBeUnbounded(req: Request)
    requires req == Request(LiIon, 1, 1.0 / 10_000_000_000_000_000_000_000.0, RATE_SLACK, false)
    ensures Compile(req).Accepted? && MainTimeout(Compile(req).plan.preset, req) == 0
  {
    AcceptedIffChargeable(req);
    MainPhaseIsBounded(req);
  }

  // --- pre-flight ---

  datatype Reason = ReversedPolarity | NoBatteryOrShort | TooHighForCells | TooLowForCells | CellCountMismatch
  datatype Preflight = Pass(needsConfirm: bool) | Fail(reason: Reason) | BadRequest(why: Refusal)

  /** Rounds half away from zero. */
  function Round(x: real): int {
    if x >= 0.0 then (x + 0.5).Floor else -((-x + 0.5).Floor)
  }

  function SuggestCells(p: Preset, vbat: real): int
    requires p.vNominal > 0.0
  {
    var n := Round(vbat / p.vNominal);
    if n < 1 then 1 else n
  }

  function Check(req: Request, vbat: real): Preflight {
    var compiled := Compile(req);
    if compiled.Refused? then BadRequest(compiled.why)
    else
      var p := compiled.plan.preset;
      var perCell := vbat / req.cells as real;
      if vbat < 0.0 then Fail(ReversedPolarity)
      else if vbat < NO_BATTERY_VOLTS then Fail(NoBatteryOrShort)
      else if perCell > p.vMaxRest then Fail(TooHighForCells)
      else if perCell < p.vAbsMin then Fail(TooLowForCells)
      else if SuggestCells(p, vbat) != req.cells then Fail(CellCountMismatch)
      else Pass(p.vPrecharge > 0.0 && perCell < p.vPrecharge)
  }

  lemma PerCellOrder(v: real, cells: int, k: real)
    requires cells >= 1
    ensures v / cells as real > k <==> v > k * cells as real
    ensures v / cells as real < k <==> v < k * cells as real
  {
    var c := cells as real;
    assert v / c * c == v;
    if v / c > k { assert v / c * c > k * c; }
    if v / c < k { assert v / c * c < k * c; }
  }

  /** The suggestion is the cell count whose nominal pack voltage is nearest, ties going up. */
  lemma SuggestionIsNearest(p: Preset, vbat: real, n: int)
    requires p.vNominal > 0.0 && vbat >= 0.0 && n >= 1
    ensures SuggestCells(p, vbat) == n <==>
            vbat < (n as real + 0.5) * p.vNominal && (n == 1 || (n as real - 0.5) * p.vNominal <= vbat)
  {
    var q := vbat / p.vNominal;
    assert q * p.vNominal == vbat;
    assert q >= 0.0;
    ScaleOrder(q, n as real + 0.5, p.vNominal);
    ScaleOrder(q, n as real - 0.5, p.vNominal);
  }

  predicate InWindow(p: Preset, cells: int, vbat: real) {
    && p.vAbsMin * cells as real <= vbat <= p.vMaxRest * cells as real
    && (cells as real - 0.5) * p.vNominal <= vbat < (cells as real + 0.5) * p.vNominal
  }

  lemma ChecksAsWindow(p: Preset, cells: int, vbat: real)
    requires cells >= 1 && p.vNominal > 0.0 && p.vAbsMin >= 0.5 * p.vNominal && p.vAbsMin >= NO_BATTERY_VOLTS
    ensures (&& vbat >= NO_BATTERY_VOLTS
             && !(vbat / cells as real > p.vMaxRest)
             && !(vbat / cells as real < p.vAbsMin)
             && SuggestCells(p, vbat) == cells) <==> InWindow(p, cells, vbat)
  {
    PerCellOrder(vbat, cells, p.vMaxRest);
    PerCellOrder(vbat, cells, p.vAbsMin);
    assert p.vAbsMin * cells as real >= p.vAbsMin;
    if vbat >= 0.0 { SuggestionIsNearest(p, vbat, cells); }
  }

  /** A pack passes exactly when its voltage is plausible for the declared cells and lies in the
      half-cell window around cells times nominal. */
  lemma PassesIffNear(req: Request, vbat: real)
    requires Compile(req).Accepted?
    ensures Check(req, vbat).Pass? <==> InWindow(Compile(req).plan.preset, req.cells, vbat)
  {
    ChecksAsWindow(Compile(req).plan.preset, req.cells, vbat);
  }

  /** A measured voltage passes for at most one cell count of a chemistry. */
  lemma OneCellCountPasses(a: Request, b: Request, vbat: real)
    requires a.chemistry == b.chemistry
    requires Check(a, vbat).Pass? && Check(b, vbat).Pass?
    ensures a.cells == b.cells
  {
    PassesIffNear(a, vbat);
    PassesIffNear(b, vbat);
  }

  /** Confirmation of a deep discharge is asked for exactly on passing lithium packs of one or two
      cells below the precharge threshold; longer strings never reach it. */
  lemma ConfirmationNeeded(req: Request, vbat: real)
    ensures Check(req, vbat) == Pass(true) <==>
            Check(req, vbat).Pass? && req.Lithium() && req.cells <= 2
            && vbat < (if req.chemistry.LiIon? then 3.0 else 2.5) * req.cells as real
  {
    if Check(req, vbat).Pass? {
      PassesIffNear(req, vbat);
      AcceptedIffChargeable(req);
      PerCellOrder(vbat, req.cells, Compile(req).plan.preset.vPrecharge);
    }
  }

  /** Short strings of both lithium chemistries can need it. */
  lemma ShortStringCanNeedIt(req: Request, vbat: real)
    requires (req == Request(LiIon, 1, 2000.0, 1.0, false) && vbat == 2.9)
             || (req == Request(LiFePO4, 2, 2000.0, 1.0, true) && vbat == 4.9)
    ensures Check(req, vbat) == Pass(true)
  {
    if req.chemistry.LiIon? { OneLiIonCell(req, vbat); } else { TwoLiFePO4Cells(req, vbat); }
  }

  lemma OneLiIonCell(req: Request, vbat: real)
    requires req == Request(LiIon, 1, 2000.0, 1.0, false) && vbat == 2.9
    ensures Check(req, vbat) == Pass(true)
  {
    AcceptedIffChargeable(req);
    PassesIffNear(req, vbat);
    ConfirmationNeeded(req, vbat);
  }

  lemma TwoLiFePO4Cells(req: Request, vbat: real)
    requires req == Request(LiFePO4, 2, 2000.0, 1.0, true) && vbat == 4.9
    ensures Check(req, vbat) == Pass(true)
  {
    AcceptedIffChargeable(req);
    PassesIffNear(req, vbat);
    ConfirmationNeeded(req, vbat);
  }

  // --- the plan in figures ---

  /** The phases of an accepted lithium request: an hour of precharge at a tenth of the capacity up to the
      threshold, then the requested current up to the charge voltage until a twentieth of the capacity. */
  predicate LithiumPhases(plan: Plan, req: Request, charge: real, threshold: real) {
    var cells := req.cells as real;
    && |plan.phases| == 2
    && plan.phases[0] == Phase(Precharge, charge * cells, 0.1 * (req.capacityMah / 1000.0), 0.0, threshold * cells,
                               false, 60 * 60 * 1_000_000_000)
    && plan.phases[1] == Phase(Main, charge * cells, req.chargeA, 0.05 * (req.capacityMah / 1000.0), 0.0, false,
                               plan.phases[1].timeout)
  }

  lemma LithiumPlan(req: Request, plan: Plan)
    requires Compile(req) == Accepted(plan)
    ensures req.chemistry.LiIon? ==> LithiumPhases(plan, req, 4.2, 3.0)
    ensures req.chemistry.LiFePO4? ==> LithiumPhases(plan, req, 3.65, 2.5)
  {
    PlanIsBuilt(req, plan);
  }

  lemma PlanIsBuilt(req: Request, plan: Plan)
    requires Compile(req) == Accepted(plan)
    ensures PresetFor(req.chemistry).Some? && req.chargeA > 0.0
    ensures var p := PresetFor(req.chemistry).value; var v := PackOf(p, req.cells as real);
            plan == Build(p, v, req, Power(v, req), MainTimeout(p, req))
  {
  }

  /** Lead-acid: the requested current up to 2.4 V per cell, then an endless float at 2.25 V per cell. */
  lemma LeadAcidPlan(req: Request, plan: Plan)
    requires Compile(req) == Accepted(plan) && req.chemistry.Pb?
    ensures var cells := req.cells as real;
            && |plan.phases| == 2
            && plan.phases[0] == Phase(Main, 2.4 * cells, req.chargeA, 0.05 * (req.capacityMah / 1000.0), 0.0, false,
                                       plan.phases[0].timeout)
            && plan.phases[1] == Phase(Float, 2.25 * cells, req.chargeA, 0.0, 0.0, true, 0)
  {
    PlanIsBuilt(req, plan);
  }

  /** Ceiling and over-voltage protection of the pack, the charge cap, and the current and power protections
      at a quarter above what is asked for, if the supply has that much. */
  predicate HasLimits(l: Limits, req: Request, charge: real, ceiling: real, ovp: real, cap: real) {
    && l.ceilingVolts == ceiling * req.cells as real && l.ovpVolts == ovp * req.cells as real
    && l.capCapMah == cap * req.capacityMah && l.otpCelsius == 60.0
    && l.ocpAmps == Min(req.chargeA * 1.25, 5.0)
    && l.oppWatts == Min(Watt(charge * req.cells as real, req.chargeA) * 1.25, 150.0)
  }

  function Watt(volts: real, amps: real): real {
    volts * amps
  }

  lemma PlanLimits(req: Request, plan: Plan)
    requires Compile(req) == Accepted(plan)
    ensures var p := PresetFor(req.chemistry).value;
            HasLimits(plan.limits, req, p.vCharge, p.vCeiling, p.vOVP, p.capCapFraction)
    ensures match req.chemistry
            case LiIon => HasLimits(plan.limits, req, 4.2, 4.25, 4.3, 1.15)
            case LiFePO4 => HasLimits(plan.limits, req, 3.65, 3.7, 3.8, 1.15)
            case Pb => HasLimits(plan.limits, req, 2.4, 2.5, 2.55, 1.25)
            case Unsupported(_) => false
  {
    PlanIsBuilt(req, plan);
    var p := PresetFor(req.chemistry).value;
    LimitsAreBuilt(p, PackOf(p, req.cells as real), req, MainTimeout(p, req));
  }

  lemma LimitsAreBuilt(p: Preset, v: Pack, req: Request, mainTimeout: int)
    requires v == PackOf(p, req.cells as real)
    ensures HasLimits(Build(p, v, req, Power(v, req), mainTimeout).limits, req,
                      p.vCharge, p.vCeiling, p.vOVP, p.capCapFraction)
  {
    assert Power(v, req) == Watt(v.vCharge, req.chargeA);
  }

  /** How long it takes to fill the rated capacity with the requested current. */
  function FillNanoseconds(req: Request): int
    requires req.chargeA > 0.0
  {
    Truncate(req.capacityMah / 1000.0 / req.chargeA * 3600.0 * 1_000_000_000.0)
  }

  lemma FillTimeIs(req: Request)
    requires req.chargeA > 0.0
    ensures FillTime(req) == FillNanoseconds(req)
  {
    var x := req.capacityMah / 1000.0 / req.chargeA;
    assert x * 3600.0 * 1_000_000_000.0 == x * HOUR as real;
  }

  /** The main phase may take half as long again as the fill time for lithium and twice as long for lead-acid;
      the run a tenth more than its bounded phases together. */
  lemma PlanTimeouts(req: Request, plan: Plan)
    requires Compile(req) == Accepted(plan)
    ensures req.chargeA > 0.0 && |plan.phases| == 2
    ensures var main := plan.phases[if req.Lithium() then 1 else 0].timeout;
            var bounded := if req.Lithium() then HOUR + main else main;
            && main == Truncate((if req.Lithium() then 1.5 else 2.0) * FillNanoseconds(req) as real)
            && plan.limits.timeout == bounded + bounded / 10
  {
    PlanIsBuilt(req, plan);
    FillTimeIs(req);
  }

  // --- what a refusal means ---

  /** Why a request is refused: the first of these that applies. */
  lemma WhyRefused(req: Request)
    ensures var c, refused := Compile(req), r => Compile(req) == Refused(r);
            var ovp := match req.chemistry case LiIon => 4.3 case LiFePO4 => 3.8 case Pb => 2.55 case _ => 0.0;
            var rate := if req.Lithium() then 1.0 else 0.3;
            if req.chemistry.Unsupported? then refused(UnsupportedChemistry)
            else if req.cells < 1 then refused(TooFewCells)
            else if req.capacityMah <= 0.0 then refused(NoCapacity)
            else if req.chargeA <= 0.0 then refused(NoCurrent)
            else if req.Lithium() && req.cells > 1 && !req.bmsAttested then refused(NoBms)
            else if req.chargeA > rate * (req.capacityMah / 1000.0) + 0.000000001 then refused(RateTooHigh)
            else if ovp * req.cells as real > 30.0 then refused(VoltageEnvelope)
            else if req.chargeA > 5.0 then refused(CurrentEnvelope)
            else c.Accepted?
  {
    AcceptedIffChargeable(req);
  }

  /** Why a pack voltage fails pre-flight: the first of these that applies. */
  lemma WhyFailed(req: Request, vbat: real)
    requires Compile(req).Accepted?
    ensures var failed := r => Check(req, vbat) == Fail(r);
            var cells := req.cells as real;
            var (low, high) := match req.chemistry
                               case LiIon => (2.0, 4.25) case LiFePO4 => (2.0, 3.7) case Pb => (1.6, 2.55)
                               case _ => (0.0, 0.0);
            if vbat < 0.0 then failed(ReversedPolarity)
            else if vbat < 0.3 then failed(NoBatteryOrShort)
            else if vbat > high * cells then failed(TooHighForCells)
            else if vbat < low * cells then failed(TooLowForCells)
            else failed(CellCountMismatch) || Check(req, vbat).Pass?
  {
    var p := PresetFor(req.chemistry).value;
    PerCellOrder(vbat, req.cells, p.vMaxRest);
    PerCellOrder(vbat, req.cells, p.vAbsMin);
  }
}
