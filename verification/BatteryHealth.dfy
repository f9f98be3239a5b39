/** Battery health: which charge sessions count as data points, in Go and in SQL, and the one-pass
    aggregation of their rows. */
module BatteryHealth {
  import opened Prelude
  import ChargePlan

  datatype Session = Session(
    batteryId: int, chemistry: string, cells: int, startedAt: int, state: string,
    deliveredMah: real, deliveredWh: real,
    startVoltage: Option<real>, onsetVoltage: Option<real>, onsetCurrent: Option<real>)

  // --- the Go predicates ---

  /** Per-cell voltage below which a pack counts as charged from empty. */
  function EmptyThreshold(chemistry: string): Option<real> {
    if chemistry == "liion" then Some(3.0) else if chemistry == "lifepo4" then Some(2.5)
    else if chemistry == "pb" then Some(1.9) else None
  }

  /** Per-cell voltage below which a precharge runs. */
  function PrechargeThreshold(chemistry: string): Option<real> {
    if chemistry == "liion" then Some(3.0) else if chemistry == "lifepo4" then Some(2.5)
    else if chemistry == "pb" then Some(0.0) else None
  }

  function PerCell(volts: real, cells: int): real
    requires cells > 0
  {
    volts / cells as real
  }

  predicate CapacityEligible(s: Session) {
    if s.state != "completed" || s.deliveredMah <= 0.0 || s.startVoltage.None? || s.cells <= 0 then false
    else if EmptyThreshold(s.chemistry).None? then false
    else PerCell(s.startVoltage.value, s.cells) <= EmptyThreshold(s.chemistry).value
  }

  predicate RintEligible(s: Session) {
    if s.startVoltage.None? || s.onsetVoltage.None? || s.onsetCurrent.None? || s.cells <= 0 then false
    else if s.onsetCurrent.value <= 0.0 then false
    else if s.onsetVoltage.value - s.startVoltage.value <= 0.0 then false
    else if PrechargeThreshold(s.chemistry).None? then false
    else PerCell(s.startVoltage.value, s.cells) >= PrechargeThreshold(s.chemistry).value
  }

  /** Per-cell resistance in milliohms. */
  function RintCell(s: Session): real
    requires RintEligible(s)
  {
    (s.onsetVoltage.value - s.startVoltage.value) / s.onsetCurrent.value / s.cells as real * 1000.0
  }

  lemma RintIsPositive(s: Session)
    requires RintEligible(s)
    ensures RintCell(s) > 0.0
  {
    var step, amps, cells := s.onsetVoltage.value - s.startVoltage.value, s.onsetCurrent.value, s.cells as real;
    DivideOrder(0.0, step, amps);
    DivideOrder(0.0, step / amps, cells);
  }

  // --- the SQL predicates ---

  /** SQL truth: a WHERE clause keeps the rows that are True; None is NULL. */
  type Truth = Option<bool>

  function And(a: Truth, b: Truth): Truth {
    if a == Some(false) || b == Some(false) then Some(false) else if a.None? || b.None? then None else Some(true)
  }

  function Less(a: Option<real>, b: Option<real>): Truth {
    if a.None? || b.None? then None else Some(a.value < b.value)
  }

  function AtMost(a: Option<real>, b: Option<real>): Truth {
    if a.None? || b.None? then None else Some(a.value <= b.value)
  }

  function Minus(a: Option<real>, b: Option<real>): Option<real> {
    if a.None? || b.None? then None else Some(a.value - b.value)
  }

  /** start_voltage / NULLIF(cells, 0) */
  function SqlPerCell(s: Session): Option<real> {
    if s.startVoltage.None? || s.cells == 0 then None else Some(s.startVoltage.value / s.cells as real)
  }

  function CaseChemistry(chemistry: string, liion: real, lifepo4: real, pb: real, other: real): Option<real> {
    Some(if chemistry == "liion" then liion else if chemistry == "lifepo4" then lifepo4
         else if chemistry == "pb" then pb else other)
  }

  const ZERO := Some(0.0)

  function SqlCapacityEligible(s: Session): Truth {
    And(And(And(And(
      Some(s.state == "completed"), Less(ZERO, Some(s.deliveredMah))), Some(s.startVoltage.Some?)), Some(s.cells > 0)),
      AtMost(SqlPerCell(s), CaseChemistry(s.chemistry, 3.0, 2.5, 1.9, -1.0)))
  }

  function SqlRintEligible(s: Session): Truth {
    And(And(And(And(And(
      Some(s.startVoltage.Some?), Some(s.onsetVoltage.Some?)), Less(ZERO, s.onsetCurrent)), Some(s.cells > 0)),
      Less(ZERO, Minus(s.onsetVoltage, s.startVoltage))),
      AtMost(CaseChemistry(s.chemistry, 3.0, 2.5, 0.0, 1_000_000_000.0), SqlPerCell(s)))
  }

  predicate KnownChemistry(chemistry: string) {
    chemistry == "liion" || chemistry == "lifepo4" || chemistry == "pb"
  }

  /** The two capacity predicates disagree exactly on completed sessions of an unknown chemistry that
      started at or below -1 V per cell. */
  lemma CapacityPredicatesAgree(s: Session)
    ensures (SqlCapacityEligible(s) == Some(true)) != CapacityEligible(s) <==>
            && !KnownChemistry(s.chemistry) && s.state == "completed" && s.deliveredMah > 0.0
            && s.startVoltage.Some? && s.cells > 0 && s.startVoltage.value / s.cells as real <= -1.0
  {
    if s.cells > 0 && s.startVoltage.Some? && KnownChemistry(s.chemistry) {
      assert SqlPerCell(s) == Some(PerCell(s.startVoltage.value, s.cells));
    }
  }

  /** The two resistance predicates disagree exactly on sessions of an unknown chemistry that started
      at or above a billion volts per cell. */
  lemma RintPredicatesAgree(s: Session)
    ensures (SqlRintEligible(s) == Some(true)) != RintEligible(s) <==>
            && !KnownChemistry(s.chemistry) && s.startVoltage.Some? && s.onsetVoltage.Some? && s.onsetCurrent.Some?
            && s.onsetCurrent.value > 0.0 && s.cells > 0 && s.onsetVoltage.value > s.startVoltage.value
            && s.startVoltage.value / s.cells as real >= 1_000_000_000.0
  {
    if s.cells > 0 && s.startVoltage.Some? && KnownChemistry(s.chemistry) {
      assert SqlPerCell(s) == Some(PerCell(s.startVoltage.value, s.cells));
    }
  }

  // --- pre-flight against eligibility ---

  function ChemistryName(c: ChargePlan.Chemistry): string {
    match c
    case LiIon => "liion"
    case LiFePO4 => "lifepo4"
    case Pb => "pb"
    case Unsupported(name) => name
  }

  /** What a run stores of the request it was started with and of the pack voltage its pre-flight read. */
  predicate StartedFrom(s: Session, req: ChargePlan.Request, vbat: real) {
    && ChargePlan.Check(req, vbat).Pass?
    && s.chemistry == ChemistryName(req.chemistry) && s.cells == req.cells && s.startVoltage == Some(vbat)
  }

  /** The predicates agree on every session a run stores, whatever it measured afterwards: pre-flight
      passes known chemistries only, and only at plausible cell voltages. */
  lemma StoredSessionsAgree(s: Session, req: ChargePlan.Request, vbat: real)
    requires StartedFrom(s, req, vbat)
    ensures KnownChemistry(s.chemistry) && s.cells > 0 && 0.0 < PerCell(vbat, s.cells) < 5.0
    ensures (SqlCapacityEligible(s) == Some(true)) == CapacityEligible(s)
    ensures (SqlRintEligible(s) == Some(true)) == RintEligible(s)
  {
    ChargePlan.AcceptedIffChargeable(req);
    ChargePlan.PassesIffNear(req, vbat);
    ChargePlan.PerCellOrder(vbat, req.cells, 0.0);
    ChargePlan.PerCellOrder(vbat, req.cells, 5.0);
    CapacityPredicatesAgree(s);
    RintPredicatesAgree(s);
  }

  /** A charge that passed pre-flight on three or more lithium cells in series is never a capacity data
      point: such packs cannot pass while empty. */
  lemma LongLithiumIsNeverFromEmpty(req: ChargePlan.Request, vbat: real, s: Session)
    requires StartedFrom(s, req, vbat) && req.Lithium() && req.cells >= 3
    ensures !CapacityEligible(s)
  {
    ChargePlan.PassesIffNear(req, vbat);
    ChargePlan.AcceptedIffChargeable(req);
    ChargePlan.PerCellOrder(vbat, req.cells, EmptyThreshold(s.chemistry).value);
  }
}
