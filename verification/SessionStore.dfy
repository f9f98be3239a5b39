/** Charge sessions and the battery library: what the stored rows keep while runs begin, record their
    onset, end, and are assigned to batteries. */
module SessionStore {
  import opened Prelude

  datatype State = Running | Completed | Stopped | Aborted | Failed

  datatype Onset = Onset(volts: real, amps: real)

  /** The measurements of a session row and the fields a finalise brings. batteryId 0 is unassigned. */
  datatype Session = Session(chemistry: string, cells: int, startVoltage: Option<real>, onset: Option<Onset>,
                             batteryId: int, state: State, deliveredMah: real)

  datatype Battery = Battery(chemistry: string, cells: int, ratedMah: real)

  datatype Db = Db(sessions: map<int, Session>, batteries: map<int, Battery>)

  datatype Outcome = Ok | NotFound | BatteryNotFound | Invalid | SessionRunning

  datatype Op =
    | Begin(sid: int, chemistry: string, cells: int, startVoltage: Option<real>, batteryId: int)
    | RecordOnset(sid: int, onset: Onset)
    | Finish(sid: int, state: State, deliveredMah: real)
    | FailOrphans
    | Assign(sid: int, bid: int)
    | CreateBattery(bid: int, battery: Battery)
    | UpdateBattery(bid: int, newChemistry: Option<string>, newCells: Option<int>, newRated: Option<real>)
    | DeleteBattery(bid: int)

  predicate Fits(s: Session, b: Battery) {
    s.chemistry == b.chemistry && s.cells == b.cells
  }

  function PutSession(db: Db, sid: int, s: Session): Db {
    db.(sessions := db.sessions[sid := s])
  }

  /** Only a session without an onset takes one. */
  function OnsetRecorded(db: Db, sid: int, onset: Onset): Db {
    if sid in db.sessions && db.sessions[sid].onset.None?
    then PutSession(db, sid, db.sessions[sid].(onset := Some(onset)))
    else db
  }

  /** The row that a finalise saves: the measurements and the assignment as read, the rest as given. */
  function Saved(db: Db, sid: int, read: Session, state: State, deliveredMah: real): Db {
    PutSession(db, sid, read.(state := state, deliveredMah := deliveredMah))
  }

  function Finished(db: Db, sid: int, state: State, deliveredMah: real): (Outcome, Db) {
    if sid !in db.sessions then (NotFound, db) else (Ok, Saved(db, sid, db.sessions[sid], state, deliveredMah))
  }

  function OrphansFailed(db: Db): Db {
    db.(sessions := map sid | sid in db.sessions ::
      if db.sessions[sid].state.Running? then db.sessions[sid].(state := Failed) else db.sessions[sid])
  }

  function Assigned(db: Db, sid: int, bid: int): (Outcome, Db) {
    if sid !in db.sessions then (NotFound, db)
    else if db.sessions[sid].state.Running? then (SessionRunning, db)
    else if bid > 0 && bid !in db.batteries then (BatteryNotFound, db)
    else if bid > 0 && !Fits(db.sessions[sid], db.batteries[bid]) then (Invalid, db)
    else (Ok, PutSession(db, sid, db.sessions[sid].(batteryId := if bid > 0 then bid else 0)))
  }

  function BatteryUpdated(db: Db, bid: int, chemistry: Option<string>, cells: Option<int>, ratedMah: Option<real>)
    : (Outcome, Db)
  {
    if bid !in db.batteries then (NotFound, db)
    else
      var b := db.batteries[bid];
      var rated := if ratedMah.Some? then ratedMah.value else b.ratedMah;
      if (chemistry.Some? && chemistry.value != b.chemistry) || (cells.Some? && cells.value != b.cells)
      then (Invalid, db)
      else (Ok, db.(batteries := db.batteries[bid := b.(ratedMah := rated)]))
  }

  function BatteryDeleted(db: Db, bid: int): (Outcome, Db) {
    if bid !in db.batteries then (NotFound, db)
    else
      (Ok, Db(map sid | sid in db.sessions ::
                if db.sessions[sid].batteryId == bid then db.sessions[sid].(batteryId := 0) else db.sessions[sid],
              db.batteries - {bid}))
  }

  function Applied(db: Db, op: Op): (Outcome, Db) {
    match op
    case Begin(sid, chemistry, cells, startVoltage, bid) =>
      (Ok, PutSession(db, sid, Session(chemistry, cells, startVoltage, None, bid, Running, 0.0)))
    case RecordOnset(sid, onset) => (Ok, OnsetRecorded(db, sid, onset))
    case Finish(sid, state, deliveredMah) => Finished(db, sid, state, deliveredMah)
    case FailOrphans => (Ok, OrphansFailed(db))
    case Assign(sid, bid) => Assigned(db, sid, bid)
    case CreateBattery(bid, battery) => (Ok, db.(batteries := db.batteries[bid := battery]))
    case UpdateBattery(bid, chemistry, cells, ratedMah) => BatteryUpdated(db, bid, chemistry, cells, ratedMah)
    case DeleteBattery(bid) => BatteryDeleted(db, bid)
  }

  class Store {
    var sessions: map<int, Session>
    var batteries: map<int, Battery>

    ghost function Tables(): Db reads this { Db(sessions, batteries) }

    constructor ()
      ensures Tables() == Db(map[], map[])
    {
      sessions, batteries := map[], map[];
    }

    method CreateChargeSession(sid: int, s: Session)
      modifies this`sessions
      ensures Tables() == PutSession(old(Tables()), sid, s)
    {
      sessions := sessions[sid := s];
    }

    method RecordChargeCCOnset(sid: int, onset: Onset)
      modifies this`sessions
      ensures Tables() == OnsetRecorded(old(Tables()), sid, onset)
    {
      if sid in sessions && sessions[sid].onset.None? {
        sessions := sessions[sid := sessions[sid].(onset := Some(onset))];
      }
    }

    /** A full-row save: everything the run did not measure at its end comes from the stored row. */
    method UpdateChargeSession(sid: int, sess: Session) returns (o: Outcome)
      modifies this`sessions
      ensures (o, Tables()) == Finished(old(Tables()), sid, sess.state, sess.deliveredMah)
    {
      if sid !in sessions { return NotFound; }
      var existing := sessions[sid];
      var row := sess;
      row := row.(batteryId := existing.batteryId, chemistry := existing.chemistry, cells := existing.cells);
      row := row.(startVoltage := existing.startVoltage, onset := existing.onset);
      sessions := sessions[sid := row];
      o := Ok;
    }

    method MarkRunningChargeSessionsFailed()
      modifies this`sessions
      ensures Tables() == OrphansFailed(old(Tables()))
    {
      sessions := map sid | sid in sessions ::
        if sessions[sid].state.Running? then sessions[sid].(state := Failed) else sessions[sid];
    }

    method AssignSessionBattery(sid: int, bid: int) returns (o: Outcome)
      modifies this`sessions
      ensures (o, Tables()) == Assigned(old(Tables()), sid, bid)
    {
      if sid !in sessions { return NotFound; }
      var sess := sessions[sid];
      if sess.state.Running? { return SessionRunning; }
      var target := 0;
      if bid > 0 {
        if bid !in batteries { return BatteryNotFound; }
        var bat := batteries[bid];
        if sess.chemistry != bat.chemistry || sess.cells != bat.cells { return Invalid; }
        target := bid;
      }
      sessions := sessions[sid := sess.(batteryId := target)];
      o := Ok;
    }

    method CreateBattery(bid: int, b: Battery)
      modifies this`batteries
      ensures Tables() == old(Tables()).(batteries := old(batteries)[bid := b])
    {
      batteries := batteries[bid := b];
    }

    method UpdateBattery(bid: int, chemistry: Option<string>, cells: Option<int>, ratedMah: Option<real>)
      returns (o: Outcome)
      modifies this`batteries
      ensures (o, Tables()) == BatteryUpdated(old(Tables()), bid, chemistry, cells, ratedMah)
    {
      if bid !in batteries { return NotFound; }
      var b := batteries[bid];
      if chemistry.Some? && chemistry.value != b.chemistry { return Invalid; }
      if cells.Some? && cells.value != b.cells { return Invalid; }
      if ratedMah.Some? { b := b.(ratedMah := ratedMah.value); }
      batteries := batteries[bid := b];
      o := Ok;
    }

    method DeleteBattery(bid: int) returns (o: Outcome)
      modifies this
      ensures (o, Tables()) == BatteryDeleted(old(Tables()), bid)
    {
      if bid !in batteries { return NotFound; }
      sessions := map sid | sid in sessions ::
        if sessions[sid].batteryId == bid then sessions[sid].(batteryId := 0) else sessions[sid];
      batteries := batteries - {bid};
      o := Ok;
    }
  }

  // --- what every operation keeps ---

  ghost predicate AssignmentFits(db: Db, sid: int)
    requires sid in db.sessions
  {
    var s := db.sessions[sid];
    s.batteryId != 0 ==> s.batteryId in db.batteries && Fits(s, db.batteries[s.batteryId])
  }

  /** Every assigned session matches the chemistry and the cell count of a battery that exists. */
  ghost predicate Inv(db: Db) {
    && (forall sid | sid in db.sessions :: AssignmentFits(db, sid))
    && (forall bid | bid in db.batteries :: bid > 0)
  }

  /** New rows get fresh keys, and a run that preselects a battery names one that fits. */
  predicate Admissible(db: Db, op: Op) {
    match op
    case Begin(sid, chemistry, cells, startVoltage, bid) =>
      && sid > 0 && sid !in db.sessions
      && (bid != 0 ==> bid in db.batteries
                       && Fits(Session(chemistry, cells, startVoltage, None, bid, Running, 0.0), db.batteries[bid]))
    case CreateBattery(bid, _) => bid > 0 && bid !in db.batteries
    case _ => true
  }

  lemma StepKeepsInv(db: Db, op: Op)
    requires Inv(db) && Admissible(db, op)
    ensures Inv(Applied(db, op).1)
  {
    var db' := Applied(db, op).1;
    forall sid | sid in db'.sessions ensures AssignmentFits(db', sid) {
      if sid in db.sessions { assert AssignmentFits(db, sid); }
    }
  }

  function Run(ops: seq<Op>): Db {
    if ops == [] then Db(map[], map[]) else Applied(Run(ops[..|ops| - 1]), ops[|ops| - 1]).1
  }

  predicate Orderly(ops: seq<Op>) {
    ops == [] || (Orderly(ops[..|ops| - 1]) && Admissible(Run(ops[..|ops| - 1]), ops[|ops| - 1]))
  }

  /** After any series of operations an assigned session matches a battery that exists. */
  lemma {:induction false} AssignmentsStayMatched(ops: seq<Op>)
    requires Orderly(ops)
    ensures var db := Run(ops);
            Inv(db) && forall sid | sid in db.sessions && db.sessions[sid].batteryId != 0 ::
              && db.sessions[sid].batteryId in db.batteries
              && Fits(db.sessions[sid], db.batteries[db.sessions[sid].batteryId])
  {
    if ops != [] {
      var before := ops[..|ops| - 1];
      AssignmentsStayMatched(before);
      StepKeepsInv(Run(before), ops[|ops| - 1]);
    }
    forall sid | sid in Run(ops).sessions ensures AssignmentFits(Run(ops), sid) {}
  }

  // --- what survives ---

  /** The first onset recorded for a session from operation k on. */
  function FirstOnset(ops: seq<Op>, sid: int, k: nat): Option<Onset>
    requires k <= |ops|
    decreases |ops|
  {
    if k == |ops| then None
    else
      var before := FirstOnset(ops[..|ops| - 1], sid, k);
      if before.Some? then before
      else if ops[|ops| - 1].RecordOnset? && ops[|ops| - 1].sid == sid then Some(ops[|ops| - 1].onset)
      else None
  }

  /** One operation, other than a new begin, keeps what identifies a row and measures its start; it fills
      in an onset only where there is none. */
  lemma StepKeepsRow(db: Db, op: Op, sid: int)
    requires sid in db.sessions && !(op.Begin? && op.sid == sid)
    ensures var db', s := Applied(db, op).1, db.sessions[sid];
            sid in db'.sessions && KeepsRow(s, db'.sessions[sid])
            && db'.sessions[sid].onset ==
                 if op.RecordOnset? && op.sid == sid && s.onset.None? then Some(op.onset) else s.onset
  {
  }

  predicate KeepsRow(s: Session, s': Session) {
    s'.chemistry == s.chemistry && s'.cells == s.cells && s'.startVoltage == s.startVoltage
  }

  /** Whatever happens after a session began, its chemistry, cells and start voltage stay, and its onset is
      the first one recorded: finalising, failing and assigning never lose or overwrite a measurement. */
  lemma {:induction false} MeasurementsSurvive(ops: seq<Op>, k: nat)
    requires Orderly(ops) && k < |ops| && ops[k].Begin?
    ensures var b := ops[k];
            b.sid in Run(ops).sessions &&
            var s := Run(ops).sessions[b.sid];
            && s.chemistry == b.chemistry && s.cells == b.cells && s.startVoltage == b.startVoltage
            && s.onset == FirstOnset(ops, b.sid, k + 1)
    decreases |ops|
  {
    if k < |ops| - 1 {
      var before := ops[..|ops| - 1];
      assert before[k] == ops[k];
      MeasurementsSurvive(before, k);
      StepKeepsRow(Run(before), ops[|ops| - 1], ops[k].sid);
    }
  }

  // --- a finalise that is not atomic ---

  /** UpdateChargeSession reads the row and saves it in two statements without a transaction; `mid` is the
      database in between. */
  function SplitFinish(read: Db, mid: Db, sid: int, state: State, deliveredMah: real): Db
    requires sid in read.sessions
  {
    Saved(mid, sid, read.sessions[sid], state, deliveredMah)
  }

  /** The saved row is that of an atomic finalise at the save exactly when onset and assignment are then
      what they were at the read. */
  lemma SplitFinishNeedsSameRow(read: Db, ops: seq<Op>, sid: int, state: State, deliveredMah: real)
    requires Untouched(read, ops, sid)
    ensures var mid := RunFrom(read, ops);
            sid in mid.sessions &&
            (SplitFinish(read, mid, sid, state, deliveredMah) == Finished(mid, sid, state, deliveredMah).1 <==>
             && mid.sessions[sid].onset == read.sessions[sid].onset
             && mid.sessions[sid].batteryId == read.sessions[sid].batteryId)
  {
    var mid := RunFrom(read, ops);
    RowKeepsIdentity(read, ops, sid);
    if SplitFinish(read, mid, sid, state, deliveredMah) == Finished(mid, sid, state, deliveredMah).1 {
      assert SplitFinish(read, mid, sid, state, deliveredMah).sessions[sid] ==
             Finished(mid, sid, state, deliveredMah).1.sessions[sid];
    }
  }

  function RunFrom(db: Db, ops: seq<Op>): Db {
    if ops == [] then db else Applied(RunFrom(db, ops[..|ops| - 1]), ops[|ops| - 1]).1
  }

  /** The session exists and none of the operations begins it anew. */
  predicate Untouched(db: Db, ops: seq<Op>, sid: int) {
    sid in db.sessions && forall k | 0 <= k < |ops| :: !(ops[k].Begin? && ops[k].sid == sid)
  }

  lemma {:induction false} RowKeepsIdentity(db: Db, ops: seq<Op>, sid: int)
    requires Untouched(db, ops, sid)
    ensures var mid := RunFrom(db, ops); sid in mid.sessions && KeepsRow(db.sessions[sid], mid.sessions[sid])
    decreases |ops|
  {
    if ops != [] {
      var before := ops[..|ops| - 1];
      RowKeepsIdentity(db, before, sid);
      StepKeepsRow(RunFrom(db, before), ops[|ops| - 1], sid);
    }
  }

  /** Some operation of the gap brings an onset for the session. */
  predicate BringsOnset(ops: seq<Op>, sid: int) {
    exists k :: 0 <= k < |ops| && ops[k].RecordOnset? && ops[k].sid == sid
  }

  lemma {:induction false} OnsetAfterGap(read: Db, ops: seq<Op>, sid: int)
    requires Untouched(read, ops, sid)
    ensures var mid, onset := RunFrom(read, ops), read.sessions[sid].onset;
            && sid in mid.sessions
            && (onset.Some? ==> mid.sessions[sid].onset == onset)
            && (onset.None? ==> (mid.sessions[sid].onset.Some? <==> BringsOnset(ops, sid)))
    decreases |ops|
  {
    if ops != [] {
      var n := |ops| - 1;
      OnsetAfterGap(read, ops[..n], sid);
      StepKeepsRow(RunFrom(read, ops[..n]), ops[n], sid);
      if k :| 0 <= k < n && ops[k].RecordOnset? && ops[k].sid == sid { assert ops[..n][k] == ops[k]; }
    }
  }

  /** The operation assigns the session anew, or unassigns it, and is not refused. */
  predicate Moves(db: Db, op: Op, sid: int) {
    op.Assign? && op.sid == sid && Assigned(db, sid, op.bid).0.Ok?
  }

  predicate MovesAt(read: Db, ops: seq<Op>, sid: int, k: nat)
    requires k < |ops|
  {
    Moves(RunFrom(read, ops[..k]), ops[k], sid)
  }

  lemma MovesBefore(read: Db, ops: seq<Op>, sid: int, n: nat)
    requires n <= |ops|
    ensures forall k: nat | k < n :: MovesAt(read, ops[..n], sid, k) == MovesAt(read, ops, sid, k)
  {
    forall k: nat | k < n ensures MovesAt(read, ops[..n], sid, k) == MovesAt(read, ops, sid, k) {
      assert ops[..n][..k] == ops[..k];
    }
  }

  /** The last operation of the gap that does, or -1. */
  function LastMove(read: Db, ops: seq<Op>, sid: int): (k: int)
    ensures -1 <= k < |ops|
    ensures k >= 0 ==> MovesAt(read, ops, sid, k)
    ensures forall j: nat | k < j < |ops| :: !MovesAt(read, ops, sid, j)
  {
    if ops == [] then -1
    else
      var n := |ops| - 1;
      if MovesAt(read, ops, sid, n) then n else MovesBefore(read, ops, sid, n); LastMove(read, ops[..n], sid)
  }

  /** A battery, unless it is deleted later. */
  function UnlessDeleted(bid: int, later: seq<Op>): int {
    if DeleteBattery(bid) in later then 0 else bid
  }

  function Given(bid: int): int {
    if bid > 0 then bid else 0
  }

  /** The battery given last, unless it was deleted since. */
  function AssignmentAfterGap(read: Db, ops: seq<Op>, sid: int): int
    requires sid in read.sessions
  {
    LastGiven(read.sessions[sid].batteryId, ops, LastMove(read, ops, sid))
  }

  /** With operation k the last to give a battery; -1 stands for the read. */
  function LastGiven(atRead: int, ops: seq<Op>, k: int): int
    requires -1 <= k < |ops| && (k >= 0 ==> ops[k].Assign?)
  {
    if k < 0 then UnlessDeleted(atRead, ops) else UnlessDeleted(Given(ops[k].bid), ops[k + 1..])
  }

  /** One operation gives the session another battery, takes its battery away, or leaves it. */
  lemma StepAssigns(db: Db, op: Op, sid: int)
    requires sid in db.sessions && !(op.Begin? && op.sid == sid)
    requires db.sessions[sid].batteryId != 0 ==> db.sessions[sid].batteryId in db.batteries
    ensures var db', bid := Applied(db, op).1, db.sessions[sid].batteryId;
            && sid in db'.sessions
            && db'.sessions[sid].batteryId ==
                 (if Moves(db, op, sid) then Given(op.bid) else if op == DeleteBattery(bid) then 0 else bid)
            && (db'.sessions[sid].batteryId != 0 ==> db'.sessions[sid].batteryId in db'.batteries)
  {
  }

  lemma UnlessDeletedOne(bid: int, later: seq<Op>, op: Op)
    ensures var now := UnlessDeleted(bid, later);
            UnlessDeleted(bid, later + [op]) == if op == DeleteBattery(now) then 0 else now
  {
  }

  lemma LastGivenOne(atRead: int, before: seq<Op>, op: Op, k: int)
    requires -1 <= k < |before| && (k >= 0 ==> before[k].Assign?)
    ensures var now := LastGiven(atRead, before, k);
            LastGiven(atRead, before + [op], k) == if op == DeleteBattery(now) then 0 else now
  {
    if k < 0 {
      UnlessDeletedOne(atRead, before, op);
    } else {
      assert (before + [op])[k + 1..] == before[k + 1..] + [op];
      UnlessDeletedOne(Given(before[k].bid), before[k + 1..], op);
    }
  }

  lemma LastMoveOne(read: Db, before: seq<Op>, op: Op, sid: int)
    ensures LastMove(read, before + [op], sid) ==
            if Moves(RunFrom(read, before), op, sid) then |before| else LastMove(read, before, sid)
  {
    assert (before + [op])[..|before|] == before;
  }

  lemma AssignmentAfterOne(read: Db, before: seq<Op>, op: Op, sid: int)
    requires sid in read.sessions
    ensures var bid := AssignmentAfterGap(read, before, sid);
            AssignmentAfterGap(read, before + [op], sid) ==
              if Moves(RunFrom(read, before), op, sid) then Given(op.bid)
              else if op == DeleteBattery(bid) then 0 else bid
  {
    LastMoveOne(read, before, op, sid);
    if Moves(RunFrom(read, before), op, sid) {
      assert (before + [op])[|before| + 1..] == [];
    } else {
      LastGivenOne(read.sessions[sid].batteryId, before, op, LastMove(read, before, sid));
    }
  }

  lemma {:induction false} AssignmentIsTheLastGiven(read: Db, ops: seq<Op>, sid: int)
    requires Untouched(read, ops, sid) && AssignmentFits(read, sid)
    ensures var mid := RunFrom(read, ops);
            && sid in mid.sessions && mid.sessions[sid].batteryId == AssignmentAfterGap(read, ops, sid)
            && (mid.sessions[sid].batteryId != 0 ==> mid.sessions[sid].batteryId in mid.batteries)
    decreases |ops|
  {
    if ops != [] {
      var before, op := ops[..|ops| - 1], ops[|ops| - 1];
      assert before + [op] == ops;
      AssignmentIsTheLastGiven(read, before, sid);
      AssignmentAfterOne(read, before, op, sid);
      StepAssigns(RunFrom(read, before), op, sid);
    }
  }

  /** With any operations between the read and the save, the two act as one finalise at the save exactly
      when none of them brings the session its onset and its last assignment is the one read. */
  lemma SplitFinishIsAtomicIff(read: Db, ops: seq<Op>, sid: int, state: State, deliveredMah: real)
    requires Untouched(read, ops, sid) && AssignmentFits(read, sid)
    ensures var mid, s := RunFrom(read, ops), read.sessions[sid];
            SplitFinish(read, mid, sid, state, deliveredMah) == Finished(mid, sid, state, deliveredMah).1 <==>
            (s.onset.None? ==> !BringsOnset(ops, sid)) && AssignmentAfterGap(read, ops, sid) == s.batteryId
  {
    SplitFinishNeedsSameRow(read, ops, sid, state, deliveredMah);
    OnsetAfterGap(read, ops, sid);
    AssignmentIsTheLastGiven(read, ops, sid);
  }

  /** Nothing in the gap ends the session's run. */
  predicate RunsOn(ops: seq<Op>, sid: int) {
    forall k | 0 <= k < |ops| :: !ops[k].FailOrphans? && !(ops[k].Finish? && ops[k].sid == sid)
  }

  lemma {:induction false} RunningIsNotMoved(read: Db, ops: seq<Op>, sid: int)
    requires Untouched(read, ops, sid) && read.sessions[sid].state.Running? && RunsOn(ops, sid)
    ensures var mid := RunFrom(read, ops); sid in mid.sessions && mid.sessions[sid].state.Running?
    decreases |ops|
  {
    if ops != [] { RunningIsNotMoved(read, ops[..|ops| - 1], sid); }
  }

  /** A run that finalises its own session: the two statements act as one exactly when, in between, no
      onset arrives that is still missing and the session's battery is not deleted. */
  lemma RunningFinishIsAtomicIff(read: Db, ops: seq<Op>, sid: int, state: State, deliveredMah: real)
    requires Untouched(read, ops, sid) && AssignmentFits(read, sid)
    requires read.sessions[sid].state.Running? && RunsOn(ops, sid)
    ensures var mid, s := RunFrom(read, ops), read.sessions[sid];
            SplitFinish(read, mid, sid, state, deliveredMah) == Finished(mid, sid, state, deliveredMah).1 <==>
            (s.onset.None? ==> !BringsOnset(ops, sid)) && (s.batteryId != 0 ==> DeleteBattery(s.batteryId) !in ops)
  {
    SplitFinishIsAtomicIff(read, ops, sid, state, deliveredMah);
    var k := LastMove(read, ops, sid);
    if k >= 0 {
      RunningIsNotMoved(read, ops[..k], sid);
      assert false;
    }
  }

  /** A battery deleted in the gap leaves the saved session assigned to nothing; the save keeps the
      assignments in order exactly when the battery read is still there. */
  lemma SplitFinishKeepsInvIff(read: Db, mid: Db, sid: int, state: State, deliveredMah: real)
    requires sid in read.sessions && Inv(mid)
    ensures Inv(SplitFinish(read, mid, sid, state, deliveredMah)) <==>
            var s := read.sessions[sid];
            s.batteryId == 0 || (s.batteryId in mid.batteries && Fits(s, mid.batteries[s.batteryId]))
  {
    var db' := SplitFinish(read, mid, sid, state, deliveredMah);
    forall k | k in db'.sessions && k != sid ensures AssignmentFits(db', k) {
      assert AssignmentFits(mid, k);
    }
    assert Inv(db') ==> AssignmentFits(db', sid);
  }

  /** The operations of the gap are admissible one after another, and no battery key comes back. */
  predicate OrderlyGap(read: Db, ops: seq<Op>, bid: int) {
    forall k: nat | k < |ops| :: AdmissibleAt(read, ops, bid, k)
  }

  predicate AdmissibleAt(read: Db, ops: seq<Op>, bid: int, k: nat)
    requires k < |ops|
  {
    Admissible(RunFrom(read, ops[..k]), ops[k]) && !(ops[k].CreateBattery? && ops[k].bid == bid)
  }

  lemma OrderlyBefore(read: Db, ops: seq<Op>, bid: int, n: nat)
    requires n < |ops| && OrderlyGap(read, ops, bid)
    ensures OrderlyGap(read, ops[..n], bid) && AdmissibleAt(read, ops, bid, n)
  {
    forall k: nat | k < n ensures AdmissibleAt(read, ops[..n], bid, k) {
      assert AdmissibleAt(read, ops, bid, k);
      assert ops[..n][..k] == ops[..k];
    }
  }

  /** The battery is there, still of its chemistry and cell count. */
  predicate Stays(db: Db, bid: int, b: Battery) {
    bid in db.batteries && db.batteries[bid].chemistry == b.chemistry && db.batteries[bid].cells == b.cells
  }

  lemma StepKeepsBattery(db: Db, op: Op, bid: int, b: Battery)
    requires !(op.CreateBattery? && op.bid == bid)
    ensures Stays(db, bid, b) && op != DeleteBattery(bid) ==> Stays(Applied(db, op).1, bid, b)
    ensures bid !in db.batteries || op == DeleteBattery(bid) ==> bid !in Applied(db, op).1.batteries
  {
  }

  lemma {:induction false} BatteryAfterGap(read: Db, ops: seq<Op>, bid: int)
    requires Inv(read) && OrderlyGap(read, ops, bid) && bid in read.batteries
    ensures Inv(RunFrom(read, ops))
    ensures if DeleteBattery(bid) in ops then bid !in RunFrom(read, ops).batteries
            else Stays(RunFrom(read, ops), bid, read.batteries[bid])
    decreases |ops|
  {
    if ops != [] {
      var n := |ops| - 1;
      OrderlyBefore(read, ops, bid, n);
      BatteryAfterGap(read, ops[..n], bid);
      StepKeepsInv(RunFrom(read, ops[..n]), ops[n]);
      StepKeepsBattery(RunFrom(read, ops[..n]), ops[n], bid, read.batteries[bid]);
      assert ops == ops[..n] + [ops[n]];
    }
  }

  /** So the save leaves every assignment in order exactly when the session was unassigned at the read or
      its battery is not deleted in the gap. */
  lemma GapKeepsInvIff(read: Db, ops: seq<Op>, sid: int, state: State, deliveredMah: real)
    requires Inv(read) && sid in read.sessions && read.sessions[sid].batteryId != 0
    requires OrderlyGap(read, ops, read.sessions[sid].batteryId)
    ensures Inv(SplitFinish(read, RunFrom(read, ops), sid, state, deliveredMah)) <==>
            DeleteBattery(read.sessions[sid].batteryId) !in ops
  {
    assert AssignmentFits(read, sid);
    BatteryAfterGap(read, ops, read.sessions[sid].batteryId);
    SplitFinishKeepsInvIff(read, RunFrom(read, ops), sid, state, deliveredMah);
  }

  // --- both losses, from the empty store ---

  lemma RunOne(before: seq<Op>, op: Op)
    ensures Run(before + [op]) == Applied(Run(before), op).1
    ensures Orderly(before + [op]) <==> Orderly(before) && Admissible(Run(before), op)
  {
    assert (before + [op])[..|before|] == before;
  }

  /** A battery and a run charging it. */
  lemma ChargingStore(b: Battery, volts: real) returns (ops: seq<Op>)
    ensures ops == [CreateBattery(1, b), Begin(1, b.chemistry, b.cells, Some(volts), 1)] && Orderly(ops)
    ensures Run(ops) == Db(map[1 := Session(b.chemistry, b.cells, Some(volts), None, 1, Running, 0.0)], map[1 := b])
  {
    var create, begin := CreateBattery(1, b), Begin(1, b.chemistry, b.cells, Some(volts), 1);
    RunOne([], create);
    RunOne([create], begin);
    assert [] + [create] == [create];
    ops := [create] + [begin];
  }

  /** The onset that arrives between the read and the save is stored and then overwritten with nothing. */
  lemma OnsetInTheGapIsLost(b: Battery, volts: real, onset: Onset, mah: real) returns (ops: seq<Op>)
    ensures Orderly(ops) && 1 in Run(ops).sessions
    ensures var mid := RunFrom(Run(ops), [RecordOnset(1, onset)]);
            && 1 in mid.sessions && mid.sessions[1].onset == Some(onset)
            && SplitFinish(Run(ops), mid, 1, Completed, mah).sessions[1].onset.None?
  {
    ops := ChargingStore(b, volts);
    assert [RecordOnset(1, onset)][..0] == [];
  }

  /** The battery deleted between the read and the save leaves the saved session assigned to nothing. */
  lemma DeletedBatteryComesBack(b: Battery, volts: real, mah: real) returns (ops: seq<Op>)
    ensures Orderly(ops) && 1 in Run(ops).sessions
    ensures var mid := RunFrom(Run(ops), [DeleteBattery(1)]);
            var saved := SplitFinish(Run(ops), mid, 1, Completed, mah);
            Inv(mid) && !Inv(saved) && saved.sessions[1].batteryId == 1 && 1 !in saved.batteries
  {
    ops := ChargingStore(b, volts);
    assert [DeleteBattery(1)][..0] == [];
    var mid := RunFrom(Run(ops), [DeleteBattery(1)]);
    assert !AssignmentFits(SplitFinish(Run(ops), mid, 1, Completed, mah), 1);
  }

  // --- what a session shows in the end ---

  /** State and delivered charge after the operations from k on: those of the last finalise; a running
      session is failed by the clean-up at boot. */
  function ResultSince(ops: seq<Op>, sid: int, k: nat): (State, real)
    requires k <= |ops|
    decreases |ops|
  {
    if k == |ops| then (Running, 0.0)
    else
      var (state, mah), op := ResultSince(ops[..|ops| - 1], sid, k), ops[|ops| - 1];
      if op.Finish? && op.sid == sid then (op.state, op.deliveredMah)
      else if op.FailOrphans? && state.Running? then (Failed, mah)
      else (state, mah)
  }

  lemma StepSetsResult(db: Db, op: Op, sid: int)
    requires sid in db.sessions && !(op.Begin? && op.sid == sid)
    ensures var db', s := Applied(db, op).1, db.sessions[sid];
            sid in db'.sessions && (db'.sessions[sid].state, db'.sessions[sid].deliveredMah) ==
              if op.Finish? && op.sid == sid then (op.state, op.deliveredMah)
              else if op.FailOrphans? && s.state.Running? then (Failed, s.deliveredMah)
              else (s.state, s.deliveredMah)
  {
  }

  lemma {:induction false} ResultIsLastGiven(ops: seq<Op>, k: nat)
    requires Orderly(ops) && k < |ops| && ops[k].Begin?
    ensures var sid := ops[k].sid;
            sid in Run(ops).sessions
            && (Run(ops).sessions[sid].state, Run(ops).sessions[sid].deliveredMah) == ResultSince(ops, sid, k + 1)
    decreases |ops|
  {
    if k < |ops| - 1 {
      var before := ops[..|ops| - 1];
      assert before[k] == ops[k];
      ResultIsLastGiven(before, k);
      StepSetsResult(Run(before), ops[|ops| - 1], ops[k].sid);
    }
  }

  /** An assignment succeeds exactly for a known session that is not running, if a battery is named one that
      exists and has its chemistry and cell count. */
  lemma AssignmentSucceedsIff(db: Db, sid: int, bid: int)
    ensures Assigned(db, sid, bid).0.Ok? <==>
            && sid in db.sessions && !db.sessions[sid].state.Running?
            && (bid > 0 ==> bid in db.batteries && db.batteries[bid].chemistry == db.sessions[sid].chemistry
                            && db.batteries[bid].cells == db.sessions[sid].cells)
    ensures !Assigned(db, sid, bid).0.Ok? ==> Assigned(db, sid, bid).1 == db
  {
  }

  /** A battery is there from its creation until its deletion, with the chemistry and the cell count it was
      created with, and the rated capacity it was given last. */
  function RatedSince(ops: seq<Op>, bid: int, k: nat, rated: real, chemistry: string, cells: int): real
    requires k <= |ops|
    decreases |ops|
  {
    if k == |ops| then rated
    else
      var before, op := RatedSince(ops[..|ops| - 1], bid, k, rated, chemistry, cells), ops[|ops| - 1];
      if op.UpdateBattery? && op.bid == bid && op.newRated.Some?
         && (op.newChemistry.None? || op.newChemistry == Some(chemistry))
         && (op.newCells.None? || op.newCells == Some(cells))
      then op.newRated.value else before
  }

  lemma {:induction false} BatteryIsLastGiven(ops: seq<Op>, k: nat)
    requires Orderly(ops) && k < |ops| && ops[k].CreateBattery?
    requires forall j | k < j < |ops| :: ops[j] != DeleteBattery(ops[k].bid)
    ensures var bid, b := ops[k].bid, ops[k].battery;
            bid in Run(ops).batteries && Run(ops).batteries[bid] ==
              Battery(b.chemistry, b.cells, RatedSince(ops, bid, k + 1, b.ratedMah, b.chemistry, b.cells))
    decreases |ops|
  {
    if k < |ops| - 1 {
      var before := ops[..|ops| - 1];
      assert before[k] == ops[k];
      BatteryIsLastGiven(before, k);
    }
  }
}
