/** The library of characterised components: sweeps are assigned to components, and a component may
    pin one of its sweeps as reference. Every operation is one transaction over two tables. */
module IVLibrary {
  import opened Prelude

  datatype State = Running | Completed | Stopped | Aborted | Failed

  /** `kind` is the component type the sweep was traced for; componentId 0 is unassigned. */
  datatype Sweep = Sweep(kind: string, state: State, startedAt: int, componentId: int)

  /** ref 0 means that no sweep is pinned. */
  datatype Component = Component(kind: string, ref: int)

  datatype Db = Db(sweeps: map<int, Sweep>, components: map<int, Component>)

  datatype Outcome = Ok | NotFound | Invalid | SweepRunning

  predicate Accepts(kind: string, sweepKind: string) {
    kind == "generic" || kind == sweepKind
  }

  // --- the reference fix-up ---

  predicate IsMember(db: Db, id: int, cid: int) {
    id in db.sweeps && db.sweeps[id].componentId == cid && db.sweeps[id].state.Completed?
  }

  /** Later started, and of two started together the one with the larger id. */
  predicate Newer(db: Db, a: int, b: int)
    requires a in db.sweeps && b in db.sweeps
  {
    var s, t := db.sweeps[a].startedAt, db.sweeps[b].startedAt;
    s > t || (s == t && a >= b)
  }

  ghost predicate IsNewest(db: Db, id: int, among: set<int>)
    requires among <= db.sweeps.Keys
  {
    && id in among
    && forall m | m in among ::
         db.sweeps[m].startedAt < db.sweeps[id].startedAt
         || (db.sweeps[m].startedAt == db.sweeps[id].startedAt && m <= id)
  }

  lemma PickNewest(db: Db, among: set<int>) returns (newest: int)
    requires among != {} && among <= db.sweeps.Keys
    ensures IsNewest(db, newest, among)
  {
    EmptyOrNot(among);
    newest :| newest in among;
    if among != {newest} {
      var rest := among - {newest};
      assert among == rest + {newest};
      var n := PickNewest(db, rest);
      if !Newer(db, newest, n) { newest := n; }
    }
  }

  lemma NewestExists(db: Db, among: set<int>)
    requires among != {} && among <= db.sweeps.Keys
    ensures exists id :: IsNewest(db, id, among)
  {
    var newest := PickNewest(db, among);
  }

  function Members(db: Db, cid: int): (ids: set<int>)
    ensures ids <= db.sweeps.Keys && forall id :: id in ids <==> IsMember(db, id, cid)
  {
    set id | id in db.sweeps && IsMember(db, id, cid)
  }

  /** The newest completed member, or 0. */
  function NewestMember(db: Db, cid: int): (ref: int)
    ensures if Members(db, cid) == {} then ref == 0 else IsNewest(db, ref, Members(db, cid))
  {
    var ids := Members(db, cid);
    if ids == {} then 0
    else
      NewestExists(db, ids);
      var id :| id in ids && forall m | m in ids :: Newer(db, id, m);
      id
  }

  function WithRef(db: Db, cid: int, ref: int): Db
    requires cid in db.components
  {
    db.(components := db.components[cid := db.components[cid].(ref := ref)])
  }

  function WithComponentId(db: Db, sid: int, cid: int): Db
    requires sid in db.sweeps
  {
    db.(sweeps := db.sweeps[sid := db.sweeps[sid].(componentId := cid)])
  }

  /** A pin that no longer names a completed member moves to the newest one, or is dropped. */
  function Refixed(db: Db, cid: int): Db {
    if cid !in db.components then db
    else if db.components[cid].ref != 0 && IsMember(db, db.components[cid].ref, cid) then db
    else WithRef(db, cid, NewestMember(db, cid))
  }

  // --- the operations ---

  datatype Op =
    | CreateSweep(sid: int, kind: string, startedAt: int)
    | FinishSweep(sid: int, state: State)
    | FailOrphans
    | CreateComponent(cid: int, kind: string)
    | UpdateComponent(cid: int, newKind: Option<string>, setRef: bool, ref: int)
    | DeleteComponent(cid: int)
    | Assign(sid: int, cid: int)
    | DeleteSweep(sid: int)

  function PinAllowed(db: Db, cid: int, ref: int): bool
    requires cid in db.components
  {
    IsMember(db, ref, cid) && Accepts(db.components[cid].kind, db.sweeps[ref].kind)
  }

  function Updated(db: Db, cid: int, newKind: Option<string>, setRef: bool, ref: int): (Outcome, Db) {
    if cid !in db.components then (NotFound, db)
    else if newKind.Some? && newKind.value != db.components[cid].kind then (Invalid, db)
    else if !setRef then (Ok, db)
    else if ref != 0 && !PinAllowed(db, cid, ref) then (Invalid, db)
    else (Ok, WithRef(db, cid, ref))
  }

  function Unassigned(db: Db, cid: int): Db {
    db.(sweeps := map id | id in db.sweeps ::
      if db.sweeps[id].componentId == cid then db.sweeps[id].(componentId := 0) else db.sweeps[id])
  }

  function ComponentDeleted(db: Db, cid: int): (Outcome, Db) {
    if cid !in db.components then (NotFound, db)
    else (Ok, Unassigned(db, cid).(components := db.components - {cid}))
  }

  /** The assignment itself, before the fix-up of the component that is left; any id that is not
      positive unassigns. */
  function Moved(db: Db, sid: int, cid: int): Db
    requires sid in db.sweeps && (cid > 0 ==> cid in db.components)
  {
    if cid <= 0 then WithComponentId(db, sid, 0)
    else
      var moved := WithComponentId(db, sid, cid);
      if db.components[cid].ref == 0 then WithRef(moved, cid, sid) else moved
  }

  function Assigned(db: Db, sid: int, cid: int): (Outcome, Db) {
    if sid !in db.sweeps then (NotFound, db)
    else if cid > 0 && (cid !in db.components || !db.sweeps[sid].state.Completed?
                        || !Accepts(db.components[cid].kind, db.sweeps[sid].kind)) then (Invalid, db)
    else
      var was := db.sweeps[sid].componentId;
      (Ok, if was != 0 && was != cid then Refixed(Moved(db, sid, cid), was) else Moved(db, sid, cid))
  }

  function SweepDeleted(db: Db, sid: int): (Outcome, Db) {
    if sid !in db.sweeps then (NotFound, db)
    else if db.sweeps[sid].state.Running? then (SweepRunning, db)
    else
      var was, rest := db.sweeps[sid].componentId, db.(sweeps := db.sweeps - {sid});
      (Ok, if was != 0 then Refixed(rest, was) else rest)
  }

  function OrphansFailed(db: Db): Db {
    db.(sweeps := map id | id in db.sweeps ::
      if db.sweeps[id].state.Running? then db.sweeps[id].(state := Failed) else db.sweeps[id])
  }

  function Applied(db: Db, op: Op): (Outcome, Db) {
    match op
    case CreateSweep(sid, kind, startedAt) => (Ok, db.(sweeps := db.sweeps[sid := Sweep(kind, Running, startedAt, 0)]))
    case FinishSweep(sid, state) =>
      if sid !in db.sweeps then (NotFound, db)
      else (Ok, db.(sweeps := db.sweeps[sid := db.sweeps[sid].(state := state)]))
    case FailOrphans => (Ok, OrphansFailed(db))
    case CreateComponent(cid, kind) => (Ok, db.(components := db.components[cid := Component(kind, 0)]))
    case UpdateComponent(cid, newKind, setRef, ref) => Updated(db, cid, newKind, setRef, ref)
    case DeleteComponent(cid) => ComponentDeleted(db, cid)
    case Assign(sid, cid) => Assigned(db, sid, cid)
    case DeleteSweep(sid) => SweepDeleted(db, sid)
  }

  /** New rows get fresh positive keys, and only a run that is still running is finalised. */
  predicate Admissible(db: Db, op: Op) {
    match op
    case CreateSweep(sid, _, _) => sid > 0 && sid !in db.sweeps
    case CreateComponent(cid, _) => cid > 0 && cid !in db.components
    case FinishSweep(sid, _) => sid in db.sweeps ==> db.sweeps[sid].state.Running?
    case _ => true
  }

  class Library {
    var sweeps: map<int, Sweep>
    var components: map<int, Component>

    ghost function Tables(): Db reads this { Db(sweeps, components) }

    constructor ()
      ensures Tables() == Db(map[], map[])
    {
      sweeps, components := map[], map[];
    }

    method RefixComponentRef(cid: int)
      modifies this`components
      ensures Tables() == Refixed(old(Tables()), cid)
    {
      if cid !in components { return; }
      var comp := components[cid];
      if comp.ref != 0 {
        if comp.ref in sweeps && sweeps[comp.ref].componentId == cid && sweeps[comp.ref].state.Completed? { return; }
      }
      var newRef := NewestMember(Db(sweeps, components), cid);
      if newRef == comp.ref {
        assert components == components[cid := comp];
        return;
      }
      components := components[cid := comp.(ref := newRef)];
    }

    method AssignSweepComponent(sid: int, cid: int) returns (o: Outcome)
      modifies this
      ensures (o, Tables()) == Assigned(old(Tables()), sid, cid)
    {
      if sid !in sweeps { return NotFound; }
      var sweep := sweeps[sid];
      var oldComp := sweep.componentId;
      if cid > 0 {
        if cid !in components { return Invalid; }
        var comp := components[cid];
        if !sweep.state.Completed? { return Invalid; }
        if !Accepts(comp.kind, sweep.kind) { return Invalid; }
        sweeps := sweeps[sid := sweep.(componentId := cid)];
        if comp.ref == 0 {
          components := components[cid := comp.(ref := sid)];
        }
      } else {
        sweeps := sweeps[sid := sweep.(componentId := 0)];
      }
      if oldComp != 0 && oldComp != cid {
        RefixComponentRef(oldComp);
      }
      o := Ok;
    }

    method RemoveSweep(sid: int) returns (o: Outcome)
      modifies this
      ensures (o, Tables()) == SweepDeleted(old(Tables()), sid)
    {
      if sid !in sweeps { return NotFound; }
      var sweep := sweeps[sid];
      if sweep.state.Running? { return SweepRunning; }
      sweeps := sweeps - {sid};
      if sweep.componentId != 0 {
        RefixComponentRef(sweep.componentId);
      }
      o := Ok;
    }

    method UpdateIVComponent(cid: int, newKind: Option<string>, setRef: bool, ref: int) returns (o: Outcome)
      modifies this`components
      ensures (o, Tables()) == Updated(old(Tables()), cid, newKind, setRef, ref)
    {
      if cid !in components { return NotFound; }
      var comp := components[cid];
      if newKind.Some? && newKind.value != comp.kind { return Invalid; }
      if setRef {
        if ref != 0 {
          var valid := ValidateRefPin(cid, ref);
          if !valid { return Invalid; }
        }
        comp := comp.(ref := ref);
      }
      assert !setRef ==> components == components[cid := comp];
      components := components[cid := comp];
      o := Ok;
    }

    method ValidateRefPin(cid: int, ref: int) returns (valid: bool)
      requires cid in components
      ensures valid == PinAllowed(Tables(), cid, ref)
    {
      if ref !in sweeps { return false; }
      if sweeps[ref].componentId != cid { return false; }
      if !sweeps[ref].state.Completed? { return false; }
      valid := Accepts(components[cid].kind, sweeps[ref].kind);
    }

    method CreateIVSweep(sid: int, kind: string, startedAt: int)
      modifies this`sweeps
      ensures Tables() == Applied(old(Tables()), Op.CreateSweep(sid, kind, startedAt)).1
    {
      sweeps := sweeps[sid := Sweep(kind, Running, startedAt, 0)];
    }

    /** Saves the terminal state and keeps the assignment of the stored row. */
    method UpdateIVSweep(sid: int, state: State) returns (o: Outcome)
      modifies this`sweeps
      ensures (o, Tables()) == Applied(old(Tables()), FinishSweep(sid, state))
    {
      if sid !in sweeps { return NotFound; }
      var existing := sweeps[sid];
      sweeps := sweeps[sid := Sweep(existing.kind, state, existing.startedAt, existing.componentId)];
      o := Ok;
    }

    method MarkRunningIVSweepsFailed()
      modifies this`sweeps
      ensures Tables() == OrphansFailed(old(Tables()))
    {
      sweeps := map id | id in sweeps :: if sweeps[id].state.Running? then sweeps[id].(state := Failed) else sweeps[id];
    }

    method CreateIVComponent(cid: int, kind: string)
      modifies this`components
      ensures Tables() == Applied(old(Tables()), Op.CreateComponent(cid, kind)).1
    {
      components := components[cid := Component(kind, 0)];
    }

    method DeleteIVComponent(cid: int) returns (o: Outcome)
      modifies this
      ensures (o, Tables()) == ComponentDeleted(old(Tables()), cid)
    {
      if cid !in components { return NotFound; }
      sweeps := map id | id in sweeps ::
        if sweeps[id].componentId == cid then sweeps[id].(componentId := 0) else sweeps[id];
      components := components - {cid};
      o := Ok;
    }
  }

  // --- what every operation keeps ---

  ghost predicate SweepFits(db: Db, id: int)
    requires id in db.sweeps
  {
    var s := db.sweeps[id];
    s.componentId != 0 ==>
      s.componentId in db.components && s.state.Completed? && Accepts(db.components[s.componentId].kind, s.kind)
  }

  ghost predicate RefFits(db: Db, cid: int)
    requires cid in db.components
  {
    var ref := db.components[cid].ref;
    ref != 0 ==> ref in db.sweeps && db.sweeps[ref].componentId == cid
  }

  ghost predicate KeysPositive(db: Db) {
    (forall id | id in db.sweeps :: id > 0) && (forall cid | cid in db.components :: cid > 0)
  }

  ghost predicate SweepsFit(db: Db) {
    forall id | id in db.sweeps :: SweepFits(db, id)
  }

  ghost predicate RefsFit(db: Db) {
    forall cid | cid in db.components :: RefFits(db, cid)
  }

  /** Every assigned sweep is completed and fits the kind of an existing component, and every
      reference names a sweep of its component. */
  ghost predicate Inv(db: Db) {
    KeysPositive(db) && SweepsFit(db) && RefsFit(db)
  }

  /** All references but one are in order; the fix-up mends that one. */
  ghost predicate RefsFitBut(db: Db, cid: int) {
    forall c | c in db.components && c != cid :: RefFits(db, c)
  }

  lemma RefixRestores(db: Db, cid: int)
    requires KeysPositive(db) && SweepsFit(db) && RefsFitBut(db, cid) && cid != 0
    ensures Inv(Refixed(db, cid))
  {
    var db' := Refixed(db, cid);
    assert forall id | id in db'.sweeps :: SweepFits(db, id) ==> SweepFits(db', id);
    forall c | c in db'.components ensures RefFits(db', c) {
      if c != cid { assert RefFits(db, c); }
    }
  }

  lemma MoveKeeps(db: Db, sid: int, cid: int)
    requires Inv(db) && Assigned(db, sid, cid).0.Ok?
    ensures var db' := Moved(db, sid, cid);
            KeysPositive(db') && SweepsFit(db') && RefsFitBut(db', db.sweeps[sid].componentId)
    ensures var was := db.sweeps[sid].componentId; was == 0 || was == cid ==> RefsFit(Moved(db, sid, cid))
  {
    var db', was := Moved(db, sid, cid), db.sweeps[sid].componentId;
    forall id | id in db'.sweeps ensures SweepFits(db', id) { assert SweepFits(db, id); }
    forall c | c in db'.components && (c != was || was == cid) ensures RefFits(db', c) { assert RefFits(db, c); }
  }

  lemma AssignKeepsInv(db: Db, sid: int, cid: int)
    requires Inv(db)
    ensures Inv(Assigned(db, sid, cid).1)
  {
    if Assigned(db, sid, cid).0.Ok? {
      var was := db.sweeps[sid].componentId;
      MoveKeeps(db, sid, cid);
      if was != 0 && was != cid { RefixRestores(Moved(db, sid, cid), was); }
    }
  }

  lemma DeleteSweepKeepsInv(db: Db, sid: int)
    requires Inv(db)
    ensures Inv(SweepDeleted(db, sid).1)
  {
    if SweepDeleted(db, sid).0.Ok? {
      var was, rest := db.sweeps[sid].componentId, db.(sweeps := db.sweeps - {sid});
      forall id | id in rest.sweeps ensures SweepFits(rest, id) { assert SweepFits(db, id); }
      forall c | c in rest.components && c != was ensures RefFits(rest, c) { assert RefFits(db, c); }
      if was != 0 { RefixRestores(rest, was); }
    }
  }

  lemma UpdateKeepsInv(db: Db, cid: int, newKind: Option<string>, setRef: bool, ref: int)
    requires Inv(db)
    ensures Inv(Updated(db, cid, newKind, setRef, ref).1)
  {
    var db' := Updated(db, cid, newKind, setRef, ref).1;
    forall id | id in db'.sweeps ensures SweepFits(db', id) { assert SweepFits(db, id); }
    forall c | c in db'.components ensures RefFits(db', c) { assert RefFits(db, c); }
  }

  lemma DeleteComponentKeepsInv(db: Db, cid: int)
    requires Inv(db)
    ensures Inv(ComponentDeleted(db, cid).1)
  {
    var db' := ComponentDeleted(db, cid).1;
    forall id | id in db'.sweeps ensures SweepFits(db', id) { assert SweepFits(db, id); }
    forall c | c in db'.components ensures RefFits(db', c) { assert RefFits(db, c); }
  }

  /** Finalising a row keeps the invariant exactly when the row is unassigned or ends completed; a
      running row is always unassigned. */
  lemma FinishKeepsInvIff(db: Db, sid: int, state: State)
    requires Inv(db) && sid in db.sweeps
    ensures Inv(Applied(db, FinishSweep(sid, state)).1) <==> db.sweeps[sid].componentId == 0 || state.Completed?
    ensures db.sweeps[sid].state.Running? ==> db.sweeps[sid].componentId == 0
  {
    var db' := Applied(db, FinishSweep(sid, state)).1;
    assert SweepFits(db, sid);
    if db.sweeps[sid].componentId == 0 || state.Completed? {
      forall id | id in db'.sweeps ensures SweepFits(db', id) { assert SweepFits(db, id); }
      forall c | c in db'.components ensures RefFits(db', c) { assert RefFits(db, c); }
    } else {
      assert !SweepFits(db', sid);
    }
  }

  lemma RowChangesKeepInv(db: Db, op: Op)
    requires Inv(db) && Admissible(db, op) && (op.CreateSweep? || op.CreateComponent? || op.FailOrphans?)
    ensures Inv(Applied(db, op).1)
  {
    var db' := Applied(db, op).1;
    forall id | id in db'.sweeps ensures SweepFits(db', id) {
      if id in db.sweeps { assert SweepFits(db, id); }
    }
    forall c | c in db'.components ensures RefFits(db', c) {
      if c in db.components { assert RefFits(db, c); }
    }
  }

  lemma StepKeepsInv(db: Db, op: Op)
    requires Inv(db) && Admissible(db, op)
    ensures Inv(Applied(db, op).1)
  {
    match op
    case Assign(sid, cid) => AssignKeepsInv(db, sid, cid);
    case DeleteSweep(sid) => DeleteSweepKeepsInv(db, sid);
    case UpdateComponent(cid, newKind, setRef, ref) => UpdateKeepsInv(db, cid, newKind, setRef, ref);
    case DeleteComponent(cid) => DeleteComponentKeepsInv(db, cid);
    case FinishSweep(sid, state) => if sid in db.sweeps { FinishKeepsInvIff(db, sid, state); }
    case _ => RowChangesKeepInv(db, op);
  }

  // --- whole histories ---

  function Run(ops: seq<Op>): Db {
    if ops == [] then Db(map[], map[]) else Applied(Run(ops[..|ops| - 1]), ops[|ops| - 1]).1
  }

  predicate Orderly(ops: seq<Op>) {
    ops == [] || (Orderly(ops[..|ops| - 1]) && Admissible(Run(ops[..|ops| - 1]), ops[|ops| - 1]))
  }

  lemma {:induction false} HistoryKeepsInv(ops: seq<Op>)
    requires Orderly(ops)
    ensures Inv(Run(ops))
  {
    if ops != [] {
      HistoryKeepsInv(ops[..|ops| - 1]);
      StepKeepsInv(Run(ops[..|ops| - 1]), ops[|ops| - 1]);
    }
  }

  /** After any series of operations every non-zero reference would pass the pin validation again:
      it names a completed sweep of the component whose type fits, though the fix-up checks no type. */
  lemma ReferencesStayValid(ops: seq<Op>, cid: int)
    requires Orderly(ops) && cid in Run(ops).components
    ensures var db := Run(ops); db.components[cid].ref == 0 || PinAllowed(db, cid, db.components[cid].ref)
  {
    var db := Run(ops);
    HistoryKeepsInv(ops);
    assert RefFits(db, cid);
    if db.components[cid].ref != 0 { assert SweepFits(db, db.components[cid].ref); }
  }

  // --- where a reference goes ---

  /** A sweep leaves a component, by reassignment or deletion. */
  predicate Leaves(db: Db, op: Op, sid: int, cid: int) {
    && sid in db.sweeps && db.sweeps[sid].componentId == cid && cid != 0
    && (op == DeleteSweep(sid) || (op.Assign? && op.sid == sid && op.cid != cid))
    && Applied(db, op).0.Ok?
  }

  /** The component left keeps its reference if that is another sweep; a stranded or missing reference
      goes to the newest remaining member, and is 0 exactly when none remains. All other references
      stay, except that a component joined without one takes the sweep. */
  lemma ReferenceAfterLeaving(db: Db, op: Op, sid: int, cid: int, c: int)
    requires Inv(db) && Leaves(db, op, sid, cid) && c in db.components
    ensures var db' := Applied(db, op).1; var was := db.components[c].ref;
            c in db'.components &&
            var ref := db'.components[c].ref;
            if c == cid then
              if was != 0 && was != sid then ref == was
              else && (ref == 0 <==> Members(db', cid) == {})
                   && (ref != 0 ==> IsNewest(db', ref, Members(db', cid)))
            else if op.Assign? && op.cid == c && was == 0 then ref == sid
            else ref == was
    ensures Members(Applied(db, op).1, cid) == Members(db, cid) - {sid}
  {
    assert SweepFits(db, sid) && RefFits(db, c);
    var mid := if op.Assign? then Moved(db, sid, op.cid) else db.(sweeps := db.sweeps - {sid});
    assert Applied(db, op).1 == Refixed(mid, cid);
    assert Members(mid, cid) == Members(db, cid) - {sid};
    MembersIgnoreRefs(mid, Refixed(mid, cid), cid);
    if c == cid && db.components[c].ref != 0 && db.components[c].ref != sid {
      assert SweepFits(db, db.components[c].ref);
    }
  }

  lemma MembersIgnoreRefs(a: Db, b: Db, cid: int)
    requires a.sweeps == b.sweeps
    ensures Members(a, cid) == Members(b, cid)
    ensures forall id | id in a.sweeps && IsNewest(a, id, Members(a, cid)) :: IsNewest(b, id, Members(b, cid))
  {
    assert Members(a, cid) == Members(b, cid);
    forall id | id in a.sweeps && IsNewest(a, id, Members(a, cid)) ensures IsNewest(b, id, Members(b, cid)) {
      assert forall m | m in Members(b, cid) :: m in Members(a, cid) && b.sweeps[m] == a.sweeps[m];
    }
  }

  /** A reference the user cleared does not stay cleared: an unrelated member leaving pins another. */
  lemma ClearedReferenceComesBack(db: Db, op: Op, sid: int, cid: int)
    requires Inv(db) && Leaves(db, op, sid, cid) && cid in db.components
    requires db.components[cid].ref == 0
    ensures var db' := Applied(db, op).1;
            cid in db'.components && (db'.components[cid].ref != 0 <==> Members(db, cid) - {sid} != {})
  {
    ReferenceAfterLeaving(db, op, sid, cid, cid);
  }

  /** An assignment succeeds exactly for a known sweep that is unassigned, or that is completed and fits
      the component. It moves that sweep and no other, and pins it where nothing was pinned. */
  lemma AssignmentEffect(db: Db, sid: int, cid: int)
    requires Inv(db) && sid in db.sweeps
    ensures var (o, db') := Assigned(db, sid, cid);
            && (o.Ok? <==> cid <= 0 || (cid in db.components && db.sweeps[sid].state.Completed?
                                        && (db.components[cid].kind == "generic"
                                            || db.components[cid].kind == db.sweeps[sid].kind)))
            && (!o.Ok? ==> db' == db)
            && (o.Ok? ==> db'.sweeps == db.sweeps[sid := db.sweeps[sid].(componentId := if cid > 0 then cid else 0)])
            && (o.Ok? && cid > 0 ==>
                  db'.components[cid].ref == (if db.components[cid].ref == 0 then sid else db.components[cid].ref))
  {
    assert SweepFits(db, sid);
  }

  /** Deleting removes that sweep and changes no other; a running one cannot be deleted. */
  lemma DeletionEffect(db: Db, sid: int)
    requires Inv(db) && sid in db.sweeps
    ensures var (o, db') := SweepDeleted(db, sid);
            if db.sweeps[sid].state.Running? then o == SweepRunning && db' == db
            else o == Ok && db'.sweeps == db.sweeps - {sid} && db'.components.Keys == db.components.Keys
  {
  }

  /** Deleting a component deletes no sweep and changes only the assignment of its members. */
  lemma DeletedComponentFreesSweeps(db: Db, cid: int, id: int)
    requires Inv(db) && cid in db.components && id in db.sweeps
    ensures var db' := ComponentDeleted(db, cid).1;
            && id in db'.sweeps && db'.sweeps.Keys == db.sweeps.Keys && cid !in db'.components
            && db'.sweeps[id]
               == (if db.sweeps[id].componentId == cid then db.sweeps[id].(componentId := 0) else db.sweeps[id])
  {
  }

  /** An update succeeds exactly for a known component whose kind is not to change, with a pin that is none or
      names a completed member of a fitting kind. It sets the pin as asked and changes nothing else. */
  lemma UpdateEffect(db: Db, cid: int, newKind: Option<string>, setRef: bool, ref: int)
    ensures var (o, db') := Updated(db, cid, newKind, setRef, ref);
            && (o.Ok? <==>
                  && cid in db.components && (newKind.None? || newKind == Some(db.components[cid].kind))
                  && (setRef && ref != 0 ==>
                        && ref in db.sweeps && db.sweeps[ref].componentId == cid && db.sweeps[ref].state.Completed?
                        && (db.components[cid].kind == "generic" || db.components[cid].kind == db.sweeps[ref].kind)))
            && db'.sweeps == db.sweeps
            && (o.Ok? ==>
                  db'.components == if setRef then db.components[cid := Component(db.components[cid].kind, ref)]
                                    else db.components)
            && (!o.Ok? ==> db' == db)
  {
  }

  /** The state a sweep's run ends in: that of the first finalise, or Failed if the clean-up at boot comes
      first; until then it is running. */
  function StateSince(ops: seq<Op>, sid: int, k: nat): State
    requires k <= |ops|
    decreases |ops|
  {
    if k == |ops| then Running
    else
      var before, op := StateSince(ops[..|ops| - 1], sid, k), ops[|ops| - 1];
      if before != Running then before
      else if op.FinishSweep? && op.sid == sid then op.state
      else if op.FailOrphans? then Failed
      else Running
  }

  lemma StepSetsState(db: Db, op: Op, sid: int)
    requires Inv(db) && Admissible(db, op) && sid in db.sweeps && op != DeleteSweep(sid)
    ensures var db', was := Applied(db, op).1, db.sweeps[sid].state;
            sid in db'.sweeps && db'.sweeps[sid].state ==
              if !was.Running? then was else if op.FinishSweep? && op.sid == sid then op.state
              else if op.FailOrphans? then Failed else Running
  {
    match op
    case Assign(s, cid) => if s in db.sweeps { AssignmentEffect(db, s, cid); }
    case DeleteSweep(s) => if s in db.sweeps { DeletionEffect(db, s); }
    case DeleteComponent(cid) => if cid in db.components { DeletedComponentFreesSweeps(db, cid, sid); }
    case _ =>
  }

  /** From its creation on, as long as it is not deleted, a sweep is in exactly that state. */
  lemma {:induction false} StateIsFirstEnd(ops: seq<Op>, k: nat, sid: int)
    requires Orderly(ops) && k < |ops| && ops[k].CreateSweep? && ops[k].sid == sid
    requires forall j | k < j < |ops| :: ops[j] != DeleteSweep(sid)
    ensures sid in Run(ops).sweeps && Run(ops).sweeps[sid].state == StateSince(ops, sid, k + 1)
    ensures Run(ops).sweeps[sid].kind == ops[k].kind && Run(ops).sweeps[sid].startedAt == ops[k].startedAt
    decreases |ops|
  {
    if k < |ops| - 1 {
      var before, op := ops[..|ops| - 1], ops[|ops| - 1];
      assert before[k] == ops[k];
      StateIsFirstEnd(before, k, sid);
      HistoryKeepsInv(before);
      StepSetsState(Run(before), op, sid);
      StepKeepsTrace(Run(before), op, sid);
    }
  }

  /** A component keeps the kind it was created with until it is deleted. */
  lemma {:induction false} ComponentsSurvive(ops: seq<Op>, k: nat)
    requires Orderly(ops) && k < |ops| && ops[k].CreateComponent?
    requires forall j | k < j < |ops| :: ops[j] != DeleteComponent(ops[k].cid)
    ensures ops[k].cid in Run(ops).components && Run(ops).components[ops[k].cid].kind == ops[k].kind
    decreases |ops|
  {
    if k < |ops| - 1 {
      var before := ops[..|ops| - 1];
      assert before[k] == ops[k];
      ComponentsSurvive(before, k);
      StepKeepsComponent(Run(before), ops[|ops| - 1], ops[k].cid);
    }
  }

  lemma StepKeepsComponent(db: Db, op: Op, cid: int)
    requires Admissible(db, op) && cid in db.components && op != DeleteComponent(cid)
    ensures var db' := Applied(db, op).1;
            cid in db'.components && db'.components[cid].kind == db.components[cid].kind
  {
  }

  /** Same measurement: kind and start, and the state once the run has ended. */
  predicate SameTrace(a: Sweep, b: Sweep) {
    a.kind == b.kind && a.startedAt == b.startedAt && (!a.state.Running? ==> b.state == a.state)
  }

  lemma StepKeepsTrace(db: Db, op: Op, sid: int)
    requires Inv(db) && Admissible(db, op) && sid in db.sweeps && op != DeleteSweep(sid)
    ensures var db' := Applied(db, op).1; sid in db'.sweeps && SameTrace(db.sweeps[sid], db'.sweeps[sid])
  {
    match op
    case Assign(s, cid) => if s in db.sweeps { AssignmentEffect(db, s, cid); }
    case DeleteSweep(s) => if s in db.sweeps { DeletionEffect(db, s); }
    case DeleteComponent(cid) => if cid in db.components { DeletedComponentFreesSweeps(db, cid, sid); }
    case _ =>
  }

  /** Through every series of operations a sweep's row and its measurement stay until that sweep is
      deleted: no assignment, deletion of a component or of another sweep takes them away. */
  lemma {:induction false} SweepsSurvive(ops: seq<Op>, i: nat, sid: int)
    requires Orderly(ops) && i <= |ops| && sid in Run(ops[..i]).sweeps
    requires forall k | i <= k < |ops| :: ops[k] != DeleteSweep(sid)
    ensures sid in Run(ops).sweeps && SameTrace(Run(ops[..i]).sweeps[sid], Run(ops).sweeps[sid])
    decreases |ops|
  {
    if i == |ops| {
      assert ops[..i] == ops;
    } else {
      var before := ops[..|ops| - 1];
      assert before[..i] == ops[..i];
      SweepsSurvive(before, i, sid);
      HistoryKeepsInv(before);
      StepKeepsTrace(Run(before), ops[|ops| - 1], sid);
    }
  }

  // --- how the cleared reference comes back, from the empty library ---

  lemma OneMoreOp(before: seq<Op>, op: Op) returns (ops: seq<Op>)
    ensures ops == before + [op] && Run(ops) == Applied(Run(before), op).1
    ensures Orderly(ops) <==> Orderly(before) && Admissible(Run(before), op)
  {
    ops := before + [op];
    assert ops[..|before|] == before;
  }

  /** A completed sweep of the generic kind joins the library and component cid. */
  lemma TraceAndAssign(before: seq<Op>, sid: int, cid: int, at: int) returns (ops: seq<Op>)
    requires Orderly(before) && sid > 0 && sid !in Run(before).sweeps && cid > 0 && cid in Run(before).components
    requires Run(before).components[cid].kind == "generic"
    ensures Orderly(ops)
    ensures var was, db := Run(before), Run(ops);
      && db.sweeps == was.sweeps[sid := Sweep("generic", Completed, at, cid)]
      && db.components == was.components[cid := Component("generic",
           if was.components[cid].ref == 0 then sid else was.components[cid].ref)]
  {
    ops := OneMoreOp(before, Op.CreateSweep(sid, "generic", at));
    ops := OneMoreOp(ops, FinishSweep(sid, Completed));
    ops := OneMoreOp(ops, Assign(sid, cid));
  }

  /** Two sweeps are traced and assigned, the user clears the reference, the first sweep is deleted: the
      second is pinned. */
  lemma ClearedReferenceExample(first: int, second: int, cid: int, at: int) returns (ops: seq<Op>)
    requires 0 < first < second && 0 < cid
    ensures Orderly(ops + [DeleteSweep(first)])
    ensures cid in Run(ops).components && Run(ops).components[cid].ref == 0
    ensures var db := Run(ops + [DeleteSweep(first)]); cid in db.components && db.components[cid].ref == second
  {
    ops := OneMoreOp([], Op.CreateComponent(cid, "generic"));
    ops := TraceAndAssign(ops, first, cid, at);
    ops := TraceAndAssign(ops, second, cid, at);
    ops := OneMoreOp(ops, UpdateComponent(cid, None, true, 0));
    var db := Run(ops);
    var longer := OneMoreOp(ops, DeleteSweep(first));
    HistoryKeepsInv(ops);
    assert second in Members(db, cid) - {first};
    ClearedReferenceComesBack(db, DeleteSweep(first), first, cid);
    ReferenceAfterLeaving(db, DeleteSweep(first), first, cid, cid);
    assert Run(longer).components[cid].ref in Members(db, cid) - {first};
  }
}
