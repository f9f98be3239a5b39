/** The three run engines (sequence, charge, IV tracer) competing for one output interlock, as
    interleaved atomic steps of any number of concurrent calls. */
module RunProtocol {
  import opened Prelude
  import O = OutputInterlock

  datatype Engine = Sequence | Charge | IV

  /** A call: Start of a run, the charge pre-flight, or the boot-time cut of a stray output. */
  datatype Call = Start | Preflight | BootCut

  predicate Offered(e: Engine, c: Call) {
    match c
    case Start => true
    case Preflight => e == Charge
    case BootCut => e != Sequence
  }

  /** Where a call stands. */
  datatype Pc =
    | Entering              // about to Acquire (BootCut: about to look for an active run)
    | Armed                 // BootCut saw no active run, about to Acquire
    | Claimed               // Acquire won, active slot not yet re-checked
    | Checking              // link, measurement and pre-flight checks
    | Energising            // start order, ending in output-on
    | Cutting(tries: nat)   // SafeOutputOff outside a launched run
    | Publishing            // output on, about to set the active slot
    | Launching             // active set, about to spawn the run
    | Running
    | TurningOff(tries: nat) // SafeOutputOff of the launched run
    | Confirming            // waiting for a report that the output is off
    | Finishing(failed: bool) // about to clear the active slot; failed: output_off_failed
    | Cleared(failed: bool)   // about to release
    | Withdrawing           // sequence: output-on failed, about to clear the active slot
    | Releasing             // about to release without having launched a run
    | Ended

  datatype Thread = Thread(engine: Engine, call: Call, pc: Pc, cancelled: bool)

  /** What happened at the output and the interlock, in order. t is the acting call. */
  datatype Entry =
    | Acquired(t: nat, e: Engine)
    | On(t: nat, e: Engine, ok: bool)         // an output-on write and whether it succeeded
    | Off(t: nat, ok: bool)                   // SafeOutputOff returned
    | SeenOff(t: nat)                         // a report with the output off
    | Released(t: nat, e: Engine, launched: bool, failed: bool)
    | Clash(t: nat)                           // the active slot was taken after a won Acquire

  datatype Sys = Sys(owner: Option<Engine>, active: map<Engine, nat>, threads: map<nat, Thread>, log: seq<Entry>)

  const BOOT := Sys(None, map[], map[], [])

  /** How the environment answers a step: it succeeds, it fails, or it fails before the output-on
      write of a start order / brings a report that does not decide anything. */
  datatype Answer = Yes | No | Early

  datatype Action =
    | Spawn(t: nat, e: Engine, c: Call)
    | Advance(t: nat, answer: Answer)
    | Stop(e: Engine)

  /** What one step changes: the caller's place, the interlock, the active slots, and at most one entry. */
  datatype Effect = Effect(pc: Pc, owner: Option<Engine>, active: map<Engine, nat>, entry: Option<Entry>)
  {
    function Log(e: Entry): Effect { this.(entry := Some(e)) }
  }

  /** Acquire succeeds only on a free interlock. */
  function Acquire(x: Effect, t: nat, e: Engine, won: Pc): Effect {
    if x.owner.Some? then x.(pc := Ended)
    else x.(pc := won, owner := Some(e)).Log(Acquired(t, e))
  }

  /** Release frees the interlock only for the tag that holds it. */
  function Release(x: Effect, t: nat, e: Engine, launched: bool, failed: bool): Effect {
    x.(pc := Ended, owner := if x.owner == Some(e) then None else x.owner).Log(Released(t, e, launched, failed))
  }

  /** The tags under which the engines share the interlock. */
  function Tag(owner: Option<Engine>): string {
    match owner
    case None => O.FREE
    case Some(Sequence) => "sequence"
    case Some(Charge) => "charge"
    case Some(IV) => "iv"
  }

  /** The two steps are the interlock's own, under the engines' tags. */
  lemma StepsAreTheInterlocks(x: Effect, t: nat, e: Engine, won: Pc, launched: bool, failed: bool)
    ensures Tag(Acquire(x, t, e, won).owner) == O.OwnerAfterAcquire(Tag(x.owner), Tag(Some(e)))
    ensures Acquire(x, t, e, won).entry == Some(Acquired(t, e)) <== Tag(x.owner) == O.FREE
    ensures Tag(Release(x, t, e, launched, failed).owner) == O.OwnerAfterRelease(Tag(x.owner), Tag(Some(e)))
  {
  }

  function ClearActive(x: Effect, t: nat, e: Engine): Effect {
    if e in x.active && x.active[e] == t then x.(active := x.active - {e}) else x
  }

  /** One atomic step of call t. */
  function Act(owner: Option<Engine>, active: map<Engine, nat>, t: nat, th: Thread, answer: Answer): Effect {
    var e := th.engine;
    var x := Effect(th.pc, owner, active, None);
    match th.pc
    case Entering =>
      if th.call.BootCut? then x.(pc := if e in active || !answer.Yes? then Ended else Armed)
      else Acquire(x, t, e, Claimed)
    case Armed => Acquire(x, t, e, Cutting(1))
    case Claimed =>
      if e in active then x.(pc := Releasing).Log(Clash(t))
      else if th.call.Start? && e == Sequence then x.(pc := Energising, active := active[e := t])
      else x.(pc := Checking)
    case Checking => x.(pc := if th.call.Start? && answer.Yes? then Energising else Releasing)
    case Energising =>
      if e == Sequence then x.(pc := if answer.Yes? then Running else Withdrawing).Log(On(t, e, answer.Yes?))
      else if answer.Early? then x.(pc := Cutting(1))
      else x.(pc := if answer.Yes? then Publishing else Cutting(1)).Log(On(t, e, answer.Yes?))
    case Cutting(k) =>
      (match O.Attempted(k, answer.Yes?)
       case Done(ok) => x.(pc := Releasing).Log(Off(t, ok))
       case Retry(next) => x.(pc := Cutting(next)))
    case Publishing => x.(pc := Launching, active := active[e := t])
    case Launching => x.(pc := Running)
    case Running => if answer.Yes? || th.cancelled then x.(pc := TurningOff(1)) else x
    case TurningOff(k) =>
      (match O.Attempted(k, answer.Yes?)
       case Retry(next) => x.(pc := TurningOff(next))
       case Done(true) => x.(pc := if e == Sequence then Finishing(false) else Confirming).Log(Off(t, true))
       case Done(false) => x.(pc := Finishing(e != Sequence)).Log(Off(t, false)))
    case Confirming =>
      if answer.Yes? then x.(pc := Finishing(false)).Log(SeenOff(t))
      else if answer.No? then x.(pc := Finishing(true))
      else x
    case Finishing(failed) => ClearActive(x.(pc := Cleared(failed)), t, e)
    case Cleared(failed) => Release(x, t, e, true, failed)
    case Withdrawing => ClearActive(x.(pc := Releasing), t, e)
    case Releasing => Release(x, t, e, false, false)
    case Ended => x
  }

  function Apply(s: Sys, t: nat, x: Effect): Sys
    requires t in s.threads
  {
    Sys(x.owner, x.active, s.threads[t := s.threads[t].(pc := x.pc)],
        if x.entry.Some? then s.log + [x.entry.value] else s.log)
  }

  function Step(s: Sys, t: nat, answer: Answer): Sys
    requires t in s.threads
  {
    Apply(s, t, Act(s.owner, s.active, t, s.threads[t], answer))
  }

  function Next(s: Sys, a: Action): Sys {
    match a
    case Spawn(t, e, c) =>
      if t in s.threads || !Offered(e, c) then s
      else s.(threads := s.threads[t := Thread(e, c, Entering, false)])
    case Advance(t, answer) => if t in s.threads then Step(s, t, answer) else s
    case Stop(e) =>
      if e in s.active && s.active[e] in s.threads then
        var t := s.active[e];
        s.(threads := s.threads[t := s.threads[t].(cancelled := true)])
      else s
  }

  function Run(schedule: seq<Action>): Sys {
    if schedule == [] then BOOT else Next(Run(schedule[..|schedule| - 1]), schedule[|schedule| - 1])
  }

  // --- the invariant ---

  /** Between a won Acquire and the Release. */
  predicate Holds(th: Thread) {
    !(th.pc.Entering? || th.pc.Armed? || th.pc.Ended?)
  }

  /** Between setting and clearing the active slot. */
  predicate InSlot(th: Thread) {
    match th.pc
    case Launching => true
    case Running => true
    case TurningOff(_) => true
    case Confirming => true
    case Finishing(_) => true
    case Withdrawing => true
    case Energising => th.engine == Sequence
    case _ => false
  }

  /** The last entries of the log while th holds the interlock. */
  ghost predicate Trail(log: seq<Entry>, t: nat, th: Thread) {
    var n := |log|;
    match th.pc
    case Confirming => n >= 1 && log[n - 1] == Off(t, true)
    case Finishing(failed) => Concluded(log, n, t, th.engine, failed)
    case Cleared(failed) => Concluded(log, n, t, th.engine, failed)
    case _ => true
  }

  /** The entries just before position n end a launched run: the output-off returned, and unless the
      run is marked failed a charge or IV run then saw an off report. Nothing came in between. */
  ghost predicate Concluded(log: seq<Entry>, n: nat, t: nat, e: Engine, failed: bool)
    requires n <= |log|
  {
    if e == Sequence || failed then n >= 1 && log[n - 1].Off? && log[n - 1].t == t
    else n >= 2 && log[n - 1] == SeenOff(t) && log[n - 2] == Off(t, true)
  }

  ghost predicate ReleasesConcluded(log: seq<Entry>) {
    forall i | 0 <= i < |log| && log[i].Released? && log[i].launched ::
      Concluded(log, i, log[i].t, log[i].e, log[i].failed)
  }

  /** After the output-on write at i an output-off of the same call returned, successful or not. */
  ghost predicate SwitchedOffAfter(log: seq<Entry>, i: nat)
    requires i < |log| && log[i].On?
  {
    exists j :: i < j < |log| && log[j].Off? && log[j].t == log[i].t
  }

  /** The output-on write of a sequence Start, failed. */
  predicate FailedStart(w: Entry)
    requires w.On?
  {
    w.e == Sequence && !w.ok
  }

  /** After such a write the call only gives up its slot and the interlock. */
  predicate Withdrawn(th: Thread) {
    th.pc.Withdrawing? || th.pc.Releasing? || th.pc.Ended?
  }

  /** After its output-on write a call is on a path that still leads to an output-off. */
  predicate OffAhead(th: Thread) {
    th.pc.Cutting? || th.pc.Publishing? || th.pc.Launching? || th.pc.Running? || th.pc.TurningOff?
  }

  /** Who holds the interlock. */
  ghost predicate Exclusive(s: Sys) {
    && (forall t, u | t in s.threads && u in s.threads && Holds(s.threads[t]) && Holds(s.threads[u]) :: t == u)
    && (forall t | t in s.threads && Holds(s.threads[t]) :: s.owner == Some(s.threads[t].engine))
    && (s.owner.Some? ==> exists t :: t in s.threads && Holds(s.threads[t]))
  }

  /** A sequence energises straight from its claim and does not wait for a confirming report. */
  predicate Placed(th: Thread) {
    th.engine == Sequence ==> !(th.pc.Checking? && th.call.Start?) && !th.pc.Confirming?
  }

  /** Who is in an engine's active slot. */
  ghost predicate Slots(s: Sys) {
    && (forall t | t in s.threads :: Placed(s.threads[t]))
    && (forall e | e in s.active :: s.active[e] in s.threads
          && s.threads[s.active[e]].engine == e && InSlot(s.threads[s.active[e]]))
    && (forall t | t in s.threads && InSlot(s.threads[t]) ::
          s.threads[t].engine in s.active && s.active[s.threads[t].engine] == t)
  }

  /** The call that wrote the output on at i has run its output-off since or is on its way there; one whose
      sequence Start failed does neither. */
  ghost predicate AnsweredAt(log: seq<Entry>, i: nat, threads: map<nat, Thread>)
    requires i < |log| && log[i].On?
  {
    var t := log[i].t;
    && t in threads
    && (FailedStart(log[i]) ==> Withdrawn(threads[t]) && !SwitchedOffAfter(log, i))
    && (!FailedStart(log[i]) ==> OffAhead(threads[t]) || SwitchedOffAfter(log, i))
  }

  ghost predicate Answered(s: Sys) {
    forall i: nat | i < |s.log| && s.log[i].On? :: AnsweredAt(s.log, i, s.threads)
  }

  ghost predicate Recorded(s: Sys) {
    && (forall t | t in s.threads :: Trail(s.log, t, s.threads[t]))
    && ReleasesConcluded(s.log)
    && (forall i | 0 <= i < |s.log| :: !s.log[i].Clash?)
  }

  ghost predicate Inv(s: Sys) {
    Exclusive(s) && Slots(s) && Recorded(s) && Answered(s)
  }

  /** How a single step moves the interlock, seen from the call that takes it. */
  ghost predicate KeepsInterlock(owner: Option<Engine>, th: Thread, x: Effect) {
    var th' := th.(pc := x.pc);
    && (Holds(th) ==> x.owner == if Holds(th') then owner else None)
    && (!Holds(th) && Holds(th') ==> owner.None? && x.owner == Some(th.engine))
    && (!Holds(th) && !Holds(th') ==> x.owner == owner && x.entry.None?)
  }

  /** How it moves the active slots. */
  ghost predicate KeepsSlot(active: map<Engine, nat>, t: nat, th: Thread, x: Effect) {
    var th' := th.(pc := x.pc);
    && (InSlot(th') ==> x.active == if InSlot(th) then active else active[th.engine := t])
    && (!InSlot(th') ==> x.active == if InSlot(th) then active - {th.engine} else active)
  }

  ghost predicate Disciplined(owner: Option<Engine>, active: map<Engine, nat>, t: nat, th: Thread, x: Effect) {
    KeepsInterlock(owner, th, x) && KeepsSlot(active, t, th, x) && Placed(th.(pc := x.pc))
  }

  function Appended(log: seq<Entry>, x: Effect): seq<Entry> {
    if x.entry.Some? then log + [x.entry.value] else log
  }

  /** What the step appends to the record. */
  ghost predicate Records(log: seq<Entry>, t: nat, th: Thread, x: Effect) {
    && (x.entry.Some? ==> !x.entry.value.Clash?)
    && Trail(Appended(log, x), t, th.(pc := x.pc))
    && RecordsRelease(log, t, x)
  }

  ghost predicate RecordsRelease(log: seq<Entry>, t: nat, x: Effect) {
    x.entry.Some? && x.entry.value.Released? && x.entry.value.launched ==>
      var r := x.entry.value; r.t == t && Concluded(log, |log|, t, r.e, r.failed)
  }

  /** How the step bears on the duty to switch off again. */
  ghost predicate Answers(t: nat, th: Thread, x: Effect) {
    var th', e := th.(pc := x.pc), x.entry;
    && (OffAhead(th) && !OffAhead(th') ==> e.Some? && e.value.Off? && e.value.t == t)
    && (Withdrawn(th) ==> Withdrawn(th') && !(e.Some? && e.value.Off?))
    && (e.Some? && e.value.Off? ==> e.value.t == t)
    && (e.Some? && e.value.On? ==> e.value.t == t && if FailedStart(e.value) then Withdrawn(th') else OffAhead(th'))
  }

  /** A call that wins the interlock finds its engine's slot free. */
  lemma ClaimedFindsFreeSlot(s: Sys, t: nat)
    requires Exclusive(s) && Slots(s) && t in s.threads && s.threads[t].pc.Claimed?
    ensures s.threads[t].engine !in s.active
  {
    if s.threads[t].engine in s.active {
      assert Holds(s.threads[s.active[s.threads[t].engine]]) && Holds(s.threads[t]);
    }
  }

  lemma StepsKeepInterlock(owner: Option<Engine>, active: map<Engine, nat>, t: nat, th: Thread, answer: Answer)
    requires Holds(th) ==> owner == Some(th.engine)
    ensures KeepsInterlock(owner, th, Act(owner, active, t, th, answer))
  {
  }

  lemma StepsStayPlaced(owner: Option<Engine>, active: map<Engine, nat>, t: nat, th: Thread, answer: Answer)
    requires Placed(th)
    ensures Placed(th.(pc := Act(owner, active, t, th, answer).pc))
  {
  }

  /** The steps that set or clear the active slot. */
  predicate MovesSlot(th: Thread) {
    th.pc.Claimed? || th.pc.Publishing? || th.pc.Finishing? || th.pc.Withdrawing?
  }

  lemma OtherStepsKeepSlot(owner: Option<Engine>, active: map<Engine, nat>, t: nat, th: Thread, answer: Answer)
    requires Placed(th) && !MovesSlot(th)
    ensures var x := Act(owner, active, t, th, answer); x.active == active && (InSlot(th.(pc := x.pc)) <==> InSlot(th))
  {
  }

  lemma SlotMovesInTurn(owner: Option<Engine>, active: map<Engine, nat>, t: nat, th: Thread, answer: Answer)
    requires MovesSlot(th)
    requires InSlot(th) ==> th.engine in active && active[th.engine] == t
    requires th.pc.Claimed? ==> th.engine !in active
    ensures KeepsSlot(active, t, th, Act(owner, active, t, th, answer))
  {
  }

  lemma StepsKeepSlot(owner: Option<Engine>, active: map<Engine, nat>, t: nat, th: Thread, answer: Answer)
    requires Placed(th)
    requires InSlot(th) ==> th.engine in active && active[th.engine] == t
    requires th.pc.Claimed? ==> th.engine !in active
    ensures KeepsSlot(active, t, th, Act(owner, active, t, th, answer))
  {
    if MovesSlot(th) {
      SlotMovesInTurn(owner, active, t, th, answer);
    } else {
      OtherStepsKeepSlot(owner, active, t, th, answer);
    }
  }

  lemma SwitchStepsAnswer(owner: Option<Engine>, active: map<Engine, nat>, t: nat, th: Thread, answer: Answer)
    requires th.pc.Energising? || th.pc.Cutting? || th.pc.TurningOff?
    ensures Answers(t, th, Act(owner, active, t, th, answer))
  {
  }

  lemma StepsAnswer(owner: Option<Engine>, active: map<Engine, nat>, t: nat, th: Thread, answer: Answer)
    requires Placed(th)
    ensures Answers(t, th, Act(owner, active, t, th, answer))
  {
    if th.pc.Energising? || th.pc.Cutting? || th.pc.TurningOff? { SwitchStepsAnswer(owner, active, t, th, answer); }
  }

  /** The places of a launched run that leave something to show in the log. */
  predicate Ending(th: Thread) {
    th.pc.TurningOff? || th.pc.Confirming? || th.pc.Finishing?
  }

  lemma OtherStepsLeaveNoTrail(owner: Option<Engine>, active: map<Engine, nat>, t: nat, th: Thread, answer: Answer)
    requires !Ending(th)
    ensures var pc := Act(owner, active, t, th, answer).pc; !pc.Confirming? && !pc.Finishing? && !pc.Cleared?
  {
  }

  lemma EndingLeavesTrail(owner: Option<Engine>, active: map<Engine, nat>, log: seq<Entry>,
                          t: nat, th: Thread, answer: Answer)
    requires Placed(th) && Trail(log, t, th) && Ending(th)
    ensures var x := Act(owner, active, t, th, answer); Trail(Appended(log, x), t, th.(pc := x.pc))
  {
    var x := Act(owner, active, t, th, answer);
    if x.entry.Some? { OneMoreEntry(log, x.entry.value); }
  }

  lemma StepsLeaveTrail(owner: Option<Engine>, active: map<Engine, nat>, log: seq<Entry>,
                        t: nat, th: Thread, answer: Answer)
    requires Placed(th) && Trail(log, t, th)
    ensures var x := Act(owner, active, t, th, answer); Trail(Appended(log, x), t, th.(pc := x.pc))
  {
    if Ending(th) {
      EndingLeavesTrail(owner, active, log, t, th, answer);
    } else {
      OtherStepsLeaveNoTrail(owner, active, t, th, answer);
    }
  }

  lemma StepsRecordRelease(owner: Option<Engine>, active: map<Engine, nat>, log: seq<Entry>,
                           t: nat, th: Thread, answer: Answer)
    requires Trail(log, t, th)
    ensures RecordsRelease(log, t, Act(owner, active, t, th, answer))
  {
  }

  lemma StepsDoNotClash(owner: Option<Engine>, active: map<Engine, nat>, t: nat, th: Thread, answer: Answer)
    requires th.pc.Claimed? ==> th.engine !in active
    ensures var x := Act(owner, active, t, th, answer); x.entry.Some? ==> !x.entry.value.Clash?
  {
  }

  lemma StepsAreRecorded(owner: Option<Engine>, active: map<Engine, nat>, log: seq<Entry>,
                         t: nat, th: Thread, answer: Answer)
    requires Placed(th) && Trail(log, t, th)
    requires th.pc.Claimed? ==> th.engine !in active
    ensures Records(log, t, th, Act(owner, active, t, th, answer))
  {
    StepsLeaveTrail(owner, active, log, t, th, answer);
    StepsRecordRelease(owner, active, log, t, th, answer);
    StepsDoNotClash(owner, active, t, th, answer);
  }

  lemma OneMoreEntry(log: seq<Entry>, e: Entry)
    ensures var log' := log + [e]; log'[|log|] == e && log'[..|log|] == log
    ensures |log| > 0 ==> (log + [e])[|log| - 1] == log[|log| - 1]
  {
  }

  lemma ApplyKeepsExclusive(s: Sys, t: nat, x: Effect)
    requires Exclusive(s) && t in s.threads && Disciplined(s.owner, s.active, t, s.threads[t], x)
    ensures Exclusive(Apply(s, t, x))
  {
    var s' := Apply(s, t, x);
    assert forall u | u in s'.threads && u != t :: s'.threads[u] == s.threads[u];
    if s'.owner.Some? && !Holds(s'.threads[t]) {
      var u :| u in s.threads && Holds(s.threads[u]);
      assert u in s'.threads && Holds(s'.threads[u]);
    }
  }

  lemma ApplyKeepsSlots(s: Sys, t: nat, x: Effect)
    requires Exclusive(s) && Slots(s) && t in s.threads && Disciplined(s.owner, s.active, t, s.threads[t], x)
    requires forall u | u in s.threads && InSlot(s.threads[u]) :: Holds(s.threads[u])
    ensures Slots(Apply(s, t, x))
  {
    var s' := Apply(s, t, x);
    assert forall u | u in s'.threads && u != t :: s'.threads[u] == s.threads[u];
    forall u | u in s'.threads && u != t && InSlot(s'.threads[u])
      ensures s'.threads[u].engine in s'.active && s'.active[s'.threads[u].engine] == u
    {
      assert Holds(s.threads[u]) && !Holds(s.threads[t]);
    }
  }

  /** Only the holder appends to the log, so everybody else's trail stands. */
  lemma ApplyKeepsRecorded(s: Sys, t: nat, x: Effect)
    requires Exclusive(s) && Recorded(s) && t in s.threads
    requires Disciplined(s.owner, s.active, t, s.threads[t], x) && Records(s.log, t, s.threads[t], x)
    ensures Recorded(Apply(s, t, x))
  {
    var s' := Apply(s, t, x);
    assert s.log <= s'.log;
    forall u | u in s'.threads ensures Trail(s'.log, u, s'.threads[u]) {
      if u != t {
        assert s'.threads[u] == s.threads[u] && Trail(s.log, u, s.threads[u]);
        if Holds(s.threads[u]) { assert !Holds(s.threads[t]); }
      }
    }
    forall i | 0 <= i < |s'.log| && s'.log[i].Released? && s'.log[i].launched
      ensures Concluded(s'.log, i, s'.log[i].t, s'.log[i].e, s'.log[i].failed)
    {
      if i < |s.log| { assert Concluded(s.log, i, s.log[i].t, s.log[i].e, s.log[i].failed); }
    }
  }

  /** One more entry, and the call that wrote it further on. */
  lemma EntryKeepsAnswered(log: seq<Entry>, i: nat, threads: map<nat, Thread>, t: nat, x: Effect)
    requires i < |log| && log[i].On? && AnsweredAt(log, i, threads)
    requires t in threads && Answers(t, threads[t], x)
    ensures AnsweredAt(Appended(log, x), i, threads[t := threads[t].(pc := x.pc)])
  {
    var log' := Appended(log, x);
    if SwitchedOffAfter(log, i) {
      var j :| i < j < |log| && log[j].Off? && log[j].t == log[i].t;
      assert log'[j] == log[j];
    } else if x.entry.Some? {
      assert log'[|log|] == x.entry.value;
    }
  }

  lemma ApplyKeepsAnswered(s: Sys, t: nat, x: Effect)
    requires Answered(s) && t in s.threads && Answers(t, s.threads[t], x)
    ensures Answered(Apply(s, t, x))
  {
    var s' := Apply(s, t, x);
    forall i: nat | i < |s'.log| && s'.log[i].On? ensures AnsweredAt(s'.log, i, s'.threads) {
      if i < |s.log| {
        assert s'.log[i] == s.log[i];
        EntryKeepsAnswered(s.log, i, s.threads, t, x);
      }
    }
  }

  /** Nothing but new callers and cancel flags: every call in s stands where it stood. */
  ghost predicate Quiet(s: Sys, s': Sys) {
    && s'.owner == s.owner && s'.active == s.active && s'.log == s.log
    && (forall t | t in s.threads :: t in s'.threads && s'.threads[t].pc == s.threads[t].pc
          && s'.threads[t].engine == s.threads[t].engine && s'.threads[t].call == s.threads[t].call)
    && (forall t | t in s'.threads && t !in s.threads :: s'.threads[t].pc.Entering?)
  }

  lemma QuietKeepsExclusive(s: Sys, s': Sys)
    requires Exclusive(s) && Quiet(s, s')
    ensures Exclusive(s')
  {
    if s.owner.Some? {
      var u :| u in s.threads && Holds(s.threads[u]);
      assert u in s'.threads && Holds(s'.threads[u]);
    }
  }

  lemma QuietKeepsSlots(s: Sys, s': Sys)
    requires Slots(s) && Quiet(s, s')
    ensures Slots(s')
  {
    forall u | u in s'.threads ensures Placed(s'.threads[u]) {
      assert u in s.threads ==> Placed(s.threads[u]);
    }
  }

  lemma QuietKeepsRecord(s: Sys, s': Sys)
    requires Recorded(s) && Quiet(s, s')
    ensures Recorded(s')
  {
    forall u | u in s'.threads ensures Trail(s'.log, u, s'.threads[u]) {
      assert u in s.threads ==> Trail(s.log, u, s.threads[u]);
    }
  }

  lemma QuietKeepsAnswered(s: Sys, s': Sys)
    requires Answered(s) && Quiet(s, s')
    ensures Answered(s')
  {
    forall i: nat | i < |s'.log| && s'.log[i].On? ensures AnsweredAt(s'.log, i, s'.threads) {
      assert AnsweredAt(s.log, i, s.threads);
    }
  }

  lemma QuietKeepsInv(s: Sys, s': Sys)
    requires Inv(s) && Quiet(s, s')
    ensures Inv(s')
  {
    QuietKeepsExclusive(s, s');
    QuietKeepsSlots(s, s');
    QuietKeepsRecord(s, s');
    QuietKeepsAnswered(s, s');
  }

  lemma StepKeepsInv(s: Sys, t: nat, answer: Answer)
    requires Inv(s) && t in s.threads
    ensures Inv(Step(s, t, answer))
  {
    var x := Act(s.owner, s.active, t, s.threads[t], answer);
    if s.threads[t].pc.Claimed? { ClaimedFindsFreeSlot(s, t); }
    StepsKeepInterlock(s.owner, s.active, t, s.threads[t], answer);
    StepsStayPlaced(s.owner, s.active, t, s.threads[t], answer);
    StepsKeepSlot(s.owner, s.active, t, s.threads[t], answer);
    StepsAnswer(s.owner, s.active, t, s.threads[t], answer);
    StepsAreRecorded(s.owner, s.active, s.log, t, s.threads[t], answer);
    EffectKeepsInv(s, t, x);
  }

  lemma EffectKeepsInv(s: Sys, t: nat, x: Effect)
    requires Inv(s) && t in s.threads && Disciplined(s.owner, s.active, t, s.threads[t], x)
    requires Answers(t, s.threads[t], x) && Records(s.log, t, s.threads[t], x)
    ensures Inv(Apply(s, t, x))
  {
    ApplyKeepsExclusive(s, t, x);
    ApplyKeepsSlots(s, t, x);
    ApplyKeepsRecorded(s, t, x);
    ApplyKeepsAnswered(s, t, x);
  }

  lemma NextKeepsInv(s: Sys, a: Action)
    requires Inv(s)
    ensures Inv(Next(s, a))
  {
    match a
    case Spawn(t, e, c) => QuietKeepsInv(s, Next(s, a));
    case Stop(e) => QuietKeepsInv(s, Next(s, a));
    case Advance(t, answer) => if t in s.threads { StepKeepsInv(s, t, answer); }
  }

  lemma {:induction false} ReachableInv(schedule: seq<Action>)
    ensures Inv(Run(schedule))
  {
    if schedule != [] {
      ReachableInv(schedule[..|schedule| - 1]);
      NextKeepsInv(Run(schedule[..|schedule| - 1]), schedule[|schedule| - 1]);
    }
  }

  // --- the theorems, for every schedule of every set of calls ---

  /** At most one call is between its Acquire and its Release, and the interlock names its engine. */
  lemma OneHolder(schedule: seq<Action>)
    ensures var s := Run(schedule);
      && (forall t, u | t in s.threads && u in s.threads && Holds(s.threads[t]) && Holds(s.threads[u]) :: t == u)
      && (s.owner.Some? <==> exists t :: t in s.threads && Holds(s.threads[t]))
      && (forall t | t in s.threads && Holds(s.threads[t]) :: s.owner == Some(s.threads[t].engine))
  {
    ReachableInv(schedule);
  }

  /** The active slot is always free when a call has just won the interlock: the re-check never fires. */
  lemma RecheckIsUnreachable(schedule: seq<Action>, t: nat)
    requires t in Run(schedule).threads && Run(schedule).threads[t].pc.Claimed?
    ensures Run(schedule).threads[t].engine !in Run(schedule).active
  {
    ReachableInv(schedule);
    ClaimedFindsFreeSlot(Run(schedule), t);
  }

  /** Every launched run releases right after its output-off returned; a charge or IV run not marked
      output_off_failed saw an off report in between. Nobody else touched the output or the
      interlock meanwhile: the entries are adjacent. */
  lemma LaunchedRunsReleaseSwitchedOff(schedule: seq<Action>, i: nat)
    requires i < |Run(schedule).log| && Run(schedule).log[i].Released? && Run(schedule).log[i].launched
    ensures var log := Run(schedule).log; var r := log[i];
      if r.e == Sequence || r.failed then i >= 1 && log[i - 1].Off? && log[i - 1].t == r.t
      else i >= 2 && log[i - 1] == SeenOff(r.t) && log[i - 2] == Off(r.t, true)
  {
    ReachableInv(schedule);
  }

  /** While the interlock is free, SafeOutputOff has returned to the call that wrote the output on, after
      that write, for every output-on write in the log but those of a sequence Start that failed; these
      calls never run it. It may have returned a failure: all three writes failed. */
  lemma FreeMeansAnsweredOrFailedStart(schedule: seq<Action>, i: nat)
    requires Run(schedule).owner.None? && i < |Run(schedule).log| && Run(schedule).log[i].On?
    ensures SwitchedOffAfter(Run(schedule).log, i) <==> !FailedStart(Run(schedule).log[i])
  {
    ReachableInv(schedule);
    var s := Run(schedule);
    assert AnsweredAt(s.log, i, s.threads);
    assert !Holds(s.threads[s.log[i].t]);
  }

  /** That exception happens: the failed write may still have reached the device, and the interlock
      is freed without anybody switching the output off. */
  lemma FailedSequenceStartLeavesOutputUnanswered(t: nat) returns (schedule: seq<Action>)
    ensures Run(schedule).owner.None?
    ensures Run(schedule).log == [Acquired(t, Sequence), On(t, Sequence, false), Released(t, Sequence, false, false)]
  {
    schedule := RunSnoc([], Spawn(t, Sequence, Start));
    schedule := StepTo(schedule, t, Yes, Claimed);
    schedule := StepTo(schedule, t, Yes, Energising);
    schedule := StepTo(schedule, t, No, Withdrawing);
    schedule := StepTo(schedule, t, Yes, Releasing);
    schedule := StepTo(schedule, t, Yes, Ended);
  }

  /** One more step of call t, to the place it leads to. */
  lemma StepTo(schedule: seq<Action>, t: nat, answer: Answer, pc: Pc) returns (longer: seq<Action>)
    requires var s := Run(schedule);
             t in s.threads && Act(s.owner, s.active, t, s.threads[t], answer).pc == pc
    ensures longer == schedule + [Advance(t, answer)] && Run(longer) == Step(Run(schedule), t, answer)
    ensures t in Run(longer).threads && Run(longer).threads[t] == Run(schedule).threads[t].(pc := pc)
  {
    longer := RunSnoc(schedule, Advance(t, answer));
  }

  lemma RunSnoc(schedule: seq<Action>, a: Action) returns (longer: seq<Action>)
    ensures longer == schedule + [a] && Run(longer) == Next(Run(schedule), a)
  {
    longer := schedule + [a];
    assert longer[..|longer| - 1] == schedule;
  }
}
