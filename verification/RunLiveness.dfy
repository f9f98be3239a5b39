/** What a Stop does, and what happens without one: stopped runs switch off and release, others go on, and
    a Start whose steps succeed ends up running. */
module RunLiveness {
  import opened Prelude
  import opened RunProtocol

  // --- stopping a run, and letting it go on ---

  /** The answers a schedule gives to call t, in order. */
  function AnswersTo(rest: seq<Action>, t: nat): seq<Answer> {
    if rest == [] then []
    else
      var before, a := AnswersTo(rest[..|rest| - 1], t), rest[|rest| - 1];
      if a.Advance? && a.t == t then before + [a.answer] else before
  }

  /** Call t stands where it stood; only its cancel flag may have been set. */
  ghost predicate Untouched(s: Sys, s': Sys, t: nat) {
    && t in s.threads && t in s'.threads
    && s'.threads[t].pc == s.threads[t].pc && s'.threads[t].engine == s.threads[t].engine
    && s'.threads[t].call == s.threads[t].call && (s.threads[t].cancelled ==> s'.threads[t].cancelled)
    && s.log <= s'.log && forall i | |s.log| <= i < |s'.log| :: By(s'.log[i]) != t
  }

  /** The call an entry is about. */
  function By(e: Entry): nat {
    e.t
  }

  lemma OthersLeaveThread(s: Sys, a: Action, t: nat)
    requires t in s.threads && !(a.Advance? && a.t == t)
    ensures Untouched(s, Next(s, a), t)
  {
    if a.Advance? && a.t in s.threads { EntriesAreOwn(s, a.t, a.answer); }
  }

  lemma EntriesAreOwn(s: Sys, t: nat, answer: Answer)
    requires t in s.threads
    ensures var e := Act(s.owner, s.active, t, s.threads[t], answer).entry; e.Some? ==> By(e.value) == t
  {
  }

  lemma RunOne(before: seq<Action>, a: Action)
    ensures Run(before + [a]) == Next(Run(before), a)
  {
    assert (before + [a])[..|before|] == before;
  }

  lemma LastOfRest(schedule: seq<Action>, rest: seq<Action>)
    requires rest != []
    ensures var before, a := rest[..|rest| - 1], rest[|rest| - 1];
            Run(schedule + rest) == Next(Run(schedule + before), a)
  {
    var before, a := rest[..|rest| - 1], rest[|rest| - 1];
    assert schedule + rest == schedule + before + [a];
    RunOne(schedule + before, a);
  }

  /** How far a launched run has come on its way to the release. */
  function Rank(pc: Pc): nat {
    match pc
    case Launching => 0
    case Running => 1
    case TurningOff(k) => 1 + k
    case Confirming => 5
    case Finishing(_) => 6
    case Cleared(_) => 7
    case _ => 8
  }

  predicate Launched(pc: Pc) {
    pc.Launching? || pc.Running? || (pc.TurningOff? && 1 <= pc.tries <= 3) || pc.Confirming? || pc.Finishing?
    || pc.Cleared? || pc.Ended?
  }

  /** Since position `from` of the log the run's output-off returned. */
  ghost predicate OffSince(log: seq<Entry>, from: nat, t: nat) {
    exists j :: from <= j < |log| && log[j].Off? && log[j].t == t
  }

  /** Since position `from` its output-off returned and it then released the interlock as a launched run. */
  ghost predicate ReleasedSince(log: seq<Entry>, from: nat, t: nat, e: Engine) {
    exists j, k, failed ::
      from <= j < k < |log| && log[j].Off? && log[j].t == t && log[k] == Released(t, e, true, failed)
  }

  /** A run that was told to stop, when the log had length `from`. */
  ghost predicate Stopping(s: Sys, t: nat, e: Engine, from: nat) {
    && t in s.threads && s.threads[t].engine == e && s.threads[t].cancelled && Launched(s.threads[t].pc)
    && from <= |s.log|
    && (Rank(s.threads[t].pc) >= 5 ==> OffSince(s.log, from, t))
    && (s.threads[t].pc.Ended? ==> ReleasedSince(s.log, from, t, e))
  }

  lemma LongerLog(log: seq<Entry>, log': seq<Entry>, from: nat, t: nat, e: Engine)
    requires log <= log'
    ensures OffSince(log, from, t) ==> OffSince(log', from, t)
    ensures ReleasedSince(log, from, t, e) ==> ReleasedSince(log', from, t, e)
  {
    if OffSince(log, from, t) {
      var j :| from <= j < |log| && log[j].Off? && log[j].t == t;
      assert log'[j] == log[j];
    }
    if ReleasedSince(log, from, t, e) {
      var j, k, failed :|
        from <= j < k < |log| && log[j].Off? && log[j].t == t && log[k] == Released(t, e, true, failed);
      assert log'[j] == log[j] && log'[k] == log[k];
    }
  }

  lemma OneMoreEntry(log: seq<Entry>, from: nat, t: nat, e: Engine, entry: Entry)
    requires from <= |log|
    ensures entry.Off? && entry.t == t ==> OffSince(log + [entry], from, t)
    ensures entry.Released? && entry == Released(t, e, true, entry.failed) && OffSince(log, from, t) ==>
              ReleasedSince(log + [entry], from, t, e)
  {
    var log' := log + [entry];
    assert log'[|log|] == entry;
    if entry.Released? && entry == Released(t, e, true, entry.failed) && OffSince(log, from, t) {
      var j :| from <= j < |log| && log[j].Off? && log[j].t == t;
      assert log'[j] == log[j] && log'[|log|] == Released(t, e, true, entry.failed);
    }
  }

  /** Every step takes a stopping run nearer to its release, but for reports that decide nothing; on the way
      it logs its output-off and, last, its release. */
  lemma StoppingEffect(owner: Option<Engine>, active: map<Engine, nat>, t: nat, th: Thread, answer: Answer)
    requires th.cancelled && Launched(th.pc)
    ensures var x := Act(owner, active, t, th, answer); Launched(x.pc) && Rank(x.pc) >= Rank(th.pc)
    ensures Rank(th.pc) < 8 && !(Rank(th.pc) == 5 && answer.Early?) ==>
              Rank(Act(owner, active, t, th, answer).pc) > Rank(th.pc)
    ensures var x := Act(owner, active, t, th, answer);
            Rank(th.pc) < 5 <= Rank(x.pc) ==> x.entry.Some? && x.entry.value.Off? && x.entry.value.t == t
    ensures var x := Act(owner, active, t, th, answer);
            !th.pc.Ended? && x.pc.Ended? ==>
              th.pc.Cleared? && x.entry == Some(Released(t, th.engine, true, th.pc.failed))
  {
  }

  lemma StoppingStep(s: Sys, t: nat, e: Engine, from: nat, answer: Answer)
    requires Stopping(s, t, e, from)
    ensures var s' := Step(s, t, answer); Stopping(s', t, e, from)
    ensures var was, now := Rank(s.threads[t].pc), Rank(Step(s, t, answer).threads[t].pc);
            now >= was && (was < 8 && !(was == 5 && answer.Early?) ==> now > was)
  {
    var s', x := Step(s, t, answer), Act(s.owner, s.active, t, s.threads[t], answer);
    LongerLog(s.log, s'.log, from, t, e);
    StoppingEffect(s.owner, s.active, t, s.threads[t], answer);
    if x.entry.Some? { OneMoreEntry(s.log, from, t, e, x.entry.value); }
  }

  /** A Stop reaches the run in the slot, and the flag stays set. */
  lemma {:induction false} StopMarks(schedule: seq<Action>, e: Engine, t: nat, rest: seq<Action>)
    requires var s := Run(schedule); e in s.active && s.active[e] == t
    ensures var s := Run(schedule + [Stop(e)] + rest); t in s.threads && s.threads[t].cancelled
    ensures Run(schedule).threads.Keys <= Run(schedule + [Stop(e)] + rest).threads.Keys
  {
    if rest == [] {
      RunOne(schedule, Stop(e));
      ReachableInv(schedule);
      assert schedule + [Stop(e)] + rest == schedule + [Stop(e)];
    } else {
      StopMarks(schedule, e, t, rest[..|rest| - 1]);
      LastOfRest(schedule + [Stop(e)], rest);
    }
  }

  /** Whatever the answer, the next step of a stopped run leaves Running, for its output-off. */
  lemma StopIsObeyed(schedule: seq<Action>, t: nat, answer: Answer)
    requires t in Run(schedule).threads && Run(schedule).threads[t].pc.Running?
    ensures var e := Run(schedule).threads[t].engine;
            var s := Run(schedule + [Stop(e), Advance(t, answer)]);
            t in s.threads && s.threads[t].pc == TurningOff(1)
  {
    ReachableInv(schedule);
    var e := Run(schedule).threads[t].engine;
    assert InSlot(Run(schedule).threads[t]);
    RunOne(schedule, Stop(e));
    RunOne(schedule + [Stop(e)], Advance(t, answer));
    assert schedule + [Stop(e), Advance(t, answer)] == schedule + [Stop(e)] + [Advance(t, answer)];
  }

  /** How far a stopped run must have come after these answers. */
  function Bound(answers: seq<Answer>): nat {
    if answers == [] then 0 else Further(Bound(answers[..|answers| - 1]), answers[|answers| - 1])
  }

  function Further(b: nat, answer: Answer): nat {
    if b >= 8 || (b == 5 && answer.Early?) then b else b + 1
  }

  lemma StoppingNext(s: Sys, a: Action, t: nat, e: Engine, from: nat, b: nat)
    requires Stopping(s, t, e, from) && Rank(s.threads[t].pc) >= b
    ensures var s' := Next(s, a);
            Stopping(s', t, e, from)
            && Rank(s'.threads[t].pc) >= if a.Advance? && a.t == t then Further(b, a.answer) else b
  {
    if a.Advance? && a.t == t {
      StoppingStep(s, t, e, from, a.answer);
      RankAtMost(s.threads[t].pc);
    } else {
      OthersLeaveThread(s, a, t);
      LongerLog(s.log, Next(s, a).log, from, t, e);
    }
  }

  lemma RankAtMost(pc: Pc)
    requires Launched(pc)
    ensures Rank(pc) <= 8 && (Rank(pc) == 5 <==> pc.Confirming?)
  {
  }

  lemma {:induction false} StoppedRunProgresses(schedule: seq<Action>, t: nat, e: Engine, rest: seq<Action>)
    requires var s := Run(schedule);
             t in s.threads && s.threads[t].engine == e && (s.threads[t].pc.Launching? || s.threads[t].pc.Running?)
    ensures var s := Run(schedule + [Stop(e)] + rest);
            Stopping(s, t, e, |Run(schedule).log|) && Rank(s.threads[t].pc) >= Bound(AnswersTo(rest, t))
  {
    if rest == [] {
      ReachableInv(schedule);
      assert InSlot(Run(schedule).threads[t]);
      RunOne(schedule, Stop(e));
      assert schedule + [Stop(e)] + rest == schedule + [Stop(e)];
    } else {
      var before, a := rest[..|rest| - 1], rest[|rest| - 1];
      var b := Bound(AnswersTo(before, t));
      StoppedRunProgresses(schedule, t, e, before);
      LastOfRest(schedule + [Stop(e)], rest);
      StoppingNext(Run(schedule + [Stop(e)] + before), a, t, e, |Run(schedule).log|, b);
      AnswersOne(rest, t);
    }
  }

  lemma AnswersOne(rest: seq<Action>, t: nat)
    requires rest != []
    ensures var before, a, answers := AnswersTo(rest[..|rest| - 1], t), rest[|rest| - 1], AnswersTo(rest, t);
            if a.Advance? && a.t == t then
              answers == before + [a.answer] && answers[..|answers| - 1] == before && answers[|answers| - 1] == a.answer
            else answers == before
  {
  }

  lemma {:induction false} BoundGrows(answers: seq<Answer>, n: nat)
    requires n <= |answers|
    ensures Bound(answers[..n]) >= (if n < 5 then n else 5) && Bound(answers[..n]) <= Bound(answers)
    decreases |answers|
  {
    if n == |answers| {
      assert answers[..n] == answers;
      if n > 0 {
        BoundGrows(answers[..n - 1], n - 1);
        assert answers[..n - 1][..n - 1] == answers[..n - 1];
      }
    } else {
      assert answers[..|answers| - 1][..n] == answers[..n];
      BoundGrows(answers[..|answers| - 1], n);
    }
  }

  lemma BoundOne(answers: seq<Answer>, n: nat)
    requires n < |answers|
    ensures Bound(answers[..n + 1]) == Further(Bound(answers[..n]), answers[n])
  {
    assert answers[..n + 1][..n] == answers[..n];
  }

  lemma ThreeMore(b: nat, first: Answer, second: Answer, third: Answer)
    requires 5 <= b <= 8 && !first.Early?
    ensures Further(Further(Further(b, first), second), third) == 8
  {
  }

  /** Launching, running, three tries: five steps; then a report that decides; then clearing and releasing. */
  lemma EnoughAnswers(answers: seq<Answer>, i: nat)
    requires 5 <= i && i + 3 <= |answers| && !answers[i].Early?
    ensures Bound(answers) == 8
  {
    BoundGrows(answers, i);
    BoundOne(answers, i);
    BoundOne(answers, i + 1);
    BoundOne(answers, i + 2);
    BoundAtMost(answers[..i]);
    ThreeMore(Bound(answers[..i]), answers[i], answers[i + 1], answers[i + 2]);
    BoundGrows(answers, i + 3);
    BoundAtMost(answers);
  }

  lemma {:induction false} BoundAtMost(answers: seq<Answer>)
    ensures Bound(answers) <= 8
  {
    if answers != [] { BoundAtMost(answers[..|answers| - 1]); }
  }

  lemma LastRank(pc: Pc)
    requires Launched(pc) && Rank(pc) >= 8
    ensures pc.Ended?
  {
  }

  /** A stopped run, be it running or just about to, switches off and releases: whatever else happens in
      between, once it has been given five answers, then one that is no undecided report, then two more, its
      output-off has returned since the Stop and the interlock was released after that. */
  lemma StoppedRunReleases(schedule: seq<Action>, t: nat, e: Engine, rest: seq<Action>, i: nat)
    requires var s := Run(schedule);
             t in s.threads && s.threads[t].engine == e && (s.threads[t].pc.Launching? || s.threads[t].pc.Running?)
    requires var answers := AnswersTo(rest, t); 5 <= i && i + 3 <= |answers| && !answers[i].Early?
    ensures var s := Run(schedule + [Stop(e)] + rest);
            t in s.threads && s.threads[t].pc.Ended? && ReleasedSince(s.log, |Run(schedule).log|, t, e)
  {
    StoppedRunProgresses(schedule, t, e, rest);
    EnoughAnswers(AnswersTo(rest, t), i);
    LastRank(Run(schedule + [Stop(e)] + rest).threads[t].pc);
  }

  lemma RunningNext(s: Sys, a: Action, t: nat)
    requires Slots(s) && t in s.threads && s.threads[t].pc.Running? && !s.threads[t].cancelled
    requires a != Stop(s.threads[t].engine) && a != Advance(t, Yes)
    ensures var s' := Next(s, a);
            && t in s'.threads && s'.threads[t] == s.threads[t] && s.log <= s'.log
            && (forall i | |s.log| <= i < |s'.log| :: By(s'.log[i]) != t)
  {
    assert InSlot(s.threads[t]);
    if !(a.Advance? && a.t == t) { OthersLeaveThread(s, a, t); }
  }

  /** A run nobody stops stays Running, with no output-off of its own, as long as it does not end by
      itself, whatever other calls do. */
  lemma {:induction false} UnstoppedRunGoesOn(schedule: seq<Action>, t: nat, rest: seq<Action>)
    requires var s := Run(schedule); t in s.threads && s.threads[t].pc.Running? && !s.threads[t].cancelled
    requires forall k | 0 <= k < |rest| ::
               rest[k] != Stop(Run(schedule).threads[t].engine) && rest[k] != Advance(t, Yes)
    ensures var s, s' := Run(schedule), Run(schedule + rest);
            && t in s'.threads && s'.threads[t] == s.threads[t] && s.log <= s'.log
            && (forall i | |s.log| <= i < |s'.log| :: By(s'.log[i]) != t)
  {
    if rest == [] {
      assert schedule + rest == schedule;
    } else {
      var before := rest[..|rest| - 1];
      UnstoppedRunGoesOn(schedule, t, before);
      LastOfRest(schedule, rest);
      ReachableInv(schedule + before);
      RunningNext(Run(schedule + before), rest[|rest| - 1], t);
    }
  }

  // --- starting a run ---

  /** Steps from a won claim to Running. */
  function StartSteps(e: Engine): nat {
    if e == Sequence then 2 else 5
  }

  /** Where a Start stands n good answers after its claim. */
  function StartPc(e: Engine, n: nat): Pc
    requires n <= StartSteps(e)
  {
    if n == 0 then Claimed
    else if n == StartSteps(e) then Running
    else if e == Sequence then Energising
    else if n == 1 then Checking else if n == 2 then Energising else if n == 3 then Publishing else Launching
  }

  ghost predicate OnSince(log: seq<Entry>, from: nat, t: nat, e: Engine) {
    exists j :: from <= j < |log| && log[j] == On(t, e, true)
  }

  /** A Start with n good answers since its claim, when the log had length `from`. */
  ghost predicate Starting(s: Sys, t: nat, e: Engine, n: nat, from: nat) {
    && n <= StartSteps(e) && t in s.threads && s.threads[t].engine == e && s.threads[t].call.Start?
    && s.threads[t].pc == StartPc(e, n) && from <= |s.log|
    && (n == StartSteps(e) || (e != Sequence && n >= 3) ==> OnSince(s.log, from, t, e))
  }

  /** A Start that has its claim and is answered Yes throughout runs, with its output-on write in the log,
      whatever other calls do meanwhile. */
  lemma {:induction false} ClaimedStartRuns(schedule: seq<Action>, t: nat, e: Engine, rest: seq<Action>)
    requires Starting(Run(schedule), t, e, 0, |Run(schedule).log|)
    requires |AnswersTo(rest, t)| <= StartSteps(e) && Good(AnswersTo(rest, t))
    ensures Starting(Run(schedule + rest), t, e, |AnswersTo(rest, t)|, |Run(schedule).log|)
  {
    if rest == [] {
      assert schedule + rest == schedule;
    } else {
      var before := rest[..|rest| - 1];
      GoodBefore(rest, t);
      ClaimedStartRuns(schedule, t, e, before);
      LastOfRest(schedule, rest);
      ReachableInv(schedule + before);
      StartNext(Run(schedule + before), rest[|rest| - 1], t, e, |AnswersTo(before, t)|, |Run(schedule).log|);
    }
  }

  /** The steps of a Start, one after the other. */
  lemma StartStep(s: Sys, t: nat, e: Engine, n: nat)
    requires n < StartSteps(e) && t in s.threads && s.threads[t].engine == e && s.threads[t].call.Start?
    requires s.threads[t].pc == StartPc(e, n) && (s.threads[t].pc.Claimed? ==> e !in s.active)
    ensures var s' := Step(s, t, Yes);
            && s'.threads[t] == s.threads[t].(pc := StartPc(e, n + 1))
            && s'.log == if s.threads[t].pc.Energising? then s.log + [On(t, e, true)] else s.log
  {
  }

  predicate Good(answers: seq<Answer>) {
    forall a | a in answers :: a.Yes?
  }

  lemma GoodBefore(rest: seq<Action>, t: nat)
    requires rest != [] && Good(AnswersTo(rest, t))
    ensures var before, a := AnswersTo(rest[..|rest| - 1], t), rest[|rest| - 1];
            && Good(before)
            && (if a.Advance? && a.t == t then a.answer.Yes? && |AnswersTo(rest, t)| == |before| + 1
                else AnswersTo(rest, t) == before)
  {
    AnswersOne(rest, t);
    var answers := AnswersTo(rest, t);
    if rest[|rest| - 1].Advance? && rest[|rest| - 1].t == t { assert answers[|answers| - 1] in answers; }
  }

  lemma StartNext(s: Sys, a: Action, t: nat, e: Engine, n: nat, from: nat)
    requires Inv(s) && Starting(s, t, e, n, from)
    requires a.Advance? && a.t == t ==> a.answer.Yes? && n < StartSteps(e)
    ensures Starting(Next(s, a), t, e, if a.Advance? && a.t == t then n + 1 else n, from)
  {
    var s' := Next(s, a);
    if a.Advance? && a.t == t {
      if s.threads[t].pc.Claimed? { ClaimedFindsFreeSlot(s, t); }
      StartStep(s, t, e, n);
      OnLonger(s.log, s'.log, from, t, e);
      if s.threads[t].pc.Energising? { assert s'.log[|s.log|] == On(t, e, true); }
    } else {
      OthersLeaveThread(s, a, t);
      OnLonger(s.log, s'.log, from, t, e);
    }
  }

  lemma OnLonger(log: seq<Entry>, log': seq<Entry>, from: nat, t: nat, e: Engine)
    requires log <= log'
    ensures OnSince(log, from, t, e) ==> OnSince(log', from, t, e)
  {
    if j :| from <= j < |log| && log[j] == On(t, e, true) { assert log'[j] == log[j]; }
  }

  /** A new Start claims a free interlock with its first step, and is turned away, leaving no trace, by one
      that is held. From its claim on, good answers make it run. */
  lemma StartRuns(schedule: seq<Action>, t: nat, e: Engine, first: Answer, rest: seq<Action>)
    requires t !in Run(schedule).threads
    requires |AnswersTo(rest, t)| == StartSteps(e) && Good(AnswersTo(rest, t))
    ensures var s, from := Run(schedule), |Run(schedule).log|;
            var begun := schedule + [Spawn(t, e, Start), Advance(t, first)];
            && t in Run(begun).threads
            && (s.owner.Some? ==> Run(begun).threads[t].pc.Ended? && Run(begun).log == s.log)
            && (s.owner.None? ==>
                  var s' := Run(begun + rest);
                  t in s'.threads && s'.threads[t].pc.Running? && OnSince(s'.log, from, t, e))
  {
    var s := Run(schedule);
    var begun := schedule + [Spawn(t, e, Start), Advance(t, first)];
    RunOne(schedule, Spawn(t, e, Start));
    RunOne(schedule + [Spawn(t, e, Start)], Advance(t, first));
    assert begun == schedule + [Spawn(t, e, Start)] + [Advance(t, first)];
    FirstStep(Next(s, Spawn(t, e, Start)), t, e, first);
    if s.owner.None? {
      assert Starting(Run(begun), t, e, 0, |Run(begun).log|);
      ClaimedStartRuns(begun, t, e, rest);
      var s' := Run(begun + rest);
      var j :| |Run(begun).log| <= j < |s'.log| && s'.log[j] == On(t, e, true);
    }
  }

  lemma FirstStep(s: Sys, t: nat, e: Engine, first: Answer)
    requires t in s.threads && s.threads[t] == Thread(e, Start, Entering, false)
    ensures var s' := Step(s, t, first);
            && s'.threads[t] == s.threads[t].(pc := if s.owner.Some? then Ended else Claimed)
            && s'.log == if s.owner.Some? then s.log else s.log + [Acquired(t, e)]
  {
  }

  // --- who may switch the output on ---

  /** Every output-on write, made or about to be made, is that of a Start. */
  ghost predicate StartsEnergise(s: Sys) {
    && (forall i | 0 <= i < |s.log| && s.log[i].On? :: IsStart(s, By(s.log[i]), s.log[i].e))
    && (forall t | t in s.threads && s.threads[t].pc.Energising? :: s.threads[t].call.Start?)
  }

  predicate IsStart(s: Sys, t: nat, e: Engine) {
    t in s.threads && s.threads[t].call.Start? && s.threads[t].engine == e
  }

  lemma StepStartsEnergise(s: Sys, t: nat, answer: Answer)
    requires StartsEnergise(s) && t in s.threads
    ensures StartsEnergise(Step(s, t, answer))
  {
    var s', x := Step(s, t, answer), Act(s.owner, s.active, t, s.threads[t], answer);
    assert x.pc.Energising? ==> s.threads[t].call.Start?;
    assert x.entry.Some? && x.entry.value.On? ==> x.entry.value.e == s.threads[t].engine && s.threads[t].pc.Energising?;
    EntriesAreOwn(s, t, answer);
    forall i | 0 <= i < |s'.log| && s'.log[i].On? ensures IsStart(s', By(s'.log[i]), s'.log[i].e) {
      if i < |s.log| { assert IsStart(s, By(s.log[i]), s.log[i].e); }
    }
  }

  lemma {:induction false} StartsAlwaysEnergise(schedule: seq<Action>)
    ensures StartsEnergise(Run(schedule))
  {
    if schedule != [] {
      var s, a := Run(schedule[..|schedule| - 1]), schedule[|schedule| - 1];
      StartsAlwaysEnergise(schedule[..|schedule| - 1]);
      if a.Advance? && a.t in s.threads {
        StepStartsEnergise(s, a.t, a.answer);
      } else {
        QuietStartsEnergise(s, Next(s, a));
      }
    }
  }

  lemma QuietStartsEnergise(s: Sys, s': Sys)
    requires StartsEnergise(s) && Quiet(s, s')
    ensures StartsEnergise(s')
  {
    forall i | 0 <= i < |s'.log| && s'.log[i].On? ensures IsStart(s', By(s'.log[i]), s'.log[i].e) {
      assert IsStart(s, By(s.log[i]), s.log[i].e);
    }
  }

  /** Only a Start of the engine named writes the output on. */
  lemma OnlyStartsEnergise(schedule: seq<Action>, i: nat)
    requires i < |Run(schedule).log| && Run(schedule).log[i].On?
    ensures var s, w := Run(schedule), Run(schedule).log[i];
            w.t in s.threads && s.threads[w.t].call.Start? && s.threads[w.t].engine == w.e
  {
    StartsAlwaysEnergise(schedule);
    assert IsStart(Run(schedule), By(Run(schedule).log[i]), Run(schedule).log[i].e);
  }

  /** What call t adds to the log is its release. */
  ghost predicate OnlyReleases(log: seq<Entry>, log': seq<Entry>, t: nat) {
    log <= log' && forall i | |log| <= i < |log'| && By(log'[i]) == t :: log'[i].Released?
  }

  lemma WithdrawnNext(s: Sys, a: Action, t: nat)
    requires t in s.threads && Withdrawn(s.threads[t])
    ensures var s' := Next(s, a); t in s'.threads && Withdrawn(s'.threads[t]) && OnlyReleases(s.log, s'.log, t)
  {
    if !(a.Advance? && a.t == t) { OthersLeaveThread(s, a, t); }
  }

  lemma ReleasesAgain(a: seq<Entry>, b: seq<Entry>, c: seq<Entry>, t: nat)
    requires OnlyReleases(a, b, t) && OnlyReleases(b, c, t)
    ensures OnlyReleases(a, c, t)
  {
    assert forall i | 0 <= i < |b| :: c[i] == b[i];
  }

  /** A call on its way out, for instance a Start whose checks failed, writes nothing on any more. */
  lemma {:induction false} WithdrawnStaysOut(schedule: seq<Action>, t: nat, rest: seq<Action>)
    requires t in Run(schedule).threads && Withdrawn(Run(schedule).threads[t])
    ensures var s, s' := Run(schedule), Run(schedule + rest);
            t in s'.threads && Withdrawn(s'.threads[t]) && OnlyReleases(s.log, s'.log, t)
  {
    if rest == [] {
      assert schedule + rest == schedule;
    } else {
      var before := rest[..|rest| - 1];
      WithdrawnStaysOut(schedule, t, before);
      LastOfRest(schedule, rest);
      var s, s' := Run(schedule + before), Run(schedule + rest);
      WithdrawnNext(s, rest[|rest| - 1], t);
      ReleasesAgain(Run(schedule).log, s.log, s'.log, t);
    }
  }

  /** A charge or sweep whose checks fail, and every pre-flight, never writes the output on. */
  lemma FailedChecksNeverEnergise(schedule: seq<Action>, t: nat, answer: Answer, rest: seq<Action>)
    requires var s := Run(schedule); t in s.threads && s.threads[t].pc.Checking?
    requires !answer.Yes? || !Run(schedule).threads[t].call.Start?
    ensures var s, s' := Run(schedule), Run(schedule + [Advance(t, answer)] + rest);
            OnlyReleases(s.log, s'.log, t)
  {
    RunOne(schedule, Advance(t, answer));
    WithdrawnStaysOut(schedule + [Advance(t, answer)], t, rest);
  }

  // --- cutting a stray output ---

  /** The boot-time cut does nothing while its engine has a run, or while anybody holds the interlock. */
  lemma BootCutLeavesRunsAlone(schedule: seq<Action>, t: nat, first: Answer, second: Answer, e: Engine)
    requires t !in Run(schedule).threads && e != Sequence && (e in Run(schedule).active || Run(schedule).owner.Some?)
    ensures var s := Run(schedule);
            var s' := Run(schedule + [Spawn(t, e, BootCut), Advance(t, first), Advance(t, second)]);
            s'.log == s.log && s'.owner == s.owner && t in s'.threads && s'.threads[t].pc.Ended?
  {
    var spawned := Next(Run(schedule), Spawn(t, e, BootCut));
    RunOne(schedule, Spawn(t, e, BootCut));
    RunOne(schedule + [Spawn(t, e, BootCut)], Advance(t, first));
    RunOne(schedule + [Spawn(t, e, BootCut)] + [Advance(t, first)], Advance(t, second));
    assert schedule + [Spawn(t, e, BootCut), Advance(t, first), Advance(t, second)]
           == schedule + [Spawn(t, e, BootCut)] + [Advance(t, first)] + [Advance(t, second)];
    TurnedAway(spawned, t, first, second);
  }

  lemma TurnedAway(s: Sys, t: nat, first: Answer, second: Answer)
    requires t in s.threads && s.threads[t].call.BootCut? && s.threads[t].pc.Entering?
    requires s.threads[t].engine in s.active || s.owner.Some?
    ensures var s' := Step(Step(s, t, first), t, second);
            s'.log == s.log && s'.owner == s.owner && t in s'.threads && s'.threads[t].pc.Ended?
  {
  }

  /** With nobody in its way it claims the interlock, switches off with up to three tries, and releases. */
  lemma BootCutSwitchesOff(schedule: seq<Action>, t: nat, e: Engine, a: Answer, b: Answer, c: Answer, d: Answer)
    requires t !in Run(schedule).threads && e != Sequence && e !in Run(schedule).active && Run(schedule).owner.None?
    ensures var s := Run(schedule);
            var s' := Run(schedule + [Spawn(t, e, BootCut), Advance(t, Yes), Advance(t, d)]);
            && s'.owner == Some(e) && s'.log == s.log + [Acquired(t, e)] && t in s'.threads
            && s'.log + [Off(t, a.Yes? || b.Yes? || c.Yes?)] <= Step(Step(Step(s', t, a), t, b), t, c).log
            && (!a.Yes? && !b.Yes? ==>
                  var after := Step(Step(Step(Step(s', t, a), t, b), t, c), t, d);
                  after.log == s'.log + [Off(t, c.Yes?), Released(t, e, false, false)] && after.owner.None?)
  {
    var s := Next(Run(schedule), Spawn(t, e, BootCut));
    CutClaims(s, t, d);
    RunOne(schedule, Spawn(t, e, BootCut));
    RunOne(schedule + [Spawn(t, e, BootCut)], Advance(t, Yes));
    RunOne(schedule + [Spawn(t, e, BootCut)] + [Advance(t, Yes)], Advance(t, d));
    assert schedule + [Spawn(t, e, BootCut), Advance(t, Yes), Advance(t, d)]
           == schedule + [Spawn(t, e, BootCut)] + [Advance(t, Yes)] + [Advance(t, d)];
    ArmedCutGoesThrough(Step(Step(s, t, Yes), t, d), t, a, b, c, d);
  }

  lemma CutClaims(s: Sys, t: nat, d: Answer)
    requires t in s.threads && s.threads[t].call.BootCut? && s.threads[t].pc.Entering?
    requires s.threads[t].engine !in s.active && s.owner.None?
    ensures var s', e := Step(Step(s, t, Yes), t, d), s.threads[t].engine;
            && s'.threads[t] == s.threads[t].(pc := Cutting(1))
            && s'.owner == Some(e) && s'.log == s.log + [Acquired(t, e)]
  {
  }

  lemma ArmedCutGoesThrough(s: Sys, t: nat, a: Answer, b: Answer, c: Answer, d: Answer)
    requires t in s.threads && s.threads[t].pc == Cutting(1) && s.owner == Some(s.threads[t].engine)
    ensures var three := Step(Step(Step(s, t, a), t, b), t, c);
            && s.log + [Off(t, a.Yes? || b.Yes? || c.Yes?)] <= three.log
            && (!a.Yes? && !b.Yes? ==>
                  var after := Step(three, t, d);
                  after.log == s.log + [Off(t, c.Yes?), Released(t, s.threads[t].engine, false, false)]
                  && after.owner.None?)
  {
    var s1 := Step(s, t, a);
    var s2 := Step(s1, t, b);
    if a.Yes? { assert s1.log == s.log + [Off(t, true)]; }
    else if b.Yes? { assert s2.log == s.log + [Off(t, true)]; }
    else { assert Step(s2, t, c).log == s.log + [Off(t, c.Yes?)]; }
  }

  // --- steps that can go one way or the other ---

  /** A charge or sweep that energises: the write and its result are logged, unless the start order failed
      before it; unless the write succeeded, the output is cut. */
  lemma EnergisingGoesEitherWay(schedule: seq<Action>, t: nat, answer: Answer)
    requires var s := Run(schedule);
             t in s.threads && s.threads[t].pc.Energising? && s.threads[t].engine != Sequence
    ensures var s, s' := Run(schedule), Run(schedule + [Advance(t, answer)]); var e := s.threads[t].engine;
            && t in s'.threads
            && s'.log == s.log + (if answer.Early? then [] else [On(t, e, answer.Yes?)])
            && s'.threads[t].pc == if answer.Yes? then Publishing else Cutting(1)
  {
    RunOne(schedule, Advance(t, answer));
  }

  /** A run that waits for the report that its output is off: that report concludes it, a time-out marks it
      failed, and any other report lets it wait on. */
  lemma ConfirmingGoesEitherWay(schedule: seq<Action>, t: nat, answer: Answer)
    requires t in Run(schedule).threads && Run(schedule).threads[t].pc.Confirming?
    ensures var s, s' := Run(schedule), Run(schedule + [Advance(t, answer)]);
            && t in s'.threads
            && s'.log == (if answer.Yes? then s.log + [SeenOff(t)] else s.log)
            && s'.threads[t].pc ==
                 match answer case Yes => Finishing(false) case No => Finishing(true) case Early => Confirming
  {
    RunOne(schedule, Advance(t, answer));
  }

  /** A pre-flight on a free interlock claims it, checks, and releases it, and that is all. */
  lemma PreflightChecksAndReleases(schedule: seq<Action>, t: nat, a: Answer, b: Answer, c: Answer, d: Answer)
    requires t !in Run(schedule).threads && Run(schedule).owner.None?
    ensures var s := Run(schedule);
            var claimed := Run(schedule + [Spawn(t, Charge, Preflight)] + [Advance(t, a)]);
            && t in claimed.threads
            && var s' := Step(Step(Step(claimed, t, b), t, c), t, d);
               s'.log == s.log + [Acquired(t, Charge), Released(t, Charge, false, false)] && s'.owner.None?
  {
    var spawned := schedule + [Spawn(t, Charge, Preflight)];
    RunOne(schedule, Spawn(t, Charge, Preflight));
    RunOne(spawned, Advance(t, a));
    ReachableInv(spawned + [Advance(t, a)]);
    var claimed := Run(spawned + [Advance(t, a)]);
    ClaimedFindsFreeSlot(claimed, t);
    ClaimedPreflight(claimed, t, b, c, d);
  }

  lemma ClaimedPreflight(s: Sys, t: nat, b: Answer, c: Answer, d: Answer)
    requires t in s.threads && s.threads[t].pc.Claimed? && s.threads[t].call.Preflight?
    requires s.threads[t].engine !in s.active && s.owner == Some(s.threads[t].engine)
    ensures var s' := Step(Step(Step(s, t, b), t, c), t, d);
            s'.log == s.log + [Released(t, s.threads[t].engine, false, false)] && s'.owner.None?
  {
    assert Step(s, t, b).threads[t].pc.Checking?;
  }
}
