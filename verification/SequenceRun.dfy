/** The sequence interpreter: it walks the step tree, entering every node under its path, and runs one
    leaf step at a time off the telemetry stream. */
module SequenceRun {
  import opened Prelude
  import opened SequenceProgram
  import opened SequenceSteps
  import AutoStop

  type Path = seq<nat>

  datatype Event = Enter(path: Path, node: Node) | Finish(path: Path, node: Node)
  datatype Leaf = Leaf(path: Path, node: Node)
  datatype Setpoint = SetVolts(value: real) | SetAmps(value: real)

  /** What a wait for telemetry can bring; a feed that has run out leaves the run pending. */
  datatype Input = Telemetry(tick: Reading) | Trip | Cancel
  datatype Outcome = Done | Pending | Protection | Aborted | WriteFailed

  // --- the unrolling ---

  function Times<T>(s: seq<T>, n: int): seq<T> {
    if n <= 0 then [] else Times(s, n - 1) + s
  }

  /** The leaf steps in the order a program runs them, each under the path of its node. */
  function Unroll(nodes: seq<Node>, parent: Path): seq<Leaf>
    decreases nodes
  {
    if nodes == [] then []
    else
      var n, path := nodes[|nodes| - 1], parent + [|nodes| - 1];
      Unroll(nodes[..|nodes| - 1], parent)
      + (if n.Loop? then Times(Unroll(n.children, path), n.repeat) else [Leaf(path, n)])
  }

  function Unrolled(p: Program): seq<Leaf> {
    Times(Unroll(p.steps, []), p.repeat)
  }

  function NodeAt(nodes: seq<Node>, path: Path): Option<Node>
    decreases |path|
  {
    if path == [] || path[0] >= |nodes| then None
    else if |path| == 1 then Some(nodes[path[0]])
    else if nodes[path[0]].Loop? then NodeAt(nodes[path[0]].children, path[1..])
    else None
  }

  // --- the events of a run ---

  function NodeEvents(n: Node, path: Path): seq<Event>
    decreases n
  {
    [Enter(path, n)] + if n.Loop? then Times(ListEvents(n.children, path), n.repeat) else [Finish(path, n)]
  }

  function ListEvents(nodes: seq<Node>, parent: Path): seq<Event>
    decreases nodes
  {
    if nodes == [] then []
    else ListEvents(nodes[..|nodes| - 1], parent) + NodeEvents(nodes[|nodes| - 1], parent + [|nodes| - 1])
  }

  function ProgramEvents(p: Program): seq<Event> {
    Times(ListEvents(p.steps, []), p.repeat)
  }

  function Finished(events: seq<Event>): seq<Leaf> {
    if events == [] then []
    else
      var before, e := Finished(events[..|events| - 1]), events[|events| - 1];
      if e.Finish? then before + [Leaf(e.path, e.node)] else before
  }

  function Started(events: seq<Event>): seq<Leaf> {
    if events == [] then []
    else
      var before, e := Started(events[..|events| - 1]), events[|events| - 1];
      if e.Enter? && !e.node.Loop? then before + [Leaf(e.path, e.node)] else before
  }

  /** The step path the run reports: that of the node entered last. */
  function Reported(events: seq<Event>): Path {
    if events == [] then []
    else if events[|events| - 1].Enter? then events[|events| - 1].path
    else Reported(events[..|events| - 1])
  }

  /** A run that broke off during the events `all` after `before`: inside the leaf it entered last. */
  ghost predicate BrokeOff(before: seq<Event>, trace: seq<Event>, all: seq<Event>) {
    |before| < |trace| < |before| + |all| &&
    trace == before + all[..|trace| - |before|] &&
    trace[|trace| - 1].Enter? && !trace[|trace| - 1].node.Loop?
  }

  /** The run went through these events, or broke off during them. */
  ghost predicate Follows(before: seq<Event>, trace: seq<Event>, all: seq<Event>, o: Outcome) {
    if o.Done? then trace == before + all else BrokeOff(before, trace, all)
  }

  lemma BrokeOffLater(before: seq<Event>, done: seq<Event>, trace: seq<Event>, rest: seq<Event>, all: seq<Event>)
    requires BrokeOff(before + done, trace, rest) && done + rest <= all
    ensures BrokeOff(before, trace, all)
  {
    var n := |trace| - |before| - |done|;
    assert all[..|done| + n] == done + rest[..n];
  }

  /** A loop that is entered and goes through, or breaks off, as its rounds do. */
  lemma LoopGoesOn(before: seq<Event>, trace: seq<Event>, n: Node, path: Path)
    requires n.Loop?
    ensures var rounds := Times(ListEvents(n.children, path), n.repeat);
      && (trace == before + [Enter(path, n)] + rounds ==> trace == before + NodeEvents(n, path))
      && (BrokeOff(before + [Enter(path, n)], trace, rounds) ==> BrokeOff(before, trace, NodeEvents(n, path)))
  {
    var rounds := Times(ListEvents(n.children, path), n.repeat);
    assert before + ([Enter(path, n)] + rounds) == before + [Enter(path, n)] + rounds;
    if BrokeOff(before + [Enter(path, n)], trace, rounds) {
      BrokeOffLater(before, [Enter(path, n)], trace, rounds, NodeEvents(n, path));
    }
  }

  /** The same for a leaf. */
  lemma LeafGoesOn(before: seq<Event>, n: Node, path: Path)
    requires !n.Loop?
    ensures before + [Enter(path, n)] + [Finish(path, n)] == before + NodeEvents(n, path)
    ensures BrokeOff(before, before + [Enter(path, n)], NodeEvents(n, path))
  {
  }

  // --- the interpreter ---

  predicate Legal(s: Setpoint) {
    match s
    case SetVolts(v) => InRange(v, MAX_VOLTAGE)
    case SetAmps(v) => InRange(v, MAX_CURRENT)
  }

  function TargetSetpoint(target: Target, value: real): Setpoint
    requires !target.OtherTarget?
  {
    if target.Voltage? then SetVolts(value) else SetAmps(value)
  }

  function RampSetpoints(target: Target, writes: seq<Write>): (s: seq<Setpoint>)
    requires !target.OtherTarget?
    ensures |s| == |writes|
  {
    seq(|writes|, i requires 0 <= i < |writes| => TargetSetpoint(target, writes[i].value))
  }

  /** The setpoints after a ramp: all of its writes went out, or all but the last, which failed. */
  predicate Written(target: Target, before: seq<Setpoint>, writes: seq<Write>, after: seq<Setpoint>, ok: bool)
    requires !target.OtherTarget?
  {
    var all := RampSetpoints(target, writes);
    if ok then after == before + all else all != [] && after == before + all[..|all| - 1]
  }

  function LineOf(n: Node): Line
    requires n.Ramp?
  {
    Line(n.from, n.to, Truncate(n.seconds * SECOND as real))
  }

  /** The inputs of the feed from a on are these ticks. */
  ghost predicate Consumed(feed: seq<Input>, a: nat, ticks: seq<Reading>) {
    a + |ticks| <= |feed| && forall k | 0 <= k < |ticks| :: feed[a + k] == Telemetry(ticks[k])
  }

  /** How a step that took its inputs from a up to b stopped: done on its last tick, out of input, or
      by a trip or cancellation that came after its ticks. */
  ghost predicate StoppedBy(feed: seq<Input>, a: nat, b: nat, ticks: seq<Reading>, o: Outcome) {
    var n := a + |ticks|;
    Consumed(feed, a, ticks) &&
    match o
    case Done => b == n && ticks != []
    case Pending => b == n == |feed|
    case Protection => b == n + 1 <= |feed| && feed[n].Trip?
    case Aborted => b == n + 1 <= |feed| && feed[n].Cancel?
    case WriteFailed => b == n
  }

  // --- what the leaves did ---

  /** One leaf step as it was executed: the inputs it took, the ticks among them, the setpoints it wrote and
      the number of its first write attempt, and how it ended. */
  datatype Execution = Execution(leaf: Leaf, from: nat, to: nat, ticks: seq<Reading>, first: nat,
                                 writes: seq<Setpoint>, outcome: Outcome)

  predicate WentThrough(failing: set<nat>, from: nat, to: int) {
    forall k | from <= k < to :: k !in failing
  }

  /** The attempts from `first` on went through for all writes; one more failed if the step ended by it. */
  predicate Attempted(failing: set<nat>, first: nat, writes: seq<Setpoint>, o: Outcome) {
    && WentThrough(failing, first, first + |writes|)
    && (o.WriteFailed? ==> first + |writes| in failing)
  }

  function NextAttempt(x: Execution): nat {
    x.first + |x.writes| + if x.outcome.WriteFailed? then 1 else 0
  }

  /** What a step should have written: a hold its two setpoints, a ramp the ramp of its ticks. A step that
      ended by a failed write has written less, and ended at the attempt to write the next one. */
  ghost predicate WroteRight(n: Node, ticks: seq<Reading>, writes: seq<Setpoint>, o: Outcome) {
    match n
    case SetHold(volts, amps, _) =>
      if o.WriteFailed? then ticks == [] && (writes == [] || writes == [SetVolts(volts)])
      else writes == [SetVolts(volts), SetAmps(amps)]
    case Ramp(target, _, _, _) =>
      !target.OtherTarget? && Written(target, [], RampAfter(LineOf(n), ticks).writes, writes, !o.WriteFailed?)
    case _ => false
  }

  /** When a step is done: a hold on the first tick that meets its condition, a ramp when it has arrived. */
  ghost predicate EndedRight(n: Node, ticks: seq<Reading>, o: Outcome) {
    match n
    case SetHold(_, _, advance) =>
      advance.Some? && if o.Done? then JustMet(advance.value, ticks) else NeverMet(advance.value, ticks)
    case Ramp(_, _, _, _) => !o.WriteFailed? ==> (o.Done? <==> RampAfter(LineOf(n), ticks).done)
    case _ => false
  }

  ghost predicate ExecutedRight(feed: seq<Input>, failing: set<nat>, x: Execution) {
    && StoppedBy(feed, x.from, x.to, x.ticks, x.outcome)
    && Attempted(failing, x.first, x.writes, x.outcome)
    && WroteRight(x.leaf.node, x.ticks, x.writes, x.outcome)
    && EndedRight(x.leaf.node, x.ticks, x.outcome)
  }

  function AllWrites(xs: seq<Execution>): seq<Setpoint> {
    if xs == [] then [] else AllWrites(xs[..|xs| - 1]) + xs[|xs| - 1].writes
  }

  function LeavesOf(xs: seq<Execution>): seq<Leaf> {
    if xs == [] then [] else LeavesOf(xs[..|xs| - 1]) + [xs[|xs| - 1].leaf]
  }

  predicate AllDone(xs: seq<Execution>) {
    forall i | 0 <= i < |xs| :: xs[i].outcome.Done?
  }

  /** Execution i was right, and it started where the one before it stopped, in the feed and in the attempts. */
  ghost predicate RightAt(feed: seq<Input>, failing: set<nat>, xs: seq<Execution>, i: nat)
    requires i < |xs|
  {
    && ExecutedRight(feed, failing, xs[i])
    && xs[i].from == (if i == 0 then 0 else xs[i - 1].to)
    && xs[i].first == (if i == 0 then 0 else NextAttempt(xs[i - 1]))
  }

  /** Every execution was right, they are consecutive and all but possibly the last are done; they end where
      the run stands, and the setpoints are what they wrote. */
  ghost predicate Account(feed: seq<Input>, failing: set<nat>, xs: seq<Execution>, pos: nat, attempts: nat,
                          setpoints: seq<Setpoint>) {
    && (forall i: nat | i < |xs| :: RightAt(feed, failing, xs, i))
    && (xs != [] ==> AllDone(xs[..|xs| - 1]))
    && pos == (if xs == [] then 0 else xs[|xs| - 1].to)
    && attempts == (if xs == [] then 0 else NextAttempt(xs[|xs| - 1]))
    && setpoints == AllWrites(xs)
  }

  /** The same, one execution at a time. */
  ghost predicate Kept(feed: seq<Input>, failing: set<nat>, xs: seq<Execution>, pos: nat, attempts: nat,
                       setpoints: seq<Setpoint>) {
    if xs == [] then pos == 0 && attempts == 0 && setpoints == []
    else
      var before, x := xs[..|xs| - 1], xs[|xs| - 1];
      && (before != [] ==> before[|before| - 1].outcome.Done?)
      && Kept(feed, failing, before, x.from, x.first, AllWrites(before))
      && ExecutedRight(feed, failing, x)
      && pos == x.to && attempts == NextAttempt(x) && setpoints == AllWrites(xs)
  }

  /** Whether and how the last execution broke the run off. */
  predicate EndsWith(xs: seq<Execution>, o: Outcome) {
    if o.Done? then xs == [] || xs[|xs| - 1].outcome.Done? else xs != [] && xs[|xs| - 1].outcome == o
  }

  lemma {:induction false} KeptIsAccount(feed: seq<Input>, failing: set<nat>, xs: seq<Execution>, pos: nat,
                                         attempts: nat, setpoints: seq<Setpoint>)
    requires Kept(feed, failing, xs, pos, attempts, setpoints)
    ensures Account(feed, failing, xs, pos, attempts, setpoints)
    decreases |xs|
  {
    if xs != [] {
      var before, x := xs[..|xs| - 1], xs[|xs| - 1];
      KeptIsAccount(feed, failing, before, x.from, x.first, AllWrites(before));
      forall i: nat | i < |xs| ensures RightAt(feed, failing, xs, i) {
        if i < |before| { assert RightAt(feed, failing, before, i); }
      }
      forall i | 0 <= i < |before| ensures before[i].outcome.Done? {
        if i < |before| - 1 { assert before[..|before| - 1][i].outcome.Done?; }
      }
    }
  }

  lemma OneMoreExecution(feed: seq<Input>, failing: set<nat>, xs: seq<Execution>, pos: nat, attempts: nat,
                         setpoints: seq<Setpoint>, x: Execution)
    requires Kept(feed, failing, xs, pos, attempts, setpoints) && EndsWith(xs, Done)
    requires ExecutedRight(feed, failing, x) && x.from == pos && x.first == attempts
    ensures Kept(feed, failing, xs + [x], x.to, NextAttempt(x), setpoints + x.writes)
    ensures LeavesOf(xs + [x]) == LeavesOf(xs) + [x.leaf] && EndsWith(xs + [x], x.outcome)
  {
    assert (xs + [x])[..|xs|] == xs;
    if xs == [] { assert AllWrites(xs) == setpoints; }
  }

  lemma WrittenSince(target: Target, before: seq<Setpoint>, writes: seq<Write>, after: seq<Setpoint>, ok: bool)
    returns (added: seq<Setpoint>)
    requires !target.OtherTarget? && Written(target, before, writes, after, ok)
    ensures after == before + added && Written(target, [], writes, added, ok)
    ensures |added| == if ok then |writes| else |writes| - 1
  {
    var all := RampSetpoints(target, writes);
    added := if ok then all else all[..|all| - 1];
    assert [] + all == all && [] + all[..|added|] == added;
  }

  /** The time of a ramp's last write, if there is one. */
  predicate LastWrite(ramp: Ramping, have: bool, at: int) {
    if have then ramp.writes != [] && at == ramp.writes[|ramp.writes| - 1].ts else ramp.writes == []
  }

  class Run {
    const feed: seq<Input>
    const failing: set<nat>
    var pos: nat
    var attempts: nat
    var setpoints: seq<Setpoint>
    var currentPath: Path
    ghost var trace: seq<Event>
    ghost var ran: seq<Execution>

    ghost predicate Sane() reads this {
      pos <= |feed| && forall s | s in setpoints :: Legal(s)
    }

    ghost predicate Valid() reads this {
      Sane() && currentPath == Reported(trace) && Kept(feed, failing, ran, pos, attempts, setpoints)
    }

    /** The leaves executed are those entered, and what has been run ended by this outcome. */
    ghost predicate Stands(o: Outcome) reads this {
      Valid() && LeavesOf(ran) == Started(trace) && EndsWith(ran, o)
    }

    constructor (feed: seq<Input>, failing: set<nat>)
      ensures Stands(Done) && trace == [] && this.feed == feed && this.failing == failing
    {
      this.feed, this.failing, pos, attempts, setpoints, currentPath := feed, failing, 0, 0, [], [];
      trace, ran := [], [];
    }

    method Write(s: Setpoint) returns (ok: bool)
      modifies this`attempts, this`setpoints
      ensures attempts == old(attempts) + 1 && ok == (old(attempts) !in failing)
      ensures setpoints == if ok then old(setpoints) + [s] else old(setpoints)
    {
      ok := attempts !in failing;
      attempts := attempts + 1;
      if ok { setpoints := setpoints + [s]; }
    }

    /** Waits for the next tick; Done means there is one. */
    method NextTelemetry(ghost a: nat, ghost ticks: seq<Reading>) returns (o: Outcome, t: Reading)
      requires Consumed(feed, a, ticks) && pos == a + |ticks|
      modifies this`pos
      ensures o.Done? ==> Consumed(feed, a, ticks + [t]) && pos == a + |ticks| + 1
      ensures !o.Done? ==> !o.WriteFailed? && StoppedBy(feed, a, pos, ticks, o)
    {
      t := Reading(0, 0.0, 0.0, 0.0);
      if pos == |feed| { return Pending, t; }
      var input := feed[pos];
      pos := pos + 1;
      match input
      case Telemetry(tick) => o, t := Done, tick;
      case Trip => o := Protection;
      case Cancel => o := Aborted;
    }

    /** Ends on the first tick at which the advance condition is met. */
    method RunSetHold(n: Node) returns (o: Outcome, ghost ticks: seq<Reading>, ghost writes: seq<Setpoint>)
      requires Sane() && n.SetHold? && NodeValid(n)
      modifies this`pos, this`attempts, this`setpoints
      ensures Sane() && StoppedBy(feed, old(pos), pos, ticks, o)
      ensures EndedRight(n, ticks, o) && WroteRight(n, ticks, writes, o)
      ensures setpoints == old(setpoints) + writes && Attempted(failing, old(attempts), writes, o)
      ensures attempts == old(attempts) + |writes| + if o.WriteFailed? then 1 else 0
    {
      ticks, writes := [], [];
      var ok := Write(SetVolts(n.volts));
      if !ok { return WriteFailed, ticks, writes; }
      writes := [SetVolts(n.volts)];
      ok := Write(SetAmps(n.amps));
      if !ok { return WriteFailed, ticks, writes; }
      writes := [SetVolts(n.volts), SetAmps(n.amps)];
      o, ticks := HoldUntil(n.advance.value);
    }

    method HoldUntil(c: AutoStop.Condition) returns (o: Outcome, ghost ticks: seq<Reading>)
      requires pos <= |feed|
      modifies this`pos
      ensures !o.WriteFailed? && StoppedBy(feed, old(pos), pos, ticks, o)
      ensures if o.Done? then JustMet(c, ticks) else NeverMet(c, ticks)
    {
      ticks := [];
      var state := new AdvanceState();
      while true
        invariant Consumed(feed, old(pos), ticks) && pos == old(pos) + |ticks|
        invariant fresh(state) && state.View() == WatchAfter(c, ticks) && NeverMet(c, ticks)
        decreases |feed| - pos
      {
        var t;
        o, t := NextTelemetry(old(pos), ticks);
        if !o.Done? { return; }
        ObservesFirst(c, ticks, t);
        ticks := ticks + [t];
        var holds := state.Observe(c, t);
        if holds { return; }
      }
    }

    /** How far along the line a tick lies, and whether that is its end. */
    method RampFraction(line: Line, elapsed: int) returns (frac: real, done: bool)
      ensures frac == Fraction(line, elapsed) && done == Arrived(line, elapsed)
    {
      frac := 1.0;
      if line.dur > 0 {
        frac := elapsed as real / line.dur as real;
        ClampedFraction(line, elapsed);
      }
      if frac < 0.0 { frac := 0.0; }
      done := frac >= 1.0;
      if done { frac := 1.0; }
    }

    /** One tick of a ramp: writes the point of the line, unless the last write is too recent. */
    method RampTick(n: Node, line: Line, t: Reading, start: int, haveLast: bool, lastWrite: int,
                    ghost ramp: Ramping, ghost earlier: seq<Setpoint>, ghost first: nat)
      returns (ok: bool, done: bool, haveLast': bool, lastWrite': int, ghost ramp': Ramping)
      requires n.Ramp? && NodeValid(n) && line == LineOf(n)
      requires !ramp.done && start == (if ramp.start.Some? then ramp.start.value else t.ts)
      requires LastWrite(ramp, haveLast, lastWrite)
      requires setpoints == earlier + RampSetpoints(n.target, ramp.writes)
      requires attempts == first + |ramp.writes| && WentThrough(failing, first, attempts)
      modifies this`attempts, this`setpoints
      ensures ramp' == RampStep(line, ramp, t) && done == ramp'.done
      ensures Written(n.target, earlier, ramp'.writes, setpoints, ok)
      ensures ramp'.start == Some(start) && (ok ==> LastWrite(ramp', haveLast', lastWrite'))
      ensures attempts == first + |ramp'.writes|
      ensures if ok then WentThrough(failing, first, attempts)
              else WentThrough(failing, first, attempts - 1) && attempts - 1 in failing
    {
      ramp' := RampStep(line, ramp, t);
      ok, haveLast', lastWrite' := true, haveLast, lastWrite;
      var frac;
      frac, done := RampFraction(line, t.ts - start);
      if done || !haveLast || t.ts - lastWrite >= RAMP_MIN_INTERVAL {
        SetpointsGrow(n.target, ramp.writes, SequenceSteps.Write(t.ts, Along(line, frac)));
        ok := Write(TargetSetpoint(n.target, Along(line, frac)));
        haveLast', lastWrite' := true, t.ts;
      }
    }

    method FollowRamp(n: Node, line: Line) returns (o: Outcome, ghost ticks: seq<Reading>, ghost ramp: Ramping)
      requires pos <= |feed| && n.Ramp? && NodeValid(n) && line == LineOf(n)
      modifies this`pos, this`attempts, this`setpoints
      ensures StoppedBy(feed, old(pos), pos, ticks, o) && ramp == RampAfter(line, ticks)
      ensures Written(n.target, old(setpoints), ramp.writes, setpoints, !o.WriteFailed?)
      ensures !o.WriteFailed? ==> (o.Done? <==> ramp.done)
      ensures attempts == old(attempts) + |ramp.writes|
      ensures if o.WriteFailed? then WentThrough(failing, old(attempts), attempts - 1) && attempts - 1 in failing
              else WentThrough(failing, old(attempts), attempts)
    {
      var start, lastWrite, haveStart, haveLast := 0, 0, false, false;
      ghost var a, before, first := pos, setpoints, attempts;
      ticks, ramp := [], UNRAMPED;
      while true
        invariant Consumed(feed, a, ticks) && pos == a + |ticks|
        invariant ramp == RampAfter(line, ticks) && !ramp.done
        invariant ramp.start == (if haveStart then Some(start) else None)
        invariant LastWrite(ramp, haveLast, lastWrite)
        invariant Written(n.target, before, ramp.writes, setpoints, true)
        invariant attempts == first + |ramp.writes| && WentThrough(failing, first, attempts)
        decreases |feed| - pos
      {
        var t;
        o, t := NextTelemetry(a, ticks);
        if !o.Done? { return; }
        RampNext(line, ticks, t);
        ticks := ticks + [t];
        if !haveStart {
          start, haveStart := t.ts, true;
        }
        var ok, done;
        ok, done, haveLast, lastWrite, ramp := RampTick(n, line, t, start, haveLast, lastWrite, ramp, before, first);
        if !ok || done { return if ok then Done else WriteFailed, ticks, ramp; }
      }
    }

    /** Writes the ramp of the ticks it consumes and ends when that ramp is done. */
    method RunRamp(n: Node) returns (o: Outcome, ghost ticks: seq<Reading>, ghost writes: seq<Setpoint>)
      requires Sane() && n.Ramp? && NodeValid(n)
      modifies this`pos, this`attempts, this`setpoints
      ensures Sane() && StoppedBy(feed, old(pos), pos, ticks, o)
      ensures EndedRight(n, ticks, o) && WroteRight(n, ticks, writes, o)
      ensures setpoints == old(setpoints) + writes && Attempted(failing, old(attempts), writes, o)
      ensures attempts == old(attempts) + |writes| + if o.WriteFailed? then 1 else 0
    {
      ghost var ramp;
      o, ticks, ramp := FollowRamp(n, LineOf(n));
      AllLegal(old(setpoints), n, ticks, setpoints);
      writes := WrittenSince(n.target, old(setpoints), ramp.writes, setpoints, !o.WriteFailed?);
    }

    // --- walking the tree ---

    method EnterNode(path: Path, ghost n: Node)
      requires Stands(Done)
      modifies this`currentPath, this`trace
      ensures Valid() && currentPath == path && trace == old(trace) + [Enter(path, n)]
      ensures Started(trace) == if n.Loop? then LeavesOf(ran) else LeavesOf(ran) + [Leaf(path, n)]
    {
      currentPath := path;
      trace := trace + [Enter(path, n)];
      assert trace[..|trace| - 1] == old(trace);
    }

    /** Executes one leaf and says what it did. */
    method ExecuteLeaf(n: Node, path: Path) returns (o: Outcome, ghost x: Execution)
      requires Sane() && NodeValid(n) && !n.Loop?
      modifies this`pos, this`attempts, this`setpoints
      ensures Sane() && ExecutedRight(feed, failing, x) && x.leaf == Leaf(path, n) && x.outcome == o
      ensures x.from == old(pos) && x.to == pos && x.first == old(attempts) && attempts == NextAttempt(x)
      ensures setpoints == old(setpoints) + x.writes
    {
      ghost var ticks, writes;
      if n.SetHold? { o, ticks, writes := RunSetHold(n); } else { o, ticks, writes := RunRamp(n); }
      x := Execution(Leaf(path, n), old(pos), pos, ticks, old(attempts), writes, o);
    }

    /** A leaf finishes, or the run breaks off inside it; either way it runs under its own path. */
    method RunLeaf(n: Node, path: Path) returns (o: Outcome)
      requires Valid() && NodeValid(n) && !n.Loop? && currentPath == path
      requires EndsWith(ran, Done) && Started(trace) == LeavesOf(ran) + [Leaf(path, n)]
      modifies this
      ensures Stands(o) && trace == if o.Done? then old(trace) + [Finish(path, n)] else old(trace)
    {
      ghost var x;
      o, x := ExecuteLeaf(n, path);
      OneMoreExecution(feed, failing, ran, old(pos), old(attempts), old(setpoints), x);
      ran := ran + [x];
      if o.Done? {
        trace := trace + [Finish(path, n)];
        assert trace[..|trace| - 1] == old(trace);
      }
    }

    method RunNodes(nodes: seq<Node>, parent: Path) returns (o: Outcome)
      requires Stands(Done) && AllValid(nodes)
      modifies this
      ensures Stands(o)
      ensures Follows(old(trace), trace, ListEvents(nodes, parent), o)
      decreases nodes, 0
    {
      ghost var before := trace;
      var i := 0;
      while i < |nodes|
        invariant Stands(Done) && 0 <= i <= |nodes|
        invariant trace == before + ListEvents(nodes[..i], parent)
      {
        o := RunNode(nodes[i], parent + [i]);
        if !o.Done? {
          ListBrokeOff(before, trace, nodes, i, parent);
          return;
        }
        ListGoesOn(before, trace, nodes, i, parent);
        i := i + 1;
      }
      assert nodes[..i] == nodes;
      o := Done;
    }

    method RunNode(n: Node, path: Path) returns (o: Outcome)
      requires Stands(Done) && NodeValid(n)
      modifies this
      ensures Stands(o)
      ensures Follows(old(trace), trace, NodeEvents(n, path), o)
      decreases n
    {
      EnterNode(path, n);
      if n.Loop? {
        o := Repeat(n.children, path, n.repeat);
        LoopGoesOn(old(trace), trace, n, path);
      } else {
        o := RunLeaf(n, path);
        LeafGoesOn(old(trace), n, path);
      }
    }

    /** One more round of a list that is run a number of times over. */
    method RunRound(nodes: seq<Node>, parent: Path, repeat: int, ghost before: seq<Event>, ghost i: nat)
      returns (o: Outcome)
      requires Stands(Done) && AllValid(nodes) && i < repeat
      requires trace == before + Times(ListEvents(nodes, parent), i)
      modifies this
      ensures Stands(o)
      ensures if o.Done? then trace == before + Times(ListEvents(nodes, parent), i + 1)
              else BrokeOff(before, trace, Times(ListEvents(nodes, parent), repeat))
      decreases nodes, 1
    {
      o := RunNodes(nodes, parent);
      if o.Done? {
        RoundGoesOn(before, trace, ListEvents(nodes, parent), i);
      } else {
        RoundBrokeOff(before, trace, ListEvents(nodes, parent), i, repeat);
      }
    }

    /** Runs a list of nodes a number of times over, as a loop does with its children and the program
        with its steps. */
    method Repeat(nodes: seq<Node>, parent: Path, repeat: int) returns (o: Outcome)
      requires Stands(Done) && AllValid(nodes) && repeat >= 1
      modifies this
      ensures Stands(o)
      ensures Follows(old(trace), trace, Times(ListEvents(nodes, parent), repeat), o)
      decreases nodes, 2
    {
      ghost var before := trace;
      var i := 0;
      while i < repeat
        invariant Stands(Done) && 0 <= i <= repeat
        invariant trace == before + Times(ListEvents(nodes, parent), i)
      {
        o := RunRound(nodes, parent, repeat, before, i);
        if !o.Done? { return; }
        i := i + 1;
      }
      o := Done;
    }

    /** Runs the program. The leaf steps are executed in the order of its unrolling, all of them exactly on
        success; a run that ends early does so inside the next leaf, under that leaf's path, by the outcome
        of that leaf. What every leaf consumed and wrote, and why it ended, is on account. */
    method Drive(p: Program) returns (o: Outcome)
      requires Stands(Done) && trace == [] && ran == [] && Runnable(p)
      modifies this
      ensures Stands(o) && Account(feed, failing, ran, pos, attempts, setpoints)
      ensures o.Done? ==> LeavesOf(ran) == Unrolled(p)
      ensures !o.Done? ==> LeavesOf(ran) <= Unrolled(p) && currentPath == ran[|ran| - 1].leaf.path
      ensures o.Done? <==> Finished(trace) == Unrolled(p)
      ensures !o.Done? ==> BrokeInside(p, Finished(trace), Started(trace), currentPath)
      ensures forall e | e in trace :: NodeAt(p.steps, e.path) == Some(e.node)
      ensures forall s | s in setpoints :: Legal(s)
    {
      o := Repeat(p.steps, [], p.repeat);
      RunFollowsUnrolling(p, trace, o.Done?);
      EventsOfTrace(p, trace, o.Done?);
      KeptIsAccount(feed, failing, ran, pos, attempts, setpoints);
      LastLeaf(ran);
    }
  }

  lemma LastLeaf(xs: seq<Execution>)
    ensures xs != [] ==> LeavesOf(xs) != [] && LeavesOf(xs)[|LeavesOf(xs)| - 1] == xs[|xs| - 1].leaf
  {
  }

  lemma RoundBrokeOff(before: seq<Event>, trace: seq<Event>, round: seq<Event>, i: nat, n: int)
    requires i < n && BrokeOff(before + Times(round, i), trace, round)
    ensures BrokeOff(before, trace, Times(round, n))
  {
    NextRound(round, i, n);
    BrokeOffLater(before, Times(round, i), trace, round, Times(round, n));
  }

  lemma ListGoesOn(before: seq<Event>, trace: seq<Event>, nodes: seq<Node>, i: nat, parent: Path)
    requires i < |nodes|
    requires trace == before + ListEvents(nodes[..i], parent) + NodeEvents(nodes[i], parent + [i])
    ensures trace == before + ListEvents(nodes[..i + 1], parent)
  {
    NextEvents(nodes, i, parent);
  }

  lemma RoundGoesOn(before: seq<Event>, trace: seq<Event>, round: seq<Event>, i: nat)
    requires trace == before + Times(round, i) + round
    ensures trace == before + Times(round, i + 1)
  {
  }

  lemma ListBrokeOff(before: seq<Event>, trace: seq<Event>, nodes: seq<Node>, i: nat, parent: Path)
    requires i < |nodes|
    requires BrokeOff(before + ListEvents(nodes[..i], parent), trace, NodeEvents(nodes[i], parent + [i]))
    ensures BrokeOff(before, trace, ListEvents(nodes, parent))
  {
    NextEvents(nodes, i, parent);
    BrokeOffLater(before, ListEvents(nodes[..i], parent), trace, NodeEvents(nodes[i], parent + [i]),
                  ListEvents(nodes, parent));
  }

  lemma {:induction false} NextRound<T>(s: seq<T>, i: nat, n: int)
    requires i < n
    ensures Times(s, i) + s <= Times(s, n)
    decreases n
  {
    if i < n - 1 { NextRound(s, i, n - 1); }
  }

  lemma {:induction false} NextEvents(nodes: seq<Node>, i: nat, parent: Path)
    requires i < |nodes|
    ensures ListEvents(nodes[..i + 1], parent) == ListEvents(nodes[..i], parent) + NodeEvents(nodes[i], parent + [i])
    ensures ListEvents(nodes[..i + 1], parent) <= ListEvents(nodes, parent)
    decreases |nodes|
  {
    assert nodes[..i + 1][..i] == nodes[..i];
    if i + 1 < |nodes| {
      var shorter := nodes[..|nodes| - 1];
      NextEvents(shorter, i, parent);
      assert shorter[..i + 1] == nodes[..i + 1];
    } else {
      assert nodes[..i + 1] == nodes;
    }
  }

  lemma RampNext(line: Line, ticks: seq<Reading>, t: Reading)
    ensures RampAfter(line, ticks + [t]) == RampStep(line, RampAfter(line, ticks), t)
  {
    assert (ticks + [t])[..|ticks|] == ticks;
  }

  lemma SetpointsGrow(target: Target, writes: seq<Write>, w: Write)
    requires !target.OtherTarget?
    ensures RampSetpoints(target, writes + [w]) == RampSetpoints(target, writes) + [TargetSetpoint(target, w.value)]
  {
  }

  /** Setpoints that were legal stay so when a ramp, or all of it but the last write, is added. */
  lemma AllLegal(before: seq<Setpoint>, n: Node, ticks: seq<Reading>, after: seq<Setpoint>)
    requires n.Ramp? && NodeValid(n) && forall s | s in before :: Legal(s)
    requires var all := RampSetpoints(n.target, RampAfter(LineOf(n), ticks).writes); after <= before + all
    ensures forall s | s in after :: Legal(s)
  {
    var all := RampSetpoints(n.target, RampAfter(LineOf(n), ticks).writes);
    if ticks != [] { RampIsLegal(n, ticks); }
    forall s | s in after ensures s in before || s in all {
      var k :| 0 <= k < |after| && after[k] == s;
      assert (before + all)[k] == s;
    }
  }

  lemma RampIsLegal(n: Node, ticks: seq<Reading>)
    requires n.Ramp? && NodeValid(n) && ticks != []
    ensures forall s | s in RampSetpoints(n.target, RampAfter(LineOf(n), ticks).writes) :: Legal(s)
  {
    RampStaysBetween(LineOf(n), ticks);
  }

  // --- the events against the unrolling ---

  lemma {:induction false} LeavesAppend(a: seq<Event>, b: seq<Event>)
    ensures Finished(a + b) == Finished(a) + Finished(b) && Started(a + b) == Started(a) + Started(b)
  {
    if b == [] {
      assert a + b == a;
    } else {
      var shorter := b[..|b| - 1];
      LeavesAppend(a, shorter);
      assert (a + b)[..|a + b| - 1] == a + shorter;
    }
  }

  lemma {:induction false} LeavesOfTimes(s: seq<Event>, n: int)
    ensures Finished(Times(s, n)) == Times(Finished(s), n) && Started(Times(s, n)) == Times(Started(s), n)
  {
    if n > 0 {
      LeavesOfTimes(s, n - 1);
      LeavesAppend(Times(s, n - 1), s);
    }
  }

  /** Both the leaves started and the leaves finished over all events are the unrolling. */
  lemma {:induction false} EventsUnroll(nodes: seq<Node>, parent: Path)
    ensures Finished(ListEvents(nodes, parent)) == Unroll(nodes, parent)
    ensures Started(ListEvents(nodes, parent)) == Unroll(nodes, parent)
    decreases nodes
  {
    if nodes != [] {
      var before, n, path := nodes[..|nodes| - 1], nodes[|nodes| - 1], parent + [|nodes| - 1];
      EventsUnroll(before, parent);
      LeavesAppend(ListEvents(before, parent), NodeEvents(n, path));
      if n.Loop? {
        EventsUnroll(n.children, path);
        LoopUnrolls(n, path);
      } else {
        LeafUnrolls(n, path);
      }
    }
  }

  lemma LoopUnrolls(n: Node, path: Path)
    requires n.Loop?
    requires var all := ListEvents(n.children, path);
             Finished(all) == Unroll(n.children, path) == Started(all)
    ensures Finished(NodeEvents(n, path)) == Times(Unroll(n.children, path), n.repeat)
    ensures Started(NodeEvents(n, path)) == Times(Unroll(n.children, path), n.repeat)
  {
    LeavesOfTimes(ListEvents(n.children, path), n.repeat);
    LeavesAppend([Enter(path, n)], Times(ListEvents(n.children, path), n.repeat));
    assert [Enter(path, n)][..0] == [];
  }

  lemma LeafUnrolls(n: Node, path: Path)
    requires !n.Loop?
    ensures Finished(NodeEvents(n, path)) == [Leaf(path, n)] == Started(NodeEvents(n, path))
  {
    LeavesAppend([Enter(path, n)], [Finish(path, n)]);
    assert [Enter(path, n)][..0] == [] && [Finish(path, n)][..0] == [];
  }

  /** Entering a leaf and finishing it come in adjacent pairs. */
  predicate PairedAt(events: seq<Event>, i: nat)
    requires i < |events|
  {
    && (events[i].Enter? && !events[i].node.Loop? ==>
          i + 1 < |events| && events[i + 1] == Finish(events[i].path, events[i].node))
    && (events[i].Finish? ==>
          i > 0 && !events[i].node.Loop? && events[i - 1] == Enter(events[i].path, events[i].node))
  }

  ghost predicate Paired(events: seq<Event>) {
    forall i | 0 <= i < |events| :: PairedAt(events, i)
  }

  lemma PairsAppend(a: seq<Event>, b: seq<Event>)
    requires Paired(a) && Paired(b)
    ensures Paired(a + b)
  {
    var c := a + b;
    forall i | 0 <= i < |c| ensures PairedAt(c, i) {
      if i < |a| {
        assert PairedAt(a, i);
        assert c[i] == a[i] && (i + 1 < |a| ==> c[i + 1] == a[i + 1]) && (i > 0 ==> c[i - 1] == a[i - 1]);
      } else {
        var j := i - |a|;
        assert PairedAt(b, j);
        assert c[i] == b[j] && (j + 1 < |b| ==> c[i + 1] == b[j + 1]) && (j > 0 ==> c[i - 1] == b[j - 1]);
      }
    }
  }

  lemma {:induction false} PairsRepeat(s: seq<Event>, n: int)
    requires Paired(s)
    ensures Paired(Times(s, n))
  {
    if n > 0 {
      PairsRepeat(s, n - 1);
      PairsAppend(Times(s, n - 1), s);
    }
  }

  lemma {:induction false} EventsPair(nodes: seq<Node>, parent: Path)
    ensures Paired(ListEvents(nodes, parent))
    decreases nodes
  {
    if nodes != [] {
      var before, n, path := nodes[..|nodes| - 1], nodes[|nodes| - 1], parent + [|nodes| - 1];
      EventsPair(before, parent);
      if n.Loop? {
        EventsPair(n.children, path);
        PairsRepeat(ListEvents(n.children, path), n.repeat);
        PairsAppend([Enter(path, n)], Times(ListEvents(n.children, path), n.repeat));
      }
      PairsAppend(ListEvents(before, parent), NodeEvents(n, path));
    }
  }

  predicate InsideLeaf(trace: seq<Event>) {
    trace != [] && trace[|trace| - 1].Enter? && !trace[|trace| - 1].node.Loop?
  }

  lemma {:induction false} StartedLeadsByOne(events: seq<Event>, k: nat)
    requires Paired(events) && k <= |events|
    ensures var t := events[..k];
            Started(t) == if InsideLeaf(t) then Finished(t) + [Leaf(t[k - 1].path, t[k - 1].node)] else Finished(t)
  {
    if k > 0 {
      StartedLeadsByOne(events, k - 1);
      assert events[..k][..k - 1] == events[..k - 1];
      assert PairedAt(events, k - 1);
      if k > 1 { assert PairedAt(events, k - 2); }
    }
  }

  /** A run that ended inside a leaf: those before it in the unrolling are finished, and the reported
      path is the leaf's own. */
  ghost predicate BrokeInside(p: Program, finished: seq<Leaf>, started: seq<Leaf>, reported: Path) {
    var n := |finished|;
    && n < |Unrolled(p)| && finished == Unrolled(p)[..n] && started == Unrolled(p)[..n + 1]
    && reported == Unrolled(p)[n].path
  }

  /** A part of the events that ends inside a leaf has started one leaf more than it finished. */
  lemma PartIsInside(all: seq<Event>, trace: seq<Event>, leaves: seq<Leaf>)
    requires Paired(all) && Started(all) == leaves
    requires trace <= all && InsideLeaf(trace)
    ensures var n := |Finished(trace)|;
            n < |leaves| && Finished(trace) == leaves[..n] && Started(trace) == leaves[..n + 1]
            && Reported(trace) == leaves[n].path
  {
    var rest, last := all[|trace|..], trace[|trace| - 1];
    assert all[..|trace|] == trace && trace + rest == all;
    StartedLeadsByOne(all, |trace|);
    LeavesAppend(trace, rest);
    assert Started(trace) == Finished(trace) + [Leaf(last.path, last.node)];
    assert leaves[|Finished(trace)|] == Started(trace)[|Finished(trace)|];
  }

  lemma RunFollowsUnrolling(p: Program, trace: seq<Event>, done: bool)
    requires if done then trace == ProgramEvents(p) else BrokeOff([], trace, ProgramEvents(p))
    ensures done <==> Finished(trace) == Unrolled(p)
    ensures done ==> Started(trace) == Unrolled(p)
    ensures !done ==> BrokeInside(p, Finished(trace), Started(trace), Reported(trace))
  {
    EventsUnroll(p.steps, []);
    LeavesOfTimes(ListEvents(p.steps, []), p.repeat);
    if !done {
      EventsPair(p.steps, []);
      PairsRepeat(ListEvents(p.steps, []), p.repeat);
      PartIsInside(ProgramEvents(p), trace, Unrolled(p));
    }
  }

  lemma {:induction false} AddressedTimes(s: seq<Event>, n: int, e: Event)
    requires e in Times(s, n)
    ensures e in s
  {
    if n > 0 && e !in s { AddressedTimes(s, n - 1, e); }
  }

  /** Every event carries the path of its node. */
  lemma {:induction false} EventsAreAddressed(nodes: seq<Node>, parent: Path, e: Event)
    requires e in ListEvents(nodes, parent)
    ensures |parent| < |e.path| && e.path[..|parent|] == parent
    ensures NodeAt(nodes, e.path[|parent|..]) == Some(e.node)
    decreases nodes
  {
    var before, n, path := nodes[..|nodes| - 1], nodes[|nodes| - 1], parent + [|nodes| - 1];
    if e in ListEvents(before, parent) {
      EventsAreAddressed(before, parent, e);
      LongerListSameNode(nodes, e.path[|parent|..]);
    } else {
      assert e in NodeEvents(n, path);
      if e.path == path && e.node == n {
        assert path[|parent|..] == [|nodes| - 1];
      } else {
        AddressedTimes(ListEvents(n.children, path), n.repeat, e);
        EventsAreAddressed(n.children, path, e);
        assert e.path[|parent|..][0] == path[|parent|] && e.path[|parent|..][1..] == e.path[|path|..];
        assert e.path[..|parent|] == e.path[..|path|][..|parent|];
      }
    }
  }

  lemma LongerListSameNode(nodes: seq<Node>, path: Path)
    requires nodes != [] && NodeAt(nodes[..|nodes| - 1], path).Some?
    ensures NodeAt(nodes, path) == NodeAt(nodes[..|nodes| - 1], path)
  {
  }

  lemma EventsOfTrace(p: Program, trace: seq<Event>, done: bool)
    requires if done then trace == ProgramEvents(p) else BrokeOff([], trace, ProgramEvents(p))
    ensures forall e | e in trace :: NodeAt(p.steps, e.path) == Some(e.node)
  {
    forall e | e in trace ensures NodeAt(p.steps, e.path) == Some(e.node) {
      assert e in ProgramEvents(p);
      AddressedTimes(ListEvents(p.steps, []), p.repeat, e);
      EventsAreAddressed(p.steps, [], e);
      assert e.path[0..] == e.path;
    }
  }

  // --- an executed ramp in figures ---

  /** Write i of an executed ramp, made at tick k: the setpoint ramped, on the straight line between the
      node's own endpoints. */
  predicate RampsAt(n: Node, ticks: seq<Reading>, k: nat, s: Setpoint)
    requires n.Ramp?
  {
    && k < |ticks| && (s.SetVolts? <==> n.target.Voltage?)
    && var dur := Truncate(n.seconds * SECOND as real);
       if dur > 0 then OnStraight(Line(n.from, n.to, dur), ticks[k].ts - ticks[0].ts, s.value) else s.value == n.to
  }

  lemma WriteRampsAt(n: Node, ticks: seq<Reading>, k: nat, i: nat)
    requires n.Ramp? && !n.target.OtherTarget? && k < |ticks|
    requires var writes := RampAfter(LineOf(n), ticks).writes; i < |writes| && writes[i].ts == ticks[k].ts
    ensures RampsAt(n, ticks, k, RampSetpoints(n.target, RampAfter(LineOf(n), ticks).writes)[i])
  {
    var line := LineOf(n);
    if line.dur > 0 {
      RampIsStraight(line, ticks, i);
    } else {
      RampFollowsLine(line, ticks);
      assert Fraction(line, ticks[k].ts - ticks[0].ts) == 1.0;
    }
  }

  /** A ramp that was executed wrote the setpoint it names, each time on the straight line from its start to
      its end value: at its first tick, and at the ticks `at` on which a write was due. */
  lemma RampInFigures(feed: seq<Input>, failing: set<nat>, x: Execution) returns (at: seq<nat>)
    requires ExecutedRight(feed, failing, x) && x.leaf.node.Ramp?
    ensures var n := x.leaf.node;
            && |x.writes| <= |at| && WrittenAt(LineOf(n), x.ticks, RampAfter(LineOf(n), x.ticks), at)
            && (forall i | 0 <= i < |x.writes| :: RampsAt(n, x.ticks, at[i], x.writes[i]))
  {
    var n, ticks := x.leaf.node, x.ticks;
    var writes := RampAfter(LineOf(n), ticks).writes;
    at := RampWritesWhenDue(LineOf(n), ticks);
    forall i | 0 <= i < |x.writes| ensures RampsAt(n, ticks, at[i], x.writes[i]) {
      WriteRampsAt(n, ticks, at[i], i);
      assert x.writes[i] == RampSetpoints(n.target, writes)[i];
    }
  }

  lemma AllWritten(target: Target, writes: seq<Write>, setpoints: seq<Setpoint>)
    requires !target.OtherTarget? && Written(target, [], writes, setpoints, true)
    ensures setpoints == RampSetpoints(target, writes)
  {
    assert [] + RampSetpoints(target, writes) == RampSetpoints(target, writes);
  }

  /** A ramp that is done wrote its end value last. */
  lemma RampEndsOnTarget(feed: seq<Input>, failing: set<nat>, x: Execution)
    requires ExecutedRight(feed, failing, x) && x.leaf.node.Ramp? && x.outcome.Done?
    ensures var n, last := x.leaf.node, |x.writes| - 1;
            last >= 0 && x.writes[last] == if n.target.Voltage? then SetVolts(n.to) else SetAmps(n.to)
  {
    var n := x.leaf.node;
    var writes := RampAfter(LineOf(n), x.ticks).writes;
    RampStaysBetween(LineOf(n), x.ticks);
    AllWritten(n.target, writes, x.writes);
  }

  /** It is done exactly when a tick comes at or past its duration. */
  lemma RampTakesItsTime(feed: seq<Input>, failing: set<nat>, x: Execution)
    requires ExecutedRight(feed, failing, x) && x.leaf.node.Ramp? && !x.outcome.WriteFailed? && x.ticks != []
    ensures var ticks, dur := x.ticks, Truncate(x.leaf.node.seconds * SECOND as real);
            dur > 0 ==>
              (x.outcome.Done? <==> exists e :: 0 <= e < |ticks| && ticks[e].ts - ticks[0].ts >= dur)
  {
    var line, ticks := LineOf(x.leaf.node), x.ticks;
    RampFollowsLine(line, ticks);
    if line.dur > 0 {
      if e :| 0 <= e < |ticks| && Arrived(line, ticks[e].ts - ticks[0].ts) {
        assert ticks[e].ts - ticks[0].ts >= line.dur;
      }
      if e :| 0 <= e < |ticks| && ticks[e].ts - ticks[0].ts >= line.dur {
        assert Arrived(line, ticks[e].ts - ticks[0].ts);
      }
    }
  }
}
