/** The auto-stop rule engine: rules watch the telemetry stream and switch the output off once
    their condition has held for the required time. */
module AutoStop {
  import opened Prelude
  import D = Debounce
  import P = PausedClock

  datatype ConditionType = CurrentBelow | CapacityAbove | EnergyAbove | ElapsedAbove | Unknown
  datatype Condition = Condition(kind: ConditionType, amps: real, ah: real, wh: real, seconds: real, forSeconds: real)
  {
    /** The length of the hysteresis window. */
    function Need(): int { Truncate(forSeconds * SECOND as real) }

    /** The validation rules a condition must meet before it is stored or run. */
    predicate Valid() {
      match kind
      case CurrentBelow => amps > 0.0 && forSeconds > 0.0
      case CapacityAbove => ah > 0.0
      case EnergyAbove => wh > 0.0
      case ElapsedAbove => seconds > 0.0
      case Unknown => false
    }
  }

  datatype Scope = Session | Always

  /** condition is None when the stored text does not parse. */
  datatype Rule = Rule(enabled: bool, scope: Scope, condition: Option<Condition>)

  datatype Tick = Tick(ts: int, outputOn: bool, current: real, capacityAh: real, energyWh: real)

  datatype Baseline = Baseline(capacityAh: real, energyWh: real, start: int)

  /** heldSince is None while the rule is not holding; offSince marks an off gap in progress. */
  datatype RuleState = RuleState(
    awaitingOff: bool, base: Option<Baseline>, heldSince: Option<int>, offSince: Option<int>)

  const FRESH := RuleState(false, None, None, None)

  function BaselineOf(t: Tick): Baseline {
    Baseline(t.capacityAh, t.energyWh, t.ts)
  }

  predicate ConditionHolds(c: Condition, t: Tick, b: Baseline) {
    match c.kind
    case CurrentBelow => t.current < c.amps
    case CapacityAbove => t.capacityAh - b.capacityAh > c.ah
    case EnergyAbove => t.energyWh - b.energyWh > c.wh
    case ElapsedAbove => (t.ts - b.start) as real / SECOND as real > c.seconds
    case Unknown => false
  }

  datatype Step = Step(state: RuleState, fired: bool)

  /** One evaluated tick on one rule's state. */
  function Evaluate(rule: Rule, st: RuleState, t: Tick): Step {
    if !t.outputOn then
      if rule.scope.Session? then Step(FRESH, false)
      else
        var gap := if st.heldSince.Some? && st.offSince.None? then Some(t.ts) else st.offSince;
        Step(st.(awaitingOff := false, offSince := gap), false)
    else if st.awaitingOff then Step(st, false)
    else
      var base := if st.base.Some? then st.base.value else BaselineOf(t);
      var st1 := st.(base := Some(base));
      if rule.condition.None? then Step(st1, false)
      else if !ConditionHolds(rule.condition.value, t, base) then
        Step(st1.(heldSince := None, offSince := None), false)
      else
        var since :=
          if st.heldSince.None? then t.ts
          else if st.offSince.Some? then st.heldSince.value + (t.ts - st.offSince.value)
          else st.heldSince.value;
        var fires := t.ts - since >= rule.condition.value.Need();
        Step(RuleState(fires, Some(base), Some(since), None), fires)
  }

  // --- the engine object ---

  datatype View = View(rules: map<int, Rule>, states: map<int, RuleState>, linkUp: bool)

  datatype Event =
    | Reload(rows: Option<map<int, Rule>>)   // None: storage could not be read
    | Status(connected: bool)
    | Telemetry(t: Tick, suppressed: bool)

  function StateOf(v: View, id: int): RuleState {
    if id in v.states then v.states[id] else FRESH
  }

  /** Telemetry counts only while the link is up and no run engine owns the output. */
  predicate Evaluated(v: View, e: Event) {
    e.Telemetry? && v.linkUp && !e.suppressed
  }

  function EnabledIds(rules: map<int, Rule>): set<int> {
    set id | id in rules && rules[id].enabled
  }

  /** What tick t does to every enabled rule. */
  function Results(v: View, t: Tick): map<int, Step> {
    map id | id in EnabledIds(v.rules) :: Evaluate(v.rules[id], StateOf(v, id), t)
  }

  /** The runtime states once the results for ids have been written back. */
  function WriteBack(states: map<int, RuleState>, results: map<int, Step>, ids: set<int>): map<int, RuleState>
    requires ids <= results.Keys
  {
    map id | id in states.Keys + ids :: if id in ids then results[id].state else states[id]
  }

  lemma WriteBackOne(states: map<int, RuleState>, results: map<int, Step>, ids: set<int>, id: int)
    requires ids <= results.Keys && id in results
    ensures WriteBack(states, results, ids + {id}) == WriteBack(states, results, ids)[id := results[id].state]
  {
  }

  function After(v: View, e: Event): View {
    match e
    case Reload(None) => v
    case Reload(Some(rows)) =>
      v.(rules := rows, states := map id | id in v.states && id in EnabledIds(rows) :: v.states[id])
    case Status(up) => v.(linkUp := up, states := map[])
    case Telemetry(t, _) =>
      if !Evaluated(v, e) then v
      else v.(states := WriteBack(v.states, Results(v, t), Results(v, t).Keys))
  }

  predicate Fires(v: View, e: Event, id: int) {
    Evaluated(v, e) && id in Results(v, e.t) && Results(v, e.t)[id].fired
  }

  class Engine {
    var rules: map<int, Rule>
    var states: map<int, RuleState>
    var linkUp: bool

    ghost function Abstract(): View reads this { View(rules, states, linkUp) }

    constructor (connected: bool)
      ensures Abstract() == View(map[], map[], connected)
    {
      rules, states, linkUp := map[], map[], connected;
    }

    method ReloadRules(rows: Option<map<int, Rule>>)
      modifies this
      ensures Abstract() == After(old(Abstract()), Reload(rows))
    {
      if rows.None? { return; }
      rules := rows.value;
      states := map id | id in states && id in EnabledIds(rules) :: states[id];
    }

    method HandleStatus(connected: bool)
      modifies this
      ensures Abstract() == After(old(Abstract()), Status(connected))
    {
      linkUp := connected;
      states := map[];
    }

    /** Evaluates every enabled rule, in no particular order; returns the rules that fired. */
    method HandleTelemetry(t: Tick, suppressed: bool) returns (fired: set<int>)
      modifies this
      ensures Abstract() == After(old(Abstract()), Telemetry(t, suppressed))
      ensures forall id :: id in fired <==> Fires(old(Abstract()), Telemetry(t, suppressed), id)
    {
      fired := {};
      if !linkUp || suppressed { return; }
      fired := EvaluateAll(t);
    }

    method EvaluateAll(t: Tick) returns (fired: set<int>)
      modifies this`states
      ensures var results := old(Results(Abstract(), t));
        && states == WriteBack(old(states), results, results.Keys)
        && forall id :: id in fired <==> id in results && results[id].fired
    {
      ghost var before := states;
      ghost var results := Results(Abstract(), t);
      fired := {};
      var todo := EnabledIds(rules);
      while |todo| > 0
        invariant todo <= results.Keys
        invariant states == WriteBack(before, results, results.Keys - todo)
        invariant forall id :: id in fired <==> id in results.Keys - todo && results[id].fired
      {
        var id :| id in todo;
        WriteBackOne(before, results, results.Keys - todo, id);
        assert results.Keys - todo + {id} == results.Keys - (todo - {id});
        var hit := EvaluateRule(id, t, results[id]);
        if hit { fired := fired + {id}; }
        todo := todo - {id};
      }
      assert results.Keys - todo == results.Keys;
    }

    /** One rule's turn; step names what the tick means for it. */
    method EvaluateRule(id: int, t: Tick, ghost step: Step) returns (fired: bool)
      requires id in rules && step == Evaluate(rules[id], StateOf(Abstract(), id), t)
      modifies this`states
      ensures states == old(states)[id := step.state] && fired == step.fired
    {
      var rule := rules[id];
      var st := if id in states then states[id] else FRESH;
      fired := false;
      if !t.outputOn {
        if rule.scope.Session? {
          st := FRESH;
        } else {
          st := st.(awaitingOff := false);
          if st.heldSince.Some? && st.offSince.None? { st := st.(offSince := Some(t.ts)); }
        }
      } else if !st.awaitingOff {
        if st.base.None? { st := st.(base := Some(BaselineOf(t))); }
        if rule.condition.Some? {
          var c := rule.condition.value;
          if !ConditionHolds(c, t, st.base.value) {
            st := st.(heldSince := None, offSince := None);
          } else {
            if st.heldSince.None? {
              st := st.(heldSince := Some(t.ts), offSince := None);
            } else if st.offSince.Some? {
              st := st.(heldSince := Some(st.heldSince.value + (t.ts - st.offSince.value)), offSince := None);
            }
            if t.ts - st.heldSince.value >= c.Need() {
              st := st.(awaitingOff := true);
              fired := true;
            }
          }
        }
      }
      states := states[id := st];
    }
  }

  // --- a rule's life between resets: the ticks it is evaluated on ---

  function StateAfter(rule: Rule, ticks: seq<Tick>): RuleState {
    if ticks == [] then FRESH
    else Evaluate(rule, StateAfter(rule, ticks[..|ticks| - 1]), ticks[|ticks| - 1]).state
  }

  predicate FiresAt(rule: Rule, ticks: seq<Tick>, e: nat)
    requires e < |ticks|
  {
    Evaluate(rule, StateAfter(rule, ticks[..e]), ticks[e]).fired
  }

  predicate AllOn(ticks: seq<Tick>, from: nat, to: nat)
    requires to <= |ticks|
  {
    forall k: nat | from <= k < to :: ticks[k].outputOn
  }

  /** Before tick e the rule has fired and the output has not been seen off since. */
  ghost predicate Waiting(rule: Rule, ticks: seq<Tick>, e: nat)
    requires e <= |ticks|
  {
    exists k: nat | k < e :: FiresAt(rule, ticks, k) && AllOn(ticks, k + 1, e)
  }

  lemma FiresPrefix(rule: Rule, ticks: seq<Tick>, n: nat, k: nat)
    requires k < n <= |ticks|
    ensures FiresAt(rule, ticks[..n], k) == FiresAt(rule, ticks, k)
  {
    assert ticks[..n][..k] == ticks[..k];
  }

  lemma WaitingPrefix(rule: Rule, ticks: seq<Tick>, n: nat, e: nat)
    requires e <= n <= |ticks|
    ensures Waiting(rule, ticks[..n], e) == Waiting(rule, ticks, e)
  {
    forall k: nat | k < e
      ensures FiresAt(rule, ticks[..n], k) == FiresAt(rule, ticks, k)
      ensures AllOn(ticks[..n], k + 1, e) == AllOn(ticks, k + 1, e)
    {
      FiresPrefix(rule, ticks, n, k);
      assert forall j: nat | j < e :: ticks[..n][j] == ticks[j];
    }
  }

  lemma WaitingOne(rule: Rule, ticks: seq<Tick>, n: nat)
    requires n < |ticks|
    ensures Waiting(rule, ticks, n + 1) <==> FiresAt(rule, ticks, n) || (Waiting(rule, ticks, n) && ticks[n].outputOn)
  {
    if Waiting(rule, ticks, n) && ticks[n].outputOn {
      var k: nat :| k < n && FiresAt(rule, ticks, k) && AllOn(ticks, k + 1, n);
      assert AllOn(ticks, k + 1, n + 1);
    }
    if Waiting(rule, ticks, n + 1) && !FiresAt(rule, ticks, n) {
      var k: nat :| k < n + 1 && FiresAt(rule, ticks, k) && AllOn(ticks, k + 1, n + 1);
      assert AllOn(ticks, k + 1, n) && ticks[n].outputOn;
    }
    if FiresAt(rule, ticks, n) { assert AllOn(ticks, n + 1, n + 1); }
  }

  /** The flag of the runtime state says exactly that: fired, and not off since. */
  lemma {:induction false} AwaitsOffIffWaiting(rule: Rule, ticks: seq<Tick>, n: nat)
    requires n <= |ticks|
    ensures StateAfter(rule, ticks[..n]).awaitingOff <==> Waiting(rule, ticks, n)
  {
    if n > 0 {
      assert ticks[..n][..n - 1] == ticks[..n - 1];
      AwaitsOffIffWaiting(rule, ticks, n - 1);
      WaitingOne(rule, ticks, n - 1);
    }
  }

  /** The first on tick, whose counters are the baseline; |ticks| when there is none. */
  function FirstOn(ticks: seq<Tick>): (f: nat)
    ensures f <= |ticks|
    ensures f < |ticks| ==> ticks[f].outputOn
    ensures forall k | 0 <= k < f :: !ticks[k].outputOn
  {
    if ticks == [] then 0 else if ticks[0].outputOn then 0 else 1 + FirstOn(ticks[1..])
  }

  /** What each condition compares at a tick, in the readings of that tick and of the tick it counts from. */
  predicate Meets(c: Condition, t: Tick, first: Tick) {
    match c.kind
    case CurrentBelow => t.current < c.amps
    case CapacityAbove => t.capacityAh - first.capacityAh > c.ah
    case EnergyAbove => t.energyWh - first.energyWh > c.wh
    case ElapsedAbove => (t.ts - first.ts) as real > c.seconds * SECOND as real
    case Unknown => false
  }

  lemma HoldsIfMet(c: Condition, t: Tick, first: Tick)
    ensures ConditionHolds(c, t, BaselineOf(first)) <==> Meets(c, t, first)
  {
    var elapsed, second := (t.ts - first.ts) as real, SECOND as real;
    assert elapsed / second * second == elapsed;
    ScaleOrder(c.seconds, elapsed / second, second);
  }

  /** Tick k is an on tick that meets the rule's condition, counted from the first on tick of all. */
  predicate Good(c: Condition, ticks: seq<Tick>, k: nat)
    requires k < |ticks|
  {
    ticks[k].outputOn && FirstOn(ticks) < |ticks| && Meets(c, ticks[k], ticks[FirstOn(ticks)])
  }

  lemma GoodPrefix(c: Condition, ticks: seq<Tick>, n: nat, k: nat)
    requires k < n <= |ticks|
    ensures Good(c, ticks[..n], k) == Good(c, ticks, k)
  {
    var f, g := FirstOn(ticks), FirstOn(ticks[..n]);
    assert ticks[..n][k] == ticks[k];
    if f < n { assert ticks[..n][f] == ticks[f]; }
    if g < n { assert ticks[..n][g] == ticks[g]; }
  }

  /** The ticks as the paused clock sees them. */
  function Marks(c: Condition, ticks: seq<Tick>): (marks: seq<P.Mark>)
    ensures |marks| == |ticks|
  {
    seq(|ticks|, k requires 0 <= k < |ticks| => P.Mark(ticks[k].ts, ticks[k].outputOn, Good(c, ticks, k)))
  }

  function BaseAfter(ticks: seq<Tick>): Option<Baseline> {
    if FirstOn(ticks) < |ticks| then Some(BaselineOf(ticks[FirstOn(ticks)])) else None
  }

  lemma BaseAfterOne(ticks: seq<Tick>)
    requires ticks != []
    ensures var b := BaseAfter(ticks[..|ticks| - 1]); var t := ticks[|ticks| - 1];
      BaseAfter(ticks) == if b.None? && t.outputOn then Some(BaselineOf(t)) else b
  {
    var n := |ticks| - 1;
    var f, g := FirstOn(ticks[..n]), FirstOn(ticks);
    if f < n { assert ticks[..n][f] == ticks[f]; }
    if g < n { assert ticks[..n][g] == ticks[g]; }
  }

  /** The ticks a rule hears: all but the on ticks between a firing and the next off tick. */
  ghost function Heard(rule: Rule, c: Condition, ticks: seq<Tick>): (marks: seq<P.Mark>) {
    if ticks == [] then []
    else
      var n := |ticks| - 1;
      var before := Heard(rule, c, ticks[..n]);
      if ticks[n].outputOn && Waiting(rule, ticks, n) then before
      else before + [P.Mark(ticks[n].ts, ticks[n].outputOn, Good(c, ticks, n))]
  }

  /** Up to and including its first firing a rule hears every tick. */
  lemma {:induction false} AllHeardUntilFirstFiring(rule: Rule, c: Condition, ticks: seq<Tick>, n: nat)
    requires n <= |ticks| && forall k: nat | k + 1 < n :: !FiresAt(rule, ticks, k)
    ensures Heard(rule, c, ticks[..n]) == Marks(c, ticks)[..n]
  {
    if n > 0 {
      var q := ticks[..n];
      assert q[..n - 1] == ticks[..n - 1];
      AllHeardUntilFirstFiring(rule, c, ticks, n - 1);
      GoodPrefix(c, ticks, n, n - 1);
      WaitingPrefix(rule, ticks, n, n - 1);
      assert !Waiting(rule, ticks, n - 1);
    }
  }

  /** A scope=always rule holds its first on tick as baseline and runs the paused clock over what it hears. */
  ghost predicate Clocked(rule: Rule, c: Condition, ticks: seq<Tick>) {
    var st := StateAfter(rule, ticks);
    st.base == BaseAfter(ticks) && P.Clock(st.heldSince, st.offSince) == P.ClockAfter(Heard(rule, c, ticks))
  }

  /** A tick the rule hears advances its clock. */
  lemma TickAdvancesClock(rule: Rule, c: Condition, st: RuleState, t: Tick, base: Option<Baseline>, good: bool)
    requires rule.scope.Always? && rule.condition == Some(c) && !(t.outputOn && st.awaitingOff)
    requires base == if st.base.None? && t.outputOn then Some(BaselineOf(t)) else st.base
    requires t.outputOn ==> (good <==> ConditionHolds(c, t, base.value))
    ensures var st' := Evaluate(rule, st, t).state;
      && st'.base == base
      && P.Clock(st'.heldSince, st'.offSince)
         == P.Advance(P.Clock(st.heldSince, st.offSince), P.Mark(t.ts, t.outputOn, good))
  {
  }

  lemma HeardGrows(rule: Rule, c: Condition, ticks: seq<Tick>)
    requires ticks != []
    ensures var n := |ticks| - 1;
      P.ClockAfter(Heard(rule, c, ticks)) ==
        if ticks[n].outputOn && Waiting(rule, ticks, n) then P.ClockAfter(Heard(rule, c, ticks[..n]))
        else P.Advance(P.ClockAfter(Heard(rule, c, ticks[..n])),
                       P.Mark(ticks[n].ts, ticks[n].outputOn, Good(c, ticks, n)))
  {
    var n := |ticks| - 1;
    if !(ticks[n].outputOn && Waiting(rule, ticks, n)) {
      var marks := Heard(rule, c, ticks);
      assert marks[..|marks| - 1] == Heard(rule, c, ticks[..n]);
    }
  }

  lemma {:induction false} AlwaysRunsPausedClock(rule: Rule, c: Condition, ticks: seq<Tick>)
    requires rule.scope.Always? && rule.condition == Some(c)
    ensures Clocked(rule, c, ticks)
  {
    if ticks != [] {
      var n := |ticks| - 1;
      AlwaysRunsPausedClock(rule, c, ticks[..n]);
      AwaitsOffIffWaiting(rule, ticks, n);
      BaseAfterOne(ticks);
      HeardGrows(rule, c, ticks);
      var st := StateAfter(rule, ticks[..n]);
      if !(ticks[n].outputOn && st.awaitingOff) {
        if ticks[n].outputOn { HoldsIfMet(c, ticks[n], ticks[FirstOn(ticks)]); }
        TickAdvancesClock(rule, c, st, ticks[n], BaseAfter(ticks), Good(c, ticks, n));
      } else {
        BaseIsKept(rule, c, ticks);
      }
    }
  }

  /** While a rule waits it has its baseline. */
  lemma BaseIsKept(rule: Rule, c: Condition, ticks: seq<Tick>)
    requires ticks != [] && Waiting(rule, ticks, |ticks| - 1)
    ensures BaseAfter(ticks) == BaseAfter(ticks[..|ticks| - 1])
  {
    var n := |ticks| - 1;
    var k: nat :| k < n && FiresAt(rule, ticks, k) && AllOn(ticks, k + 1, n);
    assert ticks[..n][k] == ticks[k] && ticks[k].outputOn;
    BaseAfterOne(ticks);
  }

  /** At the last mark the streak of good observations from s has counted at least `need` of on time. */
  ghost predicate CountedFrom(marks: seq<P.Mark>, s: nat, need: int)
    requires marks != []
  {
    P.Streak(marks, s, |marks| - 1) && P.OnTime(marks, s, |marks| - 1) >= need
  }

  ghost predicate CountedFor(marks: seq<P.Mark>, need: int) {
    marks != [] && exists s: nat :: CountedFrom(marks, s, need)
  }

  lemma ClockDecides(marks: seq<P.Mark>, need: int)
    requires marks != [] && marks[|marks| - 1].on
    ensures var m, k := marks[|marks| - 1], P.ClockAfter(marks);
      && (m.good ==> k.held.Some?)
      && (CountedFor(marks, need) <==> m.good && m.ts - k.held.value >= need)
  {
    var last := |marks| - 1;
    if marks[last].good {
      assert marks[..last + 1] == marks;
      var s := P.CountedTime(marks, last);
      assert P.OnTime(marks, s, last) >= need ==> CountedFrom(marks, s, need);
      if CountedFor(marks, need) {
        var s': nat :| CountedFrom(marks, s', need);
        P.StreakIsUnique(marks, s, s', last);
      }
    }
  }

  lemma HeardOne(rule: Rule, c: Condition, ticks: seq<Tick>, e: nat)
    requires e < |ticks| && !Waiting(rule, ticks, e)
    ensures Heard(rule, c, ticks[..e + 1]) ==
            Heard(rule, c, ticks[..e]) + [P.Mark(ticks[e].ts, ticks[e].outputOn, Good(c, ticks, e))]
  {
    assert ticks[..e + 1][..e] == ticks[..e];
    WaitingPrefix(rule, ticks, e + 1, e);
    GoodPrefix(c, ticks, e + 1, e);
  }

  /** What an on tick the rule hears does to it. */
  lemma HeardOnTick(rule: Rule, c: Condition, ticks: seq<Tick>, e: nat)
    requires rule.scope.Always? && rule.condition == Some(c)
    requires e < |ticks| && ticks[e].outputOn && !Waiting(rule, ticks, e)
    ensures FiresAt(rule, ticks, e) ==> Good(c, ticks, e)
    ensures var k := P.ClockAfter(Heard(rule, c, ticks[..e + 1]));
      Good(c, ticks, e) && k.held.Some? ==> (FiresAt(rule, ticks, e) <==> ticks[e].ts - k.held.value >= c.Need())
  {
    var q := ticks[..e + 1];
    assert q[..e] == ticks[..e];
    AwaitsOffIffWaiting(rule, ticks, e);
    AlwaysRunsPausedClock(rule, c, ticks[..e]);
    AlwaysRunsPausedClock(rule, c, q);
    BaseAfterOne(q);
    GoodPrefix(c, ticks, e + 1, e);
  }

  /** A scope=always rule, over any run of evaluated ticks: it fires on a tick exactly when it is not
      waiting for the output to go off and the gaps that start at an on tick of the current unbroken
      streak of holding on ticks it heard add up to the required time, however many off gaps or
      firings interrupted the streak and however long they were. */
  lemma AlwaysFiresOnCountedOnTime(rule: Rule, c: Condition, ticks: seq<Tick>, e: nat)
    requires rule.scope.Always? && rule.condition == Some(c) && e < |ticks|
    ensures FiresAt(rule, ticks, e) <==>
      ticks[e].outputOn && !Waiting(rule, ticks, e) && CountedFor(Heard(rule, c, ticks[..e + 1]), c.Need())
  {
    AwaitsOffIffWaiting(rule, ticks, e);
    if ticks[e].outputOn && !Waiting(rule, ticks, e) {
      HeardOne(rule, c, ticks, e);
      HeardOnTick(rule, c, ticks, e);
      ClockDecides(Heard(rule, c, ticks[..e + 1]), c.Need());
    }
  }

  /** From the first on tick on, a scope=always rule's baseline is that tick. */
  lemma FiringHasBaseline(rule: Rule, c: Condition, ticks: seq<Tick>, f: nat, e: nat)
    requires rule.scope.Always? && rule.condition == Some(c)
    requires f < e <= |ticks| && FiresAt(rule, ticks, f)
    ensures FirstOn(ticks) <= f && BaseAfter(ticks) == Some(BaselineOf(ticks[FirstOn(ticks)]))
    ensures StateAfter(rule, ticks[..e]).base == BaseAfter(ticks)
  {
    AlwaysRunsPausedClock(rule, c, ticks[..e]);
    assert ticks[f].outputOn;
    var i, j := FirstOn(ticks), FirstOn(ticks[..e]);
    assert ticks[..e][f] == ticks[f] && ticks[..e][i] == ticks[i];
    assert ticks[..e][j] == ticks[j];
  }

  /** Ignored on ticks leave the state alone. */
  lemma {:induction false} IgnoredOnTicks(rule: Rule, ticks: seq<Tick>, f: nat, a: nat)
    requires f <= a <= |ticks| && AllOn(ticks, f, a) && StateAfter(rule, ticks[..f]).awaitingOff
    ensures StateAfter(rule, ticks[..a]) == StateAfter(rule, ticks[..f])
    decreases a
  {
    if f < a {
      assert ticks[..a][..a - 1] == ticks[..a - 1];
      IgnoredOnTicks(rule, ticks, f, a - 1);
    }
  }

  /** Off ticks after the first add nothing to a gap. */
  lemma {:induction false} OffGap(rule: Rule, ticks: seq<Tick>, a: nat, e: nat)
    requires a < e <= |ticks| && rule.scope.Always? && forall k: nat | a <= k < e :: !ticks[k].outputOn
    ensures StateAfter(rule, ticks[..e]) == StateAfter(rule, ticks[..a + 1])
    decreases e
  {
    if a + 1 < e {
      assert ticks[..e][..e - 1] == ticks[..e - 1];
      OffGap(rule, ticks, a, e - 1);
      assert ticks[..a + 1][..a] == ticks[..a];
    }
  }

  /** After a firing at f, on ticks up to a and off ticks from a to e, the clock stands in the gap with
      at least the required time on it. */
  lemma ClockSurvivesFiring(rule: Rule, c: Condition, ticks: seq<Tick>, f: nat, a: nat, e: nat)
    requires rule.scope.Always? && rule.condition == Some(c)
    requires f < a < e < |ticks| && FiresAt(rule, ticks, f) && ticks[f].ts <= ticks[a].ts
    requires AllOn(ticks, f + 1, a) && forall k: nat | a <= k < e :: !ticks[k].outputOn
    ensures var st := StateAfter(rule, ticks[..e]);
      && !st.awaitingOff && st.offSince == Some(ticks[a].ts)
      && st.heldSince.Some? && ticks[a].ts - st.heldSince.value >= c.Need()
  {
    assert ticks[..f + 1][..f] == ticks[..f] && ticks[..a + 1][..a] == ticks[..a];
    IgnoredOnTicks(rule, ticks, f + 1, a);
    OffGap(rule, ticks, a, e);
  }

  /** An on tick that ends a gap entered with the required time on the clock. */
  lemma TickAfterGap(rule: Rule, c: Condition, st: RuleState, t: Tick)
    requires rule.condition == Some(c) && t.outputOn
    requires !st.awaitingOff && st.base.Some? && st.offSince.Some? && st.heldSince.Some?
    requires st.offSince.value - st.heldSince.value >= c.Need()
    ensures var r := Evaluate(rule, st, t);
      && (r.fired <==> ConditionHolds(c, t, st.base.value))
      && (!r.fired ==> r.state == RuleState(false, st.base, None, None))
  {
  }

  /** A firing does not clear a scope=always rule's clock. Whatever on ticks follow a firing at f up to
      the off tick a, and however long the output then stays off, the next on tick e fires the rule again
      at once if the condition holds on it, and clears the clock if not. */
  lemma AlwaysRefiresAfterOff(rule: Rule, c: Condition, ticks: seq<Tick>, f: nat, a: nat, e: nat)
    requires rule.scope.Always? && rule.condition == Some(c)
    requires f < a < e < |ticks| && FiresAt(rule, ticks, f) && ticks[f].ts <= ticks[a].ts
    requires AllOn(ticks, f + 1, a) && (forall k: nat | a <= k < e :: !ticks[k].outputOn) && ticks[e].outputOn
    ensures FiresAt(rule, ticks, e) <==> Good(c, ticks, e)
    ensures !Good(c, ticks, e) ==> StateAfter(rule, ticks[..e + 1]) == RuleState(false, BaseAfter(ticks), None, None)
  {
    assert ticks[..e + 1][..e] == ticks[..e];
    ClockSurvivesFiring(rule, c, ticks, f, a, e);
    FiringHasBaseline(rule, c, ticks, f, e);
    TickAfterGap(rule, c, StateAfter(rule, ticks[..e]), ticks[e]);
  }

  // --- scope=session ---

  /** The on ticks since the last off tick: what a scope=session rule remembers. */
  function SessionTicks(ticks: seq<Tick>): seq<Tick> {
    if ticks == [] || !ticks[|ticks| - 1].outputOn then []
    else SessionTicks(ticks[..|ticks| - 1]) + [ticks[|ticks| - 1]]
  }

  function SessionObs(c: Condition, session: seq<Tick>): (obs: seq<D.Obs>)
    ensures |obs| == |session|
  {
    seq(|session|, k requires 0 <= k < |session| =>
      D.Obs(session[k].ts, Meets(c, session[k], session[0])))
  }

  /** Until it fires, a scope=session rule holds the session's first tick as baseline and runs the
      debounce timer; between sessions it holds nothing. */
  lemma {:induction false} SessionRunsDebounce(rule: Rule, c: Condition, ticks: seq<Tick>)
    requires rule.scope.Session? && rule.condition == Some(c)
    ensures var st := StateAfter(rule, ticks); var session := SessionTicks(ticks);
      && st.offSince.None?
      && (session == [] ==> st == FRESH)
      && (!st.awaitingOff && session != [] ==>
            st.base == Some(BaselineOf(session[0])) && st.heldSince == D.SinceAfter(SessionObs(c, session)))
  {
    if ticks != [] {
      var n := |ticks| - 1;
      SessionRunsDebounce(rule, c, ticks[..n]);
      if ticks[n].outputOn {
        var obs := SessionObs(c, SessionTicks(ticks));
        assert obs[..|obs| - 1] == SessionObs(c, SessionTicks(ticks[..n]));
      }
    }
  }

  /** One on tick of a session on a rule that has not fired in it. */
  lemma SessionTick(rule: Rule, c: Condition, st: RuleState, first: Tick, t: Tick, since: Option<int>)
    requires rule.condition == Some(c) && t.outputOn && !st.awaitingOff && st.offSince.None? && st.heldSince == since
    requires st.base == Some(BaselineOf(first)) || (st.base.None? && first == t)
    ensures Evaluate(rule, st, t).fired <==> D.Closes(since, D.Obs(t.ts, Meets(c, t, first)), c.Need())
  {
    HoldsIfMet(c, t, first);
  }

  /** A scope=session rule, over any run of evaluated ticks: it fires on a tick exactly when it has not
      fired since the output came on and the unbroken window of on ticks of this output-on session, on all
      of which the condition is met, spans the required time. */
  lemma SessionFiresOnFullWindow(rule: Rule, c: Condition, ticks: seq<Tick>, e: nat)
    requires rule.scope.Session? && rule.condition == Some(c) && e < |ticks|
    ensures var session := SessionTicks(ticks[..e + 1]); var obs := SessionObs(c, session); var last := |session| - 1;
      FiresAt(rule, ticks, e) <==>
      (&& session != [] && !Waiting(rule, ticks, e)
       && exists s :: D.Window(obs, s, last) && obs[last].ts - obs[s].ts >= c.Need())
  {
    var q := ticks[..e + 1];
    assert q[..e] == ticks[..e];
    AwaitsOffIffWaiting(rule, ticks, e);
    SessionRunsDebounce(rule, c, ticks[..e]);
    var session := SessionTicks(q);
    if session != [] && !Waiting(rule, ticks, e) {
      var obs, last := SessionObs(c, session), |session| - 1;
      var before := SessionTicks(ticks[..e]);
      assert obs[..last] == SessionObs(c, before);
      SessionTick(rule, c, StateAfter(rule, ticks[..e]), session[0], ticks[e], D.SinceAfter(obs[..last]));
      D.ClosesOnFullWindow(obs, last, c.Need());
    }
  }

  // --- firing again ---

  function ViewAfter(v: View, events: seq<Event>): View {
    if events == [] then v else After(ViewAfter(v, events[..|events| - 1]), events[|events| - 1])
  }

  /** What can arm a fired rule again: an evaluated off tick, a link report, or a reload that finds
      the rule disabled or gone. */
  predicate Rearms(v: View, e: Event, id: int) {
    match e
    case Reload(None) => false
    case Reload(Some(rows)) => id !in EnabledIds(rows)
    case Status(_) => true
    case Telemetry(t, _) => Evaluated(v, e) && id in EnabledIds(v.rules) && !t.outputOn
  }

  lemma ViewAfterOne(v: View, events: seq<Event>, k: nat)
    requires k < |events|
    ensures ViewAfter(v, events[..k + 1]) == After(ViewAfter(v, events[..k]), events[k])
  {
    assert events[..k + 1][..k] == events[..k];
  }

  /** A fired rule stays as it is until something arms it. */
  lemma StaysFired(v: View, e: Event, id: int)
    requires StateOf(v, id).awaitingOff && !Rearms(v, e, id)
    ensures StateOf(After(v, e), id).awaitingOff
  {
  }

  lemma FiringAwaitsOff(v: View, e: Event, id: int)
    requires Fires(v, e, id)
    ensures StateOf(After(v, e), id).awaitingOff
  {
  }

  lemma NotFiring(v: View, e: Event, id: int)
    requires StateOf(v, id).awaitingOff
    ensures !Fires(v, e, id)
  {
  }

  /** A rule fires again only after an event that arms it again. */
  lemma {:induction false} RefiringNeedsRearming(v: View, events: seq<Event>, i: nat, j: nat, id: int)
    requires i < j < |events|
    requires Fires(ViewAfter(v, events[..i]), events[i], id)
    requires forall k | i < k < j :: !Rearms(ViewAfter(v, events[..k]), events[k], id)
    ensures StateOf(ViewAfter(v, events[..j]), id).awaitingOff
    ensures !Fires(ViewAfter(v, events[..j]), events[j], id)
    decreases j
  {
    ViewAfterOne(v, events, j - 1);
    var before := ViewAfter(v, events[..j - 1]);
    if i + 1 < j {
      RefiringNeedsRearming(v, events, i, j - 1, id);
      assert !Rearms(before, events[j - 1], id);
      StaysFired(before, events[j - 1], id);
    } else {
      FiringAwaitsOff(before, events[i], id);
    }
    NotFiring(ViewAfter(v, events[..j]), events[j], id);
  }

  // --- the rule laws in the engine ---

  /** The event neither clears the rule's state nor changes the rule. */
  predicate KeepsRule(e: Event, id: int, rule: Rule) {
    match e
    case Reload(None) => true
    case Reload(Some(rows)) => id in rows && rows[id] == rule
    case Status(_) => false
    case Telemetry(_, _) => true
  }

  /** The ticks the engine evaluates while the link is up. */
  function TicksOf(events: seq<Event>): seq<Tick> {
    if events == [] then []
    else
      var before, e := TicksOf(events[..|events| - 1]), events[|events| - 1];
      if e.Telemetry? && !e.suppressed then before + [e.t] else before
  }

  /** The rule is enabled, the link is up, and nothing has been evaluated since the rule's state was
      cleared: so it stands after the first load, after a link report, and after it was enabled again. */
  predicate StartsAfresh(v: View, id: int, rule: Rule) {
    rule.enabled && v.linkUp && id in v.rules && v.rules[id] == rule && StateOf(v, id) == FRESH
  }

  lemma {:induction false} EngineRunsRule(v: View, events: seq<Event>, id: int, rule: Rule)
    requires StartsAfresh(v, id, rule) && forall k | 0 <= k < |events| :: KeepsRule(events[k], id, rule)
    ensures var w := ViewAfter(v, events);
      w.linkUp && id in w.rules && w.rules[id] == rule && StateOf(w, id) == StateAfter(rule, TicksOf(events))
  {
    if events != [] {
      var n := |events| - 1;
      EngineRunsRule(v, events[..n], id, rule);
      StepRunsRule(ViewAfter(v, events[..n]), events[n], id, rule, TicksOf(events[..n]));
    }
  }

  lemma StepRunsRule(w: View, e: Event, id: int, rule: Rule, ticks: seq<Tick>)
    requires rule.enabled && w.linkUp && id in w.rules && w.rules[id] == rule && KeepsRule(e, id, rule)
    requires StateOf(w, id) == StateAfter(rule, ticks)
    ensures var w', ticks' := After(w, e), if e.Telemetry? && !e.suppressed then ticks + [e.t] else ticks;
      w'.linkUp && id in w'.rules && w'.rules[id] == rule && StateOf(w', id) == StateAfter(rule, ticks')
  {
    if e.Telemetry? && !e.suppressed { assert (ticks + [e.t])[..|ticks|] == ticks; }
  }

  /** The engine fires a rule on an event exactly when the event is an unsuppressed tick and the rule
      fires on it as the last of the ticks evaluated since its state was cleared. */
  lemma EngineFiresAsRule(v: View, events: seq<Event>, i: nat, id: int, rule: Rule)
    requires StartsAfresh(v, id, rule) && forall k | 0 <= k < |events| :: KeepsRule(events[k], id, rule)
    requires i < |events|
    ensures var ticks := TicksOf(events[..i + 1]);
      Fires(ViewAfter(v, events[..i]), events[i], id) <==>
      events[i].Telemetry? && !events[i].suppressed && ticks != [] && FiresAt(rule, ticks, |ticks| - 1)
  {
    EngineRunsRule(v, events[..i], id, rule);
    assert events[..i + 1][..i] == events[..i];
    var before, e := TicksOf(events[..i]), events[i];
    if e.Telemetry? && !e.suppressed { assert (before + [e.t])[..|before|] == before; }
  }

  /** So the engine reports a scope=always rule on an event exactly when the event is an unsuppressed on
      tick, the output has been seen off since the rule's last firing, and the on time counted over the
      current streak of ticks that meet the condition reaches the required time. */
  lemma EngineCountsOnTime(v: View, events: seq<Event>, i: nat, id: int, rule: Rule, c: Condition)
    requires StartsAfresh(v, id, rule) && forall k | 0 <= k < |events| :: KeepsRule(events[k], id, rule)
    requires rule.scope.Always? && rule.condition == Some(c) && i < |events|
    ensures var ticks := TicksOf(events[..i + 1]);
      Fires(ViewAfter(v, events[..i]), events[i], id) <==>
      && events[i].Telemetry? && !events[i].suppressed && events[i].t.outputOn
      && ticks != [] && !Waiting(rule, ticks, |ticks| - 1) && CountedFor(Heard(rule, c, ticks), c.Need())
  {
    EngineFiresAsRule(v, events, i, id, rule);
    LastTick(events, i);
    var ticks := TicksOf(events[..i + 1]);
    if events[i].Telemetry? && !events[i].suppressed {
      assert ticks[..|ticks|] == ticks;
      AlwaysFiresOnCountedOnTime(rule, c, ticks, |ticks| - 1);
    }
  }

  lemma LastTick(events: seq<Event>, i: nat)
    requires i < |events|
    ensures var ticks := TicksOf(events[..i + 1]);
      events[i].Telemetry? && !events[i].suppressed ==> ticks != [] && ticks[|ticks| - 1] == events[i].t
  {
    assert events[..i + 1][..i] == events[..i];
  }

  /** And a scope=session rule exactly when it has not fired in this session and the unbroken window of the
      session's ticks that meet the condition, counted from the session's first tick, spans that time. */
  lemma EngineWatchesSession(v: View, events: seq<Event>, i: nat, id: int, rule: Rule, c: Condition)
    requires StartsAfresh(v, id, rule) && forall k | 0 <= k < |events| :: KeepsRule(events[k], id, rule)
    requires rule.scope.Session? && rule.condition == Some(c) && i < |events|
    ensures var ticks := TicksOf(events[..i + 1]);
      var session := SessionTicks(ticks); var obs := SessionObs(c, session); var last := |session| - 1;
      Fires(ViewAfter(v, events[..i]), events[i], id) <==>
      && events[i].Telemetry? && !events[i].suppressed
      && session != [] && !Waiting(rule, ticks, |ticks| - 1)
      && exists s :: D.Window(obs, s, last) && obs[last].ts - obs[s].ts >= c.Need()
  {
    EngineFiresAsRule(v, events, i, id, rule);
    LastTick(events, i);
    var ticks := TicksOf(events[..i + 1]);
    if events[i].Telemetry? && !events[i].suppressed {
      assert ticks[..|ticks|] == ticks;
      SessionFiresOnFullWindow(rule, c, ticks, |ticks| - 1);
    }
  }

  /** The marks a scope=always rule's clock counts, in the readings of the ticks: tick k of the run, if the
      rule hears it, counts as holding exactly when its own comparison with the first on tick of all does. */
  lemma MarksInFigures(rule: Rule, c: Condition, ticks: seq<Tick>, k: nat)
    requires k < |ticks| && ticks[k].outputOn && !Waiting(rule, ticks, k)
    ensures FirstOn(ticks) <= k
    ensures var marks, t, b := Heard(rule, c, ticks[..k + 1]), ticks[k], ticks[FirstOn(ticks)];
      && marks != [] && marks[|marks| - 1].ts == t.ts && marks[|marks| - 1].on
      && (c.kind.CurrentBelow? ==> (marks[|marks| - 1].good <==> t.current < c.amps))
      && (c.kind.CapacityAbove? ==> (marks[|marks| - 1].good <==> t.capacityAh - b.capacityAh > c.ah))
      && (c.kind.EnergyAbove? ==> (marks[|marks| - 1].good <==> t.energyWh - b.energyWh > c.wh))
      && (c.kind.ElapsedAbove? ==> (marks[|marks| - 1].good <==> (t.ts - b.ts) as real > c.seconds * SECOND as real))
  {
    HeardOne(rule, c, ticks, k);
  }

  /** The same for the ticks of a session, compared with its first tick. */
  lemma SessionInFigures(c: Condition, ticks: seq<Tick>, k: nat)
    requires k < |SessionTicks(ticks)|
    ensures var session := SessionTicks(ticks); var t, b, ok := session[k], session[0], SessionObs(c, session)[k].ok;
      && (c.kind.CurrentBelow? ==> (ok <==> t.current < c.amps))
      && (c.kind.CapacityAbove? ==> (ok <==> t.capacityAh - b.capacityAh > c.ah))
      && (c.kind.EnergyAbove? ==> (ok <==> t.energyWh - b.energyWh > c.wh))
      && (c.kind.ElapsedAbove? ==> (ok <==> (t.ts - b.ts) as real > c.seconds * SECOND as real))
  {
  }

  // --- a run that fires twice ---

  lemma TickAfterOthers(rule: Rule, before: seq<Tick>, t: Tick)
    ensures StateAfter(rule, before + [t]) == Evaluate(rule, StateAfter(rule, before), t).state
    ensures FiresAt(rule, before + [t], |before|) == Evaluate(rule, StateAfter(rule, before), t).fired
  {
    assert (before + [t])[..|before|] == before;
  }

  /** A rule that asks for less than 1 A during two seconds, and ticks with no current at 0, 2, 3 and 4
      seconds, the third with the output off: it fires at 2 and at 4 seconds, though the output had been on
      for no time at all since the off tick. */
  lemma RefiringExample() returns (rule: Rule, ticks: seq<Tick>)
    ensures rule == Rule(true, Always, Some(Condition(CurrentBelow, 1.0, 0.0, 0.0, 0.0, 2.0)))
    ensures ticks == [Tick(0, true, 0.0, 0.0, 0.0), Tick(2 * SECOND, true, 0.0, 0.0, 0.0),
                      Tick(3 * SECOND, false, 0.0, 0.0, 0.0), Tick(4 * SECOND, true, 0.0, 0.0, 0.0)]
    ensures FiresAt(rule, ticks, 1) && FiresAt(rule, ticks, 3)
  {
    var c := Condition(CurrentBelow, 1.0, 0.0, 0.0, 0.0, 2.0);
    rule := Rule(true, Always, Some(c));
    var t0, t1 := Tick(0, true, 0.0, 0.0, 0.0), Tick(2 * SECOND, true, 0.0, 0.0, 0.0);
    var t2, t3 := Tick(3 * SECOND, false, 0.0, 0.0, 0.0), Tick(4 * SECOND, true, 0.0, 0.0, 0.0);
    ticks := [t0, t1, t2, t3];
    assert c.Need() == 2 * SECOND;
    TickAfterOthers(rule, [], t0);
    TickAfterOthers(rule, [t0], t1);
    assert [] + [t0] == [t0] && [t0] + [t1] == ticks[..2];
    FiresPrefix(rule, ticks, 2, 1);
    assert AllOn(ticks, 2, 2) && !ticks[2].outputOn && ticks[3].outputOn;
    AlwaysRefiresAfterOff(rule, c, ticks, 1, 2, 3);
    assert FirstOn(ticks) == 0;
  }

  // --- the link ---

  /** While the link is down, since the last report about it, no rule fires. */
  lemma {:induction false} NothingFiresWithLinkDown(v: View, events: seq<Event>, k: nat, i: nat, id: int)
    requires k < i < |events| && events[k] == Status(false)
    requires forall j | k < j < i :: !events[j].Status?
    ensures !ViewAfter(v, events[..i]).linkUp && !Fires(ViewAfter(v, events[..i]), events[i], id)
    decreases i
  {
    ViewAfterOne(v, events, i - 1);
    if k < i - 1 { NothingFiresWithLinkDown(v, events, k, i - 1, id); }
  }

  /** After a report that the link is up every enabled rule starts afresh, and so does a rule that a reload
      finds enabled where it was not. */
  lemma ReportStartsAfresh(v: View, id: int, rule: Rule, rows: map<int, Rule>)
    requires rule.enabled
    ensures id in v.rules && v.rules[id] == rule ==> StartsAfresh(After(v, Status(true)), id, rule)
    ensures v.linkUp && id in rows && rows[id] == rule && id !in v.states ==>
              StartsAfresh(After(v, Reload(Some(rows))), id, rule)
    ensures var w := After(v, Reload(Some(rows)));
      forall other :: other in w.states ==> other in rows && rows[other].enabled && w.states[other] == v.states[other]
  {
  }
}
