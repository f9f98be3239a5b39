/** Sequence programs: a tree of steps, and the validator that walks it with a running node count. */
module SequenceProgram {
  import opened Prelude
  import AutoStop

  datatype Target = Voltage | Current | OtherTarget

  datatype Node =
    | SetHold(volts: real, amps: real, advance: Option<AutoStop.Condition>)
    | Ramp(target: Target, from: real, to: real, seconds: real)
    | Loop(repeat: int, children: seq<Node>)
    | OtherNode

  datatype Program = Program(name: string, steps: seq<Node>, repeat: int)

  const MAX_NESTING_DEPTH := 5
  const MAX_NODE_COUNT := 200
  const MAX_VOLTAGE := 30.0
  const MAX_CURRENT := 5.0

  predicate InRange(x: real, max: real) {
    0.0 <= x <= max
  }

  function TargetMax(target: Target): Option<real> {
    match target
    case Voltage => Some(MAX_VOLTAGE)
    case Current => Some(MAX_CURRENT)
    case OtherTarget => None
  }

  predicate IsSpace(c: char) {
    || '\t' <= c <= '\r' || c == ' ' || c == '\U{0085}' || c == '\U{00a0}' || c == '\U{1680}'
    || '\U{2000}' <= c <= '\U{200a}' || c == '\U{2028}' || c == '\U{2029}' || c == '\U{202f}' || c == '\U{205f}'
    || c == '\U{3000}'
  }

  /** The name that is left when white space is cut off at both ends is empty. */
  predicate Blank(name: string) {
    forall c | c in name :: IsSpace(c)
  }

  // --- what a valid program is ---

  /** The number of nodes in the whole tree. */
  function Count(nodes: seq<Node>): nat
    decreases nodes
  {
    if nodes == [] then 0
    else
      var last := nodes[|nodes| - 1];
      Count(nodes[..|nodes| - 1]) + 1 + (if last.Loop? then Count(last.children) else 0)
  }

  function Max(a: nat, b: nat): nat {
    if a >= b then a else b
  }

  /** The number of nested levels. */
  function Height(nodes: seq<Node>): nat
    decreases nodes
  {
    if nodes == [] then 0
    else
      var last := nodes[|nodes| - 1];
      Max(Height(nodes[..|nodes| - 1]), 1 + if last.Loop? then Height(last.children) else 0)
  }

  predicate NodeValid(n: Node)
    decreases n
  {
    match n
    case SetHold(volts, amps, advance) =>
      InRange(volts, MAX_VOLTAGE) && InRange(amps, MAX_CURRENT) && advance.Some? && advance.value.Valid()
    case Ramp(target, from, to, seconds) =>
      && TargetMax(target).Some? && InRange(from, TargetMax(target).value) && InRange(to, TargetMax(target).value)
      && seconds > 0.0
    case Loop(repeat, children) =>
      repeat >= 1 && children != [] && forall k | 0 <= k < |children| :: NodeValid(children[k])
    case OtherNode => false
  }

  predicate AllValid(nodes: seq<Node>) {
    forall k | 0 <= k < |nodes| :: NodeValid(nodes[k])
  }

  predicate Runnable(p: Program) {
    && !Blank(p.name) && p.steps != [] && p.repeat >= 1
    && Height(p.steps) <= MAX_NESTING_DEPTH && Count(p.steps) <= MAX_NODE_COUNT && AllValid(p.steps)
  }

  // --- the validator ---

  lemma {:induction false} PrefixIsSmaller(nodes: seq<Node>, i: nat)
    requires i <= |nodes|
    ensures Count(nodes[..i]) <= Count(nodes) && Height(nodes[..i]) <= Height(nodes)
    decreases |nodes|
  {
    if i < |nodes| {
      PrefixIsSmaller(nodes[..|nodes| - 1], i);
      assert nodes[..|nodes| - 1][..i] == nodes[..i];
    } else {
      assert nodes[..i] == nodes;
    }
  }

  lemma NextNode(nodes: seq<Node>, i: nat)
    requires i < |nodes|
    ensures Count(nodes[..i + 1]) == Count(nodes[..i]) + 1 + (if nodes[i].Loop? then Count(nodes[i].children) else 0)
    ensures Height(nodes[..i + 1])
            == Max(Height(nodes[..i]), 1 + if nodes[i].Loop? then Height(nodes[i].children) else 0)
  {
    assert nodes[..i + 1][..i] == nodes[..i];
  }

  class Validator {
    var count: nat

    constructor () ensures count == 0 {
      count := 0;
    }

    method ValidateNodes(nodes: seq<Node>, depth: nat) returns (ok: bool)
      requires count <= MAX_NODE_COUNT && depth >= 1
      modifies this
      ensures ok <==> && depth <= MAX_NESTING_DEPTH && depth - 1 + Height(nodes) <= MAX_NESTING_DEPTH
                      && old(count) + Count(nodes) <= MAX_NODE_COUNT && AllValid(nodes)
      ensures ok ==> count == old(count) + Count(nodes)
      decreases nodes
    {
      if depth > MAX_NESTING_DEPTH { return false; }
      var i := 0;
      while i < |nodes|
        invariant 0 <= i <= |nodes|
        invariant depth - 1 + Height(nodes[..i]) <= MAX_NESTING_DEPTH
        invariant count == old(count) + Count(nodes[..i]) <= MAX_NODE_COUNT
        invariant forall k | 0 <= k < i :: NodeValid(nodes[k])
      {
        NextNode(nodes, i);
        PrefixIsSmaller(nodes, i + 1);
        count := count + 1;
        if count > MAX_NODE_COUNT { return false; }
        var valid := ValidateNode(nodes[i], depth);
        if !valid { return false; }
        i := i + 1;
      }
      assert nodes[..i] == nodes;
      ok := true;
    }

    method ValidateNode(n: Node, depth: nat) returns (ok: bool)
      requires count <= MAX_NODE_COUNT && 1 <= depth <= MAX_NESTING_DEPTH
      modifies this
      ensures ok <==> && NodeValid(n)
                      && (n.Loop? ==> depth + Height(n.children) <= MAX_NESTING_DEPTH
                                      && old(count) + Count(n.children) <= MAX_NODE_COUNT)
      ensures ok ==> count == old(count) + if n.Loop? then Count(n.children) else 0
      decreases n
    {
      match n
      case SetHold(volts, amps, advance) =>
        if volts < 0.0 || volts > MAX_VOLTAGE { return false; }
        if amps < 0.0 || amps > MAX_CURRENT { return false; }
        if advance.None? { return false; }
        ok := advance.value.Valid();
      case Ramp(target, from, to, seconds) =>
        var max := TargetMax(target);
        if max.None? { return false; }
        if from < 0.0 || from > max.value { return false; }
        if to < 0.0 || to > max.value { return false; }
        ok := seconds > 0.0;
      case Loop(repeat, children) =>
        if repeat < 1 { return false; }
        if children == [] { return false; }
        HasHeight(children);
        ok := ValidateNodes(children, depth + 1);
      case OtherNode =>
        ok := false;
    }

    /** A program is accepted exactly when it is runnable; the count threaded through the tree is the
        number of its nodes. */
    method Validate(p: Program) returns (ok: bool)
      requires count == 0
      modifies this
      ensures ok <==> Runnable(p)
      ensures ok ==> count == Count(p.steps)
    {
      if Blank(p.name) { return false; }
      if p.steps == [] { return false; }
      if p.repeat < 1 { return false; }
      ok := ValidateNodes(p.steps, 1);
    }
  }

  lemma HasHeight(nodes: seq<Node>)
    requires nodes != []
    ensures Height(nodes) >= 1 && Count(nodes) >= 1
  {
  }

  // --- meaning of count and height ---

  /** A chain of loops from a step down to a nested node. */
  predicate Chain(nodes: seq<Node>, chain: seq<Node>)
    decreases |chain|
  {
    chain == []
    || (chain[0] in nodes && (|chain| == 1 || (chain[0].Loop? && Chain(chain[0].children, chain[1..]))))
  }

  /** No chain is longer than the height. */
  lemma {:induction false} ChainsFitHeight(nodes: seq<Node>, chain: seq<Node>)
    requires Chain(nodes, chain)
    ensures |chain| <= Height(nodes)
    decreases |chain|
  {
    if chain != [] {
      var i :| 0 <= i < |nodes| && nodes[i] == chain[0];
      NextNode(nodes, i);
      PrefixIsSmaller(nodes, i + 1);
      if |chain| > 1 { ChainsFitHeight(chain[0].children, chain[1..]); }
    }
  }

  /** And one chain is exactly that long. */
  lemma {:induction false} LongestChain(nodes: seq<Node>) returns (chain: seq<Node>)
    ensures Chain(nodes, chain) && |chain| == Height(nodes)
    decreases nodes
  {
    chain := [];
    if nodes != [] {
      var n := nodes[|nodes| - 1];
      chain := LongestChain(nodes[..|nodes| - 1]);
      if |chain| < Height(nodes) {
        if n.Loop? {
          var below := LongestChain(n.children);
          chain := [n] + below;
        } else {
          chain := [n];
        }
      }
    }
  }

  // --- validity in figures ---

  /** What a valid leaf may ask for: setpoints within the supply's 30 V and 5 A, a condition with a threshold
      of its own, a ramp that takes time. */
  lemma ValidLeafInFigures(n: Node)
    requires !n.Loop?
    ensures NodeValid(n) <==>
            match n
            case SetHold(volts, amps, advance) =>
              && 0.0 <= volts <= 30.0 && 0.0 <= amps <= 5.0 && advance.Some?
              && (match advance.value.kind
                  case CurrentBelow => advance.value.amps > 0.0 && advance.value.forSeconds > 0.0
                  case CapacityAbove => advance.value.ah > 0.0
                  case EnergyAbove => advance.value.wh > 0.0
                  case ElapsedAbove => advance.value.seconds > 0.0
                  case Unknown => false)
            case Ramp(target, from, to, seconds) =>
              && seconds > 0.0
              && ((target.Voltage? && 0.0 <= from <= 30.0 && 0.0 <= to <= 30.0)
                  || (target.Current? && 0.0 <= from <= 5.0 && 0.0 <= to <= 5.0))
            case _ => false
  {
  }

  /** The programs a validator accepts, by their numbers: at most five levels and two hundred nodes. */
  lemma RunnableInFigures(p: Program)
    ensures Runnable(p) <==>
            && !Blank(p.name) && p.steps != [] && p.repeat >= 1
            && Height(p.steps) <= 5 && Count(p.steps) <= 200 && forall k | 0 <= k < |p.steps| :: NodeValid(p.steps[k])
  {
  }
}
