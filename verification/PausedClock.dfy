/** The hysteresis clock of a scope=always rule: it runs while good on observations follow each
    other, stands still across off gaps, and is cleared by a bad on observation. */
module PausedClock {
  import opened Prelude

  datatype Mark = Mark(ts: int, on: bool, good: bool)

  /** held is the instant the clock counts from, shifted by every closed off gap; off marks an open gap. */
  datatype Clock = Clock(held: Option<int>, off: Option<int>)

  const STOPPED := Clock(None, None)

  function Advance(k: Clock, m: Mark): Clock {
    if !m.on then
      if k.held.Some? && k.off.None? then k.(off := Some(m.ts)) else k
    else if !m.good then STOPPED
    else if k.held.None? then Clock(Some(m.ts), None)
    else if k.off.Some? then Clock(Some(k.held.value + (m.ts - k.off.value)), None)
    else Clock(k.held, None)
  }

  function ClockAfter(marks: seq<Mark>): Clock {
    if marks == [] then STOPPED else Advance(ClockAfter(marks[..|marks| - 1]), marks[|marks| - 1])
  }

  /** The last on observation before position n, or -1. */
  function LastOn(marks: seq<Mark>, n: nat): (l: int)
    requires n <= |marks|
    ensures -1 <= l < n
    ensures l >= 0 ==> marks[l].on
    ensures forall k | l < k < n :: !marks[k].on
  {
    if n == 0 then -1 else if marks[n - 1].on then n - 1 else LastOn(marks, n - 1)
  }

  /** The time between observations s and e that passed in gaps starting at an on observation. */
  function OnTime(marks: seq<Mark>, s: nat, e: nat): int
    requires e < |marks|
  {
    if e <= s then 0
    else OnTime(marks, s, e - 1) + if marks[e - 1].on then marks[e].ts - marks[e - 1].ts else 0
  }

  /** From s to e every on observation is good, s is one, and the on observation before s was bad. */
  ghost predicate Streak(marks: seq<Mark>, s: nat, e: nat) {
    && s <= e < |marks|
    && marks[s].on
    && (forall k: nat | s <= k <= e && marks[k].on :: marks[k].good)
    && (LastOn(marks, s) < 0 || !marks[LastOn(marks, s)].good)
  }

  lemma {:induction false} OnTimeAcrossGap(marks: seq<Mark>, s: nat, l: nat, e: nat)
    requires s <= l < e < |marks|
    requires forall k | l < k < e :: !marks[k].on
    ensures OnTime(marks, s, e) == OnTime(marks, s, l + 1)
    decreases e
  {
    if l + 1 < e { OnTimeAcrossGap(marks, s, l, e - 1); }
  }

  /** Before observation n the clock counts from s: it lies OnTime before the last on observation, or
      before the open gap. */
  ghost predicate CountsFrom(marks: seq<Mark>, n: nat, k: Clock, s: nat)
    requires n <= |marks|
  {
    var l := LastOn(marks, n);
    && l >= 0 && Streak(marks, s, l)
    && k.off == (if l + 1 == n then None else Some(marks[l + 1].ts))
    && k.held == Some(if l + 1 == n then marks[l].ts - OnTime(marks, s, l)
                      else marks[l + 1].ts - OnTime(marks, s, l + 1))
  }

  /** A good on observation carries a streak on and closes the gap. */
  lemma GoodKeepsCounting(marks: seq<Mark>, n: nat, k: Clock, s: nat)
    requires n < |marks| && CountsFrom(marks, n, k, s) && marks[n].on && marks[n].good
    ensures CountsFrom(marks, n + 1, Advance(k, marks[n]), s)
  {
    var l := LastOn(marks, n);
    OnTimeAcrossGap(marks, s, l, n);
    assert LastOn(marks, n + 1) == n;
  }

  /** The first off observation opens a gap, later ones change nothing. */
  lemma OffKeepsCounting(marks: seq<Mark>, n: nat, k: Clock, s: nat)
    requires n < |marks| && CountsFrom(marks, n, k, s) && !marks[n].on
    ensures CountsFrom(marks, n + 1, Advance(k, marks[n]), s)
  {
  }

  /** A good observation after a bad one, or after none, starts the clock. */
  lemma StartsCounting(marks: seq<Mark>, n: nat)
    requires n < |marks| && marks[n].on && marks[n].good
    requires LastOn(marks, n) >= 0 ==> !marks[LastOn(marks, n)].good
    ensures CountsFrom(marks, n + 1, Advance(STOPPED, marks[n]), n)
  {
  }

  /** What the clock reads before observation n: the streak in progress, or nothing. */
  ghost predicate Right(marks: seq<Mark>, n: nat, k: Clock, s: nat)
    requires n <= |marks|
  {
    var l := LastOn(marks, n);
    if l >= 0 && marks[l].good then CountsFrom(marks, n, k, s) else k == STOPPED
  }

  lemma StaysRight(marks: seq<Mark>, n: nat, k: Clock, s: nat) returns (s': nat)
    requires n < |marks| && Right(marks, n, k, s)
    ensures Right(marks, n + 1, Advance(k, marks[n]), s')
  {
    var l := LastOn(marks, n);
    s' := s;
    if l < 0 || !marks[l].good {
      if marks[n].on && marks[n].good {
        s' := n;
        StartsCounting(marks, n);
      }
    } else if !marks[n].on {
      OffKeepsCounting(marks, n, k, s);
    } else if marks[n].good {
      GoodKeepsCounting(marks, n, k, s);
    }
  }

  lemma ClockStep(marks: seq<Mark>, n: nat)
    requires n < |marks|
    ensures ClockAfter(marks[..n + 1]) == Advance(ClockAfter(marks[..n]), marks[n])
  {
    assert marks[..n + 1][..n] == marks[..n];
  }

  lemma {:induction false} ClockCountsStreak(marks: seq<Mark>, n: nat) returns (s: nat)
    requires n <= |marks|
    ensures Right(marks, n, ClockAfter(marks[..n]), s)
  {
    s := 0;
    if n > 0 {
      s := ClockCountsStreak(marks, n - 1);
      ClockStep(marks, n - 1);
      s := StaysRight(marks, n - 1, ClockAfter(marks[..n - 1]), s);
    }
  }

  /** At a good on observation the clock has counted exactly the on time of the current streak. */
  lemma CountedTime(marks: seq<Mark>, e: nat) returns (s: nat)
    requires e < |marks| && marks[e].on && marks[e].good
    ensures var k := ClockAfter(marks[..e + 1]);
      k.held.Some? && Streak(marks, s, e) && marks[e].ts - k.held.value == OnTime(marks, s, e)
  {
    s := ClockCountsStreak(marks, e + 1);
  }

  lemma StreakIsUnique(marks: seq<Mark>, s: nat, s': nat, e: nat)
    requires Streak(marks, s, e) && Streak(marks, s', e)
    ensures s == s'
  {
  }
}
