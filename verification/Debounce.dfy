/** The debounce timer shared by the charge taper, the sequence currentBelow condition and the
    auto-stop rules with session scope: the first qualifying observation starts a clock, a
    disqualifying one stops it, and the timer closes once the clock has run long enough. */
module Debounce {
  import opened Prelude

  datatype Obs = Obs(ts: int, ok: bool)

  function Arm(since: Option<int>, o: Obs): Option<int> {
    if !o.ok then None else if since.Some? then since else Some(o.ts)
  }

  predicate Closes(since: Option<int>, o: Obs, need: int) {
    Arm(since, o).Some? && o.ts - Arm(since, o).value >= need
  }

  /** The clock after a whole series of observations. */
  function SinceAfter(obs: seq<Obs>): Option<int> {
    if obs == [] then None else Arm(SinceAfter(obs[..|obs| - 1]), obs[|obs| - 1])
  }

  /** Observations s..e all qualify, and the run cannot be extended to the left. */
  ghost predicate Window(obs: seq<Obs>, s: int, e: int) {
    && 0 <= s <= e < |obs|
    && (forall k | s <= k <= e :: obs[k].ok)
    && (s > 0 ==> !obs[s - 1].ok)
  }

  lemma {:induction false} SinceIsWindowStart(obs: seq<Obs>)
    ensures SinceAfter(obs).Some? <==> obs != [] && obs[|obs| - 1].ok
    ensures SinceAfter(obs).Some? ==>
              exists s :: Window(obs, s, |obs| - 1) && SinceAfter(obs).value == obs[s].ts
  {
    if obs != [] && obs[|obs| - 1].ok {
      var prefix := obs[..|obs| - 1];
      SinceIsWindowStart(prefix);
      if SinceAfter(prefix).Some? {
        var s :| Window(prefix, s, |prefix| - 1) && SinceAfter(prefix).value == prefix[s].ts;
        assert Window(obs, s, |obs| - 1);
      } else {
        assert Window(obs, |obs| - 1, |obs| - 1);
      }
    }
  }

  /** The window that ends at a qualifying observation: it exists, starts the clock, and holds
      every other qualifying stretch that ends there. */
  lemma WindowAt(obs: seq<Obs>, e: nat) returns (s: int)
    requires e < |obs| && obs[e].ok
    ensures Window(obs, s, e)
    ensures Arm(SinceAfter(obs[..e]), obs[e]) == Some(obs[s].ts)
    ensures forall s' | Window(obs, s', e) :: s' == s
    ensures forall s' | Stretch(obs, s', e) :: s <= s'
  {
    var upTo := obs[..e + 1];
    assert upTo[..e] == obs[..e];
    SinceIsWindowStart(upTo);
    s :| Window(upTo, s, e) && SinceAfter(upTo).value == upTo[s].ts;
  }

  /** The timer closes on observation e exactly when the unbroken window ending there spans need. */
  lemma ClosesOnFullWindow(obs: seq<Obs>, e: nat, need: int)
    requires e < |obs|
    ensures Closes(SinceAfter(obs[..e]), obs[e], need) <==>
            exists s :: Window(obs, s, e) && obs[e].ts - obs[s].ts >= need
  {
    if obs[e].ok {
      var s := WindowAt(obs, e);
    }
  }

  ghost predicate Stretch(obs: seq<Obs>, s: int, e: int) {
    0 <= s <= e < |obs| && forall k | s <= k <= e :: obs[k].ok
  }

  /** With non-decreasing timestamps any qualifying stretch of the required length will do. */
  lemma ClosesOnAnyStretch(obs: seq<Obs>, e: nat, need: int)
    requires e < |obs|
    requires forall i, j | 0 <= i <= j < |obs| :: obs[i].ts <= obs[j].ts
    ensures Closes(SinceAfter(obs[..e]), obs[e], need) <==>
            exists s :: Stretch(obs, s, e) && obs[e].ts - obs[s].ts >= need
  {
    if obs[e].ok {
      var s := WindowAt(obs, e);
      assert Stretch(obs, s, e);
    }
  }
}
