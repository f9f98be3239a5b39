/** The single-owner guard of the device output and the bounded output-off retry. */
module OutputInterlock {

  const FREE := ""

  function OwnerAfterAcquire(owner: string, tag: string): string {
    if owner == FREE then tag else owner
  }

  function OwnerAfterRelease(owner: string, tag: string): string {
    if owner == tag then FREE else owner
  }

  class Interlock {
    var owner: string

    constructor ()
      ensures owner == FREE
    {
      owner := FREE;
    }

    method Acquire(tag: string) returns (won: bool)
      modifies this
      ensures won <==> old(owner) == FREE
      ensures owner == OwnerAfterAcquire(old(owner), tag)
    {
      if owner != FREE { return false; }
      owner := tag;
      return true;
    }

    method Release(tag: string)
      modifies this
      ensures owner == OwnerAfterRelease(old(owner), tag)
    {
      if owner == tag { owner := FREE; }
    }
  }

  const TRIES := 3

  /** What follows attempt k: an end with a result, or the next attempt. */
  datatype Attempt = Done(ok: bool) | Retry(next: nat)

  function Attempted(k: nat, ok: bool): Attempt {
    if ok then Done(true) else if k < TRIES then Retry(k + 1) else Done(false)
  }

  /** The device link as the retry loop sees it: one reply per write, and the log of what was written. */
  class OutputSwitch {
    const replies: seq<bool>
    var writes: seq<bool>

    constructor (replies: seq<bool>)
      ensures this.replies == replies && writes == []
    {
      this.replies := replies;
      writes := [];
    }

    /** A write past the scripted replies fails, as on a dead link. */
    function Reply(k: nat): bool {
      k < |replies| && replies[k]
    }

    method SetOutput(on: bool) returns (ok: bool)
      modifies this
      ensures writes == old(writes) + [on] && ok == Reply(|old(writes)|)
    {
      ok := Reply(|writes|);
      writes := writes + [on];
    }
  }

  /** The outcome of attempt k and those after it; the device answers attempt k with reply `at`. */
  function Outcome(sw: OutputSwitch, at: nat, k: nat): bool
    decreases TRIES - k
  {
    match Attempted(k, sw.Reply(at))
    case Done(ok) => ok
    case Retry(next) => Outcome(sw, at + 1, next)
  }

  /** Switches the output off with up to three attempts. It only ever writes "off", succeeds exactly
      when one of the three would, and stops at the first that does. */
  method SafeOutputOff(sw: OutputSwitch) returns (ok: bool)
    modifies sw
    ensures var first, last := |old(sw.writes)|, |sw.writes| - 1;
      && first <= last < first + TRIES && sw.writes[..first] == old(sw.writes)
      && (forall k | first <= k <= last :: !sw.writes[k])
      && (forall k | first <= k < last :: !sw.Reply(k))
      && (ok ==> sw.Reply(last))
      && (!ok ==> last == first + TRIES - 1 && !sw.Reply(last))
    ensures ok == Outcome(sw, |old(sw.writes)|, 1)
    ensures var first := |old(sw.writes)|; ok <==> sw.Reply(first) || sw.Reply(first + 1) || sw.Reply(first + 2)
  {
    ghost var first := |sw.writes|;
    ok := false;
    var attempt := 1;
    while attempt <= TRIES
      invariant 1 <= attempt <= TRIES + 1
      invariant |sw.writes| == first + attempt - 1 && sw.writes[..first] == old(sw.writes)
      invariant forall k | first <= k < |sw.writes| :: !sw.writes[k] && !sw.Reply(k)
      invariant attempt <= TRIES ==> Outcome(sw, first, 1) == Outcome(sw, |sw.writes|, attempt)
      invariant !ok && (attempt > TRIES ==> !Outcome(sw, first, 1))
    {
      ok := sw.SetOutput(false);
      if ok { return; }
      attempt := attempt + 1;
    }
  }
}
