/** What a browser shows of the device's protection state. Link, output and mode always agree with the
    hub; protection does not, because a recovery is not announced. */
module HubProtection {
  import opened Prelude
  import opened HubReplica

  /** Updates that carry the protection state. */
  predicate Tells(u: Update) {
    u.Telemetry? || u.ProtectionTrip? || u.StateSnapshot?
  }

  predicate TellsProtection(updates: seq<Update>) {
    exists k :: 0 <= k < |updates| && Tells(updates[k])
  }

  /** A protection report that ends a trip is not announced. */
  predicate Recovers(h: Hub, e: Event) {
    e == ProtectionState(Fine) && h.state.Some? && h.state.value.protection != Fine
  }

  lemma {:induction false} TellsLast(updates: seq<Update>)
    ensures TellsProtection(updates) <==> LastOf(updates).protection.Some?
  {
    if updates != [] {
      var before := updates[..|updates| - 1];
      TellsLast(before);
      assert TellsProtection(updates) <==> TellsProtection(before) || Tells(updates[|updates| - 1]) by {
        if TellsProtection(before) {
          var k :| 0 <= k < |before| && Tells(before[k]);
          assert Tells(updates[k]);
        }
      }
    }
  }

  lemma SnapshotSaysLast(before: seq<Update>, h: Hub)
    ensures LastOf(before + [StateSnapshot(h)]).protection == Some(StateOf(h).protection)
  {
    OneMore(before, StateSnapshot(h));
  }

  lemma LastOfDump(h: Hub, d: Cache)
    ensures LastOf(Emitted(h, FullDump(d))).protection == Some(d.protection)
  {
    SnapshotSaysLast(If(!h.connected, StatusChange(true)) + Changes(h, d), Hub(true, Some(d)));
  }

  lemma LastOfOne(u: Update)
    ensures LastOf([u]) == Said(SILENT, u)
  {
    OneMore([], u);
    assert [] + [u] == [u];
  }

  /** What an event says about the protection is the hub's; an event that says nothing leaves the hub's
      protection alone or is a silent recovery. */
  lemma EventAndProtection(h: Hub, e: Event)
    ensures var h', told := Applied(h, e), LastOf(Emitted(h, e)).protection;
      && (told.Some? ==> h'.state.Some? && told.value == h'.state.value.protection)
      && (h.state.Some? ==> h'.state.Some?)
      && (h.state.Some? && told.None? && !Recovers(h, e) ==> h'.state.value.protection == h.state.value.protection)
      && (Recovers(h, e) ==> told.None? && h'.state.value.protection == Fine)
  {
    if e.FullDump? {
      LastOfDump(h, e.dump);
    } else if Emitted(h, e) != [] {
      LastOfOne(Emitted(h, e)[0]);
      assert Emitted(h, e) == [Emitted(h, e)[0]];
    }
  }

  lemma EmittedCarries(h: Hub, e: Event)
    ensures Carries(Emitted(h, e))
  {
    if e.FullDump? { ChangesAreEvents(h, e.dump); }
  }

  /** A client that shows the hub's protection goes on showing it after every event but one: a report
      that the protection is fine again. An event that carries the protection always sets it right. */
  lemma RecoveryIsSilent(h: Hub, s: Store, e: Event)
    requires h.state.Some? && s.state.Some?
    ensures var h', s' := Applied(h, e), Replay(s, Emitted(h, e));
      && h'.state.Some? && s'.state.Some?
      && (s.state.value.protection == h.state.value.protection ==>
            (s'.state.value.protection == h'.state.value.protection <==> !Recovers(h, e)))
      && (TellsProtection(Emitted(h, e)) ==> s'.state.value.protection == h'.state.value.protection)
  {
    EmittedCarries(h, e);
    ReplaySaysLast(s, Emitted(h, e));
    EventAndProtection(h, e);
    TellsLast(Emitted(h, e));
  }

  /** Actions that set the client's protection right: offering it an update that carries the protection, and
      its own snapshot unless such an update is already waiting behind it. */
  predicate Refreshes(sys: System, a: Action) {
    match a
    case HubEvent(e) => sys.subscribed && TellsProtection(Emitted(sys.hub, e))
    case SendSnapshot => Enabled(sys, a) && !TellsProtection(sys.offered)
    case _ => false
  }

  /** Action i ends a trip by a report, which is not announced. */
  predicate RecoversAt(actions: seq<Action>, i: nat)
    requires i < |actions|
  {
    actions[i].HubEvent? && Recovers(After(actions[..i]).hub, actions[i].e)
  }

  predicate RefreshesAt(actions: seq<Action>, j: nat)
    requires j < |actions|
  {
    Refreshes(After(actions[..j]), actions[j])
  }

  /** Every silent recovery was followed by a refresh. */
  ghost predicate Refreshed(actions: seq<Action>) {
    forall i: nat | i < |actions| && RecoversAt(actions, i) ::
      exists j: nat :: i < j < |actions| && RefreshesAt(actions, j)
  }

  lemma SameBefore(before: seq<Action>, a: Action, k: nat)
    requires k < |before|
    ensures RecoversAt(before + [a], k) == RecoversAt(before, k)
    ensures RefreshesAt(before + [a], k) == RefreshesAt(before, k)
  {
    assert (before + [a])[..k] == before[..k];
  }

  lemma RefreshedStays(before: seq<Action>, a: Action)
    requires Refreshed(before) && !RecoversAt(before + [a], |before|)
    ensures Refreshed(before + [a])
  {
    var actions := before + [a];
    forall i: nat | i < |actions| && RecoversAt(actions, i)
      ensures exists j: nat :: i < j < |actions| && RefreshesAt(actions, j)
    {
      SameBefore(before, a, i);
      var j: nat :| i < j < |before| && RefreshesAt(before, j);
      SameBefore(before, a, j);
    }
  }

  lemma RefreshedWas(before: seq<Action>, a: Action)
    requires Refreshed(before + [a]) && !RefreshesAt(before + [a], |before|)
    ensures Refreshed(before) && !RecoversAt(before + [a], |before|)
  {
    var actions := before + [a];
    forall i: nat | i < |before| && RecoversAt(before, i)
      ensures exists j: nat :: i < j < |before| && RefreshesAt(before, j)
    {
      SameBefore(before, a, i);
      var j: nat :| i < j < |actions| && RefreshesAt(actions, j);
      SameBefore(before, a, j);
    }
  }

  /** The condition, one action at a time. */
  function StillRefreshed(sys: System, a: Action, refreshed: bool): bool {
    Refreshes(sys, a) || (refreshed && !(a.HubEvent? && Recovers(sys.hub, a.e)))
  }

  lemma RecoveryIsNoRefresh(h: Hub, e: Event)
    requires Recovers(h, e)
    ensures !TellsProtection(Emitted(h, e))
  {
  }

  lemma RefreshedOne(before: seq<Action>, a: Action)
    ensures Refreshed(before + [a]) <==> StillRefreshed(After(before), a, Refreshed(before))
  {
    var actions, n := before + [a], |before|;
    assert actions[..n] == before;
    if RecoversAt(actions, n) { RecoveryIsNoRefresh(After(before).hub, a.e); }
    if RefreshesAt(actions, n) {
      assert Refreshed(actions);
    } else if Refreshed(actions) {
      RefreshedWas(before, a);
    } else if Refreshed(before) && !RecoversAt(actions, n) {
      RefreshedStays(before, a);
    }
  }

  /** The protection the client has been told, sent or still waiting. */
  function Told(actions: seq<Action>): Option<Protection> {
    if actions == [] then None
    else ToldOne(After(actions[..|actions| - 1]), actions[|actions| - 1], Told(actions[..|actions| - 1]))
  }

  function ToldOne(sys: System, a: Action, told: Option<Protection>): Option<Protection> {
    if !Refreshes(sys, a) then told
    else if a.HubEvent? then LastOf(Emitted(sys.hub, a.e)).protection
    else if sys.hub.state.None? then None
    else Some(sys.hub.state.value.protection)
  }

  /** What the client shows once it has been sent everything. */
  ghost predicate WillShow(sys: System, told: Option<Protection>)
    requires sys.sent <= |sys.offered|
  {
    && (sys.store.None? ==> LastOf(sys.offered).protection == told)
    && (sys.store.Some? ==>
          var s := Replay(sys.store.value, sys.offered[sys.sent..]);
          s.state.Some? ==> told == Some(s.state.value.protection))
  }

  /** What it was told is the hub's protection, or the trip the hub has silently left since. */
  ghost predicate Honest(h: Hub, told: Option<Protection>, refreshed: bool) {
    told.Some? ==>
      && h.state.Some?
      && (refreshed ==> h.state.value.protection == told.value)
      && (!refreshed ==> h.state.value.protection == Fine != told.value)
  }

  lemma HonestStep(sys: System, a: Action, told: Option<Protection>, refreshed: bool)
    requires Honest(sys.hub, told, refreshed) && (!sys.subscribed ==> told.None?)
    ensures Honest(Act(sys, a).hub, ToldOne(sys, a, told), StillRefreshed(sys, a, refreshed))
  {
    if a.HubEvent? {
      EventAndProtection(sys.hub, a.e);
      TellsLast(Emitted(sys.hub, a.e));
    }
  }

  lemma NotToldBeforeSubscribing(sys: System, a: Action, told: Option<Protection>)
    requires Inv(sys) && (!sys.subscribed ==> told.None?)
    ensures !Act(sys, a).subscribed ==> ToldOne(sys, a, told).None?
  {
    if a.HubEvent? { OfferedAll(sys, Emitted(sys.hub, a.e)); }
  }

  lemma {:induction false} LastProtection(a: seq<Update>, b: seq<Update>)
    ensures LastOf(a + b).protection ==
            if LastOf(b).protection.Some? then LastOf(b).protection else LastOf(a).protection
  {
    if b == [] {
      assert a + b == a;
    } else {
      assert (a + b)[..|a + b| - 1] == a + b[..|b| - 1];
      LastProtection(a, b[..|b| - 1]);
    }
  }

  /** A client without a state gets one from a dump only, which says what it shows then. */
  lemma StateComesFromDump(h: Hub, s: Store, e: Event)
    requires s.state.None?
    ensures var s' := Replay(s, Emitted(h, e));
      s'.state.Some? ==> LastOf(Emitted(h, e)).protection == Some(s'.state.value.protection)
  {
    if e.FullDump? {
      LastOfDump(h, e.dump);
    } else if Emitted(h, e) != [] {
      ReplayOne(s, Emitted(h, e)[0]);
      assert Emitted(h, e) == [Emitted(h, e)[0]];
    }
  }

  lemma ReplayTells(h: Hub, s: Store, e: Event, told: Option<Protection>)
    requires s.state.Some? ==> told == Some(s.state.value.protection)
    ensures var s', said := Replay(s, Emitted(h, e)), LastOf(Emitted(h, e)).protection;
      s'.state.Some? ==> Some(s'.state.value.protection) == if said.Some? then said else told
  {
    if s.state.Some? {
      EmittedCarries(h, e);
      ReplaySaysLast(s, Emitted(h, e));
    } else {
      StateComesFromDump(h, s, e);
    }
  }

  lemma WatchedEventWillShow(sys: System, sys': System, e: Event, told: Option<Protection>)
    requires Inv(sys) && sys.subscribed && WillShow(sys, told)
    requires sys' == sys.(offered := sys.offered + Emitted(sys.hub, e), hub := Applied(sys.hub, e))
    ensures WillShow(sys', ToldOne(sys, HubEvent(e), told))
  {
    var updates := Emitted(sys.hub, e);
    TellsLast(updates);
    if sys.store.Some? {
      PendingGrows(sys.store.value, sys.offered, sys.sent, updates);
      ReplayTells(sys.hub, Replay(sys.store.value, sys.offered[sys.sent..]), e, told);
    } else {
      LastProtection(sys.offered, updates);
    }
  }

  lemma HubEventWillShow(sys: System, e: Event, told: Option<Protection>)
    requires Inv(sys) && !sys.dropped && WillShow(sys, told)
    ensures var sys' := Act(sys, HubEvent(e));
      sys'.sent <= |sys'.offered| && (!sys'.dropped ==> WillShow(sys', ToldOne(sys, HubEvent(e), told)))
  {
    var updates, sys' := Emitted(sys.hub, e), Act(sys, HubEvent(e));
    OfferedAll(sys, updates);
    if !sys'.dropped && sys.subscribed { WatchedEventWillShow(sys, sys', e, told); }
  }

  lemma SnapshotWillShow(sys: System, told: Option<Protection>)
    requires Inv(sys) && !sys.dropped && Enabled(sys, SendSnapshot) && WillShow(sys, told)
    ensures WillShow(Act(sys, SendSnapshot), ToldOne(sys, SendSnapshot, told))
  {
    TellsLast(sys.offered);
    assert sys.offered[0..] == sys.offered;
    if sys.hub.state.Some? {
      ReplaySaysLast(FirstStore(sys.hub), sys.offered);
    } else {
      NothingSaidWithoutState(FirstStore(sys.hub), sys.offered);
    }
  }

  /** The invariant behind the result: what the client will show, and what that has to do with the hub. */
  ghost predicate ToldRight(actions: seq<Action>) {
    var sys := After(actions);
    && sys.sent <= |sys.offered|
    && (!sys.subscribed ==> Told(actions).None?)
    && (!sys.dropped ==> WillShow(sys, Told(actions)))
    && Honest(sys.hub, Told(actions), Refreshed(actions))
  }

  lemma {:induction false} ToldRightAlways(actions: seq<Action>)
    ensures ToldRight(actions)
  {
    if actions != [] {
      var before, a := actions[..|actions| - 1], actions[|actions| - 1];
      var sys, told := After(before), Told(before);
      assert before + [a] == actions;
      ToldRightAlways(before);
      InvAlways(before);
      InvAlways(actions);
      RefreshedOne(before, a);
      HonestStep(sys, a, told, Refreshed(before));
      NotToldBeforeSubscribing(sys, a, told);
      if !After(actions).dropped { ActWillShow(sys, a, told); }
    }
  }

  lemma ActWillShow(sys: System, a: Action, told: Option<Protection>)
    requires Inv(sys) && sys.sent <= |sys.offered| && (!sys.dropped ==> WillShow(sys, told))
    requires !Act(sys, a).dropped
    ensures var sys' := Act(sys, a); sys'.sent <= |sys'.offered| && WillShow(sys', ToldOne(sys, a, told))
  {
    if a.HubEvent? { OfferedAll(sys, Emitted(sys.hub, a.e)); }
    match a
    case HubEvent(e) => HubEventWillShow(sys, e, told);
    case SendSnapshot => if Enabled(sys, a) { SnapshotWillShow(sys, told); }
    case SendNext => if Enabled(sys, a) { SendNextShowsTheSame(sys); }
    case Subscribe =>
  }

  /** A drained client with nothing dropped that shows a state shows the hub's protection exactly when
      every silent recovery was followed by an update that carries the protection, or by the client's
      snapshot with no such update waiting behind it. */
  lemma ShowsProtectionIffRefreshed(actions: seq<Action>)
    ensures var sys := After(actions);
      sys.store.Some? && !sys.dropped && sys.sent == |sys.offered| && sys.store.value.state.Some? ==>
        && sys.hub.state.Some?
        && (sys.store.value.state.value.protection == sys.hub.state.value.protection <==> Refreshed(actions))
  {
    ToldRightAlways(actions);
    var sys := After(actions);
    if sys.sent == |sys.offered| { assert sys.offered[sys.sent..] == []; }
  }

  lemma AfterOne(before: seq<Action>, a: Action)
    ensures After(before + [a]) == Act(After(before), a)
  {
    assert (before + [a])[..|before|] == before;
  }

  lemma AfterTwo(before: seq<Action>, a: Action, b: Action)
    ensures After(before + [a, b]) == Act(Act(After(before), a), b)
  {
    AfterOne(before, a);
    AfterOne(before + [a], b);
    assert before + [a] + [b] == before + [a, b];
  }

  lemma AfterSix(a: Action, b: Action, c: Action, d: Action, e: Action, f: Action)
    ensures After([a, b, c, d, e, f]) == Act(Act(Act(Act(Act(Act(BOOT, a), b), c), d), e), f)
  {
    AfterTwo([], a, b);
    assert [] + [a, b] == [a, b];
    AfterTwo([a, b], c, d);
    assert [a, b] + [c, d] == [a, b, c, d];
    AfterTwo([a, b, c, d], e, f);
    assert [a, b, c, d] + [e, f] == [a, b, c, d, e, f];
  }

  lemma {:induction false} NobodyListens(sys: System, updates: seq<Update>)
    requires !sys.subscribed
    ensures OfferAll(sys, updates) == sys
  {
    if updates != [] { NobodyListens(sys, updates[..|updates| - 1]); }
  }

  lemma DumpFirst(d: Cache)
    ensures Act(BOOT, HubEvent(FullDump(d))) == System(Hub(true, Some(d)), false, [], 0, false, None)
  {
    NobodyListens(BOOT, Emitted(STARTUP, FullDump(d)));
  }

  lemma OfferOne(sys: System, u: Update)
    ensures OfferAll(sys, [u]) == Offer(sys, u)
  {
    assert [u][..0] == [];
  }

  /** The hub is tripped and recovers while the subscription waits for its snapshot. */
  lemma TripWhileWaiting(sys: System, d: Cache, cause: string)
    requires d.protection == Fine && sys == System(Hub(true, Some(d)), true, [], 0, false, None)
    ensures Act(Act(sys, HubEvent(ProtectionState(Tripped(cause)))), HubEvent(ProtectionState(Fine))) ==
            sys.(offered := [ProtectionTrip(Tripped(cause))])
  {
    OfferOne(sys, ProtectionTrip(Tripped(cause)));
  }

  lemma StaleReplay(sys: System, d: Cache, cause: string)
    requires d.protection == Fine
    requires sys == System(Hub(true, Some(d)), true, [ProtectionTrip(Tripped(cause))], 0, false, None)
    ensures Act(Act(sys, SendSnapshot), SendNext) ==
            sys.(sent := 1, store := Some(Store(Some(true), Some(d.(protection := Tripped(cause))))))
  {
  }

  /** A client that never kept the trip can end up showing it: the trip and the silent recovery both
      come between subscription and snapshot, and the stale trip is replayed over the newer snapshot. */
  lemma StaleTripIsShown(d: Cache, cause: string)
    requires d.protection == Fine
    ensures var sys := After([HubEvent(FullDump(d)), Subscribe, HubEvent(ProtectionState(Tripped(cause))),
                              HubEvent(ProtectionState(Fine)), SendSnapshot, SendNext]);
      && sys.store.Some? && !sys.dropped && sys.sent == |sys.offered|
      && sys.hub == Hub(true, Some(d))
      && sys.store.value == Store(Some(true), Some(d.(protection := Tripped(cause))))
  {
    AfterSix(HubEvent(FullDump(d)), Subscribe, HubEvent(ProtectionState(Tripped(cause))),
             HubEvent(ProtectionState(Fine)), SendSnapshot, SendNext);
    DumpFirst(d);
    var waiting := System(Hub(true, Some(d)), true, [], 0, false, None);
    TripWhileWaiting(waiting, d, cause);
    StaleReplay(waiting.(offered := [ProtectionTrip(Tripped(cause))]), d, cause);
  }
}
