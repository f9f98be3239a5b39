/** The hub's state cache, the update stream it feeds, and the browser's replica of the cache. */
module HubReplica {
  import opened Prelude

  datatype Mode = CC | CV
  datatype Protection = Fine | Tripped(cause: string)

  /** The cached device state; `settings` stands for every register that is only ever sent in full. */
  datatype Cache = Cache(
    outputOn: bool, mode: Mode, protection: Protection, measured: (real, real, real), settings: seq<real>)

  const BLANK := Cache(false, CC, Fine, (0.0, 0.0, 0.0), [])

  datatype Hub = Hub(connected: bool, state: Option<Cache>)

  const STARTUP := Hub(false, None)

  /** Decoded protocol events, the end of a session, and updates other features broadcast. */
  datatype Event =
    | Measurement(measured: (real, real, real))
    | OutputState(on: bool)
    | ProtectionState(protection: Protection)
    | CCCVMode(mode: Mode)
    | OtherRegister(settings: seq<real>)
    | DeviceInfo
    | FullDump(dump: Cache)
    | SessionEnds
    | Broadcast(kind: string)

  datatype Update =
    | Telemetry(cache: Cache)
    | OutputChange(on: bool)
    | ModeChange(mode: Mode)
    | ProtectionTrip(protection: Protection)
    | StatusChange(connected: bool)
    | StateSnapshot(hub: Hub)
    | JournalEvent(kind: string)

  function StateOf(h: Hub): Cache {
    if h.state.Some? then h.state.value else BLANK
  }

  function With(h: Hub, c: Cache): Hub {
    h.(state := Some(c))
  }

  /** The cache after an event. */
  function Applied(h: Hub, e: Event): Hub {
    var c := StateOf(h);
    match e
    case Measurement(m) => With(h, c.(measured := m))
    case OutputState(on) => With(h, c.(outputOn := on))
    case ProtectionState(p) => With(h, c.(protection := p))
    case CCCVMode(m) => With(h, c.(mode := m))
    case OtherRegister(s) => With(h, c.(settings := s))
    case DeviceInfo => h
    case FullDump(d) => Hub(true, Some(d))
    case SessionEnds => h.(connected := false)
    case Broadcast(_) => h
  }

  function If(b: bool, u: Update): seq<Update> {
    if b then [u] else []
  }

  /** The changes a dump reveals against the state before it. */
  function Changes(h: Hub, d: Cache): seq<Update> {
    if h.state.None? then [] else ChangesFrom(h.state.value, d)
  }

  function ChangesFrom(prev: Cache, d: Cache): seq<Update> {
    If(prev.outputOn != d.outputOn, OutputChange(d.outputOn))
    + If(prev.mode != d.mode, ModeChange(d.mode))
    + If(prev.protection != d.protection && d.protection != Fine, ProtectionTrip(d.protection))
  }

  /** The updates it broadcasts. A change is only announced against a state that existed. */
  function Emitted(h: Hub, e: Event): seq<Update> {
    match e
    case Measurement(m) => [Telemetry(StateOf(Applied(h, e)))]
    case OutputState(on) => If(h.state.Some? && h.state.value.outputOn != on, OutputChange(on))
    case ProtectionState(p) => If(h.state.Some? && h.state.value.protection != p && p != Fine, ProtectionTrip(p))
    case CCCVMode(m) => If(h.state.Some? && h.state.value.mode != m, ModeChange(m))
    case FullDump(d) => If(!h.connected, StatusChange(true)) + Changes(h, d) + [StateSnapshot(Applied(h, e))]
    case SessionEnds => If(h.connected, StatusChange(false))
    case Broadcast(kind) => [JournalEvent(kind)]
    case _ => []
  }

  const BUFFER: nat := 64

  /** A subscription: what waits in its buffer, and whether an update was ever dropped. */
  datatype Sub = Sub(queue: seq<Update>, dropped: bool)

  function Push(s: Sub, u: Update): Sub {
    if |s.queue| >= BUFFER then s.(dropped := true) else s.(queue := s.queue + [u])
  }

  /** An update is dropped exactly when 64 are waiting; otherwise it waits behind them. */
  lemma DropsIffFull(s: Sub, u: Update)
    ensures if |s.queue| >= 64 then Push(s, u) == Sub(s.queue, true) else Push(s, u) == Sub(s.queue + [u], s.dropped)
  {
  }

  function Pushed(s: Sub, updates: seq<Update>): Sub {
    if updates == [] then s else Push(Pushed(s, updates[..|updates| - 1]), updates[|updates| - 1])
  }

  /** Every subscriber of `before` was offered these updates in this order. */
  ghost predicate Sent(before: map<nat, Sub>, after: map<nat, Sub>, updates: seq<Update>) {
    after.Keys == before.Keys && forall id | id in after :: after[id] == Pushed(before[id], updates)
  }

  lemma SentOne(before: map<nat, Sub>, mid: map<nat, Sub>, after: map<nat, Sub>, sent: seq<Update>, u: Update)
    requires Sent(before, mid, sent)
    requires after.Keys == mid.Keys && forall id | id in after :: after[id] == Push(mid[id], u)
    ensures Sent(before, after, sent + [u])
  {
    assert (sent + [u])[..|sent|] == sent;
  }

  class DeviceHub {
    var connected: bool
    var state: Option<Cache>
    var subs: map<nat, Sub>

    ghost function View(): Hub reads this { Hub(connected, state) }

    constructor ()
      ensures View() == STARTUP && subs == map[]
    {
      connected, state, subs := false, None, map[];
    }

    method Subscribe(id: nat)
      requires id !in subs
      modifies this`subs
      ensures subs == old(subs)[id := Sub([], false)]
    {
      subs := subs[id := Sub([], false)];
    }

    method BroadcastLocked(u: Update, ghost before: map<nat, Sub>, ghost sent: seq<Update>)
      requires Sent(before, subs, sent)
      modifies this`subs
      ensures Sent(before, subs, sent + [u])
    {
      ghost var was := subs;
      var todo := subs.Keys;
      while todo != {}
        invariant subs.Keys == was.Keys && todo <= subs.Keys
        invariant forall id | id in subs :: subs[id] == if id in todo then was[id] else Push(was[id], u)
        decreases |todo|
      {
        var id :| id in todo;
        todo := todo - {id};
        if |subs[id].queue| < BUFFER {
          subs := subs[id := subs[id].(queue := subs[id].queue + [u])];
        } else {
          subs := subs[id := subs[id].(dropped := true)];
        }
      }
      SentOne(before, was, subs, sent, u);
    }

    method StateLocked() returns (c: Cache)
      modifies this`state
      ensures c == StateOf(old(View())) && state == Some(c)
    {
      if state.None? { state := Some(BLANK); }
      c := state.value;
    }

    /** Folds one event into the cache and broadcasts what it changes. */
    method ApplyLocked(e: Event)
      modifies this
      ensures View() == Applied(old(View()), e)
      ensures Sent(old(subs), subs, Emitted(old(View()), e))
    {
      match e
      case Measurement(m) =>
        var c := StateLocked();
        state := Some(c.(measured := m));
        BroadcastLocked(Telemetry(state.value), subs, []);
      case OtherRegister(s) =>
        var c := StateLocked();
        state := Some(c.(settings := s));
      case OutputState(on) =>
        var changed := state.Some? && state.value.outputOn != on;
        var c := StateLocked();
        state := Some(c.(outputOn := on));
        if changed { BroadcastLocked(OutputChange(on), subs, []); }
      case ProtectionState(p) =>
        var changed := state.Some? && state.value.protection != p;
        var c := StateLocked();
        state := Some(c.(protection := p));
        if changed && p != Fine { BroadcastLocked(ProtectionTrip(p), subs, []); }
      case CCCVMode(m) =>
        var changed := state.Some? && state.value.mode != m;
        var c := StateLocked();
        state := Some(c.(mode := m));
        if changed { BroadcastLocked(ModeChange(m), subs, []); }
      case DeviceInfo =>
      case FullDump(d) => ApplyDumpLocked(d);
      case SessionEnds =>
        var wasConnected := connected;
        connected := false;
        if wasConnected { BroadcastLocked(StatusChange(false), subs, []); }
      case Broadcast(kind) => BroadcastLocked(JournalEvent(kind), subs, []);
    }

    method BroadcastIf(b: bool, u: Update, ghost before: map<nat, Sub>, ghost sent: seq<Update>)
      requires Sent(before, subs, sent)
      modifies this`subs
      ensures Sent(before, subs, sent + If(b, u))
    {
      assert sent + [] == sent;
      if b { BroadcastLocked(u, before, sent); }
    }

    method BroadcastChanges(prev: Cache, d: Cache, ghost before: map<nat, Sub>, ghost sent: seq<Update>)
      requires Sent(before, subs, sent)
      modifies this`subs
      ensures Sent(before, subs, sent + ChangesFrom(prev, d))
    {
      var output, mode := prev.outputOn != d.outputOn, prev.mode != d.mode;
      var trip := prev.protection != d.protection && d.protection != Fine;
      BroadcastIf(output, OutputChange(d.outputOn), before, sent);
      BroadcastIf(mode, ModeChange(d.mode), before, sent + If(output, OutputChange(d.outputOn)));
      BroadcastIf(trip, ProtectionTrip(d.protection), before,
                  sent + If(output, OutputChange(d.outputOn)) + If(mode, ModeChange(d.mode)));
      Regroup(sent, If(output, OutputChange(d.outputOn)), If(mode, ModeChange(d.mode)),
              If(trip, ProtectionTrip(d.protection)));
    }

    /** A dump replaces the cache; the first one of a session also brings the link up. */
    method ApplyDumpLocked(d: Cache)
      modifies this
      ensures View() == Applied(old(View()), FullDump(d))
      ensures Sent(old(subs), subs, Emitted(old(View()), FullDump(d)))
    {
      var prev := state;
      ghost var before, h := subs, View();
      state := Some(d);
      var up := !connected;
      connected := true;
      BroadcastIf(up, StatusChange(true), before, []);
      ghost var sent := If(up, StatusChange(true));
      assert [] + sent == sent && sent + [] == sent;
      if prev.Some? { BroadcastChanges(prev.value, d, before, sent); }
      BroadcastLocked(StateSnapshot(Hub(connected, state)), before, sent + Changes(h, d));
    }
  }

  lemma Regroup(a: seq<Update>, b: seq<Update>, c: seq<Update>, d: seq<Update>)
    ensures a + b + c + d == a + (b + c + d)
  {
  }

  // --- the client ---

  datatype Store = Store(deviceConnected: Option<bool>, state: Option<Cache>)

  datatype WsMessage =
    | StateMessage(connected: bool, state: Option<Cache>)
    | TelemetryMessage(cache: Cache)
    | StatusMessage(connected: bool)
    | OutputMessage(on: bool)
    | ModeMessage(mode: Mode)
    | ProtectionMessage(protection: Protection)
    | OtherMessage

  function UpdateMessage(u: Update): WsMessage {
    match u
    case StateSnapshot(h) => StateMessage(h.connected, h.state)
    case Telemetry(c) => TelemetryMessage(c)
    case StatusChange(connected) => StatusMessage(connected)
    case OutputChange(on) => OutputMessage(on)
    case ModeChange(m) => ModeMessage(m)
    case ProtectionTrip(p) => ProtectionMessage(p)
    case JournalEvent(_) => OtherMessage
  }

  /** The reducer. Telemetry and events refine a known state; they cannot build one. */
  function Reduce(s: Store, m: WsMessage): Store {
    match m
    case StateMessage(connected, state) => Store(Some(connected), state)
    case StatusMessage(connected) => s.(deviceConnected := Some(connected))
    case OtherMessage => s
    case _ =>
      if s.state.None? then s
      else
        var c := s.state.value;
        match m
        case TelemetryMessage(t) =>
          s.(state := Some(Cache(t.outputOn, t.mode, t.protection, t.measured, c.settings)))
        case OutputMessage(on) => s.(state := Some(c.(outputOn := on)))
        case ModeMessage(mode) => s.(state := Some(c.(mode := mode)))
        case ProtectionMessage(p) => s.(state := Some(c.(protection := p)))
        case _ => s
  }

  function Replay(s: Store, updates: seq<Update>): Store {
    if updates == [] then s
    else Reduce(Replay(s, updates[..|updates| - 1]), UpdateMessage(updates[|updates| - 1]))
  }

  lemma {:induction false} ReplayTwice(s: Store, a: seq<Update>, b: seq<Update>)
    ensures Replay(s, a + b) == Replay(Replay(s, a), b)
  {
    if b == [] {
      assert a + b == a;
    } else {
      assert (a + b)[..|a + b| - 1] == a + b[..|b| - 1];
      ReplayTwice(s, a, b[..|b| - 1]);
    }
  }

  // --- the hub alone ---

  function Run(events: seq<Event>): Hub {
    if events == [] then STARTUP else Applied(Run(events[..|events| - 1]), events[|events| - 1])
  }

  /** Everything broadcast over a series of events. */
  function Stream(events: seq<Event>): seq<Update> {
    if events == [] then []
    else Stream(events[..|events| - 1]) + Emitted(Run(events[..|events| - 1]), events[|events| - 1])
  }

  function Statuses(updates: seq<Update>): seq<bool> {
    if updates == [] then []
    else
      var before, u := Statuses(updates[..|updates| - 1]), updates[|updates| - 1];
      if u.StatusChange? then before + [u.connected] else before
  }

  lemma {:induction false} StatusesAppend(a: seq<Update>, b: seq<Update>)
    ensures Statuses(a + b) == Statuses(a) + Statuses(b)
  {
    if b == [] {
      assert a + b == a;
    } else {
      assert (a + b)[..|a + b| - 1] == a + b[..|b| - 1];
      StatusesAppend(a, b[..|b| - 1]);
    }
  }

  lemma {:induction false} NoStatuses(updates: seq<Update>)
    requires forall k | 0 <= k < |updates| :: !updates[k].StatusChange?
    ensures Statuses(updates) == []
  {
    if updates != [] { NoStatuses(updates[..|updates| - 1]); }
  }

  /** News of a dump is neither a link status nor a snapshot. */
  lemma ChangesAreEvents(h: Hub, d: Cache)
    ensures forall k | 0 <= k < |Changes(h, d)| :: !Changes(h, d)[k].StatusChange? && !Changes(h, d)[k].StateSnapshot?
  {
  }

  lemma StatusesOfDump(status: seq<Update>, changes: seq<Update>, u: Update)
    requires forall k | 0 <= k < |changes| :: !changes[k].StatusChange? && !changes[k].StateSnapshot?
    requires !u.StatusChange?
    ensures Statuses(status + changes + [u]) == Statuses(status)
  {
    assert status + changes + [u] == status + (changes + [u]);
    StatusesAppend(status, changes + [u]);
    NoStatuses(changes + [u]);
  }

  lemma StatusesOfEvent(h: Hub, e: Event)
    ensures Statuses(Emitted(h, e)) == if Applied(h, e).connected == h.connected then [] else [Applied(h, e).connected]
  {
    if e.FullDump? {
      ChangesAreEvents(h, e.dump);
      StatusesOfDump(If(!h.connected, StatusChange(true)), Changes(h, e.dump), StateSnapshot(Applied(h, e)));
    }
  }

  ghost predicate Alternates(s: seq<bool>) {
    forall i | 0 <= i < |s| :: s[i] <==> i % 2 == 0
  }

  lemma AlternatesOn(s: seq<bool>, was: bool, now: bool)
    requires Alternates(s) && (was <==> |s| % 2 == 1)
    ensures var s' := s + if now == was then [] else [now];
            Alternates(s') && (now <==> |s'| % 2 == 1)
  {
    if now != was {
      var s' := s + [now];
      forall i | 0 <= i < |s'| ensures s'[i] <==> i % 2 == 0 {
        if i < |s| { assert s'[i] == s[i]; }
      }
    }
  }

  /** Link-status updates strictly alternate, up first; the link is up exactly after an odd number of
      them; and a connected hub has a state. */
  lemma {:induction false} StatusAlternates(events: seq<Event>)
    ensures var s := Statuses(Stream(events)); Alternates(s) && (Run(events).connected <==> |s| % 2 == 1)
    ensures Run(events).connected ==> Run(events).state.Some?
  {
    if events != [] {
      var before, e := events[..|events| - 1], events[|events| - 1];
      var h := Run(before);
      StatusAlternates(before);
      StatusesAppend(Stream(before), Emitted(h, e));
      StatusesOfEvent(h, e);
      AlternatesOn(Statuses(Stream(before)), h.connected, Applied(h, e).connected);
    }
  }

  // --- the replica ---

  /** The client shows the hub's link status, and the hub's output, mode and measurements if it shows a state;
      it does show one while the device is connected. */
  predicate Agrees(h: Hub, s: Store) {
    && s.deviceConnected == Some(h.connected)
    && (s.state.Some? ==> h.state.Some? && s.state.value.outputOn == h.state.value.outputOn
                          && s.state.value.mode == h.state.value.mode
                          && s.state.value.measured == h.state.value.measured)
    && (h.connected ==> s.state.Some?)
  }

  lemma ReplayOne(s: Store, u: Update)
    ensures Replay(s, [u]) == Reduce(s, UpdateMessage(u))
  {
    assert [u][..0] == [];
  }

  /** What an event emits brings an agreeing client along. */
  lemma EmittedKeepsAgreement(h: Hub, s: Store, e: Event)
    requires Agrees(h, s)
    ensures Agrees(Applied(h, e), Replay(s, Emitted(h, e)))
  {
    if e.FullDump? {
      var snapshot := StateSnapshot(Applied(h, e));
      var updates := Emitted(h, e);
      assert updates[..|updates| - 1] + [snapshot] == updates;
    } else if |Emitted(h, e)| == 1 {
      ReplayOne(s, Emitted(h, e)[0]);
      assert Emitted(h, e) == [Emitted(h, e)[0]];
    }
  }

  /** What a stretch of updates says last about the output, the mode, the measurements, the link, the
      protection and the settings. */
  datatype Last = Last(output: Option<bool>, mode: Option<Mode>, measured: Option<(real, real, real)>,
                       link: Option<bool>, protection: Option<Protection>, settings: Option<seq<real>>)

  const SILENT := Last(None, None, None, None, None, None)

  function Said(l: Last, u: Update): Last {
    match u
    case Telemetry(c) =>
      l.(output := Some(c.outputOn), mode := Some(c.mode), measured := Some(c.measured),
         protection := Some(c.protection))
    case OutputChange(on) => l.(output := Some(on))
    case ModeChange(m) => l.(mode := Some(m))
    case StatusChange(connected) => l.(link := Some(connected))
    case ProtectionTrip(p) => l.(protection := Some(p))
    case StateSnapshot(h) =>
      var c := StateOf(h);
      Last(Some(c.outputOn), Some(c.mode), Some(c.measured), Some(h.connected), Some(c.protection), Some(c.settings))
    case _ => l
  }

  function LastOf(updates: seq<Update>): Last {
    if updates == [] then SILENT else Said(LastOf(updates[..|updates| - 1]), updates[|updates| - 1])
  }

  /** Snapshots in the stream always carry a state. */
  predicate Carries(updates: seq<Update>) {
    forall k | 0 <= k < |updates| && updates[k].StateSnapshot? :: updates[k].hub.state.Some?
  }

  /** Updates that are not newer than the hub: what they say last is the hub's present. */
  ghost predicate Current(h: Hub, updates: seq<Update>) {
    var l := LastOf(updates);
    && Carries(updates)
    && (l.output.Some? ==> h.state.Some? && l.output.value == h.state.value.outputOn)
    && (l.mode.Some? ==> h.state.Some? && l.mode.value == h.state.value.mode)
    && (l.measured.Some? ==> h.state.Some? && l.measured.value == h.state.value.measured)
    && (l.link.Some? ==> l.link.value == h.connected)
  }

  lemma OneMore(before: seq<Update>, u: Update)
    ensures LastOf(before + [u]) == Said(LastOf(before), u)
    ensures Carries(before) && (u.StateSnapshot? ==> u.hub.state.Some?) ==> Carries(before + [u])
  {
    assert (before + [u])[..|before|] == before;
  }

  lemma CarriesMore(a: seq<Update>, b: seq<Update>)
    requires Carries(a) && forall k | 0 <= k < |b| :: !b[k].StateSnapshot?
    ensures Carries(a + b)
  {
  }

  lemma SnapshotStaysCurrent(updates: seq<Update>, news: seq<Update>, h: Hub)
    requires Carries(updates) && h.state.Some? && forall k | 0 <= k < |news| :: !news[k].StateSnapshot?
    ensures Current(h, updates + (news + [StateSnapshot(h)]))
  {
    CarriesMore(updates, news);
    OneMore(updates + news, StateSnapshot(h));
    assert updates + (news + [StateSnapshot(h)]) == updates + news + [StateSnapshot(h)];
  }

  lemma NothingNew(h: Hub, h': Hub, updates: seq<Update>)
    requires Current(h, updates) && h'.connected == h.connected
    requires h.state.Some? ==> h'.state.Some? && h'.state.value.outputOn == h.state.value.outputOn
                               && h'.state.value.mode == h.state.value.mode
                               && h'.state.value.measured == h.state.value.measured
    ensures Current(h', updates + [])
  {
    assert updates + [] == updates;
  }

  lemma OneStaysCurrent(h: Hub, h': Hub, updates: seq<Update>, u: Update)
    requires Current(h, updates) && !u.StateSnapshot?
    requires var l := Said(LastOf(updates), u);
             && (l.output.Some? ==> h'.state.Some? && l.output.value == h'.state.value.outputOn)
             && (l.mode.Some? ==> h'.state.Some? && l.mode.value == h'.state.value.mode)
             && (l.measured.Some? ==> h'.state.Some? && l.measured.value == h'.state.value.measured)
             && (l.link.Some? ==> l.link.value == h'.connected)
    ensures Current(h', updates + [u])
  {
    OneMore(updates, u);
  }

  lemma NewsStaysCurrent(h: Hub, updates: seq<Update>, e: Event, u: Update)
    requires Current(h, updates) && !e.FullDump? && Emitted(h, e) == [u]
    ensures Current(Applied(h, e), updates + [u])
  {
    OneStaysCurrent(h, Applied(h, e), updates, u);
  }

  /** The buffer of a subscription stays current as the hub moves on. */
  lemma StreamStaysCurrent(h: Hub, updates: seq<Update>, e: Event)
    requires Current(h, updates)
    ensures Current(Applied(h, e), updates + Emitted(h, e))
  {
    var h' := Applied(h, e);
    if e.FullDump? {
      ChangesAreEvents(h, e.dump);
      SnapshotStaysCurrent(updates, If(!h.connected, StatusChange(true)) + Changes(h, e.dump), h');
    } else if Emitted(h, e) == [] {
      NothingNew(h, h', updates);
    } else {
      var u := Emitted(h, e)[0];
      assert Emitted(h, e) == [u];
      NewsStaysCurrent(h, updates, e, u);
    }
  }

  /** The store shows what was said last, and what it showed before where nothing was said. */
  predicate Shows(before: Store, l: Last, after: Store)
    requires before.state.Some?
  {
    var c := before.state.value;
    after == Store(if l.link.Some? then l.link else before.deviceConnected,
                   Some(Cache(Or(l.output, c.outputOn), Or(l.mode, c.mode), Or(l.protection, c.protection),
                              Or(l.measured, c.measured), Or(l.settings, c.settings))))
  }

  function Or<T>(said: Option<T>, shown: T): T {
    if said.Some? then said.value else shown
  }

  lemma ReduceSays(before: Store, l: Last, s: Store, u: Update)
    requires before.state.Some? && Shows(before, l, s) && (u.StateSnapshot? ==> u.hub.state.Some?)
    ensures Shows(before, Said(l, u), Reduce(s, UpdateMessage(u)))
  {
    match u
    case Telemetry(_) =>
    case StateSnapshot(_) =>
    case _ =>
  }

  lemma {:induction false} ReplaySaysLast(s: Store, updates: seq<Update>)
    requires s.state.Some? && Carries(updates)
    ensures Shows(s, LastOf(updates), Replay(s, updates))
  {
    if updates != [] {
      var before := updates[..|updates| - 1];
      ReplaySaysLast(s, before);
      ReduceSays(s, LastOf(before), Replay(s, before), updates[|updates| - 1]);
    }
  }

  lemma {:induction false} NothingSaidWithoutState(s: Store, updates: seq<Update>)
    requires s.state.None? && LastOf(updates).output.None? && LastOf(updates).mode.None?
    ensures var r, l := Replay(s, updates), LastOf(updates);
            r.state.None? && r.deviceConnected == (if l.link.Some? then l.link else s.deviceConnected)
  {
    if updates != [] { NothingSaidWithoutState(s, updates[..|updates| - 1]); }
  }

  /** The store after the first message, a snapshot of the hub. */
  function FirstStore(h: Hub): Store {
    Reduce(Store(None, None), StateMessage(h.connected, h.state))
  }

  /** Replaying current updates, stale ones among them, over a snapshot of the hub does no harm. */
  lemma SnapshotThenReplayAgrees(h: Hub, updates: seq<Update>)
    requires Current(h, updates) && (h.connected ==> h.state.Some?)
    ensures Agrees(h, Replay(FirstStore(h), updates))
  {
    if h.state.Some? {
      ReplaySaysLast(FirstStore(h), updates);
    } else {
      NothingSaidWithoutState(FirstStore(h), updates);
    }
  }

  // --- one client in the running system ---

  /** What was put into the client's buffer since it subscribed, how much of it the client has been
      sent, whether anything was dropped, and the client's store once it has had its snapshot. */
  datatype System = System(
    hub: Hub, subscribed: bool, offered: seq<Update>, sent: nat, dropped: bool, store: Option<Store>)

  datatype Action = HubEvent(e: Event) | Subscribe | SendSnapshot | SendNext

  const BOOT := System(STARTUP, false, [], 0, false, None)

  /** One update offered to a buffer that holds what has not been sent yet. */
  function Offer(sys: System, u: Update): System {
    if !sys.subscribed then sys
    else if |sys.offered| - sys.sent >= BUFFER then sys.(dropped := true)
    else sys.(offered := sys.offered + [u])
  }

  function OfferAll(sys: System, updates: seq<Update>): System {
    if updates == [] then sys else Offer(OfferAll(sys, updates[..|updates| - 1]), updates[|updates| - 1])
  }

  predicate Enabled(sys: System, a: Action) {
    match a
    case HubEvent(_) => true
    case Subscribe => !sys.subscribed
    case SendSnapshot => sys.subscribed && sys.store.None?
    case SendNext => sys.store.Some? && sys.sent < |sys.offered|
  }

  function Act(sys: System, a: Action): System {
    if !Enabled(sys, a) then sys
    else match a
      case HubEvent(e) => OfferAll(sys, Emitted(sys.hub, e)).(hub := Applied(sys.hub, e))
      case Subscribe => sys.(subscribed := true)
      case SendSnapshot => sys.(store := Some(FirstStore(sys.hub)))
      case SendNext =>
        sys.(store := Some(Reduce(sys.store.value, UpdateMessage(sys.offered[sys.sent]))), sent := sys.sent + 1)
  }

  function After(actions: seq<Action>): System {
    if actions == [] then BOOT else Act(After(actions[..|actions| - 1]), actions[|actions| - 1])
  }

  ghost predicate Inv(sys: System) {
    && (sys.hub.connected ==> sys.hub.state.Some?)
    && sys.sent <= |sys.offered|
    && (!sys.subscribed ==> sys.store.None? && sys.offered == [])
    && (sys.store.None? ==> sys.sent == 0)
    && (!sys.dropped && sys.store.None? ==> Current(sys.hub, sys.offered))
    && (!sys.dropped && sys.store.Some? ==> Agrees(sys.hub, Replay(sys.store.value, sys.offered[sys.sent..])))
  }

  lemma {:induction false} OfferedAll(sys: System, updates: seq<Update>)
    requires sys.sent <= |sys.offered|
    ensures var sys' := OfferAll(sys, updates);
            && sys'.hub == sys.hub && sys'.sent == sys.sent && sys'.store == sys.store
            && sys'.subscribed == sys.subscribed
            && sys.offered <= sys'.offered
            && (sys.dropped ==> sys'.dropped)
            && (!sys.subscribed ==> sys'.offered == sys.offered)
            && (sys.subscribed && !sys'.dropped ==> sys'.offered == sys.offered + updates)
  {
    if updates != [] {
      OfferedAll(sys, updates[..|updates| - 1]);
      assert updates[..|updates| - 1] + [updates[|updates| - 1]] == updates;
    }
  }

  lemma PendingGrows(s: Store, offered: seq<Update>, sent: nat, updates: seq<Update>)
    requires sent <= |offered|
    ensures Replay(s, (offered + updates)[sent..]) == Replay(Replay(s, offered[sent..]), updates)
  {
    assert (offered + updates)[sent..] == offered[sent..] + updates;
    ReplayTwice(s, offered[sent..], updates);
  }

  lemma WatchedEventKeepsInv(sys: System, sys': System, e: Event, updates: seq<Update>)
    requires Inv(sys) && sys.subscribed && updates == Emitted(sys.hub, e)
    requires sys' == sys.(offered := sys.offered + updates, hub := Applied(sys.hub, e)) && !sys'.dropped
    ensures Inv(sys')
  {
    if sys.store.Some? {
      PendingGrows(sys.store.value, sys.offered, sys.sent, updates);
      EmittedKeepsAgreement(sys.hub, Replay(sys.store.value, sys.offered[sys.sent..]), e);
    } else {
      StreamStaysCurrent(sys.hub, sys.offered, e);
    }
  }

  lemma HubEventKeepsInv(sys: System, e: Event)
    requires Inv(sys)
    ensures Inv(Act(sys, HubEvent(e)))
  {
    var updates, sys' := Emitted(sys.hub, e), Act(sys, HubEvent(e));
    OfferedAll(sys, updates);
    if !sys'.dropped && sys.subscribed { WatchedEventKeepsInv(sys, sys', e, updates); }
  }

  lemma SendNextShowsTheSame(sys: System)
    requires sys.sent <= |sys.offered| && Enabled(sys, SendNext)
    ensures var sys' := Act(sys, SendNext);
            Replay(sys'.store.value, sys'.offered[sys'.sent..]) == Replay(sys.store.value, sys.offered[sys.sent..])
  {
    var u, rest := sys.offered[sys.sent], sys.offered[sys.sent + 1..];
    assert sys.offered[sys.sent..] == [u] + rest;
    ReplayTwice(sys.store.value, [u], rest);
    ReplayOne(sys.store.value, u);
  }

  lemma {:induction false} InvAlways(actions: seq<Action>)
    ensures Inv(After(actions))
  {
    if actions != [] {
      var sys, a := After(actions[..|actions| - 1]), actions[|actions| - 1];
      InvAlways(actions[..|actions| - 1]);
      if Enabled(sys, a) {
        match a
        case HubEvent(e) => HubEventKeepsInv(sys, e);
        case SendSnapshot =>
          assert sys.offered[0..] == sys.offered;
          if !sys.dropped { SnapshotThenReplayAgrees(sys.hub, sys.offered); }
        case SendNext => SendNextShowsTheSame(sys);
        case Subscribe =>
      }
    }
  }

  /** A client that has been sent everything, with nothing dropped, shows the hub's link, output,
      mode and measurements, whatever the hub did before, between and after the subscription and the snapshot. */
  lemma DrainedClientAgrees(actions: seq<Action>)
    ensures var sys := After(actions);
            sys.store.Some? && !sys.dropped && sys.sent == |sys.offered| ==> Agrees(sys.hub, sys.store.value)
  {
    InvAlways(actions);
    var sys := After(actions);
    if sys.sent == |sys.offered| { assert sys.offered[sys.sent..] == []; }
  }

  // --- the cache against the reports ---

  /** What a report is about; a dump is about everything. */
  predicate SameSubject(a: Event, b: Event) {
    b.FullDump? || (a.Measurement? && b.Measurement?) || (a.OutputState? && b.OutputState?)
    || (a.ProtectionState? && b.ProtectionState?) || (a.CCCVMode? && b.CCCVMode?)
    || (a.OtherRegister? && b.OtherRegister?)
  }

  /** The cache holds what the report said. */
  predicate Holds(h: Hub, e: Event) {
    match e
    case Measurement(m) => h.state.Some? && h.state.value.measured == m
    case OutputState(on) => h.state.Some? && h.state.value.outputOn == on
    case ProtectionState(p) => h.state.Some? && h.state.value.protection == p
    case CCCVMode(m) => h.state.Some? && h.state.value.mode == m
    case OtherRegister(s) => h.state.Some? && h.state.value.settings == s
    case _ => true
  }

  lemma ReportIsHeld(h: Hub, a: Event, e: Event)
    requires Holds(h, a) && !SameSubject(a, e)
    ensures Holds(Applied(h, e), a)
  {
  }

  /** The cache holds the last report on every subject, whatever else was reported since. */
  lemma {:induction false} LastReportStands(events: seq<Event>, i: nat)
    requires i < |events| && forall j | i < j < |events| :: !SameSubject(events[i], events[j])
    ensures Holds(Run(events), events[i])
    decreases |events|
  {
    var n := |events| - 1;
    if i < n {
      LastReportStands(events[..n], i);
      ReportIsHeld(Run(events[..n]), events[i], events[n]);
    }
  }

  /** A dump stands in full until the next report, and the link is up from a dump until the session ends. */
  lemma {:induction false} LastDumpStands(events: seq<Event>, i: nat)
    requires i < |events| && events[i].FullDump?
    ensures (forall j | i < j < |events| :: events[j].DeviceInfo? || events[j].Broadcast? || events[j].SessionEnds?) ==>
              Run(events).state == Some(events[i].dump)
    ensures (forall j | i < j < |events| :: !events[j].SessionEnds?) ==> Run(events).connected
    ensures ((forall j | i < j < |events| :: !events[j].FullDump?)
             && (exists j :: i < j < |events| && events[j].SessionEnds?)) ==> !Run(events).connected
    decreases |events|
  {
    var n := |events| - 1;
    if i < n {
      LastDumpStands(events[..n], i);
      if !events[n].SessionEnds? && exists j :: i < j < |events| && events[j].SessionEnds? {
        var j :| i < j < |events| && events[j].SessionEnds?;
        assert events[..n][j].SessionEnds?;
      }
    }
  }
}
