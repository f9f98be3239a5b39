/** The antispam throttle of the notifier: per kind at most one message per cooldown, repeats collapsed
    into one flush at the end of the window. */
module Throttle {
  import opened Prelude

  /** lastSent is None until the first message; flush is the time the pending timer is set for. */
  datatype KindState = KindState(lastSent: Option<int>, pending: nat, lastText: string, flush: Option<int>)

  /** What is handed to the queue: the text, and how many notifications it stands for. */
  datatype Message = Message(kind: string, text: string, repeats: nat, at: int)

  datatype State = State(stopped: bool, kinds: map<string, KindState>, queue: seq<Message>)

  datatype Event = Notify(kind: string, text: string, now: int) | TimerFires(kind: string, now: int) | Stop

  const IDLE := KindState(None, 0, "", None)
  const INITIAL := State(false, map[], [])

  function Get(st: State, kind: string): KindState {
    if kind in st.kinds then st.kinds[kind] else IDLE
  }

  function Put(st: State, kind: string, k: KindState): State {
    st.(kinds := st.kinds[kind := k])
  }

  predicate WindowOpen(k: KindState, now: int, cooldown: int) {
    k.lastSent.None? || now - k.lastSent.value >= cooldown
  }

  /** How long until the window closes. */
  function Wait(k: KindState, now: int, cooldown: int): nat {
    if k.lastSent.None? || cooldown - (now - k.lastSent.value) < 0 then 0 else cooldown - (now - k.lastSent.value)
  }

  function Notified(st: State, kind: string, text: string, now: int, cooldown: int): State {
    var k := Get(st, kind);
    if st.stopped then st
    else if k.pending == 0 && WindowOpen(k, now, cooldown) then
      Put(st, kind, k.(lastSent := Some(now))).(queue := st.queue + [Message(kind, text, 1, now)])
    else
      Put(st, kind, k.(pending := k.pending + 1, lastText := text,
                       flush := if k.flush.Some? then k.flush else Some(now + Wait(k, now, cooldown))))
  }

  function Flushed(st: State, kind: string, now: int): State {
    if st.stopped || kind !in st.kinds then st
    else
      var k := st.kinds[kind];
      if k.pending == 0 then Put(st, kind, k.(flush := None))
      else
        Put(st, kind, k.(flush := None, pending := 0, lastSent := Some(now)))
          .(queue := st.queue + [Message(kind, k.lastText, k.pending, now)])
  }

  function StopAll(st: State): State {
    st.(stopped := true, kinds := map kind | kind in st.kinds :: st.kinds[kind].(flush := None))
  }

  function Step(st: State, e: Event, cooldown: int): State {
    match e
    case Notify(kind, text, now) => Notified(st, kind, text, now, cooldown)
    case TimerFires(kind, now) => Flushed(st, kind, now)
    case Stop => StopAll(st)
  }

  class Service {
    const cooldown: int
    var stopped: bool
    var kinds: map<string, KindState>
    var queue: seq<Message>

    ghost function View(): State reads this { State(stopped, kinds, queue) }

    constructor (cooldown: int)
      ensures View() == INITIAL && this.cooldown == cooldown
    {
      this.cooldown, stopped, kinds, queue := cooldown, false, map[], [];
    }

    method ThrottleNotify(kind: string, text: string, now: int)
      modifies this
      ensures View() == Step(old(View()), Notify(kind, text, now), cooldown)
    {
      if stopped { return; }
      var k := if kind in kinds then kinds[kind] else IDLE;
      if k.pending == 0 && (k.lastSent.None? || now - k.lastSent.value >= cooldown) {
        kinds := kinds[kind := k.(lastSent := Some(now))];
        queue := queue + [Message(kind, text, 1, now)];
        return;
      }
      k := k.(pending := k.pending + 1, lastText := text);
      if k.flush.None? {
        var wait := if k.lastSent.None? then 0 else cooldown - (now - k.lastSent.value);
        if wait < 0 { wait := 0; }
        k := k.(flush := Some(now + wait));
      }
      kinds := kinds[kind := k];
    }

    method FlushKind(kind: string, now: int)
      modifies this
      ensures View() == Step(old(View()), TimerFires(kind, now), cooldown)
    {
      if stopped { return; }
      if kind !in kinds { return; }
      var k := kinds[kind].(flush := None);
      if k.pending == 0 {
        kinds := kinds[kind := k];
        return;
      }
      var m := Message(kind, k.lastText, k.pending, now);
      kinds := kinds[kind := k.(pending := 0, lastSent := Some(now))];
      queue := queue + [m];
    }

    method StopThrottle()
      modifies this
      ensures View() == Step(old(View()), Event.Stop, cooldown)
    {
      stopped := true;
      ghost var all, before := kinds, kinds.Keys;
      var todo := kinds.Keys;
      while todo != {}
        invariant stopped && queue == old(queue) && kinds.Keys == before && todo <= before
        invariant forall kind | kind in kinds ::
          kinds[kind] == if kind in todo then all[kind] else all[kind].(flush := None)
        decreases |todo|
      {
        var kind :| kind in todo;
        todo := todo - {kind};
        if kinds[kind].flush.Some? {
          kinds := kinds[kind := kinds[kind].(flush := None)];
        }
      }
      assert kinds == StopAll(old(View())).kinds;
    }
  }

  // --- whole runs ---

  function Run(events: seq<Event>, cooldown: int): State {
    if events == [] then INITIAL else Step(Run(events[..|events| - 1], cooldown), events[|events| - 1], cooldown)
  }

  /** A timer fires only if it is set, and never early. */
  predicate Admissible(st: State, e: Event) {
    e.TimerFires? && !st.stopped ==> Get(st, e.kind).flush.Some? && Get(st, e.kind).flush.value <= e.now
  }

  predicate Punctual(events: seq<Event>, cooldown: int) {
    events == []
    || (&& Punctual(events[..|events| - 1], cooldown)
        && Admissible(Run(events[..|events| - 1], cooldown), events[|events| - 1]))
  }

  /** The messages of one kind. */
  function Of(queue: seq<Message>, kind: string): seq<Message> {
    if queue == [] then []
    else
      var before, m := Of(queue[..|queue| - 1], kind), queue[|queue| - 1];
      if m.kind == kind then before + [m] else before
  }

  function Total(messages: seq<Message>): nat {
    if messages == [] then 0 else Total(messages[..|messages| - 1]) + messages[|messages| - 1].repeats
  }

  /** The notifications of one kind before the throttle was stopped. */
  function Asked(events: seq<Event>, kind: string): seq<string> {
    if events == [] then []
    else
      var before, e := events[..|events| - 1], events[|events| - 1];
      if e.Notify? && e.kind == kind && Event.Stop !in before then Asked(before, kind) + [e.text]
      else Asked(before, kind)
  }

  ghost predicate Spaced(messages: seq<Message>, cooldown: int) {
    forall i | 0 < i < |messages| :: messages[i].at - messages[i - 1].at >= cooldown
  }

  /** The messages keep the cooldown, and the last one is remembered. */
  ghost predicate SendsRight(k: KindState, messages: seq<Message>, cooldown: int) {
    Spaced(messages, cooldown) && k.lastSent == if messages == [] then None else Some(messages[|messages| - 1].at)
  }

  /** A timer is set exactly while something is pending, for the moment the window closes. */
  ghost predicate TimerRight(k: KindState, stopped: bool, cooldown: int) {
    && (!stopped ==> (k.flush.Some? <==> k.pending > 0))
    && (k.lastSent.None? ==> k.pending == 0)
    && (k.flush.Some? ==> k.lastSent.Some? && k.flush.value == k.lastSent.value + cooldown)
  }

  /** Every notification is in a message or pending; messages and the pending state carry the latest of
      the texts they stand for. */
  ghost predicate CountsRight(k: KindState, messages: seq<Message>, asked: seq<string>) {
    && |asked| == Total(messages) + k.pending
    && (k.pending > 0 ==> k.lastText == asked[|asked| - 1])
    && (messages != [] ==> 0 < Total(messages) && messages[|messages| - 1].text == asked[Total(messages) - 1])
  }

  ghost predicate KindInv(st: State, kind: string, asked: seq<string>, cooldown: int) {
    var k, messages := Get(st, kind), Of(st.queue, kind);
    SendsRight(k, messages, cooldown) && TimerRight(k, st.stopped, cooldown) && CountsRight(k, messages, asked)
  }

  lemma OneMessage(queue: seq<Message>, m: Message, kind: string)
    ensures Of(queue + [m], kind) == if m.kind == kind then Of(queue, kind) + [m] else Of(queue, kind)
    ensures m.kind == kind ==> Total(Of(queue + [m], kind)) == Total(Of(queue, kind)) + m.repeats
  {
    assert (queue + [m])[..|queue|] == queue;
    assert (Of(queue, kind) + [m])[..|Of(queue, kind)|] == Of(queue, kind);
  }

  lemma SpacedAfter(messages: seq<Message>, m: Message, cooldown: int)
    requires Spaced(messages, cooldown)
    requires messages == [] || m.at - messages[|messages| - 1].at >= cooldown
    ensures Spaced(messages + [m], cooldown)
  {
  }

  lemma TotalAfter(messages: seq<Message>, m: Message)
    ensures Total(messages + [m]) == Total(messages) + m.repeats
  {
    assert (messages + [m])[..|messages|] == messages;
  }

  /** Sending at once when the window is open, with nothing pending. */
  lemma SendKeeps(k: KindState, messages: seq<Message>, asked: seq<string>, m: Message, cooldown: int)
    requires SendsRight(k, messages, cooldown) && TimerRight(k, false, cooldown) && CountsRight(k, messages, asked)
    requires k.pending == 0 && WindowOpen(k, m.at, cooldown) && m.repeats == 1
    ensures var k' := k.(lastSent := Some(m.at));
            SendsRight(k', messages + [m], cooldown) && TimerRight(k', false, cooldown)
            && CountsRight(k', messages + [m], asked + [m.text])
  {
    SpacedAfter(messages, m, cooldown);
    TotalAfter(messages, m);
  }

  lemma SuppressKeeps(k: KindState, messages: seq<Message>, asked: seq<string>, text: string, now: int, cooldown: int)
    requires SendsRight(k, messages, cooldown) && TimerRight(k, false, cooldown) && CountsRight(k, messages, asked)
    requires k.pending > 0 || !WindowOpen(k, now, cooldown)
    ensures var flush := if k.flush.Some? then k.flush else Some(now + Wait(k, now, cooldown));
            var k' := k.(pending := k.pending + 1, lastText := text, flush := flush);
            SendsRight(k', messages, cooldown) && TimerRight(k', false, cooldown)
            && CountsRight(k', messages, asked + [text])
  {
  }

  lemma FlushSendKeeps(k: KindState, messages: seq<Message>, asked: seq<string>, m: Message, cooldown: int)
    requires SendsRight(k, messages, cooldown) && TimerRight(k, false, cooldown) && CountsRight(k, messages, asked)
    requires k.pending > 0 && k.flush.Some? && k.flush.value <= m.at && m.text == k.lastText && m.repeats == k.pending
    ensures var k' := k.(flush := None, pending := 0, lastSent := Some(m.at));
            SendsRight(k', messages + [m], cooldown) && TimerRight(k', false, cooldown)
            && CountsRight(k', messages + [m], asked)
  {
    SpacedAfter(messages, m, cooldown);
    TotalAfter(messages, m);
  }

  lemma NotifyElsewhere(st: State, kind: string, e: Event, asked: seq<string>, cooldown: int)
    requires e.Notify? && KindInv(st, kind, asked, cooldown) && (e.kind != kind || st.stopped)
    ensures KindInv(Step(st, e, cooldown), kind, asked, cooldown)
  {
    var st' := Step(st, e, cooldown);
    OneMessage(st.queue, Message(e.kind, e.text, 1, e.now), kind);
    assert st'.stopped == st.stopped && Get(st', kind) == Get(st, kind) && Of(st'.queue, kind) == Of(st.queue, kind);
  }

  lemma NotifySends(st: State, e: Event, asked: seq<string>, cooldown: int)
    requires e.Notify? && KindInv(st, e.kind, asked, cooldown) && !st.stopped
    requires var k := Get(st, e.kind); k.pending == 0 && WindowOpen(k, e.now, cooldown)
    ensures KindInv(Step(st, e, cooldown), e.kind, asked + [e.text], cooldown)
  {
    var k, m, st' := Get(st, e.kind), Message(e.kind, e.text, 1, e.now), Step(st, e, cooldown);
    OneMessage(st.queue, m, e.kind);
    SendKeeps(k, Of(st.queue, e.kind), asked, m, cooldown);
    assert !st'.stopped && Get(st', e.kind) == k.(lastSent := Some(e.now)) && st'.queue == st.queue + [m];
  }

  lemma NotifySuppresses(st: State, e: Event, asked: seq<string>, cooldown: int)
    requires e.Notify? && KindInv(st, e.kind, asked, cooldown) && !st.stopped
    requires var k := Get(st, e.kind); k.pending > 0 || !WindowOpen(k, e.now, cooldown)
    ensures KindInv(Step(st, e, cooldown), e.kind, asked + [e.text], cooldown)
  {
    var k, st' := Get(st, e.kind), Step(st, e, cooldown);
    SuppressKeeps(k, Of(st.queue, e.kind), asked, e.text, e.now, cooldown);
    var flush := if k.flush.Some? then k.flush else Some(e.now + Wait(k, e.now, cooldown));
    assert !st'.stopped && st'.queue == st.queue;
    assert Get(st', e.kind) == k.(pending := k.pending + 1, lastText := e.text, flush := flush);
  }

  lemma NotifyKeeps(st: State, kind: string, e: Event, asked: seq<string>, cooldown: int)
    requires e.Notify? && KindInv(st, kind, asked, cooldown)
    ensures KindInv(Step(st, e, cooldown), kind,
                    if e.kind == kind && !st.stopped then asked + [e.text] else asked, cooldown)
  {
    if e.kind != kind || st.stopped {
      NotifyElsewhere(st, kind, e, asked, cooldown);
    } else if Get(st, e.kind).pending == 0 && WindowOpen(Get(st, e.kind), e.now, cooldown) {
      NotifySends(st, e, asked, cooldown);
    } else {
      NotifySuppresses(st, e, asked, cooldown);
    }
  }

  lemma FlushKeeps(st: State, kind: string, e: Event, asked: seq<string>, cooldown: int)
    requires e.TimerFires? && Admissible(st, e) && KindInv(st, kind, asked, cooldown)
    ensures KindInv(Step(st, e, cooldown), kind, asked, cooldown)
  {
    var k, messages := Get(st, e.kind), Of(st.queue, kind);
    var m := Message(e.kind, k.lastText, k.pending, e.now);
    OneMessage(st.queue, m, kind);
    if e.kind == kind && !st.stopped { FlushSendKeeps(k, messages, asked, m, cooldown); }
  }

  lemma StopKeeps(st: State, kind: string, asked: seq<string>, cooldown: int)
    requires KindInv(st, kind, asked, cooldown)
    ensures KindInv(StopAll(st), kind, asked, cooldown)
  {
    assert Get(StopAll(st), kind) == Get(st, kind).(flush := None);
  }

  lemma AskedAfter(before: seq<Event>, e: Event, kind: string)
    ensures Asked(before + [e], kind) ==
            if e.Notify? && e.kind == kind && Event.Stop !in before then Asked(before, kind) + [e.text]
            else Asked(before, kind)
  {
    assert (before + [e])[..|before|] == before;
  }

  lemma {:induction false} RunKeeps(events: seq<Event>, kind: string, cooldown: int)
    requires Punctual(events, cooldown)
    ensures KindInv(Run(events, cooldown), kind, Asked(events, kind), cooldown)
    ensures Run(events, cooldown).stopped <==> Event.Stop in events
  {
    if events != [] {
      var before, e := events[..|events| - 1], events[|events| - 1];
      RunKeeps(before, kind, cooldown);
      assert events == before + [e];
      AskedAfter(before, e, kind);
      match e
      case Notify(_, _, _) => NotifyKeeps(Run(before, cooldown), kind, e, Asked(before, kind), cooldown);
      case TimerFires(_, _) => FlushKeeps(Run(before, cooldown), kind, e, Asked(before, kind), cooldown);
      case Stop => StopKeeps(Run(before, cooldown), kind, Asked(before, kind), cooldown);
    }
  }

  /** Two messages of a kind are at least one cooldown apart, if timers never fire early. */
  lemma MessagesKeepCooldown(events: seq<Event>, kind: string, cooldown: int, i: nat, j: nat)
    requires Punctual(events, cooldown) && cooldown >= 0
    requires i < j < |Of(Run(events, cooldown).queue, kind)|
    ensures var messages := Of(Run(events, cooldown).queue, kind); messages[j].at - messages[i].at >= cooldown
    decreases j
  {
    RunKeeps(events, kind, cooldown);
    if i < j - 1 { MessagesKeepCooldown(events, kind, cooldown, i, j - 1); }
  }

  /** Every notification made before the stop was sent at once, is counted in one flushed message, or is
      still pending, and the text kept or sent last is the latest it stands for; a timer is set exactly
      while something is pending. */
  lemma NothingIsLost(events: seq<Event>, kind: string, cooldown: int)
    requires Punctual(events, cooldown)
    ensures var st := Run(events, cooldown);
            && CountsRight(Get(st, kind), Of(st.queue, kind), Asked(events, kind))
            && (Event.Stop !in events ==> (Get(st, kind).flush.Some? <==> Get(st, kind).pending > 0))
  {
    RunKeeps(events, kind, cooldown);
  }

  lemma RunOne(events: seq<Event>, e: Event, cooldown: int)
    ensures Run(events + [e], cooldown) == Step(Run(events, cooldown), e, cooldown)
    ensures Punctual(events + [e], cooldown) <==> Punctual(events, cooldown) && Admissible(Run(events, cooldown), e)
  {
    assert (events + [e])[..|events|] == events;
  }

  /** The messages of a kind after a notification: one more exactly when nothing is held back and the last
      message is at least a cooldown old. */
  predicate SentIfOpen(before: seq<Message>, after: seq<Message>, asked: nat, m: Message, cooldown: int) {
    if Total(before) == asked && (before == [] || m.at - before[|before| - 1].at >= cooldown)
    then after == before + [m] else after == before
  }

  lemma NotifiedIfOpen(st: State, kind: string, text: string, now: int, cooldown: int, asked: seq<string>)
    requires KindInv(st, kind, asked, cooldown) && !st.stopped
    ensures SentIfOpen(Of(st.queue, kind), Of(Notified(st, kind, text, now, cooldown).queue, kind), |asked|,
                       Message(kind, text, 1, now), cooldown)
  {
    OneMessage(st.queue, Message(kind, text, 1, now), kind);
  }

  /** A notification is sent at once exactly when nothing of its kind is held back and no message of the
      kind went out within the last cooldown; otherwise nothing is sent. */
  lemma SentAtOnceIff(events: seq<Event>, kind: string, text: string, now: int, cooldown: int)
    requires Punctual(events, cooldown) && Event.Stop !in events
    ensures SentIfOpen(Of(Run(events, cooldown).queue, kind),
                       Of(Run(events + [Notify(kind, text, now)], cooldown).queue, kind),
                       |Asked(events, kind)|, Message(kind, text, 1, now), cooldown)
  {
    RunKeeps(events, kind, cooldown);
    RunOne(events, Notify(kind, text, now), cooldown);
    NotifiedIfOpen(Run(events, cooldown), kind, text, now, cooldown, Asked(events, kind));
  }

  /** All that is held back goes out as one message, with the latest text. */
  predicate AllSent(before: seq<Message>, after: seq<Message>, kind: string, asked: seq<string>, now: int) {
    asked != [] && Total(before) <= |asked|
    && after == before + [Message(kind, asked[|asked| - 1], |asked| - Total(before), now)]
  }

  predicate DueAfter(sent: seq<Message>, flush: Option<int>, cooldown: int) {
    sent != [] && flush == Some(sent[|sent| - 1].at + cooldown)
  }

  lemma FlushedAtOnce(st: State, kind: string, now: int, cooldown: int, asked: seq<string>)
    requires KindInv(st, kind, asked, cooldown) && !st.stopped && Total(Of(st.queue, kind)) < |asked|
    ensures DueAfter(Of(st.queue, kind), Get(st, kind).flush, cooldown)
    ensures AllSent(Of(st.queue, kind), Of(Flushed(st, kind, now).queue, kind), kind, asked, now)
  {
    OneMessage(st.queue, Message(kind, Get(st, kind).lastText, Get(st, kind).pending, now), kind);
  }

  /** What is held back goes out when the cooldown after the last message is over: the timer is set for
      exactly that moment, and when it fires all of it is sent as one message. */
  lemma HeldBackGoesOut(events: seq<Event>, kind: string, now: int, cooldown: int)
    requires Punctual(events, cooldown) && Event.Stop !in events
    requires Total(Of(Run(events, cooldown).queue, kind)) < |Asked(events, kind)|
    ensures DueAfter(Of(Run(events, cooldown).queue, kind), Get(Run(events, cooldown), kind).flush, cooldown)
    ensures AllSent(Of(Run(events, cooldown).queue, kind),
                    Of(Run(events + [TimerFires(kind, now)], cooldown).queue, kind), kind, Asked(events, kind), now)
  {
    RunKeeps(events, kind, cooldown);
    RunOne(events, TimerFires(kind, now), cooldown);
    FlushedAtOnce(Run(events, cooldown), kind, now, cooldown, Asked(events, kind));
  }

  /** Stopping ends it: whatever comes afterwards, nothing more is sent and no timer is left. */
  lemma {:induction false} StoppedIsFinal(events: seq<Event>, cooldown: int, i: nat, kind: string)
    requires i < |events| && events[i] == Event.Stop
    ensures var st := Run(events, cooldown);
      st.stopped && st.queue == Run(events[..i], cooldown).queue && Get(st, kind).flush.None?
    decreases |events|
  {
    var n := |events| - 1;
    if i < n {
      assert events[..n][..i] == events[..i];
      StoppedIsFinal(events[..n], cooldown, i, kind);
    }
  }
}
