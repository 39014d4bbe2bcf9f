/**
 Zulip event queues: registration, the cursor, the buffer of message events, and
 every schedule of events, replies, expiry, failures and cancelled polls.
 */
module ZulipPoll {
  import opened Text

  datatype Event = Event(id: int, kind: string, message: Option<string>)

  datatype Poller = Poller(queue: Option<nat>, lastEventId: int, pending: seq<Event>)

  function Delivers(e: Event): bool {
    e.kind == "message" && e.message.Some?
  }

  /** The messages a list of events carries, in order. */
  function MessagesOf(events: seq<Event>): seq<string> {
    if events == [] then []
    else (if Delivers(events[0]) then [events[0].message.value] else []) + MessagesOf(events[1..])
  }

  lemma {:induction false} MessagesConcat(a: seq<Event>, b: seq<Event>)
    ensures MessagesOf(a + b) == MessagesOf(a) + MessagesOf(b)
  {
    if a == [] {
      assert a + b == b;
    } else {
      assert (a + b)[0] == a[0] && (a + b)[1..] == a[1..] + b;
      MessagesConcat(a[1..], b);
      ConcatAssociates(if Delivers(a[0]) then [a[0].message.value] else [], MessagesOf(a[1..]), MessagesOf(b));
    }
  }

  /** What the buffer keeps of a batch. */
  function Buffered(events: seq<Event>): seq<Event> {
    if events == [] then []
    else (if events[0].kind == "message" then [events[0]] else []) + Buffered(events[1..])
  }

  lemma {:induction false} BufferedKeepsMessages(events: seq<Event>)
    ensures MessagesOf(Buffered(events)) == MessagesOf(events)
  {
    if events != [] {
      BufferedKeepsMessages(events[1..]);
      MessagesConcat(if events[0].kind == "message" then [events[0]] else [], Buffered(events[1..]));
    }
  }

  function Cursor(last: int, events: seq<Event>): int
    decreases |events|
  {
    if events == [] then last
    else Cursor(if events[0].id > last then events[0].id else last, events[1..])
  }

  /** What a drained buffer leaves when it holds a message: the events after the first one delivered. */
  function AfterYield(pending: seq<Event>): seq<Event> {
    if pending == [] then []
    else if Delivers(pending[0]) then pending[1..]
    else AfterYield(pending[1..])
  }

  /** The next message of the buffer; events that carry none are dropped on the way. */
  function Yield(p: Poller): (Poller, Option<string>) {
    (p.(pending := AfterYield(p.pending)),
     if MessagesOf(p.pending) == [] then None else Some(MessagesOf(p.pending)[0]))
  }

  datatype Queue = Queue(id: nat, lastEventId: int)

  /** The outcome of one `get_events` request; an expired queue is replaced if registration succeeds. */
  datatype Reply = NoReply | Expired(replacement: Option<Queue>) | Events(events: seq<Event>)

  function UseQueue(p: Poller, queue: Queue): Poller {
    p.(queue := Some(queue.id), lastEventId := queue.lastEventId)
  }

  function AfterReply(p: Poller, reply: Reply): Poller {
    match reply
    case NoReply => p
    case Expired(replacement) => if replacement.Some? then UseQueue(p, replacement.value) else p
    case Events(events) => p.(lastEventId := Cursor(p.lastEventId, events), pending := p.pending + Buffered(events))
  }

  predicate Succeeds(reply: Reply) {
    reply.Events? || (reply.Expired? && reply.replacement.Some?)
  }

  class EventQueue {
    var queue: Option<nat>
    var lastEventId: int
    var pending: seq<Event>

    constructor ()
      ensures State() == Poller(None, -1, [])
    {
      queue, lastEventId, pending := None, -1, [];
    }

    function State(): Poller
      reads this
    {
      Poller(queue, lastEventId, pending)
    }

    method Register(registered: Option<Queue>) returns (ok: bool)
      modifies this`queue, this`lastEventId
      ensures ok == registered.Some?
      ensures State() == if ok then UseQueue(old(State()), registered.value) else old(State())
    {
      ok := registered.Some?;
      if ok {
        queue, lastEventId := Some(registered.value.id), registered.value.lastEventId;
      }
    }

    method TryYield() returns (message: Option<string>)
      modifies this`pending
      ensures (State(), message) == Yield(old(State()))
    {
      while pending != []
        invariant Yield(State()) == Yield(old(State()))
        decreases |pending|
      {
        var event := pending[0];
        pending := pending[1..];
        if event.kind == "message" && event.message.Some? {
          return event.message;
        }
      }
      message := None;
    }

    /** Ask for events, registering first when there is no queue, and buffer what comes. */
    method FetchEvents(registered: Option<Queue>, reply: Reply) returns (ok: bool)
      modifies this
      ensures ok <==> (old(queue).Some? || registered.Some?) && Succeeds(reply)
      ensures State() == if old(queue).Some? then AfterReply(old(State()), reply)
                         else if registered.Some? then AfterReply(UseQueue(old(State()), registered.value), reply)
                         else old(State())
    {
      ok := true;
      if queue.None? {
        ok := Register(registered);
        if !ok {
          return;
        }
      }
      match reply
      case NoReply => ok := false;
      case Expired(replacement) => ok := Register(replacement);
      case Events(events) => BufferAll(events);
    }

    method BufferAll(events: seq<Event>)
      modifies this
      ensures State() == AfterReply(old(State()), Events(events))
    {
      assert events[0..] == events;
      for i := 0 to |events|
        invariant queue == old(queue)
        invariant Cursor(lastEventId, events[i..]) == Cursor(old(lastEventId), events)
        invariant pending + Buffered(events[i..]) == old(pending) + Buffered(events)
      {
        assert events[i..][0] == events[i] && events[i..][1..] == events[i + 1..];
        var event := events[i];
        lastEventId := if event.id > lastEventId then event.id else lastEventId;
        if event.kind == "message" {
          ConcatAssociates(pending, [event], Buffered(events[i + 1..]));
          pending := pending + [event];
        }
      }
      assert events[|events|..] == [] && pending + [] == pending;
    }

    method Poll(registered: Option<Queue>, reply: Reply) returns (ok: bool, message: Option<string>)
      modifies this
      ensures (State(), ok, message) == PollOnce(old(State()), registered, reply)
    {
      message := TryYield();
      if message.Some? {
        return true, message;
      }
      ok := FetchEvents(registered, reply);
      if ok {
        message := TryYield();
      }
    }
  }

  /** One poll: a buffered message if there is one, else ask once and look again. */
  function PollOnce(p: Poller, registered: Option<Queue>, reply: Reply): (Poller, bool, Option<string>) {
    var (drained, first) := Yield(p);
    if first.Some? then (drained, true, first)
    else if drained.queue.None? && registered.None? then (drained, false, None)
    else
      var ready := if drained.queue.Some? then drained else UseQueue(drained, registered.value);
      var fetched := AfterReply(ready, reply);
      if !Succeeds(reply) then (fetched, false, None)
      else
        var (after, message) := Yield(fetched);
        (after, true, message)
  }

  // ---------- every schedule ----------

  /**
   The current queue's events on the server, all newer than `base`; the messages
   yielded from it; and how many buffered events a change of queue has thrown away.
   */
  datatype State = State(events: seq<Event>, base: int, poller: Poller, yielded: seq<string>, nextQueue: nat,
                         thrownAway: nat)

  /** How the server treats a request for events; no answer also stands for a poll cancelled while it waits. */
  datatype Outcome = Answers(count: nat) | Silence | QueueGone(base: Option<int>)

  /** A poll may register a queue that starts at `base`; `arrivals` come while it waits. */
  datatype Action =
    | Arrive(event: Event)
    | Poll(base: Option<int>, arrivals: seq<Event>, outcome: Outcome)

  function Init(): State {
    State([], -1, Poller(None, -1, []), [], 0, 0)
  }

  predicate Ascending(events: seq<Event>, base: int) {
    && (forall i :: 0 <= i < |events| ==> events[i].id > base)
    && forall i, j :: 0 <= i < j < |events| ==> events[i].id < events[j].id
  }

  /** Arrivals must be newer than everything the queue has seen. */
  function WithArrivals(s: State, arrivals: seq<Event>): State {
    if Ascending(s.events + arrivals, s.base) then s.(events := s.events + arrivals) else s
  }

  /** A new queue starts empty; what the drained buffer still held of the old one is lost. */
  function OnNewQueue(s: State, base: int): State {
    s.(events := [], base := base, yielded := [], nextQueue := s.nextQueue + 1,
       thrownAway := s.thrownAway + |AfterYield(s.poller.pending)|)
  }

  /** Events after the cursor. */
  function EventsAfter(events: seq<Event>, cursor: int): seq<Event> {
    if events == [] then []
    else (if events[0].id > cursor then [events[0]] else []) + EventsAfter(events[1..], cursor)
  }

  function FirstOf(events: seq<Event>, count: nat): seq<Event> {
    if count <= |events| then events[..count] else events
  }

  function Delivered(s: State, poller: Poller, message: Option<string>): State {
    if message.Some? then s.(poller := poller, yielded := s.yielded + [message.value]) else s.(poller := poller)
  }

  /** The server's side of a registration, and what the poller is told. */
  function Registers(s: State, base: Option<int>): (State, Option<Queue>) {
    if s.poller.queue.None? && base.Some? then (OnNewQueue(s, base.value), Some(Queue(s.nextQueue, base.value)))
    else (s, None)
  }

  /** The server's side of a request for the events after `cursor`, and its reply. */
  function Replies(s: State, cursor: int, outcome: Outcome): (State, Reply) {
    match outcome
    case Answers(count) => (s, Events(FirstOf(EventsAfter(s.events, cursor), count)))
    case Silence => (s, NoReply)
    case QueueGone(base) =>
      if base.None? then (s, Expired(None))
      else (OnNewQueue(s, base.value), Expired(Some(Queue(s.nextQueue, base.value))))
  }

  /** The server is asked when the buffer holds no message and there is, or can be, a queue. */
  predicate Asks(p: Poller, base: Option<int>) {
    MessagesOf(p.pending) == [] && (p.queue.Some? || base.Some?)
  }

  function Polled(s: State, base: Option<int>, arrivals: seq<Event>, outcome: Outcome): State {
    if !Asks(s.poller, base) then
      var (poller, ok, message) := PollOnce(s.poller, None, NoReply);
      Delivered(s, poller, message)
    else
      var (queued, registered) := Registers(s, base);
      var cursor := if registered.Some? then registered.value.lastEventId else s.poller.lastEventId;
      var (server, reply) := Replies(WithArrivals(queued, arrivals), cursor, outcome);
      var (poller, ok, message) := PollOnce(s.poller, registered, reply);
      Delivered(server, poller, message)
  }

  function Next(s: State, a: Action): State {
    match a
    case Arrive(event) => if s.poller.queue.Some? then WithArrivals(s, [event]) else s
    case Poll(base, arrivals, outcome) => Polled(s, base, arrivals, outcome)
  }

  function After(actions: seq<Action>): State {
    if actions == [] then Init()
    else Next(After(actions[..|actions| - 1]), actions[|actions| - 1])
  }

  // ---------- invariant ----------

  /** The cursor is at the `k`th event, and yielded and buffered messages are those of the first `k` events. */
  predicate UpTo(s: State, k: nat) {
    && k <= |s.events|
    && s.poller.lastEventId == (if k == 0 then s.base else s.events[k - 1].id)
    && s.yielded + MessagesOf(s.poller.pending) == MessagesOf(s.events[..k])
  }

  ghost predicate Invariant(s: State) {
    && Ascending(s.events, s.base)
    && s.thrownAway == 0
    && exists k: nat :: UpTo(s, k)
  }

  lemma {:induction false} TailAscending(events: seq<Event>, base: int)
    requires Ascending(events, base) && events != []
    ensures Ascending(events[1..], events[0].id) && Ascending(events[1..], base) && events[0].id > base
  {
  }

  lemma {:induction false} EventsAfterBase(events: seq<Event>, base: int)
    requires Ascending(events, base)
    ensures EventsAfter(events, base) == events
  {
    if events != [] {
      TailAscending(events, base);
      EventsAfterBase(events[1..], base);
    }
  }

  lemma {:induction false} EventsAfterIsRest(events: seq<Event>, base: int, k: nat)
    requires Ascending(events, base) && k <= |events|
    ensures EventsAfter(events, if k == 0 then base else events[k - 1].id) == events[k..]
  {
    if k == 0 {
      EventsAfterBase(events, base);
    } else {
      TailAscending(events, base);
      EventsAfterIsRest(events[1..], events[0].id, k - 1);
      assert events[0].id <= events[k - 1].id;
      hide Ascending;
      assert events[1..][k - 1..] == events[k..];
    }
  }

  lemma {:induction false} CursorIsLast(last: int, events: seq<Event>)
    requires Ascending(events, last)
    ensures Cursor(last, events) == if events == [] then last else events[|events| - 1].id
    decreases |events|
  {
    if |events| > 0 {
      CursorIsLast(events[0].id, events[1..]);
    }
  }

  lemma {:induction false} YieldTakesFirst(pending: seq<Event>)
    ensures MessagesOf(pending) == [] ==> AfterYield(pending) == []
    ensures MessagesOf(pending) != [] ==> MessagesOf(AfterYield(pending)) == MessagesOf(pending)[1..]
  {
    if pending != [] {
      YieldTakesFirst(pending[1..]);
      hide Delivers;
      var rest := MessagesOf(pending[1..]);
      if Delivers(pending[0]) {
        assert MessagesOf(pending) == [pending[0].message.value] + rest;
      } else {
        assert MessagesOf(pending) == [] + rest == rest;
      }
    }
  }

  /** Yielding moves a message from the buffer to the yielded ones. */
  lemma {:induction false} YieldKeeps(s: State)
    requires Invariant(s)
    ensures var (poller, message) := Yield(s.poller);
            Invariant(Delivered(s, poller, message))
  {
    hide Ascending;
    var (poller, message) := Yield(s.poller);
    var k: nat :| UpTo(s, k);
    YieldTakesFirst(s.poller.pending);
    var messages := MessagesOf(s.poller.pending);
    if messages != [] {
      ConcatAssociates(s.yielded, [messages[0]], messages[1..]);
      assert [messages[0]] + messages[1..] == messages;
    }
    assert UpTo(Delivered(s, poller, message), k);
  }

  lemma {:induction false} ArrivalsKeep(s: State, arrivals: seq<Event>)
    requires Invariant(s)
    ensures Invariant(WithArrivals(s, arrivals))
  {
    hide Ascending, MessagesOf;
    var after := WithArrivals(s, arrivals);
    var k: nat :| UpTo(s, k);
    assert after.events[..k] == s.events[..k];
    assert UpTo(after, k);
  }

  lemma {:induction false} NewQueueKeeps(s: State, base: int)
    requires Invariant(s) && s.poller.pending == []
    ensures Invariant(OnNewQueue(s, base).(poller := UseQueue(s.poller, Queue(s.nextQueue, base))))
  {
    assert UpTo(OnNewQueue(s, base).(poller := UseQueue(s.poller, Queue(s.nextQueue, base))), 0);
  }

  lemma {:induction false} SliceAscending(events: seq<Event>, base: int, k: nat, n: nat)
    requires Ascending(events, base) && k + n <= |events|
    ensures Ascending(events[k..k + n], if k == 0 then base else events[k - 1].id)
  {
  }

  lemma {:induction false} NextEvents(s: State, k: nat, count: nat) returns (n: nat)
    requires Ascending(s.events, s.base) && UpTo(s, k)
    ensures k + n <= |s.events|
    ensures FirstOf(EventsAfter(s.events, s.poller.lastEventId), count) == s.events[k..k + n]
  {
    hide MessagesOf;
    EventsAfterIsRest(s.events, s.base, k);
    n := if count <= |s.events| - k then count else |s.events| - k;
    assert FirstOf(s.events[k..], count) == s.events[k..k + n];
  }

  lemma {:induction false} CursorAfterBatch(s: State, k: nat, n: nat)
    requires Ascending(s.events, s.base) && UpTo(s, k) && k + n <= |s.events|
    ensures Cursor(s.poller.lastEventId, s.events[k..k + n]) == if k + n == 0 then s.base else s.events[k + n - 1].id
  {
    hide MessagesOf, Cursor;
    SliceAscending(s.events, s.base, k, n);
    CursorIsLast(s.poller.lastEventId, s.events[k..k + n]);
  }

  /** Buffering the next events moves the cursor past them. */
  lemma {:induction false} BatchKeeps(s: State, k: nat, n: nat)
    requires Ascending(s.events, s.base) && UpTo(s, k) && s.poller.pending == [] && k + n <= |s.events|
    ensures UpTo(s.(poller := AfterReply(s.poller, Events(s.events[k..k + n]))), k + n)
  {
    hide Ascending, EventsAfter, FirstOf, Cursor, Buffered;
    var batch := s.events[k..k + n];
    CursorAfterBatch(s, k, n);
    BufferedKeepsMessages(batch);
    MessagesConcat(s.events[..k], batch);
    assert s.events[..k] + batch == s.events[..k + n];
    assert s.yielded + [] == s.yielded && [] + Buffered(batch) == Buffered(batch);
  }

  lemma {:induction false} AnswerKeeps(s: State, count: nat)
    requires Invariant(s) && s.poller.pending == []
    ensures var batch := FirstOf(EventsAfter(s.events, s.poller.lastEventId), count);
            Invariant(s.(poller := AfterReply(s.poller, Events(batch))))
  {
    hide Ascending, EventsAfter, FirstOf, MessagesOf, UpTo, AfterReply;
    var k: nat :| UpTo(s, k);
    var n := NextEvents(s, k, count);
    BatchKeeps(s, k, n);
  }

  /** The state when the reply has been taken in, before the buffer is looked at again. */
  function TakenIn(s: State, outcome: Outcome): State {
    var (server, reply) := Replies(s, s.poller.lastEventId, outcome);
    server.(poller := AfterReply(s.poller, reply))
  }

  lemma {:induction false} ReplyKeeps(s: State, outcome: Outcome)
    requires Invariant(s) && s.poller.pending == []
    ensures Invariant(TakenIn(s, outcome))
  {
    match outcome
    case Answers(count) =>
      hide Invariant, EventsAfter, FirstOf, AfterReply;
      AnswerKeeps(s, count);
    case Silence =>
    case QueueGone(base) =>
      if base.Some? {
        hide Invariant;
        NewQueueKeeps(s, base.value);
      }
  }

  /** The poller with an empty buffer and a queue, once registration is over and the wait has passed. */
  function Ready(s: State, base: Option<int>, arrivals: seq<Event>): State
    requires Asks(s.poller, base)
  {
    var (queued, registered) := Registers(s, base);
    var drained := s.poller.(pending := []);
    WithArrivals(queued.(poller := if registered.Some? then UseQueue(drained, registered.value) else drained), arrivals)
  }

  lemma {:induction false} ReadyKeeps(s: State, base: Option<int>, arrivals: seq<Event>)
    requires Invariant(s) && Asks(s.poller, base)
    ensures Invariant(Ready(s, base, arrivals)) && Ready(s, base, arrivals).poller.pending == []
  {
    YieldTakesFirst(s.poller.pending);
    YieldKeeps(s);
    var drained := s.(poller := s.poller.(pending := []));
    assert Delivered(s, Yield(s.poller).0, None) == drained;
    hide Invariant;
    if s.poller.queue.None? {
      NewQueueKeeps(drained, base.value);
    }
    var (queued, registered) := Registers(s, base);
    ArrivalsKeep(queued.(poller := if registered.Some? then UseQueue(drained.poller, registered.value)
                                   else drained.poller), arrivals);
  }

  /** A poll that asks: get ready, take in the reply, and look at the buffer again. */
  lemma {:induction false} PolledInSteps(s: State, base: Option<int>, arrivals: seq<Event>, outcome: Outcome)
    requires Asks(s.poller, base)
    ensures var taken := TakenIn(Ready(s, base, arrivals), outcome);
            Polled(s, base, arrivals, outcome)
            == if outcome.Silence? || outcome == QueueGone(None) then taken
               else Delivered(taken, Yield(taken.poller).0, Yield(taken.poller).1)
  {
    YieldTakesFirst(s.poller.pending);
    hide EventsAfter, FirstOf, Ascending, MessagesOf, Cursor, Buffered;
    var drained := s.poller.(pending := []);
    assert Yield(s.poller) == (drained, None);
  }

  lemma {:induction false} PollKeeps(s: State, base: Option<int>, arrivals: seq<Event>, outcome: Outcome)
    requires Invariant(s)
    ensures Invariant(Polled(s, base, arrivals, outcome))
  {
    YieldKeeps(s);
    if Asks(s.poller, base) {
      hide Invariant, Polled, TakenIn, Ready, Yield;
      PolledInSteps(s, base, arrivals, outcome);
      ReadyKeeps(s, base, arrivals);
      ReplyKeeps(Ready(s, base, arrivals), outcome);
      YieldKeeps(TakenIn(Ready(s, base, arrivals), outcome));
    }
  }

  lemma {:induction false} NextKeepsInvariant(s: State, a: Action)
    requires Invariant(s)
    ensures Invariant(Next(s, a))
  {
    hide Invariant, Polled, WithArrivals;
    match a
    case Arrive(event) => ArrivalsKeep(s, [event]);
    case Poll(base, arrivals, outcome) => PollKeeps(s, base, arrivals, outcome);
  }

  lemma {:induction false} EveryRunKeepsInvariant(actions: seq<Action>)
    ensures Invariant(After(actions))
  {
    if actions == [] {
      assert UpTo(Init(), 0);
    } else {
      hide Next, Invariant;
      EveryRunKeepsInvariant(actions[..|actions| - 1]);
      NextKeepsInvariant(After(actions[..|actions| - 1]), actions[|actions| - 1]);
    }
  }

  /**
   In every run the messages yielded and buffered are exactly those of the current
   queue's first `k` events, the cursor leaves exactly the others to be asked for,
   and the buffer is empty whenever a queue is registered.
   */
  lemma {:induction false} DeliversQueueInOrder(actions: seq<Action>) returns (k: nat)
    ensures var s := After(actions);
            && s.thrownAway == 0
            && k <= |s.events|
            && s.yielded + MessagesOf(s.poller.pending) == MessagesOf(s.events[..k])
            && EventsAfter(s.events, s.poller.lastEventId) == s.events[k..]
  {
    EveryRunKeepsInvariant(actions);
    var s := After(actions);
    k :| UpTo(s, k);
    EventsAfterIsRest(s.events, s.base, k);
  }

  // ---------- progress ----------

  /** Yielding hands out the first buffered message. */
  lemma {:induction false} YieldsBuffered(s: State, k: nat)
    requires UpTo(s, k) && MessagesOf(s.poller.pending) != []
    ensures |s.yielded| < |MessagesOf(s.events[..k])|
    ensures Delivered(s, Yield(s.poller).0, Yield(s.poller).1).yielded
         == s.yielded + [MessagesOf(s.events[..k])[|s.yielded|]]
  {
    hide MessagesOf, AfterYield;
    assert (s.yielded + MessagesOf(s.poller.pending))[|s.yielded|] == MessagesOf(s.poller.pending)[0];
  }

  /** What a server that answers in full leaves in an empty buffer. */
  lemma {:induction false} FullAnswer(s: State, count: nat)
    requires Invariant(s) && s.poller.pending == [] && count >= |s.events|
    ensures UpTo(TakenIn(s, Answers(count)), |s.events|)
  {
    hide Ascending, MessagesOf, EventsAfter, AfterReply;
    var k: nat :| UpTo(s, k);
    EventsAfterIsRest(s.events, s.base, k);
    assert FirstOf(s.events[k..], count) == s.events[k..] == s.events[k..k + (|s.events| - k)];
    BatchKeeps(s, k, |s.events| - k);
    hide UpTo;
  }

  lemma {:induction false} ReadyWithQueue(s: State)
    requires Invariant(s) && s.poller.queue.Some? && MessagesOf(s.poller.pending) == []
    ensures Ready(s, None, []) == s.(poller := s.poller.(pending := []))
  {
    hide MessagesOf;
    assert s.events + [] == s.events;
  }

  /** Buffered messages are among those of the queue's events. */
  lemma {:induction false} EarlierMessage(events: seq<Event>, k: nat, i: nat)
    requires k <= |events| && i < |MessagesOf(events[..k])|
    ensures i < |MessagesOf(events)| && MessagesOf(events)[i] == MessagesOf(events[..k])[i]
  {
    assert events == events[..k] + events[k..];
    MessagesConcat(events[..k], events[k..]);
  }

  /**
   Polling goes on: while the queue has a message that has not been yielded, a poll of
   a registered queue that is answered in full yields the next one.
   */
  lemma {:induction false} PollYieldsNext(actions: seq<Action>, count: nat)
    requires var s := After(actions);
             s.poller.queue.Some? && count >= |s.events| && |s.yielded| < |MessagesOf(s.events)|
    ensures var s := After(actions);
            Next(s, Poll(None, [], Answers(count))).yielded == s.yielded + [MessagesOf(s.events)[|s.yielded|]]
  {
    var s := After(actions);
    EveryRunKeepsInvariant(actions);
    if MessagesOf(s.poller.pending) != [] {
      var k: nat :| UpTo(s, k);
      YieldsBuffered(s, k);
      EarlierMessage(s.events, k, |s.yielded|);
      hide Ascending, MessagesOf, After;
    } else {
      AskedYieldsNext(s, count);
    }
  }

  lemma {:induction false} AskedYieldsNext(s: State, count: nat)
    requires Invariant(s) && MessagesOf(s.poller.pending) == []
    requires s.poller.queue.Some? && count >= |s.events| && |s.yielded| < |MessagesOf(s.events)|
    ensures Polled(s, None, [], Answers(count)).yielded == s.yielded + [MessagesOf(s.events)[|s.yielded|]]
  {
    ReadyWithQueue(s);
    var ready := Ready(s, None, []);
    ReadyKeeps(s, None, []);
    FullAnswer(ready, count);
    PolledInSteps(s, None, [], Answers(count));
    var taken := TakenIn(ready, Answers(count));
    assert taken.events == s.events && taken.yielded == s.yielded;
    hide Invariant, MessagesOf, Ready, TakenIn, Polled, Yield;
    assert s.events[..|s.events|] == s.events;
    assert s.yielded + MessagesOf(taken.poller.pending) == MessagesOf(s.events);
    assert MessagesOf(taken.poller.pending) != [];
    YieldsBuffered(taken, |s.events|);
  }

  /** A poll that registers a queue, because it has none or finds its queue gone, goes on with the new one. */
  lemma {:induction false} PollGetsQueue(s: State, base: int, arrivals: seq<Event>, outcome: Outcome)
    requires MessagesOf(s.poller.pending) == []
    ensures s.poller.queue.None? && !outcome.QueueGone? ==>
              Polled(s, Some(base), arrivals, outcome).poller.queue == Some(s.nextQueue)
    ensures s.poller.queue.Some? ==>
              Polled(s, None, arrivals, QueueGone(Some(base))).poller.queue == Some(s.nextQueue)
  {
    hide EventsAfter, FirstOf, Ascending, MessagesOf, Cursor, Buffered, AfterYield;
  }
}
