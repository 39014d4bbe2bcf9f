/**
 Long polling of Telegram updates: the pending queue, the acknowledging offset,
 and every schedule of arrivals, replies, failures and cancelled polls.
 */
module TelegramPoll {
  import opened Text

  datatype Update = Update(id: int, payload: string)

  datatype Poller = Poller(offset: Option<int>, pending: seq<Update>)

  datatype Result = Failed | Nothing | Yielded(update: Update)

  /** The offset after a batch: one past the greatest id seen. */
  function Advanced(offset: Option<int>, batch: seq<Update>): Option<int>
    decreases |batch|
  {
    if batch == [] then offset
    else
      var next := batch[0].id + 1;
      Advanced(if offset.None? || next > offset.value then Some(next) else offset, batch[1..])
  }

  /** One poll; `reply` is what `getUpdates` returns when it is asked, None for a failed request. */
  function PollOnce(p: Poller, reply: Option<seq<Update>>): (Poller, Result) {
    if p.pending != [] then (p.(pending := p.pending[1..]), Yielded(p.pending[0]))
    else if reply.None? then (p, Failed)
    else if reply.value == [] then (p, Nothing)
    else (Poller(Advanced(p.offset, reply.value), reply.value[1..]), Yielded(reply.value[0]))
  }

  class LongPoll {
    var offset: Option<int>
    var pending: seq<Update>

    constructor ()
      ensures State() == Poller(None, [])
    {
      offset, pending := None, [];
    }

    function State(): Poller
      reads this
    {
      Poller(offset, pending)
    }

    method PopFront() returns (update: Update)
      requires pending != []
      modifies this`pending
      ensures update == old(pending)[0] && pending == old(pending)[1..]
    {
      update := pending[0];
      pending := pending[1..];
    }

    method Poll(reply: Option<seq<Update>>) returns (r: Result)
      modifies this
      ensures (State(), r) == PollOnce(old(State()), reply)
    {
      if pending != [] {
        var update := PopFront();
        return Yielded(update);
      }
      if reply.None? {
        return Failed;
      }
      var updates := reply.value;
      if updates == [] {
        return Nothing;
      }
      assert updates[0..] == updates && updates[..0] == [];
      for i := 0 to |updates|
        invariant pending == updates[..i]
        invariant Advanced(offset, updates[i..]) == Advanced(old(offset), updates)
      {
        assert updates[i..][0] == updates[i] && updates[i..][1..] == updates[i + 1..];
        assert updates[..i + 1] == updates[..i] + [updates[i]];
        var newOffset := updates[i].id + 1;
        if offset.None? || newOffset > offset.value {
          offset := Some(newOffset);
        }
        pending := pending + [updates[i]];
      }
      assert updates[|updates|..] == [] && updates[..|updates|] == updates;
      var update := PopFront();
      r := Yielded(update);
    }
  }

  // ---------- every schedule ----------

  /** `acknowledged` is the greatest offset the server has been sent. */
  datatype State = State(log: seq<Update>, poller: Poller, yielded: seq<Update>, acknowledged: Option<int>)

  datatype Action =
    | Arrive(update: Update)
    | Poll(count: nat)        // the server returns the first `count` unacknowledged updates
    | PollFails
    | PollCancelled           // dropped while waiting for the reply or in the pause after it

  function Init(): State {
    State([], Poller(None, []), [], None)
  }

  /** The updates from the offset on, oldest first. */
  function Available(log: seq<Update>, offset: Option<int>): seq<Update> {
    if log == [] then []
    else (if offset.None? || log[0].id >= offset.value then [log[0]] else []) + Available(log[1..], offset)
  }

  function FirstOf(updates: seq<Update>, count: nat): seq<Update> {
    if count <= |updates| then updates[..count] else updates
  }

  /** Asking acknowledges everything below the offset. */
  function Asked(s: State): State {
    if s.poller.pending == [] then s.(acknowledged := s.poller.offset) else s
  }

  function Next(s: State, a: Action): State {
    match a
    case Arrive(update) =>
      if s.log == [] || s.log[|s.log| - 1].id < update.id then s.(log := s.log + [update]) else s
    case Poll(count) =>
      var reply := FirstOf(Available(s.log, s.poller.offset), count);
      var (poller, r) := PollOnce(s.poller, Some(reply));
      Asked(s).(poller := poller, yielded := if r.Yielded? then s.yielded + [r.update] else s.yielded)
    case PollFails =>
      var (poller, r) := PollOnce(s.poller, None);
      Asked(s).(poller := poller, yielded := if r.Yielded? then s.yielded + [r.update] else s.yielded)
    case PollCancelled => Asked(s)
  }

  function After(actions: seq<Action>): State {
    if actions == [] then Init()
    else Next(After(actions[..|actions| - 1]), actions[|actions| - 1])
  }

  predicate Ascending(log: seq<Update>) {
    forall i, j :: 0 <= i < j < |log| ==> log[i].id < log[j].id
  }

  /** The first `k` updates are the ones below the offset. */
  predicate Splits(log: seq<Update>, offset: Option<int>, k: nat) {
    && k <= |log|
    && (offset.None? ==> k == 0)
    && (offset.Some? ==> (forall i :: 0 <= i < k ==> log[i].id < offset.value)
                         && (forall i :: k <= i < |log| ==> log[i].id >= offset.value))
  }

  /** Updates yielded or waiting to be yielded are exactly those below the offset, in order. */
  predicate Invariant(s: State) {
    var k := |s.yielded| + |s.poller.pending|;
    && Ascending(s.log)
    && k <= |s.log| && s.yielded + s.poller.pending == s.log[..k]
    && s.poller.offset == (if k == 0 then None else Some(s.log[k - 1].id + 1))
    && (s.acknowledged.Some? ==> s.yielded != [] && s.acknowledged.value <= s.log[|s.yielded| - 1].id + 1)
  }

  /** The server has been told to forget yielded updates only. */
  predicate AcknowledgesOnlyYielded(s: State) {
    s.acknowledged.Some? ==> forall i :: |s.yielded| <= i < |s.log| ==> s.log[i].id >= s.acknowledged.value
  }

  lemma {:induction false} AvailableIsRest(log: seq<Update>, offset: Option<int>, k: nat)
    requires Splits(log, offset, k)
    ensures Available(log, offset) == log[k..]
  {
    if log != [] {
      if k > 0 {
        assert log[1..][k - 1..] == log[k..];
        AvailableIsRest(log[1..], offset, k - 1);
      } else {
        AvailableIsRest(log[1..], offset, 0);
        assert log[0..] == [log[0]] + log[1..];
      }
    }
  }

  lemma {:induction false} AdvancedIsLast(offset: Option<int>, batch: seq<Update>)
    requires batch != [] && Ascending(batch)
    requires offset.Some? ==> batch[0].id >= offset.value
    ensures Advanced(offset, batch) == Some(batch[|batch| - 1].id + 1)
    decreases |batch|
  {
    if |batch| > 1 {
      AdvancedIsLast(Some(batch[0].id + 1), batch[1..]);
    }
  }

  lemma {:induction false} InvariantSplits(s: State)
    requires Invariant(s)
    ensures Splits(s.log, s.poller.offset, |s.yielded| + |s.poller.pending|)
  {
  }

  lemma {:induction false} YieldPendingKeeps(s: State)
    requires Invariant(s) && s.poller.pending != []
    ensures var p := s.poller;
            Invariant(s.(poller := p.(pending := p.pending[1..]), yielded := s.yielded + [p.pending[0]]))
  {
    assert s.yielded != [] ==> s.log[|s.yielded| - 1].id < s.log[|s.yielded|].id;
    hide Ascending;
    var p := s.poller;
    assert (s.yielded + [p.pending[0]]) + p.pending[1..] == s.yielded + p.pending;
  }

  lemma {:induction false} AskedKeeps(s: State)
    requires Invariant(s)
    ensures Invariant(Asked(s))
  {
    hide Ascending;
  }

  lemma {:induction false} OffsetAfterBatch(s: State, count: nat)
    requires Invariant(s) && s.poller.pending == [] && 0 < count
    requires |s.yielded| + count <= |s.log|
    ensures var k := |s.yielded|;
            Advanced(s.poller.offset, s.log[k..k + count]) == Some(s.log[k + count - 1].id + 1)
  {
    var k := |s.yielded|;
    var batch := s.log[k..k + count];
    assert Ascending(batch) && (k > 0 ==> s.log[k - 1].id < batch[0].id);
    hide Ascending, Advanced;
    AdvancedIsLast(s.poller.offset, batch);
  }

  lemma {:induction false} ReplyKeeps(s: State, count: nat)
    requires Invariant(s) && s.poller.pending == [] && 0 < count
    requires |s.yielded| + count <= |s.log|
    ensures var k := |s.yielded|;
            var batch := s.log[k..k + count];
            Invariant(s.(poller := Poller(Advanced(s.poller.offset, batch), batch[1..]),
                         yielded := s.yielded + [batch[0]]))
  {
    var k := |s.yielded|;
    assert k > 0 ==> s.log[k - 1].id < s.log[k].id;
    hide Ascending, Advanced;
    OffsetAfterBatch(s, count);
    assert s.yielded == s.log[..k];
    assert (s.log[..k] + [s.log[k]]) + s.log[k..k + count][1..] == s.log[..k + count];
  }

  lemma {:induction false} PollKeeps(s: State, count: nat)
    requires Invariant(s)
    ensures Invariant(Next(s, Poll(count)))
  {
    hide Invariant, Advanced, Available;
    AskedKeeps(s);
    var k := |s.yielded| + |s.poller.pending|;
    InvariantSplits(s);
    AvailableIsRest(s.log, s.poller.offset, k);
    if s.poller.pending != [] {
      YieldPendingKeeps(s);
    } else if count > 0 && k < |s.log| {
      var n := if count <= |s.log| - k then count else |s.log| - k;
      assert FirstOf(s.log[k..], count) == s.log[k..k + n];
      assert |s.log[k..k + n]| == n;
      ReplyKeeps(Asked(s), n);
    }
  }

  lemma {:induction false} AppendAscending(log: seq<Update>, update: Update)
    requires Ascending(log) && (log == [] || log[|log| - 1].id < update.id)
    ensures Ascending(log + [update])
  {
  }

  lemma {:induction false} ArriveKeeps(s: State, update: Update)
    requires Invariant(s)
    ensures Invariant(Next(s, Arrive(update)))
  {
    var k := |s.yielded| + |s.poller.pending|;
    var log := s.log + [update];
    if s.log == [] || s.log[|s.log| - 1].id < update.id {
      AppendAscending(s.log, update);
      hide Ascending;
      assert log[..k] == s.log[..k];
      assert k > 0 ==> s.poller.offset == Some(log[k - 1].id + 1);
    }
  }

  lemma {:induction false} PollFailsKeeps(s: State)
    requires Invariant(s)
    ensures Invariant(Next(s, PollFails))
  {
    hide Invariant;
    AskedKeeps(s);
    if s.poller.pending != [] {
      YieldPendingKeeps(s);
    }
  }

  lemma {:induction false} NextKeepsInvariant(s: State, a: Action)
    requires Invariant(s)
    ensures Invariant(Next(s, a))
  {
    match a
    case Arrive(update) => ArriveKeeps(s, update);
    case Poll(count) => PollKeeps(s, count);
    case PollFails => PollFailsKeeps(s);
    case PollCancelled => AskedKeeps(s);
  }

  lemma {:induction false} EveryRunKeepsInvariant(actions: seq<Action>)
    ensures Invariant(After(actions))
  {
    if actions != [] {
      hide Next, Invariant;
      EveryRunKeepsInvariant(actions[..|actions| - 1]);
      NextKeepsInvariant(After(actions[..|actions| - 1]), actions[|actions| - 1]);
    }
  }

  /**
   Every update is delivered exactly once and in order, up to the offset; none is
   acknowledged before it is yielded.
   */
  lemma {:induction false} DeliversOnceInOrder(actions: seq<Action>)
    ensures var s := After(actions);
            && s.yielded + s.poller.pending <= s.log
            && Splits(s.log, s.poller.offset, |s.yielded + s.poller.pending|)
            && AcknowledgesOnlyYielded(s)
  {
    EveryRunKeepsInvariant(actions);
    InvariantSplits(After(actions));
  }

  /** Polling goes on: while an update has not been yielded, a poll that is answered with one yields the next. */
  lemma {:induction false} PollYieldsNext(actions: seq<Action>, count: nat)
    requires var s := After(actions); |s.yielded| < |s.log| && (s.poller.pending != [] || count > 0)
    ensures var s := After(actions);
            Next(s, Poll(count)).yielded == s.yielded + [s.log[|s.yielded|]]
  {
    var s := After(actions);
    EveryRunKeepsInvariant(actions);
    InvariantSplits(s);
    AvailableIsRest(s.log, s.poller.offset, |s.yielded| + |s.poller.pending|);
    hide Ascending, Advanced, Available, After, Splits;
    if s.poller.pending != [] {
      assert (s.yielded + s.poller.pending)[|s.yielded|] == s.poller.pending[0];
    }
  }
}
