/**
 A scheduled job as a writer of its session's log: it persists its prompt, runs the
 agent, and persists the final text. Whatever happens, the rows it leaves behind
 read back as whole entries.
 */
module ScheduledRun {
  import opened Text
  import opened Messages
  import opened History
  import opened NormalForm
  import opened UnitCuts
  import opened AgentLoop
  import opened SessionLog

  /** The exchanges of the first `steps` rounds, as committed. */
  function PairEntries(ctx: Context, world: World, steps: nat): seq<Entry>
    requires RoundsComplete(ctx, world, steps)
  {
    if steps == 0 then []
    else
      var pair := NewPair(Request(ctx, world, steps - 1), world, steps - 1);
      PairEntries(ctx, world, steps - 1) + [SessionLog.Pair(pair[0], pair[1])]
  }

  lemma {:induction false} RowsOfOne(e: Entry)
    ensures Rows([e]) == EntryRows(e)
  {
    assert [e][1..] == [];
    assert Rows([e]) == EntryRows(e) + Rows([]);
  }

  /** What one round appends to a normal request is one whole entry. */
  lemma {:induction false} NewPairIsWhole(request: seq<Message>, world: World, step: nat)
    requires IsNormal(request) && HasCalls(Ask(world, step, request))
    ensures var pair := NewPair(request, world, step);
            var entry := SessionLog.Pair(pair[0], pair[1]);
            WholeEntry(entry) && EntryRows(entry) == pair
  {
    hide IsNormal, WholeEntry, AgentLoop.Exchange, AgentLoop.Pair, UnitRow, Ask, ToolsAt;
    NewPairOfRound(request, world, step);
    var pair := NewPair(request, world, step);
    assert pair == [pair[0], pair[1]];
    RoundPersistsWholePair(request, Ask(world, step, request), ToolsAt(world, step));
  }

  lemma {:induction false} OneMoreEntry(log: seq<Entry>, entry: Entry)
    requires WholeLog(log) && WholeEntry(entry)
    ensures WholeLog(log + [entry]) && Rows(log + [entry]) == Rows(log) + EntryRows(entry)
  {
    RowsConcat(log, [entry]);
    RowsOfOne(entry);
    hide WholeEntry, Rows;
  }

  lemma {:induction false} NoEntries()
    ensures WholeLog([]) && Rows([]) == []
  {
  }

  /** The rows of the completed rounds are whole entries. */
  lemma {:induction false} PairsAreWhole(ctx: Context, world: World, steps: nat)
    requires RoundsComplete(ctx, world, steps)
    ensures WholeLog(PairEntries(ctx, world, steps))
    ensures Rows(PairEntries(ctx, world, steps)) == Pairs(ctx, world, steps)
  {
    hide Request, WholeEntry, WholeLog, IsNormal, Rows, EntryRows, NewPair, RoundsComplete, HasCalls;
    if steps == 0 {
      NoEntries();
    } else {
      var request := Request(ctx, world, steps - 1);
      var pair := NewPair(request, world, steps - 1);
      RoundHasCalls(ctx, world, steps);
      PairsAreWhole(ctx, world, steps - 1);
      RequestIsNormal(ctx, world, steps - 1);
      NewPairIsWhole(request, world, steps - 1);
      OneMoreEntry(PairEntries(ctx, world, steps - 1), SessionLog.Pair(pair[0], pair[1]));
    }
  }

  lemma {:induction false} WholeConcat(a: seq<Entry>, b: seq<Entry>)
    requires WholeLog(a) && WholeLog(b)
    ensures WholeLog(a + b)
  {
    hide WholeEntry;
  }

  /** How the writes of one job turn out. */
  datatype Writes = Writes(promptCommits: bool, finalCommits: bool)

  /** The final text as it is stored, when there is one and the write commits. */
  function FinalRows(outcome: Option<Outcome>, commits: bool): seq<Message> {
    if outcome.Some? && outcome.value.FinalText? && commits then [FinalRow(outcome.value.text)] else []
  }

  function FinalRow(text: string): Message {
    Message(Assistant, [TextPart(text)])
  }

  function Singles(rows: seq<Message>): seq<Entry> {
    seq(|rows|, i requires 0 <= i < |rows| => Single(rows[i]))
  }

  /** The rows of one job: nothing, or the prompt, the completed rounds, and the final text. */
  function JobRows(ctx: Context, prompt: Message, world: World, rounds: nat, writes: Writes, outcome: Option<Outcome>)
    : seq<Message>
  {
    if !writes.promptCommits then []
    else [prompt] + Persisted(ctx, world, rounds) + FinalRows(outcome, writes.finalCommits)
  }

  /** The same as entries of the session's log. */
  function JobEntries(ctx: Context, prompt: Message, world: World, rounds: nat, writes: Writes,
                      outcome: Option<Outcome>)
    : seq<Entry>
    requires RoundsComplete(ctx, world, rounds)
  {
    if !writes.promptCommits then []
    else
      [Single(prompt)] + (if ctx.persists then PairEntries(ctx, world, rounds) else [])
      + Singles(FinalRows(outcome, writes.finalCommits))
  }

  lemma {:induction false} FinalRowsAreWhole(outcome: Option<Outcome>, commits: bool)
    ensures WholeLog(Singles(FinalRows(outcome, commits)))
    ensures Rows(Singles(FinalRows(outcome, commits))) == FinalRows(outcome, commits)
  {
    if FinalRows(outcome, commits) != [] {
      var row := FinalRow(outcome.value.text);
      assert !HasProtocol(row.parts);
      assert Singles([row]) == [Single(row)];
      RowsOfOne(Single(row));
    } else {
      assert Singles([]) == [];
    }
  }

  lemma {:induction false} JobRowsAreWhole(ctx: Context, prompt: Message, world: World, rounds: nat, writes: Writes,
                        outcome: Option<Outcome>)
    requires PlainRow(prompt) && RoundsComplete(ctx, world, rounds)
    ensures WholeLog(JobEntries(ctx, prompt, world, rounds, writes, outcome))
    ensures Rows(JobEntries(ctx, prompt, world, rounds, writes, outcome))
         == JobRows(ctx, prompt, world, rounds, writes, outcome)
  {
    if writes.promptCommits {
      var first, pairs := [Single(prompt)], if ctx.persists then PairEntries(ctx, world, rounds) else [];
      var last := Singles(FinalRows(outcome, writes.finalCommits));
      PairsAreWhole(ctx, world, rounds);
      FinalRowsAreWhole(outcome, writes.finalCommits);
      RowsOfOne(Single(prompt));
      assert WholeLog(first);
      RowsConcat(first, pairs);
      RowsConcat(first + pairs, last);
      hide WholeLog, Rows, PairEntries, Pairs, FinalRows, Singles, PlainRow;
      WholeConcat(first, pairs);
      WholeConcat(first + pairs, last);
    }
  }

  /** The completed rounds when a turn has ended. */
  lemma {:induction false} RoundsOfTurn(ctx: Context, world: World, outcome: Outcome, calls: nat)
    requires calls > 0 && RoundsComplete(ctx, world, calls - 1)
    requires CalledFor(outcome, ctx, world, calls - 1, ReplyAt(ctx, world, calls - 1))
    ensures RoundsComplete(ctx, world, if outcome == MaxToolIterationsExceeded then calls else calls - 1)
  {
    hide Continues, ReplyAt;
  }

  /**
   `run_scheduled_job`, from the messages its context policy gives it: the rows it
   appends, however it ends, are those of a log of whole entries.
   */
  method RunScheduledJob(base: Context, prompt: Message, world: World, maxIterations: nat, store: MessageStore,
                         writes: Writes)
    returns (outcome: Option<Outcome>, rounds: nat, ok: bool)
    requires PlainRow(prompt)
    modifies store
    ensures var ctx := base.(messages := NormalizeHistory(base.messages) + [prompt]);
            && RoundsComplete(ctx, world, rounds)
            && WholeLog(JobEntries(ctx, prompt, world, rounds, writes, outcome))
            && store.rows == old(store.rows) + Rows(JobEntries(ctx, prompt, world, rounds, writes, outcome))
            && store.rows == old(store.rows) + JobRows(ctx, prompt, world, rounds, writes, outcome)
    ensures outcome.Some? <==> writes.promptCommits
    ensures outcome.Some? ==> |store.rows| > |old(store.rows)| && store.rows[|old(store.rows)|] == prompt
    ensures outcome.Some? && outcome.value.FinalText? && writes.finalCommits ==>
              store.rows[|store.rows| - 1] == Message(Assistant, [TextPart(outcome.value.text)])
    ensures ok <==> outcome.Some? && (outcome.value.Silent? || (outcome.value.FinalText? && writes.finalCommits))
  {
    hide NormalizeHistory, RoundsComplete, CalledFor, Persisted, JobEntries, WholeLog, PlainRow, Rows, SentUserMessage,
      TokensUsed, ReplyAt;
    var ctx := base.(messages := NormalizeHistory(base.messages) + [prompt]);
    outcome, rounds := None, 0;
    NoRounds(ctx, world);
    JobRowsAreWhole(ctx, prompt, world, 0, writes, None);
    ok := store.CreateMessage(prompt, writes.promptCommits);
    if !ok {
      return;
    }
    var result, calls, tokens, sent := RunAgent(ctx, world, maxIterations, store);
    outcome := Some(result);
    rounds := if result == MaxToolIterationsExceeded then calls else calls - 1;
    if calls > 0 {
      RoundsOfTurn(ctx, world, result, calls);
    }
    ok := result.FinalText? || result.Silent?;
    if result.FinalText? {
      ok := store.CreateMessage(FinalRow(result.text), writes.finalCommits);
    }
    JobRowsAreWhole(ctx, prompt, world, rounds, writes, outcome);
    assert store.rows == old(store.rows) + JobRows(ctx, prompt, world, rounds, writes, outcome);
  }

  lemma {:induction false} NoRounds(ctx: Context, world: World)
    ensures RoundsComplete(ctx, world, 0)
  {
  }
}
