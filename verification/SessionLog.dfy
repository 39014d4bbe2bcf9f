/**
 One session's stored rows, written by any interleaving of interactive and
 scheduled runs: single user or final-text rows, and tool exchanges committed as
 a pair.
 */
module SessionLog {
  import opened Text
  import opened Messages
  import opened History
  import opened Renames
  import opened NormalForm
  import opened UnitCuts
  import opened AgentLoop

  datatype Entry =
    | Single(row: Message)
    | Pair(assistant: Message, results: Message)

  predicate PlainRow(m: Message) {
    m.role != Tool && !HasProtocol(m.parts)
  }

  predicate StructuredPair(assistant: Message, results: Message) {
    Opens(assistant) && results.role == Tool && ValidExchange([assistant, results])
  }

  /** What the writers commit: plain rows, complete exchanges, or exchanges turned into text. */
  predicate WholeEntry(e: Entry) {
    match e
    case Single(row) => PlainRow(row)
    case Pair(a, r) => StructuredPair(a, r) || (PlainRow(a) && PlainRow(r))
  }

  function EntryRows(e: Entry): (rows: seq<Message>)
    ensures 1 <= |rows| <= 2
  {
    match e
    case Single(row) => [row]
    case Pair(a, r) => [a, r]
  }

  function Rows(log: seq<Entry>): seq<Message> {
    if log == [] then [] else EntryRows(log[0]) + Rows(log[1..])
  }

  /** How an entry is read back on its own. */
  function EntryShapes(e: Entry): seq<Shape> {
    match e
    case Single(_) => [Shape(0, 1, Ordinary)]
    case Pair(a, r) =>
      if StructuredPair(a, r) then [Shape(0, 2, Kind.Exchange)]
      else [Shape(0, 1, Ordinary), Shape(1, 2, Ordinary)]
  }

  /** The entries read one by one, each shifted to the rows it occupies. */
  function LogShapes(log: seq<Entry>): seq<Shape> {
    if log == [] then []
    else EntryShapes(log[0]) + Shifted(LogShapes(log[1..]), |EntryRows(log[0])|)
  }

  predicate WholeLog(log: seq<Entry>) {
    forall i :: 0 <= i < |log| ==> WholeEntry(log[i])
  }

  lemma {:induction false} PlainDoesNotOpen(m: Message)
    requires PlainRow(m)
    ensures !Opens(m)
  {
    NoCalls(m.parts);
  }

  lemma {:induction false} WholeLogHead(log: seq<Entry>)
    requires WholeLog(log) && log != []
    ensures WholeEntry(log[0]) && WholeLog(log[1..])
    ensures Rows(log) != [] && Rows(log)[0].role != Tool
  {
    assert WholeEntry(log[0]);
  }

  lemma {:induction false} RowsConcat(a: seq<Entry>, b: seq<Entry>)
    ensures Rows(a + b) == Rows(a) + Rows(b)
  {
    if a == [] {
      assert a + b == b;
    } else {
      assert (a + b)[1..] == a[1..] + b;
      RowsConcat(a[1..], b);
    }
  }

  lemma {:induction false} EntryReadsBack(e: Entry)
    requires WholeEntry(e)
    ensures ShapesFrom(EntryRows(e), 0) == EntryShapes(e)
  {
    hide ValidExchange;
    var rows := EntryRows(e);
    match e
    case Single(row) =>
      PlainDoesNotOpen(row);
      assert rows[0..1] == [row];
    case Pair(a, r) =>
      if StructuredPair(a, r) {
        assert RunEnd(rows, 2) == 2 && rows[0..2] == [a, r];
      } else {
        PlainDoesNotOpen(a);
        PlainDoesNotOpen(r);
        assert rows[0..1] == [a] && rows[1..2] == [r];
        assert ShapesFrom(rows, 1) == [Shape(1, 2, Ordinary)];
      }
  }

  /**
   Replaying the whole log finds exactly the entries: every exchange persisted as
   complete is again one complete unit, whatever ids other runs used.
   */
  lemma {:induction false} LogReadsBack(log: seq<Entry>)
    requires WholeLog(log)
    ensures ShapesFrom(Rows(log), 0) == LogShapes(log)
  {
    if log != [] {
      hide ShapesFrom, EntryShapes, WholeEntry, WholeLog, EntryRows;
      var first, rest := EntryRows(log[0]), Rows(log[1..]);
      WholeLogHead(log);
      if log[1..] != [] {
        WholeLogHead(log[1..]);
      }
      CutBetween(first, rest);
      EntryReadsBack(log[0]);
      LogReadsBack(log[1..]);
    }
  }

  lemma {:induction false} CutBetween(a: seq<Message>, b: seq<Message>)
    requires b == [] || b[0].role != Tool
    ensures ShapesFrom(a + b, 0) == ShapesFrom(a, 0) + Shifted(ShapesFrom(b, 0), |a|)
  {
    hide ShapesFrom;
    assert (a + b)[..|a|] == a && (a + b)[|a|..] == b;
    CutIsHarmless(a + b, |a|);
  }

  /** Appending entries keeps every cut and every unit already there, names included. */
  lemma {:induction false} AppendKeepsUnits(log: seq<Entry>, more: seq<Entry>)
    requires WholeLog(log) && WholeLog(more)
    ensures HistoryUnits(Rows(log)) <= HistoryUnits(Rows(log + more))
    ensures forall b: nat :: b <= |Rows(log)| && IsCut(Rows(log), b) ==> IsCut(Rows(log + more), b)
  {
    var rows := Rows(log + more);
    RowsConcat(log, more);
    if more != [] {
      WholeLogHead(more);
    }
    forall b: nat | b <= |Rows(log)| && IsCut(Rows(log), b) ensures IsCut(rows, b) {
      CutsSurviveAppends(Rows(log), Rows(more), b);
    }
    CutsSurviveAppends(Rows(log), Rows(more), |Rows(log)|);
    assert rows[..|Rows(log)|] == Rows(log);
    NormalizePrefix(rows, |Rows(log)|);
  }

  // ---------- runs ----------

  /** The log and the working messages of every live run. */
  datatype State = State(log: seq<Entry>, runs: map<nat, seq<Message>>)

  datatype Action =
    | Append(row: Message)
    | Start(run: nat, context: Context, prompt: Message)
    | Round(run: nat, reply: Reply, tool: (nat, ToolCall) -> ToolRun, commits: bool)
    | Finish(run: nat, finalRow: Option<Message>)

  function Init(): State {
    State([], map[])
  }

  /** One step of any writer; a step that is not possible changes nothing. */
  function Next(s: State, a: Action): State {
    match a
    case Append(row) => if PlainRow(row) then s.(log := s.log + [Single(row)]) else s
    case Start(run, context, prompt) =>
      if run !in s.runs && PlainRow(prompt)
      then State(s.log + [Single(prompt)], s.runs[run := Initial(context)]) else s
    case Round(run, reply, tool, commits) =>
      if run in s.runs && HasCalls(reply) then
        PairOpens(reply, tool);
        var working := s.runs[run];
        var pair := AgentLoop.Exchange(working, AgentLoop.Pair(reply, tool));
        if commits then State(s.log + [Pair(pair[0], pair[1])], s.runs[run := working + pair])
        else s.(runs := s.runs - {run})
      else s
    case Finish(run, finalRow) =>
      var ended := s.(runs := s.runs - {run});
      if run in s.runs && finalRow.Some? && PlainRow(finalRow.value)
      then ended.(log := s.log + [Single(finalRow.value)]) else ended
  }

  function After(actions: seq<Action>): State {
    if actions == [] then Init()
    else Next(After(actions[..|actions| - 1]), actions[|actions| - 1])
  }

  ghost predicate Coherent(s: State) {
    && WholeLog(s.log)
    && forall run :: run in s.runs ==> IsNormal(s.runs[run])
  }

  /** The last two working messages are a whole entry: a complete exchange, or plain text. */
  lemma {:induction false} RoundPersistsWholePair(working: seq<Message>, reply: Reply, tool: (nat, ToolCall) -> ToolRun)
    requires IsNormal(working) && HasCalls(reply)
    ensures UnitRow(AgentLoop.Pair(reply, tool))
    ensures var pair := AgentLoop.Exchange(working, AgentLoop.Pair(reply, tool));
            WholeEntry(Pair(pair[0], pair[1])) && IsNormal(working + pair)
  {
    var row := AgentLoop.Pair(reply, tool);
    PairOpens(reply, tool);
    RenormaliseTouchesOnlyTheEnd(working, row);
    var pair := AgentLoop.Exchange(working, row);
    var seen := Elements(AllCallIds(working));
    assert pair == [pair[0], pair[1]];
    if ValidExchange(row) {
      RewriteKeepsExchange(row, |working|, seen);
      assert pair == Rewrite(row, CallsRenaming(row, |working|, seen));
      assert pair[1].role == row[1].role;
    } else {
      TextIsPlain(row, |working|, seen);
    }
  }

  lemma {:induction false} NextKeepsCoherence(s: State, a: Action)
    requires Coherent(s)
    ensures Coherent(Next(s, a)) && s.log <= Next(s, a).log
  {
    hide WholeEntry, AgentLoop.Exchange, AgentLoop.Pair, Initial, IsNormal;
    match a
    case Append(row) =>
      PlainIsWhole(row);
    case Start(run, context, prompt) =>
      PlainIsWhole(prompt);
      InitialIsNormal(context);
    case Round(run, reply, tool, commits) =>
      if run in s.runs && HasCalls(reply) {
        RoundPersistsWholePair(s.runs[run], reply, tool);
      }
    case Finish(run, finalRow) =>
      if finalRow.Some? && PlainRow(finalRow.value) {
        PlainIsWhole(finalRow.value);
      }
  }

  lemma {:induction false} PlainIsWhole(row: Message)
    ensures PlainRow(row) ==> WholeEntry(Single(row))
  {
  }

  lemma {:induction false} RunsKeepCoherence(actions: seq<Action>)
    ensures Coherent(After(actions))
  {
    if actions != [] {
      var front := actions[..|actions| - 1];
      RunsKeepCoherence(front);
      NextKeepsCoherence(After(front), actions[|actions| - 1]);
    }
  }

  lemma {:induction false} LogGrows(before: seq<Action>, more: seq<Action>)
    ensures After(before).log <= After(before + more).log
  {
    if more == [] {
      assert before + more == before;
    } else {
      var all := before + more;
      assert all[..|all| - 1] == before + more[..|more| - 1];
      LogGrows(before, more[..|more| - 1]);
      RunsKeepCoherence(before + more[..|more| - 1]);
      NextKeepsCoherence(After(all[..|all| - 1]), all[|all| - 1]);
    }
  }

  /**
   In every interleaving: the log reads back entry by entry, and whatever happens
   later, its cuts stay cuts and its units stay the same units.
   */
  lemma {:induction false} EveryInterleavingIsCoherent(before: seq<Action>, more: seq<Action>)
    ensures var log, later := After(before).log, After(before + more).log;
            && ShapesFrom(Rows(log), 0) == LogShapes(log)
            && HistoryUnits(Rows(log)) <= HistoryUnits(Rows(later))
            && forall b: nat :: b <= |Rows(log)| && IsCut(Rows(log), b) ==> IsCut(Rows(later), b)
  {
    var log, later := After(before).log, After(before + more).log;
    RunsKeepCoherence(before);
    RunsKeepCoherence(before + more);
    LogReadsBack(log);
    LogGrows(before, more);
    var added := later[|log|..];
    assert later == log + added;
    forall i | 0 <= i < |added| ensures WholeEntry(added[i]) {
      assert added[i] == later[|log| + i];
    }
    AppendKeepsUnits(log, added);
  }
}
