/**
 One run of the compaction worker against the summary table: the new summary is
 stored before the old one is deleted, so a failure never leaves a session with
 nothing.
 */
module CompactionWorker {
  import opened Text
  import opened Storage
  import opened UnitCuts
  import opened CompactionPrompt
  import opened CompactionContent

  /** Summaries in creation order; the latest is the last. */
  function Latest(summaries: seq<StoredSummary>): Option<StoredSummary> {
    if summaries == [] then None else Some(summaries[|summaries| - 1])
  }

  function WithoutId(summaries: seq<StoredSummary>, id: string): seq<StoredSummary> {
    if summaries == [] then []
    else (if summaries[0].id == id then [] else [summaries[0]]) + WithoutId(summaries[1..], id)
  }

  /** The summary of the fed rows covers through the last of them. */
  function NewSummary(id: string, text: string, fed: seq<StoredMessage>): StoredSummary
    requires fed != []
  {
    StoredSummary(id, text, fed[|fed| - 1].id)
  }

  lemma {:induction false} DeletingAnotherKeepsLatest(summaries: seq<StoredSummary>, id: string)
    requires summaries != [] && summaries[|summaries| - 1].id != id
    ensures Latest(WithoutId(summaries, id)) == Latest(summaries)
  {
    if |summaries| > 1 {
      DeletingAnotherKeepsLatest(summaries[1..], id);
    }
  }

  class SummaryTable {
    var rows: seq<StoredSummary>

    method Create(summary: StoredSummary, commits: bool) returns (ok: bool)
      modifies this
      ensures ok == commits
      ensures rows == if commits then old(rows) + [summary] else old(rows)
    {
      ok := commits;
      if commits {
        rows := rows + [summary];
      }
    }

    method Delete(id: string, commits: bool)
      modifies this
      ensures rows == if commits then WithoutId(old(rows), id) else old(rows)
    {
      if commits {
        rows := WithoutId(rows, id);
      }
    }
  }

  datatype Config = Config(wording: Wording, preserve: nat, usable: nat)

  /** How the awaited calls of one run turn out. */
  datatype Calls = Calls(model: string -> Option<string>, newId: string, storeCommits: bool, deleteCommits: bool)

  datatype Outcome = Compacted(text: string) | NothingEligible(text: string) | Failed

  /** The rows a request replays under a summary, oldest first. */
  function ReplayedUnder(listed: seq<StoredMessage>, summary: Option<StoredSummary>): seq<StoredMessage> {
    Reverse(AfterBoundary(listed, summary))
  }

  /** The summary of a plan takes exactly the planned rows out of what is replayed. */
  lemma {:induction false} PlanLeavesReplay(listed: seq<StoredMessage>, summary: Option<StoredSummary>,
                                            plan: seq<StoredMessage>, id: string, text: string)
    requires Distinct(RowIds(listed)) && plan != [] && plan <= ReplayedUnder(listed, summary)
    ensures ReplayedUnder(listed, summary) == plan + ReplayedUnder(listed, Some(NewSummary(id, text, plan)))
  {
    var recent := AfterBoundary(listed, summary);
    var b := |recent| - |plan|;
    assert plan[|plan| - 1] == Reverse(recent)[|plan| - 1] == listed[b];
    forall i | 0 <= i < |listed| && i != b ensures listed[i].id != listed[b].id {
      assert RowIds(listed)[i] != RowIds(listed)[b];
    }
    assert Position(listed, listed[b].id) == Some(b);
    assert AfterBoundary(listed, Some(NewSummary(id, text, plan))) == listed[..b];
    assert Reverse(recent) == Reverse(recent)[..|plan|] + Reverse(listed[..b]);
  }

  lemma {:induction false} OnlyThatIdGoes(summaries: seq<StoredSummary>, id: string, s: StoredSummary)
    requires s in summaries && s.id != id
    ensures s in WithoutId(summaries, id)
  {
    if s != summaries[0] {
      OnlyThatIdGoes(summaries[1..], id, s);
    }
  }

  lemma {:induction false} PlanReads(config: Config, listed: seq<StoredMessage>, summary: Option<StoredSummary>)
    ensures var plan := PlannedRows(config.wording, listed, summary, config.preserve, config.usable);
            plan != [] ==>
              && plan <= ReplayedUnder(listed, summary) && DecodeAll(plan).Some?
              && Reads(Prompt(config.wording, summary, plan), summary, DecodeAll(plan).value)
  {
    hide DecodeAll, AfterBoundary, PlannedRows, Prompt, Fits, Reads, IsCut;
    var plan := PlannedRows(config.wording, listed, summary, config.preserve, config.usable);
    PlanIsWholeUnits(config.wording, listed, summary, config.preserve, config.usable);
    if plan != [] {
      DecodedPrefix(ReplayedUnder(listed, summary), |plan|);
      DecodableIsDecoded(plan);
      PromptReads(config.wording, summary, plan);
    }
  }

  /** A row that leaves the replay, or a summary that leaves the table, was in the prompt that was answered. */
  ghost predicate NothingLeavesUnread(calls: Calls, listed: seq<StoredMessage>, before: seq<StoredSummary>,
                                      after: seq<StoredSummary>, fed: seq<StoredMessage>, reply: string)
    requires fed != [] && DecodeAll(fed).Some?
  {
    && (exists prompt :: calls.model(prompt) == Some(reply) && Reads(prompt, Latest(before), DecodeAll(fed).value))
    && (forall s :: s in before && s !in after ==> before != [] && s.id == Latest(before).value.id)
    && (Distinct(RowIds(listed)) ==>
          ReplayedUnder(listed, Latest(before))
          == fed + ReplayedUnder(listed, Some(NewSummary(calls.newId, reply, fed))))
  }

  lemma {:induction false} SummariesThatGo(before: seq<StoredSummary>, added: StoredSummary, after: seq<StoredSummary>)
    requires after == before + [added]
             || (before != [] && after == WithoutId(before + [added], Latest(before).value.id))
    ensures forall s :: s in before && s !in after ==> before != [] && s.id == Latest(before).value.id
  {
    forall s | s in before && s !in after ensures before != [] && s.id == Latest(before).value.id {
      assert s in before + [added];
      if before != [] && s.id != Latest(before).value.id {
        OnlyThatIdGoes(before + [added], Latest(before).value.id, s);
      }
    }
  }

  lemma {:induction false} PlanIsRead(config: Config, listed: seq<StoredMessage>, before: seq<StoredSummary>,
                                      after: seq<StoredSummary>, calls: Calls, fed: seq<StoredMessage>, reply: string)
    requires fed != [] && fed == PlannedRows(config.wording, listed, Latest(before), config.preserve, config.usable)
    requires calls.model(Prompt(config.wording, Latest(before), fed)) == Some(reply)
    requires var added := NewSummary(calls.newId, reply, fed);
             after == before + [added]
             || (before != [] && after == WithoutId(before + [added], Latest(before).value.id))
    ensures DecodeAll(fed).Some? && NothingLeavesUnread(calls, listed, before, after, fed, reply)
  {
    hide Prompt, PlannedRows, DecodeAll, Reads, WithoutId, ReplayedUnder, Distinct, RowIds, NewSummary;
    PlanReads(config, listed, Latest(before));
    SummariesThatGo(before, NewSummary(calls.newId, reply, fed), after);
    if Distinct(RowIds(listed)) {
      PlanLeavesReplay(listed, Latest(before), fed, calls.newId, reply);
    }
  }

  /**
   What one undisturbed run leaves in the table. The fed rows are the planned
   ones; without a plan, a reply and a successful store nothing changes.
   */
  method Compact(config: Config, listed: seq<StoredMessage>, table: SummaryTable, calls: Calls)
    returns (outcome: Outcome, fed: seq<StoredMessage>)
    modifies table
    ensures var before := old(table.rows);
            var plan := PlannedRows(config.wording, listed, Latest(before), config.preserve, config.usable);
            if fed == [] then table.rows == before && !outcome.Compacted?
            else
              && fed == plan
              && outcome.Compacted? && outcome.text != ""
              && calls.model(Prompt(config.wording, Latest(before), plan)) == Some(outcome.text)
              && var stored := before + [NewSummary(calls.newId, outcome.text, plan)];
                 table.rows == if before == [] || !calls.deleteCommits then stored
                               else WithoutId(stored, Latest(before).value.id)
    ensures fed != [] ==>
              && DecodeAll(fed).Some?
              && NothingLeavesUnread(calls, listed, old(table.rows), table.rows, fed, outcome.text)
    ensures (exists reply :: outcome == Compacted(reply))
       <==> var before := old(table.rows);
            var plan := PlannedRows(config.wording, listed, Latest(before), config.preserve, config.usable);
            && plan != [] && calls.storeCommits
            && calls.model(Prompt(config.wording, Latest(before), plan)) !in {None, Some("")}
  {
    hide Prompt, LargestFit, SelectCompactable, WithoutId, NothingLeavesUnread;
    outcome, fed := Failed, [];
    var summary := Latest(table.rows);
    ghost var plan := PlannedRows(config.wording, listed, summary, config.preserve, config.usable);
    if listed == [] {
      NoRowsNoPlan(config, summary);
      return;
    }
    var selected := SelectCompactable(listed, summary, config.preserve);
    if selected.None? {
      return;
    }
    if selected.value == [] {
      PlanOfNothing(config, summary);
      outcome := if summary.Some? then NothingEligible(summary.value.text) else Failed;
      return;
    }
    var bounded := BoundCompactionPrompt(config.wording, summary, selected.value, config.usable);
    if !bounded.Bounded? || bounded.count == 0 {
      return;
    }
    EndOfUnitsIsCut(selected.value, LargestFit(config.wording, summary, selected.value, config.usable,
                                               |UnitsOf(selected.value)|));
    var rows := selected.value[..bounded.count];
    assert rows == plan && bounded.prompt == Prompt(config.wording, summary, plan);
    var reply := calls.model(bounded.prompt);
    if reply.None? || reply.value == "" {
      return;
    }
    var ok := table.Create(NewSummary(calls.newId, reply.value, rows), calls.storeCommits);
    if !ok {
      return;
    }
    if summary.Some? {
      table.Delete(summary.value.id, calls.deleteCommits);
    }
    outcome, fed := Compacted(reply.value), rows;
    PlanIsRead(config, listed, old(table.rows), table.rows, calls, fed, reply.value);
  }

  lemma {:induction false} NoRowsNoPlan(config: Config, summary: Option<StoredSummary>)
    ensures PlannedRows(config.wording, [], summary, config.preserve, config.usable) == []
  {
    PlanIsWholeUnits(config.wording, [], summary, config.preserve, config.usable);
  }

  lemma {:induction false} PlanOfNothing(config: Config, summary: Option<StoredSummary>)
    ensures FittingRows(config.wording, summary, [], config.usable) == []
  {
  }
}
