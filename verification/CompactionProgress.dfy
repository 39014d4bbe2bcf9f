/**
 What an undisturbed compaction achieves: from any reachable state in which a session
 is idle and has rows to compact, one worker brings them into a new summary.
 */
module CompactionProgress {
  import opened Text
  import opened Storage
  import opened CompactionPrompt
  import opened CompactionWorker
  import opened CompactionProtocol

  function Run(config: Config, s: Service, actions: seq<Action>): Service
    decreases |actions|
  {
    if actions == [] then s else Run(config, Next(config, s, actions[0]), actions[1..])
  }

  /** One worker's steps, from the check that spawns it to its end. */
  function WholeCompaction(w: nat, id: string, target: string, text: string, newId: string): seq<Action> {
    [Check(id, target), LoadSummary(w), LoadRows(w), ModelReplies(w, text), StoreSummary(w, newId),
     DeleteOld(w, true), Finish(w)]
  }

  lemma {:induction false} RunStep(config: Config, s: Service, first: Action, more: seq<Action>)
    ensures Run(config, s, [first] + more) == Run(config, Next(config, s, first), more)
  {
    assert ([first] + more)[1..] == more;
  }

  /** The service while its newest worker compacts session `id`. */
  function Working(s: Service, id: string, target: string, stage: Stage, session: Session): Service {
    s.(sessions := s.sessions[id := session], states := Triggered(s.states, id, target),
       workers := s.workers[s.nextWorker := Worker(id, stage)], nextWorker := s.nextWorker + 1)
  }

  function PlanOf(config: Config, session: Session): seq<StoredMessage> {
    PlannedRows(config.wording, Reverse(session.log), Latest(session.summaries), config.preserve, config.usable)
  }

  /** The session once its plan is summarised and the summary before it is gone. */
  function Compacted(config: Config, session: Session, text: string, newId: string): Session
    requires PlanOf(config, session) != []
  {
    var stored := WithStored(session, newId, text, PlanOf(config, session));
    if session.summaries == [] then stored
    else stored.(summaries := WithoutId(stored.summaries, Latest(session.summaries).value.id))
  }

  lemma {:induction false} WorkerReads(config: Config, s: Service, id: string, target: string)
    requires id in s.sessions && !Busy(s.states, id) && PlanOf(config, s.sessions[id]) != []
    ensures var w, session := s.nextWorker, s.sessions[id];
            Run(config, s, [Check(id, target), LoadSummary(w), LoadRows(w)])
            == Working(s, id, target, Planned(Latest(session.summaries), PlanOf(config, session)), session)
  {
    hide PlannedRows, Triggered, Latest;
    var w, session := s.nextWorker, s.sessions[id];
    assert s.sessions[id := session] == s.sessions;
    RunStep(config, s, Check(id, target), [LoadSummary(w), LoadRows(w)]);
    RunStep(config, Working(s, id, target, Spawned, session), LoadSummary(w), [LoadRows(w)]);
    RunStep(config, Working(s, id, target, SummaryLoaded(Latest(session.summaries)), session), LoadRows(w), []);
  }

  lemma {:induction false} WorkerStores(config: Config, s: Service, id: string, target: string, text: string,
                                        newId: string)
    requires id in s.sessions && PlanOf(config, s.sessions[id]) != []
    requires text != "" && newId !in SummaryIds(s.sessions[id].summaries)
    ensures var w, session := s.nextWorker, s.sessions[id];
            var plan, latest := PlanOf(config, session), Latest(session.summaries);
            Run(config, Working(s, id, target, Planned(latest, plan), session),
                [ModelReplies(w, text), StoreSummary(w, newId)])
            == Working(s, id, target, Stored(latest), WithStored(session, newId, text, plan))
  {
    hide PlannedRows, Triggered, Latest, SummaryIds;
    var w, session := s.nextWorker, s.sessions[id];
    var plan, latest := PlanOf(config, session), Latest(session.summaries);
    RunStep(config, Working(s, id, target, Planned(latest, plan), session), ModelReplies(w, text),
            [StoreSummary(w, newId)]);
    RunStep(config, Working(s, id, target, Summarised(latest, plan, text), session), StoreSummary(w, newId), []);
  }

  lemma {:induction false} WorkerEnds(config: Config, s: Service, id: string, target: string, text: string,
                                      newId: string)
    requires id in s.sessions && PlanOf(config, s.sessions[id]) != [] && s.nextWorker !in s.workers
    ensures var w, session := s.nextWorker, s.sessions[id];
            var plan, latest := PlanOf(config, session), Latest(session.summaries);
            Run(config, Working(s, id, target, Stored(latest), WithStored(session, newId, text, plan)),
                [DeleteOld(w, true), Finish(w)])
            == s.(sessions := s.sessions[id := Compacted(config, session, text, newId)],
                  states := Finished(Triggered(s.states, id, target), id), nextWorker := w + 1)
  {
    hide PlannedRows, Triggered, Finished, WithoutId;
    var w, session := s.nextWorker, s.sessions[id];
    var plan, latest := PlanOf(config, session), Latest(session.summaries);
    RunStep(config, Working(s, id, target, Stored(latest), WithStored(session, newId, text, plan)),
            DeleteOld(w, true), [Finish(w)]);
    var done := Working(s, id, target, Done, Compacted(config, session, text, newId));
    assert Next(config, Working(s, id, target, Stored(latest), WithStored(session, newId, text, plan)),
                DeleteOld(w, true)) == done;
    RunStep(config, done, Finish(w), []);
    assert done.workers - {w} == s.workers;
  }

  lemma {:induction false} RunConcat(config: Config, s: Service, a: seq<Action>, b: seq<Action>)
    ensures Run(config, s, a + b) == Run(config, Run(config, s, a), b)
    decreases |a|
  {
    hide Next;
    if a == [] {
      assert a + b == b;
    } else {
      assert (a + b)[0] == a[0] && (a + b)[1..] == a[1..] + b;
      RunConcat(config, Next(config, s, a[0]), a[1..], b);
    }
  }

  /** The service once that worker is gone. */
  function Ended(config: Config, s: Service, id: string, target: string, text: string, newId: string): Service
    requires id in s.sessions && PlanOf(config, s.sessions[id]) != []
  {
    s.(sessions := s.sessions[id := Compacted(config, s.sessions[id], text, newId)],
       states := Finished(Triggered(s.states, id, target), id), nextWorker := s.nextWorker + 1)
  }

  lemma {:induction false} WholeRun(config: Config, s: Service, id: string, target: string, text: string, newId: string)
    requires id in s.sessions && !Busy(s.states, id) && PlanOf(config, s.sessions[id]) != []
    requires text != "" && newId !in SummaryIds(s.sessions[id].summaries) && s.nextWorker !in s.workers
    ensures Run(config, s, WholeCompaction(s.nextWorker, id, target, text, newId))
         == Ended(config, s, id, target, text, newId)
  {
    hide Run, PlanOf, Busy, SummaryIds, Working, Compacted, WithStored, Latest, Finished, Triggered;
    var w := s.nextWorker;
    var first, second := [Check(id, target), LoadSummary(w), LoadRows(w)],
      [ModelReplies(w, text), StoreSummary(w, newId)];
    assert WholeCompaction(w, id, target, text, newId) == (first + second) + [DeleteOld(w, true), Finish(w)];
    RunConcat(config, s, first + second, [DeleteOld(w, true), Finish(w)]);
    RunConcat(config, s, first, second);
    WorkerReads(config, s, id, target);
    WorkerStores(config, s, id, target, text, newId);
    WorkerEnds(config, s, id, target, text, newId);
  }

  predicate Succeeds(config: Config, before: Service, after: Service, id: string, text: string, newId: string)
    requires id in before.sessions && PlanOf(config, before.sessions[id]) != []
  {
    && after.workers == before.workers && !Busy(after.states, id)
    && after.sessions.Keys == before.sessions.Keys
    && (forall other :: other in before.sessions && other != id ==> after.sessions[other] == before.sessions[other])
    && Summarises(config, before.sessions[id], after.sessions[id], text, newId)
  }

  lemma {:induction false} EndedSucceeds(config: Config, s: Service, id: string, target: string, text: string,
                                         newId: string)
    requires id in s.sessions && PlanOf(config, s.sessions[id]) != []
    requires newId !in SummaryIds(s.sessions[id].summaries)
    ensures Succeeds(config, s, Ended(config, s, id, target, text, newId), id, text, newId)
  {
    hide PlanOf, Busy, SummaryIds, Compacted, Summarises, Triggered, Finished;
    CompactedSummarises(config, s.sessions[id], text, newId);
  }

  /**
   After any run, an undisturbed compaction of an idle session with a plan summarises
   exactly the plan, makes its summary the latest one, deletes the one before, and
   leaves the session idle and the workers and the other sessions as they were.
   */
  lemma {:induction false} UndisturbedCompactionSucceeds(config: Config, actions: seq<Action>, id: string,
                                                         target: string, text: string, newId: string)
    requires var s := After(config, actions);
             && id in s.sessions && !Busy(s.states, id) && PlanOf(config, s.sessions[id]) != []
             && text != "" && newId !in SummaryIds(s.sessions[id].summaries)
    ensures var s := After(config, actions);
            Succeeds(config, s, Run(config, s, WholeCompaction(s.nextWorker, id, target, text, newId)), id, text, newId)
  {
    var s := After(config, actions);
    EveryRunKeepsInvariant(config, actions);
    WorkerIsNew(s);
    hide Invariant, After, Run, PlanOf, Busy, SummaryIds, Succeeds, Ended, WholeCompaction;
    WholeRun(config, s, id, target, text, newId);
    EndedSucceeds(config, s, id, target, text, newId);
  }

  lemma {:induction false} WorkerIsNew(s: Service)
    requires Invariant(s)
    ensures s.nextWorker !in s.workers
  {
  }

  /** The plan has been summarised: it is the newest batch, and its summary replaces the one before. */
  predicate Summarises(config: Config, before: Session, after: Session, text: string, newId: string)
    requires PlanOf(config, before) != []
  {
    var plan := PlanOf(config, before);
    && after.log == before.log && after.fed == before.fed + [plan]
    && Latest(after.summaries) == Some(StoredSummary(newId, text, plan[|plan| - 1].id))
    && (before.summaries != [] ==> Latest(before.summaries).value.id !in SummaryIds(after.summaries))
  }

  lemma {:induction false} GoneFromTable(summaries: seq<StoredSummary>, id: string)
    ensures id !in SummaryIds(WithoutId(summaries, id))
  {
    if summaries != [] {
      GoneFromTable(summaries[1..], id);
    }
  }

  lemma {:induction false} CompactedSummarises(config: Config, session: Session, text: string, newId: string)
    requires PlanOf(config, session) != [] && newId !in SummaryIds(session.summaries)
    ensures Summarises(config, session, Compacted(config, session, text, newId), text, newId)
  {
    hide PlanOf;
    var stored := WithStored(session, newId, text, PlanOf(config, session));
    if session.summaries != [] {
      var earlier := Latest(session.summaries).value;
      assert earlier in session.summaries && earlier.id in SummaryIds(session.summaries);
      DeletingAnotherKeepsLatest(stored.summaries, earlier.id);
      GoneFromTable(stored.summaries, earlier.id);
    }
  }
}
