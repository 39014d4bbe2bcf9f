/**
 Compaction as steps of concurrent parties: writers appending rows, pressure
 checks, background workers stopping at every await, and process restarts.
 */
module CompactionProtocol {
  import opened Text
  import opened Messages
  import opened UnitCuts
  import opened Storage
  import opened CompactionPrompt
  import opened CompactionWorker
  import SessionLog

  // ---------- the single-flight map ----------

  datatype CompactionState =
    | Idle
    | Running(target: string)
    | RunningAndDirty(target: string)

  type States = map<string, CompactionState>

  /** A session some worker is compacting. */
  predicate Busy(states: States, session: string) {
    session in states && !states[session].Idle?
  }

  function Triggered(states: States, session: string, target: string): States {
    states[session := if Busy(states, session) then RunningAndDirty(target) else Running(target)]
  }

  /** Cleared whether or not it was dirty: the next check triggers again. */
  function Finished(states: States, session: string): (r: States)
    ensures !Busy(r, session)
    ensures forall other :: other != session ==> (Busy(r, other) <==> Busy(states, other))
  {
    states[session := Idle]
  }

  /** The shared map behind the service's mutex; each method is one critical section. */
  class CompactionService {
    var states: States

    constructor ()
      ensures states == map[]
    {
      states := map[];
    }

    method TriggerCompaction(session: string, latest: Option<StoredSummary>) returns (spawns: bool)
      modifies this
      ensures spawns == !Busy(old(states), session)
      ensures states == Triggered(old(states), session, if latest.Some? then latest.value.coversThrough else "")
    {
      var target := if latest.Some? then latest.value.coversThrough else "";
      if session in states && (states[session].Running? || states[session].RunningAndDirty?) {
        states := states[session := RunningAndDirty(target)];
        spawns := false;
      } else {
        states := states[session := Running(target)];
        spawns := true;
      }
    }

    /** The session is free again, dirty or not, and no other is: only then may its next worker be spawned. */
    method FinishCompaction(session: string)
      modifies this
      ensures !Busy(states, session)
      ensures forall other :: other != session ==> (Busy(states, other) <==> Busy(old(states), other))
      ensures states == Finished(old(states), session)
    {
      states := states[session := Idle];
    }
  }

  // ---------- steps ----------

  /** Where a worker is, with what it has read so far. */
  datatype Stage =
    | Spawned
    | SummaryLoaded(summary: Option<StoredSummary>)
    | Planned(summary: Option<StoredSummary>, rows: seq<StoredMessage>)
    | Summarised(summary: Option<StoredSummary>, rows: seq<StoredMessage>, text: string)
    | Stored(summary: Option<StoredSummary>)
    | Done

  datatype Worker = Worker(session: string, stage: Stage)

  /** `fed` records the rows given to each successful compaction. */
  datatype Session = Session(log: seq<StoredMessage>, summaries: seq<StoredSummary>, fed: seq<seq<StoredMessage>>)

  datatype Service = Service(sessions: map<string, Session>, states: States, workers: map<nat, Worker>, nextWorker: nat)

  datatype Action =
    | Append(session: string, rows: seq<StoredMessage>)
    | Check(session: string, target: string)
    | LoadSummary(worker: nat)
    | LoadRows(worker: nat)
    | ModelReplies(worker: nat, text: string)
    | StoreSummary(worker: nat, newId: string)
    | DeleteOld(worker: nat, commits: bool)
    | Fail(worker: nat)
    | Finish(worker: nat)
    | Restart

  function Init(): Service {
    Service(map[], map[], map[], 0)
  }

  function SessionOf(s: Service, id: string): Session {
    if id in s.sessions then s.sessions[id] else Session([], [], [])
  }

  function SummaryIds(summaries: seq<StoredSummary>): set<string> {
    set x | x in summaries :: x.id
  }

  /** One committed write: fresh row ids, and never a tool message first. */
  predicate AppendAllowed(log: seq<StoredMessage>, rows: seq<StoredMessage>) {
    && rows != []
    && Distinct(RowIds(log + rows))
    && rows[0].decoded.Some? && rows[0].decoded.value.role != Tool
  }

  /** What the writers of a session commit, stored under fresh ids, is such a write. */
  lemma {:induction false} WritersMayAppend(log: seq<StoredMessage>, rows: seq<StoredMessage>, entry: SessionLog.Entry)
    requires SessionLog.WholeEntry(entry) && |rows| == |SessionLog.EntryRows(entry)|
    requires forall i :: 0 <= i < |rows| ==> rows[i].decoded == Some(SessionLog.EntryRows(entry)[i])
    requires Distinct(RowIds(log + rows))
    ensures AppendAllowed(log, rows)
  {
    hide Distinct, RowIds;
    assert SessionLog.EntryRows(entry)[0].role != Tool;
  }

  function AtStage(s: Service, worker: nat, stage: Stage): Service
    requires worker in s.workers
  {
    s.(workers := s.workers[worker := s.workers[worker].(stage := stage)])
  }

  /** The session once a worker has stored the summary of `rows`. */
  function WithStored(session: Session, newId: string, text: string, rows: seq<StoredMessage>): Session
    requires rows != []
  {
    session.(summaries := session.summaries + [NewSummary(newId, text, rows)], fed := session.fed + [rows])
  }

  // One function per step; a step that is not possible where the system stands changes nothing.

  function DoAppend(s: Service, id: string, rows: seq<StoredMessage>): Service {
    var session := SessionOf(s, id);
    if AppendAllowed(session.log, rows)
    then s.(sessions := s.sessions[id := session.(log := session.log + rows)]) else s
  }

  function DoCheck(s: Service, id: string, target: string): Service {
    if id !in s.sessions then s
    else
      var marked := s.(states := Triggered(s.states, id, target));
      if Busy(s.states, id) then marked
      else marked.(workers := s.workers[s.nextWorker := Worker(id, Spawned)], nextWorker := s.nextWorker + 1)
  }

  function DoLoadSummary(s: Service, w: nat): Service {
    if w in s.workers && s.workers[w].stage.Spawned?
    then AtStage(s, w, SummaryLoaded(Latest(SessionOf(s, s.workers[w].session).summaries))) else s
  }

  function DoLoadRows(config: Config, s: Service, w: nat): Service {
    if w in s.workers && s.workers[w].stage.SummaryLoaded? then
      var summary := s.workers[w].stage.summary;
      var rows := PlannedRows(config.wording, Reverse(SessionOf(s, s.workers[w].session).log), summary,
                              config.preserve, config.usable);
      AtStage(s, w, if rows == [] then Done else Planned(summary, rows))
    else s
  }

  function DoModelReplies(s: Service, w: nat, text: string): Service {
    if w in s.workers && s.workers[w].stage.Planned? && text != ""
    then AtStage(s, w, Summarised(s.workers[w].stage.summary, s.workers[w].stage.rows, text)) else s
  }

  function DoStoreSummary(s: Service, w: nat, newId: string): Service {
    if w in s.workers && s.workers[w].stage.Summarised? && s.workers[w].stage.rows != []
       && newId !in SummaryIds(SessionOf(s, s.workers[w].session).summaries)
    then
      var id, stage := s.workers[w].session, s.workers[w].stage;
      AtStage(s, w, Stored(stage.summary)).(
        sessions := s.sessions[id := WithStored(SessionOf(s, id), newId, stage.text, stage.rows)])
    else s
  }

  function DoDeleteOld(s: Service, w: nat, commits: bool): Service {
    if w in s.workers && s.workers[w].stage.Stored? then
      var id, stage := s.workers[w].session, s.workers[w].stage;
      var session := SessionOf(s, id);
      var kept := if stage.summary.Some? && commits
                  then WithoutId(session.summaries, stage.summary.value.id) else session.summaries;
      AtStage(s, w, Done).(sessions := s.sessions[id := session.(summaries := kept)])
    else s
  }

  function DoFail(s: Service, w: nat): Service {
    if w in s.workers then AtStage(s, w, Done) else s
  }

  function DoFinish(s: Service, w: nat): Service {
    if w in s.workers && s.workers[w].stage.Done?
    then s.(states := Finished(s.states, s.workers[w].session), workers := s.workers - {w}) else s
  }

  /** States and workers live in memory; rows and summaries do not. */
  function DoRestart(s: Service): Service {
    s.(states := map[], workers := map[])
  }

  function Next(config: Config, s: Service, a: Action): Service {
    match a
    case Append(id, rows) => DoAppend(s, id, rows)
    case Check(id, target) => DoCheck(s, id, target)
    case LoadSummary(w) => DoLoadSummary(s, w)
    case LoadRows(w) => DoLoadRows(config, s, w)
    case ModelReplies(w, text) => DoModelReplies(s, w, text)
    case StoreSummary(w, newId) => DoStoreSummary(s, w, newId)
    case DeleteOld(w, commits) => DoDeleteOld(s, w, commits)
    case Fail(w) => DoFail(s, w)
    case Finish(w) => DoFinish(s, w)
    case Restart => DoRestart(s)
  }

  function After(config: Config, actions: seq<Action>): Service {
    if actions == [] then Init()
    else Next(config, After(config, actions[..|actions| - 1]), actions[|actions| - 1])
  }

  lemma {:induction false} LastStep(config: Config, actions: seq<Action>)
    requires actions != []
    ensures After(config, actions) == Next(config, After(config, actions[..|actions| - 1]), actions[|actions| - 1])
  {
    hide Next;
  }

  // ---------- what holds ----------

  function Flatten(batches: seq<seq<StoredMessage>>): seq<StoredMessage> {
    if batches == [] then [] else Flatten(batches[..|batches| - 1]) + batches[|batches| - 1]
  }

  /** Number of rows summarised so far. */
  function Boundary(session: Session): nat {
    |Flatten(session.fed)|
  }

  /** The raw rows a request replays after the latest summary, in order. */
  function Replayed(session: Session): seq<StoredMessage> {
    Reverse(AfterBoundary(Reverse(session.log), Latest(session.summaries)))
  }

  /** Row `b` of a log does not split an exchange, whenever the log can be read. */
  predicate CutRow(log: seq<StoredMessage>, b: nat) {
    b <= |log| && (DecodeAll(log).Some? ==> IsCut(DecodeAll(log).value, b))
  }

  /** How many rows the latest stored summary covers, by the place of its boundary row in the log. */
  function Covered(session: Session): nat {
    if session.summaries == [] then 0
    else
      var boundary := Position(session.log, Latest(session.summaries).value.coversThrough);
      if boundary.None? then 0 else boundary.value + 1
  }

  predicate SessionOk(session: Session) {
    && Distinct(RowIds(session.log))
    && Flatten(session.fed) <= session.log
    && (session.summaries == [] <==> Boundary(session) == 0)
    && (session.summaries != [] ==>
          0 < Boundary(session) <= |session.log|
          && Latest(session.summaries).value.coversThrough == session.log[Boundary(session) - 1].id)
    && CutRow(session.log, Boundary(session))
  }

  /** What a live worker holds is still true of its session. */
  predicate WorkerOk(session: Session, stage: Stage) {
    match stage
    case SummaryLoaded(summary) => summary == Latest(session.summaries)
    case Planned(summary, rows) => summary == Latest(session.summaries) && NextBatch(session, rows)
    case Summarised(summary, rows, text) => summary == Latest(session.summaries) && NextBatch(session, rows)
    case Stored(summary) =>
      session.summaries != []
      && (summary.Some? ==> summary.value.id != Latest(session.summaries).value.id)
    case _ => true
  }

  /** The rows directly after the boundary, up to a cut. */
  predicate NextBatch(session: Session, rows: seq<StoredMessage>) {
    && rows != []
    && Flatten(session.fed) + rows <= session.log
    && CutRow(session.log, Boundary(session) + |rows|)
  }

  predicate HasWorker(workers: map<nat, Worker>, session: string) {
    exists w :: w in workers && workers[w].session == session
  }

  /** Live workers are exactly one per busy session. */
  predicate SingleFlight(s: Service) {
    && (forall w :: w in s.workers ==> w < s.nextWorker && Busy(s.states, s.workers[w].session))
    && (forall v, w :: v in s.workers && w in s.workers && s.workers[v].session == s.workers[w].session ==> v == w)
    && (forall id :: id in s.states && Busy(s.states, id) ==> HasWorker(s.workers, id))
  }

  predicate Invariant(s: Service) {
    && SingleFlight(s)
    && (forall id :: id in s.sessions ==> SessionOk(s.sessions[id]))
    && (forall w :: w in s.workers ==>
          s.workers[w].session in s.sessions && WorkerOk(s.sessions[s.workers[w].session], s.workers[w].stage))
  }

  // ---------- one session ----------

  lemma {:induction false} FlattenAppend(batches: seq<seq<StoredMessage>>, rows: seq<StoredMessage>)
    ensures Flatten(batches + [rows]) == Flatten(batches) + rows
  {
    assert (batches + [rows])[..|batches|] == batches;
  }

  lemma {:induction false} NothingSummarised(log: seq<StoredMessage>)
    ensures Reverse(AfterBoundary(Reverse(log), None)) == log
  {
    ReverseTwice(log);
  }

  lemma {:induction false} ReplayedAfter(log: seq<StoredMessage>, b: nat, latest: Option<StoredSummary>)
    requires Distinct(RowIds(log)) && b <= |log|
    requires if latest.None? then b == 0 else b > 0 && latest.value.coversThrough == log[b - 1].id
    ensures Reverse(AfterBoundary(Reverse(log), latest)) == log[b..]
  {
    hide AfterBoundary, Reverse;
    if latest.None? {
      NothingSummarised(log);
    } else {
      ReplayedRows(log, latest.value, b - 1);
    }
  }

  /** The log is what has been summarised, in order, followed by what is replayed raw. */
  lemma {:induction false} Conservation(session: Session)
    requires SessionOk(session)
    ensures Replayed(session) == session.log[Boundary(session)..]
    ensures Flatten(session.fed) + Replayed(session) == session.log
  {
    hide CutRow, Flatten, AfterBoundary, Reverse, Distinct, RowIds;
    ReplayedAfter(session.log, Boundary(session), Latest(session.summaries));
  }

  /** The stored boundary is where the summarised batches end. */
  lemma {:induction false} CoveredIsBoundary(session: Session)
    requires SessionOk(session)
    ensures Covered(session) == Boundary(session)
  {
    hide CutRow, Flatten;
    if session.summaries != [] {
      var b := Boundary(session) - 1;
      var id := Latest(session.summaries).value.coversThrough;
      var p := Position(session.log, id);
      SameRow(session.log, p.value, b);
    }
  }

  lemma {:induction false} SameRow(log: seq<StoredMessage>, i: nat, j: nat)
    requires Distinct(RowIds(log)) && i < |log| && j < |log| && log[i].id == log[j].id
    ensures i == j
  {
    assert RowIds(log)[i] == RowIds(log)[j];
  }

  lemma {:induction false} CutRowSurvivesAppend(log: seq<StoredMessage>, rows: seq<StoredMessage>, b: nat)
    requires AppendAllowed(log, rows) && CutRow(log, b)
    ensures CutRow(log + rows, b)
  {
    hide DecodeAll;
    var decoded := DecodeAll(log + rows);
    if decoded.Some? {
      var ms, more := decoded.value[..|log|], decoded.value[|log|..];
      assert (log + rows)[..|log|] == log;
      DecodedPrefix(log + rows, |log|);
      assert decoded.value == ms + more;
      assert (log + rows)[|log|] == rows[0];
      CutsSurviveAppends(ms, more, b);
    }
  }

  lemma {:induction false} AppendKeepsSession(session: Session, rows: seq<StoredMessage>)
    requires SessionOk(session) && AppendAllowed(session.log, rows)
    ensures SessionOk(session.(log := session.log + rows))
  {
    hide CutRow, Flatten;
    CutRowSurvivesAppend(session.log, rows, Boundary(session));
  }

  lemma {:induction false} AppendKeepsWorker(session: Session, rows: seq<StoredMessage>, stage: Stage)
    requires AppendAllowed(session.log, rows) && WorkerOk(session, stage)
    ensures WorkerOk(session.(log := session.log + rows), stage)
  {
    hide CutRow, Flatten;
    if stage.Planned? || stage.Summarised? {
      CutRowSurvivesAppend(session.log, rows, Boundary(session) + |stage.rows|);
    }
  }

  /** A cut of the rows after a cut is a cut of all the rows. */
  lemma {:induction false} CutAfterCut(ms: seq<Message>, b: nat, n: nat)
    requires IsCut(ms, b) && IsCut(ms[b..], n)
    ensures IsCut(ms, b + n)
  {
    if Swallowed(ms, b + n) {
      SwallowedInSuffix(ms, b, n);
    }
  }

  lemma {:induction false} SwallowedInSuffix(ms: seq<Message>, b: nat, n: nat)
    requires b + n < |ms| && !Swallowed(ms, b) && Swallowed(ms, b + n)
    ensures Swallowed(ms[b..], n)
    decreases n
  {
    assert ms[b..][n] == ms[b + n];
    if n > 0 {
      assert ms[b..][n - 1] == ms[b + n - 1];
      if !Opens(ms[b + n - 1]) {
        SwallowedInSuffix(ms, b, n - 1);
      }
    }
  }

  lemma {:induction false} DecodedSuffix(rows: seq<StoredMessage>, n: nat)
    requires n <= |rows| && DecodeAll(rows).Some?
    ensures DecodeAll(rows[n..]) == Some(DecodeAll(rows).value[n..])
  {
    hide DecodeAll;
    var ms, part := DecodeAll(rows).value, DecodeAll(rows[n..]);
    forall i | 0 <= i < |rows| - n ensures rows[n..][i].decoded == Some(ms[n..][i]) {
      assert rows[n + i].decoded == Some(ms[n + i]);
    }
    assert part.Some? && part.value == ms[n..];
  }

  lemma {:induction false} SplitOff(log: seq<StoredMessage>, done: seq<StoredMessage>, rows: seq<StoredMessage>)
    requires done <= log && rows <= log[|done|..]
    ensures done + rows <= log
  {
    assert log == done + log[|done|..];
    ConcatAssociates(done, rows, log[|done|..][|rows|..]);
  }

  /** A run of whole units of the replayed rows is the next batch. */
  lemma {:induction false} WholeUnitsAreNextBatch(session: Session, rows: seq<StoredMessage>)
    requires SessionOk(session) && rows != [] && rows <= session.log[Boundary(session)..]
    requires DecodeAll(session.log[Boundary(session)..]).Some?
    requires IsCut(DecodeAll(session.log[Boundary(session)..]).value, |rows|)
    ensures NextBatch(session, rows)
  {
    hide DecodeAll, Flatten, IsCut, Latest, Distinct, RowIds;
    SplitOff(session.log, Flatten(session.fed), rows);
    if DecodeAll(session.log).Some? {
      DecodedSuffix(session.log, Boundary(session));
      CutAfterCut(DecodeAll(session.log).value, Boundary(session), |rows|);
    }
  }

  /** A plan made from the latest summary is the next batch of whole units. */
  lemma {:induction false} PlanIsNextBatch(config: Config, session: Session)
    requires SessionOk(session)
    ensures var rows := PlannedRows(config.wording, Reverse(session.log), Latest(session.summaries),
                                    config.preserve, config.usable);
            && (rows != [] ==> NextBatch(session, rows))
            && (rows != [] ==> Boundary(session) + |rows| + config.preserve <= |session.log|)
  {
    hide PlannedRows, DecodeAll, Boundary, IsCut, Fits, Prompt, AfterBoundary, Reverse, Latest, SessionOk, NextBatch;
    var rows := PlannedRows(config.wording, Reverse(session.log), Latest(session.summaries),
                            config.preserve, config.usable);
    PlanIsWholeUnits(config.wording, Reverse(session.log), Latest(session.summaries), config.preserve, config.usable);
    BoundaryFits(session);
    Conservation(session);
    if rows != [] {
      WholeUnitsAreNextBatch(session, rows);
    }
  }

  /** Storing advances the boundary to the end of the batch, strictly. */
  lemma {:induction false} StoreKeepsSession(session: Session, newId: string, text: string, rows: seq<StoredMessage>)
    requires SessionOk(session) && NextBatch(session, rows)
    ensures var after := WithStored(session, newId, text, rows);
            && SessionOk(after)
            && Flatten(after.fed) == Flatten(session.fed) + rows
            && Boundary(after) == Boundary(session) + |rows| > Boundary(session)
  {
    hide CutRow, Flatten;
    FlattenAppend(session.fed, rows);
    var all := Flatten(session.fed) + rows;
    assert all[|all| - 1] == rows[|rows| - 1] == session.log[|all| - 1];
  }

  lemma {:induction false} DeleteKeepsSession(session: Session, id: string)
    requires SessionOk(session) && session.summaries != [] && Latest(session.summaries).value.id != id
    ensures SessionOk(session.(summaries := WithoutId(session.summaries, id)))
    ensures WithoutId(session.summaries, id) != []
  {
    hide CutRow, Flatten;
    DeletingAnotherKeepsLatest(session.summaries, id);
  }

  // ---------- every run ----------

  lemma {:induction false} AppendKeepsInvariant(s: Service, id: string, rows: seq<StoredMessage>)
    requires Invariant(s)
    ensures Invariant(DoAppend(s, id, rows))
  {
    hide SessionOk, WorkerOk, AppendAllowed;
    var session := SessionOf(s, id);
    if AppendAllowed(session.log, rows) {
      EmptySessionOk();
      AppendKeepsSession(session, rows);
      forall w | w in s.workers && s.workers[w].session == id
        ensures WorkerOk(session.(log := session.log + rows), s.workers[w].stage)
      {
        AppendKeepsWorker(session, rows, s.workers[w].stage);
      }
    }
  }

  lemma {:induction false} EmptySessionOk()
    ensures SessionOk(Session([], [], []))
  {
  }

  lemma {:induction false} CheckKeepsInvariant(s: Service, id: string, target: string)
    requires Invariant(s)
    ensures Invariant(DoCheck(s, id, target))
  {
    assert forall session :: WorkerOk(session, Spawned);
    CheckKeepsSingleFlight(s, id, target);
    hide SessionOk, WorkerOk, SingleFlight, Triggered;
  }

  lemma {:induction false} CheckKeepsSingleFlight(s: Service, id: string, target: string)
    requires SingleFlight(s)
    ensures SingleFlight(DoCheck(s, id, target))
  {
    hide HasWorker;
    var after := DoCheck(s, id, target);
    forall other | other in after.states && Busy(after.states, other) ensures HasWorker(after.workers, other) {
      WorkersAdded(s.workers, after.workers, other);
      if id in s.sessions && !Busy(s.states, id) {
        WorkerPresent(after.workers, s.nextWorker);
      }
    }
  }

  lemma {:induction false} WorkersAdded(before: map<nat, Worker>, after: map<nat, Worker>, session: string)
    requires forall w :: w in before ==> w in after && after[w].session == before[w].session
    ensures HasWorker(before, session) ==> HasWorker(after, session)
  {
    if HasWorker(before, session) {
      var w :| w in before && before[w].session == session;
      assert after[w].session == session;
    }
  }

  lemma {:induction false} WorkerPresent(workers: map<nat, Worker>, w: nat)
    requires w in workers
    ensures HasWorker(workers, workers[w].session)
  {
  }

  lemma {:induction false} WorkerRemoved(workers: map<nat, Worker>, w: nat, session: string)
    requires w in workers && workers[w].session != session
    ensures HasWorker(workers, session) ==> HasWorker(workers - {w}, session)
  {
    if HasWorker(workers, session) {
      var v :| v in workers && workers[v].session == session;
      assert (workers - {w})[v].session == session;
    }
  }

  /** Moving one worker to a stage that holds of its session keeps everything. */
  lemma {:induction false} StageKeepsInvariant(s: Service, w: nat, stage: Stage)
    requires Invariant(s) && w in s.workers && WorkerOk(s.sessions[s.workers[w].session], stage)
    ensures Invariant(AtStage(s, w, stage))
  {
    hide SessionOk, WorkerOk, HasWorker;
    var after := AtStage(s, w, stage);
    forall id | id in after.states && Busy(after.states, id) ensures HasWorker(after.workers, id) {
      WorkersAdded(s.workers, after.workers, id);
    }
  }

  /** A worker may change its own session: no other worker is on it. */
  lemma {:induction false} OwnSessionKeepsInvariant(s: Service, w: nat, stage: Stage, session: Session)
    requires Invariant(s) && w in s.workers && SessionOk(session) && WorkerOk(session, stage)
    ensures Invariant(AtStage(s, w, stage).(sessions := s.sessions[s.workers[w].session := session]))
  {
    hide SessionOk, WorkerOk, HasWorker;
    var id := s.workers[w].session;
    var after := AtStage(s, w, stage).(sessions := s.sessions[id := session]);
    forall other | other in after.states && Busy(after.states, other) ensures HasWorker(after.workers, other) {
      WorkersAdded(s.workers, after.workers, other);
    }
  }

  lemma {:induction false} FinishKeepsInvariant(s: Service, w: nat)
    requires Invariant(s)
    ensures Invariant(DoFinish(s, w))
  {
    FinishKeepsSingleFlight(s, w);
    hide SessionOk, WorkerOk, SingleFlight;
  }

  lemma {:induction false} FinishKeepsSingleFlight(s: Service, w: nat)
    requires SingleFlight(s)
    ensures SingleFlight(DoFinish(s, w))
  {
    hide HasWorker;
    var after := DoFinish(s, w);
    forall id | id in after.states && Busy(after.states, id) ensures HasWorker(after.workers, id) {
      if after != s {
        WorkerRemoved(s.workers, w, id);
      }
    }
  }

  lemma {:induction false} StoredWorkerOk(session: Session, summary: Option<StoredSummary>, newId: string,
                                          text: string, rows: seq<StoredMessage>)
    requires rows != [] && summary == Latest(session.summaries) && newId !in SummaryIds(session.summaries)
    ensures WorkerOk(WithStored(session, newId, text, rows), Stored(summary))
  {
    if summary.Some? {
      assert session.summaries[|session.summaries| - 1] in session.summaries;
    }
  }

  lemma {:induction false} StoreKeepsInvariant(s: Service, w: nat, newId: string)
    requires Invariant(s)
    ensures Invariant(DoStoreSummary(s, w, newId))
  {
    if w in s.workers && s.workers[w].stage.Summarised? {
      var stage := s.workers[w].stage;
      var session := s.sessions[s.workers[w].session];
      assert WorkerOk(session, stage);
      hide SessionOk, WorkerOk, NextBatch, Invariant, WithStored;
      if stage.rows != [] && newId !in SummaryIds(session.summaries) {
        StoreKeepsSession(session, newId, stage.text, stage.rows);
        StoredWorkerOk(session, stage.summary, newId, stage.text, stage.rows);
        OwnSessionKeepsInvariant(s, w, Stored(stage.summary), WithStored(session, newId, stage.text, stage.rows));
      }
    }
  }

  lemma {:induction false} DeleteKeepsInvariant(s: Service, w: nat, commits: bool)
    requires Invariant(s)
    ensures Invariant(DoDeleteOld(s, w, commits))
  {
    if w in s.workers && s.workers[w].stage.Stored? {
      var session, summary := s.sessions[s.workers[w].session], s.workers[w].stage.summary;
      assert WorkerOk(session, Stored(summary)) && SessionOk(session);
      hide SessionOk, Invariant, WithoutId;
      if summary.Some? && commits {
        DeleteKeepsSession(session, summary.value.id);
        OwnSessionKeepsInvariant(s, w, Done, session.(summaries := WithoutId(session.summaries, summary.value.id)));
      } else {
        OwnSessionKeepsInvariant(s, w, Done, session);
      }
    }
  }

  lemma {:induction false} PlanningWorker(s: Service, w: nat)
    requires Invariant(s) && w in s.workers && s.workers[w].stage.SummaryLoaded?
    ensures s.workers[w].session in s.sessions
    ensures var session := s.sessions[s.workers[w].session];
            SessionOk(session) && s.workers[w].stage.summary == Latest(session.summaries)
  {
    hide SessionOk, SingleFlight, Latest;
    assert WorkerOk(s.sessions[s.workers[w].session], s.workers[w].stage);
  }

  lemma {:induction false} PlannedWorkerOk(config: Config, session: Session)
    requires SessionOk(session)
    ensures var rows := PlannedRows(config.wording, Reverse(session.log), Latest(session.summaries),
                                    config.preserve, config.usable);
            WorkerOk(session, if rows == [] then Done else Planned(Latest(session.summaries), rows))
  {
    hide SessionOk, NextBatch, PlannedRows, Latest, Reverse, Boundary;
    PlanIsNextBatch(config, session);
  }

  lemma {:induction false} LoadRowsKeepsInvariant(config: Config, s: Service, w: nat)
    requires Invariant(s)
    ensures Invariant(DoLoadRows(config, s, w))
  {
    hide SessionOk, WorkerOk, Invariant, PlannedRows, Latest, Reverse, AtStage;
    if w in s.workers && s.workers[w].stage.SummaryLoaded? {
      PlanningWorker(s, w);
      var session := s.sessions[s.workers[w].session];
      PlannedWorkerOk(config, session);
      var rows := PlannedRows(config.wording, Reverse(session.log), Latest(session.summaries),
                              config.preserve, config.usable);
      StageKeepsInvariant(s, w, if rows == [] then Done else Planned(Latest(session.summaries), rows));
    }
  }

  lemma {:induction false} LoadSummaryKeepsInvariant(s: Service, w: nat)
    requires Invariant(s)
    ensures Invariant(DoLoadSummary(s, w))
  {
    hide SessionOk;
    if w in s.workers && s.workers[w].stage.Spawned? {
      StageKeepsInvariant(s, w, SummaryLoaded(Latest(s.sessions[s.workers[w].session].summaries)));
    }
  }

  lemma {:induction false} ModelKeepsInvariant(s: Service, w: nat, text: string)
    requires Invariant(s)
    ensures Invariant(DoModelReplies(s, w, text))
  {
    hide SessionOk, NextBatch;
    if w in s.workers && s.workers[w].stage.Planned? && text != "" {
      assert WorkerOk(s.sessions[s.workers[w].session], s.workers[w].stage);
      StageKeepsInvariant(s, w, Summarised(s.workers[w].stage.summary, s.workers[w].stage.rows, text));
    }
  }

  lemma {:induction false} FailKeepsInvariant(s: Service, w: nat)
    requires Invariant(s)
    ensures Invariant(DoFail(s, w))
  {
    hide SessionOk;
    if w in s.workers {
      StageKeepsInvariant(s, w, Done);
    }
  }

  lemma {:induction false} NextKeepsInvariant(config: Config, s: Service, a: Action)
    requires Invariant(s)
    ensures Invariant(Next(config, s, a))
  {
    hide Invariant, DoAppend, DoCheck, DoLoadSummary, DoLoadRows, DoModelReplies, DoStoreSummary, DoDeleteOld,
      DoFail, DoFinish, DoRestart;
    match a
    case Append(id, rows) => AppendKeepsInvariant(s, id, rows);
    case Check(id, target) => CheckKeepsInvariant(s, id, target);
    case LoadSummary(w) => LoadSummaryKeepsInvariant(s, w);
    case LoadRows(w) => LoadRowsKeepsInvariant(config, s, w);
    case ModelReplies(w, text) => ModelKeepsInvariant(s, w, text);
    case StoreSummary(w, newId) => StoreKeepsInvariant(s, w, newId);
    case DeleteOld(w, commits) => DeleteKeepsInvariant(s, w, commits);
    case Fail(w) => FailKeepsInvariant(s, w);
    case Finish(w) => FinishKeepsInvariant(s, w);
    case Restart => RestartKeepsInvariant(s);
  }

  lemma {:induction false} RestartKeepsInvariant(s: Service)
    requires Invariant(s)
    ensures Invariant(DoRestart(s))
  {
  }

  lemma {:induction false} EveryRunKeepsInvariant(config: Config, actions: seq<Action>)
    ensures Invariant(After(config, actions))
  {
    if actions != [] {
      var front := actions[..|actions| - 1];
      EveryRunKeepsInvariant(config, front);
      NextKeepsInvariant(config, After(config, front), actions[|actions| - 1]);
    }
  }

  /** In every run, at most one worker is live per session, exactly when it is marked busy. */
  lemma {:induction false} OneWorkerPerBusySession(config: Config, actions: seq<Action>, id: string)
    ensures var s := After(config, actions);
            && (Busy(s.states, id) <==> HasWorker(s.workers, id))
            && forall v, w | v in s.workers && w in s.workers ::
                 s.workers[v].session == id == s.workers[w].session ==> v == w
  {
    EveryRunKeepsInvariant(config, actions);
  }

  /**
   In every run, each session's log is the concatenation of the batches given to
   its successful compactions, in order and without gap or repeat, followed by
   exactly the rows replayed raw; and the boundary splits no exchange.
   */
  lemma {:induction false} HistoryIsConserved(config: Config, actions: seq<Action>, id: string)
    requires id in After(config, actions).sessions
    ensures var session := After(config, actions).sessions[id];
            && Flatten(session.fed) + Replayed(session) == session.log
            && (DecodeAll(session.log).Some? ==> IsCut(DecodeAll(session.log).value, Boundary(session)))
  {
    hide After, Replayed, Flatten, DecodeAll;
    EveryRunKeepsInvariant(config, actions);
    Conservation(After(config, actions).sessions[id]);
  }

  /** The log and the fed batches only grow. */
  predicate Extends(before: Session, after: Session) {
    before.log <= after.log && before.fed <= after.fed
  }

  /** Worker `w` has a summary of the next batch of session `id`. */
  predicate HasSummaryFor(s: Service, w: nat, id: string) {
    w in s.workers && s.workers[w].session == id && s.workers[w].stage.Summarised?
  }

  /**
   No step moves a boundary back or rewrites what was fed; only a store advances
   it, strictly, by the batch the worker planned.
   */
  lemma {:induction false} BoundaryOnlyAdvances(config: Config, actions: seq<Action>, a: Action, id: string)
    requires id in After(config, actions).sessions
    ensures var s := After(config, actions);
            var next := Next(config, s, a);
            && id in next.sessions && Extends(s.sessions[id], next.sessions[id])
            && (next.sessions[id].fed == s.sessions[id].fed
                || (&& a.StoreSummary? && HasSummaryFor(s, a.worker, id)
                    && next.sessions[id].fed == s.sessions[id].fed + [s.workers[a.worker].stage.rows]
                    && Boundary(next.sessions[id]) > Boundary(s.sessions[id])))
  {
    hide After, Invariant, DoAppend, DoDeleteOld, DoStoreSummary, DoCheck, DoFinish, DoLoadSummary, DoLoadRows,
      DoModelReplies, DoFail, DoRestart, Extends, HasSummaryFor;
    EveryRunKeepsInvariant(config, actions);
    var s := After(config, actions);
    match a
    case Append(session, rows) => AppendExtends(s, session, rows, id);
    case StoreSummary(w, newId) => StoreExtends(s, w, newId, id);
    case DeleteOld(w, commits) => DeleteExtends(s, w, commits, id);
    case _ => OthersExtend(config, s, a, id);
  }

  lemma {:induction false} FlattenPrefix(a: seq<seq<StoredMessage>>, b: seq<seq<StoredMessage>>)
    requires a <= b
    ensures |Flatten(a)| <= |Flatten(b)|
  {
    if |a| < |b| {
      assert b[..|b| - 1][..|a|] == a;
      FlattenPrefix(a, b[..|b| - 1]);
    } else {
      assert a == b;
    }
  }

  /** Whatever happens later, the log and what has been summarised of it only grow. */
  lemma {:induction false} SummarisedOnlyGrows(config: Config, before: seq<Action>, more: seq<Action>, id: string)
    requires id in After(config, before).sessions
    ensures var s, later := After(config, before), After(config, before + more);
            && id in later.sessions
            && s.sessions[id].log <= later.sessions[id].log
            && s.sessions[id].fed <= later.sessions[id].fed
  {
    if more == [] {
      assert before + more == before;
    } else {
      hide Next, After, Boundary, HasSummaryFor;
      var all, front := before + more, more[..|more| - 1];
      assert all[..|all| - 1] == before + front;
      LastStep(config, all);
      SummarisedOnlyGrows(config, before, front, id);
      BoundaryOnlyAdvances(config, before + front, all[|all| - 1], id);
    }
  }

  /** The place in the log of the row that the latest stored summary covers through never moves back. */
  lemma {:induction false} StoredBoundaryNeverMovesBack(config: Config, before: seq<Action>, more: seq<Action>,
                                                        id: string)
    requires id in After(config, before).sessions
    ensures var s, later := After(config, before), After(config, before + more);
            && id in later.sessions
            && Covered(s.sessions[id]) <= Covered(later.sessions[id]) <= |later.sessions[id].log|
            && s.sessions[id].log <= later.sessions[id].log
            && (s.sessions[id].summaries != [] ==> later.sessions[id].summaries != [])
  {
    hide After, Covered, Flatten, CutRow;
    SummarisedOnlyGrows(config, before, more, id);
    EveryRunKeepsInvariant(config, before);
    EveryRunKeepsInvariant(config, before + more);
    var session, later := After(config, before).sessions[id], After(config, before + more).sessions[id];
    assert SessionOk(session) && SessionOk(later);
    hide Invariant, SessionOk;
    CoveredIsBoundary(session);
    CoveredIsBoundary(later);
    FlattenPrefix(session.fed, later.fed);
    BoundaryFits(session);
    BoundaryFits(later);
  }

  lemma {:induction false} BoundaryFits(session: Session)
    requires SessionOk(session)
    ensures Boundary(session) <= |session.log|
    ensures session.summaries == [] <==> Boundary(session) == 0
  {
    hide Flatten, CutRow;
  }

  /** A store that succeeds moves the stored boundary strictly forward. */
  lemma {:induction false} StoreMovesStoredBoundary(session: Session, newId: string, text: string,
                                                    rows: seq<StoredMessage>)
    requires SessionOk(session) && NextBatch(session, rows)
    ensures Covered(WithStored(session, newId, text, rows)) == Covered(session) + |rows| > Covered(session)
  {
    hide SessionOk, Covered, WithStored;
    StoreKeepsSession(session, newId, text, rows);
    CoveredIsBoundary(session);
    CoveredIsBoundary(WithStored(session, newId, text, rows));
  }

  lemma {:induction false} AppendExtends(s: Service, session: string, rows: seq<StoredMessage>, id: string)
    requires id in s.sessions
    ensures var next := DoAppend(s, session, rows);
            id in next.sessions && Extends(s.sessions[id], next.sessions[id])
            && next.sessions[id].fed == s.sessions[id].fed
  {
    hide AppendAllowed;
  }

  lemma {:induction false} DeleteExtends(s: Service, w: nat, commits: bool, id: string)
    requires Invariant(s) && id in s.sessions
    ensures var next := DoDeleteOld(s, w, commits);
            id in next.sessions && Extends(s.sessions[id], next.sessions[id])
            && next.sessions[id].fed == s.sessions[id].fed
  {
    hide SessionOk, WorkerOk, SingleFlight, WithoutId;
  }

  lemma {:induction false} OthersExtend(config: Config, s: Service, a: Action, id: string)
    requires id in s.sessions && !a.Append? && !a.StoreSummary? && !a.DeleteOld?
    ensures Next(config, s, a).sessions == s.sessions && Extends(s.sessions[id], s.sessions[id])
  {
    hide Triggered, PlannedRows, DoAppend, DoDeleteOld, DoStoreSummary;
  }

  lemma {:induction false} StoreExtends(s: Service, w: nat, newId: string, id: string)
    requires Invariant(s) && id in s.sessions
    ensures var next := DoStoreSummary(s, w, newId);
            && id in next.sessions && Extends(s.sessions[id], next.sessions[id])
            && (next.sessions[id].fed == s.sessions[id].fed
                || (&& HasSummaryFor(s, w, id)
                    && next.sessions[id].fed == s.sessions[id].fed + [s.workers[w].stage.rows]
                    && Boundary(next.sessions[id]) > Boundary(s.sessions[id])))
  {
    hide SessionOk, WorkerOk, SingleFlight, SummaryIds, Flatten;
    if HasSummaryFor(s, w, id) {
      FlattenAppend(s.sessions[id].fed, s.workers[w].stage.rows);
    }
  }
}
