/**
 The scheduler loop as steps: fetch the earliest enabled job, claim and spawn it
 when due, otherwise sleep until it is due, a stored notification arrives, or
 shutdown; writers that change rows and then notify; and stop, which joins the
 loop and drains the dispatched tasks.
 */
module Scheduler {
  import opened Text

  /** A job row; a missing run time sorts first and is due at once. */
  datatype Job = Job(enabled: bool, nextRunAt: Option<nat>)

  function Due(job: Job): nat {
    if job.nextRunAt.Some? then job.nextRunAt.value else 0
  }

  /** What a command or a tool does to a row: schedule a new job, delete one by disabling it, or run it now. */
  datatype Write = Create(nextRunAt: nat) | Disable | RunNow(at: nat)

  /** A dispatched task; its last act is to notify. */
  datatype Task =
    | Running(job: nat, nextRunAt: Option<nat>)
    | FinalWritten
    | Finished

  datatype Loop =
    | NotRunning
    | Fetching
    | Fetched(job: nat, due: nat)
    | Claimed(job: nat, nextRunAt: Option<nat>)
    | Pushing(task: nat)
    | Sleeping(until: nat)
    | IdleWaiting
    | ErrorSleep(until: nat)
    | Exited

  /** Who holds the service's task slot: nobody, a running loop, or a stop in progress. */
  datatype Phase = Stopped | Active | Joining | Draining

  datatype State = State(
    now: nat,
    jobs: map<nat, Job>,
    loop: Loop,
    permit: bool,           // a stored notification
    writers: nat,           // rows written whose writer has not notified yet
    tasks: map<nat, Task>,
    nextTask: nat,
    inFlight: set<nat>,     // handles kept for stop
    shutdown: bool,         // a shutdown message waits for the loop
    phase: Phase)

  datatype Action =
    | Tick(elapsed: nat)
    | WriteJob(job: nat, write: Write)
    | NotifyAfterWrite
    | FetchJob(job: nat)
    | FetchNone
    | FetchFails
    | Decide
    | ClaimCommits(nextRunAt: Option<nat>)
    | ClaimFails
    | Spawn
    | Push
    | TimerFires
    | NotificationWakes
    | ShutdownWakes
    | TaskWritesJob(task: nat, job: nat, write: Write)
    | TaskFinalWrite(task: nat, commits: bool)
    | TaskNotifies(task: nat)
    | Recalculate(job: nat, row: Job)
    | Start
    | Stop
    | LoopJoined
    | StopReturns

  function Init(jobs: map<nat, Job>): State {
    State(0, jobs, NotRunning, false, 0, map[], 0, {}, false, Stopped)
  }

  predicate IsEarliest(jobs: map<nat, Job>, id: nat) {
    && id in jobs && jobs[id].enabled
    && forall other :: other in jobs && jobs[other].enabled ==> Due(jobs[id]) <= Due(jobs[other])
  }

  predicate NoneEnabled(jobs: map<nat, Job>) {
    forall id :: id in jobs ==> !jobs[id].enabled
  }

  predicate Unfinished(s: State, task: nat) {
    task in s.tasks && !s.tasks[task].Finished?
  }

  /** `update_job_run_state` and the final write: the job stays enabled exactly when it has a next run. */
  function Written(jobs: map<nat, Job>, id: nat, nextRunAt: Option<nat>): map<nat, Job> {
    if id in jobs then jobs[id := Job(nextRunAt.Some?, nextRunAt)] else jobs
  }

  function RowOf(s: State, id: nat): Option<Job> {
    if id in s.jobs then Some(s.jobs[id]) else None
  }

  /** The row a write stores, if it can be made: a new job has a new id, and `now` was read before the write. */
  function RowWritten(s: State, id: nat, write: Write): Option<Job> {
    match write
    case Create(nextRunAt) => if id in s.jobs then None else Some(Job(true, Some(nextRunAt)))
    case Disable => if id in s.jobs then Some(s.jobs[id].(enabled := false)) else None
    case RunNow(at) => if id in s.jobs && at <= s.now then Some(Job(true, Some(at))) else None
  }

  predicate IsRunning(s: State, task: nat) {
    task in s.tasks && s.tasks[task].Running?
  }

  // One function per group of steps; a step that is not possible changes nothing.

  function Outside(s: State, a: Action): State {
    match a
    case Tick(elapsed) => s.(now := s.now + elapsed)
    case WriteJob(id, write) =>
      var row := RowWritten(s, id, write);
      if row.Some? then s.(jobs := s.jobs[id := row.value], writers := s.writers + 1) else s
    case NotifyAfterWrite => if s.writers > 0 then s.(writers := s.writers - 1, permit := true) else s
    case _ => s
  }

  function FetchStep(s: State, a: Action): State {
    if !s.loop.Fetching? then s
    else
      match a
      case FetchJob(id) => if IsEarliest(s.jobs, id) then s.(loop := Fetched(id, Due(s.jobs[id]))) else s
      case FetchNone => if NoneEnabled(s.jobs) then s.(loop := IdleWaiting) else s
      case FetchFails => s.(loop := ErrorSleep(s.now + 5))
      case _ => s
  }

  /**
   With a job in hand: leave on shutdown, claim it when due, else sleep until it is.
   Shutdown is checked before the update is awaited, so a stop sent after the check
   does not keep the update from committing.
   */
  function DecideStep(s: State, a: Action): State {
    if !s.loop.Fetched? then s
    else if a.Decide? then
      if s.shutdown then s.(loop := Exited, shutdown := false)
      else if s.loop.due <= s.now then s
      else s.(loop := Sleeping(s.loop.due))
    else if s.loop.due > s.now then s
    else
      match a
      case ClaimCommits(nextRunAt) =>
        s.(jobs := Written(s.jobs, s.loop.job, nextRunAt), loop := Claimed(s.loop.job, nextRunAt))
      case ClaimFails => s.(loop := ErrorSleep(s.now + 1))
      case _ => s
  }

  function SpawnStep(s: State, a: Action): State {
    if a.Spawn? && s.loop.Claimed? then
      s.(tasks := s.tasks[s.nextTask := Running(s.loop.job, s.loop.nextRunAt)], nextTask := s.nextTask + 1,
         loop := Pushing(s.nextTask))
    else if a.Push? && s.loop.Pushing? then
      s.(inFlight := (set t | t in s.inFlight && Unfinished(s, t)) + {s.loop.task}, loop := Fetching)
    else s
  }

  function WakeStep(s: State, a: Action): State {
    match a
    case TimerFires =>
      if (s.loop.Sleeping? || s.loop.ErrorSleep?) && s.loop.until <= s.now then s.(loop := Fetching) else s
    case NotificationWakes =>
      if (s.loop.Sleeping? || s.loop.IdleWaiting?) && s.permit then s.(loop := Fetching, permit := false) else s
    case ShutdownWakes =>
      if (s.loop.Sleeping? || s.loop.IdleWaiting?) && s.shutdown then s.(loop := Exited, shutdown := false) else s
    case _ => s
  }

  function TaskStep(s: State, a: Action): State {
    match a
    case TaskWritesJob(t, id, write) =>
      var row := RowWritten(s, id, write);
      if IsRunning(s, t) && row.Some? then s.(jobs := s.jobs[id := row.value]) else s
    case TaskFinalWrite(t, commits) =>
      if IsRunning(s, t) then
        s.(jobs := if commits then Written(s.jobs, s.tasks[t].job, s.tasks[t].nextRunAt) else s.jobs,
           tasks := s.tasks[t := FinalWritten])
      else s
    case TaskNotifies(t) =>
      if t in s.tasks && s.tasks[t].FinalWritten? then s.(tasks := s.tasks[t := Finished], permit := true) else s
    case _ => s
  }

  function ServiceStep(s: State, a: Action): State {
    match a
    case Recalculate(id, row) =>
      if s.phase.Stopped? && id in s.jobs then s.(jobs := s.jobs[id := row]) else s
    case Start =>
      if s.phase.Stopped? then s.(phase := Active, loop := Fetching, shutdown := false) else s
    case Stop =>
      if s.phase.Active? then s.(phase := Joining, shutdown := true) else s
    case LoopJoined =>
      if s.phase.Joining? && s.loop.Exited? then s.(phase := Draining, loop := NotRunning) else s
    case StopReturns =>
      if s.phase.Draining? && (forall t :: t in s.inFlight ==> !Unfinished(s, t))
      then s.(phase := Stopped, inFlight := {}) else s
    case _ => s
  }

  function Next(s: State, a: Action): State {
    match a
    case Tick(_) => Outside(s, a)
    case WriteJob(_, _) => Outside(s, a)
    case NotifyAfterWrite => Outside(s, a)
    case FetchJob(_) => FetchStep(s, a)
    case FetchNone => FetchStep(s, a)
    case FetchFails => FetchStep(s, a)
    case Decide => DecideStep(s, a)
    case ClaimCommits(_) => DecideStep(s, a)
    case ClaimFails => DecideStep(s, a)
    case Spawn => SpawnStep(s, a)
    case Push => SpawnStep(s, a)
    case TimerFires => WakeStep(s, a)
    case NotificationWakes => WakeStep(s, a)
    case ShutdownWakes => WakeStep(s, a)
    case TaskWritesJob(_, _, _) => TaskStep(s, a)
    case TaskFinalWrite(_, _) => TaskStep(s, a)
    case TaskNotifies(_) => TaskStep(s, a)
    case _ => ServiceStep(s, a)
  }

  function After(jobs: map<nat, Job>, actions: seq<Action>): State {
    if actions == [] then Init(jobs)
    else Next(After(jobs, actions[..|actions| - 1]), actions[|actions| - 1])
  }

  // ---------- invariants ----------

  predicate SomeTaskUnfinished(s: State) {
    exists t :: t in s.tasks && Unfinished(s, t)
  }

  /** A wake-up is stored, or somebody is going to store one. */
  predicate WakeUpComing(s: State) {
    s.permit || s.writers > 0 || SomeTaskUnfinished(s)
  }

  /** No enabled job is due before `wake`. */
  predicate NothingDueBefore(jobs: map<nat, Job>, wake: nat) {
    forall id :: id in jobs && jobs[id].enabled ==> wake <= Due(jobs[id])
  }

  /** The row is enabled and due at `due`. */
  predicate HasDue(jobs: map<nat, Job>, id: nat, due: nat) {
    id in jobs && jobs[id].enabled && Due(jobs[id]) == due
  }

  /** What the loop last read is still right, or a wake-up is coming. */
  predicate UpToDate(s: State) {
    match s.loop
    case Fetched(id, due) => (NothingDueBefore(s.jobs, due) && HasDue(s.jobs, id, due)) || WakeUpComing(s)
    case Sleeping(until) => NothingDueBefore(s.jobs, until) || WakeUpComing(s)
    case IdleWaiting => NoneEnabled(s.jobs) || WakeUpComing(s)
    case _ => true
  }

  predicate Tracked(s: State) {
    && (forall t :: t in s.tasks ==> t < s.nextTask)
    && (forall t :: t in s.tasks && Unfinished(s, t) ==> t in s.inFlight || s.loop == Pushing(t))
    && (s.phase.Stopped? || s.phase.Draining? <==> s.loop.NotRunning?)
    && (s.loop.Exited? ==> s.phase.Joining? && !s.shutdown)
    && (s.shutdown ==> s.phase.Joining?)
    && (s.phase.Stopped? ==> !SomeTaskUnfinished(s))
    && (s.loop.ErrorSleep? ==> s.loop.until <= s.now + 5)
  }

  predicate Invariant(s: State) {
    UpToDate(s) && Tracked(s)
  }

  lemma {:induction false} TaskIsUnfinished(s: State, t: nat)
    requires Unfinished(s, t)
    ensures SomeTaskUnfinished(s)
  {
  }

  lemma {:induction false} OutsideKeeps(s: State, a: Action)
    requires Invariant(s)
    ensures Invariant(Outside(s, a))
  {
  }

  lemma {:induction false} FetchKeeps(s: State, a: Action)
    requires Invariant(s)
    ensures Invariant(FetchStep(s, a))
  {
  }

  lemma {:induction false} DecideKeeps(s: State, a: Action)
    requires Invariant(s)
    ensures Invariant(DecideStep(s, a))
  {
  }

  lemma {:induction false} SpawnKeeps(s: State, a: Action)
    requires Invariant(s)
    ensures Invariant(SpawnStep(s, a))
  {
  }

  lemma {:induction false} WakeKeeps(s: State, a: Action)
    requires Invariant(s)
    ensures Invariant(WakeStep(s, a))
  {
  }

  lemma {:induction false} TaskKeeps(s: State, a: Action)
    requires Invariant(s)
    ensures Invariant(TaskStep(s, a))
  {
    match a
    case TaskWritesJob(t, id, write) =>
      if IsRunning(s, t) {
        TaskIsUnfinished(TaskStep(s, a), t);
      }
    case TaskFinalWrite(t, commits) =>
      if IsRunning(s, t) {
        TaskIsUnfinished(s, t);
        TaskIsUnfinished(TaskStep(s, a), t);
      }
    case TaskNotifies(t) =>
      if t in s.tasks && s.tasks[t].FinalWritten? {
        TaskIsUnfinished(s, t);
      }
    case _ =>
  }

  lemma {:induction false} ServiceKeeps(s: State, a: Action)
    requires Invariant(s)
    ensures Invariant(ServiceStep(s, a))
  {
    var after := ServiceStep(s, a);
    forall t ensures Unfinished(after, t) <==> Unfinished(s, t) {
    }
    if SomeTaskUnfinished(after) {
      var t :| t in after.tasks && Unfinished(after, t);
      TaskIsUnfinished(s, t);
    }
  }

  lemma {:induction false} NextKeepsInvariant(s: State, a: Action)
    requires Invariant(s)
    ensures Invariant(Next(s, a))
  {
    hide Invariant, Outside, FetchStep, DecideStep, SpawnStep, WakeStep, TaskStep, ServiceStep;
    OutsideKeeps(s, a);
    FetchKeeps(s, a);
    DecideKeeps(s, a);
    SpawnKeeps(s, a);
    WakeKeeps(s, a);
    TaskKeeps(s, a);
    ServiceKeeps(s, a);
  }

  lemma {:induction false} EveryRunKeepsInvariant(jobs: map<nat, Job>, actions: seq<Action>)
    ensures Invariant(After(jobs, actions))
  {
    if actions != [] {
      hide Next, Invariant;
      EveryRunKeepsInvariant(jobs, actions[..|actions| - 1]);
      NextKeepsInvariant(After(jobs, actions[..|actions| - 1]), actions[|actions| - 1]);
    }
  }

  /** The loop waits and nothing it waits for by itself has happened. */
  predicate Asleep(s: State) {
    s.loop.IdleWaiting? || ((s.loop.Sleeping? || s.loop.ErrorSleep?) && s.now < s.loop.until)
  }

  /**
   No lost wake-up: if the loop sleeps past the due time of an enabled job, a
   notification is stored, or a writer is about to store one, or a dispatched task
   is still running and will store one; or a read or update has failed, and the
   loop reads again by itself within five seconds.
   */
  lemma {:induction false} NoLostWakeUp(jobs: map<nat, Job>, actions: seq<Action>, id: nat)
    requires var s := After(jobs, actions);
             Asleep(s) && id in s.jobs && s.jobs[id].enabled && Due(s.jobs[id]) <= s.now
    ensures var s := After(jobs, actions);
            WakeUpComing(s) || (s.loop.ErrorSleep? && s.loop.until <= s.now + 5)
  {
    hide After, Tracked, WakeUpComing;
    EveryRunKeepsInvariant(jobs, actions);
    ErrorSleepIsShort(After(jobs, actions));
  }

  lemma {:induction false} ErrorSleepIsShort(s: State)
    requires Invariant(s)
    ensures s.loop.ErrorSleep? ==> s.loop.until <= s.now + 5
  {
  }

  // ---------- claims ----------

  /** The state before step `n` of a run. */
  function StateAt(jobs: map<nat, Job>, actions: seq<Action>, n: nat): State
    requires n <= |actions|
  {
    After(jobs, actions[..n])
  }

  lemma {:induction false} StateAfterStep(jobs: map<nat, Job>, actions: seq<Action>, n: nat)
    requires n < |actions|
    ensures StateAt(jobs, actions, n + 1) == Next(StateAt(jobs, actions, n), actions[n])
  {
    hide Next;
    assert actions[..n + 1][..n] == actions[..n];
  }

  predicate CanClaim(s: State) {
    s.loop.Fetched? && s.loop.due <= s.now
  }

  /** Step `n` claims the job in the loop's hand. */
  predicate ClaimsAt(jobs: map<nat, Job>, actions: seq<Action>, n: nat) {
    n < |actions| && actions[n].ClaimCommits? && CanClaim(StateAt(jobs, actions, n))
  }

  /** Step `f` read the job as the earliest enabled one, and the loop held it ever since, up to step `n`. */
  predicate HeldSince(jobs: map<nat, Job>, actions: seq<Action>, f: nat, n: nat, id: nat, due: nat)
    requires f < n <= |actions|
  {
    && actions[f] == FetchJob(id)
    && IsEarliest(StateAt(jobs, actions, f).jobs, id) && HasDue(StateAt(jobs, actions, f).jobs, id, due)
    && forall m :: f < m <= n ==> StateAt(jobs, actions, m).loop == Fetched(id, due)
  }

  /** Only a fetch puts a job in the loop's hand. */
  lemma {:induction false} HandOfStep(s: State, a: Action)
    requires Next(s, a).loop.Fetched?
    ensures var after := Next(s, a).loop;
            || s.loop == after
            || (a == FetchJob(after.job) && IsEarliest(s.jobs, after.job) && HasDue(s.jobs, after.job, after.due))
  {
    hide IsEarliest, NoneEnabled, Written, Unfinished;
    if a.FetchJob? {
      assert IsEarliest(s.jobs, a.job) ==> a.job in s.jobs && s.jobs[a.job].enabled by {
        EarliestIsEnabled(s.jobs, a.job);
      }
    }
  }

  lemma {:induction false} EarliestIsEnabled(jobs: map<nat, Job>, id: nat)
    ensures IsEarliest(jobs, id) ==> id in jobs && jobs[id].enabled
  {
  }

  /** Whatever the loop holds, one fetch directly before put it there. */
  lemma {:induction false} HandFollowsItsFetch(jobs: map<nat, Job>, actions: seq<Action>, n: nat) returns (f: nat)
    requires n <= |actions| && StateAt(jobs, actions, n).loop.Fetched?
    ensures f < n
    ensures HeldSince(jobs, actions, f, n, StateAt(jobs, actions, n).loop.job, StateAt(jobs, actions, n).loop.due)
  {
    hide Next, IsEarliest;
    assert n > 0;
    var s, after := StateAt(jobs, actions, n - 1), StateAt(jobs, actions, n);
    StateAfterStep(jobs, actions, n - 1);
    HandOfStep(s, actions[n - 1]);
    if s.loop == after.loop {
      f := HandFollowsItsFetch(jobs, actions, n - 1);
    } else {
      f := n - 1;
    }
  }

  /** Each claim has a fetch of its own: it read the job earliest, enabled and due, and nothing was claimed between. */
  lemma {:induction false} ClaimFollowsItsFetch(jobs: map<nat, Job>, actions: seq<Action>, n: nat) returns (f: nat)
    requires ClaimsAt(jobs, actions, n)
    ensures var s := StateAt(jobs, actions, n);
            && f < n && HeldSince(jobs, actions, f, n, s.loop.job, s.loop.due)
            && s.loop.due <= s.now
    ensures forall m :: f <= m < n ==> !ClaimsAt(jobs, actions, m)
  {
    hide IsEarliest;
    f := HandFollowsItsFetch(jobs, actions, n);
    forall m | f <= m < n ensures !ClaimsAt(jobs, actions, m) {
      if ClaimsAt(jobs, actions, m) {
        StateAfterStep(jobs, actions, m);
      }
    }
  }

  function RowAt(jobs: map<nat, Job>, actions: seq<Action>, n: nat, id: nat): Option<Job>
    requires n <= |actions|
  {
    RowOf(StateAt(jobs, actions, n), id)
  }

  predicate DueBy(row: Option<Job>, now: nat) {
    row.Some? && row.value.enabled && Due(row.value) <= now
  }

  /** Every claim is of an enabled job whose current due time has come, or a wake-up is outstanding. */
  lemma {:induction false} ClaimedRowOrWakeUp(jobs: map<nat, Job>, actions: seq<Action>, n: nat)
    requires ClaimsAt(jobs, actions, n)
    ensures var s := StateAt(jobs, actions, n);
            DueBy(RowAt(jobs, actions, n, s.loop.job), s.now) || WakeUpComing(s)
  {
    hide Tracked, NothingDueBefore, WakeUpComing;
    EveryRunKeepsInvariant(jobs, actions[..n]);
  }

  // ---------- claims that come too early ----------

  /** The row a step stores for the job, if it stores one. */
  function WroteRow(s: State, a: Action, id: nat): Option<Job> {
    match a
    case WriteJob(job, write) => if job == id then RowWritten(s, id, write) else None
    case TaskWritesJob(t, job, write) => if job == id && IsRunning(s, t) then RowWritten(s, id, write) else None
    case TaskFinalWrite(t, commits) =>
      if commits && IsRunning(s, t) && s.tasks[t].job == id && id in s.jobs then
        Some(Job(s.tasks[t].nextRunAt.Some?, s.tasks[t].nextRunAt))
      else None
    case ClaimCommits(nextRunAt) =>
      if CanClaim(s) && s.loop.job == id && id in s.jobs then Some(Job(nextRunAt.Some?, nextRunAt)) else None
    case Recalculate(job, row) => if job == id && s.phase.Stopped? && id in s.jobs then Some(row) else None
    case _ => None
  }

  /** A step stores the row it writes, and leaves every other row. */
  lemma {:induction false} RowAfterStep(s: State, a: Action, id: nat)
    ensures RowOf(Next(s, a), id) == if WroteRow(s, a, id).Some? then WroteRow(s, a, id) else RowOf(s, id)
  {
    hide IsEarliest, NoneEnabled, Unfinished;
  }

  /**
   The step deletes the job, or is the final write of an earlier run of it, which
   puts back the next run computed when that run was claimed: none, or one after `now`.
   */
  predicate PutsOff(s: State, a: Action, id: nat, now: nat) {
    match a
    case WriteJob(job, write) => job == id && write.Disable?
    case TaskWritesJob(t, job, write) => job == id && write.Disable? && IsRunning(s, t)
    case TaskFinalWrite(t, commits) =>
      commits && IsRunning(s, t) && s.tasks[t].job == id
      && (s.tasks[t].nextRunAt.None? || now < s.tasks[t].nextRunAt.value)
    case _ => false
  }

  predicate LeavesRow(jobs: map<nat, Job>, actions: seq<Action>, k: nat, n: nat, id: nat)
    requires k <= n <= |actions|
  {
    forall j :: k <= j < n ==> WroteRow(StateAt(jobs, actions, j), actions[j], id).None?
  }

  /** Since step `f` the job has been deleted or put back by an earlier run's final write, and not written again. */
  predicate PutOff(jobs: map<nat, Job>, actions: seq<Action>, f: nat, n: nat, id: nat)
    requires f < n <= |actions|
  {
    exists m :: f < m < n && PutsOff(StateAt(jobs, actions, m), actions[m], id, StateAt(jobs, actions, n).now)
                && LeavesRow(jobs, actions, m + 1, n, id)
  }

  /** A row that no step writes stays as it is. */
  lemma {:induction false} RowStays(jobs: map<nat, Job>, actions: seq<Action>, k: nat, n: nat, id: nat)
    requires k <= n <= |actions| && LeavesRow(jobs, actions, k, n, id)
    ensures RowAt(jobs, actions, n, id) == RowAt(jobs, actions, k, id)
    decreases n - k
  {
    if k < n {
      hide WroteRow, RowOf, Next, After;
      assert LeavesRow(jobs, actions, k + 1, n, id);
      StateAfterStep(jobs, actions, k);
      RowAfterStep(StateAt(jobs, actions, k), actions[k], id);
      RowStays(jobs, actions, k + 1, n, id);
    }
  }

  /** Rows never disappear, and time never goes back. */
  lemma {:induction false} RowPersists(jobs: map<nat, Job>, actions: seq<Action>, f: nat, n: nat, id: nat)
    requires f <= n <= |actions|
    ensures RowAt(jobs, actions, f, id).Some? ==> RowAt(jobs, actions, n, id).Some?
    ensures StateAt(jobs, actions, f).now <= StateAt(jobs, actions, n).now
    decreases n - f
  {
    if f < n {
      hide WroteRow, RowOf, Next, After;
      StateAfterStep(jobs, actions, f);
      RowAfterStep(StateAt(jobs, actions, f), actions[f], id);
      TimePasses(StateAt(jobs, actions, f), actions[f]);
      RowPersists(jobs, actions, f + 1, n, id);
    }
  }

  lemma {:induction false} TimePasses(s: State, a: Action)
    ensures s.now <= Next(s, a).now
  {
    hide IsEarliest, NoneEnabled, Unfinished, Written, RowWritten;
  }

  /** The last step before `k` that writes the row, if there is one. */
  lemma {:induction false} LastWrite(jobs: map<nat, Job>, actions: seq<Action>, f: nat, k: nat, n: nat, id: nat)
    returns (m: Option<nat>)
    requires f <= k <= n <= |actions| && LeavesRow(jobs, actions, k, n, id)
    ensures m.None? ==> LeavesRow(jobs, actions, f, n, id)
    ensures m.Some? ==> f <= m.value < n && LeavesRow(jobs, actions, m.value + 1, n, id)
                        && WroteRow(StateAt(jobs, actions, m.value), actions[m.value], id).Some?
    decreases k
  {
    hide WroteRow, StateAt;
    if k == f {
      m := None;
    } else if WroteRow(StateAt(jobs, actions, k - 1), actions[k - 1], id).Some? {
      m := Some(k - 1);
    } else {
      m := LastWrite(jobs, actions, f, k - 1, n, id);
    }
  }

  /** While the loop holds a job, exactly the writes that put it off leave its row disabled or due after `now`. */
  lemma {:induction false} WritePutsOff(s: State, a: Action, id: nat, now: nat)
    requires id in s.jobs && s.now <= now && s.loop.Fetched? && s.phase != Stopped && !(a.ClaimCommits? && CanClaim(s))
    ensures PutsOff(s, a, id, now) <==> WroteRow(s, a, id).Some? && !DueBy(WroteRow(s, a, id), now)
  {
  }

  /** While the loop holds the job, its row is there, and no step claims or recalculates. */
  lemma {:induction false} Held(jobs: map<nat, Job>, actions: seq<Action>, f: nat, m: nat, n: nat, id: nat, due: nat)
    requires f < m < n <= |actions| && HeldSince(jobs, actions, f, n, id, due)
    ensures var s := StateAt(jobs, actions, m);
            && id in s.jobs && s.loop.Fetched? && s.phase != Stopped && s.now <= StateAt(jobs, actions, n).now
            && !(actions[m].ClaimCommits? && CanClaim(s))
  {
    hide IsEarliest, UpToDate;
    StateAfterStep(jobs, actions, m);
    EveryRunKeepsInvariant(jobs, actions[..m]);
    RowPersists(jobs, actions, f, m, id);
    RowPersists(jobs, actions, m, n, id);
  }

  lemma {:induction false} PutOffIsEarly(jobs: map<nat, Job>, actions: seq<Action>, f: nat, m: nat, n: nat, id: nat,
                                         due: nat)
    requires f < m < n <= |actions| && HeldSince(jobs, actions, f, n, id, due)
    requires PutsOff(StateAt(jobs, actions, m), actions[m], id, StateAt(jobs, actions, n).now)
    requires LeavesRow(jobs, actions, m + 1, n, id)
    ensures !DueBy(RowAt(jobs, actions, n, id), StateAt(jobs, actions, n).now)
  {
    hide HeldSince, PutsOff, WroteRow, DueBy, RowOf, StateAt, Next, LeavesRow;
    Held(jobs, actions, f, m, n, id, due);
    WritePutsOff(StateAt(jobs, actions, m), actions[m], id, StateAt(jobs, actions, n).now);
    StateAfterStep(jobs, actions, m);
    RowAfterStep(StateAt(jobs, actions, m), actions[m], id);
    RowStays(jobs, actions, m + 1, n, id);
  }

  lemma {:induction false} FetchReadsDueRow(jobs: map<nat, Job>, actions: seq<Action>, f: nat, n: nat, id: nat,
                                            due: nat)
    requires f < n <= |actions| && HeldSince(jobs, actions, f, n, id, due)
    ensures DueBy(RowAt(jobs, actions, f, id), due) && WroteRow(StateAt(jobs, actions, f), actions[f], id).None?
  {
    hide IsEarliest, StateAt;
  }

  lemma {:induction false} EarlyIsPutOff(jobs: map<nat, Job>, actions: seq<Action>, f: nat, n: nat, id: nat, due: nat)
    requires f < n <= |actions| && HeldSince(jobs, actions, f, n, id, due) && due <= StateAt(jobs, actions, n).now
    requires !DueBy(RowAt(jobs, actions, n, id), StateAt(jobs, actions, n).now)
    ensures PutOff(jobs, actions, f, n, id)
  {
    FetchReadsDueRow(jobs, actions, f, n, id, due);
    var w := LastWrite(jobs, actions, f, n, n, id);
    hide HeldSince, PutsOff, WroteRow, RowOf, StateAt, Next, LeavesRow;
    if w.None? {
      RowStays(jobs, actions, f, n, id);
      assert false;
    }
    var m := w.value;
    Held(jobs, actions, f, m, n, id, due);
    StateAfterStep(jobs, actions, m);
    RowAfterStep(StateAt(jobs, actions, m), actions[m], id);
    RowStays(jobs, actions, m + 1, n, id);
    WritePutsOff(StateAt(jobs, actions, m), actions[m], id, StateAt(jobs, actions, n).now);
  }

  /**
   A job is claimed although it is disabled or due later exactly when, since it was
   fetched, it was deleted or the final write of an earlier run put it back. Then a
   wake-up is outstanding.
   */
  lemma {:induction false} ClaimIsEarlyWhenPutOff(jobs: map<nat, Job>, actions: seq<Action>, n: nat) returns (f: nat)
    requires ClaimsAt(jobs, actions, n)
    ensures var s := StateAt(jobs, actions, n);
            && f < n && HeldSince(jobs, actions, f, n, s.loop.job, s.loop.due)
            && (!DueBy(RowAt(jobs, actions, n, s.loop.job), s.now) <==> PutOff(jobs, actions, f, n, s.loop.job))
            && (PutOff(jobs, actions, f, n, s.loop.job) ==> WakeUpComing(s))
  {
    hide HeldSince, PutsOff, WakeUpComing, LeavesRow, DueBy, RowOf, StateAt;
    f := HandFollowsItsFetch(jobs, actions, n);
    var s := StateAt(jobs, actions, n);
    var id := s.loop.job;
    ClaimedRowOrWakeUp(jobs, actions, n);
    if !DueBy(RowAt(jobs, actions, n, id), s.now) {
      EarlyIsPutOff(jobs, actions, f, n, id, s.loop.due);
    }
    if PutOff(jobs, actions, f, n, id) {
      var m :| f < m < n && PutsOff(StateAt(jobs, actions, m), actions[m], id, s.now)
               && LeavesRow(jobs, actions, m + 1, n, id);
      PutOffIsEarly(jobs, actions, f, m, n, id, s.loop.due);
    }
  }

  // ---------- claims on time ----------

  predicate Deletes(a: Action, id: nat) {
    match a
    case WriteJob(job, write) => job == id && write.Disable?
    case TaskWritesJob(_, job, write) => job == id && write.Disable?
    case _ => false
  }

  predicate RunsJob(s: State, t: nat, id: nat) {
    IsRunning(s, t) && s.tasks[t].job == id
  }

  /** Only a spawn starts a run. */
  lemma {:induction false} RunStarted(s: State, a: Action, t: nat, id: nat)
    requires RunsJob(Next(s, a), t, id) && !s.loop.Claimed?
    ensures RunsJob(s, t, id)
  {
    hide IsEarliest, NoneEnabled, Unfinished, Written, RowWritten;
  }

  /** A run of the job that is in flight while the loop holds it was in flight when it was fetched. */
  lemma {:induction false} RunFromFetch(jobs: map<nat, Job>, actions: seq<Action>, f: nat, m: nat, t: nat, id: nat)
    requires f <= m <= |actions| && RunsJob(StateAt(jobs, actions, m), t, id)
    requires forall k :: f <= k < m ==> !StateAt(jobs, actions, k).loop.Claimed?
    ensures RunsJob(StateAt(jobs, actions, f), t, id)
    decreases m - f
  {
    if f < m {
      hide RunsJob, StateAt, Next;
      StateAfterStep(jobs, actions, m - 1);
      RunStarted(StateAt(jobs, actions, m - 1), actions[m - 1], t, id);
      RunFromFetch(jobs, actions, f, m - 1, t, id);
    }
  }

  /** A job that is fetched with no run of its own in flight, and then not deleted, is enabled and due when claimed. */
  lemma {:induction false} ClaimIsOnTimeWhenAlone(jobs: map<nat, Job>, actions: seq<Action>, n: nat) returns (f: nat)
    requires ClaimsAt(jobs, actions, n)
    ensures var s := StateAt(jobs, actions, n);
            var id := s.loop.job;
            && f < n && HeldSince(jobs, actions, f, n, id, s.loop.due)
            && ((forall t :: !RunsJob(StateAt(jobs, actions, f), t, id))
                && (forall m :: f < m < n ==> !Deletes(actions[m], id))
                ==> DueBy(RowAt(jobs, actions, n, id), s.now))
  {
    f := ClaimIsEarlyWhenPutOff(jobs, actions, n);
    var s := StateAt(jobs, actions, n);
    var id := s.loop.job;
    HeldClaimsNothing(jobs, actions, f, n, id, s.loop.due);
    hide HeldSince, WakeUpComing, LeavesRow, DueBy, RowOf, StateAt, ClaimsAt, PutsOff, RunsJob;
    if PutOff(jobs, actions, f, n, id) {
      var m :| f < m < n && PutsOff(StateAt(jobs, actions, m), actions[m], id, s.now);
      if !Deletes(actions[m], id) {
        var t := RunThatPutsOff(StateAt(jobs, actions, m), actions[m], id, s.now);
        RunFromFetch(jobs, actions, f, m, t, id);
      }
    }
  }

  lemma {:induction false} RunThatPutsOff(s: State, a: Action, id: nat, now: nat) returns (t: nat)
    requires PutsOff(s, a, id, now) && !Deletes(a, id)
    ensures RunsJob(s, t, id)
  {
    t := a.task;
  }

  lemma {:induction false} HeldClaimsNothing(jobs: map<nat, Job>, actions: seq<Action>, f: nat, n: nat, id: nat,
                                             due: nat)
    requires f < n <= |actions| && HeldSince(jobs, actions, f, n, id, due)
    ensures forall k :: f <= k < n ==> !StateAt(jobs, actions, k).loop.Claimed?
  {
    hide IsEarliest, After;
    StateAfterStep(jobs, actions, f);
  }

  // ---------- a claim that comes too early ----------

  /**
   Job 0 is claimed, its run dispatched, and the next run put down for time 100; the
   user runs it now; the loop fetches it; the first run's final write puts the row
   back to time 100; the loop claims the job.
   */
  function OverlappingRuns(): seq<Action> {
    [Start, FetchJob(0), ClaimCommits(Some(100)), Spawn, Push, WriteJob(0, RunNow(0)), FetchJob(0),
     TaskFinalWrite(0, true), ClaimCommits(Some(100))]
  }

  const DUE_AT_0 := Job(true, Some(0))
  const DUE_AT_100 := Job(true, Some(100))

  function Before(loop: Loop, row: Job): State {
    Init(map[0 := row]).(phase := Active, loop := loop)
  }

  function During(loop: Loop, row: Job, writers: nat, task: Task): State {
    Init(map[0 := row]).(phase := Active, loop := loop, writers := writers, tasks := map[0 := task], nextTask := 1,
                         inFlight := if loop.Pushing? then {} else {0})
  }

  lemma {:induction false} Claimed0()
    ensures Next(Init(map[0 := DUE_AT_0]), Start) == Before(Fetching, DUE_AT_0)
    ensures Next(Before(Fetched(0, 0), DUE_AT_0), ClaimCommits(Some(100))) == Before(Claimed(0, Some(100)), DUE_AT_100)
  {
  }

  lemma {:induction false} Spawned0()
    ensures Next(Before(Claimed(0, Some(100)), DUE_AT_100), Spawn)
         == During(Pushing(0), DUE_AT_100, 0, Running(0, Some(100)))
  {
    hide DUE_AT_100;
  }

  lemma {:induction false} Pushed0()
    ensures Next(During(Pushing(0), DUE_AT_100, 0, Running(0, Some(100))), Push)
         == During(Fetching, DUE_AT_100, 0, Running(0, Some(100)))
  {
    hide DUE_AT_100;
  }

  lemma {:induction false} RunNow0()
    ensures Next(During(Fetching, DUE_AT_100, 0, Running(0, Some(100))), WriteJob(0, RunNow(0)))
         == During(Fetching, DUE_AT_0, 1, Running(0, Some(100)))
  {
    hide DUE_AT_100;
  }

  lemma {:induction false} PutBack0()
    ensures Next(During(Fetched(0, 0), DUE_AT_0, 1, Running(0, Some(100))), TaskFinalWrite(0, true))
         == During(Fetched(0, 0), DUE_AT_100, 1, FinalWritten)
  {
    hide DUE_AT_0;
  }

  lemma {:induction false} ClaimedAgain0()
    ensures var s := During(Fetched(0, 0), DUE_AT_100, 1, FinalWritten);
            && CanClaim(s) && RowOf(s, 0) == Some(DUE_AT_100) && s.now == 0
            && Next(s, ClaimCommits(Some(100))).loop == Claimed(0, Some(100))
  {
    hide DUE_AT_100;
  }

  lemma {:induction false} OnlyJobIsFetched(s: State)
    requires s.loop.Fetching? && s.jobs == map[0 := DUE_AT_0]
    ensures Next(s, FetchJob(0)) == s.(loop := Fetched(0, 0))
  {
    OnlyJobIsEarliest(s.jobs);
    hide IsEarliest;
  }

  lemma {:induction false} Fetched0()
    ensures Next(Before(Fetching, DUE_AT_0), FetchJob(0)) == Before(Fetched(0, 0), DUE_AT_0)
    ensures Next(During(Fetching, DUE_AT_0, 1, Running(0, Some(100))), FetchJob(0))
         == During(Fetched(0, 0), DUE_AT_0, 1, Running(0, Some(100)))
  {
    hide DUE_AT_0, Next;
    OnlyJobIsFetched(Before(Fetching, DUE_AT_0));
    OnlyJobIsFetched(During(Fetching, DUE_AT_0, 1, Running(0, Some(100))));
  }

  lemma {:induction false} FirstClaimStates()
    ensures StateAt(map[0 := DUE_AT_0], OverlappingRuns(), 3) == Before(Claimed(0, Some(100)), DUE_AT_100)
  {
    var jobs, actions := map[0 := DUE_AT_0], OverlappingRuns();
    assert StateAt(jobs, actions, 0) == Init(jobs);
    hide Next, StateAt, During, Before, Init, DUE_AT_0, DUE_AT_100;
    Claimed0();
    Fetched0();
    StateAfterStep(jobs, actions, 0);
    StateAfterStep(jobs, actions, 1);
    StateAfterStep(jobs, actions, 2);
  }

  lemma {:induction false} FirstRunStates()
    ensures StateAt(map[0 := DUE_AT_0], OverlappingRuns(), 5) == During(Fetching, DUE_AT_100, 0, Running(0, Some(100)))
  {
    var jobs, actions := map[0 := DUE_AT_0], OverlappingRuns();
    FirstClaimStates();
    hide Next, StateAt, During, Before, DUE_AT_0, DUE_AT_100;
    Spawned0();
    Pushed0();
    StateAfterStep(jobs, actions, 3);
    StateAfterStep(jobs, actions, 4);
  }

  /** It is claimed again at time 0 although its row is due at 100. */
  lemma {:induction false} EarlyClaim()
    ensures var jobs, actions := map[0 := DUE_AT_0], OverlappingRuns();
            && ClaimsAt(jobs, actions, 8)
            && RowAt(jobs, actions, 8, 0) == Some(DUE_AT_100) && StateAt(jobs, actions, 8).now == 0
            && StateAt(jobs, actions, 9).loop == Claimed(0, Some(100))
  {
    var jobs, actions := map[0 := DUE_AT_0], OverlappingRuns();
    FirstRunStates();
    hide Next, StateAt, During, Before, Init, DUE_AT_0, DUE_AT_100, RowOf, CanClaim;
    RunNow0();
    Fetched0();
    PutBack0();
    ClaimedAgain0();
    StateAfterStep(jobs, actions, 5);
    StateAfterStep(jobs, actions, 6);
    StateAfterStep(jobs, actions, 7);
    StateAfterStep(jobs, actions, 8);
  }

  lemma {:induction false} OnlyJobIsEarliest(jobs: map<nat, Job>)
    requires jobs == map[0 := DUE_AT_0]
    ensures IsEarliest(jobs, 0)
  {
  }

  // ---------- every claim is run ----------

  /** The claim a step commits: the job and its next run. */
  function ClaimOf(s: State, a: Action): seq<(nat, Option<nat>)> {
    if a.ClaimCommits? && CanClaim(s) then [(s.loop.job, a.nextRunAt)] else []
  }

  function Claims(jobs: map<nat, Job>, actions: seq<Action>): seq<(nat, Option<nat>)> {
    if actions == [] then []
    else
      var before := actions[..|actions| - 1];
      Claims(jobs, before) + ClaimOf(After(jobs, before), actions[|actions| - 1])
  }

  /** One task for each claim, in order, but for a claim the loop is about to spawn. */
  predicate AllDispatched(s: State, claims: seq<(nat, Option<nat>)>) {
    && |claims| == s.nextTask + (if s.loop.Claimed? then 1 else 0)
    && (s.loop.Claimed? ==> claims[s.nextTask] == (s.loop.job, s.loop.nextRunAt))
    && forall t :: 0 <= t < s.nextTask ==>
         t in s.tasks && (s.tasks[t].Running? ==> (s.tasks[t].job, s.tasks[t].nextRunAt) == claims[t])
  }

  lemma {:induction false} DecideDispatches(s: State, a: Action, claims: seq<(nat, Option<nat>)>)
    requires AllDispatched(s, claims)
    ensures AllDispatched(DecideStep(s, a), claims + ClaimOf(s, a))
  {
    hide Written;
  }

  lemma {:induction false} SpawnDispatches(s: State, a: Action, claims: seq<(nat, Option<nat>)>)
    requires AllDispatched(s, claims)
    ensures AllDispatched(SpawnStep(s, a), claims)
  {
    hide Unfinished;
  }

  lemma {:induction false} TaskDispatches(s: State, a: Action, claims: seq<(nat, Option<nat>)>)
    requires AllDispatched(s, claims)
    ensures AllDispatched(TaskStep(s, a), claims)
  {
    hide Written, RowWritten;
  }

  lemma {:induction false} OthersDispatch(s: State, a: Action, claims: seq<(nat, Option<nat>)>)
    requires Tracked(s) && AllDispatched(s, claims)
    ensures AllDispatched(Outside(s, a), claims) && AllDispatched(FetchStep(s, a), claims)
    ensures AllDispatched(WakeStep(s, a), claims) && AllDispatched(ServiceStep(s, a), claims)
  {
    hide IsEarliest, NoneEnabled, Unfinished, RowWritten;
  }

  lemma {:induction false} StepDispatches(s: State, a: Action, claims: seq<(nat, Option<nat>)>)
    requires Tracked(s) && AllDispatched(s, claims)
    ensures AllDispatched(Next(s, a), claims + ClaimOf(s, a))
  {
    hide AllDispatched, Tracked, CanClaim, Outside, FetchStep, DecideStep, SpawnStep, WakeStep, TaskStep, ServiceStep;
    DecideDispatches(s, a, claims);
    SpawnDispatches(s, a, claims);
    TaskDispatches(s, a, claims);
    OthersDispatch(s, a, claims);
    assert claims + [] == claims;
  }

  /** In every run each claim leads to one run of the claimed job, with the next run it put down, and nothing else. */
  lemma {:induction false} EachClaimIsRun(jobs: map<nat, Job>, actions: seq<Action>)
    ensures AllDispatched(After(jobs, actions), Claims(jobs, actions))
  {
    if actions != [] {
      hide Next, Tracked, UpToDate, AllDispatched, ClaimOf;
      var before := actions[..|actions| - 1];
      EachClaimIsRun(jobs, before);
      EveryRunKeepsInvariant(jobs, before);
      StepDispatches(After(jobs, before), actions[|actions| - 1], Claims(jobs, before));
    }
  }

  // ---------- the loop goes on ----------

  /** The loop is wakened: its time has come, or a notification is stored. */
  predicate Wakens(s: State, wake: Action) {
    || (wake == TimerFires && (s.loop.Sleeping? || s.loop.ErrorSleep?) && s.loop.until <= s.now)
    || (wake == NotificationWakes && (s.loop.Sleeping? || s.loop.IdleWaiting?) && s.permit)
  }

  /** A loop that is wakened can claim the earliest enabled job, if due, whatever it waited for. */
  lemma {:induction false} WokenLoopClaims(s: State, wake: Action, id: nat, nextRunAt: Option<nat>)
    requires Wakens(s, wake) && IsEarliest(s.jobs, id) && Due(s.jobs[id]) <= s.now
    ensures var fetched := Next(Next(s, wake), FetchJob(id));
            && CanClaim(fetched) && fetched.loop.job == id
            && Next(fetched, ClaimCommits(nextRunAt)).loop == Claimed(id, nextRunAt)
  {
    hide IsEarliest, NoneEnabled, Unfinished, Written, RowWritten;
  }

  /** Every writer and every run wakes the loop in the end: its last act stores a notification. */
  lemma {:induction false} WakersNotify(s: State, t: nat)
    ensures s.writers > 0 ==> Next(s, NotifyAfterWrite).permit
    ensures IsRunning(s, t) ==> Next(Next(s, TaskFinalWrite(t, true)), TaskNotifies(t)).permit
  {
    hide Written;
  }

  /** A waiting loop obeys a stop at once, which returns when no dispatched task is running. */
  lemma {:induction false} StopEnds(s: State)
    requires s.phase.Active? && (s.loop.Sleeping? || s.loop.IdleWaiting?)
    requires forall t :: t in s.inFlight ==> !Unfinished(s, t)
    ensures Next(Next(Next(Next(s, Stop), ShutdownWakes), LoopJoined), StopReturns).phase.Stopped?
  {
    hide IsEarliest, NoneEnabled, Written, RowWritten;
  }

  /** When `stop` returns, and until the next start, no dispatched task is running and the loop is gone. */
  lemma {:induction false} StopLeavesNothingRunning(jobs: map<nat, Job>, actions: seq<Action>, t: nat)
    requires After(jobs, actions).phase.Stopped?
    ensures After(jobs, actions).loop.NotRunning? && !Unfinished(After(jobs, actions), t)
  {
    EveryRunKeepsInvariant(jobs, actions);
    if Unfinished(After(jobs, actions), t) {
      TaskIsUnfinished(After(jobs, actions), t);
    }
  }
}
