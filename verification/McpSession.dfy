/**
 The MCP session slot as concurrent steps: callers that wait for the mutex,
 reconnect, call and drop their lease; cancellation and timeouts anywhere; and
 shutdown. A step is finer than a poll: the shutdown flag may be set between the
 check of a biased `select` and the branch it guards.
 */
module McpSession {
  import opened Text

  /** Where the holder of the mutex is. */
  datatype Stage =
    | Acquired
    | OpenEntry       // about to poll `open`, the shutdown branch first
    | OpenPolled      // that branch was not ready; the handshake may complete
    | CheckShutdown
    | CheckDeadline
    | Ready
    | InCall          // about to poll the call, the shutdown branch first
    | CallPolled      // that branch was not ready; the call may make progress

  /** The guard, its discard flag, and the request it waits for. */
  datatype Lease = Lease(stage: Stage, discard: bool, request: Option<nat>)

  datatype Request = Request(session: nat, id: nat)

  datatype State = State(
    closed: bool,               // the retained value of the shutdown channel
    slot: Option<nat>,          // the session kept for the next call
    lease: Option<Lease>,       // who holds the mutex
    taken: bool,                // some shutdown has emptied the slot
    returned: bool,             // some shutdown has returned
    unanswered: set<Request>,   // dispatched and not answered
    nextSession: nat,
    nextRequest: nat)

  datatype Action =
    | Acquire                   // a waiting caller gets the mutex
    | AfterAcquire(late: bool)
    | PollOpen
    | Handshake(succeeds: bool)
    | Repoll
    | SeeShutdown
    | SeeDeadline(late: bool)
    | BeginCall
    | PollCall
    | Dispatch
    | Reply
    | Complete
    | ConnectionError
    | TimeOut
    | Cancel
    | Signal                    // `shutdown` sets the flag
    | Take                      // `shutdown` gets the mutex and takes the session
    | Return                    // `shutdown` returns

  /** The handle after `connect`: one fresh session, nothing dispatched. */
  function Init(): State {
    State(false, Some(0), None, false, false, {}, 1, 0)
  }

  /** Drop of the lease: take the session if it is to be discarded, then unlock. */
  function DropLease(s: State): State
    requires s.lease.Some?
  {
    s.(lease := None, slot := if s.lease.value.discard then None else s.slot)
  }

  function AtStage(s: State, stage: Stage): State
    requires s.lease.Some?
  {
    s.(lease := Some(s.lease.value.(stage := stage)))
  }

  predicate Holds(s: State, stage: Stage) {
    s.lease.Some? && s.lease.value.stage == stage
  }

  predicate CanTimeOut(s: State) {
    s.lease.Some? && s.lease.value.stage in {OpenEntry, OpenPolled, InCall, CallPolled}
  }

  /** One step; a step that is not possible changes nothing. */
  function Next(s: State, a: Action): State {
    match a
    case Acquire =>
      if s.lease.None? then s.(lease := Some(Lease(Acquired, false, None))) else s
    case AfterAcquire(late) =>
      if !Holds(s, Acquired) then s
      else if late then DropLease(s)
      else AtStage(s, if s.slot.None? then OpenEntry else CheckShutdown)
    case PollOpen =>
      if !Holds(s, OpenEntry) then s
      else if s.closed then DropLease(s)
      else AtStage(s, OpenPolled)
    case Handshake(succeeds) =>
      if !Holds(s, OpenPolled) then s
      else if !succeeds then DropLease(s)
      else AtStage(s, CheckShutdown).(slot := Some(s.nextSession), nextSession := s.nextSession + 1)
    case Repoll =>
      if Holds(s, OpenPolled) then AtStage(s, OpenEntry)
      else if Holds(s, CallPolled) then AtStage(s, InCall)
      else s
    case SeeShutdown =>
      if !Holds(s, CheckShutdown) then s
      else if s.closed then DropLease(s.(lease := Some(s.lease.value.(discard := true))))
      else AtStage(s, CheckDeadline)
    case SeeDeadline(late) =>
      if !Holds(s, CheckDeadline) then s
      else if late then DropLease(s)
      else AtStage(s, Ready)
    case BeginCall =>
      if Holds(s, Ready) then s.(lease := Some(Lease(InCall, true, None))) else s
    case PollCall =>
      if !Holds(s, InCall) then s
      else if s.closed then DropLease(s)
      else AtStage(s, CallPolled)
    case Dispatch =>
      if Holds(s, CallPolled) && s.lease.value.request.None? && s.slot.Some? then
        s.(lease := Some(s.lease.value.(request := Some(s.nextRequest))),
           unanswered := s.unanswered + {Request(s.slot.value, s.nextRequest)},
           nextRequest := s.nextRequest + 1)
      else s
    case Reply =>
      if Holds(s, CallPolled) && s.lease.value.request.Some? && s.slot.Some? then
        s.(lease := Some(s.lease.value.(request := None)),
           unanswered := s.unanswered - {Request(s.slot.value, s.lease.value.request.value)})
      else s
    case Complete =>
      if Holds(s, CallPolled) && s.lease.value.request.None?
      then DropLease(s.(lease := Some(s.lease.value.(discard := false)))) else s
    case ConnectionError =>
      if Holds(s, CallPolled) then DropLease(s) else s
    case TimeOut =>
      if CanTimeOut(s) then DropLease(s) else s
    case Cancel =>
      if s.lease.Some? then DropLease(s) else s
    case Signal => s.(closed := true)
    case Take =>
      if s.closed && s.lease.None? then s.(slot := None, taken := true) else s
    case Return =>
      if s.taken then s.(returned := true) else s
  }

  function After(actions: seq<Action>): State {
    if actions == [] then Init()
    else Next(After(actions[..|actions| - 1]), actions[|actions| - 1])
  }

  /** The holder has passed every check of the shutdown flag made before a session exists. */
  predicate MayUseSession(stage: Stage) {
    stage != Acquired && stage != OpenEntry
  }

  predicate Invariant(s: State) {
    // a session in the slot that waits for a response is held by a lease that will discard it
    && (forall q :: q in s.unanswered ==> q.session < s.nextSession && q.id < s.nextRequest)
    && (forall q :: q in s.unanswered && s.slot == Some(q.session) ==>
          s.lease.Some? && s.lease.value.discard && s.lease.value.request == Some(q.id))
    && (s.slot.Some? ==> s.slot.value < s.nextSession)
    && (s.lease.Some? ==> LeaseOk(s, s.lease.value))
    // once a shutdown has taken the session, no later holder gets past the flag
    && (s.returned ==> s.taken)
    && (s.taken ==> s.closed && s.slot.None? && (s.lease.Some? ==> !MayUseSession(s.lease.value.stage)))
  }

  predicate LeaseOk(s: State, lease: Lease) {
    && (lease.stage in {OpenEntry, OpenPolled} ==> s.slot.None?)
    && (lease.stage in {CheckShutdown, CheckDeadline, Ready, InCall, CallPolled} ==> s.slot.Some?)
    && (lease.discard <==> lease.stage in {InCall, CallPolled})
    && (lease.request.Some? ==> lease.stage in {InCall, CallPolled})
  }

  lemma {:induction false} NextKeepsInvariant(s: State, a: Action)
    requires Invariant(s)
    ensures Invariant(Next(s, a))
  {
    match a
    case Dispatch =>
    case Reply =>
    case _ =>
  }

  lemma {:induction false} EveryRunKeepsInvariant(actions: seq<Action>)
    ensures Invariant(After(actions))
  {
    if actions != [] {
      EveryRunKeepsInvariant(actions[..|actions| - 1]);
      NextKeepsInvariant(After(actions[..|actions| - 1]), actions[|actions| - 1]);
    }
  }

  /** In every run, a session left in the slot for the next call waits for no response. */
  lemma {:induction false} NoLostResponseInFreeSlot(actions: seq<Action>)
    ensures var s := After(actions);
            s.lease.None? && s.slot.Some? ==> forall q :: q in s.unanswered ==> q.session != s.slot.value
  {
    EveryRunKeepsInvariant(actions);
  }

  predicate Lost(s: State, q: Request) {
    q in s.unanswered && s.slot != Some(q.session)
  }

  lemma {:induction false} LostStaysLost(s: State, a: Action, q: Request)
    requires Invariant(s) && Lost(s, q)
    ensures Lost(Next(s, a), q)
  {
  }

  /** A session whose response was lost is never offered to a call again. */
  lemma {:induction false} LostSessionNeverReused(before: seq<Action>, more: seq<Action>, q: Request)
    requires Lost(After(before), q)
    ensures Lost(After(before + more), q)
  {
    hide Next, Invariant, Lost;
    if more == [] {
      assert before + more == before;
    } else {
      var all := before + more;
      assert all[..|all| - 1] == before + more[..|more| - 1];
      LostSessionNeverReused(before, more[..|more| - 1], q);
      EveryRunKeepsInvariant(all[..|all| - 1]);
      LostStaysLost(After(all[..|all| - 1]), all[|all| - 1], q);
    }
  }

  /** A dropped lease that had dispatched without an answer loses its session at that step. */
  lemma {:induction false} UnansweredDropDiscards(actions: seq<Action>, a: Action, q: Request)
    requires var s := After(actions);
             && q in s.unanswered && s.slot == Some(q.session)
             && Next(s, a).lease.None?
    ensures Next(After(actions), a).slot.None? && q in Next(After(actions), a).unanswered
  {
    EveryRunKeepsInvariant(actions);
  }

  lemma {:induction false} ReturnedStaysReturned(s: State, a: Action)
    requires s.returned
    ensures Next(s, a).returned
  {
  }

  lemma {:induction false} ReturnedPersists(before: seq<Action>, more: seq<Action>)
    requires After(before).returned
    ensures After(before + more).returned
  {
    hide Next;
    if more == [] {
      assert before + more == before;
    } else {
      var all := before + more;
      assert all[..|all| - 1] == before + more[..|more| - 1];
      ReturnedPersists(before, more[..|more| - 1]);
      ReturnedStaysReturned(After(all[..|all| - 1]), all[|all| - 1]);
    }
  }

  /** Once `shutdown` has returned the slot is empty in every later state, and nothing more is dispatched. */
  lemma {:induction false} ShutdownIsFinal(before: seq<Action>, more: seq<Action>, a: Action)
    requires After(before).returned
    ensures After(before + more).slot.None?
    ensures Next(After(before + more), a).unanswered == After(before + more).unanswered
  {
    ReturnedPersists(before, more);
    EveryRunKeepsInvariant(before + more);
  }

  // ---------- reuse ----------

  /** One call from the mutex to its answer. */
  function WholeCall(): seq<Action> {
    [Acquire, AfterAcquire(false), SeeShutdown, SeeDeadline(false), BeginCall, PollCall, Dispatch, Reply, Complete]
  }

  function Run(s: State, actions: seq<Action>): State
    decreases |actions|
  {
    if actions == [] then s else Run(Next(s, actions[0]), actions[1..])
  }

  lemma {:induction false} RunStep(s: State, first: Action, more: seq<Action>)
    ensures Run(s, [first] + more) == Run(Next(s, first), more)
  {
    assert ([first] + more)[1..] == more;
  }

  /** A free slot's session, up to its call. */
  lemma {:induction false} ReadyWithSession(s: State)
    requires s.lease.None? && s.slot.Some? && !s.closed
    ensures Run(s, [Acquire, AfterAcquire(false), SeeShutdown, SeeDeadline(false)])
         == s.(lease := Some(Lease(Ready, false, None)))
  {
    RunStep(s, Acquire, [AfterAcquire(false), SeeShutdown, SeeDeadline(false)]);
    var held := s.(lease := Some(Lease(Acquired, false, None)));
    RunStep(held, AfterAcquire(false), [SeeShutdown, SeeDeadline(false)]);
    RunStep(held.(lease := Some(Lease(CheckShutdown, false, None))), SeeShutdown, [SeeDeadline(false)]);
    RunStep(held.(lease := Some(Lease(CheckDeadline, false, None))), SeeDeadline(false), []);
  }

  /** The call itself, up to the request. */
  lemma {:induction false} CallDispatches(s: State)
    requires s.lease == Some(Lease(Ready, false, None)) && s.slot.Some? && !s.closed
    ensures Run(s, [BeginCall, PollCall, Dispatch])
         == s.(lease := Some(Lease(CallPolled, true, Some(s.nextRequest))),
               unanswered := s.unanswered + {Request(s.slot.value, s.nextRequest)}, nextRequest := s.nextRequest + 1)
  {
    RunStep(s, BeginCall, [PollCall, Dispatch]);
    RunStep(s.(lease := Some(Lease(InCall, true, None))), PollCall, [Dispatch]);
    RunStep(s.(lease := Some(Lease(CallPolled, true, None))), Dispatch, []);
  }

  /** Its answer leaves the session in the slot. */
  lemma {:induction false} AnswerCompletes(s: State, unanswered: set<Request>, id: nat)
    requires s.lease == Some(Lease(CallPolled, true, Some(id))) && s.slot.Some?
    requires Request(s.slot.value, id) !in unanswered && s.unanswered == unanswered + {Request(s.slot.value, id)}
    ensures Run(s, [Reply, Complete]) == s.(lease := None, unanswered := unanswered)
  {
    assert s.unanswered - {Request(s.slot.value, id)} == unanswered;
    RunStep(s, Reply, [Complete]);
    RunStep(s.(lease := Some(Lease(CallPolled, true, None)), unanswered := unanswered), Complete, []);
  }

  lemma {:induction false} RunConcat(s: State, a: seq<Action>, b: seq<Action>)
    ensures Run(s, a + b) == Run(Run(s, a), b)
    decreases |a|
  {
    hide Next;
    if a == [] {
      assert a + b == b;
    } else {
      assert (a + b)[0] == a[0] && (a + b)[1..] == a[1..] + b;
      RunConcat(Next(s, a[0]), a[1..], b);
    }
  }

  /**
   After any run, a call that finds a session in the free slot and is answered leaves
   everything as it was, the session in the slot for the next call.
   */
  lemma {:induction false} AnsweredCallKeepsSession(actions: seq<Action>)
    requires var s := After(actions); s.lease.None? && s.slot.Some? && !s.closed
    ensures var s := After(actions); Run(s, WholeCall()) == s.(nextRequest := s.nextRequest + 1)
  {
    var s := After(actions);
    EveryRunKeepsInvariant(actions);
    hide Next, After, Run;
    var first := [Acquire, AfterAcquire(false), SeeShutdown, SeeDeadline(false)];
    var second := [BeginCall, PollCall, Dispatch];
    assert WholeCall() == (first + second) + [Reply, Complete];
    RunConcat(s, first + second, [Reply, Complete]);
    RunConcat(s, first, second);
    ReadyWithSession(s);
    CallDispatches(s.(lease := Some(Lease(Ready, false, None))));
    AnswerCompletes(Run(s, first + second), s.unanswered, s.nextRequest);
  }
}
