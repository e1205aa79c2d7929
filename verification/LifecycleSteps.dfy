/** Every step of the gateway's state machine keeps the invariant, case by case. */
module LifecycleSteps {
  import opened Wrappers
  import opened Execution
  import opened Persisted
  import opened StoreOperations
  import opened Workplace
  import opened Lifecycle
  import opened History
  import opened LifecycleInvariant
  import Policy

  // ---------------------------------------------------------------- administrator

  lemma NoteCore(s: State, e: AdminEvent)
    requires Core(s) && !e.Logged? && !e.Invoked?
    ensures Core(Note(s, e))
    ensures forall id :: AccountOf(Note(s, e).trace, id) == AccountOf(s.trace, id)
  {
    NoteKeeps(s, e);
  }

  lemma GotoCore(s: State, admin: AdminState)
    requires Core(s)
    ensures Core(Goto(s, admin))
  {
    forall id ensures IdInv(Goto(s, admin), id) {
      assert IdInv(s, id);
      forall image | image in s.store.surviving ensures ImageOk(Goto(s, admin), image, id) {
        assert ImageOk(s, image, id);
      }
    }
  }

  lemma ReplyInv(s: State, answer: Answer)
    requires Core(s)
    ensures Inv(Reply(s, answer))
  {
    NoteCore(s, Answered(answer));
    GotoCore(Note(s, Answered(answer)), Idle);
  }

  lemma LoggedCore(s: State, c: PendingReview, phase: AuditPhase, outcome: Outcome)
    requires Core(s)
    requires c.requestId in s.store.mem.claimed
    requires !NextVerdict(AccountFor(s, c).verdict, phase).Broken?
    requires InFlight(s, c) || phase.Reconciliation?
    requires Justified(s.trace, Logged(c.requestId, phase, outcome))
    ensures Core(Note(s, Logged(c.requestId, phase, outcome)))
    ensures AccountFor(Note(s, Logged(c.requestId, phase, outcome)), c)
            == NextAccount(AccountFor(s, c), Logged(c.requestId, phase, outcome), c.requestId)
  {
    JustifiedStep(s.trace, Logged(c.requestId, phase, outcome));
    AccountStep(s.trace, Logged(c.requestId, phase, outcome), c.requestId);
    forall id ensures IdInv(Note(s, Logged(c.requestId, phase, outcome)), id) {
      assert IdInv(s, id);
      LoggedKeeps(s, c, phase, outcome, id);
    }
  }

  lemma MissedCore(s: State, c: Choice, r: PendingReview, phase: AuditPhase, outcome: Outcome)
    requires Core(s)
    ensures var next := AuditMissed(s, c, r, phase, outcome);
            && Core(next)
            && AccountFor(next, r) == AccountFor(s, r)
            && InvokedInCommand(next.trace) == InvokedInCommand(s.trace)
  {
    NoteCore(s, Unconfirmed(r.requestId, phase, outcome));
    InvokedStep(s.trace, Unconfirmed(r.requestId, phase, outcome));
  }

  /** A review in flight has a review reason, and memory holds it as claimed. */
  lemma FlightFacts(s: State, c: PendingReview)
    requires Core(s) && InFlight(s, c)
    ensures IsPrivileged(c.request) && Reviewable(c)
    ensures Policy.ReviewReason(c.request).Some?
    ensures c.requestId in s.store.mem.claimed && s.store.mem.claimed[c.requestId] == c
    ensures c.requestId !in s.store.mem.reviews
  {
    assert IdInv(s, c.requestId) && ImageOk(s, s.store.mem, c.requestId) && ValidStore(s.store.mem);
  }

  lemma RecordedFacts(s: State, id: Uuid)
    requires Core(s)
    ensures id in s.store.mem.reviews ==>
              IsRecorded(s, s.store.mem.reviews[id]) && s.store.mem.reviews[id].requestId == id
    ensures id in s.store.mem.claimed ==>
              IsRecorded(s, s.store.mem.claimed[id]) && s.store.mem.claimed[id].requestId == id
  {
    assert IdInv(s, id) && ImageOk(s, s.store.mem, id);
  }

  /** A command's part of the invariant at its new state completes the invariant. */
  lemma ArriveInv(s: State, admin: AdminState)
    requires Core(s) && CommandInv(Goto(s, admin))
    requires !admin.Idle? && (InvokedInCommand(s.trace) <==> Executing(admin))
    ensures Inv(Goto(s, admin))
  {
    GotoCore(s, admin);
  }

  lemma BeginInv(s: State, command: AdminCommand)
    requires Inv(s)
    ensures Inv(Begin(s, command))
  {
    var next := Note(s, Began(command));
    NoteCore(s, Began(command));
    InvokedStep(s.trace, Began(command));
    assert LastIs(next.trace, Began(command));
    ArriveInv(next, Begin(s, command).admin);
  }

  lemma InspectingInv(s: State, c: Choice)
    requires Inv(s) && s.admin.Inspecting?
    ensures Inv(AdminStep(s, c))
  {
    var id := s.admin.id;
    RecordedFacts(s, id);
    if id in s.store.mem.reviews {
      assert Approached(s.trace, s.store.mem.reviews[id], 1);
      GotoCore(s, Revalidating(s.store.mem.reviews[id]));
    } else {
      ReplyInv(s, Err(NotPending));
    }
  }

  lemma ClaimingArrives(s: State, p: PendingReview)
    requires Core(s) && Approached(s.trace, p, 2) && IsRecorded(s, p) && !InvokedInCommand(s.trace)
    ensures Inv(Goto(s, Claiming(p)))
  {
    ArriveInv(s, Claiming(p));
  }

  /** The invariant says nothing about the workspace. */
  lemma ElsewhereInv(s: State, site: Site, sights: seq<Sight>)
    requires Inv(s)
    ensures Inv(s.(site := site, sights := sights))
  {
    var next := s.(site := site, sights := sights);
    forall id ensures IdInv(next, id) {
      assert IdInv(s, id);
      forall image | image in s.store.surviving ensures ImageOk(next, image, id) {
        assert ImageOk(s, image, id);
      }
    }
  }

  lemma RevalidatingInv(s: State, c: Choice)
    requires Inv(s) && s.admin.Revalidating?
    ensures Inv(AdminStep(s, c))
  {
    var p := s.admin.pending;
    if CanRevalidate(p) && c.valid {
      var e := Revalidated(p);
      NoteCore(s, e);
      InvokedStep(s.trace, e);
      ApproachStep(s.trace, p, 1);
      ClaimingArrives(Note(s, e), p);
    } else {
      ReplyInv(s, Err(RevalidationFailed));
    }
  }

  // The answer a step has just given; any value when it gave none.
  function LastAnswer(s: State): Answer {
    if s.trace != [] && s.trace[|s.trace| - 1].Answered? then s.trace[|s.trace| - 1].answer else Err(NotPending)
  }

  lemma PutCore(s: State, store: DurableStore)
    requires Core(s) && ValidDurable(store)
    requires forall id :: IdInv(Put(s, store), id)
    ensures Core(Put(s, store))
  {
  }

  lemma ClaimingInv(s: State, c: Choice)
    requires Inv(s) && (s.admin.Claiming? || s.admin.Rejecting?)
    ensures Inv(AdminStep(s, c))
  {
    var id := if s.admin.Claiming? then s.admin.pending.requestId else s.admin.id;
    var (store, result) := Claim(s.store, id, c.save);
    ClaimKeeps(s, id, c.save);
    PutCore(s, store);
    if result.Ok? {
      assert IdInv(s, id);
      ClaimedInFlight(s, id, c.save);
      GotoCore(Put(s, store), AdminStep(s, c).admin);
    } else {
      ReplyInv(Put(s, store), Err(ClaimFailed(result.error)));
    }
  }

  /** The next state after a record of a review in flight, before the command goes on from `pc`. */
  lemma LoggedInFlight(s: State, r: PendingReview, phase: AuditPhase, outcome: Outcome)
    requires Core(s) && InFlight(s, r)
    requires !NextVerdict(AccountFor(s, r).verdict, phase).Broken?
    requires Justified(s.trace, Logged(r.requestId, phase, outcome))
    ensures var next := Note(s, Logged(r.requestId, phase, outcome));
            && Core(next) && InFlight(next, r)
            && AccountFor(next, r) == NextAccount(AccountFor(s, r), Logged(r.requestId, phase, outcome), r.requestId)
            && InvokedInCommand(next.trace) == InvokedInCommand(s.trace)
  {
    FlightFacts(s, r);
    LoggedCore(s, r, phase, outcome);
    InvokedStep(s.trace, Logged(r.requestId, phase, outcome));
  }

  lemma MissedRestores(s: State, c: Choice, r: PendingReview, phase: AuditPhase, outcome: Outcome)
    requires Core(s) && InFlight(s, r) && AccountFor(s, r).verdict.Undecided? && !InvokedInCommand(s.trace)
    ensures Inv(Goto(AuditMissed(s, c, r, phase, outcome), Restoring(r)))
  {
    MissedCore(s, c, r, phase, outcome);
    GotoCore(AuditMissed(s, c, r, phase, outcome), Restoring(r));
  }

  lemma ApprovalLogged(s: State, r: PendingReview)
    requires Core(s) && InFlight(s, r) && AccountFor(s, r).verdict.Undecided? && !InvokedInCommand(s.trace)
    requires Approached(s.trace, r, 2)
    ensures Inv(Goto(Note(s, Logged(r.requestId, Approval, NotExecuted)), AuditingPreExecution(r)))
  {
    var next := Note(s, Logged(r.requestId, Approval, NotExecuted));
    LoggedInFlight(s, r, Approval, NotExecuted);
    assert Approached(next.trace, r, 3) by { ApproachStep(s.trace, r, 2); }
    ArriveInv(next, AuditingPreExecution(r));
  }

  lemma PreExecutionLogged(s: State, r: PendingReview)
    requires Core(s) && InFlight(s, r) && AccountFor(s, r).verdict == Undecided(true) && !InvokedInCommand(s.trace)
    requires Approached(s.trace, r, 3)
    ensures Inv(Goto(Note(s, Logged(r.requestId, PreExecution, NotExecuted)), Invoking(r)))
  {
    var next := Note(s, Logged(r.requestId, PreExecution, NotExecuted));
    assert AccountOk(AccountFor(s, r)) by { assert IdInv(s, r.requestId); }
    LoggedInFlight(s, r, PreExecution, NotExecuted);
    assert Approached(next.trace, r, 4) by { ApproachStep(s.trace, r, 3); }
    ArriveInv(next, Invoking(r));
  }

  lemma SettledByRejection(a: Account, id: Uuid)
    ensures NextAccount(a, Logged(id, Rejection, NotExecuted), id).settled
  {
  }

  lemma RejectionArrives(s: State, r: PendingReview)
    requires Core(s) && InFlight(s, r) && AccountFor(s, r).settled && !InvokedInCommand(s.trace)
    requires LastIs(s.trace, Logged(r.requestId, Rejection, NotExecuted))
    ensures Inv(Goto(s, ConsumingRejected(r)))
  {
    ArriveInv(s, ConsumingRejected(r));
  }

  lemma RejectionLogged(s: State, r: PendingReview)
    requires Core(s) && InFlight(s, r) && AccountFor(s, r).verdict.Undecided? && !InvokedInCommand(s.trace)
    ensures Inv(Goto(Note(s, Logged(r.requestId, Rejection, NotExecuted)), ConsumingRejected(r)))
  {
    var e := Logged(r.requestId, Rejection, NotExecuted);
    LoggedInFlight(s, r, Rejection, NotExecuted);
    SettledByRejection(AccountFor(s, r), r.requestId);
    RejectionArrives(Note(s, e), r);
  }

  lemma CompletionLogged(s: State, r: PendingReview, returned: OperationReturn)
    requires Core(s) && InFlight(s, r) && AccountFor(s, r).verdict.Started? && InvokedInCommand(s.trace)
    requires LastIs(s.trace, Invoked(r, returned)) && Fits(r.request, returned)
    ensures Inv(Goto(Note(s, Logged(r.requestId, Completion, OutcomeOf(returned))),
                     Consuming(r, AfterCompletion(returned))))
  {
    var next := Note(s, Logged(r.requestId, Completion, OutcomeOf(returned)));
    assert AccountOk(AccountFor(s, r)) by { assert IdInv(s, r.requestId); }
    LoggedInFlight(s, r, Completion, OutcomeOf(returned));
    assert Concluded(next.trace, r, returned, AfterCompletion(returned));
    ArriveInv(next, Consuming(r, AfterCompletion(returned)));
  }

  lemma CompletionMissed(s: State, c: Choice, r: PendingReview, returned: OperationReturn)
    requires Core(s) && InFlight(s, r) && AccountFor(s, r).verdict.Started? && InvokedInCommand(s.trace)
    requires LastIs(s.trace, Invoked(r, returned)) && Fits(r.request, returned)
    ensures var next := AuditMissed(s, c, r, Completion, OutcomeOf(returned));
            && Core(next) && InFlight(next, r) && AccountFor(next, r).settled && InvokedInCommand(next.trace)
            && Concluded(next.trace, r, returned, CompletionAuditLost(OutcomeOf(returned), Preserved(returned)))
  {
    assert AccountOk(AccountFor(s, r)) by { assert IdInv(s, r.requestId); }
    MissedCore(s, c, r, Completion, OutcomeOf(returned));
  }

  lemma CompletionLost(s: State, c: Choice, r: PendingReview, returned: OperationReturn)
    requires Core(s) && InFlight(s, r) && AccountFor(s, r).verdict.Started? && InvokedInCommand(s.trace)
    requires LastIs(s.trace, Invoked(r, returned)) && Fits(r.request, returned)
    ensures Inv(Goto(AuditMissed(s, c, r, Completion, OutcomeOf(returned)),
                     Consuming(r, CompletionAuditLost(OutcomeOf(returned), Preserved(returned)))))
  {
    var lost := CompletionAuditLost(OutcomeOf(returned), Preserved(returned));
    var next := AuditMissed(s, c, r, Completion, OutcomeOf(returned));
    CompletionMissed(s, c, r, returned);
    ArriveInv(next, Consuming(r, lost));
  }

  lemma NotBroken(s: State, id: Uuid)
    requires Core(s)
    ensures AccountOk(AccountOf(s.trace, id))
    ensures !NextVerdict(AccountOf(s.trace, id).verdict, Reconciliation).Broken?
  {
    assert IdInv(s, id);
  }

  lemma SettledByReconciliation(a: Account, id: Uuid)
    ensures NextAccount(a, Logged(id, Reconciliation, Unknown), id).settled
  {
  }

  lemma ReconciliationArrives(s: State, r: PendingReview)
    requires Core(s) && IsRecorded(s, r) && r.requestId in s.store.mem.claimed && !InvokedInCommand(s.trace)
    requires AccountFor(s, r).settled && LastIs(s.trace, Logged(r.requestId, Reconciliation, Unknown))
    ensures Inv(Goto(s, ConsumingAcknowledged(r)))
  {
    ArriveInv(s, ConsumingAcknowledged(r));
  }

  lemma ReconciliationLogged(s: State, r: PendingReview)
    requires Core(s) && IsRecorded(s, r) && r.requestId in s.store.mem.claimed && !InvokedInCommand(s.trace)
    ensures Inv(Goto(Note(s, Logged(r.requestId, Reconciliation, Unknown)), ConsumingAcknowledged(r)))
  {
    var e := Logged(r.requestId, Reconciliation, Unknown);
    NotBroken(s, r.requestId);
    LoggedCore(s, r, Reconciliation, Unknown);
    InvokedStep(s.trace, e);
    SettledByReconciliation(AccountFor(s, r), r.requestId);
    ReconciliationArrives(Note(s, e), r);
  }

  /** The three steps that write a record and restore the review when that fails. */
  lemma AuditingInv(s: State, c: Choice)
    requires Inv(s)
    requires s.admin.AuditingApproval? || s.admin.AuditingPreExecution? || s.admin.AuditingRejection?
    ensures Inv(AdminStep(s, c))
  {
    var r := s.admin.claimed;
    FlightFacts(s, r);
    match s.admin
    case AuditingApproval(_) =>
      if c.audit.Recorded? { ApprovalLogged(s, r); } else { MissedRestores(s, c, r, Approval, NotExecuted); }
    case AuditingPreExecution(_) =>
      if c.audit.Recorded? { PreExecutionLogged(s, r); } else { MissedRestores(s, c, r, PreExecution, NotExecuted); }
    case AuditingRejection(_) =>
      if c.audit.Recorded? { RejectionLogged(s, r); } else { MissedRestores(s, c, r, Rejection, NotExecuted); }
  }

  lemma AuditingCompletionInv(s: State, c: Choice)
    requires Inv(s) && s.admin.AuditingCompletion?
    ensures Inv(AdminStep(s, c))
  {
    var r, returned := s.admin.claimed, s.admin.returned;
    FlightFacts(s, r);
    if c.audit.Recorded? {
      CompletionLogged(s, r, returned);
    } else {
      CompletionLost(s, c, r, returned);
    }
  }

  lemma AuditingReconciliationInv(s: State, c: Choice)
    requires Inv(s) && s.admin.AuditingReconciliation?
    ensures Inv(AdminStep(s, c))
  {
    var r := s.admin.claimed;
    if Policy.ReviewReason(r.request).Some? && c.audit.Recorded? {
      ReconciliationLogged(s, r);
    } else {
      MissedCore(s, c, r, Reconciliation, Unknown);
      ReplyInv(AuditMissed(s, c, r, Reconciliation, Unknown), Err(AuditFailed));
    }
  }

  lemma ReadingClaimedInv(s: State, c: Choice)
    requires Inv(s) && s.admin.ReadingClaimed?
    ensures Inv(AdminStep(s, c))
  {
    var id := s.admin.id;
    RecordedFacts(s, id);
    if id in s.store.mem.claimed {
      GotoCore(s, AuditingReconciliation(s.store.mem.claimed[id]));
    } else {
      ReplyInv(s, Err(NotClaimed));
    }
  }

  lemma OperateFits(request: ExecutionRequest, world: World)
    ensures Fits(request, Operate(request, world))
  {
  }

  lemma InvokedCore(s: State, r: PendingReview, returned: OperationReturn)
    requires Core(s) && InFlight(s, r) && Approached(s.trace, r, 4)
    requires AccountFor(s, r).verdict.Started? && AccountFor(s, r).invocations == 0
    ensures Core(Note(s, Invoked(r, returned)))
    ensures AccountFor(Note(s, Invoked(r, returned)), r) == AccountFor(s, r).(invocations := 1)
  {
    var e := Invoked(r, returned);
    JustifiedStep(s.trace, e);
    AccountStep(s.trace, e, r.requestId);
    forall id ensures IdInv(Note(s, e), id) {
      assert IdInv(s, id);
      InvokedKeeps(s, r, returned, id);
    }
  }

  lemma InvokingInv(s: State, c: Choice)
    requires Inv(s) && s.admin.Invoking?
    ensures Inv(AdminStep(s, c))
  {
    var r := s.admin.claimed;
    var returned := Operate(r.request, c.world);
    OperateFits(r.request, c.world);
    InvokedCore(s, r, returned);
    var invoked := Note(s, Invoked(r, returned));
    InvokedStep(s.trace, Invoked(r, returned));
    assert LastIs(invoked.trace, Invoked(r, returned));
    assert InFlight(invoked, r);
    GotoCore(invoked, AuditingCompletion(r, returned));
    var acted := Act(s, r, returned, c.world);
    ElsewhereInv(Goto(invoked, AuditingCompletion(r, returned)), acted.site, acted.sights);
    assert AdminStep(s, c) == Goto(acted, AuditingCompletion(r, returned));
  }

  lemma ConsumingInv(s: State, c: Choice)
    requires Inv(s) && (s.admin.Consuming? || s.admin.ConsumingRejected? || s.admin.ConsumingAcknowledged?)
    ensures Inv(AdminStep(s, c))
  {
    var id := s.admin.claimed.requestId;
    ConsumeKeeps(s, id, c.save);
    var store := Consume(s.store, id, c.save).0;
    PutCore(s, store);
    var answer := LastAnswer(AdminStep(s, c));
    ReplyInv(Put(s, store), answer);
  }

  lemma RestoringInv(s: State, c: Choice)
    requires Inv(s) && s.admin.Restoring?
    ensures Inv(AdminStep(s, c))
  {
    RestoreKeeps(s, s.admin.claimed, c.save);
    var store := Restore(s.store, s.admin.claimed, c.save).0;
    PutCore(s, store);
    var answer := LastAnswer(AdminStep(s, c));
    ReplyInv(Put(s, store), answer);
  }

  lemma AdminStepInv(s: State, c: Choice)
    requires Inv(s) && !s.admin.Idle?
    ensures Inv(AdminStep(s, c))
  {
    match s.admin
    case Inspecting(_) => InspectingInv(s, c);
    case Revalidating(_) => RevalidatingInv(s, c);
    case Claiming(_) => ClaimingInv(s, c);
    case Rejecting(_) => ClaimingInv(s, c);
    case AuditingApproval(_) => AuditingInv(s, c);
    case AuditingPreExecution(_) => AuditingInv(s, c);
    case Invoking(_) => InvokingInv(s, c);
    case AuditingCompletion(_, _) => AuditingCompletionInv(s, c);
    case Consuming(_, _) => ConsumingInv(s, c);
    case ConsumingRejected(_) => ConsumingInv(s, c);
    case ConsumingAcknowledged(_) => ConsumingInv(s, c);
    case Restoring(_) => RestoringInv(s, c);
    case AuditingRejection(_) => AuditingInv(s, c);
    case ReadingClaimed(_) => ReadingClaimedInv(s, c);
    case AuditingReconciliation(_) => AuditingReconciliationInv(s, c);
  }

  // ---------------------------------------------------------------- agents

  /** Moving one agent call on, where its new state is fine and no longer holds a review. */
  lemma AgentKeeps(s: State, next: State, id: Uuid)
    requires Core(s) && id in s.agents && !s.agents[id].Holding?
    requires next.agents - {id} == s.agents - {id}
    requires next == s.(agents := next.agents, agentTrace := next.agentTrace)
    requires s.agentTrace <= next.agentTrace && AgentTraceOk(next.agentTrace)
    requires id in next.agents ==> !next.agents[id].Holding? && AgentOk(next, id, next.agents[id])
    ensures Core(next)
  {
    forall k ensures IdInv(next, k) {
      assert IdInv(s, k);
      assert k != id ==> (k in next.agents <==> k in next.agents - {id}) && (k in s.agents <==> k in s.agents - {id});
      assert k != id && k in s.agents ==> next.agents[k] == (s.agents - {id})[k];
      forall image | image in s.store.surviving ensures ImageOk(next, image, k) {
        assert ImageOk(s, image, k);
      }
    }
  }

  lemma AgentNoteOk(trace: seq<AgentEvent>, e: AgentEvent)
    requires AgentTraceOk(trace) && !e.AgentRefused?
    requires e.AgentInvoked? ==> !IsPrivileged(e.request) && AgentLogged(e.id, PreExecution, NotExecuted) in trace
    ensures AgentTraceOk(trace + [e])
  {
    var all := trace + [e];
    forall k | 0 <= k < |all|
      ensures !all[k].AgentRefused?
      ensures all[k].AgentInvoked? ==>
                !IsPrivileged(all[k].request) && AgentLogged(all[k].id, PreExecution, NotExecuted) in all[..k]
    {
      assert k < |trace| ==> all[..k] == trace[..k];
      assert k == |trace| ==> all[..k] == trace;
    }
  }

  /** The command in progress does not depend on the agents. */
  lemma CommandUnmoved(s: State, next: State)
    requires Inv(s) && Core(next)
    requires next.admin == s.admin && next.trace == s.trace
    requires s.store.mem.claimed == next.store.mem.claimed
    requires forall image <- next.store.surviving :: image in s.store.surviving || image == next.store.mem
    requires s.store.mem in s.store.surviving
    requires forall id <- s.recorded :: id in next.recorded && next.recorded[id] == s.recorded[id]
    ensures Inv(next)
  {
  }

  /** What such a step does to its call. */
  lemma AgentMoved(s: State, id: Uuid, c: Choice)
    requires Core(s) && id in s.agents && !s.agents[id].Holding?
    ensures var next := AgentStep(s, id, c);
            && next == s.(agents := next.agents, agentTrace := next.agentTrace)
            && next.agents - {id} == s.agents - {id}
            && s.agentTrace <= next.agentTrace && AgentTraceOk(next.agentTrace)
            && (id in next.agents ==> !next.agents[id].Holding? && AgentOk(next, id, next.agents[id]))
  {
    assert IdInv(s, id);
    match s.agents[id] {
      case Reporting(request, decision, _) =>
        AgentNoteOk(s.agentTrace, AgentFailed(id, InvalidPurpose));
      case AuditingStart(request) =>
        AgentNoteOk(s.agentTrace, AgentLogged(id, PreExecution, NotExecuted));
        AgentNoteOk(s.agentTrace, AgentFailed(id, NotAudited));
      case Running(request) =>
        AgentNoteOk(s.agentTrace, AgentInvoked(id, request, c.valid));
      case AuditingEnd(outcome) =>
        AgentNoteOk(s.agentTrace, AgentLogged(id, Completion, outcome));
    }
  }

  lemma AgentMovesInv(s: State, id: Uuid, c: Choice)
    requires Inv(s) && id in s.agents && !s.agents[id].Holding?
    ensures Inv(AgentStep(s, id, c))
  {
    var next := AgentStep(s, id, c);
    AgentMoved(s, id, c);
    AgentKeeps(s, next, id);
    CommandUnmoved(s, next);
  }

  lemma InsertedId(s: State, next: State, mem: Store, id: Uuid, k: Uuid, save: SaveOutcome)
    requires IdInv(s, id) && IdInv(s, k) && ImageOk(s, s.store.mem, k) && ValidDurable(s.store)
    requires id in s.agents && s.agents[id].Holding?
    requires mem == s.store.mem.(reviews := s.store.mem.reviews[id := s.agents[id].review])
    requires next == s.(agents := next.agents, store := Move(s.store, mem, save, ()).0, held := next.held,
                        agentTrace := next.agentTrace)
    requires s.agentTrace <= next.agentTrace
    requires next.held == if Move(s.store, mem, save, ()).1.Ok? then s.held + {id} else s.held
    requires forall j <- next.agents ::
               if j == id then
                 next.agents[j] == Reporting(s.agents[id].review.request, Policy.Review, s.agents[id].review.purpose)
                                        else j in s.agents && next.agents[j] == s.agents[j]
    ensures IdInv(next, k)
  {
    forall image | image in next.store.surviving ensures ImageOk(next, image, k) {
      if image != mem {
        assert ImageOk(s, image, k);
      }
    }
  }

  /** The one agent step that changes the store: a freshly drawn id's review is inserted. */
  lemma HoldingInv(s: State, id: Uuid, c: Choice)
    requires Inv(s) && id in s.agents && s.agents[id].Holding?
    ensures Inv(AgentStep(s, id, c))
  {
    var review := s.agents[id].review;
    assert IdInv(s, id) && ImageOk(s, s.store.mem, id);
    var (store, result) := Insert(s.store, review, c.save);
    InsertKeepsAgreement(s.store, review, c.save);
    var mem := s.store.mem.(reviews := s.store.mem.reviews[id := review]);
    assert (store, result) == Move(s.store, mem, c.save, ());
    var next := AgentStep(s, id, c);
    if result.Err? {
      AgentNoteOk(s.agentTrace, AgentFailed(id, NotInserted(result.error)));
    }
    forall k ensures IdInv(next, k) {
      assert IdInv(s, k) && ImageOk(s, s.store.mem, k);
      InsertedId(s, next, mem, id, k, c.save);
    }
    CommandUnmoved(s, next);
  }

  lemma DecisionSafe(config: Policy.Config, request: ExecutionRequest, inScope: bool)
    requires Policy.ValidConfig(config)
    ensures var decision := Policy.EvaluateRequest(request, inScope, config).decision;
            (decision.Review? ==> IsPrivileged(request)) && (decision.Allow? ==> !IsPrivileged(request))
  {
    Policy.ValidConfigSeparatesPrivilege(config);
  }

  lemma BuiltReviewable(id: Uuid, request: ExecutionRequest, purpose: string, evidence: Evidence)
    requires IsPrivileged(request)
    ensures var built := BuildReview(id, request, purpose, evidence);
            built.Some? ==> Reviewable(built.value) && built.value.requestId == id
  {
  }

  lemma AgentStartInv(s: State, id: Uuid, request: ExecutionRequest, inScope: bool, purpose: string, evidence: Evidence)
    requires Inv(s) && id !in s.used
    ensures Inv(AgentStart(s, id, request, inScope, purpose, evidence))
  {
    var next := AgentStart(s, id, request, inScope, purpose, evidence);
    DecisionSafe(s.config, request, inScope);
    assert IdInv(s, id);
    if Policy.EvaluateRequest(request, inScope, s.config).decision.Review? {
      BuiltReviewable(id, request, purpose, evidence);
      AgentNoteOk(s.agentTrace, AgentFailed(id, NotCaptured));
    }
    forall k ensures IdInv(next, k) {
      assert IdInv(s, k);
      forall image | image in s.store.surviving ensures ImageOk(next, image, k) {
        assert ImageOk(s, image, k) && ImageOk(s, image, id);
      }
    }
    CommandUnmoved(s, next);
  }

  // ---------------------------------------------------------------- failures

  lemma StopInv(s: State, config: Policy.Config, store: DurableStore)
    requires Inv(s) && Policy.ValidConfig(config)
    requires ValidDurable(store) && store.surviving <= s.store.surviving
    ensures Inv(Stop(s, config, store))
  {
    var next := Stop(s, config, store);
    NoteCore(s, Stopped);
    forall k ensures IdInv(next, k) {
      assert IdInv(Note(s, Stopped), k);
      forall image | image in store.surviving ensures ImageOk(next, image, k) {
        assert ImageOk(Note(s, Stopped), image, k);
      }
    }
  }

  // ---------------------------------------------------------------- every step, every run

  lemma StepInv(s: State, step: Step)
    requires Inv(s) && Enabled(s, step)
    ensures Inv(Apply(s, step))
  {
    match step
    case AdminBegins(command) => BeginInv(s, command);
    case AdminContinues(c) => AdminStepInv(s, c);
    case AgentBegins(id, request, inScope, purpose, evidence, _) =>
      AgentStartInv(s, id, request, inScope, purpose, evidence);
    case AgentContinues(id, c) =>
      if s.agents[id].Holding? {
        HoldingInv(s, id, c);
      } else {
        AgentMovesInv(s, id, c);
      }
    case ProcessDies(config) => StopInv(s, config, Restart(s.store));
    case PowerFails(config, image) =>
      assert ValidStore(image);
      StopInv(s, config, Recover(image));
    case OthersMove(site) => ElsewhereInv(s, site, s.sights);
  }

  lemma NextInv(s: State, next: State)
    requires Inv(s) && Next(s, next)
    ensures Inv(next)
  {
    var step :| Taken(s, step, next);
    StepInv(s, step);
  }

  lemma InitInv(s: State)
    requires Init(s)
    ensures Inv(s)
  {
    forall id ensures IdInv(s, id) {
      assert forall image <- s.store.surviving :: ImageOk(s, image, id);
    }
  }

  lemma RunStarts(run: seq<State>)
    requires IsRun(run)
    ensures Init(run[0])
  {
    assert Linked(run, 0);
  }

  lemma FirstInv(run: seq<State>)
    requires IsRun(run)
    ensures Inv(run[0])
  {
    RunStarts(run);
    InitInv(run[0]);
  }

  lemma LinkedInv(run: seq<State>, k: nat)
    requires IsRun(run) && 0 < k < |run| && Inv(run[k - 1])
    ensures Inv(run[k])
  {
    assert Linked(run, k);
    NextInv(run[k - 1], run[k]);
  }

  lemma {:induction false} RunInv(run: seq<State>, k: nat)
    requires IsRun(run) && k < |run|
    ensures Inv(run[k])
  {
    if k == 0 {
      FirstInv(run);
    } else {
      RunInv(run, k - 1);
      LinkedInv(run, k);
    }
  }
}
