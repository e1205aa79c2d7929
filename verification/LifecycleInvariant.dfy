/** The invariant of the gateway's state machine and its preservation by every step. */
module LifecycleInvariant {
  import opened Wrappers
  import opened Execution
  import opened Persisted
  import opened StoreOperations
  import opened Workplace
  import opened Lifecycle
  import opened History
  import Policy

  const FRESH := Account(Undecided(false), 0, false, false)

  // ---------------------------------------------------------------- the invariant

  /** What one store image may say about one id. */
  ghost predicate ImageOk(s: State, image: Store, id: Uuid) {
    && (id in image.reviews ==>
          && id in s.recorded && image.reviews[id] == s.recorded[id]
          && AccountOf(s.trace, id).verdict.Undecided?)
    && (id in image.claimed ==> id in s.recorded && image.claimed[id] == s.recorded[id])
    && (id in s.held && !AccountOf(s.trace, id).settled ==> Holds(image, id))
    && (id in s.agents && s.agents[id].Holding? ==> !Holds(image, id))
  }

  predicate AccountOk(a: Account) {
    && !a.verdict.Broken?
    && a.invocations <= 1
    && (a.invocations > 0 ==> a.verdict.Started? || a.verdict.Finished? || a.verdict.Closed?)
    && (a.refused ==> a.invocations == 0 && (a.verdict.Refused? || a.verdict.Closed?))
    && (a.verdict.Refused? ==> a.refused)
    && (!a.verdict.Undecided? ==> a.settled)
  }

  ghost predicate AgentOk(s: State, id: Uuid, agent: AgentState) {
    match agent
    case Holding(review) =>
      && id in s.recorded && s.recorded[id] == review
      && id !in s.held && AccountOf(s.trace, id) == FRESH
    case Reporting(request, decision, _) => decision.Allow? ==> !IsPrivileged(request)
    case AuditingStart(request) => !IsPrivileged(request)
    case Running(request) => !IsPrivileged(request) && AgentLogged(id, PreExecution, NotExecuted) in s.agentTrace
    case AuditingEnd(_) => true
  }

  ghost predicate IdInv(s: State, id: Uuid) {
    && (forall image <- s.store.surviving :: ImageOk(s, image, id))
    && AccountOk(AccountOf(s.trace, id))
    && (id in s.recorded ==> id in s.used && s.recorded[id].requestId == id && Reviewable(s.recorded[id]))
    && (id in s.held ==> id in s.recorded)
    && (id in s.agents ==> id in s.used && AgentOk(s, id, s.agents[id]))
    && (id !in s.used ==> AccountOf(s.trace, id) == FRESH)
  }

  ghost predicate AgentTraceOk(trace: seq<AgentEvent>) {
    forall k | 0 <= k < |trace| ::
      && !trace[k].AgentRefused?
      && (trace[k].AgentInvoked? ==>
            !IsPrivileged(trace[k].request) && AgentLogged(trace[k].id, PreExecution, NotExecuted) in trace[..k])
  }

  /** The review a command works on is the recorded one, and every image that could come back has it claimed. */
  ghost predicate InFlight(s: State, claimed: PendingReview) {
    var id := claimed.requestId;
    && id in s.recorded && s.recorded[id] == claimed
    && forall image <- s.store.surviving :: id in image.claimed
  }

  function AccountFor(s: State, review: PendingReview): Account {
    AccountOf(s.trace, review.requestId)
  }

  /** What an operation can return for this kind of request. */
  predicate Fits(request: ExecutionRequest, returned: OperationReturn) {
    match request
    case WriteFile(_, _) => returned.Err? || returned.value == Succeeded(None)
    case RunCargoTest => (
      match returned
      case Err(_) => true
      case Ok(Succeeded(Some(CargoTest(r)))) => r.success
      case Ok(FailedWithResult(CargoTest(r))) => !r.success
      case _ => false)
    case _ => (
      match returned
      case Err(_) => true
      case Ok(Succeeded(Some(Http(status)))) => 200 <= status < 400
      case Ok(FailedWithResult(Http(status))) => !(200 <= status < 400)
      case _ => false)
  }

  /** The trace ends with the invocation of `claimed`, which returned `returned`, and `outcome` says
      so, the completion record being logged unless it says it was lost. */
  ghost predicate Concluded(
    trace: seq<AdminEvent>, claimed: PendingReview, returned: OperationReturn, outcome: ExecutionOutcome)
  {
    var id, o := claimed.requestId, OutcomeOf(returned);
    && Fits(claimed.request, returned)
    && ( || (outcome == AfterCompletion(returned) &&
             LastTwo(trace, Invoked(claimed, returned), Logged(id, Completion, o)))
         || (outcome == CompletionAuditLost(o, Preserved(returned)) &&
             ( || LastIs(trace, Invoked(claimed, returned))
               || LastTwo(trace, Invoked(claimed, returned), Unconfirmed(id, Completion, o)))))
  }

  predicate IsRecorded(s: State, review: PendingReview) {
    review.requestId in s.recorded && s.recorded[review.requestId] == review
  }

  ghost predicate CommandInv(s: State) {
    match s.admin
    case Idle => true
    case Inspecting(id) => LastIs(s.trace, Began(Approve(id)))
    case Revalidating(p) => Approached(s.trace, p, 1) && IsRecorded(s, p)
    case Claiming(p) => Approached(s.trace, p, 2) && IsRecorded(s, p)
    case AuditingApproval(c) =>
      Approached(s.trace, c, 2) && InFlight(s, c) && AccountFor(s, c).verdict.Undecided?
    case AuditingPreExecution(c) =>
      Approached(s.trace, c, 3) && InFlight(s, c) && AccountFor(s, c).verdict == Undecided(true)
    case Invoking(c) =>
      Approached(s.trace, c, 4) && InFlight(s, c) && AccountFor(s, c).verdict.Started?
        && AccountFor(s, c).invocations == 0
    case AuditingCompletion(c, returned) =>
      LastIs(s.trace, Invoked(c, returned)) && Fits(c.request, returned) && InFlight(s, c)
        && AccountFor(s, c).verdict.Started?
    case Consuming(c, outcome) =>
      InFlight(s, c) && AccountFor(s, c).settled && exists returned :: Concluded(s.trace, c, returned, outcome)
    case Restoring(c) => InFlight(s, c) && AccountFor(s, c).verdict.Undecided?
    case Rejecting(id) => true
    case AuditingRejection(c) => InFlight(s, c) && AccountFor(s, c).verdict.Undecided?
    case ConsumingRejected(c) =>
      InFlight(s, c) && AccountFor(s, c).settled && LastIs(s.trace, Logged(c.requestId, Rejection, NotExecuted))
    case ReadingClaimed(id) => true
    case AuditingReconciliation(c) => IsRecorded(s, c) && c.requestId in s.store.mem.claimed
    case ConsumingAcknowledged(c) =>
      && IsRecorded(s, c) && c.requestId in s.store.mem.claimed
      && AccountFor(s, c).settled && LastIs(s.trace, Logged(c.requestId, Reconciliation, Unknown))
  }

  /** The part that does not depend on where the command stands. */
  ghost predicate Core(s: State) {
    && Policy.ValidConfig(s.config)
    && ValidDurable(s.store)
    && AllJustified(s.trace)
    && AgentTraceOk(s.agentTrace)
    && forall id :: IdInv(s, id)
  }

  predicate Executing(admin: AdminState) {
    admin.AuditingCompletion? || admin.Consuming?
  }

  ghost predicate Inv(s: State) {
    && Core(s)
    && CommandInv(s)
    && (!s.admin.Idle? ==> (InvokedInCommand(s.trace) <==> Executing(s.admin)))
  }

  // ---------------------------------------------------------------- keeping the per-id part

  /** Events that are neither records nor invocations say nothing about any id. */
  lemma NoteKeeps(s: State, e: AdminEvent)
    requires !e.Logged? && !e.Invoked?
    requires forall id :: IdInv(s, id)
    requires AllJustified(s.trace)
    ensures forall id :: IdInv(Note(s, e), id) && AccountOf(Note(s, e).trace, id) == AccountOf(s.trace, id)
    ensures AllJustified(Note(s, e).trace)
  {
    JustifiedStep(s.trace, e);
    forall id ensures IdInv(Note(s, e), id) && AccountOf(Note(s, e).trace, id) == AccountOf(s.trace, id) {
      AccountStep(s.trace, e, id);
      assert IdInv(s, id);
      forall image | image in s.store.surviving ensures ImageOk(Note(s, e), image, id) {
        assert ImageOk(s, image, id);
      }
    }
  }

  /** A record about a review that memory holds as claimed keeps every id's part, if the account allows it. */
  lemma LoggedKeeps(s: State, c: PendingReview, phase: AuditPhase, outcome: Outcome, id: Uuid)
    requires ValidDurable(s.store) && IdInv(s, id)
    requires c.requestId in s.store.mem.claimed
    requires !NextVerdict(AccountFor(s, c).verdict, phase).Broken?
    requires InFlight(s, c) || phase.Reconciliation?
    ensures IdInv(Note(s, Logged(c.requestId, phase, outcome)), id)
  {
    var next := Note(s, Logged(c.requestId, phase, outcome));
    AccountStep(s.trace, Logged(c.requestId, phase, outcome), id);
    assert ImageOk(s, s.store.mem, id);
    forall image | image in s.store.surviving ensures ImageOk(next, image, id) {
      assert ImageOk(s, image, id) && ValidStore(image);
    }
  }

  lemma InvokedKeeps(s: State, c: PendingReview, returned: OperationReturn, id: Uuid)
    requires ValidDurable(s.store) && IdInv(s, id) && InFlight(s, c)
    requires AccountFor(s, c).verdict.Started? && AccountFor(s, c).invocations == 0
    ensures IdInv(Note(s, Invoked(c, returned)), id)
  {
    var next := Note(s, Invoked(c, returned));
    AccountStep(s.trace, Invoked(c, returned), id);
    assert ImageOk(s, s.store.mem, id);
    forall image | image in s.store.surviving ensures ImageOk(next, image, id) {
      assert ImageOk(s, image, id);
    }
  }

  /** Saving `next` keeps an id's part if `next` itself is fine for it: the other images were already there. */
  lemma MoveKeeps(s: State, next: Store, outcome: SaveOutcome, id: Uuid)
    requires IdInv(s, id)
    requires AllPersistable(next) ==> ImageOk(s, next, id)
    ensures IdInv(Put(s, Move(s.store, next, outcome, ()).0), id)
  {
    var after := Put(s, Move(s.store, next, outcome, ()).0);
    forall image | image in after.store.surviving ensures ImageOk(after, image, id) {
      if image != next {
        assert ImageOk(s, image, id);
      }
    }
  }

  lemma ClaimKeeps(s: State, id: Uuid, outcome: SaveOutcome)
    requires ValidDurable(s.store) && forall k :: IdInv(s, k)
    ensures forall k :: IdInv(Put(s, Claim(s.store, id, outcome).0), k)
    ensures ValidDurable(Claim(s.store, id, outcome).0)
  {
    assert ValidStore(s.store.mem);
    var mem := s.store.mem;
    if id !in mem.claimed && id in mem.reviews {
      OperationsKeepAgreement(s.store, id, mem.reviews[id], outcome);
      var next := Store(mem.reviews - {id}, mem.claimed[id := mem.reviews[id]]);
      forall k ensures IdInv(Put(s, Claim(s.store, id, outcome).0), k) {
        assert IdInv(s, k) && ImageOk(s, mem, k);
        assert ImageOk(s, next, k);
        MoveKeeps(s, next, outcome, k);
      }
    }
  }

  /** A claim that returns Ok hands out the recorded review, and no image has the id pending any more. */
  lemma ClaimedInFlight(s: State, id: Uuid, outcome: SaveOutcome)
    requires ValidDurable(s.store) && IdInv(s, id)
    requires Claim(s.store, id, outcome).1.Ok?
    ensures InFlight(Put(s, Claim(s.store, id, outcome).0), Claim(s.store, id, outcome).1.value)
    ensures Claim(s.store, id, outcome).1.value.requestId == id
    ensures AccountOf(s.trace, id).verdict.Undecided?
  {
    assert ImageOk(s, s.store.mem, id);
  }

  lemma RestoreKeeps(s: State, c: PendingReview, outcome: SaveOutcome)
    requires ValidDurable(s.store) && forall k :: IdInv(s, k)
    requires InFlight(s, c) && AccountFor(s, c).verdict.Undecided?
    ensures forall k :: IdInv(Put(s, Restore(s.store, c, outcome).0), k)
    ensures ValidDurable(Restore(s.store, c, outcome).0)
  {
    var mem, id := s.store.mem, c.requestId;
    assert ValidStore(mem);
    OperationsKeepAgreement(s.store, id, c, outcome);
    if id !in mem.reviews && id in mem.claimed && mem.claimed[id] == c {
      var next := Store(mem.reviews[id := c], mem.claimed - {id});
      forall k ensures IdInv(Put(s, Restore(s.store, c, outcome).0), k) {
        assert IdInv(s, k) && ImageOk(s, mem, k);
        assert ImageOk(s, next, k);
        MoveKeeps(s, next, outcome, k);
      }
    }
  }

  lemma ConsumeKeeps(s: State, id: Uuid, outcome: SaveOutcome)
    requires ValidDurable(s.store) && forall k :: IdInv(s, k)
    requires AccountOf(s.trace, id).settled
    ensures forall k :: IdInv(Put(s, Consume(s.store, id, outcome).0), k)
    ensures ValidDurable(Consume(s.store, id, outcome).0)
  {
    var mem := s.store.mem;
    assert ValidStore(mem);
    if id in mem.claimed {
      OperationsKeepAgreement(s.store, id, mem.claimed[id], outcome);
      var next := mem.(claimed := mem.claimed - {id});
      forall k ensures IdInv(Put(s, Consume(s.store, id, outcome).0), k) {
        assert IdInv(s, k) && ImageOk(s, mem, k);
        assert ImageOk(s, next, k);
        MoveKeeps(s, next, outcome, k);
      }
    }
  }
}
