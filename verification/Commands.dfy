/** One administrator command at a time: over every run, each record, each operation and each answer belongs to the
    command that is being served, is of its kind and about its request (src/main.rs). */
module Commands {
  import opened Wrappers
  import opened Execution
  import opened Persisted
  import opened Lifecycle
  import opened LifecycleInvariant
  import opened LifecycleSteps
  import opened Guarantees
  import StoreOperations

  // ---------------------------------------------------------------- what belongs to which command

  /** The command being served after these events. */
  function Served(trace: seq<AdminEvent>): Option<AdminCommand> {
    if trace == [] then None
    else
      match trace[|trace| - 1]
      case Began(command) => Some(command)
      case Answered(_) => None
      case Stopped => None
      case _ => Served(trace[..|trace| - 1])
  }

  /** The command whose records these are. */
  function CommandFor(id: Uuid, phase: AuditPhase): AdminCommand {
    match phase
    case Rejection => Reject(id)
    case Reconciliation => AcknowledgeClaimed(id)
    case _ => Approve(id)
  }

  /** The answers a command can get. */
  predicate CanAnswer(command: AdminCommand, answer: Answer) {
    match answer
    case Ok(Rejected(pending)) => command == Reject(pending.requestId)
    case Ok(ClaimedAcknowledged(pending)) => command == AcknowledgeClaimed(pending.requestId)
    case Ok(AcknowledgementUncertain(id)) => command == AcknowledgeClaimed(id)
    case Ok(outcome) => command == Approve(outcome.id)
    case Err(NotPending) => command.Approve?
    case Err(RevalidationFailed) => command.Approve?
    case Err(ConsumeFailedAfterExecution(_)) => command.Approve?
    case Err(ClaimFailed(_)) => command.Approve? || command.Reject?
    case Err(RestoreFailed(_)) => command.Approve? || command.Reject?
    case Err(ConsumeFailedAfterRejection(_)) => command.Reject?
    case Err(NotClaimed) => command.AcknowledgeClaimed?
    case Err(NotAcknowledged(_)) => command.AcknowledgeClaimed?
    case Err(AuditFailed) => true
    case _ => false
  }

  /** An event that may come while this command, or none, is being served. */
  predicate Belongs(served: Option<AdminCommand>, e: AdminEvent) {
    match e
    case Began(_) => served.None?
    case Revalidated(review) => served == Some(Approve(review.requestId))
    case Logged(id, phase, _) => served == Some(CommandFor(id, phase))
    case Unconfirmed(id, phase, _) => served == Some(CommandFor(id, phase))
    case Invoked(review, _) => served == Some(Approve(review.requestId))
    case Answered(answer) => served.Some? && CanAnswer(served.value, answer)
    case Stopped => true
  }

  ghost predicate AllBelong(trace: seq<AdminEvent>) {
    forall b | 0 <= b < |trace| :: Belongs(Served(trace[..b]), trace[b])
  }

  /** Where the command stands. */
  predicate Serves(admin: AdminState, served: Option<AdminCommand>) {
    match admin
    case Idle => served.None?
    case Inspecting(id) => served == Some(Approve(id))
    case Revalidating(p) => served == Some(Approve(p.requestId))
    case Claiming(p) => served == Some(Approve(p.requestId))
    case AuditingApproval(c) => served == Some(Approve(c.requestId))
    case AuditingPreExecution(c) => served == Some(Approve(c.requestId))
    case Invoking(c) => served == Some(Approve(c.requestId))
    case AuditingCompletion(c, _) => served == Some(Approve(c.requestId))
    case Consuming(c, _) => served == Some(Approve(c.requestId))
    case Restoring(c) => served == Some(Approve(c.requestId)) || served == Some(Reject(c.requestId))
    case Rejecting(id) => served == Some(Reject(id))
    case AuditingRejection(c) => served == Some(Reject(c.requestId))
    case ConsumingRejected(c) => served == Some(Reject(c.requestId))
    case ReadingClaimed(id) => served == Some(AcknowledgeClaimed(id))
    case AuditingReconciliation(c) => served == Some(AcknowledgeClaimed(c.requestId))
    case ConsumingAcknowledged(c) => served == Some(AcknowledgeClaimed(c.requestId))
  }

  ghost predicate ServingInv(s: State) {
    AllBelong(s.trace) && Serves(s.admin, Served(s.trace))
  }

  // ---------------------------------------------------------------- event by event

  function ServedThen(served: Option<AdminCommand>, e: AdminEvent): Option<AdminCommand> {
    match e
    case Began(command) => Some(command)
    case Answered(_) => None
    case Stopped => None
    case _ => served
  }

  lemma OneMoreBelongs(trace: seq<AdminEvent>, e: AdminEvent)
    requires AllBelong(trace) && Belongs(Served(trace), e)
    ensures AllBelong(trace + [e]) && Served(trace + [e]) == ServedThen(Served(trace), e)
  {
    var more := trace + [e];
    assert more[..|trace|] == trace;
    forall b | 0 <= b < |more| ensures Belongs(Served(more[..b]), more[b]) {
      if b < |trace| {
        assert more[..b] == trace[..b];
      }
    }
  }

  /** At most two events, each of which belongs. */
  ghost predicate BelongingStep(s: State, next: State) {
    var served := Served(s.trace);
    || (next.trace == s.trace && Serves(next.admin, served))
    || (exists e :: && next.trace == s.trace + [e] && Belongs(served, e) && Serves(next.admin, ServedThen(served, e)))
    || (exists e, f :: && next.trace == s.trace + [e] + [f] && Belongs(served, e) && Belongs(ServedThen(served, e), f)
                       && Serves(next.admin, ServedThen(ServedThen(served, e), f)))
  }

  lemma NoEvent(s: State, next: State)
    requires next.trace == s.trace && Serves(next.admin, Served(s.trace))
    ensures BelongingStep(s, next)
  {
  }

  lemma OneEvent(s: State, next: State, e: AdminEvent)
    requires next.trace == s.trace + [e] && Belongs(Served(s.trace), e)
    requires Serves(next.admin, ServedThen(Served(s.trace), e))
    ensures BelongingStep(s, next)
  {
  }

  lemma TwoEvents(s: State, next: State, e: AdminEvent, f: AdminEvent)
    requires next.trace == s.trace + [e] + [f]
    requires Belongs(Served(s.trace), e) && Belongs(ServedThen(Served(s.trace), e), f)
    requires Serves(next.admin, ServedThen(ServedThen(Served(s.trace), e), f))
    ensures BelongingStep(s, next)
  {
  }

  lemma BelongingStepServes(s: State, next: State)
    requires ServingInv(s) && BelongingStep(s, next)
    ensures ServingInv(next)
  {
    var served := Served(s.trace);
    if e :| next.trace == s.trace + [e] && Belongs(served, e) && Serves(next.admin, ServedThen(served, e)) {
      OneMoreBelongs(s.trace, e);
    } else if e, f :| next.trace == s.trace + [e] + [f] && Belongs(served, e) && Belongs(ServedThen(served, e), f)
                      && Serves(next.admin, ServedThen(ServedThen(served, e), f)) {
      OneMoreBelongs(s.trace, e);
      OneMoreBelongs(s.trace + [e], f);
    }
  }

  // ---------------------------------------------------------------- step by step

  lemma LookupServes(s: State, c: Choice, id: Uuid)
    requires ServingInv(s) && (s.admin == Inspecting(id) || s.admin == ReadingClaimed(id))
    requires id in s.store.mem.reviews ==> s.store.mem.reviews[id].requestId == id
    requires id in s.store.mem.claimed ==> s.store.mem.claimed[id].requestId == id
    ensures BelongingStep(s, AdminStep(s, c))
  {
    var next := AdminStep(s, c);
    if next.admin.Idle? {
      OneEvent(s, next, Answered(LastAnswer(next)));
    } else {
      NoEvent(s, next);
    }
  }

  lemma PlainServes(s: State, c: Choice)
    requires ServingInv(s) && (s.admin.Idle? || s.admin.Revalidating? || s.admin.Invoking?)
    ensures BelongingStep(s, AdminStep(s, c))
  {
    var next := AdminStep(s, c);
    match s.admin
    case Idle => NoEvent(s, next);
    case Invoking(r) => OneEvent(s, next, Invoked(r, Operate(r.request, c.world)));
    case Revalidating(p) =>
      OneEvent(s, next, if next.admin.Idle? then Answered(Err(RevalidationFailed)) else Revalidated(p));
  }

  lemma ClaimServes(s: State, c: Choice, id: Uuid)
    requires ServingInv(s)
    requires s.admin == Rejecting(id) || (s.admin.Claiming? && s.admin.pending.requestId == id)
    requires id in s.store.mem.reviews ==> s.store.mem.reviews[id].requestId == id
    ensures BelongingStep(s, AdminStep(s, c))
  {
    var next := AdminStep(s, c);
    if StoreOperations.Claim(s.store, id, c.save).1.Ok? {
      NoEvent(s, next);
    } else {
      OneEvent(s, next, Answered(LastAnswer(next)));
    }
  }

  lemma StartServes(s: State, c: Choice)
    requires ServingInv(s) && (s.admin.AuditingPreExecution? || s.admin.AuditingRejection?)
    ensures BelongingStep(s, AdminStep(s, c))
  {
    var next := AdminStep(s, c);
    var phase := if s.admin.AuditingPreExecution? then PreExecution else Rejection;
    var events := RecordEvents(c, s.admin.claimed, phase, NotExecuted);
    if events == [] {
      NoEvent(s, next);
    } else {
      OneEvent(s, next, events[0]);
    }
  }

  lemma CompletionServes(s: State, c: Choice)
    requires ServingInv(s) && s.admin.AuditingCompletion?
    ensures BelongingStep(s, AdminStep(s, c))
  {
    var next := AdminStep(s, c);
    var events := RecordEvents(c, s.admin.claimed, Completion, OutcomeOf(s.admin.returned));
    if events == [] {
      NoEvent(s, next);
    } else {
      OneEvent(s, next, events[0]);
    }
  }

  lemma ApprovalServes(s: State, c: Choice)
    requires Inv(s) && ServingInv(s) && s.admin.AuditingApproval?
    ensures BelongingStep(s, AdminStep(s, c))
  {
    FlightFacts(s, s.admin.claimed);
    var next := AdminStep(s, c);
    var events := RecordEvents(c, s.admin.claimed, Approval, NotExecuted);
    if events == [] {
      NoEvent(s, next);
    } else {
      OneEvent(s, next, events[0]);
    }
  }

  lemma ReconciliationServes(s: State, c: Choice)
    requires ServingInv(s) && s.admin.AuditingReconciliation?
    ensures BelongingStep(s, AdminStep(s, c))
  {
    var next, r := AdminStep(s, c), s.admin.claimed;
    var events := RecordEvents(c, r, Reconciliation, Unknown);
    if events == [] {
      OneEvent(s, next, Answered(Err(AuditFailed)));
    } else if c.audit.Recorded? {
      OneEvent(s, next, events[0]);
    } else {
      TwoEvents(s, next, events[0], Answered(Err(AuditFailed)));
    }
  }

  lemma RestoreServes(s: State, c: Choice)
    requires ServingInv(s) && s.admin.Restoring?
    ensures BelongingStep(s, AdminStep(s, c))
  {
    var next := AdminStep(s, c);
    OneEvent(s, next, Answered(LastAnswer(next)));
  }

  lemma ConsumingServes(s: State, c: Choice)
    requires Inv(s) && ServingInv(s) && s.admin.Consuming?
    ensures BelongingStep(s, AdminStep(s, c))
  {
    var r, next := s.admin.claimed, AdminStep(s, c);
    FlightFacts(s, r);
    var returned :| Concluded(s.trace, r, returned, s.admin.outcome);
    ApprovalReports(r, returned, true);
    ApprovalReports(r, returned, false);
    OneEvent(s, next, Answered(LastAnswer(next)));
  }

  lemma RejectionServes(s: State, c: Choice)
    requires ServingInv(s) && s.admin.ConsumingRejected?
    ensures BelongingStep(s, AdminStep(s, c))
  {
    var next := AdminStep(s, c);
    OneEvent(s, next, Answered(LastAnswer(next)));
  }

  lemma AcknowledgementServes(s: State, c: Choice)
    requires Inv(s) && ServingInv(s) && s.admin.ConsumingAcknowledged?
    ensures BelongingStep(s, AdminStep(s, c))
  {
    RecordedFacts(s, s.admin.claimed.requestId);
    var next := AdminStep(s, c);
    OneEvent(s, next, Answered(LastAnswer(next)));
  }

  lemma AdminServes(s: State, c: Choice)
    requires Inv(s) && ServingInv(s)
    ensures BelongingStep(s, AdminStep(s, c))
  {
    match s.admin
    case Inspecting(id) =>
      RecordedFacts(s, id);
      LookupServes(s, c, id);
    case ReadingClaimed(id) =>
      RecordedFacts(s, id);
      LookupServes(s, c, id);
    case Claiming(p) =>
      RecordedFacts(s, p.requestId);
      ClaimServes(s, c, p.requestId);
    case Rejecting(id) =>
      RecordedFacts(s, id);
      ClaimServes(s, c, id);
    case AuditingApproval(_) => ApprovalServes(s, c);
    case AuditingPreExecution(_) => StartServes(s, c);
    case AuditingRejection(_) => StartServes(s, c);
    case AuditingCompletion(_, _) => CompletionServes(s, c);
    case AuditingReconciliation(_) => ReconciliationServes(s, c);
    case Restoring(_) => RestoreServes(s, c);
    case Consuming(_, _) => ConsumingServes(s, c);
    case ConsumingRejected(_) => RejectionServes(s, c);
    case ConsumingAcknowledged(_) => AcknowledgementServes(s, c);
    case _ => PlainServes(s, c);
  }

  lemma AgentServes(s: State, step: Step)
    requires ServingInv(s) && Enabled(s, step) && (step.AgentBegins? || step.AgentContinues?)
    ensures BelongingStep(s, Apply(s, step))
  {
    NoEvent(s, Apply(s, step));
  }

  lemma QuietServes(s: State, step: Step)
    requires ServingInv(s) && Enabled(s, step) && !step.AdminContinues?
    ensures BelongingStep(s, Apply(s, step))
  {
    match step
    case AdminBegins(command) => OneEvent(s, Apply(s, step), Began(command));
    case ProcessDies(_) => OneEvent(s, Apply(s, step), Stopped);
    case PowerFails(_, _) => OneEvent(s, Apply(s, step), Stopped);
    case OthersMove(_) => NoEvent(s, Apply(s, step));
    case _ => AgentServes(s, step);
  }

  /** Of every run: nothing is recorded, carried out or answered but for the command being served, about its request
      and of its kind, and no command begins before the last one has been answered or the process has ended. */
  lemma {:induction false} OneCommandAtATime(run: seq<State>, k: nat)
    requires IsRun(run) && k < |run|
    ensures ServingInv(run[k])
  {
    if k == 0 {
      RunStarts(run);
    } else {
      OneCommandAtATime(run, k - 1);
      var step := StepOf(run, k);
      if step.AdminContinues? {
        AdminServes(run[k - 1], step.choice);
      } else {
        QuietServes(run[k - 1], step);
      }
      BelongingStepServes(run[k - 1], run[k]);
    }
  }

  // ---------------------------------------------------------------- what an error leaves

  /** Where memory has the request of the command. */
  function Whereabouts(s: State, id: Uuid): StoreOperations.Whereabouts {
    StoreOperations.WhereIs(s.store.mem, id)
  }

  /** A store operation in which the request was in hand has failed: nothing has changed, or it is not known whether
      the disk will still know of `moved`. */
  predicate InHandUnless(s: State, next: State, id: Uuid, error: StoreOperations.StoreError, moved: bool) {
    match error
    case NotPersisted => next.store == s.store && Whereabouts(s, id).InHand?
    case DurabilityUncertain => moved
    case _ => false
  }

  /** What an answer with this error leaves of the request of the command. */
  predicate Leaves(s: State, next: State, command: AdminCommand, error: AdminError) {
    var id := command.id;
    match error
    case NotPending => next.store == s.store && !Whereabouts(s, id).InLine?
    case NotClaimed => next.store == s.store && !Whereabouts(s, id).InHand?
    case RevalidationFailed => next.store == s.store
    case ClaimFailed(NotFound) => next.store == s.store && Whereabouts(s, id).Absent?
    case ClaimFailed(AlreadyClaimed) => next.store == s.store && Whereabouts(s, id).InHand?
    case ClaimFailed(NotPersisted) => next.store == s.store && Whereabouts(s, id).InLine?
    case ClaimFailed(DurabilityUncertain) => Whereabouts(next, id).InHand?
    case AuditFailed =>
      if command.AcknowledgeClaimed? then next.store == s.store && Whereabouts(s, id).InHand?
      else Whereabouts(next, id).InLine? && next.store.surviving == {next.store.mem}
    case RestoreFailed(e) => InHandUnless(s, next, id, e, Whereabouts(next, id).InLine?)
    case ConsumeFailedAfterExecution(e) => InHandUnless(s, next, id, e, Whereabouts(next, id).Absent?)
    case ConsumeFailedAfterRejection(e) => InHandUnless(s, next, id, e, Whereabouts(next, id).Absent?)
    case NotAcknowledged(e) => InHandUnless(s, next, id, e, false)
    case _ => false
  }

  lemma LookupLeaves(s: State, c: Choice)
    requires (s.admin.Inspecting? || s.admin.ReadingClaimed? || s.admin.Revalidating?) && AdminStep(s, c).admin.Idle?
    requires Serves(s.admin, Served(s.trace))
    ensures LastAnswer(AdminStep(s, c)).Err?
    ensures Leaves(s, AdminStep(s, c), Served(s.trace).value, LastAnswer(AdminStep(s, c)).error)
  {
  }

  lemma ClaimLeaves(s: State, c: Choice, id: Uuid)
    requires StoreOperations.ValidDurable(s.store) && Served(s.trace).Some? && Served(s.trace).value.id == id
    requires s.admin == Rejecting(id) || (s.admin.Claiming? && s.admin.pending.requestId == id)
    requires AdminStep(s, c).admin.Idle?
    ensures LastAnswer(AdminStep(s, c)).Err?
    ensures Leaves(s, AdminStep(s, c), Served(s.trace).value, LastAnswer(AdminStep(s, c)).error)
  {
    StoreOperations.ClaimMoves(s.store, id, c.save);
  }

  lemma RestoreLeaves(s: State, c: Choice)
    requires Inv(s) && s.admin.Restoring? && Serves(s.admin, Served(s.trace))
    ensures LastAnswer(AdminStep(s, c)).Err?
    ensures Leaves(s, AdminStep(s, c), Served(s.trace).value, LastAnswer(AdminStep(s, c)).error)
  {
    FlightFacts(s, s.admin.claimed);
    StoreOperations.RestoreMoves(s.store, s.admin.claimed, c.save);
  }

  lemma ConsumeLeaves(s: State, c: Choice)
    requires Inv(s) && (s.admin.ConsumingRejected? || s.admin.ConsumingAcknowledged?)
    requires Serves(s.admin, Served(s.trace)) && LastAnswer(AdminStep(s, c)).Err?
    ensures Leaves(s, AdminStep(s, c), Served(s.trace).value, LastAnswer(AdminStep(s, c)).error)
  {
    RecordedFacts(s, s.admin.claimed.requestId);
    if s.admin.ConsumingRejected? {
      FlightFacts(s, s.admin.claimed);
    }
    StoreOperations.ConsumeMoves(s.store, s.admin.claimed.requestId, c.save);
  }

  lemma ExecutionLeaves(s: State, c: Choice)
    requires Inv(s) && s.admin.Consuming? && Serves(s.admin, Served(s.trace)) && LastAnswer(AdminStep(s, c)).Err?
    ensures Leaves(s, AdminStep(s, c), Served(s.trace).value, LastAnswer(AdminStep(s, c)).error)
  {
    var r := s.admin.claimed;
    FlightFacts(s, r);
    StoreOperations.ConsumeMoves(s.store, r.requestId, c.save);
    var returned :| Concluded(s.trace, r, returned, s.admin.outcome);
    ApprovalReports(r, returned, true);
    ApprovalReports(r, returned, false);
  }

  lemma ReconciliationLeaves(s: State, c: Choice)
    requires Inv(s) && s.admin.AuditingReconciliation? && Serves(s.admin, Served(s.trace))
    requires AdminStep(s, c).admin.Idle?
    ensures LastAnswer(AdminStep(s, c)) == Err(AuditFailed)
    ensures Leaves(s, AdminStep(s, c), Served(s.trace).value, AuditFailed)
  {
    var id := s.admin.claimed.requestId;
    assert IdInv(s, id) && ImageOk(s, s.store.mem, id) && ValidStore(s.store.mem);
  }

  lemma ErrorLeaves(s: State, c: Choice)
    requires Inv(s) && Serves(s.admin, Served(s.trace))
    requires !s.admin.Idle? && AdminStep(s, c).admin.Idle? && LastAnswer(AdminStep(s, c)).Err?
    ensures Leaves(s, AdminStep(s, c), Served(s.trace).value, LastAnswer(AdminStep(s, c)).error)
  {
    match s.admin
    case Claiming(p) => ClaimLeaves(s, c, p.requestId);
    case Rejecting(id) => ClaimLeaves(s, c, id);
    case Restoring(_) => RestoreLeaves(s, c);
    case Consuming(_, _) => ExecutionLeaves(s, c);
    case ConsumingRejected(_) => ConsumeLeaves(s, c);
    case ConsumingAcknowledged(_) => ConsumeLeaves(s, c);
    case AuditingReconciliation(_) => ReconciliationLeaves(s, c);
    case AuditingApproval(_) => ApprovalGoesOn(s, c);
    case AuditingPreExecution(_) => StillGoing(s, c);
    case AuditingRejection(_) => StillGoing(s, c);
    case AuditingCompletion(_, _) => StillGoing(s, c);
    case Invoking(_) => StillGoing(s, c);
    case _ => LookupLeaves(s, c);
  }

  /** Of every run: what an error says is how memory and disk stand. What could not be found was not there; what could
      not be recorded has been put back among the pending reviews, or is still claimed; what could not be saved has
      not changed, and where only durability is uncertain memory has moved on. */
  lemma ErrorsAreTrue(run: seq<State>, k: nat, c: Choice)
    requires IsRun(run) && k + 1 < |run| && run[k + 1] == AdminStep(run[k], c)
    requires !run[k].admin.Idle? && run[k + 1].admin.Idle? && LastAnswer(run[k + 1]).Err?
    ensures Served(run[k].trace).Some?
    ensures Leaves(run[k], run[k + 1], Served(run[k].trace).value, LastAnswer(run[k + 1]).error)
  {
    RunInv(run, k);
    OneCommandAtATime(run, k);
    ErrorLeaves(run[k], c);
  }
}
