/** What an approved operation came back with, and what is said of it afterwards: over every run, its completion record
    and the administrator's answer are those that the write, the Cargo run or the POST calls for (src/main.rs). */
module Outcomes {
  import opened Wrappers
  import opened Execution
  import opened Workplace
  import opened Lifecycle
  import opened History
  import opened LifecycleInvariant
  import opened LifecycleSteps
  import opened Guarantees
  import StoreOperations

  // ---------------------------------------------------------------- what is to be said

  /** The file was written, the tests ran and passed, the POST was answered with success or a redirection. */
  predicate WentWell(request: ExecutionRequest, world: World) {
    match request
    case WriteFile(_, _) => world.write.Ok?
    case RunCargoTest => world.cargo.Spawned? && world.cargo.result.Ok? && world.cargo.result.value.success
    case HttpRequest(_, _, _) => world.http.Ok? && 200 <= world.http.value < 400
    case _ => false
  }

  /** What the executor makes of it. */
  predicate Returns(request: ExecutionRequest, world: World, returned: OperationReturn) {
    match request
    case WriteFile(_, _) => returned == if world.write.Ok? then Ok(Succeeded(None)) else Err(world.write.error)
    case RunCargoTest => (
      match world.cargo
      case NotSpawned(error) => returned == Err(error)
      case Spawned(_, Err(error)) => returned == Err(error)
      case Spawned(_, Ok(r)) =>
        returned == if r.success then Ok(Succeeded(Some(CargoTest(r)))) else Ok(FailedWithResult(CargoTest(r))))
    case HttpRequest(_, _, _) => (
      match world.http
      case Err(error) => returned == Err(error)
      case Ok(status) =>
        returned ==
        if 200 <= status < 400 then Ok(Succeeded(Some(Http(status)))) else Ok(FailedWithResult(Http(status))))
    case _ => false
  }

  /** What the administrator is told, depending on whether the completion is on record. */
  predicate Tells(outcome: AdminOutcome, review: PendingReview, world: World, recorded: bool) {
    var id := review.requestId;
    match review.request
    case WriteFile(_, _) =>
      if !recorded then outcome == CompletionAuditFailed(id, if world.write.Ok? then Success else Failed, None)
      else if world.write.Ok? then outcome == Approved(id)
      else outcome == WriteFailed(id, world.write.error)
    case RunCargoTest => (
      match world.cargo
      case NotSpawned(error) =>
        outcome == if recorded then CargoTestExecutionFailed(id, error) else CompletionAuditFailed(id, Failed, None)
      case Spawned(_, Err(error)) =>
        outcome == if recorded then CargoTestExecutionFailed(id, error) else CompletionAuditFailed(id, Failed, None)
      case Spawned(_, Ok(r)) =>
        outcome ==
        if !recorded then CompletionAuditFailed(id, if r.success then Success else Failed, Some(CargoTest(r)))
        else if r.success then CargoTestCompleted(id, r)
        else CargoTestFailed(id, r))
    case HttpRequest(_, _, _) => (
      match world.http
      case Err(error) =>
        outcome == if recorded then HttpPostExecutionFailed(id, error) else CompletionAuditFailed(id, Failed, None)
      case Ok(status) =>
        outcome ==
        if !recorded then
          CompletionAuditFailed(id, if 200 <= status < 400 then Success else Failed, Some(Http(status)))
        else if 200 <= status < 400 then HttpPostCompleted(id, status)
        else HttpPostFailed(id, status))
    case _ => false
  }

  /** That, unless the review could not be removed afterwards. */
  predicate Told(answer: Answer, review: PendingReview, world: World, recorded: bool) {
    match answer
    case Ok(outcome) => Tells(outcome, review, world, recorded)
    case Err(error) => error.ConsumeFailedAfterExecution?
  }

  /** The answers that are about an operation that was carried out. */
  predicate IsReport(answer: Answer) {
    match answer
    case Ok(outcome) => !outcome.Rejected? && !outcome.ClaimedAcknowledged? && !outcome.AcknowledgementUncertain?
    case Err(error) => error.ConsumeFailedAfterExecution?
  }

  predicate IsRecord(e: AdminEvent) {
    e.Logged? || e.Unconfirmed?
  }

  predicate IsCompletion(e: AdminEvent) {
    IsRecord(e) && e.phase.Completion?
  }

  // ---------------------------------------------------------------- where it is said

  /** Event `b` stands right behind an operation. */
  predicate RightBehind(trace: seq<AdminEvent>, b: nat) {
    0 < b <= |trace| && trace[b - 1].Invoked?
  }

  /** Event `b` stands right behind the completion record of an operation. */
  predicate BehindCompletion(trace: seq<AdminEvent>, b: nat) {
    2 <= b <= |trace| && trace[b - 2].Invoked? && IsCompletion(trace[b - 1])
  }

  /** An operation returns what it came back with. Right behind it come its completion record, which says how it went,
      or its answer, or the end of the process; behind the record come the answer or the end. Nowhere else are there
      completion records or such answers; and the other records say what has not been executed, or is not known. */
  ghost predicate SaidRight(trace: seq<AdminEvent>, sights: seq<Sight>, b: nat)
    requires b < |trace| == |sights|
  {
    var e := trace[b];
    && (e.Invoked? ==> sights[b].came.Some? && Returns(e.review.request, sights[b].came.value, e.returned))
    && (RightBehind(trace, b) ==>
          sights[b - 1].came.Some?
          && var review, world := trace[b - 1].review, sights[b - 1].came.value;
             || e.Stopped?
             || (e.Answered? && Told(e.answer, review, world, false))
             || (IsCompletion(e) && e.id == review.requestId
                 && e.outcome == if WentWell(review.request, world) then Success else Failed))
    && (BehindCompletion(trace, b) ==>
          sights[b - 2].came.Some?
          && ( || e.Stopped?
               || (e.Answered? && Told(e.answer, trace[b - 2].review, sights[b - 2].came.value, trace[b - 1].Logged?))))
    && (IsCompletion(e) ==> RightBehind(trace, b))
    && (e.Answered? && IsReport(e.answer) ==> RightBehind(trace, b) || BehindCompletion(trace, b))
    && (IsRecord(e) && !IsCompletion(e) ==> e.outcome == if e.phase.Reconciliation? then Unknown else NotExecuted)
  }

  ghost predicate AllSaidRight(trace: seq<AdminEvent>, sights: seq<Sight>) {
    && |trace| == |sights|
    && forall b | 0 <= b < |trace| :: SaidRight(trace, sights, b)
  }

  // ---------------------------------------------------------------- event by event

  /** The last event is an operation, or its completion record. */
  predicate Unanswered(trace: seq<AdminEvent>) {
    RightBehind(trace, |trace|) || BehindCompletion(trace, |trace|)
  }

  ghost predicate OutcomeInv(s: State) {
    AllSaidRight(s.trace, s.sights) && (Unanswered(s.trace) ==> !s.admin.Idle?)
  }

  lemma OneMoreSaid(trace: seq<AdminEvent>, sights: seq<Sight>, e: AdminEvent, sight: Sight)
    requires AllSaidRight(trace, sights) && SaidRight(trace + [e], sights + [sight], |trace|)
    ensures AllSaidRight(trace + [e], sights + [sight])
  {
    forall b | 0 <= b < |trace| ensures SaidRight(trace + [e], sights + [sight], b) {
      assert SaidRight(trace, sights, b);
    }
  }

  lemma UnansweredExecutes(s: State)
    requires Inv(s) && OutcomeInv(s) && Unanswered(s.trace)
    ensures Executing(s.admin)
  {
    var last := |s.trace| - 1;
    if !s.trace[last].Invoked? {
      assert s.trace[..last][last - 1].Invoked?;
      assert InvokedInCommand(s.trace[..last]);
    }
    assert InvokedInCommand(s.trace);
  }

  /** Neither an operation, nor its completion record, nor an answer about one; and a record of what it should say. */
  predicate Quiet(e: AdminEvent) {
    && !e.Invoked?
    && (IsRecord(e) ==>
          !e.phase.Completion? && e.outcome == if e.phase.Reconciliation? then Unknown else NotExecuted)
    && (e.Answered? ==> !IsReport(e.answer))
  }

  lemma QuietSaid(trace: seq<AdminEvent>, sights: seq<Sight>, e: AdminEvent, sight: Sight)
    requires AllSaidRight(trace, sights) && Quiet(e) && (Unanswered(trace) ==> e.Stopped?)
    ensures AllSaidRight(trace + [e], sights + [sight]) && !Unanswered(trace + [e])
  {
    var more := trace + [e];
    if RightBehind(more, |trace|) {
      assert RightBehind(trace, |trace|) && SaidRight(trace, sights, |trace| - 1);
    }
    if BehindCompletion(more, |trace|) {
      assert BehindCompletion(trace, |trace|) && SaidRight(trace, sights, |trace| - 2);
    }
    OneMoreSaid(trace, sights, e, sight);
  }

  // ---------------------------------------------------------------- step by step

  lemma ReturnTells(review: PendingReview, world: World, returned: OperationReturn, recorded: bool)
    requires IsPrivileged(review.request) && Returns(review.request, world, returned)
    ensures OutcomeOf(returned) == if WentWell(review.request, world) then Success else Failed
    ensures var outcome :=
              if recorded then AfterCompletion(returned)
              else CompletionAuditLost(OutcomeOf(returned), Preserved(returned));
            Told(ApprovalAnswer(review, outcome), review, world, recorded)
  {
  }

  lemma OperateReturns(request: ExecutionRequest, world: World)
    requires IsPrivileged(request)
    ensures Returns(request, world, Operate(request, world))
  {
  }

  /** What the operation came back with is what is kept of it, and the workspace is as it has left it. */
  lemma OperationStep(s: State, c: Choice)
    requires s.admin.Invoking?
    ensures var next := AdminStep(s, c);
            && next.trace == s.trace + [Invoked(s.admin.claimed, Operate(s.admin.claimed.request, c.world))]
            && next.sights == s.sights + [Sight(s.site, c.world.after, Some(c.world))]
            && next.site == c.world.after && !next.admin.Idle?
  {
  }

  lemma InvokingSaid(s: State, c: Choice)
    requires Inv(s) && OutcomeInv(s) && s.admin.Invoking?
    ensures OutcomeInv(AdminStep(s, c))
  {
    var next, r := AdminStep(s, c), s.admin.claimed;
    OperationStep(s, c);
    FlightFacts(s, r);
    OperateReturns(r.request, c.world);
    if Unanswered(s.trace) {
      UnansweredExecutes(s);
    }
    var e, sight := Invoked(r, Operate(r.request, c.world)), Sight(s.site, c.world.after, Some(c.world));
    OneMoreSaid(s.trace, s.sights, e, sight);
  }

  /** The completion record is written, or may have been, or not. */
  lemma CompletionStep(s: State, c: Choice) returns (events: seq<AdminEvent>)
    requires Inv(s) && s.admin.AuditingCompletion?
    ensures var next := AdminStep(s, c);
            && next.trace == s.trace + events && next.sights == s.sights + Still(s.site, |events|)
            && !next.admin.Idle?
    ensures events == [] || (|events| == 1 && IsCompletion(events[0]) && events[0].id == s.admin.claimed.requestId
                             && events[0].outcome == OutcomeOf(s.admin.returned))
  {
    FlightFacts(s, s.admin.claimed);
    StillSmall(s.site, s.sights);
    events := RecordEvents(c, s.admin.claimed, Completion, OutcomeOf(s.admin.returned));
  }

  lemma CompletionSaid(s: State, c: Choice)
    requires Inv(s) && OutcomeInv(s) && s.admin.AuditingCompletion?
    ensures OutcomeInv(AdminStep(s, c))
  {
    var last, r := |s.trace| - 1, s.admin.claimed;
    assert SaidRight(s.trace, s.sights, last);
    FlightFacts(s, r);
    ReturnTells(r, s.sights[last].came.value, s.admin.returned, true);
    StillSmall(s.site, s.sights);
    var events := CompletionStep(s, c);
    if events != [] {
      assert s.trace + events == s.trace + [events[0]];
      OneMoreSaid(s.trace, s.sights, events[0], Unmoved(s.site));
    } else {
      assert s.trace + events == s.trace;
    }
  }

  lemma ConsumingStep(s: State, c: Choice)
    requires Inv(s) && s.admin.Consuming?
    ensures var next, result := AdminStep(s, c), StoreOperations.Consume(s.store, s.admin.claimed.requestId, c.save).1;
            && next.trace == s.trace + [Answered(LastAnswer(next))]
            && next.sights == s.sights + [Unmoved(s.site)]
            && LastAnswer(next) == if result.Ok? then ApprovalAnswer(s.admin.claimed, s.admin.outcome)
                                   else Err(ConsumeFailedAfterExecution(result.error))
  {
  }

  /** What is said when the review has been removed, or could not be. */
  lemma ConcludedTold(trace: seq<AdminEvent>, sights: seq<Sight>, r: PendingReview, returned: OperationReturn,
                      outcome: ExecutionOutcome, answer: Answer, sight: Sight)
    requires AllSaidRight(trace, sights) && IsPrivileged(r.request) && Concluded(trace, r, returned, outcome)
    requires answer == ApprovalAnswer(r, outcome) || (answer.Err? && answer.error.ConsumeFailedAfterExecution?)
    ensures SaidRight(trace + [Answered(answer)], sights + [sight], |trace|)
  {
    var at := if LastIs(trace, Invoked(r, returned)) then |trace| - 1 else |trace| - 2;
    assert trace[at] == Invoked(r, returned) && SaidRight(trace, sights, at);
    ReturnTells(r, sights[at].came.value, returned, false);
    ReturnTells(r, sights[at].came.value, returned, true);
  }

  lemma ConsumingSaid(s: State, c: Choice)
    requires Inv(s) && OutcomeInv(s) && s.admin.Consuming?
    ensures OutcomeInv(AdminStep(s, c))
  {
    var answer := LastAnswer(AdminStep(s, c));
    var returned :| Concluded(s.trace, s.admin.claimed, returned, s.admin.outcome);
    FlightFacts(s, s.admin.claimed);
    ConsumingStep(s, c);
    ConcludedTold(s.trace, s.sights, s.admin.claimed, returned, s.admin.outcome, answer, Unmoved(s.site));
    OneMoreSaid(s.trace, s.sights, Answered(answer), Unmoved(s.site));
  }

  // ---------------------------------------------------------------- the other steps

  /** At most two events, all quiet. */
  ghost predicate QuietStep(s: State, next: State) {
    || (next.trace == s.trace && next.sights == s.sights)
    || (exists e :: Quiet(e) && next.trace == s.trace + [e] && next.sights == s.sights + [Unmoved(s.site)])
    || (exists e, f :: Quiet(e) && Quiet(f) && next.trace == s.trace + [e] + [f]
                       && next.sights == s.sights + [Unmoved(s.site)] + [Unmoved(s.site)])
  }

  lemma QuietStepSaid(s: State, next: State)
    requires OutcomeInv(s) && !Unanswered(s.trace) && QuietStep(s, next)
    ensures OutcomeInv(next)
  {
    if e :| Quiet(e) && next.trace == s.trace + [e] && next.sights == s.sights + [Unmoved(s.site)] {
      QuietSaid(s.trace, s.sights, e, Unmoved(s.site));
    } else if e, f :| Quiet(e) && Quiet(f) && next.trace == s.trace + [e] + [f]
                      && next.sights == s.sights + [Unmoved(s.site)] + [Unmoved(s.site)] {
      QuietSaid(s.trace, s.sights, e, Unmoved(s.site));
      QuietSaid(s.trace + [e], s.sights + [Unmoved(s.site)], f, Unmoved(s.site));
    }
  }

  lemma PlainQuiet(s: State, c: Choice)
    requires s.admin.Idle? || s.admin.Inspecting? || s.admin.Revalidating? || s.admin.ReadingClaimed?
    ensures QuietStep(s, AdminStep(s, c))
  {
    var next := AdminStep(s, c);
    if next.trace != s.trace {
      var e := next.trace[|s.trace|];
      assert Quiet(e) && next.trace == s.trace + [e];
    }
  }

  lemma StoreQuiet(s: State, c: Choice)
    requires MovesStore(s.admin) && !s.admin.Consuming?
    ensures QuietStep(s, AdminStep(s, c))
  {
    var next := AdminStep(s, c);
    if next.admin.Idle? {
      var e := Answered(LastAnswer(next));
      assert Quiet(e) && next.trace == s.trace + [e];
    }
  }

  lemma AuditQuiet(s: State, c: Choice)
    requires s.admin.AuditingPreExecution? || s.admin.AuditingRejection?
    ensures QuietStep(s, AdminStep(s, c))
  {
    var next := AdminStep(s, c);
    if next.trace != s.trace {
      var e := next.trace[|s.trace|];
      assert Quiet(e) && next.trace == s.trace + [e];
    }
  }

  lemma ApprovalQuiet(s: State, c: Choice)
    requires Inv(s) && s.admin.AuditingApproval?
    ensures QuietStep(s, AdminStep(s, c))
  {
    var next := AdminStep(s, c);
    FlightFacts(s, s.admin.claimed);
    if next.trace != s.trace {
      var e := next.trace[|s.trace|];
      assert Quiet(e) && next.trace == s.trace + [e];
    }
  }

  lemma ReconciliationQuiet(s: State, c: Choice)
    requires s.admin.AuditingReconciliation?
    ensures QuietStep(s, AdminStep(s, c))
  {
    var next := AdminStep(s, c);
    if next.trace != s.trace {
      var e := next.trace[|s.trace|];
      assert Quiet(e);
      if |next.trace| > |s.trace| + 1 {
        var f := next.trace[|s.trace| + 1];
        assert Quiet(f) && next.trace == s.trace + [e] + [f];
      } else {
        assert next.trace == s.trace + [e];
      }
    }
  }

  lemma OtherStepsQuiet(s: State, c: Choice)
    requires Inv(s) && !Executing(s.admin) && !s.admin.Invoking?
    ensures QuietStep(s, AdminStep(s, c))
  {
    match s.admin
    case AuditingApproval(_) => ApprovalQuiet(s, c);
    case AuditingReconciliation(_) => ReconciliationQuiet(s, c);
    case AuditingPreExecution(_) => AuditQuiet(s, c);
    case AuditingRejection(_) => AuditQuiet(s, c);
    case Idle => PlainQuiet(s, c);
    case Inspecting(_) => PlainQuiet(s, c);
    case Revalidating(_) => PlainQuiet(s, c);
    case ReadingClaimed(_) => PlainQuiet(s, c);
    case _ => StoreQuiet(s, c);
  }

  lemma OtherSaid(s: State, c: Choice)
    requires Inv(s) && OutcomeInv(s) && !Executing(s.admin) && !s.admin.Invoking?
    ensures OutcomeInv(AdminStep(s, c))
  {
    OtherStepsQuiet(s, c);
    if Unanswered(s.trace) {
      UnansweredExecutes(s);
    }
    QuietStepSaid(s, AdminStep(s, c));
  }

  lemma AdminSaid(s: State, c: Choice)
    requires Inv(s) && OutcomeInv(s)
    ensures OutcomeInv(AdminStep(s, c))
  {
    match s.admin
    case Invoking(_) => InvokingSaid(s, c);
    case AuditingCompletion(_, _) => CompletionSaid(s, c);
    case Consuming(_, _) => ConsumingSaid(s, c);
    case _ => OtherSaid(s, c);
  }

  /** The trace and where the command stands are as they were. */
  predicate NothingSaid(s: State, next: State) {
    next.trace == s.trace && next.sights == s.sights && next.admin == s.admin
  }

  lemma AgentSaysNothing(s: State, step: Step)
    requires Enabled(s, step) && (step.AgentBegins? || step.AgentContinues? || step.OthersMove?)
    ensures NothingSaid(s, Apply(s, step))
  {
  }

  lemma StepSaid(s: State, step: Step)
    requires Inv(s) && OutcomeInv(s) && Enabled(s, step)
    ensures OutcomeInv(Apply(s, step))
  {
    match step
    case AdminBegins(command) => QuietSaid(s.trace, s.sights, Began(command), Unmoved(s.site));
    case AdminContinues(c) => AdminSaid(s, c);
    case ProcessDies(_) => QuietSaid(s.trace, s.sights, Stopped, Unmoved(s.site));
    case PowerFails(_, _) => QuietSaid(s.trace, s.sights, Stopped, Unmoved(s.site));
    case _ => AgentSaysNothing(s, step);
  }

  /** Of every run: what each operation came back with is what its completion record and its answer say, and nothing
      else is ever said of an operation. */
  lemma {:induction false} RunSaysWhatCameBack(run: seq<State>, k: nat)
    requires IsRun(run) && k < |run|
    ensures OutcomeInv(run[k])
  {
    if k == 0 {
      RunStarts(run);
    } else {
      RunSaysWhatCameBack(run, k - 1);
      var step := StepOf(run, k);
      StepSaid(run[k - 1], step);
    }
  }

  /** In every run, success is reported only of what went well, by an operation for that very request, and stands right
      behind the record that says so. */
  lemma SuccessIsEarned(run: seq<State>, k: nat, b: nat)
    requires IsRun(run) && k < |run| && b < |run[k].trace| == |run[k].sights|
    requires run[k].trace[b].Answered? && run[k].trace[b].answer.Ok?
    requires var outcome := run[k].trace[b].answer.value;
             outcome.Approved? || outcome.CargoTestCompleted? || outcome.HttpPostCompleted?
    ensures var outcome := run[k].trace[b].answer.value;
            && 2 <= b && InvokedAt(run[k].trace, b - 2, outcome.id) && run[k].sights[b - 2].came.Some?
            && run[k].trace[b - 1] == Logged(outcome.id, Completion, Success)
            && var request, world := run[k].trace[b - 2].review.request, run[k].sights[b - 2].came.value;
               match outcome
               case Approved(_) => request.WriteFile? && world.write.Ok?
               case CargoTestCompleted(_, r) =>
                 request.RunCargoTest? && world.cargo.Spawned? && world.cargo.result == Ok(r) && r.success
               case HttpPostCompleted(_, status) =>
                 request.HttpRequest? && world.http == Ok(status) && 200 <= status < 400
  {
    RunSaysWhatCameBack(run, k);
    assert SaidRight(run[k].trace, run[k].sights, b);
    assert SaidRight(run[k].trace, run[k].sights, b - 1);
  }
}
