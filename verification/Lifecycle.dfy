/** The gateway as a state machine (src/main.rs): one administrator command at a time, any number of
    agent calls interleaved with it between lock sections, any outcome of every save, audit write and
    operation, and process death or power loss at any step. */
module Lifecycle {
  import opened Wrappers
  import opened Execution
  import opened Persisted
  import opened StoreOperations
  import opened Workplace
  import Fingerprint
  import Policy

  // ---------------------------------------------------------------- audit and results

  datatype AuditPhase = Approval | Rejection | PreExecution | Completion | Reconciliation

  datatype Outcome = Success | Failed | NotExecuted | Unknown

  // The call returned Ok; it failed leaving no record; it failed after the record was written.
  datatype AuditResult = Recorded | NotRecorded | MaybeRecorded

  datatype ExecutionResult = CargoTest(cargo: CargoTestResult) | Http(status: nat)

  datatype ReviewedResult = Succeeded(result: Option<ExecutionResult>) | FailedWithResult(failure: ExecutionResult)

  type OperationReturn = Result<ReviewedResult, string>

  /** The side effect an approved request stands for, as the closures around the executors return it. */
  function Operate(request: ExecutionRequest, world: World): OperationReturn {
    match request
    case WriteFile(_, _) =>
      if world.write.Ok? then Ok(Succeeded(None)) else Err(world.write.error)
    case RunCargoTest =>
      if world.cargo.NotSpawned? then Err(world.cargo.error)
      else if world.cargo.result.Err? then Err(world.cargo.result.error)
      else if world.cargo.result.value.success then Ok(Succeeded(Some(CargoTest(world.cargo.result.value))))
      else Ok(FailedWithResult(CargoTest(world.cargo.result.value)))
    case _ =>
      if world.http.Err? then Err(world.http.error)
      else if 200 <= world.http.value < 400 then Ok(Succeeded(Some(Http(world.http.value))))
      else Ok(FailedWithResult(Http(world.http.value)))
  }

  function OutcomeOf(returned: OperationReturn): Outcome {
    if returned.Ok? && returned.value.Succeeded? then Success else Failed
  }

  function Preserved(returned: OperationReturn): Option<ExecutionResult> {
    if returned.Err? then None
    else if returned.value.Succeeded? then returned.value.result
    else Some(returned.value.failure)
  }

  datatype ExecutionOutcome =
    | Completed
    | CompletedWithResult(result: ExecutionResult)
    | ExecutionFailed(error: string)
    | ExecutionFailedWithResult(result: ExecutionResult)
    | CompletionAuditLost(outcome: Outcome, preserved: Option<ExecutionResult>)

  function AfterCompletion(returned: OperationReturn): ExecutionOutcome {
    match returned
    case Err(error) => ExecutionFailed(error)
    case Ok(FailedWithResult(result)) => ExecutionFailedWithResult(result)
    case Ok(Succeeded(None)) => Completed
    case Ok(Succeeded(Some(result))) => CompletedWithResult(result)
  }

  datatype AdminOutcome =
    | Approved(id: Uuid)
    | Rejected(pending: PendingReview)
    | ClaimedAcknowledged(pending: PendingReview)
    | AcknowledgementUncertain(id: Uuid)
    | WriteFailed(id: Uuid, error: string)
    | CargoTestCompleted(id: Uuid, cargo: CargoTestResult)
    | CargoTestFailed(id: Uuid, cargo: CargoTestResult)
    | CargoTestExecutionFailed(id: Uuid, error: string)
    | HttpPostCompleted(id: Uuid, status: nat)
    | HttpPostFailed(id: Uuid, status: nat)
    | HttpPostExecutionFailed(id: Uuid, error: string)
    | CompletionAuditFailed(id: Uuid, outcome: Outcome, result: Option<ExecutionResult>)

  datatype AdminError =
    | NotPending
    | NotClaimed
    | RevalidationFailed
    | ClaimFailed(error: StoreError)
    | AuditFailed
    | RestoreFailed(error: StoreError)
    | ConsumeFailedAfterExecution(error: StoreError)
    | ConsumeFailedAfterRejection(error: StoreError)
    | NotAcknowledged(error: StoreError)
    | NotEligible
    | MissingFingerprint
    | UnexpectedResult
    | NoExecutionResult

  type Answer = Result<AdminOutcome, AdminError>

  /** How the administrator is told what an approved execution came to. */
  function ApprovalAnswer(claimed: PendingReview, outcome: ExecutionOutcome): Answer {
    var id := claimed.requestId;
    match claimed.request
    case WriteFile(_, _) => (
      match outcome
      case Completed => Ok(Approved(id))
      case ExecutionFailed(error) => Ok(WriteFailed(id, error))
      case CompletionAuditLost(o, _) => Ok(CompletionAuditFailed(id, o, None))
      case _ => Err(UnexpectedResult))
    case RunCargoTest => (
      match outcome
      case CompletedWithResult(CargoTest(result)) => Ok(CargoTestCompleted(id, result))
      case ExecutionFailedWithResult(CargoTest(result)) => Ok(CargoTestFailed(id, result))
      case ExecutionFailed(error) => Ok(CargoTestExecutionFailed(id, error))
      case CompletionAuditLost(o, r) => Ok(CompletionAuditFailed(id, o, r))
      case Completed => Err(NoExecutionResult)
      case _ => Err(UnexpectedResult))
    case _ => (
      match outcome
      case CompletedWithResult(Http(status)) => Ok(HttpPostCompleted(id, status))
      case ExecutionFailedWithResult(Http(status)) => Ok(HttpPostFailed(id, status))
      case ExecutionFailed(error) => Ok(HttpPostExecutionFailed(id, error))
      case CompletionAuditLost(o, r) => Ok(CompletionAuditFailed(id, o, r))
      case Completed => Err(NoExecutionResult)
      case _ => Err(UnexpectedResult))
  }

  // ---------------------------------------------------------------- state

  datatype AdminCommand = Approve(id: Uuid) | Reject(id: Uuid) | AcknowledgeClaimed(id: Uuid)

  // Where the administrator's command stands; each state is one lock section or one outside call.
  datatype AdminState =
    | Idle
    | Inspecting(id: Uuid)
    | Revalidating(pending: PendingReview)
    | Claiming(pending: PendingReview)
    | AuditingApproval(claimed: PendingReview)
    | AuditingPreExecution(claimed: PendingReview)
    | Invoking(claimed: PendingReview)
    | AuditingCompletion(claimed: PendingReview, returned: OperationReturn)
    | Consuming(claimed: PendingReview, outcome: ExecutionOutcome)
    | Restoring(claimed: PendingReview)
    | Rejecting(id: Uuid)
    | AuditingRejection(claimed: PendingReview)
    | ConsumingRejected(claimed: PendingReview)
    | ReadingClaimed(id: Uuid)
    | AuditingReconciliation(claimed: PendingReview)
    | ConsumingAcknowledged(claimed: PendingReview)

  // Where one agent call stands, after its id was drawn and its request evaluated.
  datatype AgentState =
    | Holding(review: PendingReview)
    | Reporting(request: ExecutionRequest, decision: Policy.Decision, purpose: string)
    | AuditingStart(request: ExecutionRequest)
    | Running(request: ExecutionRequest)
    | AuditingEnd(outcome: Outcome)

  // What happened on the administrator's side, in order. `Logged` is a record whose write returned Ok.
  datatype AdminEvent =
    | Began(command: AdminCommand)
    | Revalidated(review: PendingReview)
    | Logged(id: Uuid, phase: AuditPhase, outcome: Outcome)
    | Unconfirmed(id: Uuid, phase: AuditPhase, outcome: Outcome)
    | Invoked(review: PendingReview, returned: OperationReturn)
    | Answered(answer: Answer)
    | Stopped

  datatype AgentError = NotCaptured | NotInserted(error: StoreError) | InvalidPurpose | NotAudited

  datatype AgentEvent =
    | AgentLogged(id: Uuid, phase: AuditPhase, outcome: Outcome)
    | AgentInvoked(id: Uuid, request: ExecutionRequest, succeeded: bool)
    | AgentRefused(id: Uuid, request: ExecutionRequest)  // the arms that say approval is required
    | AgentFailed(id: Uuid, error: AgentError)           // the call has ended with an error

  datatype State = State(
    home: Home,
    site: Site,
    config: Policy.Config,
    store: DurableStore,
    admin: AdminState,
    agents: map<Uuid, AgentState>,
    used: set<Uuid>,
    recorded: map<Uuid, PendingReview>,  // the review each held id was recorded with
    held: set<Uuid>,                     // ids whose insertion returned Ok
    trace: seq<AdminEvent>,
    sights: seq<Sight>,                  // the workspace at each event of `trace`
    agentTrace: seq<AgentEvent>)

  function Note(s: State, e: AdminEvent): State {
    s.(trace := s.trace + [e], sights := s.sights + [Unmoved(s.site)])
  }

  /** The operation is invoked, and the workspace is as it has left it. */
  function Act(s: State, claimed: PendingReview, returned: OperationReturn, world: World): State {
    s.(trace := s.trace + [Invoked(claimed, returned)], sights := s.sights + [Seen(s.site, world)],
       site := world.after)
  }

  function Goto(s: State, admin: AdminState): State {
    s.(admin := admin)
  }

  function Reply(s: State, answer: Answer): State {
    Goto(Note(s, Answered(answer)), Idle)
  }

  function Put(s: State, store: DurableStore): State {
    s.(store := store)
  }

  // ---------------------------------------------------------------- administrator steps

  // Everything the environment decides during one step.
  datatype Choice = Choice(
    save: SaveOutcome, audit: AuditResult, valid: bool, world: World, reading: Fingerprint.Reading)

  /** An audit write for `claimed`: the state after it when it returns Ok, and when it does not. A
      request with no review reason fails before anything is written. */
  function Audit(
    s: State, c: Choice, claimed: PendingReview, phase: AuditPhase, outcome: Outcome,
    ok: AdminState): Option<State>
  {
    if Policy.ReviewReason(claimed.request).Some? && c.audit.Recorded?
      then Some(Goto(Note(s, Logged(claimed.requestId, phase, outcome)), ok))
    else None
  }

  function AuditMissed(s: State, c: Choice, claimed: PendingReview, phase: AuditPhase, outcome: Outcome): State {
    if Policy.ReviewReason(claimed.request).Some? && c.audit.MaybeRecorded?
      then Note(s, Unconfirmed(claimed.requestId, phase, outcome))
    else s
  }

  /** The parts of revalidation the review itself decides; the rest is the environment's answer. */
  predicate CanRevalidate(pending: PendingReview) {
    match pending.request
    case WriteFile(_, _) => pending.writeTargetState.Some?
    case RunCargoTest => pending.workspaceFingerprint.Some?
    case HttpRequest(verb, _, _) => verb.Post?
    case _ => false
  }

  /** One step of the command in progress. */
  function AdminStep(s: State, c: Choice): State {
    match s.admin
    case Idle => s
    case Inspecting(id) =>
      if id in s.store.mem.reviews then Goto(s, Revalidating(s.store.mem.reviews[id]))
      else Reply(s, Err(NotPending))
    case Revalidating(pending) =>
      if CanRevalidate(pending) && c.valid then Goto(Note(s, Revalidated(pending)), Claiming(pending))
      else Reply(s, Err(RevalidationFailed))
    case Claiming(pending) =>
      var (store, result) := Claim(s.store, pending.requestId, c.save);
      if result.Ok? then Goto(Put(s, store), AuditingApproval(result.value))
      else Reply(Put(s, store), Err(ClaimFailed(result.error)))
    case AuditingApproval(claimed) => (
      match Audit(s, c, claimed, Approval, NotExecuted, AuditingPreExecution(claimed))
      case None => Goto(AuditMissed(s, c, claimed, Approval, NotExecuted), Restoring(claimed))
      case Some(next) =>
        if claimed.request.RunCargoTest? && claimed.workspaceFingerprint.None? then
          Reply(next, Err(AdminError.MissingFingerprint))
        else if !IsPrivileged(claimed.request) then Reply(next, Err(NotEligible))
        else next)
    case AuditingPreExecution(claimed) => (
      match Audit(s, c, claimed, PreExecution, NotExecuted, Invoking(claimed))
      case None => Goto(AuditMissed(s, c, claimed, PreExecution, NotExecuted), Restoring(claimed))
      case Some(next) => next)
    case Invoking(claimed) =>
      var returned := Operate(claimed.request, c.world);
      Goto(Act(s, claimed, returned, c.world), AuditingCompletion(claimed, returned))
    case AuditingCompletion(claimed, returned) => (
      match Audit(s, c, claimed, Completion, OutcomeOf(returned), Consuming(claimed, AfterCompletion(returned)))
      case None =>
        Goto(AuditMissed(s, c, claimed, Completion, OutcomeOf(returned)),
             Consuming(claimed, CompletionAuditLost(OutcomeOf(returned), Preserved(returned))))
      case Some(next) => next)
    case Consuming(claimed, outcome) =>
      var (store, result) := Consume(s.store, claimed.requestId, c.save);
      Reply(Put(s, store),
            if result.Ok? then ApprovalAnswer(claimed, outcome) else Err(ConsumeFailedAfterExecution(result.error)))
    case Restoring(claimed) =>
      var (store, result) := Restore(s.store, claimed, c.save);
      Reply(Put(s, store), Err(if result.Ok? then AuditFailed else RestoreFailed(result.error)))
    case Rejecting(id) =>
      var (store, result) := Claim(s.store, id, c.save);
      if result.Ok? then Goto(Put(s, store), AuditingRejection(result.value))
      else Reply(Put(s, store), Err(ClaimFailed(result.error)))
    case AuditingRejection(claimed) => (
      match Audit(s, c, claimed, Rejection, NotExecuted, ConsumingRejected(claimed))
      case None => Goto(AuditMissed(s, c, claimed, Rejection, NotExecuted), Restoring(claimed))
      case Some(next) => next)
    case ConsumingRejected(claimed) =>
      var (store, result) := Consume(s.store, claimed.requestId, c.save);
      Reply(Put(s, store),
            if result.Ok? then Ok(AdminOutcome.Rejected(claimed)) else Err(ConsumeFailedAfterRejection(result.error)))
    case ReadingClaimed(id) =>
      if id in s.store.mem.claimed then Goto(s, AuditingReconciliation(s.store.mem.claimed[id]))
      else Reply(s, Err(NotClaimed))
    case AuditingReconciliation(claimed) => (
      match Audit(s, c, claimed, Reconciliation, Unknown, ConsumingAcknowledged(claimed))
      case None => Reply(AuditMissed(s, c, claimed, Reconciliation, Unknown), Err(AuditFailed))
      case Some(next) => next)
    case ConsumingAcknowledged(claimed) =>
      var (store, result) := Consume(s.store, claimed.requestId, c.save);
      Reply(Put(s, store),
            if result.Ok? then Ok(ClaimedAcknowledged(result.value))
            else if result.error.DurabilityUncertain? then Ok(AcknowledgementUncertain(claimed.requestId))
            else Err(NotAcknowledged(result.error)))
  }

  function Begin(s: State, command: AdminCommand): State {
    Goto(Note(s, Began(command)),
      match command
      case Approve(id) => Inspecting(id)
      case Reject(id) => Rejecting(id)
      case AcknowledgeClaimed(id) => ReadingClaimed(id))
  }

  // ---------------------------------------------------------------- agent steps

  /** The review built for a request that must be reviewed. */
  function BuildReview(
    id: Uuid, request: ExecutionRequest, purpose: string, evidence: Evidence): Option<PendingReview>
  {
    match request
    case RunCargoTest =>
      if evidence.fingerprint.None? then None
      else Some(PendingReview(id, request, purpose, evidence.fingerprint, None))
    case WriteFile(_, _) =>
      if evidence.target.None? then None
      else Some(PendingReview(id, request, purpose, None, evidence.target))
    case _ => Some(PendingReview(id, request, purpose, None, None))
  }

  function AgentNote(s: State, e: AgentEvent): State {
    s.(agentTrace := s.agentTrace + [e])
  }

  /** A new agent call: a fresh id is drawn and the request is evaluated. */
  function AgentStart(
    s: State, id: Uuid, request: ExecutionRequest, inScope: bool, purpose: string, evidence: Evidence): State
  {
    var decision := Policy.EvaluateRequest(request, inScope, s.config).decision;
    var drawn := s.(used := s.used + {id});
    if decision.Review? then
      match BuildReview(id, request, purpose, evidence)
      case None => AgentNote(drawn, AgentFailed(id, NotCaptured))
      case Some(review) =>
        drawn.(agents := s.agents[id := Holding(review)], recorded := s.recorded[id := review])
    else drawn.(agents := s.agents[id := Reporting(request, decision, purpose)])
  }

  function AgentGoto(s: State, id: Uuid, agent: AgentState): State {
    s.(agents := s.agents[id := agent])
  }

  function AgentDone(s: State, id: Uuid): State {
    s.(agents := s.agents - {id})
  }

  function AgentFails(s: State, id: Uuid, error: AgentError): State {
    AgentDone(AgentNote(s, AgentFailed(id, error)), id)
  }

  /** One step of the agent call with this id. */
  function AgentStep(s: State, id: Uuid, c: Choice): State
    requires id in s.agents
  {
    match s.agents[id]
    case Holding(review) =>
      var (store, result) := Insert(s.store, review, c.save);
      if result.Ok? then
        AgentGoto(Put(s, store).(held := s.held + {id}), id, Reporting(review.request, Policy.Review, review.purpose))
      else AgentFails(Put(s, store), id, NotInserted(result.error))
    case Reporting(request, decision, purpose) =>
      // The purpose text is checked here, after a review is already held.
      if !ValidPurpose(s.home, purpose) then AgentFails(s, id, InvalidPurpose)
      else if decision.Allow? then AgentGoto(s, id, AuditingStart(request))
      else AgentGoto(s, id, AuditingEnd(NotExecuted))
    case AuditingStart(request) =>
      if c.audit.Recorded?
        then AgentGoto(AgentNote(s, AgentLogged(id, PreExecution, NotExecuted)), id, Running(request))
      else AgentFails(s, id, NotAudited)
    case Running(request) =>
      if IsPrivileged(request) then AgentGoto(AgentNote(s, AgentRefused(id, request)), id, AuditingEnd(Failed))
      else
        AgentGoto(AgentNote(s, AgentInvoked(id, request, c.valid)), id,
                  AuditingEnd(if c.valid then Success else Failed))
    case AuditingEnd(outcome) =>
      AgentDone(if c.audit.Recorded? then AgentNote(s, AgentLogged(id, Completion, outcome)) else s, id)
  }

  // ---------------------------------------------------------------- failures and steps

  /** Every command and call in progress is lost; the process starts again with a valid configuration. */
  function Stop(s: State, config: Policy.Config, store: DurableStore): State {
    Goto(Note(s, Stopped), Idle).(config := config, agents := map[], store := store)
  }

  datatype Step =
    | AdminBegins(command: AdminCommand)
    | AdminContinues(choice: Choice)
    | AgentBegins(id: Uuid, request: ExecutionRequest, inScope: bool, purpose: string, evidence: Evidence,
                  reading: Fingerprint.Reading)
    | AgentContinues(id: Uuid, choice: Choice)
    | ProcessDies(config: Policy.Config)
    | PowerFails(config: Policy.Config, image: Store)
    | OthersMove(site: Site)  // anyone else changes the workspace

  /** What the environment can decide at this point: a revalidation succeeds only if it finds what was recorded,
      and an operation does what it can. */
  ghost predicate Allowed(s: State, c: Choice) {
    match s.admin
    case Revalidating(pending) => c.valid ==> Revalidates(s.home, s.site, pending, c.reading)
    case Invoking(claimed) => Possible(s.home, s.site, claimed, c.world)
    case _ => true
  }

  ghost predicate Enabled(s: State, step: Step) {
    match step
    case AdminBegins(_) => s.admin.Idle?
    case AdminContinues(choice) => !s.admin.Idle? && Allowed(s, choice)
    case AgentBegins(id, request, _, _, evidence, reading) =>
      id !in s.used && Captured(s.home, s.site, request, evidence, reading)
    case AgentContinues(id, _) => id in s.agents
    case ProcessDies(config) => Policy.ValidConfig(config)
    case PowerFails(config, image) => Policy.ValidConfig(config) && image in s.store.surviving
    case OthersMove(site) => ValidSite(s.home, site)
  }

  ghost function Apply(s: State, step: Step): State
    requires Enabled(s, step)
  {
    match step
    case AdminBegins(command) => Begin(s, command)
    case AdminContinues(choice) => AdminStep(s, choice)
    case AgentBegins(id, request, inScope, purpose, evidence, _) =>
      AgentStart(s, id, request, inScope, purpose, evidence)
    case AgentContinues(id, choice) => AgentStep(s, id, choice)
    case ProcessDies(config) => Stop(s, config, Restart(s.store))
    case PowerFails(config, image) => Stop(s, config, Recover(image))
    case OthersMove(site) => s.(site := site)
  }

  /** The gateway's first start: no state file, nothing drawn, nothing logged. */
  ghost predicate Init(s: State) {
    && Policy.ValidConfig(s.config) && ValidSite(s.home, s.site)
    && s == State(s.home, s.site, s.config, Recover(EMPTY_STORE), Idle, map[], {}, map[], {}, [], [], [])
  }

  ghost predicate Taken(s: State, step: Step, next: State) {
    Enabled(s, step) && next == Apply(s, step)
  }

  ghost predicate Next(s: State, next: State) {
    exists step :: Taken(s, step, next)
  }

  /** The run comes to its state `k` as it may. */
  ghost predicate Linked(run: seq<State>, k: nat)
    requires k < |run|
  {
    if k == 0 then Init(run[0]) else Next(run[k - 1], run[k])
  }

  ghost predicate IsRun(run: seq<State>) {
    |run| > 0 && forall k {:trigger Linked(run, k)} | 0 <= k < |run| :: Linked(run, k)
  }
}
