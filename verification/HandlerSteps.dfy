/** What the methods of the handler are proved against: which step of the machine each section of a command
    takes, what it records, and how it ends. */
module HandlerSteps {
  import opened Wrappers
  import opened Execution
  import opened Persisted
  import opened StoreOperations
  import opened Workplace
  import opened Room
  import opened Lifecycle
  import opened LifecycleInvariant
  import opened LifecycleSteps
  import opened Guarantees
  import opened Finality
  import AuditLog
  import Binding
  import Disk
  import Fingerprint
  import Policy
  import ReviewStore
  import WriteFile

  type GatewayState = Lifecycle.State

  // ---------------------------------------------------------------- answers

  /** The command has ended with this answer, and the answer is true. */
  ghost predicate Replied(s: GatewayState, answer: Answer) {
    && s.admin.Idle?
    && LastAnswer(s) == answer
    && exists trace :: s.trace == trace + [Answered(answer)] && Truthful(trace, s, answer)
  }

  lemma ReplyIsTrue(s: GatewayState, c: Choice)
    requires Inv(s) && !s.admin.Idle? && AdminStep(s, c).admin.Idle?
    ensures Replied(AdminStep(s, c), LastAnswer(AdminStep(s, c)))
  {
    var trace := AnswersAreTruthful(s, c);
  }

  /** The answers that something unexpected came back do not occur. */
  lemma ApprovalAnswered(s: GatewayState, claimed: PendingReview, outcome: ExecutionOutcome)
    requires Replied(s, ApprovalAnswer(claimed, outcome))
    ensures ApprovalAnswer(claimed, outcome).Ok?
  {
  }

  /** What a command comes to when nothing fails. An approval may find that things have changed. */
  predicate Served(before: Store, command: AdminCommand, answer: Answer) {
    match command
    case Approve(id) =>
      if id in before.reviews then answer.Ok? || answer == Err(RevalidationFailed) else answer == Err(NotPending)
    case Reject(id) =>
      if id in before.reviews then answer == Ok(AdminOutcome.Rejected(before.reviews[id])) else answer.Err?
    case AcknowledgeClaimed(id) =>
      if id in before.claimed then answer == Ok(ClaimedAcknowledged(before.claimed[id])) else answer == Err(NotClaimed)
  }

  /** The answers were given at these points of the run, one after another, and were true there. */
  ghost predicate AnsweredInOrder(run: seq<GatewayState>, answers: seq<Answer>, ends: seq<nat>) {
    && |ends| == |answers|
    && (forall i | 0 <= i < |ends| :: ends[i] < |run| && Replied(run[ends[i]], answers[i]))
    && forall i, j | 0 <= i < j < |ends| :: ends[i] < ends[j]
  }

  lemma StillAnswered(before: seq<GatewayState>, run: seq<GatewayState>, answers: seq<Answer>, ends: seq<nat>)
    requires AnsweredInOrder(before, answers, ends) && Grew(before, run)
    ensures AnsweredInOrder(run, answers, ends)
    ensures |run| > |before| ==> forall i | 0 <= i < |ends| :: ends[i] < |run| - 1
  {
  }

  lemma OneMoreAnswer(run: seq<GatewayState>, answers: seq<Answer>, ends: seq<nat>, answer: Answer)
    requires AnsweredInOrder(run, answers, ends) && forall i | 0 <= i < |ends| :: ends[i] < |run| - 1
    requires run != [] && Replied(run[|run| - 1], answer)
    ensures AnsweredInOrder(run, answers + [answer], ends + [|run| - 1])
  {
  }

  /** A later part of the run that ends with an answer. */
  lemma AnsweredNext(
    before: seq<GatewayState>, run: seq<GatewayState>, answers: seq<Answer>, ends: seq<nat>, answer: Answer)
    requires AnsweredInOrder(before, answers, ends) && Grew(before, run) && |run| > |before|
    requires Replied(run[|run| - 1], answer)
    ensures AnsweredInOrder(run, answers + [answer], ends + [|run| - 1])
  {
    StillAnswered(before, run, answers, ends);
    OneMoreAnswer(run, answers, ends, answer);
  }

  // ---------------------------------------------------------------- records

  predicate Recording(admin: AdminState) {
    admin.AuditingApproval? || admin.AuditingPreExecution? || admin.AuditingCompletion? || admin.AuditingRejection?
  }

  /** What the command is about to record about the review it has claimed. */
  function RecordOf(admin: AdminState): (AuditPhase, Outcome)
    requires Recording(admin)
  {
    match admin
    case AuditingApproval(_) => (Approval, NotExecuted)
    case AuditingPreExecution(_) => (PreExecution, NotExecuted)
    case AuditingCompletion(_, returned) => (Completion, OutcomeOf(returned))
    case AuditingRejection(_) => (Rejection, NotExecuted)
  }

  predicate Audits(admin: AdminState, claimed: PendingReview, phase: AuditPhase, outcome: Outcome) {
    Recording(admin) && admin.claimed == claimed && RecordOf(admin) == (phase, outcome)
  }

  function AfterRecord(admin: AdminState, recorded: bool): AdminState {
    match admin
    case AuditingApproval(r) => if recorded then AuditingPreExecution(r) else Restoring(r)
    case AuditingPreExecution(r) => if recorded then Invoking(r) else Restoring(r)
    case AuditingCompletion(r, returned) =>
      Consuming(r, if recorded then AfterCompletion(returned)
                   else CompletionAuditLost(OutcomeOf(returned), Preserved(returned)))
    case AuditingRejection(r) => if recorded then ConsumingRejected(r) else Restoring(r)
    case _ => admin
  }

  lemma RecordStep(s: GatewayState, c: Choice)
    requires Inv(s) && Recording(s.admin)
    ensures AdminStep(s, c).admin == AfterRecord(s.admin, c.audit.Recorded?)
    ensures Policy.ReviewReason(s.admin.claimed.request).Some?
  {
    FlightFacts(s, s.admin.claimed);
  }

  lemma ReconciliationRecordStep(s: GatewayState, c: Choice)
    requires Inv(s) && s.admin.AuditingReconciliation?
    ensures Policy.ReviewReason(s.admin.claimed.request).Some?
    ensures if c.audit.Recorded? then AdminStep(s, c).admin == ConsumingAcknowledged(s.admin.claimed)
            else AdminStep(s, c).admin.Idle? && LastAnswer(AdminStep(s, c)) == Err(AuditFailed)
  {
    assert IdInv(s, s.admin.claimed.requestId);
  }

  type RecordText = (Uuid, AuditPhase, Outcome) -> string

  /** The texts of the records a trace has from some point on, in order. */
  function Texts(trace: seq<AdminEvent>, life: nat, text: RecordText): seq<string> {
    if |trace| <= life then []
    else
      Texts(trace[..|trace| - 1], life, text) +
      match trace[|trace| - 1]
      case Logged(id, phase, outcome) => [text(id, phase, outcome)]
      case _ => []
  }

  lemma TextsMore(trace: seq<AdminEvent>, e: AdminEvent, life: nat, text: RecordText)
    requires life <= |trace|
    ensures Texts(trace + [e], life, text) ==
            Texts(trace, life, text) + if e.Logged? then [text(e.id, e.phase, e.outcome)] else []
    ensures !e.Logged? ==> Texts(trace + [e], life, text) == Texts(trace, life, text)
  {
    assert (trace + [e])[..|trace|] == trace;
    assert Texts(trace, life, text) + [] == Texts(trace, life, text);
  }

  /** The text the step adds to the records. */
  function NewTexts(s: GatewayState, c: Choice, text: RecordText): seq<string> {
    if !c.audit.Recorded? then []
    else if Recording(s.admin) then [text(s.admin.claimed.requestId, RecordOf(s.admin).0, RecordOf(s.admin).1)]
    else if s.admin.AuditingReconciliation? then [text(s.admin.claimed.requestId, Reconciliation, Unknown)]
    else []
  }

  /** Any other step adds at most one event, which is no record. */
  lemma PlainEvent(s: GatewayState, c: Choice)
    requires !MovesStore(s.admin) && !Recording(s.admin) && !s.admin.AuditingReconciliation?
    ensures var trace := AdminStep(s, c).trace;
            || trace == s.trace || exists e: AdminEvent :: !e.Logged? && trace == s.trace + [e]
  {
    var next := AdminStep(s, c);
    if s.admin.Revalidating? {
      assert next.trace == s.trace + [Revalidated(s.admin.pending)]
             || next.trace == s.trace + [Answered(LastAnswer(next))];
    } else if s.admin.Invoking? {
      var r := s.admin.claimed;
      assert next.trace == s.trace + [Invoked(r, Operate(r.request, c.world))];
    } else {
      assert next.trace == s.trace || next.trace == s.trace + [Answered(LastAnswer(next))];
    }
  }

  lemma StoreEvent(s: GatewayState, c: Choice)
    requires MovesStore(s.admin)
    ensures var next := AdminStep(s, c);
            next.trace == s.trace || next.trace == s.trace + [Answered(LastAnswer(next))]
  {
  }

  lemma PlainTexts(s: GatewayState, c: Choice, life: nat, text: RecordText)
    requires life <= |s.trace| && !Recording(s.admin) && !s.admin.AuditingReconciliation?
    ensures Texts(AdminStep(s, c).trace, life, text) == Texts(s.trace, life, text)
  {
    var trace := AdminStep(s, c).trace;
    if MovesStore(s.admin) {
      StoreEvent(s, c);
    } else {
      PlainEvent(s, c);
    }
    if trace != s.trace {
      var e: AdminEvent :| !e.Logged? && trace == s.trace + [e];
      TextsMore(s.trace, e, life, text);
    }
  }

  lemma RecordTrace(s: GatewayState, c: Choice)
    requires Inv(s) && Recording(s.admin)
    ensures var (phase, outcome) := RecordOf(s.admin);
            AdminStep(s, c).trace == s.trace + RecordEvents(c, s.admin.claimed, phase, outcome)
  {
    if s.admin.AuditingApproval? {
      ApprovalGoesOn(s, c);
    }
  }

  lemma RecordingTexts(s: GatewayState, c: Choice, life: nat, text: RecordText)
    requires life <= |s.trace| && Inv(s) && Recording(s.admin)
    ensures Texts(AdminStep(s, c).trace, life, text) == Texts(s.trace, life, text) + NewTexts(s, c, text)
  {
    RecordStep(s, c);
    RecordTrace(s, c);
    var events := RecordEvents(c, s.admin.claimed, RecordOf(s.admin).0, RecordOf(s.admin).1);
    if events == [] {
      assert s.trace + events == s.trace;
    } else {
      TextsMore(s.trace, events[0], life, text);
    }
  }

  lemma ReconciliationTexts(s: GatewayState, c: Choice, life: nat, text: RecordText)
    requires life <= |s.trace| && Inv(s) && s.admin.AuditingReconciliation?
    ensures Texts(AdminStep(s, c).trace, life, text) == Texts(s.trace, life, text) + NewTexts(s, c, text)
  {
    ReconciliationRecordStep(s, c);
    var r := s.admin.claimed;
    if c.audit.Recorded? {
      TextsMore(s.trace, Logged(r.requestId, Reconciliation, Unknown), life, text);
    } else {
      var missed := AuditMissed(s, c, r, Reconciliation, Unknown);
      if missed.trace != s.trace {
        TextsMore(s.trace, Unconfirmed(r.requestId, Reconciliation, Unknown), life, text);
      }
      TextsMore(missed.trace, Answered(Err(AuditFailed)), life, text);
    }
  }

  lemma StepTexts(s: GatewayState, c: Choice, life: nat, text: RecordText)
    requires life <= |s.trace| && Inv(s)
    ensures Texts(AdminStep(s, c).trace, life, text) == Texts(s.trace, life, text) + NewTexts(s, c, text)
    ensures !Recording(s.admin) && !s.admin.AuditingReconciliation? ==> NewTexts(s, c, text) == []
  {
    if Recording(s.admin) {
      RecordingTexts(s, c, life, text);
    } else if s.admin.AuditingReconciliation? {
      ReconciliationTexts(s, c, life, text);
    } else {
      PlainTexts(s, c, life, text);
    }
  }

  /** All that one step of a command does besides its own business. */
  lemma StepFacts(s: GatewayState, c: Choice, life: nat, text: RecordText)
    requires Inv(s) && !s.admin.Idle? && life <= |s.trace|
    ensures var next := AdminStep(s, c);
            && Framed(s, next)
            && next.site == (if s.admin.Invoking? then c.world.after else s.site)
            && life <= |next.trace|
            && Texts(next.trace, life, text) == Texts(s.trace, life, text) + NewTexts(s, c, text)
            && (!Recording(s.admin) && !s.admin.AuditingReconciliation? ==>
                  Texts(next.trace, life, text) == Texts(s.trace, life, text))
            && (next.admin.Idle? ==> Replied(next, LastAnswer(next)))
  {
    StepFrame(s, c);
    StepTexts(s, c, life, text);
    var events := StepEvents(s, c);
    if AdminStep(s, c).admin.Idle? {
      ReplyIsTrue(s, c);
    }
  }

  lemma OthersInLog(before: string, after: string, texts: seq<string>)
    requires AuditLog.InLog(before, texts) && before <= after
    ensures AuditLog.InLog(after, texts)
  {
    assert after == before + after[|before|..];
    AuditLog.InLogGrows(before, after[|before|..], texts);
  }

  /** What is appended to the log, and the texts that stand in it then. */
  lemma StillInLog(before: string, after: string, texts: seq<string>, entry: string, recorded: bool)
    requires AuditLog.InLog(before, texts) && before <= after && (recorded ==> after == before + entry)
    ensures AuditLog.InLog(after, texts + if recorded then [entry] else [])
  {
    if recorded {
      AuditLog.InLogAppends(before, entry, texts);
    } else {
      OthersInLog(before, after, texts);
      assert texts + [] == texts;
    }
  }

  // ---------------------------------------------------------------- the store

  predicate Claims(admin: AdminState, id: Uuid) {
    admin == Rejecting(id) || (admin.Claiming? && admin.pending.requestId == id)
  }

  predicate Consumes(admin: AdminState, id: Uuid) {
    (admin.Consuming? || admin.ConsumingRejected? || admin.ConsumingAcknowledged?) && admin.claimed.requestId == id
  }

  /** What a command answers when its last act, consuming the claimed review, has come out like this. */
  function ConsumedAnswer(admin: AdminState, result: Result<PendingReview, StoreError>): Answer
    requires admin.Consuming? || admin.ConsumingRejected? || admin.ConsumingAcknowledged?
  {
    match admin
    case Consuming(claimed, outcome) =>
      if result.Ok? then ApprovalAnswer(claimed, outcome) else Err(ConsumeFailedAfterExecution(result.error))
    case ConsumingRejected(claimed) =>
      if result.Ok? then Ok(AdminOutcome.Rejected(claimed)) else Err(ConsumeFailedAfterRejection(result.error))
    case ConsumingAcknowledged(claimed) =>
      if result.Ok? then Ok(ClaimedAcknowledged(result.value))
      else if result.error.DurabilityUncertain? then Ok(AcknowledgementUncertain(claimed.requestId))
      else Err(NotAcknowledged(result.error))
  }

  lemma ConsumeStep(s: GatewayState, c: Choice)
    requires s.admin.Consuming? || s.admin.ConsumingRejected? || s.admin.ConsumingAcknowledged?
    ensures var (store, result) := Consume(s.store, s.admin.claimed.requestId, c.save);
            var next := AdminStep(s, c);
            next.admin.Idle? && next.store == store && LastAnswer(next) == ConsumedAnswer(s.admin, result)
  {
  }

  function AfterClaim(admin: AdminState, claimed: PendingReview): AdminState {
    if admin.Rejecting? then AuditingRejection(claimed) else AuditingApproval(claimed)
  }

  lemma ClaimStep(s: GatewayState, c: Choice, id: Uuid)
    requires Inv(s) && Claims(s.admin, id)
    ensures var (store, result) := Claim(s.store, id, c.save);
            var next := AdminStep(s, c);
            && next.store == store
            && (result.Ok? ==>
                  && result.value.requestId == id && id in s.store.mem.reviews
                  && result.value == s.store.mem.reviews[id]
                  && next.admin == AfterClaim(s.admin, result.value))
            && (result.Err? ==> next.admin.Idle? && LastAnswer(next) == Err(ClaimFailed(result.error)))
  {
    RecordedFacts(s, id);
  }

  lemma RestoreStep(s: GatewayState, c: Choice)
    requires s.admin.Restoring?
    ensures var (store, result) := Restore(s.store, s.admin.claimed, c.save);
            var next := AdminStep(s, c);
            && next.store == store && next.admin.Idle?
            && LastAnswer(next) == Err(if result.Ok? then AuditFailed else RestoreFailed(result.error))
  {
  }

  lemma ClaimCommits(d: DurableStore, id: Uuid)
    requires ValidDurable(d) && id in d.mem.reviews
    ensures Claim(d, id, Committed).1 == Ok(d.mem.reviews[id])
  {
    ClaimThenRestore(d, id);
  }

  lemma RestoreCommits(d: DurableStore, claimed: PendingReview)
    requires ValidDurable(d) && claimed.requestId in d.mem.claimed && d.mem.claimed[claimed.requestId] == claimed
    ensures Restore(d, claimed, Committed).1.Ok?
  {
    assert ValidStore(d.mem);
    var id := claimed.requestId;
    var next := Store(d.mem.reviews[id := claimed], d.mem.claimed - {id});
    assert ValidStore(next);
  }

  lemma ConsumeCommits(d: DurableStore, id: Uuid)
    requires ValidDurable(d) && id in d.mem.claimed
    ensures Consume(d, id, Committed).1 == Ok(d.mem.claimed[id])
  {
    assert ValidStore(d.mem);
    assert ValidStore(d.mem.(claimed := d.mem.claimed - {id}));
  }

  /** A lookup in one of the two maps. */
  function Found(admin: AdminState, mem: Store): Result<PendingReview, AdminError>
    requires admin.Inspecting? || admin.ReadingClaimed?
  {
    match admin
    case Inspecting(id) => if id in mem.reviews then Ok(mem.reviews[id]) else Err(NotPending)
    case ReadingClaimed(id) => if id in mem.claimed then Ok(mem.claimed[id]) else Err(NotClaimed)
  }

  lemma LookupStep(s: GatewayState, c: Choice, id: Uuid)
    requires Inv(s) && (s.admin == Inspecting(id) || s.admin == ReadingClaimed(id))
    ensures var found, next := Found(s.admin, s.store.mem), AdminStep(s, c);
            if found.Ok? then
              && found.value.requestId == id
              && next.admin == if s.admin.Inspecting? then Revalidating(found.value)
                               else AuditingReconciliation(found.value)
            else next.admin.Idle? && LastAnswer(next) == Err(found.error)
  {
    RecordedFacts(s, id);
  }

  lemma ConsumingHasClaimed(s: GatewayState)
    requires Inv(s) && (s.admin.Consuming? || s.admin.ConsumingRejected? || s.admin.ConsumingAcknowledged?)
    ensures s.admin.claimed.requestId in s.store.mem.claimed
  {
    if !s.admin.ConsumingAcknowledged? {
      FlightFacts(s, s.admin.claimed);
    }
  }

  /** What is being acknowledged is what memory has claimed. */
  lemma ReconcilingClaimed(s: GatewayState)
    requires Inv(s) && s.admin.AuditingReconciliation?
    ensures var claimed := s.admin.claimed;
            claimed.requestId in s.store.mem.claimed && s.store.mem.claimed[claimed.requestId] == claimed
  {
    RecordedFacts(s, s.admin.claimed.requestId);
  }

  // ---------------------------------------------------------------- agents

  lemma NotHeldYet(s: GatewayState, id: Uuid)
    requires Inv(s) && id in s.agents && s.agents[id].Holding?
    ensures var review := s.agents[id].review;
            Reviewable(review) && review.requestId == id && id !in s.store.mem.claimed && id !in s.store.mem.reviews
  {
    assert IdInv(s, id) && ImageOk(s, s.store.mem, id);
  }

  /** What a command relies on while others run: it has not moved, and what is held stays where it is. */
  ghost predicate OnlyOthersMoved(s: GatewayState, next: GatewayState) {
    && next.admin == s.admin && next.trace == s.trace && next.home == s.home
    && next.store.mem.claimed == s.store.mem.claimed
    && forall id <- s.store.mem.reviews ::
         id in next.store.mem.reviews && next.store.mem.reviews[id] == s.store.mem.reviews[id]
  }

  /** An insertion finds its id unused, and if nothing fails the review is then held. */
  lemma InsertFacts(s: GatewayState, id: Uuid, c: Choice, committed: bool)
    requires Inv(s) && id in s.agents && s.agents[id].Holding?
    requires committed ==>
               Insert(s.store, s.agents[id].review, c.save) == Insert(s.store, s.agents[id].review, Committed)
    ensures OnlyOthersMoved(s, AgentStep(s, id, c))
    ensures committed ==> id in AgentStep(s, id, c).held
  {
    NotHeldYet(s, id);
    assert ValidStore(s.store.mem);
    var review := s.agents[id].review;
    var mem := s.store.mem.(reviews := s.store.mem.reviews[id := review]);
    assert mem.reviews[id] == review;
    assert AllPersistable(mem);
  }

  /** Neither the command nor the workspace nor, unless said otherwise, the store. */
  ghost predicate Beside(s: GatewayState, next: GatewayState) {
    && next.admin == s.admin && next.trace == s.trace && next.home == s.home && next.site == s.site
    && next.config == s.config
  }

  function AgentsAfterInsert(agents: map<Uuid, AgentState>, id: Uuid, held: bool): map<Uuid, AgentState>
    requires id in agents && agents[id].Holding?
  {
    var review := agents[id].review;
    if held then agents[id := Reporting(review.request, Policy.Review, review.purpose)] else agents - {id}
  }

  lemma InsertStep(s: GatewayState, id: Uuid, c: Choice)
    requires id in s.agents && s.agents[id].Holding?
    ensures var next := AgentStep(s, id, c);
            var review := s.agents[id].review;
            var (store, result) := Insert(s.store, review, c.save);
            && Beside(s, next) && next.store == store && next.used == s.used
            && next.agents == AgentsAfterInsert(s.agents, id, result.Ok?)
  {
  }

  // ---------------------------------------------------------------- where the process can stop

  ghost predicate StopsWith(
    run: seq<GatewayState>, disk: ReviewStore.StateDisk, file: Disk.Name, more: seq<GatewayState>, t: GatewayState)
  {
    && Reached(more, t) && Grew(run, more) && ReviewStore.FileMeans(disk, file, t.store)
    && run != [] && t.used == run[|run| - 1].used && t.home == run[|run| - 1].home
  }

  /** The state file on this disk is what some state reached from here means by it: the process can stop here,
      with the step in progress as far as the file shows it. */
  ghost predicate StopsAt(run: seq<GatewayState>, disk: ReviewStore.StateDisk, file: Disk.Name) {
    exists more, t :: StopsWith(run, disk, file, more, t)
  }

  lemma StopsInside(run: seq<GatewayState>, s: GatewayState, step: Step, disk: ReviewStore.StateDisk, file: Disk.Name)
    requires Reached(run, s) && Enabled(s, step) && ReviewStore.FileMeans(disk, file, Apply(s, step).store)
    requires Apply(s, step).used == s.used && Apply(s, step).home == s.home
    ensures StopsAt(run, disk, file)
  {
    OneMore(run, s, step);
    assert StopsWith(run, disk, file, run + [Apply(s, step)], Apply(s, step));
  }

  /** A new process is in the same place, and knows which ids have been drawn. */
  ghost predicate Knows(run: seq<GatewayState>, home: Home, drawn: set<Uuid>) {
    run != [] && run[|run| - 1].home == home && run[|run| - 1].used <= drawn
  }

  /** What the file means to a process that starts on what is left. */
  lemma WhatIsMeant(
    run: seq<GatewayState>, cut: ReviewStore.StateDisk, disk: ReviewStore.StateDisk, file: Disk.Name)
    returns (more: seq<GatewayState>, last: GatewayState, meant: DurableStore)
    requires StopsAt(run, cut, file) && (disk == cut || Disk.AfterPowerLoss(cut, disk))
    ensures Reached(more, last) && Grew(run, more)
    ensures run != [] && last.used == run[|run| - 1].used && last.home == run[|run| - 1].home
    ensures ValidDurable(meant) && ReviewStore.FileMeans(disk, file, meant)
    ensures Restart(meant) == Restart(last.store)
            || exists image <- last.store.surviving :: Restart(meant) == Recover(image)
  {
    more, last :| StopsWith(run, cut, file, more, last);
    ReachedInv(more, last);
    if disk == cut {
      meant := last.store;
    } else {
      var image := ReviewStore.LostMeans(cut, file, last.store, disk);
      meant := Recover(image);
      assert image in last.store.surviving && Restart(meant) == Recover(image);
    }
  }

  ghost predicate AllStop(run: seq<GatewayState>, history: seq<ReviewStore.Moment>, file: Disk.Name) {
    forall m <- history :: StopsAt(run, m.disk, file)
  }

  /** Between saves. */
  lemma StopsNow(run: seq<GatewayState>, s: GatewayState, disk: ReviewStore.StateDisk, file: Disk.Name)
    requires Reached(run, s) && ReviewStore.FileMeans(disk, file, s.store)
    ensures StopsAt(run, disk, file)
  {
    assert StopsWith(run, disk, file, run, s);
  }

  /** Inside the save of an insertion. */
  lemma InsertStops(
    run: seq<GatewayState>, s: GatewayState, id: Uuid, history: seq<ReviewStore.Moment>, file: Disk.Name)
    requires Reached(run, s) && id in s.agents && s.agents[id].Holding?
    requires forall m <- history ::
               ReviewStore.FileMeans(m.disk, file,
                 Insert(s.store, s.agents[id].review, ReviewStore.OutcomeOf(m.phase)).0)
    ensures AllStop(run, history, file)
  {
    forall m | m in history ensures StopsAt(run, m.disk, file) {
      var cut := Calm(s.site).(save := ReviewStore.OutcomeOf(m.phase));
      InsertStep(s, id, cut);
      StopsInside(run, s, AgentContinues(id, cut), m.disk, file);
    }
  }

  /** The step whose save comes to an end where this one has got to. */
  ghost function Cut(s: GatewayState, phase: ReviewStore.Phase): Choice {
    Calm(s.site).(save := ReviewStore.OutcomeOf(phase))
  }

  /** Inside the save of one of a command's operations. */
  lemma CommandStops(
    run: seq<GatewayState>, s: GatewayState, phase: ReviewStore.Phase, disk: ReviewStore.StateDisk, file: Disk.Name)
    requires Reached(run, s) && MovesStore(s.admin)
    requires ReviewStore.FileMeans(disk, file, AdminStep(s, Cut(s, phase)).store)
    ensures StopsAt(run, disk, file)
  {
    StepFrame(s, Cut(s, phase));
    StopsInside(run, s, AdminContinues(Cut(s, phase)), disk, file);
  }

  lemma ClaimStops(
    run: seq<GatewayState>, s: GatewayState, id: Uuid, history: seq<ReviewStore.Moment>, file: Disk.Name)
    requires Reached(run, s) && Claims(s.admin, id)
    requires forall m <- history ::
               ReviewStore.FileMeans(m.disk, file, Claim(s.store, id, ReviewStore.OutcomeOf(m.phase)).0)
    ensures AllStop(run, history, file)
  {
    forall m | m in history ensures StopsAt(run, m.disk, file) {
      ReachedInv(run, s);
      ClaimStep(s, Cut(s, m.phase), id);
      CommandStops(run, s, m.phase, m.disk, file);
    }
  }

  lemma RestoreStops(
    run: seq<GatewayState>, s: GatewayState, claimed: PendingReview, history: seq<ReviewStore.Moment>, file: Disk.Name)
    requires Reached(run, s) && s.admin == Restoring(claimed)
    requires forall m <- history ::
               ReviewStore.FileMeans(m.disk, file, Restore(s.store, claimed, ReviewStore.OutcomeOf(m.phase)).0)
    ensures AllStop(run, history, file)
  {
    forall m | m in history ensures StopsAt(run, m.disk, file) {
      RestoreStep(s, Cut(s, m.phase));
      CommandStops(run, s, m.phase, m.disk, file);
    }
  }

  lemma ConsumeStops(
    run: seq<GatewayState>, s: GatewayState, id: Uuid, history: seq<ReviewStore.Moment>, file: Disk.Name)
    requires Reached(run, s) && Consumes(s.admin, id)
    requires forall m <- history ::
               ReviewStore.FileMeans(m.disk, file, Consume(s.store, id, ReviewStore.OutcomeOf(m.phase)).0)
    ensures AllStop(run, history, file)
  {
    forall m | m in history ensures StopsAt(run, m.disk, file) {
      ConsumeStep(s, Cut(s, m.phase));
      CommandStops(run, s, m.phase, m.disk, file);
    }
  }

  // ---------------------------------------------------------------- what agents' steps leave alone

  function AgentsAfterStart(
    config: Policy.Config, agents: map<Uuid, AgentState>, id: Uuid, request: ExecutionRequest, inScope: bool,
    purpose: string, evidence: Evidence): map<Uuid, AgentState>
  {
    var decision := Policy.EvaluateRequest(request, inScope, config).decision;
    if decision.Review? then
      match BuildReview(id, request, purpose, evidence)
      case None => agents
      case Some(review) => agents[id := Holding(review)]
    else agents[id := Reporting(request, decision, purpose)]
  }

  lemma StartFacts(
    s: GatewayState, id: Uuid, request: ExecutionRequest, inScope: bool, purpose: string, evidence: Evidence)
    ensures var next := AgentStart(s, id, request, inScope, purpose, evidence);
            && Beside(s, next) && next.store == s.store && next.used == s.used + {id}
            && next.agents == AgentsAfterStart(s.config, s.agents, id, request, inScope, purpose, evidence)
  {
  }

  function AgentsAfterMove(home: Home, agents: map<Uuid, AgentState>, id: Uuid, c: Choice): map<Uuid, AgentState>
    requires id in agents && !agents[id].Holding?
  {
    match agents[id]
    case Reporting(request, decision, purpose) =>
      if !ValidPurpose(home, purpose) then agents - {id}
      else agents[id := if decision.Allow? then AuditingStart(request) else AuditingEnd(NotExecuted)]
    case AuditingStart(request) => if c.audit.Recorded? then agents[id := Running(request)] else agents - {id}
    case Running(request) => agents[id := AuditingEnd(if !IsPrivileged(request) && c.valid then Success else Failed)]
    case AuditingEnd(_) => agents - {id}
  }

  lemma MoveFacts(s: GatewayState, id: Uuid, c: Choice)
    requires id in s.agents && !s.agents[id].Holding?
    ensures var next := AgentStep(s, id, c);
            && Beside(s, next) && next.store == s.store && next.used == s.used
            && next.agents == AgentsAfterMove(s.home, s.agents, id, c)
  {
  }

  lemma RunningUnprivileged(run: seq<GatewayState>, s: GatewayState, id: Uuid)
    requires Reached(run, s) && id in s.agents && s.agents[id].Running?
    ensures !IsPrivileged(s.agents[id].request)
  {
    ReachedInv(run, s);
    assert IdInv(s, id);
  }

  // ---------------------------------------------------------------- the workspace

  /** What a command's step leaves as it is, unless the operation itself changes the workspace. */
  ghost predicate Steady(s: GatewayState, next: GatewayState) {
    next.home == s.home && next.config == s.config && next.agents == s.agents && next.used == s.used
  }

  lemma RevalidatesCanRevalidate(s: GatewayState, pending: PendingReview, reading: Fingerprint.Reading)
    requires Revalidates(s.home, s.site, pending, reading)
    ensures CanRevalidate(pending)
  {
  }

  // ---------------------------------------------------------------- an operation carried out

  /** What nothing but the request and the workspace before it decides, when no I/O fails: whether a write takes
      place, and whether a Cargo test is started. */
  ghost predicate Carries(home: Home, before: Site, scratch: Scratch, claimed: PendingReview, world: World) {
    match claimed.request
    case WriteFile(path, content) =>
      CanWrite(home, before, path) ==>
        (world.write.Ok? <==> WriteFile.Accepted(before.folders, home.components(path), home.bytes(content)))
    case RunCargoTest =>
      claimed.workspaceFingerprint.Some? && Roomy(home, before, scratch) ==>
        (world.cargo.Spawned? <==> FingerprintIs(home, before, claimed.workspaceFingerprint.value))
    case _ => true
  }

  // What the gateway hears from outside: how `cargo` ended once it was started, what a POST was answered.
  datatype Reply = CargoReply(result: Result<CargoTestResult, string>) | PostReply(http: Result<nat, string>)

  /** Exactly what was heard during an operation is what is kept of it: `cargo` is started or not, and a POST is sent
      if the destination is allowed. */
  predicate Heard(before: Site, request: ExecutionRequest, world: World, replies: seq<Reply>) {
    match request
    case RunCargoTest => replies == if world.cargo.Spawned? then [CargoReply(world.cargo.result)] else []
    case HttpRequest(_, url, _) =>
      if url in before.destinations then replies == [PostReply(world.http)] else world.http.Err? && replies == []
    case _ => replies == []
  }

  ghost predicate CarriedOut(
    home: Home, before: Site, scratch: Scratch, claimed: PendingReview, returned: OperationReturn, sight: Sight)
  {
    && sight.before == before
    && match claimed.request
       case WriteFile(path, content) =>
         && (CanWrite(home, before, path) ==>
               (returned.Ok? <==> WriteFile.Accepted(before.folders, home.components(path), home.bytes(content))))
         && (returned.Ok? ==> returned == Ok(Succeeded(None)) && Written(home, before, path, content, sight.after))
       case RunCargoTest =>
         claimed.workspaceFingerprint.Some? && Roomy(home, before, scratch) ==>
           (SnapshotOf(sight).Some? <==> FingerprintIs(home, before, claimed.workspaceFingerprint.value))
       case _ => true
  }

  lemma CarriedByWorld(home: Home, before: Site, scratch: Scratch, claimed: PendingReview, world: World)
    requires Carries(home, before, scratch, claimed, world) && Possible(home, before, claimed, world)
    ensures CarriedOut(home, before, scratch, claimed, Operate(claimed.request, world), Seen(before, world))
  {
  }

  /** Event `a` is the operation, carried out on this workspace. */
  ghost predicate CarriedAt(
    s: GatewayState, a: nat, before: Site, scratch: Scratch, claimed: PendingReview, returned: OperationReturn)
  {
    && a < |s.trace| && a < |s.sights| && s.trace[a] == Invoked(claimed, returned)
    && CarriedOut(s.home, before, scratch, claimed, returned, s.sights[a])
  }

  lemma StillCarried(
    run: seq<GatewayState>, s: GatewayState, more: seq<GatewayState>, t: GatewayState, a: nat, before: Site,
    scratch: Scratch, claimed: PendingReview, returned: OperationReturn)
    requires Reached(run, s) && Reached(more, t) && Grew(run, more)
    requires CarriedAt(s, a, before, scratch, claimed, returned)
    ensures CarriedAt(t, a, before, scratch, claimed, returned)
  {
    RunExtends(more, |run| - 1, |more| - 1);
  }

  /** What an approval that nothing disturbs comes to where there is room for it: a write whose content is not too
      long is answered as approved and has been written, and a Cargo test is started. */
  ghost predicate DoneAt(
    s: GatewayState, a: nat, before: Site, scratch: Scratch, review: PendingReview, answer: Answer)
  {
    && a < |s.trace| && a < |s.sights| && s.trace[a].Invoked? && s.trace[a].review == review
    && s.sights[a].before == before
    && match review.request
       case WriteFile(path, content) =>
         CanWrite(s.home, before, path) ==>
           if |s.home.bytes(content)| <= WriteFile.MAX_WRITE_BYTES then
             answer == Ok(Approved(review.requestId)) && Written(s.home, before, path, content, s.sights[a].after)
           else answer.Ok? && answer.value.WriteFailed?
       case RunCargoTest => Roomy(s.home, before, scratch) ==> SnapshotOf(s.sights[a]).Some?
       case _ => true
  }

  lemma CarriedIsDone(
    s: GatewayState, a: nat, before: Site, scratch: Scratch, review: PendingReview, returned: OperationReturn)
    requires CarriedAt(s, a, before, scratch, review, returned) && Unchanged(s.home, before, review)
    ensures DoneAt(s, a, before, scratch, review, ApprovalAnswer(review, AfterCompletion(returned)))
  {
  }

  /** And when nobody else touches the workspace before the operation: exactly what is unchanged is executed, and
      then it is done. */
  ghost predicate ServedCalmly(
    s: GatewayState, next: GatewayState, scratch: Scratch, command: AdminCommand, answer: Answer)
  {
    command.Approve? && command.id in s.store.mem.reviews ==>
      var review := s.store.mem.reviews[command.id];
      && (answer.Ok? <==> Unchanged(s.home, s.site, review))
      && (answer.Ok? ==> exists a: nat :: DoneAt(next, a, s.site, scratch, review, answer))
  }

  // ---------------------------------------------------------------- what a reached state gives

  lemma SiteIsValid(run: seq<GatewayState>, s: GatewayState)
    requires Reached(run, s)
    ensures ValidSite(s.home, s.site)
  {
    Binding.RunSights(run, |run| - 1);
  }

  lemma InvokingReviewable(run: seq<GatewayState>, s: GatewayState, claimed: PendingReview)
    requires Reached(run, s) && s.admin == Invoking(claimed)
    ensures Reviewable(claimed) && ValidSite(s.home, s.site) && |s.trace| == |s.sights|
  {
    ReachedInv(run, s);
    FlightFacts(s, claimed);
    Binding.RunSights(run, |run| - 1);
  }

  lemma ApprovedReviewable(run: seq<GatewayState>, s: GatewayState, claimed: PendingReview)
    requires Reached(run, s) && s.admin == AuditingPreExecution(claimed)
    ensures Reviewable(claimed)
  {
    ReachedInv(run, s);
    FlightFacts(s, claimed);
  }

  lemma RestoringCommits(run: seq<GatewayState>, s: GatewayState, claimed: PendingReview)
    requires Reached(run, s) && s.admin == Restoring(claimed)
    ensures Restore(s.store, claimed, Committed).1.Ok?
  {
    ReachedInv(run, s);
    FlightFacts(s, claimed);
    RestoreCommits(s.store, claimed);
  }

  lemma ReconcilingHasReason(run: seq<GatewayState>, s: GatewayState, claimed: PendingReview)
    requires Reached(run, s) && s.admin == AuditingReconciliation(claimed)
    ensures Policy.ReviewReason(claimed.request).Some?
  {
    ReachedInv(run, s);
    ReconciliationRecordStep(s, Calm(s.site));
  }

  lemma ReconcilingHeld(run: seq<GatewayState>, s: GatewayState, claimed: PendingReview)
    requires Reached(run, s) && s.admin == AuditingReconciliation(claimed)
    ensures claimed.requestId in s.store.mem.claimed && s.store.mem.claimed[claimed.requestId] == claimed
  {
    ReachedInv(run, s);
    ReconcilingClaimed(s);
  }

  lemma ConsumingCommits(run: seq<GatewayState>, s: GatewayState, id: Uuid)
    requires Reached(run, s) && Consumes(s.admin, id)
    ensures id in s.store.mem.claimed && Consume(s.store, id, Committed).1 == Ok(s.store.mem.claimed[id])
  {
    ReachedInv(run, s);
    ConsumingHasClaimed(s);
    ConsumeCommits(s.store, id);
  }

  lemma InvokedOnce(run: seq<GatewayState>, s: GatewayState, id: Uuid)
    requires Reached(run, s)
    ensures forall a: nat, b: nat | InvokedAt(s.trace, a, id) && InvokedAt(s.trace, b, id) :: a == b
    ensures EverInvoked(s.trace, id) || EverLogged(s.trace, id, Rejection) ==> NowherePending(s, id)
    ensures EverLogged(s.trace, id, Rejection) ==> !EverInvoked(s.trace, id)
  {
    AtMostOnce(run, |run| - 1, |run| - 1, id);
    if EverLogged(s.trace, id, Rejection) {
      RejectionIsFinal(run, |run| - 1, |run| - 1, id);
    }
  }

  /** The process starts again with what the disk has left it, in a workspace that may have changed. */
  lemma StartedAgain(
    before: seq<GatewayState>, last: GatewayState, config: Policy.Config, store: DurableStore, site: Site)
    returns (run: seq<GatewayState>, s: GatewayState)
    requires Reached(before, last) && Policy.ValidConfig(config) && ValidSite(last.home, site)
    requires store == Restart(last.store) || exists image <- last.store.surviving :: store == Recover(image)
    ensures Reached(run, s) && Grew(before, run)
    ensures s.admin.Idle? && s.store == store && s.home == last.home && s.config == config && s.site == site
    ensures s.agents == map[] && s.used == last.used
  {
    var step :=
      if store == Restart(last.store) then ProcessDies(config)
      else
        var image :| image in last.store.surviving && store == Recover(image);
        PowerFails(config, image);
    OneMore(before, last, step);
    var stopped := Apply(last, step);
    OneMore(before + [stopped], stopped, OthersMove(site));
    run, s := before + [stopped] + [stopped.(site := site)], stopped.(site := site);
  }
}
