/** What stays true of a request once a command about it has been answered, over every continuation of the
    run: which answers are final, and exactly when an acknowledged request can still be invoked. */
module Finality {
  import opened Wrappers
  import opened Execution
  import opened Persisted
  import opened StoreOperations
  import opened Workplace
  import opened Lifecycle
  import opened LifecycleInvariant
  import opened LifecycleSteps
  import opened Guarantees
  import opened Binding
  import FileTree
  import Fingerprint
  import Mirror
  import Snapshot
  import WriteFile
  import Disk

  // ---------------------------------------------------------------- stores

  ghost predicate PendingNowhere(d: DurableStore, id: Uuid) {
    forall image <- d.surviving :: id !in image.reviews
  }

  ghost predicate HeldNowhere(d: DurableStore, id: Uuid) {
    forall image <- d.surviving :: !Holds(image, id)
  }

  lemma MoveAvoids<T>(d: DurableStore, next: Store, save: SaveOutcome, value: T, id: Uuid)
    ensures PendingNowhere(d, id) && id !in next.reviews ==> PendingNowhere(Move(d, next, save, value).0, id)
    ensures HeldNowhere(d, id) && !Holds(next, id) ==> HeldNowhere(Move(d, next, save, value).0, id)
  {
  }

  /** No operation on another id brings this one into the pending map, and none on any id does unless it
      was somewhere before. */
  lemma OperationsAvoid(d: DurableStore, other: Uuid, pending: PendingReview, save: SaveOutcome, id: Uuid)
    requires ValidDurable(d) && PendingNowhere(d, id)
    ensures PendingNowhere(Claim(d, other, save).0, id)
    ensures PendingNowhere(Consume(d, other, save).0, id)
    ensures pending.requestId != id ==> PendingNowhere(Restore(d, pending, save).0, id)
    ensures pending.requestId != id ==> PendingNowhere(Insert(d, pending, save).0, id)
    ensures Claim(d, other, save).1.Ok? ==> other != id && Claim(d, other, save).1.value.requestId == other
  {
    assert ValidStore(d.mem);
    var mem := d.mem;
    if other in mem.reviews && other !in mem.claimed {
      var claimed := Store(mem.reviews - {other}, mem.claimed[other := mem.reviews[other]]);
      MoveAvoids(d, claimed, save, mem.reviews[other], id);
    }
    if other in mem.claimed {
      MoveAvoids(d, mem.(claimed := mem.claimed - {other}), save, mem.claimed[other], id);
    }
    var k := pending.requestId;
    if k != id {
      MoveAvoids(d, Store(mem.reviews[k := pending], mem.claimed - {k}), save, (), id);
      MoveAvoids(d, mem.(reviews := mem.reviews[k := pending]), save, (), id);
    }
  }

  lemma OperationsAvoidHolding(d: DurableStore, other: Uuid, pending: PendingReview, save: SaveOutcome, id: Uuid)
    requires ValidDurable(d) && HeldNowhere(d, id)
    ensures HeldNowhere(Claim(d, other, save).0, id)
    ensures HeldNowhere(Consume(d, other, save).0, id)
    ensures pending.requestId != id ==> HeldNowhere(Restore(d, pending, save).0, id)
    ensures pending.requestId != id ==> HeldNowhere(Insert(d, pending, save).0, id)
  {
    var mem := d.mem;
    if other in mem.reviews && other !in mem.claimed {
      var claimed := Store(mem.reviews - {other}, mem.claimed[other := mem.reviews[other]]);
      MoveAvoids(d, claimed, save, mem.reviews[other], id);
    }
    if other in mem.claimed {
      MoveAvoids(d, mem.(claimed := mem.claimed - {other}), save, mem.claimed[other], id);
    }
    var k := pending.requestId;
    if k != id {
      MoveAvoids(d, Store(mem.reviews[k := pending], mem.claimed - {k}), save, (), id);
      MoveAvoids(d, mem.(reviews := mem.reviews[k := pending]), save, (), id);
    }
  }

  // ---------------------------------------------------------------- requests that cannot come back

  /** The command holds a claim from which this id can be restored or invoked. */
  predicate Working(admin: AdminState, id: Uuid) {
    match admin
    case AuditingApproval(r) => r.requestId == id
    case AuditingPreExecution(r) => r.requestId == id
    case Invoking(r) => r.requestId == id
    case Restoring(r) => r.requestId == id
    case AuditingRejection(r) => r.requestId == id
    case _ => false
  }

  ghost predicate Drawn(s: State, id: Uuid) {
    id in s.used && (id in s.agents ==> !s.agents[id].Holding?)
  }

  /** The id is pending nowhere, and no command or call in progress can make it so. */
  ghost predicate Dormant(s: State, id: Uuid) {
    Drawn(s, id) && PendingNowhere(s.store, id) && !Working(s.admin, id)
  }

  lemma DormantClaim(s: State, c: Choice, id: Uuid)
    requires Inv(s) && Dormant(s, id) && s.admin.Rejecting?
    ensures Dormant(AdminStep(s, c), id)
  {
    var k := s.admin.id;
    if k in s.store.mem.reviews {
      OperationsAvoid(s.store, k, s.store.mem.reviews[k], c.save, id);
    }
  }

  lemma DormantPlain(s: State, c: Choice, id: Uuid)
    requires Dormant(s, id) && !s.admin.Idle? && !s.admin.Claiming? && !s.admin.Rejecting? && !s.admin.Restoring?
    requires !s.admin.Consuming? && !s.admin.ConsumingRejected? && !s.admin.ConsumingAcknowledged?
    ensures Dormant(AdminStep(s, c), id)
  {
  }

  lemma DormantAdminStep(s: State, c: Choice, id: Uuid)
    requires Inv(s) && Dormant(s, id) && !s.admin.Idle?
    ensures Dormant(AdminStep(s, c), id)
  {
    match s.admin
    case Claiming(p) => OperationsAvoid(s.store, p.requestId, p, c.save, id);
    case Rejecting(k) => DormantClaim(s, c, id);
    case Restoring(r) => OperationsAvoid(s.store, id, r, c.save, id);
    case Consuming(r, _) => OperationsAvoid(s.store, r.requestId, r, c.save, id);
    case ConsumingRejected(r) => OperationsAvoid(s.store, r.requestId, r, c.save, id);
    case ConsumingAcknowledged(r) => OperationsAvoid(s.store, r.requestId, r, c.save, id);
    case _ => DormantPlain(s, c, id);
  }

  lemma DormantAgentStep(s: State, k: Uuid, c: Choice, id: Uuid)
    requires Inv(s) && Dormant(s, id) && k in s.agents
    ensures Dormant(AgentStep(s, k, c), id)
  {
    assert IdInv(s, k);
    if s.agents[k].Holding? {
      OperationsAvoid(s.store, k, s.agents[k].review, c.save, id);
    }
  }

  lemma DormantStays(s: State, step: Step, id: Uuid)
    requires Inv(s) && Dormant(s, id) && Enabled(s, step)
    ensures Dormant(Apply(s, step), id)
  {
    match step
    case AdminContinues(c) => DormantAdminStep(s, c, id);
    case AgentContinues(k, c) => DormantAgentStep(s, k, c, id);
    case AgentBegins(k, _, _, _, _, _) => assert k != id;
    case _ =>
  }

  /** Only a command that holds its claim invokes anything. */
  lemma InvokesOnlyWorking(s: State, step: Step, a: nat, id: Uuid)
    requires Enabled(s, step) && |s.trace| <= a && InvokedAt(Apply(s, step).trace, a, id)
    ensures Working(s.admin, id)
  {
    match step
    case AdminContinues(c) =>
      var events := StepEvents(s, c);
      assert events[a - |s.trace|] == Apply(s, step).trace[a];
    case _ =>
  }

  /** Between `from` and `to` the id is not invoked. */
  ghost predicate NotInvokedSince(from: nat, to: State, id: Uuid) {
    forall a: nat | from <= a :: !InvokedAt(to.trace, a, id)
  }

  lemma DormantStep(s: State, step: Step, from: nat, id: Uuid)
    requires Inv(s) && Enabled(s, step) && Dormant(s, id) && NotInvokedSince(from, s, id)
    ensures Dormant(Apply(s, step), id) && NotInvokedSince(from, Apply(s, step), id)
  {
    DormantStays(s, step, id);
    StepExtends(s, step);
    forall a: nat | from <= a ensures !InvokedAt(Apply(s, step).trace, a, id) {
      if InvokedAt(Apply(s, step).trace, a, id) {
        if a < |s.trace| {
          assert InvokedAt(s.trace, a, id);
        } else {
          InvokesOnlyWorking(s, step, a, id);
        }
      }
    }
  }

  lemma DormantLink(run: seq<State>, k: nat, from: nat, id: Uuid)
    requires IsRun(run) && 0 < k < |run| && Dormant(run[k - 1], id) && NotInvokedSince(from, run[k - 1], id)
    ensures Dormant(run[k], id) && NotInvokedSince(from, run[k], id)
  {
    var step := StepOf(run, k);
    DormantStep(run[k - 1], step, from, id);
  }

  /** A dormant request stays dormant and is never invoked. */
  lemma {:induction false} DormantForGood(run: seq<State>, j: nat, k: nat, id: Uuid)
    requires IsRun(run) && j <= k < |run| && Dormant(run[j], id)
    ensures Dormant(run[k], id) && NotInvokedSince(|run[j].trace|, run[k], id)
    decreases k - j
  {
    if j < k {
      DormantForGood(run, j, k - 1, id);
      DormantLink(run, k, |run[j].trace|, id);
    }
  }

  // ---------------------------------------------------------------- final answers

  /** The id is in no map anywhere. */
  ghost predicate Gone(s: State, id: Uuid) {
    Drawn(s, id) && HeldNowhere(s.store, id)
  }

  lemma GoneIsDormant(s: State, id: Uuid)
    requires Inv(s) && Gone(s, id)
    ensures Dormant(s, id) && Nowhere(s, id)
  {
    assert s.store.mem in s.store.surviving;
  }

  lemma GoneClaim(s: State, c: Choice, id: Uuid)
    requires Inv(s) && Gone(s, id) && s.admin.Rejecting?
    ensures Gone(AdminStep(s, c), id)
  {
    var k := s.admin.id;
    if k in s.store.mem.reviews {
      OperationsAvoidHolding(s.store, k, s.store.mem.reviews[k], c.save, id);
    }
  }

  lemma GonePlain(s: State, c: Choice, id: Uuid)
    requires Gone(s, id) && !s.admin.Idle? && !s.admin.Claiming? && !s.admin.Rejecting? && !s.admin.Restoring?
    requires !s.admin.Consuming? && !s.admin.ConsumingRejected? && !s.admin.ConsumingAcknowledged?
    ensures Gone(AdminStep(s, c), id)
  {
  }

  lemma GoneAdminStep(s: State, c: Choice, id: Uuid)
    requires Inv(s) && Gone(s, id) && !s.admin.Idle?
    ensures Gone(AdminStep(s, c), id)
  {
    GoneIsDormant(s, id);
    match s.admin
    case Claiming(p) => OperationsAvoidHolding(s.store, p.requestId, p, c.save, id);
    case Rejecting(k) => GoneClaim(s, c, id);
    case Restoring(r) => OperationsAvoidHolding(s.store, id, r, c.save, id);
    case Consuming(r, _) => OperationsAvoidHolding(s.store, r.requestId, r, c.save, id);
    case ConsumingRejected(r) => OperationsAvoidHolding(s.store, r.requestId, r, c.save, id);
    case ConsumingAcknowledged(r) => OperationsAvoidHolding(s.store, r.requestId, r, c.save, id);
    case _ => GonePlain(s, c, id);
  }

  lemma GoneAgentStep(s: State, k: Uuid, c: Choice, id: Uuid)
    requires Inv(s) && Gone(s, id) && k in s.agents
    ensures Gone(AgentStep(s, k, c), id)
  {
    assert IdInv(s, k);
    if s.agents[k].Holding? {
      OperationsAvoidHolding(s.store, k, s.agents[k].review, c.save, id);
    }
  }

  lemma GoneStays(s: State, step: Step, id: Uuid)
    requires Inv(s) && Gone(s, id) && Enabled(s, step)
    ensures Gone(Apply(s, step), id)
  {
    match step
    case AdminContinues(c) => GoneAdminStep(s, c, id);
    case AgentContinues(k, c) => GoneAgentStep(s, k, c, id);
    case AgentBegins(k, _, _, _, _, _) => assert k != id;
    case _ =>
  }

  lemma GoneLink(run: seq<State>, k: nat, id: Uuid)
    requires IsRun(run) && 0 < k < |run| && Gone(run[k - 1], id)
    ensures Gone(run[k], id)
  {
    var step := StepOf(run, k);
    GoneStays(run[k - 1], step, id);
  }

  lemma {:induction false} GoneForGood(run: seq<State>, j: nat, k: nat, id: Uuid)
    requires IsRun(run) && j <= k < |run| && Gone(run[j], id)
    ensures Gone(run[k], id)
    decreases k - j
  {
    if j < k {
      GoneForGood(run, j, k - 1, id);
      GoneLink(run, k, id);
    }
  }

  /** Every success but an acknowledgement whose save is not known to be durable. */
  predicate FinalAnswer(answer: Answer, id: Uuid) {
    match answer
    case Ok(Rejected(pending)) => pending.requestId == id
    case Ok(ClaimedAcknowledged(pending)) => pending.requestId == id
    case Ok(AcknowledgementUncertain(_)) => false
    case Ok(outcome) => outcome.id == id
    case Err(_) => false
  }

  lemma OnlyErrors(s: State, c: Choice)
    requires !s.admin.Idle? && !s.admin.AuditingApproval?
    requires !s.admin.Consuming? && !s.admin.ConsumingRejected? && !s.admin.ConsumingAcknowledged?
    ensures AdminStep(s, c).admin.Idle? ==> LastAnswer(AdminStep(s, c)).Err?
  {
  }

  lemma ApprovalIsAbout(r: PendingReview, outcome: ExecutionOutcome)
    ensures var answer := ApprovalAnswer(r, outcome);
            answer.Ok? ==>
              !answer.value.Rejected? && !answer.value.ClaimedAcknowledged? && answer.value.id == r.requestId
  {
  }

  /** A command answers with a success only at its last step, about the review it has claimed. */
  lemma SuccessIsLast(s: State, c: Choice, id: Uuid)
    requires Inv(s) && !s.admin.Idle? && AdminStep(s, c).admin.Idle? && FinalAnswer(LastAnswer(AdminStep(s, c)), id)
    ensures s.admin.Consuming? || s.admin.ConsumingRejected? || s.admin.ConsumingAcknowledged?
    ensures s.admin.claimed.requestId == id && id in s.store.mem.claimed
  {
    match s.admin
    case Consuming(r, outcome) =>
      FlightFacts(s, r);
      ApprovalIsAbout(r, outcome);
    case ConsumingRejected(r) => FlightFacts(s, r);
    case ConsumingAcknowledged(r) => RecordedFacts(s, r.requestId);
    case AuditingApproval(r) => ApprovalGoesOn(s, c);
    case _ => OnlyErrors(s, c);
  }

  lemma ConsumedStep(s: State, c: Choice)
    requires s.admin.Consuming? || s.admin.ConsumingRejected? || s.admin.ConsumingAcknowledged?
    ensures var next := AdminStep(s, c);
            var (store, result) := Consume(s.store, s.admin.claimed.requestId, c.save);
            && next.store == store && next.used == s.used && next.agents == s.agents
            && (LastAnswer(next).Ok? && !LastAnswer(next).value.AcknowledgementUncertain? ==> result.Ok?)
  {
  }

  lemma AnsweredIsGone(s: State, c: Choice, id: Uuid)
    requires Inv(s) && !s.admin.Idle? && AdminStep(s, c).admin.Idle? && FinalAnswer(LastAnswer(AdminStep(s, c)), id)
    ensures Gone(AdminStep(s, c), id)
  {
    SuccessIsLast(s, c, id);
    ConsumedNowhere(s, id, c.save);
    assert IdInv(s, id) && ImageOk(s, s.store.mem, id);
    ConsumedStep(s, c);
  }

  /** A command about `id` ended at step `j` with an answer that is final. */
  ghost predicate AnsweredFinally(run: seq<State>, j: nat, c: Choice, id: Uuid) {
    && 0 < j < |run| && !run[j - 1].admin.Idle?
    && run[j] == AdminStep(run[j - 1], c) && run[j].admin.Idle? && FinalAnswer(LastAnswer(run[j]), id)
  }

  lemma AnsweredGone(run: seq<State>, j: nat, c: Choice, id: Uuid)
    requires IsRun(run) && AnsweredFinally(run, j, c, id)
    ensures Gone(run[j], id)
  {
    RunInv(run, j - 1);
    AnsweredIsGone(run[j - 1], c, id);
  }

  lemma RunGone(run: seq<State>, k: nat, id: Uuid)
    requires IsRun(run) && k < |run| && Gone(run[k], id)
    ensures Dormant(run[k], id) && Nowhere(run[k], id)
  {
    RunInv(run, k);
    GoneIsDormant(run[k], id);
  }

  /** In every run, once a request has been answered as rejected, acknowledged or executed, it is in no map, no
      file and no surviving image ever after, and is never invoked again. */
  lemma AnsweredIsFinal(run: seq<State>, j: nat, c: Choice, k: nat, id: Uuid)
    requires IsRun(run) && j <= k < |run| && AnsweredFinally(run, j, c, id)
    ensures Nowhere(run[k], id)
    ensures NotInvokedSince(|run[j].trace|, run[k], id)
  {
    AnsweredGone(run, j, c, id);
    GoneForGood(run, j, k, id);
    RunGone(run, j, id);
    RunGone(run, k, id);
    DormantForGood(run, j, k, id);
  }

  // ---------------------------------------------------------------- when a request can still be invoked

  ghost predicate Continuation(run: seq<State>, more: seq<State>) {
    IsRun(more) && Grew(run, more)
  }

  ghost predicate InvokedLater(s: State, later: State, id: Uuid) {
    !NotInvokedSince(|s.trace|, later, id)
  }

  /** Some continuation of the run invokes the request. */
  ghost predicate CanStillBeInvoked(run: seq<State>, id: Uuid)
    requires run != []
  {
    exists more :: Continuation(run, more) && InvokedLater(run[|run| - 1], more[|more| - 1], id)
  }

  lemma PendingOrNever(run: seq<State>, id: Uuid)
    requires IsRun(run) && run[|run| - 1].admin.Idle? && Drawn(run[|run| - 1], id)
    requires PendingNowhere(run[|run| - 1].store, id)
    ensures !CanStillBeInvoked(run, id)
  {
    var last := |run| - 1;
    forall more | Continuation(run, more) ensures !InvokedLater(run[|run| - 1], more[|more| - 1], id) {
      DormantForGood(more, last, |more| - 1, id);
    }
  }

  // What nothing in particular happens in.
  function Calm(site: Site): Choice {
    Choice(Committed, Recorded, true, World(Err(""), NotSpawned(""), Err(""), site), NOTHING_READ)
  }

  lemma RevalidatesCalmly(s: State, review: PendingReview, reading: Fingerprint.Reading)
    requires Revalidates(s.home, s.site, review, reading) && s.admin == Revalidating(review)
    ensures var c := Calm(s.site).(reading := reading);
            Allowed(s, c) && AdminStep(s, c) == Goto(Note(s, Revalidated(review)), Claiming(review))
  {
  }

  lemma ApprovalReachesClaim(run: seq<State>, s: State, id: Uuid, reading: Fingerprint.Reading)
    returns (more: seq<State>, t: State)
    requires Reached(run, s) && s.admin.Idle? && id in s.store.mem.reviews
    requires Revalidates(s.home, s.site, s.store.mem.reviews[id], reading)
    ensures Reached(more, t) && Grew(run, more)
    ensures t.admin == Claiming(s.store.mem.reviews[id])
    ensures t.site == s.site && t.home == s.home && t.config == s.config && t.store == s.store && t.agents == s.agents
    ensures s.trace <= t.trace && s.store.mem.reviews[id].requestId == id
  {
    var review := s.store.mem.reviews[id];
    ReachedInv(run, s);
    RecordedFacts(s, id);
    OneMore(run, s, AdminBegins(Approve(id)));
    var s1 := Begin(s, Approve(id));
    var run1 := run + [s1];
    OneMore(run1, s1, AdminContinues(Calm(s.site)));
    var s2 := Goto(s1, Revalidating(review));
    assert AdminStep(s1, Calm(s.site)) == s2;
    var run2 := run1 + [s2];
    RevalidatesCalmly(s2, review, reading);
    var c := Calm(s.site).(reading := reading);
    OneMore(run2, s2, AdminContinues(c));
    more, t := run2 + [AdminStep(s2, c)], AdminStep(s2, c);
  }

  lemma RecordsReachOperation(run: seq<State>, s: State, review: PendingReview) returns (more: seq<State>, t: State)
    requires Reached(run, s) && s.admin == AuditingApproval(review)
    ensures Reached(more, t) && Grew(run, more)
    ensures t.admin == Invoking(review) && t.site == s.site && t.home == s.home && t.config == s.config
    ensures t.store == s.store && s.trace <= t.trace && t.agents == s.agents
  {
    var calm := Calm(s.site);
    ReachedInv(run, s);
    FlightFacts(s, review);
    var s1 := Goto(Note(s, Logged(review.requestId, Approval, NotExecuted)), AuditingPreExecution(review));
    assert AdminStep(s, calm) == s1;
    OneMore(run, s, AdminContinues(calm));
    var run1 := run + [s1];
    t := Goto(Note(s1, Logged(review.requestId, PreExecution, NotExecuted)), Invoking(review));
    assert AdminStep(s1, calm) == t;
    OneMore(run1, s1, AdminContinues(calm));
    more := run1 + [t];
  }

  lemma ClaimReachesOperation(run: seq<State>, s: State, review: PendingReview) returns (more: seq<State>, t: State)
    requires Reached(run, s) && s.admin == Claiming(review)
    requires review.requestId in s.store.mem.reviews && s.store.mem.reviews[review.requestId] == review
    ensures Reached(more, t) && Grew(run, more)
    ensures t.admin == Invoking(review) && t.site == s.site && t.home == s.home && t.config == s.config
    ensures t.store.surviving == {t.store.mem} && s.trace <= t.trace && t.agents == s.agents
  {
    var calm := Calm(s.site);
    ReachedInv(run, s);
    ClaimThenRestore(s.store, review.requestId);
    var s1 := Goto(Put(s, Claim(s.store, review.requestId, Committed).0), AuditingApproval(review));
    assert AdminStep(s, calm) == s1;
    OneMore(run, s, AdminContinues(calm));
    more, t := RecordsReachOperation(run + [s1], s1, review);
  }

  /** From an idle state in which the review is pending and its evidence still holds, an approval reaches its
      operation. */
  lemma ApprovalReachesOperation(run: seq<State>, s: State, id: Uuid, reading: Fingerprint.Reading)
    returns (more: seq<State>, t: State)
    requires Reached(run, s) && s.admin.Idle? && id in s.store.mem.reviews
    requires Revalidates(s.home, s.site, s.store.mem.reviews[id], reading)
    ensures Reached(more, t) && Grew(run, more)
    ensures t.admin == Invoking(s.store.mem.reviews[id]) && t.site == s.site && t.home == s.home && t.config == s.config
    ensures t.store.surviving == {t.store.mem} && s.store.mem.reviews[id].requestId == id
    ensures s.trace <= t.trace && t.agents == s.agents
  {
    var review := s.store.mem.reviews[id];
    more, t := ApprovalReachesClaim(run, s, id, reading);
    more, t := ClaimReachesOperation(more, t, review);
  }

  lemma DoingNothing(home: Home, site: Site, review: PendingReview)
    requires ValidSite(home, site)
    ensures Possible(home, site, review, Calm(site).world)
  {
  }

  lemma CalmlyInvoked(s: State, review: PendingReview)
    requires s.admin == Invoking(review) && ValidSite(s.home, s.site)
    ensures Allowed(s, Calm(s.site))
    ensures InvokedAt(AdminStep(s, Calm(s.site)).trace, |s.trace|, review.requestId)
  {
    DoingNothing(s.home, s.site, review);
  }

  /** The operation is invoked, and may fail without having done anything. */
  lemma OperationIsInvoked(run: seq<State>, s: State, review: PendingReview) returns (more: seq<State>)
    requires Reached(run, s) && s.admin == Invoking(review)
    ensures IsRun(more) && Grew(run, more)
    ensures InvokedAt(more[|more| - 1].trace, |s.trace|, review.requestId)
  {
    RunSights(run, |run| - 1);
    CalmlyInvoked(s, review);
    OneMore(run, s, AdminContinues(Calm(s.site)));
    more := run + [AdminStep(s, Calm(s.site))];
  }

  // ---------------------------------------------------------------- a site in which the evidence holds

  /** The workspace with something under the manifest's name, if nothing is there. */
  ghost function WithManifest(home: Home, site: Site): Site {
    var p := home.root + [FileTree.CARGO_TOML];
    if p in site.tree then site
    else
      var inode := if [] in site.folders then Disk.Largest(site.folders[[]].inodes.Keys) + 1 else 0;
      site.(tree := site.tree[p := FileTree.Directory],
            folders := Mirror.Placed(site.folders, home.root, p, WriteFile.Folder, inode))
  }

  /** A new directory, in the tree and on disk. */
  lemma DirectoryAdded(home: Home, site: Site, p: FileTree.Path, inode: Disk.Inode)
    requires ValidSite(home, site) && Snapshot.CanCreate(site.tree, p)
    requires Mirror.FreshFor(site.folders, home.root, p, inode)
    ensures ValidSite(home, site.(tree := site.tree[p := FileTree.Directory],
                                  folders := Mirror.Placed(site.folders, home.root, p, WriteFile.Folder, inode)))
  {
    var after := site.tree[p := FileTree.Directory];
    Snapshot.AddItem(site.tree, p, FileTree.Directory);
    Mirror.PlacedMirrors(site.tree, after, home.root, p, site.folders, WriteFile.Folder, inode);
  }

  lemma ManifestShown(home: Home, site: Site)
    requires ValidSite(home, site)
    ensures ValidSite(home, WithManifest(home, site))
    ensures home.root + [FileTree.CARGO_TOML] in WithManifest(home, site).tree
  {
    var p := home.root + [FileTree.CARGO_TOML];
    var with := WithManifest(home, site);
    if p !in site.tree {
      var inode := if [] in site.folders then Disk.Largest(site.folders[[]].inodes.Keys) + 1 else 0;
      assert p[|home.root|..|p| - 1] == [] && p[..|p| - 1] == home.root;
      DirectoryAdded(home, site, p, inode);
    }
  }

  /** For every recorded review there is a workspace in which its evidence holds: the one it was captured in, with a
      manifest, and walked over as it was then. */
  lemma EvidenceCanHold(run: seq<State>, s: State, id: Uuid) returns (site: Site, reading: Fingerprint.Reading)
    requires Reached(run, s) && id in s.recorded
    ensures ValidSite(s.home, site) && Revalidates(s.home, site, s.recorded[id], reading)
  {
    var review := s.recorded[id];
    var last := |run| - 1;
    ReachedInv(run, s);
    assert IdInv(s, id);
    RecordedWasBuilt(run, last, id);
    var j: nat :| j < last && BuiltAt(run, j, review);
    reading :| BuiltFrom(run, j, review, reading);
    BuiltEvidence(run, j, review, reading);
    RunExtends(run, j, last);
    RunSights(run, j);
    site := run[j].site;
    match review.request {
      case RunCargoTest =>
        ManifestShown(s.home, site);
        site := WithManifest(s.home, site);
      case HttpRequest(_, url, _) => site := site.(destinations := {url});
      case _ =>
    }
  }

  /** After a power loss that brings the image back, and with the workspace as it was, the review is pending and
      its evidence holds. */
  lemma PendingComesBack(run: seq<State>, s: State, id: Uuid, image: Store)
    returns (more: seq<State>, t: State, reading: Fingerprint.Reading)
    requires Reached(run, s) && image in s.store.surviving && id in image.reviews
    ensures Reached(more, t) && Grew(run, more) && s.trace <= t.trace
    ensures t.admin.Idle? && t.store.mem == image && image.reviews[id].requestId == id
    ensures Revalidates(t.home, t.site, image.reviews[id], reading)
  {
    ReachedInv(run, s);
    assert IdInv(s, id) && ImageOk(s, image, id);
    OneMore(run, s, PowerFails(s.config, image));
    var s1 := Stop(s, s.config, Recover(image));
    var site;
    site, reading := EvidenceCanHold(run + [s1], s1, id);
    OneMore(run + [s1], s1, OthersMove(site));
    more, t := run + [s1] + [s1.(site := site)], s1.(site := site);
  }

  lemma PendingThenInvoked(run: seq<State>, id: Uuid, image: Store)
    requires IsRun(run) && image in run[|run| - 1].store.surviving && id in image.reviews
    ensures CanStillBeInvoked(run, id)
  {
    var s := run[|run| - 1];
    var run2, s2, reading := PendingComesBack(run, s, id, image);
    var run3, t := ApprovalReachesOperation(run2, s2, id, reading);
    var more := OperationIsInvoked(run3, t, image.reviews[id]);
    assert Continuation(run, more);
    assert |s.trace| <= |t.trace| && InvokedAt(more[|more| - 1].trace, |t.trace|, id);
    assert InvokedLater(run[|run| - 1], more[|more| - 1], id);
  }

  /** Between commands, a drawn request can still be invoked, in some continuation, exactly if some image that
      could come back has it pending. */
  lemma InvocableIffPending(run: seq<State>, id: Uuid)
    requires IsRun(run) && run[|run| - 1].admin.Idle? && Drawn(run[|run| - 1], id)
    ensures CanStillBeInvoked(run, id) <==> !PendingNowhere(run[|run| - 1].store, id)
  {
    var s := run[|run| - 1];
    if PendingNowhere(s.store, id) {
      PendingOrNever(run, id);
    } else {
      var image :| image in s.store.surviving && id in image.reviews;
      PendingThenInvoked(run, id, image);
    }
  }
}
