/** What an error tells the agent: exactly when a call that ends with one has nevertheless put its review
    before the administrator (src/main.rs). */
module AgentCalls {
  import opened Wrappers
  import opened Execution
  import opened Persisted
  import opened StoreOperations
  import opened Workplace
  import opened Lifecycle
  import opened LifecycleInvariant
  import opened LifecycleSteps
  import opened Guarantees
  import Policy

  // ---------------------------------------------------------------- what a call and its error say

  ghost predicate FailedIn(trace: seq<AgentEvent>, id: Uuid, error: AgentError) {
    AgentFailed(id, error) in trace
  }

  ghost predicate NeverFailed(s: State, id: Uuid) {
    forall error :: !FailedIn(s.agentTrace, id, error)
  }

  /** The call's review has been inserted, whether or not that is known to be durable. */
  ghost predicate Inserted(s: State, id: Uuid) {
    id in s.held || FailedIn(s.agentTrace, id, NotInserted(DurabilityUncertain))
  }

  ghost predicate AgentCallOk(s: State, id: Uuid, agent: AgentState) {
    match agent
    case Holding(review) => id in s.recorded && s.recorded[id] == review && id !in s.held
    case Reporting(_, decision, purpose) =>
      && (decision.Review? <==> id in s.recorded) && (id in s.held <==> id in s.recorded)
      && (id in s.recorded ==> s.recorded[id].purpose == purpose)
    case AuditingStart(_) => id !in s.recorded && id !in s.held
    case Running(_) => id !in s.recorded && id !in s.held
    case AuditingEnd(_) => true
  }

  /** What an error says about the call it ended. */
  ghost predicate ErrorOk(s: State, id: Uuid, error: AgentError) {
    match error
    case NotCaptured => id !in s.recorded && id !in s.held
    case NotInserted(e) => id in s.recorded && id !in s.held && (e.NotPersisted? || e.DurabilityUncertain?)
    case InvalidPurpose =>
      && (id in s.held <==> id in s.recorded)
      && (id in s.recorded ==> !ValidPurpose(s.home, s.recorded[id].purpose))
    case NotAudited => id !in s.recorded && id !in s.held
  }

  ghost predicate CallInv(s: State, id: Uuid) {
    && (forall image <- s.store.surviving :: Holds(image, id) ==> Inserted(s, id))
    && (id in s.agents ==> NeverFailed(s, id) && AgentCallOk(s, id, s.agents[id]))
    && (forall error | FailedIn(s.agentTrace, id, error) :: ErrorOk(s, id, error))
    && (forall e, error | FailedIn(s.agentTrace, id, e) && FailedIn(s.agentTrace, id, error) :: e == error)
    && (id !in s.used ==> NeverFailed(s, id) && id !in s.recorded && id !in s.held)
  }

  // ---------------------------------------------------------------- steps

  /** A step that touches neither calls nor records, and puts nothing new into any image. */
  lemma UntouchedCall(s: State, next: State, id: Uuid)
    requires CallInv(s, id)
    requires next.home == s.home && next.recorded == s.recorded && next.held == s.held && next.used == s.used
    requires next.agentTrace == s.agentTrace && (next.agents == s.agents || next.agents == map[])
    requires forall image <- next.store.surviving :: Holds(image, id) ==>
               exists was <- s.store.surviving :: Holds(was, id)
    ensures CallInv(next, id)
  {
    forall error ensures FailedIn(next.agentTrace, id, error) <==> FailedIn(s.agentTrace, id, error) {}
  }

  /** Only an insertion puts a new id into an image. */
  lemma NothingNew(d: DurableStore, k: Uuid, pending: PendingReview, save: SaveOutcome, id: Uuid)
    requires ValidDurable(d)
    ensures forall image <- Claim(d, k, save).0.surviving :: Holds(image, id) ==>
              exists was <- d.surviving :: Holds(was, id)
    ensures forall image <- Consume(d, k, save).0.surviving :: Holds(image, id) ==>
              exists was <- d.surviving :: Holds(was, id)
    ensures forall image <- Restore(d, pending, save).0.surviving :: Holds(image, id) ==>
              exists was <- d.surviving :: Holds(was, id)
  {
    assert d.mem in d.surviving;
  }

  lemma RejectingNothingNew(s: State, c: Choice, id: Uuid)
    requires ValidDurable(s.store) && s.admin.Rejecting?
    ensures forall image <- AdminStep(s, c).store.surviving :: Holds(image, id) ==>
              exists was <- s.store.surviving :: Holds(was, id)
  {
    var k := s.admin.id;
    assert s.store.mem in s.store.surviving;
    if k in s.store.mem.reviews {
      NothingNew(s.store, k, s.store.mem.reviews[k], c.save, id);
    }
  }

  lemma AdminNothingNew(s: State, c: Choice, id: Uuid)
    requires ValidDurable(s.store) && !s.admin.Idle?
    ensures forall image <- AdminStep(s, c).store.surviving :: Holds(image, id) ==>
              exists was <- s.store.surviving :: Holds(was, id)
  {
    match s.admin
    case Claiming(p) => NothingNew(s.store, p.requestId, p, c.save, id);
    case Rejecting(k) => RejectingNothingNew(s, c, id);
    case Restoring(r) => NothingNew(s.store, r.requestId, r, c.save, id);
    case Consuming(r, _) => NothingNew(s.store, r.requestId, r, c.save, id);
    case ConsumingRejected(r) => NothingNew(s.store, r.requestId, r, c.save, id);
    case ConsumingAcknowledged(r) => NothingNew(s.store, r.requestId, r, c.save, id);
    case _ => StepFrame(s, c);
  }

  /** A step of another call. */
  lemma OtherCall(s: State, next: State, k: Uuid, id: Uuid)
    requires CallInv(s, id) && k != id
    requires next.home == s.home && next.agents - {k} == s.agents - {k} && next.held - {k} == s.held - {k}
    requires next.recorded - {k} == s.recorded - {k} && next.used - {k} == s.used - {k}
    requires forall error :: FailedIn(next.agentTrace, id, error) <==> FailedIn(s.agentTrace, id, error)
    requires forall image <- next.store.surviving :: Holds(image, id) ==>
               exists was <- s.store.surviving :: Holds(was, id)
    ensures CallInv(next, id)
  {
    assert id in next.agents <==> id in next.agents - {k};
    assert id in s.agents <==> id in s.agents - {k};
    assert id in next.held <==> id in next.held - {k};
    assert id in s.held <==> id in s.held - {k};
    assert id in next.recorded <==> id in next.recorded - {k};
    assert id in s.recorded <==> id in s.recorded - {k};
    assert id in next.used <==> id in next.used - {k};
    assert id in s.used <==> id in s.used - {k};
    if id in s.agents {
      assert next.agents[id] == (next.agents - {k})[id] == s.agents[id];
    }
    if id in s.recorded {
      assert next.recorded[id] == (next.recorded - {k})[id] == s.recorded[id];
    }
  }

  /** A call's own error, when it had none before. */
  lemma FailedNow(trace: seq<AgentEvent>, id: Uuid, error: AgentError)
    requires forall e :: !FailedIn(trace, id, e)
    ensures forall e :: FailedIn(trace + [AgentFailed(id, error)], id, e) <==> e == error
    ensures forall k, e | k != id :: FailedIn(trace + [AgentFailed(id, error)], k, e) <==> FailedIn(trace, k, e)
  {
    var all := trace + [AgentFailed(id, error)];
    assert all[|trace|] == AgentFailed(id, error);
    forall e ensures FailedIn(all, id, e) <==> e == error {
      assert !FailedIn(trace, id, e);
    }
  }

  lemma LoggedNow(trace: seq<AgentEvent>, event: AgentEvent)
    requires !event.AgentFailed?
    ensures forall k, e :: FailedIn(trace + [event], k, e) <==> FailedIn(trace, k, e)
  {
  }

  /** A call that ends with an error. */
  lemma FailingCall(s: State, id: Uuid, error: AgentError)
    requires CallInv(s, id) && id in s.agents && id in s.used && ErrorOk(s, id, error)
    requires error != NotInserted(DurabilityUncertain)
    ensures CallInv(AgentFails(s, id, error), id)
  {
    FailedNow(s.agentTrace, id, error);
    var next := AgentFails(s, id, error);
    forall e ensures FailedIn(next.agentTrace, id, e) <==> e == error {}
    assert ErrorOk(next, id, error);
  }

  lemma FailingOther(s: State, k: Uuid, error: AgentError, id: Uuid)
    requires CallInv(s, id) && k != id && NeverFailed(s, k)
    ensures CallInv(AgentFails(s, k, error), id)
  {
    FailedNow(s.agentTrace, k, error);
    var next := AgentFails(s, k, error);
    forall e ensures FailedIn(next.agentTrace, id, e) <==> FailedIn(s.agentTrace, id, e) {}
    OtherCall(s, next, k, id);
  }

  // ---------------------------------------------------------------- one call moving on

  lemma FailsCall(s: State, k: Uuid, error: AgentError, id: Uuid)
    requires Inv(s) && CallInv(s, id) && CallInv(s, k) && k in s.agents && ErrorOk(s, k, error)
    requires error != NotInserted(DurabilityUncertain)
    ensures CallInv(AgentFails(s, k, error), id)
  {
    assert IdInv(s, k);
    if k == id {
      FailingCall(s, id, error);
    } else {
      FailingOther(s, k, error, id);
    }
  }

  /** A step of a call that does not end with an error and leaves the store alone. */
  lemma QuietCall(s: State, next: State, k: Uuid, id: Uuid)
    requires CallInv(s, id) && CallInv(s, k)
    requires next.home == s.home && next.store == s.store && next.held == s.held && next.recorded == s.recorded
    requires next.used == s.used && next.agents - {k} == s.agents - {k}
    requires k in next.agents ==> AgentCallOk(next, k, next.agents[k]) && k in s.agents
    requires forall j, e :: FailedIn(next.agentTrace, j, e) <==> FailedIn(s.agentTrace, j, e)
    ensures CallInv(next, id)
  {
    forall e ensures FailedIn(next.agentTrace, id, e) <==> FailedIn(s.agentTrace, id, e) {}
    if k != id {
      OtherCall(s, next, k, id);
    }
  }

  lemma MoveCall(s: State, k: Uuid, c: Choice, id: Uuid)
    requires Inv(s) && CallInv(s, id) && CallInv(s, k) && k in s.agents && !s.agents[k].Holding?
    ensures CallInv(AgentStep(s, k, c), id)
  {
    match s.agents[k]
    case Reporting(_, _, purpose) =>
      if !ValidPurpose(s.home, purpose) {
        FailsCall(s, k, InvalidPurpose, id);
      } else {
        QuietCall(s, AgentStep(s, k, c), k, id);
      }
    case AuditingStart(request) =>
      if c.audit.Recorded? {
        LoggedNow(s.agentTrace, AgentLogged(k, PreExecution, NotExecuted));
        QuietCall(s, AgentStep(s, k, c), k, id);
      } else {
        FailsCall(s, k, NotAudited, id);
      }
    case Running(request) =>
      LoggedNow(s.agentTrace, AgentRefused(k, request));
      LoggedNow(s.agentTrace, AgentInvoked(k, request, c.valid));
      QuietCall(s, AgentStep(s, k, c), k, id);
    case AuditingEnd(outcome) =>
      LoggedNow(s.agentTrace, AgentLogged(k, Completion, outcome));
      QuietCall(s, AgentStep(s, k, c), k, id);
  }

  lemma InsertImages(d: DurableStore, review: PendingReview, save: SaveOutcome, k: Uuid)
    requires ValidDurable(d) && review.requestId !in d.mem.reviews
    ensures var (after, result) := Insert(d, review, save);
            && (k != review.requestId ==>
                  forall image <- after.surviving :: Holds(image, k) ==> exists was <- d.surviving :: Holds(was, k))
            && (result.Err? ==> result.error.NotPersisted? || result.error.DurabilityUncertain?)
            && (result == Err(NotPersisted) ==> after == d)
            && (result != Err(NotPersisted) ==> Holds(after.mem, review.requestId))
  {
    assert d.mem in d.surviving;
  }

  lemma InsertedCall(s: State, id: Uuid, c: Choice, k: Uuid)
    requires CallInv(s, id) && CallInv(s, k) && id in s.agents && s.agents[id].Holding? && id in s.used
    requires s.agents[id].review.requestId == id
    requires Insert(s.store, s.agents[id].review, c.save).1.Ok?
    requires k != id ==> forall image <- AgentStep(s, id, c).store.surviving ::
                           Holds(image, k) ==> exists was <- s.store.surviving :: Holds(was, k)
    ensures CallInv(AgentStep(s, id, c), k)
  {
    var next := AgentStep(s, id, c);
    assert next.agentTrace == s.agentTrace;
    forall e ensures FailedIn(next.agentTrace, k, e) <==> FailedIn(s.agentTrace, k, e) {}
    if k != id {
      OtherCall(s, next, id, k);
    }
  }

  lemma UncertainCall(s: State, id: Uuid, store: DurableStore)
    requires CallInv(s, id) && id in s.agents && s.agents[id].Holding? && id in s.used
    ensures CallInv(AgentFails(Put(s, store), id, NotInserted(DurabilityUncertain)), id)
  {
    FailedNow(s.agentTrace, id, NotInserted(DurabilityUncertain));
    var next := AgentFails(Put(s, store), id, NotInserted(DurabilityUncertain));
    forall e ensures FailedIn(next.agentTrace, id, e) <==> e == NotInserted(DurabilityUncertain) {}
  }

  /** The step that inserts a review: Ok, rolled back, or held although the agent is told of an error. */
  lemma InsertCall(s: State, id: Uuid, c: Choice, k: Uuid)
    requires Inv(s) && CallInv(s, id) && CallInv(s, k) && id in s.agents && s.agents[id].Holding?
    ensures CallInv(AgentStep(s, id, c), k)
  {
    var review := s.agents[id].review;
    assert IdInv(s, id) && ImageOk(s, s.store.mem, id);
    var (store, result) := Insert(s.store, review, c.save);
    InsertImages(s.store, review, c.save, k);
    if result.Ok? {
      InsertedCall(s, id, c, k);
    } else if k != id {
      FailingOther(Put(s, store), id, NotInserted(result.error), k);
    } else if result.error.NotPersisted? {
      FailingCall(Put(s, store), id, NotInserted(result.error));
    } else {
      UncertainCall(s, id, store);
    }
  }

  // ---------------------------------------------------------------- a call beginning

  lemma StartedCall(s: State, id: Uuid, request: ExecutionRequest, inScope: bool, purpose: string, evidence: Evidence)
    requires CallInv(s, id) && id !in s.used && id !in s.agents
    ensures CallInv(AgentStart(s, id, request, inScope, purpose, evidence), id)
  {
    var next := AgentStart(s, id, request, inScope, purpose, evidence);
    if Policy.EvaluateRequest(request, inScope, s.config).decision.Review?
      && BuildReview(id, request, purpose, evidence).None? {
      FailedNow(s.agentTrace, id, NotCaptured);
      forall e ensures FailedIn(next.agentTrace, id, e) <==> e == NotCaptured {}
    } else {
      forall e ensures !FailedIn(next.agentTrace, id, e) { assert !FailedIn(s.agentTrace, id, e); }
    }
  }

  lemma StartCall(
    s: State, k: Uuid, request: ExecutionRequest, inScope: bool, purpose: string, evidence: Evidence, id: Uuid)
    requires Inv(s) && CallInv(s, id) && CallInv(s, k) && k !in s.used
    ensures CallInv(AgentStart(s, k, request, inScope, purpose, evidence), id)
  {
    var next := AgentStart(s, k, request, inScope, purpose, evidence);
    assert IdInv(s, k);
    FailedNow(s.agentTrace, k, NotCaptured);
    if k != id {
      forall e ensures FailedIn(next.agentTrace, id, e) <==> FailedIn(s.agentTrace, id, e) {}
      OtherCall(s, next, k, id);
    } else {
      StartedCall(s, id, request, inScope, purpose, evidence);
    }
  }

  // ---------------------------------------------------------------- every step, every run

  lemma StepCall(s: State, step: Step, id: Uuid)
    requires Inv(s) && Enabled(s, step) && forall k :: CallInv(s, k)
    ensures CallInv(Apply(s, step), id)
  {
    match step
    case AdminContinues(c) =>
      StepFrame(s, c);
      AdminNothingNew(s, c, id);
      UntouchedCall(s, AdminStep(s, c), id);
    case AgentBegins(k, request, inScope, purpose, evidence, _) =>
      StartCall(s, k, request, inScope, purpose, evidence, id);
    case AgentContinues(k, c) =>
      if s.agents[k].Holding? {
        InsertCall(s, k, c, id);
      } else {
        MoveCall(s, k, c, id);
      }
    case _ => UntouchedCall(s, Apply(s, step), id);
  }

  ghost predicate CallsInv(s: State) {
    forall id :: CallInv(s, id)
  }

  lemma StepCalls(s: State, step: Step)
    requires Inv(s) && Enabled(s, step) && CallsInv(s)
    ensures CallsInv(Apply(s, step))
  {
    forall id ensures CallInv(Apply(s, step), id) {
      StepCall(s, step, id);
    }
  }

  lemma FirstCalls(run: seq<State>)
    requires IsRun(run)
    ensures CallsInv(run[0])
  {
    RunStarts(run);
  }

  lemma NextCalls(run: seq<State>, k: nat)
    requires IsRun(run) && 0 < k < |run| && CallsInv(run[k - 1])
    ensures CallsInv(run[k])
  {
    var step := StepOf(run, k);
    StepCalls(run[k - 1], step);
  }

  lemma {:induction false} RunCalls(run: seq<State>, k: nat)
    requires IsRun(run) && k < |run|
    ensures CallsInv(run[k])
  {
    if k == 0 {
      FirstCalls(run);
    } else {
      RunCalls(run, k - 1);
      NextCalls(run, k);
    }
  }

  // ---------------------------------------------------------------- what has been held

  ghost predicate HeldAt(run: seq<State>, m: nat, k: nat, id: Uuid) {
    m <= k < |run| && Holds(run[m].store.mem, id)
  }

  /** At some point of the run the request was in memory, for an administrator to approve. */
  ghost predicate EverHeld(run: seq<State>, k: nat, id: Uuid) {
    exists m: nat :: HeldAt(run, m, k, id)
  }

  /** What has been inserted stays known. */
  ghost predicate Remembers(s: State, next: State) {
    s.held <= next.held && s.agentTrace <= next.agentTrace
  }

  lemma StepRemembers(s: State, step: Step)
    requires Enabled(s, step)
    ensures Remembers(s, Apply(s, step))
  {
    match step
    case AdminContinues(c) => StepFrame(s, c);
    case _ =>
  }

  lemma CallInserts(s: State, k: Uuid, c: Choice, id: Uuid)
    requires Inv(s) && k in s.agents && Inserted(AgentStep(s, k, c), id) && !Inserted(s, id)
    ensures Holds(AgentStep(s, k, c).store.mem, id)
  {
    assert IdInv(s, k) && ImageOk(s, s.store.mem, k);
    if s.agents[k].Holding? {
      InsertImages(s.store, s.agents[k].review, c.save, id);
    }
  }

  lemma StepInserts(s: State, step: Step, id: Uuid)
    requires Inv(s) && Enabled(s, step) && Inserted(Apply(s, step), id) && !Inserted(s, id)
    ensures Holds(Apply(s, step).store.mem, id)
  {
    match step
    case AdminContinues(c) => StepFrame(s, c);
    case AgentContinues(k, c) => CallInserts(s, k, c, id);
    case _ =>
  }

  lemma NotInsertedFirst(run: seq<State>, k: nat, id: Uuid)
    requires IsRun(run) && k < |run| && Inserted(run[k], id)
    ensures k > 0
  {
    RunStarts(run);
  }

  lemma {:induction false} InsertedWasHeld(run: seq<State>, k: nat, id: Uuid)
    requires IsRun(run) && k < |run| && Inserted(run[k], id)
    ensures EverHeld(run, k, id)
  {
    NotInsertedFirst(run, k, id);
    var step := StepOf(run, k);
    if Inserted(run[k - 1], id) {
      InsertedWasHeld(run, k - 1, id);
      var m: nat :| HeldAt(run, m, k - 1, id);
      assert HeldAt(run, m, k, id);
    } else {
      StepInserts(run[k - 1], step, id);
      assert HeldAt(run, k, k, id);
    }
  }

  lemma NextRemembers(run: seq<State>, k: nat)
    requires IsRun(run) && 0 < k < |run|
    ensures Remembers(run[k - 1], run[k])
  {
    var step := StepOf(run, k);
    StepRemembers(run[k - 1], step);
  }

  lemma {:induction false} RunRemembers(run: seq<State>, m: nat, k: nat)
    requires IsRun(run) && m <= k < |run|
    ensures Remembers(run[m], run[k])
    decreases k
  {
    if m < k {
      RunRemembers(run, m, k - 1);
      NextRemembers(run, k);
    }
  }

  lemma HeldWasInserted(run: seq<State>, k: nat, id: Uuid)
    requires IsRun(run) && EverHeld(run, k, id)
    ensures Inserted(run[k], id)
  {
    var m: nat :| HeldAt(run, m, k, id);
    RunCalls(run, m);
    RunInv(run, m);
    assert CallInv(run[m], id);
    RunRemembers(run, m, k);
  }

  // ---------------------------------------------------------------- theorem

  /** In every run, a call that ended with an error has put its review before the administrator exactly if its
      purpose text was refused after the review was inserted, or the insertion took effect without being
      known to be durable. It has left nothing exactly if no review was built or the save was rolled back. */
  lemma FailedCallHeld(run: seq<State>, k: nat, id: Uuid, error: AgentError)
    requires IsRun(run) && k < |run| && FailedIn(run[k].agentTrace, id, error)
    ensures EverHeld(run, k, id) <==>
            id in run[k].recorded && (error.InvalidPurpose? || error == NotInserted(DurabilityUncertain))
    ensures !EverHeld(run, k, id) <==> id !in run[k].recorded || error == NotInserted(NotPersisted)
    ensures error.InvalidPurpose? && id in run[k].recorded ==> !ValidPurpose(run[k].home, run[k].recorded[id].purpose)
  {
    RunCalls(run, k);
    assert CallInv(run[k], id) && ErrorOk(run[k], id, error);
    if EverHeld(run, k, id) {
      HeldWasInserted(run, k, id);
    }
    if Inserted(run[k], id) {
      InsertedWasHeld(run, k, id);
    }
  }
}
