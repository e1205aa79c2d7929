/** How a claimed request comes to be pending in an image that could come back, and what that means for an
    acknowledgement: the exact condition on the run so far. */
module Acknowledgement {
  import opened Wrappers
  import opened Execution
  import opened Persisted
  import opened StoreOperations
  import opened Lifecycle
  import opened LifecycleInvariant
  import opened LifecycleSteps
  import opened Guarantees
  import opened Finality

  // ---------------------------------------------------------------- how images come about

  /** Memory is all that could come back: a save has committed, or power has been lost. */
  ghost predicate Settled(s: State) {
    s.store.surviving == {s.store.mem}
  }

  /** Nothing has been saved, or memory is all that could come back, or it has joined what could. */
  ghost predicate Moves(d: DurableStore, after: DurableStore) {
    after == d || after.surviving == {after.mem} || after.surviving == d.surviving + {after.mem}
  }

  lemma OperationsMove(d: DurableStore, id: Uuid, pending: PendingReview, save: SaveOutcome)
    ensures Moves(d, Claim(d, id, save).0) && Moves(d, Consume(d, id, save).0)
    ensures Moves(d, Restore(d, pending, save).0) && Moves(d, Insert(d, pending, save).0)
  {
  }

  lemma AdminMoves(s: State, c: Choice)
    requires !s.admin.Idle?
    ensures Moves(s.store, AdminStep(s, c).store)
  {
    match s.admin
    case Claiming(p) => OperationsMove(s.store, p.requestId, p, c.save);
    case Rejecting(_) =>
    case Restoring(r) => OperationsMove(s.store, r.requestId, r, c.save);
    case Consuming(r, _) => OperationsMove(s.store, r.requestId, r, c.save);
    case ConsumingRejected(r) => OperationsMove(s.store, r.requestId, r, c.save);
    case ConsumingAcknowledged(r) => OperationsMove(s.store, r.requestId, r, c.save);
    case _ => StepFrame(s, c);
  }

  lemma StepMoves(s: State, step: Step)
    requires ValidDurable(s.store) && Enabled(s, step)
    ensures Moves(s.store, Apply(s, step).store)
  {
    match step
    case AdminContinues(c) => AdminMoves(s, c);
    case AgentContinues(k, c) =>
      if s.agents[k].Holding? {
        OperationsMove(s.store, k, s.agents[k].review, c.save);
      }
    case _ =>
  }

  // ---------------------------------------------------------------- claims

  /** The step that has led to `next` is a claim of `id` answered as uncertain. */
  ghost predicate ClaimedUncertainly(s: State, next: State, id: Uuid) {
    && id in s.store.mem.reviews && id in next.store.mem.claimed
    && next.admin.Idle? && LastAnswer(next) == Err(ClaimFailed(DurabilityUncertain))
  }

  lemma ClaimMoves(d: DurableStore, k: Uuid, save: SaveOutcome, id: Uuid)
    requires id !in d.mem.claimed && id in Claim(d, k, save).0.mem.claimed
    requires Claim(d, k, save).0.surviving != {Claim(d, k, save).0.mem}
    ensures k == id && id in d.mem.reviews && Claim(d, k, save).1 == Err(DurabilityUncertain)
  {
  }

  lemma NothingClaimed(s: State, c: Choice, id: Uuid)
    requires !s.admin.Claiming? && !s.admin.Rejecting?
    ensures id !in s.store.mem.claimed ==> id !in AdminStep(s, c).store.mem.claimed
  {
    StepFrame(s, c);
  }

  lemma AdminClaims(s: State, c: Choice, id: Uuid)
    requires ValidDurable(s.store) && !s.admin.Idle?
    requires id !in s.store.mem.claimed && id in AdminStep(s, c).store.mem.claimed && !Settled(AdminStep(s, c))
    ensures ClaimedUncertainly(s, AdminStep(s, c), id)
  {
    match s.admin
    case Claiming(p) => ClaimMoves(s.store, p.requestId, c.save, id);
    case Rejecting(k) => ClaimMoves(s.store, k, c.save, id);
    case _ => NothingClaimed(s, c, id);
  }

  lemma StepClaims(s: State, step: Step, id: Uuid)
    requires ValidDurable(s.store) && Enabled(s, step)
    requires id !in s.store.mem.claimed && id in Apply(s, step).store.mem.claimed && !Settled(Apply(s, step))
    ensures ClaimedUncertainly(s, Apply(s, step), id)
  {
    match step
    case AdminContinues(c) => AdminClaims(s, c, id);
    case _ =>
  }

  // ---------------------------------------------------------------- the condition on the run

  ghost predicate SomePending(d: DurableStore, id: Uuid) {
    !PendingNowhere(d, id)
  }

  ghost predicate StillUnsettled(s: State, id: Uuid) {
    id in s.store.mem.claimed && !Settled(s)
  }

  /** Step `m` was a claim of `id` answered as uncertain, and since then, up to step `k`, the request has stayed
      claimed, no save has committed and power has not been lost. */
  ghost predicate UncertainSince(run: seq<State>, m: nat, k: nat, id: Uuid) {
    && 0 < m <= k < |run|
    && ClaimedUncertainly(run[m - 1], run[m], id)
    && forall n | m <= n <= k :: StillUnsettled(run[n], id)
  }

  lemma SettledHasNone(s: State, id: Uuid)
    requires ValidDurable(s.store) && id in s.store.mem.claimed && Settled(s)
    ensures PendingNowhere(s.store, id)
  {
    assert ValidStore(s.store.mem);
  }

  /** A step that leaves the request claimed and nothing settled changes nothing about it. */
  lemma UnsettledStep(d: DurableStore, after: DurableStore, id: Uuid)
    requires Moves(d, after) && ValidDurable(after)
    requires id in after.mem.claimed && after.surviving != {after.mem}
    ensures id in d.mem.claimed ==> (SomePending(d, id) <==> SomePending(after, id))
    ensures id in d.mem.reviews && d.mem in d.surviving ==> SomePending(after, id)
  {
    assert ValidStore(after.mem);
  }

  lemma RunMoves(run: seq<State>, k: nat) returns (step: Step)
    requires IsRun(run) && 0 < k < |run|
    ensures Enabled(run[k - 1], step) && run[k] == Apply(run[k - 1], step)
    ensures ValidDurable(run[k - 1].store) && ValidDurable(run[k].store)
    ensures Moves(run[k - 1].store, run[k].store)
  {
    RunInv(run, k);
    step := StepOf(run, k);
    StepMoves(run[k - 1], step);
  }

  lemma StoresMove(run: seq<State>, k: nat)
    requires IsRun(run) && 0 < k < |run|
    ensures ValidDurable(run[k - 1].store) && ValidDurable(run[k].store)
    ensures Moves(run[k - 1].store, run[k].store)
  {
    var step := RunMoves(run, k);
  }

  lemma NewlyClaimed(run: seq<State>, k: nat, id: Uuid)
    requires IsRun(run) && 0 < k < |run| && id !in run[k - 1].store.mem.claimed && StillUnsettled(run[k], id)
    ensures ClaimedUncertainly(run[k - 1], run[k], id)
  {
    var step := RunMoves(run, k);
    StepClaims(run[k - 1], step, id);
  }

  lemma PendingUnsettled(run: seq<State>, k: nat, id: Uuid)
    requires IsRun(run) && k < |run| && id in run[k].store.mem.claimed && SomePending(run[k].store, id)
    ensures k > 0 && StillUnsettled(run[k], id)
  {
    RunStarts(run);
    RunInv(run, k);
    if Settled(run[k]) {
      SettledHasNone(run[k], id);
    }
  }

  lemma {:induction false} PendingSinceClaim(run: seq<State>, k: nat, id: Uuid) returns (m: nat)
    requires IsRun(run) && k < |run| && id in run[k].store.mem.claimed && SomePending(run[k].store, id)
    ensures UncertainSince(run, m, k, id)
  {
    PendingUnsettled(run, k, id);
    if id in run[k - 1].store.mem.claimed {
      StoresMove(run, k);
      UnsettledStep(run[k - 1].store, run[k].store, id);
      m := PendingSinceClaim(run, k - 1, id);
    } else {
      NewlyClaimed(run, k, id);
      m := k;
    }
  }

  lemma {:induction false} UncertainStaysPending(run: seq<State>, m: nat, k: nat, id: Uuid)
    requires IsRun(run) && UncertainSince(run, m, k, id)
    ensures SomePending(run[k].store, id)
    decreases k
  {
    StoresMove(run, k);
    assert StillUnsettled(run[k], id);
    UnsettledStep(run[k - 1].store, run[k].store, id);
    if m < k {
      assert StillUnsettled(run[k - 1], id);
      UncertainStaysPending(run, m, k - 1, id);
    }
  }

  /** A claimed request is pending in an image that could come back exactly if its claim was answered as
      uncertain, and no save has committed and power has not been lost since. */
  lemma PendingIffUncertainClaim(run: seq<State>, k: nat, id: Uuid)
    requires IsRun(run) && k < |run| && id in run[k].store.mem.claimed
    ensures SomePending(run[k].store, id) <==> exists m: nat :: UncertainSince(run, m, k, id)
  {
    if SomePending(run[k].store, id) {
      var m := PendingSinceClaim(run, k, id);
    }
    if m: nat :| UncertainSince(run, m, k, id) {
      UncertainStaysPending(run, m, k, id);
    }
  }

  // ---------------------------------------------------------------- acknowledgements

  /** Step `k + 1` answers an acknowledgement of `id` with one of its two successes. */
  ghost predicate Acknowledges(run: seq<State>, k: nat, c: Choice, id: Uuid) {
    && k + 1 < |run| && run[k].admin.ConsumingAcknowledged? && run[k].admin.claimed.requestId == id
    && run[k + 1] == AdminStep(run[k], c) && LastAnswer(run[k + 1]).Ok?
  }

  lemma ConsumeOutcomes(d: DurableStore, id: Uuid, save: SaveOutcome)
    requires ValidDurable(d) && id in d.mem.claimed
    ensures var (after, result) := Consume(d, id, save);
            && (result.Ok? ==> PendingNowhere(after, id))
            && (result == Err(DurabilityUncertain) ==> (SomePending(after, id) <==> SomePending(d, id)))
            && (result.Err? ==> result.error.DurabilityUncertain? || result.error.NotPersisted?)
  {
    assert ValidStore(d.mem);
  }

  lemma AcknowledgedStore(s: State, c: Choice)
    requires Inv(s) && s.admin.ConsumingAcknowledged? && LastAnswer(AdminStep(s, c)).Ok?
    ensures var id, next := s.admin.claimed.requestId, AdminStep(s, c);
            && id in s.store.mem.claimed && next.admin.Idle? && Drawn(next, id)
            && (LastAnswer(next).value.ClaimedAcknowledged? ==> PendingNowhere(next.store, id))
            && (LastAnswer(next) == Ok(AcknowledgementUncertain(id)) ==>
                  (SomePending(next.store, id) <==> SomePending(s.store, id)))
  {
    var id := s.admin.claimed.requestId;
    RecordedFacts(s, id);
    assert IdInv(s, id) && ImageOk(s, s.store.mem, id);
    ConsumedStep(s, c);
    ConsumeOutcomes(s.store, id, c.save);
  }

  lemma RunAcknowledged(run: seq<State>, k: nat, c: Choice, id: Uuid)
    requires IsRun(run) && k + 1 < |run| && Acknowledges(run, k, c, id)
    ensures var next := run[k + 1];
            && id in run[k].store.mem.claimed && next.admin.Idle? && Drawn(next, id)
            && (LastAnswer(next).value.ClaimedAcknowledged? ==> PendingNowhere(next.store, id))
            && (LastAnswer(next) == Ok(AcknowledgementUncertain(id)) ==>
                  (SomePending(next.store, id) <==> SomePending(run[k].store, id)))
  {
    RunInv(run, k);
    AcknowledgedStore(run[k], c);
  }

  /** An acknowledgement that says its effect is durable is final. One that says it is not certain leaves the
      request to be invoked in some continuation exactly if the claim it consumes was answered as uncertain,
      and no save has committed and power has not been lost since. */
  lemma AcknowledgementFinality(run: seq<State>, k: nat, c: Choice, id: Uuid)
    requires IsRun(run) && |run| == k + 2 && Acknowledges(run, k, c, id)
    ensures id in run[k].store.mem.claimed
    ensures LastAnswer(run[k + 1]).value.ClaimedAcknowledged? ==> !CanStillBeInvoked(run, id)
    ensures LastAnswer(run[k + 1]) == Ok(AcknowledgementUncertain(id)) ==>
              (CanStillBeInvoked(run, id) <==> exists m: nat :: UncertainSince(run, m, k, id))
  {
    RunAcknowledged(run, k, c, id);
    InvocableIffPending(run, id);
    PendingIffUncertainClaim(run, k, id);
  }
}
