/** What holds of every run of the gateway, however commands, agent calls, save and audit outcomes,
    process deaths and power losses interleave. */
module Guarantees {
  import opened Wrappers
  import opened Execution
  import opened Persisted
  import opened StoreOperations
  import opened Workplace
  import opened Lifecycle
  import opened History
  import opened LifecycleInvariant
  import opened LifecycleSteps
  import Fingerprint
  import Policy

  predicate InvokedAt(trace: seq<AdminEvent>, k: nat, id: Uuid) {
    k < |trace| && trace[k].Invoked? && trace[k].review.requestId == id
  }

  ghost predicate EverInvoked(trace: seq<AdminEvent>, id: Uuid) {
    exists k: nat :: InvokedAt(trace, k, id)
  }

  ghost predicate EverLogged(trace: seq<AdminEvent>, id: Uuid, phase: AuditPhase) {
    exists k: nat :: k < |trace| && trace[k].Logged? && trace[k].id == id && trace[k].phase == phase
  }

  /** In no memory, file or image that could come back is the id pending. */
  ghost predicate NowherePending(s: State, id: Uuid) {
    && id !in s.store.mem.reviews
    && id !in s.store.visible.reviews
    && forall image <- s.store.surviving :: id !in image.reviews
  }

  ghost predicate Nowhere(s: State, id: Uuid) {
    && !Holds(s.store.mem, id)
    && !Holds(s.store.visible, id)
    && forall image <- s.store.surviving :: !Holds(image, id)
  }

  // ---------------------------------------------------------------- runs step by step

  ghost predicate Reached(run: seq<State>, s: State) {
    IsRun(run) && run[|run| - 1] == s
  }

  /** `more` goes on from `run`. */
  ghost predicate Grew(run: seq<State>, more: seq<State>) {
    |run| <= |more| && forall k | 0 <= k < |run| :: more[k] == run[k]
  }

  lemma ReachedInv(run: seq<State>, s: State)
    requires Reached(run, s)
    ensures Inv(s)
  {
    RunInv(run, |run| - 1);
  }

  lemma OneMore(run: seq<State>, s: State, step: Step)
    requires Reached(run, s) && Enabled(s, step)
    ensures Reached(run + [Apply(s, step)], Apply(s, step)) && Grew(run, run + [Apply(s, step)])
  {
    var more := run + [Apply(s, step)];
    assert Taken(s, step, Apply(s, step));
    forall k: nat {:trigger Linked(more, k)} | k < |more| ensures Linked(more, k) {
      if k < |run| {
        assert Linked(run, k);
      }
    }
  }

  /** The step by which a run has got to its state `k`. */
  lemma StepOf(run: seq<State>, k: nat) returns (step: Step)
    requires IsRun(run) && 0 < k < |run|
    ensures Inv(run[k - 1]) && Enabled(run[k - 1], step) && run[k] == Apply(run[k - 1], step)
  {
    RunInv(run, k - 1);
    assert Linked(run, k);
    step :| Taken(run[k - 1], step, run[k]);
  }

  // ---------------------------------------------------------------- what a command leaves alone

  predicate MovesStore(admin: AdminState) {
    || admin.Claiming? || admin.Rejecting? || admin.Restoring?
    || admin.Consuming? || admin.ConsumingRejected? || admin.ConsumingAcknowledged?
  }

  /** No step of a command touches the configuration, the agents' calls or what is known of them, and only
      these move the store. */
  ghost predicate Framed(s: State, next: State) {
    && next.home == s.home && next.config == s.config
    && next.agents == s.agents && next.used == s.used && next.recorded == s.recorded && next.held == s.held
    && next.agentTrace == s.agentTrace
    && (!MovesStore(s.admin) ==> next.store == s.store)
  }

  lemma StoreFrame(s: State, c: Choice)
    requires MovesStore(s.admin)
    ensures Framed(s, AdminStep(s, c))
  {
  }

  lemma CompletionFrame(s: State, c: Choice)
    requires s.admin.AuditingCompletion?
    ensures Framed(s, AdminStep(s, c))
  {
  }

  lemma ApprovalFrame(s: State, c: Choice)
    requires s.admin.AuditingApproval?
    ensures Framed(s, AdminStep(s, c))
  {
  }

  lemma ReconciliationFrame(s: State, c: Choice)
    requires s.admin.AuditingReconciliation?
    ensures Framed(s, AdminStep(s, c))
  {
  }

  lemma StartFrame(s: State, c: Choice)
    requires s.admin.AuditingPreExecution? || s.admin.AuditingRejection?
    ensures Framed(s, AdminStep(s, c))
  {
  }

  lemma PlainFrame(s: State, c: Choice)
    requires s.admin.Idle? || s.admin.Inspecting? || s.admin.Revalidating? || s.admin.ReadingClaimed?
             || s.admin.Invoking?
    ensures Framed(s, AdminStep(s, c))
  {
  }

  lemma StepFrame(s: State, c: Choice)
    ensures Framed(s, AdminStep(s, c))
  {
    if MovesStore(s.admin) {
      StoreFrame(s, c);
    } else if s.admin.AuditingCompletion? {
      CompletionFrame(s, c);
    } else if s.admin.AuditingApproval? {
      ApprovalFrame(s, c);
    } else if s.admin.AuditingReconciliation? {
      ReconciliationFrame(s, c);
    } else if s.admin.AuditingPreExecution? || s.admin.AuditingRejection? {
      StartFrame(s, c);
    } else {
      PlainFrame(s, c);
    }
  }

  // ---------------------------------------------------------------- runs only grow

  ghost predicate Extends(s: State, next: State) {
    && next.home == s.home
    && s.trace <= next.trace && s.sights <= next.sights
    && forall id <- s.recorded :: id in next.recorded && next.recorded[id] == s.recorded[id]
  }

  lemma ExtendsTransitive(a: State, b: State, c: State)
    requires Extends(a, b) && Extends(b, c)
    ensures Extends(a, c)
  {
  }

  function Still(site: Site, n: nat): (sights: seq<Sight>)
    ensures |sights| == n && forall k | 0 <= k < n :: sights[k] == Unmoved(site)
  {
    seq(n, _ => Unmoved(site))
  }

  /** At each of `n` new events the workspace is as it was, except that an operation has left it as it left it. */
  ghost predicate Watches(s: State, c: Choice, next: State, n: nat) {
    if s.admin.Invoking? then
      && n == 1 && next.sights == s.sights + [Seen(s.site, c.world)]
      && next.site == c.world.after
    else
      next.sights == s.sights + Still(s.site, n) && next.site == s.site
  }

  /** `next` has the events `events` more than `s`, an invocation or a revalidation among them only if that was
      what the command was about to do. */
  ghost predicate Adds(s: State, c: Choice, next: State, events: seq<AdminEvent>) {
    && next.home == s.home
    && next.trace == s.trace + events
    && next.recorded == s.recorded
    && (forall e <- events :: e.Invoked? ==>
          s.admin == Invoking(e.review) && e.returned == Operate(e.review.request, c.world))
    && (forall e <- events :: e.Revalidated? ==> s.admin == Revalidating(e.review) && c.valid)
    && Watches(s, c, next, |events|)
  }

  lemma StillSmall(site: Site, sights: seq<Sight>)
    ensures sights + Still(site, 0) == sights
    ensures sights + Still(site, 1) == sights + [Unmoved(site)]
    ensures sights + Still(site, 2) == sights + [Unmoved(site)] + [Unmoved(site)]
  {
  }

  lemma StoreEvents(s: State, c: Choice) returns (events: seq<AdminEvent>)
    requires MovesStore(s.admin)
    ensures Adds(s, c, AdminStep(s, c), events)
  {
    var next := AdminStep(s, c);
    StillSmall(s.site, s.sights);
    events := if next.admin.Idle? then [Answered(LastAnswer(next))] else [];
  }

  lemma PlainEvents(s: State, c: Choice) returns (events: seq<AdminEvent>)
    requires s.admin.Inspecting? || s.admin.Revalidating? || s.admin.ReadingClaimed?
    ensures Adds(s, c, AdminStep(s, c), events)
  {
    var next := AdminStep(s, c);
    StillSmall(s.site, s.sights);
    events :=
      if next.admin.Idle? then [Answered(LastAnswer(next))]
      else if s.admin.Revalidating? then [Revalidated(s.admin.pending)]
      else [];
  }

  /** What an audit write adds: nothing, a record, or a record not confirmed. */
  function RecordEvents(c: Choice, r: PendingReview, phase: AuditPhase, outcome: Outcome): seq<AdminEvent> {
    if Policy.ReviewReason(r.request).None? || c.audit.NotRecorded? then []
    else if c.audit.Recorded? then [Logged(r.requestId, phase, outcome)]
    else [Unconfirmed(r.requestId, phase, outcome)]
  }

  lemma ApprovalEvents(s: State, c: Choice) returns (events: seq<AdminEvent>)
    requires s.admin.AuditingApproval?
    ensures Adds(s, c, AdminStep(s, c), events)
  {
    var next := AdminStep(s, c);
    StillSmall(s.site, s.sights);
    var first := RecordEvents(c, s.admin.claimed, Approval, NotExecuted);
    var last := if next.admin.Idle? then [Answered(LastAnswer(next))] else [];
    events := first + last;
    assert next.trace == s.trace + first + last;
  }

  lemma StartOrRejectionEvents(s: State, c: Choice) returns (events: seq<AdminEvent>)
    requires s.admin.AuditingPreExecution? || s.admin.AuditingRejection?
    ensures Adds(s, c, AdminStep(s, c), events)
  {
    StillSmall(s.site, s.sights);
    events := RecordEvents(
      c, s.admin.claimed, if s.admin.AuditingPreExecution? then PreExecution else Rejection, NotExecuted);
  }

  lemma ReconciliationEvents(s: State, c: Choice) returns (events: seq<AdminEvent>)
    requires s.admin.AuditingReconciliation?
    ensures Adds(s, c, AdminStep(s, c), events)
  {
    var next := AdminStep(s, c);
    StillSmall(s.site, s.sights);
    var first := RecordEvents(c, s.admin.claimed, Reconciliation, Unknown);
    var last := if next.admin.Idle? then [Answered(LastAnswer(next))] else [];
    events := first + last;
    assert next.trace == s.trace + first + last;
  }

  lemma CompletionEvents(s: State, c: Choice) returns (events: seq<AdminEvent>)
    requires s.admin.AuditingCompletion?
    ensures Adds(s, c, AdminStep(s, c), events)
  {
    var id, o := s.admin.claimed.requestId, OutcomeOf(s.admin.returned);
    StillSmall(s.site, s.sights);
    events :=
      if Policy.ReviewReason(s.admin.claimed.request).None? || c.audit.NotRecorded? then []
      else if c.audit.Recorded? then [Logged(id, Completion, o)]
      else [Unconfirmed(id, Completion, o)];
  }

  /** The events one administrator step adds. */
  lemma StepEvents(s: State, c: Choice) returns (events: seq<AdminEvent>)
    ensures Adds(s, c, AdminStep(s, c), events)
  {
    match s.admin
    case AuditingApproval(_) => events := ApprovalEvents(s, c);
    case AuditingPreExecution(_) => events := StartOrRejectionEvents(s, c);
    case AuditingCompletion(_, _) => events := CompletionEvents(s, c);
    case AuditingRejection(_) => events := StartOrRejectionEvents(s, c);
    case AuditingReconciliation(_) => events := ReconciliationEvents(s, c);
    case Invoking(r) => events := [Invoked(r, Operate(r.request, c.world))];
    case Idle =>
      StillSmall(s.site, s.sights);
      events := [];
    case Inspecting(_) => events := PlainEvents(s, c);
    case Revalidating(_) => events := PlainEvents(s, c);
    case ReadingClaimed(_) => events := PlainEvents(s, c);
    case _ => events := StoreEvents(s, c);
  }

  lemma AgentStartRecords(s: State, id: Uuid, request: ExecutionRequest, inScope: bool, purpose: string,
                          evidence: Evidence)
    requires id !in s.recorded
    ensures Extends(s, AgentStart(s, id, request, inScope, purpose, evidence))
  {
  }

  lemma StepExtends(s: State, step: Step)
    requires Inv(s) && Enabled(s, step)
    ensures Extends(s, Apply(s, step))
  {
    match step
    case AdminContinues(c) => var _ := StepEvents(s, c);
    case AgentBegins(id, request, inScope, purpose, evidence, _) =>
      assert IdInv(s, id);
      AgentStartRecords(s, id, request, inScope, purpose, evidence);
    case _ =>
  }

  lemma RunNextExtends(run: seq<State>, k: nat)
    requires IsRun(run) && 0 < k < |run|
    ensures Extends(run[k - 1], run[k])
  {
    var step := StepOf(run, k);
    StepExtends(run[k - 1], step);
  }

  lemma {:induction false} RunExtends(run: seq<State>, j: nat, k: nat)
    requires IsRun(run) && j <= k < |run|
    ensures Extends(run[j], run[k])
    decreases k - j
  {
    if j < k {
      RunExtends(run, j, k - 1);
      RunNextExtends(run, k);
      ExtendsTransitive(run[j], run[k - 1], run[k]);
    }
  }

  // ---------------------------------------------------------------- at most once

  lemma TwoInvocationsCount(trace: seq<AdminEvent>, a: nat, b: nat, id: Uuid)
    requires a < b && InvokedAt(trace, a, id) && InvokedAt(trace, b, id)
    ensures AccountOf(trace, id).invocations >= 2
  {
    AccountGrows(trace[..a + 1], trace[..b], id);
    AccountGrows(trace[..b + 1], trace, id);
    assert trace[..a + 1] == trace[..a] + [trace[a]] && trace[..b + 1] == trace[..b] + [trace[b]];
    AccountStep(trace[..a], trace[a], id);
    AccountStep(trace[..b], trace[b], id);
  }

  lemma NotUndecided(s: State, id: Uuid)
    requires Inv(s) && !AccountOf(s.trace, id).verdict.Undecided?
    ensures NowherePending(s, id)
  {
    assert IdInv(s, id);
    forall image | image in s.store.surviving ensures id !in image.reviews {
      assert ImageOk(s, image, id);
    }
  }

  /** A reviewed operation is invoked at most once per id; and once it is, the id is pending in no
      memory, file or surviving image, now or ever again. */
  lemma AtMostOnce(run: seq<State>, j: nat, k: nat, id: Uuid)
    requires IsRun(run) && j <= k < |run|
    ensures forall a: nat, b: nat | InvokedAt(run[k].trace, a, id) && InvokedAt(run[k].trace, b, id) :: a == b
    ensures EverInvoked(run[j].trace, id) ==> NowherePending(run[k], id)
  {
    RunInv(run, k);
    assert IdInv(run[k], id);
    forall a: nat, b: nat | InvokedAt(run[k].trace, a, id) && InvokedAt(run[k].trace, b, id) ensures a == b {
      if a < b {
        TwoInvocationsCount(run[k].trace, a, b, id);
      } else if b < a {
        TwoInvocationsCount(run[k].trace, b, a, id);
      }
    }
    if EverInvoked(run[j].trace, id) {
      RunExtends(run, j, k);
      AccountMeaning(run[j].trace, id);
      AccountGrows(run[j].trace, run[k].trace, id);
      NotUndecided(run[k], id);
    }
  }

  /** Once a rejection is on record the operation has not been invoked and never is, and the id is never
      pending again. */
  lemma RejectionIsFinal(run: seq<State>, j: nat, k: nat, id: Uuid)
    requires IsRun(run) && j <= k < |run|
    requires EverLogged(run[j].trace, id, Rejection)
    ensures !EverInvoked(run[k].trace, id)
    ensures NowherePending(run[k], id)
  {
    RunInv(run, k);
    RunExtends(run, j, k);
    AccountMeaning(run[j].trace, id);
    AccountGrows(run[j].trace, run[k].trace, id);
    AccountMeaning(run[k].trace, id);
    assert IdInv(run[k], id);
    NotUndecided(run[k], id);
  }

  // ---------------------------------------------------------------- what was reviewed is what runs

  /** Step `j` of the run drew the id and built `review` from the request, purpose and captured evidence. What its
      fingerprint was taken of, if there is one, is what was read. */
  ghost predicate BuiltFrom(run: seq<State>, j: nat, review: PendingReview, reading: Fingerprint.Reading) {
    && j + 1 < |run|
    && review.requestId !in run[j].used
    && exists inScope, evidence ::
         && Captured(run[j].home, run[j].site, review.request, evidence, reading)
         && run[j + 1] == AgentStart(run[j], review.requestId, review.request, inScope, review.purpose, evidence)
         && BuildReview(review.requestId, review.request, review.purpose, evidence) == Some(review)
  }

  ghost predicate BuiltAt(run: seq<State>, j: nat, review: PendingReview) {
    exists reading :: BuiltFrom(run, j, review, reading)
  }

  lemma RecordingStep(s: State, step: Step, id: Uuid)
    requires Enabled(s, step) && id !in s.recorded && id in Apply(s, step).recorded
    ensures step.AgentBegins? && step.id == id && Captured(s.home, s.site, step.request, step.evidence, step.reading)
    ensures BuildReview(id, step.request, step.purpose, step.evidence) == Some(Apply(s, step).recorded[id])
    ensures Apply(s, step).recorded[id].request == step.request && Apply(s, step).recorded[id].purpose == step.purpose
  {
    if step.AdminContinues? {
      var _ := StepEvents(s, step.choice);
    }
  }

  lemma NewlyRecorded(run: seq<State>, k: nat, id: Uuid)
    requires IsRun(run) && 0 < k < |run| && id in run[k].recorded && id !in run[k - 1].recorded
    requires run[k].recorded[id].requestId == id
    ensures BuiltAt(run, k - 1, run[k].recorded[id])
  {
    var step := StepOf(run, k);
    RecordingStep(run[k - 1], step, id);
    assert BuiltFrom(run, k - 1, run[k].recorded[id], step.reading);
  }

  lemma {:induction false} RecordedWasBuilt(run: seq<State>, k: nat, id: Uuid)
    requires IsRun(run) && k < |run| && id in run[k].recorded
    ensures run[k].recorded[id].requestId == id
    ensures exists j: nat :: j < k && BuiltAt(run, j, run[k].recorded[id])
  {
    RunInv(run, k);
    assert IdInv(run[k], id);
    RunStarts(run);
    if k > 0 {
      RunNextExtends(run, k);
      if id in run[k - 1].recorded {
        RecordedWasBuilt(run, k - 1, id);
      } else {
        NewlyRecorded(run, k, id);
      }
    }
  }

  lemma InvokingStep(s: State, step: Step, a: nat)
    requires Inv(s) && Enabled(s, step)
    requires |s.trace| <= a < |Apply(s, step).trace| && Apply(s, step).trace[a].Invoked?
    ensures IsRecorded(Apply(s, step), Apply(s, step).trace[a].review)
  {
    match step
    case AdminContinues(c) =>
      var events := StepEvents(s, c);
      assert events[a - |s.trace|] == Apply(s, step).trace[a];
    case _ =>
  }

  lemma InvokingNext(s: State, next: State, a: nat)
    requires Inv(s) && Next(s, next)
    requires |s.trace| <= a < |next.trace| && next.trace[a].Invoked?
    ensures IsRecorded(next, next.trace[a].review)
  {
    var step :| Taken(s, step, next);
    InvokingStep(s, step, a);
  }

  lemma {:induction false} InvokedRecorded(run: seq<State>, k: nat, a: nat)
    requires IsRun(run) && k < |run| && a < |run[k].trace| && run[k].trace[a].Invoked?
    ensures IsRecorded(run[k], run[k].trace[a].review)
  {
    if k > 0 {
      RunNextExtends(run, k);
      if a < |run[k - 1].trace| {
        InvokedRecorded(run, k - 1, a);
      } else {
        RunInv(run, k - 1);
        assert Linked(run, k);
        InvokingNext(run[k - 1], run[k], a);
      }
    }
  }

  /** Whatever claims, restores, saves and reloads lie between, the review an invocation uses is the one
      built from the agent's request, purpose and evidence when its id was drawn, by exactly one call. */
  lemma WhatWasReviewedRuns(run: seq<State>, k: nat, a: nat, id: Uuid)
    requires IsRun(run) && k < |run| && InvokedAt(run[k].trace, a, id)
    ensures exists j: nat :: j < k && BuiltAt(run, j, run[k].trace[a].review)
  {
    var review := run[k].trace[a].review;
    RunInv(run, k);
    InvokedRecorded(run, k, a);
    RecordedWasBuilt(run, k, id);
  }

  // ---------------------------------------------------------------- write-ahead audit and its language

  /** Every reviewed invocation stands right behind its command's start, a successful revalidation of the
      identical review, an approval record and a pre-execution record, all of whose writes returned Ok. */
  lemma WriteAheadReviewed(run: seq<State>, k: nat, a: nat, id: Uuid)
    requires IsRun(run) && k < |run| && InvokedAt(run[k].trace, a, id)
    ensures 4 <= a && run[k].trace[a - 4..a] == Preamble(run[k].trace[a].review)
  {
    RunInv(run, k);
    assert Justified(run[k].trace[..a], run[k].trace[a]);
  }

  /** Every operation an agent runs without review is unprivileged and has its pre-execution record first;
      the arms that would run a privileged one are never reached. */
  lemma WriteAheadAllowed(run: seq<State>, k: nat, a: nat)
    requires IsRun(run) && k < |run| && a < |run[k].agentTrace|
    ensures !run[k].agentTrace[a].AgentRefused?
    ensures run[k].agentTrace[a].AgentInvoked? ==>
              && !IsPrivileged(run[k].agentTrace[a].request)
              && exists b: nat ::
                   b < a && run[k].agentTrace[b] == AgentLogged(run[k].agentTrace[a].id, PreExecution, NotExecuted)
  {
    RunInv(run, k);
    if run[k].agentTrace[a].AgentInvoked? {
      var e := AgentLogged(run[k].agentTrace[a].id, PreExecution, NotExecuted);
      assert e in run[k].agentTrace[..a];
      var b :| 0 <= b < a && run[k].agentTrace[..a][b] == e;
      assert run[k].agentTrace[b] == e;
    }
  }

  /** The administrator-side records of an id are a prefix of
      (Approval | Reconciliation)* (Rejection | Approval PreExecution Completion?) Reconciliation*, and a
      completion record states what the invocation just before it returned. */
  lemma AuditLanguage(run: seq<State>, k: nat, id: Uuid)
    requires IsRun(run) && k < |run|
    ensures InLanguage(Records(run[k].trace, id))
    ensures forall a | 0 <= a < |run[k].trace| && run[k].trace[a].Logged? && run[k].trace[a].phase.Completion? ::
              && a > 0 && InvokedAt(run[k].trace, a - 1, run[k].trace[a].id)
              && run[k].trace[a].outcome == OutcomeOf(run[k].trace[a - 1].returned)
  {
    RunInv(run, k);
    assert IdInv(run[k], id);
    UnbrokenInLanguage(run[k].trace, id);
    var trace := run[k].trace;
    forall a | 0 <= a < |trace| && trace[a].Logged? && trace[a].phase.Completion?
      ensures a > 0 && InvokedAt(trace, a - 1, trace[a].id) && trace[a].outcome == OutcomeOf(trace[a - 1].returned)
    {
      assert Justified(trace[..a], trace[a]);
    }
  }

  // ---------------------------------------------------------------- nothing is lost, memory and disk agree

  /** An id whose insertion returned Ok is in exactly one of the two maps, in memory, in the file and in
      every image that could come back, until a rejection, reconciliation or pre-execution record for it exists. */
  lemma NoSilentLoss(run: seq<State>, k: nat, id: Uuid)
    requires IsRun(run) && k < |run| && id in run[k].held
    ensures || EverLogged(run[k].trace, id, Rejection)
            || EverLogged(run[k].trace, id, Reconciliation)
            || EverLogged(run[k].trace, id, PreExecution)
            || forall image | image in run[k].store.surviving + {run[k].store.mem, run[k].store.visible} ::
                 (id in image.reviews) != (id in image.claimed)
  {
    RunInv(run, k);
    assert IdInv(run[k], id);
    AccountMeaning(run[k].trace, id);
    if !AccountOf(run[k].trace, id).settled {
      forall image | image in run[k].store.surviving ensures (id in image.reviews) != (id in image.claimed) {
        assert ImageOk(run[k], image, id) && ValidStore(image);
      }
    } else {
      var a :| 0 <= a < |run[k].trace| && run[k].trace[a].Logged? && run[k].trace[a].id == id
        && (run[k].trace[a].phase.Rejection? || run[k].trace[a].phase.Reconciliation?
            || run[k].trace[a].phase.PreExecution?);
      assert EverLogged(run[k].trace, id, run[k].trace[a].phase);
    }
  }

  /** Between steps memory is what the file says, and the file and every image that could come back is a
      well-formed store of reviewable requests: each can be written, and is read back as itself. */
  lemma MemoryAndDiskAgree(run: seq<State>, k: nat, image: Store, state: PersistedState)
    requires IsRun(run) && k < |run| && image in run[k].store.surviving
    ensures run[k].store.mem == run[k].store.visible && run[k].store.visible in run[k].store.surviving
    ensures ValidStore(image) && AllPersistable(image)
    ensures Serialization(state, image) ==> Load(state) == Ok(image)
  {
    RunInv(run, k);
    assert ValidStore(image);
    if Serialization(state, image) {
      SaveThenLoad(image, state);
    }
  }

  // ---------------------------------------------------------------- truthful answers

  /** What an approval's outcome claims about the invocation of `review`: what it returned, and whether
      its completion record is on record. */
  predicate Reports(outcome: AdminOutcome, review: PendingReview, returned: OperationReturn, logged: bool) {
    match outcome
    case Approved(_) => review.request.WriteFile? && returned == Ok(Succeeded(None)) && logged
    case WriteFailed(_, error) => review.request.WriteFile? && returned == Err(error) && logged
    case CargoTestCompleted(_, r) =>
      review.request.RunCargoTest? && r.success && returned == Ok(Succeeded(Some(CargoTest(r)))) && logged
    case CargoTestFailed(_, r) =>
      review.request.RunCargoTest? && !r.success && returned == Ok(FailedWithResult(CargoTest(r))) && logged
    case CargoTestExecutionFailed(_, error) => review.request.RunCargoTest? && returned == Err(error) && logged
    case HttpPostCompleted(_, status) =>
      review.request.HttpRequest? && 200 <= status < 400 && returned == Ok(Succeeded(Some(Http(status)))) && logged
    case HttpPostFailed(_, status) =>
      review.request.HttpRequest? && !(200 <= status < 400) && returned == Ok(FailedWithResult(Http(status))) && logged
    case HttpPostExecutionFailed(_, error) => review.request.HttpRequest? && returned == Err(error) && logged
    case CompletionAuditFailed(_, o, result) => o == OutcomeOf(returned) && result == Preserved(returned) && !logged
    case _ => false
  }

  /** The trace ends with an invocation for `id` and, if `logged`, its completion record. */
  ghost predicate EndsInvoked(trace: seq<AdminEvent>, id: Uuid, review: PendingReview, returned: OperationReturn,
                              logged: bool) {
    && review.requestId == id
    && if logged then LastTwo(trace, Invoked(review, returned), Logged(id, Completion, OutcomeOf(returned)))
       else LastIs(trace, Invoked(review, returned))
            || LastTwo(trace, Invoked(review, returned), Unconfirmed(id, Completion, OutcomeOf(returned)))
  }

  ghost predicate ReportsInvocation(trace: seq<AdminEvent>, id: Uuid, outcome: AdminOutcome) {
    exists review, returned, logged ::
      EndsInvoked(trace, id, review, returned, logged) && Reports(outcome, review, returned, logged)
  }

  /** An answer given after `trace`, leaving `after`, says what happened. */
  ghost predicate Truthful(trace: seq<AdminEvent>, after: State, answer: Answer) {
    match answer
    case Ok(Rejected(pending)) =>
      && LastIs(trace, Logged(pending.requestId, Rejection, NotExecuted))
      && Nowhere(after, pending.requestId) && !InvokedInCommand(trace)
    case Ok(ClaimedAcknowledged(pending)) =>
      && LastIs(trace, Logged(pending.requestId, Reconciliation, Unknown))
      && Nowhere(after, pending.requestId) && !InvokedInCommand(trace)
    case Ok(AcknowledgementUncertain(id)) =>
      && LastIs(trace, Logged(id, Reconciliation, Unknown))
      && !Holds(after.store.mem, id) && !InvokedInCommand(trace)
    case Ok(outcome) => ReportsInvocation(trace, outcome.id, outcome) && Nowhere(after, outcome.id)
    case Err(error) =>
      && (InvokedInCommand(trace) <==> error.ConsumeFailedAfterExecution?)
      && !error.NotEligible? && !error.MissingFingerprint? && !error.UnexpectedResult? && !error.NoExecutionResult?
  }

  lemma ConsumedNowhere(s: State, id: Uuid, save: SaveOutcome)
    requires ValidDurable(s.store)
    requires id in s.store.mem.claimed
    ensures var (store, result) := Consume(s.store, id, save);
            && (result.Ok? ==> Nowhere(Put(s, store), id) && result.value == s.store.mem.claimed[id])
            && (result.Err? && result.error.DurabilityUncertain? ==> !Holds(store.mem, id))
            && (result.Err? && !result.error.DurabilityUncertain? ==> store == s.store)
  {
    assert ValidStore(s.store.mem);
  }

  lemma ApprovalReports(claimed: PendingReview, returned: OperationReturn, logged: bool)
    requires Fits(claimed.request, returned) && IsPrivileged(claimed.request)
    ensures var outcome :=
              if logged then AfterCompletion(returned)
              else CompletionAuditLost(OutcomeOf(returned), Preserved(returned));
            var answer := ApprovalAnswer(claimed, outcome);
            && answer.Ok? && Reports(answer.value, claimed, returned, logged)
            && !answer.value.Rejected? && !answer.value.ClaimedAcknowledged? && !answer.value.AcknowledgementUncertain?
            && answer.value.id == claimed.requestId
  {
  }

  /** The step adds an answer to `trace`, and the answer is true. */
  ghost predicate Answers(s: State, c: Choice, trace: seq<AdminEvent>) {
    var next := AdminStep(s, c);
    && next.trace == trace + [Answered(LastAnswer(next))]
    && next.trace[..|next.trace| - 1] == trace
    && Truthful(trace, next, LastAnswer(next))
  }

  lemma ConsumingTruthful(s: State, c: Choice)
    requires Inv(s) && s.admin.Consuming?
    ensures Answers(s, c, s.trace)
  {
    var r := s.admin.claimed;
    FlightFacts(s, r);
    ConsumedNowhere(s, r.requestId, c.save);
    var returned :| Concluded(s.trace, r, returned, s.admin.outcome);
    var result := Consume(s.store, r.requestId, c.save).1;
    var answer :=
      if result.Ok? then ApprovalAnswer(r, s.admin.outcome) else Err(ConsumeFailedAfterExecution(result.error));
    assert LastAnswer(AdminStep(s, c)) == answer;
    if result.Ok? {
      var logged := s.admin.outcome == AfterCompletion(returned);
      ApprovalReports(r, returned, logged);
      assert EndsInvoked(s.trace, r.requestId, r, returned, logged);
      assert ReportsInvocation(s.trace, r.requestId, answer.value);
    }
  }

  lemma ApprovalGoesOn(s: State, c: Choice)
    requires Inv(s) && s.admin.AuditingApproval?
    ensures !AdminStep(s, c).admin.Idle?
  {
    FlightFacts(s, s.admin.claimed);
  }

  lemma StillGoing(s: State, c: Choice)
    requires s.admin.AuditingPreExecution? || s.admin.AuditingCompletion? || s.admin.AuditingRejection?
             || s.admin.Invoking?
    ensures !AdminStep(s, c).admin.Idle?
  {
  }

  lemma RejectionTruthful(s: State, c: Choice)
    requires Inv(s) && s.admin.ConsumingRejected?
    ensures Answers(s, c, s.trace)
  {
    FlightFacts(s, s.admin.claimed);
    ConsumedNowhere(s, s.admin.claimed.requestId, c.save);
  }

  lemma AcknowledgementTruthful(s: State, c: Choice)
    requires Inv(s) && s.admin.ConsumingAcknowledged?
    ensures Answers(s, c, s.trace)
    ensures LastAnswer(AdminStep(s, c)).Err? ==> AdminStep(s, c).store == s.store
  {
    RecordedFacts(s, s.admin.claimed.requestId);
    ConsumedNowhere(s, s.admin.claimed.requestId, c.save);
  }

  lemma ReconciliationMissedTruthful(s: State, c: Choice)
    requires Inv(s) && s.admin.AuditingReconciliation? && AdminStep(s, c).admin.Idle?
    ensures Answers(s, c, AuditMissed(s, c, s.admin.claimed, Reconciliation, Unknown).trace)
    ensures AdminStep(s, c).store == s.store
  {
    InvokedStep(s.trace, Unconfirmed(s.admin.claimed.requestId, Reconciliation, Unknown));
  }

  lemma ErrorAnswer(s: State, c: Choice, error: AdminError)
    requires !InvokedInCommand(s.trace)
    requires AdminStep(s, c).trace == s.trace + [Answered(Err(error))]
    requires !error.ConsumeFailedAfterExecution?
    requires !error.NotEligible? && !error.MissingFingerprint? && !error.UnexpectedResult? && !error.NoExecutionResult?
    ensures Answers(s, c, s.trace)
  {
  }

  lemma ErrorTruthful(s: State, c: Choice)
    requires !InvokedInCommand(s.trace) && AdminStep(s, c).admin.Idle?
    requires || s.admin.Inspecting? || s.admin.Revalidating? || s.admin.Claiming? || s.admin.Rejecting?
             || s.admin.ReadingClaimed? || s.admin.Restoring?
    ensures Answers(s, c, s.trace)
    ensures s.admin.ReadingClaimed? ==> AdminStep(s, c).store == s.store
  {
    match s.admin
    case Inspecting(_) => ErrorAnswer(s, c, NotPending);
    case Revalidating(_) => ErrorAnswer(s, c, RevalidationFailed);
    case Claiming(p) => ErrorAnswer(s, c, ClaimFailed(Claim(s.store, p.requestId, c.save).1.error));
    case Rejecting(id) => ErrorAnswer(s, c, ClaimFailed(Claim(s.store, id, c.save).1.error));
    case ReadingClaimed(_) => ErrorAnswer(s, c, NotClaimed);
    case Restoring(r) =>
      var result := Restore(s.store, r, c.save).1;
      ErrorAnswer(s, c, if result.Ok? then AuditFailed else RestoreFailed(result.error));
  }

  predicate Acknowledging(admin: AdminState) {
    admin.ReadingClaimed? || admin.AuditingReconciliation? || admin.ConsumingAcknowledged?
  }

  /** Every answer an administrator gets is true: a success means the operation succeeded, its completion is
      on record and the id is in no map and no surviving image; a failure reports the real result; an error
      means it was not invoked, except the one that says it was; the errors for ineligible reviews and
      unexpected results never occur. */
  lemma AnswersAreTruthful(s: State, c: Choice) returns (trace: seq<AdminEvent>)
    requires Inv(s) && !s.admin.Idle? && AdminStep(s, c).admin.Idle?
    ensures Answers(s, c, trace)
  {
    trace := s.trace;
    match s.admin
    case Consuming(_, _) => ConsumingTruthful(s, c);
    case ConsumingRejected(_) => RejectionTruthful(s, c);
    case ConsumingAcknowledged(_) => AcknowledgementTruthful(s, c);
    case AuditingApproval(_) => ApprovalGoesOn(s, c);
    case AuditingReconciliation(r) =>
      ReconciliationMissedTruthful(s, c);
      trace := AuditMissed(s, c, r, Reconciliation, Unknown).trace;
    case AuditingPreExecution(_) => StillGoing(s, c);
    case AuditingCompletion(_, _) => StillGoing(s, c);
    case AuditingRejection(_) => StillGoing(s, c);
    case Invoking(_) => StillGoing(s, c);
    case _ => ErrorTruthful(s, c);
  }

  lemma FailedAcknowledgement(s: State, c: Choice)
    requires Inv(s) && Acknowledging(s.admin) && AdminStep(s, c).admin.Idle?
    ensures LastAnswer(AdminStep(s, c)).Err? ==> AdminStep(s, c).store == s.store
  {
    match s.admin
    case ConsumingAcknowledged(_) => AcknowledgementTruthful(s, c);
    case AuditingReconciliation(_) => ReconciliationMissedTruthful(s, c);
    case ReadingClaimed(_) => ErrorTruthful(s, c);
  }

  /** The same, of every step of every run that ends a command; and an acknowledgement that is answered
      with an error has changed neither memory nor disk. */
  lemma RunAnswersAreTruthful(run: seq<State>, k: nat, c: Choice)
    requires IsRun(run) && k + 1 < |run|
    requires !run[k].admin.Idle? && run[k + 1] == AdminStep(run[k], c) && run[k + 1].admin.Idle?
    ensures exists trace, answer ::
              && run[k + 1].trace == trace + [Answered(answer)]
              && Truthful(trace, run[k + 1], answer)
    ensures Acknowledging(run[k].admin) && LastAnswer(run[k + 1]).Err? ==> run[k + 1].store == run[k].store
  {
    RunInv(run, k);
    var trace := AnswersAreTruthful(run[k], c);
    if Acknowledging(run[k].admin) {
      FailedAcknowledgement(run[k], c);
    }
  }
}
