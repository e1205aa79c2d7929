/** What the administrator's side of a run says about one request: how often its operation ran, what
    was logged about it, and the language its audit records belong to. */
module History {
  import opened Execution
  import opened Lifecycle

  // ---------------------------------------------------------------- per-request account

  // How far the audit records of one request have got. `approved`: the last one was an approval.
  datatype Verdict = Undecided(approved: bool) | Started | Finished | Refused | Closed | Broken

  datatype Account = Account(verdict: Verdict, invocations: nat, settled: bool, refused: bool)

  function NextVerdict(v: Verdict, phase: AuditPhase): Verdict {
    match (v, phase)
    case (Undecided(_), Approval) => Undecided(true)
    case (Undecided(_), Reconciliation) => Undecided(false)
    case (Undecided(_), Rejection) => Refused
    case (Undecided(true), PreExecution) => Started
    case (Started, Completion) => Finished
    case (Broken, _) => Broken
    case (_, Reconciliation) => Closed
    case (_, _) => Broken
  }

  function NextAccount(a: Account, e: AdminEvent, id: Uuid): Account {
    match e
    case Logged(i, phase, _) =>
      if i != id then a
      else Account(NextVerdict(a.verdict, phase), a.invocations,
                   a.settled || phase.Rejection? || phase.Reconciliation? || phase.PreExecution?,
                   a.refused || phase.Rejection?)
    case Invoked(review, _) =>
      if review.requestId != id then a else a.(invocations := a.invocations + 1)
    case _ => a
  }

  function AccountOf(trace: seq<AdminEvent>, id: Uuid): Account {
    if trace == [] then Account(Undecided(false), 0, false, false)
    else NextAccount(AccountOf(trace[..|trace| - 1], id), trace[|trace| - 1], id)
  }

  lemma AccountStep(trace: seq<AdminEvent>, e: AdminEvent, id: Uuid)
    ensures AccountOf(trace + [e], id) == NextAccount(AccountOf(trace, id), e, id)
  {
    assert (trace + [e])[..|trace|] == trace;
  }

  /** Nothing an account says is ever taken back. */
  lemma {:induction false} AccountGrows(trace: seq<AdminEvent>, more: seq<AdminEvent>, id: Uuid)
    requires trace <= more
    ensures AccountOf(trace, id).invocations <= AccountOf(more, id).invocations
    ensures AccountOf(trace, id).settled ==> AccountOf(more, id).settled
    ensures AccountOf(trace, id).refused ==> AccountOf(more, id).refused
    decreases |more|
  {
    if trace != more {
      AccountGrows(trace, more[..|more| - 1], id);
    } else {
      assert trace == more;
    }
  }

  /** The account counts and finds what the trace holds. */
  lemma {:induction false} AccountMeaning(trace: seq<AdminEvent>, id: Uuid)
    ensures AccountOf(trace, id).invocations > 0 <==>
            exists k :: 0 <= k < |trace| && trace[k].Invoked? && trace[k].review.requestId == id
    ensures AccountOf(trace, id).settled <==>
            exists k :: 0 <= k < |trace| && trace[k].Logged? && trace[k].id == id
                        && (trace[k].phase.Rejection? || trace[k].phase.Reconciliation? || trace[k].phase.PreExecution?)
    ensures AccountOf(trace, id).refused <==>
            exists k :: 0 <= k < |trace| && trace[k].Logged? && trace[k].id == id && trace[k].phase.Rejection?
  {
    if trace != [] {
      var front, e := trace[..|trace| - 1], trace[|trace| - 1];
      AccountMeaning(front, id);
      assert forall k | 0 <= k < |front| :: front[k] == trace[k];
      assert trace[|front|] == e;
    }
  }

  // ---------------------------------------------------------------- audit language

  /** The audit records of one request whose write returned Ok, in order. */
  function Records(trace: seq<AdminEvent>, id: Uuid): seq<AuditPhase> {
    if trace == [] then []
    else
      var front, e := Records(trace[..|trace| - 1], id), trace[|trace| - 1];
      if e.Logged? && e.id == id then front + [e.phase] else front
  }

  predicate OnlyOpen(phases: seq<AuditPhase>) {
    forall p <- phases :: p.Approval? || p.Reconciliation?
  }

  predicate OnlyReconciliation(phases: seq<AuditPhase>) {
    forall p <- phases :: p.Reconciliation?
  }

  predicate Decision(core: seq<AuditPhase>) {
    || core == [Rejection]
    || core == [Approval, PreExecution]
    || core == [Approval, PreExecution, Completion]
  }

  ghost predicate Decided(phases: seq<AuditPhase>, head: seq<AuditPhase>, core: seq<AuditPhase>,
                          tail: seq<AuditPhase>) {
    && phases == head + core + tail
    && OnlyOpen(head) && Decision(core) && OnlyReconciliation(tail)
  }

  /** A prefix of (Approval | Reconciliation)* (Rejection | Approval PreExecution Completion?) Reconciliation*. */
  ghost predicate InLanguage(phases: seq<AuditPhase>) {
    || OnlyOpen(phases)
    || exists head, core, tail :: Decided(phases, head, core, tail)
  }

  /** What the records look like when the account stands at `v`. */
  ghost predicate Shape(phases: seq<AuditPhase>, v: Verdict) {
    match v
    case Undecided(approved) =>
      OnlyOpen(phases) && (approved ==> phases != [] && phases[|phases| - 1] == Approval)
    case Started => exists head :: Decided(phases, head, [Approval, PreExecution], [])
    case Finished => exists head :: Decided(phases, head, [Approval, PreExecution, Completion], [])
    case Refused => exists head :: Decided(phases, head, [Rejection], [])
    case Closed => exists head, core, tail :: Decided(phases, head, core, tail)
    case Broken => true
  }

  lemma ReconciliationStep(phases: seq<AuditPhase>, head: seq<AuditPhase>, core: seq<AuditPhase>, tail: seq<AuditPhase>)
    requires Decided(phases, head, core, tail)
    ensures Decided(phases + [Reconciliation], head, core, tail + [Reconciliation])
  {
    assert phases + [Reconciliation] == head + core + (tail + [Reconciliation]);
  }

  lemma ShapeStep(phases: seq<AuditPhase>, v: Verdict, p: AuditPhase)
    requires Shape(phases, v)
    ensures Shape(phases + [p], NextVerdict(v, p))
  {
    var next := phases + [p];
    match (v, p)
    case (Undecided(_), Rejection) =>
      assert Decided(next, phases, [Rejection], []);
    case (Undecided(true), PreExecution) =>
      assert next == phases[..|phases| - 1] + [Approval, PreExecution] + [];
      assert Decided(next, phases[..|phases| - 1], [Approval, PreExecution], []);
    case (Started, Completion) =>
      var head :| Decided(phases, head, [Approval, PreExecution], []);
      assert next == head + [Approval, PreExecution, Completion] + [];
      assert Decided(next, head, [Approval, PreExecution, Completion], []);
    case (Started, Reconciliation) =>
      var head :| Decided(phases, head, [Approval, PreExecution], []);
      ReconciliationStep(phases, head, [Approval, PreExecution], []);
    case (Finished, Reconciliation) =>
      var head :| Decided(phases, head, [Approval, PreExecution, Completion], []);
      ReconciliationStep(phases, head, [Approval, PreExecution, Completion], []);
    case (Refused, Reconciliation) =>
      var head :| Decided(phases, head, [Rejection], []);
      ReconciliationStep(phases, head, [Rejection], []);
    case (Closed, Reconciliation) =>
      var head, core, tail :| Decided(phases, head, core, tail);
      ReconciliationStep(phases, head, core, tail);
    case (_, _) =>
  }

  lemma {:induction false} RecordsShape(trace: seq<AdminEvent>, id: Uuid)
    ensures Shape(Records(trace, id), AccountOf(trace, id).verdict)
  {
    if trace != [] {
      var front, e := trace[..|trace| - 1], trace[|trace| - 1];
      RecordsShape(front, id);
      if e.Logged? && e.id == id {
        ShapeStep(Records(front, id), AccountOf(front, id).verdict, e.phase);
      }
    }
  }

  /** Unless the account is broken, the records are in the language. */
  lemma UnbrokenInLanguage(trace: seq<AdminEvent>, id: Uuid)
    requires !AccountOf(trace, id).verdict.Broken?
    ensures InLanguage(Records(trace, id))
  {
    RecordsShape(trace, id);
  }

  // ---------------------------------------------------------------- commands

  /** Whether the operation has been invoked since the last command began. */
  function InvokedInCommand(trace: seq<AdminEvent>): bool {
    if trace == [] then false
    else
      match trace[|trace| - 1]
      case Began(_) => false
      case Invoked(_, _) => true
      case _ => InvokedInCommand(trace[..|trace| - 1])
  }

  lemma InvokedStep(trace: seq<AdminEvent>, e: AdminEvent)
    ensures InvokedInCommand(trace + [e]) ==
            if e.Began? then false else if e.Invoked? then true else InvokedInCommand(trace)
  {
    assert (trace + [e])[..|trace|] == trace;
  }

  predicate LastIs(trace: seq<AdminEvent>, e: AdminEvent) {
    trace != [] && trace[|trace| - 1] == e
  }

  predicate LastTwo(trace: seq<AdminEvent>, first: AdminEvent, second: AdminEvent) {
    |trace| >= 2 && trace[|trace| - 2] == first && trace[|trace| - 1] == second
  }

  /** The events an invocation must stand right behind, all of the same command. */
  function Preamble(review: PendingReview): seq<AdminEvent> {
    [Began(Approve(review.requestId)), Revalidated(review),
     Logged(review.requestId, Approval, NotExecuted), Logged(review.requestId, PreExecution, NotExecuted)]
  }

  /** The first `n` events of the preamble have just happened. */
  predicate Approached(trace: seq<AdminEvent>, review: PendingReview, n: nat)
    requires n <= 4
  {
    n <= |trace| && forall i | 0 <= i < n :: trace[|trace| - n + i] == Preamble(review)[i]
  }

  lemma ApproachStep(trace: seq<AdminEvent>, review: PendingReview, n: nat)
    requires n < 4 && Approached(trace, review, n)
    ensures Approached(trace + [Preamble(review)[n]], review, n + 1)
  {
  }

  /** An invocation stands right behind its command's start, a revalidation of the same review and the
      two audit records; a completion record right behind the invocation whose outcome it states. */
  predicate Justified(trace: seq<AdminEvent>, e: AdminEvent) {
    match e
    case Invoked(review, _) => Approached(trace, review, 4)
    case Logged(id, Completion, outcome) =>
      && trace != []
      && var last := trace[|trace| - 1];
         last.Invoked? && last.review.requestId == id && outcome == OutcomeOf(last.returned)
    case _ => true
  }

  ghost predicate AllJustified(trace: seq<AdminEvent>) {
    forall k | 0 <= k < |trace| :: Justified(trace[..k], trace[k])
  }

  lemma JustifiedStep(trace: seq<AdminEvent>, e: AdminEvent)
    requires AllJustified(trace) && Justified(trace, e)
    ensures AllJustified(trace + [e])
  {
    var all := trace + [e];
    forall k | 0 <= k < |all| ensures Justified(all[..k], all[k]) {
      if k < |trace| {
        assert all[..k] == trace[..k];
      } else {
        assert all[..k] == trace;
      }
    }
  }
}
