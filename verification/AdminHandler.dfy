/** The administrator's commands and the agents' calls as they are written (src/main.rs): lock sections on
    the shared store, records appended to the audit log, the workspace captured, compared and acted on.
    Every method is proved to take steps of the machine in Lifecycle, so that what is proved of all its runs
    holds of this code. */
module AdminHandler {
  import opened Wrappers
  import opened Execution
  import opened Persisted
  import opened StoreOperations
  import opened Workplace
  import opened Room
  import opened Lifecycle
  import opened LifecycleInvariant
  import opened LifecycleSteps
  import opened History
  import opened Guarantees
  import opened Finality
  import opened HandlerSteps
  import opened LockScripts
  import AgentLanguage
  import AuditLog
  import Binding
  import Commands
  import Disk
  import FileTree
  import Fingerprint
  import LockDiscipline
  import Policy
  import ReviewStore
  import Mirror
  import Outcomes
  import Snapshot
  import Uuids
  import WriteFile

  ghost predicate WritesLines(text: RecordText) {
    forall id, phase, outcome {:trigger text(id, phase, outcome)} :: LockDiscipline.IsLine(text(id, phase, outcome))
  }

  class Gateway {
    const pendingReviews: ReviewStore.PendingReviewStore
    const auditLog: AuditLog.AnchoredAuditLog
    const files: Snapshot.FileSystem
    const workspace: WriteFile.Workspace
    const home: Home
    const scratch: Scratch
    const config: Policy.Config
    const text: RecordText
    var destinations: set<string>
    var agents: map<Uuid, AgentState>
    var used: set<Uuid>
    ghost var run: seq<GatewayState>
    ghost var state: GatewayState
    ghost var threads: Threads
    ghost var life: nat  // how long the trace was when this process started
    ghost var replies: seq<Reply>  // what was heard from outside

    ghost predicate Objects()
      reads pendingReviews, auditLog
    {
      pendingReviews.Valid() && AuditLog.Valid(auditLog.file) && WritesLines(text)
    }

    /** The workspace as it is. */
    function Here(): Site
      reads this`destinations, files, workspace
    {
      Site(files.items, workspace.folders, destinations)
    }

    /** The state reached is what the fields say. */
    ghost predicate Tracks()
      reads this`run, this`state, this`agents, this`used, this`destinations, pendingReviews, files, workspace
    {
      && Reached(run, state)
      && state.store == pendingReviews.Contents()
      && state.home == home && state.config == config && state.agents == agents && state.used <= used
      && state.site == Here()
    }

    /** Every record of this process that was confirmed stands in the log, in order. */
    ghost predicate Logs()
      reads this`state, this`life, auditLog
    {
      life <= |state.trace| && AuditLog.InLog(AuditLog.Contents(auditLog.file), Texts(state.trace, life, text))
    }

    ghost predicate Valid()
      reads this, pendingReviews, auditLog, files, workspace
    {
      Objects() && Tracks() && Logs() && Free(threads)
    }

    // ---------------------------------------------------------------- starting

    /** The first start: there is no state file yet. */
    constructor (store: ReviewStore.PendingReviewStore, log: AuditLog.AnchoredAuditLog, files: Snapshot.FileSystem,
                 workspace: WriteFile.Workspace, home: Home, scratch: Scratch, destinations: set<string>,
                 config: Policy.Config, text: RecordText)
      requires store.Valid() && store.Contents() == Recover(EMPTY_STORE) && AuditLog.Valid(log.file)
      requires ValidSite(home, Site(files.items, workspace.folders, destinations)) && Policy.ValidConfig(config)
      requires WritesLines(text)
      ensures Valid() && state.admin.Idle? && run == [state]
      ensures pendingReviews == store && auditLog == log && this.files == files && this.workspace == workspace
    {
      var s := State(home, Site(files.items, workspace.folders, destinations), config, Recover(EMPTY_STORE), Idle,
                     map[], {}, map[], {}, [], [], []);
      this.pendingReviews, this.auditLog, this.files, this.workspace := store, log, files, workspace;
      this.home, this.scratch, this.destinations, this.config, this.text :=
        home, scratch, destinations, config, text;
      this.agents, this.used, this.run, this.state, this.threads, this.life, this.replies :=
        map[], {}, [s], s, Threads(map[], false), 0, [];
    }

    /** A later start, when the store has been read back from what the disk showed after the process died or
        power was lost where `last` had been reached. The workspace may have changed in the meantime. */
    constructor Resume(ghost before: seq<GatewayState>, ghost last: GatewayState, drawn: set<Uuid>,
                       store: ReviewStore.PendingReviewStore, log: AuditLog.AnchoredAuditLog,
                       files: Snapshot.FileSystem, workspace: WriteFile.Workspace, home: Home,
                       scratch: Scratch, destinations: set<string>, config: Policy.Config, text: RecordText)
      requires store.Valid() && AuditLog.Valid(log.file) && Policy.ValidConfig(config)
      requires WritesLines(text)
      requires Reached(before, last) && last.home == home && last.used <= drawn
      requires ValidSite(home, Site(files.items, workspace.folders, destinations))
      requires store.Contents() == Restart(last.store)
               || exists image <- last.store.surviving :: store.Contents() == Recover(image)
      ensures Valid() && state.admin.Idle? && Grew(before, run) && state.store == store.Contents()
      ensures pendingReviews == store && auditLog == log && this.files == files && this.workspace == workspace
    {
      var site := Site(files.items, workspace.folders, destinations);
      ghost var run, s := StartedAgain(before, last, config, store.Contents(), site);
      this.pendingReviews, this.auditLog, this.files, this.workspace := store, log, files, workspace;
      this.home, this.scratch, this.destinations, this.config, this.text :=
        home, scratch, destinations, config, text;
      this.agents, this.used, this.run, this.state := map[], drawn, run, s;
      this.threads, this.life, this.replies := Threads(map[], false), |s.trace|, [];
    }

    // ---------------------------------------------------------------- ghost steps

    ghost method Advance(c: Choice)
      requires Reached(run, state) && !state.admin.Idle? && Allowed(state, c) && life <= |state.trace|
      modifies this`run, this`state
      ensures Reached(run, state) && Grew(old(run), run) && |run| > |old(run)| && state == AdminStep(old(state), c)
      ensures Inv(old(state)) && Framed(old(state), state)
      ensures state.site == if old(state).admin.Invoking? then c.world.after else old(state).site
      ensures life <= |state.trace|
      ensures Texts(state.trace, life, text) == Texts(old(state).trace, life, text) + NewTexts(old(state), c, text)
      ensures !Recording(old(state).admin) && !old(state).admin.AuditingReconciliation? ==>
                Texts(state.trace, life, text) == Texts(old(state).trace, life, text)
      ensures state.admin.Idle? ==> Replied(state, LastAnswer(state))
    {
      ReachedInv(run, state);
      StepFacts(state, c, life, text);
      OneMore(run, state, AdminContinues(c));
      run, state := run + [AdminStep(state, c)], AdminStep(state, c);
    }

    /** The command moves on without touching the store or the log. */
    ghost method PlainAdvance(c: Choice)
      requires Reached(run, state) && !state.admin.Idle? && Allowed(state, c) && life <= |state.trace|
      requires !MovesStore(state.admin) && !Recording(state.admin) && !state.admin.AuditingReconciliation?
      modifies this`run, this`state
      ensures Reached(run, state) && Grew(old(run), run) && state == AdminStep(old(state), c)
      ensures Steady(old(state), state) && state.store == old(state).store
      ensures state.site == if old(state).admin.Invoking? then c.world.after else old(state).site
      ensures life <= |state.trace| && Texts(state.trace, life, text) == Texts(old(state).trace, life, text)
      ensures state.admin.Idle? ==> Replied(state, LastAnswer(state))
    {
      Advance(c);
    }

    ghost method LookupAdvance(id: Uuid)
      requires Reached(run, state) && life <= |state.trace|
      requires state.admin == Inspecting(id) || state.admin == ReadingClaimed(id)
      modifies this`run, this`state
      ensures Reached(run, state) && Grew(old(run), run) && Steady(old(state), state)
      ensures state.store == old(state).store && state.site == old(state).site
      ensures life <= |state.trace| && Texts(state.trace, life, text) == Texts(old(state).trace, life, text)
      ensures var found := Found(old(state).admin, old(state).store.mem);
              if found.Ok? then
                && found.value.requestId == id
                && state.admin == if old(state).admin.Inspecting? then Revalidating(found.value)
                                  else AuditingReconciliation(found.value)
              else Replied(state, Err(found.error))
    {
      ReachedInv(run, state);
      LookupStep(state, Calm(state.site), id);
      PlainAdvance(Calm(state.site));
    }

    ghost method RevalidateAdvance(pending: PendingReview, same: bool, reading: Fingerprint.Reading)
      requires Reached(run, state) && life <= |state.trace| && state.admin == Revalidating(pending)
      requires same ==> Revalidates(state.home, state.site, pending, reading)
      modifies this`run, this`state
      ensures Reached(run, state) && Grew(old(run), run) && Steady(old(state), state)
      ensures state.store == old(state).store && state.site == old(state).site
      ensures life <= |state.trace| && Texts(state.trace, life, text) == Texts(old(state).trace, life, text)
      ensures if same then state.admin == Claiming(pending) && LastIs(state.trace, Revalidated(pending))
              else Replied(state, Err(RevalidationFailed))
    {
      if same {
        RevalidatesCanRevalidate(state, pending, reading);
      }
      PlainAdvance(Calm(state.site).(valid := same, reading := reading));
    }

    ghost method InvokeAdvance(claimed: PendingReview, world: World, returned: OperationReturn)
      requires Reached(run, state) && life <= |state.trace| && state.admin == Invoking(claimed)
      requires Possible(state.home, state.site, claimed, world) && returned == Operate(claimed.request, world)
      modifies this`run, this`state
      ensures Reached(run, state) && Grew(old(run), run) && Steady(old(state), state)
      ensures state.store == old(state).store && state.site == world.after
      ensures life <= |state.trace| && Texts(state.trace, life, text) == Texts(old(state).trace, life, text)
      ensures state.admin == AuditingCompletion(claimed, returned)
      ensures state.trace == old(state).trace + [Invoked(claimed, returned)]
      ensures state.sights == old(state).sights + [Seen(old(state).site, world)]
    {
      PlainAdvance(Calm(state.site).(world := world));
    }

    /** A step that moves the store. */
    ghost method StoreAdvance(c: Choice)
      requires Reached(run, state) && MovesStore(state.admin) && life <= |state.trace|
      modifies this`run, this`state
      ensures Reached(run, state) && Grew(old(run), run) && state == AdminStep(old(state), c)
      ensures Inv(old(state)) && Steady(old(state), state) && state.site == old(state).site
      ensures life <= |state.trace| && Texts(state.trace, life, text) == Texts(old(state).trace, life, text)
      ensures state.admin.Idle? ==> Replied(state, LastAnswer(state))
    {
      Advance(c);
    }

    ghost method ClaimAdvance(
      id: Uuid, saved: SaveOutcome, store: DurableStore, claimed: Result<PendingReview, StoreError>)
      requires Reached(run, state) && Claims(state.admin, id) && life <= |state.trace|
      requires (store, claimed) == Claim(state.store, id, saved)
      modifies this`run, this`state
      ensures Reached(run, state) && Grew(old(run), run) && Steady(old(state), state)
      ensures state.store == store && state.site == old(state).site
      ensures life <= |state.trace| && Texts(state.trace, life, text) == Texts(old(state).trace, life, text)
      ensures claimed.Ok? ==>
                && claimed.value.requestId == id && id in old(state).store.mem.reviews
                && state.admin == AfterClaim(old(state).admin, claimed.value)
      ensures claimed.Err? ==> Replied(state, Err(ClaimFailed(claimed.error)))
    {
      ghost var c := Calm(state.site).(save := saved);
      ReachedInv(run, state);
      ClaimStep(state, c, id);
      StoreAdvance(c);
    }

    ghost method RestoreAdvance(
      claimed: PendingReview, saved: SaveOutcome, store: DurableStore, restored: Result<(), StoreError>)
      requires Reached(run, state) && state.admin == Restoring(claimed) && life <= |state.trace|
      requires (store, restored) == Restore(state.store, claimed, saved)
      modifies this`run, this`state
      ensures Reached(run, state) && Grew(old(run), run) && Steady(old(state), state)
      ensures state.store == store && state.site == old(state).site
      ensures life <= |state.trace| && Texts(state.trace, life, text) == Texts(old(state).trace, life, text)
      ensures Replied(state, Err(if restored.Ok? then AuditFailed else RestoreFailed(restored.error)))
    {
      ghost var c := Calm(state.site).(save := saved);
      RestoreStep(state, c);
      StoreAdvance(c);
    }

    ghost method ConsumeAdvance(
      id: Uuid, saved: SaveOutcome, store: DurableStore, result: Result<PendingReview, StoreError>)
      requires Reached(run, state) && Consumes(state.admin, id) && life <= |state.trace|
      requires (store, result) == Consume(state.store, id, saved)
      modifies this`run, this`state
      ensures Reached(run, state) && Grew(old(run), run) && Steady(old(state), state)
      ensures state.store == store && state.site == old(state).site
      ensures life <= |state.trace| && Texts(state.trace, life, text) == Texts(old(state).trace, life, text)
      ensures Replied(state, ConsumedAnswer(old(state).admin, result))
    {
      ghost var c := Calm(state.site).(save := saved);
      ConsumeStep(state, c);
      StoreAdvance(c);
    }

    /** A step that is not the command's. */
    ghost method OtherAdvance(step: Step)
      requires Reached(run, state) && !step.AdminBegins? && !step.AdminContinues? && Enabled(state, step)
      modifies this`run, this`state
      ensures Reached(run, state) && Grew(old(run), run) && state == Apply(old(state), step)
      ensures Inv(old(state))
    {
      ReachedInv(run, state);
      OneMore(run, state, step);
      run, state := run + [Apply(state, step)], Apply(state, step);
    }

    ghost method StartAdvance(
      id: Uuid, request: ExecutionRequest, inScope: bool, purpose: string, evidence: Evidence,
      reading: Fingerprint.Reading, after: map<Uuid, AgentState>)
      requires Reached(run, state) && id !in state.used
      requires Captured(state.home, state.site, request, evidence, reading)
      requires after == AgentsAfterStart(state.config, state.agents, id, request, inScope, purpose, evidence)
      modifies this`run, this`state
      ensures Reached(run, state) && Grew(old(run), run)
      ensures state == AgentStart(old(state), id, request, inScope, purpose, evidence)
      ensures Beside(old(state), state) && state.store == old(state).store && state.used == old(state).used + {id}
      ensures state.agents == after
    {
      StartFacts(state, id, request, inScope, purpose, evidence);
      OtherAdvance(AgentBegins(id, request, inScope, purpose, evidence, reading));
    }

    ghost method MoveAdvance(id: Uuid, c: Choice, after: map<Uuid, AgentState>)
      requires Reached(run, state) && id in state.agents && !state.agents[id].Holding?
      requires after == AgentsAfterMove(state.home, state.agents, id, c)
      modifies this`run, this`state
      ensures Reached(run, state) && Grew(old(run), run) && state == AgentStep(old(state), id, c)
      ensures Beside(old(state), state) && state.store == old(state).store && state.used == old(state).used
      ensures state.agents == after
    {
      MoveFacts(state, id, c);
      OtherAdvance(AgentContinues(id, c));
    }

    ghost method InsertAdvance(id: Uuid, saved: SaveOutcome, store: DurableStore, held: Result<(), StoreError>,
                               committed: bool) returns (c: Choice)
      requires Reached(run, state) && id in state.agents && state.agents[id].Holding?
      requires (store, held) == Insert(state.store, state.agents[id].review, saved)
      requires committed ==> (store, held) == Insert(state.store, state.agents[id].review, Committed)
      modifies this`run, this`state
      ensures Reached(run, state) && Grew(old(run), run) && state == AgentStep(old(state), id, c)
      ensures Beside(old(state), state) && OnlyOthersMoved(old(state), state) && state.used == old(state).used
      ensures state.store == store && state.agents == AgentsAfterInsert(old(state).agents, id, held.Ok?)
      ensures committed ==> id in state.held
    {
      c := Calm(state.site).(save := saved);
      ReachedInv(run, state);
      InsertStep(state, id, c);
      InsertFacts(state, id, c, committed);
      OtherAdvance(AgentContinues(id, c));
    }

    /** Something done outside the lock sections. */
    ghost method DidOther(t: LockDiscipline.Thread)
      requires Free(threads)
      modifies this`threads
      ensures Free(threads) && threads.torn == old(threads).torn
    {
      NoSection(threads, t);
      threads := Did(threads, t, LockDiscipline.Other);
    }

    /** Into a section of the store, and out of it. */
    ghost method EnterStore(t: LockDiscipline.Thread)
      requires Free(threads)
      modifies this`threads
      ensures threads == Did(old(threads), t, TAKE_STORE)
      ensures Free(Did(Did(threads, t, LockDiscipline.UseStore), t, DROP_STORE))
    {
      StoreSection(threads, t);
      threads := Did(threads, t, TAKE_STORE);
    }

    ghost method LeaveStore(t: LockDiscipline.Thread, before: Threads)
      requires threads == Did(before, t, TAKE_STORE)
      requires Free(Did(Did(threads, t, LockDiscipline.UseStore), t, DROP_STORE))
      modifies this`threads
      ensures Free(threads) && UsedStoreLocked(before, threads, t)
    {
      DidThree(before, t, TAKE_STORE, LockDiscipline.UseStore, DROP_STORE);
      threads := Did(Did(threads, t, LockDiscipline.UseStore), t, DROP_STORE);
    }

    ghost method LookedUp(t: LockDiscipline.Thread)
      requires Free(threads)
      modifies this`threads
      ensures Free(threads) && UsedStoreLocked(old(threads), threads, t)
    {
      EnterStore(t);
      LeaveStore(t, old(threads));
    }

    // ---------------------------------------------------------------- the audit log

    method PersistAuditLocked(t: LockDiscipline.Thread, id: Uuid, phase: AuditPhase, outcome: Outcome, reliable: bool)
      returns (ok: bool, ghost result: AuditResult)
      requires AuditLog.Valid(auditLog.file) && Free(threads) && WritesLines(text)
      modifies this`threads, auditLog
      ensures AuditLog.Valid(auditLog.file) && Free(threads)
      ensures ok <==> result.Recorded?
      ensures reliable ==> ok && threads.torn == old(threads).torn
      ensures AuditLog.Contents(old(auditLog.file)) <= AuditLog.Contents(auditLog.file)
      ensures exists piece ::
                && WroteLocked(old(threads), threads, t, piece)
                && AuditLog.Contents(auditLog.file) == AuditLog.Contents(old(auditLog.file)) + piece
      ensures ok ==>
                AuditLog.Contents(auditLog.file) == AuditLog.Contents(old(auditLog.file)) + text(id, phase, outcome)
    {
      ghost var outside := threads;
      threads := Did(threads, t, TAKE_LOG);
      ghost var stop: AuditLog.Stop;
      ok, stop := auditLog.Persist(text(id, phase, outcome), reliable);
      result := AuditLog.Appended(old(auditLog.file), text(id, phase, outcome), stop).1;
      ghost var piece := AuditLog.Piece(text(id, phase, outcome), stop);
      threads := Did(threads, t, LockDiscipline.Write(piece));
      threads := Did(threads, t, DROP_LOG);
      threads := threads.(torn := threads.torn || !(piece == "" || LockDiscipline.IsLine(piece)));
      LogSection(outside, t, piece);
      DidThree(outside, t, TAKE_LOG, LockDiscipline.Write(piece), DROP_LOG);
      assert WroteLocked(outside, threads, t, piece);
    }

    // ---------------------------------------------------------------- others

    /** Anyone may change the workspace, and the destinations that are allowed; if it is calm nobody does. */
    method OthersChange(calm: bool)
      requires Valid()
      modifies this`destinations, this`run, this`state, files, workspace
      ensures Valid() && Grew(old(run), run) && OnlyOthersMoved(old(state), state)
      ensures calm ==> state.site == old(state).site
    {
      var site: Site := *;
      if !calm && ValidSite(home, site) {
        files.items := site.tree;
        workspace.folders := site.folders;
        destinations := site.destinations;
        OtherAdvance(OthersMove(site));
      }
    }

    /** What is captured of the workspace for a request, if it is to be reviewed. Others may change the workspace
        while it is walked over, unless it is `still`. */
    method CaptureEvidence(request: ExecutionRequest, review: bool, reliable: bool, still: bool)
      returns (evidence: Evidence, ghost reading: Fingerprint.Reading)
      requires ValidSite(home, Here())
      ensures Captured(home, Here(), request, evidence, reading)
      ensures Fingerprint.Answered(files.items, still, reading.log)
      ensures review && reliable && still && request.RunCargoTest? ==>
                (evidence.fingerprint.Some? <==> !FileTree.HasCoveredLink(files.items, home.root))
      ensures review && reliable && request.WriteFile? ==>
                (evidence.target.Some? <==> WriteFile.WritablePath(workspace.folders, home.components(request.path)))
    {
      evidence, reading := Evidence(None, None), NOTHING_READ;
      if !review {
        return;
      }
      match request {
        case RunCargoTest =>
          var fingerprint;
          fingerprint, reading :=
            Fingerprint.ComputeFingerprint(files.items, still, home.root, home.hash, reliable);
          if fingerprint.Ok? {
            evidence := Evidence(Some(fingerprint.value), None);
          } else {
            assert fingerprint.error == Fingerprint.LinkFound || fingerprint.error == Fingerprint.IoFailed;
          }
        case WriteFile(path, _) =>
          var target := workspace.CaptureWriteTargetState(home.components(path), home.hash, reliable);
          if target.Ok? {
            evidence := Evidence(None, Some(target.value));
          }
        case _ =>
      }
    }

    method AgentDraw(id: Uuid, request: ExecutionRequest, inScope: bool, purpose: string, evidence: Evidence,
                     ghost reading: Fingerprint.Reading)
      requires Valid() && id !in used && Captured(home, Here(), request, evidence, reading)
      modifies this`agents, this`used, this`run, this`state
      ensures Valid() && Grew(old(run), run) && OnlyOthersMoved(old(state), state) && state.site == old(state).site
      ensures state == AgentStart(old(state), id, request, inScope, purpose, evidence)
    {
      var after := AgentsAfterStart(config, agents, id, request, inScope, purpose, evidence);
      StartAdvance(id, request, inScope, purpose, evidence, reading, after);
      used := used + {id};
      agents := after;
    }

    /** A new call: an id is drawn, the request is evaluated, and what a review needs is captured. */
    method AgentBegin(
      id: Uuid, request: ExecutionRequest, inScope: bool, purpose: string, reliable: bool, still: bool)
      returns (evidence: Evidence, ghost reading: Fingerprint.Reading)
      requires Valid() && id !in used && ValidSite(home, Here())
      modifies this`agents, this`used, this`run, this`state, this`threads
      ensures Valid() && Grew(old(run), run) && OnlyOthersMoved(old(state), state) && state.site == old(state).site
      ensures Captured(home, state.site, request, evidence, reading)
      ensures state == AgentStart(old(state), id, request, inScope, purpose, evidence)
    {
      var decision := Policy.EvaluateRequest(request, inScope, config).decision;
      evidence, reading := CaptureEvidence(request, decision.Review?, reliable, still);
      DidOther(CallThread(id));
      AgentDraw(id, request, inScope, purpose, evidence, reading);
    }

    /** The lock section around an insertion. */
    method InsertLocked(id: Uuid, review: PendingReview, reliable: bool)
      returns (held: Result<(), StoreError>, ghost saved: SaveOutcome, ghost history: seq<ReviewStore.Moment>)
      requires Objects() && Free(threads) && Reached(run, state) && state.store == pendingReviews.Contents()
      requires id in state.agents && state.agents[id] == Holding(review)
      modifies this`threads, pendingReviews
      ensures Objects() && Free(threads) && UsedStoreLocked(old(threads), threads, CallThread(id))
      ensures (pendingReviews.Contents(), held) == Insert(old(pendingReviews.Contents()), review, saved)
      ensures reliable ==>
                (pendingReviews.Contents(), held) == Insert(old(pendingReviews.Contents()), review, Committed)
      ensures AllStop(run, history, pendingReviews.file)
    {
      ReachedInv(run, state);
      NotHeldYet(state, id);
      EnterStore(CallThread(id));
      held, saved, history := pendingReviews.Insert(review, reliable);
      LeaveStore(CallThread(id), old(threads));
      InsertStops(run, state, id, history, pendingReviews.file);
    }

    method AgentInserted(
      id: Uuid, review: PendingReview, ghost saved: SaveOutcome, held: Result<(), StoreError>, ghost committed: bool)
      returns (ghost c: Choice)
      requires Objects() && Logs() && Free(threads) && Reached(run, state)
      requires id in agents && agents[id] == Holding(review)
      requires state.home == home && state.config == config && state.agents == agents && state.used <= used
      requires state.site == Here()
      requires (pendingReviews.Contents(), held) == Insert(state.store, review, saved)
      requires committed ==> (pendingReviews.Contents(), held) == Insert(state.store, review, Committed)
      modifies this`agents, this`run, this`state
      ensures Valid() && Grew(old(run), run) && OnlyOthersMoved(old(state), state) && state.site == old(state).site
      ensures state == AgentStep(old(state), id, c)
      ensures committed ==> id in state.held
    {
      c := InsertAdvance(id, saved, pendingReviews.Contents(), held, committed);
      agents := AgentsAfterInsert(agents, id, held.Ok?);
    }

    /** The lock section in which a call's review is inserted. At every moment of its save the process can stop. */
    method AgentInsert(id: Uuid, reliable: bool)
      returns (ghost c: Choice, ghost history: seq<ReviewStore.Moment>)
      requires Valid() && id in agents && agents[id].Holding?
      modifies this`agents, this`run, this`state, this`threads, pendingReviews
      ensures Valid() && Grew(old(run), run) && OnlyOthersMoved(old(state), state) && state.site == old(state).site
      ensures state == AgentStep(old(state), id, c)
      ensures reliable ==> id in state.held
      ensures AllStop(old(run), history, pendingReviews.file)
    {
      var review := agents[id].review;
      ghost var saved: SaveOutcome;
      var held;
      held, saved, history := InsertLocked(id, review, reliable);
      c := AgentInserted(id, review, saved, held, reliable);
    }

    method AgentGoes(id: Uuid, ghost c: Choice, after: map<Uuid, AgentState>)
      requires Valid() && id in agents && !agents[id].Holding?
      requires after == AgentsAfterMove(home, agents, id, c)
      modifies this`agents, this`run, this`state
      ensures Valid() && Grew(old(run), run) && OnlyOthersMoved(old(state), state) && state.site == old(state).site
      ensures state == AgentStep(old(state), id, c)
    {
      MoveAdvance(id, c, after);
      agents := after;
    }

    /** The purpose is checked, and the call goes on to what was decided. */
    method AgentReport(id: Uuid, request: ExecutionRequest, decision: Policy.Decision, purpose: string,
                       ghost c0: Choice)
      returns (ghost c: Choice)
      requires Valid() && id in agents && agents[id] == Reporting(request, decision, purpose)
      modifies this`agents, this`run, this`state, this`threads
      ensures Valid() && Grew(old(run), run) && OnlyOthersMoved(old(state), state) && state.site == old(state).site
      ensures c == c0 && state == AgentStep(old(state), id, c)
    {
      c := c0;
      DidOther(CallThread(id));
      var after :=
        if !ValidPurpose(home, purpose) then agents - {id}
        else agents[id := if decision.Allow? then AuditingStart(request) else AuditingEnd(NotExecuted)];
      AgentGoes(id, c, after);
    }

    /** The operation of a call that was allowed. The arms for privileged requests only say that approval is
        required. */
    method AgentRun(id: Uuid, request: ExecutionRequest, succeeds: bool, ghost c0: Choice) returns (ghost c: Choice)
      requires Valid() && id in agents && agents[id] == Running(request) && c0.valid == succeeds
      modifies this`agents, this`run, this`state, this`threads
      ensures Valid() && Grew(old(run), run) && OnlyOthersMoved(old(state), state) && state.site == old(state).site
      ensures c == c0 && state == AgentStep(old(state), id, c)
      ensures state.agentTrace == old(state).agentTrace + [AgentInvoked(id, request, succeeds)]
    {
      c := c0;
      RunningUnprivileged(run, state, id);
      DidOther(CallThread(id));
      AgentGoes(id, c, agents[id := AuditingEnd(if !IsPrivileged(request) && succeeds then Success else Failed)]);
    }

    /** One of a call's own records. */
    method AgentRecord(
      id: Uuid, phase: AuditPhase, outcome: Outcome, next: AgentState, reliable: bool, ghost c0: Choice)
      returns (ghost c: Choice)
      requires Valid() && id in agents
      requires if phase.PreExecution? then next.Running? && agents[id] == AuditingStart(next.request)
               else agents[id] == AuditingEnd(outcome)
      modifies this`agents, this`run, this`state, this`threads, auditLog
      ensures Valid() && Grew(old(run), run) && OnlyOthersMoved(old(state), state) && state.site == old(state).site
      ensures state == AgentStep(old(state), id, c) && c == c0.(audit := c.audit)
      ensures reliable ==> c.audit.Recorded?
    {
      ghost var before := AuditLog.Contents(auditLog.file);
      ghost var result: AuditResult;
      var recorded;
      recorded, result := PersistAuditLocked(CallThread(id), id, phase, outcome, reliable);
      OthersInLog(before, AuditLog.Contents(auditLog.file), Texts(state.trace, life, text));
      c := c0.(audit := result);
      AgentGoes(id, c, if phase.PreExecution? && recorded then agents[id := next] else agents - {id});
    }

    /** Any other step of one agent call. */
    method AgentMove(id: Uuid, succeeds: bool, reliable: bool) returns (ghost c: Choice)
      requires Valid() && id in agents && !agents[id].Holding?
      modifies this`agents, this`run, this`state, this`threads, auditLog
      ensures Valid() && Grew(old(run), run) && OnlyOthersMoved(old(state), state) && state.site == old(state).site
      ensures state == AgentStep(old(state), id, c)
      ensures c.valid == succeeds
      ensures old(agents)[id].Running? ==>
                state.agentTrace == old(state).agentTrace + [AgentInvoked(id, old(agents)[id].request, succeeds)]
      ensures reliable ==> c.audit.Recorded?
    {
      var t := CallThread(id);
      c := Calm(state.site).(valid := succeeds);
      match agents[id] {
        case Reporting(request, decision, purpose) =>
          c := AgentReport(id, request, decision, purpose, c);
        case AuditingStart(request) =>
          c := AgentRecord(id, PreExecution, NotExecuted, Running(request), reliable, c);
        case Running(request) =>
          c := AgentRun(id, request, succeeds, c);
        case AuditingEnd(outcome) =>
          c := AgentRecord(id, Completion, outcome, AuditingEnd(outcome), reliable, c);
      }
    }

    /** A call begins with any request. */
    method AnyRequest(id: Uuid, reliable: bool)
      requires Valid() && id !in used
      modifies this`agents, this`used, this`run, this`state, this`threads
      ensures Valid() && Grew(old(run), run) && OnlyOthersMoved(old(state), state) && state.site == old(state).site
    {
      var request: ExecutionRequest, inScope: bool, purpose: string, still: bool := *, *, *, *;
      SiteIsValid(run, state);
      var _, _ := AgentBegin(id, request, inScope, purpose, reliable, still);
    }

    method OneOther(calm: bool)
      requires Valid()
      modifies this, pendingReviews, auditLog, files, workspace
      ensures Valid() && Grew(old(run), run) && OnlyOthersMoved(old(state), state)
      ensures calm ==> state.site == old(state).site
    {
      var id: Uuid, begins: bool, reliable: bool, succeeds: bool := *, *, *, *;
      if id in agents && agents[id].Holding? {
        ghost var _, _ := AgentInsert(id, reliable);
      } else if id in agents {
        ghost var _ := AgentMove(id, succeeds, reliable);
      } else if begins && id !in used {
        AnyRequest(id, reliable);
      } else {
        OthersChange(calm);
      }
    }

    /** Any number of steps of agent calls, new ones among them, and of changes to the workspace, as they may
        happen between two lock sections of a command. */
    method OthersInBetween(calm: bool)
      requires Valid()
      modifies this, pendingReviews, auditLog, files, workspace
      ensures Valid() && Grew(old(run), run) && OnlyOthersMoved(old(state), state)
      ensures calm ==> state.site == old(state).site
    {
      ghost var start, first := state, run;
      var more: nat := *;
      while more > 0
        invariant Valid() && Grew(first, run) && OnlyOthersMoved(start, state)
        invariant calm ==> state.site == start.site
      {
        OneOther(calm);
        more := more - 1;
      }
    }

    // ---------------------------------------------------------------- the sections of a command

    method Lookup(id: Uuid, claimed: bool) returns (result: Result<PendingReview, AdminError>)
      requires Valid() && state.admin == if claimed then ReadingClaimed(id) else Inspecting(id)
      modifies this`run, this`state, this`threads
      ensures Valid() && Grew(old(run), run) && UsedStoreLocked(old(threads), threads, ADMIN)
      ensures state.store == old(state).store && state.site == old(state).site
      ensures result == Found(old(state).admin, old(state).store.mem)
      ensures if result.Ok? then
                && result.value.requestId == id
                && state.admin == if old(state).admin.Inspecting? then Revalidating(result.value)
                                  else AuditingReconciliation(result.value)
              else Replied(state, Err(result.error))
    {
      var held := if claimed then pendingReviews.claimedReviews else pendingReviews.reviews;
      result := if id in held then Ok(held[id]) else Err(if claimed then NotClaimed else NotPending);
      LookedUp(ADMIN);
      LookupAdvance(id);
    }

    /** A lookup in the store under its lock. */
    method InspectPendingRequest(id: Uuid, calm: bool) returns (result: Result<PendingReview, AdminError>)
      requires Valid() && state.admin == Inspecting(id)
      modifies this, pendingReviews, auditLog, files, workspace
      ensures Valid() && Grew(old(run), run)
      ensures calm ==> state.site == old(state).site
      ensures result == if id in old(state).store.mem.reviews then Ok(old(state).store.mem.reviews[id])
                        else Err(NotPending)
      ensures if result.Ok? then
                && state.admin == Revalidating(result.value) && result.value.requestId == id
                && id in state.store.mem.reviews && state.store.mem.reviews[id] == result.value
              else Replied(state, Err(NotPending))
    {
      result := Lookup(id, false);
      if result.Ok? {
        OthersInBetween(calm);
      }
    }

    method ReadClaimed(id: Uuid) returns (result: Result<PendingReview, AdminError>)
      requires Valid() && state.admin == ReadingClaimed(id)
      modifies this, pendingReviews, auditLog, files, workspace
      ensures Valid() && Grew(old(run), run)
      ensures result == if id in old(state).store.mem.claimed then Ok(old(state).store.mem.claimed[id])
                        else Err(NotClaimed)
      ensures if result.Ok? then state.admin == AuditingReconciliation(result.value) && result.value.requestId == id
              else Replied(state, Err(NotClaimed))
    {
      result := Lookup(id, true);
      if result.Ok? {
        OthersInBetween(false);
      }
    }

    /** Captures again what the review recorded, and compares. */
    method CompareEvidence(pending: PendingReview, reliable: bool, still: bool)
      returns (same: bool, ghost reading: Fingerprint.Reading)
      requires ValidSite(home, Here())
      ensures same ==> Revalidates(home, Here(), pending, reading)
      ensures Fingerprint.Answered(files.items, still, reading.log)
      ensures reliable && still ==> (same <==> Unchanged(home, Here(), pending))
    {
      reading := NOTHING_READ;
      match pending.request {
        case WriteFile(path, _) =>
          var target := home.components(path);
          var valid := workspace.RevalidateWriteTarget(target, reliable);
          if valid.Err? || pending.writeTargetState.None? {
            return false, reading;
          }
          var current := workspace.CaptureWriteTargetState(target, home.hash, reliable);
          return current.Ok? && current.value == pending.writeTargetState.value, reading;
        case RunCargoTest =>
          var failed: bool := *;
          var manifest := home.root + [FileTree.CARGO_TOML] in files.items && !(failed && !reliable);
          if !manifest || pending.workspaceFingerprint.None? {
            return false, reading;
          }
          var current;
          current, reading := Fingerprint.ComputeFingerprint(files.items, still, home.root, home.hash, reliable);
          if current.Err? {
            assert current.error == Fingerprint.LinkFound || current.error == Fingerprint.IoFailed;
            return false, reading;
          }
          return current.value == pending.workspaceFingerprint.value, reading;
        case HttpRequest(verb, url, _) =>
          var failed: bool := *;
          return verb.Post? && url in destinations && !(failed && !reliable), reading;
        case _ =>
          return false, reading;
      }
    }

    method RevalidatePendingRequest(pending: PendingReview, reliable: bool, still: bool)
      returns (result: Result<(), AdminError>)
      requires Valid() && state.admin == Revalidating(pending)
      modifies this`run, this`state, this`threads
      ensures Valid() && Grew(old(run), run)
      ensures state.store == old(state).store && state.site == old(state).site
      ensures reliable && still ==> (result.Ok? <==> Unchanged(home, state.site, pending))
      ensures if result.Ok? then state.admin == Claiming(pending) && LastIs(state.trace, Revalidated(pending))
              else result == Err(RevalidationFailed) && Replied(state, Err(RevalidationFailed))
    {
      SiteIsValid(run, state);
      var same;
      ghost var reading;
      same, reading := CompareEvidence(pending, reliable, still);
      DidOther(ADMIN);
      RevalidateAdvance(pending, same, reading);
      result := if same then Ok(()) else Err(RevalidationFailed);
    }

    method ClaimLocked(id: Uuid, reliable: bool)
      returns (claimed: Result<PendingReview, StoreError>, ghost saved: SaveOutcome,
               ghost history: seq<ReviewStore.Moment>)
      requires Objects() && Free(threads) && Reached(run, state) && state.store == pendingReviews.Contents()
      requires Claims(state.admin, id)
      modifies this`threads, pendingReviews
      ensures Objects() && Free(threads) && UsedStoreLocked(old(threads), threads, ADMIN)
      ensures (pendingReviews.Contents(), claimed) == Claim(state.store, id, saved)
      ensures reliable && id in state.store.mem.reviews ==> claimed == Ok(state.store.mem.reviews[id])
      ensures AllStop(run, history, pendingReviews.file)
    {
      if id in state.store.mem.reviews {
        ClaimCommits(state.store, id);
      }
      EnterStore(ADMIN);
      claimed, saved, history := pendingReviews.Claim(id, reliable);
      LeaveStore(ADMIN, old(threads));
      ClaimStops(run, state, id, history, pendingReviews.file);
    }

    /** The command after its claim has come out. */
    ghost method Claimed(id: Uuid, saved: SaveOutcome, claimed: Result<PendingReview, StoreError>)
      requires Objects() && Logs() && Free(threads) && Reached(run, state) && Claims(state.admin, id)
      requires state.home == home && state.config == config && state.agents == agents && state.used <= used
      requires state.site == Here() && (pendingReviews.Contents(), claimed) == Claim(state.store, id, saved)
      modifies this`run, this`state
      ensures Valid() && Grew(old(run), run)
      ensures claimed.Ok? ==>
                && claimed.value.requestId == id && id in old(state).store.mem.reviews
                && state.admin == AfterClaim(old(state).admin, claimed.value)
      ensures claimed.Err? ==> Replied(state, Err(ClaimFailed(claimed.error)))
      ensures state.site == old(state).site
    {
      ClaimAdvance(id, saved, pendingReviews.Contents(), claimed);
    }

    method ClaimSection(id: Uuid, reliable: bool)
      returns (result: Result<PendingReview, AdminError>, ghost history: seq<ReviewStore.Moment>)
      requires Valid() && Claims(state.admin, id)
      modifies this`run, this`state, this`threads, pendingReviews
      ensures Valid() && Grew(old(run), run)
      ensures result.Ok? ==>
                && result.value.requestId == id && id in old(state).store.mem.reviews
                && state.admin == AfterClaim(old(state).admin, result.value)
      ensures result.Err? ==> Replied(state, Err(result.error))
      ensures reliable && id in old(state).store.mem.reviews ==> result == Ok(old(state).store.mem.reviews[id])
      ensures AllStop(old(run), history, pendingReviews.file)
      ensures state.site == old(state).site
    {
      ghost var saved: SaveOutcome;
      var claimed;
      claimed, saved, history := ClaimLocked(id, reliable);
      Claimed(id, saved, claimed);
      result := if claimed.Ok? then Ok(claimed.value) else Err(ClaimFailed(claimed.error));
    }

    /** The claim of an approval, or of a rejection when nothing was inspected before. */
    method ClaimRequest(id: Uuid, reliable: bool, calm: bool)
      returns (result: Result<PendingReview, AdminError>, ghost history: seq<ReviewStore.Moment>)
      requires Valid() && Claims(state.admin, id)
      modifies this, pendingReviews, auditLog, files, workspace
      ensures Valid() && Grew(old(run), run)
      ensures result.Ok? ==>
                && result.value.requestId == id && id in old(state).store.mem.reviews
                && state.admin == AfterClaim(old(state).admin, result.value)
      ensures result.Err? ==> Replied(state, Err(result.error))
      ensures reliable && id in old(state).store.mem.reviews ==> result == Ok(old(state).store.mem.reviews[id])
      ensures AllStop(old(run), history, pendingReviews.file)
      ensures calm && result.Ok? ==> state.site == old(state).site
    {
      result, history := ClaimSection(id, reliable);
      if result.Ok? {
        OthersInBetween(calm);
      }
    }

    method RestoreLocked(claimed: PendingReview, reliable: bool)
      returns (restored: Result<(), StoreError>, ghost saved: SaveOutcome, ghost history: seq<ReviewStore.Moment>)
      requires Objects() && Free(threads) && Reached(run, state) && state.store == pendingReviews.Contents()
      requires state.admin == Restoring(claimed)
      modifies this`threads, pendingReviews
      ensures Objects() && Free(threads) && UsedStoreLocked(old(threads), threads, ADMIN)
      ensures (pendingReviews.Contents(), restored) == Restore(state.store, claimed, saved)
      ensures reliable ==> restored.Ok?
      ensures AllStop(run, history, pendingReviews.file)
    {
      RestoringCommits(run, state, claimed);
      EnterStore(ADMIN);
      restored, saved, history := pendingReviews.RestoreClaimed(claimed, reliable);
      LeaveStore(ADMIN, old(threads));
      RestoreStops(run, state, claimed, history, pendingReviews.file);
    }

    /** The claimed review goes back among the pending ones, and the command ends with an error. */
    method RestoreClaimedRequest(claimed: PendingReview, reliable: bool)
      returns (error: AdminError, ghost history: seq<ReviewStore.Moment>)
      requires Valid() && state.admin == Restoring(claimed)
      modifies this`run, this`state, this`threads, pendingReviews
      ensures Valid() && Grew(old(run), run) && Replied(state, Err(error))
      ensures reliable ==> error == AuditFailed
      ensures AllStop(old(run), history, pendingReviews.file)
    {
      ghost var saved: SaveOutcome;
      var restored;
      restored, saved, history := RestoreLocked(claimed, reliable);
      RestoreAdvance(claimed, saved, pendingReviews.Contents(), restored);
      error := if restored.Ok? then AuditFailed else RestoreFailed(restored.error);
    }

    method ConsumeLocked(id: Uuid, reliable: bool)
      returns (result: Result<PendingReview, StoreError>, ghost saved: SaveOutcome,
               ghost history: seq<ReviewStore.Moment>)
      requires Objects() && Free(threads) && Reached(run, state) && state.store == pendingReviews.Contents()
      requires Consumes(state.admin, id)
      modifies this`threads, pendingReviews
      ensures Objects() && Free(threads) && UsedStoreLocked(old(threads), threads, ADMIN)
      ensures (pendingReviews.Contents(), result) == Consume(state.store, id, saved)
      ensures reliable ==> id in state.store.mem.claimed && result == Ok(state.store.mem.claimed[id])
      ensures AllStop(run, history, pendingReviews.file)
    {
      ConsumingCommits(run, state, id);
      EnterStore(ADMIN);
      result, saved, history := pendingReviews.ConsumeClaimed(id, reliable);
      LeaveStore(ADMIN, old(threads));
      ConsumeStops(run, state, id, history, pendingReviews.file);
    }

    /** The last section of a command: the claimed review is consumed. */
    method ConsumeClaimedRequest(id: Uuid, reliable: bool)
      returns (result: Result<PendingReview, StoreError>, ghost history: seq<ReviewStore.Moment>)
      requires Valid() && Consumes(state.admin, id)
      modifies this`run, this`state, this`threads, pendingReviews
      ensures Valid() && Grew(old(run), run)
      ensures Replied(state, ConsumedAnswer(old(state).admin, result))
      ensures reliable ==> id in old(state).store.mem.claimed && result == Ok(old(state).store.mem.claimed[id])
      ensures AllStop(old(run), history, pendingReviews.file)
    {
      ghost var saved: SaveOutcome;
      result, saved, history := ConsumeLocked(id, reliable);
      ConsumeAdvance(id, saved, pendingReviews.Contents(), result);
    }

    // ---------------------------------------------------------------- a command's records

    /** The command writes a record, or fails to. */
    ghost method TextAdvance(c: Choice)
      requires Reached(run, state) && (Recording(state.admin) || state.admin.AuditingReconciliation?)
      requires life <= |state.trace|
      modifies this`run, this`state
      ensures Reached(run, state) && Grew(old(run), run) && Steady(old(state), state)
      ensures state.store == old(state).store && state.site == old(state).site
      ensures state.admin == AdminStep(old(state), c).admin
      ensures life <= |state.trace|
      ensures Texts(state.trace, life, text) == Texts(old(state).trace, life, text) + NewTexts(old(state), c, text)
      ensures state.admin.Idle? ==> Replied(state, LastAnswer(AdminStep(old(state), c)))
    {
      Advance(c);
    }

    /** The command goes on as its record has come out, and the log, whose contents were `before`, still holds
        all confirmed ones. */
    ghost method AdvanceRecord(c: Choice, before: string, after: string, entry: string)
      requires Reached(run, state) && (Recording(state.admin) || state.admin.AuditingReconciliation?)
      requires life <= |state.trace| && AuditLog.InLog(before, Texts(state.trace, life, text)) && before <= after
      requires NewTexts(state, c, text) == if c.audit.Recorded? then [entry] else []
      requires c.audit.Recorded? ==> after == before + entry
      modifies this`run, this`state
      ensures Reached(run, state) && Grew(old(run), run) && Steady(old(state), state)
      ensures state.store == old(state).store && state.site == old(state).site
      ensures state.admin == AdminStep(old(state), c).admin
      ensures life <= |state.trace| && AuditLog.InLog(after, Texts(state.trace, life, text))
      ensures state.admin.Idle? ==> Replied(state, LastAnswer(AdminStep(old(state), c)))
    {
      StillInLog(before, after, Texts(state.trace, life, text), entry, c.audit.Recorded?);
      TextAdvance(c);
    }

    ghost method RecordAdvance(
      claimed: PendingReview, phase: AuditPhase, outcome: Outcome, audit: AuditResult, before: string, after: string)
      requires Reached(run, state) && Audits(state.admin, claimed, phase, outcome)
      requires life <= |state.trace| && AuditLog.InLog(before, Texts(state.trace, life, text)) && before <= after
      requires audit.Recorded? ==> after == before + text(claimed.requestId, phase, outcome)
      modifies this`run, this`state
      ensures Reached(run, state) && Grew(old(run), run) && Steady(old(state), state)
      ensures state.store == old(state).store && state.site == old(state).site
      ensures life <= |state.trace| && AuditLog.InLog(after, Texts(state.trace, life, text))
      ensures state.admin == AfterRecord(old(state).admin, audit.Recorded?)
    {
      ghost var c := Calm(state.site).(audit := audit);
      ReachedInv(run, state);
      RecordStep(state, c);
      AdvanceRecord(c, before, after, text(claimed.requestId, phase, outcome));
    }

    ghost method ReconciliationAdvance(claimed: PendingReview, audit: AuditResult, before: string, after: string)
      requires Reached(run, state) && state.admin == AuditingReconciliation(claimed)
      requires life <= |state.trace| && AuditLog.InLog(before, Texts(state.trace, life, text)) && before <= after
      requires audit.Recorded? ==> after == before + text(claimed.requestId, Reconciliation, Unknown)
      modifies this`run, this`state
      ensures Reached(run, state) && Grew(old(run), run) && Steady(old(state), state)
      ensures state.store == old(state).store && state.site == old(state).site
      ensures life <= |state.trace| && AuditLog.InLog(after, Texts(state.trace, life, text))
      ensures if audit.Recorded? then state.admin == ConsumingAcknowledged(claimed)
              else Replied(state, Err(AuditFailed))
    {
      ghost var c := Calm(state.site).(audit := audit);
      ReachedInv(run, state);
      ReconciliationRecordStep(state, c);
      AdvanceRecord(c, before, after, text(claimed.requestId, Reconciliation, Unknown));
    }

    /** A record about the claimed review, and where the command goes on: it depends on whether the write
        returned Ok. */
    method RecordLocked(claimed: PendingReview, phase: AuditPhase, outcome: Outcome, reliable: bool)
      returns (recorded: bool)
      requires Valid() && Audits(state.admin, claimed, phase, outcome)
      modifies this`run, this`state, this`threads, auditLog
      ensures Valid() && Grew(old(run), run)
      ensures state.admin == AfterRecord(old(state).admin, recorded)
      ensures reliable ==> recorded
      ensures state.site == old(state).site
    {
      ghost var before := AuditLog.Contents(auditLog.file);
      ghost var audit: AuditResult;
      recorded, audit := PersistAuditLocked(ADMIN, claimed.requestId, phase, outcome, reliable);
      RecordAdvance(claimed, phase, outcome, audit, before, AuditLog.Contents(auditLog.file));
    }

    method RecordAboutClaimed(claimed: PendingReview, phase: AuditPhase, outcome: Outcome, reliable: bool, calm: bool)
      returns (recorded: bool)
      requires Valid() && Audits(state.admin, claimed, phase, outcome)
      modifies this, pendingReviews, auditLog, files, workspace
      ensures Valid() && Grew(old(run), run)
      ensures state.admin == AfterRecord(old(state).admin, recorded)
      ensures reliable ==> recorded
      ensures calm ==> state.site == old(state).site
    {
      recorded := RecordLocked(claimed, phase, outcome, reliable);
      OthersInBetween(calm);
    }

    method AuditClaimedApproval(claimed: PendingReview, reliable: bool, calm: bool)
      returns (result: Result<(), AdminError>)
      requires Valid() && state.admin == AuditingApproval(claimed)
      modifies this, pendingReviews, auditLog, files, workspace
      ensures Valid() && Grew(old(run), run)
      ensures result.Ok? ==> state.admin == AuditingPreExecution(claimed) && Reviewable(claimed)
      ensures result.Err? ==> Replied(state, Err(result.error))
      ensures reliable ==> result.Ok?
      ensures calm && result.Ok? ==> state.site == old(state).site
    {
      var recorded := RecordAboutClaimed(claimed, Approval, NotExecuted, reliable, calm);
      if !recorded {
        var error, _ := RestoreClaimedRequest(claimed, reliable);
        return Err(error);
      }
      ApprovedReviewable(run, state, claimed);
      return Ok(());
    }

    method FinishRejection(claimed: PendingReview, reliable: bool) returns (result: Result<(), AdminError>)
      requires Valid() && state.admin == ConsumingRejected(claimed)
      modifies this`run, this`state, this`threads, pendingReviews
      ensures Valid() && Grew(old(run), run)
      ensures Replied(state, if result.Ok? then Ok(AdminOutcome.Rejected(claimed)) else Err(result.error))
      ensures reliable ==> result.Ok?
    {
      var consumed, _ := ConsumeClaimedRequest(claimed.requestId, reliable);
      return if consumed.Ok? then Ok(()) else Err(ConsumeFailedAfterRejection(consumed.error));
    }

    method AuditClaimedRejection(claimed: PendingReview, reliable: bool) returns (result: Result<(), AdminError>)
      requires Valid() && state.admin == AuditingRejection(claimed)
      modifies this, pendingReviews, auditLog, files, workspace
      ensures Valid() && Grew(old(run), run)
      ensures Replied(state, if result.Ok? then Ok(AdminOutcome.Rejected(claimed)) else Err(result.error))
      ensures reliable ==> result.Ok?
    {
      var recorded := RecordAboutClaimed(claimed, Rejection, NotExecuted, reliable, false);
      if !recorded {
        var error, _ := RestoreClaimedRequest(claimed, reliable);
        return Err(error);
      }
      result := FinishRejection(claimed, reliable);
    }

    method ReconciliationLocked(claimed: PendingReview, reliable: bool) returns (recorded: bool)
      requires Valid() && state.admin == AuditingReconciliation(claimed)
      modifies this`run, this`state, this`threads, auditLog
      ensures Valid() && Grew(old(run), run)
      ensures if recorded then state.admin == ConsumingAcknowledged(claimed) else Replied(state, Err(AuditFailed))
      ensures state.store == old(state).store
      ensures reliable ==> recorded
    {
      ghost var before := AuditLog.Contents(auditLog.file);
      ghost var audit: AuditResult := NotRecorded;
      ReconcilingHasReason(run, state, claimed);
      recorded := false;
      if Policy.ReviewReason(claimed.request).Some? {
        recorded, audit := PersistAuditLocked(ADMIN, claimed.requestId, Reconciliation, Unknown, reliable);
      }
      ReconciliationAdvance(claimed, audit, before, AuditLog.Contents(auditLog.file));
    }

    /** An acknowledgement's record: the request may have no review reason, and then nothing is written. */
    method WriteReconciliationAudit(claimed: PendingReview, reliable: bool) returns (recorded: bool)
      requires Valid() && state.admin == AuditingReconciliation(claimed)
      modifies this, pendingReviews, auditLog, files, workspace
      ensures Valid() && Grew(old(run), run)
      ensures if recorded then
                && state.admin == ConsumingAcknowledged(claimed)
                && state.store.mem.claimed == old(state).store.mem.claimed
              else Replied(state, Err(AuditFailed))
      ensures reliable ==> recorded
    {
      recorded := ReconciliationLocked(claimed, reliable);
      if recorded {
        OthersInBetween(false);
      }
    }

    // ---------------------------------------------------------------- the operation

    /** The name of a temporary: not that of the target, and if it can be helped not one that is taken. */
    method DrawTemporary(target: WriteFile.RequestedPath, reliable: bool)
      returns (temporary: FileTree.FileName, ghost uuid: Uuids.Drawn)
      requires ValidSite(home, Here()) && WriteFile.HasFileName(target)
      ensures temporary == Uuids.TemporaryName(uuid) && temporary != target[|target| - 1].name
      ensures reliable && Uncrowded(Here()) ==> WriteFile.Unused(workspace.folders, target, temporary)
    {
      var n: nat;
      if reliable && |files.items| + 1 < Uuids.UUIDS {
        TemporaryIsFree(files.items, home.root, target);
        n :| FreeTemporary(files.items, home.root, target, n);
        FreeOnDisk(home, Here(), target, Uuids.TemporaryName(Uuids.Text(n)));
      } else {
        TemporaryIsFree(map[], home.root, target);
        n :| FreeTemporary(map[], home.root, target, n);
      }
      return Uuids.TemporaryName(Uuids.Text(n)), Uuids.Text(n);
    }

    /** The file is replaced; the tree and the directory on disk are the same workspace, so it is in both, and so is
        a temporary that is left. A path that is too long is refused by the file system. */
    method PerformWrite(path: string, content: string, reliable: bool) returns (result: Result<(), string>)
      requires ValidSite(home, Here())
      modifies files, workspace
      ensures ValidSite(home, Here())
      ensures if result.Ok? then Written(home, old(Here()), path, content, Here())
              else NotWritten(home, old(Here()), path, content, Here())
      ensures reliable && CanWrite(home, old(Here()), path) ==>
                (result.Ok? <==> WriteFile.Accepted(old(workspace.folders), home.components(path), home.bytes(content)))
    {
      var target, bytes := home.components(path), home.bytes(content);
      if !WriteFile.HasFileName(target) || !PathFits(home, path) {
        return Err("");
      }
      ghost var before := Here();
      var folders := workspace.folders;
      var temporary;
      ghost var uuid;
      temporary, uuid := DrawTemporary(target, reliable);
      var removable: bool := *;
      var written, _ := workspace.WriteTextFile(target, bytes, temporary, home.defaultMode, reliable, removable);
      if written.Ok? {
        files.items := files.items[Mirror.Place(home.root, target) := FileTree.File(bytes)];
        WrittenIsValid(home, before, path, content, Here());
        return Ok(());
      }
      if workspace.folders != folders {
        files.items := Mirror.LeftIn(files.items, Mirror.TemporaryPlace(home.root, target, temporary),
                                     workspace.folders[WriteFile.ParentOf(target)]);
        assert LeftBehind(home, before, path, content, Here(), uuid);
        LeftIsValid(home, before, path, content, Here(), uuid);
      }
      return Err("");
    }

    /** The snapshot that is taken shows in the tree and, if writes can go to the directory it is in, there too. */
    method TakeSnapshot(snapshot: FileTree.Path, fingerprint: string, reliable: bool) returns (ok: bool)
      requires ValidSite(home, Here()) && snapshot != []
      modifies files, workspace
      ensures ValidSite(home, Here())
      ensures ok ==> GatePassed(home, fingerprint, Copy(files.items, snapshot))
      ensures Snapshot.Verdict(old(files.items), home.root, snapshot, fingerprint, home.hash, reliable, ok)
    {
      ghost var before := Here();
      var there := snapshot in files.items;
      var prepared := files.PrepareRun(home.root, snapshot, fingerprint, home.hash, reliable);
      ok := prepared.Ok?;
      var inode: Disk.Inode := 0;
      if Mirror.InFolders(workspace.folders, home.root, snapshot) {
        var inodes := workspace.folders[snapshot[|home.root|..|snapshot| - 1]].inodes.Keys;
        Disk.FreshExists(inodes);
        inode :| inode !in inodes;
      }
      SnapshotShown(home, before, files.items, snapshot, inode);
      if !there && snapshot in files.items {
        workspace.folders := Mirror.Placed(workspace.folders, home.root, snapshot, WriteFile.Folder, inode);
      }
    }

    /** Where the next snapshot goes: if it can be helped, where nothing is. */
    method DrawSnapshot(reliable: bool) returns (snapshot: FileTree.Path)
      ensures exists uuid: Uuids.Drawn :: snapshot == SnapshotAt(scratch, uuid)
      ensures reliable && Uncrowded(Here()) ==> snapshot !in files.items
    {
      var n: nat := 0;
      if reliable && |files.items| < Uuids.UUIDS {
        FreeSnapshot(files.items, scratch);
        n :| Uuids.Number(n) && SnapshotAt(scratch, Uuids.Text(n)) !in files.items;
      } else {
        n :| Uuids.Number(n);
      }
      return SnapshotAt(scratch, Uuids.Text(n));
    }

    /** A snapshot is taken and compared; if it is the approved one `cargo` is started in it. What that does
        to the workspace is not known. */
    method PerformCargoTest(fingerprint: string, reliable: bool) returns (ran: CargoRun)
      requires ValidSite(home, Here())
      modifies this`destinations, this`replies, files, workspace
      ensures ValidSite(home, Here())
      ensures ran.Spawned? ==> GatePassed(home, fingerprint, ran.copy)
      ensures replies == old(replies) + if ran.Spawned? then [CargoReply(ran.result)] else []
      ensures reliable && Roomy(home, old(Here()), scratch) ==>
                (ran.Spawned? <==> FingerprintIs(home, old(Here()), fingerprint))
    {
      var snapshot := DrawSnapshot(reliable);
      var prepared := TakeSnapshot(snapshot, fingerprint, reliable);
      if !prepared {
        return NotSpawned("");
      }
      var started: bool, result: Result<CargoTestResult, string> := *, *;
      if !started && !reliable {
        return NotSpawned("");
      }
      replies := replies + [CargoReply(result)];
      ran := Spawned(Copy(files.items, snapshot), result);
      var after: Site := *;
      if ValidSite(home, after) {
        files.items := after.tree;
        workspace.folders := after.folders;
        destinations := after.destinations;
      }
    }

    /** The destination is looked up again before anything is sent. */
    method PerformPost(url: string) returns (status: Result<nat, string>)
      modifies this`replies
      ensures url !in destinations ==> status.Err? && replies == old(replies)
      ensures url in destinations ==> replies == old(replies) + [PostReply(status)]
    {
      if url !in destinations {
        return Err("");
      }
      status := *;
      replies := replies + [PostReply(status)];
    }

    method Perform(claimed: PendingReview, reliable: bool) returns (returned: OperationReturn, ghost world: World)
      requires ValidSite(home, Here()) && Reviewable(claimed)
      requires state.home == home && state.site == Here()
      modifies this`destinations, this`replies, files, workspace
      ensures world.after == Here() && Possible(state.home, state.site, claimed, world)
      ensures old(replies) <= replies && Heard(state.site, claimed.request, world, replies[|old(replies)|..])
      ensures returned == Operate(claimed.request, world)
      ensures reliable ==> Carries(state.home, state.site, scratch, claimed, world)
    {
      var write, ran, http := Err(""), NotSpawned(""), Err("");
      match claimed.request {
        case WriteFile(path, content) => write := PerformWrite(path, content, reliable);
        case RunCargoTest => ran := PerformCargoTest(claimed.workspaceFingerprint.value, reliable);
        case HttpRequest(_, url, _) => http := PerformPost(url);
        case _ =>
      }
      world := World(write, ran, http, Here());
      returned := Operate(claimed.request, World(write, ran, http, Here()));
    }

    method Operated(claimed: PendingReview, reliable: bool) returns (returned: OperationReturn, ghost world: World)
      requires Reached(run, state) && life <= |state.trace| && state.admin == Invoking(claimed)
      requires state.home == home && state.site == Here()
      modifies this`destinations, this`replies, this`run, this`state, files, workspace
      ensures Reached(run, state) && Grew(old(run), run) && Steady(old(state), state)
      ensures state.sights == old(state).sights + [Sight(old(state).site, state.site, Some(world))]
      ensures Outcomes.Returns(claimed.request, world, returned)
      ensures old(replies) <= replies && Heard(old(state).site, claimed.request, world, replies[|old(replies)|..])
      ensures state.store == old(state).store && state.site == Here()
      ensures life <= |state.trace| && Texts(state.trace, life, text) == Texts(old(state).trace, life, text)
      ensures state.admin == AuditingCompletion(claimed, returned)
      ensures state.trace == old(state).trace + [Invoked(claimed, returned)]
      ensures reliable ==> CarriedAt(state, |old(state).trace|, old(state).site, scratch, claimed, returned)
    {
      InvokingReviewable(run, state, claimed);
      returned, world := Perform(claimed, reliable);
      Outcomes.OperateReturns(claimed.request, world);
      InvokeAdvance(claimed, world, returned);
      if reliable {
        CarriedByWorld(home, old(state).site, scratch, claimed, world);
      }
    }

    /** The one outside call an approval makes. */
    method RunOperation(claimed: PendingReview, reliable: bool) returns (returned: OperationReturn, ghost world: World)
      requires Valid() && state.admin == Invoking(claimed)
      modifies this`destinations, this`replies, this`run, this`state, this`threads, files, workspace
      ensures Valid() && Grew(old(run), run)
      ensures old(replies) <= replies && Heard(old(state).site, claimed.request, world, replies[|old(replies)|..])
      ensures state.sights == old(state).sights + [Sight(old(state).site, state.site, Some(world))]
      ensures Outcomes.Returns(claimed.request, world, returned)
      ensures state.admin == AuditingCompletion(claimed, returned)
      ensures state.trace == old(state).trace + [Invoked(claimed, returned)]
      ensures reliable ==> CarriedAt(state, |old(state).trace|, old(state).site, scratch, claimed, returned)
    {
      returned, world := Operated(claimed, reliable);
      DidOther(ADMIN);
    }

    method RunAndRecord(claimed: PendingReview, reliable: bool)
      returns (outcome: ExecutionOutcome, ghost returned: OperationReturn)
      requires Valid() && state.admin == Invoking(claimed)
      modifies this, pendingReviews, auditLog, files, workspace
      ensures Valid() && Grew(old(run), run)
      ensures state.admin == Consuming(claimed, outcome)
      ensures reliable ==>
                && CarriedAt(state, |old(state).trace|, old(state).site, scratch, claimed, returned)
                && outcome == AfterCompletion(returned)
    {
      var result, _ := RunOperation(claimed, reliable);
      returned := result;
      ghost var operated, s := run, state;
      var recorded := RecordAboutClaimed(claimed, Completion, OutcomeOf(result), reliable, false);
      if reliable {
        StillCarried(operated, s, run, state, |old(state).trace|, old(state).site, scratch, claimed, returned);
      }
      outcome :=
        if recorded then AfterCompletion(result) else CompletionAuditLost(OutcomeOf(result), Preserved(result));
    }

    /** Record the start, run the operation, record its end. None when the start could not be recorded. */
    method ExecuteReviewedAction(claimed: PendingReview, reliable: bool, calm: bool)
      returns (outcome: Option<ExecutionOutcome>, ghost a: nat, ghost returned: OperationReturn)
      requires Valid() && state.admin == AuditingPreExecution(claimed)
      modifies this, pendingReviews, auditLog, files, workspace
      ensures Valid() && Grew(old(run), run)
      ensures state.admin == if outcome.Some? then Consuming(claimed, outcome.value) else Restoring(claimed)
      ensures reliable ==> outcome.Some?
      ensures reliable && calm ==>
                && CarriedAt(state, a, old(state).site, scratch, claimed, returned)
                && outcome == Some(AfterCompletion(returned))
    {
      a := 0;
      var recorded := RecordAboutClaimed(claimed, PreExecution, NotExecuted, reliable, calm);
      if !recorded {
        return None, a, Err("");
      }
      a := |state.trace|;
      var concluded;
      concluded, returned := RunAndRecord(claimed, reliable);
      outcome := Some(concluded);
    }

    method FinishApproval(claimed: PendingReview, outcome: ExecutionOutcome, reliable: bool)
      returns (result: Result<ExecutionOutcome, AdminError>)
      requires Valid() && state.admin == Consuming(claimed, outcome)
      modifies this`run, this`state, this`threads, pendingReviews
      ensures Valid() && Grew(old(run), run)
      ensures Replied(state, if result.Ok? then ApprovalAnswer(claimed, result.value) else Err(result.error))
      ensures result.Ok? ==> result.value == outcome
      ensures reliable ==> result.Ok?
    {
      var consumed, _ := ConsumeClaimedRequest(claimed.requestId, reliable);
      return if consumed.Ok? then Ok(outcome) else Err(ConsumeFailedAfterExecution(consumed.error));
    }

    method ExecuteClaimedReviewedAction(claimed: PendingReview, reliable: bool, calm: bool)
      returns (result: Result<ExecutionOutcome, AdminError>, ghost a: nat, ghost returned: OperationReturn)
      requires Valid() && state.admin == AuditingPreExecution(claimed)
      modifies this, pendingReviews, auditLog, files, workspace
      ensures Valid() && Grew(old(run), run)
      ensures Replied(state, if result.Ok? then ApprovalAnswer(claimed, result.value) else Err(result.error))
      ensures reliable ==> result.Ok?
      ensures reliable && calm ==>
                && CarriedAt(state, a, old(state).site, scratch, claimed, returned)
                && result == Ok(AfterCompletion(returned))
    {
      var outcome;
      outcome, a, returned := ExecuteReviewedAction(claimed, reliable, calm);
      if outcome.None? {
        var error, _ := RestoreClaimedRequest(claimed, reliable);
        return Err(error), a, returned;
      }
      ghost var executed, s := run, state;
      result := FinishApproval(claimed, outcome.value, reliable);
      if reliable && calm {
        StillCarried(executed, s, run, state, a, old(state).site, scratch, claimed, returned);
      }
    }

    // ---------------------------------------------------------------- the commands

    method InspectAndRevalidate(id: Uuid, reliable: bool, calm: bool)
      returns (result: Result<PendingReview, AdminError>)
      requires Valid() && state.admin == Inspecting(id)
      modifies this, pendingReviews, auditLog, files, workspace
      ensures Valid() && Grew(old(run), run)
      ensures calm ==> state.site == old(state).site
      ensures if result.Ok? then
                && state.admin == Claiming(result.value) && result.value.requestId == id
                && id in state.store.mem.reviews && state.store.mem.reviews[id] == result.value
              else Replied(state, Err(result.error))
      ensures if id !in old(state).store.mem.reviews then result == Err(NotPending)
              else
                && (result.Ok? ==> result.value == old(state).store.mem.reviews[id])
                && (result.Err? ==> result == Err(RevalidationFailed))
                && (reliable && calm ==>
                      (result.Ok? <==> Unchanged(home, old(state).site, old(state).store.mem.reviews[id])))
    {
      var pending := InspectPendingRequest(id, calm);
      if pending.Err? {
        return pending;
      }
      var valid := RevalidatePendingRequest(pending.value, reliable, calm);
      return if valid.Ok? then pending else Err(valid.error);
    }

    /** Inspect, revalidate and claim, each in a lock section of its own or in none. */
    method ClaimForApproval(id: Uuid, reliable: bool, calm: bool) returns (result: Result<PendingReview, AdminError>)
      requires Valid() && state.admin == Inspecting(id)
      modifies this, pendingReviews, auditLog, files, workspace
      ensures Valid() && Grew(old(run), run)
      ensures calm && result.Ok? ==> state.site == old(state).site
      ensures if result.Ok? then state.admin == AuditingApproval(result.value) else Replied(state, Err(result.error))
      ensures id !in old(state).store.mem.reviews ==> result == Err(NotPending)
      ensures reliable && id in old(state).store.mem.reviews ==>
                && (result == Ok(old(state).store.mem.reviews[id]) || result == Err(RevalidationFailed))
                && (calm ==> (result.Ok? <==> Unchanged(home, old(state).site, old(state).store.mem.reviews[id])))
    {
      var pending := InspectAndRevalidate(id, reliable, calm);
      if pending.Err? {
        return pending;
      }
      ghost var history;
      result, history := ClaimRequest(id, reliable, calm);
    }

    /** The part of an approval behind the claim. */
    method ExecuteApproved(claimed: PendingReview, reliable: bool, calm: bool)
      returns (answer: Answer, ghost a: nat, ghost returned: OperationReturn)
      requires Valid() && state.admin == AuditingApproval(claimed)
      modifies this, pendingReviews, auditLog, files, workspace
      ensures Valid() && Grew(old(run), run) && Replied(state, answer)
      ensures reliable ==> answer.Ok?
      ensures reliable && calm ==>
                && CarriedAt(state, a, old(state).site, scratch, claimed, returned)
                && answer == ApprovalAnswer(claimed, AfterCompletion(returned))
    {
      a, returned := 0, Err("");
      var audited := AuditClaimedApproval(claimed, reliable, calm);
      if audited.Err? {
        return Err(audited.error), a, returned;
      }
      match claimed.request {
        case WriteFile(_, _) =>
        case RunCargoTest =>
          if claimed.workspaceFingerprint.None? {
            assert false;  // the review was held with a fingerprint
          }
        case HttpRequest(_, _, _) =>
        case _ => assert false;  // such a request is never held
      }
      var executed;
      executed, a, returned := ExecuteClaimedReviewedAction(claimed, reliable, calm);
      if executed.Err? {
        return Err(executed.error), a, returned;
      }
      ApprovalAnswered(state, claimed, executed.value);
      answer := ApprovalAnswer(claimed, executed.value);
    }

    method Approve(id: Uuid, reliable: bool, calm: bool) returns (answer: Answer)
      requires Valid() && state.admin == Inspecting(id)
      modifies this, pendingReviews, auditLog, files, workspace
      ensures Valid() && Grew(old(run), run) && Replied(state, answer)
      ensures id !in old(state).store.mem.reviews ==> answer == Err(NotPending)
      ensures reliable && id in old(state).store.mem.reviews ==> answer.Ok? || answer == Err(RevalidationFailed)
      ensures reliable && calm ==> ServedCalmly(old(state), state, scratch, AdminCommand.Approve(id), answer)
    {
      var claimed := ClaimForApproval(id, reliable, calm);
      if claimed.Err? {
        return Err(claimed.error);
      }
      ghost var a, returned;
      answer, a, returned := ExecuteApproved(claimed.value, reliable, calm);
      if reliable && calm && id in old(state).store.mem.reviews {
        CarriedIsDone(state, a, old(state).site, scratch, claimed.value, returned);
      }
    }

    method Reject(id: Uuid, reliable: bool) returns (answer: Answer)
      requires Valid() && state.admin == Rejecting(id)
      modifies this, pendingReviews, auditLog, files, workspace
      ensures Valid() && Grew(old(run), run) && Replied(state, answer)
      ensures id !in old(state).store.mem.reviews ==> answer.Err?
      ensures reliable && id in old(state).store.mem.reviews ==>
                answer == Ok(AdminOutcome.Rejected(old(state).store.mem.reviews[id]))
    {
      var pending, _ := ClaimRequest(id, reliable, false);
      if pending.Err? {
        return Err(pending.error);
      }
      var audited := AuditClaimedRejection(pending.value, reliable);
      return if audited.Ok? then Ok(AdminOutcome.Rejected(pending.value)) else Err(audited.error);
    }

    method FinishAcknowledgement(claimed: PendingReview, reliable: bool) returns (answer: Answer)
      requires Valid() && state.admin == ConsumingAcknowledged(claimed)
      modifies this`run, this`state, this`threads, pendingReviews
      ensures Valid() && Grew(old(run), run) && Replied(state, answer)
      ensures var id, held := claimed.requestId, old(state).store.mem.claimed;
              reliable ==> id in held && answer == Ok(ClaimedAcknowledged(held[id]))
    {
      var consumed, _ := ConsumeClaimedRequest(claimed.requestId, reliable);
      match consumed {
        case Ok(acknowledged) => return Ok(ClaimedAcknowledged(acknowledged));
        case Err(DurabilityUncertain) => return Ok(AcknowledgementUncertain(claimed.requestId));
        case Err(error) => return Err(NotAcknowledged(error));
      }
    }

    /** The part of an acknowledgement behind the reading. */
    method Reconcile(claimed: PendingReview, reliable: bool) returns (answer: Answer)
      requires Valid() && state.admin == AuditingReconciliation(claimed)
      modifies this, pendingReviews, auditLog, files, workspace
      ensures Valid() && Grew(old(run), run) && Replied(state, answer)
      ensures reliable ==> answer == Ok(ClaimedAcknowledged(claimed))
    {
      ReconcilingHeld(run, state, claimed);
      var recorded := WriteReconciliationAudit(claimed, reliable);
      if !recorded {
        return Err(AuditFailed);
      }
      answer := FinishAcknowledgement(claimed, reliable);
    }

    method AcknowledgeClaimedRequest(id: Uuid, reliable: bool) returns (answer: Answer)
      requires Valid() && state.admin == ReadingClaimed(id)
      modifies this, pendingReviews, auditLog, files, workspace
      ensures Valid() && Grew(old(run), run) && Replied(state, answer)
      ensures id !in old(state).store.mem.claimed ==> answer == Err(NotClaimed)
      ensures reliable && id in old(state).store.mem.claimed ==>
                answer == Ok(ClaimedAcknowledged(old(state).store.mem.claimed[id]))
    {
      var claimed := ReadClaimed(id);
      if claimed.Err? {
        return Err(claimed.error);
      }
      answer := Reconcile(claimed.value, reliable);
    }

    ghost method BeginCommand(command: AdminCommand)
      requires Valid() && state.admin.Idle?
      modifies this`run, this`state
      ensures Valid() && Grew(old(run), run) && |run| > |old(run)| && state == Begin(old(state), command)
    {
      TextsMore(state.trace, Began(command), life, text);
      OneMore(run, state, AdminBegins(command));
      run, state := run + [Begin(state, command)], Begin(state, command);
    }

    /** One command from beginning to end, others acting in between. The answer is true; and if nothing fails
        and nobody touches the workspace before the operation, an approval is carried out exactly if what was
        recorded is unchanged: an approved write has been written, an approved Cargo test started. */
    method HandleAdminCommand(command: AdminCommand, reliable: bool, calm: bool) returns (answer: Answer)
      requires Valid() && state.admin.Idle?
      modifies this, pendingReviews, auditLog, files, workspace
      ensures Valid() && Grew(old(run), run) && Replied(state, answer)
      ensures |run| > |old(run)|
      ensures reliable ==> Served(old(state).store.mem, command, answer)
      ensures reliable && calm ==> ServedCalmly(old(state), state, scratch, command, answer)
    {
      BeginCommand(command);
      match command {
        case Approve(id) => answer := Approve(id, reliable, calm);
        case Reject(id) => answer := Reject(id, reliable);
        case AcknowledgeClaimed(id) => answer := AcknowledgeClaimedRequest(id, reliable);
      }
    }

    method HandleAfterOthers(command: AdminCommand) returns (answer: Answer)
      requires Valid() && state.admin.Idle?
      modifies this, pendingReviews, auditLog, files, workspace
      ensures Valid() && Grew(old(run), run) && |run| > |old(run)| && Replied(state, answer)
    {
      OthersInBetween(false);
      var reliable: bool, calm: bool := *, *;
      answer := HandleAdminCommand(command, reliable, calm);
    }

    method HandleNext(command: AdminCommand, answers: seq<Answer>, ghost ends: seq<nat>)
      returns (more: seq<Answer>, ghost moreEnds: seq<nat>)
      requires Valid() && state.admin.Idle? && AnsweredInOrder(run, answers, ends)
      modifies this, pendingReviews, auditLog, files, workspace
      ensures Valid() && Grew(old(run), run) && state.admin.Idle?
      ensures |more| == |answers| + 1 && AnsweredInOrder(run, more, moreEnds)
    {
      var answer := HandleAfterOthers(command);
      AnsweredNext(old(run), run, answers, ends, answer);
      more, moreEnds := answers + [answer], ends + [|run| - 1];
    }

    /** The administrator's commands are handled one after another; each answer was true when it was given. */
    method RunAdminListener(commands: seq<AdminCommand>) returns (answers: seq<Answer>, ghost ends: seq<nat>)
      requires Valid() && state.admin.Idle?
      modifies this, pendingReviews, auditLog, files, workspace
      ensures Valid() && Grew(old(run), run) && state.admin.Idle?
      ensures |answers| == |commands| && AnsweredInOrder(run, answers, ends)
    {
      answers, ends := [], [];
      for i := 0 to |commands|
        invariant Valid() && Grew(old(run), run) && state.admin.Idle?
        invariant |answers| == i && AnsweredInOrder(run, answers, ends)
      {
        answers, ends := HandleNext(commands[i], answers, ends);
      }
    }

    // ---------------------------------------------------------------- stopping and starting again

    /** Between two sections the process can stop, like at every moment of a save. */
    lemma CanStop()
      requires Valid()
      ensures StopsAt(run, pendingReviews.disk, pendingReviews.file)
    {
      StopsNow(run, state, pendingReviews.disk, pendingReviews.file);
    }

    /** A new process, after the last one died where the disk was `cut`, or after power was lost there. If the
        file can be opened and read it starts, and it goes on from a run of the old one. */
    static method StartAgain(ghost before: seq<GatewayState>, ghost cut: ReviewStore.StateDisk, drawn: set<Uuid>,
                             disk: ReviewStore.StateDisk, file: Disk.Name, log: AuditLog.AnchoredAuditLog,
                             files: Snapshot.FileSystem, workspace: WriteFile.Workspace, home: Home,
                             scratch: Scratch, destinations: set<string>, config: Policy.Config,
                             text: RecordText, reliable: bool)
      returns (result: Result<Gateway, ReviewStore.StartError>)
      requires StopsAt(before, cut, file) && file.Named?
      requires disk == cut || Disk.AfterPowerLoss(cut, disk)
      requires Knows(before, home, drawn) && AuditLog.Valid(log.file) && Policy.ValidConfig(config)
      requires WritesLines(text)
      requires ValidSite(home, Site(files.items, workspace.folders, destinations))
      ensures reliable ==> result.Ok?
      ensures result.Ok? ==>
                && fresh(result.value) && result.value.Valid() && result.value.state.admin.Idle?
                && Grew(before, result.value.run)
    {
      ghost var more, last, meant := WhatIsMeant(before, cut, disk, file);
      var loaded := ReviewStore.PendingReviewStore.LoadFrom(disk, file, reliable);
      if loaded.Err? {
        return Err(loaded.error);
      }
      var store := loaded.value;
      store.JustLoaded(meant);
      var gateway := new Gateway.Resume(
        more, last, drawn, store, log, files, workspace, home, scratch, destinations, config, text);
      return Ok(gateway);
    }

    // ---------------------------------------------------------------- what holds of the code

    /** What holds of all runs holds of the code between any two of its steps: each operation at most once, and
        none after a rejection. */
    lemma CodeInvokesOnce(id: Uuid)
      requires Valid()
      ensures forall a: nat, b: nat | InvokedAt(state.trace, a, id) && InvokedAt(state.trace, b, id) :: a == b
      ensures EverInvoked(state.trace, id) || EverLogged(state.trace, id, Rejection) ==> NowherePending(state, id)
      ensures EverLogged(state.trace, id, Rejection) ==> !EverInvoked(state.trace, id)
    {
      InvokedOnce(run, state, id);
    }

    /** What an operation came back with is what its completion record and its answer say, at any point of the code. */
    lemma CodeSaysWhatCameBack(b: nat)
      requires Valid() && b < |state.trace|
      ensures |state.sights| == |state.trace| && Outcomes.SaidRight(state.trace, state.sights, b)
    {
      Outcomes.RunSaysWhatCameBack(run, |run| - 1);
    }

    /** Whatever a call runs without review was asked for by that call and is permitted by the configuration's own entry
        for it, at any point of the code; and what calls have recorded is in their language. */
    lemma CodeRunsWhatIsPermitted(a: nat) returns (j: nat, call: AgentLanguage.Call)
      requires Valid() && a < |state.agentTrace| && state.agentTrace[a].AgentInvoked?
      ensures j < |run| && AgentLanguage.BeganAt(run, j, call) && call.id == state.agentTrace[a].id
      ensures call.request == state.agentTrace[a].request
      ensures AgentLanguage.Purposeful(call) && AgentLanguage.Permitted(call)
      ensures AgentLanguage.Says(call, AgentLanguage.EventsOf(state.agentTrace, call.id))
    {
      j, call := AgentLanguage.OnlyPermittedRuns(run, |run| - 1, a);
      AgentLanguage.CallsSayWhatTheyDid(run, j, call, |run| - 1);
    }

    /** Whatever the code has recorded, carried out or answered belongs to the command it was serving. */
    lemma CodeServesOneCommand(b: nat)
      requires Valid() && b < |state.trace|
      ensures Commands.Belongs(Commands.Served(state.trace[..b]), state.trace[b])
      ensures Commands.Serves(state.admin, Commands.Served(state.trace))
    {
      Commands.OneCommandAtATime(run, |run| - 1);
    }

    /** The records about each request are in the language. */
    lemma CodeRecordsInLanguage(id: Uuid)
      requires Valid()
      ensures InLanguage(Records(state.trace, id))
    {
      AuditLanguage(run, |run| - 1, id);
    }

    /** An invocation stands behind its four events and is that of a review some call has built; a run that was
        started was started in a snapshot of what that call has read. */
    lemma CodeInvokesAsReviewed(a: nat, id: Uuid) returns (j: nat)
      requires Valid() && InvokedAt(state.trace, a, id)
      ensures 4 <= a < |state.sights| && state.trace[a - 4..a] == Preamble(state.trace[a].review)
      ensures j < |run| && BuiltAt(run, j, state.trace[a].review)
      ensures state.trace[a].review.request.RunCargoTest? ==>
                forall copy, reading |
                  Binding.StartedIn(state, a, copy) && BuiltFrom(run, j, state.trace[a].review, reading) ::
                  BoundTo(home, reading, copy)
    {
      ghost var last := |run| - 1;
      WriteAheadReviewed(run, last, a, id);
      Binding.RunSights(run, last);
      j := Binding.InvokedWasBuilt(run, last, a, id);
      if state.trace[a].review.request.RunCargoTest? {
        forall copy, reading |
          Binding.StartedIn(state, a, copy) && BuiltFrom(run, j, state.trace[a].review, reading)
          ensures BoundTo(home, reading, copy)
        {
          Binding.StartedAsRecorded(run, last, a, id, copy, j, reading);
        }
      }
    }

    /** A review that is held is in exactly one of the object's maps, and of the file's, until it is settled, and
        the file says what the maps say. */
    lemma CodeLosesNothing(id: Uuid)
      requires Valid() && id in state.held
      ensures || EverLogged(state.trace, id, Rejection)
              || EverLogged(state.trace, id, Reconciliation)
              || EverLogged(state.trace, id, PreExecution)
              || (id in pendingReviews.reviews) != (id in pendingReviews.claimedReviews)
      ensures ReviewStore.Decode(Disk.View(pendingReviews.disk, pendingReviews.file).visible)
              == Ok(pendingReviews.Memory())
    {
      NoSilentLoss(run, |run| - 1, id);
    }

    /** Whatever the threads have done with the locks so far, and however that was interleaved: no thread held
        both, no thread was stuck for good, and whenever nobody was writing the log was one whole section after
        another. */
    lemma CodeInterleaves(steps: seq<LockDiscipline.State>, k: nat)
      requires Valid() && k < |steps| && steps[0] == LockDiscipline.Start(threads.scripts)
      requires forall i | 0 < i < |steps| :: LockDiscipline.Stepped(steps[i - 1], steps[i])
      ensures LockDiscipline.NotBoth(steps[k])
      ensures LockDiscipline.Unfinished(steps[k]) ==> exists t :: LockDiscipline.CanStep(steps[k], t)
      ensures LockDiscipline.AuditLock !in steps[k].owner ==>
                steps[k].log == LockDiscipline.Concat(steps[k].finished)
      ensures LockDiscipline.AuditLock !in steps[k].owner && !threads.torn ==>
                LockDiscipline.Cut(steps[k].log) == LockDiscipline.Lines(steps[k].finished)
    {
      ScriptsStart(threads);
      LockDiscipline.NeverBoth(steps, k);
      if LockDiscipline.Unfinished(steps[k]) {
        var unfinished :| unfinished in steps[k].rest && steps[k].rest[unfinished] != [];
        var t := LockDiscipline.NoDeadlock(steps, k, unfinished);
      }
      if LockDiscipline.AuditLock !in steps[k].owner {
        LockDiscipline.SectionsInOrder(steps, k);
        if !threads.torn {
          LockDiscipline.WholeLinesInOrder(steps, k);
        }
      }
    }
  }
}
