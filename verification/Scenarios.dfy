/** Runs in which the gateway does less than one might expect, step by step. */
module Scenarios {
  import opened Wrappers
  import opened Execution
  import opened Persisted
  import opened StoreOperations
  import opened Workplace
  import opened Room
  import opened Lifecycle
  import opened LifecycleInvariant
  import opened LifecycleSteps
  import opened Guarantees
  import opened Binding
  import opened Finality
  import AgentCalls
  import Disk
  import Policy
  import FileTree
  import Mirror
  import Snapshot
  import Uuids
  import WriteFile

  // ---------------------------------------------------------------- a request is held

  lemma FirstState(home: Home, site: Site, config: Policy.Config) returns (s: State)
    requires Policy.ValidConfig(config) && ValidSite(home, site)
    ensures Reached([s], s)
    ensures s == State(home, site, config, Recover(EMPTY_STORE), Idle, map[], {}, map[], {}, [], [], [])
  {
    s := State(home, site, config, Recover(EMPTY_STORE), Idle, map[], {}, map[], {}, [], [], []);
  }

  lemma BuiltFields(id: Uuid, request: ExecutionRequest, purpose: string, evidence: Evidence, review: PendingReview)
    requires BuildReview(id, request, purpose, evidence) == Some(review)
    ensures review.requestId == id && review.request == request && review.purpose == purpose
  {
  }

  /** A request comes in at the gateway's first start and its review is about to be inserted. */
  lemma FirstRequest(
    home: Home, site: Site, config: Policy.Config, id: Uuid, request: ExecutionRequest, purpose: string,
    evidence: Evidence, review: PendingReview)
    returns (run: seq<State>, s: State)
    requires Policy.ValidConfig(config) && ValidSite(home, site)
    requires Policy.EvaluateRequest(request, true, config).decision.Review?
    requires Captured(home, site, request, evidence, NOTHING_READ)
    requires BuildReview(id, request, purpose, evidence) == Some(review)
    ensures Reached(run, s) && |run| == 2
    ensures s == State(home, site, config, Recover(EMPTY_STORE), Idle, map[id := Holding(review)], {id},
                       map[id := review], {}, [], [], [])
    ensures BuiltAt(run, 0, review) && run[0].site == site && run[0].home == home
  {
    var s0 := FirstState(home, site, config);
    OneMore([s0], s0, AgentBegins(id, request, true, purpose, evidence, NOTHING_READ));
    s := AgentStart(s0, id, request, true, purpose, evidence);
    run := [s0] + [s];
    assert run[0] == s0 && run[1] == s;
    BuiltFields(id, request, purpose, evidence, review);
    assert BuiltFrom(run, 0, review, NOTHING_READ);
  }

  /** The insertion, with any outcome of its save but a rollback. */
  lemma ReviewInserted(run: seq<State>, s: State, id: Uuid, review: PendingReview, save: SaveOutcome)
    returns (more: seq<State>, t: State)
    requires Reached(run, s) && s.agents == map[id := Holding(review)] && s.store == Recover(EMPTY_STORE)
    requires review.requestId == id && Persistable(review) && !save.BeforeCommit?
    ensures more == run + [t] && Reached(more, t) && Grew(run, more)
    ensures t == AgentStep(s, id, Calm(s.site).(save := save))
    ensures t.site == s.site && t.home == s.home && t.admin == s.admin
    ensures t.store.mem == Store(map[id := review], map[]) && t.store.mem in t.store.surviving
    ensures save.Committed? ==> t.agents == map[id := Reporting(review.request, Policy.Review, review.purpose)]
    ensures save.AfterCommit? ==> AgentCalls.FailedIn(t.agentTrace, id, NotInserted(DurabilityUncertain))
  {
    var c := Calm(s.site).(save := save);
    var mem := Store(map[id := review], map[]);
    assert EMPTY_STORE.(reviews := EMPTY_STORE.reviews[id := review]) == mem;
    assert AllPersistable(mem);
    OneMore(run, s, AgentContinues(id, c));
    t := AgentStep(s, id, c);
    more := run + [t];
    if save.AfterCommit? {
      assert t.agentTrace[|t.agentTrace| - 1] == AgentFailed(id, NotInserted(DurabilityUncertain));
    }
  }

  function PostRequest(url: string): ExecutionRequest {
    HttpRequest(Post, url, None)
  }

  function PostReview(id: Uuid, url: string, purpose: string): PendingReview {
    PendingReview(id, PostRequest(url), purpose, None, None)
  }

  lemma PostInserted(
    home: Home, site: Site, config: Policy.Config, id: Uuid, url: string, purpose: string, save: SaveOutcome)
    returns (run: seq<State>, s: State)
    requires Policy.ValidConfig(config) && config.httpPost.Review? && ValidSite(home, site) && !save.BeforeCommit?
    ensures Reached(run, s) && s.admin.Idle? && s.home == home && s.site == site && s.config == config
    ensures s.store.mem == Store(map[id := PostReview(id, url, purpose)], map[])
    ensures save.Committed? ==> s.agents == map[id := Reporting(PostRequest(url), Policy.Review, purpose)]
    ensures save.AfterCommit? ==> AgentCalls.FailedIn(s.agentTrace, id, NotInserted(DurabilityUncertain))
  {
    var review := PostReview(id, url, purpose);
    var start, s1 := FirstRequest(home, site, config, id, PostRequest(url), purpose, Evidence(None, None), review);
    run, s := ReviewInserted(start, s1, id, review, save);
  }

  // ---------------------------------------------------------------- an error to the agent, and the review is held

  lemma PurposeRefused(held: seq<State>, s: State, id: Uuid, request: ExecutionRequest, purpose: string)
    returns (t: State)
    requires Reached(held, s) && s.agents == map[id := Reporting(request, Policy.Review, purpose)]
    requires !ValidPurpose(s.home, purpose)
    ensures Reached(held + [t], t) && t.store == s.store && id !in t.agents
    ensures AgentCalls.FailedIn(t.agentTrace, id, InvalidPurpose)
  {
    var c := Calm(s.site);
    OneMore(held, s, AgentContinues(id, c));
    t := AgentStep(s, id, c);
    assert t.agentTrace[|t.agentTrace| - 1] == AgentFailed(id, InvalidPurpose);
  }

  /** The purpose text is refused when the review is already held. */
  lemma InvalidPurposeHeld(home: Home, site: Site, config: Policy.Config, id: Uuid, url: string, purpose: string)
    returns (run: seq<State>, s: State)
    requires Policy.ValidConfig(config) && config.httpPost.Review? && ValidSite(home, site)
    requires !ValidPurpose(home, purpose)
    ensures Reached(run, s)
    ensures AgentCalls.FailedIn(s.agentTrace, id, InvalidPurpose)
    ensures id in s.store.mem.reviews && id !in s.agents
  {
    var held, s1 := PostInserted(home, site, config, id, url, purpose, Committed);
    s := PurposeRefused(held, s1, id, PostRequest(url), purpose);
    run := held + [s];
  }

  /** The insertion has taken effect but is not known to be durable. */
  lemma UncertainInsertionHeld(home: Home, site: Site, config: Policy.Config, id: Uuid, url: string, purpose: string)
    returns (run: seq<State>, s: State)
    requires Policy.ValidConfig(config) && config.httpPost.Review? && ValidSite(home, site)
    ensures Reached(run, s)
    ensures AgentCalls.FailedIn(s.agentTrace, id, NotInserted(DurabilityUncertain))
    ensures id in s.store.mem.reviews && id !in s.held
  {
    run, s := PostInserted(home, site, config, id, url, purpose, AfterCommit);
    AgentCalls.RunCalls(run, |run| - 1);
    assert AgentCalls.CallInv(s, id);
    assert AgentCalls.ErrorOk(s, id, NotInserted(DurabilityUncertain));
  }

  // ---------------------------------------------------------------- acknowledged, and invoked all the same

  /** A rejection whose claim cannot be confirmed. */
  lemma ClaimedUncertainly(run: seq<State>, s: State, id: Uuid, review: PendingReview)
    returns (more: seq<State>, t: State)
    requires Reached(run, s) && s.admin.Idle? && s.store.mem == Store(map[id := review], map[])
             && review.requestId == id
    ensures Reached(more, t) && Grew(run, more) && t.admin.Idle?
    ensures LastAnswer(t) == Err(ClaimFailed(DurabilityUncertain))
    ensures t.store.mem == Store(map[], map[id := review]) && s.store.mem in t.store.surviving
  {
    var c := Calm(s.site).(save := AfterCommit);
    ReachedInv(run, s);
    OneMore(run, s, AdminBegins(Reject(id)));
    var s1 := Begin(s, Reject(id));
    assert s.store.mem in s.store.surviving && ValidStore(s.store.mem);
    var claimed := Store(map[], map[id := review]);
    assert map[id := review] - {id} == map[];
    assert Persistable(review) by { assert Persistable(s.store.mem.reviews[id]); }
    assert AllPersistable(claimed);
    OneMore(run + [s1], s1, AdminContinues(c));
    t := AdminStep(s1, c);
    more := run + [s1] + [t];
  }

  lemma UncertainlyConsumed(s: State, id: Uuid, review: PendingReview, image: Store)
    requires s.admin == ConsumingAcknowledged(review) && review.requestId == id
    requires s.store.mem == Store(map[], map[id := review]) && image in s.store.surviving
    ensures var t := AdminStep(s, Calm(s.site).(save := AfterCommit));
            && t.admin.Idle? && LastAnswer(t) == Ok(AcknowledgementUncertain(id))
            && t.store.mem == EMPTY_STORE && image in t.store.surviving
  {
    assert Store(map[], map[id := review] - {id}) == EMPTY_STORE;
    assert AllPersistable(EMPTY_STORE);
  }

  lemma RecordedAcknowledgement(run: seq<State>, s: State, id: Uuid, review: PendingReview, image: Store)
    returns (more: seq<State>, t: State)
    requires Reached(run, s) && s.admin == AuditingReconciliation(review) && review.requestId == id
    requires s.store.mem == Store(map[], map[id := review]) && image in s.store.surviving
    ensures Reached(more, t) && Grew(run, more) && t.admin.Idle?
    ensures LastAnswer(t) == Ok(AcknowledgementUncertain(id))
    ensures t.store.mem == EMPTY_STORE && image in t.store.surviving
  {
    var c := Calm(s.site);
    ReachedInv(run, s);
    assert IdInv(s, id) && Reviewable(review);
    var s1 := Goto(Note(s, Logged(id, Reconciliation, Unknown)), ConsumingAcknowledged(review));
    assert AdminStep(s, c) == s1;
    OneMore(run, s, AdminContinues(c));
    UncertainlyConsumed(s1, id, review, image);
    OneMore(run + [s1], s1, AdminContinues(c.(save := AfterCommit)));
    t := AdminStep(s1, c.(save := AfterCommit));
    more := run + [s1] + [t];
  }

  /** Its acknowledgement, recorded, whose save cannot be confirmed either. */
  lemma AcknowledgedUncertainly(run: seq<State>, s: State, id: Uuid, review: PendingReview, image: Store)
    returns (more: seq<State>, t: State)
    requires Reached(run, s) && s.admin.Idle? && s.store.mem == Store(map[], map[id := review])
    requires image in s.store.surviving
    ensures Reached(more, t) && Grew(run, more) && t.admin.Idle?
    ensures LastAnswer(t) == Ok(AcknowledgementUncertain(id))
    ensures t.store.mem == EMPTY_STORE && image in t.store.surviving
  {
    var c := Calm(s.site);
    ReachedInv(run, s);
    RecordedFacts(s, id);
    OneMore(run, s, AdminBegins(AcknowledgeClaimed(id)));
    var s1 := Begin(s, AcknowledgeClaimed(id));
    var run1 := run + [s1];
    var s2 := Goto(s1, AuditingReconciliation(review));
    assert AdminStep(s1, c) == s2;
    OneMore(run1, s1, AdminContinues(c));
    more, t := RecordedAcknowledgement(run1 + [s2], s2, id, review, image);
  }

  /** A request is acknowledged, power is lost, and it is approved and invoked: its claim and its consumption
      were both not known to be durable. */
  lemma AcknowledgedThenInvoked(home: Home, site: Site, config: Policy.Config, id: Uuid, url: string, purpose: string)
    returns (run: seq<State>, more: seq<State>)
    requires Policy.ValidConfig(config) && config.httpPost.Review? && ValidSite(home, site)
    ensures IsRun(run) && LastAnswer(run[|run| - 1]) == Ok(AcknowledgementUncertain(id))
    ensures Continuation(run, more) && InvokedLater(run[|run| - 1], more[|more| - 1], id)
  {
    var review := PostReview(id, url, purpose);
    var run1, s1 := PostInserted(home, site, config, id, url, purpose, Committed);
    var run2, s2 := ClaimedUncertainly(run1, s1, id, review);
    var s3: State;
    run, s3 := AcknowledgedUncertainly(run2, s2, id, review, s1.store.mem);
    PendingThenInvoked(run, id, s1.store.mem);
    more :| Continuation(run, more) && InvokedLater(run[|run| - 1], more[|more| - 1], id);
  }

  // ---------------------------------------------------------------- a write over what was not reviewed

  const TARGET_NAME: FileTree.FileName := [97]
  const TARGET := Disk.Named(TARGET_NAME)
  const TARGET_PATH: WriteFile.RequestedPath := [WriteFile.Normal(FileTree.SRC), WriteFile.Normal(TARGET_NAME)]

  // A directory with one file in it.
  function OneFile(contents: WriteFile.Bytes, mode: nat): WriteFile.Directory {
    var visible := map[TARGET := 0];
    Disk.Disk(map[0 := Disk.File(Disk.Whole(WriteFile.Text(contents)), mode, true)], visible, {visible})
  }

  // The same directory after a write that has failed and left its temporary.
  function Littered(contents: WriteFile.Bytes, mode: nat, temporary: FileTree.FileName): WriteFile.Directory {
    Disk.Create(OneFile(contents, mode), Disk.Named(temporary), 1, mode)
  }

  // The same directory after a write.
  function Rewritten(contents: WriteFile.Bytes, content: WriteFile.Bytes, mode: nat): WriteFile.Directory {
    var visible := map[TARGET := 1];
    Disk.Disk(
      map[0 := Disk.File(Disk.Whole(WriteFile.Text(contents)), mode, true),
          1 := Disk.File(Disk.Whole(WriteFile.Text(content)), mode, true)],
      visible, {map[TARGET := 0], visible})
  }

  // The way to a directory, and nothing else.
  function WayTo(dir: FileTree.Path): FileTree.Tree {
    if dir == [] then map[[] := FileTree.Directory]
    else WayTo(dir[..|dir| - 1])[dir := FileTree.Directory]
  }

  lemma {:induction false} OnTheWayTo(dir: FileTree.Path, p: FileTree.Path)
    ensures p in WayTo(dir) <==> |p| <= |dir| && p == dir[..|p|]
    ensures p in WayTo(dir) ==> WayTo(dir)[p] == FileTree.Directory
  {
    if dir != [] {
      OnTheWayTo(dir[..|dir| - 1], p);
      assert |p| < |dir| ==> dir[..|dir| - 1][..|p|] == dir[..|p|];
      assert dir[..|dir|] == dir;
    }
  }

  // The target is in a source directory.
  const PARENT: WriteFile.Parent := [FileTree.SRC]

  lemma TargetPath()
    ensures WriteFile.HasFileName(TARGET_PATH) && WriteFile.ParentOf(TARGET_PATH) == PARENT
    ensures WriteFile.TargetOf(TARGET_PATH) == TARGET && |TARGET_PATH| == 2 && TARGET_PATH[1].name == TARGET_NAME
  {
    var first: WriteFile.RequestedPath := [WriteFile.Normal(FileTree.SRC)];
    assert TARGET_PATH[..1] == first && first[1..] == [];
    assert WriteFile.Names(first) == [FileTree.SRC] + WriteFile.Names(first[1..]);
  }

  function Sources(home: Home): FileTree.Path {
    home.root + PARENT
  }

  /** A workspace with nothing in it but the target and a temporary that may have been left. */
  function With(home: Home, contents: FileTree.Bytes, directory: WriteFile.Directory): Site {
    Site(WayTo(Sources(home))[Sources(home) + [TARGET_NAME] := FileTree.File(contents)], map[PARENT := directory], {})
  }

  predicate RootFits(home: Home) {
    FileTree.PathLength(home.root) + 128 < FileTree.WORD
  }

  lemma SourcesFit(home: Home, name: FileTree.FileName)
    requires RootFits(home) && |name| < 100
    ensures FileTree.PathLength(home.root + [name]) < FileTree.WORD
    ensures FileTree.PathLength(Sources(home)) < FileTree.WORD
    ensures FileTree.PathLength(Sources(home) + [name]) < FileTree.WORD
  {
    FileTree.PathLengthSplit(home.root, [name]);
    FileTree.PathLengthSplit(home.root, PARENT);
    FileTree.PathLengthSplit(Sources(home), [name]);
    assert FileTree.PathLength(PARENT) == 4;
  }

  lemma WayIsWellFormed(home: Home)
    requires RootFits(home)
    ensures FileTree.WellFormed(WayTo(Sources(home)))
    ensures FileTree.IsDirectory(WayTo(Sources(home)), Sources(home))
    ensures FileTree.IsDirectory(WayTo(Sources(home)), home.root)
  {
    var dir, tree := Sources(home), WayTo(Sources(home));
    SourcesFit(home, TARGET_NAME);
    assert dir == dir[..|dir|] && home.root == dir[..|home.root|];
    OnTheWayTo(dir, dir);
    OnTheWayTo(dir, home.root);
    forall p | p in tree ensures FileTree.InDirectory(tree, p) && FileTree.PathLength(p) < FileTree.WORD {
      OnTheWayTo(dir, p);
      assert dir == p + dir[|p|..];
      FileTree.PathLengthSplit(p, dir[|p|..]);
      if p != [] {
        OnTheWayTo(dir, p[..|p| - 1]);
      }
    }
  }

  function TargetItem(name: FileTree.FileName, contents: FileTree.Bytes): Option<FileTree.Item> {
    if name == TARGET_NAME then Some(FileTree.File(contents)) else None
  }

  /** The directory has the target in it and nothing else. */
  ghost predicate OnlyTarget(directory: WriteFile.Directory, contents: FileTree.Bytes) {
    && Mirror.OnlyNamed(directory)
    && forall name: FileTree.FileName :: Mirror.Has(directory, name, TargetItem(name, contents))
  }

  lemma OneFileShown(home: Home, contents: FileTree.Bytes, directory: WriteFile.Directory)
    requires OnlyTarget(directory, contents)
    ensures Mirror.Shows(With(home, contents, directory).tree, Sources(home), directory)
  {
    var tree := With(home, contents, directory).tree;
    forall name: FileTree.FileName
      ensures Mirror.Has(directory, name, Mirror.ItemAt(tree, Sources(home) + [name]))
    {
      Mirror.SameChild(Sources(home), name, TARGET_NAME);
      OnTheWayTo(Sources(home), Sources(home) + [name]);
      assert Mirror.ItemAt(tree, Sources(home) + [name]) == TargetItem(name, contents);
    }
    Mirror.ShowsIfNames(tree, Sources(home), directory);
  }

  lemma OneFileTree(home: Home, contents: FileTree.Bytes)
    requires RootFits(home)
    ensures var tree := WayTo(Sources(home))[Sources(home) + [TARGET_NAME] := FileTree.File(contents)];
            && FileTree.WellFormed(tree) && FileTree.IsDirectory(tree, home.root)
            && FileTree.IsDirectory(tree, Sources(home))
  {
    WayIsWellFormed(home);
    SourcesFit(home, TARGET_NAME);
    var p := Sources(home) + [TARGET_NAME];
    assert p[..|p| - 1] == Sources(home);
    OnTheWayTo(Sources(home), p);
    Snapshot.AddItem(WayTo(Sources(home)), p, FileTree.File(contents));
  }

  lemma OneFileValid(home: Home, contents: FileTree.Bytes, directory: WriteFile.Directory)
    requires RootFits(home) && WriteFile.Linked(directory)
    requires OnlyTarget(directory, contents)
    ensures ValidSite(home, With(home, contents, directory))
  {
    OneFileTree(home, contents);
    SourcesFit(home, FileTree.CARGO_TOML);
    OneFileShown(home, contents, directory);
  }

  lemma OneFileItems(contents: FileTree.Bytes, content: FileTree.Bytes, mode: nat)
    ensures OnlyTarget(OneFile(contents, mode), contents)
    ensures OnlyTarget(Rewritten(contents, content, mode), content)
  {
  }

  lemma OneFileSites(home: Home, contents: FileTree.Bytes, content: FileTree.Bytes, mode: nat)
    requires RootFits(home)
    ensures ValidSite(home, With(home, contents, OneFile(contents, mode)))
    ensures ValidSite(home, With(home, content, Rewritten(contents, content, mode)))
  {
    OneFileItems(contents, content, mode);
    OneFileValid(home, contents, OneFile(contents, mode));
    OneFileValid(home, content, Rewritten(contents, content, mode));
  }

  lemma OneFileWritten(contents: FileTree.Bytes, content: FileTree.Bytes, mode: nat, path: WriteFile.RequestedPath,
                       defaultMode: nat)
    requires path == TARGET_PATH && |content| <= WriteFile.MAX_WRITE_BYTES
    ensures var now: WriteFile.Folders := map[PARENT := OneFile(contents, mode)];
            var after: WriteFile.Folders := map[PARENT := Rewritten(contents, content, mode)];
            && WriteFile.Accepted(now, path, content)
            && WriteFile.ContentsAt(now, path) == Some(contents)
            && WriteFile.Wrote(now, after, path, content, defaultMode)
  {
    TargetPath();
  }

  lemma OneFileFacts(home: Home, path: string, contents: FileTree.Bytes, content: FileTree.Bytes, mode: nat)
    requires RootFits(home) && home.components(path) == TARGET_PATH
    requires |content| <= WriteFile.MAX_WRITE_BYTES
    ensures var now, after := With(home, contents, OneFile(contents, mode)),
                              With(home, content, Rewritten(contents, content, mode));
            && ValidSite(home, now) && ValidSite(home, after)
            && WriteFile.Accepted(now.folders, home.components(path), content)
            && WriteFile.ContentsAt(now.folders, home.components(path)) == Some(contents)
            && WriteFile.Wrote(now.folders, after.folders, home.components(path), content, home.defaultMode)
  {
    OneFileSites(home, contents, content, mode);
    OneFileWritten(contents, content, mode, home.components(path), home.defaultMode);
  }

  lemma TargetCaptured(home: Home, site: Site, path: string, content: string, reviewed: FileTree.Bytes)
    requires WriteFile.WritablePath(site.folders, home.components(path))
    requires WriteFile.ContentsAt(site.folders, home.components(path)) == Some(reviewed)
    ensures TargetIs(home, site, path, Existing(home.hash(reviewed)))
    ensures Captured(home, site, WriteFile(path, content), Evidence(None, Some(Existing(home.hash(reviewed)))),
            NOTHING_READ)
  {
  }

  lemma StillBuilt(run: seq<State>, more: seq<State>, review: PendingReview)
    requires |run| >= 2 && Grew(run, more) && BuiltAt(run, 0, review)
    ensures BuiltAt(more, 0, review) && more[0] == run[0]
  {
    assert more[0] == run[0] && more[1] == run[1];
    var reading :| BuiltFrom(run, 0, review, reading);
    assert BuiltFrom(more, 0, review, reading);
  }

  lemma WriteIsHeld(config: Policy.Config, review: PendingReview, evidence: Evidence)
    requires config.writeFile.Review? && review.request.WriteFile?
    requires evidence.fingerprint.None? && evidence.target.Some?
    requires review.workspaceFingerprint.None? && review.writeTargetState == evidence.target
    ensures Policy.EvaluateRequest(review.request, true, config).decision.Review? && Persistable(review)
    ensures BuildReview(review.requestId, review.request, review.purpose, evidence) == Some(review)
  {
  }

  /** A request is made and held in this workspace. */
  lemma FirstHeld(
    home: Home, site: Site, config: Policy.Config, review: PendingReview, evidence: Evidence)
    returns (run: seq<State>, s: State)
    requires Policy.ValidConfig(config) && ValidSite(home, site)
    requires Policy.EvaluateRequest(review.request, true, config).decision.Review? && Persistable(review)
    requires Captured(home, site, review.request, evidence, NOTHING_READ)
    requires BuildReview(review.requestId, review.request, review.purpose, evidence) == Some(review)
    ensures Reached(run, s) && |run| == 3 && BuiltAt(run, 0, review) && s.admin.Idle?
    ensures run[0].site == s.site == site && s.home == home
    ensures s.store.mem == Store(map[review.requestId := review], map[])
  {
    var run1, s1 :=
      FirstRequest(home, site, config, review.requestId, review.request, review.purpose, evidence, review);
    run, s := ReviewInserted(run1, s1, review.requestId, review, Committed);
    StillBuilt(run1, run, review);
  }

  lemma TargetInOneFile(home: Home, path: string, content: string, reviewed: FileTree.Bytes)
    requires RootFits(home) && home.components(path) == TARGET_PATH
    requires |home.bytes(content)| <= WriteFile.MAX_WRITE_BYTES
    ensures var first := With(home, reviewed, OneFile(reviewed, 0));
            && ValidSite(home, first) && TargetIs(home, first, path, Existing(home.hash(reviewed)))
            && Captured(home, first, WriteFile(path, content), Evidence(None, Some(Existing(home.hash(reviewed)))),
                        NOTHING_READ)
  {
    OneFileFacts(home, path, reviewed, home.bytes(content), 0);
    TargetCaptured(home, With(home, reviewed, OneFile(reviewed, 0)), path, content, reviewed);
  }

  /** And approved up to its operation, while the target holds `reviewed`. */
  lemma WriteApproved(
    home: Home, config: Policy.Config, id: Uuid, path: string, content: string, purpose: string,
    reviewed: FileTree.Bytes)
    returns (run: seq<State>, s: State, review: PendingReview)
    requires Policy.ValidConfig(config) && config.writeFile.Review? && RootFits(home)
    requires home.components(path) == TARGET_PATH
    requires |home.bytes(content)| <= WriteFile.MAX_WRITE_BYTES
    ensures Reached(run, s) && s.admin == Invoking(review) && s.home == home && |run| >= 2
    ensures review.requestId == id && review.request == WriteFile(path, content)
    ensures BuiltAt(run, 0, review) && TargetReadable(home, run[0].site, path)
    ensures TargetContents(home, run[0].site, path) == Some(reviewed)
    ensures s.site == With(home, reviewed, OneFile(reviewed, 0)) && ValidSite(home, s.site)
  {
    OneFileFacts(home, path, reviewed, home.bytes(content), 0);
    var first, state := With(home, reviewed, OneFile(reviewed, 0)), Existing(home.hash(reviewed));
    TargetInOneFile(home, path, content, reviewed);
    review := PendingReview(id, WriteFile(path, content), purpose, None, Some(state));
    WriteIsHeld(config, review, Evidence(None, Some(state)));
    var held, s1 := FirstHeld(home, first, config, review, Evidence(None, Some(state)));
    run, s := ApprovalReachesOperation(held, s1, id, NOTHING_READ);
    StillBuilt(held, run, review);
  }

  /** The write is seen in the tree as well. */
  lemma OneFileReplaced(home: Home, path: string, contents: FileTree.Bytes, bytes: FileTree.Bytes)
    requires home.components(path) == TARGET_PATH
    ensures var place := Mirror.Place(home.root, home.components(path));
            var now, after := With(home, contents, OneFile(contents, 0)),
                              With(home, bytes, Rewritten(contents, bytes, 0));
            after == now.(folders := after.folders, tree := now.tree[place := FileTree.File(bytes)])
  {
    var target := home.components(path);
    TargetPath();
    assert Mirror.Place(home.root, target) == Sources(home) + [TARGET_NAME];
  }

  /** A workspace in which the target has these contents, and the one a write leaves. */
  lemma ChangedTarget(home: Home, path: string, changed: FileTree.Bytes, content: string)
    returns (later: Site, after: Site)
    requires RootFits(home) && home.components(path) == TARGET_PATH
    requires |home.bytes(content)| <= WriteFile.MAX_WRITE_BYTES
    ensures ValidSite(home, later) && ValidSite(home, after) && Written(home, later, path, content, after)
    ensures TargetReadable(home, later, path) && TargetContents(home, later, path) == Some(changed)
  {
    var bytes := home.bytes(content);
    later, after := With(home, changed, OneFile(changed, 0)), With(home, bytes, Rewritten(changed, bytes, 0));
    OneFileFacts(home, path, changed, bytes, 0);
    OneFileReplaced(home, path, changed, bytes);
  }

  lemma DifferentTargets(home: Home, a: Site, b: Site, path: string)
    requires TargetReadable(home, a, path) && TargetReadable(home, b, path)
    requires TargetContents(home, a, path).Some? && TargetContents(home, b, path).Some?
    requires home.hash(TargetContents(home, a, path).value) != home.hash(TargetContents(home, b, path).value)
    ensures !SameTargetContents(home, a, b, path)
  {
  }

  lemma SightForEach(run: seq<State>, s: State)
    requires Reached(run, s)
    ensures |s.sights| == |s.trace|
  {
    RunSights(run, |run| - 1);
  }

  lemma WrittenStep(s: State, review: PendingReview, after: Site, path: string, content: string) returns (t: State)
    requires s.admin == Invoking(review) && review.request == WriteFile(path, content) && ValidSite(s.home, after)
    requires Written(s.home, s.site, path, content, after)
    ensures var c := Calm(s.site).(world := World(Ok(()), NotSpawned(""), Err(""), after));
            t == AdminStep(s, c) && Allowed(s, c)
    ensures t.trace == s.trace + [Invoked(review, Ok(Succeeded(None)))]
    ensures t.sights == s.sights + [Seen(s.site, World(Ok(()), NotSpawned(""), Err(""), after))]
  {
    t := AdminStep(s, Calm(s.site).(world := World(Ok(()), NotSpawned(""), Err(""), after)));
  }

  lemma ChangedThenWritten(
    run: seq<State>, s: State, review: PendingReview, later: Site, after: Site, path: string, content: string)
    returns (more: seq<State>, t: State)
    requires Reached(run, s) && s.admin == Invoking(review) && review.request == WriteFile(path, content)
    requires ValidSite(s.home, later) && ValidSite(s.home, after)
    requires Written(s.home, later, path, content, after)
    ensures Reached(more, t) && Grew(run, more)
    ensures t.trace == s.trace + [Invoked(review, Ok(Succeeded(None)))]
    ensures t.sights == s.sights + [Seen(later, World(Ok(()), NotSpawned(""), Err(""), after))]
  {
    OneMore(run, s, OthersMove(later));
    var s1 := s.(site := later);
    t := WrittenStep(s1, review, after, path, content);
    var c := Calm(later).(world := World(Ok(()), NotSpawned(""), Err(""), after));
    OneMore(run + [s1], s1, AdminContinues(c));
    more := run + [s1] + [t];
  }

  /** The target is changed between the comparison and the rename, to something with another hash. The write
      returns Ok and replaces what nobody has reviewed. */
  lemma UnreviewedOverwritten(
    home: Home, config: Policy.Config, id: Uuid, path: string, content: string, purpose: string,
    reviewed: FileTree.Bytes, changed: FileTree.Bytes)
    returns (run: seq<State>, s: State, a: nat)
    requires Policy.ValidConfig(config) && config.writeFile.Review? && RootFits(home)
    requires home.components(path) == TARGET_PATH
    requires |home.bytes(content)| <= WriteFile.MAX_WRITE_BYTES
    requires home.hash(reviewed) != home.hash(changed)
    ensures Reached(run, s) && InvokedAt(s.trace, a, id) && s.trace[a].returned.Ok? && a < |s.sights|
    ensures BuiltAt(run, 0, s.trace[a].review) && TargetReadable(home, run[0].site, path)
    ensures TargetContents(home, run[0].site, path) == Some(reviewed)
    ensures TargetReadable(home, s.sights[a].before, path)
    ensures TargetContents(home, s.sights[a].before, path) == Some(changed)
    ensures !SameTargetContents(home, run[0].site, s.sights[a].before, path)
  {
    var approved, s1, review := WriteApproved(home, config, id, path, content, purpose, reviewed);
    var later, after := ChangedTarget(home, path, changed, content);
    run, s := ChangedThenWritten(approved, s1, review, later, after, path, content);
    a := |s1.trace|;
    SightForEach(approved, s1);
    StillBuilt(approved, run, review);
    DifferentTargets(home, run[0].site, later, path);
  }

  // ---------------------------------------------------------------- a temporary that is left

  /** The workspace after the temporary has been left. */
  function Left(home: Home, contents: FileTree.Bytes, temporary: FileTree.FileName): Site {
    var before := With(home, contents, OneFile(contents, 0));
    var d := Littered(contents, 0, temporary);
    before.(folders := map[PARENT := d], tree := Mirror.LeftIn(before.tree, Sources(home) + [temporary], d))
  }

  lemma LitteredIsKept(contents: FileTree.Bytes, content: FileTree.Bytes, temporary: FileTree.FileName)
    requires temporary != TARGET_NAME
    ensures var before, after := OneFile(contents, 0), Littered(contents, 0, temporary);
            && WriteFile.Linked(after) && after != before
            && WriteFile.Kept(before, after, Disk.Named(temporary), content)
  {
    assert Disk.Named(temporary) in Littered(contents, 0, temporary).visible;
    assert Disk.Named(temporary) !in OneFile(contents, 0).visible;
  }

  lemma LitteredFolders(contents: FileTree.Bytes, content: FileTree.Bytes, temporary: FileTree.FileName)
    requires temporary != TARGET_NAME && |content| <= WriteFile.MAX_WRITE_BYTES
    ensures var before: WriteFile.Folders := map[PARENT := OneFile(contents, 0)];
            var after: WriteFile.Folders := map[PARENT := Littered(contents, 0, temporary)];
            && WriteFile.Untouched(before, after, TARGET_PATH, temporary, content)
            && after != before && WriteFile.AllLinked(after)
  {
    var before: WriteFile.Folders := map[PARENT := OneFile(contents, 0)];
    var after: WriteFile.Folders := map[PARENT := Littered(contents, 0, temporary)];
    TargetPath();
    OneFileWritten(contents, content, 0, TARGET_PATH, 0);
    LitteredIsKept(contents, content, temporary);
    assert after == before[PARENT := after[PARENT]] && after[PARENT] != before[PARENT];
  }

  lemma LeftIsBehind(home: Home, path: string, contents: FileTree.Bytes, content: string, uuid: Uuids.Drawn)
    requires home.components(path) == TARGET_PATH && |home.bytes(content)| <= WriteFile.MAX_WRITE_BYTES
    ensures var before, after := With(home, contents, OneFile(contents, 0)),
                                 Left(home, contents, Uuids.TemporaryName(uuid));
            && LeftBehind(home, before, path, content, after, uuid)
            && after.folders != before.folders && WriteFile.AllLinked(after.folders)
    ensures CoveredTemporary(home, path, uuid) == PARENT + [Uuids.TemporaryName(uuid)]
  {
    var name := Uuids.TemporaryName(uuid);
    LitteredFolders(contents, home.bytes(content), name);
    TargetPath();
    assert Mirror.TemporaryPlace(home.root, TARGET_PATH, name) == Sources(home) + [name];
  }

  lemma LeftFits(home: Home, path: string)
    requires RootFits(home) && home.components(path) == TARGET_PATH
    ensures PathFits(home, path)
  {
    var target := home.components(path);
    TargetPath();
    assert Mirror.Place(home.root, target) == Sources(home) + [TARGET_NAME];
    SourcesFit(home, TARGET_NAME);
    FileTree.PathLengthSplit(home.root, PARENT);
    assert FileTree.PathLength(PARENT) == 4;
  }

  lemma LeftIsCovered(home: Home, contents: FileTree.Bytes, uuid: Uuids.Drawn)
    ensures var rel := PARENT + [Uuids.TemporaryName(uuid)];
            && FileAt(home, With(home, contents, OneFile(contents, 0)), rel) == None
            && FileAt(home, Left(home, contents, Uuids.TemporaryName(uuid)), rel) == Some([])
  {
    var name := Uuids.TemporaryName(uuid);
    var rel, p := PARENT + [name], Sources(home) + [name];
    assert home.root + rel == p && FileTree.CoveredName(rel);
    Mirror.SameChild(Sources(home), name, TARGET_NAME);
    OnTheWayTo(Sources(home), p);
    assert p[|p| - 1] == name && Disk.Named(name) in Littered(contents, 0, name).visible;
  }

  lemma LeftStep(run: seq<State>, s: State, review: PendingReview, after: Site, path: string, content: string)
    returns (t: State)
    requires Reached(run, s) && s.admin == Invoking(review) && review.request == WriteFile(path, content)
    requires ValidSite(s.home, after) && NotWritten(s.home, s.site, path, content, after)
    ensures Reached(run + [t], t) && Grew(run, run + [t])
    ensures t.trace == s.trace + [Invoked(review, Err(""))]
    ensures t.sights == s.sights + [Seen(s.site, World(Err(""), NotSpawned(""), Err(""), after))]
  {
    var c := Calm(s.site).(world := World(Err(""), NotSpawned(""), Err(""), after));
    t := AdminStep(s, c);
    OneMore(run, s, AdminContinues(c));
  }

  /** An approved write fails and cannot remove its temporary, which the fingerprint then covers. */
  lemma TemporaryChangesFiles(
    home: Home, config: Policy.Config, id: Uuid, path: string, content: string, purpose: string,
    contents: FileTree.Bytes, uuid: Uuids.Drawn)
    returns (run: seq<State>, s: State, a: nat)
    requires Policy.ValidConfig(config) && config.writeFile.Review? && RootFits(home)
    requires home.components(path) == TARGET_PATH && |home.bytes(content)| <= WriteFile.MAX_WRITE_BYTES
    ensures Reached(run, s) && InvokedAt(s.trace, a, id) && s.trace[a].returned.Err? && a < |s.sights|
    ensures var rel := CoveredTemporary(home, path, uuid);
            && LeftBehind(home, s.sights[a].before, path, content, s.sights[a].after, uuid)
            && FileAt(home, s.sights[a].before, rel) == None && FileAt(home, s.sights[a].after, rel) == Some([])
  {
    var approved, s1, review := WriteApproved(home, config, id, path, content, purpose, contents);
    var after := Left(home, contents, Uuids.TemporaryName(uuid));
    LeftIsBehind(home, path, contents, content, uuid);
    LeftFits(home, path);
    LeftIsValid(home, s1.site, path, content, after, uuid);
    s := LeftStep(approved, s1, review, after, path, content);
    run := approved + [s];
    a := |s1.trace|;
    SightForEach(approved, s1);
    LeftIsCovered(home, contents, uuid);
  }
}
