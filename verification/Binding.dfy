/** What the recorded evidence is worth at the other end: over every run, what an approval compares and what
    its operation meets, tied to the workspace the reviewed request was captured in
    (src/main.rs, src/cargo_test.rs, src/filesystem.rs). */
module Binding {
  import opened Wrappers
  import opened Execution
  import opened Workplace
  import opened Lifecycle
  import opened LifecycleSteps
  import opened Guarantees
  import Coverage
  import Encoding
  import FileTree
  import Fingerprint
  import Mirror
  import Uuids
  import WriteFile

  // ---------------------------------------------------------------- what is true of the recorded sights

  /** A revalidation that succeeded found what was recorded; a run that started did so behind the gate; a
      write that returned Ok wrote exactly its content, and one that failed nothing; a POST that returned went where
      it was allowed to. */
  ghost predicate SightOk(home: Home, e: AdminEvent, sight: Sight) {
    match e
    case Revalidated(review) =>
      ValidSite(home, sight.before) && exists reading :: Revalidates(home, sight.before, review, reading)
    case Invoked(review, returned) => ValidSite(home, sight.before) && ValidSite(home, sight.after) && (
      match review.request
      case RunCargoTest =>
        && (SnapshotOf(sight).Some? ==>
              review.workspaceFingerprint.Some?
              && GatePassed(home, review.workspaceFingerprint.value, SnapshotOf(sight).value))
        && (returned.Ok? ==> SnapshotOf(sight).Some?)
      case WriteFile(path, content) =>
        if returned.Ok? then Written(home, sight.before, path, content, sight.after)
        else NotWritten(home, sight.before, path, content, sight.after)
      case HttpRequest(_, url, _) => returned.Ok? ==> url in sight.before.destinations
      case _ => true)
    case _ => true
  }

  ghost predicate SightsOk(s: State) {
    && ValidSite(s.home, s.site)
    && |s.sights| == |s.trace|
    && forall k | 0 <= k < |s.trace| :: SightOk(s.home, s.trace[k], s.sights[k])
  }

  /** The sights that go with new events. */
  lemma SightsAdded(s: State, c: Choice, next: State, events: seq<AdminEvent>)
    requires SightsOk(s) && Adds(s, c, next, events) && Allowed(s, c)
    ensures SightsOk(next)
  {
    forall k | 0 <= k < |next.trace| ensures SightOk(next.home, next.trace[k], next.sights[k]) {
      if k >= |s.trace| {
        var e := events[k - |s.trace|];
        assert next.trace[k] == e && e in events;
      }
    }
  }

  lemma NotedSight(s: State, e: AdminEvent)
    requires SightsOk(s) && !e.Revalidated? && !e.Invoked?
    ensures SightsOk(Note(s, e))
  {
  }

  ghost predicate SeesSame(s: State, next: State) {
    next.home == s.home && next.site == s.site && next.trace == s.trace && next.sights == s.sights
  }

  lemma SightsKept(s: State, next: State)
    requires SightsOk(s) && SeesSame(s, next)
    ensures SightsOk(next)
  {
  }

  lemma AgentSees(s: State, step: Step)
    requires Enabled(s, step) && (step.AgentBegins? || step.AgentContinues?)
    ensures SeesSame(s, Apply(s, step))
  {
  }

  lemma AgentSights(s: State, step: Step)
    requires SightsOk(s) && Enabled(s, step) && (step.AgentBegins? || step.AgentContinues?)
    ensures SightsOk(Apply(s, step))
  {
    AgentSees(s, step);
    SightsKept(s, Apply(s, step));
  }

  lemma StepSights(s: State, step: Step)
    requires SightsOk(s) && Enabled(s, step)
    ensures SightsOk(Apply(s, step))
  {
    match step
    case AdminBegins(command) => NotedSight(s, Began(command));
    case AdminContinues(c) =>
      var events := StepEvents(s, c);
      SightsAdded(s, c, AdminStep(s, c), events);
    case ProcessDies(_) => NotedSight(s, Stopped);
    case PowerFails(_, _) => NotedSight(s, Stopped);
    case AgentBegins(_, _, _, _, _, _) => AgentSights(s, step);
    case AgentContinues(_, _) => AgentSights(s, step);
    case OthersMove(_) =>
  }

  lemma FirstSights(run: seq<State>)
    requires IsRun(run)
    ensures SightsOk(run[0])
  {
    RunStarts(run);
  }

  lemma NextSights(run: seq<State>, k: nat)
    requires IsRun(run) && 0 < k < |run| && SightsOk(run[k - 1])
    ensures SightsOk(run[k])
  {
    var step := StepOf(run, k);
    StepSights(run[k - 1], step);
  }

  /** The workspace at every event of a run is as it should be. */
  lemma {:induction false} RunSights(run: seq<State>, k: nat)
    requires IsRun(run) && k < |run|
    ensures SightsOk(run[k])
  {
    if k == 0 {
      FirstSights(run);
    } else {
      RunSights(run, k - 1);
      NextSights(run, k);
    }
  }

  // ---------------------------------------------------------------- what was captured

  /** At step `j` the review was recorded, with the fingerprint of what was read or the target state of the
      workspace there was. */
  ghost predicate RecordedAt(run: seq<State>, j: nat, review: PendingReview, reading: Fingerprint.Reading) {
    && BuiltFrom(run, j, review, reading)
    && match review.request
       case RunCargoTest =>
         review.workspaceFingerprint.Some? && FingerprintOf(run[j].home, reading, review.workspaceFingerprint.value)
       case WriteFile(path, _) =>
         review.writeTargetState.Some? && TargetIs(run[j].home, run[j].site, path, review.writeTargetState.value)
       case _ => true
  }

  lemma BuiltEvidence(run: seq<State>, j: nat, review: PendingReview, reading: Fingerprint.Reading)
    requires BuiltFrom(run, j, review, reading)
    ensures RecordedAt(run, j, review, reading)
  {
  }

  lemma InvokedWasBuilt(run: seq<State>, k: nat, a: nat, id: Uuid) returns (j: nat)
    requires IsRun(run) && k < |run| && InvokedAt(run[k].trace, a, id)
    ensures j < k && BuiltAt(run, j, run[k].trace[a].review)
    ensures run[j].home == run[k].home && ValidSite(run[j].home, run[j].site)
  {
    WhatWasReviewedRuns(run, k, a, id);
    j :| j < k && BuiltAt(run, j, run[k].trace[a].review);
    RunExtends(run, j, k);
    RunSights(run, j);
  }

  /** Three events before an invocation its review was revalidated, and both saw what they should have seen. */
  lemma RevalidatedBefore(run: seq<State>, k: nat, a: nat, id: Uuid)
    requires IsRun(run) && k < |run| && InvokedAt(run[k].trace, a, id)
    ensures 3 <= a < |run[k].sights| && run[k].trace[a - 3] == Revalidated(run[k].trace[a].review)
    ensures SightOk(run[k].home, run[k].trace[a - 3], run[k].sights[a - 3])
    ensures SightOk(run[k].home, run[k].trace[a], run[k].sights[a])
  {
    RunSights(run, k);
    WriteAheadReviewed(run, k, a, id);
    assert run[k].trace[a - 3] == run[k].trace[a - 4..a][1];
  }

  // ---------------------------------------------------------------- theorems

  /** The run that event `a` invoked was started in this snapshot. */
  predicate StartedIn(s: State, a: nat, copy: Copy) {
    a < |s.sights| && SnapshotOf(s.sights[a]) == Some(copy)
  }

  lemma SightAt(run: seq<State>, k: nat, a: nat)
    requires IsRun(run) && k < |run| && a < |run[k].trace|
    ensures a < |run[k].sights| && SightOk(run[k].home, run[k].trace[a], run[k].sights[a])
  {
    RunSights(run, k);
  }

  lemma StartedAsRecorded(
    run: seq<State>, k: nat, a: nat, id: Uuid, copy: Copy, j: nat, reading: Fingerprint.Reading)
    requires IsRun(run) && k < |run| && InvokedAt(run[k].trace, a, id) && StartedIn(run[k], a, copy)
    requires run[k].trace[a].review.request.RunCargoTest?
    requires j < k && BuiltFrom(run, j, run[k].trace[a].review, reading)
    requires run[j].home == run[k].home && ValidSite(run[j].home, run[j].site)
    ensures BoundTo(run[k].home, reading, copy)
    ensures Fingerprint.Answered(run[j].site.tree, true, reading.log) ==>
              SameOrCollide(run[k].home, FileTree.CoveredFiles(copy.tree, copy.at),
                            FileTree.CoveredFiles(run[j].site.tree, run[k].home.root))
  {
    BuiltEvidence(run, j, run[k].trace[a].review, reading);
    SightAt(run, k, a);
    SameFiles(run[k].home, reading, run[k].trace[a].review.workspaceFingerprint.value, copy);
  }

  /** In every run, if an approved `cargo test` is started, the covered files of the snapshot it runs in are exactly
      those that were read when the review was recorded, or two different streams have the same hash; whatever
      changed during that walk, and whatever claims, restores, reloads and workspace changes lie between. If the
      workspace stood still during the walk, they are its covered files. */
  lemma ReviewedWorkspaceRuns(run: seq<State>, k: nat, a: nat, id: Uuid, copy: Copy) returns (j: nat)
    requires IsRun(run) && k < |run| && InvokedAt(run[k].trace, a, id)
    requires run[k].trace[a].review.request.RunCargoTest?
    requires StartedIn(run[k], a, copy)
    ensures j < k && BuiltAt(run, j, run[k].trace[a].review)
    ensures forall reading | BuiltFrom(run, j, run[k].trace[a].review, reading) :: BoundTo(run[k].home, reading, copy)
    ensures forall reading | BuiltFrom(run, j, run[k].trace[a].review, reading)
                             && Fingerprint.Answered(run[j].site.tree, true, reading.log) ::
              SameOrCollide(run[k].home, FileTree.CoveredFiles(copy.tree, copy.at),
                            FileTree.CoveredFiles(run[j].site.tree, run[k].home.root))
  {
    j := InvokedWasBuilt(run, k, a, id);
    forall reading | BuiltFrom(run, j, run[k].trace[a].review, reading)
      ensures BoundTo(run[k].home, reading, copy)
      ensures Fingerprint.Answered(run[j].site.tree, true, reading.log) ==>
                SameOrCollide(run[k].home, FileTree.CoveredFiles(copy.tree, copy.at),
                              FileTree.CoveredFiles(run[j].site.tree, run[k].home.root))
    {
      StartedAsRecorded(run, k, a, id, copy, j, reading);
    }
  }

  /** What a tree has at each path that goes into a build is what was read there, and nothing where nothing was. */
  ghost predicate HasInputsRead(tree: FileTree.Tree, at: FileTree.Path, reading: Fingerprint.Reading) {
    forall rel | Coverage.BuildInput(rel) ::
      Coverage.RegularFile(tree, at + rel) == Coverage.WhatWasRead(reading, rel)
  }

  lemma BoundInputs(home: Home, tree: FileTree.Tree, at: FileTree.Path, reading: Fingerprint.Reading)
    requires SameOrCollide(home, FileTree.CoveredFiles(tree, at), reading.files)
    ensures || HasInputsRead(tree, at, reading)
            || Encoding.Collision(home.hash, Encoding.Stream(FileTree.CoveredFiles(tree, at)),
                                  Encoding.Stream(reading.files))
  {
    if FileTree.CoveredFiles(tree, at) == reading.files {
      forall rel | Coverage.BuildInput(rel)
        ensures Coverage.RegularFile(tree, at + rel) == Coverage.WhatWasRead(reading, rel)
      {
        Coverage.InputsAsRead(tree, at, reading, rel);
      }
    }
  }

  /** In every run, an approved `cargo test` starts in a snapshot that has, as "Cargo.toml", "Cargo.lock" and
      "build.rs" and everywhere below "src" and "tests", the files that were read when the review was recorded and no
      others, or there is a collision. */
  lemma ReviewedInputsRun(run: seq<State>, k: nat, a: nat, id: Uuid, copy: Copy) returns (j: nat)
    requires IsRun(run) && k < |run| && InvokedAt(run[k].trace, a, id)
    requires run[k].trace[a].review.request.RunCargoTest? && StartedIn(run[k], a, copy)
    ensures j < k && BuiltAt(run, j, run[k].trace[a].review)
    ensures forall reading | BuiltFrom(run, j, run[k].trace[a].review, reading) ::
              || HasInputsRead(copy.tree, copy.at, reading)
              || Encoding.Collision(run[k].home.hash, Encoding.Stream(FileTree.CoveredFiles(copy.tree, copy.at)),
                                    Encoding.Stream(reading.files))
  {
    j := ReviewedWorkspaceRuns(run, k, a, id, copy);
    forall reading | BuiltFrom(run, j, run[k].trace[a].review, reading)
      ensures || HasInputsRead(copy.tree, copy.at, reading)
              || Encoding.Collision(run[k].home.hash, Encoding.Stream(FileTree.CoveredFiles(copy.tree, copy.at)),
                                    Encoding.Stream(reading.files))
    {
      BoundInputs(run[k].home, copy.tree, copy.at, reading);
    }
  }

  lemma ResultMeansStarted(run: seq<State>, k: nat, a: nat, id: Uuid)
    requires IsRun(run) && k < |run| && InvokedAt(run[k].trace, a, id)
    requires run[k].trace[a].review.request.RunCargoTest? && run[k].trace[a].returned.Ok?
    ensures exists copy :: StartedIn(run[k], a, copy)
  {
    SightAt(run, k, a);
    assert StartedIn(run[k], a, SnapshotOf(run[k].sights[a]).value);
  }

  /** What is at the target of `path` in this site. */
  function TargetContents(home: Home, site: Site, path: string): Option<WriteFile.Bytes>
    requires WriteFile.WritablePath(site.folders, home.components(path))
  {
    WriteFile.ContentsAt(site.folders, home.components(path))
  }

  predicate TargetReadable(home: Home, site: Site, path: string) {
    WriteFile.WritablePath(site.folders, home.components(path))
  }

  /** The target has the same contents in both sites, or is missing in both, or there is a collision. */
  predicate SameTargetContents(home: Home, a: Site, b: Site, path: string) {
    && TargetReadable(home, a, path) && TargetReadable(home, b, path)
    && WriteFile.SameUpToHash(TargetContents(home, a, path), TargetContents(home, b, path), home.hash)
  }

  lemma SameTargetTransitive(home: Home, a: Site, b: Site, c: Site, path: string)
    requires SameTargetContents(home, a, b, path) && TargetReadable(home, c, path)
    ensures SameTargetContents(home, a, c, path) <==> SameTargetContents(home, b, c, path)
  {
  }

  /** In every run, when the revalidation before an invoked write compared the target, it had the contents it
      had when the request was recorded, up to a collision. */
  lemma ReviewedTargetRevalidated(run: seq<State>, k: nat, a: nat, id: Uuid, path: string) returns (j: nat)
    requires IsRun(run) && k < |run| && InvokedAt(run[k].trace, a, id)
    requires run[k].trace[a].review.request.WriteFile? && path == run[k].trace[a].review.request.path
    ensures j < k && BuiltAt(run, j, run[k].trace[a].review)
    ensures 3 <= a < |run[k].sights| && run[k].trace[a - 3] == Revalidated(run[k].trace[a].review)
    ensures SameTargetContents(run[k].home, run[j].site, run[k].sights[a - 3].before, path)
  {
    var review := run[k].trace[a].review;
    j := InvokedWasBuilt(run, k, a, id);
    var reading :| BuiltFrom(run, j, review, reading);
    BuiltEvidence(run, j, review, reading);
    RevalidatedBefore(run, k, a, id);
    SameTarget(run[k].home, run[j].site, run[k].sights[a - 3].before, path, review.writeTargetState.value);
  }

  /** In every run, a write that returned Ok has written exactly the content that was reviewed. What it
      replaced is what was shown for review exactly if the target has not changed between the comparison
      and the rename: the write itself looks only at what kind of file is there. */
  lemma ReplacedAsReviewed(run: seq<State>, k: nat, a: nat, id: Uuid, path: string) returns (j: nat)
    requires IsRun(run) && k < |run| && InvokedAt(run[k].trace, a, id)
    requires run[k].trace[a].review.request.WriteFile? && path == run[k].trace[a].review.request.path
    requires run[k].trace[a].returned.Ok?
    ensures j < k && BuiltAt(run, j, run[k].trace[a].review)
    ensures 3 <= a < |run[k].sights|
    ensures var sight := run[k].sights[a];
            Written(run[k].home, sight.before, path, run[k].trace[a].review.request.content, sight.after)
    ensures SameTargetContents(run[k].home, run[j].site, run[k].sights[a].before, path)
            <==> SameTargetContents(run[k].home, run[k].sights[a - 3].before, run[k].sights[a].before, path)
  {
    j := ReviewedTargetRevalidated(run, k, a, id, path);
    RevalidatedBefore(run, k, a, id);
    SameTargetTransitive(run[k].home, run[j].site, run[k].sights[a - 3].before, run[k].sights[a].before, path);
  }

  /** In every run, an approved POST that came back with a status went to a destination that was allowed when
      the approval was revalidated, and still was when it was sent. */
  lemma PostedWhereAllowed(run: seq<State>, k: nat, a: nat, id: Uuid)
    requires IsRun(run) && k < |run| && InvokedAt(run[k].trace, a, id)
    requires run[k].trace[a].review.request.HttpRequest? && run[k].trace[a].returned.Ok?
    ensures 3 <= a < |run[k].sights|
    ensures run[k].trace[a].review.request.url in run[k].sights[a - 3].before.destinations
    ensures run[k].trace[a].review.request.url in run[k].sights[a].before.destinations
  {
    RevalidatedBefore(run, k, a, id);
  }

  /** In every run, when the approval of a `cargo test` was revalidated there was something called "Cargo.toml" in the
      workspace. */
  lemma ManifestWasThere(run: seq<State>, k: nat, a: nat, id: Uuid)
    requires IsRun(run) && k < |run| && InvokedAt(run[k].trace, a, id)
    requires run[k].trace[a].review.request.RunCargoTest?
    ensures 3 <= a < |run[k].sights|
    ensures run[k].home.root + [[67, 97, 114, 103, 111, 46, 116, 111, 109, 108]] in run[k].sights[a - 3].before.tree
  {
    RevalidatedBefore(run, k, a, id);
  }

  // ---------------------------------------------------------------- writes and fingerprints

  /** Where an approved write goes, as the fingerprint names it. */
  function CoveredTarget(home: Home, path: string): FileTree.Path
    requires WriteFile.HasFileName(home.components(path))
  {
    var target := home.components(path);
    WriteFile.ParentOf(target) + [target[|target| - 1].name]
  }

  /** And where its temporary goes. */
  function CoveredTemporary(home: Home, path: string, uuid: Uuids.Drawn): FileTree.Path
    requires home.components(path) != []
  {
    WriteFile.ParentOf(home.components(path)) + [Uuids.TemporaryName(uuid)]
  }

  /** The file the site has at the covered name, if there is one. */
  function FileAt(home: Home, site: Site, rel: FileTree.Path): Option<FileTree.Bytes> {
    if FileTree.CoveredFile(site.tree, home.root, rel) then Some(site.tree[home.root + rel].contents) else None
  }

  ghost predicate FilesCollide(home: Home, a: Site, b: Site) {
    Encoding.Collision(home.hash, Encoding.Stream(FileTree.CoveredFiles(a.tree, home.root)),
                       Encoding.Stream(FileTree.CoveredFiles(b.tree, home.root)))
  }

  /** The sites differ at most at this one name, and there is no link there afterwards. */
  ghost predicate OnlyDiffersAt(home: Home, a: Site, b: Site, rel: FileTree.Path) {
    && (forall other | FileTree.VisitedName(other) && other != rel ::
          Mirror.ItemAt(a.tree, home.root + other) == Mirror.ItemAt(b.tree, home.root + other))
    && !FileTree.LinkAt(b.tree, home.root, rel)
    && (rel == [FileTree.CARGO_TOML] ==> home.root + rel in b.tree)
  }

  lemma SameCoveredFiles(home: Home, a: Site, b: Site, rel: FileTree.Path)
    requires OnlyDiffersAt(home, a, b, rel)
    ensures FileTree.CoveredFiles(a.tree, home.root) == FileTree.CoveredFiles(b.tree, home.root) <==>
            FileAt(home, a, rel) == FileAt(home, b, rel)
  {
    var was, now := FileTree.CoveredFiles(a.tree, home.root), FileTree.CoveredFiles(b.tree, home.root);
    FileTree.CoveredFilesMeaning(a.tree, home.root, rel);
    FileTree.CoveredFilesMeaning(b.tree, home.root, rel);
    if FileAt(home, a, rel) == FileAt(home, b, rel) {
      forall other
        ensures other in was <==> other in now
        ensures other in was ==> was[other] == now[other]
      {
        FileTree.CoveredFilesMeaning(a.tree, home.root, other);
        FileTree.CoveredFilesMeaning(b.tree, home.root, other);
        if other != rel && FileTree.CoveredName(other) {
          assert FileTree.VisitedName(other);
        }
      }
    }
  }

  lemma NoLinkAfter(home: Home, a: Site, b: Site, rel: FileTree.Path)
    requires OnlyDiffersAt(home, a, b, rel) && !FileTree.HasCoveredLink(a.tree, home.root)
    ensures !FileTree.HasCoveredLink(b.tree, home.root)
  {
    forall other ensures !FileTree.LinkAt(b.tree, home.root, other) {
      assert !FileTree.LinkAt(a.tree, home.root, other);
    }
  }

  /** A change at one name leaves a Cargo review's evidence valid exactly if it changes no covered file, or there is a
      collision. */
  lemma OneChange(home: Home, a: Site, b: Site, rel: FileTree.Path, cargo: PendingReview)
    requires ValidSite(home, a) && ValidSite(home, b) && OnlyDiffersAt(home, a, b, rel)
    requires cargo.request.RunCargoTest? && Unchanged(home, a, cargo)
    ensures (Unchanged(home, b, cargo) <==> FileAt(home, a, rel) == FileAt(home, b, rel)) || FilesCollide(home, a, b)
  {
    var manifest := [FileTree.CARGO_TOML];
    assert FileTree.VisitedName(manifest);
    SameCoveredFiles(home, a, b, rel);
    NoLinkAfter(home, a, b, rel);
    Fingerprint.CoveredEncodable(a.tree, home.root);
    Fingerprint.CoveredEncodable(b.tree, home.root);
    if Unchanged(home, b, cargo) {
      Encoding.FingerprintBinds(home.hash, FileTree.CoveredFiles(a.tree, home.root),
                                FileTree.CoveredFiles(b.tree, home.root));
    }
  }

  lemma SameRelative(root: FileTree.Path, a: FileTree.Path, b: FileTree.Path)
    ensures root + a == root + b <==> a == b
  {
    assert (root + a)[|root|..] == a && (root + b)[|root|..] == b;
  }

  lemma WrittenDiffers(home: Home, sight: Sight, path: string, content: string)
    requires Written(home, sight.before, path, content, sight.after)
    ensures OnlyDiffersAt(home, sight.before, sight.after, CoveredTarget(home, path))
    ensures FileTree.CoveredName(CoveredTarget(home, path)) ==>
              FileAt(home, sight.after, CoveredTarget(home, path)) == Some(home.bytes(content))
  {
    var rel := CoveredTarget(home, path);
    assert home.root + rel == Mirror.Place(home.root, home.components(path));
    forall other | other != rel
      ensures Mirror.ItemAt(sight.before.tree, home.root + other) == Mirror.ItemAt(sight.after.tree, home.root + other)
    {
      SameRelative(home.root, other, rel);
    }
  }

  /** In every run, a write that returned Ok leaves the evidence of a Cargo review valid exactly if the target's name
      is not covered, or the target already had that content, or there is a collision. */
  lemma WriteKeepsFingerprint(run: seq<State>, k: nat, a: nat, id: Uuid, cargo: PendingReview)
    requires IsRun(run) && k < |run| && InvokedAt(run[k].trace, a, id)
    requires run[k].trace[a].review.request.WriteFile? && run[k].trace[a].returned.Ok?
    requires cargo.request.RunCargoTest?
    ensures a < |run[k].sights|
    ensures var home, request, sight := run[k].home, run[k].trace[a].review.request, run[k].sights[a];
            && WriteFile.HasFileName(home.components(request.path))
            && var rel := CoveredTarget(home, request.path);
               Unchanged(home, sight.before, cargo) ==>
                 || (Unchanged(home, sight.after, cargo) <==>
                     !FileTree.CoveredName(rel)
                     || FileAt(home, sight.before, rel) == Some(home.bytes(request.content)))
                 || FilesCollide(home, sight.before, sight.after)
  {
    var home, request := run[k].home, run[k].trace[a].review.request;
    SightAt(run, k, a);
    var sight := run[k].sights[a];
    WrittenDiffers(home, sight, request.path, request.content);
    if Unchanged(home, sight.before, cargo) {
      OneChange(home, sight.before, sight.after, CoveredTarget(home, request.path), cargo);
    }
  }

  lemma TemporaryIsNoManifest(home: Home, path: string, uuid: Uuids.Drawn)
    requires home.components(path) != []
    ensures CoveredTemporary(home, path, uuid) != [FileTree.CARGO_TOML]
  {
    var rel := CoveredTemporary(home, path, uuid);
    assert rel[|rel| - 1] == Uuids.TemporaryName(uuid) && |FileTree.CARGO_TOML| < |Uuids.TemporaryName(uuid)|;
  }

  lemma LeftElsewhere(tree: FileTree.Tree, root: FileTree.Path, rel: FileTree.Path, d: WriteFile.Directory,
                      other: FileTree.Path)
    requires rel != [] && other != rel
    ensures Mirror.ItemAt(Mirror.LeftIn(tree, root + rel, d), root + other) == Mirror.ItemAt(tree, root + other)
  {
    SameRelative(root, other, rel);
  }

  lemma LeftNoLink(tree: FileTree.Tree, p: FileTree.Path, d: WriteFile.Directory)
    requires p != [] && Mirror.ItemAt(tree, p) != Some(FileTree.SymbolicLink)
    ensures Mirror.ItemAt(Mirror.LeftIn(tree, p, d), p) != Some(FileTree.SymbolicLink)
  {
  }

  lemma LeftTree(home: Home, sight: Sight, path: string, content: string, uuid: Uuids.Drawn)
    requires LeftBehind(home, sight.before, path, content, sight.after, uuid)
    ensures var d := sight.after.folders[WriteFile.ParentOf(home.components(path))];
            sight.after.tree == Mirror.LeftIn(sight.before.tree, home.root + CoveredTemporary(home, path, uuid), d)
  {
    assert home.root + CoveredTemporary(home, path, uuid)
           == Mirror.TemporaryPlace(home.root, home.components(path), Uuids.TemporaryName(uuid));
  }

  lemma LeftOnlyDiffers(home: Home, tree: FileTree.Tree, rel: FileTree.Path, d: WriteFile.Directory)
    requires rel != [] && !FileTree.HasCoveredLink(tree, home.root)
    ensures var next := Mirror.LeftIn(tree, home.root + rel, d);
            && (forall other | FileTree.VisitedName(other) && other != rel ::
                  Mirror.ItemAt(tree, home.root + other) == Mirror.ItemAt(next, home.root + other))
            && !FileTree.LinkAt(next, home.root, rel)
  {
    var next := Mirror.LeftIn(tree, home.root + rel, d);
    forall other | other != rel
      ensures Mirror.ItemAt(tree, home.root + other) == Mirror.ItemAt(next, home.root + other)
    {
      LeftElsewhere(tree, home.root, rel, d, other);
    }
    if FileTree.VisitedName(rel) {
      assert !FileTree.LinkAt(tree, home.root, rel);
      LeftNoLink(tree, home.root + rel, d);
    }
  }

  lemma LeftDiffers(home: Home, sight: Sight, path: string, content: string, uuid: Uuids.Drawn)
    requires ValidSite(home, sight.before) && !FileTree.HasCoveredLink(sight.before.tree, home.root)
    requires LeftBehind(home, sight.before, path, content, sight.after, uuid)
    ensures OnlyDiffersAt(home, sight.before, sight.after, CoveredTemporary(home, path, uuid))
  {
    var rel := CoveredTemporary(home, path, uuid);
    var d := sight.after.folders[WriteFile.ParentOf(home.components(path))];
    LeftTree(home, sight, path, content, uuid);
    LeftOnlyDiffers(home, sight.before.tree, rel, d);
    TemporaryIsNoManifest(home, path, uuid);
  }

  /** In every run, a write that returned an error leaves it valid, unless with its temporary it has put a file under
      a covered name, or removed or changed one, or there is a collision. */
  lemma FailedWriteKeepsFingerprint(run: seq<State>, k: nat, a: nat, id: Uuid, cargo: PendingReview)
    requires IsRun(run) && k < |run| && InvokedAt(run[k].trace, a, id)
    requires run[k].trace[a].review.request.WriteFile? && run[k].trace[a].returned.Err?
    requires cargo.request.RunCargoTest?
    ensures a < |run[k].sights|
    ensures var home, request, sight := run[k].home, run[k].trace[a].review.request, run[k].sights[a];
            Unchanged(home, sight.before, cargo) ==>
              || sight.after == sight.before
              || FilesCollide(home, sight.before, sight.after)
              || exists uuid: Uuids.Drawn ::
                   && LeftBehind(home, sight.before, request.path, request.content, sight.after, uuid)
                   && var rel := CoveredTemporary(home, request.path, uuid);
                      Unchanged(home, sight.after, cargo) <==>
                      FileAt(home, sight.before, rel) == FileAt(home, sight.after, rel)
  {
    var home, request := run[k].home, run[k].trace[a].review.request;
    SightAt(run, k, a);
    var sight := run[k].sights[a];
    if Unchanged(home, sight.before, cargo) && sight.after != sight.before {
      var uuid: Uuids.Drawn :| LeftBehind(home, sight.before, request.path, request.content, sight.after, uuid);
      LeftDiffers(home, sight, request.path, request.content, uuid);
      OneChange(home, sight.before, sight.after, CoveredTemporary(home, request.path, uuid), cargo);
    }
  }

  lemma RecordedFingerprint(
    run: seq<State>, k: nat, j: nat, cargo: PendingReview, reading: Fingerprint.Reading)
    requires IsRun(run) && j <= k < |run| && BuiltFrom(run, j, cargo, reading) && cargo.request.RunCargoTest?
    ensures cargo.workspaceFingerprint.Some? && run[j].home == run[k].home
    ensures FingerprintOf(run[k].home, reading, cargo.workspaceFingerprint.value)
  {
    BuiltEvidence(run, j, cargo, reading);
    RunExtends(run, j, k);
  }

  lemma UnchangedWasRead(home: Home, site: Site, cargo: PendingReview, reading: Fingerprint.Reading)
    requires ValidSite(home, site) && cargo.request.RunCargoTest? && Unchanged(home, site, cargo)
    requires FingerprintOf(home, reading, cargo.workspaceFingerprint.value)
    ensures SameOrCollide(home, FileTree.CoveredFiles(site.tree, home.root), reading.files)
  {
    Fingerprint.HoldsWhatWasRead(reading, home.root, site.tree, home.root, cargo.workspaceFingerprint.value, home.hash);
  }

  /** In every run, an approved write that returned Ok under a covered name, with other contents than were read when
      a Cargo review was recorded, leaves a workspace in which that review cannot be approved, or there is a
      collision. */
  lemma WriteUnfitsFingerprint(
    run: seq<State>, k: nat, a: nat, id: Uuid, j: nat, cargo: PendingReview, reading: Fingerprint.Reading)
    requires IsRun(run) && k < |run| && InvokedAt(run[k].trace, a, id)
    requires run[k].trace[a].review.request.WriteFile? && run[k].trace[a].returned.Ok?
    requires j <= k && BuiltFrom(run, j, cargo, reading) && cargo.request.RunCargoTest?
    ensures a < |run[k].sights|
    ensures var home, request, after := run[k].home, run[k].trace[a].review.request, run[k].sights[a].after;
            && WriteFile.HasFileName(home.components(request.path))
            && var rel, content := CoveredTarget(home, request.path), home.bytes(request.content);
               FileTree.CoveredName(rel) && !(rel in reading.files && reading.files[rel] == content) ==>
                 !Unchanged(home, after, cargo)
                 || Encoding.Collision(home.hash, Encoding.Stream(FileTree.CoveredFiles(after.tree, home.root)),
                                       Encoding.Stream(reading.files))
  {
    var home, request := run[k].home, run[k].trace[a].review.request;
    RecordedFingerprint(run, k, j, cargo, reading);
    SightAt(run, k, a);
    var after := run[k].sights[a].after;
    WrittenDiffers(home, run[k].sights[a], request.path, request.content);
    FileTree.CoveredFilesMeaning(after.tree, home.root, CoveredTarget(home, request.path));
    if Unchanged(home, after, cargo) {
      UnchangedWasRead(home, after, cargo, reading);
    }
  }

  /** And whenever such a review is revalidated, the walk has read exactly what was read when it was recorded, or
      there is a collision, whatever changed during either. */
  lemma RevalidatedAsRecorded(
    run: seq<State>, n: nat, c: Choice, j: nat, cargo: PendingReview, reading: Fingerprint.Reading)
    requires IsRun(run) && n + 1 < |run| && run[n].admin == Revalidating(cargo)
    requires Allowed(run[n], c) && run[n + 1] == AdminStep(run[n], c) && !run[n + 1].admin.Idle?
    requires j <= n && BuiltFrom(run, j, cargo, reading) && cargo.request.RunCargoTest?
    ensures run[n + 1].trace == run[n].trace + [Revalidated(cargo)]
    ensures Fingerprint.WasRead(run[n].home.root, c.reading)
    ensures SameOrCollide(run[n].home, c.reading.files, reading.files)
  {
    RecordedFingerprint(run, n, j, cargo, reading);
    Fingerprint.SameReading(c.reading, reading, run[n].home.root, run[n].home.hash);
  }

  /** So if anyone has meanwhile rewritten, added or removed a file that goes into the build, the approval does not get
      past its revalidation, unless the workspace changes again during the walk or there is a collision. */
  lemma RewrittenInputIsRefused(
    run: seq<State>, n: nat, c: Choice, j: nat, cargo: PendingReview, reading: Fingerprint.Reading)
    requires IsRun(run) && n + 1 < |run| && run[n].admin == Revalidating(cargo)
    requires Allowed(run[n], c) && run[n + 1] == AdminStep(run[n], c)
    requires j <= n && BuiltFrom(run, j, cargo, reading) && cargo.request.RunCargoTest?
    requires Fingerprint.Answered(run[n].site.tree, true, c.reading.log)
    requires !HasInputsRead(run[n].site.tree, run[n].home.root, reading)
    ensures || run[n + 1].trace == run[n].trace + [Answered(Err(RevalidationFailed))]
            || Encoding.Collision(
                 run[n].home.hash, Encoding.Stream(FileTree.CoveredFiles(run[n].site.tree, run[n].home.root)),
                 Encoding.Stream(reading.files))
  {
    if !run[n + 1].admin.Idle? {
      RunSights(run, n);
      RevalidatedAsRecorded(run, n, c, j, cargo, reading);
      Fingerprint.StandsStill(run[n].site.tree, run[n].home.root, c.reading);
      BoundInputs(run[n].home, run[n].site.tree, run[n].home.root, reading);
    }
  }
}
