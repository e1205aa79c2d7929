/** The workspace as the gateway meets it: what is captured of it when a request is held, what an approval
    compares, and what an approved operation does to it (src/main.rs, src/filesystem.rs, src/cargo_test.rs). */
module Workplace {
  import opened Wrappers
  import opened Execution
  import opened FileTree
  import Encoding
  import Fingerprint
  import Snapshot
  import WriteFile
  import Mirror
  import Uuids

  // What stays the same: where the workspace is, the hash, how the library splits a path and encodes text,
  // which characters are white space, and the mode a new file gets.
  datatype Home = Home(
    root: Path, hash: Fingerprint.Hash, components: string -> WriteFile.RequestedPath,
    bytes: string -> WriteFile.Bytes, isWhite: char -> bool, defaultMode: nat)

  // What anyone may change at any time: the files, the directories writes go to, the destinations allowed. The
  // files and the directories are two views of one workspace, one for walks and one for writes and power loss.
  datatype Site = Site(tree: Tree, folders: WriteFile.Folders, destinations: set<string>)

  predicate ValidSite(home: Home, site: Site) {
    && WellFormed(site.tree) && IsDirectory(site.tree, home.root) && PathLength(home.root + [CARGO_TOML]) < WORD
    && WriteFile.AllLinked(site.folders) && Mirror.Mirrored(site.tree, home.root, site.folders)
  }

  // ---------------------------------------------------------------- purposes

  const MAX_MESSAGE_LENGTH: nat := 4096

  /** The purpose text is not blank and not too long. */
  predicate ValidPurpose(home: Home, purpose: string) {
    (exists c <- purpose :: !home.isWhite(c)) && |home.bytes(purpose)| <= MAX_MESSAGE_LENGTH
  }

  // ---------------------------------------------------------------- evidence

  // What was captured of the workspace when the request came in; None when the capture failed.
  datatype Evidence = Evidence(fingerprint: Option<string>, target: Option<WriteTargetState>)

  const NOTHING_READ := Fingerprint.Reading([], map[])

  /** The fingerprint of what a walk over the workspace has read, whatever has changed meanwhile. */
  ghost predicate FingerprintOf(home: Home, reading: Fingerprint.Reading, fingerprint: string) {
    Fingerprint.WasRead(home.root, reading) && fingerprint == Encoding.Fingerprint(home.hash, reading.files)
  }

  /** The fingerprint of the workspace as it is. */
  ghost predicate FingerprintIs(home: Home, site: Site, fingerprint: string) {
    !HasCoveredLink(site.tree, home.root) && Snapshot.Matches(site.tree, home.root, fingerprint, home.hash)
  }

  predicate TargetIs(home: Home, site: Site, path: string, state: WriteTargetState) {
    && WriteFile.WritablePath(site.folders, home.components(path))
    && state == WriteFile.StateAt(site.folders, home.components(path), home.hash)
  }

  /** The fingerprint, as far as there is one, is that of what was read, and the target state that of this site. */
  ghost predicate Captured(
    home: Home, site: Site, request: ExecutionRequest, evidence: Evidence, reading: Fingerprint.Reading)
  {
    match request
    case RunCargoTest => evidence.fingerprint.Some? ==> FingerprintOf(home, reading, evidence.fingerprint.value)
    case WriteFile(path, _) => evidence.target.Some? ==> TargetIs(home, site, path, evidence.target.value)
    case _ => true
  }

  /** What was recorded in the review is what an approval finds, by its own walk if it is about a fingerprint. */
  ghost predicate Revalidates(home: Home, site: Site, pending: PendingReview, reading: Fingerprint.Reading) {
    match pending.request
    case WriteFile(path, _) =>
      pending.writeTargetState.Some? && TargetIs(home, site, path, pending.writeTargetState.value)
    case RunCargoTest =>
      && home.root + [CARGO_TOML] in site.tree
      && pending.workspaceFingerprint.Some? && FingerprintOf(home, reading, pending.workspaceFingerprint.value)
    case HttpRequest(verb, url, _) => verb.Post? && url in site.destinations
    case _ => false
  }

  /** What was recorded in the review is what is there now. */
  ghost predicate Unchanged(home: Home, site: Site, pending: PendingReview) {
    match pending.request
    case WriteFile(path, _) =>
      pending.writeTargetState.Some? && TargetIs(home, site, path, pending.writeTargetState.value)
    case RunCargoTest =>
      && home.root + [CARGO_TOML] in site.tree
      && pending.workspaceFingerprint.Some? && FingerprintIs(home, site, pending.workspaceFingerprint.value)
    case HttpRequest(verb, url, _) => verb.Post? && url in site.destinations
    case _ => false
  }

  // ---------------------------------------------------------------- operations

  datatype CargoTestResult = CargoTestResult(success: bool, exitCode: Option<int>, timedOut: bool)

  // A snapshot: a tree and where in it the copy lies.
  datatype Copy = Copy(tree: Tree, at: Path)

  // `cargo` is started in a snapshot or not at all.
  datatype CargoRun =
    | NotSpawned(error: string)
    | Spawned(copy: Copy, result: Result<CargoTestResult, string>)

  // What the file write, the Cargo run and the HTTP client would do if called now, and what is left then.
  datatype World = World(write: Result<(), string>, cargo: CargoRun, http: Result<nat, string>, after: Site)

  /** The test between snapshot and run has been passed. */
  ghost predicate GatePassed(home: Home, fingerprint: string, copy: Copy) {
    WellFormed(copy.tree) && Snapshot.Matches(copy.tree, copy.at, fingerprint, home.hash)
  }

  /** A write that returns Ok has made the target exactly the content, on disk and in the tree, and nothing else. */
  ghost predicate Written(home: Home, before: Site, path: string, content: string, after: Site) {
    var target, bytes := home.components(path), home.bytes(content);
    && WriteFile.Accepted(before.folders, target, bytes)
    && WriteFile.Wrote(before.folders, after.folders, target, bytes, home.defaultMode)
    && after == before.(folders := after.folders, tree := before.tree[Mirror.Place(home.root, target) := File(bytes)])
  }

  ghost predicate LeftBehind(
    home: Home, before: Site, path: string, content: string, after: Site, uuid: Uuids.Drawn)
  {
    var target, name := home.components(path), Uuids.TemporaryName(uuid);
    && target != [] && WriteFile.ParentOf(target) in after.folders
    && WriteFile.Untouched(before.folders, after.folders, target, name, home.bytes(content))
    && var place := Mirror.TemporaryPlace(home.root, target, name);
       after == before.(folders := after.folders,
                        tree := Mirror.LeftIn(before.tree, place, after.folders[WriteFile.ParentOf(target)]))
  }

  /** One that fails has changed nothing, except that next to the target a temporary of its own may be left, or
      what had its name be gone, which the tree shows too. */
  ghost predicate NotWritten(home: Home, before: Site, path: string, content: string, after: Site) {
    after == before || exists uuid: Uuids.Drawn :: LeftBehind(home, before, path, content, after, uuid)
  }

  /** What an approved operation can do: a write writes its content or fails, `cargo` only starts behind the gate,
      and a POST that returns has gone to a
      destination that is allowed. What `cargo test` itself changes is anything. */
  ghost predicate Possible(home: Home, site: Site, review: PendingReview, world: World) {
    && ValidSite(home, world.after)
    && match review.request
       case WriteFile(path, content) =>
         if world.write.Ok? then Written(home, site, path, content, world.after)
         else NotWritten(home, site, path, content, world.after)
       case RunCargoTest =>
         world.cargo.Spawned? ==>
           review.workspaceFingerprint.Some? && GatePassed(home, review.workspaceFingerprint.value, world.cargo.copy)
       case HttpRequest(_, url, _) => world.http.Ok? ==> url in site.destinations
       case _ => true
  }

  // What was there when something happened, what was there afterwards, and, if it was an operation, what the calls
  // came back with that it is made of.
  datatype Sight = Sight(before: Site, after: Site, came: Option<World>)

  function Unmoved(site: Site): Sight {
    Sight(site, site, None)
  }

  function Seen(site: Site, world: World): Sight {
    Sight(site, world.after, Some(world))
  }

  /** The snapshot a Cargo run was started in. */
  function SnapshotOf(sight: Sight): Option<Copy> {
    if sight.came.Some? && sight.came.value.cargo.Spawned? then Some(sight.came.value.cargo.copy) else None
  }

  // ---------------------------------------------------------------- what equal evidence is worth

  /** Two sites with the recorded target state have the same contents there, or a collision. */
  lemma SameTarget(home: Home, a: Site, b: Site, path: string, state: WriteTargetState)
    requires TargetIs(home, a, path, state) && TargetIs(home, b, path, state)
    ensures WriteFile.SameUpToHash(WriteFile.ContentsAt(a.folders, home.components(path)),
                                   WriteFile.ContentsAt(b.folders, home.components(path)), home.hash)
  {
  }

  /** The same files, or two different streams with the same hash. */
  ghost predicate SameOrCollide(home: Home, a: map<Path, Bytes>, b: map<Path, Bytes>) {
    a == b || Encoding.Collision(home.hash, Encoding.Stream(a), Encoding.Stream(b))
  }

  /** The copy's covered files are those that were read, up to a collision. */
  ghost predicate BoundTo(home: Home, reading: Fingerprint.Reading, copy: Copy) {
    SameOrCollide(home, CoveredFiles(copy.tree, copy.at), reading.files)
  }

  /** A snapshot that has passed the gate has the files that any walk with that fingerprint has read, or there is a
      collision; if the workspace stood still during the walk, these are its covered files. */
  lemma SameFiles(home: Home, reading: Fingerprint.Reading, fingerprint: string, copy: Copy)
    requires FingerprintOf(home, reading, fingerprint) && GatePassed(home, fingerprint, copy)
    ensures BoundTo(home, reading, copy)
    ensures forall fs | WellFormed(fs) && Fingerprint.Answered(fs, true, reading.log) ::
              SameOrCollide(home, CoveredFiles(copy.tree, copy.at), CoveredFiles(fs, home.root))
  {
    Fingerprint.HoldsWhatWasRead(reading, home.root, copy.tree, copy.at, fingerprint, home.hash);
    forall fs | WellFormed(fs) && Fingerprint.Answered(fs, true, reading.log)
      ensures SameOrCollide(home, CoveredFiles(copy.tree, copy.at), CoveredFiles(fs, home.root))
    {
      Fingerprint.StandsStill(fs, home.root, reading);
    }
  }
}
