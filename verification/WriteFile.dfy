/** Replacing a workspace file (src/filesystem.rs): the check of the target, the state recorded for review,
    and the write itself, one system call at a time. */
module WriteFile {
  import opened Wrappers
  import opened Disk
  import FileTree
  import Encoding
  import Execution

  type Bytes = seq<FileTree.Byte>

  const MAX_WRITE_BYTES: nat := 1024 * 1024
  const BUFFER_SIZE: nat := 8192

  // What a name in a directory can stand for.
  datatype Node = Text(bytes: Bytes) | Folder | SymbolicLink | Special

  datatype Component = Normal(name: FileTree.FileName) | CurDir | ParentDir | RootDir | Prefix

  type RequestedPath = seq<Component>

  datatype WriteError =
    | ContentTooLong | AbsolutePath | Traversal | OutsideWorkspace | NoFileName | NoParent | ParentUnreachable
    | TargetIsLink | TargetNotRegular | IoFailed

  // ---------------------------------------------------------------- which paths are accepted

  predicate StaysInside(path: RequestedPath) {
    forall component <- path :: component.Normal? || component.CurDir?
  }

  predicate HasFileName(path: RequestedPath) {
    path != [] && path[|path| - 1].Normal?
  }

  /** Refuses exactly the paths with a component that could lead out of the workspace. */
  method CheckComponents(path: RequestedPath) returns (result: Result<(), WriteError>)
    ensures result.Ok? <==> StaysInside(path)
    ensures result == Err(AbsolutePath) <==> path != [] && path[0].RootDir?
    ensures result == Err(Traversal) ==> ParentDir in path
    ensures result == Err(OutsideWorkspace) ==> RootDir in path || Prefix in path
    ensures result.Err? ==> result.error in {AbsolutePath, Traversal, OutsideWorkspace}
  {
    if path != [] && path[0].RootDir? {
      assert path[0] in path;
      return Err(AbsolutePath);
    }
    for i := 0 to |path|
      invariant StaysInside(path[..i])
    {
      assert path[i] in path;
      match path[i] {
        case ParentDir => return Err(Traversal);
        case RootDir => return Err(OutsideWorkspace);
        case Prefix => return Err(OutsideWorkspace);
        case CurDir =>
        case Normal(_) =>
      }
      assert path[..i + 1] == path[..i] + [path[i]];
    }
    assert path[..|path|] == path;
    return Ok(());
  }

  function TargetOf(path: RequestedPath): Name
    requires HasFileName(path)
  {
    Named(path[|path| - 1].name)
  }

  // A directory of the workspace, by the names on the way to it.
  type Parent = FileTree.Path

  function Names(path: RequestedPath): Parent {
    if path == [] then []
    else if path[0].Normal? then [path[0].name] + Names(path[1..])
    else Names(path[1..])
  }

  function ParentOf(path: RequestedPath): Parent
    requires path != []
  {
    Names(path[..|path| - 1])
  }

  /** The directories of a path are its names in the order they are written. */
  lemma {:induction false} NamesInOrder(path: RequestedPath)
    requires forall component <- path :: component.Normal?
    ensures |Names(path)| == |path| && forall k | 0 <= k < |path| :: Names(path)[k] == path[k].name
  {
    if path != [] {
      assert path[0] in path;
      forall component | component in path[1..] ensures component.Normal? {
        assert component in path;
      }
      NamesInOrder(path[1..]);
    }
  }

  /** A component that names nothing changes nothing. */
  lemma {:induction false} NamesSkip(a: RequestedPath, component: Component, b: RequestedPath)
    requires !component.Normal?
    ensures Names(a + [component] + b) == Names(a + b)
  {
    if a == [] {
      assert (a + [component] + b)[1..] == b && a + b == b;
    } else {
      assert (a + [component] + b)[1..] == a[1..] + [component] + b && (a + b)[1..] == a[1..] + b;
      NamesSkip(a[1..], component, b);
    }
  }

  // ---------------------------------------------------------------- the directory of the target

  type Directory = Disk<Node>

  /** Every shown name has an inode, and what is shown is one of the images that could come back. */
  predicate Linked(d: Directory) {
    && (forall name <- d.visible :: d.visible[name] in d.inodes)
    && d.visible in d.surviving
  }

  predicate Regular(file: File<Node>) {
    file.data.Whole? && file.data.value.Text?
  }

  /** The target is missing or a regular file. */
  predicate Writable(d: Directory, target: Name) {
    target in d.visible ==> d.visible[target] in d.inodes && Regular(d.inodes[d.visible[target]])
  }

  /** The file that is to stand at `target`: the new content, with the permissions of what was there. */
  function NewFile(d: Directory, target: Name, content: Bytes, defaultMode: nat): File<Node> {
    var mode :=
      if target in d.visible && d.visible[target] in d.inodes then d.inodes[d.visible[target]].mode else defaultMode;
    File(Whole(Text(content)), mode, true)
  }

  predicate SameEntry(image: map<Name, Inode>, other: map<Name, Inode>, name: Name) {
    (name in image <==> name in other) && (name in image ==> image[name] == other[name])
  }

  /** An image of the directory in the course of a replacement: all other names are as they were, and the
      target is as it was or is exactly the new file. */
  ghost predicate OldOrNew(
    before: Directory, d: Directory, image: map<Name, Inode>, target: Name, temporary: Name, newFile: File<Node>)
  {
    && (forall name | name != target && name != temporary :: SameEntry(image, before.visible, name))
    && ( || SameEntry(image, before.visible, target)
         || (target in image && image[target] in d.inodes && d.inodes[image[target]] == newFile))
  }

  /** A moment of the replacement: no old file has been touched, and every image that is shown or could
      come back after power loss is an old one or shows the old or exactly the new file. */
  ghost predicate Replacing(before: Directory, d: Directory, target: Name, temporary: Name, newFile: File<Node>) {
    && Linked(d)
    && (forall inode <- before.inodes :: inode in d.inodes && d.inodes[inode] == before.inodes[inode])
    && OldOrNew(before, d, d.visible, target, temporary, newFile)
    && forall image <- d.surviving ::
         image in before.surviving || OldOrNew(before, d, image, target, temporary, newFile)
  }

  /** Before the rename, no image shows the new file. */
  ghost predicate NotYet(before: Directory, d: Directory, target: Name, temporary: Name, inode: Inode) {
    && temporary in d.visible && d.visible[temporary] == inode && inode in d.inodes && inode !in before.inodes
    && SameEntry(d.visible, before.visible, target)
    && forall image <- d.surviving :: image in before.surviving || SameEntry(image, before.visible, target)
  }

  ghost predicate Trace(h: seq<Directory>, before: Directory, target: Name, temporary: Name, newFile: File<Node>) {
    && |h| > 0 && h[0] == before
    && (forall d <- h :: Replacing(before, d, target, temporary, newFile))
    && forall k | 0 < k < |h| :: SystemCall(h[k - 1], h[k])
  }

  lemma Longer(h: seq<Directory>, next: Directory, before: Directory, target: Name, temporary: Name,
               newFile: File<Node>)
    requires Trace(h, before, target, temporary, newFile)
    requires Replacing(before, next, target, temporary, newFile) && SystemCall(h[|h| - 1], next)
    ensures Trace(h + [next], before, target, temporary, newFile)
  {
    var all := h + [next];
    forall k | 0 < k < |all| ensures SystemCall(all[k - 1], all[k]) {
      if k < |h| {
        assert SystemCall(h[k - 1], h[k]);
      }
    }
  }

  lemma Starts(before: Directory, target: Name, temporary: Name, newFile: File<Node>)
    requires Linked(before)
    ensures Trace([before], before, target, temporary, newFile)
  {
  }

  lemma Created(before: Directory, target: Name, temporary: Name, newFile: File<Node>, inode: Inode, mode: nat)
    requires Linked(before) && temporary != target && temporary !in before.visible && inode !in before.inodes
    ensures var next := Create(before, temporary, inode, mode);
            && Replacing(before, next, target, temporary, newFile) && NotYet(before, next, target, temporary, inode)
            && SystemCall(before, next)
            && next.visible == before.visible[temporary := inode]
  {
  }

  lemma Changed(
    before: Directory, d: Directory, target: Name, temporary: Name, newFile: File<Node>, inode: Inode, file: File<Node>)
    requires Replacing(before, d, target, temporary, newFile) && NotYet(before, d, target, temporary, inode)
    ensures var next := SetFile(d, inode, file);
            && Replacing(before, next, target, temporary, newFile) && NotYet(before, next, target, temporary, inode)
            && SystemCall(d, next)
  {
    var next := SetFile(d, inode, file);
    forall image | image in next.surviving
      ensures image in before.surviving || OldOrNew(before, next, image, target, temporary, newFile)
    {
      assert image in before.surviving || OldOrNew(before, d, image, target, temporary, newFile);
    }
  }

  lemma Renamed(before: Directory, d: Directory, target: Name, temporary: Name, newFile: File<Node>, inode: Inode)
    requires Replacing(before, d, target, temporary, newFile) && NotYet(before, d, target, temporary, inode)
    requires temporary != target && temporary !in before.visible && d.inodes[inode] == newFile
    requires d.visible == before.visible[temporary := inode]
    ensures var next := Rename(d, temporary, target);
            && Replacing(before, next, target, temporary, newFile) && SystemCall(d, next)
            && next.visible == before.visible[target := inode]
  {
    var next := Rename(d, temporary, target);
    assert next.visible == before.visible[target := inode];
    forall image | image in next.surviving
      ensures image in before.surviving || OldOrNew(before, next, image, target, temporary, newFile)
    {
      if image != next.visible {
        assert image in before.surviving || OldOrNew(before, d, image, target, temporary, newFile);
      }
    }
  }

  lemma Removed(before: Directory, d: Directory, target: Name, temporary: Name, newFile: File<Node>, inode: Inode)
    requires Replacing(before, d, target, temporary, newFile) && NotYet(before, d, target, temporary, inode)
    requires temporary != target && temporary !in before.visible
    requires d.visible == before.visible[temporary := inode]
    ensures var next := Unlink(d, temporary);
            && Replacing(before, next, target, temporary, newFile) && SystemCall(d, next)
            && next.visible == before.visible
  {
    var next := Unlink(d, temporary);
    assert next.visible == before.visible;
    forall image | image in next.surviving
      ensures image in before.surviving || OldOrNew(before, next, image, target, temporary, newFile)
    {
      if image != next.visible {
        assert image in before.surviving || OldOrNew(before, d, image, target, temporary, newFile);
      }
    }
  }

  lemma RemovedTaken(before: Directory, target: Name, temporary: Name, newFile: File<Node>)
    requires Linked(before) && temporary != target && temporary in before.visible
    ensures var next := Unlink(before, temporary);
            Replacing(before, next, target, temporary, newFile) && SystemCall(before, next)
  {
  }

  /** The target is the new file, and no other name or file has changed. */
  ghost predicate OnlyReplaced(before: Directory, d: Directory, target: Name, newFile: File<Node>) {
    && target in d.visible && d.visible == before.visible[target := d.visible[target]]
    && d.visible[target] in d.inodes && d.inodes[d.visible[target]] == newFile
    && forall inode <- before.inodes :: inode in d.inodes && d.inodes[inode] == before.inodes[inode]
  }

  predicate IsFolder(d: Directory, name: Name) {
    && name in d.visible && d.visible[name] in d.inodes
    && d.inodes[d.visible[name]].data.Whole? && d.inodes[d.visible[name]].data.value.Folder?
  }

  /** A regular file to which no more than `content` has been written. */
  predicate Unfinished(file: File<Node>, content: Bytes) {
    file.data.Partial? || file.data.value == Text(content)
  }

  /** Nothing has changed, except that the temporary may be left, or that what had its name, if it could be
      removed, may be gone. */
  ghost predicate Kept(before: Directory, d: Directory, temporary: Name, content: Bytes) {
    && (forall name | name != temporary :: SameEntry(d.visible, before.visible, name))
    && (forall inode <- before.inodes :: inode in d.inodes && d.inodes[inode] == before.inodes[inode])
    && (temporary in before.visible ==>
          SameEntry(d.visible, before.visible, temporary)
          || (temporary !in d.visible && !IsFolder(before, temporary)))
    && (temporary in d.visible && temporary !in before.visible ==>
          d.visible[temporary] in d.inodes && Unfinished(d.inodes[d.visible[temporary]], content))
  }

  lemma KeptClean(before: Directory, d: Directory, temporary: Name, content: Bytes)
    requires Kept(before, d, temporary, content) && temporary !in before.visible && temporary !in d.visible
    ensures d.visible == before.visible
  {
    assert forall name | name != temporary :: SameEntry(d.visible, before.visible, name);
    forall name ensures (name in d.visible <==> name in before.visible)
                        && (name in d.visible ==> d.visible[name] == before.visible[name]) {
      if name != temporary {
        assert SameEntry(d.visible, before.visible, name);
      }
    }
  }

  // ---------------------------------------------------------------- the workspace's directories

  type Folders = map<Parent, Directory>

  predicate AllLinked(folders: Folders) {
    forall parent <- folders :: Linked(folders[parent])
  }

  /** The path is accepted, the directory it leads to can be opened, and the target is missing or a regular file. */
  predicate WritablePath(folders: Folders, path: RequestedPath) {
    && StaysInside(path) && HasFileName(path)
    && ParentOf(path) in folders && Writable(folders[ParentOf(path)], TargetOf(path))
  }

  /** Whether the request and what is at the target allow the write. */
  predicate Accepted(folders: Folders, path: RequestedPath, content: Bytes) {
    |content| <= MAX_WRITE_BYTES && WritablePath(folders, path)
  }

  /** The target of `path` has become exactly the content, with the permissions of what was there, and nothing else
      has changed. */
  ghost predicate Wrote(before: Folders, after: Folders, path: RequestedPath, content: Bytes, defaultMode: nat)
    requires WritablePath(before, path)
  {
    var parent, target := ParentOf(path), TargetOf(path);
    && parent in after && after == before[parent := after[parent]]
    && OnlyReplaced(before[parent], after[parent], target, NewFile(before[parent], target, content, defaultMode))
  }

  /** What a write that has gone well leaves: at the target one synced file with the whole content, whose mode is that
      of the file that was there, or that of any new file if none was; every other name stands for what it did. */
  lemma WroteMeaning(before: Folders, after: Folders, path: RequestedPath, content: Bytes, defaultMode: nat)
    requires AllLinked(before) && WritablePath(before, path) && Wrote(before, after, path, content, defaultMode)
    ensures after.Keys == before.Keys
    ensures forall other <- before | other != ParentOf(path) :: after[other] == before[other]
    ensures var was, now, target := before[ParentOf(path)], after[ParentOf(path)], TargetOf(path);
            && target in now.visible && now.visible[target] in now.inodes
            && var file := now.inodes[now.visible[target]];
               && file.data == Whole(Text(content)) && file.synced
               && (target !in was.visible ==> file.mode == defaultMode)
               && (target in was.visible ==> file.mode == was.inodes[was.visible[target]].mode)
    ensures var was, now := before[ParentOf(path)], after[ParentOf(path)];
            && now.visible.Keys == was.visible.Keys + {TargetOf(path)}
            && forall name <- was.visible | name != TargetOf(path) ::
                 && now.visible[name] == was.visible[name]
                 && now.inodes[now.visible[name]] == was.inodes[was.visible[name]]
  {
  }

  /** At most 1048576 bytes, to a relative path that leads nowhere outside, ends in a name, and has a directory that is
      there, in which that name is missing or stands for a regular file. */
  lemma AcceptedMeaning(folders: Folders, path: RequestedPath, content: Bytes)
    requires AllLinked(folders)
    ensures Accepted(folders, path, content) <==>
            && |content| <= 1048576
            && (forall component <- path :: component.Normal? || component.CurDir?)
            && path != [] && path[|path| - 1].Normal?
            && ParentOf(path) in folders
            && var d, target := folders[ParentOf(path)], Named(path[|path| - 1].name);
               target in d.visible ==> exists bytes :: d.inodes[d.visible[target]].data == Whole(Text(bytes))
  {
  }

  /** Nothing has changed, except that next to the target a temporary may have come or gone. */
  ghost predicate Untouched(
    before: Folders, after: Folders, path: RequestedPath, temporary: FileTree.FileName, content: Bytes)
  {
    || after == before
    || ( && Accepted(before, path, content)
         && var parent := ParentOf(path);
            && parent in after && after == before[parent := after[parent]]
            && Kept(before[parent], after[parent], Named(temporary), content))
  }

  /** The name stands for nothing next to the target. */
  predicate Unused(folders: Folders, path: RequestedPath, temporary: FileTree.FileName) {
    path != [] && ParentOf(path) in folders ==> Named(temporary) !in folders[ParentOf(path)].visible
  }

  ghost predicate ShowsSame(before: Folders, after: Folders) {
    after.Keys == before.Keys && forall parent <- before :: after[parent].visible == before[parent].visible
  }

  // ---------------------------------------------------------------- what comparing states tells

  function StateOf(d: Directory, target: Name, hash: Bytes -> string): Execution.WriteTargetState
    requires Writable(d, target)
  {
    if target in d.visible then Execution.Existing(hash(d.inodes[d.visible[target]].data.value.bytes))
    else Execution.Missing
  }

  function ContentsOf(d: Directory, target: Name): Option<Bytes>
    requires Writable(d, target)
  {
    if target in d.visible then Some(d.inodes[d.visible[target]].data.value.bytes) else None
  }

  function StateAt(folders: Folders, path: RequestedPath, hash: Bytes -> string): Execution.WriteTargetState
    requires WritablePath(folders, path)
  {
    StateOf(folders[ParentOf(path)], TargetOf(path), hash)
  }

  function ContentsAt(folders: Folders, path: RequestedPath): Option<Bytes>
    requires WritablePath(folders, path)
  {
    ContentsOf(folders[ParentOf(path)], TargetOf(path))
  }

  /** The same contents, or missing both, or different contents with the same hash. */
  predicate SameUpToHash(a: Option<Bytes>, b: Option<Bytes>, hash: Bytes -> string) {
    a == b || (a.Some? && b.Some? && Encoding.Collision(hash, a.value, b.value))
  }

  /** The state recorded at review and the state found at approval are equal exactly if the target has the
      same contents, or is missing both times, or has different contents with the same hash. */
  lemma StateDecides(reviewed: Directory, now: Directory, target: Name, hash: Bytes -> string)
    requires Writable(reviewed, target) && Writable(now, target)
    ensures StateOf(reviewed, target, hash) == StateOf(now, target, hash) <==>
            SameUpToHash(ContentsOf(reviewed, target), ContentsOf(now, target), hash)
  {
  }

  predicate Shows(d: Directory, name: Name, file: File<Node>) {
    name in d.visible && d.visible[name] in d.inodes && d.inodes[d.visible[name]] == file
  }

  /** At any moment of a write, and after power loss at any moment, a reader finds the target as it was, as
      it could have come back before the write, or exactly the new file. */
  lemma NeverHalfWritten(
    h: seq<Directory>, k: nat, before: Directory, target: Name, temporary: Name, newFile: File<Node>, lost: Directory)
    requires Trace(h, before, target, temporary, newFile) && newFile.synced && k < |h|
    requires AfterPowerLoss(h[k], lost)
    ensures SameEntry(h[k].visible, before.visible, target) || Shows(h[k], target, newFile)
    ensures || (exists image <- before.surviving :: SameEntry(lost.visible, image, target))
            || Shows(lost, target, newFile)
  {
    var d := h[k];
    assert Replacing(before, d, target, temporary, newFile) && Linked(before) by {
      assert Replacing(before, h[0], target, temporary, newFile);
    }
    var image := lost.visible;
    if image in before.surviving {
      assert SameEntry(lost.visible, image, target);
    } else {
      assert OldOrNew(before, d, image, target, temporary, newFile);
      if SameEntry(image, before.visible, target) {
        assert before.visible in before.surviving;
      }
    }
  }

  // ---------------------------------------------------------------- one directory

  /** An open directory handle. */
  class Folder {
    var directory: Directory

    constructor (directory: Directory)
      ensures this.directory == directory
    {
      this.directory := directory;
    }

    /** The target has to be missing or a regular file. */
    method InspectTarget(target: Name, reliable: bool) returns (result: Result<(), WriteError>)
      requires Linked(directory)
      ensures result.Ok? ==> Writable(directory, target)
      ensures reliable ==> (result.Ok? <==> Writable(directory, target))
    {
      var failed: bool := *;
      if failed && !reliable {
        return Err(IoFailed);
      }
      if target in directory.visible {
        var file := directory.inodes[directory.visible[target]];
        if file.data.Whole? && file.data.value.SymbolicLink? {
          return Err(TargetIsLink);
        }
        if !Regular(file) {
          return Err(TargetNotRegular);
        }
      }
      return Ok(());
    }

    /** Whether the target is there, and the hash of all that is in it, read a buffer at a time. */
    method HashTarget(target: Name, hash: Bytes -> string, reliable: bool)
      returns (result: Result<Execution.WriteTargetState, WriteError>)
      requires Linked(directory) && Writable(directory, target)
      ensures result.Ok? ==> result.value == StateOf(directory, target, hash)
      ensures reliable ==> result.Ok?
    {
      if target !in directory.visible {
        return Ok(Execution.Missing);
      }
      var contents := directory.inodes[directory.visible[target]].data.value.bytes;
      var hashed: Bytes := [];
      var read := 0;
      while read < |contents|
        invariant read <= |contents| && hashed == contents[..read]
      {
        var failed: bool := *;
        if failed && !reliable {
          return Err(IoFailed);
        }
        var count: nat := *;
        var bytesRead := if 0 < count <= BUFFER_SIZE && count <= |contents| - read then count else 1;
        hashed := hashed + contents[read..read + bytesRead];
        read := read + bytesRead;
      }
      assert contents[..read] == contents;
      return Ok(Execution.Existing(hash(hashed)));
    }

    method SetTemporary(
      ghost before: Directory, ghost target: Name, ghost temporary: Name, ghost newFile: File<Node>,
      ghost h: seq<Directory>,
      inode: Inode, file: File<Node>)
      returns (ghost trace: seq<Directory>)
      requires Trace(h, before, target, temporary, newFile) && h[|h| - 1] == directory
      requires Replacing(before, directory, target, temporary, newFile)
               && NotYet(before, directory, target, temporary, inode)
      modifies this
      ensures Trace(trace, before, target, temporary, newFile) && trace[|trace| - 1] == directory
      ensures Replacing(before, directory, target, temporary, newFile)
              && NotYet(before, directory, target, temporary, inode)
      ensures directory == SetFile(old(directory), inode, file)
    {
      Changed(before, directory, target, temporary, newFile, inode, file);
      directory := SetFile(directory, inode, file);
      Longer(h, directory, before, target, temporary, newFile);
      trace := h + [directory];
    }

    /** The calls on the temporary's handle. A write that fails may have written a part. */
    method FillTemporary(
      ghost before: Directory, ghost target: Name, ghost temporary: Name, ghost newFile: File<Node>,
      ghost h: seq<Directory>,
      inode: Inode, content: Bytes, permissions: Option<nat>, reliable: bool)
      returns (ok: bool, ghost trace: seq<Directory>)
      requires inode in directory.inodes
      requires Trace(h, before, target, temporary, newFile) && h[|h| - 1] == directory
      requires Replacing(before, directory, target, temporary, newFile)
               && NotYet(before, directory, target, temporary, inode)
      requires var mode := if permissions.Some? then permissions.value else directory.inodes[inode].mode;
               newFile == File(Whole(Text(content)), mode, true)
      requires Unfinished(directory.inodes[inode], content)
      modifies this
      ensures Trace(trace, before, target, temporary, newFile) && trace[|trace| - 1] == directory
      ensures Replacing(before, directory, target, temporary, newFile)
              && NotYet(before, directory, target, temporary, inode)
      ensures directory.visible == old(directory).visible
      ensures inode in directory.inodes && Unfinished(directory.inodes[inode], content)
      ensures ok ==> directory.inodes[inode] == newFile
      ensures reliable ==> ok
    {
      trace := h;
      var failed: bool := *;
      if permissions.Some? {
        if failed && !reliable {
          return false, trace;
        }
        trace := SetTemporary(before, target, temporary, newFile, trace, inode,
          directory.inodes[inode].(mode := permissions.value));
      }
      failed := *;
      if failed && !reliable {
        return false, trace;
      }
      trace := SetTemporary(before, target, temporary, newFile, trace, inode,
        directory.inodes[inode].(data := Whole(Text(content))));
      failed := *;
      if failed && !reliable {
        return false, trace;
      }
      trace := SetTemporary(before, target, temporary, newFile, trace, inode, directory.inodes[inode].(synced := true));
      return true, trace;
    }

    /** The finished temporary is renamed over the target; otherwise it is removed, if it can be. */
    method Conclude(
      ghost before: Directory, target: Name, temporary: Name, ghost newFile: File<Node>, ghost h: seq<Directory>,
      ghost inode: Inode, ghost content: Bytes, written: bool, reliable: bool, removable: bool)
      returns (result: Result<(), WriteError>, ghost trace: seq<Directory>)
      requires Trace(h, before, target, temporary, newFile) && h[|h| - 1] == directory
      requires Replacing(before, directory, target, temporary, newFile)
               && NotYet(before, directory, target, temporary, inode)
      requires temporary != target && temporary !in before.visible
      requires directory.visible == before.visible[temporary := inode] && Unfinished(directory.inodes[inode], content)
      requires written ==> directory.inodes[inode] == newFile
      modifies this
      ensures Linked(directory)
      ensures Trace(trace, before, target, temporary, newFile) && trace[|trace| - 1] == directory
      ensures result.Ok? ==> OnlyReplaced(before, directory, target, newFile)
      ensures result.Err? ==> Kept(before, directory, temporary, content)
      ensures result.Err? && removable ==> temporary !in directory.visible
      ensures written && reliable ==> result.Ok?
    {
      trace := h;
      var failed: bool, removalFailed: bool := *, *;
      if written && !(failed && !reliable) {
        Renamed(before, directory, target, temporary, newFile, inode);
        directory := Rename(directory, temporary, target);
        Longer(trace, directory, before, target, temporary, newFile);
        trace := trace + [directory];
        return Ok(()), trace;
      }
      if !removalFailed || removable {
        Removed(before, directory, target, temporary, newFile, inode);
        directory := Unlink(directory, temporary);
        Longer(trace, directory, before, target, temporary, newFile);
        trace := trace + [directory];
      }
      return Err(IoFailed), trace;
    }

    /** The temporary could not be created. What has its name is removed all the same, if it can be. */
    method RemoveTaken(
      ghost target: Name, temporary: Name, ghost newFile: File<Node>, ghost content: Bytes, removable: bool)
      returns (ghost trace: seq<Directory>)
      requires Linked(directory) && target != temporary
      modifies this
      ensures Linked(directory) && Kept(old(directory), directory, temporary, content)
      ensures Trace(trace, old(directory), target, temporary, newFile) && trace[|trace| - 1] == directory
      ensures removable && !IsFolder(old(directory), temporary) ==> temporary !in directory.visible
    {
      ghost var before := directory;
      Starts(before, target, temporary, newFile);
      trace := [before];
      var failed: bool := *;
      if temporary in directory.visible && !IsFolder(directory, temporary) && (!failed || removable) {
        RemovedTaken(before, target, temporary, newFile);
        directory := Unlink(directory, temporary);
        Longer(trace, directory, before, target, temporary, newFile);
        trace := trace + [directory];
      }
    }

    /** Create the temporary, give it the target's permissions, write and sync it, rename it over the target;
        after any failure try to remove it, which works if it is `removable`. */
    method ReplaceThroughTemporary(
      target: Name, content: Bytes, temporary: Name, defaultMode: nat, reliable: bool, removable: bool)
      returns (result: Result<(), WriteError>, ghost trace: seq<Directory>)
      requires Linked(directory) && target != temporary && Writable(directory, target)
      modifies this
      ensures Linked(directory)
      ensures Trace(trace, old(directory), target, temporary, NewFile(old(directory), target, content, defaultMode))
      ensures trace[|trace| - 1] == directory
      ensures result.Ok? ==>
                OnlyReplaced(old(directory), directory, target, NewFile(old(directory), target, content, defaultMode))
      ensures result.Err? ==> Kept(old(directory), directory, temporary, content)
      ensures result.Err? && removable && !IsFolder(old(directory), temporary) ==> temporary !in directory.visible
      ensures reliable && temporary !in old(directory).visible ==> result.Ok?
    {
      ghost var before := directory;
      ghost var newFile := NewFile(before, target, content, defaultMode);
      var permissions :=
        if target in directory.visible then Some(directory.inodes[directory.visible[target]].mode) else None;
      Starts(before, target, temporary, newFile);
      trace := [before];
      var failed: bool := *;
      if (failed && !reliable) || temporary in directory.visible {
        trace := RemoveTaken(target, temporary, newFile, content, removable);
        return Err(IoFailed), trace;
      }
      FreshExists(directory.inodes.Keys);
      var inode: nat :| inode !in directory.inodes;
      Created(before, target, temporary, newFile, inode, defaultMode);
      directory := Create(directory, temporary, inode, defaultMode);
      Longer(trace, directory, before, target, temporary, newFile);
      trace := trace + [directory];

      var written;
      written, trace := FillTemporary(before, target, temporary, newFile, trace, inode, content, permissions, reliable);
      result, trace :=
          Conclude(before, target, temporary, newFile, trace, inode, content, written, reliable, removable);
    }
  }

  // ---------------------------------------------------------------- the capability

  class Workspace {
    var folders: Folders

    constructor (folders: Folders)
      ensures this.folders == folders
    {
      this.folders := folders;
    }

    method RevalidateWriteTarget(path: RequestedPath, reliable: bool) returns (result: Result<(), WriteError>)
      requires AllLinked(folders)
      ensures result.Ok? ==> WritablePath(folders, path)
      ensures reliable ==> (result.Ok? <==> WritablePath(folders, path))
    {
      var checked := CheckComponents(path);
      if checked.Err? {
        return checked;
      }
      if path == [] {
        return Err(NoParent);
      }
      var failed: bool := *;
      if (failed && !reliable) || ParentOf(path) !in folders {
        return Err(ParentUnreachable);
      }
      if !HasFileName(path) {
        // All that is left is the directory itself.
        return Err(TargetNotRegular);
      }
      var folder := new Folder(folders[ParentOf(path)]);
      result := folder.InspectTarget(TargetOf(path), reliable);
    }

    /** The state recorded for review. */
    method CaptureWriteTargetState(path: RequestedPath, hash: Bytes -> string, reliable: bool)
      returns (result: Result<Execution.WriteTargetState, WriteError>)
      requires AllLinked(folders)
      ensures result.Ok? ==> WritablePath(folders, path) && result.value == StateAt(folders, path, hash)
      ensures reliable ==> (result.Ok? <==> WritablePath(folders, path))
    {
      var checked := RevalidateWriteTarget(path, reliable);
      if checked.Err? {
        return Err(checked.error);
      }
      var folder := new Folder(folders[ParentOf(path)]);
      result := folder.HashTarget(TargetOf(path), hash, reliable);
    }

    /** Replace the target by way of a temporary in the same directory. `trace` records that directory after
        every system call. */
    method WriteTextFile(path: RequestedPath, content: Bytes, temporary: FileTree.FileName, defaultMode: nat,
                         reliable: bool, removable: bool)
      returns (result: Result<(), WriteError>, ghost trace: seq<Directory>)
      requires AllLinked(folders) && (HasFileName(path) ==> TargetOf(path) != Named(temporary))
      modifies this
      ensures AllLinked(folders)
      ensures result.Ok? ==>
                Accepted(old(folders), path, content) && Wrote(old(folders), folders, path, content, defaultMode)
      ensures result.Err? ==> Untouched(old(folders), folders, path, temporary, content)
      ensures trace != [] ==>
                && Accepted(old(folders), path, content) && ParentOf(path) in folders
                && var parent, target := ParentOf(path), TargetOf(path);
                && Trace(trace, old(folders)[parent], target, Named(temporary),
                         NewFile(old(folders)[parent], target, content, defaultMode))
                && trace[|trace| - 1] == folders[parent]
      ensures trace == [] ==> folders == old(folders)
      ensures result.Err? && removable && Unused(old(folders), path, temporary) ==> ShowsSame(old(folders), folders)
      ensures reliable && Unused(old(folders), path, temporary) ==>
                (result.Ok? <==> Accepted(old(folders), path, content))
    {
      trace := [];
      if |content| > MAX_WRITE_BYTES {
        return Err(ContentTooLong), trace;
      }
      var checked := CheckComponents(path);
      if checked.Err? {
        return checked, trace;
      }
      if !HasFileName(path) {
        return Err(NoFileName), trace;
      }
      var revalidated := RevalidateWriteTarget(path, reliable);
      if revalidated.Err? {
        return revalidated, trace;
      }
      var failed: bool := *;
      if failed && !reliable {
        return Err(IoFailed), trace;
      }
      var parent := ParentOf(path);
      var folder := new Folder(folders[parent]);
      result, trace := folder.ReplaceThroughTemporary(
        TargetOf(path), content, Named(temporary), defaultMode, reliable, removable);
      if result.Err? && removable && Unused(folders, path, temporary) {
        KeptClean(folders[parent], folder.directory, Named(temporary), content);
      }
      folders := folders[parent := folder.directory];
    }
  }
}
