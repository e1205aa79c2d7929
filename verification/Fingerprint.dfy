/** The fingerprint walk (src/workspace_fingerprint.rs). Every system call answers for itself: the workspace may be
    changed between any two of them. The fingerprint is that of the files the walk has read; if nobody changes the
    workspace meanwhile, those are its covered files, in whatever order its directories are listed. */
module Fingerprint {
  import opened Wrappers
  import opened FileTree
  import opened PathOrder
  import opened Encoding

  datatype WalkError = LinkFound | IoFailed

  type Hash = seq<Byte> -> string

  // ---------------------------------------------------------------- what the system calls answer

  datatype Kind = Regular | Folder | Link | Else

  datatype Answer =
    | Inspected(path: Path, kind: Option<Kind>)
    | Listed(path: Path, names: set<FileName>)
    | Contents(path: Path, contents: Bytes)

  function KindOf(fs: Tree, p: Path): Option<Kind> {
    if p !in fs then None
    else match fs[p]
      case File(_) => Some(Regular)
      case Directory => Some(Folder)
      case SymbolicLink => Some(Link)
      case Other => Some(Else)
  }

  function NamesIn(fs: Tree, dir: Path): set<FileName> {
    set p | p in Children(fs, dir) :: p[|dir|]
  }

  /** What this tree answers. */
  predicate Answers(fs: Tree, answer: Answer) {
    match answer
    case Inspected(path, kind) => kind == KindOf(fs, path)
    case Listed(path, names) => IsDirectory(fs, path) && names == NamesIn(fs, path)
    case Contents(path, contents) => path in fs && fs[path] == File(contents)
  }

  /** While the workspace stands still, every answer is that of one tree. */
  ghost predicate Answered(fs: Tree, still: bool, log: seq<Answer>) {
    still ==> forall answer <- log :: Answers(fs, answer)
  }

  /** What `symlink_metadata` tells of a path: nothing is there, or what kind of thing; or the call fails. No path is
      longer than a machine word can say. */
  method Inspect(fs: Tree, still: bool, path: Path, reliable: bool, ghost log: seq<Answer>)
    returns (kind: Result<Option<Kind>, WalkError>, ghost more: seq<Answer>)
    requires WellFormed(fs) && Answered(fs, still, log)
    ensures kind.Ok? ==> more == log + [Inspected(path, kind.value)]
    ensures kind.Ok? && kind.value.Some? ==> PathLength(path) < WORD
    ensures kind.Err? ==> kind.error == IoFailed && more == log
    ensures Answered(fs, still, more)
    ensures still && reliable ==> kind.Ok?
  {
    var failed: bool, found: Option<Kind> := *, *;
    if still {
      found := KindOf(fs, path);
    }
    if (failed && !(still && reliable)) || (found.Some? && PathLength(path) >= WORD) {
      return Err(IoFailed), log;
    }
    return Ok(found), log + [Inspected(path, found)];
  }

  /** The entries of a directory, or of the directory a link leads to. */
  method List(fs: Tree, still: bool, directory: Path, reliable: bool, ghost log: seq<Answer>)
    returns (names: Result<set<FileName>, WalkError>, ghost more: seq<Answer>)
    requires Answered(fs, still, log)
    ensures names.Ok? ==> more == log + [Listed(directory, names.value)]
    ensures names.Err? ==> names.error == IoFailed && more == log
    ensures Answered(fs, still, more) && (still && names.Ok? ==> names.value == NamesIn(fs, directory))
    ensures still && reliable && IsDirectory(fs, directory) ==> names.Ok?
  {
    var failed: bool, found: set<FileName> := *, *;
    if still {
      found := NamesIn(fs, directory);
    }
    if (failed && !(still && reliable)) || (still && !IsDirectory(fs, directory)) {
      return Err(IoFailed), log;
    }
    return Ok(found), log + [Listed(directory, found)];
  }

  /** The contents of a file, or of the file a link leads to. */
  method Read(fs: Tree, still: bool, path: Path, reliable: bool, ghost log: seq<Answer>)
    returns (contents: Result<Bytes, WalkError>, ghost more: seq<Answer>)
    requires Answered(fs, still, log)
    ensures contents.Ok? ==> more == log + [Contents(path, contents.value)]
    ensures contents.Err? ==> contents.error == IoFailed && more == log
    ensures Answered(fs, still, more)
    ensures still && reliable && path in fs && fs[path].File? ==> contents.Ok?
  {
    var failed: bool, found: Bytes := *, *;
    if still {
      if path !in fs || !fs[path].File? {
        return Err(IoFailed), log;
      }
      found := fs[path].contents;
    }
    if failed && !(still && reliable) {
      return Err(IoFailed), log;
    }
    return Ok(found), log + [Contents(path, found)];
  }

  // ---------------------------------------------------------------- what the answers say of one path

  /** An answer that leads on to `p`, if it is about a directory above it. */
  predicate Leads(answer: Answer, p: Path) {
    match answer
    case Inspected(path, kind) => Under(path, p) ==> kind == Some(Folder)
    case Listed(path, names) => Under(path, p) ==> p[|path|] in names
    case Contents(_, _) => true
  }

  /** And does not deny that there is a regular file. */
  predicate Admits(answer: Answer, p: Path) {
    Leads(answer, p) && (answer.Inspected? && answer.path == p ==> answer.kind == Some(Regular))
  }

  /** As far as the walk could see, the directories above `p` led to it all along. */
  ghost predicate Approached(log: seq<Answer>, p: Path) {
    forall answer <- log :: Leads(answer, p)
  }

  /** And a regular file was there all along. */
  ghost predicate Standing(log: seq<Answer>, p: Path) {
    forall answer <- log :: Admits(answer, p)
  }

  ghost predicate Seen(log: seq<Answer>, p: Path) {
    exists kind :: Inspected(p, kind) in log
  }

  ghost predicate LinkSeen(log: seq<Answer>, root: Path) {
    exists rel :: VisitedName(rel) && Inspected(root + rel, Some(Link)) in log
  }

  /** Nothing goes well once a link has been seen, and none is reported without one. */
  ghost predicate LinksHeeded<T>(root: Path, log: seq<Answer>, more: seq<Answer>, result: Result<T, WalkError>) {
    && (result.Ok? && LinkSeen(more, root) ==> LinkSeen(log, root))
    && (result.Err? && result.error == LinkFound ==> LinkSeen(more, root))
  }

  /** More answers admit no more. */
  lemma FewerAnswers(log: seq<Answer>, more: seq<Answer>, p: Path)
    requires log <= more
    ensures Approached(more, p) ==> Approached(log, p)
    ensures Standing(more, p) ==> Standing(log, p)
    ensures Seen(log, p) ==> Seen(more, p)
  {
    if Approached(more, p) {
      forall answer | answer in log ensures Leads(answer, p) {
        assert answer in more;
      }
    }
    if Standing(more, p) {
      forall answer | answer in log ensures Admits(answer, p) {
        assert answer in more;
      }
    }
  }

  lemma StillAnswered(log: seq<Answer>, more: seq<Answer>, answer: Answer)
    requires log <= more && answer in log
    ensures answer in more
  {
  }

  /** Nothing is reached by way of what is no directory. */
  lemma NotReached(log: seq<Answer>, entry: Path, kind: Option<Kind>, p: Path)
    requires Inspected(entry, kind) in log && kind != Some(Folder) && Under(entry, p)
    ensures !Approached(log, p) && !Standing(log, p)
  {
    assert !Leads(Inspected(entry, kind), p);
    assert !Admits(Inspected(entry, kind), p);
  }

  lemma NotRegular(log: seq<Answer>, p: Path, kind: Option<Kind>)
    requires Inspected(p, kind) in log && kind != Some(Regular)
    ensures !Standing(log, p)
  {
    assert !Admits(Inspected(p, kind), p);
  }

  // ---------------------------------------------------------------- the walk below one directory

  /** `files` lists files below `dir` by way of `names`, each once, and all that were there all along; whatever the
      answers led to has been inspected. */
  ghost predicate Found(log: seq<Answer>, dir: Path, names: set<FileName>, files: seq<Path>) {
    && Distinct(files)
    && (forall p <- files :: Under(dir, p) && p[|dir|] in names && PathLength(p) < WORD)
    && (forall p <- files :: Inspected(p, Some(Regular)) in log)
    && (forall p :: Under(dir, p) && p[|dir|] in names && Standing(log, p) ==> p in files)
    && (forall p :: Under(dir, p) && p[|dir|] in names && Approached(log, p) ==> Seen(log, p))
  }

  /** Likewise of files at or below `entry`. */
  ghost predicate FoundAt(log: seq<Answer>, entry: Path, files: seq<Path>) {
    && Distinct(files)
    && (forall p <- files :: (p == entry || Under(entry, p)) && PathLength(p) < WORD)
    && (forall p <- files :: Inspected(p, Some(Regular)) in log)
    && (forall p :: (p == entry || Under(entry, p)) && Standing(log, p) ==> p in files)
    && (forall p :: (p == entry || Under(entry, p)) && Approached(log, p) ==> Seen(log, p))
  }

  /** Likewise of all files below `dir`. */
  ghost predicate FoundBelow(log: seq<Answer>, dir: Path, files: seq<Path>) {
    && Distinct(files)
    && (forall p <- files :: Under(dir, p) && PathLength(p) < WORD)
    && (forall p <- files :: Inspected(p, Some(Regular)) in log)
    && (forall p :: Under(dir, p) && Standing(log, p) ==> p in files)
    && (forall p :: Under(dir, p) && Approached(log, p) ==> Seen(log, p))
  }

  lemma DistinctConcat(a: seq<Path>, b: seq<Path>)
    requires Distinct(a) && Distinct(b)
    requires forall p :: p in a ==> p !in b
    ensures Distinct(a + b)
  {
    forall i, j | 0 <= i < j < |a + b| ensures (a + b)[i] != (a + b)[j] {
      if i < |a| <= j {
        assert a[i] in a && b[j - |a|] in b;
      }
    }
  }

  lemma EntryName(dir: Path, name: FileName, p: Path)
    ensures (p == dir + [name] || Under(dir + [name], p)) <==> (Under(dir, p) && p[|dir|] == name)
  {
    var entry := dir + [name];
    assert Under(dir, entry);
    UnderEntry(dir, entry, p);
    if Under(dir, p) {
      assert p[..|dir| + 1] == p[..|dir|] + [p[|dir|]];
    }
  }

  lemma InspectedStill(log: seq<Answer>, more: seq<Answer>, files: seq<Path>)
    requires log <= more && forall p <- files :: Inspected(p, Some(Regular)) in log
    ensures forall p <- files :: Inspected(p, Some(Regular)) in more
  {
    forall p | p in files ensures Inspected(p, Some(Regular)) in more {
      StillAnswered(log, more, Inspected(p, Some(Regular)));
    }
  }

  /** One entry more. */
  lemma FoundMore(log: seq<Answer>, more: seq<Answer>, dir: Path, names: set<FileName>, files: seq<Path>,
                  name: FileName, found: seq<Path>)
    requires log <= more && name !in names
    requires Found(log, dir, names, files) && FoundAt(more, dir + [name], found)
    ensures Found(more, dir, names + {name}, files + found)
  {
    forall p | p in found ensures Under(dir, p) && p[|dir|] == name {
      EntryName(dir, name, p);
    }
    DistinctConcat(files, found);
    InspectedStill(log, more, files);
    forall p | Under(dir, p) && p[|dir|] in names + {name}
      ensures Standing(more, p) ==> p in files + found
      ensures Approached(more, p) ==> Seen(more, p)
    {
      EntryName(dir, name, p);
      FewerAnswers(log, more, p);
    }
  }

  lemma AllFound(log: seq<Answer>, dir: Path, names: set<FileName>, files: seq<Path>)
    requires Listed(dir, names) in log && Found(log, dir, names, files)
    ensures FoundBelow(log, dir, files)
  {
    forall p | Under(dir, p)
      ensures Standing(log, p) ==> p in files
      ensures Approached(log, p) ==> Seen(log, p)
    {
      if Standing(log, p) {
        assert Admits(Listed(dir, names), p);
      }
      if Approached(log, p) {
        assert Leads(Listed(dir, names), p);
      }
    }
  }

  /** An entry that is no directory is a file or brings none. */
  lemma PlainFound(log: seq<Answer>, entry: Path, kind: Option<Kind>)
    requires Inspected(entry, kind) in log && kind != Some(Folder) && PathLength(entry) < WORD
    ensures FoundAt(log, entry, if kind == Some(Regular) then [entry] else [])
  {
    forall p | p == entry || Under(entry, p)
      ensures Standing(log, p) ==> p == entry && kind == Some(Regular)
      ensures Approached(log, p) ==> Seen(log, p)
    {
      if p != entry {
        NotReached(log, entry, kind, p);
      } else if kind != Some(Regular) {
        NotRegular(log, entry, kind);
      }
    }
  }

  lemma FolderFound(log: seq<Answer>, entry: Path, files: seq<Path>)
    requires Inspected(entry, Some(Folder)) in log && FoundBelow(log, entry, files)
    ensures FoundAt(log, entry, files)
  {
    NotRegular(log, entry, Some(Folder));
  }

  predicate InSources(root: Path, p: Path) {
    Under(root, p) && p[|root|] in SOURCE_DIRECTORIES
  }

  /** A link in a source directory is one where the walk looks. */
  lemma LinkInSources(log: seq<Answer>, root: Path, p: Path)
    requires InSources(root, p) && Inspected(p, Some(Link)) in log
    ensures LinkSeen(log, root)
  {
    var rel := p[|root|..];
    assert p == root + rel && rel[0] == p[|root|] && VisitedName(rel);
  }

  /** One answer more, which is no link. */
  lemma NoLinkMore(log: seq<Answer>, root: Path, answer: Answer)
    requires answer.Inspected? ==> answer.kind != Some(Link)
    ensures LinkSeen(log + [answer], root) ==> LinkSeen(log, root)
  {
    if LinkSeen(log + [answer], root) {
      var rel :| VisitedName(rel) && Inspected(root + rel, Some(Link)) in log + [answer];
      assert Inspected(root + rel, Some(Link)) in log;
    }
  }

  lemma NamesAreThere(fs: Tree, dir: Path, name: FileName)
    requires name in NamesIn(fs, dir)
    ensures dir + [name] in fs
  {
    var p :| p in Children(fs, dir) && p[|dir|] == name;
    assert p == p[..|dir|] + [p[|dir|]];
  }

  lemma InSourcesBelow(root: Path, directory: Path, name: FileName)
    requires InSources(root, directory)
    ensures InSources(root, directory + [name])
  {
    assert (directory + [name])[..|root|] == directory[..|root|];
  }

  /** Every regular file below `directory`, in whatever order the directories are listed. */
  method CollectFiles(fs: Tree, still: bool, root: Path, directory: Path, reliable: bool, ghost log: seq<Answer>)
    returns (result: Result<seq<Path>, WalkError>, ghost more: seq<Answer>)
    requires WellFormed(fs) && Answered(fs, still, log)
    requires InSources(root, directory) && PathLength(directory) < WORD
    ensures log <= more && Answered(fs, still, more)
    ensures LinksHeeded(root, log, more, result)
    ensures result.Ok? ==> FoundBelow(more, directory, result.value)
    ensures still && reliable && IsDirectory(fs, directory) ==> result != Err(IoFailed)
    decreases WORD - PathLength(directory), 1
  {
    var listed;
    listed, more := List(fs, still, directory, reliable, log);
    if listed.Err? {
      return Err(IoFailed), more;
    }
    NoLinkMore(log, root, Listed(directory, listed.value));
    var files: seq<Path> := [];
    var rest := listed.value;
    ghost var done: set<FileName> := {};
    while rest != {}
      invariant log <= more && Answered(fs, still, more) && Listed(directory, listed.value) in more
      invariant LinkSeen(more, root) ==> LinkSeen(log, root)
      invariant rest + done == listed.value && rest !! done
      invariant Found(more, directory, done, files)
      decreases rest
    {
      var name: FileName :| name in rest;
      ghost var before := more;
      if still {
        NamesAreThere(fs, directory, name);
      }
      var found;
      found, more := CollectEntry(fs, still, root, directory, name, reliable, more);
      if found.Err? {
        return found, more;
      }
      FoundMore(before, more, directory, done, files, name, found.value);
      StillAnswered(before, more, Listed(directory, listed.value));
      files := files + found.value;
      rest := rest - {name};
      done := done + {name};
    }
    AllFound(more, directory, listed.value, files);
    return Ok(files), more;
  }

  /** One entry of a directory, which may have become something else since it was listed. */
  method CollectEntry(
    fs: Tree, still: bool, root: Path, directory: Path, name: FileName, reliable: bool, ghost log: seq<Answer>)
    returns (found: Result<seq<Path>, WalkError>, ghost more: seq<Answer>)
    requires WellFormed(fs) && Answered(fs, still, log)
    requires InSources(root, directory) && PathLength(directory) < WORD
    ensures log <= more && Answered(fs, still, more)
    ensures LinksHeeded(root, log, more, found)
    ensures found.Ok? ==> FoundAt(more, directory + [name], found.value)
    ensures still && reliable && directory + [name] in fs ==> found != Err(IoFailed)
    decreases WORD - PathLength(directory), 0
  {
    var path := directory + [name];
    InSourcesBelow(root, directory, name);
    var kind;
    kind, more := Inspect(fs, still, path, reliable, log);
    if kind.Err? {
      return Err(IoFailed), more;
    }
    assert Inspected(path, kind.value) in more;
    assert still ==> Answers(fs, Inspected(path, kind.value));
    if kind.value.None? {
      return Err(IoFailed), more;
    }
    if kind.value == Some(Link) {
      LinkInSources(more, root, path);
      return Err(LinkFound), more;
    }
    NoLinkMore(log, root, Inspected(path, kind.value));
    if kind.value == Some(Folder) {
      PathLengthSplit(directory, [name]);
      ghost var asked := more;
      found, more := CollectFiles(fs, still, root, path, reliable, more);
      StillAnswered(asked, more, Inspected(path, Some(Folder)));
      if found.Ok? {
        FolderFound(more, path, found.value);
      }
    } else {
      PlainFound(more, path, kind.value);
      found := Ok(if kind.value == Some(Regular) then [path] else []);
    }
  }

  // ---------------------------------------------------------------- the walk over the workspace

  /** Relative names the walk has dealt with after the given root files and source directories. */
  predicate DealtWith(rel: Path, rootFiles: seq<FileName>, directories: seq<FileName>) {
    || (|rel| == 1 && rel[0] in rootFiles)
    || (|rel| >= 1 && rel[0] in directories)
  }

  /** `files` lists files among the covered names dealt with, each once, and all that were there all along; whatever
      the answers led to has been inspected. */
  ghost predicate Gathered(log: seq<Answer>, root: Path, files: seq<Path>, rootFiles: seq<FileName>,
                           directories: seq<FileName>) {
    && Distinct(files)
    && (forall rel <- files :: CoveredName(rel) && DealtWith(rel, rootFiles, directories))
    && (forall rel <- files :: PathLength(root + rel) < WORD && Inspected(root + rel, Some(Regular)) in log)
    && (forall rel :: CoveredName(rel) && DealtWith(rel, rootFiles, directories) && Standing(log, root + rel) ==>
                      rel in files)
    && (forall rel :: VisitedName(rel) && DealtWith(rel, rootFiles, directories) && Approached(log, root + rel) ==>
                      Seen(log, root + rel))
  }

  /** Likewise of the names that begin with `name`. */
  ghost predicate Added(log: seq<Answer>, root: Path, name: FileName, added: seq<Path>) {
    && Distinct(added)
    && (forall rel <- added :: CoveredName(rel) && rel[0] == name)
    && (forall rel <- added :: PathLength(root + rel) < WORD && Inspected(root + rel, Some(Regular)) in log)
    && (forall rel :: CoveredName(rel) && rel[0] == name && Standing(log, root + rel) ==> rel in added)
    && (forall rel :: VisitedName(rel) && rel[0] == name && Approached(log, root + rel) ==> Seen(log, root + rel))
  }

  /** With these names the walk deals next with those that begin with `name`, which it has not done before. */
  ghost predicate NextIs(
    name: FileName, rootFiles: seq<FileName>, directories: seq<FileName>, rootFiles': seq<FileName>,
    directories': seq<FileName>)
  {
    forall rel | VisitedName(rel) ::
      && (DealtWith(rel, rootFiles', directories') <==> DealtWith(rel, rootFiles, directories) || rel[0] == name)
      && (rel[0] == name ==> !DealtWith(rel, rootFiles, directories))
  }

  /** The step of either loop. */
  lemma GatheredMore(
    log: seq<Answer>, more: seq<Answer>, root: Path, files: seq<Path>, added: seq<Path>, name: FileName,
    rootFiles: seq<FileName>, directories: seq<FileName>, rootFiles': seq<FileName>, directories': seq<FileName>)
    requires log <= more && Gathered(log, root, files, rootFiles, directories) && Added(more, root, name, added)
    requires NextIs(name, rootFiles, directories, rootFiles', directories')
    ensures Gathered(more, root, files + added, rootFiles', directories')
  {
    forall rel | rel in files ensures rel !in added && VisitedName(rel) {
      assert VisitedName(rel);
    }
    DistinctConcat(files, added);
    forall rel | rel in files + added
      ensures CoveredName(rel) && DealtWith(rel, rootFiles', directories')
      ensures PathLength(root + rel) < WORD && Inspected(root + rel, Some(Regular)) in more
    {
      assert VisitedName(rel);
      if rel in files {
        StillAnswered(log, more, Inspected(root + rel, Some(Regular)));
      }
    }
    forall rel | VisitedName(rel) && DealtWith(rel, rootFiles', directories')
      ensures CoveredName(rel) && Standing(more, root + rel) ==> rel in files + added
      ensures Approached(more, root + rel) ==> Seen(more, root + rel)
    {
      FewerAnswers(log, more, root + rel);
    }
  }

  lemma NamesDiffer()
    ensures SRC !in ROOT_FILES && TESTS !in ROOT_FILES
  {
    assert SRC[0] == 115 && TESTS[0] == 116 && CARGO_TOML[0] == CARGO_LOCK[0] == 67 && BUILD_RS[0] == 98;
  }

  lemma RootFileNext(i: nat)
    requires i < |ROOT_FILES|
    ensures NextIs(ROOT_FILES[i], ROOT_FILES[..i], [], ROOT_FILES[..i + 1], [])
    ensures forall rel | VisitedName(rel) && rel[0] == ROOT_FILES[i] :: rel == [ROOT_FILES[i]]
  {
    var name := ROOT_FILES[i];
    NamesDiffer();
    assert ROOT_FILES[..i + 1] == ROOT_FILES[..i] + [name];
    assert name in ROOT_FILES && name !in ROOT_FILES[..i];
    forall rel | VisitedName(rel) && rel[0] == name ensures rel == [name] {
      assert name !in SOURCE_DIRECTORIES;
    }
  }

  /** What a root file adds. */
  lemma RootFileAdded(log: seq<Answer>, root: Path, i: nat, kind: Option<Kind>)
    requires i < |ROOT_FILES| && Inspected(root + [ROOT_FILES[i]], kind) in log
    requires kind.Some? ==> PathLength(root + [ROOT_FILES[i]]) < WORD
    ensures Added(log, root, ROOT_FILES[i], if kind == Some(Regular) then [[ROOT_FILES[i]]] else [])
  {
    RootFileNext(i);
    if kind != Some(Regular) {
      NotRegular(log, root + [ROOT_FILES[i]], kind);
    }
  }

  /** The root files: each may be missing, a file, something ignored, or a link. */
  method GatherRootFiles(fs: Tree, still: bool, root: Path, reliable: bool, ghost log: seq<Answer>)
    returns (result: Result<seq<Path>, WalkError>, ghost more: seq<Answer>)
    requires WellFormed(fs) && Answered(fs, still, log)
    ensures log <= more && Answered(fs, still, more)
    ensures LinksHeeded(root, log, more, result)
    ensures result.Ok? ==> Gathered(more, root, result.value, ROOT_FILES, [])
    ensures still && reliable ==> result != Err(IoFailed)
  {
    var files: seq<Path> := [];
    more := log;
    for i := 0 to |ROOT_FILES|
      invariant log <= more && Answered(fs, still, more)
      invariant Gathered(more, root, files, ROOT_FILES[..i], [])
      invariant LinkSeen(more, root) ==> LinkSeen(log, root)
    {
      var name := ROOT_FILES[i];
      ghost var before := more;
      var kind;
      kind, more := Inspect(fs, still, root + [name], reliable, more);
      if kind.Err? {
        return Err(IoFailed), more;
      }
      assert Inspected(root + [name], kind.value) in more;
      if kind.value == Some(Link) {
        assert VisitedName([name]);
        return Err(LinkFound), more;
      }
      NoLinkMore(before, root, Inspected(root + [name], kind.value));
      var added: seq<Path> := if kind.value == Some(Regular) then [[name]] else [];
      RootFileNext(i);
      RootFileAdded(more, root, i, kind.value);
      GatheredMore(before, more, root, files, added, name, ROOT_FILES[..i], [], ROOT_FILES[..i + 1], []);
      files := files + added;
    }
    assert ROOT_FILES[..|ROOT_FILES|] == ROOT_FILES;
    return Ok(files), more;
  }

  /** The path without the workspace prefix, or the path itself if it has none. */
  function Relative(root: Path, p: Path): Path {
    if Under(root, p) then p[|root|..] else p
  }

  lemma BelowIsRelative(root: Path, name: FileName, p: Path)
    requires Under(root + [name], p)
    ensures Under(root, p) && Relative(root, p) == p[|root|..]
    ensures p == root + p[|root|..] && |p[|root|..]| >= 2 && p[|root|..][0] == name
  {
    assert p[..|root| + 1] == root + [name];
    assert p[..|root|] == p[..|root| + 1][..|root|];
    assert p[|root|] == p[..|root| + 1][|root|];
  }

  lemma RelativeIsBelow(root: Path, name: FileName, rel: Path)
    requires |rel| >= 2 && rel[0] == name
    ensures Under(root + [name], root + rel)
  {
    assert (root + rel)[..|root| + 1] == root + [name];
  }

  /** The names are distinct, and no root file is a source directory. */
  lemma DirectoryNames(i: nat)
    requires i < |SOURCE_DIRECTORIES|
    ensures SOURCE_DIRECTORIES[i] !in SOURCE_DIRECTORIES[..i] && SOURCE_DIRECTORIES[i] !in ROOT_FILES
    ensures SOURCE_DIRECTORIES[..i + 1] == SOURCE_DIRECTORIES[..i] + [SOURCE_DIRECTORIES[i]]
  {
    NamesDiffer();
    assert SRC[0] == 115 && TESTS[0] == 116;
  }

  lemma DirectoryNext(i: nat)
    requires i < |SOURCE_DIRECTORIES|
    ensures NextIs(SOURCE_DIRECTORIES[i], ROOT_FILES, SOURCE_DIRECTORIES[..i], ROOT_FILES, SOURCE_DIRECTORIES[..i + 1])
    ensures forall rel | VisitedName(rel) && rel[0] == SOURCE_DIRECTORIES[i] :: rel == [rel[0]] || |rel| >= 2
    ensures forall rel | CoveredName(rel) && rel[0] == SOURCE_DIRECTORIES[i] :: |rel| >= 2
    ensures forall rel: Path | |rel| >= 2 && rel[0] == SOURCE_DIRECTORIES[i] :: CoveredName(rel)
  {
    DirectoryNames(i);
  }

  /** What is collected below a source directory, as relative names. */
  lemma CollectedNames(root: Path, name: FileName, collected: seq<Path>, added: seq<Path>)
    requires Distinct(collected) && forall p <- collected :: Under(root + [name], p)
    requires |added| == |collected| && forall k | 0 <= k < |added| :: added[k] == Relative(root, collected[k])
    ensures Distinct(added)
    ensures forall rel :: rel in added <==> |rel| >= 2 && rel[0] == name && root + rel in collected
  {
    forall k | 0 <= k < |added|
      ensures root + added[k] == collected[k] && |added[k]| >= 2 && added[k][0] == name && collected[k] in collected
    {
      assert collected[k] in collected;
      BelowIsRelative(root, name, collected[k]);
    }
    forall j, k | 0 <= j < k < |added| ensures added[j] != added[k] {
      assert root + added[j] != root + added[k];
    }
    forall rel ensures rel in added <==> |rel| >= 2 && rel[0] == name && root + rel in collected {
      if |rel| >= 2 && rel[0] == name && root + rel in collected {
        var k :| 0 <= k < |collected| && collected[k] == root + rel;
        assert added[k] == rel;
      }
    }
  }

  /** What a source directory adds. */
  lemma DirectoryAdded(log: seq<Answer>, root: Path, i: nat, kind: Option<Kind>, collected: seq<Path>, added: seq<Path>)
    requires i < |SOURCE_DIRECTORIES| && Inspected(root + [SOURCE_DIRECTORIES[i]], kind) in log
    requires if kind == Some(Folder) then FoundBelow(log, root + [SOURCE_DIRECTORIES[i]], collected)
             else collected == []
    requires |added| == |collected| && forall k | 0 <= k < |added| :: added[k] == Relative(root, collected[k])
    ensures Added(log, root, SOURCE_DIRECTORIES[i], added)
  {
    var name := SOURCE_DIRECTORIES[i];
    DirectoryNext(i);
    CollectedNames(root, name, collected, added);
    forall rel | VisitedName(rel) && rel[0] == name
      ensures CoveredName(rel) && Standing(log, root + rel) ==> rel in added
      ensures Approached(log, root + rel) ==> Seen(log, root + rel)
    {
      if |rel| >= 2 {
        RelativeIsBelow(root, name, rel);
        if kind != Some(Folder) {
          NotReached(log, root + [name], kind, root + rel);
        }
      }
    }
  }

  /** One source directory: it may be missing, a directory, something ignored, or a link. */
  method CollectDirectory(fs: Tree, still: bool, root: Path, i: nat, reliable: bool, ghost log: seq<Answer>)
    returns (added: Result<seq<Path>, WalkError>, ghost more: seq<Answer>)
    requires WellFormed(fs) && Answered(fs, still, log) && i < |SOURCE_DIRECTORIES|
    ensures log <= more && Answered(fs, still, more)
    ensures LinksHeeded(root, log, more, added)
    ensures added.Ok? ==> Added(more, root, SOURCE_DIRECTORIES[i], added.value)
    ensures still && reliable ==> added != Err(IoFailed)
  {
    var directory := root + [SOURCE_DIRECTORIES[i]];
    assert InSources(root, directory);
    var kind;
    kind, more := Inspect(fs, still, directory, reliable, log);
    if kind.Err? {
      return Err(IoFailed), more;
    }
    ghost var asked := more;
    assert Inspected(directory, kind.value) in asked;
    if kind.value == Some(Link) {
      LinkInSources(more, root, directory);
      return Err(LinkFound), more;
    }
    NoLinkMore(log, root, Inspected(directory, kind.value));
    var collected: Result<seq<Path>, WalkError> := Ok([]);
    if kind.value == Some(Folder) {
      collected, more := CollectFiles(fs, still, root, directory, reliable, more);
      if collected.Err? {
        return collected, more;
      }
    }
    var relative := seq(|collected.value|,
                        k requires 0 <= k < |collected.value| => Relative(root, collected.value[k]));
    StillAnswered(asked, more, Inspected(directory, kind.value));
    DirectoryAdded(more, root, i, kind.value, collected.value, relative);
    return Ok(relative), more;
  }

  /** The walk over the source directories, each collected recursively. */
  method GatherDirectories(
    fs: Tree, still: bool, root: Path, found: seq<Path>, reliable: bool, ghost log: seq<Answer>)
    returns (result: Result<seq<Path>, WalkError>, ghost more: seq<Answer>)
    requires WellFormed(fs) && Answered(fs, still, log) && Gathered(log, root, found, ROOT_FILES, [])
    ensures log <= more && Answered(fs, still, more)
    ensures LinksHeeded(root, log, more, result)
    ensures result.Ok? ==> Gathered(more, root, result.value, ROOT_FILES, SOURCE_DIRECTORIES)
    ensures still && reliable ==> result != Err(IoFailed)
  {
    var files := found;
    more := log;
    for i := 0 to |SOURCE_DIRECTORIES|
      invariant log <= more && Answered(fs, still, more)
      invariant Gathered(more, root, files, ROOT_FILES, SOURCE_DIRECTORIES[..i])
      invariant LinkSeen(more, root) ==> LinkSeen(log, root)
    {
      ghost var before := more;
      var collected;
      collected, more := CollectDirectory(fs, still, root, i, reliable, more);
      if collected.Err? {
        return collected, more;
      }
      DirectoryNext(i);
      GatheredMore(before, more, root, files, collected.value, SOURCE_DIRECTORIES[i],
                   ROOT_FILES, SOURCE_DIRECTORIES[..i], ROOT_FILES, SOURCE_DIRECTORIES[..i + 1]);
      files := files + collected.value;
    }
    assert SOURCE_DIRECTORIES[..|SOURCE_DIRECTORIES|] == SOURCE_DIRECTORIES;
    return Ok(files), more;
  }

  // ---------------------------------------------------------------- reading

  // What the system calls of a walk answered, and the files it has read, with the contents it got.
  datatype Reading = Reading(log: seq<Answer>, files: map<Path, Bytes>)

  /** A regular file at `p` was inspected and at once read. */
  ghost predicate ReadAt(log: seq<Answer>, p: Path, contents: Bytes) {
    exists k :: 0 <= k < |log| - 1 && log[k] == Inspected(p, Some(Regular)) && log[k + 1] == Contents(p, contents)
  }

  lemma ReadStays(log: seq<Answer>, more: seq<Answer>, p: Path, contents: Bytes)
    requires log <= more && ReadAt(log, p, contents)
    ensures ReadAt(more, p, contents)
  {
    var k :| 0 <= k < |log| - 1 && log[k] == Inspected(p, Some(Regular)) && log[k + 1] == Contents(p, contents);
    assert more[k] == log[k] && more[k + 1] == log[k + 1];
  }

  lemma ReadAtEnd(log: seq<Answer>, p: Path, contents: Bytes)
    ensures ReadAt(log + [Inspected(p, Some(Regular))] + [Contents(p, contents)], p, contents)
  {
    var more := log + [Inspected(p, Some(Regular))] + [Contents(p, contents)];
    assert more[|log|] == Inspected(p, Some(Regular)) && more[|log| + 1] == Contents(p, contents);
  }

  /** What the walk has read: covered files only, each inspected as a regular file and at once read, and none
      left out that was there all along; whatever the answers led to has been inspected, and no link was seen. */
  ghost predicate WasRead(root: Path, reading: Reading) {
    && (forall rel <- reading.files :: CoveredName(rel) && PathLength(root + rel) < WORD)
    && (forall rel <- reading.files :: ReadAt(reading.log, root + rel, reading.files[rel]))
    && (forall rel :: CoveredName(rel) && Standing(reading.log, root + rel) ==> rel in reading.files)
    && (forall rel :: VisitedName(rel) && Approached(reading.log, root + rel) ==> Seen(reading.log, root + rel))
    && !LinkSeen(reading.log, root)
  }

  /** The files that have been read. */
  ghost predicate ReadSoFar(root: Path, files: seq<Path>, reading: Reading) {
    && (forall p :: p in reading.files <==> p in files)
    && (forall p <- files :: p in reading.files)
    && (forall p <- reading.files :: ReadAt(reading.log, root + p, reading.files[p]))
  }

  lemma ReadOne(root: Path, files: seq<Path>, i: nat, reading: Reading, more: seq<Answer>, contents: Bytes)
    requires i < |files| && Distinct(files) && ReadSoFar(root, files[..i], reading)
    requires reading.log <= more && ReadAt(more, root + files[i], contents)
    ensures files[i] !in reading.files
    ensures ReadSoFar(root, files[..i + 1], Reading(more, reading.files[files[i] := contents]))
  {
    assert files[..i + 1] == files[..i] + [files[i]];
    forall p | p in reading.files ensures ReadAt(more, root + p, reading.files[p]) {
      ReadStays(reading.log, more, root + p, reading.files[p]);
    }
  }

  /** Reading one file more does not change what the others add to the stream. */
  lemma {:induction false} EncodeSame(paths: seq<Path>, files: map<Path, Bytes>, more: map<Path, Bytes>)
    requires forall p <- paths :: p in files && p in more && files[p] == more[p]
    ensures Encode(paths, files) == Encode(paths, more)
  {
    if paths != [] {
      EncodeSame(paths[1..], files, more);
    }
  }

  lemma Regroup4(a: seq<Byte>, b: seq<Byte>, c: seq<Byte>, d: seq<Byte>, e: seq<Byte>)
    ensures a + b + c + d + e == a + (b + c + d + e)
  {
  }

  /** The four updates of the hasher for one file. */
  lemma StreamOne(files: seq<Path>, i: nat, read: map<Path, Bytes>, more: map<Path, Bytes>, stream: seq<Byte>,
                  contents: Bytes)
    requires i < |files| && (forall p <- files[..i] :: p in read) && files[i] !in read
    requires stream == Encode(files[..i], read) && more == read[files[i] := contents]
    ensures forall p <- files[..i + 1] :: p in more
    ensures stream + LengthPrefix(Joined(files[i])) + Joined(files[i]) + LengthPrefix(contents) + contents
            == Encode(files[..i + 1], more)
  {
    assert files[..i + 1] == files[..i] + [files[i]];
    EncodeSame(files[..i], read, more);
    EncodeAppend(files[..i], files[i], more);
    Regroup4(stream, LengthPrefix(Joined(files[i])), Joined(files[i]), LengthPrefix(contents), contents);
  }

  /** One file: inspected again, and read if it is still a regular file. */
  method ReadFile(fs: Tree, still: bool, root: Path, rel: Path, reliable: bool, ghost log: seq<Answer>)
    returns (contents: Result<Bytes, WalkError>, ghost more: seq<Answer>)
    requires WellFormed(fs) && Answered(fs, still, log) && CoveredName(rel)
    ensures log <= more && Answered(fs, still, more)
    ensures LinksHeeded(root, log, more, contents)
    ensures contents.Ok? ==> ReadAt(more, root + rel, contents.value)
    ensures still && reliable && root + rel in fs && fs[root + rel].File? ==> contents != Err(IoFailed)
  {
    var kind;
    kind, more := Inspect(fs, still, root + rel, reliable, log);
    if kind.Err? {
      return Err(IoFailed), more;
    }
    assert Inspected(root + rel, kind.value) in more;
    assert still ==> Answers(fs, Inspected(root + rel, kind.value));
    if kind.value == Some(Link) {
      assert VisitedName(rel);
      return Err(LinkFound), more;
    }
    NoLinkMore(log, root, Inspected(root + rel, kind.value));
    if kind.value != Some(Regular) {
      return Err(IoFailed), more;
    }
    ghost var asked := more;
    contents, more := Read(fs, still, root + rel, reliable, more);
    if contents.Ok? {
      NoLinkMore(asked, root, Contents(root + rel, contents.value));
      ReadAtEnd(log, root + rel, contents.value);
    }
  }

  lemma StillThere(fs: Tree, log: seq<Answer>, p: Path)
    requires Answered(fs, true, log) && Inspected(p, Some(Regular)) in log
    ensures p in fs && fs[p].File?
  {
    assert Answers(fs, Inspected(p, Some(Regular)));
  }

  /** The files in order and read. */
  method HashFiles(fs: Tree, still: bool, root: Path, files: seq<Path>, hash: Hash, reliable: bool,
                   ghost log: seq<Answer>)
    returns (result: Result<string, WalkError>, ghost reading: Reading)
    requires WellFormed(fs) && Answered(fs, still, log) && Distinct(files)
    requires forall rel <- files :: CoveredName(rel) && Inspected(root + rel, Some(Regular)) in log
    ensures log <= reading.log && Answered(fs, still, reading.log)
    ensures LinksHeeded(root, log, reading.log, result)
    ensures result.Ok? ==> ReadSoFar(root, files, reading) && result.value == hash(Encode(files, reading.files))
    ensures still && reliable ==> result != Err(IoFailed)
  {
    var stream: seq<Byte> := [];
    reading := Reading(log, map[]);
    for i := 0 to |files|
      invariant log <= reading.log && Answered(fs, still, reading.log) && ReadSoFar(root, files[..i], reading)
      invariant LinkSeen(reading.log, root) ==> LinkSeen(log, root)
      invariant stream == Encode(files[..i], reading.files)
    {
      var path := files[i];
      assert path in files;
      if still {
        StillThere(fs, log, root + path);
      }
      var contents;
      ghost var more;
      contents, more := ReadFile(fs, still, root, path, reliable, reading.log);
      if contents.Err? {
        reading := reading.(log := more);
        return Err(contents.error), reading;
      }
      ReadOne(root, files, i, reading, more, contents.value);
      StreamOne(files, i, reading.files, reading.files[path := contents.value], stream, contents.value);
      stream := stream + LengthPrefix(Joined(path)) + Joined(path) + LengthPrefix(contents.value) + contents.value;
      reading := Reading(more, reading.files[path := contents.value]);
    }
    assert files[..|files|] == files;
    return Ok(hash(stream)), reading;
  }

  lemma SortedDistinct(s: seq<Path>)
    requires Sorted(s)
    ensures Distinct(s)
  {
    forall i, j | 0 <= i < j < |s| ensures s[i] != s[j] {
      PathTotal(s[i], s[j]);
    }
  }

  lemma AllRead(log: seq<Answer>, root: Path, gathered: seq<Path>, reading: Reading)
    requires log <= reading.log && Gathered(log, root, gathered, ROOT_FILES, SOURCE_DIRECTORIES)
    requires ReadSoFar(root, Sort(gathered), reading) && !LinkSeen(reading.log, root)
    ensures Sort(gathered) == Listing(reading.files.Keys)
    ensures WasRead(root, reading)
  {
    SortSorts(gathered);
    SortedUnique(Sort(gathered), Listing(reading.files.Keys));
    forall rel | VisitedName(rel)
      ensures CoveredName(rel) && Standing(reading.log, root + rel) ==> rel in reading.files
      ensures Approached(reading.log, root + rel) ==> Seen(reading.log, root + rel)
    {
      FewerAnswers(log, reading.log, root + rel);
      assert DealtWith(rel, ROOT_FILES, SOURCE_DIRECTORIES);
    }
  }

  lemma StandsInTree(fs: Tree, log: seq<Answer>, p: Path)
    requires WellFormed(fs) && Answered(fs, true, log) && p in fs
    ensures Approached(log, p) && (fs[p].File? ==> Standing(log, p))
  {
    forall answer | answer in log ensures Leads(answer, p) && (fs[p].File? ==> Admits(answer, p)) {
      assert Answers(fs, answer);
      if Under(answer.path, p) {
        AncestorIsDirectory(fs, answer.path, p);
        EntryIsChild(fs, answer.path, p);
        assert EntryOf(answer.path, p)[|answer.path|] == p[|answer.path|];
      }
    }
  }

  lemma ReadInTree(fs: Tree, root: Path, reading: Reading, rel: Path)
    requires WellFormed(fs) && Answered(fs, true, reading.log) && WasRead(root, reading)
    ensures rel in reading.files <==> CoveredFile(fs, root, rel)
    ensures rel in reading.files ==> fs[root + rel] == File(reading.files[rel])
  {
    if rel in reading.files {
      assert ReadAt(reading.log, root + rel, reading.files[rel]);
      assert Answers(fs, Contents(root + rel, reading.files[rel]));
    } else if CoveredFile(fs, root, rel) {
      StandsInTree(fs, reading.log, root + rel);
    }
  }

  lemma NoLinkInTree(fs: Tree, root: Path, reading: Reading, rel: Path)
    requires WellFormed(fs) && Answered(fs, true, reading.log) && WasRead(root, reading)
    ensures !LinkAt(fs, root, rel)
  {
    if LinkAt(fs, root, rel) {
      StandsInTree(fs, reading.log, root + rel);
      var kind :| Inspected(root + rel, kind) in reading.log;
      assert Answers(fs, Inspected(root + rel, kind));
      assert LinkSeen(reading.log, root);
    }
  }

  /** A workspace that stands still is read as it is, and has no link where the walk looks. */
  lemma StandsStill(fs: Tree, root: Path, reading: Reading)
    requires WellFormed(fs) && Answered(fs, true, reading.log) && WasRead(root, reading)
    ensures reading.files == CoveredFiles(fs, root) && !HasCoveredLink(fs, root)
  {
    var covered := CoveredFiles(fs, root);
    forall rel
      ensures rel in reading.files <==> rel in covered
      ensures rel in reading.files ==> reading.files[rel] == covered[rel]
      ensures !LinkAt(fs, root, rel)
    {
      CoveredFilesMeaning(fs, root, rel);
      ReadInTree(fs, root, reading, rel);
      NoLinkInTree(fs, root, reading, rel);
    }
  }

  lemma SeenIsThere(fs: Tree, root: Path, log: seq<Answer>)
    requires Answered(fs, true, log) && LinkSeen(log, root)
    ensures HasCoveredLink(fs, root)
  {
    var rel :| VisitedName(rel) && Inspected(root + rel, Some(Link)) in log;
    assert Answers(fs, Inspected(root + rel, Some(Link)));
    assert LinkAt(fs, root, rel);
  }

  /** The fingerprint is that of the files that were read, whatever has changed in the meantime. If the workspace
      stands still these are its covered files, and if no operation fails there is a fingerprint exactly unless a link
      is where the walk looks. */
  method ComputeFingerprint(fs: Tree, still: bool, root: Path, hash: Hash, reliable: bool)
    returns (result: Result<string, WalkError>, ghost reading: Reading)
    requires WellFormed(fs)
    ensures Answered(fs, still, reading.log)
    ensures result.Ok? ==> WasRead(root, reading) && result.value == Encoding.Fingerprint(hash, reading.files)
    ensures result == Err(LinkFound) ==> LinkSeen(reading.log, root)
    ensures still && result.Ok? ==> reading.files == CoveredFiles(fs, root) && !HasCoveredLink(fs, root)
    ensures still && result == Err(LinkFound) ==> HasCoveredLink(fs, root)
    ensures still && reliable ==> result != Err(IoFailed)
  {
    var rootFiles;
    ghost var log: seq<Answer>;
    rootFiles, log := GatherRootFiles(fs, still, root, reliable, []);
    var gathered := rootFiles;
    if rootFiles.Ok? {
      gathered, log := GatherDirectories(fs, still, root, rootFiles.value, reliable, log);
    }
    if gathered.Err? {
      if still && gathered.error == LinkFound {
        SeenIsThere(fs, root, log);
      }
      return Err(gathered.error), Reading(log, map[]);
    }
    SortSorts(gathered.value);
    SortedDistinct(Sort(gathered.value));
    result, reading := HashFiles(fs, still, root, Sort(gathered.value), hash, reliable, log);
    if result.Ok? {
      AllRead(log, root, gathered.value, reading);
      if still {
        StandsStill(fs, root, reading);
      }
    } else if still && result.error == LinkFound {
      SeenIsThere(fs, root, reading.log);
    }
  }

  // ---------------------------------------------------------------- what a fingerprint is worth

  lemma ReadEncodable(root: Path, reading: Reading)
    requires WasRead(root, reading)
    ensures Encodable(reading.files.Keys)
  {
    forall rel | rel in reading.files ensures rel != [] && |Joined(rel)| < WORD {
      PathLengthSplit(root, rel);
      JoinedLength(rel);
    }
  }

  /** A well-formed tree's covered paths fit the encoding. */
  lemma CoveredEncodable(fs: Tree, root: Path)
    requires WellFormed(fs)
    ensures Encodable(CoveredFiles(fs, root).Keys)
  {
    forall rel | rel in CoveredFiles(fs, root) ensures rel != [] && |Joined(rel)| < WORD {
      CoveredFilesMeaning(fs, root, rel);
      PathLengthSplit(root, rel);
      JoinedLength(rel);
    }
  }

  /** Two walks that come to the same fingerprint have read the same files, or two streams collide, whatever changed
      during either. */
  lemma SameReading(a: Reading, b: Reading, root: Path, hash: Hash)
    requires WasRead(root, a) && WasRead(root, b)
    requires Encoding.Fingerprint(hash, a.files) == Encoding.Fingerprint(hash, b.files)
    ensures a.files == b.files || Collision(hash, Stream(a.files), Stream(b.files))
  {
    ReadEncodable(root, a);
    ReadEncodable(root, b);
    FingerprintBinds(hash, a.files, b.files);
  }

  /** Whatever changed during the walk and since, a tree with the recorded fingerprint holds exactly the files the
      walk has read, or two streams collide. */
  lemma HoldsWhatWasRead(reading: Reading, root: Path, copy: Tree, at: Path, recorded: string, hash: Hash)
    requires WasRead(root, reading) && recorded == Encoding.Fingerprint(hash, reading.files)
    requires WellFormed(copy) && recorded == Encoding.Fingerprint(hash, CoveredFiles(copy, at))
    ensures || CoveredFiles(copy, at) == reading.files
            || Collision(hash, Stream(CoveredFiles(copy, at)), Stream(reading.files))
  {
    ReadEncodable(root, reading);
    CoveredEncodable(copy, at);
    FingerprintBinds(hash, CoveredFiles(copy, at), reading.files);
  }

  /** Trees that agree on the covered names have the same fingerprint: nothing else is looked at. */
  lemma OnlyCoveredMatters(fs: Tree, root: Path, other: Tree, elsewhere: Path, hash: Hash)
    requires forall rel | CoveredName(rel) ::
               && (root + rel in fs <==> elsewhere + rel in other)
               && (root + rel in fs ==> fs[root + rel] == other[elsewhere + rel])
    ensures CoveredFiles(fs, root) == CoveredFiles(other, elsewhere)
    ensures Encoding.Fingerprint(hash, CoveredFiles(fs, root))
            == Encoding.Fingerprint(hash, CoveredFiles(other, elsewhere))
  {
    forall rel ensures rel in CoveredFiles(fs, root) <==> rel in CoveredFiles(other, elsewhere) {
      CoveredFilesMeaning(fs, root, rel);
      CoveredFilesMeaning(other, elsewhere, rel);
    }
    assert CoveredFiles(fs, root) == CoveredFiles(other, elsewhere);
  }
}
