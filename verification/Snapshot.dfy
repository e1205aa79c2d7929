/** Copying the covered part of a workspace into a fresh directory (src/workspace_snapshot.rs), and the
    check that stands between the copy and `cargo test` (src/cargo_test.rs). */
module Snapshot {
  import opened Wrappers
  import opened FileTree
  import opened Fingerprint
  import Encoding

  // ---------------------------------------------------------------- below one directory

  /** `p` lies below `dir` by way of one of the entries in `done`. */
  predicate Via(dir: Path, done: set<Path>, p: Path) {
    Under(dir, p) && EntryOf(dir, p) in done
  }

  ghost predicate LinkBelow(fs: Tree, dir: Path) {
    exists p :: p in fs && Under(dir, p) && fs[p].SymbolicLink?
  }

  lemma ViaMore(fs: Tree, dir: Path, done: set<Path>, entry: Path, p: Path)
    requires WellFormed(fs) && entry in Children(fs, dir)
    ensures Via(dir, done + {entry}, p) <==> Via(dir, done, p) || p == entry || Under(entry, p)
  {
    UnderEntry(dir, entry, p);
  }

  lemma NothingUnderFile(fs: Tree, entry: Path)
    requires WellFormed(fs) && entry in fs && !fs[entry].Directory?
    ensures forall p <- fs :: !Under(entry, p)
  {
    forall p | p in fs ensures !Under(entry, p) {
      if Under(entry, p) {
        AncestorIsDirectory(fs, entry, p);
      }
    }
  }

  lemma LinkFurtherDown(fs: Tree, dir: Path, entry: Path)
    requires entry in Children(fs, dir)
    ensures LinkBelow(fs, entry) ==> LinkBelow(fs, dir)
  {
    if LinkBelow(fs, entry) {
      var p :| p in fs && Under(entry, p) && fs[p].SymbolicLink?;
      UnderEntry(dir, entry, p);
      assert p in fs && Under(dir, p) && fs[p].SymbolicLink?;
    }
  }

  ghost predicate Split(all: set<Path>, rest: set<Path>, done: set<Path>) {
    rest + done == all && rest !! done
  }

  lemma TakeOne(all: set<Path>, rest: set<Path>, done: set<Path>, x: Path)
    requires Split(all, rest, done) && x in rest
    ensures Split(all, rest - {x}, done + {x})
  {
  }

  lemma NoLinkWithout(fs: Tree, directory: Path)
    requires WellFormed(fs) && !IsDirectory(fs, directory)
    ensures !LinkBelow(fs, directory)
  {
    forall p | p in fs ensures !Under(directory, p) {
      if Under(directory, p) {
        AncestorIsDirectory(fs, directory, p);
      }
    }
  }

  lemma DirectoryLink(fs: Tree, root: Path, i: nat)
    requires i < |SOURCE_DIRECTORIES|
    ensures LinkBelow(fs, root + [SOURCE_DIRECTORIES[i]]) ==> HasCoveredLink(fs, root)
  {
    var name := SOURCE_DIRECTORIES[i];
    if LinkBelow(fs, root + [name]) {
      var p :| p in fs && Under(root + [name], p) && fs[p].SymbolicLink?;
      BelowIsRelative(root, name, p);
      assert LinkAt(fs, root, p[|root|..]);
    }
  }

  // ---------------------------------------------------------------- what a copy is

  predicate Copyable(item: Item) {
    item.File? || item.Directory?
  }

  /** The path below `source` that `p`, below `target`, is the copy of. */
  function Original(source: Path, target: Path, p: Path): Path
    requires Under(target, p)
  {
    source + p[|target|..]
  }

  /** `p` in `fs` is what its original was in `before`, or missing if that is not copied. */
  predicate CopiedAt(before: Tree, fs: Tree, source: Path, target: Path, p: Path)
    requires Under(target, p)
  {
    var o := Original(source, target, p);
    if o in before && Copyable(before[o]) then p in fs && fs[p] == before[o] else p !in fs
  }

  /** Below `target`, `fs` has copies of what lies below `source` by way of `done`, and nothing else. */
  ghost predicate CopiedVia(before: Tree, fs: Tree, source: Path, target: Path, done: set<Path>) {
    forall p | Under(target, p) ::
      if Via(source, done, Original(source, target, p)) then CopiedAt(before, fs, source, target, p) else p !in fs
  }

  /** Below `target`, `fs` is a copy of what lies below `source` in `before`. */
  ghost predicate Copied(before: Tree, fs: Tree, source: Path, target: Path) {
    forall p | Under(target, p) :: CopiedAt(before, fs, source, target, p)
  }

  /** Outside `target`, nothing has changed. */
  ghost predicate SameOutside(before: Tree, fs: Tree, target: Path) {
    forall p | !Under(target, p) :: (p in fs <==> p in before) && (p in fs ==> fs[p] == before[p])
  }

  ghost predicate EmptyBelow(fs: Tree, target: Path) {
    forall p <- fs :: !Under(target, p)
  }

  /** Neither path is the other or lies below it. */
  predicate Apart(p: Path, q: Path) {
    p != q && !Under(p, q) && !Under(q, p)
  }

  /** Two paths on the way to the same place are equal or one lies below the other. */
  lemma Comparable(p: Path, q: Path, x: Path)
    requires (x == p || Under(p, x)) && (x == q || Under(q, x))
    ensures p == q || Under(p, q) || Under(q, p)
  {
    if |p| <= |q| {
      assert q[..|p|] == x[..|q|][..|p|] == x[..|p|];
    } else {
      assert p[..|q|] == x[..|p|][..|q|] == x[..|q|];
    }
  }

  lemma ApartBelow(p: Path, q: Path, x: Path)
    requires Apart(p, q) && (x == p || Under(p, x))
    ensures !Under(q, x) && x != q
  {
    if x == q || Under(q, x) {
      Comparable(p, q, x);
    }
  }

  // ---------------------------------------------------------------- adding one item

  lemma AddItem(fs: Tree, p: Path, item: Item)
    requires WellFormed(fs) && p != [] && IsDirectory(fs, p[..|p| - 1]) && PathLength(p) < WORD
    requires p in fs ==> (fs[p].Directory? ==> item.Directory?)
    ensures WellFormed(fs[p := item])
  {
    var next := fs[p := item];
    forall q | q in next ensures InDirectory(next, q) && PathLength(q) < WORD {
      if q in fs {
        assert InDirectory(fs, q);
      }
    }
  }

  // ---------------------------------------------------------------- copying one entry

  /** `to` is the copy of entry `from`: `p` is at or below it exactly when its original goes through `from`. */
  lemma Aligned(source: Path, target: Path, name: FileName, p: Path)
    requires Under(target, p)
    ensures Under(source, Original(source, target, p))
    ensures EntryOf(source, Original(source, target, p)) == source + [name]
            <==> p == target + [name] || Under(target + [name], p)
    ensures Under(target + [name], p) ==>
              Original(source + [name], target + [name], p) == Original(source, target, p)
  {
    var o := Original(source, target, p);
    assert o[|source|] == p[|target|];
    assert o[..|source| + 1] == source + [o[|source|]];
    assert p[..|target| + 1] == target + [p[|target|]];
    assert (source + [name])[|source|] == name && (target + [name])[|target|] == name;
    if Under(target + [name], p) {
      assert p[|target|..] == [name] + p[|target| + 1..];
    }
  }

  /** At and below `target + [name]` things are copied, and elsewhere they are as in `fs`. */
  ghost predicate EntryCopied(before: Tree, fs: Tree, next: Tree, source: Path, target: Path, name: FileName) {
    var d := target + [name];
    && (forall p | Under(target, p) && (p == d || Under(d, p)) :: CopiedAt(before, next, source, target, p))
    && (forall p | p != d && !Under(d, p) :: (p in next <==> p in fs) && (p in next ==> next[p] == fs[p]))
  }

  lemma BelowEntry(dir: Path, name: FileName, p: Path)
    ensures p == dir + [name] || Under(dir + [name], p) ==> Under(dir, p)
  {
    if Under(dir + [name], p) {
      assert p[..|dir|] == p[..|dir| + 1][..|dir|] == dir;
    } else if p == dir + [name] {
      assert p[..|dir|] == dir;
    }
  }

  lemma EntryJoins(before: Tree, fs: Tree, next: Tree, source: Path, target: Path, done: set<Path>, name: FileName)
    requires CopiedVia(before, fs, source, target, done) && SameOutside(before, fs, target)
    requires EntryCopied(before, fs, next, source, target, name)
    requires source + [name] !in done
    ensures CopiedVia(before, next, source, target, done + {source + [name]})
    ensures SameOutside(before, next, target)
  {
    var d, e := target + [name], source + [name];
    forall p | Under(target, p)
      ensures if Via(source, done + {e}, Original(source, target, p)) then CopiedAt(before, next, source, target, p)
              else p !in next
    {
      Aligned(source, target, name, p);
    }
    forall p | !Under(target, p)
      ensures (p in next <==> p in before) && (p in next ==> next[p] == before[p])
    {
      BelowEntry(target, name, p);
    }
  }

  lemma UnderOriginal(source: Path, target: Path, name: FileName, p: Path)
    requires Under(target, p) && (p == target + [name] || Under(target + [name], p))
    ensures p == target + [name] ==> Original(source, target, p) == source + [name]
    ensures Under(target + [name], p) ==> Under(source + [name], Original(source, target, p))
  {
    Aligned(source, target, name, p);
    var o := Original(source, target, p);
    assert o[..|source| + 1] == source + [name];
  }

  /** A plain file's copy, or nothing for something that is neither file nor directory. */
  lemma PlainCopied(before: Tree, fs: Tree, source: Path, target: Path, name: FileName)
    requires WellFormed(before) && source + [name] in before && !before[source + [name]].Directory?
    requires target + [name] !in fs && forall p <- fs :: !Under(target + [name], p)
    ensures var item := before[source + [name]];
            EntryCopied(before, fs, if item.File? then fs[target + [name] := item] else fs, source, target, name)
  {
    var d, e := target + [name], source + [name];
    NothingUnderFile(before, e);
    forall p | Under(target, p) && (p == d || Under(d, p))
      ensures CopiedAt(before, if before[e].File? then fs[d := before[e]] else fs, source, target, p)
    {
      Aligned(source, target, name, p);
      UnderOriginal(source, target, name, p);
    }
  }

  /** A directory's copy: the directory is created and its contents are copied into it. */
  lemma DirectoryCopied(before: Tree, fs: Tree, next: Tree, source: Path, target: Path, name: FileName)
    requires Apart(source, target) && SameOutside(before, fs, target)
    requires source + [name] in before && before[source + [name]].Directory?
    requires var made := fs[target + [name] := Directory];
             SameOutside(made, next, target + [name]) && Copied(made, next, source + [name], target + [name])
    ensures EntryCopied(before, fs, next, source, target, name)
  {
    var d, e := target + [name], source + [name];
    var made := fs[d := Directory];
    forall p | Under(target, p) && (p == d || Under(d, p)) ensures CopiedAt(before, next, source, target, p) {
      Aligned(source, target, name, p);
      UnderOriginal(source, target, name, p);
      if Under(d, p) {
        var o := Original(source, target, p);
        BelowEntry(source, name, o);
        ApartBelow(source, target, o);
        BelowEntry(target, name, d);
        assert CopiedAt(made, next, e, d, p);
      }
    }
  }

  lemma ApartEntry(source: Path, target: Path, name: FileName)
    requires Apart(source, target)
    ensures Apart(source + [name], target)
  {
    var e := source + [name];
    BelowEntry(source, name, e);
    ApartBelow(source, target, e);
    if Under(e, target) {
      BelowEntry(source, name, target);
    }
  }

  lemma ApartStays(p: Path, target: Path, name: FileName)
    requires Apart(p, target)
    ensures Apart(p, target + [name])
  {
    var d := target + [name];
    BelowEntry(target, name, d);
    if Under(d, p) {
      BelowEntry(target, name, p);
    } else if Under(p, d) {
      Comparable(p, target, d);
    }
  }

  // ---------------------------------------------------------------- the covered inputs

  /** Whether `rel` is among what is copied for the given root files and source directories. */
  predicate InputAt(fs: Tree, root: Path, rel: Path, rootFiles: seq<FileName>, directories: seq<FileName>) {
    && rel != [] && root + rel in fs
    && ( || (|rel| == 1 && rel[0] in rootFiles && fs[root + rel].File?)
         || (|rel| == 1 && rel[0] in directories && fs[root + rel].Directory?)
         || (|rel| >= 2 && rel[0] in directories && Copyable(fs[root + rel])))
  }

  predicate InputCopiedAt(
    before: Tree, fs: Tree, root: Path, target: Path, rel: Path, rootFiles: seq<FileName>, directories: seq<FileName>)
  {
    if InputAt(before, root, rel, rootFiles, directories) then
      target + rel in fs && fs[target + rel] == before[root + rel]
    else target + rel !in fs
  }

  /** Below `target` are copies of these inputs of the workspace at `root`, and nothing else. */
  ghost predicate InputsCopied(
    before: Tree, fs: Tree, root: Path, target: Path, rootFiles: seq<FileName>, directories: seq<FileName>)
  {
    forall rel | rel != [] :: InputCopiedAt(before, fs, root, target, rel, rootFiles, directories)
  }

  /** Only what starts with `name` has changed below `target`, and it is now as it should be. */
  ghost predicate InputCopied(before: Tree, fs: Tree, next: Tree, root: Path, target: Path, name: FileName,
    rootFiles: seq<FileName>, directories: seq<FileName>)
  {
    && (forall rel | rel != [] && rel[0] == name ::
        InputCopiedAt(before, next, root, target, rel, rootFiles, directories))
    && (forall rel | rel != [] && rel[0] != name :: (target + rel in next <==> target + rel in fs)
                                                    && (target + rel in next ==>
                                                          next[target + rel] == fs[target + rel]))
  }

  lemma InputJoins(before: Tree, fs: Tree, next: Tree, root: Path, target: Path, name: FileName,
    rootFiles: seq<FileName>, directories: seq<FileName>, rootFiles': seq<FileName>, directories': seq<FileName>)
    requires InputsCopied(before, fs, root, target, rootFiles, directories)
    requires InputCopied(before, fs, next, root, target, name, rootFiles', directories')
    requires forall n: FileName | n != name ::
               (n in rootFiles <==> n in rootFiles') && (n in directories <==> n in directories')
    ensures InputsCopied(before, next, root, target, rootFiles', directories')
  {
    forall rel | rel != [] ensures InputCopiedAt(before, next, root, target, rel, rootFiles', directories') {
      if rel[0] != name {
        assert InputCopiedAt(before, fs, root, target, rel, rootFiles, directories);
      }
    }
  }

  lemma TargetRelative(target: Path, name: FileName, rel: Path)
    requires rel != []
    ensures Under(target, target + rel) && (target + rel)[|target|..] == rel
    ensures rel[0] == name <==> target + rel == target + [name] || Under(target + [name], target + rel)
    ensures |rel| == 1 && rel[0] == name <==> target + rel == target + [name]
  {
    var p := target + rel;
    assert p[..|target|] == target;
    assert p[..|target| + 1] == target + [rel[0]];
    assert (target + [name])[|target|] == name;
    if |rel| == 1 && rel[0] == name {
      assert rel == [name];
    }
  }

  // ---------------------------------------------------------------- the file system

  /** What lies below `source` has paths that are not too long for the same places below `target`. */
  ghost predicate Fits(fs: Tree, source: Path, target: Path) {
    forall p <- fs :: Under(source, p) ==> PathLength(p) + PathLength(target) < WORD + PathLength(source)
  }

  predicate ClearOf(root: Path, target: Path, directories: seq<FileName>) {
    forall name <- directories :: Apart(root + [name], target)
  }

  /** The target is none of the source directories, in none of them, and has none of them in it. */
  predicate Clear(root: Path, target: Path) {
    ClearOf(root, target, SOURCE_DIRECTORIES)
  }

  lemma ClearMore(root: Path, target: Path, i: nat)
    requires i < |SOURCE_DIRECTORIES| && ClearOf(root, target, SOURCE_DIRECTORIES[..i])
    requires Apart(root + [SOURCE_DIRECTORIES[i]], target)
    ensures ClearOf(root, target, SOURCE_DIRECTORIES[..i + 1])
  {
    assert SOURCE_DIRECTORIES[..i + 1] == SOURCE_DIRECTORIES[..i] + [SOURCE_DIRECTORIES[i]];
  }

  predicate Encloses(target: Path, root: Path) {
    target == root || Under(target, root)
  }

  /** The inputs' paths are not too long in the target. */
  ghost predicate InputsFit(fs: Tree, root: Path, target: Path) {
    && (forall name <- ROOT_FILES ::
          root + [name] in fs && fs[root + [name]].File? ==> PathLength(target + [name]) < WORD)
    && (forall name <- SOURCE_DIRECTORIES ::
          IsDirectory(fs, root + [name]) ==>
            PathLength(target + [name]) < WORD && Fits(fs, root + [name], target + [name]))
  }

  /** What can be left when removing `p` and everything below it, perhaps not to the end. */
  predicate Remnant(fs: Tree, left: Tree, p: Path) {
    && WellFormed(left)
    && (forall q <- left :: q in fs && left[q] == fs[q])
    && (forall q <- fs :: q != p && !Under(p, q) ==> q in left)
  }

  /** Nothing has happened except that part of a file may now be at `to`. */
  ghost predicate PartOf(fs: Tree, next: Tree, to: Path) {
    next == fs || exists part: Bytes :: next == fs[to := File(part)]
  }

  ghost predicate NoLinkVia(fs: Tree, dir: Path, done: set<Path>) {
    forall p <- fs :: Via(dir, done, p) ==> !fs[p].SymbolicLink?
  }

  lemma NoLinkJoins(fs: Tree, dir: Path, done: set<Path>, entry: Path)
    requires WellFormed(fs) && entry in Children(fs, dir)
    requires NoLinkVia(fs, dir, done) && !fs[entry].SymbolicLink? && !LinkBelow(fs, entry)
    ensures NoLinkVia(fs, dir, done + {entry})
  {
    forall p | p in fs && Via(dir, done + {entry}, p) ensures !fs[p].SymbolicLink? {
      ViaMore(fs, dir, done, entry, p);
    }
  }

  lemma PartOutside(before: Tree, fs: Tree, next: Tree, target: Path, name: FileName)
    requires SameOutside(before, fs, target) && PartOf(fs, next, target + [name])
    ensures SameOutside(before, next, target)
  {
    BelowEntry(target, name, target + [name]);
  }

  lemma OutsideTrans(before: Tree, made: Tree, next: Tree, target: Path, name: FileName)
    requires SameOutside(before, made, target) && SameOutside(made, next, target + [name])
    ensures SameOutside(before, next, target)
  {
    forall p | !Under(target, p) ensures (p in next <==> p in before) && (p in next ==> next[p] == before[p]) {
      BelowEntry(target, name, p);
    }
  }

  lemma EntryFits(fs: Tree, source: Path, target: Path, name: FileName)
    requires source + [name] in fs
    ensures (target + [name])[..|target|] == target
    ensures Fits(fs, source, target) ==>
              PathLength(target + [name]) < WORD && Fits(fs, source + [name], target + [name])
  {
    PathLengthSplit(source, [name]);
    PathLengthSplit(target, [name]);
    BelowEntry(source, name, source + [name]);
    forall p | Under(source + [name], p) ensures Under(source, p) {
      BelowEntry(source, name, p);
    }
  }

  /** After its directory is made, an entry that is a directory can be copied. */
  lemma ReadyForEntry(before: Tree, fs: Tree, source: Path, target: Path, name: FileName)
    requires Apart(source + [name], target) && SameOutside(before, fs, target)
    requires IsDirectory(before, source + [name])
    requires target + [name] !in fs && forall p <- fs :: !Under(target + [name], p)
    ensures var d, e := target + [name], source + [name];
            var made := fs[d := Directory];
            && IsDirectory(made, e) && IsDirectory(made, d) && EmptyBelow(made, d) && Apart(e, d)
            && SameOutside(before, made, target)
            && (LinkBelow(made, e) <==> LinkBelow(before, e))
            && (Fits(before, e, d) ==> Fits(made, e, d))
  {
    var d, e := target + [name], source + [name];
    var made := fs[d := Directory];
    BelowEntry(target, name, d);
    ApartBelow(e, target, e);
    ApartStays(e, target, name);
    forall p | Under(e, p) ensures (p in made <==> p in before) && (p in made ==> made[p] == before[p]) {
      ApartBelow(e, target, p);
    }
    if LinkBelow(made, e) {
      var p :| p in made && Under(e, p) && made[p].SymbolicLink?;
      assert p in before && before[p].SymbolicLink?;
    }
    if LinkBelow(before, e) {
      var p :| p in before && Under(e, p) && before[p].SymbolicLink?;
      assert p in made && made[p].SymbolicLink?;
    }
  }

  lemma LastName(dir: Path, path: Path)
    requires Under(dir, path) && |path| == |dir| + 1
    ensures path == dir + [path[|path| - 1]]
  {
    assert path == path[..|dir|] + [path[|dir|]];
  }

  lemma DestinationFree(before: Tree, fs: Tree, source: Path, target: Path, done: set<Path>, name: FileName)
    requires CopiedVia(before, fs, source, target, done) && source + [name] !in done
    ensures target + [name] !in fs
    ensures forall p <- fs :: !Under(target + [name], p)
  {
    forall p | p == target + [name] || Under(target + [name], p) ensures p !in fs {
      BelowEntry(target, name, p);
      Aligned(source, target, name, p);
    }
  }

  /** Nothing but what lies below an empty target changes, so an entry is as it was. */
  lemma EntryStays(before: Tree, fs: Tree, source: Path, target: Path, path: Path)
    requires SameOutside(before, fs, target) && EmptyBelow(before, target)
    requires path in Children(before, source)
    ensures path in fs && fs[path] == before[path]
    ensures path == source + [path[|path| - 1]]
  {
    LastName(source, path);
    assert !Under(target, path);
  }

  /** Below where nothing is there is nothing. */
  lemma NothingBelow(fs: Tree, p: Path)
    requires WellFormed(fs) && p !in fs
    ensures EmptyBelow(fs, p) && EmptyBelow(fs[p := Directory], p)
  {
    forall q | q in fs ensures !Under(p, q) {
      if Under(p, q) {
        AncestorIsDirectory(fs, p, q);
      }
    }
  }

  lemma OutsideMade(before: Tree, fs: Tree, target: Path, name: FileName)
    requires SameOutside(before, fs, target)
    ensures SameOutside(before, fs[target + [name] := Directory], target)
  {
    BelowEntry(target, name, target + [name]);
  }

  /** The entry on the way to a target inside the source has the target's own entries in it. */
  lemma OnTheWay(source: Path, target: Path, name: FileName)
    requires Under(source, target)
    ensures Under(EntryOf(source, target), target + [name])
  {
    UnderEntry(source, EntryOf(source, target), target);
    assert (target + [name])[..|source| + 1] == target[..|source| + 1];
  }

  lemma PlainJoins(
    before: Tree, fs: Tree, next: Tree, source: Path, target: Path, done: set<Path>, name: FileName)
    requires WellFormed(before) && source + [name] in Children(before, source) && source + [name] !in done
    requires !before[source + [name]].Directory?
    requires CopiedVia(before, fs, source, target, done) && SameOutside(before, fs, target)
    requires var item := before[source + [name]]; next == if item.File? then fs[target + [name] := item] else fs
    ensures CopiedVia(before, next, source, target, done + {source + [name]})
  {
    DestinationFree(before, fs, source, target, done, name);
    PlainCopied(before, fs, source, target, name);
    EntryJoins(before, fs, next, source, target, done, name);
  }

  lemma PlainNoLink(before: Tree, source: Path, done: set<Path>, path: Path)
    requires WellFormed(before) && path in Children(before, source)
    requires !before[path].Directory? && !before[path].SymbolicLink? && NoLinkVia(before, source, done)
    ensures NoLinkVia(before, source, done + {path})
  {
    NothingUnderFile(before, path);
    NoLinkJoins(before, source, done, path);
  }

  /** What is on the way to a target that is there is a directory. */
  lemma WayIsDirectory(before: Tree, source: Path, target: Path, path: Path)
    requires WellFormed(before) && IsDirectory(before, target) && Under(source, target)
    requires path in before && !before[path].Directory?
    ensures path != EntryOf(source, target)
  {
    var way := EntryOf(source, target);
    UnderEntry(source, way, target);
    if way != target {
      AncestorIsDirectory(before, way, target);
    }
  }

  lemma AllCopied(before: Tree, fs: Tree, source: Path, target: Path)
    requires WellFormed(before) && CopiedVia(before, fs, source, target, Children(before, source))
    requires NoLinkVia(before, source, Children(before, source))
    ensures Copied(before, fs, source, target) && !LinkBelow(before, source)
  {
    forall p | p in before && Under(source, p) ensures Via(source, Children(before, source), p) {
      EntryIsChild(before, source, p);
    }
    forall p | Under(target, p) ensures CopiedAt(before, fs, source, target, p) {
      var o := Original(source, target, p);
      assert o[..|source|] == source;
    }
  }

  // ---------------------------------------------------------------- root files and source directories

  ghost predicate NoLinkAmong(fs: Tree, root: Path, rootFiles: seq<FileName>, directories: seq<FileName>) {
    forall rel :: DealtWith(rel, rootFiles, directories) ==> !LinkAt(fs, root, rel)
  }

  lemma RootFileName(i: nat)
    requires i < |ROOT_FILES|
    ensures ROOT_FILES[..i + 1] == ROOT_FILES[..i] + [ROOT_FILES[i]]
    ensures ROOT_FILES[i] in ROOT_FILES && ROOT_FILES[i] !in ROOT_FILES[..i]
  {
  }

  lemma NothingCopied(fs: Tree, root: Path, target: Path)
    requires EmptyBelow(fs, target)
    ensures InputsCopied(fs, fs, root, target, [], [])
  {
    forall rel | rel != [] ensures InputCopiedAt(fs, fs, root, target, rel, [], []) {
      TargetRelative(target, rel[0], rel);
    }
  }

  /** A name not yet dealt with: its source is as it was, and nothing stands where the copy will go. */
  lemma InputUntouched(before: Tree, fs: Tree, root: Path, target: Path, name: FileName,
    rootFiles: seq<FileName>, directories: seq<FileName>)
    requires SameOutside(before, fs, target) && !Under(target, root + [name])
    requires InputsCopied(before, fs, root, target, rootFiles, directories)
    requires name !in rootFiles && name !in directories
    ensures var source := root + [name];
            (source in fs <==> source in before) && (source in fs ==> fs[source] == before[source])
    ensures target + [name] !in fs && forall p <- fs :: !Under(target + [name], p)
  {
    forall p | p == target + [name] || Under(target + [name], p) ensures p !in fs {
      BelowEntry(target, name, p);
      var rel := p[|target|..];
      assert p == target + rel;
      TargetRelative(target, name, rel);
      assert InputCopiedAt(before, fs, root, target, rel, rootFiles, directories);
    }
  }

  lemma RootFileCopied(before: Tree, fs: Tree, next: Tree, root: Path, target: Path, i: nat)
    requires i < |ROOT_FILES|
    requires InputsCopied(before, fs, root, target, ROOT_FILES[..i], [])
    requires var source := root + [ROOT_FILES[i]];
             next == if source in before && before[source].File? then fs[target + [ROOT_FILES[i]] := before[source]]
                     else fs
    ensures InputsCopied(before, next, root, target, ROOT_FILES[..i + 1], [])
    ensures SameOutside(before, fs, target) ==> SameOutside(before, next, target)
  {
    var name := ROOT_FILES[i];
    RootFileName(i);
    BelowEntry(target, name, target + [name]);
    var dealtWith := ROOT_FILES[..i + 1];
    forall rel | rel != [] ensures InputCopiedAt(before, next, root, target, rel, dealtWith, []) {
      TargetRelative(target, name, rel);
      assert InputCopiedAt(before, fs, root, target, rel, ROOT_FILES[..i], []);
      if |rel| == 1 && rel[0] == name {
        assert rel == [name];
      }
    }
  }

  lemma RootFileNoLink(fs: Tree, root: Path, i: nat)
    requires i < |ROOT_FILES| && NoLinkAmong(fs, root, ROOT_FILES[..i], [])
    requires root + [ROOT_FILES[i]] in fs ==> !fs[root + [ROOT_FILES[i]]].SymbolicLink?
    ensures NoLinkAmong(fs, root, ROOT_FILES[..i + 1], [])
  {
    RootFileName(i);
    forall rel | DealtWith(rel, ROOT_FILES[..i + 1], []) ensures !LinkAt(fs, root, rel) {
      if rel[0] == ROOT_FILES[i] {
        assert rel == [ROOT_FILES[i]];
      } else {
        assert DealtWith(rel, ROOT_FILES[..i], []);
      }
    }
  }

  /** A directory that is not there has no target in it. */
  lemma NotInside(before: Tree, source: Path, target: Path)
    requires WellFormed(before) && IsDirectory(before, target) && !IsDirectory(before, source)
    requires !Under(target, source)
    ensures Apart(source, target)
  {
    if Under(source, target) {
      AncestorIsDirectory(before, source, target);
    }
  }

  lemma InsideItself(source: Path, target: Path, name: FileName)
    requires source == target || Under(source, target)
    ensures Under(source, target + [name])
  {
    assert |source| <= |target| ==> (target + [name])[..|source|] == target[..|source|];
  }

  lemma SourceOfInput(before: Tree, fs: Tree, root: Path, target: Path, name: FileName, rel: Path)
    requires |rel| >= 2 && rel[0] == name && Apart(root + [name], target) && SameOutside(before, fs, target)
    ensures Under(target + [name], target + rel)
    ensures Original(root + [name], target + [name], target + rel) == root + rel
    ensures var made := fs[target + [name] := Directory];
            (root + rel in made <==> root + rel in before)
              && (root + rel in made ==> made[root + rel] == before[root + rel])
  {
    TargetRelative(target, name, rel);
    assert (target + rel)[|target| + 1..] == rel[1..] && rel == [name] + rel[1..];
    assert root + [name] + rel[1..] == root + rel;
    TargetRelative(root, name, rel);
    ApartBelow(root + [name], target, root + rel);
    BelowEntry(target, name, target + [name]);
  }

  /** A source directory: made, then filled. */
  lemma TreeInputCopied(before: Tree, fs: Tree, next: Tree, root: Path, target: Path, i: nat)
    requires i < |SOURCE_DIRECTORIES| && Apart(root + [SOURCE_DIRECTORIES[i]], target)
             && SameOutside(before, fs, target)
    requires var name := SOURCE_DIRECTORIES[i];
             var made := fs[target + [name] := Directory];
             && IsDirectory(before, root + [name])
             && SameOutside(made, next, target + [name])
             && Copied(made, next, root + [name], target + [name])
    ensures InputCopied(before, fs, next, root, target, SOURCE_DIRECTORIES[i], ROOT_FILES, SOURCE_DIRECTORIES[..i + 1])
  {
    var name := SOURCE_DIRECTORIES[i];
    var d, e := target + [name], root + [name];
    var made := fs[d := Directory];
    DirectoryNames(i);
    forall rel | rel != [] && rel[0] == name
      ensures InputCopiedAt(before, next, root, target, rel, ROOT_FILES, SOURCE_DIRECTORIES[..i + 1])
    {
      TargetRelative(target, name, rel);
      if |rel| == 1 {
        assert rel == [name];
      } else {
        SourceOfInput(before, fs, root, target, name, rel);
        assert CopiedAt(made, next, e, d, target + rel);
      }
    }
    forall rel | rel != [] && rel[0] != name
      ensures (target + rel in next <==> target + rel in fs)
              && (target + rel in next ==> next[target + rel] == fs[target + rel])
    {
      TargetRelative(target, name, rel);
    }
  }

  /** A source directory that is missing or no directory: there is nothing below it to copy. */
  lemma NoTreeToCopy(before: Tree, fs: Tree, root: Path, target: Path, i: nat)
    requires i < |SOURCE_DIRECTORIES| && WellFormed(before)
    requires !IsDirectory(before, root + [SOURCE_DIRECTORIES[i]])
    requires target + [SOURCE_DIRECTORIES[i]] !in fs && forall p <- fs :: !Under(target + [SOURCE_DIRECTORIES[i]], p)
    ensures InputCopied(before, fs, fs, root, target, SOURCE_DIRECTORIES[i], ROOT_FILES, SOURCE_DIRECTORIES[..i + 1])
  {
    var name := SOURCE_DIRECTORIES[i];
    DirectoryNames(i);
    forall rel | rel != [] && rel[0] == name
      ensures InputCopiedAt(before, fs, root, target, rel, ROOT_FILES, SOURCE_DIRECTORIES[..i + 1])
    {
      TargetRelative(target, name, rel);
      TargetRelative(root, name, rel);
      if |rel| > 1 && root + rel in before {
        AncestorIsDirectory(before, root + [name], root + rel);
      }
    }
  }

  lemma DirectoryNoLink(fs: Tree, root: Path, i: nat)
    requires i < |SOURCE_DIRECTORIES| && WellFormed(fs)
    requires NoLinkAmong(fs, root, ROOT_FILES, SOURCE_DIRECTORIES[..i])
    requires var directory := root + [SOURCE_DIRECTORIES[i]];
             if IsDirectory(fs, directory) then !LinkBelow(fs, directory)
             else directory in fs ==> !fs[directory].SymbolicLink?
    ensures NoLinkAmong(fs, root, ROOT_FILES, SOURCE_DIRECTORIES[..i + 1])
  {
    var name := SOURCE_DIRECTORIES[i];
    DirectoryNames(i);
    forall rel | DealtWith(rel, ROOT_FILES, SOURCE_DIRECTORIES[..i + 1]) ensures !LinkAt(fs, root, rel) {
      if rel[0] == name && |rel| == 1 {
        assert rel == [name];
      } else if rel[0] == name {
        RelativeIsBelow(root, name, rel);
        if !IsDirectory(fs, root + [name]) {
          NoLinkWithout(fs, root + [name]);
        }
      } else {
        assert DealtWith(rel, ROOT_FILES, SOURCE_DIRECTORIES[..i]);
      }
    }
  }

  lemma NoLinkAtAll(fs: Tree, root: Path)
    requires NoLinkAmong(fs, root, ROOT_FILES, SOURCE_DIRECTORIES)
    ensures !HasCoveredLink(fs, root)
  {
    forall rel ensures !LinkAt(fs, root, rel) {
      assert VisitedName(rel) ==> DealtWith(rel, ROOT_FILES, SOURCE_DIRECTORIES);
    }
  }

  // ---------------------------------------------------------------- the snapshot

  /** A new directory can be made at `p`. */
  predicate CanCreate(fs: Tree, p: Path) {
    p != [] && p !in fs && IsDirectory(fs, p[..|p| - 1]) && PathLength(p) < WORD
  }

  /** Nothing has changed except at `p` and below it. */
  ghost predicate OnlyAt(before: Tree, fs: Tree, p: Path) {
    forall q | q != p && !Under(p, q) :: (q in fs <==> q in before) && (q in fs ==> fs[q] == before[q])
  }

  /** Besides directories, a tree with nothing but covered names in it. */
  ghost predicate OnlyCovered(fs: Tree, root: Path) {
    forall rel | rel != [] && root + rel in fs ::
      if fs[root + rel].Directory? then VisitedName(rel) else CoveredFile(fs, root, rel)
  }

  /** The tree at `target` has the covered files of the workspace at `root`, no link, and nothing else. */
  ghost predicate Faithful(before: Tree, fs: Tree, root: Path, target: Path) {
    CoveredFiles(fs, target) == CoveredFiles(before, root) && OnlyCovered(fs, target) && !HasCoveredLink(fs, target)
  }

  /** Whether the workspace's covered files are those with this fingerprint. */
  ghost predicate Matches(fs: Tree, root: Path, expected: string, hash: Hash) {
    expected == Encoding.Fingerprint(hash, CoveredFiles(fs, root))
  }

  ghost predicate MayRun(fs: Tree, root: Path, expected: string, hash: Hash) {
    !HasCoveredLink(fs, root) && Matches(fs, root, expected, hash)
  }

  /** When nothing fails, a run is prepared exactly if the workspace may run and the snapshot is not made inside
      its source directories, where the copying would meet its own copies. */
  ghost predicate Verdict(
    before: Tree, root: Path, target: Path, expected: string, hash: Hash, reliable: bool, prepared: bool)
  {
    reliable && CanCreate(before, target) && (Clear(root, target) ==> InputsFit(before, root, target)) ==>
      (prepared <==> Clear(root, target) && MayRun(before, root, expected, hash))
  }

  lemma NotCreated(
    before: Tree, root: Path, target: Path, expected: string, hash: Hash, reliable: bool, error: WalkError)
    requires Clear(root, target) && error == LinkFound ==> HasCoveredLink(before, root)
    requires Clear(root, target) && reliable && CanCreate(before, target) && InputsFit(before, root, target) ==>
               error != IoFailed
    ensures Verdict(before, root, target, expected, hash, reliable, false)
  {
  }

  lemma Compared(before: Tree, fs: Tree, root: Path, target: Path, expected: string, hash: Hash, reliable: bool,
                 same: bool)
    requires Faithful(before, fs, root, target) && !HasCoveredLink(before, root) && Clear(root, target)
    requires reliable ==> (same <==> Matches(fs, target, expected, hash))
    ensures Verdict(before, root, target, expected, hash, reliable, same)
  {
  }

  /** Where nothing is at `p`, nothing is below it, so such trees that agree elsewhere are the same. */
  lemma NothingLeft(before: Tree, fs: Tree, p: Path)
    requires WellFormed(before) && WellFormed(fs) && OnlyAt(before, fs, p)
    requires p !in before && p !in fs
    ensures fs == before
  {
    forall q | Under(p, q) ensures q !in before && q !in fs {
      if q in before {
        AncestorIsDirectory(before, p, q);
      }
      if q in fs {
        AncestorIsDirectory(fs, p, q);
      }
    }
    forall q ensures q in fs <==> q in before {
      assert q != p && !Under(p, q) ==> (q in fs <==> q in before);
    }
  }

  lemma RemovedRemnant(fs: Tree, left: Tree, p: Path)
    requires WellFormed(fs) && p != []
    requires left == map q | q in fs && q != p && !Under(p, q) :: fs[q]
    ensures Remnant(fs, left, p)
  {
    forall q | q in left ensures InDirectory(left, q) && PathLength(q) < WORD {
      assert InDirectory(fs, q);
    }
  }

  lemma RemnantOnlyAt(before: Tree, fs: Tree, left: Tree, p: Path)
    requires OnlyAt(before, fs, p) && Remnant(fs, left, p)
    ensures WellFormed(left) && OnlyAt(before, left, p)
  {
  }

  /** A directory just made is not around a workspace that is there. */
  lemma NotAround(before: Tree, root: Path, target: Path)
    requires WellFormed(before) && IsDirectory(before, root) && target !in before
    ensures !Encloses(target, root)
  {
    if Under(target, root) {
      AncestorIsDirectory(before, target, root);
    }
  }

  lemma NotBelowTarget(root: Path, target: Path, name: FileName)
    requires !Encloses(target, root)
    ensures !Under(target, root + [name])
  {
    assert (root + [name])[..|root|] == root;
    assert |target| <= |root| ==> (root + [name])[..|target|] == root[..|target|];
  }

  /** A directory just made is empty, and the inputs still fit. */
  lemma SnapshotStarts(before: Tree, root: Path, target: Path)
    requires WellFormed(before) && target !in before
    ensures EmptyBelow(before[target := Directory], target)
    ensures Clear(root, target) && InputsFit(before, root, target) ==>
              InputsFit(before[target := Directory], root, target)
  {
    NothingBelow(before, target);
  }

  lemma SameLinks(fs: Tree, other: Tree, root: Path)
    requires forall rel :: LinkAt(fs, root, rel) ==> LinkAt(other, root, rel)
    ensures HasCoveredLink(fs, root) ==> HasCoveredLink(other, root)
  {
  }

  lemma NotAnInput(root: Path, target: Path, rel: Path)
    requires Clear(root, target) && rel != []
    ensures root + rel == target ==> rel[0] !in SOURCE_DIRECTORIES
  {
    TargetRelative(root, rel[0], rel);
    if rel[0] in SOURCE_DIRECTORIES {
      assert Apart(root + [rel[0]], target);
    }
  }

  /** An input is the same with the empty snapshot in the tree and without it. */
  lemma SameInput(before: Tree, made: Tree, root: Path, target: Path, rel: Path)
    requires made == before[target := Directory] && target !in before && Clear(root, target) && rel != []
    ensures LinkAt(before, root, rel) <==> LinkAt(made, root, rel)
    ensures InputAt(before, root, rel, ROOT_FILES, SOURCE_DIRECTORIES)
            <==> InputAt(made, root, rel, ROOT_FILES, SOURCE_DIRECTORIES)
    ensures root + rel in before ==> root + rel in made && made[root + rel] == before[root + rel]
  {
    NotAnInput(root, target, rel);
  }

  /** What is said of the tree with the empty snapshot in it also holds of the tree before. */
  lemma SnapshotInputs(before: Tree, made: Tree, fs: Tree, root: Path, target: Path)
    requires made == before[target := Directory] && target !in before && Clear(root, target)
    requires SameOutside(made, fs, target)
    ensures HasCoveredLink(before, root) <==> HasCoveredLink(made, root)
    ensures InputsCopied(made, fs, root, target, ROOT_FILES, SOURCE_DIRECTORIES) ==>
              InputsCopied(before, fs, root, target, ROOT_FILES, SOURCE_DIRECTORIES)
  {
    forall rel ensures LinkAt(before, root, rel) <==> LinkAt(made, root, rel) {
      if rel != [] {
        SameInput(before, made, root, target, rel);
      }
    }
    SameLinks(before, made, root);
    SameLinks(made, before, root);
    if InputsCopied(made, fs, root, target, ROOT_FILES, SOURCE_DIRECTORIES) {
      forall rel | rel != [] ensures InputCopiedAt(before, fs, root, target, rel, ROOT_FILES, SOURCE_DIRECTORIES) {
        SameInput(before, made, root, target, rel);
        assert InputCopiedAt(made, fs, root, target, rel, ROOT_FILES, SOURCE_DIRECTORIES);
      }
    }
  }

  lemma SnapshotOnlyAt(before: Tree, made: Tree, fs: Tree, target: Path)
    requires made == before[target := Directory] && SameOutside(made, fs, target)
    ensures OnlyAt(before, fs, target) && IsDirectory(fs, target)
  {
    assert !Under(target, target);
  }

  lemma NamesApart()
    ensures forall name: FileName :: name in ROOT_FILES ==> name !in SOURCE_DIRECTORIES
  {
    DirectoryNames(0);
    DirectoryNames(1);
  }

  lemma SnapshotAt(before: Tree, fs: Tree, root: Path, target: Path, rel: Path)
    requires InputsCopied(before, fs, root, target, ROOT_FILES, SOURCE_DIRECTORIES) && rel != []
    ensures CoveredFile(fs, target, rel) <==> CoveredFile(before, root, rel)
    ensures target + rel in fs ==> root + rel in before && fs[target + rel] == before[root + rel]
    ensures target + rel in fs ==>
              if fs[target + rel].Directory? then VisitedName(rel) else CoveredFile(fs, target, rel)
  {
    assert InputCopiedAt(before, fs, root, target, rel, ROOT_FILES, SOURCE_DIRECTORIES);
    NamesApart();
  }

  lemma SnapshotCovered(before: Tree, fs: Tree, root: Path, target: Path)
    requires InputsCopied(before, fs, root, target, ROOT_FILES, SOURCE_DIRECTORIES)
    ensures CoveredFiles(fs, target) == CoveredFiles(before, root)
  {
    forall rel
      ensures rel in CoveredFiles(fs, target) <==> rel in CoveredFiles(before, root)
      ensures rel in CoveredFiles(fs, target) && rel in CoveredFiles(before, root) ==>
                CoveredFiles(fs, target)[rel] == CoveredFiles(before, root)[rel]
    {
      CoveredFilesMeaning(fs, target, rel);
      CoveredFilesMeaning(before, root, rel);
      if rel != [] {
        SnapshotAt(before, fs, root, target, rel);
      }
    }
  }

  /** A completed copy has the workspace's covered files, no links, and nothing besides. */
  lemma SnapshotFaithful(before: Tree, fs: Tree, root: Path, target: Path)
    requires InputsCopied(before, fs, root, target, ROOT_FILES, SOURCE_DIRECTORIES)
    requires !HasCoveredLink(before, root)
    ensures Faithful(before, fs, root, target)
  {
    SnapshotCovered(before, fs, root, target);
    forall rel | rel != [] && target + rel in fs
      ensures if fs[target + rel].Directory? then VisitedName(rel) else CoveredFile(fs, target, rel)
    {
      SnapshotAt(before, fs, root, target, rel);
    }
    forall rel ensures !LinkAt(fs, target, rel) {
      if rel != [] {
        SnapshotAt(before, fs, root, target, rel);
      }
    }
  }

  // ---------------------------------------------------------------- the copying and the check

  datatype RunError = NoSnapshot(WalkError) | NoFingerprint(WalkError) | Mismatch

  /** The snapshot's own fingerprint has to be the expected one. */
  method CompareFingerprint(fs: Tree, snapshot: Path, expected: string, hash: Hash, reliable: bool)
    returns (result: Result<(), RunError>)
    requires WellFormed(fs)
    ensures result.Ok? ==> Matches(fs, snapshot, expected, hash)
    ensures result == Err(Mismatch) ==> !Matches(fs, snapshot, expected, hash)
    ensures reliable && !HasCoveredLink(fs, snapshot) ==> result.Ok? || result == Err(Mismatch)
  {
    var taken, _ := ComputeFingerprint(fs, true, snapshot, hash, reliable);
    if taken.Err? {
      assert taken.error == LinkFound || taken.error == IoFailed;
      return Err(NoFingerprint(taken.error));
    }
    if taken.value != expected {
      return Err(Mismatch);
    }
    return Ok(());
  }

  class FileSystem {
    var items: Tree

    ghost predicate Valid()
      reads this
    {
      WellFormed(items)
    }

    /** Succeeds only where nothing is yet and the parent is a directory. */
    method CreateDirectory(p: Path, reliable: bool) returns (ok: bool)
      requires Valid() && p != []
      modifies this
      ensures Valid()
      ensures ok ==> p !in old(items) && items == old(items)[p := Directory]
      ensures !ok ==> items == old(items)
      ensures reliable && p !in old(items) && IsDirectory(old(items), p[..|p| - 1]) && PathLength(p) < WORD ==> ok
    {
      var failed: bool := *;
      var parent := p[..|p| - 1];
      if (failed && !reliable) || p in items || !IsDirectory(items, parent) || PathLength(p) >= WORD {
        return false;
      }
      AddItem(items, p, Directory);
      items := items[p := Directory];
      return true;
    }

    /** A copy that fails may leave a part of the file behind. */
    method CopyFile(from: Path, to: Path, reliable: bool) returns (ok: bool)
      requires Valid() && from in items && items[from].File? && to != []
      modifies this
      ensures Valid()
      ensures ok ==> items == old(items)[to := old(items[from])]
      ensures !ok ==> PartOf(old(items), items, to)
      ensures reliable && to !in old(items) && IsDirectory(old(items), to[..|to| - 1]) && PathLength(to) < WORD ==> ok
    {
      var failed: bool := *;
      var parent := to[..|to| - 1];
      if (failed && !reliable) || !IsDirectory(items, parent) || PathLength(to) >= WORD {
        return false;
      }
      if to in items && !items[to].File? {
        return false;
      }
      var contents := items[from].contents;
      var broken :| 0 <= broken <= |contents|;
      if broken < |contents| && !reliable {
        AddItem(items, to, File(contents[..broken]));
        items := items[to := File(contents[..broken])];
        return false;
      }
      AddItem(items, to, File(contents));
      items := items[to := File(contents)];
      return true;
    }

    /** Remove `p` and everything below it; this may fail on the way, which is ignored. */
    method RemoveAll(p: Path, reliable: bool, ghost before: Tree)
      requires Valid() && OnlyAt(before, items, p) && p != []
      modifies this
      ensures Valid() && OnlyAt(before, items, p)
      ensures Remnant(old(items), items, p)
      ensures reliable ==> p !in items
    {
      var left: Tree := *;
      if !Remnant(items, left, p) {
        left := items;
      }
      if reliable {
        left := map q | q in items && q != p && !Under(p, q) :: items[q];
        RemovedRemnant(items, left, p);
      }
      RemnantOnlyAt(before, items, left, p);
      items := left;
    }

    method CopyPlain(ghost before: Tree, source: Path, target: Path, path: Path, ghost done: set<Path>, reliable: bool)
      returns (result: Result<(), WalkError>)
      requires Valid() && WellFormed(before) && SameOutside(before, items, target) && source != target
      requires IsDirectory(before, target) && EmptyBelow(before, target)
      requires path in Children(before, source) && path !in done
      requires !before[path].SymbolicLink? && !before[path].Directory?
      requires !Under(source, target) ==>
                 CopiedVia(before, items, source, target, done) && NoLinkVia(before, source, done)
      modifies this
      ensures Valid() && SameOutside(before, items, target)
      ensures Under(source, target) && path == EntryOf(source, target) ==> result.Err?
      ensures !Under(source, target) && result.Ok? ==>
                CopiedVia(before, items, source, target, done + {path}) && NoLinkVia(before, source, done + {path})
      ensures result != Err(LinkFound)
      ensures !Under(source, target) && reliable && Fits(before, source, target) ==> result != Err(IoFailed)
    {
      var name := path[|path| - 1];
      var destination := target + [name];
      EntryStays(before, items, source, target, path);
      EntryFits(before, source, target, name);
      ghost var fs := items;
      ghost var apart := !Under(source, target);
      if apart {
        DestinationFree(before, items, source, target, done, name);
      }
      result := Ok(());
      if items[path].File? {
        var ok := CopyFile(path, destination, reliable);
        PartOutside(before, fs, items, target, name);
        if !ok {
          return Err(IoFailed);
        }
      }
      if apart {
        PlainJoins(before, fs, items, source, target, done, name);
        PlainNoLink(before, source, done, path);
      } else {
        WayIsDirectory(before, source, target, path);
      }
    }

    /** Copy everything below `source` into the empty directory `target`. If that is inside the source itself,
        the copying meets its own copies and cannot end well. */
    method CopyDirectory(source: Path, target: Path, reliable: bool) returns (result: Result<(), WalkError>)
      requires Valid() && IsDirectory(items, source) && IsDirectory(items, target)
      requires EmptyBelow(items, target) && source != target
      modifies this
      ensures Valid() && SameOutside(old(items), items, target)
      ensures result.Ok? ==> Copied(old(items), items, source, target) && !LinkBelow(old(items), source)
      ensures Under(source, target) ==> result.Err?
      ensures !Under(source, target) && result == Err(LinkFound) ==> LinkBelow(old(items), source)
      ensures !Under(source, target) && reliable && Fits(old(items), source, target) ==> result != Err(IoFailed)
      decreases WORD - PathLength(target), 1
    {
      ghost var before := items;
      var failed: bool := *;
      if failed && !reliable {
        return Err(IoFailed);
      }
      var rest := Children(items, source);
      ghost var done: set<Path> := {};
      while rest != {}
        invariant Valid() && SameOutside(before, items, target)
        invariant Split(Children(before, source), rest, done)
        invariant if Under(source, target) then EntryOf(source, target) !in done
                  else CopiedVia(before, items, source, target, done) && NoLinkVia(before, source, done)
        decreases rest
      {
        var path: Path :| path in rest;
        EntryStays(before, items, source, target, path);
        failed := *;
        if failed && !reliable {
          return Err(IoFailed);
        }
        if items[path].SymbolicLink? {
          return Err(LinkFound);
        }
        var copied := CopyEntry(before, source, target, path, done, reliable);
        if copied.Err? {
          return copied;
        }
        TakeOne(Children(before, source), rest, done, path);
        rest := rest - {path};
        done := done + {path};
      }
      if Under(source, target) {
        EntryIsChild(before, source, target);
        assert false;
      }
      AllCopied(before, items, source, target);
      return Ok(());
    }

    method CopySubdirectory(
      ghost before: Tree, source: Path, target: Path, path: Path, ghost done: set<Path>, reliable: bool)
      returns (result: Result<(), WalkError>)
      requires Valid() && WellFormed(before) && SameOutside(before, items, target) && source != target
      requires IsDirectory(before, target) && EmptyBelow(before, target)
      requires path in Children(before, source) && path !in done && IsDirectory(before, path)
      requires !Under(source, target) ==>
                 CopiedVia(before, items, source, target, done) && NoLinkVia(before, source, done)
      modifies this
      ensures Valid() && SameOutside(before, items, target)
      ensures Under(source, target) && path == EntryOf(source, target) ==> result.Err?
      ensures !Under(source, target) && result.Ok? ==>
                CopiedVia(before, items, source, target, done + {path}) && NoLinkVia(before, source, done + {path})
      ensures !Under(source, target) && result == Err(LinkFound) ==> LinkBelow(before, source)
      ensures !Under(source, target) && reliable && Fits(before, source, target) ==> result != Err(IoFailed)
      decreases WORD - PathLength(target), 0, 0
    {
      var name := path[|path| - 1];
      var destination := target + [name];
      EntryStays(before, items, source, target, path);
      EntryFits(before, source, target, name);
      ghost var fs := items;
      ghost var apart := !Under(source, target);
      if apart {
        DestinationFree(before, items, source, target, done, name);
      }
      var ok := CreateDirectory(destination, reliable);
      if !ok {
        return Err(IoFailed);
      }
      ghost var made := items;
      NothingBelow(fs, destination);
      OutsideMade(before, fs, target, name);
      if apart {
        ApartEntry(source, target, name);
        ReadyForEntry(before, fs, source, target, name);
      } else {
        OnTheWay(source, target, name);
      }
      PathLengthSplit(target, [name]);
      result := CopyDirectory(path, destination, reliable);
      OutsideTrans(before, made, items, target, name);
      if apart {
        if result.Ok? {
          DirectoryCopied(before, fs, items, source, target, name);
          EntryJoins(before, fs, items, source, target, done, name);
          NoLinkJoins(before, source, done, path);
        } else {
          LinkFurtherDown(before, source, path);
        }
      }
    }

    /** The part of that loop's body that deals with an entry that is not a link. */
    method CopyEntry(ghost before: Tree, source: Path, target: Path, path: Path, ghost done: set<Path>, reliable: bool)
      returns (result: Result<(), WalkError>)
      requires Valid() && WellFormed(before) && SameOutside(before, items, target) && source != target
      requires IsDirectory(before, target) && EmptyBelow(before, target)
      requires path in Children(before, source) && path !in done && !before[path].SymbolicLink?
      requires !Under(source, target) ==>
                 CopiedVia(before, items, source, target, done) && NoLinkVia(before, source, done)
      modifies this
      ensures Valid() && SameOutside(before, items, target)
      ensures Under(source, target) && path == EntryOf(source, target) ==> result.Err?
      ensures !Under(source, target) && result.Ok? ==>
                CopiedVia(before, items, source, target, done + {path}) && NoLinkVia(before, source, done + {path})
      ensures !Under(source, target) && result == Err(LinkFound) ==> LinkBelow(before, source)
      ensures !Under(source, target) && reliable && Fits(before, source, target) ==> result != Err(IoFailed)
      decreases WORD - PathLength(target), 0
    {
      EntryStays(before, items, source, target, path);
      EntryFits(before, source, target, path[|path| - 1]);
      if items[path].Directory? {
        result := CopySubdirectory(before, source, target, path, done, reliable);
      } else {
        result := CopyPlain(before, source, target, path, done, reliable);
      }
    }

    method CopyRootFile(ghost before: Tree, root: Path, target: Path, i: nat, reliable: bool)
      returns (result: Result<(), WalkError>)
      requires i < |ROOT_FILES|
      requires Valid() && WellFormed(before) && SameOutside(before, items, target)
      requires IsDirectory(before, target) && !Encloses(target, root)
      requires InputsCopied(before, items, root, target, ROOT_FILES[..i], [])
      requires NoLinkAmong(before, root, ROOT_FILES[..i], [])
      modifies this
      ensures Valid() && SameOutside(before, items, target)
      ensures result.Ok? ==> InputsCopied(before, items, root, target, ROOT_FILES[..i + 1], [])
      ensures result.Ok? ==> NoLinkAmong(before, root, ROOT_FILES[..i + 1], [])
      ensures result == Err(LinkFound) ==> HasCoveredLink(before, root)
      ensures reliable && InputsFit(before, root, target) ==> result != Err(IoFailed)
    {
      var name := ROOT_FILES[i];
      var source := root + [name];
      var failed: bool := *;
      if failed && !reliable {
        return Err(IoFailed);
      }
      RootFileName(i);
      NotBelowTarget(root, target, name);
      InputUntouched(before, items, root, target, name, ROOT_FILES[..i], []);
      if source in items && items[source].SymbolicLink? {
        assert LinkAt(before, root, [name]);
        return Err(LinkFound);
      }
      ghost var fs := items;
      if source in items && items[source].File? {
        assert (target + [name])[..|target|] == target;
        var ok := CopyFile(source, target + [name], reliable);
        if !ok {
          PartOutside(before, fs, items, target, name);
          return Err(IoFailed);
        }
      }
      RootFileCopied(before, fs, items, root, target, i);
      RootFileNoLink(before, root, i);
      return Ok(());
    }

    method CopyRootFiles(root: Path, target: Path, reliable: bool) returns (result: Result<(), WalkError>)
      requires Valid() && IsDirectory(items, target) && EmptyBelow(items, target)
      requires !Encloses(target, root)
      modifies this
      ensures Valid() && SameOutside(old(items), items, target)
      ensures result.Ok? ==> InputsCopied(old(items), items, root, target, ROOT_FILES, [])
      ensures result.Ok? ==> NoLinkAmong(old(items), root, ROOT_FILES, [])
      ensures result == Err(LinkFound) ==> HasCoveredLink(old(items), root)
      ensures reliable && InputsFit(old(items), root, target) ==> result != Err(IoFailed)
    {
      ghost var before := items;
      assert ROOT_FILES[..0] == [];
      NothingCopied(before, root, target);
      for i := 0 to |ROOT_FILES|
        invariant Valid() && SameOutside(before, items, target)
        invariant InputsCopied(before, items, root, target, ROOT_FILES[..i], [])
        invariant NoLinkAmong(before, root, ROOT_FILES[..i], [])
      {
        var copied := CopyRootFile(before, root, target, i, reliable);
        if copied.Err? {
          return copied;
        }
      }
      assert ROOT_FILES[..|ROOT_FILES|] == ROOT_FILES;
      return Ok(());
    }

    /** A source directory that is there. */
    method CopySourceTree(ghost before: Tree, root: Path, target: Path, i: nat, reliable: bool)
      returns (result: Result<(), WalkError>)
      requires i < |SOURCE_DIRECTORIES|
      requires Valid() && WellFormed(before) && SameOutside(before, items, target)
      requires IsDirectory(before, target) && !Under(target, root + [SOURCE_DIRECTORIES[i]])
      requires IsDirectory(before, root + [SOURCE_DIRECTORIES[i]]) && IsDirectory(items, root + [SOURCE_DIRECTORIES[i]])
      requires target + [SOURCE_DIRECTORIES[i]] !in items
      requires InputsCopied(before, items, root, target, ROOT_FILES, SOURCE_DIRECTORIES[..i])
      requires NoLinkAmong(before, root, ROOT_FILES, SOURCE_DIRECTORIES[..i])
      modifies this
      ensures Valid() && SameOutside(before, items, target)
      ensures result.Ok? ==> Apart(root + [SOURCE_DIRECTORIES[i]], target)
      ensures result.Ok? ==> InputsCopied(before, items, root, target, ROOT_FILES, SOURCE_DIRECTORIES[..i + 1])
      ensures result.Ok? ==> NoLinkAmong(before, root, ROOT_FILES, SOURCE_DIRECTORIES[..i + 1])
      ensures var apart := Apart(root + [SOURCE_DIRECTORIES[i]], target);
              && (apart && result == Err(LinkFound) ==> HasCoveredLink(before, root))
              && (apart && reliable && InputsFit(before, root, target) ==> result != Err(IoFailed))
    {
      var name := SOURCE_DIRECTORIES[i];
      var source := root + [name];
      ghost var fs := items;
      ghost var apart := Apart(source, target);
      assert name in SOURCE_DIRECTORIES && (target + [name])[..|target|] == target;
      NothingBelow(fs, target + [name]);
      var ok := CreateDirectory(target + [name], reliable);
      if !ok {
        return Err(IoFailed);
      }
      ghost var made := items;
      OutsideMade(before, fs, target, name);
      if apart {
        ReadyForEntry(before, fs, root, target, name);
      } else {
        InsideItself(source, target, name);
      }
      result := CopyDirectory(source, target + [name], reliable);
      OutsideTrans(before, made, items, target, name);
      if apart {
        if result.Err? {
          DirectoryLink(before, root, i);
        } else {
          TreeInputCopied(before, fs, items, root, target, i);
          InputJoins(before, fs, items, root, target, name,
                     ROOT_FILES, SOURCE_DIRECTORIES[..i], ROOT_FILES, SOURCE_DIRECTORIES[..i + 1]);
          DirectoryNoLink(before, root, i);
        }
      }
    }

    method CopySourceDirectory(ghost before: Tree, root: Path, target: Path, i: nat, reliable: bool)
      returns (result: Result<(), WalkError>)
      requires i < |SOURCE_DIRECTORIES|
      requires Valid() && WellFormed(before) && SameOutside(before, items, target)
      requires IsDirectory(before, target) && !Encloses(target, root)
      requires InputsCopied(before, items, root, target, ROOT_FILES, SOURCE_DIRECTORIES[..i])
      requires NoLinkAmong(before, root, ROOT_FILES, SOURCE_DIRECTORIES[..i])
      modifies this
      ensures Valid() && SameOutside(before, items, target)
      ensures result.Ok? ==> Apart(root + [SOURCE_DIRECTORIES[i]], target)
      ensures result.Ok? ==> InputsCopied(before, items, root, target, ROOT_FILES, SOURCE_DIRECTORIES[..i + 1])
      ensures result.Ok? ==> NoLinkAmong(before, root, ROOT_FILES, SOURCE_DIRECTORIES[..i + 1])
      ensures var apart := Apart(root + [SOURCE_DIRECTORIES[i]], target);
              && (apart && result == Err(LinkFound) ==> HasCoveredLink(before, root))
              && (apart && reliable && InputsFit(before, root, target) ==> result != Err(IoFailed))
    {
      var name := SOURCE_DIRECTORIES[i];
      var source := root + [name];
      var failed: bool := *;
      if failed && !reliable {
        return Err(IoFailed);
      }
      DirectoryNames(i);
      NotBelowTarget(root, target, name);
      InputUntouched(before, items, root, target, name, ROOT_FILES, SOURCE_DIRECTORIES[..i]);
      if source in items && items[source].SymbolicLink? {
        assert LinkAt(before, root, [name]);
        return Err(LinkFound);
      }
      if source in items && items[source].Directory? {
        result := CopySourceTree(before, root, target, i, reliable);
      } else {
        NoTreeToCopy(before, items, root, target, i);
        InputJoins(before, items, items, root, target, name,
                   ROOT_FILES, SOURCE_DIRECTORIES[..i], ROOT_FILES, SOURCE_DIRECTORIES[..i + 1]);
        DirectoryNoLink(before, root, i);
        NotInside(before, source, target);
        result := Ok(());
      }
    }

    method CopySourceDirectories(ghost before: Tree, root: Path, target: Path, reliable: bool)
      returns (result: Result<(), WalkError>)
      requires Valid() && WellFormed(before) && SameOutside(before, items, target)
      requires IsDirectory(before, target) && !Encloses(target, root)
      requires InputsCopied(before, items, root, target, ROOT_FILES, []) && NoLinkAmong(before, root, ROOT_FILES, [])
      modifies this
      ensures Valid() && SameOutside(before, items, target)
      ensures result.Ok? ==> Clear(root, target) && !HasCoveredLink(before, root)
      ensures result.Ok? ==> InputsCopied(before, items, root, target, ROOT_FILES, SOURCE_DIRECTORIES)
      ensures Clear(root, target) && result == Err(LinkFound) ==> HasCoveredLink(before, root)
      ensures Clear(root, target) && reliable && InputsFit(before, root, target) ==> result != Err(IoFailed)
    {
      assert SOURCE_DIRECTORIES[..0] == [];
      for i := 0 to |SOURCE_DIRECTORIES|
        invariant Valid() && SameOutside(before, items, target)
        invariant InputsCopied(before, items, root, target, ROOT_FILES, SOURCE_DIRECTORIES[..i])
        invariant NoLinkAmong(before, root, ROOT_FILES, SOURCE_DIRECTORIES[..i])
        invariant ClearOf(root, target, SOURCE_DIRECTORIES[..i])
      {
        assert SOURCE_DIRECTORIES[i] in SOURCE_DIRECTORIES;
        var copied := CopySourceDirectory(before, root, target, i, reliable);
        if copied.Err? {
          return copied;
        }
        ClearMore(root, target, i);
      }
      assert SOURCE_DIRECTORIES[..|SOURCE_DIRECTORIES|] == SOURCE_DIRECTORIES;
      NoLinkAtAll(before, root);
      return Ok(());
    }

    /** The root files, then the source directories with all that is below them. */
    method CopyWorkspaceInputs(root: Path, target: Path, reliable: bool) returns (result: Result<(), WalkError>)
      requires Valid() && IsDirectory(items, target) && EmptyBelow(items, target) && !Encloses(target, root)
      modifies this
      ensures Valid() && SameOutside(old(items), items, target)
      ensures result.Ok? ==> Clear(root, target) && !HasCoveredLink(old(items), root)
      ensures result.Ok? ==> InputsCopied(old(items), items, root, target, ROOT_FILES, SOURCE_DIRECTORIES)
      ensures Clear(root, target) && result == Err(LinkFound) ==> HasCoveredLink(old(items), root)
      ensures Clear(root, target) && reliable && InputsFit(old(items), root, target) ==> result != Err(IoFailed)
    {
      result := CopyRootFiles(root, target, reliable);
      if result.Ok? {
        result := CopySourceDirectories(old(items), root, target, reliable);
      }
    }

    /** A snapshot of the workspace in a new directory. On failure as much as possible of it is removed. */
    method CreateSnapshot(root: Path, target: Path, reliable: bool) returns (result: Result<(), WalkError>)
      requires Valid() && target != [] && IsDirectory(items, root)
      modifies this
      ensures Valid()
      ensures OnlyAt(old(items), items, target) && (target in old(items) ==> items == old(items))
      ensures target !in old(items) && target in items ==> items[target].Directory?
      ensures result.Ok? ==> target !in old(items) && IsDirectory(items, target) && Clear(root, target)
      ensures result.Ok? ==> Faithful(old(items), items, root, target) && !HasCoveredLink(old(items), root)
      ensures Clear(root, target) && result == Err(LinkFound) ==> HasCoveredLink(old(items), root)
      ensures Clear(root, target) && reliable && CanCreate(old(items), target)
              && InputsFit(old(items), root, target) ==>
                result != Err(IoFailed)
      ensures reliable && result.Err? && target !in old(items) ==> items == old(items)
    {
      ghost var before := items;
      var ok := CreateDirectory(target, reliable);
      if !ok {
        return Err(IoFailed);
      }
      ghost var made := items;
      NotAround(before, root, target);
      SnapshotStarts(before, root, target);
      result := CopyWorkspaceInputs(root, target, reliable);
      SnapshotOnlyAt(before, made, items, target);
      if Clear(root, target) {
        SnapshotInputs(before, made, items, root, target);
      }
      if result.Err? {
        RemoveAll(target, reliable, before);
        if reliable {
          NothingLeft(before, items, target);
        }
      } else {
        SnapshotFaithful(before, items, root, target);
      }
    }

    /** What happens before `cargo` is started: a snapshot is taken and fingerprinted, and the result has
        to be the approved fingerprint. When this succeeds the run starts in the snapshot as it now is. */
    method PrepareRun(workspace: Path, snapshot: Path, expected: string, hash: Hash, reliable: bool)
      returns (result: Result<(), RunError>)
      requires Valid() && snapshot != [] && IsDirectory(items, workspace)
      modifies this
      ensures Valid() && OnlyAt(old(items), items, snapshot) && (snapshot in old(items) ==> items == old(items))
      ensures snapshot !in old(items) && snapshot in items ==> items[snapshot].Directory?
      ensures result.Ok? ==>
                Faithful(old(items), items, workspace, snapshot) && Matches(items, snapshot, expected, hash)
      ensures Verdict(old(items), workspace, snapshot, expected, hash, reliable, result.Ok?)
      ensures reliable && result.Err? && snapshot !in old(items) ==> items == old(items)
    {
      ghost var before := items;
      var created := CreateSnapshot(workspace, snapshot, reliable);
      if created.Err? {
        NotCreated(before, workspace, snapshot, expected, hash, reliable, created.error);
        return Err(NoSnapshot(created.error));
      }
      var compared := CompareFingerprint(items, snapshot, expected, hash, reliable);
      Compared(before, items, workspace, snapshot, expected, hash, reliable, compared.Ok?);
      if compared.Err? {
        RemoveAll(snapshot, reliable, before);
        if reliable {
          NothingLeft(before, items, snapshot);
        }
      }
      return compared;
    }
  }
}
