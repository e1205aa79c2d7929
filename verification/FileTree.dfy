/** A file tree as a map from paths to what is there, and the part of it the Cargo fingerprint covers
    (src/workspace_fingerprint.rs, src/workspace_snapshot.rs). */
module FileTree {
  type Byte = x: int | 0 <= x < 256

  const SLASH: Byte := 47

  // Lengths are machine words.
  const WORD: nat := 0x1_0000_0000_0000_0000

  type Bytes = s: seq<Byte> | |s| < WORD

  // A file name: not empty, no separator. Names are taken to be UTF-8, so their lossy form is themselves.
  type FileName = s: seq<Byte> | |s| > 0 && SLASH !in s witness [97]

  type Path = seq<FileName>

  datatype Item = File(contents: Bytes) | Directory | SymbolicLink | Other

  type Tree = map<Path, Item>

  /** `p` lies strictly below `dir`. */
  predicate Under(dir: Path, p: Path) {
    |dir| < |p| && p[..|dir|] == dir
  }

  predicate IsDirectory(fs: Tree, p: Path) {
    p in fs && fs[p].Directory?
  }

  predicate InDirectory(fs: Tree, p: Path) {
    p != [] ==> IsDirectory(fs, p[..|p| - 1])
  }

  function PathLength(p: Path): nat {
    if p == [] then 0 else |p[0]| + 1 + PathLength(p[1..])
  }

  /** Everything but the root is in a directory, and no path is longer than a machine word can say. */
  predicate WellFormed(fs: Tree) {
    forall p <- fs :: InDirectory(fs, p) && PathLength(p) < WORD
  }

  lemma {:induction false} AncestorIsDirectory(fs: Tree, dir: Path, p: Path)
    requires WellFormed(fs) && p in fs && Under(dir, p)
    ensures IsDirectory(fs, dir)
    decreases |p|
  {
    var parent := p[..|p| - 1];
    assert InDirectory(fs, p);
    if |parent| > |dir| {
      assert parent[..|dir|] == dir;
      AncestorIsDirectory(fs, dir, parent);
    } else {
      assert parent == dir;
    }
  }

  lemma {:induction false} PathLengthSplit(p: Path, q: Path)
    ensures PathLength(p + q) == PathLength(p) + PathLength(q)
  {
    if p == [] {
      assert p + q == q;
    } else {
      assert (p + q)[1..] == p[1..] + q;
      PathLengthSplit(p[1..], q);
    }
  }

  // ---------------------------------------------------------------- directory entries

  function Children(fs: Tree, dir: Path): set<Path> {
    set p | p in fs && Under(dir, p) && |p| == |dir| + 1
  }

  /** The entry of `dir` on the way to `p`. */
  function EntryOf(dir: Path, p: Path): Path
    requires Under(dir, p)
  {
    p[..|dir| + 1]
  }

  lemma EntryIsChild(fs: Tree, dir: Path, p: Path)
    requires WellFormed(fs) && p in fs && Under(dir, p)
    ensures EntryOf(dir, p) in Children(fs, dir)
    ensures p == EntryOf(dir, p) || (Under(EntryOf(dir, p), p) && IsDirectory(fs, EntryOf(dir, p)))
  {
    var e := EntryOf(dir, p);
    assert e[..|dir|] == dir;
    if p != e {
      AncestorIsDirectory(fs, e, p);
    }
  }

  /** `p` is the entry or lies below it exactly when the entry is the one on the way to `p`. */
  lemma UnderEntry(dir: Path, entry: Path, p: Path)
    requires Under(dir, entry) && |entry| == |dir| + 1
    ensures (p == entry || Under(entry, p)) <==> (Under(dir, p) && EntryOf(dir, p) == entry)
  {
    if p == entry || Under(entry, p) {
      assert p[..|dir|] == p[..|dir| + 1][..|dir|];
      assert p[..|dir| + 1] == entry;
    }
  }

  // ---------------------------------------------------------------- the covered part of a workspace

  const CARGO_TOML: FileName := [67, 97, 114, 103, 111, 46, 116, 111, 109, 108]
  const CARGO_LOCK: FileName := [67, 97, 114, 103, 111, 46, 108, 111, 99, 107]
  const BUILD_RS: FileName := [98, 117, 105, 108, 100, 46, 114, 115]
  const SRC: FileName := [115, 114, 99]
  const TESTS: FileName := [116, 101, 115, 116, 115]

  const ROOT_FILES: seq<FileName> := [CARGO_TOML, CARGO_LOCK, BUILD_RS]
  const SOURCE_DIRECTORIES: seq<FileName> := [SRC, TESTS]

  /** Relative names of files the fingerprint is about. */
  predicate CoveredName(rel: Path) {
    || (|rel| == 1 && rel[0] in ROOT_FILES)
    || (|rel| >= 2 && rel[0] in SOURCE_DIRECTORIES)
  }

  /** Relative names the two walks look at. */
  predicate VisitedName(rel: Path) {
    CoveredName(rel) || (|rel| == 1 && rel[0] in SOURCE_DIRECTORIES)
  }

  predicate CoveredFile(fs: Tree, root: Path, rel: Path) {
    CoveredName(rel) && root + rel in fs && fs[root + rel].File?
  }

  function RelativePaths(fs: Tree, root: Path): set<Path> {
    set p | p in fs && Under(root, p) :: p[|root|..]
  }

  lemma RelativePathsMeaning(fs: Tree, root: Path, rel: Path)
    ensures rel in RelativePaths(fs, root) <==> rel != [] && root + rel in fs
  {
    if rel != [] && root + rel in fs {
      var p := root + rel;
      assert p[..|root|] == root && p[|root|..] == rel;
      assert Under(root, p);
    }
    if rel in RelativePaths(fs, root) {
      var p :| p in fs && Under(root, p) && p[|root|..] == rel;
      assert root + rel == p;
    }
  }

  /** The covered files of the workspace at `root`: relative path to contents. */
  function CoveredFiles(fs: Tree, root: Path): map<Path, Bytes> {
    map rel | rel in RelativePaths(fs, root) && CoveredFile(fs, root, rel) :: fs[root + rel].contents
  }

  lemma CoveredFilesMeaning(fs: Tree, root: Path, rel: Path)
    ensures rel in CoveredFiles(fs, root) <==> CoveredFile(fs, root, rel)
    ensures CoveredFile(fs, root, rel) ==> CoveredFiles(fs, root)[rel] == fs[root + rel].contents
  {
    RelativePathsMeaning(fs, root, rel);
  }

  /** A symbolic link where one of the walks would look. */
  predicate LinkAt(fs: Tree, root: Path, rel: Path) {
    VisitedName(rel) && root + rel in fs && fs[root + rel].SymbolicLink?
  }

  ghost predicate HasCoveredLink(fs: Tree, root: Path) {
    exists rel :: LinkAt(fs, root, rel)
  }
}
