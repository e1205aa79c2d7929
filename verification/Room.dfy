/** Where the gateway makes files of its own, and when there is room for them: the temporary of a write and the
    snapshot of a Cargo test (src/filesystem.rs, src/workspace_snapshot.rs). */
module Room {
  import opened Workplace
  import Disk
  import FileTree
  import Mirror
  import Snapshot
  import Uuids
  import WriteFile

  // ---------------------------------------------------------------- names that are free

  // Where snapshots are made, and how their names begin; a UUID follows.
  datatype Scratch = Scratch(directory: FileTree.Path, prefix: FileTree.FileName)

  function SnapshotAt(scratch: Scratch, uuid: Uuids.Drawn): FileTree.Path {
    scratch.directory + [Uuids.NameWith(scratch.prefix, uuid, [])]
  }

  /** There are fewer files than UUIDs. */
  predicate Uncrowded(site: Site) {
    |site.tree| + 1 < Uuids.UUIDS
  }

  /** Neither the target's path nor that of a temporary next to it is too long. */
  predicate PathFits(home: Home, path: string) {
    var target := home.components(path);
    WriteFile.HasFileName(target) ==>
      && FileTree.PathLength(Mirror.Place(home.root, target)) < FileTree.WORD
      && FileTree.PathLength(home.root + WriteFile.ParentOf(target)) + Uuids.TEMPORARY_LENGTH < FileTree.WORD
  }

  predicate CanWrite(home: Home, site: Site, path: string) {
    Uncrowded(site) && PathFits(home, path)
  }

  /** A snapshot can be made under any free name: its directory is there and outside the source directories, and no
      path in it gets too long. */
  ghost predicate Roomy(home: Home, site: Site, scratch: Scratch) {
    && Uncrowded(site)
    && forall uuid: Uuids.Drawn | SnapshotAt(scratch, uuid) !in site.tree ::
         && Snapshot.CanCreate(site.tree, SnapshotAt(scratch, uuid))
         && Snapshot.Clear(home.root, SnapshotAt(scratch, uuid))
         && Snapshot.InputsFit(site.tree, home.root, SnapshotAt(scratch, uuid))
  }

  lemma FreeSnapshot(tree: FileTree.Tree, scratch: Scratch)
    requires |tree| < Uuids.UUIDS
    ensures exists n: nat :: Uuids.Number(n) && SnapshotAt(scratch, Uuids.Text(n)) !in tree
  {
    Uuids.NewName(tree.Keys, scratch.directory, scratch.prefix, []);
    var n: nat :| Uuids.Number(n)
                  && scratch.directory + [Uuids.NameWith(scratch.prefix, Uuids.Text(n), [])] !in tree.Keys;
    assert SnapshotAt(scratch, Uuids.Text(n)) !in tree;
  }

  /** Free in the tree, and not the name of the target. */
  predicate FreeTemporary(tree: FileTree.Tree, root: FileTree.Path, target: WriteFile.RequestedPath, n: nat)
    requires WriteFile.HasFileName(target)
  {
    && Uuids.Number(n)
    && Mirror.TemporaryPlace(root, target, Uuids.TemporaryName(Uuids.Text(n))) !in tree
    && Uuids.TemporaryName(Uuids.Text(n)) != target[|target| - 1].name
  }

  lemma TemporaryIsFree(tree: FileTree.Tree, root: FileTree.Path, target: WriteFile.RequestedPath)
    requires WriteFile.HasFileName(target) && |tree| + 1 < Uuids.UUIDS
    ensures exists n: nat :: FreeTemporary(tree, root, target, n)
  {
    var dir, taken := root + WriteFile.ParentOf(target), tree.Keys + {Mirror.Place(root, target)};
    Uuids.NewName(taken, dir, Uuids.TEMPORARY_PREFIX, Uuids.TEMPORARY_SUFFIX);
    var n: nat :| Uuids.Number(n) && dir + [Uuids.NameWith(Uuids.TEMPORARY_PREFIX, Uuids.Text(n),
                                                           Uuids.TEMPORARY_SUFFIX)] !in taken;
    assert FreeTemporary(tree, root, target, n);
  }

  lemma TemporaryFits(home: Home, path: string, uuid: Uuids.Drawn)
    requires PathFits(home, path) && WriteFile.HasFileName(home.components(path))
    ensures FileTree.PathLength(Mirror.TemporaryPlace(home.root, home.components(path), Uuids.TemporaryName(uuid)))
            < FileTree.WORD
  {
    FileTree.PathLengthSplit(home.root + WriteFile.ParentOf(home.components(path)), [Uuids.TemporaryName(uuid)]);
  }

  /** A name that is free in the tree is free on disk. */
  lemma FreeOnDisk(home: Home, site: Site, target: WriteFile.RequestedPath, name: FileTree.FileName)
    requires ValidSite(home, site) && target != [] && Mirror.TemporaryPlace(home.root, target, name) !in site.tree
    ensures WriteFile.Unused(site.folders, target, name)
  {
    var parent := WriteFile.ParentOf(target);
    if parent in site.folders {
      Mirror.ShowsName(site.tree, home.root + parent, site.folders[parent], name);
    }
  }

  // ---------------------------------------------------------------- when there is room

  /** The snapshots' directory is there, outside the source directories, and far from too deep. */
  predicate Spare(home: Home, site: Site, scratch: Scratch) {
    && Uncrowded(site) && FileTree.IsDirectory(site.tree, scratch.directory)
    && (forall name <- FileTree.SOURCE_DIRECTORIES ::
          scratch.directory != home.root + [name] && !FileTree.Under(home.root + [name], scratch.directory))
    && forall p <- site.tree ::
         FileTree.PathLength(p) + FileTree.PathLength(scratch.directory) + |scratch.prefix| + 64 < FileTree.WORD
  }

  lemma SnapshotLength(scratch: Scratch, uuid: Uuids.Drawn, name: FileTree.FileName)
    ensures var p := SnapshotAt(scratch, uuid);
            && FileTree.PathLength(p) == FileTree.PathLength(scratch.directory) + |scratch.prefix| + 37
            && FileTree.PathLength(p + [name]) == FileTree.PathLength(p) + |name| + 1
  {
    FileTree.PathLengthSplit(scratch.directory, [Uuids.NameWith(scratch.prefix, uuid, [])]);
    FileTree.PathLengthSplit(SnapshotAt(scratch, uuid), [name]);
  }

  lemma PrefixIsThere(tree: FileTree.Tree, root: FileTree.Path, k: nat)
    requires FileTree.WellFormed(tree) && root in tree && k <= |root|
    ensures root[..k] in tree
  {
    if k < |root| {
      FileTree.AncestorIsDirectory(tree, root[..k], root);
    } else {
      assert root[..k] == root;
    }
  }

  /** What is not there has nothing there below it. */
  lemma NotAbove(tree: FileTree.Tree, root: FileTree.Path, name: FileTree.FileName, p: FileTree.Path)
    requires FileTree.WellFormed(tree) && root in tree && p !in tree
    ensures !FileTree.Under(p, root + [name])
  {
    if |p| <= |root| {
      PrefixIsThere(tree, root, |p|);
      assert (root + [name])[..|p|] == root[..|p|];
    }
  }

  lemma SnapshotClear(home: Home, site: Site, scratch: Scratch, uuid: Uuids.Drawn)
    requires ValidSite(home, site) && Spare(home, site, scratch) && SnapshotAt(scratch, uuid) !in site.tree
    ensures Snapshot.Clear(home.root, SnapshotAt(scratch, uuid))
  {
    var p, last := SnapshotAt(scratch, uuid), Uuids.NameWith(scratch.prefix, uuid, []);
    forall name | name in FileTree.SOURCE_DIRECTORIES ensures Snapshot.Apart(home.root + [name], p) {
      var q := home.root + [name];
      NotAbove(site.tree, home.root, name, p);
      assert p[|p| - 1] == last && q[|q| - 1] == name && |name| < |last|;
      if |q| <= |scratch.directory| {
        assert scratch.directory[..|q|] == p[..|q|];
      }
    }
  }

  lemma NamesAreShort(name: FileTree.FileName)
    requires name in FileTree.ROOT_FILES || name in FileTree.SOURCE_DIRECTORIES
    ensures |name| <= 10
  {
  }

  lemma InputFits(home: Home, site: Site, scratch: Scratch, uuid: Uuids.Drawn, name: FileTree.FileName,
                  p: FileTree.Path)
    requires Spare(home, site, scratch) && p in site.tree && |name| <= 10
    ensures FileTree.PathLength(p) + FileTree.PathLength(SnapshotAt(scratch, uuid) + [name]) < FileTree.WORD
  {
    SnapshotLength(scratch, uuid, name);
  }

  lemma SnapshotInputsFit(home: Home, site: Site, scratch: Scratch, uuid: Uuids.Drawn)
    requires ValidSite(home, site) && Spare(home, site, scratch)
    ensures Snapshot.InputsFit(site.tree, home.root, SnapshotAt(scratch, uuid))
  {
    var target := SnapshotAt(scratch, uuid);
    forall name | name in FileTree.ROOT_FILES ensures FileTree.PathLength(target + [name]) < FileTree.WORD {
      NamesAreShort(name);
      InputFits(home, site, scratch, uuid, name, home.root);
    }
    forall name | name in FileTree.SOURCE_DIRECTORIES
      ensures FileTree.PathLength(target + [name]) < FileTree.WORD
      ensures Snapshot.Fits(site.tree, home.root + [name], target + [name])
    {
      NamesAreShort(name);
      InputFits(home, site, scratch, uuid, name, home.root);
      forall p | p in site.tree
        ensures FileTree.PathLength(p) + FileTree.PathLength(target + [name]) < FileTree.WORD
      {
        InputFits(home, site, scratch, uuid, name, p);
      }
    }
  }

  /** In such a workspace there is room for a snapshot. */
  lemma SpareIsRoomy(home: Home, site: Site, scratch: Scratch)
    requires ValidSite(home, site) && Spare(home, site, scratch)
    ensures Roomy(home, site, scratch)
  {
    forall uuid: Uuids.Drawn | SnapshotAt(scratch, uuid) !in site.tree
      ensures Snapshot.CanCreate(site.tree, SnapshotAt(scratch, uuid))
      ensures Snapshot.Clear(home.root, SnapshotAt(scratch, uuid))
      ensures Snapshot.InputsFit(site.tree, home.root, SnapshotAt(scratch, uuid))
    {
      var p := SnapshotAt(scratch, uuid);
      SnapshotLength(scratch, uuid, [97]);
      assert p[..|p| - 1] == scratch.directory && home.root in site.tree;
      SnapshotClear(home, site, scratch, uuid);
      SnapshotInputsFit(home, site, scratch, uuid);
    }
  }

  const WORK: FileTree.FileName := [119]
  const TMP: FileTree.FileName := [116]

  const MANIFEST: FileTree.Path := [WORK, FileTree.CARGO_TOML]

  const EXAMPLE := Site(map[[] := FileTree.Directory, [WORK] := FileTree.Directory, [TMP] := FileTree.Directory,
                            MANIFEST := FileTree.File([])], map[], {})

  lemma ExampleIsValid(home: Home)
    requires home.root == [WORK]
    ensures EXAMPLE.tree.Keys == {[], [WORK], [TMP], MANIFEST}
    ensures ValidSite(home, EXAMPLE) && home.root + [FileTree.CARGO_TOML] in EXAMPLE.tree
    ensures !FileTree.HasCoveredLink(EXAMPLE.tree, home.root)
    ensures forall p <- EXAMPLE.tree :: FileTree.PathLength(p) <= 13
  {
    assert EXAMPLE.tree.Keys == {[], [WORK], [TMP], MANIFEST};
    assert home.root + [FileTree.CARGO_TOML] == MANIFEST;
    assert MANIFEST[..1] == [WORK] && [WORK][..0] == [] && [TMP][..0] == [];
    FileTree.PathLengthSplit([WORK], [FileTree.CARGO_TOML]);
    assert FileTree.PathLength([WORK]) == 2 && FileTree.PathLength([TMP]) == 2;
  }

  /** A workspace with a manifest in one directory, and another directory for snapshots: here there is room. */
  lemma RoomExample(home: Home, path: string)
    returns (site: Site, scratch: Scratch)
    requires home.root == [WORK] && home.components(path) == [WriteFile.Normal(FileTree.CARGO_TOML)]
    ensures ValidSite(home, site) && home.root + [FileTree.CARGO_TOML] in site.tree
    ensures !FileTree.HasCoveredLink(site.tree, home.root)
    ensures Roomy(home, site, scratch) && CanWrite(home, site, path)
  {
    scratch, site := Scratch([TMP], [97]), EXAMPLE;
    ExampleIsValid(home);
    assert FileTree.PathLength([TMP]) == 2 && FileTree.PathLength([WORK]) == 2;
    SpareIsRoomy(home, site, scratch);
    var target := home.components(path);
    assert home.root + WriteFile.ParentOf(target) == [WORK] && Mirror.Place(home.root, target) == MANIFEST;
  }

  // ---------------------------------------------------------------- a workspace stays one

  lemma RootStays(home: Home, before: FileTree.Tree, after: FileTree.Tree, snapshot: FileTree.Path)
    requires FileTree.WellFormed(before) && FileTree.IsDirectory(before, home.root)
    requires snapshot !in before && Snapshot.OnlyAt(before, after, snapshot)
    ensures FileTree.IsDirectory(after, home.root)
  {
    Snapshot.NotAround(before, home.root, snapshot);
  }

  /** A snapshot, or what is left of one, is in the tree and on disk, and the workspace is where it was. */
  lemma SnapshotShown(home: Home, before: Site, tree: FileTree.Tree, snapshot: FileTree.Path, inode: Disk.Inode)
    requires ValidSite(home, before) && FileTree.WellFormed(tree) && Snapshot.OnlyAt(before.tree, tree, snapshot)
    requires snapshot in before.tree ==> tree == before.tree
    requires snapshot !in before.tree && snapshot in tree ==> tree[snapshot].Directory?
    requires Mirror.FreshFor(before.folders, home.root, snapshot, inode)
    ensures snapshot in tree && snapshot !in before.tree ==>
              ValidSite(home, before.(tree := tree, folders :=
                Mirror.Placed(before.folders, home.root, snapshot, WriteFile.Folder, inode)))
    ensures !(snapshot in tree && snapshot !in before.tree) ==> tree == before.tree
  {
    if snapshot in tree && snapshot !in before.tree {
      Mirror.PlacedMirrors(before.tree, tree, home.root, snapshot, before.folders, WriteFile.Folder, inode);
      RootStays(home, before.tree, tree, snapshot);
    } else if snapshot !in tree && snapshot !in before.tree {
      Snapshot.NothingLeft(before.tree, tree, snapshot);
    }
  }

  lemma WrittenTree(home: Home, tree: FileTree.Tree, p: FileTree.Path, content: FileTree.Bytes)
    requires FileTree.WellFormed(tree) && FileTree.IsDirectory(tree, home.root)
    requires p != [] && FileTree.IsDirectory(tree, p[..|p| - 1]) && (p in tree ==> !tree[p].Directory?)
    requires FileTree.PathLength(p) < FileTree.WORD
    ensures FileTree.WellFormed(tree[p := FileTree.File(content)])
    ensures FileTree.IsDirectory(tree[p := FileTree.File(content)], home.root)
  {
    Snapshot.AddItem(tree, p, FileTree.File(content));
  }

  /** A write that has gone well leaves a workspace, with the file in its tree. */
  lemma WrittenIsValid(home: Home, before: Site, path: string, content: string, after: Site)
    requires ValidSite(home, before) && PathFits(home, path) && WriteFile.AllLinked(after.folders)
    requires Written(home, before, path, content, after)
    ensures ValidSite(home, after)
  {
    var target, bytes := home.components(path), home.bytes(content);
    Mirror.TargetInTree(before.tree, home.root, before.folders, target);
    Mirror.WroteMirrors(before.tree, home.root, before.folders, after.folders, target, bytes, home.defaultMode);
    WrittenTree(home, before.tree, Mirror.Place(home.root, target), bytes);
  }

  lemma RootStaysIn(home: Home, before: Site, path: string, content: string, after: Site, uuid: Uuids.Drawn)
    requires ValidSite(home, before) && WriteFile.AllLinked(after.folders) && after.folders != before.folders
    requires LeftBehind(home, before, path, content, after, uuid)
    ensures FileTree.IsDirectory(after.tree, home.root)
  {
    var parent, name := WriteFile.ParentOf(home.components(path)), Uuids.TemporaryName(uuid);
    Mirror.DirectoryStays(before.tree, home.root + parent, name, before.folders[parent], after.folders[parent],
                          home.bytes(content), home.root);
  }

  /** And one that has failed leaves one too. */
  lemma LeftIsValid(home: Home, before: Site, path: string, content: string, after: Site, uuid: Uuids.Drawn)
    requires ValidSite(home, before) && PathFits(home, path) && WriteFile.AllLinked(after.folders)
    requires LeftBehind(home, before, path, content, after, uuid) && after.folders != before.folders
    ensures ValidSite(home, after)
  {
    var target, name, bytes := home.components(path), Uuids.TemporaryName(uuid), home.bytes(content);
    TemporaryFits(home, path, uuid);
    Mirror.UntouchedMirrors(before.tree, home.root, before.folders, after.folders, target, name, bytes);
    Mirror.LeftWellFormed(before.tree, home.root, before.folders, after.folders, target, name, bytes);
    RootStaysIn(home, before, path, content, after, uuid);
  }
}
