/** The workspace is one directory: what the fingerprint walks over as a tree is what writes go to as directories
    on disk (src/main.rs, src/filesystem.rs). */
module Mirror {
  import opened Wrappers
  import opened FileTree
  import Disk
  import Snapshot
  import WriteFile

  // ---------------------------------------------------------------- what both say about one name

  function ItemAt(tree: Tree, p: Path): Option<Item> {
    if p in tree then Some(tree[p]) else None
  }

  /** The file on disk is this item of a tree. What is in a file that is being written is not known. */
  predicate StandsFor(file: Disk.File<WriteFile.Node>, item: Item) {
    match file.data
    case Partial => item.File?
    case Whole(Text(bytes)) => item == if |bytes| < WORD then File(bytes) else Other
    case Whole(Folder) => item.Directory?
    case Whole(SymbolicLink) => item.SymbolicLink?
    case Whole(Special) => item.Other?
  }

  /** Under this name the directory has this item, or nothing. */
  predicate Has(d: WriteFile.Directory, name: FileName, item: Option<Item>) {
    var n := Disk.Named(name);
    if n in d.visible && d.visible[n] in d.inodes
      then item.Some? && StandsFor(d.inodes[d.visible[n]], item.value)
    else item.None?
  }

  /** The directory on disk is the one at `dir` in the tree. */
  predicate Shows(tree: Tree, dir: Path, d: WriteFile.Directory) {
    && (forall n <- d.visible :: n.Named? && Has(d, n.name, ItemAt(tree, dir + [n.name])))
    && (forall p <- tree :: |p| == |dir| + 1 && p[..|dir|] == dir ==> Has(d, p[|dir|], ItemAt(tree, p)))
  }

  lemma ShowsName(tree: Tree, dir: Path, d: WriteFile.Directory, name: FileName)
    requires Shows(tree, dir, d)
    ensures Has(d, name, ItemAt(tree, dir + [name]))
  {
    var p := dir + [name];
    assert p[..|dir|] == dir && p[|dir|] == name;
  }

  predicate OnlyNamed(d: WriteFile.Directory) {
    forall n <- d.visible :: n.Named?
  }

  lemma ShowsIfNames(tree: Tree, dir: Path, d: WriteFile.Directory)
    requires OnlyNamed(d) && forall name: FileName :: Has(d, name, ItemAt(tree, dir + [name]))
    ensures Shows(tree, dir, d)
  {
    forall p | p in tree && |p| == |dir| + 1 && p[..|dir|] == dir ensures Has(d, p[|dir|], ItemAt(tree, p)) {
      assert p == dir + [p[|dir|]];
    }
  }

  /** Every directory that writes can go to is there in the tree, with the same in it. */
  predicate Mirrored(tree: Tree, root: Path, folders: WriteFile.Folders) {
    forall parent <- folders :: IsDirectory(tree, root + parent) && Shows(tree, root + parent, folders[parent])
  }

  // ---------------------------------------------------------------- something new in the tree

  /** The directory with a new name in it. */
  function WithNode(d: WriteFile.Directory, name: FileName, inode: Disk.Inode,
                    node: WriteFile.Node): WriteFile.Directory
  {
    Disk.Show(d.(inodes := d.inodes[inode := Disk.File(Disk.Whole(node), 0, true)]),
              d.visible[Disk.Named(name) := inode])
  }

  predicate InFolders(folders: WriteFile.Folders, root: Path, p: Path) {
    |p| > |root| && p[..|root|] == root && p[|root|..|p| - 1] in folders
  }

  /** The directories after something has come to be at `p`. */
  function Placed(
    folders: WriteFile.Folders, root: Path, p: Path, node: WriteFile.Node, inode: Disk.Inode): WriteFile.Folders
  {
    if InFolders(folders, root, p) then
      var parent := p[|root|..|p| - 1];
      folders[parent := WithNode(folders[parent], p[|p| - 1], inode, node)]
    else folders
  }

  predicate FreshFor(folders: WriteFile.Folders, root: Path, p: Path, inode: Disk.Inode) {
    InFolders(folders, root, p) ==> inode !in folders[p[|root|..|p| - 1]].inodes
  }

  lemma UnderChild(p: Path, dir: Path, name: FileName)
    ensures Under(p, dir + [name]) ==> p == dir || Under(p, dir)
  {
    assert |p| <= |dir| ==> (dir + [name])[..|p|] == dir[..|p|];
  }

  lemma OtherItem(before: Tree, after: Tree, p: Path, dir: Path, name: FileName)
    requires WellFormed(before) && p !in before && Snapshot.OnlyAt(before, after, p) && IsDirectory(before, dir)
    ensures IsDirectory(after, dir)
    ensures dir + [name] != p ==> ItemAt(after, dir + [name]) == ItemAt(before, dir + [name])
  {
    if Under(p, dir) {
      AncestorIsDirectory(before, p, dir);
    }
    UnderChild(p, dir, name);
  }

  lemma NodeShown(d: WriteFile.Directory, name: FileName, inode: Disk.Inode, node: WriteFile.Node, other: FileName)
    requires WriteFile.Linked(d) && inode !in d.inodes
    ensures WriteFile.Linked(WithNode(d, name, inode, node))
    requires OnlyNamed(d)
    ensures OnlyNamed(WithNode(d, name, inode, node))
    ensures forall item ::
              Has(WithNode(d, name, inode, node), other, item) <==>
              if other == name then item.Some? && StandsFor(Disk.File(Disk.Whole(node), 0, true), item.value)
              else Has(d, other, item)
  {
  }

  lemma ShowsElsewhere(before: Tree, after: Tree, dir: Path, d: WriteFile.Directory)
    requires Shows(before, dir, d)
    requires forall name: FileName :: ItemAt(after, dir + [name]) == ItemAt(before, dir + [name])
    ensures Shows(after, dir, d)
  {
    forall name: FileName ensures Has(d, name, ItemAt(after, dir + [name])) {
      ShowsName(before, dir, d, name);
    }
    ShowsIfNames(after, dir, d);
  }

  lemma NothingPlaced(before: Tree, after: Tree, p: Path, dir: Path, d: WriteFile.Directory)
    requires WellFormed(before) && p !in before && Snapshot.OnlyAt(before, after, p)
    requires IsDirectory(before, dir) && Shows(before, dir, d)
    requires forall name: FileName :: dir + [name] != p
    ensures IsDirectory(after, dir) && Shows(after, dir, d)
  {
    forall name: FileName ensures ItemAt(after, dir + [name]) == ItemAt(before, dir + [name]) {
      OtherItem(before, after, p, dir, name);
    }
    ShowsElsewhere(before, after, dir, d);
    OtherItem(before, after, p, dir, [97]);
  }

  lemma PlacedHere(root: Path, p: Path)
    requires |p| > |root| && p[..|root|] == root
    ensures p == root + p[|root|..|p| - 1] + [p[|p| - 1]]
  {
    assert p == p[..|root|] + p[|root|..|p| - 1] + [p[|p| - 1]];
  }

  lemma NotHere(root: Path, parent: WriteFile.Parent, name: FileName)
    ensures var q := root + parent + [name];
            |q| > |root| && q[..|root|] == root && q[|root|..|q| - 1] == parent && q[|q| - 1] == name
  {
  }

  lemma SameChild(dir: Path, name: FileName, other: FileName)
    ensures dir + [name] == dir + [other] <==> name == other
  {
    assert (dir + [name])[|dir|] == name && (dir + [other])[|dir|] == other;
  }

  lemma ShowsPlaced(before: Tree, after: Tree, dir: Path, name: FileName, d: WriteFile.Directory,
                    node: WriteFile.Node, inode: Disk.Inode)
    requires WellFormed(before) && IsDirectory(before, dir) && Shows(before, dir, d) && WriteFile.Linked(d)
    requires dir + [name] !in before && dir + [name] in after && Snapshot.OnlyAt(before, after, dir + [name])
    requires StandsFor(Disk.File(Disk.Whole(node), 0, true), after[dir + [name]]) && inode !in d.inodes
    ensures Shows(after, dir, WithNode(d, name, inode, node)) && IsDirectory(after, dir)
    ensures WriteFile.Linked(WithNode(d, name, inode, node))
  {
    forall other: FileName ensures Has(WithNode(d, name, inode, node), other, ItemAt(after, dir + [other])) {
      SameChild(dir, name, other);
      OtherItem(before, after, dir + [name], dir, other);
      ShowsName(before, dir, d, other);
      NodeShown(d, name, inode, node, other);
    }
    ShowsIfNames(after, dir, WithNode(d, name, inode, node));
    OtherItem(before, after, dir + [name], dir, name);
    NodeShown(d, name, inode, node, name);
  }

  lemma PlacedShows(before: Tree, after: Tree, root: Path, p: Path, folders: WriteFile.Folders,
                    node: WriteFile.Node, inode: Disk.Inode, parent: WriteFile.Parent)
    requires WellFormed(before) && Mirrored(before, root, folders) && WriteFile.AllLinked(folders)
    requires p !in before && p in after && Snapshot.OnlyAt(before, after, p)
    requires StandsFor(Disk.File(Disk.Whole(node), 0, true), after[p]) && FreshFor(folders, root, p, inode)
    requires parent in folders
    ensures var placed := Placed(folders, root, p, node, inode);
            && IsDirectory(after, root + parent) && Shows(after, root + parent, placed[parent])
            && WriteFile.Linked(placed[parent])
  {
    var dir, d := root + parent, folders[parent];
    if InFolders(folders, root, p) && p[|root|..|p| - 1] == parent {
      PlacedHere(root, p);
      ShowsPlaced(before, after, dir, p[|p| - 1], d, node, inode);
    } else {
      forall name: FileName ensures dir + [name] != p {
        NotHere(root, parent, name);
      }
      NothingPlaced(before, after, p, dir, d);
    }
  }

  /** What has come to be in the tree is shown by the directories too. */
  lemma PlacedMirrors(before: Tree, after: Tree, root: Path, p: Path, folders: WriteFile.Folders,
                      node: WriteFile.Node, inode: Disk.Inode)
    requires WellFormed(before) && Mirrored(before, root, folders) && WriteFile.AllLinked(folders)
    requires p !in before && p in after && Snapshot.OnlyAt(before, after, p)
    requires StandsFor(Disk.File(Disk.Whole(node), 0, true), after[p]) && FreshFor(folders, root, p, inode)
    ensures Mirrored(after, root, Placed(folders, root, p, node, inode))
    ensures WriteFile.AllLinked(Placed(folders, root, p, node, inode))
  {
    var placed := Placed(folders, root, p, node, inode);
    forall parent | parent in placed
      ensures IsDirectory(after, root + parent) && Shows(after, root + parent, placed[parent])
      ensures WriteFile.Linked(placed[parent])
    {
      PlacedShows(before, after, root, p, folders, node, inode, parent);
    }
  }

  // ---------------------------------------------------------------- a file written

  /** Where in the tree the target of a path is. */
  function Place(root: Path, path: WriteFile.RequestedPath): Path
    requires WriteFile.HasFileName(path)
  {
    root + WriteFile.ParentOf(path) + [path[|path| - 1].name]
  }

  /** It is where the names say, one after the other, from the root of the workspace. */
  lemma PlaceSpelled(root: Path, path: WriteFile.RequestedPath)
    requires path != [] && forall component <- path :: component.Normal?
    ensures WriteFile.HasFileName(path) && |Place(root, path)| == |root| + |path|
    ensures forall k | 0 <= k < |root| :: Place(root, path)[k] == root[k]
    ensures forall k | 0 <= k < |path| :: Place(root, path)[|root| + k] == path[k].name
  {
    var last := |path| - 1;
    assert path[last] in path;
    forall component | component in path[..last] ensures component.Normal? {
      assert component in path;
    }
    WriteFile.NamesInOrder(path[..last]);
  }

  /** Leaving out a component that stands for the directory it is in makes no difference. */
  lemma PlaceWithout(root: Path, a: WriteFile.RequestedPath, b: WriteFile.RequestedPath)
    requires WriteFile.HasFileName(b)
    ensures WriteFile.HasFileName(a + [WriteFile.CurDir] + b) && WriteFile.HasFileName(a + b)
    ensures Place(root, a + [WriteFile.CurDir] + b) == Place(root, a + b)
  {
    var long, short, c := a + [WriteFile.CurDir] + b, a + b, b[..|b| - 1];
    assert long[..|long| - 1] == a + [WriteFile.CurDir] + c && short[..|short| - 1] == a + c;
    WriteFile.NamesSkip(a, WriteFile.CurDir, c);
  }

  lemma WrittenItem(before: WriteFile.Directory, after: WriteFile.Directory, name: FileName, content: WriteFile.Bytes,
                    mode: nat, other: FileName)
    requires WriteFile.Linked(before) && WriteFile.Writable(before, Disk.Named(name)) && |content| < WORD
    requires WriteFile.OnlyReplaced(before, after, Disk.Named(name),
                                    WriteFile.NewFile(before, Disk.Named(name), content, mode))
    ensures forall item :: Has(after, other, item) <==>
                           if other == name then item == Some(File(content)) else Has(before, other, item)
  {
  }

  lemma ShowsWritten(tree: Tree, dir: Path, name: FileName, before: WriteFile.Directory, after: WriteFile.Directory,
                     content: WriteFile.Bytes, mode: nat)
    requires Shows(tree, dir, before) && |content| < WORD
    requires WriteFile.Linked(before) && WriteFile.Writable(before, Disk.Named(name))
    requires WriteFile.OnlyReplaced(before, after, Disk.Named(name),
                                    WriteFile.NewFile(before, Disk.Named(name), content, mode))
    ensures Shows(tree[dir + [name] := File(content)], dir, after)
  {
    var next := tree[dir + [name] := File(content)];
    forall other: FileName ensures Has(after, other, ItemAt(next, dir + [other])) {
      SameChild(dir, name, other);
      ShowsName(tree, dir, before, other);
      WrittenItem(before, after, name, content, mode, other);
    }
    ShowsIfNames(next, dir, after);
  }

  /** A target that can be written to is missing from the tree or a file in it, and its directory is there. */
  lemma TargetInTree(tree: Tree, root: Path, folders: WriteFile.Folders, path: WriteFile.RequestedPath)
    requires Mirrored(tree, root, folders) && WriteFile.AllLinked(folders) && WriteFile.WritablePath(folders, path)
    ensures var p := Place(root, path);
            && IsDirectory(tree, p[..|p| - 1])
            && (p in tree ==> !tree[p].Directory?)
  {
    var p, parent := Place(root, path), WriteFile.ParentOf(path);
    assert p[..|p| - 1] == root + parent;
    ShowsName(tree, root + parent, folders[parent], path[|path| - 1].name);
  }

  /** A write that has gone well leaves a workspace in which the tree has the content too. */
  lemma WroteMirrors(tree: Tree, root: Path, before: WriteFile.Folders, after: WriteFile.Folders,
                     path: WriteFile.RequestedPath, content: WriteFile.Bytes, mode: nat)
    requires Mirrored(tree, root, before) && WriteFile.AllLinked(before) && |content| < WORD
    requires WriteFile.WritablePath(before, path) && WriteFile.Wrote(before, after, path, content, mode)
    ensures Mirrored(tree[Place(root, path) := File(content)], root, after)
  {
    var p, target := Place(root, path), WriteFile.ParentOf(path);
    var next := tree[p := File(content)];
    TargetInTree(tree, root, before, path);
    forall parent | parent in after
      ensures IsDirectory(next, root + parent) && Shows(next, root + parent, after[parent])
    {
      if parent == target {
        ShowsWritten(tree, root + target, path[|path| - 1].name, before[target], after[target], content, mode);
      } else {
        forall other: FileName
          ensures ItemAt(next, root + parent + [other]) == ItemAt(tree, root + parent + [other])
        {
          NotHere(root, parent, other);
          NotHere(root, target, path[|path| - 1].name);
        }
        ShowsElsewhere(tree, next, root + parent, before[parent]);
      }
    }
  }

  // ---------------------------------------------------------------- a file not written

  /** Where in the tree a temporary next to the target is. */
  function TemporaryPlace(root: Path, path: WriteFile.RequestedPath, temporary: FileName): Path
    requires path != []
  {
    root + WriteFile.ParentOf(path) + [temporary]
  }

  function BytesIn(file: Disk.File<WriteFile.Node>): Bytes {
    if file.data.Whole? && file.data.value.Text? && |file.data.value.bytes| < WORD then file.data.value.bytes else []
  }

  /** The tree after a write has failed: a temporary that has been left is there, and what had its name may be gone. */
  function LeftIn(tree: Tree, p: Path, d: WriteFile.Directory): Tree
    requires p != []
  {
    var n := Disk.Named(p[|p| - 1]);
    if n !in d.visible || d.visible[n] !in d.inodes then tree - {p}
    else if p in tree then tree
    else tree[p := File(BytesIn(d.inodes[d.visible[n]]))]
  }

  lemma KeptName(tree: Tree, dir: Path, temporary: FileName, before: WriteFile.Directory, after: WriteFile.Directory,
                 content: WriteFile.Bytes, name: FileName)
    requires Shows(tree, dir, before) && WriteFile.Linked(before) && WriteFile.Linked(after) && |content| < WORD
    requires WriteFile.Kept(before, after, Disk.Named(temporary), content)
    ensures Has(after, name, ItemAt(LeftIn(tree, dir + [temporary], after), dir + [name]))
  {
    ShowsName(tree, dir, before, name);
    SameChild(dir, name, temporary);
    if name != temporary {
      assert WriteFile.SameEntry(after.visible, before.visible, Disk.Named(name));
    }
  }

  lemma KeptOnlyNamed(before: WriteFile.Directory, after: WriteFile.Directory, temporary: FileName,
                      content: WriteFile.Bytes)
    requires OnlyNamed(before) && WriteFile.Kept(before, after, Disk.Named(temporary), content)
    ensures OnlyNamed(after)
  {
    forall n | n in after.visible ensures n.Named? {
      if n != Disk.Named(temporary) {
        assert WriteFile.SameEntry(after.visible, before.visible, n);
      }
    }
  }

  /** What had the name of the temporary and is gone was no directory. */
  lemma NoDirectoryGone(tree: Tree, dir: Path, temporary: FileName, before: WriteFile.Directory,
                        after: WriteFile.Directory, content: WriteFile.Bytes)
    requires Shows(tree, dir, before) && WriteFile.Linked(before)
    requires WriteFile.Kept(before, after, Disk.Named(temporary), content)
    requires Disk.Named(temporary) !in after.visible
    ensures dir + [temporary] in tree ==> !tree[dir + [temporary]].Directory?
  {
    ShowsName(tree, dir, before, temporary);
  }

  lemma DirectoryStays(tree: Tree, dir: Path, temporary: FileName, before: WriteFile.Directory,
                       after: WriteFile.Directory, content: WriteFile.Bytes, q: Path)
    requires Shows(tree, dir, before) && WriteFile.Linked(before) && WriteFile.Linked(after) && IsDirectory(tree, q)
    requires WriteFile.Kept(before, after, Disk.Named(temporary), content)
    ensures IsDirectory(LeftIn(tree, dir + [temporary], after), q)
  {
    ShowsName(tree, dir, before, temporary);
  }

  lemma LeftHere(tree: Tree, dir: Path, temporary: FileName, before: WriteFile.Directory, after: WriteFile.Directory,
                 content: WriteFile.Bytes)
    requires Shows(tree, dir, before) && WriteFile.Linked(before) && WriteFile.Linked(after) && |content| < WORD
    requires WriteFile.Kept(before, after, Disk.Named(temporary), content)
    ensures Shows(LeftIn(tree, dir + [temporary], after), dir, after)
  {
    var next := LeftIn(tree, dir + [temporary], after);
    forall name: FileName ensures Has(after, name, ItemAt(next, dir + [name])) {
      KeptName(tree, dir, temporary, before, after, content, name);
    }
    KeptOnlyNamed(before, after, temporary, content);
    ShowsIfNames(next, dir, after);
  }

  lemma LeftElsewhere(tree: Tree, root: Path, target: WriteFile.Parent, temporary: FileName, d: WriteFile.Directory,
                      parent: WriteFile.Parent, other: WriteFile.Directory)
    requires parent != target && Shows(tree, root + parent, other)
    ensures Shows(LeftIn(tree, root + target + [temporary], d), root + parent, other)
  {
    var next := LeftIn(tree, root + target + [temporary], d);
    forall name: FileName ensures ItemAt(next, root + parent + [name]) == ItemAt(tree, root + parent + [name]) {
      NotHere(root, parent, name);
      NotHere(root, target, temporary);
    }
    ShowsElsewhere(tree, next, root + parent, other);
  }

  /** A write that has failed leaves the directories as the tree then has them. */
  lemma UntouchedMirrors(
    tree: Tree, root: Path, before: WriteFile.Folders, after: WriteFile.Folders, path: WriteFile.RequestedPath,
    temporary: FileName, content: WriteFile.Bytes)
    requires Mirrored(tree, root, before) && WriteFile.AllLinked(before) && WriteFile.AllLinked(after)
    requires WriteFile.Untouched(before, after, path, temporary, content) && after != before
    ensures var p := TemporaryPlace(root, path, temporary);
            Mirrored(LeftIn(tree, p, after[WriteFile.ParentOf(path)]), root, after)
  {
    var target := WriteFile.ParentOf(path);
    var p := TemporaryPlace(root, path, temporary);
    var next := LeftIn(tree, p, after[target]);
    forall parent | parent in after
      ensures IsDirectory(next, root + parent) && Shows(next, root + parent, after[parent])
    {
      DirectoryStays(tree, root + target, temporary, before[target], after[target], content, root + parent);
      if parent == target {
        LeftHere(tree, root + target, temporary, before[target], after[target], content);
      } else {
        LeftElsewhere(tree, root, target, temporary, after[target], parent, before[parent]);
      }
    }
  }

  lemma WellFormedWithout(tree: Tree, p: Path)
    requires WellFormed(tree) && (p in tree ==> !tree[p].Directory?)
    ensures WellFormed(tree - {p})
  {
    forall q | q in tree - {p} ensures InDirectory(tree - {p}, q) && PathLength(q) < WORD {
      assert InDirectory(tree, q);
    }
  }

  /** And the tree is one. */
  lemma LeftWellFormed(
    tree: Tree, root: Path, before: WriteFile.Folders, after: WriteFile.Folders, path: WriteFile.RequestedPath,
    temporary: FileName, content: WriteFile.Bytes)
    requires WellFormed(tree) && Mirrored(tree, root, before) && WriteFile.AllLinked(before)
    requires WriteFile.AllLinked(after) && WriteFile.Untouched(before, after, path, temporary, content)
    requires after != before && PathLength(TemporaryPlace(root, path, temporary)) < WORD
    ensures WellFormed(LeftIn(tree, TemporaryPlace(root, path, temporary), after[WriteFile.ParentOf(path)]))
  {
    var target := WriteFile.ParentOf(path);
    var dir, p := root + target, TemporaryPlace(root, path, temporary);
    assert p[..|p| - 1] == dir;
    if Disk.Named(temporary) !in after[target].visible {
      NoDirectoryGone(tree, dir, temporary, before[target], after[target], content);
      WellFormedWithout(tree, p);
    } else if p !in tree {
      Snapshot.AddItem(tree, p, File(BytesIn(after[target].inodes[after[target].visible[Disk.Named(temporary)]])));
    }
  }
}
