/** A directory on disk, one primitive operation at a time: which names it shows, which files they
    name, and which images of it could come back after power loss. The anchored directory handles of
    src/pending_review.rs and src/filesystem.rs are used through these operations only. */
module Disk {
  import opened Wrappers
  import FileTree

  type Inode = nat

  // A file name, and the temporaries of the review store, which it names by a fresh UUID.
  datatype Name = Named(name: FileTree.FileName) | Temporary(uuid: nat)

  // A file that is being written holds an unknown part of its value.
  datatype Data<T> = Partial | Whole(value: T)

  datatype File<T> = File(data: Data<T>, mode: nat, synced: bool)

  datatype Disk<T> = Disk(
    inodes: map<Inode, File<T>>,
    visible: map<Name, Inode>,
    surviving: set<map<Name, Inode>>)

  // ---------------------------------------------------------------- primitive operations

  function Show<T>(d: Disk<T>, visible: map<Name, Inode>): Disk<T> {
    d.(visible := visible, surviving := d.surviving + {visible})
  }

  function Create<T>(d: Disk<T>, name: Name, inode: Inode, mode: nat): Disk<T> {
    Show(d.(inodes := d.inodes[inode := File(Partial, mode, false)]), d.visible[name := inode])
  }

  function SetFile<T>(d: Disk<T>, inode: Inode, file: File<T>): Disk<T> {
    d.(inodes := d.inodes[inode := file])
  }

  function Rename<T>(d: Disk<T>, from: Name, to: Name): Disk<T>
    requires from in d.visible
  {
    Show(d, (d.visible - {from})[to := d.visible[from]])
  }

  function Unlink<T>(d: Disk<T>, name: Name): Disk<T> {
    Show(d, d.visible - {name})
  }

  function SyncDirectory<T>(d: Disk<T>): Disk<T> {
    d.(surviving := {d.visible})
  }

  /** One system call: a creation under a free name, an update of one file's contents, mode or sync
      state, a rename, a removal, or a directory sync. */
  ghost predicate SystemCall<T(!new)>(d: Disk<T>, next: Disk<T>) {
    || (exists name, inode, mode | name !in d.visible && inode !in d.inodes :: next == Create(d, name, inode, mode))
    || (exists inode, file | inode in d.inodes :: next == SetFile(d, inode, file))
    || (exists from, to | from in d.visible :: next == Rename(d, from, to))
    || (exists name | name in d.visible :: next == Unlink(d, name))
    || next == SyncDirectory(d)
  }

  // ---------------------------------------------------------------- one file of the directory

  /** In `image`, `name` is missing or a complete file whose contents have reached the disk. */
  predicate Intact<T>(d: Disk<T>, image: map<Name, Inode>, name: Name) {
    name in image ==>
      image[name] in d.inodes && d.inodes[image[name]].synced && d.inodes[image[name]].data.Whole?
  }

  function ContentIn<T>(d: Disk<T>, image: map<Name, Inode>, name: Name): Option<T>
    requires Intact(d, image, name)
  {
    if name in image then Some(d.inodes[image[name]].data.value) else None
  }

  /** No image, shown or surviving, can show a torn `name`. */
  ghost predicate NeverTorn<T>(d: Disk<T>, name: Name) {
    && d.visible in d.surviving
    && forall image <- d.surviving :: Intact(d, image, name)
  }

  // What the directory says about one name: what it shows and what power loss could leave.
  datatype FileView<T(==)> = FileView(visible: Option<T>, surviving: set<Option<T>>)

  ghost function View<T>(d: Disk<T>, name: Name): FileView<T>
    requires NeverTorn(d, name)
  {
    FileView(ContentIn(d, d.visible, name), set image | image in d.surviving :: ContentIn(d, image, name))
  }

  ghost function Replaced<T>(v: FileView<T>, value: T): FileView<T> {
    FileView(Some(value), v.surviving + {Some(value)})
  }

  ghost function Final<T>(value: T): FileView<T> {
    FileView(Some(value), {Some(value)})
  }

  /** Power loss: some surviving image comes back, and files that were never synced hold anything. */
  ghost predicate AfterPowerLoss<T>(d: Disk<T>, next: Disk<T>) {
    && next.visible in d.surviving
    && next.surviving == {next.visible}
    && next.inodes.Keys == d.inodes.Keys
    && forall inode | inode in d.inodes && d.inodes[inode].synced :: next.inodes[inode] == d.inodes[inode]
  }

  /** After power loss the file shows, complete, one of the contents that could survive. */
  lemma PowerLossView<T>(d: Disk<T>, next: Disk<T>, name: Name)
    requires NeverTorn(d, name) && AfterPowerLoss(d, next)
    ensures NeverTorn(next, name)
    ensures View(next, name).visible in View(d, name).surviving
    ensures View(next, name).surviving == {View(next, name).visible}
  {
    var image := next.visible;
    assert Intact(d, image, name);
    assert ContentIn(next, image, name) == ContentIn(d, image, name);
  }

  // ---------------------------------------------------------------- what the calls do to one file

  lemma SetOtherFile<T>(d: Disk<T>, name: Name, inode: Inode, file: File<T>)
    requires NeverTorn(d, name)
    requires forall image <- d.surviving :: name in image ==> image[name] != inode
    ensures NeverTorn(SetFile(d, inode, file), name)
    ensures View(SetFile(d, inode, file), name) == View(d, name)
  {
    var next := SetFile(d, inode, file);
    assert forall image <- d.surviving ::
             Intact(next, image, name) && ContentIn(next, image, name) == ContentIn(d, image, name);
  }

  lemma ShowView<T>(d: Disk<T>, visible: map<Name, Inode>, name: Name)
    requires NeverTorn(d, name) && Intact(d, visible, name)
    ensures NeverTorn(Show(d, visible), name)
    ensures View(Show(d, visible), name) ==
            FileView(ContentIn(d, visible, name), View(d, name).surviving + {ContentIn(d, visible, name)})
  {
    var next := Show(d, visible);
    assert forall image <- next.surviving ::
             Intact(next, image, name) && ContentIn(next, image, name) == ContentIn(d, image, name);
    assert visible in next.surviving;
  }

  /** Showing an image in which `name` is as before changes nothing about `name`. */
  lemma ShowSame<T>(d: Disk<T>, visible: map<Name, Inode>, name: Name)
    requires NeverTorn(d, name)
    requires (name in visible <==> name in d.visible) && (name in visible ==> visible[name] == d.visible[name])
    ensures NeverTorn(Show(d, visible), name)
    ensures View(Show(d, visible), name) == View(d, name)
  {
    assert Intact(d, d.visible, name) && ContentIn(d, visible, name) == ContentIn(d, d.visible, name);
    ShowView(d, visible, name);
    assert ContentIn(d, d.visible, name) in View(d, name).surviving;
  }

  lemma CreateView<T>(d: Disk<T>, name: Name, other: Name, inode: Inode, mode: nat)
    requires NeverTorn(d, name) && other != name && inode !in d.inodes
    ensures NeverTorn(Create(d, other, inode, mode), name)
    ensures View(Create(d, other, inode, mode), name) == View(d, name)
    ensures forall image <- Create(d, other, inode, mode).surviving :: name in image ==> image[name] != inode
  {
    var file: File<T> := File(Partial, mode, false);
    assert forall image <- d.surviving :: Intact(d, image, name);
    SetOtherFile(d, name, inode, file);
    assert Intact(d, d.visible, name);
    ShowSame(SetFile(d, inode, file), d.visible[other := inode], name);
  }

  lemma UnlinkView<T>(d: Disk<T>, name: Name, other: Name)
    requires NeverTorn(d, name) && other != name
    ensures NeverTorn(Unlink(d, other), name) && View(Unlink(d, other), name) == View(d, name)
  {
    ShowSame(d, d.visible - {other}, name);
  }

  lemma RenameView<T>(d: Disk<T>, from: Name, name: Name)
    requires NeverTorn(d, name) && from in d.visible
    requires Intact(d, d.visible, from)
    ensures NeverTorn(Rename(d, from, name), name)
    ensures View(Rename(d, from, name), name) == Replaced(View(d, name), ContentIn(d, d.visible, from).value)
  {
    ShowView(d, (d.visible - {from})[name := d.visible[from]], name);
  }

  lemma SyncView<T>(d: Disk<T>, name: Name)
    requires NeverTorn(d, name)
    ensures NeverTorn(SyncDirectory(d), name)
    ensures View(SyncDirectory(d), name) == FileView(View(d, name).visible, {View(d, name).visible})
  {
    var next := SyncDirectory(d);
    assert Intact(d, d.visible, name) && next.visible in next.surviving;
  }

  // ---------------------------------------------------------------- fresh inode numbers

  ghost function Largest(s: set<nat>): (n: nat)
    ensures forall k <- s :: k <= n
  {
    if s == {} then 0
    else
      var k :| k in s;
      var rest := Largest(s - {k});
      assert s == (s - {k}) + {k};
      if k < rest then rest else k
  }

  lemma FreshExists(s: set<nat>)
    ensures exists n: nat :: n !in s
  {
    assert Largest(s) + 1 !in s;
  }
}
