/** The durable review store as it is built (src/pending_review.rs): two maps edited in place and a
    state file replaced one system call at a time, proved to do what StoreOperations says. */
module ReviewStore {
  import opened Wrappers
  import opened Execution
  import opened Persisted
  import opened StoreOperations
  import Disk

  // ---------------------------------------------------------------- the state file

  type StateDisk = Disk.Disk<PersistedState>

  /** What loading a state file gives; a missing file is an empty store. */
  function Decode(content: Option<PersistedState>): Result<Store, LoadError> {
    match content
    case None => Ok(EMPTY_STORE)
    case Some(state) => Load(state)
  }

  ghost predicate Decodable(view: Disk.FileView<PersistedState>) {
    && Decode(view.visible).Ok?
    && forall content <- view.surviving :: Decode(content).Ok?
  }

  ghost function Decoded(view: Disk.FileView<PersistedState>): (set<Store>)
    requires Decodable(view)
  {
    set content | content in view.surviving :: Decode(content).value
  }

  /** The file says what `d` says: what is shown, and what power loss could bring back. */
  ghost predicate FileMeans(disk: StateDisk, file: Disk.Name, d: DurableStore) {
    && Disk.NeverTorn(disk, file)
    && Decodable(Disk.View(disk, file))
    && Decode(Disk.View(disk, file).visible) == Ok(d.visible)
    && Decoded(Disk.View(disk, file)) == d.surviving
  }

  /** After power loss it says one of the things that could come back. */
  lemma LostMeans(disk: StateDisk, file: Disk.Name, d: DurableStore, lost: StateDisk) returns (image: Store)
    requires FileMeans(disk, file, d) && Disk.AfterPowerLoss(disk, lost)
    ensures image in d.surviving && FileMeans(lost, file, Recover(image))
  {
    Disk.PowerLossView(disk, lost, file);
    var content := Disk.View(lost, file).visible;
    image := Decode(content).value;
    assert Decoded(Disk.View(lost, file)) == {image} by {
      assert Disk.View(lost, file).surviving == {content};
      assert image in Decoded(Disk.View(lost, file));
    }
  }

  /** The three things the file can say while `next` is being saved, as decoded stores: the old
      contents, the new ones with older images still possible, the new ones alone. These are the three
      outcomes of `Move`, so a crash inside a save is a finished save followed by a crash. */
  lemma SavePhases(before: Disk.FileView<PersistedState>, state: PersistedState, next: Store)
    requires Decodable(before)
    requires ValidStore(next) && Serialization(state, next)
    ensures Decodable(Disk.Replaced(before, state)) && Decodable(Disk.Final(state))
    ensures Decode(Disk.Replaced(before, state).visible) == Ok(next)
    ensures Decoded(Disk.Replaced(before, state)) == Decoded(before) + {next}
    ensures Decoded(Disk.Final(state)) == {next}
  {
    SaveThenLoad(next, state);
    var replaced := Disk.Replaced(before, state);
    forall content | content in replaced.surviving ensures Decode(content).Ok? {}
    forall store | store in Decoded(before) + {next} ensures store in Decoded(replaced) {
      if store == next {
        assert Some(state) in replaced.surviving;
      } else {
        var content :| content in before.surviving && Decode(content).value == store;
        assert content in replaced.surviving;
      }
    }
    assert Decoded(replaced) == Decoded(before) + {next};
    assert Some(state) in Disk.Final(state).surviving;
  }

  // ---------------------------------------------------------------- the class

  const NEW_FILE_MODE: nat := 0x180  // 0o600

  // Where a save has got to, as far as the state file is concerned: not renamed, renamed, synced.
  datatype Phase = Old | Shown | Lasting

  datatype Moment = Moment(disk: StateDisk, phase: Phase)

  type View = Disk.FileView<PersistedState>

  ghost function PhaseView(phase: Phase, before: View, state: PersistedState): View {
    match phase
    case Old => before
    case Shown => Disk.Replaced(before, state)
    case Lasting => Disk.Final(state)
  }

  /** At this moment the file is complete in every image, and shows what its phase says. */
  ghost predicate FileAt(m: Moment, file: Disk.Name, before: View, state: PersistedState) {
    Disk.NeverTorn(m.disk, file) && Disk.View(m.disk, file) == PhaseView(m.phase, before, state)
  }

  /** What is new can be read and written by its owner and by nobody else, mode 0600; all else keeps its mode. */
  predicate NewIsPrivate(d: StateDisk, next: StateDisk) {
    forall inode <- next.inodes ::
      next.inodes[inode].mode == if inode in d.inodes then d.inodes[inode].mode else 0x180
  }

  ghost predicate Follows(m: Moment, next: Moment) {
    && Disk.SystemCall(m.disk, next.disk) && NewIsPrivate(m.disk, next.disk)
    && (next.phase == m.phase || (m.phase.Old? && next.phase.Shown?) || (m.phase.Shown? && next.phase.Lasting?))
  }

  /** A save, system call by system call, starting where the file is as `before`. */
  ghost predicate History(h: seq<Moment>, file: Disk.Name, before: View, state: PersistedState) {
    && |h| > 0
    && h[0].phase.Old?
    && (forall m <- h :: FileAt(m, file, before, state))
    && forall k | 0 < k < |h| :: Follows(h[k - 1], h[k])
  }

  lemma Extend(h: seq<Moment>, next: Moment, file: Disk.Name, before: View, state: PersistedState)
    requires History(h, file, before, state)
    requires FileAt(next, file, before, state) && Follows(h[|h| - 1], next)
    ensures History(h + [next], file, before, state)
  {
    var all := h + [next];
    forall k | 0 < k < |all| ensures Follows(all[k - 1], all[k]) {
      if k < |h| {
        assert Follows(h[k - 1], h[k]);
      }
    }
  }

  lemma ExtendByCreate(
    h: seq<Moment>, m: Moment, name: Disk.Name, inode: Disk.Inode, file: Disk.Name, before: View, state: PersistedState)
    returns (next: Moment)
    requires History(h, file, before, state) && m == h[|h| - 1]
    requires name != file && name !in m.disk.visible && inode !in m.disk.inodes
    ensures next == Moment(Disk.Create(m.disk, name, inode, NEW_FILE_MODE), m.phase)
    ensures History(h + [next], file, before, state)
    ensures forall image <- next.disk.surviving :: file in image ==> image[file] != inode
  {
    assert FileAt(m, file, before, state);
    next := Moment(Disk.Create(m.disk, name, inode, NEW_FILE_MODE), m.phase);
    Disk.CreateView(m.disk, file, name, inode, NEW_FILE_MODE);
    Extend(h, next, file, before, state);
  }

  lemma ExtendBySet(
    h: seq<Moment>, m: Moment, inode: Disk.Inode, contents: Disk.File<PersistedState>, file: Disk.Name,
    before: View, state: PersistedState)
    returns (next: Moment)
    requires History(h, file, before, state) && m == h[|h| - 1]
    requires inode in m.disk.inodes && contents.mode == m.disk.inodes[inode].mode
    requires forall image <- m.disk.surviving :: file in image ==> image[file] != inode
    ensures next == Moment(Disk.SetFile(m.disk, inode, contents), m.phase)
    ensures History(h + [next], file, before, state)
  {
    assert FileAt(m, file, before, state);
    next := Moment(Disk.SetFile(m.disk, inode, contents), m.phase);
    Disk.SetOtherFile(m.disk, file, inode, contents);
    Extend(h, next, file, before, state);
  }

  lemma ExtendByRename(
    h: seq<Moment>, m: Moment, from: Disk.Name, file: Disk.Name, before: View, state: PersistedState)
    returns (next: Moment)
    requires History(h, file, before, state) && m == h[|h| - 1] && m.phase.Old?
    requires from in m.disk.visible && Disk.Intact(m.disk, m.disk.visible, from)
    requires Disk.ContentIn(m.disk, m.disk.visible, from) == Some(state)
    ensures next == Moment(Disk.Rename(m.disk, from, file), Shown)
    ensures History(h + [next], file, before, state)
  {
    assert FileAt(m, file, before, state);
    next := Moment(Disk.Rename(m.disk, from, file), Shown);
    Disk.RenameView(m.disk, from, file);
    Extend(h, next, file, before, state);
  }

  lemma ExtendBySync(h: seq<Moment>, m: Moment, file: Disk.Name, before: View, state: PersistedState)
    returns (next: Moment)
    requires History(h, file, before, state) && m == h[|h| - 1] && m.phase.Shown?
    ensures next == Moment(Disk.SyncDirectory(m.disk), Lasting)
    ensures History(h + [next], file, before, state)
  {
    assert FileAt(m, file, before, state);
    next := Moment(Disk.SyncDirectory(m.disk), Lasting);
    Disk.SyncView(m.disk, file);
    Extend(h, next, file, before, state);
  }

  lemma ExtendByUnlink(
    h: seq<Moment>, m: Moment, name: Disk.Name, file: Disk.Name, before: View, state: PersistedState)
    returns (next: Moment)
    requires History(h, file, before, state) && m == h[|h| - 1] && !m.phase.Lasting?
    requires name != file && name in m.disk.visible
    ensures next == Moment(Disk.Unlink(m.disk, name), m.phase)
    ensures History(h + [next], file, before, state)
  {
    assert FileAt(m, file, before, state);
    next := Moment(Disk.Unlink(m.disk, name), m.phase);
    Disk.UnlinkView(m.disk, file, name);
    Extend(h, next, file, before, state);
  }

  lemma {:induction false} InodesStay(
    h: seq<Moment>, k: nat, file: Disk.Name, before: View, state: PersistedState, inode: Disk.Inode)
    requires History(h, file, before, state) && k < |h| && inode in h[0].disk.inodes
    ensures inode in h[k].disk.inodes
  {
    if k > 0 {
      InodesStay(h, k - 1, file, before, state, inode);
      assert Follows(h[k - 1], h[k]);
    }
  }

  /** From its first moment on, whatever a save creates is its owner's alone. */
  lemma {:induction false} SaveIsPrivate(
    h: seq<Moment>, k: nat, file: Disk.Name, before: View, state: PersistedState, inode: Disk.Inode)
    requires History(h, file, before, state) && k < |h| && inode in h[k].disk.inodes
    ensures h[k].disk.inodes[inode].mode ==
            if inode in h[0].disk.inodes then h[0].disk.inodes[inode].mode else 0x180
  {
    if k > 0 {
      assert Follows(h[k - 1], h[k]);
      if inode in h[k - 1].disk.inodes {
        SaveIsPrivate(h, k - 1, file, before, state, inode);
      } else if inode in h[0].disk.inodes {
        InodesStay(h, k - 1, file, before, state, inode);
      }
    }
  }

  ghost function OutcomeOf(phase: Phase): SaveOutcome {
    match phase
    case Old => BeforeCommit
    case Shown => AfterCommit
    case Lasting => Committed
  }

  lemma ValidIsPersistable(store: Store)
    requires ValidStore(store)
    ensures AllPersistable(store)
  {
  }

  /** Whatever moment of a save of `next` the process dies or power is lost at, what can be read back
      is what the finished save with the outcome of that moment's phase would leave: a save cut short
      is one of the three outcomes, and the file is never torn. */
  lemma CrashInsideSave(
    h: seq<Moment>, k: nat, file: Disk.Name, before: View, state: PersistedState,
    d: DurableStore, next: Store, lost: StateDisk)
    requires Decodable(before) && d.visible == Decode(before.visible).value && d.surviving == Decoded(before)
    requires ValidStore(next) && Serialization(state, next)
    requires History(h, file, before, state) && k < |h|
    requires Disk.AfterPowerLoss(h[k].disk, lost)
    ensures Disk.NeverTorn(h[k].disk, file)
    ensures var after := Move(d, next, OutcomeOf(h[k].phase), ()).0;
            var shown := Disk.View(h[k].disk, file);
            && Decodable(shown)
            && Decode(shown.visible) == Ok(after.visible) && Decoded(shown) == after.surviving
            && Disk.NeverTorn(lost, file) && Decode(Disk.View(lost, file).visible).Ok?
            && Decode(Disk.View(lost, file).visible).value in after.surviving
  {
    assert FileAt(h[k], file, before, state);
    SavePhases(before, state, next);
    ValidIsPersistable(next);
    Disk.PowerLossView(h[k].disk, lost, file);
  }

  /** So at every moment of a save the file means what the save, finished with the outcome of that moment's
      phase, would make it mean. */
  lemma SaveHistory(h: seq<Moment>, file: Disk.Name, before: View, state: PersistedState, d: DurableStore, next: Store)
    requires Decodable(before) && Decode(before.visible) == Ok(d.visible) && d.surviving == Decoded(before)
    requires ValidStore(next) && Serialization(state, next)
    requires History(h, file, before, state)
    ensures forall m <- h :: FileMeans(m.disk, file, Move(d, next, OutcomeOf(m.phase), ()).0)
  {
    SavePhases(before, state, next);
    ValidIsPersistable(next);
    forall m | m in h ensures FileMeans(m.disk, file, Move(d, next, OutcomeOf(m.phase), ()).0) {
      assert FileAt(m, file, before, state);
    }
  }

  /** A store with one id in both maps. */
  predicate Overlaps(store: Store) {
    !(store.reviews.Keys !! store.claimed.Keys)
  }

  lemma OverlapUnreadable(store: Store, state: PersistedState, before: View, phase: Phase)
    requires Overlaps(store) && Serialization(state, store) && !phase.Old?
    ensures Decode(PhaseView(phase, before, state).visible).Err?
  {
    var id :| id in store.reviews.Keys && id in store.claimed.Keys;
    OverlapIsRefused(store, state, id);
  }

  lemma InsertedStore(store: Store, pending: PendingReview)
    requires ValidStore(store) && pending.requestId !in store.reviews
    requires Persistable(pending) ==> Reviewable(pending)
    ensures var next := store.(reviews := store.reviews[pending.requestId := pending]);
            && (AllPersistable(next) <==> Persistable(pending))
            && (Overlaps(next) <==> pending.requestId in store.claimed)
            && (AllPersistable(next) && !Overlaps(next) ==> ValidStore(next))
            && (ValidStore(next) ==> !Overlaps(next))
  {
    var next := store.(reviews := store.reviews[pending.requestId := pending]);
    assert next.reviews[pending.requestId] == pending;
    if pending.requestId in store.claimed {
      assert pending.requestId in next.reviews.Keys * next.claimed.Keys;
    }
  }

  lemma MovedValid(store: Store, id: Uuid)
    requires ValidStore(store)
    ensures id in store.reviews ==> ValidStore(Store(store.reviews - {id}, store.claimed[id := store.reviews[id]]))
    ensures id in store.claimed ==> ValidStore(Store(store.reviews[id := store.claimed[id]], store.claimed - {id}))
    ensures ValidStore(Store(store.reviews, store.claimed - {id}))
  {
  }

  lemma UndoClaim(store: Store, id: Uuid)
    requires id in store.reviews && id !in store.claimed
    ensures Store((store.reviews - {id})[id := store.reviews[id]],
                  store.claimed[id := store.reviews[id]] - {id}) == store
  {
  }

  lemma UndoRestore(store: Store, id: Uuid)
    requires id in store.claimed && id !in store.reviews
    ensures Store(store.reviews[id := store.claimed[id]] - {id},
                  (store.claimed - {id})[id := store.claimed[id]]) == store
  {
  }

  /** After a finished save of `next`, memory being `next` or rolled back as the outcome says, object
      and file mean exactly what `Move` says. */
  lemma SavedContents(before: View, state: PersistedState, phase: Phase, d: DurableStore, next: Store)
    requires Decodable(before) && d.visible == Decode(before.visible).value && d.surviving == Decoded(before)
    requires ValidDurable(d) && ValidStore(next) && Serialization(state, next)
    ensures var view := PhaseView(phase, before, state);
            && Decodable(view)
            && DurableStore(if phase.Old? then d.mem else next, Decode(view.visible).value, Decoded(view))
               == Move(d, next, OutcomeOf(phase), ()).0
  {
    SavePhases(before, state, next);
    ValidIsPersistable(next);
  }

  datatype StartError = NotReadable | NotLoaded(error: LoadError)

  class PendingReviewStore {
    var reviews: map<Uuid, PendingReview>
    var claimedReviews: map<Uuid, PendingReview>
    var disk: StateDisk
    const file: Disk.Name

    ghost function Memory(): Store
      reads this
    {
      Store(reviews, claimedReviews)
    }

    ghost predicate Sound()
      reads this
    {
      && file.Named?
      && Disk.NeverTorn(disk, file)
      && KeysMatch(reviews) && KeysMatch(claimedReviews)
    }

    /** What the object and its file mean. */
    ghost function Contents(): DurableStore
      reads this
    {
      if Disk.NeverTorn(disk, file) && Decodable(Disk.View(disk, file)) then
        DurableStore(Memory(), Decode(Disk.View(disk, file).visible).value, Decoded(Disk.View(disk, file)))
      else
        DurableStore(Memory(), EMPTY_STORE, {})
    }

    ghost predicate Valid()
      reads this
      ensures Valid() ==> ValidDurable(Contents())
    {
      && Sound()
      && ValidStore(Memory())
      && Decodable(Disk.View(disk, file))
      && Decode(Disk.View(disk, file).visible) == Ok(Memory())
      && (forall store <- Decoded(Disk.View(disk, file)) :: ValidStore(store))
      && Memory() in Decoded(Disk.View(disk, file))
    }

    /** The file agrees with `d`, whatever memory is. */
    ghost predicate FileSays(d: DurableStore)
      reads this
    {
      FileMeans(disk, file, d)
    }

    /** What an operation has done to the disk, system call by system call. */
    ghost predicate Recorded(history: seq<Moment>, start: StateDisk)
      reads this
    {
      history != [] && history[0].disk == start && history[|history| - 1].disk == disk
    }

    lemma RolledBack(d: DurableStore)
      requires Sound() && ValidDurable(d) && FileSays(d) && Memory() == d.mem
      ensures Valid() && Contents() == d
    {
    }

    /** Reading the file back at start-up. Opening, inspecting or reading it may fail. */
    static method LoadFrom(disk: StateDisk, file: Disk.Name, reliable: bool)
      returns (result: Result<PendingReviewStore, StartError>)
      requires file.Named? && Disk.NeverTorn(disk, file)
      ensures result.Ok? ==> Decode(Disk.View(disk, file).visible).Ok?
      ensures reliable ==> (result.Ok? <==> Decode(Disk.View(disk, file).visible).Ok?)
      ensures result.Ok? ==>
                && fresh(result.value)
                && result.value.Sound() && result.value.disk == disk && result.value.file == file
                && Ok(result.value.Memory()) == Decode(Disk.View(disk, file).visible)
                && ValidStore(result.value.Memory())
    {
      var failed: bool := *;
      if failed && !reliable {
        return Err(NotReadable);
      }
      var store := EMPTY_STORE;
      if file in disk.visible {
        assert Disk.Intact(disk, disk.visible, file);
        var loaded := FromSerialized(disk.inodes[disk.visible[file]].data.value);
        if loaded.Err? {
          return Err(NotLoaded(loaded.error));
        }
        store := loaded.value;
        LoadListMeaning(disk.inodes[disk.visible[file]].data.value.reviews);
      }
      var loadedStore := new PendingReviewStore(store, disk, file);
      return Ok(loadedStore);
    }

    /** A store just read from a file that means `d` is valid, and means what `d` means to a new process. */
    lemma JustLoaded(d: DurableStore)
      requires Sound() && ValidStore(Memory()) && Ok(Memory()) == Decode(Disk.View(disk, file).visible)
      requires ValidDurable(d) && FileMeans(disk, file, d)
      ensures Valid() && Contents() == Restart(d)
    {
    }

    constructor (store: Store, disk: StateDisk, file: Disk.Name)
      ensures Memory() == store && this.disk == disk && this.file == file
    {
      this.reviews := store.reviews;
      this.claimedReviews := store.claimed;
      this.disk := disk;
      this.file := file;
    }

    /** Create a temporary, write and sync it, rename it over the file, sync the directory. Any call may
        fail; `history` records the disk after each one. */
    method CommitThroughTemporary(temporary: Disk.Name, state: PersistedState, reliable: bool)
      returns (outcome: SaveOutcome, ghost history: seq<Moment>)
      requires file.Named? && temporary.Temporary? && Disk.NeverTorn(disk, file)
      modifies this`disk
      ensures History(history, file, Disk.View(old(disk), file), state)
      ensures history[0].disk == old(disk) && history[|history| - 1].disk == disk
      ensures outcome == OutcomeOf(history[|history| - 1].phase)
      ensures !outcome.BeforeCommit? ==>
                && file in disk.visible && disk.visible[file] in disk.inodes && disk.visible[file] !in old(disk).inodes
                && disk.inodes[disk.visible[file]] == Disk.File(Disk.Whole(state), 0x180, true)
      ensures outcome.BeforeCommit? || temporary !in disk.visible
      ensures forall name | name != file && name != temporary :: name in disk.visible <==> name in old(disk).visible
      ensures reliable && temporary !in old(disk).visible ==> outcome.Committed?
    {
      ghost var before := Disk.View(disk, file);
      ghost var m := Moment(disk, Old);
      history := [m];

      var failed: bool := *;
      if (failed && !reliable) || temporary in disk.visible {
        return BeforeCommit, history;
      }
      Disk.FreshExists(disk.inodes.Keys);
      var inode: nat :| inode !in disk.inodes;
      m := ExtendByCreate(history, m, temporary, inode, file, before, state);
      history := history + [m];
      disk := Disk.Create(disk, temporary, inode, NEW_FILE_MODE);

      // A write that fails may have written part of the value: the file is still partial.
      failed := *;
      if failed && !reliable {
        return BeforeCommit, history;
      }
      var written := Disk.File(Disk.Whole(state), NEW_FILE_MODE, false);
      m := ExtendBySet(history, m, inode, written, file, before, state);
      history := history + [m];
      disk := Disk.SetFile(disk, inode, written);

      failed := *;
      if failed && !reliable {
        return BeforeCommit, history;
      }
      var synced := written.(synced := true);
      m := ExtendBySet(history, m, inode, synced, file, before, state);
      history := history + [m];
      disk := Disk.SetFile(disk, inode, synced);

      failed := *;
      if failed && !reliable {
        return BeforeCommit, history;
      }
      m := ExtendByRename(history, m, temporary, file, before, state);
      history := history + [m];
      disk := Disk.Rename(disk, temporary, file);

      failed := *;
      if failed && !reliable {
        return AfterCommit, history;
      }
      m := ExtendBySync(history, m, file, before, state);
      history := history + [m];
      disk := Disk.SyncDirectory(disk);
      return Committed, history;
    }

    /** UUIDs do not repeat. */
    method UnusedUuid() returns (uuid: nat)
      ensures Disk.Temporary(uuid) !in disk.visible
    {
      var taken := set name | name in disk.visible && name.Temporary? :: name.uuid;
      Disk.FreshExists(taken);
      uuid :| uuid !in taken;
    }

    /** Serialise the maps as they stand, replace the file, and on failure try to remove the temporary, which
        works if it is `removable`. */
    method SaveToAnchoredPath(reliable: bool, removable: bool)
      returns (outcome: SaveOutcome, ghost state: PersistedState, ghost history: seq<Moment>)
      requires Sound()
      modifies this`disk
      ensures Sound()
      ensures !AllPersistable(Memory()) ==> outcome.BeforeCommit? && disk == old(disk) && history == [Moment(disk, Old)]
      ensures AllPersistable(Memory()) ==>
                && Serialization(state, Memory())
                && History(history, file, Disk.View(old(disk), file), state)
                && history[0].disk == old(disk) && history[|history| - 1].disk == disk
                && outcome == OutcomeOf(history[|history| - 1].phase)
      ensures AllPersistable(Memory()) && reliable ==> outcome.Committed?
      ensures removable ==> forall name <- disk.visible :: name == file || name in old(disk).visible
    {
      var serialized := Serialize(Store(reviews, claimedReviews));
      if serialized.Err? {
        return BeforeCommit, PersistedState(VERSION, []), [Moment(disk, Old)];
      }
      state := serialized.value;
      ghost var before := Disk.View(disk, file);
      var uuid: nat := *;
      if reliable && Disk.Temporary(uuid) in disk.visible {
        uuid := UnusedUuid();
      }
      var temporary := Disk.Temporary(uuid);
      outcome, history := CommitThroughTemporary(temporary, serialized.value, reliable);
      ghost var m := history[|history| - 1];
      assert FileAt(m, file, before, state);
      var cleanupFailed: bool := *;
      if !outcome.Committed? && (!cleanupFailed || removable) && temporary in disk.visible {
        m := ExtendByUnlink(history, m, temporary, file, before, state);
        history := history + [m];
        disk := Disk.Unlink(disk, temporary);
        assert FileAt(m, file, before, state);
      }
    }

    /** Save after memory was changed from `d.mem` to `next`; on a rollback the caller puts `d.mem` back. */
    method Persist(ghost d: DurableStore, reliable: bool) returns (outcome: SaveOutcome, ghost history: seq<Moment>)
      requires Sound() && ValidDurable(d)
      requires FileSays(d)
      requires AllPersistable(Memory()) ==> ValidStore(Memory()) || Overlaps(Memory())
      modifies this`disk
      ensures Sound() && outcome == Effective(Memory(), outcome)
      ensures !outcome.BeforeCommit? && ValidStore(Memory()) ==>
                Valid() && Contents() == Move(d, Memory(), outcome, ()).0
      ensures !outcome.BeforeCommit? && Overlaps(Memory()) ==> Decode(Disk.View(disk, file).visible).Err?
      ensures outcome.BeforeCommit? ==> FileSays(d)
      ensures AllPersistable(Memory()) && reliable ==> outcome.Committed?
      ensures Recorded(history, old(disk))
      ensures !Overlaps(Memory()) ==>
                forall m <- history :: FileMeans(m.disk, file, Move(d, Memory(), OutcomeOf(m.phase), ()).0)
    {
      ghost var state;
      ghost var before := Disk.View(disk, file);
      var removable: bool := *;
      outcome, state, history := SaveToAnchoredPath(reliable, removable);
      if AllPersistable(Memory()) {
        ghost var m := history[|history| - 1];
        assert FileAt(m, file, before, state);
        if Overlaps(Memory()) {
          if !m.phase.Old? {
            OverlapUnreadable(Memory(), state, before, m.phase);
          }
        } else {
          SavedContents(before, state, m.phase, d, Memory());
          SaveHistory(history, file, before, state, d, Memory());
        }
      }
    }

    /** The pending map is looked at, the claimed one is not: an id that is already claimed ends up in both, and
        the file written then is one that cannot be loaded. */
    method Insert(pending: PendingReview, reliable: bool)
      returns (result: Result<(), StoreError>, ghost outcome: SaveOutcome, ghost history: seq<Moment>)
      requires Valid()
      requires Persistable(pending) ==> Reviewable(pending)
      modifies this
      ensures Sound() && Memory() == StoreOperations.Insert(old(Contents()), pending, outcome).0.mem
      ensures result == StoreOperations.Insert(old(Contents()), pending, outcome).1
      ensures Valid() <==> pending.requestId !in old(claimedReviews) || !Persistable(pending) || outcome.BeforeCommit?
      ensures Valid() ==> (Contents(), result) == StoreOperations.Insert(old(Contents()), pending, outcome)
      ensures !Valid() ==> Decode(Disk.View(disk, file).visible).Err?
      ensures reliable ==> (Memory(), result) == (StoreOperations.Insert(old(Contents()), pending, Committed).0.mem,
                                                  StoreOperations.Insert(old(Contents()), pending, Committed).1)
      ensures reliable && Valid() ==>
                (Contents(), result) == StoreOperations.Insert(old(Contents()), pending, Committed)
      ensures Recorded(history, old(disk))
      ensures pending.requestId !in old(claimedReviews) ==>
                forall m <- history ::
                  FileMeans(m.disk, file, StoreOperations.Insert(old(Contents()), pending, OutcomeOf(m.phase)).0)
    {
      history := [Moment(disk, Old)];
      if pending.requestId in reviews {
        return Err(AlreadyExists), BeforeCommit, history;
      }
      ghost var d := Contents();
      var id := pending.requestId;
      reviews := reviews[id := pending];
      InsertedStore(d.mem, pending);
      var saved;
      saved, history := Persist(d, reliable);
      outcome := saved;
      if saved.BeforeCommit? {
        reviews := reviews - {id};
        assert Memory() == d.mem;
        RolledBack(d);
        return Err(NotPersisted), outcome, history;
      }
      result := if saved.AfterCommit? then Err(DurabilityUncertain) else Ok(());
    }

    method Claim(id: Uuid, reliable: bool)
      returns (result: Result<PendingReview, StoreError>, ghost outcome: SaveOutcome, ghost history: seq<Moment>)
      requires Valid()
      modifies this
      ensures Valid()
      ensures (Contents(), result) == StoreOperations.Claim(old(Contents()), id, outcome)
      ensures reliable ==> (Contents(), result) == StoreOperations.Claim(old(Contents()), id, Committed)
      ensures Recorded(history, old(disk))
      ensures forall m <- history ::
                FileMeans(m.disk, file, StoreOperations.Claim(old(Contents()), id, OutcomeOf(m.phase)).0)
    {
      history := [Moment(disk, Old)];
      if id in claimedReviews {
        return Err(AlreadyClaimed), BeforeCommit, history;
      }
      if id !in reviews {
        return Err(NotFound), BeforeCommit, history;
      }
      ghost var d := Contents();
      var pending := reviews[id];
      reviews := reviews - {id};
      claimedReviews := claimedReviews[id := pending];
      MovedValid(d.mem, id);
      var saved;
      saved, history := Persist(d, reliable);
      outcome := saved;
      if saved.BeforeCommit? {
        claimedReviews := claimedReviews - {id};
        reviews := reviews[id := pending];
        UndoClaim(d.mem, id);
        RolledBack(d);
        return Err(NotPersisted), outcome, history;
      }
      result := if saved.AfterCommit? then Err(DurabilityUncertain) else Ok(pending);
    }

    method RestoreClaimed(pending: PendingReview, reliable: bool)
      returns (result: Result<(), StoreError>, ghost outcome: SaveOutcome, ghost history: seq<Moment>)
      requires Valid()
      modifies this
      ensures Valid()
      ensures (Contents(), result) == StoreOperations.Restore(old(Contents()), pending, outcome)
      ensures reliable ==> (Contents(), result) == StoreOperations.Restore(old(Contents()), pending, Committed)
      ensures Recorded(history, old(disk))
      ensures forall m <- history ::
                FileMeans(m.disk, file, StoreOperations.Restore(old(Contents()), pending, OutcomeOf(m.phase)).0)
    {
      history := [Moment(disk, Old)];
      var id := pending.requestId;
      if id in reviews {
        return Err(AlreadyExists), BeforeCommit, history;
      }
      if id !in claimedReviews {
        return Err(NotFound), BeforeCommit, history;
      }
      ghost var d := Contents();
      var claimed := claimedReviews[id];
      claimedReviews := claimedReviews - {id};
      if claimed != pending {
        claimedReviews := claimedReviews[id := claimed];
        assert Memory() == d.mem;
        return Err(Mismatch), BeforeCommit, history;
      }
      reviews := reviews[id := pending];
      MovedValid(d.mem, id);
      var saved;
      saved, history := Persist(d, reliable);
      outcome := saved;
      if saved.BeforeCommit? {
        reviews := reviews - {id};
        claimedReviews := claimedReviews[id := pending];
        UndoRestore(d.mem, id);
        RolledBack(d);
        return Err(NotPersisted), outcome, history;
      }
      result := if saved.AfterCommit? then Err(DurabilityUncertain) else Ok(());
    }

    method ConsumeClaimed(id: Uuid, reliable: bool)
      returns (result: Result<PendingReview, StoreError>, ghost outcome: SaveOutcome, ghost history: seq<Moment>)
      requires Valid()
      modifies this
      ensures Valid()
      ensures (Contents(), result) == StoreOperations.Consume(old(Contents()), id, outcome)
      ensures reliable ==> (Contents(), result) == StoreOperations.Consume(old(Contents()), id, Committed)
      ensures Recorded(history, old(disk))
      ensures forall m <- history ::
                FileMeans(m.disk, file, StoreOperations.Consume(old(Contents()), id, OutcomeOf(m.phase)).0)
    {
      history := [Moment(disk, Old)];
      if id !in claimedReviews {
        return Err(NotFound), BeforeCommit, history;
      }
      ghost var d := Contents();
      var claimed := claimedReviews[id];
      claimedReviews := claimedReviews - {id};
      MovedValid(d.mem, id);
      var saved;
      saved, history := Persist(d, reliable);
      outcome := saved;
      if saved.BeforeCommit? {
        claimedReviews := claimedReviews[id := claimed];
        assert Memory() == d.mem;
        RolledBack(d);
        return Err(NotPersisted), outcome, history;
      }
      result := if saved.AfterCommit? then Err(DurabilityUncertain) else Ok(claimed);
    }
  }
}
