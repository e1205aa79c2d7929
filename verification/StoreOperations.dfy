/** What the operations of the durable review store mean (src/pending_review.rs): memory, the store the
    state file shows, and the stores power loss could bring back. */
module StoreOperations {
  import opened Wrappers
  import opened Execution
  import opened Persisted

  // ---------------------------------------------------------------- meaning of the operations

  // How one save can end: directory synced; renamed but not known durable; not renamed.
  datatype SaveOutcome = Committed | AfterCommit | BeforeCommit

  datatype StoreError = AlreadyExists | AlreadyClaimed | NotFound | Mismatch | NotPersisted | DurabilityUncertain

  // Memory, the store the state file shows, and the stores power loss could bring back.
  datatype DurableStore = DurableStore(mem: Store, visible: Store, surviving: set<Store>)

  ghost predicate ValidDurable(d: DurableStore) {
    && d.mem == d.visible
    && d.visible in d.surviving
    && forall image <- d.surviving :: ValidStore(image)
  }

  /** A store with an unwritable review never gets past serialisation. */
  function Effective(next: Store, outcome: SaveOutcome): SaveOutcome {
    if AllPersistable(next) then outcome else BeforeCommit
  }

  /** Change memory to `next` and save; a save that did not rename is rolled back. */
  function Move<T>(d: DurableStore, next: Store, outcome: SaveOutcome, value: T):
    (DurableStore, Result<T, StoreError>)
  {
    match Effective(next, outcome)
    case Committed => (DurableStore(next, next, {next}), Ok(value))
    case AfterCommit => (DurableStore(next, next, d.surviving + {next}), Err(DurabilityUncertain))
    case BeforeCommit => (d, Err(NotPersisted))
  }

  function Insert(d: DurableStore, pending: PendingReview, outcome: SaveOutcome):
    (DurableStore, Result<(), StoreError>)
  {
    if pending.requestId in d.mem.reviews then (d, Err(AlreadyExists))
    else Move(d, d.mem.(reviews := d.mem.reviews[pending.requestId := pending]), outcome, ())
  }

  function Claim(d: DurableStore, id: Uuid, outcome: SaveOutcome): (DurableStore, Result<PendingReview, StoreError>) {
    if id in d.mem.claimed then (d, Err(AlreadyClaimed))
    else if id !in d.mem.reviews then (d, Err(NotFound))
    else Move(d, Store(d.mem.reviews - {id}, d.mem.claimed[id := d.mem.reviews[id]]), outcome, d.mem.reviews[id])
  }

  function Restore(d: DurableStore, pending: PendingReview, outcome: SaveOutcome):
    (DurableStore, Result<(), StoreError>)
  {
    var id := pending.requestId;
    if id in d.mem.reviews then (d, Err(AlreadyExists))
    else if id !in d.mem.claimed then (d, Err(NotFound))
    else if d.mem.claimed[id] != pending then (d, Err(Mismatch))
    else Move(d, Store(d.mem.reviews[id := pending], d.mem.claimed - {id}), outcome, ())
  }

  function Consume(d: DurableStore, id: Uuid, outcome: SaveOutcome): (DurableStore, Result<PendingReview, StoreError>) {
    if id !in d.mem.claimed then (d, Err(NotFound))
    else Move(d, d.mem.(claimed := d.mem.claimed - {id}), outcome, d.mem.claimed[id])
  }

  /** The process dies and restarts: memory is read back from the file. */
  function Restart(d: DurableStore): DurableStore {
    d.(mem := d.visible)
  }

  /** Power is lost and some surviving image is all there is. */
  function Recover(image: Store): DurableStore {
    DurableStore(image, image, {image})
  }

  // ---------------------------------------------------------------- one review at a time

  // Where a store has an id.
  datatype Whereabouts = Absent | InLine(review: PendingReview) | InHand(review: PendingReview) | InBoth

  function WhereIs(store: Store, id: Uuid): Whereabouts {
    if id in store.reviews && id in store.claimed then InBoth
    else if id in store.reviews then InLine(store.reviews[id])
    else if id in store.claimed then InHand(store.claimed[id])
    else Absent
  }

  /** How an operation ends that takes one id from where it is to `place`, and no other anywhere: nothing has changed
      if the file was not renamed; otherwise memory and file have, and so may what power loss brings back. */
  ghost predicate MovesOnly<T>(
    d: DurableStore, after: DurableStore, id: Uuid, place: Whereabouts, outcome: SaveOutcome,
    result: Result<T, StoreError>, value: T)
  {
    match outcome
    case BeforeCommit => after == d && result == Err(NotPersisted)
    case _ =>
      && after.mem == after.visible
      && (forall k :: WhereIs(after.mem, k) == if k == id then place else WhereIs(d.mem, k))
      && (if outcome.Committed? then after.surviving == {after.visible} && result == Ok(value)
          else after.surviving == d.surviving + {after.visible} && result == Err(DurabilityUncertain))
  }

  lemma InsertMoves(d: DurableStore, pending: PendingReview, outcome: SaveOutcome)
    requires ValidDurable(d) && Persistable(pending)
    ensures var (after, result) := Insert(d, pending, outcome);
            match WhereIs(d.mem, pending.requestId)
            case Absent => MovesOnly(d, after, pending.requestId, InLine(pending), outcome, result, ())
            case InLine(_) => after == d && result == Err(AlreadyExists)
            case InHand(_) => MovesOnly(d, after, pending.requestId, InBoth, outcome, result, ())
            case InBoth => false
  {
    assert ValidStore(d.mem);
    var next := d.mem.(reviews := d.mem.reviews[pending.requestId := pending]);
    forall k | k in next.reviews ensures Persistable(next.reviews[k]) {}
  }

  lemma ClaimMoves(d: DurableStore, id: Uuid, outcome: SaveOutcome)
    requires ValidDurable(d)
    ensures var (after, result) := Claim(d, id, outcome);
            match WhereIs(d.mem, id)
            case Absent => after == d && result == Err(NotFound)
            case InLine(review) => MovesOnly(d, after, id, InHand(review), outcome, result, review)
            case InHand(_) => after == d && result == Err(AlreadyClaimed)
            case InBoth => false
  {
    assert ValidStore(d.mem);
  }

  lemma RestoreMoves(d: DurableStore, pending: PendingReview, outcome: SaveOutcome)
    requires ValidDurable(d)
    ensures var (after, result) := Restore(d, pending, outcome);
            match WhereIs(d.mem, pending.requestId)
            case Absent => after == d && result == Err(NotFound)
            case InLine(_) => after == d && result == Err(AlreadyExists)
            case InHand(review) =>
              if review != pending then after == d && result == Err(Mismatch)
              else MovesOnly(d, after, pending.requestId, InLine(pending), outcome, result, ())
            case InBoth => false
  {
    assert ValidStore(d.mem);
  }

  lemma ConsumeMoves(d: DurableStore, id: Uuid, outcome: SaveOutcome)
    requires ValidDurable(d)
    ensures var (after, result) := Consume(d, id, outcome);
            match WhereIs(d.mem, id)
            case InHand(review) => MovesOnly(d, after, id, Absent, outcome, result, review)
            case InBoth => false
            case _ => after == d && result == Err(NotFound)
  {
    assert ValidStore(d.mem);
  }

  // ---------------------------------------------------------------- memory and disk agree

  lemma ClaimKeepsAgreement(d: DurableStore, id: Uuid, outcome: SaveOutcome)
    requires ValidDurable(d)
    ensures ValidDurable(Claim(d, id, outcome).0)
  {
    assert ValidStore(d.mem);
  }

  lemma RestoreKeepsAgreement(d: DurableStore, pending: PendingReview, outcome: SaveOutcome)
    requires ValidDurable(d)
    ensures ValidDurable(Restore(d, pending, outcome).0)
  {
    assert ValidStore(d.mem);
  }

  /** Claim, restore and consume keep memory, file and every surviving image well formed and in
      agreement, whatever happens to the save. */
  lemma OperationsKeepAgreement(d: DurableStore, id: Uuid, pending: PendingReview, outcome: SaveOutcome)
    requires ValidDurable(d)
    ensures ValidDurable(Claim(d, id, outcome).0)
    ensures ValidDurable(Restore(d, pending, outcome).0)
    ensures ValidDurable(Consume(d, id, outcome).0)
  {
    ClaimKeepsAgreement(d, id, outcome);
    RestoreKeepsAgreement(d, pending, outcome);
    assert ValidStore(d.mem);
  }

  /** Insertion keeps them in agreement exactly when it ends without having put the id in both maps:
      `insert` looks at one map only, so an id that is already claimed breaks the file. */
  lemma InsertKeepsAgreement(d: DurableStore, pending: PendingReview, outcome: SaveOutcome)
    requires ValidDurable(d)
    requires Persistable(pending) ==> Reviewable(pending)
    ensures ValidDurable(Insert(d, pending, outcome).0) <==>
            || pending.requestId !in d.mem.claimed
            || !Persistable(pending)
            || outcome.BeforeCommit?
  {
    assert ValidStore(d.mem);
    var id := pending.requestId;
    var next := d.mem.(reviews := d.mem.reviews[id := pending]);
    if id in d.mem.claimed && Persistable(pending) && !outcome.BeforeCommit? {
      assert id !in d.mem.reviews;
      forall k | k in next.reviews ensures Persistable(next.reviews[k]) {}
      assert AllPersistable(next);
      assert id in next.reviews && id in next.claimed;
    } else if id !in d.mem.reviews && Persistable(pending) {
      assert next.reviews[id] == pending;
      assert ValidStore(next) || id in d.mem.claimed;
    } else if id !in d.mem.reviews {
      assert next.reviews[id] == pending && !AllPersistable(next);
    }
  }

  /** The overlap is reachable from the operations alone: without fresh ids, claim then insert. */
  lemma OverlapExample(pending: PendingReview)
    requires Reviewable(pending)
    ensures var start := Recover(EMPTY_STORE);
            var held := Insert(start, pending, Committed).0;
            var claimed := Claim(held, pending.requestId, Committed).0;
            var again := Insert(claimed, pending, Committed);
            ValidDurable(claimed) && again.1.Ok? && !ValidDurable(again.0)
  {
    var start := Recover(EMPTY_STORE);
    InsertKeepsAgreement(start, pending, Committed);
    var held := Insert(start, pending, Committed).0;
    OperationsKeepAgreement(held, pending.requestId, pending, Committed);
    var claimed := Claim(held, pending.requestId, Committed).0;
    InsertKeepsAgreement(claimed, pending, Committed);
  }

  /** Claiming and restoring are inverse when both saves commit, and undo each other's durability. */
  lemma ClaimThenRestore(d: DurableStore, id: Uuid)
    requires ValidDurable(d) && id in d.mem.reviews
    ensures Claim(d, id, Committed).1 == Ok(d.mem.reviews[id])
    ensures Restore(Claim(d, id, Committed).0, d.mem.reviews[id], Committed) == (Recover(d.mem), Ok(()))
  {
    assert ValidStore(d.mem);
    var next := Store(d.mem.reviews - {id}, d.mem.claimed[id := d.mem.reviews[id]]);
    assert AllPersistable(next);
    assert Store(next.reviews[id := d.mem.reviews[id]], next.claimed - {id}) == d.mem;
  }
}
