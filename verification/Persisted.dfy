/** The persisted form of the review store: the two conversions, the serialiser's list and the
    loader's checks (src/pending_review.rs). JSON text is not modelled: a file holds the decoded value. */
module Persisted {
  import opened Wrappers
  import opened Execution

  datatype Operation =
    | WriteFileOperation(path: string, content: string, targetState: WriteTargetState)
    | RunCargoTestOperation(workspaceFingerprint: string)
    | HttpPostOperation(url: string, body: Option<string>)

  datatype Status = Pending | Claimed

  datatype PersistedReview = PersistedReview(requestId: Uuid, purpose: string, status: Status, operation: Operation)

  datatype PersistedState = PersistedState(version: nat, reviews: seq<PersistedReview>)

  const VERSION: nat := 3

  datatype ConversionError = MissingTargetState | MissingFingerprint | NotReviewable

  datatype LoadError = UnsupportedVersion(version: nat) | DuplicateRequestId(requestId: Uuid)

  /** The two in-memory maps of the store. */
  datatype Store = Store(reviews: map<Uuid, PendingReview>, claimed: map<Uuid, PendingReview>)

  const EMPTY_STORE := Store(map[], map[])

  // ---------------------------------------------------------------- conversions

  function ToPersisted(pending: PendingReview): Result<PersistedReview, ConversionError> {
    match pending.request
    case WriteFile(path, content) =>
      if pending.writeTargetState.None? then Err(MissingTargetState)
      else Ok(PersistedReview(pending.requestId, pending.purpose, Pending,
                              WriteFileOperation(path, content, pending.writeTargetState.value)))
    case RunCargoTest =>
      if pending.workspaceFingerprint.None? then Err(MissingFingerprint)
      else Ok(PersistedReview(pending.requestId, pending.purpose, Pending,
                              RunCargoTestOperation(pending.workspaceFingerprint.value)))
    case HttpRequest(verb, url, body) =>
      if verb.Post? then Ok(PersistedReview(pending.requestId, pending.purpose, Pending, HttpPostOperation(url, body)))
      else Err(NotReviewable)
    case _ => Err(NotReviewable)
  }

  function FromPersisted(persisted: PersistedReview): PendingReview {
    match persisted.operation
    case WriteFileOperation(path, content, targetState) =>
      PendingReview(persisted.requestId, WriteFile(path, content), persisted.purpose, None, Some(targetState))
    case RunCargoTestOperation(fingerprint) =>
      PendingReview(persisted.requestId, RunCargoTest, persisted.purpose, Some(fingerprint), None)
    case HttpPostOperation(url, body) =>
      PendingReview(persisted.requestId, HttpRequest(Post, url, body), persisted.purpose, None, None)
  }

  /** Reading back what was written gives the same review exactly for the reviews the constructors
      build; and everything that can be read is such a review and is written back as it was. */
  lemma ReviewRoundTrip(pending: PendingReview, persisted: PersistedReview, status: Status)
    ensures ToPersisted(pending).Ok? <==> Persistable(pending)
    ensures Reviewable(pending) <==>
            ToPersisted(pending).Ok? && FromPersisted(ToPersisted(pending).value.(status := status)) == pending
    ensures Reviewable(FromPersisted(persisted))
    ensures ToPersisted(FromPersisted(persisted)) == Ok(persisted.(status := Pending))
  {
  }

  /** What is read asks for what was written down, under the same id and with the same purpose. */
  lemma ReadAsWritten(persisted: PersistedReview)
    ensures var read := FromPersisted(persisted);
            && read.requestId == persisted.requestId && read.purpose == persisted.purpose
            && match persisted.operation
               case WriteFileOperation(path, content, targetState) =>
                 read.request == WriteFile(path, content) && read.writeTargetState == Some(targetState)
               case RunCargoTestOperation(fingerprint) =>
                 read.request == RunCargoTest && read.workspaceFingerprint == Some(fingerprint)
               case HttpPostOperation(url, body) => read.request == HttpRequest(Post, url, body)
  {
  }

  // ---------------------------------------------------------------- well-formed stores

  predicate KeysMatch(reviews: map<Uuid, PendingReview>) {
    forall id <- reviews :: reviews[id].requestId == id
  }

  /** A store the gateway can hold: ids index their own review, no id is in both maps, and every
      review can be written. */
  predicate ValidStore(store: Store) {
    && KeysMatch(store.reviews)
    && KeysMatch(store.claimed)
    && store.reviews.Keys !! store.claimed.Keys
    && (forall id <- store.reviews :: Reviewable(store.reviews[id]))
    && (forall id <- store.claimed :: Reviewable(store.claimed[id]))
  }

  predicate AllPersistable(store: Store) {
    && (forall id <- store.reviews :: Persistable(store.reviews[id]))
    && (forall id <- store.claimed :: Persistable(store.claimed[id]))
  }

  // ---------------------------------------------------------------- serialiser

  ghost predicate DistinctIds(list: seq<PersistedReview>) {
    forall i, j | 0 <= i < j < |list| :: list[i].requestId != list[j].requestId
  }

  ghost predicate Lists(list: seq<PersistedReview>, id: Uuid, status: Status) {
    exists e <- list :: e.requestId == id && e.status == status
  }

  predicate WrittenFrom(e: PersistedReview, reviews: map<Uuid, PendingReview>, status: Status) {
    && e.requestId in reviews
    && ToPersisted(reviews[e.requestId]) == Ok(e.(status := Pending))
    && e.status == status
  }

  /** `list` writes each entry of `reviews` exactly once, with the given status, in some order. */
  ghost predicate Enumerates(list: seq<PersistedReview>, reviews: map<Uuid, PendingReview>, status: Status) {
    && DistinctIds(list)
    && (forall e <- list :: WrittenFrom(e, reviews, status))
    && (forall id <- reviews :: Lists(list, id, status))
  }

  ghost predicate ListsStore(
    list: seq<PersistedReview>, pending: seq<PersistedReview>, claimed: seq<PersistedReview>, store: Store)
  {
    && list == pending + claimed
    && Enumerates(pending, store.reviews, Pending)
    && Enumerates(claimed, store.claimed, Claimed)
  }

  /** The state value written for `store`, up to the order in which the hash maps are walked. */
  ghost predicate Serialization(state: PersistedState, store: Store) {
    && state.version == VERSION
    && exists pending, claimed :: ListsStore(state.reviews, pending, claimed, store)
  }

  lemma ListsMore(a: seq<PersistedReview>, b: seq<PersistedReview>, id: Uuid, status: Status)
    ensures Lists(a + b, id, status) <==> Lists(a, id, status) || Lists(b, id, status)
  {
    if Lists(a, id, status) {
      var e :| e in a && e.requestId == id && e.status == status;
      assert e in a + b;
    }
    if Lists(b, id, status) {
      var e :| e in b && e.requestId == id && e.status == status;
      assert e in a + b;
    }
  }

  lemma EnumerateStep(
    list: seq<PersistedReview>, written: map<Uuid, PendingReview>, id: Uuid, pending: PendingReview, status: Status)
    requires Enumerates(list, written, status) && id !in written && pending.requestId == id
    requires ToPersisted(pending).Ok?
    ensures Enumerates(list + [ToPersisted(pending).value.(status := status)], written[id := pending], status)
  {
    var e := ToPersisted(pending).value.(status := status);
    assert e.requestId == id && e in [e] && Lists([e], id, status);
    forall i | 0 <= i < |list| ensures list[i].requestId != id {
      assert WrittenFrom(list[i], written, status);
    }
    forall f | f in list + [e] ensures WrittenFrom(f, written[id := pending], status) {
      if f in list {
        assert WrittenFrom(f, written, status);
      }
    }
    forall k | k in written[id := pending] ensures Lists(list + [e], k, status) {
      ListsMore(list, [e], k, status);
    }
  }

  lemma EnumeratedPersistable(list: seq<PersistedReview>, reviews: map<Uuid, PendingReview>, status: Status)
    requires Enumerates(list, reviews, status)
    ensures forall id <- reviews :: Persistable(reviews[id])
  {
    forall id | id in reviews ensures Persistable(reviews[id]) {
      var e :| e in list && e.requestId == id && e.status == status;
      assert WrittenFrom(e, reviews, status);
    }
  }

  /** One of the two walks over a hash map: the order is whatever the map yields. */
  method SerializeMap(reviews: map<Uuid, PendingReview>, status: Status)
    returns (result: Result<seq<PersistedReview>, ConversionError>)
    requires KeysMatch(reviews)
    ensures result.Ok? <==> forall id <- reviews :: Persistable(reviews[id])
    ensures result.Ok? ==> Enumerates(result.value, reviews, status)
  {
    var list: seq<PersistedReview> := [];
    ghost var written: map<Uuid, PendingReview> := map[];
    var rest := reviews.Keys;
    while rest != {}
      invariant rest <= reviews.Keys && written.Keys == reviews.Keys - rest
      invariant forall id <- written :: written[id] == reviews[id]
      invariant Enumerates(list, written, status)
      decreases rest
    {
      var id: Uuid :| id in rest;
      var persisted := ToPersisted(reviews[id]);
      if persisted.Err? {
        return Err(persisted.error);
      }
      EnumerateStep(list, written, id, reviews[id], status);
      written := written[id := reviews[id]];
      list := list + [persisted.value.(status := status)];
      rest := rest - {id};
    }
    assert written == reviews;
    EnumeratedPersistable(list, reviews, status);
    return Ok(list);
  }

  method Serialize(store: Store) returns (result: Result<PersistedState, ConversionError>)
    requires KeysMatch(store.reviews) && KeysMatch(store.claimed)
    ensures result.Ok? <==> AllPersistable(store)
    ensures result.Ok? ==> Serialization(result.value, store) && result.value.version == 3
  {
    var pending := SerializeMap(store.reviews, Pending);
    if pending.Err? {
      return Err(pending.error);
    }
    var claimed := SerializeMap(store.claimed, Claimed);
    if claimed.Err? {
      return Err(claimed.error);
    }
    var all := pending.value + claimed.value;
    assert ListsStore(all, pending.value, claimed.value, store);
    return Ok(PersistedState(VERSION, all));
  }

  // ---------------------------------------------------------------- loader

  function Add(store: Store, entry: PersistedReview): Store {
    match entry.status
    case Pending => store.(reviews := store.reviews[entry.requestId := FromPersisted(entry)])
    case Claimed => store.(claimed := store.claimed[entry.requestId := FromPersisted(entry)])
  }

  predicate Holds(store: Store, id: Uuid) {
    id in store.reviews || id in store.claimed
  }

  function LoadList(list: seq<PersistedReview>): Result<Store, LoadError> {
    if list == [] then Ok(EMPTY_STORE)
    else
      var front := LoadList(list[..|list| - 1]);
      var entry := list[|list| - 1];
      if front.Err? then front
      else if Holds(front.value, entry.requestId) then Err(DuplicateRequestId(entry.requestId))
      else Ok(Add(front.value, entry))
  }

  /** What loading `state` yields: the state's meaning. */
  function Load(state: PersistedState): Result<Store, LoadError> {
    if state.version != VERSION then Err(UnsupportedVersion(state.version)) else LoadList(state.reviews)
  }

  predicate EntryRead(e: PersistedReview, store: Store) {
    match e.status
    case Pending => e.requestId in store.reviews && store.reviews[e.requestId] == FromPersisted(e)
    case Claimed => e.requestId in store.claimed && store.claimed[e.requestId] == FromPersisted(e)
  }

  /** `store` holds exactly the entries of `list`, each in the map its status names. */
  ghost predicate Reads(list: seq<PersistedReview>, store: Store) {
    && (forall e <- list :: EntryRead(e, store))
    && (forall id <- store.reviews :: Lists(list, id, Pending))
    && (forall id <- store.claimed :: Lists(list, id, Claimed))
  }

  lemma ListsAt(list: seq<PersistedReview>, id: Uuid, status: Status)
    requires Lists(list, id, status)
    ensures exists i :: 0 <= i < |list| && list[i].requestId == id && list[i].status == status
  {
  }

  lemma LoadStep(front: seq<PersistedReview>, before: Store, entry: PersistedReview)
    requires Reads(front, before) && !Holds(before, entry.requestId)
    ensures Reads(front + [entry], Add(before, entry))
  {
    var list, after := front + [entry], Add(before, entry);
    assert entry in [entry];
    assert Lists([entry], entry.requestId, entry.status);
    forall e | e in list ensures EntryRead(e, after) {
      if e in front {
        assert EntryRead(e, before);
      }
    }
    forall id | id in after.reviews ensures Lists(list, id, Pending) {
      ListsMore(front, [entry], id, Pending);
    }
    forall id | id in after.claimed ensures Lists(list, id, Claimed) {
      ListsMore(front, [entry], id, Claimed);
    }
  }

  lemma LoadStepValid(before: Store, entry: PersistedReview)
    requires ValidStore(before) && !Holds(before, entry.requestId)
    ensures ValidStore(Add(before, entry))
  {
    ReviewRoundTrip(FromPersisted(entry), entry, Pending);
  }

  /** The loader accepts a list exactly when its ids are distinct; what it then holds is what the list says. */
  lemma {:induction false} LoadListMeaning(list: seq<PersistedReview>)
    ensures LoadList(list).Ok? <==> DistinctIds(list)
    ensures LoadList(list).Ok? ==> Reads(list, LoadList(list).value) && ValidStore(LoadList(list).value)
  {
    if list != [] {
      var front, entry := list[..|list| - 1], list[|list| - 1];
      assert list == front + [entry];
      LoadListMeaning(front);
      if LoadList(front).Ok? {
        var before := LoadList(front).value;
        if Holds(before, entry.requestId) {
          var status := if entry.requestId in before.reviews then Pending else Claimed;
          assert Lists(front, entry.requestId, status);
          ListsAt(front, entry.requestId, status);
        } else {
          LoadStep(front, before, entry);
          LoadStepValid(before, entry);
          forall i | 0 <= i < |front| ensures front[i].requestId != entry.requestId {
            assert front[i] in front && EntryRead(front[i], before);
          }
        }
      } else {
        assert !DistinctIds(front);
      }
    }
  }

  /** Only version 3 is read, and only if no id is repeated. */
  lemma LoadMeaning(state: PersistedState)
    ensures Load(state).Ok? <==> state.version == 3 && DistinctIds(state.reviews)
    ensures state.version != 3 ==> Load(state) == Err(UnsupportedVersion(state.version))
  {
    LoadListMeaning(state.reviews);
  }

  lemma {:induction false} LoadListPrefix(list: seq<PersistedReview>, k: nat)
    requires k <= |list|
    requires LoadList(list[..k]).Err?
    ensures LoadList(list) == LoadList(list[..k])
    decreases |list|
  {
    if k < |list| {
      assert list[..|list| - 1][..k] == list[..k];
      LoadListPrefix(list[..|list| - 1], k);
    } else {
      assert list[..k] == list;
    }
  }

  /** The loader's loop over the decoded list. */
  method FromSerialized(state: PersistedState) returns (result: Result<Store, LoadError>)
    ensures result == Load(state)
    ensures result.Ok? <==> state.version == 3 && DistinctIds(state.reviews)
    ensures state.version != 3 ==> result == Err(UnsupportedVersion(state.version))
  {
    LoadMeaning(state);
    if state.version != VERSION {
      return Err(UnsupportedVersion(state.version));
    }
    var store := EMPTY_STORE;
    for i := 0 to |state.reviews|
      invariant LoadList(state.reviews[..i]) == Ok(store)
    {
      var entry := state.reviews[i];
      assert state.reviews[..i + 1][..i] == state.reviews[..i];
      if entry.requestId in store.reviews || entry.requestId in store.claimed {
        LoadListPrefix(state.reviews, i + 1);
        return Err(DuplicateRequestId(entry.requestId));
      }
      store := Add(store, entry);
    }
    assert state.reviews[..|state.reviews|] == state.reviews;
    return Ok(store);
  }

  /** A list determines the store it reads as. */
  lemma ReadsUnique(list: seq<PersistedReview>, a: Store, b: Store)
    requires Reads(list, a) && Reads(list, b)
    ensures a == b
  {
    forall id | id in a.reviews ensures id in b.reviews && a.reviews[id] == b.reviews[id] {
      assert Lists(list, id, Pending);
    }
    forall id | id in b.reviews ensures id in a.reviews {
      assert Lists(list, id, Pending);
    }
    forall id | id in a.claimed ensures id in b.claimed && a.claimed[id] == b.claimed[id] {
      assert Lists(list, id, Claimed);
    }
    forall id | id in b.claimed ensures id in a.claimed {
      assert Lists(list, id, Claimed);
    }
    assert a.reviews == b.reviews && a.claimed == b.claimed;
  }

  // ---------------------------------------------------------------- round trips

  lemma DistinctUnion(pending: seq<PersistedReview>, claimed: seq<PersistedReview>, store: Store)
    requires store.reviews.Keys !! store.claimed.Keys
    requires Enumerates(pending, store.reviews, Pending) && Enumerates(claimed, store.claimed, Claimed)
    ensures DistinctIds(pending + claimed)
  {
    var list := pending + claimed;
    forall i, j | 0 <= i < j < |list| ensures list[i].requestId != list[j].requestId {
      if i < |pending| <= j {
        assert WrittenFrom(pending[i], store.reviews, Pending);
        assert WrittenFrom(claimed[j - |pending|], store.claimed, Claimed);
      }
    }
  }

  lemma WrittenReads(pending: PendingReview, e: PersistedReview)
    requires Reviewable(pending) && ToPersisted(pending) == Ok(e.(status := Pending))
    ensures FromPersisted(e) == pending
  {
  }

  lemma EnumerationsRead(pending: seq<PersistedReview>, claimed: seq<PersistedReview>, store: Store)
    requires ValidStore(store)
    requires Enumerates(pending, store.reviews, Pending) && Enumerates(claimed, store.claimed, Claimed)
    ensures Reads(pending + claimed, store)
  {
    forall e | e in pending + claimed ensures EntryRead(e, store) {
      if e in pending {
        assert WrittenFrom(e, store.reviews, Pending);
        WrittenReads(store.reviews[e.requestId], e);
      } else {
        assert WrittenFrom(e, store.claimed, Claimed);
        WrittenReads(store.claimed[e.requestId], e);
      }
    }
    forall id | id in store.reviews ensures Lists(pending + claimed, id, Pending) {
      ListsMore(pending, claimed, id, Pending);
    }
    forall id | id in store.claimed ensures Lists(pending + claimed, id, Claimed) {
      ListsMore(pending, claimed, id, Claimed);
    }
  }

  /** Saving and loading a well-formed store gives it back, whatever order the maps are walked in. */
  lemma SaveThenLoad(store: Store, state: PersistedState)
    requires ValidStore(store) && Serialization(state, store)
    ensures Load(state) == Ok(store)
  {
    var pending, claimed :| ListsStore(state.reviews, pending, claimed, store);
    DistinctUnion(pending, claimed, store);
    EnumerationsRead(pending, claimed, store);
    LoadListMeaning(pending + claimed);
    ReadsUnique(pending + claimed, store, Load(state).value);
  }

  lemma RepeatedId(pending: seq<PersistedReview>, claimed: seq<PersistedReview>, id: Uuid)
    requires Lists(pending, id, Pending) && Lists(claimed, id, Claimed)
    ensures !DistinctIds(pending + claimed)
  {
    ListsAt(pending, id, Pending);
    ListsAt(claimed, id, Claimed);
    var i :| 0 <= i < |pending| && pending[i].requestId == id;
    var j :| 0 <= j < |claimed| && claimed[j].requestId == id;
    assert (pending + claimed)[i].requestId == (pending + claimed)[|pending| + j].requestId;
  }

  /** With an id in both maps the file written is one the loader refuses. */
  lemma OverlapIsRefused(store: Store, state: PersistedState, id: Uuid)
    requires Serialization(state, store)
    requires id in store.reviews && id in store.claimed
    ensures Load(state).Err?
  {
    var pending, claimed :| ListsStore(state.reviews, pending, claimed, store);
    RepeatedId(pending, claimed, id);
    LoadListMeaning(state.reviews);
  }

  lemma {:induction false} DistinctCount(list: seq<PersistedReview>, e: PersistedReview)
    requires DistinctIds(list)
    ensures multiset(list)[e] == if e in list then 1 else 0
  {
    if list != [] {
      var front, last := list[..|list| - 1], list[|list| - 1];
      assert list == front + [last];
      DistinctCount(front, e);
      assert forall i | 0 <= i < |front| :: front[i] == list[i] && front[i] != last;
    }
  }

  lemma ReadInjective(e: PersistedReview, f: PersistedReview)
    requires FromPersisted(e) == FromPersisted(f) && e.status == f.status
    ensures e == f
  {
  }

  lemma SameEntry(from: seq<PersistedReview>, to: seq<PersistedReview>, store: Store, e: PersistedReview)
    requires Reads(from, store) && Reads(to, store) && ValidStore(store)
    requires e in from
    ensures e in to
  {
    assert EntryRead(e, store) && Lists(to, e.requestId, e.status);
    var f :| f in to && f.requestId == e.requestId && f.status == e.status;
    assert EntryRead(f, store);
    ReadInjective(e, f);
  }

  /** Loading an accepted file and saving again writes a permutation of the same entries. */
  lemma LoadThenSave(state: PersistedState, again: PersistedState)
    requires Load(state).Ok?
    requires Serialization(again, Load(state).value)
    ensures multiset(again.reviews) == multiset(state.reviews) && again.version == state.version
  {
    var store := Load(state).value;
    LoadListMeaning(state.reviews);
    SaveThenLoad(store, again);
    LoadListMeaning(again.reviews);
    forall e: PersistedReview
      ensures e in state.reviews <==> e in again.reviews
    {
      if e in state.reviews {
        SameEntry(state.reviews, again.reviews, store, e);
      }
      if e in again.reviews {
        SameEntry(again.reviews, state.reviews, store, e);
      }
    }
    forall e: PersistedReview
      ensures multiset(again.reviews)[e] == multiset(state.reviews)[e]
    {
      DistinctCount(state.reviews, e);
      DistinctCount(again.reviews, e);
    }
  }
}
