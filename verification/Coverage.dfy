/** Which files the fingerprint, the snapshot and with them the approval of a Cargo run are about, by the names the
    source gives them (src/workspace_fingerprint.rs, src/workspace_snapshot.rs). */
module Coverage {
  import opened Wrappers
  import opened FileTree
  import Encoding
  import Fingerprint
  import Snapshot

  /** What goes into a build: three files of the workspace itself, and everything below two of its directories. */
  predicate BuildInput(rel: Path) {
    || (|rel| == 1 && ( || rel[0] == [67, 97, 114, 103, 111, 46, 116, 111, 109, 108]    // Cargo.toml
                        || rel[0] == [67, 97, 114, 103, 111, 46, 108, 111, 99, 107]     // Cargo.lock
                        || rel[0] == [98, 117, 105, 108, 100, 46, 114, 115]))           // build.rs
    || (|rel| >= 2 && ( || rel[0] == [115, 114, 99]                                     // src
                        || rel[0] == [116, 101, 115, 116, 115]))                        // tests
  }

  lemma BuildInputIsCovered(rel: Path)
    ensures BuildInput(rel) <==> CoveredName(rel)
  {
    assert ROOT_FILES[0] == CARGO_TOML && ROOT_FILES[1] == CARGO_LOCK && ROOT_FILES[2] == BUILD_RS;
    assert SOURCE_DIRECTORIES[0] == SRC && SOURCE_DIRECTORIES[1] == TESTS;
  }

  /** The contents of the regular file at `p`, if there is one. */
  function RegularFile(fs: Tree, p: Path): Option<Bytes> {
    if p in fs && fs[p].File? then Some(fs[p].contents) else None
  }

  /** The same regular files, or none, at every path that goes into a build. */
  ghost predicate SameInputs(fs: Tree, root: Path, other: Tree, elsewhere: Path) {
    forall rel | BuildInput(rel) :: RegularFile(fs, root + rel) == RegularFile(other, elsewhere + rel)
  }

  lemma CoveredAreInputs(fs: Tree, root: Path, rel: Path)
    ensures rel in CoveredFiles(fs, root) <==> BuildInput(rel) && RegularFile(fs, root + rel).Some?
    ensures rel in CoveredFiles(fs, root) ==> RegularFile(fs, root + rel) == Some(CoveredFiles(fs, root)[rel])
  {
    BuildInputIsCovered(rel);
    CoveredFilesMeaning(fs, root, rel);
  }

  lemma SameCovered(fs: Tree, root: Path, other: Tree, elsewhere: Path)
    ensures CoveredFiles(fs, root) == CoveredFiles(other, elsewhere) <==> SameInputs(fs, root, other, elsewhere)
  {
    var here, there := CoveredFiles(fs, root), CoveredFiles(other, elsewhere);
    forall rel
      ensures rel in here <==> BuildInput(rel) && RegularFile(fs, root + rel).Some?
      ensures rel in here ==> RegularFile(fs, root + rel) == Some(here[rel])
      ensures rel in there <==> BuildInput(rel) && RegularFile(other, elsewhere + rel).Some?
      ensures rel in there ==> RegularFile(other, elsewhere + rel) == Some(there[rel])
    {
      CoveredAreInputs(fs, root, rel);
      CoveredAreInputs(other, elsewhere, rel);
    }
    if SameInputs(fs, root, other, elsewhere) {
      assert forall rel :: rel in here <==> rel in there;
    }
    if here == there {
      forall rel | BuildInput(rel) ensures RegularFile(fs, root + rel) == RegularFile(other, elsewhere + rel) {
        assert rel in here <==> rel in there;
      }
    }
  }

  /** Two workspaces have the same fingerprint exactly if they have the same regular files at "Cargo.toml", "Cargo.lock"
      and "build.rs" and everywhere below "src" and "tests", except when two different streams have the same hash. */
  lemma SameFingerprintSameInputs(fs: Tree, root: Path, other: Tree, elsewhere: Path, hash: Fingerprint.Hash)
    requires WellFormed(fs) && WellFormed(other)
    ensures var here, there := CoveredFiles(fs, root), CoveredFiles(other, elsewhere);
            var same := Encoding.Fingerprint(hash, here) == Encoding.Fingerprint(hash, there);
            && (SameInputs(fs, root, other, elsewhere) ==> same)
            && (same ==> || SameInputs(fs, root, other, elsewhere)
                         || Encoding.Collision(hash, Encoding.Stream(here), Encoding.Stream(there)))
  {
    SameCovered(fs, root, other, elsewhere);
    Fingerprint.CoveredEncodable(fs, root);
    Fingerprint.CoveredEncodable(other, elsewhere);
    var here, there := CoveredFiles(fs, root), CoveredFiles(other, elsewhere);
    if Encoding.Fingerprint(hash, here) == Encoding.Fingerprint(hash, there) {
      Encoding.FingerprintBinds(hash, here, there);
    }
  }

  /** The snapshot's files are the workspace's at these paths, and there are no others. */
  lemma SnapshotHasInputs(before: Tree, fs: Tree, root: Path, target: Path)
    requires Snapshot.Faithful(before, fs, root, target)
    ensures SameInputs(before, root, fs, target)
    ensures forall rel | rel != [] && target + rel in fs && !fs[target + rel].Directory? ::
              BuildInput(rel) && RegularFile(before, root + rel).Some?
  {
    SameCovered(before, root, fs, target);
    forall rel | rel != [] && target + rel in fs && !fs[target + rel].Directory?
      ensures BuildInput(rel) && RegularFile(before, root + rel).Some?
    {
      BuildInputIsCovered(rel);
      assert RegularFile(before, root + rel) == RegularFile(fs, target + rel);
    }
  }

  /** What a walk has read at `rel`, if anything. */
  function WhatWasRead(reading: Fingerprint.Reading, rel: Path): Option<Bytes> {
    if rel in reading.files then Some(reading.files[rel]) else None
  }

  /** A walk reads regular files at these paths only, and each of them that was there all along; in a workspace that
      stands still it has read exactly the files there are. */
  lemma WalkReadsInputs(root: Path, reading: Fingerprint.Reading, rel: Path)
    requires Fingerprint.WasRead(root, reading)
    ensures WhatWasRead(reading, rel).Some? ==>
              BuildInput(rel) && Fingerprint.ReadAt(reading.log, root + rel, WhatWasRead(reading, rel).value)
    ensures BuildInput(rel) && Fingerprint.Standing(reading.log, root + rel) ==> WhatWasRead(reading, rel).Some?
    ensures forall fs | WellFormed(fs) && Fingerprint.Answered(fs, true, reading.log) && BuildInput(rel) ::
              WhatWasRead(reading, rel) == RegularFile(fs, root + rel)
  {
    BuildInputIsCovered(rel);
    forall fs | WellFormed(fs) && Fingerprint.Answered(fs, true, reading.log) && BuildInput(rel)
      ensures WhatWasRead(reading, rel) == RegularFile(fs, root + rel)
    {
      Fingerprint.StandsStill(fs, root, reading);
      CoveredAreInputs(fs, root, rel);
    }
  }

  /** A tree whose covered files are those that were read has, at each of these paths, what was read there. */
  lemma InputsAsRead(fs: Tree, root: Path, reading: Fingerprint.Reading, rel: Path)
    requires CoveredFiles(fs, root) == reading.files && BuildInput(rel)
    ensures RegularFile(fs, root + rel) == WhatWasRead(reading, rel)
  {
    CoveredAreInputs(fs, root, rel);
  }
}
