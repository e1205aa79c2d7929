/** The byte stream the fingerprint hashes: every covered file as a length-prefixed relative path and
    length-prefixed contents, in sorted order; and the decoder that shows nothing is lost
    (src/workspace_fingerprint.rs). */
module Encoding {
  import opened Wrappers
  import opened FileTree
  import opened PathOrder

  // ---------------------------------------------------------------- 64-bit little-endian lengths

  const WORD_BYTES: nat := 8

  function LittleEndian(n: nat, width: nat): (b: seq<Byte>)
    ensures |b| == width
  {
    if width == 0 then [] else [n % 256] + LittleEndian(n / 256, width - 1)
  }

  function FromLittleEndian(b: seq<Byte>): nat {
    if b == [] then 0 else b[0] + 256 * FromLittleEndian(b[1..])
  }

  function Power256(width: nat): nat {
    if width == 0 then 1 else 256 * Power256(width - 1)
  }

  /** Encoding keeps the value modulo the width, as a cast to a machine word does. */
  lemma {:induction false} LittleEndianValue(n: nat, width: nat)
    requires n < Power256(width)
    ensures FromLittleEndian(LittleEndian(n, width)) == n
  {
    if width > 0 {
      var b := LittleEndian(n, width);
      assert b[1..] == LittleEndian(n / 256, width - 1);
      LittleEndianValue(n / 256, width - 1);
    }
  }

  lemma WordIsPower()
    ensures Power256(WORD_BYTES) == WORD
  {
    assert Power256(4) == 0x1_0000_0000;
  }

  function LengthPrefix(s: seq<Byte>): (b: seq<Byte>)
    ensures |b| == WORD_BYTES
  {
    LittleEndian(|s|, WORD_BYTES)
  }

  // ---------------------------------------------------------------- paths as bytes

  function Joined(p: Path): seq<Byte> {
    if p == [] then []
    else if |p| == 1 then p[0]
    else p[0] + [SLASH] + Joined(p[1..])
  }

  lemma {:induction false} JoinedLength(p: Path)
    ensures |Joined(p)| <= PathLength(p)
  {
    if |p| == 1 {
      assert PathLength(p[1..]) == 0;
    } else if |p| > 1 {
      JoinedLength(p[1..]);
    }
  }

  function FirstSlash(b: seq<Byte>): nat {
    if b == [] || b[0] == SLASH then 0 else 1 + FirstSlash(b[1..])
  }

  lemma {:induction false} SlashAfter(name: seq<Byte>, rest: seq<Byte>)
    requires SLASH !in name
    ensures FirstSlash(name) == |name| && FirstSlash(name + [SLASH] + rest) == |name|
  {
    if name != [] {
      SlashAfter(name[1..], rest);
      assert (name + [SLASH] + rest)[1..] == name[1..] + [SLASH] + rest;
    }
  }

  lemma FirstName(p: Path)
    requires p != []
    ensures FirstSlash(Joined(p)) == |p[0]| <= |Joined(p)|
    ensures Joined(p)[..|p[0]|] == p[0]
    ensures |p| == 1 <==> |Joined(p)| == |p[0]|
    ensures |p| > 1 ==> Joined(p)[|p[0]| + 1..] == Joined(p[1..])
  {
    SlashAfter(p[0], Joined(p[1..]));
  }

  /** Names hold no separator, so the joined bytes determine the path. */
  lemma {:induction false} JoinedInjective(p: Path, q: Path)
    requires p != [] && q != [] && Joined(p) == Joined(q)
    ensures p == q
  {
    FirstName(p);
    FirstName(q);
    assert p == [p[0]] + p[1..] && q == [q[0]] + q[1..];
    if |p| > 1 {
      JoinedInjective(p[1..], q[1..]);
    } else {
      assert p[1..] == q[1..];
    }
  }

  // ---------------------------------------------------------------- the stream

  function Frame(path: Path, contents: seq<Byte>): seq<Byte> {
    LengthPrefix(Joined(path)) + Joined(path) + LengthPrefix(contents) + contents
  }

  function Encode(paths: seq<Path>, files: map<Path, Bytes>): seq<Byte>
    requires forall p <- paths :: p in files
  {
    if paths == [] then [] else Frame(paths[0], files[paths[0]]) + Encode(paths[1..], files)
  }

  lemma Regroup(a: seq<Byte>, b: seq<Byte>, c: seq<Byte>)
    ensures a + (b + c) == (a + b) + c
  {
  }

  lemma {:induction false} EncodeAppend(paths: seq<Path>, p: Path, files: map<Path, Bytes>)
    requires p in files && forall q <- paths :: q in files
    ensures Encode(paths + [p], files) == Encode(paths, files) + Frame(p, files[p])
  {
    var all := paths + [p];
    var last := Frame(p, files[p]);
    if paths == [] {
      assert all == [p] && all[1..] == [];
      assert last + [] == [] + last;
    } else {
      var first := Frame(all[0], files[all[0]]);
      assert all[1..] == paths[1..] + [p];
      EncodeAppend(paths[1..], p, files);
      Regroup(first, Encode(paths[1..], files), last);
    }
  }

  /** The number that eight bytes stand for, the least significant first. */
  function Word(b: seq<nat>): nat
    requires |b| == 8
  {
    b[0] + 0x100 * b[1] + 0x1_0000 * b[2] + 0x100_0000 * b[3] + 0x1_0000_0000 * b[4] + 0x100_0000_0000 * b[5]
    + 0x1_0000_0000_0000 * b[6] + 0x100_0000_0000_0000 * b[7]
  }

  lemma FourBytes(b: seq<Byte>)
    requires |b| >= 4
    ensures var n: seq<nat> := b;
            FromLittleEndian(b) == n[0] + 0x100 * n[1] + 0x1_0000 * n[2] + 0x100_0000 * n[3]
                                   + 0x1_0000_0000 * FromLittleEndian(b[4..])
  {
    assert b[1..][1..] == b[2..] && b[2..][1..] == b[3..] && b[3..][1..] == b[4..];
    assert FromLittleEndian(b[2..]) == b[2] + 256 * FromLittleEndian(b[3..]);
  }

  lemma FromWord(b: seq<Byte>)
    requires |b| == 8
    ensures FromLittleEndian(b) == Word(b)
  {
    FourBytes(b);
    FourBytes(b[4..]);
    assert b[4..][4..] == [];
  }

  lemma PrefixIsWord(s: Bytes)
    ensures Word(LengthPrefix(s)) == |s|
  {
    WordIsPower();
    LittleEndianValue(|s|, WORD_BYTES);
    FromWord(LengthPrefix(s));
  }

  /** How one file stands in the stream: the length of its path in eight bytes, the least significant first, the path,
      the length of its contents likewise, the contents. */
  lemma FrameSpelled(path: Path, contents: Bytes)
    requires |Joined(path)| < WORD
    ensures var f, n := Frame(path, contents), |Joined(path)|;
            && |f| == 8 + n + 8 + |contents|
            && Word(f[..8]) == n && f[8..8 + n] == Joined(path)
            && Word(f[8 + n..16 + n]) == |contents| && f[16 + n..] == contents
  {
    PrefixIsWord(Joined(path));
    PrefixIsWord(contents);
    var f, n := Frame(path, contents), |Joined(path)|;
    assert f[..8] == LengthPrefix(Joined(path)) && f[8 + n..16 + n] == LengthPrefix(contents);
  }

  /** The names of a path with a slash between them. */
  lemma {:induction false} JoinedSpelled(p: Path, name: FileName)
    ensures Joined([name]) == name
    ensures p != [] ==> Joined(p + [name]) == Joined(p) + [47] + name
  {
    if |p| == 1 {
      assert (p + [name])[1..] == [name];
    } else if |p| > 1 {
      JoinedSpelled(p[1..], name);
      assert (p + [name])[1..] == p[1..] + [name];
    }
  }

  /** The stream of a set of covered files: it depends on nothing else. */
  ghost function Stream(files: map<Path, Bytes>): seq<Byte> {
    Encode(Listing(files.Keys), files)
  }

  // ---------------------------------------------------------------- the decoder

  function TakeChunk(b: seq<Byte>): Option<(seq<Byte>, seq<Byte>)> {
    if |b| < WORD_BYTES then None
    else
      var n := FromLittleEndian(b[..WORD_BYTES]);
      if |b| - WORD_BYTES < n then None
      else Some((b[WORD_BYTES..WORD_BYTES + n], b[WORD_BYTES + n..]))
  }

  lemma ChunkTaken(s: Bytes, rest: seq<Byte>)
    ensures TakeChunk(LengthPrefix(s) + s + rest) == Some((s, rest))
  {
    var b := LengthPrefix(s) + s + rest;
    WordIsPower();
    LittleEndianValue(|s|, WORD_BYTES);
    assert b[..WORD_BYTES] == LengthPrefix(s);
    assert b[WORD_BYTES..WORD_BYTES + |s|] == s;
    assert b[WORD_BYTES + |s|..] == rest;
  }

  function Decode(b: seq<Byte>): Option<seq<(seq<Byte>, seq<Byte>)>>
    decreases |b|
  {
    if b == [] then Some([])
    else
      var path := TakeChunk(b);
      if path.None? then None
      else
        var contents := TakeChunk(path.value.1);
        if contents.None? then None
        else
          var rest := Decode(contents.value.1);
          if rest.None? then None else Some([(path.value.0, contents.value.0)] + rest.value)
  }

  function Entries(paths: seq<Path>, files: map<Path, Bytes>): seq<(seq<Byte>, seq<Byte>)>
    requires forall p <- paths :: p in files
  {
    seq(|paths|, i requires 0 <= i < |paths| => (Joined(paths[i]), files[paths[i]]))
  }

  /** No path is empty or too long for its prefix. */
  ghost predicate Encodable(paths: set<Path>) {
    forall p <- paths :: p != [] && |Joined(p)| < WORD
  }

  lemma DecodeFrame(path: Path, contents: Bytes, rest: seq<Byte>)
    requires |Joined(path)| < WORD && Decode(rest).Some?
    ensures Decode(Frame(path, contents) + rest) == Some([(Joined(path), contents)] + Decode(rest).value)
  {
    var tail := LengthPrefix(contents) + contents + rest;
    assert Frame(path, contents) + rest == LengthPrefix(Joined(path)) + Joined(path) + tail;
    ChunkTaken(Joined(path), tail);
    ChunkTaken(contents, rest);
  }

  /** Decoding an encoding gives every path and every file's contents back, in order. */
  lemma {:induction false} DecodeEncode(paths: seq<Path>, files: map<Path, Bytes>)
    requires forall p <- paths :: p in files
    requires Encodable(files.Keys)
    ensures Decode(Encode(paths, files)) == Some(Entries(paths, files))
  {
    if paths != [] {
      DecodeEncode(paths[1..], files);
      DecodeFrame(paths[0], files[paths[0]], Encode(paths[1..], files));
      assert Entries(paths, files) == [(Joined(paths[0]), files[paths[0]])] + Entries(paths[1..], files);
    }
  }

  lemma SameListing(a: map<Path, Bytes>, b: map<Path, Bytes>)
    requires Listing(a.Keys) == Listing(b.Keys)
    requires forall p <- Listing(a.Keys) :: a[p] == b[p]
    ensures a == b
  {
    forall p ensures p in a <==> p in b {
      assert p in a <==> p in Listing(a.Keys);
      assert p in b <==> p in Listing(b.Keys);
    }
  }

  /** Equal streams come from equal files: same paths, same contents. */
  lemma StreamInjective(a: map<Path, Bytes>, b: map<Path, Bytes>)
    requires Encodable(a.Keys) && Encodable(b.Keys)
    requires Stream(a) == Stream(b)
    ensures a == b
  {
    var s, t := Listing(a.Keys), Listing(b.Keys);
    DecodeEncode(s, a);
    DecodeEncode(t, b);
    assert Entries(s, a) == Entries(t, b);
    assert |s| == |Entries(s, a)| == |Entries(t, b)| == |t|;
    forall i | 0 <= i < |s| ensures s[i] == t[i] && a[s[i]] == b[t[i]] {
      assert Entries(s, a)[i] == Entries(t, b)[i];
      assert s[i] in s && t[i] in t;
      JoinedInjective(s[i], t[i]);
    }
    assert s == t;
    SameListing(a, b);
  }

  // ---------------------------------------------------------------- hashes

  /** Two different inputs with the same hash. */
  predicate Collision(hash: seq<Byte> -> string, x: seq<Byte>, y: seq<Byte>) {
    x != y && hash(x) == hash(y)
  }

  ghost function Fingerprint(hash: seq<Byte> -> string, files: map<Path, Bytes>): string {
    hash(Stream(files))
  }

  /** Equal fingerprints mean equal files, or a collision. */
  lemma FingerprintBinds(hash: seq<Byte> -> string, a: map<Path, Bytes>, b: map<Path, Bytes>)
    requires Encodable(a.Keys) && Encodable(b.Keys)
    requires Fingerprint(hash, a) == Fingerprint(hash, b)
    ensures a == b || Collision(hash, Stream(a), Stream(b))
  {
    if Stream(a) == Stream(b) {
      StreamInjective(a, b);
    }
  }
}
