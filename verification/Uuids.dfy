/** The names the gateway draws: version 4 UUIDs as text, in the names of temporaries and snapshots
    (src/filesystem.rs, src/workspace_snapshot.rs). There are so many of them and no more. */
module Uuids {
  import opened FileTree

  // 122 bits are drawn.
  const UUIDS: nat := 0x400_0000_0000_0000_0000_0000_0000_0000

  const HYPHEN: Byte := 45
  const VERSION: Byte := 52

  // ".zyguor-write-" and ".tmp"
  const TEMPORARY_PREFIX: seq<Byte> := [46, 122, 121, 103, 117, 111, 114, 45, 119, 114, 105, 116, 101, 45]
  const TEMPORARY_SUFFIX: seq<Byte> := [46, 116, 109, 112]

  // What a temporary's name adds to the length of a path.
  const TEMPORARY_LENGTH: nat := 55

  predicate IsHex(b: Byte) {
    48 <= b < 58 || 97 <= b < 103
  }

  function Digit(n: nat): (b: Byte)
    requires n < 16
    ensures IsHex(b)
  {
    if n < 10 then 48 + n else 87 + n
  }

  /** 8-4-4-4-12 hexadecimal digits, the version and the variant among them. */
  predicate IsUuid(text: seq<Byte>) {
    && |text| == 36 && SLASH !in text
    && (forall k | 0 <= k < 36 && k !in {8, 13, 18, 23} :: IsHex(text[k]))
    && text[8] == text[13] == text[18] == text[23] == HYPHEN && text[14] == VERSION && text[19] in {56, 57, 97, 98}
  }

  predicate Number(n: nat) {
    n < UUIDS
  }

  function Hex(n: nat, width: nat): (b: seq<Byte>)
    ensures |b| == width && forall k | 0 <= k < width :: IsHex(b[k])
  {
    if width == 0 then [] else Hex(n / 16, width - 1) + [Digit(n % 16)]
  }

  // 30 digits and 2 bits of the variant are free.
  const FREE: nat := 30
  const FREE_VALUES: nat := 0x100_0000_0000_0000_0000_0000_0000_0000

  function Digits(n: nat): (b: seq<Byte>)
    requires Number(n)
    ensures |b| == FREE && forall k | 0 <= k < FREE :: IsHex(b[k])
  {
    Hex(n % FREE_VALUES, FREE)
  }

  function Variant(n: nat): (b: Byte)
    requires Number(n)
    ensures b in {56, 57, 97, 98}
  {
    Digit(8 + n / FREE_VALUES)
  }

  /** The UUIDs in some order. */
  function Text(n: nat): (b: seq<Byte>)
    requires Number(n)
    ensures IsUuid(b)
  {
    var d := Digits(n);
    d[..8] + [HYPHEN] + d[8..12] + [HYPHEN, VERSION] + d[12..15] + [HYPHEN, Variant(n)] + d[15..18] + [HYPHEN] + d[18..]
  }

  type Drawn = text: seq<Byte> | IsUuid(text) ghost witness Text(0)

  function Power16(width: nat): nat {
    if width == 0 then 1 else 16 * Power16(width - 1)
  }

  /** The digits determine the number. */
  lemma {:induction false} HexInjective(a: nat, b: nat, width: nat)
    requires a < Power16(width) && b < Power16(width) && Hex(a, width) == Hex(b, width)
    ensures a == b
  {
    if width > 0 {
      var s, t := Hex(a, width), Hex(b, width);
      assert s[..width - 1] == Hex(a / 16, width - 1) && t[..width - 1] == Hex(b / 16, width - 1);
      assert s[width - 1] == Digit(a % 16) && t[width - 1] == Digit(b % 16);
      HexInjective(a / 16, b / 16, width - 1);
    }
  }

  lemma FreeDigits()
    ensures Power16(FREE) == FREE_VALUES
  {
    assert Power16(5) == 0x10_0000;
    assert Power16(10) == 0x100_0000_0000;
    assert Power16(20) == 0x1_0000_0000_0000_0000_0000;
  }

  lemma NumberInjective(a: nat, b: nat)
    requires Number(a) && Number(b) && Digits(a) == Digits(b) && Variant(a) == Variant(b)
    ensures a == b
  {
    FreeDigits();
    HexInjective(a % FREE_VALUES, b % FREE_VALUES, FREE);
  }

  lemma TextParts(n: nat)
    requires Number(n)
    ensures var t, d := Text(n), Digits(n);
            && t[..8] == d[..8] && t[9..13] == d[8..12] && t[15..18] == d[12..15] && t[20..23] == d[15..18]
            && t[24..] == d[18..] && t[19] == Variant(n)
  {
  }

  lemma InParts(d: seq<Byte>)
    requires |d| == FREE
    ensures d == d[..8] + d[8..12] + d[12..15] + d[15..18] + d[18..]
  {
  }

  /** Different numbers have different texts, so there are that many UUIDs. */
  lemma TextInjective(a: nat, b: nat)
    requires Number(a) && Number(b) && Text(a) == Text(b)
    ensures a == b
  {
    TextParts(a);
    TextParts(b);
    InParts(Digits(a));
    InParts(Digits(b));
    NumberInjective(a, b);
  }

  // ---------------------------------------------------------------- names with a UUID in them

  function NameWith(prefix: seq<Byte>, uuid: Drawn, suffix: seq<Byte>): (name: FileName)
    requires SLASH !in prefix && SLASH !in suffix
  {
    prefix + uuid + suffix
  }

  function TemporaryName(uuid: Drawn): FileName {
    NameWith(TEMPORARY_PREFIX, uuid, TEMPORARY_SUFFIX)
  }

  lemma NameInjective(prefix: seq<Byte>, suffix: seq<Byte>, a: Drawn, b: Drawn)
    requires SLASH !in prefix && SLASH !in suffix && NameWith(prefix, a, suffix) == NameWith(prefix, b, suffix)
    ensures a == b
  {
    var n := |prefix|;
    assert NameWith(prefix, a, suffix)[n..n + 36] == a;
    assert NameWith(prefix, b, suffix)[n..n + 36] == b;
  }

  /** ".zyguor-write-", the UUID and ".tmp": as many different names as there are UUIDs. */
  lemma TemporarySpelled(uuid: Drawn, other: Drawn)
    ensures TemporaryName(uuid) ==
            [46, 122, 121, 103, 117, 111, 114, 45, 119, 114, 105, 116, 101, 45] + uuid + [46, 116, 109, 112]
    ensures TemporaryName(uuid) == TemporaryName(other) ==> uuid == other
  {
    if TemporaryName(uuid) == TemporaryName(other) {
      NameInjective(TEMPORARY_PREFIX, TEMPORARY_SUFFIX, uuid, other);
    }
  }

  lemma {:induction false} DrawnFrom(
    taken: set<Path>, dir: Path, prefix: seq<Byte>, suffix: seq<Byte>, from: nat) returns (n: nat)
    requires SLASH !in prefix && SLASH !in suffix && from + |taken| < UUIDS
    ensures from <= n && Number(n) && dir + [NameWith(prefix, Text(n), suffix)] !in taken
    decreases taken
  {
    var p := dir + [NameWith(prefix, Text(from), suffix)];
    if p !in taken {
      n := from;
    } else {
      n := DrawnFrom(taken - {p}, dir, prefix, suffix, from + 1);
      var q := dir + [NameWith(prefix, Text(n), suffix)];
      if q == p {
        assert q[|dir|] == p[|dir|];
        NameInjective(prefix, suffix, Text(n), Text(from));
        TextInjective(n, from);
      }
    }
  }

  /** Where fewer names are taken than there are UUIDs, one of them makes a new name. */
  lemma NewName(taken: set<Path>, dir: Path, prefix: seq<Byte>, suffix: seq<Byte>)
    requires SLASH !in prefix && SLASH !in suffix && |taken| < UUIDS
    ensures exists n: nat :: Number(n) && dir + [NameWith(prefix, Text(n), suffix)] !in taken
  {
    var n := DrawnFrom(taken, dir, prefix, suffix, 0);
  }
}
