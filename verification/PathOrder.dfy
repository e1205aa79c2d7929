/** The order the fingerprint sorts by, component by component and byte by byte, and sorting by it. */
module PathOrder {
  import opened FileTree

  predicate NameLess(a: seq<Byte>, b: seq<Byte>) {
    if b == [] then false
    else if a == [] then true
    else if a[0] != b[0] then a[0] < b[0]
    else NameLess(a[1..], b[1..])
  }

  predicate PathLess(p: Path, q: Path) {
    if q == [] then false
    else if p == [] then true
    else if p[0] != q[0] then NameLess(p[0], q[0])
    else PathLess(p[1..], q[1..])
  }

  lemma {:induction false} NameOrder(a: seq<Byte>, b: seq<Byte>)
    ensures NameLess(a, b) || NameLess(b, a) || a == b
    ensures !(NameLess(a, b) && NameLess(b, a)) && !NameLess(a, a)
  {
    if a != [] && b != [] && a[0] == b[0] {
      NameOrder(a[1..], b[1..]);
      assert a == [a[0]] + a[1..] && b == [b[0]] + b[1..];
    }
    if a != [] {
      NameOrder(a[1..], a[1..]);
    }
  }

  lemma {:induction false} NameTransitive(a: seq<Byte>, b: seq<Byte>, c: seq<Byte>)
    requires NameLess(a, b) && NameLess(b, c)
    ensures NameLess(a, c)
  {
    if a != [] && b != [] && c != [] && a[0] == b[0] == c[0] {
      NameTransitive(a[1..], b[1..], c[1..]);
    }
  }

  /** Exactly one of less, greater and equal. */
  lemma {:induction false} PathTotal(p: Path, q: Path)
    ensures PathLess(p, q) || PathLess(q, p) || p == q
    ensures !(PathLess(p, q) && PathLess(q, p)) && !PathLess(p, p)
  {
    if p != [] && q != [] {
      if p[0] == q[0] {
        PathTotal(p[1..], q[1..]);
        assert p == [p[0]] + p[1..] && q == [q[0]] + q[1..];
      } else {
        NameOrder(p[0], q[0]);
      }
    }
    if p != [] {
      PathTotal(p[1..], p[1..]);
    }
  }

  lemma {:induction false} PathTransitive(p: Path, q: Path, r: Path)
    requires PathLess(p, q) && PathLess(q, r)
    ensures PathLess(p, r)
  {
    if p != [] && q != [] && r != [] {
      if p[0] == q[0] == r[0] {
        PathTransitive(p[1..], q[1..], r[1..]);
      } else if p[0] != q[0] && q[0] != r[0] {
        NameTransitive(p[0], q[0], r[0]);
        NameOrder(p[0], r[0]);
        NameOrder(q[0], p[0]);
      }
    }
  }

  /** They agree up to `k`, and there the first one ends or has the smaller byte. */
  predicate NameBefore(a: seq<Byte>, b: seq<Byte>, k: nat) {
    k <= |a| && k < |b| && a[..k] == b[..k] && (k == |a| || a[k] < b[k])
  }

  /** They agree up to `k`, and there the first one ends or has the lesser name. */
  ghost predicate PathBefore(p: Path, q: Path, k: nat) {
    && k <= |p| && k < |q| && p[..k] == q[..k]
    && (k == |p| || exists i: nat :: NameBefore(p[k], q[k], i))
  }

  lemma {:induction false} NameBeforeIsLess(a: seq<Byte>, b: seq<Byte>, k: nat)
    requires NameBefore(a, b, k)
    ensures NameLess(a, b)
  {
    if k > 0 {
      assert a[0] == a[..k][0] && b[0] == b[..k][0];
      assert a[1..][..k - 1] == a[..k][1..] && b[1..][..k - 1] == b[..k][1..];
      NameBeforeIsLess(a[1..], b[1..], k - 1);
    }
  }

  lemma {:induction false} NameLessIsBefore(a: seq<Byte>, b: seq<Byte>) returns (k: nat)
    requires NameLess(a, b)
    ensures NameBefore(a, b, k)
  {
    if a == [] || a[0] != b[0] {
      k := 0;
    } else {
      var rest := NameLessIsBefore(a[1..], b[1..]);
      k := rest + 1;
      assert a[..k] == [a[0]] + a[1..][..rest] && b[..k] == [b[0]] + b[1..][..rest];
    }
  }

  /** Names are compared byte by byte, as in a dictionary. */
  lemma NameLessMeaning(a: seq<Byte>, b: seq<Byte>)
    ensures NameLess(a, b) <==> exists k: nat :: NameBefore(a, b, k)
  {
    if NameLess(a, b) {
      var k := NameLessIsBefore(a, b);
    }
    if k: nat :| NameBefore(a, b, k) {
      NameBeforeIsLess(a, b, k);
    }
  }

  lemma {:induction false} PathBeforeIsLess(p: Path, q: Path, k: nat)
    requires PathBefore(p, q, k)
    ensures PathLess(p, q)
  {
    if k > 0 {
      assert p[0] == p[..k][0] && q[0] == q[..k][0];
      assert p[1..][..k - 1] == p[..k][1..] && q[1..][..k - 1] == q[..k][1..];
      PathBeforeIsLess(p[1..], q[1..], k - 1);
    } else if p != [] {
      NameLessMeaning(p[0], q[0]);
      NameOrder(p[0], q[0]);
    }
  }

  lemma {:induction false} PathLessIsBefore(p: Path, q: Path) returns (k: nat)
    requires PathLess(p, q)
    ensures PathBefore(p, q, k)
  {
    if p == [] || p[0] != q[0] {
      k := 0;
      if p != [] {
        NameLessMeaning(p[0], q[0]);
      }
    } else {
      var rest := PathLessIsBefore(p[1..], q[1..]);
      k := rest + 1;
      assert p[..k] == [p[0]] + p[1..][..rest] && q[..k] == [q[0]] + q[1..][..rest];
    }
  }

  /** Paths are compared name by name, and the first names to differ decide byte by byte. */
  lemma PathLessMeaning(p: Path, q: Path)
    ensures PathLess(p, q) <==> exists k: nat :: PathBefore(p, q, k)
  {
    if PathLess(p, q) {
      var k := PathLessIsBefore(p, q);
    }
    if k: nat :| PathBefore(p, q, k) {
      PathBeforeIsLess(p, q, k);
    }
  }

  // ---------------------------------------------------------------- sorted sequences

  ghost predicate Sorted(s: seq<Path>) {
    forall i, j | 0 <= i < j < |s| :: PathLess(s[i], s[j])
  }

  ghost predicate Distinct(s: seq<Path>) {
    forall i, j | 0 <= i < j < |s| :: s[i] != s[j]
  }

  ghost predicate SameElements(s: seq<Path>, t: seq<Path>) {
    forall p :: p in s <==> p in t
  }

  function InsertSorted(p: Path, s: seq<Path>): seq<Path> {
    if s == [] then [p]
    else if PathLess(p, s[0]) then [p] + s
    else [s[0]] + InsertSorted(p, s[1..])
  }

  /** Stands for the library sort: paths of one walk are distinct, so every correct sort gives this. */
  function Sort(s: seq<Path>): seq<Path> {
    if s == [] then [] else InsertSorted(s[0], Sort(s[1..]))
  }

  lemma {:induction false} InsertKeepsSorted(p: Path, s: seq<Path>)
    requires Sorted(s) && p !in s
    ensures Sorted(InsertSorted(p, s))
    ensures forall q :: q in InsertSorted(p, s) <==> q == p || q in s
  {
    if s != [] {
      PathTotal(p, s[0]);
      if PathLess(p, s[0]) {
        forall j | 0 <= j < |s| ensures PathLess(p, s[j]) {
          if j > 0 {
            PathTransitive(p, s[0], s[j]);
          }
        }
      } else {
        var rest := InsertSorted(p, s[1..]);
        InsertKeepsSorted(p, s[1..]);
        assert s == [s[0]] + s[1..];
        forall j | 0 <= j < |rest| ensures PathLess(s[0], rest[j]) {
          assert rest[j] in rest;
          if rest[j] != p {
            var k :| 0 <= k < |s[1..]| && s[1..][k] == rest[j];
            assert s[k + 1] == rest[j];
          }
        }
      }
    }
  }

  lemma {:induction false} SortSorts(s: seq<Path>)
    requires Distinct(s)
    ensures Sorted(Sort(s)) && SameElements(Sort(s), s)
  {
    if s != [] {
      assert forall k | 0 <= k < |s[1..]| :: s[1..][k] == s[k + 1];
      SortSorts(s[1..]);
      InsertKeepsSorted(s[0], Sort(s[1..]));
      assert s == [s[0]] + s[1..];
    }
  }

  lemma HeadIn(s: seq<Path>, t: seq<Path>)
    requires SameElements(s, t)
    ensures s != [] ==> t != [] && s[0] in t
  {
    if s != [] {
      assert s[0] in s;
    }
  }

  lemma FirstIsLeast(s: seq<Path>, t: seq<Path>)
    requires Sorted(s) && Sorted(t) && SameElements(s, t) && s != [] && t != []
    ensures s[0] == t[0] || PathLess(s[0], t[0])
  {
    assert t[0] in s;
    var k :| 0 <= k < |s| && s[k] == t[0];
  }

  lemma NotAgain(s: seq<Path>, p: Path)
    requires Sorted(s) && s != []
    ensures p in s[1..] <==> p in s && p != s[0]
  {
    if p in s[1..] {
      var k :| 0 <= k < |s[1..]| && s[1..][k] == p;
      assert s[k + 1] == p && PathLess(s[0], s[k + 1]);
      PathTotal(s[0], s[0]);
    }
    assert s == [s[0]] + s[1..];
  }

  /** A set of paths has one sorted listing. */
  lemma {:induction false} SortedUnique(s: seq<Path>, t: seq<Path>)
    requires Sorted(s) && Sorted(t) && SameElements(s, t)
    ensures s == t
  {
    HeadIn(s, t);
    HeadIn(t, s);
    if s != [] && t != [] {
      FirstIsLeast(s, t);
      FirstIsLeast(t, s);
      PathTotal(s[0], t[0]);
      assert s == [s[0]] + s[1..] && t == [t[0]] + t[1..];
      forall p ensures p in s[1..] <==> p in t[1..] {
        NotAgain(s, p);
        NotAgain(t, p);
      }
      SortedUnique(s[1..], t[1..]);
    }
  }

  /** The sorted listing of a finite set of paths. */
  ghost function Listing(paths: set<Path>): (s: seq<Path>)
    ensures Sorted(s)
    ensures forall p :: p in s <==> p in paths
  {
    if paths == {} then []
    else
      var p :| p in paths;
      var rest := Listing(paths - {p});
      InsertKeepsSorted(p, rest);
      InsertSorted(p, rest)
  }
}
