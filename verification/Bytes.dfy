/** Byte strings in the order of the key/value store, and scans over sorted keys. */
module Bytes {
  import opened Wrappers

  type byte = x: int | 0 <= x < 256

  type Key = seq<byte>

  /** Lexicographic order, a prefix first. */
  predicate Leq(a: Key, b: Key) {
    a == [] || (b != [] && (a[0] < b[0] || (a[0] == b[0] && Leq(a[1..], b[1..]))))
  }

  predicate Less(a: Key, b: Key) {
    Leq(a, b) && a != b
  }

  lemma {:induction false} LeqTotal(a: Key, b: Key)
    ensures Leq(a, b) || Leq(b, a)
    ensures Leq(a, a)
  {
    if a == [] {
    } else {
      LeqTotal(a[1..], if b == [] then b else b[1..]);
    }
  }

  lemma {:induction false} LeqAntisymmetric(a: Key, b: Key)
    requires Leq(a, b) && Leq(b, a)
    ensures a == b
  {
    if a == [] {
    } else {
      LeqAntisymmetric(a[1..], b[1..]);
      assert a == [a[0]] + a[1..] && b == [b[0]] + b[1..];
    }
  }

  lemma {:induction false} LeqTransitive(a: Key, b: Key, c: Key)
    requires Leq(a, b) && Leq(b, c)
    ensures Leq(a, c)
  {
    if a != [] && a[0] == b[0] == c[0] {
      LeqTransitive(a[1..], b[1..], c[1..]);
    }
  }

  // ---------- prefixes ----------

  predicate HasPrefix(k: Key, p: Key) {
    |p| <= |k| && k[..|p|] == p
  }

  lemma {:induction false} PrefixLeq(k: Key, p: Key)
    requires HasPrefix(k, p)
    ensures Leq(p, k)
  {
    if p == [] {
    } else {
      assert k[0] == k[..|p|][0];
      assert k[1..][..|p| - 1] == k[..|p|][1..];
      PrefixLeq(k[1..], p[1..]);
    }
  }

  /** Keys with a common prefix compare by what follows it. */
  lemma {:induction false} LeqAfterPrefix(q: Key, a: Key, b: Key)
    ensures Leq(q + a, q + b) == Leq(a, b)
  {
    if q == [] {
      assert q + a == a && q + b == b;
    } else {
      assert (q + a)[1..] == q[1..] + a && (q + b)[1..] == q[1..] + b;
      LeqAfterPrefix(q[1..], a, b);
    }
  }

  /** What lies between two keys with a common prefix has that prefix. */
  lemma {:induction false} BetweenHasPrefix(q: Key, a: Key, b: Key, k: Key)
    requires Leq(q + a, k) && Leq(k, q + b)
    ensures HasPrefix(k, q)
  {
    if q == [] {
    } else {
      assert (q + a)[1..] == q[1..] + a && (q + b)[1..] == q[1..] + b;
      BetweenHasPrefix(q[1..], a, b, k[1..]);
      assert k == [k[0]] + k[1..];
    }
  }

  lemma PrefixIsConvex(p: Key, a: Key, b: Key)
    requires Leq(p, a) && Leq(a, b) && HasPrefix(b, p)
    ensures HasPrefix(a, p)
  {
    var none: Key := [];
    var rest := b[|p|..];
    assert p + none == p && p + rest == b;
    BetweenHasPrefix(p, none, rest, a);
  }

  /** The end of the range the store scans for a prefix: the prefix with its last byte below
      255 raised and the rest dropped, or no end at all. */
  function RangeEnd(p: Key): Option<Key> {
    if p == [] then None
    else if p[|p| - 1] < 255 then Some(p[..|p| - 1] + [p[|p| - 1] + 1])
    else RangeEnd(p[..|p| - 1])
  }

  predicate InRange(k: Key, p: Key) {
    Leq(p, k) && (RangeEnd(p).Some? ==> Less(k, RangeEnd(p).value))
  }

  lemma {:induction false} PrefixBelowEnd(k: Key, p: Key)
    requires HasPrefix(k, p) && RangeEnd(p).Some?
    ensures Less(k, RangeEnd(p).value)
  {
    var q, c := p[..|p| - 1], p[|p| - 1];
    assert k[..|p|][..|q|] == k[..|q|] == q;
    if c < 255 {
      assert k[|q|] == k[..|p|][|q|] == c;
      assert k == q + k[|q|..];
      LeqAfterPrefix(q, k[|q|..], [c + 1]);
      assert (q + [c + 1])[|q|] == c + 1;
    } else {
      PrefixBelowEnd(k, q);
    }
  }

  /** Between one byte and the next only what starts with the first. */
  lemma FirstOfTwo(r: Key, c: byte)
    requires c < 255 && Leq([c], r) && Less(r, [c + 1])
    ensures r != [] && r[0] == c
  {
    var none: Key := [];
    assert [c + 1][1..] == none;
    assert Leq(r[1..], none) ==> r[1..] == none;
    assert r == [r[0]] + r[1..];
  }

  lemma {:induction false} RangeHasPrefix(k: Key, p: Key)
    requires InRange(k, p)
    ensures HasPrefix(k, p)
  {
    if p == [] {
    } else {
      hide Leq;
      var q, c := p[..|p| - 1], p[|p| - 1];
      assert p == q + [c];
      if c < 255 {
        BetweenHasPrefix(q, [c], [c + 1], k);
        var r := k[|q|..];
        assert k == q + r;
        LeqAfterPrefix(q, [c], r);
        LeqAfterPrefix(q, r, [c + 1]);
        FirstOfTwo(r, c);
      } else {
        PrefixLeq(p, q);
        LeqTransitive(q, p, k);
        RangeHasPrefix(k, q);
        var r := k[|q|..];
        assert k == q + r;
        LeqAfterPrefix(q, [c], r);
      }
      assert k[..|p|] == k[..|q|] + [k[|q|]];
    }
  }

  /** The range scan is exactly the prefix scan. */
  lemma RangeIsPrefix(k: Key, p: Key)
    ensures InRange(k, p) <==> HasPrefix(k, p)
  {
    if InRange(k, p) {
      RangeHasPrefix(k, p);
    }
    if HasPrefix(k, p) {
      PrefixLeq(k, p);
      if RangeEnd(p).Some? {
        PrefixBelowEnd(k, p);
      }
    }
  }

  // ---------- sorted keys ----------

  ghost predicate Sorted(ks: seq<Key>) {
    forall i, j :: 0 <= i < j < |ks| ==> Less(ks[i], ks[j])
  }

  ghost predicate IsLeast(k: Key, s: set<Key>) {
    k in s && forall j :: j in s ==> Leq(k, j)
  }

  lemma LeastOfTwo(s: set<Key>, x: Key, m: Key)
    requires x in s && IsLeast(m, s - {x})
    ensures IsLeast(if Leq(x, m) then x else m, s)
  {
    LeqTotal(x, m);
    LeqTotal(x, x);
    forall j | j in s
      ensures Leq(if Leq(x, m) then x else m, j)
    {
      if j != x {
        assert j in s - {x};
        if Leq(x, m) {
          LeqTransitive(x, m, j);
        }
      }
    }
  }

  lemma {:induction false} LeastExists(s: set<Key>) returns (k: Key)
    requires s != {}
    ensures IsLeast(k, s)
  {
    var x :| x in s;
    if s - {x} == {} {
      k := x;
      LeqTotal(x, x);
      assert forall j :: j in s ==> j in s - {x} || j == x;
    } else {
      var m := LeastExists(s - {x});
      LeastOfTwo(s, x, m);
      k := if Leq(x, m) then x else m;
    }
  }

  lemma LeastIsUnique(s: set<Key>)
    requires s != {}
    ensures exists k :: k in s && forall j :: j in s ==> Leq(k, j)
    ensures forall a, b :: IsLeast(a, s) && IsLeast(b, s) ==> a == b
  {
    var k := LeastExists(s);
    forall a, b | IsLeast(a, s) && IsLeast(b, s)
      ensures a == b
    {
      LeqAntisymmetric(a, b);
    }
  }

  function Least(s: set<Key>): (k: Key)
    requires s != {}
    ensures IsLeast(k, s)
  {
    LeastIsUnique(s);
    assert forall a, b | a in s && b in s && (forall j :: j in s ==> Leq(a, j)) && (forall j :: j in s ==> Leq(b, j)) ::
        IsLeast(a, s) && IsLeast(b, s);
    var k :| k in s && forall j :: j in s ==> Leq(k, j);
    k
  }

  /** The keys of the store in the order an iterator visits them. */
  function SortedKeys(s: set<Key>): (ks: seq<Key>)
    ensures forall k :: k in ks <==> k in s
    ensures Sorted(ks)
  {
    if s == {} then []
    else
      var k := Least(s);
      [k] + SortedKeys(s - {k})
  }

  /** Sorted sequences with the same elements are equal. */
  lemma {:induction false} SortedUnique(a: seq<Key>, b: seq<Key>)
    requires Sorted(a) && Sorted(b) && forall k :: k in a <==> k in b
    ensures a == b
  {
    if a == [] {
      if b != [] {
        HasMember(b);
      }
    } else {
      assert a[0] in b && b != [];
      FirstIsLeast(a, b[0]);
      FirstIsLeast(b, a[0]);
      LeqAntisymmetric(a[0], b[0]);
      var a', b' := a[1..], b[1..];
      forall k
        ensures k in a' <==> k in b'
      {
        InTail(a, k);
        InTail(b, k);
      }
      SortedUnique(a', b');
      assert a == [a[0]] + a' && b == [b[0]] + b';
    }
  }

  lemma HasMember(a: seq<Key>)
    requires a != []
    ensures exists k :: k in a
  {
    assert a[0] in a;
  }

  lemma FirstIsLeast(a: seq<Key>, k: Key)
    requires Sorted(a) && k in a
    ensures Leq(a[0], k)
  {
    LeqTotal(k, k);
  }

  lemma InTail(a: seq<Key>, k: Key)
    requires Sorted(a) && a != []
    ensures k in a[1..] <==> k in a && k != a[0]
  {
    if k in a && k != a[0] {
      var i :| 0 <= i < |a| && a[i] == k;
      assert a[1..][i - 1] == k;
    }
  }

  /** Keep the keys with a prefix. */
  function Matching(ks: seq<Key>, p: Key): (r: seq<Key>)
    ensures forall k :: k in r <==> k in ks && HasPrefix(k, p)
  {
    if ks == [] then []
    else (if HasPrefix(ks[0], p) then [ks[0]] else []) + Matching(ks[1..], p)
  }

  lemma {:induction false} MatchingSorted(ks: seq<Key>, p: Key)
    requires Sorted(ks)
    ensures Sorted(Matching(ks, p))
  {
    if ks == [] {
    } else {
      MatchingSorted(ks[1..], p);
      var rest := Matching(ks[1..], p);
      forall j | 0 <= j < |rest|
        ensures Less(ks[0], rest[j])
      {
        assert rest[j] in ks[1..];
      }
    }
  }

  /** A range scan over the sorted keys. */
  function RangeScan(ks: seq<Key>, p: Key): seq<Key> {
    if ks == [] then []
    else (if InRange(ks[0], p) then [ks[0]] else []) + RangeScan(ks[1..], p)
  }

  /** Start at the first key not below p. */
  function SeekTo(ks: seq<Key>, p: Key): seq<Key> {
    if ks == [] || Leq(p, ks[0]) then ks else SeekTo(ks[1..], p)
  }

  /** Stop at the first key without the prefix. */
  function WhilePrefix(ks: seq<Key>, p: Key): seq<Key> {
    if ks == [] || !HasPrefix(ks[0], p) then [] else [ks[0]] + WhilePrefix(ks[1..], p)
  }

  lemma {:induction false} RangeScanMatches(ks: seq<Key>, p: Key)
    ensures RangeScan(ks, p) == Matching(ks, p)
  {
    if ks == [] {
    } else {
      RangeIsPrefix(ks[0], p);
      RangeScanMatches(ks[1..], p);
    }
  }

  /** No key behind a larger non-matching key matches. */
  lemma NoMatchBehind(ks: seq<Key>, p: Key)
    requires Sorted(ks) && ks != [] && Leq(p, ks[0]) && !HasPrefix(ks[0], p)
    ensures Matching(ks, p) == []
  {
    if Matching(ks, p) != [] {
      var k := Matching(ks, p)[0];
      assert k in Matching(ks, p);
      FirstIsLeast(ks, k);
      PrefixIsConvex(p, ks[0], k);
    }
  }

  lemma {:induction false} WhilePrefixMatches(ks: seq<Key>, p: Key)
    requires Sorted(ks) && (ks != [] ==> Leq(p, ks[0]))
    ensures WhilePrefix(ks, p) == Matching(ks, p)
  {
    if ks == [] {
    } else {
      if HasPrefix(ks[0], p) {
        if |ks| > 1 {
          assert Less(ks[0], ks[1]);
          LeqTransitive(p, ks[0], ks[1]);
        }
        WhilePrefixMatches(ks[1..], p);
      } else {
        NoMatchBehind(ks, p);
      }
    }
  }

  lemma {:induction false} SeekSkipsNoMatch(ks: seq<Key>, p: Key)
    requires Sorted(ks)
    ensures Sorted(SeekTo(ks, p)) && (SeekTo(ks, p) != [] ==> Leq(p, SeekTo(ks, p)[0]))
    ensures Matching(SeekTo(ks, p), p) == Matching(ks, p)
  {
    if ks != [] && !Leq(p, ks[0]) {
      if HasPrefix(ks[0], p) {
        PrefixLeq(ks[0], p);
      }
      SeekSkipsNoMatch(ks[1..], p);
    }
  }

  /** Three ways to list the keys with a prefix agree: keep the matching ones, scan the range,
      or start at the prefix and stop at the first key that does not match. */
  lemma ScansAgree(s: set<Key>, p: Key)
    ensures var ks := SortedKeys(s);
            && RangeScan(ks, p) == Matching(ks, p)
            && WhilePrefix(SeekTo(ks, p), p) == Matching(ks, p)
            && Matching(ks, p) == SortedKeys(set k | k in s && HasPrefix(k, p))
  {
    var ks := SortedKeys(s);
    RangeScanMatches(ks, p);
    SeekSkipsNoMatch(ks, p);
    WhilePrefixMatches(SeekTo(ks, p), p);
    MatchingSorted(ks, p);
    SortedUnique(Matching(ks, p), SortedKeys(set k | k in s && HasPrefix(k, p)));
  }
}
