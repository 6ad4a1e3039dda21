/**
 Document iterators of the three backends over sorted keys: the scanning iterator of sdb
 (sdb/iterator.go), which sqlcipher repeats over its rows (sqlcipher/iterator.go), and the
 query and iterator of Firestore (firestore/firestore.go, firestore/iterator.go).
 */
module Iterators {
  import opened Wrappers
  import opened Bytes

  // ---------- sdb and sqlcipher ----------

  /** Where the slice ends if it is not empty. */
  function ScanEnd(ks: seq<Key>, limit: int): int {
    if limit == 0 || limit > |ks| then |ks| else limit
  }

  /** The positions p with index <= p and (limit == 0 or p < limit). */
  function ScanSlice(ks: seq<Key>, index: int, limit: int): seq<Key> {
    var lo, hi := if index < 0 then 0 else index, ScanEnd(ks, limit);
    if lo < hi then ks[lo..hi] else []
  }

  datatype Failure = IterationFailed

  /** `keys` are the keys that arrive; with `fails` the iteration then breaks off with an
      error. */
  class ScanIterator {
    const keys: seq<Key>
    const fails: bool
    const index: int
    const limit: int
    var next: nat
    var count: int

    ghost predicate Valid()
      reads this
    {
      count == next <= |keys|
    }

    /** What is still to come: the part of the slice from position next on. */
    ghost function Rest(): seq<Key>
      reads this
    {
      ScanSlice(keys, if index < next then next else index, limit)
    }

    constructor (keys: seq<Key>, fails: bool, index: int, limit: int)
      ensures Valid() && Rest() == ScanSlice(keys, index, limit) && next == 0
      ensures this.keys == keys && this.fails == fails && this.index == index && this.limit == limit
    {
      this.keys, this.fails, this.index, this.limit := keys, fails, index, limit;
      next, count := 0, 0;
    }

    /** The next key of the slice, and none for ever after the last one, except that an
        iteration that ran into its error says so. */
    method Next() returns (k: Result<Option<Key>, Failure>)
      requires Valid()
      modifies this
      ensures Valid()
      ensures old(Rest()) != [] ==> k == Ok(Some(old(Rest())[0])) && Rest() == old(Rest())[1..]
      ensures old(Rest()) != [] ==> index < next == ScanEnd(keys, limit) - |Rest()|
      ensures old(Rest()) == [] ==>
                && Rest() == []
                && k == if fails && (old(next) == |keys| || index >= |keys|) then Err(IterationFailed) else Ok(None)
    {
      while next < |keys|
        invariant Valid() && next >= old(next)
        invariant next == old(next) || next <= index
        decreases |keys| - next
      {
        next := next + 1;
        count := count + 1;
        if index > count - 1 {
          continue;
        }
        if limit != 0 && count > limit {
          return Ok(None);
        }
        return Ok(Some(keys[next - 1]));
      }
      return if fails then Err(IterationFailed) else Ok(None);
    }
  }

  /** Half-way through reading: `all` is what was read, the key in hand, and the rest. */
  ghost predicate Reading(all: seq<Key>, ks: seq<Key>, k: Option<Key>, rest: seq<Key>) {
    if k.Some? then all == ks + [k.value] + rest else all == ks && rest == []
  }

  lemma ReadingOn(all: seq<Key>, ks: seq<Key>, k: Option<Key>, rest: seq<Key>, k': Option<Key>, rest': seq<Key>)
    requires Reading(all, ks, k, rest) && k.Some?
    requires if rest == [] then k' == None && rest' == [] else k' == Some(rest[0]) && rest' == rest[1..]
    ensures Reading(all, ks + [k.value], k', rest')
  {
    if rest != [] {
      assert rest == [rest[0]] + rest';
      assert ks + [k.value] + rest == ks + [k.value] + [rest[0]] + rest';
    }
  }

  lemma ReadingStarts(all: seq<Key>, k: Option<Key>, rest: seq<Key>)
    requires if all == [] then k == None && rest == [] else k == Some(all[0]) && rest == all[1..]
    ensures Reading(all, [], k, rest)
  {
  }

  /** The key in hand; none at the end or after an error. */
  function InHand(k: Result<Option<Key>, Failure>): Option<Key> {
    if k.Ok? then k.value else None
  }

  /** Reading the slice goes through all keys that arrive. */
  predicate ReadsAll(ks: seq<Key>, index: int, limit: int) {
    ks == [] || index >= |ks| || limit == 0 || limit >= |ks|
  }

  /** Reading an iterator to its end gives exactly the slice, or the error of an iteration that
      broke off, exactly when all keys that arrived were gone through. */
  method ReadScan(keys: seq<Key>, fails: bool, index: int, limit: int) returns (r: Result<seq<Key>, Failure>)
    ensures r == if fails && ReadsAll(keys, index, limit) then Err(IterationFailed)
              else Ok(ScanSlice(keys, index, limit))
    ensures r.Err? <==> fails && (keys == [] || index >= |keys| || limit == 0 || limit >= |keys|)
    ensures r.Ok? ==>
              var lo, hi := if index < 0 then 0 else index, if limit == 0 || limit > |keys| then |keys| else limit;
              && |r.value| == (if lo < hi then hi - lo else 0)
              && forall i :: 0 <= i < |r.value| ==> r.value[i] == keys[lo + i]
  {
    var iter := new ScanIterator(keys, fails, index, limit);
    ghost var all := iter.Rest();
    var ks := [];
    var k := iter.Next();
    ReadingStarts(all, InHand(k), iter.Rest());
    while k.Ok? && k.value.Some?
      invariant iter.Valid() && fresh(iter)
      invariant Reading(all, ks, InHand(k), iter.Rest())
      invariant InHand(k).Some? ==> index < iter.next == ScanEnd(keys, limit) - |iter.Rest()|
      invariant InHand(k).None? ==>
                  k == if fails && ReadsAll(keys, index, limit) then Err(IterationFailed) else Ok(None)
      decreases |iter.Rest()|, InHand(k).Some?
    {
      var last := InHand(k);
      ghost var rest := iter.Rest();
      k := iter.Next();
      ReadingOn(all, ks, last, rest, InHand(k), iter.Rest());
      ks := ks + [last.value];
    }
    if k.Err? {
      return Err(k.error);
    }
    return Ok(ks);
  }

  // ---------- what sqlcipher selects ----------

  const UNDERSCORE: byte := 95
  const PERCENT: byte := 37

  predicate IsLetter(b: byte) {
    65 <= b <= 90 || 97 <= b <= 122
  }

  /** ASCII letters without their case. */
  function Fold(b: byte): byte {
    if 65 <= b <= 90 then b + 32 else b
  }

  /** `path like p%`: in the pattern an underscore is any one character, a percent sign any
      number of them, and letters match in either case. */
  ghost predicate Like(k: Key, p: Key)
    decreases |p|
  {
    if p == [] then true
    else if p[0] == PERCENT then exists n: nat :: n <= |k| && Like(k[n..], p[1..])
    else k != [] && (p[0] == UNDERSCORE || Fold(k[0]) == Fold(p[0])) && Like(k[1..], p[1..])
  }

  predicate Wild(b: byte) {
    b == UNDERSCORE || b == PERCENT || IsLetter(b)
  }

  /** Another character that matches b in a pattern. */
  function OtherMatch(b: byte): byte
    requires Wild(b)
  {
    if IsLetter(b) then (if b < 97 then b + 32 else b - 32) else 33
  }

  lemma {:induction false} PrefixIsLike(k: Key, p: Key)
    requires HasPrefix(k, p)
    ensures Like(k, p)
  {
    if p == [] {
    } else {
      assert k[0] == k[..|p|][0] && k[1..][..|p| - 1] == k[..|p|][1..];
      PrefixIsLike(k[1..], p[1..]);
      assert p[0] == PERCENT ==> 1 <= |k| && Like(k[1..], p[1..]);
    }
  }

  lemma {:induction false} LikeIsPrefix(k: Key, p: Key)
    requires Like(k, p) && forall i :: 0 <= i < |p| ==> !Wild(p[i])
    ensures HasPrefix(k, p)
  {
    if p == [] {
    } else {
      assert !Wild(p[0]) && k[0] == p[0];
      LikeIsPrefix(k[1..], p[1..]);
      assert k == [k[0]] + k[1..] && p == [p[0]] + p[1..];
    }
  }

  lemma {:induction false} OtherIsLike(p: Key, i: nat)
    requires i < |p| && Wild(p[i])
    ensures Like(p[i := OtherMatch(p[i])], p)
  {
    var k := p[i := OtherMatch(p[i])];
    if i == 0 {
      assert k[1..] == p[1..];
      PrefixIsLike(p[1..], p[1..]);
    } else {
      assert k[1..] == p[1..][i - 1 := OtherMatch(p[1..][i - 1])];
      OtherIsLike(p[1..], i - 1);
    }
    assert p[0] == PERCENT ==> 1 <= |k| && Like(k[1..], p[1..]);
  }

  /** sqlcipher selects at least the keys with the prefix, and on every store just those exactly
      when the prefix has no underscore, no percent sign and no letter in it. */
  lemma LikeIsPrefixIff(p: Key)
    ensures forall k :: HasPrefix(k, p) ==> Like(k, p)
    ensures (forall k :: Like(k, p) ==> HasPrefix(k, p)) <==> forall i :: 0 <= i < |p| ==> !Wild(p[i])
  {
    forall k
      ensures HasPrefix(k, p) ==> Like(k, p)
      ensures Like(k, p) && (forall i :: 0 <= i < |p| ==> !Wild(p[i])) ==> HasPrefix(k, p)
    {
      if HasPrefix(k, p) {
        PrefixIsLike(k, p);
      }
      if Like(k, p) && forall i :: 0 <= i < |p| ==> !Wild(p[i]) {
        LikeIsPrefix(k, p);
      }
    }
    if i :| 0 <= i < |p| && Wild(p[i]) {
      OtherIsLike(p, i);
      var k := p[i := OtherMatch(p[i])];
      assert k[..|p|][i] != p[i];
      assert Like(k, p) && !HasPrefix(k, p);
    }
  }

  // ---------- Firestore ----------

  /** Positions from index on, at most limit of them (0 or less: no limit). */
  function QuerySlice(ms: seq<Key>, index: int, limit: int): seq<Key> {
    var rows := if index <= 0 then ms else if index <= |ms| then ms[index..] else [];
    if limit > 0 && limit <= |rows| then rows[..limit] else rows
  }

  lemma QuerySliceMeans(ms: seq<Key>, index: int, limit: int)
    ensures var r, lo := QuerySlice(ms, index, limit), if index < 0 then 0 else if index < |ms| then index else |ms|;
            && |r| == (if 0 < limit < |ms| - lo then limit else |ms| - lo)
            && forall i :: 0 <= i < |r| ==> r[i] == ms[lo + i]
  {
  }

  /** The query of DocumentIterator: lower bound, offset, limit. */
  function QueryRows(ks: seq<Key>, prefix: Key, index: int, limit: int): seq<Key> {
    QuerySlice(SeekTo(ks, prefix), index, limit)
  }

  /** `rows` are the rows that arrive; with `fails` the query then breaks off with an error. */
  class QueryIterator {
    const rows: seq<Key>
    const fails: bool
    const prefix: Key
    var next: nat

    ghost predicate Valid()
      reads this
    {
      next <= |rows| && Run(rows, prefix)
    }

    ghost function Rest(): seq<Key>
      requires next <= |rows|
      reads this
    {
      WhilePrefix(rows[next..], prefix)
    }

    constructor (rows: seq<Key>, fails: bool, prefix: Key)
      requires Run(rows, prefix)
      ensures Valid() && Rest() == WhilePrefix(rows, prefix) && next == 0
      ensures this.rows == rows && this.fails == fails && this.prefix == prefix
    {
      this.rows, this.fails, this.prefix := rows, fails, prefix;
      next := 0;
    }

    /** The next row, and none from the first one without the prefix on; once all rows are
        through, a query that broke off says so. */
    method Next() returns (k: Result<Option<Key>, Failure>)
      requires Valid()
      modifies this
      ensures Valid()
      ensures old(Rest()) != [] ==> k == Ok(Some(old(Rest())[0])) && Rest() == old(Rest())[1..]
      ensures old(Rest()) != [] ==> next == old(next) + 1
      ensures old(Rest()) == [] ==>
                Rest() == [] && k == if fails && old(next) == |rows| then Err(IterationFailed) else Ok(None)
    {
      if next >= |rows| {
        return if fails then Err(IterationFailed) else Ok(None);
      }
      var id := rows[next];
      ghost var from := rows[next..];
      next := next + 1;
      assert from[0] == id && from[1..] == rows[next..];
      if prefix != [] && !HasPrefix(id, prefix) {
        assert next < |rows| ==> !HasPrefix(rows[next], prefix);
        return Ok(None);
      }
      return Ok(Some(id));
    }
  }

  /** Keys with the prefix come first. */
  ghost predicate Run(ks: seq<Key>, p: Key) {
    forall i, j :: 0 <= i < j < |ks| && HasPrefix(ks[j], p) ==> HasPrefix(ks[i], p)
  }

  lemma {:induction false} AllHavePrefix(ks: seq<Key>, p: Key)
    ensures |WhilePrefix(ks, p)| <= |ks|
    ensures |WhilePrefix(ks, p)| == |ks| <==> forall i :: 0 <= i < |ks| ==> HasPrefix(ks[i], p)
  {
    if ks == [] {
    } else {
      AllHavePrefix(ks[1..], p);
      assert forall i :: 1 <= i < |ks| ==> ks[i] == ks[1..][i - 1];
    }
  }

  /** Iterate over the rows that arrive until nothing comes. */
  method ReadRows(rows: seq<Key>, fails: bool, prefix: Key) returns (r: Result<seq<Key>, Failure>)
    requires Run(rows, prefix) && |WhilePrefix(rows, prefix)| <= |rows|
    ensures r == if fails && |WhilePrefix(rows, prefix)| == |rows| then Err(IterationFailed)
              else Ok(WhilePrefix(rows, prefix))
  {
    var iter := new QueryIterator(rows, fails, prefix);
    ghost var all := iter.Rest();
    var ks := [];
    var k := iter.Next();
    ReadingStarts(all, InHand(k), iter.Rest());
    while k.Ok? && k.value.Some?
      invariant iter.Valid() && fresh(iter)
      invariant Reading(all, ks, InHand(k), iter.Rest())
      invariant InHand(k).Some? ==> iter.next + |iter.Rest()| == |all|
      invariant InHand(k).None? ==> k == if fails && |all| == |rows| then Err(IterationFailed) else Ok(None)
      decreases |iter.Rest()|, InHand(k).Some?
    {
      var last := InHand(k);
      ghost var rest := iter.Rest();
      k := iter.Next();
      ReadingOn(all, ks, last, rest, InHand(k), iter.Rest());
      ks := ks + [last.value];
    }
    if k.Err? {
      return Err(k.error);
    }
    return Ok(ks);
  }

  /** Reading a query to its end: the matching keys from index on, at most limit of them, or the
      error of a query that broke off, exactly when every row that arrived has the prefix. */
  method ReadQuery(keys: seq<Key>, fails: bool, prefix: Key, index: int, limit: int)
      returns (r: Result<seq<Key>, Failure>)
    requires Sorted(keys)
    ensures var rows := QueryRows(keys, prefix, index, limit);
            r == if fails && (forall i :: 0 <= i < |rows| ==> HasPrefix(rows[i], prefix)) then Err(IterationFailed)
                 else Ok(QuerySlice(Matching(keys, prefix), index, limit))
    ensures !fails ==> r.Ok?
    ensures r.Ok? ==>
              var ms := Matching(keys, prefix);
              var lo := if index < 0 then 0 else if index < |ms| then index else |ms|;
              && |r.value| == (if 0 < limit < |ms| - lo then limit else |ms| - lo)
              && forall i :: 0 <= i < |r.value| ==> r.value[i] == ms[lo + i]
  {
    var rows := QueryRows(keys, prefix, index, limit);
    AllHavePrefix(rows, prefix);
    QueryIsSlice(keys, prefix, index, limit);
    QuerySliceMeans(Matching(keys, prefix), index, limit);
    r := ReadRows(rows, fails, prefix);
  }

  lemma {:induction false} WhilePrefixIsRun(ks: seq<Key>, p: Key, n: nat)
    requires n <= |ks|
    requires forall i :: 0 <= i < n ==> HasPrefix(ks[i], p)
    requires n < |ks| ==> !HasPrefix(ks[n], p)
    ensures WhilePrefix(ks, p) == ks[..n]
  {
    if n == 0 {
    } else {
      WhilePrefixIsRun(ks[1..], p, n - 1);
      assert ks[..n] == [ks[0]] + ks[1..][..n - 1];
    }
  }

  /** Behind a sorted lower bound the matching keys are an initial run. */
  lemma SeekIsRun(ks: seq<Key>, p: Key) returns (n: nat)
    requires Sorted(ks)
    ensures var from := SeekTo(ks, p);
            && n <= |from| && Matching(ks, p) == from[..n]
            && forall i :: 0 <= i < |from| ==> (HasPrefix(from[i], p) <==> i < n)
  {
    SeekSkipsNoMatch(ks, p);
    var from := SeekTo(ks, p);
    WhilePrefixMatches(from, p);
    n := RunLength(from, p);
    WhilePrefixIsRun(from, p, n);
    forall i | 0 <= i < |from|
      ensures HasPrefix(from[i], p) <==> i < n
    {
      if HasPrefix(from[i], p) {
        assert from[i] in Matching(from, p);
        var j :| 0 <= j < n && from[..n][j] == from[i];
        assert from[j] == from[i];
      }
    }
  }

  function RunLength(ks: seq<Key>, p: Key): (n: nat)
    ensures n <= |ks| && (forall i :: 0 <= i < n ==> HasPrefix(ks[i], p)) && (n < |ks| ==> !HasPrefix(ks[n], p))
  {
    if ks == [] || !HasPrefix(ks[0], p) then 0
    else
      var m := RunLength(ks[1..], p);
      assert forall i :: 0 < i <= m ==> ks[i] == ks[1..][i - 1];
      m + 1
  }

  /** Slicing the first n keys is cutting the slice of all keys short, at position m. */
  lemma SliceOfPrefix(ks: seq<Key>, n: nat, index: int, limit: int) returns (lo: nat, m: nat)
    requires n <= |ks|
    ensures var rows := QuerySlice(ks, index, limit);
            && lo + |rows| <= |ks| && rows == ks[lo..lo + |rows|]
            && m <= |rows| && QuerySlice(ks[..n], index, limit) == rows[..m]
            && m == if n <= lo then 0 else if n - lo < |rows| then n - lo else |rows|
  {
    lo := if index <= 0 then 0 else if index <= |ks| then index else |ks|;
    var rows := QuerySlice(ks, index, limit);
    m := if n <= lo then 0 else if n - lo < |rows| then n - lo else |rows|;
    assert rows == ks[lo..lo + |rows|];
    var slice := QuerySlice(ks[..n], index, limit);
    assert |slice| == m;
    assert m > 0 ==> slice == ks[..n][lo..lo + m];
  }

  /** Cutting the query's rows and then stopping at the prefix is cutting the matching keys. */
  lemma QueryIsSlice(ks: seq<Key>, p: Key, index: int, limit: int)
    requires Sorted(ks)
    ensures Run(QueryRows(ks, p, index, limit), p)
    ensures WhilePrefix(QueryRows(ks, p, index, limit), p) == QuerySlice(Matching(ks, p), index, limit)
  {
    var n := SeekIsRun(ks, p);
    var from, rows := SeekTo(ks, p), QueryRows(ks, p, index, limit);
    var lo, m := SliceOfPrefix(from, n, index, limit);
    forall i | 0 <= i < |rows|
      ensures HasPrefix(rows[i], p) <==> i < m
    {
      assert rows[i] == from[lo + i];
    }
    WhilePrefixIsRun(rows, p, m);
  }

  // ---------- the backends compared ----------

  /** On the same matching keys sdb and Firestore return the same documents exactly when there
      is no limit, when nothing is left behind the index, or when a positive limit comes with
      no index or does not cut anything off: sdb counts the limit from the first match,
      Firestore from the index. */
  lemma SlicesCoincideIff(ms: seq<Key>, index: int, limit: int)
    requires Sorted(ms)
    ensures ScanSlice(ms, index, limit) == QuerySlice(ms, index, limit) <==>
              limit == 0 || |ms| <= index || ms == [] || (limit > 0 && (index <= 0 || |ms| <= limit))
  {
  }
}
