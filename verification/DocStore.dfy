/**
 The document store over the key/value store (sdb/db.go, sdb/sdb.go).  Decrypting undoes
 encrypting and decoding undoes encoding, so a stored value is the document itself.
 */
module DocStore {
  import opened Wrappers
  import opened Bytes
  import opened Paths

  type Values = map<string, string>

  /** `values` is None where the program has a nil map. */
  datatype Record = Record(path: Key, values: Option<Values>, createdAt: int, updatedAt: int)

  /** Crash: the program panics; it starts over with the database closed. */
  datatype Error =
    | NotOpen | AlreadyOpen | OpenFailed | InvalidPath | PathExists | Mismatch | NotRoot | NoIndex | Crash

  // ---------- one path ----------

  /** Operations that change the document at one path. */
  datatype Op =
    | OpCreate(path: Key, values: Option<Values>, now: int)
    | OpSet(path: Key, values: Option<Values>, merge: bool, now: int)
    | OpDelete(path: Key)

  /** Merging changes nothing without values; writing into a nil map is a panic. */
  function Merged(doc: Option<Values>, values: Option<Values>): Result<Option<Values>, Error> {
    if values.None? || values.value == map[] then Ok(doc)
    else if doc.None? then Err(Crash)
    else Ok(Some(doc.value + values.value))
  }

  /** What an operation does to the document at its (normal) path p: the new document, and
      the error if there is one. */
  function CellOp(cell: Option<Record>, p: Key, op: Op): (Option<Record>, Option<Error>) {
    if p == ROOT && !op.OpDelete? then (cell, Some(InvalidPath))
    else match op
      case OpCreate(_, values, now) =>
        if cell.Some? then (cell, Some(PathExists)) else (Some(Record(p, values, now, now)), None)
      case OpSet(_, values, merge, now) =>
        if cell.None? then (Some(Record(p, values, now, now)), None)
        else if !merge then (Some(cell.value.(values := values, updatedAt := now)), None)
        else
          (match Merged(cell.value.values, values)
           case Err(e) => (cell, Some(e))
           case Ok(vs) => (Some(cell.value.(values := vs, updatedAt := now)), None))
      case OpDelete(_) => (None, None)
  }

  function Lookup(kv: map<Key, Record>, p: Key): Option<Record> {
    if p in kv then Some(kv[p]) else None
  }

  function Store(kv: map<Key, Record>, p: Key, cell: Option<Record>): map<Key, Record> {
    if cell.Some? then kv[p := cell.value] else kv - {p}
  }

  /** An operation on the whole store. */
  function Apply(kv: map<Key, Record>, op: Op): map<Key, Record> {
    var p := Path(op.path);
    Store(kv, p, CellOp(Lookup(kv, p), p, op).0)
  }

  /** The operation makes the program crash; it has not changed the store then. */
  predicate Crashes(kv: map<Key, Record>, op: Op) {
    CellOp(Lookup(kv, Path(op.path)), Path(op.path), op).1 == Some(Crash)
  }

  /** How many operations of a run return: all of them, or those before the first crash. */
  function Completed(kv: map<Key, Record>, ops: seq<Op>): (n: nat)
    ensures n <= |ops|
  {
    if ops == [] then 0
    else
      var before := ops[..|ops| - 1];
      var n := Completed(kv, before);
      if n < |before| || Crashes(ApplyAll(kv, before), ops[|ops| - 1]) then n else |ops|
  }

  /** A run on the store ends with its first crash. */
  function ApplyAll(kv: map<Key, Record>, ops: seq<Op>): map<Key, Record> {
    if ops == [] then kv
    else
      var before := ops[..|ops| - 1];
      if Completed(kv, before) < |before| then ApplyAll(kv, before)
      else Apply(ApplyAll(kv, before), ops[|ops| - 1])
  }

  /** Every document is stored under its own, normal path, and the root holds none. */
  ghost predicate WellStored(kv: map<Key, Record>) {
    forall k :: k in kv ==> kv[k].path == k && Normal(k) && k != ROOT
  }

  lemma ApplyKeepsWellStored(kv: map<Key, Record>, op: Op)
    requires WellStored(kv)
    ensures WellStored(Apply(kv, op))
  {
    PathIdempotent(op.path);
  }

  lemma {:induction false} RunKeepsWellStored(kv: map<Key, Record>, ops: seq<Op>)
    requires WellStored(kv)
    ensures WellStored(ApplyAll(kv, ops))
  {
    if ops == [] {
    } else {
      RunKeepsWellStored(kv, ops[..|ops| - 1]);
      ApplyKeepsWellStored(ApplyAll(kv, ops[..|ops| - 1]), ops[|ops| - 1]);
    }
  }

  // ---------- the store is a map from normal path to document ----------

  /** The operations of a run that name path p, in any spelling. */
  function OpsOn(ops: seq<Op>, p: Key): seq<Op> {
    if ops == [] then []
    else OpsOn(ops[..|ops| - 1], p) + if Path(ops[|ops| - 1].path) == p then [ops[|ops| - 1]] else []
  }

  function CellRun(cell: Option<Record>, p: Key, ops: seq<Op>): Option<Record> {
    if ops == [] then cell else CellOp(CellRun(cell, p, ops[..|ops| - 1]), p, ops[|ops| - 1]).0
  }

  lemma ApplyAt(kv: map<Key, Record>, op: Op, p: Key)
    ensures Lookup(Apply(kv, op), p) == if Path(op.path) == p then CellOp(Lookup(kv, p), p, op).0 else Lookup(kv, p)
  {
  }

  lemma CellRunAppend(cell: Option<Record>, p: Key, ops: seq<Op>, op: Op)
    ensures CellRun(cell, p, ops + [op]) == CellOp(CellRun(cell, p, ops), p, op).0
  {
    assert (ops + [op])[..|ops + [op]| - 1] == ops;
  }

  /** After any run the document at p is what the operations naming p make of it, one by one;
      operations on other paths, however similar, do not touch it.  Of a run that crashes only
      the operations before the crash count. */
  lemma {:induction false} PathsAreIndependent(kv: map<Key, Record>, ops: seq<Op>, p: Key)
    ensures Lookup(ApplyAll(kv, ops), p) == CellRun(Lookup(kv, p), p, OpsOn(ops[..Completed(kv, ops)], p))
  {
    if ops == [] {
    } else {
      var before, op := ops[..|ops| - 1], ops[|ops| - 1];
      PathsAreIndependent(kv, before, p);
      if Completed(kv, before) < |before| {
        assert ops[..Completed(kv, ops)] == before[..Completed(kv, before)];
      } else {
        assert before[..Completed(kv, before)] == before;
        ApplyAt(ApplyAll(kv, before), op, p);
        if Crashes(ApplyAll(kv, before), op) {
          assert ops[..Completed(kv, ops)] == before;
          CrashChangesNothing(ApplyAll(kv, before), op);
        } else {
          assert ops[..Completed(kv, ops)] == ops;
          assert ops == before + [op];
          OpsOnLast(Lookup(kv, p), before, op, p);
        }
      }
    }
  }

  lemma CrashChangesNothing(kv: map<Key, Record>, op: Op)
    requires Crashes(kv, op)
    ensures Apply(kv, op) == kv
  {
    StoreLookup(kv, Path(op.path));
  }

  lemma OpsOnLast(cell: Option<Record>, before: seq<Op>, op: Op, p: Key)
    ensures CellRun(cell, p, OpsOn(before + [op], p)) ==
              var c := CellRun(cell, p, OpsOn(before, p));
              if Path(op.path) == p then CellOp(c, p, op).0 else c
  {
    assert (before + [op])[..|before + [op]| - 1] == before;
    if Path(op.path) == p {
      CellRunAppend(cell, p, OpsOn(before, p), op);
    } else {
      assert OpsOn(before + [op], p) == OpsOn(before, p);
    }
  }

  /** A document keeps its creation time and its path until it is deleted. */
  lemma {:induction false} CreationIsFixed(kv: map<Key, Record>, ops: seq<Op>, p: Key)
    requires p in kv && forall i :: 0 <= i < |ops| ==> !(ops[i].OpDelete? && Path(ops[i].path) == p)
    ensures p in ApplyAll(kv, ops)
    ensures ApplyAll(kv, ops)[p].createdAt == kv[p].createdAt && ApplyAll(kv, ops)[p].path == kv[p].path
  {
    if ops == [] {
    } else {
      CreationIsFixed(kv, ops[..|ops| - 1], p);
    }
  }

  /** The union of merged values, later ones overriding. */
  function Union(ms: seq<Values>): Values {
    if ms == [] then map[] else Union(ms[..|ms| - 1]) + ms[|ms| - 1]
  }

  /** Merging sets of one path, each at its own time. */
  function Merges(path: Key, ms: seq<Values>, nows: seq<int>): seq<Op>
    requires |nows| == |ms|
  {
    seq(|ms|, i requires 0 <= i < |ms| => OpSet(path, Some(ms[i]), true, nows[i]))
  }

  /** The store with values written into the document at p. */
  function Overlaid(kv: map<Key, Record>, p: Key, m: Values, now: int): map<Key, Record>
    requires p in kv && kv[p].values.Some?
  {
    kv[p := kv[p].(values := Some(kv[p].values.value + m), updatedAt := now)]
  }

  lemma ApplyMerge(kv: map<Key, Record>, path: Key, m: Values, now: int)
    requires Path(path) in kv && Path(path) != ROOT && kv[Path(path)].values.Some?
    ensures Apply(kv, OpSet(path, Some(m), true, now)) == Overlaid(kv, Path(path), m, now)
  {
    MergeOne(kv[Path(path)].values.value, m);
  }

  lemma OverlaidTwice(kv: map<Key, Record>, p: Key, m: Values, t: int, m': Values, t': int)
    requires p in kv && kv[p].values.Some?
    ensures Overlaid(Overlaid(kv, p, m, t), p, m', t') == Overlaid(kv, p, m + m', t')
  {
    var vs := kv[p].values.value;
    assert vs + m + m' == vs + (m + m');
  }

  /** The last of a run of merges, when all before it return. */
  lemma MergesLast(kv: map<Key, Record>, path: Key, ms: seq<Values>, nows: seq<int>)
    requires ms != [] && |nows| == |ms|
    ensures var n := |ms| - 1;
            var before, op := Merges(path, ms[..n], nows[..n]), OpSet(path, Some(ms[n]), true, nows[n]);
            if Completed(kv, before) < n then
              && ApplyAll(kv, Merges(path, ms, nows)) == ApplyAll(kv, before)
              && Completed(kv, Merges(path, ms, nows)) == Completed(kv, before)
            else
              && ApplyAll(kv, Merges(path, ms, nows)) == Apply(ApplyAll(kv, before), op)
              && Completed(kv, Merges(path, ms, nows)) == if Crashes(ApplyAll(kv, before), op) then n else n + 1
  {
    assert Merges(path, ms, nows)[..|ms| - 1] == Merges(path, ms[..|ms| - 1], nows[..|ms| - 1]);
  }

  lemma NoMerges(kv: map<Key, Record>, path: Key)
    ensures ApplyAll(kv, Merges(path, [], [])) == kv && Completed(kv, Merges(path, [], [])) == 0
  {
  }

  /** A run of merges is one merge of the overriding union at the last time, for a document
      that is there and has values. */
  lemma {:induction false} MergesAreOneMerge(kv: map<Key, Record>, path: Key, ms: seq<Values>, nows: seq<int>)
    requires ms != [] && |nows| == |ms| && Path(path) in kv && Path(path) != ROOT && kv[Path(path)].values.Some?
    ensures Completed(kv, Merges(path, ms, nows)) == |ms|
    ensures ApplyAll(kv, Merges(path, ms, nows)) == Overlaid(kv, Path(path), Union(ms), nows[|nows| - 1])
    ensures ApplyAll(kv, Merges(path, ms, nows)) == Apply(kv, OpSet(path, Some(Union(ms)), true, nows[|nows| - 1]))
    decreases |ms|
  {
    var p, n := Path(path), |ms| - 1;
    MergesLast(kv, path, ms, nows);
    ApplyMerge(kv, path, Union(ms), nows[n]);
    if n == 0 {
      assert Union(ms) == map[] + ms[0] == ms[0];
      ApplyMerge(kv, path, ms[0], nows[0]);
    } else {
      MergesAreOneMerge(kv, path, ms[..n], nows[..n]);
      ApplyMerge(Overlaid(kv, p, Union(ms[..n]), nows[n - 1]), path, ms[n], nows[n]);
      OverlaidTwice(kv, p, Union(ms[..n]), nows[n - 1], ms[n], nows[n]);
    }
  }

  /** Where no document is, the first merge creates it and the union ends up in it. */
  lemma {:induction false} MergesCreate(kv: map<Key, Record>, path: Key, ms: seq<Values>, nows: seq<int>)
    requires ms != [] && |nows| == |ms| && Path(path) !in kv && Path(path) != ROOT
    ensures Completed(kv, Merges(path, ms, nows)) == |ms|
    ensures ApplyAll(kv, Merges(path, ms, nows)) ==
              kv[Path(path) := Record(Path(path), Some(Union(ms)), nows[0], nows[|nows| - 1])]
    decreases |ms|
  {
    hide ApplyAll;
    hide Completed;
    hide Merges;
    hide Path;
    var p, n := Path(path), |ms| - 1;
    MergesLast(kv, path, ms, nows);
    if n == 0 {
      NoMerges(kv, path);
      assert ms[..0] == [] && nows[..0] == [] && Union(ms) == map[] + ms[0] == ms[0];
      CreateOnce(kv, path, ms[0], nows[0]);
    } else {
      MergesCreate(kv, path, ms[..n], nows[..n]);
      CreatedMore(kv, path, Union(ms[..n]), nows[0], nows[n - 1], ms[n], nows[n]);
    }
  }

  lemma CreatedMore(kv: map<Key, Record>, path: Key, m: Values, first: int, t: int, m': Values, t': int)
    requires Path(path) != ROOT
    ensures var p := Path(path);
            var created, op := kv[p := Record(p, Some(m), first, t)], OpSet(path, Some(m'), true, t');
            !Crashes(created, op) && Apply(created, op) == kv[p := Record(p, Some(m + m'), first, t')]
  {
    var p := Path(path);
    ApplyMerge(kv[p := Record(p, Some(m), first, t)], path, m', t');
  }

  /** How many merges without values a run starts with. */
  function EmptyFirst(ms: seq<Values>): (k: nat)
    ensures k <= |ms| && (forall i :: 0 <= i < k ==> ms[i] == map[]) && (k < |ms| ==> ms[k] != map[])
  {
    if ms == [] then 0
    else
      var k := EmptyFirst(ms[..|ms| - 1]);
      if k < |ms| - 1 || ms[|ms| - 1] != map[] then k else |ms|
  }

  lemma EmptyFirstStep(ms: seq<Values>)
    requires ms != []
    ensures var n := |ms| - 1;
            EmptyFirst(ms) == if EmptyFirst(ms[..n]) == n && ms[n] == map[] then n + 1 else EmptyFirst(ms[..n])
  {
  }

  /** Into a document without values: merges without values only touch its time, and the first
      one with values crashes. */
  lemma {:induction false} MergesIntoNothing(kv: map<Key, Record>, path: Key, ms: seq<Values>, nows: seq<int>)
    requires |nows| == |ms| && Path(path) in kv && Path(path) != ROOT && kv[Path(path)].values.None?
    ensures Completed(kv, Merges(path, ms, nows)) == EmptyFirst(ms)
    ensures ApplyAll(kv, Merges(path, ms, nows)) == Touched(kv, Path(path), nows[..EmptyFirst(ms)])
    decreases |ms|
  {
    if ms == [] {
      assert Merges(path, ms, nows) == [];
    } else {
      MergesIntoNothing(kv, path, ms[..|ms| - 1], nows[..|nows| - 1]);
      LastIntoNothing(kv, path, ms, nows);
    }
  }

  lemma LastIntoNothing(kv: map<Key, Record>, path: Key, ms: seq<Values>, nows: seq<int>)
    requires ms != [] && |nows| == |ms| && Path(path) in kv && Path(path) != ROOT && kv[Path(path)].values.None?
    requires var n := |ms| - 1;
             var k := EmptyFirst(ms[..n]);
             && Completed(kv, Merges(path, ms[..n], nows[..n])) == k
             && ApplyAll(kv, Merges(path, ms[..n], nows[..n])) == Touched(kv, Path(path), nows[..n][..k])
    ensures Completed(kv, Merges(path, ms, nows)) == EmptyFirst(ms)
    ensures ApplyAll(kv, Merges(path, ms, nows)) == Touched(kv, Path(path), nows[..EmptyFirst(ms)])
  {
    hide ApplyAll;
    hide Completed;
    hide Merges;
    hide Path;
    hide Apply;
    hide Touched;
    hide EmptyFirst;
    var n := |ms| - 1;
    var k := EmptyFirst(ms[..n]);
    MergesLast(kv, path, ms, nows);
    EmptyFirstStep(ms);
    FirstOfFirst(nows, n, k);
    if k == n {
      TouchOnce(kv, path, nows[..n], ms[n], nows[n]);
    }
  }

  lemma FirstOfFirst(nows: seq<int>, n: nat, k: nat)
    requires k <= n < |nows|
    ensures nows[..n][..k] == nows[..k] && nows[..n] + [nows[n]] == nows[..n + 1]
  {
  }

  /** The store with the document's time set to the last of some times. */
  function Touched(kv: map<Key, Record>, p: Key, times: seq<int>): map<Key, Record>
    requires p in kv
  {
    if times == [] then kv else kv[p := kv[p].(updatedAt := times[|times| - 1])]
  }

  lemma TouchOnce(kv: map<Key, Record>, path: Key, times: seq<int>, m: Values, now: int)
    requires Path(path) in kv && Path(path) != ROOT && kv[Path(path)].values.None?
    ensures var touched, op := Touched(kv, Path(path), times), OpSet(path, Some(m), true, now);
            && (Crashes(touched, op) <==> m != map[])
            && Apply(touched, op) == if m == map[] then Touched(kv, Path(path), times + [now]) else touched
  {
    var touched := Touched(kv, Path(path), times);
    if m != map[] {
      CrashChangesNothing(touched, OpSet(path, Some(m), true, now));
    }
  }

  lemma {:induction false} UnionEmptyIff(ms: seq<Values>)
    ensures Union(ms) == map[] <==> EmptyFirst(ms) == |ms|
  {
    if ms == [] {
    } else {
      var n := |ms| - 1;
      UnionEmptyIff(ms[..n]);
      if ms[n] != map[] {
        var k :| k in ms[n];
        assert k in Union(ms);
      } else {
        assert Union(ms) == Union(ms[..n]);
      }
    }
  }

  /** Exactly: a run of merges into one path leaves the store as one merge of the overriding
      union at the last time does, if and only if
      - the path is the root, where both are refused; or
      - nothing is stored there and the first and the last time are the same (the time of
        creation is the first one's); or
      - the document has values; or
      - it has none, and either all merges are without values, or the run does not start with
        one that is, or the last of those it starts with leaves the time as it was (the others
        crash, and so does the single merge). */
  lemma MergesAreOneMergeIff(kv: map<Key, Record>, path: Key, ms: seq<Values>, nows: seq<int>)
    requires ms != [] && |nows| == |ms|
    ensures ApplyAll(kv, Merges(path, ms, nows)) == Apply(kv, OpSet(path, Some(Union(ms)), true, nows[|nows| - 1])) <==>
              var p, k := Path(path), EmptyFirst(ms);
              || p == ROOT
              || (p !in kv && nows[0] == nows[|nows| - 1])
              || (p in kv && (kv[p].values.Some? || k == |ms| || k == 0 || nows[k - 1] == kv[p].updatedAt))
  {
    var p, last := Path(path), nows[|nows| - 1];
    if p == ROOT {
      RootMerges(kv, path, ms, nows);
    } else if p !in kv {
      MergesCreate(kv, path, ms, nows);
      CreateOnce(kv, path, Union(ms), last);
      SameCell(kv, p, Record(p, Some(Union(ms)), nows[0], last), Record(p, Some(Union(ms)), last, last));
    } else if kv[p].values.Some? {
      MergesAreOneMerge(kv, path, ms, nows);
    } else {
      MergesIntoNothing(kv, path, ms, nows);
      UnionEmptyIff(ms);
      TouchOnce(kv, path, [], Union(ms), last);
      TouchedIff(kv, p, nows[..EmptyFirst(ms)]);
    }
  }

  lemma CreateOnce(kv: map<Key, Record>, path: Key, m: Values, now: int)
    requires Path(path) !in kv && Path(path) != ROOT
    ensures !Crashes(kv, OpSet(path, Some(m), true, now))
    ensures Apply(kv, OpSet(path, Some(m), true, now)) == kv[Path(path) := Record(Path(path), Some(m), now, now)]
  {
  }

  lemma SameCell(kv: map<Key, Record>, p: Key, a: Record, b: Record)
    ensures kv[p := a] == kv[p := b] <==> a == b
  {
    assert kv[p := a][p] == a && kv[p := b][p] == b;
  }

  lemma TouchedIff(kv: map<Key, Record>, p: Key, times: seq<int>)
    requires p in kv
    ensures Touched(kv, p, times) == kv <==> times == [] || times[|times| - 1] == kv[p].updatedAt
  {
    assert Touched(kv, p, times) == kv ==> Touched(kv, p, times)[p] == kv[p];
  }

  lemma {:induction false} RootMerges(kv: map<Key, Record>, path: Key, ms: seq<Values>, nows: seq<int>)
    requires |nows| == |ms| && Path(path) == ROOT
    ensures ApplyAll(kv, Merges(path, ms, nows)) == kv && Completed(kv, Merges(path, ms, nows)) == |ms|
    ensures forall m, now :: Apply(kv, OpSet(path, Some(m), true, now)) == kv
    decreases |ms|
  {
    StoreLookup(kv, ROOT);
    if ms == [] {
    } else {
      MergesLast(kv, path, ms, nows);
      RootMerges(kv, path, ms[..|ms| - 1], nows[..|ms| - 1]);
    }
  }

  /** The failing case: a document stored without values, a merge without values at time 5 and
      one with a value at time 6.  The run leaves time 5 behind, the single merge nothing. */
  lemma MergesDiffer(kv: map<Key, Record>, path: Key)
    requires Path(path) in kv && Path(path) != ROOT && kv[Path(path)] == Record(Path(path), None, 0, 0)
    ensures var ms: seq<Values> := [map[], map["a" := "1"]];
            && ApplyAll(kv, Merges(path, ms, [5, 6])) == kv[Path(path) := Record(Path(path), None, 0, 5)]
            && Apply(kv, OpSet(path, Some(Union(ms)), true, 6)) == kv
  {
    var ms: seq<Values> := [map[], map["a" := "1"]];
    assert ms[1] != map[] by {
      assert "a" in ms[1];
    }
    assert EmptyFirst(ms) == 1;
    MergesIntoNothing(kv, path, ms, [5, 6]);
    assert [5, 6][..1] == [5];
    UnionEmptyIff(ms);
    TouchOnce(kv, path, [], Union(ms), 6);
  }

  lemma MergeOne(vs: Values, m: Values)
    ensures Merged(Some(vs), Some(m)) == Ok(Some(vs + m))
  {
    assert m == map[] ==> vs + m == vs;
  }

  // ---------- the database ----------

  class DB {
    var open: bool
    var kv: map<Key, Record>

    ghost predicate Valid()
      reads this
    {
      WellStored(kv)
    }

    constructor ()
      ensures Valid() && !open && kv == map[]
    {
      open, kv := false, map[];
    }

    /** OpenAtPath, always with the same path and key; opens says whether the file opens. */
    method Open(opens: bool) returns (e: Option<Error>)
      modifies this`open
      ensures open == (old(open) || opens)
      ensures e == if old(open) then Some(AlreadyOpen) else if opens then None else Some(OpenFailed)
    {
      if open {
        return Some(AlreadyOpen);
      }
      if !opens {
        return Some(OpenFailed);
      }
      open := true;
      return None;
    }

    method Close()
      modifies this`open
      ensures !open
    {
      open := false;
    }

    /** get: the document under a key as it is given. */
    method GetRaw(key: Key) returns (r: Result<Option<Record>, Error>)
      requires Valid()
      ensures !open ==> r == Err(NotOpen)
      ensures open ==> r == if key in kv then Ok(Some(kv[key])) else Ok(None)
    {
      if !open {
        return Err(NotOpen);
      }
      if key !in kv {
        return Ok(None);
      }
      var doc := kv[key];
      if doc.path != key {
        return Err(Mismatch);
      }
      return Ok(Some(doc));
    }

    method Get(path: Key) returns (r: Result<Option<Record>, Error>)
      requires Valid()
      ensures !open ==> r == Err(NotOpen)
      ensures open ==> r == if Path(path) in kv then Ok(Some(kv[Path(path)])) else Ok(None)
    {
      r := GetRaw(Path(path));
    }

    method Create(path: Key, values: Option<Values>, now: int) returns (e: Option<Error>)
      requires Valid()
      modifies this
      ensures Valid() && open == old(open)
      ensures !open ==> e == Some(NotOpen) && kv == old(kv)
      ensures open ==>
                var op := OpCreate(path, values, now);
                kv == Apply(old(kv), op) && e == CellOp(Lookup(old(kv), Path(path)), Path(path), op).1
      ensures open ==>
                e == if Path(path) == ROOT then Some(InvalidPath)
                     else if Path(path) in old(kv) then Some(PathExists) else None
      ensures kv == if e.None? then old(kv)[Path(path) := Record(Path(path), values, now, now)] else old(kv)
    {
      ApplyKeepsWellStored(kv, OpCreate(path, values, now));
      if !open {
        return Some(NotOpen);
      }
      var p := Path(path);
      if p == ROOT {
        StoreLookup(kv, p);
        return Some(InvalidPath);
      }
      if p in kv {
        StoreLookup(kv, p);
        return Some(PathExists);
      }
      kv := kv[p := Record(p, values, now, now)];
      return None;
    }

    /** Merging into a document without values crashes, with the store as it was. */
    method Set(path: Key, values: Option<Values>, merge: bool, now: int) returns (e: Option<Error>)
      requires Valid()
      modifies this
      ensures Valid() && open == (old(open) && e != Some(Crash))
      ensures !old(open) ==> e == Some(NotOpen) && kv == old(kv)
      ensures old(open) ==>
                var op := OpSet(path, values, merge, now);
                kv == Apply(old(kv), op) && e == CellOp(Lookup(old(kv), Path(path)), Path(path), op).1
      ensures var p := Path(path);
              old(open) ==>
                e == if p == ROOT then Some(InvalidPath)
                     else if merge && values.Some? && values.value != map[] && p in old(kv) && old(kv)[p].values.None?
                     then Some(Crash)
                     else None
      ensures e.Some? ==> kv == old(kv)
      ensures var p := Path(path);
              e.None? ==>
                && kv.Keys == old(kv).Keys + {p} && (forall k :: k in old(kv) && k != p ==> kv[k] == old(kv)[k])
                && kv[p].path == p && kv[p].updatedAt == now
                && kv[p].createdAt == (if p in old(kv) then old(kv)[p].createdAt else now)
                && (!merge || p !in old(kv) ==> kv[p].values == values)
                && (merge && p in old(kv) ==>
                      kv[p].values == if values.None? || values.value == map[] then old(kv)[p].values
                                      else Some(old(kv)[p].values.value + values.value))
    {
      ApplyKeepsWellStored(kv, OpSet(path, values, merge, now));
      if !open {
        return Some(NotOpen);
      }
      var p := Path(path);
      if p == ROOT {
        StoreLookup(kv, p);
        return Some(InvalidPath);
      }
      var found := GetRaw(p);
      if found.Err? {
        assert false;
      }
      var doc;
      if found.value.None? {
        doc := Record(p, values, now, now);
      } else {
        doc := found.value.value;
        if merge {
          var vs := MergeInto(doc.values, values);
          if vs.Err? {
            StoreLookup(kv, p);
            open := false;
            return Some(Crash);
          }
          doc := doc.(values := vs.value);
        } else {
          doc := doc.(values := values);
        }
        doc := doc.(updatedAt := now);
      }
      kv := kv[p := doc];
      return None;
    }

    method Delete(path: Key) returns (r: Result<bool, Error>)
      requires Valid()
      modifies this
      ensures Valid() && open == old(open)
      ensures !open ==> r == Err(NotOpen) && kv == old(kv)
      ensures open ==> r == Ok(Path(path) in old(kv)) && kv == Apply(old(kv), OpDelete(path))
      ensures open ==> kv == old(kv) - {Path(path)}
    {
      ApplyKeepsWellStored(kv, OpDelete(path));
      if !open {
        return Err(NotOpen);
      }
      var p := Path(path);
      if p !in kv {
        assert kv - {p} == kv;
        return Ok(false);
      }
      kv := kv - {p};
      return Ok(true);
    }

    /** Keys are taken as they are given: unlike Get, a path in another spelling is not found. */
    method GetAll(paths: seq<Key>) returns (r: Result<seq<Record>, Error>)
      requires Valid()
      ensures r.Ok? <==> open || paths == []
      ensures r.Err? ==> r.error == NotOpen
      ensures r.Ok? ==> r.value == Found(kv, paths)
      ensures r.Ok? ==>
                forall d :: d in r.value <==> exists i :: 0 <= i < |paths| && paths[i] in kv && kv[paths[i]] == d
      ensures r.Ok? && (forall i :: 0 <= i < |paths| ==> paths[i] in kv) ==>
                |r.value| == |paths| && forall i :: 0 <= i < |paths| ==> r.value[i] == kv[paths[i]]
    {
      var out := [];
      for i := 0 to |paths|
        invariant i > 0 ==> open
        invariant Found(kv, paths) == out + Found(kv, paths[i..])
      {
        assert paths[i..][0] == paths[i] && paths[i..][1..] == paths[i + 1..];
        var doc := GetRaw(paths[i]);
        if doc.Err? {
          return Err(doc.error);
        }
        if doc.value.None? {
          continue;
        }
        out := out + [doc.value.value];
      }
      assert paths[|paths|..] == [] && Found(kv, paths) == out;
      FoundMeans(kv, paths);
      return Ok(out);
    }

    /** Without an open database the program crashes here on its first path. */
    method DeleteAll(paths: seq<Key>) returns (e: Option<Error>)
      requires Valid()
      modifies this
      ensures Valid() && open == old(open)
      ensures e == if open || paths == [] then None else Some(Crash)
      ensures kv == if open then old(kv) - Elements(paths) else old(kv)
      ensures kv.Keys == if open then set k | k in old(kv) && k !in paths else old(kv).Keys
      ensures forall k :: k in kv ==> kv[k] == old(kv)[k]
    {
      for i := 0 to |paths|
        invariant Valid() && open == old(open) && (i > 0 ==> open)
        invariant kv == old(kv) - Elements(paths[..i])
      {
        if !open {
          return Some(Crash);
        }
        kv := kv - {paths[i]};
        ElementsStep(paths, i);
      }
      assert paths[..|paths|] == paths;
      return None;
    }

    /** The store's iterator: a range scan over a snapshot of the sorted keys. */
    method NewIterator(prefix: Key) returns (keys: seq<Key>)
      ensures keys == KeysWith(kv, prefix)
    {
      RangeScanMatches(SortedKeys(kv.Keys), prefix);
      keys := RangeScan(SortedKeys(kv.Keys), prefix);
    }

    /** The documents under a parent, at any depth, in key order. */
    method Documents(parent: Key, prefix: Key, limit: int, index: int) returns (r: Result<seq<Record>, Error>)
      requires Valid()
      ensures r == if index != 0 then Err(NoIndex)
                   else if !open then Err(NotOpen)
                   else Ok(Records(kv, Limited(KeysWith(kv, ScanPrefix(parent, prefix)), limit)))
      ensures r.Ok? ==>
                var p := if parent == [] then prefix
                         else if prefix != [] then Path2(parent, prefix) else Path(parent) + [SLASH];
                && (forall i :: 0 <= i < |r.value| ==>
                      && r.value[i].path in kv && kv[r.value[i].path] == r.value[i] && p <= r.value[i].path)
                && (forall i, j :: 0 <= i < j < |r.value| ==> Less(r.value[i].path, r.value[j].path))
                && (limit > 0 ==> |r.value| <= limit)
                && (forall k :: k in kv && p <= k && kv[k] !in r.value ==>
                      0 < limit == |r.value| && forall i :: 0 <= i < |r.value| ==> Less(r.value[i].path, k))
    {
      Listed(kv, ScanPrefix(parent, prefix), limit);
      if index != 0 {
        return Err(NoIndex);
      }
      if !open {
        return Err(NotOpen);
      }
      var keys := NewIterator(ScanPrefix(parent, prefix));
      KeysWithMembers(kv, ScanPrefix(parent, prefix));
      r := ReadDocuments(keys, limit);
    }

    method ReadDocuments(keys: seq<Key>, limit: int) returns (r: Result<seq<Record>, Error>)
      requires Valid() && forall i :: 0 <= i < |keys| ==> keys[i] in kv
      ensures r == Ok(Records(kv, Limited(keys, limit)))
    {
      var docs := [];
      for i := 0 to |keys|
        invariant limit > 0 ==> i <= limit
        invariant docs == Records(kv, keys[..i]) && |docs| == i
      {
        if limit > 0 && |docs| >= limit {
          return Ok(docs);
        }
        var doc := kv[keys[i]];
        if doc.path != keys[i] {
          return Err(Mismatch);
        }
        docs := docs + [doc];
        RecordsStep(kv, keys, i);
      }
      assert keys[..|keys|] == keys;
      return Ok(docs);
    }

    method DeleteCollection(parent: Key) returns (e: Option<Error>)
      requires Valid()
      modifies this
      ensures Valid() && open == old(open)
      ensures e == if open then None else Some(NotOpen)
      ensures kv == if open then old(kv) - Elements(KeysWith(old(kv), ScanPrefix(parent, []))) else old(kv)
      ensures open ==> forall k :: k in kv <==>
                && k in old(kv)
                && !(if Path(parent) == ROOT then parent == []
                     else |Components(parent)| < |Components(k)|
                          && Components(k)[..|Components(parent)|] == Components(parent))
      ensures forall k :: k in kv ==> kv[k] == old(kv)[k]
    {
      CollectionLeft(kv, parent);
      var docs := Documents(parent, [], 0, 0);
      if docs.Err? {
        return Some(docs.error);
      }
      ghost var keys := KeysWith(kv, ScanPrefix(parent, []));
      KeysWithMembers(kv, ScanPrefix(parent, []));
      RecordsPaths(kv, keys);
      var paths := PathsOf(docs.value);
      assert paths == keys;
      e := DeleteAll(paths);
    }

    /** The first path components in use, each once, in the order they first appear. */
    method Collections(parent: Key) returns (r: Result<seq<Key>, Error>)
      requires Valid()
      ensures r == if !open then Err(NotOpen)
                   else if Path(parent) != ROOT then Err(NotRoot)
                   else Ok(Firsts(SortedKeys(kv.Keys)))
      ensures r.Ok? ==>
                && (forall i, j :: 0 <= i < j < |r.value| ==> r.value[i] != r.value[j])
                && (forall k :: k in kv ==> Components(k) != [] && [SLASH] + Components(k)[0] in r.value)
                && (forall c :: c in r.value ==>
                      exists k :: k in kv && Components(k) != [] && c == [SLASH] + Components(k)[0])
    {
      FirstsInUse(kv);
      if !open {
        return Err(NotOpen);
      }
      if Path(parent) != ROOT {
        return Err(NotRoot);
      }
      var keys := NewIterator([]);
      KeysWithMembers(kv, []);
      MatchingAll(SortedKeys(kv.Keys));
      r := ReadCollections(keys);
    }

    method ReadCollections(keys: seq<Key>) returns (r: Result<seq<Key>, Error>)
      requires Valid() && forall i :: 0 <= i < |keys| ==> keys[i] in kv
      ensures r == Ok(Firsts(keys))
    {
      var collections: seq<Key> := [];
      var count: map<Key, nat> := map[];
      for i := 0 to |keys|
        invariant collections == Firsts(keys[..i])
        invariant forall c :: c in count <==> c in collections
      {
        var doc := kv[keys[i]];
        if doc.path != keys[i] {
          return Err(Mismatch);
        }
        var col := First(doc.path);
        FirstsStep(keys, i);
        if col !in count {
          collections := collections + [col];
          count := count[col := 1];
        } else {
          count := count[col := count[col] + 1];
        }
      }
      assert keys[..|keys|] == keys;
      return Ok(collections);
    }

    /** The last document whose key has the prefix. */
    method Last(prefix: Key) returns (r: Result<Option<Record>, Error>)
      requires Valid()
      ensures !open ==> r == Err(NotOpen)
      ensures open ==> r.Ok?
      ensures r.Ok? && r.value.None? ==> forall k :: k in kv ==> !(prefix <= k)
      ensures r.Ok? && r.value.Some? ==>
                var k := r.value.value.path;
                k in kv && kv[k] == r.value.value && prefix <= k
                && forall j :: j in kv && prefix <= j ==> Leq(j, k)
    {
      if !open {
        return Err(NotOpen);
      }
      var keys := NewIterator(prefix);
      KeysWithMembers(kv, prefix);
      PrefixIsSlice(prefix);
      MatchingSorted(SortedKeys(kv.Keys), prefix);
      if |keys| == 0 {
        return Ok(None);
      }
      var k := keys[|keys| - 1];
      assert k in keys;
      LastIsGreatest(keys);
      r := GetRaw(k);
    }
  }

  lemma PrefixIsSlice(p: Key)
    ensures forall k :: HasPrefix(k, p) <==> p <= k
  {
  }

  lemma {:induction false} FoundMeans(kv: map<Key, Record>, paths: seq<Key>)
    ensures forall d :: d in Found(kv, paths) <==> exists i :: 0 <= i < |paths| && paths[i] in kv && kv[paths[i]] == d
    ensures (forall i :: 0 <= i < |paths| ==> paths[i] in kv) ==>
              && |Found(kv, paths)| == |paths|
              && forall i :: 0 <= i < |paths| ==> Found(kv, paths)[i] == kv[paths[i]]
  {
    if paths == [] {
    } else {
      var rest := paths[1..];
      FoundMeans(kv, rest);
      FoundFirst(kv, paths);
      assert forall i :: 0 < i < |paths| ==> paths[i] == rest[i - 1];
      forall d
        ensures d in Found(kv, paths) <==> exists i :: 0 <= i < |paths| && paths[i] in kv && kv[paths[i]] == d
      {
        if i :| 0 <= i < |rest| && rest[i] in kv && kv[rest[i]] == d {
          assert paths[i + 1] in kv && kv[paths[i + 1]] == d;
        }
        if i :| 0 <= i < |paths| && paths[i] in kv && kv[paths[i]] == d && i > 0 {
          assert rest[i - 1] in kv && kv[rest[i - 1]] == d;
        }
      }
    }
  }

  lemma ListedKeys(kv: map<Key, Record>, p: Key, limit: int) returns (keys: seq<Key>)
    requires WellStored(kv)
    ensures keys == Limited(KeysWith(kv, p), limit) && Sorted(keys) && (limit > 0 ==> |keys| <= limit)
    ensures forall i :: 0 <= i < |keys| ==> keys[i] in kv && p <= keys[i]
    ensures forall k :: k in kv && p <= k && k !in keys ==>
              0 < limit == |keys| && forall i :: 0 <= i < |keys| ==> Less(keys[i], k)
  {
    hide Matching;
    hide SortedKeys;
    var all := KeysWith(kv, p);
    keys := Limited(all, limit);
    KeysWithMembers(kv, p);
    MatchingSorted(SortedKeys(kv.Keys), p);
    assert forall i :: 0 <= i < |all| ==> all[i] in all;
    forall k | k in kv && p <= k && k !in keys
      ensures 0 < limit == |keys| && forall i :: 0 <= i < |keys| ==> Less(keys[i], k)
    {
      assert k in all;
      var j :| 0 <= j < |all| && all[j] == k;
      assert forall i :: 0 <= i < |keys| ==> keys[i] == all[i] && keys[i] in keys;
      assert j >= |keys|;
    }
  }

  /** What a listing holds: documents with the prefix under their keys in order, and when one is
      missing the limit is reached in front of it. */
  lemma Listed(kv: map<Key, Record>, p: Key, limit: int)
    requires WellStored(kv)
    ensures var docs := Records(kv, Limited(KeysWith(kv, p), limit));
            && (forall i :: 0 <= i < |docs| ==>
                  && docs[i].path in kv && kv[docs[i].path] == docs[i] && p <= docs[i].path)
            && (forall i, j :: 0 <= i < j < |docs| ==> Less(docs[i].path, docs[j].path))
            && (limit > 0 ==> |docs| <= limit)
            && (forall k :: k in kv && p <= k && kv[k] !in docs ==>
                  0 < limit == |docs| && forall i :: 0 <= i < |docs| ==> Less(docs[i].path, k))
  {
    hide Records;
    var keys := ListedKeys(kv, p, limit);
    var docs := Records(kv, keys);
    RecordsPaths(kv, keys);
    forall i | 0 <= i < |docs|
      ensures docs[i] == kv[keys[i]] && kv[keys[i]] in docs && docs[i].path == keys[i]
    {
      RecordAt(kv, keys, i);
    }
    forall k | k in keys
      ensures k in kv && kv[k] in docs
    {
      var i :| 0 <= i < |keys| && keys[i] == k;
    }
  }

  lemma {:induction false} RecordAt(kv: map<Key, Record>, keys: seq<Key>, i: nat)
    requires i < |keys| && forall j :: 0 <= j < |keys| ==> keys[j] in kv
    ensures |Records(kv, keys)| == |keys| && Records(kv, keys)[i] == kv[keys[i]]
    decreases |keys|
  {
    var n := |keys| - 1;
    if n == 0 {
      assert Records(kv, keys[..0]) == [];
    } else {
      RecordAt(kv, keys[..n], if i < n then i else 0);
    }
  }

  /** The first components of the keys of a store. */
  lemma FirstsInUse(kv: map<Key, Record>)
    requires WellStored(kv)
    ensures var cs := Firsts(SortedKeys(kv.Keys));
            && (forall i, j :: 0 <= i < j < |cs| ==> cs[i] != cs[j])
            && (forall k :: k in kv ==> Components(k) != [] && [SLASH] + Components(k)[0] in cs)
            && (forall c :: c in cs ==> exists k :: k in kv && Components(k) != [] && c == [SLASH] + Components(k)[0])
  {
    var keys := SortedKeys(kv.Keys);
    FirstsAreDistinct(keys);
    forall k | k in kv
      ensures Components(k) != [] && First(k) == [SLASH] + Components(k)[0] && First(k) in Firsts(keys)
    {
      PathIdempotent(k);
      OneSlashed(Components(k)[0]);
      var i :| 0 <= i < |keys| && keys[i] == k;
    }
    forall c | c in Firsts(keys)
      ensures exists k :: k in kv && Components(k) != [] && c == [SLASH] + Components(k)[0]
    {
      var i :| 0 <= i < |keys| && First(keys[i]) == c;
      assert keys[i] in keys;
    }
  }

  lemma StoreLookup(kv: map<Key, Record>, p: Key)
    ensures Store(kv, p, Lookup(kv, p)) == kv
  {
  }

  lemma LastIsGreatest(ks: seq<Key>)
    requires Sorted(ks) && ks != []
    ensures forall k :: k in ks ==> Leq(k, ks[|ks| - 1])
  {
    LeqTotal(ks[|ks| - 1], ks[|ks| - 1]);
  }

  /** While merging: all values are written but those named in left. */
  ghost predicate Writing(doc: Values, out: Values, values: Values, left: set<string>) {
    left <= values.Keys && out == doc + (values - left)
  }

  lemma WriteOne(doc: Values, out: Values, values: Values, left: set<string>, k: string)
    requires Writing(doc, out, values, left) && k in left
    ensures Writing(doc, out[k := values[k]], values, left - {k})
  {
    assert values - (left - {k}) == (values - left)[k := values[k]];
  }

  lemma WriteAll(doc: Values, values: Values)
    ensures Writing(doc, doc, values, values.Keys)
    ensures forall out :: Writing(doc, out, values, {}) ==> out == doc + values
  {
    assert values - values.Keys == map[];
    assert values - {} == values;
  }

  method PathsOf(docs: seq<Record>) returns (paths: seq<Key>)
    ensures |paths| == |docs| && forall i :: 0 <= i < |docs| ==> paths[i] == docs[i].path
  {
    paths := [];
    for i := 0 to |docs|
      invariant |paths| == i && forall j :: 0 <= j < i ==> paths[j] == docs[j].path
    {
      paths := paths + [docs[i].path];
    }
  }

  /** The merge loop of set: write the values one by one, in any order. */
  method MergeInto(doc: Option<Values>, values: Option<Values>) returns (r: Result<Option<Values>, Error>)
    ensures r == Merged(doc, values)
  {
    if values.None? {
      return Ok(doc);
    }
    var names := values.value.Keys;
    if doc.None? {
      assert names == {} <==> values.value == map[];
      return if names == {} then Ok(doc) else Err(Crash);
    }
    var out := doc.value;
    WriteAll(out, values.value);
    while names != {}
      invariant Writing(doc.value, out, values.value, names)
      decreases names
    {
      var k :| k in names;
      WriteOne(doc.value, out, values.value, names, k);
      out := out[k := values.value[k]];
      names := names - {k};
    }
    MergeOne(doc.value, values.value);
    return Ok(Some(out));
  }

  // ---------- listing ----------

  /** The documents GetAll finds. */
  function Found(kv: map<Key, Record>, paths: seq<Key>): seq<Record> {
    if paths == [] then []
    else (if paths[0] in kv then [kv[paths[0]]] else []) + Found(kv, paths[1..])
  }

  /** The keys with a prefix, in order. */
  function KeysWith(kv: map<Key, Record>, p: Key): seq<Key> {
    Matching(SortedKeys(kv.Keys), p)
  }

  lemma KeysWithMembers(kv: map<Key, Record>, p: Key)
    ensures forall k :: k in KeysWith(kv, p) <==> k in kv && HasPrefix(k, p)
    ensures forall i :: 0 <= i < |KeysWith(kv, p)| ==> KeysWith(kv, p)[i] in kv
  {
    var ks := KeysWith(kv, p);
    forall i | 0 <= i < |ks|
      ensures ks[i] in kv
    {
      assert ks[i] in ks;
    }
  }

  function Elements(paths: seq<Key>): (s: set<Key>)
    ensures forall k :: k in s <==> k in paths
  {
    set k | k in paths
  }

  lemma ElementsStep(paths: seq<Key>, i: nat)
    requires i < |paths|
    ensures Elements(paths[..i + 1]) == Elements(paths[..i]) + {paths[i]}
  {
    assert paths[..i + 1] == paths[..i] + [paths[i]];
  }

  /** The documents under some keys. */
  function Records(kv: map<Key, Record>, keys: seq<Key>): seq<Record> {
    if keys == [] then []
    else
      var n := |keys| - 1;
      Records(kv, keys[..n]) + if keys[n] in kv then [kv[keys[n]]] else []
  }

  lemma RecordsStep(kv: map<Key, Record>, keys: seq<Key>, i: nat)
    requires i < |keys| && keys[i] in kv
    ensures Records(kv, keys[..i + 1]) == Records(kv, keys[..i]) + [kv[keys[i]]]
  {
    assert keys[..i + 1][..i] == keys[..i];
  }

  lemma {:induction false} RecordsPaths(kv: map<Key, Record>, keys: seq<Key>)
    requires WellStored(kv) && forall i :: 0 <= i < |keys| ==> keys[i] in kv
    ensures |Records(kv, keys)| == |keys|
    ensures forall i :: 0 <= i < |keys| ==> Records(kv, keys)[i].path == keys[i]
  {
    if keys == [] {
    } else {
      RecordsPaths(kv, keys[..|keys| - 1]);
    }
  }

  function Limited(keys: seq<Key>, limit: int): seq<Key> {
    if 0 < limit < |keys| then keys[..limit] else keys
  }

  /** The key prefix that `iterator` scans for a parent and a name prefix. */
  function ScanPrefix(parent: Key, prefix: Key): Key {
    if parent == [] then prefix
    else if prefix != [] then Path2(parent, prefix)
    else Path(parent) + [SLASH]
  }

  /** First component of a path, as a path. */
  function First(p: Key): Key {
    Join(if Components(p) == [] then [] else [Components(p)[0]])
  }

  function Firsts(keys: seq<Key>): seq<Key> {
    if keys == [] then []
    else
      var before := Firsts(keys[..|keys| - 1]);
      var f := First(keys[|keys| - 1]);
      before + if f in before then [] else [f]
  }

  lemma FirstsStep(keys: seq<Key>, i: nat)
    requires i < |keys|
    ensures Firsts(keys[..i + 1]) == Firsts(keys[..i]) + if First(keys[i]) in Firsts(keys[..i])
            then [] else [First(keys[i])]
  {
    assert keys[..i + 1][..i] == keys[..i];
  }

  lemma {:induction false} MatchingAll(ks: seq<Key>)
    ensures Matching(ks, []) == ks
  {
    if ks == [] {
    } else {
      MatchingAll(ks[1..]);
    }
  }

  /** What DeleteCollection removes.  For a path that is not the root: everything strictly
      under it, at any depth, and no sibling.  For the empty string: everything.  For any
      other spelling of the root, such as a single slash: nothing at all. */
  lemma CollectionIsUnder(k: Key, parent: Key)
    requires Normal(k) && k != ROOT
    ensures Path(parent) != ROOT ==> (HasPrefix(k, ScanPrefix(parent, [])) <==> Under(k, Components(parent)))
    ensures Path(parent) == ROOT ==> (HasPrefix(k, ScanPrefix(parent, [])) <==> parent == [])
  {
    PathIdempotent(parent);
    if parent != [] {
      if Path(parent) == ROOT {
        NoDoubleSlash(k);
      } else {
        PrefixIsUnder(k, Components(parent));
      }
    }
  }

  /** What Documents lists with a name: everything under the parent, at any depth, whose next
      component starts with the name. */
  lemma NamedDocuments(k: Key, parent: Key, name: Key)
    requires Normal(k) && parent != [] && IsComponent(name)
    ensures HasPrefix(k, ScanPrefix(parent, name)) <==>
              Under(k, Components(parent)) && name <= Components(k)[|Components(parent)|]
  {
    ComponentsAre(name, []);
    NamedIsUnder(k, Components(parent), name);
  }

  /** The documents DeleteCollection keeps. */
  lemma CollectionGone(kv: map<Key, Record>, parent: Key, k: Key)
    requires WellStored(kv)
    ensures k in kv - Elements(KeysWith(kv, ScanPrefix(parent, []))) <==>
              k in kv && !(if Path(parent) != ROOT then Under(k, Components(parent)) else parent == [])
  {
    if k in kv {
      CollectionIsUnder(k, parent);
      KeysWithMembers(kv, ScanPrefix(parent, []));
    }
  }

  lemma CollectionLeft(kv: map<Key, Record>, parent: Key)
    requires WellStored(kv)
    ensures forall k :: k in kv - Elements(KeysWith(kv, ScanPrefix(parent, []))) <==>
              && k in kv
              && !(if Path(parent) == ROOT then parent == []
                   else |Components(parent)| < |Components(k)|
                        && Components(k)[..|Components(parent)|] == Components(parent))
  {
    forall k {
      CollectionGone(kv, parent, k);
    }
  }

  /** The collections list: no repeats, exactly the first components in use, in the order in
      which they first appear among the keys. */
  lemma {:induction false} FirstsAreDistinct(keys: seq<Key>)
    ensures forall i, j :: 0 <= i < j < |Firsts(keys)| ==> Firsts(keys)[i] != Firsts(keys)[j]
    ensures forall c :: c in Firsts(keys) <==> exists i :: 0 <= i < |keys| && First(keys[i]) == c
  {
    if keys == [] {
    } else {
      hide Firsts;
      hide First;
      var n := |keys| - 1;
      FirstsAreDistinct(keys[..n]);
      FirstsStep(keys, n);
      assert keys[..n + 1] == keys;
      forall i | 0 <= i < |keys|
        ensures First(keys[i]) in Firsts(keys)
      {
        if i < n {
          assert First(keys[..n][i]) in Firsts(keys[..n]);
        }
      }
      forall c | c in Firsts(keys)
        ensures exists i :: 0 <= i < |keys| && First(keys[i]) == c
      {
        if c in Firsts(keys[..n]) {
          var i :| 0 <= i < n && First(keys[..n][i]) == c;
          assert First(keys[i]) == c;
        } else {
          assert First(keys[n]) == c;
        }
      }
    }
  }

  lemma {:induction false} FirstsInOrder(keys: seq<Key>, n: nat)
    requires n <= |keys|
    ensures Firsts(keys[..n]) <= Firsts(keys)
    decreases |keys| - n
  {
    if n < |keys| {
      FirstsInOrder(keys, n + 1);
      assert keys[..n + 1][..|keys[..n + 1]| - 1] == keys[..n];
    } else {
      assert keys[..n] == keys;
    }
  }

  function NormalPaths(paths: seq<Key>): seq<Key> {
    if paths == [] then [] else [Path(paths[0])] + NormalPaths(paths[1..])
  }

  /** GetAll finds what Get finds for each of its paths exactly when every path is normal or
      nothing is stored at it. */
  lemma {:induction false} GetAllNeedsNormalPaths(kv: map<Key, Record>, paths: seq<Key>)
    requires WellStored(kv)
    ensures |Found(kv, paths)| <= |Found(kv, NormalPaths(paths))|
    ensures Found(kv, paths) == Found(kv, NormalPaths(paths)) <==>
              forall i :: 0 <= i < |paths| ==> Normal(paths[i]) || Path(paths[i]) !in kv
    ensures |Found(kv, paths)| == |Found(kv, NormalPaths(paths))| ==> Found(kv, paths) == Found(kv, NormalPaths(paths))
  {
    if paths == [] {
    } else {
      var path, rest := paths[0], paths[1..];
      GetAllNeedsNormalPaths(kv, rest);
      PathIdempotent(path);
      FoundFirst(kv, NormalPaths(paths));
      FoundFirst(kv, paths);
      assert NormalPaths(paths)[1..] == NormalPaths(rest);
      assert (forall i :: 0 <= i < |paths| ==> Normal(paths[i]) || Path(paths[i]) !in kv) <==>
          (Normal(path) || Path(path) !in kv) && forall i :: 0 <= i < |rest| ==>
              Normal(rest[i]) || Path(rest[i]) !in kv by {
        assert forall i :: 0 < i < |paths| ==> paths[i] == rest[i - 1];
      }
    }
  }

  function FoundOne(kv: map<Key, Record>, path: Key): seq<Record> {
    if path in kv then [kv[path]] else []
  }

  lemma FoundFirst(kv: map<Key, Record>, paths: seq<Key>)
    requires paths != []
    ensures Found(kv, paths) == FoundOne(kv, paths[0]) + Found(kv, paths[1..])
  {
  }
}
