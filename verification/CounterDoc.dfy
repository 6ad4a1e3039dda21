/**
 The counter document of an event log and the transactions that advance it.

 `writeAll` and `Increment` (firestore/events.go) run the same transaction: read a
 counter, take `size` numbers after it, and write the counter back; `writeAll` also
 stores one document per number.  What such a transaction does to the store is one
 atomic `Commit`.  This module says which commits the database accepts and proves
 what every sequence of accepted commits looks like.
 */
module CounterDoc {
  import opened Wrappers

  datatype Value = Num(n: int) | Text(s: string)

  type Doc = map<string, Value>

  const IDX := "idx"
  const MAX_CHUNK := 498
  const MAX_WRITES := 500

  /** What a transaction wants: numbers for some documents, or just `n` numbers. */
  datatype Payload = Events(docs: seq<Doc>) | Count(name: string, n: nat)
  {
    function Field(): string {
      if Events? then IDX else name
    }

    function Size(): nat {
      if Events? then |docs| else n
    }
  }

  /** A committed transaction of `client`: it took the numbers base+1 .. base+Size. */
  datatype Commit = Commit(client: nat, payload: Payload, base: int)
  {
    function End(): int {
      base + payload.Size()
    }

    predicate On(f: string) {
      payload.Field() == f
    }
  }

  /** The counter document (absent, or its fields), the log documents in commit order,
      and the history of commits, which the program itself does not keep. */
  datatype Store = Store(fields: Option<map<string, int>>, log: seq<Doc>, commits: seq<Commit>)

  const EMPTY := Store(None, [], [])

  function Stored(fields: Option<map<string, int>>, f: string): Option<int> {
    if fields.Some? && f in fields.value then Some(fields.value[f]) else None
  }

  function WithField(fields: Option<map<string, int>>, f: string, v: int): Option<map<string, int>> {
    Some((if fields.Some? then fields.value else map[])[f := v])
  }

  function Numbered(doc: Doc, i: int): Doc {
    doc[IDX := Num(i)]
  }

  function Stamp(docs: seq<Doc>, base: int): (r: seq<Doc>)
    ensures |r| == |docs|
  {
    seq(|docs|, i requires 0 <= i < |docs| => Numbered(docs[i], base + 1 + i))
  }

  predicate HasIdx(doc: Doc) {
    IDX in doc && doc[IDX].Num?
  }

  function Idx(doc: Doc): int
    requires HasIdx(doc)
  {
    doc[IDX].n
  }

  /** The database serialises transactions, so at its commit point a transaction read the
      value that is stored, or it found no stored value and starts from whatever
      non-negative number its client carried over from an earlier attempt. */
  predicate Accepted(fields: Option<map<string, int>>, c: Commit) {
    && c.payload.Size() > 0
    && c.base >= 0
    && (Stored(fields, c.payload.Field()).None? || Stored(fields, c.payload.Field()) == Some(c.base))
  }

  function Apply(s: Store, c: Commit): Store {
    Store(
      WithField(s.fields, c.payload.Field(), c.End()),
      s.log + Entries(c),
      s.commits + [c])
  }

  function Entries(c: Commit): seq<Doc> {
    if c.payload.Events? then Stamp(c.payload.docs, c.base) else []
  }

  // ---------- the writes of a transaction ----------

  /** A write the transaction body hands to the database. */
  datatype TxWrite = CreateCounter | CreateEvent(doc: Doc) | SetCounter(value: int)

  function Creates(docs: seq<Doc>): seq<TxWrite> {
    seq(|docs|, i requires 0 <= i < |docs| => CreateEvent(docs[i]))
  }

  /** The writes of a body that went through, in order: the counter document if there was
      none, the events, and the counter's new value. */
  function BodyWrites(found: bool, c: Commit): seq<TxWrite> {
    FirstWrites(found) + Creates(Entries(c)) + [SetCounter(c.End())]
  }

  /** What the body issues first. */
  function FirstWrites(found: bool): seq<TxWrite> {
    if found then [] else [CreateCounter]
  }

  lemma CountBody(found: bool, c: Commit)
    requires c.payload.Count?
    ensures BodyWrites(found, c) == FirstWrites(found) + [SetCounter(c.End())]
  {
    assert FirstWrites(found) + Creates([]) == FirstWrites(found);
  }

  lemma EventsBody(found: bool, c: Commit)
    requires c.payload.Events?
    ensures BodyWrites(found, c) == FirstWrites(found) + Creates(Stamp(c.payload.docs, c.base)) + [SetCounter(c.End())]
  {
  }

  /** The counter document and the log after one write on counter f. */
  function Written(fields: Option<map<string, int>>, log: seq<Doc>, f: string, w: TxWrite)
    : (Option<map<string, int>>, seq<Doc>)
  {
    match w
    case CreateCounter => (WithField(fields, f, 0), log)
    case CreateEvent(doc) => (fields, log + [doc])
    case SetCounter(value) => (WithField(fields, f, value), log)
  }

  function AllWritten(fields: Option<map<string, int>>, log: seq<Doc>, f: string, ws: seq<TxWrite>)
    : (Option<map<string, int>>, seq<Doc>)
  {
    if ws == [] then (fields, log)
    else
      var (fields', log') := AllWritten(fields, log, f, ws[..|ws| - 1]);
      Written(fields', log', f, ws[|ws| - 1])
  }

  lemma WrittenStep(fields: Option<map<string, int>>, log: seq<Doc>, f: string, ws: seq<TxWrite>, w: TxWrite)
    ensures var (fields', log') := AllWritten(fields, log, f, ws);
            AllWritten(fields, log, f, ws + [w]) == Written(fields', log', f, w)
  {
    assert (ws + [w])[..|ws + [w]| - 1] == ws;
  }

  lemma {:induction false} CreatesWritten(fields: Option<map<string, int>>, log: seq<Doc>, f: string,
                                          ws: seq<TxWrite>, docs: seq<Doc>)
    ensures var (fields', log') := AllWritten(fields, log, f, ws);
            AllWritten(fields, log, f, ws + Creates(docs)) == (fields', log' + docs)
    decreases |docs|
  {
    hide AllWritten;
    if docs == [] {
      assert ws + Creates(docs) == ws && AllWritten(fields, log, f, ws).1 + docs == AllWritten(fields, log, f, ws).1;
    } else {
      var n := |docs| - 1;
      CreatesWritten(fields, log, f, ws, docs[..n]);
      WrittenStep(fields, log, f, ws + Creates(docs[..n]), CreateEvent(docs[n]));
      assert ws + Creates(docs) == ws + Creates(docs[..n]) + [CreateEvent(docs[n])];
      var sofar := AllWritten(fields, log, f, ws).1;
      assert sofar + docs == sofar + docs[..n] + [docs[n]];
    }
  }

  lemma FirstWrite(fields: Option<map<string, int>>, log: seq<Doc>, f: string, first: seq<TxWrite>)
    requires first == FirstWrites(fields.Some?)
    ensures AllWritten(fields, log, f, first).1 == log
    ensures forall v :: WithField(AllWritten(fields, log, f, first).0, f, v) == WithField(fields, f, v)
  {
    if fields.None? {
      assert first[..0] == [] && AllWritten(fields, log, f, []) == (fields, log);
      forall v
        ensures WithField(WithField(fields, f, 0), f, v) == WithField(fields, f, v)
      {
        assert map[f := 0][f := v] == map[f := v];
      }
    }
  }

  /** The writes of a body, performed together, are the commit: at most 500 of them for a chunk
      of at most 498 events. */
  lemma CommitIsBody(s: Store, c: Commit)
    requires c.payload.Events? ==> |c.payload.docs| <= MAX_CHUNK
    ensures AllWritten(s.fields, s.log, c.payload.Field(), BodyWrites(s.fields.Some?, c)) ==
              (Apply(s, c).fields, Apply(s, c).log)
    ensures forall found: bool :: |BodyWrites(found, c)| <= MAX_WRITES
  {
    hide AllWritten;
    var f := c.payload.Field();
    var first := FirstWrites(s.fields.Some?);
    FirstWrite(s.fields, s.log, f, first);
    CreatesWritten(s.fields, s.log, f, first, Entries(c));
    WrittenStep(s.fields, s.log, f, first + Creates(Entries(c)), SetCounter(c.End()));
  }

  function LogOf(cs: seq<Commit>): seq<Doc> {
    if cs == [] then [] else LogOf(cs[..|cs| - 1]) + Entries(cs[|cs| - 1])
  }

  /** End of the last commit on field f. */
  function LastEnd(cs: seq<Commit>, f: string): Option<int> {
    if cs == [] then None
    else if cs[|cs| - 1].On(f) then Some(cs[|cs| - 1].End())
    else LastEnd(cs[..|cs| - 1], f)
  }

  /** Base of the first commit on field f. */
  function FirstBase(cs: seq<Commit>, f: string): Option<int> {
    if cs == [] then None
    else if FirstBase(cs[..|cs| - 1], f).Some? then FirstBase(cs[..|cs| - 1], f)
    else if cs[|cs| - 1].On(f) then Some(cs[|cs| - 1].base)
    else None
  }

  function Sum(cs: seq<Commit>, f: string): nat {
    if cs == [] then 0
    else Sum(cs[..|cs| - 1], f) + (if cs[|cs| - 1].On(f) then cs[|cs| - 1].payload.Size() else 0)
  }

  /** Every commit starts where the previous commit on its field ended. */
  ghost predicate Chained(cs: seq<Commit>) {
    cs != [] ==>
      var c, before := cs[|cs| - 1], cs[..|cs| - 1];
      && Chained(before)
      && c.base >= 0
      && c.payload.Size() > 0
      && (LastEnd(before, c.payload.Field()).None? || LastEnd(before, c.payload.Field()) == Some(c.base))
  }

  /** The invariant of the store: the log is what the commits wrote, and each counter in
      `counters` holds exactly what the last commit on it left there. */
  ghost predicate Valid(s: Store, counters: set<string>) {
    && Chained(s.commits)
    && s.log == LogOf(s.commits)
    && (forall f :: f in counters ==> Stored(s.fields, f) == LastEnd(s.commits, f))
  }

  lemma ApplyKeepsValid(s: Store, c: Commit, counters: set<string>)
    requires Valid(s, counters) && Accepted(s.fields, c) && c.payload.Field() in counters
    ensures Valid(Apply(s, c), counters)
  {
    var s' := Apply(s, c);
    assert s'.commits[..|s'.commits| - 1] == s.commits;
  }

  // ---------- what any chained history looks like ----------

  /** The ranges taken on one counter are disjoint and in commit order. */
  lemma {:induction false} RangesOrdered(cs: seq<Commit>, f: string, i: nat, j: nat)
    requires Chained(cs) && i < j < |cs| && cs[i].On(f) && cs[j].On(f)
    ensures 0 <= cs[i].base < cs[i].End() <= cs[j].base < cs[j].End()
    decreases |cs|
  {
    var before := cs[..|cs| - 1];
    if j < |before| {
      RangesOrdered(before, f, i, j);
    } else {
      EndsBelowLast(before, f, i);
    }
  }

  lemma {:induction false} EndsBelowLast(cs: seq<Commit>, f: string, i: nat)
    requires Chained(cs) && i < |cs| && cs[i].On(f)
    ensures LastEnd(cs, f).Some?
    ensures 0 <= cs[i].base < cs[i].End() <= LastEnd(cs, f).value
  {
    var before := cs[..|cs| - 1];
    if i < |before| {
      EndsBelowLast(before, f, i);
    }
  }

  lemma {:induction false} NoCommitsOn(cs: seq<Commit>, f: string)
    ensures LastEnd(cs, f).None? <==> FirstBase(cs, f).None?
    ensures LastEnd(cs, f).None? ==> Sum(cs, f) == 0
    ensures LastEnd(cs, f).None? && f == IDX ==> LogOf(cs) == []
  {
    if cs == [] {
    } else {
      NoCommitsOn(cs[..|cs| - 1], f);
    }
  }

  /** The commits on one counter tile an interval: the last one ends exactly the sum of
      all sizes above the point where the first one started. */
  lemma {:induction false} Tiling(cs: seq<Commit>, f: string)
    requires Chained(cs) && LastEnd(cs, f).Some?
    ensures FirstBase(cs, f).Some? && FirstBase(cs, f).value >= 0
    ensures LastEnd(cs, f).value == FirstBase(cs, f).value + Sum(cs, f)
  {
    var before := cs[..|cs| - 1];
    NoCommitsOn(before, f);
    if LastEnd(before, f).Some? {
      Tiling(before, f);
    }
  }

  /** Indices in the log strictly increase, start above 0 and never pass the counter. */
  ghost predicate Increasing(log: seq<Doc>) {
    && (forall i :: 0 <= i < |log| ==> HasIdx(log[i]) && Idx(log[i]) >= 1)
    && (forall i, j :: 0 <= i < j < |log| ==> Idx(log[i]) < Idx(log[j]))
  }

  lemma EntryIdx(c: Commit, i: nat)
    requires i < |Entries(c)|
    ensures HasIdx(Entries(c)[i]) && Idx(Entries(c)[i]) == c.base + 1 + i
    ensures c.On(IDX) && |Entries(c)| == c.payload.Size()
  {
  }

  lemma {:induction false} LogIncreases(cs: seq<Commit>)
    requires Chained(cs)
    ensures Increasing(LogOf(cs))
    ensures LogOf(cs) != [] ==> LastEnd(cs, IDX).Some?
    ensures forall i :: 0 <= i < |LogOf(cs)| ==> Idx(LogOf(cs)[i]) <= LastEnd(cs, IDX).value
  {
    if cs == [] {
    } else {
      var c, before := cs[|cs| - 1], cs[..|cs| - 1];
      LogIncreases(before);
      NoCommitsOn(before, IDX);
      var sofar, added := LogOf(before), Entries(c);
      if added == [] {
        assert LogOf(cs) == sofar;
      } else {
        EntryIdx(c, 0);
        AppendIncreasing(sofar, added, c.base, c.End()) by {
          forall i | 0 <= i < |added|
            ensures HasIdx(added[i]) && Idx(added[i]) == c.base + 1 + i
          {
            EntryIdx(c, i);
          }
        }
      }
    }
  }

  lemma AppendIncreasing(sofar: seq<Doc>, added: seq<Doc>, base: int, end: int)
    requires Increasing(sofar) && base >= 0 && end == base + |added|
    requires forall i :: 0 <= i < |sofar| ==> Idx(sofar[i]) <= base
    requires forall i :: 0 <= i < |added| ==> HasIdx(added[i]) && Idx(added[i]) == base + 1 + i
    ensures Increasing(sofar + added)
    ensures forall i :: 0 <= i < |sofar + added| ==> Idx((sofar + added)[i]) <= end
  {
    forall i | 0 <= i < |sofar + added|
      ensures HasIdx((sofar + added)[i]) && 1 <= Idx((sofar + added)[i]) <= end
    {
      assert i >= |sofar| ==> (sofar + added)[i] == added[i - |sofar|];
    }
  }

  ghost predicate OnlyEventsOnIdx(cs: seq<Commit>) {
    forall c :: c in cs && c.On(IDX) ==> c.payload.Events?
  }

  /** Position in the log determines the index. */
  lemma {:induction false} LogPositions(cs: seq<Commit>)
    requires Chained(cs) && OnlyEventsOnIdx(cs)
    ensures |LogOf(cs)| == Sum(cs, IDX)
    ensures LogOf(cs) != [] ==> FirstBase(cs, IDX).Some?
    ensures forall i :: 0 <= i < |LogOf(cs)| ==>
              HasIdx(LogOf(cs)[i]) && Idx(LogOf(cs)[i]) == FirstBase(cs, IDX).value + 1 + i
  {
    if cs == [] {
    } else {
      var c, before := cs[|cs| - 1], cs[..|cs| - 1];
      hide Chained;
      LogPositions(before);
      NoCommitsOn(before, IDX);
      assert c in cs;
      if c.On(IDX) {
        if LastEnd(before, IDX).Some? {
          Tiling(before, IDX);
        }
        forall i | |LogOf(before)| <= i < |LogOf(cs)|
          ensures HasIdx(LogOf(cs)[i]) && Idx(LogOf(cs)[i]) == FirstBase(cs, IDX).value + 1 + i
        {
          EntryIdx(c, i - |LogOf(before)|);
        }
      } else {
        assert LogOf(cs) == LogOf(before);
      }
    }
  }

  /** Indices are exactly 1..n. */
  ghost predicate Contiguous(log: seq<Doc>, n: int) {
    && |log| == n
    && forall i :: 0 <= i < n ==> HasIdx(log[i]) && Idx(log[i]) == i + 1
  }

  /** No transaction took numbers on f starting from a carried-over, non-zero value. */
  predicate StartedAtZero(cs: seq<Commit>, f: string) {
    FirstBase(cs, f).None? || FirstBase(cs, f) == Some(0)
  }

  /** The counter's value as a reader sees it; an absent counter reads as 0. */
  function CounterValue(fields: Option<map<string, int>>, f: string): int {
    if Stored(fields, f).Some? then Stored(fields, f).value else 0
  }

  /** Uniqueness, order, and the counter as an upper bound: they hold in every valid store. */
  lemma LogSound(s: Store, counters: set<string>)
    requires Valid(s, counters) && IDX in counters
    ensures Increasing(s.log)
    ensures forall i :: 0 <= i < |s.log| ==> Idx(s.log[i]) <= CounterValue(s.fields, IDX)
    ensures OnlyEventsOnIdx(s.commits) ==>
              (s.log == [] ==> CounterValue(s.fields, IDX) == 0)
              && (s.log != [] ==> CounterValue(s.fields, IDX) == Idx(s.log[|s.log| - 1]))
  {
    LogIncreases(s.commits);
    NoCommitsOn(s.commits, IDX);
    if OnlyEventsOnIdx(s.commits) {
      LogPositions(s.commits);
      if LastEnd(s.commits, IDX).Some? {
        Tiling(s.commits, IDX);
        SumPositive(s.commits, IDX);
      }
    }
  }

  lemma {:induction false} SumPositive(cs: seq<Commit>, f: string)
    requires Chained(cs) && LastEnd(cs, f).Some?
    ensures Sum(cs, f) > 0
  {
    if !cs[|cs| - 1].On(f) {
      SumPositive(cs[..|cs| - 1], f);
    }
  }

  /** Contiguity holds exactly when the first transaction on the counter started at 0. */
  lemma ContiguousIff(s: Store, counters: set<string>)
    requires Valid(s, counters) && IDX in counters && OnlyEventsOnIdx(s.commits)
    ensures Contiguous(s.log, CounterValue(s.fields, IDX)) <==> StartedAtZero(s.commits, IDX)
  {
    LogPositions(s.commits);
    NoCommitsOn(s.commits, IDX);
    if LastEnd(s.commits, IDX).Some? {
      Tiling(s.commits, IDX);
      ShiftedLog(s.log, FirstBase(s.commits, IDX).value);
    }
  }

  lemma ShiftedLog(log: seq<Doc>, first: int)
    requires first >= 0 && forall i :: 0 <= i < |log| ==> HasIdx(log[i]) && Idx(log[i]) == first + 1 + i
    ensures Contiguous(log, first + |log|) <==> first == 0
  {
  }

  /** The stored value is the sum of all increments exactly when the first one started at 0. */
  lemma CounterIsSumIff(s: Store, counters: set<string>, f: string)
    requires Valid(s, counters) && f in counters
    ensures CounterValue(s.fields, f) == Sum(s.commits, f) <==> StartedAtZero(s.commits, f)
  {
    NoCommitsOn(s.commits, f);
    if LastEnd(s.commits, f).Some? {
      Tiling(s.commits, f);
    }
  }
}
