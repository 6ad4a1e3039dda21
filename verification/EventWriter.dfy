/**
 The writing half of the Firestore event log as code: `EventsAdd`, `writeAll` and
 `Increment` (firestore/events.go), with their loops, the captured index, and the
 documents numbered in place.

 The network is a parameter, and what a method leaves in the store and reports is the
 function of it that `EventTries` defines.  Each method also returns, as ghost output, the
 trace of everything the database accepted meanwhile.
 */
module EventWriter {
  import opened Wrappers
  import opened CounterDoc
  import opened EventSystem
  import opened EventTries

  function MineOf(w: Write, me: nat): seq<Commit> {
    if w.Tx? && w.commit.client == me then [w.commit] else []
  }

  /** Where a trace of allowed writes leads, and which of its commits are `me`'s. */
  function Replay(s: Store, trace: seq<Write>, counters: set<string>, me: nat): Option<(Store, seq<Commit>)> {
    if trace == [] then Some((s, []))
    else
      var w := trace[|trace| - 1];
      match Replay(s, trace[..|trace| - 1], counters, me)
      case None => None
      case Some((mid, mine)) =>
        if Allowed(mid.fields, w, counters) then Some((Perform(mid, w), mine + MineOf(w, me))) else None
  }

  /** The whole effect of a method: the database allowed every write of the trace, it leads
      from s to s', and the method's own commits in it are `mine`. */
  ghost predicate Effect(s: Store, trace: seq<Write>, s': Store, counters: set<string>, me: nat, mine: seq<Commit>) {
    Replay(s, trace, counters, me) == Some((s', mine))
  }

  lemma EffectStarts(s: Store, counters: set<string>, me: nat)
    ensures Effect(s, [], s, counters, me, [])
  {
  }

  lemma NobodyYet(s: Store, counters: set<string>, me: nat)
    ensures Effect(s, [], s, counters, me, []) && Others(s, [], counters, me) == s && !Disturbed(s, [], counters, me)
  {
  }

  lemma EffectOne(s: Store, trace: seq<Write>, s': Store, counters: set<string>, me: nat, mine: seq<Commit>, w: Write)
    requires Effect(s, trace, s', counters, me, mine) && Allowed(s'.fields, w, counters)
    ensures Effect(s, trace + [w], Perform(s', w), counters, me, mine + MineOf(w, me))
  {
    assert (trace + [w])[..|trace + [w]| - 1] == trace;
  }

  /** The last write of an effect, and what was before it. */
  lemma EffectLast(s: Store, u: seq<Write>, s': Store, counters: set<string>, me: nat, mine: seq<Commit>)
    returns (mid: Store, mine0: seq<Commit>)
    requires u != [] && Effect(s, u, s', counters, me, mine)
    ensures var w := u[|u| - 1];
            && Effect(s, u[..|u| - 1], mid, counters, me, mine0) && Allowed(mid.fields, w, counters)
            && s' == Perform(mid, w) && mine == mine0 + MineOf(w, me)
  {
    var r := Replay(s, u[..|u| - 1], counters, me).value;
    mid, mine0 := r.0, r.1;
  }

  lemma NoEffect(s: Store, s': Store, counters: set<string>, me: nat, mine: seq<Commit>)
    requires Effect(s, [], s', counters, me, mine)
    ensures s' == s && mine == []
  {
  }

  lemma {:induction false} EffectThen(s: Store, t: seq<Write>, s': Store, u: seq<Write>, s'': Store,
                                      counters: set<string>, me: nat, mine: seq<Commit>, mine': seq<Commit>)
    requires Effect(s, t, s', counters, me, mine) && Effect(s', u, s'', counters, me, mine')
    ensures Effect(s, t + u, s'', counters, me, mine + mine')
    decreases |u|
  {
    hide Replay;
    if u == [] {
      NoEffect(s', s'', counters, me, mine');
      assert t + u == t && mine + mine' == mine;
    } else {
      var before, w := u[..|u| - 1], u[|u| - 1];
      var mid, mine0 := EffectLast(s', u, s'', counters, me, mine');
      EffectThen(s, t, s', before, mid, counters, me, mine, mine0);
      EffectOne(s, t + before, mid, counters, me, mine + mine0, w);
      assert u == before + [w];
      Regroup(t, before, [w]);
      Regroup(mine, mine0, MineOf(w, me));
    }
  }

  /** Writes of other clients only, before and after. */
  lemma EffectQuiet(s: Store, t: seq<Write>, s': Store, u: seq<Write>, s'': Store, counters: set<string>, me: nat)
    requires Effect(s, t, s', counters, me, []) && Effect(s', u, s'', counters, me, [])
    ensures Effect(s, t + u, s'', counters, me, [])
  {
    EffectThen(s, t, s', u, s'', counters, me, [], []);
    var none: seq<Commit> := [];
    assert none + none == none;
  }

  /** Own commits, then writes of other clients only. */
  lemma EffectStill(s: Store, t: seq<Write>, s': Store, u: seq<Write>, s'': Store, counters: set<string>, me: nat,
                    mine: seq<Commit>)
    requires Effect(s, t, s', counters, me, mine) && Effect(s', u, s'', counters, me, [])
    ensures Effect(s, t + u, s'', counters, me, mine)
  {
    EffectThen(s, t, s', u, s'', counters, me, mine, []);
    assert mine + [] == mine;
  }

  /** Whatever happened, the store is valid, nothing was removed, and every counter only grew. */
  lemma {:induction false} EffectGrows(s: Store, trace: seq<Write>, s': Store, counters: set<string>, me: nat,
                                       mine: seq<Commit>, f: string)
    requires CounterDoc.Valid(s, counters) && f in counters
    requires Effect(s, trace, s', counters, me, mine)
    ensures CounterDoc.Valid(s', counters)
    ensures s.log <= s'.log && s.commits <= s'.commits
    ensures CounterValue(s.fields, f) <= CounterValue(s'.fields, f)
    decreases |trace|
  {
    if trace == [] {
    } else {
      var (mid, mine0) := Replay(s, trace[..|trace| - 1], counters, me).value;
      EffectGrows(s, trace[..|trace| - 1], mid, counters, me, mine0, f);
      match trace[|trace| - 1]
      case Tx(c) => ApplyKeepsValid(mid, c, counters); CounterNotNegative(mid, counters, f);
      case MergeField(_, _) =>
    }
  }

  /** The commits of one client, in order. */
  function CommitsBy(cs: seq<Commit>, me: nat): seq<Commit> {
    if cs == [] then []
    else CommitsBy(cs[..|cs| - 1], me) + if cs[|cs| - 1].client == me then [cs[|cs| - 1]] else []
  }

  /** The reported commits are exactly what the history gained for this client. */
  lemma {:induction false} EffectRecorded(s: Store, trace: seq<Write>, s': Store, counters: set<string>,
                                          me: nat, mine: seq<Commit>)
    requires Effect(s, trace, s', counters, me, mine)
    ensures CommitsBy(s'.commits, me) == CommitsBy(s.commits, me) + mine
    decreases |trace|
  {
    if trace == [] {
      assert CommitsBy(s.commits, me) + mine == CommitsBy(s.commits, me);
    } else {
      var w := trace[|trace| - 1];
      var (mid, mine0) := Replay(s, trace[..|trace| - 1], counters, me).value;
      EffectRecorded(s, trace[..|trace| - 1], mid, counters, me, mine0);
      if w.Tx? {
        assert s'.commits[..|s'.commits| - 1] == mid.commits;
      }
    }
  }

  lemma CounterNotNegative(s: Store, counters: set<string>, f: string)
    requires CounterDoc.Valid(s, counters) && f in counters
    ensures CounterValue(s.fields, f) >= 0
  {
    if Stored(s.fields, f).Some? {
      Tiling(s.commits, f);
    }
  }

  /** Equal up to the index field. */
  predicate SameUpToIdx(a: Doc, b: Doc) {
    Numbered(a, 0) == Numbered(b, 0)
  }

  ghost predicate AllSameUpToIdx(a: seq<Doc>, b: seq<Doc>) {
    |a| == |b| && forall k :: 0 <= k < |a| ==> SameUpToIdx(a[k], b[k])
  }

  lemma RenumberSame(a: Doc, b: Doc, i: int)
    requires SameUpToIdx(a, b)
    ensures Numbered(a, i) == Numbered(b, i)
    ensures SameUpToIdx(Numbered(a, i), b)
  {
    assert Numbered(a, i) == Numbered(Numbered(a, 0), i);
    assert Numbered(b, i) == Numbered(Numbered(b, 0), i);
    assert Numbered(Numbered(a, i), 0) == Numbered(a, 0);
  }

  /** The loop of the transaction body: number the documents in place, up to `stop`, and
      hand each one to the transaction. */
  method NumberDocs(docs: array<Doc>, lo: nat, stop: nat, hi: nat, start: int, ghost orig: seq<Doc>)
    returns (index: int, creates: seq<Doc>)
    requires lo <= stop <= hi <= docs.Length
    requires AllSameUpToIdx(docs[lo..hi], orig)
    modifies docs
    ensures index == start + (stop - lo)
    ensures creates == Stamp(orig[..stop - lo], start) && docs[lo..stop] == creates
    ensures |orig| == hi - lo
    ensures forall k :: 0 <= k < stop - lo ==> docs[lo + k] == orig[k][IDX := Num(start + 1 + k)]
    ensures docs[..lo] == old(docs[..lo]) && docs[hi..] == old(docs[hi..])
    ensures AllSameUpToIdx(docs[lo..hi], orig)
  {
    index, creates := start, [];
    for k := lo to stop
      invariant index == start + (k - lo)
      invariant creates == Stamp(orig[..k - lo], start)
      invariant docs[lo..k] == creates
      invariant docs[..lo] == old(docs[..lo]) && docs[hi..] == old(docs[hi..])
      invariant AllSameUpToIdx(docs[lo..hi], orig)
    {
      index := index + 1;
      ghost var was := docs[lo..hi];
      RenumberSame(docs[k], orig[k - lo], index) by {
        assert docs[lo..hi][k - lo] == docs[k];
      }
      docs[k] := Numbered(docs[k], index);
      creates := creates + [docs[k]];
      assert docs[lo..hi] == was[k - lo := docs[k]];
      assert orig[..k + 1 - lo] == orig[..k - lo] + [orig[k - lo]];
    }
  }

  class Firestore {
    var fields: Option<map<string, int>>
    var log: seq<Doc>
    ghost var commits: seq<Commit>
    const counters: set<string>

    ghost function Contents(): Store
      reads this
    {
      Store(fields, log, commits)
    }

    ghost predicate Valid()
      reads this
    {
      IDX in counters && CounterDoc.Valid(Contents(), counters)
    }

    constructor (counters: set<string>)
      ensures Valid() && Contents() == EMPTY && this.counters == counters + {IDX}
    {
      fields, log, commits := None, [], [];
      this.counters := counters + {IDX};
    }

    /** Other clients get through with whatever of `writes` the database allows. */
    method Interfere(me: nat, writes: seq<Write>) returns (changed: bool, ghost trace: seq<Write>)
      modifies this
      ensures Effect(old(Contents()), trace, Contents(), counters, me, [])
      ensures Contents() == Others(old(Contents()), writes, counters, me)
      ensures changed <==> Disturbed(old(Contents()), writes, counters, me)
    {
      hide Replay;
      hide Others;
      hide Disturbed;
      ghost var start := Contents();
      changed, trace := false, [];
      NobodyYet(start, counters, me);
      for i := 0 to |writes|
        invariant Effect(start, trace, Contents(), counters, me, [])
        invariant Contents() == Others(start, writes[..i], counters, me)
        invariant changed <==> Disturbed(start, writes[..i], counters, me)
      {
        var w := writes[i];
        OthersStep(start, writes[..i], w, counters, me);
        assert writes[..i + 1] == writes[..i] + [w];
        if Allowed(fields, w, counters) && (w.Tx? ==> w.commit.client != me) {
          EffectOne(start, trace, Contents(), counters, me, [], w);
          assert [] + MineOf(w, me) == [];
          trace := trace + [w];
          match w {
            case Tx(c) =>
              fields, log := WithField(fields, c.payload.Field(), c.End()), log + Entries(c);
              commits := commits + [c];
            case MergeField(name, value) =>
              fields := WithField(fields, name, value);
          }
          changed := true;
        }
      }
      assert writes[..|writes|] == writes;
    }

    /** The writes of a transaction, one after the other. */
    method PerformWrites(field: string, writes: seq<TxWrite>)
      modifies this
      ensures (fields, log) == AllWritten(old(fields), old(log), field, writes) && commits == old(commits)
    {
      for k := 0 to |writes|
        invariant (fields, log) == AllWritten(old(fields), old(log), field, writes[..k]) && commits == old(commits)
      {
        assert writes[..k + 1] == writes[..k] + [writes[k]];
        WrittenStep(old(fields), old(log), field, writes[..k], writes[k]);
        match writes[k] {
          case CreateCounter => fields := WithField(fields, field, 0);
          case CreateEvent(doc) => log := log + [doc];
          case SetCounter(value) => fields := WithField(fields, field, value);
        }
      }
      assert writes[..|writes|] == writes;
    }

    /** The database commits the writes of a body that read the current counter, together. */
    method Land(ghost c: Commit, field: string, writes: seq<TxWrite>)
      requires writes == BodyWrites(fields.Some?, c) && field == c.payload.Field()
      requires c.payload.Events? ==> |c.payload.docs| <= MAX_CHUNK
      modifies this
      ensures Contents() == Apply(old(Contents()), c)
      ensures fields == Some((if old(fields).Some? then old(fields).value else map[])[field := c.End()])
      ensures c.payload.Count? ==> log == old(log)
      ensures c.payload.Events? ==>
                && log[..|old(log)|] == old(log) && |log| == |old(log)| + |c.payload.docs|
                && forall k :: 0 <= k < |c.payload.docs| ==>
                     log[|old(log)| + k] == c.payload.docs[k][IDX := Num(c.base + 1 + k)]
    {
      CommitIsBody(Contents(), c);
      ApplyMeans(Contents(), c);
      PerformWrites(field, writes);
      commits := commits + [c];
    }

    /** A commit is sent: it lands, and others write before the client goes on. */
    method Send(ghost c: Commit, me: nat, field: string, writes: seq<TxWrite>, after: seq<Write>, ghost start: Store,
                ghost trace0: seq<Write>)
      returns (ghost trace: seq<Write>)
      requires CounterDoc.Valid(start, counters) && me == c.client
      requires Effect(start, trace0, Contents(), counters, me, []) && Allowed(fields, Tx(c), counters)
      requires writes == BodyWrites(fields.Some?, c) && field == c.payload.Field()
      requires c.payload.Events? ==> |c.payload.docs| <= MAX_CHUNK
      modifies this
      ensures Effect(start, trace, Contents(), counters, me, [c])
      ensures Contents() == Others(Apply(old(Contents()), c), after, counters, me)
      ensures c.End() <= CounterValue(fields, field)
    {
      hide Replay;
      hide Others;
      EffectOne(start, trace0, Contents(), counters, me, [], Tx(c));
      assert [] + [c] == [c];
      Land(c, field, writes);
      trace := trace0 + [Tx(c)];
      ghost var landed := Contents();
      EffectGrows(start, trace, landed, counters, me, [c], field);
      var _, later := Interfere(me, after);
      EffectStill(start, trace, landed, later, Contents(), counters, me, [c]);
      EffectGrows(landed, later, Contents(), counters, me, [], field);
      trace := trace + later;
    }

    /** The body reads the counter; without a stored value `captured` stays. */
    method ReadCounter(me: nat, before: seq<Write>, field: string, captured: int, ghost start: Store,
                       ghost trace0: seq<Write>)
      returns (index: int, ghost trace: seq<Write>)
      requires CounterDoc.Valid(start, counters) && field in counters && captured >= 0
      requires Effect(start, trace0, Contents(), counters, me, [])
      modifies this
      ensures Effect(start, trace, Contents(), counters, me, [])
      ensures index >= 0 && CounterValue(start.fields, field) <= index
      ensures Contents() == Others(old(Contents()), before, counters, me)
      ensures index == FirstIndex(fields, field, captured)
    {
      hide Replay;
      hide Others;
      var _, quiet := Interfere(me, before);
      EffectQuiet(start, trace0, old(Contents()), quiet, Contents(), counters, me);
      trace := trace0 + quiet;
      EffectGrows(start, trace, Contents(), counters, me, [], field);
      CounterNotNegative(Contents(), counters, field);
      var found := Stored(fields, field);
      index := if found.Some? then found.value else captured;
    }

    /** The body is through or cut short, others write, and the try ends.  Commit c is sent if
        the body went through and nothing changed since it read the counter, and only then. */
    method EndTry(ghost c: Commit, me: nat, field: string, writes: seq<TxWrite>, attempt: Try, ghost start: Store,
                  ghost trace0: seq<Write>)
      returns (sent: bool, ghost trace: seq<Write>, ghost mine: seq<Commit>)
      requires CounterDoc.Valid(start, counters) && me == c.client && field == c.payload.Field() && field in counters
      requires Effect(start, trace0, Contents(), counters, me, []) && Accepted(fields, c)
      requires c.payload.Events? ==> |c.payload.docs| <= MAX_CHUNK
      requires Sends(attempt.ending) ==> writes == BodyWrites(fields.Some?, c)
      modifies this
      ensures Effect(start, trace, Contents(), counters, me, mine)
      ensures mine == if sent then [c] else []
      ensures sent <==> Sends(attempt.ending) && !Disturbed(old(Contents()), attempt.during, counters, me)
      ensures sent ==> c.End() <= CounterValue(fields, field)
      ensures Contents() == if sent then Others(Apply(old(Contents()), c), attempt.after, counters, me)
              else Others(old(Contents()), attempt.during, counters, me)
    {
      hide Replay;
      hide Others;
      hide Disturbed;
      ghost var read := Contents();
      var changed, during := Interfere(me, attempt.during);
      EffectQuiet(start, trace0, read, during, Contents(), counters, me);
      trace, mine := trace0 + during, [];
      sent := !changed && Sends(attempt.ending);
      if sent {
        UndisturbedStays(read, attempt.during, counters, me);
        trace := Send(c, me, field, writes, attempt.after, start, trace);
        mine := [c];
      }
    }

    /** The transaction body behind the read of the counter: what it counts `index` up to, and the
        writes it hands to the transaction. */
    method RunBody(ghost me: nat, docs: array<Doc>, lo: nat, hi: nat, base: int, ending: Ending, found: bool,
                   ghost orig: seq<Doc>)
      returns (index: int, writes: seq<TxWrite>)
      requires lo < hi <= docs.Length && hi - lo <= MAX_CHUNK && AllSameUpToIdx(docs[lo..hi], orig)
      modifies docs
      ensures docs[..lo] == old(docs[..lo]) && docs[hi..] == old(docs[hi..]) && AllSameUpToIdx(docs[lo..hi], orig)
      ensures index == base + (if ending.CutShort? && ending.n < hi - lo then ending.n else hi - lo)
      ensures !ending.CutShort? ==>
                docs[lo..hi] == Stamp(orig, base) && writes == BodyWrites(found, Commit(me, Events(orig), base))
      ensures |writes| <= 500
    {
      hide Stamp;
      var stop := if ending.CutShort? then Min(lo + ending.n, hi) else hi;
      var creates;
      index, creates := NumberDocs(docs, lo, stop, hi, base, orig);
      writes := FirstWrites(found) + Creates(creates);
      if !ending.CutShort? {
        writes := writes + [SetCounter(index)];
        assert orig[..hi - lo] == orig;
      }
      EventsBody(found, Commit(me, Events(orig), base));
    }

    /** One try of the transaction that stores docs[lo..hi]; `sent` says that the commit went
        through.  The index captured from earlier tries counts when no index is stored.
        `writes` is what the body handed to the transaction. */
    method TryWrite(me: nat, docs: array<Doc>, lo: nat, hi: nat, captured: int, attempt: Try,
                    ghost start: Store, ghost trace0: seq<Write>, ghost orig: seq<Doc>)
      returns (index: int, sent: bool, writes: seq<TxWrite>, ghost trace: seq<Write>, ghost mine: seq<Commit>,
               ghost base: int)
      requires IDX in counters && CounterDoc.Valid(start, counters) && captured >= 0
      requires lo < hi <= docs.Length && hi - lo <= MAX_CHUNK
      requires Effect(start, trace0, Contents(), counters, me, []) && AllSameUpToIdx(docs[lo..hi], orig)
      modifies this, docs
      ensures index >= 0 && Effect(start, trace, Contents(), counters, me, mine)
      ensures docs[..lo] == old(docs[..lo]) && docs[hi..] == old(docs[hi..]) && AllSameUpToIdx(docs[lo..hi], orig)
      ensures mine == if sent then [Commit(me, Events(orig), base)] else []
      ensures TryRun(Contents(), index, sent, base) ==
                RunTry(old(Contents()), attempt, Events(orig), captured, counters, me)
      ensures sent ==> docs[lo..hi] == Stamp(orig, base) && Sends(attempt.ending)
      ensures sent ==> CounterValue(start.fields, IDX) <= base && index == base + (hi - lo) <= CounterValue(fields, IDX)
      ensures |writes| <= 500
      ensures var read := Others(old(Contents()), attempt.before, counters, me).fields;
              && base == (if read.Some? && IDX in read.value then read.value[IDX] else captured)
              && index == base +
                   (if attempt.ending.CutShort? && attempt.ending.n < hi - lo then attempt.ending.n else hi - lo)
      ensures attempt.before == [] ==>
                base == if old(fields).Some? && IDX in old(fields).value then old(fields).value[IDX] else captured
    {
      hide Replay;
      hide Others;
      hide Disturbed;
      hide RunTry;
      ghost var was := Contents();
      NobodyYet(was, counters, me);
      index, trace := ReadCounter(me, attempt.before, IDX, captured, start, trace0);
      ghost var read := Contents();
      base := index;
      index, writes := RunBody(me, docs, lo, hi, index, attempt.ending, fields.Some?, orig);
      sent, trace, mine := EndTry(Commit(me, Events(orig), base), me, IDX, writes, attempt, start, trace);
      TryIs(was, attempt, Events(orig), captured, read, Others(read, attempt.during, counters, me), Contents(), sent,
            counters, me);
    }

    /** The transaction of WriteAll, run again until a try decides. */
    method WriteTx(me: nat, docs: array<Doc>, lo: nat, hi: nat, tries: seq<Try>)
      returns (r: Result<int, TxError>, ghost trace: seq<Write>, ghost mine: seq<Commit>, ghost base: int)
      requires Valid() && lo < hi <= docs.Length && hi - lo <= MAX_CHUNK
      modifies this, docs
      ensures docs[..lo] == old(docs[..lo]) && docs[hi..] == old(docs[hi..])
      ensures AllSameUpToIdx(docs[lo..hi], old(docs[lo..hi])) && (r.Err? ==> r.error != TooMany)
      ensures Effect(old(Contents()), trace, Contents(), counters, me, mine)
      ensures mine == if r.Ok? || r.error == Unknown then [Commit(me, Events(old(docs[lo..hi])), base)] else []
      ensures Outcome(RunTries(old(Contents()), tries, Events(old(docs[lo..hi])), 0, counters, me),
                  Events(old(docs[lo..hi])), me, Contents(), r, mine)
      ensures r.Ok? ==> docs[lo..hi] == Stamp(old(docs[lo..hi]), base)
      ensures r.Ok? ==>
                && old(CounterValue(fields, IDX)) <= base
                && r.value == base + (hi - lo) <= CounterValue(fields, IDX)
    {
      hide Replay;
      hide RunTries;
      EffectStarts(Contents(), counters, me);
      trace, mine, base := [], [], 0;
      ghost var orig, start := docs[lo..hi], Contents();
      ghost var all := RunTries(start, tries, Events(orig), 0, counters, me);
      var index, sent, t, writes := 0, false, 0, [];
      assert tries[0..] == tries;
      while t < |tries| && !sent
        invariant t <= |tries| && index >= 0 && Effect(start, trace, Contents(), counters, me, mine)
        invariant docs[..lo] == old(docs[..lo]) && docs[hi..] == old(docs[hi..]) && AllSameUpToIdx(docs[lo..hi], orig)
        invariant mine == if sent then [Commit(me, Events(orig), base)] else []
        invariant sent ==> t > 0 && docs[lo..hi] == Stamp(orig, base)
        invariant sent ==>
                  && CounterValue(start.fields, IDX) <= base
                  && index == base + (hi - lo) <= CounterValue(fields, IDX)
        invariant all == if sent then TxRun(Contents(), Landed(base, tries[t - 1].ending.Commits?))
                         else RunTries(Contents(), tries[t..], Events(orig), index, counters, me)
      {
        TriesStep(Contents(), tries, t, Events(orig), index, counters, me);
        index, sent, writes, trace, mine, base := TryWrite(me, docs, lo, hi, index, tries[t], start, trace, orig);
        if tries[t].ending.GivesUp? {
          return Err(NotRetried), trace, mine, base;
        }
        t := t + 1;
      }
      if !sent {
        NoTriesLeft(Contents(), tries, t, Events(orig), index, counters, me);
        return Err(Contended), trace, mine, base;
      }
      r := if tries[t - 1].ending.Commits? then Ok(index) else Err(Unknown);
    }

    /** Store docs[lo..hi] as the next events, in one transaction. */
    method WriteAll(me: nat, docs: array<Doc>, lo: nat, hi: nat, tries: seq<Try>)
      returns (r: Result<int, TxError>, ghost trace: seq<Write>, ghost mine: seq<Commit>, ghost base: int)
      requires Valid() && lo < hi <= docs.Length
      modifies this, docs
      ensures docs[..lo] == old(docs[..lo]) && docs[hi..] == old(docs[hi..])
      ensures AllSameUpToIdx(docs[lo..hi], old(docs[lo..hi]))
      ensures r == Err(TooMany) <==> hi - lo > 498
      ensures Effect(old(Contents()), trace, Contents(), counters, me, mine)
      ensures mine == if r.Ok? || r.error == Unknown then [Commit(me, Events(old(docs[lo..hi])), base)] else []
      ensures hi - lo <= MAX_CHUNK ==>
                Outcome(RunTries(old(Contents()), tries, Events(old(docs[lo..hi])), 0, counters, me),
                    Events(old(docs[lo..hi])), me, Contents(), r, mine)
      ensures hi - lo <= 498 && QuietTries(tries) ==>
                && (r.Ok? <==> Acknowledged(tries))
                && (r.Ok? ==> base == QuietBase(old(fields), tries, Events(old(docs[lo..hi])), 0))
      ensures hi - lo <= 498 && tries == [] ==> r == Err(Contended)
      ensures hi - lo <= 498 && QuietTries(tries) && tries != [] && !tries[0].ending.CutShort? ==>
                && (r.Ok? <==> tries[0].ending.Commits?)
                && (r == Err(Unknown) <==> tries[0].ending.ReplyLost?)
                && (r == Err(NotRetried) <==> tries[0].ending.GivesUp?)
      ensures var stored := old(fields).Some? && IDX in old(fields).value;
              && (r.Ok? && QuietTries(tries) && stored ==> base == old(fields).value[IDX])
              && (r.Ok? && QuietTries(tries) && !stored && tries[0].ending.Commits? ==> base == 0)
              && (hi - lo <= 498 && QuietTries(tries) && !stored && CutOnce(tries) ==>
                    var n := tries[0].ending.n;
                    r.Ok? && base == if n < hi - lo then n else hi - lo)
      ensures r.Ok? ==> docs[lo..hi] == Stamp(old(docs[lo..hi]), base)
      ensures r.Ok? ==>
                && old(CounterValue(fields, IDX)) <= base
                && r.value == base + (hi - lo) <= CounterValue(fields, IDX)
    {
      hide Replay;
      hide RunTries;
      hide CutTries;
      hide TakenBy;
      if hi - lo > MAX_CHUNK {
        EffectStarts(Contents(), counters, me);
        return Err(TooMany), [], [], 0;
      }
      QuietTx(Contents(), tries, Events(docs[lo..hi]), counters, me);
      r, trace, mine, base := WriteTx(me, docs, lo, hi, tries);
    }

    /** One try of the increment transaction; `sent` says that the commit went through. */
    method TryIncrement(me: nat, name: string, n: nat, captured: int, attempt: Try, ghost start: Store,
                        ghost trace0: seq<Write>)
      returns (index: int, sent: bool, ghost trace: seq<Write>, ghost mine: seq<Commit>, ghost base: int)
      requires CounterDoc.Valid(start, counters) && IDX in counters && name in counters && n >= 1 && captured >= 0
      requires Effect(start, trace0, Contents(), counters, me, [])
      modifies this
      ensures index >= 0 && Effect(start, trace, Contents(), counters, me, mine)
      ensures TryRun(Contents(), index, sent, base) ==
                RunTry(old(Contents()), attempt, Count(name, n), captured, counters, me)
      ensures sent ==> Sends(attempt.ending) && base == index - n && index <= CounterValue(fields, name)
      ensures mine == if sent then [Commit(me, Count(name, n), base)] else []
      ensures var read := Others(old(Contents()), attempt.before, counters, me).fields;
              && base == (if read.Some? && name in read.value then read.value[name] else captured)
              && index == base + (if attempt.ending == CutShort(0) then 0 else n)
      ensures attempt.before == [] ==>
                base == if old(fields).Some? && name in old(fields).value then old(fields).value[name] else captured
    {
      hide Replay;
      hide Others;
      hide Disturbed;
      hide RunTry;
      ghost var was := Contents();
      NobodyYet(was, counters, me);
      index, trace := ReadCounter(me, attempt.before, name, captured, start, trace0);
      ghost var read := Contents();
      base := index;
      ghost var c := Commit(me, Count(name, n), base);
      var writes := FirstWrites(fields.Some?);
      if !attempt.ending.CutShort? || attempt.ending.n > 0 {
        index := index + n;
        writes := writes + [SetCounter(index)];
        CountBody(fields.Some?, c);
      }
      sent, trace, mine := EndTry(c, me, name, writes, attempt, start, trace);
      TryIs(was, attempt, Count(name, n), captured, read, Others(read, attempt.during, counters, me), Contents(), sent,
            counters, me);
    }

    /** The transaction of Increment, run again until a try decides. */
    method IncrementTx(me: nat, name: string, n: nat, tries: seq<Try>)
      returns (r: Result<int, TxError>, ghost trace: seq<Write>, ghost mine: seq<Commit>, ghost base: int)
      requires Valid() && name in counters && n >= 1
      modifies this
      ensures Effect(old(Contents()), trace, Contents(), counters, me, mine) && (r.Err? ==> r.error != TooSmall)
      ensures Outcome(RunTries(old(Contents()), tries, Count(name, n), 0, counters, me), Count(name, n), me,
                  Contents(), r, mine)
      ensures mine == if r.Ok? || r.error == Unknown then [Commit(me, Count(name, n), base)] else []
      ensures r.Ok? ==> r.value == base + n <= CounterValue(fields, name)
    {
      hide Replay;
      hide RunTries;
      EffectStarts(Contents(), counters, me);
      trace, mine, base := [], [], 0;
      ghost var start := Contents();
      ghost var all := RunTries(start, tries, Count(name, n), 0, counters, me);
      var index, sent, t := 0, false, 0;
      assert tries[0..] == tries;
      while t < |tries| && !sent
        invariant t <= |tries| && index >= 0 && Effect(start, trace, Contents(), counters, me, mine)
        invariant mine == if sent then [Commit(me, Count(name, n), base)] else []
        invariant sent ==> t > 0 && base == index - n && index <= CounterValue(fields, name)
        invariant all == if sent then TxRun(Contents(), Landed(base, tries[t - 1].ending.Commits?))
                         else RunTries(Contents(), tries[t..], Count(name, n), index, counters, me)
      {
        TriesStep(Contents(), tries, t, Count(name, n), index, counters, me);
        index, sent, trace, mine, base := TryIncrement(me, name, n, index, tries[t], start, trace);
        if tries[t].ending.GivesUp? {
          return Err(NotRetried), trace, mine, base;
        }
        t := t + 1;
      }
      if !sent {
        NoTriesLeft(Contents(), tries, t, Count(name, n), index, counters, me);
        return Err(Contended), trace, mine, base;
      }
      r := if tries[t - 1].ending.Commits? then Ok(index) else Err(Unknown);
    }

    /** Take the next n numbers of a counter: the last and the first of them. */
    method Increment(me: nat, name: string, n: int, tries: seq<Try>)
      returns (r: Result<(int, int), TxError>, ghost trace: seq<Write>, ghost mine: seq<Commit>, ghost base: int)
      requires Valid() && name in counters
      modifies this
      ensures Effect(old(Contents()), trace, Contents(), counters, me, mine)
      ensures r == Err(TooSmall) <==> n < 1
      ensures n >= 1 ==>
                Outcome(RunTries(old(Contents()), tries, Count(name, n), 0, counters, me), Count(name, n), me,
                    Contents(), LastOf(r), mine)
      ensures n >= 1 && QuietTries(tries) ==>
                && (r.Ok? <==> Acknowledged(tries))
                && (r.Ok? ==> base == QuietBase(old(fields), tries, Count(name, n), 0))
      ensures n >= 1 && tries == [] ==> r == Err(Contended)
      ensures n >= 1 && QuietTries(tries) && tries != [] && !tries[0].ending.CutShort? ==>
                && (r.Ok? <==> tries[0].ending.Commits?)
                && (r == Err(Unknown) <==> tries[0].ending.ReplyLost?)
                && (r == Err(NotRetried) <==> tries[0].ending.GivesUp?)
      ensures var stored := old(fields).Some? && name in old(fields).value;
              && (r.Ok? && QuietTries(tries) && stored ==> base == old(fields).value[name])
              && (r.Ok? && QuietTries(tries) && !stored && tries[0].ending.Commits? ==> base == 0)
              && (n >= 1 && QuietTries(tries) && !stored && CutOnce(tries) ==>
                    r.Ok? && base == if tries[0].ending.n > 0 then n else 0)
      ensures r.Ok? && QuietTries(tries) ==>
                fields.Some? && name in fields.value && fields.value[name] == base + n && log == old(log)
      ensures r.Ok? || r.error == Unknown ==> n >= 1 && mine == [Commit(me, Count(name, n), base)]
      ensures r.Err? && r.error != Unknown ==> mine == []
      ensures r.Ok? ==> r.value == (base + n, base + 1) && base + n <= CounterValue(fields, name)
    {
      hide Replay;
      hide RunTries;
      hide CutTries;
      hide TakenBy;
      if n < 1 {
        EffectStarts(Contents(), counters, me);
        return Err(TooSmall), [], [], 0;
      }
      QuietTx(Contents(), tries, Count(name, n), counters, me);
      var last;
      last, trace, mine, base := IncrementTx(me, name, n, tries);
      r := if last.Ok? then Ok((last.value, last.value - n + 1)) else Err(last.error);
    }

    /** One round of the chunk loop, whose earlier rounds had the effect trace0, mine0. */
    method AddChunk(me: nat, docs: array<Doc>, lo: nat, hi: nat, tries: seq<Try>, ghost start: Store,
                    ghost trace0: seq<Write>, ghost mine0: seq<Commit>)
      returns (r: Result<int, TxError>, ghost trace: seq<Write>, ghost landed: seq<Commit>, ghost base: int)
      requires IDX in counters && CounterDoc.Valid(start, counters) && lo < hi <= docs.Length
      requires Effect(start, trace0, Contents(), counters, me, mine0)
      modifies this, docs
      ensures Effect(start, trace, Contents(), counters, me, mine0 + landed)
      ensures ChunkWritten(old(docs[..]), docs[..], lo, hi, me, r, landed, base)
      ensures hi - lo <= MAX_CHUNK ==>
                Outcome(RunTries(old(Contents()), tries, Events(old(docs[lo..hi])), 0, counters, me),
                    Events(old(docs[lo..hi])), me, Contents(), r, landed)
      ensures r.Ok? ==> old(CounterValue(fields, IDX)) <= base && base + (hi - lo) <= CounterValue(fields, IDX)
    {
      hide Replay;
      hide RunTries;
      ghost var was, prior := docs[..], Contents();
      EffectGrows(start, trace0, prior, counters, me, mine0, IDX);
      ghost var more;
      r, more, landed, base := WriteAll(me, docs, lo, hi, tries);
      EffectThen(start, trace0, prior, more, Contents(), counters, me, mine0, landed);
      trace := trace0 + more;
      assert docs[..][..lo] == was[..lo] && docs[..][hi..] == was[hi..];
      assert docs[..][lo..hi] == docs[lo..hi] && was[lo..hi] == old(docs[lo..hi]);
    }

    /** Chunk number i of EventsAdd, as the batch of documents orig at position pos runs on: what is
        stored afterwards, and how far the loop has come. */
    method StoreChunk(me: nat, docs: array<Doc>, pos: nat, chunk: nat, nets: seq<seq<Try>>, i: nat,
                      ghost start: Store, ghost orig: seq<Doc>, ghost trace0: seq<Write>, ghost mine0: seq<Commit>,
                      ghost idx: int, ghost all: BatchRun)
      returns (r: Result<int, TxError>, ghost trace: seq<Write>, ghost mine: seq<Commit>, ghost stored: nat)
      requires IDX in counters && CounterDoc.Valid(start, counters)
      requires Effect(start, trace0, Contents(), counters, me, mine0)
      requires Progress(docs[..], orig, pos, mine0, CounterValue(fields, IDX), idx)
      requires pos < docs.Length && chunk == Min(MAX_CHUNK, docs.Length - pos)
      requires LeftToRun(all, mine0, Contents(), orig, pos, nets, i, counters, me)
      modifies this, docs
      ensures Effect(start, trace, Contents(), counters, me, mine) && ChunksStored(mine, orig, stored)
      ensures r.Ok? ==> stored == pos + chunk && Progress(docs[..], orig, stored, mine, CounterValue(fields, IDX),
              r.value)
      ensures r.Err? && r.error != Unknown ==> stored == pos
      ensures AllSameUpToIdx(docs[..], orig)
      ensures r.Ok? ==> LeftToRun(all, mine, Contents(), orig, pos + chunk, nets, i + 1, counters, me)
      ensures r.Err? ==> all == BatchRun(Contents(), mine, Some(r.error))
    {
      hide Replay;
      hide RunTries;
      hide RunBatch;
      hide ChunksStored;
      hide NumberedBy;
      ghost var was, counter, landed, base := docs[..], CounterValue(fields, IDX), [], 0;
      ChunkUntouched(was, orig, pos, chunk, mine0, counter, idx);
      ghost var before := Contents();
      r, trace, landed, base := AddChunk(me, docs, pos, pos + chunk, NetOf(nets, i), start, trace0, mine0);
      mine, stored :=
        ChunkOutcome(was, docs[..], orig, pos, chunk, mine0, me, r, landed, base, counter, CounterValue(fields, IDX),
            idx);
      BatchAfterChunk(all, mine0, before, orig, pos, chunk, nets, i, counters, me, Contents(), r, landed);
    }

    /** The loop over the chunks. */
    method AddChunks(me: nat, docs: array<Doc>, tries: seq<seq<Try>>)
      returns (r: Result<int, TxError>, ghost trace: seq<Write>, ghost mine: seq<Commit>, ghost stored: nat)
      requires Valid()
      modifies this, docs
      ensures Effect(old(Contents()), trace, Contents(), counters, me, mine)
      ensures ChunksStored(mine, old(docs[..]), stored)
      ensures BatchRun(Contents(), mine, ErrorOf(r)) == RunBatch(old(Contents()), old(docs[..]), tries, counters, me)
      ensures r.Ok? ==> stored == docs.Length && NumberedInOrder(docs[..], old(docs[..])) && docs[..] == LogOf(mine)
      ensures r.Ok? ==> r.value == if docs.Length == 0 then 0 else Idx(docs[..][docs.Length - 1])
      ensures r.Err? && r.error != Unknown ==> stored < docs.Length
      ensures AllSameUpToIdx(docs[..], old(docs[..]))
    {
      hide Replay;
      hide RunTries;
      hide RunBatch;
      hide Stamp;
      hide Following;
      hide ChunksStored;
      hide NumberedBy;
      ghost var orig, start := docs[..], Contents();
      ghost var all := RunBatch(start, orig, tries, counters, me);
      var pos, remaining, idx := 0, docs.Length, 0;
      var chunks := 0;
      trace, mine, stored := [], [], 0;
      EffectStarts(start, counters, me);
      ProgressStarts(orig, CounterValue(fields, IDX));
      BatchStarts(start, orig, tries, counters, me);
      while remaining > 0
        invariant pos + remaining == docs.Length && chunks >= 0 && stored == pos
        invariant Effect(start, trace, Contents(), counters, me, mine)
        invariant Progress(docs[..], orig, pos, mine, CounterValue(fields, IDX), idx)
        invariant LeftToRun(all, mine, Contents(), orig, pos, tries, chunks, counters, me)
      {
        var chunk := Min(MAX_CHUNK, remaining);
        var bidx;
        bidx, trace, mine, stored :=
          StoreChunk(me, docs, pos, chunk, tries, chunks, start, orig, trace, mine, idx, all);
        if bidx.Err? {
          return Err(bidx.error), trace, mine, stored;
        }
        pos := pos + chunk;
        remaining := remaining - chunk;
        idx := bidx.value;
        chunks := chunks + 1;
      }
      ProgressDone(docs[..], orig, mine, CounterValue(fields, IDX), idx);
      BatchEnds(all, mine, Contents(), orig, tries, chunks, counters, me);
      return Ok(idx), trace, mine, stored;
    }

    /** Store all documents, MAX_CHUNK at a time.  Chunk number i meets the network tries[i].
        `stored` documents are stored: all of them, or on failure the first chunks. */
    method EventsAdd(me: nat, docs: array<Doc>, tries: seq<seq<Try>>)
      returns (r: Result<int, TxError>, ghost trace: seq<Write>, ghost mine: seq<Commit>, ghost stored: nat)
      requires Valid()
      modifies this, docs
      ensures Effect(old(Contents()), trace, Contents(), counters, me, mine)
      ensures ChunksStored(mine, old(docs[..]), stored)
      ensures BatchRun(Contents(), mine, ErrorOf(r)) == RunBatch(old(Contents()), old(docs[..]), tries, counters, me)
      ensures QuietNets(tries) ==>
                && (r.Ok? <==> AllAcknowledged(tries, docs.Length))
                && (r.Ok? ==> docs[..] == Stamp(old(docs[..]), BatchBase(old(fields), tries, old(docs[..]))))
      ensures QuietNets(tries) && r.Ok? ==> log == old(log) + docs[..]
      ensures QuietNets(tries) && r.Ok? && docs.Length > 0 ==>
                var found := old(fields).Some? && IDX in old(fields).value;
                && tries != [] && tries[0] != []
                && forall i :: 0 <= i < docs.Length ==>
                     && IDX in docs[i] && docs[i][IDX].Num?
                     && (found ==> docs[i][IDX].n == old(fields).value[IDX] + 1 + i)
                     && (!found && tries[0][0].ending.Commits? ==> docs[i][IDX].n == 1 + i)
                     && (!found && CutOnce(tries[0]) ==>
                           var n, size := tries[0][0].ending.n, if docs.Length < 498 then docs.Length else 498;
                           docs[i][IDX].n == (if n < size then n else size) + 1 + i)
      ensures forall i :: 0 <= i < docs.Length ==> docs[i] - {IDX} == old(docs[i]) - {IDX}
      ensures r.Ok? ==> forall i :: 0 <= i < docs.Length ==> docs[i] in log
      ensures stored == if 498 * |mine| < docs.Length then 498 * |mine| else docs.Length
      ensures docs.Length <= 498 ==> stored == 0 || (stored == docs.Length && |mine| <= 1)
      ensures r.Ok? ==> stored == docs.Length && NumberedInOrder(docs[..], old(docs[..])) && docs[..] == LogOf(mine)
      ensures r.Ok? ==> r.value == if docs.Length == 0 then 0 else Idx(docs[..][docs.Length - 1])
      ensures r.Err? && r.error != Unknown ==> stored < docs.Length
      ensures AllSameUpToIdx(docs[..], old(docs[..]))
    {
      hide Replay;
      hide RunBatch;
      hide LogOf;
      hide CutTries;
      hide TakenBy;
      hide Stamp;
      hide ChunksStored;
      ghost var orig, start := docs[..], Contents();
      r, trace, mine, stored := AddChunks(me, docs, tries);
      EffectLogs(start, trace, Contents(), counters, me, mine);
      ChunksAre(mine, orig, stored);
      SameFields(docs[..], orig);
      QuietAdd(start, orig, tries, counters, me, docs[..]);
      assert forall i :: 0 <= i < docs.Length ==> docs[..][i] == docs[i] && orig[i] == old(docs[i]);
    }

    /** One batch of deletes.  The documents have random names, so the database lists them in
        any order: picks says which one comes next. */
    method DeleteBatch(batchSize: nat, picks: seq<nat>) returns (numDeleted: nat)
      requires Increasing(log)
      modifies this`log
      ensures numDeleted == Min(batchSize, |old(log)|) && |log| == |old(log)| - numDeleted
      ensures Remains(log, old(log))
    {
      numDeleted := 0;
      while numDeleted < batchSize && log != []
        invariant numDeleted <= batchSize && |log| + numDeleted == |old(log)|
        invariant Remains(log, old(log))
      {
        var i := if numDeleted < |picks| then picks[numDeleted] % |log| else 0;
        RemoveOne(log, i, old(log));
        log := log[..i] + log[i + 1..];
        numDeleted := numDeleted + 1;
      }
    }

    /** Delete the log batch by batch until a batch is empty.  nets[i] is what others write before
        batch i, and fails says after how many batches the database stops answering. */
    method DeleteCollection(me: nat, batchSize: nat, picks: seq<seq<nat>>, nets: seq<seq<Write>>, fails: Option<nat>)
      returns (ok: bool)
      requires batchSize > 0 && IDX in counters && Ordered(Contents())
      modifies this
      ensures Ordered(Contents()) && (ok ==> log == []) && (fails.None? ==> ok)
      ensures CounterValue(old(fields), IDX) <= CounterValue(fields, IDX)
      ensures nets == [] ==> fields == old(fields) && Remains(log, old(log))
    {
      hide Replay;
      hide Others;
      hide Disturbed;
      var batches := 0;
      while true
        invariant batches >= 0 && Ordered(Contents())
        invariant CounterValue(old(fields), IDX) <= CounterValue(fields, IDX)
        invariant nets == [] ==> fields == old(fields) && Remains(log, old(log))
        decreases if batches < |nets| then |nets| - batches else 0, |log|
      {
        if fails.Some? && batches >= fails.value {
          return false;
        }
        var writes := if batches < |nets| then nets[batches] else [];
        OthersKeepOrder(Contents(), writes, counters, me);
        NobodyYet(Contents(), counters, me);
        var _, _ := Interfere(me, writes);
        ghost var before := log;
        var numDeleted := DeleteBatch(batchSize, if batches < |picks| then picks[batches] else []);
        RemainsBelow(log, before, CounterValue(fields, IDX));
        if nets == [] {
          RemainsStill(log, before, old(log));
        }
        batches := batches + 1;
        if numDeleted == 0 {
          return true;
        }
      }
    }

    /** All events and then the counter document go.  Others may write before each batch, before
        the counter is looked up, and before it is deleted; `emptied` is the store when the last
        batch found nothing.  What is left of the log is exactly what others added since then,
        and the log can start again from nothing if and only if that is nothing.  When the call
        fails on the way, events added later still get higher numbers than those left. */
    method EventsDelete(me: nat, picks: seq<seq<nat>>, nets: seq<seq<Write>>, fails: Option<nat>,
                        last: seq<Write>, lookupFails: bool, gap: seq<Write>, deleteFails: bool)
      returns (r: Option<bool>, ghost emptied: Store)
      requires Valid()
      modifies this
      ensures r.None? ==> Ordered(Contents()) && CounterValue(old(fields), IDX) <= CounterValue(fields, IDX)
      ensures r.Some? ==> emptied.log == [] && Ordered(emptied) && fields.None? && (Valid() <==> log == [])
      ensures r == Some(true) ==> log == Others(Others(emptied, last, counters, me), gap, counters, me).log
      ensures r == Some(false) ==> log == []
      ensures nets == [] && last == [] && gap == [] ==>
                && (r.Some? ==> r.value == old(fields).Some? && Contents() == EMPTY && Valid())
                && (r.None? ==> fields == old(fields) && Remains(log, old(log)))
      ensures fails.None? && !lookupFails && !deleteFails ==> r.Some?
    {
      hide Replay;
      hide Others;
      hide Disturbed;
      hide Chained;
      hide LogOf;
      hide LastEnd;
      ValidIsOrdered(Contents(), counters);
      var ok := DeleteCollection(me, 100, picks, nets, fails);
      emptied := Contents();
      if !ok {
        return None, emptied;
      }
      OthersKeepOrder(emptied, last, counters, me);
      NobodyYet(emptied, counters, me);
      var _, _ := Interfere(me, last);
      if lookupFails {
        return None, emptied;
      }
      ValidIfNothingLeft(log, counters);
      if fields.None? {
        commits := [];
        return Some(false), emptied;
      }
      ghost var found := Contents();
      OthersKeepOrder(found, gap, counters, me);
      NobodyYet(found, counters, me);
      var _, _ := Interfere(me, gap);
      if deleteFails {
        return None, emptied;
      }
      fields, commits := None, [];
      ValidIfNothingLeft(log, counters);
      return Some(true), emptied;
    }
  }

  /** What a delete keeps on its way, whoever writes beside it: increasing indices, none above
      the counter. */
  ghost predicate Ordered(s: Store) {
    && Increasing(s.log)
    && (forall i :: 0 <= i < |s.log| ==> Idx(s.log[i]) <= CounterValue(s.fields, IDX))
    && (Stored(s.fields, IDX).None? ==> s.log == [])
    && CounterValue(s.fields, IDX) >= 0
  }

  lemma ValidIsOrdered(s: Store, counters: set<string>)
    requires CounterDoc.Valid(s, counters) && IDX in counters
    ensures Ordered(s)
  {
    LogSound(s, counters);
    NoCommitsOn(s.commits, IDX);
    CounterNotNegative(s, counters, IDX);
  }

  lemma ValidIfNothingLeft(log: seq<Doc>, counters: set<string>)
    ensures CounterDoc.Valid(Store(None, log, []), counters) <==> log == []
  {
  }

  lemma CommitKeepsOrder(s: Store, c: Commit)
    requires Ordered(s) && Accepted(s.fields, c) && c.payload.Events?
    ensures Ordered(Apply(s, c)) && CounterValue(s.fields, IDX) <= CounterValue(Apply(s, c).fields, IDX)
  {
    forall i | 0 <= i < |Entries(c)|
      ensures HasIdx(Entries(c)[i]) && Idx(Entries(c)[i]) == c.base + 1 + i
    {
      EntryIdx(c, i);
    }
    AppendIncreasing(s.log, Entries(c), c.base, c.End());
  }

  lemma CountKeepsOrder(s: Store, c: Commit)
    requires Ordered(s) && Accepted(s.fields, c) && c.payload.Count?
    ensures Ordered(Apply(s, c)) && CounterValue(s.fields, IDX) <= CounterValue(Apply(s, c).fields, IDX)
  {
    assert s.log + Entries(c) == s.log;
  }

  lemma PerformKeepsOrder(s: Store, w: Write, counters: set<string>)
    requires Ordered(s) && Allowed(s.fields, w, counters) && IDX in counters
    ensures Ordered(Perform(s, w)) && CounterValue(s.fields, IDX) <= CounterValue(Perform(s, w).fields, IDX)
  {
    match w
    case MergeField(_, _) =>
    case Tx(c) =>
      if c.payload.Events? {
        CommitKeepsOrder(s, c);
      } else {
        CountKeepsOrder(s, c);
      }
  }

  lemma {:induction false} OthersKeepOrder(s: Store, writes: seq<Write>, counters: set<string>, me: nat)
    requires Ordered(s) && IDX in counters
    ensures var s' := Others(s, writes, counters, me);
            Ordered(s') && CounterValue(s.fields, IDX) <= CounterValue(s'.fields, IDX)
    decreases |writes|
  {
    if writes == [] {
    } else {
      var front, w := writes[..|writes| - 1], writes[|writes| - 1];
      OthersKeepOrder(s, front, counters, me);
      var mid := Others(s, front, counters, me);
      if Passes(mid.fields, w, counters, me) {
        PerformKeepsOrder(mid, w, counters);
      }
    }
  }

  /** Once the counter is gone the next events start at 1 again: with events left over their
      indices are taken or passed already, and without any all is well. */
  lemma StartAgainIff(log: seq<Doc>, docs: seq<Doc>)
    requires Increasing(log) && docs != []
    ensures Increasing(log + Stamp(docs, 0)) <==> log == []
  {
    var all, added := log + Stamp(docs, 0), Stamp(docs, 0);
    if log == [] {
      AppendIncreasing(log, added, 0, |docs|);
    } else {
      assert all[0] == log[0] && all[|log|] == added[0];
      assert Idx(all[0]) >= Idx(all[|log|]);
    }
  }

  /** What a commit leaves: the counter at its end, other fields as they were, and its documents,
      each with its number, behind the log. */
  lemma ApplyMeans(s: Store, c: Commit)
    ensures var s' := Apply(s, c);
            && s'.fields == Some((if s.fields.Some? then s.fields.value else map[])[c.payload.Field() := c.End()])
            && (c.payload.Count? ==> s'.log == s.log)
            && (c.payload.Events? ==>
                  && s'.log[..|s.log|] == s.log && |s'.log| == |s.log| + |c.payload.docs|
                  && forall k :: 0 <= k < |c.payload.docs| ==>
                       s'.log[|s.log| + k] == c.payload.docs[k][IDX := Num(c.base + 1 + k)])
  {
    hide WithField;
    FieldWritten(s.fields, c.payload.Field(), c.End());
    Behind(s.log, Entries(c));
  }

  lemma FieldWritten(fields: Option<map<string, int>>, f: string, v: int)
    ensures WithField(fields, f, v) == Some((if fields.Some? then fields.value else map[])[f := v])
  {
  }

  lemma Behind(log: seq<Doc>, added: seq<Doc>)
    ensures (log + added)[..|log|] == log
    ensures forall k :: 0 <= k < |added| ==> (log + added)[|log| + k] == added[k]
    ensures added == [] ==> log + added == log
  {
  }

  /** The store, the answer and the own commits that a transaction's tries end in. */
  ghost predicate Outcome(tx: TxRun, p: Payload, me: nat, s': Store, r: Result<int, TxError>, mine: seq<Commit>) {
    s' == tx.store && r == Told(tx.end, p) && mine == Committed(tx.end, p, me)
  }

  function LastOf(r: Result<(int, int), TxError>): Result<int, TxError> {
    match r
    case Ok((last, _)) => Ok(last)
    case Err(e) => Err(e)
  }

  function ErrorOf(r: Result<int, TxError>): Option<TxError> {
    if r.Err? then Some(r.error) else None
  }

  /** Two tries, of which the first is cut short and the second is acknowledged. */
  predicate CutOnce(tries: seq<Try>) {
    |tries| == 2 && tries[0].ending.CutShort? && tries[1].ending.Commits?
  }

  lemma QuietTx(s: Store, tries: seq<Try>, p: Payload, counters: set<string>, me: nat)
    ensures var tx := RunTries(s, tries, p, 0, counters, me);
            var found := s.fields.Some? && p.Field() in s.fields.value;
            QuietTries(tries) ==>
              && (Told(tx.end, p).Ok? <==> Acknowledged(tries))
              && (tx.end.Landed? ==>
                    && tries != [] && tx.end.base == QuietBase(s.fields, tries, p, 0)
                    && (found ==> tx.end.base == s.fields.value[p.Field()])
                    && (!found && tries[0].ending.Commits? ==> tx.end.base == 0)
                    && tx.store == Apply(s, Commit(me, p, tx.end.base)))
              && (tries == [] ==> Told(tx.end, p) == Err(Contended))
              && (tries != [] && !tries[0].ending.CutShort? ==>
                    && (tries[0].ending.Commits? <==> Told(tx.end, p).Ok?)
                    && (tries[0].ending.ReplyLost? <==> Told(tx.end, p) == Err(Unknown))
                    && (tries[0].ending.GivesUp? <==> Told(tx.end, p) == Err(NotRetried)))
              && (CutOnce(tries) ==>
                    tx.end.Landed? && tx.end.acked && (!found ==> tx.end.base == Taken(tries[0].ending, p)))
  {
    if QuietTries(tries) {
      QuietTriesRun(s, tries, p, 0, counters, me);
      if tries != [] {
        QuietBases(s.fields, tries, p, 0);
      }
    }
  }

  lemma NoTriesLeft(s: Store, tries: seq<Try>, t: nat, p: Payload, captured: int, counters: set<string>, me: nat)
    requires t == |tries|
    ensures RunTries(s, tries[t..], p, captured, counters, me) == TxRun(s, RanOut)
  {
  }

  /** The commits `mine` and the rest of the batch from store s on make up the whole run. */
  predicate LeftToRun(all: BatchRun, mine: seq<Commit>, s: Store, batch: seq<Doc>, pos: nat, nets: seq<seq<Try>>,
                      i: nat, counters: set<string>, me: nat)
  {
    pos <= |batch| && all == Following(mine, RunBatch(s, batch[pos..], NetsFrom(nets, i), counters, me))
  }

  lemma BatchStarts(s: Store, batch: seq<Doc>, nets: seq<seq<Try>>, counters: set<string>, me: nat)
    ensures LeftToRun(RunBatch(s, batch, nets, counters, me), [], s, batch, 0, nets, 0, counters, me)
  {
    hide RunBatch;
    assert batch[0..] == batch && NetsFrom(nets, 0) == nets;
    var run := RunBatch(s, batch, nets, counters, me);
    assert [] + run.mine == run.mine;
  }

  /** The run from where chunk number i left off. */
  lemma BatchAfterChunk(all: BatchRun, mine: seq<Commit>, s: Store, batch: seq<Doc>, pos: nat, chunk: nat,
                        nets: seq<seq<Try>>, i: nat, counters: set<string>, me: nat, s': Store,
                        r: Result<int, TxError>, landed: seq<Commit>)
    requires LeftToRun(all, mine, s, batch, pos, nets, i, counters, me) && pos < |batch|
    requires chunk == ChunkSize(|batch| - pos)
    requires var p := Events(batch[pos..pos + chunk]);
             Outcome(RunTries(s, NetOf(nets, i), p, 0, counters, me), p, me, s', r, landed)
    ensures r.Ok? ==> LeftToRun(all, mine + landed, s', batch, pos + chunk, nets, i + 1, counters, me)
    ensures r.Err? ==> all == BatchRun(s', mine + landed, Some(r.error))
  {
    hide RunTries;
    hide RunBatch;
    BatchStep(s, batch, pos, nets, i, mine, counters, me);
  }

  lemma BatchEnds(all: BatchRun, mine: seq<Commit>, s: Store, batch: seq<Doc>, nets: seq<seq<Try>>, i: nat,
                  counters: set<string>, me: nat)
    requires LeftToRun(all, mine, s, batch, |batch|, nets, i, counters, me)
    ensures all == BatchRun(s, mine, None)
  {
  }

  lemma QuietAdd(s: Store, batch: seq<Doc>, nets: seq<seq<Try>>, counters: set<string>, me: nat, docs: seq<Doc>)
    ensures var run := RunBatch(s, batch, nets, counters, me);
            QuietNets(nets) ==>
              && (run.error.None? <==> AllAcknowledged(nets, |batch|))
              && (run.error.None? && docs == LogOf(run.mine) ==>
                    && docs == Stamp(batch, BatchBase(s.fields, nets, batch))
                    && run.store.log == s.log + docs
                    && (docs != [] ==> QuietIndices(s.fields, nets, docs)))
  {
    hide RunBatch;
    hide LogOf;
    hide CutTries;
    hide TakenBy;
    if QuietNets(nets) {
      QuietBatchRun(s, batch, nets, counters, me);
      var run := RunBatch(s, batch, nets, counters, me);
      if run.error.None? && docs == LogOf(run.mine) && docs != [] {
        BatchBases(s.fields, nets, batch);
        StampIndices(docs, batch, BatchBase(s.fields, nets, batch));
      }
    }
  }

  lemma StampIndices(docs: seq<Doc>, batch: seq<Doc>, base: int)
    requires docs == Stamp(batch, base)
    ensures forall i :: 0 <= i < |docs| ==> IDX in docs[i] && docs[i][IDX] == Num(base + 1 + i)
  {
  }

  lemma BatchBases(fields: Option<map<string, int>>, nets: seq<seq<Try>>, batch: seq<Doc>)
    requires batch != [] && AllAcknowledged(nets, |batch|)
    ensures nets != [] && nets[0] != []
    ensures var found, base := fields.Some? && IDX in fields.value, BatchBase(fields, nets, batch);
            && (found ==> base == fields.value[IDX])
            && (!found && nets[0][0].ending.Commits? ==> base == 0)
            && (!found && CutOnce(nets[0]) ==>
                  var n, size := nets[0][0].ending.n, if |batch| < 498 then |batch| else 498;
                  base == if n < size then n else size)
  {
    assert MAX_CHUNK * 0 < |batch|;
    assert Acknowledged(NetOf(nets, 0));
    QuietBases(fields, nets[0], Events(batch[..ChunkSize(|batch|)]), 0);
  }

  /** The indices of a batch that nobody disturbed: on from the stored one; from 1 on when none is
      stored and the first try goes through; and after one that was cut short from behind what
      it had numbered. */
  ghost predicate QuietIndices(fields: Option<map<string, int>>, nets: seq<seq<Try>>, docs: seq<Doc>) {
    var found := fields.Some? && IDX in fields.value;
    && nets != [] && nets[0] != []
    && forall i :: 0 <= i < |docs| ==>
         && IDX in docs[i] && docs[i][IDX].Num?
         && (found ==> docs[i][IDX].n == fields.value[IDX] + 1 + i)
         && (!found && nets[0][0].ending.Commits? ==> docs[i][IDX].n == 1 + i)
         && (!found && CutOnce(nets[0]) ==>
               var n, size := nets[0][0].ending.n, if |docs| < 498 then |docs| else 498;
               docs[i][IDX].n == (if n < size then n else size) + 1 + i)
  }

  lemma SameFields(docs: seq<Doc>, orig: seq<Doc>)
    requires AllSameUpToIdx(docs, orig)
    ensures forall i :: 0 <= i < |docs| ==> docs[i] - {IDX} == orig[i] - {IDX}
  {
    forall i | 0 <= i < |docs|
      ensures docs[i] - {IDX} == orig[i] - {IDX}
    {
      assert SameUpToIdx(docs[i], orig[i]);
      assert docs[i] - {IDX} == Numbered(docs[i], 0) - {IDX};
      assert orig[i] - {IDX} == Numbered(orig[i], 0) - {IDX};
    }
  }

  /** What a client has committed is in the log. */
  lemma {:induction false} EffectLogs(s: Store, trace: seq<Write>, s': Store, counters: set<string>, me: nat,
                                      mine: seq<Commit>)
    requires Effect(s, trace, s', counters, me, mine)
    ensures forall d :: d in LogOf(mine) ==> d in s'.log
    decreases |trace|
  {
    if trace == [] {
    } else {
      var (mid, mine0) := Replay(s, trace[..|trace| - 1], counters, me).value;
      var w := trace[|trace| - 1];
      EffectLogs(s, trace[..|trace| - 1], mid, counters, me, mine0);
      if MineOf(w, me) != [] {
        assert mine[..|mine| - 1] == mine0;
      } else {
        assert mine == mine0;
      }
    }
  }

  lemma ChunkUntouched(was: seq<Doc>, orig: seq<Doc>, pos: nat, chunk: nat, mine: seq<Commit>, counter: int, idx: int)
    requires Progress(was, orig, pos, mine, counter, idx) && pos + chunk <= |orig|
    ensures was[pos..pos + chunk] == orig[pos..pos + chunk]
  {
    SliceOfRest(was, orig, pos, chunk);
  }

  /** Some documents of a log, still with increasing indices. */
  ghost predicate Remains(log: seq<Doc>, all: seq<Doc>) {
    Increasing(log) && forall i :: 0 <= i < |log| ==> log[i] in all
  }

  lemma RemoveOne(log: seq<Doc>, i: nat, all: seq<Doc>)
    requires Remains(log, all) && i < |log|
    ensures Remains(log[..i] + log[i + 1..], all)
  {
    var rest := log[..i] + log[i + 1..];
    assert forall j :: 0 <= j < |rest| ==> rest[j] == log[if j < i then j else j + 1];
  }

  lemma RemainsStill(log: seq<Doc>, before: seq<Doc>, all: seq<Doc>)
    requires Remains(log, before) && Remains(before, all)
    ensures Remains(log, all)
  {
  }

  lemma RemainsBelow(log: seq<Doc>, all: seq<Doc>, counter: int)
    requires Remains(log, all) && Increasing(all) && forall i :: 0 <= i < |all| ==> Idx(all[i]) <= counter
    ensures forall i :: 0 <= i < |log| ==> Idx(log[i]) <= counter
  {
  }

  /** `out` is the first documents of the batch as the commits number them, each commit above
      the one before, and none above counter. */
  ghost predicate NumberedBy(mine: seq<Commit>, batch: seq<Doc>, out: seq<Doc>, counter: int) {
    if mine == [] then out == []
    else
      var c := mine[|mine| - 1];
      && c.payload.Events? && c.payload.Size() <= |out| <= |batch| && c.End() <= counter
      && var from := |out| - c.payload.Size();
         && out[from..] == Stamp(batch[from..|out|], c.base)
         && NumberedBy(mine[..|mine| - 1], batch, out[..from], c.base)
  }

  /** The state of the chunk loop: the documents before pos are stored and numbered, the rest is
      untouched, and idx is the last number given out. */
  ghost predicate Progress(docs: seq<Doc>, orig: seq<Doc>, pos: nat, mine: seq<Commit>, counter: int, idx: int) {
    && pos <= |docs| == |orig| && docs[pos..] == orig[pos..]
    && ChunksStored(mine, orig, pos) && NumberedBy(mine, orig, docs[..pos], counter)
    && idx == if mine == [] then 0 else mine[|mine| - 1].End()
  }

  lemma ProgressStarts(orig: seq<Doc>, counter: int)
    ensures Progress(orig, orig, 0, [], counter, 0) && ChunksStored([], orig, 0)
  {
  }

  lemma {:induction false} NumberedByMeans(mine: seq<Commit>, batch: seq<Doc>, out: seq<Doc>, counter: int)
    requires |out| <= |batch| && ChunksStored(mine, batch, |out|) && NumberedBy(mine, batch, out, counter)
    ensures out == LogOf(mine) && NumberedInOrder(out, batch[..|out|]) && AllAtMost(out, counter)
    ensures mine != [] ==> out != [] && Idx(out[|out| - 1]) == mine[|mine| - 1].End()
    decreases |mine|
  {
    if mine == [] {
    } else {
      var c, front := mine[|mine| - 1], mine[..|mine| - 1];
      var n := c.payload.Size();
      var from := |out| - n;
      NumberedByMeans(front, batch, out[..from], c.base);
      NumbersJoin(out, batch, from, c.base, counter);
      assert out == out[..from] + out[from..];
    }
  }

  lemma NumbersJoin(out: seq<Doc>, batch: seq<Doc>, from: nat, base: int, counter: int)
    requires from < |out| <= |batch| && base + (|out| - from) <= counter
    requires NumberedInOrder(out[..from], batch[..from]) && AllAtMost(out[..from], base)
    requires out[from..] == Stamp(batch[from..|out|], base)
    ensures NumberedInOrder(out, batch[..|out|]) && AllAtMost(out, counter)
    ensures Idx(out[|out| - 1]) == base + (|out| - from)
  {
    var n, added := |out| - from, out[from..];
    ExtendNumbered(out[..from], batch, from, n, base, added);
    assert out == out[..from] + added;
    assert out[|out| - 1] == added[n - 1];
  }

  lemma ProgressDone(docs: seq<Doc>, orig: seq<Doc>, mine: seq<Commit>, counter: int, idx: int)
    requires Progress(docs, orig, |docs|, mine, counter, idx)
    ensures ChunksStored(mine, orig, |docs|) && NumberedInOrder(docs, orig) && docs == LogOf(mine)
    ensures idx == if docs == [] then 0 else Idx(docs[|docs| - 1])
    ensures AllSameUpToIdx(docs, orig)
  {
    ProgressTouches(docs, orig, |docs|, mine, counter, idx);
    assert docs[..|docs|] == docs && orig[..|docs|] == orig;
    NumberedByMeans(mine, orig, docs, counter);
  }

  lemma ProgressStep(was: seq<Doc>, docs: seq<Doc>, orig: seq<Doc>, pos: nat, chunk: nat, mine: seq<Commit>,
                     c: Commit, counter: int, idx: int)
    requires Progress(was, orig, pos, mine, counter, idx)
    requires pos < |orig| == |docs| && chunk == Min(MAX_CHUNK, |orig| - pos)
    requires docs[..pos] == was[..pos] && docs[pos + chunk..] == was[pos + chunk..]
    requires counter <= c.base && c.payload == Events(orig[pos..pos + chunk])
    requires docs[pos..pos + chunk] == Stamp(orig[pos..pos + chunk], c.base)
    ensures Progress(docs, orig, pos + chunk, mine + [c], c.End(), c.End())
  {
    ChunkLanded(mine, orig, pos, c);
    SliceOfRest(was, orig, pos, chunk);
    NumberedHigher(mine, orig, was[..pos], counter, c.base);
    var out := docs[..pos + chunk];
    assert out[..pos] == was[..pos] && out[pos..] == docs[pos..pos + chunk];
    assert (mine + [c])[..|mine + [c]| - 1] == mine;
  }

  lemma NumberedHigher(mine: seq<Commit>, batch: seq<Doc>, out: seq<Doc>, counter: int, higher: int)
    requires NumberedBy(mine, batch, out, counter) && counter <= higher
    ensures NumberedBy(mine, batch, out, higher)
  {
  }

  /** One chunk was sent: it landed when that was acknowledged or is unknown, and when it was
      acknowledged the documents carry their numbers. */
  ghost predicate ChunkWritten(was: seq<Doc>, docs: seq<Doc>, lo: nat, hi: nat, me: nat, r: Result<int, TxError>,
                               landed: seq<Commit>, base: int) {
    && |docs| == |was| && lo < hi <= |was|
    && docs[..lo] == was[..lo] && docs[hi..] == was[hi..] && AllSameUpToIdx(docs[lo..hi], was[lo..hi])
    && landed == (if r.Ok? || r.error == Unknown then [Commit(me, Events(was[lo..hi]), base)] else [])
    && (r.Ok? ==> r.value == base + (hi - lo) && docs[lo..hi] == Stamp(was[lo..hi], base))
  }

  lemma ProgressTouches(docs: seq<Doc>, orig: seq<Doc>, pos: nat, mine: seq<Commit>, counter: int, idx: int)
    requires Progress(docs, orig, pos, mine, counter, idx)
    ensures AllSameUpToIdx(docs, orig)
  {
    NumberedByMeans(mine, orig, docs[..pos], counter);
    forall k | 0 <= k < |docs|
      ensures SameUpToIdx(docs[k], orig[k])
    {
      if k < pos {
        assert docs[..pos][k] == docs[k] && orig[..pos][k] == orig[k];
        RenumberSame(orig[k], orig[k], Idx(docs[k]));
      } else {
        assert docs[pos..][k - pos] == orig[pos..][k - pos];
      }
    }
  }

  lemma ChunkTouches(was: seq<Doc>, docs: seq<Doc>, orig: seq<Doc>, lo: nat, hi: nat)
    requires AllSameUpToIdx(was, orig) && lo <= hi <= |was| == |docs|
    requires docs[..lo] == was[..lo] && docs[hi..] == was[hi..] && AllSameUpToIdx(docs[lo..hi], was[lo..hi])
    ensures AllSameUpToIdx(docs, orig)
  {
    forall k | 0 <= k < |docs|
      ensures SameUpToIdx(docs[k], orig[k])
    {
      if k < lo {
        assert docs[..lo][k] == was[..lo][k];
      } else if k < hi {
        assert SameUpToIdx(docs[lo..hi][k - lo], was[lo..hi][k - lo]);
      } else {
        assert docs[hi..][k - hi] == was[hi..][k - hi];
      }
    }
  }

  lemma ChunkOutcome(was: seq<Doc>, docs: seq<Doc>, orig: seq<Doc>, pos: nat, chunk: nat, mine: seq<Commit>, me: nat,
                     r: Result<int, TxError>, landed: seq<Commit>, base: int, counter: int, counter': int, idx: int)
    returns (all: seq<Commit>, stored: nat)
    requires Progress(was, orig, pos, mine, counter, idx)
    requires pos < |orig| && chunk == Min(MAX_CHUNK, |orig| - pos)
    requires ChunkWritten(was, docs, pos, pos + chunk, me, r, landed, base)
    requires r.Ok? ==> counter <= base && r.value <= counter'
    ensures all == mine + landed && ChunksStored(all, orig, stored)
    ensures r.Ok? ==> stored == pos + chunk && Progress(docs, orig, stored, all, counter', r.value)
    ensures r.Err? && r.error != Unknown ==> stored == pos
    ensures AllSameUpToIdx(docs, orig)
  {
    hide ChunksStored;
    hide NumberedBy;
    hide Stamp;
    ProgressTouches(was, orig, pos, mine, counter, idx);
    ChunkTouches(was, docs, orig, pos, pos + chunk);
    all, stored := mine + landed, if landed == [] then pos else pos + chunk;
    SliceOfRest(was, orig, pos, chunk);
    if landed == [] {
      assert mine + landed == mine;
    } else {
      ChunkLanded(mine, orig, pos, landed[0]);
      if r.Ok? {
        ProgressStep(was, docs, orig, pos, chunk, mine, landed[0], counter, idx);
        NumberedHigher(all, orig, docs[..stored], r.value, counter');
      }
    }
  }

  /** The commits are the first chunks of the batch, up to position pos, one each. */
  ghost predicate ChunksStored(mine: seq<Commit>, batch: seq<Doc>, pos: nat) {
    if mine == [] then pos == 0
    else
      var c := mine[|mine| - 1];
      && pos <= |batch| && c.payload.Events? && 0 < c.payload.Size() <= pos
      && c.payload.Size() == Min(MAX_CHUNK, |batch| - (pos - c.payload.Size()))
      && c.payload == Events(batch[pos - c.payload.Size()..pos])
      && ChunksStored(mine[..|mine| - 1], batch, pos - c.payload.Size())
  }

  lemma ChunkLanded(mine: seq<Commit>, batch: seq<Doc>, pos: nat, c: Commit)
    requires ChunksStored(mine, batch, pos) && pos < |batch|
    requires c.payload == Events(batch[pos..pos + Min(MAX_CHUNK, |batch| - pos)])
    ensures ChunksStored(mine + [c], batch, pos + Min(MAX_CHUNK, |batch| - pos))
  {
    assert (mine + [c])[..|mine + [c]| - 1] == mine;
  }

  /** Chunk number k covers positions 498k to 498(k + 1), or to the end of the batch. */
  lemma {:induction false} ChunksAre(mine: seq<Commit>, batch: seq<Doc>, pos: nat)
    requires ChunksStored(mine, batch, pos)
    ensures pos == Min(MAX_CHUNK * |mine|, |batch|) && (mine != [] ==> MAX_CHUNK * (|mine| - 1) < |batch|)
    ensures forall k :: 0 <= k < |mine| ==> MAX_CHUNK * k < |batch| && mine[k].payload == Events(Chunk(batch, k))
    decreases |mine|
  {
    if mine == [] {
    } else {
      var n := |mine| - 1;
      var size := mine[n].payload.Size();
      ChunksAre(mine[..n], batch, pos - size);
      assert pos - size == MAX_CHUNK * n;
      assert mine[n].payload == Events(Chunk(batch, n));
      assert forall k :: 0 <= k < n ==> mine[k] == mine[..n][k];
    }
  }

  lemma SliceOfRest(a: seq<Doc>, b: seq<Doc>, pos: nat, n: nat)
    requires |a| == |b| && pos + n <= |a| && a[pos..] == b[pos..]
    ensures a[pos..pos + n] == b[pos..pos + n] && a[pos + n..] == b[pos + n..]
  {
    assert a[pos..pos + n] == a[pos..][..n] && b[pos..pos + n] == b[pos..][..n];
    assert a[pos + n..] == a[pos..][n..] && b[pos + n..] == b[pos..][n..];
  }
}
