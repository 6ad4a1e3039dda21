/**
 What the transactions of the event log (firestore/events.go) come to, as functions of the
 store, of what is to be stored, and of the network: one run of a transaction body, the tries
 of one transaction, and the chunks of a batch.  The methods of `EventWriter` are proved equal
 to them.

 Each try says what other clients want to write before and after the body reads the counter,
 how the try ends, and what others write before the caller goes on.
 */
module EventTries {
  import opened Wrappers
  import opened CounterDoc
  import opened EventSystem

  /** A write the database performs atomically. */
  datatype Write = Tx(commit: Commit) | MergeField(name: string, value: int)

  datatype Ending =
    | Commits            // the commit is sent and acknowledged
    | ReplyLost          // the commit is sent, the client sees an error
    | CutShort(n: nat)   // the body stops after numbering n documents and is run again
    | GivesUp            // the body or the commit fails with an error that is not retried

  datatype Try = Try(before: seq<Write>, during: seq<Write>, ending: Ending, after: seq<Write>)

  predicate Sends(ending: Ending) {
    ending.Commits? || ending.ReplyLost?
  }

  datatype TxError = TooMany | TooSmall | NotRetried | Contended | Unknown

  predicate Allowed(fields: Option<map<string, int>>, w: Write, counters: set<string>) {
    match w
    case Tx(c) => c.payload.Field() in counters && Accepted(fields, c)
    case MergeField(name, _) => name !in counters
  }

  function Perform(s: Store, w: Write): Store {
    match w
    case Tx(c) => Apply(s, c)
    case MergeField(name, value) => s.(fields := WithField(s.fields, name, value))
  }

  // ---------- other clients ----------

  /** The database lets a write of somebody else through. */
  predicate Passes(fields: Option<map<string, int>>, w: Write, counters: set<string>, me: nat) {
    Allowed(fields, w, counters) && (w.Tx? ==> w.commit.client != me)
  }

  /** The store after those of `writes` that the database lets through. */
  function Others(s: Store, writes: seq<Write>, counters: set<string>, me: nat): Store {
    if writes == [] then s
    else
      var before, w := Others(s, writes[..|writes| - 1], counters, me), writes[|writes| - 1];
      if Passes(before.fields, w, counters, me) then Perform(before, w) else before
  }

  /** At least one of them is let through. */
  predicate Disturbed(s: Store, writes: seq<Write>, counters: set<string>, me: nat) {
    writes != [] &&
    var front := writes[..|writes| - 1];
    || Disturbed(s, front, counters, me)
    || Passes(Others(s, front, counters, me).fields, writes[|writes| - 1], counters, me)
  }

  lemma OthersStep(s: Store, front: seq<Write>, w: Write, counters: set<string>, me: nat)
    ensures var mid := Others(s, front, counters, me);
            && Others(s, front + [w], counters, me) ==
                 (if Passes(mid.fields, w, counters, me) then Perform(mid, w) else mid)
            && (Disturbed(s, front + [w], counters, me) <==>
                Disturbed(s, front, counters, me) || Passes(mid.fields, w, counters, me))
  {
    assert (front + [w])[..|front + [w]| - 1] == front;
  }

  lemma {:induction false} UndisturbedStays(s: Store, writes: seq<Write>, counters: set<string>, me: nat)
    requires !Disturbed(s, writes, counters, me)
    ensures Others(s, writes, counters, me) == s
    decreases |writes|
  {
    if writes == [] {
    } else {
      UndisturbedStays(s, writes[..|writes| - 1], counters, me);
    }
  }

  // ---------- one try ----------

  /** The stored number, or what the client carried over when none is stored. */
  function FirstIndex(fields: Option<map<string, int>>, f: string, captured: int): int {
    if Stored(fields, f).Some? then Stored(fields, f).value else captured
  }

  /** How far a body gets with `index`: events are numbered one by one, an increment takes all
      its numbers at once. */
  function Taken(ending: Ending, p: Payload): nat {
    match ending
    case CutShort(n) =>
      (match p
       case Events(docs) => if n < |docs| then n else |docs|
       case Count(_, size) => if n > 0 then size else 0)
    case _ => p.Size()
  }

  /** The store after the try, what it leaves in `index`, and whether it committed. */
  datatype TryRun = TryRun(store: Store, index: int, sent: bool, base: int)

  function RunTry(s: Store, attempt: Try, p: Payload, captured: int, counters: set<string>, me: nat): TryRun {
    var read := Others(s, attempt.before, counters, me);
    var base := FirstIndex(read.fields, p.Field(), captured);
    var sent := Sends(attempt.ending) && !Disturbed(read, attempt.during, counters, me);
    TryRun(
      if sent then Others(Apply(read, Commit(me, p, base)), attempt.after, counters, me)
      else Others(read, attempt.during, counters, me),
      base + Taken(attempt.ending, p),
      sent,
      base)
  }

  /** A try of which read, mid and end are the stores when the body has read, before it ends, and
      after it. */
  lemma TryIs(s: Store, attempt: Try, p: Payload, captured: int, read: Store, mid: Store, end: Store, sent: bool,
              counters: set<string>, me: nat)
    requires read == Others(s, attempt.before, counters, me) && mid == Others(read, attempt.during, counters, me)
    requires sent <==> Sends(attempt.ending) && !Disturbed(read, attempt.during, counters, me)
    requires var c := Commit(me, p, FirstIndex(read.fields, p.Field(), captured));
             end == if sent then Others(Apply(read, c), attempt.after, counters, me) else mid
    ensures var base := FirstIndex(read.fields, p.Field(), captured);
            RunTry(s, attempt, p, captured, counters, me) ==
              TryRun(end, base + Taken(attempt.ending, p), sent, base)
  {
  }

  // ---------- the tries of one transaction ----------

  datatype TxEnd = Landed(base: int, acked: bool) | GaveUp | RanOut

  datatype TxRun = TxRun(store: Store, end: TxEnd)

  function RunTries(s: Store, tries: seq<Try>, p: Payload, captured: int, counters: set<string>, me: nat): TxRun
    decreases |tries|
  {
    if tries == [] then TxRun(s, RanOut)
    else
      var run := RunTry(s, tries[0], p, captured, counters, me);
      if tries[0].ending.GivesUp? then TxRun(run.store, GaveUp)
      else if run.sent then TxRun(run.store, Landed(run.base, tries[0].ending.Commits?))
      else RunTries(run.store, tries[1..], p, run.index, counters, me)
  }

  /** What the client is told: the last number taken, or an error. */
  function Told(end: TxEnd, p: Payload): Result<int, TxError> {
    match end
    case Landed(base, acked) => if acked then Ok(base + p.Size()) else Err(Unknown)
    case GaveUp => Err(NotRetried)
    case RanOut => Err(Contended)
  }

  function Committed(end: TxEnd, p: Payload, me: nat): seq<Commit> {
    if end.Landed? then [Commit(me, p, end.base)] else []
  }

  // ---------- the chunks of a batch ----------

  function NetOf(nets: seq<seq<Try>>, i: nat): seq<Try> {
    if i < |nets| then nets[i] else []
  }

  function NetsFrom(nets: seq<seq<Try>>, i: nat): seq<seq<Try>> {
    if i < |nets| then nets[i..] else []
  }

  function ChunkSize(n: nat): nat {
    if n < MAX_CHUNK then n else MAX_CHUNK
  }

  datatype BatchRun = BatchRun(store: Store, mine: seq<Commit>, error: Option<TxError>)

  function RunBatch(s: Store, batch: seq<Doc>, nets: seq<seq<Try>>, counters: set<string>, me: nat): BatchRun
    decreases |batch|
  {
    if batch == [] then BatchRun(s, [], None)
    else
      var p := Events(batch[..ChunkSize(|batch|)]);
      var tx := RunTries(s, NetOf(nets, 0), p, 0, counters, me);
      match Told(tx.end, p)
      case Err(e) => BatchRun(tx.store, Committed(tx.end, p, me), Some(e))
      case Ok(_) =>
        var rest := RunBatch(tx.store, batch[ChunkSize(|batch|)..], NetsFrom(nets, 1), counters, me);
        rest.(mine := Committed(tx.end, p, me) + rest.mine)
  }

  // ---------- with nobody else writing ----------

  predicate QuietTry(attempt: Try) {
    attempt.before == [] && attempt.during == [] && attempt.after == []
  }

  ghost predicate QuietTries(tries: seq<Try>) {
    forall i :: 0 <= i < |tries| ==> QuietTry(tries[i])
  }

  /** How many tries are cut short before one is not. */
  function CutTries(tries: seq<Try>): (k: nat)
    ensures k <= |tries|
    ensures forall i :: 0 <= i < k ==> tries[i].ending.CutShort?
    ensures k < |tries| ==> !tries[k].ending.CutShort?
  {
    if tries == [] || !tries[0].ending.CutShort? then 0 else 1 + CutTries(tries[1..])
  }

  /** The numbers that tries cut short have counted `index` up by. */
  function TakenBy(tries: seq<Try>, p: Payload): nat {
    if tries == [] then 0 else Taken(tries[0].ending, p) + TakenBy(tries[1..], p)
  }

  /** Where the numbers start: at the stored index, or, when none is stored, behind everything
      that tries cut short had taken. */
  function QuietBase(fields: Option<map<string, int>>, tries: seq<Try>, p: Payload, captured: int): int {
    FirstIndex(fields, p.Field(), captured + TakenBy(tries[..CutTries(tries)], p))
  }

  lemma QuietTryRun(s: Store, attempt: Try, p: Payload, captured: int, counters: set<string>, me: nat)
    requires QuietTry(attempt)
    ensures var base, sent := FirstIndex(s.fields, p.Field(), captured), Sends(attempt.ending);
            RunTry(s, attempt, p, captured, counters, me) ==
              TryRun(if sent then Apply(s, Commit(me, p, base)) else s, base + Taken(attempt.ending, p), sent, base)
  {
  }

  lemma CutTriesFront(fields: Option<map<string, int>>, tries: seq<Try>, p: Payload, captured: int)
    requires tries != [] && tries[0].ending.CutShort?
    ensures CutTries(tries) == 1 + CutTries(tries[1..])
    ensures var index := FirstIndex(fields, p.Field(), captured) + Taken(tries[0].ending, p);
            QuietBase(fields, tries, p, captured) == QuietBase(fields, tries[1..], p, index)
  {
    var k := CutTries(tries);
    assert tries[..k][1..] == tries[1..][..k - 1];
  }

  /** With nobody else writing, the first try that is not cut short decides: it commits, once,
      from QuietBase on, unless it gives up, and only when there is no such try the client runs
      out of them. */
  lemma {:induction false} QuietTriesRun(s: Store, tries: seq<Try>, p: Payload, captured: int,
                                         counters: set<string>, me: nat)
    requires QuietTries(tries)
    ensures var k, base := CutTries(tries), QuietBase(s.fields, tries, p, captured);
            RunTries(s, tries, p, captured, counters, me) ==
              if k == |tries| then TxRun(s, RanOut)
              else if tries[k].ending.GivesUp? then TxRun(s, GaveUp)
              else TxRun(Apply(s, Commit(me, p, base)), Landed(base, tries[k].ending.Commits?))
    decreases |tries|
  {
    hide RunTry;
    if tries == [] {
    } else {
      QuietTryRun(s, tries[0], p, captured, counters, me);
      if tries[0].ending.CutShort? {
        hide TakenBy;
        CutTriesFront(s.fields, tries, p, captured);
        QuietTriesRun(s, tries[1..], p, FirstIndex(s.fields, p.Field(), captured) + Taken(tries[0].ending, p),
                      counters, me);
      } else {
        assert tries[..0] == [];
      }
    }
  }

  /** An undisturbed first try starts at the stored index or at 0; after one that was cut short
      the numbers start behind what it had taken. */
  lemma QuietBases(fields: Option<map<string, int>>, tries: seq<Try>, p: Payload, captured: int)
    requires tries != []
    ensures !tries[0].ending.CutShort? ==>
              QuietBase(fields, tries, p, captured) == FirstIndex(fields, p.Field(), captured)
    ensures |tries| > 1 && tries[0].ending.CutShort? && !tries[1].ending.CutShort? ==>
              QuietBase(fields, tries, p, captured) ==
                FirstIndex(fields, p.Field(), captured + Taken(tries[0].ending, p))
  {
    if !tries[0].ending.CutShort? {
      assert tries[..0] == [];
    } else if |tries| > 1 && !tries[1].ending.CutShort? {
      assert CutTries(tries[1..]) == 0;
      assert tries[..1][1..] == [] && TakenBy([], p) == 0;
    }
  }

  predicate Acknowledged(tries: seq<Try>) {
    CutTries(tries) < |tries| && tries[CutTries(tries)].ending.Commits?
  }

  ghost predicate QuietNets(nets: seq<seq<Try>>) {
    forall i :: 0 <= i < |nets| ==> QuietTries(nets[i])
  }

  /** Every chunk of a batch of n documents gets through. */
  ghost predicate AllAcknowledged(nets: seq<seq<Try>>, n: nat) {
    forall i: nat :: MAX_CHUNK * i < n ==> Acknowledged(NetOf(nets, i))
  }

  /** Where the numbers of a whole batch start. */
  function BatchBase(fields: Option<map<string, int>>, nets: seq<seq<Try>>, batch: seq<Doc>): int {
    QuietBase(fields, NetOf(nets, 0), Events(batch[..ChunkSize(|batch|)]), 0)
  }

  /** A batch whose first chunk is acknowledged: that chunk, then the rest. */
  lemma BatchSplit(s: Store, batch: seq<Doc>, nets: seq<seq<Try>>, counters: set<string>, me: nat)
    returns (store': Store, rest: BatchRun)
    requires batch != [] && QuietTries(NetOf(nets, 0))
    ensures var n, base := ChunkSize(|batch|), BatchBase(s.fields, nets, batch);
            && store' == Apply(s, Commit(me, Events(batch[..n]), base))
            && rest == RunBatch(store', batch[n..], NetsFrom(nets, 1), counters, me)
            && (Acknowledged(NetOf(nets, 0)) ==>
                  RunBatch(s, batch, nets, counters, me) ==
                    rest.(mine := [Commit(me, Events(batch[..n]), base)] + rest.mine))
    ensures var run := RunBatch(s, batch, nets, counters, me);
            !Acknowledged(NetOf(nets, 0)) ==>
              run.error.Some? && (run.store, run.mine) in {(s, []), (store', [store'.commits[|s.commits|]])}
  {
    hide RunTries;
    hide CutTries;
    hide TakenBy;
    var p, tries := Events(batch[..ChunkSize(|batch|)]), NetOf(nets, 0);
    QuietTriesRun(s, tries, p, 0, counters, me);
    var base := BatchBase(s.fields, nets, batch);
    store' := Apply(s, Commit(me, p, base));
    rest := RunBatch(store', batch[ChunkSize(|batch|)..], NetsFrom(nets, 1), counters, me);
  }

  /** With nobody else writing, a batch is stored as a whole exactly when each chunk's first try
      that is not cut short is acknowledged; then the log gains the whole batch, numbered without
      a gap from BatchBase on. */
  lemma {:induction false} QuietBatchRun(s: Store, batch: seq<Doc>, nets: seq<seq<Try>>, counters: set<string>,
                                         me: nat)
    requires QuietNets(nets)
    ensures var run := RunBatch(s, batch, nets, counters, me);
            && (run.error.None? <==> AllAcknowledged(nets, |batch|))
            && run.store.log == s.log + LogOf(run.mine)
            && (run.error.None? ==> LogOf(run.mine) == Stamp(batch, BatchBase(s.fields, nets, batch)))
    decreases |batch|
  {
    if batch == [] {
    } else {
      hide RunBatch;
      hide LogOf;
      hide CutTries;
      hide TakenBy;
      var store', rest := BatchSplit(s, batch, nets, counters, me);
      ChunksAcknowledged(nets, |batch|);
      if Acknowledged(NetOf(nets, 0)) {
        var n := ChunkSize(|batch|);
        QuietBatchRun(store', batch[n..], NetsFrom(nets, 1), counters, me);
        ChunkThenRest(s, batch, n, BatchBase(s.fields, nets, batch), me, store', rest,
                      BatchBase(store'.fields, NetsFrom(nets, 1), batch[n..]));
      } else {
        ChunkAlone(s, store', batch, BatchBase(s.fields, nets, batch), me);
      }
    }
  }

  /** What a chunk and the rest of the batch have stored. */
  lemma ChunkThenRest(s: Store, batch: seq<Doc>, n: nat, base: int, me: nat, store': Store, rest: BatchRun,
                      base': int)
    requires n <= |batch| && store' == Apply(s, Commit(me, Events(batch[..n]), base))
    requires rest.store.log == store'.log + LogOf(rest.mine)
    requires rest.error.None? ==> LogOf(rest.mine) == Stamp(batch[n..], base')
    requires n < |batch| ==> base' == base + n
    ensures var mine := [Commit(me, Events(batch[..n]), base)] + rest.mine;
            && rest.store.log == s.log + LogOf(mine)
            && (rest.error.None? ==> LogOf(mine) == Stamp(batch, base))
  {
    hide LogOf;
    var c := Commit(me, Events(batch[..n]), base);
    OneCommitLog(c);
    LogOfJoin([c], rest.mine);
    Regroup(s.log, Entries(c), LogOf(rest.mine));
    StampJoin(batch, n, base);
    assert n == |batch| ==> Stamp(batch[n..], base') == Stamp(batch[n..], base + n);
  }

  lemma ChunkAlone(s: Store, store': Store, batch: seq<Doc>, base: int, me: nat)
    requires store' == Apply(s, Commit(me, Events(batch[..ChunkSize(|batch|)]), base))
    ensures s.log == s.log + LogOf([]) && store'.log == s.log + LogOf([store'.commits[|s.commits|]])
  {
    OneCommitLog(Commit(me, Events(batch[..ChunkSize(|batch|)]), base));
  }

  lemma OneCommitLog(c: Commit)
    ensures LogOf([]) == [] && LogOf([c]) == Entries(c)
  {
    assert [c][..0] == [];
    assert LogOf([c]) == [] + Entries(c);
  }

  lemma Regroup<T>(a: seq<T>, b: seq<T>, c: seq<T>)
    ensures a + (b + c) == a + b + c
  {
  }

  lemma ChunksAcknowledged(nets: seq<seq<Try>>, n: nat)
    requires n > 0
    ensures AllAcknowledged(nets, n) <==>
              Acknowledged(NetOf(nets, 0)) && AllAcknowledged(NetsFrom(nets, 1), n - ChunkSize(n))
  {
    var later := NetsFrom(nets, 1);
    assert forall i: nat :: NetOf(later, i) == NetOf(nets, i + 1);
    if AllAcknowledged(nets, n) {
      assert MAX_CHUNK * 0 < n;
      forall i: nat | MAX_CHUNK * i < n - ChunkSize(n)
        ensures Acknowledged(NetOf(later, i))
      {
        assert MAX_CHUNK * (i + 1) < n;
      }
    }
    if Acknowledged(NetOf(nets, 0)) && AllAcknowledged(later, n - ChunkSize(n)) {
      forall i: nat | MAX_CHUNK * i < n
        ensures Acknowledged(NetOf(nets, i))
      {
        if i == 0 {
        } else {
          assert MAX_CHUNK * (i - 1) < n - ChunkSize(n);
          assert NetOf(later, i - 1) == NetOf(nets, i);
        }
      }
    }
  }

  lemma {:induction false} LogOfJoin(a: seq<Commit>, b: seq<Commit>)
    ensures LogOf(a + b) == LogOf(a) + LogOf(b)
    decreases |b|
  {
    if b == [] {
      assert a + b == a && LogOf(a) + [] == LogOf(a);
    } else {
      var front, c := b[..|b| - 1], b[|b| - 1];
      LogOfJoin(a, front);
      assert (a + b)[..|a + b| - 1] == a + front && (a + b)[|a + b| - 1] == c;
      Regroup(LogOf(a), LogOf(front), Entries(c));
    }
  }

  lemma StampJoin(batch: seq<Doc>, n: nat, base: int)
    requires n <= |batch|
    ensures Stamp(batch, base) == Stamp(batch[..n], base) + Stamp(batch[n..], base + n)
  {
  }

  // ---------- prefixes of a run, as the loops go through them ----------

  /** The loop over the tries: after a try that neither committed nor gave up the rest runs on. */
  lemma TriesStep(s: Store, tries: seq<Try>, t: nat, p: Payload, captured: int, counters: set<string>, me: nat)
    requires t < |tries|
    ensures var run := RunTry(s, tries[t], p, captured, counters, me);
            RunTries(s, tries[t..], p, captured, counters, me) ==
              if tries[t].ending.GivesUp? then TxRun(run.store, GaveUp)
              else if run.sent then TxRun(run.store, Landed(run.base, tries[t].ending.Commits?))
              else RunTries(run.store, tries[t + 1..], p, run.index, counters, me)
  {
    assert tries[t..][1..] == tries[t + 1..];
  }

  /** A run that follows the commits `mine`. */
  function Following(mine: seq<Commit>, run: BatchRun): BatchRun {
    run.(mine := mine + run.mine)
  }

  /** The loop over the chunks, at position pos of the batch and chunk number i. */
  lemma BatchStep(s: Store, batch: seq<Doc>, pos: nat, nets: seq<seq<Try>>, i: nat, mine: seq<Commit>,
                  counters: set<string>, me: nat)
    requires pos < |batch|
    ensures var n := ChunkSize(|batch| - pos);
            var p := Events(batch[pos..pos + n]);
            var tx := RunTries(s, NetOf(nets, i), p, 0, counters, me);
            var all := mine + Committed(tx.end, p, me);
            Following(mine, RunBatch(s, batch[pos..], NetsFrom(nets, i), counters, me)) ==
              match Told(tx.end, p)
              case Err(e) => BatchRun(tx.store, all, Some(e))
              case Ok(_) =>
                Following(all, RunBatch(tx.store, batch[pos + n..], NetsFrom(nets, i + 1), counters, me))
  {
    var n := ChunkSize(|batch| - pos);
    assert batch[pos..][..n] == batch[pos..pos + n] && batch[pos..][n..] == batch[pos + n..];
    assert NetsFrom(NetsFrom(nets, i), 1) == NetsFrom(nets, i + 1);
    assert NetOf(NetsFrom(nets, i), 0) == NetOf(nets, i);
    var p := Events(batch[pos..pos + n]);
    var tx := RunTries(s, NetOf(nets, i), p, 0, counters, me);
    if Told(tx.end, p).Ok? {
      var rest := RunBatch(tx.store, batch[pos + n..], NetsFrom(nets, i + 1), counters, me);
      assert mine + (Committed(tx.end, p, me) + rest.mine) == mine + Committed(tx.end, p, me) + rest.mine;
    }
  }
}
