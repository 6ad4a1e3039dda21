/**
 Any number of clients adding events to one path and incrementing counters on its
 document, interleaved step by step (firestore/events.go).

 A client's transaction body reads the counter in one step and commits in a later one;
 in between other clients may commit.  The database accepts the commit only if the
 document is unchanged since the read.  A body may be aborted after any of its writes
 and run again; `index` is declared outside the body, so what an aborted body left in it
 is still there when the body runs again.
 */
module EventSystem {
  import opened Wrappers
  import opened CounterDoc

  datatype Job = AddAll(batch: seq<Doc>) | Inc(name: string, n: int)

  datatype Phase = Idle | Attempt | Running(version: nat) | Failed

  /** `pos` is how much of the batch is stored (0 or 1 for an increment), `index` is the
      variable captured by the transaction body. */
  datatype Client = Client(job: Job, pos: nat, index: int, phase: Phase)

  datatype Sys = Sys(store: Store, version: nat, clients: seq<Client>)

  datatype Step =
    | Start(c: nat)                       // enter the next writeAll or Increment
    | Begin(c: nat)                       // the body reads the counter
    | CommitTx(c: nat, acked: bool)       // the database commits; the reply may be lost
    | Abort(c: nat, written: nat)         // the body is cut short after `written` numbers, to be re-run
    | Fail(c: nat)                        // the client gives up
    | Merge(name: string, value: int)     // somebody merges another field into the document

  function Min(a: int, b: int): int {
    if a < b then a else b
  }

  function JobField(j: Job): string {
    if j.AddAll? then IDX else j.name
  }

  predicate Finished(c: Client) {
    match c.job
    case AddAll(batch) => c.pos >= |batch|
    case Inc(_, n) => c.pos >= 1 || n < 1
  }

  /** The payload of the client's next transaction: a chunk of the batch, or the increment. */
  function NextPayload(c: Client): Payload
    requires !Finished(c)
  {
    match c.job
    case AddAll(batch) => Events(batch[c.pos..c.pos + Min(MAX_CHUNK, |batch| - c.pos)])
    case Inc(name, n) => Count(name, n)
  }

  /** How far a body can have got with `index`: events are numbered one by one, an increment
      takes all its numbers at once. */
  predicate CanTake(p: Payload, written: nat) {
    if p.Events? then written <= |p.docs| else written == 0 || written == p.n
  }

  function Advance(c: Client): nat
    requires !Finished(c)
  {
    if c.job.AddAll? then NextPayload(c).Size() else 1
  }

  function CommitOf(s: Sys, i: nat): Commit
    requires i < |s.clients| && !Finished(s.clients[i])
  {
    Commit(i, NextPayload(s.clients[i]), s.clients[i].index)
  }

  function WithClient(s: Sys, i: nat, c: Client): Sys
    requires i < |s.clients|
  {
    s.(clients := s.clients[i := c])
  }

  /** One step, or None when the step is not possible in state s. */
  function Next(s: Sys, step: Step, counters: set<string>): Option<Sys> {
    match step
    case Start(i) =>
      if i < |s.clients| && s.clients[i].phase == Idle && !Finished(s.clients[i])
      then Some(WithClient(s, i, s.clients[i].(index := 0, phase := Attempt)))
      else None
    case Begin(i) =>
      if i < |s.clients| && s.clients[i].phase == Attempt
      then
        var c := s.clients[i];
        var found := Stored(s.store.fields, JobField(c.job));
        Some(WithClient(s, i, c.(index := if found.Some? then found.value else c.index, phase := Running(s.version))))
      else None
    case CommitTx(i, acked) =>
      if i < |s.clients| && s.clients[i].phase == Running(s.version) && !Finished(s.clients[i])
      then
        var c := s.clients[i];
        var commit := CommitOf(s, i);
        Some(Sys(
          Apply(s.store, commit),
          s.version + 1,
          s.clients[i := c.(
              pos := c.pos + Advance(c),
              index := commit.End(),
              phase := if acked then Idle else Failed)]))
      else None
    case Abort(i, written) =>
      if i < |s.clients| && s.clients[i].phase.Running? && !Finished(s.clients[i])
         && CanTake(NextPayload(s.clients[i]), written)
      then Some(WithClient(s, i, s.clients[i].(index := s.clients[i].index + written, phase := Attempt)))
      else None
    case Fail(i) =>
      if i < |s.clients| then Some(WithClient(s, i, s.clients[i].(phase := Failed))) else None
    case Merge(name, value) =>
      if name !in counters
      then Some(s.(store := s.store.(fields := WithField(s.store.fields, name, value)), version := s.version + 1))
      else None
  }

  function Run(s: Sys, steps: seq<Step>, counters: set<string>): Option<Sys>
    decreases |steps|
  {
    if steps == [] then Some(s)
    else match Next(s, steps[0], counters)
      case None => None
      case Some(s') => Run(s', steps[1..], counters)
  }

  lemma {:induction false} RunAppend(s: Sys, a: seq<Step>, mid: Sys, b: seq<Step>, s': Sys, counters: set<string>)
    requires Run(s, a, counters) == Some(mid) && Run(mid, b, counters) == Some(s')
    ensures Run(s, a + b, counters) == Some(s')
    decreases |a|
  {
    if a == [] {
      assert a + b == b;
    } else {
      assert (a + b)[1..] == a[1..] + b;
      RunAppend(Next(s, a[0], counters).value, a[1..], mid, b, s', counters);
    }
  }

  function Counters(jobs: seq<Job>): set<string> {
    {IDX} + set i | 0 <= i < |jobs| :: JobField(jobs[i])
  }

  /** No events yet; the document may already hold fields that are not counters. */
  function Init(jobs: seq<Job>, fields: Option<map<string, int>>): Sys {
    Sys(Store(fields, [], []), 0, seq(|jobs|, i requires 0 <= i < |jobs| => Client(jobs[i], 0, 0, Idle)))
  }

  predicate NoCounterIn(fields: Option<map<string, int>>, counters: set<string>) {
    forall f :: f in counters ==> Stored(fields, f).None?
  }

  // ---------- what each client has stored ----------

  /** The payloads client i has committed, in order. */
  function PayloadsBy(cs: seq<Commit>, i: nat): seq<Payload> {
    if cs == [] then []
    else PayloadsBy(cs[..|cs| - 1], i) + (if cs[|cs| - 1].client == i then [cs[|cs| - 1].payload] else [])
  }

  /** The log documents client i has committed, in log order. */
  function EntriesBy(cs: seq<Commit>, i: nat): seq<Doc> {
    if cs == [] then []
    else EntriesBy(cs[..|cs| - 1], i) + (if cs[|cs| - 1].client == i then Entries(cs[|cs| - 1]) else [])
  }

  /** The k-th chunk of a batch: MAX_CHUNK documents, fewer only at the end. */
  function Chunk(batch: seq<Doc>, k: nat): seq<Doc>
    requires MAX_CHUNK * k < |batch|
  {
    batch[MAX_CHUNK * k..Min(MAX_CHUNK * (k + 1), |batch|)]
  }

  /** `done` is exactly the first chunks of the batch, and they end at pos. */
  ghost predicate IsChunkPrefix(done: seq<Payload>, batch: seq<Doc>, pos: nat) {
    && pos == Min(MAX_CHUNK * |done|, |batch|)
    && forall k :: 0 <= k < |done| ==> MAX_CHUNK * k < |batch| && done[k] == Events(Chunk(batch, k))
  }

  /** out carries the documents of `docs` in order, each with a number, numbers increasing. */
  ghost predicate NumberedInOrder(out: seq<Doc>, docs: seq<Doc>) {
    && |out| == |docs|
    && (forall j :: 0 <= j < |out| ==> HasIdx(out[j]) && out[j] == Numbered(docs[j], Idx(out[j])))
    && (forall j, k :: 0 <= j < k < |out| ==> Idx(out[j]) < Idx(out[k]))
  }

  // ---------- the invariant ----------

  /** What is stored for client i is exactly the part of its job it has got through. */
  ghost predicate ProgressOk(cs: seq<Commit>, counter: int, c: Client, i: nat) {
    match c.job
    case AddAll(batch) =>
      && c.pos <= |batch|
      && IsChunkPrefix(PayloadsBy(cs, i), batch, c.pos)
      && NumberedInOrder(EntriesBy(cs, i), batch[..c.pos])
      && AllAtMost(EntriesBy(cs, i), counter)
    case Inc(name, n) =>
      if c.pos == 0 then PayloadsBy(cs, i) == []
      else c.pos == 1 && n >= 1 && PayloadsBy(cs, i) == [Count(name, n)]
  }

  ghost predicate AllAtMost(out: seq<Doc>, bound: int) {
    forall j :: 0 <= j < |out| ==> HasIdx(out[j]) && Idx(out[j]) <= bound
  }

  /** A transaction body that can still commit started from the stored value. */
  ghost predicate PhaseOk(s: Sys, c: Client, counters: set<string>) {
    && JobField(c.job) in counters
    && c.index >= 0
    && (c.phase.Attempt? || c.phase.Running? ==> !Finished(c))
    && (c.phase.Running? ==>
          && c.phase.version <= s.version
          && (c.phase.version == s.version ==>
                Stored(s.store.fields, JobField(c.job)).None?
                    || Stored(s.store.fields, JobField(c.job)) == Some(c.index)))
  }

  ghost predicate ClientOk(s: Sys, i: nat, counters: set<string>)
    requires i < |s.clients|
  {
    && PhaseOk(s, s.clients[i], counters)
    && ProgressOk(s.store.commits, CounterValue(s.store.fields, IDX), s.clients[i], i)
  }

  ghost predicate Inv(s: Sys, counters: set<string>) {
    && IDX in counters
    && Valid(s.store, counters)
    && (forall i :: 0 <= i < |s.clients| ==> ClientOk(s, i, counters))
    && (forall c :: c in s.store.commits ==> c.client < |s.clients|)
  }

  lemma ClientsInit(jobs: seq<Job>, fields: Option<map<string, int>>)
    requires NoCounterIn(fields, Counters(jobs))
    ensures Inv(Init(jobs, fields), Counters(jobs))
  {
    var s := Init(jobs, fields);
    forall i | 0 <= i < |jobs|
      ensures ClientOk(s, i, Counters(jobs))
    {
      assert JobField(jobs[i]) in Counters(jobs);
    }
  }

  /** Another client's commit touches nothing client j relies on. */
  lemma CommitKeepsOthers(s: Sys, s': Sys, i: nat, j: nat, counters: set<string>)
    requires Inv(s, counters) && i < |s.clients| && j < |s.clients| && i != j
    requires Next(s, CommitTx(i, true), counters) == Some(s') || Next(s, CommitTx(i, false), counters) == Some(s')
    ensures ClientOk(s', j, counters)
  {
    var commit := CommitOf(s, i);
    assert ClientOk(s, j, counters) && ClientOk(s, i, counters);
    assert s'.clients[j] == s.clients[j];
    ByOthers(s.store.commits, commit, j);
    CommitAccepted(s, i, counters);
  }

  lemma ByOthers(cs: seq<Commit>, c: Commit, j: nat)
    requires c.client != j
    ensures PayloadsBy(cs + [c], j) == PayloadsBy(cs, j)
    ensures EntriesBy(cs + [c], j) == EntriesBy(cs, j)
  {
    assert (cs + [c])[..|cs + [c]| - 1] == cs;
  }

  lemma CommitAccepted(s: Sys, i: nat, counters: set<string>)
    requires Inv(s, counters) && i < |s.clients|
    requires s.clients[i].phase == Running(s.version)
    ensures !Finished(s.clients[i]) && Accepted(s.store.fields, CommitOf(s, i))
    ensures CounterValue(s.store.fields, IDX) <= CounterValue(Apply(s.store, CommitOf(s, i)).fields, IDX)
    ensures CommitOf(s, i).On(IDX) ==> CounterValue(s.store.fields, IDX) <= s.clients[i].index
  {
    hide Chained;
    hide LogOf;
    hide LastEnd;
    hide PayloadsBy;
    hide EntriesBy;
    assert ClientOk(s, i, counters);
  }

  lemma NextChunk(batch: seq<Doc>, done: seq<Payload>, pos: nat)
    requires IsChunkPrefix(done, batch, pos) && pos < |batch|
    ensures pos == MAX_CHUNK * |done|
    ensures var more := batch[pos..pos + Min(MAX_CHUNK, |batch| - pos)];
            && 0 < |more| <= MAX_CHUNK
            && IsChunkPrefix(done + [Events(more)], batch, pos + |more|)
  {
  }

  lemma ExtendNumbered(out: seq<Doc>, docs: seq<Doc>, pos: nat, size: nat, base: int, added: seq<Doc>)
    requires pos + size <= |docs| && NumberedInOrder(out, docs[..pos])
    requires AllAtMost(out, base) && added == Stamp(docs[pos..pos + size], base)
    ensures NumberedInOrder(out + added, docs[..pos + size])
    ensures AllAtMost(out + added, base + size)
  {
    var all := out + added;
    forall j | 0 <= j < pos + size
      ensures HasIdx(all[j]) && all[j] == Numbered(docs[j], Idx(all[j])) && Idx(all[j]) <= base + size
      ensures j >= pos ==> Idx(all[j]) == base + 1 + (j - pos)
    {
      if j < pos {
        assert docs[..pos][j] == docs[j] && all[j] == out[j];
      } else {
        assert all[j] == Numbered(docs[j], base + 1 + (j - pos));
      }
    }
  }

  lemma CommitKeepsSelf(s: Sys, s': Sys, i: nat, acked: bool, counters: set<string>)
    requires Inv(s, counters) && i < |s.clients|
    requires Next(s, CommitTx(i, acked), counters) == Some(s')
    ensures ClientOk(s', i, counters)
  {
    var c, commit := s.clients[i], CommitOf(s, i);
    assert ClientOk(s, i, counters);
    CommitAccepted(s, i, counters);
    assert s'.store.commits[..|s'.store.commits| - 1] == s.store.commits;
    CommitProgress(s.store.commits, CounterValue(s.store.fields, IDX), c, i, commit, s'.clients[i]);
  }

  lemma CommitProgress(cs: seq<Commit>, counter: int, c: Client, i: nat, commit: Commit, c': Client)
    requires ProgressOk(cs, counter, c, i) && !Finished(c)
    requires commit == Commit(i, NextPayload(c), c.index)
    requires c'.job == c.job && c'.pos == c.pos + Advance(c)
    requires c.job.AddAll? ==> counter <= c.index
    ensures c.job.AddAll? ==> ProgressOk(cs + [commit], commit.End(), c', i)
    ensures c.job.Inc? ==> forall n :: ProgressOk(cs + [commit], n, c', i)
  {
    var cs' := cs + [commit];
    assert cs'[..|cs'| - 1] == cs;
    assert PayloadsBy(cs', i) == PayloadsBy(cs, i) + [commit.payload];
    if c.job.AddAll? {
      var size := commit.payload.Size();
      NextChunk(c.job.batch, PayloadsBy(cs, i), c.pos);
      ExtendNumbered(EntriesBy(cs, i), c.job.batch, c.pos, size, c.index, Entries(commit));
    }
  }

  lemma CommitKeepsInv(s: Sys, s': Sys, i: nat, acked: bool, counters: set<string>)
    requires Inv(s, counters) && i < |s.clients|
    requires Next(s, CommitTx(i, acked), counters) == Some(s')
    ensures Inv(s', counters)
  {
    assert ClientOk(s, i, counters);
    CommitAccepted(s, i, counters);
    ApplyKeepsValid(s.store, CommitOf(s, i), counters);
    CommitKeepsSelf(s, s', i, acked, counters);
    forall j | 0 <= j < |s'.clients|
      ensures ClientOk(s', j, counters)
    {
      if j != i {
        CommitKeepsOthers(s, s', i, j, counters);
      }
    }
  }

  /** A step that commits nothing leaves what is stored for the clients alone. */
  lemma OtherStepKeepsInv(s: Sys, step: Step, s': Sys, counters: set<string>)
    requires Inv(s, counters) && Next(s, step, counters) == Some(s') && !step.CommitTx?
    ensures Inv(s', counters)
  {
    forall j | 0 <= j < |s'.clients|
      ensures ClientOk(s', j, counters)
    {
      OtherStepKeepsClient(s, step, s', j, counters);
    }
  }

  lemma OtherStepKeepsClient(s: Sys, step: Step, s': Sys, j: nat, counters: set<string>)
    requires Inv(s, counters) && Next(s, step, counters) == Some(s') && !step.CommitTx? && j < |s.clients|
    ensures |s'.clients| == |s.clients| && ClientOk(s', j, counters)
  {
    assert ClientOk(s, j, counters);
    if Stored(s.store.fields, JobField(s.clients[j].job)).Some? {
      StoredNotNegative(s.store, counters, JobField(s.clients[j].job));
    }
    OtherStepKeepsPhase(s, step, s', j, counters);
    OtherStepKeepsStored(s, step, s', j, counters);
    ProgressKept(s.store.commits, CounterValue(s.store.fields, IDX), s.clients[j], s'.clients[j], j);
  }

  lemma StoredNotNegative(store: Store, counters: set<string>, f: string)
    requires Valid(store, counters) && f in counters && Stored(store.fields, f).Some?
    ensures Stored(store.fields, f).value >= 0
  {
    Tiling(store.commits, f);
  }

  lemma ProgressKept(cs: seq<Commit>, counter: int, c: Client, c': Client, i: nat)
    requires ProgressOk(cs, counter, c, i) && c'.job == c.job && c'.pos == c.pos
    ensures ProgressOk(cs, counter, c', i)
  {
  }

  lemma OtherStepKeepsStored(s: Sys, step: Step, s': Sys, j: nat, counters: set<string>)
    requires IDX in counters && Next(s, step, counters) == Some(s') && !step.CommitTx? && j < |s.clients|
    ensures s'.store.commits == s.store.commits
    ensures CounterValue(s'.store.fields, IDX) == CounterValue(s.store.fields, IDX)
    ensures |s'.clients| == |s.clients| && s'.clients[j].job == s.clients[j].job
            && s'.clients[j].pos == s.clients[j].pos
  {
    match step
    case Start(_) =>
    case Begin(_) =>
    case Abort(_, _) =>
    case Fail(_) =>
    case Merge(_, _) =>
  }

  lemma OtherStepKeepsPhase(s: Sys, step: Step, s': Sys, j: nat, counters: set<string>)
    requires Next(s, step, counters) == Some(s') && !step.CommitTx? && j < |s.clients|
    requires PhaseOk(s, s.clients[j], counters)
    requires var found := Stored(s.store.fields, JobField(s.clients[j].job)); found.Some? ==> found.value >= 0
    ensures |s'.clients| == |s.clients| && PhaseOk(s', s'.clients[j], counters)
  {
    match step
    case Start(_) =>
    case Begin(_) =>
    case Abort(_, _) =>
    case Fail(_) =>
    case Merge(_, _) =>
  }

  /** Every step keeps the invariant. */
  lemma StepKeepsInv(s: Sys, step: Step, s': Sys, counters: set<string>)
    requires Inv(s, counters) && Next(s, step, counters) == Some(s')
    ensures Inv(s', counters)
  {
    if step.CommitTx? {
      CommitKeepsInv(s, s', step.c, step.acked, counters);
    } else {
      OtherStepKeepsInv(s, step, s', counters);
    }
  }

  lemma {:induction false} RunKeepsInv(s: Sys, steps: seq<Step>, s': Sys, counters: set<string>)
    requires Inv(s, counters) && Run(s, steps, counters) == Some(s')
    ensures Inv(s', counters)
    decreases |steps|
  {
    if steps == [] {
    } else {
      var mid := Next(s, steps[0], counters).value;
      StepKeepsInv(s, steps[0], mid, counters);
      RunKeepsInv(mid, steps[1..], s', counters);
    }
  }
}
