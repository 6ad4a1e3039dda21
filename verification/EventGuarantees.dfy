/**
 What holds in every interleaving of clients adding events and incrementing counters
 (firestore/events.go): unique ordered indices, chunked batches stored in order,
 disjoint increments, and exactly when the indices have no gap.
 */
module EventGuarantees {
  import opened Wrappers
  import opened CounterDoc
  import opened EventSystem

  /** s is reachable when clients with these jobs start on a document with these fields. */
  ghost predicate Reachable(jobs: seq<Job>, fields: Option<map<string, int>>, steps: seq<Step>, s: Sys) {
    && NoCounterIn(fields, Counters(jobs))
    && Run(Init(jobs, fields), steps, Counters(jobs)) == Some(s)
  }

  /** Nobody uses Increment on the index field itself. */
  predicate IdxIsForEvents(jobs: seq<Job>) {
    forall i :: 0 <= i < |jobs| && jobs[i].Inc? ==> jobs[i].name != IDX
  }

  lemma ReachableInv(jobs: seq<Job>, fields: Option<map<string, int>>, steps: seq<Step>, s: Sys)
    requires Reachable(jobs, fields, steps, s)
    ensures Inv(s, Counters(jobs))
    ensures |s.clients| == |jobs|
    ensures forall i :: 0 <= i < |jobs| ==> s.clients[i].job == jobs[i]
  {
    ClientsInit(jobs, fields);
    RunKeepsInv(Init(jobs, fields), steps, s, Counters(jobs));
    RunKeepsJobs(Init(jobs, fields), steps, s, Counters(jobs));
  }

  lemma {:induction false} RunKeepsJobs(s: Sys, steps: seq<Step>, s': Sys, counters: set<string>)
    requires Run(s, steps, counters) == Some(s')
    ensures |s'.clients| == |s.clients|
    ensures forall i :: 0 <= i < |s.clients| ==> s'.clients[i].job == s.clients[i].job
    decreases |steps|
  {
    if steps == [] {
    } else {
      RunKeepsJobs(Next(s, steps[0], counters).value, steps[1..], s', counters);
    }
  }

  /** The place of commit k among its client's commits. */
  lemma {:induction false} PayloadIsRecorded(cs: seq<Commit>, k: nat) returns (n: nat)
    requires k < |cs|
    ensures n < |PayloadsBy(cs, cs[k].client)| && PayloadsBy(cs, cs[k].client)[n] == cs[k].payload
    decreases |cs|
  {
    if k < |cs| - 1 {
      n := PayloadIsRecorded(cs[..|cs| - 1], k);
    } else {
      n := |PayloadsBy(cs[..k], cs[k].client)|;
    }
  }

  /** Every committed transaction is one chunk of its client's batch, with at most MAX_CHUNK
      events, or its client's increment, and its body issues at most MAX_WRITES writes. */
  lemma CommitsAreJobs(jobs: seq<Job>, fields: Option<map<string, int>>, steps: seq<Step>, s: Sys, k: nat)
    returns (chunk: nat)
    requires Reachable(jobs, fields, steps, s) && k < |s.store.commits|
    ensures var c := s.store.commits[k];
            && c.client < |jobs|
            && (jobs[c.client].AddAll? ==>
                  && MAX_CHUNK * chunk < |jobs[c.client].batch|
                  && c.payload == Events(Chunk(jobs[c.client].batch, chunk))
                  && 1 <= |c.payload.docs| <= MAX_CHUNK)
            && (jobs[c.client].Inc? ==>
                  && jobs[c.client].n >= 1
                  && c.payload == Count(jobs[c.client].name, jobs[c.client].n))
            && (forall found: bool :: |BodyWrites(found, c)| <= MAX_WRITES)
  {
    hide Run;
    hide Chained;
    hide LogOf;
    hide LastEnd;
    hide PayloadsBy;
    hide EntriesBy;
    hide AllWritten;
    ReachableInv(jobs, fields, steps, s);
    var c := s.store.commits[k];
    assert c in s.store.commits && ClientOk(s, c.client, Counters(jobs));
    chunk := PayloadIsRecorded(s.store.commits, k);
    CommitIsBody(s.store, c);
  }

  lemma EventsOnIdx(jobs: seq<Job>, fields: Option<map<string, int>>, steps: seq<Step>, s: Sys)
    requires Reachable(jobs, fields, steps, s) && IdxIsForEvents(jobs)
    ensures OnlyEventsOnIdx(s.store.commits)
  {
    forall c | c in s.store.commits && c.On(IDX)
      ensures c.payload.Events?
    {
      var k :| 0 <= k < |s.store.commits| && s.store.commits[k] == c;
      var _ := CommitsAreJobs(jobs, fields, steps, s, k);
    }
  }

  /** In every interleaving, with any aborts: indices are distinct and increase with commit
      order, and the counter is the largest index. */
  lemma EventsUniqueAndOrdered(jobs: seq<Job>, fields: Option<map<string, int>>, steps: seq<Step>, s: Sys)
    requires Reachable(jobs, fields, steps, s)
    ensures Increasing(s.store.log)
    ensures forall i :: 0 <= i < |s.store.log| ==> Idx(s.store.log[i]) <= CounterValue(s.store.fields, IDX)
    ensures IdxIsForEvents(jobs) ==>
              CounterValue(s.store.fields, IDX) == if s.store.log == [] then 0 else Idx(s.store.log[|s.store.log| - 1])
  {
    ReachableInv(jobs, fields, steps, s);
    if IdxIsForEvents(jobs) {
      EventsOnIdx(jobs, fields, steps, s);
    }
    LogSound(s.store, Counters(jobs));
  }

  // ---------- later commits ----------

  lemma StepAppends(s: Sys, step: Step, s': Sys, counters: set<string>)
    requires Inv(s, counters) && Next(s, step, counters) == Some(s')
    ensures s.store.log <= s'.store.log
    ensures CounterValue(s.store.fields, IDX) <= CounterValue(s'.store.fields, IDX)
    ensures forall i :: |s.store.log| <= i < |s'.store.log| ==>
              HasIdx(s'.store.log[i]) && Idx(s'.store.log[i]) > CounterValue(s.store.fields, IDX)
  {
    if step.CommitTx? {
      CommitAccepted(s, step.c, counters);
      AppendsAbove(s.store.log, CommitOf(s, step.c), CounterValue(s.store.fields, IDX));
    }
  }

  lemma AppendsAbove(log: seq<Doc>, c: Commit, counter: int)
    requires c.On(IDX) ==> counter <= c.base
    ensures forall i :: |log| <= i < |log + Entries(c)| ==>
              HasIdx((log + Entries(c))[i]) && Idx((log + Entries(c))[i]) > counter
  {
    forall i | |log| <= i < |log + Entries(c)|
      ensures HasIdx((log + Entries(c))[i]) && Idx((log + Entries(c))[i]) > counter
    {
      EntryIdx(c, i - |log|);
    }
  }

  /** Whatever runs after state s, the log of s stays in place and everything added later
      has a larger index than the counter had in s: nothing appears behind it. */
  lemma {:induction false} NothingAppearsBehind(s: Sys, steps: seq<Step>, s': Sys, counters: set<string>)
    requires Inv(s, counters) && Run(s, steps, counters) == Some(s')
    ensures s.store.log <= s'.store.log
    ensures CounterValue(s.store.fields, IDX) <= CounterValue(s'.store.fields, IDX)
    ensures forall i :: |s.store.log| <= i < |s'.store.log| ==>
              HasIdx(s'.store.log[i]) && Idx(s'.store.log[i]) > CounterValue(s.store.fields, IDX)
    decreases |steps|
  {
    if steps == [] {
    } else {
      var mid := Next(s, steps[0], counters).value;
      StepAppends(s, steps[0], mid, counters);
      StepKeepsInv(s, steps[0], mid, counters);
      NothingAppearsBehind(mid, steps[1..], s', counters);
      forall i | |s.store.log| <= i < |s'.store.log|
        ensures HasIdx(s'.store.log[i]) && Idx(s'.store.log[i]) > CounterValue(s.store.fields, IDX)
      {
        if i < |mid.store.log| {
          assert mid.store.log[i] == s'.store.log[i];
        }
      }
    }
  }

  // ---------- batches ----------

  /** Wherever client i stands, even after it failed or lost a reply, the log holds exactly
      the first `stored` documents of its batch: whole chunks, in input order, with
      increasing indices, no matter what other clients wrote in between.  A client that is
      through and did not fail has stored all of it. */
  lemma BatchStoredInOrder(jobs: seq<Job>, fields: Option<map<string, int>>, steps: seq<Step>, s: Sys, i: nat)
    returns (stored: nat)
    requires Reachable(jobs, fields, steps, s) && i < |jobs| && jobs[i].AddAll?
    ensures stored <= |jobs[i].batch|
    ensures stored % MAX_CHUNK == 0 || stored == |jobs[i].batch|
    ensures IsChunkPrefix(PayloadsBy(s.store.commits, i), jobs[i].batch, stored)
    ensures NumberedInOrder(EntriesBy(s.store.commits, i), jobs[i].batch[..stored])
    ensures Subsequence(EntriesBy(s.store.commits, i), s.store.log)
    ensures |s.clients| == |jobs| && (Finished(s.clients[i]) <==> stored == |jobs[i].batch|)
  {
    ReachableInv(jobs, fields, steps, s);
    assert ClientOk(s, i, Counters(jobs));
    stored := s.clients[i].pos;
    assert stored % MAX_CHUNK == 0 || stored == |jobs[i].batch| by {
      ChunkAligned(PayloadsBy(s.store.commits, i), jobs[i].batch, stored);
    }
    EntriesAreLogged(s.store.commits, i);
  }

  lemma ChunkAligned(done: seq<Payload>, batch: seq<Doc>, pos: nat)
    requires IsChunkPrefix(done, batch, pos)
    ensures pos % MAX_CHUNK == 0 || pos == |batch|
  {
  }

  /** a can be obtained from b by leaving elements out. */
  ghost predicate Subsequence(a: seq<Doc>, b: seq<Doc>) {
    if a == [] then true
    else if b == [] then false
    else if a[|a| - 1] == b[|b| - 1] then Subsequence(a[..|a| - 1], b[..|b| - 1])
    else Subsequence(a, b[..|b| - 1])
  }

  lemma {:induction false} SubsequenceAppendBoth(a: seq<Doc>, b: seq<Doc>, more: seq<Doc>)
    requires Subsequence(a, b)
    ensures Subsequence(a + more, b + more)
    decreases |more|
  {
    if more == [] {
      assert a + more == a && b + more == b;
    } else {
      var m := |more| - 1;
      SubsequenceAppendBoth(a, b, more[..m]);
      assert (a + more)[..|a + more| - 1] == a + more[..m];
      assert (b + more)[..|b + more| - 1] == b + more[..m];
    }
  }

  lemma {:induction false} SubsequenceSkip(a: seq<Doc>, b: seq<Doc>, d: Doc)
    requires Subsequence(a, b)
    ensures Subsequence(a, b + [d])
    decreases |b|, 1
  {
    assert (b + [d])[..|b + [d]| - 1] == b;
    if a != [] && a[|a| - 1] == d {
      // match d with the last element of a instead
      SubsequenceDropLast(a, b);
    }
  }

  lemma {:induction false} SubsequenceDropLast(a: seq<Doc>, b: seq<Doc>)
    requires a != [] && Subsequence(a, b)
    ensures Subsequence(a[..|a| - 1], b)
    decreases |b|, 0
  {
    if a[|a| - 1] == b[|b| - 1] {
      SubsequenceSkip(a[..|a| - 1], b[..|b| - 1], b[|b| - 1]);
      assert b[..|b| - 1] + [b[|b| - 1]] == b;
    } else {
      SubsequenceDropLast(a, b[..|b| - 1]);
      SubsequenceSkip(a[..|a| - 1], b[..|b| - 1], b[|b| - 1]);
      assert b[..|b| - 1] + [b[|b| - 1]] == b;
    }
  }

  lemma {:induction false} SubsequenceSkipAll(a: seq<Doc>, b: seq<Doc>, more: seq<Doc>)
    requires Subsequence(a, b)
    ensures Subsequence(a, b + more)
    decreases |more|
  {
    if more == [] {
      assert b + more == b;
    } else {
      var m := |more| - 1;
      SubsequenceSkipAll(a, b, more[..m]);
      SubsequenceSkip(a, b + more[..m], more[m]);
      assert b + more[..m] + [more[m]] == b + more;
    }
  }

  lemma {:induction false} EntriesAreLogged(cs: seq<Commit>, i: nat)
    ensures Subsequence(EntriesBy(cs, i), LogOf(cs))
  {
    if cs == [] {
    } else {
      var before, c := cs[..|cs| - 1], cs[|cs| - 1];
      EntriesAreLogged(before, i);
      if c.client == i {
        SubsequenceAppendBoth(EntriesBy(before, i), LogOf(before), Entries(c));
      } else {
        assert EntriesBy(cs, i) == EntriesBy(before, i);
        SubsequenceSkipAll(EntriesBy(before, i), LogOf(before), Entries(c));
      }
    }
  }

  // ---------- increments ----------

  /** Increments of one field take pairwise disjoint ranges of their requested length, in
      commit order. */
  lemma IncrementsDisjoint(jobs: seq<Job>, fields: Option<map<string, int>>, steps: seq<Step>, s: Sys, a: nat, b: nat)
    requires Reachable(jobs, fields, steps, s) && a < b < |s.store.commits|
    requires var f := s.store.commits[a].payload.Field(); s.store.commits[b].On(f)
    ensures s.store.commits[a].End() < s.store.commits[b].base + 1
    ensures forall k :: a <= k <= b ==> s.store.commits[k].client < |jobs|
    ensures forall k :: a <= k <= b && jobs[s.store.commits[k].client].Inc? ==>
              s.store.commits[k].End() - s.store.commits[k].base == jobs[s.store.commits[k].client].n
  {
    ReachableInv(jobs, fields, steps, s);
    RangesOrdered(s.store.commits, s.store.commits[a].payload.Field(), a, b);
    forall k | a <= k <= b
      ensures s.store.commits[k].client < |jobs|
      ensures jobs[s.store.commits[k].client].Inc? ==>
                s.store.commits[k].End() - s.store.commits[k].base == jobs[s.store.commits[k].client].n
    {
      var _ := CommitsAreJobs(jobs, fields, steps, s, k);
    }
  }

  // ---------- gaps ----------

  /** A client whose earlier body left numbers in `index` re-runs it and finds no stored value. */
  predicate StaleRerun(s: Sys, step: Step) {
    && step.Begin?
    && step.c < |s.clients|
    && s.clients[step.c].index != 0
    && Stored(s.store.fields, JobField(s.clients[step.c].job)).None?
  }

  ghost predicate NoStaleRerun(s: Sys, steps: seq<Step>, counters: set<string>)
    decreases |steps|
  {
    steps != [] ==>
      && !StaleRerun(s, steps[0])
      && (Next(s, steps[0], counters).Some? ==> NoStaleRerun(Next(s, steps[0], counters).value, steps[1..], counters))
  }

  ghost predicate FreshBody(s: Sys, c: Client) {
    c.phase == Running(s.version) && Stored(s.store.fields, JobField(c.job)).None? ==> c.index == 0
  }

  ghost predicate FreshInv(s: Sys, counters: set<string>) {
    && (forall f :: f in counters ==> StartedAtZero(s.store.commits, f))
    && (forall i :: 0 <= i < |s.clients| ==> FreshBody(s, s.clients[i]))
  }

  lemma StepKeepsBody(s: Sys, step: Step, s': Sys, counters: set<string>, i: nat)
    requires Inv(s, counters) && i < |s.clients| && FreshBody(s, s.clients[i])
    requires Next(s, step, counters) == Some(s') && !StaleRerun(s, step)
    ensures i < |s'.clients| && FreshBody(s', s'.clients[i])
  {
    assert ClientOk(s, i, counters);
  }

  lemma CommitStartsAtZero(s: Sys, c: nat, counters: set<string>, f: string)
    requires Inv(s, counters) && c < |s.clients| && FreshBody(s, s.clients[c])
    requires s.clients[c].phase == Running(s.version) && !Finished(s.clients[c]) && f in counters
             && StartedAtZero(s.store.commits, f)
    ensures StartedAtZero(s.store.commits + [CommitOf(s, c)], f)
  {
    assert ClientOk(s, c, counters);
    var commit := CommitOf(s, c);
    var all := s.store.commits + [commit];
    assert all[..|all| - 1] == s.store.commits;
    NoCommitsOn(s.store.commits, f);
  }

  lemma StepKeepsFresh(s: Sys, step: Step, s': Sys, counters: set<string>)
    requires Inv(s, counters) && FreshInv(s, counters)
    requires Next(s, step, counters) == Some(s') && !StaleRerun(s, step)
    ensures FreshInv(s', counters)
  {
    forall i | 0 <= i < |s'.clients|
      ensures FreshBody(s', s'.clients[i])
    {
      StepKeepsBody(s, step, s', counters, i);
    }
    forall f | f in counters
      ensures StartedAtZero(s'.store.commits, f)
    {
      if step.CommitTx? {
        CommitStartsAtZero(s, step.c, counters, f);
      }
    }
  }

  lemma {:induction false} RunKeepsFresh(s: Sys, steps: seq<Step>, s': Sys, counters: set<string>)
    requires Inv(s, counters) && FreshInv(s, counters)
    requires Run(s, steps, counters) == Some(s') && NoStaleRerun(s, steps, counters)
    ensures FreshInv(s', counters)
    decreases |steps|
  {
    if steps == [] {
    } else {
      var mid := Next(s, steps[0], counters).value;
      StepKeepsInv(s, steps[0], mid, counters);
      StepKeepsFresh(s, steps[0], mid, counters);
      RunKeepsFresh(mid, steps[1..], s', counters);
    }
  }

  /** Without a stale re-run the indices are exactly 1..counter and every counter is the sum
      of what was taken from it. */
  lemma NoGapWithoutStaleRerun(jobs: seq<Job>, fields: Option<map<string, int>>, steps: seq<Step>, s: Sys)
    requires Reachable(jobs, fields, steps, s) && NoStaleRerun(Init(jobs, fields), steps, Counters(jobs))
    ensures IdxIsForEvents(jobs) ==> Contiguous(s.store.log, CounterValue(s.store.fields, IDX))
    ensures forall f :: f in Counters(jobs) ==> CounterValue(s.store.fields, f) == Sum(s.store.commits, f)
  {
    ReachableInv(jobs, fields, steps, s);
    ClientsInit(jobs, fields);
    RunKeepsFresh(Init(jobs, fields), steps, s, Counters(jobs));
    forall f | f in Counters(jobs)
      ensures CounterValue(s.store.fields, f) == Sum(s.store.commits, f)
    {
      CounterIsSumIff(s.store, Counters(jobs), f);
    }
    if IdxIsForEvents(jobs) {
      EventsOnIdx(jobs, fields, steps, s);
      ContiguousIff(s.store, Counters(jobs));
    }
  }

  /** A client commits on counter f with numbers carried over from an aborted body: it has some
      in `index` and none is stored. */
  predicate CarriesOver(s: Sys, step: Step, f: string) {
    && step.CommitTx? && step.c < |s.clients|
    && JobField(s.clients[step.c].job) == f
    && s.clients[step.c].index != 0 && Stored(s.store.fields, f).None?
  }

  /** Some step of the run does so. */
  predicate CarriedOver(s: Sys, steps: seq<Step>, counters: set<string>, f: string)
    decreases |steps|
  {
    steps != [] &&
    (CarriesOver(s, steps[0], f) ||
     (Next(s, steps[0], counters).Some? && CarriedOver(Next(s, steps[0], counters).value, steps[1..], counters, f)))
  }

  lemma StepStartsAtZero(s: Sys, step: Step, s': Sys, counters: set<string>, f: string)
    requires Inv(s, counters) && f in counters && Next(s, step, counters) == Some(s')
    ensures StartedAtZero(s'.store.commits, f) <==> StartedAtZero(s.store.commits, f) && !CarriesOver(s, step, f)
  {
    if step.CommitTx? {
      NoCommitsOn(s.store.commits, f);
      CommitAccepted(s, step.c, counters);
      StartedAppend(s.store.commits, CommitOf(s, step.c), f);
    }
  }

  lemma StartedAppend(cs: seq<Commit>, c: Commit, f: string)
    ensures StartedAtZero(cs + [c], f) <==>
              StartedAtZero(cs, f) && (FirstBase(cs, f).None? && c.On(f) ==> c.base == 0)
  {
    assert (cs + [c])[..|cs + [c]| - 1] == cs;
  }

  lemma {:induction false} StartedAtZeroIff(s: Sys, steps: seq<Step>, s': Sys, counters: set<string>, f: string)
    requires Inv(s, counters) && f in counters && Run(s, steps, counters) == Some(s')
    ensures StartedAtZero(s'.store.commits, f) <==>
              StartedAtZero(s.store.commits, f) && !CarriedOver(s, steps, counters, f)
    decreases |steps|
  {
    if steps == [] {
    } else {
      var mid := Next(s, steps[0], counters).value;
      StepStartsAtZero(s, steps[0], mid, counters, f);
      StepKeepsInv(s, steps[0], mid, counters);
      StartedAtZeroIff(mid, steps[1..], s', counters, f);
    }
  }

  /** Exactly: the log of a run has no gap if and only if no client committed events with
      numbers carried over from an aborted body while no index was stored. */
  lemma GapExactly(jobs: seq<Job>, fields: Option<map<string, int>>, steps: seq<Step>, s: Sys)
    requires Reachable(jobs, fields, steps, s) && IdxIsForEvents(jobs)
    ensures Contiguous(s.store.log, CounterValue(s.store.fields, IDX)) <==>
              !CarriedOver(Init(jobs, fields), steps, Counters(jobs), IDX)
  {
    ReachableInv(jobs, fields, steps, s);
    EventsOnIdx(jobs, fields, steps, s);
    ContiguousIff(s.store, Counters(jobs));
    ClientsInit(jobs, fields);
    StartedAtZeroIff(Init(jobs, fields), steps, s, Counters(jobs), IDX);
  }

  /** The same for every counter: it is the sum of what was taken from it if and only if no
      client committed on it with carried-over numbers while it was not stored. */
  lemma SumExactly(jobs: seq<Job>, fields: Option<map<string, int>>, steps: seq<Step>, s: Sys, f: string)
    requires Reachable(jobs, fields, steps, s) && f in Counters(jobs)
    ensures CounterValue(s.store.fields, f) == Sum(s.store.commits, f) <==>
              !CarriedOver(Init(jobs, fields), steps, Counters(jobs), f)
  {
    ReachableInv(jobs, fields, steps, s);
    CounterIsSumIff(s.store, Counters(jobs), f);
    ClientsInit(jobs, fields);
    StartedAtZeroIff(Init(jobs, fields), steps, s, Counters(jobs), f);
  }

  /** The first commit decides: once the log holds an event, no run opens or closes a gap. */
  lemma FirstCommitDecides(jobs: seq<Job>, fields: Option<map<string, int>>, before: seq<Step>, s: Sys,
                           steps: seq<Step>, s': Sys)
    requires Reachable(jobs, fields, before, s) && IdxIsForEvents(jobs) && s.store.log != []
    requires Run(s, steps, Counters(jobs)) == Some(s')
    ensures Contiguous(s.store.log, CounterValue(s.store.fields, IDX)) <==>
              Contiguous(s'.store.log, CounterValue(s'.store.fields, IDX))
  {
    ReachableInv(jobs, fields, before, s);
    RunAppend(Init(jobs, fields), before, s, steps, s', Counters(jobs));
    ReachableInv(jobs, fields, before + steps, s');
    EventsOnIdx(jobs, fields, before, s);
    EventsOnIdx(jobs, fields, before + steps, s');
    ContiguousIff(s.store, Counters(jobs));
    ContiguousIff(s'.store, Counters(jobs));
    NoCommitsOn(s.store.commits, IDX);
    FirstBaseStays(s, steps, s', Counters(jobs), IDX);
  }

  lemma {:induction false} FirstBaseStays(s: Sys, steps: seq<Step>, s': Sys, counters: set<string>, f: string)
    requires Run(s, steps, counters) == Some(s') && FirstBase(s.store.commits, f).Some?
    ensures FirstBase(s'.store.commits, f) == FirstBase(s.store.commits, f)
    decreases |steps|
  {
    if steps == [] {
    } else {
      var mid := Next(s, steps[0], counters).value;
      if steps[0].CommitTx? {
        assert mid.store.commits[..|mid.store.commits| - 1] == s.store.commits;
      }
      FirstBaseStays(mid, steps[1..], s', counters, f);
    }
  }

  function GapRun(): seq<Step> {
    [Start(0), Begin(0), Abort(0, 1), Begin(0), CommitTx(0, true)]
  }

  /** One event, one aborted attempt on an empty path: the only event gets index 2. */
  lemma GapExists(d: Doc)
    returns (s: Sys)
    ensures Reachable([AddAll([d])], None, GapRun(), s)
    ensures s.store.log == [Numbered(d, 2)] && CounterValue(s.store.fields, IDX) == 2
    ensures !Contiguous(s.store.log, CounterValue(s.store.fields, IDX))
  {
    var jobs := [AddAll([d])];
    var counters := Counters(jobs);
    var s0 := Init(jobs, None);
    var s1 := Next(s0, Start(0), counters).value;
    var s2 := Next(s1, Begin(0), counters).value;
    var s3 := Next(s2, Abort(0, 1), counters).value;
    var s4 := Next(s3, Begin(0), counters).value;
    s := Next(s4, CommitTx(0, true), counters).value;
    assert GapRun()[1..] == [Begin(0), Abort(0, 1), Begin(0), CommitTx(0, true)];
    assert GapRun()[1..][1..] == [Abort(0, 1), Begin(0), CommitTx(0, true)];
    assert Run(s, [], counters) == Some(s);
    assert Run(s4, [CommitTx(0, true)], counters) == Some(s);
    assert Run(s3, [Begin(0), CommitTx(0, true)], counters) == Some(s);
    assert Run(s2, [Abort(0, 1), Begin(0), CommitTx(0, true)], counters) == Some(s);
    assert Run(s1, [Begin(0), Abort(0, 1), Begin(0), CommitTx(0, true)], counters) == Some(s);
    assert s.store.log == [Numbered(d, 2)];
    assert Idx(s.store.log[0]) == 2;
  }
}
