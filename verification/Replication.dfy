/**
 One sigchain replicated between a key server and any number of devices, step by step.

 Devices run create, revoke and user-add (service/sigchain.go, service/user.go), push
 (service/push.go), update (service/update.go) and key removal, concurrently even on one
 device, and may fail between any two steps.  The server handles each PUT in two steps,
 first checking the statement against the chain it reads, then creating the document at
 the statement's sequence number (http/server/sigchain.go); requests stay in flight when
 their client has given up.
 */
module Replication {
  import opened Wrappers
  import opened Sigchain

  datatype PutStatus = Sent | Verified | Stored | Rejected

  datatype Put = Put(st: Statement, status: PutStatus)

  datatype Task =
    | Adding(dev: nat, chain: seq<Statement>, put: Option<nat>)               // chain ends with the new statement
    | Loaded(dev: nat, chain: seq<Statement>)                                 // push has read the local chain
    | Pushing(dev: nat, chain: seq<Statement>, next: nat, put: Option<nat>)   // chain[..next] is known to be remote
    | Updating(dev: nat, keep: seq<Statement>)                                // about to fetch; `keep` was pushed
    | Saving(dev: nat, chain: seq<Statement>, keep: seq<Statement>)           // about to replace the local chain
    | Over

  datatype State = State(docs: map<int, Statement>, puts: seq<Put>, saved: seq<seq<Statement>>, tasks: seq<Task>)

  datatype Step =
    | StartAdd(dev: nat, data: string, revoke: int, time: int, local: bool)
    | StartPush(dev: nat)
    | StartUpdate(dev: nat)
    | RemoveKey(dev: nat)
    | Compare(t: nat)      // push fetches the remote chain and compares the common prefix
    | Submit(t: nat)       // send (or re-send) the PUT for the next statement
    | Verify(p: nat)       // the server checks a statement
    | Create(p: nat)       // the server stores a checked statement
    | Reject(p: nat)       // the server refuses for a reason of its own
    | Ack(t: nat)          // the client learns that its statement is stored
    | Finish(t: nat)       // push has nothing left to save and goes on to pull
    | Fetch(t: nat)        // update fetches the remote chain
    | Save(t: nat)         // the local chain is replaced
    | Fail(t: nat)         // the call returns an error

  predicate Contiguous(docs: map<int, Statement>) {
    && (forall i :: i in docs.Keys ==> 1 <= i <= |docs|)
    && (forall i :: 1 <= i <= |docs| ==> i in docs.Keys)
  }

  /** The server's chain: its documents in sequence order. */
  function ChainOf(docs: map<int, Statement>): (chain: seq<Statement>)
    requires Contiguous(docs)
    ensures |chain| == |docs|
  {
    seq(|docs|, i requires 0 <= i < |docs| => docs[i + 1])
  }

  function WithTask(s: State, t: nat, task: Task): State
    requires t < |s.tasks|
  {
    s.(tasks := s.tasks[t := task])
  }

  /** The statement a task would send next. */
  function Pending(task: Task): Option<Statement> {
    match task
    case Adding(_, chain, _) => if chain == [] then None else Some(chain[|chain| - 1])
    case Pushing(_, chain, next, _) => if next < |chain| then Some(chain[next]) else None
    case _ => None
  }

  function StartTask(s: State, dev: nat, task: Task): Option<State> {
    if dev < |s.saved| then Some(s.(tasks := s.tasks + [task])) else None
  }

  function Compared(task: Task, docs: map<int, Statement>): Task
    requires task.Loaded? && Contiguous(docs)
  {
    var remote := ChainOf(docs);
    if task.chain == [] || !Agree(task.chain, remote) then Over
    else Pushing(task.dev, task.chain, if |remote| < |task.chain| then |remote| else |task.chain|, None)
  }

  /** One step of the system for key `kid`, or None when it is not possible. */
  function Next(kid: nat, s: State, step: Step): Option<State> {
    match step
    case StartAdd(dev, data, revoke, time, local) =>
      if dev >= |s.saved| then None
      else
        var chain := s.saved[dev] + [NewStatement(kid, s.saved[dev], data, revoke, time)];
        StartTask(s, dev, if local then Saving(dev, chain, []) else Adding(dev, chain, None))
    case StartPush(dev) => if dev < |s.saved| then StartTask(s, dev, Loaded(dev, s.saved[dev])) else None
    case StartUpdate(dev) => StartTask(s, dev, Updating(dev, []))
    case RemoveKey(dev) => if dev < |s.saved| then Some(s.(saved := s.saved[dev := []])) else None
    case Compare(t) =>
      if t < |s.tasks| && s.tasks[t].Loaded? && Contiguous(s.docs)
      then Some(WithTask(s, t, Compared(s.tasks[t], s.docs)))
      else None
    case Submit(t) =>
      if t < |s.tasks| && Pending(s.tasks[t]).Some?
      then
        var put := Put(Pending(s.tasks[t]).value, Sent);
        Some(WithTask(s, t, s.tasks[t].(put := Some(|s.puts|))).(puts := s.puts + [put]))
      else None
    case Verify(p) =>
      if p < |s.puts| && s.puts[p].status == Sent && Contiguous(s.docs)
      then
        var status := if Extends(kid, ChainOf(s.docs), s.puts[p].st) then Verified else Rejected;
        Some(s.(puts := s.puts[p := s.puts[p].(status := status)]))
      else None
    case Create(p) =>
      if p < |s.puts| && s.puts[p].status == Verified
      then
        var st := s.puts[p].st;
        if st.seqno in s.docs
        then Some(s.(puts := s.puts[p := Put(st, Rejected)]))
        else Some(s.(docs := s.docs[st.seqno := st], puts := s.puts[p := Put(st, Stored)]))
      else None
    case Reject(p) =>
      if p < |s.puts| && s.puts[p].status != Stored
      then Some(s.(puts := s.puts[p := s.puts[p].(status := Rejected)]))
      else None
    case Ack(t) =>
      if t < |s.tasks| && Pending(s.tasks[t]).Some? && s.tasks[t].put.Some?
         && s.tasks[t].put.value < |s.puts| && s.puts[s.tasks[t].put.value].status == Stored
      then
        var task := s.tasks[t];
        Some(WithTask(s, t,
          if task.Adding? then Saving(task.dev, task.chain, [])
          else Pushing(task.dev, task.chain, task.next + 1, None)))
      else None
    case Finish(t) =>
      if t < |s.tasks| && s.tasks[t].Pushing? && s.tasks[t].next >= |s.tasks[t].chain|
      then Some(WithTask(s, t, Updating(s.tasks[t].dev, s.tasks[t].chain)))
      else None
    case Fetch(t) =>
      if t < |s.tasks| && s.tasks[t].Updating? && Contiguous(s.docs)
      then Some(WithTask(s, t,
        if ChainOf(s.docs) == [] then Over else Saving(s.tasks[t].dev, ChainOf(s.docs), s.tasks[t].keep)))
      else None
    case Save(t) =>
      if t < |s.tasks| && s.tasks[t].Saving? && s.tasks[t].dev < |s.saved|
      then Some(WithTask(s, t, Over).(saved := s.saved[s.tasks[t].dev := s.tasks[t].chain]))
      else None
    case Fail(t) =>
      if t < |s.tasks| then Some(WithTask(s, t, Over)) else None
  }

  function Run(kid: nat, s: State, steps: seq<Step>): Option<State>
    decreases |steps|
  {
    if steps == [] then Some(s)
    else match Next(kid, s, steps[0])
      case None => None
      case Some(s') => Run(kid, s', steps[1..])
  }

  /** An empty server and devices that have nothing. */
  function Init(devices: nat): State {
    State(map[], [], seq(devices, i => []), [])
  }

  // ---------- invariant ----------

  ghost predicate ServerOk(kid: nat, docs: map<int, Statement>) {
    Contiguous(docs) && Chain(kid, ChainOf(docs))
  }

  /** A checked statement fits the server's chain at its place; a stored one is there. */
  ghost predicate PutOk(kid: nat, docs: map<int, Statement>, put: Put)
    requires Contiguous(docs)
  {
    && (put.status.Verified? ==>
          && 1 <= put.st.seqno <= |docs| + 1
          && Extends(kid, ChainOf(docs)[..put.st.seqno - 1], put.st))
    && (put.status.Stored? ==> put.st.seqno in docs && docs[put.st.seqno] == put.st)
  }

  ghost predicate PutFor(s: State, task: Task)
    requires task.Adding? || task.Pushing?
  {
    task.put.Some? && task.put.value < |s.puts| ==> Pending(task) == Some(s.puts[task.put.value].st)
  }

  ghost predicate TaskOk(kid: nat, s: State, task: Task)
    requires Contiguous(s.docs)
  {
    match task
    case Adding(_, chain, put) =>
      chain != [] && Chain(kid, chain) && PutFor(s, task) && (put.Some? ==> put.value < |s.puts|)
    case Loaded(_, chain) => Chain(kid, chain)
    case Pushing(_, chain, next, put) =>
      && Chain(kid, chain) && next <= |chain| && PrefixOf(chain[..next], ChainOf(s.docs))
      && PutFor(s, task) && (put.Some? ==> put.value < |s.puts|)
    case Updating(_, keep) => PrefixOf(keep, ChainOf(s.docs))
    case Saving(_, chain, keep) => Chain(kid, chain) && PrefixOf(keep, chain)
    case Over => true
  }

  ghost predicate Inv(kid: nat, s: State) {
    && ServerOk(kid, s.docs)
    && (forall p :: 0 <= p < |s.puts| ==> PutOk(kid, s.docs, s.puts[p]))
    && (forall d :: 0 <= d < |s.saved| ==> Chain(kid, s.saved[d]))
    && (forall t :: 0 <= t < |s.tasks| ==> TaskOk(kid, s, s.tasks[t]))
  }

  /** Nothing local is ahead of the server, except the statement being added. */
  ghost predicate Synced(s: State) {
    && Contiguous(s.docs)
    && (forall d :: 0 <= d < |s.saved| ==> PrefixOf(s.saved[d], ChainOf(s.docs)))
    && (forall t :: 0 <= t < |s.tasks| ==> TaskSynced(s, s.tasks[t]))
  }

  ghost predicate TaskSynced(s: State, task: Task)
    requires Contiguous(s.docs)
  {
    match task
    case Adding(_, chain, _) => chain != [] && PrefixOf(chain[..|chain| - 1], ChainOf(s.docs))
    case Loaded(_, chain) => PrefixOf(chain, ChainOf(s.docs))
    case Pushing(_, chain, _, _) => PrefixOf(chain, ChainOf(s.docs))
    case Saving(_, chain, _) => PrefixOf(chain, ChainOf(s.docs))
    case _ => true
  }

  // ---------- the server ----------

  lemma StoreAppends(kid: nat, docs: map<int, Statement>, st: Statement)
    requires ServerOk(kid, docs) && PutOk(kid, docs, Put(st, Verified)) && st.seqno !in docs
    ensures ServerOk(kid, docs[st.seqno := st])
    ensures ChainOf(docs[st.seqno := st]) == ChainOf(docs) + [st]
    ensures Extends(kid, ChainOf(docs), st)
  {
    var docs' := docs[st.seqno := st];
    assert st.seqno == |docs| + 1;
    assert ChainOf(docs)[..|docs|] == ChainOf(docs);
    assert |docs'| == |docs| + 1;
    assert Contiguous(docs');
    assert ChainOf(docs') == ChainOf(docs) + [st];
    ChainAppend(kid, ChainOf(docs), st);
  }

  /** However its two-step requests interleave, the server only ever appends a statement that
      extends its chain by one; every other step leaves the chain as it is. */
  lemma ServerAcceptsOnlyExtensions(kid: nat, s: State, step: Step, s': State)
    requires Inv(kid, s) && Next(kid, s, step) == Some(s')
    ensures ServerOk(kid, s'.docs)
    ensures ChainOf(s'.docs) == ChainOf(s.docs)
            || exists st :: Extends(kid, ChainOf(s.docs), st) && ChainOf(s'.docs) == ChainOf(s.docs) + [st]
    ensures PrefixOf(ChainOf(s.docs), ChainOf(s'.docs))
  {
    if step.Create? && s.puts[step.p].st.seqno !in s.docs {
      assert PutOk(kid, s.docs, s.puts[step.p]);
      StoreAppends(kid, s.docs, s.puts[step.p].st);
    }
  }

  lemma PutKept(kid: nat, docs: map<int, Statement>, docs': map<int, Statement>, put: Put)
    requires Contiguous(docs) && Contiguous(docs') && PutOk(kid, docs, put)
    requires PrefixOf(ChainOf(docs), ChainOf(docs'))
    ensures PutOk(kid, docs', put)
  {
    if put.status.Verified? {
      assert ChainOf(docs')[..put.st.seqno - 1] == ChainOf(docs)[..put.st.seqno - 1];
    }
    if put.status.Stored? {
      assert ChainOf(docs)[put.st.seqno - 1] == ChainOf(docs')[put.st.seqno - 1];
    }
  }

  lemma TaskKept(kid: nat, s: State, s': State, task: Task)
    requires Contiguous(s.docs) && Contiguous(s'.docs) && TaskOk(kid, s, task)
    requires PrefixOf(ChainOf(s.docs), ChainOf(s'.docs))
    requires |s.puts| <= |s'.puts| && forall p :: 0 <= p < |s.puts| ==> s'.puts[p].st == s.puts[p].st
    ensures TaskOk(kid, s', task)
  {
  }

  // ---------- every step keeps the invariant ----------

  lemma PutsKept(kid: nat, s: State, step: Step, s': State)
    requires Inv(kid, s) && Next(kid, s, step) == Some(s')
    requires Contiguous(s'.docs) && PrefixOf(ChainOf(s.docs), ChainOf(s'.docs))
    ensures forall p :: 0 <= p < |s'.puts| ==> PutOk(kid, s'.docs, s'.puts[p])
  {
    forall p | 0 <= p < |s'.puts|
      ensures PutOk(kid, s'.docs, s'.puts[p])
    {
      if p < |s.puts| {
        assert PutOk(kid, s.docs, s.puts[p]);
        if step.Verify? && step.p == p {
          assert ChainOf(s.docs)[..|s.docs|] == ChainOf(s.docs);
        } else if s'.puts[p] == s.puts[p] {
          PutKept(kid, s.docs, s'.docs, s.puts[p]);
        }
      }
    }
  }

  lemma AckedIsRemote(kid: nat, s: State, t: nat)
    requires Inv(kid, s) && Next(kid, s, Ack(t)).Some?
    ensures var task := s.tasks[t];
            var n := if task.Adding? then |task.chain| else task.next + 1;
            n <= |task.chain| && PrefixOf(task.chain[..n], ChainOf(s.docs))
  {
    var task := s.tasks[t];
    assert TaskOk(kid, s, task) && PutOk(kid, s.docs, s.puts[task.put.value]);
    var i := if task.Adding? then |task.chain| - 1 else task.next;
    assert LinkAt(kid, task.chain, i);
    assert ChainOf(s.docs)[i] == task.chain[i];
    StatementFixesPast(kid, task.chain, ChainOf(s.docs), i);
    SlicesArePrefix(task.chain, ChainOf(s.docs), i + 1);
    assert task.Adding? ==> task.chain[..i + 1] == task.chain;
  }

  lemma TasksKept(kid: nat, s: State, step: Step, s': State)
    requires Inv(kid, s) && Next(kid, s, step) == Some(s')
    requires Contiguous(s'.docs) && PrefixOf(ChainOf(s.docs), ChainOf(s'.docs))
    ensures forall t :: 0 <= t < |s'.tasks| ==> TaskOk(kid, s', s'.tasks[t])
  {
    forall t | 0 <= t < |s'.tasks|
      ensures TaskOk(kid, s', s'.tasks[t])
    {
      if t < |s.tasks| {
        assert TaskOk(kid, s, s.tasks[t]);
        if s'.tasks[t] == s.tasks[t] {
          TaskKept(kid, s, s', s.tasks[t]);
        } else {
          StepTaskOk(kid, s, step, s', t);
        }
      } else if step.StartAdd? {
        assert Chain(kid, s.saved[step.dev]);
        ChainAppend(kid, s.saved[step.dev], NewStatement(kid, s.saved[step.dev], step.data, step.revoke, step.time));
      }
    }
  }

  lemma StepTaskOk(kid: nat, s: State, step: Step, s': State, t: nat)
    requires Inv(kid, s) && Next(kid, s, step) == Some(s')
    requires Contiguous(s'.docs) && PrefixOf(ChainOf(s.docs), ChainOf(s'.docs))
    requires t < |s.tasks| && t < |s'.tasks| && s'.tasks[t] != s.tasks[t]
    ensures TaskOk(kid, s', s'.tasks[t])
  {
    var task := s.tasks[t];
    assert TaskOk(kid, s, task);
    match step
    case Ack(_) =>
      AckedIsRemote(kid, s, t);
    case Compare(_) =>
      if s'.tasks[t].Pushing? {
        assert forall k :: 0 <= k < s'.tasks[t].next ==> task.chain[..s'.tasks[t].next][k] == ChainOf(s.docs)[k];
      }
    case Finish(_) =>
      assert task.chain[..task.next] == task.chain;
    case Submit(_) =>
    case Fetch(_) =>
    case Save(_) =>
    case Fail(_) =>
    case _ =>
  }

  lemma StepKeepsInv(kid: nat, s: State, step: Step, s': State)
    requires Inv(kid, s) && Next(kid, s, step) == Some(s')
    ensures Inv(kid, s')
    ensures PrefixOf(ChainOf(s.docs), ChainOf(s'.docs))
  {
    ServerAcceptsOnlyExtensions(kid, s, step, s');
    PutsKept(kid, s, step, s');
    TasksKept(kid, s, step, s');
    forall d | 0 <= d < |s'.saved|
      ensures Chain(kid, s'.saved[d])
    {
      if step.Save? {
        assert TaskOk(kid, s, s.tasks[step.t]);
      }
    }
  }

  /** In every run, whoever writes what where: the server's chain stays a chain and only grows. */
  lemma {:induction false} RemoteOnlyGrows(kid: nat, s: State, steps: seq<Step>, s': State)
    requires Inv(kid, s) && Run(kid, s, steps) == Some(s')
    ensures Inv(kid, s')
    ensures PrefixOf(ChainOf(s.docs), ChainOf(s'.docs))
    decreases |steps|
  {
    if steps == [] {
    } else {
      var mid := Next(kid, s, steps[0]).value;
      StepKeepsInv(kid, s, steps[0], mid);
      RemoteOnlyGrows(kid, mid, steps[1..], s');
    }
  }

  // ---------- devices never ahead of the server ----------

  predicate IsLocal(step: Step) {
    step.StartAdd? && step.local
  }

  lemma TaskStaysSynced(s: State, s': State, task: Task)
    requires Contiguous(s.docs) && Contiguous(s'.docs) && TaskSynced(s, task)
    requires PrefixOf(ChainOf(s.docs), ChainOf(s'.docs))
    ensures TaskSynced(s', task)
  {
  }

  lemma StepTaskSynced(kid: nat, s: State, step: Step, s': State, t: nat)
    requires Inv(kid, s) && Synced(s) && Next(kid, s, step) == Some(s') && !IsLocal(step)
    requires Contiguous(s'.docs) && PrefixOf(ChainOf(s.docs), ChainOf(s'.docs))
    requires t < |s'.tasks| && (t < |s.tasks| ==> s'.tasks[t] != s.tasks[t])
    ensures TaskSynced(s', s'.tasks[t])
  {
    if t < |s.tasks| {
      assert TaskSynced(s, s.tasks[t]) && TaskOk(kid, s, s.tasks[t]);
      if step == Ack(t) {
        AckedIsRemote(kid, s, t);
        assert s.tasks[t].Adding? ==> s.tasks[t].chain[..|s.tasks[t].chain|] == s.tasks[t].chain;
      }
    } else if step.StartAdd? {
      var chain := s'.tasks[t].chain;
      assert chain[..|chain| - 1] == s.saved[step.dev];
    }
  }

  lemma StepKeepsSynced(kid: nat, s: State, step: Step, s': State)
    requires Inv(kid, s) && Synced(s) && Next(kid, s, step) == Some(s') && !IsLocal(step)
    ensures Synced(s')
  {
    StepKeepsInv(kid, s, step, s');
    forall t | 0 <= t < |s'.tasks|
      ensures TaskSynced(s', s'.tasks[t])
    {
      if t < |s.tasks| && s'.tasks[t] == s.tasks[t] {
        assert TaskSynced(s, s.tasks[t]);
        TaskStaysSynced(s, s', s.tasks[t]);
      } else {
        StepTaskSynced(kid, s, step, s', t);
      }
    }
    forall d | 0 <= d < |s'.saved|
      ensures PrefixOf(s'.saved[d], ChainOf(s'.docs))
    {
      if step.Save? {
        assert TaskSynced(s, s.tasks[step.t]);
      }
    }
  }

  lemma {:induction false} RunKeepsSynced(kid: nat, s: State, steps: seq<Step>, s': State)
    requires Inv(kid, s) && Synced(s) && Run(kid, s, steps) == Some(s')
    requires forall i :: 0 <= i < |steps| ==> !IsLocal(steps[i])
    ensures Inv(kid, s') && Synced(s')
    decreases |steps|
  {
    if steps == [] {
    } else {
      var mid := Next(kid, s, steps[0]).value;
      StepKeepsInv(kid, s, steps[0], mid);
      StepKeepsSynced(kid, s, steps[0], mid);
      RunKeepsSynced(kid, mid, steps[1..], s');
    }
  }

  lemma InitOk(kid: nat, devices: nat)
    ensures Inv(kid, Init(devices)) && Synced(Init(devices))
  {
  }

  /** Without Local writes, in every reachable state, also between a remote save and the local
      one or after any failure, each device's saved chain is a prefix of the server's. */
  lemma DevicesNeverAhead(kid: nat, devices: nat, steps: seq<Step>, s: State)
    requires Run(kid, Init(devices), steps) == Some(s)
    requires forall i :: 0 <= i < |steps| ==> !IsLocal(steps[i])
    ensures Contiguous(s.docs) && Chain(kid, ChainOf(s.docs))
    ensures forall d :: 0 <= d < |s.saved| ==> PrefixOf(s.saved[d], ChainOf(s.docs))
  {
    InitOk(kid, devices);
    RunKeepsSynced(kid, Init(devices), steps, s);
  }

  /** The stages of a push of chain `mine` on device dev. */
  predicate IsPush(task: Task, dev: nat, mine: seq<Statement>) {
    match task
    case Loaded(d, chain) => d == dev && chain == mine
    case Pushing(d, chain, _, _) => d == dev && chain == mine
    case Updating(d, keep) => d == dev && keep == mine
    case Saving(d, _, keep) => d == dev && keep == mine
    case Adding(_, _, _) => false
    case Over => true
  }

  lemma {:induction false} PushStaysPush(kid: nat, s: State, steps: seq<Step>, s': State, t: nat, dev: nat,
                                         mine: seq<Statement>)
    requires Run(kid, s, steps) == Some(s') && t < |s.tasks| && IsPush(s.tasks[t], dev, mine)
    ensures t < |s'.tasks| && IsPush(s'.tasks[t], dev, mine) && |s'.saved| == |s.saved|
    decreases |steps|
  {
    if steps == [] {
    } else {
      var mid := Next(kid, s, steps[0]).value;
      StepStaysPush(kid, s, steps[0], mid, t, dev, mine);
      PushStaysPush(kid, mid, steps[1..], s', t, dev, mine);
    }
  }

  lemma StepStaysPush(kid: nat, s: State, step: Step, s': State, t: nat, dev: nat, mine: seq<Statement>)
    requires Next(kid, s, step) == Some(s') && t < |s.tasks| && IsPush(s.tasks[t], dev, mine)
    ensures t < |s'.tasks| && IsPush(s'.tasks[t], dev, mine) && |s'.saved| == |s.saved|
  {
    match step
    case StartAdd(_, _, _, _, _) =>
    case StartPush(_) =>
    case StartUpdate(_) =>
    case RemoveKey(_) =>
    case Compare(_) =>
    case Submit(_) =>
    case Verify(_) =>
    case Create(_) =>
    case Reject(_) =>
    case Ack(_) =>
    case Finish(_) =>
    case Fetch(_) =>
    case Save(_) =>
    case Fail(_) =>
  }

  /** A push started in any reachable state: if it gets as far as saving what it pulled, then
      everything the device had when the push started is in the chain it saves, with any other
      writers on the server and on the device, and with Local writes allowed. */
  lemma PushKeepsStatements(kid: nat, devices: nat, before: seq<Step>, s: State, dev: nat, s0: State,
                            steps: seq<Step>, s1: State, s2: State)
    requires Run(kid, Init(devices), before) == Some(s)
    requires Next(kid, s, StartPush(dev)) == Some(s0)
    requires Run(kid, s0, steps) == Some(s1)
    requires Next(kid, s1, Save(|s.tasks|)) == Some(s2)
    ensures dev < |s.saved| == |s2.saved| && PrefixOf(s.saved[dev], s2.saved[dev])
  {
    InitOk(kid, devices);
    RemoteOnlyGrows(kid, Init(devices), before, s);
    StepKeepsInv(kid, s, StartPush(dev), s0);
    RemoteOnlyGrows(kid, s0, steps, s1);
    PushStaysPush(kid, s0, steps, s1, |s.tasks|, dev, s.saved[dev]);
    assert TaskOk(kid, s1, s1.tasks[|s.tasks|]);
  }

  /** With a Local write a device can get ahead of the server. */
  lemma LocalWriteGetsAhead(kid: nat) returns (s: State)
    ensures Run(kid, Init(1), [StartAdd(0, "a", 0, 0, true), Save(0)]) == Some(s)
    ensures Contiguous(s.docs) && |s.saved| == 1 && !PrefixOf(s.saved[0], ChainOf(s.docs))
  {
    var s0 := Init(1);
    var s1 := Next(kid, s0, StartAdd(0, "a", 0, 0, true)).value;
    s := Next(kid, s1, Save(0)).value;
    assert Run(kid, s, []) == Some(s);
    assert Run(kid, s1, [Save(0)]) == Some(s);
    assert [StartAdd(0, "a", 0, 0, true), Save(0)][1..] == [Save(0)];
  }
}
