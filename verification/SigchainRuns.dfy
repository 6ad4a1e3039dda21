/**
 The calls of `Push` as parts of runs of the step system: when the other writers are devices
 and server of `Replication`, what a push, an update or a new statement does is one of its
 runs, so that everything proved about those holds for the code.

 A plan says which steps others attempt around each request.  Playing the plan gives the steps
 the system makes, the call's own among them, and the network the call meets.
 */
module SigchainRuns {
  import opened Wrappers
  import opened Sigchain
  import opened SigchainCalls
  import opened Replication

  function Remote(s: State): seq<Statement> {
    if Contiguous(s.docs) then ChainOf(s.docs) else []
  }

  function Make(kid: nat, s: State, step: Step): State {
    match Next(kid, s, step)
    case Some(s') => s'
    case None => s
  }

  /** A run that starts where the invariant holds. */
  ghost predicate Leads(kid: nat, s: State, steps: seq<Step>, s': State) {
    Inv(kid, s) && Run(kid, s, steps) == Some(s') && Inv(kid, s')
  }

  lemma LeadsNowhere(kid: nat, s: State)
    requires Inv(kid, s)
    ensures Leads(kid, s, [], s)
  {
  }

  lemma LeadsOn(kid: nat, s: State, step: Step, mid: State, steps: seq<Step>, s': State)
    requires Inv(kid, s) && Next(kid, s, step) == Some(mid) && Leads(kid, mid, steps, s')
    ensures Leads(kid, s, [step] + steps, s')
  {
    assert ([step] + steps)[1..] == steps;
  }

  lemma {:induction false} LeadsFarther(kid: nat, s: State, a: seq<Step>, mid: State, b: seq<Step>, s': State)
    requires Leads(kid, s, a, mid) && Leads(kid, mid, b, s')
    ensures Leads(kid, s, a + b, s')
    decreases |a|
  {
    if a == [] {
      assert a + b == b;
    } else {
      var next := Next(kid, s, a[0]).value;
      StepKeepsInv(kid, s, a[0], next);
      assert (a + b)[1..] == a[1..] + b;
      LeadsFarther(kid, next, a[1..], mid, b, s');
    }
  }

  lemma LeadsStep(kid: nat, s: State, steps: seq<Step>, mid: State, step: Step, s': State)
    requires Leads(kid, s, steps, mid) && Next(kid, mid, step) == Some(s')
    ensures Leads(kid, s, steps + [step], s')
  {
    StepKeepsInv(kid, mid, step, s');
    LeadsNowhere(kid, s');
    LeadsOn(kid, mid, step, s', [], s');
    assert [step] + [] == [step];
    LeadsFarther(kid, s, steps, mid, [step], s');
  }

  // ---------- the others ----------

  /** The step belongs to task t, or changes the local chain of its device. */
  predicate Touches(s: State, step: Step, t: nat, dev: nat) {
    match step
    case RemoveKey(d) => d == dev
    case Save(i) => i == t || (i < |s.tasks| && s.tasks[i].Saving? && s.tasks[i].dev == dev)
    case Compare(i) => i == t
    case Submit(i) => i == t
    case Ack(i) => i == t
    case Finish(i) => i == t
    case Fetch(i) => i == t
    case Fail(i) => i == t
    case _ => false
  }

  /** The statement a possible step adds to the chain. */
  function Gained(s: State, step: Step): seq<Statement> {
    if step.Create? && step.p < |s.puts| && s.puts[step.p].st.seqno !in s.docs then [s.puts[step.p].st] else []
  }

  /** Where some steps lead, which of them were made, and what the server stored. */
  datatype Played = Played(state: State, steps: seq<Step>, sts: seq<Statement>)

  /** Others make those of `steps` that are possible when their turn comes. */
  function PlayOthers(kid: nat, s: State, steps: seq<Step>, t: nat, dev: nat): Played
    decreases |steps|
  {
    if steps == [] then Played(s, [], [])
    else
      var made := if Touches(s, steps[0], t, dev) then None else Next(kid, s, steps[0]);
      match made
      case None => PlayOthers(kid, s, steps[1..], t, dev)
      case Some(s') =>
        var rest := PlayOthers(kid, s', steps[1..], t, dev);
        Played(rest.state, [steps[0]] + rest.steps, Gained(s, steps[0]) + rest.sts)
  }

  predicate At(s: State, t: nat, dev: nat) {
    t < |s.tasks| && dev < |s.saved|
  }

  predicate Untouched(s: State, s': State, t: nat, dev: nat) {
    At(s, t, dev) && At(s', t, dev) && s'.tasks[t] == s.tasks[t] && s'.saved[dev] == s.saved[dev]
  }

  lemma {:induction false} AcceptJoin(kid: nat, chain: seq<Statement>, a: seq<Statement>, b: seq<Statement>)
    ensures Accept(kid, chain, a + b) == Accept(kid, Accept(kid, chain, a), b)
    decreases |b|
  {
    if b == [] {
      assert a + b == a;
    } else {
      var front, st := b[..|b| - 1], b[|b| - 1];
      AcceptJoin(kid, chain, a, front);
      AcceptStep(kid, chain, a + front, st);
      assert a + b == a + front + [st];
    }
  }

  lemma AcceptOne(kid: nat, chain: seq<Statement>, st: Statement)
    ensures Accept(kid, chain, []) == chain
    ensures Accept(kid, chain, [st]) == if Extends(kid, chain, st) then chain + [st] else chain
  {
    AcceptStep(kid, chain, [], st);
    assert [] + [st] == [st];
  }

  lemma StepGains(kid: nat, s: State, step: Step, s': State, t: nat, dev: nat)
    requires Inv(kid, s) && Next(kid, s, step) == Some(s') && At(s, t, dev) && !Touches(s, step, t, dev)
    ensures Inv(kid, s') && Untouched(s, s', t, dev)
    ensures Remote(s') == Accept(kid, Remote(s), Gained(s, step))
  {
    StepKeepsInv(kid, s, step, s');
    if Gained(s, step) == [] {
    } else {
      var st := s.puts[step.p].st;
      assert PutOk(kid, s.docs, s.puts[step.p]);
      StoreAppends(kid, s.docs, st);
      AcceptOne(kid, Remote(s), st);
    }
  }

  lemma {:induction false} OthersAreRun(kid: nat, s: State, steps: seq<Step>, t: nat, dev: nat)
    requires Inv(kid, s) && At(s, t, dev)
    ensures var play := PlayOthers(kid, s, steps, t, dev);
            && Leads(kid, s, play.steps, play.state) && Untouched(s, play.state, t, dev)
            && Remote(play.state) == Accept(kid, Remote(s), play.sts)
    decreases |steps|
  {
    hide Run;
    hide Accept;
    if steps == [] {
      LeadsNowhere(kid, s);
      AcceptNothing(kid, Remote(s));
    } else if !Touches(s, steps[0], t, dev) && Next(kid, s, steps[0]).Some? {
      var mid := Next(kid, s, steps[0]).value;
      StepGains(kid, s, steps[0], mid, t, dev);
      OthersAreRun(kid, mid, steps[1..], t, dev);
      var rest := PlayOthers(kid, mid, steps[1..], t, dev);
      AcceptJoin(kid, Remote(s), Gained(s, steps[0]), rest.sts);
      LeadsOn(kid, s, steps[0], mid, rest.steps, rest.state);
    } else {
      OthersAreRun(kid, s, steps[1..], t, dev);
    }
  }

  lemma AcceptNothing(kid: nat, chain: seq<Statement>)
    ensures Accept(kid, chain, []) == chain
  {
  }

  // ---------- one request ----------

  /** What others attempt before the server handles a request and after it, and how it ends. */
  datatype Plan = Plan(before: seq<Step>, ending: Ending, after: seq<Step>)

  datatype PlayedRequest = PlayedRequest(state: State, steps: seq<Step>, net: Net)

  function PlanAt(plans: seq<Plan>, k: nat): Plan {
    if k < |plans| then plans[k] else Plan([], Refused, [])
  }

  /** The server handles the statement that task t sends as request number |s.puts|. */
  function PlayPutSteps(kid: nat, s: State, t: nat, refused: bool): Played {
    var p := |s.puts|;
    var sent := Make(kid, s, Submit(t));
    if refused then Played(Make(kid, sent, Reject(p)), [Submit(t), Reject(p)], [])
    else
      var checked := Make(kid, sent, Verify(p));
      if p < |checked.puts| && checked.puts[p].status == Verified
      then Played(Make(kid, checked, Create(p)), [Submit(t), Verify(p), Create(p)], [])
      else Played(checked, [Submit(t), Verify(p)], [])
  }

  lemma RefusedIsRun(kid: nat, s: State, t: nat, dev: nat)
    requires Inv(kid, s) && At(s, t, dev) && Pending(s.tasks[t]).Some?
    ensures var play := PlayPutSteps(kid, s, t, true);
            && Leads(kid, s, play.steps, play.state)
            && play.state.docs == s.docs && play.state.saved == s.saved && |play.state.tasks| == |s.tasks|
            && |s.puts| < |play.state.puts| && play.state.puts[|s.puts|].status == Rejected
  {
    hide Run;
    var p, sent := |s.puts|, Make(kid, s, Submit(t));
    LeadsNowhere(kid, s);
    LeadsStep(kid, s, [], s, Submit(t), sent);
    LeadsStep(kid, s, [] + [Submit(t)], sent, Reject(p), Make(kid, sent, Reject(p)));
    assert [] + [Submit(t)] + [Reject(p)] == [Submit(t), Reject(p)];
  }

  /** A request that is not refused is stored exactly when it extends the chain. */
  lemma HandledIsRun(kid: nat, s: State, t: nat, dev: nat)
    requires Inv(kid, s) && At(s, t, dev) && Pending(s.tasks[t]).Some?
    ensures var play, p, st := PlayPutSteps(kid, s, t, false), |s.puts|, Pending(s.tasks[t]).value;
            var s' := play.state;
            && Leads(kid, s, play.steps, s') && s'.saved == s.saved && |s'.tasks| == |s.tasks|
            && s'.tasks[t] == s.tasks[t].(put := Some(p)) && p < |s'.puts|
            && (s'.puts[p].status == Stored <==> Extends(kid, Remote(s), st))
            && Remote(s') == if Extends(kid, Remote(s), st) then Remote(s) + [st] else Remote(s)
  {
    hide Run;
    var p, st, sent := |s.puts|, Pending(s.tasks[t]).value, Make(kid, s, Submit(t));
    LeadsNowhere(kid, s);
    LeadsStep(kid, s, [], s, Submit(t), sent);
    var checked := Make(kid, sent, Verify(p));
    LeadsStep(kid, s, [] + [Submit(t)], sent, Verify(p), checked);
    assert [] + [Submit(t)] + [Verify(p)] == [Submit(t), Verify(p)];
    if Extends(kid, Remote(s), st) {
      StoreAppends(kid, checked.docs, st);
      LeadsStep(kid, s, [Submit(t), Verify(p)], checked, Create(p), Make(kid, checked, Create(p)));
      assert [Submit(t), Verify(p)] + [Create(p)] == [Submit(t), Verify(p), Create(p)];
    }
  }

  predicate IsStored(s: State, p: nat) {
    p < |s.puts| && s.puts[p].status == Stored
  }

  /** How the request ends for its client. */
  function EndOfPut(s: State, p: nat, ending: Ending, t: nat): Step {
    if IsStored(s, p) && ending.Delivered? then Ack(t) else Fail(t)
  }

  function PlayPut(kid: nat, s: State, t: nat, dev: nat, plan: Plan): PlayedRequest {
    var before := PlayOthers(kid, s, plan.before, t, dev);
    var put := PlayPutSteps(kid, before.state, t, plan.ending.Refused?);
    var end := EndOfPut(put.state, |before.state.puts|, plan.ending, t);
    var after := PlayOthers(kid, Make(kid, put.state, end), plan.after, t, dev);
    PlayedRequest(after.state, before.steps + put.steps + [end] + after.steps,
      Net(before.sts, plan.ending, after.sts))
  }

  function Acked(task: Task): Task {
    match task
    case Adding(dev, chain, _) => Saving(dev, chain, [])
    case Pushing(dev, chain, next, _) => Pushing(dev, chain, next + 1, None)
    case _ => task
  }

  /** A played PUT is part of a run, and does what its function says. */
  ghost predicate PutFits(kid: nat, s: State, play: PlayedRequest, t: nat, dev: nat)
    requires At(s, t, dev) && Pending(s.tasks[t]).Some?
  {
    var run := RunPut(kid, Remote(s), Pending(s.tasks[t]).value, play.net);
    && Leads(kid, s, play.steps, play.state) && At(play.state, t, dev)
    && play.state.saved[dev] == s.saved[dev]
    && Remote(play.state) == run.chain
    && play.state.tasks[t] == if run.ok then Acked(s.tasks[t]) else Over
  }

  lemma AckStep(kid: nat, s: State, t: nat, p: nat)
    requires t < |s.tasks| && Pending(s.tasks[t]).Some? && s.tasks[t].put == Some(p) && IsStored(s, p)
    ensures Next(kid, s, Ack(t)) == Some(WithTask(s, t, Acked(s.tasks[t])))
  {
  }

  lemma SameTask(task: Task, p: nat)
    requires Pending(task).Some?
    ensures var task' := task.(put := Some(p)); Pending(task').Some? && Acked(task') == Acked(task)
  {
  }

  lemma FailStep(kid: nat, s: State, t: nat)
    requires t < |s.tasks|
    ensures Next(kid, s, Fail(t)) == Some(WithTask(s, t, Over))
  {
  }

  /** The server has handled the request: what it stores, and how the client goes on. */
  lemma PutEnds(kid: nat, s: State, t: nat, dev: nat, ending: Ending) returns (put: Played, end: Step, ended: State)
    requires Inv(kid, s) && At(s, t, dev) && Pending(s.tasks[t]).Some?
    ensures put == PlayPutSteps(kid, s, t, ending.Refused?) && end == EndOfPut(put.state, |s.puts|, ending, t)
    ensures ended == Make(kid, put.state, end) && Leads(kid, s, put.steps + [end], ended)
    ensures At(ended, t, dev) && ended.saved == s.saved
    ensures var st := Pending(s.tasks[t]).value;
            var stored := !ending.Refused? && Extends(kid, Remote(s), st);
            && Remote(ended) == (if stored then Remote(s) + [st] else Remote(s))
            && ended.tasks[t] == if stored && ending.Delivered? then Acked(s.tasks[t]) else Over
  {
    hide Run;
    hide PlayPutSteps;
    hide Next;
    var p := |s.puts|;
    put := PlayPutSteps(kid, s, t, ending.Refused?);
    end := EndOfPut(put.state, p, ending, t);
    ended := Make(kid, put.state, end);
    if ending.Refused? {
      RefusedIsRun(kid, s, t, dev);
    } else {
      HandledIsRun(kid, s, t, dev);
      SameTask(s.tasks[t], p);
    }
    FailStep(kid, put.state, t);
    if end.Ack? {
      AckStep(kid, put.state, t, p);
    }
    LeadsStep(kid, s, put.steps, put.state, end, ended);
  }

  lemma PutIsRun(kid: nat, s: State, t: nat, dev: nat, plan: Plan)
    requires Inv(kid, s) && At(s, t, dev) && Pending(s.tasks[t]).Some?
    ensures PutFits(kid, s, PlayPut(kid, s, t, dev, plan), t, dev)
  {
    hide Run;
    hide Accept;
    hide PlayOthers;
    hide PlayPutSteps;
    var before := PlayOthers(kid, s, plan.before, t, dev);
    OthersAreRun(kid, s, plan.before, t, dev);
    var put, end, ended := PutEnds(kid, before.state, t, dev, plan.ending);
    var after := PlayOthers(kid, ended, plan.after, t, dev);
    OthersAreRun(kid, ended, plan.after, t, dev);
    LeadsFarther(kid, s, before.steps, before.state, put.steps + [end], ended);
    LeadsFarther(kid, s, before.steps + (put.steps + [end]), ended, after.steps, after.state);
    assert before.steps + (put.steps + [end]) == before.steps + put.steps + [end];
  }

  // ---------- a push ----------

  datatype PlayedPuts = PlayedPuts(state: State, steps: seq<Step>, nets: seq<Net>)

  predicate Saves(s: State, t: nat) {
    t < |s.tasks| && s.tasks[t].Pushing? && s.tasks[t].next < |s.tasks[t].chain|
  }

  /** The PUTs of a push, one after the other as long as they are acknowledged. */
  function PlayPuts(kid: nat, s: State, t: nat, dev: nat, plans: seq<Plan>): PlayedPuts
    decreases |plans|
  {
    if !Saves(s, t) then PlayedPuts(s, [], [])
    else
      var put := PlayPut(kid, s, t, dev, PlanAt(plans, 0));
      if plans == [] then PlayedPuts(put.state, put.steps, [put.net])
      else
        var rest := PlayPuts(kid, put.state, t, dev, plans[1..]);
        PlayedPuts(rest.state, put.steps + rest.steps, [put.net] + rest.nets)
  }

  ghost predicate PutsFit(kid: nat, s: State, play: PlayedPuts, t: nat, dev: nat, mine: seq<Statement>, next: nat) {
    next <= |mine| &&
    var run := RunPuts(kid, Remote(s), mine[next..], play.nets);
    && Leads(kid, s, play.steps, play.state) && At(s, t, dev) && At(play.state, t, dev)
    && play.state.saved[dev] == s.saved[dev]
    && Remote(play.state) == run.chain
    && (if run.error.None? then Pushed(play.state.tasks[t], dev, mine, |mine|) else play.state.tasks[t] == Over)
  }

  /** The task pushes `mine` and has got to statement number next. */
  predicate Pushed(task: Task, dev: nat, mine: seq<Statement>, next: nat) {
    task.Pushing? && task.dev == dev && task.chain == mine && task.next == next
  }

  lemma PutsDone(kid: nat, s: State, t: nat, dev: nat, mine: seq<Statement>)
    requires Inv(kid, s) && At(s, t, dev) && Pushed(s.tasks[t], dev, mine, |mine|)
    ensures PutsFit(kid, s, PlayedPuts(s, [], []), t, dev, mine, |mine|)
  {
    LeadsNowhere(kid, s);
  }

  lemma PutsGoOn(kid: nat, s: State, put: PlayedRequest, rest: PlayedPuts, t: nat, dev: nat, mine: seq<Statement>,
                 next: nat)
    requires At(s, t, dev) && Pushed(s.tasks[t], dev, mine, next) && next < |mine| && PutFits(kid, s, put, t, dev)
    requires Pushed(put.state.tasks[t], dev, mine, next + 1)
    requires PutsFit(kid, put.state, rest, t, dev, mine, next + 1)
    ensures PutsFit(kid, s, PlayedPuts(rest.state, put.steps + rest.steps, [put.net] + rest.nets), t, dev, mine, next)
  {
    hide Run;
    hide Accept;
    assert mine[next..][1..] == mine[next + 1..];
    assert NetsFrom([put.net] + rest.nets, 1) == rest.nets;
    LeadsFarther(kid, s, put.steps, put.state, rest.steps, rest.state);
  }

  lemma PutsEnd(kid: nat, s: State, put: PlayedRequest, t: nat, dev: nat, mine: seq<Statement>, next: nat)
    requires At(s, t, dev) && Pushed(s.tasks[t], dev, mine, next) && next < |mine| && PutFits(kid, s, put, t, dev)
    requires put.state.tasks[t] == Over
    ensures PutsFit(kid, s, PlayedPuts(put.state, put.steps, [put.net]), t, dev, mine, next)
    ensures PutsFit(kid, s, PlayedPuts(put.state, put.steps + [], [put.net] + []), t, dev, mine, next)
  {
    hide Run;
    hide Accept;
    assert put.steps + [] == put.steps;
  }

  lemma {:induction false} PutsAreRun(kid: nat, s: State, t: nat, dev: nat, plans: seq<Plan>, mine: seq<Statement>,
                                      next: nat)
    requires Inv(kid, s) && At(s, t, dev) && Pushed(s.tasks[t], dev, mine, next) && next <= |mine|
    ensures PutsFit(kid, s, PlayPuts(kid, s, t, dev, plans), t, dev, mine, next)
    decreases |plans|
  {
    hide Run;
    hide Accept;
    hide PlayPut;
    if next == |mine| {
      PutsDone(kid, s, t, dev, mine);
    } else {
      var put := PlayPut(kid, s, t, dev, PlanAt(plans, 0));
      PutIsRun(kid, s, t, dev, PlanAt(plans, 0));
      if put.state.tasks[t] == Over {
        PutsEnd(kid, s, put, t, dev, mine, next);
      } else {
        PutAcked(kid, s, put, t, dev, PlanAt(plans, 0));
        PutsAreRun(kid, put.state, t, dev, plans[1..], mine, next + 1);
        PutsGoOn(kid, s, put, PlayPuts(kid, put.state, t, dev, plans[1..]), t, dev, mine, next);
      }
    }
  }

  /** A request that is acknowledged was one the plan delivers. */
  lemma PutAcked(kid: nat, s: State, put: PlayedRequest, t: nat, dev: nat, plan: Plan)
    requires At(s, t, dev) && Pending(s.tasks[t]).Some? && PutFits(kid, s, put, t, dev)
    requires put == PlayPut(kid, s, t, dev, plan) && put.state.tasks[t] != Over
    ensures plan.ending.Delivered? && put.state.tasks[t] == Acked(s.tasks[t])
  {
    hide Run;
    hide Accept;
    hide PlayOthers;
  }

  /** The first fetch of a push, and the comparison. */
  function PlayCompare(kid: nat, s: State, t: nat, dev: nat, plan: Plan): PlayedRequest {
    var before := PlayOthers(kid, s, plan.before, t, dev);
    var step := if plan.ending.Delivered? then Compare(t) else Fail(t);
    var after := PlayOthers(kid, Make(kid, before.state, step), plan.after, t, dev);
    PlayedRequest(after.state, before.steps + [step] + after.steps, Net(before.sts, plan.ending, after.sts))
  }

  /** How a push goes on after its comparison with rsts. */
  ghost predicate ComparedWith(task: Task, dev: nat, mine: seq<Statement>, rsts: seq<Statement>) {
    if Agree(mine, rsts) then Pushed(task, dev, mine, if |rsts| < |mine| then |rsts| else |mine|) else task == Over
  }

  lemma CompareIsRun(kid: nat, s: State, t: nat, dev: nat, plan: Plan)
    requires Inv(kid, s) && At(s, t, dev) && s.tasks[t].Loaded? && s.tasks[t].dev == dev && s.tasks[t].chain != []
    ensures var play := PlayCompare(kid, s, t, dev, plan);
            var fetch := RunFetch(kid, Remote(s), play.net);
            && Leads(kid, s, play.steps, play.state) && At(play.state, t, dev)
            && play.state.saved[dev] == s.saved[dev] && play.net.ending == plan.ending
            && Remote(play.state) == fetch.chain
            && if plan.ending.Delivered? then ComparedWith(play.state.tasks[t], dev, s.tasks[t].chain, fetch.seen)
               else play.state.tasks[t] == Over
  {
    hide Run;
    hide Accept;
    hide PlayOthers;
    var before := PlayOthers(kid, s, plan.before, t, dev);
    OthersAreRun(kid, s, plan.before, t, dev);
    var step := if plan.ending.Delivered? then Compare(t) else Fail(t);
    var done := Make(kid, before.state, step);
    LeadsStep(kid, s, before.steps, before.state, step, done);
    var after := PlayOthers(kid, done, plan.after, t, dev);
    OthersAreRun(kid, done, plan.after, t, dev);
    LeadsFarther(kid, s, before.steps + [step], done, after.steps, after.state);
  }

  // ---------- an update ----------

  datatype UpdatePlan = UpdatePlan(fetch: Plan, saves: bool, indexes: bool)

  datatype PlayedUpdate = PlayedUpdate(state: State, steps: seq<Step>, net: UpdateNet)

  function PlayFetch(kid: nat, s: State, t: nat, dev: nat, plan: Plan): PlayedRequest {
    var before := PlayOthers(kid, s, plan.before, t, dev);
    var step := if plan.ending.Delivered? then Fetch(t) else Fail(t);
    var after := PlayOthers(kid, Make(kid, before.state, step), plan.after, t, dev);
    PlayedRequest(after.state, before.steps + [step] + after.steps, Net(before.sts, plan.ending, after.sts))
  }

  predicate Replaces(s: State, t: nat) {
    t < |s.tasks| && s.tasks[t].Saving?
  }

  /** The local save, if there is something to save. */
  function PlaySave(kid: nat, s: State, t: nat, saves: bool): Played {
    if !Replaces(s, t) then Played(s, [], [])
    else
      var step := if saves then Save(t) else Fail(t);
      Played(Make(kid, s, step), [step], [])
  }

  function PlayUpdate(kid: nat, s: State, t: nat, dev: nat, plan: UpdatePlan): PlayedUpdate {
    var fetch := PlayFetch(kid, s, t, dev, plan.fetch);
    var save := PlaySave(kid, fetch.state, t, plan.saves);
    PlayedUpdate(save.state, fetch.steps + save.steps, UpdateNet(fetch.net, plan.saves, plan.indexes))
  }

  /** A call of device dev, its task at number t, is over, and did what its function says. */
  ghost predicate CallFits(kid: nat, s: State, steps: seq<Step>, s': State, t: nat, dev: nat, run: CallRun) {
    && Leads(kid, s, steps, s') && At(s', t, dev) && s'.tasks[t] == Over
    && Remote(s') == run.chain && s'.saved[dev] == run.local
  }

  lemma FetchIsRun(kid: nat, s: State, t: nat, dev: nat, plan: Plan)
    requires Inv(kid, s) && At(s, t, dev) && s.tasks[t].Updating? && s.tasks[t].dev == dev
    ensures var play := PlayFetch(kid, s, t, dev, plan);
            var fetch := RunFetch(kid, Remote(s), play.net);
            && Leads(kid, s, play.steps, play.state) && At(play.state, t, dev)
            && play.state.saved[dev] == s.saved[dev] && play.net.ending == plan.ending
            && Remote(play.state) == fetch.chain
            && if plan.ending.Delivered? && fetch.seen != []
               then play.state.tasks[t] == Saving(dev, fetch.seen, s.tasks[t].keep)
               else play.state.tasks[t] == Over
  {
    hide Run;
    hide Accept;
    hide PlayOthers;
    var before := PlayOthers(kid, s, plan.before, t, dev);
    OthersAreRun(kid, s, plan.before, t, dev);
    var step := if plan.ending.Delivered? then Fetch(t) else Fail(t);
    var done := Make(kid, before.state, step);
    LeadsStep(kid, s, before.steps, before.state, step, done);
    var after := PlayOthers(kid, done, plan.after, t, dev);
    OthersAreRun(kid, done, plan.after, t, dev);
    LeadsFarther(kid, s, before.steps + [step], done, after.steps, after.state);
  }

  /** The save: afterwards the task is over, and the device has the task's chain if it saved. */
  lemma SaveIsRun(kid: nat, s: State, t: nat, dev: nat, saves: bool)
    requires Inv(kid, s) && At(s, t, dev) && (s.tasks[t] == Over || (s.tasks[t].Saving? && s.tasks[t].dev == dev))
    ensures var play := PlaySave(kid, s, t, saves);
            && Leads(kid, s, play.steps, play.state) && At(play.state, t, dev) && play.state.tasks[t] == Over
            && play.state.docs == s.docs
            && play.state.saved[dev] == if s.tasks[t].Saving? && saves then s.tasks[t].chain else s.saved[dev]
  {
    hide Run;
    LeadsNowhere(kid, s);
    if Replaces(s, t) {
      var step := if saves then Save(t) else Fail(t);
      LeadsStep(kid, s, [], s, step, Make(kid, s, step));
      assert [] + [step] == [step];
    }
  }

  lemma UpdateIsRun(kid: nat, s: State, t: nat, dev: nat, plan: UpdatePlan)
    requires Inv(kid, s) && At(s, t, dev) && s.tasks[t].Updating? && s.tasks[t].dev == dev
    ensures var play := PlayUpdate(kid, s, t, dev, plan);
            CallFits(kid, s, play.steps, play.state, t, dev, RunUpdate(kid, Remote(s), s.saved[dev], play.net))
  {
    hide Run;
    hide Accept;
    hide PlayOthers;
    var fetch := PlayFetch(kid, s, t, dev, plan.fetch);
    FetchIsRun(kid, s, t, dev, plan.fetch);
    SaveIsRun(kid, fetch.state, t, dev, plan.saves);
    var save := PlaySave(kid, fetch.state, t, plan.saves);
    LeadsFarther(kid, s, fetch.steps, fetch.state, save.steps, save.state);
  }

  // ---------- whole calls ----------

  datatype PlayedCall = PlayedCall(state: State, steps: seq<Step>, nets: seq<Net>, pull: UpdateNet)

  const NO_PULL := UpdateNet(Net([], Refused, []), false, false)

  /** A push after its comparison. */
  function PlaySaves(kid: nat, s: State, t: nat, dev: nat, plans: seq<Plan>, pull: UpdatePlan): PlayedCall {
    var puts := PlayPuts(kid, s, t, dev, plans);
    if t < |puts.state.tasks| && puts.state.tasks[t].Pushing? then
      var update := PlayUpdate(kid, Make(kid, puts.state, Finish(t)), t, dev, pull);
      PlayedCall(update.state, puts.steps + [Finish(t)] + update.steps, puts.nets, update.net)
    else PlayedCall(puts.state, puts.steps, puts.nets, NO_PULL)
  }

  function PlanRest(plans: seq<Plan>): seq<Plan> {
    if plans == [] then [] else plans[1..]
  }

  /** A push of device dev; its task gets number |s.tasks|. */
  function PlayPush(kid: nat, s: State, dev: nat, plans: seq<Plan>, pull: UpdatePlan): PlayedCall {
    var t, started := |s.tasks|, Make(kid, s, StartPush(dev));
    if dev >= |s.saved| || s.saved[dev] == [] then
      PlayedCall(Make(kid, started, Fail(t)), [StartPush(dev), Fail(t)], [], NO_PULL)
    else
      var compare := PlayCompare(kid, started, t, dev, PlanAt(plans, 0));
      var saves := PlaySaves(kid, compare.state, t, dev, PlanRest(plans), pull);
      PlayedCall(saves.state, [StartPush(dev)] + (compare.steps + saves.steps), [compare.net] + saves.nets, saves.pull)
  }

  lemma SavesAreRun(kid: nat, s: State, t: nat, dev: nat, plans: seq<Plan>, pull: UpdatePlan, rsts: seq<Statement>)
    requires Inv(kid, s) && At(s, t, dev) && ComparedWith(s.tasks[t], dev, s.saved[dev], rsts)
    ensures var play := PlaySaves(kid, s, t, dev, plans, pull);
            CallFits(kid, s, play.steps, play.state, t, dev,
                     RunSaves(kid, Remote(s), s.saved[dev], rsts, play.nets, play.pull))
  {
    hide Run;
    hide Accept;
    hide PlayPut;
    hide PlayOthers;
    var mine := s.saved[dev];
    var puts := PlayPuts(kid, s, t, dev, plans);
    if Agree(mine, rsts) {
      var next := s.tasks[t].next;
      PutsAreRun(kid, s, t, dev, plans, mine, next);
      assert mine[next..] == Missing(mine, rsts);
      if puts.state.tasks[t].Pushing? {
        var updating := Make(kid, puts.state, Finish(t));
        LeadsStep(kid, s, puts.steps, puts.state, Finish(t), updating);
        UpdateIsRun(kid, updating, t, dev, pull);
        var update := PlayUpdate(kid, updating, t, dev, pull);
        LeadsFarther(kid, s, puts.steps + [Finish(t)], updating, update.steps, update.state);
      }
    } else {
      LeadsNowhere(kid, s);
    }
  }

  lemma PushIsRun(kid: nat, s: State, dev: nat, plans: seq<Plan>, pull: UpdatePlan)
    requires Inv(kid, s) && dev < |s.saved|
    ensures var play := PlayPush(kid, s, dev, plans, pull);
            CallFits(kid, s, play.steps, play.state, |s.tasks|, dev,
                     RunPush(kid, Remote(s), s.saved[dev], play.nets, play.pull))
  {
    hide Run;
    hide Accept;
    hide PlayPut;
    hide PlayPuts;
    hide PlayOthers;
    var t, started := |s.tasks|, Make(kid, s, StartPush(dev));
    LeadsNowhere(kid, s);
    LeadsStep(kid, s, [], s, StartPush(dev), started);
    assert [] + [StartPush(dev)] == [StartPush(dev)];
    if s.saved[dev] == [] {
      LeadsStep(kid, s, [StartPush(dev)], started, Fail(t), Make(kid, started, Fail(t)));
      assert [StartPush(dev)] + [Fail(t)] == [StartPush(dev), Fail(t)];
    } else {
      var compare := PlayCompare(kid, started, t, dev, PlanAt(plans, 0));
      CompareIsRun(kid, started, t, dev, PlanAt(plans, 0));
      var saves := PlaySaves(kid, compare.state, t, dev, PlanRest(plans), pull);
      var fetch := RunFetch(kid, Remote(s), compare.net);
      assert NetAt([compare.net] + saves.nets, 0) == compare.net;
      assert NetsFrom([compare.net] + saves.nets, 1) == saves.nets;
      if compare.net.ending.Delivered? {
        SavesAreRun(kid, compare.state, t, dev, PlanRest(plans), pull, fetch.seen);
      } else {
        NothingSaved(kid, compare.state, t, dev, PlanRest(plans), pull);
      }
      LeadsFarther(kid, started, compare.steps, compare.state, saves.steps, saves.state);
      LeadsFarther(kid, s, [StartPush(dev)], started, compare.steps + saves.steps, saves.state);
    }
  }

  lemma NothingSaved(kid: nat, s: State, t: nat, dev: nat, plans: seq<Plan>, pull: UpdatePlan)
    requires Inv(kid, s) && At(s, t, dev) && s.tasks[t] == Over
    ensures PlaySaves(kid, s, t, dev, plans, pull) == PlayedCall(s, [], [], NO_PULL) && Leads(kid, s, [], s)
  {
    LeadsNowhere(kid, s);
  }

  /** The statement is sent, unless it is for this device only. */
  function PlaySend(kid: nat, s: State, t: nat, dev: nat, localOnly: bool, plan: Plan): PlayedRequest {
    if localOnly then PlayedRequest(s, [], NO_PULL.fetch) else PlayPut(kid, s, t, dev, plan)
  }

  /** A new statement: create, revoke or user-add. */
  function PlayAdd(kid: nat, s: State, dev: nat, data: string, revoke: int, time: int, localOnly: bool, plan: Plan,
                   saves: bool): PlayedCall
  {
    var t, start := |s.tasks|, StartAdd(dev, data, revoke, time, localOnly);
    var send := PlaySend(kid, Make(kid, s, start), t, dev, localOnly, plan);
    var save := PlaySave(kid, send.state, t, saves);
    PlayedCall(save.state, [start] + (send.steps + save.steps), [send.net], NO_PULL)
  }

  lemma SendIsRun(kid: nat, s: State, t: nat, dev: nat, chain: seq<Statement>, localOnly: bool, plan: Plan)
    requires Inv(kid, s) && At(s, t, dev) && chain != []
    requires s.tasks[t] == if localOnly then Saving(dev, chain, []) else Adding(dev, chain, None)
    ensures var play := PlaySend(kid, s, t, dev, localOnly, plan);
            var put := if localOnly then PutRun(Remote(s), true)
                       else RunPut(kid, Remote(s), chain[|chain| - 1], play.net);
            && Leads(kid, s, play.steps, play.state) && At(play.state, t, dev)
            && play.state.saved[dev] == s.saved[dev] && Remote(play.state) == put.chain
            && play.state.tasks[t] == if put.ok then Saving(dev, chain, []) else Over
  {
    hide Run;
    hide Accept;
    hide PlayPut;
    LeadsNowhere(kid, s);
    if !localOnly {
      PutIsRun(kid, s, t, dev, plan);
    }
  }

  lemma AddIsRun(kid: nat, s: State, dev: nat, data: string, revoke: int, time: int, localOnly: bool, plan: Plan,
                 saves: bool, indexes: bool)
    requires Inv(kid, s) && dev < |s.saved|
    ensures var play := PlayAdd(kid, s, dev, data, revoke, time, localOnly, plan, saves);
            var st := NewStatement(kid, s.saved[dev], data, revoke, time);
            CallFits(kid, s, play.steps, play.state, |s.tasks|, dev,
                     RunAdd(kid, Remote(s), s.saved[dev], st, localOnly, play.nets[0], saves, indexes))
  {
    hide Run;
    hide Accept;
    hide PlayPut;
    var t, start := |s.tasks|, StartAdd(dev, data, revoke, time, localOnly);
    var started := Make(kid, s, start);
    var chain := s.saved[dev] + [NewStatement(kid, s.saved[dev], data, revoke, time)];
    StepKeepsInv(kid, s, start, started);
    SendIsRun(kid, started, t, dev, chain, localOnly, plan);
    var send := PlaySend(kid, started, t, dev, localOnly, plan);
    SaveIsRun(kid, send.state, t, dev, saves);
    var save := PlaySave(kid, send.state, t, saves);
    LeadsFarther(kid, started, send.steps, send.state, save.steps, save.state);
    LeadsOn(kid, s, start, started, send.steps + save.steps, save.state);
  }

  /** Devices have started with nothing, `before` has happened, and now device dev calls push,
      whatever the others do meanwhile: the system gets to a reachable state, in which server and
      device hold what RunPush gives. */
  lemma PushIsReachable(kid: nat, devices: nat, before: seq<Step>, s: State, dev: nat, plans: seq<Plan>,
                        pull: UpdatePlan)
    requires Run(kid, Init(devices), before) == Some(s) && dev < |s.saved|
    ensures var play := PlayPush(kid, s, dev, plans, pull);
            && Run(kid, Init(devices), before + play.steps) == Some(play.state)
            && dev < |play.state.saved| && Contiguous(s.docs) && Contiguous(play.state.docs)
            && var run := RunPush(kid, ChainOf(s.docs), s.saved[dev], play.nets, play.pull);
               ChainOf(play.state.docs) == run.chain && play.state.saved[dev] == run.local
  {
    hide Run;
    hide PlayPush;
    ReachableLeads(kid, devices, before, s);
    PushIsRun(kid, s, dev, plans, pull);
    var play := PlayPush(kid, s, dev, plans, pull);
    LeadsFarther(kid, Init(devices), before, s, play.steps, play.state);
  }

  /** The same for a new statement. */
  lemma AddIsReachable(kid: nat, devices: nat, before: seq<Step>, s: State, dev: nat, data: string, revoke: int,
                       time: int, localOnly: bool, plan: Plan, saves: bool, indexes: bool)
    requires Run(kid, Init(devices), before) == Some(s) && dev < |s.saved|
    ensures var play := PlayAdd(kid, s, dev, data, revoke, time, localOnly, plan, saves);
            && Run(kid, Init(devices), before + play.steps) == Some(play.state)
            && dev < |play.state.saved| && Contiguous(s.docs) && Contiguous(play.state.docs)
            && var st := NewStatement(kid, s.saved[dev], data, revoke, time);
               var run := RunAdd(kid, ChainOf(s.docs), s.saved[dev], st, localOnly, play.nets[0], saves, indexes);
               ChainOf(play.state.docs) == run.chain && play.state.saved[dev] == run.local
  {
    hide Run;
    ReachableLeads(kid, devices, before, s);
    AddIsRun(kid, s, dev, data, revoke, time, localOnly, plan, saves, indexes);
    var play := PlayAdd(kid, s, dev, data, revoke, time, localOnly, plan, saves);
    LeadsFarther(kid, Init(devices), before, s, play.steps, play.state);
  }

  /** An update call. */
  function PlayUpdateCall(kid: nat, s: State, dev: nat, plan: UpdatePlan): PlayedUpdate {
    var play := PlayUpdate(kid, Make(kid, s, StartUpdate(dev)), |s.tasks|, dev, plan);
    play.(steps := [StartUpdate(dev)] + play.steps)
  }

  /** The same for an update. */
  lemma UpdateIsReachable(kid: nat, devices: nat, before: seq<Step>, s: State, dev: nat, plan: UpdatePlan)
    requires Run(kid, Init(devices), before) == Some(s) && dev < |s.saved|
    ensures var play := PlayUpdateCall(kid, s, dev, plan);
            && Run(kid, Init(devices), before + play.steps) == Some(play.state)
            && dev < |play.state.saved| && Contiguous(s.docs) && Contiguous(play.state.docs)
            && var run := RunUpdate(kid, ChainOf(s.docs), s.saved[dev], play.net);
               ChainOf(play.state.docs) == run.chain && play.state.saved[dev] == run.local
  {
    hide Run;
    hide PlayUpdate;
    hide Accept;
    ReachableLeads(kid, devices, before, s);
    var started := Make(kid, s, StartUpdate(dev));
    StepKeepsInv(kid, s, StartUpdate(dev), started);
    UpdateIsRun(kid, started, |s.tasks|, dev, plan);
    var play := PlayUpdate(kid, started, |s.tasks|, dev, plan);
    LeadsOn(kid, s, StartUpdate(dev), started, play.steps, play.state);
    LeadsFarther(kid, Init(devices), before, s, [StartUpdate(dev)] + play.steps, play.state);
  }

  lemma ReachableLeads(kid: nat, devices: nat, steps: seq<Step>, s: State)
    requires Run(kid, Init(devices), steps) == Some(s)
    ensures Leads(kid, Init(devices), steps, s)
  {
    InitOk(kid, devices);
    RemoteOnlyGrows(kid, Init(devices), steps, s);
  }
}
