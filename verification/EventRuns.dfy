/**
 The calls of `EventWriter` as parts of runs of the step system: when the other writers are
 the clients of `EventSystem`, what `EventsAdd` and `Increment` do is one of its runs, so that
 everything proved about those holds for the code.

 A plan says which steps others attempt at each point of a call.  Playing the plan gives the
 steps the system makes, the call's own among them, and the network the call meets.
 */
module EventRuns {
  import opened Wrappers
  import opened CounterDoc
  import opened EventGuarantees
  import opened EventSystem
  import opened EventTries

  predicate IsMine(step: Step, me: nat) {
    match step
    case Start(i) => i == me
    case Begin(i) => i == me
    case CommitTx(i, _) => i == me
    case Abort(i, _) => i == me
    case Fail(i) => i == me
    case Merge(_, _) => false
  }

  /** The write a possible step performs. */
  function WritesOf(s: Sys, step: Step): seq<Write> {
    match step
    case CommitTx(i, _) =>
      if i < |s.clients| && !Finished(s.clients[i]) then [Tx(CommitOf(s, i))] else []
    case Merge(name, value) => [MergeField(name, value)]
    case _ => []
  }

  // ---------- other clients ----------

  /** Where some steps lead, which of them were made, and what they wrote. */
  datatype Played = Played(sys: Sys, steps: seq<Step>, writes: seq<Write>)

  /** Others make those of `steps` that are possible when their turn comes. */
  function PlayOthers(s: Sys, steps: seq<Step>, counters: set<string>, me: nat): Played
    decreases |steps|
  {
    if steps == [] then Played(s, [], [])
    else
      var made := if IsMine(steps[0], me) then None else Next(s, steps[0], counters);
      match made
      case None => PlayOthers(s, steps[1..], counters, me)
      case Some(s') =>
        var rest := PlayOthers(s', steps[1..], counters, me);
        Played(rest.sys, [steps[0]] + rest.steps, WritesOf(s, steps[0]) + rest.writes)
  }

  lemma {:induction false} OthersJoin(s: Store, a: seq<Write>, b: seq<Write>, counters: set<string>, me: nat)
    ensures Others(s, a + b, counters, me) == Others(Others(s, a, counters, me), b, counters, me)
    ensures Disturbed(s, a + b, counters, me) <==>
              Disturbed(s, a, counters, me) || Disturbed(Others(s, a, counters, me), b, counters, me)
    decreases |b|
  {
    if b == [] {
      assert a + b == a;
    } else {
      var front, w := b[..|b| - 1], b[|b| - 1];
      OthersJoin(s, a, front, counters, me);
      OthersStep(s, a + front, w, counters, me);
      assert a + b == a + front + [w];
    }
  }

  /** What a step of another client writes, the database lets through. */
  lemma StepWrites(s: Sys, step: Step, s': Sys, counters: set<string>, me: nat)
    requires Inv(s, counters) && Next(s, step, counters) == Some(s') && !IsMine(step, me) && me < |s.clients|
    ensures s'.clients[..] == s'.clients && |s'.clients| == |s.clients| && s'.clients[me] == s.clients[me]
    ensures Others(s.store, WritesOf(s, step), counters, me) == s'.store
    ensures s.version <= s'.version
    ensures Disturbed(s.store, WritesOf(s, step), counters, me) <==> s.version != s'.version
  {
    NoOthers(s.store, counters, me);
    match step
    case Start(_) =>
    case Begin(_) =>
    case CommitTx(i, _) =>
      CommitAccepted(s, i, counters);
      assert ClientOk(s, i, counters);
      OneOther(s.store, Tx(CommitOf(s, i)), counters, me);
    case Abort(_, _) =>
    case Fail(_) =>
    case Merge(name, value) =>
      OneOther(s.store, MergeField(name, value), counters, me);
  }

  lemma NoOthers(s: Store, counters: set<string>, me: nat)
    ensures Others(s, [], counters, me) == s && !Disturbed(s, [], counters, me)
  {
  }

  lemma OneOther(s: Store, w: Write, counters: set<string>, me: nat)
    requires Passes(s.fields, w, counters, me)
    ensures Others(s, [w], counters, me) == Perform(s, w) && Disturbed(s, [w], counters, me)
  {
    OthersStep(s, [], w, counters, me);
    assert [] + [w] == [w];
  }

  /** Others' steps are a run, their writes do to the store what the run does, and something was
      written exactly when the version moved. */
  lemma {:induction false} OthersAreRun(s: Sys, steps: seq<Step>, counters: set<string>, me: nat)
    requires Inv(s, counters) && me < |s.clients|
    ensures var play := PlayOthers(s, steps, counters, me);
            && Run(s, play.steps, counters) == Some(play.sys) && Inv(play.sys, counters)
            && |play.sys.clients| == |s.clients| && play.sys.clients[me] == s.clients[me]
            && Others(s.store, play.writes, counters, me) == play.sys.store
            && s.version <= play.sys.version
            && (Disturbed(s.store, play.writes, counters, me) <==> s.version != play.sys.version)
    decreases |steps|
  {
    hide Others;
    hide Disturbed;
    if steps == [] {
      NoOthers(s.store, counters, me);
    } else if !IsMine(steps[0], me) && Next(s, steps[0], counters).Some? {
      var mid := Next(s, steps[0], counters).value;
      StepKeepsInv(s, steps[0], mid, counters);
      StepWrites(s, steps[0], mid, counters, me);
      OthersAreRun(mid, steps[1..], counters, me);
      var rest := PlayOthers(mid, steps[1..], counters, me);
      OthersJoin(s.store, WritesOf(s, steps[0]), rest.writes, counters, me);
      RunCons(s, steps[0], mid, rest.steps, rest.sys, counters);
    } else {
      OthersAreRun(s, steps[1..], counters, me);
    }
  }

  lemma RunCons(s: Sys, step: Step, mid: Sys, steps: seq<Step>, s': Sys, counters: set<string>)
    requires Next(s, step, counters) == Some(mid) && Run(mid, steps, counters) == Some(s')
    ensures Run(s, [step] + steps, counters) == Some(s')
  {
    assert ([step] + steps)[1..] == steps;
  }

  // ---------- one try ----------

  /** What others attempt around one try, and how it ends. */
  datatype Plan = Plan(before: seq<Step>, during: seq<Step>, ending: Ending, after: seq<Step>)

  datatype PlayedTry = PlayedTry(sys: Sys, steps: seq<Step>, attempt: Try)

  function Make(s: Sys, step: Step, counters: set<string>): Sys {
    match Next(s, step, counters)
    case Some(s') => s'
    case None => s
  }

  /** The client's own step that ends a try which does not commit. */
  function Leave(s: Sys, ending: Ending, me: nat): Step {
    if ending.GivesUp? || me >= |s.clients| || Finished(s.clients[me]) then Fail(me)
    else Abort(me, Taken(ending, NextPayload(s.clients[me])))
  }

  /** The end of a try whose body has read the counter at version `read`. */
  function PlayEnd(s: Sys, read: nat, plan: Plan, counters: set<string>, me: nat): Played {
    if Sends(plan.ending) && s.version == read then
      var commit := CommitTx(me, plan.ending.Commits?);
      var after := PlayOthers(Make(s, commit, counters), plan.after, counters, me);
      after.(steps := [commit] + after.steps)
    else
      var leave := Leave(s, plan.ending, me);
      Played(Make(s, leave, counters), [leave], [])
  }

  function PlayTry(s: Sys, plan: Plan, counters: set<string>, me: nat): PlayedTry {
    var before := PlayOthers(s, plan.before, counters, me);
    var begun := Make(before.sys, Begin(me), counters);
    var during := PlayOthers(begun, plan.during, counters, me);
    var end := PlayEnd(during.sys, begun.version, plan, counters, me);
    PlayedTry(end.sys, before.steps + [Begin(me)] + during.steps + end.steps,
      Try(before.writes, during.writes, plan.ending, end.writes))
  }

  /** The client after a try: it has come further, goes on with what the try left in `index`, or
      has failed. */
  ghost predicate AfterTry(c: Client, c': Client, ending: Ending, run: TryRun)
    requires !Finished(c)
  {
    if ending.GivesUp? then c'.phase == Failed && c'.job == c.job
    else if run.sent then
      c' == c.(pos := c.pos + Advance(c), index := run.index, phase := if ending.Commits? then Idle else Failed)
    else c' == c.(index := run.index, phase := Attempt)
  }

  /** The part of a try up to where it ends. */
  lemma BodyIsRun(s: Sys, plan: Plan, counters: set<string>, me: nat)
    returns (before: Played, begun: Sys, during: Played)
    requires Inv(s, counters) && me < |s.clients| && s.clients[me].phase == Attempt && !Finished(s.clients[me])
    ensures before == PlayOthers(s, plan.before, counters, me) && begun == Make(before.sys, Begin(me), counters)
    ensures during == PlayOthers(begun, plan.during, counters, me)
    ensures Run(s, before.steps + [Begin(me)] + during.steps, counters) == Some(during.sys)
    ensures Inv(during.sys, counters) && |during.sys.clients| == |s.clients|
    ensures begun.store == Others(s.store, before.writes, counters, me)
    ensures during.sys.store == Others(begun.store, during.writes, counters, me)
    ensures Disturbed(begun.store, during.writes, counters, me) <==> begun.version != during.sys.version
    ensures var c := s.clients[me];
            during.sys.clients[me] == c.(
                index := FirstIndex(begun.store.fields, JobField(c.job), c.index),
                phase := Running(begun.version))
  {
    hide Others;
    hide Disturbed;
    hide PlayOthers;
    hide Run;
    before := PlayOthers(s, plan.before, counters, me);
    OthersAreRun(s, plan.before, counters, me);
    begun := Make(before.sys, Begin(me), counters);
    OwnStep(s, before.steps, before.sys, Begin(me), begun, counters);
    during := PlayOthers(begun, plan.during, counters, me);
    OthersAreRun(begun, plan.during, counters, me);
    RunAppend(s, before.steps + [Begin(me)], begun, during.steps, during.sys, counters);
  }

  /** The client after its try ended: the counter was read as `base`, and the commit sent or not. */
  ghost predicate Ended(c: Client, c': Client, ending: Ending, sent: bool, base: int)
    requires !Finished(c)
  {
    AfterTry(c, c', ending, TryRun(Store(None, [], []), base + Taken(ending, NextPayload(c)), sent, base))
  }

  lemma CommitStep(s: Sys, acked: bool, counters: set<string>, me: nat)
    requires me < |s.clients| && s.clients[me].phase == Running(s.version) && !Finished(s.clients[me])
    ensures var c, sent := s.clients[me], Make(s, CommitTx(me, acked), counters);
            && Next(s, CommitTx(me, acked), counters) == Some(sent) && |sent.clients| == |s.clients|
            && sent.store == Apply(s.store, Commit(me, NextPayload(c), c.index))
            && sent.clients[me] == c.(
                   pos := c.pos + Advance(c),
                   index := c.index + NextPayload(c).Size(),
                   phase := if acked then Idle else Failed)
  {
  }

  lemma CommitIsRun(s: Sys, plan: Plan, counters: set<string>, me: nat)
    requires Inv(s, counters) && me < |s.clients| && s.clients[me].phase == Running(s.version) && Sends(plan.ending)
    ensures !Finished(s.clients[me])
    ensures var end := PlayEnd(s, s.version, plan, counters, me);
            && Run(s, end.steps, counters) == Some(end.sys) && Inv(end.sys, counters)
            && |end.sys.clients| == |s.clients|
            && var c := s.clients[me];
            && end.sys.store == Others(Apply(s.store, Commit(me, NextPayload(c), c.index)), end.writes, counters, me)
            && Ended(c, end.sys.clients[me], plan.ending, true, c.index)
  {
    hide Others;
    hide PlayOthers;
    hide Run;
    hide Next;
    assert ClientOk(s, me, counters);
    var step := CommitTx(me, plan.ending.Commits?);
    CommitStep(s, plan.ending.Commits?, counters, me);
    var sent := Make(s, step, counters);
    StepKeepsInv(s, step, sent, counters);
    var after := PlayOthers(sent, plan.after, counters, me);
    OthersAreRun(sent, plan.after, counters, me);
    RunCons(s, step, sent, after.steps, after.sys, counters);
  }

  lemma LeaveStep(s: Sys, ending: Ending, counters: set<string>, me: nat)
    requires me < |s.clients| && s.clients[me].phase.Running? && !Finished(s.clients[me])
    ensures Next(s, Leave(s, ending, me), counters).Some?
    ensures var c, left := s.clients[me], Make(s, Leave(s, ending, me), counters);
            && left.store == s.store && |left.clients| == |s.clients|
            && Ended(c, left.clients[me], ending, false, c.index)
  {
  }

  lemma LeaveIsRun(s: Sys, read: nat, plan: Plan, counters: set<string>, me: nat)
    requires Inv(s, counters) && me < |s.clients| && s.clients[me].phase == Running(read)
    requires !Sends(plan.ending) || s.version != read
    ensures !Finished(s.clients[me])
    ensures var end := PlayEnd(s, read, plan, counters, me);
            && Run(s, end.steps, counters) == Some(end.sys) && Inv(end.sys, counters)
            && |end.sys.clients| == |s.clients| && end.sys.store == s.store
            && var c := s.clients[me]; Ended(c, end.sys.clients[me], plan.ending, false, c.index)
  {
    hide Run;
    hide Next;
    hide PlayOthers;
    assert ClientOk(s, me, counters);
    LeaveStep(s, plan.ending, counters, me);
    var leave := Leave(s, plan.ending, me);
    var left := Make(s, leave, counters);
    StepKeepsInv(s, leave, left, counters);
    NothingRun(left, counters);
    RunCons(s, leave, left, [], left, counters);
    assert [leave] + [] == [leave];
  }

  lemma NothingRun(s: Sys, counters: set<string>)
    ensures Run(s, [], counters) == Some(s)
  {
  }

  lemma SamePayload(c: Client, index: int, phase: Phase)
    requires !Finished(c)
    ensures NextPayload(c).Field() == JobField(c.job)
    ensures var c' := c.(index := index, phase := phase); !Finished(c') && NextPayload(c') == NextPayload(c)
  {
  }

  lemma EndedTry(c: Client, base: int, version: nat, c': Client, ending: Ending, run: TryRun)
    requires !Finished(c) && run.index == base + Taken(ending, NextPayload(c))
    requires Ended(c.(index := base, phase := Running(version)), c', ending, run.sent, base)
    ensures AfterTry(c, c', ending, run)
  {
  }

  /** A try of a client's transaction, played with the others, is part of a run, and it is the
      same try as its function says. */
  ghost predicate TryFits(s: Sys, play: PlayedTry, ending: Ending, counters: set<string>, me: nat)
    requires me < |s.clients| && !Finished(s.clients[me])
  {
    var c := s.clients[me];
    var run := RunTry(s.store, play.attempt, NextPayload(c), c.index, counters, me);
    && Run(s, play.steps, counters) == Some(play.sys) && Inv(play.sys, counters)
    && |play.sys.clients| == |s.clients|
    && run.store == play.sys.store && play.attempt.ending == ending
    && AfterTry(c, play.sys.clients[me], ending, run)
  }

  lemma TryIsRun(s: Sys, plan: Plan, counters: set<string>, me: nat)
    requires Inv(s, counters) && me < |s.clients| && s.clients[me].phase == Attempt && !Finished(s.clients[me])
    ensures TryFits(s, PlayTry(s, plan, counters, me), plan.ending, counters, me)
  {
    hide Others;
    hide Disturbed;
    hide PlayOthers;
    hide PlayEnd;
    hide RunTry;
    hide Run;
    hide NextPayload;
    var c := s.clients[me];
    var before, begun, during := BodyIsRun(s, plan, counters, me);
    var base := FirstIndex(begun.store.fields, JobField(c.job), c.index);
    SamePayload(c, base, Running(begun.version));
    var end := PlayEnd(during.sys, begun.version, plan, counters, me);
    var sent := Sends(plan.ending) && during.sys.version == begun.version;
    if sent {
      UndisturbedStays(begun.store, during.writes, counters, me);
      CommitIsRun(during.sys, plan, counters, me);
    } else {
      LeaveIsRun(during.sys, begun.version, plan, counters, me);
    }
    RunAppend(s, before.steps + [Begin(me)] + during.steps, during.sys, end.steps, end.sys, counters);
    TryIs(s.store, Try(before.writes, during.writes, plan.ending, end.writes), NextPayload(c), c.index, begun.store,
          during.sys.store, end.sys.store, sent, counters, me);
    EndedTry(c, base, begun.version, end.sys.clients[me], plan.ending,
             TryRun(end.sys.store, base + Taken(plan.ending, NextPayload(c)), sent, base));
  }

  lemma OwnStep(s: Sys, steps: seq<Step>, mid: Sys, step: Step, s': Sys, counters: set<string>)
    requires Inv(mid, counters) && Run(s, steps, counters) == Some(mid) && Next(mid, step, counters) == Some(s')
    ensures Run(s, steps + [step], counters) == Some(s') && Inv(s', counters)
  {
    StepKeepsInv(mid, step, s', counters);
    assert [step][1..] == [] && Run(s', [], counters) == Some(s');
    RunAppend(s, steps, mid, [step], s', counters);
  }

  // ---------- one transaction ----------

  datatype PlayedTries = PlayedTries(sys: Sys, steps: seq<Step>, tries: seq<Try>)

  predicate Runs(s: Sys, me: nat, phase: Phase) {
    me < |s.clients| && s.clients[me].phase == phase
  }

  /** The tries of one transaction; when there are no more, the client gives up. */
  function PlayTries(s: Sys, plans: seq<Plan>, counters: set<string>, me: nat): PlayedTries
    decreases |plans|
  {
    if plans == [] then PlayedTries(Make(s, Fail(me), counters), [Fail(me)], [])
    else
      var first := PlayTry(s, plans[0], counters, me);
      if Runs(first.sys, me, Attempt) then
        var rest := PlayTries(first.sys, plans[1..], counters, me);
        PlayedTries(rest.sys, first.steps + rest.steps, [first.attempt] + rest.tries)
      else PlayedTries(first.sys, first.steps, [first.attempt])
  }

  ghost predicate AfterTries(c: Client, c': Client, end: TxEnd)
    requires !Finished(c)
  {
    match end
    case Landed(base, acked) =>
      c' == c.(
          pos := c.pos + Advance(c),
          index := base + NextPayload(c).Size(),
          phase := if acked then Idle else Failed)
    case _ => c'.phase == Failed && c'.job == c.job
  }

  ghost predicate TriesFit(s: Sys, play: PlayedTries, counters: set<string>, me: nat)
    requires me < |s.clients| && !Finished(s.clients[me])
  {
    var c := s.clients[me];
    var tx := RunTries(s.store, play.tries, NextPayload(c), c.index, counters, me);
    && Run(s, play.steps, counters) == Some(play.sys) && Inv(play.sys, counters)
    && |play.sys.clients| == |s.clients|
    && tx.store == play.sys.store && AfterTries(c, play.sys.clients[me], tx.end)
  }

  lemma FailIsRun(s: Sys, counters: set<string>, me: nat)
    requires Inv(s, counters) && me < |s.clients| && !Finished(s.clients[me])
    ensures TriesFit(s, PlayTries(s, [], counters, me), counters, me)
  {
    var failed := Make(s, Fail(me), counters);
    StepKeepsInv(s, Fail(me), failed, counters);
    NothingRun(failed, counters);
    RunCons(s, Fail(me), failed, [], failed, counters);
    assert [Fail(me)] + [] == [Fail(me)];
  }

  /** A try that neither committed nor gave up, and the tries after it. */
  lemma TriesGoOn(s: Sys, first: PlayedTry, rest: PlayedTries, counters: set<string>, me: nat)
    requires me < |s.clients| && !Finished(s.clients[me])
    requires TryFits(s, first, first.attempt.ending, counters, me) && Runs(first.sys, me, Attempt)
    requires !Finished(first.sys.clients[me]) ==> TriesFit(first.sys, rest, counters, me)
    ensures TriesFit(s, PlayedTries(rest.sys, first.steps + rest.steps, [first.attempt] + rest.tries), counters, me)
  {
    hide Run;
    hide RunTry;
    hide RunTries;
    var c := s.clients[me];
    var tries := [first.attempt] + rest.tries;
    SamePayload(c, first.sys.clients[me].index, Attempt);
    TriesStep(s.store, tries, 0, NextPayload(c), c.index, counters, me);
    assert tries[0..] == tries && tries[1..] == rest.tries;
    RunAppend(s, first.steps, first.sys, rest.steps, rest.sys, counters);
  }

  lemma SentTakesAll(s: Store, attempt: Try, p: Payload, captured: int, counters: set<string>, me: nat)
    ensures var run := RunTry(s, attempt, p, captured, counters, me); run.sent ==> run.index == run.base + p.Size()
  {
  }

  lemma LastTry(s: Sys, first: PlayedTry, counters: set<string>, me: nat)
    requires me < |s.clients| && !Finished(s.clients[me])
    requires TryFits(s, first, first.attempt.ending, counters, me) && !Runs(first.sys, me, Attempt)
    ensures TriesFit(s, PlayedTries(first.sys, first.steps, [first.attempt]), counters, me)
  {
    hide Run;
    hide RunTry;
    hide RunTries;
    var c := s.clients[me];
    TriesStep(s.store, [first.attempt], 0, NextPayload(c), c.index, counters, me);
    SentTakesAll(s.store, first.attempt, NextPayload(c), c.index, counters, me);
    assert [first.attempt][0..] == [first.attempt];
  }

  lemma {:induction false} TriesAreRun(s: Sys, plans: seq<Plan>, counters: set<string>, me: nat)
    requires Inv(s, counters) && me < |s.clients| && s.clients[me].phase == Attempt && !Finished(s.clients[me])
    ensures TriesFit(s, PlayTries(s, plans, counters, me), counters, me)
    decreases |plans|
  {
    hide Run;
    hide PlayTry;
    if plans == [] {
      FailIsRun(s, counters, me);
    } else {
      var first := PlayTry(s, plans[0], counters, me);
      TryIsRun(s, plans[0], counters, me);
      if Runs(first.sys, me, Attempt) {
        SamePayload(s.clients[me], first.sys.clients[me].index, Attempt);
        TriesAreRun(first.sys, plans[1..], counters, me);
        TriesGoOn(s, first, PlayTries(first.sys, plans[1..], counters, me), counters, me);
      } else {
        LastTry(s, first, counters, me);
      }
    }
  }

  // ---------- whole calls ----------

  /** One transaction of a client: entering writeAll or Increment, and its tries. */
  function PlayTx(s: Sys, plans: seq<Plan>, counters: set<string>, me: nat): PlayedTries {
    var play := PlayTries(Make(s, Start(me), counters), plans, counters, me);
    play.(steps := [Start(me)] + play.steps)
  }

  ghost predicate TxFits(s: Sys, play: PlayedTries, counters: set<string>, me: nat)
    requires me < |s.clients| && !Finished(s.clients[me])
  {
    var c := s.clients[me];
    var tx := RunTries(s.store, play.tries, NextPayload(c), 0, counters, me);
    && Run(s, play.steps, counters) == Some(play.sys) && Inv(play.sys, counters)
    && |play.sys.clients| == |s.clients|
    && tx.store == play.sys.store && AfterTries(c, play.sys.clients[me], tx.end)
  }

  /** A transaction among the system's clients is part of a run, and its effect, and where it
      leaves the client, are those of RunTries: this is `writeAll` for the next chunk of a batch,
      and `Increment`. */
  lemma TxIsRun(s: Sys, plans: seq<Plan>, counters: set<string>, me: nat)
    requires Inv(s, counters) && me < |s.clients| && s.clients[me].phase == Idle && !Finished(s.clients[me])
    ensures TxFits(s, PlayTx(s, plans, counters, me), counters, me)
  {
    hide Run;
    hide PlayTries;
    hide RunTries;
    var begun := Make(s, Start(me), counters);
    StepKeepsInv(s, Start(me), begun, counters);
    SamePayload(s.clients[me], 0, Attempt);
    TriesAreRun(begun, plans, counters, me);
    var play := PlayTries(begun, plans, counters, me);
    RunCons(s, Start(me), begun, play.steps, play.sys, counters);
  }

  datatype PlayedBatch = PlayedBatch(sys: Sys, steps: seq<Step>, nets: seq<seq<Try>>)

  /** The transactions of one EventsAdd call, as long as they are acknowledged. */
  function PlayBatch(s: Sys, plans: seq<seq<Plan>>, counters: set<string>, me: nat): PlayedBatch
    decreases |plans|
  {
    if me >= |s.clients| || Finished(s.clients[me]) then PlayedBatch(s, [], [])
    else
      var first := PlayTx(s, if plans == [] then [] else plans[0], counters, me);
      if plans != [] && Runs(first.sys, me, Idle) then
        var rest := PlayBatch(first.sys, plans[1..], counters, me);
        PlayedBatch(rest.sys, first.steps + rest.steps, [first.tries] + rest.nets)
      else PlayedBatch(first.sys, first.steps, [first.tries])
  }

  /** Everything of the batch that is left, and what happens to it. */
  ghost predicate BatchFits(s: Sys, play: PlayedBatch, counters: set<string>, me: nat)
    requires me < |s.clients| && s.clients[me].job.AddAll? && s.clients[me].pos <= |s.clients[me].job.batch|
  {
    var c := s.clients[me];
    var run := RunBatch(s.store, c.job.batch[c.pos..], play.nets, counters, me);
    && Run(s, play.steps, counters) == Some(play.sys) && |play.sys.clients| == |s.clients|
    && run.store == play.sys.store
    && play.sys.clients[me].job == c.job
    && (if run.error.None? then play.sys.clients[me].phase == Idle && Finished(play.sys.clients[me])
        else play.sys.clients[me].phase == Failed)
  }

  /** The chunk a client stores next is the first chunk of what is left. */
  lemma NextIsFirst(c: Client)
    requires c.job.AddAll? && c.pos < |c.job.batch|
    ensures var rest, n := c.job.batch[c.pos..], ChunkSize(|c.job.batch| - c.pos);
            && NextPayload(c) == Events(rest[..n]) && Advance(c) == n && rest[n..] == c.job.batch[c.pos + n..]
  {
  }

  lemma FirstChunk(s: Store, batch: seq<Doc>, tries: seq<Try>, later: seq<seq<Try>>, counters: set<string>, me: nat)
    requires batch != []
    ensures var n := ChunkSize(|batch|);
            var p := Events(batch[..n]);
            var tx := RunTries(s, tries, p, 0, counters, me);
            var run := RunBatch(s, batch, [tries] + later, counters, me);
            if Told(tx.end, p).Ok? then
              var rest := RunBatch(tx.store, batch[n..], later, counters, me);
              run.store == rest.store && run.error == rest.error
            else run.store == tx.store && run.error.Some?
  {
    assert NetsFrom([tries] + later, 1) == later;
  }

  lemma LastChunk(s: Sys, first: PlayedTries, counters: set<string>, me: nat)
    requires me < |s.clients| && s.clients[me].job.AddAll? && s.clients[me].pos < |s.clients[me].job.batch|
    requires TxFits(s, first, counters, me) && !Runs(first.sys, me, Idle)
    ensures BatchFits(s, PlayedBatch(first.sys, first.steps, [first.tries]), counters, me)
  {
    hide Run;
    hide RunTries;
    hide RunBatch;
    var c := s.clients[me];
    NextIsFirst(c);
    FirstChunk(s.store, c.job.batch[c.pos..], first.tries, [], counters, me);
    assert [first.tries] + [] == [first.tries];
  }

  lemma ChunksGoOn(s: Sys, first: PlayedTries, rest: PlayedBatch, counters: set<string>, me: nat)
    requires me < |s.clients| && s.clients[me].job.AddAll? && s.clients[me].pos < |s.clients[me].job.batch|
    requires TxFits(s, first, counters, me) && Runs(first.sys, me, Idle)
    requires var c := first.sys.clients[me];
             c.job == s.clients[me].job && c.pos <= |c.job.batch| ==> BatchFits(first.sys, rest, counters, me)
    ensures BatchFits(s, PlayedBatch(rest.sys, first.steps + rest.steps, [first.tries] + rest.nets), counters, me)
  {
    hide Run;
    hide RunTries;
    hide RunBatch;
    var c := s.clients[me];
    NextIsFirst(c);
    FirstChunk(s.store, c.job.batch[c.pos..], first.tries, rest.nets, counters, me);
    RunAppend(s, first.steps, first.sys, rest.steps, rest.sys, counters);
  }

  lemma {:induction false} BatchIsRun(s: Sys, plans: seq<seq<Plan>>, counters: set<string>, me: nat)
    requires Inv(s, counters) && me < |s.clients| && s.clients[me].phase == Idle
    requires s.clients[me].job.AddAll? && s.clients[me].pos <= |s.clients[me].job.batch|
    ensures BatchFits(s, PlayBatch(s, plans, counters, me), counters, me)
    decreases |plans|
  {
    hide Run;
    hide RunBatch;
    if Finished(s.clients[me]) {
      NothingLeft(s, counters, me);
    } else {
      var first := PlayTx(s, if plans == [] then [] else plans[0], counters, me);
      TxIsRun(s, if plans == [] then [] else plans[0], counters, me);
      if plans != [] && Runs(first.sys, me, Idle) {
        BatchIsRun(first.sys, plans[1..], counters, me);
        ChunksGoOn(s, first, PlayBatch(first.sys, plans[1..], counters, me), counters, me);
      } else {
        LastChunk(s, first, counters, me);
      }
    }
  }

  lemma NothingLeft(s: Sys, counters: set<string>, me: nat)
    requires me < |s.clients| && s.clients[me].job.AddAll? && s.clients[me].pos == |s.clients[me].job.batch|
    requires s.clients[me].phase == Idle
    ensures BatchFits(s, PlayedBatch(s, [], []), counters, me)
  {
    NothingRun(s, counters);
  }

  /** The clients of the system start together on a document, `before` has happened, and now
      client `me` calls EventsAdd with what is left of its batch, whatever the others do
      meanwhile: the system gets to a reachable state, whose store is the one RunBatch gives.
      So everything that holds in every interleaving holds for what the code leaves. */
  lemma EventsAddIsReachable(jobs: seq<Job>, fields: Option<map<string, int>>, before: seq<Step>, s: Sys,
                             plans: seq<seq<Plan>>, me: nat)
    requires Reachable(jobs, fields, before, s) && me < |jobs| == |s.clients| && s.clients[me].phase == Idle
    requires jobs[me].AddAll?
    ensures s.clients[me].pos <= |jobs[me].batch|
    ensures var play := PlayBatch(s, plans, Counters(jobs), me);
            var run := RunBatch(s.store, jobs[me].batch[s.clients[me].pos..], play.nets, Counters(jobs), me);
            && Reachable(jobs, fields, before + play.steps, play.sys) && run.store == play.sys.store
            && |play.sys.clients| == |jobs|
            && (run.error.None? <==> Finished(play.sys.clients[me]) && play.sys.clients[me].phase == Idle)
  {
    hide Run;
    hide RunBatch;
    hide PlayBatch;
    ReachableInv(jobs, fields, before, s);
    assert ClientOk(s, me, Counters(jobs));
    BatchIsRun(s, plans, Counters(jobs), me);
    var play := PlayBatch(s, plans, Counters(jobs), me);
    RunAppend(Init(jobs, fields), before, s, play.steps, play.sys, Counters(jobs));
  }

  /** The same for one Increment call. */
  lemma IncrementIsReachable(jobs: seq<Job>, fields: Option<map<string, int>>, before: seq<Step>, s: Sys,
                             plans: seq<Plan>, me: nat)
    requires Reachable(jobs, fields, before, s) && me < |jobs| == |s.clients| && s.clients[me].job.Inc?
    requires s.clients[me].phase == Idle && !Finished(s.clients[me])
    ensures var play, job := PlayTx(s, plans, Counters(jobs), me), s.clients[me].job;
            var tx := RunTries(s.store, play.tries, Count(job.name, job.n), 0, Counters(jobs), me);
            && Reachable(jobs, fields, before + play.steps, play.sys) && tx.store == play.sys.store
            && (tx.end.Landed? && tx.end.acked <==> Runs(play.sys, me, Idle))
  {
    hide Run;
    hide RunTries;
    hide PlayTries;
    ReachableInv(jobs, fields, before, s);
    TxIsRun(s, plans, Counters(jobs), me);
    var play := PlayTx(s, plans, Counters(jobs), me);
    RunAppend(Init(jobs, fields), before, s, play.steps, play.sys, Counters(jobs));
  }
}
