/**
 What holds in every interleaving of unlock calls, lock calls and background checkers
 (service/service.go, service/check.go, service/auth.go).
 */
module ServiceGuarantees {
  import opened Wrappers
  import opened ServiceCore
  import opened ServiceSystem

  lemma ReachableInv(steps: seq<Step>, s: Sys)
    requires Run(Init(), steps) == Some(s)
    ensures Inv(s)
  {
    InitialOk();
    RunKeepsInv(Init(), steps, s);
  }

  // ---------- the background checker ----------

  /** A checker that is checking keys is not cancelled and works on the database it was
      started for, which is open: checkKeys never overlaps or follows its closing. */
  lemma CheckKeysHasItsDatabase(steps: seq<Step>, s: Sys, g: nat)
    requires Run(Init(), steps) == Some(s) && g < |s.checkers| && s.checkers[g] == CheckingKeys
    ensures s.core.dbOpen && g < |s.core.born| && s.core.born[g] == s.core.epoch && g !in s.core.cancelled
  {
    ReachableInv(steps, s);
    assert CheckerOk(s, g);
    LiveChecker(s, g);
  }

  /** In every state at most one checker has a live context. */
  lemma OneLiveChecker(steps: seq<Step>, s: Sys, g: nat, h: nat)
    requires Run(Init(), steps) == Some(s) && g < |s.checkers| && h < |s.checkers|
    requires g !in s.core.cancelled && h !in s.core.cancelled
    ensures g == h
  {
    ReachableInv(steps, s);
    LiveChecker(s, g);
    LiveChecker(s, h);
  }

  // ---------- the state between calls ----------

  /** With nobody inside a critical section, unlocked means: database open, vault unlocked,
      and exactly one checker live. */
  lemma UnlockedMeansReady(steps: seq<Step>, s: Sys)
    requires Run(Init(), steps) == Some(s) && s.unlockMtx.None?
    ensures s.core.unlocked ==> s.core.dbOpen && s.core.vaultOpen && s.core.checking
    ensures s.core.unlocked <==> exists g :: 0 <= g < |s.checkers| && g !in s.core.cancelled
    ensures !s.core.unlocked ==> !s.core.dbOpen && (s.core.vaultOpen <==> s.core.leaked)
  {
    ReachableInv(steps, s);
    if s.core.unlocked {
      assert |s.core.born| - 1 !in s.core.cancelled;
    }
  }

  // ---------- tokens ----------

  /** At every moment, also in the middle of an unlock or a lock, authorize accepts outside the
      allow list only a client's newest token, generated after the last lock that cleared the
      table. */
  lemma AcceptedTokenIsCurrent(steps: seq<Step>, s: Sys, allowlist: set<string>, name: string, token: nat)
    returns (client: string)
    requires Run(Init(), steps) == Some(s) && name !in allowlist
    requires Authorize(s.core, allowlist, name, Some([token])) == Allowed
    ensures client in s.core.tokens && client in s.core.newest && s.core.newest[client] == token
    ensures s.core.mark <= token < s.core.nextToken
  {
    ReachableInv(steps, s);
    TokensAlwaysOk(s);
    client :| client in s.core.tokens && s.core.tokens[client] == token;
  }

  lemma TokensAlwaysOk(s: Sys)
    requires Inv(s)
    ensures TokensOk(s.core)
  {
    if s.unlockMtx.Some? {
      PartialTokensOk(s.entry, s.calls[s.unlockMtx.value]);
    }
  }

  lemma PartialTokensOk(entry: Core, call: Call)
    requires TokensOk(entry)
    ensures TokensOk(Partial(entry, call))
  {
    PartialTokens(entry, call);
    RegisteredTokensOk(entry, if call.UnlockCall? then call.client else "");
  }

  /** Half-way through a call the tokens are those of the start, or the call's change is done. */
  lemma PartialTokens(entry: Core, call: Call)
    ensures || SameTokens(Partial(entry, call), entry)
            || (call.UnlockCall? && SameTokens(Partial(entry, call), Registered(entry, call.client)))
            || SameTokens(Partial(entry, call), TokensCleared(entry))
  {
    if call.UnlockCall? {
      var done := Registered(VaultUnlocked(entry), call.client);
      assert SameTokens(done, Registered(entry, call.client));
      assert SameTokens(VaultUnlocked(entry), entry);
      assert SameTokens(DbOpened(done), done) && SameTokens(CheckStarted(DbOpened(done)), done);
    } else {
      var done := TokensCleared(CheckStopped(entry));
      assert SameTokens(CheckStopped(entry), entry);
      assert SameTokens(done, TokensCleared(entry));
      assert SameTokens(VaultLocked(done), done) && SameTokens(DbClosed(VaultLocked(done)), done);
    }
  }

  predicate SameTokens(a: Core, b: Core) {
    a.tokens == b.tokens && a.newest == b.newest && a.mark == b.mark && a.nextToken == b.nextToken
  }

  lemma RegisteredTokensOk(c: Core, client: string)
    requires TokensOk(c)
    ensures TokensOk(Registered(c, client))
  {
  }

  /** Has an unlock failed after registering its token since the last lock that cleared the
      table?  Read off the steps of the run. */
  ghost predicate LeakIn(s: Sys, steps: seq<Step>, before: bool)
    decreases |steps|
  {
    if steps == [] || Next(s, steps[0]).None? then before
    else
      var s' := Next(s, steps[0]).value;
      LeakIn(s', steps[1..], FailsWithToken(s, steps[0]) || (before && !ClearsTokens(s, steps[0])))
  }

  predicate FailsWithToken(s: Sys, step: Step) {
    && step.Advance? && step.i < |s.calls|
    && s.calls[step.i].UnlockCall? && s.calls[step.i].pc == DbStep && !s.core.dbOpen && !step.ok
  }

  predicate ClearsTokens(s: Sys, step: Step) {
    step.Advance? && step.i < |s.calls| && s.calls[step.i].LockCall? && s.calls[step.i].pc == ClearStep
  }

  lemma {:induction false} LeakedIsLeakIn(s: Sys, steps: seq<Step>, s': Sys)
    requires Run(s, steps) == Some(s')
    ensures s'.core.leaked == LeakIn(s, steps, s.core.leaked)
    decreases |steps|
  {
    if steps == [] {
    } else {
      LeakStep(s, steps[0]);
      LeakedIsLeakIn(Next(s, steps[0]).value, steps[1..], s');
    }
  }

  lemma LeakStep(s: Sys, step: Step)
    requires Next(s, step).Some?
    ensures Next(s, step).value.core.leaked ==
              if FailsWithToken(s, step) then true else if ClearsTokens(s, step) then false else s.core.leaked
  {
    if step.Advance? {
      var call := s.calls[step.i];
      if call.UnlockCall? {
        UnlockLeaks(s.core, call.client, call.pc, step.ok);
      } else {
        LockLeaks(s.core, call.pc);
      }
    }
  }

  lemma UnlockLeaks(core: Core, client: string, pc: Pc, ok: bool)
    ensures UnlockStep(core, client, pc, ok).1.leaked == (core.leaked || (pc.DbStep? && !core.dbOpen && !ok))
  {
    match pc
    case Enter =>
    case VaultStep =>
    case TokenStep =>
    case DbStep =>
    case StartStep =>
    case SpawnStep =>
    case SetStep =>
    case _ =>
  }

  lemma LockLeaks(core: Core, pc: Pc)
    ensures LockStep(core, pc).1.leaked == (core.leaked && !pc.ClearStep?)
  {
    match pc
    case Enter =>
    case TestStep =>
    case StopStep =>
    case CancelStep =>
    case ClearStep =>
    case VaultLockStep =>
    case CloseStep =>
    case ResetStep =>
    case _ =>
  }

  /** A step with which a lock call returns. */
  predicate LockReturns(s: Sys, step: Step) {
    && step.Advance? && step.i < |s.calls| && s.calls[step.i].LockCall?
    && (s.calls[step.i].pc == ResetStep || (s.calls[step.i].pc == TestStep && !s.core.unlocked))
  }

  /** When a lock returns, the service is locked, and the token table is empty and the vault
      locked exactly if no unlock has failed after registering its token since the last lock
      that took effect. */
  lemma LockLeavesNoTokens(steps: seq<Step>, s: Sys, step: Step, s': Sys)
    requires Run(Init(), steps) == Some(s) && LockReturns(s, step) && Next(s, step) == Some(s')
    ensures !s'.core.unlocked && !s'.core.dbOpen
    ensures s'.core.tokens == map[] <==> !LeakIn(Init(), steps, false)
    ensures !s'.core.vaultOpen <==> !LeakIn(Init(), steps, false)
  {
    ReachableInv(steps, s);
    LeakedIsLeakIn(Init(), steps, s);
    LeakStep(s, step);
    assert CallOk(s, step.i);
    LockEnds(s.core, s.entry, s.calls[step.i]);
    assert s'.unlockMtx.None?;
    StepKeepsInv(s, step, s');
    assert CoreOk(s'.core);
    if s.calls[step.i].pc == ResetStep {
      assert !Partial(s.entry, s.calls[step.i]).leaked;
    }
  }

  /** A lock call that finds the service locked returns and leaves the core as it is. */
  lemma LockOfLocked(s: Sys) returns (steps: seq<Step>, s': Sys)
    requires s.unlockMtx.None? && !s.core.unlocked
    ensures Run(s, steps) == Some(s') && s'.core == s.core && s'.calls == s.calls + [LockCall(Done)]
  {
    var n := |s.calls|;
    var s1 := Next(s, NewLock).value;
    var s2 := Next(s1, Advance(n, true)).value;
    s' := Next(s2, Advance(n, true)).value;
    RunOne(s2, Advance(n, true), [], s');
    RunOne(s1, Advance(n, true), [Advance(n, true)] + [], s');
    steps := [Advance(n, true)] + ([Advance(n, true)] + []);
    RunOne(s, NewLock, steps, s');
    steps := [NewLock] + steps;
  }

  /** The failure is real: an unlock that registers its token and cannot open the database,
      then a lock, which leaves the token in the table and the vault unlocked. */
  lemma TokenSurvivesLock() returns (steps: seq<Step>, s: Sys)
    ensures Run(Init(), steps) == Some(s)
    ensures |s.calls| == 2 && s.calls[1] == LockCall(Done)
    ensures s.core.tokens == map["app" := 0] && s.core.vaultOpen && !s.core.unlocked
  {
    var s0 := Init();
    var s1 := Next(s0, NewUnlock("app")).value;
    var s2 := Next(s1, Advance(0, true)).value;
    var s3 := Next(s2, Advance(0, true)).value;
    var s4 := Next(s3, Advance(0, true)).value;
    var s5 := Next(s4, Advance(0, false)).value;
    steps, s := LockOfLocked(s5);
    RunOne(s4, Advance(0, false), steps, s);
    steps := [Advance(0, false)] + steps;
    RunOne(s3, Advance(0, true), steps, s);
    steps := [Advance(0, true)] + steps;
    RunOne(s2, Advance(0, true), steps, s);
    steps := [Advance(0, true)] + steps;
    RunOne(s1, Advance(0, true), steps, s);
    steps := [Advance(0, true)] + steps;
    RunOne(s0, NewUnlock("app"), steps, s);
    steps := [NewUnlock("app")] + steps;
  }

  lemma RunOne(s: Sys, step: Step, rest: seq<Step>, s': Sys)
    requires Next(s, step).Some? && Run(Next(s, step).value, rest) == Some(s')
    ensures Run(s, [step] + rest) == Some(s')
  {
    assert ([step] + rest)[1..] == rest;
  }

  // ---------- the calls take effect one at a time ----------

  datatype Op = OpUnlock(client: string, authOk: bool, dbOk: bool) | OpLock

  function Do(c: Core, op: Op): Core {
    match op
    case OpUnlock(client, authOk, dbOk) => Unlock(c, client, authOk, dbOk).0
    case OpLock => Lock(c)
  }

  /** What the caller of an operation is told; a lock says nothing. */
  function Answer(c: Core, op: Op): Option<Outcome> {
    match op
    case OpUnlock(client, authOk, dbOk) => Some(Unlock(c, client, authOk, dbOk).1)
    case OpLock => None
  }

  /** Call i returns from a whole operation with an answer. */
  datatype Return = Return(i: nat, op: Op, answer: Option<Outcome>)

  /** The operation of a call that is about to return: its kind and client, and, for an unlock,
      how far it got. */
  function LeavingOp(call: Call): Op {
    if call.LockCall? then OpLock else OpUnlock(call.client, call.pc != VaultStep, call.pc == SetStep)
  }

  /** An unlock that leaves at its last step hands out the client's token in the table. */
  function LeavingAnswer(call: Call, after: Core): Option<Outcome> {
    if call.LockCall? then None
    else match call.pc
      case VaultStep => Some(AuthFailed)
      case DbStep => Some(DbNotOpened)
      case _ => if call.client in after.tokens then Some(Unlocked(after.tokens[call.client])) else None
  }

  function ReturnOf(s: Sys, step: Step, s': Sys): seq<Return> {
    if step.Advance? && step.i < |s.calls| && step.i < |s'.calls| && !s.calls[step.i].pc.Done?
        && s'.calls[step.i].pc.Done?
    then [Return(step.i, LeavingOp(s.calls[step.i]), LeavingAnswer(s.calls[step.i], s'.core))]
    else []
  }

  /** The calls that return in a run, in the order they do, read off its steps. */
  function Returns(s: Sys, steps: seq<Step>): seq<Return>
    decreases |steps|
  {
    if steps == [] || Next(s, steps[0]).None? then []
    else
      var mid := Next(s, steps[0]).value;
      ReturnOf(s, steps[0], mid) + Returns(mid, steps[1..])
  }

  /** Whole operations, one after the other, give these answers and lead from c to c'. */
  predicate Explains(c: Core, rs: seq<Return>, c': Core)
    decreases |rs|
  {
    if rs == [] then c' == c
    else rs[0].answer == Answer(c, rs[0].op) && Explains(Do(c, rs[0].op), rs[1..], c')
  }

  /** The core the call at work started from, or the core if nobody is at work. */
  function Settled(s: Sys): Core {
    if s.unlockMtx.None? then s.core else s.entry
  }

  /** Every interleaving of steps amounts to whole Unlock and Lock operations: those of the
      calls that return, one after the other in the order they return, each with its caller's
      kind and client and with the answer the caller gets. */
  lemma {:induction false} CallsAreSerialized(s: Sys, steps: seq<Step>, s': Sys)
    requires Inv(s) && Run(s, steps) == Some(s')
    ensures Explains(Settled(s), Returns(s, steps), Settled(s'))
    decreases |steps|
  {
    if steps == [] {
    } else {
      var mid := Next(s, steps[0]).value;
      StepIsSerialized(s, steps[0], mid);
      StepKeepsInv(s, steps[0], mid);
      CallsAreSerialized(mid, steps[1..], s');
      var first, rest := ReturnOf(s, steps[0], mid), Returns(mid, steps[1..]);
      if first == [] {
        assert first + rest == rest;
      } else {
        assert (first + rest)[1..] == rest;
      }
    }
  }

  lemma StepIsSerialized(s: Sys, step: Step, s': Sys)
    requires Inv(s) && Next(s, step) == Some(s')
    ensures var rs := ReturnOf(s, step, s');
            if rs == [] then Settled(s') == Settled(s)
            else rs[0].answer == Answer(Settled(s), rs[0].op) && Settled(s') == Do(Settled(s), rs[0].op)
  {
    match step
    case Advance(i, ok) =>
      LeavesWhenDone(s, i, ok, s');
      if s.unlockMtx.Some? && s'.unlockMtx.None? {
        Holds(s, i, ok, s');
        LeavingIsOp(s, i, ok, s');
      } else {
        SectionOpen(s, i, ok, s');
      }
    case _ =>
  }

  /** A call returns exactly with the step that releases unlockMtx. */
  lemma LeavesWhenDone(s: Sys, i: nat, ok: bool, s': Sys)
    requires Inv(s) && Next(s, Advance(i, ok)) == Some(s')
    ensures i < |s.calls| == |s'.calls| && !s.calls[i].pc.Done?
            && s'.calls == s.calls[i := s.calls[i].(pc := s'.calls[i].pc)]
    ensures s'.calls[i].pc.Done? <==> s.unlockMtx.Some? && s'.unlockMtx.None?
  {
    assert CallOk(s, i);
    match s.calls[i].pc
    case VaultStep =>
    case DbStep =>
    case SetStep =>
    case TestStep =>
    case ResetStep =>
    case _ =>
  }

  /** Exactly the calls that were not done before and are done after, each once. */
  ghost predicate Returned(s: Sys, rs: seq<Return>, s': Sys) {
    && |s.calls| <= |s'.calls|
    && (forall i :: 0 <= i < |s.calls| && s.calls[i].pc.Done? ==> s'.calls[i].pc.Done?)
    && (forall j, k :: 0 <= j < k < |rs| ==> rs[j].i != rs[k].i)
    && (forall k :: 0 <= k < |rs| ==> NewlyDone(s, rs[k].i, s') && OpFits(s'.calls[rs[k].i], rs[k].op))
    && (forall i :: 0 <= i < |s'.calls| && NewlyDone(s, i, s') ==> exists k :: 0 <= k < |rs| && rs[k].i == i)
  }

  predicate NewlyDone(s: Sys, i: nat, s': Sys) {
    i < |s'.calls| && s'.calls[i].pc.Done? && (i < |s.calls| ==> !s.calls[i].pc.Done?)
  }

  predicate OpFits(call: Call, op: Op) {
    match op
    case OpLock => call.LockCall?
    case OpUnlock(client, _, _) => call.UnlockCall? && call.client == client
  }

  /** One entry per call that returns, with that call's kind and client. */
  lemma {:induction false} ReturnsAreCalls(s: Sys, steps: seq<Step>, s': Sys)
    requires Inv(s) && Run(s, steps) == Some(s')
    ensures Returned(s, Returns(s, steps), s') && SameCalls(s, s')
    decreases |steps|
  {
    if steps == [] {
    } else {
      var mid := Next(s, steps[0]).value;
      StepReturns(s, steps[0], mid);
      StepKeepsInv(s, steps[0], mid);
      ReturnsAreCalls(mid, steps[1..], s');
      ReturnedTwice(s, ReturnOf(s, steps[0], mid), mid, Returns(mid, steps[1..]), s');
    }
  }

  /** Calls keep their kind and client. */
  ghost predicate SameCalls(s: Sys, s': Sys) {
    |s.calls| <= |s'.calls| && forall i :: 0 <= i < |s.calls| ==> SameCall(s.calls[i], s'.calls[i])
  }

  predicate SameCall(a: Call, b: Call) {
    (a.LockCall? && b.LockCall?) || (a.UnlockCall? && b.UnlockCall? && a.client == b.client)
  }

  lemma StepReturns(s: Sys, step: Step, s': Sys)
    requires Inv(s) && Next(s, step) == Some(s')
    ensures Returned(s, ReturnOf(s, step, s'), s') && SameCalls(s, s')
  {
    if step.Advance? {
      LeavesWhenDone(s, step.i, step.ok, s');
      AdvanceReturns(s, step.i, s', LeavingAnswer(s.calls[step.i], s'.core));
    }
  }

  lemma AdvanceReturns(s: Sys, i: nat, s': Sys, answer: Option<Outcome>)
    requires i < |s.calls| == |s'.calls| && !s.calls[i].pc.Done?
             && s'.calls == s.calls[i := s.calls[i].(pc := s'.calls[i].pc)]
    ensures SameCalls(s, s')
    ensures Returned(s, if s'.calls[i].pc.Done? then [Return(i, LeavingOp(s.calls[i]), answer)] else [], s')
  {
    var rs := if s'.calls[i].pc.Done? then [Return(i, LeavingOp(s.calls[i]), answer)] else [];
    forall j | 0 <= j < |s'.calls| && NewlyDone(s, j, s')
      ensures exists k :: 0 <= k < |rs| && rs[k].i == j
    {
      assert j == i && rs[0].i == i;
    }
  }

  lemma ReturnedTwice(s: Sys, a: seq<Return>, mid: Sys, b: seq<Return>, s': Sys)
    requires Returned(s, a, mid) && SameCalls(s, mid) && Returned(mid, b, s') && SameCalls(mid, s')
    ensures Returned(s, a + b, s') && SameCalls(s, s')
  {
    forall i | 0 <= i < |s'.calls| && NewlyDone(s, i, s')
      ensures exists k :: 0 <= k < |a + b| && (a + b)[k].i == i
    {
      if NewlyDone(mid, i, s') {
        var k :| 0 <= k < |b| && b[k].i == i;
        assert (a + b)[|a| + k].i == i;
      } else {
        assert NewlyDone(s, i, mid);
        var k :| 0 <= k < |a| && a[k].i == i;
        assert (a + b)[k].i == i;
      }
    }
    forall k | 0 <= k < |a + b|
      ensures NewlyDone(s, (a + b)[k].i, s') && OpFits(s'.calls[(a + b)[k].i], (a + b)[k].op)
    {
      if k < |a| {
        assert NewlyDone(s, a[k].i, mid) && SameCall(mid.calls[a[k].i], s'.calls[a[k].i]);
      } else {
        assert NewlyDone(mid, b[k - |a|].i, s');
      }
    }
    forall j, k | 0 <= j < k < |a + b|
      ensures (a + b)[j].i != (a + b)[k].i
    {
      if j < |a| <= k {
        assert NewlyDone(s, a[j].i, mid) && NewlyDone(mid, b[k - |a|].i, s');
      }
    }
  }

  lemma Holds(s: Sys, i: nat, ok: bool, s': Sys)
    requires Inv(s) && Next(s, Advance(i, ok)) == Some(s') && s.unlockMtx.Some?
    ensures s.unlockMtx == Some(i)
  {
    assert CallOk(s, i);
  }

  lemma LeavingIsOp(s: Sys, i: nat, ok: bool, s': Sys)
    requires Inv(s) && Next(s, Advance(i, ok)) == Some(s') && s.unlockMtx == Some(i) && s'.unlockMtx.None?
    ensures s'.core == Do(s.entry, LeavingOp(s.calls[i]))
    ensures LeavingAnswer(s.calls[i], s'.core) == Answer(s.entry, LeavingOp(s.calls[i]))
  {
    assert CallOk(s, i);
    if s.calls[i].UnlockCall? {
      UnlockLeaves(s.core, s.entry, s.calls[i], ok);
    } else {
      LockLeaves(s.core, s.entry, s.calls[i]);
    }
  }

  lemma UnlockLeaves(core: Core, entry: Core, call: Call, ok: bool)
    requires call.UnlockCall? && PcOk(call) && Inside(call) && AtWork(core, entry, call)
    requires UnlockStep(core, call.client, call.pc, ok).0.Done?
    ensures var core' := UnlockStep(core, call.client, call.pc, ok).1;
            core' == Do(entry, LeavingOp(call)) && LeavingAnswer(call, core') == Answer(entry, LeavingOp(call))
  {
    UnlockEnds(core, entry, call);
    match call.pc
    case VaultStep =>
    case DbStep =>
    case SetStep => UnlockKeepsOk(entry, call.client, true, true);
  }

  lemma LockLeaves(core: Core, entry: Core, call: Call)
    requires call.LockCall? && PcOk(call) && Inside(call) && AtWork(core, entry, call)
    requires LockStep(core, call.pc).0.Done?
    ensures LockStep(core, call.pc).1 == Lock(entry)
  {
    LockEnds(core, entry, call);
  }

  lemma SectionOpen(s: Sys, i: nat, ok: bool, s': Sys)
    requires Inv(s) && Next(s, Advance(i, ok)) == Some(s') && !(s.unlockMtx.Some? && s'.unlockMtx.None?)
    ensures Settled(s') == Settled(s)
  {
    assert CallOk(s, i);
  }

  // ---------- no deadlock ----------

  /** As long as a call has not returned, some call or the checker in tryCheck can move. */
  lemma NoDeadlock(steps: seq<Step>, s: Sys, i: nat) returns (step: Step)
    requires Run(Init(), steps) == Some(s) && i < |s.calls| && s.calls[i].pc != Done
    ensures step.Advance? || step.Check?
    ensures Next(s, step).Some?
    ensures step.Check? ==> step.g < |s.checkers| && InTryCheck(s.checkers[step.g])
  {
    ReachableInv(steps, s);
    assert CallOk(s, i);
    match s.checkMtx
    case ByChecker(g) =>
      assert CheckerOk(s, g);
      step := Check(g, false);
    case ByCall(j) =>
      assert CallOk(s, j);
      step := Advance(j, true);
    case Free =>
      if s.unlockMtx.Some? {
        assert CallOk(s, s.unlockMtx.value);
        step := Advance(s.unlockMtx.value, true);
      } else {
        step := Advance(i, true);
      }
  }
}
