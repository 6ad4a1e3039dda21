/**
 Concurrent unlock and lock calls and the background checkers they start and cancel
 (service/service.go, service/check.go), step by step.

 Two mutexes: `unlockMtx` is held by a call from its first to its last step, `checkMtx` by
 startCheck, stopCheck and by a checker for the whole of tryCheck.
 */
module ServiceSystem {
  import opened Wrappers
  import opened ServiceCore

  /** Where an unlock or lock call stands: what it does next. */
  datatype Pc =
    | Enter                                              // wait for unlockMtx
    | VaultStep | TokenStep | DbStep | StartStep | SpawnStep | SetStep      // unlock
    | TestStep | StopStep | CancelStep | ClearStep | VaultLockStep | CloseStep | ResetStep   // lock
    | Done

  datatype Call = UnlockCall(client: string, pc: Pc) | LockCall(pc: Pc)

  /** Where a checker goroutine stands. */
  datatype Cc = Waiting | Syncing | Testing | CheckingKeys | Selecting | Exited

  datatype Holder = Free | ByCall(i: nat) | ByChecker(g: nat)

  /** `entry` is history: the core when unlockMtx was last taken. */
  datatype Sys = Sys(core: Core, unlockMtx: Option<nat>, checkMtx: Holder, calls: seq<Call>, checkers: seq<Cc>,
      entry: Core)

  datatype Step =
    | NewUnlock(client: string)
    | NewLock
    | Advance(i: nat, ok: bool)    // call i takes its next step; ok says whether it succeeds
    | Check(g: nat, go: bool)      // checker g takes its next step; go: keep checking, or the ticker fires

  function Init(): Sys {
    Sys(INITIAL, None, Free, [], [], INITIAL)
  }

  /** Can call i take its next step?  Only waiting for a mutex can block it. */
  predicate Ready(s: Sys, i: nat)
    requires i < |s.calls|
  {
    match s.calls[i].pc
    case Enter => s.unlockMtx.None?
    case StartStep => s.checkMtx.Free?
    case StopStep => s.checkMtx.Free?
    case Done => false
    case _ => true
  }

  /** The next step of an unlock call at pc: where it is then, and the core. */
  function UnlockStep(core: Core, client: string, pc: Pc, ok: bool): (Pc, Core) {
    match pc
    case Enter => (VaultStep, core)
    case VaultStep => if ok then (TokenStep, VaultUnlocked(core)) else (Done, core)
    case TokenStep => (DbStep, Registered(core, client))
    case DbStep => if core.dbOpen || ok then (StartStep, DbOpened(core)) else (Done, DbFailed(core))
    case StartStep => (SpawnStep, core)
    case SpawnStep => (SetStep, CheckStarted(core))
    case SetStep => (Done, FlagSet(core))
    case _ => (pc, core)
  }

  /** The next step of a lock call at pc. */
  function LockStep(core: Core, pc: Pc): (Pc, Core) {
    match pc
    case Enter => (TestStep, core)
    case TestStep => (if core.unlocked then StopStep else Done, core)
    case StopStep => (CancelStep, core)
    case CancelStep => (ClearStep, CheckStopped(core))
    case ClearStep => (VaultLockStep, TokensCleared(core))
    case VaultLockStep => (CloseStep, VaultLocked(core))
    case CloseStep => (ResetStep, DbClosed(core))
    case ResetStep => (Done, FlagCleared(core))
    case _ => (pc, core)
  }

  function CallStep(core: Core, call: Call, ok: bool): (Pc, Core) {
    if call.UnlockCall? then UnlockStep(core, call.client, call.pc, ok) else LockStep(core, call.pc)
  }

  /** Call i takes its next step.  It holds unlockMtx from its first step to its last and
      checkMtx while it starts or cancels a checker. */
  function AdvanceCall(s: Sys, i: nat, ok: bool): Sys
    requires i < |s.calls|
  {
    var call := s.calls[i];
    var (pc, core) := CallStep(s.core, call, ok);
    Sys(
      core,
      if call.pc.Enter? then Some(i) else if pc.Done? then None else s.unlockMtx,
      if pc.SpawnStep? || pc.CancelStep? then ByCall(i)
      else if call.pc.SpawnStep? || call.pc.CancelStep? then Free
      else s.checkMtx,
      s.calls[i := call.(pc := pc)],
      if call.pc.SpawnStep? && !s.core.checking then s.checkers + [Waiting] else s.checkers,
      if call.pc.Enter? then s.core else s.entry)
  }

  /** A checker's next step, or None when it cannot take it.  It enters tryCheck with checkMtx,
      syncs the vault, tests its context, checks keys, and waits for the ticker or its
      cancellation. */
  function AdvanceChecker(s: Sys, g: nat, go: bool): Option<Sys>
    requires g < |s.checkers|
  {
    match s.checkers[g]
    case Waiting =>
      if s.checkMtx.Free? then Some(s.(checkMtx := ByChecker(g), checkers := s.checkers[g := Syncing])) else None
    case Syncing => Some(s.(checkers := s.checkers[g := Testing]))
    case Testing =>
      if g in s.core.cancelled then Some(s.(checkMtx := Free, checkers := s.checkers[g := Selecting]))
      else Some(s.(checkers := s.checkers[g := CheckingKeys]))
    case CheckingKeys => Some(if go then s else s.(checkMtx := Free, checkers := s.checkers[g := Selecting]))
    case Selecting =>
      if go then Some(s.(checkers := s.checkers[g := Waiting]))
      else if g in s.core.cancelled then Some(s.(checkers := s.checkers[g := Exited]))
      else None
    case Exited => None
  }

  function Next(s: Sys, step: Step): Option<Sys> {
    match step
    case NewUnlock(client) => Some(s.(calls := s.calls + [UnlockCall(client, Enter)]))
    case NewLock => Some(s.(calls := s.calls + [LockCall(Enter)]))
    case Advance(i, ok) =>
      if i < |s.calls| && Ready(s, i)
      then Some(AdvanceCall(s, i, ok))
      else None
    case Check(g, go) => if g < |s.checkers| then AdvanceChecker(s, g, go) else None
  }

  function Run(s: Sys, steps: seq<Step>): Option<Sys>
    decreases |steps|
  {
    if steps == [] then Some(s)
    else match Next(s, steps[0])
      case None => None
      case Some(s') => Run(s', steps[1..])
  }

  // ---------- invariant ----------

  /** The core inside a critical section, from the core at its start. */
  function Partial(entry: Core, call: Call): Core {
    if call.UnlockCall? then
      match call.pc
      case TokenStep => VaultUnlocked(entry)
      case DbStep => Registered(VaultUnlocked(entry), call.client)
      case StartStep => DbOpened(Registered(VaultUnlocked(entry), call.client))
      case SpawnStep => DbOpened(Registered(VaultUnlocked(entry), call.client))
      case SetStep => CheckStarted(DbOpened(Registered(VaultUnlocked(entry), call.client)))
      case _ => entry
    else
      match call.pc
      case ClearStep => CheckStopped(entry)
      case VaultLockStep => TokensCleared(CheckStopped(entry))
      case CloseStep => VaultLocked(TokensCleared(CheckStopped(entry)))
      case ResetStep => DbClosed(VaultLocked(TokensCleared(CheckStopped(entry))))
      case _ => entry
  }

  predicate IsLockStep(pc: Pc) {
    match pc
    case TestStep => true
    case StopStep => true
    case CancelStep => true
    case ClearStep => true
    case VaultLockStep => true
    case CloseStep => true
    case ResetStep => true
    case _ => false
  }

  /** Unlock calls take unlock steps, lock calls lock steps. */
  predicate PcOk(call: Call) {
    call.pc.Enter? || call.pc.Done? || (call.LockCall? <==> IsLockStep(call.pc))
  }

  predicate Inside(call: Call) {
    !call.pc.Enter? && !call.pc.Done?
  }

  predicate HoldsCheck(call: Call) {
    call.pc.SpawnStep? || call.pc.CancelStep?
  }

  predicate InTryCheck(c: Cc) {
    c.Syncing? || c.Testing? || c.CheckingKeys?
  }

  /** A call is inside its critical sections exactly while it holds the mutexes. */
  ghost predicate CallOk(s: Sys, i: nat)
    requires i < |s.calls|
  {
    var call := s.calls[i];
    && PcOk(call)
    && (Inside(call) <==> s.unlockMtx == Some(i))
    && (HoldsCheck(call) <==> s.checkMtx == ByCall(i))
  }

  /** A checker is inside tryCheck exactly while it holds checkMtx; it checks keys only while
      it is not cancelled, and exits only when it is. */
  ghost predicate CheckerOk(s: Sys, g: nat)
    requires g < |s.checkers|
  {
    && (InTryCheck(s.checkers[g]) <==> s.checkMtx == ByChecker(g))
    && (s.checkers[g].CheckingKeys? ==> g !in s.core.cancelled)
    && (s.checkers[g].Exited? ==> g in s.core.cancelled)
  }

  /** Outside the critical sections the core is in order; inside, it is what the call at work
      has made so far of a core that was. */
  ghost predicate CoreRight(s: Sys) {
    && |s.checkers| == |s.core.born|
    && (s.checkMtx.ByCall? ==> s.checkMtx.i < |s.calls|)
    && (s.checkMtx.ByChecker? ==> s.checkMtx.g < |s.checkers|)
    && (s.unlockMtx.None? ==> CoreOk(s.core))
    && (s.unlockMtx.Some? ==>
          && s.unlockMtx.value < |s.calls|
          && AtWork(s.core, s.entry, s.calls[s.unlockMtx.value]))
  }

  ghost predicate AtWork(core: Core, entry: Core, call: Call) {
    && CoreOk(entry)
    && core == Partial(entry, call)
    && (call.LockCall? && call.pc != TestStep ==> entry.unlocked)
  }

  ghost predicate Inv(s: Sys) {
    && (forall i :: 0 <= i < |s.calls| ==> CallOk(s, i))
    && (forall g :: 0 <= g < |s.checkers| ==> CheckerOk(s, g))
    && CoreRight(s)
  }

  /** A checker that is not cancelled is the last one, runs, and was started for the database
      that is open now. */
  ghost predicate OnlyLive(c: Core, g: nat) {
    g < |c.born| && g !in c.cancelled ==> g == |c.born| - 1 && c.checking && c.dbOpen && c.born[g] == c.epoch
  }

  lemma LiveOutside(c: Core, g: nat)
    requires CoreOk(c)
    ensures OnlyLive(c, g)
  {
  }

  lemma LiveInUnlock(entry: Core, call: Call, g: nat)
    requires CoreOk(entry) && call.UnlockCall?
    ensures OnlyLive(Partial(entry, call), g)
  {
    LiveOutside(entry, g);
    assert |entry.born| !in entry.cancelled;
  }

  lemma LiveInLock(entry: Core, call: Call, g: nat)
    requires CoreOk(entry) && call.LockCall? && (call.pc != TestStep ==> entry.unlocked)
    ensures OnlyLive(Partial(entry, call), g)
  {
    LiveOutside(entry, g);
  }

  /** Even inside a critical section. */
  lemma LiveChecker(s: Sys, g: nat)
    requires Inv(s)
    ensures OnlyLive(s.core, g)
  {
    if s.unlockMtx.None? {
      LiveOutside(s.core, g);
    } else if s.calls[s.unlockMtx.value].UnlockCall? {
      LiveInUnlock(s.entry, s.calls[s.unlockMtx.value], g);
    } else {
      LiveInLock(s.entry, s.calls[s.unlockMtx.value], g);
    }
  }

  /** What a step of call i may change of the mutexes and its own position. */
  ghost predicate CallMoved(s: Sys, i: nat, s': Sys)
    requires i < |s.calls|
  {
    && |s'.calls| == |s.calls|
    && (forall j :: 0 <= j < |s.calls| && j != i ==> s'.calls[j] == s.calls[j])
    && (s.unlockMtx == Some(i) || s.unlockMtx.None?)
    && (s'.unlockMtx == Some(i) || s'.unlockMtx.None?)
    && (|| s'.checkMtx == s.checkMtx
        || (s.checkMtx.Free? && s'.checkMtx == ByCall(i))
        || (s.checkMtx == ByCall(i) && s'.checkMtx.Free?))
    && CallOk(s', i)
  }

  lemma AdvanceMoves(s: Sys, i: nat, ok: bool)
    requires i < |s.calls| && Ready(s, i) && CallOk(s, i)
    ensures CallMoved(s, i, AdvanceCall(s, i, ok))
  {
    StepPc(s.core, s.calls[i], ok);
  }

  /** A step stays on its side: unlock steps lead to unlock steps, lock steps to lock steps. */
  lemma StepPc(core: Core, call: Call, ok: bool)
    requires PcOk(call) && !call.pc.Done?
    ensures var pc := CallStep(core, call, ok).0;
            && PcOk(call.(pc := pc)) && !pc.Enter?
            && (HoldsCheck(call.(pc := pc)) <==> call.pc.StartStep? || call.pc.StopStep?)
  {
    match call.pc
    case Enter =>
    case VaultStep =>
    case DbStep =>
    case TestStep =>
    case _ =>
  }

  /** What a step of call i may change of the checkers. */
  ghost predicate CheckersMoved(s: Sys, s': Sys) {
    && (s'.checkers == s.checkers || s'.checkers == s.checkers + [Waiting])
    && s.core.cancelled <= s'.core.cancelled
    && (s'.core.cancelled != s.core.cancelled ==> s.checkMtx.ByCall?)
    && |s'.core.born| - |s.core.born| == |s'.checkers| - |s.checkers|
  }

  lemma AdvanceCheckers(s: Sys, i: nat, ok: bool)
    requires i < |s.calls| && CallOk(s, i)
    ensures CheckersMoved(s, AdvanceCall(s, i, ok))
  {
    StepChecks(s.core, s.calls[i], ok);
  }

  /** What a step from position pc may change of the checkers' part of the core. */
  ghost predicate ChecksMoved(core: Core, pc: Pc, core': Core) {
    && core.cancelled <= core'.cancelled
    && (core'.cancelled != core.cancelled ==> pc.CancelStep?)
    && |core'.born| == |core.born| + if pc.SpawnStep? && !core.checking then 1 else 0
  }

  lemma StepChecks(core: Core, call: Call, ok: bool)
    requires PcOk(call)
    ensures ChecksMoved(core, call.pc, CallStep(core, call, ok).1)
  {
    if call.UnlockCall? {
      UnlockStepChecks(core, call.client, call.pc, ok);
    } else {
      LockStepChecks(core, call.pc);
    }
  }

  lemma UnlockStepChecks(core: Core, client: string, pc: Pc, ok: bool)
    requires !IsLockStep(pc)
    ensures ChecksMoved(core, pc, UnlockStep(core, client, pc, ok).1)
  {
    match pc
    case Enter =>
    case VaultStep =>
    case TokenStep =>
    case DbStep =>
    case StartStep =>
    case SpawnStep =>
    case SetStep =>
    case _ =>
  }

  lemma LockStepChecks(core: Core, pc: Pc)
    requires IsLockStep(pc) || pc.Enter? || pc.Done?
    ensures ChecksMoved(core, pc, LockStep(core, pc).1)
  {
    match pc
    case Enter =>
    case TestStep =>
    case StopStep =>
    case CancelStep =>
    case ClearStep =>
    case VaultLockStep =>
    case CloseStep =>
    case ResetStep =>
    case _ =>
  }

  lemma OtherCallOk(s: Sys, i: nat, s': Sys, j: nat)
    requires i < |s.calls| && CallMoved(s, i, s') && j < |s.calls| && CallOk(s, i) && CallOk(s, j)
    ensures CallOk(s', j)
  {
  }

  lemma CheckerStaysOk(s: Sys, i: nat, s': Sys, g: nat)
    requires i < |s.calls| && CallMoved(s, i, s') && CheckersMoved(s, s') && g < |s'.checkers|
    requires g < |s.checkers| ==> CheckerOk(s, g)
    requires g >= |s.checkers| ==> s.checkMtx != ByChecker(g)
    ensures CheckerOk(s', g)
  {
  }

  /** The last step of an unlock call leaves behind what Unlock makes of the entry core. */
  lemma UnlockEnds(core: Core, entry: Core, call: Call)
    requires call.UnlockCall? && PcOk(call) && AtWork(core, entry, call)
    ensures call.pc.VaultStep? ==> core == Unlock(entry, call.client, false, false).0 && CoreOk(core)
    ensures call.pc.DbStep? && !core.dbOpen ==>
            DbFailed(core) == Unlock(entry, call.client, true, false).0 && CoreOk(DbFailed(core))
    ensures call.pc.SetStep? ==> FlagSet(core) == Unlock(entry, call.client, true, true).0 && CoreOk(FlagSet(core))
  {
    UnlockKeepsOk(entry, call.client, call.pc != VaultStep, call.pc == SetStep);
  }

  lemma LockEnds(core: Core, entry: Core, call: Call)
    requires call.LockCall? && PcOk(call) && AtWork(core, entry, call)
    ensures call.pc.TestStep? && !core.unlocked ==> core == Lock(entry) && CoreOk(core)
    ensures call.pc.ResetStep? ==> FlagCleared(core) == Lock(entry) && CoreOk(FlagCleared(core))
  {
    LockKeepsOk(entry);
  }

  /** The core and the lock of a call, apart from the checkers. */
  ghost predicate WorkRight(unlockMtx: Option<nat>, i: nat, core: Core, entry: Core, call: Call) {
    && (unlockMtx.None? ==> CoreOk(core))
    && (unlockMtx.Some? ==> unlockMtx.value == i && AtWork(core, entry, call))
  }

  /** The step of call i from position pc leaves the core right. */
  ghost predicate StepsRight(s: Sys, i: nat, s': Sys) {
    i < |s'.calls| == |s.calls| && WorkRight(s'.unlockMtx, i, s'.core, s'.entry, s'.calls[i])
  }

  /** Inside a critical section each step takes Partial one step further, and the last one
      gives the whole operation. */
  lemma UnlockStepRight(core: Core, entry: Core, call: Call, ok: bool)
    requires call.UnlockCall? && PcOk(call) && Inside(call) && AtWork(core, entry, call)
    ensures var (pc, core') := UnlockStep(core, call.client, call.pc, ok);
            if pc.Done? then CoreOk(core') else AtWork(core', entry, call.(pc := pc))
  {
    if UnlockStep(core, call.client, call.pc, ok).0.Done? {
      UnlockEnds(core, entry, call);
    } else {
      UnlockPartial(entry, call, ok);
    }
  }

  lemma UnlockPartial(entry: Core, call: Call, ok: bool)
    requires call.UnlockCall? && PcOk(call) && Inside(call)
    requires !UnlockStep(Partial(entry, call), call.client, call.pc, ok).0.Done?
    ensures var (pc, core) := UnlockStep(Partial(entry, call), call.client, call.pc, ok);
            core == Partial(entry, call.(pc := pc))
  {
    match call.pc
    case Enter =>
    case VaultStep =>
    case TokenStep =>
    case DbStep =>
    case StartStep =>
    case SpawnStep =>
    case SetStep =>
    case _ =>
  }

  lemma LockStepRight(core: Core, entry: Core, call: Call)
    requires call.LockCall? && PcOk(call) && Inside(call) && AtWork(core, entry, call)
    ensures var (pc, core') := LockStep(core, call.pc);
            if pc.Done? then CoreOk(core') else AtWork(core', entry, call.(pc := pc))
  {
    match call.pc
    case TestStep => LockEnds(core, entry, call);
    case ResetStep => LockEnds(core, entry, call);
    case _ => LockPartial(entry, call.pc);
  }

  lemma LockPartial(entry: Core, pc: Pc)
    requires pc in {StopStep, CancelStep, ClearStep, VaultLockStep, CloseStep}
    ensures var (pc', core') := LockStep(Partial(entry, LockCall(pc)), pc);
            IsLockStep(pc') && pc' != TestStep && core' == Partial(entry, LockCall(pc'))
  {
  }

  lemma AdvanceCore(s: Sys, i: nat, ok: bool)
    requires i < |s.calls| && Ready(s, i) && CallOk(s, i) && CoreRight(s)
    ensures StepsRight(s, i, AdvanceCall(s, i, ok))
  {
    var call := s.calls[i];
    if call.pc.Enter? {
    } else if call.UnlockCall? {
      UnlockStepRight(s.core, s.entry, call, ok);
    } else {
      LockStepRight(s.core, s.entry, call);
    }
  }

  lemma AdvanceParts(s: Sys, i: nat, ok: bool, s': Sys)
    requires Inv(s) && Next(s, Advance(i, ok)) == Some(s')
    ensures CallMoved(s, i, s') && CheckersMoved(s, s') && CoreRight(s')
  {
    assert CallOk(s, i);
    AdvanceMoves(s, i, ok);
    AdvanceCheckers(s, i, ok);
    AdvanceCore(s, i, ok);
  }

  lemma MovedKeepsInv(s: Sys, i: nat, s': Sys)
    requires Inv(s) && i < |s.calls| && CallMoved(s, i, s') && CheckersMoved(s, s') && CoreRight(s')
    ensures Inv(s')
  {
    forall j | 0 <= j < |s'.calls|
      ensures CallOk(s', j)
    {
      OtherCallOk(s, i, s', j);
    }
    forall g | 0 <= g < |s'.checkers|
      ensures CheckerOk(s', g)
    {
      CheckerStaysOk(s, i, s', g);
    }
  }

  lemma NewCallKeepsInv(s: Sys, call: Call)
    requires Inv(s) && call.pc.Enter?
    ensures Inv(s.(calls := s.calls + [call]))
  {
    var s' := s.(calls := s.calls + [call]);
    forall j | 0 <= j < |s'.calls|
      ensures CallOk(s', j)
    {
      assert j < |s.calls| ==> CallOk(s, j);
    }
    forall g | 0 <= g < |s'.checkers|
      ensures CheckerOk(s', g)
    {
      assert CheckerOk(s, g);
    }
  }

  lemma CheckKeepsInv(s: Sys, g: nat, go: bool, s': Sys)
    requires Inv(s) && g < |s.checkers| && AdvanceChecker(s, g, go) == Some(s')
    ensures Inv(s')
  {
    assert CheckerOk(s, g);
    forall j | 0 <= j < |s'.calls|
      ensures CallOk(s', j)
    {
      assert CallOk(s, j);
    }
    forall h | 0 <= h < |s'.checkers|
      ensures CheckerOk(s', h)
    {
      assert CheckerOk(s, h);
    }
  }

  lemma StepKeepsInv(s: Sys, step: Step, s': Sys)
    requires Inv(s) && Next(s, step) == Some(s')
    ensures Inv(s')
  {
    match step
    case NewUnlock(client) => NewCallKeepsInv(s, UnlockCall(client, Enter));
    case NewLock => NewCallKeepsInv(s, LockCall(Enter));
    case Advance(i, ok) =>
      AdvanceParts(s, i, ok, s');
      MovedKeepsInv(s, i, s');
    case Check(g, go) => CheckKeepsInv(s, g, go, s');
  }

  lemma {:induction false} RunKeepsInv(s: Sys, steps: seq<Step>, s': Sys)
    requires Inv(s) && Run(s, steps) == Some(s')
    ensures Inv(s')
    decreases |steps|
  {
    if steps == [] {
    } else {
      var mid := Next(s, steps[0]).value;
      StepKeepsInv(s, steps[0], mid);
      RunKeepsInv(mid, steps[1..], s');
    }
  }
}
