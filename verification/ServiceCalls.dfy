/**
 The service's calls as code: `unlock`, `lock`, `startCheck`, `stopCheck`, `tryCheck`, and
 the token table (service/service.go, service/check.go, service/auth.go).  Each method runs
 with the mutexes it takes, so its effect is one step or one whole operation on the core;
 ServiceGuarantees says why that is enough when calls run concurrently.
 */
module ServiceCalls {
  import opened Wrappers
  import opened ServiceCore

  class Service {
    var unlocked: bool
    var checking: bool
    var cancelFn: Option<nat>
    var cancelled: set<nat>
    var dbOpen: bool
    var vaultOpen: bool
    var tokens: map<string, nat>
    var nextToken: nat
    ghost var newest: map<string, nat>
    ghost var mark: nat
    ghost var leaked: bool
    ghost var epoch: nat
    ghost var born: seq<nat>
    var checkers: nat

    ghost function Fields(): Core
      reads this
    {
      Core(unlocked, checking, cancelFn, cancelled, dbOpen, vaultOpen, tokens, nextToken, newest, mark, leaked,
          epoch, born)
    }

    ghost predicate Valid()
      reads this
    {
      CoreOk(Fields()) && checkers == |born|
    }

    constructor ()
      ensures Valid() && Fields() == INITIAL
    {
      unlocked, checking, cancelFn, cancelled, dbOpen, vaultOpen := false, false, None, {}, false, false;
      tokens, nextToken, checkers := map[], 0, 0;
      newest, mark, leaked, epoch, born := map[], 0, false, 0, [];
    }

    /** The client's new token is known and its former one is not; other clients' tokens are as
        they were. */
    method RegisterToken(client: string) returns (token: nat)
      modifies this
      ensures token == old(nextToken) && checkers == old(checkers)
      ensures Fields() == Registered(old(Fields()), client)
      ensures old(TokensOk(Fields())) ==>
                forall t :: TokenKnown(tokens, t) <==>
                  t == token || (old(TokenKnown(tokens, t)) && !(client in old(tokens) && old(tokens)[client] == t))
    {
      if TokensOk(Fields()) {
        forall t {
          RegisteredTokens(Fields(), client, t);
        }
      }
      token := nextToken;
      nextToken := nextToken + 1;
      tokens := tokens[client := token];
      newest := newest[client := token];
    }

    /** Start a checker unless one is running; `started` is the new checker. */
    method StartCheck() returns (started: Option<nat>)
      requires checkers == |born|
      modifies this
      ensures checkers == |born| && Fields() == CheckStarted(old(Fields()))
      ensures started == if old(checking) then None else Some(old(checkers))
      ensures checking && (!old(checking) ==> cancelFn == started && born == old(born) + [epoch])
    {
      if checking {
        return None;
      }
      started := Some(checkers);
      cancelFn := started;
      checking := true;
      checkers := checkers + 1;
      born := born + [epoch];
    }

    /** Cancel the running checker: after that none is live.  The wait that follows ends at once:
        `checking` was just cleared by this very method. */
    method StopCheck()
      modifies this
      ensures Fields() == CheckStopped(old(Fields())) && checkers == old(checkers)
      ensures old(checking && CheckersOk(Fields())) ==> forall g: nat :: g in cancelled <==> g < |born|
    {
      if checking && CheckersOk(Fields()) {
        forall g: nat {
          StoppedCheckers(Fields(), g);
        }
      }
      checking := false;
      if cancelFn.Some? {
        cancelled := cancelled + {cancelFn.value};
      }
      for i := 0 to 100
        invariant Fields() == CheckStopped(old(Fields())) && checkers == old(checkers)
      {
        if !checking {
          return;
        }
      }
    }

    /** What a checker does with checkMtx: check the keys unless its context is cancelled. */
    method TryCheck(g: nat) returns (checksKeys: bool)
      requires Valid() && g < checkers
      ensures checksKeys <==> g !in cancelled
      ensures checksKeys ==> dbOpen && g == checkers - 1 && born[g] == epoch
    {
      if g in cancelled {
        return false;
      }
      return true;
    }

    /** An accepted secret gives the client a token that is known from then on; a refused one
        changes nobody's. */
    method AuthUnlock(client: string, authOk: bool) returns (token: Option<nat>)
      modifies this
      ensures token == if authOk then Some(old(nextToken)) else None
      ensures Fields() == (if authOk then Registered(VaultUnlocked(old(Fields())), client) else old(Fields()))
      ensures checkers == old(checkers)
      ensures tokens == if authOk then old(tokens)[client := old(nextToken)] else old(tokens)
      ensures vaultOpen == (authOk || old(vaultOpen))
      ensures token.None? ==> forall t :: TokenKnown(tokens, t) <==> old(TokenKnown(tokens, t))
      ensures token.Some? && old(TokensOk(Fields())) ==>
                forall t :: TokenKnown(tokens, t) <==>
                  || t == token.value
                  || (old(TokenKnown(tokens, t)) && !(client in old(tokens) && old(tokens)[client] == t))
    {
      if !authOk {
        return None;
      }
      vaultOpen := true;
      var t := RegisterToken(client);
      return Some(t);
    }

    /** No token is known afterwards, and none generated before will be: the table only gains
        tokens from the mark on. */
    method AuthLock()
      modifies this
      ensures Fields() == VaultLocked(TokensCleared(old(Fields()))) && checkers == old(checkers)
      ensures tokens == map[] && !vaultOpen && forall t :: !TokenKnown(tokens, t)
      ensures old(TokensOk(Fields())) ==> TokensOk(Fields()) && forall t: nat :: old(TokenKnown(tokens, t)) ==> t < mark
    {
      tokens := map[];
      mark, leaked := nextToken, false;
      vaultOpen := false;
    }

    /** unlock: can be called while unlocked, to get a token. */
    method UnlockService(client: string, authOk: bool, dbOk: bool) returns (r: Outcome)
      requires Valid()
      modifies this
      ensures Valid() && (Fields(), r) == Unlock(old(Fields()), client, authOk, dbOk)
      ensures r.Unlocked? ==>
                && unlocked && dbOpen && vaultOpen && checking && client in tokens
                && tokens[client] == r.token
      ensures !r.Unlocked? ==> unlocked == old(unlocked)
      ensures r == AuthFailed <==> !authOk
      ensures r == DbNotOpened <==> authOk && !old(dbOpen) && !dbOk
      ensures tokens == if authOk then old(tokens)[client := old(nextToken)] else old(tokens)
      ensures forall k :: k in old(tokens) ==> old(tokens)[k] != old(nextToken)
      ensures r == AuthFailed ==> vaultOpen == old(vaultOpen) && dbOpen == old(dbOpen) && checking == old(checking)
      ensures r.Unlocked? ==> |born| == |old(born)| + (if old(checking) then 0 else 1) && |born| - 1 !in cancelled
    {
      UnlockKeepsOk(Fields(), client, authOk, dbOk);
      var token := AuthUnlock(client, authOk);
      if token.None? {
        return AuthFailed;
      }
      if !dbOpen {
        if !dbOk {
          leaked := true;
          return DbNotOpened;
        }
        dbOpen := true;
      }
      var _ := StartCheck();
      unlocked := true;
      return Unlocked(token.value);
    }

    method LockService()
      requires Valid()
      modifies this
      ensures Valid() && Fields() == Lock(old(Fields()))
      ensures !unlocked && !dbOpen && !checking
      ensures tokens == map[] <==> old(unlocked) || !old(leaked)
      ensures old(unlocked) ==> !vaultOpen && forall g: nat :: g in cancelled <==> g < |born|
      ensures !old(unlocked) ==> Fields() == old(Fields())
    {
      LockKeepsOk(Fields());
      if !unlocked {
        return;
      }
      StopCheck();
      AuthLock();
      dbOpen := false;
      epoch := epoch + 1;
      unlocked := false;
    }

    /** checkToken: look through the table. */
    method CheckToken(token: nat) returns (known: bool)
      ensures known <==> exists k :: k in tokens && tokens[k] == token
    {
      var clients := tokens.Keys;
      while clients != {}
        invariant clients <= tokens.Keys
        invariant forall k :: k in tokens && k !in clients ==> tokens[k] != token
        decreases clients
      {
        var k :| k in clients;
        if tokens[k] == token {
          return true;
        }
        clients := clients - {k};
      }
      return false;
    }

    method AuthorizeRequest(allowlist: set<string>, name: string, md: Option<seq<nat>>) returns (r: AuthResult)
      requires Valid()
      ensures r == Authorize(Fields(), allowlist, name, md)
      ensures name in allowlist ==> r == Allowed
      ensures name !in allowlist ==>
                && (r == NoContext <==> md.None?)
                && (r == Missing <==> md == Some([]))
                && (md.Some? && md.value != [] ==>
                      (r == Allowed <==> exists k :: k in tokens && tokens[k] == md.value[0])
                      && (r == Invalid <==> forall k :: k in tokens ==> tokens[k] != md.value[0]))
      ensures r == Allowed && name !in allowlist ==> mark <= md.value[0] < nextToken
    {
      AuthorizeIs(Fields(), allowlist, name, md);
      if name in allowlist {
        return Allowed;
      }
      if md.None? {
        return NoContext;
      }
      if |md.value| == 0 {
        return Missing;
      }
      var known := CheckToken(md.value[0]);
      return if known then Allowed else Invalid;
    }
  }

  lemma AuthorizeIs(c: Core, allowlist: set<string>, name: string, md: Option<seq<nat>>)
    requires TokensOk(c)
    ensures Authorize(c, allowlist, name, md) == Allowed && name !in allowlist ==>
              md.Some? && md.value != [] && c.mark <= md.value[0] < c.nextToken
  {
    if name !in allowlist {
      AuthorizedTokens(c, allowlist, name, md);
    }
  }
}
