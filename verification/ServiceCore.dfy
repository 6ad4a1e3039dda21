/**
 The state that unlocking and locking the service changes (service/service.go, check.go,
 auth.go), what each step of the two does to it, and what they do as a whole.

 Tokens are random in the program; here they are numbered in the order they are generated.
 `newest`, `mark`, `leaked`, `epoch` and `born` are history: the last token generated for
 each client, the first token number after the last effective lock, whether an unlock has
 failed after registering its token since that lock, how often the database was closed, and
 the epoch in which each background checker was started.
 */
module ServiceCore {
  import opened Wrappers

  datatype Core = Core(
    unlocked: bool,
    checking: bool,
    cancelFn: Option<nat>,      // the checker that checkCancelFn cancels
    cancelled: set<nat>,
    dbOpen: bool,
    vaultOpen: bool,
    tokens: map<string, nat>,
    nextToken: nat,
    newest: map<string, nat>,
    mark: nat,
    leaked: bool,
    epoch: nat,
    born: seq<nat>)

  const INITIAL := Core(false, false, None, {}, false, false, map[], 0, map[], 0, false, 0, [])

  // ---------- the steps ----------

  function VaultUnlocked(c: Core): Core {
    c.(vaultOpen := true)
  }

  function Registered(c: Core, client: string): Core {
    c.(tokens := c.tokens[client := c.nextToken], newest := c.newest[client := c.nextToken],
        nextToken := c.nextToken + 1)
  }

  function DbOpened(c: Core): Core {
    c.(dbOpen := true)
  }

  function DbFailed(c: Core): Core {
    c.(leaked := true)
  }

  /** startCheck under checkMtx: a new checker unless one is running. */
  function CheckStarted(c: Core): Core {
    if c.checking then c else c.(checking := true, cancelFn := Some(|c.born|), born := c.born + [c.epoch])
  }

  function FlagSet(c: Core): Core {
    c.(unlocked := true)
  }

  /** stopCheck under checkMtx. */
  function CheckStopped(c: Core): Core {
    c.(checking := false, cancelled := if c.cancelFn.Some? then c.cancelled + {c.cancelFn.value} else c.cancelled)
  }

  function TokensCleared(c: Core): Core {
    c.(tokens := map[], mark := c.nextToken, leaked := false)
  }

  function VaultLocked(c: Core): Core {
    c.(vaultOpen := false)
  }

  function DbClosed(c: Core): Core {
    c.(dbOpen := false, epoch := c.epoch + 1)
  }

  function FlagCleared(c: Core): Core {
    c.(unlocked := false)
  }

  // ---------- the whole operations ----------

  datatype Outcome = Unlocked(token: nat) | AuthFailed | DbNotOpened

  /** unlock: authOk and dbOk say whether the vault accepts the secret and whether the
      database, if it has to be opened, opens. */
  function Unlock(c: Core, client: string, authOk: bool, dbOk: bool): (Core, Outcome) {
    if !authOk then (c, AuthFailed)
    else
      var c1 := Registered(VaultUnlocked(c), client);
      if !c.dbOpen && !dbOk then (DbFailed(c1), DbNotOpened)
      else (FlagSet(CheckStarted(DbOpened(c1))), Unlocked(c.nextToken))
  }

  function Lock(c: Core): Core {
    if !c.unlocked then c
    else FlagCleared(DbClosed(VaultLocked(TokensCleared(CheckStopped(c)))))
  }

  /** The invariant between operations. */
  ghost predicate CoreOk(c: Core) {
    && c.dbOpen == c.unlocked == c.checking
    && (c.unlocked ==> c.vaultOpen)
    && (!c.unlocked ==> (c.vaultOpen <==> c.leaked) && (c.tokens == map[] <==> !c.leaked))
    && CheckersOk(c)
    && TokensOk(c)
  }

  /** All checkers but the running one are cancelled, and the running one belongs to the
      database that is open. */
  ghost predicate CheckersOk(c: Core) {
    && (c.checking ==> c.born != [] && c.cancelFn == Some(|c.born| - 1) && c.born[|c.born| - 1] == c.epoch)
    && (forall g :: g in c.cancelled <==> 0 <= g < (if c.checking then |c.born| - 1 else |c.born|))
  }

  ghost predicate TokensOk(c: Core) {
    && c.mark <= c.nextToken
    && (forall k :: k in c.tokens ==>
          && k in c.newest && c.tokens[k] == c.newest[k]
          && c.mark <= c.tokens[k] < c.nextToken)
    && (forall k :: k in c.newest ==> c.newest[k] < c.nextToken)
    && (forall j, k :: j in c.tokens && k in c.tokens && j != k ==> c.tokens[j] != c.tokens[k])
  }

  lemma UnlockKeepsOk(c: Core, client: string, authOk: bool, dbOk: bool)
    requires CoreOk(c)
    ensures var (c', r) := Unlock(c, client, authOk, dbOk);
            && CoreOk(c')
            && (r.Unlocked? <==> authOk && (c.unlocked || dbOk))
            && (r.Unlocked? ==> c'.unlocked && c'.tokens == c.tokens[client := r.token])
            && (!r.Unlocked? ==> c'.unlocked == c.unlocked)
            && (r.DbNotOpened? ==> !c.unlocked && c'.leaked && client in c'.tokens)
            && (r.AuthFailed? ==> c' == c)
  {
    var c1 := Registered(VaultUnlocked(c), client);
    assert client in c1.tokens;
    assert TokensOk(c1);
  }

  /** Lock empties the token table and locks the vault exactly when no unlock has failed after
      registering its token, or the service was unlocked at all; otherwise it does nothing. */
  lemma LockKeepsOk(c: Core)
    requires CoreOk(c)
    ensures CoreOk(Lock(c)) && !Lock(c).unlocked && !Lock(c).dbOpen && !Lock(c).checking
    ensures Lock(c).tokens == map[] <==> c.unlocked || !c.leaked
    ensures !Lock(c).vaultOpen <==> c.unlocked || !c.leaked
    ensures Lock(Lock(c)) == Lock(c)
  {
    if c.unlocked {
      var c1 := CheckStopped(c);
      assert c1.cancelled == c.cancelled + {|c.born| - 1};
    }
  }

  lemma InitialOk()
    ensures CoreOk(INITIAL)
  {
  }

  // ---------- authorization ----------

  datatype AuthResult = Allowed | Missing | Invalid | NoContext

  /** checkToken: the token is one of the table's. */
  predicate TokenKnown(tokens: map<string, nat>, token: nat) {
    exists k :: k in tokens && tokens[k] == token
  }

  /** After a client registered, its new token is known and its former one is not; every other
      token is known exactly if it was. */
  lemma RegisteredTokens(c: Core, client: string, token: nat)
    requires TokensOk(c)
    ensures TokenKnown(Registered(c, client).tokens, token) <==>
              || token == c.nextToken
              || (TokenKnown(c.tokens, token) && !(client in c.tokens && c.tokens[client] == token))
  {
    var tokens := Registered(c, client).tokens;
    assert client in tokens && tokens[client] == c.nextToken;
    if k :| k in c.tokens && c.tokens[k] == token && k != client {
      assert k in tokens && tokens[k] == token;
    }
  }

  /** After stopCheck of a running checker, every checker that was ever started is cancelled. */
  lemma StoppedCheckers(c: Core, g: nat)
    requires CheckersOk(c) && c.checking
    ensures g in CheckStopped(c).cancelled <==> g < |c.born|
  {
    assert g in c.cancelled <==> 0 <= g < |c.born| - 1;
  }

  /** authorize: methods on the allow list need nothing; otherwise the first authorization
      value of the request must be a known token. */
  function Authorize(c: Core, allowlist: set<string>, name: string, md: Option<seq<nat>>): AuthResult {
    if name in allowlist then Allowed
    else match md
      case None => NoContext
      case Some(values) =>
        if values == [] then Missing
        else if TokenKnown(c.tokens, values[0]) then Allowed
        else Invalid
  }

  /** Outside the allow list exactly the newest tokens of clients that unlocked since the last
      effective lock are accepted, and each belongs to one client. */
  lemma AuthorizedTokens(c: Core, allowlist: set<string>, name: string, md: Option<seq<nat>>)
    requires TokensOk(c) && name !in allowlist
    ensures Authorize(c, allowlist, name, md) == Allowed <==>
              md.Some? && md.value != [] && exists k :: k in c.tokens && c.newest[k] == md.value[0]
    ensures Authorize(c, allowlist, name, md) == Allowed ==> c.mark <= md.value[0] < c.nextToken
  {
  }
}
