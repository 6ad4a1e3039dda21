/**
 One device's calls on the sigchain of one key as code: create, revoke and user-add
 (service/sigchain.go, service/user.go), push (service/push.go), and the update that
 replaces the local chain (service/update.go).

 The network is a parameter, and what a call leaves on both sides and reports is the function
 of it that `SigchainCalls` defines.
 */
module Push {
  import opened Wrappers
  import opened Sigchain
  import opened SigchainCalls

  function ErrorOf<T>(r: Result<T, Error>): Option<Error> {
    if r.Err? then Some(r.error) else None
  }

  function Url(st: Statement): (nat, int) {
    (st.kid, st.seqno)
  }

  function Urls(chain: seq<Statement>): seq<(nat, int)> {
    seq(|chain|, i requires 0 <= i < |chain| => Url(chain[i]))
  }

  /** The chain holds the statement, at its place. */
  predicate Holds(chain: seq<Statement>, st: Statement) {
    1 <= st.seqno <= |chain| && chain[st.seqno - 1] == st
  }

  class KeyServer {
    const kid: nat
    var chain: seq<Statement>

    ghost predicate Valid()
      reads this
    {
      Chain(kid, chain)
    }

    constructor (kid: nat)
      ensures Valid() && this.kid == kid && chain == []
    {
      this.kid, chain := kid, [];
    }

    /** Other devices' statements; the server takes those that extend its chain. */
    method Others(sts: seq<Statement>)
      requires Valid()
      modifies this
      ensures Valid() && PrefixOf(old(chain), chain)
      ensures chain == Accept(kid, old(chain), sts)
    {
      for i := 0 to |sts|
        invariant Valid() && PrefixOf(old(chain), chain)
        invariant chain == Accept(kid, old(chain), sts[..i])
      {
        AcceptStep(kid, old(chain), sts[..i], sts[i]);
        assert sts[..i + 1] == sts[..i] + [sts[i]];
        if Extends(kid, chain, sts[i]) {
          ChainAppend(kid, chain, sts[i]);
          chain := chain + [sts[i]];
        }
      }
      assert sts[..|sts|] == sts;
    }

    /** GET of the chain as it is when the server handles the request. */
    method Fetch(net: Net) returns (r: Option<seq<Statement>>, ghost seen: seq<Statement>)
      requires Valid()
      modifies this
      ensures Valid() && PrefixOf(old(chain), seen) && PrefixOf(seen, chain) && Chain(kid, seen)
      ensures r == if net.ending.Delivered? then Some(seen) else None
      ensures FetchRun(chain, seen) == RunFetch(kid, old(chain), net)
      ensures QuietNet(net) ==> chain == old(chain)
    {
      Others(net.before);
      seen := chain;
      r := if net.ending.Delivered? then Some(chain) else None;
      Others(net.after);
    }

    /** PUT of one statement: true when the client learns that it is stored.  It is stored when it
        extends the chain and the request is not refused, also when the reply is lost. */
    method Put(st: Statement, net: Net) returns (ok: bool)
      requires Valid()
      modifies this
      ensures Valid() && PrefixOf(old(chain), chain)
      ensures ok ==> Holds(chain, st) && !Holds(old(chain), st)
      ensures PutRun(chain, ok) == RunPut(kid, old(chain), st, net)
      ensures QuietNet(net) ==> chain == old(chain) || chain == old(chain) + [st]
      ensures QuietNet(net) ==>
                (chain == old(chain) + [st] <==>
                  && !net.ending.Refused? && st.kid == kid && st.seqno == |old(chain)| + 1
                  && st.prev == if old(chain) == [] then NoPrev else HashOf(old(chain)[|old(chain)| - 1]))
      ensures QuietNet(net) ==> (ok <==> net.ending.Delivered? && Extends(kid, old(chain), st))
    {
      Others(net.before);
      ok := false;
      if !net.ending.Refused? && Extends(kid, chain, st) {
        ChainAppend(kid, chain, st);
        chain := chain + [st];
        ok := net.ending.Delivered?;
      }
      Others(net.after);
    }
  }

  // ---------- push without other writers, as a relation ----------

  /** What one push of `mine` does to the server when nobody else writes: nothing on a
      mismatch, otherwise it appends mine[|remote|..upto] in order; a push that saved
      everything got to the end. */
  ghost predicate PushRel(mine: seq<Statement>, remote: seq<Statement>, remote': seq<Statement>, done: bool) {
    if !Agree(mine, remote) then remote' == remote && !done
    else exists upto: nat :: PushedUpTo(mine, remote, remote', upto) && (done ==> upto == |mine|)
  }

  ghost predicate PushedUpTo(mine: seq<Statement>, remote: seq<Statement>, remote': seq<Statement>, upto: nat) {
    upto <= |mine| && remote' == if upto <= |remote| then remote else mine[..upto]
  }

  lemma PushKeepsAgreement(mine: seq<Statement>, remote: seq<Statement>, remote': seq<Statement>, done: bool)
    requires PushRel(mine, remote, remote', done) && Agree(mine, remote)
    ensures Agree(mine, remote')
    ensures |remote| <= |mine| ==> PrefixOf(remote', mine)
    ensures PrefixOf(remote, remote')
    ensures done ==> PrefixOf(mine, remote')
  {
  }

  /** One push when nobody else writes, on both sides: the local chain stays, or becomes the
      remote one once that has all of it. */
  ghost predicate PushStep(mine: seq<Statement>, remote: seq<Statement>, mine': seq<Statement>, remote': seq<Statement>,
                           done: bool) {
    && PushRel(mine, remote, remote', done)
    && (mine' == mine || (mine' == remote' && PrefixOf(mine, remote')))
    && (done && mine != [] ==> mine' == remote')
  }

  /** Pushes one after the other: the local and the remote chain before and after each. */
  ghost predicate Pushes(locals: seq<seq<Statement>>, remotes: seq<seq<Statement>>, done: seq<bool>) {
    && |locals| == |remotes| == |done| + 1
    && forall k :: 0 <= k < |done| ==> PushStep(locals[k], remotes[k], locals[k + 1], remotes[k + 1], done[k])
  }

  lemma PushStepKeeps(mine: seq<Statement>, remote: seq<Statement>, mine': seq<Statement>, remote': seq<Statement>,
          done: bool)
    requires PushStep(mine, remote, mine', remote', done) && Agree(mine, remote)
    ensures Agree(mine', remote') && PrefixOf(mine, mine') && PrefixOf(remote, remote')
    ensures PrefixOf(remote, mine) ==> mine' == mine && PrefixOf(remote', mine)
    ensures done ==> PrefixOf(mine, remote')
  {
    PushKeepsAgreement(mine, remote, remote', done);
    if PrefixOf(remote, mine) && mine' == remote' {
      assert mine' == mine;
    }
  }

  /** Any number of pushes, broken off anywhere, even after the final pull saved a chain, and
      then one that succeeds.  If the first one found no mismatch none of them does; nothing
      local or remote is ever lost; a remote that started as a prefix of the local chain stays
      one and the local chain stays as it is; and at the end the remote has everything local. */
  lemma {:induction false} BrokenPushesResume(locals: seq<seq<Statement>>, remotes: seq<seq<Statement>>,
          done: seq<bool>)
    requires Pushes(locals, remotes, done) && Agree(locals[0], remotes[0])
    ensures Agree(locals[|done|], remotes[|done|])
    ensures PrefixOf(locals[0], locals[|done|]) && PrefixOf(remotes[0], remotes[|done|])
    ensures PrefixOf(remotes[0], locals[0]) ==> locals[|done|] == locals[0] && PrefixOf(remotes[|done|], locals[0])
    ensures done != [] && done[|done| - 1] ==> PrefixOf(locals[0], remotes[|done|])
    decreases |done|
  {
    var n := |done|;
    if n == 0 {
    } else {
      BrokenPushesResume(locals[..n], remotes[..n], done[..n - 1]);
      assert locals[..n][n - 1] == locals[n - 1] && remotes[..n][n - 1] == remotes[n - 1];
      PushStepKeeps(locals[n - 1], remotes[n - 1], locals[n], remotes[n], done[n - 1]);
    }
  }

  // ---------- the device ----------

  class Service {
    const server: KeyServer
    var local: seq<Statement>

    ghost predicate Valid()
      reads this, server
    {
      server.Valid() && Chain(server.kid, local)
    }

    constructor (server: KeyServer)
      requires server.Valid()
      ensures Valid() && this.server == server && local == []
    {
      this.server, local := server, [];
    }

    /** Create, revoke and user-add: the new statement is saved remotely first, then locally,
        and then the user index is updated (create has no such step: indexes is true). */
    method AddStatement(data: string, revoke: int, time: int, localOnly: bool, net: Net, saves: bool, indexes: bool)
      returns (r: Result<Statement, Error>)
      requires Valid()
      modifies this, server
      ensures Valid() && PrefixOf(old(server.chain), server.chain)
      ensures var st := NewStatement(server.kid, old(local), data, revoke, time);
              && (r.Ok? ==> r.value == st && saves && indexes)
              && local == (if r.Ok? || r.error == NotIndexed then old(local) + [st] else old(local))
              && (!localOnly && local != old(local) ==> Holds(server.chain, st))
      ensures r.Ok? ==> local != old(local) && r.value == local[|old(local)|]
      ensures local != old(local) ==>
                && |local| == |old(local)| + 1 && local[..|old(local)|] == old(local)
                && var st := local[|old(local)|];
                   && st.data == data && st.revoke == revoke && st.time == time
                   && st.kid == server.kid && st.seqno == |local|
                   && st.prev == (if old(local) == [] then NoPrev else HashOf(old(local)[|old(local)| - 1]))
                   && (!localOnly ==> |local| <= |server.chain| && server.chain[|old(local)|] == st)
      ensures r.Err? ==>
                || (r.error == NotSaved && !localOnly)
                || (r.error == LocalFailure && !saves)
                || (r.error == NotIndexed && saves && !indexes)
      ensures !localOnly && QuietNet(net) ==>
                (r == Err(NotSaved) <==> !net.ending.Delivered? || old(server.chain) != old(local))
      ensures !localOnly && local != old(local) ==> PrefixOf(local, server.chain)
      ensures !localOnly && local != old(local) && QuietNet(net) ==> server.chain == local
      ensures !localOnly && PrefixOf(old(local), old(server.chain)) ==> PrefixOf(local, server.chain)
      ensures localOnly ==> server.chain == old(server.chain)
      ensures var st := NewStatement(server.kid, old(local), data, revoke, time);
              CallRun(server.chain, local, ErrorOf(r)) ==
                RunAdd(server.kid, old(server.chain), old(local), st, localOnly, net, saves, indexes)
    {
      var st := NewStatement(server.kid, local, data, revoke, time);
      ChainAppend(server.kid, local, st);
      var chain := local + [st];
      OnlyAfter(server.kid, local, st, server.chain);
      if !localOnly {
        var ok := server.Put(st, net);
        if !ok {
          return Err(NotSaved);
        }
        HoldsAll(server.kid, chain, server.chain);
      }
      if !saves {
        return Err(LocalFailure);
      }
      local := chain;
      if !indexes {
        return Err(NotIndexed);
      }
      return Ok(st);
    }

    /** Replace the local chain by the fetched one.  All local statements are kept exactly when
        the last of them is in the fetched chain, or there is none, or nothing was fetched. */
    method UpdateUser(net: UpdateNet) returns (r: Result<bool, Error>, ghost fetched: seq<Statement>)
      requires Valid()
      modifies this, server
      ensures Valid() && PrefixOf(old(server.chain), fetched) && PrefixOf(fetched, server.chain)
      ensures QuietNet(net.fetch) ==> server.chain == fetched == old(server.chain)
      ensures local == (if (r.Ok? || r.error == NotIndexed) && fetched != [] then fetched else old(local))
      ensures r.Ok? || r.error == NotIndexed ==>
                (PrefixOf(old(local), local) <==>
                  fetched == [] || old(local) == [] || Holds(fetched, old(local)[|old(local)| - 1]))
      ensures PrefixOf(old(local), old(server.chain)) ==> PrefixOf(old(local), local)
      ensures r.Err? ==> r.error in {Unreachable, LocalFailure, NotIndexed}
      ensures r.Ok? <==> net.fetch.ending.Delivered? && (net.saves || fetched == []) && net.indexes
      ensures CallRun(server.chain, local, ErrorOf(r)) == RunUpdate(server.kid, old(server.chain), old(local), net)
    {
      var reply;
      reply, fetched := server.Fetch(net.fetch);
      KeptIff(server.kid, local, fetched);
      if reply.None? {
        return Err(Unreachable), fetched;
      }
      if reply.value != [] {
        if !Chain(server.kid, reply.value) {
          return Err(BadChain), fetched;
        }
        if !net.saves {
          return Err(LocalFailure), fetched;
        }
        local := reply.value;
      }
      if !net.indexes {
        return Err(NotIndexed), fetched;
      }
      return Ok(true), fetched;
    }

    /** Save statement i, one the server lacks; `all` is what becomes of this and the later ones. */
    method SaveStatement(sts: seq<Statement>, i: nat, rsts: seq<Statement>, nets: seq<Net>,
                         ghost start: seq<Statement>, ghost quiet: bool, ghost all: SaveRun)
      returns (ok: bool)
      requires server.Valid() && Chain(server.kid, sts) && |rsts| <= i < |sts| && (quiet ==> Quiet(nets))
      requires LoopOk(sts, start, rsts, server.chain, i, quiet)
      requires all == RunPuts(server.kid, server.chain, sts[i..], NetsFrom(nets, i - |rsts| + 1))
      modifies server
      ensures server.Valid() && PrefixOf(old(server.chain), server.chain)
      ensures ok ==> LoopOk(sts, start, rsts, server.chain, i + 1, quiet)
      ensures ok ==> all == RunPuts(server.kid, server.chain, sts[i + 1..], NetsFrom(nets, i + 1 - |rsts| + 1))
      ensures !ok ==> all == SaveRun(server.chain, Some(NotSaved))
      ensures !ok && quiet ==> Agree(sts, start) && PushRel(sts, start, server.chain, false)
    {
      hide RunPuts;
      hide Accept;
      ghost var chain := server.chain;
      var k := i - |rsts| + 1;
      QuietAt(nets, k);
      PutsStep(server.kid, chain, sts, i, nets, k);
      ok := server.Put(sts[i], NetAt(nets, k));
      if ok {
        SaveDone(server.kid, sts, start, rsts, chain, server.chain, i, quiet);
      } else {
        SaveFailed(server.kid, sts, start, rsts, chain, server.chain, i, quiet);
      }
    }

    /** Statement i: compared while the server has one, otherwise saved. */
    method PushStatement(sts: seq<Statement>, i: nat, rsts: seq<Statement>, nets: seq<Net>,
                         ghost start: seq<Statement>, ghost quiet: bool, ghost first: seq<Statement>,
                         ghost all: SaveRun)
      returns (e: Option<Error>)
      requires server.Valid() && Chain(server.kid, sts) && i < |sts| && (quiet ==> Quiet(nets))
      requires LoopOk(sts, start, rsts, server.chain, i, quiet)
      requires SavesLeft(server.kid, first, server.chain, sts, i, rsts, nets, all)
      modifies server
      ensures server.Valid() && PrefixOf(old(server.chain), server.chain)
      ensures e.None? ==>
                && LoopOk(sts, start, rsts, server.chain, i + 1, quiet)
                && SavesLeft(server.kid, first, server.chain, sts, i + 1, rsts, nets, all)
      ensures e.Some? ==> e.value in {Differ, NotSaved} && (quiet ==> PushRel(sts, start, server.chain, false))
      ensures e == Some(Differ) ==> !Agree(sts, rsts) && server.chain == first && (quiet ==> !Agree(sts, start))
      ensures e == Some(NotSaved) ==>
                Agree(sts, rsts) && all == SaveRun(server.chain, Some(NotSaved)) && (quiet ==> Agree(sts, start))
    {
      hide RunPuts;
      hide Accept;
      hide RunPut;
      ghost var chain := server.chain;
      if i < |rsts| {
        if sts[i] != rsts[i] {
          CompareDiffers(sts, start, rsts, chain, i, quiet);
          return Some(Differ);
        }
        CompareAgrees(sts, start, rsts, chain, i, quiet);
        MissingFrom(sts, rsts, i + 1);
      } else {
        var ok := SaveStatement(sts, i, rsts, nets, start, quiet, all);
        if !ok {
          return Some(NotSaved);
        }
      }
      return None;
    }

    /** The loop of push: compare the common prefix, save the rest, with nets[k] for the k-th PUT. */
    method SaveMissing(sts: seq<Statement>, rsts: seq<Statement>, nets: seq<Net>, ghost start: seq<Statement>,
                       ghost quiet: bool)
      returns (r: Result<seq<(nat, int)>, Error>)
      requires server.Valid() && Chain(server.kid, sts)
      requires quiet ==> Quiet(nets)
      requires LoopOk(sts, start, rsts, server.chain, 0, quiet)
      modifies server
      ensures server.Valid() && PrefixOf(old(server.chain), server.chain)
      ensures r.Ok? ==> r.value == Urls(sts) && LoopOk(sts, start, rsts, server.chain, |sts|, quiet)
      ensures quiet && r.Err? ==> PushRel(sts, start, server.chain, false)
      ensures quiet && r.Err? ==> (r.error == Differ <==> !Agree(sts, start))
      ensures SaveRun(server.chain, ErrorOf(r)) ==
                if Agree(sts, rsts) then RunPuts(server.kid, old(server.chain), Missing(sts, rsts), NetsFrom(nets, 1))
                else SaveRun(old(server.chain), Some(Differ))
    {
      hide RunPuts;
      hide Accept;
      hide Urls;
      hide RunPut;
      hide LinkAt;
      var urls := [];
      NoUrls(sts);
      MissingFrom(sts, rsts, 0);
      ghost var first := server.chain;
      ghost var all := RunPuts(server.kid, first, Missing(sts, rsts), NetsFrom(nets, 1));
      for i := 0 to |sts|
        invariant server.Valid() && PrefixOf(first, server.chain)
        invariant LoopOk(sts, start, rsts, server.chain, i, quiet)
        invariant urls == Urls(sts[..i])
        invariant SavesLeft(server.kid, first, server.chain, sts, i, rsts, nets, all)
      {
        var e := PushStatement(sts, i, rsts, nets, start, quiet, first, all);
        if e.Some? {
          return Err(e.value);
        }
        UrlsStep(sts, i);
        urls := urls + [Url(sts[i])];
      }
      NoPutsLeft(server.kid, server.chain, sts, rsts, nets);
      return Ok(urls);
    }

    /** The rest of a push after its first fetch. */
    method SaveAndPull(rsts: seq<Statement>, nets: seq<Net>, pull: UpdateNet, ghost start: seq<Statement>,
                       ghost quiet: bool)
      returns (r: Result<seq<(nat, int)>, Error>)
      requires Valid() && local != [] && (quiet ==> Quiet(nets))
      requires LoopOk(local, start, rsts, server.chain, 0, quiet)
      modifies this, server
      ensures Valid() && PrefixOf(old(server.chain), server.chain) && PrefixOf(old(local), local)
      ensures r.Ok? ==> r.value == Urls(old(local)) && PrefixOf(old(local), server.chain)
      ensures r.Ok? ==> PrefixOf(start, local) && PrefixOf(local, server.chain)
      ensures r.Err? && r.error != NotIndexed ==> local == old(local)
      ensures quiet && QuietNet(pull.fetch) ==> PushStep(old(local), start, local, server.chain, r.Ok?)
      ensures quiet ==> (r == Err(Differ) <==> !Agree(old(local), start))
      ensures CallRun(server.chain, local, ErrorOf(r)) ==
                RunSaves(server.kid, old(server.chain), old(local), rsts, NetsFrom(nets, 1), pull)
    {
      hide RunPuts;
      hide Accept;
      var sts := local;
      var saved := SaveMissing(sts, rsts, nets, start, quiet);
      if saved.Err? {
        return Err(saved.error);
      }
      LoopDone(sts, start, rsts, server.chain, quiet);
      var updated;
      ghost var fetched;
      updated, fetched := UpdateUser(pull);
      if updated.Err? {
        return Err(updated.error);
      }
      return saved;
    }

    /** Save the statements the server lacks, then pull.  nets[0] is the first fetch and nets[k]
        the k-th PUT.  No push, successful or not, loses a local statement; without other writers
        it succeeds whenever all its requests get through and the chains agree. */
    method Push(nets: seq<Net>, pull: UpdateNet) returns (r: Result<seq<(nat, int)>, Error>)
      requires Valid()
      modifies this, server
      ensures Valid() && PrefixOf(old(server.chain), server.chain)
      ensures PrefixOf(old(local), local)
      ensures r.Ok? ==> r.value == Urls(old(local)) && PrefixOf(old(local), server.chain)
      ensures r.Ok? ==>
                |r.value| == |old(local)| && forall i :: 0 <= i < |r.value| ==> r.value[i] == (server.kid, i + 1)
      ensures r.Ok? && old(local) != [] ==> PrefixOf(old(server.chain), local) && PrefixOf(local, server.chain)
      ensures r.Err? && r.error != NotIndexed ==> local == old(local)
      ensures Quiet(nets) && QuietNet(pull.fetch) ==>
                PushStep(old(local), old(server.chain), local, server.chain, r.Ok?)
      ensures Quiet(nets) && NetAt(nets, 0).ending.Delivered? ==>
                (r == Err(Differ) <==> !Agree(old(local), old(server.chain)))
      ensures CallRun(server.chain, local, ErrorOf(r)) ==
                RunPush(server.kid, old(server.chain), old(local), nets, pull)
      ensures Quiet(nets) && QuietNet(pull.fetch) && old(local) != [] ==>
                (r.Ok? <==>
                  && Agree(old(local), old(server.chain))
                  && Delivers(nets, |Missing(old(local), old(server.chain))| + 1)
                  && pull.fetch.ending.Delivered? && pull.saves && pull.indexes)
      ensures Quiet(nets) && QuietNet(pull.fetch) && old(local) != [] && r.Ok? ==>
                local == server.chain == if |old(server.chain)| < |old(local)| then old(local) else old(server.chain)
    {
      hide RunPuts;
      hide Accept;
      var sts := local;
      ghost var start, quiet := server.chain, Quiet(nets);
      ChainMeans(server.kid, sts);
      NothingPushed(sts, start);
      QuietAt(nets, 0);
      if Quiet(nets) && QuietNet(pull.fetch) {
        QuietPush(server.kid, start, sts, nets, pull);
      }
      if |sts| == 0 {
        return Ok([]);
      }
      var reply;
      ghost var seen;
      reply, seen := server.Fetch(NetAt(nets, 0));
      if reply.None? {
        return Err(Unreachable);
      }
      r := SaveAndPull(reply.value, nets, pull, start, quiet);
    }
  }

  /** A chain that holds the last statement of another holds all of it. */
  lemma HoldsAll(kid: nat, sts: seq<Statement>, chain: seq<Statement>)
    requires Chain(kid, sts) && Chain(kid, chain) && sts != [] && Holds(chain, sts[|sts| - 1])
    ensures PrefixOf(sts, chain)
  {
    var n := |sts| - 1;
    assert LinkAt(kid, sts, n);
    StatementFixesPast(kid, sts, chain, n);
    assert sts[..n + 1] == sts;
    SlicesArePrefix(sts, chain, n + 1);
  }

  /** The statement made for a chain extends no other chain. */
  lemma OnlyAfter(kid: nat, mine: seq<Statement>, st: Statement, chain: seq<Statement>)
    requires Chain(kid, mine) && Chain(kid, chain) && Extends(kid, mine, st)
    ensures Extends(kid, chain, st) <==> chain == mine
  {
    if Extends(kid, chain, st) {
      ChainAppend(kid, mine, st);
      OnlyExtends(kid, mine + [st], chain);
      assert (mine + [st])[..|mine + [st]| - 1] == mine;
    }
  }

  lemma KeptIff(kid: nat, sts: seq<Statement>, chain: seq<Statement>)
    requires Chain(kid, sts) && Chain(kid, chain)
    ensures PrefixOf(sts, chain) <==> sts == [] || Holds(chain, sts[|sts| - 1])
  {
    if sts != [] {
      assert LinkAt(kid, sts, |sts| - 1);
      if Holds(chain, sts[|sts| - 1]) {
        HoldsAll(kid, sts, chain);
      }
    }
  }

  lemma QuietAt(nets: seq<Net>, i: nat)
    ensures Quiet(nets) ==> QuietNet(NetAt(nets, i))
  {
  }

  lemma PutsStep(kid: nat, chain: seq<Statement>, sts: seq<Statement>, i: nat, nets: seq<Net>, k: nat)
    requires i < |sts|
    ensures var put := RunPut(kid, chain, sts[i], NetAt(nets, k));
            RunPuts(kid, chain, sts[i..], NetsFrom(nets, k)) ==
              if put.ok then RunPuts(kid, put.chain, sts[i + 1..], NetsFrom(nets, k + 1))
              else SaveRun(put.chain, Some(NotSaved))
  {
    assert sts[i..][1..] == sts[i + 1..];
    assert NetsFrom(NetsFrom(nets, k), 1) == NetsFrom(nets, k + 1) && NetAt(NetsFrom(nets, k), 0) == NetAt(nets, k);
  }

  /** Before statement i: the common prefix agrees so far, nothing is saved while there is more of
      it, and behind it the rest of the PUTs makes up `all`. */
  ghost predicate SavesLeft(kid: nat, first: seq<Statement>, chain: seq<Statement>, sts: seq<Statement>, i: nat,
                            rsts: seq<Statement>, nets: seq<Net>, all: SaveRun) {
    && i <= |sts|
    && all == RunPuts(kid, first, Missing(sts, rsts), NetsFrom(nets, 1))
    && (i <= |rsts| ==> chain == first)
    && (forall j :: 0 <= j < i && j < |rsts| ==> sts[j] == rsts[j])
    && (|rsts| <= i ==> all == RunPuts(kid, chain, sts[i..], NetsFrom(nets, i - |rsts| + 1)))
  }

  lemma MissingFrom(sts: seq<Statement>, rsts: seq<Statement>, i: nat)
    ensures i <= |sts| && |rsts| == i ==> Missing(sts, rsts) == sts[i..]
  {
  }

  lemma NoPutsLeft(kid: nat, chain: seq<Statement>, sts: seq<Statement>, rsts: seq<Statement>, nets: seq<Net>)
    ensures forall k: nat :: RunPuts(kid, chain, sts[|sts|..], NetsFrom(nets, k)) == SaveRun(chain, None)
    ensures |rsts| >= |sts| ==> RunPuts(kid, chain, Missing(sts, rsts), NetsFrom(nets, 1)) == SaveRun(chain, None)
    ensures sts[..|sts|] == sts
  {
  }

  lemma NoUrls(sts: seq<Statement>)
    ensures Urls(sts[..0]) == []
  {
  }

  lemma UrlsStep(sts: seq<Statement>, i: nat)
    requires i < |sts|
    ensures Urls(sts[..i]) + [Url(sts[i])] == Urls(sts[..i + 1])
    ensures i + 1 == |sts| ==> sts[..i + 1] == sts
  {
  }

  lemma NothingPushed(sts: seq<Statement>, start: seq<Statement>)
    ensures PushRel(sts, start, start, false)
    ensures sts == [] ==> PushRel(sts, start, start, true)
    ensures PrefixOf(start, start) && (sts == [] ==> Urls(sts) == [])
  {
    assert PushedUpTo(sts, start, start, 0);
  }

  /** The state of push's loop before statement i: everything before it is on the server, and
      with no other writers the server holds what it held plus what was missing of sts[..i]. */
  ghost predicate LoopOk(sts: seq<Statement>, start: seq<Statement>, rsts: seq<Statement>, chain: seq<Statement>,
          i: nat,
                         quiet: bool) {
    && i <= |sts|
    && PrefixOf(start, chain) && PrefixOf(rsts, chain)
    && PrefixOf(sts[..i], chain)
    && (quiet ==> rsts == start && PushedUpTo(sts, start, chain, i))
  }

  lemma CompareAgrees(sts: seq<Statement>, start: seq<Statement>, rsts: seq<Statement>, chain: seq<Statement>,
                      i: nat, quiet: bool)
    requires LoopOk(sts, start, rsts, chain, i, quiet) && i < |sts| && i < |rsts| && sts[i] == rsts[i]
    ensures LoopOk(sts, start, rsts, chain, i + 1, quiet)
  {
  }

  lemma CompareDiffers(sts: seq<Statement>, start: seq<Statement>, rsts: seq<Statement>, chain: seq<Statement>,
                       i: nat, quiet: bool)
    requires LoopOk(sts, start, rsts, chain, i, quiet) && i < |sts| && i < |rsts| && sts[i] != rsts[i]
    ensures quiet ==> !Agree(sts, start) && PushRel(sts, start, chain, false)
  {
  }

  lemma SaveDone(kid: nat, sts: seq<Statement>, start: seq<Statement>, rsts: seq<Statement>,
                 chain: seq<Statement>, chain': seq<Statement>, i: nat, quiet: bool)
    requires Chain(kid, sts) && Chain(kid, chain') && LoopOk(sts, start, rsts, chain, i, quiet) && |rsts| <= i < |sts|
    requires PrefixOf(chain, chain') && Holds(chain', sts[i])
    requires quiet ==> chain' == chain + [sts[i]]
    ensures LoopOk(sts, start, rsts, chain', i + 1, quiet)
  {
    assert LinkAt(kid, sts, i);
    if quiet {
      assert i > |start| ==> chain == sts[..i];
      assert PrefixOf(sts[..i], chain) && |chain| == i;
      assert chain == sts[..i];
      assert sts[..i + 1] == sts[..i] + [sts[i]];
    }
  }

  lemma SaveFailed(kid: nat, sts: seq<Statement>, start: seq<Statement>, rsts: seq<Statement>,
                   chain: seq<Statement>, chain': seq<Statement>, i: nat, quiet: bool)
    requires LoopOk(sts, start, rsts, chain, i, quiet) && |rsts| <= i < |sts|
    requires quiet ==> chain' == chain || chain' == chain + [sts[i]]
    ensures quiet ==> Agree(sts, start) && PushRel(sts, start, chain', false)
  {
    if quiet {
      assert forall j :: 0 <= j < |start| ==> sts[..i][j] == chain[j] == start[j];
      if chain' == chain {
        assert PushedUpTo(sts, start, chain', i);
      } else {
        assert |chain| == i ==> chain == sts[..i];
        assert sts[..i + 1] == sts[..i] + [sts[i]];
        assert PushedUpTo(sts, start, chain', i + 1);
      }
    }
  }

  lemma LoopDone(sts: seq<Statement>, start: seq<Statement>, rsts: seq<Statement>, chain: seq<Statement>, quiet: bool)
    requires LoopOk(sts, start, rsts, chain, |sts|, quiet)
    ensures PrefixOf(sts, chain) && PrefixOf(start, chain)
    ensures quiet ==> Agree(sts, start) && PushRel(sts, start, chain, false) && PushRel(sts, start, chain, true)
  {
    assert sts[..|sts|] == sts;
    if quiet {
      assert forall j :: 0 <= j < |start| && j < |sts| ==> sts[j] == chain[j] == start[j];
      assert PushedUpTo(sts, start, chain, |sts|);
    }
  }
}
