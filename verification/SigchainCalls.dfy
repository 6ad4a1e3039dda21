/**
 One device's calls on the sigchain of one key (service/sigchain.go, service/push.go,
 service/update.go), as functions of the server's chain, the local chain and the network.
 The methods of `Push` are proved equal to them.

 Every request says which statements other devices get accepted before the server handles it
 and after that, while the caller goes on, and how it ends.
 */
module SigchainCalls {
  import opened Wrappers
  import opened Sigchain

  datatype Ending = Delivered | Refused | ReplyLost

  datatype Net = Net(before: seq<Statement>, ending: Ending, after: seq<Statement>)

  /** Failure points of an update: the fetch, the local save, and indexing afterwards. */
  datatype UpdateNet = UpdateNet(fetch: Net, saves: bool, indexes: bool)

  /** NotIndexed: the call fails after it has saved the local chain. */
  datatype Error = Unreachable | Differ | NotSaved | BadChain | LocalFailure | NotIndexed

  /** No other device gets anything accepted. */
  predicate QuietNet(net: Net) {
    net.before == [] && net.after == []
  }

  ghost predicate Quiet(nets: seq<Net>) {
    forall n :: n in nets ==> QuietNet(n)
  }

  function NetAt(nets: seq<Net>, k: nat): Net {
    if k < |nets| then nets[k] else Net([], Refused, [])
  }

  function NetsFrom(nets: seq<Net>, k: nat): seq<Net> {
    if k < |nets| then nets[k..] else []
  }

  // ---------- the server ----------

  /** The chain after the server took those of `sts` that extend it. */
  function Accept(kid: nat, chain: seq<Statement>, sts: seq<Statement>): seq<Statement> {
    if sts == [] then chain
    else
      var before, st := Accept(kid, chain, sts[..|sts| - 1]), sts[|sts| - 1];
      if Extends(kid, before, st) then before + [st] else before
  }

  lemma AcceptStep(kid: nat, chain: seq<Statement>, front: seq<Statement>, st: Statement)
    ensures var before := Accept(kid, chain, front);
            Accept(kid, chain, front + [st]) == if Extends(kid, before, st) then before + [st] else before
  {
    assert (front + [st])[..|front + [st]| - 1] == front;
  }

  datatype PutRun = PutRun(chain: seq<Statement>, ok: bool)

  function RunPut(kid: nat, chain: seq<Statement>, st: Statement, net: Net): PutRun {
    var read := Accept(kid, chain, net.before);
    var stored := !net.ending.Refused? && Extends(kid, read, st);
    PutRun(Accept(kid, if stored then read + [st] else read, net.after), stored && net.ending.Delivered?)
  }

  /** `seen` is the chain when the server handles the request. */
  datatype FetchRun = FetchRun(chain: seq<Statement>, seen: seq<Statement>)

  function RunFetch(kid: nat, chain: seq<Statement>, net: Net): FetchRun {
    var seen := Accept(kid, chain, net.before);
    FetchRun(Accept(kid, seen, net.after), seen)
  }

  // ---------- the calls of a device ----------

  datatype CallRun = CallRun(chain: seq<Statement>, local: seq<Statement>, error: Option<Error>)

  function RunAdd(kid: nat, chain: seq<Statement>, mine: seq<Statement>, st: Statement, localOnly: bool, net: Net,
                  saves: bool, indexes: bool): CallRun
  {
    var put := if localOnly then PutRun(chain, true) else RunPut(kid, chain, st, net);
    if !put.ok then CallRun(put.chain, mine, Some(NotSaved))
    else if !saves then CallRun(put.chain, mine, Some(LocalFailure))
    else CallRun(put.chain, mine + [st], if indexes then None else Some(NotIndexed))
  }

  function RunUpdate(kid: nat, chain: seq<Statement>, mine: seq<Statement>, net: UpdateNet): CallRun {
    var fetch := RunFetch(kid, chain, net.fetch);
    if !net.fetch.ending.Delivered? then CallRun(fetch.chain, mine, Some(Unreachable))
    else if fetch.seen != [] && !net.saves then CallRun(fetch.chain, mine, Some(LocalFailure))
    else
      CallRun(
        fetch.chain,
        if fetch.seen == [] then mine else fetch.seen,
        if net.indexes then None else Some(NotIndexed))
  }

  datatype SaveRun = SaveRun(chain: seq<Statement>, error: Option<Error>)

  /** One PUT after the other, up to the first that is not acknowledged. */
  function RunPuts(kid: nat, chain: seq<Statement>, missing: seq<Statement>, nets: seq<Net>): SaveRun
    decreases |missing|
  {
    if missing == [] then SaveRun(chain, None)
    else
      var put := RunPut(kid, chain, missing[0], NetAt(nets, 0));
      if put.ok then RunPuts(kid, put.chain, missing[1..], NetsFrom(nets, 1)) else SaveRun(put.chain, Some(NotSaved))
  }

  function Missing(sts: seq<Statement>, rsts: seq<Statement>): seq<Statement> {
    if |rsts| <= |sts| then sts[|rsts|..] else []
  }

  /** A push that has fetched `rsts`: compare, save what is missing there, then pull. */
  function RunSaves(kid: nat, chain: seq<Statement>, mine: seq<Statement>, rsts: seq<Statement>, nets: seq<Net>,
                    pull: UpdateNet): CallRun
  {
    if !Agree(mine, rsts) then CallRun(chain, mine, Some(Differ))
    else
      var saved := RunPuts(kid, chain, Missing(mine, rsts), nets);
      if saved.error.Some? then CallRun(saved.chain, mine, saved.error)
      else RunUpdate(kid, saved.chain, mine, pull)
  }

  /** nets[0] is the first fetch, and nets[k] the k-th PUT. */
  function RunPush(kid: nat, chain: seq<Statement>, mine: seq<Statement>, nets: seq<Net>, pull: UpdateNet): CallRun {
    if mine == [] then CallRun(chain, mine, None)
    else
      var fetch := RunFetch(kid, chain, NetAt(nets, 0));
      if !NetAt(nets, 0).ending.Delivered? then CallRun(fetch.chain, mine, Some(Unreachable))
      else RunSaves(kid, fetch.chain, mine, fetch.seen, NetsFrom(nets, 1), pull)
  }

  // ---------- with no other writers ----------

  /** The first n requests are delivered. */
  ghost predicate Delivers(nets: seq<Net>, n: nat) {
    forall i :: 0 <= i < n ==> NetAt(nets, i).ending.Delivered?
  }

  lemma QuietNets(nets: seq<Net>)
    requires Quiet(nets)
    ensures QuietNet(NetAt(nets, 0)) && Quiet(NetsFrom(nets, 1))
  {
  }

  lemma DeliversRest(nets: seq<Net>, n: nat)
    ensures Delivers(nets, n + 1) <==> NetAt(nets, 0).ending.Delivered? && Delivers(NetsFrom(nets, 1), n)
  {
    var later := NetsFrom(nets, 1);
    assert forall i: nat :: NetAt(later, i) == NetAt(nets, i + 1);
    assert forall i :: 1 <= i < n + 1 ==> NetAt(nets, i) == NetAt(later, i - 1);
  }

  lemma QuietPut(kid: nat, chain: seq<Statement>, st: Statement, net: Net)
    requires QuietNet(net)
    ensures var stored := !net.ending.Refused? && Extends(kid, chain, st);
            RunPut(kid, chain, st, net) ==
              PutRun(if stored then chain + [st] else chain, stored && net.ending.Delivered?)
  {
  }

  lemma {:induction false} QuietPuts(kid: nat, chain: seq<Statement>, sts: seq<Statement>, nets: seq<Net>)
    requires Quiet(nets) && Chain(kid, sts) && |chain| <= |sts| && chain == sts[..|chain|]
    ensures var run := RunPuts(kid, chain, sts[|chain|..], nets);
            && (run.error.None? <==> Delivers(nets, |sts| - |chain|))
            && (run.error.None? ==> run.chain == sts)
    decreases |sts| - |chain|
  {
    var n := |chain|;
    if n == |sts| {
    } else {
      assert LinkAt(kid, sts, n);
      QuietNets(nets);
      DeliversRest(nets, |sts| - n - 1);
      QuietPut(kid, chain, sts[n], NetAt(nets, 0));
      assert sts[n..][1..] == sts[n + 1..] && chain + [sts[n]] == sts[..n + 1];
      if NetAt(nets, 0).ending.Delivered? {
        QuietPuts(kid, chain + [sts[n]], sts, NetsFrom(nets, 1));
      }
    }
  }

  /** Without other writers a push succeeds exactly when there is nothing to push, or every
      request it needs is delivered, the chains agree, and the pulled chain is saved and indexed.
      Then server and device both hold the longer of the two chains. */
  lemma QuietPush(kid: nat, chain: seq<Statement>, mine: seq<Statement>, nets: seq<Net>, pull: UpdateNet)
    requires Chain(kid, chain) && Chain(kid, mine) && Quiet(nets) && QuietNet(pull.fetch)
    ensures var run := RunPush(kid, chain, mine, nets, pull);
            && (run.error.None? <==>
                || mine == []
                || (&& Agree(mine, chain) && Delivers(nets, |Missing(mine, chain)| + 1)
                    && pull.fetch.ending.Delivered? && pull.saves && pull.indexes))
            && (run.error.None? && mine != [] ==>
                  run.chain == run.local == if |chain| < |mine| then mine else chain)
  {
    if mine == [] {
    } else {
      QuietNets(nets);
      DeliversRest(nets, |Missing(mine, chain)|);
      if Agree(mine, chain) && |chain| <= |mine| {
        assert chain == mine[..|chain|];
        QuietPuts(kid, chain, mine, NetsFrom(nets, 1));
      }
    }
  }
}
