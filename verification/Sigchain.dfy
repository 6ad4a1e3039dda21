/**
 Sigchains: statements linked by the hash of their predecessor (fields of Statement in
 service/rpc.pb.go; the checks of keys.Sigchain as push.go, update.go and the server use
 them).  The hash is taken to be injective: it is modelled by the statement itself.
 */
module Sigchain {
  datatype Digest = NoPrev | HashOf(st: Statement)

  datatype Statement = Statement(kid: nat, seqno: int, prev: Digest, data: string, revoke: int, time: int)

  function LastDigest(chain: seq<Statement>): Digest {
    if chain == [] then NoPrev else HashOf(chain[|chain| - 1])
  }

  /** What Sigchain.Add and VerifyStatement accept: the next number and the right link. */
  predicate Extends(kid: nat, chain: seq<Statement>, st: Statement) {
    st.kid == kid && st.seqno == |chain| + 1 && st.prev == LastDigest(chain)
  }

  predicate LinkAt(kid: nat, chain: seq<Statement>, i: nat)
    requires i < |chain|
  {
    Extends(kid, chain[..i], chain[i])
  }

  predicate Chain(kid: nat, chain: seq<Statement>) {
    forall i :: 0 <= i < |chain| ==> LinkAt(kid, chain, i)
  }

  /** The statement NewSigchainStatement and Revoke make for a chain. */
  function NewStatement(kid: nat, chain: seq<Statement>, data: string, revoke: int, time: int): (st: Statement)
    ensures Extends(kid, chain, st)
  {
    Statement(kid, |chain| + 1, LastDigest(chain), data, revoke, time)
  }

  /** What a chain is, statement by statement: all of one key, numbered from 1, each carrying the
      hash of the one before it. */
  lemma ChainMeans(kid: nat, chain: seq<Statement>)
    ensures Chain(kid, chain) <==>
              && (forall i :: 0 <= i < |chain| ==> chain[i].kid == kid && chain[i].seqno == i + 1)
              && (forall i :: 0 < i < |chain| ==> chain[i].prev == HashOf(chain[i - 1]))
              && (chain != [] ==> chain[0].prev == NoPrev)
  {
    if Chain(kid, chain) {
      forall i | 0 <= i < |chain|
        ensures chain[i].kid == kid && chain[i].seqno == i + 1
      {
        assert LinkAt(kid, chain, i);
      }
      forall i | 0 < i < |chain|
        ensures chain[i].prev == HashOf(chain[i - 1])
      {
        assert LinkAt(kid, chain, i);
        assert chain[..i][i - 1] == chain[i - 1];
      }
      assert chain != [] ==> LinkAt(kid, chain, 0);
    }
    if && (forall i :: 0 <= i < |chain| ==> chain[i].kid == kid && chain[i].seqno == i + 1)
       && (forall i :: 0 < i < |chain| ==> chain[i].prev == HashOf(chain[i - 1]))
       && (chain != [] ==> chain[0].prev == NoPrev) {
      forall i | 0 <= i < |chain|
        ensures LinkAt(kid, chain, i)
      {
        assert i > 0 ==> chain[..i][i - 1] == chain[i - 1];
      }
    }
  }

  lemma ChainAppend(kid: nat, chain: seq<Statement>, st: Statement)
    requires Chain(kid, chain) && Extends(kid, chain, st)
    ensures Chain(kid, chain + [st])
  {
    var c := chain + [st];
    forall i | 0 <= i < |c|
      ensures LinkAt(kid, c, i)
    {
      assert i < |chain| ==> LinkAt(kid, chain, i) && c[..i] == chain[..i];
      assert c[..|chain|] == chain;
    }
  }

  /** One common statement forces everything before it to be common: the statement at
      position i of a chain determines the whole chain up to i. */
  lemma {:induction false} StatementFixesPast(kid: nat, a: seq<Statement>, b: seq<Statement>, i: nat)
    requires Chain(kid, a) && Chain(kid, b) && i < |a| && i < |b| && a[i] == b[i]
    ensures a[..i + 1] == b[..i + 1]
  {
    assert LinkAt(kid, a, i) && LinkAt(kid, b, i);
    if i > 0 {
      assert a[..i][i - 1] == a[i - 1] && b[..i][i - 1] == b[i - 1];
      StatementFixesPast(kid, a, b, i - 1);
    }
    assert a[..i + 1] == a[..i] + [a[i]] && b[..i + 1] == b[..i] + [b[i]];
  }

  /** Two chains that differ somewhere never agree again. */
  lemma NoRejoining(kid: nat, a: seq<Statement>, b: seq<Statement>, i: nat, j: nat)
    requires Chain(kid, a) && Chain(kid, b) && i <= j < |a| && j < |b| && a[i] != b[i]
    ensures a[j] != b[j]
  {
    if a[j] == b[j] {
      SameBefore(kid, a, b, i, j);
    }
  }

  lemma SameBefore(kid: nat, a: seq<Statement>, b: seq<Statement>, i: nat, j: nat)
    requires Chain(kid, a) && Chain(kid, b) && i <= j < |a| && j < |b| && a[j] == b[j]
    ensures a[i] == b[i]
  {
    StatementFixesPast(kid, a, b, j);
    assert a[..j + 1][i] == b[..j + 1][i];
  }

  /** A statement that ends chain sc can extend only sc without it. */
  lemma OnlyExtends(kid: nat, sc: seq<Statement>, chain: seq<Statement>)
    requires sc != [] && Chain(kid, sc) && Chain(kid, chain) && Extends(kid, chain, sc[|sc| - 1])
    ensures chain == sc[..|sc| - 1]
  {
    ChainAppend(kid, chain, sc[|sc| - 1]);
    var n := |sc| - 1;
    assert LinkAt(kid, sc, n);
    StatementFixesPast(kid, sc, chain + [sc[n]], n);
    assert (chain + [sc[n]])[..n] == chain;
    assert sc[..n + 1][..n] == sc[..n];
    assert (chain + [sc[n]])[..n + 1][..n] == chain;
  }

  /** a is a prefix of b. */
  ghost predicate PrefixOf(a: seq<Statement>, b: seq<Statement>) {
    |a| <= |b| && forall i :: 0 <= i < |a| ==> a[i] == b[i]
  }

  /** No mismatch in the common prefix. */
  predicate Agree(a: seq<Statement>, b: seq<Statement>) {
    forall i :: 0 <= i < |a| && i < |b| ==> a[i] == b[i]
  }

  lemma SlicesArePrefix(a: seq<Statement>, b: seq<Statement>, n: nat)
    requires n <= |a| && n <= |b| && a[..n] == b[..n]
    ensures PrefixOf(a[..n], b)
  {
    forall i | 0 <= i < n
      ensures a[..n][i] == b[i]
    {
      assert b[..n][i] == b[i];
    }
  }
}
