/** The list of keys: filtering and sorting (service/keys.go). */
module KeyList {
  import opened Wrappers
  import opened Bytes

  datatype User = User(id: Key, name: Key)

  datatype PublicKey = PublicKey(id: Key, typ: int, user: Option<User>)

  /** Unknown: any other string in the request. */
  datatype Field = ByType | ByUser | ByKid | Unknown

  datatype Error = NotConverted(i: nat) | InvalidField

  /** A stored key: its type name, and the key to show, or None where converting it fails. */
  datatype Stored = Stored(typ: string, shown: Option<PublicKey>)

  // ---------- the comparison ----------

  /** The comparison handed to the sort: ascending it uses "at most", descending "greater". */
  predicate KeysSort(x: PublicKey, y: PublicKey, field: Field, desc: bool)
    decreases if field == ByType then 2 else if field == ByUser then 1 else 0
  {
    if field == ByType then
      if x.typ == y.typ then KeysSort(x, y, ByUser, desc)
      else if desc then x.typ < y.typ
      else x.typ > y.typ
    else if field == ByUser then
      if x.user.None? && y.user.None? then KeysSort(x, y, ByKid, desc)
      else if x.user.None? then false
      else if y.user.None? then true
      else if desc then Less(y.user.value.name, x.user.value.name)
      else Leq(x.user.value.name, y.user.value.name)
    else if desc then Less(y.id, x.id)
    else Leq(x.id, y.id)
  }

  /** The order meant: names and ids one way or the other, keys without a user always last. */
  predicate NameOrder(x: Key, y: Key, desc: bool) {
    if desc then Leq(y, x) else Leq(x, y)
  }

  predicate UserOrder(x: PublicKey, y: PublicKey, desc: bool) {
    match (x.user, y.user)
    case (None, None) => NameOrder(x.id, y.id, desc)
    case (None, Some(_)) => false
    case (Some(_), None) => true
    case (Some(u), Some(v)) => NameOrder(u.name, v.name, desc)
  }

  predicate InOrder(x: PublicKey, y: PublicKey, field: Field, desc: bool) {
    if field == ByType then
      (if x.typ == y.typ then UserOrder(x, y, desc) else (x.typ < y.typ) == desc)
    else if field == ByUser then UserOrder(x, y, desc)
    else NameOrder(x.id, y.id, desc)
  }

  lemma LessIsNotGeq(x: Key, y: Key)
    ensures Less(x, y) <==> !Leq(y, x)
  {
    LeqTotal(x, y);
    if Leq(x, y) && Leq(y, x) {
      LeqAntisymmetric(x, y);
    }
  }

  /** Ascending the comparison is the order itself, descending it is the strict part of the
      order, for every field and whether or not the keys have users. */
  lemma SortIsOrder(x: PublicKey, y: PublicKey, field: Field, desc: bool)
    ensures KeysSort(x, y, field, desc) <==> if desc then !InOrder(y, x, field, desc) else InOrder(x, y, field, desc)
  {
    LessIsNotGeq(y.id, x.id);
    if x.user.Some? && y.user.Some? {
      LessIsNotGeq(y.user.value.name, x.user.value.name);
    }
  }

  lemma NameTotal(x: Key, y: Key, desc: bool)
    ensures NameOrder(x, y, desc) || NameOrder(y, x, desc)
  {
    LeqTotal(x, y);
  }

  lemma NameTransitive(x: Key, y: Key, z: Key, desc: bool)
    requires NameOrder(x, y, desc) && NameOrder(y, z, desc)
    ensures NameOrder(x, z, desc)
  {
    if desc {
      LeqTransitive(z, y, x);
    } else {
      LeqTransitive(x, y, z);
    }
  }

  lemma OrderTotal(x: PublicKey, y: PublicKey, field: Field, desc: bool)
    ensures InOrder(x, y, field, desc) || InOrder(y, x, field, desc)
  {
    NameTotal(x.id, y.id, desc);
    if x.user.Some? && y.user.Some? {
      NameTotal(x.user.value.name, y.user.value.name, desc);
    }
  }

  lemma UserTransitive(x: PublicKey, y: PublicKey, z: PublicKey, desc: bool)
    requires UserOrder(x, y, desc) && UserOrder(y, z, desc)
    ensures UserOrder(x, z, desc)
  {
    if x.user.Some? && y.user.Some? && z.user.Some? {
      NameTransitive(x.user.value.name, y.user.value.name, z.user.value.name, desc);
    }
    if x.user.None? && y.user.None? && z.user.None? {
      NameTransitive(x.id, y.id, z.id, desc);
    }
  }

  lemma OrderTransitive(x: PublicKey, y: PublicKey, z: PublicKey, field: Field, desc: bool)
    requires InOrder(x, y, field, desc) && InOrder(y, z, field, desc)
    ensures InOrder(x, z, field, desc)
  {
    if field == ByType {
      if x.typ == y.typ == z.typ {
        UserTransitive(x, y, z, desc);
      }
    } else if field == ByUser {
      UserTransitive(x, y, z, desc);
    } else {
      NameTransitive(x.id, y.id, z.id, desc);
    }
  }

  /** Ascending: reflexive, total and transitive; its negation is transitive too. */
  lemma AscendingIsPreorder(x: PublicKey, y: PublicKey, z: PublicKey, field: Field)
    ensures KeysSort(x, x, field, false)
    ensures KeysSort(x, y, field, false) || KeysSort(y, x, field, false)
    ensures KeysSort(x, y, field, false) && KeysSort(y, z, field, false) ==> KeysSort(x, z, field, false)
    ensures !KeysSort(x, y, field, false) && !KeysSort(y, z, field, false) ==> !KeysSort(x, z, field, false)
  {
    SortIsOrder(x, x, field, false);
    SortIsOrder(x, y, field, false);
    SortIsOrder(y, x, field, false);
    SortIsOrder(y, z, field, false);
    SortIsOrder(x, z, field, false);
    OrderTotal(x, x, field, false);
    OrderTotal(x, y, field, false);
    if InOrder(x, y, field, false) && InOrder(y, z, field, false) {
      OrderTransitive(x, y, z, field, false);
    }
    OrderTotal(y, z, field, false);
    if InOrder(x, z, field, false) && InOrder(z, y, field, false) {
      OrderTransitive(x, z, y, field, false);
    }
  }

  /** Descending: a strict weak order, that is, irreflexive, transitive, and what is before
      z or behind x tells x from z. */
  lemma DescendingIsStrictWeak(x: PublicKey, y: PublicKey, z: PublicKey, field: Field)
    ensures !KeysSort(x, x, field, true)
    ensures KeysSort(x, y, field, true) && KeysSort(y, z, field, true) ==> KeysSort(x, z, field, true)
    ensures KeysSort(x, z, field, true) ==> KeysSort(x, y, field, true) || KeysSort(y, z, field, true)
  {
    SortIsOrder(x, x, field, true);
    SortIsOrder(x, y, field, true);
    SortIsOrder(y, z, field, true);
    SortIsOrder(x, z, field, true);
    OrderTotal(x, x, field, true);
    OrderTotal(y, z, field, true);
    if InOrder(z, y, field, true) && InOrder(y, x, field, true) {
      OrderTransitive(z, y, x, field, true);
    }
    if InOrder(z, x, field, true) && InOrder(y, z, field, true) {
      OrderTransitive(y, z, x, field, true);
    }
  }

  // ---------- sorting ----------

  ghost predicate Ordered(s: seq<PublicKey>, field: Field, desc: bool) {
    forall i, j :: 0 <= i < j < |s| ==> InOrder(s[i], s[j], field, desc)
  }

  /** A list is ordered as a whole if and only if no two neighbours are the wrong way round by
      this comparison. */
  lemma {:induction false} NeighboursSuffice(s: seq<PublicKey>, field: Field, desc: bool)
    ensures Ordered(s, field, desc) <==>
              forall i :: 0 < i < |s| ==>
                    || KeysSort(s[i - 1], s[i], field, desc)
                    || !KeysSort(s[i], s[i - 1], field, desc)
  {
    forall i | 0 < i < |s|
      ensures KeysSort(s[i - 1], s[i], field, desc) || !KeysSort(s[i], s[i - 1], field, desc) <==>
                InOrder(s[i - 1], s[i], field, desc)
    {
      SortIsOrder(s[i - 1], s[i], field, desc);
      SortIsOrder(s[i], s[i - 1], field, desc);
      OrderTotal(s[i - 1], s[i], field, desc);
    }
    if forall i :: 0 < i < |s| ==> InOrder(s[i - 1], s[i], field, desc) {
      forall i, j | 0 <= i < j < |s|
        ensures InOrder(s[i], s[j], field, desc)
      {
        ChainOrder(s, i, j, field, desc);
      }
    }
  }

  lemma {:induction false} ChainOrder(s: seq<PublicKey>, i: nat, j: nat, field: Field, desc: bool)
    requires i < j < |s| && forall k :: 0 < k < |s| ==> InOrder(s[k - 1], s[k], field, desc)
    ensures InOrder(s[i], s[j], field, desc)
  {
    assert InOrder(s[j - 1], s[j], field, desc);
    if i < j - 1 {
      ChainOrder(s, i, j - 1, field, desc);
      OrderTransitive(s[i], s[j - 1], s[j], field, desc);
    }
  }

  /** Among the first i + 1 keys only the one at j may be out of place, and only towards those
      in front of it. */
  ghost predicate Inserting(s: seq<PublicKey>, i: nat, j: nat, field: Field, desc: bool) {
    j <= i < |s| && forall p, q :: 0 <= p < q <= i && q != j ==> InOrder(s[p], s[q], field, desc)
  }

  function Swapped(s: seq<PublicKey>, j: nat): seq<PublicKey>
    requires 0 < j < |s|
  {
    s[j - 1 := s[j]][j := s[j - 1]]
  }

  lemma SwapPermutes(s: seq<PublicKey>, j: nat)
    requires 0 < j < |s|
    ensures multiset(Swapped(s, j)) == multiset(s)
  {
    var t := Swapped(s, j);
    assert s == s[..j - 1] + [s[j - 1]] + [s[j]] + s[j + 1..];
    assert t == s[..j - 1] + [s[j]] + [s[j - 1]] + s[j + 1..];
  }

  lemma InsertStart(s: seq<PublicKey>, i: nat, field: Field, desc: bool)
    requires i < |s| && Ordered(s[..i], field, desc)
    ensures Inserting(s, i, i, field, desc)
  {
    assert forall p :: 0 <= p < i ==> s[..i][p] == s[p];
  }

  lemma InsertStep(s: seq<PublicKey>, i: nat, j: nat, field: Field, desc: bool)
    requires Inserting(s, i, j, field, desc) && j > 0 && KeysSort(s[j], s[j - 1], field, desc)
    ensures Inserting(Swapped(s, j), i, j - 1, field, desc)
  {
    SortIsOrder(s[j], s[j - 1], field, desc);
    OrderTotal(s[j], s[j - 1], field, desc);
  }

  lemma InsertDone(s: seq<PublicKey>, i: nat, j: nat, field: Field, desc: bool)
    requires Inserting(s, i, j, field, desc) && (j > 0 ==> !KeysSort(s[j], s[j - 1], field, desc))
    ensures Ordered(s[..i + 1], field, desc)
  {
    if j > 0 {
      SortIsOrder(s[j], s[j - 1], field, desc);
      OrderTotal(s[j - 1], s[j], field, desc);
      forall p | 0 <= p < j
        ensures InOrder(s[p], s[j], field, desc)
      {
        if p < j - 1 {
          OrderTransitive(s[p], s[j - 1], s[j], field, desc);
        }
      }
    }
  }

  /** The library's sort for short lists: insertion by neighbouring swaps. */
  method Sort(a: array<PublicKey>, field: Field, desc: bool)
    modifies a
    ensures Ordered(a[..], field, desc)
    ensures multiset(a[..]) == multiset(old(a[..]))
  {
    for i := 0 to a.Length
      invariant Ordered(a[..i], field, desc)
      invariant multiset(a[..]) == multiset(old(a[..]))
    {
      var j := i;
      assert a[..][..i] == a[..i];
      InsertStart(a[..], i, field, desc);
      while j > 0 && KeysSort(a[j], a[j - 1], field, desc)
        invariant Inserting(a[..], i, j, field, desc)
        invariant multiset(a[..]) == multiset(old(a[..]))
      {
        ghost var s := a[..];
        InsertStep(s, i, j, field, desc);
        SwapPermutes(s, j);
        a[j - 1], a[j] := a[j], a[j - 1];
        assert a[..] == Swapped(s, j);
        j := j - 1;
      }
      InsertDone(a[..], i, j, field, desc);
      assert a[..][..i + 1] == a[..i + 1];
    }
    assert a[..a.Length] == a[..];
  }

  method Sorted(keys: seq<PublicKey>, field: Field, desc: bool) returns (out: seq<PublicKey>)
    ensures Ordered(out, field, desc) && multiset(out) == multiset(keys)
  {
    var a := new PublicKey[|keys|](i requires 0 <= i < |keys| => keys[i]);
    assert a[..] == keys;
    Sort(a, field, desc);
    out := a[..];
  }

  // ---------- filtering ----------

  predicate Matches(k: PublicKey, query: Key) {
    query == [] || (k.user.Some? && HasPrefix(k.user.value.id, query)) || HasPrefix(k.id, query)
  }

  predicate HasType(k: Stored, types: seq<string>) {
    |types| == 0 || k.typ in types
  }

  /** What one stored key adds to the list. */
  function Shown(k: Stored, query: Key, types: seq<string>): seq<PublicKey> {
    if HasType(k, types) && k.shown.Some? && Matches(k.shown.value, query) then [k.shown.value] else []
  }

  /** The keys to show, in the order they are stored. */
  function Kept(ks: seq<Stored>, query: Key, types: seq<string>): seq<PublicKey> {
    if ks == [] then [] else Kept(ks[..|ks| - 1], query, types) + Shown(ks[|ks| - 1], query, types)
  }

  lemma KeptStep(ks: seq<Stored>, query: Key, types: seq<string>, i: nat)
    requires i < |ks|
    ensures Kept(ks[..i + 1], query, types) == Kept(ks[..i], query, types) + Shown(ks[i], query, types)
  {
    assert ks[..i + 1][..i] == ks[..i];
  }

  /** Where the keys that show as k are stored. */
  ghost function Places(ks: seq<Stored>, query: Key, types: seq<string>, k: PublicKey): (s: set<nat>)
    ensures forall i :: i in s <==>
              && 0 <= i < |ks| && ks[i].shown == Some(k) && (types == [] || ks[i].typ in types)
              && (query == [] || query <= k.id || (k.user.Some? && query <= k.user.value.id))
  {
    set i: nat | i < |ks| && ks[i].shown == Some(k) && (types == [] || ks[i].typ in types)
                 && (query == [] || query <= k.id || (k.user.Some? && query <= k.user.value.id))
  }

  lemma PlacesStep(ks: seq<Stored>, query: Key, types: seq<string>, k: PublicKey)
    requires ks != []
    ensures var n := |ks| - 1;
            && n !in Places(ks[..n], query, types, k)
            && Places(ks, query, types, k) ==
                 Places(ks[..n], query, types, k) + (if Shown(ks[n], query, types) == [k] then {n} else {})
  {
    var n := |ks| - 1;
    assert k.user.Some? ==> (HasPrefix(k.user.value.id, query) <==> query <= k.user.value.id);
    assert HasPrefix(k.id, query) <==> query <= k.id;
    assert n in Places(ks, query, types, k) <==> Shown(ks[n], query, types) == [k];
    forall i: nat
      ensures i in Places(ks, query, types, k) <==>
                i in Places(ks[..n], query, types, k) || (i == n && Shown(ks[n], query, types) == [k])
    {
      assert i < n ==> ks[..n][i] == ks[i];
    }
  }

  lemma {:induction false} KeptCount(ks: seq<Stored>, query: Key, types: seq<string>, k: PublicKey)
    ensures multiset(Kept(ks, query, types))[k] == |Places(ks, query, types, k)|
  {
    if ks == [] {
      assert Places(ks, query, types, k) == {};
    } else {
      hide Places;
      hide Shown;
      var n := |ks| - 1;
      KeptCount(ks[..n], query, types, k);
      PlacesStep(ks, query, types, k);
      OneShown(ks[n], query, types, k);
    }
  }

  lemma OneShown(stored: Stored, query: Key, types: seq<string>, k: PublicKey)
    ensures multiset(Shown(stored, query, types))[k] == if Shown(stored, query, types) == [k] then 1 else 0
  {
  }

  predicate Fails(k: Stored, types: seq<string>) {
    HasType(k, types) && k.shown.None?
  }

  /** The first key that cannot be shown, if any. */
  ghost predicate FirstFailure(ks: seq<Stored>, types: seq<string>, i: nat) {
    i < |ks| && Fails(ks[i], types) && forall j :: 0 <= j < i ==> !Fails(ks[j], types)
  }

  ghost predicate NoneFails(ks: seq<Stored>, types: seq<string>) {
    forall i :: 0 <= i < |ks| ==> !Fails(ks[i], types)
  }

  lemma KeptCounts(ks: seq<Stored>, query: Key, types: seq<string>, out: seq<PublicKey>)
    requires multiset(out) == multiset(Kept(ks, query, types))
    ensures forall k ::
              multiset(out)[k] == |(set i: nat |
                && i < |ks| && ks[i].shown == Some(k) && (types == [] || ks[i].typ in types)
                && (query == [] || query <= k.id || (k.user.Some? && query <= k.user.value.id)))|
    ensures forall k :: k in out <==>
              && (exists i :: 0 <= i < |ks| && ks[i].shown == Some(k) && (types == [] || ks[i].typ in types))
              && (query == [] || query <= k.id || (k.user.Some? && query <= k.user.value.id))
  {
    forall k
      ensures multiset(out)[k] == |Places(ks, query, types, k)|
    {
      KeptCount(ks, query, types, k);
    }
    forall k
      ensures k in out <==> Places(ks, query, types, k) != {}
    {
      assert k in out <==> multiset(out)[k] > 0;
      assert Places(ks, query, types, k) != {} <==> |Places(ks, query, types, k)| > 0;
    }
  }

  method FilterKeys(ks: seq<Stored>, query: Key, types: seq<string>, field: Field, desc: bool)
    returns (r: Result<seq<PublicKey>, Error>)
    ensures r.Ok? <==>
              && field != Unknown
              && forall i :: 0 <= i < |ks| && (types == [] || ks[i].typ in types) ==> ks[i].shown.Some?
    ensures r.Ok? ==> Ordered(r.value, field, desc) && multiset(r.value) == multiset(Kept(ks, query, types))
    ensures r.Ok? ==> forall k :: k in r.value <==>
              && (exists i :: 0 <= i < |ks| && ks[i].shown == Some(k) && (types == [] || ks[i].typ in types))
              && (query == [] || query <= k.id || (k.user.Some? && query <= k.user.value.id))
    ensures r.Ok? ==> forall k ::
              multiset(r.value)[k] == |(set i: nat |
                && i < |ks| && ks[i].shown == Some(k) && (types == [] || ks[i].typ in types)
                && (query == [] || query <= k.id || (k.user.Some? && query <= k.user.value.id)))|
    ensures r.Ok? && field == ByKid ==> forall i, j :: 0 <= i < j < |r.value| ==>
              if desc then Leq(r.value[j].id, r.value[i].id) else Leq(r.value[i].id, r.value[j].id)
    ensures r.Ok? && field == ByType ==> forall i, j :: 0 <= i < j < |r.value| ==>
              if desc then r.value[i].typ <= r.value[j].typ else r.value[j].typ <= r.value[i].typ
    ensures r.Ok? && field in {ByUser, ByType} ==> forall i, j :: 0 <= i < j < |r.value| ==>
              var x, y := r.value[i], r.value[j];
              || (field == ByType && x.typ != y.typ)
              || (match (x.user, y.user)
                  case (Some(u), Some(v)) => if desc then Leq(v.name, u.name) else Leq(u.name, v.name)
                  case (None, None) => if desc then Leq(y.id, x.id) else Leq(x.id, y.id)
                  case (_, v) => v.None?)
    ensures r.Err? && r.error.NotConverted? ==>
              var i := r.error.i;
              && i < |ks| && (types == [] || ks[i].typ in types) && ks[i].shown.None?
              && forall j :: 0 <= j < i && (types == [] || ks[j].typ in types) ==> ks[j].shown.Some?
    ensures r == Err(InvalidField) ==>
              && field == Unknown
              && forall i :: 0 <= i < |ks| && (types == [] || ks[i].typ in types) ==> ks[i].shown.Some?
  {
    var kept := Filter(ks, query, types);
    if kept.Err? {
      assert Fails(ks[kept.error], types);
      return Err(NotConverted(kept.error));
    }
    if field == Unknown {
      return Err(InvalidField);
    }
    var keys := Sorted(kept.value, field, desc);
    KeptCounts(ks, query, types, keys);
    return Ok(keys);
  }

  method Filter(ks: seq<Stored>, query: Key, types: seq<string>) returns (r: Result<seq<PublicKey>, nat>)
    ensures r.Ok? ==> r.value == Kept(ks, query, types) && NoneFails(ks, types)
    ensures r.Err? ==> FirstFailure(ks, types, r.error)
  {
    var keys: seq<PublicKey> := [];
    for i := 0 to |ks|
      invariant keys == Kept(ks[..i], query, types)
      invariant forall j :: 0 <= j < i ==> !Fails(ks[j], types)
    {
      KeptStep(ks, query, types, i);
      if HasType(ks[i], types) {
        if ks[i].shown.None? {
          return Err(i);
        }
        var key := ks[i].shown.value;
        if Matches(key, query) {
          keys := keys + [key];
        }
      }
    }
    assert ks[..|ks|] == ks;
    return Ok(keys);
  }
}
