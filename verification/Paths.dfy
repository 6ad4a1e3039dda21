/**
 Document paths.  dstore.Path cuts a path at its slashes, drops empty components and joins
 the rest with one slash in front of each.
 */
module Paths {
  import opened Bytes

  const SLASH: byte := 47
  const ROOT: Key := [SLASH]

  predicate IsComponent(c: Key) {
    c != [] && SLASH !in c
  }

  ghost predicate AllComponents(cs: seq<Key>) {
    forall i :: 0 <= i < |cs| ==> IsComponent(cs[i])
  }

  /** Cut p at its slashes; acc is the component being read. */
  function Split(p: Key, acc: Key): (cs: seq<Key>)
    requires SLASH !in acc
    ensures AllComponents(cs)
    decreases |p|
  {
    if p == [] then (if acc == [] then [] else [acc])
    else if p[0] == SLASH then (if acc == [] then [] else [acc]) + Split(p[1..], [])
    else Split(p[1..], acc + [p[0]])
  }

  function Components(p: Key): (cs: seq<Key>)
    ensures AllComponents(cs)
  {
    Split(p, [])
  }

  /** Every component with a slash in front. */
  function Slashed(cs: seq<Key>): Key {
    if cs == [] then [] else [SLASH] + cs[0] + Slashed(cs[1..])
  }

  function Join(cs: seq<Key>): Key {
    if cs == [] then ROOT else Slashed(cs)
  }

  /** dstore.Path of one argument. */
  function Path(p: Key): Key {
    Join(Components(p))
  }

  /** dstore.Path of two arguments. */
  function Path2(parent: Key, name: Key): Key {
    Join(Components(parent) + Components(name))
  }

  predicate Normal(p: Key) {
    p == Path(p)
  }

  lemma {:induction false} SplitComponent(c: Key, r: Key, acc: Key)
    requires SLASH !in c && SLASH !in acc
    ensures Split(c + r, acc) == Split(r, acc + c)
    decreases |c|
  {
    if c == [] {
      assert c + r == r && acc + c == acc;
    } else {
      assert (c + r)[1..] == c[1..] + r;
      SplitComponent(c[1..], r, acc + [c[0]]);
      assert acc + [c[0]] + c[1..] == acc + c;
    }
  }

  lemma {:induction false} SplitSlashed(cs: seq<Key>, r: Key)
    requires AllComponents(cs) && (r == [] || r[0] == SLASH)
    ensures Split(Slashed(cs) + r, []) == cs + Split(r, [])
    decreases |cs|
  {
    if cs == [] {
      assert Slashed(cs) + r == r;
    } else {
      var c, rest := cs[0], Slashed(cs[1..]) + r;
      SplitSlashed(cs[1..], r);
      FirstComponent(c, rest);
      Regroup(c, Slashed(cs[1..]), r);
      var tail := Split(r, []);
      assert [c] + (cs[1..] + tail) == cs + tail;
    }
  }

  lemma Regroup(c: Key, a: Key, b: Key)
    ensures [SLASH] + c + a + b == [SLASH] + (c + (a + b))
  {
  }

  lemma FirstComponent(c: Key, rest: Key)
    requires IsComponent(c) && (rest == [] || rest[0] == SLASH)
    ensures Split([SLASH] + (c + rest), []) == [c] + Split(rest, [])
  {
    var none: Key := [];
    assert ([SLASH] + (c + rest))[1..] == c + rest;
    SplitComponent(c, rest, none);
    assert none + c == c;
    if rest != [] {
      EndComponent(rest, c);
    }
  }

  lemma EndComponent(rest: Key, c: Key)
    requires IsComponent(c) && rest != [] && rest[0] == SLASH
    ensures Split(rest, c) == [c] + Split(rest, [])
  {
    assert Split(rest, []) == [] + Split(rest[1..], []);
  }

  lemma {:induction false} SplitAtSlash(a: Key, b: Key, acc: Key)
    requires SLASH !in acc
    ensures Split(a + [SLASH] + b, acc) == Split(a, acc) + Split(b, [])
    decreases |a|
  {
    var p := a + [SLASH] + b;
    if a == [] {
      assert p[1..] == b;
    } else {
      assert p[1..] == a[1..] + [SLASH] + b;
      if a[0] == SLASH {
        SplitAtSlash(a[1..], b, []);
        var first := if acc == [] then [] else [acc];
        assert first + (Split(a[1..], []) + Split(b, [])) == first + Split(a[1..], []) + Split(b, []);
      } else {
        SplitAtSlash(a[1..], b, acc + [a[0]]);
      }
    }
  }

  /** What the components of any string are: none of the empty one, a string without a slash
      itself, and around a slash those of both sides. */
  lemma ComponentsAre(a: Key, b: Key)
    ensures Components([]) == []
    ensures IsComponent(a) ==> Components(a) == [a]
    ensures Components(a + [SLASH] + b) == Components(a) + Components(b)
  {
    SplitAtSlash(a, b, []);
    if IsComponent(a) {
      SplitComponent(a, [], []);
      assert a + [] == a && [] + a == a;
    }
  }

  /** Components undoes Join, so normalizing twice is normalizing once. */
  lemma ComponentsOfJoin(cs: seq<Key>)
    requires AllComponents(cs)
    ensures Components(Join(cs)) == cs
  {
    if cs == [] {
      var none: Key := [];
      assert ROOT[1..] == none && Split(none, none) == [];
      assert Split(ROOT, none) == Split(ROOT[1..], none);
    } else {
      SplitSlashed(cs, []);
      assert Slashed(cs) + [] == Slashed(cs);
      assert cs + [] == cs;
    }
  }

  lemma PathIdempotent(p: Key)
    ensures Normal(Path(p))
    ensures Components(Path(p)) == Components(p)
    ensures Path(p) == ROOT <==> Components(p) == []
  {
    ComponentsOfJoin(Components(p));
    if Components(p) != [] {
      assert Path(p)[1] == Components(p)[0][0];
    }
  }

  lemma {:induction false} SlashedAppend(a: seq<Key>, b: seq<Key>)
    ensures Slashed(a + b) == Slashed(a) + Slashed(b)
    decreases |a|
  {
    if a == [] {
      assert a + b == b;
    } else {
      assert (a + b)[1..] == a[1..] + b;
      SlashedAppend(a[1..], b);
    }
  }

  /** k lies strictly under the path with components ps, at any depth. */
  predicate Under(k: Key, ps: seq<Key>) {
    |ps| < |Components(k)| && Components(k)[..|ps|] == ps
  }

  lemma CutPrefix(k: Key, p: Key, b: byte) returns (r: Key)
    requires HasPrefix(k, p + [b])
    ensures k == p + r && r != [] && r[0] == b
  {
    r := k[|p|..];
    assert k[..|p + [b]|][..|p|] == k[..|p|];
    assert k[..|p + [b]|][|p|] == b;
  }

  lemma PrefixMeansUnder(k: Key, ps: seq<Key>)
    requires Normal(k) && AllComponents(ps) && ps != [] && HasPrefix(k, Slashed(ps) + [SLASH])
    ensures Under(k, ps)
  {
    var r := CutPrefix(k, Slashed(ps), SLASH);
    SplitSlashed(ps, r);
    var rest := Split(r, []);
    assert Components(k) == ps + rest;
    assert (ps + rest)[..|ps|] == ps;
    assert rest == [] ==> ps + rest == ps;
  }

  lemma UnderMeansPrefix(k: Key, ps: seq<Key>)
    requires Normal(k) && ps != [] && Under(k, ps)
    ensures HasPrefix(k, Slashed(ps) + [SLASH])
  {
    var rest := Components(k)[|ps|..];
    assert Components(k) == ps + rest;
    SlashedAppend(ps, rest);
    assert k == Slashed(ps) + Slashed(rest);
    OneMore(Slashed(ps), Slashed(rest));
  }

  lemma OneMore(a: Key, b: Key)
    requires b != []
    ensures HasPrefix(a + b, a + [b[0]])
  {
  }

  /** For a path that is not the root, the keys that start with the path and a slash are
      exactly those strictly under it: a sibling whose name merely begins like the path's last
      component does not match. */
  lemma PrefixIsUnder(k: Key, ps: seq<Key>)
    requires Normal(k) && AllComponents(ps) && ps != []
    ensures HasPrefix(k, Join(ps) + [SLASH]) <==> Under(k, ps)
  {
    if HasPrefix(k, Join(ps) + [SLASH]) {
      PrefixMeansUnder(k, ps);
    }
    if Under(k, ps) {
      UnderMeansPrefix(k, ps);
    }
  }

  lemma NameInComponent(name: Key, r: Key, c: Key, rest: seq<Key>)
    requires IsComponent(name) && AllComponents(rest) && name + r == c + Slashed(rest)
    ensures name <= c
  {
    var k := name + r;
    assert rest != [] ==> k[|c|] == SLASH;
    assert forall i :: 0 <= i < |name| ==> k[i] == name[i] && name[i] in name;
    assert |name| <= |c|;
    assert forall i :: 0 <= i < |name| ==> name[i] == k[i] == c[i];
  }

  /** A key under a path: the path, a slash, the next component, and the others. */
  lemma NextComponent(k: Key, ps: seq<Key>) returns (c: Key, rest: seq<Key>)
    requires Normal(k) && Under(k, ps)
    ensures c == Components(k)[|ps|] && AllComponents(rest)
    ensures k == Slashed(ps) + [SLASH] + (c + Slashed(rest))
  {
    var cs := Components(k);
    c, rest := cs[|ps|], cs[|ps| + 1..];
    assert cs == ps + ([c] + rest) && ([c] + rest)[1..] == rest;
    SlashedAppend(ps, [c] + rest);
    assert Slashed([c] + rest) == [SLASH] + c + Slashed(rest) == [SLASH] + (c + Slashed(rest));
    assert Slashed(ps) + ([SLASH] + (c + Slashed(rest))) == Slashed(ps) + [SLASH] + (c + Slashed(rest));
  }

  lemma PrefixBehind(k: Key, p: Key, t: Key, name: Key)
    requires k == p + t
    ensures HasPrefix(k, p + name) <==> name <= t
  {
    if HasPrefix(k, p + name) {
      assert forall i :: 0 <= i < |name| ==> name[i] == (p + name)[|p| + i] == k[..|p + name|][|p| + i] == t[i];
    }
    if name <= t {
      assert t == name + t[|name|..];
      assert k == p + name + t[|name|..];
    }
  }

  lemma PrefixIsName(name: Key, c: Key, rest: seq<Key>)
    requires IsComponent(name) && AllComponents(rest)
    ensures name <= c + Slashed(rest) <==> name <= c
  {
    var t := c + Slashed(rest);
    if name <= t {
      assert t == name + t[|name|..];
      NameInComponent(name, t[|name|..], c, rest);
    }
  }

  lemma OneSlashed(name: Key)
    ensures Slashed([name]) == [SLASH] + name
  {
    assert [name][1..] == [];
    assert [SLASH] + name + [] == [SLASH] + name;
  }

  lemma SlashedName(ps: seq<Key>, name: Key)
    ensures Join(ps + [name]) == Slashed(ps) + [SLASH] + name
  {
    hide Slashed;
    SlashedAppend(ps, [name]);
    OneSlashed(name);
    Assoc(Slashed(ps), [SLASH], name);
  }

  lemma Assoc(a: Key, b: Key, c: Key)
    ensures a + (b + c) == a + b + c
  {
  }

  /** The keys that start with a path, a slash and a name are exactly those under the path whose
      next component starts with the name. */
  lemma NamedIsUnder(k: Key, ps: seq<Key>, name: Key)
    requires Normal(k) && AllComponents(ps) && IsComponent(name)
    ensures HasPrefix(k, Join(ps + [name])) <==> Under(k, ps) && name <= Components(k)[|ps|]
  {
    SlashedName(ps, name);
    if Under(k, ps) {
      var c, rest := NextComponent(k, ps);
      PrefixBehind(k, Slashed(ps) + [SLASH], c + Slashed(rest), name);
      PrefixIsName(name, c, rest);
    } else if HasPrefix(k, Slashed(ps) + [SLASH] + name) {
      NotAboveRoot(k, ps, name);
    }
  }

  lemma NotAboveRoot(k: Key, ps: seq<Key>, name: Key)
    requires Normal(k) && AllComponents(ps) && name != [] && HasPrefix(k, Slashed(ps) + [SLASH] + name)
    ensures Under(k, ps)
  {
    var p := Slashed(ps) + [SLASH];
    assert k[..|p + name|][..|p|] == k[..|p|] == p;
    if ps != [] {
      PrefixMeansUnder(k, ps);
    } else {
      assert Components(k) != [] by {
        assert |k| >= 2;
      }
      assert Components(k)[..0] == ps;
    }
  }

  /** No normal path other than the root starts with two slashes. */
  lemma NoDoubleSlash(k: Key)
    requires Normal(k)
    ensures !HasPrefix(k, ROOT + [SLASH])
  {
    if Components(k) != [] {
      assert k[1] == Components(k)[0][0];
      assert |k| >= 2 ==> k[..2][1] == k[1];
    }
  }
}
