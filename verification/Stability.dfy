/**
 Lookups are stable: once a lookup has found a target, or has found nothing, no later additions,
 references or asterisks pass changes the answer.
 */
module Stability {
  import opened Tree
  import opened Additions
  import opened Asterisks
  import opened Access
  import opened References
  import Expansion

  /** `b` repeats `a` if `a` is final. */
  predicate Stable(a: Lookup, b: Lookup) {
    a.Found? || a.Missing? ==> b == a
  }

  // ---- Finished subtrees are left alone ------------------------------------------------------

  lemma {:induction false} PassOfPrimitive(c: Concat)
    requires Primitive(c)
    ensures Pass(c) == c
  {
    hide PassEntry, PrimitiveEntry;
    var ps := seq(|c.parts|, i requires 0 <= i < |c.parts| => PassEntry(c.parts[i]));
    forall i | 0 <= i < |c.parts| ensures ps[i] == c.parts[i] { PassOfPrimitiveEntry(c.parts[i]); }
    CollapseShort(ps);
    assert ps == c.parts;
  }

  lemma {:induction false} PassOfPrimitiveEntry(e: Entry)
    requires PrimitiveEntry(e)
    ensures PassEntry(e) == e
  {
    hide Pass, Primitive;
    match e {
      case Array(f, es) =>
        forall i | 0 <= i < |es| ensures Pass(es[i]) == es[i] { PassOfPrimitive(es[i]); }
        assert PassEntry(e).elements == es;
      case Object(m) =>
        forall n | n in m ensures Pass(m[n]) == m[n] { PassOfPrimitive(m[n]); }
        assert PassEntry(e).members == m;
      case _ =>
    }
  }

  lemma {:induction false} ExpandOfPrimitive(c: Concat)
    requires Primitive(c)
    ensures Expand(c) == Ok(c)
    decreases Depth(c), 2
  {
    hide ExpandBelow, PrimitiveEntry, DepthEntry;
    Expansion.ExpandFromStep(c.parts, 0);
    if |c.parts| == 1 {
      DepthBound(c.parts, Depth(c));
      NoAsterisk(c.parts[0]);
      ExpandOfPrimitiveEntry(c.parts[0]);
      assert c.parts == [c.parts[0]];
    }
  }

  lemma NoAsterisk(e: Entry)
    requires PrimitiveEntry(e)
    ensures !e.Asterisk? && !e.Reference?
  {
  }

  lemma {:induction false} ExpandOfPrimitiveEntry(e: Entry)
    requires PrimitiveEntry(e)
    ensures ExpandBelow(e) == Ok(e)
    decreases DepthEntry(e), 0
  {
    hide Expand, Primitive;
    match e {
      case Array(f, es) =>
        Expansion.ExpandArray(f, es);
        forall i | 0 <= i < |es| ensures Expand(es[i]) == Ok(es[i]) { ExpandOfPrimitive(es[i]); }
        assert ExpandBelow(e).value.elements == es;
      case Object(m) =>
        Expansion.ExpandObject(m);
        forall n | n in m ensures Expand(m[n]) == Ok(m[n]) { ExpandOfPrimitive(m[n]); }
        assert ExpandBelow(e).value.members == m;
      case _ =>
    }
  }

  lemma {:induction false} PrimitiveHasNoReference(c: Concat, s: Site)
    requires Primitive(c)
    ensures !Live(c, s)
    decreases |s.pos|
  {
    if Live(c, s) {
      if s.pos == [] {
        NoAsterisk(c.parts[s.part]);
      } else {
        PrimitiveHasNoReference(Child(c, s.pos[0]), Site(s.pos[1..], s.part));
      }
    }
  }

  // ---- One pass ------------------------------------------------------------------------------

  lemma PassOfSingle(c: Concat)
    ensures |c.parts| <= 1 ==> |Pass(c).parts| == |c.parts|
    ensures |c.parts| == 1 ==> Pass(c).parts[0] == PassEntry(c.parts[0])
  {
    hide PassEntry;
    var ps := seq(|c.parts|, i requires 0 <= i < |c.parts| => PassEntry(c.parts[i]));
    if |ps| <= 1 { CollapseShort(ps); }
  }

  lemma {:induction false} AdditionsAreStable(c: Concat, suffix: Key, down: int)
    ensures Stable(AccessConcat(c, suffix, down), AccessConcat(Pass(c), suffix, down))
    decreases |suffix|
  {
    hide Pass;
    if suffix == [] {
      if Primitive(c) { PassOfPrimitive(c); }
    } else {
      PassOfSingle(c);
      if |c.parts| == 1 {
        match c.parts[0] {
          case Object(m) =>
            if suffix[0].Name? && suffix[0].name in m {
              AdditionsAreStable(m[suffix[0].name], suffix[1..], down - 1);
            }
          case Array(_, es) =>
            if suffix[0].Index? && suffix[0].index < |es| {
              AdditionsAreStable(es[suffix[0].index], suffix[1..], down - 1);
            }
          case _ =>
        }
      }
    }
  }

  lemma {:induction false} AsterisksAreStable(c: Concat, suffix: Key, down: int)
    requires Expand(c).Ok?
    ensures Stable(AccessConcat(c, suffix, down), AccessConcat(Expand(c).value, suffix, down))
    decreases |suffix|
  {
    if suffix == [] {
      if Primitive(c) { ExpandOfPrimitive(c); }
    } else {
      ExpandOfSingle(c);
      hide Expand, ExpandBelow;
      if |c.parts| == 1 {
        match c.parts[0] {
          case Object(m) =>
            Expansion.ExpandObject(m);
            if suffix[0].Name? && suffix[0].name in m {
              AsterisksAreStable(m[suffix[0].name], suffix[1..], down - 1);
            }
          case Array(f, es) =>
            Expansion.ExpandArray(f, es);
            if suffix[0].Index? && suffix[0].index < |es| {
              AsterisksAreStable(es[suffix[0].index], suffix[1..], down - 1);
            }
          case _ =>
        }
      }
    }
  }

  lemma ExpandOfSingle(c: Concat)
    requires Expand(c).Ok?
    ensures c.parts == [] ==> Expand(c).value.parts == []
    ensures |c.parts| == 1 && c.parts[0].Asterisk? ==> Expand(c).value.parts == []
    ensures |c.parts| == 1 && !c.parts[0].Asterisk? ==>
      ExpandBelow(c.parts[0]).Ok? && Expand(c).value.parts == [ExpandBelow(c.parts[0]).value]
    ensures |c.parts| == 1 && !c.parts[0].Array? && !c.parts[0].Object? ==> ExpandBelow(c.parts[0]) == Ok(c.parts[0])
  {
    hide ExpandStar;
    Expansion.ExpandFromStep(c.parts, 0);
    if |c.parts| == 1 && c.parts[0].Asterisk? {
      assert NamesOf(c.parts[1..]) == {} && NamesOf(c.parts) == {};
      Expansion.ExpandFromStep(ExpandStar(c.parts, 0), 0);
    }
  }

  lemma {:induction false} ReplacingIsStable(c: Concat, s: Site, e: Entry, suffix: Key, down: int)
    requires Live(c, s)
    ensures Stable(AccessConcat(c, suffix, down), AccessConcat(Replace(c, s, e), suffix, down))
    decreases |suffix|
  {
    hide Live, Primitive, Replace, AccessName, AccessIndex;
    if suffix == [] {
      if Primitive(c) { PrimitiveHasNoReference(c, s); }
    } else {
      if s.pos != [] {
        ReplaceBelow(c, s, e);
        ReplacingIsStable(Child(c, s.pos[0]), Site(s.pos[1..], s.part), e, suffix[1..], down - 1);
      }
      NamesAreStable(c, s, e, suffix, down);
      IndicesAreStable(c, s, e, suffix, down);
    }
  }

  /** One step of a lookup, given that the rest of it is stable. */
  ghost predicate RestIsStable(c: Concat, s: Site, e: Entry, suffix: Key, down: int)
    requires Live(c, s) && suffix != []
  {
    s.pos != [] ==>
      && HasChild(c, s.pos[0])
      && Live(Child(c, s.pos[0]), Site(s.pos[1..], s.part))
      && Replace(c, s, e) == WithChild(c, s.pos[0], Replace(Child(c, s.pos[0]), Site(s.pos[1..], s.part), e))
      && Stable(
           AccessConcat(Child(c, s.pos[0]), suffix[1..], down - 1),
           AccessConcat(Replace(Child(c, s.pos[0]), Site(s.pos[1..], s.part), e), suffix[1..], down - 1))
  }

  lemma NamesAreStable(c: Concat, s: Site, e: Entry, suffix: Key, down: int)
    requires Live(c, s) && suffix != [] && RestIsStable(c, s, e, suffix, down)
    ensures suffix[0].Name? ==>
      Stable(AccessName(c, suffix[0].name, suffix[1..], down), AccessName(Replace(c, s, e), suffix[0].name, suffix[1..], down))
  {
    hide AccessConcat;
    if s.pos != [] {
      hide Replace, Live;
    }
  }

  lemma IndicesAreStable(c: Concat, s: Site, e: Entry, suffix: Key, down: int)
    requires Live(c, s) && suffix != [] && RestIsStable(c, s, e, suffix, down)
    ensures suffix[0].Index? ==>
      Stable(AccessIndex(c, suffix[0].index, suffix[1..], down), AccessIndex(Replace(c, s, e), suffix[0].index, suffix[1..], down))
  {
    hide AccessConcat;
    if s.pos != [] {
      hide Replace, Live;
    }
  }

  // ---- Whole trees ---------------------------------------------------------------------------

  /** No lookup that has an answer in `o` has another one in `q`. */
  ghost predicate Steady(o: Members, q: Members) {
    && o.Keys == q.Keys
    && forall n, suffix, down | n in o :: Stable(AccessConcat(o[n], suffix, down), AccessConcat(q[n], suffix, down))
  }

  lemma SteadyTransitive(o: Members, p: Members, q: Members)
    requires Steady(o, p) && Steady(p, q)
    ensures Steady(o, q)
  {
    hide AccessConcat;
    forall n, suffix, down | n in o ensures Stable(AccessConcat(o[n], suffix, down), AccessConcat(q[n], suffix, down)) {
      assert Stable(AccessConcat(o[n], suffix, down), AccessConcat(p[n], suffix, down));
      assert Stable(AccessConcat(p[n], suffix, down), AccessConcat(q[n], suffix, down));
    }
  }

  lemma {:induction false} ScopesAreStable(o: Members, q: Members, prefix: Key, suffix: Key, n: nat)
    requires Steady(o, q) && n <= |prefix| && suffix != []
    ensures Stable(AccessScopes(o, prefix, suffix, n), AccessScopes(q, prefix, suffix, n))
    decreases n
  {
    hide AccessConcat;
    var path := prefix[..n] + suffix;
    if path[0].Name? && path[0].name in o {
      assert Stable(AccessConcat(o[path[0].name], path[1..], n - 1), AccessConcat(q[path[0].name], path[1..], n - 1));
    }
    if n > 0 { ScopesAreStable(o, q, prefix, suffix, n - 1); }
  }

  lemma {:induction false} KeyIsStable(o: Members, q: Members, prefix: Key, ref: seq<RefPart>)
    requires Steady(o, q)
    ensures ResolveKey(o, prefix, ref).Known? ==> ResolveKey(q, prefix, ref) == ResolveKey(o, prefix, ref)
    decreases ref, 0
  {
    hide Access.Access;
    if ref != [] {
      KeyIsStable(o, q, prefix, ref[1..]);
      match ref[0] {
        case RefInner(inner) => TargetIsStable(o, q, prefix, inner);
        case _ =>
      }
    }
  }

  /** Nested references included: a resolved reference keeps its target. */
  lemma {:induction false} TargetIsStable(o: Members, q: Members, prefix: Key, ref: seq<RefPart>)
    requires Steady(o, q)
    ensures Resolve(o, prefix, ref).Found? ==> Resolve(q, prefix, ref) == Resolve(o, prefix, ref)
    decreases ref, 1
  {
    KeyIsStable(o, q, prefix, ref);
    var k := ResolveKey(o, prefix, ref);
    if k.Known? && prefix != [] && k.value != [] {
      ScopesAreStable(o, q, prefix[..|prefix| - 1], k.value, |prefix| - 1);
    }
  }

  // ---- Whole passes --------------------------------------------------------------------------

  lemma AdditionsAreSteady(m: Members)
    ensures PassEntry(Object(m)).Object? && Steady(m, PassEntry(Object(m)).members)
  {
    ObjectPass(m);
    hide Pass, AccessConcat, PassEntry;
    var o := PassEntry(Object(m)).members;
    forall n, suffix, down | n in m
      ensures Stable(AccessConcat(m[n], suffix, down), AccessConcat(o[n], suffix, down))
    {
      AdditionsAreStable(m[n], suffix, down);
    }
  }

  lemma AsterisksAreSteady(m: Members)
    requires ExpandBelow(Object(m)).Ok?
    ensures Steady(m, ExpandBelow(Object(m)).value.members)
  {
    Expansion.ExpandObject(m);
    hide Expand, AccessConcat, ExpandBelow;
    var o := ExpandBelow(Object(m)).value.members;
    forall n, suffix, down | n in m
      ensures Stable(AccessConcat(m[n], suffix, down), AccessConcat(o[n], suffix, down))
    {
      AsterisksAreStable(m[n], suffix, down);
    }
  }

  lemma ReplacingIsSteady(r: Concat, s: Site, e: Entry)
    requires IsRoot(r) && Live(r, s)
    ensures IsRoot(Replace(r, s, e)) && Steady(MembersOf(r), MembersOf(Replace(r, s, e)))
  {
    ReplaceKeepsRoot(r, s, e);
    ReplaceBelow(r, s, e);
    var m, o, h := MembersOf(r), MembersOf(Replace(r, s, e)), s.pos[0];
    forall n, suffix, down | n in m
      ensures Stable(AccessConcat(m[n], suffix, down), AccessConcat(o[n], suffix, down))
    {
      if h == ToMember(0, n) {
        ReplacingIsStable(m[n], Site(s.pos[1..], s.part), e, suffix, down);
      }
    }
  }

  lemma VisitIsSteady(r: Concat, s: Site)
    requires IsRoot(r) && Live(r, s) && Visit(r, s).Ok?
    ensures IsRoot(Visit(r, s).value) && Steady(MembersOf(r), MembersOf(Visit(r, s).value))
  {
    var t := Resolve(MembersOf(r), KeyOf(s.pos), ReferenceAt(r, s));
    if t.Found? && t.target.parts != [] {
      ReplacingIsSteady(r, s, t.target.parts[0]);
    }
  }

  lemma {:induction false} VisitsAreSteady(r: Concat, sites: seq<Site>)
    requires IsRoot(r) && VisitAll(r, sites).Ok?
    ensures IsRoot(VisitAll(r, sites).value) && Steady(MembersOf(r), MembersOf(VisitAll(r, sites).value))
    decreases |sites|
  {
    hide Visit, Steady;
    if sites == [] {
      SteadyReflexive(MembersOf(r));
    } else {
      VisitIsSteady(r, sites[0]);
      var v := Visit(r, sites[0]).value;
      VisitsAreSteady(v, sites[1..]);
      SteadyTransitive(MembersOf(r), MembersOf(v), MembersOf(VisitAll(r, sites).value));
    }
  }

  lemma SteadyReflexive(m: Members)
    ensures Steady(m, m)
  {
  }
}
