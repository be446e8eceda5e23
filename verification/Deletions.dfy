/** A member that is omitted in the end, and that no reference can see, makes no difference at all. */
module Deletions {
  import opened Tree
  import opened Names
  import opened Additions
  import opened Asterisks
  import opened Functions
  import opened Access
  import opened References
  import opened Everything
  import opened Callless
  import opened Invocations
  import opened Phase3
  import opened Phase5
  import opened Results
  import opened Pipeline
  import opened Phase1
  import opened Parser
  import opened ParserLaws
  import opened Marks
  import History
  import Expansion
  import Stability
  import Calls

  /** The member `g` is finished, and not kept by phase 3. */
  predicate Ghost(g: Concat) {
    Primitive(g) && !Kept(g)
  }

  function With(r: Result<Members>, n: string, g: Concat): Result<Members> {
    if r.Ok? then Ok(r.value[n := g]) else r
  }

  // ---- References ----------------------------------------------------------------------------

  /** A reference that cannot begin with the name does not see the member. */
  lemma {:induction false} SameKey(o: Members, n: string, g: Concat, prefix: Key, ref: seq<RefPart>)
    requires n !in o && (prefix == [] || prefix[0] != Name(n))
    requires forall i | 0 <= i < |ref| :: ref[i].RefInner? ==> !MayOpen(n, ref[i].inner)
    ensures ResolveKey(o[n := g], prefix, ref) == ResolveKey(o, prefix, ref)
    decreases ref, 0
  {
    if ref != [] {
      SameKey(o, n, g, prefix, ref[1..]);
      hide Resolve;
      match ref[0] {
        case RefInner(inner) => SameTarget(o, n, g, prefix, inner);
        case _ =>
      }
    }
  }

  lemma {:induction false} SameTarget(o: Members, n: string, g: Concat, prefix: Key, ref: seq<RefPart>)
    requires n !in o && (prefix == [] || prefix[0] != Name(n)) && !MayOpen(n, ref)
    ensures Resolve(o[n := g], prefix, ref) == Resolve(o, prefix, ref)
    decreases ref, 1
  {
    hide ResolveKey;
    SameKey(o, n, g, prefix, ref);
    var k := ResolveKey(o, prefix, ref);
    if k.Known? && prefix != [] && k.value != [] {
      FirstPart(o, prefix, ref);
      SameScopes(o, n, g, prefix[..|prefix| - 1], k.value, |prefix| - 1);
    }
  }

  lemma FirstPart(o: Members, prefix: Key, ref: seq<RefPart>)
    requires ResolveKey(o, prefix, ref).Known? && ResolveKey(o, prefix, ref).value != []
    ensures ref != [] && (ref[0].RefName? ==> ResolveKey(o, prefix, ref).value[0] == Name(ref[0].name))
    ensures ref[0].RefIndex? ==> ResolveKey(o, prefix, ref).value[0].Index?
  {
    hide Resolve;
  }

  lemma {:induction false} SameScopes(o: Members, n: string, g: Concat, prefix: Key, suffix: Key, i: nat)
    requires i <= |prefix| && suffix != [] && suffix[0] != Name(n) && (prefix == [] || prefix[0] != Name(n))
    ensures AccessScopes(o[n := g], prefix, suffix, i) == AccessScopes(o, prefix, suffix, i)
    decreases i
  {
    hide AccessConcat;
    var path := prefix[..i] + suffix;
    assert path[0] == if i == 0 then suffix[0] else prefix[0];
    if i > 0 { SameScopes(o, n, g, prefix, suffix, i - 1); }
  }

  // ---- Positions -----------------------------------------------------------------------------

  lemma NoSites(g: Concat)
    requires Primitive(g)
    ensures SitesOf(g) == []
  {
    hide SitesOf, Live, Primitive;
    SitesAreTheReferences(g);
    forall s ensures !Live(g, s) { Stability.PrimitiveHasNoReference(g, s); }
    SomethingIsListed(SitesOf(g));
  }

  /** The member is passed over in the list of sites. */
  lemma {:induction false} SitesSkip(c: Concat, d: Concat, a: seq<string>, n: string, b: seq<string>)
    requires IsRoot(c) && n !in MembersOf(c) && IsRoot(d) && d.parts[0].members.Keys == MembersOf(c).Keys + {n}
    requires forall x | x in MembersOf(c) :: MembersOf(d)[x] == MembersOf(c)[x]
    requires SitesOf(MembersOf(d)[n]) == [] && forall x | x in a + b :: x in MembersOf(c)
    ensures (forall x | x in a + [n] + b :: x in MembersOf(d))
    ensures SitesOfMembers(d, 0, a + [n] + b) == SitesOfMembers(c, 0, a + b)
    decreases |a|
  {
    hide SitesOf;
    var all := a + [n] + b;
    assert forall x | x in all :: x in a + b || x == n;
    if a == [] {
      assert all[0] == n && all[1..] == b && a + b == b;
      SitesSame(c, d, b);
      assert Below(ToMember(0, n), []) == [];
    } else {
      assert all[0] == a[0] && all[1..] == a[1..] + [n] + b && (a + b)[0] == a[0] && (a + b)[1..] == a[1..] + b;
      assert forall x | x in a[1..] + b :: x in a + b;
      SitesSkip(c, d, a[1..], n, b);
    }
  }

  lemma {:induction false} SitesSame(c: Concat, d: Concat, b: seq<string>)
    requires IsRoot(c) && IsRoot(d) && MembersOf(c).Keys <= MembersOf(d).Keys
    requires forall x | x in MembersOf(c) :: MembersOf(d)[x] == MembersOf(c)[x]
    requires forall x | x in b :: x in MembersOf(c)
    ensures (forall x | x in b :: x in MembersOf(d)) && SitesOfMembers(d, 0, b) == SitesOfMembers(c, 0, b)
    decreases |b|
  {
    hide SitesOf;
    assert forall x | x in b :: x in MembersOf(d);
    if b != [] { SitesSame(c, d, b[1..]); }
  }

  lemma SameSites(m: Members, n: string, g: Concat)
    requires n !in m && Primitive(g)
    ensures SitesOf(Root(m[n := g])) == SitesOf(Root(m))
  {
    hide SitesOf, SitesOfMembers, Lists, Primitive;
    var c, d := Root(m), Root(m[n := g]);
    NoSites(g);
    var a, b := SortedWith(m.Keys, n);
    assert (m[n := g]).Keys == m.Keys + {n};
    SortedDistinct(m.Keys);
    SitesSkip(c, d, a, n, b);
    RootList(c);
    RootList(d);
  }

  lemma RootList(r: Concat)
    requires IsRoot(r)
    ensures SitesOf(r) == SitesOfMembers(r, 0, Sorted(MembersOf(r).Keys))
  {
    hide SitesOfMembers;
    assert SitesFrom(r, 1) == [] && SitesAt(r, 0) == SitesOfMembers(r, 0, Sorted(MembersOf(r).Keys));
    assert SitesOf(r) == SitesOfMembers(r, 0, Sorted(MembersOf(r).Keys)) + [];
  }

  // ---- The references pass -------------------------------------------------------------------

  /** A site of the tree in the larger tree. */
  lemma SiteStays(m: Members, n: string, g: Concat, s: Site)
    requires n !in m && Primitive(g)
    ensures Live(Root(m[n := g]), s) <==> Live(Root(m), s)
    ensures Live(Root(m), s) ==>
      && ReferenceAt(Root(m[n := g]), s) == ReferenceAt(Root(m), s)
      && KeyOf(s.pos) != [] && KeyOf(s.pos)[0] != Name(n)
      && forall e :: IsRoot(Replace(Root(m), s, e)) && MembersOf(Replace(Root(m), s, e)).Keys == m.Keys
           && Replace(Root(m[n := g]), s, e) == Root(MembersOf(Replace(Root(m), s, e))[n := g])
           && Replace(Root(m), s, e) == Root(MembersOf(Replace(Root(m), s, e)))
  {
    hide Primitive;
    var r, t := Root(m), Root(m[n := g]);
    if Live(t, s) {
      ReplaceBelow(t, s, Null);
      var h := s.pos[0];
      if h == ToMember(0, n) { Stability.PrimitiveHasNoReference(g, Site(s.pos[1..], s.part)); }
      assert HasChild(r, h) && Child(r, h) == Child(t, h);
      assert Live(r, s);
    }
    if Live(r, s) {
      ReplaceBelow(r, s, Null);
      var h := s.pos[0];
      assert HasChild(t, h) && Child(r, h) == Child(t, h);
      forall e
        ensures IsRoot(Replace(r, s, e)) && MembersOf(Replace(r, s, e)).Keys == m.Keys
        ensures Replace(t, s, e) == Root(MembersOf(Replace(r, s, e))[n := g])
        ensures Replace(r, s, e) == Root(MembersOf(Replace(r, s, e)))
      {
        ReplaceBelow(r, s, e);
        ReplaceBelow(t, s, e);
        var d := Replace(Child(r, h), Site(s.pos[1..], s.part), e);
        assert m[n := g][h.name := d] == m[h.name := d][n := g];
        assert r.parts[0 := Object(m[h.name := d])] == [Object(m[h.name := d])];
        assert t.parts[0 := Object(m[n := g][h.name := d])] == [Object(m[n := g][h.name := d])];
      }
    }
  }

  lemma {:induction false} SiteIsFree(n: string, c: Concat, s: Site)
    requires Free(Opening(n), c) && Live(c, s)
    ensures !MayOpen(n, ReferenceAt(c, s))
    decreases |s.pos|
  {
    hide MayOpen;
    if s.pos == [] {
      assert FreeEntry(Opening(n), c.parts[s.part]);
    } else {
      ReplaceBelow(c, s, Null);
      FreeChild(Opening(n), c, s.pos[0], c);
      SiteIsFree(n, Child(c, s.pos[0]), Site(s.pos[1..], s.part));
    }
  }

  function Larger(r: Result<Concat>, n: string, g: Concat): Result<Concat> {
    if r.Ok? && IsRoot(r.value) then Ok(Root(MembersOf(r.value)[n := g])) else r
  }

  lemma VisitSame(m: Members, n: string, g: Concat, s: Site)
    requires n !in m && Primitive(g) && Live(Root(m), s) && Free(Opening(n), Root(m))
    ensures Live(Root(m[n := g]), s)
    ensures Visit(Root(m[n := g]), s) == Larger(Visit(Root(m), s), n, g)
    ensures Visit(Root(m), s).Ok? ==>
      var v := Visit(Root(m), s).value; IsRoot(v) && v == Root(MembersOf(v)) && MembersOf(v).Keys == m.Keys
  {
    hide Resolve, Live, Replace, Free, MayOpen, Primitive;
    SiteStays(m, n, g, s);
    SiteIsFree(n, Root(m), s);
    SameTarget(m, n, g, KeyOf(s.pos), ReferenceAt(Root(m), s));
  }

  lemma {:induction false} VisitsSame(m: Members, n: string, g: Concat, sites: seq<Site>)
    requires n !in m && Primitive(g) && Free(Opening(n), Root(m))
    ensures VisitAll(Root(m[n := g]), sites) == Larger(VisitAll(Root(m), sites), n, g)
    decreases |sites|
  {
    hide Visit, Live, Free, Primitive;
    if sites != [] {
      var s := sites[0];
      SiteStays(m, n, g, s);
      if Live(Root(m), s) {
        VisitSame(m, n, g, s);
        var v := Visit(Root(m), s);
        if v.Ok? {
          FreeVisit(Opening(n), Root(m), s);
          VisitsSame(MembersOf(v.value), n, g, sites[1..]);
        }
      }
    }
  }

  // ---- Every pass ----------------------------------------------------------------------------

  lemma {:induction false} CallsSkip(fm: FunctionMap, m: Members, g: Concat, a: seq<string>, n: string, b: seq<string>)
    requires n !in m && n !in a + b && CallAll(fm, g) == Ok(g) && forall x | x in a + b :: x in m
    ensures forall x | x in a + [n] + b :: x in m[n := g]
    ensures CallMembers(fm, Object(m[n := g]), a + [n] + b) == With(CallMembers(fm, Object(m), a + b), n, g)
    decreases |a|
  {
    hide CallAll;
    var all := a + [n] + b;
    assert forall x | x in all :: x in a + b || x == n;
    hide CallMembers;
    Calls.CallMembersStep(fm, Object(m[n := g]), all);
    if a == [] {
      assert all[0] == n && all[1..] == b && a + b == b;
      CallsSame(fm, m, n, g, b);
    } else {
      assert all[0] == a[0] && all[1..] == a[1..] + [n] + b && (a + b)[0] == a[0] && (a + b)[1..] == a[1..] + b;
      assert forall x | x in a[1..] + b :: x in a + b;
      assert a[0] in a + b;
      CallsSkip(fm, m, g, a[1..], n, b);
      Calls.CallMembersStep(fm, Object(m), a + b);
      var d := CallAll(fm, m[a[0]]);
      if d.Ok? { WithNext(CallMembers(fm, Object(m), a[1..] + b), n, g, a[0], d.value); }
    }
  }

  lemma WithNext(r: Result<Members>, n: string, g: Concat, x: string, d: Concat)
    requires x != n
    ensures r.Ok? ==> With(Ok(r.value[x := d]), n, g) == Ok(With(r, n, g).value[x := d])
  {
    if r.Ok? { assert r.value[x := d][n := g] == r.value[n := g][x := d]; }
  }

  lemma {:induction false} CallsSame(fm: FunctionMap, m: Members, n: string, g: Concat, b: seq<string>)
    requires n !in m && forall x | x in b :: x in m
    ensures CallMembers(fm, Object(m[n := g]), b) == CallMembers(fm, Object(m), b)
    decreases |b|
  {
    hide CallAll;
    if b != [] { CallsSame(fm, m, n, g, b[1..]); }
  }

  lemma SameCalls(fm: FunctionMap, m: Members, n: string, g: Concat)
    requires n !in m && Primitive(g)
    ensures RunPass(CallFunctions, fm, m[n := g]) == With(RunPass(CallFunctions, fm, m), n, g)
  {
    hide CallMembers, CallAll, Lists, Primitive, Free;
    PrimitiveIsFree(Invocation, g);
    CallsOfFree(fm, g);
    var a, b := SortedWith(m.Keys, n);
    assert (m[n := g]).Keys == m.Keys + {n};
    SortedDistinct(m.Keys);
    CallsSkip(fm, m, g, a, n, b);
  }

  lemma SameAdditions(fm: FunctionMap, m: Members, n: string, g: Concat)
    requires n !in m && Primitive(g)
    ensures RunPass(AddUp, fm, m[n := g]) == With(RunPass(AddUp, fm, m), n, g)
  {
    hide Pass, PassEntry, Sound, SoundEntry, Primitive;
    var q := m[n := g];
    Stability.PassOfPrimitive(g);
    PrimitiveIsSound(g);
    ObjectPass(m);
    ObjectPass(q);
    AllSound(m, n, g);
    assert PassEntry(Object(q)).members == PassEntry(Object(m)).members[n := g];
  }

  lemma AllSound(m: Members, n: string, g: Concat)
    requires n !in m && Sound(g)
    ensures var q := m[n := g]; (forall x | x in q :: Sound(q[x])) <==> (forall x | x in m :: Sound(m[x]))
  {
    hide Sound;
    var q := m[n := g];
    assert forall x | x in q :: x == n || (x in m && q[x] == m[x]);
    assert forall x | x in m :: x in q && q[x] == m[x];
  }

  lemma SameExpansion(fm: FunctionMap, m: Members, n: string, g: Concat)
    requires n !in m && Primitive(g)
    ensures RunPass(ExpandStars, fm, m[n := g]) == With(RunPass(ExpandStars, fm, m), n, g)
  {
    hide Expand, ExpandBelow, Primitive;
    var q := m[n := g];
    Stability.ExpandOfPrimitive(g);
    Expansion.ExpandObject(m);
    Expansion.ExpandObject(q);
    AllExpanded(m, n, g);
    var a, b := ExpandBelow(Object(m)), ExpandBelow(Object(q));
    if a.Ok? { SameMembers(a.value.members, b.value.members, m, n, g); }
  }

  lemma AllExpanded(m: Members, n: string, g: Concat)
    requires n !in m && Expand(g) == Ok(g)
    ensures var q := m[n := g]; (forall x | x in q :: Expand(q[x]).Ok?) <==> (forall x | x in m :: Expand(m[x]).Ok?)
  {
    hide Expand;
    var q := m[n := g];
    assert forall x | x in q :: x == n || (x in m && q[x] == m[x]);
    assert forall x | x in m :: x in q && q[x] == m[x];
  }

  lemma SameMembers(o: Members, p: Members, m: Members, n: string, g: Concat)
    requires n !in m && Expand(g) == Ok(g)
    requires o.Keys == m.Keys && forall x | x in m :: Expand(m[x]) == Ok(o[x])
    requires var q := m[n := g]; p.Keys == q.Keys && forall x | x in q :: Expand(q[x]) == Ok(p[x])
    ensures p == o[n := g]
  {
    hide Expand;
    var q := m[n := g];
    assert forall x | x in m :: x in q && q[x] == m[x];
    forall x | x in q ensures p[x] == o[n := g][x] { if x in m { assert q[x] == m[x]; } }
  }

  lemma SameCopies(fm: FunctionMap, m: Members, n: string, g: Concat)
    requires n !in m && Primitive(g) && Free(Opening(n), Root(m))
    ensures RunPass(CopyTargets, fm, m[n := g]) == With(RunPass(CopyTargets, fm, m), n, g)
  {
    hide VisitAll, SitesOf, Primitive, Free;
    SameSites(m, n, g);
    VisitsSame(m, n, g, SitesOf(Root(m)));
    if ReferencesPass(Root(m)).Ok? { ReferencesAdvance(m); }
  }

  lemma SamePass(k: PassKind, fm: FunctionMap, m: Members, n: string, g: Concat)
    requires n !in m && Primitive(g) && Free(Opening(n), Root(m))
    ensures RunPass(k, fm, m[n := g]) == With(RunPass(k, fm, m), n, g)
  {
    hide RunPass, Primitive, Free;
    match k {
      case CallFunctions => SameCalls(fm, m, n, g);
      case AddUp => SameAdditions(fm, m, n, g);
      case CopyTargets => SameCopies(fm, m, n, g);
      case ExpandStars => SameExpansion(fm, m, n, g);
    }
  }

  /** No pass makes a root member, or a reference that may begin with the name. */
  lemma PassStaysBlind(k: PassKind, fm: FunctionMap, m: Members, n: string)
    requires ValidFunctions(fm) && Free(Opening(n), Root(m)) && RunPass(k, fm, m).Ok?
    ensures RunPass(k, fm, m).value.Keys == m.Keys && Free(Opening(n), Root(RunPass(k, fm, m).value))
  {
    hide Free, FreeEntry, CallEntry, PassEntry, SoundEntry, ExpandBelow, VisitAll, SitesOf, Pass, Expand, CallAll, ValidFunctions;
    var o, w := RunPass(k, fm, m).value, Opening(n);
    RootIsFree(w, m);
    RootIsFree(w, o);
    match k {
      case CallFunctions =>
        CallsBelow(fm, Object(m));
        CallsKeepFreeEntry(w, fm, Object(m));
      case AddUp =>
        ObjectPass(m);
        FreePassEntry(w, Object(m));
      case CopyTargets =>
        CopiesStayFree(w, m);
        Stability.VisitsAreSteady(Root(m), SitesOf(Root(m)));
        assert MembersOf(Root(m)) == m;
      case ExpandStars =>
        Expansion.ExpandObject(m);
        FreeBelow(w, Object(m));
    }
  }

  // ---- Whole runs ----------------------------------------------------------------------------

  lemma {:induction false} SamePasses(ks: seq<PassKind>, fm: FunctionMap, m: Members, n: string, g: Concat)
    requires ValidFunctions(fm) && n !in m && Primitive(g) && Free(Opening(n), Root(m))
    ensures RunPasses(ks, fm, m[n := g]) == With(RunPasses(ks, fm, m), n, g)
    ensures RunPasses(ks, fm, m).Ok? ==>
      RunPasses(ks, fm, m).value.Keys == m.Keys && Free(Opening(n), Root(RunPasses(ks, fm, m).value))
    decreases |ks|
  {
    hide RunPass, Free, ValidFunctions, Primitive;
    if ks != [] {
      SamePass(ks[0], fm, m, n, g);
      if RunPass(ks[0], fm, m).Ok? {
        PassStaysBlind(ks[0], fm, m, n);
        SamePasses(ks[1..], fm, RunPass(ks[0], fm, m).value, n, g);
      }
    }
  }

  lemma {:induction false} SameRounds(ks: seq<PassKind>, fm: FunctionMap, m: Members, n: string, g: Concat, i: nat)
    requires ValidFunctions(fm) && n !in m && Primitive(g) && Free(Opening(n), Root(m))
    ensures Rounds(ks, fm, m[n := g], i) == With(Rounds(ks, fm, m, i), n, g)
    ensures Rounds(ks, fm, m, i).Ok? ==>
      Rounds(ks, fm, m, i).value.Keys == m.Keys && Free(Opening(n), Root(Rounds(ks, fm, m, i).value))
    decreases i
  {
    hide RunPasses, Free, ValidFunctions, Primitive;
    if i > 0 {
      SameRounds(ks, fm, m, n, g, i - 1);
      var r := Rounds(ks, fm, m, i - 1);
      if r.Ok? { SamePasses(ks, fm, r.value, n, g); }
    }
  }

  // ---- The result ----------------------------------------------------------------------------

  lemma {:induction false} FindSkip(m: Members, g: Concat, a: seq<string>, n: string, b: seq<string>)
    requires n !in m && Find(g) == Fine && forall x | x in a + b :: x in m
    ensures forall x | x in a + [n] + b :: x in m[n := g]
    ensures FindMembers(Object(m[n := g]), a + [n] + b) == FindMembers(Object(m), a + b)
    decreases |a|
  {
    hide Find;
    var all := a + [n] + b;
    assert forall x | x in all :: x in a + b || x == n;
    if a == [] {
      assert all[0] == n && all[1..] == b && a + b == b;
      FindSame(m, n, g, b);
    } else {
      assert all[0] == a[0] && all[1..] == a[1..] + [n] + b && (a + b)[0] == a[0] && (a + b)[1..] == a[1..] + b;
      assert forall x | x in a[1..] + b :: x in a + b;
      assert a[0] in a + b;
      FindSkip(m, g, a[1..], n, b);
    }
  }

  lemma {:induction false} FindSame(m: Members, n: string, g: Concat, b: seq<string>)
    requires n !in m && forall x | x in b :: x in m
    ensures FindMembers(Object(m[n := g]), b) == FindMembers(Object(m), b)
    decreases |b|
  {
    hide Find;
    if b != [] { FindSame(m, n, g, b[1..]); }
  }

  /** Phase 3 finds nothing in the member, and takes it away. */
  lemma SamePhase3(m: Members, n: string, g: Concat)
    requires n !in m && Ghost(g)
    ensures FindEntry(Object(m[n := g])) == FindEntry(Object(m))
    ensures StripEntry(Object(m[n := g])) == StripEntry(Object(m))
  {
    hide FindEntry, Find, Strip, Primitive;
    NothingFound(g);
    SameFinding(m, n, g);
    ObjectStrip(m);
    ObjectStrip(m[n := g]);
    OmitOrKeep(g);
    assert StripMembers(m[n := g]) == StripMembers(m);
  }

  lemma NothingFound(g: Concat)
    requires Primitive(g)
    ensures Find(g) == Fine
  {
    hide Primitive, Find;
    PrimitiveIsResolved(g);
    FoundMeansUnresolved(g);
  }

  lemma SameFinding(m: Members, n: string, g: Concat)
    requires n !in m && Find(g) == Fine
    ensures FindEntry(Object(m[n := g])) == FindEntry(Object(m))
  {
    hide FindMembers, Find, Lists;
    var a, b := SortedWith(m.Keys, n);
    assert (m[n := g]).Keys == m.Keys + {n};
    SortedDistinct(m.Keys);
    FindSkip(m, g, a, n, b);
  }

  /** The evaluation that starts with the larger tree has the same outcome. */
  lemma SameOutcome(ks: seq<PassKind>, fm: FunctionMap, m: Members, n: string, g: Concat, r: Result<Annotated>)
    requires ValidFunctions(fm) && n !in m && Ghost(g) && Free(Opening(n), Root(m))
    ensures ComesTo(ks, fm, m[n := g], r) <==> ComesTo(ks, fm, m, r)
  {
    hide RunPass, Rounds, Free, ValidFunctions, Ghost, FindEntry, StripEntry, RepackEntry, PlainEntry;
    assert Primitive(g) by { GhostIsPrimitive(g); }
    var q := m[n := g];
    if ComesTo(ks, fm, m, r) {
      if i: nat :| r.Err? && Rounds(ks, fm, m, i) == Err(r.error) {
        SameRounds(ks, fm, m, n, g, i);
        assert Rounds(ks, fm, q, i) == Err(r.error);
      } else {
        var o :| EndsWith(ks, fm, m, o, r);
        SameEnd(ks, fm, m, n, g, o, r);
      }
    }
    if ComesTo(ks, fm, q, r) {
      if i: nat :| r.Err? && Rounds(ks, fm, q, i) == Err(r.error) {
        SameRounds(ks, fm, m, n, g, i);
        assert Rounds(ks, fm, m, i) == Err(r.error);
      } else {
        var p :| EndsWith(ks, fm, q, p, r);
        var i: nat :| Rounds(ks, fm, q, i) == Ok(p);
        SameRounds(ks, fm, m, n, g, i);
        var o := Rounds(ks, fm, m, i).value;
        SameStop(ks, fm, o, n, g);
        SamePhase3(o, n, g);
        assert EndsWith(ks, fm, m, o, r);
      }
    }
  }

  lemma GhostIsPrimitive(g: Concat)
    requires Ghost(g)
    ensures Primitive(g)
  {
  }

  /** The loop stops at the larger tree when it stops at the smaller one, and conversely. */
  lemma SameStop(ks: seq<PassKind>, fm: FunctionMap, o: Members, n: string, g: Concat)
    requires n !in o && Primitive(g) && Free(Opening(n), Root(o))
    ensures (forall k | k in ks :: RunPass(k, fm, o[n := g]) == Ok(o[n := g])) <==> (forall k | k in ks :: RunPass(k, fm, o) == Ok(o))
  {
    hide RunPass, Free, Primitive;
    forall k ensures RunPass(k, fm, o[n := g]) == Ok(o[n := g]) <==> RunPass(k, fm, o) == Ok(o) {
      SamePass(k, fm, o, n, g);
      var r := RunPass(k, fm, o);
      if r.Ok? && r.value[n := g] == o[n := g] { SameWithout(k, fm, o, r.value, n, g); }
    }
  }

  lemma SameWithout(k: PassKind, fm: FunctionMap, o: Members, p: Members, n: string, g: Concat)
    requires n !in o && p[n := g] == o[n := g] && RunPass(k, fm, o) == Ok(p)
    ensures p == o
  {
    hide CallEntry, PassEntry, SoundEntry, ExpandBelow, VisitAll, SitesOf, Pass, Expand, CallAll;
    assert p.Keys == o.Keys by {
      match k {
        case CallFunctions => CallsBelow(fm, Object(o));
        case AddUp => ObjectPass(o);
        case CopyTargets => Stability.VisitsAreSteady(Root(o), SitesOf(Root(o)));
        case ExpandStars => Expansion.ExpandObject(o);
      }
    }
    forall x | x in o ensures p[x] == o[x] { assert p[n := g][x] == o[n := g][x]; }
  }

  lemma SameEnd(ks: seq<PassKind>, fm: FunctionMap, m: Members, n: string, g: Concat, o: Members, r: Result<Annotated>)
    requires ValidFunctions(fm) && n !in m && Ghost(g) && Free(Opening(n), Root(m)) && EndsWith(ks, fm, m, o, r)
    ensures EndsWith(ks, fm, m[n := g], o[n := g], r)
  {
    hide RunPass, Rounds, Free, ValidFunctions, Ghost, FindEntry, StripEntry, RepackEntry, PlainEntry;
    assert Primitive(g) by { GhostIsPrimitive(g); }
    var i: nat :| Rounds(ks, fm, m, i) == Ok(o);
    SameRounds(ks, fm, m, n, g, i);
    assert Rounds(ks, fm, m[n := g], i) == Ok(o[n := g]);
    SameStop(ks, fm, o, n, g);
    SamePhase3(o, n, g);
  }

  // ---- Deletions -----------------------------------------------------------------------------

  /** Deleting a path in a concat without summands makes room for it, and for nothing else. */
  lemma {:induction false} RoomIsFinished(c: Concat, p: Path)
    requires c.parts == []
    ensures var r := Focus(c, History.NamesOf(p), DoAssign, Implicit);
      r.Ok? && Primitive(r.value) && r.value.implicit == c.implicit
    decreases |p|
  {
    var k := History.NamesOf(p);
    if p == [] {
      assert Focus(c, k, DoAssign, Implicit) == DoAssign(c);
    } else {
      hide Focus, Primitive;
      var x := EMPTY.(implicit := true);
      assert k == [Name(p[0])] + History.NamesOf(p[1..]);
      RoomIsFinished(x, p[1..]);
      History.FocusName(c, p[0], History.NamesOf(p[1..]), DoAssign, Implicit);
      var y := Focus(x, History.NamesOf(p[1..]), DoAssign, Implicit).value;
      assert EnsureObject(c) == c.(parts := [Object(map[])]);
      assert WithLast(EnsureObject(c), Object(map[p[0] := y])) == c.(parts := [Object(map[p[0] := y])]);
      ObjectIsFinished(c, p[0], y);
    }
  }

  lemma ObjectIsFinished(c: Concat, n: string, y: Concat)
    requires Primitive(y)
    ensures Primitive(c.(parts := [Object(map[n := y])]))
  {
    assert PrimitiveEntry(Object(map[n := y]));
  }

  /** The tree after a deletion of which nothing exists. */
  lemma Deleted(m: Members, g: nat, p: Path) returns (x: Concat)
    requires p != [] && |p| <= NESTING_LIMIT && p[0] !in m
    ensures Ghost(x) && ExecMember(State(m, g), [], Delete(History.NamesOf(p))) == Ok(State(m[p[0] := x], g))
  {
    hide Focus;
    var k := History.NamesOf(p);
    RoomIsFinished(EMPTY.(implicit := true), p[1..]);
    assert k[1..] == History.NamesOf(p[1..]) && [] + k == k;
    x := Focus(EMPTY.(implicit := true), k[1..], DoAssign, Implicit).value;
  }

  lemma {:induction false} OneMoreMember(st: State, ms: seq<MemberDef>, d: MemberDef)
    ensures ExecMembers(st, [], ms + [d]) ==
      var r := ExecMembers(st, [], ms);
      if r.Ok? then ExecMember(r.value, [], d) else r
    decreases |ms|
  {
    hide ExecMember;
    if ms == [] {
      assert ms + [d] == [d] && [d][1..] == [];
      var r := ExecMember(st, [], d);
      if r.Ok? { assert ExecMembers(r.value, [], []) == r; }
    } else {
      assert (ms + [d])[0] == ms[0] && (ms + [d])[1..] == ms[1..] + [d];
      var r := ExecMember(st, [], ms[0]);
      if r.Ok? { OneMoreMember(r.value, ms[1..], d); }
    }
  }

  /**
   Deleting a path of which nothing exists changes neither the result nor the error of a file, as
   long as no reference begins with the first name of the path or with a nested reference.
   */
  lemma DeletingNothing(ms: seq<MemberDef>, p: Path, ks: seq<PassKind>, fm: FunctionMap, r: Result<Annotated>)
    requires ValidFunctions(fm) && Parse(ms).Ok? && p != [] && |p| <= NESTING_LIMIT
    requires p[0] !in Parse(ms).value.root && Free(Opening(p[0]), Root(Parse(ms).value.root))
    ensures Parse(ms + [Delete(History.NamesOf(p))]).Ok?
    ensures ComesTo(ks, fm, Parse(ms + [Delete(History.NamesOf(p))]).value.root, r) <==> ComesTo(ks, fm, Parse(ms).value.root, r)
  {
    hide ExecMembers, ExecMember, ComesTo, Free, ValidFunctions, Ghost;
    var st := Parse(ms).value;
    var x := Deleted(st.root, st.generation, p);
    OneMoreMember(State(map[], 1), ms, Delete(History.NamesOf(p)));
    SameOutcome(ks, fm, st.root, p[0], x, r);
  }
}
