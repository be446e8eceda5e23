/**
 The order of the passes does not matter: on trees without calls and asterisks all schedules that
 come to an end without an error end with the same tree, up to the bracketing of doubles.
 */
module Independence {
  import opened Tree
  import opened Additions
  import opened Asterisks
  import opened Functions
  import opened NormalForm
  import opened Access
  import opened References
  import opened Copying
  import opened Everything
  import opened Callless
  import opened Settling
  import opened Pipeline
  import Algebra
  import Progress
  import Stability
  import Runs

  // ---- Lookups in settled trees --------------------------------------------------------------

  /** `b` gives the answer of `a` again if `a` is final, up to bracketing. */
  predicate Follows(a: Lookup, b: Lookup) {
    && (a.Found? ==> b.Found? && LooseTree(b.target) == LooseTree(a.target))
    && (a.Missing? ==> b.Missing?)
  }

  /** What a lookup finds once bracketing is forgotten. */
  function LooseLookup(a: Lookup): Lookup {
    if a.Found? then Found(LooseTree(a.target)) else a
  }

  lemma {:induction false} LooseIsPrimitive(c: Concat)
    ensures Primitive(LooseTree(c)) <==> Primitive(c)
    decreases c
  {
    hide PrimitiveEntry, LooseEntry;
    if |c.parts| == 1 {
      LooseEntryIsPrimitive(c.parts[0]);
      assert LooseTree(c).parts[0] == LooseEntry(c.parts[0]);
    }
  }

  lemma {:induction false} LooseEntryIsPrimitive(e: Entry)
    ensures PrimitiveEntry(LooseEntry(e)) <==> PrimitiveEntry(e)
    decreases e
  {
    match e {
      case Array(f, es) =>
        hide Primitive, LooseTree;
        var fs := LooseEntry(e).elements;
        forall i | 0 <= i < |es| ensures Primitive(fs[i]) <==> Primitive(es[i]) { LooseIsPrimitive(es[i]); }
      case Object(m) =>
        hide Primitive, LooseTree;
        var o := LooseEntry(e).members;
        forall n | n in m ensures Primitive(o[n]) <==> Primitive(m[n]) { LooseIsPrimitive(m[n]); }
        assert o.Keys == m.Keys;
      case _ =>
    }
  }

  /** Lookups do not see the bracketing. */
  lemma {:induction false} LooseAccess(c: Concat, suffix: Key, down: int)
    ensures AccessConcat(LooseTree(c), suffix, down) == LooseLookup(AccessConcat(c, suffix, down))
    decreases |suffix|
  {
    if suffix == [] {
      LooseIsPrimitive(c);
    } else if |c.parts| == 1 {
      hide LooseTree, Primitive;
      LooseSingle(c);
      match c.parts[0] {
        case Object(m) =>
          if suffix[0].Name? && suffix[0].name in m { LooseAccess(m[suffix[0].name], suffix[1..], down - 1); }
        case Array(_, es) =>
          if suffix[0].Index? && suffix[0].index < |es| { LooseAccess(es[suffix[0].index], suffix[1..], down - 1); }
        case _ =>
      }
    }
  }

  lemma LooseSingle(c: Concat)
    requires |c.parts| == 1
    ensures LooseTree(c).parts == [LooseEntry(c.parts[0])]
  {
    hide LooseTree, LooseEntry;
    LooseSummands(c);
  }

  /** A lookup that has an answer has the same one in the settled tree. */
  lemma {:induction false} SettledAccess(env: Environment, p: Key, c: Concat, suffix: Key, down: int)
    ensures var a, b := AccessConcat(c, suffix, down), AccessConcat(Settle(env, p, c), suffix, down);
      a.Found? || a.Missing? ==> b == LooseLookup(a)
    decreases |suffix|
  {
    hide Settle;
    if suffix == [] {
      if Primitive(c) {
        PrimitiveSettles(env, p, c);
        LooseIsPrimitive(c);
      }
    } else if c.parts == [] {
      SettleNothing(env, p, c);
    } else if |c.parts| == 1 && !c.parts[0].Reference? {
      hide Primitive, LooseTree;
      SettleSingle(env, p, c);
      match c.parts[0] {
        case Object(m) =>
          if suffix[0].Name? && suffix[0].name in m {
            SettledAccess(env, p + [suffix[0]], m[suffix[0].name], suffix[1..], down - 1);
          }
        case Array(_, es) =>
          if suffix[0].Index? && suffix[0].index < |es| {
            SettledAccess(env, p + [suffix[0]], es[suffix[0].index], suffix[1..], down - 1);
          }
        case _ =>
      }
    }
  }

  lemma {:induction false} PrimitiveSettles(env: Environment, p: Key, c: Concat)
    requires Primitive(c)
    ensures Settle(env, p, c) == LooseTree(c)
  {
    hide Live, Primitive, Settle, LooseTree, Pass;
    Stability.PassOfPrimitive(c);
    forall s ensures !Live(c, s) { Stability.PrimitiveHasNoReference(c, s); }
    EndSettles(env, p, c);
  }

  // ---- Whole trees ---------------------------------------------------------------------------

  /** Every lookup that has an answer in `o` has the same one in `q`, up to bracketing. */
  ghost predicate Ahead(o: Members, q: Members) {
    && o.Keys == q.Keys
    && forall n, suffix, down | n in o :: Follows(AccessConcat(o[n], suffix, down), AccessConcat(q[n], suffix, down))
  }

  lemma SteadyIsAhead(o: Members, q: Members)
    requires Stability.Steady(o, q)
    ensures Ahead(o, q)
  {
    hide AccessConcat, LooseTree;
    forall n, suffix, down | n in o ensures Follows(AccessConcat(o[n], suffix, down), AccessConcat(q[n], suffix, down)) {
      assert Stability.Stable(AccessConcat(o[n], suffix, down), AccessConcat(q[n], suffix, down));
    }
  }

  /** A tree that settles to `q` is not ahead of `q`. */
  lemma SettledIsAhead(env: Environment, o: Members, q: Members)
    requires Settle(env, [], Root(o)) == LooseTree(Root(q))
    ensures Ahead(o, q)
  {
    SettledRoot(env, o, q);
    hide AccessConcat, LooseTree, Settle;
    forall n, suffix, down | n in o ensures Follows(AccessConcat(o[n], suffix, down), AccessConcat(q[n], suffix, down)) {
      SettledAccess(env, [Name(n)], o[n], suffix, down);
      LooseAccess(q[n], suffix, down);
    }
  }

  lemma SettledRoot(env: Environment, o: Members, q: Members)
    requires Settle(env, [], Root(o)) == LooseTree(Root(q))
    ensures o.Keys == q.Keys && forall n | n in o :: Settle(env, [Name(n)], o[n]) == LooseTree(q[n])
  {
    SettleSingle(env, [], Root(o));
    LooseSingle(Root(q));
    hide Settle, LooseTree;
    var a, b := SettleEntry(env, [], Object(o)), LooseEntry(Object(q));
    assert a == b && a.members.Keys == o.Keys && b.members.Keys == q.Keys;
    forall n | n in o ensures Settle(env, [Name(n)], o[n]) == LooseTree(q[n]) {
      assert [] + [Name(n)] == [Name(n)] && a.members[n] == b.members[n];
    }
  }

  lemma {:induction false} ScopesFollow(o: Members, q: Members, prefix: Key, suffix: Key, n: nat)
    requires Ahead(o, q) && n <= |prefix| && suffix != []
    ensures Follows(AccessScopes(o, prefix, suffix, n), AccessScopes(q, prefix, suffix, n))
    decreases n
  {
    hide AccessConcat, LooseTree;
    var path := prefix[..n] + suffix;
    if path[0].Name? && path[0].name in o {
      assert Follows(AccessConcat(o[path[0].name], path[1..], n - 1), AccessConcat(q[path[0].name], path[1..], n - 1));
    }
    if n > 0 { ScopesFollow(o, q, prefix, suffix, n - 1); }
  }

  lemma {:induction false} KeyFollows(o: Members, q: Members, prefix: Key, ref: seq<RefPart>)
    requires Ahead(o, q)
    ensures ResolveKey(o, prefix, ref).Known? ==> ResolveKey(q, prefix, ref) == ResolveKey(o, prefix, ref)
    decreases ref, 0
  {
    hide Access.Access, LooseTree, Resolve;
    if ref != [] {
      KeyFollows(o, q, prefix, ref[1..]);
      match ref[0] {
        case RefInner(inner) =>
          TargetFollows(o, q, prefix, inner);
          var a, b := Resolve(o, prefix, inner), Resolve(q, prefix, inner);
          if a.Found? { SamePart(a.target, b.target); }
        case _ =>
      }
    }
  }

  lemma SamePart(c: Concat, d: Concat)
    requires LooseTree(c) == LooseTree(d)
    ensures |c.parts| == |d.parts| && forall i | 0 <= i < |c.parts| :: LooseEntry(c.parts[i]) == LooseEntry(d.parts[i])
    ensures |c.parts| == 1 && (c.parts[0].Text? || c.parts[0].Unsigned?) ==> d.parts[0] == c.parts[0]
  {
    hide LooseEntry, LooseTree;
    LooseSummands(c);
    LooseSummands(d);
    if |c.parts| == 1 { SameName(c.parts[0], d.parts[0]); }
  }

  lemma LooseSummands(c: Concat)
    ensures |LooseTree(c).parts| == |c.parts|
    ensures forall i | 0 <= i < |c.parts| :: LooseTree(c).parts[i] == LooseEntry(c.parts[i])
  {
    hide LooseEntry;
  }

  lemma SameName(e: Entry, f: Entry)
    requires LooseEntry(e) == LooseEntry(f)
    ensures e.Text? || e.Unsigned? ==> f == e
  {
    hide LooseEntry, Algebra.Loose;
    LooseKind(e);
    LooseKind(f);
    Algebra.LooseDoubles(e, f);
  }

  lemma {:induction false} TargetFollows(o: Members, q: Members, prefix: Key, ref: seq<RefPart>)
    requires Ahead(o, q)
    ensures Resolve(o, prefix, ref).Found? ==>
      Resolve(q, prefix, ref).Found? && LooseTree(Resolve(q, prefix, ref).target) == LooseTree(Resolve(o, prefix, ref).target)
    decreases ref, 1
  {
    KeyFollows(o, q, prefix, ref);
    hide LooseTree;
    var k := ResolveKey(o, prefix, ref);
    if k.Known? && prefix != [] && k.value != [] {
      ScopesFollow(o, q, prefix[..|prefix| - 1], k.value, |prefix| - 1);
    }
  }

  // ---- Copies --------------------------------------------------------------------------------

  /** What the references denote in `q`. */
  function Denoted(q: Members): Environment {
    (k: Key, ref: seq<RefPart>) =>
      var t := Resolve(q, k, ref);
      if t.Found? && t.target.parts != [] then Filled(t.target.parts[0]) else Open
  }

  /** A lookup along a path ends or waits at the first concat that has several summands. */
  lemma {:induction false} OpenPath(c: Concat, pos: Pos, suffix: Key)
    requires Valid(c, pos) && pos != [] && suffix != []
    requires var a := AccessConcat(c, KeyOf(pos)[..|KeyOf(pos)| - 1] + suffix, |pos| - 1); a.Found? || a.Missing?
    ensures SingleUntil(c, pos)
    decreases |pos|
  {
    var k := KeyOf(pos);
    KeyLength(pos);
    var path := k[..|k| - 1] + suffix;
    if |pos| == 1 {
      assert path == suffix;
    } else {
      var d := Child(c, pos[0]);
      assert k[1..] == KeyOf(pos[1..]);
      KeyLength(pos[1..]);
      assert path[0] == k[0] && path[1..] == k[1..][..|k[1..]| - 1] + suffix;
      if |c.parts| == 1 { OpenPath(d, pos[1..], suffix); }
    }
  }

  lemma {:induction false} KeyLength(pos: Pos)
    ensures |KeyOf(pos)| == |pos|
  {
    if pos != [] { KeyLength(pos[1..]); }
  }

  /** A reference that is resolved can be reached: all concats above it have one summand. */
  lemma FoundIsReached(r: Concat, s: Site)
    requires IsRoot(r) && Live(r, s) && Resolve(MembersOf(r), KeyOf(s.pos), ReferenceAt(r, s)).Found?
    ensures SingleUntil(r, s.pos)
  {
    hide ResolveKey, AccessConcat;
    var k, o := KeyOf(s.pos), MembersOf(r);
    var suffix := ResolveKey(o, k, ReferenceAt(r, s)).value;
    ReplaceBelow(r, s, Null);
    KeyLength(s.pos);
    assert k[1..] == KeyOf(s.pos[1..]);
    if |s.pos| > 1 {
      KeyLength(s.pos[1..]);
      var prefix := k[..|k| - 1];
      var path := prefix[..|prefix|] + suffix;
      assert path[0] == k[0] && path[1..] == k[1..][..|k[1..]| - 1] + suffix;
      OpenPath(Child(r, s.pos[0]), s.pos[1..], suffix);
    }
  }

  /** A visit does not change what the tree settles to, as long as nothing is ahead of `q`. */
  lemma VisitSettles(r: Concat, s: Site, q: Members)
    requires IsRoot(r) && Live(r, s) && Visit(r, s).Ok? && Ahead(MembersOf(r), q)
    ensures Settle(Denoted(q), [], Visit(r, s).value) == Settle(Denoted(q), [], r)
  {
    hide Settle, Replace, Resolve, SingleUntil, Ahead, LooseTree, Primitive, PrimitiveEntry;
    var k, ref := KeyOf(s.pos), ReferenceAt(r, s);
    var t := Resolve(MembersOf(r), k, ref);
    if t.Found? && t.target.parts != [] {
      var e := t.target.parts[0];
      FoundIsReached(r, s);
      TargetFollows(MembersOf(r), q, k, ref);
      var u := Resolve(q, k, ref);
      SamePart(t.target, u.target);
      TargetIsPrimitive(MembersOf(r), k, ref);
      TargetIsPrimitive(q, k, ref);
      PrimitiveHasOnePart(t.target);
      PrimitiveHasOnePart(u.target);
      PrimitiveIsNormal(e);
      PrimitiveIsNormal(u.target.parts[0]);
      assert [] + k == k;
      assert StandsFor(Denoted(q), k, ref, e);
      ReplaceSettles(Denoted(q), [], r, s, e);
    }
  }

  lemma PrimitiveIsNormal(e: Entry)
    requires PrimitiveEntry(e)
    ensures NormalEntry(e) == LooseEntry(e)
  {
    hide PassEntry, PrimitiveEntry, NormalEntry, LooseEntry;
    Stability.PassOfPrimitiveEntry(e);
    FixedIsNormalEntry(e);
  }

  // ---- Whole runs ----------------------------------------------------------------------------

  /** Neither calls nor asterisks occur in the tree. */
  ghost predicate Basic(m: Members) {
    Free(Invocation, Root(m)) && Free(Wildcard, Root(m))
  }

  /** Nothing is left to add and no reference is left to copy. */
  ghost predicate AtRest(fm: FunctionMap, m: Members) {
    RunPass(AddUp, fm, m) == Ok(m) && RunPass(CopyTargets, fm, m) == Ok(m)
  }

  /** The tree settles to `q`, where its references denote what they denote in `q`. */
  ghost predicate SettlesTo(o: Members, q: Members) {
    Settle(Denoted(q), [], Root(o)) == LooseTree(Root(q))
  }

  lemma AddedUpRoot(fm: FunctionMap, m: Members)
    requires RunPass(AddUp, fm, m).Ok?
    ensures Root(RunPass(AddUp, fm, m).value) == Pass(Root(m))
  {
    hide SoundEntry, PassEntry;
    ObjectsStay(fm, m);
    Stability.PassOfSingle(Root(m));
    assert Pass(Root(m)).parts == [Pass(Root(m)).parts[0]];
  }

  /** A tree at rest settles to itself, and to any other one that is ahead of it and not behind. */
  lemma AtRestSettles(fm: FunctionMap, m: Members, q: Members)
    requires AtRest(fm, m) && Ahead(q, m)
    ensures Settle(Denoted(q), [], Root(m)) == LooseTree(Root(m))
  {
    hide Settle, LooseTree, Pass, ReferencesPass, Ahead, SoundEntry, PassEntry, Blocked;
    AddedUpRoot(fm, m);
    ReferencesAdvance(m);
    RestIsBlocked(m, q);
    EndSettles(Denoted(q), [], Root(m));
  }

  lemma RestIsBlocked(m: Members, q: Members)
    requires ReferencesPass(Root(m)) == Ok(Root(m)) && Ahead(q, m)
    ensures Blocked(Denoted(q), [], Root(m))
  {
    hide VisitAll, SitesOf, Ahead, Visit, LooseTree, SingleUntil, ReferenceAt;
    var r := Root(m);
    SitesAreTheReferences(r);
    UnchangedMeansBlocked(r, SitesOf(r));
    forall s | Live(r, s) && SingleUntil(r, s.pos) ensures Denoted(q)([] + KeyOf(s.pos), ReferenceAt(r, s)).Open? {
      assert [] + KeyOf(s.pos) == KeyOf(s.pos);
      assert s in SitesOf(r);
      TargetFollows(q, m, KeyOf(s.pos), ReferenceAt(r, s));
      NotCopied(r, s, m, q);
    }
  }

  lemma NotCopied(r: Concat, s: Site, m: Members, q: Members)
    requires IsRoot(r) && Live(r, s) && MembersOf(r) == m && Visit(r, s) == Ok(r)
    requires var a, b := Resolve(q, KeyOf(s.pos), ReferenceAt(r, s)), Resolve(m, KeyOf(s.pos), ReferenceAt(r, s));
      a.Found? ==> b.Found? && LooseTree(b.target) == LooseTree(a.target)
    ensures Denoted(q)(KeyOf(s.pos), ReferenceAt(r, s)).Open?
  {
    hide Resolve, LooseTree, Replace, Live, Primitive;
    var a, b := Resolve(q, KeyOf(s.pos), ReferenceAt(r, s)), Resolve(m, KeyOf(s.pos), ReferenceAt(r, s));
    if a.Found? && a.target.parts != [] {
      SamePart(a.target, b.target);
      TargetIsPrimitive(m, KeyOf(s.pos), ReferenceAt(r, s));
      PrimitiveHasOnePart(b.target);
      ReplaceDescends(r, s, b.target.parts[0]);
      Progress.DropsIsChange(r, Replace(r, s, b.target.parts[0]));
    }
  }

  // The run that ends with `q`, from its end to its start.

  lemma {:induction false} VisitsBefore(r: Concat, sites: seq<Site>, q: Members)
    requires IsRoot(r) && VisitAll(r, sites).Ok?
    requires IsRoot(VisitAll(r, sites).value) && Stability.Steady(MembersOf(VisitAll(r, sites).value), q)
    ensures Settle(Denoted(q), [], r) == Settle(Denoted(q), [], VisitAll(r, sites).value)
    decreases |sites|
  {
    hide Settle, Visit, Ahead, Stability.Steady, Live;
    if sites != [] {
      var o := MembersOf(VisitAll(r, sites).value);
      Stability.VisitsAreSteady(r, sites);
      Stability.SteadyTransitive(MembersOf(r), o, q);
      SteadyIsAhead(MembersOf(r), q);
      Stability.VisitIsSteady(r, sites[0]);
      VisitSettles(r, sites[0], q);
      VisitsBefore(Visit(r, sites[0]).value, sites[1..], q);
    }
  }

  lemma PassBefore(k: PassKind, fm: FunctionMap, m: Members, q: Members)
    requires Basic(m) && RunPass(k, fm, m).Ok? && Stability.Steady(RunPass(k, fm, m).value, q)
    ensures Settle(Denoted(q), [], Root(m)) == Settle(Denoted(q), [], Root(RunPass(k, fm, m).value))
  {
    hide Settle, Free, Stability.Steady, Pass, PassEntry, SoundEntry, CallEntry, ExpandBelow, VisitAll, SitesOf;
    match k {
      case CallFunctions => PassesStayFree(Invocation, k, fm, m);
      case ExpandStars => PassesStayFree(Wildcard, k, fm, m);
      case AddUp =>
        AddedUpRoot(fm, m);
        PassSettles(Denoted(q), [], Root(m));
      case CopyTargets =>
        ReferencesAdvance(m);
        VisitsBefore(Root(m), SitesOf(Root(m)), q);
    }
  }

  lemma {:induction false} RunStaysBasic(ks: nat -> PassKind, fm: FunctionMap, m: Members, i: nat)
    requires Basic(m) && State(ks, fm, m, i).Ok?
    ensures Basic(State(ks, fm, m, i).value)
  {
    hide RunPass, Free;
    if i > 0 {
      RunStaysBasic(ks, fm, m, i - 1);
      PassesStayFree(Invocation, ks(i - 1), fm, State(ks, fm, m, i - 1).value);
      PassesStayFree(Wildcard, ks(i - 1), fm, State(ks, fm, m, i - 1).value);
    }
  }

  lemma {:induction false} SettlesBefore(ks: nat -> PassKind, fm: FunctionMap, m: Members, i: nat, j: nat)
    requires i <= j && Basic(m) && State(ks, fm, m, j).Ok? && AtRest(fm, State(ks, fm, m, j).value)
    ensures State(ks, fm, m, i).Ok? && SettlesTo(State(ks, fm, m, i).value, State(ks, fm, m, j).value)
    decreases j - i
  {
    hide RunPass, Settle, Stability.Steady, Ahead, LooseTree, AtRest, Basic;
    var q := State(ks, fm, m, j).value;
    if i < j {
      SettlesBefore(ks, fm, m, i + 1, j);
      RunStaysBasic(ks, fm, m, i);
      NoCallsInBasic(ks, m, i + 1, j);
      Runs.RunIsSteady(ks, fm, m, i + 1, j);
      PassBefore(ks(i), fm, State(ks, fm, m, i).value, q);
    } else {
      Stability.SteadyReflexive(q);
      SteadyIsAhead(q, q);
      AtRestSettles(fm, q, q);
    }
  }

  lemma NoCallsInBasic(ks: nat -> PassKind, m: Members, i: nat, j: nat)
    requires Basic(m)
    ensures Runs.NoCalls(ks, m, i, j)
  {
    hide Free;
  }

  // Any other run, from its start on.

  lemma {:induction false} VisitsAfter(r: Concat, sites: seq<Site>, q: Members)
    requires IsRoot(r) && r == Root(MembersOf(r)) && SettlesTo(MembersOf(r), q) && VisitAll(r, sites).Ok?
    ensures var o := VisitAll(r, sites).value; IsRoot(o) && o == Root(MembersOf(o)) && SettlesTo(MembersOf(o), q)
    decreases |sites|
  {
    hide Settle, Visit, Ahead, Live, LooseTree;
    if sites != [] {
      var v := Visit(r, sites[0]).value;
      SettledIsAhead(Denoted(q), MembersOf(r), q);
      VisitSettles(r, sites[0], q);
      OneVisit(r, sites[0]);
      VisitsAfter(v, sites[1..], q);
    }
  }

  lemma OneVisit(r: Concat, s: Site)
    requires IsRoot(r) && r == Root(MembersOf(r)) && Live(r, s) && Visit(r, s).Ok?
    ensures IsRoot(Visit(r, s).value) && Visit(r, s).value == Root(MembersOf(Visit(r, s).value))
  {
    hide Visit, Live;
    assert [s][1..] == [] && VisitAll(Visit(r, s).value, []) == Ok(Visit(r, s).value);
    assert VisitAll(r, [s]) == Visit(r, s);
    VisitsKeepRoot(r, [s]);
  }

  lemma PassAfter(k: PassKind, fm: FunctionMap, m: Members, q: Members)
    requires Basic(m) && RunPass(k, fm, m).Ok? && SettlesTo(m, q)
    ensures SettlesTo(RunPass(k, fm, m).value, q)
  {
    hide Settle, Free, LooseTree, Pass, PassEntry, SoundEntry, CallEntry, ExpandBelow, VisitAll, SitesOf;
    match k {
      case CallFunctions => PassesStayFree(Invocation, k, fm, m);
      case ExpandStars => PassesStayFree(Wildcard, k, fm, m);
      case AddUp =>
        AddedUpRoot(fm, m);
        PassSettles(Denoted(q), [], Root(m));
      case CopyTargets =>
        VisitsAfter(Root(m), SitesOf(Root(m)), q);
    }
  }

  lemma {:induction false} SettlesAfter(ks: nat -> PassKind, fm: FunctionMap, m: Members, i: nat, q: Members)
    requires Basic(m) && State(ks, fm, m, i).Ok? && SettlesTo(m, q)
    ensures SettlesTo(State(ks, fm, m, i).value, q)
    decreases i
  {
    hide RunPass, SettlesTo, Basic;
    if i > 0 {
      SettlesAfter(ks, fm, m, i - 1, q);
      RunStaysBasic(ks, fm, m, i - 1);
      PassAfter(ks(i - 1), fm, State(ks, fm, m, i - 1).value, q);
    }
  }

  lemma RunsMeet(ks: nat -> PassKind, js: nat -> PassKind, fm: FunctionMap, m: Members, i: nat, j: nat)
    requires Basic(m) && State(ks, fm, m, i).Ok? && State(js, fm, m, j).Ok? && AtRest(fm, State(js, fm, m, j).value)
    ensures SettlesTo(State(ks, fm, m, i).value, State(js, fm, m, j).value)
    ensures Ahead(State(ks, fm, m, i).value, State(js, fm, m, j).value)
  {
    hide State, Settle, LooseTree, Basic, AtRest, Ahead;
    SettlesBefore(js, fm, m, 0, j);
    Runs.NoState(js, fm, m);
    SettlesAfter(ks, fm, m, i, State(js, fm, m, j).value);
    SettledIsAhead(Denoted(State(js, fm, m, j).value), State(ks, fm, m, i).value, State(js, fm, m, j).value);
  }

  /**
   Order independence: without calls and asterisks any two schedules of the passes that reach trees
   at rest have reached the same tree, up to the bracketing of doubles, and exactly the same tree
   where at most two doubles have met in any sum.
   */
  lemma SchedulesAgree(ks: nat -> PassKind, js: nat -> PassKind, fm: FunctionMap, m: Members, i: nat, j: nat)
    requires Basic(m) && State(ks, fm, m, i).Ok? && State(js, fm, m, j).Ok?
    requires AtRest(fm, State(ks, fm, m, i).value) && AtRest(fm, State(js, fm, m, j).value)
    ensures var o, q := State(ks, fm, m, i).value, State(js, fm, m, j).value;
      LooseTree(Root(o)) == LooseTree(Root(q)) && (Thin(Root(o)) ==> o == q)
  {
    hide State, Settle, LooseTree, Basic, AtRest, Ahead, Thin;
    var o, q := State(ks, fm, m, i).value, State(js, fm, m, j).value;
    RunsMeet(ks, js, fm, m, i, j);
    RunsMeet(js, ks, fm, m, j, i);
    AtRestSettles(fm, o, q);
    if Thin(Root(o)) {
      ThinIsExact(Root(o), Root(q));
      assert Root(o).parts[0].members == o && Root(q).parts[0].members == q;
    }
  }

  /** The loop of phase 2 ends with the same tree for every order of the passes. */
  lemma OrderIsIrrelevant(ks: seq<PassKind>, js: seq<PassKind>, fm: FunctionMap, m: Members, o: Members, q: Members)
    requires Basic(m) && Phase2Ends(ks, fm, m, o) && Phase2Ends(js, fm, m, q)
    requires AddUp in ks && CopyTargets in ks && AddUp in js && CopyTargets in js
    ensures LooseTree(Root(o)) == LooseTree(Root(q)) && (Thin(Root(o)) ==> o == q)
  {
    hide State, Basic, LooseTree, Thin, RunPass, Rounds;
    var i := Runs.EndReached(ks, fm, m, o, 0);
    var j := Runs.EndReached(js, fm, m, q, 0);
    SchedulesAgree(Runs.Turns(ks), Runs.Turns(js), fm, m, i, j);
  }
}
