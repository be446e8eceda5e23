/** The references pass in place: what is copied is finished, and every copy is progress. */
module Copying {
  import opened Tree
  import opened Names
  import opened Sums
  import opened Measure
  import opened Descent
  import opened Progress
  import opened Access
  import opened References
  import Stability
  import Calls

  // ---- Targets are finished ------------------------------------------------------------------

  lemma {:induction false} FoundIsPrimitive(c: Concat, suffix: Key, down: int)
    ensures AccessConcat(c, suffix, down).Found? ==> Primitive(AccessConcat(c, suffix, down).target)
    decreases |suffix|
  {
    if suffix != [] && |c.parts| == 1 {
      match c.parts[0] {
        case Object(m) =>
          if suffix[0].Name? && suffix[0].name in m { FoundIsPrimitive(m[suffix[0].name], suffix[1..], down - 1); }
        case Array(_, es) =>
          if suffix[0].Index? && suffix[0].index < |es| { FoundIsPrimitive(es[suffix[0].index], suffix[1..], down - 1); }
        case _ =>
      }
    }
  }

  lemma {:induction false} ScopesFindPrimitive(o: Members, prefix: Key, suffix: Key, n: nat)
    requires n <= |prefix| && suffix != []
    ensures AccessScopes(o, prefix, suffix, n).Found? ==> Primitive(AccessScopes(o, prefix, suffix, n).target)
    decreases n
  {
    hide AccessConcat, Primitive;
    var path := prefix[..n] + suffix;
    if path[0].Name? && path[0].name in o { FoundIsPrimitive(o[path[0].name], path[1..], n - 1); }
    if n > 0 { ScopesFindPrimitive(o, prefix, suffix, n - 1); }
  }

  lemma TargetIsPrimitive(o: Members, prefix: Key, ref: seq<RefPart>)
    ensures Resolve(o, prefix, ref).Found? ==> Primitive(Resolve(o, prefix, ref).target)
  {
    hide Primitive, AccessScopes, ResolveKey;
    var k := ResolveKey(o, prefix, ref);
    if k.Known? && prefix != [] && k.value != [] {
      ScopesFindPrimitive(o, prefix[..|prefix| - 1], k.value, |prefix| - 1);
    }
  }

  /** Every concat on the way along `q` has one summand. */
  predicate SingleUntil(c: Concat, q: Pos)
    requires Valid(c, q)
  {
    q == [] || (|c.parts| == 1 && SingleUntil(Child(c, q[0]), q[1..]))
  }

  /** The step that a lookup takes into the only summand. */
  function NextHop(k: KeyPart): Hop {
    if k.Index? then ToElement(0, k.index) else if k.Name? then ToMember(0, k.name) else ToElement(0, 0)
  }

  /** The place that a lookup of the key `k` ends at. */
  function Place(k: Key): Pos {
    if k == [] then [] else [NextHop(k[0])] + Place(k[1..])
  }

  /** A lookup passes through concats with one summand only. */
  lemma {:induction false} FoundAtPlace(c: Concat, suffix: Key, down: int)
    requires AccessConcat(c, suffix, down).Found?
    ensures Valid(c, Place(suffix)) && SingleUntil(c, Place(suffix))
    ensures Get(c, Place(suffix)) == AccessConcat(c, suffix, down).target
    decreases |suffix|
  {
    hide Primitive;
    if suffix != [] {
      var h := NextHop(suffix[0]);
      assert Place(suffix)[1..] == Place(suffix[1..]);
      FoundAtPlace(Child(c, h), suffix[1..], down - 1);
    }
  }

  /** The place in the scope that a search ends in. */
  function ScopePlace(o: Members, prefix: Key, suffix: Key, n: nat): Pos
    requires n <= |prefix| && suffix != []
    decreases n
  {
    if n > 0 && AccessScope(o, prefix[..n] + suffix, n).Missing? then ScopePlace(o, prefix, suffix, n - 1)
    else Place(prefix[..n] + suffix)
  }

  lemma {:induction false} ScopesFindPlace(r: Concat, prefix: Key, suffix: Key, n: nat)
    requires IsRoot(r) && n <= |prefix| && suffix != [] && AccessScopes(MembersOf(r), prefix, suffix, n).Found?
    ensures var q := ScopePlace(MembersOf(r), prefix, suffix, n);
      Valid(r, q) && SingleUntil(r, q) && Get(r, q) == AccessScopes(MembersOf(r), prefix, suffix, n).target
    decreases n
  {
    hide AccessConcat;
    var path := prefix[..n] + suffix;
    if AccessScope(MembersOf(r), path, n).Found? {
      FoundAtPlace(MembersOf(r)[path[0].name], path[1..], n - 1);
      assert Place(path)[1..] == Place(path[1..]) && HasChild(r, ToMember(0, path[0].name));
    } else {
      ScopesFindPlace(r, prefix, suffix, n - 1);
    }
  }

  /** The place of the target that a reference with the key `prefix` is resolved to. */
  function TargetPlace(o: Members, prefix: Key, ref: seq<RefPart>): Pos {
    var k := ResolveKey(o, prefix, ref);
    if k.Known? && k.value != [] && prefix != [] then ScopePlace(o, prefix[..|prefix| - 1], k.value, |prefix| - 1) else []
  }

  /** A finished concat that is reached through single summands is not below a reference's concat. */
  lemma {:induction false} NotBelow(c: Concat, q: Pos, s: Site)
    requires Valid(c, q) && SingleUntil(c, q) && Primitive(Get(c, q)) && Live(c, s)
    ensures !(s.pos <= q)
    decreases |q|
  {
    if s.pos != [] && q != [] && s.pos[0] == q[0] {
      ReplaceBelow(c, s, Null);
      assert s.pos <= q ==> s.pos[1..] <= q[1..];
      NotBelow(Child(c, q[0]), q[1..], Site(s.pos[1..], s.part));
    } else if s.pos == [] && q == [] {
      Stability.PrimitiveHasNoReference(c, s);
    }
  }

  /**
   The assertions around a copy never fail: the target has at most one summand, and the place where
   the lookup finds it is not the concat that holds the reference, nor does it contain that
   concat or lie within it.
   */
  lemma CopyIsSafe(r: Concat, s: Site)
    requires IsRoot(r) && Live(r, s)
    requires Resolve(MembersOf(r), KeyOf(s.pos), ReferenceAt(r, s)).Found?
    ensures var t := Resolve(MembersOf(r), KeyOf(s.pos), ReferenceAt(r, s)).target;
      var q := TargetPlace(MembersOf(r), KeyOf(s.pos), ReferenceAt(r, s));
      && Primitive(t) && |t.parts| <= 1
      && Valid(r, q) && Get(r, q) == t && !(s.pos <= q) && !(q <= s.pos)
      && (forall p | Valid(r, p) && p <= s.pos :: Get(r, p) != t)
      && (forall x :: !Live(t, x))
  {
    hide Resolve, Primitive, Live, AccessScopes, TargetPlace;
    var t := Resolve(MembersOf(r), KeyOf(s.pos), ReferenceAt(r, s)).target;
    TargetIsPrimitive(MembersOf(r), KeyOf(s.pos), ReferenceAt(r, s));
    assert |t.parts| <= 1 by { PrimitiveHasOnePart(t); }
    forall x ensures !Live(t, x) { Stability.PrimitiveHasNoReference(t, x); }
    forall p | Valid(r, p) && p <= s.pos ensures Get(r, p) != t {
      LiveBelow(r, p, s);
    }
    FoundAtTargetPlace(r, KeyOf(s.pos), ReferenceAt(r, s));
    NotBelow(r, TargetPlace(MembersOf(r), KeyOf(s.pos), ReferenceAt(r, s)), s);
  }

  lemma FoundAtTargetPlace(r: Concat, prefix: Key, ref: seq<RefPart>)
    requires IsRoot(r) && Resolve(MembersOf(r), prefix, ref).Found?
    ensures var q := TargetPlace(MembersOf(r), prefix, ref);
      Valid(r, q) && SingleUntil(r, q) && Get(r, q) == Resolve(MembersOf(r), prefix, ref).target
  {
    hide AccessScopes, ResolveKey, ScopePlace;
    ScopesFindPlace(r, prefix[..|prefix| - 1], ResolveKey(MembersOf(r), prefix, ref).value, |prefix| - 1);
  }

  lemma PrimitiveHasOnePart(c: Concat)
    requires Primitive(c)
    ensures |c.parts| <= 1 && forall i | 0 <= i < |c.parts| :: PrimitiveEntry(c.parts[i])
  {
  }

  lemma {:induction false} LiveBelow(c: Concat, p: Pos, s: Site)
    requires Live(c, s) && Valid(c, p) && p <= s.pos
    ensures Live(Get(c, p), Site(s.pos[|p|..], s.part))
    decreases |p|
  {
    if p != [] {
      ReplaceBelow(c, s, Null);
      assert s.pos[1..][|p[1..]|..] == s.pos[|p|..];
      LiveBelow(Child(c, p[0]), p[1..], Site(s.pos[1..], s.part));
    } else {
      assert s.pos[0..] == s.pos;
    }
  }

  // ---- Progress ------------------------------------------------------------------------------

  lemma WithChildCount(c: Concat, h: Hop, d: Concat, k: nat)
    requires HasChild(c, h)
    ensures Count(WithChild(c, h, d), k) + Count(Child(c, h), k) == Count(c, k) + Count(d, k)
  {
    hide CountParts, CountEntry;
    var p := h.part;
    match h {
      case ToMember(_, n) =>
        var m := c.parts[p].members;
        MembersSplit(m, n, k);
        MembersSplit(m[n := d], n, k);
        assert m[n := d] - {n} == m - {n};
        ObjectCount(m, k);
        ObjectCount(m[n := d], k);
        PartCount(c.parts, p, Object(m[n := d]), k);
      case ToElement(_, i) =>
        var f, es := c.parts[p].call, c.parts[p].elements;
        ElementUpdate(f, es, i, d, k);
        PartCount(c.parts, p, Array(f, es[i := d]), k);
    }
  }

  lemma ElementUpdate(f: string, es: seq<Concat>, i: nat, d: Concat, k: nat)
    requires i < |es|
    ensures CountEntry(Array(f, es[i := d]), k) + Count(es[i], k) == CountEntry(Array(f, es), k) + Count(d, k)
  {
    hide Count;
    var w := seq(|es|, x requires 0 <= x < |es| => Count(es[x], k));
    TotalUpdate(w, i, Count(d, k));
    var fs := es[i := d];
    assert w[i := Count(d, k)] == seq(|fs|, x requires 0 <= x < |fs| => Count(fs[x], k));
  }

  lemma PartCount(ps: seq<Entry>, i: nat, e: Entry, k: nat)
    requires i < |ps|
    ensures CountParts(ps[i := e], k) + CountEntry(ps[i], k) == CountParts(ps, k) + CountEntry(e, k)
  {
    hide CountEntry;
    var w := seq(|ps|, x requires 0 <= x < |ps| => CountEntry(ps[x], k));
    TotalUpdate(w, i, CountEntry(e, k));
    var qs := ps[i := e];
    assert w[i := CountEntry(e, k)] == seq(|qs|, x requires 0 <= x < |qs| => CountEntry(qs[x], k));
  }

  lemma {:induction false} ReplaceCount(c: Concat, s: Site, e: Entry, k: nat)
    requires Live(c, s)
    ensures Count(Replace(c, s, e), k) + (if k <= 1 then 1 else 0) == Count(c, k) + CountEntry(e, k)
    decreases |s.pos|
  {
    hide CountParts, CountEntry;
    if s.pos == [] {
      PartCount(c.parts, s.part, e, k);
      ReferenceCount(c.parts[s.part], k);
    } else {
      var h, t := s.pos[0], Site(s.pos[1..], s.part);
      ReplaceBelow(c, s, e);
      ReplaceCount(Child(c, h), t, e, k);
      WithChildCount(c, h, Replace(Child(c, h), t, e), k);
    }
  }

  lemma ReferenceCount(e: Entry, k: nat)
    requires e.Reference?
    ensures CountEntry(e, k) == if k <= 1 then 1 else 0
  {
  }

  lemma ReplaceDescends(r: Concat, s: Site, e: Entry)
    requires Live(r, s) && PrimitiveEntry(e)
    ensures Drops(W(Replace(r, s, e)), W(r))
  {
    hide Count, CountEntry, Replace;
    forall k: nat | k >= 1 ensures Count(Replace(r, s, e), k) + (if k == 1 then 1 else 0) == Count(r, k) {
      ReplaceCount(r, s, e, k);
      Calls.PrimitiveEntryCount(e, k);
    }
    DropsByLevel(W(Replace(r, s, e)), W(r), 1);
  }

  lemma VisitAdvances(r: Concat, s: Site)
    requires IsRoot(r) && Live(r, s) && Visit(r, s).Ok?
    ensures IsRoot(Visit(r, s).value) && Advances(r, Visit(r, s).value)
  {
    hide Resolve, Drops;
    Stability.VisitIsSteady(r, s);
    var t := Resolve(MembersOf(r), KeyOf(s.pos), ReferenceAt(r, s));
    if t.Found? && t.target.parts != [] {
      TargetIsPrimitive(MembersOf(r), KeyOf(s.pos), ReferenceAt(r, s));
      PrimitiveHasOnePart(t.target);
      ReplaceDescends(r, s, t.target.parts[0]);
    }
  }

  lemma {:induction false} VisitsAdvance(r: Concat, sites: seq<Site>)
    requires IsRoot(r) && VisitAll(r, sites).Ok?
    ensures IsRoot(VisitAll(r, sites).value) && Advances(r, VisitAll(r, sites).value)
    decreases |sites|
  {
    hide Visit, Advances;
    if sites == [] {
      assert Advances(r, r) by { NoChangeAdvances(r); }
    } else {
      VisitAdvances(r, sites[0]);
      var v := Visit(r, sites[0]).value;
      VisitsAdvance(v, sites[1..]);
      AdvancesTransitive(r, v, VisitAll(r, sites).value);
    }
  }

  lemma NoChangeAdvances(c: Concat)
    ensures Advances(c, c)
  {
  }

  /** A visit throws exactly when the lookup fails, and overwrites exactly when there is something to copy. */
  lemma VisitDecides(r: Concat, s: Site)
    requires IsRoot(r) && Live(r, s)
    ensures var t := Resolve(MembersOf(r), KeyOf(s.pos), ReferenceAt(r, s));
      && (Visit(r, s).Err? <==> t.Failed?)
      && (t.Failed? ==> Visit(r, s) == Err(t.error))
      && (Visit(r, s).Ok? && Visit(r, s).value != r <==> t.Found? && t.target.parts != [])
      && (t.Found? && t.target.parts != [] ==> Visit(r, s) == Ok(Replace(r, s, t.target.parts[0])))
  {
    hide Resolve, Primitive, Replace, Live;
    var t := Resolve(MembersOf(r), KeyOf(s.pos), ReferenceAt(r, s));
    if t.Found? && t.target.parts != [] {
      TargetIsPrimitive(MembersOf(r), KeyOf(s.pos), ReferenceAt(r, s));
      PrimitiveHasOnePart(t.target);
      ReplaceDescends(r, s, t.target.parts[0]);
      DropsIsChange(r, Replace(r, s, t.target.parts[0]));
    }
  }

  /** The pass reports no change only if no reference of the tree can be replaced. */
  lemma {:induction false} UnchangedMeansBlocked(r: Concat, sites: seq<Site>)
    requires IsRoot(r) && VisitAll(r, sites) == Ok(r)
    ensures forall s | s in sites :: Live(r, s) && Visit(r, s) == Ok(r)
    decreases |sites|
  {
    hide Visit, Live, Advances;
    if sites != [] {
      VisitAdvances(r, sites[0]);
      var v := Visit(r, sites[0]).value;
      VisitsAdvance(v, sites[1..]);
      AdvancesTransitive(r, v, r);
      UnchangedMeansBlocked(r, sites[1..]);
    }
  }

  // ---- The pass in place ---------------------------------------------------------------------

  function Under(pos: Pos, sites: seq<Site>): seq<Site> {
    seq(|sites|, i requires 0 <= i < |sites| => Site(pos + sites[i].pos, sites[i].part))
  }

  lemma UnderSplit(pos: Pos, a: seq<Site>, b: seq<Site>)
    ensures Under(pos, a + b) == Under(pos, a) + Under(pos, b)
    ensures Under(pos, []) == []
  {
  }

  lemma UnderBelow(pos: Pos, h: Hop, sites: seq<Site>)
    ensures Under(pos, Below(h, sites)) == Under(pos + [h], sites)
  {
    assert forall p: Pos :: pos + ([h] + p) == pos + [h] + p;
  }

  function Then(r: Result<Concat>, sites: seq<Site>): Result<Concat> {
    if r.Ok? then VisitAll(r.value, sites) else r
  }

  lemma {:induction false} VisitAllSplit(r: Concat, a: seq<Site>, b: seq<Site>)
    ensures VisitAll(r, a + b) == Then(VisitAll(r, a), b)
    decreases |a|
  {
    hide Visit, Live;
    if a == [] {
      assert a + b == b;
    } else {
      assert (a + b)[0] == a[0] && (a + b)[1..] == a[1..] + b;
      if IsRoot(r) && Live(r, a[0]) && Visit(r, a[0]).Ok? {
        VisitAllSplit(Visit(r, a[0]).value, a[1..], b);
      }
    }
  }

  lemma {:induction false} PutBelow(c: Concat, pos: Pos, h: Hop, d: Concat)
    requires Valid(c, pos) && HasChild(Get(c, pos), h)
    ensures Valid(c, pos + [h]) && Get(c, pos + [h]) == Child(Get(c, pos), h)
    ensures Put(c, pos + [h], d) == Put(c, pos, WithChild(Get(c, pos), h, d))
    decreases |pos|
  {
    hide HasChild, Child, WithChild;
    if pos == [] {
      assert [] + [h] == [h] && [h][1..] == [];
    } else {
      assert (pos + [h])[0] == pos[0] && (pos + [h])[1..] == pos[1..] + [h];
      PutBelow(Child(c, pos[0]), pos[1..], h, d);
    }
  }

  lemma {:induction false} PutTwice(c: Concat, pos: Pos, d: Concat, e: Concat)
    requires Valid(c, pos)
    ensures Valid(Put(c, pos, d), pos) && Put(Put(c, pos, d), pos, e) == Put(c, pos, e)
    ensures Put(c, pos, Get(c, pos)) == c
    decreases |pos|
  {
    if pos != [] {
      var h := pos[0];
      PutTwice(Child(c, h), pos[1..], d, e);
      WithChildTwice(c, h, Put(Child(c, h), pos[1..], d), Put(Child(c, h), pos[1..], e));
    }
  }

  lemma WithChildTwice(c: Concat, h: Hop, d: Concat, e: Concat)
    requires HasChild(c, h)
    ensures WithChild(WithChild(c, h, d), h, e) == WithChild(c, h, e)
    ensures WithChild(c, h, Child(c, h)) == c
  {
    match h {
      case ToMember(p, n) =>
        var m := c.parts[p].members;
        assert m[n := d][n := e] == m[n := e] && m[n := m[n]] == m;
        assert c.parts[p := Object(m[n := d])][p := Object(m[n := e])] == c.parts[p := Object(m[n := e])];
      case ToElement(p, i) =>
        var f, es := c.parts[p].call, c.parts[p].elements;
        assert es[i := d][i := e] == es[i := e] && es[i := es[i]] == es;
        assert c.parts[p := Array(f, es[i := d])][p := Array(f, es[i := e])] == c.parts[p := Array(f, es[i := e])];
    }
  }

  lemma PutRoot(r: Concat, pos: Pos, d: Concat)
    requires IsRoot(r) && Valid(r, pos) && pos != []
    ensures IsRoot(Put(r, pos, d))
  {
  }

  function Outcome(r: Result<()>, root: Concat): Result<Concat> {
    if r.Ok? then Ok(root) else Err(r.error)
  }

  /** From `a` to `b` only the subtree at `pos` has changed, and every change was counted. */
  ghost predicate OnlyBelow(a: Concat, m: nat, b: Concat, n: nat, pos: Pos) {
    && IsRoot(a) && Valid(a, pos)
    && IsRoot(b) && Valid(b, pos)
    && b == Put(a, pos, Get(b, pos))
    && n >= m && Advances(a, b) && (n == m <==> b == a)
  }

  predicate OnlyPart(c: Concat, d: Concat, i: nat) {
    |d.parts| == |c.parts| && forall j | 0 <= j < |c.parts| && j != i :: d.parts[j] == c.parts[j]
  }

  lemma NothingDone(a: Concat, m: nat, pos: Pos)
    requires IsRoot(a) && Valid(a, pos)
    ensures OnlyBelow(a, m, a, m, pos)
  {
    PutTwice(a, pos, a, a);
  }

  lemma DoneChain(a: Concat, l: nat, b: Concat, m: nat, c: Concat, n: nat, pos: Pos)
    requires OnlyBelow(a, l, b, m, pos) && OnlyBelow(b, m, c, n, pos)
    ensures OnlyBelow(a, l, c, n, pos)
  {
    hide Advances, Put, Get, Valid;
    PutTwice(a, pos, Get(b, pos), Get(c, pos));
    AdvancesTransitive(a, b, c);
  }

  lemma ReplaceIsLocal(a: Concat, m: nat, pos: Pos, i: nat, e: Entry)
    requires IsRoot(a) && Live(a, Site(pos, i)) && pos != [] && PrimitiveEntry(e)
    ensures Valid(Replace(a, Site(pos, i), e), pos)
    ensures Get(Replace(a, Site(pos, i), e), pos) == Get(a, pos).(parts := Get(a, pos).parts[i := e])
    ensures OnlyBelow(a, m, Replace(a, Site(pos, i), e), m + 1, pos)
  {
    hide Count, Drops;
    var f := Get(a, pos);
    var d := f.(parts := f.parts[i := e]);
    GetPut(a, pos, d);
    PutRoot(a, pos, d);
    ReplaceDescends(a, Site(pos, i), e);
    DropsIsChange(a, Replace(a, Site(pos, i), e));
  }

  /** The visits of the summands from `i` on, split after the first of them. */
  lemma SitesStep(c: Concat, i: nat, pos: Pos, root: Concat)
    requires i < |c.parts|
    ensures VisitAll(root, Under(pos, SitesFrom(c, i)))
         == Then(VisitAll(root, Under(pos, SitesAt(c, i))), Under(pos, SitesFrom(c, i + 1)))
  {
    hide SitesAt, VisitAll;
    UnderSplit(pos, SitesAt(c, i), SitesFrom(c, i + 1));
    VisitAllSplit(root, Under(pos, SitesAt(c, i)), Under(pos, SitesFrom(c, i + 1)));
  }

  lemma NoVisits(pos: Pos, root: Concat)
    ensures VisitAll(root, Under(pos, [])) == Ok(root)
  {
  }

  lemma VisitOne(root: Concat, pos: Pos, i: nat)
    requires IsRoot(root) && Live(root, Site(pos, i))
    ensures VisitAll(root, Under(pos, [Site([], i)])) == Visit(root, Site(pos, i))
  {
    hide Visit;
    assert pos + [] == pos && Under(pos, [Site([], i)]) == [Site(pos, i)] && [Site(pos, i)][1..] == [];
    assert VisitAll(root, [Site(pos, i)]) == if Visit(root, Site(pos, i)).Ok? then VisitAll(Visit(root, Site(pos, i)).value, []) else Visit(root, Site(pos, i));
  }

  lemma {:induction false} ElementSitesOfSame(c: Concat, d: Concat, i: nat, j: nat)
    requires i < |c.parts| && i < |d.parts| && c.parts[i] == d.parts[i] && c.parts[i].Array? && j <= |c.parts[i].elements|
    ensures SitesOfElements(c, i, j) == SitesOfElements(d, i, j)
    decreases |c.parts[i].elements| - j
  {
    hide SitesOf;
    if j < |c.parts[i].elements| { ElementSitesOfSame(c, d, i, j + 1); }
  }

  lemma {:induction false} MemberSitesOfSame(c: Concat, d: Concat, i: nat, names: seq<string>)
    requires i < |c.parts| && i < |d.parts| && c.parts[i] == d.parts[i] && c.parts[i].Object?
    requires forall n | n in names :: n in c.parts[i].members
    ensures SitesOfMembers(c, i, names) == SitesOfMembers(d, i, names)
    decreases |names|
  {
    hide SitesOf;
    if names != [] { MemberSitesOfSame(c, d, i, names[1..]); }
  }

  lemma SitesAtSame(c: Concat, d: Concat, i: nat)
    requires i < |c.parts| && i < |d.parts| && c.parts[i] == d.parts[i]
    ensures SitesAt(c, i) == SitesAt(d, i)
  {
    hide SitesOfElements, SitesOfMembers;
    if c.parts[i].Array? { ElementSitesOfSame(c, d, i, 0); }
    if c.parts[i].Object? { MemberSitesOfSame(c, d, i, Sorted(c.parts[i].members.Keys)); }
  }

  /** The next child: its visits come first, and they change only the subtree at `pos`. */
  lemma ChildStep(root: Concat, pos: Pos, h: Hop, d: Concat, rest: seq<Site>)
    requires Valid(root, pos) && HasChild(Get(root, pos), h) && d == Child(Get(root, pos), h)
    ensures Valid(root, pos + [h]) && Get(root, pos + [h]) == d
    ensures VisitAll(root, Under(pos, Below(h, SitesOf(d)) + rest))
         == Then(VisitAll(root, Under(pos + [h], SitesOf(d))), Under(pos, rest))
  {
    hide SitesOf, VisitAll, Get, Valid;
    PutBelow(root, pos, h, d);
    UnderSplit(pos, Below(h, SitesOf(d)), rest);
    UnderBelow(pos, h, SitesOf(d));
    VisitAllSplit(root, Under(pos + [h], SitesOf(d)), Under(pos, rest));
  }

  lemma ChildDone(a: Concat, m: nat, b: Concat, n: nat, pos: Pos, h: Hop)
    requires Valid(a, pos) && HasChild(Get(a, pos), h) && OnlyBelow(a, m, b, n, pos + [h])
    ensures OnlyBelow(a, m, b, n, pos)
    ensures Get(b, pos) == WithChild(Get(a, pos), h, Get(b, pos + [h]))
  {
    hide Advances, HasChild, Child, WithChild;
    var d := Get(b, pos + [h]);
    PutBelow(a, pos, h, d);
    GetPut(a, pos, WithChild(Get(a, pos), h, d));
  }

  class Phase2References {
    var root: Concat
    var changes: nat

    constructor (o: Members)
      ensures root == Root(o) && changes == 0
    {
      root, changes := Root(o), 0;
    }

    method Process() returns (r: Result<nat>)
      requires IsRoot(root) && changes == 0
      modifies this
      ensures ReferencesPass(old(root)) == if r.Ok? then Ok(root) else Err(r.error)
      ensures r.Ok? ==> IsRoot(root) && r.value == changes && (changes == 0 <==> root == old(root))
    {
      RootSites(root);
      var d := ProcessMembers([], 0);
      if d.Err? { return Err(d.error); }
      r := Ok(changes);
    }

    /** The loop over the summands of the concat at `pos`, in the tree as it is at each turn. */
    method ProcessConcat(pos: Pos) returns (r: Result<()>)
      requires IsRoot(root) && Valid(root, pos) && pos != []
      modifies this
      ensures VisitAll(old(root), Under(pos, SitesOf(Get(old(root), pos)))) == Outcome(r, root)
      ensures r.Ok? ==> OnlyBelow(old(root), old(changes), root, changes, pos)
      decreases Get(root, pos), 1
    {
      hide VisitAll, Visit, SitesFrom, SitesAt, Put, Advances, Resolve, Replace, Under;
      ghost var c := Get(root, pos);
      var i: nat := 0;
      NothingDone(root, changes, pos);
      while i < |Get(root, pos).parts|
        invariant i <= |c.parts|
        invariant OnlyBelow(old(root), old(changes), root, changes, pos)
        invariant |Get(root, pos).parts| == |c.parts|
        invariant forall j | i <= j < |c.parts| :: Get(root, pos).parts[j] == c.parts[j]
        invariant VisitAll(old(root), Under(pos, SitesFrom(c, 0))) == VisitAll(root, Under(pos, SitesFrom(c, i)))
        decreases |c.parts| - i
      {
        ghost var before, count := root, changes;
        SitesStep(c, i, pos, root);
        SitesAtSame(c, Get(root, pos), i);
        var d := ProcessPart(pos, i);
        if d.Err? { return d; }
        DoneChain(old(root), old(changes), before, count, root, changes, pos);
        i := i + 1;
      }
      SitesEnd(c, pos, root);
      r := Ok(());
    }

    method ProcessPart(pos: Pos, i: nat) returns (r: Result<()>)
      requires IsRoot(root) && Valid(root, pos) && pos != [] && i < |Get(root, pos).parts|
      modifies this
      ensures VisitAll(old(root), Under(pos, SitesAt(Get(old(root), pos), i))) == Outcome(r, root)
      ensures r.Ok? ==> OnlyBelow(old(root), old(changes), root, changes, pos)
      ensures r.Ok? ==> OnlyPart(Get(old(root), pos), Get(root, pos), i)
      decreases Get(root, pos).parts[i], 1
    {
      hide VisitAll, SitesFrom, SitesOfElements, SitesOfMembers, Put, Advances, Resolve, Under;
      NothingDone(root, changes, pos);
      NoVisits(pos, root);
      match Get(root, pos).parts[i] {
        case Reference(ref) =>
          VisitOne(root, pos, i);
          var t := Resolve(MembersOf(root), KeyOf(pos), ref);
          match t {
            case Failed(e) => return Err(e);
            case Found(d) =>
              if d.parts != [] {
                TargetIsPrimitive(MembersOf(root), KeyOf(pos), ref);
                PrimitiveHasOnePart(d);
                ReplaceIsLocal(root, changes, pos, i, d.parts[0]);
                var f := Get(root, pos);
                root := Put(root, pos, f.(parts := f.parts[i := d.parts[0]]));
                changes := changes + 1;
              }
            case _ =>
          }
          r := Ok(());
        case Array(_, _) =>
          r := ProcessElements(pos, i);
        case Object(_) =>
          r := ProcessMembers(pos, i);
        case _ =>
          r := Ok(());
      }
    }

    method ProcessElements(pos: Pos, i: nat) returns (r: Result<()>)
      requires IsRoot(root) && Valid(root, pos)
      requires i < |Get(root, pos).parts| && Get(root, pos).parts[i].Array?
      modifies this
      ensures VisitAll(old(root), Under(pos, SitesOfElements(Get(old(root), pos), i, 0))) == Outcome(r, root)
      ensures r.Ok? ==> OnlyBelow(old(root), old(changes), root, changes, pos)
      ensures r.Ok? ==> OnlyPart(Get(old(root), pos), Get(root, pos), i)
      decreases Get(root, pos).parts[i], 0
    {
      hide VisitAll, SitesOf, Put, Advances, Under, Get, Valid, OnlyBelow, Below;
      ghost var c := Get(root, pos);
      ghost var es := c.parts[i].elements;
      NothingDone(root, changes, pos);
      var j: nat := 0;
      while j < |Get(root, pos).parts[i].elements|
        invariant IsRoot(root) && Valid(root, pos)
        invariant OnlyBelow(old(root), old(changes), root, changes, pos)
        invariant OnlyPart(c, Get(root, pos), i)
        invariant Get(root, pos).parts[i].Array? && |Get(root, pos).parts[i].elements| == |es| && j <= |es|
        invariant forall k | j <= k < |es| :: Get(root, pos).parts[i].elements[k] == es[k]
        invariant VisitAll(old(root), Under(pos, SitesOfElements(c, i, 0)))
               == VisitAll(root, Under(pos, SitesOfElements(c, i, j)))
        decreases |es| - j
      {
        ghost var before, count := root, changes;
        ghost var h := ToElement(i, j);
        ChildStep(root, pos, h, es[j], SitesOfElements(c, i, j + 1));
        assert pos + [ToElement(i, j)] != [];
        var d := ProcessConcat(pos + [ToElement(i, j)]);
        if d.Err? { return d; }
        ChildDone(before, count, root, changes, pos, h);
        DoneChain(old(root), old(changes), before, count, root, changes, pos);
        OnlyBelowValid(old(root), old(changes), root, changes, pos);
        j := j + 1;
      }
      NoVisits(pos, root);
      r := Ok(());
    }

    method ProcessMembers(pos: Pos, i: nat) returns (r: Result<()>)
      requires IsRoot(root) && Valid(root, pos)
      requires i < |Get(root, pos).parts| && Get(root, pos).parts[i].Object?
      modifies this
      ensures VisitAll(old(root), Under(pos, SitesOfMembers(Get(old(root), pos), i, Sorted(Get(old(root), pos).parts[i].members.Keys)))) == Outcome(r, root)
      ensures r.Ok? ==> OnlyBelow(old(root), old(changes), root, changes, pos)
      ensures r.Ok? ==> OnlyPart(Get(old(root), pos), Get(root, pos), i)
      decreases Get(root, pos).parts[i], 0
    {
      hide VisitAll, SitesOf, Put, Advances, Under, Get, Valid, OnlyBelow, Sorted, LexLe, Below;
      ghost var c := Get(root, pos);
      ghost var m := c.parts[i].members;
      NothingDone(root, changes, pos);
      var todo := Sorted(Get(root, pos).parts[i].members.Keys);
      while todo != []
        invariant IsRoot(root) && Valid(root, pos)
        invariant OnlyBelow(old(root), old(changes), root, changes, pos)
        invariant OnlyPart(c, Get(root, pos), i)
        invariant Get(root, pos).parts[i].Object? && Get(root, pos).parts[i].members.Keys == m.Keys
        invariant forall n | n in todo :: n in m && Get(root, pos).parts[i].members[n] == m[n]
        invariant forall j, k | 0 <= j < k < |todo| :: todo[j] != todo[k]
        invariant VisitAll(old(root), Under(pos, SitesOfMembers(c, i, Sorted(m.Keys))))
               == VisitAll(root, Under(pos, SitesOfMembers(c, i, todo)))
        decreases |todo|
      {
        ghost var before, count := root, changes;
        var n := todo[0];
        ghost var h := ToMember(i, n);
        ChildStep(root, pos, h, m[n], SitesOfMembers(c, i, todo[1..]));
        assert pos + [ToMember(i, n)] != [];
        var d := ProcessConcat(pos + [ToMember(i, n)]);
        if d.Err? { return d; }
        ChildDone(before, count, root, changes, pos, h);
        DoneChain(old(root), old(changes), before, count, root, changes, pos);
        OnlyBelowValid(old(root), old(changes), root, changes, pos);
        assert n !in todo[1..];
        todo := todo[1..];
      }
      NoVisits(pos, root);
      r := Ok(());
    }
  }

  lemma OnlyBelowValid(a: Concat, m: nat, b: Concat, n: nat, pos: Pos)
    requires OnlyBelow(a, m, b, n, pos)
    ensures IsRoot(b) && Valid(b, pos)
  {
  }

  lemma SitesEnd(c: Concat, pos: Pos, root: Concat)
    ensures VisitAll(root, Under(pos, SitesFrom(c, |c.parts|))) == Ok(root)
    ensures SitesOf(c) == SitesFrom(c, 0)
  {
    NoVisits(pos, root);
  }

  lemma RootSites(r: Concat)
    requires IsRoot(r)
    ensures Under([], SitesOfMembers(r, 0, Sorted(MembersOf(r).Keys))) == SitesOf(r)
  {
    hide SitesOfMembers;
    var sites := SitesOfMembers(r, 0, Sorted(MembersOf(r).Keys));
    assert SitesFrom(r, 1) == [] && SitesAt(r, 0) == sites;
    assert SitesOf(r) == sites + [];
    assert forall p: Pos :: [] + p == p;
    assert forall s: Site :: Site([] + s.pos, s.part) == s;
  }
}
