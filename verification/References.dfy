/** The references pass of phase 2: a reference is overwritten with a copy of its target. */
module References {
  import opened Tree
  import opened Names
  import opened Access

  // ---- From a reference to its target --------------------------------------------------------

  datatype Resolved<T> = Known(value: T) | Unready | Bad(error: Error)

  function ResolvePart(o: Members, prefix: Key, part: RefPart): Resolved<KeyPart>
    decreases part
  {
    match part
    case RefName(n) => Known(Name(n))
    case RefIndex(i) => Known(Index(i))
    case RefInner(inner) =>
      match Resolve(o, prefix, inner)
      case Found(c) =>
        if |c.parts| != 1 then Unready
        else (
          match c.parts[0]
          case Text(s) => Known(Name(s))
          case Unsigned(u) => Known(Index(u))
          case _ => Bad(InvalidReferencePart))
      case Missing => Unready
      case Waiting => Unready
      case Failed(e) => Bad(e)
  }

  function ResolveKey(o: Members, prefix: Key, ref: seq<RefPart>): Resolved<Key>
    decreases ref, 0
  {
    if ref == [] then Known([])
    else
      match ResolvePart(o, prefix, ref[0])
      case Known(k) => (
        match ResolveKey(o, prefix, ref[1..])
        case Known(ks) => Known([k] + ks)
        case Unready => Unready
        case Bad(e) => Bad(e))
      case Unready => Unready
      case Bad(e) => Bad(e)
  }

  /** The target of a reference that stands at `prefix`. */
  function Resolve(o: Members, prefix: Key, ref: seq<RefPart>): Lookup
    decreases ref, 1
  {
    match ResolveKey(o, prefix, ref)
    case Known(suffix) =>
      if prefix == [] || suffix == [] then Failed(AssertionFailed)
      else Access.Access(o, prefix[..|prefix| - 1], suffix)
    case Unready => Missing
    case Bad(e) => Failed(e)
  }

  /** A key up to and from one of its parts. */
  lemma {:induction false} KeyAround(o: Members, prefix: Key, a: seq<RefPart>, x: RefPart, b: seq<RefPart>)
    ensures ResolveKey(o, prefix, a).Known? ==>
      ResolveKey(o, prefix, a + [x] + b) ==
      match ResolvePart(o, prefix, x)
      case Known(k) => (
        match ResolveKey(o, prefix, b)
        case Known(ks) => Known(ResolveKey(o, prefix, a).value + [k] + ks)
        case Unready => Unready
        case Bad(e) => Bad(e))
      case Unready => Unready
      case Bad(e) => Bad(e)
    ensures ResolveKey(o, prefix, a).Unready? ==> ResolveKey(o, prefix, a + [x] + b).Unready?
    ensures ResolveKey(o, prefix, a).Bad? ==> ResolveKey(o, prefix, a + [x] + b) == Bad(ResolveKey(o, prefix, a).error)
    decreases |a|
  {
    hide ResolvePart;
    var k, ks := ResolvePart(o, prefix, x), ResolveKey(o, prefix, b);
    if a == [] {
      assert a + [x] + b == [x] + b && ([x] + b)[1..] == b;
      if k.Known? && ks.Known? { assert [] + [k.value] + ks.value == [k.value] + ks.value; }
    } else {
      assert (a + [x] + b)[0] == a[0] && (a + [x] + b)[1..] == a[1..] + [x] + b;
      KeyAround(o, prefix, a[1..], x, b);
      var h, t := ResolvePart(o, prefix, a[0]), ResolveKey(o, prefix, a[1..]);
      if h.Known? && t.Known? && k.Known? && ks.Known? {
        assert [h.value] + (t.value + [k.value] + ks.value) == [h.value] + t.value + [k.value] + ks.value;
      }
    }
  }

  /**
   A nested reference stands for the name or the index that it denotes, wherever it occurs.  While
   it has no target the whole reference waits; a target that is neither is an error.
   */
  lemma NestedReference(o: Members, prefix: Key, a: seq<RefPart>, inner: seq<RefPart>, b: seq<RefPart>)
    ensures var t, ref := Resolve(o, prefix, inner), a + [RefInner(inner)] + b;
      && (t.Found? && |t.target.parts| == 1 && t.target.parts[0].Text? ==>
            Resolve(o, prefix, ref) == Resolve(o, prefix, a + [RefName(t.target.parts[0].chars)] + b))
      && (t.Found? && |t.target.parts| == 1 && t.target.parts[0].Unsigned? ==>
            Resolve(o, prefix, ref) == Resolve(o, prefix, a + [RefIndex(t.target.parts[0].u)] + b))
      && (ResolveKey(o, prefix, a).Known? ==>
            && (t.Found? && |t.target.parts| == 1 && !t.target.parts[0].Text? && !t.target.parts[0].Unsigned? ==>
                  Resolve(o, prefix, ref) == Failed(InvalidReferencePart))
            && (t.Missing? || t.Waiting? || (t.Found? && |t.target.parts| != 1) ==> Resolve(o, prefix, ref) == Missing)
            && (t.Failed? ==> Resolve(o, prefix, ref) == Failed(t.error)))
  {
    hide ResolveKey, Access.Access;
    var t := Resolve(o, prefix, inner);
    KeyAround(o, prefix, a, RefInner(inner), b);
    if t.Found? && |t.target.parts| == 1 {
      if t.target.parts[0].Text? { KeyAround(o, prefix, a, RefName(t.target.parts[0].chars), b); }
      if t.target.parts[0].Unsigned? { KeyAround(o, prefix, a, RefIndex(t.target.parts[0].u), b); }
    }
  }

  // ---- Positions -----------------------------------------------------------------------------

  /** One step down: into a member or an element of a given summand. */
  datatype Hop = ToMember(part: nat, name: string) | ToElement(part: nat, index: nat)

  type Pos = seq<Hop>

  predicate HasChild(c: Concat, h: Hop) {
    h.part < |c.parts| &&
    match h
    case ToMember(p, n) => c.parts[p].Object? && n in c.parts[p].members
    case ToElement(p, i) => c.parts[p].Array? && i < |c.parts[p].elements|
  }

  function Child(c: Concat, h: Hop): (d: Concat)
    requires HasChild(c, h)
    ensures d < c
  {
    match h
    case ToMember(p, n) => c.parts[p].members[n]
    case ToElement(p, i) => c.parts[p].elements[i]
  }

  function WithChild(c: Concat, h: Hop, d: Concat): (r: Concat)
    requires HasChild(c, h)
    ensures HasChild(r, h) && Child(r, h) == d
    ensures forall g | HasChild(c, g) :: HasChild(r, g) && (g != h ==> Child(r, g) == Child(c, g))
    ensures |r.parts| == |c.parts| && forall p | 0 <= p < |c.parts| && p != h.part :: r.parts[p] == c.parts[p]
  {
    match h
    case ToMember(p, n) => c.(parts := c.parts[p := Object(c.parts[p].members[n := d])])
    case ToElement(p, i) => c.(parts := c.parts[p := Array(c.parts[p].call, c.parts[p].elements[i := d])])
  }

  predicate Valid(c: Concat, pos: Pos) {
    pos == [] || (HasChild(c, pos[0]) && Valid(Child(c, pos[0]), pos[1..]))
  }

  function Get(c: Concat, pos: Pos): Concat
    requires Valid(c, pos)
  {
    if pos == [] then c else Get(Child(c, pos[0]), pos[1..])
  }

  function Put(c: Concat, pos: Pos, d: Concat): Concat
    requires Valid(c, pos)
  {
    if pos == [] then d else WithChild(c, pos[0], Put(Child(c, pos[0]), pos[1..], d))
  }

  function KeyOf(pos: Pos): Key {
    if pos == [] then []
    else [if pos[0].ToMember? then Name(pos[0].name) else Index(pos[0].index)] + KeyOf(pos[1..])
  }

  // ---- The places of the references ----------------------------------------------------------

  datatype Site = Site(pos: Pos, part: nat)

  predicate Live(c: Concat, s: Site) {
    Valid(c, s.pos) && s.part < |Get(c, s.pos).parts| && Get(c, s.pos).parts[s.part].Reference?
  }

  function ReferenceAt(c: Concat, s: Site): seq<RefPart>
    requires Live(c, s)
  {
    Get(c, s.pos).parts[s.part].target
  }

  function Replace(c: Concat, s: Site, e: Entry): Concat
    requires Live(c, s)
  {
    var d := Get(c, s.pos);
    Put(c, s.pos, d.(parts := d.parts[s.part := e]))
  }

  function Below(h: Hop, sites: seq<Site>): seq<Site> {
    seq(|sites|, i requires 0 <= i < |sites| => Site([h] + sites[i].pos, sites[i].part))
  }

  /** All references that the pass visits, in the order in which it visits them. */
  function SitesOf(c: Concat): seq<Site>
    decreases c, 2, 0
  {
    SitesFrom(c, 0)
  }

  function SitesFrom(c: Concat, i: nat): seq<Site>
    requires i <= |c.parts|
    decreases c, 1, |c.parts| - i
  {
    if i == |c.parts| then [] else SitesAt(c, i) + SitesFrom(c, i + 1)
  }

  function SitesAt(c: Concat, i: nat): seq<Site>
    requires i < |c.parts|
    decreases c, 0, 1, 0
  {
    match c.parts[i]
    case Reference(_) => [Site([], i)]
    case Array(_, es) => SitesOfElements(c, i, 0)
    case Object(m) => SitesOfMembers(c, i, Sorted(m.Keys))
    case _ => []
  }

  function SitesOfElements(c: Concat, i: nat, j: nat): seq<Site>
    requires i < |c.parts| && c.parts[i].Array? && j <= |c.parts[i].elements|
    decreases c, 0, 0, |c.parts[i].elements| - j
  {
    if j == |c.parts[i].elements| then []
    else Below(ToElement(i, j), SitesOf(c.parts[i].elements[j])) + SitesOfElements(c, i, j + 1)
  }

  function SitesOfMembers(c: Concat, i: nat, names: seq<string>): seq<Site>
    requires i < |c.parts| && c.parts[i].Object? && forall n | n in names :: n in c.parts[i].members
    decreases c, 0, 0, |names|
  {
    if names == [] then []
    else Below(ToMember(i, names[0]), SitesOf(c.parts[i].members[names[0]])) + SitesOfMembers(c, i, names[1..])
  }

  // ---- The pass ------------------------------------------------------------------------------

  predicate IsRoot(r: Concat) {
    |r.parts| == 1 && r.parts[0].Object?
  }

  function MembersOf(r: Concat): Members
    requires IsRoot(r)
  {
    r.parts[0].members
  }

  /** The visit of one reference, in the tree as it is at that moment. */
  function Visit(r: Concat, s: Site): (d: Result<Concat>)
    requires IsRoot(r) && Live(r, s)
  {
    match Resolve(MembersOf(r), KeyOf(s.pos), ReferenceAt(r, s))
    case Found(t) => if t.parts == [] then Ok(r) else Ok(Replace(r, s, t.parts[0]))
    case Failed(e) => Err(e)
    case _ => Ok(r)
  }

  lemma {:induction false} GetPut(c: Concat, pos: Pos, d: Concat)
    requires Valid(c, pos)
    ensures Valid(Put(c, pos, d), pos) && Get(Put(c, pos, d), pos) == d
  {
    if pos != [] {
      GetPut(Child(c, pos[0]), pos[1..], d);
    }
  }

  /** Overwriting one reference leaves every other reference in place. */
  lemma {:induction false} ReplaceKeeps(c: Concat, s: Site, e: Entry, t: Site)
    requires Live(c, s) && Live(c, t) && s != t
    ensures Live(Replace(c, s, e), t) && ReferenceAt(Replace(c, s, e), t) == ReferenceAt(c, t)
    decreases |s.pos|
  {
    hide HasChild, Child, WithChild;
    if s.pos == [] {
      if t.pos != [] {
        ReferenceHasNoChild(c, s.part, t.pos[0]);
        ChildOfOther(c, s.part, e, t.pos[0]);
      }
    } else {
      var h := s.pos[0];
      var a := Site(s.pos[1..], s.part);
      ReplaceBelow(c, s, e);
      if t.pos == [] {
        ReferenceHasNoChild(c, t.part, h);
      } else if t.pos[0] == h {
        var b := Site(t.pos[1..], t.part);
        assert s.pos == [h] + a.pos && t.pos == [h] + b.pos;
        assert a != b;
        ReplaceKeeps(Child(c, h), a, e, b);
      }
    }
  }

  lemma ReferenceHasNoChild(c: Concat, p: nat, h: Hop)
    requires p < |c.parts| && c.parts[p].Reference? && HasChild(c, h)
    ensures h.part != p
  {
  }

  lemma ChildOfOther(c: Concat, p: nat, e: Entry, h: Hop)
    requires p < |c.parts| && h.part != p && HasChild(c, h)
    ensures HasChild(c.(parts := c.parts[p := e]), h) && Child(c.(parts := c.parts[p := e]), h) == Child(c, h)
  {
  }

  lemma ReplaceBelow(c: Concat, s: Site, e: Entry)
    requires Live(c, s) && s.pos != []
    ensures HasChild(c, s.pos[0])
    ensures Live(Child(c, s.pos[0]), Site(s.pos[1..], s.part))
    ensures Replace(c, s, e) == WithChild(c, s.pos[0], Replace(Child(c, s.pos[0]), Site(s.pos[1..], s.part), e))
  {
  }

  // ---- The list of sites ---------------------------------------------------------------------

  predicate Distinct<T(==)>(xs: seq<T>) {
    forall i, j | 0 <= i < j < |xs| :: xs[i] != xs[j]
  }

  /** `s` is a reference in summand `i` of `c`, or below it. */
  predicate LiveIn(c: Concat, i: nat, s: Site) {
    Live(c, s) && if s.pos == [] then s.part == i else s.pos[0].part == i
  }

  lemma BelowLive(c: Concat, h: Hop, sites: seq<Site>)
    requires HasChild(c, h) && Distinct(sites)
    requires forall s | s in sites :: Live(Child(c, h), s)
    requires forall s | Live(Child(c, h), s) :: s in sites
    ensures Distinct(Below(h, sites))
    ensures forall s :: s in Below(h, sites) <==> Live(c, s) && s.pos != [] && s.pos[0] == h
  {
    hide HasChild, Child;
    var b := Below(h, sites);
    forall i, j | 0 <= i < j < |b| ensures b[i] != b[j] {
      assert sites[i] != sites[j];
      assert b[i].pos[1..] == sites[i].pos && b[j].pos[1..] == sites[j].pos;
    }
    forall s ensures s in b <==> Live(c, s) && s.pos != [] && s.pos[0] == h {
      if s in b {
        var i :| 0 <= i < |b| && b[i] == s;
        assert sites[i] in sites && s.pos[1..] == sites[i].pos;
      }
      if Live(c, s) && s.pos != [] && s.pos[0] == h {
        var t := Site(s.pos[1..], s.part);
        assert Live(Child(c, h), t) && t in sites;
        var i :| 0 <= i < |sites| && sites[i] == t;
        assert b[i] == Site([h] + t.pos, t.part) && [h] + t.pos == s.pos;
      }
    }
  }

  lemma DistinctConcat<T>(xs: seq<T>, ys: seq<T>)
    requires Distinct(xs) && Distinct(ys) && forall x | x in xs :: x !in ys
    ensures Distinct(xs + ys)
  {
    var zs := xs + ys;
    forall i, j | 0 <= i < j < |zs| ensures zs[i] != zs[j] {
      if i < |xs| <= j { assert zs[i] in xs && zs[j] in ys; }
    }
  }

  /** The visited sites are exactly the references outside of asterisks, each listed once. */
  lemma {:induction false} SitesAreTheReferences(c: Concat)
    ensures Distinct(SitesOf(c))
    ensures forall s :: s in SitesOf(c) <==> Live(c, s)
    decreases c, 2, 0
  {
    SitesFromAre(c, 0);
    forall s | Live(c, s) ensures LiveIn(c, if s.pos == [] then s.part else s.pos[0].part, s) {
    }
  }

  lemma {:induction false} SitesFromAre(c: Concat, i: nat)
    requires i <= |c.parts|
    ensures Distinct(SitesFrom(c, i))
    ensures forall s :: s in SitesFrom(c, i) <==> Live(c, s) && (if s.pos == [] then s.part else s.pos[0].part) >= i
    decreases c, 1, |c.parts| - i
  {
    hide Live, SitesOf, SitesAt;
    if i < |c.parts| {
      SitesFromAre(c, i + 1);
      SitesAtAre(c, i);
      DistinctConcat(SitesAt(c, i), SitesFrom(c, i + 1));
    } else {
      forall s | Live(c, s) ensures (if s.pos == [] then s.part else s.pos[0].part) < i { LiveBound(c, s); }
    }
  }

  lemma {:induction false} SitesAtAre(c: Concat, i: nat)
    requires i < |c.parts|
    ensures Distinct(SitesAt(c, i)) && forall s :: s in SitesAt(c, i) <==> LiveIn(c, i, s)
    decreases c, 0, 1, 0
  {
    hide Live, LiveIn;
    match c.parts[i] {
      case Reference(_) => OnlyReference(c, i);
      case Array(_, es) => SitesOfElementsAre(c, i, 0); LiveInArray(c, i);
      case Object(m) => SitesOfMembersAre(c, i, Sorted(m.Keys)); LiveInObject(c, i);
      case _ => NothingLive(c, i);
    }
  }

  lemma LiveBound(c: Concat, s: Site)
    requires Live(c, s)
    ensures (if s.pos == [] then s.part else s.pos[0].part) < |c.parts|
  {
  }

  lemma OnlyReference(c: Concat, i: nat)
    requires i < |c.parts| && c.parts[i].Reference?
    ensures forall s :: LiveIn(c, i, s) <==> s == Site([], i)
  {
  }

  lemma NothingLive(c: Concat, i: nat)
    requires i < |c.parts| && !c.parts[i].Reference? && !c.parts[i].Array? && !c.parts[i].Object?
    ensures forall s :: !LiveIn(c, i, s)
  {
  }

  lemma LiveInArray(c: Concat, i: nat)
    requires i < |c.parts| && c.parts[i].Array?
    ensures forall s :: LiveIn(c, i, s) <==>
      Live(c, s) && s.pos != [] && s.pos[0].ToElement? && s.pos[0].part == i && 0 <= s.pos[0].index
  {
  }

  lemma LiveInObject(c: Concat, i: nat)
    requires i < |c.parts| && c.parts[i].Object?
    ensures forall s :: LiveIn(c, i, s) <==>
      Live(c, s) && s.pos != [] && s.pos[0].ToMember? && s.pos[0].part == i && s.pos[0].name in Sorted(c.parts[i].members.Keys)
  {
  }

  lemma {:induction false} SitesOfElementsAre(c: Concat, i: nat, j: nat)
    requires i < |c.parts| && c.parts[i].Array? && j <= |c.parts[i].elements|
    ensures Distinct(SitesOfElements(c, i, j))
    ensures forall s :: s in SitesOfElements(c, i, j) <==>
      Live(c, s) && s.pos != [] && s.pos[0].ToElement? && s.pos[0].part == i && j <= s.pos[0].index
    decreases c, 0, 0, |c.parts[i].elements| - j
  {
    hide SitesOf, Below;
    var es := c.parts[i].elements;
    if j < |es| {
      var h := ToElement(i, j);
      SitesAreTheReferences(es[j]);
      BelowLive(c, h, SitesOf(es[j]));
      SitesOfElementsAre(c, i, j + 1);
      DistinctConcat(Below(h, SitesOf(es[j])), SitesOfElements(c, i, j + 1));
    }
  }

  lemma {:induction false} SitesOfMembersAre(c: Concat, i: nat, names: seq<string>)
    requires i < |c.parts| && c.parts[i].Object? && forall n | n in names :: n in c.parts[i].members
    requires Distinct(names)
    ensures Distinct(SitesOfMembers(c, i, names))
    ensures forall s :: s in SitesOfMembers(c, i, names) <==>
      Live(c, s) && s.pos != [] && s.pos[0].ToMember? && s.pos[0].part == i && s.pos[0].name in names
    decreases c, 0, 0, |names|
  {
    hide SitesOf, Below, Live;
    if names != [] {
      var h, d := ToMember(i, names[0]), c.parts[i].members[names[0]];
      SitesAreTheReferences(d);
      BelowLive(c, h, SitesOf(d));
      assert forall n | n in names[1..] :: n != names[0];
      SitesOfMembersAre(c, i, names[1..]);
      DistinctConcat(Below(h, SitesOf(d)), SitesOfMembers(c, i, names[1..]));
    }
  }

  // ---- The order of the sites ----------------------------------------------------------------

  /** The summand of the outermost concat that the site is in. */
  function TopPart(s: Site): nat {
    if s.pos == [] then s.part else s.pos[0].part
  }

  /** Members in the order of their names, elements in the order of the array. */
  predicate HopBefore(g: Hop, h: Hop) {
    (g.ToMember? && h.ToMember? && g.name != h.name && LexLe(g.name, h.name))
    || (g.ToElement? && h.ToElement? && g.index < h.index)
  }

  /** `s` comes before `t` in the text of the tree. */
  predicate Earlier(s: Site, t: Site)
    decreases |s.pos|
  {
    TopPart(s) < TopPart(t)
    || (TopPart(s) == TopPart(t) && s.pos != [] && t.pos != []
        && (HopBefore(s.pos[0], t.pos[0])
            || (s.pos[0] == t.pos[0] && Earlier(Site(s.pos[1..], s.part), Site(t.pos[1..], t.part)))))
  }

  ghost predicate InOrder(sites: seq<Site>) {
    forall i, j | 0 <= i < j < |sites| :: Earlier(sites[i], sites[j])
  }

  lemma OrderBoth(a: seq<Site>, b: seq<Site>)
    requires InOrder(a) && InOrder(b) && forall s, t | s in a && t in b :: Earlier(s, t)
    ensures InOrder(a + b)
  {
    hide Earlier;
    var c := a + b;
    forall i, j | 0 <= i < j < |c| ensures Earlier(c[i], c[j]) {
      if i < |a| <= j { assert c[i] in a && c[j] in b; }
    }
  }

  lemma OrderBelow(h: Hop, sites: seq<Site>)
    requires InOrder(sites)
    ensures InOrder(Below(h, sites)) && forall s | s in Below(h, sites) :: s.pos != [] && s.pos[0] == h
  {
    var b := Below(h, sites);
    forall i, j | 0 <= i < j < |b| ensures Earlier(b[i], b[j]) {
      assert b[i].pos[1..] == sites[i].pos && b[j].pos[1..] == sites[j].pos && Earlier(sites[i], sites[j]);
    }
  }

  /** The references are visited in the order of the text. */
  lemma {:induction false} SitesInOrder(c: Concat)
    ensures InOrder(SitesOf(c))
    decreases c, 2, 0
  {
    hide InOrder;
    SitesFromInOrder(c, 0);
  }

  lemma {:induction false} SitesFromInOrder(c: Concat, i: nat)
    requires i <= |c.parts|
    ensures InOrder(SitesFrom(c, i)) && forall s | s in SitesFrom(c, i) :: TopPart(s) >= i
    decreases c, 1, |c.parts| - i
  {
    hide InOrder, SitesAt;
    if i < |c.parts| {
      SitesFromInOrder(c, i + 1);
      SitesAtInOrder(c, i);
      OrderBoth(SitesAt(c, i), SitesFrom(c, i + 1));
    } else {
      NoSiteInOrder();
    }
  }

  lemma NoSiteInOrder()
    ensures InOrder([])
  {
  }

  lemma {:induction false} SitesAtInOrder(c: Concat, i: nat)
    requires i < |c.parts|
    ensures InOrder(SitesAt(c, i)) && forall s | s in SitesAt(c, i) :: TopPart(s) == i
    decreases c, 0, 1, 0
  {
    match c.parts[i] {
      case Array(_, es) => SitesOfElementsInOrder(c, i, 0);
      case Object(m) => SitesOfMembersInOrder(c, i, Sorted(m.Keys));
      case _ =>
    }
  }

  lemma {:induction false} SitesOfElementsInOrder(c: Concat, i: nat, j: nat)
    requires i < |c.parts| && c.parts[i].Array? && j <= |c.parts[i].elements|
    ensures InOrder(SitesOfElements(c, i, j))
    ensures forall s | s in SitesOfElements(c, i, j) :: s.pos != [] && s.pos[0].ToElement? && s.pos[0].part == i && s.pos[0].index >= j
    decreases c, 0, 0, |c.parts[i].elements| - j
  {
    hide InOrder, SitesOf, Below;
    var es := c.parts[i].elements;
    if j < |es| {
      SitesInOrder(es[j]);
      OrderBelow(ToElement(i, j), SitesOf(es[j]));
      SitesOfElementsInOrder(c, i, j + 1);
      OrderBoth(Below(ToElement(i, j), SitesOf(es[j])), SitesOfElements(c, i, j + 1));
    } else {
      NoSiteInOrder();
    }
  }

  lemma {:induction false} SitesOfMembersInOrder(c: Concat, i: nat, names: seq<string>)
    requires i < |c.parts| && c.parts[i].Object? && forall n | n in names :: n in c.parts[i].members
    requires forall x, y | 0 <= x < y < |names| :: LexLe(names[x], names[y]) && names[x] != names[y]
    ensures InOrder(SitesOfMembers(c, i, names))
    ensures forall s | s in SitesOfMembers(c, i, names) :: s.pos != [] && s.pos[0].ToMember? && s.pos[0].part == i && s.pos[0].name in names
    decreases c, 0, 0, |names|
  {
    hide InOrder, SitesOf, Below, LexLe;
    if names != [] {
      var h, d := ToMember(i, names[0]), c.parts[i].members[names[0]];
      SitesInOrder(d);
      OrderBelow(h, SitesOf(d));
      SitesOfMembersInOrder(c, i, names[1..]);
      forall n | n in names[1..] ensures LexLe(names[0], n) && names[0] != n {
        var x :| 0 <= x < |names[1..]| && names[1..][x] == n;
        assert names[x + 1] == n;
      }
      OrderBoth(Below(h, SitesOf(d)), SitesOfMembers(c, i, names[1..]));
    } else {
      NoSiteInOrder();
    }
  }

  // ---- The pass ------------------------------------------------------------------------------

  ghost predicate AllLive(r: Concat, sites: seq<Site>) {
    IsRoot(r) && Distinct(sites) && forall s | s in sites :: Live(r, s)
  }

  lemma VisitKeepsLive(r: Concat, sites: seq<Site>)
    requires AllLive(r, sites) && sites != []
    ensures Visit(r, sites[0]).Ok? ==> AllLive(Visit(r, sites[0]).value, sites[1..])
    ensures Visit(r, sites[0]).Ok? ==>
      forall s | s in sites[1..] :: ReferenceAt(Visit(r, sites[0]).value, s) == ReferenceAt(r, s)
  {
    var v := Visit(r, sites[0]);
    if v.Ok? && v.value != r {
      var t := Resolve(MembersOf(r), KeyOf(sites[0].pos), ReferenceAt(r, sites[0]));
      assert v.value == Replace(r, sites[0], t.target.parts[0]);
      ReplaceKeepsRoot(r, sites[0], t.target.parts[0]);
      forall s | s in sites[1..] ensures Live(v.value, s) && ReferenceAt(v.value, s) == ReferenceAt(r, s) {
        assert s in sites && s != sites[0];
        ReplaceKeeps(r, sites[0], t.target.parts[0], s);
      }
    }
  }

  lemma ReplaceKeepsRoot(r: Concat, s: Site, e: Entry)
    requires IsRoot(r) && Live(r, s)
    ensures IsRoot(Replace(r, s, e))
  {
    assert s.pos != [];
  }

  /** The visits one after the other; each finds its reference where the list says it is. */
  function VisitAll(r: Concat, sites: seq<Site>): Result<Concat>
    decreases |sites|
  {
    if sites == [] then Ok(r)
    else if !IsRoot(r) || !Live(r, sites[0]) then Err(AssertionFailed)
    else
      var v := Visit(r, sites[0]);
      if v.Ok? then VisitAll(v.value, sites[1..]) else v
  }

  /** The whole pass; its changes are the visits that replace a reference. */
  function ReferencesPass(r: Concat): Result<Concat> {
    VisitAll(r, SitesOf(r))
  }

  /** What a visit does to one site, whether or not earlier visits have changed the tree. */
  lemma {:induction false} VisitsFindReferences(r: Concat, sites: seq<Site>, n: nat)
    requires AllLive(r, sites) && n < |sites| && VisitAll(r, sites[..n]).Ok?
    ensures IsRoot(VisitAll(r, sites[..n]).value) && Live(VisitAll(r, sites[..n]).value, sites[n])
    ensures ReferenceAt(VisitAll(r, sites[..n]).value, sites[n]) == ReferenceAt(r, sites[n])
    decreases n
  {
    hide Visit, Live, ReferenceAt;
    if n == 0 {
      assert sites[..0] == [];
    } else {
      VisitKeepsLive(r, sites);
      assert sites[..n][1..] == sites[1..][..n - 1] && sites[..n][0] == sites[0] && sites[1..][n - 1] == sites[n];
      VisitsFindReferences(Visit(r, sites[0]).value, sites[1..], n - 1);
    }
  }
}
