/**
 Writing definitions into one object in place is the same as writing each of them into an object
 of its own and merging the objects.
 */
module Merging {
  import opened Tree
  import opened Additions
  import opened Algebra
  import opened NormalForm
  import opened Phase1
  import opened Parser
  import opened Generations
  import Measure

  // ---- Which definitions ---------------------------------------------------------------------

  /** Assignments and appends along names, without calls. */
  predicate Simple(v: ValuePart) {
    match v
    case ArrayPart(es) => forall i | 0 <= i < |es| :: SimpleList(es[i])
    case ObjectPart(ms) => forall i | 0 <= i < |ms| :: SimpleMember(ms[i])
    case FunctionPart(_, _) => false
    case _ => true
  }

  predicate SimpleList(vl: ValueList) {
    forall i | 0 <= i < |vl.parts| :: Simple(vl.parts[i])
  }

  predicate SimpleMember(d: MemberDef) {
    (d.Assign? || d.AppendTo?) && NamePath(d.key) && SimpleList(d.value)
  }

  predicate NamePath(k: Key) {
    forall i | 0 <= i < |k| :: k[i].Name?
  }

  // ---- Merging as a meaning for definitions --------------------------------------------------

  function Den(v: ValuePart): Entry
    decreases v, 0
  {
    match v
    case AtomPart(e) => e
    case ReferencePart(r) => Reference(r)
    case ArrayPart(es) => Array("", DenElements(es))
    case FunctionPart(f, es) => Array(f, DenElements(es))
    case ObjectPart(ms) => Object(DenMembers(ms))
  }

  function DenParts(vs: seq<ValuePart>): (ps: seq<Entry>)
    ensures |ps| == |vs|
    decreases vs, 0
  {
    if vs == [] then [] else [Den(vs[0])] + DenParts(vs[1..])
  }

  function DenElements(es: seq<ValueList>): (cs: seq<Concat>)
    ensures |cs| == |es|
    decreases es, 0
  {
    if es == [] then [] else [EMPTY.(parts := DenParts(es[0].parts))] + DenElements(es[1..])
  }

  /** Every definition makes an object of its own; the objects are merged in their order. */
  function DenMembers(ms: seq<MemberDef>): Members
    decreases ms, 0
  {
    if ms == [] then map[] else Merge(DenMember(ms[0]), DenMembers(ms[1..]))
  }

  function DenMember(d: MemberDef): Members
    decreases d, 0
  {
    if !(d.Assign? || d.AppendTo?) || d.key == [] || !d.key[0].Name? then map[]
    else map[d.key[0].name := Nested(d.key[1..], d.Assign?, DenParts(d.value.parts))]
  }

  /** A chain of objects around the summands `ps`. */
  function Nested(k: Key, assign: bool, ps: seq<Entry>): Concat
    decreases |k|
  {
    if k == [] then EMPTY.(parts := ps, remove := assign)
    else if k[0].Name? then EMPTY.(parts := [Object(map[k[0].name := Nested(k[1..], assign, ps)])])
    else EMPTY
  }

  // ---- Generations are forgotten -------------------------------------------------------------

  function Er(c: Concat): Concat {
    c.(generation := 0, parts := seq(|c.parts|, i requires 0 <= i < |c.parts| => ErEntry(c.parts[i])))
  }

  function ErEntry(e: Entry): (r: Entry)
    ensures ClassOf(r) == ClassOf(e)
  {
    match e
    case Array(f, es) => Array(f, seq(|es|, i requires 0 <= i < |es| => Er(es[i])))
    case Object(m) => Object(map n | n in m :: Er(m[n]))
    case Asterisk(c) => Asterisk(Er(c))
    case _ => e
  }

  function ErParts(ps: seq<Entry>): seq<Entry> {
    seq(|ps|, i requires 0 <= i < |ps| => ErEntry(ps[i]))
  }

  function ErElements(es: seq<Concat>): seq<Concat> {
    seq(|es|, i requires 0 <= i < |es| => Er(es[i]))
  }

  function ErMembers(m: Members): Members {
    map n | n in m :: Er(m[n])
  }

  lemma ErConcat(c: Concat)
    ensures Er(c) == c.(generation := 0, parts := ErParts(c.parts))
  {
  }

  lemma ErArray(f: string, es: seq<Concat>)
    ensures ErEntry(Array(f, es)) == Array(f, ErElements(es))
  {
  }

  lemma ErObject(m: Members)
    ensures ErEntry(Object(m)) == Object(ErMembers(m))
  {
  }

  lemma ErBoth(ps: seq<Entry>, qs: seq<Entry>)
    ensures ErParts(ps + qs) == ErParts(ps) + ErParts(qs)
  {
    hide ErEntry;
  }

  lemma ErOne(e: Entry)
    ensures ErParts([e]) == [ErEntry(e)] && ErParts([]) == []
  {
    hide ErEntry;
  }

  lemma ErMerge(l: Members, r: Members)
    ensures ErMembers(Merge(l, r)) == Merge(ErMembers(l), ErMembers(r))
  {
    hide Er, Stack;
    forall n | n in l && n in r ensures Er(Stack(l[n], r[n])) == Stack(Er(l[n]), Er(r[n])) { ErStack(l[n], r[n]); }
    var a, b := ErMembers(Merge(l, r)), Merge(ErMembers(l), ErMembers(r));
    assert a.Keys == b.Keys;
    forall n | n in a ensures a[n] == b[n] { }
  }

  lemma ErStack(x: Concat, y: Concat)
    ensures Er(Stack(x, y)) == Stack(Er(x), Er(y))
  {
    hide ErEntry;
    ErConcat(x);
    ErConcat(y);
    ErConcat(Stack(x, y));
    ErBoth(x.parts, y.parts);
  }

  // ---- Equal sums ----------------------------------------------------------------------------

  ghost predicate Same(ps: seq<Entry>, qs: seq<Entry>) {
    NormalParts(ps) == NormalParts(qs)
  }

  lemma SameAppend(ps: seq<Entry>, qs: seq<Entry>, xs: seq<Entry>)
    requires Same(ps, qs)
    ensures Same(ps + xs, qs + xs)
  {
    hide NormalParts;
    NormalCongruence(ps, xs, qs, xs);
  }

  lemma SameLast(init: seq<Entry>, a: Entry, b: Entry)
    requires NormalEntry(a) == NormalEntry(b)
    ensures Same(init + [a], init + [b])
  {
    hide NormalEntry, NormalParts;
    NormalOfRewritten(init + [a], init + [b]);
  }

  lemma SameJoin(init: seq<Entry>, a: Entry, b: Entry)
    requires Joinable(a, b)
    ensures Same(init + [a] + [b], init + [Join(a, b)])
  {
    hide NormalParts, Join, Joinable;
    NormalOfJoined(init, a, b);
  }

  // ---- Trees that simple definitions build ---------------------------------------------------

  /** Two objects or two arrays, which building would have continued instead. */
  predicate SameContainer(a: Entry, b: Entry) {
    (a.Object? && b.Object?) || (a.Array? && b.Array?)
  }

  predicate Tight(ps: seq<Entry>) {
    forall i | 0 < i < |ps| :: !SameContainer(ps[i - 1], ps[i])
  }

  /** Calls, asterisks and temporary members do not occur, and no containers stand side by side. */
  ghost predicate Ordinary(c: Concat) {
    Tight(c.parts) && forall i | 0 <= i < |c.parts| :: OrdinaryEntry(c.parts[i])
  }

  ghost predicate OrdinaryEntry(e: Entry) {
    match e
    case Array(f, es) => f == "" && forall i | 0 <= i < |es| :: Ordinary(es[i])
    case Object(m) => forall n | n in m :: !m[n].temporary && Ordinary(m[n])
    case Asterisk(_) => false
    case _ => true
  }

  /** `d` is `c` with further summands, which are the same as `ps`. */
  ghost predicate Adds(c: Concat, d: Concat, ps: seq<Entry>) {
    && d == c.(parts := d.parts, generation := d.generation)
    && Ordinary(d)
    && Same(ErParts(d.parts), ErParts(c.parts) + ps)
  }

  /** The summand at the end, in which a definition goes on. */
  lemma Ensured(c: Concat, d: Concat, e: Entry)
    requires d == EnsureArray(c) || d == EnsureObject(c)
    ensures var l := |d.parts| - 1;
      && (c.parts == d.parts || (c.parts == d.parts[..l] && (d.parts[l] == Array("", []) || d.parts[l] == Object(map[]))))
      && WithLast(d, e).parts == d.parts[..l] + [e] && d.parts == d.parts[..l] + [LastPart(d)]
      && d == c.(parts := d.parts)
  {
    LastReplaced(d, e);
    if c.parts != d.parts { assert d.parts[..|d.parts| - 1] == c.parts; }
  }

  lemma LastReplaced(d: Concat, e: Entry)
    requires d.parts != []
    ensures WithLast(d, e).parts == d.parts[..|d.parts| - 1] + [e] && d.parts == d.parts[..|d.parts| - 1] + [LastPart(d)]
  {
  }

  lemma EnsuredOrdinary(c: Concat)
    requires Ordinary(c)
    ensures Ordinary(EnsureArray(c)) && LastPart(EnsureArray(c)).call == ""
    ensures Ordinary(EnsureObject(c)) && OrdinaryEntry(LastPart(EnsureObject(c)))
  {
    hide OrdinaryEntry, Ordinary;
    EmptyContainers();
    if c.parts == [] || !LastPart(c).Array? { OneMoreOrdinary(c, Array("", [])); }
    if c.parts == [] || !LastPart(c).Object? { OneMoreOrdinary(c, Object(map[])); }
    LastIsOrdinary(EnsureObject(c));
    LastIsOrdinary(EnsureArray(c));
    NoCallIn(LastPart(EnsureArray(c)));
  }

  lemma EmptyContainers()
    ensures OrdinaryEntry(Array("", [])) && OrdinaryEntry(Object(map[]))
  {
  }

  lemma NoCallIn(e: Entry)
    requires OrdinaryEntry(e) && e.Array?
    ensures e.call == ""
  {
  }

  lemma OneMoreOrdinary(c: Concat, e: Entry)
    requires Ordinary(c) && OrdinaryEntry(e) && (c.parts == [] || !SameContainer(LastPart(c), e))
    ensures Ordinary(c.(parts := c.parts + [e]))
  {
    hide OrdinaryEntry, SameContainer;
  }

  lemma ReplacedOrdinary(d: Concat, e: Entry)
    requires Ordinary(d) && d.parts != [] && OrdinaryEntry(e)
    requires e.Object? == LastPart(d).Object? && e.Array? == LastPart(d).Array?
    ensures Ordinary(WithLast(d, e))
  {
    hide OrdinaryEntry;
    var ps := d.parts[|d.parts| - 1 := e];
    forall i | 0 < i < |ps| ensures !SameContainer(ps[i - 1], ps[i]) { assert !SameContainer(d.parts[i - 1], d.parts[i]); }
  }

  /** A larger last array or object instead of one more array or object. */
  lemma GrownLast(c: Concat, d: Concat, e: Entry, x: Entry)
    requires d == EnsureArray(c) || d == EnsureObject(c)
    requires Joinable(ErEntry(LastPart(d)), x)
    requires NormalEntry(ErEntry(e)) == NormalEntry(Join(ErEntry(LastPart(d)), x))
    requires c.parts != d.parts ==> NormalEntry(ErEntry(e)) == NormalEntry(x)
    ensures Same(ErParts(WithLast(d, e).parts), ErParts(c.parts) + [x])
  {
    hide NormalEntry, ErEntry, Join, Joinable, Same;
    var init, l := d.parts[..|d.parts| - 1], LastPart(d);
    Ensured(c, d, e);
    ErBoth(init, [e]);
    ErOne(e);
    if c.parts == d.parts {
      ErBoth(init, [l]);
      ErOne(l);
      SameLast(ErParts(init), ErEntry(e), Join(ErEntry(l), x));
      SameJoin(ErParts(init), ErEntry(l), x);
      SameTransitive(ErParts(init) + [ErEntry(e)], ErParts(init) + [Join(ErEntry(l), x)], ErParts(init) + [ErEntry(l)] + [x]);
    } else {
      SameLast(ErParts(init), ErEntry(e), x);
    }
  }

  lemma SameTransitive(a: seq<Entry>, b: seq<Entry>, c: seq<Entry>)
    requires Same(a, b) && Same(c, b)
    ensures Same(a, c)
  {
  }

  // ---- Arrays --------------------------------------------------------------------------------

  ghost predicate SameElements(cs: seq<Concat>, ds: seq<Concat>) {
    |cs| == |ds| && forall i | 0 <= i < |cs| :: Ordinary(cs[i]) && Normal(Er(cs[i])) == Normal(ds[i])
  }

  lemma GrownArray(c: Concat, new_: seq<Concat>, ds: seq<Concat>)
    requires Ordinary(c) && SameElements(new_, ds)
    ensures var d := EnsureArray(c);
      Adds(c, WithLast(d, Array("", LastPart(d).elements + new_)), [Array("", ds)])
  {
    hide NormalEntry, ErEntry, Ordinary, OrdinaryEntry, Join, Joinable, Same, EnsureArray, SameElements;
    var d := EnsureArray(c);
    var old_ := LastPart(d).elements;
    var e, x := Array("", old_ + new_), Array("", ds);
    EnsuredOrdinary(c);
    Ensured(c, d, e);
    ErArray("", old_);
    JoinedArrays(ErElements(old_), ds);
    SameArrays(old_, new_, ds);
    SameArrays([], new_, ds);
    LastArrayIsNew(c);
    assert [] + new_ == new_ && ErElements([]) + ds == ds;
    GrownLast(c, d, e, x);
    assert OrdinaryEntry(LastPart(d)) by { assert d.parts[|d.parts| - 1] == LastPart(d); LastIsOrdinary(d); }
    MoreElements(old_, new_, ds);
    ReplacedOrdinary(d, e);
  }

  lemma LastIsOrdinary(d: Concat)
    requires Ordinary(d) && d.parts != []
    ensures OrdinaryEntry(LastPart(d))
  {
    hide OrdinaryEntry;
  }

  lemma JoinedArrays(a: seq<Concat>, b: seq<Concat>)
    ensures Joinable(Array("", a), Array("", b)) && Join(Array("", a), Array("", b)) == Array("", a + b)
  {
  }

  lemma LastArrayIsNew(c: Concat)
    ensures c.parts != EnsureArray(c).parts ==> LastPart(EnsureArray(c)) == Array("", [])
  {
  }

  lemma SameArrays(a: seq<Concat>, b: seq<Concat>, ds: seq<Concat>)
    requires SameElements(b, ds)
    ensures NormalEntry(ErEntry(Array("", a + b))) == NormalEntry(Array("", ErElements(a) + ds))
  {
    hide NormalEntry, Normal, Er, ErEntry;
    ErArray("", a + b);
    ArrayNormal("", ErElements(a + b), Array("", ErElements(a) + ds));
    forall i | 0 <= i < |a + b| ensures Normal(ErElements(a + b)[i]) == Normal((ErElements(a) + ds)[i]) {
      if i >= |a| { assert (a + b)[i] == b[i - |a|]; }
    }
  }

  lemma MoreElements(a: seq<Concat>, b: seq<Concat>, ds: seq<Concat>)
    requires OrdinaryEntry(Array("", a)) && SameElements(b, ds)
    ensures OrdinaryEntry(Array("", a + b))
  {
    hide Ordinary, Normal, Er;
    forall i | 0 <= i < |a + b| ensures Ordinary((a + b)[i]) {
      if i >= |a| { assert (a + b)[i] == b[i - |a|]; }
    }
  }

  lemma {:induction false} ArrayAdds(c: Concat, g: nat, es: seq<ValueList>)
    requires Within(c, g) && Ordinary(c)
    requires forall i | 0 <= i < |es| :: ProperList(es[i]) && SimpleList(es[i])
    ensures var r := BuildElements(EnsureArray(c), g + 1, es);
      r.Ok? && Adds(c, r.value, [Array("", DenElements(es))])
    decreases es, 1
  {
    hide BuildElements, DenElements, Within, Ordinary, ProperList, SimpleList, ErEntry, Adds, LastBegun, NewElements;
    var d := EnsureArray(c);
    WithinCounter(c, g);
    EnsuredOrdinary(c);
    LiteralAddsItsElements(d, g + 1, es);
    ElementsAdd(g + 1, es);
    var n := NewElements(g + 1, es).value;
    GrownArray(c, n, DenElements(es));
    AnyGeneration(c, WithLast(d, Array("", LastPart(d).elements + n)), [Array("", DenElements(es))], LastBegun(d.generation, g + 1, es));
  }

  lemma AnyGeneration(c: Concat, d: Concat, ps: seq<Entry>, h: nat)
    requires Adds(c, d, ps)
    ensures Adds(c, d.(generation := h), ps)
  {
  }

  lemma WithinCounter(c: Concat, g: nat)
    requires Within(c, g)
    ensures EnsureArray(c).generation <= g && EnsureObject(c).generation <= g
  {
  }

  lemma {:induction false} ElementsAdd(g: nat, es: seq<ValueList>)
    requires forall i | 0 <= i < |es| :: ProperList(es[i]) && SimpleList(es[i])
    ensures NewElements(g, es).Ok? && SameElements(NewElements(g, es).value, DenElements(es))
    decreases es, 0
  {
    hide BuildList, DenParts, ProperList, SimpleList, Normal, Er, Within, Ordinary;
    if es != [] {
      EmptyWithin(g);
      EmptyOrdinary();
      ListAdds(EMPTY, g, es[0]);
      var d := BuildList(EMPTY, g, es[0]).value;
      AddedToNothing(d, DenParts(es[0].parts));
      ElementsAdd(GenList(g, es[0]), es[1..]);
    }
  }

  lemma EmptyOrdinary()
    ensures Ordinary(EMPTY)
  {
  }

  lemma AddedToNothing(d: Concat, ps: seq<Entry>)
    requires Adds(EMPTY, d, ps)
    ensures Normal(Er(d)) == Normal(EMPTY.(parts := ps))
  {
    hide NormalParts, ErEntry;
    ErConcat(d);
    ErOne(Null);
    assert ErParts(EMPTY.parts) + ps == ps;
  }

  // ---- Value lists ---------------------------------------------------------------------------

  lemma {:induction false} ListAdds(c: Concat, g: nat, vl: ValueList)
    requires Within(c, g) && Ordinary(c) && ProperList(vl) && SimpleList(vl)
    ensures BuildList(c, g, vl).Ok? && Adds(c, BuildList(c, g, vl).value, DenParts(vl.parts))
    decreases vl, 1
  {
    hide Adds, Proper, Simple;
    PartsAdd(c, g, vl.parts);
    assert BuildList(c, g, vl) == BuildParts(c, g, vl.parts);
  }

  lemma {:induction false} PartsAdd(c: Concat, g: nat, vs: seq<ValuePart>)
    requires Within(c, g) && Ordinary(c) && forall i | 0 <= i < |vs| :: Proper(vs[i]) && Simple(vs[i])
    ensures BuildParts(c, g, vs).Ok? && Adds(c, BuildParts(c, g, vs).value, DenParts(vs))
    decreases vs, 0
  {
    hide BuildPart, Den, Within, Ordinary, Proper, Simple, Same, ErEntry, GenPart;
    if vs == [] {
      assert ErParts(c.parts) + [] == ErParts(c.parts);
      SameReflexive(ErParts(c.parts));
    } else {
      PartAdds(c, g, vs[0]);
      PartIsFine(c, g, vs[0]);
      var d := BuildPart(c, g, vs[0]).value;
      PartsAdd(d, GenPart(g, vs[0]), vs[1..]);
      var r := BuildParts(c, g, vs).value;
      var a, b := ErParts(c.parts), DenParts(vs[1..]);
      SameAppend(ErParts(d.parts), a + [Den(vs[0])], b);
      assert a + [Den(vs[0])] + b == a + DenParts(vs);
      SameChain(ErParts(r.parts), ErParts(d.parts) + b, a + DenParts(vs));
    }
  }

  lemma SameReflexive(a: seq<Entry>)
    ensures Same(a, a)
  {
  }

  lemma SameChain(a: seq<Entry>, b: seq<Entry>, c: seq<Entry>)
    requires Same(a, b) && Same(b, c)
    ensures Same(a, c)
  {
  }

  lemma {:induction false} PartAdds(c: Concat, g: nat, v: ValuePart)
    requires Within(c, g) && Ordinary(c) && Proper(v) && Simple(v)
    ensures BuildPart(c, g, v).Ok? && Adds(c, BuildPart(c, g, v).value, [Den(v)])
    decreases v, 0
  {
    hide BuildElements, BuildMembers, DenElements, DenMembers, Within, Ordinary, ProperList, ProperMember, SimpleList, SimpleMember;
    match v {
      case AtomPart(e) => AtomAdds(c, e);
      case ReferencePart(r) => AtomAdds(c, Reference(r));
      case ArrayPart(es) => ArrayAdds(c, g, es);
      case ObjectPart(ms) => ObjectAdds(c, g, ms);
    }
  }

  lemma AtomAdds(c: Concat, e: Entry)
    requires Ordinary(c) && (IsAtom(e) || e.Reference?)
    ensures Adds(c, c.(parts := c.parts + [e]), [e])
  {
    hide OrdinaryEntry;
    ErBoth(c.parts, [e]);
    ErOne(e);
    assert OrdinaryEntry(e) by { PlainOrdinary(e); }
  }

  lemma PlainOrdinary(e: Entry)
    requires IsAtom(e) || e.Reference?
    ensures OrdinaryEntry(e)
  {
  }

  // ---- Objects -------------------------------------------------------------------------------

  /** The members `o` are `m` merged with `x`, up to additions and generations. */
  ghost predicate Merged(m: Members, o: Members, x: Members) {
    OrdinaryEntry(Object(o)) && NormalEntry(Object(ErMembers(o))) == NormalEntry(Object(Merge(ErMembers(m), x)))
  }

  lemma {:induction false} ObjectAdds(c: Concat, g: nat, ms: seq<MemberDef>)
    requires Within(c, g) && Ordinary(c)
    requires forall i | 0 <= i < |ms| :: ProperMember(ms[i]) && SimpleMember(ms[i])
    ensures var r := BuildMembers(EnsureObject(c), g, ms);
      r.Ok? && Adds(c, r.value, [Object(DenMembers(ms))])
    decreases ms, 1
  {
    hide BuildMembers, DenMembers, Within, Ordinary, OrdinaryEntry, ProperMember, SimpleMember, ErEntry, Same, Merged;
    var d := EnsureObject(c);
    EnsureWithin(c, g);
    EnsuredOrdinary(c);
    var o := MembersAdd(d, g, ms);
    GrownObject(c, o, DenMembers(ms));
  }

  lemma GrownObject(c: Concat, o: Members, x: Members)
    requires Ordinary(c) && Merged(LastPart(EnsureObject(c)).members, o, x)
    ensures Adds(c, WithLast(EnsureObject(c), Object(o)), [Object(x)])
  {
    hide NormalEntry, ErEntry, OrdinaryEntry, Merge, ErMembers, Join, Joinable, Ordinary, Same, EnsureObject;
    var d := EnsureObject(c);
    var m := LastPart(d).members;
    EnsuredOrdinary(c);
    Ensured(c, d, Object(o));
    ErObject(m);
    ErObject(o);
    JoinedObjects(ErMembers(m), x);
    NothingErased(x);
    LastIsNew(c);
    GrownLast(c, d, Object(o), Object(x));
    ReplacedOrdinary(d, Object(o));
  }

  lemma JoinedObjects(m: Members, x: Members)
    ensures Joinable(Object(m), Object(x)) && Join(Object(m), Object(x)) == Object(Merge(m, x))
  {
  }

  lemma LastIsNew(c: Concat)
    ensures c.parts != EnsureObject(c).parts ==> LastPart(EnsureObject(c)) == Object(map[])
  {
  }

  lemma NothingErased(x: Members)
    ensures ErMembers(map[]) == map[] && Merge(map[], x) == x
  {
  }

  lemma {:induction false} MembersAdd(c: Concat, g: nat, ms: seq<MemberDef>) returns (o: Members)
    requires Within(c, g) && Ordinary(c) && c.parts != [] && LastPart(c).Object?
    requires forall i | 0 <= i < |ms| :: ProperMember(ms[i]) && SimpleMember(ms[i])
    ensures BuildMembers(c, g, ms) == Ok(WithLast(c, Object(o)))
    ensures Merged(LastPart(c).members, o, DenMembers(ms))
    decreases ms, 0
  {
    hide BuildMember, DenMember, Within, OrdinaryEntry, ProperMember, SimpleMember, GenMember, NormalEntry, Merge, ErMembers;
    var m := LastPart(c).members;
    assert OrdinaryEntry(LastPart(c));
    if ms == [] {
      o := m;
      assert WithLast(c, Object(m)) == c by { assert c.parts[|c.parts| - 1 := LastPart(c)] == c.parts; }
      MergeUnit(ErMembers(m));
    } else {
      var p := MemberAdds(c, g, ms[0]);
      var d := WithLast(c, Object(p));
      MemberIsFine(c, g, ms[0]);
      ReplacedOrdinary(c, Object(p));
      o := MembersAdd(d, GenMember(g, ms[0]), ms[1..]);
      assert WithLast(d, Object(o)) == WithLast(c, Object(o)) by {
        assert d.parts[|d.parts| - 1 := Object(o)] == c.parts[|c.parts| - 1 := Object(o)];
      }
      MergedTwice(m, p, o, DenMember(ms[0]), DenMembers(ms[1..]));
    }
  }

  lemma MergedTwice(m: Members, p: Members, o: Members, x: Members, y: Members)
    requires Merged(m, p, x) && Merged(p, o, y)
    ensures Merged(m, o, Merge(x, y))
  {
    hide NormalEntry, Merge, ErMembers, OrdinaryEntry;
    JoinCongruence(Object(ErMembers(p)), Object(y), Object(Merge(ErMembers(m), x)), Object(y));
    MergeAssociative(ErMembers(m), x, y);
  }

  /** One definition; `c` ends with the object that it goes into. */
  lemma {:induction false} MemberAdds(c: Concat, g: nat, d: MemberDef) returns (o: Members)
    requires Within(c, g) && Ordinary(c) && c.parts != [] && LastPart(c).Object?
    requires ProperMember(d) && SimpleMember(d)
    ensures BuildMember(c, g, d) == Ok(WithLast(c, Object(o)))
    ensures Merged(LastPart(c).members, o, DenMember(d))
    decreases d, 0
  {
    hide Within, OrdinaryEntry, Focus, NormalEntry, Merge, ErMembers, ProperList, SimpleList, Nested, DenParts, BuildList, Wrote;
    var n, t := d.key[0].name, d.key[1..];
    var m := LastPart(c).members;
    assert NamePath(t) && OrdinaryEntry(LastPart(c));
    LastWithin(c, Null, g);
    if d.Assign? {
      var y := AssignBelow(m, n, t, g, d.value);
      o := m[n := y];
      AssignStep(c, n, t, g, d.value, y);
    } else {
      var y := AppendBelow(m, n, t, g, d.value);
      o := m[n := y];
      AppendStep(c, n, t, g, d.value, y);
    }
    MergedMember(m, n, o[n], t, d.Assign?, DenParts(d.value.parts));
    assert d.key == [Name(n)] + t;
  }

  /**
   What a definition with the rest `k` of its path has made of the concat `c`: the summands of `c`
   are followed by those of the definition, or replaced by them at the end of an assignment.
   */
  ghost predicate Wrote(c: Concat, y: Concat, k: Key, assign: bool, ps: seq<Entry>) {
    && !y.implicit && y.temporary == c.temporary
    && y.remove == (c.remove || (k == [] && assign))
    && Ordinary(y)
    && Same(ErParts(y.parts), (if k == [] && assign then [] else ErParts(c.parts)) + Nested(k, assign, ps).parts)
  }

  /** The member that a definition with the path `n`, `k` has changed. */
  lemma MergedMember(m: Members, n: string, y: Concat, k: Key, assign: bool, ps: seq<Entry>)
    requires OrdinaryEntry(Object(m)) && NamePath(k)
    requires Wrote(Member(m, n, Manifest), y, k, assign, ps)
    ensures Merged(m, m[n := y], map[n := Nested(k, assign, ps)])
  {
    hide Er, ErMembers, NormalEntry, Normal, Nested, Stack, Ordinary, OrdinaryEntry, Wrote, Merge;
    StackedMember(m, n, y, k, assign, ps);
    OneMemberMerged(m, n, y, Nested(k, assign, ps));
    MemberReplaced(m, n, y);
  }

  lemma MemberReplaced(m: Members, n: string, y: Concat)
    requires OrdinaryEntry(Object(m)) && !y.temporary && Ordinary(y)
    ensures OrdinaryEntry(Object(m[n := y]))
  {
    hide Ordinary;
  }

  lemma OneMemberMerged(m: Members, n: string, y: Concat, x: Concat)
    requires Normal(Er(y)) == Normal(if n in m then Stack(Er(m[n]), x) else x)
    ensures NormalEntry(Object(ErMembers(m[n := y]))) == NormalEntry(Object(Merge(ErMembers(m), map[n := x])))
  {
    hide Er, Normal, NormalEntry, Stack;
    assert ErMembers(m[n := y]) == ErMembers(m)[n := Er(y)];
    ObjectNormal(ErMembers(m[n := y]), Merge(ErMembers(m), map[n := x]));
  }

  lemma StackedMember(m: Members, n: string, y: Concat, k: Key, assign: bool, ps: seq<Entry>)
    requires OrdinaryEntry(Object(m)) && NamePath(k)
    requires Wrote(Member(m, n, Manifest), y, k, assign, ps)
    ensures !y.temporary && Ordinary(y)
    ensures Normal(Er(y)) == Normal(if n in m then Stack(Er(m[n]), Nested(k, assign, ps)) else Nested(k, assign, ps))
  {
    hide Ordinary, NormalParts, ErEntry, ErParts, Er, Nested;
    var x := Nested(k, assign, ps);
    NestedFlags(k, assign, ps);
    ErConcat(y);
    ErOne(Null);
    assert [] + x.parts == x.parts;
    if n in m { ErConcat(m[n]); }
  }

  lemma NestedFlags(k: Key, assign: bool, ps: seq<Entry>)
    requires NamePath(k)
    ensures Nested(k, assign, ps) == EMPTY.(parts := Nested(k, assign, ps).parts, remove := k == [] && assign)
  {
  }

  lemma {:induction false} AssignBelow(m: Members, n: string, k: Key, g: nat, vl: ValueList) returns (y: Concat)
    requires WithinEntry(Object(m), g) && OrdinaryEntry(Object(m)) && NamePath(k) && ProperList(vl) && SimpleList(vl)
    ensures var x := Focus(Member(m, n, Implicit), k, DoAssign, Implicit);
      x.Ok? && Focus(x.value.(implicit := false), k, z => BuildList(z, g, vl), Manifest) == Ok(y)
    ensures Wrote(Member(m, n, Manifest), y, k, true, DenParts(vl.parts))
    decreases vl, 3, |k|
  {
    hide Within, OrdinaryEntry, ProperList, SimpleList, DenParts, BuildList, ErEntry, Same, Nested;
    var c := Member(m, n, Implicit);
    MemberWithin(m, n, Implicit, g);
    MemberOrdinary(m, n);
    if k == [] {
      y := AssignEnd(c, g, vl);
      assert Member(m, n, Manifest) == c.(implicit := false);
    } else {
      hide Wrote, Focus, EnsureObject, Member;
      var d := EnsureObject(c);
      EnsureWithin(c, g);
      EnsuredOrdinary(c);
      LastWithin(d, Null, g);
      var z := AssignBelow(LastPart(d).members, k[0].name, k[1..], g, vl);
      y := AssignThrough(m, n, k, g, vl, z);
    }
  }

  /** The same one name further up. */
  lemma AssignThrough(m: Members, n: string, k: Key, g: nat, vl: ValueList, z: Concat) returns (y: Concat)
    requires k != [] && NamePath(k) && OrdinaryEntry(Object(m))
    requires var o := LastPart(EnsureObject(Member(m, n, Implicit))).members;
      var x := Focus(Member(o, k[0].name, Implicit), k[1..], DoAssign, Implicit);
      && x.Ok? && Focus(x.value.(implicit := false), k[1..], w => BuildList(w, g, vl), Manifest) == Ok(z)
      && Wrote(Member(o, k[0].name, Manifest), z, k[1..], true, DenParts(vl.parts))
    ensures var x := Focus(Member(m, n, Implicit), k, DoAssign, Implicit);
      x.Ok? && Focus(x.value.(implicit := false), k, w => BuildList(w, g, vl), Manifest) == Ok(y)
    ensures Wrote(Member(m, n, Manifest), y, k, true, DenParts(vl.parts))
  {
    hide OrdinaryEntry, DenParts, BuildList, ErEntry, Same, Nested, Wrote, Focus, EnsureObject, Member;
    var c, p, t := Member(m, n, Implicit), k[0].name, k[1..];
    var d := EnsureObject(c);
    y := WithLast(d, Object(LastPart(d).members[p := z])).(implicit := false);
    AssignStep(d, p, t, g, vl, z);
    assert k == [Name(p)] + t;
    AssignFromAnywhere(c, k, g, vl, z);
    ManifestMember(m, n);
    MemberOrdinary(m, n);
    ManifestFlag(m, n);
    WroteName(Member(m, n, Manifest), p, t, z, true, DenParts(vl.parts));
  }

  lemma ManifestFlag(m: Members, n: string)
    ensures !Member(m, n, Manifest).implicit
  {
  }

  lemma ManifestMember(m: Members, n: string)
    ensures var c, d := Member(m, n, Implicit), Member(m, n, Manifest);
      d == c.(implicit := false) && EnsureObject(d) == EnsureObject(c).(implicit := false)
    ensures forall x: Entry :: var c, d := Member(m, n, Implicit), Member(m, n, Manifest);
      WithLast(EnsureObject(d), x) == WithLast(EnsureObject(c), x).(implicit := false)
    ensures LastPart(EnsureObject(Member(m, n, Manifest))) == LastPart(EnsureObject(Member(m, n, Implicit)))
  {
  }

  /** An assignment to the concat itself. */
  lemma {:induction false} AssignEnd(c: Concat, g: nat, vl: ValueList) returns (y: Concat)
    requires Within(c, g) && ProperList(vl) && SimpleList(vl)
    ensures var x := Focus(c, [], DoAssign, Implicit);
      x.Ok? && Focus(x.value.(implicit := false), [], z => BuildList(z, g, vl), Manifest) == Ok(y)
    ensures Wrote(c.(implicit := false), y, [], true, DenParts(vl.parts))
    decreases vl, 2, 0
  {
    hide Within, Ordinary, ProperList, SimpleList, DenParts, BuildList, ErEntry, Same, Nested;
    var x := c.(parts := [], remove := true, implicit := false);
    ClearedWithin(c, g);
    ListAdds(x, g, vl);
    y := BuildList(x, g, vl).value;
    NestedEnd(true, DenParts(vl.parts));
    assert ErParts(x.parts) == [] by { ErOne(Null); }
  }

  lemma NestedEnd(assign: bool, ps: seq<Entry>)
    ensures Nested([], assign, ps).parts == ps
  {
  }

  lemma ClearedWithin(c: Concat, g: nat)
    requires Within(c, g)
    ensures Within(c.(parts := [], remove := true, implicit := false), g)
    ensures Ordinary(c.(parts := [], remove := true, implicit := false))
  {
  }

  lemma MemberOrdinary(m: Members, n: string)
    requires OrdinaryEntry(Object(m))
    ensures forall mode :: Ordinary(Member(m, n, mode)) && !Member(m, n, mode).temporary
  {
    assert n in m ==> Ordinary(m[n]) && !m[n].temporary;
  }

  /** A definition along `p`, `k` that has made `z` of the member `p`. */
  lemma WroteName(c: Concat, p: string, k: Key, z: Concat, assign: bool, ps: seq<Entry>)
    requires Ordinary(c) && !c.implicit && NamePath(k)
    requires Wrote(Member(LastPart(EnsureObject(c)).members, p, Manifest), z, k, assign, ps)
    ensures var d := EnsureObject(c);
      Wrote(c, WithLast(d, Object(LastPart(d).members[p := z])), [Name(p)] + k, assign, ps)
  {
    hide Ordinary, OrdinaryEntry, NormalEntry, ErEntry, Merged, Same;
    var d := EnsureObject(c);
    var m := LastPart(d).members;
    EnsuredOrdinary(c);
    MergedMember(m, p, z, k, assign, ps);
    GrownObject(c, m[p := z], map[p := Nested(k, assign, ps)]);
    assert ([Name(p)] + k)[1..] == k;
    assert Nested([Name(p)] + k, assign, ps).parts == [Object(map[p := Nested(k, assign, ps)])];
  }

  /** Both halves of an assignment, one level up. */
  lemma AssignStep(c: Concat, n: string, k: Key, g: nat, vl: ValueList, y: Concat)
    requires c.parts != [] && LastPart(c).Object?
    requires var x := Focus(Member(LastPart(c).members, n, Implicit), k, DoAssign, Implicit);
      x.Ok? && Focus(x.value.(implicit := false), k, z => BuildList(z, g, vl), Manifest) == Ok(y)
    ensures var x := Focus(c, [Name(n)] + k, DoAssign, Implicit);
      x.Ok? && Focus(x.value, [Name(n)] + k, z => BuildList(z, g, vl), Manifest) == Ok(WithLast(c, Object(LastPart(c).members[n := y])))
  {
    hide BuildList;
    var m, q := LastPart(c).members, [Name(n)] + k;
    assert q[1..] == k && EnsureObject(c) == c;
    var x := Focus(Member(m, n, Implicit), k, DoAssign, Implicit).value;
    var d := WithLast(c, Object(m[n := x]));
    assert FocusMember(m, n, k, DoAssign, Implicit) == Ok(m[n := x]);
    assert Focus(c, q, DoAssign, Implicit) == Ok(d);
    assert EnsureObject(d) == d && LastPart(d).members == m[n := x];
    assert Member(m[n := x], n, Manifest) == x.(implicit := false);
    assert m[n := x][n := y] == m[n := y];
    assert FocusMember(m[n := x], n, k, z => BuildList(z, g, vl), Manifest) == Ok(m[n := y]);
    assert WithLast(d, Object(m[n := y])) == WithLast(c, Object(m[n := y]));
  }

  /** The same from a concat that has no object at the end yet, or another implicit flag. */
  lemma AssignFromAnywhere(c: Concat, k: Key, g: nat, vl: ValueList, z: Concat)
    requires k != [] && k[0].Name?
    requires var d := EnsureObject(c);
      var x := Focus(d, k, DoAssign, Implicit);
      x.Ok? && Focus(x.value, k, w => BuildList(w, g, vl), Manifest) == Ok(WithLast(d, Object(LastPart(d).members[k[0].name := z])))
    ensures var d := EnsureObject(c);
      var x := Focus(c, k, DoAssign, Implicit);
      && x.Ok?
      && Focus(x.value.(implicit := false), k, w => BuildList(w, g, vl), Manifest)
         == Ok(WithLast(d, Object(LastPart(d).members[k[0].name := z])).(implicit := false))
  {
    hide FocusMember, BuildList;
    var d := EnsureObject(c);
    assert EnsureObject(d) == d;
    assert Focus(c, k, DoAssign, Implicit) == Focus(d, k, DoAssign, Implicit);
    var x := Focus(c, k, DoAssign, Implicit).value;
    assert EnsureObject(x) == x && EnsureObject(x.(implicit := false)) == x.(implicit := false);
    var q := FocusMember(LastPart(x).members, k[0].name, k[1..], w => BuildList(w, g, vl), Manifest);
    assert WithLast(x, Object(q.value)) == WithLast(d, Object(LastPart(d).members[k[0].name := z]));
    assert WithLast(x.(implicit := false), Object(q.value)) == WithLast(x, Object(q.value)).(implicit := false);
  }

  lemma {:induction false} AppendBelow(m: Members, n: string, k: Key, g: nat, vl: ValueList) returns (y: Concat)
    requires WithinEntry(Object(m), g) && OrdinaryEntry(Object(m)) && NamePath(k) && ProperList(vl) && SimpleList(vl)
    ensures Focus(Member(m, n, Manifest), k, z => BuildList(z, g, vl), Manifest) == Ok(y)
    ensures Wrote(Member(m, n, Manifest), y, k, false, DenParts(vl.parts))
    decreases vl, 2, |k|
  {
    hide Within, OrdinaryEntry, ProperList, SimpleList, DenParts, BuildList, ErEntry, Same, Nested;
    var c := Member(m, n, Manifest);
    MemberWithin(m, n, Manifest, g);
    MemberOrdinary(m, n);
    if k == [] {
      ListAdds(c, g, vl);
      y := BuildList(c, g, vl).value;
      NestedEnd(false, DenParts(vl.parts));
    } else {
      var p, t := k[0].name, k[1..];
      var d := EnsureObject(c);
      EnsureWithin(c, g);
      EnsuredOrdinary(c);
      LastWithin(d, Null, g);
      var z := AppendBelow(LastPart(d).members, p, t, g, vl);
      y := WithLast(d, Object(LastPart(d).members[p := z]));
      AppendStep(d, p, t, g, vl, z);
      assert EnsureObject(d) == d;
      assert k == [Name(p)] + t;
      WroteName(c, p, t, z, false, DenParts(vl.parts));
    }
  }

  lemma AppendStep(c: Concat, n: string, k: Key, g: nat, vl: ValueList, y: Concat)
    requires c.parts != [] && LastPart(c).Object?
    requires Focus(Member(LastPart(c).members, n, Manifest), k, z => BuildList(z, g, vl), Manifest) == Ok(y)
    ensures Focus(c, [Name(n)] + k, z => BuildList(z, g, vl), Manifest) == Ok(WithLast(c, Object(LastPart(c).members[n := y])))
  {
    hide BuildList;
    assert ([Name(n)] + k)[1..] == k && EnsureObject(c) == c;
  }

  // ---- Whole files ---------------------------------------------------------------------------

  ghost predicate SimpleMembers(ms: seq<MemberDef>) {
    forall i | 0 <= i < |ms| :: ProperMember(ms[i]) && SimpleMember(ms[i])
  }

  /** The root after the definitions `ms`, when the counter starts at `g`. */
  ghost function Built(ms: seq<MemberDef>, g: nat): (o: Members)
    requires SimpleMembers(ms)
    ensures BuildMembers(Root(map[]), g, ms) == Ok(Root(o))
    ensures Merged(map[], o, DenMembers(ms))
  {
    EmptyRoot(g);
    hide Within, Ordinary, BuildMembers, Merged, ProperMember, SimpleMember;
    assert exists o :: BuildMembers(Root(map[]), g, ms) == Ok(Root(o)) && Merged(map[], o, DenMembers(ms)) by {
      var o := MembersAdd(Root(map[]), g, ms);
      assert WithLast(Root(map[]), Object(o)) == Root(o);
    }
    var o :| BuildMembers(Root(map[]), g, ms) == Ok(Root(o)) && Merged(map[], o, DenMembers(ms));
    o
  }

  lemma EmptyRoot(g: nat)
    ensures Within(Root(map[]), g) && Ordinary(Root(map[]))
    ensures Root(map[]).parts != [] && LastPart(Root(map[])) == Object(map[])
  {
  }

  /** In-place building in terms of merging: each definition on its own, then all of them merged. */
  lemma BuildingIsMerging(ms: seq<MemberDef>, g: nat)
    requires SimpleMembers(ms)
    ensures NormalEntry(Object(ErMembers(Built(ms, g)))) == NormalEntry(Object(DenMembers(ms)))
  {
    hide NormalEntry, ErMembers, Merge;
    NothingErased(DenMembers(ms));
  }

  lemma {:induction false} DenBoth(ms: seq<MemberDef>, ns: seq<MemberDef>)
    ensures DenMembers(ms + ns) == Merge(DenMembers(ms), DenMembers(ns))
    decreases |ms|
  {
    hide DenMember, Merge;
    if ms == [] {
      assert ms + ns == ns;
      MergeUnit(DenMembers(ns));
    } else {
      assert (ms + ns)[0] == ms[0] && (ms + ns)[1..] == ms[1..] + ns;
      DenBoth(ms[1..], ns);
      MergeAssociative(DenMember(ms[0]), DenMembers(ms[1..]), DenMembers(ns));
    }
  }

  // ---- Additions do not look at generations --------------------------------------------------

  lemma ErJoin(a: Entry, b: Entry)
    requires Joinable(a, b)
    ensures Joinable(ErEntry(a), ErEntry(b)) && ErEntry(Join(a, b)) == Join(ErEntry(a), ErEntry(b))
  {
    if a.Object? {
      hide Merge;
      ErObject(a.members);
      ErObject(b.members);
      ErObject(Merge(a.members, b.members));
      ErMerge(a.members, b.members);
    } else if a.Array? {
      hide Er;
      ErArray("", a.elements);
      ErArray("", b.elements);
      ErArray("", a.elements + b.elements);
      assert ErElements(a.elements + b.elements) == ErElements(a.elements) + ErElements(b.elements);
    }
  }

  lemma {:induction false} ErCollapse(ps: seq<Entry>)
    ensures ErParts(Collapse(ps)) == Collapse(ErParts(ps))
    decreases |ps|
  {
    hide ErEntry, Push;
    if ps != [] {
      hide ErParts;
      var init, e := ps[..|ps| - 1], ps[|ps| - 1];
      assert ps == init + [e];
      ErBoth(init, [e]);
      ErOne(e);
      ErCollapse(init);
      ErPush(Collapse(init), e);
      CollapseLast(ErParts(init), ErEntry(e));
    }
  }

  lemma ErPush(c: seq<Entry>, e: Entry)
    ensures ErParts(Push(c, e)) == Push(ErParts(c), ErEntry(e))
  {
    hide ErEntry, Join, Joinable, ClassOf;
    if c != [] {
      var l := c[|c| - 1];
      SameClassJoins(l, ErEntry(l), e);
      SameClassJoins(e, ErEntry(e), ErEntry(l));
      if Joinable(l, e) { ErJoin(l, e); }
    }
  }

  lemma {:induction false} ErNormal(c: Concat)
    ensures Normal(Er(c)) == Er(Normal(c))
    decreases Size(c), 2
  {
    hide NormalParts, ErEntry;
    ErNormalParts(c.parts);
    ErConcat(c);
    ErConcat(Normal(c));
  }

  lemma {:induction false} ErNormalParts(ps: seq<Entry>)
    ensures NormalParts(ErParts(ps)) == ErParts(NormalParts(ps))
    decreases SizeParts(ps), 1
  {
    hide NormalEntry, ErEntry, Collapse, SizeParts;
    Measure.CollapseCount(ps, 0);
    assert SizeParts(Collapse(ps)) <= SizeParts(ps) by { SizeIsCount(ps); SizeIsCount(Collapse(ps)); }
    ErCollapse(ps);
    var q := Collapse(ps);
    forall i | 0 <= i < |q| ensures NormalEntry(ErEntry(q[i])) == ErEntry(NormalEntry(q[i])) {
      SizePart(q, i);
      ErNormalEntry(q[i]);
    }
    assert NormalParts(ErParts(ps)) == ErParts(NormalParts(ps));
  }

  lemma SizeIsCount(ps: seq<Entry>)
    ensures SizeParts(ps) == Measure.CountParts(ps, 0)
  {
  }

  lemma {:induction false} ErNormalEntry(e: Entry)
    ensures NormalEntry(ErEntry(e)) == ErEntry(NormalEntry(e))
    decreases SizeEntry(e), 0
  {
    hide Normal, Er, SizeEntry, Size;
    match e {
      case Array(f, es) =>
        forall i | 0 <= i < |es| ensures Normal(Er(es[i])) == Er(Normal(es[i])) {
          SizeElement(f, es, i);
          ErNormal(es[i]);
        }
        ErNormalArray(f, es);
      case Object(m) =>
        forall n | n in m ensures Normal(Er(m[n])) == Er(Normal(m[n])) {
          SizeMember(m, n);
          ErNormal(m[n]);
        }
        ErNormalObject(m);
      case Asterisk(c) =>
        StarSize(c);
        ErNormal(c);
      case _ =>
    }
  }

  lemma ErNormalArray(f: string, es: seq<Concat>)
    requires forall i | 0 <= i < |es| :: Normal(Er(es[i])) == Er(Normal(es[i]))
    ensures NormalEntry(ErEntry(Array(f, es))) == ErEntry(NormalEntry(Array(f, es)))
  {
    hide Normal, Er;
    var e := Array(f, es);
    assert NormalEntry(ErEntry(e)).elements == ErEntry(NormalEntry(e)).elements;
  }

  lemma ErNormalObject(m: Members)
    requires forall n | n in m :: Normal(Er(m[n])) == Er(Normal(m[n]))
    ensures NormalEntry(ErEntry(Object(m))) == ErEntry(NormalEntry(Object(m)))
  {
    hide Normal, Er;
    var e := Object(m);
    assert NormalEntry(ErEntry(e)).members == ErEntry(NormalEntry(e)).members;
  }

  lemma StarSize(c: Concat)
    ensures Size(c) < SizeEntry(Asterisk(c))
  {
  }

  /** The additions pass made `n` times. */
  ghost function Passes(e: Entry, n: nat): Entry {
    if n == 0 then e else PassEntry(Passes(e, n - 1))
  }

  lemma {:induction false} PassesKeepNormal(e: Entry, n: nat)
    ensures NormalEntry(Passes(e, n)) == NormalEntry(e)
  {
    hide NormalEntry, PassEntry;
    if n > 0 {
      PassesKeepNormal(e, n - 1);
      PassKeepsNormalEntry(Passes(e, n - 1));
    }
  }

  /** `o` is what the additions make of `e` in the end. */
  ghost predicate AddedUp(e: Entry, o: Entry) {
    PassEntry(o) == o && exists n: nat :: Passes(e, n) == o
  }

  lemma AddedUpIsNormal(e: Entry, o: Entry)
    requires AddedUp(e, o)
    ensures LooseEntry(o) == NormalEntry(e)
  {
    hide NormalEntry, PassEntry, Passes, LooseEntry;
    var n: nat :| Passes(e, n) == o;
    PassesKeepNormal(e, n);
    FixedIsNormalEntry(o);
  }

  lemma {:induction false} ErLoose(c: Concat)
    ensures LooseTree(Er(c)) == Er(LooseTree(c)) && (Thin(c) ==> Thin(Er(c)))
  {
    hide LooseEntry, ErEntry, ThinEntry;
    ErConcat(c);
    forall i | 0 <= i < |c.parts|
      ensures LooseEntry(ErEntry(c.parts[i])) == ErEntry(LooseEntry(c.parts[i])) && (ThinEntry(c.parts[i]) ==> ThinEntry(ErEntry(c.parts[i])))
    {
      ErLooseEntry(c.parts[i]);
    }
    assert LooseTree(Er(c)).parts == Er(LooseTree(c)).parts;
  }

  lemma {:induction false} ErLooseEntry(e: Entry)
    ensures LooseEntry(ErEntry(e)) == ErEntry(LooseEntry(e)) && (ThinEntry(e) ==> ThinEntry(ErEntry(e)))
  {
    match e {
      case Array(f, es) =>
        forall i | 0 <= i < |es| ensures LooseTree(Er(es[i])) == Er(LooseTree(es[i])) && (Thin(es[i]) ==> Thin(Er(es[i]))) { ErLoose(es[i]); }
        hide LooseTree, Er, Thin;
        assert LooseEntry(ErEntry(e)).elements == ErEntry(LooseEntry(e)).elements;
      case Object(m) =>
        forall n | n in m ensures LooseTree(Er(m[n])) == Er(LooseTree(m[n])) && (Thin(m[n]) ==> Thin(Er(m[n]))) { ErLoose(m[n]); }
        hide LooseTree, Er, Thin;
        assert LooseEntry(ErEntry(e)).members == ErEntry(LooseEntry(e)).members;
      case Asterisk(c) => ErLoose(c);
      case _ =>
    }
  }

  /**
   Two sequences of definitions written into one object, and each written into an object of its own
   and the objects merged, add up to the same tree.
   */
  lemma WritingOnIsMerging(ms: seq<MemberDef>, ns: seq<MemberDef>, g: nat, h: nat, i: nat)
    requires SimpleMembers(ms) && SimpleMembers(ns)
    ensures SimpleMembers(ms + ns)
    ensures NormalEntry(ErEntry(Object(Built(ms + ns, g)))) == NormalEntry(ErEntry(Object(Merge(Built(ms, h), Built(ns, i)))))
  {
    hide NormalEntry, ErMembers, Merge, DenMembers, ErEntry, Built, ProperMember, SimpleMember;
    assert forall i | 0 <= i < |ms + ns| :: (ms + ns)[i] == if i < |ms| then ms[i] else ns[i - |ms|];
    var o, p, q := Built(ms + ns, g), Built(ms, h), Built(ns, i);
    BuildingIsMerging(ms + ns, g);
    BuildingIsMerging(ms, h);
    BuildingIsMerging(ns, i);
    DenBoth(ms, ns);
    ErObject(o);
    ErObject(Merge(p, q));
    ErMerge(p, q);
    JoinedObjects(ErMembers(p), ErMembers(q));
    JoinedObjects(DenMembers(ms), DenMembers(ns));
    JoinCongruence(Object(ErMembers(p)), Object(ErMembers(q)), Object(DenMembers(ms)), Object(DenMembers(ns)));
  }

  /**
   The same, for the trees that the additions passes end with, and exactly so where at most two
   doubles have met in any sum.
   */
  lemma WritingOnAddsUpAsMerging(ms: seq<MemberDef>, ns: seq<MemberDef>, g: nat, h: nat, i: nat, x: Entry, y: Entry)
    requires SimpleMembers(ms) && SimpleMembers(ns) && SimpleMembers(ms + ns)
    requires AddedUp(Object(Built(ms + ns, g)), x)
    requires AddedUp(Object(Merge(Built(ms, h), Built(ns, i))), y)
    ensures LooseEntry(ErEntry(x)) == LooseEntry(ErEntry(y))
    ensures ThinEntry(x) ==> ErEntry(x) == ErEntry(y)
  {
    hide NormalEntry, ErEntry, Built, Merge, AddedUp, SimpleMembers, LooseEntry, ThinEntry;
    var a, b := Object(Built(ms + ns, g)), Object(Merge(Built(ms, h), Built(ns, i)));
    WritingOnIsMerging(ms, ns, g, h, i);
    AddedUpIsNormal(a, x);
    AddedUpIsNormal(b, y);
    ErNormalEntry(a);
    ErNormalEntry(b);
    ErLooseEntry(x);
    ErLooseEntry(y);
    if ThinEntry(x) { ThinEntryIsExact(ErEntry(x), ErEntry(y)); }
  }

  lemma SameRoots(m: Members, o: Members)
    requires Root(m) == Root(o)
    ensures m == o
  {
    assert Root(m).parts[0] == Object(m) && Root(o).parts[0] == Object(o);
  }
}
