/** Files that show where laws end. */
module Samples {
  import opened Tree
  import opened Additions
  import opened Asterisks
  import opened Phase1
  import opened Parser
  import opened ParserLaws
  import opened Generations
  import opened Merging
  import opened Forming
  import opened Clashes
  import opened Functions
  import opened Everything
  import opened Pipeline
  import Orders
  import History
  import Stars

  function Just(e: Entry): ValueList {
    Sum([AtomPart(e)])
  }

  lemma JustFormed(c: Concat, e: Entry)
    ensures FormList(c, Just(e)) == Ok(c.(parts := c.parts + [e]))
  {
    var vs := [AtomPart(e)];
    assert vs[1..] == [];
    assert FormPart(c, vs[0]) == Ok(c.(parts := c.parts + [e]));
    assert FormParts(c.(parts := c.parts + [e]), []) == Ok(c.(parts := c.parts + [e]));
  }

  lemma JustIsProper(e: Entry)
    requires IsAtom(e)
    ensures ProperList(Just(e)) && SimpleList(Just(e))
  {
    assert Proper(AtomPart(e)) && Simple(AtomPart(e));
  }

  // ---- An error that is overwritten ----------------------------------------------------------

  const PATH: History.Path := ["a", "b"]

  /** `a.b = e` or `a.b += e`. */
  function Below(assign: bool, e: Entry): MemberDef {
    if assign then Assign(History.NamesOf(PATH), Just(e)) else AppendTo(History.NamesOf(PATH), Just(e))
  }

  /** The tree in which `a` holds `b` alone, with the given summands. */
  function Tree2(ps: seq<Entry>): Members {
    map["a" := EMPTY.(parts := [Object(map["b" := EMPTY.(parts := ps, remove := true)])])]
  }

  lemma AssignedTwo(m: Members, e: Entry)
    requires m == map[] || exists ps :: m == Tree2(ps)
    ensures FormMember(Root(m), Below(true, e)) == Ok(Root(Tree2([e])))
  {
    hide FormList, History.Assigned;
    var c := Root(m);
    var vl := Just(e);
    assert EnsureObject(c) == c && LastPart(c) == Object(m);
    History.RootAssigned(m, PATH, vl);
    History.AssignedBelow(c, PATH, vl);
    assert PATH[1..] == ["b"] && ["b"][1..] == [];
    var a := Member(m, "a", Implicit);
    History.AssignedBelow(a, ["b"], vl);
    var d := EnsureObject(a);
    var o := LastPart(d).members;
    var b := Member(o, "b", Implicit);
    History.AssignedHere(b, vl);
    JustFormed(b.(parts := [], remove := true, implicit := false), e);
    assert [] + [e] == [e];
    var x := b.(parts := [e], remove := true, implicit := false);
    assert x == EMPTY.(parts := [e], remove := true);
    assert o["b" := x] == map["b" := x];
    var y := WithLast(d, Object(o["b" := x])).(implicit := false);
    assert y == EMPTY.(parts := [Object(map["b" := x])]);
    assert m["a" := y] == Tree2([e]);
    assert WithLast(c, Object(m["a" := y])).(implicit := false) == Root(Tree2([e]));
  }

  lemma AppendedTwo(ps: seq<Entry>, e: Entry)
    ensures FormMember(Root(Tree2(ps)), Below(false, e)) == Ok(Root(Tree2(ps + [e])))
  {
    hide FormList;
    var m, f := Tree2(ps), (y: Concat) => FormList(y, Just(e));
    var c := Root(m);
    assert History.NamesOf(PATH) == [Name("a")] + [Name("b")] && [Name("b")] == [Name("b")] + [];
    assert EnsureObject(c) == c && LastPart(c) == Object(m);
    History.FocusName(c, "a", [Name("b")], f, Manifest);
    var a := Member(m, "a", Manifest);
    assert a == m["a"] && EnsureObject(a) == a;
    History.FocusName(a, "b", [], f, Manifest);
    var o := LastPart(a).members;
    var b := Member(o, "b", Manifest);
    assert b == o["b"];
    assert Focus(b, [], f, Manifest) == FormList(b, Just(e));
    JustFormed(b, e);
    var x := b.(parts := ps + [e]);
    assert o["b" := x] == map["b" := x];
    var y := WithLast(a, Object(o["b" := x]));
    assert y == EMPTY.(parts := [Object(map["b" := x])]) && m["a" := y] == Tree2(ps + [e]);
    assert WithLast(c, Object(m["a" := y])) == Root(Tree2(ps + [e]));
    FocusCongruence(c, History.NamesOf(PATH), f, y => FormList(y, Just(e)), Manifest);
  }

  lemma BelowIsSimple(assign: bool, e: Entry)
    requires IsAtom(e)
    ensures ProperMember(Below(assign, e)) && SimpleMember(Below(assign, e))
  {
    JustIsProper(e);
    hide ProperList, SimpleList;
    assert History.NamesOf(PATH) == [Name("a"), Name("b")];
  }

  /** What is built, up to generations, is what is formed. */
  lemma BuiltIsFormed(ms: seq<MemberDef>, g: nat, o: Members)
    requires SimpleMembers(ms) && FormMembers(Root(map[]), ms) == Ok(Root(o))
    ensures ErMembers(Built(ms, g)) == o
  {
    hide BuildMembers, FormMembers, ErMembers, ProperMember, SimpleMember, Within, Er;
    EmptyRoot(g);
    MembersErased(Root(map[]), g, ms);
    ErRoot(map[]);
    NothingErased(map[]);
    ErRoot(Built(ms, g));
    SameRoots(ErMembers(Built(ms, g)), o);
  }

  lemma TwoFormed(c: Concat, d: MemberDef, e: MemberDef)
    ensures FormMembers(c, [d, e]) == AndThen(FormMember(c, d), x => FormMember(x, e))
  {
    hide FormMember;
    assert [d, e] == [d] + [e];
    FormBoth(c, [d], [e]);
    OneFormed(c, d);
    var r := FormMember(c, d);
    if r.Ok? { OneFormed(r.value, e); }
  }

  /**
   `a.b = 1`, `a.b += "x"` in a first file and `a.b = 3` in a second: written into one object the
   error is overwritten, but the merged objects throw.
   */
  lemma ErrorsMayBeOverwritten(g: nat, h: nat, i: nat)
    ensures var ms, ns := [Below(true, Signed(1)), Below(false, Text("x"))], [Below(true, Signed(3))];
      && SimpleMembers(ms) && SimpleMembers(ns) && SimpleMembers(ms + ns)
      && NeverThrows(Built(ms + ns, g))
      && !NeverThrows(Merge(Built(ms, h), Built(ns, i)))
  {
    hide NeverThrows, Built, FormMembers, FormMember, SimpleMembers, ErMembers, Tree2, Below, SoundEntry, OrdinaryEntry;
    var ms, ns := [Below(true, Signed(1)), Below(false, Text("x"))], [Below(true, Signed(3))];
    ThreeSimple(ms, ns);
    ThreeFormed(ms, ns);
    BuiltIsFormed(ms, h, Tree2([Signed(1), Text("x")]));
    BuiltIsFormed(ns, i, Tree2([Signed(3)]));
    BuiltIsFormed(ms + ns, g, Tree2([Signed(3)]));
    WritingOnThrowsLess(ms, ns, g, h, i);
    BuiltIsOrdinary(ms + ns, g);
    InPlaceThrowsAtOnce(Built(ms + ns, g));
    OneIsSound(Built(ms + ns, g));
    TwoAreNot(Built(ms, h), Built(ns, i));
  }

  lemma ThreeSimple(ms: seq<MemberDef>, ns: seq<MemberDef>)
    requires ms == [Below(true, Signed(1)), Below(false, Text("x"))] && ns == [Below(true, Signed(3))]
    ensures SimpleMembers(ms) && SimpleMembers(ns) && SimpleMembers(ms + ns)
  {
    hide ProperMember, SimpleMember, Below;
    BelowIsSimple(true, Signed(1));
    BelowIsSimple(false, Text("x"));
    BelowIsSimple(true, Signed(3));
  }

  lemma ThreeFormed(ms: seq<MemberDef>, ns: seq<MemberDef>)
    requires ms == [Below(true, Signed(1)), Below(false, Text("x"))] && ns == [Below(true, Signed(3))]
    ensures FormMembers(Root(map[]), ms) == Ok(Root(Tree2([Signed(1), Text("x")])))
    ensures FormMembers(Root(map[]), ns) == Ok(Root(Tree2([Signed(3)])))
    ensures FormMembers(Root(map[]), ms + ns) == Ok(Root(Tree2([Signed(3)])))
  {
    hide FormMembers, FormMember, Tree2, Below;
    AssignedTwo(map[], Signed(1));
    AppendedTwo([Signed(1)], Text("x"));
    assert [Signed(1)] + [Text("x")] == [Signed(1), Text("x")];
    TwoFormed(Root(map[]), ms[0], ms[1]);
    AssignedTwo(map[], Signed(3));
    OneFormed(Root(map[]), ns[0]);
    AssignedTwo(Tree2([Signed(1), Text("x")]), Signed(3));
    FormBoth(Root(map[]), ms, ns);
    OneFormed(Root(Tree2([Signed(1), Text("x")])), ns[0]);
  }

  lemma OneIsSound(m: Members)
    requires ErMembers(m) == Tree2([Signed(3)])
    ensures SoundEntry(Object(m))
  {
    hide ErMembers;
    ErObject(m);
    SoundErEntry(Object(m));
    var b := EMPTY.(parts := [Signed(3)], remove := true);
    var a := EMPTY.(parts := [Object(map["b" := b])]);
    assert Sound(b) by { assert SoundEntry(b.parts[0]); }
    assert Sound(a) by { assert SoundEntry(Object(map["b" := b])); }
    assert Tree2([Signed(3)]) == map["a" := a];
    assert SoundEntry(Object(Tree2([Signed(3)])));
  }

  lemma TwoAreNot(m: Members, o: Members)
    requires ErMembers(m) == Tree2([Signed(1), Text("x")]) && ErMembers(o) == Tree2([Signed(3)])
    ensures !SharedAreSound(m, o)
  {
    hide Er;
    var b := EMPTY.(parts := [Signed(1), Text("x")], remove := true);
    var a := EMPTY.(parts := [Object(map["b" := b])]);
    assert Tree2([Signed(1), Text("x")]) == map["a" := a];
    assert "a" in ErMembers(m) && "a" in ErMembers(o);
    assert ErMembers(m).Keys == m.Keys && ErMembers(o).Keys == o.Keys;
    assert Er(m["a"]) == ErMembers(m)["a"] == a && Er(o["a"]) == ErMembers(o)["a"];
    ErConcat(o["a"]);
    assert !o["a"].remove;
    assert !Sound(b) by { assert Clash(b.parts[0], b.parts[1]); }
    assert !SoundEntry(Object(map["b" := b])) by { assert map["b" := b]["b"] == b; }
    assert !Sound(a) by { assert a.parts[0] == Object(map["b" := b]); }
    SoundEr(m["a"]);
  }

  // ---- A temporary element -------------------------------------------------------------------

  /** `a = [ 1 ]`, `(temporary a.0)` and `a.* = 5`. */
  const TEMPORARY: seq<MemberDef> := [
    Assign([Name("a")], Sum([ArrayPart([Just(Signed(1))])])),
    SetTemporary([Name("a"), Index(0)], true),
    Assign([Name("a"), Star], Just(Signed(5)))]

  function Element(flag: bool): Concat {
    EMPTY.(parts := [Signed(1)], temporary := flag)
  }

  const STAR: Concat := EMPTY.(parts := [Signed(5)], remove := true)

  function Only(ps: seq<Entry>): Members {
    map["a" := EMPTY.(parts := ps, remove := true)]
  }

  lemma FirstStep()
    ensures FormMember(Root(map[]), TEMPORARY[0]) == Ok(Root(Only([Array("", [Element(false)])])))
  {
    hide FormList, FormMember;
    LiteralFormed(EMPTY.(remove := true), Signed(1));
    AssignedName(map[], "a", Sum([ArrayPart([Just(Signed(1))])]), EMPTY.(parts := [Array("", [Element(false)])], remove := true));
  }

  /** `n = vl` at the root. */
  lemma AssignedName(m: Members, n: string, vl: ValueList, y: Concat)
    requires FormList(Member(m, n, Implicit).(parts := [], remove := true, implicit := false), vl) == Ok(y)
    ensures FormMember(Root(m), Assign([Name(n)], vl)) == Ok(Root(m[n := y]))
  {
    hide FormList, FormMember, History.Assigned;
    var c, p := Root(m), [n];
    assert History.NamesOf(p) == [Name(n)] && p[1..] == [];
    assert EnsureObject(c) == c && LastPart(c) == Object(m);
    History.RootAssigned(m, p, vl);
    History.AssignedBelow(c, p, vl);
    History.AssignedHere(Member(m, n, Implicit), vl);
    assert WithLast(c, Object(m[n := y])).(implicit := false) == Root(m[n := y]);
  }

  /** The literal `[ e ]` in an empty concat. */
  lemma LiteralFormed(x: Concat, e: Entry)
    requires x.parts == []
    ensures FormList(x, Sum([ArrayPart([Just(e)])])) == Ok(x.(parts := [Array("", [EMPTY.(parts := [e])])]))
  {
    hide FormPart, FormElements;
    var es, d := [Just(e)], EMPTY.(parts := [e]);
    OneElementFormed(e);
    ArrayFormed(x, es);
    assert EnsureArray(x) == x.(parts := [Array("", [])]);
    assert [] + [d] == [d];
    assert WithLast(EnsureArray(x), Array("", [d])) == x.(parts := [Array("", [d])]);
    LastFormed(x, ArrayPart(es));
  }

  lemma LastFormed(c: Concat, v: ValuePart)
    ensures FormList(c, Sum([v])) == FormPart(c, v)
  {
    var vs := [v];
    assert vs[0] == v && vs[1..] == [];
    var r := FormPart(c, v);
    if r.Ok? { assert FormParts(r.value, []) == r; }
  }

  lemma OneElementFormed(e: Entry)
    ensures FormElements([Just(e)]) == Ok([EMPTY.(parts := [e])])
  {
    hide FormList;
    JustFormed(EMPTY, e);
    assert EMPTY.parts + [e] == [e];
    ElementFormed(Just(e));
  }

  lemma ElementFormed(vl: ValueList)
    ensures var d := FormList(EMPTY, vl);
      d.Ok? ==> FormElements([vl]) == Ok([d.value])
  {
    var es, d := [vl], FormList(EMPTY, vl);
    assert es[0] == vl && es[1..] == [];
    assert FormElements([]) == Ok([]);
    if d.Ok? { assert [d.value] + [] == [d.value]; }
  }

  lemma SecondStep()
    ensures FormMember(Root(Only([Array("", [Element(false)])])), TEMPORARY[1]) == Ok(Root(Only([Array("", [Element(true)])])))
  {
    var m := Only([Array("", [Element(false)])]);
    var c, path, f := Root(m), [Name("a"), Index(0)], DoTemporary(true);
    assert path == [Name("a")] + [Index(0)] && [Index(0)][1..] == [];
    assert EnsureObject(c) == c && LastPart(c) == Object(m);
    History.FocusName(c, "a", [Index(0)], f, Implicit);
    var a := Member(m, "a", Implicit);
    assert a == m["a"] && a.parts == [Array("", [Element(false)])];
    assert Locate(a.parts, 0) == Ok((0, 0));
    assert Focus(Element(false), [], f, Implicit) == Ok(Element(true));
    assert [Element(false)][0 := Element(true)] == [Element(true)];
    var b := a.(parts := [Array("", [Element(true)])]);
    assert a.parts[0 := Array("", [Element(true)])] == b.parts;
    assert Focus(a, [Index(0)], f, Implicit) == Ok(b);
    assert m["a" := b] == Only([Array("", [Element(true)])]);
    assert WithLast(c, Object(m["a" := b])) == Root(m["a" := b]);
  }

  lemma ThirdStep()
    ensures FormMember(Root(Only([Array("", [Element(true)])])), TEMPORARY[2])
         == Ok(Root(Only([Array("", [Element(true)]), Asterisk(STAR)])))
  {
    hide FormMember;
    var e := Array("", [Element(true)]);
    StarAssigned(Only([e]), "a", e, Signed(5));
    assert Only([e])["a" := Only([e])["a"].(parts := [e, Asterisk(STAR)])] == Only([e, Asterisk(STAR)]);
  }

  /** `n.* = x` where `n` holds the summand `e`. */
  lemma StarAssigned(m: Members, n: string, e: Entry, x: Entry)
    requires n in m && !m[n].implicit && m[n].parts == [e] && !e.Asterisk?
    ensures FormMember(Root(m), Assign([Name(n), Star], Just(x)))
         == Ok(Root(m[n := m[n].(parts := [e, Asterisk(EMPTY.(parts := [x], remove := true))])]))
  {
    hide FormList, Focus;
    var s := EMPTY.(remove := true);
    var o := m[n := m[n].(parts := [e, Asterisk(s)])];
    NoPath(EMPTY, DoAssign, Implicit);
    StarBelow(m, n, e, EMPTY, s, DoAssign, Implicit);
    JustFormed(s, x);
    assert s.parts + [x] == [x];
    NoPath(s, y => FormList(y, Just(x)), Manifest);
    StarBelow(o, n, e, s, s.(parts := [x]), y => FormList(y, Just(x)), Manifest);
    assert o[n := m[n].(parts := [e, Asterisk(s.(parts := [x]))])] == m[n := m[n].(parts := [e, Asterisk(s.(parts := [x]))])];
  }

  lemma NoPath(c: Concat, f: Step, mode: Mode)
    ensures Focus(c, [], f, mode) == f(c)
  {
  }

  /** A step along `n.*` where `n` holds the summand `e`, and an asterisk or none. */
  lemma StarBelow(m: Members, n: string, e: Entry, s: Concat, t: Concat, f: Step, mode: Mode)
    requires n in m && !m[n].implicit && !e.Asterisk?
    requires (m[n].parts == [e, Asterisk(s)] || (m[n].parts == [e] && s == EMPTY)) && Focus(s, [], f, mode) == Ok(t)
    ensures Focus(Root(m), [Name(n), Star], f, mode) == Ok(Root(m[n := m[n].(parts := [e, Asterisk(t)])]))
  {
    hide Focus;
    var c := Root(m);
    assert [Name(n), Star] == [Name(n)] + [Star];
    assert EnsureObject(c) == c && LastPart(c) == Object(m);
    History.FocusName(c, n, [Star], f, mode);
    assert Member(m, n, mode) == m[n];
    StarStep(m[n], e, s, t, f, mode);
    var d := m[n].(parts := [e, Asterisk(t)]);
    assert WithLast(c, Object(m[n := d])) == Root(m[n := d]);
  }

  /** A step at the asterisk after the summand `e`, which is there or is made. */
  lemma StarStep(c: Concat, e: Entry, s: Concat, t: Concat, f: Step, mode: Mode)
    requires !e.Asterisk? && (c.parts == [e, Asterisk(s)] || (c.parts == [e] && s == EMPTY)) && Focus(s, [], f, mode) == Ok(t)
    ensures Focus(c, [Star], f, mode) == Ok(c.(parts := [e, Asterisk(t)]))
  {
    assert [Star][1..] == [];
    var d := EnsureAsterisk(c);
    assert d.parts == [e, Asterisk(s)];
    assert d.parts[1 := Asterisk(t)] == [e, Asterisk(t)];
  }

  lemma TemporaryFormed()
    ensures FormMembers(Root(map[]), TEMPORARY) == Ok(Root(Only([Array("", [Element(true)]), Asterisk(STAR)])))
  {
    hide FormMembers, FormMember;
    FirstStep();
    SecondStep();
    ThirdStep();
    var d, e, f := TEMPORARY[0], TEMPORARY[1], TEMPORARY[2];
    assert TEMPORARY == [d, e] + [f];
    FormBoth(Root(map[]), [d, e], [f]);
    TwoFormed(Root(map[]), d, e);
    OneFormed(Root(Only([Array("", [Element(true)])])), f);
  }

  lemma TemporaryFits()
    ensures ProperFile(TEMPORARY) && FitsFile(TEMPORARY)
  {
    JustIsProper(Signed(1));
    JustIsProper(Signed(5));
    var v := ArrayPart([Just(Signed(1))]);
    assert Proper(v) && ProperList(Sum([v])) by { assert Sum([v]).parts[0] == v; }
    assert Fits(94, AtomPart(Signed(1))) && FitsList(94, Just(Signed(1))) && FitsList(94, Just(Signed(5)));
    assert Fits(95, v) && FitsList(95, Sum([v]));
    assert ProperMember(TEMPORARY[0]) && ProperMember(TEMPORARY[1]) && ProperMember(TEMPORARY[2]);
    assert FitsMember(NESTING_LIMIT, TEMPORARY[0]) && FitsMember(NESTING_LIMIT, TEMPORARY[1]) && FitsMember(NESTING_LIMIT, TEMPORARY[2]);
  }

  /** What a file is parsed to, up to generations, is what it forms. */
  lemma ParsedIsFormed(ms: seq<MemberDef>, o: Members)
    requires ProperFile(ms) && FitsFile(ms) && FormMembers(Root(map[]), ms) == Ok(Root(o))
    ensures Parse(ms).Ok? && ErMembers(Parse(ms).value.root) == o
  {
    hide ExecMembers, BuildMembers, FormMembers, ErMembers, Within, ProperMember, FitsMember, Er;
    FileIsBuiltInPlace(ms);
    MembersAtRoot(map[], 1, ms);
    EmptyRoot(1);
    MembersErased(Root(map[]), 1, ms);
    ErRoot(map[]);
    NothingErased(map[]);
    FileIsFormed(ms);
    SameRoots(ErMembers(Parse(ms).value.root), o);
  }

  /**
   A file in which the asterisk leaves a temporary element temporary although it replaces its
   content; the member of an object with the same content would lose the flag.
   */
  lemma ReplacedElementStaysTemporary(n: string)
    ensures Parse(TEMPORARY).Ok?
    ensures var ps := ErMembers(Parse(TEMPORARY).value.root)["a"].parts;
      var m := map[n := Element(true)];
      && ps == [Array("", [Element(true)]), Asterisk(STAR)]
      && ExpandStar(ps, 1) == [Array("", [EMPTY.(parts := [Signed(5)], remove := true, temporary := true)])]
      && Collapse(ExpandStar([Object(m), Asterisk(STAR)], 1)) == [Object(map[n := STAR])]
  {
    hide FormMembers, ErMembers, ExpandStar, Collapse, ProperMember, FitsMember;
    TemporaryFits();
    TemporaryFormed();
    ParsedIsFormed(TEMPORARY, Only([Array("", [Element(true)]), Asterisk(STAR)]));
    ArrayExpanded();
    ObjectExpanded(n);
  }

  lemma ArrayExpanded()
    ensures ExpandStar([Array("", [Element(true)]), Asterisk(STAR)], 1)
         == [Array("", [EMPTY.(parts := [Signed(5)], remove := true, temporary := true)])]
  {
    var ps := [Array("", [Element(true)]), Asterisk(STAR)];
    assert ps[1..] == [Asterisk(STAR)] && [Asterisk(STAR)][1..] == [];
    assert NamesOf([]) == {} && NamesOf([Asterisk(STAR)]) == {} && NamesOf(ps) == {};
    var x := AfterStar(Element(true), STAR);
    assert [] + STAR.parts == STAR.parts && x == EMPTY.(parts := [Signed(5)], remove := true, temporary := true);
    assert AroundStar(ps, 1, 0, STAR).elements == [x];
    assert AroundStar(ps, 1, 0, STAR) == Array("", [x]);
  }

  lemma ObjectExpanded(n: string)
    ensures Collapse(ExpandStar([Object(map[n := Element(true)]), Asterisk(STAR)], 1)) == [Object(map[n := STAR])]
  {
    hide Collapse, ExpandStar;
    var m := map[n := Element(true)];
    Stars.AllOfOne(m);
    Stars.StarAmongObjects([Object(m)], STAR, []);
    assert [Object(m)] + [Asterisk(STAR)] + [] == [Object(m), Asterisk(STAR)];
    assert Stack(Element(true), STAR) == STAR;
    assert Stars.Around(m, STAR, map[]).Keys == {n};
    assert Stars.Around(m, STAR, map[])[n] == STAR;
    assert Stars.Around(m, STAR, map[]) == map[n := STAR];
  }

  // ---- The order of the passes ---------------------------------------------------------------

  function Refer(ref: seq<RefPart>): ValueList {
    Sum([ReferencePart(ref)])
  }

  lemma ReferFormed(c: Concat, ref: seq<RefPart>)
    ensures FormList(c, Refer(ref)) == Ok(c.(parts := c.parts + [Reference(ref)]))
  {
    LastFormed(c, ReferencePart(ref));
  }

  lemma ThreeFormedTo(d: MemberDef, e: MemberDef, f: MemberDef, c: Concat, x: Concat, y: Concat, z: Concat)
    requires FormMember(c, d) == Ok(x) && FormMember(x, e) == Ok(y) && FormMember(y, f) == Ok(z)
    ensures FormMembers(c, [d, e, f]) == Ok(z)
  {
    hide FormMembers, FormMember;
    assert [d, e, f] == [d, e] + [f];
    FormBoth(c, [d, e], [f]);
    TwoFormed(c, d, e);
    OneFormed(y, f);
  }

  /** `a.b = 1`, `c = (a)` and `c.* = 2`. */
  const STARS: seq<MemberDef> := [
    Below(true, Unsigned(1)), Assign([Name("c")], Refer([RefName("a")])), Assign([Name("c"), Star], Just(Unsigned(2)))]

  lemma StarsFormed()
    ensures FormMembers(Root(map[]), STARS) == Ok(Root(Orders.STARRED))
  {
    hide FormMembers, FormMember, FormList, Below;
    var r := Reference([RefName("a")]);
    var m := Tree2([Unsigned(1)]);
    var o := m["c" := EMPTY.(parts := [r], remove := true)];
    AssignedTwo(map[], Unsigned(1));
    ReferFormed(EMPTY.(remove := true), [RefName("a")]);
    assert [] + [r] == [r];
    AssignedName(m, "c", Refer([RefName("a")]), EMPTY.(parts := [r], remove := true));
    StarAssigned(o, "c", r, Unsigned(2));
    assert Orders.STARRED == o["c" := o["c"].(parts := [r, Asterisk(EMPTY.(parts := [Unsigned(2)], remove := true))])];
    ThreeFormedTo(STARS[0], STARS[1], STARS[2], Root(map[]), Root(m), Root(o), Root(Orders.STARRED));
  }

  /** Atoms and references are built as they are formed. */
  predicate Bare(vl: ValueList) {
    forall i | 0 <= i < |vl.parts| :: vl.parts[i].AtomPart? || vl.parts[i].ReferencePart?
  }

  lemma {:induction false} BareParts(c: Concat, g: nat, vs: seq<ValuePart>)
    requires Bare(Sum(vs))
    ensures BuildParts(c, g, vs) == FormParts(c, vs)
    decreases |vs|
  {
    if vs != [] {
      assert BuildPart(c, g, vs[0]) == FormPart(c, vs[0]);
      assert Bare(Sum(vs[1..])) by { assert forall i | 0 <= i < |vs[1..]| :: vs[1..][i] == vs[i + 1]; }
      BareParts(FormPart(c, vs[0]).value, GenPart(g, vs[0]), vs[1..]);
    }
  }

  lemma BareMember(c: Concat, g: nat, d: MemberDef)
    requires d.Assign? && Bare(d.value)
    ensures BuildMember(c, g, d) == FormMember(c, d)
  {
    hide Focus, BuildParts, FormParts, Bare;
    var f, h := (y: Concat) => BuildList(y, g, d.value), (y: Concat) => FormList(y, d.value);
    forall y ensures f(y) == h(y) { BareParts(y, g, d.value.parts); }
    var x := Focus(c, d.key, DoAssign, Implicit);
    if x.Ok? { FocusCongruence(x.value, d.key, f, h, Manifest); }
  }

  lemma {:induction false} BareMembers(c: Concat, g: nat, ms: seq<MemberDef>)
    requires forall i | 0 <= i < |ms| :: ms[i].Assign? && Bare(ms[i].value)
    ensures BuildMembers(c, g, ms) == FormMembers(c, ms)
    decreases |ms|
  {
    hide BuildMember, FormMember, Bare;
    if ms != [] {
      BareMember(c, g, ms[0]);
      var r := FormMember(c, ms[0]);
      if r.Ok? { BareMembers(r.value, GenMember(g, ms[0]), ms[1..]); }
    }
  }

  lemma StarsFit()
    ensures ProperFile(STARS) && FitsFile(STARS) && forall i | 0 <= i < |STARS| :: STARS[i].Assign? && Bare(STARS[i].value)
  {
    JustIsProper(Unsigned(1));
    JustIsProper(Unsigned(2));
    assert History.NamesOf(PATH) == [Name("a"), Name("b")];
    assert Proper(ReferencePart([RefName("a")])) && ProperList(Refer([RefName("a")]));
    assert FitsList(94, Just(Unsigned(1))) && FitsList(94, Just(Unsigned(2))) && FitsList(95, Refer([RefName("a")]));
    assert ProperMember(STARS[0]) && ProperMember(STARS[1]) && ProperMember(STARS[2]);
    assert FitsMember(NESTING_LIMIT, STARS[0]) && FitsMember(NESTING_LIMIT, STARS[1]) && FitsMember(NESTING_LIMIT, STARS[2]);
  }

  /** A file without calls whose result depends on the order of the passes: `c.b` is 1 or 2. */
  lemma StarFileHasTwoResults(fm: FunctionMap)
    ensures Parse(STARS).Ok?
    ensures var m, o := Parse(STARS).value.root, (n: Concat) => Orders.Beside([Object(map["b" := n])], Orders.ONE);
      && Phase2Ends([ExpandStars, CopyTargets, AddUp, CallFunctions], fm, m, o(Orders.ONE))
      && Phase2Ends([CopyTargets, ExpandStars, AddUp, CallFunctions], fm, m, o(Orders.TWO))
  {
    hide FormMembers, BuildMembers, ExecMembers, Phase2Ends, ProperMember, FitsMember, Bare;
    StarsFit();
    StarsFormed();
    BareMembers(Root(map[]), 1, STARS);
    FileIsBuiltInPlace(STARS);
    MembersAtRoot(map[], 1, STARS);
    SameRoots(Parse(STARS).value.root, Orders.STARRED);
    Orders.AsterisksMakeOrderMatter(fm);
  }

  const LITERAL: ValueList := Sum([ArrayPart([Just(Unsigned(7))])])

  /** `a = (default [ 7 ])` and `x = (a.0)`. */
  const CALLS: seq<MemberDef> := [
    Assign([Name("a")], Sum([FunctionPart("default", [LITERAL])])), Assign([Name("x")], Refer(Orders.FIRST))]

  const LISTED: Concat := EMPTY.(parts := [Array("", [EMPTY.(parts := [Unsigned(7)])])])

  const CALLED: Members := map[
    "a" := EMPTY.(parts := [Array("default", [LISTED])], remove := true),
    "x" := EMPTY.(parts := [Reference(Orders.FIRST)], remove := true)]

  lemma DefaultFormed(c: Concat)
    requires c.parts == []
    ensures FormList(c, CALLS[0].value) == Ok(c.(parts := [Array("default", [LISTED])]))
  {
    hide FormList, FormElements;
    LastFormed(c, FunctionPart("default", [LITERAL]));
    LiteralFormed(EMPTY, Unsigned(7));
    ElementFormed(LITERAL);
    var d := DoFunction("default")(c).value;
    assert d.parts == [Array("default", [])] && [] + [LISTED] == [LISTED];
    assert WithLast(d, Array("default", [LISTED])) == c.(parts := [Array("default", [LISTED])]);
  }

  lemma CallsFormed()
    ensures FormMembers(Root(map[]), CALLS) == Ok(Root(CALLED))
  {
    hide FormMembers, FormMember, FormList;
    var e, r := EMPTY.(remove := true), Reference(Orders.FIRST);
    var m := map["a" := CALLED["a"]];
    DefaultFormed(e);
    AssignedName(map[], "a", CALLS[0].value, CALLED["a"]);
    assert map[]["a" := CALLED["a"]] == m;
    ReferFormed(e, Orders.FIRST);
    assert [] + [r] == [r];
    AssignedName(m, "x", CALLS[1].value, CALLED["x"]);
    assert m["x" := CALLED["x"]] == CALLED;
    TwoFormed(Root(map[]), CALLS[0], CALLS[1]);
  }

  lemma CallsFit()
    ensures ProperFile(CALLS) && FitsFile(CALLS)
  {
    JustIsProper(Unsigned(7));
    var v, f := ArrayPart([Just(Unsigned(7))]), FunctionPart("default", [LITERAL]);
    assert Proper(v) && ProperList(LITERAL) && Proper(f) && ProperList(CALLS[0].value);
    assert Proper(ReferencePart(Orders.FIRST)) && ProperList(CALLS[1].value);
    assert FitsList(93, Just(Unsigned(7))) && Fits(94, v) && FitsList(94, LITERAL) && Fits(95, f) && FitsList(95, CALLS[0].value);
    assert FitsList(95, CALLS[1].value);
    assert ProperMember(CALLS[0]) && ProperMember(CALLS[1]);
    assert FitsMember(NESTING_LIMIT, CALLS[0]) && FitsMember(NESTING_LIMIT, CALLS[1]);
  }

  /** A concat that has one summand once generations are forgotten. */
  lemma OneLeft(c: Concat, e: Entry)
    requires Er(c).parts == [e]
    ensures |c.parts| == 1 && ErEntry(c.parts[0]) == e
    ensures e.Unsigned? || e.Reference? ==> c.parts == [e]
    ensures e.Array? && |e.elements| == 1 ==>
      && c.parts[0].Array? && c.parts[0].call == e.call && |c.parts[0].elements| == 1 && Er(c.parts[0].elements[0]) == e.elements[0]
  {
    hide Er;
    ErConcat(c);
    assert |ErParts(c.parts)| == |c.parts| && ErParts(c.parts)[0] == ErEntry(c.parts[0]);
    ErKinds(c.parts[0]);
    if e.Array? && |e.elements| == 1 {
      assert |ErElements(c.parts[0].elements)| == |c.parts[0].elements|;
      assert ErElements(c.parts[0].elements)[0] == Er(c.parts[0].elements[0]);
    }
  }

  lemma CalledShape(m: Members) returns (l: Concat, s: Concat)
    requires ErMembers(m) == CALLED
    ensures Orders.Calling(m, l, s)
  {
    hide Er;
    assert m.Keys == CALLED.Keys && Er(m["a"]) == CALLED["a"] && Er(m["x"]) == CALLED["x"];
    OneLeft(m["a"], Array("default", [LISTED]));
    OneLeft(m["x"], Reference(Orders.FIRST));
    l := m["a"].parts[0].elements[0];
    OneLeft(l, LISTED.parts[0]);
    s := l.parts[0].elements[0];
    OneLeft(s, Unsigned(7));
    assert m["a"].parts == [m["a"].parts[0]] && l.parts == [l.parts[0]];
    assert m["a"].parts[0].elements == [l] && l.parts[0].elements == [s];
  }

  /** A file without asterisks whose result depends on the order of the passes: `x` is `[ 7 ]` or `7`. */
  lemma CallFileHasTwoResults(fm: FunctionMap) returns (l: Concat, s: Concat)
    requires Orders.HasDefault(fm)
    ensures Parse(CALLS).Ok? && Orders.Calling(Parse(CALLS).value.root, l, s)
    ensures var m := Parse(CALLS).value.root;
      && Phase2Ends([CopyTargets, CallFunctions, AddUp, ExpandStars], fm, m, Orders.Became(m, l.parts, l.parts))
      && Phase2Ends([CallFunctions, CopyTargets, AddUp, ExpandStars], fm, m, Orders.Became(m, l.parts, s.parts))
  {
    hide FormMembers, ErMembers, Phase2Ends, ProperMember, FitsMember, Orders.Calling;
    CallsFit();
    CallsFormed();
    ParsedIsFormed(CALLS, CALLED);
    l, s := CalledShape(Parse(CALLS).value.root);
    Orders.CallsMakeOrderMatter(fm, Parse(CALLS).value.root, l, s);
  }
}
