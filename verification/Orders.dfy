/** Where the order of the passes does matter, in trees with calls or asterisks and for errors. */
module Orders {
  import opened Tree
  import opened Additions
  import opened Asterisks
  import opened Functions
  import opened Access
  import opened References
  import opened Everything
  import opened Callless
  import opened Pipeline
  import Expansion
  import Stability

  function Only(e: Entry): Concat {
    EMPTY.(parts := [e])
  }

  // ---- Turns of the loop ---------------------------------------------------------------------

  lemma NextPass(ks: seq<PassKind>, fm: FunctionMap, m: Members, o: Members)
    requires ks != [] && RunPass(ks[0], fm, m) == Ok(o)
    ensures RunPasses(ks, fm, m) == RunPasses(ks[1..], fm, o)
  {
    hide RunPass;
  }

  lemma EndsInOneTurn(ks: seq<PassKind>, fm: FunctionMap, m: Members, o: Members)
    requires RunPasses(ks, fm, m) == Ok(o) && PrimitiveEntry(Object(o))
    ensures Phase2Ends(ks, fm, m, o)
  {
    hide RunPass, RunPasses, PrimitiveEntry;
    assert Rounds(ks, fm, m, 0) == Ok(m) && Rounds(ks, fm, m, 1) == Ok(o);
    forall k | k in ks ensures RunPass(k, fm, o) == Ok(o) { PassesKeepPrimitive(k, fm, o); }
  }

  // ---- Trees with one reference --------------------------------------------------------------

  /** No reference is visited in the subtree. */
  ghost predicate Quiet(c: Concat) {
    forall s :: !Live(c, s)
  }

  /** The only reference of the tree is the summand `i` of the member `n`. */
  ghost predicate OneReference(m: Members, n: string, i: nat) {
    && n in m && i < |m[n].parts| && m[n].parts[i].Reference?
    && (forall x | x in m && x != n :: Quiet(m[x]))
    && (forall j | 0 <= j < |m[n].parts| && j != i :: Quiet(Only(m[n].parts[j])))
  }

  lemma SiteIn(m: Members, n: string, i: nat, s: Site)
    requires OneReference(m, n, i) && Live(Root(m), s)
    ensures s == Site([ToMember(0, n)], i)
  {
    ReplaceBelow(Root(m), s, Null);
    var x, t := s.pos[0].name, Site(s.pos[1..], s.part);
    assert x in m && Live(m[x], t);
    if t.pos != [] {
      ReplaceBelow(m[n], t, Null);
      var h := t.pos[0];
      var g := if h.ToMember? then ToMember(0, h.name) else ToElement(0, h.index);
      var u := Site([g] + t.pos[1..], t.part);
      assert u.pos[0] == g && u.pos[1..] == t.pos[1..];
      assert Live(Only(m[n].parts[h.part]), u);
    } else if t.part != i {
      assert Live(Only(m[n].parts[t.part]), Site([], 0));
    }
    assert s.pos == [s.pos[0]] + t.pos;
  }

  lemma AtMember(m: Members, n: string, i: nat)
    requires n in m && i < |m[n].parts| && m[n].parts[i].Reference?
    ensures var r, s := Root(m), Site([ToMember(0, n)], i);
      && Live(r, s) && KeyOf(s.pos) == [Name(n)] && ReferenceAt(r, s) == m[n].parts[i].target
      && forall e :: Replace(r, s, e) == Root(m[n := m[n].(parts := m[n].parts[i := e])])
  {
    var r, s := Root(m), Site([ToMember(0, n)], i);
    assert s.pos[1..] == [] && HasChild(r, s.pos[0]) && Child(r, s.pos[0]) == m[n];
    assert Valid(m[n], []) && Get(m[n], []) == m[n] && KeyOf([]) == [];
    assert Valid(r, s.pos) && Get(r, s.pos) == m[n];
    forall e ensures Replace(r, s, e) == Root(m[n := m[n].(parts := m[n].parts[i := e])]) {
      var d := m[n].(parts := m[n].parts[i := e]);
      assert Put(m[n], [], d) == d;
      assert Replace(r, s, e) == WithChild(r, s.pos[0], d);
      assert r.parts[0 := Object(m[n := d])] == [Object(m[n := d])];
    }
  }

  lemma OneSite(m: Members, n: string, i: nat)
    requires OneReference(m, n, i)
    ensures SitesOf(Root(m)) == [Site([ToMember(0, n)], i)] && Live(Root(m), Site([ToMember(0, n)], i))
  {
    var s, sites := Site([ToMember(0, n)], i), SitesOf(Root(m));
    AtMember(m, n, i);
    hide SitesOf, OneReference, Live;
    SitesAreTheReferences(Root(m));
    assert s in sites;
    forall t | t in sites ensures t == s { SiteIn(m, n, i, t); }
    OneElement(sites, s);
  }

  lemma OneElement<T>(xs: seq<T>, x: T)
    requires Distinct(xs) && x in xs && forall y | y in xs :: y == x
    ensures xs == [x]
  {
    OneIndex(xs, x, 0, |xs| - 1);
  }

  lemma OneIndex<T>(xs: seq<T>, x: T, i: nat, j: nat)
    requires Distinct(xs) && (forall y | y in xs :: y == x) && i < |xs| && j < |xs|
    ensures i == j
  {
    assert xs[i] in xs && xs[j] in xs;
  }

  /** The pass on a tree whose only reference is resolved. */
  lemma OneCopy(fm: FunctionMap, m: Members, n: string, i: nat, e: Entry)
    requires OneReference(m, n, i)
    requires var t := Resolve(m, [Name(n)], m[n].parts[i].target); t.Found? && t.target.parts == [e]
    ensures RunPass(CopyTargets, fm, m) == Ok(m[n := m[n].(parts := m[n].parts[i := e])])
  {
    hide Resolve, SitesOf, Quiet;
    var r, s := Root(m), Site([ToMember(0, n)], i);
    OneSite(m, n, i);
    AtMember(m, n, i);
    assert Visit(r, s) == Ok(Replace(r, s, e));
    hide Visit, Replace, Live, ReferenceAt;
    assert [s][1..] == [] && VisitAll(Replace(r, s, e), []) == Ok(Replace(r, s, e));
    assert VisitAll(r, [s]) == Visit(r, s);
  }

  lemma PrimitiveIsQuiet(c: Concat)
    requires Primitive(c)
    ensures Quiet(c)
  {
    hide Live, Primitive;
    forall s ensures !Live(c, s) { Stability.PrimitiveHasNoReference(c, s); }
  }

  // ---- Calls ---------------------------------------------------------------------------------

  ghost predicate HasDefault(fm: FunctionMap) {
    "default" in fm && fm["default"].Default?
  }

  const FIRST := [RefName("a"), RefIndex(0)]

  /** `a = (default [ 7 ])` and `x = (a.0)`, where `l` is the list and `s` the number in it. */
  ghost predicate Calling(m: Members, l: Concat, s: Concat) {
    && m.Keys == {"a", "x"}
    && m["a"].parts == [Array("default", [l])] && m["x"].parts == [Reference(FIRST)]
    && l.parts == [Array("", [s])] && s.parts == [Unsigned(7)]
  }

  /** The tree with other summands in both members. */
  function Became(m: Members, a: seq<Entry>, x: seq<Entry>): Members
    requires m.Keys == {"a", "x"}
  {
    map["a" := m["a"].(parts := a), "x" := m["x"].(parts := x)]
  }

  lemma FinishedCalling(m: Members, l: Concat, s: Concat, x: seq<Entry>)
    requires Calling(m, l, s)
    ensures Primitive(s) && Primitive(l) && l.parts[0].elements == [s]
    ensures x == l.parts || x == s.parts ==>
      Primitive(m["x"].(parts := x)) && PrimitiveEntry(Object(Became(m, l.parts, x)))
  {
    assert Primitive(s);
    assert PrimitiveEntry(l.parts[0]);
    SameIsPrimitive(l, m["a"].(parts := l.parts));
    if x == l.parts { SameIsPrimitive(l, m["x"].(parts := x)); }
    if x == s.parts { SameIsPrimitive(s, m["x"].(parts := x)); }
  }

  lemma SameIsPrimitive(c: Concat, d: Concat)
    requires Primitive(c) && c.parts == d.parts
    ensures Primitive(d)
  {
    hide PrimitiveEntry;
  }

  lemma KeyOfNames(m: Members, p: Key)
    ensures forall n :: ResolveKey(m, p, [RefName(n)]) == Known([Name(n)])
    ensures forall n, i :: ResolveKey(m, p, [RefName(n), RefIndex(i)]) == Known([Name(n), Index(i)])
  {
    forall n ensures ResolveKey(m, p, [RefName(n)]) == Known([Name(n)]) { KeyStep(m, p, RefName(n), [], Name(n), []); }
    forall n, i ensures ResolveKey(m, p, [RefName(n), RefIndex(i)]) == Known([Name(n), Index(i)]) {
      KeyStep(m, p, RefIndex(i), [], Index(i), []);
      KeyStep(m, p, RefName(n), [RefIndex(i)], Name(n), [Index(i)]);
      assert [RefName(n), RefIndex(i)] == [RefName(n)] + [RefIndex(i)] && [Name(n), Index(i)] == [Name(n)] + [Index(i)];
    }
  }

  lemma KeyStep(m: Members, p: Key, part: RefPart, rest: seq<RefPart>, k: KeyPart, ks: Key)
    requires ResolvePart(m, p, part) == Known(k) && ResolveKey(m, p, rest) == Known(ks)
    ensures ResolveKey(m, p, [part] + rest) == Known([k] + ks)
    ensures [part] + [] == [part] && [k] + [] == [k]
  {
    assert ([part] + rest)[0] == part && ([part] + rest)[1..] == rest;
  }

  lemma TargetOfIndex(m: Members, c: Concat)
    requires "a" in m && |m["a"].parts| == 1 && m["a"].parts[0].Array? && m["a"].parts[0].elements == [c] && Primitive(c)
    ensures Resolve(m, [Name("x")], FIRST) == Found(c)
  {
    hide Primitive;
    KeyOfNames(m, [Name("x")]);
    var key: Key := [Name("a"), Index(0)];
    assert [Name("x")][..0] == [] && [][..0] + key == key && key[1..] == [Index(0)] && [Index(0)][1..] == [];
    assert AccessConcat(c, [], -2) == Found(c);
    assert AccessConcat(m["a"], [Index(0)], -1) == Found(c);
  }

  lemma DefaultCalled(fm: FunctionMap, c: Concat, l: Concat)
    requires HasDefault(fm) && c.parts == [Array("default", [l])] && |l.parts| == 1
    requires l.parts[0].Array? && l.parts[0].call == "" && Free(Invocation, l)
    ensures CallAll(fm, c) == Ok(c.(parts := l.parts))
  {
    var e, v := c.parts[0], l.parts[0];
    CallsOfFree(fm, l);
    assert CallElements(fm, e, 1) == Ok([]) && CallAll(fm, e.elements[0]) == Ok(l);
    assert CallElements(fm, e, 0) == Ok([l] + []) && [l] + [] == [l];
    assert Invoke(fm, "default", [l]) == Value(v);
    assert CallEntry(fm, e) == Ok(v);
    assert CallParts(fm, c, 1) == Ok([]);
    assert CallParts(fm, c, 0) == Ok([v] + []) && [v] + [] == l.parts;
  }

  /** The functions pass, before and after `x` has been overwritten. */
  lemma BothCalled(fm: FunctionMap, m: Members, l: Concat, s: Concat, x: seq<Entry>)
    requires HasDefault(fm) && Calling(m, l, s) && Free(Invocation, m["x"].(parts := x))
    ensures RunPass(CallFunctions, fm, Became(m, m["a"].parts, x)) == Ok(Became(m, l.parts, x))
  {
    hide CallAll, CallEntry, Free, Primitive;
    var n, o := Became(m, m["a"].parts, x), Became(m, l.parts, x);
    FinishedCalling(m, l, s, x);
    PrimitiveIsFree(Invocation, l);
    DefaultCalled(fm, n["a"], l);
    CallsOfFree(fm, n["x"]);
    CalledObject(fm, n, o);
  }

  lemma BecameItself(m: Members)
    requires m.Keys == {"a", "x"}
    ensures Became(m, m["a"].parts, m["x"].parts) == m
  {
  }

  lemma ReferenceIsFree(m: Members, l: Concat, s: Concat)
    requires Calling(m, l, s)
    ensures Free(Invocation, m["x"].(parts := m["x"].parts))
  {
  }

  /** A target that lies in the arguments of a call goes away with the call, and another one may take its place. */
  lemma CallsMoveTargets(fm: FunctionMap, m: Members, l: Concat, s: Concat)
    requires HasDefault(fm) && Calling(m, l, s)
    ensures Resolve(m, [Name("x")], FIRST) == Found(l)
    ensures RunPass(CallFunctions, fm, m).Ok?
    ensures Resolve(RunPass(CallFunctions, fm, m).value, [Name("x")], FIRST) == Found(s)
  {
    hide RunPass, Resolve, Primitive, Free;
    FinishedCalling(m, l, s, l.parts);
    ReferenceIsFree(m, l, s);
    BecameItself(m);
    BothCalled(fm, m, l, s, m["x"].parts);
    TargetOfIndex(m, l);
    TargetOfIndex(Became(m, l.parts, m["x"].parts), s);
  }

  lemma OnlyX(m: Members, e: Entry)
    requires m.Keys == {"a", "x"} && Quiet(m["a"]) && m["x"].parts == [Reference(FIRST)]
    ensures OneReference(m, "x", 0) && m["x" := m["x"].(parts := m["x"].parts[0 := e])] == Became(m, m["a"].parts, [e])
  {
    hide Quiet;
    assert m["x"].parts[0 := e] == [e];
  }

  lemma ListIsQuiet(c: Concat, l: Concat)
    requires Primitive(l) && (c.parts == [Array("default", [l])] || c.parts == l.parts)
    ensures Quiet(c)
  {
    hide Primitive;
    forall s ensures !Live(c, s) {
      if Live(c, s) {
        if c.parts == l.parts {
          SameSites(c, l, s);
          Stability.PrimitiveHasNoReference(l, s);
        } else {
          ReplaceBelow(c, s, Null);
          Stability.PrimitiveHasNoReference(l, Site(s.pos[1..], s.part));
        }
      }
    }
  }

  lemma SameSites(c: Concat, d: Concat, s: Site)
    requires c.parts == d.parts && Live(c, s)
    ensures Live(d, s)
  {
    if s.pos != [] { assert HasChild(d, s.pos[0]) && Child(d, s.pos[0]) == Child(c, s.pos[0]); }
  }

  lemma CopiedThenCalled(fm: FunctionMap, m: Members, l: Concat, s: Concat)
    requires HasDefault(fm) && Calling(m, l, s)
    ensures RunPass(CopyTargets, fm, m) == Ok(Became(m, m["a"].parts, l.parts))
    ensures RunPass(CallFunctions, fm, Became(m, m["a"].parts, l.parts)) == Ok(Became(m, l.parts, l.parts))
  {
    hide RunPass, Resolve, Quiet, Primitive, PrimitiveEntry, Free;
    FinishedCalling(m, l, s, l.parts);
    ListIsQuiet(m["a"], l);
    PrimitiveIsFree(Invocation, m["x"].(parts := l.parts));
    TargetOfIndex(m, l);
    OnlyX(m, l.parts[0]);
    assert l.parts == [l.parts[0]];
    OneCopy(fm, m, "x", 0, l.parts[0]);
    BothCalled(fm, m, l, s, l.parts);
  }

  lemma CalledThenCopied(fm: FunctionMap, m: Members, l: Concat, s: Concat)
    requires HasDefault(fm) && Calling(m, l, s)
    ensures RunPass(CallFunctions, fm, m) == Ok(Became(m, l.parts, m["x"].parts))
    ensures RunPass(CopyTargets, fm, Became(m, l.parts, m["x"].parts)) == Ok(Became(m, l.parts, s.parts))
  {
    hide RunPass, Resolve, Quiet, Primitive, PrimitiveEntry, Free;
    FinishedCalling(m, l, s, s.parts);
    BecameItself(m);
    ReferenceIsFree(m, l, s);
    BothCalled(fm, m, l, s, m["x"].parts);
    var d := Became(m, l.parts, m["x"].parts);
    ListIsQuiet(d["a"], l);
    TargetOfIndex(d, s);
    OnlyX(d, s.parts[0]);
    assert s.parts == [s.parts[0]];
    OneCopy(fm, d, "x", 0, s.parts[0]);
  }

  /** Copying before or after the call gives different values to `x`. */
  lemma CallsMakeOrderMatter(fm: FunctionMap, m: Members, l: Concat, s: Concat)
    requires HasDefault(fm) && Calling(m, l, s)
    ensures Phase2Ends([CopyTargets, CallFunctions, AddUp, ExpandStars], fm, m, Became(m, l.parts, l.parts))
    ensures Phase2Ends([CallFunctions, CopyTargets, AddUp, ExpandStars], fm, m, Became(m, l.parts, s.parts))
  {
    hide RunPass, Phase2Ends, PrimitiveEntry, Primitive;
    var a, b := Became(m, l.parts, l.parts), Became(m, l.parts, s.parts);
    FinishedCalling(m, l, s, l.parts);
    FinishedCalling(m, l, s, s.parts);
    CopiedThenCalled(fm, m, l, s);
    CalledThenCopied(fm, m, l, s);
    PassesKeepPrimitive(AddUp, fm, a);
    PassesKeepPrimitive(AddUp, fm, b);
    ThreePasses([CopyTargets, CallFunctions, AddUp, ExpandStars], fm, m, Became(m, m["a"].parts, l.parts), a, a);
    ThreePasses([CallFunctions, CopyTargets, AddUp, ExpandStars], fm, m, Became(m, l.parts, m["x"].parts), b, b);
  }

  /** The first turn ends with a finished tree. */
  lemma ThreePasses(ks: seq<PassKind>, fm: FunctionMap, m: Members, n: Members, o: Members, p: Members)
    requires |ks| == 4 && PrimitiveEntry(Object(p))
    requires RunPass(ks[0], fm, m) == Ok(n) && RunPass(ks[1], fm, n) == Ok(o) && RunPass(ks[2], fm, o) == Ok(p)
    ensures Phase2Ends(ks, fm, m, p)
  {
    hide RunPass, RunPasses, PrimitiveEntry;
    NextPass(ks, fm, m, n);
    NextPass(ks[1..], fm, n, o);
    NextPass(ks[1..][1..], fm, o, p);
    PassesOnPrimitive(ks[1..][1..][1..], fm, p);
    EndsInOneTurn(ks, fm, m, p);
  }

  // ---- Asterisks -----------------------------------------------------------------------------

  /** A concat as an assignment leaves it. */
  function Assigned(ps: seq<Entry>): Concat {
    EMPTY.(parts := ps, remove := true)
  }

  const ONE := Assigned([Unsigned(1)])
  const TWO := Assigned([Unsigned(2)])

  /** `a.b = 1` and `c = (a)` and `c.* = 2`. */
  const STARRED: Members := Beside([Reference([RefName("a")]), Asterisk(TWO)], ONE)

  /** The member `c` with some summands, and `a` with the member `b`. */
  function Beside(ps: seq<Entry>, n: Concat): Members {
    map["c" := Assigned(ps), "a" := Only(Object(map["b" := n]))]
  }

  lemma PlainA(ps: seq<Entry>, n: Concat)
    requires Primitive(n)
    ensures Primitive(Beside(ps, n)["a"])
  {
  }

  lemma TargetIsA(ps: seq<Entry>, n: Concat)
    requires Primitive(n)
    ensures Resolve(Beside(ps, n), [Name("c")], [RefName("a")]) == Found(Beside(ps, n)["a"])
  {
    var m := Beside(ps, n);
    KeyOfNames(m, [Name("c")]);
    var key: Key := [Name("a")];
    assert [Name("c")][..0] == [] && [][..0] + key == key && key[1..] == [];
    assert Primitive(m["a"]);
  }

  lemma CopyOfA(fm: FunctionMap, ps: seq<Entry>, i: nat, n: Concat)
    requires Primitive(n) && i < |ps| && ps[i] == Reference([RefName("a")])
    requires forall j | 0 <= j < |ps| && j != i :: Quiet(Only(ps[j]))
    ensures RunPass(CopyTargets, fm, Beside(ps, n)) == Ok(Beside(ps[i := Object(map["b" := n])], n))
  {
    hide RunPass, Resolve, Quiet, Primitive;
    var m, o := Beside(ps, n), Object(map["b" := n]);
    TargetIsA(ps, n);
    PlainA(ps, n);
    PrimitiveIsQuiet(m["a"]);
    OneCopy(fm, m, "c", i, o);
    assert m["c" := m["c"].(parts := ps[i := o])] == Beside(ps[i := o], n);
  }

  lemma StarIsQuiet(s: Concat)
    ensures Quiet(Only(Asterisk(s)))
  {
    forall t ensures !Live(Only(Asterisk(s)), t) {
      if Live(Only(Asterisk(s)), t) && t.pos != [] { ReplaceBelow(Only(Asterisk(s)), t, Null); }
    }
  }

  lemma BesideExpanded(fm: FunctionMap, ps: seq<Entry>, qs: seq<Entry>, n: Concat)
    requires Expand(Assigned(ps)) == Ok(Assigned(qs)) && Primitive(n)
    ensures RunPass(ExpandStars, fm, Beside(ps, n)) == Ok(Beside(qs, n))
  {
    hide Expand, ExpandBelow, Primitive;
    var m := Beside(ps, n);
    PlainA(ps, n);
    Stability.ExpandOfPrimitive(m["a"]);
    Expansion.ExpandObject(m);
    assert ExpandBelow(Object(m)).value.members == Beside(qs, n);
  }

  lemma StarWithReference()
    ensures Expand(STARRED["c"]) == Ok(Assigned([Reference([RefName("a")])]))
  {
    hide ExpandFrom, ExpandBelow;
    var ps := STARRED["c"].parts;
    var r := ps[0];
    assert ps[1..] == [Asterisk(TWO)] && ps[1..][1..] == [] && NamesOf([]) == {} && NamesOf(ps[1..]) == {} && NamesOf(ps) == {};
    assert ExpandStar(ps, 1) == [r];
    Expansion.ExpandFromStep(ps, 0);
    Expansion.ExpandFromStep(ps, 1);
    Expansion.ExpandFromStep([r], 1);
  }

  lemma StarWithObject()
    ensures Expand(Assigned([Object(map["b" := ONE]), Asterisk(TWO)]))
         == Ok(Assigned([Object(map["b" := ONE]), Object(map["b" := TWO])]))
  {
    hide ExpandFrom, ExpandBelow;
    var o := Object(map["b" := ONE]);
    var ps, qs := [o, Asterisk(TWO)], [o, Object(map["b" := TWO])];
    assert ps[1..] == [Asterisk(TWO)] && ps[1..][1..] == [] && NamesOf([]) == {} && NamesOf(ps[1..]) == {} && NamesOf(ps) == {"b"};
    var names := NamesOf(ps);
    assert (map n | n in names :: TWO) == map["b" := TWO];
    assert ExpandStar(ps, 1) == qs;
    Expansion.ExpandFromStep(ps, 0);
    Expansion.ExpandFromStep(ps, 1);
    Expansion.ExpandFromStep(qs, 2);
  }

  lemma BesideAddedUp(fm: FunctionMap, ps: seq<Entry>, qs: seq<Entry>, n: Concat)
    requires Sound(Assigned(ps)) && Pass(Assigned(ps)) == Assigned(qs) && Primitive(n)
    ensures RunPass(AddUp, fm, Beside(ps, n)) == Ok(Beside(qs, n))
  {
    hide Pass, Sound, Primitive;
    var m := Beside(ps, n);
    PlainA(ps, n);
    Stability.PassOfPrimitive(m["a"]);
    PrimitiveIsSound(m["a"]);
    ObjectPass(m);
    assert PassEntry(Object(m)).members == Beside(qs, n);
  }

  /** The asterisk acts on the copy or goes away before there is one. */
  lemma AsterisksMakeOrderMatter(fm: FunctionMap)
    ensures Phase2Ends([ExpandStars, CopyTargets, AddUp, CallFunctions], fm, STARRED, Beside([Object(map["b" := ONE])], ONE))
    ensures Phase2Ends([CopyTargets, ExpandStars, AddUp, CallFunctions], fm, STARRED, Beside([Object(map["b" := TWO])], ONE))
  {
    ExpandedThenCopied(fm);
    CopiedThenExpanded(fm);
  }

  lemma FinishedBeside(n: Concat)
    requires Primitive(n)
    ensures PrimitiveEntry(Object(Beside([Object(map["b" := n])], ONE)))
  {
    assert Primitive(ONE);
    var o := Object(map["b" := n]);
    assert PrimitiveEntry(o) && Primitive(Assigned([o])) && Primitive(Only(Object(map["b" := ONE])));
  }

  lemma ExpandedThenCopied(fm: FunctionMap)
    ensures Phase2Ends([ExpandStars, CopyTargets, AddUp, CallFunctions], fm, STARRED, Beside([Object(map["b" := ONE])], ONE))
  {
    hide RunPass, Phase2Ends, PrimitiveEntry, Expand;
    var r, o := [Reference([RefName("a")])], Object(map["b" := ONE]);
    assert Primitive(ONE) by { FinishedOne(); }
    FinishedBeside(ONE);
    StarWithReference();
    BesideExpanded(fm, STARRED["c"].parts, r, ONE);
    CopyOfA(fm, r, 0, ONE);
    assert r[0 := o] == [o];
    var e := Beside([o], ONE);
    PassesKeepPrimitive(AddUp, fm, e);
    ThreePasses([ExpandStars, CopyTargets, AddUp, CallFunctions], fm, STARRED, Beside(r, ONE), e, e);
  }

  lemma FinishedObject(n: Concat)
    requires Primitive(n)
    ensures PrimitiveEntry(Object(map["b" := n]))
  {
  }

  lemma FinishedOne()
    ensures Primitive(ONE) && Primitive(TWO)
  {
  }

  lemma CopiedThenExpanded(fm: FunctionMap)
    ensures Phase2Ends([CopyTargets, ExpandStars, AddUp, CallFunctions], fm, STARRED, Beside([Object(map["b" := TWO])], ONE))
  {
    hide RunPass, Phase2Ends, PrimitiveEntry, Expand, Pass, Sound, Quiet;
    var ps, o, q := STARRED["c"].parts, Object(map["b" := ONE]), Object(map["b" := TWO]);
    assert Primitive(ONE) && Primitive(TWO) by { FinishedOne(); }
    FinishedBeside(TWO);
    StarIsQuiet(TWO);
    CopyOfA(fm, ps, 0, ONE);
    assert ps[0 := o] == [o, Asterisk(TWO)];
    StarWithObject();
    BesideExpanded(fm, [o, Asterisk(TWO)], [o, q], ONE);
    FinishedObject(ONE);
    FinishedObject(TWO);
    TwoObjects(o.members, q.members);
    assert Stack(ONE, TWO) == TWO;
    assert Merge(o.members, q.members) == q.members;
    BesideAddedUp(fm, [o, q], [q], ONE);
    ThreePasses([CopyTargets, ExpandStars, AddUp, CallFunctions], fm, STARRED,
      Beside([o, Asterisk(TWO)], ONE), Beside([o, q], ONE), Beside([q], ONE));
  }

  /** The pass on summands that need no additions themselves. */
  lemma PassOfSummands(ps: seq<Entry>)
    requires ClashFree(ps) && forall i | 0 <= i < |ps| :: SoundEntry(ps[i]) && PassEntry(ps[i]) == ps[i]
    ensures Sound(Assigned(ps)) && Pass(Assigned(ps)) == Assigned(Collapse(ps))
  {
    hide PassEntry, SoundEntry, Collapse, ClashFree;
    var c := Assigned(ps);
    var qs := seq(|c.parts|, i requires 0 <= i < |c.parts| => PassEntry(c.parts[i]));
    assert |qs| == |ps| && forall i | 0 <= i < |ps| :: qs[i] == ps[i];
    assert qs == ps;
  }

  lemma FinishedSummand(e: Entry)
    requires PrimitiveEntry(e)
    ensures SoundEntry(e) && PassEntry(e) == e
  {
    hide PassEntry, SoundEntry, PrimitiveEntry;
    Stability.PassOfPrimitiveEntry(e);
    PrimitiveIsSoundEntry(e);
  }

  lemma TwoMerged(m: Members, o: Members)
    ensures Collapse([Object(m), Object(o)]) == [Object(Merge(m, o))]
  {
    hide Merge;
    var ps := [Object(m), Object(o)];
    assert ps[..1] == [Object(m)];
    CollapseShort(ps[..1]);
    assert Collapse(ps) == Push([Object(m)], Object(o)) && [Object(m)][..0] == [];
  }

  /** The pass on two finished objects side by side. */
  lemma TwoObjects(m: Members, o: Members)
    requires PrimitiveEntry(Object(m)) && PrimitiveEntry(Object(o))
    ensures Sound(Assigned([Object(m), Object(o)]))
    ensures Pass(Assigned([Object(m), Object(o)])) == Assigned([Object(Merge(m, o))])
  {
    hide PrimitiveEntry, PassEntry, SoundEntry, Merge, Collapse;
    FinishedSummand(Object(m));
    FinishedSummand(Object(o));
    PassOfSummands([Object(m), Object(o)]);
    TwoMerged(m, o);
  }

  // ---- Errors --------------------------------------------------------------------------------

  const WORD := Only(Text("s"))

  /** The member `b` of `c` is a number and a text, until the reference brings one that replaces both. */
  const CLASHING: Members := Beside([Object(map["b" := ONE]), Object(map["b" := WORD]), Reference([RefName("a")])], TWO)

  /** What the additions pass leaves when it runs before the copy. */
  const MIXED := Assigned([Unsigned(1), Text("s")])

  lemma CollapseThree(a: Entry, b: Entry, c: Entry)
    ensures Collapse([a, b, c]) == Push(Collapse([a, b]), c)
  {
    assert [a, b, c][..2] == [a, b];
  }

  /** All three objects are merged in one go. */
  lemma CopiedThenMerged(fm: FunctionMap)
    ensures Phase2Ends([CopyTargets, AddUp, CallFunctions, ExpandStars], fm, CLASHING, Beside([Object(map["b" := TWO])], TWO))
  {
    hide RunPass, Phase2Ends, PrimitiveEntry, Pass, Sound, Quiet, Collapse, PassEntry, SoundEntry;
    var ps, a, b, c := CLASHING["c"].parts, Object(map["b" := ONE]), Object(map["b" := WORD]), Object(map["b" := TWO]);
    assert Primitive(ONE) && Primitive(TWO) && Primitive(WORD) by { FinishedOne(); FinishedWord(); }
    FinishedObject(ONE);
    FinishedObject(WORD);
    FinishedObject(TWO);
    QuietObject(a);
    QuietObject(b);
    CopyOfA(fm, ps, 2, TWO);
    assert ps[2 := c] == [a, b, c];
    FinishedSummand(a);
    FinishedSummand(b);
    FinishedSummand(c);
    PassOfSummands([a, b, c]);
    AllMerged();
    BesideAddedUp(fm, [a, b, c], [c], TWO);
    var e := Beside([c], TWO);
    FinishedEnd();
    PassesKeepPrimitive(CallFunctions, fm, e);
    ThreePasses([CopyTargets, AddUp, CallFunctions, ExpandStars], fm, CLASHING, Beside([a, b, c], TWO), e, e);
  }

  lemma FinishedWord()
    ensures Primitive(WORD)
  {
  }

  lemma FinishedEnd()
    ensures PrimitiveEntry(Object(Beside([Object(map["b" := TWO])], TWO)))
  {
    assert Primitive(TWO);
    var o := Object(map["b" := TWO]);
    assert PrimitiveEntry(o) && Primitive(Assigned([o])) && Primitive(Only(o));
  }

  lemma QuietObject(e: Entry)
    requires PrimitiveEntry(e)
    ensures Quiet(Only(e))
  {
    hide PrimitiveEntry, Quiet;
    assert Primitive(Only(e));
    PrimitiveIsQuiet(Only(e));
  }

  lemma AllMerged()
    ensures Collapse([Object(map["b" := ONE]), Object(map["b" := WORD]), Object(map["b" := TWO])]) == [Object(map["b" := TWO])]
    ensures Collapse([Object(map["b" := ONE]), Object(map["b" := WORD])]) == [Object(map["b" := MIXED])]
  {
    hide Collapse;
    var a, b, c := map["b" := ONE], map["b" := WORD], map["b" := TWO];
    assert Stack(ONE, WORD) == MIXED && Merge(a, b) == map["b" := MIXED];
    assert Stack(MIXED, TWO) == TWO && Merge(map["b" := MIXED], c) == c;
    TwoMerged(a, b);
    CollapseThree(Object(a), Object(b), Object(c));
    assert [Object(map["b" := MIXED])][..0] == [];
  }

  /** The first two objects are merged before the third is there, and the next turn throws. */
  lemma MergedThenCopied(fm: FunctionMap)
    ensures Rounds([AddUp, CopyTargets, CallFunctions, ExpandStars], fm, CLASHING, 2) == Err(IncompatibleAddition)
  {
    hide RunPass, RunPasses, PrimitiveEntry, Pass, Sound, Quiet, Collapse, PassEntry, SoundEntry, Free;
    var ks := [AddUp, CopyTargets, CallFunctions, ExpandStars];
    var ps, a, b, c := CLASHING["c"].parts, Object(map["b" := ONE]), Object(map["b" := WORD]), Object(map["b" := TWO]);
    var r, d := Reference([RefName("a")]), Object(map["b" := MIXED]);
    assert Primitive(ONE) && Primitive(TWO) && Primitive(WORD) by { FinishedOne(); FinishedWord(); }
    FinishedObject(ONE);
    FinishedObject(WORD);
    FinishedSummand(a);
    FinishedSummand(b);
    assert SoundEntry(r) && PassEntry(r) == r by { ReferenceIsFixed(r.target); }
    PassOfSummands(ps);
    AllMerged();
    CollapseThree(a, b, r);
    assert Collapse(ps) == [d, r];
    BesideAddedUp(fm, ps, [d, r], TWO);
    MixedIsQuiet();
    CopyOfA(fm, [d, r], 1, TWO);
    assert [d, r][1 := c] == [d, c];
    MixedIsBasic();
    var n, o := Beside([d, r], TWO), Beside([d, c], TWO);
    IdlePasses(fm, o);
    NextPass(ks, fm, CLASHING, n);
    NextPass(ks[1..], fm, n, o);
    NextPass(ks[1..][1..], fm, o, o);
    NextPass(ks[1..][1..][1..], fm, o, o);
    assert Rounds(ks, fm, CLASHING, 0) == Ok(CLASHING);
    assert ks[1..][1..][1..][1..] == [];
    NoPasses(fm, o);
    assert Rounds(ks, fm, CLASHING, 1) == Ok(o);
    MixedClashes(fm);
    FirstFails(ks, fm, o);
  }

  lemma IdlePasses(fm: FunctionMap, m: Members)
    requires Free(Invocation, Root(m)) && Free(Wildcard, Root(m))
    ensures RunPass(CallFunctions, fm, m) == Ok(m) && RunPass(ExpandStars, fm, m) == Ok(m)
  {
    hide Free, FreeEntry, CallEntry, ExpandBelow;
    RootIsFree(Invocation, m);
    RootIsFree(Wildcard, m);
    CallsOfFreeEntry(fm, Object(m));
    StarlessBelow(Object(m));
  }

  lemma ReferenceIsFixed(ref: seq<RefPart>)
    ensures SoundEntry(Reference(ref)) && PassEntry(Reference(ref)) == Reference(ref)
  {
  }

  lemma NoPasses(fm: FunctionMap, m: Members)
    ensures RunPasses([], fm, m) == Ok(m)
  {
  }

  lemma FirstFails(ks: seq<PassKind>, fm: FunctionMap, m: Members)
    requires ks != [] && RunPass(ks[0], fm, m).Err?
    ensures RunPasses(ks, fm, m) == RunPass(ks[0], fm, m)
  {
  }

  lemma MixedIsQuiet()
    ensures Quiet(Only(Object(map["b" := MIXED])))
  {
    var c := Only(Object(map["b" := MIXED]));
    forall s ensures !Live(c, s) {
      if Live(c, s) {
        ReplaceBelow(c, s, Null);
        var t := Site(s.pos[1..], s.part);
        assert Live(MIXED, t);
        if t.pos != [] { ReplaceBelow(MIXED, t, Null); }
      }
    }
  }

  lemma MixedIsBasic()
    ensures var o := Beside([Object(map["b" := MIXED]), Object(map["b" := TWO])], TWO);
      Free(Invocation, Root(o)) && Free(Wildcard, Root(o))
  {
    forall w: Construct ensures Free(w, Root(Beside([Object(map["b" := MIXED]), Object(map["b" := TWO])], TWO))) {
      SmallIsFree(w);
      MemberIsFree(w, MIXED);
      MemberIsFree(w, TWO);
      BesideIsFree(w, [Object(map["b" := MIXED]), Object(map["b" := TWO])], TWO);
    }
  }

  lemma MixedClashes(fm: FunctionMap)
    ensures RunPass(AddUp, fm, Beside([Object(map["b" := MIXED]), Object(map["b" := TWO])], TWO)) == Err(IncompatibleAddition)
  {
    var d := Object(map["b" := MIXED]);
    var o := Beside([d, Object(map["b" := TWO])], TWO);
    assert Clash(MIXED.parts[0], MIXED.parts[1]) && !Sound(MIXED);
    assert d.members["b"] == MIXED;
    assert !SoundEntry(d) && o["c"].parts[0] == d;
    assert !Sound(o["c"]);
  }

  /** Whether phase 2 throws may depend on the order, even without calls and asterisks. */
  lemma OrderDecidesOnErrors(fm: FunctionMap)
    ensures Free(Invocation, Root(CLASHING)) && Free(Wildcard, Root(CLASHING))
    ensures Phase2Ends([CopyTargets, AddUp, CallFunctions, ExpandStars], fm, CLASHING, Beside([Object(map["b" := TWO])], TWO))
    ensures Rounds([AddUp, CopyTargets, CallFunctions, ExpandStars], fm, CLASHING, 2) == Err(IncompatibleAddition)
  {
    CopiedThenMerged(fm);
    MergedThenCopied(fm);
    ClashingIsBasic();
  }

  lemma ClashingIsBasic()
    ensures Free(Invocation, Root(CLASHING)) && Free(Wildcard, Root(CLASHING))
  {
    forall w: Construct | !w.Opening? ensures Free(w, Root(CLASHING)) {
      SmallIsFree(w);
      MemberIsFree(w, ONE);
      MemberIsFree(w, WORD);
      BesideIsFree(w, [Object(map["b" := ONE]), Object(map["b" := WORD]), Reference([RefName("a")])], TWO);
    }
  }

  lemma SmallIsFree(w: Construct)
    ensures Free(w, ONE) && Free(w, TWO) && Free(w, WORD) && Free(w, MIXED)
  {
    FinishedOne();
    FinishedWord();
    PrimitiveIsFree(w, ONE);
    PrimitiveIsFree(w, TWO);
    PrimitiveIsFree(w, WORD);
    assert MIXED.parts == ONE.parts + WORD.parts;
  }

  lemma MemberIsFree(w: Construct, n: Concat)
    requires Free(w, n)
    ensures FreeEntry(w, Object(map["b" := n]))
  {
    var m := map["b" := n];
    assert forall x | x in m :: m[x] == n;
  }

  lemma BesideIsFree(w: Construct, ps: seq<Entry>, n: Concat)
    requires FreeParts(w, ps) && Free(w, n)
    ensures Free(w, Root(Beside(ps, n)))
  {
    var o := Beside(ps, n);
    MemberIsFree(w, n);
    assert Free(w, o["c"]) && Free(w, o["a"]);
    RootIsFree(w, o);
  }
}
