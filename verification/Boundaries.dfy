/** Files and trees that show what else a definition or a reference can do. */
module Boundaries {
  import opened Tree
  import opened Names
  import opened Additions
  import opened Functions
  import opened Access
  import opened References
  import opened Everything
  import opened Callless
  import opened Phase1
  import opened Parser
  import opened ParserLaws
  import opened Forming
  import opened Pipeline
  import opened Marks
  import opened Samples
  import Phase3
  import Phase5
  import Merging
  import Orders
  import Deletions
  import History
  import Stability

  // ---- An index across a reference -----------------------------------------------------------

  const ACROSS := [RefName("y"), RefIndex(0)]
  const BEYOND := [RefName("z")]

  /** `x = (y.0)`, `y = (z)` and `z = [ 1 ]`. */
  const INDEXED: seq<MemberDef> := [
    Assign([Name("x")], Refer(ACROSS)),
    Assign([Name("y")], Refer(BEYOND)),
    Assign([Name("z")], Sum([ArrayPart([Just(Unsigned(1))])]))]

  const INDEXEDTREE: Members := map[
    "x" := Orders.Assigned([Reference(ACROSS)]),
    "y" := Orders.Assigned([Reference(BEYOND)]),
    "z" := Orders.Assigned([Array("", [EMPTY.(parts := [Unsigned(1)])])])]

  lemma IndexedFormed()
    ensures FormMembers(Root(map[]), INDEXED) == Ok(Root(INDEXEDTREE))
  {
    hide FormMembers, FormMember, FormList;
    var e, t := EMPTY.(remove := true), INDEXEDTREE;
    var m, o := map["x" := t["x"]], map["x" := t["x"], "y" := t["y"]];
    ReferFormed(e, ACROSS);
    ReferFormed(e, BEYOND);
    assert [] + [Reference(ACROSS)] == [Reference(ACROSS)] && [] + [Reference(BEYOND)] == [Reference(BEYOND)];
    LiteralFormed(e, Unsigned(1));
    AssignedName(map[], "x", INDEXED[0].value, t["x"]);
    AssignedName(m, "y", INDEXED[1].value, t["y"]);
    AssignedName(o, "z", INDEXED[2].value, t["z"]);
    assert map[]["x" := t["x"]] == m && m["y" := t["y"]] == o && o["z" := t["z"]] == t;
    ThreeFormedTo(INDEXED[0], INDEXED[1], INDEXED[2], Root(map[]), Root(m), Root(o), Root(t));
  }

  lemma IndexedFits()
    ensures ProperFile(INDEXED) && FitsFile(INDEXED)
  {
    JustIsProper(Unsigned(1));
    var v := ArrayPart([Just(Unsigned(1))]);
    assert Proper(v) && ProperList(INDEXED[2].value) && Proper(ReferencePart(ACROSS)) && Proper(ReferencePart(BEYOND));
    assert ProperList(INDEXED[0].value) && ProperList(INDEXED[1].value);
    assert FitsList(94, Just(Unsigned(1))) && Fits(95, v) && FitsList(95, INDEXED[2].value);
    assert FitsList(95, INDEXED[0].value) && FitsList(95, INDEXED[1].value);
    assert ProperMember(INDEXED[0]) && ProperMember(INDEXED[1]) && ProperMember(INDEXED[2]);
    assert FitsMember(NESTING_LIMIT, INDEXED[0]) && FitsMember(NESTING_LIMIT, INDEXED[1]) && FitsMember(NESTING_LIMIT, INDEXED[2]);
  }

  /** The tree, whatever its generations. */
  predicate Indexing(m: Members) {
    && m.Keys == {"x", "y", "z"}
    && m["x"].parts == [Reference(ACROSS)] && m["y"].parts == [Reference(BEYOND)] && Primitive(m["z"])
  }

  lemma IndexedShape(m: Members)
    requires Merging.ErMembers(m) == INDEXEDTREE
    ensures Indexing(m)
  {
    hide Merging.Er;
    assert m.Keys == INDEXEDTREE.Keys;
    assert Merging.Er(m["x"]) == INDEXEDTREE["x"] && Merging.Er(m["y"]) == INDEXEDTREE["y"] && Merging.Er(m["z"]) == INDEXEDTREE["z"];
    OneLeft(m["x"], Reference(ACROSS));
    OneLeft(m["y"], Reference(BEYOND));
    OneLeft(m["z"], INDEXEDTREE["z"].parts[0]);
    var a := m["z"].parts[0];
    OneLeft(a.elements[0], Unsigned(1));
    assert a.elements == [a.elements[0]] && m["z"].parts == [a];
    assert Primitive(a.elements[0]) && PrimitiveEntry(a);
  }

  lemma InOrder()
    ensures Sorted({"x", "y", "z"}) == ["x", "y", "z"]
  {
    assert LexLe("x", "y") && LexLe("y", "z") && LexLe("x", "z");
    assert Lists(["x", "y", "z"], {"x", "y", "z"});
    ListsUnique(["x", "y", "z"], Sorted({"x", "y", "z"}), {"x", "y", "z"});
  }

  /** The first visit is that of `x`. */
  lemma FirstSite(m: Members)
    requires Indexing(m)
    ensures var s := Site([ToMember(0, "x")], 0);
      SitesOf(Root(m)) != [] && SitesOf(Root(m))[0] == s && Live(Root(m), s)
  {
    hide Live, Sorted, Primitive;
    var r, s := Root(m), Site([ToMember(0, "x")], 0);
    InOrder();
    Orders.AtMember(m, "x", 0);
    assert SitesFrom(m["x"], 1) == [] && SitesAt(m["x"], 0) == [Site([], 0)];
    assert SitesOf(m["x"]) == [Site([], 0)];
    assert [ToMember(0, "x")] + [] == [ToMember(0, "x")];
    assert References.Below(ToMember(0, "x"), [Site([], 0)]) == [s];
    var names := ["x", "y", "z"];
    assert names[1..] == ["y", "z"];
    assert SitesOfMembers(r, 0, names) == [s] + SitesOfMembers(r, 0, names[1..]);
    assert SitesAt(r, 0) == SitesOfMembers(r, 0, ["x", "y", "z"]);
    assert SitesFrom(r, 1) == [] && SitesOf(r) == SitesAt(r, 0) + [];
  }

  lemma AcrossFails(m: Members)
    requires Indexing(m)
    ensures Resolve(m, [Name("x")], ACROSS) == Failed(CannotIndex)
  {
    Orders.KeyOfNames(m, [Name("x")]);
    var key: Key := [Name("y"), Index(0)];
    assert [Name("x")][..0] == [] && [][..0] + key == key && key[1..] == [Index(0)];
    assert AccessIndex(m["y"], 0, [Index(0)][1..], -1) == Failed(CannotIndex);
    assert AccessConcat(m["y"], [Index(0)], -1) == Failed(CannotIndex);
    assert AccessScope(m, key, 0) == Failed(CannotIndex);
  }

  /** The references pass throws at once. */
  lemma CopyingThrows(fm: FunctionMap, m: Members)
    requires Indexing(m)
    ensures RunPass(CopyTargets, fm, m) == Err(CannotIndex)
  {
    hide SitesOf, Live, Resolve, Indexing;
    var r, s := Root(m), Site([ToMember(0, "x")], 0);
    FirstSite(m);
    AcrossFails(m);
    assert m["x"].parts[0] == Reference(ACROSS) && "x" in m by { InTree(m); }
    Orders.AtMember(m, "x", 0);
    assert Visit(r, s) == Err(CannotIndex);
    assert VisitAll(r, SitesOf(r)) == Err(CannotIndex);
  }

  lemma InTree(m: Members)
    requires Indexing(m)
    ensures "x" in m && m["x"].parts == [Reference(ACROSS)]
  {
  }

  /** The other passes have nothing to do. */
  lemma OthersIdle(k: PassKind, fm: FunctionMap, m: Members)
    requires Indexing(m) && k != CopyTargets
    ensures RunPass(k, fm, m) == Ok(m)
  {
    hide CallEntry, PassEntry, SoundEntry, Primitive, Sound, Pass, Free, FreeEntry;
    OnlyAReference(m["x"]);
    OnlyAReference(m["y"]);
    if k == AddUp {
      ObjectPass(m);
      PrimitiveIsSound(m["z"]);
      Stability.PassOfPrimitive(m["z"]);
      assert PassEntry(Object(m)).members == m;
    } else {
      PrimitiveIsFree(Invocation, m["z"]);
      PrimitiveIsFree(Wildcard, m["z"]);
      EachIsFree(m);
      RootIsFree(Invocation, m);
      RootIsFree(Wildcard, m);
      Orders.IdlePasses(fm, m);
    }
  }

  lemma EachIsFree(m: Members)
    requires forall n | n in m :: Free(Invocation, m[n]) && Free(Wildcard, m[n])
    ensures FreeEntry(Invocation, Object(m)) && FreeEntry(Wildcard, Object(m))
  {
    hide Free;
  }

  lemma OnlyAReference(c: Concat)
    requires |c.parts| == 1 && c.parts[0].Reference?
    ensures Sound(c) && Pass(c) == c && Free(Invocation, c) && Free(Wildcard, c)
  {
    hide Collapse;
    Stability.PassOfSingle(c);
    assert Pass(c).parts == [c.parts[0]];
  }

  /** A file whose first turn ends with an error whatever the order of the passes. */
  lemma {:induction false} AnyOrderThrows(ks: seq<PassKind>, fm: FunctionMap, m: Members)
    requires Indexing(m) && CopyTargets in ks
    ensures RunPasses(ks, fm, m) == Err(CannotIndex)
    decreases |ks|
  {
    hide RunPass, Indexing;
    if ks[0] == CopyTargets {
      CopyingThrows(fm, m);
    } else {
      OthersIdle(ks[0], fm, m);
      AnyOrderThrows(ks[1..], fm, m);
    }
  }

  lemma IndexAcrossReferenceThrows(ks: seq<PassKind>, fm: FunctionMap)
    requires CopyTargets in ks
    ensures Parse(INDEXED).Ok? && Rounds(ks, fm, Parse(INDEXED).value.root, 1) == Err(CannotIndex)
  {
    hide FormMembers, Merging.ErMembers, RunPasses, ProperMember, FitsMember, Indexing;
    IndexedFits();
    IndexedFormed();
    ParsedIsFormed(INDEXED, INDEXEDTREE);
    var m := Parse(INDEXED).value.root;
    IndexedShape(m);
    AnyOrderThrows(ks, fm, m);
    assert Rounds(ks, fm, m, 0) == Ok(m);
  }

  // ---- Assigned, and yet implicit ------------------------------------------------------------

  /** `a.b = 1`, then `a = delete`, then `a.b.c = delete`. */
  const AGAIN: seq<MemberDef> := [Samples.Below(true, Unsigned(1)), Delete([Name("a")]), Delete([Name("a"), Name("b"), Name("c")])]

  lemma {:induction false} NamesAreWritten(c: Concat, p: Path, f: Step, mode: Mode)
    requires forall x :: f(x).Ok?
    ensures Focus(c, History.NamesOf(p), f, mode).Ok?
    decreases |p|
  {
    if p == [] {
      assert Focus(c, History.NamesOf(p), f, mode) == f(c);
    } else {
      hide Focus;
      assert History.NamesOf(p) == [Name(p[0])] + History.NamesOf(p[1..]);
      History.FocusName(c, p[0], History.NamesOf(p[1..]), f, mode);
      NamesAreWritten(Member(LastPart(EnsureObject(c)).members, p[0], mode), p[1..], f, mode);
    }
  }

  lemma AgainFormed()
    ensures FormMembers(Root(map[]), AGAIN).Ok?
  {
    hide FormMembers, FormMember, Samples.Below;
    var d, e, f := AGAIN[0], AGAIN[1], AGAIN[2];
    AssignedTwo(map[], Unsigned(1));
    var m := Tree2([Unsigned(1)]);
    DeletionFormed(Root(m), ["a"]);
    var x := FormMember(Root(m), e).value;
    DeletionFormed(x, ["a", "b", "c"]);
    ThreeFormedTo(d, e, f, Root(map[]), Root(m), x, FormMember(x, f).value);
  }

  lemma DeletionFormed(c: Concat, p: Path)
    ensures FormMember(c, Delete(History.NamesOf(p))).Ok?
    ensures p == ["a"] ==> History.NamesOf(p) == [Name("a")]
    ensures p == ["a", "b", "c"] ==> History.NamesOf(p) == [Name("a"), Name("b"), Name("c")]
  {
    hide Focus;
    NamesAreWritten(c, p, DoAssign, Implicit);
  }

  lemma AgainFits()
    ensures ProperFile(AGAIN) && FitsFile(AGAIN)
  {
    JustIsProper(Unsigned(1));
    assert History.NamesOf(PATH) == [Name("a"), Name("b")];
    assert FitsList(94, Just(Unsigned(1)));
    assert ProperMember(AGAIN[0]) && ProperMember(AGAIN[1]) && ProperMember(AGAIN[2]);
    assert FitsMember(NESTING_LIMIT, AGAIN[0]) && FitsMember(NESTING_LIMIT, AGAIN[1]) && FitsMember(NESTING_LIMIT, AGAIN[2]);
  }

  lemma AgainEvents()
    ensures EventsOfMembers([], AGAIN) == [
      Head([Name("a"), Name("b")]), Content([Name("a"), Name("b")], false), Head([Name("a")]), Head([Name("a"), Name("b"), Name("c")])]
  {
    var k, v := [Name("a"), Name("b")], Just(Unsigned(1));
    assert History.NamesOf(PATH) == k;
    assert v.parts[1..] == [] && EventsOfParts(k, v.parts) == [Content(k, false)];
    assert [] + k == k && [] + [Name("a")] == [Name("a")];
    assert [] + [Name("a"), Name("b"), Name("c")] == [Name("a"), Name("b"), Name("c")];
    assert AGAIN[1..] == [AGAIN[1], AGAIN[2]] && AGAIN[1..][1..] == [AGAIN[2]] && AGAIN[1..][1..][1..] == [];
    assert EventsOfMember([], AGAIN[0]) == [Head(k), Content(k, false)];
  }

  /** A member that was assigned is implicit when it was removed with its parent and only deletions followed. */
  lemma AssignedYetImplicit()
    ensures Parse(AGAIN).Ok?
    ensures MarkAt(Root(Parse(AGAIN).value.root), PATH) == Present(true, false, false)
  {
    hide FormMembers, BuildMembers, Merging.ErMembers, ProperMember, FitsMember, ExecMembers, MarkAt;
    AgainFits();
    AgainFormed();
    FormedIsParsed(AGAIN);
    FlagsOfFile(AGAIN, PATH);
    AgainEvents();
    var k := [Name("a"), Name("b")];
    var e, f, g, h := Head(k), Content(k, false), Head([Name("a")]), Head([Name("a"), Name("b"), Name("c")]);
    assert [e, f, g, h] == [e, f] + [g, h] && [g, h] == [g] + [h];
    FoldBoth(Absent, [e, f], [g, h], PATH);
    FoldBoth(Fold(Absent, [e, f], PATH), [g], [h], PATH);
    FoldOne(Fold(Absent, [e, f], PATH), g, PATH);
    FoldOne(Absent, h, PATH);
    assert g.at[1..] == [] && Lead(g.at) == ["a"];
    assert h.at[1..] == [Name("b"), Name("c")] && h.at[1..][1..] == [Name("c")] && h.at[1..][1..][1..] == [];
    assert Lead(h.at[1..][1..]) == ["c"] && Lead(h.at[1..]) == ["b", "c"] && Lead(h.at) == ["a", "b", "c"];
    assert ["a"] <= PATH && PATH <= ["a", "b", "c"];
  }

  lemma FormedIsParsed(ms: seq<MemberDef>)
    requires ProperFile(ms) && FitsFile(ms) && FormMembers(Root(map[]), ms).Ok?
    ensures Parse(ms).Ok?
  {
    hide FormMembers, Merging.ErMembers, ProperMember, FitsMember;
    var o := History.StaysRoot(map[], ms);
    ParsedIsFormed(ms, o);
  }

  // ---- A deletion that is seen ---------------------------------------------------------------

  /** What `q.y = delete` makes of the member `q`. */
  const MADE: Concat := EMPTY.(implicit := true, parts := [Object(map["y" := EMPTY.(remove := true, implicit := true)])])

  /** `x = (q)`. */
  const LONELY: Members := map["x" := Orders.Assigned([Reference([RefName("q")])])]

  const ORDER: seq<PassKind> := [CopyTargets, AddUp, CallFunctions, ExpandStars]

  lemma QIsResolved(m: Members)
    ensures Resolve(m, [Name("x")], [RefName("q")]) == (if "q" in m then AccessConcat(m["q"], [], -1) else Missing)
  {
    Orders.KeyOfNames(m, [Name("x")]);
    var key: Key := [Name("q")];
    assert [Name("x")][..0] == [] && [][..0] + key == key && key[1..] == [];
  }

  lemma LonelySite()
    ensures SitesOf(Root(LONELY)) == [Site([ToMember(0, "x")], 0)] && Live(Root(LONELY), Site([ToMember(0, "x")], 0))
  {
    assert Orders.OneReference(LONELY, "x", 0);
    Orders.OneSite(LONELY, "x", 0);
  }

  lemma LonelyIdle(k: PassKind, fm: FunctionMap)
    ensures RunPass(k, fm, LONELY) == Ok(LONELY)
  {
    hide CallEntry, PassEntry, SoundEntry, Sound, Pass, Free, FreeEntry, SitesOf, Live, Resolve;
    var m := LONELY;
    OnlyAReference(m["x"]);
    if k == AddUp {
      ObjectPass(m);
      assert PassEntry(Object(m)).members == m;
    } else if k == CopyTargets {
      var r, s := Root(m), Site([ToMember(0, "x")], 0);
      LonelySite();
      Orders.AtMember(m, "x", 0);
      QIsResolved(m);
      assert Visit(r, s) == Ok(r);
      assert [s][1..] == [] && VisitAll(r, []) == Ok(r);
      assert VisitAll(r, [s]) == Ok(r);
    } else {
      EachIsFree(m);
      RootIsFree(Invocation, m);
      RootIsFree(Wildcard, m);
      Orders.IdlePasses(fm, m);
    }
  }

  lemma LonelyEnds(fm: FunctionMap)
    ensures Phase2Ends(ORDER, fm, LONELY, LONELY)
  {
    hide RunPass;
    assert Rounds(ORDER, fm, LONELY, 0) == Ok(LONELY);
    forall k | k in ORDER ensures RunPass(k, fm, LONELY) == Ok(LONELY) { LonelyIdle(k, fm); }
  }

  lemma LonelyIsFound()
    ensures Phase3.FindEntry(Object(LONELY)) == Phase3.Problem(ReferenceNotResolved)
  {
    var e := Object(LONELY);
    assert Lists(["x"], {"x"});
    ListsUnique(["x"], Sorted({"x"}), {"x"});
    assert e.members.Keys == {"x"};
    assert Phase3.Find(LONELY["x"]) == Phase3.Problem(ReferenceNotResolved);
    assert Phase3.FindMembers(e, ["x"]) == Phase3.Problem(ReferenceNotResolved);
  }

  lemma MadeEnds(fm: FunctionMap, o: Members)
    requires o == LONELY["q" := MADE]["x" := Orders.Assigned(MADE.parts)]
    ensures PrimitiveEntry(Object(o)) && Phase2Ends(ORDER, fm, LONELY["q" := MADE], o)
  {
    hide RunPass, Resolve, Phase2Ends;
    var m := LONELY["q" := MADE];
    MadeIsFinished(o);
    QIsResolved(m);
    Orders.PrimitiveIsQuiet(MADE);
    assert Orders.OneReference(m, "x", 0);
    Orders.OneCopy(fm, m, "x", 0, MADE.parts[0]);
    assert m["x"].parts[0 := MADE.parts[0]] == MADE.parts;
    assert m["x" := m["x"].(parts := MADE.parts)] == o;
    PassesKeepPrimitive(AddUp, fm, o);
    PassesKeepPrimitive(CallFunctions, fm, o);
    Orders.ThreePasses(ORDER, fm, m, o, o, o);
  }

  lemma MadeIsFinished(o: Members)
    requires o == LONELY["q" := MADE]["x" := Orders.Assigned(MADE.parts)]
    ensures Primitive(MADE) && PrimitiveEntry(Object(o)) && AccessConcat(MADE, [], -1) == Found(MADE)
  {
    assert Primitive(EMPTY.(remove := true, implicit := true));
    assert PrimitiveEntry(MADE.parts[0]);
    assert Primitive(MADE) && Primitive(Orders.Assigned(MADE.parts));
  }

  /** `x = (q)`, and then perhaps `q.y = delete`. */
  const REFERRING: seq<MemberDef> := [Assign([Name("x")], Refer([RefName("q")]))]
  const DELETION: MemberDef := Delete([Name("q"), Name("y")])

  lemma ReferringParsed()
    ensures Parse(REFERRING).Ok? && Parse(REFERRING).value.root == LONELY
  {
    hide FormMembers, BuildMembers, ExecMembers, FormMember;
    var d := REFERRING[0];
    assert Proper(ReferencePart([RefName("q")])) && ProperList(d.value) && FitsList(95, d.value);
    assert ProperMember(d) && FitsMember(NESTING_LIMIT, d);
    ReferFormed(EMPTY.(remove := true), [RefName("q")]);
    assert [] + [Reference([RefName("q")])] == [Reference([RefName("q")])];
    AssignedName(map[], "x", d.value, LONELY["x"]);
    assert map[]["x" := LONELY["x"]] == LONELY;
    OneFormed(Root(map[]), d);
    BareMembers(Root(map[]), 1, REFERRING);
    FileIsBuiltInPlace(REFERRING);
    MembersAtRoot(map[], 1, REFERRING);
    Merging.SameRoots(Parse(REFERRING).value.root, LONELY);
  }

  lemma DeletionParsed()
    ensures Parse(REFERRING + [DELETION]).Ok? && Parse(REFERRING + [DELETION]).value.root == LONELY["q" := MADE]
  {
    hide ExecMembers;
    ReferringParsed();
    var st := Parse(REFERRING).value;
    Deletions.OneMoreMember(State(map[], 1), REFERRING, DELETION);
    MadeBySteps();
    assert [] + DELETION.key == DELETION.key && DELETION.key[1..] == [Name("y")];
    assert ExecMember(st, [], DELETION) == Ok(st.(root := LONELY["q" := MADE]));
  }

  lemma MadeBySteps()
    ensures Focus(EMPTY.(implicit := true), [Name("y")], DoAssign, Implicit) == Ok(MADE)
  {
    var c, x := EMPTY.(implicit := true), EMPTY.(implicit := true);
    History.FocusName(c, "y", [], DoAssign, Implicit);
    assert [Name("y")] + [] == [Name("y")];
    assert Focus(x, [], DoAssign, Implicit) == Ok(x.(remove := true));
    var d, y := EnsureObject(c), EMPTY.(remove := true, implicit := true);
    assert d == c.(parts := [Object(map[])]) && Member(map[], "y", Implicit) == x;
    assert LastPart(d).members["y" := y] == map["y" := y];
    assert WithLast(d, Object(map["y" := y])) == MADE;
  }

  /** Without the deletion the reference is an error; with it there is a result. */
  lemma DeletionIsSeen(fm: FunctionMap) returns (r: Result<Phase5.Annotated>)
    ensures Parse(REFERRING).Ok? && ComesTo(ORDER, fm, Parse(REFERRING).value.root, Err(ReferenceNotResolved))
    ensures Parse(REFERRING + [DELETION]).Ok? && r.Ok? && ComesTo(ORDER, fm, Parse(REFERRING + [DELETION]).value.root, r)
  {
    hide ExecMembers, RunPass, Rounds, RunPasses, Phase3.FindEntry, Phase3.StripEntry, Phase5.PlainEntry, Phase5.RepackEntry, PrimitiveEntry;
    ReferringParsed();
    DeletionParsed();
    LonelyEnds(fm);
    LonelyIsFound();
    assert EndsWith(ORDER, fm, LONELY, LONELY, Err(ReferenceNotResolved));
    var o := LONELY["q" := MADE]["x" := Orders.Assigned(MADE.parts)];
    MadeEnds(fm, o);
    Phase3.PrimitiveEntryIsResolved(Object(o));
    Phase3.EntryFound(Object(o));
    Phase5NeverFails(ORDER, fm, LONELY["q" := MADE], o);
    r := Ok(Phase5.RepackEntry([], Phase3.StripEntry(Object(o))));
    assert EndsWith(ORDER, fm, LONELY["q" := MADE], o, r);
  }
}
