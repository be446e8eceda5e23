/**
 Trees without function calls, without asterisks, or without references that may begin with some
 name: no pass makes one, and a pass that deals with them has nothing to do.
 */
module Callless {
  import opened Tree
  import opened Names
  import opened Additions
  import opened Asterisks
  import opened Functions
  import opened References
  import opened Everything
  import Expansion
  import Copying

  /** What a tree may do without. */
  datatype Construct = Invocation | Wildcard | Opening(name: string)

  /** The reference, or one that is nested in it, begins with the name or with a nested reference. */
  predicate MayOpen(n: string, ref: seq<RefPart>)
    decreases ref
  {
    (ref != [] && (ref[0] == RefName(n) || ref[0].RefInner?))
    || exists i | 0 <= i < |ref| :: ref[i].RefInner? && MayOpen(n, ref[i].inner)
  }

  /** Calls, asterisks, or references that may begin with a name, do not occur anywhere in the subtree. */
  predicate Free(w: Construct, c: Concat) {
    forall i | 0 <= i < |c.parts| :: FreeEntry(w, c.parts[i])
  }

  predicate FreeEntry(w: Construct, e: Entry) {
    match e
    case Array(f, es) => (w == Invocation ==> f == "") && forall i | 0 <= i < |es| :: Free(w, es[i])
    case Object(m) => forall n | n in m :: Free(w, m[n])
    case Asterisk(c) => w != Wildcard && Free(w, c)
    case Reference(ref) => !(w.Opening? && MayOpen(w.name, ref))
    case _ => true
  }

  predicate FreeParts(w: Construct, ps: seq<Entry>) {
    forall i | 0 <= i < |ps| :: FreeEntry(w, ps[i])
  }

  lemma {:induction false} PrimitiveIsFree(w: Construct, c: Concat)
    requires Primitive(c)
    ensures Free(w, c)
  {
    hide PrimitiveEntry, FreeEntry;
    forall i | 0 <= i < |c.parts| ensures FreeEntry(w, c.parts[i]) { PrimitiveEntryIsFree(w, c.parts[i]); }
  }

  lemma {:induction false} PrimitiveEntryIsFree(w: Construct, e: Entry)
    requires PrimitiveEntry(e)
    ensures FreeEntry(w, e)
  {
    hide Primitive, Free;
    match e {
      case Array(_, es) => forall i | 0 <= i < |es| ensures Free(w, es[i]) { PrimitiveIsFree(w, es[i]); }
      case Object(m) => forall n | n in m ensures Free(w, m[n]) { PrimitiveIsFree(w, m[n]); }
      case _ =>
    }
  }

  // ---- Functions -----------------------------------------------------------------------------

  lemma {:induction false} CallsOfFree(fm: FunctionMap, c: Concat)
    requires Free(Invocation, c)
    ensures CallAll(fm, c) == Ok(c)
    decreases c, 2
  {
    hide CallEntry, FreeEntry;
    CallsOfParts(fm, c, 0);
    assert c.parts[0..] == c.parts;
  }

  lemma {:induction false} CallsOfParts(fm: FunctionMap, c: Concat, i: nat)
    requires Free(Invocation, c) && i <= |c.parts|
    ensures CallParts(fm, c, i) == Ok(c.parts[i..])
    decreases c, 1, |c.parts| - i
  {
    hide CallEntry, FreeEntry;
    if i < |c.parts| {
      CallsOfFreeEntry(fm, c.parts[i]);
      CallsOfParts(fm, c, i + 1);
      assert c.parts[i..] == [c.parts[i]] + c.parts[i + 1..];
    }
  }

  lemma {:induction false} CallsOfFreeEntry(fm: FunctionMap, e: Entry)
    requires FreeEntry(Invocation, e)
    ensures CallEntry(fm, e) == Ok(e)
    decreases e, 2
  {
    match e {
      case Array(f, es) => CallsOfArray(fm, e);
      case Object(m) => CallsOfObject(fm, e);
      case _ =>
    }
  }

  lemma {:induction false} CallsOfArray(fm: FunctionMap, e: Entry)
    requires e.Array? && FreeEntry(Invocation, e)
    ensures CallEntry(fm, e) == Ok(e)
    decreases e, 1
  {
    hide CallElements, Free;
    CallsOfElements(fm, e, 0);
    assert e.elements[0..] == e.elements;
    assert CallElements(fm, e, 0) == Ok(e.elements);
  }

  lemma {:induction false} CallsOfObject(fm: FunctionMap, e: Entry)
    requires e.Object? && FreeEntry(Invocation, e)
    ensures CallEntry(fm, e) == Ok(e)
    decreases e, 1
  {
    hide CallEntry, CallAll, Free;
    forall n | n in e.members ensures CallAll(fm, e.members[n]) == Ok(e.members[n]) { CallsOfFree(fm, e.members[n]); }
    CalledObject(fm, e.members, e.members);
  }

  /** The calls in an object are those in its members. */
  lemma CalledObject(fm: FunctionMap, m: Members, o: Members)
    requires o.Keys == m.Keys && forall n | n in m :: CallAll(fm, m[n]) == Ok(o[n])
    ensures CallEntry(fm, Object(m)) == Ok(Object(o))
  {
    hide CallMembers, CallAll, Names.Lists;
    var names := Names.Sorted(m.Keys);
    NamesListed(m.Keys);
    CalledMembers(fm, Object(m), names, o);
    assert CallMembers(fm, Object(m), names).value == o;
  }

  lemma NamesListed(s: set<string>)
    ensures forall n :: n in Names.Sorted(s) <==> n in s
  {
  }

  lemma {:induction false} CalledMembers(fm: FunctionMap, e: Entry, names: seq<string>, o: Members)
    requires e.Object? && o.Keys == e.members.Keys
    requires forall n | n in names :: n in e.members && CallAll(fm, e.members[n]) == Ok(o[n])
    ensures CallMembers(fm, e, names).Ok?
    ensures forall n | n in names :: n in CallMembers(fm, e, names).value && CallMembers(fm, e, names).value[n] == o[n]
    decreases |names|
  {
    hide CallAll;
    if names != [] { CalledMembers(fm, e, names[1..], o); }
  }

  lemma {:induction false} CallsOfElements(fm: FunctionMap, e: Entry, j: nat)
    requires e.Array? && FreeEntry(Invocation, e) && j <= |e.elements|
    ensures CallElements(fm, e, j) == Ok(e.elements[j..])
    decreases e, 0, |e.elements| - j
  {
    hide CallAll, Free;
    if j < |e.elements| {
      CallsOfFree(fm, e.elements[j]);
      CallsOfElements(fm, e, j + 1);
      assert e.elements[j..] == [e.elements[j]] + e.elements[j + 1..];
    } else {
      assert e.elements[j..] == [];
    }
  }

  // ---- Additions -----------------------------------------------------------------------------

  lemma FreeJoin(w: Construct, a: Entry, b: Entry)
    requires Joinable(a, b) && FreeEntry(w, a) && FreeEntry(w, b)
    ensures FreeEntry(w, Join(a, b))
  {
    if a.Object? {
      forall n | n in Merge(a.members, b.members) ensures Free(w, Merge(a.members, b.members)[n]) {
        if n in a.members && n in b.members { FreeStack(w, a.members[n], b.members[n]); }
      }
    }
  }

  lemma FreeStack(w: Construct, x: Concat, y: Concat)
    requires Free(w, x) && Free(w, y)
    ensures Free(w, Stack(x, y))
  {
    hide FreeEntry;
  }

  lemma {:induction false} FreeCollapse(w: Construct, ps: seq<Entry>)
    requires FreeParts(w, ps)
    ensures FreeParts(w, Collapse(ps))
  {
    hide FreeEntry, Join, Joinable;
    if ps != [] {
      var init, e := ps[..|ps| - 1], ps[|ps| - 1];
      FreeCollapse(w, init);
      var c := Collapse(init);
      if c != [] && Joinable(c[|c| - 1], e) { FreeJoin(w, c[|c| - 1], e); }
    }
  }

  lemma {:induction false} FreePass(w: Construct, c: Concat)
    requires Free(w, c)
    ensures Free(w, Pass(c))
  {
    hide FreeEntry, PassEntry, Collapse;
    var qs := seq(|c.parts|, i requires 0 <= i < |c.parts| => PassEntry(c.parts[i]));
    forall i | 0 <= i < |qs| ensures FreeEntry(w, qs[i]) { FreePassEntry(w, c.parts[i]); }
    FreeCollapse(w, qs);
  }

  lemma {:induction false} FreePassEntry(w: Construct, e: Entry)
    requires FreeEntry(w, e)
    ensures FreeEntry(w, PassEntry(e))
  {
    hide Pass, Free;
    match e {
      case Array(_, es) => forall i | 0 <= i < |es| ensures Free(w, Pass(es[i])) { FreePass(w, es[i]); }
      case Object(m) => forall n | n in m ensures Free(w, Pass(m[n])) { FreePass(w, m[n]); }
      case Asterisk(c) => FreePass(w, c);
      case _ =>
    }
  }

  // ---- Asterisks -----------------------------------------------------------------------------

  lemma FreeAround(w: Construct, ps: seq<Entry>, i: nat, j: nat)
    requires i < |ps| && ps[i].Asterisk? && j < |ps| && FreeParts(w, ps)
    ensures FreeEntry(w, AroundStar(ps, i, j, ps[i].star))
  {
    var s := ps[i].star;
    assert FreeEntry(w, ps[i]) && FreeEntry(w, ps[j]);
    if ps[j].Array? {
      var es := ps[j].elements;
      forall k | 0 <= k < |es| ensures Free(w, AfterStar(es[k], s)) && Free(w, BeforeStar(s, es[k])) { FreeBeside(w, es[k], s); }
    }
  }

  lemma FreeBeside(w: Construct, c: Concat, s: Concat)
    requires Free(w, c) && Free(w, s)
    ensures Free(w, AfterStar(c, s)) && Free(w, BeforeStar(s, c))
  {
    hide FreeEntry;
  }

  lemma FreeStar(w: Construct, ps: seq<Entry>, i: nat)
    requires i < |ps| && ps[i].Asterisk? && FreeParts(w, ps)
    ensures FreeParts(w, ExpandStar(ps, i))
  {
    var s, names := ps[i].star, NamesOf(ps);
    assert FreeEntry(w, ps[i]);
    assert FreeEntry(w, Object(map n | n in names :: s));
    hide FreeEntry, AroundStar, NamesOf;
    var qs := seq(|ps|, j requires 0 <= j < |ps| => AroundStar(ps, i, j, s));
    forall j | 0 <= j < |qs| ensures FreeEntry(w, qs[j]) { FreeAround(w, ps, i, j); }
  }

  lemma {:induction false} FreeFrom(w: Construct, ps: seq<Entry>, i: nat)
    requires FreeParts(w, ps) && i <= |ps| && ExpandFrom(ps, i).Ok?
    ensures FreeParts(w, ExpandFrom(ps, i).value)
    decreases DepthParts(ps), 1, |ps| - i
  {
    hide FreeEntry, ExpandFrom, ExpandStar, ExpandBelow, DepthEntry, DepthParts;
    Expansion.ExpandFromStep(ps, i);
    if i < |ps| {
      if ps[i].Asterisk? {
        DepthExpandStar(ps, i);
        FreeStar(w, ps, i);
        FreeFrom(w, ExpandStar(ps, i), if NamesOf(ps) == {} then i else i + 1);
      } else if |ps| == 1 {
        DepthBound(ps, DepthParts(ps));
        FreeBelow(w, ps[0]);
      } else {
        FreeFrom(w, ps, i + 1);
      }
    }
  }

  lemma {:induction false} FreeBelow(w: Construct, e: Entry)
    requires FreeEntry(w, e) && ExpandBelow(e).Ok?
    ensures FreeEntry(w, ExpandBelow(e).value)
    decreases DepthEntry(e), 0, 0
  {
    match e {
      case Array(f, es) =>
        hide Expand, Free, ExpandBelow, DepthEntry;
        Expansion.ExpandArray(f, es);
        forall i | 0 <= i < |es| ensures Free(w, Expand(es[i]).value) { FreeExpand(w, es[i]); }
      case Object(m) =>
        hide Expand, Free, ExpandBelow, DepthEntry;
        Expansion.ExpandObject(m);
        forall n | n in m ensures Free(w, Expand(m[n]).value) { FreeExpand(w, m[n]); }
      case _ =>
    }
  }

  lemma {:induction false} FreeExpand(w: Construct, c: Concat)
    requires Free(w, c) && Expand(c).Ok?
    ensures Free(w, Expand(c).value)
    decreases Depth(c), 2, 0
  {
    hide FreeEntry, DepthParts;
    FreeFrom(w, c.parts, 0);
  }

  /** Without asterisks the pass for them does nothing. */
  lemma {:induction false} StarlessFrom(ps: seq<Entry>, i: nat)
    requires FreeParts(Wildcard, ps) && i <= |ps|
    ensures ExpandFrom(ps, i) == Ok(ps)
    decreases DepthParts(ps), 1, |ps| - i
  {
    hide FreeEntry, ExpandFrom, ExpandStar, ExpandBelow, DepthEntry, DepthParts;
    Expansion.ExpandFromStep(ps, i);
    if i < |ps| {
      NoStar(ps[i]);
      if |ps| == 1 {
        DepthBound(ps, DepthParts(ps));
        StarlessBelow(ps[0]);
        assert ps == [ps[0]];
      } else {
        StarlessFrom(ps, i + 1);
      }
    }
  }

  lemma NoStar(e: Entry)
    requires FreeEntry(Wildcard, e)
    ensures !e.Asterisk?
  {
  }

  lemma {:induction false} StarlessBelow(e: Entry)
    requires FreeEntry(Wildcard, e)
    ensures ExpandBelow(e) == Ok(e)
    decreases DepthEntry(e), 0, 0
  {
    match e {
      case Array(f, es) =>
        hide Expand, Free, ExpandBelow, DepthEntry;
        Expansion.ExpandArray(f, es);
        forall i | 0 <= i < |es| ensures Expand(es[i]) == Ok(es[i]) { Starless(es[i]); }
        assert ExpandBelow(e).value.elements == es;
      case Object(m) =>
        hide Expand, Free, ExpandBelow, DepthEntry;
        Expansion.ExpandObject(m);
        forall n | n in m ensures Expand(m[n]) == Ok(m[n]) { Starless(m[n]); }
        assert ExpandBelow(e).value.members == m;
      case _ =>
    }
  }

  lemma {:induction false} Starless(c: Concat)
    requires Free(Wildcard, c)
    ensures Expand(c) == Ok(c)
    decreases Depth(c), 2, 0
  {
    hide FreeEntry, DepthParts;
    StarlessFrom(c.parts, 0);
  }

  // ---- References ----------------------------------------------------------------------------

  lemma FreeChild(w: Construct, c: Concat, h: Hop, d: Concat)
    requires HasChild(c, h) && Free(w, c)
    ensures Free(w, Child(c, h)) && (Free(w, d) ==> Free(w, WithChild(c, h, d)))
  {
    assert FreeEntry(w, c.parts[h.part]);
    if Free(w, d) {
      var e := WithChild(c, h, d).parts[h.part];
      assert FreeEntry(w, e);
    }
  }

  lemma {:induction false} FreeReplace(w: Construct, c: Concat, s: Site, e: Entry)
    requires Free(w, c) && Live(c, s) && FreeEntry(w, e)
    ensures Free(w, Replace(c, s, e))
    decreases |s.pos|
  {
    hide FreeEntry, HasChild, Child, WithChild;
    if s.pos != [] {
      ReplaceBelow(c, s, e);
      var t := Site(s.pos[1..], s.part);
      FreeChild(w, c, s.pos[0], c);
      FreeReplace(w, Child(c, s.pos[0]), t, e);
      FreeChild(w, c, s.pos[0], Replace(Child(c, s.pos[0]), t, e));
    }
  }

  lemma FreeVisit(w: Construct, r: Concat, s: Site)
    requires IsRoot(r) && Live(r, s) && Free(w, r) && Visit(r, s).Ok?
    ensures Free(w, Visit(r, s).value)
  {
    hide Free, Live, Resolve, Primitive;
    var t := Resolve(MembersOf(r), KeyOf(s.pos), ReferenceAt(r, s));
    if t.Found? && t.target.parts != [] {
      Copying.TargetIsPrimitive(MembersOf(r), KeyOf(s.pos), ReferenceAt(r, s));
      PrimitiveIsFree(w, t.target);
      FirstIsFree(w, t.target);
      FreeReplace(w, r, s, t.target.parts[0]);
    }
  }

  lemma FirstIsFree(w: Construct, c: Concat)
    requires Free(w, c) && c.parts != []
    ensures FreeEntry(w, c.parts[0])
  {
  }

  lemma {:induction false} FreeVisits(w: Construct, r: Concat, sites: seq<Site>)
    requires Free(w, r) && VisitAll(r, sites).Ok?
    ensures Free(w, VisitAll(r, sites).value)
    decreases |sites|
  {
    hide Visit, Live, Free;
    if sites != [] {
      FreeVisit(w, r, sites[0]);
      FreeVisits(w, Visit(r, sites[0]).value, sites[1..]);
    }
  }

  // ---- Every pass ----------------------------------------------------------------------------

  lemma RootIsFree(w: Construct, m: Members)
    ensures Free(w, Root(m)) <==> FreeEntry(w, Object(m))
  {
    assert Root(m).parts[0] == Object(m);
  }

  /** No pass makes what a tree has none of, and the pass for it does nothing. */
  lemma PassesStayFree(w: Construct, k: PassKind, fm: FunctionMap, m: Members)
    requires Free(w, Root(m)) && RunPass(k, fm, m).Ok? && (k == CallFunctions ==> Free(Invocation, Root(m)))
    ensures Free(w, Root(RunPass(k, fm, m).value))
    ensures k == CallFunctions || (w == Wildcard && k == ExpandStars) ==> RunPass(k, fm, m) == Ok(m)
  {
    hide Free, FreeEntry, CallEntry, PassEntry, SoundEntry, ExpandBelow, ReferencesPass;
    var o := RunPass(k, fm, m).value;
    RootIsFree(w, m);
    RootIsFree(w, o);
    RootIsFree(Invocation, m);
    ObjectsStay(fm, m);
    match k {
      case CallFunctions => CallsOfFreeEntry(fm, Object(m));
      case AddUp => FreePassEntry(w, Object(m));
      case CopyTargets => CopiesStayFree(w, m);
      case ExpandStars => if w == Wildcard { StarlessBelow(Object(m)); } else { FreeBelow(w, Object(m)); }
    }
  }

  lemma CopiesStayFree(w: Construct, m: Members)
    requires Free(w, Root(m)) && ReferencesPass(Root(m)).Ok?
    ensures IsRoot(ReferencesPass(Root(m)).value) && Free(w, Root(MembersOf(ReferencesPass(Root(m)).value)))
  {
    hide Free, VisitAll, SitesOf;
    ReferencesAdvance(m);
    FreeVisits(w, Root(m), SitesOf(Root(m)));
  }
}
