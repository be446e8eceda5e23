/**
 The tree that is left when nothing more can be added anywhere, up to the bracketing of sums of
 doubles.  It is the same whatever the order in which the additions are made, and it is what repeated
 additions passes end with.
 */
module NormalForm {
  import opened Tree
  import opened Additions
  import opened Measure
  import opened Algebra

  ghost function Size(c: Concat): nat { Count(c, 0) }

  ghost function SizeParts(ps: seq<Entry>): nat { CountParts(ps, 0) }

  ghost function SizeEntry(e: Entry): nat { CountEntry(e, 0) }

  lemma SizePart(ps: seq<Entry>, i: nat)
    requires i < |ps|
    ensures SizeEntry(ps[i]) <= SizeParts(ps)
  {
    PartWithin(ps, i, 0);
  }

  lemma SizeElement(f: string, es: seq<Concat>, i: nat)
    requires i < |es|
    ensures Size(es[i]) < SizeEntry(Array(f, es))
  {
    ElementWithin(f, es, i, 0);
  }

  lemma SizeMember(m: Members, n: string)
    requires n in m
    ensures Size(m[n]) < SizeEntry(Object(m))
  {
    MemberWithin(m, n, 0);
  }

  ghost function Normal(c: Concat): Concat
    decreases Size(c), 2
  {
    c.(parts := NormalParts(c.parts))
  }

  ghost function NormalParts(ps: seq<Entry>): (r: seq<Entry>)
    ensures |r| == |Collapse(ps)|
    decreases SizeParts(ps), 1
  {
    CollapseCount(ps, 0);
    var q := Collapse(ps);
    seq(|q|, i requires 0 <= i < |q| => SizePart(q, i); NormalEntry(q[i]))
  }

  ghost function NormalEntry(e: Entry): (r: Entry)
    ensures ClassOf(r) == ClassOf(e)
    decreases SizeEntry(e), 0
  {
    match e
    case Array(f, es) => Array(f, seq(|es|, i requires 0 <= i < |es| => SizeElement(f, es, i); Normal(es[i])))
    case Object(m) => Object(map n | n in m :: SizeMember(m, n); Normal(m[n]))
    case Asterisk(c) => Asterisk(Normal(c))
    case _ => Loose(e)
  }

  lemma NormalOfLoose(e: Entry, f: Entry)
    requires Loose(e) == Loose(f)
    ensures NormalEntry(e) == NormalEntry(f)
  {
    LooseDoubles(e, f);
  }

  // ---- Sums of lists -------------------------------------------------------------------------

  /** Two sums one after the other: at most the two summands at the seam are added. */
  function Seam(c: seq<Entry>, d: seq<Entry>): seq<Entry> {
    if c != [] && d != [] && Joinable(c[|c| - 1], d[0])
    then c[..|c| - 1] + [Join(c[|c| - 1], d[0])] + d[1..]
    else c + d
  }

  lemma {:induction false} PushAllReady(c: seq<Entry>, d: seq<Entry>)
    requires NothingToAdd(d) && (c != [] && d != [] ==> !Joinable(c[|c| - 1], d[0]))
    ensures PushAll(c, d) == c + d
    decreases |d|
  {
    hide Joinable;
    if d != [] {
      RestReady(d);
      PushAllReady(c + [d[0]], d[1..]);
      assert c + [d[0]] + d[1..] == c + d;
    }
  }

  lemma RestReady(d: seq<Entry>)
    requires d != [] && NothingToAdd(d)
    ensures NothingToAdd(d[1..])
    ensures |d| > 1 ==> !Joinable(d[0], d[1])
  {
    hide Joinable;
    forall i | 0 < i < |d[1..]| ensures !Joinable(d[1..][i - 1], d[1..][i]) {
      assert !Joinable(d[i], d[i + 1]);
    }
  }

  /** The first summand of a sum that goes on is taken away. */
  lemma SeamReady(l: Entry, d: seq<Entry>)
    requires d != [] && Joinable(l, d[0]) && NothingToAdd(d)
    ensures d[1..] != [] ==> !Joinable(Join(l, d[0]), d[1..][0])
  {
    hide Joinable, Join, ClassOf;
    JoinClass(l, d[0]);
    if |d| > 1 {
      RestReady(d);
      SameClassJoins(Join(l, d[0]), d[0], d[1]);
    }
  }

  lemma CollapseSeam(ps: seq<Entry>, qs: seq<Entry>)
    ensures LooseParts(Collapse(ps + qs)) == LooseParts(Seam(Collapse(ps), Collapse(qs)))
  {
    hide Join, ClassOf, Push, Collapse, PushAll, Joinable, LooseParts, NothingToAdd;
    var c, d := Collapse(ps), Collapse(qs);
    CollapseHalves(ps, qs);
    CollapseIsReady(qs);
    if c != [] && d != [] && Joinable(c[|c| - 1], d[0]) {
      PushJoins(c, d[0]);
      PushAllNext(c, d);
      RestReady(d);
      SeamReady(c[|c| - 1], d);
      PushAllReady(Push(c, d[0]), d[1..]);
    } else {
      PushAllReady(c, d);
    }
  }

  lemma CollapseIsReady(ps: seq<Entry>)
    ensures NothingToAdd(Collapse(ps))
  {
    hide Collapse, Joinable;
    CollapseLeavesNothing(ps);
  }

  lemma PushAllNext(c: seq<Entry>, d: seq<Entry>)
    requires d != []
    ensures PushAll(c, d) == PushAll(Push(c, d[0]), d[1..])
  {
  }

  lemma SameClassJoins(a: Entry, b: Entry, e: Entry)
    requires ClassOf(a) == ClassOf(b)
    ensures Joinable(a, e) <==> Joinable(b, e)
    ensures Joinable(e, a) <==> Joinable(e, b)
  {
  }

  lemma PushJoins(c: seq<Entry>, e: Entry)
    requires c != [] && Joinable(c[|c| - 1], e)
    ensures Push(c, e) == c[..|c| - 1] + [Join(c[|c| - 1], e)]
  {
  }

  ghost predicate Alike(ps: seq<Entry>, qs: seq<Entry>) {
    |ps| == |qs| && forall i | 0 <= i < |ps| :: NormalEntry(ps[i]) == NormalEntry(qs[i])
  }

  lemma AlikeIsNormal(ps: seq<Entry>, qs: seq<Entry>)
    ensures NormalParts(ps) == NormalParts(qs) <==> Alike(Collapse(ps), Collapse(qs))
  {
    hide NormalEntry, Collapse;
    var p, q := Collapse(ps), Collapse(qs);
    var a, b := NormalParts(ps), NormalParts(qs);
    assert forall i | 0 <= i < |p| :: a[i] == NormalEntry(p[i]);
    assert forall i | 0 <= i < |q| :: b[i] == NormalEntry(q[i]);
    if |p| == |q| && !Alike(p, q) {
      var i :| 0 <= i < |p| && NormalEntry(p[i]) != NormalEntry(q[i]);
      assert a[i] != b[i];
    }
  }

  lemma LooseAlike(ps: seq<Entry>, qs: seq<Entry>)
    requires LooseParts(ps) == LooseParts(qs)
    ensures Alike(ps, qs)
  {
    hide Loose, NormalEntry;
    assert |LooseParts(ps)| == |ps| && |LooseParts(qs)| == |qs|;
    forall i | 0 <= i < |ps| ensures NormalEntry(ps[i]) == NormalEntry(qs[i]) {
      assert LooseParts(ps)[i] == LooseParts(qs)[i];
      NormalOfLoose(ps[i], qs[i]);
    }
  }

  /** The normal form of a list depends on its halves only through their normal forms. */
  lemma {:induction false} NormalCongruence(ps: seq<Entry>, qs: seq<Entry>, xs: seq<Entry>, ys: seq<Entry>)
    requires NormalParts(ps) == NormalParts(xs) && NormalParts(qs) == NormalParts(ys)
    ensures NormalParts(ps + qs) == NormalParts(xs + ys)
    decreases SizeParts(ps) + SizeParts(qs), 1
  {
    hide NormalParts, NormalEntry, Collapse, SizeEntry, CountParts, Joinable, Join, ClassOf, LooseParts;
    var c, d, x, y := Collapse(ps), Collapse(qs), Collapse(xs), Collapse(ys);
    AlikeIsNormal(ps, xs);
    AlikeIsNormal(qs, ys);
    AlikeIsNormal(ps + qs, xs + ys);
    CollapseSeam(ps, qs);
    CollapseSeam(xs, ys);
    LooseAlike(Collapse(ps + qs), Seam(c, d));
    LooseAlike(Collapse(xs + ys), Seam(x, y));
    CollapseCount(ps, 0);
    CollapseCount(qs, 0);
    if c != [] && d != [] && Joinable(c[|c| - 1], d[0]) && x != [] && y != [] && Joinable(x[|x| - 1], y[0]) {
      SizePart(c, |c| - 1);
      SizePart(d, 0);
      JoinCongruence(c[|c| - 1], d[0], x[|x| - 1], y[0]);
    }
    SeamAlike(c, d, x, y);
  }

  lemma SeamAlike(c: seq<Entry>, d: seq<Entry>, x: seq<Entry>, y: seq<Entry>)
    requires Alike(c, x) && Alike(d, y)
    requires c != [] && d != [] && Joinable(c[|c| - 1], d[0]) && x != [] && y != [] && Joinable(x[|x| - 1], y[0]) ==>
      NormalEntry(Join(c[|c| - 1], d[0])) == NormalEntry(Join(x[|x| - 1], y[0]))
    ensures Alike(Seam(c, d), Seam(x, y))
  {
    hide NormalEntry, Joinable, Join, ClassOf;
    if c != [] && d != [] {
      SameKind(c[|c| - 1], x[|x| - 1]);
      SameKind(d[0], y[0]);
      SameClassJoins(c[|c| - 1], x[|x| - 1], d[0]);
      SameClassJoins(d[0], y[0], x[|x| - 1]);
    }
  }

  lemma {:induction false} JoinCongruence(a: Entry, b: Entry, x: Entry, y: Entry)
    requires Joinable(a, b) && Joinable(x, y)
    requires NormalEntry(a) == NormalEntry(x) && NormalEntry(b) == NormalEntry(y)
    ensures NormalEntry(Join(a, b)) == NormalEntry(Join(x, y))
    decreases SizeEntry(a) + SizeEntry(b), 0
  {
    hide NormalEntry, Merge, Stack, Signed64, Unsigned64, Normal;
    if a.Array? {
      JoinArrays(a, b, x, y);
    } else if a.Object? {
      ObjectNormal(a.members, x.members);
      ObjectNormal(b.members, y.members);
      forall n | n in a.members && n in b.members
        ensures Normal(Stack(a.members[n], b.members[n])) == Normal(Stack(x.members[n], y.members[n]))
      {
        SizeMember(a.members, n);
        SizeMember(b.members, n);
        StackCongruence(a.members[n], b.members[n], x.members[n], y.members[n]);
      }
      JoinObjects(a.members, b.members, x.members, y.members);
    } else {
      AtomNormal(a, x);
      AtomNormal(b, y);
      LooseJoin(a, b, x, y);
      NormalOfLoose(Join(a, b), Join(x, y));
    }
  }

  lemma AtomNormal(e: Entry, f: Entry)
    requires NormalEntry(e) == NormalEntry(f) && !e.Array? && !e.Object? && !e.Asterisk?
    ensures Loose(e) == Loose(f)
  {
    SameKind(e, f);
    assert NormalEntry(e) == Loose(e);
    if ClassOf(f) == Waiting { assert f.Reference?; }
  }

  lemma SameKind(e: Entry, f: Entry)
    requires NormalEntry(e) == NormalEntry(f)
    ensures ClassOf(e) == ClassOf(f)
    ensures e.Object? == f.Object? && e.Array? == f.Array? && e.Asterisk? == f.Asterisk?
  {
    assert ClassOf(NormalEntry(e)) == ClassOf(e) && ClassOf(NormalEntry(f)) == ClassOf(f);
    assert NormalEntry(e).Array? == e.Array? && NormalEntry(f).Array? == f.Array?;
    assert NormalEntry(e).Asterisk? == e.Asterisk? && NormalEntry(f).Asterisk? == f.Asterisk?;
  }

  lemma ObjectNormal(m: Members, o: Members)
    ensures NormalEntry(Object(m)) == NormalEntry(Object(o)) <==>
      m.Keys == o.Keys && forall n | n in m :: Normal(m[n]) == Normal(o[n])
  {
    hide Normal;
    var a, b := NormalEntry(Object(m)).members, NormalEntry(Object(o)).members;
    assert a.Keys == m.Keys && b.Keys == o.Keys;
    assert forall n | n in m :: a[n] == Normal(m[n]);
    assert forall n | n in o :: b[n] == Normal(o[n]);
    assert a == b <==> (m.Keys == o.Keys && forall n | n in m :: Normal(m[n]) == Normal(o[n]));
  }

  lemma JoinObjects(a: Members, b: Members, x: Members, y: Members)
    requires NormalEntry(Object(a)) == NormalEntry(Object(x)) && NormalEntry(Object(b)) == NormalEntry(Object(y))
    requires forall n | n in a && n in b && n in x && n in y :: Normal(Stack(a[n], b[n])) == Normal(Stack(x[n], y[n]))
    ensures NormalEntry(Object(Merge(a, b))) == NormalEntry(Object(Merge(x, y)))
  {
    hide Normal, Stack, NormalEntry;
    ObjectNormal(a, x);
    ObjectNormal(b, y);
    ObjectNormal(Merge(a, b), Merge(x, y));
  }

  lemma JoinArrays(a: Entry, b: Entry, x: Entry, y: Entry)
    requires Joinable(a, b) && Joinable(x, y) && a.Array?
    requires NormalEntry(a) == NormalEntry(x) && NormalEntry(b) == NormalEntry(y)
    ensures NormalEntry(Join(a, b)) == NormalEntry(Join(x, y))
  {
    hide Normal, NormalEntry;
    ArrayNormal(a.call, a.elements, x);
    ArrayNormal(b.call, b.elements, y);
    ArrayNormal("", a.elements + b.elements, Join(x, y));
    assert forall i | 0 <= i < |a.elements| + |b.elements| ::
      (a.elements + b.elements)[i] == (if i < |a.elements| then a.elements[i] else b.elements[i - |a.elements|]);
  }

  lemma ArrayNormal(f: string, es: seq<Concat>, e: Entry)
    ensures NormalEntry(Array(f, es)) == NormalEntry(e) <==>
      e.Array? && f == e.call && |es| == |e.elements| && forall i | 0 <= i < |es| :: Normal(es[i]) == Normal(e.elements[i])
  {
    hide Normal;
    assert NormalEntry(e).Array? <==> e.Array?;
    if e.Array? {
      var a, b := NormalEntry(Array(f, es)).elements, NormalEntry(e).elements;
      assert |a| == |es| && |b| == |e.elements|;
      assert forall i | 0 <= i < |es| :: a[i] == Normal(es[i]);
      assert forall i | 0 <= i < |e.elements| :: b[i] == Normal(e.elements[i]);
      assert a == b <==> (|es| == |e.elements| && forall i | 0 <= i < |es| :: Normal(es[i]) == Normal(e.elements[i]));
    }
  }

  lemma {:induction false} StackCongruence(a: Concat, b: Concat, x: Concat, y: Concat)
    requires Normal(a) == Normal(x) && Normal(b) == Normal(y)
    ensures Normal(Stack(a, b)) == Normal(Stack(x, y))
    decreases Size(a) + Size(b), 2
  {
    hide NormalParts;
    NormalCongruence(a.parts, b.parts, x.parts, y.parts);
  }

  lemma AlikeHalves(ps: seq<Entry>, qs: seq<Entry>)
    requires Alike(ps, qs)
    ensures |ps| == |qs| && (|ps| == 0 ==> ps == qs)
    ensures |ps| > 0 ==> Alike(ps[..|ps| - 1], qs[..|qs| - 1]) && Alike([ps[|ps| - 1]], [qs[|qs| - 1]])
  {
    hide NormalEntry;
  }

  // ---- The additions pass --------------------------------------------------------------------

  /** Rewriting each summand without changing what it normalises to does not change the sum. */
  lemma {:induction false} NormalOfRewritten(ps: seq<Entry>, qs: seq<Entry>)
    requires Alike(ps, qs)
    ensures NormalParts(ps) == NormalParts(qs)
    decreases |ps|
  {
    hide *;
    AlikeHalves(ps, qs);
    if |ps| > 0 {
      var p, q, e, f := ps[..|ps| - 1], qs[..|qs| - 1], ps[|ps| - 1], qs[|qs| - 1];
      NormalOfRewritten(p, q);
      CollapseShort([e]);
      CollapseShort([f]);
      AlikeIsNormal([e], [f]);
      NormalCongruence(p, [e], q, [f]);
      assert ps == p + [e] && qs == q + [f];
    }
  }

  /** Adding up two neighbours does not change the sum. */
  lemma NormalOfJoined(init: seq<Entry>, a: Entry, b: Entry)
    requires Joinable(a, b)
    ensures NormalParts(init + [a] + [b]) == NormalParts(init + [Join(a, b)])
  {
    hide NormalEntry, NormalParts, Collapse, Join, Joinable, ClashFree, LooseParts;
    var ps := init + [a] + [b];
    AdditionOrderIsIrrelevant(ps, |init|);
    assert AddAt(ps, |init|) == init + [Join(a, b)];
    LooseAlike(Collapse(ps), Collapse(init + [Join(a, b)]));
    AlikeIsNormal(ps, init + [Join(a, b)]);
  }

  lemma NormalOfCollapsed(ps: seq<Entry>)
    ensures NormalParts(Collapse(ps)) == NormalParts(ps)
  {
    hide NormalEntry, Collapse;
    CollapseLeavesNothing(ps);
    CollapsedIsFixed(Collapse(ps));
    AlikeIsNormal(Collapse(ps), ps);
  }

  /** The pass brings a tree nearer to its normal form and never changes the normal form. */
  lemma {:induction false} PassKeepsNormal(c: Concat)
    ensures Normal(Pass(c)) == Normal(c)
  {
    hide NormalParts, NormalEntry, Collapse, PassEntry;
    var ps := seq(|c.parts|, i requires 0 <= i < |c.parts| => PassEntry(c.parts[i]));
    forall i | 0 <= i < |ps| ensures NormalEntry(ps[i]) == NormalEntry(c.parts[i]) {
      PassKeepsNormalEntry(c.parts[i]);
    }
    NormalOfRewritten(ps, c.parts);
    NormalOfCollapsed(ps);
  }

  lemma {:induction false} PassKeepsNormalEntry(e: Entry)
    ensures NormalEntry(PassEntry(e)) == NormalEntry(e)
  {
    hide Normal, Pass;
    match e {
      case Array(f, es) =>
        forall i | 0 <= i < |es| ensures Normal(Pass(es[i])) == Normal(es[i]) { PassKeepsNormal(es[i]); }
        ArrayNormal(f, es, PassEntry(e));
      case Object(m) =>
        forall n | n in m ensures Normal(Pass(m[n])) == Normal(m[n]) { PassKeepsNormal(m[n]); }
        ObjectNormal(m, PassEntry(e).members);
      case Asterisk(c) =>
        PassKeepsNormal(c);
      case _ =>
    }
  }

  // ---- Bracketing ----------------------------------------------------------------------------

  /** The tree once the bracketing of sums of doubles is forgotten. */
  function LooseTree(c: Concat): Concat {
    c.(parts := seq(|c.parts|, i requires 0 <= i < |c.parts| => LooseEntry(c.parts[i])))
  }

  function LooseEntry(e: Entry): (r: Entry)
    ensures ClassOf(r) == ClassOf(e)
  {
    match e
    case Array(f, es) => Array(f, seq(|es|, i requires 0 <= i < |es| => LooseTree(es[i])))
    case Object(m) => Object(map n | n in m :: LooseTree(m[n]))
    case Asterisk(c) => Asterisk(LooseTree(c))
    case _ => Loose(e)
  }

  /** At most two doubles have met in any sum. */
  predicate Thin(c: Concat) {
    forall i | 0 <= i < |c.parts| :: ThinEntry(c.parts[i])
  }

  predicate ThinEntry(e: Entry) {
    match e
    case Array(_, es) => forall i | 0 <= i < |es| :: Thin(es[i])
    case Object(m) => forall n | n in m :: Thin(m[n])
    case Asterisk(c) => Thin(c)
    case Double(f) => |Leaves(f)| <= 2
    case _ => true
  }

  /** Sums of at most two doubles have only one bracketing. */
  lemma {:induction false} ThinIsExact(c: Concat, d: Concat)
    requires LooseTree(c) == LooseTree(d) && Thin(c)
    ensures c == d
    decreases c
  {
    hide LooseEntry, ThinEntry;
    var a, b := LooseTree(c), LooseTree(d);
    assert |c.parts| == |a.parts| == |b.parts| == |d.parts|;
    forall i | 0 <= i < |c.parts| ensures c.parts[i] == d.parts[i] {
      assert a.parts[i] == LooseEntry(c.parts[i]) && b.parts[i] == LooseEntry(d.parts[i]);
      ThinEntryIsExact(c.parts[i], d.parts[i]);
    }
    assert c.parts == d.parts;
    assert c == a.(parts := c.parts) && d == b.(parts := d.parts);
  }

  lemma {:induction false} ThinEntryIsExact(e: Entry, f: Entry)
    requires LooseEntry(e) == LooseEntry(f) && ThinEntry(e)
    ensures e == f
    decreases e
  {
    LooseKind(e);
    LooseKind(f);
    match e {
      case Array(g, es) =>
        hide LooseTree, Thin;
        var a, b := LooseEntry(e).elements, LooseEntry(f).elements;
        assert |a| == |es| && |b| == |f.elements|;
        forall i | 0 <= i < |es| ensures es[i] == f.elements[i] {
          assert a[i] == LooseTree(es[i]) && b[i] == LooseTree(f.elements[i]);
          ThinIsExact(es[i], f.elements[i]);
        }
        assert es == f.elements;
      case Object(m) =>
        hide LooseTree, Thin;
        var a, b := LooseEntry(e).members, LooseEntry(f).members;
        assert a.Keys == m.Keys && b.Keys == f.members.Keys;
        forall n | n in m ensures m[n] == f.members[n] {
          assert a[n] == LooseTree(m[n]) && b[n] == LooseTree(f.members[n]);
          ThinIsExact(m[n], f.members[n]);
        }
        assert m == f.members;
      case Asterisk(c) => ThinIsExact(c, f.star);
      case Double(x) =>
        LooseDoubles(e, f);
        OneBracketing(x, f.d);
      case _ => LooseDoubles(e, f);
    }
  }

  lemma LooseKind(e: Entry)
    ensures LooseEntry(e).Array? == e.Array? && LooseEntry(e).Object? == e.Object? && LooseEntry(e).Asterisk? == e.Asterisk?
    ensures LooseEntry(e).Double? == e.Double?
    ensures !e.Array? && !e.Object? && !e.Asterisk? ==> LooseEntry(e) == Loose(e)
  {
  }

  lemma OneBracketing(x: Float, y: Float)
    requires Leaves(x) == Leaves(y) && |Leaves(x)| <= 2
    ensures x == y
  {
    ShortSum(x);
    ShortSum(y);
  }

  lemma ShortSum(x: Float)
    ensures |Leaves(x)| == 1 ==> x == Bits(Leaves(x)[0])
    ensures |Leaves(x)| == 2 ==> x == Rounded(Bits(Leaves(x)[1]), Bits(Leaves(x)[0]))
  {
    if x.Rounded? {
      assert Leaves(x) == Leaves(x.y) + Leaves(x.x) && |Leaves(x.x)| >= 1 && |Leaves(x.y)| >= 1;
      if |Leaves(x)| == 2 {
        ShortSum(x.x);
        ShortSum(x.y);
      }
    }
  }

  /** A tree on which the pass has nothing to do is in normal form, up to bracketing. */
  lemma {:induction false} FixedIsNormal(c: Concat)
    requires Pass(c) == c
    ensures Normal(c) == LooseTree(c)
  {
    hide NormalEntry, Collapse, PassEntry, LooseEntry;
    var ps := seq(|c.parts|, i requires 0 <= i < |c.parts| => PassEntry(c.parts[i]));
    assert Collapse(ps) == c.parts && |ps| == |c.parts|;
    assert ps == c.parts;
    forall i | 0 <= i < |ps| ensures NormalEntry(ps[i]) == LooseEntry(ps[i]) {
      assert ps[i] == PassEntry(c.parts[i]);
      FixedIsNormalEntry(c.parts[i]);
    }
    assert NormalParts(c.parts) == LooseTree(c).parts;
  }

  lemma {:induction false} FixedIsNormalEntry(e: Entry)
    requires PassEntry(e) == e
    ensures NormalEntry(e) == LooseEntry(e)
  {
    hide Normal, Pass, LooseTree;
    match e {
      case Array(f, es) =>
        forall i | 0 <= i < |es| ensures Normal(es[i]) == LooseTree(es[i]) {
          assert PassEntry(e).elements[i] == Pass(es[i]);
          FixedIsNormal(es[i]);
        }
        assert NormalEntry(e).elements == LooseEntry(e).elements;
      case Object(m) =>
        forall n | n in m ensures Normal(m[n]) == LooseTree(m[n]) {
          assert PassEntry(e).members[n] == Pass(m[n]);
          FixedIsNormal(m[n]);
        }
        assert NormalEntry(e).members == LooseEntry(e).members;
      case Asterisk(c) =>
        FixedIsNormal(c);
      case _ =>
    }
  }

  // ---- Additions anywhere, in any order ------------------------------------------------------

  /** `d` is `c` after one addition of two ready neighbours, somewhere in the tree. */
  ghost predicate OneAddition(c: Concat, d: Concat) {
    && d == c.(parts := d.parts)
    && ((exists i: nat | i + 1 < |c.parts| && Joinable(c.parts[i], c.parts[i + 1]) :: d.parts == AddAt(c.parts, i))
        || (exists i | 0 <= i < |c.parts| ::
              |d.parts| == |c.parts| && d.parts == c.parts[i := d.parts[i]] && OneAdditionIn(c.parts[i], d.parts[i])))
  }

  ghost predicate OneAdditionIn(e: Entry, f: Entry) {
    match e
    case Array(g, es) =>
      f.Array? && f.call == g && |f.elements| == |es|
      && exists i | 0 <= i < |es| :: f.elements == es[i := f.elements[i]] && OneAddition(es[i], f.elements[i])
    case Object(m) =>
      f.Object? && f.members.Keys == m.Keys
      && exists n | n in m :: f.members == m[n := f.members[n]] && OneAddition(m[n], f.members[n])
    case Asterisk(c) => f.Asterisk? && OneAddition(c, f.star)
    case _ => false
  }

  lemma {:induction false} OneAdditionKeepsNormal(c: Concat, d: Concat)
    requires OneAddition(c, d)
    ensures Normal(d) == Normal(c)
  {
    hide NormalParts, NormalEntry, Collapse, OneAdditionIn, AddAt, Joinable, LooseParts;
    if i: nat :| i + 1 < |c.parts| && Joinable(c.parts[i], c.parts[i + 1]) && d.parts == AddAt(c.parts, i) {
      AdditionOrderIsIrrelevant(c.parts, i);
      LooseAlike(Collapse(d.parts), Collapse(c.parts));
      AlikeIsNormal(c.parts, d.parts);
    } else {
      var i :| 0 <= i < |c.parts| && |d.parts| == |c.parts| && d.parts == c.parts[i := d.parts[i]]
        && OneAdditionIn(c.parts[i], d.parts[i]);
      OneAdditionInKeepsNormal(c.parts[i], d.parts[i]);
      NormalOfRewritten(c.parts, d.parts);
    }
  }

  lemma {:induction false} OneAdditionInKeepsNormal(e: Entry, f: Entry)
    requires OneAdditionIn(e, f)
    ensures NormalEntry(f) == NormalEntry(e)
  {
    hide Normal, OneAddition;
    match e {
      case Array(g, es) =>
        var i :| 0 <= i < |es| && f.elements == es[i := f.elements[i]] && OneAddition(es[i], f.elements[i]);
        OneAdditionKeepsNormal(es[i], f.elements[i]);
        ArrayNormal(g, es, f);
      case Object(m) =>
        var n :| n in m && f.members == m[n := f.members[n]] && OneAddition(m[n], f.members[n]);
        OneAdditionKeepsNormal(m[n], f.members[n]);
        ObjectNormal(m, f.members);
      case Asterisk(c) =>
        OneAdditionKeepsNormal(c, f.star);
    }
  }

  ghost predicate AdditionRun(run: seq<Concat>) {
    run != [] && forall i | 0 < i < |run| :: OneAddition(run[i - 1], run[i])
  }

  /**
   Every maximal run of single additions, made anywhere in the tree and in any order, ends with
   the normal form of the first tree, up to the bracketing of doubles.
   */
  lemma {:induction false} RunsEndNormal(run: seq<Concat>)
    requires AdditionRun(run)
    requires Pass(run[|run| - 1]) == run[|run| - 1]
    ensures LooseTree(run[|run| - 1]) == Normal(run[0])
  {
    hide Normal, Pass, OneAddition, LooseTree;
    if |run| == 1 {
      FixedIsNormal(run[0]);
    } else {
      assert OneAddition(run[0], run[1]);
      OneAdditionKeepsNormal(run[0], run[1]);
      assert forall i | 0 < i < |run[1..]| :: OneAddition(run[1..][i - 1], run[1..][i]) by {
        forall i | 0 < i < |run[1..]| ensures OneAddition(run[1..][i - 1], run[1..][i]) {
          assert OneAddition(run[i], run[i + 1]);
        }
      }
      RunsEndNormal(run[1..]);
    }
  }

  /**
   Any two maximal runs of single additions from the same tree end with the same tree, up to the
   bracketing of doubles, and exactly the same where at most two doubles have met in any sum.
   */
  lemma AdditionsAreConfluent(run: seq<Concat>, other: seq<Concat>)
    requires AdditionRun(run) && AdditionRun(other) && run[0] == other[0]
    requires Pass(run[|run| - 1]) == run[|run| - 1] && Pass(other[|other| - 1]) == other[|other| - 1]
    ensures LooseTree(run[|run| - 1]) == LooseTree(other[|other| - 1])
    ensures Thin(run[|run| - 1]) ==> run[|run| - 1] == other[|other| - 1]
  {
    hide Normal, Pass, OneAddition, LooseTree, Thin;
    RunsEndNormal(run);
    RunsEndNormal(other);
    if Thin(run[|run| - 1]) { ThinIsExact(run[|run| - 1], other[|other| - 1]); }
  }
}
