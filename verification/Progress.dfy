/** Every pass of phase 2 that changes a tree takes it down in the order of module Descent. */
module Progress {
  import opened Tree
  import opened Sums
  import opened Additions
  import opened Measure
  import opened Descent

  // ---- Weights of trees and lists ------------------------------------------------------------

  ghost function W(c: Concat): Weight { (k: nat) => Count(c, k) }

  ghost function WParts(ps: seq<Entry>): Weight { (k: nat) => CountParts(ps, k) }

  ghost function WEntry(e: Entry): Weight { (k: nat) => CountEntry(e, k) }

  ghost function WElements(es: seq<Concat>): Weight { (k: nat) => CountElements(es, k) }

  ghost function WMembers(m: Members): Weight { (k: nat) => CountMembers(m, k) }

  /** `d` is `c`, or has made progress. */
  ghost predicate Advances(c: Concat, d: Concat) {
    c == d || Drops(W(d), W(c))
  }

  ghost predicate AdvancesEntry(e: Entry, f: Entry) {
    e == f || Drops(WEntry(f), WEntry(e))
  }

  lemma DropsIsChange(c: Concat, d: Concat)
    requires Drops(W(d), W(c))
    ensures c != d
  {
  }

  lemma AdvancesTransitive(c: Concat, d: Concat, e: Concat)
    requires Advances(c, d) && Advances(d, e)
    ensures Advances(c, e)
    ensures c == e ==> c == d
  {
    hide Count;
    if c != d && d != e {
      DropsTransitive(W(e), W(d), W(c));
    }
  }

  lemma {:induction false} PartsAdvance(ps: seq<Entry>, qs: seq<Entry>)
    requires |ps| == |qs| && forall i | 0 <= i < |ps| :: AdvancesEntry(ps[i], qs[i])
    ensures ps == qs || Drops(WParts(qs), WParts(ps))
    decreases |ps|
  {
    hide CountParts, CountEntry, Drops;
    if ps != [] {
      var p, q, e, f := ps[..|ps| - 1], qs[..|qs| - 1], ps[|ps| - 1], qs[|qs| - 1];
      PartsAdvance(p, q);
      assert ps == p + [e] && qs == q + [f];
      forall k: nat
        ensures CountParts(ps, k) == CountParts(p, k) + CountEntry(e, k)
        ensures CountParts(qs, k) == CountParts(q, k) + CountEntry(f, k)
      {
        PartsSplit(p, [e], k);
        PartsSplit(q, [f], k);
        PartsSingle(e, k);
        PartsSingle(f, k);
      }
      DropsSum(WParts(qs), WParts(ps), WParts(q), WParts(p), WEntry(f), WEntry(e));
      if !Drops(WParts(qs), WParts(ps)) {
        assert !Drops(WParts(q), WParts(p)) && !Drops(WEntry(f), WEntry(e)) by {
          NotSame(WParts(q), WParts(p));
          NotSame(WEntry(f), WEntry(e));
        }
      }
    }
  }

  lemma NotSame(f: Weight, g: Weight)
    ensures !(Drops(f, g) && Same(f, g))
  {
  }

  lemma {:induction false} ElementsAdvance(es: seq<Concat>, fs: seq<Concat>)
    requires |es| == |fs| && forall i | 0 <= i < |es| :: Advances(es[i], fs[i])
    ensures es == fs || Drops(WElements(fs), WElements(es))
    decreases |es|
  {
    hide CountElements, Count, Drops;
    if es != [] {
      var p, q, e, f := es[..|es| - 1], fs[..|fs| - 1], es[|es| - 1], fs[|fs| - 1];
      ElementsAdvance(p, q);
      assert es == p + [e] && fs == q + [f];
      forall k: nat
        ensures CountElements(es, k) == CountElements(p, k) + Count(e, k)
        ensures CountElements(fs, k) == CountElements(q, k) + Count(f, k)
      {
        ElementsSplit(p, [e], k);
        ElementsSplit(q, [f], k);
        ElementsSingle(e, k);
        ElementsSingle(f, k);
      }
      DropsSum(WElements(fs), WElements(es), WElements(q), WElements(p), W(f), W(e));
      NotSame(WElements(q), WElements(p));
      NotSame(W(f), W(e));
    }
  }

  lemma ElementsSingle(e: Concat, k: nat)
    ensures CountElements([e], k) == Count(e, k)
  {
    hide Count;
    var w := seq(|[e]|, i requires 0 <= i < |[e]| => Count([e][i], k));
    assert w == [Count(e, k)] && Total(w) == w[0] + Total(w[1..]);
  }

  lemma MembersSplit(m: Members, n: string, k: nat)
    requires n in m
    ensures CountMembers(m, k) == Count(m[n], k) + CountMembers(m - {n}, k)
  {
    hide Count;
    var w := map x | x in m :: Count(m[x], k);
    SumRemove(w, n);
    assert w - {n} == map x | x in m - {n} :: Count((m - {n})[x], k);
  }

  lemma {:induction false} MembersAdvance(m: Members, o: Members)
    requires m.Keys == o.Keys && forall n | n in m :: Advances(m[n], o[n])
    ensures m == o || Drops(WMembers(o), WMembers(m))
    decreases |m.Keys|
  {
    hide CountMembers, Count, Drops;
    if m != map[] {
      var n :| n in m;
      var a, b := m - {n}, o - {n};
      assert |a.Keys| < |m.Keys| by { assert a.Keys == m.Keys - {n}; }
      MembersAdvance(a, b);
      forall k: nat
        ensures CountMembers(m, k) == Count(m[n], k) + CountMembers(a, k)
        ensures CountMembers(o, k) == Count(o[n], k) + CountMembers(b, k)
      {
        MembersSplit(m, n, k);
        MembersSplit(o, n, k);
      }
      DropsSum(WMembers(o), WMembers(m), W(o[n]), W(m[n]), WMembers(b), WMembers(a));
      NotSame(W(o[n]), W(m[n]));
      NotSame(WMembers(b), WMembers(a));
      if a == b && m[n] == o[n] {
        assert forall x | x in m :: m[x] == (if x == n then o[n] else b[x]);
      }
    }
  }

  // ---- Entries -------------------------------------------------------------------------------

  lemma ArrayAdvances(f: string, es: seq<Concat>, fs: seq<Concat>)
    requires |es| == |fs| && forall i | 0 <= i < |es| :: Advances(es[i], fs[i])
    ensures AdvancesEntry(Array(f, es), Array(f, fs))
  {
    hide CountElements, Drops;
    ElementsAdvance(es, fs);
    if es != fs {
      var a, b := Array(f, es), Array(f, fs);
      DropsSum(WEntry(b), WEntry(a), (k: nat) => Own(b, k), (k: nat) => Own(a, k), WElements(fs), WElements(es));
      NotSame(WElements(fs), WElements(es));
    }
  }

  lemma ObjectAdvances(m: Members, o: Members)
    requires m.Keys == o.Keys && forall n | n in m :: Advances(m[n], o[n])
    ensures AdvancesEntry(Object(m), Object(o))
  {
    hide CountMembers, CountEntry, Drops;
    MembersAdvance(m, o);
    if m != o {
      var a, b := Object(m), Object(o);
      forall k: nat
        ensures CountEntry(a, k) == (if k == 0 then 1 else 0) + CountMembers(m, k)
        ensures CountEntry(b, k) == (if k == 0 then 1 else 0) + CountMembers(o, k)
      {
        ObjectCount(m, k);
        ObjectCount(o, k);
      }
      var one: Weight := k => if k == 0 then 1 else 0;
      DropsSum(WEntry(b), WEntry(a), one, one, WMembers(o), WMembers(m));
      NotSame(WMembers(o), WMembers(m));
    }
  }

  // ---- Heights -------------------------------------------------------------------------------

  lemma HeightBound(c: Concat, b: nat)
    ensures Height(c) <= b <==> forall i | 0 <= i < |c.parts| :: HeightEntry(c.parts[i]) <= b
  {
    hide HeightEntry;
    var w := seq(|c.parts|, i requires 0 <= i < |c.parts| => HeightEntry(c.parts[i]));
    assert forall i | 0 <= i < |c.parts| :: w[i] == HeightEntry(c.parts[i]);
  }

  lemma HeightOfElements(f: string, es: seq<Concat>, b: nat)
    ensures HeightEntry(Array(f, es)) <= b <==> forall i | 0 <= i < |es| :: Height(es[i]) <= b
  {
    hide Height;
    var w := seq(|es|, i requires 0 <= i < |es| => Height(es[i]));
    assert forall i | 0 <= i < |es| :: w[i] == Height(es[i]);
  }

  lemma HeightOfMembers(m: Members, b: nat)
    ensures HeightEntry(Object(m)) <= b <==> forall n | n in m :: Height(m[n]) <= b
  {
    hide Height;
    var w := map n | n in m :: Height(m[n]);
    assert forall n | n in m :: w[n] == Height(m[n]);
  }

  /** Levels above the nesting of the asterisks are empty. */
  lemma {:induction false} AboveHeight(c: Concat, k: nat)
    requires k >= Height(c) + 2
    ensures Count(c, k) == 0
  {
    hide CountEntry, HeightEntry;
    HeightBound(c, Height(c));
    var ps := c.parts;
    var w := seq(|ps|, i requires 0 <= i < |ps| => CountEntry(ps[i], k));
    forall i | 0 <= i < |ps| ensures w[i] == 0 {
      AboveHeightEntry(ps[i], k);
    }
    TotalZero(w);
    assert CountParts(ps, k) == Total(w);
  }

  lemma {:induction false} AboveHeightEntry(e: Entry, k: nat)
    requires k >= HeightEntry(e) + 2
    ensures CountEntry(e, k) == 0
  {
    match e {
      case Array(f, es) =>
        hide Count, Height;
        HeightOfElements(f, es, HeightEntry(e));
        var w := seq(|es|, i requires 0 <= i < |es| => Count(es[i], k));
        forall i | 0 <= i < |es| ensures w[i] == 0 { AboveHeight(es[i], k); }
        TotalZero(w);
      case Object(m) =>
        hide Count, Height;
        HeightOfMembers(m, HeightEntry(e));
        var w := map n | n in m :: Count(m[n], k);
        forall n | n in w ensures w[n] == 0 { AboveHeight(m[n], k); }
        SumZero(w);
        ObjectCount(m, k);
      case Asterisk(c) =>
        AboveHeight(c, k);
      case _ =>
    }
  }

  // ---- Additions -----------------------------------------------------------------------------

  lemma HeightOfMerge(l: Members, m: Members, b: nat)
    requires HeightEntry(Object(l)) <= b && HeightEntry(Object(m)) <= b
    ensures HeightEntry(Object(Merge(l, m))) <= b
  {
    hide HeightEntry, Height;
    HeightOfMembers(l, b);
    HeightOfMembers(m, b);
    var o := Merge(l, m);
    forall n | n in o ensures Height(o[n]) <= b {
      if n in l { HeightBound(l[n], b); }
      if n in m { HeightBound(m[n], b); }
      HeightBound(o[n], b);
    }
    HeightOfMembers(o, b);
  }

  lemma HeightOfJoin(l: Entry, r: Entry, b: nat)
    requires Joinable(l, r) && HeightEntry(l) <= b && HeightEntry(r) <= b
    ensures HeightEntry(Join(l, r)) <= b
  {
    match r {
      case Array(_, es) =>
        hide HeightEntry;
        HeightOfElements("", l.elements, b);
        HeightOfElements("", es, b);
        HeightOfElements("", l.elements + es, b);
      case Object(m) =>
        HeightOfMerge(l.members, m, b);
      case _ =>
    }
  }

  lemma {:induction false} HeightOfCollapse(ps: seq<Entry>, b: nat)
    requires forall i | 0 <= i < |ps| :: HeightEntry(ps[i]) <= b
    ensures forall i | 0 <= i < |Collapse(ps)| :: HeightEntry(Collapse(ps)[i]) <= b
  {
    hide HeightEntry, Joinable, Join;
    if ps != [] {
      var init, e := ps[..|ps| - 1], ps[|ps| - 1];
      HeightOfCollapse(init, b);
      var c := Collapse(init);
      if c != [] && Joinable(c[|c| - 1], e) {
        HeightOfJoin(c[|c| - 1], e, b);
      }
    }
  }

  lemma {:induction false} HeightOfPass(c: Concat)
    ensures Height(Pass(c)) <= Height(c)
  {
    hide HeightEntry, PassEntry, Height, Collapse;
    HeightBound(c, Height(c));
    var ps := seq(|c.parts|, i requires 0 <= i < |c.parts| => PassEntry(c.parts[i]));
    forall i | 0 <= i < |ps| ensures HeightEntry(ps[i]) <= Height(c) {
      HeightOfPassEntry(c.parts[i]);
    }
    HeightOfCollapse(ps, Height(c));
    HeightBound(Pass(c), Height(c));
  }

  lemma {:induction false} HeightOfPassEntry(e: Entry)
    ensures HeightEntry(PassEntry(e)) <= HeightEntry(e)
  {
    hide Height, Pass;
    match e {
      case Array(f, es) =>
        hide HeightEntry;
        HeightOfElements(f, es, HeightEntry(e));
        forall i | 0 <= i < |es| ensures Height(Pass(es[i])) <= HeightEntry(e) { HeightOfPass(es[i]); }
        HeightOfElements(f, PassEntry(e).elements, HeightEntry(e));
      case Object(m) =>
        hide HeightEntry;
        HeightOfMembers(m, HeightEntry(e));
        forall n | n in m ensures Height(Pass(m[n])) <= HeightEntry(e) { HeightOfPass(m[n]); }
        HeightOfMembers(PassEntry(e).members, HeightEntry(e));
      case Asterisk(c) => HeightOfPass(c);
      case _ =>
    }
  }

  /** An asterisk whose content gets simpler: its own level may fall, but never rise. */
  lemma AsteriskAdvances(c: Concat, d: Concat)
    requires Advances(c, d) && Height(d) <= Height(c)
    ensures AdvancesEntry(Asterisk(c), Asterisk(d))
  {
    hide Count, Drops, Height;
    if c != d {
      var a, b := Asterisk(c), Asterisk(d);
      if Height(c) == Height(d) {
        DropsSum(WEntry(b), WEntry(a), (k: nat) => Own(b, k), (k: nat) => Own(a, k), W(d), W(c));
        NotSame(W(d), W(c));
      } else {
        var l := Height(c) + 2;
        forall k: nat | k >= l ensures Count(c, k) == 0 && Count(d, k) == 0 {
          AboveHeight(c, k);
          AboveHeight(d, k);
        }
        forall k: nat | k >= l
          ensures WEntry(b)(k) == 0 && WEntry(a)(k) == if k == l then 1 else 0
        {
          assert Own(b, k) == 0 && Own(a, k) == if k == l then 1 else 0;
          assert CountEntry(b, k) == Own(b, k) + Count(d, k) && CountEntry(a, k) == Own(a, k) + Count(c, k);
        }
        DropsByLevel(WEntry(b), WEntry(a), l);
      }
    }
  }

  lemma DropsByLevel(f: Weight, g: Weight, k: nat)
    requires DropsAt(f, g, k)
    ensures Drops(f, g)
  {
  }

  lemma {:induction false} AdditionsAdvance(c: Concat)
    ensures Advances(c, Pass(c))
  {
    hide CountParts, PassEntry, Collapse, Drops;
    var ps := seq(|c.parts|, i requires 0 <= i < |c.parts| => PassEntry(c.parts[i]));
    forall i | 0 <= i < |ps| ensures AdvancesEntry(c.parts[i], ps[i]) {
      AdditionsAdvanceEntry(c.parts[i]);
    }
    PartsAdvance(c.parts, ps);
    if Collapse(ps) != ps {
      forall k: nat ensures CountParts(Collapse(ps), k) <= CountParts(ps, k) { CollapseCount(ps, k); }
      CollapseCount(ps, 0);
      DropsByLevel(WParts(Collapse(ps)), WParts(ps), 0);
    }
    SameWeights(c.parts, c);
    SameWeights(ps, c.(parts := ps));
    SameWeights(Collapse(ps), Pass(c));
    AdvancesTransitive(c, c.(parts := ps), Pass(c));
  }

  lemma SameWeights(ps: seq<Entry>, c: Concat)
    requires c.parts == ps
    ensures forall g: Weight :: Drops(WParts(ps), g) <==> Drops(W(c), g)
    ensures forall g: Weight :: Drops(g, WParts(ps)) <==> Drops(g, W(c))
  {
    hide CountParts;
    assert forall k: nat :: W(c)(k) == WParts(ps)(k);
    forall g: Weight ensures Drops(WParts(ps), g) <==> Drops(W(c), g)  {
      if k: nat :| DropsAt(WParts(ps), g, k) { assert DropsAt(W(c), g, k); }
      if k: nat :| DropsAt(W(c), g, k) { assert DropsAt(WParts(ps), g, k); }
    }
    forall g: Weight ensures Drops(g, WParts(ps)) <==> Drops(g, W(c))  {
      if k: nat :| DropsAt(g, WParts(ps), k) { assert DropsAt(g, W(c), k); }
      if k: nat :| DropsAt(g, W(c), k) { assert DropsAt(g, WParts(ps), k); }
    }
  }

  lemma {:induction false} AdditionsAdvanceEntry(e: Entry)
    ensures AdvancesEntry(e, PassEntry(e))
  {
    hide Pass, CountEntry, Drops;
    match e {
      case Array(f, es) =>
        forall i | 0 <= i < |es| ensures Advances(es[i], Pass(es[i])) { AdditionsAdvance(es[i]); }
        ArrayAdvances(f, es, PassEntry(e).elements);
      case Object(m) =>
        forall n | n in m ensures Advances(m[n], Pass(m[n])) { AdditionsAdvance(m[n]); }
        ObjectAdvances(m, PassEntry(e).members);
      case Asterisk(c) =>
        AdditionsAdvance(c);
        HeightOfPass(c);
        AsteriskAdvances(c, Pass(c));
      case _ =>
    }
  }
}
