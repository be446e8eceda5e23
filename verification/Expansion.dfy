/** The asterisks pass, in place, and why it makes progress although it duplicates subtrees. */
module Expansion {
  import opened Tree
  import opened Sums
  import opened Measure
  import opened Descent
  import opened Progress
  import opened Asterisks

  lemma JoinedCount(c: Concat, s: Concat, k: nat)
    requires Count(s, k) == 0
    ensures Count(AfterStar(c, s), k) <= Count(c, k)
    ensures Count(BeforeStar(s, c), k) <= Count(c, k)
  {
    hide CountParts;
    PartsSplit(if s.remove then [] else c.parts, s.parts, k);
    PartsSplit(s.parts, c.parts, k);
    assert CountParts([], k) == 0 by { NoParts(k); }
  }

  lemma NoParts(k: nat)
    ensures CountParts([], k) == 0
  {
  }

  lemma AroundStarCount(ps: seq<Entry>, i: nat, j: nat, s: Concat, k: nat)
    requires j < |ps| && Count(s, k) == 0
    ensures CountEntry(AroundStar(ps, i, j, s), k) <= CountEntry(ps[j], k)
  {
    if ps[j].Array? {
      hide Count;
      var es, fs := ps[j].elements, AroundStar(ps, i, j, s).elements;
      var v := seq(|es|, x requires 0 <= x < |es| => Count(es[x], k));
      var w := seq(|fs|, x requires 0 <= x < |fs| => Count(fs[x], k));
      forall x | 0 <= x < |es| ensures w[x] <= v[x] { JoinedCount(es[x], s, k); }
      TotalMono(w, v);
    }
  }

  /** The copies of an asterisk's content weigh nothing at the asterisk's own level. */
  lemma CopiesCount(names: set<string>, s: Concat, k: nat)
    requires Count(s, k) == 0 && k > 0
    ensures CountEntry(Object(map n | n in names :: s), k) == 0
  {
    hide Count, CountEntry;
    var m: Members := map n | n in names :: s;
    ObjectCount(m, k);
    SumZero(map n | n in m :: Count(m[n], k));
  }

  lemma ReplaceCount(ps: seq<Entry>, i: nat, e: Entry, k: nat)
    requires i < |ps|
    ensures CountParts(ps[i := e], k) + CountEntry(ps[i], k) == CountParts(ps, k) + CountEntry(e, k)
    ensures CountParts(ps[..i] + ps[i + 1..], k) + CountEntry(ps[i], k) == CountParts(ps, k)
  {
    hide CountEntry, CountParts;
    var a, b := ps[..i], ps[i + 1..];
    assert ps == a + ([ps[i]] + b) && ps[i := e] == a + ([e] + b);
    PartsSplit(a, [ps[i]] + b, k);
    PartsSplit([ps[i]], b, k);
    PartsSplit(a, [e] + b, k);
    PartsSplit([e], b, k);
    PartsSplit(a, b, k);
    PartsSingle(ps[i], k);
    PartsSingle(e, k);
  }

  lemma StarCount(ps: seq<Entry>, i: nat, k: nat)
    requires i < |ps| && ps[i].Asterisk? && k >= Height(ps[i].star) + 2
    ensures CountParts(ExpandStar(ps, i), k) <= CountParts(ps, k)
    ensures k == Height(ps[i].star) + 2 ==> CountParts(ExpandStar(ps, i), k) < CountParts(ps, k)
  {
    hide CountEntry, CountParts, Height, AroundStar;
    var s, names := ps[i].star, NamesOf(ps);
    AboveHeight(s, k);
    var qs := seq(|ps|, j requires 0 <= j < |ps| => AroundStar(ps, i, j, s));
    assert qs[i] == ps[i] by { StarStays(ps, i); }
    AroundCount(ps, i, qs, s, k);
    CopiesCount(names, s, k);
    ReplaceCount(qs, i, Object(map n | n in names :: s), k);
    OwnLevel(s, k);
  }

  lemma StarStays(ps: seq<Entry>, i: nat)
    requires i < |ps| && ps[i].Asterisk?
    ensures AroundStar(ps, i, i, ps[i].star) == ps[i]
  {
  }

  lemma OwnLevel(s: Concat, k: nat)
    requires k >= Height(s) + 2
    ensures CountEntry(Asterisk(s), k) == if k == Height(s) + 2 then 1 else 0
  {
    AboveHeight(s, k);
  }

  lemma AroundCount(ps: seq<Entry>, i: nat, qs: seq<Entry>, s: Concat, k: nat)
    requires |qs| == |ps| && forall j | 0 <= j < |ps| :: qs[j] == AroundStar(ps, i, j, s)
    requires Count(s, k) == 0
    ensures CountParts(qs, k) <= CountParts(ps, k)
  {
    hide CountEntry, AroundStar;
    var v := seq(|ps|, x requires 0 <= x < |ps| => CountEntry(ps[x], k));
    var w := seq(|qs|, x requires 0 <= x < |qs| => CountEntry(qs[x], k));
    forall x | 0 <= x < |ps| ensures w[x] <= v[x] { AroundStarCount(ps, i, x, s, k); }
    TotalMono(w, v);
  }

  /** An asterisk is traded for any number of copies of lower asterisks. */
  lemma StarDescends(ps: seq<Entry>, i: nat)
    requires i < |ps| && ps[i].Asterisk?
    ensures Drops(WParts(ExpandStar(ps, i)), WParts(ps))
  {
    hide CountParts, Height, ExpandStar;
    var l := Height(ps[i].star) + 2;
    forall k: nat | k >= l ensures CountParts(ExpandStar(ps, i), k) <= CountParts(ps, k) { StarCount(ps, i, k); }
    StarCount(ps, i, l);
    DropsByLevel(WParts(ExpandStar(ps, i)), WParts(ps), l);
  }

  // ---- The pass as a function ----------------------------------------------------------------

  lemma {:induction false} ExpandFromAdvances(ps: seq<Entry>, i: nat)
    requires i <= |ps| && ExpandFrom(ps, i).Ok?
    ensures ExpandFrom(ps, i).value == ps || Drops(WParts(ExpandFrom(ps, i).value), WParts(ps))
    decreases DepthParts(ps), 1, |ps| - i
  {
    hide CountParts, Drops, ExpandStar, DepthEntry, DepthParts, ExpandBelow;
    if i < |ps| {
      if ps[i].Asterisk? {
        var qs := ExpandStar(ps, i);
        DepthExpandStar(ps, i);
        ExpandFromAdvances(qs, if NamesOf(ps) == {} then i else i + 1);
        StarDescends(ps, i);
        var rs := ExpandFrom(ps, i).value;
        if rs != qs { DropsTransitive(WParts(rs), WParts(qs), WParts(ps)); NotSame(WParts(rs), WParts(qs)); }
      } else if |ps| == 1 {
        DepthBound(ps, DepthParts(ps));
        ExpandBelowAdvances(ps[0]);
        PartsAdvance(ps, [ExpandBelow(ps[0]).value]);
      } else {
        ExpandFromAdvances(ps, i + 1);
      }
    }
  }

  lemma {:induction false} ExpandBelowAdvances(e: Entry)
    requires ExpandBelow(e).Ok?
    ensures AdvancesEntry(e, ExpandBelow(e).value)
    decreases DepthEntry(e), 0, 0
  {
    hide CountEntry, Drops, Expand;
    match e {
      case Array(f, es) =>
        DepthOfElements(f, es, DepthEntry(e) - 1);
        forall i | 0 <= i < |es| ensures Advances(es[i], Expand(es[i]).value) { ExpandAdvances(es[i]); }
        ArrayAdvances(f, es, ExpandBelow(e).value.elements);
      case Object(m) =>
        DepthOfMembers(m, DepthEntry(e) - 1);
        forall n | n in m ensures Advances(m[n], Expand(m[n]).value) { ExpandAdvances(m[n]); }
        ObjectAdvances(m, ExpandBelow(e).value.members);
      case _ =>
    }
  }

  lemma {:induction false} ExpandAdvances(c: Concat)
    requires Expand(c).Ok?
    ensures Advances(c, Expand(c).value)
    decreases Depth(c), 2, 0
  {
    hide CountParts, Drops, ExpandFrom;
    ExpandFromAdvances(c.parts, 0);
    SameWeights(c.parts, c);
    SameWeights(Expand(c).value.parts, Expand(c).value);
  }

  // ---- The pass in place ---------------------------------------------------------------------

  lemma {:induction false} NamesOfAppend(ps: seq<Entry>, qs: seq<Entry>)
    ensures NamesOf(ps + qs) == NamesOf(ps) + NamesOf(qs)
  {
    if ps == [] {
      assert ps + qs == qs;
    } else {
      assert (ps + qs)[1..] == ps[1..] + qs;
      NamesOfAppend(ps[1..], qs);
    }
  }

  lemma NamesOfNext(ps: seq<Entry>, j: nat)
    requires j < |ps|
    ensures NamesOf(ps[..j + 1]) == NamesOf(ps[..j]) + (if ps[j].Object? then ps[j].members.Keys else {})
  {
    assert ps[..j + 1] == ps[..j] + [ps[j]];
    NamesOfAppend(ps[..j], [ps[j]]);
    assert [ps[j]][1..] == [] && NamesOf([]) == {};
  }

  /** The tree has made progress exactly when changes were counted. */
  ghost predicate Counted(before: nat, after: nat, ps: seq<Entry>, qs: seq<Entry>) {
    after >= before && if after == before then qs == ps else Drops(WParts(qs), WParts(ps))
  }

  lemma CountedChain(a: nat, b: nat, c: nat, ps: seq<Entry>, qs: seq<Entry>, rs: seq<Entry>)
    requires Counted(a, b, ps, qs) && Counted(b, c, qs, rs)
    ensures Counted(a, c, ps, rs)
  {
    hide CountParts, Drops;
    if a < b < c {
      DropsTransitive(WParts(rs), WParts(qs), WParts(ps));
      NotSame(WParts(rs), WParts(qs));
    }
  }

  lemma CountedIsChange(a: nat, b: nat, ps: seq<Entry>, qs: seq<Entry>)
    requires Counted(a, b, ps, qs)
    ensures a == b <==> ps == qs
  {
    hide CountParts;
    NotSame(WParts(qs), WParts(ps));
  }

  /** One turn of the loop, as an equation. */
  lemma ExpandFromStep(ps: seq<Entry>, i: nat)
    requires i <= |ps|
    ensures i == |ps| ==> ExpandFrom(ps, i) == Ok(ps)
    ensures i < |ps| && ps[i].Asterisk? && HasFunction(ps) ==> ExpandFrom(ps, i) == Err(AsteriskInFunction)
    ensures i < |ps| && ps[i].Asterisk? && !HasFunction(ps) ==>
      ExpandFrom(ps, i) == ExpandFrom(ExpandStar(ps, i), if NamesOf(ps) == {} then i else i + 1)
    ensures i < |ps| && !ps[i].Asterisk? && |ps| > 1 ==> ExpandFrom(ps, i) == ExpandFrom(ps, i + 1)
    ensures i < |ps| && !ps[i].Asterisk? && |ps| == 1 ==>
      ExpandFrom(ps, i) == if ExpandBelow(ps[0]).Ok? then Ok([ExpandBelow(ps[0]).value]) else Err(ExpandBelow(ps[0]).error)
  {
    hide ExpandStar, ExpandBelow, DepthEntry;
  }

  lemma ExpandArray(f: string, es: seq<Concat>)
    ensures forall i | 0 <= i < |es| :: Depth(es[i]) < DepthEntry(Array(f, es))
    ensures ExpandBelow(Array(f, es)).Ok? <==> forall i | 0 <= i < |es| :: Expand(es[i]).Ok?
    ensures ExpandBelow(Array(f, es)).Err? ==> ExpandBelow(Array(f, es)).error == AsteriskInFunction
    ensures ExpandBelow(Array(f, es)).Ok? ==>
      && ExpandBelow(Array(f, es)).value.Array?
      && ExpandBelow(Array(f, es)).value.call == f
      && |ExpandBelow(Array(f, es)).value.elements| == |es|
      && forall i | 0 <= i < |es| :: ExpandBelow(Array(f, es)).value.elements[i] == Expand(es[i]).value
  {
    hide Expand;
    DepthOfElements(f, es, DepthEntry(Array(f, es)) - 1);
  }

  lemma ExpandObject(m: Members)
    ensures forall n | n in m :: Depth(m[n]) < DepthEntry(Object(m))
    ensures ExpandBelow(Object(m)).Ok? <==> forall n | n in m :: Expand(m[n]).Ok?
    ensures ExpandBelow(Object(m)).Err? ==> ExpandBelow(Object(m)).error == AsteriskInFunction
    ensures ExpandBelow(Object(m)).Ok? ==>
      && ExpandBelow(Object(m)).value.Object?
      && ExpandBelow(Object(m)).value.members.Keys == m.Keys
      && forall n | n in m :: ExpandBelow(Object(m)).value.members[n] == Expand(m[n]).value
  {
    hide Expand;
    DepthOfMembers(m, DepthEntry(Object(m)) - 1);
  }

  class Phase2Asterisks {
    var root: Members
    var changes: nat

    constructor (o: Members)
      ensures root == o && changes == 0
    {
      root, changes := o, 0;
    }

    method Process() returns (r: Result<nat>)
      requires changes == 0
      modifies this
      ensures ExpandBelow(Object(old(root))) == if r.Ok? then Ok(Object(root)) else Err(r.error)
      ensures r.Ok? ==> r.value == changes && (changes == 0 <==> root == old(root))
    {
      var d := ProcessMembers(root);
      if d.Err? { return Err(d.error); }
      root := d.value;
      r := Ok(changes);
    }

    method ProcessConcat(c: Concat) returns (r: Result<Concat>)
      modifies this`changes
      ensures r == Expand(c)
      ensures changes >= old(changes)
      ensures r.Ok? ==> (changes == old(changes) <==> r.value == c)
      decreases Depth(c), 2
    {
      hide ExpandStar, ExpandFrom, ExpandBelow, Drops, WParts, CountParts, DepthParts, DepthEntry, HasFunction, NamesOf;
      var ps, i: nat := c.parts, 0;
      assert DepthParts(ps) <= Depth(c) by { DepthOfParts(c); }
      assert Counted(old(changes), changes, c.parts, ps);
      while i < |ps|
        invariant i <= |ps|
        invariant ExpandFrom(c.parts, 0) == ExpandFrom(ps, i)
        invariant i < |ps| ==> DepthParts(ps) <= Depth(c)
        invariant Counted(old(changes), changes, c.parts, ps)
        decreases |ps| - i
      {
        ExpandFromStep(ps, i);
        ghost var before, count := ps, changes;
        if ps[i].Asterisk? {
          StarDescends(ps, i);
          DepthExpandStar(ps, i);
          var d := ProcessAsterisk(ps, i);
          if d.Err? { return Err(d.error); }
          ps, i := d.value.0, d.value.1;
        } else if |ps| == 1 {
          DepthBound(ps, DepthParts(ps));
          var e := ProcessEntry(ps[0]);
          if e.Err? { return Err(e.error); }
          ExpandBelowAdvances(ps[0]);
          PartsAdvance(ps, [e.value]);
          ps, i := [e.value], 1;
          ExpandFromStep(ps, 1);
        } else {
          i := i + 1;
        }
        CountedChain(old(changes), count, changes, c.parts, before, ps);
      }
      ExpandFromStep(ps, i);
      CountedIsChange(old(changes), changes, c.parts, ps);
      r := Ok(c.(parts := ps));
    }

    method ProcessEntry(e: Entry) returns (r: Result<Entry>)
      modifies this`changes
      ensures r == ExpandBelow(e)
      ensures changes >= old(changes)
      ensures r.Ok? ==> (changes == old(changes) <==> r.value == e)
      decreases DepthEntry(e), 1
    {
      match e {
        case Array(f, es) =>
          var d := ProcessElements(f, es);
          if d.Err? { return Err(d.error); }
          r := Ok(Array(f, d.value));
        case Object(m) =>
          var d := ProcessMembers(m);
          if d.Err? { return Err(d.error); }
          r := Ok(Object(d.value));
        case _ =>
          r := Ok(e);
      }
    }

    method ProcessElements(f: string, es: seq<Concat>) returns (r: Result<seq<Concat>>)
      modifies this`changes
      ensures ExpandBelow(Array(f, es)) == if r.Ok? then Ok(Array(f, r.value)) else Err(r.error)
      ensures changes >= old(changes)
      ensures r.Ok? ==> (changes == old(changes) <==> r.value == es)
      decreases DepthEntry(Array(f, es)), 0
    {
      ExpandArray(f, es);
      hide Expand, DepthEntry, ExpandBelow;
      var xs := es;
      for k := 0 to |es|
        invariant |xs| == |es|
        invariant forall j | 0 <= j < k :: Expand(es[j]) == Ok(xs[j])
        invariant forall j | k <= j < |es| :: xs[j] == es[j]
        invariant changes >= old(changes) && (changes == old(changes) <==> xs == es)
      {
        var d := ProcessConcat(xs[k]);
        if d.Err? { return Err(AsteriskInFunction); }
        xs := xs[k := d.value];
      }
      assert xs == ExpandBelow(Array(f, es)).value.elements;
      r := Ok(xs);
    }

    method ProcessMembers(m: Members) returns (r: Result<Members>)
      modifies this`changes
      ensures ExpandBelow(Object(m)) == if r.Ok? then Ok(Object(r.value)) else Err(r.error)
      ensures changes >= old(changes)
      ensures r.Ok? ==> (changes == old(changes) <==> r.value == m)
      decreases DepthEntry(Object(m)), 0
    {
      ExpandObject(m);
      hide Expand, DepthEntry, ExpandBelow;
      var todo, o := m.Keys, m;
      while todo != {}
        invariant todo <= m.Keys && o.Keys == m.Keys
        invariant forall n | n in todo :: o[n] == m[n]
        invariant forall n | n in m && n !in todo :: Expand(m[n]) == Ok(o[n])
        invariant changes >= old(changes) && (changes == old(changes) <==> o == m)
      {
        var n :| n in todo;
        var d := ProcessConcat(o[n]);
        if d.Err? { return Err(AsteriskInFunction); }
        assert o[n := d.value] == m <==> o == m && d.value == m[n];
        o, todo := o[n := d.value], todo - {n};
      }
      assert o == ExpandBelow(Object(m)).value.members;
      r := Ok(o);
    }

    /** Expands the asterisk at `i`; also returns where the loop continues. */
    method ProcessAsterisk(ps: seq<Entry>, i: nat) returns (r: Result<(seq<Entry>, nat)>)
      requires i < |ps| && ps[i].Asterisk?
      modifies this`changes
      ensures HasFunction(ps) ==> r == Err(AsteriskInFunction)
      ensures !HasFunction(ps) ==> r == Ok((ExpandStar(ps, i), if NamesOf(ps) == {} then i else i + 1))
      ensures changes == old(changes) + if r.Ok? then 1 else 0
    {
      hide NamesOf;
      var star, names, qs := ps[i].star, {}, ps;
      assert NamesOf(ps[..0]) == {} by { NamesOfNothing(ps[..0]); }
      for j := 0 to |ps|
        invariant |qs| == |ps| && names == NamesOf(ps[..j]) && changes == old(changes)
        invariant forall k | 0 <= k < j :: !IsFunction(ps[k]) && qs[k] == AroundStar(ps, i, k, star)
        invariant forall k | j <= k < |ps| :: qs[k] == ps[k]
      {
        NamesOfNext(ps, j);
        match qs[j] {
          case Array(f, es) =>
            if f != "" { return Err(AsteriskInFunction); }
            if j < i {
              var xs := ProcessArrayAndAsterisk(es, star);
              qs := qs[j := Array(f, xs)];
            } else {
              var xs := ProcessAsteriskAndArray(star, es);
              qs := qs[j := Array(f, xs)];
            }
          case Object(m) =>
            names := names + m.Keys;
          case _ =>
        }
      }
      assert ps[..|ps|] == ps;
      assert qs == seq(|ps|, j requires 0 <= j < |ps| => AroundStar(ps, i, j, star));
      changes := changes + 1;
      if names == {} {
        return Ok((qs[..i] + qs[i + 1..], i));
      }
      var todo, o := names, map[];
      while todo != {}
        invariant todo <= names && o == map n | n in names - todo :: star
      {
        var n :| n in todo;
        o, todo := o[n := star], todo - {n};
      }
      assert names - todo == names;
      r := Ok((qs[i := Object(o)], i + 1));
    }

    static method ProcessAsteriskAndArray(s: Concat, es: seq<Concat>) returns (xs: seq<Concat>)
      ensures xs == seq(|es|, k requires 0 <= k < |es| => BeforeStar(s, es[k]))
    {
      xs := es;
      for k := 0 to |es|
        invariant |xs| == |es|
        invariant forall j | 0 <= j < |es| :: xs[j] == if j < k then BeforeStar(s, es[j]) else es[j]
      {
        var c := xs[k];
        if c.remove { continue; }
        c := c.(remove := s.remove);
        c := c.(temporary := c.temporary || s.temporary);
        xs := xs[k := c.(parts := s.parts + c.parts)];
      }
    }

    static method ProcessArrayAndAsterisk(es: seq<Concat>, s: Concat) returns (xs: seq<Concat>)
      ensures xs == seq(|es|, k requires 0 <= k < |es| => AfterStar(es[k], s))
    {
      xs := es;
      for k := 0 to |es|
        invariant |xs| == |es|
        invariant forall j | 0 <= j < |es| :: xs[j] == if j < k then AfterStar(es[j], s) else es[j]
      {
        var c := xs[k];
        if s.remove {
          c := c.(remove := true);
          c := c.(parts := []);
        }
        c := c.(temporary := c.temporary || s.temporary);
        xs := xs[k := c.(parts := c.parts + s.parts)];
      }
    }
  }

  lemma NamesOfNothing(ps: seq<Entry>)
    requires ps == []
    ensures NamesOf(ps) == {}
  {
  }

  lemma DepthOfParts(c: Concat)
    ensures Depth(c) == DepthParts(c.parts)
  {
  }
}
