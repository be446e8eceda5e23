/**
 The size of a tree, counted level by level: level 0 counts all entries, level 1 counts the
 references and function calls, level `h + 2` the asterisks that have `h` asterisks nested below.
 */
module Measure {
  import opened Tree
  import opened Sums
  import opened Additions

  /** How deep asterisks are nested within asterisks. */
  ghost function Height(c: Concat): nat {
    MaxSeq(seq(|c.parts|, i requires 0 <= i < |c.parts| => HeightEntry(c.parts[i])))
  }

  ghost function HeightEntry(e: Entry): nat {
    match e
    case Array(_, es) => MaxSeq(seq(|es|, i requires 0 <= i < |es| => Height(es[i])))
    case Object(m) => MaxMap(map n | n in m :: Height(m[n]))
    case Asterisk(c) => 1 + Height(c)
    case _ => 0
  }

  ghost function Own(e: Entry, k: nat): nat {
    if k == 0 then 1
    else if k == 1 then if e.Reference? || IsFunction(e) then 1 else 0
    else if e.Asterisk? && k == Height(e.star) + 2 then 1 else 0
  }

  ghost function Count(c: Concat, k: nat): nat {
    CountParts(c.parts, k)
  }

  ghost function CountParts(ps: seq<Entry>, k: nat): nat {
    Total(seq(|ps|, i requires 0 <= i < |ps| => CountEntry(ps[i], k)))
  }

  ghost function CountEntry(e: Entry, k: nat): nat {
    match e
    case Array(_, es) => Own(e, k) + CountElements(es, k)
    case Object(m) => Own(e, k) + Sum(map n | n in m :: Count(m[n], k))
    case Asterisk(c) => Own(e, k) + Count(c, k)
    case _ => Own(e, k)
  }

  ghost function CountElements(es: seq<Concat>, k: nat): nat {
    Total(seq(|es|, i requires 0 <= i < |es| => Count(es[i], k)))
  }

  ghost function CountMembers(m: Members, k: nat): nat {
    Sum(map n | n in m :: Count(m[n], k))
  }

  lemma PartsSplit(ps: seq<Entry>, qs: seq<Entry>, k: nat)
    ensures CountParts(ps + qs, k) == CountParts(ps, k) + CountParts(qs, k)
  {
    hide CountEntry;
    var a := seq(|ps|, i requires 0 <= i < |ps| => CountEntry(ps[i], k));
    var b := seq(|qs|, i requires 0 <= i < |qs| => CountEntry(qs[i], k));
    assert seq(|ps + qs|, i requires 0 <= i < |ps + qs| => CountEntry((ps + qs)[i], k)) == a + b;
    TotalSplit(a, b);
  }

  lemma PartsSingle(e: Entry, k: nat)
    ensures CountParts([e], k) == CountEntry(e, k)
  {
    hide CountEntry;
    var w := seq(|[e]|, i requires 0 <= i < |[e]| => CountEntry([e][i], k));
    assert w == [CountEntry(e, k)];
    assert Total(w) == w[0] + Total(w[1..]) && w[1..] == [];
  }

  lemma ElementsSplit(ps: seq<Concat>, qs: seq<Concat>, k: nat)
    ensures CountElements(ps + qs, k) == CountElements(ps, k) + CountElements(qs, k)
  {
    hide Count;
    var a := seq(|ps|, i requires 0 <= i < |ps| => Count(ps[i], k));
    var b := seq(|qs|, i requires 0 <= i < |qs| => Count(qs[i], k));
    assert seq(|ps + qs|, i requires 0 <= i < |ps + qs| => Count((ps + qs)[i], k)) == a + b;
    TotalSplit(a, b);
  }

  lemma ObjectCount(m: Members, k: nat)
    ensures CountEntry(Object(m), k) == (if k == 0 then 1 else 0) + CountMembers(m, k)
  {
  }

  lemma StackCount(x: Concat, y: Concat, k: nat)
    ensures Count(Stack(x, y), k) <= Count(x, k) + Count(y, k)
  {
    hide CountParts;
    PartsSplit(x.parts, y.parts, k);
  }

  lemma MergeCount(l: Members, r: Members, k: nat)
    ensures CountMembers(Merge(l, r), k) <= CountMembers(l, k) + CountMembers(r, k)
  {
    hide Count, CountEntry, Stack;
    var m := Merge(l, r);
    var a, b, c := map n | n in l :: Count(l[n], k), map n | n in r :: Count(r[n], k), map n | n in m :: Count(m[n], k);
    forall n | n in c
      ensures c[n] <= (if n in a then a[n] else 0) + (if n in b then b[n] else 0)
    {
      if n in l && n in r { StackCount(l[n], r[n], k); }
    }
    SumUnion(a, b, c);
  }

  lemma JoinCount(l: Entry, r: Entry, k: nat)
    requires Joinable(l, r)
    ensures CountEntry(Join(l, r), k) <= CountEntry(l, k) + CountEntry(r, k)
    ensures k == 0 ==> CountEntry(Join(l, r), k) < CountEntry(l, k) + CountEntry(r, k)
  {
    match r {
      case Array(_, es) =>
        hide Count, CountElements;
        ElementsSplit(l.elements, es, k);
      case Object(m) =>
        hide Count, CountEntry, CountMembers;
        ObjectCount(Merge(l.members, m), k);
        ObjectCount(l.members, k);
        ObjectCount(m, k);
        MergeCount(l.members, m, k);
      case _ =>
    }
  }

  lemma PushCount(ps: seq<Entry>, e: Entry, k: nat)
    ensures CountParts(Push(ps, e), k) <= CountParts(ps, k) + CountEntry(e, k)
    ensures k == 0 && |Push(ps, e)| <= |ps| ==> CountParts(Push(ps, e), k) < CountParts(ps, k) + CountEntry(e, k)
  {
    hide CountEntry, CountParts, Joinable;
    PartsSingle(e, k);
    PartsSplit(ps, [e], k);
    if ps != [] && Joinable(ps[|ps| - 1], e) {
      var l, init := ps[|ps| - 1], ps[..|ps| - 1];
      JoinCount(l, e, k);
      PartsSplit(init, [l], k);
      PartsSingle(l, k);
      PartsSplit(init, [Join(l, e)], k);
      PartsSingle(Join(l, e), k);
      assert ps == init + [l];
    }
  }

  lemma {:induction false} CollapseCount(ps: seq<Entry>, k: nat)
    ensures CountParts(Collapse(ps), k) <= CountParts(ps, k)
    ensures k == 0 && Collapse(ps) != ps ==> CountParts(Collapse(ps), k) < CountParts(ps, k)
  {
    hide CountParts, CountEntry, Push;
    if ps != [] {
      var init, e := ps[..|ps| - 1], ps[|ps| - 1];
      CollapseCount(init, k);
      PushCount(Collapse(init), e, k);
      PartsSplit(init, [e], k);
      PartsSingle(e, k);
      assert ps == init + [e];
    }
  }

  // ---- Children ------------------------------------------------------------------------------

  lemma PartWithin(ps: seq<Entry>, i: nat, k: nat)
    requires i < |ps|
    ensures CountEntry(ps[i], k) <= CountParts(ps, k)
  {
    hide CountEntry, CountParts;
    assert ps == ps[..i] + ([ps[i]] + ps[i + 1..]);
    PartsSplit(ps[..i], [ps[i]] + ps[i + 1..], k);
    PartsSplit([ps[i]], ps[i + 1..], k);
    PartsSingle(ps[i], k);
  }

  lemma ElementWithin(f: string, es: seq<Concat>, i: nat, k: nat)
    requires i < |es|
    ensures Count(es[i], k) <= CountEntry(Array(f, es), k)
    ensures k == 0 ==> Count(es[i], k) < CountEntry(Array(f, es), k)
  {
    hide Count;
    assert es == es[..i] + ([es[i]] + es[i + 1..]);
    ElementsSplit(es[..i], [es[i]] + es[i + 1..], k);
    ElementsSplit([es[i]], es[i + 1..], k);
    var w := seq(|[es[i]]|, j requires 0 <= j < |[es[i]]| => Count([es[i]][j], k));
    assert w == [Count(es[i], k)] && Total(w) == w[0] + Total(w[1..]);
  }

  lemma MemberWithin(m: Members, n: string, k: nat)
    requires n in m
    ensures Count(m[n], k) <= CountEntry(Object(m), k)
    ensures k == 0 ==> Count(m[n], k) < CountEntry(Object(m), k)
  {
    hide Count;
    ObjectCount(m, k);
    SumRemove(map x | x in m :: Count(m[x], k), n);
  }
}
