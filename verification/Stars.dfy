/** What an asterisk means for the objects and arrays that it is added to. */
module Stars {
  import opened Tree
  import opened Additions
  import opened Algebra
  import opened Asterisks

  predicate AllObjects(ps: seq<Entry>) {
    forall i | 0 <= i < |ps| :: ps[i].Object?
  }

  /** The objects of a list, merged from left to right. */
  function MergeAll(ps: seq<Entry>): Members
    requires AllObjects(ps)
  {
    if ps == [] then map[] else Merge(ps[0].members, MergeAll(ps[1..]))
  }

  lemma {:induction false} MergedNames(ps: seq<Entry>)
    requires AllObjects(ps)
    ensures MergeAll(ps).Keys == NamesOf(ps)
  {
    if ps != [] { MergedNames(ps[1..]); }
  }

  lemma {:induction false} NamesOfBoth(ps: seq<Entry>, qs: seq<Entry>)
    ensures NamesOf(ps + qs) == NamesOf(ps) + NamesOf(qs)
  {
    if ps == [] {
      assert ps + qs == qs;
    } else {
      assert (ps + qs)[0] == ps[0] && (ps + qs)[1..] == ps[1..] + qs;
      NamesOfBoth(ps[1..], qs);
    }
  }

  /** Objects next to each other become one object. */
  lemma {:induction false} ObjectsCollapse(acc: Members, ps: seq<Entry>)
    requires AllObjects(ps)
    ensures PushAll([Object(acc)], ps) == [Object(Merge(acc, MergeAll(ps)))]
    decreases |ps|
  {
    hide Merge;
    if ps == [] {
      MergeUnit(acc);
    } else {
      var m := ps[0].members;
      assert Push([Object(acc)], ps[0]) == [Object(Merge(acc, m))];
      ObjectsCollapse(Merge(acc, m), ps[1..]);
      MergeAssociative(acc, m, MergeAll(ps[1..]));
    }
  }

  lemma MergedByPass(ps: seq<Entry>)
    requires AllObjects(ps)
    ensures Collapse(ps) == if ps == [] then [] else [Object(MergeAll(ps))]
  {
    hide Merge, Collapse;
    CollapseIsPushAll(ps);
    if ps != [] {
      assert Push([], ps[0]) == [Object(ps[0].members)];
      ObjectsCollapse(ps[0].members, ps[1..]);
    }
  }

  lemma {:induction false} MergeBoth(ps: seq<Entry>, qs: seq<Entry>)
    requires AllObjects(ps) && AllObjects(qs)
    ensures AllObjects(ps + qs) && MergeAll(ps + qs) == Merge(MergeAll(ps), MergeAll(qs))
  {
    hide Merge;
    if ps == [] {
      assert ps + qs == qs;
      MergeUnit(MergeAll(qs));
    } else {
      assert (ps + qs)[0] == ps[0] && (ps + qs)[1..] == ps[1..] + qs;
      MergeBoth(ps[1..], qs);
      MergeAssociative(ps[0].members, MergeAll(ps[1..]), MergeAll(qs));
    }
  }

  /** What stands under a name after everything that stood under it, where it stood under it at all. */
  function After(left: Members, n: string, c: Concat): Concat {
    if n in left then Stack(left[n], c) else c
  }

  function Then(c: Concat, right: Members, n: string): Concat {
    if n in right then Stack(c, right[n]) else c
  }

  /** The same content under every name. */
  function Everywhere(names: set<string>, s: Concat): Members {
    map n | n in names :: s
  }

  /** Each name of either side, with the asterisk's content between what the sides have there. */
  function Around(l: Members, s: Concat, r: Members): Members {
    map n | n in l.Keys + r.Keys :: Then(After(l, n, s), r, n)
  }

  lemma MergeAround(l: Members, s: Concat, r: Members)
    ensures Merge(Merge(l, Everywhere(l.Keys + r.Keys, s)), r) == Around(l, s, r)
  {
    hide Stack;
  }

  lemma ExpandedObjects(ls: seq<Entry>, s: Concat, rs: seq<Entry>)
    requires AllObjects(ls) && AllObjects(rs)
    ensures var ps := ls + [Asterisk(s)] + rs;
      ps[|ls|] == Asterisk(s) &&
      ExpandStar(ps, |ls|) == ls + (if NamesOf(ps) == {} then [] else [Object(Everywhere(NamesOf(ps), s))]) + rs
  {
    hide NamesOf, AfterStar, BeforeStar;
    var ps := ls + [Asterisk(s)] + rs;
    var qs := seq(|ps|, j requires 0 <= j < |ps| => AroundStar(ps, |ls|, j, s));
    forall j | 0 <= j < |ps| ensures qs[j] == ps[j] { }
    assert qs == ps && ps[..|ls|] == ls && ps[|ls| + 1..] == rs;
  }

  lemma NamesAround(ls: seq<Entry>, s: Concat, rs: seq<Entry>)
    requires AllObjects(ls) && AllObjects(rs)
    ensures NamesOf(ls + [Asterisk(s)] + rs) == MergeAll(ls).Keys + MergeAll(rs).Keys
  {
    NamesOfBoth(ls, [Asterisk(s)] + rs);
    NamesOfBoth([Asterisk(s)], rs);
    assert ls + ([Asterisk(s)] + rs) == ls + [Asterisk(s)] + rs && NamesOf([Asterisk(s)]) == {};
    MergedNames(ls);
    MergedNames(rs);
  }

  /**
   An asterisk among objects: after expansion and addition there is one object with the names that
   were already there and no other, and under each name there is what stood to the left of the
   asterisk, then the content of the asterisk, then what stood to the right.
   */
  lemma StarAmongObjects(ls: seq<Entry>, s: Concat, rs: seq<Entry>)
    requires AllObjects(ls) && AllObjects(rs) && ls + rs != []
    ensures (ls + [Asterisk(s)] + rs)[|ls|] == Asterisk(s)
    ensures Collapse(ExpandStar(ls + [Asterisk(s)] + rs, |ls|)) == [Object(Around(MergeAll(ls), s, MergeAll(rs)))]
  {
    hide ExpandStar, MergeAll, Collapse, Stack, Around, Everywhere, NamesOf, Merge;
    var l, r := MergeAll(ls), MergeAll(rs);
    NamesAround(ls, s, rs);
    ExpandedObjects(ls, s, rs);
    MergeBoth(ls, rs);
    MergedByPass(ls + rs);
    MergeAround(l, s, r);
    if l.Keys + r.Keys == {} {
      assert l == map[] && r == map[];
      MergeNothing(s);
      assert ls + [] + rs == ls + rs;
    } else {
      StarBetween(ls, Everywhere(l.Keys + r.Keys, s), rs);
    }
  }

  lemma MergeNothing(s: Concat)
    ensures Merge(map[], map[]) == map[] && Around(map[], s, map[]) == map[]
  {
  }

  lemma StarBetween(ls: seq<Entry>, o: Members, rs: seq<Entry>)
    requires AllObjects(ls) && AllObjects(rs)
    ensures Collapse(ls + [Object(o)] + rs) == [Object(Merge(Merge(MergeAll(ls), o), MergeAll(rs)))]
  {
    hide Merge, Collapse;
    MergeBoth(ls, [Object(o)]);
    MergeBoth(ls + [Object(o)], rs);
    MergedByPass(ls + [Object(o)] + rs);
    assert [Object(o)][1..] == [];
    MergeUnit(o);
  }

  /** The remove rules, spelled out for the summands and the flags under one name. */
  lemma StarredMember(l: Concat, s: Concat, r: Concat)
    ensures var x := Stack(Stack(l, s), r);
      && x.parts == (if r.remove then r.parts else if s.remove then s.parts + r.parts else l.parts + s.parts + r.parts)
      && x.remove == (l.remove || s.remove || r.remove)
      && x.temporary == ((!r.remove && !s.remove && l.temporary) || (!r.remove && s.temporary) || r.temporary)
      && x.implicit == r.implicit && x.generation == r.generation
  {
  }

  /** The array at `j` after the expansion of the asterisk at `i`. */
  function ArrayAfter(ps: seq<Entry>, i: nat, j: nat): Entry
    requires i < |ps| && ps[i].Asterisk? && j < |ps| && j != i
  {
    ExpandStar(ps, i)[if NamesOf(ps) == {} && j > i then j - 1 else j]
  }

  /** An object after the expansion of the asterisk on one side of it and the addition that follows. */
  function ObjectAfter(s: Concat, m: Members, left: bool): seq<Entry> {
    Collapse(if left then ExpandStar([Asterisk(s), Object(m)], 0) else ExpandStar([Object(m), Asterisk(s)], 1))
  }

  /**
   An asterisk next to arrays does to every element what it does to the member of an object that
   has the element as content, and no array changes its length.  The temporary flags agree unless
   an asterisk to the right removes a temporary element without being temporary itself.
   */
  lemma ArraysAgreeWithObjects(ps: seq<Entry>, i: nat, j: nat, k: nat, m: Members, n: string)
    requires i < |ps| && ps[i].Asterisk? && j < |ps| && ps[j].Array? && k < |ps[j].elements|
    requires n in m && m[n] == ps[j].elements[k]
    ensures var s := ps[i].star;
      var a, o := ArrayAfter(ps, i, j), ObjectAfter(s, m, j > i);
      && a.Array? && a.call == ps[j].call && |a.elements| == |ps[j].elements|
      && |o| == 1 && o[0].Object? && o[0].members.Keys == m.Keys
      && SameSummands(a.elements[k], o[0].members[n])
      && (a.elements[k].temporary == o[0].members[n].temporary <==> !(j < i && s.remove && m[n].temporary && !s.temporary))
  {
    hide Collapse, MergeAll, ExpandStar, Stack, Merge, AroundStar, NamesOf;
    var s := ps[i].star;
    ElementsExpanded(ps, i, j);
    ElementBySide(ps, i, j, k);
    AllOfOne(m);
    if j > i {
      StarAmongObjects([], s, [Object(m)]);
      assert [] + [Asterisk(s)] + [Object(m)] == [Asterisk(s), Object(m)];
    } else {
      StarAmongObjects([Object(m)], s, []);
      assert [Object(m)] + [Asterisk(s)] + [] == [Object(m), Asterisk(s)];
    }
  }

  predicate SameSummands(c: Concat, d: Concat) {
    c.parts == d.parts && c.remove == d.remove
  }

  lemma AllOfOne(m: Members)
    ensures MergeAll([]) == map[] && MergeAll([Object(m)]) == m
  {
    assert [Object(m)][1..] == [];
    MergeUnit(m);
  }

  lemma ElementsExpanded(ps: seq<Entry>, i: nat, j: nat)
    requires i < |ps| && ps[i].Asterisk? && j < |ps| && j != i && ps[j].Array?
    ensures ArrayAfter(ps, i, j) == AroundStar(ps, i, j, ps[i].star)
  {
    hide AroundStar, NamesOf;
    var s := ps[i].star;
    var qs := seq(|ps|, k requires 0 <= k < |ps| => AroundStar(ps, i, k, s));
    assert qs[j] == AroundStar(ps, i, j, s);
    if NamesOf(ps) == {} {
      assert ExpandStar(ps, i) == qs[..i] + qs[i + 1..];
    } else {
      assert ExpandStar(ps, i) == qs[i := Object(map n | n in NamesOf(ps) :: s)];
    }
  }

  lemma ElementBySide(ps: seq<Entry>, i: nat, j: nat, k: nat)
    requires i < |ps| && ps[i].Asterisk? && j < |ps| && j != i && ps[j].Array? && k < |ps[j].elements|
    ensures var a, s, c := AroundStar(ps, i, j, ps[i].star), ps[i].star, ps[j].elements[k];
      && a.Array? && a.call == ps[j].call && |a.elements| == |ps[j].elements|
      && (j > i ==> a.elements[k] == Stack(s, c))
      && (j < i ==> SameSummands(a.elements[k], Stack(c, s)))
      && (j < i ==> (a.elements[k].temporary == Stack(c, s).temporary <==> !(s.remove && c.temporary && !s.temporary)))
  {
  }
}
