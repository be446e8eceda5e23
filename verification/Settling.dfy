/**
 What a tree comes to once its references are known.  References are filled in along with the
 additions that make them reachable, so the result is the same before and after any addition, and
 before and after a reference is overwritten with what it stands for.
 */
module Settling {
  import opened Tree
  import opened Additions
  import opened Measure
  import opened NormalForm
  import opened References
  import opened Copying
  import Calls
  import Phase5

  datatype Filling = Open | Filled(entry: Entry)

  /** What the references at each key stand for. */
  type Environment = (Key, seq<RefPart>) -> Filling

  function FillEntry(env: Environment, p: Key, e: Entry): Entry {
    if e.Reference? && env(p, e.target).Filled? && PrimitiveEntry(env(p, e.target).entry)
    then env(p, e.target).entry else e
  }

  function Fill(env: Environment, p: Key, ps: seq<Entry>): seq<Entry> {
    seq(|ps|, i requires 0 <= i < |ps| => FillEntry(env, p, ps[i]))
  }

  lemma FillEntryCount(env: Environment, p: Key, e: Entry)
    ensures CountEntry(FillEntry(env, p, e), 1) <= CountEntry(e, 1)
    ensures FillEntry(env, p, e) != e ==> CountEntry(FillEntry(env, p, e), 1) < CountEntry(e, 1)
  {
    if e.Reference? && FillEntry(env, p, e) != e {
      Calls.PrimitiveEntryCount(env(p, e.target).entry, 1);
      ReferenceCount(e, 1);
    }
  }

  /** Filling a reference is progress. */
  lemma {:induction false} FillCount(env: Environment, p: Key, ps: seq<Entry>)
    ensures CountParts(Fill(env, p, ps), 1) <= CountParts(ps, 1)
    ensures Fill(env, p, ps) != ps ==> CountParts(Fill(env, p, ps), 1) < CountParts(ps, 1)
    decreases |ps|
  {
    hide CountParts, CountEntry, FillEntry;
    if ps != [] {
      var init, e := ps[..|ps| - 1], ps[|ps| - 1];
      FillCount(env, p, init);
      FillEntryCount(env, p, e);
      PartsSplit(init, [e], 1);
      PartsSingle(e, 1);
      PartsSplit(Fill(env, p, init), [FillEntry(env, p, e)], 1);
      PartsSingle(FillEntry(env, p, e), 1);
      assert ps == init + [e] && Fill(env, p, ps) == Fill(env, p, init) + [FillEntry(env, p, e)];
    } else {
      assert Fill(env, p, ps) == ps;
    }
  }

  /** The subtree at the key `p` with all reachable references filled in and added up. */
  ghost function Settle(env: Environment, p: Key, c: Concat): Concat
    decreases Count(c, 1), Count(c, 0), 2
  {
    FillCount(env, p, c.parts);
    c.(parts := SettleParts(env, p, Fill(env, p, c.parts)))
  }

  /** Only what is left alone in its concat can be reached, so nothing else is looked into. */
  ghost function SettleParts(env: Environment, p: Key, ps: seq<Entry>): seq<Entry>
    decreases CountParts(ps, 1), CountParts(ps, 0), 1
  {
    var q := Collapse(ps);
    CollapseCount(ps, 0);
    CollapseCount(ps, 1);
    if |q| == 1 then
      PartWithin(q, 0, 0);
      PartWithin(q, 0, 1);
      [SettleEntry(env, p, q[0])]
    else NormalParts(ps)
  }

  ghost function SettleEntry(env: Environment, p: Key, e: Entry): Entry
    decreases CountEntry(e, 1), CountEntry(e, 0), 0
  {
    match e
    case Array(f, es) =>
      Array(f, seq(|es|, i requires 0 <= i < |es| =>
        ElementWithin(f, es, i, 0); ElementWithin(f, es, i, 1); Settle(env, p + [Index(i)], es[i])))
    case Object(m) =>
      Object(map n | n in m :: MemberWithin(m, n, 0); MemberWithin(m, n, 1); Settle(env, p + [Name(n)], m[n]))
    case _ => NormalEntry(e)
  }

  // ---- Additions do not matter ---------------------------------------------------------------

  lemma FillAlike(env: Environment, p: Key, ps: seq<Entry>, qs: seq<Entry>)
    requires Alike(ps, qs)
    ensures Alike(Fill(env, p, ps), Fill(env, p, qs))
  {
    hide NormalEntry;
    forall i | 0 <= i < |ps| ensures NormalEntry(FillEntry(env, p, ps[i])) == NormalEntry(FillEntry(env, p, qs[i])) {
      assert NormalEntry(ps[i]) == NormalEntry(qs[i]);
      SameReference(ps[i], qs[i]);
    }
  }

  lemma SameReference(e: Entry, f: Entry)
    requires NormalEntry(e) == NormalEntry(f)
    ensures e.Reference? == f.Reference? && (e.Reference? ==> e == f)
  {
    SameKind(e, f);
    if e.Reference? || f.Reference? { AtomNormal(e, f); AtomNormal(f, e); }
  }

  /** Filling in before or after an addition is the same. */
  lemma {:induction false} FillCollapse(env: Environment, p: Key, ps: seq<Entry>)
    ensures NormalParts(Fill(env, p, Collapse(ps))) == NormalParts(Fill(env, p, ps))
    decreases |ps|
  {
    hide NormalParts, FillEntry, Fill, Push;
    if ps != [] {
      var init, e := ps[..|ps| - 1], ps[|ps| - 1];
      var c, f := Collapse(init), FillEntry(env, p, e);
      FillCollapse(env, p, init);
      FillPush(env, p, c, e);
      NormalCongruence(Fill(env, p, c), [f], Fill(env, p, init), [f]);
      FillLast(env, p, init, e);
      assert ps == init + [e];
    }
  }

  lemma FillLast(env: Environment, p: Key, init: seq<Entry>, e: Entry)
    ensures Fill(env, p, init + [e]) == Fill(env, p, init) + [FillEntry(env, p, e)]
  {
    hide FillEntry;
  }

  lemma FillPush(env: Environment, p: Key, c: seq<Entry>, e: Entry)
    ensures NormalParts(Fill(env, p, Push(c, e))) == NormalParts(Fill(env, p, c) + [FillEntry(env, p, e)])
  {
    hide NormalParts, FillEntry, Joinable, Join;
    var fs := Fill(env, p, c);
    if c != [] && Joinable(c[|c| - 1], e) {
      var l, init := c[|c| - 1], c[..|c| - 1];
      NotFilled(env, p, l, e);
      NormalOfJoined(Fill(env, p, init), l, e);
      assert fs == Fill(env, p, init) + [l];
      assert Fill(env, p, init + [Join(l, e)]) == Fill(env, p, init) + [Join(l, e)];
    } else {
      assert Fill(env, p, c + [e]) == fs + [FillEntry(env, p, e)];
    }
  }

  lemma NotFilled(env: Environment, p: Key, l: Entry, e: Entry)
    requires Joinable(l, e)
    ensures FillEntry(env, p, l) == l && FillEntry(env, p, e) == e && FillEntry(env, p, Join(l, e)) == Join(l, e)
  {
  }

  /** What a tree settles to depends only on its normal form. */
  lemma {:induction false} SettleOfNormal(env: Environment, p: Key, c: Concat, d: Concat)
    requires Normal(c) == Normal(d)
    ensures Settle(env, p, c) == Settle(env, p, d)
    decreases Count(c, 1), Count(c, 0), 2
  {
    hide SettleParts, NormalParts, Collapse, CountParts;
    FillCount(env, p, c.parts);
    AlikeIsNormal(c.parts, d.parts);
    FillAlike(env, p, Collapse(c.parts), Collapse(d.parts));
    NormalOfRewritten(Fill(env, p, Collapse(c.parts)), Fill(env, p, Collapse(d.parts)));
    FillCollapse(env, p, c.parts);
    FillCollapse(env, p, d.parts);
    SettleOfParts(env, p, Fill(env, p, c.parts), Fill(env, p, d.parts));
  }

  lemma {:induction false} SettleOfParts(env: Environment, p: Key, ps: seq<Entry>, qs: seq<Entry>)
    requires NormalParts(ps) == NormalParts(qs)
    ensures SettleParts(env, p, ps) == SettleParts(env, p, qs)
    decreases CountParts(ps, 1), CountParts(ps, 0), 1
  {
    hide SettleEntry, NormalParts, NormalEntry, Collapse, CountParts, CountEntry;
    AlikeIsNormal(ps, qs);
    var q := Collapse(ps);
    if |q| == 1 {
      CollapseCount(ps, 0);
      CollapseCount(ps, 1);
      PartWithin(q, 0, 0);
      PartWithin(q, 0, 1);
      SettleOfEntries(env, p, q[0], Collapse(qs)[0]);
    }
  }

  lemma {:induction false} SettleOfEntries(env: Environment, p: Key, e: Entry, f: Entry)
    requires NormalEntry(e) == NormalEntry(f)
    ensures SettleEntry(env, p, e) == SettleEntry(env, p, f)
    decreases CountEntry(e, 1), CountEntry(e, 0), 0
  {
    SameKind(e, f);
    match e {
      case Array(g, es) =>
        hide Normal, Settle, NormalEntry, Count, CountEntry, SettleEntry;
        ArrayNormal(g, es, f);
        forall i | 0 <= i < |es| ensures Settle(env, p + [Index(i)], es[i]) == Settle(env, p + [Index(i)], f.elements[i]) {
          ElementWithin(g, es, i, 0);
          ElementWithin(g, es, i, 1);
          SettleOfNormal(env, p + [Index(i)], es[i], f.elements[i]);
        }
        SettleOfElements(env, p, g, es, f.elements);
      case Object(m) =>
        hide Normal, Settle, NormalEntry, Count, CountEntry, SettleEntry;
        ObjectNormal(m, f.members);
        forall n | n in m ensures Settle(env, p + [Name(n)], m[n]) == Settle(env, p + [Name(n)], f.members[n]) {
          MemberWithin(m, n, 0);
          MemberWithin(m, n, 1);
          SettleOfNormal(env, p + [Name(n)], m[n], f.members[n]);
        }
        SettleOfMembers(env, p, m, f.members);
      case _ =>
    }
  }

  lemma SettleOfElements(env: Environment, p: Key, f: string, es: seq<Concat>, fs: seq<Concat>)
    requires |es| == |fs| && forall i | 0 <= i < |es| :: Settle(env, p + [Index(i)], es[i]) == Settle(env, p + [Index(i)], fs[i])
    ensures SettleEntry(env, p, Array(f, es)) == SettleEntry(env, p, Array(f, fs))
  {
    hide Settle;
    assert SettleEntry(env, p, Array(f, es)).elements == SettleEntry(env, p, Array(f, fs)).elements;
  }

  lemma SettleOfMembers(env: Environment, p: Key, m: Members, o: Members)
    requires m.Keys == o.Keys && forall n | n in m :: Settle(env, p + [Name(n)], m[n]) == Settle(env, p + [Name(n)], o[n])
    ensures SettleEntry(env, p, Object(m)) == SettleEntry(env, p, Object(o))
  {
    hide Settle;
    assert SettleEntry(env, p, Object(m)).members == SettleEntry(env, p, Object(o)).members;
  }

  /** The additions pass does not change what a tree settles to. */
  lemma PassSettles(env: Environment, p: Key, c: Concat)
    ensures Settle(env, p, Pass(c)) == Settle(env, p, c)
  {
    hide Normal, Settle, Pass;
    PassKeepsNormal(c);
    SettleOfNormal(env, p, Pass(c), c);
  }

  // ---- Copies do not matter ------------------------------------------------------------------

  /** A reachable reference may be overwritten with what it stands for. */
  lemma {:induction false} ReplaceSettles(env: Environment, p: Key, c: Concat, s: Site, e: Entry)
    requires Live(c, s) && SingleUntil(c, s.pos) && PrimitiveEntry(e)
    requires StandsFor(env, p + KeyOf(s.pos), ReferenceAt(c, s), e)
    ensures Settle(env, p, Replace(c, s, e)) == Settle(env, p, c)
    decreases |s.pos|
  {
    hide SettleParts, NormalParts, PrimitiveEntry, NormalEntry, Collapse;
    if s.pos == [] {
      assert p + [] == p;
      FilledReference(env, p, c.parts, s.part, e);
      SettleOfParts(env, p, Fill(env, p, c.parts), Fill(env, p, c.parts[s.part := e]));
    } else {
      hide Settle, Fill;
      var h, t := s.pos[0], Site(s.pos[1..], s.part);
      var d := Child(c, h);
      ReplaceBelow(c, s, e);
      var k := KeyOf(s.pos)[0];
      assert p + KeyOf(s.pos) == p + [k] + KeyOf(t.pos);
      ReplaceSettles(env, p + [k], d, t, e);
      ChildSettles(env, p, c, h, Replace(d, t, e));
    }
  }

  /** The environment knows the reference, and `e` is what it knows, up to bracketing. */
  ghost predicate StandsFor(env: Environment, k: Key, ref: seq<RefPart>, e: Entry) {
    && env(k, ref).Filled?
    && PrimitiveEntry(env(k, ref).entry)
    && NormalEntry(env(k, ref).entry) == NormalEntry(e)
  }

  lemma FilledReference(env: Environment, p: Key, ps: seq<Entry>, i: nat, e: Entry)
    requires i < |ps| && ps[i].Reference? && PrimitiveEntry(e) && StandsFor(env, p, ps[i].target, e)
    ensures NormalParts(Fill(env, p, ps)) == NormalParts(Fill(env, p, ps[i := e]))
  {
    hide NormalParts, NormalEntry;
    NotReference(e);
    NormalOfRewritten(Fill(env, p, ps), Fill(env, p, ps[i := e]));
  }

  lemma NotReference(e: Entry)
    requires PrimitiveEntry(e)
    ensures !e.Reference?
  {
  }

  /** A change below a child that leaves what the child settles to. */
  lemma ChildSettles(env: Environment, p: Key, c: Concat, h: Hop, d: Concat)
    requires |c.parts| == 1 && HasChild(c, h)
    requires var k := if h.ToMember? then Name(h.name) else Index(h.index);
      Settle(env, p + [k], d) == Settle(env, p + [k], Child(c, h))
    ensures Settle(env, p, WithChild(c, h, d)) == Settle(env, p, c)
  {
    var g := WithChild(c, h, d);
    assert c.parts == [c.parts[0]] && g.parts == [g.parts[0]];
    SettleSingle(env, p, c);
    SettleSingle(env, p, g);
    hide Settle, SettleEntry;
    if h.ToMember? {
      SettleOfMembers(env, p, g.parts[0].members, c.parts[0].members);
    } else {
      SettleOfElements(env, p, c.parts[0].call, g.parts[0].elements, c.parts[0].elements);
    }
  }

  /** A concat with one summand that is not filled in. */
  lemma SettleSingle(env: Environment, p: Key, c: Concat)
    requires |c.parts| == 1 && FillEntry(env, p, c.parts[0]) == c.parts[0]
    ensures Settle(env, p, c) == c.(parts := [SettleEntry(env, p, c.parts[0])])
  {
    hide SettleEntry, NormalParts, FillEntry, Collapse;
    assert Fill(env, p, c.parts) == c.parts;
    CollapseShort(c.parts);
  }

  lemma SettleNothing(env: Environment, p: Key, c: Concat)
    requires c.parts == []
    ensures Settle(env, p, c) == c
  {
    assert Fill(env, p, c.parts) == [] && NormalParts([]) == [];
  }

  // ---- At the end ----------------------------------------------------------------------------

  /** No reachable reference is known. */
  ghost predicate Blocked(env: Environment, p: Key, c: Concat) {
    forall s | Live(c, s) && SingleUntil(c, s.pos) :: env(p + KeyOf(s.pos), ReferenceAt(c, s)).Open?
  }

  /** A tree in which nothing can be added and no reference is known is what it settles to. */
  lemma {:induction false} EndSettles(env: Environment, p: Key, c: Concat)
    requires Pass(c) == c && Blocked(env, p, c)
    ensures Settle(env, p, c) == LooseTree(c)
    decreases c
  {
    Phase5.PassOnParts(c);
    NothingToFill(env, p, c);
    if |c.parts| == 1 {
      hide SettleEntry, PassEntry, Collapse, Fill, FillEntry, Settle, Blocked, LooseEntry;
      FillOne(env, p, c);
      SettleSingle(env, p, c);
      EndSettlesEntry(env, p, c);
      assert LooseTree(c).parts == [LooseEntry(c.parts[0])];
    } else {
      hide NormalParts, SettleEntry, PassEntry, Collapse, Fill, Blocked;
      FixedIsNormal(c);
    }
  }

  lemma FillOne(env: Environment, p: Key, c: Concat)
    requires Fill(env, p, c.parts) == c.parts && |c.parts| == 1
    ensures FillEntry(env, p, c.parts[0]) == c.parts[0]
  {
    assert Fill(env, p, c.parts)[0] == FillEntry(env, p, c.parts[0]);
  }

  lemma NothingToFill(env: Environment, p: Key, c: Concat)
    requires Blocked(env, p, c)
    ensures Fill(env, p, c.parts) == c.parts
  {
    forall i | 0 <= i < |c.parts| ensures FillEntry(env, p, c.parts[i]) == c.parts[i] {
      if c.parts[i].Reference? {
        var s := Site([], i);
        assert Live(c, s) && SingleUntil(c, s.pos) && p + KeyOf(s.pos) == p;
      }
    }
  }

  lemma BlockedBelow(env: Environment, p: Key, c: Concat, h: Hop)
    requires Blocked(env, p, c) && |c.parts| == 1 && HasChild(c, h)
    ensures Blocked(env, p + [if h.ToMember? then Name(h.name) else Index(h.index)], Child(c, h))
  {
    var k, d := if h.ToMember? then Name(h.name) else Index(h.index), Child(c, h);
    forall t | Live(d, t) && SingleUntil(d, t.pos) ensures env(p + [k] + KeyOf(t.pos), ReferenceAt(d, t)).Open? {
      var s := Site([h] + t.pos, t.part);
      assert s.pos[0] == h && s.pos[1..] == t.pos;
      assert Live(c, s) && SingleUntil(c, s.pos) && ReferenceAt(c, s) == ReferenceAt(d, t);
      assert p + KeyOf(s.pos) == p + [k] + KeyOf(t.pos);
    }
  }

  lemma {:induction false} EndSettlesEntry(env: Environment, p: Key, c: Concat)
    requires |c.parts| == 1 && PassEntry(c.parts[0]) == c.parts[0] && Blocked(env, p, c)
    ensures SettleEntry(env, p, c.parts[0]) == LooseEntry(c.parts[0])
    decreases c, 0
  {
    var e := c.parts[0];
    match e {
      case Array(f, es) =>
        hide Settle, Pass, LooseTree, Blocked;
        forall i | 0 <= i < |es| ensures Settle(env, p + [Index(i)], es[i]) == LooseTree(es[i]) {
          assert PassEntry(e).elements[i] == Pass(es[i]) && Child(c, ToElement(0, i)) == es[i];
          BlockedBelow(env, p, c, ToElement(0, i));
          EndSettles(env, p + [Index(i)], es[i]);
        }
        assert SettleEntry(env, p, e).elements == LooseEntry(e).elements;
      case Object(m) =>
        hide Settle, Pass, LooseTree, Blocked;
        forall n | n in m ensures Settle(env, p + [Name(n)], m[n]) == LooseTree(m[n]) {
          assert PassEntry(e).members[n] == Pass(m[n]) && Child(c, ToMember(0, n)) == m[n];
          BlockedBelow(env, p, c, ToMember(0, n));
          EndSettles(env, p + [Name(n)], m[n]);
        }
        assert SettleEntry(env, p, e).members == LooseEntry(e).members;
      case _ => FixedIsNormalEntry(e);
    }
  }
}
