/**
 Stability in trees with calls.  A lookup that does not enter the arguments of a call keeps its
 answer, whatever passes follow in whatever order.
 */
module Outside {
  import opened Tree
  import opened Additions
  import opened Asterisks
  import opened Functions
  import opened Access
  import opened References
  import opened Stability
  import opened Everything
  import opened Pipeline
  import opened Callless
  import opened Invocations
  import Expansion
  import Copying
  import Runs

  /** The subtree with a reference that leads nowhere in the place of each call. */
  function Mask(c: Concat): Concat {
    c.(parts := seq(|c.parts|, i requires 0 <= i < |c.parts| => MaskEntry(c.parts[i])))
  }

  function MaskEntry(e: Entry): Entry {
    match e
    case Array(f, es) =>
      if f != "" then Reference([]) else Array(f, seq(|es|, i requires 0 <= i < |es| => Mask(es[i])))
    case Object(m) => Object(map n | n in m :: Mask(m[n]))
    case _ => e
  }

  /** What can be seen of the tree outside of the arguments of calls. */
  function Hidden(m: Members): (o: Members)
    ensures o.Keys == m.Keys
  {
    map n | n in m :: Mask(m[n])
  }

  lemma MaskedSummands(c: Concat)
    ensures Mask(c) == c.(parts := Mask(c).parts) && |Mask(c).parts| == |c.parts|
    ensures forall i | 0 <= i < |c.parts| :: Mask(c).parts[i] == MaskEntry(c.parts[i])
    ensures |c.parts| == 1 ==> Mask(c).parts == [MaskEntry(c.parts[0])]
  {
    hide MaskEntry;
  }

  /** What is finished outside of calls has no calls. */
  lemma {:induction false} MaskOfPrimitive(c: Concat)
    ensures Primitive(c) || Primitive(Mask(c)) ==> Mask(c) == c
    decreases c
  {
    hide MaskEntry, PrimitiveEntry;
    MaskedSummands(c);
    if |c.parts| == 1 {
      MaskOfPrimitiveEntry(c.parts[0]);
      assert Mask(c).parts[0] == MaskEntry(c.parts[0]);
    }
  }

  lemma {:induction false} MaskOfPrimitiveEntry(e: Entry)
    ensures PrimitiveEntry(e) || PrimitiveEntry(MaskEntry(e)) ==> MaskEntry(e) == e
    decreases e
  {
    match e {
      case Array(f, es) =>
        if f == "" {
          hide Mask, Primitive;
          var fs := MaskEntry(e).elements;
          forall i | 0 <= i < |es| ensures Primitive(es[i]) || Primitive(fs[i]) ==> fs[i] == es[i] { MaskOfPrimitive(es[i]); }
          if PrimitiveEntry(e) || PrimitiveEntry(MaskEntry(e)) { assert fs == es; }
        }
      case Object(m) =>
        hide Mask, Primitive;
        var o := MaskEntry(e).members;
        forall n | n in m ensures Primitive(m[n]) || Primitive(o[n]) ==> o[n] == m[n] { MaskOfPrimitive(m[n]); }
        if PrimitiveEntry(e) || PrimitiveEntry(MaskEntry(e)) { assert o == m; }
      case _ =>
    }
  }

  /** What a lookup finds outside of calls it finds in the whole tree. */
  lemma {:induction false} MaskedAnswer(c: Concat, suffix: Key, down: int)
    ensures Stable(AccessConcat(Mask(c), suffix, down), AccessConcat(c, suffix, down))
    decreases |suffix|
  {
    hide Mask;
    MaskedSummands(c);
    if suffix == [] {
      MaskOfPrimitive(c);
    } else if |c.parts| == 1 {
      hide Primitive;
      match c.parts[0] {
        case Object(m) =>
          if suffix[0].Name? && suffix[0].name in m { MaskedAnswer(m[suffix[0].name], suffix[1..], down - 1); }
        case Array(f, es) =>
          if suffix[0].Index? && suffix[0].index < |es| && f == "" { MaskedAnswer(es[suffix[0].index], suffix[1..], down - 1); }
        case _ =>
      }
    }
  }

  lemma HiddenIsSteady(m: Members)
    ensures Steady(Hidden(m), m)
  {
    hide AccessConcat, Mask;
    forall n, suffix, down | n in m ensures Stable(AccessConcat(Hidden(m)[n], suffix, down), AccessConcat(m[n], suffix, down)) {
      MaskedAnswer(m[n], suffix, down);
    }
  }

  // ---- One pass ------------------------------------------------------------------------------

  lemma {:induction false} AdditionsOutside(c: Concat, suffix: Key, down: int)
    ensures Stable(AccessConcat(Mask(c), suffix, down), AccessConcat(Mask(Pass(c)), suffix, down))
    decreases |suffix|
  {
    hide Pass, Mask;
    MaskedSummands(c);
    MaskedSummands(Pass(c));
    if suffix == [] {
      MaskOfPrimitive(c);
      if Primitive(Mask(c)) { PassOfPrimitive(c); }
    } else {
      hide Primitive;
      PassOfSingle(c);
      if |c.parts| == 1 {
        match c.parts[0] {
          case Object(m) =>
            if suffix[0].Name? && suffix[0].name in m { AdditionsOutside(m[suffix[0].name], suffix[1..], down - 1); }
          case Array(f, es) =>
            if suffix[0].Index? && suffix[0].index < |es| && f == "" { AdditionsOutside(es[suffix[0].index], suffix[1..], down - 1); }
          case _ =>
        }
      }
    }
  }

  lemma {:induction false} AsterisksOutside(c: Concat, suffix: Key, down: int)
    requires Expand(c).Ok?
    ensures Stable(AccessConcat(Mask(c), suffix, down), AccessConcat(Mask(Expand(c).value), suffix, down))
    decreases |suffix|
  {
    hide Mask, Expand, ExpandBelow;
    MaskedSummands(c);
    MaskedSummands(Expand(c).value);
    if suffix == [] {
      MaskOfPrimitive(c);
      if Primitive(Mask(c)) { ExpandOfPrimitive(c); }
    } else {
      ExpandOfSingle(c);
      hide Primitive;
      if |c.parts| == 1 {
        match c.parts[0] {
          case Object(m) =>
            Expansion.ExpandObject(m);
            if suffix[0].Name? && suffix[0].name in m { AsterisksOutside(m[suffix[0].name], suffix[1..], down - 1); }
          case Array(f, es) =>
            Expansion.ExpandArray(f, es);
            if suffix[0].Index? && suffix[0].index < |es| && f == "" { AsterisksOutside(es[suffix[0].index], suffix[1..], down - 1); }
          case _ =>
        }
      }
    }
  }

  lemma {:induction false} FunctionsOutside(fm: FunctionMap, c: Concat, suffix: Key, down: int)
    requires CallAll(fm, c).Ok?
    ensures Stable(AccessConcat(Mask(c), suffix, down), AccessConcat(Mask(CallAll(fm, c).value), suffix, down))
    decreases |suffix|
  {
    hide Mask, CallAll, CallEntry;
    MaskedSummands(c);
    MaskedSummands(CallAll(fm, c).value);
    if suffix == [] {
      MaskOfPrimitive(c);
      if Primitive(Mask(c)) {
        PrimitiveIsFree(Invocation, c);
        CallsOfFree(fm, c);
      }
    } else {
      hide Primitive;
      if |c.parts| <= 1 { CallsOfSingle(fm, c); }
      if |c.parts| == 1 {
        CallsBelow(fm, c.parts[0]);
        match c.parts[0] {
          case Object(m) =>
            if suffix[0].Name? && suffix[0].name in m { FunctionsOutside(fm, m[suffix[0].name], suffix[1..], down - 1); }
          case Array(f, es) =>
            if suffix[0].Index? && suffix[0].index < |es| && f == "" { FunctionsOutside(fm, es[suffix[0].index], suffix[1..], down - 1); }
          case _ =>
        }
      }
    }
  }

  // ---- Copies --------------------------------------------------------------------------------

  /** A copy shows outside of calls as a copy, or not at all. */
  lemma {:induction false} MaskedReplace(c: Concat, s: Site, e: Entry)
    requires Live(c, s) && PrimitiveEntry(e)
    ensures Mask(Replace(c, s, e)) == Mask(c) || (Live(Mask(c), s) && Mask(Replace(c, s, e)) == Replace(Mask(c), s, e))
    decreases |s.pos|
  {
    hide PrimitiveEntry, Mask;
    if s.pos == [] {
      MaskedSummands(c);
      MaskedSummands(Replace(c, s, e));
      MaskOfPrimitiveEntry(e);
      assert Mask(Replace(c, s, e)).parts == Mask(c).parts[s.part := e];
    } else {
      var h, t := s.pos[0], Site(s.pos[1..], s.part);
      ReplaceBelow(c, s, e);
      MaskedReplace(Child(c, h), t, e);
      hide Live, Replace;
      MaskedChild(c, h, Replace(Child(c, h), t, e));
      if Mask(Replace(Child(c, h), t, e)) != Mask(Child(c, h)) && HasChild(Mask(c), h) {
        ReplaceAtChild(Mask(c), h, t, e);
        assert [h] + t.pos == s.pos;
      }
    }
  }

  lemma MaskedChild(c: Concat, h: Hop, d: Concat)
    requires HasChild(c, h)
    ensures HasChild(Mask(c), h) ==> Child(Mask(c), h) == Mask(Child(c, h)) && Mask(WithChild(c, h, d)) == WithChild(Mask(c), h, Mask(d))
    ensures !HasChild(Mask(c), h) || Mask(d) == Mask(Child(c, h)) ==> Mask(WithChild(c, h, d)) == Mask(c)
  {
    var g, p := WithChild(c, h, d), h.part;
    MaskedSummands(c);
    MaskedSummands(g);
    hide Mask;
    if h.ToMember? {
      var m := c.parts[p].members;
      assert MaskEntry(g.parts[p]).members == MaskEntry(c.parts[p]).members[h.name := Mask(d)];
    } else if c.parts[p].call == "" {
      assert MaskEntry(g.parts[p]).elements == MaskEntry(c.parts[p]).elements[h.index := Mask(d)];
    }
    assert Mask(g).parts == Mask(c).parts[p := MaskEntry(g.parts[p])];
    if !HasChild(Mask(c), h) || Mask(d) == Mask(Child(c, h)) {
      assert MaskEntry(g.parts[p]) == MaskEntry(c.parts[p]);
      assert Mask(g).parts == Mask(c).parts;
    }
  }

  lemma ReplaceAtChild(c: Concat, h: Hop, t: Site, e: Entry)
    requires HasChild(c, h) && Live(Child(c, h), t)
    ensures Live(c, Site([h] + t.pos, t.part))
    ensures Replace(c, Site([h] + t.pos, t.part), e) == WithChild(c, h, Replace(Child(c, h), t, e))
  {
    assert ([h] + t.pos)[1..] == t.pos;
  }

  lemma VisitOutside(r: Concat, s: Site)
    requires IsRoot(r) && Live(r, s) && Visit(r, s).Ok?
    ensures IsRoot(Visit(r, s).value) && Steady(Hidden(MembersOf(r)), Hidden(MembersOf(Visit(r, s).value)))
  {
    hide Steady, Live, Replace, Resolve, Mask, PrimitiveEntry, Primitive;
    SteadyReflexive(Hidden(MembersOf(r)));
    var t := Resolve(MembersOf(r), KeyOf(s.pos), ReferenceAt(r, s));
    if t.Found? && t.target.parts != [] {
      var e := t.target.parts[0];
      Copying.TargetIsPrimitive(MembersOf(r), KeyOf(s.pos), ReferenceAt(r, s));
      Copying.PrimitiveHasOnePart(t.target);
      ReplaceKeepsRoot(r, s, e);
      MaskedReplace(r, s, e);
      MaskedRoot(r);
      MaskedRoot(Replace(r, s, e));
      if Live(Mask(r), s) { ReplacingIsSteady(Mask(r), s, e); }
    }
  }

  lemma MaskedRoot(r: Concat)
    requires IsRoot(r)
    ensures IsRoot(Mask(r)) && MembersOf(Mask(r)) == Hidden(MembersOf(r))
  {
    MaskedSummands(r);
  }

  lemma {:induction false} VisitsOutside(r: Concat, sites: seq<Site>)
    requires IsRoot(r) && VisitAll(r, sites).Ok?
    ensures IsRoot(VisitAll(r, sites).value) && Steady(Hidden(MembersOf(r)), Hidden(MembersOf(VisitAll(r, sites).value)))
    decreases |sites|
  {
    hide Visit, Steady, Hidden;
    if sites == [] {
      SteadyReflexive(Hidden(MembersOf(r)));
    } else {
      VisitOutside(r, sites[0]);
      var v := Visit(r, sites[0]).value;
      VisitsOutside(v, sites[1..]);
      SteadyTransitive(Hidden(MembersOf(r)), Hidden(MembersOf(v)), Hidden(MembersOf(VisitAll(r, sites).value)));
    }
  }

  // ---- Whole runs ----------------------------------------------------------------------------

  lemma PassOutside(k: PassKind, fm: FunctionMap, m: Members)
    requires RunPass(k, fm, m).Ok?
    ensures Steady(Hidden(m), Hidden(RunPass(k, fm, m).value))
  {
    hide AccessConcat, CallEntry, PassEntry, SoundEntry, ExpandBelow, VisitAll, SitesOf, Mask, Pass, Expand, CallAll;
    var o := RunPass(k, fm, m).value;
    ObjectsStay(fm, m);
    match k {
      case CopyTargets =>
        VisitsOutside(Root(m), SitesOf(Root(m)));
      case AddUp =>
        ObjectPass(m);
        forall n, suffix, down | n in m ensures Stable(AccessConcat(Hidden(m)[n], suffix, down), AccessConcat(Hidden(o)[n], suffix, down)) {
          AdditionsOutside(m[n], suffix, down);
        }
      case ExpandStars =>
        Expansion.ExpandObject(m);
        forall n, suffix, down | n in m ensures Stable(AccessConcat(Hidden(m)[n], suffix, down), AccessConcat(Hidden(o)[n], suffix, down)) {
          AsterisksOutside(m[n], suffix, down);
        }
      case CallFunctions =>
        CallsBelow(fm, Object(m));
        forall n, suffix, down | n in m ensures Stable(AccessConcat(Hidden(m)[n], suffix, down), AccessConcat(Hidden(o)[n], suffix, down)) {
          FunctionsOutside(fm, m[n], suffix, down);
        }
    }
  }

  lemma {:induction false} RunOutside(ks: nat -> PassKind, fm: FunctionMap, m: Members, i: nat, j: nat)
    requires i <= j && State(ks, fm, m, j).Ok?
    ensures State(ks, fm, m, i).Ok? && Steady(Hidden(State(ks, fm, m, i).value), Hidden(State(ks, fm, m, j).value))
    decreases j
  {
    hide RunPass, Steady, Hidden;
    if i < j {
      RunOutside(ks, fm, m, i, j - 1);
      PassOutside(ks(j - 1), fm, State(ks, fm, m, j - 1).value);
      SteadyTransitive(Hidden(State(ks, fm, m, i).value), Hidden(State(ks, fm, m, j - 1).value), Hidden(State(ks, fm, m, j).value));
    } else {
      SteadyReflexive(Hidden(State(ks, fm, m, i).value));
    }
  }

  /**
   Whatever the tree and the schedule: a reference that is resolved without a look into the
   arguments of a call has this target, with this content, now and ever after.
   */
  lemma ResolvedOutsideForGood(ks: nat -> PassKind, fm: FunctionMap, m: Members, i: nat, j: nat, prefix: Key, ref: seq<RefPart>)
    requires i <= j && State(ks, fm, m, j).Ok?
    ensures State(ks, fm, m, i).Ok?
    ensures Resolve(Hidden(State(ks, fm, m, i).value), prefix, ref).Found? ==>
      Resolve(State(ks, fm, m, j).value, prefix, ref) == Resolve(Hidden(State(ks, fm, m, i).value), prefix, ref)
  {
    hide State, Resolve, Steady, Hidden;
    RunOutside(ks, fm, m, i, j);
    var o, q := State(ks, fm, m, i).value, State(ks, fm, m, j).value;
    HiddenIsSteady(q);
    SteadyTransitive(Hidden(o), Hidden(q), q);
    TargetIsStable(Hidden(o), q, prefix, ref);
  }

  /**
   What the visit number `n` copies, if its target is seen outside of calls, is the value that the
   reference denotes in the tree `o`.
   */
  ghost predicate CopiedOutsideIsTrue(m: Members, n: nat, o: Members) {
    var r, sites := Root(m), SitesOf(Root(m));
    n < |sites| ==>
      && VisitAll(r, sites[..n]).Ok?
      && IsRoot(VisitAll(r, sites[..n]).value)
      && Live(r, sites[n]) && Live(VisitAll(r, sites[..n]).value, sites[n])
      && var t := Resolve(Hidden(MembersOf(VisitAll(r, sites[..n]).value)), KeyOf(sites[n].pos), ReferenceAt(r, sites[n]));
      && (t.Found? && t.target.parts != [] ==>
           && Visit(VisitAll(r, sites[..n]).value, sites[n]) == Ok(Replace(VisitAll(r, sites[..n]).value, sites[n], t.target.parts[0]))
           && Resolve(o, KeyOf(sites[n].pos), ReferenceAt(r, sites[n])) == t)
  }

  /** Copies of targets outside of calls stay true, whatever the tree and the schedule. */
  lemma CopiesOutsideStayTrue(ks: nat -> PassKind, fm: FunctionMap, m: Members, i: nat, j: nat, n: nat)
    requires i < j && State(ks, fm, m, j).Ok? && ks(i) == CopyTargets
    ensures State(ks, fm, m, i).Ok? && CopiedOutsideIsTrue(State(ks, fm, m, i).value, n, State(ks, fm, m, j).value)
  {
    hide State, Resolve, Steady, RunPass, SitesOf, Live, ReferenceAt, Replace, Hidden;
    Runs.StateAfter(ks, fm, m, i, j);
    var o, q := Root(State(ks, fm, m, i).value), State(ks, fm, m, j).value;
    var sites := SitesOf(o);
    if n < |sites| {
      SitesAreTheReferences(o);
      assert sites == sites[..n] + sites[n..];
      Copying.VisitAllSplit(o, sites[..n], sites[n..]);
      VisitsFindReferences(o, sites, n);
      var a := VisitAll(o, sites[..n]).value;
      VisitsOutside(a, sites[n..]);
      RunOutside(ks, fm, m, i + 1, j);
      HiddenIsSteady(q);
      HiddenIsSteady(MembersOf(a));
      SteadyTransitive(Hidden(MembersOf(a)), Hidden(State(ks, fm, m, i + 1).value), Hidden(q));
      SteadyTransitive(Hidden(MembersOf(a)), Hidden(q), q);
      TargetIsStable(Hidden(MembersOf(a)), q, KeyOf(sites[n].pos), ReferenceAt(o, sites[n]));
      TargetIsStable(Hidden(MembersOf(a)), MembersOf(a), KeyOf(sites[n].pos), ReferenceAt(o, sites[n]));
    }
  }

  /** The same for the loop of phase 2, with any order of the passes, and the tree in which it ends. */
  lemma CopiesOutsideAreTrueInTheEnd(ks: seq<PassKind>, fm: FunctionMap, m: Members, o: Members, turn: nat, k: nat, n: nat)
    requires Phase2Ends(ks, fm, m, o) && k < |ks| && ks[k] == CopyTargets
    ensures Rounds(ks, fm, m, turn).Ok? && RunPasses(ks[..k], fm, Rounds(ks, fm, m, turn).value).Ok?
    ensures CopiedOutsideIsTrue(RunPasses(ks[..k], fm, Rounds(ks, fm, m, turn).value).value, n, o)
  {
    hide State, RunPasses, Rounds, Phase2Ends, CopiedOutsideIsTrue;
    var i := turn * |ks| + k;
    var j := Runs.EndReached(ks, fm, m, o, i);
    Runs.PositionInTurn(turn, |ks|, k);
    CopiesOutsideStayTrue(Runs.Turns(ks), fm, m, i, j, n);
    Runs.StateInTurn(ks, fm, m, turn, k);
    Runs.RoundsAreTurns(ks, fm, m, turn);
  }
}
