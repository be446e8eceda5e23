/** What a run of phase 2 keeps: found targets stay, and copies stay true to the end. */
module Runs {
  import opened Tree
  import opened Additions
  import opened Asterisks
  import opened Functions
  import opened References
  import opened Access
  import opened Stability
  import opened Everything
  import opened Callless
  import opened Pipeline
  import Copying

  /** No call can happen: there is none in the tree, or no functions pass runs. */
  ghost predicate NoCalls(ks: nat -> PassKind, m: Members, i: nat, j: nat) {
    Free(Invocation, Root(m)) || forall x: nat | i <= x < j :: ks(x) != CallFunctions
  }

  lemma PassIsSteady(k: PassKind, fm: FunctionMap, m: Members)
    requires (k != CallFunctions || Free(Invocation, Root(m))) && RunPass(k, fm, m).Ok?
    ensures Steady(m, RunPass(k, fm, m).value)
  {
    hide Steady, PassEntry, SoundEntry, ExpandBelow, ReferencesPass, Free, CallEntry;
    match k {
      case CallFunctions =>
        PassesStayFree(Invocation, k, fm, m);
        SteadyReflexive(m);
      case AddUp => AdditionsAreSteady(m);
      case ExpandStars => AsterisksAreSteady(m);
      case CopyTargets => ReferencesAreSteady(m);
    }
  }

  lemma ReferencesAreSteady(m: Members)
    requires ReferencesPass(Root(m)).Ok?
    ensures IsRoot(ReferencesPass(Root(m)).value) && Steady(m, MembersOf(ReferencesPass(Root(m)).value))
  {
    hide Steady, SitesOf, VisitAll;
    VisitsAreSteady(Root(m), SitesOf(Root(m)));
  }

  lemma {:induction false} RunStaysFree(ks: nat -> PassKind, fm: FunctionMap, m: Members, i: nat)
    requires Free(Invocation, Root(m)) && State(ks, fm, m, i).Ok?
    ensures Free(Invocation, Root(State(ks, fm, m, i).value))
  {
    hide RunPass, Free;
    if i > 0 {
      RunStaysFree(ks, fm, m, i - 1);
      PassesStayFree(Invocation, ks(i - 1), fm, State(ks, fm, m, i - 1).value);
    }
  }

  /** The same over whole runs: on trees without calls for every schedule of all four passes. */
  lemma {:induction false} RunIsSteady(ks: nat -> PassKind, fm: FunctionMap, m: Members, i: nat, j: nat)
    requires i <= j && State(ks, fm, m, j).Ok? && NoCalls(ks, m, i, j)
    ensures State(ks, fm, m, i).Ok? && Steady(State(ks, fm, m, i).value, State(ks, fm, m, j).value)
    decreases j
  {
    hide RunPass, Steady, Free;
    if i < j {
      RunIsSteady(ks, fm, m, i, j - 1);
      if Free(Invocation, Root(m)) { RunStaysFree(ks, fm, m, j - 1); }
      PassIsSteady(ks(j - 1), fm, State(ks, fm, m, j - 1).value);
      SteadyTransitive(State(ks, fm, m, i).value, State(ks, fm, m, j - 1).value, State(ks, fm, m, j).value);
    } else {
      SteadyReflexive(State(ks, fm, m, i).value);
    }
  }

  /** A reference that is resolved once has the same target, with the same content, ever after. */
  lemma ResolvedForGood(ks: nat -> PassKind, fm: FunctionMap, m: Members, i: nat, j: nat, prefix: Key, ref: seq<RefPart>)
    requires i <= j && State(ks, fm, m, j).Ok? && NoCalls(ks, m, i, j)
    ensures State(ks, fm, m, i).Ok?
    ensures Resolve(State(ks, fm, m, i).value, prefix, ref).Found? ==>
      Resolve(State(ks, fm, m, j).value, prefix, ref) == Resolve(State(ks, fm, m, i).value, prefix, ref)
  {
    hide State, Resolve, Steady, NoCalls;
    RunIsSteady(ks, fm, m, i, j);
    TargetIsStable(State(ks, fm, m, i).value, State(ks, fm, m, j).value, prefix, ref);
  }

  /**
   In the references pass on `m`, what the visit of the site number `n` copies is the value that
   the reference denotes in the tree `o`.
   */
  ghost predicate CopiedIsTrue(m: Members, n: nat, o: Members) {
    var r, sites := Root(m), SitesOf(Root(m));
    n < |sites| ==>
      && VisitAll(r, sites[..n]).Ok?
      && IsRoot(VisitAll(r, sites[..n]).value)
      && Live(r, sites[n]) && Live(VisitAll(r, sites[..n]).value, sites[n])
      && var t := Resolve(MembersOf(VisitAll(r, sites[..n]).value), KeyOf(sites[n].pos), ReferenceAt(r, sites[n]));
      && (t.Found? && t.target.parts != [] ==>
           && Visit(VisitAll(r, sites[..n]).value, sites[n]) == Ok(Replace(VisitAll(r, sites[..n]).value, sites[n], t.target.parts[0]))
           && Resolve(o, KeyOf(sites[n].pos), ReferenceAt(r, sites[n])) == t)
  }

  /**
   What a reference is overwritten with in the course of a references pass is the value that the
   same reference denotes in any tree that the run reaches later.
   */
  lemma CopiesStayTrue(ks: nat -> PassKind, fm: FunctionMap, m: Members, i: nat, j: nat, n: nat)
    requires i < j && State(ks, fm, m, j).Ok? && NoCalls(ks, m, i, j) && ks(i) == CopyTargets
    ensures State(ks, fm, m, i).Ok? && CopiedIsTrue(State(ks, fm, m, i).value, n, State(ks, fm, m, j).value)
  {
    hide State, Resolve, Steady, RunPass, SitesOf, Live, ReferenceAt, Replace, NoCalls;
    StateAfter(ks, fm, m, i, j);
    var o := Root(State(ks, fm, m, i).value);
    var sites := SitesOf(o);
    if n < |sites| {
      SitesAreTheReferences(o);
      assert sites == sites[..n] + sites[n..];
      Copying.VisitAllSplit(o, sites[..n], sites[n..]);
      VisitsFindReferences(o, sites, n);
      var a := VisitAll(o, sites[..n]).value;
      VisitsAreSteady(a, sites[n..]);
      FewerPasses(ks, m, i, j);
      RunIsSteady(ks, fm, m, i + 1, j);
      SteadyTransitive(MembersOf(a), State(ks, fm, m, i + 1).value, State(ks, fm, m, j).value);
      TargetIsStable(MembersOf(a), State(ks, fm, m, j).value, KeyOf(sites[n].pos), ReferenceAt(o, sites[n]));
    }
  }

  lemma FewerPasses(ks: nat -> PassKind, m: Members, i: nat, j: nat)
    requires NoCalls(ks, m, i, j)
    ensures NoCalls(ks, m, i + 1, j)
  {
    hide Free;
  }

  lemma {:induction false} StateAfter(ks: nat -> PassKind, fm: FunctionMap, m: Members, i: nat, j: nat)
    requires i < j && State(ks, fm, m, j).Ok?
    ensures State(ks, fm, m, i).Ok? && State(ks, fm, m, i + 1).Ok?
    ensures ks(i) == CopyTargets ==>
      && ReferencesPass(Root(State(ks, fm, m, i).value)).Ok?
      && IsRoot(ReferencesPass(Root(State(ks, fm, m, i).value)).value)
      && State(ks, fm, m, i + 1).value == MembersOf(ReferencesPass(Root(State(ks, fm, m, i).value)).value)
    decreases j
  {
    hide ReferencesPass;
    if State(ks, fm, m, i + 1).Err? { FailedForGood(ks, fm, m, i + 1, j); }
  }

  // ---- The loop of phase 2 -------------------------------------------------------------------

  /** The passes of the loop, turn after turn, as one endless schedule. */
  ghost function Turns(ks: seq<PassKind>): nat -> PassKind
    requires ks != []
  {
    (i: nat) => ks[InTurn(|ks|, i)]
  }

  /** The position of the pass number `i` in its turn. */
  ghost function InTurn(l: nat, i: nat): (k: nat)
    requires l > 0
    ensures k < l
  {
    if i < l then i else InTurn(l, i - l)
  }

  /** `k` passes into a turn. */
  lemma {:induction false} StateInTurn(ks: seq<PassKind>, fm: FunctionMap, m: Members, n: nat, k: nat)
    requires ks != [] && k <= |ks|
    ensures State(Turns(ks), fm, m, n * |ks| + k) ==
      var r := State(Turns(ks), fm, m, n * |ks|);
      if r.Ok? then RunPasses(ks[..k], fm, r.value) else r
    decreases k
  {
    hide RunPass;
    if k > 0 {
      StateInTurn(ks, fm, m, n, k - 1);
      PositionInTurn(n, |ks|, k - 1);
      assert Turns(ks)(n * |ks| + (k - 1)) == ks[k - 1];
      assert ks[..k] == ks[..k - 1] + [ks[k - 1]];
      var r := State(Turns(ks), fm, m, n * |ks|);
      if r.Ok? { OneMore(ks[..k - 1], ks[k - 1], fm, r.value); }
    } else {
      assert ks[..0] == [];
    }
  }

  lemma {:induction false} PositionInTurn(n: nat, l: nat, k: nat)
    requires k < l
    ensures InTurn(l, n * l + k) == k
    decreases n
  {
    if n > 0 {
      PositionInTurn(n - 1, l, k);
      assert n * l + k - l == (n - 1) * l + k;
    }
  }

  lemma {:induction false} OneMore(ks: seq<PassKind>, k: PassKind, fm: FunctionMap, m: Members)
    ensures RunPasses(ks + [k], fm, m) ==
      var r := RunPasses(ks, fm, m);
      if r.Ok? then RunPass(k, fm, r.value) else r
    decreases |ks|
  {
    hide RunPass;
    if ks == [] {
      assert ks + [k] == [k] && [k][1..] == [];
      var r := RunPass(k, fm, m);
      if r.Ok? { assert RunPasses([], fm, r.value) == r; }
    } else {
      assert (ks + [k])[0] == ks[0] && (ks + [k])[1..] == ks[1..] + [k];
      var r := RunPass(ks[0], fm, m);
      if r.Ok? { OneMore(ks[1..], k, fm, r.value); }
    }
  }

  lemma {:induction false} RoundsAreTurns(ks: seq<PassKind>, fm: FunctionMap, m: Members, n: nat)
    requires ks != []
    ensures State(Turns(ks), fm, m, n * |ks|) == Rounds(ks, fm, m, n)
    decreases n
  {
    hide RunPass, RunPasses, State;
    if n > 0 {
      RoundsAreTurns(ks, fm, m, n - 1);
      StateInTurn(ks, fm, m, n - 1, |ks|);
      assert (n - 1) * |ks| + |ks| == n * |ks| && ks[..|ks|] == ks;
    } else {
      NoState(Turns(ks), fm, m);
    }
  }

  lemma NoState(ks: nat -> PassKind, fm: FunctionMap, m: Members)
    ensures State(ks, fm, m, 0) == Ok(m)
  {
  }

  lemma {:induction false} Unmoved(ks: seq<PassKind>, fm: FunctionMap, m: Members, o: Members, i: nat, j: nat)
    requires ks != [] && i <= j && State(Turns(ks), fm, m, i) == Ok(o) && forall k | k in ks :: RunPass(k, fm, o) == Ok(o)
    ensures State(Turns(ks), fm, m, j) == Ok(o)
    decreases j
  {
    hide RunPass;
    if i < j {
      Unmoved(ks, fm, m, o, i, j - 1);
      assert Turns(ks)(j - 1) in ks;
    }
  }

  /** The loop reaches the tree in which it ends, and stays there. */
  lemma EndReached(ks: seq<PassKind>, fm: FunctionMap, m: Members, o: Members, i: nat) returns (j: nat)
    requires ks != [] && Phase2Ends(ks, fm, m, o)
    ensures j > i && State(Turns(ks), fm, m, j) == Ok(o)
  {
    hide Rounds, RunPass, State;
    var n: nat :| Rounds(ks, fm, m, n) == Ok(o);
    RoundsAreTurns(ks, fm, m, n);
    j := n * |ks| + i + 1;
    Unmoved(ks, fm, m, o, n * |ks|, j);
  }

  /**
   In a tree without calls a reference that is resolved at any moment of the loop, after `i`
   passes, has the same target with the same content in the tree in which phase 2 ends.
   */
  lemma ResolvedToTheEnd(
    ks: seq<PassKind>, fm: FunctionMap, m: Members, o: Members, i: nat, prefix: Key, ref: seq<RefPart>)
    requires ks != [] && Free(Invocation, Root(m)) && Phase2Ends(ks, fm, m, o)
    ensures State(Turns(ks), fm, m, i).Ok?
    ensures Resolve(State(Turns(ks), fm, m, i).value, prefix, ref).Found? ==>
      Resolve(o, prefix, ref) == Resolve(State(Turns(ks), fm, m, i).value, prefix, ref)
  {
    hide State, Resolve, Free, Phase2Ends;
    var j := EndReached(ks, fm, m, o, i);
    ResolvedForGood(Turns(ks), fm, m, i, j, prefix, ref);
  }

  /**
   A value that is copied in any turn of the loop, at position `k` of the passes, is what the
   reference denotes in the tree in which phase 2 ends.
   */
  lemma CopiesAreTrueInTheEnd(ks: seq<PassKind>, fm: FunctionMap, m: Members, o: Members, turn: nat, k: nat, n: nat)
    requires Free(Invocation, Root(m)) && Phase2Ends(ks, fm, m, o) && k < |ks| && ks[k] == CopyTargets
    ensures Rounds(ks, fm, m, turn).Ok? && RunPasses(ks[..k], fm, Rounds(ks, fm, m, turn).value).Ok?
    ensures CopiedIsTrue(RunPasses(ks[..k], fm, Rounds(ks, fm, m, turn).value).value, n, o)
  {
    hide State, RunPasses, Rounds, Free, Phase2Ends, CopiedIsTrue;
    var i := turn * |ks| + k;
    var j := EndReached(ks, fm, m, o, i);
    PositionInTurn(turn, |ks|, k);
    CopiesStayTrue(Turns(ks), fm, m, i, j, n);
    StateInTurn(ks, fm, m, turn, k);
    RoundsAreTurns(ks, fm, m, turn);
  }
}
