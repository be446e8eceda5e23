/** Phase 2 as a whole: the four passes run until nothing changes, and they always stop. */
module Everything {
  import opened Tree
  import opened Measure
  import opened Descent
  import opened Progress
  import opened Additions
  import opened Asterisks
  import opened Functions
  import opened References
  import Expansion
  import Calls
  import Copying

  datatype PassKind = CallFunctions | AddUp | CopyTargets | ExpandStars

  ghost function RunPass(k: PassKind, fm: FunctionMap, m: Members): Result<Members> {
    match k
    case CallFunctions =>
      var e := CallEntry(fm, Object(m));
      if e.Ok? then Ok(e.value.members) else Err(e.error)
    case AddUp =>
      if SoundEntry(Object(m)) then Ok(PassEntry(Object(m)).members) else Err(IncompatibleAddition)
    case CopyTargets =>
      var r := ReferencesPass(Root(m));
      if r.Ok? && IsRoot(r.value) then Ok(MembersOf(r.value)) else if r.Ok? then Err(AssertionFailed) else Err(r.error)
    case ExpandStars =>
      var e := ExpandBelow(Object(m));
      if e.Ok? then Ok(e.value.members) else Err(e.error)
  }

  ghost function RunPasses(ks: seq<PassKind>, fm: FunctionMap, m: Members): Result<Members> {
    if ks == [] then Ok(m)
    else
      var r := RunPass(ks[0], fm, m);
      if r.Ok? then RunPasses(ks[1..], fm, r.value) else r
  }

  // ---- Every pass that changes something makes progress --------------------------------------

  lemma RootsAdvance(m: Members, o: Members)
    requires AdvancesEntry(Object(m), Object(o))
    ensures Advances(Root(m), Root(o))
  {
    hide CountParts, CountEntry, Drops;
    if m != o {
      PartsAdvance([Object(m)], [Object(o)]);
      SameWeights([Object(m)], Root(m));
      SameWeights([Object(o)], Root(o));
      assert [Object(m)][0] != [Object(o)][0];
    }
  }

  lemma PassAdvances(k: PassKind, fm: FunctionMap, m: Members)
    requires ValidFunctions(fm) && RunPass(k, fm, m).Ok?
    ensures Advances(Root(m), Root(RunPass(k, fm, m).value))
  {
    hide CallEntry, PassEntry, SoundEntry, ExpandBelow, ReferencesPass, AdvancesEntry, Advances;
    var o := RunPass(k, fm, m).value;
    match k {
      case CallFunctions =>
        Calls.CallEntryAdvances(fm, Object(m));
        ObjectsStay(fm, m);
        RootsAdvance(m, o);
      case AddUp =>
        AdditionsAdvanceEntry(Object(m));
        RootsAdvance(m, o);
      case CopyTargets =>
        ReferencesAdvance(m);
      case ExpandStars =>
        Expansion.ExpandBelowAdvances(Object(m));
        ObjectsStay(fm, m);
        RootsAdvance(m, o);
    }
  }

  lemma ObjectsStay(fm: FunctionMap, m: Members)
    ensures CallEntry(fm, Object(m)).Ok? ==> CallEntry(fm, Object(m)).value.Object?
    ensures ExpandBelow(Object(m)).Ok? ==> ExpandBelow(Object(m)).value.Object?
    ensures PassEntry(Object(m)).Object?
  {
  }

  lemma ReferencesAdvance(m: Members)
    requires ReferencesPass(Root(m)).Ok?
    ensures IsRoot(ReferencesPass(Root(m)).value)
    ensures ReferencesPass(Root(m)).value == Root(MembersOf(ReferencesPass(Root(m)).value))
    ensures Advances(Root(m), ReferencesPass(Root(m)).value)
  {
    hide VisitAll, SitesOf, Advances;
    Copying.VisitsAdvance(Root(m), SitesOf(Root(m)));
    VisitsKeepRoot(Root(m), SitesOf(Root(m)));
  }

  lemma {:induction false} VisitsKeepRoot(r: Concat, sites: seq<Site>)
    requires IsRoot(r) && r == Root(MembersOf(r)) && VisitAll(r, sites).Ok?
    ensures IsRoot(VisitAll(r, sites).value)
    ensures VisitAll(r, sites).value == Root(MembersOf(VisitAll(r, sites).value))
    decreases |sites|
  {
    hide Resolve;
    if sites != [] {
      var s, v := sites[0], Visit(r, sites[0]).value;
      if v != r {
        ReplaceBelow(r, s, Resolve(MembersOf(r), KeyOf(s.pos), ReferenceAt(r, s)).target.parts[0]);
        assert v.parts == [v.parts[0]];
      }
      VisitsKeepRoot(v, sites[1..]);
    }
  }

  // ---- Runs of passes in any order -----------------------------------------------------------

  /** The tree after the first `i` passes of an endless schedule, unless a pass has failed. */
  ghost function State(ks: nat -> PassKind, fm: FunctionMap, m: Members, i: nat): Result<Members> {
    if i == 0 then Ok(m)
    else
      var r := State(ks, fm, m, i - 1);
      if r.Ok? then RunPass(ks(i - 1), fm, r.value) else r
  }

  lemma {:induction false} RunAdvances(ks: nat -> PassKind, fm: FunctionMap, m: Members, i: nat, j: nat)
    requires ValidFunctions(fm) && i <= j && State(ks, fm, m, j).Ok?
    ensures State(ks, fm, m, i).Ok?
    ensures Advances(Root(State(ks, fm, m, i).value), Root(State(ks, fm, m, j).value))
    decreases j
  {
    hide RunPass, Advances, ValidFunctions;
    if i < j {
      RunAdvances(ks, fm, m, i, j - 1);
      var a, b, c := State(ks, fm, m, i).value, State(ks, fm, m, j - 1).value, State(ks, fm, m, j).value;
      PassAdvances(ks(j - 1), fm, b);
      AdvancesTransitive(Root(a), Root(b), Root(c));
    } else {
      Copying.NoChangeAdvances(Root(State(ks, fm, m, i).value));
    }
  }

  /** The levels of a tree that may be occupied, as a finite vector. */
  ghost function Levels(m: Members, b: nat): seq<nat> {
    seq(b, k requires 0 <= k < b => Count(Root(m), k))
  }

  ghost predicate Bounded(m: Members, b: nat) {
    forall k: nat | k >= b :: Count(Root(m), k) == 0
  }

  lemma LevelsDescend(m: Members, o: Members, b: nat)
    requires Bounded(m, b) && Advances(Root(m), Root(o)) && m != o
    ensures Bounded(o, b) && Less(Levels(o, b), Levels(m, b))
  {
    hide Count;
    assert Root(m) != Root(o) by { assert Root(m).parts[0].members == m && Root(o).parts[0].members == o; }
    var k: nat :| DropsAt(W(Root(o)), W(Root(m)), k);
    assert Count(Root(o), k) < Count(Root(m), k);
    forall j: nat | j >= k ensures Count(Root(o), j) <= Count(Root(m), j) {
      assert W(Root(o))(j) <= W(Root(m))(j);
    }
    assert k < b;
    var v, w := Levels(o, b), Levels(m, b);
    assert v[k] < w[k] && forall j | k <= j < |v| :: v[j] <= w[j];
  }

  lemma InitiallyBounded(m: Members)
    ensures Bounded(m, Height(Root(m)) + 2)
  {
    hide Count, Height;
    forall k: nat | k >= Height(Root(m)) + 2 ensures Count(Root(m), k) == 0 { AboveHeight(Root(m), k); }
  }

  ghost predicate Settled(ks: nat -> PassKind, fm: FunctionMap, m: Members, n: nat) {
    forall j: nat | j >= n :: State(ks, fm, m, j) == State(ks, fm, m, n)
  }

  /**
   Phase 2 terminates: whatever the order of the passes, from some point on no pass changes the
   tree any more, or a pass has failed.
   */
  lemma {:induction false} EveryRunSettles(ks: nat -> PassKind, fm: FunctionMap, m: Members) returns (n: nat)
    requires ValidFunctions(fm)
    ensures Settled(ks, fm, m, n)
  {
    hide Settled, ValidFunctions;
    var b := Height(Root(m)) + 2;
    InitiallyBounded(m);
    EveryDescentIsFinite(Levels(m, b));
    var k: ORDINAL :| Terminates#[k](Levels(m, b));
    n := SettlesFrom(ks, fm, m, 0, b, k);
  }

  lemma {:induction false} SettlesFrom(ks: nat -> PassKind, fm: FunctionMap, m: Members, i: nat, b: nat, k: ORDINAL)
    returns (n: nat)
    requires ValidFunctions(fm) && State(ks, fm, m, i).Ok?
    requires Bounded(State(ks, fm, m, i).value, b)
    requires Terminates#[k](Levels(State(ks, fm, m, i).value, b))
    ensures Settled(ks, fm, m, n)
    decreases k
  {
    hide State, Bounded, Advances, ValidFunctions, Levels, Less;
    if j: nat :| j >= i && State(ks, fm, m, j) != State(ks, fm, m, i) {
      if State(ks, fm, m, j).Err? {
        n := j;
        forall x: nat | x >= n ensures State(ks, fm, m, x) == State(ks, fm, m, n) { FailedForGood(ks, fm, m, n, x); }
      } else {
        var o, p := State(ks, fm, m, i).value, State(ks, fm, m, j).value;
        RunAdvances(ks, fm, m, i, j);
        LevelsDescend(o, p, b);
        var l := NextBound(k, Levels(o, b), Levels(p, b));
        n := SettlesFrom(ks, fm, m, j, b, l);
      }
    } else {
      n := i;
    }
  }

  lemma {:induction false} FailedForGood(ks: nat -> PassKind, fm: FunctionMap, m: Members, i: nat, j: nat)
    requires i <= j && State(ks, fm, m, i).Err?
    ensures State(ks, fm, m, j) == State(ks, fm, m, i)
    decreases j
  {
    hide RunPass;
    if i < j { FailedForGood(ks, fm, m, i, j - 1); }
  }

  // ---- The loop ------------------------------------------------------------------------------

  /** One pass on a fresh pass object, with its number of changes. */
  method Run(k: PassKind, fm: FunctionMap, m: Members) returns (r: Result<(Members, nat)>)
    requires ValidFunctions(fm)
    ensures RunPass(k, fm, m) == if r.Ok? then Ok(r.value.0) else Err(r.error)
    ensures r.Ok? ==> (r.value.1 == 0 <==> r.value.0 == m)
  {
    hide CallEntry, PassEntry, SoundEntry, ExpandBelow, ReferencesPass;
    ObjectsStay(fm, m);
    match k {
      case CallFunctions =>
        var p := new Calls.Phase2Functions(m, fm);
        var n := p.Process();
        r := if n.Ok? then Ok((p.root, n.value)) else Err(n.error);
      case AddUp =>
        var p := new Phase2Additions(m);
        var n := p.Process();
        r := if n.Ok? then Ok((p.root, n.value)) else Err(n.error);
      case CopyTargets =>
        var p := new Copying.Phase2References(m);
        assert IsRoot(Root(m)) && MembersOf(Root(m)) == m;
        var n := p.Process();
        if n.Ok? { ReferencesAdvance(m); }
        r := if n.Ok? then Ok((MembersOf(p.root), n.value)) else Err(n.error);
      case ExpandStars =>
        var p := new Expansion.Phase2Asterisks(m);
        var n := p.Process();
        r := if n.Ok? then Ok((p.root, n.value)) else Err(n.error);
    }
  }

  /** The number of rounds that the loop has made, and what it has made of the tree. */
  ghost function Rounds(ks: seq<PassKind>, fm: FunctionMap, m: Members, n: nat): Result<Members> {
    if n == 0 then Ok(m)
    else
      var r := Rounds(ks, fm, m, n - 1);
      if r.Ok? then RunPasses(ks, fm, r.value) else r
  }

  lemma {:induction false} PassesAdvance(ks: seq<PassKind>, fm: FunctionMap, m: Members)
    requires ValidFunctions(fm) && RunPasses(ks, fm, m).Ok?
    ensures Advances(Root(m), Root(RunPasses(ks, fm, m).value))
    ensures RunPasses(ks, fm, m).value == m ==> forall k | k in ks :: RunPass(k, fm, m) == Ok(m)
    decreases |ks|
  {
    hide RunPass, Advances, ValidFunctions;
    if ks == [] {
      Copying.NoChangeAdvances(Root(m));
    } else {
      var o := RunPass(ks[0], fm, m).value;
      PassAdvances(ks[0], fm, m);
      PassesAdvance(ks[1..], fm, o);
      var p := RunPasses(ks, fm, m).value;
      AdvancesTransitive(Root(m), Root(o), Root(p));
      if p == m {
        assert Root(o).parts[0].members == o && Root(m).parts[0].members == m;
        assert o == m;
      }
    }
  }

  /** One turn of the loop: every pass runs, even when an earlier one has changed something. */
  method Iteration(ks: seq<PassKind>, fm: FunctionMap, m: Members) returns (r: Result<(Members, nat)>)
    requires ValidFunctions(fm)
    ensures RunPasses(ks, fm, m) == if r.Ok? then Ok(r.value.0) else Err(r.error)
    ensures r.Ok? ==> (r.value.1 == 0 <==> r.value.0 == m)
  {
    hide RunPass, Advances, ValidFunctions;
    var o, n := m, 0;
    Copying.NoChangeAdvances(Root(m));
    for i := 0 to |ks|
      invariant RunPasses(ks, fm, m) == RunPasses(ks[i..], fm, o)
      invariant n >= 0 && (n == 0 <==> o == m) && Advances(Root(m), Root(o))
    {
      assert ks[i..][0] == ks[i] && ks[i..][1..] == ks[i + 1..];
      var d := Run(ks[i], fm, o);
      if d.Err? { return Err(d.error); }
      PassAdvances(ks[i], fm, o);
      AdvancesTransitive(Root(m), Root(o), Root(d.value.0));
      assert Root(o).parts[0].members == o && Root(m).parts[0].members == m && Root(d.value.0).parts[0].members == d.value.0;
      o, n := d.value.0, n + d.value.1;
    }
    r := Ok((o, n));
  }

  /** The fixed-point loop of phase 2, for any fixed order of the passes. */
  method Phase2Everything(ks: seq<PassKind>, fm: FunctionMap, m: Members) returns (r: Result<Members>)
    requires ValidFunctions(fm)
    ensures exists n: nat :: r == Rounds(ks, fm, m, n)
    ensures r.Ok? ==> forall k | k in ks :: RunPass(k, fm, r.value) == Ok(r.value)
  {
    hide RunPass, RunPasses, ValidFunctions, Advances, Levels, Bounded, Less;
    var o, busy := m, true;
    ghost var n := 0;
    ghost var b := Height(Root(m)) + 2;
    InitiallyBounded(m);
    EveryDescentIsFinite(Levels(m, b));
    ghost var bound: ORDINAL :| Terminates#[bound](Levels(m, b));
    while busy
      invariant Ok(o) == Rounds(ks, fm, m, n)
      invariant Bounded(o, b) && Terminates#[bound](Levels(o, b))
      invariant !busy ==> forall k | k in ks :: RunPass(k, fm, o) == Ok(o)
      decreases bound, busy
    {
      var d := Iteration(ks, fm, o);
      assert Rounds(ks, fm, m, n + 1) == RunPasses(ks, fm, o);
      n := n + 1;
      if d.Err? { return Err(d.error); }
      PassesAdvance(ks, fm, o);
      busy := d.value.1 > 0;
      if busy {
        LevelsDescend(o, d.value.0, b);
        bound := NextBound(bound, Levels(o, b), Levels(d.value.0, b));
      }
      o := d.value.0;
    }
    r := Ok(o);
  }
}
