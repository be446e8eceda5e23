/**
 When additions throw.  Merging two files can throw where writing them into one object does not,
 because an error that stands in the first file may be overwritten in place by the second.
 */
module Clashes {
  import opened Tree
  import opened Additions
  import opened Algebra
  import opened NormalForm
  import opened Parser
  import opened Merging
  import opened Everything
  import Functions
  import Asterisks

  const AdditionsOnly: nat -> PassKind := _ => AddUp

  /** The additions passes on `m` never throw, however many there are. */
  ghost predicate NeverThrows(m: Members) {
    forall i: nat :: Everything.State(AdditionsOnly, map[], m, i).Ok?
  }

  ghost predicate NoneThrows(e: Entry, i: nat) {
    forall j: nat | j < i :: SoundEntry(Passes(e, j))
  }

  lemma AddUpOnce(m: Members)
    ensures RunPass(AddUp, map[], m) == if SoundEntry(Object(m)) then Ok(PassEntry(Object(m)).members) else Err(IncompatibleAddition)
  {
  }

  lemma {:induction false} StateIsPasses(m: Members, i: nat)
    ensures Everything.State(AdditionsOnly, map[], m, i).Ok? <==> NoneThrows(Object(m), i)
    ensures NoneThrows(Object(m), i) ==> Object(Everything.State(AdditionsOnly, map[], m, i).value) == Passes(Object(m), i)
    decreases i
  {
    hide RunPass, SoundEntry, PassEntry, NoneThrows, Functions.CallEntry, Asterisks.ExpandBelow;
    if i > 0 {
      StateIsPasses(m, i - 1);
      OneMorePass(Object(m), i - 1);
      var r := Everything.State(AdditionsOnly, map[], m, i - 1);
      if r.Ok? {
        AddUpOnce(r.value);
        ObjectsStay(map[], r.value);
      }
    } else {
      NothingThrown(Object(m));
    }
  }

  lemma NothingThrown(e: Entry)
    ensures NoneThrows(e, 0)
  {
  }

  lemma OneMorePass(e: Entry, i: nat)
    ensures NoneThrows(e, i + 1) <==> NoneThrows(e, i) && SoundEntry(Passes(e, i))
  {
    hide SoundEntry, Passes;
  }

  ghost predicate AlwaysSound(e: Entry) {
    forall i: nat :: SoundEntry(Passes(e, i))
  }

  lemma NeverMeansAlways(m: Members)
    ensures NeverThrows(m) <==> AlwaysSound(Object(m))
  {
    if NeverThrows(m) {
      forall i: nat ensures SoundEntry(Passes(Object(m), i)) {
        StateIsPasses(m, i + 1);
        OneMorePass(Object(m), i);
      }
      assert AlwaysSound(Object(m));
    }
    if AlwaysSound(Object(m)) {
      forall i: nat ensures Everything.State(AdditionsOnly, map[], m, i).Ok? {
        NoneBefore(Object(m), i);
        StateIsPasses(m, i);
      }
      assert NeverThrows(m);
    }
  }

  lemma NoneBefore(e: Entry, i: nat)
    requires AlwaysSound(e)
    ensures NoneThrows(e, i)
  {
  }

  // ---- Only classes matter -------------------------------------------------------------------

  lemma {:induction false} SoundLoose(c: Concat)
    ensures Sound(LooseTree(c)) <==> Sound(c)
  {
    hide SoundEntry, LooseEntry;
    var d := LooseTree(c);
    forall i | 0 <= i < |c.parts| ensures SoundEntry(d.parts[i]) <==> SoundEntry(c.parts[i]) {
      assert d.parts[i] == LooseEntry(c.parts[i]);
      SoundLooseEntry(c.parts[i]);
    }
    SameClasses(d.parts, c.parts) by { assert forall i | 0 <= i < |c.parts| :: d.parts[i] == LooseEntry(c.parts[i]); }
  }

  lemma {:induction false} SoundLooseEntry(e: Entry)
    ensures SoundEntry(LooseEntry(e)) <==> SoundEntry(e)
  {
    hide Sound, LooseTree;
    match e {
      case Array(_, es) =>
        forall i | 0 <= i < |es| ensures Sound(LooseTree(es[i])) <==> Sound(es[i]) { SoundLoose(es[i]); }
        assert forall i | 0 <= i < |es| :: LooseEntry(e).elements[i] == LooseTree(es[i]);
      case Object(m) =>
        forall n | n in m ensures Sound(LooseTree(m[n])) <==> Sound(m[n]) { SoundLoose(m[n]); }
        assert forall n | n in m :: LooseEntry(e).members[n] == LooseTree(m[n]);
      case Asterisk(c) => SoundLoose(c);
      case _ =>
    }
  }

  lemma {:induction false} SoundEr(c: Concat)
    ensures Sound(Er(c)) <==> Sound(c)
  {
    hide SoundEntry, ErEntry;
    var d := Er(c);
    forall i | 0 <= i < |c.parts| ensures SoundEntry(d.parts[i]) <==> SoundEntry(c.parts[i]) {
      assert d.parts[i] == ErEntry(c.parts[i]);
      SoundErEntry(c.parts[i]);
    }
    SameClasses(d.parts, c.parts) by { assert forall i | 0 <= i < |c.parts| :: d.parts[i] == ErEntry(c.parts[i]); }
  }

  lemma {:induction false} SoundErEntry(e: Entry)
    ensures SoundEntry(ErEntry(e)) <==> SoundEntry(e)
  {
    hide Sound, Er;
    match e {
      case Array(_, es) =>
        forall i | 0 <= i < |es| ensures Sound(Er(es[i])) <==> Sound(es[i]) { SoundEr(es[i]); }
        assert forall i | 0 <= i < |es| :: ErEntry(e).elements[i] == Er(es[i]);
      case Object(m) =>
        forall n | n in m ensures Sound(Er(m[n])) <==> Sound(m[n]) { SoundEr(m[n]); }
        assert forall n | n in m :: ErEntry(e).members[n] == Er(m[n]);
      case Asterisk(c) => SoundEr(c);
      case _ =>
    }
  }

  lemma CollapseClashes(ps: seq<Entry>)
    ensures ClashFree(Collapse(ps)) <==> ClashFree(ps)
  {
    hide ClashFree, Collapse, NothingToAdd, LooseParts;
    var steps := LeftToRight(ps);
    BracketingIsIrrelevant(ps, steps, Collapse(ps));
  }

  lemma NormalClashes(ps: seq<Entry>)
    ensures ClashFree(NormalParts(ps)) <==> ClashFree(ps)
    ensures |NormalParts(ps)| == |Collapse(ps)| && forall i | 0 <= i < |Collapse(ps)| :: NormalParts(ps)[i] == NormalEntry(Collapse(ps)[i])
  {
    hide NormalEntry, Collapse;
    CollapseClashes(ps);
    SameClasses(NormalParts(ps), Collapse(ps));
  }

  // ---- What additions make of a normal tree --------------------------------------------------

  /** The passes reach a tree on which they have nothing more to do. */
  lemma EndsNormal(m: Members)
    requires NeverThrows(m)
    ensures SoundEntry(NormalEntry(Object(m)))
  {
    hide Everything.State, SoundEntry, PassEntry, Passes, NormalEntry, LooseEntry;
    var n := EveryRunSettles(AdditionsOnly, map[], m);
    NeverMeansAlways(m);
    StateIsPasses(m, n);
    StateIsPasses(m, n + 1);
    assert Everything.State(AdditionsOnly, map[], m, n + 1) == Everything.State(AdditionsOnly, map[], m, n);
    var o := Passes(Object(m), n);
    assert PassEntry(o) == o by { NextPass(Object(m), n); }
    PassesKeepNormal(Object(m), n);
    FixedIsNormalEntry(o);
    SoundLooseEntry(o);
  }

  lemma NextPass(e: Entry, n: nat)
    ensures Passes(e, n + 1) == PassEntry(Passes(e, n))
  {
  }

  // ---- Trees that are built in place ---------------------------------------------------------

  predicate IsContainer(e: Entry) {
    e.Array? || e.Object?
  }

  /** The summands of a tree that is built in place, as far as their kinds go. */
  ghost predicate InPlace(ps: seq<Entry>) {
    Tight(ps) && forall i | 0 <= i < |ps| :: NoCall(ps[i])
  }

  predicate NoCall(e: Entry) {
    !IsFunction(e) && !e.Asterisk?
  }

  lemma ContainerClass(a: Entry, b: Entry)
    requires NoCall(a) && NoCall(b)
    ensures SameContainer(a, b) <==> IsContainer(a) && Joinable(a, b)
    ensures Joinable(a, b) ==> IsContainer(a) == IsContainer(b) && NoCall(Join(a, b)) && IsContainer(Join(a, b)) == IsContainer(a)
    ensures Joinable(a, b) ==> forall c :: (SameContainer(Join(a, b), c) <==> SameContainer(b, c)) && (SameContainer(c, Join(a, b)) <==> SameContainer(c, a))
  {
    if Joinable(a, b) { JoinClass(a, b); }
  }

  /** Among them additions leave all containers as they are. */
  lemma {:induction false} CollapseInPlace(ps: seq<Entry>)
    requires InPlace(ps)
    ensures InPlace(Collapse(ps))
    ensures forall i | 0 <= i < |Collapse(ps)| :: IsContainer(Collapse(ps)[i]) ==> Collapse(ps)[i] in ps
    ensures forall i | 0 <= i < |ps| :: IsContainer(ps[i]) ==> ps[i] in Collapse(ps)
    ensures ps != [] && IsContainer(ps[|ps| - 1]) ==> Collapse(ps)[|Collapse(ps)| - 1] == ps[|ps| - 1]
    decreases |ps|
  {
    hide InPlace, Push, SameContainer, IsContainer, NoCall, ClassOf;
    if ps == [] {
      NothingInPlace();
    } else {
      var init, e := ps[..|ps| - 1], ps[|ps| - 1];
      var c := Collapse(init);
      assert ps == init + [e];
      InPlaceFront(ps);
      CollapseInPlace(init);
      PushInPlace(init, c, e);
      assert Collapse(ps) == Push(c, e);
    }
  }

  lemma NothingInPlace()
    ensures InPlace([])
  {
  }

  lemma InPlaceFront(ps: seq<Entry>)
    requires ps != [] && InPlace(ps)
    ensures InPlace(ps[..|ps| - 1]) && NoCall(ps[|ps| - 1])
    ensures |ps| > 1 ==> !SameContainer(ps[|ps| - 2], ps[|ps| - 1])
  {
    hide SameContainer, NoCall;
    var init := ps[..|ps| - 1];
    forall i | 0 < i < |init| ensures !SameContainer(init[i - 1], init[i]) { assert !SameContainer(ps[i - 1], ps[i]); }
  }

  lemma PushInPlace(init: seq<Entry>, c: seq<Entry>, e: Entry)
    requires InPlace(init) && InPlace(c) && NoCall(e) && (init == [] <==> c == [])
    requires init != [] ==> ClassOf(c[|c| - 1]) == ClassOf(init[|init| - 1]) && !SameContainer(init[|init| - 1], e)
    ensures InPlace(Push(c, e)) && (IsContainer(e) ==> Push(c, e) == c + [e])
    ensures forall x :: IsContainer(x) ==> (x in Push(c, e) <==> x in c || x == e)
  {
    hide Join;
    if c != [] && Joinable(c[|c| - 1], e) {
      var l := c[|c| - 1];
      ContainerClass(l, e);
      KindOfClass(l, init[|init| - 1]);
      assert !IsContainer(l) && !IsContainer(e);
      var r := Push(c, e);
      assert r == c[..|c| - 1] + [Join(l, e)] && c == c[..|c| - 1] + [l];
    } else if c != [] {
      KindOfClass(c[|c| - 1], init[|init| - 1]);
    }
  }

  lemma KindOfClass(a: Entry, b: Entry)
    requires NoCall(a) && NoCall(b) && ClassOf(a) == ClassOf(b)
    ensures a.Object? == b.Object? && a.Array? == b.Array?
  {
  }

  lemma OrdinaryInPlace(c: Concat)
    requires Ordinary(c)
    ensures InPlace(c.parts)
  {
    assert forall i | 0 <= i < |c.parts| :: OrdinaryEntry(c.parts[i]);
  }

  lemma PlainIsSound(e: Entry)
    requires NoCall(e) && !IsContainer(e)
    ensures SoundEntry(e) && SoundEntry(NormalEntry(e)) && OrdinaryEntry(e) && PassEntry(e) == e
  {
  }

  /** In such a tree nothing is overwritten: it throws exactly when its normal form does. */
  lemma {:induction false} InPlaceNormal(c: Concat)
    requires Ordinary(c)
    ensures Sound(Normal(c)) <==> Sound(c)
    decreases c
  {
    hide NormalParts, NormalEntry, SoundEntry, OrdinaryEntry, Collapse, ClashFree, IsContainer, NoCall;
    var ps, r := c.parts, Collapse(c.parts);
    OrdinaryInPlace(c);
    CollapseInPlace(ps);
    NormalClashes(ps);
    forall i | 0 <= i < |ps| && IsContainer(ps[i]) ensures SoundEntry(NormalEntry(ps[i])) <==> SoundEntry(ps[i]) { InPlaceNormalEntry(ps[i]); }
    forall i | 0 <= i < |ps| && !IsContainer(ps[i]) ensures SoundEntry(ps[i]) { PlainIsSound(ps[i]); }
    forall i | 0 <= i < |r| && !IsContainer(r[i]) ensures SoundEntry(NormalEntry(r[i])) { PlainIsSound(r[i]); }
    if Sound(Normal(c)) {
      forall i | 0 <= i < |ps| ensures SoundEntry(ps[i]) {
        if IsContainer(ps[i]) { var j :| 0 <= j < |r| && r[j] == ps[i]; assert SoundEntry(Normal(c).parts[j]); }
      }
    }
    if Sound(c) {
      forall j | 0 <= j < |r| ensures SoundEntry(NormalParts(ps)[j]) {
        if IsContainer(r[j]) { var i :| 0 <= i < |ps| && ps[i] == r[j]; }
      }
    }
  }

  lemma {:induction false} InPlaceNormalEntry(e: Entry)
    requires OrdinaryEntry(e)
    ensures SoundEntry(NormalEntry(e)) <==> SoundEntry(e)
    decreases e
  {
    hide Normal, Sound, Ordinary;
    match e {
      case Array(_, es) =>
        forall i | 0 <= i < |es| ensures Sound(Normal(es[i])) <==> Sound(es[i]) { InPlaceNormal(es[i]); }
        assert forall i | 0 <= i < |es| :: NormalEntry(e).elements[i] == Normal(es[i]);
      case Object(m) =>
        forall n | n in m ensures Sound(Normal(m[n])) <==> Sound(m[n]) { InPlaceNormal(m[n]); }
        assert forall n | n in m :: NormalEntry(e).members[n] == Normal(m[n]);
      case _ =>
    }
  }

  /** A pass keeps such a tree such a tree, and free of errors. */
  lemma {:induction false} InPlacePass(c: Concat)
    requires Ordinary(c)
    ensures Ordinary(Pass(c)) && (Sound(c) ==> Sound(Pass(c)))
    decreases c
  {
    hide PassEntry, SoundEntry, OrdinaryEntry, Collapse, ClashFree, IsContainer, NoCall, Tight;
    var qs := seq(|c.parts|, i requires 0 <= i < |c.parts| => PassEntry(c.parts[i]));
    forall i | 0 <= i < |qs| ensures OrdinaryEntry(qs[i]) && (Sound(c) ==> SoundEntry(qs[i])) { InPlacePassEntry(c.parts[i]); }
    PassedInPlace(c, qs);
    CollapseInPlace(qs);
    CollapseClashes(qs);
    SameClasses(qs, c.parts);
    var r := Collapse(qs);
    assert Pass(c).parts == r;
    forall i | 0 <= i < |r| ensures OrdinaryEntry(r[i]) && (Sound(c) ==> SoundEntry(r[i])) {
      if IsContainer(r[i]) { var j :| 0 <= j < |qs| && qs[j] == r[i]; } else { PlainIsSound(r[i]); }
    }
  }

  lemma PassedInPlace(c: Concat, qs: seq<Entry>)
    requires Ordinary(c) && |qs| == |c.parts| && forall i | 0 <= i < |qs| :: qs[i] == PassEntry(c.parts[i])
    ensures InPlace(qs)
  {
    hide PassEntry;
    OrdinaryInPlace(c);
    forall i | 0 <= i < |qs| ensures NoCall(qs[i]) && qs[i].Object? == c.parts[i].Object? && qs[i].Array? == c.parts[i].Array? { PassKind(c.parts[i]); }
    forall i | 0 < i < |qs| ensures !SameContainer(qs[i - 1], qs[i]) { assert !SameContainer(c.parts[i - 1], c.parts[i]); }
  }

  lemma PassKind(e: Entry)
    ensures PassEntry(e).Object? == e.Object? && PassEntry(e).Array? == e.Array? && (NoCall(e) ==> NoCall(PassEntry(e)))
  {
  }

  lemma {:induction false} InPlacePassEntry(e: Entry)
    requires OrdinaryEntry(e)
    ensures OrdinaryEntry(PassEntry(e)) && (SoundEntry(e) ==> SoundEntry(PassEntry(e)))
    decreases e
  {
    hide Pass, Sound, Ordinary;
    match e {
      case Array(_, es) =>
        forall i | 0 <= i < |es| ensures Ordinary(Pass(es[i])) && (Sound(es[i]) ==> Sound(Pass(es[i]))) { InPlacePass(es[i]); }
      case Object(m) =>
        forall n | n in m ensures Ordinary(Pass(m[n])) && (Sound(m[n]) ==> Sound(Pass(m[n]))) { InPlacePass(m[n]); }
        forall n | n in m ensures !Pass(m[n]).temporary { assert Pass(m[n]).temporary == m[n].temporary by { PassFlags(m[n]); } }
      case _ =>
    }
  }

  lemma PassFlags(c: Concat)
    ensures Pass(c).temporary == c.temporary
  {
  }

  /** On a file that is built in place the passes never throw exactly when the first one does not. */
  lemma InPlaceThrowsAtOnce(m: Members)
    requires OrdinaryEntry(Object(m))
    ensures NeverThrows(m) <==> SoundEntry(Object(m))
    ensures NeverThrows(m) <==> SoundEntry(NormalEntry(Object(m)))
  {
    hide OrdinaryEntry, SoundEntry, NeverThrows, NormalEntry;
    NeverMeansAlways(m);
    assert Passes(Object(m), 0) == Object(m);
    if SoundEntry(Object(m)) {
      forall i: nat ensures SoundEntry(Passes(Object(m), i)) { PassesInPlace(Object(m), i); }
    }
    InPlaceNormalEntry(Object(m));
  }

  lemma {:induction false} PassesInPlace(e: Entry, i: nat)
    requires OrdinaryEntry(e) && SoundEntry(e)
    ensures OrdinaryEntry(Passes(e, i)) && SoundEntry(Passes(e, i))
  {
    hide OrdinaryEntry, SoundEntry, PassEntry;
    if i > 0 {
      PassesInPlace(e, i - 1);
      InPlacePassEntry(Passes(e, i - 1));
    }
  }

  // ---- One seam in every list ----------------------------------------------------------------

  /** Nothing in the summand throws, and nothing in it can meet. */
  ghost predicate Calm(e: Entry) {
    OrdinaryEntry(e) && SoundEntry(e)
  }

  /** Containers that can be added stand in pairs, are calm, and occur nowhere within each other. */
  ghost predicate Seams(ps: seq<Entry>) {
    forall i | 0 < i < |ps| && SameContainer(ps[i - 1], ps[i]) ::
      Calm(ps[i - 1]) && Calm(ps[i]) && !(i + 1 < |ps| && SameContainer(ps[i], ps[i + 1]))
  }

  ghost predicate Seamed(c: Concat) {
    Seams(c.parts) && forall i | 0 <= i < |c.parts| :: SeamedEntry(c.parts[i])
  }

  ghost predicate SeamedEntry(e: Entry) {
    match e
    case Array(f, es) => f == "" && forall i | 0 <= i < |es| :: Seamed(es[i])
    case Object(m) => forall n | n in m :: Seamed(m[n])
    case Asterisk(_) => false
    case _ => true
  }

  lemma {:induction false} OrdinaryIsSeamed(c: Concat)
    requires Ordinary(c)
    ensures Seamed(c)
  {
    hide OrdinaryEntry, SeamedEntry, Calm;
    forall i | 0 <= i < |c.parts| ensures SeamedEntry(c.parts[i]) { OrdinaryIsSeamedEntry(c.parts[i]); }
  }

  lemma {:induction false} OrdinaryIsSeamedEntry(e: Entry)
    requires OrdinaryEntry(e)
    ensures SeamedEntry(e)
  {
    hide Ordinary, Seamed;
    match e {
      case Array(_, es) => forall i | 0 <= i < |es| ensures Seamed(es[i]) { OrdinaryIsSeamed(es[i]); }
      case Object(m) => forall n | n in m ensures Seamed(m[n]) { OrdinaryIsSeamed(m[n]); }
      case _ =>
    }
  }

  /** Two calm concats one on top of the other. */
  lemma StackSeamed(x: Concat, y: Concat)
    requires Ordinary(x) && Ordinary(y) && Sound(x) && Sound(y)
    ensures Seamed(Stack(x, y))
  {
    hide OrdinaryEntry, SeamedEntry, SoundEntry, SameContainer;
    if y.remove {
      OrdinaryIsSeamed(y);
    } else {
      var ps, l := x.parts + y.parts, |x.parts|;
      forall i | 0 <= i < |ps| ensures SeamedEntry(ps[i]) && Calm(ps[i]) {
        assert ps[i] == if i < l then x.parts[i] else y.parts[i - l];
        OrdinaryIsSeamedEntry(ps[i]);
      }
      forall i | 0 < i < |ps| && i != l ensures !SameContainer(ps[i - 1], ps[i]) {
        if i < l { assert !SameContainer(x.parts[i - 1], x.parts[i]); } else { assert !SameContainer(y.parts[i - l - 1], y.parts[i - l]); }
      }
      assert Seams(ps);
    }
  }

  lemma JoinSeamed(a: Entry, b: Entry)
    requires Calm(a) && Calm(b) && SameContainer(a, b)
    ensures Joinable(a, b) && SeamedEntry(Join(a, b))
  {
    hide Ordinary, Sound, Seamed;
    if a.Object? {
      var m, o := a.members, b.members;
      JoinedObjects(m, o);
      forall n | n in Merge(m, o) ensures Seamed(Merge(m, o)[n]) { MergedIsSeamed(m, o, n); }
    } else {
      JoinedArrays(a.elements, b.elements);
      forall i | 0 <= i < |a.elements + b.elements| ensures Seamed((a.elements + b.elements)[i]) {
        if i < |a.elements| { OrdinaryIsSeamed(a.elements[i]); } else { OrdinaryIsSeamed(b.elements[i - |a.elements|]); }
      }
    }
  }

  lemma MergedIsSeamed(m: Members, o: Members, n: string)
    requires n in Merge(m, o)
    requires n in m ==> Ordinary(m[n]) && (n in o && !o[n].remove ==> Sound(m[n]))
    requires n in o ==> Ordinary(o[n]) && (n in m && !o[n].remove ==> Sound(o[n]))
    ensures Seamed(Merge(m, o)[n])
  {
    hide Ordinary, Sound, Seamed;
    if n in m && n in o {
      if o[n].remove { OrdinaryIsSeamed(o[n]); assert Stack(m[n], o[n]) == o[n]; } else { StackSeamed(m[n], o[n]); }
    } else if n in m {
      OrdinaryIsSeamed(m[n]);
    } else {
      OrdinaryIsSeamed(o[n]);
    }
  }

  ghost predicate SeamedParts(ps: seq<Entry>) {
    Seams(ps) && forall i | 0 <= i < |ps| :: SeamedEntry(ps[i])
  }

  /** The last summand of a sum is the last of the list, if that is a container without a partner. */
  ghost predicate LonelyLast(ps: seq<Entry>) {
    ps != [] && IsContainer(ps[|ps| - 1]) && (|ps| > 1 ==> !SameContainer(ps[|ps| - 2], ps[|ps| - 1]))
  }

  lemma SeamsFront(ps: seq<Entry>)
    requires ps != [] && SeamedParts(ps)
    ensures SeamedParts(ps[..|ps| - 1]) && SeamedEntry(ps[|ps| - 1]) && (|ps| > 1 ==> SeamedEntry(ps[|ps| - 2]))
    ensures |ps| > 1 && SameContainer(ps[|ps| - 2], ps[|ps| - 1]) ==>
      Calm(ps[|ps| - 2]) && Calm(ps[|ps| - 1]) && LonelyLast(ps[..|ps| - 1])
  {
    hide SeamedEntry, Calm, SameContainer, Seams;
    var l := |ps| - 1;
    FrontSeams(ps);
    if |ps| > 1 && SameContainer(ps[l - 1], ps[l]) {
      ContainersPair(ps[l - 1], ps[l]);
      SeamAt(ps, l);
      if |ps| > 2 && SameContainer(ps[l - 2], ps[l - 1]) { SeamAt(ps, l - 1); }
    }
  }

  /** What the seam in front of the summand `i` may be like. */
  lemma SeamAt(ps: seq<Entry>, i: nat)
    requires Seams(ps) && 0 < i < |ps| && SameContainer(ps[i - 1], ps[i])
    ensures Calm(ps[i - 1]) && Calm(ps[i]) && !(i + 1 < |ps| && SameContainer(ps[i], ps[i + 1]))
  {
    hide Calm, SameContainer;
  }

  lemma FrontSeams(ps: seq<Entry>)
    requires ps != [] && Seams(ps)
    ensures Seams(ps[..|ps| - 1])
  {
    hide Calm, SameContainer;
    var init := ps[..|ps| - 1];
    forall i | 0 < i < |init| && SameContainer(init[i - 1], init[i])
      ensures Calm(init[i - 1]) && Calm(init[i]) && !(i + 1 < |init| && SameContainer(init[i], init[i + 1]))
    {
      assert SameContainer(ps[i - 1], ps[i]);
    }
  }

  lemma ContainersPair(a: Entry, b: Entry)
    requires SameContainer(a, b)
    ensures IsContainer(a) && IsContainer(b)
  {
  }

  /** The pairs are added up, and nothing else among the containers. */
  lemma {:induction false} CollapseSeamed(ps: seq<Entry>)
    requires SeamedParts(ps)
    ensures SeamedParts(Collapse(ps)) && InPlace(Collapse(ps))
    ensures LonelyLast(ps) ==> Collapse(ps)[|Collapse(ps)| - 1] == ps[|ps| - 1]
    decreases |ps|
  {
    hide SeamedEntry, SeamedParts, InPlace, Calm, SameContainer, Push, NoCall, IsContainer, ClassOf;
    if ps == [] {
      NothingSeamed();
    } else {
      var init, e := ps[..|ps| - 1], ps[|ps| - 1];
      var c := Collapse(init);
      SeamsFront(ps);
      CollapseSeamed(init);
      assert |ps| > 1 ==> init[|init| - 1] == ps[|ps| - 2];
      assert ps != [] ==> Collapse(ps) == Push(c, e);
      PushSeamed(init, c, e);
    }
  }

  lemma NothingSeamed()
    ensures SeamedParts([]) && InPlace([])
  {
  }

  lemma SeamedKind(e: Entry)
    requires SeamedEntry(e)
    ensures NoCall(e)
  {
  }

  lemma PushSeamed(init: seq<Entry>, c: seq<Entry>, e: Entry)
    requires SeamedParts(c) && InPlace(c) && SeamedEntry(e) && (init == [] <==> c == [])
    requires init != [] ==> ClassOf(c[|c| - 1]) == ClassOf(init[|init| - 1]) && SeamedEntry(init[|init| - 1])
    requires init != [] && SameContainer(init[|init| - 1], e) ==> c[|c| - 1] == init[|init| - 1] && Calm(c[|c| - 1]) && Calm(e)
    ensures SeamedParts(Push(c, e)) && InPlace(Push(c, e))
    ensures IsContainer(e) && (init != [] ==> !SameContainer(init[|init| - 1], e)) ==> Push(c, e) == c + [e]
  {
    hide SeamedEntry, Calm, Join, Joinable, NoCall, IsContainer, SameContainer;
    SeamedKind(e);
    if c == [] {
      TightOne(e);
    } else {
      var l, k := c[|c| - 1], init[|init| - 1];
      assert SeamedEntry(l);
      SeamedKind(l);
      SeamedKind(k);
      SameKinds(l, k, e);
      ContainerClass(l, e);
      if Joinable(l, e) {
        if SameContainer(l, e) { JoinSeamed(l, e); } else { JoinedAtoms(l, e); }
        ReplacedEnd(c, Join(l, e));
      } else {
        AppendedEnd(c, e);
      }
    }
  }

  lemma TightOne(e: Entry)
    requires SeamedEntry(e) && NoCall(e)
    ensures SeamedParts([] + [e]) && InPlace([] + [e])
  {
    hide SeamedEntry, NoCall;
  }

  lemma SameKinds(l: Entry, k: Entry, e: Entry)
    requires NoCall(l) && NoCall(k) && ClassOf(l) == ClassOf(k)
    ensures SameContainer(l, e) <==> SameContainer(k, e)
  {
    KindOfClass(l, k);
  }

  lemma JoinedAtoms(a: Entry, b: Entry)
    requires Joinable(a, b) && NoCall(a) && NoCall(b) && !SameContainer(a, b)
    ensures SeamedEntry(Join(a, b))
  {
    JoinClass(a, b);
  }

  lemma ReplacedEnd(c: seq<Entry>, e: Entry)
    requires SeamedParts(c) && InPlace(c) && c != [] && SeamedEntry(e) && NoCall(e)
    requires forall x :: SameContainer(x, e) <==> SameContainer(x, c[|c| - 1])
    ensures SeamedParts(c[..|c| - 1] + [e]) && InPlace(c[..|c| - 1] + [e])
  {
    hide SeamedEntry, NoCall, SameContainer, Calm;
    var r := c[..|c| - 1] + [e];
    forall i | 0 < i < |r| ensures !SameContainer(r[i - 1], r[i]) { assert !SameContainer(c[i - 1], c[i]); }
  }

  lemma AppendedEnd(c: seq<Entry>, e: Entry)
    requires SeamedParts(c) && InPlace(c) && SeamedEntry(e) && NoCall(e)
    requires c != [] ==> !SameContainer(c[|c| - 1], e)
    ensures SeamedParts(c + [e]) && InPlace(c + [e])
  {
    hide SeamedEntry, NoCall, SameContainer, Calm;
    var r := c + [e];
    forall i | 0 < i < |r| ensures !SameContainer(r[i - 1], r[i]) { if i < |c| { assert !SameContainer(c[i - 1], c[i]); } }
  }

  /** A pass adds up the pairs, and the members of the objects among them form pairs again. */
  lemma {:induction false} SeamedPass(c: Concat)
    requires Seamed(c)
    ensures Seamed(Pass(c))
    decreases c
  {
    hide SeamedEntry, Calm, PassEntry, Collapse, SameContainer;
    var qs := seq(|c.parts|, i requires 0 <= i < |c.parts| => PassEntry(c.parts[i]));
    forall i | 0 <= i < |qs| ensures SeamedEntry(qs[i]) && (Calm(c.parts[i]) ==> Calm(qs[i])) {
      SeamedPassEntry(c.parts[i]);
      if Calm(c.parts[i]) { CalmPass(c.parts[i]); }
    }
    forall i | 0 < i < |qs| ensures SameContainer(qs[i - 1], qs[i]) <==> SameContainer(c.parts[i - 1], c.parts[i]) {
      SamePairs(c.parts[i - 1], c.parts[i]);
    }
    assert Seams(qs);
    CollapseSeamed(qs);
  }

  lemma CalmPass(e: Entry)
    requires Calm(e)
    ensures Calm(PassEntry(e))
  {
    InPlacePassEntry(e);
  }

  lemma SamePairs(a: Entry, b: Entry)
    ensures SameContainer(PassEntry(a), PassEntry(b)) <==> SameContainer(a, b)
  {
    PassKind(a);
    PassKind(b);
  }

  lemma {:induction false} SeamedPassEntry(e: Entry)
    requires SeamedEntry(e)
    ensures SeamedEntry(PassEntry(e))
    decreases e
  {
    hide Pass, Seamed;
    match e {
      case Array(_, es) => forall i | 0 <= i < |es| ensures Seamed(Pass(es[i])) { SeamedPass(es[i]); }
      case Object(m) => forall n | n in m ensures Seamed(Pass(m[n])) { SeamedPass(m[n]); }
      case _ =>
    }
  }

  /** A container without partners is still there when everything is added up. */
  lemma {:induction false} LonelySurvives(ps: seq<Entry>, i: nat)
    requires i < |ps| && IsContainer(ps[i]) && forall j | 0 <= j < |ps| :: NoCall(ps[j])
    requires (i > 0 ==> !SameContainer(ps[i - 1], ps[i])) && (i + 1 < |ps| ==> !SameContainer(ps[i], ps[i + 1]))
    ensures Collapse(ps) != []
    ensures i == |ps| - 1 ==> Collapse(ps)[|Collapse(ps)| - 1] == ps[i]
    ensures i < |ps| - 1 ==> ps[i] in Collapse(ps)[..|Collapse(ps)| - 1]
    decreases |ps|
  {
    hide Join, Joinable, SameContainer, IsContainer, NoCall, ClassOf, Push, Collapse;
    var init, e := ps[..|ps| - 1], ps[|ps| - 1];
    var c := Collapse(init);
    CollapseLast(init, e);
    assert ps == init + [e];
    if i < |ps| - 1 { LonelySurvives(init, i); }
    if init == [] {
      NothingCollapsed();
    } else {
      assert c != [] && ClassOf(c[|c| - 1]) == ClassOf(init[|init| - 1]);
      CollapseCalls(init);
      NotJoined(c[|c| - 1], init[|init| - 1], e);
    }
    PushKeeps(c, e, ps[i]);
  }

  lemma NothingCollapsed()
    ensures Collapse([]) == []
  {
  }

  lemma NotJoined(l: Entry, k: Entry, e: Entry)
    requires NoCall(l) && NoCall(k) && NoCall(e) && ClassOf(l) == ClassOf(k)
    ensures !SameContainer(k, e) && (IsContainer(k) || IsContainer(e)) ==> !Joinable(l, e)
  {
    KindOfClass(l, k);
    ContainerClass(l, e);
  }

  lemma {:induction false} CollapseCalls(ps: seq<Entry>)
    requires forall j | 0 <= j < |ps| :: NoCall(ps[j])
    ensures forall j | 0 <= j < |Collapse(ps)| :: NoCall(Collapse(ps)[j])
    decreases |ps|
  {
    hide NoCall, Join, Joinable;
    if ps != [] {
      var init, e := ps[..|ps| - 1], ps[|ps| - 1];
      CollapseCalls(init);
      var c := Collapse(init);
      if c != [] && Joinable(c[|c| - 1], e) { ContainerClass(c[|c| - 1], e); }
    }
  }

  lemma PushKeeps(c: seq<Entry>, e: Entry, x: Entry)
    ensures c == [] || !Joinable(c[|c| - 1], e) ==> Push(c, e) == c + [e] && Push(c, e)[..|Push(c, e)| - 1] == c
    ensures c != [] && Joinable(c[|c| - 1], e) ==> Push(c, e)[..|Push(c, e)| - 1] == c[..|c| - 1]
    ensures x in c[..if c == [] then 0 else |c| - 1] ==> x in c
  {
    hide Join, Joinable;
  }

  /** What its normal form and its calm pairs promise, the tree keeps. */
  lemma {:induction false} SeamedSound(c: Concat)
    requires Seamed(c) && Sound(Normal(c))
    ensures Sound(c)
    decreases c
  {
    hide SeamedEntry, SoundEntry, NormalParts, NormalEntry, Collapse, ClashFree, SameContainer, IsContainer, NoCall, OrdinaryEntry;
    var ps, r := c.parts, Collapse(c.parts);
    NormalClashes(ps);
    forall j | 0 <= j < |ps| ensures NoCall(ps[j]) { SeamedKind(ps[j]); }
    forall i | 0 <= i < |ps| ensures SoundEntry(ps[i]) {
      if !IsContainer(ps[i]) {
        PlainIsSound(ps[i]);
      } else if i > 0 && SameContainer(ps[i - 1], ps[i]) {
        assert Calm(ps[i]);
      } else if i + 1 < |ps| && SameContainer(ps[i], ps[i + 1]) {
        assert Calm(ps[i + 1 - 1]);
      } else {
        LonelySurvives(ps, i);
        assert ps[i] in r;
        var j :| 0 <= j < |r| && r[j] == ps[i];
        assert SoundEntry(Normal(c).parts[j]);
        SeamedSoundEntry(ps[i]);
      }
    }
  }

  lemma {:induction false} SeamedSoundEntry(e: Entry)
    requires SeamedEntry(e) && SoundEntry(NormalEntry(e))
    ensures SoundEntry(e)
    decreases e
  {
    hide Normal, Sound, Seamed;
    match e {
      case Array(_, es) =>
        forall i | 0 <= i < |es| ensures Sound(es[i]) { assert NormalEntry(e).elements[i] == Normal(es[i]); SeamedSound(es[i]); }
      case Object(m) =>
        forall n | n in m ensures Sound(m[n]) { assert NormalEntry(e).members[n] == Normal(m[n]); SeamedSound(m[n]); }
      case _ =>
    }
  }

  lemma {:induction false} PassesSeamed(e: Entry, i: nat)
    requires SeamedEntry(e)
    ensures SeamedEntry(Passes(e, i))
  {
    hide SeamedEntry, PassEntry;
    if i > 0 {
      PassesSeamed(e, i - 1);
      SeamedPassEntry(Passes(e, i - 1));
    }
  }

  // ---- Merged files and files written on -----------------------------------------------------

  /** The members that the second file adds to, in both files, do not throw by themselves. */
  ghost predicate SharedAreSound(m: Members, o: Members) {
    forall n | n in m && n in o && !o[n].remove :: Sound(m[n]) && Sound(o[n])
  }

  lemma MergeThrows(m: Members, o: Members)
    requires OrdinaryEntry(Object(m)) && OrdinaryEntry(Object(o))
    ensures NeverThrows(Merge(m, o)) <==> SoundEntry(NormalEntry(Object(Merge(m, o)))) && SharedAreSound(m, o)
  {
    hide NeverThrows, SoundEntry, NormalEntry, Passes, SeamedEntry, OrdinaryEntry;
    var e := Object(Merge(m, o));
    if NeverThrows(Merge(m, o)) {
      EndsNormal(Merge(m, o));
      NeverMeansAlways(Merge(m, o));
      NoPass(e);
      PartsThrow(m, o);
    }
    if SoundEntry(NormalEntry(e)) && SharedAreSound(m, o) {
      MembersSeamed(m, o);
      forall i: nat ensures SoundEntry(Passes(e, i)) {
        PassesSeamed(e, i);
        PassesKeepNormal(e, i);
        SeamedSoundEntry(Passes(e, i));
      }
      NeverMeansAlways(Merge(m, o));
    }
  }

  lemma NoPass(e: Entry)
    ensures Passes(e, 0) == e
  {
  }

  lemma MembersSeamed(m: Members, o: Members)
    requires OrdinaryEntry(Object(m)) && OrdinaryEntry(Object(o)) && SharedAreSound(m, o)
    ensures SeamedEntry(Object(Merge(m, o)))
  {
    hide Ordinary, Sound, Seamed;
    forall n | n in Merge(m, o) ensures Seamed(Merge(m, o)[n]) { MergedIsSeamed(m, o, n); }
  }

  lemma PartsThrow(m: Members, o: Members)
    requires SoundEntry(Object(Merge(m, o)))
    ensures SharedAreSound(m, o)
  {
    hide Sound;
    forall n | n in m && n in o && !o[n].remove ensures Sound(m[n]) && Sound(o[n]) {
      assert Sound(Merge(m, o)[n]) && Merge(m, o)[n] == Stack(m[n], o[n]);
      HalvesSound(m[n], o[n]);
    }
  }

  lemma HalvesSound(x: Concat, y: Concat)
    requires !y.remove && Sound(Stack(x, y))
    ensures Sound(x) && Sound(y)
  {
    hide SoundEntry;
    var ps := x.parts + y.parts;
    forall i | 0 <= i < |x.parts| ensures SoundEntry(x.parts[i]) { assert ps[i] == x.parts[i]; }
    forall i | 0 <= i < |y.parts| ensures SoundEntry(y.parts[i]) { assert ps[|x.parts| + i] == y.parts[i]; }
    forall i | 0 < i < |x.parts| ensures !Clash(x.parts[i - 1], x.parts[i]) { assert !Clash(ps[i - 1], ps[i]); }
    forall i | 0 < i < |y.parts| ensures !Clash(y.parts[i - 1], y.parts[i]) { assert !Clash(ps[|x.parts| + i - 1], ps[|x.parts| + i]); }
  }

  /**
   The additions never throw on the merged object of two files exactly when they never throw on the
   file written in place and nothing that throws by itself stands in a member that the second file
   adds to.  In particular writing on throws only if merging does.
   */
  lemma WritingOnThrowsLess(ms: seq<MemberDef>, ns: seq<MemberDef>, g: nat, h: nat, i: nat)
    requires SimpleMembers(ms) && SimpleMembers(ns)
    ensures SimpleMembers(ms + ns)
    ensures NeverThrows(Merge(Built(ms, h), Built(ns, i))) <==>
      NeverThrows(Built(ms + ns, g)) && SharedAreSound(Built(ms, h), Built(ns, i))
  {
    hide NeverThrows, SoundEntry, NormalEntry, Merge, Built, ErEntry, SharedAreSound, OrdinaryEntry, SimpleMembers;
    WritingOnIsMerging(ms, ns, g, h, i);
    var o, p, q := Built(ms + ns, g), Built(ms, h), Built(ns, i);
    BuiltIsOrdinary(ms, h);
    BuiltIsOrdinary(ns, i);
    BuiltIsOrdinary(ms + ns, g);
    MergeThrows(p, q);
    InPlaceThrowsAtOnce(o);
    ErNormalEntry(Object(o));
    ErNormalEntry(Object(Merge(p, q)));
    SoundErEntry(NormalEntry(Object(o)));
    SoundErEntry(NormalEntry(Object(Merge(p, q))));
  }

  lemma BuiltIsOrdinary(ms: seq<MemberDef>, g: nat)
    requires SimpleMembers(ms)
    ensures OrdinaryEntry(Object(Built(ms, g)))
  {
    hide OrdinaryEntry;
    assert Merged(map[], Built(ms, g), DenMembers(ms));
  }
}
