/** What a sum is: every run of summands of one kind becomes one summand, from first to last. */
module Totals {
  import opened Tree
  import opened Additions
  import opened Algebra
  import opened Stars
  import opened Phase1

  // ---- Which summands can be added -----------------------------------------------------------

  /** Both are texts, both are integers, and so on; only such summands can be added. */
  predicate SameKind(l: Entry, r: Entry) {
    || (l.Text? && r.Text?)
    || (l.Binary? && r.Binary?)
    || (IsNumber(l) && IsNumber(r))
    || (l.Double? && r.Double?)
    || (l.Array? && r.Array? && l.call == "" && r.call == "")
    || (l.Object? && r.Object?)
  }

  /** `null` and booleans cannot be added to anything. */
  predicate Unaddable(e: Entry) {
    e.Null? || e.Boolean?
  }

  /**
   Two neighbours throw exactly when the right one is null or a boolean, or when both are ready and
   not of the same kind; they are added exactly when they are of the same kind.
   */
  lemma NeighboursByKind(l: Entry, r: Entry)
    ensures Joinable(l, r) <==> SameKind(l, r)
    ensures Clash(l, r) <==> Unaddable(r) || (!Pending(l) && !Pending(r) && !SameKind(l, r))
  {
  }

  /** A non-empty run of summands of one kind. */
  predicate Run(ps: seq<Entry>) {
    ps != [] && (forall i | 0 < i < |ps| :: SameKind(ps[0], ps[i])) && SameKind(ps[0], ps[0])
  }

  /** Two or more ready summands throw unless they are all of one kind. */
  lemma {:induction false} ReadySummandsThrow(ps: seq<Entry>)
    requires forall i | 0 <= i < |ps| :: !Pending(ps[i])
    ensures ClashFree(ps) <==> |ps| <= 1 || Run(ps)
    decreases |ps|
  {
    hide SameKind, Clash, Pending;
    if |ps| > 1 {
      var init, l, e := ps[..|ps| - 1], ps[|ps| - 2], ps[|ps| - 1];
      assert ps == init + [e] && init[|init| - 1] == l;
      ReadySummandsThrow(init);
      NeighboursByKind(l, e);
      OneMoreClash(init, e);
      RunNext(init, e);
      LastOfRun(init);
      Kinds(init[0], l, e);
    }
  }

  lemma OneMoreClash(ps: seq<Entry>, e: Entry)
    requires ps != []
    ensures ClashFree(ps + [e]) <==> ClashFree(ps) && !Clash(ps[|ps| - 1], e)
  {
    hide Clash;
    var qs := ps + [e];
    assert forall i | 0 <= i < |ps| :: qs[i] == ps[i];
    if ClashFree(qs) {
      assert !Clash(qs[|ps| - 1], qs[|ps|]);
      forall i | 0 < i < |ps| ensures !Clash(ps[i - 1], ps[i]) { assert !Clash(qs[i - 1], qs[i]); }
    }
  }

  lemma RunNext(ps: seq<Entry>, e: Entry)
    requires ps != []
    ensures Run(ps + [e]) <==> (|ps| == 1 || Run(ps)) && SameKind(ps[0], e)
  {
    hide SameKind;
    var qs := ps + [e];
    Kinds(ps[0], e, e);
    assert qs[|ps|] == e && forall i | 0 <= i < |ps| :: qs[i] == ps[i];
    if Run(qs) {
      assert SameKind(qs[0], qs[|ps|]);
      forall i | 0 < i < |ps| ensures SameKind(ps[0], ps[i]) { assert SameKind(qs[0], qs[i]); }
    }
  }

  lemma LastOfRun(ps: seq<Entry>)
    requires ps != []
    ensures Run(ps) ==> SameKind(ps[0], ps[|ps| - 1])
  {
    hide SameKind;
  }

  lemma Kinds(a: Entry, b: Entry, c: Entry)
    ensures SameKind(a, b) && SameKind(b, c) ==> SameKind(a, c)
    ensures SameKind(a, b) && SameKind(a, c) ==> SameKind(b, c)
    ensures SameKind(a, b) ==> SameKind(a, a) && SameKind(b, b)
    ensures SameKind(b, b) ==> !Unaddable(b)
  {
  }

  // ---- The sums of runs, each by a recursion of its own --------------------------------------

  function Chars(ps: seq<Entry>): string {
    if ps == [] then "" else (if ps[0].Text? then ps[0].chars else "") + Chars(ps[1..])
  }

  function Octets(ps: seq<Entry>): seq<bv8> {
    if ps == [] then [] else (if ps[0].Binary? then ps[0].bytes else []) + Octets(ps[1..])
  }

  function Elements(ps: seq<Entry>): seq<Concat> {
    if ps == [] then [] else (if ps[0].Array? then ps[0].elements else []) + Elements(ps[1..])
  }

  function Count(ps: seq<Entry>): int {
    if ps == [] then 0 else (if IsNumber(ps[0]) then NumberOf(ps[0]) else 0) + Count(ps[1..])
  }

  function Doubles(ps: seq<Entry>): seq<int> {
    if ps == [] then [] else (if ps[0].Double? then Leaves(ps[0].d) else []) + Doubles(ps[1..])
  }

  /** The integer of 64 bits that is equal to `x` modulo 2^64. */
  predicate Wraps(e: Entry, signed: bool, x: int) {
    if signed then e.Signed? && -0x8000_0000_0000_0000 <= e.i < 0x8000_0000_0000_0000 && (e.i - x) % 0x1_0000_0000_0000_0000 == 0
    else e.Unsigned? && e.u < 0x1_0000_0000_0000_0000 && (e.u - x) % 0x1_0000_0000_0000_0000 == 0
  }

  predicate AnySigned(ps: seq<Entry>) {
    exists i | 0 <= i < |ps| :: ps[i].Signed?
  }

  /** `e` is the sum of the run. */
  ghost predicate IsTotal(e: Entry, ps: seq<Entry>)
    requires Run(ps)
  {
    match ps[0]
    case Text(_) => e == Text(Chars(ps))
    case Binary(_) => e == Binary(Octets(ps))
    case Array(_, _) => e == Array("", Elements(ps))
    case Object(_) => e == Object(MergeAll(ps))
    case Double(_) => e.Double? && Leaves(e.d) == Doubles(ps)
    case _ => if |ps| == 1 then e == ps[0] else Wraps(e, AnySigned(ps), Count(ps))
  }

  // ---- Both ends of a list -------------------------------------------------------------------

  lemma {:induction false} CharsBoth(ps: seq<Entry>, qs: seq<Entry>)
    ensures Chars(ps + qs) == Chars(ps) + Chars(qs)
    decreases |ps|
  {
    if ps == [] {
      assert ps + qs == qs;
    } else {
      assert (ps + qs)[0] == ps[0] && (ps + qs)[1..] == ps[1..] + qs;
      CharsBoth(ps[1..], qs);
    }
  }

  lemma {:induction false} OctetsBoth(ps: seq<Entry>, qs: seq<Entry>)
    ensures Octets(ps + qs) == Octets(ps) + Octets(qs)
    decreases |ps|
  {
    if ps == [] {
      assert ps + qs == qs;
    } else {
      assert (ps + qs)[0] == ps[0] && (ps + qs)[1..] == ps[1..] + qs;
      OctetsBoth(ps[1..], qs);
    }
  }

  lemma {:induction false} ElementsBoth(ps: seq<Entry>, qs: seq<Entry>)
    ensures Elements(ps + qs) == Elements(ps) + Elements(qs)
    decreases |ps|
  {
    if ps == [] {
      assert ps + qs == qs;
    } else {
      assert (ps + qs)[0] == ps[0] && (ps + qs)[1..] == ps[1..] + qs;
      ElementsBoth(ps[1..], qs);
    }
  }

  lemma {:induction false} DoublesBoth(ps: seq<Entry>, qs: seq<Entry>)
    ensures Doubles(ps + qs) == Doubles(ps) + Doubles(qs)
    decreases |ps|
  {
    if ps == [] {
      assert ps + qs == qs;
    } else {
      assert (ps + qs)[0] == ps[0] && (ps + qs)[1..] == ps[1..] + qs;
      DoublesBoth(ps[1..], qs);
    }
  }

  lemma {:induction false} CountBoth(ps: seq<Entry>, qs: seq<Entry>)
    ensures Count(ps + qs) == Count(ps) + Count(qs)
    decreases |ps|
  {
    if ps == [] {
      assert ps + qs == qs;
    } else {
      assert (ps + qs)[0] == ps[0] && (ps + qs)[1..] == ps[1..] + qs;
      CountBoth(ps[1..], qs);
    }
  }

  lemma OnePart(e: Entry)
    ensures Chars([e]) == (if e.Text? then e.chars else "") && Octets([e]) == (if e.Binary? then e.bytes else [])
    ensures Elements([e]) == (if e.Array? then e.elements else []) && Doubles([e]) == (if e.Double? then Leaves(e.d) else [])
    ensures Count([e]) == if IsNumber(e) then NumberOf(e) else 0
  {
    assert [e][1..] == [];
  }

  lemma SignedBoth(ps: seq<Entry>, e: Entry)
    ensures AnySigned(ps + [e]) <==> AnySigned(ps) || e.Signed?
  {
    assert (ps + [e])[|ps|] == e;
    assert forall i | 0 <= i < |ps| :: (ps + [e])[i] == ps[i];
  }

  /** One more integer. */
  lemma NumberAdded(e: Entry, f: Entry, signed: bool, x: int)
    requires IsNumber(e) && IsNumber(f) && (e.Signed? == signed) && (NumberOf(e) - x) % TWO64 == 0
    ensures Wraps(Join(e, f), signed || f.Signed?, x + NumberOf(f))
  {
    hide Join;
    SumOfNumbers(e, f);
    var s := NumberOf(e) + NumberOf(f);
    SignedMultiple(s);
    UnsignedMultiple(s);
    var y := x + NumberOf(f);
    assert s - y == NumberOf(e) - x;
    Multiple(s - y, -((s + TWO63) / TWO64));
    Multiple(s - y, -(s / TWO64));
  }

  lemma Multiple(d: int, q: int)
    requires d % TWO64 == 0
    ensures (d + q * TWO64) % TWO64 == 0
  {
    Remainder(d / TWO64 + q, 0);
  }

  lemma RunFront(ps: seq<Entry>, e: Entry)
    requires ps != [] && Run(ps + [e])
    ensures Run(ps) && SameKind(ps[0], e)
  {
    hide SameKind;
    var qs := ps + [e];
    assert qs[|ps|] == e && forall i | 0 <= i < |ps| :: ps[i] == qs[i];
  }

  lemma TotalNext(t: Entry, ps: seq<Entry>, e: Entry)
    requires ps != [] && Run(ps) && SameKind(ps[0], e) && IsTotal(t, ps) && Run(ps + [e])
    ensures SameKind(t, e) && IsTotal(Join(t, e), ps + [e])
  {
    hide Chars, Octets, Elements, Doubles, Count, AnySigned, MergeAll, Wraps, Signed64, Unsigned64, Merge;
    OnePart(e);
    assert (ps + [e])[0] == ps[0];
    match ps[0] {
      case Text(_) => CharsBoth(ps, [e]);
      case Binary(_) => OctetsBoth(ps, [e]);
      case Array(_, _) => ElementsBoth(ps, [e]);
      case Double(_) => DoublesBoth(ps, [e]);
      case Object(_) => ObjectNext(ps, e);
      case _ =>
        hide Join;
        CountBoth(ps, [e]);
        SignedBoth(ps, e);
        NumberSoFar(t, ps);
        NumberAdded(t, e, AnySigned(ps), Count(ps));
    }
  }

  lemma ObjectNext(ps: seq<Entry>, e: Entry)
    requires Run(ps) && ps[0].Object? && e.Object?
    ensures AllObjects(ps) && AllObjects(ps + [e]) && MergeAll(ps + [e]) == Merge(MergeAll(ps), e.members)
  {
    hide Merge;
    RunOfObjects(ps);
    MergeBoth(ps, [e]);
    assert [e][1..] == [];
    MergeUnit(e.members);
  }

  lemma NumberSoFar(t: Entry, ps: seq<Entry>)
    requires Run(ps) && IsNumber(ps[0]) && IsTotal(t, ps)
    ensures IsNumber(t) && t.Signed? == AnySigned(ps) && (NumberOf(t) - Count(ps)) % TWO64 == 0
  {
    if |ps| == 1 {
      OnePart(ps[0]);
      assert ps == [ps[0]];
    }
  }

  lemma RunOfObjects(ps: seq<Entry>)
    requires Run(ps) && ps[0].Object?
    ensures AllObjects(ps)
  {
  }

  lemma TotalOne(e: Entry)
    requires Run([e])
    ensures IsTotal(e, [e])
  {
    OnePart(e);
    assert [e][1..] == [];
    if e.Object? { MergeUnit(e.members); }
  }

  /** A run of summands of one kind becomes one summand, which is its sum. */
  lemma {:induction false} RunIsAddedUp(ps: seq<Entry>)
    requires Run(ps)
    ensures |Collapse(ps)| == 1 && IsTotal(Collapse(ps)[0], ps)
    decreases |ps|
  {
    hide Join, Joinable, IsTotal, Run, SameKind, Push;
    RunNotEmpty(ps);
    var init, e := ps[..|ps| - 1], ps[|ps| - 1];
    assert ps == init + [e];
    CollapseLast(init, e);
    if init == [] {
      CollapseShort(ps);
      TotalOne(e);
    } else {
      RunFront(init, e);
      RunIsAddedUp(init);
      var t := Collapse(init)[0];
      TotalNext(t, init, e);
      NeighboursByKind(t, e);
      assert Push([t], e) == [Join(t, e)] by { PushOne(t, e); }
      assert Collapse(init) == [t];
    }
  }

  lemma PushOne(t: Entry, e: Entry)
    requires Joinable(t, e)
    ensures Push([t], e) == [Join(t, e)]
  {
    assert [t][..0] == [];
  }

  // ---- Between other summands ----------------------------------------------------------------

  /** What was added up before does not matter to summands that cannot be added to it. */
  lemma {:induction false} PushedBehind(c: seq<Entry>, acc: seq<Entry>, ps: seq<Entry>)
    requires acc != []
    ensures PushAll(c + acc, ps) == c + PushAll(acc, ps)
    decreases |ps|
  {
    hide Join, Joinable;
    if ps != [] {
      var e := ps[0];
      assert (c + acc)[|c + acc| - 1] == acc[|acc| - 1];
      assert (c + acc)[..|c + acc| - 1] == c + acc[..|acc| - 1];
      assert Push(c + acc, e) == c + Push(acc, e) && Push(acc, e) != [];
      PushedBehind(c, Push(acc, e), ps[1..]);
    }
  }

  /** Lists whose seam is between summands of different kinds are added up on their own. */
  lemma AddedUpApart(ps: seq<Entry>, qs: seq<Entry>)
    requires ps != [] && qs != [] ==> !SameKind(ps[|ps| - 1], qs[0])
    ensures Collapse(ps + qs) == Collapse(ps) + Collapse(qs)
  {
    hide SameKind, Joinable, ClassOf, Join;
    var c := Collapse(ps);
    CollapseIsPushAll(ps);
    CollapseIsPushAll(qs);
    CollapseIsPushAll(ps + qs);
    PushAllAppend([], ps, qs);
    if qs == [] {
      assert Collapse([]) == [] by { CollapseShort([]); }
    } else if ps == [] {
      assert Collapse([]) == [] by { CollapseShort([]); }
    } else {
      NeighboursByKind(ps[|ps| - 1], qs[0]);
      ClassOfLast(c, ps, qs[0]);
      assert Push(c, qs[0]) == c + [qs[0]] && Push([], qs[0]) == [qs[0]];
      PushedBehind(c, [qs[0]], qs[1..]);
    }
  }

  lemma ClassOfLast(c: seq<Entry>, ps: seq<Entry>, e: Entry)
    requires c != [] && ps != [] && ClassOf(c[|c| - 1]) == ClassOf(ps[|ps| - 1])
    ensures Joinable(c[|c| - 1], e) <==> Joinable(ps[|ps| - 1], e)
  {
  }

  /** The same for a run anywhere in a list, between summands of other kinds. */
  lemma RunBetween(front: seq<Entry>, ps: seq<Entry>, back: seq<Entry>)
    requires Run(ps)
    requires front != [] ==> !SameKind(front[|front| - 1], ps[0])
    requires back != [] ==> !SameKind(ps[|ps| - 1], back[0])
    ensures |Collapse(ps)| == 1 && IsTotal(Collapse(ps)[0], ps)
    ensures Collapse(front + ps + back) == Collapse(front) + Collapse(ps) + Collapse(back)
  {
    hide SameKind, Run, Collapse, IsTotal;
    RunNotEmpty(ps);
    RunIsAddedUp(ps);
    AddedUpApart(front, ps);
    assert (front + ps)[|front + ps| - 1] == ps[|ps| - 1];
    AddedUpApart(front + ps, back);
  }

  lemma RunNotEmpty(ps: seq<Entry>)
    requires Run(ps)
    ensures ps != []
  {
  }

  // ---- Members of merged objects -------------------------------------------------------------

  /** The members of a given name, from first to last. */
  function Named(ps: seq<Entry>, n: string): seq<Concat> {
    if ps == [] then []
    else (if ps[0].Object? && n in ps[0].members then [ps[0].members[n]] else []) + Named(ps[1..], n)
  }

  predicate Removes(cs: seq<Concat>) {
    exists i | 0 <= i < |cs| :: cs[i].remove
  }

  /** The summands from the last member on that replaces what comes before it. */
  function Summands(cs: seq<Concat>): seq<Entry> {
    if cs == [] then [] else (if Removes(cs[1..]) then [] else cs[0].parts) + Summands(cs[1..])
  }

  /** A member that is not replaced by a later one is temporary. */
  ghost predicate Flagged(cs: seq<Concat>) {
    exists i: nat :: FlaggedAt(cs, i)
  }

  /** Under each name a run of objects has the summands that were not replaced, in order. */
  lemma {:induction false} MergedMembers(ps: seq<Entry>, n: string)
    requires AllObjects(ps)
    ensures n in MergeAll(ps) <==> Named(ps, n) != []
    ensures n in MergeAll(ps) ==>
      var c, cs := MergeAll(ps)[n], Named(ps, n);
      && c.parts == Summands(cs) && c.remove == Removes(cs) && c.temporary == Flagged(cs)
      && c.implicit == cs[|cs| - 1].implicit && c.generation == cs[|cs| - 1].generation
    decreases |ps|
  {
    if ps != [] {
      var m, o, cs := ps[0].members, MergeAll(ps[1..]), Named(ps[1..], n);
      MergedMembers(ps[1..], n);
      assert MergeAll(ps) == Merge(m, o);
      hide MergeAll, Summands, Removes, Flagged, Stack;
      if n in m {
        OneMore(m[n], cs);
        NothingMore();
        assert m[n].parts + [] == m[n].parts;
        if n in o { StackedOnce(m[n], o[n]); }
      } else {
        assert [] + cs == cs;
      }
    }
  }

  lemma NothingMore()
    ensures Summands([]) == [] && !Removes([]) && !Flagged([])
  {
  }

  lemma StackedOnce(x: Concat, y: Concat)
    ensures var c := Stack(x, y);
      && c.parts == (if y.remove then [] else x.parts) + y.parts
      && c.remove == (x.remove || y.remove)
      && c.temporary == ((x.temporary && !y.remove) || y.temporary)
      && c.implicit == y.implicit && c.generation == y.generation
  {
  }

  lemma OneMore(x: Concat, cs: seq<Concat>)
    ensures Summands([x] + cs) == (if Removes(cs) then [] else x.parts) + Summands(cs)
    ensures Removes([x] + cs) <==> x.remove || Removes(cs)
    ensures Flagged([x] + cs) <==> (x.temporary && !Removes(cs)) || Flagged(cs)
  {
    hide Removes, Flagged;
    assert ([x] + cs)[1..] == cs;
    MoreRemoves(x, cs);
    MoreFlagged(x, cs);
  }

  lemma MoreRemoves(x: Concat, cs: seq<Concat>)
    ensures Removes([x] + cs) <==> x.remove || Removes(cs)
  {
    var ds := [x] + cs;
    assert ds[0] == x && forall i | 0 <= i < |cs| :: ds[i + 1] == cs[i];
    if i :| 0 <= i < |cs| && cs[i].remove { assert ds[i + 1].remove; }
    if i :| 0 <= i < |ds| && ds[i].remove { assert i > 0 ==> cs[i - 1].remove; }
  }

  /** The member `i` is temporary and not replaced. */
  ghost predicate FlaggedAt(cs: seq<Concat>, i: nat) {
    i < |cs| && cs[i].temporary && !Removes(cs[i + 1..])
  }

  lemma MoreFlagged(x: Concat, cs: seq<Concat>)
    ensures Flagged([x] + cs) <==> (x.temporary && !Removes(cs)) || Flagged(cs)
  {
    hide Removes;
    var ds := [x] + cs;
    forall i: nat ensures FlaggedAt(ds, i + 1) <==> FlaggedAt(cs, i) {
      if i < |cs| { assert ds[i + 1] == cs[i] && ds[i + 2..] == cs[i + 1..]; }
    }
    assert FlaggedAt(ds, 0) <==> x.temporary && !Removes(cs) by { assert ds[0] == x && ds[1..] == cs; }
    if i: nat :| FlaggedAt(ds, i) { assert i > 0 ==> FlaggedAt(cs, i - 1); }
    if i: nat :| FlaggedAt(cs, i) { assert FlaggedAt(ds, i + 1); }
  }

  // ---- Indices -------------------------------------------------------------------------------

  predicate AllArrays(ps: seq<Entry>) {
    forall i | 0 <= i < |ps| :: ps[i].Array?
  }

  /**
   An index that is written to denotes the element that it denotes once the arrays are added up,
   and is out of range exactly when there is no such element.
   */
  lemma {:induction false} IndexMeansElement(ps: seq<Entry>, n: nat)
    requires AllArrays(ps)
    ensures if n < |Elements(ps)| then
        && Locate(ps, n).Ok?
        && var (k, j) := Locate(ps, n).value;
        && |Elements(ps[..k])| + j == n && ps[k].elements[j] == Elements(ps)[n]
      else Locate(ps, n) == Err(OutOfRange)
    decreases |ps|
  {
    if ps != [] && n >= |ps[0].elements| {
      IndexMeansElement(ps[1..], n - |ps[0].elements|);
      if n < |Elements(ps)| {
        var (k, j) := Locate(ps[1..], n - |ps[0].elements|).value;
        assert ps[..k + 1][0] == ps[0] && ps[..k + 1][1..] == ps[1..][..k];
      }
    } else if ps != [] {
      assert ps[..0] == [];
    }
  }

  /** Nothing but arrays can be counted across. */
  lemma {:induction false} IndexStopsAt(ps: seq<Entry>, e: Entry, qs: seq<Entry>, n: nat)
    requires AllArrays(ps) && !e.Array?
    ensures Locate(ps + [e] + qs, n) == if n < |Elements(ps)| then Locate(ps, n) else Err(CannotIndex)
    decreases |ps|
  {
    var all := ps + [e] + qs;
    if ps == [] {
      assert all[0] == e;
    } else {
      assert all[0] == ps[0] && all[1..] == ps[1..] + [e] + qs;
      if n >= |ps[0].elements| { IndexStopsAt(ps[1..], e, qs, n - |ps[0].elements|); }
    }
  }

  lemma {:induction false} ElementsUpdate(ps: seq<Entry>, k: nat, j: nat, x: Concat)
    requires AllArrays(ps) && k < |ps| && j < |ps[k].elements|
    ensures |Elements(ps[..k])| + j < |Elements(ps)|
    ensures Elements(ps[k := Array(ps[k].call, ps[k].elements[j := x])]) == Elements(ps)[|Elements(ps[..k])| + j := x]
    decreases |ps|
  {
    var e := Array(ps[k].call, ps[k].elements[j := x]);
    var qs := ps[k := e];
    if k == 0 {
      assert qs[0] == e && qs[1..] == ps[1..] && ps[..0] == [];
    } else {
      assert qs[0] == ps[0] && qs[1..] == ps[1..][k - 1 := e];
      assert ps[..k][0] == ps[0] && ps[..k][1..] == ps[1..][..k - 1];
      ElementsUpdate(ps[1..], k - 1, j, x);
    }
  }

  /** Writing to an index changes the element that it denotes, and no other one. */
  lemma IndexWrites(c: Concat, i: nat, t: Key, f: Step, mode: Mode)
    requires AllArrays(c.parts) && i < |Elements(c.parts)|
    ensures var x, d := Focus(Elements(c.parts)[i], t, f, mode), Focus(c, [Index(i)] + t, f, mode);
      && (x.Err? ==> d == x)
      && (x.Ok? ==>
            && d.Ok? && d.value == c.(parts := d.value.parts) && |d.value.parts| == |c.parts|
            && Elements(d.value.parts) == Elements(c.parts)[i := x.value])
  {
    assert ([Index(i)] + t)[1..] == t;
    IndexMeansElement(c.parts, i);
    var (k, j) := Locate(c.parts, i).value;
    var x := Focus(c.parts[k].elements[j], t, f, mode);
    if x.Ok? { ElementsUpdate(c.parts, k, j, x.value); }
  }

  // ---- The pass, everywhere ------------------------------------------------------------------

  /** `d` is `c` or lies anywhere inside it: in members, elements, arguments of calls or asterisks. */
  ghost predicate Occurs(d: Concat, c: Concat) {
    d == c || exists i | 0 <= i < |c.parts| :: OccursIn(d, c.parts[i])
  }

  ghost predicate OccursIn(d: Concat, e: Entry) {
    match e
    case Array(_, es) => exists i | 0 <= i < |es| :: Occurs(d, es[i])
    case Object(m) => exists n | n in m :: Occurs(d, m[n])
    case Asterisk(c) => Occurs(d, c)
    case _ => false
  }

  /** The pass throws exactly when two neighbours clash somewhere. */
  lemma {:induction false} SoundEverywhere(c: Concat)
    ensures Sound(c) <==> forall d | Occurs(d, c) :: ClashFree(d.parts)
  {
    hide SoundEntry, OccursIn, ClashFree;
    forall i | 0 <= i < |c.parts| ensures SoundEntry(c.parts[i]) <==> forall d | OccursIn(d, c.parts[i]) :: ClashFree(d.parts) {
      SoundEverywhereIn(c.parts[i]);
    }
    assert Occurs(c, c);
    if Sound(c) {
      forall d | Occurs(d, c) ensures ClashFree(d.parts) {
        if d != c { var i :| 0 <= i < |c.parts| && OccursIn(d, c.parts[i]); }
      }
    }
    if forall d | Occurs(d, c) :: ClashFree(d.parts) {
      forall i, d | 0 <= i < |c.parts| && OccursIn(d, c.parts[i]) ensures ClashFree(d.parts) { assert Occurs(d, c); }
    }
  }

  lemma {:induction false} SoundEverywhereIn(e: Entry)
    ensures SoundEntry(e) <==> forall d | OccursIn(d, e) :: ClashFree(d.parts)
  {
    hide Sound, Occurs, ClashFree;
    match e {
      case Array(_, es) =>
        forall i | 0 <= i < |es| ensures Sound(es[i]) <==> forall d | Occurs(d, es[i]) :: ClashFree(d.parts) { SoundEverywhere(es[i]); }
        if forall d | OccursIn(d, e) :: ClashFree(d.parts) {
          forall i, d | 0 <= i < |es| && Occurs(d, es[i]) ensures ClashFree(d.parts) { assert OccursIn(d, e); }
        }
      case Object(m) =>
        forall n | n in m ensures Sound(m[n]) <==> forall d | Occurs(d, m[n]) :: ClashFree(d.parts) { SoundEverywhere(m[n]); }
        if forall d | OccursIn(d, e) :: ClashFree(d.parts) {
          forall n, d | n in m && Occurs(d, m[n]) ensures ClashFree(d.parts) { assert OccursIn(d, e); }
        }
      case Asterisk(c) => SoundEverywhere(c);
      case _ =>
    }
  }
}
