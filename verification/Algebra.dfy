/**
 Addition of summands is associative, except that doubles are rounded: it does not matter which
 neighbours are added first, up to the bracketing of sums of doubles.
 */
module Algebra {
  import opened Tree
  import opened Additions

  // ---- Numbers -------------------------------------------------------------------------------

  predicate IsNumber(e: Entry) { e.Signed? || e.Unsigned? }

  function NumberOf(e: Entry): int
    requires IsNumber(e)
  {
    if e.Signed? then e.i else e.u
  }

  /** The 64-bit number that the mathematical sum `x` of some operands stands for. */
  function Number64(signed: bool, x: int): Entry {
    if signed then Signed(Signed64(x)) else Unsigned(Unsigned64(x))
  }

  lemma WrapTwice(x: int, y: int)
    ensures Signed64(x + Signed64(y)) == Signed64(x + y)
    ensures Unsigned64(x + Unsigned64(y)) == Unsigned64(x + y)
    ensures Signed64(x + Unsigned64(y)) == Signed64(x + y)
  {
    hide Signed64, Unsigned64;
    SignedMultiple(y);
    UnsignedMultiple(y);
    SignedShift(x + y, -((y + TWO63) / TWO64));
    SignedShift(x + y, -(y / TWO64));
    UnsignedShift(x + y, -(y / TWO64));
  }

  lemma SignedMultiple(y: int)
    ensures Signed64(y) == y - (y + TWO63) / TWO64 * TWO64
  {
  }

  lemma UnsignedMultiple(y: int)
    ensures Unsigned64(y) == y - y / TWO64 * TWO64
  {
  }

  lemma SignedShift(x: int, q: int)
    ensures Signed64(x + q * TWO64) == Signed64(x)
  {
    hide Unsigned64;
    UnsignedShift(x + TWO63, q);
    AsUnsigned(x);
    AsUnsigned(x + q * TWO64);
  }

  lemma AsUnsigned(x: int)
    ensures Signed64(x) == Unsigned64(x + TWO63) - TWO63
  {
  }

  lemma UnsignedShift(x: int, q: int)
    ensures Unsigned64(x + q * TWO64) == Unsigned64(x)
  {
    Remainder(x / TWO64 + q, x % TWO64);
  }

  lemma Remainder(q: int, r: nat)
    requires r < TWO64
    ensures (q * TWO64 + r) % TWO64 == r
  {
  }

  /** A sum is signed exactly when an operand is, and exact modulo 2^64. */
  lemma SumOfNumbers(l: Entry, r: Entry)
    requires IsNumber(l) && IsNumber(r)
    ensures Joinable(l, r)
    ensures Join(l, r) == Number64(l.Signed? || r.Signed?, NumberOf(l) + NumberOf(r))
  {
    if r.Signed? && l.Unsigned? { WrapTwice(r.i, l.u); }
    if r.Unsigned? && l.Signed? { WrapTwice(l.i, r.u); }
  }

  lemma NumbersAssociative(a: Entry, b: Entry, c: Entry)
    requires IsNumber(a) && IsNumber(b) && IsNumber(c)
    ensures Join(Join(a, b), c) == Join(a, Join(b, c))
    ensures Join(a, Join(b, c)) == Number64(a.Signed? || b.Signed? || c.Signed?, NumberOf(a) + NumberOf(b) + NumberOf(c))
  {
    hide Joinable, Join, Signed64, Unsigned64;
    SumOfNumbers(a, b);
    SumOfNumbers(b, c);
    SumOfNumbers(Join(a, b), c);
    SumOfNumbers(a, Join(b, c));
    WrapTwice(NumberOf(c), NumberOf(a) + NumberOf(b));
    WrapTwice(NumberOf(a), NumberOf(b) + NumberOf(c));
  }

  // ---- Objects -------------------------------------------------------------------------------

  lemma StackAssociative(x: Concat, y: Concat, z: Concat)
    ensures Stack(Stack(x, y), z) == Stack(x, Stack(y, z))
  {
    assert x.parts + y.parts + z.parts == x.parts + (y.parts + z.parts);
  }

  lemma MergeAssociative(a: Members, b: Members, c: Members)
    ensures Merge(Merge(a, b), c) == Merge(a, Merge(b, c))
  {
    hide Stack;
    var l, r := Merge(Merge(a, b), c), Merge(a, Merge(b, c));
    assert l.Keys == r.Keys;
    forall n | n in l ensures l[n] == r[n] {
      if n in a && n in b && n in c { StackAssociative(a[n], b[n], c[n]); }
    }
  }

  lemma MergeUnit(m: Members)
    ensures Merge(map[], m) == m && Merge(m, map[]) == m
  {
  }

  // ---- Doubles -------------------------------------------------------------------------------

  /** The doubles that a sum was made of, from left to right. */
  function Leaves(f: Float): (xs: seq<int>)
    ensures xs != []
  {
    match f
    case Bits(b) => [b]
    case Rounded(x, y) => Leaves(y) + Leaves(x)
  }

  /** The sum that is bracketed from the left. */
  function FromLeft(xs: seq<int>): Float
    requires xs != []
  {
    if |xs| == 1 then Bits(xs[0]) else Rounded(Bits(xs[|xs| - 1]), FromLeft(xs[..|xs| - 1]))
  }

  lemma {:induction false} LeavesFromLeft(xs: seq<int>)
    requires xs != []
    ensures Leaves(FromLeft(xs)) == xs
  {
    if |xs| > 1 {
      LeavesFromLeft(xs[..|xs| - 1]);
      assert xs[..|xs| - 1] + [xs[|xs| - 1]] == xs;
    } else {
      assert xs == [xs[0]];
    }
  }

  /** A summand once the bracketing of a sum of doubles is forgotten. */
  function Loose(e: Entry): (r: Entry)
    ensures ClassOf(r) == ClassOf(e)
  {
    if e.Double? then Double(FromLeft(Leaves(e.d))) else e
  }

  function LooseParts(ps: seq<Entry>): seq<Entry> {
    seq(|ps|, i requires 0 <= i < |ps| => Loose(ps[i]))
  }

  lemma LooseDoubles(e: Entry, f: Entry)
    ensures Loose(e) == Loose(f) <==> e == f || (e.Double? && f.Double? && Leaves(e.d) == Leaves(f.d))
  {
    if e.Double? && f.Double? {
      LeavesFromLeft(Leaves(e.d));
      LeavesFromLeft(Leaves(f.d));
    }
  }

  // ---- Summands ------------------------------------------------------------------------------

  lemma JoinClass(a: Entry, b: Entry)
    requires Joinable(a, b)
    ensures ClassOf(Join(a, b)) == ClassOf(a) == ClassOf(b)
  {
  }

  lemma LooseJoin(a: Entry, b: Entry, x: Entry, y: Entry)
    requires Joinable(a, b) && Loose(a) == Loose(x) && Loose(b) == Loose(y)
    ensures Joinable(x, y) && Loose(Join(a, b)) == Loose(Join(x, y))
  {
    assert ClassOf(Loose(a)) == ClassOf(a) && ClassOf(Loose(b)) == ClassOf(b);
    if a.Double? {
      LooseDoubles(a, x);
      LooseDoubles(b, y);
      LooseDoubles(Join(a, b), Join(x, y));
    }
  }

  lemma JoinAssociative(a: Entry, b: Entry, c: Entry)
    requires Joinable(a, b) && Joinable(b, c)
    ensures Joinable(Join(a, b), c) && Joinable(a, Join(b, c))
    ensures Loose(Join(Join(a, b), c)) == Loose(Join(a, Join(b, c)))
    ensures Join(Join(a, b), c) == Join(a, Join(b, c)) <==> !a.Double?
  {
    JoinClass(a, b);
    JoinClass(b, c);
    if ClassOf(a) == Number {
      NumbersAssociative(a, b, c);
    } else if a.Double? {
      DoublesAssociate(a.d, b.d, c.d);
    } else {
      hide Signed64, Unsigned64, Merge;
      match c {
        case Text(z) => assert a.chars + b.chars + z == a.chars + (b.chars + z);
        case Binary(z) => assert a.bytes + b.bytes + z == a.bytes + (b.bytes + z);
        case Array(_, z) => assert a.elements + b.elements + z == a.elements + (b.elements + z);
        case Object(z) => MergeAssociative(a.members, b.members, z);
        case _ =>
      }
    }
  }

  /**
   Rounding makes the order of two additions matter for some values of the doubles, so the two
   sums are different terms; they are sums of the same doubles.
   */
  lemma DoublesAssociate(x: Float, y: Float, z: Float)
    ensures Rounded(z, Rounded(y, x)) != Rounded(Rounded(z, y), x)
    ensures Leaves(Rounded(z, Rounded(y, x))) == Leaves(Rounded(Rounded(z, y), x))
  {
    assert Leaves(x) + Leaves(y) + Leaves(z) == Leaves(x) + (Leaves(y) + Leaves(z));
    assert z != Rounded(z, y);
  }

  // ---- Lists of summands ---------------------------------------------------------------------

  /** Further summands pushed onto a list that is already added up. */
  function PushAll(acc: seq<Entry>, ps: seq<Entry>): seq<Entry>
    decreases |ps|
  {
    if ps == [] then acc else PushAll(Push(acc, ps[0]), ps[1..])
  }

  lemma {:induction false} PushAllAppend(acc: seq<Entry>, ps: seq<Entry>, qs: seq<Entry>)
    ensures PushAll(acc, ps + qs) == PushAll(PushAll(acc, ps), qs)
    decreases |ps|
  {
    hide Push;
    if ps == [] {
      assert ps + qs == qs;
    } else {
      assert (ps + qs)[1..] == ps[1..] + qs;
      PushAllAppend(Push(acc, ps[0]), ps[1..], qs);
    }
  }

  lemma {:induction false} CollapseIsPushAll(ps: seq<Entry>)
    ensures Collapse(ps) == PushAll([], ps)
  {
    hide Push;
    if ps != [] {
      var init, e := ps[..|ps| - 1], ps[|ps| - 1];
      assert ps == init + [e];
      CollapseIsPushAll(init);
      PushAllAppend([], init, [e]);
      PushAllOne(Collapse(init), e);
    }
  }

  lemma PushAllOne(acc: seq<Entry>, e: Entry)
    ensures PushAll(acc, [e]) == Push(acc, e)
  {
    assert [e][1..] == [];
  }

  lemma PushLoose(ps: seq<Entry>, qs: seq<Entry>, e: Entry, f: Entry)
    requires LooseParts(ps) == LooseParts(qs) && Loose(e) == Loose(f)
    ensures LooseParts(Push(ps, e)) == LooseParts(Push(qs, f))
  {
    hide Join, Loose, ClassOf;
    assert |LooseParts(ps)| == |ps| && |LooseParts(qs)| == |qs|;
    forall i | 0 <= i < |ps| ensures Loose(ps[i]) == Loose(qs[i]) { assert LooseParts(ps)[i] == LooseParts(qs)[i]; }
    if ps != [] {
      var l, k := ps[|ps| - 1], qs[|qs| - 1];
      assert Loose(l) == Loose(k);
      if Joinable(l, e) { LooseJoin(l, e, k, f); }
      if Joinable(k, f) { LooseJoin(k, f, l, e); }
    }
  }

  lemma {:induction false} PushAllLoose(acc: seq<Entry>, bcc: seq<Entry>, ps: seq<Entry>)
    requires LooseParts(acc) == LooseParts(bcc)
    ensures LooseParts(PushAll(acc, ps)) == LooseParts(PushAll(bcc, ps))
    decreases |ps|
  {
    hide Push, Loose;
    if ps != [] {
      PushLoose(acc, bcc, ps[0], ps[0]);
      PushAllLoose(Push(acc, ps[0]), Push(bcc, ps[0]), ps[1..]);
    }
  }

  /**
   Adding up two neighbours before or after they are pushed is the same, unless the second addition
   rounds as well.
   */
  lemma PushTwice(acc: seq<Entry>, a: Entry, b: Entry)
    requires Joinable(a, b)
    ensures LooseParts(Push(Push(acc, a), b)) == LooseParts(Push(acc, Join(a, b)))
    ensures Push(Push(acc, a), b) == Push(acc, Join(a, b)) <==> !(acc != [] && acc[|acc| - 1].Double? && a.Double?)
  {
    hide Join, ClassOf, Loose;
    JoinClass(a, b);
    if acc != [] && Joinable(acc[|acc| - 1], a) {
      var l, init := acc[|acc| - 1], acc[..|acc| - 1];
      JoinAssociative(l, a, b);
      JoinClass(l, a);
      assert Push(acc, a) == init + [Join(l, a)] && Push(acc, Join(a, b)) == init + [Join(l, Join(a, b))];
      assert Push(Push(acc, a), b) == init + [Join(Join(l, a), b)];
      assert (init + [Join(Join(l, a), b)])[|init|] == Join(Join(l, a), b);
      assert (init + [Join(l, Join(a, b))])[|init|] == Join(l, Join(a, b));
      DoubleClass(l);
      DoubleClass(a);
    } else {
      assert (acc + [a])[..|acc|] == acc;
      if acc != [] { DoublesJoin(acc[|acc| - 1], a); }
    }
  }

  lemma DoubleClass(e: Entry)
    ensures e.Double? <==> ClassOf(e) == Floating
  {
  }

  lemma DoublesJoin(a: Entry, b: Entry)
    ensures a.Double? && b.Double? ==> Joinable(a, b)
  {
  }

  function AddAt(ps: seq<Entry>, i: nat): seq<Entry>
    requires i + 1 < |ps| && Joinable(ps[i], ps[i + 1])
  {
    ps[..i] + [Join(ps[i], ps[i + 1])] + ps[i + 2..]
  }

  /** The doubles at `i` and to the right of it have a double to the left. */
  predicate RoundsTwice(ps: seq<Entry>, i: nat)
    requires i < |ps|
  {
    i > 0 && ps[i - 1].Double? && ps[i].Double?
  }

  /**
   Any single addition of two ready neighbours leaves the final sum of a list as it is, up to the
   bracketing of doubles, and exactly as it is unless it takes two doubles away from a third.
   */
  lemma AdditionOrderIsIrrelevant(ps: seq<Entry>, i: nat)
    requires i + 1 < |ps| && Joinable(ps[i], ps[i + 1])
    ensures LooseParts(Collapse(AddAt(ps, i))) == LooseParts(Collapse(ps))
    ensures !RoundsTwice(ps, i) ==> Collapse(AddAt(ps, i)) == Collapse(ps)
    ensures ClashFree(AddAt(ps, i)) <==> ClashFree(ps)
  {
    hide *;
    var a, b, front, back := ps[i], ps[i + 1], ps[..i], ps[i + 2..];
    AddAtParts(ps, i);
    CollapseIsPushAll(front + [a, b] + back);
    CollapseIsPushAll(front + [Join(a, b)] + back);
    PushAllAppend([], front + [a, b], back);
    PushAllAppend([], front + [Join(a, b)], back);
    PushAllAppend([], front, [a, b]);
    PushAllAppend([], front, [Join(a, b)]);
    var acc := PushAll([], front);
    PushAllPair(acc, a, b);
    PushAllLoose(PushAll(acc, [a, b]), PushAll(acc, [Join(a, b)]), back);
    LastDouble(ps, i);
    ClashFreeAddAt(ps, i);
  }

  /** The sum of the front of a list ends with a double exactly when the front does. */
  lemma LastDouble(ps: seq<Entry>, i: nat)
    requires i < |ps|
    ensures var acc := PushAll([], ps[..i]);
      RoundsTwice(ps, i) <==> acc != [] && acc[|acc| - 1].Double? && ps[i].Double?
  {
    CollapseIsPushAll(ps[..i]);
    if i > 0 {
      var acc := Collapse(ps[..i]);
      assert ps[..i][i - 1] == ps[i - 1];
      DoubleClass(acc[|acc| - 1]);
      DoubleClass(ps[i - 1]);
    }
  }

  lemma AddAtParts(ps: seq<Entry>, i: nat)
    requires i + 1 < |ps| && Joinable(ps[i], ps[i + 1])
    ensures ps == ps[..i] + [ps[i], ps[i + 1]] + ps[i + 2..]
    ensures AddAt(ps, i) == ps[..i] + [Join(ps[i], ps[i + 1])] + ps[i + 2..]
  {
    hide Join, Joinable;
  }

  lemma PushAllPair(acc: seq<Entry>, a: Entry, b: Entry)
    requires Joinable(a, b)
    ensures LooseParts(PushAll(acc, [a, b])) == LooseParts(PushAll(acc, [Join(a, b)]))
    ensures PushAll(acc, [a, b]) == PushAll(acc, [Join(a, b)]) <==> !(acc != [] && acc[|acc| - 1].Double? && a.Double?)
  {
    hide Join, Joinable, Push, LooseParts;
    assert [a, b] == [a] + [b];
    PushAllAppend(acc, [a], [b]);
    PushAllOne(acc, a);
    PushAllOne(Push(acc, a), b);
    PushAllOne(acc, Join(a, b));
    PushTwice(acc, a, b);
  }

  lemma ClashFreeAddAt(ps: seq<Entry>, i: nat)
    requires i + 1 < |ps| && Joinable(ps[i], ps[i + 1])
    ensures ClashFree(AddAt(ps, i)) <==> ClashFree(ps)
  {
    hide Join;
    JoinClass(ps[i], ps[i + 1]);
    var qs := AddAt(ps, i);
    assert forall j | 0 <= j < |qs| :: ClassOf(qs[j]) == ClassOf(if j <= i then ps[j] else ps[j + 1]);
    assert ClassOf(ps[i]) == ClassOf(ps[i + 1]);
    if ClashFree(qs) {
      forall j | 0 < j < |ps| ensures !Clash(ps[j - 1], ps[j]) {
        if j <= i { assert !Clash(qs[j - 1], qs[j]); }
        else if j > i + 1 { assert !Clash(qs[j - 2], qs[j - 1]); }
      }
    }
    if ClashFree(ps) {
      forall j | 0 < j < |qs| ensures !Clash(qs[j - 1], qs[j]) {
        if j <= i { assert !Clash(ps[j - 1], ps[j]); }
        else { assert !Clash(ps[j], ps[j + 1]); }
      }
    }
  }

  /** Lists on which no neighbours are left to add are their own sum. */
  lemma {:induction false} CollapsedIsFixed(ps: seq<Entry>)
    requires forall i | 0 < i < |ps| :: !Joinable(ps[i - 1], ps[i])
    ensures Collapse(ps) == ps
  {
    if ps != [] {
      var init := ps[..|ps| - 1];
      CollapsedIsFixed(init);
      assert ps == init + [ps[|ps| - 1]];
    }
  }

  lemma {:induction false} CollapseLeavesNothing(ps: seq<Entry>)
    ensures forall i | 0 < i < |Collapse(ps)| :: !Joinable(Collapse(ps)[i - 1], Collapse(ps)[i])
  {
    if ps != [] {
      var init, e := ps[..|ps| - 1], ps[|ps| - 1];
      CollapseLeavesNothing(init);
      var c := Collapse(init);
      var r := Push(c, e);
      forall i | 0 < i < |r| ensures !Joinable(r[i - 1], r[i]) {
        if c != [] && Joinable(c[|c| - 1], e) {
          hide Join;
          JoinClass(c[|c| - 1], e);
          if i == |r| - 1 { assert !Joinable(c[i - 1], c[i]); } else { assert !Joinable(c[i - 1], c[i]); }
        } else if i < |c| {
          assert !Joinable(c[i - 1], c[i]);
        }
      }
    }
  }

  /** A sequence of additions of ready neighbours, in any order. */
  ghost predicate AddsUpTo(ps: seq<Entry>, steps: seq<nat>, qs: seq<Entry>)
    decreases |steps|
  {
    if steps == [] then ps == qs
    else
      && steps[0] + 1 < |ps|
      && Joinable(ps[steps[0]], ps[steps[0] + 1])
      && AddsUpTo(AddAt(ps, steps[0]), steps[1..], qs)
  }

  predicate NothingToAdd(ps: seq<Entry>) {
    forall i | 0 < i < |ps| :: !Joinable(ps[i - 1], ps[i])
  }

  /**
   Whatever the order of the additions, once none is left the result is the one of the pass, up to
   the bracketing of doubles.
   */
  lemma {:induction false} BracketingIsIrrelevant(ps: seq<Entry>, steps: seq<nat>, qs: seq<Entry>)
    requires AddsUpTo(ps, steps, qs) && NothingToAdd(qs)
    ensures LooseParts(qs) == LooseParts(Collapse(ps))
    ensures ClashFree(qs) <==> ClashFree(ps)
    decreases |steps|
  {
    hide Collapse, Joinable, LooseParts;
    if steps == [] {
      CollapsedIsFixed(ps);
    } else {
      AdditionOrderIsIrrelevant(ps, steps[0]);
      BracketingIsIrrelevant(AddAt(ps, steps[0]), steps[1..], qs);
    }
  }

  /** Three doubles in a row, the first of which is at `i`. */
  predicate ThreeDoubles(ps: seq<Entry>, i: nat) {
    i + 2 < |ps| && ps[i].Double? && ps[i + 1].Double? && ps[i + 2].Double?
  }

  /** Without three doubles in a row every order gives exactly the same result. */
  lemma {:induction false} BracketingIsExact(ps: seq<Entry>, steps: seq<nat>, qs: seq<Entry>)
    requires AddsUpTo(ps, steps, qs) && NothingToAdd(qs) && forall i :: !ThreeDoubles(ps, i)
    ensures qs == Collapse(ps)
    decreases |steps|
  {
    hide Collapse, Joinable, Join;
    if steps == [] {
      CollapsedIsFixed(ps);
    } else {
      var i := steps[0];
      assert RoundsTwice(ps, i) ==> ThreeDoubles(ps, i - 1) by { DoubleClass(ps[i]); DoubleClass(ps[i + 1]); JoinClass(ps[i], ps[i + 1]); }
      AdditionOrderIsIrrelevant(ps, i);
      NoMoreDoubles(ps, i);
      BracketingIsExact(AddAt(ps, i), steps[1..], qs);
    }
  }

  lemma NoMoreDoubles(ps: seq<Entry>, i: nat)
    requires i + 1 < |ps| && Joinable(ps[i], ps[i + 1])
    ensures (exists j :: ThreeDoubles(AddAt(ps, i), j)) ==> exists j :: ThreeDoubles(ps, j)
  {
    hide Join, Joinable;
    var qs := AddAt(ps, i);
    JoinClass(ps[i], ps[i + 1]);
    DoubleClass(ps[i]);
    DoubleClass(ps[i + 1]);
    DoubleClass(Join(ps[i], ps[i + 1]));
    assert forall j | 0 <= j < |qs| :: qs[j] == if j < i then ps[j] else if j == i then Join(ps[i], ps[i + 1]) else ps[j + 1];
    forall j: nat | ThreeDoubles(qs, j) ensures exists k :: ThreeDoubles(ps, k) {
      if j + 2 < i || j == i { assert ThreeDoubles(ps, j); }
      else if j < i { assert ps[i].Double? && ThreeDoubles(ps, i - 1); }
      else { assert ThreeDoubles(ps, j + 1); }
    }
  }

  /** The leftmost neighbours that can be added. */
  predicate FirstReady(ps: seq<Entry>, i: nat) {
    i + 1 < |ps| && Joinable(ps[i], ps[i + 1]) && NothingToAdd(ps[..i + 1])
  }

  /** Every list can be added up from the left. */
  lemma {:induction false} LeftToRight(ps: seq<Entry>) returns (steps: seq<nat>)
    ensures AddsUpTo(ps, steps, Collapse(ps)) && NothingToAdd(Collapse(ps))
    decreases |ps|
  {
    hide Collapse, Joinable, Join, RoundsTwice;
    CollapseLeavesNothing(ps);
    if i: nat :| FirstReady(ps, i) {
      FirstRoundsOnce(ps, i);
      AdditionOrderIsIrrelevant(ps, i);
      var rest := LeftToRight(AddAt(ps, i));
      steps := [i] + rest;
      assert steps[1..] == rest;
    } else {
      NothingReady(ps, |ps|);
      assert ps[..|ps|] == ps;
      CollapsedIsFixed(ps);
      steps := [];
    }
  }

  lemma FirstRoundsOnce(ps: seq<Entry>, i: nat)
    requires FirstReady(ps, i)
    ensures !RoundsTwice(ps, i)
  {
    hide Joinable;
    if i > 0 {
      DoublesJoin(ps[i - 1], ps[i]);
      assert !Joinable(ps[..i + 1][i - 1], ps[..i + 1][i]);
    }
  }

  lemma {:induction false} NothingReady(ps: seq<Entry>, k: nat)
    requires k <= |ps| && forall i :: !FirstReady(ps, i)
    ensures NothingToAdd(ps[..k])
  {
    hide Joinable;
    if k > 1 {
      NothingReady(ps, k - 1);
      assert !FirstReady(ps, k - 2);
      forall j | 0 < j < k ensures !Joinable(ps[..k][j - 1], ps[..k][j]) {
        if j < k - 1 { assert ps[..k - 1][j] == ps[j] && ps[..k - 1][j - 1] == ps[j - 1]; }
      }
    }
  }

  /** Lists that differ in the last double only, or that end alike, keep their differences. */
  predicate Differ(acc: seq<Entry>, bcc: seq<Entry>) {
    && |acc| == |bcc| > 0 && acc != bcc
    && (forall i | 0 <= i < |acc| :: ClassOf(acc[i]) == ClassOf(bcc[i]))
    && (acc[|acc| - 1] == bcc[|acc| - 1] || acc[|acc| - 1].Double?)
  }

  lemma PushDiffers(acc: seq<Entry>, bcc: seq<Entry>, e: Entry)
    requires Differ(acc, bcc)
    ensures Differ(Push(acc, e), Push(bcc, e))
  {
    hide Join, ClassOf;
    var l, a, b := |acc| - 1, acc[|acc| - 1], bcc[|bcc| - 1];
    assert Joinable(a, e) <==> Joinable(b, e);
    if Joinable(a, e) {
      JoinClass(a, e);
      JoinClass(b, e);
      DoubleClass(a);
      DoubleClass(b);
      DoubleClass(e);
      DoubleClass(Join(a, e));
      if a == b {
        assert acc[..l] != bcc[..l] by { assert acc == acc[..l] + [a] && bcc == bcc[..l] + [b]; }
        assert Push(acc, e)[..l] == acc[..l] && Push(bcc, e)[..l] == bcc[..l];
      } else {
        DoublesDiffer(a, b, e);
        assert Push(acc, e)[l] == Join(a, e) && Push(bcc, e)[l] == Join(b, e);
      }
    } else {
      assert Push(acc, e)[..|acc|] == acc && Push(bcc, e)[..|bcc|] == bcc;
    }
  }

  lemma DoublesDiffer(a: Entry, b: Entry, e: Entry)
    requires a.Double? && b.Double? && e.Double? && a != b
    ensures Join(a, e) != Join(b, e)
  {
  }

  lemma {:induction false} PushAllDiffers(acc: seq<Entry>, bcc: seq<Entry>, ps: seq<Entry>)
    requires Differ(acc, bcc)
    ensures PushAll(acc, ps) != PushAll(bcc, ps)
    decreases |ps|
  {
    hide Push, Differ;
    if ps != [] {
      PushDiffers(acc, bcc, ps[0]);
      PushAllDiffers(Push(acc, ps[0]), Push(bcc, ps[0]), ps[1..]);
    } else {
      assert acc != bcc by { DifferMeans(acc, bcc); }
    }
  }

  lemma DifferMeans(acc: seq<Entry>, bcc: seq<Entry>)
    requires Differ(acc, bcc)
    ensures acc != bcc
  {
  }

  /** Adding the second and the third of three doubles first gives another result. */
  lemma OtherOrderDiffers(ps: seq<Entry>, i: nat)
    requires ThreeDoubles(ps, i)
    ensures Joinable(ps[i + 1], ps[i + 2]) && Collapse(AddAt(ps, i + 1)) != Collapse(ps)
  {
    DoublesJoin(ps[i + 1], ps[i + 2]);
    hide Join, Joinable, Push, Collapse, PushAll, AddAt;
    var a, b, front, back := ps[i + 1], ps[i + 2], ps[..i + 1], ps[i + 3..];
    AddAtParts(ps, i + 1);
    CollapseIsPushAll(front + [a, b] + back);
    CollapseIsPushAll(front + [Join(a, b)] + back);
    PushAllAppend([], front + [a, b], back);
    PushAllAppend([], front + [Join(a, b)], back);
    PushAllAppend([], front, [a, b]);
    PushAllAppend([], front, [Join(a, b)]);
    LastDouble(ps, i + 1);
    var acc := PushAll([], front);
    PairDiffers(acc, a, b);
    PushAllDiffers(PushAll(acc, [a, b]), PushAll(acc, [Join(a, b)]), back);
  }

  lemma PairDiffers(acc: seq<Entry>, a: Entry, b: Entry)
    requires acc != [] && acc[|acc| - 1].Double? && a.Double? && b.Double?
    ensures Differ(PushAll(acc, [a, b]), PushAll(acc, [Join(a, b)]))
  {
    hide PushAll, Push, Join, ClassOf;
    var l, init := acc[|acc| - 1], acc[..|acc| - 1];
    DoublesJoin(l, a);
    DoublesJoin(a, b);
    assert [a, b] == [a] + [b];
    PushAllAppend(acc, [a], [b]);
    PushAllOne(acc, a);
    PushAllOne(Push(acc, a), b);
    PushAllOne(acc, Join(a, b));
    JoinAssociative(l, a, b);
    PushedOnto(acc, a);
    PushedOnto(init + [Join(l, a)], b);
    PushedOnto(acc, Join(a, b));
    LastsDiffer(init, Join(Join(l, a), b), Join(l, Join(a, b)));
  }

  lemma PushedOnto(acc: seq<Entry>, e: Entry)
    requires acc != [] && Joinable(acc[|acc| - 1], e)
    ensures Push(acc, e) == acc[..|acc| - 1] + [Join(acc[|acc| - 1], e)]
    ensures (acc[..|acc| - 1] + [Join(acc[|acc| - 1], e)])[..|acc| - 1] == acc[..|acc| - 1]
  {
  }

  lemma LastsDiffer(init: seq<Entry>, a: Entry, b: Entry)
    requires a.Double? && b.Double? && a != b
    ensures Differ(init + [a], init + [b])
  {
    assert (init + [a])[|init|] == a && (init + [b])[|init|] == b;
  }

  /** All ways to add up the list end with the same list. */
  ghost predicate OrderIsHidden(ps: seq<Entry>) {
    forall steps: seq<nat>, qs: seq<Entry> :: AddsUpTo(ps, steps, qs) && NothingToAdd(qs) ==> qs == Collapse(ps)
  }

  /**
   All orders of additions in a list end with the same terms exactly when no three doubles stand in a
   row; where they do, the order can be observed for some values of the doubles.
   */
  lemma OrderIsObservable(ps: seq<Entry>)
    ensures OrderIsHidden(ps) <==> forall i :: !ThreeDoubles(ps, i)
  {
    hide Collapse, ThreeDoubles, AddAt, NothingToAdd;
    if i: nat :| ThreeDoubles(ps, i) {
      OtherOrderDiffers(ps, i);
      ThreeAreInside(ps, i);
      var steps := LeftToRight(AddAt(ps, i + 1));
      assert ([i + 1] + steps)[1..] == steps;
      assert AddsUpTo(ps, [i + 1] + steps, Collapse(AddAt(ps, i + 1)));
    } else {
      forall steps, qs | AddsUpTo(ps, steps, qs) && NothingToAdd(qs) ensures qs == Collapse(ps) { BracketingIsExact(ps, steps, qs); }
    }
  }

  lemma ThreeAreInside(ps: seq<Entry>, i: nat)
    requires ThreeDoubles(ps, i)
    ensures i + 2 < |ps|
  {
  }

  /** The sum of a list of summands depends on its halves only through their sums. */
  lemma CollapseHalves(ps: seq<Entry>, qs: seq<Entry>)
    ensures LooseParts(Collapse(ps + qs)) == LooseParts(PushAll(Collapse(ps), Collapse(qs)))
  {
    hide LooseParts;
    CollapseIsPushAll(ps);
    CollapseIsPushAll(qs);
    CollapseIsPushAll(ps + qs);
    PushAllAppend([], ps, qs);
    PushAllSum(Collapse(ps), qs);
  }

  lemma {:induction false} PushAllSum(acc: seq<Entry>, qs: seq<Entry>)
    ensures LooseParts(PushAll(acc, qs)) == LooseParts(PushAll(acc, Collapse(qs)))
  {
    hide LooseParts, PushAll, Push, Join, Joinable;
    if qs != [] {
      var init, e := qs[..|qs| - 1], qs[|qs| - 1];
      var c := Collapse(init);
      assert qs == init + [e];
      PushAllSum(acc, init);
      PushAllAppend(acc, init, [e]);
      PushAllLoose(PushAll(acc, init), PushAll(acc, c), [e]);
      PushAllLast(acc, c, e);
    }
  }

  lemma PushAllLast(acc: seq<Entry>, c: seq<Entry>, e: Entry)
    ensures LooseParts(PushAll(PushAll(acc, c), [e])) == LooseParts(PushAll(acc, Push(c, e)))
  {
    hide LooseParts, PushAll, Join, Joinable;
    PushAllAppend(acc, c, [e]);
    if c != [] && Joinable(c[|c| - 1], e) {
      var l, d := c[|c| - 1], c[..|c| - 1];
      assert c + [e] == d + [l, e] && Push(c, e) == d + [Join(l, e)];
      PushAllAppend(acc, d, [l, e]);
      PushAllAppend(acc, d, [Join(l, e)]);
      PushAllPair(PushAll(acc, d), l, e);
    }
  }
}
