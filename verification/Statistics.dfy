/** The counters that decide whether a subtree is finished. */
module Statistics {
  import opened Tree
  import opened Sums

  datatype Counter = Nulls | Atoms | Arrays | Objects | Functions | Additions | Asterisks | References

  ghost function Tally(c: Concat, w: Counter): nat {
    (if w == Additions && |c.parts| > 1 then 1 else 0) + TallyParts(c.parts, w)
  }

  ghost function TallyParts(ps: seq<Entry>, w: Counter): nat {
    if ps == [] then 0 else TallyEntry(ps[0], w) + TallyParts(ps[1..], w)
  }

  ghost function TallyElements(es: seq<Concat>, w: Counter): nat {
    if es == [] then 0 else Tally(es[0], w) + TallyElements(es[1..], w)
  }

  ghost function TallyEntry(e: Entry, w: Counter): nat {
    match e
    case Null => if w == Nulls then 1 else 0
    case Array(f, es) => (if w == (if f == "" then Arrays else Functions) then 1 else 0) + TallyElements(es, w)
    case Object(m) => (if w == Objects then 1 else 0) + Sum(map n | n in m :: Tally(m[n], w))
    case Asterisk(c) => (if w == Asterisks then 1 else 0) + Tally(c, w)
    case Reference(_) => if w == References then 1 else 0
    case _ => if w == Atoms then 1 else 0
  }

  predicate Pending(w: Counter) {
    w == Functions || w == Additions || w == Asterisks || w == References
  }

  ghost predicate NothingPending(c: Concat) {
    forall w | Pending(w) :: Tally(c, w) == 0
  }

  ghost predicate PartsAllZero(ps: seq<Entry>, w: Counter) {
    forall i | 0 <= i < |ps| :: TallyEntry(ps[i], w) == 0
  }

  lemma {:induction false} PartsZero(ps: seq<Entry>, w: Counter)
    ensures TallyParts(ps, w) == 0 <==> PartsAllZero(ps, w)
    decreases |ps|
  {
    hide TallyEntry;
    if ps != [] {
      PartsZero(ps[1..], w);
      assert forall i | 1 <= i < |ps| :: ps[i] == ps[1..][i - 1];
    }
  }

  ghost predicate ElementsAllZero(es: seq<Concat>, w: Counter) {
    forall i | 0 <= i < |es| :: Tally(es[i], w) == 0
  }

  lemma {:induction false} ElementsZero(es: seq<Concat>, w: Counter)
    ensures TallyElements(es, w) == 0 <==> ElementsAllZero(es, w)
    decreases |es|
  {
    hide Tally;
    if es != [] {
      ElementsZero(es[1..], w);
      assert forall i | 1 <= i < |es| :: es[i] == es[1..][i - 1];
    }
  }

  ghost function TallyMembers(m: Members, w: Counter): nat {
    Sum(map n | n in m :: Tally(m[n], w))
  }

  lemma ObjectTally(m: Members, w: Counter)
    ensures TallyEntry(Object(m), w) == (if w == Objects then 1 else 0) + TallyMembers(m, w)
  {
  }

  lemma MembersZero(m: Members, w: Counter)
    ensures TallyMembers(m, w) == 0 <==> forall n | n in m :: Tally(m[n], w) == 0
  {
    hide Tally;
    var v := map n | n in m :: Tally(m[n], w);
    SumZero(v);
    assert forall n | n in m :: v[n] == Tally(m[n], w);
  }

  lemma TallyRemove(m: Members, n: string, w: Counter)
    requires n in m
    ensures TallyMembers(m, w) == Tally(m[n], w) + TallyMembers(m - {n}, w)
  {
    hide Tally;
    var v := map x | x in m :: Tally(m[x], w);
    SumRemove(v, n);
    assert v - {n} == map x | x in m - {n} :: Tally((m - {n})[x], w);
  }

  /** The four counters are zero exactly when nothing in the subtree is left to do. */
  lemma {:induction false} CountersDecide(c: Concat)
    ensures NothingPending(c) <==> Primitive(c)
  {
    hide TallyParts, TallyEntry, PrimitiveEntry;
    forall w: Counter
      ensures Tally(c, w) == 0 <==> !(w == Additions && |c.parts| > 1) && PartsAllZero(c.parts, w)
    {
      PartsZero(c.parts, w);
      assert Tally(c, w) == (if w == Additions && |c.parts| > 1 then 1 else 0) + TallyParts(c.parts, w);
    }
    forall i | 0 <= i < |c.parts| ensures NothingPendingIn(c.parts[i]) <==> PrimitiveEntry(c.parts[i]) {
      CountersDecideEntry(c.parts[i]);
    }
    if NothingPending(c) {
      assert Tally(c, Additions) == 0;
      forall i | 0 <= i < |c.parts| ensures NothingPendingIn(c.parts[i]) {
        forall w | Pending(w) ensures TallyEntry(c.parts[i], w) == 0 { assert Tally(c, w) == 0; }
      }
    }
  }

  ghost predicate NothingPendingIn(e: Entry) {
    forall w | Pending(w) :: TallyEntry(e, w) == 0
  }

  lemma {:induction false} CountersDecideEntry(e: Entry)
    ensures NothingPendingIn(e) <==> PrimitiveEntry(e)
    decreases e, 1
  {
    match e {
      case Array(_, _) => CountersDecideArray(e);
      case Object(_) => CountersDecideObject(e);
      case Asterisk(c) =>
        assert TallyEntry(e, Asterisks) > 0 && Pending(Asterisks);
      case Reference(_) =>
        assert TallyEntry(e, References) > 0 && Pending(References);
      case _ =>
        assert forall w | Pending(w) :: TallyEntry(e, w) == 0;
    }
  }

  lemma {:induction false} CountersDecideArray(e: Entry)
    requires e.Array?
    ensures NothingPendingIn(e) <==> PrimitiveEntry(e)
    decreases e, 0
  {
    hide Tally, Primitive, TallyElements;
    var f, es := e.call, e.elements;
    forall w: Counter
      ensures TallyEntry(e, w) == 0 <==> w != (if f == "" then Arrays else Functions) && ElementsAllZero(es, w)
    {
      ElementsZero(es, w);
      assert TallyEntry(e, w) == (if w == (if f == "" then Arrays else Functions) then 1 else 0) + TallyElements(es, w);
    }
    hide TallyEntry;
    forall i | 0 <= i < |es| ensures NothingPending(es[i]) <==> Primitive(es[i]) { CountersDecide(es[i]); }
    if NothingPendingIn(e) {
      assert TallyEntry(e, Functions) == 0;
      forall i | 0 <= i < |es| ensures NothingPending(es[i]) {
        forall w | Pending(w) ensures Tally(es[i], w) == 0 { assert TallyEntry(e, w) == 0; }
      }
    }
  }

  lemma {:induction false} CountersDecideObject(e: Entry)
    requires e.Object?
    ensures NothingPendingIn(e) <==> PrimitiveEntry(e)
    decreases e, 0
  {
    hide Tally, Primitive, TallyEntry, TallyMembers;
    var m := e.members;
    forall w: Counter
      ensures TallyEntry(e, w) == 0 <==> (w != Objects && forall n | n in m :: Tally(m[n], w) == 0)
    {
      ObjectTally(m, w);
      MembersZero(m, w);
    }
    forall n | n in m ensures NothingPending(m[n]) <==> Primitive(m[n]) { CountersDecide(m[n]); }
    if NothingPendingIn(e) {
      forall n | n in m ensures NothingPending(m[n]) {
        forall w | Pending(w) ensures Tally(m[n], w) == 0 { assert TallyEntry(e, w) == 0; }
      }
    }
  }

  class Statistics {
    var nulls: nat
    var atoms: nat
    var arrays: nat
    var objects: nat
    var functions: nat
    var additions: nat
    var asterisks: nat
    var references: nat

    function Value(w: Counter): nat
      reads this
    {
      match w
      case Nulls => nulls
      case Atoms => atoms
      case Arrays => arrays
      case Objects => objects
      case Functions => functions
      case Additions => additions
      case Asterisks => asterisks
      case References => references
    }

    constructor ()
      ensures forall w :: Value(w) == 0
    {
      nulls, atoms, arrays, objects, functions, additions, asterisks, references := 0, 0, 0, 0, 0, 0, 0, 0;
    }

    function IsPrimitive(): bool
      reads this
    {
      functions == 0 && additions == 0 && asterisks == 0 && references == 0
    }

    method Count(c: Concat)
      modifies this
      ensures forall w :: Value(w) == old(Value(w)) + Tally(c, w)
      decreases c, 1
    {
      hide TallyEntry;
      if |c.parts| > 1 { additions := additions + 1; }
      for i := 0 to |c.parts|
        invariant forall w :: Value(w) + TallyParts(c.parts[i..], w) == old(Value(w)) + Tally(c, w)
      {
        assert c.parts[i..][0] == c.parts[i] && c.parts[i..][1..] == c.parts[i + 1..];
        CountEntry(c.parts[i]);
      }
      assert c.parts[|c.parts|..] == [];
    }

    method CountEntry(e: Entry)
      modifies this
      ensures forall w :: Value(w) == old(Value(w)) + TallyEntry(e, w)
      decreases e, 1
    {
      hide Tally, TallyMembers, Sums.Sum;
      match e {
        case Null => nulls := nulls + 1;
        case Array(f, es) =>
          if f == "" { arrays := arrays + 1; } else { functions := functions + 1; }
          CountElements(e);
        case Object(m) =>
          CountMembers(e);
          objects := objects + 1;
          forall w { ObjectTally(m, w); }
        case Asterisk(c) =>
          asterisks := asterisks + 1;
          Count(c);
        case Reference(_) => references := references + 1;
        case _ => atoms := atoms + 1;
      }
    }

    method CountElements(e: Entry)
      requires e.Array?
      modifies this
      ensures forall w :: Value(w) == old(Value(w)) + TallyElements(e.elements, w)
      decreases e, 0
    {
      hide Tally;
      var es := e.elements;
      for i := 0 to |es|
        invariant forall w :: Value(w) + TallyElements(es[i..], w) == old(Value(w)) + TallyElements(es, w)
      {
        assert es[i..][0] == es[i] && es[i..][1..] == es[i + 1..];
        Count(es[i]);
      }
      assert es[|es|..] == [];
    }

    method CountMembers(e: Entry)
      requires e.Object?
      modifies this
      ensures forall w :: Value(w) == old(Value(w)) + TallyMembers(e.members, w)
      decreases e, 0
    {
      hide Tally, TallyMembers;
      var rest := e.members;
      while rest != map[]
        invariant rest.Keys <= e.members.Keys && forall n | n in rest :: rest[n] == e.members[n]
        invariant forall w :: Value(w) + TallyMembers(rest, w) == old(Value(w)) + TallyMembers(e.members, w)
        decreases |rest.Keys|
      {
        var n :| n in rest;
        forall w { TallyRemove(rest, n, w); }
        Count(rest[n]);
        assert (rest - {n}).Keys == rest.Keys - {n};
        rest := rest - {n};
      }
      forall w ensures TallyMembers(map[], w) == 0 { MembersZero(map[], w); }
    }
  }
}
