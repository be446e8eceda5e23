/** The functions pass in place, and why it makes progress. */
module Calls {
  import opened Tree
  import opened Names
  import opened Sums
  import opened Measure
  import opened Descent
  import opened Progress
  import opened Functions

  lemma {:induction false} PrimitiveCount(c: Concat, k: nat)
    requires Primitive(c) && k > 0
    ensures Count(c, k) == 0
  {
    hide CountEntry, PrimitiveEntry;
    var ps := c.parts;
    var w := seq(|ps|, i requires 0 <= i < |ps| => CountEntry(ps[i], k));
    forall i | 0 <= i < |ps| ensures w[i] == 0 { PrimitiveEntryCount(ps[i], k); }
    TotalZero(w);
    assert CountParts(ps, k) == Total(w);
  }

  lemma {:induction false} PrimitiveEntryCount(e: Entry, k: nat)
    requires PrimitiveEntry(e) && k > 0
    ensures CountEntry(e, k) == 0
  {
    match e {
      case Array(f, es) =>
        hide Count, Primitive;
        var w := seq(|es|, i requires 0 <= i < |es| => Count(es[i], k));
        forall i | 0 <= i < |es| ensures w[i] == 0 { PrimitiveCount(es[i], k); }
        TotalZero(w);
      case Object(m) =>
        hide Count, Primitive;
        var w := map n | n in m :: Count(m[n], k);
        forall n | n in w ensures w[n] == 0 { PrimitiveCount(m[n], k); }
        SumZero(w);
        ObjectCount(m, k);
      case _ =>
    }
  }

  lemma ElementCount(es: seq<Concat>, i: nat, k: nat)
    requires i < |es| && |es[i].parts| == 1
    ensures CountEntry(es[i].parts[0], k) <= CountElements(es, k)
  {
    hide CountEntry, CountElements;
    var c := es[i];
    assert es == es[..i] + ([c] + es[i + 1..]) && c.parts == [c.parts[0]];
    ElementsSplit(es[..i], [c] + es[i + 1..], k);
    ElementsSplit([c], es[i + 1..], k);
    ElementsSingle(c, k);
    PartsSingle(c.parts[0], k);
  }

  lemma {:induction false} DefaultMovesArgument(args: seq<Concat>) returns (i: nat)
    requires DefaultCall(args).Value?
    ensures i < |args| && |args[i].parts| == 1 && DefaultCall(args).entry == args[i].parts[0]
  {
    if args[0].parts[0].Null? {
      var j := DefaultMovesArgument(args[1..]);
      i := j + 1;
    } else {
      i := 0;
    }
  }

  /** The result of a call weighs less than the call, at level 1 and nowhere more above. */
  lemma CallDescends(fm: FunctionMap, f: string, args: seq<Concat>)
    requires ValidFunctions(fm) && f != "" && Invoke(fm, f, args).Value?
    ensures Drops(WEntry(Invoke(fm, f, args).entry), WEntry(Array(f, args)))
  {
    hide CountElements;
    var v := Invoke(fm, f, args).entry;
    var a := Array(f, args);
    forall k: nat | k >= 1
      ensures CountEntry(v, k) <= CountEntry(a, k)
      ensures k == 1 ==> CountEntry(v, k) < CountEntry(a, k)
    {
      if fm[f].Default? {
        var i := DefaultMovesArgument(args);
        ElementCount(args, i, k);
      } else {
        PrimitiveEntryCount(v, k);
      }
    }
    DropsByLevel(WEntry(v), WEntry(a), 1);
  }

  lemma EntriesChain(e: Entry, f: Entry, g: Entry)
    requires AdvancesEntry(e, f) && AdvancesEntry(f, g)
    ensures AdvancesEntry(e, g)
    ensures e == g ==> e == f
  {
    hide CountEntry;
    if e != f && f != g { DropsTransitive(WEntry(g), WEntry(f), WEntry(e)); }
  }

  lemma {:induction false} CallAllAdvances(fm: FunctionMap, c: Concat)
    requires ValidFunctions(fm) && CallAll(fm, c).Ok?
    ensures Advances(c, CallAll(fm, c).value)
    decreases c, |c.parts| + 1
  {
    hide CountParts, CallParts, Drops, AdvancesEntry, ValidFunctions;
    CallPartsAdvance(fm, c, 0);
    PartsAdvance(c.parts, CallAll(fm, c).value.parts);
    SameWeights(c.parts, c);
    SameWeights(CallAll(fm, c).value.parts, CallAll(fm, c).value);
  }

  lemma {:induction false} CallPartsAdvance(fm: FunctionMap, c: Concat, i: nat)
    requires ValidFunctions(fm) && i <= |c.parts| && CallParts(fm, c, i).Ok?
    ensures forall j | i <= j < |c.parts| :: AdvancesEntry(c.parts[j], CallParts(fm, c, i).value[j - i])
    decreases c, |c.parts| - i, 0
  {
    hide CallEntry, AdvancesEntry, ValidFunctions;
    if i < |c.parts| {
      CallEntryAdvances(fm, c.parts[i]);
      CallPartsAdvance(fm, c, i + 1);
      var v, w := CallParts(fm, c, i).value, CallParts(fm, c, i + 1).value;
      forall j | i <= j < |c.parts| ensures AdvancesEntry(c.parts[j], v[j - i]) {
        if j > i { assert v[j - i] == w[j - (i + 1)]; }
      }
    }
  }

  lemma {:induction false} CallEntryAdvances(fm: FunctionMap, e: Entry)
    requires ValidFunctions(fm) && CallEntry(fm, e).Ok?
    ensures AdvancesEntry(e, CallEntry(fm, e).value)
    decreases e, 0, 2
  {
    hide CallElements, CallMembers, CountEntry, Drops, ValidFunctions, Invoke, Advances;
    match e {
      case Array(f, es) =>
        CallElementsAdvance(fm, e, 0);
        var a := Array(f, CallElements(fm, e, 0).value);
        ArrayAdvances(f, es, a.elements);
        if f != "" && Invoke(fm, f, a.elements).Value? {
          CallDescends(fm, f, a.elements);
          EntriesChain(e, a, Invoke(fm, f, a.elements).entry);
        }
      case Object(m) =>
        CallMembersAdvance(fm, e, Sorted(m.Keys));
        ObjectAdvances(m, CallEntry(fm, e).value.members);
      case _ =>
    }
  }

  lemma {:induction false} CallElementsAdvance(fm: FunctionMap, e: Entry, j: nat)
    requires ValidFunctions(fm) && e.Array? && j <= |e.elements| && CallElements(fm, e, j).Ok?
    ensures forall i | j <= i < |e.elements| :: Advances(e.elements[i], CallElements(fm, e, j).value[i - j])
    decreases e, 0, 1, |e.elements| - j
  {
    hide CallAll, Advances, ValidFunctions;
    if j < |e.elements| {
      CallAllAdvances(fm, e.elements[j]);
      CallElementsAdvance(fm, e, j + 1);
      var v, w := CallElements(fm, e, j).value, CallElements(fm, e, j + 1).value;
      forall i | j <= i < |e.elements| ensures Advances(e.elements[i], v[i - j]) {
        if i > j { assert v[i - j] == w[i - (j + 1)]; }
      }
    }
  }

  lemma {:induction false} CallMembersAdvance(fm: FunctionMap, e: Entry, names: seq<string>)
    requires ValidFunctions(fm) && e.Object? && (forall n | n in names :: n in e.members) && CallMembers(fm, e, names).Ok?
    ensures forall n | n in names :: Advances(e.members[n], CallMembers(fm, e, names).value[n])
    decreases e, 0, 1, |names|
  {
    hide CallAll, Advances, ValidFunctions;
    if names != [] {
      CallAllAdvances(fm, e.members[names[0]]);
      CallMembersAdvance(fm, e, names[1..]);
    }
  }

  // ---- The pass in place ---------------------------------------------------------------------

  function Before<T>(done: seq<T>, rest: Result<seq<T>>): Result<seq<T>> {
    if rest.Ok? then Ok(done + rest.value) else rest
  }

  lemma BeforeNothing<T>(rest: Result<seq<T>>, xs: seq<T>)
    ensures Before(xs[..0], rest) == rest
  {
    if rest.Ok? { assert xs[..0] + rest.value == rest.value; }
  }

  lemma BeforeNext<T>(done: seq<T>, x: T, rest: Result<seq<T>>)
    ensures Before(done, if rest.Ok? then Ok([x] + rest.value) else rest) == Before(done + [x], rest)
  {
    if rest.Ok? { assert done + ([x] + rest.value) == done + [x] + rest.value; }
  }

  function Over(done: Members, rest: Result<Members>): Result<Members> {
    if rest.Ok? then Ok(done + rest.value) else rest
  }

  lemma OverAll(done: Members, rest: Result<Members>)
    requires rest.Ok? ==> done.Keys == rest.value.Keys
    ensures Over(done, rest) == rest
  {
    if rest.Ok? { assert done + rest.value == rest.value; }
  }

  lemma OverNothing(done: Members)
    ensures Over(done, Ok(map[])) == Ok(done)
  {
    assert done + map[] == done;
  }

  lemma OverFailed(done: Members, x: Error)
    ensures Over(done, Err(x)) == Err(x)
  {
  }

  lemma OverNext(done: Members, n: string, d: Concat, rest: Result<Members>)
    requires rest.Ok? ==> n !in rest.value
    ensures Over(done, if rest.Ok? then Ok(rest.value[n := d]) else rest) == Over(done[n := d], rest)
  {
    if rest.Ok? { assert done + rest.value[n := d] == done[n := d] + rest.value; }
  }

  class Phase2Functions {
    var root: Members
    var changes: nat
    const functions: FunctionMap

    constructor (o: Members, fm: FunctionMap)
      requires ValidFunctions(fm)
      ensures root == o && changes == 0 && functions == fm
    {
      root, changes, functions := o, 0, fm;
    }

    method Process() returns (r: Result<nat>)
      requires ValidFunctions(functions) && changes == 0
      modifies this
      ensures CallEntry(functions, Object(old(root))) == if r.Ok? then Ok(Object(root)) else Err(r.error)
      ensures r.Ok? ==> r.value == changes && (changes == 0 <==> root == old(root))
    {
      var e := ProcessEntry(Object(root));
      if e.Err? { return Err(e.error); }
      root := e.value.members;
      r := Ok(changes);
    }

    method ProcessConcat(c: Concat) returns (r: Result<Concat>)
      requires ValidFunctions(functions)
      modifies this`changes
      ensures r == CallAll(functions, c)
      ensures changes >= old(changes)
      ensures r.Ok? ==> (changes == old(changes) <==> r.value == c)
      decreases c, 1, 0
    {
      hide CallEntry, ValidFunctions;
      var ps := c.parts;
      BeforeNothing(CallParts(functions, c, 0), ps);
      for i := 0 to |ps|
        invariant |ps| == |c.parts|
        invariant CallParts(functions, c, 0) == Before(ps[..i], CallParts(functions, c, i))
        invariant forall j | i <= j < |ps| :: ps[j] == c.parts[j]
        invariant changes >= old(changes) && (changes == old(changes) <==> ps == c.parts)
      {
        var e := ProcessEntry(ps[i]);
        if e.Err? { return Err(e.error); }
        assert ps[i := e.value] == c.parts <==> ps == c.parts && e.value == c.parts[i];
        ps := ps[i := e.value];
        assert ps[..i + 1] == ps[..i] + [e.value];
        BeforeNext(ps[..i], e.value, CallParts(functions, c, i + 1));
      }
      assert ps[..|ps|] + [] == ps;
      r := Ok(c.(parts := ps));
    }

    method ProcessEntry(e: Entry) returns (r: Result<Entry>)
      requires ValidFunctions(functions)
      modifies this`changes
      ensures r == CallEntry(functions, e)
      ensures changes >= old(changes)
      ensures r.Ok? ==> (changes == old(changes) <==> r.value == e)
      decreases e, 2, 0
    {
      hide CallElements, CallMembers, Invoke, ValidFunctions, AdvancesEntry, Advances;
      if CallEntry(functions, e).Ok? { CallEntryAdvances(functions, e); }
      match e {
        case Array(f, es) =>
          var d := ProcessElements(e);
          if d.Err? { return Err(d.error); }
          if f == "" { return Ok(Array(f, d.value)); }
          var v := Invoke(functions, f, d.value);
          match v {
            case Value(x) =>
              CallElementsAdvance(functions, e, 0);
              ArrayAdvances(f, es, d.value);
              CallDescends(functions, f, d.value);
              CallIsChange(e, Array(f, d.value), x);
              changes := changes + 1;
              r := Ok(x);
            case NotYet => r := Ok(Array(f, d.value));
            case Fails(x) => r := Err(x);
          }
        case Object(m) =>
          var d := ProcessMembers(e);
          if d.Err? { return Err(d.error); }
          r := Ok(Object(d.value));
        case _ => r := Ok(e);
      }
    }

    method ProcessElements(e: Entry) returns (r: Result<seq<Concat>>)
      requires ValidFunctions(functions) && e.Array?
      modifies this`changes
      ensures r == CallElements(functions, e, 0)
      ensures changes >= old(changes)
      ensures r.Ok? ==> (changes == old(changes) <==> r.value == e.elements)
      decreases e, 1, 0
    {
      hide CallAll, ValidFunctions;
      var es := e.elements;
      BeforeNothing(CallElements(functions, e, 0), es);
      for i := 0 to |es|
        invariant |es| == |e.elements|
        invariant CallElements(functions, e, 0) == Before(es[..i], CallElements(functions, e, i))
        invariant forall j | i <= j < |es| :: es[j] == e.elements[j]
        invariant changes >= old(changes) && (changes == old(changes) <==> es == e.elements)
      {
        var d := ProcessConcat(es[i]);
        if d.Err? { return Err(d.error); }
        assert es[i := d.value] == e.elements <==> es == e.elements && d.value == e.elements[i];
        es := es[i := d.value];
        assert es[..i + 1] == es[..i] + [d.value];
        BeforeNext(es[..i], d.value, CallElements(functions, e, i + 1));
      }
      assert es[..|es|] + [] == es;
      r := Ok(es);
    }

    method ProcessMembers(e: Entry) returns (r: Result<Members>)
      requires ValidFunctions(functions) && e.Object?
      modifies this`changes
      ensures r == CallMembers(functions, e, Sorted(e.members.Keys))
      ensures changes >= old(changes)
      ensures r.Ok? ==> (changes == old(changes) <==> r.value == e.members)
      decreases e, 1, 0
    {
      hide CallAll, ValidFunctions, Over, CallMembers, CallEntry, Lists;
      var m, todo := e.members, Sorted(e.members.Keys);
      SortedDistinct(e.members.Keys);
      OverAll(m, CallMembers(functions, e, todo));
      while todo != []
        invariant m.Keys == e.members.Keys
        invariant forall n | n in todo :: n in e.members && m[n] == e.members[n]
        invariant forall i, j | 0 <= i < j < |todo| :: todo[i] != todo[j]
        invariant CallMembers(functions, e, Sorted(e.members.Keys)) == Over(m, CallMembers(functions, e, todo))
        invariant changes >= old(changes) && (changes == old(changes) <==> m == e.members)
        decreases |todo|
      {
        var n, rest := todo[0], todo[1..];
        CallMembersStep(functions, e, todo);
        var d := ProcessConcat(m[n]);
        if d.Err? {
          OverFailed(m, d.error);
          return Err(d.error);
        }
        assert n !in rest;
        assert m[n := d.value] == e.members <==> m == e.members && d.value == e.members[n];
        OverNext(m, n, d.value, CallMembers(functions, e, rest));
        m, todo := m[n := d.value], rest;
      }
      CallMembersStep(functions, e, []);
      OverNothing(m);
      r := Ok(m);
    }
  }

  lemma CallMembersStep(fm: FunctionMap, e: Entry, names: seq<string>)
    requires e.Object? && forall n | n in names :: n in e.members
    ensures names == [] ==> CallMembers(fm, e, names) == Ok(map[])
    ensures names != [] && CallAll(fm, e.members[names[0]]).Err? ==>
      CallMembers(fm, e, names) == Err(CallAll(fm, e.members[names[0]]).error)
    ensures names != [] && CallAll(fm, e.members[names[0]]).Ok? ==>
      CallMembers(fm, e, names) ==
      var rest := CallMembers(fm, e, names[1..]);
      if rest.Ok? then Ok(rest.value[names[0] := CallAll(fm, e.members[names[0]]).value]) else rest
  {
    hide CallAll;
  }

  lemma CallIsChange(e: Entry, f: Entry, g: Entry)
    requires AdvancesEntry(e, f) && Drops(WEntry(g), WEntry(f))
    ensures e != g
  {
    hide CountEntry;
    EntriesChain(e, f, g);
    NotSame(WEntry(g), WEntry(f));
  }
}
