/** Generations tell a new array element from one that is being continued. */
module Generations {
  import opened Tree
  import opened Phase1
  import opened Parser

  // ---- Counters only grow --------------------------------------------------------------------

  lemma {:induction false} ListAdvances(g: nat, vl: ValueList)
    ensures GenList(g, vl) > g
    decreases vl, 1
  {
    hide GenParts;
    PartsAdvance(g, vl.parts);
  }

  lemma {:induction false} PartsAdvance(g: nat, vs: seq<ValuePart>)
    ensures GenParts(g, vs) >= g
    decreases vs, 0
  {
    if vs != [] {
      match vs[0] {
        case ArrayPart(es) => ElementsAdvance(g + 1, es);
        case FunctionPart(_, es) => ElementsAdvance(g + 1, es);
        case ObjectPart(ms) => MembersAdvance(g, ms);
        case _ =>
      }
      PartsAdvance(GenPart(g, vs[0]), vs[1..]);
    }
  }

  lemma {:induction false} ElementsAdvance(g: nat, es: seq<ValueList>)
    ensures GenElements(g, es) >= g
    decreases es, 0
  {
    hide GenList;
    if es != [] {
      ListAdvances(g, es[0]);
      ElementsAdvance(GenList(g, es[0]), es[1..]);
    }
  }

  lemma {:induction false} MembersAdvance(g: nat, ms: seq<MemberDef>)
    ensures GenMembers(g, ms) >= g
    decreases ms, 0
  {
    hide GenList;
    if ms != [] {
      if ms[0].Assign? || ms[0].AppendTo? { ListAdvances(g, ms[0].value); }
      MembersAdvance(GenMember(g, ms[0]), ms[1..]);
    }
  }

  // ---- What an array literal adds ------------------------------------------------------------

  /** The elements of a literal, each built on its own from nothing. */
  function NewElements(g: nat, es: seq<ValueList>): (r: Result<seq<Concat>>)
    ensures r.Ok? ==> |r.value| == |es|
    decreases |es|
  {
    if es == [] then Ok([])
    else
      var d := BuildList(EMPTY, g, es[0]);
      if d.Err? then Err(d.error)
      else
        var r := NewElements(GenList(g, es[0]), es[1..]);
        if r.Ok? then Ok([d.value] + r.value) else r
  }

  /** The generation in which the last element was begun. */
  function LastBegun(before: nat, g: nat, es: seq<ValueList>): nat
    decreases |es|
  {
    if es == [] then before else LastBegun(g, GenList(g, es[0]), es[1..])
  }

  lemma OneElement(c: Concat, g: nat, vl: ValueList)
    requires c.parts != [] && LastPart(c).Array? && c.generation < g
    ensures Focus(c, [Append(g)], x => BuildList(x, g, vl), Manifest) ==
      var d := BuildList(EMPTY, g, vl);
      if d.Ok? then Ok(WithLast(c.(generation := g), Array(LastPart(c).call, LastPart(c).elements + [d.value]))) else d
  {
    hide BuildList;
    assert [Append(g)][1..] == [];
    assert Focus(EMPTY, [], x => BuildList(x, g, vl), Manifest) == BuildList(EMPTY, g, vl);
  }

  /**
   An array literal with `n` elements adds exactly `n` elements, in order, to the array at the end
   of the path, and each of them holds exactly what its own summands build from nothing.
   */
  lemma {:induction false} LiteralAddsItsElements(c: Concat, g: nat, es: seq<ValueList>)
    requires c.parts != [] && LastPart(c).Array? && c.generation < g
    ensures BuildElements(c, g, es) ==
      var n := NewElements(g, es);
      if n.Err? then Err(n.error)
      else Ok(WithLast(c, Array(LastPart(c).call, LastPart(c).elements + n.value)).(generation := LastBegun(c.generation, g, es)))
    decreases |es|
  {
    hide BuildList, Focus, GenList;
    if es == [] {
      assert LastPart(c).elements + [] == LastPart(c).elements;
      assert c.parts[|c.parts| - 1 := LastPart(c)] == c.parts;
    } else {
      OneElement(c, g, es[0]);
      ListAdvances(g, es[0]);
      var d := BuildList(EMPTY, g, es[0]);
      if d.Ok? {
        var a := LastPart(c);
        var e := WithLast(c.(generation := g), Array(a.call, a.elements + [d.value]));
        LiteralAddsItsElements(e, GenList(g, es[0]), es[1..]);
        var n := NewElements(GenList(g, es[0]), es[1..]);
        if n.Ok? {
          assert a.elements + [d.value] + n.value == a.elements + ([d.value] + n.value);
          var whole := Array(a.call, a.elements + ([d.value] + n.value));
          assert e.parts[|e.parts| - 1 := whole] == c.parts[|c.parts| - 1 := whole];
        }
      }
    }
  }

  // ---- No concat is ahead of the counter -----------------------------------------------------

  ghost predicate Within(c: Concat, g: nat) {
    c.generation <= g && forall i | 0 <= i < |c.parts| :: WithinEntry(c.parts[i], g)
  }

  ghost predicate WithinEntry(e: Entry, g: nat) {
    match e
    case Array(_, es) => forall i | 0 <= i < |es| :: Within(es[i], g)
    case Object(m) => forall n | n in m :: Within(m[n], g)
    case Asterisk(c) => Within(c, g)
    case _ => true
  }

  lemma {:induction false} WithinMore(c: Concat, g: nat, h: nat)
    requires Within(c, g) && g <= h
    ensures Within(c, h)
  {
    hide WithinEntry;
    forall i | 0 <= i < |c.parts| ensures WithinEntry(c.parts[i], h) { WithinMoreEntry(c.parts[i], g, h); }
  }

  lemma {:induction false} WithinMoreEntry(e: Entry, g: nat, h: nat)
    requires WithinEntry(e, g) && g <= h
    ensures WithinEntry(e, h)
  {
    hide Within;
    match e {
      case Array(_, es) => forall i | 0 <= i < |es| ensures Within(es[i], h) { WithinMore(es[i], g, h); }
      case Object(m) => forall n | n in m ensures Within(m[n], h) { WithinMore(m[n], g, h); }
      case Asterisk(c) => WithinMore(c, g, h);
      case _ =>
    }
  }

  /** A result that keeps to the counter and is not a failed assertion. */
  ghost predicate Fine(r: Result<Concat>, h: nat) {
    if r.Ok? then Within(r.value, h) else r.error != AssertionFailed
  }

  ghost predicate FineStep(f: Step, g: nat, h: nat) {
    forall x :: Within(x, g) ==> Fine(f(x), h)
  }

  lemma EnsureWithin(c: Concat, g: nat)
    requires Within(c, g)
    ensures Within(EnsureArray(c), g) && Within(EnsureObject(c), g) && Within(EnsureAsterisk(c), g)
    ensures Within(EMPTY, g)
  {
  }

  lemma LastWithin(c: Concat, e: Entry, g: nat)
    requires c.parts != [] && Within(c, g)
    ensures WithinEntry(LastPart(c), g)
    ensures WithinEntry(e, g) ==> Within(WithLast(c, e), g)
  {
    hide WithinEntry;
  }

  lemma {:induction false} FocusIsFine(c: Concat, path: Key, f: Step, mode: Mode, g: nat, h: nat)
    requires Written(path) && Within(c, g) && g <= h && FineStep(f, g, h)
    ensures Fine(Focus(c, path, f, mode), h)
    decreases |path|
  {
    hide Within, FineStep, WithinEntry;
    if path == [] {
      assert Fine(f(c), h) by { StepIsFine(f, c, g, h); }
    } else {
      var t := path[1..];
      EnsureWithin(c, g);
      match path[0] {
        case Star =>
          var d := EnsureAsterisk(c);
          LastWithin(d, Null, g);
          StarWithin(LastPart(d), g);
          FocusIsFine(LastPart(d).star, t, f, mode, g, h);
          var x := Focus(LastPart(d).star, t, f, mode);
          if x.Ok? { WithinMore(d, g, h); StarOf(x.value, h); LastWithin(d, Asterisk(x.value), h); }
        case Name(n) =>
          var d := EnsureObject(c);
          LastWithin(d, Null, g);
          var m := LastPart(d).members;
          MemberWithin(m, n, mode, g);
          FocusIsFine(Member(m, n, mode), t, f, mode, g, h);
          var x := Focus(Member(m, n, mode), t, f, mode);
          if x.Ok? { WithinMore(d, g, h); LastWithin(d, Null, h); ObjectOf(m, n, x.value, h); LastWithin(d, Object(m[n := x.value]), h); }
        case Index(i) =>
          var l := Locate(c.parts, i);
          LocateFails(c.parts, i);
          if l.Ok? {
            var (k, j) := l.value;
            PartWithin(c, k, g);
            ElementWithin(c.parts[k], j, g);
            FocusIsFine(c.parts[k].elements[j], t, f, mode, g, h);
            var x := Focus(c.parts[k].elements[j], t, f, mode);
            if x.Ok? { WithinMore(c, g, h); PartWithin(c, k, h); ArrayOf(c.parts[k], j, x.value, h); WithPart(c, k, Array(c.parts[k].call, c.parts[k].elements[j := x.value]), h); }
          }
      }
    }
  }

  lemma StepIsFine(f: Step, c: Concat, g: nat, h: nat)
    requires FineStep(f, g, h) && Within(c, g)
    ensures Fine(f(c), h)
  {
  }

  lemma StarWithin(e: Entry, g: nat)
    requires WithinEntry(e, g) && e.Asterisk?
    ensures Within(e.star, g)
  {
  }

  lemma StarOf(c: Concat, g: nat)
    requires Within(c, g)
    ensures WithinEntry(Asterisk(c), g)
  {
  }

  lemma MemberWithin(m: Members, n: string, mode: Mode, g: nat)
    requires WithinEntry(Object(m), g)
    ensures Within(Member(m, n, mode), g)
  {
    if n in m { assert Within(m[n], g); }
  }

  lemma ObjectOf(m: Members, n: string, c: Concat, g: nat)
    requires WithinEntry(Object(m), g) && Within(c, g)
    ensures WithinEntry(Object(m[n := c]), g)
  {
  }

  lemma {:induction false} LocateFails(ps: seq<Entry>, n: nat)
    ensures Locate(ps, n).Err? ==> Locate(ps, n).error != AssertionFailed
    decreases |ps|
  {
    if ps != [] && ps[0].Array? && n >= |ps[0].elements| { LocateFails(ps[1..], n - |ps[0].elements|); }
  }

  lemma PartWithin(c: Concat, k: nat, g: nat)
    requires Within(c, g) && k < |c.parts|
    ensures WithinEntry(c.parts[k], g)
  {
  }

  lemma WithPart(c: Concat, k: nat, e: Entry, g: nat)
    requires Within(c, g) && k < |c.parts| && WithinEntry(e, g)
    ensures Within(c.(parts := c.parts[k := e]), g)
  {
    hide WithinEntry;
  }

  lemma ElementWithin(e: Entry, j: nat, g: nat)
    requires WithinEntry(e, g) && e.Array? && j < |e.elements|
    ensures Within(e.elements[j], g)
  {
  }

  lemma ArrayOf(e: Entry, j: nat, c: Concat, g: nat)
    requires WithinEntry(e, g) && e.Array? && j < |e.elements| && Within(c, g)
    ensures WithinEntry(Array(e.call, e.elements[j := c]), g)
  {
  }

  lemma ByCases(f: Step, g: nat, h: nat)
    requires forall x :: Within(x, g) ==> Fine(f(x), h)
    ensures FineStep(f, g, h)
  {
  }

  /** Building never leaves the counter behind, and no assertion of phase 1 fails. */
  lemma {:induction false} PartIsFine(c: Concat, g: nat, v: ValuePart)
    requires Within(c, g) && Proper(v)
    ensures Fine(BuildPart(c, g, v), GenPart(g, v))
    decreases v, 0
  {
    hide Within, WithinEntry, BuildElements, BuildMembers, GenElements, GenMembers;
    EnsureWithin(c, g);
    match v {
      case AtomPart(e) => AtomWithin(c, e, g);
      case ReferencePart(r) => AtomWithin(c, Reference(r), g);
      case ArrayPart(es) =>
        WithinMore(EnsureArray(c), g, g + 1);
        ElementsAreFine(EnsureArray(c), g + 1, es);
      case FunctionPart(n, es) =>
        var d := EnsureArray(c);
        LastWithin(d, Null, g);
        CallWithin(LastPart(d), n, g);
        LastWithin(d, Array(n, LastPart(d).elements), g);
        WithinMore(DoFunction(n)(c).value, g, g + 1);
        ElementsAreFine(DoFunction(n)(c).value, g + 1, es);
      case ObjectPart(ms) =>
        MembersAreFine(EnsureObject(c), g, ms);
    }
  }

  lemma CallWithin(e: Entry, n: string, g: nat)
    requires WithinEntry(e, g) && e.Array?
    ensures WithinEntry(Array(n, e.elements), g)
  {
  }

  lemma AtomWithin(c: Concat, e: Entry, g: nat)
    requires Within(c, g) && (IsAtom(e) || e.Reference?)
    ensures Within(c.(parts := c.parts + [e]), g)
  {
    assert WithinEntry(e, g);
    hide WithinEntry;
  }

  lemma {:induction false} ListIsFine(g: nat, vl: ValueList, h: nat)
    requires ProperList(vl) && h >= GenList(g, vl)
    ensures FineStep(x => BuildList(x, g, vl), g, h)
    decreases vl, 1
  {
    hide Within, BuildParts, GenParts;
    var f: Step := x => BuildList(x, g, vl);
    forall x | Within(x, g) ensures Fine(f(x), h) {
      PartsAreFine(x, g, vl.parts);
      var r := BuildParts(x, g, vl.parts);
      if r.Ok? { WithinMore(r.value, GenParts(g, vl.parts), h); }
    }
    ByCases(x => BuildList(x, g, vl), g, h);
  }

  lemma {:induction false} PartsAreFine(c: Concat, g: nat, vs: seq<ValuePart>)
    requires Within(c, g) && forall i | 0 <= i < |vs| :: Proper(vs[i])
    ensures Fine(BuildParts(c, g, vs), GenParts(g, vs))
    decreases vs, 0
  {
    hide Within, BuildPart, GenPart, Proper;
    if vs != [] {
      PartIsFine(c, g, vs[0]);
      var r := BuildPart(c, g, vs[0]);
      if r.Ok? { PartsAreFine(r.value, GenPart(g, vs[0]), vs[1..]); }
    }
  }

  lemma {:induction false} ElementsAreFine(c: Concat, g: nat, es: seq<ValueList>)
    requires Within(c, g) && c.parts != [] && LastPart(c).Array?
    requires (es != [] ==> c.generation < g) && forall i | 0 <= i < |es| :: ProperList(es[i])
    ensures Fine(BuildElements(c, g, es), GenElements(g, es))
    decreases es, 0
  {
    hide Within, WithinEntry, BuildList, GenList, ProperList, Focus;
    if es != [] {
      var h := GenList(g, es[0]);
      ListAdvances(g, es[0]);
      OneElement(c, g, es[0]);
      ListIsFine(g, es[0], h);
      EmptyWithin(g);
      StepIsFine(x => BuildList(x, g, es[0]), EMPTY, g, h);
      var d := BuildList(EMPTY, g, es[0]);
      if d.Ok? {
        var a := LastPart(c);
        var e := WithLast(c.(generation := g), Array(a.call, a.elements + [d.value]));
        NewElementWithin(c, g, h, d.value);
        ElementsAreFine(e, h, es[1..]);
      }
    }
  }

  lemma EmptyWithin(g: nat)
    ensures Within(EMPTY, g)
  {
  }

  lemma NewElementWithin(c: Concat, g: nat, h: nat, d: Concat)
    requires c.parts != [] && LastPart(c).Array? && Within(c, g) && g <= h && Within(d, h)
    ensures Within(WithLast(c.(generation := g), Array(LastPart(c).call, LastPart(c).elements + [d])), h)
  {
    WithinMore(c, g, h);
    LastWithin(c, Null, h);
    var a := LastPart(c);
    assert WithinEntry(Array(a.call, a.elements + [d]), h) by { hide Within; }
    LastWithin(c, Array(a.call, a.elements + [d]), h);
  }

  lemma {:induction false} MembersAreFine(c: Concat, g: nat, ms: seq<MemberDef>)
    requires Within(c, g) && forall i | 0 <= i < |ms| :: ProperMember(ms[i])
    ensures Fine(BuildMembers(c, g, ms), GenMembers(g, ms))
    decreases ms, 0
  {
    hide Within, BuildMember, GenMember, ProperMember;
    if ms != [] {
      MemberIsFine(c, g, ms[0]);
      var r := BuildMember(c, g, ms[0]);
      if r.Ok? { MembersAreFine(r.value, GenMember(g, ms[0]), ms[1..]); }
    }
  }

  lemma FlagsAreFine(g: nat, flag: bool)
    ensures FineStep(DoAssign, g, g) && FineStep(DoTemporary(flag), g, g)
  {
    hide WithinEntry;
    ByCases(DoAssign, g, g);
    ByCases(DoTemporary(flag), g, g);
  }

  lemma {:induction false} MemberIsFine(c: Concat, g: nat, d: MemberDef)
    requires Within(c, g) && ProperMember(d)
    ensures Fine(BuildMember(c, g, d), GenMember(g, d))
    decreases d, 0
  {
    hide Within, WithinEntry, Focus, BuildList, GenList, FineStep, ProperList;
    var k := d.key;
    FlagsAreFine(g, d.SetTemporary? && d.flag);
    FocusIsFine(c, k, DoAssign, Implicit, g, g);
    match d {
      case Assign(_, vl) =>
        var r := Focus(c, k, DoAssign, Implicit);
        ListAdvances(g, vl);
        ListIsFine(g, vl, GenList(g, vl));
        if r.Ok? { FocusIsFine(r.value, k, x => BuildList(x, g, vl), Manifest, g, GenList(g, vl)); }
      case Delete(_) =>
      case AppendTo(_, vl) =>
        ListAdvances(g, vl);
        ListIsFine(g, vl, GenList(g, vl));
        FocusIsFine(c, k, x => BuildList(x, g, vl), Manifest, g, GenList(g, vl));
      case SetTemporary(_, flag) =>
        FocusIsFine(c, k, DoTemporary(flag), Implicit, g, g);
    }
  }
}
