/** Writing along paths from the root is the same as building in place. */
module ParserLaws {
  import opened Tree
  import opened Phase1
  import opened Parser

  /** The outcome of a run that did `f` at the path `p` and ended with generation `g`. */
  ghost function At(m: Members, p: Key, f: Step, g: nat): Result<State> {
    var r := FocusRoot(m, p, f, Manifest);
    if r.Ok? then Ok(State(r.value, g)) else Err(r.error)
  }

  lemma AtCongruence(m: Members, p: Key, f: Step, h: Step, g: nat)
    requires forall x :: f(x) == h(x)
    ensures At(m, p, f, g) == At(m, p, h, g)
  {
    RootCongruence(m, p, f, h, Manifest);
  }

  ghost function Next(f: Step, h: Step): Step {
    x => AndThen(f(x), h)
  }

  lemma KeepsNext(f: Step, h: Step)
    requires KeepsImplicit(f) && KeepsImplicit(h)
    ensures KeepsImplicit(Next(f, h))
  {
  }

  // ---- Building keeps the implicit flag ------------------------------------------------------

  lemma KeepsFocus(q: Key, h: Step, mode: Mode)
    requires KeepsImplicit(h)
    ensures KeepsImplicit(y => Focus(y, q, h, mode))
  {
    hide Focus, KeepsImplicit;
    forall y: Concat ensures Focus(y, q, h, mode).Ok? ==> Focus(y, q, h, mode).value.implicit == y.implicit {
      FocusKeepsImplicit(y, q, h, mode);
    }
    var f: Step := y => Focus(y, q, h, mode);
    ByPoints(f);
  }

  lemma ByPoints(f: Step)
    requires forall x :: f(x).Ok? ==> f(x).value.implicit == x.implicit
    ensures KeepsImplicit(f)
  {
  }

  lemma {:induction false} KeepsParts(c: Concat, g: nat, vs: seq<ValuePart>)
    ensures BuildParts(c, g, vs).Ok? ==> BuildParts(c, g, vs).value.implicit == c.implicit
    decreases vs, 0
  {
    hide BuildPart;
    if vs != [] {
      KeepsPart(c, g, vs[0]);
      var r := BuildPart(c, g, vs[0]);
      if r.Ok? { KeepsParts(r.value, GenPart(g, vs[0]), vs[1..]); }
    }
  }

  lemma {:induction false} KeepsPart(c: Concat, g: nat, v: ValuePart)
    ensures BuildPart(c, g, v).Ok? ==> BuildPart(c, g, v).value.implicit == c.implicit
    decreases v, 0
  {
    hide BuildElements, BuildMembers;
    match v {
      case ArrayPart(es) => KeepsElements(EnsureArray(c), g + 1, es);
      case FunctionPart(n, es) => KeepsElements(DoFunction(n)(c).value, g + 1, es);
      case ObjectPart(ms) => KeepsMembers(EnsureObject(c), g, ms);
      case _ =>
    }
  }

  lemma {:induction false} KeepsList(g: nat, vl: ValueList)
    ensures KeepsImplicit(x => BuildList(x, g, vl))
    decreases vl, 1
  {
    hide BuildParts, KeepsImplicit;
    var f: Step := x => BuildList(x, g, vl);
    forall x ensures f(x).Ok? ==> f(x).value.implicit == x.implicit { KeepsParts(x, g, vl.parts); }
    ByPoints(f);
    ByPoints(x => BuildList(x, g, vl));
  }

  lemma {:induction false} KeepsElements(c: Concat, g: nat, es: seq<ValueList>)
    ensures BuildElements(c, g, es).Ok? ==> BuildElements(c, g, es).value.implicit == c.implicit
    decreases es, 0
  {
    hide Focus, BuildList, KeepsImplicit;
    if es != [] {
      KeepsList(g, es[0]);
      FocusKeepsImplicit(c, [Append(g)], x => BuildList(x, g, es[0]), Manifest);
      var r := Focus(c, [Append(g)], x => BuildList(x, g, es[0]), Manifest);
      if r.Ok? { KeepsElements(r.value, GenList(g, es[0]), es[1..]); }
    }
  }

  lemma {:induction false} KeepsMembers(c: Concat, g: nat, ms: seq<MemberDef>)
    ensures BuildMembers(c, g, ms).Ok? ==> BuildMembers(c, g, ms).value.implicit == c.implicit
    decreases ms, 0
  {
    hide BuildMember;
    if ms != [] {
      KeepsMember(c, g, ms[0]);
      var r := BuildMember(c, g, ms[0]);
      if r.Ok? { KeepsMembers(r.value, GenMember(g, ms[0]), ms[1..]); }
    }
  }

  lemma {:induction false} KeepsMember(c: Concat, g: nat, d: MemberDef)
    ensures BuildMember(c, g, d).Ok? ==> BuildMember(c, g, d).value.implicit == c.implicit
    decreases d, 0
  {
    hide Focus, BuildList;
    FocusKeepsImplicit(c, d.key, DoAssign, Implicit);
    match d {
      case Assign(k, vl) =>
        KeepsList(g, vl);
        var r := Focus(c, k, DoAssign, Implicit);
        if r.Ok? { FocusKeepsImplicit(r.value, k, x => BuildList(x, g, vl), Manifest); }
      case Delete(k) =>
      case AppendTo(k, vl) =>
        KeepsList(g, vl);
        FocusKeepsImplicit(c, k, x => BuildList(x, g, vl), Manifest);
      case SetTemporary(k, flag) => FocusKeepsImplicit(c, k, DoTemporary(flag), Implicit);
    }
  }

  // ---- The state machine builds in place -----------------------------------------------------

  /** A run that failed at `p` stays failed. */
  lemma FailedRun(m: Members, p: Key, f: Step, h: Step, g: nat, i: nat)
    requires KeepsImplicit(f) && p != [] && |p| <= NESTING_LIMIT && At(m, p, f, g).Err?
    ensures At(m, p, Next(f, h), i) == At(m, p, f, g)
  {
    hide FocusRoot, KeepsImplicit, AndThen;
    assert p + [] == p;
    RootTwice(m, p, [], f, h, Manifest);
    RootCongruence(m, p, x => AndThen(f(x), y => Focus(y, [], h, Manifest)), Next(f, h), Manifest) by { NoFurther(f, h); }
  }

  lemma NoFurther(f: Step, h: Step)
    ensures forall x :: AndThen(f(x), y => Focus(y, [], h, Manifest)) == Next(f, h)(x)
  {
    forall x: Concat ensures AndThen(f(x), y => Focus(y, [], h, Manifest)) == Next(f, h)(x) { }
  }

  /** A run that did `h` at `p + q`, after `f` at `p`. */
  lemma AfterStep(m: Members, p: Key, q: Key, f: Step, h: Step, g: nat, i: nat)
    requires KeepsImplicit(f) && p != [] && |p + q| <= NESTING_LIMIT && At(m, p, f, g).Ok?
    ensures At(At(m, p, f, g).value.root, p + q, h, i) == At(m, p, Next(f, y => Focus(y, q, h, Manifest)), i)
  {
    hide FocusRoot, KeepsImplicit, AndThen, Focus;
    RootTwice(m, p, q, f, h, Manifest);
    RootCongruence(m, p, x => AndThen(f(x), y => Focus(y, q, h, Manifest)), Next(f, y => Focus(y, q, h, Manifest)), Manifest);
  }

  lemma NextCongruence(m: Members, p: Key, f: Step, h: Step, l: Step, g: nat)
    requires forall x :: h(x) == l(x)
    ensures At(m, p, Next(f, h), g) == At(m, p, Next(f, l), g)
  {
    hide FocusRoot;
    forall x: Concat ensures Next(f, h)(x) == Next(f, l)(x) {
      if f(x).Ok? { assert h(f(x).value) == l(f(x).value); }
    }
    AtCongruence(m, p, Next(f, h), Next(f, l), g);
  }

  lemma NextAssociates(m: Members, p: Key, f: Step, h: Step, l: Step, g: nat)
    ensures At(m, p, Next(Next(f, h), l), g) == At(m, p, Next(f, Next(h, l)), g)
  {
    hide FocusRoot;
    forall x: Concat ensures Next(Next(f, h), l)(x) == Next(f, Next(h, l))(x) {
      assert Next(f, h)(x) == AndThen(f(x), h);
      if f(x).Ok? { assert Next(h, l)(f(x).value) == AndThen(h(f(x).value), l); }
    }
    AtCongruence(m, p, Next(Next(f, h), l), Next(f, Next(h, l)), g);
  }

  predicate Fitting(p: Key, vs: seq<ValuePart>) {
    p != [] && |p| <= NESTING_LIMIT
    && forall i | 0 <= i < |vs| :: Proper(vs[i]) && Fits(NESTING_LIMIT - |p|, vs[i])
  }

  lemma {:induction false} PartInPlace(m: Members, p: Key, g: nat, v: ValuePart)
    requires Fitting(p, [v])
    ensures ExecPart(State(m, g), p, v) == At(m, p, y => BuildPart(y, g, v), GenPart(g, v))
    decreases v, 0
  {
    hide ExecElements, ExecMembers, BuildElements, BuildMembers, FocusRoot, KeepsImplicit, GenElements, GenMembers;
    assert Proper([v][0]) && Fits(NESTING_LIMIT - |p|, [v][0]);
    match v {
      case AtomPart(e) => AtCongruence(m, p, DoEmplace(e), y => BuildPart(y, g, v), g);
      case ReferencePart(r) => AtCongruence(m, p, DoEmplace(Reference(r)), y => BuildPart(y, g, v), g);
      case ArrayPart(es) =>
        ByPoints(DoArray);
        ArrayInPlace(m, p, DoArray, g, es);
        AtCongruence(m, p, Next(DoArray, y => BuildElements(y, g + 1, es)), y => BuildPart(y, g, v), GenPart(g, v));
      case FunctionPart(n, es) =>
        ByPoints(DoFunction(n));
        ArrayInPlace(m, p, DoFunction(n), g, es);
        AtCongruence(m, p, Next(DoFunction(n), y => BuildElements(y, g + 1, es)), y => BuildPart(y, g, v), GenPart(g, v));
      case ObjectPart(ms) =>
        ByPoints(DoObject);
        if At(m, p, DoObject, g).Ok? { MembersInPlace(m, p, DoObject, g, ms); }
        else { FailedRun(m, p, DoObject, y => BuildMembers(y, g, ms), g, GenMembers(g, ms)); }
        AtCongruence(m, p, Next(DoObject, y => BuildMembers(y, g, ms)), y => BuildPart(y, g, v), GenPart(g, v));
    }
  }

  lemma {:induction false} ArrayInPlace(m: Members, p: Key, f: Step, g: nat, es: seq<ValueList>)
    requires KeepsImplicit(f) && p != [] && |p| <= NESTING_LIMIT
    requires forall i | 0 <= i < |es| :: ProperList(es[i]) && FitsList(NESTING_LIMIT - |p| - 1, es[i])
    ensures var r := Write(State(m, g), p, f, Manifest);
      (if r.Ok? then ExecElements(r.value.(generation := r.value.generation + 1), p, es) else r)
      == At(m, p, Next(f, y => BuildElements(y, g + 1, es)), GenElements(g + 1, es))
    decreases es, 1
  {
    hide ExecElements, BuildElements, FocusRoot, KeepsImplicit, GenElements;
    if At(m, p, f, g + 1).Ok? { ElementsInPlace(m, p, f, g + 1, es); }
    else { FailedRun(m, p, f, y => BuildElements(y, g + 1, es), g + 1, GenElements(g + 1, es)); }
  }

  /** A completed value list at the path `p`. */
  lemma {:induction false} ListInPlace(m: Members, p: Key, g: nat, vl: ValueList)
    requires p != [] && |p| <= NESTING_LIMIT && ProperList(vl) && FitsList(NESTING_LIMIT - |p|, vl)
    ensures ExecList(State(m, g), p, vl) == At(m, p, y => BuildList(y, g, vl), GenList(g, vl))
    decreases vl, 1
  {
    hide ExecParts, BuildParts, FocusRoot, GenParts;
    PartsInPlace(m, p, g, vl.parts);
    AtCongruence(m, p, y => BuildParts(y, g, vl.parts), y => BuildList(y, g, vl), GenList(g, vl));
  }

  lemma {:induction false} PartsInPlace(m: Members, p: Key, g: nat, vs: seq<ValuePart>)
    requires vs != [] && Fitting(p, vs)
    ensures ExecParts(State(m, g), p, vs) == At(m, p, y => BuildParts(y, g, vs), GenParts(g, vs))
    decreases vs, 0
  {
    hide ExecPart, BuildPart, FocusRoot, KeepsImplicit, GenPart, Proper, Fits;
    var v, rest, i := vs[0], vs[1..], GenPart(g, vs[0]);
    var first: Step := y => BuildPart(y, g, v);
    var later: Step := y => BuildParts(y, i, rest);
    forall x ensures first(x).Ok? ==> first(x).value.implicit == x.implicit { KeepsPart(x, g, v); }
    ByPoints(first);
    PartInPlace(m, p, g, v);
    AtCongruence(m, p, y => BuildPart(y, g, v), first, i);
    forall x: Concat ensures Next(first, later)(x) == BuildParts(x, g, vs) { }
    AtCongruence(m, p, Next(first, later), y => BuildParts(y, g, vs), GenParts(g, vs));
    if At(m, p, first, i).Err? {
      FailedRun(m, p, first, later, i, GenParts(g, vs));
    } else if rest == [] {
      forall x: Concat ensures first(x) == Next(first, later)(x) { }
      AtCongruence(m, p, first, Next(first, later), i);
    } else {
      var o := At(m, p, first, i).value.root;
      PartsInPlace(o, p, i, rest);
      AtCongruence(o, p, y => BuildParts(y, i, rest), later, GenParts(i, rest));
      assert p + [] == p;
      AfterStep(m, p, [], first, later, i, GenParts(i, rest));
      NextCongruence(m, p, first, y => Focus(y, [], later, Manifest), later, GenParts(i, rest));
    }
  }

  lemma {:induction false} ElementsInPlace(m: Members, p: Key, f: Step, g: nat, es: seq<ValueList>)
    requires KeepsImplicit(f) && p != [] && |p| <= NESTING_LIMIT && At(m, p, f, g).Ok?
    requires forall i | 0 <= i < |es| :: ProperList(es[i]) && FitsList(NESTING_LIMIT - |p| - 1, es[i])
    ensures ExecElements(At(m, p, f, g).value, p, es) == At(m, p, Next(f, y => BuildElements(y, g, es)), GenElements(g, es))
    decreases es, 0
  {
    hide ExecList, BuildList, FocusRoot, KeepsImplicit, GenList, Focus, ProperList, FitsList;
    var all: Step := y => BuildElements(y, g, es);
    if es == [] {
      forall x: Concat ensures f(x) == Next(f, all)(x) { }
      AtCongruence(m, p, f, Next(f, all), g);
      NextCongruence(m, p, f, all, y => BuildElements(y, g, es), g);
    } else {
      var q, i, o := [Append(g)], GenList(g, es[0]), At(m, p, f, g).value.root;
      var first: Step := y => Focus(y, q, x => BuildList(x, g, es[0]), Manifest);
      var later: Step := y => BuildElements(y, i, es[1..]);
      assert |p + q| <= NESTING_LIMIT by { RoomForList(NESTING_LIMIT - |p| - 1, es[0]); }
      ListInPlace(o, p + q, g, es[0]);
      AfterStep(m, p, q, f, x => BuildList(x, g, es[0]), g, i);
      NextCongruence(m, p, f, y => Focus(y, q, x => BuildList(x, g, es[0]), Manifest), first, i);
      KeepsList(g, es[0]);
      KeepsFocus(q, x => BuildList(x, g, es[0]), Manifest);
      ByPoints(first) by { SamePoints(first, y => Focus(y, q, x => BuildList(x, g, es[0]), Manifest)); }
      KeepsNext(f, first);
      if At(m, p, Next(f, first), i).Ok? {
        ElementsInPlace(m, p, Next(f, first), i, es[1..]);
        NextCongruence(m, p, Next(f, first), y => BuildElements(y, i, es[1..]), later, GenElements(g, es));
      } else {
        FailedRun(m, p, Next(f, first), later, i, GenElements(g, es));
      }
      NextAssociates(m, p, f, first, later, GenElements(g, es));
      forall x: Concat ensures Next(first, later)(x) == BuildElements(x, g, es) { }
      NextCongruence(m, p, f, Next(first, later), y => BuildElements(y, g, es), GenElements(g, es));
    }
  }

  lemma SamePoints(f: Step, h: Step)
    requires KeepsImplicit(h) && forall x :: f(x) == h(x)
    ensures forall x :: f(x).Ok? ==> f(x).value.implicit == x.implicit
  {
  }

  lemma RoomForList(room: int, vl: ValueList)
    requires FitsList(room, vl)
    ensures room >= 0
  {
  }

  /** A step of any mode below a place where a run has already done `f`. */
  lemma WriteBelow(m: Members, p: Key, q: Key, f: Step, h: Step, g: nat, mode: Mode)
    requires KeepsImplicit(f) && KeepsImplicit(h) && p != [] && |p + q| <= NESTING_LIMIT && At(m, p, f, g).Ok?
    ensures KeepsImplicit(y => Focus(y, q, h, mode)) && KeepsImplicit(Next(f, y => Focus(y, q, h, mode)))
    ensures Write(At(m, p, f, g).value, p + q, h, mode) == At(m, p, Next(f, y => Focus(y, q, h, mode)), g)
  {
    hide FocusRoot, KeepsImplicit, AndThen, Focus;
    RootTwice(m, p, q, f, h, mode);
    RootCongruence(m, p, x => AndThen(f(x), y => Focus(y, q, h, mode)), Next(f, y => Focus(y, q, h, mode)), Manifest);
    KeepsFocus(q, h, mode);
    KeepsNext(f, y => Focus(y, q, h, mode));
  }

  /** A value list below a place where a run has already done `f`. */
  lemma {:induction false} ListBelow(m: Members, p: Key, q: Key, f: Step, g: nat, vl: ValueList)
    requires KeepsImplicit(f) && p != [] && At(m, p, f, g).Ok?
    requires |p + q| <= NESTING_LIMIT && ProperList(vl) && FitsList(NESTING_LIMIT - |p + q|, vl)
    ensures ExecList(At(m, p, f, g).value, p + q, vl)
         == At(m, p, Next(f, y => Focus(y, q, x => BuildList(x, g, vl), Manifest)), GenList(g, vl))
    ensures KeepsImplicit(y => Focus(y, q, x => BuildList(x, g, vl), Manifest))
    ensures KeepsImplicit(Next(f, y => Focus(y, q, x => BuildList(x, g, vl), Manifest)))
    decreases vl, 2
  {
    hide ExecList, BuildList, FocusRoot, KeepsImplicit, GenList, Focus;
    var o := At(m, p, f, g).value.root;
    ListInPlace(o, p + q, g, vl);
    AfterStep(m, p, q, f, x => BuildList(x, g, vl), g, GenList(g, vl));
    KeepsList(g, vl);
    KeepsFocus(q, x => BuildList(x, g, vl), Manifest);
    KeepsNext(f, y => Focus(y, q, x => BuildList(x, g, vl), Manifest));
  }

  lemma {:induction false} MemberInPlace(m: Members, p: Key, f: Step, g: nat, d: MemberDef)
    requires KeepsImplicit(f) && p != [] && |p| <= NESTING_LIMIT && At(m, p, f, g).Ok?
    requires ProperMember(d) && FitsMember(NESTING_LIMIT - |p|, d)
    ensures ExecMember(At(m, p, f, g).value, p, d) == At(m, p, Next(f, y => BuildMember(y, g, d)), GenMember(g, d))
    decreases d, 0
  {
    hide ExecList, BuildList, FocusRoot, KeepsImplicit, GenList, Focus, ProperList, FitsList;
    var k := d.key;
    match d {
      case Assign(_, vl) =>
        ByPoints(DoAssign);
        var first: Step := y => Focus(y, k, DoAssign, Implicit);
        var later: Step := y => Focus(y, k, x => BuildList(x, g, vl), Manifest);
        WriteBelow(m, p, k, f, DoAssign, g, Implicit);
        NextCongruence(m, p, f, y => Focus(y, k, DoAssign, Implicit), first, g);
        ByPoints(first) by { SamePoints(first, y => Focus(y, k, DoAssign, Implicit)); }
        KeepsNext(f, first);
        if At(m, p, Next(f, first), g).Ok? {
          ListBelow(m, p, k, Next(f, first), g, vl);
          NextCongruence(m, p, Next(f, first), y => Focus(y, k, x => BuildList(x, g, vl), Manifest), later, GenList(g, vl));
        } else {
          FailedRun(m, p, Next(f, first), later, g, GenList(g, vl));
        }
        NextAssociates(m, p, f, first, later, GenList(g, vl));
        forall x: Concat ensures Next(first, later)(x) == BuildMember(x, g, d) { }
        NextCongruence(m, p, f, Next(first, later), y => BuildMember(y, g, d), GenList(g, vl));
      case Delete(_) =>
        ByPoints(DoAssign);
        WriteBelow(m, p, k, f, DoAssign, g, Implicit);
        NextCongruence(m, p, f, y => Focus(y, k, DoAssign, Implicit), y => BuildMember(y, g, d), g);
      case AppendTo(_, vl) =>
        ListBelow(m, p, k, f, g, vl);
        NextCongruence(m, p, f, y => Focus(y, k, x => BuildList(x, g, vl), Manifest), y => BuildMember(y, g, d), GenList(g, vl));
      case SetTemporary(_, flag) =>
        ByPoints(DoTemporary(flag));
        WriteBelow(m, p, k, f, DoTemporary(flag), g, Implicit);
        NextCongruence(m, p, f, y => Focus(y, k, DoTemporary(flag), Implicit), y => BuildMember(y, g, d), g);
    }
  }

  lemma {:induction false} MembersInPlace(m: Members, p: Key, f: Step, g: nat, ms: seq<MemberDef>)
    requires KeepsImplicit(f) && p != [] && |p| <= NESTING_LIMIT && At(m, p, f, g).Ok?
    requires forall i | 0 <= i < |ms| :: ProperMember(ms[i]) && FitsMember(NESTING_LIMIT - |p|, ms[i])
    ensures ExecMembers(At(m, p, f, g).value, p, ms) == At(m, p, Next(f, y => BuildMembers(y, g, ms)), GenMembers(g, ms))
    decreases ms, 0
  {
    hide ExecMember, BuildMember, FocusRoot, KeepsImplicit, GenMember, Focus, ProperMember, FitsMember;
    var all: Step := y => BuildMembers(y, g, ms);
    if ms == [] {
      forall x: Concat ensures f(x) == Next(f, all)(x) { }
      AtCongruence(m, p, f, Next(f, all), g);
      NextCongruence(m, p, f, all, y => BuildMembers(y, g, ms), g);
    } else {
      var i := GenMember(g, ms[0]);
      var first: Step := y => BuildMember(y, g, ms[0]);
      var later: Step := y => BuildMembers(y, i, ms[1..]);
      MemberInPlace(m, p, f, g, ms[0]);
      NextCongruence(m, p, f, y => BuildMember(y, g, ms[0]), first, i);
      forall x ensures first(x).Ok? ==> first(x).value.implicit == x.implicit { KeepsMember(x, g, ms[0]); }
      ByPoints(first);
      KeepsNext(f, first);
      if At(m, p, Next(f, first), i).Ok? {
        MembersInPlace(m, p, Next(f, first), i, ms[1..]);
        NextCongruence(m, p, Next(f, first), y => BuildMembers(y, i, ms[1..]), later, GenMembers(g, ms));
      } else {
        FailedRun(m, p, Next(f, first), later, i, GenMembers(g, ms));
      }
      NextAssociates(m, p, f, first, later, GenMembers(g, ms));
      forall x: Concat ensures Next(first, later)(x) == BuildMembers(x, g, ms) { }
      NextCongruence(m, p, f, Next(first, later), y => BuildMembers(y, g, ms), GenMembers(g, ms));
    }
  }

  // ---- A whole file --------------------------------------------------------------------------

  /** A config file: its members are written from the root of an empty tree. */
  function Parse(ms: seq<MemberDef>): Result<State> {
    ExecMembers(State(map[], 1), [], ms)
  }

  predicate ProperFile(ms: seq<MemberDef>) {
    forall i | 0 <= i < |ms| :: ProperMember(ms[i]) && ms[i].key[0].Name?
  }

  predicate FitsFile(ms: seq<MemberDef>) {
    forall i | 0 <= i < |ms| :: FitsMember(NESTING_LIMIT, ms[i])
  }

  ghost function Lift(r: Result<Concat>, g: nat): Result<State> {
    if r.Err? then Err(r.error)
    else if |r.value.parts| != 1 || !r.value.parts[0].Object? then Err(AssertionFailed)
    else Ok(State(r.value.parts[0].members, g))
  }

  lemma RootFocus(m: Members, k: Key, f: Step, mode: Mode, g: nat)
    requires k != [] && k[0].Name? && |k| <= NESTING_LIMIT
    ensures Write(State(m, g), k, f, mode) == Lift(Focus(Root(m), k, f, mode), g)
    ensures Focus(Root(m), k, f, mode).Ok? ==>
      FocusRoot(m, k, f, mode).Ok? && Focus(Root(m), k, f, mode).value == Root(FocusRoot(m, k, f, mode).value)
  {
    hide FocusMember;
    var r := FocusMember(m, k[0].name, k[1..], f, mode);
    assert EnsureObject(Root(m)) == Root(m);
    if r.Ok? { assert WithLast(Root(m), Object(r.value)) == Root(r.value); }
  }

  lemma MemberAtRoot(m: Members, g: nat, d: MemberDef)
    requires ProperMember(d) && d.key[0].Name? && FitsMember(NESTING_LIMIT, d)
    ensures ExecMember(State(m, g), [], d) == Lift(BuildMember(Root(m), g, d), GenMember(g, d))
    ensures BuildMember(Root(m), g, d).Ok? ==>
      ExecMember(State(m, g), [], d).Ok? && BuildMember(Root(m), g, d).value == Root(ExecMember(State(m, g), [], d).value.root)
  {
    hide Focus, FocusRoot, ExecList, BuildList, FitsList, ProperList, GenList;
    var k := d.key;
    assert [] + k == k;
    match d {
      case Assign(_, vl) =>
        RootFocus(m, k, DoAssign, Implicit, g);
        var r := FocusRoot(m, k, DoAssign, Implicit);
        if r.Ok? {
          ListInPlace(r.value, k, g, vl);
          RootFocus(r.value, k, y => BuildList(y, g, vl), Manifest, GenList(g, vl));
        }
      case Delete(_) => RootFocus(m, k, DoAssign, Implicit, g);
      case AppendTo(_, vl) =>
        ListInPlace(m, k, g, vl);
        RootFocus(m, k, y => BuildList(y, g, vl), Manifest, GenList(g, vl));
      case SetTemporary(_, flag) => RootFocus(m, k, DoTemporary(flag), Implicit, g);
    }
  }

  lemma {:induction false} MembersAtRoot(m: Members, g: nat, ms: seq<MemberDef>)
    requires ProperFile(ms) && FitsFile(ms)
    ensures ExecMembers(State(m, g), [], ms) == Lift(BuildMembers(Root(m), g, ms), GenMembers(g, ms))
    ensures BuildMembers(Root(m), g, ms).Ok? ==>
      ExecMembers(State(m, g), [], ms).Ok? && BuildMembers(Root(m), g, ms).value == Root(ExecMembers(State(m, g), [], ms).value.root)
    decreases |ms|
  {
    hide ExecMember, BuildMember, ProperMember, FitsMember, GenMember;
    if ms != [] {
      assert ProperMember(ms[0]) && FitsMember(NESTING_LIMIT, ms[0]);
      MemberAtRoot(m, g, ms[0]);
      var r := ExecMember(State(m, g), [], ms[0]);
      if r.Ok? {
        assert forall i | 0 <= i < |ms[1..]| :: ms[1..][i] == ms[i + 1];
        MembersAtRoot(r.value.root, GenMember(g, ms[0]), ms[1..]);
      }
    }
  }

  /**
   What the state machine writes along absolute paths, step by step, is what structural recursion
   over the syntax builds in place, errors included.
   */
  lemma FileIsBuiltInPlace(ms: seq<MemberDef>)
    requires ProperFile(ms) && FitsFile(ms)
    ensures Parse(ms) == Lift(BuildMembers(Root(map[]), 1, ms), GenMembers(1, ms))
  {
    MembersAtRoot(map[], 1, ms);
  }

  // ---- The nesting limit is exact ------------------------------------------------------------

  lemma {:induction false} PartMustFit(st: State, p: Key, v: ValuePart)
    requires Proper(v) && ExecPart(st, p, v).Ok?
    ensures Fits(NESTING_LIMIT - |p|, v)
    decreases v, 0
  {
    hide FocusRoot, FitsList, FitsMember, ExecElements, ExecMembers;
    var f := match v
      case AtomPart(e) => DoEmplace(e)
      case ReferencePart(r) => DoEmplace(Reference(r))
      case ArrayPart(_) => DoArray
      case FunctionPart(n, _) => DoFunction(n)
      case ObjectPart(_) => DoObject;
    var r := Write(st, p, f, Manifest);
    WriteMustFit(st, p, f, Manifest);
    match v {
      case ArrayPart(es) => ElementsMustFit(r.value.(generation := r.value.generation + 1), p, es);
      case FunctionPart(_, es) => ElementsMustFit(r.value.(generation := r.value.generation + 1), p, es);
      case ObjectPart(ms) => MembersMustFit(r.value, p, ms);
      case _ =>
    }
  }

  lemma WriteMustFit(st: State, p: Key, f: Step, mode: Mode)
    requires Write(st, p, f, mode).Ok?
    ensures |p| <= NESTING_LIMIT
  {
  }

  lemma {:induction false} ListMustFit(st: State, p: Key, vl: ValueList)
    requires ProperList(vl) && ExecList(st, p, vl).Ok?
    ensures FitsList(NESTING_LIMIT - |p|, vl)
    decreases vl, 1
  {
    hide Fits, ExecParts, Proper;
    PartsMustFit(st, p, vl.parts);
    assert Fits(NESTING_LIMIT - |p|, vl.parts[0]);
    FitsRoom(NESTING_LIMIT - |p|, vl.parts[0]);
  }

  lemma FitsRoom(room: int, v: ValuePart)
    requires Fits(room, v)
    ensures room >= 0
  {
  }

  lemma {:induction false} PartsMustFit(st: State, p: Key, vs: seq<ValuePart>)
    requires (forall i | 0 <= i < |vs| :: Proper(vs[i])) && ExecParts(st, p, vs).Ok?
    ensures forall i | 0 <= i < |vs| :: Fits(NESTING_LIMIT - |p|, vs[i])
    decreases vs, 0
  {
    hide Fits, ExecPart, Proper;
    if vs != [] {
      PartMustFit(st, p, vs[0]);
      PartsMustFit(ExecPart(st, p, vs[0]).value, p, vs[1..]);
      assert forall i | 1 <= i < |vs| :: vs[i] == vs[1..][i - 1];
    }
  }

  lemma {:induction false} ElementsMustFit(st: State, p: Key, es: seq<ValueList>)
    requires (forall i | 0 <= i < |es| :: ProperList(es[i])) && ExecElements(st, p, es).Ok?
    ensures forall i | 0 <= i < |es| :: FitsList(NESTING_LIMIT - |p| - 1, es[i])
    decreases es, 0
  {
    hide FitsList, ExecList, ProperList;
    if es != [] {
      ListMustFit(st, p + [Append(st.generation)], es[0]);
      assert NESTING_LIMIT - |p + [Append(st.generation)]| == NESTING_LIMIT - |p| - 1;
      ElementsMustFit(ExecList(st, p + [Append(st.generation)], es[0]).value, p, es[1..]);
      assert forall i | 1 <= i < |es| :: es[i] == es[1..][i - 1];
    }
  }

  lemma {:induction false} MembersMustFit(st: State, p: Key, ms: seq<MemberDef>)
    requires (forall i | 0 <= i < |ms| :: ProperMember(ms[i])) && ExecMembers(st, p, ms).Ok?
    ensures forall i | 0 <= i < |ms| :: FitsMember(NESTING_LIMIT - |p|, ms[i])
    decreases ms, 0
  {
    hide FitsMember, ExecMember, ProperMember;
    if ms != [] {
      MemberMustFit(st, p, ms[0]);
      MembersMustFit(ExecMember(st, p, ms[0]).value, p, ms[1..]);
      assert forall i | 1 <= i < |ms| :: ms[i] == ms[1..][i - 1];
    }
  }

  lemma {:induction false} MemberMustFit(st: State, p: Key, d: MemberDef)
    requires ProperMember(d) && ExecMember(st, p, d).Ok?
    ensures FitsMember(NESTING_LIMIT - |p|, d)
    decreases d, 0
  {
    hide FocusRoot, FitsList, ExecList, ProperList;
    var q := p + d.key;
    match d {
      case Assign(k, vl) =>
        WriteMustFit(st, q, DoAssign, Implicit);
        ListMustFit(Write(st, q, DoAssign, Implicit).value, q, vl);
        assert NESTING_LIMIT - |q| == NESTING_LIMIT - |p| - |k|;
      case Delete(k) => WriteMustFit(st, q, DoAssign, Implicit);
      case AppendTo(k, vl) =>
        ListMustFit(st, q, vl);
        RoomForList(NESTING_LIMIT - |q|, vl);
        assert NESTING_LIMIT - |q| == NESTING_LIMIT - |p| - |k|;
      case SetTemporary(k, flag) => WriteMustFit(st, q, DoTemporary(flag), Implicit);
    }
  }

  /** A key of more than 96 parts, or one that does not begin with a name, is rejected at once. */
  lemma KeyIsRejected(st: State, d: MemberDef)
    requires ProperMember(d)
    ensures |d.key| > 96 ==> ExecMember(st, [], d) == Err(NestingExceeded)
    ensures |d.key| <= 96 && !d.key[0].Name? ==> ExecMember(st, [], d) == Err(ExpectedName)
  {
    hide FocusMember;
    assert [] + d.key == d.key;
    if d.AppendTo? {
      assert ProperList(d.value);
      ValueIsRejected(st, d.key, d.value);
    }
  }

  lemma ValueIsRejected(st: State, p: Key, vl: ValueList)
    requires p != [] && ProperList(vl)
    ensures |p| > 96 ==> ExecList(st, p, vl) == Err(NestingExceeded)
    ensures |p| <= 96 && !p[0].Name? ==> ExecList(st, p, vl) == Err(ExpectedName)
  {
    hide FocusRoot, ExecElements, ExecMembers;
    var v := vl.parts[0];
    assert Proper(v);
    WriteIsRejected(st, p);
    var r := ExecPart(st, p, v);
    assert ExecParts(st, p, vl.parts) == if r.Ok? then ExecParts(r.value, p, vl.parts[1..]) else r;
  }

  lemma WriteIsRejected(st: State, p: Key)
    requires p != []
    ensures forall f, mode | |p| > 96 :: Write(st, p, f, mode) == Err(NestingExceeded)
    ensures forall f, mode | |p| <= 96 && !p[0].Name? :: Write(st, p, f, mode) == Err(ExpectedName)
  {
    hide FocusMember;
  }
}
