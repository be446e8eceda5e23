/**
 Building without generations: every array literal adds its elements on its own.  It is what the
 parser builds, once generations are forgotten.
 */
module Forming {
  import opened Tree
  import opened Phase1
  import opened Parser
  import opened ParserLaws
  import opened Generations
  import opened Merging

  // ---- Building ------------------------------------------------------------------------------

  function FormList(c: Concat, vl: ValueList): Result<Concat>
    decreases vl, 1
  {
    FormParts(c, vl.parts)
  }

  function FormParts(c: Concat, vs: seq<ValuePart>): Result<Concat>
    decreases vs, 0
  {
    if vs == [] then Ok(c)
    else
      var r := FormPart(c, vs[0]);
      if r.Ok? then FormParts(r.value, vs[1..]) else r
  }

  function FormPart(c: Concat, v: ValuePart): Result<Concat>
    decreases v, 0
  {
    match v
    case AtomPart(e) => DoEmplace(e)(c)
    case ReferencePart(r) => DoEmplace(Reference(r))(c)
    case ArrayPart(es) => Extended(EnsureArray(c), FormElements(es))
    case FunctionPart(n, es) => Extended(DoFunction(n)(c).value, FormElements(es))
    case ObjectPart(ms) => FormMembers(EnsureObject(c), ms)
  }

  /** The array at the end with further elements. */
  function Extended(d: Concat, r: Result<seq<Concat>>): Result<Concat>
    requires d.parts != [] && LastPart(d).Array?
  {
    if r.Err? then Err(r.error) else Ok(WithLast(d, Array(LastPart(d).call, LastPart(d).elements + r.value)))
  }

  function FormElements(es: seq<ValueList>): Result<seq<Concat>>
    decreases es, 0
  {
    if es == [] then Ok([])
    else
      var d := FormList(EMPTY, es[0]);
      if d.Err? then Err(d.error)
      else
        var r := FormElements(es[1..]);
        if r.Ok? then Ok([d.value] + r.value) else r
  }

  function FormMembers(c: Concat, ms: seq<MemberDef>): Result<Concat>
    decreases ms, 0
  {
    if ms == [] then Ok(c)
    else
      var r := FormMember(c, ms[0]);
      if r.Ok? then FormMembers(r.value, ms[1..]) else r
  }

  function FormMember(c: Concat, d: MemberDef): Result<Concat>
    decreases d, 0
  {
    match d
    case Assign(k, vl) => AndThen(Focus(c, k, DoAssign, Implicit), x => Focus(x, k, y => FormList(y, vl), Manifest))
    case Delete(k) => Focus(c, k, DoAssign, Implicit)
    case AppendTo(k, vl) => Focus(c, k, y => FormList(y, vl), Manifest)
    case SetTemporary(k, flag) => Focus(c, k, DoTemporary(flag), Implicit)
  }

  // ---- Generations make no difference --------------------------------------------------------

  function Erased(r: Result<Concat>): Result<Concat> {
    if r.Ok? then Ok(Er(r.value)) else r
  }

  lemma ErLast(c: Concat, e: Entry)
    requires c.parts != []
    ensures Er(c).parts != [] && LastPart(Er(c)) == ErEntry(LastPart(c)) && Er(WithLast(c, e)) == WithLast(Er(c), ErEntry(e))
  {
    hide ErEntry;
    ErConcat(c);
    ErConcat(WithLast(c, e));
    assert ErParts(c.parts[|c.parts| - 1 := e]) == ErParts(c.parts)[|c.parts| - 1 := ErEntry(e)];
  }

  lemma ErAppend(c: Concat, e: Entry)
    ensures Er(c.(parts := c.parts + [e])) == Er(c).(parts := Er(c).parts + [ErEntry(e)])
  {
    hide ErEntry;
    ErConcat(c);
    ErConcat(c.(parts := c.parts + [e]));
    ErBoth(c.parts, [e]);
    ErOne(e);
  }

  lemma ErKinds(e: Entry)
    ensures ErEntry(e).Array? == e.Array? && ErEntry(e).Object? == e.Object? && ErEntry(e).Asterisk? == e.Asterisk?
    ensures e.Array? ==> ErEntry(e) == Array(e.call, ErElements(e.elements))
    ensures e.Object? ==> ErEntry(e) == Object(ErMembers(e.members))
    ensures e.Asterisk? ==> ErEntry(e) == Asterisk(Er(e.star))
    ensures !e.Array? && !e.Object? && !e.Asterisk? ==> ErEntry(e) == e
  {
    match e {
      case Array(f, es) => ErArray(f, es);
      case Object(m) => ErObject(m);
      case _ =>
    }
  }

  lemma ErEnsure(c: Concat)
    ensures Er(EnsureArray(c)) == EnsureArray(Er(c)) && Er(EnsureObject(c)) == EnsureObject(Er(c))
    ensures Er(EnsureAsterisk(c)) == EnsureAsterisk(Er(c))
  {
    hide ErEntry, Er;
    ErAppend(c, Array("", []));
    ErAppend(c, Object(map[]));
    ErAppend(c, Asterisk(EMPTY));
    ErEmpty();
    ErNothing(c);
    if c.parts != [] {
      ErLast(c, Null);
      ErKinds(LastPart(c));
    }
  }

  lemma ErNothing(c: Concat)
    ensures |Er(c).parts| == |c.parts|
  {
  }

  lemma ErEmpty()
    ensures Er(EMPTY) == EMPTY
    ensures ErEntry(Array("", [])) == Array("", []) && ErEntry(Object(map[])) == Object(map[])
    ensures ErEntry(Asterisk(EMPTY)) == Asterisk(EMPTY)
  {
    assert Er(EMPTY).parts == [];
    assert ErEntry(Array("", [])).elements == [];
    assert ErEntry(Object(map[])).members == map[];
  }

  lemma {:induction false} ErLocate(ps: seq<Entry>, n: nat)
    ensures Locate(ErParts(ps), n) == Locate(ps, n)
    decreases |ps|
  {
    hide ErEntry;
    if ps != [] {
      ErKinds(ps[0]);
      assert ErParts(ps)[0] == ErEntry(ps[0]) && ErParts(ps)[1..] == ErParts(ps[1..]);
      if ps[0].Array? && n >= |ps[0].elements| { ErLocate(ps[1..], n - |ps[0].elements|); }
    }
  }

  lemma ErMember(m: Members, n: string, mode: Mode, c: Concat)
    ensures Er(Member(m, n, mode)) == Member(ErMembers(m), n, mode)
    ensures ErMembers(m[n := c]) == ErMembers(m)[n := Er(c)]
  {
    hide ErEntry;
    ErEmpty();
    ErConcat(Member(m, n, mode));
    if n in m { ErConcat(m[n]); }
    assert ErMembers(m[n := c]) == ErMembers(m)[n := Er(c)] by { hide Er; }
  }

  /** `h` is `f` without generations, as long as no concat is ahead of the counter `g`. */
  ghost predicate Follows(f: Step, h: Step, g: nat) {
    forall x :: Within(x, g) ==> Erased(f(x)) == h(Er(x))
  }

  lemma {:induction false} FocusErased(c: Concat, path: Key, f: Step, h: Step, mode: Mode, g: nat)
    requires Written(path) && Within(c, g) && Follows(f, h, g)
    ensures Erased(Focus(c, path, f, mode)) == Focus(Er(c), path, h, mode)
    decreases |path|, 2
  {
    hide Er, ErEntry, Within, WithinEntry, Follows, EnsureObject, EnsureAsterisk, Locate;
    if path == [] {
      assert Erased(f(c)) == h(Er(c)) by { FollowsAt(f, h, g, c); }
    } else {
      var t := path[1..];
      EnsureWithin(c, g);
      ErEnsure(c);
      match path[0] {
        case Star =>
          var d := EnsureAsterisk(c);
          LastWithin(d, Null, g);
          StarWithin(LastPart(d), g);
          FocusErased(LastPart(d).star, t, f, h, mode, g);
          ErLast(d, Null);
          ErKinds(LastPart(d));
          var x := Focus(LastPart(d).star, t, f, mode);
          if x.Ok? { ErLast(d, Asterisk(x.value)); ErKinds(Asterisk(x.value)); }
        case Name(n) =>
          var d := EnsureObject(c);
          LastWithin(d, Null, g);
          ErLast(d, Null);
          ErKinds(LastPart(d));
          NameErased(LastPart(d).members, n, t, f, h, mode, g);
          var x := FocusMember(LastPart(d).members, n, t, f, mode);
          if x.Ok? { ErLast(d, Object(x.value)); ErKinds(Object(x.value)); }
        case Index(i) =>
          IndexErased(c, path, f, h, mode, g);
      }
    }
  }

  lemma FollowsAt(f: Step, h: Step, g: nat, c: Concat)
    requires Follows(f, h, g) && Within(c, g)
    ensures Erased(f(c)) == h(Er(c))
  {
  }

  lemma {:induction false} NameErased(m: Members, n: string, t: Key, f: Step, h: Step, mode: Mode, g: nat)
    requires Written(t) && WithinEntry(Object(m), g) && Follows(f, h, g)
    ensures var r, s := FocusMember(m, n, t, f, mode), FocusMember(ErMembers(m), n, t, h, mode);
      if r.Ok? then s == Ok(ErMembers(r.value)) else s == Err(r.error)
    decreases |t|, 3
  {
    hide Er, Within, WithinEntry, Follows, Member, ErMembers;
    MemberWithin(m, n, mode, g);
    FocusErased(Member(m, n, mode), t, f, h, mode, g);
    var x := Focus(Member(m, n, mode), t, f, mode);
    ErMember(m, n, mode, if x.Ok? then x.value else EMPTY);
  }

  lemma {:induction false} IndexErased(c: Concat, path: Key, f: Step, h: Step, mode: Mode, g: nat)
    requires path != [] && path[0].Index? && Written(path) && Within(c, g) && Follows(f, h, g)
    ensures Erased(Focus(c, path, f, mode)) == Focus(Er(c), path, h, mode)
    decreases |path|, 0
  {
    hide Er, ErEntry, Within, WithinEntry, Follows, Locate;
    var i, t := path[0].index, path[1..];
    assert Er(c).parts == ErParts(c.parts) by { ErConcat(c); }
    ErLocate(c.parts, i);
    var l := Locate(c.parts, i);
    if l.Ok? {
      var (k, j) := l.value;
      var a := c.parts[k];
      PartWithin(c, k, g);
      ElementWithin(a, j, g);
      FocusErased(a.elements[j], t, f, h, mode, g);
      ErKinds(a);
      var x := Focus(a.elements[j], t, f, mode);
      if x.Ok? { ElementErased(c, k, j, x.value); }
    }
  }

  lemma ElementErased(c: Concat, k: nat, j: nat, x: Concat)
    requires k < |c.parts| && c.parts[k].Array? && j < |c.parts[k].elements|
    ensures var a := c.parts[k];
      && |Er(c).parts| == |c.parts| && Er(c).parts[k] == Array(a.call, ErElements(a.elements))
      && Er(c.(parts := c.parts[k := Array(a.call, a.elements[j := x])]))
        == Er(c).(parts := Er(c).parts[k := Array(a.call, ErElements(a.elements)[j := Er(x)])])
  {
    hide Er, ErEntry;
    var a := c.parts[k];
    var b := Array(a.call, a.elements[j := x]);
    ErConcat(c);
    ErConcat(c.(parts := c.parts[k := b]));
    ErKinds(a);
    ErKinds(b);
    assert ErElements(a.elements[j := x]) == ErElements(a.elements)[j := Er(x)];
    assert ErParts(c.parts[k := b]) == ErParts(c.parts)[k := ErEntry(b)];
  }

  lemma ByErasing(f: Step, h: Step, g: nat)
    requires forall x :: Within(x, g) ==> Erased(f(x)) == h(Er(x))
    ensures Follows(f, h, g)
  {
  }

  lemma FlagsFollow(g: nat, flag: bool)
    ensures Follows(DoAssign, DoAssign, g) && Follows(DoTemporary(flag), DoTemporary(flag), g)
  {
    hide ErEntry, Within, Er;
    forall x: Concat ensures Erased(DoAssign(x)) == DoAssign(Er(x)) && Erased(DoTemporary(flag)(x)) == DoTemporary(flag)(Er(x)) {
      ErConcat(x);
      ErConcat(DoAssign(x).value);
      ErConcat(DoTemporary(flag)(x).value);
      ErOne(Null);
    }
    ByErasing(DoAssign, DoAssign, g);
    ByErasing(DoTemporary(flag), DoTemporary(flag), g);
  }

  lemma {:induction false} PartErased(c: Concat, g: nat, v: ValuePart)
    requires Within(c, g) && Proper(v)
    ensures Erased(BuildPart(c, g, v)) == FormPart(Er(c), v)
    decreases v, 0
  {
    hide Within, BuildElements, BuildMembers, FormElements, FormMembers, Er, EnsureArray, EnsureObject, WithLast;
    match v {
      case AtomPart(e) => ErAppend(c, e); ErKinds(e);
      case ReferencePart(r) => ErAppend(c, Reference(r)); ErKinds(Reference(r));
      case ArrayPart(es) =>
        ErEnsure(c);
        EnsureWithin(c, g);
        LiteralErased(EnsureArray(c), g, es);
      case FunctionPart(n, es) =>
        CallErased(c, n, g);
        LiteralErased(DoFunction(n)(c).value, g, es);
      case ObjectPart(ms) =>
        ErEnsure(c);
        EnsureWithin(c, g);
        MembersErased(EnsureObject(c), g, ms);
    }
  }

  lemma CallErased(c: Concat, n: string, g: nat)
    requires Within(c, g)
    ensures var d := DoFunction(n)(c).value;
      Within(d, g) && d.parts != [] && LastPart(d).Array? && Er(d) == DoFunction(n)(Er(c)).value
  {
    hide Within, Er, ErEntry, EnsureArray;
    var d := EnsureArray(c);
    ErEnsure(c);
    EnsureWithin(c, g);
    LastWithin(d, Null, g);
    CallWithin(LastPart(d), n, g);
    LastWithin(d, Array(n, LastPart(d).elements), g);
    ErLast(d, Array(n, LastPart(d).elements));
    ErKinds(LastPart(d));
    ErKinds(Array(n, LastPart(d).elements));
  }

  lemma {:induction false} LiteralErased(d: Concat, g: nat, es: seq<ValueList>)
    requires Within(d, g) && d.parts != [] && LastPart(d).Array? && forall i | 0 <= i < |es| :: ProperList(es[i])
    ensures Er(d).parts != [] && LastPart(Er(d)).Array?
    ensures Erased(BuildElements(d, g + 1, es)) == Extended(Er(d), FormElements(es))
    decreases es, 1
  {
    hide Within, BuildElements, FormElements, ProperList, Er, ErEntry, NewElements, LastBegun;
    assert d.generation < g + 1 by { InsideCounter(d, g); }
    LiteralAddsItsElements(d, g + 1, es);
    ElementsErased(g + 1, es);
    ErLast(d, Null);
    ErKinds(LastPart(d));
    var n := NewElements(g + 1, es);
    if n.Ok? {
      var a := LastPart(d);
      var e := Array(a.call, a.elements + n.value);
      ErLast(d, e);
      ErKinds(e);
      assert ErElements(a.elements + n.value) == ErElements(a.elements) + ErElements(n.value);
      AnyCounter(WithLast(d, e), LastBegun(d.generation, g + 1, es));
    }
  }

  lemma InsideCounter(c: Concat, g: nat)
    requires Within(c, g)
    ensures c.generation <= g
  {
  }

  lemma AnyCounter(c: Concat, h: nat)
    ensures Er(c.(generation := h)) == Er(c)
  {
  }

  lemma {:induction false} ElementsErased(g: nat, es: seq<ValueList>)
    requires forall i | 0 <= i < |es| :: ProperList(es[i])
    ensures var n, f := NewElements(g, es), FormElements(es);
      if n.Ok? then f == Ok(ErElements(n.value)) else f == Err(n.error)
    decreases es, 0
  {
    hide BuildList, FormList, ProperList, Er, Within, GenList, NewElements, FormElements;
    FirstElement(g, es);
    assert ErElements([]) == [];
    if es != [] {
      EmptyWithin(g);
      ErEmpty();
      ListErased(EMPTY, g, es[0]);
      ElementsErased(GenList(g, es[0]), es[1..]);
      var d, n := BuildList(EMPTY, g, es[0]), NewElements(GenList(g, es[0]), es[1..]);
      if d.Ok? && n.Ok? { assert ErElements([d.value] + n.value) == [Er(d.value)] + ErElements(n.value); }
    }
  }

  /** Both functions, one element on. */
  lemma FirstElement(g: nat, es: seq<ValueList>)
    ensures es == [] ==> NewElements(g, es) == Ok([]) && FormElements(es) == Ok([])
    ensures es != [] ==> NewElements(g, es) == Prepended(BuildList(EMPTY, g, es[0]), NewElements(GenList(g, es[0]), es[1..]))
    ensures es != [] ==> FormElements(es) == Prepended(FormList(EMPTY, es[0]), FormElements(es[1..]))
  {
  }

  function Prepended(d: Result<Concat>, r: Result<seq<Concat>>): Result<seq<Concat>> {
    if d.Err? then Err(d.error) else if r.Ok? then Ok([d.value] + r.value) else r
  }

  lemma {:induction false} ListErased(c: Concat, g: nat, vl: ValueList)
    requires Within(c, g) && ProperList(vl)
    ensures Erased(BuildList(c, g, vl)) == FormList(Er(c), vl)
    decreases vl, 1
  {
    hide Within, Proper, Er;
    PartsErased(c, g, vl.parts);
  }

  lemma {:induction false} PartsErased(c: Concat, g: nat, vs: seq<ValuePart>)
    requires Within(c, g) && forall i | 0 <= i < |vs| :: Proper(vs[i])
    ensures Erased(BuildParts(c, g, vs)) == FormParts(Er(c), vs)
    decreases vs, 0
  {
    hide Within, Proper, BuildPart, FormPart, GenPart, Er;
    if vs != [] {
      PartErased(c, g, vs[0]);
      PartIsFine(c, g, vs[0]);
      var r := BuildPart(c, g, vs[0]);
      if r.Ok? { PartsErased(r.value, GenPart(g, vs[0]), vs[1..]); }
    }
  }

  lemma {:induction false} MembersErased(c: Concat, g: nat, ms: seq<MemberDef>)
    requires Within(c, g) && forall i | 0 <= i < |ms| :: ProperMember(ms[i])
    ensures Erased(BuildMembers(c, g, ms)) == FormMembers(Er(c), ms)
    decreases ms, 0
  {
    hide Within, ProperMember, BuildMember, FormMember, GenMember, Er;
    if ms != [] {
      MemberErased(c, g, ms[0]);
      MemberIsFine(c, g, ms[0]);
      var r := BuildMember(c, g, ms[0]);
      if r.Ok? { MembersErased(r.value, GenMember(g, ms[0]), ms[1..]); }
    }
  }

  lemma {:induction false} MemberErased(c: Concat, g: nat, d: MemberDef)
    requires Within(c, g) && ProperMember(d)
    ensures Erased(BuildMember(c, g, d)) == FormMember(Er(c), d)
    decreases d, 0
  {
    hide Within, ProperList, BuildList, FormList, Focus, Er, Follows;
    var k := d.key;
    FlagsFollow(g, d.SetTemporary? && d.flag);
    FlagsAreFine(g, d.SetTemporary? && d.flag);
    FocusErased(c, k, DoAssign, DoAssign, Implicit, g);
    FocusIsFine(c, k, DoAssign, Implicit, g, g);
    match d {
      case Assign(_, vl) =>
        ListFollows(g, vl);
        var r := Focus(c, k, DoAssign, Implicit);
        if r.Ok? { FocusErased(r.value, k, y => BuildList(y, g, vl), y => FormList(y, vl), Manifest, g); }
      case Delete(_) =>
      case AppendTo(_, vl) =>
        ListFollows(g, vl);
        FocusErased(c, k, y => BuildList(y, g, vl), y => FormList(y, vl), Manifest, g);
      case SetTemporary(_, flag) =>
        FocusErased(c, k, DoTemporary(flag), DoTemporary(flag), Implicit, g);
    }
  }

  lemma {:induction false} ListFollows(g: nat, vl: ValueList)
    requires ProperList(vl)
    ensures Follows(y => BuildList(y, g, vl), y => FormList(y, vl), g)
    decreases vl, 2
  {
    hide Within, ProperList, BuildList, FormList, Er;
    forall x | Within(x, g) ensures Erased(BuildList(x, g, vl)) == FormList(Er(x), vl) { ListErased(x, g, vl); }
    ByErasing(y => BuildList(y, g, vl), y => FormList(y, vl), g);
  }

  /** A file that is accepted is, but for its generations, what building without them makes. */
  lemma FileIsFormed(ms: seq<MemberDef>)
    requires ProperFile(ms) && Parse(ms).Ok?
    ensures FormMembers(Root(map[]), ms) == Ok(Root(ErMembers(Parse(ms).value.root)))
  {
    hide ExecMembers, BuildMembers, FormMembers, ErMembers, Within, ProperMember, FitsMember, Er, ErEntry;
    MembersMustFit(State(map[], 1), [], ms);
    assert FitsFile(ms);
    MembersAtRoot(map[], 1, ms);
    EmptyRoot(1);
    MembersErased(Root(map[]), 1, ms);
    ErRoot(map[]);
    ErRoot(Parse(ms).value.root);
    assert ErMembers(map[]) == map[] by { NothingErased(map[]); }
  }

  lemma ErRoot(m: Members)
    ensures Er(Root(m)) == Root(ErMembers(m))
  {
    ErConcat(Root(m));
    ErOne(Object(m));
    ErObject(m);
  }

  // ---- Several definitions --------------------------------------------------------------------

  lemma {:induction false} FormBoth(c: Concat, ms: seq<MemberDef>, ns: seq<MemberDef>)
    ensures FormMembers(c, ms + ns) ==
      var r := FormMembers(c, ms);
      if r.Ok? then FormMembers(r.value, ns) else r
    decreases |ms|
  {
    hide FormMember;
    if ms == [] {
      assert ms + ns == ns;
    } else {
      assert (ms + ns)[0] == ms[0] && (ms + ns)[1..] == ms[1..] + ns;
      var r := FormMember(c, ms[0]);
      if r.Ok? { FormBoth(r.value, ms[1..], ns); }
    }
  }

  lemma OneFormed(c: Concat, d: MemberDef)
    ensures FormMembers(c, [d]) == FormMember(c, d)
  {
    hide FormMember;
    assert [d][1..] == [];
    var r := FormMember(c, d);
    if r.Ok? { assert FormMembers(r.value, []) == r; }
  }

  // ---- Literals side by side -----------------------------------------------------------------

  lemma {:induction false} ElementsBoth(es: seq<ValueList>, fs: seq<ValueList>)
    ensures FormElements(es + fs) ==
      var a := FormElements(es);
      if a.Err? then a
      else
        var b := FormElements(fs);
        if b.Ok? then Ok(a.value + b.value) else b
    decreases |es|
  {
    hide FormList;
    if es == [] {
      assert es + fs == fs;
      var b := FormElements(fs);
      if b.Ok? { assert [] + b.value == b.value; }
    } else {
      assert (es + fs)[0] == es[0] && (es + fs)[1..] == es[1..] + fs;
      ElementsBoth(es[1..], fs);
      var d, a, b := FormList(EMPTY, es[0]), FormElements(es[1..]), FormElements(fs);
      if d.Ok? && a.Ok? && b.Ok? { assert [d.value] + (a.value + b.value) == [d.value] + a.value + b.value; }
    }
  }

  lemma ExtendedTwice(d: Concat, es: seq<Concat>, fs: seq<Concat>)
    requires d.parts != [] && LastPart(d).Array?
    ensures Extended(Extended(d, Ok(es)).value, Ok(fs)) == Extended(d, Ok(es + fs))
  {
    var a, e := LastPart(d), Extended(d, Ok(es)).value;
    assert a.elements + es + fs == a.elements + (es + fs);
    assert WithLast(e, Array(a.call, a.elements + es + fs)) == WithLast(d, Array(a.call, a.elements + (es + fs)));
  }

  /** Two array literals side by side are one literal with the elements of both. */
  lemma ArraysFuse(c: Concat, es: seq<ValueList>, fs: seq<ValueList>)
    ensures AndThen(FormPart(c, ArrayPart(es)), x => FormPart(x, ArrayPart(fs))) == FormPart(c, ArrayPart(es + fs))
  {
    hide FormElements;
    ElementsBoth(es, fs);
    var d, a, b := EnsureArray(c), FormElements(es), FormElements(fs);
    if a.Ok? {
      assert EnsureArray(Extended(d, a).value) == Extended(d, a).value;
      if b.Ok? { ExtendedTwice(d, a.value, b.value); }
    }
  }

  /** An array literal behind a call gives the call further arguments. */
  lemma CallTakesLiteral(c: Concat, f: string, es: seq<ValueList>, fs: seq<ValueList>)
    ensures AndThen(FormPart(c, FunctionPart(f, es)), x => FormPart(x, ArrayPart(fs))) == FormPart(c, FunctionPart(f, es + fs))
  {
    hide FormElements;
    ElementsBoth(es, fs);
    var d, a, b := DoFunction(f)(c).value, FormElements(es), FormElements(fs);
    if a.Ok? {
      assert EnsureArray(Extended(d, a).value) == Extended(d, a).value;
      if b.Ok? { ExtendedTwice(d, a.value, b.value); }
    }
  }

  lemma ArrayFormed(c: Concat, es: seq<ValueList>)
    ensures FormPart(c, ArrayPart(es)) == Extended(EnsureArray(c), FormElements(es))
  {
  }

  lemma CallFormed(c: Concat, f: string, es: seq<ValueList>)
    ensures var d := DoFunction(f)(c).value;
      d.parts != [] && LastPart(d).Array? && FormPart(c, FunctionPart(f, es)) == Extended(d, FormElements(es))
  {
    hide FormElements;
  }

  /** A call behind an array literal turns the literal into its first arguments. */
  lemma CallTakesOver(c: Concat, es: seq<ValueList>, f: string, fs: seq<ValueList>)
    requires FormElements(es).Ok?
    ensures var e := FormPart(c, ArrayPart(es));
      e.Ok? && FormPart(e.value, FunctionPart(f, fs)) == FormPart(c, FunctionPart(f, es + fs))
  {
    hide FormElements, FormPart, EnsureArray, WithLast;
    ElementsBoth(es, fs);
    ArrayFormed(c, es);
    CallFormed(c, f, es + fs);
    var xs, b, g := FormElements(es).value, FormElements(fs), DoFunction(f)(c).value;
    NothingLost(EnsureArray(c), xs);
    var e := Extended(EnsureArray(c), Ok(xs));
    TakenOver(c, xs, f);
    CallFormed(e.value, f, fs);
    if b.Ok? { ExtendedTwice(g, xs, b.value); } else { ExtendedFails(Extended(g, Ok(xs)).value, g, b.error); }
  }

  lemma NothingLost(d: Concat, xs: seq<Concat>)
    requires d.parts != [] && LastPart(d).Array?
    ensures var e := Extended(d, Ok(xs)); e.Ok? && e.value.parts != [] && LastPart(e.value).Array?
  {
  }

  lemma ExtendedFails(d: Concat, e: Concat, x: Error)
    requires d.parts != [] && LastPart(d).Array? && e.parts != [] && LastPart(e).Array?
    ensures Extended(d, Err(x)) == Extended(e, Err(x)) == Err(x)
  {
  }

  lemma TakenOver(c: Concat, xs: seq<Concat>, f: string)
    ensures DoFunction(f)(Extended(EnsureArray(c), Ok(xs)).value).value == Extended(DoFunction(f)(c).value, Ok(xs)).value
  {
    var d := EnsureArray(c);
    var a := LastPart(d);
    var e := WithLast(d, Array(a.call, a.elements + xs));
    assert EnsureArray(e) == e;
    LastTwice(d, Array(a.call, a.elements + xs), Array(f, a.elements + xs));
    LastTwice(d, Array(f, a.elements), Array(f, a.elements + xs));
  }

  lemma LastTwice(d: Concat, x: Entry, y: Entry)
    requires d.parts != []
    ensures WithLast(WithLast(d, x), y) == WithLast(d, y)
  {
    assert d.parts[|d.parts| - 1 := x][|d.parts| - 1 := y] == d.parts[|d.parts| - 1 := y];
  }

  predicate BeginWithNames(ms: seq<MemberDef>) {
    forall i | 0 <= i < |ms| :: ms[i].key != [] && ms[i].key[0].Name?
  }

  lemma NamesKeepObject(c: Concat, k: Key, f: Step, mode: Mode)
    requires k != [] && k[0].Name?
    ensures Focus(c, k, f, mode).Ok? ==> EnsureObject(Focus(c, k, f, mode).value) == Focus(c, k, f, mode).value
  {
    hide FocusMember;
  }

  lemma MemberKeepsObject(c: Concat, d: MemberDef)
    requires d.key != [] && d.key[0].Name? && FormMember(c, d).Ok?
    ensures EnsureObject(FormMember(c, d).value) == FormMember(c, d).value
  {
    hide Focus, EnsureObject, FormList;
    match d {
      case Assign(k, vl) => NamesKeepObject(Focus(c, k, DoAssign, Implicit).value, k, y => FormList(y, vl), Manifest);
      case Delete(k) => NamesKeepObject(c, k, DoAssign, Implicit);
      case AppendTo(k, vl) => NamesKeepObject(c, k, y => FormList(y, vl), Manifest);
      case SetTemporary(k, flag) => NamesKeepObject(c, k, DoTemporary(flag), Implicit);
    }
  }

  lemma {:induction false} StaysObject(c: Concat, ms: seq<MemberDef>)
    requires EnsureObject(c) == c && BeginWithNames(ms) && FormMembers(c, ms).Ok?
    ensures EnsureObject(FormMembers(c, ms).value) == FormMembers(c, ms).value
    decreases |ms|
  {
    hide EnsureObject, FormMember;
    if ms != [] {
      MemberKeepsObject(c, ms[0]);
      StaysObject(FormMember(c, ms[0]).value, ms[1..]);
    }
  }

  /** Two object literals side by side are one literal with the definitions of both. */
  lemma ObjectsFuse(c: Concat, ms: seq<MemberDef>, ns: seq<MemberDef>)
    requires BeginWithNames(ms)
    ensures AndThen(FormPart(c, ObjectPart(ms)), x => FormPart(x, ObjectPart(ns))) == FormPart(c, ObjectPart(ms + ns))
  {
    hide FormMembers;
    FormBoth(EnsureObject(c), ms, ns);
    var r := FormMembers(EnsureObject(c), ms);
    if r.Ok? { StaysObject(EnsureObject(c), ms); }
  }
}
