/** The parser state with its prefix and suffix, which guards push and pop on every exit. */
module ParserMachine {
  import opened Tree
  import opened Phase1
  import opened Parser

  /** The part list of a path with its generation cell, if it ends with one, set to `g`. */
  function Advanced(suffix: Key, g: nat): Key {
    if suffix != [] && suffix[|suffix| - 1].Append? then suffix[|suffix| - 1 := Append(g)] else suffix
  }

  /** The loop that looks for the summand and the element that an index denotes. */
  method FindElement(ps: seq<Entry>, index: nat) returns (r: Result<(nat, nat)>)
    ensures r == Locate(ps, index)
  {
    hide Locate;
    var n: nat := index;
    assert ps[0..] == ps;
    for k := 0 to |ps|
      invariant Locate(ps, index) == Shifted(Locate(ps[k..], n), k)
    {
      LocateNext(ps, k, n);
      if !ps[k].Array? { return Err(CannotIndex); }
      if n < |ps[k].elements| { return Ok((k, n)); }
      n := n - |ps[k].elements|;
    }
    LocateNothing(ps[|ps|..], n);
    r := Err(OutOfRange);
  }

  /** One turn of the loop. */
  lemma LocateNext(ps: seq<Entry>, k: nat, n: nat)
    requires k < |ps|
    ensures Locate(ps[k..], n) ==
      if !ps[k].Array? then Err(CannotIndex)
      else if n < |ps[k].elements| then Ok((0, n))
      else Shifted(Locate(ps[k + 1..], n - |ps[k].elements|), 1)
  {
    assert ps[k..][0] == ps[k] && ps[k..][1..] == ps[k + 1..];
  }

  lemma LocateNothing(ps: seq<Entry>, n: nat)
    requires ps == []
    ensures Locate(ps, n) == Err(OutOfRange)
  {
  }

  function Shifted(r: Result<(nat, nat)>, k: nat): Result<(nat, nat)> {
    if r.Ok? then Ok((r.value.0 + k, r.value.1)) else r
  }

  /** Writing along a path, one part at a time, making room where there is none. */
  method AppendPath(c: Concat, path: Key, f: Step, mode: Mode) returns (r: Result<Concat>)
    ensures r == Focus(c, path, f, mode)
    decreases |path|, 1
  {
    if path == [] { return f(c); }
    match path[0] {
      case Star => r := AppendStar(c, path, f, mode);
      case Name(n) => r := AppendName(c, path, f, mode);
      case Index(i) => r := AppendIndex(c, path, f, mode);
      case Append(g) => r := AppendElement(c, path, f, mode);
    }
  }

  method AppendStar(c: Concat, path: Key, f: Step, mode: Mode) returns (r: Result<Concat>)
    requires path != [] && path[0].Star?
    ensures r == Focus(c, path, f, mode)
    decreases |path|, 0
  {
    var d := c;
    if d.parts == [] || !LastPart(d).Asterisk? { d := d.(parts := d.parts + [Asterisk(EMPTY)]); }
    var x := AppendPath(LastPart(d).star, path[1..], f, mode);
    if x.Err? { return x; }
    r := Ok(WithLast(d, Asterisk(x.value)));
  }

  method AppendName(c: Concat, path: Key, f: Step, mode: Mode) returns (r: Result<Concat>)
    requires path != [] && path[0].Name?
    ensures r == Focus(c, path, f, mode)
    decreases |path|, 0
  {
    var d, n := c, path[0].name;
    if d.parts == [] || !LastPart(d).Object? { d := d.(parts := d.parts + [Object(map[])]); }
    var m := LastPart(d).members;
    var inserted := n !in m;
    if inserted { m := m[n := EMPTY]; }
    m := m[n := m[n].(implicit := mode == Implicit && (inserted || m[n].implicit))];
    var x := AppendPath(m[n], path[1..], f, mode);
    if x.Err? { return x; }
    assert m[n := x.value] == LastPart(d).members[n := x.value];
    r := Ok(WithLast(d, Object(m[n := x.value])));
  }

  method AppendIndex(c: Concat, path: Key, f: Step, mode: Mode) returns (r: Result<Concat>)
    requires path != [] && path[0].Index?
    ensures r == Focus(c, path, f, mode)
    decreases |path|, 0
  {
    var l := FindElement(c.parts, path[0].index);
    if l.Err? { return Err(l.error); }
    var k, j := l.value.0, l.value.1;
    var a := c.parts[k];
    var x := AppendPath(a.elements[j], path[1..], f, mode);
    if x.Err? { return x; }
    r := Ok(c.(parts := c.parts[k := Array(a.call, a.elements[j := x.value])]));
  }

  method AppendElement(c: Concat, path: Key, f: Step, mode: Mode) returns (r: Result<Concat>)
    requires path != [] && path[0].Append?
    ensures r == Focus(c, path, f, mode)
    decreases |path|, 0
  {
    var d, g := c, path[0].generation;
    if d.parts == [] || !LastPart(d).Array? { d := d.(parts := d.parts + [Array("", [])]); }
    var a := LastPart(d);
    if g > d.generation {
      d := d.(generation := g);
      var x := AppendPath(EMPTY, path[1..], f, mode);
      if x.Err? { return x; }
      return Ok(WithLast(d, Array(a.call, a.elements + [x.value])));
    }
    if a.elements == [] { return Err(AssertionFailed); }
    var last := |a.elements| - 1;
    var x := AppendPath(a.elements[last], path[1..], f, mode);
    if x.Err? { return x; }
    r := Ok(WithLast(d, Array(a.call, a.elements[last := x.value])));
  }

  class Machine {
    var prefix: Key
    var suffix: Key
    var root: Members
    var generation: nat

    constructor ()
      ensures prefix == [] && suffix == [] && root == map[] && generation == 1
    {
      prefix, suffix, root, generation := [], [], map[], 1;
    }

    function Current(): State
      reads this
    {
      State(root, generation)
    }

    /** A generation cell at the end of the path is not ahead of the counter. */
    predicate Cell()
      reads this
    {
      suffix != [] && (suffix[|suffix| - 1].Append? ==> suffix[|suffix| - 1].generation <= generation)
    }

    /** One action: the step is applied at the end of the current path plus `member`. */
    method Act(member: Key, f: Step, mode: Mode) returns (r: Result<()>)
      modifies this`root
      ensures Write(old(Current()), prefix + suffix + member, f, mode) == if r.Ok? then Ok(Current()) else Err(r.error)
    {
      var path := prefix + suffix + member;
      if path == [] { return Err(AssertionFailed); }
      if |path| > NESTING_LIMIT { return Err(NestingExceeded); }
      if !path[0].Name? { return Err(ExpectedName); }
      var n := path[0].name;
      var inserted := n !in root;
      var c := if inserted then EMPTY else root[n];
      c := c.(implicit := mode == Implicit && (inserted || c.implicit));
      var x := AppendPath(c, path[1..], f, mode);
      if x.Err? { return Err(x.error); }
      root := root[n := x.value];
      r := Ok(());
    }

    method ParseList(vl: ValueList) returns (r: Result<()>)
      requires ProperList(vl) && Cell()
      modifies this
      ensures ExecList(old(Current()), old(prefix + suffix), vl) == if r.Ok? then Ok(Current()) else Err(r.error)
      ensures prefix == old(prefix)
      ensures suffix == if r.Ok? then Advanced(old(suffix), generation) else old(suffix)
      ensures generation >= old(generation)
      decreases vl, 1
    {
      hide ExecPart, Proper;
      assert vl.parts[0..] == vl.parts;
      for i := 0 to |vl.parts|
        invariant prefix == old(prefix) && suffix == old(suffix) && generation >= old(generation)
        invariant ExecParts(old(Current()), old(prefix + suffix), vl.parts)
               == ExecParts(Current(), old(prefix + suffix), vl.parts[i..])
      {
        assert vl.parts[i..][0] == vl.parts[i] && vl.parts[i..][1..] == vl.parts[i + 1..];
        r := ParsePart(vl.parts[i]);
        if r.Err? { return; }
      }
      assert vl.parts[|vl.parts|..] == [];
      generation := generation + 1;
      assert suffix[|suffix| - 1].Append? ==> generation > suffix[|suffix| - 1].generation;
      suffix := Advanced(suffix, generation);
      r := Ok(());
    }

    method ParsePart(v: ValuePart) returns (r: Result<()>)
      requires Proper(v) && Cell()
      modifies this
      ensures ExecPart(old(Current()), old(prefix + suffix), v) == if r.Ok? then Ok(Current()) else Err(r.error)
      ensures prefix == old(prefix) && suffix == old(suffix) && generation >= old(generation)
      decreases v, 1
    {
      hide ExecElements, ExecMembers, FocusRoot;
      assert prefix + suffix + [] == prefix + suffix;
      match v {
        case AtomPart(e) => r := Act([], DoEmplace(e), Manifest);
        case ReferencePart(t) => r := Act([], DoEmplace(Reference(t)), Manifest);
        case ArrayPart(es) =>
          r := Act([], DoArray, Manifest);
          if r.Ok? { r := ParseElements(v, es); }
        case FunctionPart(n, es) =>
          r := Act([], DoFunction(n), Manifest);
          if r.Ok? { r := ParseElements(v, es); }
        case ObjectPart(ms) =>
          r := Act([], DoObject, Manifest);
          if r.Ok? { r := ParseMembers(ms); }
      }
    }

    /** The elements of an array or the arguments of a function, under a guard of their own. */
    method ParseElements(ghost v: ValuePart, es: seq<ValueList>) returns (r: Result<()>)
      requires (v.ArrayPart? && es == v.elements) || (v.FunctionPart? && es == v.args)
      requires Proper(v)
      modifies this
      ensures ExecElements(State(old(root), old(generation) + 1), old(prefix + suffix), es)
           == if r.Ok? then Ok(Current()) else Err(r.error)
      ensures prefix == old(prefix) && suffix == old(suffix) && generation >= old(generation)
      decreases v, 0
    {
      hide ExecList, ProperList;
      var size := |prefix|;
      prefix := prefix + suffix;
      generation := generation + 1;
      suffix := [Append(generation)];
      assert es[0..] == es;
      var i := 0;
      r := Ok(());
      while i < |es| && r.Ok?
        invariant 0 <= i <= |es|
        invariant prefix == old(prefix) + old(suffix) && generation > old(generation)
        invariant r.Ok? ==> suffix == [Append(generation)]
        invariant r.Ok? ==> ExecElements(State(old(root), old(generation) + 1), prefix, es) == ExecElements(Current(), prefix, es[i..])
        invariant r.Err? ==> ExecElements(State(old(root), old(generation) + 1), prefix, es) == Err(r.error)
        decreases |es| - i, r.Ok?
      {
        assert es[i..][0] == es[i] && es[i..][1..] == es[i + 1..];
        r := ParseList(es[i]);
        if r.Ok? { i := i + 1; }
      }
      assert es[|es|..] == [];
      suffix := prefix[size..];
      prefix := prefix[..size];
    }

    method ParseMembers(ms: seq<MemberDef>) returns (r: Result<()>)
      requires forall i | 0 <= i < |ms| :: ProperMember(ms[i])
      modifies this
      ensures ExecMembers(old(Current()), old(prefix + suffix), ms) == if r.Ok? then Ok(Current()) else Err(r.error)
      ensures prefix == old(prefix) && suffix == old(suffix) && generation >= old(generation)
      decreases ms, 1
    {
      hide ExecMember, ProperMember;
      assert ms[0..] == ms;
      for i := 0 to |ms|
        invariant prefix == old(prefix) && suffix == old(suffix) && generation >= old(generation)
        invariant ExecMembers(old(Current()), old(prefix + suffix), ms)
               == ExecMembers(Current(), old(prefix + suffix), ms[i..])
      {
        assert ms[i..][0] == ms[i] && ms[i..][1..] == ms[i + 1..];
        r := ParseMember(ms[i]);
        if r.Err? { return; }
      }
      assert ms[|ms|..] == [];
      r := Ok(());
    }

    /** One member; a guard makes its key the suffix for as long as its value is read. */
    method ParseMember(d: MemberDef) returns (r: Result<()>)
      requires ProperMember(d)
      modifies this
      ensures ExecMember(old(Current()), old(prefix + suffix), d) == if r.Ok? then Ok(Current()) else Err(r.error)
      ensures prefix == old(prefix) && suffix == old(suffix) && generation >= old(generation)
      decreases d, 1
    {
      hide ExecList, ProperList, FocusRoot;
      if d.SetTemporary? {
        r := Act(d.key, DoTemporary(d.flag), Implicit);
        return;
      }
      var size := |prefix|;
      prefix := prefix + suffix;
      suffix := d.key;
      assert prefix + suffix + [] == old(prefix + suffix) + d.key;
      r := Ok(());
      if !d.AppendTo? { r := Act([], DoAssign, Implicit); }
      if r.Ok? && !d.Delete? { r := ParseList(d.value); }
      suffix := prefix[size..];
      prefix := prefix[..size];
    }
  }
}
