/** The additions pass of phase 2: adjacent summands are added up, objects are merged. */
module Additions {
  import opened Tree

  const TWO63 := 0x8000_0000_0000_0000
  const TWO64 := 0x1_0000_0000_0000_0000

  /** Conversion to `std::uint64_t`; also the result of an overflowing unsigned addition. */
  function Unsigned64(x: int): nat { x % TWO64 }

  /** Conversion to `std::int64_t`; an overflowing signed addition is taken to wrap around. */
  function Signed64(x: int): int { (x + TWO63) % TWO64 - TWO63 }

  /** What decides whether two summands can be added. */
  datatype Class = Never | Waiting | Number | Floating | Textual | Bytes | Sequence | Record

  function ClassOf(e: Entry): Class {
    match e
    case Null => Never
    case Boolean(_) => Never
    case Text(_) => Textual
    case Binary(_) => Bytes
    case Signed(_) => Number
    case Unsigned(_) => Number
    case Double(_) => Floating
    case Array(f, _) => if f == "" then Sequence else Waiting
    case Object(_) => Record
    case Asterisk(_) => Waiting
    case Reference(_) => Waiting
  }

  predicate Joinable(l: Entry, r: Entry) {
    ClassOf(l) == ClassOf(r) && ClassOf(l) != Never && ClassOf(l) != Waiting
  }

  predicate ClassesClash(l: Class, r: Class) {
    r == Never || (l != Waiting && r != Waiting && l != r)
  }

  /** The pairs of neighbours on which the pass throws. */
  predicate Clash(l: Entry, r: Entry) {
    ClassesClash(ClassOf(l), ClassOf(r))
  }

  predicate ClashFree(ps: seq<Entry>) {
    forall i | 0 < i < |ps| :: !Clash(ps[i - 1], ps[i])
  }

  /** A member `x` followed by a later member `y` of the same name. */
  function Stack(x: Concat, y: Concat): Concat {
    if y.remove then y
    else y.(remove := x.remove, temporary := x.temporary || y.temporary, parts := x.parts + y.parts)
  }

  function Merge(l: Members, r: Members): Members {
    map n | n in l.Keys + r.Keys ::
      if n !in l then r[n] else if n !in r then l[n] else Stack(l[n], r[n])
  }

  function Join(l: Entry, r: Entry): Entry
    requires Joinable(l, r)
  {
    match r
    case Signed(y) => if l.Signed? then Signed(Signed64(y + l.i)) else Signed(Signed64(y + Signed64(l.u)))
    case Unsigned(y) => if l.Unsigned? then Unsigned(Unsigned64(y + l.u)) else Signed(Signed64(l.i + Signed64(y)))
    case Double(y) => Double(Rounded(y, l.d))
    case Text(y) => Text(l.chars + y)
    case Binary(y) => Binary(l.bytes + y)
    case Array(_, y) => Array("", l.elements + y)
    case Object(y) => Object(Merge(l.members, y))
  }

  /** The effect of one more summand on a list that is already added up. */
  function Push(ps: seq<Entry>, e: Entry): seq<Entry> {
    if ps != [] && Joinable(ps[|ps| - 1], e) then ps[..|ps| - 1] + [Join(ps[|ps| - 1], e)]
    else ps + [e]
  }

  /** All neighbours added up from left to right, without looking into the summands. */
  function Collapse(ps: seq<Entry>): (r: seq<Entry>)
    ensures |r| <= |ps|
    ensures |r| == |ps| ==> r == ps
    ensures ps != [] ==> r != [] && ClassOf(r[|r| - 1]) == ClassOf(ps[|ps| - 1])
  {
    if ps == [] then [] else Push(Collapse(ps[..|ps| - 1]), ps[|ps| - 1])
  }

  /** The pass does not throw anywhere in the subtree. */
  predicate Sound(c: Concat) {
    ClashFree(c.parts) && forall i | 0 <= i < |c.parts| :: SoundEntry(c.parts[i])
  }

  predicate SoundEntry(e: Entry) {
    match e
    case Array(_, es) => forall i | 0 <= i < |es| :: Sound(es[i])
    case Object(m) => forall n | n in m :: Sound(m[n])
    case Asterisk(c) => Sound(c)
    case _ => true
  }

  /** The subtree after the pass, given that it does not throw. */
  function Pass(c: Concat): Concat {
    c.(parts := Collapse(seq(|c.parts|, i requires 0 <= i < |c.parts| => PassEntry(c.parts[i]))))
  }

  function PassEntry(e: Entry): (r: Entry)
    ensures ClassOf(r) == ClassOf(e)
  {
    match e
    case Array(f, es) => Array(f, seq(|es|, i requires 0 <= i < |es| => Pass(es[i])))
    case Object(m) => Object(map n | n in m :: Pass(m[n]))
    case Asterisk(c) => Asterisk(Pass(c))
    case _ => e
  }

  function Additions(c: Concat): Result<Concat> {
    if Sound(c) then Ok(Pass(c)) else Err(IncompatibleAddition)
  }

  lemma CollapseShort(ps: seq<Entry>)
    requires |ps| < 2
    ensures Collapse(ps) == ps
  {
    if |ps| == 1 {
      assert ps[..0] == [] && ps == [] + [ps[0]];
    }
  }

  lemma CollapseLast(ps: seq<Entry>, e: Entry)
    ensures Collapse(ps + [e]) == Push(Collapse(ps), e)
  {
    hide Push;
    assert (ps + [e])[..|ps|] == ps;
  }

  lemma CollapseNext(ps: seq<Entry>, k: nat)
    requires k < |ps|
    ensures Collapse(ps[..k + 1]) == Push(Collapse(ps[..k]), ps[k])
  {
    CollapseLast(ps[..k], ps[k]);
    assert ps[..k + 1] == ps[..k] + [ps[k]];
  }

  lemma ObjectPass(m: Members)
    ensures PassEntry(Object(m)) == Object(map n | n in m :: Pass(m[n]))
    ensures SoundEntry(Object(m)) <==> forall n | n in m :: Sound(m[n])
  {
    assert PassEntry(Object(m)) == Object(map n | n in m :: Pass(m[n])) by { hide Sound, SoundEntry, Collapse; }
    assert SoundEntry(Object(m)) <==> (forall n | n in m :: Sound(m[n])) by { hide Pass, PassEntry, Collapse, ClashFree; }
  }

  lemma ArrayPass(f: string, es: seq<Concat>)
    ensures PassEntry(Array(f, es)) == Array(f, seq(|es|, i requires 0 <= i < |es| => Pass(es[i])))
    ensures SoundEntry(Array(f, es)) <==> forall i | 0 <= i < |es| :: Sound(es[i])
  {
    assert PassEntry(Array(f, es)) == Array(f, seq(|es|, i requires 0 <= i < |es| => Pass(es[i]))) by {
      hide Sound, SoundEntry, Collapse;
    }
    assert SoundEntry(Array(f, es)) <==> (forall i | 0 <= i < |es| :: Sound(es[i])) by { hide Pass, PassEntry, Collapse, ClashFree; }
  }

  lemma SameClasses(ps: seq<Entry>, qs: seq<Entry>)
    requires |ps| == |qs| && forall i | 0 <= i < |ps| :: ClassOf(ps[i]) == ClassOf(qs[i])
    ensures ClashFree(ps) <==> ClashFree(qs)
  {
    hide ClassOf, ClassesClash;
  }

  /** What the pass does with two neighbours. */
  datatype Outcome = Throw | Skip | Added(sum: Entry)

  /** The pass over a tree as the evaluator runs it, in place and counting its changes. */
  class Phase2Additions {
    var root: Members
    var changes: nat

    constructor (o: Members)
      ensures root == o && changes == 0
    {
      root, changes := o, 0;
    }

    method Process() returns (r: Result<nat>)
      requires changes == 0
      modifies this
      ensures r == if SoundEntry(Object(old(root))) then Ok(changes) else Err(IncompatibleAddition)
      ensures r.Ok? ==> Object(root) == PassEntry(Object(old(root)))
      ensures r.Ok? ==> (changes == 0 <==> root == old(root))
    {
      var e := ProcessEntry(Object(root));
      if e.Err? { return Err(e.error); }
      root := e.value.members;
      r := Ok(changes);
    }

    method ProcessConcat(c: Concat) returns (r: Result<Concat>)
      modifies this`changes
      ensures r == Additions(c)
      ensures changes >= old(changes)
      ensures r.Ok? ==> (changes == old(changes) <==> r.value == c)
      decreases c, 3
    {
      hide SoundEntry, PassEntry, Collapse;
      var ps := ProcessParts(c);
      if ps.Err? { return Err(ps.error); }
      assert ps.value == seq(|c.parts|, i requires 0 <= i < |c.parts| => PassEntry(c.parts[i]));
      SameClasses(ps.value, c.parts);
      if |c.parts| < 2 {
        CollapseShort(ps.value);
        return Ok(c.(parts := ps.value));
      }
      var qs := AddNeighbours(ps.value);
      if qs.Err? { return Err(qs.error); }
      r := Ok(c.(parts := qs.value));
    }

    method ProcessParts(c: Concat) returns (r: Result<seq<Entry>>)
      modifies this`changes
      ensures r.Ok? <==> forall i | 0 <= i < |c.parts| :: SoundEntry(c.parts[i])
      ensures r.Ok? ==> |r.value| == |c.parts| && forall i | 0 <= i < |c.parts| :: r.value[i] == PassEntry(c.parts[i])
      ensures r.Err? ==> r.error == IncompatibleAddition
      ensures changes >= old(changes)
      ensures r.Ok? ==> (changes == old(changes) <==> r.value == c.parts)
      decreases c, 2
    {
      hide SoundEntry, PassEntry;
      var ps := c.parts;
      for k := 0 to |ps|
        invariant |ps| == |c.parts|
        invariant forall j | 0 <= j < k :: SoundEntry(c.parts[j]) && ps[j] == PassEntry(c.parts[j])
        invariant forall j | k <= j < |ps| :: ps[j] == c.parts[j]
        invariant changes >= old(changes) && (changes == old(changes) <==> ps == c.parts)
      {
        var e := ProcessEntry(ps[k]);
        if e.Err? { return Err(e.error); }
        ps := ps[k := e.value];
      }
      r := Ok(ps);
    }

    /** The loop with the two iterators: `i` is the right one, an erased left summand shifts it. */
    method AddNeighbours(before: seq<Entry>) returns (r: Result<seq<Entry>>)
      requires |before| >= 2
      modifies this`changes
      ensures r == if ClashFree(before) then Ok(Collapse(before)) else Err(IncompatibleAddition)
      ensures changes >= old(changes)
      ensures r.Ok? ==> changes - old(changes) == |before| - |r.value|
    {
      hide ClassOf, ClassesClash, Joinable, Join, Collapse;
      var ps, i := before, 1;
      ghost var k := 1;
      CollapseShort(before[..1]);
      assert ps == before[..1] + before[1..];
      while i < |ps|
        invariant 1 <= i <= |ps| && 1 <= k <= |before|
        invariant i == |Collapse(before[..k])| && ps == Collapse(before[..k]) + before[k..]
        invariant forall j | 0 < j < k :: !Clash(before[j - 1], before[j])
        invariant changes >= old(changes) && changes - old(changes) == |before| - |ps|
        decreases |before| - k
      {
        ghost var done := Collapse(before[..k]);
        assert ps[i - 1] == done[|done| - 1] && ps[i] == before[k];
        assert Clash(ps[i - 1], ps[i]) <==> Clash(before[k - 1], before[k]);
        var p := ProcessPair(ps[i - 1], ps[i]);
        match p {
          case Throw =>
            return Err(IncompatibleAddition);
          case Skip =>
            assert ps == (done + [before[k]]) + before[k + 1..];
            i := i + 1;
          case Added(e) =>
            ps := ps[..i - 1] + [e] + ps[i + 1..];
            changes := changes + 1;
            assert ps == (done[..i - 1] + [e]) + before[k + 1..];
        }
        CollapseNext(before, k);
        k := k + 1;
      }
      assert k == |before| && before[..k] == before && before[k..] == [];
      assert ps == Collapse(before);
      r := Ok(ps);
    }

    static method ProcessPair(l: Entry, r: Entry) returns (p: Outcome)
      ensures p == if Clash(l, r) then Throw else if Joinable(l, r) then Added(Join(l, r)) else Skip
    {
      match r {
        case Null => p := Throw;
        case Boolean(_) => p := Throw;
        case Signed(y) =>
          if Pending(l) { return Skip; }
          match l {
            case Signed(x) => p := Added(Signed(Signed64(y + x)));
            case Unsigned(x) => p := Added(Signed(Signed64(y + Signed64(x))));
            case _ => p := Throw;
          }
        case Unsigned(y) =>
          if Pending(l) { return Skip; }
          match l {
            case Unsigned(x) => p := Added(Unsigned(Unsigned64(y + x)));
            case Signed(x) => p := Added(Signed(Signed64(x + Signed64(y))));
            case _ => p := Throw;
          }
        case Double(y) =>
          p := if Pending(l) then Skip else if l.Double? then Added(Double(Rounded(y, l.d))) else Throw;
        case Text(y) =>
          p := if Pending(l) then Skip else if l.Text? then Added(Text(l.chars + y)) else Throw;
        case Binary(y) =>
          p := if Pending(l) then Skip else if l.Binary? then Added(Binary(l.bytes + y)) else Throw;
        case Array(_, y) =>
          p := if Pending(l) || Pending(r) then Skip else if l.Array? then Added(Array(r.call, l.elements + y)) else Throw;
        case Object(y) =>
          if Pending(l) { return Skip; }
          if !l.Object? { return Throw; }
          var o := ProcessObject(l.members, y);
          p := Added(Object(o));
        case Asterisk(_) => p := Skip;
        case Reference(_) => p := Skip;
      }
    }

    method ProcessEntry(e: Entry) returns (r: Result<Entry>)
      modifies this`changes
      ensures r == if SoundEntry(e) then Ok(PassEntry(e)) else Err(IncompatibleAddition)
      ensures changes >= old(changes)
      ensures r.Ok? ==> (changes == old(changes) <==> r.value == e)
      decreases e, 1
    {
      match e {
        case Array(f, es) =>
          var d := ProcessElements(e);
          r := if d.Ok? then Ok(Array(f, d.value)) else Err(d.error);
        case Object(m) =>
          var d := ProcessMembers(e);
          r := if d.Ok? then Ok(Object(d.value)) else Err(d.error);
        case Asterisk(c) =>
          var d := ProcessConcat(c);
          r := if d.Ok? then Ok(Asterisk(d.value)) else Err(d.error);
        case _ =>
          r := Ok(e);
      }
    }

    method ProcessElements(e: Entry) returns (r: Result<seq<Concat>>)
      requires e.Array?
      modifies this`changes
      ensures r == if SoundEntry(e) then Ok(PassEntry(e).elements) else Err(IncompatibleAddition)
      ensures changes >= old(changes)
      ensures r.Ok? ==> (changes == old(changes) <==> r.value == e.elements)
      decreases e, 0
    {
      hide PassEntry, SoundEntry, Pass, Sound;
      var es := e.elements;
      ArrayPass(e.call, es);
      for k := 0 to |es|
        invariant |es| == |e.elements|
        invariant forall j | 0 <= j < k :: Sound(e.elements[j]) && es[j] == Pass(e.elements[j])
        invariant forall j | k <= j < |es| :: es[j] == e.elements[j]
        invariant changes >= old(changes) && (changes == old(changes) <==> es == e.elements)
      {
        var d := ProcessConcat(es[k]);
        if d.Err? { return Err(d.error); }
        es := es[k := d.value];
      }
      assert es == PassEntry(e).elements;
      r := Ok(es);
    }

    method ProcessMembers(e: Entry) returns (r: Result<Members>)
      requires e.Object?
      modifies this`changes
      ensures r == if SoundEntry(e) then Ok(PassEntry(e).members) else Err(IncompatibleAddition)
      ensures changes >= old(changes)
      ensures r.Ok? ==> (changes == old(changes) <==> r.value == e.members)
      decreases e, 0
    {
      hide PassEntry, SoundEntry, Pass, Sound;
      var m := e.members;
      assert e == Object(m);
      ObjectPass(m);
      var todo, o := m.Keys, m;
      while todo != {}
        invariant todo <= m.Keys && o.Keys == m.Keys
        invariant forall n | n in todo :: o[n] == m[n]
        invariant forall n | n in m && n !in todo :: Sound(m[n]) && o[n] == Pass(m[n])
        invariant changes >= old(changes) && (changes == old(changes) <==> o == m)
      {
        var n :| n in todo;
        var d := ProcessConcat(o[n]);
        if d.Err? { return Err(d.error); }
        assert o[n := d.value] == m <==> o == m && d.value == m[n];
        o, todo := o[n := d.value], todo - {n};
      }
      assert SoundEntry(e);
      assert forall n | n in m :: PassEntry(e).members[n] == Pass(m[n]);
      assert o == PassEntry(e).members;
      r := Ok(o);
    }

    /** Moves every member of `l` into `r`, as the right object is the one that is kept. */
    static method ProcessObject(l: Members, r: Members) returns (o: Members)
      ensures o == Merge(l, r)
    {
      var todo := l.Keys;
      o := r;
      while todo != {}
        invariant todo <= l.Keys && o.Keys == r.Keys + (l.Keys - todo)
        invariant forall n | n in o ::
          o[n] == if n in todo then r[n] else Merge(l, r)[n]
      {
        var n :| n in todo;
        if n !in o {
          o := o[n := l[n]];
        } else if !o[n].remove {
          o := o[n := o[n].(
            remove := if l[n].remove then true else o[n].remove,
            temporary := if l[n].temporary then true else o[n].temporary,
            parts := l[n].parts + o[n].parts)];
        }
        todo := todo - {n};
      }
    }
  }
}
