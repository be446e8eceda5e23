/** Phase 5: the tree becomes a plain value in which every node knows its own key. */
module Phase5 {
  import opened Tree
  import opened Additions
  import opened Phase3

  datatype Value =
    | VNull
    | VBoolean(truth: bool)
    | VString(chars: string)
    | VBinary(bytes: seq<bv8>)
    | VSigned(i: int)
    | VUnsigned(u: nat)
    | VDouble(d: Float)
    | VArray(elements: seq<Annotated>)
    | VObject(members: map<string, Annotated>)

  datatype Annotated = Annotated(key: Key, value: Value)

  // ---- What can be repacked ------------------------------------------------------------------

  /** Every concat has exactly one part, and that part is plain data. */
  predicate Plain(c: Concat) {
    |c.parts| == 1 && PlainEntry(c.parts[0])
  }

  predicate PlainEntry(e: Entry) {
    match e
    case Array(f, es) => f == "" && forall i | 0 <= i < |es| :: Plain(es[i])
    case Object(m) => forall n | n in m :: Plain(m[n])
    case Asterisk(_) => false
    case Reference(_) => false
    case _ => true
  }

  /** Where the first two summands of a finished concat could still meet. */
  lemma OnePartIsLeft(c: Concat)
    requires Sound(c) && Pass(c) == c && Resolved(c)
    ensures |c.parts| <= 1
  {
    hide Sound, Resolved, Pass, Joinable;
    if |c.parts| >= 2 { ReadyNeighbours(c); }
    PassOnParts(c);
    CollapsedFront(c.parts);
  }

  lemma ReadyNeighbours(c: Concat)
    requires Sound(c) && Resolved(c) && |c.parts| >= 2
    ensures Joinable(c.parts[0], c.parts[1])
  {
    var l, r := c.parts[0], c.parts[1];
    assert ResolvedEntry(l) && ResolvedEntry(r) && !Clash(l, r);
  }

  lemma {:induction false} CollapsedFront(ps: seq<Entry>)
    ensures |ps| >= 2 && Joinable(ps[0], ps[1]) ==> |Collapse(ps)| < |ps|
    decreases |ps|
  {
    hide Joinable, Join;
    if |ps| < 2 || !Joinable(ps[0], ps[1]) { return; }
    var init := ps[..|ps| - 1];
    if |ps| == 2 {
      CollapseShort(init);
    } else {
      CollapsedFront(init);
    }
  }

  lemma PassOnParts(c: Concat)
    requires Pass(c) == c
    ensures forall i | 0 <= i < |c.parts| :: PassEntry(c.parts[i]) == c.parts[i]
    ensures Collapse(c.parts) == c.parts
  {
    hide PassEntry, Collapse;
    var ps := seq(|c.parts|, i requires 0 <= i < |c.parts| => PassEntry(c.parts[i]));
    assert Collapse(ps) == c.parts && |ps| == |c.parts| && ps == c.parts;
    forall i | 0 <= i < |c.parts| ensures PassEntry(c.parts[i]) == c.parts[i] { assert ps[i] == c.parts[i]; }
  }

  /**
   If the additions pass has nothing left to do and phase 3 accepts the tree, then phase 5 finds
   exactly one plain part in every concat, at every depth.
   */
  lemma {:induction false} Phase3LeavesPlain(c: Concat)
    requires Sound(c) && Pass(c) == c && Resolved(c) && !Omit(c)
    ensures Plain(Strip(c))
  {
    OnePartIsLeft(c);
    PassOnParts(c);
    hide PassEntry, SoundEntry, ResolvedEntry, Pass;
    assert |c.parts| == 1 && PassEntry(c.parts[0]) == c.parts[0];
    Phase3LeavesPlainEntry(c.parts[0]);
    assert Strip(c).parts[0] == StripEntry(c.parts[0]);
  }

  lemma {:induction false} Phase3LeavesPlainEntry(e: Entry)
    requires SoundEntry(e) && PassEntry(e) == e && ResolvedEntry(e)
    ensures PlainEntry(StripEntry(e))
    decreases e, 1
  {
    match e {
      case Array(f, es) =>
        hide Sound, Pass, Resolved, Strip, Plain;
        forall i | 0 <= i < |es| && !Omit(es[i]) ensures Plain(Strip(es[i])) {
          assert PassEntry(e).elements[i] == Pass(es[i]);
          Phase3LeavesPlain(es[i]);
        }
        StrippedElements(es);
      case Object(m) =>
        hide Sound, Pass, Resolved, Strip, Plain;
        forall n | n in m && !Omit(m[n]) ensures Plain(Strip(m[n])) {
          assert PassEntry(e).members[n] == Pass(m[n]);
          Phase3LeavesPlain(m[n]);
        }
        ObjectStrip(m);
      case _ =>
    }
  }

  lemma {:induction false} StrippedElements(es: seq<Concat>)
    requires forall i | 0 <= i < |es| && !Omit(es[i]) :: Plain(Strip(es[i]))
    ensures forall i | 0 <= i < |StripElements(es)| :: Plain(StripElements(es)[i])
    decreases |es|
  {
    hide Strip, Plain, Omit;
    if es != [] {
      forall i | 0 <= i < |es[1..]| && !Omit(es[1..][i]) ensures Plain(Strip(es[1..][i])) { assert es[1..][i] == es[i + 1]; }
      StrippedElements(es[1..]);
    }
  }

  // ---- Repacking -----------------------------------------------------------------------------

  function Repack(k: Key, c: Concat): Annotated
    requires Plain(c)
    decreases c
  {
    RepackEntry(k, c.parts[0])
  }

  function RepackEntry(k: Key, e: Entry): (a: Annotated)
    requires PlainEntry(e)
    ensures a.key == k
    decreases e
  {
    Annotated(k,
      match e
      case Null => VNull
      case Boolean(b) => VBoolean(b)
      case Text(s) => VString(s)
      case Binary(b) => VBinary(b)
      case Signed(i) => VSigned(i)
      case Unsigned(u) => VUnsigned(u)
      case Double(d) => VDouble(d)
      case Array(_, es) => VArray(seq(|es|, i requires 0 <= i < |es| => Repack(k + [Index(i)], es[i])))
      case Object(m) => VObject(map n | n in m :: Repack(k + [Name(n)], m[n])))
  }

  /** The receiver of the events: a stack of unfinished containers and the last finished value. */
  class Consumer {
    var stack: seq<Annotated>
    var keys: seq<string>
    var value: Annotated

    constructor ()
      ensures stack == [] && keys == []
    {
      stack, keys, value := [], [], Annotated([], VNull);
    }

    method Atom(k: Key, v: Value)
      modifies this`value
      ensures value == Annotated(k, v)
    {
      value := Annotated(k, v);
    }

    method BeginArray(k: Key)
      modifies this`stack
      ensures stack == old(stack) + [Annotated(k, VArray([]))]
    {
      stack := stack + [Annotated(k, VArray([]))];
    }

    method BeginObject(k: Key)
      modifies this`stack
      ensures stack == old(stack) + [Annotated(k, VObject(map[]))]
    {
      stack := stack + [Annotated(k, VObject(map[]))];
    }

    method Element()
      requires stack != [] && stack[|stack| - 1].value.VArray?
      modifies this`stack
      ensures stack == old(stack)[..|old(stack)| - 1] + [old(stack)[|old(stack)| - 1].(value := VArray(old(stack)[|old(stack)| - 1].value.elements + [value]))]
    {
      var top := stack[|stack| - 1];
      stack := stack[..|stack| - 1] + [top.(value := VArray(top.value.elements + [value]))];
    }

    method MemberKey(n: string)
      modifies this`keys
      ensures keys == old(keys) + [n]
    {
      keys := keys + [n];
    }

    method Member()
      requires stack != [] && stack[|stack| - 1].value.VObject? && keys != []
      modifies this`stack, this`keys
      ensures keys == old(keys)[..|old(keys)| - 1]
      ensures stack == old(stack)[..|old(stack)| - 1] + [old(stack)[|old(stack)| - 1].(value := VObject(old(stack)[|old(stack)| - 1].value.members[old(keys)[|old(keys)| - 1] := value]))]
    {
      var top := stack[|stack| - 1];
      stack := stack[..|stack| - 1] + [top.(value := VObject(top.value.members[keys[|keys| - 1] := value]))];
      keys := keys[..|keys| - 1];
    }

    method End()
      requires stack != []
      modifies this`stack, this`value
      ensures stack == old(stack)[..|old(stack)| - 1] && value == old(stack)[|old(stack)| - 1]
    {
      value, stack := stack[|stack| - 1], stack[..|stack| - 1];
    }

    /** Phase 5 for one concat; fails exactly where the assertion of the source would fail. */
    method RepackConcat(k: Key, c: Concat) returns (r: Result<()>)
      modifies this
      ensures r == if Plain(c) then Ok(()) else Err(AssertionFailed)
      ensures r.Ok? ==> value == Repack(k, c) && stack == old(stack) && keys == old(keys)
      decreases c, 2
    {
      if |c.parts| != 1 { return Err(AssertionFailed); }
      r := RepackPart(k, c.parts[0]);
    }

    method RepackPart(k: Key, e: Entry) returns (r: Result<()>)
      modifies this
      ensures r == if PlainEntry(e) then Ok(()) else Err(AssertionFailed)
      ensures r.Ok? ==> value == RepackEntry(k, e) && stack == old(stack) && keys == old(keys)
      decreases e, 1
    {
      hide Plain, Repack;
      r := Ok(());
      match e {
        case Null => Atom(k, VNull);
        case Boolean(b) => Atom(k, VBoolean(b));
        case Text(s) => Atom(k, VString(s));
        case Binary(b) => Atom(k, VBinary(b));
        case Signed(i) => Atom(k, VSigned(i));
        case Unsigned(u) => Atom(k, VUnsigned(u));
        case Double(d) => Atom(k, VDouble(d));
        case Array(f, _) =>
          if f != "" { return Err(AssertionFailed); }
          r := RepackArray(k, e);
        case Object(_) => r := RepackObject(k, e);
        case Asterisk(_) => r := Err(AssertionFailed);
        case Reference(_) => r := Err(AssertionFailed);
      }
    }

    method RepackArray(k: Key, e: Entry) returns (r: Result<()>)
      requires e.Array? && e.call == ""
      modifies this
      ensures r == if PlainEntry(e) then Ok(()) else Err(AssertionFailed)
      ensures r.Ok? ==> value == RepackEntry(k, e) && stack == old(stack) && keys == old(keys)
      decreases e, 0
    {
      hide Plain, Repack;
      var es := e.elements;
      ghost var done: seq<Annotated> := [];
      BeginArray(k);
      for i := 0 to |es|
        invariant stack == old(stack) + [Annotated(k, VArray(done))] && keys == old(keys)
        invariant |done| == i && forall j | 0 <= j < i :: Plain(es[j]) && done[j] == Repack(k + [Index(j)], es[j])
      {
        var d := RepackConcat(k + [Index(i)], es[i]);
        if d.Err? { return d; }
        Element();
        done := done + [value];
      }
      End();
      assert done == RepackEntry(k, e).value.elements;
      r := Ok(());
    }

    method RepackObject(k: Key, e: Entry) returns (r: Result<()>)
      requires e.Object?
      modifies this
      ensures r == if PlainEntry(e) then Ok(()) else Err(AssertionFailed)
      ensures r.Ok? ==> value == RepackEntry(k, e) && stack == old(stack) && keys == old(keys)
      decreases e, 0
    {
      hide Plain, Repack;
      var m := e.members;
      var todo := m.Keys;
      ghost var done: map<string, Annotated> := map[];
      BeginObject(k);
      while todo != {}
        invariant todo <= m.Keys
        invariant stack == old(stack) + [Annotated(k, VObject(done))] && keys == old(keys)
        invariant done.Keys == m.Keys - todo
        invariant forall n | n in done :: Plain(m[n]) && done[n] == Repack(k + [Name(n)], m[n])
      {
        var n :| n in todo;
        MemberKey(n);
        var d := RepackConcat(k + [Name(n)], m[n]);
        if d.Err? { return d; }
        Member();
        done, todo := done[n := value], todo - {n};
      }
      End();
      assert done == RepackEntry(k, e).value.members;
      r := Ok(());
    }
  }

  // ---- Keys ----------------------------------------------------------------------------------

  /** The public lookup of a sub-value by its key. */
  function AccessValue(a: Annotated, k: Key): Result<Annotated>
    decreases |k|
  {
    if k == [] then Ok(a)
    else match k[0]
      case Name(n) =>
        if !a.value.VObject? then Err(CannotAccessName)
        else if n !in a.value.members then Err(NameNotFound)
        else AccessValue(a.value.members[n], k[1..])
      case Index(i) =>
        if !a.value.VArray? then Err(CannotIndex)
        else if i >= |a.value.elements| then Err(OutOfRange)
        else AccessValue(a.value.elements[i], k[1..])
      case _ => Err(AssertionFailed)
  }

  /** `x` is `a` or one of the values inside `a`, at any depth. */
  predicate Inside(x: Annotated, a: Annotated) {
    x == a ||
    match a.value
    case VArray(es) => exists i | 0 <= i < |es| :: Inside(x, es[i])
    case VObject(m) => exists n | n in m :: Inside(x, m[n])
    case _ => false
  }

  lemma {:induction false} KeysLeadBack(k: Key, e: Entry, x: Annotated)
    requires PlainEntry(e) && Inside(x, RepackEntry(k, e))
    ensures k <= x.key && AccessValue(RepackEntry(k, e), x.key[|k|..]) == Ok(x)
    decreases e
  {
    hide Plain, Repack;
    var a := RepackEntry(k, e);
    if x != a {
      match e {
        case Array(_, es) =>
          var i :| 0 <= i < |es| && Inside(x, a.value.elements[i]);
          var h := Index(i);
          PlainIsOne(k + [h], es[i]);
          KeysLeadBack(k + [h], es[i].parts[0], x);
          NextKey(k, h, x.key);
        case Object(m) =>
          var n :| n in m && Inside(x, a.value.members[n]);
          var h := Name(n);
          PlainIsOne(k + [h], m[n]);
          KeysLeadBack(k + [h], m[n].parts[0], x);
          NextKey(k, h, x.key);
      }
    } else {
      assert x.key[|k|..] == [];
    }
  }

  lemma PlainIsOne(k: Key, c: Concat)
    requires Plain(c)
    ensures |c.parts| == 1 && PlainEntry(c.parts[0]) && c.parts[0] < c
    ensures Repack(k, c) == RepackEntry(k, c.parts[0])
  {
    hide RepackEntry, PlainEntry;
  }

  lemma NextKey(k: Key, h: KeyPart, q: Key)
    requires k + [h] <= q
    ensures k <= q && q[|k|..] != [] && q[|k|..][0] == h && q[|k|..][1..] == q[|k + [h]|..]
  {
    assert q[|k|] == (k + [h])[|k|];
  }

  /** Every value of a result, at any depth, is found from the root under its own key. */
  lemma AnnotatedKeysAreCorrect(m: Members, x: Annotated)
    requires PlainEntry(Object(m)) && Inside(x, RepackEntry([], Object(m)))
    ensures AccessValue(RepackEntry([], Object(m)), x.key) == Ok(x)
  {
    KeysLeadBack([], Object(m), x);
    assert x.key[0..] == x.key;
  }
}
