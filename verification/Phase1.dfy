/** Phase 1: every step of the parser writes into the tree along a path that starts at the root. */
module Phase1 {
  import opened Tree

  const NESTING_LIMIT := 96

  /** Whether a step defines something or only makes room for a deletion or a flag. */
  datatype Mode = Implicit | Manifest

  /** What is to be done with the concat at the end of a path. */
  type Step = Concat -> Result<Concat>

  // ---- Making room for the next part ---------------------------------------------------------

  function LastPart(c: Concat): Entry
    requires c.parts != []
  {
    c.parts[|c.parts| - 1]
  }

  function WithLast(c: Concat, e: Entry): (d: Concat)
    requires c.parts != []
    ensures d.parts != [] && LastPart(d) == e
  {
    c.(parts := c.parts[|c.parts| - 1 := e])
  }

  function EnsureArray(c: Concat): (d: Concat)
    ensures d.parts != [] && LastPart(d).Array?
  {
    if c.parts != [] && LastPart(c).Array? then c else c.(parts := c.parts + [Array("", [])])
  }

  function EnsureObject(c: Concat): (d: Concat)
    ensures d.parts != [] && LastPart(d).Object?
  {
    if c.parts != [] && LastPart(c).Object? then c else c.(parts := c.parts + [Object(map[])])
  }

  function EnsureAsterisk(c: Concat): (d: Concat)
    ensures d.parts != [] && LastPart(d).Asterisk?
  {
    if c.parts != [] && LastPart(c).Asterisk? then c else c.(parts := c.parts + [Asterisk(EMPTY)])
  }

  /** The summand and the element in it that an index counts up to. */
  function Locate(ps: seq<Entry>, n: nat): (r: Result<(nat, nat)>)
    ensures r.Ok? ==> r.value.0 < |ps| && ps[r.value.0].Array? && r.value.1 < |ps[r.value.0].elements|
  {
    if ps == [] then Err(OutOfRange)
    else if !ps[0].Array? then Err(CannotIndex)
    else if n < |ps[0].elements| then Ok((0, n))
    else
      var r := Locate(ps[1..], n - |ps[0].elements|);
      if r.Ok? then Ok((r.value.0 + 1, r.value.1)) else r
  }

  // ---- Writing along a path ------------------------------------------------------------------

  function Focus(c: Concat, path: Key, f: Step, mode: Mode): Result<Concat>
    decreases |path|, 0
  {
    if path == [] then f(c)
    else match path[0]
      case Star =>
        var d := EnsureAsterisk(c);
        var x := Focus(LastPart(d).star, path[1..], f, mode);
        if x.Ok? then Ok(WithLast(d, Asterisk(x.value))) else x
      case Name(n) =>
        var d := EnsureObject(c);
        var m := FocusMember(LastPart(d).members, n, path[1..], f, mode);
        if m.Ok? then Ok(WithLast(d, Object(m.value))) else Err(m.error)
      case Index(i) => (
        match Locate(c.parts, i)
        case Err(e) => Err(e)
        case Ok((k, j)) =>
          var a := c.parts[k];
          var x := Focus(a.elements[j], path[1..], f, mode);
          if x.Ok? then Ok(c.(parts := c.parts[k := Array(a.call, a.elements[j := x.value])])) else x)
      case Append(g) =>
        var d := EnsureArray(c);
        var a := LastPart(d);
        if g > d.generation then
          var x := Focus(EMPTY, path[1..], f, mode);
          if x.Ok? then Ok(WithLast(d.(generation := g), Array(a.call, a.elements + [x.value]))) else x
        else if a.elements == [] then Err(AssertionFailed)
        else
          var last := |a.elements| - 1;
          var x := Focus(a.elements[last], path[1..], f, mode);
          if x.Ok? then Ok(WithLast(d, Array(a.call, a.elements[last := x.value]))) else x
  }

  /** The member under a name, which is created if there is none. */
  function Member(m: Members, n: string, mode: Mode): Concat {
    if n in m then m[n].(implicit := mode == Implicit && m[n].implicit)
    else EMPTY.(implicit := mode == Implicit)
  }

  function FocusMember(m: Members, n: string, path: Key, f: Step, mode: Mode): Result<Members>
    decreases |path|, 1
  {
    var x := Focus(Member(m, n, mode), path, f, mode);
    if x.Ok? then Ok(m[n := x.value]) else Err(x.error)
  }

  function FocusRoot(m: Members, path: Key, f: Step, mode: Mode): Result<Members> {
    if path == [] then Err(AssertionFailed)
    else if |path| > NESTING_LIMIT then Err(NestingExceeded)
    else if !path[0].Name? then Err(ExpectedName)
    else FocusMember(m, path[0].name, path[1..], f, mode)
  }

  // ---- Laws ----------------------------------------------------------------------------------

  function AndThen(r: Result<Concat>, g: Step): Result<Concat> {
    if r.Ok? then g(r.value) else r
  }

  lemma {:induction false} FocusCongruence(c: Concat, path: Key, f: Step, g: Step, mode: Mode)
    requires forall x :: f(x) == g(x)
    ensures Focus(c, path, f, mode) == Focus(c, path, g, mode)
    decreases |path|
  {
    hide WithLast, EnsureObject, EnsureArray, EnsureAsterisk, Locate;
    if path != [] {
      match path[0] {
        case Star => FocusCongruence(LastPart(EnsureAsterisk(c)).star, path[1..], f, g, mode);
        case Name(n) => FocusCongruence(Member(LastPart(EnsureObject(c)).members, n, mode), path[1..], f, g, mode);
        case Index(i) =>
          var l := Locate(c.parts, i);
          if l.Ok? { FocusCongruence(c.parts[l.value.0].elements[l.value.1], path[1..], f, g, mode); }
        case Append(h) =>
          var a := LastPart(EnsureArray(c));
          FocusCongruence(EMPTY, path[1..], f, g, mode);
          if a.elements != [] { FocusCongruence(a.elements[|a.elements| - 1], path[1..], f, g, mode); }
      }
    }
  }

  /** Following a path in two stages. */
  lemma {:induction false} FocusCompose(c: Concat, p: Key, q: Key, f: Step, mode: Mode)
    ensures Focus(c, p + q, f, mode) == Focus(c, p, x => Focus(x, q, f, mode), mode)
    decreases |p|
  {
    hide WithLast, EnsureObject, EnsureArray, EnsureAsterisk, Locate;
    if p == [] {
      assert p + q == q;
    } else {
      var t := p[1..];
      assert (p + q)[0] == p[0] && (p + q)[1..] == t + q;
      match p[0] {
        case Star => FocusCompose(LastPart(EnsureAsterisk(c)).star, t, q, f, mode);
        case Name(n) => FocusCompose(Member(LastPart(EnsureObject(c)).members, n, mode), t, q, f, mode);
        case Index(i) =>
          var l := Locate(c.parts, i);
          if l.Ok? { FocusCompose(c.parts[l.value.0].elements[l.value.1], t, q, f, mode); }
        case Append(h) =>
          var a := LastPart(EnsureArray(c));
          FocusCompose(EMPTY, t, q, f, mode);
          if a.elements != [] { FocusCompose(a.elements[|a.elements| - 1], t, q, f, mode); }
      }
    }
  }

  lemma {:induction false} LocateAgain(ps: seq<Entry>, n: nat, x: Concat)
    requires Locate(ps, n).Ok?
    ensures var (k, j) := Locate(ps, n).value;
      Locate(ps[k := Array(ps[k].call, ps[k].elements[j := x])], n) == Ok((k, j))
    decreases |ps|
  {
    var (k, j) := Locate(ps, n).value;
    var qs := ps[k := Array(ps[k].call, ps[k].elements[j := x])];
    if k > 0 {
      assert qs[1..] == ps[1..][k - 1 := Array(ps[k].call, ps[k].elements[j := x])];
      LocateAgain(ps[1..], n - |ps[0].elements|, x);
    }
  }

  /** Steps leave the `implicit` flag to the walk along the path. */
  ghost predicate KeepsImplicit(f: Step) {
    forall x :: f(x).Ok? ==> f(x).value.implicit == x.implicit
  }

  lemma FocusKeepsImplicit(c: Concat, path: Key, f: Step, mode: Mode)
    requires KeepsImplicit(f)
    ensures Focus(c, path, f, mode).Ok? ==> Focus(c, path, f, mode).value.implicit == c.implicit
  {
    hide FocusMember;
    assert f(c).Ok? ==> f(c).value.implicit == c.implicit;
  }

  ghost predicate TwiceIsOnce(c: Concat, p: Key, f: Step, g: Step, mode: Mode) {
    AndThen(Focus(c, p, f, Manifest), d => Focus(d, p, g, mode)) == Focus(c, p, x => AndThen(f(x), g), Manifest)
  }

  /**
   A path that a defining step has followed leads every later step to the same place: two steps
   one after the other through the root are both steps one after the other at that place.
   */
  lemma {:induction false} FocusTwice(c: Concat, p: Key, f: Step, g: Step, mode: Mode)
    requires KeepsImplicit(f)
    ensures TwiceIsOnce(c, p, f, g, mode)
    decreases |p|
  {
    hide TwiceIsOnce;
    if p == [] {
      NoPathTwice(c, f, g, mode);
    } else {
      var t := p[1..];
      match p[0] {
        case Star =>
          FocusTwice(LastPart(EnsureAsterisk(c)).star, t, f, g, mode);
          StarTwice(c, p, f, g, mode);
        case Name(n) =>
          FocusTwice(Member(LastPart(EnsureObject(c)).members, n, Manifest), t, f, g, mode);
          NameTwice(c, p, f, g, mode);
        case Index(i) =>
          var l := Locate(c.parts, i);
          if l.Ok? { FocusTwice(c.parts[l.value.0].elements[l.value.1], t, f, g, mode); }
          IndexTwice(c, p, f, g, mode);
        case Append(h) =>
          var a := LastPart(EnsureArray(c));
          FocusTwice(EMPTY, t, f, g, mode);
          if a.elements != [] { FocusTwice(a.elements[|a.elements| - 1], t, f, g, mode); }
          AppendTwice(c, p, f, g, mode);
      }
    }
  }

  lemma NoPathTwice(c: Concat, f: Step, g: Step, mode: Mode)
    ensures TwiceIsOnce(c, [], f, g, mode)
  {
    assert Focus(c, [], f, Manifest) == f(c);
  }

  lemma StarTwice(c: Concat, p: Key, f: Step, g: Step, mode: Mode)
    requires p != [] && p[0].Star?
    requires TwiceIsOnce(LastPart(EnsureAsterisk(c)).star, p[1..], f, g, mode)
    ensures TwiceIsOnce(c, p, f, g, mode)
  {
    var d, t := EnsureAsterisk(c), p[1..];
    var x := Focus(LastPart(d).star, t, f, Manifest);
    if x.Ok? {
      var e := WithLast(d, Asterisk(x.value));
      assert EnsureAsterisk(e) == e;
      var y := Focus(x.value, t, g, mode);
      if y.Ok? { assert WithLast(e, Asterisk(y.value)) == WithLast(d, Asterisk(y.value)); }
    }
  }

  lemma MemberTwice(m: Members, n: string, t: Key, f: Step, g: Step, mode: Mode)
    requires KeepsImplicit(f) && TwiceIsOnce(Member(m, n, Manifest), t, f, g, mode)
    ensures var r := FocusMember(m, n, t, f, Manifest);
      (if r.Ok? then FocusMember(r.value, n, t, g, mode) else r) == FocusMember(m, n, t, x => AndThen(f(x), g), Manifest)
  {
    hide Focus;
    var x := Member(m, n, Manifest);
    FocusKeepsImplicit(x, t, f, Manifest);
    var y := Focus(x, t, f, Manifest);
    if y.Ok? {
      assert Member(m[n := y.value], n, mode) == y.value;
      var z := Focus(y.value, t, g, mode);
      if z.Ok? { assert m[n := y.value][n := z.value] == m[n := z.value]; }
    }
  }

  lemma NameTwice(c: Concat, p: Key, f: Step, g: Step, mode: Mode)
    requires p != [] && p[0].Name? && KeepsImplicit(f)
    requires TwiceIsOnce(Member(LastPart(EnsureObject(c)).members, p[0].name, Manifest), p[1..], f, g, mode)
    ensures TwiceIsOnce(c, p, f, g, mode)
  {
    hide FocusMember, KeepsImplicit;
    var d, n, t := EnsureObject(c), p[0].name, p[1..];
    var m := LastPart(d).members;
    MemberTwice(m, n, t, f, g, mode);
    var r := FocusMember(m, n, t, f, Manifest);
    if r.Ok? {
      var e := WithLast(d, Object(r.value));
      assert EnsureObject(e) == e && LastPart(e).members == r.value;
      var q := FocusMember(r.value, n, t, g, mode);
      if q.Ok? { assert WithLast(e, Object(q.value)) == WithLast(d, Object(q.value)); }
    }
  }

  lemma IndexTwice(c: Concat, p: Key, f: Step, g: Step, mode: Mode)
    requires p != [] && p[0].Index?
    requires var l := Locate(c.parts, p[0].index);
      l.Ok? ==> TwiceIsOnce(c.parts[l.value.0].elements[l.value.1], p[1..], f, g, mode)
    ensures TwiceIsOnce(c, p, f, g, mode)
  {
    hide Locate;
    var l, t := Locate(c.parts, p[0].index), p[1..];
    if l.Ok? {
      var (k, j) := l.value;
      var a := c.parts[k];
      var x := Focus(a.elements[j], t, f, Manifest);
      if x.Ok? {
        LocateAgain(c.parts, p[0].index, x.value);
        var e := c.(parts := c.parts[k := Array(a.call, a.elements[j := x.value])]);
        var y := Focus(x.value, t, g, mode);
        if y.Ok? {
          assert a.elements[j := x.value][j := y.value] == a.elements[j := y.value];
          assert e.parts[k := Array(a.call, a.elements[j := y.value])] == c.parts[k := Array(a.call, a.elements[j := y.value])];
        }
      }
    }
  }

  lemma AppendTwice(c: Concat, p: Key, f: Step, g: Step, mode: Mode)
    requires p != [] && p[0].Append?
    requires TwiceIsOnce(EMPTY, p[1..], f, g, mode)
    requires var a := LastPart(EnsureArray(c));
      a.elements != [] ==> TwiceIsOnce(a.elements[|a.elements| - 1], p[1..], f, g, mode)
    ensures TwiceIsOnce(c, p, f, g, mode)
  {
    if p[0].generation > EnsureArray(c).generation {
      AppendNewTwice(c, p, f, g, mode);
    } else if LastPart(EnsureArray(c)).elements != [] {
      AppendOldTwice(c, p, f, g, mode);
    }
  }

  /** The two ways of stepping into the last array, as equations. */
  lemma AppendEquation(c: Concat, p: Key, f: Step, mode: Mode)
    requires p != [] && p[0].Append?
    ensures var d, h := EnsureArray(c), p[0].generation;
      var a := LastPart(d);
      && (h > d.generation ==>
            Focus(c, p, f, mode) == AndThen(Focus(EMPTY, p[1..], f, mode),
              x => Ok(WithLast(d.(generation := h), Array(a.call, a.elements + [x])))))
      && (h <= d.generation && a.elements != [] ==>
            Focus(c, p, f, mode) == AndThen(Focus(a.elements[|a.elements| - 1], p[1..], f, mode),
              x => Ok(WithLast(d, Array(a.call, a.elements[|a.elements| - 1 := x])))))
  {
    hide WithLast;
  }

  lemma AppendNewTwice(c: Concat, p: Key, f: Step, g: Step, mode: Mode)
    requires p != [] && p[0].Append? && p[0].generation > EnsureArray(c).generation
    requires TwiceIsOnce(EMPTY, p[1..], f, g, mode)
    ensures TwiceIsOnce(c, p, f, g, mode)
  {
    hide Focus;
    var d, h, t := EnsureArray(c), p[0].generation, p[1..];
    AppendEquation(c, p, f, Manifest);
    AppendEquation(c, p, x => AndThen(f(x), g), Manifest);
    var a := LastPart(d);
    var x := Focus(EMPTY, t, f, Manifest);
    if x.Ok? {
      var b, es := d.(generation := h), a.elements + [x.value];
      var e := WithLast(b, Array(a.call, es));
      assert EnsureArray(e) == e && LastPart(e) == Array(a.call, es) && es[|es| - 1] == x.value;
      AppendEquation(e, p, g, mode);
      var y := Focus(x.value, t, g, mode);
      if y.Ok? {
        assert es[|es| - 1 := y.value] == a.elements + [y.value];
        assert WithLast(e, Array(a.call, a.elements + [y.value])) == WithLast(b, Array(a.call, a.elements + [y.value]));
      }
    }
  }

  lemma AppendOldTwice(c: Concat, p: Key, f: Step, g: Step, mode: Mode)
    requires p != [] && p[0].Append? && p[0].generation <= EnsureArray(c).generation
    requires var a := LastPart(EnsureArray(c));
      a.elements != [] && TwiceIsOnce(a.elements[|a.elements| - 1], p[1..], f, g, mode)
    ensures TwiceIsOnce(c, p, f, g, mode)
  {
    hide Focus;
    var d, t := EnsureArray(c), p[1..];
    AppendEquation(c, p, f, Manifest);
    AppendEquation(c, p, x => AndThen(f(x), g), Manifest);
    var a := LastPart(d);
    var last := |a.elements| - 1;
    var x := Focus(a.elements[last], t, f, Manifest);
    if x.Ok? {
      var e := WithLast(d, Array(a.call, a.elements[last := x.value]));
      assert EnsureArray(e) == e;
      AppendEquation(e, p, g, mode);
      var y := Focus(x.value, t, g, mode);
      if y.Ok? {
        assert a.elements[last := x.value][last := y.value] == a.elements[last := y.value];
        assert WithLast(e, Array(a.call, a.elements[last := y.value])) == WithLast(d, Array(a.call, a.elements[last := y.value]));
      }
    }
  }

  // ---- The same laws from the root -----------------------------------------------------------

  lemma RootCongruence(m: Members, p: Key, f: Step, g: Step, mode: Mode)
    requires forall x :: f(x) == g(x)
    ensures FocusRoot(m, p, f, mode) == FocusRoot(m, p, g, mode)
  {
    hide Focus, Member;
    if p != [] && p[0].Name? { FocusCongruence(Member(m, p[0].name, mode), p[1..], f, g, mode); }
  }

  /** A step further down, after a defining step at `p`. */
  lemma RootTwice(m: Members, p: Key, q: Key, f: Step, g: Step, mode: Mode)
    requires KeepsImplicit(f) && p != [] && |p + q| <= NESTING_LIMIT
    ensures var r := FocusRoot(m, p, f, Manifest);
      (if r.Ok? then FocusRoot(r.value, p + q, g, mode) else r)
      == FocusRoot(m, p, x => AndThen(f(x), y => Focus(y, q, g, mode)), Manifest)
  {
    hide Focus, Member, TwiceIsOnce, AndThen, KeepsImplicit;
    if p[0].Name? {
      var n, t := p[0].name, p[1..];
      var h: Step := y => Focus(y, q, g, mode);
      FocusTwice(Member(m, n, Manifest), t, f, h, mode);
      MemberTwice(m, n, t, f, h, mode);
      FocusCongruence(Member(m, n, Manifest), t, x => AndThen(f(x), h), x => AndThen(f(x), y => Focus(y, q, g, mode)), Manifest);
      var r := FocusMember(m, n, t, f, Manifest);
      if r.Ok? {
        assert (p + q)[0] == p[0] && (p + q)[1..] == t + q;
        FocusCompose(Member(r.value, n, mode), t, q, g, mode);
        FocusCongruence(Member(r.value, n, mode), t, h, x => Focus(x, q, g, mode), mode);
      }
    }
  }
}
