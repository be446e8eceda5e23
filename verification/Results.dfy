/** What stands at which path of a result, read off the tree in which phase 2 has ended. */
module Results {
  import opened Tree
  import opened Phase3
  import opened Phase5

  /** Implicit, temporary and empty concats do not become part of the result. */
  predicate Kept(c: Concat) {
    !c.implicit && !c.temporary && |c.parts| > 0
  }

  /** How many of the first `n` elements are kept. */
  function Rank(es: seq<Concat>, n: nat): nat
    requires n <= |es|
  {
    if n == 0 then 0 else Rank(es, n - 1) + if Kept(es[n - 1]) then 1 else 0
  }

  // ---- Members and elements ------------------------------------------------------------------

  /** A name survives phase 3 exactly when its concat is kept. */
  lemma MembersKept(m: Members)
    ensures forall n :: n in StripMembers(m) <==> n in m && Kept(m[n])
    ensures forall n | n in StripMembers(m) :: StripMembers(m)[n] == Strip(m[n])
  {
    hide Strip;
  }

  /** The element `i` is kept and becomes the element `j`. */
  predicate KeptAt(es: seq<Concat>, i: int, j: nat) {
    0 <= i < |es| && Kept(es[i]) && Rank(es, i) == j
  }

  ghost predicate HasSource(es: seq<Concat>, j: nat) {
    exists i :: KeptAt(es, i, j)
  }

  /** The kept elements are left, in their order. */
  lemma {:induction false} ElementsKept(es: seq<Concat>)
    ensures |StripElements(es)| == Rank(es, |es|)
    ensures forall i | 0 <= i < |es| && Kept(es[i]) :: Rank(es, i) < Rank(es, |es|) && StripElements(es)[Rank(es, i)] == Strip(es[i])
    ensures forall j | 0 <= j < |StripElements(es)| :: HasSource(es, j)
    decreases |es|
  {
    hide Strip, StripElements, Kept;
    if es == [] {
      NothingStripped(es);
    } else {
      var init, c := es[..|es| - 1], es[|es| - 1];
      ElementsKept(init);
      OmitOrKeep(c);
      StripNext(es, |es| - 1);
      assert es[..|es|] == es;
      forall i | 0 <= i <= |init| ensures Rank(init, i) == Rank(es, i) { SameRank(init, es, i); }
      var s, t := StripElements(es), StripElements(init);
      forall i | 0 <= i < |es| && Kept(es[i]) ensures Rank(es, i) < Rank(es, |es|) && s[Rank(es, i)] == Strip(es[i]) {
        if i < |init| { assert init[i] == es[i] && t[Rank(init, i)] == Strip(init[i]); }
      }
      forall j | 0 <= j < |s| ensures HasSource(es, j) {
        if j < |t| {
          assert HasSource(init, j);
          var i :| KeptAt(init, i, j);
          assert KeptAt(es, i, j);
        } else {
          assert KeptAt(es, |init|, j);
        }
      }
    }
  }

  lemma OmitOrKeep(c: Concat)
    ensures Omit(c) <==> !Kept(c)
  {
  }

  lemma {:induction false} SameRank(es: seq<Concat>, fs: seq<Concat>, n: nat)
    requires es <= fs && n <= |es|
    ensures Rank(es, n) == Rank(fs, n)
    decreases n
  {
    if n > 0 { SameRank(es, fs, n - 1); }
  }

  /** Different kept elements get different indices. */
  lemma {:induction false} RankGrows(es: seq<Concat>, i: nat, j: nat)
    requires i < j <= |es| && Kept(es[i])
    ensures Rank(es, i) < Rank(es, j)
    decreases j
  {
    hide Kept;
    if i < j - 1 { RankGrows(es, i, j - 1); }
  }

  // ---- Paths ---------------------------------------------------------------------------------

  /** Along `p` every member and element exists and is kept. */
  predicate Survives(e: Entry, p: Key)
    decreases |p|
  {
    p == [] ||
    match p[0]
    case Name(n) => e.Object? && n in e.members && Kept(e.members[n]) && Survives(e.members[n].parts[0], p[1..])
    case Index(i) => e.Array? && i < |e.elements| && Kept(e.elements[i]) && Survives(e.elements[i].parts[0], p[1..])
    case _ => false
  }

  function Place(e: Entry, p: Key): Entry
    requires Survives(e, p)
    decreases |p|
  {
    if p == [] then e
    else match p[0]
      case Name(n) => Place(e.members[n].parts[0], p[1..])
      case Index(i) => Place(e.elements[i].parts[0], p[1..])
  }

  /** The path in the result, where only the kept elements are counted. */
  function Renumbered(e: Entry, p: Key): Key
    requires Survives(e, p)
    decreases |p|
  {
    if p == [] then []
    else match p[0]
      case Name(n) => [p[0]] + Renumbered(e.members[n].parts[0], p[1..])
      case Index(i) => [Index(Rank(e.elements, i))] + Renumbered(e.elements[i].parts[0], p[1..])
  }

  /** The value for an entry: the same atom, the kept elements, or the kept members. */
  ghost predicate Shows(v: Value, e: Entry) {
    match e
    case Null => v.VNull?
    case Boolean(b) => v.VBoolean? && (v.truth <==> b)
    case Text(s) => v.VString? && v.chars == s
    case Binary(b) => v.VBinary? && v.bytes == b
    case Signed(i) => v.VSigned? && v.i == i
    case Unsigned(u) => v.VUnsigned? && v.u == u
    case Double(d) => v.VDouble? && v.d == d
    case Array(_, es) => v.VArray? && |v.elements| == Rank(es, |es|)
    case Object(m) => v.VObject? && forall n :: n in v.members <==> n in m && Kept(m[n])
    case _ => false
  }

  /** `a` is what phases 3 and 5 make of `e` at the key `k`. */
  ghost predicate Repacked(k: Key, e: Entry, a: Annotated) {
    PlainEntry(StripEntry(e)) && a == RepackEntry(k, StripEntry(e))
  }

  lemma Top(k: Key, e: Entry, a: Annotated)
    requires Repacked(k, e, a)
    ensures a.key == k && Shows(a.value, e)
  {
    hide Repack, Strip, Kept;
    match e {
      case Array(_, es) => ElementsKept(es);
      case Object(m) =>
        ObjectStrip(m);
        MembersKept(m);
      case _ =>
    }
  }

  lemma MemberBelow(k: Key, e: Entry, a: Annotated, n: string)
    requires Repacked(k, e, a) && e.Object? && n in e.members && Kept(e.members[n])
    ensures a.value.VObject? && n in a.value.members
    ensures Repacked(k + [Name(n)], e.members[n].parts[0], a.value.members[n])
  {
    hide RepackEntry, PlainEntry, StripEntry;
    var m, c := e.members, e.members[n];
    ObjectStrip(m);
    MembersKept(m);
    OneStripped(c);
    ObjectRepacked(k, StripEntry(e), n);
  }

  lemma ObjectRepacked(k: Key, e: Entry, n: string)
    requires PlainEntry(e) && e.Object? && n in e.members
    ensures Plain(e.members[n]) && PlainEntry(e.members[n].parts[0])
    ensures var v := RepackEntry(k, e).value;
      v.VObject? && n in v.members && v.members[n] == RepackEntry(k + [Name(n)], e.members[n].parts[0])
  {
    PlainIsOne(k + [Name(n)], e.members[n]);
  }

  lemma ArrayRepacked(k: Key, e: Entry, i: nat)
    requires PlainEntry(e) && e.Array? && i < |e.elements|
    ensures Plain(e.elements[i]) && PlainEntry(e.elements[i].parts[0])
    ensures var v := RepackEntry(k, e).value;
      v.VArray? && i < |v.elements| && v.elements[i] == RepackEntry(k + [Index(i)], e.elements[i].parts[0])
  {
    PlainIsOne(k + [Index(i)], e.elements[i]);
  }

  lemma OneStripped(c: Concat)
    requires c.parts != []
    ensures |Strip(c).parts| == |c.parts| && Strip(c).parts[0] == StripEntry(c.parts[0])
  {
    hide StripEntry;
  }

  lemma ElementBelow(k: Key, e: Entry, a: Annotated, i: nat)
    requires Repacked(k, e, a) && e.Array? && i < |e.elements| && Kept(e.elements[i])
    ensures var j := Rank(e.elements, i);
      && a.value.VArray? && j < |a.value.elements|
      && Repacked(k + [Index(j)], e.elements[i].parts[0], a.value.elements[j])
  {
    hide RepackEntry, PlainEntry, Strip;
    var es, c := e.elements, e.elements[i];
    ElementsKept(es);
    assert StripEntry(e).elements == StripElements(es);
    OneStripped(c);
    ArrayRepacked(k, StripEntry(e), Rank(es, i));
  }

  /** What survives is found under its new path, with its content and its key. */
  lemma {:induction false} SurvivorsAreFound(k: Key, e: Entry, a: Annotated, p: Key)
    requires Repacked(k, e, a) && Survives(e, p)
    ensures var q := Renumbered(e, p);
      var x := AccessValue(a, q);
      x.Ok? && x.value.key == k + q && Shows(x.value.value, Place(e, p))
    decreases |p|
  {
    hide Repacked, Shows, Rank, AccessValue;
    if p == [] {
      Top(k, e, a);
      NoStep(a);
      assert k + [] == k;
    } else {
      var q := Renumbered(e, p);
      match p[0] {
        case Name(n) =>
          MemberBelow(k, e, a, n);
          OneStep(a, q);
          SurvivorsAreFound(k + [Name(n)], e.members[n].parts[0], a.value.members[n], p[1..]);
        case Index(i) =>
          ElementBelow(k, e, a, i);
          OneStep(a, q);
          SurvivorsAreFound(k + [q[0]], e.elements[i].parts[0], a.value.elements[Rank(e.elements, i)], p[1..]);
      }
      assert k + q == k + [q[0]] + q[1..];
    }
  }

  lemma NoStep(a: Annotated)
    ensures AccessValue(a, []) == Ok(a)
  {
  }

  lemma OneStep(a: Annotated, q: Key)
    requires q != []
    ensures q[0].Name? && a.value.VObject? && q[0].name in a.value.members ==>
      AccessValue(a, q) == AccessValue(a.value.members[q[0].name], q[1..])
    ensures q[0].Index? && a.value.VArray? && q[0].index < |a.value.elements| ==>
      AccessValue(a, q) == AccessValue(a.value.elements[q[0].index], q[1..])
  {
  }

  /** Nothing else is found. */
  lemma {:induction false} OnlySurvivorsAreFound(k: Key, e: Entry, a: Annotated, q: Key) returns (p: Key)
    requires Repacked(k, e, a) && AccessValue(a, q).Ok?
    ensures Survives(e, p) && Renumbered(e, p) == q
    decreases |q|
  {
    hide Repacked, Rank;
    if q == [] {
      p := [];
    } else {
      Top(k, e, a);
      match q[0] {
        case Name(n) =>
          KeptAsMember(e, a.value, n);
          MemberBelow(k, e, a, n);
          var t := OnlySurvivorsAreFound(k + [Name(n)], e.members[n].parts[0], a.value.members[n], q[1..]);
          p := [Name(n)] + t;
          assert p[1..] == t;
        case Index(j) =>
          var i := KeptAsElement(e, a.value, j);
          ElementBelow(k, e, a, i);
          var t := OnlySurvivorsAreFound(k + [Index(j)], e.elements[i].parts[0], a.value.elements[j], q[1..]);
          p := [Index(i)] + t;
          assert p[1..] == t;
      }
    }
  }

  lemma KeptAsMember(e: Entry, v: Value, n: string)
    requires Shows(v, e) && v.VObject? && n in v.members
    ensures e.Object? && n in e.members && Kept(e.members[n])
  {
  }

  lemma KeptAsElement(e: Entry, v: Value, j: nat) returns (i: nat)
    requires Shows(v, e) && v.VArray? && j < |v.elements|
    ensures e.Array? && i < |e.elements| && Kept(e.elements[i]) && Rank(e.elements, i) == j
  {
    hide Kept;
    assert e.Array?;
    ElementsKept(e.elements);
    assert HasSource(e.elements, j);
    var x :| KeptAt(e.elements, x, j);
    i := x;
  }

  /** No two places of the tree share a path of the result. */
  lemma {:induction false} PathsStayApart(e: Entry, p: Key, q: Key)
    requires Survives(e, p) && Survives(e, q) && Renumbered(e, p) == Renumbered(e, q)
    ensures p == q
    decreases |p|
  {
    hide Rank;
    if p != [] {
      var x, y := Renumbered(e, p), Renumbered(e, q);
      assert x[0] == y[0];
      match p[0] {
        case Name(n) =>
          assert q[0] == p[0];
          assert x[1..] == Renumbered(e.members[n].parts[0], p[1..]) && y[1..] == Renumbered(e.members[n].parts[0], q[1..]);
          PathsStayApart(e.members[n].parts[0], p[1..], q[1..]);
        case Index(i) =>
          var j := q[0].index;
          if i < j { RankGrows(e.elements, i, j); }
          if j < i { RankGrows(e.elements, j, i); }
          assert x[1..] == Renumbered(e.elements[i].parts[0], p[1..]) && y[1..] == Renumbered(e.elements[i].parts[0], q[1..]);
          PathsStayApart(e.elements[i].parts[0], p[1..], q[1..]);
      }
      assert p == [p[0]] + p[1..] && q == [q[0]] + q[1..];
    }
  }

  /** The result `a` shows exactly what survives in the tree `m`, under the new paths. */
  ghost predicate Reports(m: Members, a: Annotated) {
    && (forall q :: AccessValue(a, q).Ok? ==> exists p :: Survives(Object(m), p) && Renumbered(Object(m), p) == q)
    && (forall p | Survives(Object(m), p) ::
          var x := AccessValue(a, Renumbered(Object(m), p));
          x.Ok? && x.value.key == Renumbered(Object(m), p) && Shows(x.value.value, Place(Object(m), p)))
  }

  lemma ResultReports(m: Members)
    requires PlainEntry(StripEntry(Object(m)))
    ensures Reports(m, RepackEntry([], StripEntry(Object(m))))
  {
    hide PlainEntry, StripEntry, RepackEntry, Survives, Shows, Renumbered, Place, AccessValue;
    var e, a := Object(m), RepackEntry([], StripEntry(Object(m)));
    forall q | AccessValue(a, q).Ok? ensures exists p :: Survives(e, p) && Renumbered(e, p) == q {
      var p := OnlySurvivorsAreFound([], e, a, q);
    }
    forall p | Survives(e, p)
      ensures var x := AccessValue(a, Renumbered(e, p));
        x.Ok? && x.value.key == Renumbered(e, p) && Shows(x.value.value, Place(e, p))
    {
      SurvivorsAreFound([], e, a, p);
      assert [] + Renumbered(e, p) == Renumbered(e, p);
    }
  }

  // ---- Access to a result --------------------------------------------------------------------

  /** Access goes part by part; the first part that leads nowhere decides on the error. */
  lemma {:induction false} AccessStepByStep(a: Annotated, q: Key, h: KeyPart, t: Key)
    requires AccessValue(a, q).Ok?
    ensures var x := AccessValue(a, q).value;
      AccessValue(a, q + [h] + t) ==
      if h.Name? then
        if !x.value.VObject? then Err(CannotAccessName)
        else if h.name !in x.value.members then Err(NameNotFound)
        else AccessValue(x.value.members[h.name], t)
      else if h.Index? then
        if !x.value.VArray? then Err(CannotIndex)
        else if h.index >= |x.value.elements| then Err(OutOfRange)
        else AccessValue(x.value.elements[h.index], t)
      else Err(AssertionFailed)
    decreases |q|
  {
    var k := q + [h] + t;
    if q == [] {
      assert k == [h] + t && k[1..] == t;
    } else {
      assert k[0] == q[0] && k[1..] == q[1..] + [h] + t;
      if q[0].Name? {
        AccessStepByStep(a.value.members[q[0].name], q[1..], h, t);
      } else {
        AccessStepByStep(a.value.elements[q[0].index], q[1..], h, t);
      }
    }
  }
}
