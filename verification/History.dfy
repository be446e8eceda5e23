/** An assignment forgets everything that was written to its path before. */
module History {
  import opened Tree
  import opened Additions
  import opened Algebra
  import opened NormalForm
  import opened Parser
  import opened Phase1
  import opened ParserLaws
  import opened Merging
  import opened Forming

  type Path = seq<string>

  /** All objects among the summands, merged; whatever stands between them is passed over. */
  function AllMembers(ps: seq<Entry>): Members {
    if ps == [] then map[]
    else if ps[0].Object? then Merge(ps[0].members, AllMembers(ps[1..]))
    else AllMembers(ps[1..])
  }

  datatype Sight = Nothing | Seen(concat: Concat)

  /** What a tree holds under a path when the summands of every ancestor are taken together. */
  function Effective(m: Members, p: Path): Sight
    requires p != []
    decreases |p|
  {
    if p[0] !in m then Nothing
    else if |p| == 1 then Seen(m[p[0]])
    else Effective(AllMembers(m[p[0]].parts), p[1..])
  }

  /** Something on the path replaces what comes from the left in a merge. */
  predicate Cleared(m: Members, p: Path)
    requires p != []
    decreases |p|
  {
    p[0] in m && (m[p[0]].remove || (|p| > 1 && Cleared(AllMembers(m[p[0]].parts), p[1..])))
  }

  lemma {:induction false} AllOfBoth(ps: seq<Entry>, qs: seq<Entry>)
    ensures AllMembers(ps + qs) == Merge(AllMembers(ps), AllMembers(qs))
    decreases |ps|
  {
    hide Merge;
    if ps == [] {
      assert ps + qs == qs;
      MergeUnit(AllMembers(qs));
    } else {
      assert (ps + qs)[0] == ps[0] && (ps + qs)[1..] == ps[1..] + qs;
      AllOfBoth(ps[1..], qs);
      if ps[0].Object? { MergeAssociative(ps[0].members, AllMembers(ps[1..]), AllMembers(qs)); }
    }
  }

  lemma AllOfOne(e: Entry)
    ensures AllMembers([e]) == if e.Object? then e.members else map[]
  {
    assert [e][1..] == [];
    if e.Object? { MergeUnit(e.members); }
  }

  lemma {:induction false} ClearedRight(l: Members, r: Members, p: Path)
    requires p != [] && Cleared(r, p)
    ensures Cleared(Merge(l, r), p)
    decreases |p|
  {
    hide AllMembers;
    var n := p[0];
    if n in l && !r[n].remove {
      AllOfBoth(l[n].parts, r[n].parts);
      ClearedRight(AllMembers(l[n].parts), AllMembers(r[n].parts), p[1..]);
    }
  }

  /** Where the right side of a merge replaces, the left side does not show. */
  lemma {:induction false} MergeForgets(l: Members, r: Members, p: Path)
    requires p != [] && Cleared(r, p)
    ensures Effective(Merge(l, r), p) == Effective(r, p)
    decreases |p|
  {
    hide AllMembers;
    var n := p[0];
    if n in l && !r[n].remove {
      AllOfBoth(l[n].parts, r[n].parts);
      MergeForgets(AllMembers(l[n].parts), AllMembers(r[n].parts), p[1..]);
    }
  }

  lemma {:induction false} ClearedStays(l: Members, r: Members, p: Path)
    requires p != [] && Cleared(l, p)
    ensures Cleared(Merge(l, r), p)
    decreases |p|
  {
    hide AllMembers;
    var n := p[0];
    if n in r && !r[n].remove && !l[n].remove {
      AllOfBoth(l[n].parts, r[n].parts);
      ClearedStays(AllMembers(l[n].parts), AllMembers(r[n].parts), p[1..]);
    }
  }

  // ---- What additions cannot change ----------------------------------------------------------

  ghost predicate SameSight(a: Sight, b: Sight) {
    if a.Nothing? || b.Nothing? then a == b else Normal(a.concat) == Normal(b.concat)
  }

  lemma {:induction false} AllOfCollapsed(ps: seq<Entry>)
    ensures AllMembers(Collapse(ps)) == AllMembers(ps)
    decreases |ps|
  {
    hide AllMembers, Merge, Joinable;
    if ps != [] {
      var init, e := ps[..|ps| - 1], ps[|ps| - 1];
      var c := Collapse(init);
      AllOfCollapsed(init);
      assert ps == init + [e];
      AllOfBoth(init, [e]);
      AllOfBoth(c, [e]);
      if c != [] && Joinable(c[|c| - 1], e) { AllOfJoined(c, e); }
    }
  }

  lemma AllOfJoined(c: seq<Entry>, e: Entry)
    requires c != [] && Joinable(c[|c| - 1], e)
    ensures AllMembers(Push(c, e)) == AllMembers(c + [e])
  {
    hide AllMembers, Merge, Join, Joinable, Push;
    var d, l := c[..|c| - 1], c[|c| - 1];
    assert c == d + [l];
    PushJoins(c, e);
    JoinedKind(l, e);
    AllOfBoth(c, [e]);
    AllOfBoth(d, [l]);
    AllOfBoth(d, [Join(l, e)]);
    AllOfOne(l);
    AllOfOne(e);
    AllOfOne(Join(l, e));
    if l.Object? {
      MergeAssociative(AllMembers(d), l.members, e.members);
    } else {
      MergeUnit(AllMembers(d));
    }
  }

  lemma JoinedKind(a: Entry, b: Entry)
    requires Joinable(a, b)
    ensures a.Object? == b.Object? == Join(a, b).Object?
    ensures a.Object? ==> Join(a, b) == Object(Merge(a.members, b.members))
  {
    JoinClass(a, b);
  }

  ghost predicate SameMembers(a: Members, b: Members) {
    NormalEntry(Object(a)) == NormalEntry(Object(b))
  }

  lemma {:induction false} AllOfAlike(ps: seq<Entry>, qs: seq<Entry>)
    requires Alike(ps, qs)
    ensures SameMembers(AllMembers(ps), AllMembers(qs))
    decreases |ps|
  {
    hide NormalEntry, Merge;
    if ps != [] {
      var e, f := ps[0], qs[0];
      assert NormalEntry(e) == NormalEntry(f);
      SameKind(e, f);
      assert forall i | 0 <= i < |ps[1..]| :: ps[1..][i] == ps[i + 1] && qs[1..][i] == qs[i + 1];
      AllOfAlike(ps[1..], qs[1..]);
      if e.Object? {
        JoinedObjects(e.members, AllMembers(ps[1..]));
        JoinedObjects(f.members, AllMembers(qs[1..]));
        JoinCongruence(e, Object(AllMembers(ps[1..])), f, Object(AllMembers(qs[1..])));
      }
    }
  }

  /** Trees with the same normal form show the same under every path. */
  lemma {:induction false} SightIsNormal(a: Members, b: Members, p: Path)
    requires p != [] && SameMembers(a, b)
    ensures SameSight(Effective(a, p), Effective(b, p))
    decreases |p|
  {
    hide NormalEntry, Normal, NormalParts, AllMembers, Alike, Collapse;
    ObjectNormal(a, b);
    var n := p[0];
    if n in a && |p| > 1 {
      var ps, qs := a[n].parts, b[n].parts;
      SameParts(a[n], b[n]);
      AlikeIsNormal(ps, qs);
      AllOfCollapsed(ps);
      AllOfCollapsed(qs);
      AllOfAlike(Collapse(ps), Collapse(qs));
      SightIsNormal(AllMembers(ps), AllMembers(qs), p[1..]);
    }
  }

  lemma SameParts(c: Concat, d: Concat)
    requires Normal(c) == Normal(d)
    ensures NormalParts(c.parts) == NormalParts(d.parts)
  {
    assert Normal(c).parts == NormalParts(c.parts) && Normal(d).parts == NormalParts(d.parts);
  }

  // ---- Trees that agree at a path ------------------------------------------------------------

  /**
   `c` and `d` agree at the path `q` below them: they are equal and replace what comes before, or
   some summands from the end on, of which the first is an object, agree at `q`.
   */
  ghost predicate Agree(c: Concat, d: Concat, q: Path)
    decreases |q|, 1
  {
    || (c == d && c.remove && !c.implicit)
    || (q != [] && Loyal(c, d) && exists k: nat :: AgreeFrom(c, d, q, k))
  }

  /** The last `k` summands are equal, and the ones before them are objects that agree. */
  ghost predicate AgreeFrom(c: Concat, d: Concat, q: Path, k: nat)
    requires q != []
    decreases |q|, 0, 1
  {
    && k < |c.parts| && k < |d.parts|
    && c.parts[|c.parts| - k..] == d.parts[|d.parts| - k..]
    && c.parts[|c.parts| - 1 - k].Object? && d.parts[|d.parts| - 1 - k].Object?
    && AgreeIn(c.parts[|c.parts| - 1 - k].members, d.parts[|d.parts| - 1 - k].members, q)
  }

  ghost predicate AgreeIn(m: Members, o: Members, q: Path)
    requires q != []
    decreases |q|, 0, 0
  {
    q[0] in m && q[0] in o && Agree(m[q[0]], o[q[0]], q[1..])
  }

  lemma AgreeMember(m: Members, o: Members, q: Path, n: string, c: Concat, d: Concat)
    requires q != [] && AgreeIn(m, o, q)
    requires n == q[0] ==> Agree(c, d, q[1..])
    ensures AgreeIn(m[n := c], o[n := d], q)
  {
  }

  /** Both end with the same summand, which is not what they agree in. */
  ghost predicate Shared(c: Concat, d: Concat, q: Path) {
    && c.parts != [] && d.parts != []
    && ((c == d && c.remove && !c.implicit) || (q != [] && Loyal(c, d) && exists k: nat :: k > 0 && AgreeFrom(c, d, q, k)))
  }

  /** Both end with the objects that they agree in. */
  ghost predicate Apart(c: Concat, d: Concat, q: Path) {
    q != [] && Loyal(c, d) && AgreeFrom(c, d, q, 0)
  }

  ghost predicate Loyal(c: Concat, d: Concat) {
    !c.implicit && !d.implicit && c.temporary == d.temporary && c.generation == d.generation
  }

  ghost predicate Equal(c: Concat, d: Concat) {
    c == d && c.remove && !c.implicit
  }

  lemma AgreeingSummands(c: Concat, d: Concat, q: Path) returns (k: nat)
    requires Agree(c, d, q) && !Equal(c, d)
    ensures q != [] && Loyal(c, d) && AgreeFrom(c, d, q, k)
  {
    hide AgreeFrom;
    k :| AgreeFrom(c, d, q, k);
  }

  lemma SharedSummands(c: Concat, d: Concat, q: Path) returns (k: nat)
    requires Shared(c, d, q) && !Equal(c, d)
    ensures q != [] && Loyal(c, d) && k > 0 && AgreeFrom(c, d, q, k)
  {
    hide AgreeFrom;
    k :| k > 0 && AgreeFrom(c, d, q, k);
  }

  lemma SharedFrom(c: Concat, d: Concat, q: Path, k: nat)
    requires q != [] && Loyal(c, d) && k > 0 && AgreeFrom(c, d, q, k)
    ensures Shared(c, d, q)
  {
    hide AgreeIn;
  }

  lemma Kinds(c: Concat, d: Concat, q: Path)
    ensures Agree(c, d, q) && (c == d ==> c.parts != []) ==> Shared(c, d, q) || Apart(c, d, q)
    ensures Shared(c, d, q) || Apart(c, d, q) ==> Agree(c, d, q)
    ensures Agree(c, d, q) ==> !c.implicit && !d.implicit && (c.parts == [] <==> d.parts == []) && (c != d ==> c.parts != [])
  {
    if Agree(c, d, q) && !Equal(c, d) {
      var k := AgreeingSummands(c, d, q);
      SummandsThere(c, d, q, k);
      if k > 0 { SharedFrom(c, d, q, k); }
    }
    hide AgreeFrom;
  }

  lemma SummandsThere(c: Concat, d: Concat, q: Path, k: nat)
    requires q != [] && AgreeFrom(c, d, q, k)
    ensures c.parts != [] && d.parts != []
  {
    hide AgreeIn;
  }

  lemma TailReplaced(ps: seq<Entry>, k: nat, e: Entry)
    requires 0 < k <= |ps|
    ensures ps[|ps| - k..][k - 1] == ps[|ps| - 1]
    ensures ps[|ps| - 1 := e][|ps| - k..] == ps[|ps| - k..][k - 1 := e]
  {
  }

  lemma SharedEnd(c: Concat, d: Concat, q: Path, e: Entry)
    requires Shared(c, d, q)
    ensures c.parts != [] && d.parts != [] && LastPart(c) == LastPart(d) && Shared(WithLast(c, e), WithLast(d, e), q)
  {
    hide Shared;
    SharedParts(c, d, q);
    if Equal(c, d) {
      EqualIsShared(WithLast(c, e), WithLast(d, e), q);
    } else {
      var k := SharedSummands(c, d, q);
      TailSame(c, d, q, k, e);
      SharedFrom(WithLast(c, e), WithLast(d, e), q, k);
    }
  }

  lemma SharedParts(c: Concat, d: Concat, q: Path)
    requires Shared(c, d, q)
    ensures c.parts != [] && d.parts != []
  {
    hide AgreeFrom;
  }

  lemma EqualIsShared(c: Concat, d: Concat, q: Path)
    requires Equal(c, d) && c.parts != []
    ensures Shared(c, d, q)
  {
    hide AgreeFrom;
  }

  lemma TailSame(c: Concat, d: Concat, q: Path, k: nat, e: Entry)
    requires q != [] && k > 0 && AgreeFrom(c, d, q, k)
    ensures c.parts != [] && d.parts != [] && LastPart(c) == LastPart(d) && AgreeFrom(WithLast(c, e), WithLast(d, e), q, k)
  {
    hide AgreeIn;
    TailReplaced(c.parts, k, e);
    TailReplaced(d.parts, k, e);
  }

  lemma ApartEnd(c: Concat, d: Concat, q: Path, m: Members, o: Members)
    requires Apart(c, d, q)
    ensures q != [] && c.parts != [] && d.parts != [] && LastPart(c).Object? && LastPart(d).Object?
    ensures AgreeIn(LastPart(c).members, LastPart(d).members, q)
    ensures AgreeIn(m, o, q) ==> Apart(WithLast(c, Object(m)), WithLast(d, Object(o)), q)
  {
    hide AgreeIn;
  }

  lemma EnsuredAgree(c: Concat, d: Concat, q: Path)
    requires Agree(c, d, q)
    ensures Shared(EnsureObject(c), EnsureObject(d), q) || Apart(EnsureObject(c), EnsureObject(d), q)
    ensures Shared(EnsureArray(c), EnsureArray(d), q) && Shared(EnsureAsterisk(c), EnsureAsterisk(d), q)
  {
    hide AgreeIn, Agree, AgreeFrom;
    AppendShared(c, d, q, Array("", []));
    AppendShared(c, d, q, Object(map[]));
    AppendShared(c, d, q, Asterisk(EMPTY));
    Kinds(c, d, q);
    if c.parts != [] {
      if Apart(c, d, q) { ApartEnd(c, d, q, map[], map[]); } else { SharedEnd(c, d, q, Null); }
    }
  }

  lemma AppendShared(c: Concat, d: Concat, q: Path, e: Entry)
    requires Agree(c, d, q)
    ensures Shared(c.(parts := c.parts + [e]), d.(parts := d.parts + [e]), q)
  {
    hide Shared, AgreeIn, AgreeFrom;
    var x, y := c.(parts := c.parts + [e]), d.(parts := d.parts + [e]);
    if Equal(c, d) {
      EqualIsShared(x, y, q);
    } else {
      var k := AgreeingSummands(c, d, q);
      FromAppended(c, d, q, k, e);
      SharedFrom(x, y, q, k + 1);
    }
  }

  lemma FromAppended(c: Concat, d: Concat, q: Path, k: nat, e: Entry)
    requires q != [] && AgreeFrom(c, d, q, k)
    ensures AgreeFrom(c.(parts := c.parts + [e]), d.(parts := d.parts + [e]), q, k + 1)
  {
    hide AgreeIn;
    TailAppended(c.parts, k, e);
    TailAppended(d.parts, k, e);
  }

  lemma TailAppended(ps: seq<Entry>, k: nat, e: Entry)
    requires k < |ps|
    ensures (ps + [e])[|ps| - k..] == ps[|ps| - k..] + [e]
    ensures (ps + [e])[|ps| - k - 1] == ps[|ps| - k - 1]
  {
  }

  // ---- Every step keeps the agreement --------------------------------------------------------

  /** A step that keeps every agreement. */
  ghost predicate Harmless(f: Step) {
    forall x, y, q :: Agree(x, y, q) && f(x).Ok? && f(y).Ok? ==> Agree(f(x).value, f(y).value, q)
  }

  lemma HarmlessAt(f: Step, c: Concat, d: Concat, q: Path)
    requires Harmless(f) && Agree(c, d, q) && f(c).Ok? && f(d).Ok?
    ensures Agree(f(c).value, f(d).value, q)
  {
  }

  lemma ByAgreeing(f: Step)
    requires forall x, y, q :: Agree(x, y, q) && f(x).Ok? && f(y).Ok? ==> Agree(f(x).value, f(y).value, q)
    ensures Harmless(f)
  {
  }

  lemma FlagsAreHarmless(flag: bool)
    ensures Harmless(DoAssign) && Harmless(DoTemporary(flag))
  {
    hide Agree;
    forall x, y, q | Agree(x, y, q) ensures Agree(DoAssign(x).value, DoAssign(y).value, q) { AssignIsHarmless(x, y, q); }
    forall x, y, q | Agree(x, y, q) ensures Agree(DoTemporary(flag)(x).value, DoTemporary(flag)(y).value, q) { FlagIsHarmless(x, y, q, flag); }
    ByAgreeing(DoAssign);
    ByAgreeing(DoTemporary(flag));
  }

  lemma AssignIsHarmless(x: Concat, y: Concat, q: Path)
    requires Agree(x, y, q)
    ensures Agree(DoAssign(x).value, DoAssign(y).value, q)
  {
    hide AgreeFrom;
  }

  lemma FlagIsHarmless(x: Concat, y: Concat, q: Path, flag: bool)
    requires Agree(x, y, q)
    ensures Agree(DoTemporary(flag)(x).value, DoTemporary(flag)(y).value, q)
  {
    hide AgreeIn;
    var a, b := DoTemporary(flag)(x).value, DoTemporary(flag)(y).value;
    if !Equal(x, y) {
      var k := AgreeingSummands(x, y, q);
      assert AgreeFrom(a, b, q, k);
    }
  }

  /** Walking along a written path. */
  lemma {:induction false} FocusAgrees(c: Concat, d: Concat, q: Path, path: Key, f: Step, mode: Mode)
    requires Written(path) && Agree(c, d, q) && Harmless(f)
    requires Focus(c, path, f, mode).Ok? && Focus(d, path, f, mode).Ok?
    ensures Agree(Focus(c, path, f, mode).value, Focus(d, path, f, mode).value, q)
    decreases |path|
  {
    hide Agree, AgreeIn, Shared, Apart, Harmless, EnsureObject, EnsureAsterisk, Locate;
    if path == [] {
      HarmlessAt(f, c, d, q);
    } else {
      var t := path[1..];
      EnsuredAgree(c, d, q);
      match path[0] {
        case Star =>
          var x, y := EnsureAsterisk(c), EnsureAsterisk(d);
          SharedEnd(x, y, q, Null);
          var e := Asterisk(Focus(LastPart(x).star, t, f, mode).value);
          SharedEnd(x, y, q, e);
          Kinds(WithLast(x, e), WithLast(y, e), q);
        case Name(n) =>
          var x, y := EnsureObject(c), EnsureObject(d);
          var m, o := LastPart(x).members, LastPart(y).members;
          var a, b := Focus(Member(m, n, mode), t, f, mode).value, Focus(Member(o, n, mode), t, f, mode).value;
          if Apart(x, y, q) {
            ApartEnd(x, y, q, m[n := a], o[n := b]);
            if n == q[0] {
              MembersAgree(m, o, q, mode);
              FocusAgrees(Member(m, n, mode), Member(o, n, mode), q[1..], t, f, mode);
            }
            AgreeMember(m, o, q, n, a, b);
            Kinds(WithLast(x, Object(m[n := a])), WithLast(y, Object(o[n := b])), q);
          } else {
            SharedEnd(x, y, q, Null);
            SharedEnd(x, y, q, Object(m[n := a]));
            Kinds(WithLast(x, Object(m[n := a])), WithLast(y, Object(m[n := a])), q);
          }
        case Index(i) => IndexAgrees(c, d, q, path, f, mode);
      }
    }
  }

  /** The member itself is not touched by the walk. */
  lemma MembersAgree(m: Members, o: Members, q: Path, mode: Mode)
    requires q != [] && AgreeIn(m, o, q)
    ensures Agree(Member(m, q[0], mode), Member(o, q[0], mode), q[1..])
  {
    hide Agree;
    var c, d := m[q[0]], o[q[0]];
    Kinds(c, d, q[1..]);
    assert Member(m, q[0], mode) == c && Member(o, q[0], mode) == d;
  }

  /** An index counts across arrays only, so it ends before the objects that agree. */
  lemma {:induction false} LocateBefore(ps: seq<Entry>, n: nat, k: nat)
    requires k < |ps| && ps[k].Object? && Locate(ps, n).Ok?
    ensures Locate(ps, n).value.0 < k
    decreases |ps|
  {
    if k > 0 && n >= |ps[0].elements| { LocateBefore(ps[1..], n - |ps[0].elements|, k - 1); }
  }

  lemma IndexAgrees(c: Concat, d: Concat, q: Path, path: Key, f: Step, mode: Mode)
    requires path != [] && path[0].Index? && Agree(c, d, q)
    requires Focus(c, path, f, mode).Ok? && Focus(d, path, f, mode).Ok?
    ensures Agree(Focus(c, path, f, mode).value, Focus(d, path, f, mode).value, q)
  {
    hide AgreeIn, AgreeFrom, Locate, Focus;
    var x, y := Focus(c, path, f, mode).value, Focus(d, path, f, mode).value;
    if Equal(c, d) {
      IndexedIn(c, 0, path, f, mode);
    } else {
      var k := AgreeingSummands(c, d, q);
      FrontReplaced(c, d, q, k, path, f, mode);
      assert Agree(x, y, q);
    }
  }

  /** What an index step leaves alone: the flags, and the summands from an object on. */
  lemma IndexedIn(c: Concat, k: nat, path: Key, f: Step, mode: Mode)
    requires path != [] && path[0].Index? && Focus(c, path, f, mode).Ok?
    ensures var x := Focus(c, path, f, mode).value;
      && x == c.(parts := x.parts) && |x.parts| == |c.parts|
      && (k < |c.parts| && c.parts[k].Object? ==> x.parts[k..] == c.parts[k..])
  {
    hide Locate;
    if k < |c.parts| && c.parts[k].Object? { LocateBefore(c.parts, path[0].index, k); }
  }

  lemma FrontReplaced(c: Concat, d: Concat, q: Path, k: nat, path: Key, f: Step, mode: Mode)
    requires path != [] && path[0].Index? && q != [] && Loyal(c, d) && AgreeFrom(c, d, q, k)
    requires Focus(c, path, f, mode).Ok? && Focus(d, path, f, mode).Ok?
    ensures var x, y := Focus(c, path, f, mode).value, Focus(d, path, f, mode).value;
      Loyal(x, y) && AgreeFrom(x, y, q, k)
  {
    hide AgreeIn, Focus;
    var x, y := Focus(c, path, f, mode).value, Focus(d, path, f, mode).value;
    var i, j := |c.parts| - 1 - k, |d.parts| - 1 - k;
    IndexedIn(c, i, path, f, mode);
    IndexedIn(d, j, path, f, mode);
    assert x.parts[i] == x.parts[i..][0] && y.parts[j] == y.parts[j..][0];
    assert x.parts[i + 1..] == x.parts[i..][1..] && c.parts[i + 1..] == c.parts[i..][1..];
    assert y.parts[j + 1..] == y.parts[j..][1..] && d.parts[j + 1..] == d.parts[j..][1..];
  }

  lemma {:induction false} PartAgrees(c: Concat, d: Concat, q: Path, v: ValuePart)
    requires Proper(v) && Agree(c, d, q) && FormPart(c, v).Ok? && FormPart(d, v).Ok?
    ensures Agree(FormPart(c, v).value, FormPart(d, v).value, q)
    decreases v, 0
  {
    hide Agree, AgreeIn, Shared, Apart, FormElements, FormMembers, EnsureArray, EnsureObject;
    EnsuredAgree(c, d, q);
    match v {
      case AtomPart(e) => AppendedAgree(c, d, q, e);
      case ReferencePart(r) => AppendedAgree(c, d, q, Reference(r));
      case ArrayPart(es) =>
        var x, y := EnsureArray(c), EnsureArray(d);
        SharedEnd(x, y, q, Null);
        EndTwice(x, Null, Null);
        EndTwice(y, Null, Null);
        ExtendedAgree(x, y, q, LastPart(x).call, FormElements(es));
      case FunctionPart(n, es) =>
        var x, y := EnsureArray(c), EnsureArray(d);
        SharedEnd(x, y, q, Null);
        ExtendedAgree(x, y, q, n, FormElements(es));
      case ObjectPart(ms) =>
        Kinds(EnsureObject(c), EnsureObject(d), q);
        MembersKeepAgreement(EnsureObject(c), EnsureObject(d), q, ms);
    }
  }

  lemma AppendedAgree(c: Concat, d: Concat, q: Path, e: Entry)
    requires Agree(c, d, q)
    ensures Agree(c.(parts := c.parts + [e]), d.(parts := d.parts + [e]), q)
  {
    hide Agree, Shared, Apart;
    AppendShared(c, d, q, e);
    Kinds(c.(parts := c.parts + [e]), d.(parts := d.parts + [e]), q);
  }

  lemma ExtendedAgree(c: Concat, d: Concat, q: Path, call: string, r: Result<seq<Concat>>)
    requires Shared(c, d, q) && c.parts != [] && d.parts != [] && LastPart(c).Array? && LastPart(d).Array? && r.Ok?
    ensures var x, y := WithLast(c, Array(call, LastPart(c).elements)), WithLast(d, Array(call, LastPart(d).elements));
      Agree(Extended(x, r).value, Extended(y, r).value, q)
  {
    hide Agree, Shared, Apart;
    var e := Array(call, LastPart(c).elements + r.value);
    SharedEnd(c, d, q, e);
    Kinds(WithLast(c, e), WithLast(d, e), q);
    EndTwice(c, Array(call, LastPart(c).elements), e);
    EndTwice(d, Array(call, LastPart(d).elements), e);
  }

  lemma EndTwice(c: Concat, e: Entry, f: Entry)
    requires c.parts != []
    ensures WithLast(WithLast(c, e), f) == WithLast(c, f) && WithLast(c, LastPart(c)) == c
  {
    assert c.parts[|c.parts| - 1 := e][|c.parts| - 1 := f] == c.parts[|c.parts| - 1 := f];
    assert c.parts[|c.parts| - 1 := LastPart(c)] == c.parts;
  }

  lemma {:induction false} ListAgrees(vl: ValueList)
    requires ProperList(vl)
    ensures Harmless(z => FormList(z, vl))
    decreases vl, 1
  {
    hide Agree, Proper, FormParts;
    forall x, y, q | Agree(x, y, q) && FormList(x, vl).Ok? && FormList(y, vl).Ok? ensures Agree(FormList(x, vl).value, FormList(y, vl).value, q) {
      PartsKeepAgreement(x, y, q, vl.parts);
    }
    ByAgreeing(z => FormList(z, vl));
  }

  lemma {:induction false} PartsKeepAgreement(c: Concat, d: Concat, q: Path, vs: seq<ValuePart>)
    requires (forall i | 0 <= i < |vs| :: Proper(vs[i])) && Agree(c, d, q) && FormParts(c, vs).Ok? && FormParts(d, vs).Ok?
    ensures Agree(FormParts(c, vs).value, FormParts(d, vs).value, q)
    decreases vs, 0
  {
    hide Agree, Proper, FormPart;
    if vs != [] {
      PartAgrees(c, d, q, vs[0]);
      PartsKeepAgreement(FormPart(c, vs[0]).value, FormPart(d, vs[0]).value, q, vs[1..]);
    }
  }

  lemma {:induction false} MembersKeepAgreement(c: Concat, d: Concat, q: Path, ms: seq<MemberDef>)
    requires (forall i | 0 <= i < |ms| :: ProperMember(ms[i])) && Agree(c, d, q) && FormMembers(c, ms).Ok? && FormMembers(d, ms).Ok?
    ensures Agree(FormMembers(c, ms).value, FormMembers(d, ms).value, q)
    decreases ms, 0
  {
    hide Agree, ProperMember, FormMember;
    if ms != [] {
      MemberAgrees(c, d, q, ms[0]);
      MembersKeepAgreement(FormMember(c, ms[0]).value, FormMember(d, ms[0]).value, q, ms[1..]);
    }
  }

  lemma {:induction false} MemberAgrees(c: Concat, d: Concat, q: Path, def: MemberDef)
    requires ProperMember(def) && Agree(c, d, q) && FormMember(c, def).Ok? && FormMember(d, def).Ok?
    ensures Agree(FormMember(c, def).value, FormMember(d, def).value, q)
    decreases def, 0
  {
    hide Agree, Focus, FormList, Harmless, ProperList;
    var k := def.key;
    FlagsAreHarmless(def.SetTemporary? && def.flag);
    match def {
      case Assign(_, vl) =>
        ListAgrees(vl);
        FocusAgrees(c, d, q, k, DoAssign, Implicit);
        FocusAgrees(Focus(c, k, DoAssign, Implicit).value, Focus(d, k, DoAssign, Implicit).value, q, k, y => FormList(y, vl), Manifest);
      case Delete(_) => FocusAgrees(c, d, q, k, DoAssign, Implicit);
      case AppendTo(_, vl) =>
        ListAgrees(vl);
        FocusAgrees(c, d, q, k, y => FormList(y, vl), Manifest);
      case SetTemporary(_, flag) => FocusAgrees(c, d, q, k, DoTemporary(flag), Implicit);
    }
  }

  // ---- Trees without temporaries -------------------------------------------------------------

  /** No member at any depth is temporary; generations are forgotten. */
  ghost predicate Permanent(c: Concat) {
    !c.temporary && c.generation == 0 && forall i | 0 <= i < |c.parts| :: PermanentEntry(c.parts[i])
  }

  ghost predicate PermanentEntry(e: Entry) {
    match e
    case Object(m) => forall n | n in m :: Permanent(m[n])
    case _ => true
  }

  /** No definition makes a member temporary. */
  predicate Lasting(v: ValuePart) {
    v.ObjectPart? ==> forall i | 0 <= i < |v.members| :: LastingMember(v.members[i])
  }

  predicate LastingMember(d: MemberDef) {
    !d.SetTemporary? && (d.Assign? || d.AppendTo? ==> forall i | 0 <= i < |d.value.parts| :: Lasting(d.value.parts[i]))
  }

  ghost predicate KeepsPermanent(f: Step) {
    forall x :: Permanent(x) && f(x).Ok? ==> Permanent(f(x).value)
  }

  lemma PermanentAt(f: Step, c: Concat)
    requires KeepsPermanent(f) && Permanent(c) && f(c).Ok?
    ensures Permanent(f(c).value)
  {
  }

  lemma ByKeeping(f: Step)
    requires forall x :: Permanent(x) && f(x).Ok? ==> Permanent(f(x).value)
    ensures KeepsPermanent(f)
  {
  }

  lemma PermanentLast(c: Concat, e: Entry)
    requires Permanent(c)
    ensures Permanent(c.(parts := [], remove := true)) && Permanent(EMPTY)
    ensures c.parts != [] ==> PermanentEntry(LastPart(c)) && (PermanentEntry(e) ==> Permanent(WithLast(c, e)))
    ensures PermanentEntry(e) ==> Permanent(c.(parts := c.parts + [e]))
    ensures Permanent(EnsureArray(c)) && Permanent(EnsureObject(c)) && Permanent(EnsureAsterisk(c))
  {
    hide PermanentEntry;
    NewEntries();
    PermanentAppend(c, Array("", []));
    PermanentAppend(c, Object(map[]));
    PermanentAppend(c, Asterisk(EMPTY));
    if PermanentEntry(e) { PermanentAppend(c, e); }
  }

  lemma NewEntries()
    ensures PermanentEntry(Array("", [])) && PermanentEntry(Object(map[])) && PermanentEntry(Asterisk(EMPTY))
  {
  }

  lemma PermanentAppend(c: Concat, e: Entry)
    requires Permanent(c) && PermanentEntry(e)
    ensures Permanent(c.(parts := c.parts + [e]))
  {
    hide PermanentEntry;
  }

  lemma PermanentMember(m: Members, n: string, mode: Mode, c: Concat)
    requires PermanentEntry(Object(m))
    ensures Permanent(Member(m, n, mode)) && (Permanent(c) ==> PermanentEntry(Object(m[n := c])))
  {
    if n in m { assert Permanent(m[n]); }
  }

  lemma {:induction false} FocusPermanent(c: Concat, path: Key, f: Step, mode: Mode)
    requires Written(path) && Permanent(c) && KeepsPermanent(f) && Focus(c, path, f, mode).Ok?
    ensures Permanent(Focus(c, path, f, mode).value)
    decreases |path|
  {
    hide Permanent, PermanentEntry, KeepsPermanent, EnsureObject, EnsureAsterisk, Locate;
    if path == [] {
      PermanentAt(f, c);
    } else {
      var t := path[1..];
      match path[0] {
        case Star =>
          var d := EnsureAsterisk(c);
          PermanentLast(c, Null);
          var e := Asterisk(Focus(LastPart(d).star, t, f, mode).value);
          OtherEntry(e);
          PermanentLast(d, e);
        case Name(n) =>
          var d := EnsureObject(c);
          PermanentLast(c, Null);
          PermanentLast(d, Null);
          var m := LastPart(d).members;
          PermanentMember(m, n, mode, EMPTY);
          FocusPermanent(Member(m, n, mode), t, f, mode);
          var x := Focus(Member(m, n, mode), t, f, mode).value;
          PermanentMember(m, n, mode, x);
          PermanentLast(d, Object(m[n := x]));
        case Index(i) =>
          IndexPermanent(c, path, f, mode);
      }
    }
  }

  lemma OtherEntry(e: Entry)
    requires !e.Object?
    ensures PermanentEntry(e)
  {
  }

  lemma IndexPermanent(c: Concat, path: Key, f: Step, mode: Mode)
    requires path != [] && path[0].Index? && Permanent(c) && Focus(c, path, f, mode).Ok?
    ensures Permanent(Focus(c, path, f, mode).value)
  {
    hide Locate, PermanentEntry;
    var (k, j) := Locate(c.parts, path[0].index).value;
    var a := c.parts[k];
    var x := Focus(a.elements[j], path[1..], f, mode).value;
    OtherEntry(Array(a.call, a.elements[j := x]));
  }

  lemma {:induction false} PartPermanent(c: Concat, v: ValuePart)
    requires Permanent(c) && Proper(v) && Lasting(v) && FormPart(c, v).Ok?
    ensures Permanent(FormPart(c, v).value)
    decreases v, 0
  {
    hide Permanent, PermanentEntry, FormElements, FormMembers, EnsureArray, EnsureObject;
    PermanentLast(c, Null);
    match v {
      case AtomPart(e) => OtherEntry(e); PermanentLast(c, e);
      case ReferencePart(r) => OtherEntry(Reference(r)); PermanentLast(c, Reference(r));
      case ArrayPart(es) => ExtendedPermanent(EnsureArray(c), FormElements(es));
      case FunctionPart(n, es) =>
        var d := EnsureArray(c);
        var e := Array(n, LastPart(d).elements);
        OtherEntry(e);
        PermanentLast(d, e);
        ExtendedPermanent(WithLast(d, e), FormElements(es));
      case ObjectPart(ms) => MembersPermanent(EnsureObject(c), ms);
    }
  }

  lemma ExtendedPermanent(d: Concat, r: Result<seq<Concat>>)
    requires Permanent(d) && d.parts != [] && LastPart(d).Array? && r.Ok?
    ensures Permanent(Extended(d, r).value)
  {
    hide Permanent, PermanentEntry;
    var e := Array(LastPart(d).call, LastPart(d).elements + r.value);
    OtherEntry(e);
    PermanentLast(d, e);
  }

  lemma {:induction false} ListPermanent(vl: ValueList)
    requires ProperList(vl) && forall i | 0 <= i < |vl.parts| :: Lasting(vl.parts[i])
    ensures KeepsPermanent(z => FormList(z, vl))
    decreases vl, 1
  {
    hide Permanent, Proper, Lasting, FormParts;
    forall x | Permanent(x) && FormList(x, vl).Ok? ensures Permanent(FormList(x, vl).value) { PartsPermanent(x, vl.parts); }
    ByKeeping(z => FormList(z, vl));
  }

  lemma {:induction false} PartsPermanent(c: Concat, vs: seq<ValuePart>)
    requires (forall i | 0 <= i < |vs| :: Proper(vs[i]) && Lasting(vs[i])) && Permanent(c) && FormParts(c, vs).Ok?
    ensures Permanent(FormParts(c, vs).value)
    decreases vs, 0
  {
    hide Permanent, Proper, Lasting, FormPart;
    if vs != [] {
      PartPermanent(c, vs[0]);
      PartsPermanent(FormPart(c, vs[0]).value, vs[1..]);
    }
  }

  lemma {:induction false} MembersPermanent(c: Concat, ms: seq<MemberDef>)
    requires (forall i | 0 <= i < |ms| :: ProperMember(ms[i]) && LastingMember(ms[i])) && Permanent(c) && FormMembers(c, ms).Ok?
    ensures Permanent(FormMembers(c, ms).value)
    decreases ms, 0
  {
    hide Permanent, ProperMember, LastingMember, FormMember;
    if ms != [] {
      MemberPermanent(c, ms[0]);
      MembersPermanent(FormMember(c, ms[0]).value, ms[1..]);
    }
  }

  lemma {:induction false} MemberPermanent(c: Concat, d: MemberDef)
    requires ProperMember(d) && LastingMember(d) && Permanent(c) && FormMember(c, d).Ok?
    ensures Permanent(FormMember(c, d).value)
    decreases d, 0
  {
    hide Permanent, Focus, FormList, KeepsPermanent, ProperList, Lasting;
    var k := d.key;
    AssignIsPermanent();
    match d {
      case Assign(_, vl) =>
        ListPermanent(vl);
        FocusPermanent(c, k, DoAssign, Implicit);
        FocusPermanent(Focus(c, k, DoAssign, Implicit).value, k, y => FormList(y, vl), Manifest);
      case Delete(_) => FocusPermanent(c, k, DoAssign, Implicit);
      case AppendTo(_, vl) =>
        ListPermanent(vl);
        FocusPermanent(c, k, y => FormList(y, vl), Manifest);
    }
  }

  lemma AssignIsPermanent()
    ensures KeepsPermanent(DoAssign)
  {
    hide PermanentEntry;
    ByKeeping(DoAssign);
  }

  // ---- An assignment makes two trees agree ---------------------------------------------------

  function NamesOf(p: Path): Key {
    seq(|p|, i requires 0 <= i < |p| => Name(p[i]))
  }

  /** Both halves of an assignment below a member, whose implicit flag the second half clears. */
  ghost function Assigned(c: Concat, p: Path, vl: ValueList): Result<Concat> {
    AndThen(Focus(c, NamesOf(p), DoAssign, Implicit), (x: Concat) => Focus(x.(implicit := false), NamesOf(p), y => FormList(y, vl), Manifest))
  }

  lemma {:induction false} AssignedAgree(c: Concat, d: Concat, p: Path, vl: ValueList)
    requires ProperList(vl) && Permanent(c) && Permanent(d) && Assigned(c, p, vl).Ok? && Assigned(d, p, vl).Ok?
    ensures Agree(Assigned(c, p, vl).value, Assigned(d, p, vl).value, p)
    decreases |p|
  {
    hide Agree, AgreeIn, AgreeFrom, Permanent, PermanentEntry, FormList, ProperList;
    if p == [] {
      AssignedHere(c, vl);
      AssignedHere(d, vl);
      PermanentFlags(c);
      PermanentFlags(d);
      ListAgrees(vl);
      var x := c.(parts := [], remove := true, implicit := false);
      assert x == d.(parts := [], remove := true, implicit := false);
      Cleared1(x);
      HarmlessAt(z => FormList(z, vl), x, x, []);
    } else {
      var n, t := p[0], p[1..];
      AssignedBelow(c, p, vl);
      AssignedBelow(d, p, vl);
      PermanentLast(c, Null);
      PermanentLast(d, Null);
      var a, b := EnsureObject(c), EnsureObject(d);
      PermanentLast(a, Null);
      PermanentLast(b, Null);
      var m, o := LastPart(a).members, LastPart(b).members;
      PermanentMember(m, n, Implicit, EMPTY);
      PermanentMember(o, n, Implicit, EMPTY);
      AssignedAgree(Member(m, n, Implicit), Member(o, n, Implicit), t, vl);
      PermanentFlags(a);
      PermanentFlags(b);
      MadeApart(a, b, p, m[n := Assigned(Member(m, n, Implicit), t, vl).value], o[n := Assigned(Member(o, n, Implicit), t, vl).value]);
    }
  }

  lemma PermanentFlags(c: Concat)
    requires Permanent(c)
    ensures !c.temporary && c.generation == 0
  {
  }

  lemma Cleared1(x: Concat)
    requires x.remove && !x.implicit
    ensures Agree(x, x, [])
  {
  }

  lemma AssignedHere(c: Concat, vl: ValueList)
    ensures Assigned(c, [], vl) == FormList(c.(parts := [], remove := true, implicit := false), vl)
  {
    hide FormList;
    assert NamesOf([]) == [];
    var x := c.(parts := [], remove := true);
    assert Focus(c, [], DoAssign, Implicit) == Ok(x);
    assert Focus(x.(implicit := false), [], y => FormList(y, vl), Manifest) == FormList(x.(implicit := false), vl);
  }

  lemma FocusName(c: Concat, n: string, t: Key, f: Step, mode: Mode)
    ensures var d := EnsureObject(c);
      var x := Focus(Member(LastPart(d).members, n, mode), t, f, mode);
      Focus(c, [Name(n)] + t, f, mode) == if x.Ok? then Ok(WithLast(d, Object(LastPart(d).members[n := x.value]))) else x
  {
    assert ([Name(n)] + t)[1..] == t;
  }

  lemma AssignedBelow(c: Concat, p: Path, vl: ValueList)
    requires p != []
    ensures var d := EnsureObject(c);
      var m := LastPart(d).members;
      var r := Assigned(Member(m, p[0], Implicit), p[1..], vl);
      if r.Ok? then Assigned(c, p, vl) == Ok(WithLast(d, Object(m[p[0] := r.value])).(implicit := false)) else Assigned(c, p, vl).Err?
  {
    hide FormList, Focus, EnsureObject;
    var n, t := p[0], NamesOf(p[1..]);
    assert NamesOf(p) == [Name(n)] + t;
    var d := EnsureObject(c);
    var m := LastPart(d).members;
    FocusName(c, n, t, DoAssign, Implicit);
    var x := Focus(Member(m, n, Implicit), t, DoAssign, Implicit);
    if x.Ok? {
      var e := WithLast(d, Object(m[n := x.value])).(implicit := false);
      EndsInObject(d, m[n := x.value]);
      assert Member(m[n := x.value], n, Manifest) == x.value.(implicit := false);
      FocusName(e, n, t, z => FormList(z, vl), Manifest);
      var y := Focus(x.value.(implicit := false), t, z => FormList(z, vl), Manifest);
      if y.Ok? {
        assert m[n := x.value][n := y.value] == m[n := y.value];
        EndTwice(d, Object(m[n := x.value]), Object(m[n := y.value]));
        assert WithLast(e, Object(m[n := y.value])) == WithLast(d, Object(m[n := y.value])).(implicit := false);
      }
    }
  }

  lemma EndsInObject(d: Concat, m: Members)
    requires d.parts != []
    ensures var e := WithLast(d, Object(m)).(implicit := false);
      EnsureObject(e) == e && LastPart(e) == Object(m)
  {
  }

  lemma MadeApart(a: Concat, b: Concat, p: Path, m: Members, o: Members)
    requires p != [] && a.parts != [] && b.parts != [] && a.temporary == b.temporary && a.generation == b.generation
    requires p[0] in m && p[0] in o && Agree(m[p[0]], o[p[0]], p[1..])
    ensures Agree(WithLast(a, Object(m)).(implicit := false), WithLast(b, Object(o)).(implicit := false), p)
  {
    hide Agree;
    var x, y := WithLast(a, Object(m)).(implicit := false), WithLast(b, Object(o)).(implicit := false);
    assert AgreeFrom(x, y, p, 0);
    Kinds(x, y, p);
  }

  // ---- What trees that agree show ------------------------------------------------------------

  /** Trees that agree at a path show the same there, also when more is merged to them. */
  lemma {:induction false} AgreementShows(m: Members, o: Members, more: Members, p: Path)
    requires p != [] && AgreeIn(m, o, p)
    ensures Cleared(Merge(m, more), p) && Cleared(Merge(o, more), p)
    ensures Effective(Merge(m, more), p) == Effective(Merge(o, more), p)
    decreases |p|
  {
    hide AgreeIn, AllMembers, Agree, AgreeFrom;
    var n, t := p[0], p[1..];
    MemberAgreement(m, o, p);
    var c, d := m[n], o[n];
    var r := if n in more then more[n].parts else [];
    assert c.parts + [] == c.parts && d.parts + [] == d.parts;
    if t != [] && !(n in more && more[n].remove) && !(c == d && c.remove) {
      var k := AgreementAt(c, d, t);
      SummandsShow(c, d, t, k, r);
      var i, j := |c.parts| - 1 - k, |d.parts| - 1 - k;
      var rest := AllMembers(c.parts[i + 1..] + r);
      AgreementShows(c.parts[i].members, d.parts[j].members, rest, t);
      FrontForgotten(AllMembers(c.parts[..i]), Merge(c.parts[i].members, rest), t);
      FrontForgotten(AllMembers(d.parts[..j]), Merge(d.parts[j].members, rest), t);
    }
  }

  lemma FrontForgotten(l: Members, r: Members, p: Path)
    requires p != [] && Cleared(r, p)
    ensures Cleared(Merge(l, r), p) && Effective(Merge(l, r), p) == Effective(r, p)
  {
    hide Cleared, Effective, Merge;
    ClearedRight(l, r, p);
    MergeForgets(l, r, p);
  }

  lemma MemberAgreement(m: Members, o: Members, p: Path)
    requires p != [] && AgreeIn(m, o, p)
    ensures p[0] in m && p[0] in o && Agree(m[p[0]], o[p[0]], p[1..])
    ensures p[1..] == [] ==> m[p[0]] == o[p[0]] && m[p[0]].remove
  {
    hide AgreeFrom;
  }

  lemma AgreementAt(c: Concat, d: Concat, t: Path) returns (k: nat)
    requires t != [] && Agree(c, d, t) && !(c == d && c.remove)
    ensures AgreeFrom(c, d, t, k)
  {
    hide AgreeFrom;
    k :| AgreeFrom(c, d, t, k);
  }

  lemma SummandsShow(c: Concat, d: Concat, t: Path, k: nat, r: seq<Entry>)
    requires t != [] && AgreeFrom(c, d, t, k)
    ensures var i, j := |c.parts| - 1 - k, |d.parts| - 1 - k;
      && 0 <= i < |c.parts| && 0 <= j < |d.parts| && c.parts[i].Object? && d.parts[j].Object?
      && AgreeIn(c.parts[i].members, d.parts[j].members, t) && c.parts[i + 1..] == d.parts[j + 1..]
      && AllMembers(c.parts + r) == Merge(AllMembers(c.parts[..i]), Merge(c.parts[i].members, AllMembers(c.parts[i + 1..] + r)))
      && AllMembers(d.parts + r) == Merge(AllMembers(d.parts[..j]), Merge(d.parts[j].members, AllMembers(c.parts[i + 1..] + r)))
  {
    hide AgreeIn, Merge, AllMembers;
    AllAround(c.parts, |c.parts| - 1 - k, r);
    AllAround(d.parts, |d.parts| - 1 - k, r);
  }

  lemma AllAround(ps: seq<Entry>, i: nat, r: seq<Entry>)
    requires i < |ps| && ps[i].Object?
    ensures AllMembers(ps + r) == Merge(AllMembers(ps[..i]), Merge(ps[i].members, AllMembers(ps[i + 1..] + r)))
  {
    hide Merge, AllMembers;
    assert ps + r == ps[..i] + ([ps[i]] + (ps[i + 1..] + r));
    AllOfBoth(ps[..i], [ps[i]] + (ps[i + 1..] + r));
    AllOfBoth([ps[i]], ps[i + 1..] + r);
    AllOfOne(ps[i]);
  }

  // ---- Files ---------------------------------------------------------------------------------

  /** A file in which the path is assigned a value at some point. */
  function Assigning(before: seq<MemberDef>, p: Path, vl: ValueList, after: seq<MemberDef>): seq<MemberDef> {
    before + ([Assign(NamesOf(p), vl)] + after)
  }

  ghost predicate Temporaryless(ms: seq<MemberDef>) {
    forall i | 0 <= i < |ms| :: LastingMember(ms[i])
  }

  /** The tree that a file leaves, in two steps around the assignment. */
  lemma FormAround(before: seq<MemberDef>, p: Path, vl: ValueList, after: seq<MemberDef>) returns (m: Members, o: Members)
    requires p != [] && ProperFile(Assigning(before, p, vl, after)) && Temporaryless(before)
    requires FormMembers(Root(map[]), Assigning(before, p, vl, after)).Ok?
    ensures Permanent(Root(m)) && FormMember(Root(m), Assign(NamesOf(p), vl)) == Ok(Root(o))
    ensures FormMembers(Root(o), after) == FormMembers(Root(map[]), Assigning(before, p, vl, after))
  {
    hide FormMembers, FormMember, Permanent, ProperMember, LastingMember;
    var d := Assign(NamesOf(p), vl);
    var ms := Assigning(before, p, vl, after);
    assert forall i | 0 <= i < |before| :: before[i] == ms[i];
    assert ms[|before|] == d;
    FormBoth(Root(map[]), before, [d] + after);
    FormBoth(FormMembers(Root(map[]), before).value, [d], after);
    NothingPermanent();
    MembersPermanent(Root(map[]), before);
    m := StaysRoot(map[], before);
    OneFormed(Root(m), d);
    assert FormMembers(Root(m), [d]).Ok?;
    assert forall i | 0 <= i < |[d]| :: [d][i] == ms[|before|];
    o := StaysRoot(m, [d]);
  }

  lemma NothingPermanent()
    ensures Permanent(Root(map[]))
  {
    assert PermanentEntry(Object(map[]));
  }

  /** Definitions that begin with a name leave the root a single object. */
  lemma {:induction false} StaysRoot(m: Members, ms: seq<MemberDef>) returns (o: Members)
    requires ProperFile(ms) && FormMembers(Root(m), ms).Ok?
    ensures FormMembers(Root(m), ms) == Ok(Root(o))
    decreases |ms|
  {
    hide FormMember, ProperMember;
    if ms == [] {
      o := m;
    } else {
      KeyFirst(ms[0]);
      var p := DefinitionStaysRoot(m, ms[0]);
      assert forall i | 0 <= i < |ms[1..]| :: ms[1..][i] == ms[i + 1];
      o := StaysRoot(p, ms[1..]);
    }
  }

  lemma KeyFirst(d: MemberDef)
    requires ProperMember(d)
    ensures d.key != []
  {
  }

  lemma DefinitionStaysRoot(m: Members, d: MemberDef) returns (o: Members)
    requires d.key != [] && d.key[0].Name? && FormMember(Root(m), d).Ok?
    ensures FormMember(Root(m), d) == Ok(Root(o))
  {
    hide FocusMember, FormList;
    assert EnsureObject(Root(m)) == Root(m);
    forall x: Members ensures WithLast(Root(m), Object(x)) == Root(x) { }
    var f: Step := if d.AppendTo? then (y => FormList(y, d.value)) else if d.SetTemporary? then DoTemporary(d.flag) else DoAssign;
    var mode := if d.AppendTo? then Manifest else Implicit;
    var a := FocusMember(m, d.key[0].name, d.key[1..], f, mode);
    match d {
      case Assign(k, vl) =>
        assert EnsureObject(Root(a.value)) == Root(a.value);
        var b := FocusMember(a.value, k[0].name, k[1..], y => FormList(y, vl), Manifest);
        o := b.value;
        assert WithLast(Root(a.value), Object(o)) == Root(o);
      case AppendTo(k, vl) =>
        var b := FocusMember(m, k[0].name, k[1..], y => FormList(y, vl), Manifest);
        o := b.value;
      case Delete(_) => o := a.value;
      case SetTemporary(_, _) => o := a.value;
    }
  }

  /** After the assignment two roots agree at its path. */
  lemma AssignmentAgrees(m: Members, o: Members, a: Members, b: Members, p: Path, vl: ValueList)
    requires p != [] && ProperList(vl) && Permanent(Root(m)) && Permanent(Root(o))
    requires FormMember(Root(m), Assign(NamesOf(p), vl)) == Ok(Root(a)) && FormMember(Root(o), Assign(NamesOf(p), vl)) == Ok(Root(b))
    ensures AgreeIn(a, b, p)
  {
    hide Agree, Permanent, FormList, ProperList;
    AssignedAtRoot(m, a, p, vl);
    AssignedAtRoot(o, b, p, vl);
    RootMember(m, p[0]);
    RootMember(o, p[0]);
    AssignedAgree(Member(m, p[0], Implicit), Member(o, p[0], Implicit), p[1..], vl);
  }

  lemma RootMember(m: Members, n: string)
    requires Permanent(Root(m))
    ensures Permanent(Member(m, n, Implicit))
  {
    assert PermanentEntry(Root(m).parts[0]);
    PermanentMember(m, n, Implicit, EMPTY);
  }

  lemma AssignedAtRoot(m: Members, a: Members, p: Path, vl: ValueList)
    requires p != [] && FormMember(Root(m), Assign(NamesOf(p), vl)) == Ok(Root(a))
    ensures var r := Assigned(Member(m, p[0], Implicit), p[1..], vl);
      r.Ok? && a == m[p[0] := r.value]
  {
    hide FormList, Assigned;
    var c := Root(m);
    assert EnsureObject(c) == c && LastPart(c) == Object(m);
    AssignedBelow(c, p, vl);
    RootAssigned(m, p, vl);
    assert Root(a).parts[0] == Object(a);
  }

  /** The implicit flag of the root, which is false, is left alone. */
  lemma RootAssigned(m: Members, p: Path, vl: ValueList)
    requires p != []
    ensures FormMember(Root(m), Assign(NamesOf(p), vl)) == Assigned(Root(m), p, vl)
  {
    hide FormList, FocusMember;
    var k := NamesOf(p);
    var x := Focus(Root(m), k, DoAssign, Implicit);
    if x.Ok? { assert x.value.(implicit := false) == x.value; }
  }

  lemma FilesAgree(
    before: seq<MemberDef>, other: seq<MemberDef>, p: Path, vl: ValueList, after: seq<MemberDef>) returns (m: Members, o: Members)
    requires p != [] && Temporaryless(before) && Temporaryless(other)
    requires ProperFile(Assigning(before, p, vl, after)) && ProperFile(Assigning(other, p, vl, after))
    requires FormMembers(Root(map[]), Assigning(before, p, vl, after)).Ok? && FormMembers(Root(map[]), Assigning(other, p, vl, after)).Ok?
    ensures FormMembers(Root(map[]), Assigning(before, p, vl, after)) == Ok(Root(m))
    ensures FormMembers(Root(map[]), Assigning(other, p, vl, after)) == Ok(Root(o))
    ensures AgreeIn(m, o, p)
  {
    hide FormMembers, FormMember, Agree, AgreeIn, AgreeFrom, Permanent, ProperList, Temporaryless, Assigning;
    var m1, a := FormAround(before, p, vl, after);
    var o1, b := FormAround(other, p, vl, after);
    ProperParts(before, p, vl, after);
    AssignmentAgrees(m1, o1, a, b, p, vl);
    RootsAgree(a, b, p);
    MembersKeepAgreement(Root(a), Root(b), p, after);
    m := StaysRoot(a, after);
    o := StaysRoot(b, after);
    AgreedRoots(m, o, p);
  }

  lemma ProperParts(before: seq<MemberDef>, p: Path, vl: ValueList, after: seq<MemberDef>)
    requires ProperFile(Assigning(before, p, vl, after))
    ensures ProperFile(after) && ProperList(vl)
  {
    hide ProperList;
    var ms := Assigning(before, p, vl, after);
    assert ms[|before|] == Assign(NamesOf(p), vl) && ProperMember(ms[|before|]);
    forall i | 0 <= i < |after| ensures after[i] == ms[|before| + 1 + i] { }
  }

  lemma RootsAgree(m: Members, o: Members, p: Path)
    requires p != [] && AgreeIn(m, o, p)
    ensures Agree(Root(m), Root(o), p)
  {
    hide AgreeIn;
    assert AgreeFrom(Root(m), Root(o), p, 0);
  }

  lemma AgreedRoots(m: Members, o: Members, p: Path)
    requires p != [] && Agree(Root(m), Root(o), p)
    ensures AgreeIn(m, o, p)
  {
    hide AgreeIn;
    var k: nat :| AgreeFrom(Root(m), Root(o), p, k);
    assert k == 0;
  }

  lemma AddedUpMembers(m: Members, x: Entry)
    requires AddedUp(Object(m), x)
    ensures x.Object? && SameMembers(ErMembers(x.members), ErMembers(m))
  {
    hide NormalEntry, ErEntry, PassEntry, Passes;
    var n: nat :| Passes(Object(m), n) == x;
    PassesKeepNormal(Object(m), n);
    SameKind(x, Object(m));
    ErObject(m);
    ErObject(x.members);
    ErNormalEntry(Object(m));
    ErNormalEntry(x);
  }

  /**
   Two files that differ in any way before an assignment to the path `p`, with nothing made
   temporary there, and that are the same from there on, show the same under `p` once everything is
   added up, even when the ancestors of `p` are split into several summands.
   */
  lemma OverwriteForgetsHistory(
    before: seq<MemberDef>, other: seq<MemberDef>, p: Path, vl: ValueList, after: seq<MemberDef>, x: Entry, y: Entry)
    requires p != [] && Temporaryless(before) && Temporaryless(other)
    requires ProperFile(Assigning(before, p, vl, after)) && ProperFile(Assigning(other, p, vl, after))
    requires Parse(Assigning(before, p, vl, after)).Ok? && Parse(Assigning(other, p, vl, after)).Ok?
    requires AddedUp(Object(Parse(Assigning(before, p, vl, after)).value.root), x)
    requires AddedUp(Object(Parse(Assigning(other, p, vl, after)).value.root), y)
    ensures x.Object? && y.Object?
    ensures SameSight(Effective(ErMembers(x.members), p), Effective(ErMembers(y.members), p))
    ensures Effective(ErMembers(Parse(Assigning(before, p, vl, after)).value.root), p)
         == Effective(ErMembers(Parse(Assigning(other, p, vl, after)).value.root), p)
  {
    hide Effective, AddedUp, Parse, ErMembers, Assigning, AgreeIn, FormMembers, ProperMember, Merge, NormalEntry, Normal;
    var ms, ns := Assigning(before, p, vl, after), Assigning(other, p, vl, after);
    FileIsFormed(ms);
    FileIsFormed(ns);
    var m, o := FilesAgree(before, other, p, vl, after);
    SameRoots(m, ErMembers(Parse(ms).value.root));
    SameRoots(o, ErMembers(Parse(ns).value.root));
    AgreementShows(m, o, map[], p);
    MergeUnit(m);
    MergeUnit(o);
    AddedUpMembers(Parse(ms).value.root, x);
    AddedUpMembers(Parse(ns).value.root, y);
    SightIsNormal(ErMembers(x.members), m, p);
    SightIsNormal(ErMembers(y.members), o, p);
  }

  // ---- Members that are found without looking across summands --------------------------------

  /** The path leads through single objects only, to the member `c`. */
  ghost predicate Leads(m: Members, p: Path, c: Concat)
    requires p != []
    decreases |p|
  {
    p[0] in m &&
    if |p| == 1 then m[p[0]] == c
    else |m[p[0]].parts| == 1 && m[p[0]].parts[0].Object? && Leads(m[p[0]].parts[0].members, p[1..], c)
  }

  lemma {:induction false} LeadsToSight(m: Members, p: Path, c: Concat)
    requires p != [] && Leads(m, p, c)
    ensures Effective(ErMembers(m), p) == Seen(Er(c))
    decreases |p|
  {
    hide Er, AllMembers, ErMembers;
    var n := p[0];
    assert n in ErMembers(m) && ErMembers(m)[n] == Er(m[n]) by { ErasedMember(m, n); }
    if |p| > 1 {
      var o := m[n].parts[0].members;
      assert m[n].parts == [Object(o)];
      ErasedParts(m[n], o);
      AllOfOne(Object(ErMembers(o)));
      LeadsToSight(o, p[1..], c);
    }
  }

  lemma ErasedMember(m: Members, n: string)
    requires n in m
    ensures n in ErMembers(m) && ErMembers(m)[n] == Er(m[n])
  {
  }

  lemma ErasedParts(c: Concat, o: Members)
    requires c.parts == [Object(o)]
    ensures Er(c).parts == [Object(ErMembers(o))]
  {
    ErConcat(c);
    ErOne(Object(o));
    ErObject(o);
  }

  lemma {:induction false} FixedBelow(m: Members, p: Path, c: Concat)
    requires p != [] && Leads(m, p, c) && PassEntry(Object(m)) == Object(m)
    ensures Pass(c) == c
    decreases |p|
  {
    hide PassEntry, Pass;
    var n := p[0];
    ObjectPass(m);
    assert Pass(m[n]) == m[n];
    if |p| > 1 {
      var o := m[n].parts[0].members;
      assert m[n].parts == [Object(o)];
      PassOfObject(m[n], o);
      FixedBelow(o, p[1..], c);
    }
  }

  lemma PassOfObject(c: Concat, o: Members)
    requires c.parts == [Object(o)] && Pass(c) == c
    ensures PassEntry(Object(o)) == Object(o)
  {
    hide PassEntry;
    var ps := seq(|c.parts|, i requires 0 <= i < |c.parts| => PassEntry(c.parts[i]));
    CollapseShort(ps);
    assert Pass(c).parts == ps && ps[0] == PassEntry(Object(o));
  }

  /**
   For a path with nothing but single objects on it, the members themselves are equal, up to the
   bracketing of doubles, and exactly equal where at most two doubles have met in any sum.
   */
  lemma OverwrittenMemberIsTheSame(
    before: seq<MemberDef>, other: seq<MemberDef>, p: Path, vl: ValueList, after: seq<MemberDef>, x: Entry, y: Entry, c: Concat, d: Concat)
    requires p != [] && Temporaryless(before) && Temporaryless(other)
    requires ProperFile(Assigning(before, p, vl, after)) && ProperFile(Assigning(other, p, vl, after))
    requires Parse(Assigning(before, p, vl, after)).Ok? && Parse(Assigning(other, p, vl, after)).Ok?
    requires AddedUp(Object(Parse(Assigning(before, p, vl, after)).value.root), x)
    requires AddedUp(Object(Parse(Assigning(other, p, vl, after)).value.root), y)
    requires x.Object? && y.Object? && Leads(x.members, p, c) && Leads(y.members, p, d)
    ensures LooseTree(Er(c)) == LooseTree(Er(d))
    ensures Thin(c) ==> Er(c) == Er(d)
  {
    hide Er, Effective, Parse, ErMembers, Assigning, Leads, Pass, PassEntry, Normal, LooseTree, Thin, ProperMember, Temporaryless;
    OverwriteForgetsHistory(before, other, p, vl, after, x, y);
    LeadsToSight(x.members, p, c);
    LeadsToSight(y.members, p, d);
    assert x == Object(x.members) && y == Object(y.members);
    FixedBelow(x.members, p, c);
    FixedBelow(y.members, p, d);
    FixedIsNormal(c);
    FixedIsNormal(d);
    ErNormal(c);
    ErNormal(d);
    ErLoose(c);
    ErLoose(d);
    if Thin(c) { ThinIsExact(Er(c), Er(d)); }
  }
}
