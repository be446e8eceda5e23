/** Which members a file leaves, and which flags they have, read off its definitions. */
module Marks {
  import opened Tree
  import opened Phase1
  import opened Parser
  import opened ParserLaws
  import opened Forming
  import opened Scoping
  import Merging
  import History

  type Path = seq<string>

  // ---- Members of a tree ---------------------------------------------------------------------

  /** The member that a definition with the path `p` would go on with. */
  function Look(c: Concat, p: Path): Option<Concat>
    decreases |p|
  {
    if p == [] then Some(c)
    else if c.parts == [] || !LastPart(c).Object? || p[0] !in LastPart(c).members then None
    else Look(LastPart(c).members[p[0]], p[1..])
  }

  datatype Mark = Absent | Present(implicit: bool, temporary: bool, remove: bool)

  function MarkOf(c: Concat): Mark {
    Present(c.implicit, c.temporary, c.remove)
  }

  function MarkAt(c: Concat, p: Path): Mark {
    var d := Look(c, p);
    if d.None? then Absent else MarkOf(d.value)
  }

  // ---- What a file does, in its order --------------------------------------------------------

  /**
   The head of an assignment or a deletion; a part of a value, which goes on with the object at the
   end if it is an object literal; and a `temporary` or `permanent`.
   */
  datatype Event = Head(at: Key) | Content(at: Key, opens: bool) | Flagging(at: Key, flag: bool)

  function EventsOfParts(base: Key, vs: seq<ValuePart>): seq<Event>
    decreases vs, 0
  {
    if vs == [] then [] else EventsOfPart(base, vs[0]) + EventsOfParts(base, vs[1..])
  }

  function EventsOfPart(base: Key, v: ValuePart): seq<Event>
    decreases v, 0
  {
    if v.ObjectPart? then [Content(base, true)] + EventsOfMembers(base, v.members) else [Content(base, false)]
  }

  function EventsOfMembers(base: Key, ms: seq<MemberDef>): seq<Event>
    decreases ms, 0
  {
    if ms == [] then [] else EventsOfMember(base, ms[0]) + EventsOfMembers(base, ms[1..])
  }

  function EventsOfMember(base: Key, d: MemberDef): seq<Event>
    decreases d, 0
  {
    match d
    case Assign(k, vl) => [Head(base + k)] + EventsOfParts(base + k, vl.parts)
    case Delete(k) => [Head(base + k)]
    case AppendTo(k, vl) => EventsOfParts(base + k, vl.parts)
    case SetTemporary(k, flag) => [Flagging(base + k, flag)]
  }

  // ---- What an event does to a member --------------------------------------------------------

  /** The names at the beginning of a key. */
  function Lead(k: Key): (l: Path)
    ensures |l| <= |k|
  {
    if k == [] || !k[0].Name? then [] else [k[0].name] + Lead(k[1..])
  }

  /** The event goes to the member at `p`, or through it. */
  predicate Reaches(e: Event, p: Path) {
    p <= Lead(e.at)
  }

  /** The event goes to the member at `p` itself. */
  predicate Exactly(e: Event, p: Path) {
    Lead(e.at) == p && |e.at| == |p|
  }

  /** The event removes what is above the member at `p`, or puts something else behind it. */
  predicate Hides(e: Event, p: Path) {
    var l := Lead(e.at);
    l < p && if |l| == |e.at| then e.Head? || (e.Content? && !e.opens) else e.at[|l|].Star?
  }

  function After(m: Mark, e: Event, p: Path): Mark {
    if Reaches(e, p) then
      var t := Passed(m, if e.Content? then Manifest else Implicit);
      if !Exactly(e, p) then t
      else if e.Head? then t.(remove := true)
      else if e.Flagging? then t.(temporary := e.flag)
      else t
    else if Hides(e, p) then Absent
    else m
  }

  /** A member that is gone to or through is there, and it is implicit while only implicit steps do so. */
  function Passed(m: Mark, mode: Mode): (r: Mark)
    ensures r.Present?
  {
    if m.Absent? then Present(mode == Implicit, false, false) else m.(implicit := mode == Implicit && m.implicit)
  }

  function Fold(m: Mark, es: seq<Event>, p: Path): Mark {
    if es == [] then m else After(Fold(m, es[..|es| - 1], p), es[|es| - 1], p)
  }

  lemma {:induction false} FoldBoth(m: Mark, es: seq<Event>, fs: seq<Event>, p: Path)
    ensures Fold(m, es + fs, p) == Fold(Fold(m, es, p), fs, p)
    decreases |fs|
  {
    hide After;
    if fs == [] {
      assert es + fs == es;
    } else {
      var init, f := fs[..|fs| - 1], fs[|fs| - 1];
      assert (es + fs)[..|es + fs| - 1] == es + init;
      FoldBoth(m, es, init, p);
    }
  }

  lemma FoldOne(m: Mark, e: Event, p: Path)
    ensures Fold(m, [e], p) == After(m, e, p)
  {
    hide After;
    assert [e][..0] == [] && Fold(m, [], p) == m;
  }

  // ---- One step along a path -----------------------------------------------------------------

  lemma KeepsFlags(c: Concat, k: Key, f: Step, mode: Mode)
    requires k != [] && Focus(c, k, f, mode).Ok?
    ensures MarkOf(Focus(c, k, f, mode).value) == MarkOf(c)
  {
    hide FocusMember, Locate;
    match k[0] {
      case Star =>
      case Name(_) =>
      case Index(_) =>
      case Append(_) =>
    }
  }

  /** The concat that a step at the path `p` is applied to. */
  function Target(c: Concat, p: Path, mode: Mode): Concat
    decreases |p|
  {
    if p == [] then c else Target(Member(LastPart(EnsureObject(c)).members, p[0], mode), p[1..], mode)
  }

  /** The member `n` as a step finds it. */
  lemma MemberMark(c: Concat, n: string, mode: Mode)
    ensures var x := Member(LastPart(EnsureObject(c)).members, n, mode);
      && MarkOf(x) == Passed(MarkAt(c, [n]), mode)
      && forall q | q != [] :: Look(x, q) == Look(c, [n] + q)
  {
    assert [n][1..] == [];
    if c.parts != [] && LastPart(c).Object? && n in LastPart(c).members {
      assert Look(c, [n]) == Look(LastPart(c).members[n], []) == Some(LastPart(c).members[n]);
    }
    forall q: Path | q != []
      ensures Look(Member(LastPart(EnsureObject(c)).members, n, mode), q) == Look(c, [n] + q)
    {
      assert ([n] + q)[1..] == q;
    }
  }

  /** What a step below the member `n` leaves. */
  lemma NameStep(c: Concat, n: string, t: Key, f: Step, mode: Mode, p: Path)
    requires p != [] && Focus(c, [Name(n)] + t, f, mode).Ok?
    ensures var x := Focus(Member(LastPart(EnsureObject(c)).members, n, mode), t, f, mode);
      x.Ok? && Look(Focus(c, [Name(n)] + t, f, mode).value, p) == if p[0] == n then Look(x.value, p[1..]) else Look(c, p)
  {
    hide Focus;
    History.FocusName(c, n, t, f, mode);
  }

  /** What a step at a path of names leaves below that path. */
  lemma {:induction false} BelowStep(c: Concat, p: Path, f: Step, mode: Mode, q: Path)
    requires Focus(c, History.NamesOf(p), f, mode).Ok?
    ensures f(Target(c, p, mode)).Ok?
    ensures Look(Focus(c, History.NamesOf(p), f, mode).value, p + q) == Look(f(Target(c, p, mode)).value, q)
    decreases |p|
  {
    if p == [] {
      assert p + q == q;
    } else {
      hide Focus, Member, EnsureObject, Look;
      var t := p[1..];
      assert History.NamesOf(p) == [Name(p[0])] + History.NamesOf(t);
      var x := Member(LastPart(EnsureObject(c)).members, p[0], mode);
      NameStep(c, p[0], History.NamesOf(t), f, mode, p + q);
      assert (p + q)[1..] == t + q && (p + q)[0] == p[0];
      BelowStep(x, t, f, mode, q);
    }
  }

  /** The concat to which a step is applied has the flags of a member that is passed. */
  lemma {:induction false} TargetMark(c: Concat, p: Path, mode: Mode)
    requires p != []
    ensures MarkOf(Target(c, p, mode)) == Passed(MarkAt(c, p), mode)
    decreases |p|
  {
    hide Member, EnsureObject, Look;
    var x, t := Member(LastPart(EnsureObject(c)).members, p[0], mode), p[1..];
    MemberMark(c, p[0], mode);
    if t == [] {
      assert p == [p[0]];
    } else {
      TargetMark(x, t, mode);
      assert [p[0]] + t == p;
      assert Look(x, t) == Look(c, [p[0]] + t);
    }
  }

  lemma {:induction false} BelowTarget(c: Concat, p: Path, mode: Mode, q: Path)
    requires q != []
    ensures Look(Target(c, p, mode), q) == Look(c, p + q)
    decreases |p|
  {
    if p == [] {
      assert p + q == q;
    } else {
      hide Member, EnsureObject, Look;
      var x, t := Member(LastPart(EnsureObject(c)).members, p[0], mode), p[1..];
      MemberMark(c, p[0], mode);
      BelowTarget(x, t, mode, q);
      assert [p[0]] + (t + q) == p + q;
      assert Look(x, t + q) == Look(c, [p[0]] + (t + q));
    }
  }

  /** Members that a longer key goes through. */
  lemma {:induction false} ThroughStep(c: Concat, k: Key, f: Step, mode: Mode, p: Path)
    requires Focus(c, k, f, mode).Ok? && p != [] && p <= Lead(k) && |p| < |k|
    ensures MarkAt(Focus(c, k, f, mode).value, p) == Passed(MarkAt(c, p), mode)
    decreases |k|
  {
    hide Focus, Member, EnsureObject, Look;
    var n, t := p[0], k[1..];
    assert k == [Name(n)] + t && Lead(k) == [n] + Lead(t);
    var x := Member(LastPart(EnsureObject(c)).members, n, mode);
    NameStep(c, n, t, f, mode, p);
    MemberMark(c, n, mode);
    if p[1..] == [] {
      assert p == [n];
      KeepsFlags(x, t, f, mode);
      NoPath(Focus(x, t, f, mode).value);
    } else {
      assert p[1..] <= Lead(t);
      ThroughStep(x, t, f, mode, p[1..]);
      assert [n] + p[1..] == p;
      assert Look(x, p[1..]) == Look(c, [n] + p[1..]);
    }
  }

  lemma NoPath(c: Concat)
    ensures Look(c, []) == Some(c)
  {
  }

  /** Members that a key does not go through, and that are not below its end. */
  lemma {:induction false} AsideStep(c: Concat, k: Key, f: Step, mode: Mode, p: Path)
    requires Focus(c, k, f, mode).Ok? && Written(k) && p != [] && !(p <= Lead(k)) && (Lead(k) <= p ==> |Lead(k)| < |k|)
    ensures Look(Focus(c, k, f, mode).value, p) == if Lead(k) <= p && k[|Lead(k)|].Star? then None else Look(c, p)
    decreases |k|
  {
    if k[0].Name? {
      hide Focus, Member, EnsureObject, Look;
      var n, t := k[0].name, k[1..];
      assert k == [Name(n)] + t && Lead(k) == [n] + Lead(t);
      var x := Member(LastPart(EnsureObject(c)).members, n, mode);
      NameStep(c, n, t, f, mode, p);
      if p[0] == n {
        MemberMark(c, n, mode);
        assert p == [n] + p[1..] && !(p[1..] <= Lead(t));
        assert Lead(t) <= p[1..] <==> Lead(k) <= p;
        assert Written(t);
        assert p[1..] != [];
        AsideStep(x, t, f, mode, p[1..]);
        assert Look(x, p[1..]) == Look(c, [n] + p[1..]);
      }
    } else if k[0].Index? {
      IndexStep(c, k, f, mode);
    } else {
      assert k[0].Star?;
      StarStep(c, k, f, mode);
    }
  }

  lemma IndexStep(c: Concat, k: Key, f: Step, mode: Mode)
    requires k != [] && k[0].Index? && Focus(c, k, f, mode).Ok?
    ensures var d := Focus(c, k, f, mode).value;
      |d.parts| == |c.parts| && (d.parts != [] ==> LastPart(d) == LastPart(c) || (LastPart(d).Array? && LastPart(c).Array?))
  {
  }

  lemma StarStep(c: Concat, k: Key, f: Step, mode: Mode)
    requires k != [] && k[0].Star? && Focus(c, k, f, mode).Ok?
    ensures var d := Focus(c, k, f, mode).value; d.parts != [] && LastPart(d).Asterisk?
  {
  }

  // ---- Keys ----------------------------------------------------------------------------------

  lemma {:induction false} LeadBoth(b: Path, k: Key)
    ensures Lead(History.NamesOf(b) + k) == b + Lead(k)
    decreases |b|
  {
    var at := History.NamesOf(b) + k;
    if b == [] {
      assert at == k && [] + Lead(k) == Lead(k);
    } else {
      LeadBoth(b[1..], k);
      assert at[0] == Name(b[0]) && at[1..] == History.NamesOf(b[1..]) + k;
      assert b == [b[0]] + b[1..];
      assert [b[0]] + (b[1..] + Lead(k)) == b + Lead(k);
    }
  }

  lemma {:induction false} LeadMore(k: Key, r: Key)
    ensures Lead(k) <= Lead(k + r)
    ensures |Lead(k)| < |k| ==> Lead(k + r) == Lead(k) && (k + r)[|Lead(k)|] == k[|Lead(k)|]
    decreases |k|
  {
    if k == [] {
      assert k + r == r;
    } else {
      assert (k + r)[0] == k[0] && (k + r)[1..] == k[1..] + r;
      LeadMore(k[1..], r);
    }
  }

  lemma {:induction false} WholeLead(k: Key)
    requires |Lead(k)| == |k|
    ensures k == History.NamesOf(Lead(k))
  {
    if k != [] {
      WholeLead(k[1..]);
      assert k == [k[0]] + k[1..];
    }
  }

  lemma NamesBoth(a: Path, b: Path)
    ensures History.NamesOf(a + b) == History.NamesOf(a) + History.NamesOf(b)
  {
  }

  // ---- The events of a value -----------------------------------------------------------------

  /** All events go to `k` or through it, and those that go to `k` itself are parts of its value. */
  ghost predicate Inside(es: seq<Event>, k: Key) {
    forall i | 0 <= i < |es| :: k <= es[i].at && (es[i].at == k ==> es[i].Content?)
  }

  /** All events go through `k` or to it. */
  ghost predicate Under(es: seq<Event>, k: Key) {
    forall i | 0 <= i < |es| :: k <= es[i].at
  }

  lemma {:induction false} PartsInside(k: Key, vs: seq<ValuePart>)
    requires forall i | 0 <= i < |vs| :: Proper(vs[i])
    ensures Inside(EventsOfParts(k, vs), k)
    ensures vs != [] ==> EventsOfParts(k, vs) != [] && EventsOfParts(k, vs)[0].Content?
    decreases vs, 0
  {
    if vs != [] {
      if vs[0].ObjectPart? { MembersInside(k, vs[0].members); }
      PartsInside(k, vs[1..]);
    }
  }

  lemma FurtherInside(es: seq<Event>, k: Key, r: Key)
    requires r != [] && Under(es, k + r)
    ensures Inside(es, k)
  {
    forall i | 0 <= i < |es| ensures k <= es[i].at && es[i].at != k {
      assert k + r <= es[i].at;
    }
  }

  lemma {:induction false} MembersInside(k: Key, ms: seq<MemberDef>)
    requires forall i | 0 <= i < |ms| :: ProperMember(ms[i])
    ensures Inside(EventsOfMembers(k, ms), k)
    decreases ms, 0
  {
    if ms != [] {
      var d := ms[0];
      assert ProperMember(d);
      if d.Assign? || d.AppendTo? {
        assert ProperList(d.value);
        PartsInside(k + d.key, d.value.parts);
      }
      FurtherInside(EventsOfMember(k, d), k, d.key) by { assert Under(EventsOfMember(k, d), k + d.key); }
      MembersInside(k, ms[1..]);
    }
  }

  /** A member above a value is passed by the value. */
  lemma {:induction false} FoldThrough(m: Mark, es: seq<Event>, k: Key, p: Path)
    requires Inside(es, k) && es != [] && es[0].Content? && p != [] && p <= Lead(k)
    ensures Fold(m, es, p) == Passed(m, Manifest)
    decreases |es|
  {
    var init, e := es[..|es| - 1], es[|es| - 1];
    assert e.at == k + e.at[|k|..];
    LeadMore(k, e.at[|k|..]);
    assert Exactly(e, p) ==> e.at == k;
    if init == [] {
      assert Fold(m, [], p) == m;
    } else {
      assert init[0] == es[0] && Inside(init, k);
      FoldThrough(m, init, k, p);
    }
  }

  /** Members that events do not touch. */
  lemma {:induction false} FoldAside(m: Mark, es: seq<Event>, k: Key, p: Path)
    requires Under(es, k) && Written(k) && !(p <= Lead(k)) && (Lead(k) <= p ==> |Lead(k)| < |k|)
    ensures Fold(m, es, p) == if es != [] && Lead(k) <= p && k[|Lead(k)|].Star? then Absent else m
    decreases |es|
  {
    if es != [] {
      var init, e := es[..|es| - 1], es[|es| - 1];
      assert Under(init, k);
      FoldAside(m, init, k, p);
      assert e.at == k + e.at[|k|..];
      LeadMore(k, e.at[|k|..]);
      if !(Lead(k) <= p) { Diverging(Lead(k), Lead(e.at), p); }
    }
  }

  lemma Diverging(a: Path, b: Path, p: Path)
    requires a <= b && !(p <= a) && !(a <= p)
    ensures !(p <= b) && !(b <= p)
  {
    if p <= b { Comparable(a, p, b); }
  }

  lemma Comparable(a: Path, p: Path, b: Path)
    requires a <= b && p <= b
    ensures a <= p || p <= a
  {
    if |a| <= |p| { assert a == p[..|a|]; } else { assert p == a[..|p|]; }
  }

  // ---- Every definition ----------------------------------------------------------------------

  /** How a member at `q` below the names `b` lies to a key below the same names. */
  lemma KeyBelow(b: Path, k: Key, q: Path)
    ensures var at, p := History.NamesOf(b) + k, b + q;
      && Lead(at) == b + Lead(k) && |at| == |b| + |k|
      && (p <= Lead(at) <==> q <= Lead(k)) && (Lead(at) <= p <==> Lead(k) <= q)
      && (|Lead(k)| < |k| ==> at[|Lead(at)|] == k[|Lead(k)|])
  {
    LeadBoth(b, k);
    AppendPrefix(b, q, Lead(k));
    AppendPrefix(b, Lead(k), q);
  }

  lemma AppendPrefix(b: Path, x: Path, y: Path)
    ensures b + x <= b + y <==> x <= y
  {
    if b + x <= b + y {
      assert forall i | 0 <= i < |x| :: x[i] == (b + x)[|b| + i] == (b + y)[|b| + i] == y[i];
    }
  }

  /** What the head of an assignment, a deletion or a flag does. */
  lemma OneEvent(c: Concat, b: Path, k: Key, e: Event, q: Path)
    requires q != [] && k != [] && Written(k) && e.at == History.NamesOf(b) + k && !e.Content?
    requires Focus(c, k, if e.Head? then DoAssign else DoTemporary(e.flag), Implicit).Ok?
    ensures MarkAt(Focus(c, k, if e.Head? then DoAssign else DoTemporary(e.flag), Implicit).value, q)
         == After(MarkAt(c, q), e, b + q)
  {
    hide Focus, Look, Target;
    var f := if e.Head? then DoAssign else DoTemporary(e.flag);
    var l, d := Lead(k), Focus(c, k, f, Implicit).value;
    KeyBelow(b, k, q);
    if q <= l && |q| < |k| {
      ThroughStep(c, k, f, Implicit, q);
    } else if l <= q && |l| == |k| {
      WholeLead(k);
      var t := q[|l|..];
      assert q == l + t;
      BelowStep(c, l, f, Implicit, t);
      if t == [] {
        assert q == l;
        TargetMark(c, q, Implicit);
        NoPath(f(Target(c, q, Implicit)).value);
      } else {
        BelowTarget(c, l, Implicit, t);
        EmptyOrSame(Target(c, l, Implicit), e, t);
      }
    } else {
      AsideStep(c, k, f, Implicit, q);
    }
  }

  lemma EmptyOrSame(x: Concat, e: Event, t: Path)
    requires t != [] && !e.Content?
    ensures e.Head? ==> DoAssign(x).Ok? && Look(DoAssign(x).value, t) == None
    ensures e.Flagging? ==> DoTemporary(e.flag)(x).Ok? && Look(DoTemporary(e.flag)(x).value, t) == Look(x, t)
  {
  }

  lemma {:induction false} ValueMarks(c: Concat, b: Path, k: Key, vl: ValueList, q: Path)
    requires q != [] && k != [] && Written(k) && ProperList(vl) && Focus(c, k, y => FormList(y, vl), Manifest).Ok?
    ensures MarkAt(Focus(c, k, y => FormList(y, vl), Manifest).value, q)
         == Fold(MarkAt(c, q), EventsOfParts(History.NamesOf(b) + k, vl.parts), b + q)
    decreases vl, 1
  {
    hide Focus, Look, Target, EventsOfParts, FormParts, After, Fold, Proper;
    var f := (y: Concat) => FormList(y, vl);
    var l, d, at := Lead(k), Focus(c, k, f, Manifest).value, History.NamesOf(b) + k;
    var es := EventsOfParts(at, vl.parts);
    KeyBelow(b, k, q);
    PartsInside(at, vl.parts);
    if q <= l && |q| < |k| {
      ThroughStep(c, k, f, Manifest, q);
      FoldThrough(MarkAt(c, q), es, at, b + q);
    } else if l <= q && |l| == |k| {
      WholeLead(k);
      var t := q[|l|..];
      assert q == l + t;
      BelowStep(c, l, f, Manifest, t);
      var x := Target(c, l, Manifest);
      assert FormList(x, vl) == FormParts(x, vl.parts);
      if t == [] {
        assert q == l;
        TargetMark(c, q, Manifest);
        NoPath(f(x).value);
        PartsKeepFlags(x, vl.parts);
        FoldThrough(MarkAt(c, q), es, at, b + q);
      } else {
        BelowTarget(c, l, Manifest, t);
        PartsMarks(x, b + l, vl.parts, t);
        NamesBoth(b, l);
        assert (b + l) + t == b + q;
      }
    } else {
      AsideStep(c, k, f, Manifest, q);
      FoldAside(MarkAt(c, q), es, at, b + q);
    }
  }

  lemma {:induction false} PartsMarks(c: Concat, b: Path, vs: seq<ValuePart>, q: Path)
    requires q != [] && (forall i | 0 <= i < |vs| :: Proper(vs[i])) && FormParts(c, vs).Ok?
    ensures MarkAt(FormParts(c, vs).value, q) == Fold(MarkAt(c, q), EventsOfParts(History.NamesOf(b), vs), b + q)
    decreases vs, 0
  {
    hide FormPart, Look, EventsOfPart, After, Proper;
    if vs != [] {
      var d := FormPart(c, vs[0]).value;
      PartMarks(c, b, vs[0], q);
      PartsMarks(d, b, vs[1..], q);
      FoldBoth(MarkAt(c, q), EventsOfPart(History.NamesOf(b), vs[0]), EventsOfParts(History.NamesOf(b), vs[1..]), b + q);
    }
  }

  lemma {:induction false} PartMarks(c: Concat, b: Path, v: ValuePart, q: Path)
    requires q != [] && Proper(v) && FormPart(c, v).Ok?
    ensures MarkAt(FormPart(c, v).value, q) == Fold(MarkAt(c, q), EventsOfPart(History.NamesOf(b), v), b + q)
    decreases v, 0
  {
    hide FormMembers, FormElements, Fold, EventsOfMembers;
    var e := Content(History.NamesOf(b), v.ObjectPart?);
    KeyBelow(b, [], q);
    assert History.NamesOf(b) + [] == History.NamesOf(b);
    FoldOne(MarkAt(c, q), e, b + q);
    match v {
      case ObjectPart(ms) =>
        hide Look, After;
        OpensObject(c, q);
        assert After(MarkAt(c, q), e, b + q) == MarkAt(c, q) by { NotHidden(MarkAt(c, q), b, q); }
        MembersMarks(EnsureObject(c), b, ms, q);
        FoldBoth(MarkAt(c, q), [e], EventsOfMembers(History.NamesOf(b), ms), b + q);
      case _ => Buried(c, v, q);
    }
  }

  lemma NotHidden(m: Mark, b: Path, q: Path)
    requires q != []
    ensures After(m, Content(History.NamesOf(b), true), b + q) == m
    ensures After(m, Content(History.NamesOf(b), false), b + q) == Absent
  {
    KeyBelow(b, [], q);
    assert History.NamesOf(b) + [] == History.NamesOf(b);
  }

  lemma OpensObject(c: Concat, q: Path)
    requires q != []
    ensures Look(EnsureObject(c), q) == Look(c, q)
  {
  }

  lemma Buried(c: Concat, v: ValuePart, q: Path)
    requires q != [] && Proper(v) && !v.ObjectPart? && FormPart(c, v).Ok?
    ensures Look(FormPart(c, v).value, q) == None
  {
    hide FormElements;
  }

  lemma {:induction false} MembersMarks(c: Concat, b: Path, ms: seq<MemberDef>, q: Path)
    requires q != [] && (forall i | 0 <= i < |ms| :: ProperMember(ms[i])) && FormMembers(c, ms).Ok?
    ensures MarkAt(FormMembers(c, ms).value, q) == Fold(MarkAt(c, q), EventsOfMembers(History.NamesOf(b), ms), b + q)
    decreases ms, 0
  {
    hide FormMember, Look, EventsOfMember, After, ProperMember;
    if ms != [] {
      var d := FormMember(c, ms[0]).value;
      MemberMarks(c, b, ms[0], q);
      MembersMarks(d, b, ms[1..], q);
      FoldBoth(MarkAt(c, q), EventsOfMember(History.NamesOf(b), ms[0]), EventsOfMembers(History.NamesOf(b), ms[1..]), b + q);
    }
  }

  lemma {:induction false} MemberMarks(c: Concat, b: Path, d: MemberDef, q: Path)
    requires q != [] && ProperMember(d) && FormMember(c, d).Ok?
    ensures MarkAt(FormMember(c, d).value, q) == Fold(MarkAt(c, q), EventsOfMember(History.NamesOf(b), d), b + q)
    decreases d, 0
  {
    hide Focus, Look, After, Fold, EventsOfParts, ProperList, FormList;
    var k, at, m, p := d.key, History.NamesOf(b) + d.key, MarkAt(c, q), b + q;
    match d {
      case Assign(_, vl) =>
        var x := Focus(c, k, DoAssign, Implicit).value;
        OneEvent(c, b, k, Head(at), q);
        FoldOne(m, Head(at), p);
        ValueMarks(x, b, k, vl, q);
        FoldBoth(m, [Head(at)], EventsOfParts(at, vl.parts), p);
      case Delete(_) =>
        OneEvent(c, b, k, Head(at), q);
        FoldOne(m, Head(at), p);
      case AppendTo(_, vl) =>
        ValueMarks(c, b, k, vl, q);
      case SetTemporary(_, flag) =>
        OneEvent(c, b, k, Flagging(at, flag), q);
        FoldOne(m, Flagging(at, flag), p);
    }
  }

  // The concat that a value is written to keeps its flags.

  lemma {:induction false} PartsKeepFlags(c: Concat, vs: seq<ValuePart>)
    requires (forall i | 0 <= i < |vs| :: Proper(vs[i])) && FormParts(c, vs).Ok?
    ensures MarkOf(FormParts(c, vs).value) == MarkOf(c)
    decreases vs, 0
  {
    hide FormPart, Proper;
    if vs != [] {
      PartKeepsFlags(c, vs[0]);
      PartsKeepFlags(FormPart(c, vs[0]).value, vs[1..]);
    }
  }

  lemma {:induction false} PartKeepsFlags(c: Concat, v: ValuePart)
    requires Proper(v) && FormPart(c, v).Ok?
    ensures MarkOf(FormPart(c, v).value) == MarkOf(c)
    decreases v, 0
  {
    hide FormMembers, FormElements;
    if v.ObjectPart? { MembersKeepFlags(EnsureObject(c), v.members); }
  }

  lemma {:induction false} MembersKeepFlags(c: Concat, ms: seq<MemberDef>)
    requires (forall i | 0 <= i < |ms| :: ProperMember(ms[i])) && FormMembers(c, ms).Ok?
    ensures MarkOf(FormMembers(c, ms).value) == MarkOf(c)
    decreases ms, 0
  {
    hide FormMember;
    if ms != [] {
      MemberKeepsFlags(c, ms[0]);
      MembersKeepFlags(FormMember(c, ms[0]).value, ms[1..]);
    }
  }

  lemma MemberKeepsFlags(c: Concat, d: MemberDef)
    requires ProperMember(d) && FormMember(c, d).Ok?
    ensures MarkOf(FormMember(c, d).value) == MarkOf(c)
  {
    hide Focus, FormList;
    match d {
      case Assign(k, vl) =>
        KeepsFlags(c, k, DoAssign, Implicit);
        KeepsFlags(Focus(c, k, DoAssign, Implicit).value, k, y => FormList(y, vl), Manifest);
      case Delete(k) => KeepsFlags(c, k, DoAssign, Implicit);
      case AppendTo(k, vl) => KeepsFlags(c, k, y => FormList(y, vl), Manifest);
      case SetTemporary(k, flag) => KeepsFlags(c, k, DoTemporary(flag), Implicit);
    }
  }

  // ---- In closed form ------------------------------------------------------------------------

  /** The events after the last one that has hidden the member at `p`. */
  function Since(es: seq<Event>, p: Path): seq<Event> {
    if es == [] then []
    else
      var e := es[|es| - 1];
      if !Reaches(e, p) && Hides(e, p) then [] else Since(es[..|es| - 1], p) + [e]
  }

  /** Some event goes to the member or through it. */
  predicate Reached(es: seq<Event>, p: Path) {
    exists i | 0 <= i < |es| :: Reaches(es[i], p)
  }

  /** A value is written to the member or below it. */
  predicate Filled(es: seq<Event>, p: Path) {
    exists i | 0 <= i < |es| :: Reaches(es[i], p) && es[i].Content?
  }

  /** The member itself is assigned or deleted. */
  predicate Headed(es: seq<Event>, p: Path) {
    exists i | 0 <= i < |es| :: Exactly(es[i], p) && es[i].Head?
  }

  /** The last flag that the member was given says that it is temporary. */
  predicate LastlyTemporary(es: seq<Event>, p: Path) {
    es != [] &&
    var e := es[|es| - 1];
    if Exactly(e, p) && e.Flagging? then e.flag else LastlyTemporary(es[..|es| - 1], p)
  }

  lemma {:induction false} ClosedForm(es: seq<Event>, p: Path)
    requires p != []
    ensures var s, m := Since(es, p), Fold(Absent, es, p);
      && (m.Present? <==> Reached(s, p))
      && (m.Present? ==> m == Present(!Filled(s, p), LastlyTemporary(s, p), Headed(s, p)))
    decreases |es|
  {
    if es != [] {
      var init, e := es[..|es| - 1], es[|es| - 1];
      ClosedForm(init, p);
      if Reaches(e, p) || !Hides(e, p) {
        OneMore(Since(init, p), e, p);
        hide Reached, Filled, Headed, LastlyTemporary, Reaches, Exactly, Hides, Since, Fold;
        ExactReaches(e, p);
        if !Reached(Since(init, p), p) { Untouched(Since(init, p), p); }
        SinceStep(es, p);
        assert Fold(Absent, es, p) == After(Fold(Absent, init, p), e, p) by { FoldStep(es, p); }
      } else {
        SinceStep(es, p);
        NothingReached(p);
        FoldStep(es, p);
      }
    } else {
      NothingReached(p);
    }
  }

  lemma FoldStep(es: seq<Event>, p: Path)
    requires es != []
    ensures Fold(Absent, es, p) == After(Fold(Absent, es[..|es| - 1], p), es[|es| - 1], p)
  {
    hide After;
  }

  lemma SinceStep(es: seq<Event>, p: Path)
    requires es != []
    ensures var e := es[|es| - 1];
      Since(es, p) == if !Reaches(e, p) && Hides(e, p) then [] else Since(es[..|es| - 1], p) + [e]
  {
    hide Reaches, Hides;
  }

  lemma NothingReached(p: Path)
    ensures !Reached([], p) && !Filled([], p) && !Headed([], p) && !LastlyTemporary([], p)
  {
  }

  lemma ExactReaches(e: Event, p: Path)
    ensures Exactly(e, p) ==> Reaches(e, p)
  {
  }

  /** A member that nothing goes to has no flags. */
  lemma {:induction false} Untouched(s: seq<Event>, p: Path)
    requires !Reached(s, p)
    ensures !Filled(s, p) && !Headed(s, p) && !LastlyTemporary(s, p)
    decreases |s|
  {
    forall i | 0 <= i < |s| ensures !Exactly(s[i], p) { ExactReaches(s[i], p); }
    if s != [] {
      assert forall i | 0 <= i < |s| - 1 :: s[..|s| - 1][i] == s[i];
      Untouched(s[..|s| - 1], p);
    }
  }

  lemma OneMore(s: seq<Event>, e: Event, p: Path)
    ensures Reached(s + [e], p) <==> Reached(s, p) || Reaches(e, p)
    ensures Filled(s + [e], p) <==> Filled(s, p) || (Reaches(e, p) && e.Content?)
    ensures Headed(s + [e], p) <==> Headed(s, p) || (Exactly(e, p) && e.Head?)
    ensures LastlyTemporary(s + [e], p) <==> if Exactly(e, p) && e.Flagging? then e.flag else LastlyTemporary(s, p)
  {
    hide Reaches, Exactly;
    var t := s + [e];
    assert t[|s|] == e && t[..|t| - 1] == s && forall i | 0 <= i < |s| :: t[i] == s[i];
  }

  // ---- Files ---------------------------------------------------------------------------------

  lemma {:induction false} ErasedMark(c: Concat, p: Path)
    ensures MarkAt(Merging.Er(c), p) == MarkAt(c, p)
    decreases |p|
  {
    hide Merging.ErEntry;
    Merging.ErConcat(c);
    ErNothing(c);
    if p != [] && c.parts != [] {
      ErLast(c, Null);
      ErKinds(LastPart(c));
      if LastPart(c).Object? {
        var m := LastPart(c).members;
        assert Merging.ErMembers(m).Keys == m.Keys;
        if p[0] in m { ErasedMark(m[p[0]], p[1..]); }
      }
    }
  }

  /** Every flag of every member of an accepted file is what the definitions say. */
  lemma FlagsOfFile(ms: seq<MemberDef>, p: Path)
    requires ProperFile(ms) && Parse(ms).Ok? && p != []
    ensures MarkAt(Root(Parse(ms).value.root), p) == Fold(Absent, EventsOfMembers([], ms), p)
  {
    hide ExecMembers, FormMembers, Look, EventsOfMembers, Fold, ProperMember, Merging.Er;
    var m := Parse(ms).value.root;
    FileIsFormed(ms);
    ErRoot(m);
    ErasedMark(Root(m), p);
    MembersMarks(Root(map[]), [], ms, p);
    assert History.NamesOf([]) == [] && [] + p == p;
    EmptyRootMark(p);
  }

  lemma EmptyRootMark(p: Path)
    requires p != []
    ensures MarkAt(Root(map[]), p) == Absent
  {
  }

  /**
   After an accepted file there is a member at a path of names exactly when some definition has gone
   to it or through it since it was last removed or put behind something else.  It is implicit
   exactly when none of these definitions has a value, temporary exactly when the last flag says so,
   and it replaces what comes before it exactly when it was itself assigned or deleted.
   */
  lemma FlagsBySyntax(ms: seq<MemberDef>, p: Path)
    requires ProperFile(ms) && Parse(ms).Ok? && p != []
    ensures var s, c := Since(EventsOfMembers([], ms), p), Look(Root(Parse(ms).value.root), p);
      && (c.Some? <==> Reached(s, p))
      && (c.Some? ==>
            && (c.value.implicit <==> !Filled(s, p))
            && (c.value.temporary <==> LastlyTemporary(s, p))
            && (c.value.remove <==> Headed(s, p)))
  {
    hide ExecMembers, EventsOfMembers, Fold, Since, Reached, Filled, LastlyTemporary, Headed, ProperMember, Look;
    FlagsOfFile(ms, p);
    ClosedForm(EventsOfMembers([], ms), p);
  }
}
