/**
 Flat configs: every member is a sum of integers and references to other members.  What phase 2
 makes of them is compared with evaluating the members one by one in the order of their dependencies.
 */
module Flat {
  import opened Tree
  import opened Additions
  import opened Algebra
  import opened Asterisks
  import opened References
  import opened Everything
  import opened Phase3
  import opened Pipeline
  import opened Callless
  import Functions
  import Access
  import Copying
  import Names

  // ---- Syntax --------------------------------------------------------------------------------

  predicate IsTerm(e: Entry) {
    match e
    case Signed(i) => -TWO63 <= i < TWO63
    case Unsigned(u) => u < TWO64
    case Reference(r) => |r| == 1 && r[0].RefName?
    case _ => false
  }

  predicate IsSum(c: Concat) {
    c.parts != [] && forall i | 0 <= i < |c.parts| :: IsTerm(c.parts[i])
  }

  predicate IsFlat(m: Members) {
    forall n | n in m :: IsSum(m[n])
  }

  // ---- Evaluation in dependency order --------------------------------------------------------

  /** A mathematical integer, whether it is signed, and how deep its definition goes. */
  datatype Meaning = Stuck | Solved(signed: bool, sum: int, rank: nat)

  function Plus(a: Meaning, b: Meaning): Meaning {
    if a.Stuck? || b.Stuck? then Stuck
    else Solved(a.signed || b.signed, a.sum + b.sum, if a.rank < b.rank then b.rank else a.rank)
  }

  /** The member `n`, evaluated while the members in `open` are being evaluated. */
  function Evaluate(m: Members, n: string, open: set<string>): Meaning
    decreases |m.Keys - open|, 1, 0
  {
    if n !in m || n in open then Stuck
    else
      assert m.Keys - (open + {n}) < m.Keys - open by { assert n in m.Keys - open; }
      Smaller(m.Keys - (open + {n}), m.Keys - open);
      var v := EvaluateTerms(m, m[n].parts, open + {n});
      if v.Stuck? then Stuck else v.(rank := v.rank + 1)
  }

  function EvaluateTerms(m: Members, ps: seq<Entry>, open: set<string>): Meaning
    decreases |m.Keys - open|, 2, |ps|
  {
    if ps == [] then Solved(false, 0, 0)
    else Plus(
      match ps[0]
      case Signed(i) => Solved(true, i, 0)
      case Unsigned(u) => Solved(false, u, 0)
      case Reference(r) => if |r| == 1 && r[0].RefName? then Evaluate(m, r[0].name, open) else Stuck
      case _ => Stuck,
      EvaluateTerms(m, ps[1..], open))
  }

  lemma Smaller<T>(a: set<T>, b: set<T>)
    requires a < b
    ensures |a| < |b|
  {
    assert b == a + (b - a);
  }

  /** A term when the references have given meanings. */
  ghost function Term(env: string -> Meaning, e: Entry): Meaning {
    match e
    case Signed(i) => Solved(true, i, 0)
    case Unsigned(u) => Solved(false, u, 0)
    case Reference(r) => if |r| == 1 && r[0].RefName? then env(r[0].name) else Stuck
    case _ => Stuck
  }

  ghost function Terms(env: string -> Meaning, ps: seq<Entry>): Meaning {
    if ps == [] then Solved(false, 0, 0) else Plus(Term(env, ps[0]), Terms(env, ps[1..]))
  }

  ghost function Env(m: Members): string -> Meaning {
    n => Evaluate(m, n, {})
  }

  predicate Mentions(ps: seq<Entry>, x: string) {
    exists i | 0 <= i < |ps| :: ps[i] == Reference([RefName(x)])
  }

  /** What can be evaluated while something else is open can be evaluated with less open. */
  lemma {:induction false} LessOpen(m: Members, n: string, open: set<string>, less: set<string>)
    requires less <= open && Evaluate(m, n, open).Solved?
    ensures Evaluate(m, n, less) == Evaluate(m, n, open)
    decreases |m.Keys - open|, 1, 0
  {
    assert m.Keys - (open + {n}) < m.Keys - open by { assert n in m.Keys - open; }
    Smaller(m.Keys - (open + {n}), m.Keys - open);
    LessOpenTerms(m, m[n].parts, open + {n}, less + {n});
  }

  lemma {:induction false} LessOpenTerms(m: Members, ps: seq<Entry>, open: set<string>, less: set<string>)
    requires less <= open && EvaluateTerms(m, ps, open).Solved?
    ensures EvaluateTerms(m, ps, less) == EvaluateTerms(m, ps, open)
    decreases |m.Keys - open|, 2, |ps|
  {
    hide Evaluate;
    if ps != [] {
      if ps[0].Reference? { LessOpen(m, ps[0].target[0].name, open, less); }
      LessOpenTerms(m, ps[1..], open, less);
    }
  }

  /** A solved member is the sum of its terms, and deeper than every member that it mentions. */
  lemma SolvedIsSum(m: Members, n: string)
    requires Env(m)(n).Solved?
    ensures n in m && Terms(Env(m), m[n].parts) == Env(m)(n).(rank := Env(m)(n).rank - 1)
    ensures forall x | Mentions(m[n].parts, x) :: Env(m)(x).Solved? && Env(m)(x).rank < Env(m)(n).rank
  {
    hide EvaluateTerms;
    assert {} + {n} == {n};
    OpenTerms(m, m[n].parts, {n});
  }

  lemma {:induction false} OpenTerms(m: Members, ps: seq<Entry>, open: set<string>)
    requires EvaluateTerms(m, ps, open).Solved?
    ensures Terms(Env(m), ps) == EvaluateTerms(m, ps, open)
    ensures forall x | Mentions(ps, x) :: Env(m)(x).Solved? && Env(m)(x).rank <= EvaluateTerms(m, ps, open).rank
    decreases |ps|
  {
    hide Evaluate;
    if ps != [] {
      if ps[0].Reference? { LessOpen(m, ps[0].target[0].name, open, {}); }
      OpenTerms(m, ps[1..], open);
      forall x | Mentions(ps, x) ensures ps[0] == Reference([RefName(x)]) || Mentions(ps[1..], x) {
        var i :| 0 <= i < |ps| && ps[i] == Reference([RefName(x)]);
        if i > 0 { assert ps[1..][i - 1] == ps[i]; }
      }
    }
  }

  // ---- Why a member is stuck -----------------------------------------------------------------

  /** Members that mention one another, one after the other. */
  ghost predicate Chain(m: Members, ns: seq<string>) {
    ns != [] && forall i | 0 <= i < |ns| - 1 :: ns[i] in m && Mentions(m[ns[i]].parts, ns[i + 1])
  }

  /** A chain that ends with a name that is not defined, or with one that it has already passed. */
  ghost predicate DeadEnd(m: Members, ns: seq<string>) {
    var l := |ns| - 1;
    l >= 0 && (ns[l] !in m || exists i | 0 <= i < l :: ns[i] == ns[l])
  }

  lemma {:induction false} StuckChain(m: Members, n: string, open: set<string>) returns (ns: seq<string>)
    requires IsFlat(m) && Evaluate(m, n, open).Stuck?
    ensures Chain(m, ns) && ns[0] == n
    ensures ns[|ns| - 1] in open || DeadEnd(m, ns)
    decreases |m.Keys - open|, 1, 0
  {
    hide EvaluateTerms;
    if n !in m || n in open {
      ns := [n];
    } else {
      assert m.Keys - (open + {n}) < m.Keys - open by { assert n in m.Keys - open; }
      Smaller(m.Keys - (open + {n}), m.Keys - open);
      assert IsSum(m[n]);
      var i := StuckTerm(m, m[n].parts, open + {n});
      var x := m[n].parts[i].target[0].name;
      assert m[n].parts[i] == Reference([RefName(x)]) by { assert IsTerm(m[n].parts[i]); }
      var t := StuckChain(m, x, open + {n});
      ns := [n] + t;
      assert forall j | 1 <= j < |ns| :: ns[j] == t[j - 1];
      if ns[|ns| - 1] == n { assert ns[0] == ns[|ns| - 1]; }
      else if j :| 0 <= j < |t| - 1 && t[j] == t[|t| - 1] { assert ns[j + 1] == ns[|ns| - 1]; }
    }
  }

  lemma {:induction false} StuckTerm(m: Members, ps: seq<Entry>, open: set<string>) returns (i: nat)
    requires EvaluateTerms(m, ps, open).Stuck? && forall j | 0 <= j < |ps| :: IsTerm(ps[j])
    ensures i < |ps| && ps[i].Reference? && |ps[i].target| == 1 && ps[i].target[0].RefName?
    ensures Evaluate(m, ps[i].target[0].name, open).Stuck?
    decreases |ps|
  {
    hide Evaluate;
    if ps[0].Reference? && Evaluate(m, ps[0].target[0].name, open).Stuck? {
      assert IsTerm(ps[0]);
      i := 0;
    } else {
      assert IsTerm(ps[0]);
      i := StuckTerm(m, ps[1..], open);
      i := i + 1;
    }
  }

  lemma {:induction false} SolvedChain(m: Members, ns: seq<string>, i: nat, j: nat)
    requires Chain(m, ns) && Env(m)(ns[0]).Solved? && i <= j < |ns|
    ensures Env(m)(ns[i]).Solved? && Env(m)(ns[j]).Solved?
    ensures i < j ==> Env(m)(ns[j]).rank < Env(m)(ns[i]).rank
    decreases j, i
  {
    hide Mentions, Env;
    if j > 0 {
      SolvedChain(m, ns, if i == j then i - 1 else i, j - 1);
      SolvedIsSum(m, ns[j - 1]);
      assert Mentions(m[ns[j - 1]].parts, ns[j]);
    }
  }

  /**
   Dependency order fails for a member exactly when following its references leads to a name that
   is not defined, or into a cycle.
   */
  lemma StuckMeansDeadEnd(m: Members, n: string)
    requires IsFlat(m)
    ensures Env(m)(n).Stuck? <==> exists ns | Chain(m, ns) && ns[0] == n :: DeadEnd(m, ns)
  {
    if Env(m)(n).Stuck? {
      var ns := StuckChain(m, n, {});
    } else if ns :| Chain(m, ns) && ns[0] == n && DeadEnd(m, ns) {
      var l := |ns| - 1;
      SolvedChain(m, ns, l, l);
      SolvedIsSum(m, ns[l]);
      var i :| 0 <= i < l && ns[i] == ns[l];
      SolvedChain(m, ns, i, l);
    }
  }

  // ---- What every pass keeps -----------------------------------------------------------------

  /** Both stuck, or equal modulo 2^64 and equally signed. */
  ghost predicate Agree(a: Meaning, b: Meaning) {
    if a.Stuck? || b.Stuck? then a.Stuck? && b.Stuck?
    else a.signed == b.signed && Unsigned64(a.sum) == Unsigned64(b.sum)
  }

  lemma AgreePlus(a: Meaning, b: Meaning, x: Meaning, y: Meaning)
    requires Agree(a, x) && Agree(b, y)
    ensures Agree(Plus(a, b), Plus(x, y))
  {
    if a.Solved? && b.Solved? {
      WrapTwice(a.sum, b.sum);
      WrapTwice(Unsigned64(b.sum), a.sum);
      WrapTwice(x.sum, y.sum);
      WrapTwice(Unsigned64(y.sum), x.sum);
    }
  }

  lemma AgreeTransitive(a: Meaning, b: Meaning, c: Meaning)
    requires Agree(a, b) && Agree(b, c)
    ensures Agree(a, c)
  {
  }

  lemma {:induction false} TermsSplit(env: string -> Meaning, ps: seq<Entry>, qs: seq<Entry>)
    ensures Terms(env, ps + qs) == Plus(Terms(env, ps), Terms(env, qs))
    decreases |ps|
  {
    if ps == [] {
      assert ps + qs == qs;
    } else {
      assert (ps + qs)[0] == ps[0] && (ps + qs)[1..] == ps[1..] + qs;
      TermsSplit(env, ps[1..], qs);
    }
  }

  lemma OneTerm(env: string -> Meaning, e: Entry)
    ensures Terms(env, [e]) == Plus(Term(env, e), Solved(false, 0, 0))
  {
    assert [e][1..] == [];
  }

  /** One state of a run: the same members, with the same meanings, and no new references. */
  ghost predicate Keeps(m: Members, o: Members) {
    && IsFlat(o) && o.Keys == m.Keys
    && (forall n | n in m :: Agree(Terms(Env(m), o[n].parts), Terms(Env(m), m[n].parts)))
    && (forall n, x | n in m && Mentions(o[n].parts, x) :: Mentions(m[n].parts, x))
  }

  /** A member may be replaced by a sum with the same meaning and no new references. */
  ghost predicate Refines(env: string -> Meaning, ps: seq<Entry>, qs: seq<Entry>) {
    && qs != [] && (forall i | 0 <= i < |qs| :: IsTerm(qs[i]))
    && Agree(Terms(env, qs), Terms(env, ps))
    && (forall x | Mentions(qs, x) :: Mentions(ps, x))
  }

  lemma RefinedIsKept(m: Members, o: Members, q: Members)
    requires Keeps(m, o) && q.Keys == o.Keys && forall n | n in o :: Refines(Env(m), o[n].parts, q[n].parts)
    ensures Keeps(m, q)
  {
    hide Env, Terms, Mentions;
    forall n | n in m ensures Agree(Terms(Env(m), q[n].parts), Terms(Env(m), m[n].parts)) {
      assert Refines(Env(m), o[n].parts, q[n].parts);
    }
  }

  // ---- Additions -----------------------------------------------------------------------------

  lemma {:induction false} CollapseRefines(env: string -> Meaning, ps: seq<Entry>)
    requires ps != [] && forall i | 0 <= i < |ps| :: IsTerm(ps[i])
    ensures Refines(env, ps, Collapse(ps))
    decreases |ps|
  {
    hide IsTerm, Term;
    var init, e := ps[..|ps| - 1], ps[|ps| - 1];
    assert ps == init + [e];
    if init == [] {
      CollapseShort(ps);
    } else {
      var c := Collapse(init);
      CollapseRefines(env, init);
      TermsSplit(env, init, [e]);
      OneTerm(env, e);
      forall x | Mentions(init, x) ensures Mentions(ps, x) {
        var i :| 0 <= i < |init| && init[i] == Reference([RefName(x)]);
        assert ps[i] == init[i];
      }
      PushRefines(env, c, e);
      AgreePlus(Terms(env, c), Terms(env, [e]), Terms(env, init), Terms(env, [e]));
      AgreeTransitive(Terms(env, Push(c, e)), Plus(Terms(env, c), Terms(env, [e])), Terms(env, ps));
      forall x | Mentions(Push(c, e), x) ensures Mentions(ps, x) {
        assert Mentions(c, x) || e == Reference([RefName(x)]);
        if !Mentions(c, x) { assert ps[|ps| - 1] == e; }
      }
    }
  }

  lemma PushRefines(env: string -> Meaning, c: seq<Entry>, e: Entry)
    requires IsTerm(e) && forall i | 0 <= i < |c| :: IsTerm(c[i])
    ensures forall i | 0 <= i < |Push(c, e)| :: IsTerm(Push(c, e)[i])
    ensures Agree(Terms(env, Push(c, e)), Plus(Terms(env, c), Terms(env, [e])))
    ensures forall x | Mentions(Push(c, e), x) :: Mentions(c, x) || e == Reference([RefName(x)])
  {
    hide Terms, Join;
    TermsSplit(env, c, [e]);
    if c != [] && Joinable(c[|c| - 1], e) {
      var init, l := c[..|c| - 1], c[|c| - 1];
      assert c == init + [l] && IsTerm(l);
      JoinTerms(env, l, e);
      TermsSplit(env, init, [l]);
      TermsSplit(env, init, [Join(l, e)]);
      AgreePlus(Terms(env, init), Terms(env, [Join(l, e)]), Terms(env, init), Plus(Terms(env, [l]), Terms(env, [e])));
    }
    PushMentions(c, e);
  }

  /** A sum mentions what its summands mention. */
  lemma PushMentions(c: seq<Entry>, e: Entry)
    ensures forall x | Mentions(Push(c, e), x) :: Mentions(c, x) || e == Reference([RefName(x)])
  {
    hide Join;
    var r := Push(c, e);
    forall x | Mentions(r, x) ensures Mentions(c, x) || e == Reference([RefName(x)]) {
      var i :| 0 <= i < |r| && r[i] == Reference([RefName(x)]);
      if i < |c| && c[i] == r[i] { assert Mentions(c, x); }
      if i == |c| - 1 && Joinable(c[i], e) { JoinClass(c[i], e); }
    }
  }

  lemma JoinTerms(env: string -> Meaning, a: Entry, b: Entry)
    requires IsTerm(a) && IsTerm(b) && Joinable(a, b)
    ensures IsTerm(Join(a, b)) && !Join(a, b).Reference?
    ensures Agree(Terms(env, [Join(a, b)]), Plus(Terms(env, [a]), Terms(env, [b])))
  {
    hide Join, Terms, IsTerm, Number64;
    JoinableTerms(a, b);
    SumOfNumbers(a, b);
    NumberTerms(env, a);
    NumberTerms(env, b);
    NumberInRange(a.Signed? || b.Signed?, NumberOf(a) + NumberOf(b));
    NumberTerms(env, Join(a, b));
  }

  lemma JoinableTerms(a: Entry, b: Entry)
    requires IsTerm(a) && IsTerm(b) && Joinable(a, b)
    ensures IsNumber(a) && IsNumber(b)
  {
  }

  lemma NumberTerms(env: string -> Meaning, e: Entry)
    requires IsNumber(e)
    ensures Terms(env, [e]) == Solved(e.Signed?, NumberOf(e), 0)
  {
    assert [e][1..] == [];
  }

  lemma NumberInRange(signed: bool, x: int)
    ensures var e := Number64(signed, x);
      IsTerm(e) && IsNumber(e) && e.Signed? == signed && Unsigned64(NumberOf(e)) == Unsigned64(x)
  {
    SignedWraps(x);
  }

  lemma SignedWraps(x: int)
    ensures Unsigned64(Signed64(x)) == Unsigned64(x) && Unsigned64(Unsigned64(x)) == Unsigned64(x)
  {
    WrapTwice(0, x);
  }

  function Collapsed(o: Members): Members {
    map n | n in o :: o[n].(parts := Collapse(o[n].parts))
  }

  lemma FlatPass(o: Members)
    requires IsFlat(o)
    ensures SoundEntry(Object(o)) && PassEntry(Object(o)) == Object(Collapsed(o))
  {
    hide Collapse, IsSum, Sound, Pass;
    forall n | n in o ensures Sound(o[n]) && Pass(o[n]) == Collapsed(o)[n] { SumPass(o[n]); }
    ObjectPass(o);
    assert PassEntry(Object(o)).members == Collapsed(o);
  }

  lemma AddUpKeeps(m: Members, o: Members, fm: Functions.FunctionMap)
    requires Keeps(m, o)
    ensures RunPass(AddUp, fm, o).Ok? && Keeps(m, RunPass(AddUp, fm, o).value)
    ensures RunPass(AddUp, fm, o) == Ok(o) ==> forall n | n in o :: Collapse(o[n].parts) == o[n].parts
  {
    hide Env, Terms, Collapse, Refines, Mentions, SoundEntry, PassEntry;
    FlatPass(o);
    forall n | n in o ensures Refines(Env(m), o[n].parts, Collapsed(o)[n].parts) {
      assert IsSum(o[n]);
      CollapseRefines(Env(m), o[n].parts);
    }
    RefinedIsKept(m, o, Collapsed(o));
    assert Collapsed(o) == o ==> forall n | n in o :: Collapsed(o)[n] == o[n];
  }

  lemma SumPass(c: Concat)
    requires IsSum(c)
    ensures Sound(c) && Pass(c) == c.(parts := Collapse(c.parts))
  {
    hide Collapse;
    forall i | 0 <= i < |c.parts| ensures SoundEntry(c.parts[i]) && PassEntry(c.parts[i]) == c.parts[i] { assert IsTerm(c.parts[i]); }
    forall i | 0 < i < |c.parts| ensures !Clash(c.parts[i - 1], c.parts[i]) { assert IsTerm(c.parts[i - 1]) && IsTerm(c.parts[i]); }
    assert seq(|c.parts|, i requires 0 <= i < |c.parts| => PassEntry(c.parts[i])) == c.parts;
  }

  // ---- The passes that have nothing to do ----------------------------------------------------

  lemma CallsKeep(fm: Functions.FunctionMap, o: Members)
    requires IsFlat(o)
    ensures RunPass(CallFunctions, fm, o) == Ok(o)
  {
    hide FreeEntry, Functions.CallEntry;
    FlatIsFree(o);
    CallsOfFreeEntry(fm, Object(o));
  }

  lemma FlatIsFree(o: Members)
    requires IsFlat(o)
    ensures FreeEntry(Invocation, Object(o))
  {
    forall n | n in o ensures Free(Invocation, o[n]) {
      assert IsSum(o[n]);
      assert forall i | 0 <= i < |o[n].parts| :: IsTerm(o[n].parts[i]);
    }
  }

  lemma StarsKeep(fm: Functions.FunctionMap, o: Members)
    requires IsFlat(o)
    ensures RunPass(ExpandStars, fm, o) == Ok(o)
  {
    hide IsSum, Expand;
    forall n | n in o ensures Expand(o[n]) == Ok(o[n]) { ExpandSum(o[n]); }
    assert ExpandBelow(Object(o)).value.members == o;
  }

  lemma ExpandSum(c: Concat)
    requires IsSum(c)
    ensures Expand(c) == Ok(c)
  {
    hide ExpandFrom, IsTerm;
    ExpandTerms(c.parts, 0);
  }

  lemma {:induction false} ExpandTerms(ps: seq<Entry>, i: nat)
    requires i <= |ps| && forall j | 0 <= j < |ps| :: IsTerm(ps[j])
    ensures ExpandFrom(ps, i) == Ok(ps)
    decreases |ps| - i
  {
    if i < |ps| {
      assert IsTerm(ps[i]);
      assert ExpandBelow(ps[i]) == Ok(ps[i]);
      if |ps| > 1 { ExpandTerms(ps, i + 1); } else { assert ps == [ps[0]]; }
    }
  }

  // ---- References ----------------------------------------------------------------------------

  lemma FlatSite(o: Members, s: Site) returns (n: string, x: string)
    requires IsFlat(o) && Live(Root(o), s)
    ensures n in o && s.pos == [ToMember(0, n)] && KeyOf(s.pos) == [Name(n)]
    ensures s.part < |o[n].parts| && o[n].parts[s.part] == Reference([RefName(x)])
    ensures ReferenceAt(Root(o), s) == [RefName(x)]
    ensures forall e :: Replace(Root(o), s, e) == Root(o[n := o[n].(parts := o[n].parts[s.part := e])])
  {
    assert s.pos != [];
    var h, t := s.pos[0], s.pos[1..];
    assert HasChild(Root(o), h) && Valid(Child(Root(o), h), t);
    n := h.name;
    assert Child(Root(o), h) == o[n];
    assert IsSum(o[n]);
    NoHops(o[n], t);
    assert s.pos == [h];
    assert Get(Root(o), s.pos) == o[n];
    assert IsTerm(o[n].parts[s.part]);
    x := o[n].parts[s.part].target[0].name;
    forall e ensures Replace(Root(o), s, e) == Root(o[n := o[n].(parts := o[n].parts[s.part := e])]) {
      ReplaceBelow(Root(o), s, e);
    }
  }

  lemma NoHops(c: Concat, t: Pos)
    requires IsSum(c) && Valid(c, t)
    ensures t == []
  {
    assert t != [] ==> HasChild(c, t[0]);
    assert t != [] ==> IsTerm(c.parts[t[0].part]);
  }

  lemma FlatTarget(o: Members, n: string, x: string)
    requires IsFlat(o)
    ensures Resolve(o, [Name(n)], [RefName(x)]) ==
      if x !in o then Access.Missing else if Primitive(o[x]) then Access.Found(o[x]) else Access.Waiting
  {
    var ref := [RefName(x)];
    assert ref[1..] == [];
    assert ResolvePart(o, [Name(n)], ref[0]) == Known(Name(x));
    assert [Name(x)] + [] == [Name(x)];
    assert ResolveKey(o, [Name(n)], []) == Known([]);
    assert ResolveKey(o, [Name(n)], ref) == Known([Name(x)]);
    var none: Key := [Name(n)][..0];
    assert none == [] && none + [Name(x)] == [Name(x)];
    assert [Name(x)][1..] == [];
  }

  /** A sum that is ready is one number. */
  lemma ReadySum(c: Concat)
    requires IsSum(c)
    ensures Primitive(c) <==> |c.parts| == 1 && IsNumber(c.parts[0])
  {
    assert IsTerm(c.parts[0]);
  }

  /** A copied number stands for the member that it was copied from. */
  lemma CopyRefines(env: string -> Meaning, ps: seq<Entry>, i: nat, x: string, e: Entry)
    requires (forall j | 0 <= j < |ps| :: IsTerm(ps[j])) && i < |ps| && ps[i] == Reference([RefName(x)])
    requires IsTerm(e) && IsNumber(e) && Agree(Terms(env, [e]), env(x))
    ensures Refines(env, ps, ps[i := e])
  {
    hide Terms, IsTerm, Agree, Plus;
    var a, b, qs := ps[..i], ps[i + 1..], ps[i := e];
    assert ps == a + ([ps[i]] + b) && qs == a + ([e] + b);
    TermsSplit(env, a, [ps[i]] + b);
    TermsSplit(env, [ps[i]], b);
    TermsSplit(env, a, [e] + b);
    TermsSplit(env, [e], b);
    ReferenceTerm(env, ps[i], x);
    AgreeReflexive(Terms(env, a));
    AgreeReflexive(Terms(env, b));
    AgreeTransitive(Terms(env, [e]), env(x), Terms(env, [ps[i]])) by { AgreeSymmetric(Terms(env, [ps[i]]), env(x)); }
    AgreePlus(Terms(env, [e]), Terms(env, b), Terms(env, [ps[i]]), Terms(env, b));
    AgreePlus(Terms(env, a), Plus(Terms(env, [e]), Terms(env, b)), Terms(env, a), Plus(Terms(env, [ps[i]]), Terms(env, b)));
    forall y | Mentions(qs, y) ensures Mentions(ps, y) {
      var j :| 0 <= j < |qs| && qs[j] == Reference([RefName(y)]);
      assert ps[j] == qs[j];
    }
  }

  lemma ReferenceTerm(env: string -> Meaning, e: Entry, x: string)
    requires e == Reference([RefName(x)])
    ensures Agree(Terms(env, [e]), env(x))
  {
    OneTerm(env, e);
  }

  lemma AgreeReflexive(a: Meaning)
    ensures Agree(a, a)
  {
  }

  lemma AgreeSymmetric(a: Meaning, b: Meaning)
    requires Agree(a, b)
    ensures Agree(b, a)
  {
  }

  /** The meaning of a member is what its sum means in the first tree. */
  lemma MemberMeaning(m: Members, n: string)
    requires n in m && IsFlat(m)
    ensures Agree(Terms(Env(m), m[n].parts), Env(m)(n))
  {
    hide EvaluateTerms, Terms;
    if Env(m)(n).Solved? {
      SolvedIsSum(m, n);
    } else {
      hide Env;
      var ns := StuckNext(m, n);
      MentionedStuck(Env(m), m[n].parts, ns);
    }
  }

  /** A stuck member mentions a stuck name. */
  lemma StuckNext(m: Members, n: string) returns (x: string)
    requires IsFlat(m) && n in m && Env(m)(n).Stuck?
    ensures Mentions(m[n].parts, x) && Env(m)(x).Stuck?
  {
    hide Env, Mentions;
    StuckMeansDeadEnd(m, n);
    var ns :| Chain(m, ns) && ns[0] == n && DeadEnd(m, ns);
    x := ns[1];
    NextIsStuck(m, ns);
  }

  /** The second name of a chain with a dead end begins a chain with a dead end as well. */
  lemma NextIsStuck(m: Members, ns: seq<string>)
    requires IsFlat(m) && Chain(m, ns) && |ns| > 1 && DeadEnd(m, ns)
    ensures Env(m)(ns[1]).Stuck?
  {
    hide Env, Mentions;
    var l, t := |ns| - 1, ns[1..];
    assert forall i | 0 <= i < |t| :: t[i] == ns[i + 1];
    StuckMeansDeadEnd(m, ns[1]);
    if ns[l] in m && forall i | 0 < i < l :: ns[i] != ns[l] {
      assert ns[0] == ns[l];
      var round := t + [ns[1]];
      assert forall i | 0 <= i < |round| - 1 :: round[i] == ns[i + 1];
      assert Mentions(m[ns[0]].parts, ns[1]);
      assert Chain(m, round) && round[0] == ns[1] && round[0] == round[|round| - 1];
      assert DeadEnd(m, round);
    } else {
      assert Chain(m, t) && t[0] == ns[1];
      if i :| 0 < i < l && ns[i] == ns[l] { assert t[i - 1] == t[l - 1]; }
      assert DeadEnd(m, t);
    }
  }

  lemma {:induction false} MentionedStuck(env: string -> Meaning, ps: seq<Entry>, x: string)
    requires Mentions(ps, x) && env(x).Stuck?
    ensures Terms(env, ps).Stuck?
    decreases |ps|
  {
    var i :| 0 <= i < |ps| && ps[i] == Reference([RefName(x)]);
    if i > 0 {
      assert ps[1..][i - 1] == ps[i];
      MentionedStuck(env, ps[1..], x);
    }
  }

  lemma VisitKeeps(m: Members, o: Members, s: Site)
    requires IsFlat(m) && Keeps(m, o) && Live(Root(o), s)
    ensures Visit(Root(o), s).Ok? && IsRoot(Visit(Root(o), s).value)
    ensures Visit(Root(o), s).value == Root(MembersOf(Visit(Root(o), s).value))
    ensures Keeps(m, MembersOf(Visit(Root(o), s).value))
  {
    hide Live, Env, Terms, Mentions, Resolve, Primitive, Replace;
    var n, x := FlatSite(o, s);
    FlatTarget(o, n, x);
    assert MembersOf(Root(o)) == o;
    if x in o && Primitive(o[x]) {
      assert IsSum(o[x]);
      ReadySum(o[x]);
      var e := o[x].parts[0];
      assert o[x].parts == [e] && IsTerm(e);
      MemberMeaning(m, x);
      AgreeTransitive(Terms(Env(m), [e]), Terms(Env(m), m[x].parts), Env(m)(x));
      var q := o[n := o[n].(parts := o[n].parts[s.part := e])];
      CopyKeeps(m, o, n, s.part, x, e);
      assert Visit(Root(o), s) == Ok(Root(q)) && MembersOf(Root(q)) == q;
    }
  }

  lemma CopyKeeps(m: Members, o: Members, n: string, i: nat, x: string, e: Entry)
    requires Keeps(m, o) && n in o && i < |o[n].parts| && o[n].parts[i] == Reference([RefName(x)])
    requires IsTerm(e) && IsNumber(e) && Agree(Terms(Env(m), [e]), Env(m)(x))
    ensures Keeps(m, o[n := o[n].(parts := o[n].parts[i := e])])
  {
    hide Env, Terms, Mentions, Refines;
    var q := o[n := o[n].(parts := o[n].parts[i := e])];
    assert IsSum(o[n]);
    CopyRefines(Env(m), o[n].parts, i, x, e);
    forall y | y in o ensures Refines(Env(m), o[y].parts, q[y].parts) {
      assert IsSum(o[y]);
      if y != n { SameRefines(Env(m), o[y].parts); }
    }
    RefinedIsKept(m, o, q);
  }

  lemma SameRefines(env: string -> Meaning, ps: seq<Entry>)
    requires ps != [] && forall i | 0 <= i < |ps| :: IsTerm(ps[i])
    ensures Refines(env, ps, ps)
  {
    AgreeReflexive(Terms(env, ps));
  }

  lemma {:induction false} VisitsKeep(m: Members, o: Members, sites: seq<Site>)
    requires IsFlat(m) && Keeps(m, o) && AllLive(Root(o), sites)
    ensures VisitAll(Root(o), sites).Ok? && IsRoot(VisitAll(Root(o), sites).value)
    ensures Keeps(m, MembersOf(VisitAll(Root(o), sites).value))
    decreases |sites|
  {
    hide Visit, Live, Keeps, IsFlat;
    assert MembersOf(Root(o)) == o;
    if sites != [] {
      VisitKeeps(m, o, sites[0]);
      VisitKeepsLive(Root(o), sites);
      VisitsKeep(m, MembersOf(Visit(Root(o), sites[0]).value), sites[1..]);
    }
  }

  lemma CopiesKeep(m: Members, o: Members, fm: Functions.FunctionMap)
    requires IsFlat(m) && Keeps(m, o)
    ensures RunPass(CopyTargets, fm, o).Ok? && Keeps(m, RunPass(CopyTargets, fm, o).value)
  {
    hide VisitAll, SitesOf, Live, Keeps, IsFlat;
    SitesAreTheReferences(Root(o));
    VisitsKeep(m, o, SitesOf(Root(o)));
  }

  /** When the pass has nothing left to copy, no reference leads to a member that is ready. */
  lemma CopiesBlocked(o: Members, fm: Functions.FunctionMap, n: string, x: string)
    requires IsFlat(o) && RunPass(CopyTargets, fm, o) == Ok(o)
    requires n in o && Mentions(o[n].parts, x)
    ensures x in o ==> !Primitive(o[x])
  {
    hide VisitAll, SitesOf, Primitive, Resolve;
    var i :| 0 <= i < |o[n].parts| && o[n].parts[i] == Reference([RefName(x)]);
    var r, s := Root(o), Site([ToMember(0, n)], i);
    Everything.ReferencesAdvance(o);
    assert VisitAll(r, SitesOf(r)) == Ok(r);
    SitesAreTheReferences(r);
    Copying.UnchangedMeansBlocked(r, SitesOf(r));
    MemberSite(o, n, i);
    assert s in SitesOf(r) && Visit(r, s) == Ok(r);
    if x in o && Primitive(o[x]) { ReadyIsCopied(o, n, i, x); }
  }

  lemma ReadyIsCopied(o: Members, n: string, i: nat, x: string)
    requires IsFlat(o) && n in o && i < |o[n].parts| && o[n].parts[i] == Reference([RefName(x)])
    requires x in o && Primitive(o[x])
    ensures Live(Root(o), Site([ToMember(0, n)], i))
    ensures Visit(Root(o), Site([ToMember(0, n)], i)) != Ok(Root(o))
  {
    hide Primitive, Resolve;
    var r, s := Root(o), Site([ToMember(0, n)], i);
    MemberSite(o, n, i);
    var y, z := FlatSite(o, s);
    FlatTarget(o, n, x);
    assert IsSum(o[x]) && MembersOf(r) == o;
    ReadySum(o[x]);
    var e := o[x].parts[0];
    var q := o[n := o[n].(parts := o[n].parts[i := e])];
    assert Visit(r, s) == Ok(Root(q));
    assert q[n].parts[i] != o[n].parts[i];
    assert Root(q).parts[0].members == q && r.parts[0].members == o;
  }

  lemma MemberSite(o: Members, n: string, i: nat)
    requires n in o && i < |o[n].parts| && o[n].parts[i].Reference?
    ensures Live(Root(o), Site([ToMember(0, n)], i))
  {
    var r, pos := Root(o), [ToMember(0, n)];
    assert pos[1..] == [] && HasChild(r, pos[0]) && Child(r, pos[0]) == o[n];
    assert Valid(o[n], []) && Get(o[n], []) == o[n];
    assert Valid(r, pos) && Get(r, pos) == o[n];
  }

  // ---- Whole runs ----------------------------------------------------------------------------

  lemma PassKeeps(m: Members, o: Members, k: PassKind, fm: Functions.FunctionMap)
    requires IsFlat(m) && Keeps(m, o)
    ensures RunPass(k, fm, o).Ok? && Keeps(m, RunPass(k, fm, o).value)
  {
    hide RunPass;
    match k {
      case CallFunctions => CallsKeep(fm, o);
      case AddUp => AddUpKeeps(m, o, fm);
      case CopyTargets => CopiesKeep(m, o, fm);
      case ExpandStars => StarsKeep(fm, o);
    }
  }

  lemma {:induction false} PassesKeep(m: Members, o: Members, ks: seq<PassKind>, fm: Functions.FunctionMap)
    requires IsFlat(m) && Keeps(m, o)
    ensures RunPasses(ks, fm, o).Ok? && Keeps(m, RunPasses(ks, fm, o).value)
    decreases |ks|
  {
    hide RunPass, Keeps;
    if ks != [] {
      PassKeeps(m, o, ks[0], fm);
      PassesKeep(m, RunPass(ks[0], fm, o).value, ks[1..], fm);
    }
  }

  lemma {:induction false} RoundsKeep(m: Members, ks: seq<PassKind>, fm: Functions.FunctionMap, n: nat)
    requires IsFlat(m)
    ensures Rounds(ks, fm, m, n).Ok? && Keeps(m, Rounds(ks, fm, m, n).value)
  {
    hide RunPasses, Keeps, IsFlat;
    if n > 0 {
      RoundsKeep(m, ks, fm, n - 1);
      PassesKeep(m, Rounds(ks, fm, m, n - 1).value, ks, fm);
    } else {
      KeepsItself(m);
    }
  }

  lemma KeepsItself(m: Members)
    requires IsFlat(m)
    ensures Keeps(m, m)
  {
    forall n | n in m ensures Agree(Terms(Env(m), m[n].parts), Terms(Env(m), m[n].parts)) { AgreeReflexive(Terms(Env(m), m[n].parts)); }
  }

  // ---- The end of a run ----------------------------------------------------------------------

  /** A sum without references that is added up is one number. */
  lemma NumbersAddUp(ps: seq<Entry>)
    requires ps != [] && Collapse(ps) == ps && forall i | 0 <= i < |ps| :: IsNumber(ps[i])
    ensures |ps| == 1
  {
    hide Collapse;
    if |ps| > 1 {
      CollapseLeavesNothing(ps);
      assert !Joinable(ps[0], ps[1]);
      SumOfNumbers(ps[0], ps[1]);
    }
  }

  lemma AgreedNumber(e: Entry, signed: bool, sum: int)
    requires IsTerm(e) && IsNumber(e) && e.Signed? == signed && Unsigned64(NumberOf(e)) == Unsigned64(sum)
    ensures e == Number64(signed, sum)
  {
    if signed {
      SignedWraps(e.i);
      SignedWraps(sum);
      var x, y := Signed64(sum), e.i;
      assert Unsigned64(x) == Unsigned64(y) && -TWO63 <= x < TWO63;
      assert (x - y) % TWO64 == 0 by {
        assert x == TWO64 * (x / TWO64) + x % TWO64 && y == TWO64 * (y / TWO64) + y % TWO64;
        assert x - y == TWO64 * (x / TWO64 - y / TWO64);
      }
    }
  }

  /** The member is one number, its sum modulo 2^64. */
  ghost predicate Computed(c: Concat, v: Meaning) {
    v.Solved? && c.parts == [Number64(v.signed, v.sum)]
  }

  lemma {:induction false} SolvedIsComputed(m: Members, o: Members, fm: Functions.FunctionMap, n: string)
    requires IsFlat(m) && Keeps(m, o) && n in m && Env(m)(n).Solved?
    requires RunPass(CopyTargets, fm, o) == Ok(o) && RunPass(AddUp, fm, o) == Ok(o)
    ensures Computed(o[n], Env(m)(n))
    decreases Env(m)(n).rank
  {
    hide Env, Terms, Mentions, RunPass, IsTerm, Collapse;
    var ps := o[n].parts;
    assert IsSum(o[n]);
    SolvedIsSum(m, n);
    forall i | 0 <= i < |ps| ensures IsNumber(ps[i]) {
      if ps[i].Reference? {
        var x := NamedReference(ps, i);
        SolvedIsSum(m, x);
        SolvedIsComputed(m, o, fm, x);
        assert IsSum(o[x]);
        ReadySum(o[x]);
        CopiesBlocked(o, fm, n, x);
      }
      NumberOrReference(ps[i]);
    }
    AddUpKeeps(m, o, fm);
    NumbersAddUp(ps);
    NumberTerms(Env(m), ps[0]);
    assert ps == [ps[0]];
    AgreedNumber(ps[0], Env(m)(n).signed, Env(m)(n).sum);
  }

  lemma NamedReference(ps: seq<Entry>, i: nat) returns (x: string)
    requires i < |ps| && IsTerm(ps[i]) && ps[i].Reference?
    ensures ps[i] == Reference([RefName(x)]) && Mentions(ps, x)
  {
    x := ps[i].target[0].name;
  }

  lemma NumberOrReference(e: Entry)
    requires IsTerm(e)
    ensures IsNumber(e) <==> !e.Reference?
  {
  }

  lemma {:induction false} NumbersAreSolved(env: string -> Meaning, ps: seq<Entry>)
    requires forall i | 0 <= i < |ps| :: IsNumber(ps[i])
    ensures Terms(env, ps).Solved?
    decreases |ps|
  {
    if ps != [] { NumbersAreSolved(env, ps[1..]); }
  }

  /** A stuck member keeps a reference for ever. */
  lemma StuckIsUnresolved(m: Members, o: Members, n: string)
    requires IsFlat(m) && Keeps(m, o) && n in m && Env(m)(n).Stuck?
    ensures exists i | 0 <= i < |o[n].parts| :: o[n].parts[i].Reference?
  {
    hide Env, Terms, Mentions, IsTerm;
    MemberMeaning(m, n);
    assert IsSum(o[n]);
    forall i | 0 <= i < |o[n].parts| ensures o[n].parts[i].Reference? || IsNumber(o[n].parts[i]) { NumberOrReference(o[n].parts[i]); }
    if forall i | 0 <= i < |o[n].parts| :: IsNumber(o[n].parts[i]) { NumbersAreSolved(Env(m), o[n].parts); }
  }

  lemma {:induction false} FlatFinding(e: Entry, names: seq<string>)
    requires e.Object? && IsFlat(e.members) && forall n | n in names :: n in e.members
    ensures FindMembers(e, names) in {Fine, Problem(ReferenceNotResolved)}
    decreases |names|
  {
    hide IsSum, Find;
    if names != [] {
      assert IsSum(e.members[names[0]]);
      FindIsOfParts(e.members[names[0]]);
      PartsFinding(e.members[names[0]].parts);
      FlatFinding(e, names[1..]);
    }
  }

  lemma FindIsOfParts(c: Concat)
    requires IsSum(c)
    ensures Find(c) == FindParts(c.parts) && forall i | 0 <= i < |c.parts| :: IsTerm(c.parts[i])
  {
  }

  lemma {:induction false} PartsFinding(ps: seq<Entry>)
    requires forall i | 0 <= i < |ps| :: IsTerm(ps[i])
    ensures FindParts(ps) in {Fine, Problem(ReferenceNotResolved)}
    decreases |ps|
  {
    if ps != [] {
      assert IsTerm(ps[0]);
      PartsFinding(ps[1..]);
    }
  }

  /**
   Flat configs are evaluated in dependency order: whatever the order of the passes, no round of
   phase 2 fails, and in the tree in which it ends a member that can be evaluated is one number, the
   sum modulo 2^64, while any other member still holds a reference.  Phase 3 accepts the tree
   when all members can be evaluated and raises the error for unresolved references otherwise.
   */
  lemma FlatConfigsAreEvaluated(ks: seq<PassKind>, fm: Functions.FunctionMap, m: Members, o: Members)
    requires IsFlat(m) && AddUp in ks && CopyTargets in ks && Phase2Ends(ks, fm, m, o)
    ensures forall n: nat :: Rounds(ks, fm, m, n).Ok?
    ensures o.Keys == m.Keys
    ensures forall n | n in m :: Env(m)(n).Solved? ==> Computed(o[n], Env(m)(n))
    ensures forall n | n in m :: Env(m)(n).Stuck? ==> exists i | 0 <= i < |o[n].parts| :: o[n].parts[i].Reference?
    ensures FindEntry(Object(o)) ==
      if forall n | n in m :: Env(m)(n).Solved? then Fine else Problem(ReferenceNotResolved)
  {
    hide Env, Rounds, RunPass, Keeps, IsFlat, FindEntry, Computed;
    forall n: nat ensures Rounds(ks, fm, m, n).Ok? { RoundsKeep(m, ks, fm, n); }
    var i: nat :| Rounds(ks, fm, m, i) == Ok(o);
    RoundsKeep(m, ks, fm, i);
    KeptNames(m, o);
    forall n | n in m && Env(m)(n).Solved? ensures Computed(o[n], Env(m)(n)) { SolvedIsComputed(m, o, fm, n); }
    forall n | n in m && Env(m)(n).Stuck? ensures exists i | 0 <= i < |o[n].parts| :: o[n].parts[i].Reference? {
      StuckIsUnresolved(m, o, n);
    }
    FlatResult(m, o);
  }

  lemma KeptNames(m: Members, o: Members)
    requires Keeps(m, o)
    ensures o.Keys == m.Keys && IsFlat(o)
  {
  }

  lemma FlatResult(m: Members, o: Members)
    requires IsFlat(o) && o.Keys == m.Keys
    requires forall n | n in m :: Env(m)(n).Solved? ==> Computed(o[n], Env(m)(n))
    requires forall n | n in m :: Env(m)(n).Stuck? ==> exists i | 0 <= i < |o[n].parts| :: o[n].parts[i].Reference?
    ensures FindEntry(Object(o)) ==
      if forall n | n in m :: Env(m)(n).Solved? then Fine else Problem(ReferenceNotResolved)
  {
    hide Env, IsFlat, FindMembers, Names.Lists;
    EntryFound(Object(o));
    NamesListed(o.Keys);
    FlatFinding(Object(o), Names.Sorted(o.Keys));
    forall n | n in o ensures Phase3.Resolved(o[n]) <==> Env(m)(n).Solved? {
      if Env(m)(n).Solved? {
        assert Computed(o[n], Env(m)(n));
      } else {
        var i :| 0 <= i < |o[n].parts| && o[n].parts[i].Reference?;
        assert !ResolvedEntry(o[n].parts[i]);
      }
    }
  }
}
