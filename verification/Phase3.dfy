/** Phase 3: what phase 2 could not resolve is an error, what is not wanted is removed. */
module Phase3 {
  import opened Tree
  import opened Names

  predicate Omit(c: Concat) {
    c.implicit || c.temporary || c.parts == []
  }

  /** Phase 2 has left no reference, asterisk or function call in the subtree. */
  predicate Resolved(c: Concat) {
    forall i | 0 <= i < |c.parts| :: ResolvedEntry(c.parts[i])
  }

  predicate ResolvedEntry(e: Entry) {
    match e
    case Array(f, es) => f == "" && forall i | 0 <= i < |es| :: Resolved(es[i])
    case Object(m) => forall n | n in m :: Resolved(m[n])
    case Asterisk(_) => false
    case Reference(_) => false
    case _ => true
  }

  /** The first error in the order in which the phase visits the tree. */
  datatype Finding = Fine | Problem(error: Error)

  function Find(c: Concat): Finding {
    FindParts(c.parts)
  }

  function FindParts(ps: seq<Entry>): Finding {
    if ps == [] then Fine
    else
      var f := FindEntry(ps[0]);
      if f.Fine? then FindParts(ps[1..]) else f
  }

  function FindEntry(e: Entry): Finding
    decreases e, 1
  {
    match e
    case Array(f, es) => if f != "" then Problem(FunctionNotCalled) else FindElements(es)
    case Object(m) => FindMembers(e, Sorted(m.Keys))
    case Asterisk(_) => Problem(AsteriskNotExpanded)
    case Reference(_) => Problem(ReferenceNotResolved)
    case _ => Fine
  }

  function FindElements(es: seq<Concat>): Finding {
    if es == [] then Fine
    else
      var f := Find(es[0]);
      if f.Fine? then FindElements(es[1..]) else f
  }

  function FindMembers(e: Entry, names: seq<string>): Finding
    requires e.Object? && forall n | n in names :: n in e.members
    decreases e, 0, |names|
  {
    if names == [] then Fine
    else
      var f := Find(e.members[names[0]]);
      if f.Fine? then FindMembers(e, names[1..]) else f
  }

  /** The subtree without the omitted members and elements. */
  function Strip(c: Concat): (d: Concat)
    ensures Omit(d) == Omit(c) && |d.parts| == |c.parts|
  {
    c.(parts := seq(|c.parts|, i requires 0 <= i < |c.parts| => StripEntry(c.parts[i])))
  }

  function StripEntry(e: Entry): Entry {
    match e
    case Array(f, es) => Array(f, StripElements(es))
    case Object(m) => Object(map n | n in m && !Omit(m[n]) :: Strip(m[n]))
    case _ => e
  }

  function StripMembers(m: Members): Members {
    map n | n in m && !Omit(m[n]) :: Strip(m[n])
  }

  lemma ObjectStrip(m: Members)
    ensures StripEntry(Object(m)) == Object(StripMembers(m))
  {
  }

  function StripElements(es: seq<Concat>): seq<Concat> {
    if es == [] then []
    else (if Omit(es[0]) then [] else [Strip(es[0])]) + StripElements(es[1..])
  }

  lemma {:induction false} FoundMeansUnresolved(c: Concat)
    ensures Find(c).Fine? <==> Resolved(c)
  {
    hide FindParts, FindEntry, ResolvedEntry;
    PartsFound(c.parts);
    assert Find(c) == FindParts(c.parts);
  }

  lemma {:induction false} PartsFound(ps: seq<Entry>)
    ensures FindParts(ps).Fine? <==> forall i | 0 <= i < |ps| :: ResolvedEntry(ps[i])
  {
    hide FindEntry, ResolvedEntry;
    if ps != [] {
      EntryFound(ps[0]);
      PartsFound(ps[1..]);
      assert forall i | 1 <= i < |ps| :: ps[i] == ps[1..][i - 1];
    }
  }

  lemma {:induction false} EntryFound(e: Entry)
    ensures FindEntry(e).Fine? <==> ResolvedEntry(e)
    decreases e, 1
  {
    match e {
      case Array(f, es) =>
        hide FindElements, Resolved;
        ElementsFound(es);
        assert f == "" ==> FindEntry(e) == FindElements(es);
      case Object(m) =>
        hide FindMembers, Resolved;
        MembersFound(e, Sorted(m.Keys));
        assert FindEntry(e) == FindMembers(e, Sorted(m.Keys));
      case _ =>
    }
  }

  lemma {:induction false} ElementsFound(es: seq<Concat>)
    ensures FindElements(es).Fine? <==> forall i | 0 <= i < |es| :: Resolved(es[i])
  {
    hide Find, Resolved;
    if es != [] {
      FoundMeansUnresolved(es[0]);
      ElementsFound(es[1..]);
      assert forall i | 1 <= i < |es| :: es[i] == es[1..][i - 1];
    }
  }

  lemma {:induction false} MembersFound(e: Entry, names: seq<string>)
    requires e.Object? && forall n | n in names :: n in e.members
    ensures FindMembers(e, names).Fine? <==> forall n | n in names :: Resolved(e.members[n])
    decreases e, 0, |names|
  {
    hide Find, Resolved;
    if names != [] {
      FoundMeansUnresolved(e.members[names[0]]);
      MembersFound(e, names[1..]);
    }
  }

  lemma {:induction false} PrimitiveIsResolved(c: Concat)
    requires Primitive(c)
    ensures Resolved(c)
  {
    hide PrimitiveEntry, ResolvedEntry;
    forall i | 0 <= i < |c.parts| ensures ResolvedEntry(c.parts[i]) { PrimitiveEntryIsResolved(c.parts[i]); }
  }

  lemma {:induction false} PrimitiveEntryIsResolved(e: Entry)
    requires PrimitiveEntry(e)
    ensures ResolvedEntry(e)
  {
    hide Primitive, Resolved;
    match e {
      case Array(_, es) => forall i | 0 <= i < |es| ensures Resolved(es[i]) { PrimitiveIsResolved(es[i]); }
      case Object(m) => forall n | n in m ensures Resolved(m[n]) { PrimitiveIsResolved(m[n]); }
      case _ =>
    }
  }

  // ---- Which error ---------------------------------------------------------------------------

  /** The errors of all that is left over, in the order of the text; a call hides its arguments. */
  function Problems(c: Concat): seq<Error> {
    ProblemsOf(c.parts)
  }

  function ProblemsOf(ps: seq<Entry>): seq<Error> {
    if ps == [] then [] else ProblemsIn(ps[0]) + ProblemsOf(ps[1..])
  }

  function ProblemsIn(e: Entry): seq<Error>
    decreases e, 1
  {
    match e
    case Array(f, es) => if f != "" then [FunctionNotCalled] else ProblemsAmong(es)
    case Object(m) => ProblemsUnder(e, Sorted(m.Keys))
    case Asterisk(_) => [AsteriskNotExpanded]
    case Reference(_) => [ReferenceNotResolved]
    case _ => []
  }

  function ProblemsAmong(es: seq<Concat>): seq<Error> {
    if es == [] then [] else Problems(es[0]) + ProblemsAmong(es[1..])
  }

  function ProblemsUnder(e: Entry, names: seq<string>): seq<Error>
    requires e.Object? && forall n | n in names :: n in e.members
    decreases e, 0, |names|
  {
    if names == [] then [] else Problems(e.members[names[0]]) + ProblemsUnder(e, names[1..])
  }

  function FirstOf(xs: seq<Error>): Finding {
    if xs == [] then Fine else Problem(xs[0])
  }

  /** The error that is raised is the first one. */
  lemma {:induction false} FoundIsFirst(c: Concat)
    ensures Find(c) == FirstOf(Problems(c))
  {
    hide FindParts, ProblemsOf;
    PartsFirst(c.parts);
    assert Find(c) == FindParts(c.parts) && Problems(c) == ProblemsOf(c.parts);
  }

  lemma {:induction false} PartsFirst(ps: seq<Entry>)
    ensures FindParts(ps) == FirstOf(ProblemsOf(ps))
  {
    hide FindEntry, ProblemsIn;
    if ps != [] {
      EntryFirst(ps[0]);
      PartsFirst(ps[1..]);
    }
  }

  lemma {:induction false} EntryFirst(e: Entry)
    ensures FindEntry(e) == FirstOf(ProblemsIn(e))
    decreases e, 1
  {
    match e {
      case Array(f, es) =>
        hide FindElements, ProblemsAmong;
        ElementsFirst(es);
      case Object(m) =>
        hide FindMembers, ProblemsUnder;
        MembersFirst(e, Sorted(m.Keys));
      case _ =>
    }
  }

  lemma {:induction false} ElementsFirst(es: seq<Concat>)
    ensures FindElements(es) == FirstOf(ProblemsAmong(es))
  {
    hide Find, Problems;
    if es != [] {
      FoundIsFirst(es[0]);
      ElementsFirst(es[1..]);
    }
  }

  lemma {:induction false} MembersFirst(e: Entry, names: seq<string>)
    requires e.Object? && forall n | n in names :: n in e.members
    ensures FindMembers(e, names) == FirstOf(ProblemsUnder(e, names))
    decreases e, 0, |names|
  {
    hide Find, Problems;
    if names != [] {
      FoundIsFirst(e.members[names[0]]);
      MembersFirst(e, names[1..]);
    }
  }

  // ---- The phase in place --------------------------------------------------------------------

  function Result3<T>(f: Finding, x: T): Result<T> {
    if f.Fine? then Ok(x) else Err(f.error)
  }

  lemma {:induction false} StripAppend(a: seq<Concat>, b: seq<Concat>)
    ensures StripElements(a + b) == StripElements(a) + StripElements(b)
    decreases |a|
  {
    hide Strip, Omit;
    if a == [] {
      assert a + b == b;
    } else {
      assert (a + b)[1..] == a[1..] + b;
      StripAppend(a[1..], b);
    }
  }

  lemma StripNext(es: seq<Concat>, k: nat)
    requires k < |es|
    ensures StripElements(es[..k + 1]) == StripElements(es[..k]) + (if Omit(es[k]) then [] else [Strip(es[k])])
  {
    hide Strip, Omit;
    assert es[..k + 1] == es[..k] + [es[k]];
    StripAppend(es[..k], [es[k]]);
    assert [es[k]][1..] == [];
  }

  method RemoveConcat(c: Concat) returns (r: Result<Concat>)
    ensures r == Result3(Find(c), Strip(c))
    decreases c, 2
  {
    hide FindEntry, StripEntry;
    var ps := c.parts;
    assert c.parts[0..] == c.parts;
    for i := 0 to |ps|
      invariant |ps| == |c.parts|
      invariant Find(c) == FindParts(c.parts[i..])
      invariant forall j | 0 <= j < |ps| :: ps[j] == if j < i then StripEntry(c.parts[j]) else c.parts[j]
    {
      assert c.parts[i..][0] == c.parts[i] && c.parts[i..][1..] == c.parts[i + 1..];
      var e := RemoveEntry(ps[i]);
      if e.Err? { return Err(e.error); }
      ps := ps[i := e.value];
    }
    assert c.parts[|ps|..] == [];
    assert ps == Strip(c).parts;
    r := Ok(c.(parts := ps));
  }

  method RemoveEntry(e: Entry) returns (r: Result<Entry>)
    ensures r == Result3(FindEntry(e), StripEntry(e))
    decreases e, 1
  {
    hide FindElements, FindMembers, StripElements, Strip, StripMembers, Sorted, Find;
    match e {
      case Array(f, es) =>
        if f != "" { return Err(FunctionNotCalled); }
        var d := RemoveElements(e);
        r := if d.Ok? then Ok(Array(f, d.value)) else Err(d.error);
      case Object(m) =>
        var d := RemoveMembers(e);
        ObjectStrip(m);
        r := if d.Ok? then Ok(Object(d.value)) else Err(d.error);
      case Asterisk(_) => r := Err(AsteriskNotExpanded);
      case Reference(_) => r := Err(ReferenceNotResolved);
      case _ => r := Ok(e);
    }
  }

  /** The loop that erases while it goes on; `k` counts the elements it has looked at. */
  method RemoveElements(e: Entry) returns (r: Result<seq<Concat>>)
    requires e.Array?
    ensures r == Result3(FindElements(e.elements), StripElements(e.elements))
    decreases e, 0
  {
    hide Strip, Omit, Find, StripElements, FindElements;
    var es, i := e.elements, 0;
    ghost var k, all := 0, e.elements;
    NothingStripped(all[..0]);
    assert all[0..] == all && es == [] + all[0..];
    while i < |es|
      invariant 0 <= k <= |all| && i == |StripElements(all[..k])|
      invariant es == StripElements(all[..k]) + all[k..]
      invariant FindElements(all) == FindElements(all[k..])
      decreases |all| - k
    {
      ghost var before, rest := StripElements(all[..k]), all[k + 1..];
      assert es[i] == all[k] && es[..i] == before && es[i + 1..] == rest;
      FindNext(all, k);
      StripNext(all, k);
      var d := RemoveConcat(es[i]);
      if d.Err? { return Err(d.error); }
      es := es[i := d.value];
      assert es[..i] == before && es[i + 1..] == rest;
      if Omit(es[i]) {
        es := es[..i] + es[i + 1..];
        assert es == before + [] + rest;
      } else {
        assert es == before + [d.value] + rest;
        i := i + 1;
      }
      k := k + 1;
    }
    FindNext(all, k);
    assert all[..k] == all && es == StripElements(all);
    r := Ok(es);
  }

  lemma FindNext(es: seq<Concat>, k: nat)
    requires k <= |es|
    ensures k == |es| ==> FindElements(es[k..]) == Fine
    ensures k < |es| ==> FindElements(es[k..]) == if Find(es[k]).Fine? then FindElements(es[k + 1..]) else Find(es[k])
  {
    hide Find;
    if k < |es| { assert es[k..][1..] == es[k + 1..]; }
  }

  lemma NothingStripped(es: seq<Concat>)
    requires es == []
    ensures StripElements(es) == []
  {
  }

  /** What the loop over the members has left, with the names `todo` still to look at. */
  ghost predicate Removing(m: Members, o: Members, todo: seq<string>) {
    && (forall n | n in todo :: n in m)
    && (forall i, j | 0 <= i < j < |todo| :: todo[i] != todo[j])
    && (forall n :: n in o <==> n in m && (n in todo || !Omit(m[n])))
    && (forall n | n in o :: o[n] == if n in todo then m[n] else Strip(m[n]))
  }

  lemma RemovingNext(m: Members, o: Members, todo: seq<string>)
    requires Removing(m, o, todo) && todo != []
    ensures var n := todo[0];
      && n in o && o[n] == m[n] && (forall x | x in todo[1..] :: x in m)
      && Removing(m, if Omit(m[n]) then o - {n} else o[n := Strip(m[n])], todo[1..])
  {
    hide Strip, Omit;
    var n := todo[0];
    assert n !in todo[1..] && forall x | x in todo :: x == n || x in todo[1..];
  }

  lemma FindStep(e: Entry, names: seq<string>)
    requires e.Object? && forall n | n in names :: n in e.members
    ensures names == [] ==> FindMembers(e, names) == Fine
    ensures names != [] ==> FindMembers(e, names) == (var f := Find(e.members[names[0]]); if f.Fine? then FindMembers(e, names[1..]) else f)
  {
    hide Find;
  }

  method RemoveMembers(e: Entry) returns (r: Result<Members>)
    requires e.Object?
    ensures r == Result3(FindMembers(e, Sorted(e.members.Keys)), StripMembers(e.members))
    decreases e, 0
  {
    hide Strip, Omit, Find, FindMembers, Lists, Removing;
    var m, o := e.members, e.members;
    var todo := Sorted(m.Keys);
    SortedDistinct(m.Keys);
    assert Removing(m, o, todo) by { AllToDo(m, todo); }
    while todo != []
      invariant Removing(m, o, todo) && forall n | n in todo :: n in m
      invariant FindMembers(e, Sorted(m.Keys)) == FindMembers(e, todo)
      decreases |todo|
    {
      var n := todo[0];
      FindStep(e, todo);
      RemovingNext(m, o, todo);
      assert n in todo && n in e.members;
      assert e == Object(m) && o[n] == m[n] && m[n] < e;
      var d := RemoveConcat(o[n]);
      if d.Err? { return Err(d.error); }
      assert o[n := d.value] - {n} == o - {n};
      o := o[n := d.value];
      if Omit(o[n]) { o := o - {n}; }
      todo := todo[1..];
    }
    FindStep(e, todo);
    NothingToDo(m, o);
    r := Ok(o);
  }

  lemma AllToDo(m: Members, todo: seq<string>)
    requires (forall n :: n in todo <==> n in m) && forall i, j | 0 <= i < j < |todo| :: todo[i] != todo[j]
    ensures Removing(m, m, todo)
  {
    hide Strip, Omit;
  }

  lemma NothingToDo(m: Members, o: Members)
    requires Removing(m, o, [])
    ensures o == StripMembers(m)
  {
    hide Strip, Omit;
  }
}
