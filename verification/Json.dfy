/** A file that is plain JSON evaluates to the value that it denotes. */
module Json {
  import opened Tree
  import opened Phase1
  import opened Parser
  import opened ParserLaws
  import opened Generations
  import Functions
  import opened Everything
  import opened Phase3
  import opened Phase5
  import opened Pipeline

  /** JSON, with the binary data of JAXN and the three kinds of numbers that the JSON library knows. */
  datatype Json =
    | JNull
    | JBoolean(truth: bool)
    | JString(chars: string)
    | JBinary(bytes: seq<bv8>)
    | JSigned(i: int)
    | JUnsigned(u: nat)
    | JDouble(d: Float)
    | JArray(items: seq<Json>)
    | JObject(fields: seq<Field>)

  datatype Field = Field(name: string, value: Json)

  predicate Atomic(j: Json) {
    !j.JArray? && !j.JObject?
  }

  /** The atom as the parser hands it over. */
  function Leaf(j: Json): Entry
    requires Atomic(j)
  {
    match j
    case JNull => Null
    case JBoolean(b) => Boolean(b)
    case JString(s) => Text(s)
    case JBinary(b) => Binary(b)
    case JSigned(i) => Signed(i)
    case JUnsigned(u) => Unsigned(u)
    case JDouble(d) => Double(d)
  }

  /** The atom as a value of the JSON library. */
  function Content(j: Json): Value
    requires Atomic(j)
  {
    match j
    case JNull => VNull
    case JBoolean(b) => VBoolean(b)
    case JString(s) => VString(s)
    case JBinary(b) => VBinary(b)
    case JSigned(i) => VSigned(i)
    case JUnsigned(u) => VUnsigned(u)
    case JDouble(d) => VDouble(d)
  }

  // ---- JSON as config syntax -----------------------------------------------------------------

  function Single(v: ValuePart): ValueList { Sum([v]) }

  function Part(j: Json): ValuePart {
    match j
    case JArray(js) => ArrayPart(seq(|js|, i requires 0 <= i < |js| => Single(Part(js[i]))))
    case JObject(fs) => ObjectPart(Definitions(fs))
    case _ => AtomPart(Leaf(j))
  }

  function Definitions(fs: seq<Field>): (ms: seq<MemberDef>)
    ensures |ms| == |fs|
  {
    seq(|fs|, i requires 0 <= i < |fs| => Assign([Name(fs[i].name)], Single(Part(fs[i].value))))
  }

  function Lists(js: seq<Json>): (es: seq<ValueList>)
    ensures |es| == |js|
  {
    seq(|js|, i requires 0 <= i < |js| => Single(Part(js[i])))
  }

  lemma ArrayAsPart(js: seq<Json>)
    ensures Part(JArray(js)) == ArrayPart(Lists(js))
  {
    hide Single;
    assert Part(JArray(js)).elements == Lists(js);
  }

  // ---- What JSON denotes ---------------------------------------------------------------------

  function Names(fs: seq<Field>): set<string> {
    set i | 0 <= i < |fs| :: fs[i].name
  }

  /** The last field of a given name. */
  function LastIndex(fs: seq<Field>, n: string): (i: nat)
    requires n in Names(fs)
    ensures i < |fs| && fs[i].name == n
    ensures forall j | i < j < |fs| :: fs[j].name != n
  {
    var last := |fs| - 1;
    if fs[last].name == n then last
    else
      assert n in Names(fs[..last]) by {
        var i :| 0 <= i < |fs| && fs[i].name == n;
        assert fs[..last][i].name == n;
      }
      var i := LastIndex(fs[..last], n);
      assert forall j | i < j < last :: fs[..last][j].name != n;
      i
  }

  function Denotes(k: Key, j: Json): Annotated
    decreases j
  {
    match j
    case JArray(js) => Annotated(k, VArray(seq(|js|, i requires 0 <= i < |js| => Denotes(k + [Index(i)], js[i]))))
    case JObject(fs) => Annotated(k, VObject(map n | n in Names(fs) :: Denotes(k + [Name(n)], fs[LastIndex(fs, n)].value)))
    case _ => Annotated(k, Content(j))
  }

  /** The greatest number of parts in the path of a value inside `j`. */
  function Longest(j: Json): nat {
    match j
    case JArray(js) => if js == [] then 0 else 1 + LongestItem(js)
    case JObject(fs) => if fs == [] then 0 else 1 + LongestField(fs)
    case _ => 0
  }

  function LongestItem(js: seq<Json>): nat {
    if js == [] then 0 else
      var a, b := Longest(js[0]), LongestItem(js[1..]);
      if a < b then b else a
  }

  function LongestField(fs: seq<Field>): nat {
    if fs == [] then 0 else
      var a, b := Longest(fs[0].value), LongestField(fs[1..]);
      if a < b then b else a
  }

  // ---- JSON as a tree ------------------------------------------------------------------------

  /** A concat that holds `j` and nothing else. */
  ghost predicate Holds(c: Concat, j: Json)
    decreases j, 1
  {
    !c.implicit && !c.temporary && |c.parts| == 1 && Is(c.parts[0], j)
  }

  ghost predicate Is(e: Entry, j: Json)
    decreases j, 0
  {
    match j
    case JArray(js) => e.Array? && e.call == "" && |e.elements| == |js| && forall i | 0 <= i < |js| :: Holds(e.elements[i], js[i])
    case JObject(fs) => e.Object? && e.members.Keys == Names(fs) && forall n | n in Names(fs) :: Holds(e.members[n], fs[LastIndex(fs, n)].value)
    case _ => e == Leaf(j)
  }

  /** The members after the first fields. */
  ghost predicate HoldsFields(m: Members, fs: seq<Field>) {
    m.Keys == Names(fs) && forall n | n in Names(fs) :: Holds(m[n], fs[LastIndex(fs, n)].value)
  }

  lemma NextField(m: Members, fs: seq<Field>, f: Field, c: Concat)
    requires HoldsFields(m, fs) && Holds(c, f.value)
    ensures HoldsFields(m[f.name := c], fs + [f])
  {
    hide Holds, Names, LastIndex;
    MoreNames(fs, f);
    forall n | n in Names(fs + [f]) ensures Holds(m[f.name := c][n], (fs + [f])[LastIndex(fs + [f], n)].value) { }
  }

  lemma MoreNames(fs: seq<Field>, f: Field)
    ensures Names(fs + [f]) == Names(fs) + {f.name}
    ensures forall n | n in Names(fs + [f]) :: LastIndex(fs + [f], n) == if n == f.name then |fs| else LastIndex(fs, n)
  {
    hide LastIndex;
    var gs := fs + [f];
    assert gs[|fs|].name == f.name && gs[..|fs|] == fs;
    assert forall i | 0 <= i < |fs| :: gs[i] == fs[i];
    assert Names(gs) == Names(fs) + {f.name};
    forall n | n in Names(gs) ensures LastIndex(gs, n) == if n == f.name then |fs| else LastIndex(fs, n) { LastStep(gs, n); }
  }

  lemma LastStep(gs: seq<Field>, n: string)
    requires n in Names(gs)
    ensures gs[|gs| - 1].name == n ==> LastIndex(gs, n) == |gs| - 1
    ensures gs[|gs| - 1].name != n ==> n in Names(gs[..|gs| - 1]) && LastIndex(gs, n) == LastIndex(gs[..|gs| - 1], n)
  {
  }

  // ---- Phase 1 builds it ---------------------------------------------------------------------

  /** What is known after a part was written into a concat that had none. */
  ghost predicate Built(r: Result<Concat>, c: Concat, j: Json, g: nat) {
    && r.Ok? && |r.value.parts| == 1 && Is(r.value.parts[0], j)
    && r.value.implicit == c.implicit && r.value.temporary == c.temporary
    && r.value.generation <= g
  }

  lemma {:induction false} PartBuilt(c: Concat, g: nat, j: Json)
    requires c.parts == [] && c.generation <= g
    ensures Proper(Part(j))
    ensures Built(BuildPart(c, g, Part(j)), c, j, GenPart(g, Part(j)))
    decreases j, 2
  {
    hide BuildElements, BuildMembers, Is, Proper, GenElements, GenMembers;
    match j {
      case JArray(js) => ArrayBuilt(c, g, j);
      case JObject(fs) => ObjectBuilt(c, g, j);
      case _ => AtomBuilt(c, g, j);
    }
  }

  lemma AtomBuilt(c: Concat, g: nat, j: Json)
    requires Atomic(j) && c.parts == [] && c.generation <= g
    ensures Proper(Part(j))
    ensures Built(BuildPart(c, g, Part(j)), c, j, GenPart(g, Part(j)))
  {
  }

  lemma {:induction false} ArrayBuilt(c: Concat, g: nat, j: Json)
    requires j.JArray? && c.parts == [] && c.generation <= g
    ensures Proper(Part(j))
    ensures Built(BuildPart(c, g, Part(j)), c, j, GenPart(g, Part(j)))
    decreases j, 1
  {
    hide BuildElements, Part, NewElements, LastBegun, Holds, GenElements;
    var js := j.items;
    ArrayAsPart(js);
    var d := EnsureArray(c);
    LiteralAddsItsElements(d, g + 1, Lists(js));
    ItemsBuilt(g + 1, j, 0);
    assert js[0..] == js;
    LastBegunAtMost(d.generation, g + 1, Lists(js));
    assert LastPart(d) == Array("", []);
  }

  lemma {:induction false} LastBegunAtMost(b: nat, g: nat, es: seq<ValueList>)
    requires b <= g
    ensures LastBegun(b, g, es) <= GenElements(g, es)
    decreases |es|
  {
    hide GenList;
    if es != [] {
      ListAdvances(g, es[0]);
      LastBegunAtMost(g, GenList(g, es[0]), es[1..]);
    }
  }

  lemma {:induction false} ItemsBuilt(g: nat, j: Json, k: nat)
    requires j.JArray? && k <= |j.items|
    ensures forall i | k <= i < |j.items| :: ProperList(Lists(j.items)[i])
    ensures var r := NewElements(g, Lists(j.items[k..]));
      r.Ok? && forall i | k <= i < |j.items| :: Holds(r.value[i - k], j.items[i])
    decreases j, 0, |j.items| - k
  {
    hide Is, Part, BuildPart, Proper;
    var js, es := j.items, Lists(j.items[k..]);
    if k < |js| {
      var v := Part(js[k]);
      assert es[0] == Single(v) && es[1..] == Lists(js[k + 1..]);
      PartBuilt(EMPTY, g, js[k]);
      OnePart(EMPTY, g, v);
      ItemsBuilt(GenList(g, es[0]), j, k + 1);
      var r := NewElements(g, es);
      var d, t := BuildList(EMPTY, g, es[0]), NewElements(GenList(g, es[0]), es[1..]);
      assert Holds(d.value, js[k]);
      assert r.value == [d.value] + t.value;
    }
  }

  lemma OnePart(c: Concat, g: nat, v: ValuePart)
    ensures BuildList(c, g, Single(v)) == BuildPart(c, g, v)
    ensures GenList(g, Single(v)) == GenPart(g, v) + 1
  {
    hide BuildPart, GenPart;
    var vs := [v];
    assert vs[0] == v && vs[1..] == [];
    assert BuildList(c, g, Single(v)) == BuildParts(c, g, vs);
    var r := BuildPart(c, g, v);
    if r.Ok? { assert BuildParts(r.value, GenPart(g, v), []) == r; }
    assert GenList(g, Single(v)) == GenParts(g, vs) + 1;
    assert GenParts(GenPart(g, v), []) == GenPart(g, v);
  }

  lemma {:induction false} ObjectBuilt(c: Concat, g: nat, j: Json)
    requires j.JObject? && c.parts == [] && c.generation <= g
    ensures Proper(Part(j))
    ensures Built(BuildPart(c, g, Part(j)), c, j, GenPart(g, Part(j)))
    decreases j, 1
  {
    hide BuildMembers, Definitions, Holds, GenMembers;
    var d := EnsureObject(c);
    FieldsBuilt(d, g, j, 0);
  }

  /** A later definition of a name replaces what an earlier one has left. */
  lemma FieldBuilt(c: Concat, g: nat, fs: seq<Field>, f: Field)
    requires |c.parts| == 1 && c.parts[0].Object? && HoldsFields(c.parts[0].members, fs)
    requires c.parts[0].members.Keys == Names(fs) && forall n | n in Names(fs) :: c.parts[0].members[n].generation <= g
    requires forall d: Concat | d.parts == [] && d.generation <= g ::
      Built(BuildPart(d, g, Part(f.value)), d, f.value, GenPart(g, Part(f.value)))
    ensures var def := Assign([Name(f.name)], Single(Part(f.value)));
      var r := BuildMember(c, g, def);
      && r.Ok? && GenMember(g, def) > g && |r.value.parts| == 1 && r.value.parts[0].Object?
      && HoldsFields(r.value.parts[0].members, fs + [f])
      && r.value == c.(parts := r.value.parts)
      && (forall n | n in r.value.parts[0].members :: r.value.parts[0].members[n].generation <= GenMember(g, def))
  {
    hide Is, BuildPart, Part, GenPart, HoldsFields, BuildList, GenList;
    var n, v, m := f.name, Part(f.value), c.parts[0].members;
    var vl := Single(v);
    ListAdvances(g, vl);
    OnePart(EMPTY, g, v);
    var x := Member(m, n, Implicit).(parts := [], remove := true);
    FieldCleared(c, n);
    var m1 := m[n := x];
    var y := x.(implicit := false);
    assert Member(m1, n, Manifest) == y;
    assert y.generation <= g && !y.temporary by { FieldKept(m, fs, n); }
    OnePart(y, g, v);
    var z := BuildList(y, g, vl);
    assert Built(z, y, f.value, GenPart(g, v));
    FieldWritten(WithLast(c, Object(m1)), n, y, g, vl);
    NextField(m, fs, f, z.value);
    assert m1[n := z.value] == m[n := z.value];
  }

  lemma FieldKept(m: Members, fs: seq<Field>, n: string)
    requires HoldsFields(m, fs)
    ensures n in m ==> !m[n].temporary
  {
    if n in m { assert Holds(m[n], fs[LastIndex(fs, n)].value); }
  }

  lemma FieldCleared(c: Concat, n: string)
    requires |c.parts| == 1 && c.parts[0].Object?
    ensures Focus(c, [Name(n)], DoAssign, Implicit)
         == Ok(WithLast(c, Object(c.parts[0].members[n := Member(c.parts[0].members, n, Implicit).(parts := [], remove := true)])))
  {
    assert [Name(n)][1..] == [];
    var x := Member(c.parts[0].members, n, Implicit);
    assert Focus(x, [], DoAssign, Implicit) == DoAssign(x);
  }

  lemma FieldWritten(c: Concat, n: string, y: Concat, g: nat, vl: ValueList)
    requires |c.parts| == 1 && c.parts[0].Object? && Member(c.parts[0].members, n, Manifest) == y
    requires BuildList(y, g, vl).Ok?
    ensures Focus(c, [Name(n)], z => BuildList(z, g, vl), Manifest)
         == Ok(WithLast(c, Object(c.parts[0].members[n := BuildList(y, g, vl).value])))
  {
    hide BuildList;
    assert [Name(n)][1..] == [];
    assert Focus(y, [], z => BuildList(z, g, vl), Manifest) == BuildList(y, g, vl);
  }

  lemma {:induction false} FieldsBuilt(c: Concat, g: nat, j: Json, k: nat)
    requires j.JObject? && k <= |j.fields|
    requires |c.parts| == 1 && c.parts[0].Object? && HoldsFields(c.parts[0].members, j.fields[..k])
    requires forall n | n in c.parts[0].members :: c.parts[0].members[n].generation <= g
    ensures forall i | k <= i < |j.fields| :: ProperMember(Definitions(j.fields)[i])
    ensures var r := BuildMembers(c, g, Definitions(j.fields[k..]));
      r.Ok? && |r.value.parts| == 1 && Is(r.value.parts[0], j) && r.value == c.(parts := r.value.parts)
    ensures GenMembers(g, Definitions(j.fields[k..])) >= g
    decreases j, 0, |j.fields| - k
  {
    hide BuildPart, Proper, BuildMember, GenMember, LastIndex, Holds, Is, Part, HoldsFields, Built;
    var fs := j.fields;
    var ms := Definitions(fs[k..]);
    if k < |fs| {
      var f := fs[k];
      var v := Part(f.value);
      assert ms[0] == Assign([Name(f.name)], Single(v)) && ms[1..] == Definitions(fs[k + 1..]);
      forall d: Concat | d.parts == [] && d.generation <= g ensures Built(BuildPart(d, g, v), d, f.value, GenPart(g, v)) {
        PartBuilt(d, g, f.value);
      }
      PartBuilt(EMPTY, g, f.value);
      FieldNames(c.parts[0].members, fs[..k]);
      FieldBuilt(c, g, fs[..k], f);
      assert fs[..k] + [f] == fs[..k + 1];
      var r := BuildMember(c, g, ms[0]);
      FieldsBuilt(r.value, GenMember(g, ms[0]), j, k + 1);
    } else {
      assert fs[..k] == fs;
      AllFieldsHeld(c.parts[0].members, j);
    }
  }

  lemma FieldNames(m: Members, fs: seq<Field>)
    requires HoldsFields(m, fs)
    ensures m.Keys == Names(fs)
  {
  }

  lemma AllFieldsHeld(m: Members, j: Json)
    requires j.JObject? && HoldsFields(m, j.fields)
    ensures Is(Object(m), j)
  {
    hide Holds, LastIndex;
  }

  // ---- Phases 2, 3 and 5 leave it as it is ---------------------------------------------------

  lemma {:induction false} HeldIsPrimitive(c: Concat, j: Json)
    requires Holds(c, j)
    ensures Primitive(c) && Resolved(c) && !Omit(c) && Strip(c) == c && Plain(c)
    decreases j, 1
  {
    hide Is, PrimitiveEntry, ResolvedEntry, StripEntry, PlainEntry;
    IsPrimitive(c.parts[0], j);
    assert Strip(c).parts == c.parts;
  }

  lemma {:induction false} IsPrimitive(e: Entry, j: Json)
    requires Is(e, j)
    ensures PrimitiveEntry(e) && ResolvedEntry(e) && StripEntry(e) == e && PlainEntry(e)
    decreases j, 0
  {
    match j {
      case JArray(js) =>
        hide Holds, Primitive, Resolved, Strip, Plain, Omit, StripElements;
        forall i | 0 <= i < |js| ensures Primitive(e.elements[i]) && Resolved(e.elements[i]) && !Omit(e.elements[i]) && Strip(e.elements[i]) == e.elements[i] && Plain(e.elements[i]) {
          HeldIsPrimitive(e.elements[i], js[i]);
        }
        NothingOmitted(e.elements);
      case JObject(fs) =>
        hide Holds, Primitive, Resolved, Strip, Plain, Omit, LastIndex;
        var m := e.members;
        forall n | n in m ensures Primitive(m[n]) && Resolved(m[n]) && !Omit(m[n]) && Strip(m[n]) == m[n] && Plain(m[n]) {
          HeldIsPrimitive(m[n], fs[LastIndex(fs, n)].value);
        }
        ObjectStrip(m);
        assert StripMembers(m) == m;
      case _ =>
    }
  }

  lemma {:induction false} NothingOmitted(es: seq<Concat>)
    requires forall i | 0 <= i < |es| :: !Omit(es[i]) && Strip(es[i]) == es[i]
    ensures StripElements(es) == es
    decreases |es|
  {
    hide Omit, Strip;
    if es != [] {
      assert forall i | 0 <= i < |es[1..]| :: es[1..][i] == es[i + 1];
      NothingOmitted(es[1..]);
      assert es == [es[0]] + es[1..];
    }
  }

  lemma {:induction false} RepackedIsDenoted(k: Key, c: Concat, j: Json)
    requires Holds(c, j) && Plain(c)
    ensures Repack(k, c) == Denotes(k, j)
    decreases j, 1
  {
    hide Is, PlainEntry, RepackEntry, Denotes;
    RepackedEntryIsDenoted(k, c.parts[0], j);
  }

  lemma {:induction false} RepackedEntryIsDenoted(k: Key, e: Entry, j: Json)
    requires Is(e, j) && PlainEntry(e)
    ensures RepackEntry(k, e) == Denotes(k, j)
    decreases j, 0
  {
    match j {
      case JArray(js) =>
        hide Holds, Plain, Repack, Denotes, RepackEntry;
        DenotesArray(k, js);
        PlainElements(e);
        forall i | 0 <= i < |js| ensures Repack(k + [Index(i)], e.elements[i]) == Denotes(k + [Index(i)], js[i]) {
          RepackedIsDenoted(k + [Index(i)], e.elements[i], js[i]);
        }
        RepackedArray(k, e);
        assert RepackEntry(k, e).value.elements == Denotes(k, j).value.elements;
      case JObject(fs) =>
        hide Holds, Plain, Repack, LastIndex, Denotes, RepackEntry;
        DenotesObject(k, fs);
        PlainMembers(e);
        forall n | n in Names(fs) ensures Repack(k + [Name(n)], e.members[n]) == Denotes(k + [Name(n)], fs[LastIndex(fs, n)].value) {
          RepackedIsDenoted(k + [Name(n)], e.members[n], fs[LastIndex(fs, n)].value);
        }
        RepackedObject(k, e);
        assert RepackEntry(k, e).value.members == Denotes(k, j).value.members;
      case _ =>
        hide Is, Denotes, RepackEntry;
        LeafIsDenoted(k, e, j);
    }
  }

  lemma LeafIsDenoted(k: Key, e: Entry, j: Json)
    requires Atomic(j) && Is(e, j)
    ensures PlainEntry(e) && RepackEntry(k, e) == Denotes(k, j)
  {
  }

  lemma PlainElements(e: Entry)
    requires e.Array? && PlainEntry(e)
    ensures forall i | 0 <= i < |e.elements| :: Plain(e.elements[i])
  {
  }

  lemma RepackedArray(k: Key, e: Entry)
    requires e.Array? && PlainEntry(e) && forall i | 0 <= i < |e.elements| :: Plain(e.elements[i])
    ensures var a := RepackEntry(k, e);
      && a.key == k && a.value.VArray? && |a.value.elements| == |e.elements|
      && forall i | 0 <= i < |e.elements| :: a.value.elements[i] == Repack(k + [Index(i)], e.elements[i])
  {
    hide Repack, Plain;
  }

  lemma DenotesArray(k: Key, js: seq<Json>)
    ensures var a := Denotes(k, JArray(js));
      && a.key == k && a.value.VArray? && |a.value.elements| == |js|
      && forall i | 0 <= i < |js| :: a.value.elements[i] == Denotes(k + [Index(i)], js[i])
  {
  }

  lemma PlainMembers(e: Entry)
    requires e.Object? && PlainEntry(e)
    ensures forall n | n in e.members :: Plain(e.members[n])
  {
  }

  lemma RepackedObject(k: Key, e: Entry)
    requires e.Object? && PlainEntry(e) && forall n | n in e.members :: Plain(e.members[n])
    ensures var a := RepackEntry(k, e);
      && a.key == k && a.value.VObject? && a.value.members.Keys == e.members.Keys
      && forall n | n in e.members :: a.value.members[n] == Repack(k + [Name(n)], e.members[n])
  {
    hide Repack, Plain;
  }

  lemma DenotesObject(k: Key, fs: seq<Field>)
    ensures var a := Denotes(k, JObject(fs));
      && a.key == k && a.value.VObject? && a.value.members.Keys == Names(fs)
      && forall n | n in Names(fs) :: a.value.members[n] == Denotes(k + [Name(n)], fs[LastIndex(fs, n)].value)
  {
  }

  // ---- The nesting limit ---------------------------------------------------------------------

  lemma {:induction false} FitsByLength(room: nat, j: Json)
    ensures Fits(room, Part(j)) <==> Longest(j) <= room
    decreases j, 1
  {
    hide Part, Longest, Fits;
    match j {
      case JArray(js) =>
        ArrayAsPart(js);
        ItemsFit(room - 1, j, 0);
        assert js[0..] == js;
        LongestOfArray(js);
        ArrayFits(room, Lists(js));
      case JObject(fs) =>
        FieldsFit(room, j, 0);
        assert fs[0..] == fs;
        LongestOfObject(fs);
        ObjectAsPart(fs);
        ObjectFits(room, Definitions(fs));
      case _ => LeafFits(room, j);
    }
  }

  lemma ArrayFits(room: nat, es: seq<ValueList>)
    ensures Fits(room, ArrayPart(es)) <==> forall i | 0 <= i < |es| :: FitsList(room - 1, es[i])
  {
    hide FitsList;
  }

  lemma ObjectFits(room: nat, ms: seq<MemberDef>)
    ensures Fits(room, ObjectPart(ms)) <==> forall i | 0 <= i < |ms| :: FitsMember(room, ms[i])
  {
    hide FitsMember;
  }

  lemma LeafFits(room: nat, j: Json)
    requires Atomic(j)
    ensures Fits(room, Part(j)) && Longest(j) == 0
  {
  }

  lemma LongestOfArray(js: seq<Json>)
    ensures Longest(JArray(js)) == if js == [] then 0 else 1 + LongestItem(js)
  {
  }

  lemma LongestOfObject(fs: seq<Field>)
    ensures Longest(JObject(fs)) == if fs == [] then 0 else 1 + LongestField(fs)
  {
  }

  lemma ObjectAsPart(fs: seq<Field>)
    ensures Part(JObject(fs)) == ObjectPart(Definitions(fs))
  {
  }

  lemma {:induction false} ItemsFit(room: int, j: Json, k: nat)
    requires j.JArray? && room >= -1 && k <= |j.items|
    ensures (forall i | k <= i < |j.items| :: FitsList(room, Lists(j.items)[i])) <==> k == |j.items| || LongestItem(j.items[k..]) <= room
    decreases j, 0, |j.items| - k
  {
    hide Part, Longest;
    var js := j.items;
    if k < |js| {
      assert js[k..][1..] == js[k + 1..];
      if room >= 0 { FitsByLength(room, js[k]); }
      FitsAlone(room, Part(js[k]));
      assert Lists(js)[k] == Single(Part(js[k]));
      ItemsFit(room, j, k + 1);
      assert (forall i | k <= i < |js| :: FitsList(room, Lists(js)[i])) <==>
        FitsList(room, Lists(js)[k]) && (forall i | k + 1 <= i < |js| :: FitsList(room, Lists(js)[i])) by { hide FitsList, Lists; }
    }
  }

  lemma FitsAlone(room: int, v: ValuePart)
    ensures FitsList(room, Single(v)) <==> room >= 0 && Fits(room, v)
  {
    hide Fits;
    assert Single(v).parts[0] == v;
  }

  lemma {:induction false} FieldsFit(room: nat, j: Json, k: nat)
    requires j.JObject? && k <= |j.fields|
    ensures (forall i | k <= i < |j.fields| :: FitsMember(room, Definitions(j.fields)[i])) <==>
      k == |j.fields| || 1 + LongestField(j.fields[k..]) <= room
    decreases j, 0, |j.fields| - k
  {
    hide Part, Longest, Fits;
    var fs := j.fields;
    if k < |fs| {
      assert fs[k..][1..] == fs[k + 1..];
      var v := Part(fs[k].value);
      if room >= 1 { FitsByLength(room - 1, fs[k].value); }
      FitsAlone(room - 1, v);
      assert Definitions(fs)[k] == Assign([Name(fs[k].name)], Single(v));
      FieldsFit(room, j, k + 1);
      assert (forall i | k <= i < |fs| :: FitsMember(room, Definitions(fs)[i])) <==>
        FitsMember(room, Definitions(fs)[k]) && (forall i | k + 1 <= i < |fs| :: FitsMember(room, Definitions(fs)[i])) by { hide FitsMember, Definitions; }
    }
  }

  // ---- Identity ------------------------------------------------------------------------------

  lemma FileIsHeld(fs: seq<Field>)
    requires Longest(JObject(fs)) <= NESTING_LIMIT
    ensures ProperFile(Definitions(fs)) && FitsFile(Definitions(fs))
    ensures Parse(Definitions(fs)).Ok? && Is(Object(Parse(Definitions(fs)).value.root), JObject(fs))
  {
    hide ExecMembers, BuildMembers, Is, Longest, Fits, Definitions, ProperMember;
    var j := JObject(fs);
    assert fs[0..] == fs && fs[..0] == [];
    FieldsBuilt(Root(map[]), 1, j, 0) by { NoFields(); }
    NamesFirst(fs);
    FitsByLength(NESTING_LIMIT, j);
    ObjectAsPart(fs);
    FitsAsFile(fs);
    FileIsBuiltInPlace(Definitions(fs));
    var c := BuildMembers(Root(map[]), 1, Definitions(fs)).value;
    ObjectIsObject(c.parts[0], j);
    assert c.parts[0] == Object(c.parts[0].members);
  }

  lemma ObjectIsObject(e: Entry, j: Json)
    requires Is(e, j) && j.JObject?
    ensures e.Object?
  {
  }

  lemma NoFields()
    ensures HoldsFields(map[], [])
  {
  }

  lemma NamesFirst(fs: seq<Field>)
    ensures forall i | 0 <= i < |fs| :: Definitions(fs)[i].key == [Name(fs[i].name)]
  {
  }

  lemma FitsAsFile(fs: seq<Field>)
    ensures Fits(NESTING_LIMIT, ObjectPart(Definitions(fs))) <==> FitsFile(Definitions(fs))
  {
    hide Definitions;
  }

  /**
   JSON identity: a file that is a JSON object is rejected exactly when a member path has more
   than 96 parts; otherwise phase 2 changes nothing, whatever its passes, phase 3 accepts the
   tree, and the result is the value of the JSON text with the last of equal names winning.
   */
  lemma JsonIdentity(fs: seq<Field>, ks: seq<PassKind>, fm: Functions.FunctionMap)
    ensures Parse(Definitions(fs)).Ok? <==> Longest(JObject(fs)) <= 96
    ensures Parse(Definitions(fs)).Ok? ==>
      var m := Parse(Definitions(fs)).value.root;
      && Phase2Ends(ks, fm, m, m)
      && (forall o | Phase2Ends(ks, fm, m, o) :: o == m)
      && FindEntry(Object(m)) == Fine && PlainEntry(StripEntry(Object(m)))
      && RepackEntry([], StripEntry(Object(m))) == Denotes([], JObject(fs))
  {
    hide Is, Longest, Fits, Definitions, ExecMembers, StripEntry, FindEntry, PlainEntry, RepackEntry, Denotes, PrimitiveEntry, Rounds;
    var j := JObject(fs);
    if Longest(j) > NESTING_LIMIT {
      ProperDefinitions(j);
      if Parse(Definitions(fs)).Ok? { TooLong(j); }
    } else {
      FileIsHeld(fs);
      var m := Parse(Definitions(fs)).value.root;
      IsPrimitive(Object(m), j);
      Unchanged(ks, fm, m);
      EntryFound(Object(m));
      RepackedEntryIsDenoted([], Object(m), j);
    }
  }

  lemma ProperDefinitions(j: Json)
    requires j.JObject?
    ensures forall i | 0 <= i < |j.fields| :: ProperMember(Definitions(j.fields)[i])
  {
    hide BuildMembers, Is, Definitions;
    assert j.fields[..0] == [];
    NoFields();
    FieldsBuilt(Root(map[]), 1, j, 0);
  }

  lemma TooLong(j: Json)
    requires j.JObject? && Parse(Definitions(j.fields)).Ok?
    requires forall i | 0 <= i < |j.fields| :: ProperMember(Definitions(j.fields)[i])
    ensures Longest(j) <= NESTING_LIMIT
  {
    hide ExecMembers, Longest, Fits, FitsMember, ProperMember, Definitions;
    MembersMustFit(State(map[], 1), [], Definitions(j.fields));
    FitsAsFile(j.fields);
    ObjectAsPart(j.fields);
    FitsByLength(NESTING_LIMIT, j);
  }

  lemma Unchanged(ks: seq<PassKind>, fm: Functions.FunctionMap, m: Members)
    requires PrimitiveEntry(Object(m))
    ensures Phase2Ends(ks, fm, m, m)
    ensures forall o | Phase2Ends(ks, fm, m, o) :: o == m
  {
    hide PrimitiveEntry, Rounds, RunPass;
    RoundsKeepPrimitive(ks, fm, m, 0);
    forall k | k in ks ensures RunPass(k, fm, m) == Ok(m) { PassesKeepPrimitive(k, fm, m); }
    forall o | Phase2Ends(ks, fm, m, o) ensures o == m {
      var n: nat :| Rounds(ks, fm, m, n) == Ok(o);
      RoundsKeepPrimitive(ks, fm, m, n);
    }
  }
}
