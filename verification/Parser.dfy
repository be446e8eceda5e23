/**
 The actions of the parser, from a syntax tree: a state machine that knows only paths from the
 root, and what it builds, seen from the place where it builds.
 */
module Parser {
  import opened Tree
  import opened Phase1

  // ---- Syntax --------------------------------------------------------------------------------

  datatype ValuePart =
    | AtomPart(entry: Entry)
    | ReferencePart(target: seq<RefPart>)
    | ArrayPart(elements: seq<ValueList>)
    | ObjectPart(members: seq<MemberDef>)
    | FunctionPart(name: string, args: seq<ValueList>)

  /** Value parts separated by `+`. */
  datatype ValueList = Sum(parts: seq<ValuePart>)

  datatype MemberDef =
    | Assign(key: Key, value: ValueList)
    | Delete(key: Key)
    | AppendTo(key: Key, value: ValueList)
    | SetTemporary(key: Key, flag: bool)

  /** The grammar allows no empty value list and no empty key; only the parser appends. */
  predicate Proper(v: ValuePart) {
    match v
    case AtomPart(e) => IsAtom(e)
    case ArrayPart(es) => forall i | 0 <= i < |es| :: ProperList(es[i])
    case FunctionPart(_, es) => forall i | 0 <= i < |es| :: ProperList(es[i])
    case ObjectPart(ms) => forall i | 0 <= i < |ms| :: ProperMember(ms[i])
    case _ => true
  }

  predicate ProperList(vl: ValueList) {
    vl.parts != [] && forall i | 0 <= i < |vl.parts| :: Proper(vl.parts[i])
  }

  predicate Written(k: Key) {
    forall i | 0 <= i < |k| :: !k[i].Append?
  }

  predicate ProperMember(d: MemberDef) {
    d.key != [] && Written(d.key) && (d.Assign? || d.AppendTo? ==> ProperList(d.value))
  }

  // ---- What the actions do with the concat at the end of the path -----------------------------

  const DoAssign: Step := (c: Concat) => Ok(c.(parts := [], remove := true))

  const DoArray: Step := (c: Concat) => Ok(EnsureArray(c))

  const DoObject: Step := (c: Concat) => Ok(EnsureObject(c))

  function DoFunction(name: string): Step {
    (c: Concat) => Ok(var d := EnsureArray(c); WithLast(d, Array(name, LastPart(d).elements)))
  }

  function DoEmplace(e: Entry): Step {
    (c: Concat) => Ok(c.(parts := c.parts + [e]))
  }

  function DoTemporary(flag: bool): Step {
    (c: Concat) => Ok(c.(temporary := flag))
  }

  // ---- The state machine as functions --------------------------------------------------------

  datatype State = State(root: Members, generation: nat)

  function Write(st: State, p: Key, f: Step, mode: Mode): Result<State> {
    var r := FocusRoot(st.root, p, f, mode);
    if r.Ok? then Ok(st.(root := r.value)) else Err(r.error)
  }

  /** All parts of a value list at the path `p`; a completed list starts a new generation. */
  function ExecList(st: State, p: Key, vl: ValueList): Result<State>
    decreases vl, 1
  {
    var r := ExecParts(st, p, vl.parts);
    if r.Ok? then Ok(r.value.(generation := r.value.generation + 1)) else r
  }

  function ExecParts(st: State, p: Key, vs: seq<ValuePart>): Result<State>
    decreases vs, 0
  {
    if vs == [] then Ok(st)
    else
      var r := ExecPart(st, p, vs[0]);
      if r.Ok? then ExecParts(r.value, p, vs[1..]) else r
  }

  function ExecPart(st: State, p: Key, v: ValuePart): Result<State>
    decreases v, 0
  {
    match v
    case AtomPart(e) => Write(st, p, DoEmplace(e), Manifest)
    case ReferencePart(r) => Write(st, p, DoEmplace(Reference(r)), Manifest)
    case ArrayPart(es) =>
      var r := Write(st, p, DoArray, Manifest);
      if r.Ok? then ExecElements(r.value.(generation := r.value.generation + 1), p, es) else r
    case FunctionPart(n, es) =>
      var r := Write(st, p, DoFunction(n), Manifest);
      if r.Ok? then ExecElements(r.value.(generation := r.value.generation + 1), p, es) else r
    case ObjectPart(ms) =>
      var r := Write(st, p, DoObject, Manifest);
      if r.Ok? then ExecMembers(r.value, p, ms) else r
  }

  /** Every element is written along a path that ends with the current generation. */
  function ExecElements(st: State, p: Key, es: seq<ValueList>): Result<State>
    decreases es, 0
  {
    if es == [] then Ok(st)
    else
      var r := ExecList(st, p + [Append(st.generation)], es[0]);
      if r.Ok? then ExecElements(r.value, p, es[1..]) else r
  }

  function ExecMembers(st: State, p: Key, ms: seq<MemberDef>): Result<State>
    decreases ms, 0
  {
    if ms == [] then Ok(st)
    else
      var r := ExecMember(st, p, ms[0]);
      if r.Ok? then ExecMembers(r.value, p, ms[1..]) else r
  }

  function ExecMember(st: State, p: Key, d: MemberDef): Result<State>
    decreases d, 0
  {
    match d
    case Assign(k, vl) =>
      var r := Write(st, p + k, DoAssign, Implicit);
      if r.Ok? then ExecList(r.value, p + k, vl) else r
    case Delete(k) => Write(st, p + k, DoAssign, Implicit)
    case AppendTo(k, vl) => ExecList(st, p + k, vl)
    case SetTemporary(k, flag) => Write(st, p + k, DoTemporary(flag), Implicit)
  }

  // ---- The generation counter depends on the syntax alone ------------------------------------

  function GenList(g: nat, vl: ValueList): nat
    decreases vl, 1
  {
    GenParts(g, vl.parts) + 1
  }

  function GenParts(g: nat, vs: seq<ValuePart>): nat
    decreases vs, 0
  {
    if vs == [] then g else GenParts(GenPart(g, vs[0]), vs[1..])
  }

  function GenPart(g: nat, v: ValuePart): nat
    decreases v, 0
  {
    match v
    case ArrayPart(es) => GenElements(g + 1, es)
    case FunctionPart(_, es) => GenElements(g + 1, es)
    case ObjectPart(ms) => GenMembers(g, ms)
    case _ => g
  }

  function GenElements(g: nat, es: seq<ValueList>): nat
    decreases es, 0
  {
    if es == [] then g else GenElements(GenList(g, es[0]), es[1..])
  }

  function GenMembers(g: nat, ms: seq<MemberDef>): nat
    decreases ms, 0
  {
    if ms == [] then g else GenMembers(GenMember(g, ms[0]), ms[1..])
  }

  function GenMember(g: nat, d: MemberDef): nat
    decreases d, 0
  {
    if d.Assign? || d.AppendTo? then GenList(g, d.value) else g
  }

  // ---- The same, seen from the concat that is being built ------------------------------------

  function BuildList(c: Concat, g: nat, vl: ValueList): Result<Concat>
    decreases vl, 1
  {
    BuildParts(c, g, vl.parts)
  }

  function BuildParts(c: Concat, g: nat, vs: seq<ValuePart>): Result<Concat>
    decreases vs, 0
  {
    if vs == [] then Ok(c)
    else
      var r := BuildPart(c, g, vs[0]);
      if r.Ok? then BuildParts(r.value, GenPart(g, vs[0]), vs[1..]) else r
  }

  function BuildPart(c: Concat, g: nat, v: ValuePart): Result<Concat>
    decreases v, 0
  {
    match v
    case AtomPart(e) => DoEmplace(e)(c)
    case ReferencePart(r) => DoEmplace(Reference(r))(c)
    case ArrayPart(es) => BuildElements(EnsureArray(c), g + 1, es)
    case FunctionPart(n, es) => BuildElements(DoFunction(n)(c).value, g + 1, es)
    case ObjectPart(ms) => BuildMembers(EnsureObject(c), g, ms)
  }

  function BuildElements(c: Concat, g: nat, es: seq<ValueList>): Result<Concat>
    decreases es, 0
  {
    if es == [] then Ok(c)
    else
      var r := Focus(c, [Append(g)], x => BuildList(x, g, es[0]), Manifest);
      if r.Ok? then BuildElements(r.value, GenList(g, es[0]), es[1..]) else r
  }

  function BuildMembers(c: Concat, g: nat, ms: seq<MemberDef>): Result<Concat>
    decreases ms, 0
  {
    if ms == [] then Ok(c)
    else
      var r := BuildMember(c, g, ms[0]);
      if r.Ok? then BuildMembers(r.value, GenMember(g, ms[0]), ms[1..]) else r
  }

  function BuildMember(c: Concat, g: nat, d: MemberDef): Result<Concat>
    decreases d, 0
  {
    match d
    case Assign(k, vl) => AndThen(Focus(c, k, DoAssign, Implicit), x => Focus(x, k, y => BuildList(y, g, vl), Manifest))
    case Delete(k) => Focus(c, k, DoAssign, Implicit)
    case AppendTo(k, vl) => Focus(c, k, y => BuildList(y, g, vl), Manifest)
    case SetTemporary(k, flag) => Focus(c, k, DoTemporary(flag), Implicit)
  }

  // ---- The nesting limit ---------------------------------------------------------------------

  /** No path below is longer than `room` more parts. */
  predicate Fits(room: int, v: ValuePart)
    decreases v
  {
    room >= 0 &&
    match v
    case ArrayPart(es) => forall i | 0 <= i < |es| :: FitsList(room - 1, es[i])
    case FunctionPart(_, es) => forall i | 0 <= i < |es| :: FitsList(room - 1, es[i])
    case ObjectPart(ms) => forall i | 0 <= i < |ms| :: FitsMember(room, ms[i])
    case _ => true
  }

  predicate FitsList(room: int, vl: ValueList)
    decreases vl
  {
    room >= 0 && forall i | 0 <= i < |vl.parts| :: Fits(room, vl.parts[i])
  }

  predicate FitsMember(room: int, d: MemberDef)
    decreases d
  {
    room - |d.key| >= 0 && (d.Assign? || d.AppendTo? ==> FitsList(room - |d.key|, d.value))
  }
}
