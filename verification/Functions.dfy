/** The functions pass of phase 2: calls whose arguments are ready are replaced by their result. */
module Functions {
  import opened Tree
  import opened Names

  /** `NotYet` covers a `false` result as well as the exception for arguments that are not ready. */
  datatype CallResult = Value(entry: Entry) | NotYet | Fails(error: Error)

  /** `Default` moves one of its arguments; the other functions build a new plain value. */
  datatype Builtin = Default | Plain(run: seq<Concat> -> CallResult)

  type FunctionMap = map<string, Builtin>

  /** The functions other than `default` return atoms or JAXN values. */
  ghost predicate ValidFunctions(fm: FunctionMap) {
    forall f, args | f in fm && fm[f].Plain? ::
      fm[f].run(args).Value? ==> PrimitiveEntry(fm[f].run(args).entry)
  }

  /** The first argument that is not null, unless an earlier one is not ready. */
  function DefaultCall(args: seq<Concat>): CallResult {
    if args == [] then Fails(BadArguments)
    else if |args[0].parts| != 1 then NotYet
    else match args[0].parts[0]
      case Null => DefaultCall(args[1..])
      case Array(f, _) => if f == "" then Value(args[0].parts[0]) else NotYet
      case Asterisk(_) => NotYet
      case Reference(_) => NotYet
      case _ => Value(args[0].parts[0])
  }

  function Invoke(fm: FunctionMap, f: string, args: seq<Concat>): CallResult {
    if f !in fm then Fails(UnknownFunction)
    else match fm[f]
      case Default => DefaultCall(args)
      case Plain(run) => run(args)
  }

  function CallAll(fm: FunctionMap, c: Concat): Result<Concat>
    decreases c, |c.parts| + 1
  {
    var r := CallParts(fm, c, 0);
    if r.Ok? then Ok(c.(parts := r.value)) else Err(r.error)
  }

  /** The summands from `i` on. */
  function CallParts(fm: FunctionMap, c: Concat, i: nat): (r: Result<seq<Entry>>)
    requires i <= |c.parts|
    ensures r.Ok? ==> |r.value| == |c.parts| - i
    decreases c, |c.parts| - i, 0
  {
    if i == |c.parts| then Ok([])
    else
      var e := CallEntry(fm, c.parts[i]);
      if e.Err? then Err(e.error)
      else
        var r := CallParts(fm, c, i + 1);
        if r.Ok? then Ok([e.value] + r.value) else r
  }

  function CallEntry(fm: FunctionMap, e: Entry): Result<Entry>
    decreases e, 0, 2
  {
    match e
    case Array(f, es) => (
      var r := CallElements(fm, e, 0);
      if r.Err? then Err(r.error)
      else if f == "" then Ok(Array(f, r.value))
      else match Invoke(fm, f, r.value)
        case Value(v) => Ok(v)
        case NotYet => Ok(Array(f, r.value))
        case Fails(x) => Err(x))
    case Object(m) =>
      var r := CallMembers(fm, e, Sorted(m.Keys));
      if r.Ok? then Ok(Object(r.value)) else Err(r.error)
    case _ => Ok(e)
  }

  function CallElements(fm: FunctionMap, e: Entry, j: nat): (r: Result<seq<Concat>>)
    requires e.Array? && j <= |e.elements|
    ensures r.Ok? ==> |r.value| == |e.elements| - j
    decreases e, 0, 1, |e.elements| - j
  {
    if j == |e.elements| then Ok([])
    else
      var d := CallAll(fm, e.elements[j]);
      if d.Err? then Err(d.error)
      else
        var r := CallElements(fm, e, j + 1);
        if r.Ok? then Ok([d.value] + r.value) else r
  }

  function CallMembers(fm: FunctionMap, e: Entry, names: seq<string>): (r: Result<Members>)
    requires e.Object? && forall n | n in names :: n in e.members
    ensures r.Ok? ==> forall n :: n in r.value <==> n in names
    decreases e, 0, 1, |names|
  {
    if names == [] then Ok(map[])
    else
      var d := CallAll(fm, e.members[names[0]]);
      if d.Err? then Err(d.error)
      else
        var r := CallMembers(fm, e, names[1..]);
        if r.Ok? then Ok(r.value[names[0] := d.value]) else r
  }
}
