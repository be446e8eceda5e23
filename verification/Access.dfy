/** Scoped lookup: where a reference finds its target, or why it does not. */
module Access {
  import opened Tree

  /** `Missing` is a null pointer, `Waiting` the exception that says "not ready yet". */
  datatype Lookup = Found(target: Concat) | Missing | Waiting | Failed(error: Error)

  function AccessName(c: Concat, name: string, suffix: Key, down: int): Lookup
    decreases |suffix|, 2
  {
    if c.parts == [] then if down >= 0 then Missing else Waiting
    else if |c.parts| > 1 then Waiting
    else match c.parts[0]
      case Array(_, _) => if down >= 0 then Missing else Failed(CannotAccessName)
      case Object(m) =>
        if name in m then AccessConcat(m[name], suffix, down - 1)
        else if down >= 0 then Missing else Failed(NameNotFound)
      case Asterisk(_) => if down >= 0 then Missing else Failed(NameNotFound)
      case Reference(_) => Waiting
      case _ => Failed(CannotAccessName)
  }

  function AccessIndex(c: Concat, index: nat, suffix: Key, down: int): Lookup
    decreases |suffix|, 2
  {
    if c.parts == [] then if down >= 0 then Missing else Waiting
    else if |c.parts| > 1 then Waiting
    else match c.parts[0]
      case Array(_, es) =>
        if index < |es| then AccessConcat(es[index], suffix, down - 1)
        else if down >= 0 then Missing else Failed(OutOfRange)
      case Asterisk(_) => if down >= 0 then Missing else Failed(CannotIndex)
      case _ => Failed(CannotIndex)
  }

  function AccessConcat(c: Concat, suffix: Key, down: int): Lookup
    decreases |suffix|, 1
  {
    if suffix == [] then if Primitive(c) then Found(c) else Waiting
    else match suffix[0]
      case Name(n) => AccessName(c, n, suffix[1..], down)
      case Index(i) => AccessIndex(c, i, suffix[1..], down)
      case Star => Failed(CannotAccessAsterisk)
      case Append(_) => Failed(AssertionFailed)
  }

  /** One scope: the lookup of `path`, whose first `down` parts belong to the scope. */
  function AccessScope(o: Members, path: Key, down: int): Lookup
    requires path != []
  {
    if !path[0].Name? then Failed(AssertionFailed)
    else if path[0].name !in o then Missing
    else AccessConcat(o[path[0].name], path[1..], down - 1)
  }

  /** The scopes from the one with `n` parts of the prefix outwards. */
  function AccessScopes(o: Members, prefix: Key, suffix: Key, n: nat): Lookup
    requires n <= |prefix| && suffix != []
    decreases n
  {
    var r := AccessScope(o, prefix[..n] + suffix, n);
    if r.Missing? && n > 0 then AccessScopes(o, prefix, suffix, n - 1) else r
  }

  function Access(o: Members, prefix: Key, suffix: Key): Lookup
    requires suffix != []
  {
    AccessScopes(o, prefix, suffix, |prefix|)
  }

  /** The loop over the scopes, innermost first. */
  method AccessLoop(o: Members, prefix: Key, suffix: Key) returns (r: Lookup)
    requires suffix != []
    ensures r == Access(o, prefix, suffix)
  {
    for i := 0 to |prefix| + 1
      invariant i <= |prefix| ==> Access(o, prefix, suffix) == AccessScopes(o, prefix, suffix, |prefix| - i)
      invariant i == |prefix| + 1 ==> Access(o, prefix, suffix) == Missing
    {
      var down := |prefix| - i;
      var path := prefix[..|prefix| - i] + suffix;
      if !path[0].Name? { return Failed(AssertionFailed); }
      if path[0].name in o {
        var c := AccessConcat(o[path[0].name], path[1..], down - 1);
        if !c.Missing? { return c; }
      }
    }
    r := Missing;
  }
}
