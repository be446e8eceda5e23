/** Name lookup is innermost-first and never backtracks. */
module Scoping {
  import opened Tree
  import opened Access
  import opened References

  datatype Option<+T> = None | Some(value: T)

  /** The child of a summand that a path part denotes. */
  function ChildOf(e: Entry, k: KeyPart): Option<Concat> {
    match k
    case Name(n) => if e.Object? && n in e.members then Some(e.members[n]) else None
    case Index(i) => if e.Array? && i < |e.elements| then Some(e.elements[i]) else None
    case _ => None
  }

  /** `p` leads from `c` through existing members and elements, whatever the summands. */
  ghost predicate OwnPath(c: Concat, p: Key) {
    p == [] || exists i | 0 <= i < |c.parts| :: ChildOf(c.parts[i], p[0]).Some? && OwnPath(ChildOf(c.parts[i], p[0]).value, p[1..])
  }

  ghost predicate OwnKey(o: Members, key: Key) {
    key != [] && key[0].Name? && key[0].name in o && OwnPath(o[key[0].name], key[1..])
  }

  /** Some concat on the way along `p` has several summands. */
  predicate Crowded(c: Concat, p: Key) {
    |c.parts| > 1 ||
    (p != [] && |c.parts| == 1 && ChildOf(c.parts[0], p[0]).Some? && Crowded(ChildOf(c.parts[0], p[0]).value, p[1..]))
  }

  /** The member `name` of the scope at `p`, if that scope is an object that has one. */
  function MemberAt(c: Concat, p: Key, name: string): Option<Concat> {
    if |c.parts| != 1 then None
    else if p == [] then ChildOf(c.parts[0], Name(name))
    else
      var d := ChildOf(c.parts[0], p[0]);
      if d.None? then None else MemberAt(d.value, p[1..], name)
  }

  /** The scope with `n` parts; the outermost one is the root object. */
  function InScope(o: Members, key: Key, n: nat, name: string): Option<Concat>
    requires n < |key| && key[0].Name? && key[0].name in o
  {
    if n == 0 then if name in o then Some(o[name]) else None
    else MemberAt(o[key[0].name], key[1..n], name)
  }

  /** The member `name` of the innermost scope that has one. */
  function Innermost(o: Members, key: Key, n: nat, name: string): Option<Concat>
    requires n < |key| && key[0].Name? && key[0].name in o
  {
    var c := InScope(o, key, n, name);
    if c.Some? || n == 0 then c else Innermost(o, key, n - 1, name)
  }

  /** Once a lookup is anchored it ends in that scope. */
  lemma {:induction false} AnchoredIsNeverMissing(c: Concat, suffix: Key, down: int)
    requires down < 0
    ensures !AccessConcat(c, suffix, down).Missing?
    decreases |suffix|
  {
    if suffix != [] && |c.parts| == 1 {
      match c.parts[0] {
        case Object(m) =>
          if suffix[0].Name? && suffix[0].name in m { AnchoredIsNeverMissing(m[suffix[0].name], suffix[1..], down - 1); }
        case Array(_, es) =>
          if suffix[0].Index? && suffix[0].index < |es| { AnchoredIsNeverMissing(es[suffix[0].index], suffix[1..], down - 1); }
        case _ =>
      }
    }
  }

  /** The lookup in one scope, which lies on the path `p` plus one more part. */
  lemma {:induction false} LookupInScope(c: Concat, p: Key, last: KeyPart, rest: Key, suffix: Key)
    requires OwnPath(c, p + [last] + rest) && suffix != [] && suffix[0].Name?
    ensures AccessConcat(c, p + suffix, |p|) ==
      if Crowded(c, p) then Waiting
      else match MemberAt(c, p, suffix[0].name)
        case None => Missing
        case Some(d) => AccessConcat(d, suffix[1..], -1)
    decreases |p|
  {
    var full := p + [last] + rest;
    var i :| 0 <= i < |c.parts| && ChildOf(c.parts[i], full[0]).Some? && OwnPath(ChildOf(c.parts[i], full[0]).value, full[1..]);
    if |c.parts| == 1 {
      if p == [] {
        assert p + suffix == suffix;
        assert AccessConcat(c, suffix, 0) == AccessName(c, suffix[0].name, suffix[1..], 0);
        assert c.parts[0].Object? || c.parts[0].Array?;
      } else {
        assert full[0] == p[0] && full[1..] == p[1..] + [last] + rest;
        assert (p + suffix)[0] == p[0] && (p + suffix)[1..] == p[1..] + suffix;
        LookupInScope(ChildOf(c.parts[0], p[0]).value, p[1..], last, rest, suffix);
      }
    } else {
      assert (p + suffix)[0].Name? || (p + suffix)[0].Index?;
    }
  }

  lemma {:induction false} CrowdedPrefix(c: Concat, p: Key, q: Key)
    requires p <= q && Crowded(c, p)
    ensures Crowded(c, q)
    decreases |p|
  {
    if |c.parts| <= 1 {
      assert p[1..] <= q[1..];
      CrowdedPrefix(ChildOf(c.parts[0], p[0]).value, p[1..], q[1..]);
    }
  }

  lemma ScopeAnswer(o: Members, key: Key, n: nat, suffix: Key)
    requires OwnKey(o, key) && n < |key| && suffix != [] && suffix[0].Name?
    ensures AccessScope(o, key[..n] + suffix, n) ==
      if n > 0 && Crowded(o[key[0].name], key[1..n]) then Waiting
      else match InScope(o, key, n, suffix[0].name)
        case None => Missing
        case Some(d) => AccessConcat(d, suffix[1..], -1)
  {
    hide AccessConcat, Crowded, MemberAt, OwnPath;
    if n == 0 {
      assert key[..0] + suffix == suffix;
    } else {
      var path := key[..n] + suffix;
      assert path[0] == key[0] && path[1..] == key[1..n] + suffix;
      assert key[1..] == key[1..n] + [key[n]] + key[n + 1..];
      LookupInScope(o[key[0].name], key[1..n], key[n], key[n + 1..], suffix);
    }
  }

  lemma {:induction false} ScopesAnswer(o: Members, key: Key, n: nat, suffix: Key)
    requires OwnKey(o, key) && n < |key| && suffix != [] && suffix[0].Name?
    requires n > 0 ==> !Crowded(o[key[0].name], key[1..n])
    ensures AccessScopes(o, key[..|key| - 1], suffix, n) ==
      match Innermost(o, key, n, suffix[0].name)
      case None => Missing
      case Some(d) => AccessConcat(d, suffix[1..], -1)
    decreases n
  {
    hide AccessConcat, Crowded, MemberAt, OwnPath, AccessScope;
    var prefix := key[..|key| - 1];
    assert prefix[..n] == key[..n];
    ScopeAnswer(o, key, n, suffix);
    var c := InScope(o, key, n, suffix[0].name);
    if c.Some? {
      AnchoredIsNeverMissing(c.value, suffix[1..], -1);
    } else if n > 0 {
      if n > 1 && Crowded(o[key[0].name], key[1..n - 1]) {
        assert key[1..n - 1] <= key[1..n];
        CrowdedPrefix(o[key[0].name], key[1..n - 1], key[1..n]);
      }
      ScopesAnswer(o, key, n - 1, suffix);
    }
  }

  /**
   A reference with the key `key` waits while a scope on its own path has several summands.
   Otherwise the innermost scope that knows the first name decides, with no further search.
   */
  lemma InnermostScopeDecides(o: Members, key: Key, suffix: Key)
    requires OwnKey(o, key) && suffix != [] && suffix[0].Name?
    ensures var n := |key| - 1;
      Access.Access(o, key[..n], suffix) ==
      if n > 0 && Crowded(o[key[0].name], key[1..n]) then Waiting
      else match Innermost(o, key, n, suffix[0].name)
        case None => Missing
        case Some(d) => AccessConcat(d, suffix[1..], -1)
    ensures Innermost(o, key, |key| - 1, suffix[0].name).Some? ==>
      !AccessConcat(Innermost(o, key, |key| - 1, suffix[0].name).value, suffix[1..], -1).Missing?
  {
    hide AccessConcat, Crowded, Innermost, InScope, OwnPath, AccessScope;
    var n := |key| - 1;
    if n > 0 && Crowded(o[key[0].name], key[1..n]) {
      ScopeAnswer(o, key, n, suffix);
      assert key[..n][..n] == key[..n];
    } else {
      ScopesAnswer(o, key, n, suffix);
    }
    var c := Innermost(o, key, n, suffix[0].name);
    if c.Some? { AnchoredIsNeverMissing(c.value, suffix[1..], -1); }
  }

  /** Every reference of a tree lies on its own path. */
  lemma {:induction false} PositionIsOwnPath(c: Concat, pos: Pos)
    requires Valid(c, pos)
    ensures OwnPath(c, KeyOf(pos))
    decreases |pos|
  {
    if pos != [] {
      PositionIsOwnPath(Child(c, pos[0]), pos[1..]);
      var k := KeyOf(pos);
      assert k[1..] == KeyOf(pos[1..]);
      assert ChildOf(c.parts[pos[0].part], k[0]) == Some(Child(c, pos[0]));
    }
  }

  lemma SiteHasOwnKey(r: Concat, s: Site)
    requires IsRoot(r) && Live(r, s)
    ensures OwnKey(MembersOf(r), KeyOf(s.pos))
  {
    ReplaceBelow(r, s, Null);
    var k := KeyOf(s.pos);
    assert k[1..] == KeyOf(s.pos[1..]);
    PositionIsOwnPath(Child(r, s.pos[0]), s.pos[1..]);
  }

  // ---- References that start with an index ---------------------------------------------------

  predicate PlainKey(k: Key) {
    forall i | 0 <= i < |k| :: k[i].Name? || k[i].Index?
  }

  lemma {:induction false} PlainLookup(c: Concat, suffix: Key, down: int)
    requires PlainKey(suffix)
    ensures AccessConcat(c, suffix, down) != Failed(AssertionFailed)
    decreases |suffix|
  {
    if suffix != [] && |c.parts| == 1 {
      match c.parts[0] {
        case Object(m) =>
          if suffix[0].Name? && suffix[0].name in m { PlainLookup(m[suffix[0].name], suffix[1..], down - 1); }
        case Array(_, es) =>
          if suffix[0].Index? && suffix[0].index < |es| { PlainLookup(es[suffix[0].index], suffix[1..], down - 1); }
        case _ =>
      }
    }
  }

  lemma {:induction false} OwnPathIsPlain(c: Concat, p: Key)
    requires OwnPath(c, p)
    ensures PlainKey(p)
    decreases |p|
  {
    if p != [] {
      var i :| 0 <= i < |c.parts| && ChildOf(c.parts[i], p[0]).Some? && OwnPath(ChildOf(c.parts[i], p[0]).value, p[1..]);
      OwnPathIsPlain(ChildOf(c.parts[i], p[0]).value, p[1..]);
      assert p == [p[0]] + p[1..];
    }
  }

  /** The search leaves every scope between `n` and the root behind. */
  ghost predicate AllMissing(o: Members, prefix: Key, suffix: Key, n: nat)
    requires n <= |prefix| && suffix != []
  {
    forall k | 0 < k <= n :: AccessScope(o, prefix[..k] + suffix, k).Missing?
  }

  lemma {:induction false} SearchFails(o: Members, prefix: Key, suffix: Key, n: nat)
    requires n <= |prefix| && suffix != [] && suffix[0].Index? && PlainKey(prefix) && PlainKey(suffix)
    requires n > 0 ==> prefix[0].Name?
    ensures AccessScopes(o, prefix, suffix, n) == Failed(AssertionFailed) <==> AllMissing(o, prefix, suffix, n)
    decreases n
  {
    hide AccessConcat;
    var path := prefix[..n] + suffix;
    if n == 0 {
      assert path == suffix;
    } else {
      assert path[0] == prefix[0] && PlainKey(path[1..]);
      if path[0].name in o { PlainLookup(o[path[0].name], path[1..], n - 1); }
      SearchFails(o, prefix, suffix, n - 1);
    }
  }

  /** Every concat along `p` is a single array that has no element `i`. */
  predicate ShortArrays(c: Concat, p: Key, i: nat) {
    && |c.parts| == 1 && c.parts[0].Array? && |c.parts[0].elements| <= i
    && (p != [] ==> ChildOf(c.parts[0], p[0]).Some? && ShortArrays(ChildOf(c.parts[0], p[0]).value, p[1..], i))
  }

  lemma {:induction false} ShortScopes(c: Concat, p: Key, rest: Key, suffix: Key)
    requires OwnPath(c, p + rest) && rest != [] && suffix != [] && suffix[0].Index?
    ensures (forall j | 0 <= j <= |p| :: AccessConcat(c, p[..j] + suffix, j).Missing?) <==> ShortArrays(c, p, suffix[0].index)
    decreases |p|
  {
    var full, i := p + rest, suffix[0].index;
    var k :| 0 <= k < |c.parts| && ChildOf(c.parts[k], full[0]).Some? && OwnPath(ChildOf(c.parts[k], full[0]).value, full[1..]);
    assert p[..0] + suffix == suffix;
    FirstScope(c, suffix);
    if p != [] && AccessConcat(c, suffix, 0).Missing? {
      assert full[0] == p[0] && full[1..] == p[1..] + rest;
      var d := ChildOf(c.parts[0], p[0]).value;
      ShortScopes(d, p[1..], rest, suffix);
      forall j | 0 < j <= |p| ensures AccessConcat(c, p[..j] + suffix, j) == AccessConcat(d, p[1..][..j - 1] + suffix, j - 1) {
        NextScope(c, p, j, suffix);
      }
      if forall j | 0 <= j <= |p| :: AccessConcat(c, p[..j] + suffix, j).Missing? {
        forall j | 0 <= j <= |p[1..]| ensures AccessConcat(d, p[1..][..j] + suffix, j).Missing? {
          assert AccessConcat(c, p[..j + 1] + suffix, j + 1).Missing?;
        }
      }
    }
  }

  lemma FirstScope(c: Concat, suffix: Key)
    requires c.parts != [] && suffix != [] && suffix[0].Index?
    requires exists k, p :: 0 <= k < |c.parts| && ChildOf(c.parts[k], p).Some?
    ensures AccessConcat(c, suffix, 0).Missing? <==> |c.parts| == 1 && c.parts[0].Array? && |c.parts[0].elements| <= suffix[0].index
  {
    if |c.parts| == 1 && c.parts[0].Array? && suffix[0].index < |c.parts[0].elements| {
      AnchoredIsNeverMissing(c.parts[0].elements[suffix[0].index], suffix[1..], -1);
    }
  }

  lemma NextScope(c: Concat, p: Key, j: nat, suffix: Key)
    requires 0 < j <= |p| && |c.parts| == 1 && c.parts[0].Array? && ChildOf(c.parts[0], p[0]).Some?
    ensures AccessConcat(c, p[..j] + suffix, j) == AccessConcat(ChildOf(c.parts[0], p[0]).value, p[1..][..j - 1] + suffix, j - 1)
  {
    var path := p[..j] + suffix;
    assert path[0] == p[0] && path[1..] == p[1..][..j - 1] + suffix;
  }

  /**
   A reference with the key `key` that starts with an index fails an assertion exactly when every
   scope on its own path is a single array that has no such element, so that the search reaches
   the root.
   */
  lemma IndexSearchFails(o: Members, key: Key, suffix: Key)
    requires OwnKey(o, key) && suffix != [] && suffix[0].Index? && PlainKey(suffix)
    ensures Access.Access(o, key[..|key| - 1], suffix) == Failed(AssertionFailed) <==>
      |key| == 1 || ShortArrays(o[key[0].name], key[1..|key| - 1], suffix[0].index)
  {
    hide AccessConcat, ShortArrays, OwnPath, AccessScopes;
    var prefix, c := key[..|key| - 1], o[key[0].name];
    OwnPathIsPlain(c, key[1..]);
    assert PlainKey(prefix) by { assert key == [key[0]] + key[1..]; }
    SearchFails(o, prefix, suffix, |prefix|);
    if |key| > 1 {
      var p := key[1..|key| - 1];
      assert key[1..] == p + [key[|key| - 1]];
      ShortScopes(c, p, [key[|key| - 1]], suffix);
      forall k | 0 < k <= |prefix| ensures AccessScope(o, prefix[..k] + suffix, k) == AccessConcat(c, p[..k - 1] + suffix, k - 1) {
        var path := prefix[..k] + suffix;
        assert path[0] == key[0] && path[1..] == p[..k - 1] + suffix;
      }
      ShiftedScopes(o, prefix, suffix, c, p);
    }
  }

  lemma ShiftedScopes(o: Members, prefix: Key, suffix: Key, c: Concat, p: Key)
    requires suffix != [] && |prefix| == |p| + 1
    requires forall k | 0 < k <= |prefix| :: AccessScope(o, prefix[..k] + suffix, k) == AccessConcat(c, p[..k - 1] + suffix, k - 1)
    ensures AllMissing(o, prefix, suffix, |prefix|) <==> forall j | 0 <= j <= |p| :: AccessConcat(c, p[..j] + suffix, j).Missing?
  {
    hide AccessConcat, AccessScope;
    if AllMissing(o, prefix, suffix, |prefix|) {
      forall j | 0 <= j <= |p| ensures AccessConcat(c, p[..j] + suffix, j).Missing? {
        assert AccessScope(o, prefix[..j + 1] + suffix, j + 1).Missing?;
      }
    }
  }

  /** In `a = [ 1, (0) ]` the reference finds its element, in `a = [ 1, (2) ]` it fails. */
  lemma IndexMayBeFound(one: Concat, two: Concat)
    requires Primitive(one)
    ensures var o: Members := map["a" := EMPTY.(parts := [Array("", [one, two])])];
      && Access.Access(o, [Name("a")], [Index(0)]) == Found(one)
      && Access.Access(o, [Name("a")], [Index(2)]) == Failed(AssertionFailed)
  {
    hide Primitive;
    var o: Members := map["a" := EMPTY.(parts := [Array("", [one, two])])];
    var key: Key := [Name("a"), Index(1)];
    assert key[1..] == [Index(1)] && key[..1] == [Name("a")];
    assert OwnPath(two, []) && ChildOf(o["a"].parts[0], Index(1)) == Some(two);
    assert OwnPath(o["a"], key[1..]);
    IndexSearchFails(o, key, [Index(2)]);
    var path := [Name("a"), Index(0)];
    assert [Name("a")][..1] + [Index(0)] == path && path[1..] == [Index(0)];
    assert AccessConcat(one, [], -1) == Found(one) && [Index(0)][1..] == [];
    assert AccessConcat(o["a"], [Index(0)], 0) == Found(one);
  }
}
