/** The asterisks pass of phase 2: an asterisk is copied to everything that stands next to it. */
module Asterisks {
  import opened Tree
  import opened Sums

  // ---- Nesting depth, which bounds the recursion ---------------------------------------------

  ghost function Depth(c: Concat): nat {
    DepthParts(c.parts)
  }

  ghost function DepthParts(ps: seq<Entry>): nat {
    MaxSeq(seq(|ps|, i requires 0 <= i < |ps| => DepthEntry(ps[i])))
  }

  ghost function DepthEntry(e: Entry): nat {
    match e
    case Array(_, es) => 1 + MaxSeq(seq(|es|, i requires 0 <= i < |es| => Depth(es[i])))
    case Object(m) => 1 + MaxMap(map n | n in m :: Depth(m[n]))
    case Asterisk(c) => 1 + Depth(c)
    case _ => 0
  }

  lemma DepthBound(ps: seq<Entry>, b: nat)
    ensures DepthParts(ps) <= b <==> forall i | 0 <= i < |ps| :: DepthEntry(ps[i]) <= b
  {
    hide DepthEntry;
    var w := seq(|ps|, i requires 0 <= i < |ps| => DepthEntry(ps[i]));
    assert forall i | 0 <= i < |ps| :: w[i] == DepthEntry(ps[i]);
  }

  lemma DepthOfElements(f: string, es: seq<Concat>, b: nat)
    ensures DepthEntry(Array(f, es)) <= b + 1 <==> forall i | 0 <= i < |es| :: Depth(es[i]) <= b
  {
    hide Depth;
    var w := seq(|es|, i requires 0 <= i < |es| => Depth(es[i]));
    assert forall i | 0 <= i < |es| :: w[i] == Depth(es[i]);
  }

  lemma DepthOfMembers(m: Members, b: nat)
    ensures DepthEntry(Object(m)) <= b + 1 <==> forall n | n in m :: Depth(m[n]) <= b
  {
    hide Depth;
    var w := map n | n in m :: Depth(m[n]);
    assert forall n | n in m :: w[n] == Depth(m[n]);
  }

  // ---- One asterisk --------------------------------------------------------------------------

  /** An array element with an asterisk further to the right. */
  function AfterStar(c: Concat, s: Concat): Concat {
    c.(remove := c.remove || s.remove,
       temporary := c.temporary || s.temporary,
       parts := (if s.remove then [] else c.parts) + s.parts)
  }

  /** An array element with an asterisk further to the left. */
  function BeforeStar(s: Concat, c: Concat): Concat {
    if c.remove then c
    else c.(remove := s.remove, temporary := c.temporary || s.temporary, parts := s.parts + c.parts)
  }

  /** The part at `j` once the asterisk `s` at `i` has been copied into it. */
  function AroundStar(ps: seq<Entry>, i: nat, j: nat, s: Concat): Entry
    requires j < |ps|
  {
    match ps[j]
    case Array(f, es) =>
      Array(f, seq(|es|, k requires 0 <= k < |es| => if j < i then AfterStar(es[k], s) else BeforeStar(s, es[k])))
    case _ => ps[j]
  }

  /** All member names of all objects among the summands. */
  function NamesOf(ps: seq<Entry>): set<string> {
    if ps == [] then {} else (if ps[0].Object? then ps[0].members.Keys else {}) + NamesOf(ps[1..])
  }

  predicate HasFunction(ps: seq<Entry>) {
    exists j | 0 <= j < |ps| :: IsFunction(ps[j])
  }

  /** The asterisk at `i` has been expanded: it is now an object, or gone. */
  function ExpandStar(ps: seq<Entry>, i: nat): (r: seq<Entry>)
    requires i < |ps| && ps[i].Asterisk?
    ensures |r| == if NamesOf(ps) == {} then |ps| - 1 else |ps|
  {
    var s, names := ps[i].star, NamesOf(ps);
    var qs := seq(|ps|, j requires 0 <= j < |ps| => AroundStar(ps, i, j, s));
    if names == {} then qs[..i] + qs[i + 1..]
    else qs[i := Object(map n | n in names :: s)]
  }

  lemma DepthAroundStar(ps: seq<Entry>, i: nat, j: nat)
    requires i < |ps| && ps[i].Asterisk? && j < |ps|
    ensures DepthEntry(AroundStar(ps, i, j, ps[i].star)) <= DepthParts(ps)
  {
    hide Depth, DepthParts, DepthEntry;
    var s, b := ps[i].star, DepthParts(ps);
    DepthBound(ps, b);
    if ps[j].Array? {
      var f, es := ps[j].call, ps[j].elements;
      assert DepthEntry(ps[i]) == 1 + Depth(s) by { StarDepth(s); }
      DepthOfElements(f, es, b - 1);
      forall k | 0 <= k < |es|
        ensures Depth(AfterStar(es[k], s)) <= b - 1 && Depth(BeforeStar(s, es[k])) <= b - 1
      {
        DepthOfJoined(es[k], s, b - 1);
      }
      DepthOfElements(f, AroundStar(ps, i, j, s).elements, b - 1);
    }
  }

  lemma StarDepth(s: Concat)
    ensures DepthEntry(Asterisk(s)) == 1 + Depth(s)
  {
  }

  lemma DepthOfJoined(c: Concat, s: Concat, b: nat)
    requires Depth(c) <= b && Depth(s) <= b
    ensures Depth(AfterStar(c, s)) <= b && Depth(BeforeStar(s, c)) <= b
  {
    hide DepthEntry, DepthParts;
    DepthBound(c.parts, b);
    DepthBound(s.parts, b);
    DepthBound(AfterStar(c, s).parts, b);
    DepthBound(BeforeStar(s, c).parts, b);
  }

  lemma DepthExpandStar(ps: seq<Entry>, i: nat)
    requires i < |ps| && ps[i].Asterisk?
    ensures DepthParts(ExpandStar(ps, i)) <= DepthParts(ps)
  {
    hide Depth, DepthParts, DepthEntry, AroundStar;
    var s, b, names := ps[i].star, DepthParts(ps), NamesOf(ps);
    forall j | 0 <= j < |ps| ensures DepthEntry(AroundStar(ps, i, j, s)) <= b { DepthAroundStar(ps, i, j); }
    DepthBound(ps, b);
    StarDepth(s);
    DepthOfMembers(map n | n in names :: s, b - 1);
    DepthBound(ExpandStar(ps, i), b);
  }

  // ---- The whole pass ------------------------------------------------------------------------

  /** The loop over the summands of one concat, from position `i` on. */
  ghost function ExpandFrom(ps: seq<Entry>, i: nat): Result<seq<Entry>>
    requires i <= |ps|
    decreases DepthParts(ps), 1, |ps| - i
  {
    if i == |ps| then Ok(ps)
    else if ps[i].Asterisk? then
      if HasFunction(ps) then Err(AsteriskInFunction)
      else
        DepthExpandStar(ps, i);
        ExpandFrom(ExpandStar(ps, i), if NamesOf(ps) == {} then i else i + 1)
    else if |ps| == 1 then
      DepthBound(ps, DepthParts(ps));
      var e := ExpandBelow(ps[0]);
      if e.Ok? then Ok([e.value]) else Err(e.error)
    else ExpandFrom(ps, i + 1)
  }

  ghost function ExpandBelow(e: Entry): Result<Entry>
    decreases DepthEntry(e), 0, 0
  {
    match e
    case Array(f, es) =>
      DepthOfElements(f, es, DepthEntry(e) - 1);
      if forall i | 0 <= i < |es| :: Expand(es[i]).Ok?
      then Ok(Array(f, seq(|es|, i requires 0 <= i < |es| => Expand(es[i]).value)))
      else Err(AsteriskInFunction)
    case Object(m) =>
      DepthOfMembers(m, DepthEntry(e) - 1);
      if forall n | n in m :: Expand(m[n]).Ok?
      then Ok(Object(map n | n in m :: Expand(m[n]).value))
      else Err(AsteriskInFunction)
    case _ => Ok(e)
  }

  ghost function Expand(c: Concat): Result<Concat>
    decreases Depth(c), 2, 0
  {
    var ps := ExpandFrom(c.parts, 0);
    if ps.Ok? then Ok(c.(parts := ps.value)) else Err(ps.error)
  }
}
