/** What the asterisks pass leaves behind, and when it throws. */
module Wildcards {
  import opened Tree
  import opened Asterisks
  import opened Callless
  import Expansion

  predicate NoStars(ps: seq<Entry>) {
    forall i | 0 <= i < |ps| :: !ps[i].Asterisk?
  }

  /** No asterisk is left next to the summands of a concat, whatever the concat. */
  lemma {:induction false} StarsAreGone(ps: seq<Entry>, i: nat)
    requires i <= |ps| && NoStars(ps[..i]) && ExpandFrom(ps, i).Ok?
    ensures NoStars(ExpandFrom(ps, i).value)
    decreases DepthParts(ps), |ps| - i
  {
    hide ExpandFrom, ExpandBelow, DepthParts, DepthEntry;
    Expansion.ExpandFromStep(ps, i);
    if i == |ps| {
      assert ps[..i] == ps;
    } else if ps[i].Asterisk? {
      DepthExpandStar(ps, i);
      FrontKept(ps, i);
      StarsAreGone(ExpandStar(ps, i), if NamesOf(ps) == {} then i else i + 1);
    } else if |ps| == 1 {
      BelowIsNoStar(ps[0]);
    } else {
      assert ps[..i + 1] == ps[..i] + [ps[i]];
      StarsAreGone(ps, i + 1);
    }
  }

  lemma FrontKept(ps: seq<Entry>, i: nat)
    requires i < |ps| && ps[i].Asterisk? && NoStars(ps[..i])
    ensures NoStars(ExpandStar(ps, i)[..if NamesOf(ps) == {} then i else i + 1])
  {
    hide NamesOf;
    var s := ps[i].star;
    var qs := seq(|ps|, j requires 0 <= j < |ps| => AroundStar(ps, i, j, s));
    forall j | 0 <= j < i ensures !qs[j].Asterisk? { assert !ps[..i][j].Asterisk?; }
  }

  lemma BelowIsNoStar(e: Entry)
    requires !e.Asterisk? && ExpandBelow(e).Ok?
    ensures !ExpandBelow(e).value.Asterisk?
  {
    hide Expand;
  }

  /** An asterisk and a call side by side are an error. */
  lemma {:induction false} StarAndCallThrow(ps: seq<Entry>, i: nat)
    requires i <= |ps| && HasFunction(ps) && !NoStars(ps[i..])
    ensures ExpandFrom(ps, i) == Err(AsteriskInFunction)
    decreases |ps| - i
  {
    hide ExpandFrom, ExpandBelow, ExpandStar;
    Expansion.ExpandFromStep(ps, i);
    if i < |ps| && !ps[i].Asterisk? {
      assert ps[i..] == [ps[i]] + ps[i + 1..];
      var j :| 0 <= j < |ps| && IsFunction(ps[j]);
      var k :| 0 <= k < |ps[i..]| && ps[i..][k].Asterisk?;
      assert ps[i + k].Asterisk? && j != i + k;
      assert ps[i + 1..][k - 1].Asterisk?;
      StarAndCallThrow(ps, i + 1);
    }
  }

  /** Several summands without an asterisk are left as they are, whatever is below them. */
  lemma {:induction false} CrowdedIsLeft(ps: seq<Entry>, i: nat)
    requires i <= |ps| && |ps| != 1 && NoStars(ps)
    ensures ExpandFrom(ps, i) == Ok(ps)
    decreases |ps| - i
  {
    hide ExpandFrom, ExpandBelow, ExpandStar;
    Expansion.ExpandFromStep(ps, i);
    if i < |ps| { CrowdedIsLeft(ps, i + 1); }
  }

  /** Without calls the pass never throws. */
  lemma {:induction false} NoCallNoError(c: Concat)
    requires Free(Invocation, c)
    ensures Expand(c).Ok?
    decreases Depth(c), 2, 0
  {
    hide FreeEntry, DepthParts;
    NoCallNoErrorFrom(c.parts, 0);
  }

  lemma {:induction false} NoCallNoErrorFrom(ps: seq<Entry>, i: nat)
    requires FreeParts(Invocation, ps) && i <= |ps|
    ensures ExpandFrom(ps, i).Ok?
    decreases DepthParts(ps), 1, |ps| - i
  {
    hide FreeEntry, ExpandFrom, ExpandStar, ExpandBelow, DepthEntry, DepthParts;
    Expansion.ExpandFromStep(ps, i);
    if i < |ps| {
      if ps[i].Asterisk? {
        NoFunction(ps);
        DepthExpandStar(ps, i);
        FreeStar(Invocation, ps, i);
        NoCallNoErrorFrom(ExpandStar(ps, i), if NamesOf(ps) == {} then i else i + 1);
      } else if |ps| == 1 {
        DepthBound(ps, DepthParts(ps));
        NoCallNoErrorBelow(ps[0]);
      } else {
        NoCallNoErrorFrom(ps, i + 1);
      }
    }
  }

  lemma NoFunction(ps: seq<Entry>)
    requires FreeParts(Invocation, ps)
    ensures !HasFunction(ps)
  {
  }

  lemma {:induction false} NoCallNoErrorBelow(e: Entry)
    requires FreeEntry(Invocation, e)
    ensures ExpandBelow(e).Ok?
    decreases DepthEntry(e), 0, 0
  {
    match e {
      case Array(f, es) =>
        hide Expand, Free, ExpandBelow, DepthEntry;
        Expansion.ExpandArray(f, es);
        forall i | 0 <= i < |es| ensures Expand(es[i]).Ok? { NoCallNoError(es[i]); }
      case Object(m) =>
        hide Expand, Free, ExpandBelow, DepthEntry;
        Expansion.ExpandObject(m);
        forall n | n in m ensures Expand(m[n]).Ok? { NoCallNoError(m[n]); }
      case _ =>
    }
  }

  /** No asterisk can be reached through arrays and objects that are alone in their concats. */
  predicate Cleared(c: Concat) {
    NoStars(c.parts) && (|c.parts| == 1 ==> ClearedBelow(c.parts[0]))
  }

  predicate ClearedBelow(e: Entry) {
    match e
    case Array(_, es) => forall i | 0 <= i < |es| :: Cleared(es[i])
    case Object(m) => forall n | n in m :: Cleared(m[n])
    case _ => true
  }

  /** A tree that the pass leaves alone has no asterisk that can be reached. */
  lemma {:induction false} FixedIsCleared(c: Concat)
    requires Expand(c) == Ok(c)
    ensures Cleared(c)
    decreases c
  {
    hide ExpandBelow, ExpandFrom, ClearedBelow;
    StarsAreGone(c.parts, 0);
    if |c.parts| == 1 {
      Expansion.ExpandFromStep(c.parts, 0);
      FixedBelow(c.parts[0]);
    }
  }

  lemma {:induction false} FixedBelow(e: Entry)
    requires ExpandBelow(e) == Ok(e)
    ensures ClearedBelow(e)
    decreases e
  {
    match e {
      case Array(f, es) =>
        hide Expand, Cleared, ExpandBelow;
        Expansion.ExpandArray(f, es);
        forall i | 0 <= i < |es| ensures Cleared(es[i]) { FixedIsCleared(es[i]); }
      case Object(m) =>
        hide Expand, Cleared, ExpandBelow;
        Expansion.ExpandObject(m);
        forall n | n in m ensures Cleared(m[n]) { FixedIsCleared(m[n]); }
      case _ =>
    }
  }
}
