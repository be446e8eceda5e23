/**
 The order in which phase 2 makes progress: counts per level, where a decrease at one level
 outweighs any increase at the levels below it.  There is no infinite descent.
 */
module Descent {

  type Weight = nat -> nat

  /** `f` is below `g`: less at some level and nowhere more from that level upwards. */
  ghost predicate DropsAt(f: Weight, g: Weight, k: nat) {
    f(k) < g(k) && forall j: nat | j >= k :: f(j) <= g(j)
  }

  ghost predicate Drops(f: Weight, g: Weight) {
    exists k: nat :: DropsAt(f, g, k)
  }

  ghost predicate Same(f: Weight, g: Weight) {
    forall j: nat :: f(j) == g(j)
  }

  lemma DropsTransitive(f: Weight, g: Weight, h: Weight)
    requires Drops(f, g) || Same(f, g)
    requires Drops(g, h) || Same(g, h)
    ensures Drops(f, h) || (Same(f, g) && Same(g, h))
  {
    if Drops(f, g) && Drops(g, h) {
      var k: nat :| DropsAt(f, g, k);
      var l: nat :| DropsAt(g, h, l);
      assert DropsAt(f, h, if k < l then l else k);
    } else if Drops(f, g) {
      var k: nat :| DropsAt(f, g, k);
      assert DropsAt(f, h, k);
    } else if Drops(g, h) {
      var k: nat :| DropsAt(g, h, k);
      assert DropsAt(f, h, k);
    }
  }

  /** Weights that are added up descend when one of them does and none of them grows. */
  lemma DropsSum(f: Weight, g: Weight, f1: Weight, g1: Weight, f2: Weight, g2: Weight)
    requires forall j: nat :: f(j) == f1(j) + f2(j) && g(j) == g1(j) + g2(j)
    requires Drops(f1, g1) || Same(f1, g1)
    requires Drops(f2, g2) || Same(f2, g2)
    ensures Drops(f, g) || (Same(f1, g1) && Same(f2, g2) && Same(f, g))
  {
    if Drops(f1, g1) && Drops(f2, g2) {
      var k: nat :| DropsAt(f1, g1, k);
      var l: nat :| DropsAt(f2, g2, l);
      assert DropsAt(f, g, if k < l then l else k);
    } else if Drops(f1, g1) {
      var k: nat :| DropsAt(f1, g1, k);
      assert DropsAt(f, g, k);
    } else if Drops(f2, g2) {
      var k: nat :| DropsAt(f2, g2, k);
      assert DropsAt(f, g, k);
    }
  }

  // ---- No infinite descent -------------------------------------------------------------------

  /** The same order on the finitely many levels that are in use. */
  ghost predicate Less(v: seq<nat>, w: seq<nat>) {
    |v| == |w| && exists k | 0 <= k < |v| :: v[k] < w[k] && forall j | k <= j < |v| :: v[j] <= w[j]
  }

  /** Every descent that starts at `v` is finite. */
  least predicate Terminates(v: seq<nat>) {
    forall w: seq<nat> | Less(w, v) :: Terminates(w)
  }

  lemma {:induction false} TerminatesOneLevelUp(k: ORDINAL, u: seq<nat>, a: nat)
    requires Terminates#[k](u)
    ensures Terminates(u + [a])
    decreases |u|, 1, a, k
  {
    if k.Offset == 0 {
      var l: ORDINAL :| l < k && Terminates#[l](u);
      TerminatesOneLevelUp(l, u, a);
    } else {
      forall w: seq<nat> | Less(w, u + [a]) ensures Terminates(w) {
        var x, b := w[..|u|], w[|u|];
        assert w == x + [b];
        var i :| 0 <= i < |w| && w[i] < (u + [a])[i] && forall j | i <= j < |w| :: w[j] <= (u + [a])[j];
        if b < a {
          EveryDescentIsFinite(x);
          var l: ORDINAL :| Terminates#[l](x);
          TerminatesOneLevelUp(l, x, b);
        } else {
          assert w[|u|] <= (u + [a])[|u|];
          assert x[i] < u[i] && forall j | i <= j < |x| :: x[j] <= u[j] by {
            forall j | i <= j < |x| ensures x[j] <= u[j] { assert w[j] <= (u + [a])[j]; }
          }
          TerminatesOneLevelUp(k - 1, x, a);
        }
      }
    }
  }

  lemma {:induction false} EveryDescentIsFinite(v: seq<nat>)
    ensures Terminates(v)
    decreases |v|, 0
  {
    if v != [] {
      var u, a := v[..|v| - 1], v[|v| - 1];
      EveryDescentIsFinite(u);
      var k: ORDINAL :| Terminates#[k](u);
      TerminatesOneLevelUp(k, u, a);
      assert v == u + [a];
    }
  }

  /** One step of a descent, as a smaller bound on the number of further steps. */
  lemma NextBound(k: ORDINAL, v: seq<nat>, w: seq<nat>) returns (l: ORDINAL)
    requires Terminates#[k](v) && Less(w, v)
    ensures l < k && Terminates#[l](w)
    decreases k
  {
    if k.Offset == 0 {
      var m: ORDINAL :| m < k && Terminates#[m](v);
      l := NextBound(m, v, w);
    } else {
      l := k - 1;
    }
  }
}
