/** Sums and maxima over the children of a tree node: lists and ordered maps of numbers. */
module Sums {

  function Max(a: nat, b: nat): nat { if a < b then b else a }

  ghost function Total(w: seq<nat>): nat {
    if w == [] then 0 else w[0] + Total(w[1..])
  }

  ghost function Sum(w: map<string, nat>): nat {
    if w == map[] then 0 else
      var n :| n in w;
      w[n] + Sum(w - {n})
  }

  ghost function MaxSeq(w: seq<nat>): (m: nat)
    ensures forall i | 0 <= i < |w| :: w[i] <= m
    ensures m == 0 || exists i | 0 <= i < |w| :: w[i] == m
  {
    if w == [] then 0 else
      var r := MaxSeq(w[1..]);
      assert forall i | 1 <= i < |w| :: w[i] == w[1..][i - 1];
      assert r == 0 || exists i | 0 <= i < |w[1..]| :: w[1..][i] == r && w[i + 1] == r;
      Max(w[0], r)
  }

  ghost function MaxMap(w: map<string, nat>): (m: nat)
    ensures forall n | n in w :: w[n] <= m
    ensures m == 0 || exists n | n in w :: w[n] == m
  {
    if w == map[] then 0 else
      var x :| x in w;
      var r := MaxMap(w - {x});
      assert forall n | n in w && n != x :: n in w - {x};
      Max(w[x], r)
  }

  lemma {:induction false} TotalSplit(a: seq<nat>, b: seq<nat>)
    ensures Total(a + b) == Total(a) + Total(b)
  {
    if a == [] {
      assert a + b == b;
    } else {
      assert (a + b)[1..] == a[1..] + b;
      TotalSplit(a[1..], b);
    }
  }

  lemma {:induction false} TotalUpdate(a: seq<nat>, i: nat, x: nat)
    requires i < |a|
    ensures Total(a[i := x]) + a[i] == Total(a) + x
  {
    if i > 0 {
      assert a[i := x][1..] == a[1..][i - 1 := x];
      TotalUpdate(a[1..], i - 1, x);
    } else {
      assert a[i := x][1..] == a[1..];
    }
  }

  lemma {:induction false} TotalMono(a: seq<nat>, b: seq<nat>)
    requires |a| == |b| && forall i | 0 <= i < |a| :: a[i] <= b[i]
    ensures Total(a) <= Total(b)
    ensures (exists i | 0 <= i < |a| :: a[i] < b[i]) ==> Total(a) < Total(b)
  {
    if a != [] {
      TotalMono(a[1..], b[1..]);
      if i :| 0 <= i < |a| && a[i] < b[i] {
        if i > 0 {
          assert a[1..][i - 1] < b[1..][i - 1];
        }
      }
    }
  }

  lemma {:induction false} TotalZero(a: seq<nat>)
    ensures Total(a) == 0 <==> forall i | 0 <= i < |a| :: a[i] == 0
  {
    if a != [] {
      TotalZero(a[1..]);
      assert forall i | 1 <= i < |a| :: a[i] == a[1..][i - 1];
    }
  }

  lemma {:induction false} SumRemove(w: map<string, nat>, n: string)
    requires n in w
    ensures Sum(w) == w[n] + Sum(w - {n})
  {
    var p :| p in w && Sum(w) == w[p] + Sum(w - {p});
    if p != n {
      SumRemove(w - {p}, n);
      SumRemove(w - {n}, p);
      assert w - {p} - {n} == w - {n} - {p};
    }
  }

  lemma {:induction false} SumMono(a: map<string, nat>, b: map<string, nat>)
    requires a.Keys == b.Keys && forall n | n in a :: a[n] <= b[n]
    ensures Sum(a) <= Sum(b)
    ensures (exists n | n in a :: a[n] < b[n]) ==> Sum(a) < Sum(b)
  {
    if a != map[] {
      var x :| x in a && ((exists n | n in a :: a[n] < b[n]) ==> a[x] < b[x]);
      SumRemove(a, x);
      SumRemove(b, x);
      SumMono(a - {x}, b - {x});
    }
  }

  lemma {:induction false} SumZero(a: map<string, nat>)
    ensures Sum(a) == 0 <==> forall n | n in a :: a[n] == 0
  {
    if x :| x in a {
      SumRemove(a, x);
      SumZero(a - {x});
      assert forall n | n in a && n != x :: n in a - {x};
    }
  }

  /** A union whose common keys carry at most both values weighs at most both maps. */
  lemma {:induction false} SumUnion(a: map<string, nat>, b: map<string, nat>, c: map<string, nat>)
    requires c.Keys == a.Keys + b.Keys
    requires forall n | n in c ::
      c[n] <= (if n in a then a[n] else 0) + (if n in b then b[n] else 0)
    ensures Sum(c) <= Sum(a) + Sum(b)
  {
    if x :| x in c {
      SumRemove(c, x);
      if x in a { SumRemove(a, x); } else { assert a - {x} == a; }
      if x in b { SumRemove(b, x); } else { assert b - {x} == b; }
      assert (c - {x}).Keys == (a - {x}).Keys + (b - {x}).Keys;
      SumUnion(a - {x}, b - {x}, c - {x});
    } else {
      assert c == map[];
    }
  }
}
