/** Member names in the order in which `std::map< std::string, ... >` visits them. */
module Names {

  /** Lexicographic order on strings, as in `std::string::compare`. */
  predicate LexLe(a: string, b: string) {
    a == "" || (b != "" && (a[0] < b[0] || (a[0] == b[0] && LexLe(a[1..], b[1..]))))
  }

  lemma {:induction false} LexTotal(a: string, b: string)
    ensures LexLe(a, b) || LexLe(b, a)
  {
    if a != "" && b != "" {
      LexTotal(a[1..], b[1..]);
    }
  }

  lemma {:induction false} LexAntisymmetric(a: string, b: string)
    requires LexLe(a, b) && LexLe(b, a)
    ensures a == b
  {
    if a != "" && b != "" {
      LexAntisymmetric(a[1..], b[1..]);
      assert a == [a[0]] + a[1..] && b == [b[0]] + b[1..];
    }
  }

  lemma {:induction false} LexTransitive(a: string, b: string, c: string)
    requires LexLe(a, b) && LexLe(b, c)
    ensures LexLe(a, c)
  {
    if a != "" && a[0] == b[0] && b[0] == c[0] {
      LexTransitive(a[1..], b[1..], c[1..]);
    }
  }

  /** The first difference decides, and a name comes before its continuations. */
  lemma {:induction false} LexByFirstDifference(p: string, s: string, t: string)
    ensures s != "" && t != "" && s[0] < t[0] ==> LexLe(p + s, p + t) && !LexLe(p + t, p + s)
    ensures LexLe(p, p + s) && (LexLe(p + s, p) <==> s == "")
  {
    if p == "" {
      assert p + s == s && p + t == t;
    } else {
      assert (p + s)[1..] == p[1..] + s && (p + t)[1..] == p[1..] + t;
      LexByFirstDifference(p[1..], s, t);
    }
  }

  predicate IsLeast(x: string, s: set<string>) {
    x in s && forall y | y in s :: LexLe(x, y)
  }

  lemma {:induction false} LeastExists(s: set<string>) returns (x: string)
    requires s != {}
    ensures IsLeast(x, s)
  {
    var y :| y in s;
    LexTotal(y, y);
    if s == {y} {
      x := y;
    } else {
      assert s != {y} && {y} <= s;
      assert exists w :: w in s && w != y;
      var z := LeastExists(s - {y});
      LexTotal(y, z);
      x := if LexLe(y, z) then y else z;
      forall w | w in s ensures LexLe(x, w) {
        if w != y {
          assert w in s - {y};
          LexTransitive(x, z, w);
        }
      }
    }
  }

  /** The first key of a non-empty ordered map. */
  function Least(s: set<string>): (x: string)
    requires s != {}
    ensures x in s && forall y | y in s :: LexLe(x, y)
  {
    assert exists x :: IsLeast(x, s) by { var x := LeastExists(s); }
    assert forall x, y | IsLeast(x, s) && IsLeast(y, s) :: x == y by {
      forall x, y | IsLeast(x, s) && IsLeast(y, s) ensures x == y { LexAntisymmetric(x, y); }
    }
    var x :| x in s && IsLeast(x, s);
    x
  }

  ghost predicate Lists(r: seq<string>, s: set<string>) {
    && (forall x :: x in r <==> x in s)
    && (forall i, j | 0 <= i < j < |r| :: LexLe(r[i], r[j]) && r[i] != r[j])
  }

  lemma ListsNext(x: string, r: seq<string>, s: set<string>)
    requires x in s && (forall y | y in s :: LexLe(x, y)) && Lists(r, s - {x})
    ensures Lists([x] + r, s)
  {
    hide LexLe;
    assert forall i | 0 <= i < |r| :: r[i] in r;
  }

  lemma SortedDistinct(s: set<string>)
    ensures forall x :: x in Sorted(s) <==> x in s
    ensures forall i, j | 0 <= i < j < |Sorted(s)| :: Sorted(s)[i] != Sorted(s)[j]
  {
  }

  /** All keys, in iteration order. */
  function Sorted(s: set<string>): (r: seq<string>)
    ensures Lists(r, s)
  {
    if s == {} then [] else
      var x := Least(s);
      ListsNext(x, Sorted(s - {x}), s);
      [x] + Sorted(s - {x})
  }

  /** There is only one list of given names in their order. */
  lemma {:induction false} ListsUnique(r: seq<string>, t: seq<string>, s: set<string>)
    requires Lists(r, s) && Lists(t, s)
    ensures r == t
    decreases |r|
  {
    hide LexLe;
    if s == {} {
      NothingListed(r);
      NothingListed(t);
    } else {
      var x :| x in s;
      assert x in r && x in t;
      assert r[0] in s && r[0] in t;
      assert t[0] in s && t[0] in r;
      var i :| 0 <= i < |r| && r[i] == t[0];
      var j :| 0 <= j < |t| && t[j] == r[0];
      if i != 0 && j != 0 { LexAntisymmetric(r[0], t[0]); }
      RestLists(r, s);
      RestLists(t, s);
      ListsUnique(r[1..], t[1..], s - {r[0]});
      assert r == [r[0]] + r[1..] && t == [t[0]] + t[1..];
    }
  }

  lemma NothingListed(r: seq<string>)
    requires forall x :: x !in r
    ensures r == []
  {
    var x := if r == [] then "" else r[0];
    assert r != [] ==> x in r;
  }

  lemma RestLists(r: seq<string>, s: set<string>)
    requires Lists(r, s) && r != []
    ensures Lists(r[1..], s - {r[0]})
  {
    hide LexLe;
    forall x ensures x in r[1..] <==> x in s - {r[0]} {
      if x in r[1..] {
        var i :| 0 <= i < |r[1..]| && r[1..][i] == x;
        assert r[i + 1] == x && r[0] != r[i + 1];
      }
      if x in s - {r[0]} { assert x in r && r == [r[0]] + r[1..]; }
    }
  }

  /** Where a further name is put. */
  lemma SortedWith(s: set<string>, n: string) returns (a: seq<string>, b: seq<string>)
    requires n !in s
    ensures Sorted(s) == a + b && Sorted(s + {n}) == a + [n] + b
  {
    hide LexLe, Lists;
    var r := Sorted(s + {n});
    assert n in r by { ListedIn(r, s + {n}, n); }
    var i :| 0 <= i < |r| && r[i] == n;
    a, b := r[..i], r[i + 1..];
    DropListed(r, s + {n}, i);
    assert s + {n} - {n} == s;
    ListsUnique(a + b, Sorted(s), s);
    assert r == a + [n] + b;
  }

  lemma ListedIn(r: seq<string>, s: set<string>, n: string)
    requires Lists(r, s) && n in s
    ensures n in r
  {
  }

  lemma DropListed(r: seq<string>, s: set<string>, i: nat)
    requires Lists(r, s) && i < |r|
    ensures Lists(r[..i] + r[i + 1..], s - {r[i]})
  {
    hide LexLe;
    var t := r[..i] + r[i + 1..];
    assert forall j | 0 <= j < |t| :: t[j] == if j < i then r[j] else r[j + 1];
    forall x ensures x in t <==> x in s - {r[i]} {
      if x in t {
        var j :| 0 <= j < |t| && t[j] == x;
        assert x == r[if j < i then j else j + 1];
      }
      if x in s - {r[i]} {
        var j :| 0 <= j < |r| && r[j] == x;
        assert x == t[if j < i then j else j - 1];
      }
    }
  }
}
