/** The number literals of JAXN: decimal mantissa and exponent, and hexadecimal integers. */
module Numbers {
  import opened Tree
  import Additions

  const TWO60 := 0x1000_0000_0000_0000

  /** Integer parts with more digits are an error. */
  const DIGIT_LIMIT := 1_048_576

  // ---- What digits denote --------------------------------------------------------------------

  predicate Digits(s: string) {
    forall i | 0 <= i < |s| :: '0' <= s[i] <= '9'
  }

  predicate Zeros(s: string) {
    forall i | 0 <= i < |s| :: s[i] == '0'
  }

  function Digit(c: char): nat
    requires '0' <= c <= '9'
  {
    c as nat - '0' as nat
  }

  function Decimal(s: string): nat
    requires Digits(s)
  {
    if s == "" then 0 else 10 * Decimal(s[..|s| - 1]) + Digit(s[|s| - 1])
  }

  function Power(k: nat): (p: nat)
    ensures p > 0
  {
    if k == 0 then 1 else 10 * Power(k - 1)
  }

  /** The power of ten with any integer exponent. */
  function Ten(k: int): (p: real)
    ensures p > 0.0
    decreases if k < 0 then -k else k
  {
    if k == 0 then 1.0 else if k > 0 then 10.0 * Ten(k - 1) else Ten(k + 1) / 10.0
  }

  lemma {:induction false} DecimalBelow(s: string)
    requires Digits(s)
    ensures Decimal(s) < Power(|s|)
    ensures Decimal(s) == 0 <==> Zeros(s)
  {
    if s != "" {
      var t := s[..|s| - 1];
      DecimalBelow(t);
      assert Zeros(s) <==> Zeros(t) && s[|s| - 1] == '0' by { assert s == t + [s[|s| - 1]]; }
    }
  }

  lemma {:induction false} DecimalConcat(s: string, t: string)
    requires Digits(s) && Digits(t)
    ensures Digits(s + t)
    ensures Decimal(s + t) == Decimal(s) * Power(|t|) + Decimal(t)
  {
    if t == "" {
      assert s + t == s;
    } else {
      var u := t[..|t| - 1];
      DecimalConcat(s, u);
      assert (s + t)[..|s + t| - 1] == s + u;
      hide Decimal, Power;
      LastDigit(s + t);
      LastDigit(t);
      assert Power(|t|) == 10 * Power(|u|) by { PowerStep(|u|); }
      OneMoreDigit(Decimal(s), Power(|u|), Decimal(u), Digit(t[|t| - 1]));
    }
  }

  lemma LastDigit(s: string)
    requires s != "" && Digits(s)
    ensures Decimal(s) == 10 * Decimal(s[..|s| - 1]) + Digit(s[|s| - 1])
  {
  }

  lemma PowerStep(k: nat)
    ensures Power(k + 1) == 10 * Power(k)
  {
  }

  lemma OneMoreDigit(a: nat, p: nat, b: nat, c: nat)
    ensures 10 * (a * p + b) + c == a * (10 * p) + (10 * b + c)
  {
  }

  lemma {:induction false} TenSum(j: int, k: int)
    ensures Ten(j + k) == Ten(j) * Ten(k)
    decreases if k < 0 then -k else k
  {
    hide Ten;
    if k > 0 {
      TenSum(j, k - 1);
      TenStep(j + k - 1);
      TenStep(k - 1);
      Tenfold(Ten(j), Ten(k - 1));
    } else if k < 0 {
      TenSum(j, k + 1);
      TenStep(j + k);
      TenStep(k);
      Tenfold(Ten(j), Ten(k));
    } else {
      assert Ten(0) == 1.0 by { TenIsPower(0); }
    }
  }

  lemma Tenfold(a: real, b: real)
    ensures a * (10.0 * b) == 10.0 * (a * b)
  {
  }

  lemma TenStep(k: int)
    ensures Ten(k + 1) == 10.0 * Ten(k)
  {
  }

  lemma {:induction false} TenIsPower(k: nat)
    ensures Ten(k) == Power(k) as real
  {
    if k > 0 { TenIsPower(k - 1); }
  }

  // ---- Cutting digits down to a mantissa -----------------------------------------------------

  /**
   The digits `s` are some zeros, the mantissa `m`, and `k` digits that are cut off; `drop` tells
   whether the latter matter.
   */
  ghost predicate Cut(m: string, k: int, drop: bool, s: string) {
    && 0 <= k <= |s| - |m|
    && Zeros(s[..|s| - |m| - k])
    && s[|s| - |m| - k..|s| - k] == m
    && (drop <==> !Zeros(s[|s| - k..]))
  }

  lemma CutIsTight(m: string, k: nat, drop: bool, s: string)
    requires Digits(s) && Cut(m, k, drop, s)
    ensures Digits(m)
    ensures Decimal(m) * Power(k) <= Decimal(s) < (Decimal(m) + 1) * Power(k)
    ensures drop <==> Decimal(m) * Power(k) != Decimal(s)
  {
    hide Power, Decimal;
    var z, t := s[..|s| - |m| - k], s[|s| - k..];
    assert s == z + (m + t) && Digits(z) && Digits(m) && Digits(t);
    DecimalConcat(m, t);
    DecimalConcat(z, m + t);
    DecimalBelow(z);
    DecimalBelow(t);
    assert |t| == k;
    NoMore(Power(|m + t|));
    OneMore(Decimal(m), Power(k));
  }

  lemma NoMore(p: nat)
    ensures 0 * p == 0
  {
  }

  lemma OneMore(a: nat, p: nat)
    ensures (a + 1) * p == a * p + p
  {
  }

  /** The value of a literal with the digits `i`, a point, the digits `f`, and the exponent `e`. */
  ghost function Literal(i: string, f: string, e: int): real
    requires Digits(i + f)
  {
    Decimal(i + f) as real * Ten(e - |f|)
  }

  ghost predicate Tight(m: string, exponent: int, drop: bool, literal: real)
    requires Digits(m)
  {
    var low, high := Decimal(m) as real * Ten(exponent), (Decimal(m) + 1) as real * Ten(exponent);
    if drop then low < literal < high else literal == low
  }

  lemma TightLiteral(m: string, exponent: int, drop: bool, i: string, f: string, e: int)
    requires Digits(i + f) && Cut(m, exponent + |f|, drop, i + f)
    ensures Digits(m) && Tight(m, exponent + e, drop, Literal(i, f, e))
  {
    hide Decimal, Ten, Power;
    var k, s := exponent + |f|, i + f;
    CutIsTight(m, k, drop, s);
    TenIsPower(k);
    TenSum(k, e - |f|);
    assert k + (e - |f|) == exponent + e;
    TightScaled(Decimal(m), Power(k), Decimal(s), Ten(e - |f|), Ten(exponent + e), drop);
  }

  lemma TightScaled(a: nat, p: nat, n: nat, t: real, u: real, drop: bool)
    requires a * p <= n < (a + 1) * p && (drop <==> a * p != n)
    requires t > 0.0 && u == p as real * t
    ensures drop ==> a as real * u < n as real * t < (a + 1) as real * u
    ensures !drop ==> n as real * t == a as real * u
  {
    Scaled(a * p, n, (a + 1) * p, t);
    Regroup(a, p, t);
    Regroup(a + 1, p, t);
  }

  lemma Scaled(a: nat, b: nat, c: nat, t: real)
    requires a <= b < c && t > 0.0
    ensures a as real * t <= b as real * t < c as real * t
    ensures a != b ==> a as real * t < b as real * t
  {
    var x, y, z := a as real, b as real, c as real;
    assert (y - x) * t >= 0.0 && (z - y) * t > 0.0;
    assert a != b ==> (y - x) * t > 0.0;
  }

  lemma Regroup(a: nat, p: nat, t: real)
    ensures (a * p) as real * t == a as real * (p as real * t)
  {
    assert (a * p) as real == a as real * p as real;
  }

  // ---- The accumulator -----------------------------------------------------------------------

  /** The number of zeros in front. */
  function Lead(s: string): (b: nat)
    ensures b <= |s|
  {
    if s == "" || s[0] != '0' then 0 else 1 + Lead(s[1..])
  }

  lemma {:induction false} LeadIs(s: string, b: nat)
    requires b <= |s| && Zeros(s[..b]) && (b < |s| ==> s[b] != '0')
    ensures Lead(s) == b
  {
    if b > 0 {
      assert s[..b][0] == '0' && s[1..][..b - 1] == s[..b][1..];
      LeadIs(s[1..], b - 1);
    }
  }

  function Exponent(negative: bool, s: string): int
    requires Digits(s)
  {
    var x: int := Decimal(s);
    if negative then -x else x
  }

  /** The end of the digits that are left without the zeros at the end. */
  method SkipBack(s: string) returns (e: nat)
    ensures e <= |s| && Zeros(s[e..]) && (e > 0 ==> s[e - 1] != '0')
  {
    e := |s|;
    while e > 0 && s[e - 1] == '0'
      invariant e <= |s| && Zeros(s[e..])
    {
      assert s[e - 1..] == [s[e - 1]] + s[e..];
      e := e - 1;
    }
  }

  /** The first position from `b` on, but before `e`, that is no zero. */
  method SkipZeros(s: string, b: nat, e: nat) returns (i: nat)
    requires b <= e <= |s|
    ensures b <= i <= e && Zeros(s[b..i]) && (i < e ==> s[i] != '0')
  {
    i := b;
    while i < e && s[i] == '0'
      invariant b <= i <= e && Zeros(s[b..i])
    {
      assert s[b..i + 1] == s[b..i] + [s[i]];
      i := i + 1;
    }
  }

  lemma ZerosSplit(s: string, b: nat, i: nat, e: nat)
    requires b <= i <= e <= |s| && Zeros(s[b..i]) && Zeros(s[e..]) && (i < e ==> s[i] != '0')
    ensures i < e <==> !Zeros(s[b..])
  {
    if i < e { assert s[b..][i - b] == s[i]; } else { assert s[b..] == s[b..i] + s[e..]; }
  }

  class NumberState {
    const limit: nat
    const mantissa: array<char>
    var msize: nat
    var exponent10: int
    var drop: bool
    var isfp: bool
    var eneg: bool

    constructor (limit: nat)
      ensures this.limit == limit && fresh(mantissa) && mantissa.Length == limit
      ensures msize == 0 && exponent10 == 0 && !drop && !isfp && !eneg
    {
      this.limit := limit;
      mantissa := new char[limit](_ => '0');
      msize, exponent10, drop, isfp, eneg := 0, 0, false, false, false;
    }

    predicate Valid()
      reads this
    {
      mantissa.Length == limit > 0 && msize <= limit
    }

    function Kept(): string
      reads this, mantissa
      requires Valid()
    {
      mantissa[..msize]
    }

    /** The sign in front of the exponent. */
    method Esign(c: char)
      modifies this`eneg
      ensures eneg == (c == '-')
    {
      eneg := c == '-';
    }

    /** Appends digits to the mantissa. */
    method Copy(s: string)
      requires Valid() && msize + |s| <= limit
      modifies this`msize, mantissa
      ensures Valid() && Kept() == old(Kept()) + s && msize == old(msize) + |s|
    {
      for i := 0 to |s|
        invariant msize == old(msize) && mantissa[..msize] == old(mantissa[..msize])
        invariant mantissa[msize..msize + i] == s[..i]
      {
        mantissa[msize + i] := s[i];
        assert mantissa[msize..msize + i + 1] == mantissa[msize..msize + i] + [s[i]];
      }
      assert mantissa[..msize + |s|] == mantissa[..msize] + mantissa[msize..msize + |s|];
      msize := msize + |s|;
    }

    /** The digits in front of the decimal point; without digits nothing happens. */
    method Idigits(s: string) returns (r: Result<()>)
      requires Valid() && Digits(s)
      requires msize == 0 && exponent10 == 0 && !drop
      modifies this`msize, this`exponent10, this`drop, mantissa
      ensures Valid() && r == if |s| > DIGIT_LIMIT then Err(TooManyDigits) else Ok(())
      ensures r.Ok? ==>
        && Cut(Kept(), exponent10, drop, s)
        && (msize < limit ==> exponent10 == 0) && 0 <= exponent10 < DIGIT_LIMIT
    {
      if |s| == 1 && s[0] == '0' { return Ok(()); }
      if |s| > DIGIT_LIMIT { return Err(TooManyDigits); }
      var c := if |s| < limit then |s| else limit;
      Copy(s[..c]);
      exponent10 := exponent10 + |s| - c;
      var i := SkipZeros(s, c, |s|);
      if i < |s| { drop := true; }
      ZerosSplit(s, c, i, |s|);
      assert s[..0] == "" && s[0..c] == s[..c];
      r := Ok(());
    }

    /** The digits behind the decimal point. */
    method Fdigits(ghost i: string, s: string)
      requires Valid() && Digits(i) && Digits(s) && Cut(Kept(), exponent10, drop, i)
      requires msize < limit ==> exponent10 == 0
      modifies this`msize, this`exponent10, this`drop, this`isfp, mantissa
      ensures Valid() && isfp
      ensures Cut(Kept(), exponent10 + |s|, drop, i + s)
      ensures old(exponent10) - |s| <= exponent10 <= old(exponent10)
    {
      hide Cut, Zeros, Digits;
      isfp := true;
      ghost var m, x, d := Kept(), exponent10, drop;
      CutLength(m, x, d, i);
      var e := SkipBack(s);
      var b := 0;
      if msize == 0 {
        b := SkipZeros(s, 0, e);
        exponent10 := exponent10 - b;
      }
      assert s[0..b] == s[..b];
      assert Zeros(s[..b]) by { NoZeros(); }
      var c := if e - b < limit - msize then e - b else limit - msize;
      Copy(s[b..b + c]);
      exponent10 := exponent10 - c;
      var j := SkipZeros(s, b + c, e);
      if j < e { drop := true; }
      ZerosSplit(s, b + c, j, e);
      CutFurther(m, x, d, i, s, b, c);
    }

    /** The digits of the exponent. */
    method Edigits(s: string) returns (r: Result<()>)
      requires Digits(s)
      modifies this`exponent10, this`isfp
      ensures isfp
      ensures r == if |s| - Lead(s) > 9 then Err(ExponentTooLong) else Ok(())
      ensures r.Ok? ==> exponent10 == old(exponent10) + Exponent(eneg, s) && Decimal(s) < 1_000_000_000
    {
      hide Decimal;
      isfp := true;
      var b := SkipZeros(s, 0, |s|);
      assert s[0..b] == s[..b];
      LeadIs(s, b);
      if |s| - b > 9 { return Err(ExponentTooLong); }
      var exponent, i := 0, b;
      assert s[b..b] == "" && Decimal("") == 0 by { NoDigits(); }
      while i < |s|
        invariant isfp && exponent10 == old(exponent10)
        invariant b <= i <= |s| && Digits(s[b..i]) && exponent == Decimal(s[b..i])
      {
        NextDigit(s, b, i);
        exponent := exponent * 10 + (s[i] as int - '0' as int);
        i := i + 1;
      }
      LeadingZeros(s, b);
      assert exponent == Decimal(s);
      exponent10 := exponent10 + (if eneg then -exponent else exponent);
      r := Ok(());
    }
  }

  lemma NoDigits()
    ensures Decimal("") == 0
  {
  }

  lemma NextDigit(s: string, b: nat, i: nat)
    requires Digits(s) && b <= i < |s|
    ensures Digits(s[b..i]) && Digits(s[b..i + 1]) && Decimal(s[b..i + 1]) == 10 * Decimal(s[b..i]) + Digit(s[i])
  {
    assert s[b..i + 1][..i - b] == s[b..i];
  }

  lemma LeadingZeros(s: string, b: nat)
    requires Digits(s) && b <= |s| && Zeros(s[..b]) && |s| - b <= 9
    ensures Digits(s[b..]) && s[b..|s|] == s[b..] && Decimal(s) == Decimal(s[b..]) < 1_000_000_000
  {
    hide Decimal;
    assert s == s[..b] + s[b..];
    DecimalConcat(s[..b], s[b..]);
    DecimalBelow(s[..b]);
    DecimalBelow(s[b..]);
    PowerGrows(|s| - b, 9);
    assert Power(9) == 1_000_000_000;
  }

  lemma {:induction false} PowerGrows(j: nat, k: nat)
    requires j <= k
    ensures Power(j) <= Power(k)
  {
    if j < k { PowerGrows(j, k - 1); }
  }

  lemma CutOf(z: string, m: string, t: string, drop: bool)
    requires Zeros(z) && (drop <==> !Zeros(t))
    ensures Cut(m, |t|, drop, z + m + t)
  {
    var s := z + m + t;
    assert s[..|z|] == z && s[|z|..|z| + |m|] == m && s[|z| + |m|..] == t;
  }

  /** More digits `s` after `i`: the first `b` are zeros in front, the next `c` are kept. */
  lemma CutFurther(m: string, x: int, drop: bool, i: string, s: string, b: nat, c: nat)
    requires Cut(m, x, drop, i) && b + c <= |s| && Zeros(s[..b])
    requires b > 0 ==> m == ""
    requires b + c > 0 ==> x == 0
    ensures Cut(m + s[b..b + c], x - b - c + |s|, drop || !Zeros(s[b + c..]), i + s)
  {
    hide Cut, Zeros;
    var z, t := CutParts(m, x, drop, i);
    var s0, s1, s2 := s[..b], s[b..b + c], s[b + c..];
    assert s == s0 + s1 + s2;
    BothZeros(z, s0);
    BothZeros(t, s2);
    CutOf(z + s0, m + s1, t + s2, drop || !Zeros(s2));
    Rearranged(z, m, t, s0, s1, s2);
  }

  lemma Rearranged(z: string, m: string, t: string, a: string, b: string, c: string)
    requires (a == "" || (m == "" && t == "")) && (b == "" || t == "")
    ensures (z + a) + (m + b) + (t + c) == (z + m + t) + (a + b + c)
  {
  }

  lemma CutLength(m: string, k: int, drop: bool, s: string)
    requires Cut(m, k, drop, s)
    ensures 0 <= k <= |s| - |m|
  {
  }

  lemma NoZeros()
    ensures Zeros("")
  {
  }

  lemma CutParts(m: string, k: int, drop: bool, s: string) returns (z: string, t: string)
    requires Cut(m, k, drop, s)
    ensures s == z + m + t && |t| == k && Zeros(z) && (drop <==> !Zeros(t))
  {
    z, t := s[..|s| - |m| - k], s[|s| - k..];
  }

  lemma BothZeros(s: string, t: string)
    ensures Zeros(s + t) <==> Zeros(s) && Zeros(t)
  {
    assert forall i | 0 <= i < |t| :: t[i] == (s + t)[|s| + i];
    assert forall i | 0 <= i < |s| :: s[i] == (s + t)[i];
  }

  /** The actions that a decimal literal triggers, one after the other. */
  datatype Suffix = NoExponent | WithExponent(sign: char, digits: string)

  method Number(limit: nat, i: string, hasFraction: bool, f: string, e: Suffix) returns (r: Result<()>, state: NumberState)
    requires limit > 0 && Digits(i) && Digits(f) && (e.WithExponent? ==> Digits(e.digits))
    requires !hasFraction ==> f == ""
    ensures fresh(state) && state.Valid() && fresh(state.mantissa) && state.limit == limit
    ensures r.Ok? <==> |i| <= DIGIT_LIMIT && (e.WithExponent? ==> |e.digits| - Lead(e.digits) <= 9)
    ensures r.Ok? ==>
      var x := if e.WithExponent? then Exponent(e.sign == '-', e.digits) else 0;
      && state.msize <= limit && Digits(state.Kept()) && Digits(i + f)
      && Tight(state.Kept(), state.exponent10, state.drop, Literal(i, f, x))
      && -1_000_000_000 - |f| < state.exponent10 < 1_000_000_000 + DIGIT_LIMIT
      && state.isfp == (hasFraction || e.WithExponent?)
  {
    hide Cut, Tight, Literal, Ten;
    state := new NumberState(limit);
    r := state.Idigits(i);
    if r.Err? { return; }
    assert i + "" == i;
    if hasFraction { state.Fdigits(i, f); }
    ghost var x := 0;
    ghost var k := state.exponent10;
    if e.WithExponent? {
      state.Esign(e.sign);
      r := state.Edigits(e.digits);
      if r.Err? { return; }
      x := Exponent(e.sign == '-', e.digits);
    }
    TightLiteral(state.Kept(), k, state.drop, i, f, x);
  }

  // ---- Hexadecimal literals ------------------------------------------------------------------

  predicate HexDigits(s: string) {
    forall i | 0 <= i < |s| :: '0' <= s[i] <= '9' || 'a' <= s[i] <= 'f' || 'A' <= s[i] <= 'F'
  }

  function HexDigit(c: char): (v: nat)
    ensures '0' <= c <= '9' || 'a' <= c <= 'f' || 'A' <= c <= 'F' ==> v < 16
  {
    if '0' <= c <= '9' then c as nat - '0' as nat
    else if 'a' <= c <= 'f' then c as nat - 'a' as nat + 10
    else if 'A' <= c <= 'F' then c as nat - 'A' as nat + 10
    else 0
  }

  function Hexadecimal(s: string): nat {
    if s == "" then 0 else 16 * Hexadecimal(s[..|s| - 1]) + HexDigit(s[|s| - 1])
  }

  lemma {:induction false} HexadecimalGrows(s: string, k: nat)
    requires k <= |s|
    ensures Hexadecimal(s[..k]) <= Hexadecimal(s)
    ensures k < |s| ==> 16 * Hexadecimal(s[..k]) <= Hexadecimal(s)
  {
    if k < |s| {
      HexadecimalGrows(s[..|s| - 1], k);
      assert s[..|s| - 1][..k] == s[..k];
    } else {
      assert s[..k] == s;
    }
  }

  /** A hexadecimal literal is exact, or an error exactly when it does not fit 64 bits. */
  method Hexnum(negative: bool, s: string) returns (r: Result<Entry>)
    requires HexDigits(s)
    ensures !negative ==> r == if Hexadecimal(s) < Additions.TWO64 then Ok(Unsigned(Hexadecimal(s))) else Err(HexadecimalTooLarge)
    ensures negative ==> r == if Hexadecimal(s) <= Additions.TWO63 then Ok(Signed(0 - Hexadecimal(s))) else Err(HexadecimalTooLarge)
  {
    var value := 0;
    for i := 0 to |s|
      invariant value == Hexadecimal(s[..i]) < Additions.TWO64
    {
      assert s[..i + 1][..i] == s[..i];
      HexadecimalGrows(s, i);
      if value / TWO60 != 0 { return Err(HexadecimalTooLarge); }
      value := value * 16;
      value := value + HexDigit(s[i]);
    }
    assert s[..|s|] == s;
    if negative {
      if value < Additions.TWO63 { return Ok(Signed(-value)); }
      else if value == Additions.TWO63 { return Ok(Signed(-9223372036854775807 - 1)); }
      else { return Err(HexadecimalTooLarge); }
    }
    r := Ok(Unsigned(value));
  }
}
