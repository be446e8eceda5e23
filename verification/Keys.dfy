/** Keys as text: what is printed for a key, and what is read back from a text. */
module Keys {
  import opened Tree
  import opened Numbers

  // ---- Strings in quotes ---------------------------------------------------------------------

  datatype Reading = Unreadable | Read(name: string, length: nat)

  /**
   The JSON library's string handling: `escape` is applied when a name is printed in quotes, and
   `read` takes a quoted string off the front of a text and tells how many characters it took.
   */
  datatype Codec = Codec(escape: string -> string, read: string -> Reading)

  predicate Ends(rest: string) {
    rest == "" || rest[0] == '.'
  }

  function Quoted(codec: Codec, n: string): string {
    "\"" + codec.escape(n) + "\""
  }

  /** What is asked of the library: it reads what it has escaped. */
  ghost predicate Faithful(codec: Codec) {
    && (forall s :: codec.read(s).Read? ==> 0 < codec.read(s).length <= |s|)
    && (forall n, rest | Ends(rest) ::
          codec.read(Quoted(codec, n) + rest) == Read(n, |codec.escape(n)| + 2))
  }

  // ---- Printing ------------------------------------------------------------------------------

  predicate IdentFirst(c: char) {
    'a' <= c <= 'z' || 'A' <= c <= 'Z' || c == '_'
  }

  predicate IdentOther(c: char) {
    IdentFirst(c) || '0' <= c <= '9' || c == '-'
  }

  predicate IsIdentifier(n: string) {
    n != "" && IdentFirst(n[0]) && forall i | 0 < i < |n| :: IdentOther(n[i])
  }

  function DigitChar(d: nat): (c: char)
    requires d < 10
    ensures '0' <= c <= '9' && Digit(c) == d
  {
    '0' + d as char
  }

  /** A number without leading zeros, as `std::to_string` gives it. */
  function Show(n: nat): (s: string)
    ensures s != "" && Digits(s)
  {
    if n < 10 then [DigitChar(n)] else Show(n / 10) + [DigitChar(n % 10)]
  }

  function ShowPart(codec: Codec, p: KeyPart): string
    requires p.Name? || p.Index?
  {
    match p
    case Name(n) => if IsIdentifier(n) then n else Quoted(codec, n)
    case Index(i) => Show(i)
  }

  /** A key of the public interface. */
  predicate Public(k: Key) {
    forall i | 0 <= i < |k| :: k[i].Name? || k[i].Index?
  }

  function ShowRest(codec: Codec, k: Key): (s: string)
    requires Public(k)
    ensures Ends(s)
  {
    if k == [] then "" else "." + ShowPart(codec, k[0]) + ShowRest(codec, k[1..])
  }

  function ShowKey(codec: Codec, k: Key): string
    requires Public(k)
  {
    if k == [] then "" else ShowPart(codec, k[0]) + ShowRest(codec, k[1..])
  }

  method ToStream(codec: Codec, k: Key) returns (o: string)
    requires Public(k)
    ensures o == ShowKey(codec, k)
  {
    hide ShowPart;
    o := "";
    if k != [] {
      o := o + ShowPart(codec, k[0]);
      for i := 1 to |k|
        invariant o + ShowRest(codec, k[i..]) == ShowKey(codec, k)
      {
        assert k[i..][0] == k[i] && k[i..][1..] == k[i + 1..];
        assert o + ShowRest(codec, k[i..]) == o + "." + ShowPart(codec, k[i]) + ShowRest(codec, k[i + 1..]);
        o := o + ".";
        o := o + ShowPart(codec, k[i]);
      }
      assert k[|k|..] == [];
    }
  }

  // ---- Parsing -------------------------------------------------------------------------------

  /** The length of the identifier characters in front. */
  function IdentRun(s: string): (k: nat)
    ensures k <= |s| && forall i | 0 <= i < k :: IdentOther(s[i])
  {
    if s == "" || !IdentOther(s[0]) then 0 else 1 + IdentRun(s[1..])
  }

  function Ident(s: string): (k: nat)
    ensures k <= |s| && (k > 0 ==> IsIdentifier(s[..k]))
  {
    if s == "" || !IdentFirst(s[0]) then 0 else 1 + IdentRun(s[1..])
  }

  function DigitRun(s: string): (k: nat)
    ensures k <= |s| && Digits(s[..k])
  {
    if s == "" || !('0' <= s[0] <= '9') then 0
    else
      var k := DigitRun(s[1..]);
      assert s[..k + 1] == [s[0]] + s[1..][..k];
      1 + k
  }

  const INDEX_DIGITS := 15

  /** The next part of a key and its length; the first part is no index. */
  function ParsePart(codec: Codec, s: string, first: bool): (r: Result<(KeyPart, nat)>)
    requires Faithful(codec)
    ensures r.Ok? ==> 0 < r.value.1 <= |s|
    ensures r.Ok? ==> r.value.0.Name? || (r.value.0.Index? && !first && r.value.0.index < Power(INDEX_DIGITS))
  {
    if Ident(s) > 0 then Ok((Name(s[..Ident(s)]), Ident(s)))
    else if s != "" && (s[0] == '\'' || s[0] == '"') then (
      match codec.read(s)
      case Read(n, k) => Ok((Name(n), k))
      case Unreadable => Err(InvalidKey))
    else if !first && 0 < DigitRun(s) <= INDEX_DIGITS then
      DecimalBelow(s[..DigitRun(s)]);
      PowerGrows(DigitRun(s), INDEX_DIGITS);
      Ok((Index(Decimal(s[..DigitRun(s)])), DigitRun(s)))
    else Err(InvalidKey)
  }

  function ParseRest(codec: Codec, s: string): Result<Key>
    requires Faithful(codec)
    decreases |s|
  {
    if s == "" then Ok([])
    else if s[0] != '.' then Err(InvalidKey)
    else
      var p := ParsePart(codec, s[1..], false);
      if p.Err? then Err(p.error)
      else
        var r := ParseRest(codec, s[1..][p.value.1..]);
        if r.Ok? then Ok([p.value.0] + r.value) else r
  }

  function ParseKey(codec: Codec, s: string): Result<Key>
    requires Faithful(codec)
  {
    var p := ParsePart(codec, s, true);
    if p.Err? then Err(p.error)
    else
      var r := ParseRest(codec, s[p.value.1..]);
      if r.Ok? then Ok([p.value.0] + r.value) else r
  }

  /** The grammar with its actions, each of which appends a part to the key. */
  method Assign(codec: Codec, s: string) returns (r: Result<Key>)
    requires Faithful(codec)
    ensures r == ParseKey(codec, s)
  {
    hide ParsePart, Faithful;
    PartLength(codec, s, true);
    var p := ParsePart(codec, s, true);
    if p.Err? { return Err(p.error); }
    var k, t := [p.value.0], s[p.value.1..];
    while t != "" && t[0] == '.'
      invariant ParseKey(codec, s) == (var q := ParseRest(codec, t); if q.Ok? then Ok(k + q.value) else q)
      decreases |t|
    {
      PartLength(codec, t[1..], false);
      p := ParsePart(codec, t[1..], false);
      if p.Err? { return Err(p.error); }
      ghost var q := ParseRest(codec, t[1..][p.value.1..]);
      assert q.Ok? ==> k + ([p.value.0] + q.value) == k + [p.value.0] + q.value;
      k, t := k + [p.value.0], t[1..][p.value.1..];
    }
    assert k + [] == k;
    r := if t == "" then Ok(k) else Err(InvalidKey);
  }

  lemma PartLength(codec: Codec, s: string, first: bool)
    requires Faithful(codec)
    ensures var r := ParsePart(codec, s, first);
      r.Ok? ==> 0 < r.value.1 <= |s|
  {
  }

  // ---- Round trips ---------------------------------------------------------------------------

  lemma {:induction false} ShowIsDecimal(n: nat)
    ensures Decimal(Show(n)) == n
    decreases n
  {
    if n >= 10 {
      ShowIsDecimal(n / 10);
      assert Show(n)[..|Show(n)| - 1] == Show(n / 10);
    } else {
      assert [DigitChar(n)][..0] == "";
    }
  }

  /** A number has at most `k` digits exactly when it is below the power of ten. */
  lemma {:induction false} ShowLength(n: nat, k: nat)
    requires k > 0
    ensures |Show(n)| <= k <==> n < Power(k)
    decreases n
  {
    PowerStep(k - 1);
    if n >= 10 {
      if k > 1 { ShowLength(n / 10, k - 1); } else { assert Power(0) == 1; }
    }
  }

  lemma {:induction false} DigitsEnd(s: string, rest: string)
    requires Digits(s) && Ends(rest)
    ensures DigitRun(s + rest) == |s|
  {
    if s == "" {
      assert s + rest == rest;
    } else {
      assert (s + rest)[1..] == s[1..] + rest;
      DigitsEnd(s[1..], rest);
    }
  }

  lemma {:induction false} RunEnds(s: string, rest: string)
    requires (forall i | 0 <= i < |s| :: IdentOther(s[i])) && Ends(rest)
    ensures IdentRun(s + rest) == |s|
  {
    if s == "" {
      assert s + rest == rest;
    } else {
      assert (s + rest)[1..] == s[1..] + rest;
      RunEnds(s[1..], rest);
    }
  }

  lemma NameRoundTrip(codec: Codec, n: string, rest: string, first: bool)
    requires Faithful(codec) && Ends(rest)
    ensures var s := ShowPart(codec, Name(n)); ParsePart(codec, s + rest, first) == Ok((Name(n), |s|))
  {
    if IsIdentifier(n) {
      RunEnds(n[1..], rest);
      assert (n + rest)[1..] == n[1..] + rest && (n + rest)[..|n|] == n;
    } else {
      var t := Quoted(codec, n) + rest;
      assert t[0] == '"' && codec.read(t) == Read(n, |codec.escape(n)| + 2);
    }
  }

  lemma IndexRoundTrip(codec: Codec, i: nat, rest: string)
    requires Faithful(codec) && Ends(rest) && i < Power(INDEX_DIGITS)
    ensures ParsePart(codec, Show(i) + rest, false) == Ok((Index(i), |Show(i)|))
  {
    hide Power, Show, Faithful;
    var s := Show(i);
    ShowIsDecimal(i);
    ShowLength(i, INDEX_DIGITS);
    DigitsEnd(s, rest);
    assert (s + rest)[0] == s[0] && '0' <= s[0] <= '9' && (s + rest)[..|s|] == s;
    assert Ident(s + rest) == 0;
  }

  /** Keys whose text can be read back. */
  predicate Printable(k: Key) {
    k != [] && k[0].Name? && forall i | 0 < i < |k| :: k[i].Name? || (k[i].Index? && k[i].index < 1_000_000_000_000_000)
  }

  lemma FifteenDigits()
    ensures Power(INDEX_DIGITS) == 1_000_000_000_000_000
  {
    assert Power(5) == 100_000 && Power(10) == 10_000_000_000;
  }

  lemma {:induction false} RestRoundTrip(codec: Codec, k: Key)
    requires Faithful(codec)
    requires forall i | 0 <= i < |k| :: k[i].Name? || (k[i].Index? && k[i].index < Power(INDEX_DIGITS))
    ensures ParseRest(codec, ShowRest(codec, k)) == Ok(k)
    decreases |k|
  {
    hide ParsePart, ShowPart, Faithful, Power, Show;
    if k != [] {
      hide ParseRest;
      var p, rest := ShowPart(codec, k[0]), ShowRest(codec, k[1..]);
      PartRoundTrip(codec, k[0], rest, false);
      RestRoundTrip(codec, k[1..]);
      var s := ShowRest(codec, k);
      assert s[0] == '.' && s[1..] == p + rest && (p + rest)[|p|..] == rest;
      RestStep(codec, s, k[0], |p|);
      assert k == [k[0]] + k[1..];
    }
  }

  lemma RestStep(codec: Codec, s: string, k: KeyPart, l: nat)
    requires Faithful(codec) && s != "" && s[0] == '.' && l <= |s| - 1 && ParsePart(codec, s[1..], false) == Ok((k, l))
    ensures var r := ParseRest(codec, s[1..][l..]);
      ParseRest(codec, s) == if r.Ok? then Ok([k] + r.value) else r
  {
    hide ParsePart, Faithful;
    PartLength(codec, s[1..], false);
  }

  lemma PartRoundTrip(codec: Codec, p: KeyPart, rest: string, first: bool)
    requires Faithful(codec) && Ends(rest)
    requires p.Name? || (p.Index? && !first && p.index < Power(INDEX_DIGITS))
    ensures ParsePart(codec, ShowPart(codec, p) + rest, first) == Ok((p, |ShowPart(codec, p)|))
  {
    hide Faithful, ParsePart, Power;
    if p.Name? { NameRoundTrip(codec, p.name, rest, first); } else { IndexRoundTrip(codec, p.index, rest); }
  }

  lemma {:induction false} ParsedRest(codec: Codec, s: string)
    requires Faithful(codec) && ParseRest(codec, s).Ok?
    ensures forall i | 0 <= i < |ParseRest(codec, s).value| ::
      (var p := ParseRest(codec, s).value[i]; p.Name? || (p.Index? && p.index < Power(INDEX_DIGITS)))
    decreases |s|
  {
    hide ParsePart, Faithful, Power;
    if s != "" {
      PartLength(codec, s[1..], false);
      PartIsPrintable(codec, s[1..], false);
      ParsedRest(codec, s[1..][ParsePart(codec, s[1..], false).value.1..]);
    }
  }

  lemma PartIsPrintable(codec: Codec, s: string, first: bool)
    requires Faithful(codec)
    ensures var r := ParsePart(codec, s, first);
      r.Ok? ==> r.value.0.Name? || (r.value.0.Index? && !first && r.value.0.index < Power(INDEX_DIGITS))
  {
  }

  lemma ParsedIsPrintable(codec: Codec, s: string)
    requires Faithful(codec) && ParseKey(codec, s).Ok?
    ensures Printable(ParseKey(codec, s).value)
  {
    hide ParsePart, Faithful, Power;
    FifteenDigits();
    PartLength(codec, s, true);
    PartIsPrintable(codec, s, true);
    ParsedRest(codec, s[ParsePart(codec, s, true).value.1..]);
  }

  /**
   The text of a key is read back as the same key exactly when the key begins with a name and has
   no index of more than 15 digits.
   */
  lemma KeyRoundTrip(codec: Codec, k: Key)
    requires Faithful(codec) && Public(k)
    ensures ParseKey(codec, ShowKey(codec, k)) == Ok(k) <==> Printable(k)
  {
    hide ParsePart, Faithful, Power, ShowPart;
    FifteenDigits();
    var s := ShowKey(codec, k);
    if ParseKey(codec, s) == Ok(k) {
      ParsedIsPrintable(codec, s);
    }
    if Printable(k) {
      var rest, p := ShowRest(codec, k[1..]), ShowPart(codec, k[0]);
      PartRoundTrip(codec, k[0], rest, true);
      RestRoundTrip(codec, k[1..]);
      PartLength(codec, p + rest, true);
      assert (p + rest)[|p|..] == rest;
      assert k == [k[0]] + k[1..];
    }
  }

  /** Printing what was read gives a text that is read and printed as itself. */
  lemma PrintingIsIdempotent(codec: Codec, s: string)
    requires Faithful(codec) && ParseKey(codec, s).Ok?
    ensures Public(ParseKey(codec, s).value)
    ensures var t := ShowKey(codec, ParseKey(codec, s).value);
      ParseKey(codec, t) == ParseKey(codec, s)
  {
    hide ParseKey, ShowKey, Faithful, Power;
    ParsedIsPrintable(codec, s);
    KeyRoundTrip(codec, ParseKey(codec, s).value);
  }

  /** A name is printed bare exactly when the grammar reads all of it as an identifier. */
  lemma BareNames(codec: Codec, n: string)
    ensures ShowPart(codec, Name(n)) == if n != "" && Ident(n) == |n| then n else "\"" + codec.escape(n) + "\""
  {
    if n != "" && IdentFirst(n[0]) { WholeRun(n[1..]); }
    if n != "" && Ident(n) == |n| { assert n[..|n|] == n; }
  }

  lemma {:induction false} WholeRun(s: string)
    ensures IdentRun(s) == |s| <==> forall i | 0 <= i < |s| :: IdentOther(s[i])
  {
    if s != "" {
      WholeRun(s[1..]);
      assert forall i | 1 <= i < |s| :: s[i] == s[1..][i - 1];
    }
  }

  // ---- Which texts are keys ------------------------------------------------------------------

  /** `t`, followed by `rest`, is the text of the part `p`. */
  ghost predicate Spells(codec: Codec, t: string, rest: string, p: KeyPart, first: bool) {
    || (IsIdentifier(t) && p == Name(t))
    || (t != "" && (t[0] == '"' || t[0] == '\'') && p.Name? && codec.read(t + rest) == Read(p.name, |t|))
    || (!first && 1 <= |t| <= 15 && Digits(t) && p == Index(Decimal(t)))
  }

  /** Parts that are separated by dots, and nothing else. */
  ghost predicate Spelled(codec: Codec, s: string, k: Key, first: bool)
    decreases |k|, 1
  {
    k != [] && exists l: nat :: SplitsAt(codec, s, k, first, l)
  }

  /** The first part of the key has the length `l`. */
  ghost predicate SplitsAt(codec: Codec, s: string, k: Key, first: bool, l: nat)
    requires k != []
    decreases |k|, 0
  {
    && l <= |s| && Spells(codec, s[..l], s[l..], k[0], first)
    && if l == |s| then |k| == 1 else s[l] == '.' && Spelled(codec, s[l + 1..], k[1..], false)
  }

  lemma FirstSplit(codec: Codec, s: string, k: Key, first: bool) returns (l: nat)
    requires Spelled(codec, s, k, first)
    ensures k != [] && SplitsAt(codec, s, k, first, l)
  {
    l :| SplitsAt(codec, s, k, first, l);
  }

  /** A part of a key is read exactly where its text ends before a dot or at the end. */
  lemma PartIsSpelled(codec: Codec, s: string, l: nat, p: KeyPart, first: bool)
    requires Faithful(codec) && l <= |s| && Ends(s[l..])
    ensures ParsePart(codec, s, first) == Ok((p, l)) <==> Spells(codec, s[..l], s[l..], p, first)
  {
    hide Faithful, Power, Decimal;
    var t, rest := s[..l], s[l..];
    assert s == t + rest;
    PartLength(codec, s, first);
    if Spells(codec, t, rest, p, first) {
      if IsIdentifier(t) && p == Name(t) {
        RunEnds(t[1..], rest);
        assert s[1..] == t[1..] + rest;
      } else if t != "" && (t[0] == '"' || t[0] == '\'') {
        assert s[0] == t[0];
      } else {
        DigitsEnd(t, rest);
        assert s[0] == t[0] && '0' <= t[0] <= '9';
      }
    }
  }

  lemma {:induction false} RestIsSpelled(codec: Codec, s: string, k: Key)
    requires Faithful(codec)
    ensures ParseRest(codec, s) == Ok(k) <==> if s == "" then k == [] else s[0] == '.' && Spelled(codec, s[1..], k, false)
    decreases |s|, 0
  {
    hide ParsePart, Spells, Faithful;
    if s != "" && s[0] == '.' { TextIsSpelled(codec, s[1..], k, false); }
  }

  /** The part at the beginning, then the rest. */
  function ParseText(codec: Codec, s: string, first: bool): Result<Key>
    requires Faithful(codec)
  {
    var p := ParsePart(codec, s, first);
    if p.Err? then Err(p.error)
    else
      var r := ParseRest(codec, s[p.value.1..]);
      if r.Ok? then Ok([p.value.0] + r.value) else r
  }

  lemma {:induction false} TextIsSpelled(codec: Codec, s: string, k: Key, first: bool)
    requires Faithful(codec)
    ensures ParseText(codec, s, first) == Ok(k) <==> Spelled(codec, s, k, first)
    decreases |s|, 1
  {
    hide ParsePart, Spells, Faithful;
    PartLength(codec, s, first);
    var p := ParsePart(codec, s, first);
    if ParseText(codec, s, first) == Ok(k) {
      var l := p.value.1;
      assert k == [p.value.0] + k[1..] && ParseRest(codec, s[l..]) == Ok(k[1..]);
      RestIsSpelled(codec, s[l..], k[1..]);
      assert p == Ok((k[0], l));
      PartIsSpelled(codec, s, l, k[0], first);
      if l < |s| { assert s[l..][1..] == s[l + 1..]; }
      assert SplitsAt(codec, s, k, first, l);
    }
    if Spelled(codec, s, k, first) {
      var l := FirstSplit(codec, s, k, first);
      PartIsSpelled(codec, s, l, k[0], first);
      assert p == Ok((k[0], l));
      RestIsSpelled(codec, s[l..], k[1..]);
      if l < |s| { assert s[l..][1..] == s[l + 1..]; }
      assert k == [k[0]] + k[1..];
    }
  }

  /** A text is read as a key exactly when it spells the parts of the key. */
  lemma KeyIsSpelled(codec: Codec, s: string, k: Key)
    requires Faithful(codec)
    ensures ParseKey(codec, s) == Ok(k) <==> Spelled(codec, s, k, true)
  {
    hide ParsePart, Faithful;
    TextIsSpelled(codec, s, k, true);
  }

  // ---- Such string handling exists -----------------------------------------------------------

  function Backslashed(n: string): string {
    if n == "" then "" else Escaped(n[0]) + Backslashed(n[1..])
  }

  /** The name up to the closing quote, and the length including it. */
  function Unescape(s: string): (r: Reading)
    ensures r.Read? ==> 0 < r.length <= |s|
  {
    if s == "" then Unreadable
    else if s[0] == '"' then Read("", 1)
    else if s[0] == '\\' && |s| == 1 then Unreadable
    else
      var k := if s[0] == '\\' then 2 else 1;
      match Unescape(s[k..])
      case Unreadable => Unreadable
      case Read(n, l) => Read([s[k - 1]] + n, l + k)
  }

  /** One character of a name, with a backslash or without. */
  function Escaped(c: char): string {
    if c == '"' || c == '\\' then ['\\', c] else [c]
  }

  lemma UnescapeOne(c: char, t: string)
    ensures Unescape(Escaped(c) + t) ==
      match Unescape(t)
      case Unreadable => Unreadable
      case Read(n, l) => Read([c] + n, l + |Escaped(c)|)
  {
    var e := Escaped(c);
    var s := e + t;
    assert s[|e|..] == t && s[|e| - 1] == c;
  }

  lemma {:induction false} Unescaped(n: string, rest: string)
    requires rest != "" && rest[0] == '"'
    ensures Unescape(Backslashed(n) + rest) == Read(n, |Backslashed(n)| + 1)
  {
    if n == "" {
      assert Backslashed(n) + rest == rest;
    } else {
      hide Unescape, Escaped;
      Unescaped(n[1..], rest);
      UnescapeOne(n[0], Backslashed(n[1..]) + rest);
      assert Backslashed(n) + rest == Escaped(n[0]) + (Backslashed(n[1..]) + rest);
      assert n == [n[0]] + n[1..];
    }
  }

  /** A string in quotes, read off the front of a text. */
  function ReadBack(s: string): Reading {
    if s == "" || s[0] != '"' then Unreadable
    else match Unescape(s[1..])
      case Unreadable => Unreadable
      case Read(n, l) => Read(n, l + 1)
  }

  lemma ReadsItsOwn(n: string, rest: string)
    ensures ReadBack("\"" + Backslashed(n) + "\"" + rest) == Read(n, |Backslashed(n)| + 2)
  {
    var s := "\"" + Backslashed(n) + "\"" + rest;
    assert s[1..] == Backslashed(n) + ("\"" + rest);
    Unescaped(n, "\"" + rest);
  }

  lemma FaithfulExists() returns (codec: Codec)
    ensures Faithful(codec)
  {
    codec := Codec(n => Backslashed(n), s => ReadBack(s));
    forall n, rest | Ends(rest) ensures codec.read(Quoted(codec, n) + rest) == Read(n, |codec.escape(n)| + 2) {
      hide ReadBack, Backslashed;
      ReadsItsOwn(n, rest);
    }
    forall s ensures codec.read(s).Read? ==> 0 < codec.read(s).length <= |s| { assert codec.read(s) == ReadBack(s); }
  }
}
