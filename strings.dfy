/** The pieces of Go's `strings` and `strconv` packages that the core relies on,
    written out over `seq<char>` (one char per Unicode code point). */
module Strings {
  import opened Wrappers

  // ---------------------------------------------------------------------------
  // Searching and splitting

  /** Index of the first occurrence of `c` in `s`. */
  function IndexOfChar(s: string, c: char): (r: Option<nat>)
    ensures r.Some? ==> r.value < |s| && s[r.value] == c && c !in s[..r.value]
    ensures r.None? ==> c !in s
  {
    if s == [] then None
    else if s[0] == c then Some(0)
    else
      match IndexOfChar(s[1..], c)
      case None => None
      case Some(i) =>
        assert s[1..][..i] == s[1..i + 1];
        Some(i + 1)
  }

  /** `strings.Split(s, string(c))`: never empty, the separator is dropped. */
  function Split(s: string, c: char): (r: seq<string>)
    ensures |r| >= 1
    ensures forall i :: 0 <= i < |r| ==> c !in r[i]
    decreases |s|
  {
    match IndexOfChar(s, c)
    case None => [s]
    case Some(i) => [s[..i]] + Split(s[i + 1..], c)
  }

  /** `strings.Join(ps, string(c))`, the inverse of Split. */
  function Join(ps: seq<string>, c: char): string
    requires |ps| >= 1
  {
    if |ps| == 1 then ps[0] else ps[0] + [c] + Join(ps[1..], c)
  }

  /** Number of occurrences of `c` in `s`. */
  function Count(s: string, c: char): nat
  {
    if s == [] then 0 else (if s[0] == c then 1 else 0) + Count(s[1..], c)
  }

  lemma {:induction false} CountAppend(a: string, b: string, c: char)
    ensures Count(a + b, c) == Count(a, c) + Count(b, c)
  {
    if a == [] {
      assert a + b == b;
    } else {
      assert (a + b)[1..] == a[1..] + b;
      CountAppend(a[1..], b, c);
    }
  }

  lemma {:induction false} CountAbsent(s: string, c: char)
    requires c !in s
    ensures Count(s, c) == 0
  {
    if s != [] {
      assert c !in s[1..];
      CountAbsent(s[1..], c);
    }
  }

  lemma {:induction false} CountPresent(s: string, c: char)
    requires c in s
    ensures Count(s, c) > 0
  {
    if s[0] != c {
      assert c in s[1..];
      CountPresent(s[1..], c);
    }
  }

  /** Splitting and joining on the same separator is the identity. */
  lemma {:induction false} JoinSplit(s: string, c: char)
    ensures Join(Split(s, c), c) == s
    decreases |s|
  {
    match IndexOfChar(s, c)
    case None =>
    case Some(i) =>
      var rest := Split(s[i + 1..], c);
      var ps := Split(s, c);
      assert ps == [s[..i]] + rest;
      assert ps[1..] == rest;
      assert Join(ps, c) == s[..i] + [c] + Join(rest, c);
      JoinSplit(s[i + 1..], c);
      assert s == s[..i] + [c] + s[i + 1..];
  }

  /** Split yields one more piece than there are separators. */
  lemma {:induction false} SplitLength(s: string, c: char)
    ensures |Split(s, c)| == Count(s, c) + 1
    decreases |s|
  {
    match IndexOfChar(s, c)
    case None => CountAbsent(s, c);
    case Some(i) =>
      SplitLength(s[i + 1..], c);
      assert s == s[..i] + ([c] + s[i + 1..]);
      CountAppend(s[..i], [c] + s[i + 1..], c);
      CountAbsent(s[..i], c);
      assert ([c] + s[i + 1..])[1..] == s[i + 1..];
  }

  /** A string splits into a single piece exactly when the separator is absent. */
  lemma SplitSingleton(s: string, c: char)
    ensures |Split(s, c)| == 1 <==> c !in s
  {
    SplitLength(s, c);
    if c in s { CountPresent(s, c); } else { CountAbsent(s, c); }
  }

  lemma SplitUnfold(s: string, c: char, i: nat)
    requires IndexOfChar(s, c) == Some(i)
    ensures Split(s, c) == [s[..i]] + Split(s[i + 1..], c)
  {
  }

  lemma SplitSeveral(s: string, c: char)
    requires |Split(s, c)| >= 2
    ensures IndexOfChar(s, c).Some?
  {
  }

  /** The first piece of a split is the text before the first separator. */
  lemma SplitHead(s: string, c: char)
    ensures var p := Split(s, c)[0]; |p| <= |s| && s[..|p|] == p && (|p| == |s| || s[|p|] == c)
  {
    if IndexOfChar(s, c).Some? {
      SplitUnfold(s, c, IndexOfChar(s, c).value);
    }
  }

  /** The first two pieces of a split: `s` starts with the first piece, the
      separator and the second piece, and what follows is empty or starts with
      the separator. */
  lemma SplitFirstTwo(s: string, c: char)
    requires |Split(s, c)| >= 2
    ensures var ps := Split(s, c); var n := |ps[0]| + 1 + |ps[1]|;
      n <= |s| && s[..n] == ps[0] + [c] + ps[1] && (n == |s| || s[n] == c)
  {
    SplitSeveral(s, c);
    var i := IndexOfChar(s, c).value;
    var t := s[i + 1..];
    SplitUnfold(s, c, i);
    SplitHead(t, c);
    var p1 := Split(t, c)[0];
    assert Split(s, c)[0] == s[..i] && Split(s, c)[1] == p1;
    assert s == s[..i] + [c] + t;
    SliceAfterSeparator(s[..i], c, t, |p1|);
  }

  lemma SliceAfterSeparator(a: string, c: char, t: string, m: nat)
    requires m <= |t|
    ensures (a + [c] + t)[..|a| + 1 + m] == a + [c] + t[..m]
    ensures m < |t| ==> (a + [c] + t)[|a| + 1 + m] == t[m]
  {
  }

  predicate HasPrefix(s: string, p: string)
  {
    |p| <= |s| && s[..|p|] == p
  }

  predicate HasSuffix(s: string, p: string)
  {
    |p| <= |s| && s[|s| - |p|..] == p
  }

  /** `strings.TrimPrefix`. */
  function TrimPrefix(s: string, p: string): (r: string)
    ensures HasPrefix(s, p) ==> s == p + r
    ensures !HasPrefix(s, p) ==> r == s
  {
    if HasPrefix(s, p) then s[|p|..] else s
  }

  /** Stripping a prefix `p` that is present and then testing for `q` is
      testing the original for `p + q`. */
  lemma PrefixAfterTrim(s: string, p: string, q: string)
    requires HasPrefix(s, p)
    ensures HasPrefix(TrimPrefix(s, p), q) <==> HasPrefix(s, p + q)
  {
    var t := s[|p|..];
    if HasPrefix(t, q) {
      assert s[..|p| + |q|] == s[..|p|] + t[..|q|];
    }
    if HasPrefix(s, p + q) {
      assert t[..|q|] == s[|p|..|p| + |q|] == (p + q)[|p|..];
    }
  }

  /** A string with prefix `p + q` has prefix `p`. */
  lemma PrefixOfLonger(s: string, p: string, q: string)
    requires HasPrefix(s, p + q)
    ensures HasPrefix(s, p)
  {
    assert s[..|p|] == (p + q)[..|p|];
  }

  /** `strings.Contains`. */
  predicate Contains(s: string, sub: string)
    decreases |s|
  {
    HasPrefix(s, sub) || (s != [] && Contains(s[1..], sub))
  }

  /** An occurrence at position `i` makes `s` contain `sub`. */
  lemma {:induction false} ContainsAt(s: string, sub: string, i: nat)
    requires i + |sub| <= |s| && s[i..i + |sub|] == sub
    ensures Contains(s, sub)
    decreases i
  {
    if i > 0 {
      assert s[1..][i - 1..i - 1 + |sub|] == s[i..i + |sub|];
      ContainsAt(s[1..], sub, i - 1);
    }
  }

  /** Index of the first occurrence of `sub` in `s`. */
  function IndexOf(s: string, sub: string): (r: Option<nat>)
    ensures r.Some? ==> r.value + |sub| <= |s| && s[r.value..r.value + |sub|] == sub
    ensures r.Some? <==> Contains(s, sub)
    ensures r.Some? ==> forall j :: 0 <= j < r.value ==> !HasPrefix(s[j..], sub)
    decreases |s|
  {
    if HasPrefix(s, sub) then Some(0)
    else if s == [] then None
    else
      match IndexOf(s[1..], sub)
      case None => None
      case Some(i) =>
        assert s[1..][i..i + |sub|] == s[i + 1..i + 1 + |sub|];
        assert forall j :: 0 < j <= i ==> s[j..] == s[1..][j - 1..];
        Some(i + 1)
  }

  /** Appending `t` does not change a slice that lies inside `q`. */
  lemma SliceOfPrefix(q: string, t: string, k: nat, m: nat)
    requires k + m <= |q|
    ensures (q + t)[k..k + m] == q[k..][..m]
  {
  }

  /** In `p + sub + t`, the first occurrence of `sub` is the one after `p`
      when none starts inside `p`. */
  lemma IndexOfAfterPrefix(p: string, sub: string, t: string)
    requires forall j :: 0 <= j < |p| ==> !HasPrefix((p + sub)[j..], sub)
    ensures IndexOf(p + sub + t, sub) == Some(|p|)
  {
    var q := p + sub;
    var s := q + t;
    assert s[|p|..][..|sub|] == sub;
    ContainsAt(s, sub, |p|);
    forall j | 0 <= j < |p|
      ensures !HasPrefix(s[j..], sub)
    {
      SliceOfPrefix(q, t, j, |sub|);
      assert s[j..][..|sub|] == s[j..j + |sub|];
    }
    var k := IndexOf(s, sub).value;
    assert s[k..][..|sub|] == s[k..k + |sub|];
    assert k == |p|;
  }

  /** `strings.SplitAfter(s, sub)[1]` when `sub` occurs in `s`: the text after
      the first occurrence, up to and including the end of the second occurrence
      (or to the end of `s` when there is none). */
  function SecondAfterPiece(s: string, sub: string): (r: string)
    requires Contains(s, sub) && |sub| > 0
    ensures HasPrefix(s[IndexOf(s, sub).value + |sub|..], r)
  {
    var i := IndexOf(s, sub).value;
    var t := s[i + |sub|..];
    match IndexOf(t, sub)
    case None => t
    case Some(j) => t[..j + |sub|]
  }

  /** `strings.Replace(s, string(c), "", -1)`. */
  function RemoveChar(s: string, c: char): (r: string)
    ensures c !in r
    ensures |r| <= |s|
  {
    if s == [] then []
    else if s[0] == c then RemoveChar(s[1..], c)
    else [s[0]] + RemoveChar(s[1..], c)
  }

  /** RemoveChar leaves a string without `c` alone. */
  lemma {:induction false} RemoveCharAbsent(s: string, c: char)
    requires c !in s
    ensures RemoveChar(s, c) == s
  {
    if s != [] {
      assert c !in s[1..];
      RemoveCharAbsent(s[1..], c);
    }
  }

  /** RemoveChar adds no character. */
  lemma {:induction false} RemoveCharKeeps(s: string, c: char, d: char)
    requires d !in s
    ensures d !in RemoveChar(s, c)
  {
    if s != [] {
      assert d !in s[1..];
      RemoveCharKeeps(s[1..], c, d);
    }
  }

  // ---------------------------------------------------------------------------
  // Whitespace (Go's unicode.IsSpace)

  predicate IsSpace(ch: char)
  {
    ch == '\t' || ch == '\n' || ch == '\U{000B}' || ch == '\U{000C}' || ch == '\r' || ch == ' '
    || ch == '\U{0085}' || ch == '\U{00A0}' || ch == '\U{1680}'
    || ('\U{2000}' <= ch <= '\U{200A}')
    || ch == '\U{2028}' || ch == '\U{2029}' || ch == '\U{202F}' || ch == '\U{205F}' || ch == '\U{3000}'
  }

  predicate AllSpace(s: string)
  {
    forall i :: 0 <= i < |s| ==> IsSpace(s[i])
  }

  /** Length of the leading run of whitespace. */
  function LeftSpan(s: string): (k: nat)
    ensures k <= |s| && AllSpace(s[..k]) && (k == |s| || !IsSpace(s[k]))
  {
    if s != [] && IsSpace(s[0]) then
      var k := LeftSpan(s[1..]);
      assert forall i :: 1 <= i < k + 1 ==> s[i] == s[1..][i - 1];
      k + 1
    else 0
  }

  /** Start of the trailing run of whitespace. */
  function RightSpan(s: string): (k: nat)
    ensures k <= |s| && AllSpace(s[k..]) && (k == 0 || !IsSpace(s[k - 1]))
  {
    if s != [] && IsSpace(s[|s| - 1]) then
      var k := RightSpan(s[..|s| - 1]);
      assert forall i :: k <= i < |s| - 1 ==> s[i] == s[..|s| - 1][i];
      k
    else |s|
  }

  /** `strings.TrimSpace`: the result neither starts nor ends with whitespace. */
  function TrimSpace(s: string): (r: string)
    ensures r == [] || (!IsSpace(r[0]) && !IsSpace(r[|r| - 1]))
  {
    var a := LeftSpan(s);
    var t := s[a..];
    var b := RightSpan(t);
    if b == 0 then [] else
      assert t[..b][0] == t[0];
      t[..b]
  }

  /** `s` is some whitespace, then TrimSpace(s), then some whitespace. */
  lemma TrimSpaceShape(s: string)
    ensures exists a, b :: 0 <= a <= b <= |s| && AllSpace(s[..a]) && AllSpace(s[b..]) && TrimSpace(s) == s[a..b]
  {
    var a := LeftSpan(s);
    var t := s[a..];
    var b := RightSpan(t);
    assert s[a + b..] == t[b..];
    assert TrimSpace(s) == s[a..a + b];
  }

  /** Trimming twice trims nothing more. */
  lemma TrimSpaceIdempotent(s: string)
    ensures TrimSpace(TrimSpace(s)) == TrimSpace(s)
  {
    var r := TrimSpace(s);
    assert LeftSpan(r) == 0;
    assert r[0..] == r;
    assert RightSpan(r) == |r|;
  }

  // ---------------------------------------------------------------------------
  // Decimal numbers

  predicate IsDigit(ch: char)
  {
    '0' <= ch <= '9'
  }

  predicate AllDigits(s: string)
  {
    forall i :: 0 <= i < |s| ==> IsDigit(s[i])
  }

  /** The value of a string of decimal digits, most significant first. */
  function DigitsValue(s: string): nat
    requires AllDigits(s)
  {
    if s == [] then 0
    else DigitsValue(s[..|s| - 1]) * 10 + (s[|s| - 1] as int - '0' as int)
  }

  function DigitChar(d: nat): (ch: char)
    requires d < 10
    ensures IsDigit(ch) && ch as int - '0' as int == d
  {
    (d + '0' as int) as char
  }

  /** `fmt.Sprintf("%d", n)` for n >= 0. */
  function NatToString(n: nat): (s: string)
    ensures |s| >= 1 && AllDigits(s)
  {
    if n < 10 then [DigitChar(n)] else NatToString(n / 10) + [DigitChar(n % 10)]
  }

  /** Reading back a printed number gives the number. */
  lemma {:induction false} NatToStringRoundTrip(n: nat)
    ensures DigitsValue(NatToString(n)) == n
  {
    var s := NatToString(n);
    if n >= 10 {
      NatToStringRoundTrip(n / 10);
      assert s[..|s| - 1] == NatToString(n / 10);
    }
  }

  /** `fmt.Sprintf("%d", i)`. */
  function IntToString(i: int): string
  {
    if i < 0 then "-" + NatToString(-i) else NatToString(i)
  }

  /** The outcome of `strconv.ParseInt(s, 10, bits)`: the value Go returns and
      whether the error is nil. */
  datatype ParsedInt = ParsedInt(value: int, ok: bool)

  /** 2^(bits-1), the magnitude of the most negative `bits`-bit integer. */
  function SignedLimit(bits: nat): (r: int)
    requires bits == 32 || bits == 64
  {
    if bits == 32 then 0x8000_0000 else 0x8000_0000_0000_0000
  }

  /** The digits of a decimal numeral after its optional sign. */
  function NumeralDigits(s: string): string
  {
    if |s| > 0 && (s[0] == '-' || s[0] == '+') then s[1..] else s
  }

  /** An optional sign followed by at least one decimal digit. */
  predicate IsNumeral(s: string)
  {
    NumeralDigits(s) != [] && AllDigits(NumeralDigits(s))
  }

  /** The mathematical value of a numeral, whatever its size. */
  function NumeralValue(s: string): int
    requires IsNumeral(s)
  {
    if s[0] == '-' then -(DigitsValue(NumeralDigits(s)) as int) else DigitsValue(NumeralDigits(s))
  }

  /** `strconv.ParseInt(s, 10, bits)`: an optional sign and at least one digit;
      a syntax error gives 0, an out-of-range value gives the nearest bound. */
  function ParseInt(s: string, bits: nat): (r: ParsedInt)
    requires bits == 32 || bits == 64
    ensures r.ok ==> -SignedLimit(bits) <= r.value < SignedLimit(bits)
    ensures !r.ok ==> r.value in {0, -SignedLimit(bits), SignedLimit(bits) - 1}
    ensures !IsNumeral(s) ==> r == ParsedInt(0, false)
    ensures IsNumeral(s) ==> (r.ok <==> -SignedLimit(bits) <= NumeralValue(s) < SignedLimit(bits))
    ensures IsNumeral(s) && r.ok ==> r.value == NumeralValue(s)
    ensures IsNumeral(s) && NumeralValue(s) >= SignedLimit(bits) ==> r == ParsedInt(SignedLimit(bits) - 1, false)
    ensures IsNumeral(s) && NumeralValue(s) < -SignedLimit(bits) ==> r == ParsedInt(-SignedLimit(bits), false)
  {
    var neg := |s| > 0 && s[0] == '-';
    var digits := if |s| > 0 && (s[0] == '-' || s[0] == '+') then s[1..] else s;
    if digits == [] || !AllDigits(digits) then ParsedInt(0, false)
    else
      var v: int := DigitsValue(digits);
      var cutoff := SignedLimit(bits);
      if !neg then (if v >= cutoff then ParsedInt(cutoff - 1, false) else ParsedInt(v, true))
      else (if v > cutoff then ParsedInt(-cutoff, false) else ParsedInt(-v, true))
  }

  /** `strconv.Atoi` on a 64-bit platform. */
  function Atoi(s: string): ParsedInt
  {
    ParseInt(s, 64)
  }

  /** Printing a 64-bit integer and reading it back with Atoi gives it back. */
  lemma AtoiIntToString(i: int)
    requires -SignedLimit(64) <= i < SignedLimit(64)
    ensures Atoi(IntToString(i)) == ParsedInt(i, true)
  {
    if i < 0 {
      NatToStringRoundTrip(-i);
      ParseNegative(NatToString(-i));
    } else {
      NatToStringRoundTrip(i);
      ParseUnsigned(NatToString(i));
    }
  }

  /** A numeral without a sign is read as its value. */
  lemma ParseUnsigned(d: string)
    requires |d| > 0 && AllDigits(d) && DigitsValue(d) < SignedLimit(64)
    ensures ParseInt(d, 64) == ParsedInt(DigitsValue(d), true)
  {
    assert IsDigit(d[0]);
  }

  /** A minus sign and a numeral are read as the negated value. */
  lemma ParseNegative(d: string)
    requires |d| > 0 && AllDigits(d) && DigitsValue(d) <= SignedLimit(64)
    ensures ParseInt("-" + d, 64) == ParsedInt(-(DigitsValue(d) as int), true)
  {
    assert ("-" + d)[1..] == d;
  }

  const MaxUint64: nat := 0xFFFF_FFFF_FFFF_FFFF

  /** `strconv.ParseUint(s, 10, 64)` when its error is nil; None otherwise. */
  function ParseUint64(s: string): Option<nat>
  {
    if |s| > 0 && AllDigits(s) && DigitsValue(s) <= MaxUint64 then Some(DigitsValue(s)) else None
  }

  /** `strconv.ParseBool` when its error is nil; None otherwise. */
  function ParseBool(s: string): Option<bool>
  {
    if s in {"1", "t", "T", "TRUE", "true", "True"} then Some(true)
    else if s in {"0", "f", "F", "FALSE", "false", "False"} then Some(false)
    else None
  }

  /** `strconv.Quote` for strings needing no escapes. */
  function Quote(s: string): string
  {
    "\"" + s + "\""
  }

  /** The text of the error `strconv.ParseUint(s, 10, 64)` returns. */
  function ParseUintErrorText(s: string): string
  {
    "strconv.ParseUint: parsing " + Quote(s) + ": "
    + (if |s| > 0 && AllDigits(s) then "value out of range" else "invalid syntax")
  }
}
