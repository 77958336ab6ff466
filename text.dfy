/** The lexical layer of the topology grammar: splitting on a separator
    character the way std::sregex_token_iterator with sub-match -1 does,
    integer fields matching `(\+|-)?[[:digit:]]+`, what `istream >> int`
    and `istream >> float` read from a field, and how `ostream <<` prints
    integers and the dropout rate. */
module Text {

  // ---------------------------------------------------------------------
  // Digits and natural numbers

  predicate IsDigit(c: char) { '0' <= c <= '9' }

  predicate AllDigits(s: string) { forall i :: 0 <= i < |s| ==> IsDigit(s[i]) }

  function DigitValue(c: char): nat
    requires IsDigit(c)
  {
    (c as int) - ('0' as int)
  }

  function DigitChar(n: nat): (c: char)
    requires n < 10
    ensures IsDigit(c) && DigitValue(c) == n
  {
    ('0' as int + n) as char
  }

  /** Value of a decimal digit string, most significant digit first. */
  function DigitsValue(s: string): nat
    requires AllDigits(s)
  {
    if |s| == 0 then 0 else DigitsValue(s[..|s| - 1]) * 10 + DigitValue(s[|s| - 1])
  }

  /** Decimal text of a natural number, without leading zeros. */
  function NatToString(n: nat): (s: string)
    ensures |s| >= 1 && AllDigits(s)
    ensures |s| > 1 ==> s[0] != '0'
  {
    if n < 10 then [DigitChar(n)] else NatToString(n / 10) + [DigitChar(n % 10)]
  }

  lemma {:induction false} NatToStringValue(n: nat)
    ensures DigitsValue(NatToString(n)) == n
  {
    if n >= 10 {
      var s := NatToString(n);
      assert s[..|s| - 1] == NatToString(n / 10);
      NatToStringValue(n / 10);
    }
  }

  /** Leading zeros do not change the value of a digit string. */
  lemma {:induction false} ZerosPrefixValue(k: nat, s: string)
    requires AllDigits(s)
    ensures AllDigits(Zeros(k) + s) && DigitsValue(Zeros(k) + s) == DigitsValue(s)
  {
    if |s| == 0 {
      assert Zeros(k) + s == Zeros(k);
      ZerosValue(k);
    } else {
      var t := Zeros(k) + s;
      assert t[..|t| - 1] == Zeros(k) + s[..|s| - 1];
      ZerosPrefixValue(k, s[..|s| - 1]);
    }
  }

  lemma {:induction false} ZerosValue(k: nat)
    ensures DigitsValue(Zeros(k)) == 0
  {
    if k > 0 {
      assert Zeros(k)[..k - 1] == Zeros(k - 1);
      ZerosValue(k - 1);
    }
  }

  function Zeros(k: nat): (s: string)
    ensures |s| == k && AllDigits(s)
    ensures forall i :: 0 <= i < k ==> s[i] == '0'
  {
    if k == 0 then [] else Zeros(k - 1) + ['0']
  }

  // ---------------------------------------------------------------------
  // Signed integers

  /** What `ostream << int` prints. */
  function IntToString(n: int): (s: string)
    ensures |s| >= 1
  {
    if n < 0 then "-" + NatToString(-n) else NatToString(n)
  }

  /** The field matches the regular expression `(\+|-)?[[:digit:]]+`. */
  predicate IsIntegerText(s: string) {
    |s| > 0 &&
    if s[0] == '+' || s[0] == '-' then |s| >= 2 && AllDigits(s[1..]) else AllDigits(s)
  }

  /** The value `istream >> int` reads from a field that matches the
      integer pattern. */
  function IntegerValue(s: string): int
    requires IsIntegerText(s)
  {
    if s[0] == '-' then -(DigitsValue(s[1..]) as int)
    else if s[0] == '+' then DigitsValue(s[1..])
    else DigitsValue(s)
  }

  /** The longest prefix of `s` made of digits. */
  function LeadingDigits(s: string): (r: string)
    ensures AllDigits(r) && r <= s
    ensures |r| < |s| ==> !IsDigit(s[|r|])
  {
    if |s| > 0 && IsDigit(s[0]) then [s[0]] + LeadingDigits(s[1..]) else []
  }

  lemma {:induction false} LeadingDigitsOfDigits(a: string, rest: string)
    requires AllDigits(a)
    requires |rest| > 0 ==> !IsDigit(rest[0])
    ensures LeadingDigits(a + rest) == a
  {
    if |a| > 0 {
      assert (a + rest)[1..] == a[1..] + rest;
      LeadingDigitsOfDigits(a[1..], rest);
    } else {
      assert a + rest == rest;
    }
  }

  /** What `istream >> int` stores when reading a whole field: an optional
      sign followed by the longest run of digits; when no digit follows,
      the extraction fails and stores 0. Leading white space and values
      outside 32 bits are not modelled. */
  function ScanInt(s: string): int {
    var signed := |s| > 0 && (s[0] == '-' || s[0] == '+');
    var body := if signed then s[1..] else s;
    var ds := LeadingDigits(body);
    if |ds| == 0 then 0
    else if signed && s[0] == '-' then -(DigitsValue(ds) as int)
    else DigitsValue(ds)
  }

  /** Printing an integer yields a field of the integer pattern, and both
      the pattern's value and `>>` read the integer back. */
  lemma IntToStringRoundTrip(n: int)
    ensures IsIntegerText(IntToString(n))
    ensures IntegerValue(IntToString(n)) == n
    ensures ScanInt(IntToString(n)) == n
  {
    var m: nat := if n < 0 then -n else n;
    var d := NatToString(m);
    NatToStringValue(m);
    LeadingDigitsOfDigits(d, []);
    assert d + [] == d;
    if n < 0 {
      assert IntToString(n)[1..] == d;
    }
  }

  /** On a field that matches the integer pattern, `>>` reads the value the
      pattern denotes. */
  lemma ScanIntOfIntegerText(s: string)
    requires IsIntegerText(s)
    ensures ScanInt(s) == IntegerValue(s)
  {
    var body := if s[0] == '-' || s[0] == '+' then s[1..] else s;
    LeadingDigitsOfDigits(body, []);
    assert body + [] == body;
  }

  // ---------------------------------------------------------------------
  // The dropout rate: a non-negative decimal number

  /** A decimal number mantissa / 10^scale. A rate is canonical when its
      last fractional digit is not zero, the form `ostream <<` prints. */
  datatype Rate = Rate(mantissa: nat, scale: nat)

  predicate Canonical(r: Rate) { r.scale > 0 ==> r.mantissa % 10 != 0 }

  function Pow10(k: nat): (p: nat)
    ensures p >= 1
  {
    if k == 0 then 1 else 10 * Pow10(k - 1)
  }

  function RateValue(r: Rate): real { (r.mantissa as real) / (Pow10(r.scale) as real) }

  /** The rate 0.9 that the dropout token defaults to. */
  const DefaultDropoutRate := Rate(9, 1)

  /** Removes trailing fractional zeros; keeps the value. */
  function Normalize(r: Rate): (n: Rate)
    ensures Canonical(n)
    ensures RateValue(n) == RateValue(r)
    decreases r.scale
  {
    if r.scale > 0 && r.mantissa % 10 == 0 then
      var next := Rate(r.mantissa / 10, r.scale - 1);
      assert RateValue(next) == RateValue(r) by {
        assert r.mantissa == 10 * (r.mantissa / 10);
        assert Pow10(r.scale) == 10 * Pow10(r.scale - 1);
        DivideCommon(r.mantissa / 10, Pow10(r.scale - 1));
      }
      Normalize(next)
    else r
  }

  lemma DivideCommon(a: nat, b: nat)
    requires b > 0
    ensures ((10 * a) as real) / ((10 * b) as real) == (a as real) / (b as real)
  {
  }

  /** Decimal text of a rate: the mantissa's digits with a point placed
      `scale` digits from the right, padded with zeros to one integer digit. */
  function RateToString(r: Rate): (s: string)
    ensures |s| >= 1
  {
    var digits := NatToString(r.mantissa);
    if r.scale == 0 then digits
    else Pointed(Padded(digits, r.scale), r.scale)
  }

  /** The digits, left-padded with zeros to more than `scale` of them. */
  function Padded(digits: string, scale: nat): (p: string)
    ensures |p| > scale || |p| == |digits|
  {
    if |digits| <= scale then Zeros(scale + 1 - |digits|) + digits else digits
  }

  /** The digits with a decimal point before the last `scale` of them. */
  function Pointed(padded: string, scale: nat): string
    requires scale <= |padded|
  {
    padded[..|padded| - scale] + "." + padded[|padded| - scale..]
  }

  /** What `istream >> float` reads, restricted to plain decimals: digits,
      optionally a point and more digits; when neither part has a digit the
      extraction fails and stores 0. Signs, exponents and the rounding to
      a 32-bit float are not modelled. */
  function ScanRate(s: string): Rate {
    var whole := LeadingDigits(s);
    var rest := s[|whole|..];
    var frac := if |rest| > 0 && rest[0] == '.' then LeadingDigits(rest[1..]) else [];
    if |whole| == 0 && |frac| == 0 then Rate(0, 0)
    else Normalize(Rate(DigitsValue(whole + frac), |frac|))
  }

  /** Printing a canonical rate and reading it back gives the same rate. */
  lemma RateRoundTrip(r: Rate)
    requires Canonical(r)
    ensures ScanRate(RateToString(r)) == r
  {
    var digits := NatToString(r.mantissa);
    NatToStringValue(r.mantissa);
    if r.scale == 0 {
      LeadingDigitsOfDigits(digits, []);
      assert digits + [] == digits;
    } else {
      var k := if |digits| <= r.scale then r.scale + 1 - |digits| else 0;
      var padded := Zeros(k) + digits;
      assert padded == Padded(digits, r.scale);
      ZerosPrefixValue(k, digits);
      var cut := |padded| - r.scale;
      assert RateToString(r) == Pointed(padded, r.scale);
      SplitDigits(padded, cut);
      ScanPointed(padded[..cut], padded[cut..]);
    }
  }

  /** Both sides of a cut through a digit string are digit strings, and
      they join back into it. */
  lemma SplitDigits(s: string, cut: nat)
    requires AllDigits(s) && cut <= |s|
    ensures AllDigits(s[..cut]) && AllDigits(s[cut..]) && s[..cut] + s[cut..] == s
  {
  }

  /** Reading `whole.frac` for digit strings with at least one integer digit. */
  lemma ScanPointed(whole: string, frac: string)
    requires AllDigits(whole) && AllDigits(frac) && |whole| > 0
    ensures ScanRate(whole + "." + frac) == Normalize(Rate(DigitsValue(whole + frac), |frac|))
  {
    var s := whole + "." + frac;
    assert s == whole + ("." + frac);
    LeadingDigitsOfDigits(whole, "." + frac);
    assert s[|whole|..] == "." + frac;
    assert ("." + frac)[1..] == frac;
    LeadingDigitsOfDigits(frac, []);
    assert frac + [] == frac;
  }

  // ---------------------------------------------------------------------
  // Splitting on a separator

  /** Every piece between separators, including empty ones and the piece
      after the last separator. */
  function Pieces(s: string, sep: char): (r: seq<string>)
    ensures |r| >= 1
    ensures forall i :: 0 <= i < |r| ==> sep !in r[i]
  {
    if |s| == 0 then [""]
    else
      var rest := Pieces(s[1..], sep);
      if s[0] == sep then [""] + rest else [[s[0]] + rest[0]] + rest[1..]
  }

  /** The pieces std::sregex_token_iterator with sub-match -1 produces:
      without a separator the whole text (even when empty); otherwise the
      text before each separator, and the text after the last separator
      only when it is not empty. */
  function Split(s: string, sep: char): (r: seq<string>)
    ensures |r| >= 1
    ensures forall i :: 0 <= i < |r| ==> sep !in r[i]
  {
    var p := Pieces(s, sep);
    if |p| > 1 && p[|p| - 1] == "" then p[..|p| - 1] else p
  }

  /** The pieces joined back with one separator between neighbours. */
  function Join(ts: seq<string>, sep: char): string
    requires |ts| >= 1
  {
    if |ts| == 1 then ts[0] else ts[0] + [sep] + Join(ts[1..], sep)
  }

  /** Joining pieces that hold no separator and splitting again gives the
      same pieces. */
  lemma {:induction false} PiecesOfJoin(ts: seq<string>, sep: char)
    requires |ts| >= 1
    requires forall i :: 0 <= i < |ts| ==> sep !in ts[i]
    ensures Pieces(Join(ts, sep), sep) == ts
  {
    if |ts| == 1 {
      PiecesOfSepFree(ts[0], [], sep);
      assert ts[0] + [] == ts[0];
    } else {
      PiecesOfJoin(ts[1..], sep);
      PiecesOfSepFree(ts[0], [sep] + Join(ts[1..], sep), sep);
      assert ts[0] + [sep] + Join(ts[1..], sep) == ts[0] + ([sep] + Join(ts[1..], sep));
      assert ([sep] + Join(ts[1..], sep))[1..] == Join(ts[1..], sep);
    }
  }

  /** A separator-free prefix glues onto the first piece of what follows. */
  lemma {:induction false} PiecesOfSepFree(a: string, rest: string, sep: char)
    requires sep !in a
    requires |rest| == 0 || rest[0] == sep
    ensures Pieces(a + rest, sep) ==
            (if |rest| == 0 then [a] else [a] + Pieces(rest[1..], sep))
  {
    if |a| == 0 {
      assert a + rest == rest;
    } else {
      assert (a + rest)[1..] == a[1..] + rest;
      PiecesOfSepFree(a[1..], rest, sep);
      assert [a[0]] + a[1..] == a;
    }
  }

  /** The format the network serialiser produces splits back into its
      tokens: pieces hold no separator and the last one is not empty. */
  lemma SplitOfJoin(ts: seq<string>, sep: char)
    requires |ts| >= 1
    requires forall i :: 0 <= i < |ts| ==> sep !in ts[i]
    requires |ts| > 1 ==> ts[|ts| - 1] != ""
    ensures Split(Join(ts, sep), sep) == ts
  {
    PiecesOfJoin(ts, sep);
  }

  /** Text without any separator is a single piece. */
  lemma SplitOfSepFree(s: string, sep: char)
    requires sep !in s
    ensures Split(s, sep) == [s]
  {
    PiecesOfSepFree(s, [], sep);
    assert s + [] == s;
  }
}
