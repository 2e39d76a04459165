/** Decimal amounts as text and as integer units (internal/wallet/decimal.go, internal/chain/chain.go). */
module Decimal {
  import opened Modular
  import opened Records
  import opened Words

  datatype Problem = BadDecimals | BadFormat | TooPrecise | TooLarge

  datatype Parsed = Amount(units: nat) | Rejected(problem: Problem)

  const MAX_DECIMALS: int := 36
  const UINT256_MAX: nat := TWO256 - 1

  predicate IsDigit(c: char) {
    '0' <= c <= '9'
  }

  predicate AllDigits(s: string) {
    forall c :: c in s ==> IsDigit(c)
  }

  function DigitValue(c: char): (v: nat)
    requires IsDigit(c)
    ensures v < 10
  {
    c as int - '0' as int
  }

  function DigitChar(v: nat): (c: char)
    requires v < 10
    ensures IsDigit(c) && DigitValue(c) == v
  {
    ('0' as int + v) as char
  }

  /** The number a digit string denotes; none denotes zero. */
  function Value(s: string): nat
    requires AllDigits(s)
  {
    if s == "" then 0 else Value(s[..|s|-1]) * 10 + DigitValue(s[|s|-1])
  }

  /** The shortest digit string of a number. */
  function Digits(n: nat): (s: string)
    ensures s != "" && AllDigits(s)
  {
    if n < 10 then [DigitChar(n)] else Digits(n / 10) + [DigitChar(n % 10)]
  }

  function Pow10(k: nat): (p: nat)
    ensures p > 0
  {
    if k == 0 then 1 else 10 * Pow10(k - 1)
  }

  function Zeros(k: nat): (s: string)
    ensures |s| == k && forall c :: c in s ==> c == '0'
  {
    seq(k, _ => '0')
  }

  function TrimLeft(s: string): string {
    if s != "" && s[0] == '0' then TrimLeft(s[1..]) else s
  }

  function TrimRight(s: string): string {
    if s != "" && s[|s|-1] == '0' then TrimRight(s[..|s|-1]) else s
  }

  // ---------------------------------------------------------------- the conversions

  /** The place of the first point, or the length. */
  function Point(s: string): (i: nat)
    ensures i <= |s| && (i < |s| ==> s[i] == '.') && forall k :: 0 <= k < i ==> s[k] != '.'
  {
    if s == "" || s[0] == '.' then 0 else 1 + Point(s[1..])
  }

  function Whole(s: string): string {
    s[..Point(s)]
  }

  function Frac(s: string): string {
    if Point(s) < |s| then s[Point(s) + 1..] else ""
  }

  /** Digits, optionally a point and digits. */
  predicate IsDecimal(s: string) {
    && Whole(s) != "" && AllDigits(Whole(s)) && AllDigits(Frac(s))
    && (Point(s) < |s| ==> Frac(s) != "")
  }

  function ParseUnits(s: string, decimals: int): Parsed {
    if decimals < 0 || decimals > MAX_DECIMALS then Rejected(BadDecimals)
    else if !IsDecimal(s) then Rejected(BadFormat)
    else if |Frac(s)| > decimals then Rejected(TooPrecise)
    else
      var combined := TrimLeft(Whole(s) + (Frac(s) + Zeros(decimals - |Frac(s)|)));
      TrimLeftDigits(Whole(s) + (Frac(s) + Zeros(decimals - |Frac(s)|)));
      if combined == "" then Amount(0)
      else if Value(combined) > UINT256_MAX then Rejected(TooLarge)
      else Amount(Value(combined))
  }

  /** `frac` in `decimals` digits, without trailing zeros. */
  function FracDigits(frac: nat, decimals: nat): string
    requires 0 < frac < Pow10(decimals)
  {
    DigitsFit(frac, decimals);
    TrimRight(Zeros(decimals - |Digits(frac)|) + Digits(frac))
  }

  function WholePart(n: nat, decimals: nat): nat {
    Quotient(n, Pow10(decimals))
  }

  function FracPart(n: nat, decimals: nat): (f: nat)
    ensures f < Pow10(decimals)
    ensures n == WholePart(n, decimals) * Pow10(decimals) + f
  {
    Remainder(n, Pow10(decimals))
  }

  /** No amount is treated as zero. A negative number of decimals scales by one. */
  function FormatUnits(raw: nat, decimals: int): string {
    if raw == 0 then "0"
    else if decimals == 0 then Digits(raw)
    else
      var scale := if decimals < 0 then 0 else decimals;
      var whole, frac := WholePart(raw, scale), FracPart(raw, scale);
      if frac == 0 then Digits(whole) else Digits(whole) + "." + FracDigits(frac, scale)
  }

  const ETH_DECIMALS: nat := 18

  function FormatETH(wei: nat): string {
    var whole, frac := WholePart(wei, ETH_DECIMALS), FracPart(wei, ETH_DECIMALS);
    if frac == 0 then Digits(whole) else Digits(whole) + "." + FracDigits(frac, ETH_DECIMALS)
  }

  // ---------------------------------------------------------------- digit strings

  lemma {:induction false} TrimLeftDigits(s: string)
    requires AllDigits(s)
    ensures AllDigits(TrimLeft(s))
    ensures Value(TrimLeft(s)) == Value(s)
  {
    if s != "" && s[0] == '0' {
      TrimLeftDigits(s[1..]);
      ValueConcat([s[0]], s[1..]);
      assert s == [s[0]] + s[1..];
      assert [s[0]][..0] == "";
      assert Value([s[0]]) == 0;
    }
  }

  lemma Shifted(x: nat, p: nat, y: nat, d: nat)
    ensures (x * p + y) * 10 + d == x * (10 * p) + (y * 10 + d)
  {
  }

  lemma {:induction false} ValueConcat(a: string, b: string)
    requires AllDigits(a) && AllDigits(b)
    ensures AllDigits(a + b) && Value(a + b) == Value(a) * Pow10(|b|) + Value(b)
  {
    if b == "" {
      assert a + b == a;
    } else {
      var front, last := b[..|b|-1], DigitValue(b[|b|-1]);
      ValueConcat(a, front);
      assert (a + b)[..|a + b|-1] == a + front;
      Shifted(Value(a), Pow10(|front|), Value(front), last);
    }
  }

  lemma {:induction false} ValueBelow(s: string)
    requires AllDigits(s)
    ensures Value(s) < Pow10(|s|)
  {
    if s != "" {
      ValueBelow(s[..|s|-1]);
    }
  }

  lemma {:induction false} ValueZeros(k: nat)
    ensures Value(Zeros(k)) == 0
  {
    if k > 0 {
      ValueZeros(k - 1);
      assert Zeros(k)[..k - 1] == Zeros(k - 1);
    }
  }

  lemma {:induction false} DigitsValue(n: nat)
    ensures Value(Digits(n)) == n
  {
    if n < 10 {
      assert Digits(n)[..0] == "";
    } else {
      DigitsValue(n / 10);
      assert Digits(n)[..|Digits(n)|-1] == Digits(n / 10);
    }
  }

  /** A number below 10^k has at most k digits. */
  lemma {:induction false} DigitsFit(n: nat, k: nat)
    requires 0 < n < Pow10(k)
    ensures |Digits(n)| <= k
  {
    if n >= 10 {
      DigitsFit(n / 10, k - 1);
    }
  }

  /** A digit string is determined by its length and value. */
  lemma {:induction false} SameDigits(a: string, b: string)
    requires AllDigits(a) && AllDigits(b) && |a| == |b| && Value(a) == Value(b)
    ensures a == b
  {
    if a != "" {
      SameDigits(a[..|a|-1], b[..|b|-1]);
      assert DigitValue(a[|a|-1]) == DigitValue(b[|b|-1]);
      assert a == a[..|a|-1] + [a[|a|-1]] && b == b[..|b|-1] + [b[|b|-1]];
    }
  }

  lemma {:induction false} PointAfter(a: string, b: string)
    requires AllDigits(a)
    ensures Point(a + "." + b) == |a| && Point(a) == |a|
  {
    var s := a + "." + b;
    if a == "" {
      assert s[0] == '.';
    } else {
      assert a[0] in a && s[0] == a[0] && s[1..] == a[1..] + "." + b;
      PointAfter(a[1..], b);
    }
  }

  lemma {:induction false} TrimRightParts(s: string)
    ensures |TrimRight(s)| <= |s| && s == TrimRight(s) + Zeros(|s| - |TrimRight(s)|)
    ensures TrimRight(s) != "" ==> TrimRight(s)[|TrimRight(s)|-1] != '0'
  {
    if s != "" && s[|s|-1] == '0' {
      var front := s[..|s|-1];
      TrimRightParts(front);
      assert s == front + "0";
      assert Zeros(|s| - |TrimRight(s)|) == Zeros(|front| - |TrimRight(front)|) + "0";
    }
  }

  lemma TrimRightOne(s: string)
    ensures TrimRight(s + "0") == TrimRight(s)
  {
    assert (s + "0")[..|s + "0"|-1] == s;
  }

  lemma {:induction false} TrimRightZeros(s: string, k: nat)
    ensures TrimRight(s + Zeros(k)) == TrimRight(s)
  {
    hide TrimRight;
    if k == 0 {
      assert s + Zeros(0) == s;
    } else {
      TrimRightZeros(s, k - 1);
      assert s + Zeros(k) == (s + Zeros(k - 1)) + "0";
      TrimRightOne(s + Zeros(k - 1));
    }
  }

  // ---------------------------------------------------------------- what a text denotes

  /** The units a decimal text denotes at a scale that holds its digits. */
  function Exact(s: string, decimals: nat): nat
    requires IsDecimal(s) && |Frac(s)| <= decimals
  {
    Value(Whole(s)) * Pow10(decimals) + Scaled(Frac(s), decimals)
  }

  /** The units a fraction denotes. */
  function Scaled(frac: string, decimals: nat): nat
    requires AllDigits(frac) && |frac| <= decimals
  {
    Value(frac) * Pow10(decimals - |frac|)
  }

  lemma ScaledValue(whole: string, frac: string, decimals: nat)
    requires AllDigits(whole) && AllDigits(frac) && |frac| <= decimals
    ensures Value(whole + (frac + Zeros(decimals - |frac|)))
      == Value(whole) * Pow10(decimals) + Value(frac) * Pow10(decimals - |frac|)
  {
    var zeros := Zeros(decimals - |frac|);
    ValueConcat(whole, frac + zeros);
    ValueConcat(frac, zeros);
    ValueZeros(decimals - |frac|);
  }

  lemma DecimalDigits(s: string)
    requires IsDecimal(s)
    ensures AllDigits(Whole(s)) && AllDigits(Frac(s))
  {
  }

  /** Parsing accepts exactly the plain decimals that fit the scale and 256 bits, and yields what
      they denote. */
  lemma ParseExactly(s: string, decimals: int)
    ensures ParseUnits(s, decimals).Amount? <==>
      0 <= decimals <= MAX_DECIMALS && IsDecimal(s) && |Frac(s)| <= decimals && Exact(s, decimals) <= UINT256_MAX
    ensures ParseUnits(s, decimals).Amount? ==> ParseUnits(s, decimals).units == Exact(s, decimals)
    ensures ParseUnits(s, decimals).Rejected? ==>
      ParseUnits(s, decimals).problem == if decimals < 0 || decimals > 36 then BadDecimals
        else if !IsDecimal(s) then BadFormat else if |Frac(s)| > decimals then TooPrecise else TooLarge
  {
    hide IsDecimal, Frac, Whole, Pow10, TrimLeft, Zeros;
    NoValue();
    if 0 <= decimals <= MAX_DECIMALS && IsDecimal(s) && |Frac(s)| <= decimals {
      DecimalDigits(s);
      ScaledValue(Whole(s), Frac(s), decimals);
      TrimLeftDigits(Whole(s) + (Frac(s) + Zeros(decimals - |Frac(s)|)));
    }
  }

  lemma DigitsParts(n: nat, decimals: nat)
    ensures Whole(Digits(n)) == Digits(n) && Frac(Digits(n)) == "" && IsDecimal(Digits(n))
    ensures Exact(Digits(n), decimals) == n * Pow10(decimals)
  {
    hide Digits, Pow10, Value;
    PointAfter(Digits(n), "");
    DigitsValue(n);
    NoValue();
  }

  lemma NoValue()
    ensures Value("") == 0
  {
  }

  /** The printed fraction has the fraction's value, no trailing zero and no more than the scale's digits. */
  lemma FracValue(frac: nat, decimals: nat)
    requires 0 < frac < Pow10(decimals)
    ensures var t := FracDigits(frac, decimals);
      && AllDigits(t) && 0 < |t| <= decimals && t[|t|-1] != '0'
      && t + Zeros(decimals - |t|) == Zeros(decimals - |Digits(frac)|) + Digits(frac)
      && Value(t) * Pow10(decimals - |t|) == frac
  {
    DigitsFit(frac, decimals);
    var zeros := Zeros(decimals - |Digits(frac)|);
    var padded := zeros + Digits(frac);
    var t := FracDigits(frac, decimals);
    PaddedValue(frac, decimals);
    TrimRightParts(padded);
    assert forall c :: c in t ==> c in padded;
    TrimmedValue(t, decimals);
  }

  lemma PaddedValue(frac: nat, decimals: nat)
    requires |Digits(frac)| <= decimals
    ensures var padded := Zeros(decimals - |Digits(frac)|) + Digits(frac);
      AllDigits(padded) && |padded| == decimals && Value(padded) == frac
  {
    ValueConcat(Zeros(decimals - |Digits(frac)|), Digits(frac));
    ValueZeros(decimals - |Digits(frac)|);
    DigitsValue(frac);
  }

  lemma TrimmedValue(t: string, decimals: nat)
    requires AllDigits(t) && |t| <= decimals
    ensures AllDigits(t + Zeros(decimals - |t|)) && Value(t + Zeros(decimals - |t|)) == Value(t) * Pow10(decimals - |t|)
  {
    ValueConcat(t, Zeros(decimals - |t|));
    ValueZeros(decimals - |t|);
  }

  lemma PointedParts(whole: nat, frac: nat, decimals: nat)
    requires 0 < frac < Pow10(decimals)
    ensures var s := Digits(whole) + "." + FracDigits(frac, decimals);
      && Whole(s) == Digits(whole) && Frac(s) == FracDigits(frac, decimals)
      && IsDecimal(s) && |Frac(s)| <= decimals
      && Exact(s, decimals) == whole * Pow10(decimals) + frac
  {
    hide Pow10;
    FracValue(frac, decimals);
    PointAfter(Digits(whole), FracDigits(frac, decimals));
    DigitsValue(whole);
  }

  lemma ZeroDigits()
    ensures Digits(0) == "0"
  {
  }

  /** The explorer's printer is the wallet's at 18 decimals. */
  lemma FormatETHAgrees(wei: nat)
    ensures FormatETH(wei) == FormatUnits(wei, ETH_DECIMALS)
  {
    hide Pow10, FracDigits, Digits;
    ZeroDigits();
  }

  /** What is printed denotes the amount. */
  lemma FormatDenotes(n: nat, decimals: nat)
    ensures var s := FormatUnits(n, decimals);
      && IsDecimal(s) && |Frac(s)| <= decimals && Exact(s, decimals) == n
      && (decimals == ETH_DECIMALS ==> FormatETH(n) == s)
  {
    hide FormatETH, FracDigits, Digits, Whole, Frac, IsDecimal, WholePart, FracPart, Exact;
    var whole, frac := WholePart(n, decimals), FracPart(n, decimals);
    ZeroDigits();
    FormatETHAgrees(n);
    DigitsParts(0, decimals);
    DigitsParts(n, decimals);
    DigitsParts(whole, decimals);
    if frac != 0 {
      PointedParts(whole, frac, decimals);
    }
  }

  /** Printing, then parsing, gives the amount back: for every 256-bit amount at every scale. */
  lemma FormatThenParse(n: nat, decimals: nat)
    requires n <= UINT256_MAX && decimals <= MAX_DECIMALS
    ensures ParseUnits(FormatUnits(n, decimals), decimals) == Amount(n)
  {
    hide FormatUnits, ParseUnits, Exact, IsDecimal, Frac;
    FormatDenotes(n, decimals);
    ParseExactly(FormatUnits(n, decimals), decimals);
  }

  // ---------------------------------------------------------------- parse, then print

  /** A decimal text without redundant zeros. */
  function Canonical(s: string): string {
    var whole := if TrimLeft(Whole(s)) == "" then "0" else TrimLeft(Whole(s));
    var frac := TrimRight(Frac(s));
    if frac == "" then whole else whole + "." + frac
  }

  lemma DigitsSnoc(n: nat, c: char)
    requires IsDigit(c)
    ensures Digits(n * 10 + DigitValue(c)) == if n == 0 then [c] else Digits(n) + [c]
    ensures n > 0 || c != '0' ==> n * 10 + DigitValue(c) > 0
  {
    var m := n * 10 + DigitValue(c);
    assert m / 10 == n && m % 10 == DigitValue(c);
  }

  lemma {:induction false} LeadingDigit(s: string)
    requires AllDigits(s) && s != "" && s[0] != '0'
    ensures Digits(Value(s)) == s && Value(s) > 0
  {
    hide Digits, DigitValue;
    var front, last := s[..|s|-1], s[|s|-1];
    assert s == front + [last];
    DigitsSnoc(Value(front), last);
    if front == "" {
      assert Value(front) == 0;
    } else {
      LeadingDigit(front);
    }
  }

  lemma {:induction false} TrimLeftParts(s: string)
    ensures TrimLeft(s) != "" ==> TrimLeft(s)[0] != '0'
  {
    if s != "" && s[0] == '0' {
      TrimLeftParts(s[1..]);
    }
  }

  /** Printing the value of a digit string drops its leading zeros. */
  lemma DigitsOfValue(s: string)
    requires AllDigits(s)
    ensures Digits(Value(s)) == if TrimLeft(s) == "" then "0" else TrimLeft(s)
  {
    TrimLeftDigits(s);
    TrimLeftParts(s);
    ZeroDigits();
    if TrimLeft(s) != "" {
      LeadingDigit(TrimLeft(s));
    }
  }

  /** Printing a fraction drops its trailing zeros. */
  lemma FracOfValue(frac: string, decimals: nat)
    requires AllDigits(frac) && |frac| <= decimals
    ensures var v := Scaled(frac, decimals);
      && v < Pow10(decimals)
      && if v == 0 then TrimRight(frac) == "" else FracDigits(v, decimals) == TrimRight(frac) != ""
  {
    hide Value, Pow10, Digits, TrimRight;
    var v := Scaled(frac, decimals);
    var padded := frac + Zeros(decimals - |frac|);
    TrimmedValue(frac, decimals);
    ValueBelow(padded);
    TrimRightZeros(frac, decimals - |frac|);
    TrimRightZeros("", decimals);
    assert "" + Zeros(decimals) == Zeros(decimals);
    NothingToTrim();
    if v == 0 {
      ValueZeros(decimals);
      SameDigits(padded, Zeros(decimals));
    } else {
      DigitsFit(v, decimals);
      PaddedValue(v, decimals);
      FracValue(v, decimals);
      SameDigits(padded, Zeros(decimals - |Digits(v)|) + Digits(v));
    }
  }

  lemma NothingToTrim()
    ensures TrimRight("") == ""
  {
  }

  lemma PartsOf(whole: nat, frac: nat, decimals: nat)
    requires frac < Pow10(decimals)
    ensures WholePart(whole * Pow10(decimals) + frac, decimals) == whole
    ensures FracPart(whole * Pow10(decimals) + frac, decimals) == frac
  {
    hide Pow10;
    QuotientIs(Pow10(decimals), whole, frac);
  }

  /** Parsing, then printing, gives the text back without redundant zeros. */
  lemma ParseThenFormat(s: string, decimals: int)
    requires ParseUnits(s, decimals).Amount?
    ensures FormatUnits(ParseUnits(s, decimals).units, decimals) == Canonical(s)
  {
    hide ParseUnits, FormatUnits, Pow10, Scaled, FracDigits, Value, Digits, TrimLeft, TrimRight, Whole, Frac;
    ParseExactly(s, decimals);
    DigitsOfValue(Whole(s));
    FracOfValue(Frac(s), decimals);
    FormatParts(Value(Whole(s)), Scaled(Frac(s), decimals), decimals);
  }

  lemma FormatParts(whole: nat, frac: nat, decimals: nat)
    requires frac < Pow10(decimals)
    ensures FormatUnits(whole * Pow10(decimals) + frac, decimals)
      == if frac == 0 then Digits(whole) else Digits(whole) + "." + FracDigits(frac, decimals)
  {
    hide Pow10, FracDigits, WholePart, FracPart, Digits;
    PartsOf(whole, frac, decimals);
    PartsOf(0, 0, decimals);
    ZeroDigits();
    UnitScale();
    var power := Pow10(decimals);
    assert decimals == 0 ==> whole * power == whole;
    assert 0 * power == 0;
  }

  lemma UnitScale()
    ensures Pow10(0) == 1
  {
  }

  // ---------------------------------------------------------------- negative amounts

  /** Both parts are cut off toward zero, so a negative fraction carries its own sign into the padding.
      None stands for the panic when no room is left for that sign. */
  function FormatSigned(raw: int, decimals: int): Option<string> {
    if raw >= 0 then Some(FormatUnits(raw, decimals))
    else if decimals == 0 then Some("-" + Digits(-raw))
    else
      var scale := if decimals < 0 then 0 else decimals;
      var whole, frac := WholePart(-raw, scale), FracPart(-raw, scale);
      var printed := if whole == 0 then "0" else "-" + Digits(whole);
      if frac == 0 then Some(printed)
      else if |Digits(frac)| + 1 > scale then None
      else Some(printed + "." + SignedFrac(frac, scale))
  }

  function SignedFrac(frac: nat, decimals: nat): string
    requires |Digits(frac)| + 1 <= decimals
  {
    TrimRight(Zeros(decimals - |Digits(frac)| - 1) + "-" + Digits(frac))
  }

  lemma {:induction false} TrimKeeps(s: string, c: char)
    requires c in s && c != '0'
    ensures c in TrimRight(s)
  {
    if s[|s|-1] == '0' {
      assert s == s[..|s|-1] + "0";
      TrimKeeps(s[..|s|-1], c);
    }
  }

  lemma SignInside(frac: nat, decimals: nat)
    requires 0 < frac < Pow10(decimals) && |Digits(frac)| + 1 <= decimals
    ensures SignedFrac(frac, decimals) != FracDigits(frac, decimals)
  {
    hide FracDigits;
    var padded := Zeros(decimals - |Digits(frac)| - 1) + "-" + Digits(frac);
    assert padded[decimals - |Digits(frac)| - 1] == '-';
    TrimKeeps(padded, '-');
    FracValue(frac, decimals);
  }

  lemma NoFraction(raw: int, decimals: int)
    requires raw < 0 && decimals <= 0
    ensures WholePart(-raw, 0) == -raw && FracPart(-raw, 0) == 0
  {
    QuotientIs(1, -raw, 0);
  }

  /** A negative amount prints as the sign and the positive amount exactly if it is a whole number. */
  lemma NegativePrinted(raw: int, decimals: int)
    requires raw < 0
    ensures FormatSigned(raw, decimals) == Some("-" + FormatUnits(-raw, decimals))
      <==> decimals <= 0 || FracPart(-raw, decimals) == 0
  {
    hide Digits, WholePart, FracPart, SignedFrac, FracDigits, Pow10;
    if decimals <= 0 {
      NoFraction(raw, decimals);
    } else {
      var whole, frac := WholePart(-raw, decimals), FracPart(-raw, decimals);
      if frac != 0 && |Digits(frac)| + 1 <= decimals {
        SignInside(frac, decimals);
        SignedParts(whole, SignedFrac(frac, decimals), FracDigits(frac, decimals));
      }
    }
  }

  lemma SignedParts(whole: nat, a: string, b: string)
    requires a != b
    ensures (if whole == 0 then "0" else "-" + Digits(whole)) + "." + a != "-" + (Digits(whole) + "." + b)
  {
    var left, right := (if whole == 0 then "0" else "-" + Digits(whole)) + "." + a, "-" + (Digits(whole) + "." + b);
    if whole == 0 {
      assert left[0] == '0' && right[0] == '-';
    } else {
      var sign := "-" + Digits(whole) + ".";
      assert left == sign + a && right == sign + b;
      assert left[|sign|..] == a && right[|sign|..] == b;
    }
  }

  /** A negative fraction cannot be printed at all exactly if it fills the scale. */
  lemma NegativePanics(raw: int, decimals: int)
    ensures FormatSigned(raw, decimals).None?
      <==> raw < 0 < decimals && 10 * FracPart(-raw, decimals) >= Pow10(decimals)
  {
    if raw < 0 < decimals {
      var frac := FracPart(-raw, decimals);
      assert Pow10(decimals) == 10 * Pow10(decimals - 1);
      if 10 * frac >= Pow10(decimals) {
        FillsScale(frac, decimals);
      } else if frac > 0 {
        DigitsFit(frac, decimals - 1);
      }
    } else if raw < 0 {
      NoFraction(raw, decimals);
    }
  }

  lemma {:induction false} FillsScale(n: nat, k: nat)
    requires k > 0 && 10 * n >= Pow10(k)
    ensures |Digits(n)| >= k
  {
    if k > 1 {
      assert Pow10(k) == 100 * Pow10(k - 2) && Pow10(k - 2) >= 1;
      assert Pow10(k - 1) == 10 * Pow10(k - 2);
      FillsScale(n / 10, k - 1);
    }
  }
}
