/** Decimal text: what `operator<<` prints for integers and for doubles under `fixed` and
    `setprecision(2)`, and the part of `stoull`, `stoll` and `stod` that reads such text. */
module Decimal {
  import opened Wrappers

  const UINT64_LIMIT := 0x1_0000_0000_0000_0000
  const INT32_LIMIT := 0x8000_0000

  type uint64 = n: nat | n < UINT64_LIMIT
  type int32 = n: int | -INT32_LIMIT <= n < INT32_LIMIT
  type NonNegative = r: real | r >= 0.0

  /** A finite double: its sign (zero has one too) and its exact magnitude. */
  datatype Double = Double(negative: bool, magnitude: NonNegative) {
    predicate Positive() {
      !negative && magnitude > 0.0
    }

    /** No finite double reaches 10^309. */
    predicate Finite() {
      magnitude < Pow10(309) as real
    }

    function Value(): real {
      if negative then 0.0 - magnitude else magnitude
    }
  }

  // ---------------------------------------------------------------------------
  // Printing
  // ---------------------------------------------------------------------------

  function Digit(d: nat): (c: char)
    requires d < 10
    ensures IsDigit(c) && DigitValue(c) == d && c as int == '0' as int + d
  {
    '0' + d as char
  }

  predicate IsDigit(c: char) {
    '0' <= c <= '9'
  }

  function DigitValue(c: char): (d: nat)
    requires IsDigit(c)
    ensures d < 10 && '0' as int + d == c as int
  {
    (c - '0') as int
  }

  function PrintNat(n: nat): (s: string)
    ensures s != "" && AllDigits(s)
  {
    if n < 10 then [Digit(n)] else PrintNat(n / 10) + [Digit(n % 10)]
  }

  function PrintInt(n: int): (s: string) {
    if n < 0 then "-" + PrintNat(-n) else PrintNat(n)
  }

  /** Rounding to the nearest hundredth, ties to even. */
  function Hundredths(d: Double): (h: nat) {
    RoundHalfEven(100.0 * d.magnitude)
  }

  function RoundHalfEven(x: NonNegative): (n: nat)
    ensures n as real - 0.5 <= x <= n as real + 0.5
    ensures x == n as real - 0.5 || x == n as real + 0.5 ==> n % 2 == 0
  {
    var f := x.Floor;
    if x - f as real < 0.5 || (x - f as real == 0.5 && f % 2 == 0) then f else f + 1
  }

  function PrintHundredths(h: nat): (s: string) {
    PrintNat(h / 100) + "." + [Digit(h / 10 % 10), Digit(h % 10)]
  }

  function PrintDouble(d: Double): (s: string) {
    (if d.negative then "-" else "") + PrintHundredths(Hundredths(d))
  }

  /** The double that the printed text stands for. */
  function Rounded(d: Double): Double {
    Double(d.negative, Hundredths(d) as real / 100.0)
  }

  /** Rounding keeps the sign and moves the magnitude by half a hundredth at most. */
  lemma RoundedIsNearest(d: Double)
    ensures Rounded(d).negative == d.negative
    ensures -0.005 <= Rounded(d).magnitude - d.magnitude <= 0.005
  {
    var h := Hundredths(d);
    assert Rounded(d).magnitude * 100.0 == h as real;
  }

  lemma {:induction false} NoLeadingZero(n: nat)
    ensures |PrintNat(n)| > 1 ==> PrintNat(n)[0] != '0'
  {
    if n >= 10 {
      NoLeadingZero(n / 10);
      if n / 10 < 10 {
        assert PrintNat(n)[0] == Digit(n / 10);
      }
    }
  }

  lemma TwoPlaces(whole: nat, tenth: nat, hundredth: nat)
    requires tenth < 10 && hundredth < 10
    ensures PrintHundredths(100 * whole + 10 * tenth + hundredth)
            == PrintNat(whole) + "." + [Digit(tenth), Digit(hundredth)]
  {
    hide PrintNat, Digit;
    LastPlace(10 * whole + tenth, hundredth);
    LastPlace(whole, tenth);
    LastTwoPlaces(whole, 10 * tenth + hundredth);
  }

  lemma LastPlace(n: nat, digit: nat)
    requires digit < 10
    ensures (10 * n + digit) / 10 == n && (10 * n + digit) % 10 == digit
  {
  }

  lemma LastTwoPlaces(n: nat, digits: nat)
    requires digits < 100
    ensures (100 * n + digits) / 100 == n
  {
  }

  /** What `fixed` with two places looks like: the sign of zero, and a tie that goes to even. */
  lemma PrintedNumbersLookLikeThis()
    ensures PrintDouble(Double(true, 0.0)) == "-0.00"
    ensures PrintDouble(Double(false, 2.345)) == "2.34" && PrintDouble(Double(false, 2.355)) == "2.36"
  {
    TwoPlaces(0, 0, 0);
    TwoPlaces(2, 3, 4);
    TwoPlaces(2, 3, 6);
    OneDigit(0);
    OneDigit(2);
    hide PrintNat, PrintHundredths, Hundredths;
    assert Hundredths(Double(true, 0.0)) == 0 by { HundredthsAre(0.0, 0); }
    assert Hundredths(Double(false, 2.345)) == 234 by { HundredthsAre(2.345, 234); }
    assert Hundredths(Double(false, 2.355)) == 236 by { HundredthsAre(2.355, 236); }
  }

  lemma OneDigit(d: nat)
    requires d < 10
    ensures PrintNat(d) == [Digit(d)]
  {
  }

  lemma HundredthsAre(magnitude: NonNegative, h: nat)
    requires 100.0 * magnitude == h as real
             || (h as real - 0.5 <= 100.0 * magnitude <= h as real + 0.5 && h % 2 == 0)
    ensures forall negative :: Hundredths(Double(negative, magnitude)) == h
  {
  }

  lemma RoundedPrintsTheSame(d: Double)
    ensures Hundredths(Rounded(d)) == Hundredths(d)
    ensures PrintDouble(Rounded(d)) == PrintDouble(d)
  {
    var h := Hundredths(d);
    assert 100.0 * (h as real / 100.0) == h as real;
    assert (h as real).Floor == h;
  }

  // ---------------------------------------------------------------------------
  // Reading
  // ---------------------------------------------------------------------------

  predicate AllDigits(s: string) {
    forall i :: 0 <= i < |s| ==> IsDigit(s[i])
  }

  function ReadDigits(s: string): (n: nat)
    requires AllDigits(s)
  {
    if s == "" then 0 else ReadDigits(s[..|s| - 1]) * 10 + DigitValue(s[|s| - 1])
  }

  lemma {:induction false} ReadPrinted(n: nat)
    ensures ReadDigits(PrintNat(n)) == n
  {
    if n < 10 {
      assert ReadDigits([Digit(n)][..0]) == 0;
    } else {
      ReadPrinted(n / 10);
      assert PrintNat(n)[..|PrintNat(n)| - 1] == PrintNat(n / 10);
    }
  }

  lemma ReadHundredths(h: nat)
    ensures var digits := PrintNat(h / 100) + [Digit(h / 10 % 10), Digit(h % 10)];
            AllDigits(digits) && ReadDigits(digits) == h
  {
    ReadPrinted(h / 100);
    ReadTwoMore(PrintNat(h / 100), h / 10 % 10, h % 10);
    hide PrintNat, ReadDigits, Digit;
    assert h / 100 * 10 + h / 10 % 10 == h / 10;
  }

  lemma ReadTwoMore(s: string, a: nat, b: nat)
    requires AllDigits(s) && a < 10 && b < 10
    ensures var digits := s + [Digit(a), Digit(b)];
            AllDigits(digits) && ReadDigits(digits) == (ReadDigits(s) * 10 + a) * 10 + b
  {
    var one, two := s + [Digit(a)], s + [Digit(a), Digit(b)];
    assert one[..|one| - 1] == s && two[..|two| - 1] == one;
  }

  function Pow10(k: nat): (p: nat)
    ensures p >= 1
  {
    if k == 0 then 1 else 10 * Pow10(k - 1)
  }

  /** A number below 10^k prints in at most k digits. */
  lemma {:induction false} PrintedLength(n: nat, k: nat)
    requires 1 <= k && n < Pow10(k)
    ensures |PrintNat(n)| <= k
  {
    if n >= 10 {
      assert k >= 2;
      PrintedLength(n / 10, k - 1);
    }
  }

  /** Length of the longest run of digits at the start of s. */
  function DigitRun(s: string): (k: nat)
    ensures k <= |s| && AllDigits(s[..k])
    ensures k < |s| ==> !IsDigit(s[k])
  {
    if s == "" || !IsDigit(s[0]) then 0
    else
      var k := DigitRun(s[1..]);
      assert s[..1 + k] == [s[0]] + s[1..][..k];
      1 + k
  }

  lemma DigitRunIs(s: string, k: nat)
    requires k <= |s| && AllDigits(s[..k]) && (k < |s| ==> !IsDigit(s[k]))
    ensures DigitRun(s) == k
  {
    var j := DigitRun(s);
    assert forall i :: 0 <= i < k ==> s[i] == s[..k][i];
    assert forall i :: 0 <= i < j ==> s[i] == s[..j][i];
  }

  // ---------------------------------------------------------------------------
  // The library parsers
  // ---------------------------------------------------------------------------

  /** A value read from the start of a string, and how many characters it took. */
  datatype Prefix<+T> = Prefix(value: T, length: nat)

  datatype Floating = Finite(double: Double) | NonFinite

  /** `stoull`, `stoll` and `stod`: partial, deterministic, otherwise unconstrained. None stands
      for a thrown exception. */
  datatype NumberLibrary = NumberLibrary(
    stoull: string -> Option<Prefix<uint64>>,
    stoll: string -> Option<Prefix<int>>,
    stod: string -> Option<Prefix<Floating>>)

  /** The library reads back whatever the printer writes. */
  ghost predicate ReadsPrintedNumbers(lib: NumberLibrary) {
    && (forall n: uint64 :: lib.stoull(PrintNat(n)) == Some(Prefix(n, |PrintNat(n)|)))
    && (forall n: int32 :: lib.stoll(PrintInt(n)) == Some(Prefix(n, |PrintInt(n)|)))
    && (forall d: Double | d.Finite() :: lib.stod(PrintDouble(d)) == Some(Prefix(Finite(Rounded(d)), |PrintDouble(d)|)))
  }

  function PlainUnsigned(s: string): Option<Prefix<uint64>> {
    var k := DigitRun(s);
    if k == 0 || ReadDigits(s[..k]) >= UINT64_LIMIT then None
    else Some(Prefix(ReadDigits(s[..k]), k))
  }

  function PlainSigned(s: string): Option<Prefix<int>> {
    var sign := if s != "" && s[0] == '-' then 1 else 0;
    var k := DigitRun(s[sign..]);
    if k == 0 || ReadDigits(s[sign..][..k]) >= UINT64_LIMIT / 2 then None
    else
      var n: int := ReadDigits(s[sign..][..k]);
      Some(Prefix(if sign == 1 then -n else n, sign + k))
  }

  function PlainMagnitude(t: string): Option<Prefix<NonNegative>> {
    var k := DigitRun(t);
    if k == 0 then None
    else if k < |t| && t[k] == '.' then
      var f := DigitRun(t[k + 1..]);
      var digits := t[..k] + t[k + 1..][..f];
      Some(Prefix(ReadDigits(digits) as real / Pow10(f) as real, k + 1 + f))
    else
      Some(Prefix(ReadDigits(t[..k]) as real, k))
  }

  function PlainDecimal(s: string): Option<Prefix<Floating>> {
    var sign := if s != "" && s[0] == '-' then 1 else 0;
    var p := PlainMagnitude(s[sign..]);
    if p.None? then None else Some(Prefix(Finite(Double(sign == 1, p.value.value)), sign + p.value.length))
  }

  const PLAIN_LIBRARY := NumberLibrary(PlainUnsigned, PlainSigned, PlainDecimal)

  /** Decimal reading undoes decimal printing; in particular the assumption made of the library
      can be met. */
  lemma PlainLibraryReadsPrintedNumbers()
    ensures ReadsPrintedNumbers(PLAIN_LIBRARY)
  {
    hide PlainUnsigned, PlainSigned, PlainDecimal, PrintNat, PrintInt, PrintDouble, Rounded, Double.Finite;
    forall n: uint64
      ensures PLAIN_LIBRARY.stoull(PrintNat(n)) == Some(Prefix(n, |PrintNat(n)|))
    {
      ReadPrintedUnsigned(n);
    }
    forall n: int32
      ensures PLAIN_LIBRARY.stoll(PrintInt(n)) == Some(Prefix(n, |PrintInt(n)|))
    {
      ReadPrintedSigned(n);
    }
    forall d: Double | d.Finite()
      ensures PLAIN_LIBRARY.stod(PrintDouble(d)) == Some(Prefix(Finite(Rounded(d)), |PrintDouble(d)|))
    {
      ReadPrintedDouble(d);
    }
  }

  lemma ReadPrintedUnsigned(n: uint64)
    ensures PlainUnsigned(PrintNat(n)) == Some(Prefix(n, |PrintNat(n)|))
  {
    ReadWhole(n);
  }

  lemma ReadPrintedSigned(n: int32)
    ensures PlainSigned(PrintInt(n)) == Some(Prefix(n, |PrintInt(n)|))
  {
    var i: int := n;
    if i >= 0 {
      ReadWhole(i);
      assert PrintInt(n)[0..] == PrintNat(i);
    } else {
      ReadWhole(-i);
      assert PrintInt(n)[1..] == PrintNat(-i);
    }
  }

  lemma ReadWhole(n: nat)
    ensures var s := PrintNat(n); DigitRun(s) == |s| && s[..|s|] == s && ReadDigits(s) == n && s[0] != '-'
  {
    ReadPrinted(n);
    var s := PrintNat(n);
    assert s[..|s|] == s;
    DigitRunIs(s, |s|);
  }

  lemma ReadPrintedHundredths(h: nat)
    ensures var t := PrintHundredths(h);
            var k := DigitRun(t);
            && 0 < k < |t| && t[0] != '-' && t[k] == '.'
            && DigitRun(t[k + 1..]) == 2 && |t| == k + 3
            && AllDigits(t[..k] + t[k + 1..][..2]) && ReadDigits(t[..k] + t[k + 1..][..2]) == h
  {
    var t := PrintHundredths(h);
    var whole, fraction := PrintNat(h / 100), [Digit(h / 10 % 10), Digit(h % 10)];
    var k := |whole|;
    assert t == whole + "." + fraction;
    ReadWhole(h / 100);
    assert t[0] == whole[0];
    assert t[..k] == whole && t[k] == '.';
    DigitRunIs(t, k);
    assert t[k + 1..] == fraction && fraction[..2] == fraction;
    DigitRunIs(fraction, 2);
    ReadHundredths(h);
  }

  lemma ReadPrintedMagnitude(h: nat)
    ensures PlainMagnitude(PrintHundredths(h)) == Some(Prefix(h as real / 100.0, |PrintHundredths(h)|))
    ensures PrintHundredths(h) != "" && PrintHundredths(h)[0] != '-'
  {
    ReadPrintedHundredths(h);
    assert Pow10(2) == 100;
    hide PrintHundredths, DigitRun, ReadDigits, Pow10;
    var t := PrintHundredths(h);
    var k := DigitRun(t);
    var f := DigitRun(t[k + 1..]);
    assert f == 2 && Pow10(f) as real == 100.0;
    var digits := t[..k] + t[k + 1..][..f];
    assert PlainMagnitude(t) == Some(Prefix(ReadDigits(digits) as real / Pow10(f) as real, k + 1 + f));
  }

  lemma ReadPrintedDouble(d: Double)
    ensures PlainDecimal(PrintDouble(d)) == Some(Prefix(Finite(Rounded(d)), |PrintDouble(d)|))
  {
    var h := Hundredths(d);
    ReadPrintedMagnitude(h);
    hide PrintHundredths, PlainMagnitude, Hundredths;
    var s, t := PrintDouble(d), PrintHundredths(h);
    if d.negative {
      assert s[0] == '-' && s[1..] == t;
    } else {
      assert s == t && s[0..] == t;
    }
  }
}
