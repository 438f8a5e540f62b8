/**
 * Decimal notation of reals with a fixed number of places (`%.2f`, `{0:.Nf}`),
 * reading it back, and how much a print loses.
 */
module Decimal {
  import opened Numeral
  import opened Wrappers

  // ----- rounding

  function Abs(x: real): real
  {
    if x < 0.0 then -x else x
  }

  /** The nearest integer, ties going to the even one. */
  function RoundHalfEven(x: real): int
  {
    var f := x.Floor;
    var rest := x - f as real;
    if rest < 0.5 || (rest == 0.5 && f % 2 == 0) then f else f + 1
  }

  lemma RoundNearest(x: real)
    ensures Abs(RoundHalfEven(x) as real - x) <= 0.5
    ensures 0.0 <= x ==> 0 <= RoundHalfEven(x)
  {
  }

  lemma RoundExact(n: int)
    ensures RoundHalfEven(n as real) == n
  {
  }

  /** Half-way between two whole numbers it is the even one. */
  lemma RoundHalf(n: int)
    ensures RoundHalfEven(n as real + 0.5) == if n % 2 == 0 then n else n + 1
  {
    assert (n as real + 0.5).Floor == n;
  }

  lemma RoundOdd(x: real)
    ensures RoundHalfEven(-x) == -RoundHalfEven(x)
  {
  }

  // ----- moving the decimal point

  function Pow10(n: nat): (p: nat)
    ensures p > 0
  {
    if n == 0 then 1 else 10 * Pow10(n - 1)
  }

  /** x * 10^places, one place at a time. */
  function Up(x: real, places: nat): real
  {
    if places == 0 then x else Up(x, places - 1) * 10.0
  }

  /** x / 10^places, one place at a time. */
  function Down(x: real, places: nat): real
    decreases places
  {
    if places == 0 then x else Down(x / 10.0, places - 1)
  }

  lemma {:induction false} UpIsProduct(x: real, places: nat)
    ensures Up(x, places) == x * Pow10(places) as real
  {
    if places > 0 {
      UpIsProduct(x, places - 1);
      assert x * (10 * Pow10(places - 1)) as real == x * Pow10(places - 1) as real * 10.0;
    }
  }

  lemma {:induction false} DownUp(x: real, places: nat)
    ensures Down(Up(x, places), places) == x
  {
    if places > 0 {
      DownUp(x, places - 1);
    }
  }

  lemma {:induction false} UpDown(x: real, places: nat)
    ensures Up(Down(x, places), places) == x
    decreases places
  {
    if places > 0 {
      UpDown(x / 10.0, places - 1);
    }
  }

  /** Moving the point down is division by a power of ten. */
  lemma DownIsQuotient(x: real, places: nat)
    ensures Down(x, places) == x / Pow10(places) as real
  {
    UpDown(x, places);
    UpIsProduct(Down(x, places), places);
  }

  lemma {:induction false} DownSum(x: real, y: real, places: nat)
    ensures Down(x + y, places) == Down(x, places) + Down(y, places)
    decreases places
  {
    if places > 0 {
      DownSum(x / 10.0, y / 10.0, places - 1);
      assert (x + y) / 10.0 == x / 10.0 + y / 10.0;
    }
  }

  lemma {:induction false} DownNegative(x: real, places: nat)
    ensures Down(-x, places) == -Down(x, places)
    decreases places
  {
    if places > 0 {
      DownNegative(x / 10.0, places - 1);
    }
  }

  lemma {:induction false} UpNegative(x: real, places: nat)
    ensures Up(-x, places) == -Up(x, places)
  {
    if places > 0 {
      UpNegative(x, places - 1);
    }
  }

  lemma {:induction false} UpSign(x: real, places: nat)
    ensures 0.0 <= x ==> 0.0 <= Up(x, places)
  {
    if places > 0 {
      UpSign(x, places - 1);
    }
  }

  lemma {:induction false} DownMonotone(x: real, y: real, places: nat)
    requires x <= y
    ensures Down(x, places) <= Down(y, places)
    decreases places
  {
    if places > 0 {
      DownMonotone(x / 10.0, y / 10.0, places - 1);
    }
  }

  /** `round(x, places)` */
  function RoundTo(x: real, places: nat): real
  {
    Down(RoundHalfEven(Up(x, places)) as real, places)
  }

  // ----- fixed-point notation

  /** What stands left of the point when m is printed with its last `places` digits right of it. */
  function WholePart(m: nat, places: nat): nat
  {
    if places == 0 then m else WholePart(m / 10, places - 1)
  }

  /** The last `places` digits of m. */
  function Padded(m: nat, places: nat): (s: string)
    ensures |s| == places && AllDigits(s)
  {
    if places == 0 then "" else Padded(m / 10, places - 1) + [DigitChar(m % 10)]
  }

  /** |x| in units of the last printed place, rounded half to even. */
  function PrintedUnits(x: real, places: nat): nat
  {
    UpSign(Abs(x), places);
    RoundNearest(Up(Abs(x), places));
    RoundHalfEven(Up(Abs(x), places))
  }

  function Sign(x: real): string
  {
    if x < 0.0 then "-" else ""
  }

  function Point(fraction: string): string
  {
    if fraction == "" then "" else "." + fraction
  }

  /** `'%.Nf' % x`: the sign, and |x| rounded half to even at N places. */
  function Fixed(x: real, places: nat): string
  {
    var m := PrintedUnits(x, places);
    Sign(x) + Digits(WholePart(m, places)) + Point(Padded(m, places))
  }

  /** The end of the run of digits starting at i. */
  function DigitRun(s: string, i: nat): (j: nat)
    requires i <= |s|
    ensures i <= j <= |s|
    ensures AllDigits(s[i..j])
    ensures j < |s| ==> !IsDigit(s[j])
    decreases |s| - i
  {
    if i < |s| && IsDigit(s[i]) then
      var j := DigitRun(s, i + 1);
      assert s[i..j] == [s[i]] + s[i + 1..j];
      j
    else i
  }

  /** A number read from the start of a text, and where it stops. */
  datatype Scan = Scan(value: real, end: nat)

  /** What a sign, digits and more digits behind a point denote. */
  function Denotes(sign: string, whole: string, fraction: string): real
    requires AllDigits(whole) && AllDigits(fraction)
  {
    var value := NatValue(whole) as real + if fraction == "" then 0.0 else Down(NatValue(fraction) as real, |fraction|);
    if sign == "-" then -value else value
  }

  /** The longest prefix of s matching -?[0-9]+(\.[0-9]+)? */
  function ScanNumber(s: string): (r: Option<Scan>)
    ensures r.Some? ==> 0 < r.value.end <= |s|
  {
    var start := if s != "" && s[0] == '-' then 1 else 0;
    var dot := DigitRun(s, start);
    if dot == start then None
    else
      var end := if dot < |s| && s[dot] == '.' then DigitRun(s, dot + 1) else dot;
      if end <= dot + 1 then Some(Scan(Denotes(s[..start], s[start..dot], ""), dot))
      else Some(Scan(Denotes(s[..start], s[start..dot], s[dot + 1..end]), end))
  }

  /**
   * What the scanner takes is a number in fixed-point notation, all of it that there is; it
   * takes nothing exactly where there is no digit to begin with.
   */
  lemma ScanExactly(s: string) returns (sign: string, whole: string, fraction: string)
    ensures ScanNumber(s).None? <==> || s == "" || !(IsDigit(s[0]) || (s[0] == '-' && |s| > 1 && IsDigit(s[1])))
    ensures ScanNumber(s).Some? ==>
              var end := ScanNumber(s).value.end;
              && s[..end] == sign + whole + Point(fraction) && (sign == "" || sign == "-")
              && AllDigits(whole) && whole != "" && AllDigits(fraction)
              && ScanNumber(s).value.value == Denotes(sign, whole, fraction)
              && (end < |s| ==> !IsDigit(s[end]))
              && (fraction == "" && end + 1 < |s| && s[end] == '.' ==> !IsDigit(s[end + 1]))
  {
    sign, whole, fraction := "", "", "";
    var start := if s != "" && s[0] == '-' then 1 else 0;
    var dot := DigitRun(s, start);
    if dot > start {
      sign, whole := s[..start], s[start..dot];
      var end := if dot < |s| && s[dot] == '.' then DigitRun(s, dot + 1) else dot;
      if end > dot + 1 {
        fraction := s[dot + 1..end];
        assert s[..end] == s[..start] + s[start..dot] + ([s[dot]] + s[dot + 1..end]);
      } else {
        assert s[..dot] == s[..start] + s[start..dot];
      }
    }
  }

  /** The number that a whole text denotes, if it is one in fixed-point notation. */
  function ParseFixed(s: string): Option<real>
  {
    match ScanNumber(s)
    case Some(scan) => if scan.end == |s| then Some(scan.value) else None
    case None => None
  }

  lemma {:induction false} NoLeadingZero(n: nat)
    ensures Digits(n)[0] == '0' ==> Digits(n) == "0"
    ensures n > 0 ==> Digits(n)[0] != '0'
  {
    if n >= 10 {
      NoLeadingZero(n / 10);
    }
  }

  /** The looks of it: a sign if negative, a whole part without idle zeros, and exactly so many places. */
  lemma FixedShape(x: real, places: nat) returns (whole: string, fraction: string)
    ensures Fixed(x, places) == (if x < 0.0 then "-" else "") + whole + (if places == 0 then "" else "." + fraction)
    ensures AllDigits(whole) && whole != "" && (whole == "0" || whole[0] != '0')
    ensures AllDigits(fraction) && |fraction| == places
  {
    var m := PrintedUnits(x, places);
    whole, fraction := Digits(WholePart(m, places)), Padded(m, places);
    NoLeadingZero(WholePart(m, places));
  }

  // ----- reading what was printed

  lemma DigitRunOf(s: string, i: nat, j: nat)
    requires i <= j <= |s| && AllDigits(s[i..j]) && (j < |s| ==> !IsDigit(s[j]))
    ensures DigitRun(s, i) == j
    decreases j - i
  {
  }

  /** What may follow a printed number without being read as part of it. */
  predicate Stops(tail: string)
  {
    tail != "" ==> !IsDigit(tail[0]) && tail[0] != '.'
  }

  /** The scanner's result, given where the digits stop. */
  lemma ScanAt(s: string, start: nat, dot: nat, end: nat)
    requires start < dot <= end <= |s|
    requires if s[0] == '-' then start == 1 else start == 0
    requires AllDigits(s[start..dot]) && (dot < |s| ==> !IsDigit(s[dot])) && (end < |s| ==> !IsDigit(s[end]))
    requires if end == dot then dot < |s| ==> s[dot] != '.'
             else dot + 1 < end && s[dot] == '.' && AllDigits(s[dot + 1..end])
    ensures ScanNumber(s) ==
              Some(Scan(Denotes(s[..start], s[start..dot], if end == dot then "" else s[dot + 1..end]), end))
  {
    DigitRunOf(s, start, dot);
    if end > dot {
      DigitRunOf(s, dot + 1, end);
    }
  }

  /** Where the parts of a printed number lie. */
  lemma Layout(s: string, front: string, fraction: string, tail: string)
    requires s == front + Point(fraction) + tail && front != "" && Stops(tail)
    ensures
      var dot, end := |front|, |front + Point(fraction)|;
      && dot <= end <= |s| && s[..dot] == front && s[0] == front[0]
      && (end < |s| ==> !IsDigit(s[end]))
      && (if end == dot then fraction == "" && (dot < |s| ==> s[dot] != '.')
          else dot + 1 < end && s[dot] == '.' && s[dot + 1..end] == fraction)
  {
  }

  lemma ScanPrinted(s: string, sign: string, whole: string, fraction: string, tail: string)
    requires s == sign + whole + Point(fraction) + tail && (sign == "" || sign == "-")
    requires whole != "" && AllDigits(whole) && AllDigits(fraction) && Stops(tail)
    ensures ScanNumber(s) == Some(Scan(Denotes(sign, whole, fraction), |sign + whole + Point(fraction)|))
  {
    var start, dot, end := |sign|, |sign + whole|, |sign + whole + Point(fraction)|;
    Layout(s, sign + whole, fraction, tail);
    SignAndWhole(s, sign, whole, dot);
    ScanAt(s, start, dot, end);
  }

  lemma SignAndWhole(s: string, sign: string, whole: string, dot: nat)
    requires dot <= |s| && s[..dot] == sign + whole && whole != "" && AllDigits(whole)
    requires sign == "" || sign == "-"
    ensures s[..|sign|] == sign && s[|sign|..dot] == whole
    ensures s[0] == '-' <==> sign == "-"
    ensures dot < |s| && s[dot] == '.' ==> !IsDigit(s[dot])
  {
  }

  /** Splitting a number of units at the point loses nothing. */
  lemma {:induction false} SplitAtPoint(m: nat, places: nat)
    ensures Down(m as real, places) == WholePart(m, places) as real + Down(NatValue(Padded(m, places)) as real, places)
  {
    if places > 0 {
      var q, d := m / 10, (m % 10) as real / 10.0;
      var rest := NatValue(Padded(q, places - 1)) as real;
      calc {
        Down(m as real, places);
        { assert m as real / 10.0 == q as real + d; }
        Down(q as real + d, places - 1);
        { DownSum(q as real, d, places - 1); SplitAtPoint(q, places - 1); }
        WholePart(q, places - 1) as real + (Down(rest, places - 1) + Down(d, places - 1));
        { DownSum(rest, d, places - 1); }
        WholePart(q, places - 1) as real + Down(rest + d, places - 1);
        { PaddedStep(m, places); }
        WholePart(m, places) as real + Down(NatValue(Padded(m, places)) as real, places);
      }
    }
  }

  lemma PaddedStep(m: nat, places: nat)
    requires places > 0
    ensures NatValue(Padded(m, places)) as real / 10.0
         == NatValue(Padded(m / 10, places - 1)) as real + (m % 10) as real / 10.0
  {
  }

  lemma PrintedUnitsSigned(x: real, places: nat)
    ensures RoundTo(x, places) == if x < 0.0 then -Down(PrintedUnits(x, places) as real, places)
                                  else Down(PrintedUnits(x, places) as real, places)
  {
    if x < 0.0 {
      UpNegative(-x, places);
      RoundOdd(Up(-x, places));
      DownNegative(PrintedUnits(x, places) as real, places);
    }
  }

  /** The value a fixed-point print denotes: the number rounded to that many places. */
  lemma FixedValue(x: real, places: nat, tail: string)
    requires Stops(tail)
    ensures ScanNumber(Fixed(x, places) + tail) == Some(Scan(RoundTo(x, places), |Fixed(x, places)|))
  {
    var m := PrintedUnits(x, places);
    var whole, fraction := Digits(WholePart(m, places)), Padded(m, places);
    ScanPrinted(Fixed(x, places) + tail, Sign(x), whole, fraction, tail);
    DigitsValue(WholePart(m, places));
    SplitAtPoint(m, places);
    PrintedUnitsSigned(x, places);
  }

  lemma ParseFixedValue(x: real, places: nat)
    ensures ParseFixed(Fixed(x, places)) == Some(RoundTo(x, places))
  {
    FixedValue(x, places, "");
    assert Fixed(x, places) + "" == Fixed(x, places);
  }

  /** What is left is a whole number of units in the last place. */
  lemma RoundToUnits(x: real, places: nat)
    ensures RoundTo(x, places) == RoundHalfEven(Up(x, places)) as real / Pow10(places) as real
  {
    DownIsQuotient(RoundHalfEven(Up(x, places)) as real, places);
  }

  /** Half a unit in the last of so many places. */
  function HalfUnit(places: nat): real
  {
    0.5 / Pow10(places) as real
  }

  /** Rounding to a number of places moves a value by at most half a unit in the last place. */
  lemma RoundToError(x: real, places: nat)
    ensures Abs(RoundTo(x, places) - x) <= HalfUnit(places)
  {
    var u := Up(x, places);
    var r := RoundHalfEven(u) as real;
    RoundNearest(u);
    DownUp(x, places);
    DownSum(u, r - u, places);
    DownMonotone(r - u, 0.5, places);
    DownMonotone(-0.5, r - u, places);
    DownNegative(0.5, places);
    DownIsQuotient(0.5, places);
  }

  /** Rounding twice to the same number of places changes nothing the second time. */
  lemma RoundToIdempotent(x: real, places: nat)
    ensures RoundTo(RoundTo(x, places), places) == RoundTo(x, places)
  {
    var n := RoundHalfEven(Up(x, places));
    UpDown(n as real, places);
    RoundExact(n);
  }
}
