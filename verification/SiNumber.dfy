/**
 * sinumber.py: numbers with SI suffixes, printed and read back, and a bound on
 * what the round trip loses.
 */
module SiNumber {
  import opened Wrappers
  import opened Decimal
  import opened Numeral

  // ----- the table of multipliers

  const MULTIPLIERS: map<string, nat> := map[
    "" := 1,
    "k" := 1000,
    "m" := 1000000,
    "g" := 1000000000,
    "t" := 1000000000000,
    "p" := 1000000000000000,
    "e" := 1000000000000000000,
    "z" := 1000000000000000000000,
    "y" := 1000000000000000000000000,
    "ki" := 1024,
    "mi" := 1048576,
    "gi" := 1073741824,
    "ti" := 1099511627776,
    "pi" := 1125899906842624,
    "ei" := 1152921504606846976,
    "zi" := 1180591620717411303424,
    "yi" := 1208925819614629174706176
  ]

  datatype Entry = Entry(suffix: Option<string>, value: nat)

  /** The table in decreasing order of value, as number_as_si walks it. */
  const SORTED_SI: seq<Entry> := [
    Entry(Some("yi"), 1208925819614629174706176),
    Entry(Some("y"), 1000000000000000000000000),
    Entry(Some("zi"), 1180591620717411303424),
    Entry(Some("z"), 1000000000000000000000),
    Entry(Some("ei"), 1152921504606846976),
    Entry(Some("e"), 1000000000000000000),
    Entry(Some("pi"), 1125899906842624),
    Entry(Some("p"), 1000000000000000),
    Entry(Some("ti"), 1099511627776),
    Entry(Some("t"), 1000000000000),
    Entry(Some("gi"), 1073741824),
    Entry(Some("g"), 1000000000),
    Entry(Some("mi"), 1048576),
    Entry(Some("m"), 1000000),
    Entry(Some("ki"), 1024),
    Entry(Some("k"), 1000),
    Entry(None, 1),
    Entry(Some(""), 1)
  ]

  const PREFIXES: string := "kmgtpezy"

  function Power(b: nat, n: nat): nat
  {
    if n == 0 then 1 else b * Power(b, n - 1)
  }

  function Suffix(e: Entry): string
  {
    match e.suffix
    case Some(u) => u
    case None => ""
  }

  predicate EndsWithI(u: string)
  {
    u != "" && u[|u| - 1] == 'i'
  }

  /** Entries that the walk does not skip for this base. */
  predicate OfBase(e: Entry, base: int)
  {
    && !(base == 10 && EndsWithI(Suffix(e)))
    && !(base == 2 && !EndsWithI(Suffix(e)))
  }

  // ----- si_as_number

  function LowerChar(c: char): char
  {
    if 'A' <= c <= 'Z' then (c as int + 32) as char else c
  }

  function Lower(s: string): (t: string)
    ensures |t| == |s|
  {
    seq(|s|, i requires 0 <= i < |s| => LowerChar(s[i]))
  }

  predicate IsSpace(c: char)
  {
    c == ' ' || c == '\t' || c == '\n' || c == '\r' || c as int == 11 || c as int == 12
  }

  function SkipSpaces(s: string, i: nat): (j: nat)
    requires i <= |s|
    ensures i <= j <= |s|
    decreases |s| - i
  {
    if i < |s| && IsSpace(s[i]) then SkipSpaces(s, i + 1) else i
  }

  /** What `([kmgtpezy][i]?)?$` makes of the end of a text: the multiplier, if it matches. */
  function ReadSuffix(rest: string): (m: Option<nat>)
  {
    if rest == "" then Some(1)
    else if rest[0] !in PREFIXES then None
    else
      var end := if |rest| > 1 && rest[1] == 'i' then 2 else 1;
      if (rest[end..] == "" || rest[end..] == "\n") && rest[..end] in MULTIPLIERS
      then Some(MULTIPLIERS[rest[..end]])
      else None
  }

  function SiAsNumber(text: string): Option<real>
  {
    var t := Lower(text);
    match ScanNumber(t)
    case None => None
    case Some(scan) =>
      match ReadSuffix(t[SkipSpaces(t, scan.end)..])
      case None => None
      case Some(m) => Some(Times(scan.value, m))
  }

  // ----- number_as_si

  function TitleCase(u: string): string
  {
    if u == "" then ""
    else [if 'a' <= u[0] <= 'z' then (u[0] as int - 32) as char else u[0]] + u[1..]
  }

  /** The first entry of the base, from i on, that does not exceed the number; no suffix if there is none. */
  function Choose(table: seq<Entry>, number: real, base: int, i: nat): Entry
    requires i <= |table|
    decreases |table| - i
  {
    if i == |table| then Entry(None, 1)
    else if OfBase(table[i], base) && number >= table[i].value as real then table[i]
    else Choose(table, number, base, i + 1)
  }

  function Print(number: real, places: nat, e: Entry): string
    requires e.value > 0
  {
    Fixed(number / e.value as real, places) + TitleCase(Suffix(e))
  }

  /** The loop of number_as_si, over a table that ends with the multiplier 1. */
  method FormatSi(table: seq<Entry>, number: real, places: nat, base: int) returns (text: string)
    requires table != [] && table[|table| - 1].value == 1
    requires forall j :: 0 <= j < |table| ==> table[j].value > 0
    ensures Choose(table, number, base, 0).value > 0
    ensures text == Print(number, places, Choose(table, number, base, 0))
  {
    var value := 1;
    for i := 0 to |table|
      invariant i > 0 ==> value == table[i - 1].value
      invariant Choose(table, number, base, 0) == Choose(table, number, base, i)
    {
      var unit := Suffix(table[i]);
      value := table[i].value;
      if base == 10 && EndsWithI(unit) {
        continue;
      }
      if base == 2 && !EndsWithI(unit) {
        continue;
      }
      if number >= value as real {
        return Fixed(number / value as real, places) + TitleCase(unit);
      }
    }
    assert TitleCase("") == "";
    return Fixed(number / value as real, places);
  }

  method NumberAsSi(number: real, places: nat, base: int) returns (r: Result<string, string>)
    ensures r.Err? <==> base != 2 && base != 10
    ensures r.Ok? ==> Chosen(number, base).value > 0 && r.value == Print(number, places, Chosen(number, base))
  {
    if base != 2 && base != 10 {
      return Err("base must be either 2 or 10");
    }
    TablePositive();
    var text := FormatSi(SORTED_SI, number, places, base);
    return Ok(text);
  }

  // ----- which multiplier is chosen

  function Chosen(number: real, base: int): Entry
  {
    Choose(SORTED_SI, number, base, 0)
  }

  lemma {:induction false} ChooseFinds(table: seq<Entry>, number: real, base: int, i: nat)
    requires i <= |table|
    ensures
      var e := Choose(table, number, base, i);
      || (e == Entry(None, 1)
          && forall j :: i <= j < |table| && OfBase(table[j], base) ==> number < table[j].value as real)
      || exists j :: i <= j < |table| && e == table[j] && OfBase(e, base) && number >= e.value as real
                     && forall l :: i <= l < j && OfBase(table[l], base) ==> number < table[l].value as real
    decreases |table| - i
  {
    if i < |table| {
      ChooseFinds(table, number, base, i + 1);
    }
  }

  lemma DecimalPowers()
    ensures Power(1000, 1) == 1000 && Power(1000, 2) == 1000000
    ensures Power(1000, 3) == 1000000000 && Power(1000, 4) == 1000000000000
    ensures Power(1000, 5) == 1000000000000000 && Power(1000, 6) == 1000000000000000000
    ensures Power(1000, 7) == 1000000000000000000000 && Power(1000, 8) == 1000000000000000000000000
  {
    assert Power(1000, 2) == 1000 * Power(1000, 1);
    assert Power(1000, 4) == 1000 * Power(1000, 3);
    assert Power(1000, 6) == 1000 * Power(1000, 5);
  }

  lemma BinaryPowers()
    ensures Power(1024, 1) == 1024 && Power(1024, 2) == 1048576
    ensures Power(1024, 3) == 1073741824 && Power(1024, 4) == 1099511627776
    ensures Power(1024, 5) == 1125899906842624 && Power(1024, 6) == 1152921504606846976
    ensures Power(1024, 7) == 1180591620717411303424 && Power(1024, 8) == 1208925819614629174706176
  {
    assert Power(1024, 2) == 1024 * Power(1024, 1);
    assert Power(1024, 4) == 1024 * Power(1024, 3);
    assert Power(1024, 6) == 1024 * Power(1024, 5);
  }

  /** Two table rows for each power, the binary one first; the two unsuffixed rows come last. */
  lemma TableRows(t: nat)
    requires t < 8
    ensures
      var u := PREFIXES[7 - t];
      && SORTED_SI[2 * t] == Entry(Some([u, 'i']), Power(1024, 8 - t))
      && SORTED_SI[2 * t + 1] == Entry(Some([u]), Power(1000, 8 - t))
  {
    DecimalPowers();
    BinaryPowers();
    assert t == 0 || t == 1 || t == 2 || t == 3 || t == 4 || t == 5 || t == 6 || t == 7;
  }

  lemma TableMap(t: nat)
    requires t < 8
    ensures
      var u := PREFIXES[t];
      && [u, 'i'] in MULTIPLIERS && MULTIPLIERS[[u, 'i']] == Power(1024, t + 1)
      && [u] in MULTIPLIERS && MULTIPLIERS[[u]] == Power(1000, t + 1)
  {
    DecimalPowers();
    BinaryPowers();
    assert t == 0 || t == 1 || t == 2 || t == 3 || t == 4 || t == 5 || t == 6 || t == 7;
  }

  lemma TablePositive()
    ensures forall j :: 0 <= j < |SORTED_SI| ==> SORTED_SI[j].value > 0
    ensures |SORTED_SI| == 18 && SORTED_SI[16] == Entry(None, 1) && SORTED_SI[17] == Entry(Some(""), 1)
  {
  }

  function Step(base: int): nat
  {
    if base == 10 then 1000 else 1024
  }

  /** The suffix of the k-th power, as the table spells it. */
  function PowerSuffix(k: nat, base: int): string
    requires k <= 8
  {
    if k == 0 then "" else if base == 2 then [PREFIXES[k - 1], 'i'] else [PREFIXES[k - 1]]
  }

  lemma RowOfBase(t: nat, base: int)
    requires t < 8 && (base == 2 || base == 10)
    ensures OfBase(SORTED_SI[2 * t], base) <==> base == 2
    ensures OfBase(SORTED_SI[2 * t + 1], base) <==> base == 10
  {
    TableRows(t);
    assert PREFIXES[7 - t] != 'i';
  }

  /** The row of the k-th power in this base. */
  function RowOf(k: nat, base: int): (j: nat)
    requires 0 < k <= 8
    ensures j < 16
  {
    2 * (8 - k) + if base == 2 then 0 else 1
  }

  lemma RowOfPower(k: nat, base: int)
    requires 0 < k <= 8 && (base == 2 || base == 10)
    ensures |SORTED_SI| == 18
    ensures SORTED_SI[RowOf(k, base)] == Entry(Some(PowerSuffix(k, base)), Power(Step(base), k))
    ensures OfBase(SORTED_SI[RowOf(k, base)], base)
    ensures PowerSuffix(k, base) in MULTIPLIERS && MULTIPLIERS[PowerSuffix(k, base)] == Power(Step(base), k)
  {
    TableRows(8 - k);
    TableMap(k - 1);
    RowOfBase(8 - k, base);
  }

  /** Which power an eligible row holds. */
  lemma PowerOfRow(j: nat, base: int) returns (k: nat)
    requires j < |SORTED_SI| && (base == 2 || base == 10) && OfBase(SORTED_SI[j], base)
    ensures k <= 8 && SORTED_SI[j].value == Power(Step(base), k)
    ensures Suffix(SORTED_SI[j]) == PowerSuffix(k, base)
    ensures k > 0 ==> j == RowOf(k, base)
    ensures k == 0 ==> 16 <= j
  {
    TablePositive();
    if j >= 16 {
      k := 0;
    } else {
      k := 8 - j / 2;
      RowOfBase(j / 2, base);
      RowOfPower(k, base);
    }
  }

  /** Every eligible row before j is above the number: so is the power after the one at j. */
  lemma NextPower(number: real, base: int, j: nat, k: nat)
    requires k < 8 && (base == 2 || base == 10)
    requires if k == 0 then 16 <= j else j == RowOf(k, base)
    requires forall l :: 0 <= l < j && l < |SORTED_SI| && OfBase(SORTED_SI[l], base) ==>
               number < SORTED_SI[l].value as real
    ensures number < Power(Step(base), k + 1) as real
  {
    RowOfPower(k + 1, base);
    assert RowOf(k + 1, base) < j;
  }

  /** The multiplier chosen is the largest power of the base's step not above the number, or 1 if there is none. */
  lemma ChosenPower(number: real, base: int) returns (k: nat)
    requires base == 2 || base == 10
    ensures k <= 8 && Chosen(number, base).value == Power(Step(base), k)
    ensures Suffix(Chosen(number, base)) == PowerSuffix(k, base)
    ensures k > 0 ==> Power(Step(base), k) as real <= number
    ensures k < 8 ==> number < Power(Step(base), k + 1) as real
  {
    var table, e := SORTED_SI, Chosen(number, base);
    ChooseFinds(table, number, base, 0);
    if j :| 0 <= j < |table| && e == table[j] && OfBase(e, base) && number >= e.value as real
            && forall l :: 0 <= l < j && OfBase(table[l], base) ==> number < table[l].value as real {
      k := PowerOfRow(j, base);
      if k < 8 {
        NextPower(number, base, j, k);
      }
    } else {
      k := 0;
      NextPower(number, base, |table| + 16, 0);
    }
  }

  /** How a number is printed: its quotient by the power chosen, and that power's letter. */
  lemma PrintExactly(number: real, places: nat, base: int) returns (k: nat)
    requires base == 2 || base == 10
    ensures k <= 8 && Power(Step(base), k) > 0 && Chosen(number, base).value == Power(Step(base), k)
    ensures Print(number, places, Chosen(number, base)) ==
              Fixed(number / Power(Step(base), k) as real, places)
              + if k == 0 then "" else if base == 2 then ["KMGTPEZY"[k - 1], 'i'] else ["KMGTPEZY"[k - 1]]
  {
    k := ChosenPower(number, base);
    ChosenPositive(number, base);
    CapitalSuffix(k, base);
  }

  lemma CapitalSuffix(k: nat, base: int)
    requires k <= 8
    ensures TitleCase(PowerSuffix(k, base)) ==
              if k == 0 then "" else if base == 2 then ["KMGTPEZY"[k - 1], 'i'] else ["KMGTPEZY"[k - 1]]
  {
    if k > 0 {
      assert TitleCase([PREFIXES[k - 1]]) == ["KMGTPEZY"[k - 1]];
      assert TitleCase([PREFIXES[k - 1], 'i']) == ["KMGTPEZY"[k - 1], 'i'];
    }
  }

  // ----- what suffixes there are

  lemma SuffixKeys(u: string)
    requires u in MULTIPLIERS
    ensures u == "" || (u[0] in PREFIXES && (|u| == 1 || (|u| == 2 && u[1] == 'i')))
  {
  }

  /** A suffix is read exactly if it is one of the table, save for a newline at the end, and as the table has it. */
  lemma SuffixExactly(rest: string, m: nat)
    ensures ReadSuffix(rest) == Some(m) <==>
              exists u :: u in MULTIPLIERS && MULTIPLIERS[u] == m && (rest == u || (u != "" && rest == u + "\n"))
  {
    if ReadSuffix(rest) == Some(m) {
      if rest == "" {
        assert "" in MULTIPLIERS && MULTIPLIERS[""] == m;
      } else {
        var end := if |rest| > 1 && rest[1] == 'i' then 2 else 1;
        var u := rest[..end];
        assert rest == u + rest[end..];
        assert u in MULTIPLIERS && MULTIPLIERS[u] == m;
      }
    }
    if u :| u in MULTIPLIERS && MULTIPLIERS[u] == m && (rest == u || (u != "" && rest == u + "\n")) {
      SuffixKeys(u);
      assert rest != "" ==> rest[..|u|] == u;
    }
  }

  /** So whatever follows the number and its blanks and is no suffix has the whole text refused. */
  lemma OtherSuffixesRefused(text: string)
    ensures var t := Lower(text);
            SiAsNumber(text).Some? <==>
              && ScanNumber(t).Some?
              && exists u :: u in MULTIPLIERS
                             && var rest := t[SkipSpaces(t, ScanNumber(t).value.end)..];
                                rest == u || (u != "" && rest == u + "\n")
  {
    var t := Lower(text);
    if ScanNumber(t).Some? {
      var rest := t[SkipSpaces(t, ScanNumber(t).value.end)..];
      if ReadSuffix(rest).Some? {
        SuffixExactly(rest, ReadSuffix(rest).value);
      }
      if u :| u in MULTIPLIERS && (rest == u || (u != "" && rest == u + "\n")) {
        SuffixExactly(rest, MULTIPLIERS[u]);
      }
    }
  }

  // ----- round trip

  lemma LowerPrinted(text: string, k: nat, base: int)
    requires k <= 8 && forall i :: 0 <= i < |text| ==> !('A' <= text[i] <= 'Z')
    ensures Lower(text + TitleCase(PowerSuffix(k, base))) == text + PowerSuffix(k, base)
  {
  }

  lemma FixedHasNoCapitals(x: real, places: nat)
    ensures forall i :: 0 <= i < |Fixed(x, places)| ==> !('A' <= Fixed(x, places)[i] <= 'Z')
  {
  }

  lemma SuffixRead(k: nat, base: int)
    requires k <= 8 && (base == 2 || base == 10)
    ensures ReadSuffix(PowerSuffix(k, base)) == Some(Power(Step(base), k))
    ensures Stops(PowerSuffix(k, base))
    ensures PowerSuffix(k, base) != "" ==> !IsSpace(PowerSuffix(k, base)[0])
  {
    if k > 0 {
      RowOfPower(k, base);
      var u := PowerSuffix(k, base);
      assert u[..|u|] == u;
      assert PREFIXES[k - 1] in PREFIXES && PREFIXES[k - 1] != 'i';
    }
  }

  /** Multiplying back scales the error of a quotient. */
  lemma ScaleError(r: real, n: real, m: real, h: real)
    requires m > 0.0 && Abs(r - n / m) <= h
    ensures Abs(r * m - n) <= h * m
  {
  }

  lemma SiAsNumberIs(text: string, scan: Scan, m: nat)
    requires ScanNumber(Lower(text)) == Some(scan)
    requires scan.end <= |text| && ReadSuffix(Lower(text)[SkipSpaces(Lower(text), scan.end)..]) == Some(m)
    ensures SiAsNumber(text) == Some(Times(scan.value, m))
  {
  }

  lemma SuffixFollows(text: string, k: nat, base: int)
    requires k <= 8 && (base == 2 || base == 10)
    ensures
      var t := text + PowerSuffix(k, base);
      ReadSuffix(t[SkipSpaces(t, |text|)..]) == Some(Power(Step(base), k))
  {
    SuffixRead(k, base);
    assert (text + PowerSuffix(k, base))[|text|..] == PowerSuffix(k, base);
  }

  lemma ReadsBack(q: real, places: nat, k: nat, base: int)
    requires k <= 8 && (base == 2 || base == 10)
    ensures SiAsNumber(Fixed(q, places) + TitleCase(PowerSuffix(k, base)))
         == Some(Times(RoundTo(q, places), Power(Step(base), k)))
  {
    var text := Fixed(q, places);
    FixedHasNoCapitals(q, places);
    LowerPrinted(text, k, base);
    SuffixRead(k, base);
    FixedValue(q, places, PowerSuffix(k, base));
    SuffixFollows(text, k, base);
    SiAsNumberIs(text + TitleCase(PowerSuffix(k, base)), Scan(RoundTo(q, places), |text|), Power(Step(base), k));
  }

  lemma ChosenPositive(number: real, base: int)
    ensures Chosen(number, base).value > 0
  {
    TablePositive();
    ChooseFinds(SORTED_SI, number, base, 0);
  }

  /** What reading the print of a number gives. */
  lemma ReadsPrint(number: real, places: nat, base: int)
    requires base == 2 || base == 10
    ensures Chosen(number, base).value > 0
    ensures
      var m := Chosen(number, base).value;
      SiAsNumber(Print(number, places, Chosen(number, base))) == Some(Times(RoundTo(number / m as real, places), m))
  {
    var k := ChosenPower(number, base);
    ChosenPositive(number, base);
    ReadsBack(number / Chosen(number, base).value as real, places, k, base);
  }

  lemma TimesError(r: real, n: real, m: nat, q: real, read: real, h: real)
    requires m > 0 && q == n / m as real && read == Times(r, m) && Abs(r - q) <= h
    ensures Abs(read - n) <= h * m as real
  {
    ScaleError(r, n, m as real, h);
    TimesIsProduct(r, m);
  }

  lemma RoundingBound(n: real, places: nat, m: nat, q: real, read: real)
    requires m > 0 && q == n / m as real && read == Times(RoundTo(q, places), m)
    ensures Abs(read - n) <= HalfUnit(places) * m as real
  {
    RoundToError(q, places);
    TimesError(RoundTo(q, places), n, m, q, read, HalfUnit(places));
  }

  /** Printing and reading back moves a number by at most half a unit in the last printed place. */
  lemma RoundTrip(number: real, places: nat, base: int, m: nat) returns (read: real)
    requires base == 2 || base == 10
    requires m == Chosen(number, base).value
    ensures m > 0
    ensures SiAsNumber(Print(number, places, Chosen(number, base))) == Some(read)
    ensures Abs(read - number) <= HalfUnit(places) * m as real
  {
    ReadsPrint(number, places, base);
    var q := number / m as real;
    read := Times(RoundTo(q, places), m);
    RoundingBound(number, places, m, q, read);
  }

  // ----- what else is read

  lemma LowerTwice(c: char)
    ensures LowerChar(LowerChar(c)) == LowerChar(c)
  {
  }

  /** Capitals and small letters mean the same. */
  lemma CaseDoesNotMatter(text: string)
    ensures SiAsNumber(Lower(text)) == SiAsNumber(text)
  {
    forall i | 0 <= i < |text| ensures Lower(Lower(text))[i] == Lower(text)[i] {
      LowerTwice(text[i]);
    }
    assert Lower(Lower(text)) == Lower(text);
  }

  lemma {:induction false} SpacesSkipped(s: string, i: nat, j: nat)
    requires i <= j <= |s| && (forall k :: i <= k < j ==> IsSpace(s[k])) && (j < |s| ==> !IsSpace(s[j]))
    ensures SkipSpaces(s, i) == j
    decreases j - i
  {
    if i < j {
      SpacesSkipped(s, i + 1, j);
    }
  }

  /** Blanks, tabs, newlines, carriage returns, vertical tabs and form feeds. */
  predicate Blank(spaces: string)
  {
    forall i :: 0 <= i < |spaces| ==>
      || spaces[i] == ' ' || spaces[i] == '\t' || spaces[i] == '\n' || spaces[i] == '\r'
      || spaces[i] == 11 as char || spaces[i] == 12 as char
  }

  lemma SuffixAfterSpaces(text: string, spaces: string, k: nat, base: int)
    requires k <= 8 && (base == 2 || base == 10) && Blank(spaces)
    ensures var t := text + spaces + PowerSuffix(k, base);
            ReadSuffix(t[SkipSpaces(t, |text|)..]) == Some(Power(Step(base), k))
  {
    var t := text + spaces + PowerSuffix(k, base);
    SuffixRead(k, base);
    SpacesSkipped(t, |text|, |text + spaces|);
    assert t[|text + spaces|..] == PowerSuffix(k, base);
  }

  /** A text without capitals is its own lower case. */
  predicate Small(s: string)
  {
    Lower(s) == s
  }

  lemma SmallJoined(a: string, b: string)
    requires Small(a) && Small(b)
    ensures Small(a + b)
  {
    assert Lower(a + b) == Lower(a) + Lower(b);
  }

  lemma AllSmall(q: real, places: nat, spaces: string, k: nat, base: int)
    requires k <= 8 && (base == 2 || base == 10) && Blank(spaces)
    ensures Small(Fixed(q, places) + spaces + PowerSuffix(k, base))
  {
    FixedHasNoCapitals(q, places);
    assert Small(Fixed(q, places));
    assert Small(spaces);
    assert Small(PowerSuffix(k, base));
    SmallJoined(Fixed(q, places), spaces);
    SmallJoined(Fixed(q, places) + spaces, PowerSuffix(k, base));
  }

  /** Blanks may stand between the number and its suffix. */
  lemma SpacesDoNotMatter(q: real, places: nat, spaces: string, k: nat, base: int)
    requires k <= 8 && (base == 2 || base == 10) && Blank(spaces)
    ensures SiAsNumber(Fixed(q, places) + spaces + PowerSuffix(k, base))
         == Some(Times(RoundTo(q, places), Power(Step(base), k)))
  {
    var number, suffix := Fixed(q, places), PowerSuffix(k, base);
    var t := number + spaces + suffix;
    SuffixRead(k, base);
    AllSmall(q, places, spaces, k, base);
    assert t == number + (spaces + suffix);
    FixedValue(q, places, spaces + suffix);
    SuffixAfterSpaces(number, spaces, k, base);
    SiAsNumberIs(t, Scan(RoundTo(q, places), |number|), Power(Step(base), k));
  }
}
