/** Fixed-point amounts as text: two printers, two parsers, and what a round trip through them keeps. */
module FixedPoint {
  import opened Arithmetic

  datatype Parsed = Amount(value: int) | Refused

  // --- digits -------------------------------------------------------------------------------------------

  predicate IsDigit(c: char) { '0' <= c <= '9' }

  predicate AllDigits(s: string) {
    forall i :: 0 <= i < |s| ==> IsDigit(s[i])
  }

  function DigitChar(n: nat): (c: char)
    requires n < 10
    ensures IsDigit(c) && ValueOf(c) == n
  {
    ('0' as int + n) as char
  }

  function ValueOf(c: char): nat
    requires IsDigit(c)
  {
    c as int - '0' as int
  }

  function Pow10(n: nat): (p: nat)
    ensures p > 0
  {
    if n == 0 then 1 else 10 * Pow10(n - 1)
  }

  /** The shortest decimal text of a number. */
  function Digits(n: nat): (s: string)
    ensures AllDigits(s) && s != []
  {
    if n < 10 then [DigitChar(n)] else Digits(n / 10) + [DigitChar(n % 10)]
  }

  /** What a run of digits says; no digits say zero. */
  function Read(s: string): nat
    requires AllDigits(s)
  {
    if s == [] then 0 else Read(s[..|s| - 1]) * 10 + ValueOf(s[|s| - 1])
  }

  function Zeros(n: nat): (s: string)
    ensures |s| == n && AllDigits(s)
  {
    seq(n, _ => '0')
  }

  function PadStart(s: string, width: nat): string {
    if |s| < width then Zeros(width - |s|) + s else s
  }

  function PadEnd(s: string, width: nat): string {
    if |s| < width then s + Zeros(width - |s|) else s
  }

  function Take(s: string, width: nat): string {
    if |s| <= width then s else s[..width]
  }

  function TrimZeros(s: string): (r: string)
    ensures |r| <= |s| && r == s[..|r|]
    ensures r == [] || r[|r| - 1] != '0'
    ensures forall i :: |r| <= i < |s| ==> s[i] == '0'
  {
    if s != [] && s[|s| - 1] == '0' then TrimZeros(s[..|s| - 1]) else s
  }

  lemma {:induction false} ReadDigits(n: nat)
    ensures Read(Digits(n)) == n
  {
    if n >= 10 {
      ReadDigits(n / 10);
      var s := Digits(n);
      assert s[..|s| - 1] == Digits(n / 10);
    }
  }

  lemma {:induction false} ReadConcat(a: string, b: string)
    requires AllDigits(a) && AllDigits(b)
    ensures AllDigits(a + b)
    ensures Read(a + b) == Read(a) * Pow10(|b|) + Read(b)
  {
    if b == [] {
      assert a + b == a;
    } else {
      var b' := b[..|b| - 1];
      ReadConcat(a, b');
      assert (a + b)[..|a + b| - 1] == a + b';
      assert Read(a) * Pow10(|b|) == Read(a) * Pow10(|b'|) * 10;
    }
  }

  lemma {:induction false} ReadZeros(n: nat)
    ensures Read(Zeros(n)) == 0
  {
    if n > 0 {
      assert Zeros(n)[..n - 1] == Zeros(n - 1);
      ReadZeros(n - 1);
    }
  }

  lemma {:induction false} ReadBelow(s: string)
    requires AllDigits(s)
    ensures Read(s) < Pow10(|s|)
  {
    if s != [] { ReadBelow(s[..|s| - 1]); }
  }

  lemma {:induction false} DigitsFit(n: nat, width: nat)
    requires width > 0 && n < Pow10(width)
    ensures |Digits(n)| <= width
  {
    if n >= 10 {
      assert width > 1;
      DigitsFit(n / 10, width - 1);
    }
  }

  lemma Pow10Add(a: nat, b: nat)
    ensures Pow10(a + b) == Pow10(a) * Pow10(b)
  {
    if a > 0 {
      Pow10Add(a - 1, b);
      assert Pow10(a) * Pow10(b) == 10 * (Pow10(a - 1) * Pow10(b));
    }
  }

  function WholePart(value: nat, decimals: nat): nat {
    DivAtLeast(value, Pow10(decimals), 0);
    value / Pow10(decimals)
  }

  function FractionPart(value: nat, decimals: nat): (r: nat)
    ensures r < Pow10(decimals)
    ensures value == WholePart(value, decimals) * Pow10(decimals) + r
  {
    ModBounds(value, Pow10(decimals));
    value % Pow10(decimals)
  }

  lemma ModBounds(n: nat, d: nat)
    requires d > 0
    ensures 0 <= n % d < d && n == n / d * d + n % d
  {
  }

  /** A fraction written out to its full width. */
  function FractionText(fraction: nat, decimals: nat): (s: string)
    ensures AllDigits(s)
  {
    PadStart(Digits(fraction), decimals)
  }

  /** Zeros in front change nothing. */
  lemma PaddedReads(text: string, width: nat)
    requires AllDigits(text)
    ensures AllDigits(PadStart(text, width)) && Read(PadStart(text, width)) == Read(text)
  {
    if |text| < width {
      ReadZeros(width - |text|);
      ReadConcat(Zeros(width - |text|), text);
    }
  }

  /** A fraction below one whole takes exactly its width, and reads back as itself. */
  lemma FractionReads(fraction: nat, decimals: nat)
    requires fraction < Pow10(decimals)
    ensures Read(FractionText(fraction, decimals)) == fraction
    ensures if decimals > 0 then |FractionText(fraction, decimals)| == decimals
            else FractionText(fraction, decimals) == "0"
  {
    if decimals > 0 { DigitsFit(fraction, decimals); }
    ReadDigits(fraction);
    PaddedReads(Digits(fraction), decimals);
  }

  lemma PadEndAt(s: string, width: nat)
    requires |s| <= width
    ensures |PadEnd(s, width)| == width
    ensures forall i :: 0 <= i < width ==> PadEnd(s, width)[i] == if i < |s| then s[i] else '0'
  {
  }

  /** Trailing zeros are exactly what padding puts back. */
  lemma TrimThenPad(s: string, width: nat)
    requires |s| <= width
    ensures PadEnd(TrimZeros(s), width) == PadEnd(s, width)
  {
    var r := TrimZeros(s);
    PadEndAt(r, width);
    PadEndAt(s, width);
    forall i | 0 <= i < width ensures PadEnd(r, width)[i] == PadEnd(s, width)[i] {
      if i < |r| { assert s[..|r|][i] == s[i]; }
    }
  }

  // --- base units to text and back -------------------------------------------------------------------------

  /** A whole part and a trimmed fraction, joined the way both printers join them. */
  function Joined(whole: string, fraction: string): string {
    if fraction != "" then whole + "." + fraction else whole
  }

  function Signed(negative: bool, text: string): string {
    if negative then "-" + text else text
  }

  function UnsignedText(value: nat, decimals: nat): string {
    Joined(Digits(WholePart(value, decimals)), TrimZeros(FractionText(FractionPart(value, decimals), decimals)))
  }

  function FromBaseUnits(value: int, decimals: nat): string {
    var abs := Abs(value);
    Signed(value < 0, UnsignedText(abs, decimals))
  }

  predicate IsSpace(c: char) { c == ' ' || c == '\t' || c == '\n' || c == '\r' }

  function TrimSpace(s: string): (r: string)
    ensures (s == [] || (!IsSpace(s[0]) && !IsSpace(s[|s| - 1]))) ==> r == s
  {
    if s == [] then s
    else if IsSpace(s[0]) then TrimSpace(s[1..])
    else if IsSpace(s[|s| - 1]) then TrimSpace(s[..|s| - 1])
    else s
  }

  /** The text before and after the first point. */
  function SplitPoint(s: string): (r: (string, string))
    ensures '.' !in r.0 && (s == r.0 || s == r.0 + "." + r.1)
    ensures '.' !in s ==> r == (s, "")
  {
    if s == [] then ("", "")
    else if s[0] == '.' then ("", s[1..])
    else
      var (whole, fraction) := SplitPoint(s[1..]);
      ([s[0]] + whole, fraction)
  }

  /** Digits with at most one point, and not just a point. */
  predicate IsUnsignedDecimal(s: string) {
    var (whole, fraction) := SplitPoint(s);
    AllDigits(whole) && AllDigits(fraction) && s != "" && s != "."
  }

  /**
   * Text that is not a plain decimal is refused here. What the source does with it depends on the
   * host's own number syntax: zero when it is no number at all.
   */
  function ToBaseUnits(text: string, decimals: nat): Parsed {
    var raw := TrimSpace(text);
    if raw == "" || raw == "." then Amount(0)
    else if raw[0] == '-' then Negated(ReadUnsigned(raw[1..], decimals))
    else ReadUnsigned(raw, decimals)
  }

  function Negated(p: Parsed): Parsed {
    match p case Amount(value) => Amount(-value) case Refused => Refused
  }

  /** A decimal without its sign, its excess digits dropped. */
  function ReadUnsigned(unsigned: string, decimals: nat): Parsed {
    if !IsUnsignedDecimal(unsigned) then Refused
    else
      var (whole, fraction) := SplitPoint(unsigned);
      var padded := PadEnd(Take(fraction, decimals), decimals);
      Amount(Read((if whole == "" then "0" else whole) + padded))
  }

  lemma {:induction false} SplitAt(whole: string, fraction: string)
    requires '.' !in whole
    ensures SplitPoint(whole + "." + fraction) == (whole, fraction)
  {
    var s := whole + "." + fraction;
    if whole == [] {
      assert s[0] == '.' && s[1..] == fraction;
    } else {
      SplitAt(whole[1..], fraction);
      assert s[0] == whole[0] && whole[0] in whole;
      assert s[1..] == whole[1..] + "." + fraction;
      assert [whole[0]] + whole[1..] == whole;
    }
  }

  lemma DigitsHaveNoPoint(s: string)
    requires AllDigits(s)
    ensures '.' !in s && ',' !in s && '-' !in s
  {
  }

  lemma JoinedSplits(whole: string, fraction: string)
    requires AllDigits(whole) && AllDigits(fraction) && whole != ""
    ensures SplitPoint(Joined(whole, fraction)) == (whole, fraction)
    ensures IsUnsignedDecimal(Joined(whole, fraction))
  {
    DigitsHaveNoPoint(whole);
    if fraction != "" { SplitAt(whole, fraction); }
    assert Joined(whole, fraction)[0] == whole[0];
  }

  /** What both parsers make of a whole part and a fraction of at most `decimals` digits. */
  lemma ReadJoined(whole: nat, fraction: string, decimals: nat)
    requires AllDigits(fraction) && |fraction| <= decimals
    ensures AllDigits(PadEnd(fraction, decimals))
    ensures Read(Digits(whole) + PadEnd(fraction, decimals))
         == whole * Pow10(decimals) + Read(PadEnd(fraction, decimals))
  {
    ReadDigits(whole);
    ReadConcat(Digits(whole), PadEnd(fraction, decimals));
  }

  /** A fraction's text, trimmed and padded out again, says the same. */
  lemma FractionSurvives(fraction: nat, decimals: nat)
    requires fraction < Pow10(decimals)
    ensures var kept := TrimZeros(FractionText(fraction, decimals));
            && AllDigits(kept) && |kept| <= decimals
            && AllDigits(PadEnd(kept, decimals)) && Read(PadEnd(kept, decimals)) == fraction
  {
    var text := FractionText(fraction, decimals);
    FractionReads(fraction, decimals);
    if decimals == 0 {
      assert TrimZeros("0") == "";
    } else {
      TrimThenPad(text, decimals);
    }
  }

  /** Printed text starts and ends with something other than space. */
  lemma JoinedIsTrimmed(whole: string, fraction: string, negative: bool)
    requires whole != "" && IsDigit(whole[0]) && IsDigit(whole[|whole| - 1]) && AllDigits(fraction)
    ensures TrimSpace(Signed(negative, Joined(whole, fraction))) == Signed(negative, Joined(whole, fraction))
    ensures Joined(whole, fraction)[0] == whole[0]
  {
    var text := Signed(negative, Joined(whole, fraction));
    assert text[|text| - 1] == if fraction != "" then fraction[|fraction| - 1] else whole[|whole| - 1];
    assert text[0] == if negative then '-' else whole[0];
  }

  /** An amount's unsigned text reads back as the amount. */
  lemma UnsignedRoundTrip(value: nat, decimals: nat)
    ensures ReadUnsigned(UnsignedText(value, decimals), decimals) == Amount(value)
  {
    var rest := FractionPart(value, decimals);
    FractionSurvives(rest, decimals);
    ReadUnsignedJoined(WholePart(value, decimals), TrimZeros(FractionText(rest, decimals)), decimals);
  }

  /** The text of an amount starts with a digit, has no space at either end, and keeps it so behind a sign. */
  lemma TextIsTrimmed(value: nat, decimals: nat, negative: bool)
    ensures UnsignedText(value, decimals) != "" && IsDigit(UnsignedText(value, decimals)[0])
    ensures TrimSpace(Signed(negative, UnsignedText(value, decimals)))
         == Signed(negative, UnsignedText(value, decimals))
  {
    var whole := Digits(WholePart(value, decimals));
    var fraction := TrimZeros(FractionText(FractionPart(value, decimals), decimals));
    JoinedIsTrimmed(whole, fraction, negative);
  }

  /** A sign in front of a decimal is taken off before it is read, and put back after. */
  lemma SignReads(negative: bool, text: string, decimals: nat)
    requires text != "" && IsDigit(text[0]) && TrimSpace(Signed(negative, text)) == Signed(negative, text)
    ensures ToBaseUnits(Signed(negative, text), decimals)
         == if negative then Negated(ReadUnsigned(text, decimals)) else ReadUnsigned(text, decimals)
  {
    var raw := Signed(negative, text);
    if negative {
      assert raw[0] == '-' && raw[1..] == text;
    } else {
      assert raw[0] == text[0];
    }
  }

  /** Printing base units and reading them back gives the same amount, for every sign and scale. */
  lemma BaseUnitsRoundTrip(value: int, decimals: nat)
    ensures ToBaseUnits(FromBaseUnits(value, decimals), decimals) == Amount(value)
  {
    var abs := Abs(value);
    TextIsTrimmed(abs, decimals, value < 0);
    SignReads(value < 0, UnsignedText(abs, decimals), decimals);
    UnsignedRoundTrip(abs, decimals);
  }

  lemma ReadUnsignedJoined(whole: nat, fraction: string, decimals: nat)
    requires AllDigits(fraction) && |fraction| <= decimals
    ensures AllDigits(PadEnd(fraction, decimals))
    ensures ReadUnsigned(Joined(Digits(whole), fraction), decimals)
         == Amount(whole * Pow10(decimals) + Read(PadEnd(fraction, decimals)))
  {
    JoinedSplits(Digits(whole), fraction);
    ReadJoined(whole, fraction, decimals);
    assert Take(fraction, decimals) == fraction;
  }

  // --- money to text and back --------------------------------------------------------------------------------

  /** Thousands separated by commas. */
  function Grouped(s: string): string {
    if |s| <= 3 then s else Grouped(s[..|s| - 3]) + "," + s[|s| - 3..]
  }

  function WithoutCommas(s: string): string {
    if s == [] then []
    else if s[|s| - 1] == ',' then WithoutCommas(s[..|s| - 1])
    else WithoutCommas(s[..|s| - 1]) + [s[|s| - 1]]
  }

  /** The digits of a fraction that are shown. */
  function Shown(abs: nat, decimals: nat, maxFractionDigits: nat): (s: string)
    ensures AllDigits(s)
  {
    TrimZeros(Take(FractionText(FractionPart(abs, decimals), decimals), maxFractionDigits))
  }

  function FormatUnits(value: int, decimals: nat, maxFractionDigits: nat): string {
    var abs := Abs(value);
    Signed(value < 0, Joined(Grouped(Digits(WholePart(abs, decimals))), Shown(abs, decimals, maxFractionDigits)))
  }

  /** A typed amount, once its spaces and commas are gone. */
  function ParsePlain(trimmed: string, decimals: nat): Parsed {
    if !IsUnsignedDecimal(trimmed) then Refused
    else
      var (whole, fraction) := SplitPoint(trimmed);
      var padded := Take(PadEnd(fraction, decimals), decimals);
      Amount(Read(if whole == "" then "0" else whole) * Pow10(decimals) + Read(if padded == "" then "0" else padded))
  }

  function ParseUnits(input: string, decimals: nat): Parsed {
    ParsePlain(WithoutCommas(TrimSpace(input)), decimals)
  }

  lemma {:induction false} CommasConcat(a: string, b: string)
    ensures WithoutCommas(a + b) == WithoutCommas(a) + WithoutCommas(b)
  {
    if b == [] {
      assert a + b == a;
    } else {
      var last := |b| - 1;
      assert (a + b)[..|a + b| - 1] == a + b[..last];
      CommasConcat(a, b[..last]);
    }
  }

  lemma {:induction false} NoCommas(s: string)
    requires ',' !in s
    ensures WithoutCommas(s) == s
  {
    if s != [] {
      NoCommas(s[..|s| - 1]);
      assert s == s[..|s| - 1] + [s[|s| - 1]];
    }
  }

  lemma CommaDropped(front: string)
    ensures WithoutCommas(front + ",") == WithoutCommas(front)
  {
    assert (front + ",")[..|front|] == front;
  }

  /** Grouping is undone by dropping the commas. */
  lemma {:induction false} GroupedReads(s: string)
    requires AllDigits(s)
    ensures WithoutCommas(Grouped(s)) == s
  {
    if |s| <= 3 {
      DigitsHaveNoPoint(s);
      NoCommas(s);
    } else {
      var front, back := s[..|s| - 3], s[|s| - 3..];
      GroupedReads(front);
      DigitsHaveNoPoint(back);
      NoCommas(back);
      CommaDropped(Grouped(front));
      CommasConcat(Grouped(front) + ",", back);
    }
  }

  /** Counted from the right, three digits stand behind the last comma, and then what stood before it. */
  lemma LastGroup(front: string, back: string, k: nat)
    requires AllDigits(back) && |back| == 3 && k < |front| + 4
    ensures var g := front + "," + back;
            if k < 3 then IsDigit(g[|g| - 1 - k])
            else if k == 3 then g[|g| - 1 - k] == ','
            else g[|g| - 1 - k] == front[|front| - 1 - (k - 4)]
  {
    if k < 3 { assert IsDigit(back[2 - k]); }
  }

  lemma {:induction false} GroupedLength(s: string)
    ensures |Grouped(s)| == if s == "" then 0 else |s| + (|s| - 1) / 3
  {
    if |s| > 3 { GroupedLength(s[..|s| - 3]); }
  }

  /** Commas stand at every fourth place from the right, and nowhere else: groups of exactly three digits. */
  lemma {:induction false} GroupsOfThree(s: string, k: nat)
    requires AllDigits(s) && k < |Grouped(s)|
    ensures Grouped(s)[|Grouped(s)| - 1 - k] == ',' <==> k % 4 == 3
    ensures |Grouped(s)| == |s| + (|s| - 1) / 3
  {
    GroupedLength(s);
    if |s| <= 3 {
      assert IsDigit(s[|s| - 1 - k]);
    } else {
      var front, back := s[..|s| - 3], s[|s| - 3..];
      LastGroup(Grouped(front), back, k);
      if k >= 4 { GroupsOfThree(front, k - 4); }
    }
  }

  /** A grouped number starts and ends with a digit. */
  lemma {:induction false} GroupedEnds(s: string)
    requires AllDigits(s) && s != []
    ensures Grouped(s) != [] && IsDigit(Grouped(s)[0]) && IsDigit(Grouped(s)[|Grouped(s)| - 1])
  {
    if |s| > 3 {
      GroupedEnds(s[..|s| - 3]);
      assert Grouped(s)[|Grouped(s)| - 1] == s[|s| - 1];
      assert Grouped(s)[0] == Grouped(s[..|s| - 3])[0];
    }
  }

  /** The printed form of an amount, once its spaces and commas are gone. */
  lemma FormattedPlain(value: int, decimals: nat, m: nat)
    ensures WithoutCommas(TrimSpace(FormatUnits(value, decimals, m)))
         == Signed(value < 0, Joined(Digits(WholePart(Abs(value), decimals)), Shown(Abs(value), decimals, m)))
  {
    var whole, fraction := Digits(WholePart(Abs(value), decimals)), Shown(Abs(value), decimals, m);
    GroupedReads(whole);
    GroupedEnds(whole);
    JoinedIsTrimmed(Grouped(whole), fraction, value < 0);
    JoinedCommas(whole, fraction);
    if value < 0 {
      CommasConcat("-", Joined(Grouped(whole), fraction));
      assert WithoutCommas("-") == "-";
    }
  }

  lemma JoinedCommas(whole: string, fraction: string)
    requires WithoutCommas(Grouped(whole)) == whole && AllDigits(fraction)
    ensures WithoutCommas(Joined(Grouped(whole), fraction)) == Joined(whole, fraction)
  {
    if fraction != "" {
      DigitsHaveNoPoint(fraction);
      NoCommas("." + fraction);
      CommasConcat(Grouped(whole), "." + fraction);
      assert Grouped(whole) + "." + fraction == Grouped(whole) + ("." + fraction);
      assert whole + "." + fraction == whole + ("." + fraction);
    }
  }

  /** Cutting a fraction's text after `m` digits rounds it down to a multiple of what was cut. */
  lemma CutRoundsDown(text: string, decimals: nat, m: nat)
    requires AllDigits(text) && |text| == decimals
    ensures var cut := PadEnd(TrimZeros(Take(text, m)), decimals);
            var unit := Step(decimals, m);
            && |cut| == decimals && AllDigits(cut)
            && Read(cut) <= Read(text) < Read(cut) + unit
            && exists q: nat :: Read(cut) == q * unit
  {
    var kept := Take(text, m);
    TrimThenPad(kept, decimals);
    var rest := text[|kept|..];
    assert text == kept + rest;
    ReadConcat(kept, rest);
    ReadConcat(kept, Zeros(decimals - |kept|));
    ReadZeros(decimals - |kept|);
    ReadBelow(rest);
    var unit := Step(decimals, m);
    assert Pow10(|rest|) == unit;
    assert Read(PadEnd(TrimZeros(kept), decimals)) == Read(kept) * unit;
  }

  lemma RoundedDown(value: nat, low: nat, unit: nat, q: nat)
    requires unit > 0 && low == q * unit && low <= value < low + unit
    ensures low == value - value % unit
  {
    assert (q + 1) * unit == q * unit + unit;
    DivAtLeast(value, unit, q);
    DivAtLeast(value, unit, q + 1);
    assert value / unit == q;
    ModBounds(value, unit);
  }

  /** The smallest step a printed amount can show. */
  function Step(decimals: nat, m: nat): (unit: nat)
    ensures unit > 0
  {
    if m >= decimals then 1 else Pow10(decimals - m)
  }

  /** What the digits shown add up to. */
  lemma ShownRoundsDown(value: nat, decimals: nat, m: nat) returns (low: nat)
    ensures AllDigits(PadEnd(Shown(value, decimals, m), decimals))
    ensures |Shown(value, decimals, m)| <= decimals
    ensures low == Read(PadEnd(Shown(value, decimals, m), decimals))
    ensures WholePart(value, decimals) * Pow10(decimals) + low == value - value % Step(decimals, m)
  {
    var unit := Step(decimals, m);
    var whole, rest := WholePart(value, decimals), FractionPart(value, decimals);
    FractionReads(rest, decimals);
    if decimals == 0 {
      assert TrimZeros("0") == "" && TrimZeros("") == "";
      return 0;
    }
    CutRoundsDown(FractionText(rest, decimals), decimals, m);
    low := Read(PadEnd(Shown(value, decimals, m), decimals));
    var q: nat :| low == q * unit;
    var p := UnitsInOne(decimals, m);
    PartsRoundDown(value, whole, p, q, rest, low, unit);
  }

  /** One whole is a number of steps. */
  lemma UnitsInOne(decimals: nat, m: nat) returns (p: nat)
    ensures Pow10(decimals) == p * Step(decimals, m)
  {
    p := Pow10(if m >= decimals then decimals else m);
    if m < decimals { Pow10Add(m, decimals - m); }
  }

  lemma PartsRoundDown(value: nat, whole: nat, p: nat, q: nat, rest: nat, low: nat, unit: nat)
    requires unit > 0 && value == whole * (p * unit) + rest
    requires low == q * unit && low <= rest < low + unit
    ensures whole * (p * unit) + low == value - value % unit
  {
    assert whole * (p * unit) + low == (whole * p + q) * unit;
    RoundedDown(value, whole * (p * unit) + low, unit, whole * p + q);
  }

  /** A printed whole part and fraction read back as what they say. */
  lemma ParseJoined(whole: nat, fraction: string, decimals: nat)
    requires AllDigits(fraction) && |fraction| <= decimals
    ensures AllDigits(PadEnd(fraction, decimals))
    ensures ParsePlain(Joined(Digits(whole), fraction), decimals)
         == Amount(whole * Pow10(decimals) + Read(PadEnd(fraction, decimals)))
  {
    JoinedSplits(Digits(whole), fraction);
    ReadDigits(whole);
    var cut := PadEnd(fraction, decimals);
    assert Take(cut, decimals) == cut;
    assert Read("0") == 0 == Read("");
  }

  lemma SignIsRefused(text: string, decimals: nat)
    ensures ParsePlain("-" + text, decimals) == Refused
  {
    var signed := "-" + text;
    assert signed[0] == '-' && signed[1..] == text;
    assert SplitPoint(signed).0[0] == '-';
  }

  /** The printed text of a non-negative amount reads back as the digits shown. */
  lemma ShownReadsBack(value: nat, decimals: nat, m: nat)
    ensures ParsePlain(Joined(Digits(WholePart(value, decimals)), Shown(value, decimals, m)), decimals)
         == Amount(value - value % Step(decimals, m))
  {
    var low := ShownRoundsDown(value, decimals, m);
    ParseJoined(WholePart(value, decimals), Shown(value, decimals, m), decimals);
  }

  /**
   * Printing an amount for display and reading it back rounds it down to the digits shown, so never
   * up, and not at all when every digit is shown. A negative amount is refused.
   */
  lemma DisplayRoundTrip(value: int, decimals: nat, m: nat)
    ensures ParseUnits(FormatUnits(value, decimals, m), decimals)
         == if value < 0 then Refused else Amount(value - value % Step(decimals, m))
  {
    FormattedPlain(value, decimals, m);
    if value < 0 {
      SignIsRefused(Joined(Digits(WholePart(-value, decimals)), Shown(-value, decimals, m)), decimals);
    } else {
      ShownReadsBack(value, decimals, m);
    }
  }
}
