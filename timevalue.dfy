/**
 * Time values of the weekly timesheet grid: reading what the user typed into a
 * day cell (`H:MM` or decimal hours) and writing hours back as `H:MM`.
 *
 * Hours are counted in whole hundredths of an hour, the precision the grid
 * rounds every accepted value to.  The numbers that JavaScript's `parseFloat`
 * produces are kept exact (a fraction `num / den`), so the model has no
 * floating-point error.
 */
module TimeValue {

  type Pos = x: int | x > 0 witness 1

  /** What `parseFloat` yields: not-a-number, an infinity, or a finite value num/den. */
  datatype Num = NaN | Infinity(negative: bool) | Finite(num: int, den: Pos)

  /** Why a typed time value was turned into 0, or the hundredths it was read as. */
  datatype TimeParse =
    | Blank              // the cell is empty
    | TooLong            // more than 10 characters after trimming
    | TooManyColons      // more than one ':'
    | HoursOutOfRange    // H outside [0, 24]
    | MinutesOutOfRange  // MM outside [0, 60)
    | OverDay            // H + MM/60 above 24
    | NotANumber         // decimal form that does not start with a number
    | Negative           // decimal form below 0
    | OverMaximum        // decimal form above 24
    | Accepted(hundredths: nat)

  // ---------------------------------------------------------------------------
  // Characters and strings

  /** The characters `String.prototype.trim` and `parseFloat` treat as white space. */
  predicate IsSpace(c: char) {
    c == ' ' || c == '\t' || c == '\n' || c == '\r' || c == '\U{000B}' || c == '\U{000C}'
    || c == '\U{00A0}' || c == '\U{1680}' || ('\U{2000}' <= c <= '\U{200A}')
    || c == '\U{2028}' || c == '\U{2029}' || c == '\U{202F}' || c == '\U{205F}'
    || c == '\U{3000}' || c == '\U{FEFF}'
  }

  predicate IsDigit(c: char) { '0' <= c <= '9' }

  predicate AllDigits(s: string) { forall i :: 0 <= i < |s| ==> IsDigit(s[i]) }

  function TrimStart(s: string): (r: string)
    ensures |r| <= |s| && r == s[|s| - |r|..]
    ensures r == [] || !IsSpace(r[0])
    ensures forall i :: 0 <= i < |s| - |r| ==> IsSpace(s[i])
  {
    if |s| > 0 && IsSpace(s[0]) then
      var r := TrimStart(s[1..]);
      assert forall i :: 1 <= i < |s| ==> s[i] == s[1..][i - 1];
      r
    else s
  }

  function TrimEnd(s: string): (r: string)
    ensures |r| <= |s| && r == s[..|r|]
    ensures r == [] || !IsSpace(r[|r| - 1])
    ensures forall i :: |r| <= i < |s| ==> IsSpace(s[i])
  {
    if |s| > 0 && IsSpace(s[|s| - 1]) then TrimEnd(s[..|s| - 1]) else s
  }

  /** Text starting with a non-space character is left alone by `TrimStart`. */
  lemma NoLeadingSpace(s: string)
    requires s != [] && !IsSpace(s[0])
    ensures TrimStart(s) == s
  {
  }

  /** Text with no white space at either end is left alone by `Trim`. */
  lemma NoSpaceAtEnds(s: string)
    requires s != [] && !IsSpace(s[0]) && !IsSpace(s[|s| - 1])
    ensures TrimStart(s) == s && Trim(s) == s
  {
    NoLeadingSpace(s);
  }

  /** `String.prototype.trim`. */
  function Trim(s: string): string {
    TrimEnd(TrimStart(s))
  }

  /** A character JavaScript stores in one UTF-16 code unit; those above U+FFFF take two. */
  predicate OneUnit(c: char) { c <= '\U{FFFF}' }

  /** `String.prototype.length`: the number of UTF-16 code units, not of characters. */
  function Utf16Length(s: string): (n: nat)
    ensures |s| <= n <= 2 * |s|
  {
    if s == [] then 0 else Utf16Length(s[..|s| - 1]) + (if OneUnit(s[|s| - 1]) then 1 else 2)
  }

  lemma {:induction false} Utf16Append(a: string, b: string)
    ensures Utf16Length(a + b) == Utf16Length(a) + Utf16Length(b)
    decreases |b|
  {
    if b != [] {
      assert (a + b)[..|a + b| - 1] == a + b[..|b| - 1];
      assert (a + b)[|a + b| - 1] == b[|b| - 1];
      Utf16Append(a, b[..|b| - 1]);
    } else {
      assert a + b == a;
    }
  }

  /** Text whose characters each take one code unit is as long as it has characters. */
  lemma {:induction false} OneUnitLength(s: string)
    requires forall i :: 0 <= i < |s| ==> OneUnit(s[i])
    ensures Utf16Length(s) == |s|
  {
    if s != [] {
      assert forall i :: 0 <= i < |s| - 1 ==> s[..|s| - 1][i] == s[i];
      OneUnitLength(s[..|s| - 1]);
    }
  }

  lemma DigitsLength(ds: string)
    requires AllDigits(ds)
    ensures Utf16Length(ds) == |ds|
  {
    OneUnitLength(ds);
  }

  function IndexOf(s: string, c: char): (i: nat)
    requires c in s
    ensures i < |s| && s[i] == c && c !in s[..i]
  {
    if s[0] == c then 0 else 1 + IndexOf(s[1..], c)
  }

  /** `String.prototype.split` on a one-character separator. */
  function Split(s: string, sep: char): (parts: seq<string>)
    ensures |parts| >= 1
    ensures sep !in s ==> parts == [s]
    ensures sep in s ==> parts[0] == s[..IndexOf(s, sep)]
    decreases |s|
  {
    if sep in s then
      var i := IndexOf(s, sep);
      [s[..i]] + Split(s[i + 1..], sep)
    else
      [s]
  }

  // ---------------------------------------------------------------------------
  // Decimal digits

  function DigitValue(c: char): nat {
    if IsDigit(c) then c as int - '0' as int else 0
  }

  function DigitChar(d: nat): (c: char)
    requires d < 10
    ensures IsDigit(c) && DigitValue(c) == d
  {
    ('0' as int + d) as char
  }

  /** The value of a string of decimal digits. */
  function DigitsValue(ds: string): nat {
    if ds == [] then 0 else DigitsValue(ds[..|ds| - 1]) * 10 + DigitValue(ds[|ds| - 1])
  }

  /** Length of the run of digits at the start of `s`. */
  function DigitRun(s: string): (n: nat)
    ensures n <= |s| && AllDigits(s[..n])
    ensures n == |s| || !IsDigit(s[n])
  {
    if |s| > 0 && IsDigit(s[0]) then 1 + DigitRun(s[1..]) else 0
  }

  function Pow10(k: nat): Pos {
    if k == 0 then 1 else 10 * Pow10(k - 1)
  }

  /** The exponent an `e`/`E` suffix contributes, or 0 where there is no complete one. */
  function ExponentOf(s: string): int {
    if |s| >= 2 && (s[0] == 'e' || s[0] == 'E') then
      var negative := s[1] == '-';
      var t := if s[1] == '+' || s[1] == '-' then s[2..] else s[1..];
      var k := DigitRun(t);
      if k == 0 then 0
      else if negative then -(DigitsValue(t[..k]) as int)
      else DigitsValue(t[..k])
    else 0
  }

  /**
   * JavaScript's `parseFloat`: skip leading white space, then read the longest
   * prefix that is a decimal literal (sign, digits, fraction, exponent) or
   * `Infinity`; NaN when there is none.
   */
  function ParseFloat(s: string): Num {
    var t := TrimStart(s);
    if |t| > 0 && t[0] == '-' then Negate(ParseUnsigned(t[1..]))
    else if |t| > 0 && t[0] == '+' then ParseUnsigned(t[1..])
    else ParseUnsigned(t)
  }

  function Negate(n: Num): Num {
    match n
    case NaN => NaN
    case Infinity(negative) => Infinity(!negative)
    case Finite(num, den) => Finite(-num, den)
  }

  /** The longest unsigned decimal literal (or `Infinity`) at the start of `u`. */
  function ParseUnsigned(u: string): Num {
    if |u| >= 8 && u[..8] == "Infinity" then Infinity(false)
    else AfterWhole(u, DigitRun(u))
  }

  /** The literal after a run of `ip` integer digits: a fraction follows a dot. */
  function AfterWhole(u: string, ip: nat): Num
    requires ip <= |u|
  {
    if ip < |u| && u[ip] == '.' then AfterFraction(u, ip, DigitRun(u[ip + 1..]))
    else if ip == 0 then NaN
    else Literal(u[..ip], "", ExponentOf(u[ip..]))
  }

  /** The literal after `ip` integer digits, a dot and `fp` fraction digits; a lone dot is no number. */
  function AfterFraction(u: string, ip: nat, fp: nat): Num
    requires ip + 1 + fp <= |u|
  {
    if ip == 0 && fp == 0 then NaN
    else Literal(u[..ip], u[ip + 1..ip + 1 + fp], ExponentOf(u[ip + 1 + fp..]))
  }

  /** The number written with integer digits `whole`, fraction digits `fraction` and exponent `e`. */
  function Literal(whole: string, fraction: string, e: int): Num {
    Scaled(DigitsValue(whole) * Pow10(|fraction|) + DigitsValue(fraction), e - |fraction|)
  }

  /** mantissa · 10^scale. */
  function Scaled(mantissa: nat, scale: int): Num {
    if scale >= 0 then Finite(mantissa * Pow10(scale), 1) else Finite(mantissa, Pow10(-scale))
  }

  /** `parseFloat(x) || 0`: NaN (and -0) become 0. */
  function OrZero(n: Num): Num {
    if n.NaN? then Finite(0, 1) else n
  }

  predicate Below(n: Num, k: int) {
    (n.Finite? && n.num < k * n.den) || (n.Infinity? && n.negative)
  }

  predicate Above(n: Num, k: int) {
    (n.Finite? && n.num > k * n.den) || (n.Infinity? && !n.negative)
  }

  predicate AtLeast(n: Num, k: int) {
    (n.Finite? && n.num >= k * n.den) || (n.Infinity? && !n.negative)
  }

  lemma PositiveProduct(a: Pos, b: Pos)
    ensures a * b > 0
  {
  }

  /** `h + m / 60` for finite h and m. */
  function ClockSum(h: Num, m: Num): (t: Num)
    requires h.Finite? && m.Finite?
    ensures t.Finite?
  {
    PositiveProduct(h.den, m.den);
    Finite(60 * h.num * m.den + m.num * h.den, 60 * h.den * m.den)
  }

  /** r is x = num/den to the nearest hundredth, halves going up: r - 1/2 <= 100·x < r + 1/2. */
  predicate NearestHundredth(r: int, x: Num) {
    x.Finite? && (2 * r - 1) * x.den <= 200 * x.num < (2 * r + 1) * x.den
  }

  /** A number has one nearest hundredth. */
  lemma NearestHundredthUnique(r: int, q: int, x: Num)
    requires NearestHundredth(r, x) && NearestHundredth(q, x)
    ensures r == q
  {
    if r < q {
      MultiplyMonotone(x.den, 2 * r + 1, 2 * q - 1);
      assert false;
    }
    if q < r {
      MultiplyMonotone(x.den, 2 * q + 1, 2 * r - 1);
      assert false;
    }
  }

  /** `Math.round(x * 100)` for x = n/d in [0, 24]. */
  function RoundHundredths(n: int, d: Pos): (r: nat)
    requires 0 <= n <= 24 * d
    ensures r <= 2400
    ensures NearestHundredth(r, Finite(n, d))
  {
    var q := (200 * n + d) / (2 * d);
    DivisionBounds(200 * n + d, 2 * d, q);
    NearestOfQuotient(n, d, q);
    q
  }

  lemma NearestOfQuotient(n: int, d: Pos, q: int)
    requires 2 * d * q <= 200 * n + d < 2 * d * (q + 1)
    ensures NearestHundredth(q, Finite(n, d))
  {
    assert (2 * q - 1) * d == 2 * d * q - d;
    assert (2 * q + 1) * d == 2 * d * (q + 1) - d;
  }

  lemma DivisionBounds(a: int, b: Pos, q: int)
    requires q == a / b && 0 <= a <= 4801 * (b / 2) && b % 2 == 0
    ensures 0 <= q <= 2400
    ensures b * q <= a < b * (q + 1)
  {
    var r := a % b;
    assert a == b * q + r && 0 <= r < b;
    if q < 0 {
      MultiplyMonotone(b, q, -1);
      assert false;
    }
    if q > 2400 {
      MultiplyMonotone(b, 2401, q);
      assert false;
    }
  }

  lemma MultiplyMonotone(b: nat, x: int, y: int)
    requires x <= y
    ensures b * x <= b * y
  {
    assert b * y - b * x == b * (y - x);
  }

  // ---------------------------------------------------------------------------
  // parse_time_input and format_hours

  /** `parse_time_input`, with the reason each rejected input is reported as 0. */
  function ParseTime(value: string): (r: TimeParse)
    ensures r.Accepted? ==> r.hundredths <= 2400
    ensures value == "" ==> r == Blank
    ensures value != "" && Utf16Length(Trim(value)) > 10 ==> r == TooLong
    ensures value != "" && Utf16Length(Trim(value)) <= 10 && |Split(Trim(value), ':')| > 2 ==> r == TooManyColons
  {
    if value == "" then Blank
    else
      var v := Trim(value);
      if Utf16Length(v) > 10 then TooLong
      else if ':' in v then
        var parts := Split(v, ':');
        if |parts| > 2 then TooManyColons else ParseClock(parts[0], parts[1])
      else ParseDecimal(v)
  }

  /** The `H:MM` branch, given the text before and after the colon. */
  function ParseClock(hours: string, minutes: string): (r: TimeParse)
    ensures r.Accepted? ==> r.hundredths <= 2400
  {
    ClockValue(OrZero(ParseFloat(hours)), OrZero(ParseFloat(minutes)))
  }

  /** The range checks and the rounding of the `H:MM` branch, given the two numbers read. */
  function ClockValue(h: Num, m: Num): (r: TimeParse)
    requires !h.NaN? && !m.NaN?
    ensures r.Accepted? ==> r.hundredths <= 2400
  {
    if Below(h, 0) || Above(h, 24) then HoursOutOfRange
    else if Below(m, 0) || AtLeast(m, 60) then MinutesOutOfRange
    else
      var total := ClockSum(h, m);
      if Above(total, 24) then OverDay
      else
        ClockSumNonNegative(h, m);
        Accepted(RoundHundredths(total.num, total.den))
  }

  lemma ClockSumNonNegative(h: Num, m: Num)
    requires h.Finite? && m.Finite? && !Below(h, 0) && !Below(m, 0)
    ensures ClockSum(h, m).num >= 0
  {
    assert h.num >= 0 && m.num >= 0;
    assert 60 * h.num * m.den >= 0;
    assert m.num * h.den >= 0;
  }

  /** The decimal branch. */
  function ParseDecimal(v: string): (r: TimeParse)
    ensures r.Accepted? ==> r.hundredths <= 2400
  {
    var x := ParseFloat(v);
    if x.NaN? then NotANumber
    else if Below(x, 0) then Negative
    else if Above(x, 24) then OverMaximum
    else Accepted(RoundHundredths(x.num, x.den))
  }

  /** The number `parse_time_input` returns: the accepted hundredths, or 0. */
  function ParseTimeInput(value: string): (r: nat)
    ensures r <= 2400
    ensures r > 0 ==> ParseTime(value).Accepted?
    ensures ParseTime(value).Accepted? ==> r == ParseTime(value).hundredths
  {
    match ParseTime(value)
    case Accepted(c) => c
    case _ => 0
  }

  /** An accepted value is the number the cell reads as. */
  lemma AcceptedReads(v: string, c: nat)
    requires ParseTime(v) == Accepted(c)
    ensures ParseTimeInput(v) == c
  {
  }

  function NatToString(n: nat): (s: string)
    ensures |s| >= 1 && AllDigits(s)
    ensures DigitsValue(s) == n
    ensures n < 10 ==> |s| == 1
    ensures n < 100 ==> |s| <= 2
  {
    if n < 10 then [DigitChar(n)]
    else
      var s := NatToString(n / 10) + [DigitChar(n % 10)];
      assert s[..|s| - 1] == NatToString(n / 10);
      s
  }

  /** A minute count written with at least two digits (`padStart(2, '0')`). */
  function Pad2(m: nat): (s: string)
    ensures |s| >= 2 && AllDigits(s)
    ensures DigitsValue(s) == m
    ensures m < 100 ==> |s| == 2
  {
    if m < 10 then
      var s := ['0', DigitChar(m)];
      assert s[..1] == ['0'] && ['0'][..0] == [];
      assert DigitsValue(['0']) == 0;
      assert s[|s| - 1] == DigitChar(m);
      s
    else NatToString(m)
  }

  /** Whole hours and a rounded minute count as text; a minute count of 60 carries into the hour. */
  function Clock(h: nat, m: nat): (s: string)
    ensures ':' in s
  {
    if m == 60 then NatToString(h + 1) + ":00" else NatToString(h) + ":" + Pad2(m)
  }

  /** The minute field for c hundredths: `Math.round((hours - floor(hours)) * 60)`. */
  function Minutes(c: nat): nat {
    ((c % 100) * 60 + 50) / 100
  }

  /** `format_hours`. */
  function FormatHours(c: nat): string {
    if c == 0 then "0:00" else Clock(c / 100, Minutes(c))
  }

  // ---------------------------------------------------------------------------
  // What format_hours writes, and how parse_time_input reads it back

  /** Every formatted value has the shape `H:MM` with a minute field below 60: the carry never fires. */
  lemma FormatIsClock(c: nat)
    ensures Minutes(c) < 60
    ensures FormatHours(c) == NatToString(c / 100) + ":" + Pad2(Minutes(c))
  {
    if c == 0 {
      assert NatToString(0) == "0" && Pad2(0) == "00";
    }
  }

  lemma AllDigitsNoColon(s: string)
    requires AllDigits(s)
    ensures ':' !in s
  {
    forall i | 0 <= i < |s| ensures s[i] != ':' {
      assert IsDigit(s[i]);
    }
  }

  /** A run of digits is read by `parseFloat` as its value. */
  lemma ReadDigits(ds: string)
    requires |ds| >= 1 && AllDigits(ds)
    ensures ParseUnsigned(ds) == Finite(DigitsValue(ds), 1)
    ensures ParseFloat(ds) == Finite(DigitsValue(ds), 1)
  {
    UnsignedDigits(ds);
    assert ParseFloat(ds) == ParseUnsigned(ds) by {
      assert IsDigit(ds[0]);
      NoLeadingSpace(ds);
    }
  }

  lemma UnsignedDigits(ds: string)
    requires |ds| >= 1 && AllDigits(ds)
    ensures ParseUnsigned(ds) == Finite(DigitsValue(ds), 1)
  {
    assert !(|ds| >= 8 && ds[..8] == "Infinity") by {
      assert IsDigit(ds[0]);
      assert |ds| >= 8 ==> ds[..8][0] == ds[0];
    }
    var ip := DigitRun(ds);
    assert ip == |ds|;
    assert ds[..ip] == ds && ds[ip..] == [];
    assert ExponentOf([]) == 0 && Pow10(0) == 1;
    assert ParseUnsigned(ds) == Literal(ds, "", ExponentOf(ds[ip..]));
    assert DigitsValue("") == 0;
  }

  lemma SplitAtColon(a: string, b: string)
    requires ':' !in a && ':' !in b
    ensures Split(a + ":" + b, ':') == [a, b]
  {
    var s := a + ":" + b;
    assert s[|a|] == ':' && s[..|a|] == a;
    var i := IndexOf(s, ':');
    assert i == |a|;
    assert s[..i] == a && s[i + 1..] == b;
  }

  /** Two runs of digits around a colon: nothing to trim, and the colon splits them apart again. */
  lemma ClockShape(hs: string, ms: string)
    requires 1 <= |hs| && 1 <= |ms| && AllDigits(hs) && AllDigits(ms)
    ensures var s := hs + ":" + ms;
      s != "" && Trim(s) == s && ':' in s && Split(s, ':') == [hs, ms] && Utf16Length(s) == |s|
  {
    var s := hs + ":" + ms;
    ColonLength(hs, ms);
    assert s[0] == hs[0] && IsDigit(s[0]);
    assert s[|s| - 1] == ms[|ms| - 1] && IsDigit(s[|s| - 1]);
    NoSpaceAtEnds(s);
    assert s[|hs|] == ':';
    ColonSplit(hs, ms);
  }

  /** Two runs of digits around a colon take one code unit per character. */
  lemma ColonLength(hs: string, ms: string)
    requires AllDigits(hs) && AllDigits(ms)
    ensures Utf16Length(hs + ":" + ms) == |hs| + 1 + |ms|
  {
    DigitsLength(hs);
    DigitsLength(ms);
    OneColon();
    Utf16Append(hs, ":");
    Utf16Append(hs + ":", ms);
  }

  lemma OneColon()
    ensures Utf16Length(":") == 1
  {
    assert ":"[..0] == [];
  }

  lemma ColonSplit(hs: string, ms: string)
    requires AllDigits(hs) && AllDigits(ms)
    ensures Split(hs + ":" + ms, ':') == [hs, ms]
  {
    AllDigitsNoColon(hs);
    AllDigitsNoColon(ms);
    SplitAtColon(hs, ms);
  }

  /** The text `H:MM` for minutes below 60: nothing to trim, one colon, both fields read back exactly. */
  lemma ClockText(h: nat, m: nat)
    requires m < 60
    ensures var s := NatToString(h) + ":" + Pad2(m);
      && s != "" && Trim(s) == s && ':' in s
      && Split(s, ':') == [NatToString(h), Pad2(m)]
      && ParseFloat(NatToString(h)) == Finite(h, 1)
      && ParseFloat(Pad2(m)) == Finite(m, 1)
      && (h < 100 ==> Utf16Length(s) <= 5)
  {
    ClockShape(NatToString(h), Pad2(m));
    ReadDigits(NatToString(h));
    ReadDigits(Pad2(m));
  }

  /** Reading back `H:MM` within a day gives 100·H plus the nearest hundredth of MM/60. */
  lemma ReadClock(h: nat, m: nat)
    requires m < 60 && 60 * h + m <= 1440
    ensures ParseTimeInput(NatToString(h) + ":" + Pad2(m)) == ClockHundredths(h, m)
  {
    var s := NatToString(h) + ":" + Pad2(m);
    assert ParseTime(s) == ParseClock(NatToString(h), Pad2(m)) by {
      ClockText(h, m);
      CleanClockText(s);
    }
    assert ParseClock(NatToString(h), Pad2(m)) == Accepted(ClockHundredths(h, m)) by {
      ClockText(h, m);
      ReadClockFields(NatToString(h), Pad2(m), h, m);
    }
    AcceptedReads(s, ClockHundredths(h, m));
  }

  /** What `H:MM` reads as: 100·H plus the nearest hundredth of MM/60. */
  function ClockHundredths(h: nat, m: nat): nat {
    100 * h + (10 * m + 3) / 6
  }

  lemma NearestHundredthOfClock(h: nat, m: nat, r: int)
    requires 120 * r <= 200 * (60 * h + m) + 60 < 120 * (r + 1)
    ensures r == ClockHundredths(h, m)
  {
    var k := r - 100 * h;
    assert 120 * k <= 200 * m + 60 < 120 * (k + 1);
    assert 6 * k <= 10 * m + 3 < 6 * (k + 1);
  }

  /** A trimmed `H:MM` text of at most 10 characters goes to the clock branch. */
  lemma CleanClockText(s: string)
    requires s != "" && Trim(s) == s && Utf16Length(s) <= 10 && ':' in s && |Split(s, ':')| == 2
    ensures ParseTime(s) == ParseClock(Split(s, ':')[0], Split(s, ':')[1])
  {
  }

  lemma ReadClockFields(hs: string, ms: string, h: nat, m: nat)
    requires m < 60 && 60 * h + m <= 1440
    requires ParseFloat(hs) == Finite(h, 1) && ParseFloat(ms) == Finite(m, 1)
    ensures ParseClock(hs, ms) == Accepted(ClockHundredths(h, m))
  {
    WholeClockValue(h, m);
  }

  lemma WholeClockValue(h: nat, m: nat)
    requires m < 60 && 60 * h + m <= 1440
    ensures ClockValue(Finite(h, 1), Finite(m, 1)) == Accepted(ClockHundredths(h, m))
  {
    assert ClockSum(Finite(h, 1), Finite(m, 1)) == Finite(60 * h + m, 60);
    var r := RoundHundredths(60 * h + m, 60);
    DivisionBounds(200 * (60 * h + m) + 60, 120, r);
    NearestHundredthOfClock(h, m, r);
  }

  /**
   * Writing c hundredths as `H:MM` and reading the text back is off by at most
   * one hundredth: minutes are coarser than hundredths of an hour.
   */
  lemma {:induction false} FormatThenParseWithinOne(c: nat)
    requires c <= 2400
    ensures c - 1 <= ParseTimeInput(FormatHours(c)) <= c + 1
  {
    FormatIsClock(c);
    ReadClock(c / 100, Minutes(c));
  }

  /** A value ending in one hundredth is written with one minute, which reads back one hundredth high. */
  lemma OneHundredthReadsHigh(c: nat)
    requires c <= 2400 && c % 100 == 1
    ensures ParseTimeInput(FormatHours(c)) == c + 1
  {
    FormatIsClock(c);
    assert Minutes(c) == 1;
    ReadClock(c / 100, 1);
  }

  /** The exact round trip fails: 0.01 h is written `0:01`, which reads back as 0.02 h. */
  lemma FormatThenParseNotExact()
    ensures FormatHours(1) == "0:01"
    ensures ParseTimeInput(FormatHours(1)) == 2
  {
    assert FormatHours(1) == "0:01" by {
      FormatIsClock(1);
      assert Minutes(1) == 1;
      assert NatToString(0) == "0" && Pad2(1) == "01";
      assert NatToString(0) + ":" + Pad2(1) == "0:01";
    }
    OneHundredthReadsHigh(1);
  }

  /** Displayed values are a fixed point: formatting what a displayed value reads as changes nothing. */
  lemma {:induction false} FormatParseFormatStable(c: nat)
    requires c <= 2400
    ensures FormatHours(ParseTimeInput(FormatHours(c))) == FormatHours(c)
  {
    var h, m := c / 100, Minutes(c);
    FormatIsClock(c);
    ReadClock(h, m);
    var p := ClockHundredths(h, m);
    assert p / 100 == h && Minutes(p) == m;
    FormatIsClock(p);
  }

  /** A bucket above 24 hours is written out but reads back as 0. */
  lemma {:induction false} FormatAboveDayReadsZero(c: nat)
    requires c > 2400
    ensures ParseTimeInput(FormatHours(c)) == 0
  {
    var h, m := c / 100, Minutes(c);
    FormatIsClock(c);
    ClockText(h, m);
    var s := NatToString(h) + ":" + Pad2(m);
    if Utf16Length(s) <= 10 {
      CleanClockText(s);
      assert h == 24 ==> m >= 1;
      WholeClockAboveDay(h, m);
      assert ParseTime(s) == ClockValue(Finite(h, 1), Finite(m, 1));
    }
  }

  lemma WholeClockAboveDay(h: nat, m: nat)
    requires m < 60 && (h > 24 || (h == 24 && m >= 1))
    ensures ClockValue(Finite(h, 1), Finite(m, 1)) == if h > 24 then HoursOutOfRange else OverDay
  {
    if h <= 24 {
      assert ClockSum(Finite(h, 1), Finite(m, 1)) == Finite(60 * h + m, 60);
    }
  }

  // ---------------------------------------------------------------------------
  // Inputs the grid turns into 0, and inputs it accepts

  /** A cell that is blank after trimming reads as 0. */
  lemma BlankReadsZero(v: string)
    requires Trim(v) == ""
    ensures ParseTimeInput(v) == 0
  {
    if v != "" {
      assert ParseTime(v) == ParseDecimal("");
      assert ParseUnsigned("") == NaN;
    }
  }

  /** The zero clock `0:00` reads as 0. */
  lemma ZeroClockReadsZero()
    ensures ParseTimeInput("0:00") == 0
  {
    assert NatToString(0) + ":" + Pad2(0) == "0:00";
    ReadClock(0, 0);
  }

  /** A positive reading needs a non-blank cell that is not the zero clock `0:00`. */
  lemma PositiveReadingIsMeaningful(v: string)
    requires ParseTimeInput(v) > 0
    ensures v != "" && Trim(v) != "" && v != "0:00"
  {
    if Trim(v) == "" {
      BlankReadsZero(v);
    }
    if v == "0:00" {
      ZeroClockReadsZero();
    }
  }

  /** A decimal text without white space or colon, of at most 10 characters, goes to the decimal branch. */
  lemma CleanDecimalText(v: string)
    requires v != "" && !IsSpace(v[0]) && !IsSpace(v[|v| - 1]) && Utf16Length(v) <= 10 && ':' !in v
    ensures ParseTime(v) == ParseDecimal(v)
  {
    NoSpaceAtEnds(v);
  }

  /** A run of at most 10 digits goes to the decimal branch and reads as its value. */
  lemma DigitsDecimal(v: string)
    requires 1 <= |v| <= 10 && AllDigits(v)
    ensures ParseTime(v) == ParseDecimal(v) && ParseFloat(v) == Finite(DigitsValue(v), 1)
  {
    assert IsDigit(v[0]) && IsDigit(v[|v| - 1]);
    AllDigitsNoColon(v);
    DigitsLength(v);
    CleanDecimalText(v);
    ReadDigits(v);
  }

  /** Two runs of digits around one colon go to the clock branch with their values. */
  lemma DigitsClock(hs: string, ms: string)
    requires 1 <= |hs| && 1 <= |ms| && |hs| + |ms| < 10 && AllDigits(hs) && AllDigits(ms)
    ensures ParseTime(hs + ":" + ms) == ClockValue(Finite(DigitsValue(hs), 1), Finite(DigitsValue(ms), 1))
  {
    ClockShape(hs, ms);
    CleanClockText(hs + ":" + ms);
    ReadDigits(hs);
    ReadDigits(ms);
  }

  /** A whole number of hours above 24 is rejected. */
  lemma DigitsAboveDay(v: string)
    requires 1 <= |v| <= 10 && AllDigits(v) && DigitsValue(v) > 24
    ensures ParseTimeInput(v) == 0
  {
    DigitsDecimal(v);
    DecimalOverDay(v, DigitsValue(v));
  }

  lemma DecimalOverDay(v: string, n: nat)
    requires ParseFloat(v) == Finite(n, 1) && n > 24
    ensures ParseDecimal(v) == OverMaximum
  {
  }

  /** Whole hours and minutes past 24:00 are rejected. */
  lemma ClockPastDay(hs: string, ms: string)
    requires 1 <= |hs| && 1 <= |ms| && |hs| + |ms| < 10 && AllDigits(hs) && AllDigits(ms)
    requires DigitsValue(ms) < 60 && (DigitsValue(hs) > 24 || (DigitsValue(hs) == 24 && DigitsValue(ms) >= 1))
    ensures ParseTimeInput(hs + ":" + ms) == 0
  {
    DigitsClock(hs, ms);
    WholeClockAboveDay(DigitsValue(hs), DigitsValue(ms));
  }

  lemma DecimalAboveDayRejected()
    ensures ParseTimeInput("25") == 0
  {
    assert "25"[..1] == "2";
    DigitsAboveDay("25");
  }

  lemma ClockAboveDayRejected()
    ensures ParseTimeInput("24:1") == 0
  {
    assert "24:1" == "24" + ":" + "1";
    assert "24"[..1] == "2";
    ClockPastDay("24", "1");
  }

  /** A minus sign before digits is read as a negative number. */
  lemma ReadNegative(v: string)
    requires |v| >= 2 && v[0] == '-' && AllDigits(v[1..])
    ensures ParseFloat(v) == Finite(-(DigitsValue(v[1..]) as int), 1)
  {
    NoLeadingSpace(v);
    ReadDigits(v[1..]);
  }

  /** A minus sign before a positive run of digits is rejected as negative. */
  lemma NegativeDecimal(v: string)
    requires 2 <= |v| <= 10 && v[0] == '-' && AllDigits(v[1..]) && DigitsValue(v[1..]) > 0
    ensures ParseTimeInput(v) == 0
  {
    forall i | 0 < i < |v|
      ensures IsDigit(v[i])
    {
      assert v[i] == v[1..][i - 1];
    }
    OneUnitLength(v);
    CleanDecimalText(v);
    ReadNegative(v);
  }

  lemma NegativeRejected()
    ensures ParseTimeInput("-1") == 0
  {
    assert "-1"[1..] == "1";
    NegativeDecimal("-1");
  }

  lemma NotANumberRejected()
    ensures ParseTimeInput("abc") == 0
  {
    OneUnitLength("abc");
    CleanDecimalText("abc");
    NoLeadingSpace("abc");
    assert DigitRun("abc") == 0;
  }

  /** Splitting at the first colon: the text before it, then the pieces of the rest. */
  lemma SplitFirst(a: string, rest: string)
    requires ':' !in a
    ensures Split(a + ":" + rest, ':') == [a] + Split(rest, ':')
  {
    var s := a + ":" + rest;
    assert s[|a|] == ':' && s[..|a|] == a;
    assert IndexOf(s, ':') == |a|;
    assert s[|a| + 1..] == rest;
  }

  /** Three colon-free fields joined by colons are rejected. */
  lemma ThreeFieldsRejected(a: string, b: string, c: string)
    requires a != [] && c != [] && !IsSpace(a[0]) && !IsSpace(c[|c| - 1])
    requires ':' !in a && ':' !in b && ':' !in c && Utf16Length(a) + Utf16Length(b) + Utf16Length(c) <= 8
    ensures ParseTimeInput(a + ":" + (b + ":" + c)) == 0
  {
    var v := a + ":" + (b + ":" + c);
    assert Utf16Length(v) <= 10 by {
      OneColon();
      Utf16Append(a, ":");
      Utf16Append(b, ":");
      Utf16Append(b + ":", c);
      Utf16Append(a + ":", b + ":" + c);
    }
    assert v[0] == a[0] && v[|v| - 1] == c[|c| - 1];
    NoSpaceAtEnds(v);
    SplitFirst(a, b + ":" + c);
    SplitAtColon(b, c);
  }

  lemma TooManyColonsRejected()
    ensures ParseTimeInput("1:2:3") == 0
  {
    assert "1:2:3" == "1" + ":" + ("2" + ":" + "3");
    DigitsLength("1");
    DigitsLength("2");
    DigitsLength("3");
    ThreeFieldsRejected("1", "2", "3");
  }

  /** An hour field that is not a number counts as 0 hours rather than being rejected. */
  lemma NonNumericHoursAreZero(hs: string, ms: string)
    requires ParseFloat(hs).NaN?
    requires |ms| >= 1 && AllDigits(ms) && DigitsValue(ms) < 60
    ensures ParseClock(hs, ms) == Accepted(ClockHundredths(0, DigitsValue(ms)))
  {
    ReadDigits(ms);
    WholeClockValue(0, DigitsValue(ms));
  }

  /** A field starting with anything but white space, a digit, a sign, a dot or `I` is not a number. */
  lemma NonNumericField(s: string)
    requires s != [] && !IsSpace(s[0]) && !IsDigit(s[0]) && s[0] != '-' && s[0] != '+' && s[0] != '.' && s[0] != 'I'
    ensures ParseFloat(s).NaN?
  {
    NoLeadingSpace(s);
    assert DigitRun(s) == 0;
    assert !(|s| >= 8 && s[..8] == "Infinity") by {
      if |s| >= 8 { assert s[..8][0] == s[0]; }
    }
  }

  /** An empty hour field, as in `:30`, reads as 0 hours: `:MM` is MM minutes. */
  lemma EmptyHoursField(ms: string)
    requires 1 <= |ms| <= 9 && AllDigits(ms) && DigitsValue(ms) < 60
    ensures ParseTimeInput(":" + ms) == ClockHundredths(0, DigitsValue(ms))
  {
    EmptyHoursText(ms);
    assert ParseFloat("") == NaN by {
      assert TrimStart("") == "";
      assert ParseUnsigned("") == NaN;
    }
    NonNumericHoursAreZero("", ms);
    AcceptedReads(":" + ms, ClockHundredths(0, DigitsValue(ms)));
  }

  /** `:MM` goes to the clock branch with an empty hour field. */
  lemma EmptyHoursText(ms: string)
    requires 1 <= |ms| <= 9 && AllDigits(ms)
    ensures ParseTime(":" + ms) == ParseClock("", ms)
  {
    var v := ":" + ms;
    assert v[0] == ':' && v[|v| - 1] == ms[|ms| - 1] && IsDigit(v[|v| - 1]);
    NoSpaceAtEnds(v);
    assert Utf16Length(v) == 1 + |ms| by {
      OneColon();
      DigitsLength(ms);
      Utf16Append(":", ms);
    }
    assert Split(v, ':') == ["", ms] by {
      assert IndexOf(v, ':') == 0 && v[..0] == "" && v[1..] == ms;
      AllDigitsNoColon(ms);
    }
    CleanClockText(v);
  }

  // ---------------------------------------------------------------------------
  // What parse_time_input does with every input

  /** The `H:MM` form: non-blank, at most 10 code units once trimmed, exactly one colon. */
  predicate ClockForm(value: string) {
    value != "" && Utf16Length(Trim(value)) <= 10 && |Split(Trim(value), ':')| == 2
  }

  /** The decimal form: non-blank, at most 10 code units once trimmed, no colon. */
  predicate DecimalForm(value: string) {
    value != "" && Utf16Length(Trim(value)) <= 10 && ':' !in Trim(value)
  }

  /** The hours before the colon as read, `parseFloat(parts[0]) || 0`. */
  function HourField(value: string): Num
    requires ClockForm(value)
  {
    OrZero(ParseFloat(Split(Trim(value), ':')[0]))
  }

  /** The minutes after the colon as read, `parseFloat(parts[1]) || 0`. */
  function MinuteField(value: string): Num
    requires ClockForm(value)
  {
    OrZero(ParseFloat(Split(Trim(value), ':')[1]))
  }

  predicate HoursInRange(h: Num) { !Below(h, 0) && !Above(h, 24) }

  predicate MinutesInRange(m: Num) { !Below(m, 0) && !AtLeast(m, 60) }

  /** Every non-blank input is too long, has too many colons, or is in one of the two forms. */
  lemma FormsCover(value: string)
    requires value != ""
    ensures ParseTime(value) == TooLong || ParseTime(value) == TooManyColons || ClockForm(value) || DecimalForm(value)
  {
    var v := Trim(value);
    if ':' in v {
      SplitAtLeastTwo(v);
    }
  }

  lemma SplitAtLeastTwo(s: string)
    requires ':' in s
    ensures |Split(s, ':')| >= 2
  {
    var i := IndexOf(s, ':');
    assert Split(s, ':') == [s[..i]] + Split(s[i + 1..], ':');
  }

  /**
   * The `H:MM` form on every input: hours outside [0, 24] are rejected first,
   * then minutes outside [0, 60), then a total above 24 hours; otherwise the
   * value is H + MM/60 to the nearest hundredth.
   */
  lemma ClockChecks(value: string)
    requires ClockForm(value)
    ensures var h, m, r := HourField(value), MinuteField(value), ParseTime(value);
      && (!HoursInRange(h) ==> r == HoursOutOfRange)
      && (HoursInRange(h) && !MinutesInRange(m) ==> r == MinutesOutOfRange)
      && (HoursInRange(h) && MinutesInRange(m) ==>
            h.Finite? && m.Finite? &&
            if Above(ClockSum(h, m), 24) then r == OverDay
            else r.Accepted? && NearestHundredth(r.hundredths, ClockSum(h, m)))
  {
    var v := Trim(value);
    assert ':' in v;
    assert ParseTime(value) == ParseClock(Split(v, ':')[0], Split(v, ':')[1]);
  }

  /**
   * The decimal form on every input: text that is not a number, a negative
   * number and a number above 24 are rejected in that order; otherwise the
   * value is the number to the nearest hundredth.
   */
  lemma DecimalChecks(value: string)
    requires DecimalForm(value)
    ensures var x, r := ParseFloat(Trim(value)), ParseTime(value);
      && (x.NaN? <==> r == NotANumber)
      && (!x.NaN? && Below(x, 0) ==> r == Negative)
      && (!x.NaN? && !Below(x, 0) && Above(x, 24) ==> r == OverMaximum)
      && (!x.NaN? && !Below(x, 0) && !Above(x, 24) ==> r.Accepted? && NearestHundredth(r.hundredths, x))
  {
    assert ParseTime(value) == ParseDecimal(Trim(value));
  }

  /** A run of digits stops at the first character that is not a digit. */
  lemma {:induction false} DigitRunOf(ds: string, rest: string)
    requires AllDigits(ds) && (rest == [] || !IsDigit(rest[0]))
    ensures DigitRun(ds + rest) == |ds|
    decreases |ds|
  {
    if ds == [] {
      assert ds + rest == rest;
    } else {
      assert (ds + rest)[0] == ds[0] && (ds + rest)[1..] == ds[1..] + rest;
      DigitRunOf(ds[1..], rest);
    }
  }

  /** `I.F` with digit runs I and F reads as the fraction (I·10^|F| + F) / 10^|F|. */
  lemma ReadFraction(ip: string, fp: string)
    requires 1 <= |ip| && 1 <= |fp| && AllDigits(ip) && AllDigits(fp)
    ensures ParseFloat(ip + "." + fp) == Finite(DigitsValue(ip) * Pow10(|fp|) + DigitsValue(fp), Pow10(|fp|))
  {
    var u := ip + "." + fp;
    assert u[0] == ip[0] && IsDigit(u[0]);
    NoLeadingSpace(u);
    UnsignedFraction(ip, fp);
  }

  lemma UnsignedFraction(ip: string, fp: string)
    requires 1 <= |ip| && 1 <= |fp| && AllDigits(ip) && AllDigits(fp)
    ensures ParseUnsigned(ip + "." + fp) == Finite(DigitsValue(ip) * Pow10(|fp|) + DigitsValue(fp), Pow10(|fp|))
  {
    var u := ip + "." + fp;
    assert u[0] == ip[0] && IsDigit(u[0]);
    NotInfinity(u);
    FractionRuns(ip, fp);
    UnsignedWithDot(u, ip, fp, []);
    assert ExponentOf([]) == 0;
    assert Literal(ip, fp, 0) == Finite(DigitsValue(ip) * Pow10(|fp|) + DigitsValue(fp), Pow10(|fp|));
  }

  lemma NotInfinity(u: string)
    requires u != [] && u[0] != 'I'
    ensures !(|u| >= 8 && u[..8] == "Infinity")
  {
    if |u| >= 8 { assert u[..8][0] == u[0]; }
  }

  /** Where the digit runs of `I.F` start and stop. */
  lemma FractionRuns(ip: string, fp: string)
    requires AllDigits(ip) && AllDigits(fp)
    ensures var u, k, f := ip + "." + fp, |ip|, |fp|;
      && DigitRun(u) == k && u[k] == '.' && DigitRun(u[k + 1..]) == f
      && u[..k] == ip && u[k + 1..k + 1 + f] == fp && u[k + 1 + f..] == []
  {
    var u, k := ip + "." + fp, |ip|;
    assert DigitRun(u) == k by {
      assert u == ip + ("." + fp);
      DigitRunOf(ip, "." + fp);
    }
    assert DigitRun(u[k + 1..]) == |fp| by {
      assert u[k + 1..] == fp + [];
      DigitRunOf(fp, []);
    }
    assert u[..k] == ip;
    assert u[k + 1..k + 1 + |fp|] == fp;
    assert u[k + 1 + |fp|..] == [];
  }

  /** `parseFloat` on digits, a dot, digits and the rest: the mantissa scaled down by the fraction's length. */
  lemma UnsignedWithDot(u: string, ip: string, fp: string, rest: string)
    requires !(|u| >= 8 && u[..8] == "Infinity") && |ip| + |fp| > 0
    requires DigitRun(u) == |ip| && |ip| < |u| && u[|ip|] == '.' && DigitRun(u[|ip| + 1..]) == |fp|
    requires u[..|ip|] == ip && u[|ip| + 1..|ip| + 1 + |fp|] == fp && u[|ip| + 1 + |fp|..] == rest
    ensures ParseUnsigned(u) == Literal(ip, fp, ExponentOf(rest))
  {
    assert ParseUnsigned(u) == AfterFraction(u, |ip|, |fp|);
  }

  /** `I.T` with digits I of value h and one digit T reads as (10·h + T)/10. */
  lemma OneDecimalValue(ip: string, t: nat, h: nat)
    requires 1 <= |ip| && AllDigits(ip) && DigitsValue(ip) == h && t < 10
    ensures ParseFloat(ip + "." + [DigitChar(t)]) == Finite(10 * h + t, 10)
  {
    var fp := [DigitChar(t)];
    assert DigitsValue(fp) == t by {
      assert fp[..0] == [];
    }
    assert |fp| == 1 && Pow10(1) == 10;
    ReadFraction(ip, fp);
  }

  /** Two runs of digits around a dot: nothing to trim, no colon, one code unit per character. */
  lemma DecimalShape(ip: string, fp: string)
    requires 1 <= |ip| && 1 <= |fp| && AllDigits(ip) && AllDigits(fp)
    ensures var s := ip + "." + fp;
      Trim(s) == s && ':' !in s && Utf16Length(s) == |s|
  {
    var s := ip + "." + fp;
    assert s[0] == ip[0] && IsDigit(s[0]);
    assert s[|s| - 1] == fp[|fp| - 1] && IsDigit(s[|s| - 1]);
    NoSpaceAtEnds(s);
    AllDigitsNoColon(ip);
    AllDigitsNoColon(fp);
    assert s == ip + ("." + fp);
    DigitsLength(ip);
    DigitsLength(fp);
    assert Utf16Length(".") == 1 by {
      assert "."[..0] == [];
    }
    Utf16Append(ip, ".");
    Utf16Append(ip + ".", fp);
  }

  /** Decimal hours with one decimal, such as `4.5`, read as the exact hundredths. */
  lemma OneDecimalExact(h: nat, t: nat)
    requires t < 10 && 10 * h + t <= 240
    ensures ParseTimeInput(NatToString(h) + "." + [DigitChar(t)]) == 100 * h + 10 * t
  {
    var ip, fp := NatToString(h), [DigitChar(t)];
    var v := ip + "." + fp;
    assert DecimalForm(v) && Trim(v) == v by {
      DecimalShape(ip, fp);
      assert |ip| <= 2;
    }
    OneDecimalValue(ip, t, h);
    DecimalReads(v, Finite(10 * h + t, 10), 100 * h + 10 * t);
  }

  /** A decimal-form text whose number lies in [0, 24] reads as that number's nearest hundredth. */
  lemma DecimalReads(v: string, x: Num, c: nat)
    requires DecimalForm(v) && ParseFloat(Trim(v)) == x && !Below(x, 0) && !Above(x, 24)
    requires NearestHundredth(c, x)
    ensures ParseTimeInput(v) == c
  {
    DecimalChecks(v);
    NearestHundredthUnique(ParseTime(v).hundredths, c, x);
    AcceptedReads(v, c);
  }

  /** Six characters beyond U+FFFF are twelve code units: the input is too long and reads as 0. */
  lemma AstralTextTooLong()
    ensures var v := "\U{1F600}\U{1F600}\U{1F600}\U{1F600}\U{1F600}\U{1F600}";
      |v| == 6 && ParseTime(v) == TooLong && ParseTimeInput(v) == 0
  {
    var v := "\U{1F600}\U{1F600}\U{1F600}\U{1F600}\U{1F600}\U{1F600}";
    NoSpaceAtEnds(v);
    assert Utf16Length(v) == 12 by {
      assert !OneUnit('\U{1F600}');
      assert v[..1][..0] == [] && Utf16Length(v[..1]) == 2;
      assert v[..2][..1] == v[..1] && Utf16Length(v[..2]) == 4;
      assert v[..3][..2] == v[..2] && Utf16Length(v[..3]) == 6;
      assert v[..4][..3] == v[..3] && Utf16Length(v[..4]) == 8;
      assert v[..5][..4] == v[..4] && Utf16Length(v[..5]) == 10;
      assert v[..6] == v && v[..6][..5] == v[..5];
    }
  }

  /** `1.005` is exactly 100.5 hundredths, so it rounds up to 101 on the exact value. */
  lemma ThreeDecimalHalfRoundsUp()
    ensures ParseTimeInput("1.005") == 101
  {
    var v := "1.005";
    ThreeDecimalText(v);
    ThreeDecimalValue(v);
    DecimalReads(v, Finite(1005, 1000), 101);
  }

  lemma ThreeDecimalText(v: string)
    requires v == "1" + "." + "005"
    ensures DecimalForm(v) && Trim(v) == v
  {
    assert AllDigits("1") && AllDigits("005");
    DecimalShape("1", "005");
  }

  lemma ThreeDecimalValue(v: string)
    requires v == "1" + "." + "005"
    ensures ParseFloat(v) == Finite(1005, 1000)
  {
    var ip, fp := "1", "005";
    assert AllDigits(ip) && AllDigits(fp);
    assert DigitsValue(ip) == 1 by { assert ip[..0] == []; }
    assert DigitsValue(fp) == 5 by {
      assert fp[..1][..0] == [] && fp[..2][..1] == fp[..1] && fp[..3][..2] == fp[..2] && fp[..3] == fp;
    }
    assert Pow10(3) == 1000;
    ReadFraction(ip, fp);
  }

  lemma HalfPastFourExact()
    ensures ParseTimeInput("4.5") == 450
  {
    assert NatToString(4) + "." + [DigitChar(5)] == "4.5";
    OneDecimalExact(4, 5);
  }
}
