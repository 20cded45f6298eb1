/**
 * formatDateTime of core/util/utilities.kt: parse a timestamp with the
 * java.time pattern "yyyy-MM-dd'T'HH:mm:ss.SSS'Z'" into a LocalDateTime
 * (strict parsing, SMART resolution, both the defaults of ofPattern) and
 * print it again with the pattern "dd/MM/yyyy HH:mm".
 *
 * 'Z' is a quoted literal: the text is never read as UTC and no zone
 * conversion happens. Any text the parser or the resolver refuses makes
 * LocalDateTime.parse throw; there is no fallback value.
 */
module DateFormat {
  import opened Wrappers

  /** What LocalDateTime.parse throws, whichever step refused the text. */
  datatype DateTimeParseException = DateTimeParseException

  // ---------------------------------------------------------------------
  // Decimal digits (DecimalStyle.STANDARD: only '0'..'9' are digits)
  // ---------------------------------------------------------------------

  predicate IsDigit(c: char) { '0' <= c <= '9' }

  predicate AllDigits(s: seq<char>) { forall i :: 0 <= i < |s| ==> IsDigit(s[i]) }

  function DigitValue(c: char): (n: nat)
    requires IsDigit(c)
    ensures n < 10
  {
    (c as int) - ('0' as int)
  }

  function DigitChar(n: nat): (c: char)
    requires n < 10
    ensures IsDigit(c) && DigitValue(c) == n
  {
    (('0' as int) + n) as char
  }

  function Pow10(k: nat): (p: nat)
    ensures p >= 1
  {
    if k == 0 then 1 else 10 * Pow10(k - 1)
  }

  /** The number a run of digits denotes, most significant digit first. */
  function DigitsValue(ds: seq<char>): (n: nat)
    requires AllDigits(ds)
    ensures n < Pow10(|ds|)
  {
    if ds == [] then 0 else 10 * DigitsValue(ds[..|ds| - 1]) + DigitValue(ds[|ds| - 1])
  }

  /** A number's digits without leading zeros, as Long.toString writes them. */
  function Decimal(n: nat): (s: seq<char>)
    ensures |s| >= 1 && AllDigits(s) && DigitsValue(s) == n
  {
    if n < 10 then [DigitChar(n)]
    else
      var s := Decimal(n / 10) + [DigitChar(n % 10)];
      assert s[..|s| - 1] == Decimal(n / 10);
      s
  }

  /** A field printed with two pattern letters ("dd", "MM", "HH", "mm"). */
  function Pad2(n: nat): (s: seq<char>)
    requires n < 100
    ensures |s| == 2 && AllDigits(s) && DigitsValue(s) == n
  {
    var s := [DigitChar(n / 10), DigitChar(n % 10)];
    assert s[..1] == [s[0]];
    s
  }

  /** A value below 10000 printed with minimum width four, zero padded. */
  function Pad4(n: nat): (s: seq<char>)
    requires n < 10000
    ensures |s| == 4 && AllDigits(s)
  {
    Pad2(n / 100) + Pad2(n % 100)
  }

  /**
   * The year printed with "yyyy" (year-of-era, minimum width 4, sign style
   * EXCEEDS_PAD): four digits, zero padded, below 10000; beyond that a '+'
   * and all of its digits.
   */
  function YearText(y: nat): string
  {
    if y < 10000 then Pad4(y) else "+" + Decimal(y)
  }

  // ---------------------------------------------------------------------
  // Parsing "yyyy-MM-dd'T'HH:mm:ss.SSS'Z'"
  // ---------------------------------------------------------------------

  /** How many digits start s, reading at most max characters. */
  function LeadingDigits(s: seq<char>, max: nat): (n: nat)
    ensures n <= |s| && n <= max && AllDigits(s[..n])
    ensures n < |s| && n < max ==> !IsDigit(s[n])
  {
    if s == [] || max == 0 || !IsDigit(s[0]) then 0
    else
      var n := 1 + LeadingDigits(s[1..], max - 1);
      assert forall i :: 1 <= i < n ==> s[..n][i] == s[1..][..n - 1][i - 1];
      n
  }

  /**
   * "yyyy" in strict parsing: the digits are read greedily, at most 19;
   * without a sign exactly four are allowed, and a '+' is allowed only in
   * front of more than four. The result is the year-of-era and the index
   * after the last digit.
   */
  function ParseYear(s: string): (r: Option<(nat, nat)>)
    ensures r.Some? ==> r.value.1 <= |s|
  {
    if |s| > 0 && s[0] == '+' then
      var n := LeadingDigits(s[1..], 19);
      assert s[1..1 + n] == s[1..][..n];
      if n <= 4 then None else Some((DigitsValue(s[1..1 + n]), 1 + n))
    else
      var n := LeadingDigits(s, 19);
      if n != 4 then None else Some((DigitsValue(s[..4]), 4))
  }

  /** The twenty characters after the year: "-MM-dd'T'HH:mm:ss.SSS'Z'". */
  predicate TailMatches(r: seq<char>)
  {
    && |r| == 20
    && r[0] == '-' && AllDigits(r[1..3]) && r[3] == '-' && AllDigits(r[4..6])
    && r[6] == 'T' && AllDigits(r[7..9]) && r[9] == ':' && AllDigits(r[10..12])
    && r[12] == ':' && AllDigits(r[13..15]) && r[15] == '.' && AllDigits(r[16..19])
    && r[19] == 'Z'
  }

  /** The field values the pattern reads, before the resolver checks them. */
  datatype Parsed = Parsed(yearOfEra: nat, month: nat, day: nat, hour: nat,
                           minute: nat, second: nat, milli: nat)

  /**
   * The text layer of LocalDateTime.parse, the whole text consumed. A year
   * signed with '-' is read by java.time and then refused by the resolver
   * (year-of-era must be at least 1); here it is refused already, which
   * gives the same overall result.
   */
  function ParseText(s: string): Option<Parsed>
  {
    match ParseYear(s)
    case None => None
    case Some((year, k)) =>
      var r := s[k..];
      if !TailMatches(r) then None
      else Some(Parsed(year, DigitsValue(r[1..3]), DigitsValue(r[4..6]), DigitsValue(r[7..9]),
                       DigitsValue(r[10..12]), DigitsValue(r[13..15]), DigitsValue(r[16..19])))
  }

  // ---------------------------------------------------------------------
  // SMART resolution on the ISO calendar
  // ---------------------------------------------------------------------

  const MaxYear: int := 999_999_999

  predicate IsLeap(y: int) { y % 4 == 0 && (y % 100 != 0 || y % 400 == 0) }

  function DaysInMonth(m: int, y: int): (n: int)
    requires 1 <= m <= 12
    ensures 28 <= n <= 31
  {
    if m == 2 then (if IsLeap(y) then 29 else 28)
    else if m == 4 || m == 6 || m == 9 || m == 11 then 30
    else 31
  }

  datatype LocalDateTime = LocalDateTime(year: int, month: int, day: int, hour: int,
                                         minute: int, second: int, nano: int)

  predicate ValidDateTime(t: LocalDateTime)
  {
    && 1 <= t.year <= MaxYear && 1 <= t.month <= 12 && 1 <= t.day <= DaysInMonth(t.month, t.year)
    && 0 <= t.hour <= 23 && 0 <= t.minute <= 59 && 0 <= t.second <= 59 && 0 <= t.nano < 1_000_000_000
  }

  /** The calendar day after y-m-d. */
  function NextDay(y: int, m: int, d: int): (r: (int, int, int))
    requires 1 <= m <= 12 && 1 <= d <= DaysInMonth(m, y)
    ensures 1 <= r.1 <= 12 && 1 <= r.2 <= DaysInMonth(r.1, r.0)
  {
    if d < DaysInMonth(m, y) then (y, m, d + 1)
    else if m < 12 then (y, m + 1, 1)
    else (y + 1, 1, 1)
  }

  /**
   * The SMART resolver: year-of-era 1..999999999 becomes the year, month
   * 1..12, day 1..31 clamped to the month's length, minute 0..59; the time
   * 24:00:00.000 is midnight at the end of the day, otherwise hour 0..23
   * and second 0..59.
   */
  function Resolve(p: Parsed): (r: Option<LocalDateTime>)
    ensures r.Some? ==> ValidDateTime(r.value)
  {
    if !(1 <= p.yearOfEra <= MaxYear && 1 <= p.month <= 12 && 1 <= p.day <= 31
         && p.minute <= 59 && p.milli < 1000) then None
    else
      var dim := DaysInMonth(p.month, p.yearOfEra);
      var day := if p.day <= dim then p.day else dim;
      if p.hour == 24 && p.minute == 0 && p.second == 0 && p.milli == 0 then
        var next := NextDay(p.yearOfEra, p.month, day);
        if next.0 > MaxYear then None else Some(LocalDateTime(next.0, next.1, next.2, 0, 0, 0, 0))
      else if p.hour <= 23 && p.second <= 59 then
        Some(LocalDateTime(p.yearOfEra, p.month, day, p.hour, p.minute, p.second, p.milli * 1_000_000))
      else None
  }

  // ---------------------------------------------------------------------
  // Printing "dd/MM/yyyy HH:mm" and the whole function
  // ---------------------------------------------------------------------

  /** A year field as "yyyy" prints it: four digits, or '+' and five or more. */
  predicate YearShaped(y: seq<char>)
  {
    (|y| == 4 && AllDigits(y)) || (|y| >= 6 && y[0] == '+' && AllDigits(y[1..]))
  }

  /** Text of the shape "dd/MM/yyyy HH:mm". */
  predicate OutputShaped(o: string)
  {
    && |o| >= 16
    && AllDigits(o[..2]) && o[2] == '/' && AllDigits(o[3..5]) && o[5] == '/'
    && YearShaped(o[6..|o| - 6])
    && o[|o| - 6] == ' ' && AllDigits(o[|o| - 5..|o| - 3]) && o[|o| - 3] == ':' && AllDigits(o[|o| - 2..])
  }

  /** Seconds and nanoseconds are not part of the pattern. */
  function Format(t: LocalDateTime): string
    requires ValidDateTime(t)
  {
    Pad2(t.day) + "/" + Pad2(t.month) + "/" + YearText(t.year) + " " + Pad2(t.hour) + ":" + Pad2(t.minute)
  }

  /** formatDateTime: Ok(text) where Kotlin returns, Err where it throws. */
  function FormatDateTime(dateStr: string): (r: Result<string, DateTimeParseException>)
    ensures r.Ok? ==> OutputShaped(r.value)
    ensures r.Ok? ==> (|r.value| == 16 <==> r.value[6] != '+')
  {
    match ParseText(dateStr)
    case None => Err(DateTimeParseException)
    case Some(p) =>
      match Resolve(p)
      case None => Err(DateTimeParseException)
      case Some(t) => FormatIsShaped(t); Ok(Format(t))
  }

  // ---------------------------------------------------------------------
  // Which texts are accepted, and what comes out
  // ---------------------------------------------------------------------

  /** The usual layout: 24 characters, four unsigned year digits. */
  predicate LayoutMatches(s: string)
  {
    && |s| == 24
    && AllDigits(s[0..4]) && s[4] == '-' && AllDigits(s[5..7]) && s[7] == '-' && AllDigits(s[8..10])
    && s[10] == 'T' && AllDigits(s[11..13]) && s[13] == ':' && AllDigits(s[14..16]) && s[16] == ':'
    && AllDigits(s[17..19]) && s[19] == '.' && AllDigits(s[20..23]) && s[23] == 'Z'
  }

  /** The other layout "yyyy" accepts: '+' and five to nineteen year digits. */
  predicate SignedLayoutMatches(s: string)
  {
    26 <= |s| <= 40 && s[0] == '+' && AllDigits(s[1..|s| - 20]) && TailMatches(s[|s| - 20..])
  }

  lemma FormatIsShaped(t: LocalDateTime)
    requires ValidDateTime(t)
    ensures OutputShaped(Format(t))
    ensures |Format(t)| == 16 <==> Format(t)[6] != '+'
  {
    YearTextShaped(t.year);
    ShapedParts(Pad2(t.day), Pad2(t.month), YearText(t.year), Pad2(t.hour), Pad2(t.minute));
  }

  /** Two-digit fields around a year field, joined by the pattern's literals, have the output shape. */
  lemma ShapedParts(d: string, m: string, y: string, h: string, mi: string)
    requires |d| == 2 && |m| == 2 && |h| == 2 && |mi| == 2
    requires AllDigits(d) && AllDigits(m) && AllDigits(h) && AllDigits(mi) && YearShaped(y)
    requires |y| == 4 <==> y[0] != '+'
    ensures var o := d + "/" + m + "/" + y + " " + h + ":" + mi;
            OutputShaped(o) && (|o| == 16 <==> o[6] != '+')
  {
    var o := d + "/" + m + "/" + y + " " + h + ":" + mi;
    var front, back := d + "/" + m + "/", " " + h + ":" + mi;
    assert o == front + y + back;
    assert o[..2] == d && o[2] == '/' && o[3..5] == m && o[5] == '/';
    assert o[6..|o| - 6] == y && o[6] == y[0];
    assert o[|o| - 6..] == back;
    assert o[|o| - 5..|o| - 3] == back[1..3] == h;
    assert o[|o| - 2..] == back[4..] == mi;
  }

  lemma YearTextShaped(year: nat)
    ensures YearShaped(YearText(year))
    ensures |YearText(year)| == 4 <==> YearText(year)[0] != '+'
  {
    if year >= 10000 {
      DecimalLength(year, 4);
      assert YearText(year)[1..] == Decimal(year);
    }
  }

  lemma {:induction false} DecimalLength(n: nat, k: nat)
    requires n >= Pow10(k)
    ensures |Decimal(n)| >= k + 1
  {
    if k > 0 {
      DecimalLength(n / 10, k - 1);
    }
  }

  lemma LeadingDigitsExact(s: seq<char>, max: nat, k: nat)
    requires k <= max && k < |s| && AllDigits(s[..k]) && !IsDigit(s[k])
    ensures LeadingDigits(s, max) == k
  {
    var n := LeadingDigits(s, max);
  }

  /** Where the year's digits stand in a text of either layout. */
  function YearDigits(s: string): seq<char>
    requires |s| > 20
  {
    if s[0] == '+' then s[1..|s| - 20] else s[..|s| - 20]
  }

  lemma ParseYearOfLayout(s: string)
    requires LayoutMatches(s) || SignedLayoutMatches(s)
    ensures AllDigits(YearDigits(s))
    ensures ParseYear(s) == Some((DigitsValue(YearDigits(s)), |s| - 20))
  {
    if LayoutMatches(s) {
      assert s[..4] == s[0..4];
      LeadingDigitsExact(s, 19, 4);
    } else {
      assert s[1..][|s| - 21] == s[|s| - 20];
      assert s[1..][..|s| - 21] == s[1..|s| - 20];
      LeadingDigitsExact(s[1..], 19, |s| - 21);
    }
  }

  /** The text layer accepts exactly the two layouts (a '-'-signed year counts as rejected, see ParseText). */
  lemma ParsesExactlyLayouts(s: string)
    ensures ParseText(s).Some? <==> LayoutMatches(s) || SignedLayoutMatches(s)
  {
    if LayoutMatches(s) || SignedLayoutMatches(s) {
      ParseYearOfLayout(s);
      if LayoutMatches(s) {
        TailOfLayout(s);
      }
    }
    if ParseText(s).Some? {
      ParsedHasLayout(s);
    }
  }

  /** Any other text is rejected by the exception; there is no fallback value. */
  lemma RejectsOtherShapes(s: string)
    requires !LayoutMatches(s) && !SignedLayoutMatches(s)
    ensures FormatDateTime(s) == Err(DateTimeParseException)
  {
    ParsesExactlyLayouts(s);
  }

  lemma ParsedHasLayout(s: string)
    requires ParseText(s).Some?
    ensures LayoutMatches(s) || SignedLayoutMatches(s)
  {
    var k := ParseYear(s).value.1;
    assert TailMatches(s[k..]);
    if |s| > 0 && s[0] == '+' {
      var n := LeadingDigits(s[1..], 19);
      assert k == 1 + n && |s| == k + 20;
      assert s[1..|s| - 20] == s[1..][..n];
      assert SignedLayoutMatches(s);
    } else {
      assert k == 4 && |s| == 24;
      TailOfLayout(s);
    }
  }

  lemma TailOfLayout(s: string)
    requires |s| == 24
    ensures LayoutMatches(s) <==> AllDigits(s[..4]) && TailMatches(s[4..])
  {
    var r := s[4..];
    assert s[..4] == s[0..4];
    assert r[1..3] == s[5..7] && r[4..6] == s[8..10] && r[7..9] == s[11..13];
    assert r[10..12] == s[14..16] && r[13..15] == s[17..19] && r[16..19] == s[20..23];
  }

  /** What the parser reads from a text of the usual layout. */
  lemma ParseLayout(s: string)
    requires LayoutMatches(s)
    ensures ParseText(s) == Some(Parsed(DigitsValue(s[0..4]), DigitsValue(s[5..7]), DigitsValue(s[8..10]),
                                        DigitsValue(s[11..13]), DigitsValue(s[14..16]),
                                        DigitsValue(s[17..19]), DigitsValue(s[20..23])))
  {
    ParseYearOfLayout(s);
    TailOfLayout(s);
    assert YearDigits(s) == s[0..4];
    var r := s[4..];
    assert r[1..3] == s[5..7] && r[4..6] == s[8..10] && r[7..9] == s[11..13];
    assert r[10..12] == s[14..16] && r[13..15] == s[17..19] && r[16..19] == s[20..23];
  }

  lemma TwoDigitsValue(d: seq<char>)
    requires |d| == 2 && AllDigits(d)
    ensures DigitsValue(d) == 10 * DigitValue(d[0]) + DigitValue(d[1])
  {
    var first := d[..1];
    assert first[..0] == [] && first[0] == d[0];
    assert DigitsValue(first) == DigitValue(d[0]);
  }

  lemma Pad2OfDigits(d: seq<char>)
    requires |d| == 2 && AllDigits(d)
    ensures DigitsValue(d) < 100 && Pad2(DigitsValue(d)) == d
  {
    TwoDigitsValue(d);
    var v := DigitsValue(d);
    assert v / 10 == DigitValue(d[0]) && v % 10 == DigitValue(d[1]);
  }

  lemma Pad4OfDigits(d: seq<char>)
    requires |d| == 4 && AllDigits(d)
    ensures DigitsValue(d) < 10000 && YearText(DigitsValue(d)) == d
  {
    var hi, lo := d[..2], d[2..];
    Pad2OfDigits(hi);
    Pad2OfDigits(lo);
    TwoDigitsValue(lo);
    var three := d[..3];
    assert three[..2] == hi && three[2] == d[2] && d[3] == lo[1] && d[2] == lo[0];
    assert DigitsValue(three) == 10 * DigitsValue(hi) + DigitValue(d[2]);
    var v := DigitsValue(d);
    assert v == 10 * DigitsValue(three) + DigitValue(d[3]);
    assert v == 100 * DigitsValue(hi) + DigitsValue(lo);
    assert v / 100 == DigitsValue(hi) && v % 100 == DigitsValue(lo);
    assert d == hi + lo;
  }

  /** The calendar fields of a text of the usual layout. */
  function YearOf(s: string): nat requires LayoutMatches(s) { DigitsValue(s[0..4]) }
  function MonthOf(s: string): nat requires LayoutMatches(s) { DigitsValue(s[5..7]) }
  function DayOf(s: string): nat requires LayoutMatches(s) { DigitsValue(s[8..10]) }
  function HourOf(s: string): nat requires LayoutMatches(s) { DigitsValue(s[11..13]) }
  function MinuteOf(s: string): nat requires LayoutMatches(s) { DigitsValue(s[14..16]) }
  function SecondOf(s: string): nat requires LayoutMatches(s) { DigitsValue(s[17..19]) }
  function MilliOf(s: string): nat requires LayoutMatches(s) { DigitsValue(s[20..23]) }

  /**
   * A text of the usual layout is accepted exactly when its fields are in
   * the resolver's ranges; the day only has to be at most 31, and 24:00
   * is allowed with zero minutes, seconds and milliseconds.
   */
  lemma AcceptsExactly(s: string)
    requires LayoutMatches(s)
    ensures FormatDateTime(s).Ok? <==>
      && YearOf(s) >= 1 && 1 <= MonthOf(s) <= 12 && 1 <= DayOf(s) <= 31 && MinuteOf(s) <= 59
      && ((HourOf(s) <= 23 && SecondOf(s) <= 59)
          || (HourOf(s) == 24 && MinuteOf(s) == 0 && SecondOf(s) == 0 && MilliOf(s) == 0))
  {
    ParseLayout(s);
    assert Pow10(3) == 1000 && Pow10(4) == 10000;
  }

  /**
   * On a real calendar date before 24:00, the output is the input's own
   * digits moved: day, month, four-digit year, hour and minute. Seconds
   * and milliseconds are dropped and the hour is not shifted by any zone.
   */
  lemma ReordersFields(s: string)
    requires LayoutMatches(s)
    requires YearOf(s) >= 1 && 1 <= MonthOf(s) <= 12 && 1 <= DayOf(s) <= DaysInMonth(MonthOf(s), YearOf(s))
    requires HourOf(s) <= 23 && MinuteOf(s) <= 59 && SecondOf(s) <= 59
    ensures FormatDateTime(s) == Ok(s[8..10] + "/" + s[5..7] + "/" + s[0..4] + " " + s[11..13] + ":" + s[14..16])
  {
    ParseLayout(s);
    assert Pow10(3) == 1000;
    var t := LocalDateTime(YearOf(s), MonthOf(s), DayOf(s), HourOf(s), MinuteOf(s), SecondOf(s), MilliOf(s) * 1_000_000);
    assert Resolve(ParseText(s).value) == Some(t);
    ResolvedOutput(s, t);
    Pad2OfDigits(s[8..10]);
    Pad2OfDigits(s[5..7]);
    Pad4OfDigits(s[0..4]);
    Pad2OfDigits(s[11..13]);
    Pad2OfDigits(s[14..16]);
  }

  /** A day past the end of its month (up to 31) becomes the month's last day. */
  lemma ClampsDay(s: string)
    requires LayoutMatches(s)
    requires YearOf(s) >= 1 && 1 <= MonthOf(s) <= 12 && DaysInMonth(MonthOf(s), YearOf(s)) < DayOf(s) <= 31
    requires HourOf(s) <= 23 && MinuteOf(s) <= 59 && SecondOf(s) <= 59
    ensures FormatDateTime(s) == Ok(Pad2(DaysInMonth(MonthOf(s), YearOf(s))) + "/" + s[5..7] + "/" + s[0..4]
                                    + " " + s[11..13] + ":" + s[14..16])
  {
    ParseLayout(s);
    assert Pow10(3) == 1000;
    var dim := DaysInMonth(MonthOf(s), YearOf(s));
    var t := LocalDateTime(YearOf(s), MonthOf(s), dim, HourOf(s), MinuteOf(s), SecondOf(s), MilliOf(s) * 1_000_000);
    assert Resolve(ParseText(s).value) == Some(t);
    ResolvedOutput(s, t);
    Pad2OfDigits(s[5..7]);
    Pad4OfDigits(s[0..4]);
    Pad2OfDigits(s[11..13]);
    Pad2OfDigits(s[14..16]);
  }

  /** "24:00:00.000" is midnight at the start of the next calendar day. */
  lemma EndOfDayRollsOver(s: string)
    requires LayoutMatches(s)
    requires YearOf(s) >= 1 && 1 <= MonthOf(s) <= 12 && 1 <= DayOf(s) <= 31
    requires HourOf(s) == 24 && MinuteOf(s) == 0 && SecondOf(s) == 0 && MilliOf(s) == 0
    ensures var dim := DaysInMonth(MonthOf(s), YearOf(s));
            var next := NextDay(YearOf(s), MonthOf(s), if DayOf(s) <= dim then DayOf(s) else dim);
            FormatDateTime(s) == Ok(Pad2(next.2) + "/" + Pad2(next.1) + "/" + YearText(next.0) + " 00:00")
  {
    ParseLayout(s);
    assert Pow10(4) == 10000;
    var p := ParseText(s).value;
    var dim := DaysInMonth(MonthOf(s), YearOf(s));
    var next := NextDay(YearOf(s), MonthOf(s), if DayOf(s) <= dim then DayOf(s) else dim);
    var t := LocalDateTime(next.0, next.1, next.2, 0, 0, 0, 0);
    assert Resolve(p) == Some(t);
    ResolvedOutput(s, t);
    MidnightFormat(t);
  }

  /** A text whose parse resolves to t prints t. */
  lemma ResolvedOutput(s: string, t: LocalDateTime)
    requires ParseText(s).Some? && Resolve(ParseText(s).value) == Some(t)
    ensures FormatDateTime(s) == Ok(Format(t))
  {
  }

  /** Midnight prints as "00:00" after the date. */
  lemma MidnightFormat(t: LocalDateTime)
    requires ValidDateTime(t) && t.hour == 0 && t.minute == 0
    ensures Format(t) == Pad2(t.day) + "/" + Pad2(t.month) + "/" + YearText(t.year) + " 00:00"
  {
    assert Pad2(0) == "00";
    var front := Pad2(t.day) + "/" + Pad2(t.month) + "/" + YearText(t.year);
    assert Format(t) == front + " " + "00" + ":" + "00";
    assert front + " " + "00" + ":" + "00" == front + " 00:00";
  }

  /**
   * A '+'-signed year is read as the value of its digits and printed with
   * '+' and all its digits from 10000 on, but as four plain digits below
   * that (a text such as "+01234-..." prints year 1234).
   */
  lemma SignedYearPrinted(s: string)
    requires SignedLayoutMatches(s)
    requires FormatDateTime(s).Ok?
    requires ParseText(s).Some? && ParseText(s).value.hour <= 23
    ensures AllDigits(YearDigits(s)) && ParseText(s).value.yearOfEra == DigitsValue(YearDigits(s))
    ensures var y, o := ParseText(s).value.yearOfEra, FormatDateTime(s).value;
            && |o| >= 12
            && (y >= 10000 ==> o[6..|o| - 6] == "+" + Decimal(y))
            && (y < 10000 ==> o[6..|o| - 6] == Pad4(y))
  {
    ParsedYear(s);
    PrintedYearOfText(s);
  }

  /** Before 24:00 the output's year field is the parsed year as "yyyy" prints it. */
  lemma PrintedYearOfText(s: string)
    requires FormatDateTime(s).Ok?
    requires ParseText(s).Some? && ParseText(s).value.hour <= 23
    ensures var y, o := ParseText(s).value.yearOfEra, FormatDateTime(s).value;
            && |o| >= 12
            && (y >= 10000 ==> o[6..|o| - 6] == "+" + Decimal(y))
            && (y < 10000 ==> o[6..|o| - 6] == Pad4(y))
  {
    OutputOfParsed(s);
    PrintedYearCases(ParseText(s).value);
  }


  /** The year the parser reads is the value of the year's digits. */
  lemma ParsedYear(s: string)
    requires LayoutMatches(s) || SignedLayoutMatches(s)
    requires ParseText(s).Some?
    ensures AllDigits(YearDigits(s)) && ParseText(s).value.yearOfEra == DigitsValue(YearDigits(s))
  {
    ParseYearOfLayout(s);
  }

  /** An accepted text prints the resolution of what was parsed from it. */
  lemma OutputOfParsed(s: string)
    requires FormatDateTime(s).Ok?
    ensures ParseText(s).Some? && Resolve(ParseText(s).value).Some?
    ensures FormatDateTime(s).value == Format(Resolve(ParseText(s).value).value)
  {
  }

  /** "yyyy" prints '+' and all digits from 10000 on, and four zero-padded digits below. */
  lemma YearTextCases(y: nat)
    ensures y >= 10000 ==> YearText(y) == "+" + Decimal(y)
    ensures y < 10000 ==> YearText(y) == Pad4(y)
  {
  }

  /** Before 24:00 the year field of the output is the parsed year as "yyyy" prints it. */
  lemma PrintedYearOf(p: Parsed)
    requires Resolve(p).Some? && p.hour <= 23
    ensures var o := Format(Resolve(p).value);
            |o| >= 12 && o[6..|o| - 6] == YearText(p.yearOfEra)
  {
    ResolveKeepsYear(p);
    var t := Resolve(p).value;
    YearField(Pad2(t.day), Pad2(t.month), YearText(t.year), Pad2(t.hour), Pad2(t.minute));
  }

  /** PrintedYearOf with the two ways "yyyy" prints a year spelt out. */
  lemma PrintedYearCases(p: Parsed)
    requires Resolve(p).Some? && p.hour <= 23
    ensures var y, o := p.yearOfEra, Format(Resolve(p).value);
            && |o| >= 12
            && (y >= 10000 ==> o[6..|o| - 6] == "+" + Decimal(y))
            && (y < 10000 ==> o[6..|o| - 6] == Pad4(y))
  {
    PrintedYearOf(p);
    YearTextCases(p.yearOfEra);
  }

  /** Before 24:00 the resolver keeps the year it was given. */
  lemma ResolveKeepsYear(p: Parsed)
    requires Resolve(p).Some? && p.hour <= 23
    ensures Resolve(p).value.year == p.yearOfEra
  {
  }

  /** The year field sits between the six characters before it and the six after it. */
  lemma YearField(d: string, m: string, y: string, h: string, mi: string)
    requires |d| == 2 && |m| == 2 && |h| == 2 && |mi| == 2
    ensures var o := d + "/" + m + "/" + y + " " + h + ":" + mi;
            |o| == |y| + 12 && o[6..|o| - 6] == y
  {
    var o := d + "/" + m + "/" + y + " " + h + ":" + mi;
    assert o == (d + "/" + m + "/") + y + (" " + h + ":" + mi);
  }

  /** What the parser reads from a text of either layout (e is where the tail starts). */
  lemma ParseFields(s: string)
    requires LayoutMatches(s) || SignedLayoutMatches(s)
    ensures AllDigits(YearDigits(s)) && TailMatches(s[|s| - 20..])
    ensures var e := |s| - 20;
            && AllDigits(s[e + 1..e + 3]) && AllDigits(s[e + 4..e + 6]) && AllDigits(s[e + 7..e + 9])
            && AllDigits(s[e + 10..e + 12]) && AllDigits(s[e + 13..e + 15]) && AllDigits(s[e + 16..e + 19])
            && ParseText(s) == Some(Parsed(DigitsValue(YearDigits(s)), DigitsValue(s[e + 1..e + 3]),
                                           DigitsValue(s[e + 4..e + 6]), DigitsValue(s[e + 7..e + 9]),
                                           DigitsValue(s[e + 10..e + 12]), DigitsValue(s[e + 13..e + 15]),
                                           DigitsValue(s[e + 16..e + 19])))
  {
    ParseYearOfLayout(s);
    if LayoutMatches(s) {
      TailOfLayout(s);
    }
    var e := |s| - 20;
    assert TailMatches(s[e..]);
    SuffixSlice(s, e, 1, 3);
    SuffixSlice(s, e, 4, 6);
    SuffixSlice(s, e, 7, 9);
    SuffixSlice(s, e, 10, 12);
    SuffixSlice(s, e, 13, 15);
    SuffixSlice(s, e, 16, 19);
  }

  lemma SuffixSlice(s: seq<char>, e: nat, i: nat, j: nat)
    requires i <= j && e + j <= |s|
    ensures s[e..][i..j] == s[e + i..e + j]
  {
  }

  /** Resolution and printing never look at seconds or milliseconds. */
  lemma FormatIgnoresSeconds(p: Parsed, q: Parsed)
    requires p.(second := 0, milli := 0) == q.(second := 0, milli := 0)
    requires Resolve(p).Some? && Resolve(q).Some?
    ensures Format(Resolve(p).value) == Format(Resolve(q).value)
  {
  }

  /** Texts that differ only in their seconds and milliseconds print alike. */
  lemma IgnoresSecondsAndFraction(s: string, t: string)
    requires |s| == |t| >= 7
    requires s[..|s| - 7] == t[..|t| - 7] && s[|s| - 5] == t[|t| - 5] && s[|s| - 1] == t[|t| - 1]
    requires FormatDateTime(s).Ok? && FormatDateTime(t).Ok?
    ensures FormatDateTime(s) == FormatDateTime(t)
  {
    ParsesExactlyLayouts(s);
    ParsesExactlyLayouts(t);
    SameFieldsButSeconds(s, t);
    FormatIgnoresSeconds(ParseText(s).value, ParseText(t).value);
  }

  lemma SameFieldsButSeconds(s: string, t: string)
    requires |s| == |t| >= 7
    requires s[..|s| - 7] == t[..|t| - 7]
    requires LayoutMatches(s) || SignedLayoutMatches(s)
    requires LayoutMatches(t) || SignedLayoutMatches(t)
    ensures ParseText(s).Some? && ParseText(t).Some?
    ensures ParseText(s).value.(second := 0, milli := 0) == ParseText(t).value.(second := 0, milli := 0)
  {
    SameYear(s, t);
    SameTailFields(s, t);
  }

  lemma SameYear(s: string, t: string)
    requires |s| == |t| >= 7
    requires s[..|s| - 7] == t[..|t| - 7]
    requires LayoutMatches(s) || SignedLayoutMatches(s)
    requires LayoutMatches(t) || SignedLayoutMatches(t)
    ensures ParseText(s).Some? && ParseText(t).Some?
    ensures ParseText(s).value.yearOfEra == ParseText(t).value.yearOfEra
  {
    ParseFields(s);
    ParseFields(t);
    SameYearDigits(s, t);
  }

  lemma SameYearDigits(s: string, t: string)
    requires |s| == |t| > 20
    requires s[..|s| - 7] == t[..|t| - 7]
    ensures YearDigits(s) == YearDigits(t)
  {
    var n := |s|;
    PrefixSlice(s, t, n - 7, 0, 1);
    PrefixSlice(s, t, n - 7, if s[0] == '+' then 1 else 0, n - 20);
    assert s[0] == t[0] by { assert s[0..1][0] == s[0] && t[0..1][0] == t[0]; }
  }

  lemma SameTailFields(s: string, t: string)
    requires |s| == |t| >= 7
    requires s[..|s| - 7] == t[..|t| - 7]
    requires LayoutMatches(s) || SignedLayoutMatches(s)
    requires LayoutMatches(t) || SignedLayoutMatches(t)
    ensures ParseText(s).Some? && ParseText(t).Some?
    ensures var ps, pt := ParseText(s).value, ParseText(t).value;
            ps.month == pt.month && ps.day == pt.day && ps.hour == pt.hour && ps.minute == pt.minute
  {
    ParseFields(s);
    ParseFields(t);
    var e := |s| - 20;
    PrefixSlice(s, t, |s| - 7, e + 1, e + 3);
    PrefixSlice(s, t, |s| - 7, e + 4, e + 6);
    PrefixSlice(s, t, |s| - 7, e + 7, e + 9);
    PrefixSlice(s, t, |s| - 7, e + 10, e + 12);
  }

  lemma PrefixSlice(s: seq<char>, t: seq<char>, k: nat, i: nat, j: nat)
    requires i <= j <= k <= |s| && k <= |t| && s[..k] == t[..k]
    ensures s[i..j] == t[i..j]
  {
    forall x | i <= x < j
      ensures s[x] == t[x]
    {
      assert s[x] == s[..k][x] && t[x] == t[..k][x];
    }
  }
}
