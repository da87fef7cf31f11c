/**
  The timestamp reader `parse_rfc3339`: exactly which strings it reads and what
  it answers, and that it reads the Unix instant of every date-time of RFC 3339,
  section 5.6.
 */
module Rfc3339 {
  import opened Wrappers
  import opened Strings
  import opened Calendar

  const I64_MIN := -0x8000_0000_0000_0000
  const I64_MAX := 0x7FFF_FFFF_FFFF_FFFF

  // ---------- The string operations the reader is made of ----------

  /** Unicode `White_Space`, which `str::trim` removes. */
  predicate IsWhite(c: char) {
    || '\t' <= c <= '\r'
    || c in {' ', '\U{85}', '\U{A0}', '\U{1680}', '\U{2028}', '\U{2029}', '\U{202F}', '\U{205F}', '\U{3000}'}
    || '\U{2000}' <= c <= '\U{200A}'
  }

  /** The code points with the property White_Space. */
  lemma WhiteSpaceIs(c: char)
    ensures var n := c as int;
      IsWhite(c) <==> 9 <= n <= 13 || 0x2000 <= n <= 0x200A
                      || n in {0x20, 0x85, 0xA0, 0x1680, 0x2028, 0x2029, 0x202F, 0x205F, 0x3000}
  {
  }

  predicate IsAscii(s: string) {
    forall i :: 0 <= i < |s| ==> s[i] < '\U{80}'
  }

  function TrimStart(s: string): string {
    if s != "" && IsWhite(s[0]) then TrimStart(s[1..]) else s
  }

  function TrimEnd(s: string): string {
    if s != "" && IsWhite(s[|s| - 1]) then TrimEnd(s[..|s| - 1]) else s
  }

  function Trim(s: string): string {
    TrimEnd(TrimStart(s))
  }

  function SkipDigits(s: string): string {
    if s != "" && IsDigit(s[0]) then SkipDigits(s[1..]) else s
  }

  /** The three pieces of `splitn(3, …)`, when there are three. */
  function SplitThree(s: string, separator: char): Option<(string, string, string)> {
    var (first, rest) :- SplitOnce(s, separator);
    var (second, third) :- SplitOnce(rest, separator);
    Some((first, second, third))
  }

  /** `str::parse::<i64>`: an optional sign, then at least one digit, in range. */
  function ParseI64(s: string): Option<int> {
    if s == "" then None
    else
      var signed := s[0] == '+' || s[0] == '-';
      var digits := if signed then s[1..] else s;
      if digits == "" || !AllDigits(digits) then None
      else
        var value := if s[0] == '-' then -Number(digits) else Number(digits);
        if I64_MIN <= value <= I64_MAX then Some(value) else None
  }

  // ---------- The reader ----------

  /** Seconds to subtract from a local timestamp to reach UTC. */
  function ParseOffset(raw: string): Option<int> {
    if raw == "" || raw == "Z" || raw == "z" then Some(0)
    else if raw[0] != '+' && raw[0] != '-' then None
    else
      var sign := if raw[0] == '+' then 1 else -1;
      var (hours, minutes) :- SplitOnce(raw[1..], ':');
      if |hours| != 2 || |minutes| != 2 then None
      else
        var hours :- ParseI64(hours);
        var minutes :- ParseI64(minutes);
        if hours > 23 || minutes > 59 then None
        else Some(sign * (hours * 3_600 + minutes * 60))
  }

  function ParseDate(date: string): Option<(int, int, int)> {
    var (year, month, day) :- SplitThree(date, '-');
    var year :- ParseI64(year);
    var month :- ParseI64(month);
    var day :- ParseI64(day);
    if 1 <= month <= 12 && 1 <= day <= 31 then Some((year, month, day)) else None
  }

  /** Seconds since midnight. Only upper bounds are checked, as in the source. */
  function ParseTime(time: string): Option<int> {
    var (hour, minute, second) :- SplitThree(time, ':');
    var hour :- ParseI64(hour);
    var minute :- ParseI64(minute);
    var second :- ParseI64(second);
    if hour > 23 || minute > 59 || second > 60 then None
    else Some(hour * 3_600 + minute * 60 + second)
  }

  function SkipFraction(rest: string): string {
    if rest != "" && rest[0] == '.' then SkipDigits(rest[1..]) else rest
  }

  /** The written date, and the seconds from its midnight in UTC. */
  datatype Fields = Fields(year: int, month: int, day: int, seconds: int)

  /** Every slice below is in range on every string: `raw` holds at least 19 one-byte characters. */
  function ReadFields(raw: string): Option<Fields> {
    if |raw| < 19 || !IsAscii(raw) then None
    else
      var (year, month, day) :- ParseDate(raw[..10]);
      var rest := raw[10..];
      if rest[0] !in {'T', 't', ' '} then None
      else
        var rest := rest[1..];
        var seconds :- ParseTime(rest[..8]);
        var offset :- ParseOffset(SkipFraction(rest[8..]));
        Some(Fields(year, month, day, seconds - offset))
  }

  function ParseRfc3339(value: string): Option<int> {
    var f :- ReadFields(Trim(value));
    Some(DaysFromCivil(f.year, f.month, f.day) * 86_400 + f.seconds)
  }

  // ---------- Date-times, and the looser stamps the reader takes for them ----------

  predicate IsNumber(s: string, width: nat, low: int, high: int) {
    |s| == width && AllDigits(s) && low <= Number(s) <= high
  }

  predicate IsSigned(s: string) {
    s != "" && (s[0] == '+' || s[0] == '-')
  }

  function Digits(s: string): string {
    if IsSigned(s) then s[1..] else s
  }

  /** At least one digit, with a sign or without. */
  predicate IsInteger(s: string) {
    Digits(s) != "" && AllDigits(Digits(s))
  }

  function Value(s: string): int
    requires IsInteger(s)
  {
    if s[0] == '-' then -Number(Digits(s)) else Number(Digits(s))
  }

  predicate IsAtMost(s: string, high: int) {
    IsInteger(s) && Value(s) <= high
  }

  datatype Zone = Missing | Zulu(letter: char) | Offset(sign: char, hours: string, minutes: string) {
    /** As section 5.6 has it. */
    predicate Valid() {
      match this
      case Missing => false
      case Zulu(letter) => letter == 'Z' || letter == 'z'
      case Offset(sign, hours, minutes) =>
        (sign == '+' || sign == '-') && IsNumber(hours, 2, 0, 23) && IsNumber(minutes, 2, 0, 59)
    }

    /** As the reader takes it: it may be missing, and its numbers may have signs. */
    predicate Readable() {
      match this
      case Missing => true
      case Zulu(letter) => letter == 'Z' || letter == 'z'
      case Offset(sign, hours, minutes) =>
        && (sign == '+' || sign == '-')
        && |hours| == |minutes| == 2 && IsAtMost(hours, 23) && IsAtMost(minutes, 59)
    }

    /** How far local time is ahead of UTC. */
    function Seconds(): int
      requires Readable()
    {
      match this
      case Missing => 0
      case Zulu(_) => 0
      case Offset(sign, hours, minutes) =>
        (if sign == '+' then 1 else -1) * (Value(hours) * 3_600 + Value(minutes) * 60)
    }

    function Text(): string {
      match this
      case Missing => ""
      case Zulu(letter) => [letter]
      case Offset(sign, hours, minutes) => [sign] + (hours + [':'] + minutes)
    }
  }

  /** A stamp by its written fields; the day may be one its month does not have. */
  datatype Stamp = Stamp(year: string, month: string, day: string, separator: char,
                         hour: string, minute: string, second: string,
                         fraction: Option<string>, zone: Zone)
  {
    /** A date-time of section 5.6. */
    predicate WellFormed() {
      && IsNumber(year, 4, 0, 9999) && IsNumber(month, 2, 1, 12) && IsNumber(day, 2, 1, 31)
      && separator in {'T', 't', ' '}
      && IsNumber(hour, 2, 0, 23) && IsNumber(minute, 2, 0, 59) && IsNumber(second, 2, 0, 60)
      && (fraction.Some? ==> fraction.value != "" && AllDigits(fraction.value))
      && zone.Valid()
    }

    /**
      What the reader takes for one: numbers may have signs and any widths that
      add up, the time of day has no lower bound, the fraction may be empty.
     */
    predicate Readable() {
      && |year| + |month| + |day| == 8 && |hour| + |minute| + |second| == 6
      && IsInteger(year) && year[0] != '-'
      && IsAtMost(month, 12) && Value(month) >= 1 && IsAtMost(day, 31) && Value(day) >= 1
      && separator in {'T', 't', ' '}
      && IsAtMost(hour, 23) && IsAtMost(minute, 59) && IsAtMost(second, 60)
      && (fraction.Some? ==> AllDigits(fraction.value))
      && zone.Readable()
    }

    function DateText(): string {
      year + ['-'] + (month + ['-'] + day)
    }

    function TimeText(): string {
      hour + [':'] + (minute + [':'] + second)
    }

    function FractionText(): string {
      if fraction.Some? then "." + fraction.value else ""
    }

    function Tail(): string {
      FractionText() + zone.Text()
    }

    function Text(): string {
      DateText() + ([separator] + (TimeText() + Tail()))
    }

    function Written(): Date
      requires Readable()
    {
      Date(Value(year), Value(month), Value(day))
    }

    /** Seconds from the written date's midnight, in local time. */
    function LocalSeconds(): int
      requires Readable()
    {
      Value(hour) * 3_600 + Value(minute) * 60 + Value(second)
    }

    /** Seconds from the written date's midnight to the instant, both in UTC. */
    function SecondsOfDay(): int
      requires Readable()
    {
      LocalSeconds() - zone.Seconds()
    }

    function Meant(): Fields
      requires Readable()
    {
      Fields(Value(year), Value(month), Value(day), SecondsOfDay())
    }

    /** The day count of the written date, and the seconds from its midnight. */
    function Instant(): int
      requires Readable()
    {
      Written().Days() * 86_400 + SecondsOfDay()
    }
  }

  lemma NumbersAreIntegers(s: string, width: nat, low: int, high: int)
    requires IsNumber(s, width, low, high) && width > 0
    ensures IsInteger(s) && IsAtMost(s, high) && Value(s) == Number(s) && !IsSigned(s) && s[0] != '-'
    ensures |s| == width && AllDigits(s) && low <= Number(s)
  {
    assert IsDigit(s[0]);
  }

  lemma ValidIsReadable(z: Zone)
    requires z.Valid()
    ensures z.Readable()
  {
    hide IsNumber, IsAtMost;
    if z.Offset? {
      NumbersAreIntegers(z.hours, 2, 0, 23);
      NumbersAreIntegers(z.minutes, 2, 0, 59);
    }
  }

  /** Every date-time of section 5.6 is one the reader takes. */
  lemma WellFormedIsReadable(t: Stamp)
    requires t.WellFormed()
    ensures t.Readable()
  {
    hide IsNumber, IsAtMost, Zone.Valid, Zone.Readable;
    NumbersAreIntegers(t.year, 4, 0, 9999);
    NumbersAreIntegers(t.month, 2, 1, 12);
    NumbersAreIntegers(t.day, 2, 1, 31);
    NumbersAreIntegers(t.hour, 2, 0, 23);
    NumbersAreIntegers(t.minute, 2, 0, 59);
    NumbersAreIntegers(t.second, 2, 0, 60);
    ValidIsReadable(t.zone);
  }

  // ---------- Stamps are read ----------

  /** An integer short enough to fit 64 bits parses as its value; nothing else parses. */
  lemma IntegersParse(s: string)
    requires |s| <= 8
    ensures ParseI64(s) == if IsInteger(s) then Some(Value(s)) else None
  {
    if IsInteger(s) {
      DigitsBound(Digits(s));
      PowerOfTenGrows(|Digits(s)|, 8);
      assert PowerOfTen(8) == 100_000_000;
    }
  }

  lemma SeparatorsAreApart(s: string)
    requires IsInteger(s)
    ensures ':' !in s && ('-' in s ==> s[0] == '-')
  {
    forall i | 0 <= i < |s|
      ensures s[i] != ':' && (i > 0 ==> s[i] != '-')
    {
      if IsSigned(s) && i > 0 {
        assert IsDigit(Digits(s)[i - 1]);
      } else if !IsSigned(s) {
        assert IsDigit(Digits(s)[i]);
      }
    }
  }

  lemma DateSplits(t: Stamp)
    requires t.Readable()
    ensures SplitThree(t.DateText(), '-') == Some((t.year, t.month, t.day))
  {
    SeparatorsAreApart(t.year);
    SeparatorsAreApart(t.month);
    assert t.month[0] != '-';
    hide IsAtMost, IsInteger, Value;
    SplitFindsSeparator(t.month, '-', t.day);
    SplitFindsSeparator(t.year, '-', t.month + ['-'] + t.day);
  }

  lemma DateReads(t: Stamp)
    requires t.Readable()
    ensures ParseDate(t.DateText()) == Some((Value(t.year), Value(t.month), Value(t.day)))
  {
    DateSplits(t);
    IntegersParse(t.year);
    IntegersParse(t.month);
    IntegersParse(t.day);
    hide SplitThree, ParseI64, Value;
  }

  lemma TimeSplits(t: Stamp)
    requires t.Readable()
    ensures SplitThree(t.TimeText(), ':') == Some((t.hour, t.minute, t.second))
  {
    SeparatorsAreApart(t.hour);
    SeparatorsAreApart(t.minute);
    hide IsAtMost, IsInteger, Value;
    SplitFindsSeparator(t.minute, ':', t.second);
    SplitFindsSeparator(t.hour, ':', t.minute + [':'] + t.second);
  }

  lemma TimeReads(t: Stamp)
    requires t.Readable()
    ensures ParseTime(t.TimeText()) == Some(t.LocalSeconds())
  {
    TimeSplits(t);
    IntegersParse(t.hour);
    IntegersParse(t.minute);
    IntegersParse(t.second);
    hide SplitThree, ParseI64, Value;
  }

  lemma ZoneReads(z: Zone)
    requires z.Readable()
    ensures ParseOffset(z.Text()) == Some(z.Seconds())
  {
    if z.Offset? {
      SeparatorsAreApart(z.hours);
      IntegersParse(z.hours);
      IntegersParse(z.minutes);
      SplitFindsSeparator(z.hours, ':', z.minutes);
      assert z.Text()[1..] == z.hours + [':'] + z.minutes;
      hide ParseI64, SplitOnce, Value, IsInteger;
    }
  }

  lemma {:induction false} DigitsSkipped(digits: string, rest: string)
    requires AllDigits(digits)
    requires rest == "" || !IsDigit(rest[0])
    ensures SkipDigits(digits + rest) == rest
  {
    if digits == "" {
      assert digits + rest == rest;
    } else {
      assert (digits + rest)[1..] == digits[1..] + rest;
      DigitsSkipped(digits[1..], rest);
    }
  }

  lemma ZoneIsPlain(z: Zone)
    requires z.Readable()
    ensures IsAscii(z.Text())
    ensures z.Text() != "" ==>
      && !IsWhite(z.Text()[|z.Text()| - 1])
      && !IsDigit(z.Text()[0]) && z.Text()[0] != '.'
  {
    if z.Offset? {
      IntegersArePlain(z.hours);
      IntegersArePlain(z.minutes);
      assert z.Text()[|z.Text()| - 1] == z.minutes[1];
    }
  }

  lemma SkippedToZone(digits: string, zone: string)
    requires AllDigits(digits) && (zone != "" ==> !IsDigit(zone[0]) && zone[0] != '.')
    ensures SkipFraction("." + digits + zone) == zone && SkipFraction(zone) == zone
  {
    assert ("." + digits + zone)[1..] == digits + zone;
    DigitsSkipped(digits, zone);
  }

  lemma FractionSkipped(t: Stamp)
    requires t.Readable()
    ensures SkipFraction(t.Tail()) == t.zone.Text()
  {
    ZoneIsPlain(t.zone);
    hide IsWhite, IsAscii, Zone.Readable, Zone.Text, IsInteger, IsAtMost, SkipFraction, IsDigit, AllDigits;
    SkippedToZone(if t.fraction.Some? then t.fraction.value else "", t.zone.Text());
    assert "" + t.zone.Text() == t.zone.Text();
  }

  predicate AllWhite(s: string) {
    forall i :: 0 <= i < |s| ==> IsWhite(s[i])
  }

  lemma {:induction false} TrimStartStops(white: string, s: string)
    requires AllWhite(white) && s != "" && !IsWhite(s[0])
    ensures TrimStart(white + s) == s
  {
    if white == "" {
      assert white + s == s;
    } else {
      assert (white + s)[1..] == white[1..] + s;
      TrimStartStops(white[1..], s);
    }
  }

  lemma {:induction false} TrimEndStops(s: string, white: string)
    requires AllWhite(white) && s != "" && !IsWhite(s[|s| - 1])
    ensures TrimEnd(s + white) == s
  {
    if white == "" {
      assert s + white == s;
    } else {
      var n := |white| - 1;
      assert (s + white)[..|s| + n] == s + white[..n];
      assert (s + white)[|s| + n] == white[n];
      TrimEndStops(s, white[..n]);
    }
  }

  lemma TrimsTo(before: string, s: string, after: string)
    requires AllWhite(before) && AllWhite(after)
    requires s != "" && !IsWhite(s[0]) && !IsWhite(s[|s| - 1])
    ensures Trim(before + s + after) == s
  {
    hide IsWhite, AllWhite, TrimStart, TrimEnd;
    assert before + s + after == before + (s + after);
    TrimStartStops(before, s + after);
    TrimEndStops(s, after);
  }

  /** How `raw` falls apart into the pieces of the text of `t`. */
  ghost predicate Shape(raw: string, t: Stamp) {
    && raw != "" && IsAscii(raw) && !IsWhite(raw[0]) && !IsWhite(raw[|raw| - 1])
    && Fits(raw, t.DateText(), t.separator, t.TimeText(), t.Tail())
  }

  predicate Fits(raw: string, date: string, separator: char, time: string, tail: string) {
    && |raw| >= 19 && raw[..10] == date && raw[10] == separator
    && raw[10..][1..][..8] == time && raw[10..][1..][8..] == tail
  }

  lemma IntegersArePlain(s: string)
    requires IsInteger(s)
    ensures IsAscii(s) && !IsWhite(s[0]) && !IsWhite(s[|s| - 1])
  {
    forall i | 0 <= i < |s|
      ensures s[i] < '\U{80}' && !IsWhite(s[i])
    {
      if IsSigned(s) && i > 0 {
        assert IsDigit(Digits(s)[i - 1]);
      } else if !IsSigned(s) {
        assert IsDigit(Digits(s)[i]);
      }
    }
  }

  lemma AsciiAppends(a: string, b: string)
    ensures IsAscii(a + b) <==> IsAscii(a) && IsAscii(b)
  {
    assert forall i :: 0 <= i < |b| ==> (a + b)[|a| + i] == b[i];
    assert forall i :: 0 <= i < |a| ==> (a + b)[i] == a[i];
  }

  lemma TripleIsPlain(a: string, separator: char, b: string, c: string)
    requires IsInteger(a) && IsInteger(b) && IsInteger(c) && (separator == '-' || separator == ':')
    ensures var s := a + [separator] + (b + [separator] + c);
      |s| == |a| + |b| + |c| + 2 && IsAscii(s) && !IsWhite(s[0]) && !IsWhite(s[|s| - 1])
  {
    IntegersArePlain(a);
    IntegersArePlain(b);
    IntegersArePlain(c);
    hide IsInteger, IsWhite;
    var s := a + [separator] + (b + [separator] + c);
    assert s[0] == a[0] && s[|s| - 1] == c[|c| - 1];
    AsciiAppends(a, [separator]);
    AsciiAppends(b, [separator]);
    AsciiAppends(b + [separator], c);
    AsciiAppends(a + [separator], b + [separator] + c);
  }

  lemma TailIsPlain(t: Stamp)
    requires t.Readable()
    ensures IsAscii(t.Tail()) && (t.Tail() != "" ==> !IsWhite(t.Tail()[|t.Tail()| - 1]))
  {
    ZoneIsPlain(t.zone);
    hide Zone.Readable, Zone.Text;
    assert IsAscii(t.FractionText());
    if t.zone.Text() == "" {
      assert t.Tail() == t.FractionText();
    } else {
      assert t.Tail()[|t.Tail()| - 1] == t.zone.Text()[|t.zone.Text()| - 1];
    }
  }

  lemma TextIsAscii(date: string, separator: char, time: string, tail: string)
    requires IsAscii(date) && separator < '\U{80}' && IsAscii(time) && IsAscii(tail)
    ensures IsAscii(date + ([separator] + (time + tail)))
  {
    assert IsAscii([separator]);
    hide IsAscii;
    AsciiAppends(time, tail);
    AsciiAppends([separator], time + tail);
    AsciiAppends(date, [separator] + (time + tail));
  }

  lemma DateIsPlain(t: Stamp)
    requires t.Readable()
    ensures var s := t.DateText(); |s| == 10 && IsAscii(s) && !IsWhite(s[0])
    ensures t.separator < '\U{80}'
  {
    TripleIsPlain(t.year, '-', t.month, t.day);
  }

  lemma TimeIsPlain(t: Stamp)
    requires t.Readable()
    ensures var s := t.TimeText(); |s| == 8 && IsAscii(s) && !IsWhite(s[7])
  {
    TripleIsPlain(t.hour, ':', t.minute, t.second);
  }

  lemma TextHasShape(t: Stamp)
    requires t.Readable()
    ensures Shape(t.Text(), t)
  {
    hide IsWhite, IsAscii, Fits, Stamp.Readable, Stamp.DateText, Stamp.TimeText, Stamp.Tail;
    DateIsPlain(t);
    TimeIsPlain(t);
    TailIsPlain(t);
    PiecesFit(t.DateText(), t.separator, t.TimeText(), t.Tail());
    TextIsAscii(t.DateText(), t.separator, t.TimeText(), t.Tail());
  }

  lemma PiecesFit(date: string, separator: char, time: string, tail: string)
    requires |date| == 10 && |time| == 8
    ensures var s := date + ([separator] + (time + tail));
      && s != "" && s[0] == date[0] && s[|s| - 1] == (if tail == "" then time[7] else tail[|tail| - 1])
      && Fits(s, date, separator, time, tail)
  {
    var s := date + ([separator] + (time + tail));
    assert s[10..] == [separator] + (time + tail);
    assert s[10..][1..] == time + tail;
  }

  lemma ShapeReads(raw: string, t: Stamp)
    requires t.Readable() && Shape(raw, t)
    ensures ReadFields(raw) == Some(t.Meant())
  {
    hide ParseDate, ParseTime, ParseOffset, SkipFraction, IsWhite;
    DateReads(t);
    TimeReads(t);
    FractionSkipped(t);
    ZoneReads(t.zone);
  }

  /** `text` is the stamp `t`, with any white space around it. */
  ghost predicate Spells(text: string, t: Stamp) {
    exists before, after :: AllWhite(before) && AllWhite(after) && text == before + t.Text() + after
  }

  lemma ShapeEnds(raw: string, t: Stamp)
    requires Shape(raw, t)
    ensures raw != "" && !IsWhite(raw[0]) && !IsWhite(raw[|raw| - 1])
  {
    hide IsWhite, IsAscii, Fits;
  }

  lemma SpellingTrims(text: string, t: Stamp)
    requires t.Readable() && Spells(text, t)
    ensures Trim(text) == t.Text() && Shape(Trim(text), t)
  {
    TextHasShape(t);
    ShapeEnds(t.Text(), t);
    hide IsWhite, AllWhite, Trim, Stamp.Readable, Stamp.Text, Shape;
    var before, after :| AllWhite(before) && AllWhite(after) && text == before + t.Text() + after;
    TrimsTo(before, t.Text(), after);
  }

  lemma SpellingReads(text: string, t: Stamp)
    requires t.Readable() && Spells(text, t)
    ensures ReadFields(Trim(text)) == Some(t.Meant())
  {
    hide ReadFields, Shape, Trim;
    SpellingTrims(text, t);
    ShapeReads(Trim(text), t);
  }

  // ---------- Nothing else is read ----------

  lemma InFront(s: string, a: string, separator: char, b: string)
    requires s != "" && s[1..] == a + [separator] + b
    ensures s == [s[0]] + a + [separator] + b
  {
    assert s == [s[0]] + s[1..];
  }

  lemma {:induction false} SplitRebuilds(s: string, separator: char)
    ensures SplitOnce(s, separator).Some? ==>
      var (a, b) := SplitOnce(s, separator).value; s == a + [separator] + b
  {
    if s != "" && s[0] != separator {
      SplitRebuilds(s[1..], separator);
      if SplitOnce(s[1..], separator).Some? {
        var pieces := SplitOnce(s[1..], separator).value;
        InFront(s, pieces.0, separator, pieces.1);
      }
    }
  }

  lemma ThreeRebuild(s: string, separator: char)
    ensures SplitThree(s, separator).Some? ==>
      var (a, b, c) := SplitThree(s, separator).value;
      s == a + [separator] + (b + [separator] + c) && |a| + |b| + |c| + 2 == |s|
  {
    SplitRebuilds(s, separator);
    if SplitOnce(s, separator).Some? {
      SplitRebuilds(SplitOnce(s, separator).value.1, separator);
    }
  }

  /** A year that is read has no minus: the reader would split there. */
  lemma {:induction false} SplitHasNoSeparator(s: string, separator: char)
    ensures SplitOnce(s, separator).Some? ==> separator !in SplitOnce(s, separator).value.0
  {
    if s != "" && s[0] != separator {
      SplitHasNoSeparator(s[1..], separator);
    }
  }

  lemma {:induction false} SkippedDigits(s: string) returns (digits: string)
    ensures AllDigits(digits) && s == digits + SkipDigits(s)
  {
    if s != "" && IsDigit(s[0]) {
      digits := SkippedDigits(s[1..]);
      digits := [s[0]] + digits;
    } else {
      digits := "";
    }
  }

  lemma FractionOf(tail: string) returns (fraction: Option<string>)
    ensures fraction.Some? ==> AllDigits(fraction.value)
    ensures tail == (if fraction.Some? then "." + fraction.value else "") + SkipFraction(tail)
  {
    if tail != "" && tail[0] == '.' {
      var digits := SkippedDigits(tail[1..]);
      fraction := Some(digits);
      assert "." + digits + SkipFraction(tail) == "." + tail[1..];
    } else {
      fraction := None;
    }
  }

  lemma ZoneOf(raw: string) returns (z: Zone)
    requires ParseOffset(raw).Some?
    ensures z.Readable() && z.Text() == raw && z.Seconds() == ParseOffset(raw).value
  {
    if raw == "" {
      z := Missing;
    } else if raw == "Z" || raw == "z" {
      z := Zulu(raw[0]);
    } else {
      SplitRebuilds(raw[1..], ':');
      var (hours, minutes) := SplitOnce(raw[1..], ':').value;
      IntegersParse(hours);
      IntegersParse(minutes);
      hide SplitOnce, ParseI64, Value, IsInteger;
      z := Offset(raw[0], hours, minutes);
    }
  }

  lemma DateOf(date: string) returns (year: string, month: string, day: string)
    requires |date| == 10 && ParseDate(date).Some?
    ensures date == year + ['-'] + (month + ['-'] + day) && |year| + |month| + |day| == 8
    ensures IsInteger(year) && year[0] != '-'
    ensures IsAtMost(month, 12) && Value(month) >= 1 && IsAtMost(day, 31) && Value(day) >= 1
    ensures ParseDate(date).value == (Value(year), Value(month), Value(day))
  {
    ThreeRebuild(date, '-');
    SplitHasNoSeparator(date, '-');
    var pieces := SplitThree(date, '-').value;
    year, month, day := pieces.0, pieces.1, pieces.2;
    assert '-' !in year;
    IntegersParse(year);
    IntegersParse(month);
    IntegersParse(day);
    hide SplitThree, ParseI64, Value;
  }

  lemma TimeOf(time: string) returns (hour: string, minute: string, second: string)
    requires |time| == 8 && ParseTime(time).Some?
    ensures time == hour + [':'] + (minute + [':'] + second) && |hour| + |minute| + |second| == 6
    ensures IsAtMost(hour, 23) && IsAtMost(minute, 59) && IsAtMost(second, 60)
    ensures ParseTime(time).value == Value(hour) * 3_600 + Value(minute) * 60 + Value(second)
  {
    ThreeRebuild(time, ':');
    var pieces := SplitThree(time, ':').value;
    hour, minute, second := pieces.0, pieces.1, pieces.2;
    IntegersParse(hour);
    IntegersParse(minute);
    IntegersParse(second);
    hide SplitThree, ParseI64, Value;
  }

  lemma ReadIsStamp(raw: string) returns (t: Stamp)
    ensures ReadFields(raw).Some? ==> t.Readable() && t.Text() == raw && t.Meant() == ReadFields(raw).value
  {
    hide ParseDate, ParseTime, ParseOffset, SkipFraction, IsInteger, IsAtMost, Value, IsAscii;
    t := LAST_OF_FEBRUARY;   // any stamp will do when nothing is read
    if ReadFields(raw).Some? {
      var rest := raw[10..][1..];
      var year, month, day := DateOf(raw[..10]);
      var hour, minute, second := TimeOf(rest[..8]);
      var fraction := FractionOf(rest[8..]);
      var zone := ZoneOf(SkipFraction(rest[8..]));
      t := Stamp(year, month, day, raw[10], hour, minute, second, fraction, zone);
      assert raw == raw[..10] + ([raw[10]] + (rest[..8] + rest[8..]));
    }
  }

  lemma {:induction false} TrimmedStart(s: string) returns (white: string)
    ensures AllWhite(white) && s == white + TrimStart(s)
  {
    hide IsWhite;
    if s != "" && IsWhite(s[0]) {
      white := TrimmedStart(s[1..]);
      white := [s[0]] + white;
    } else {
      white := "";
    }
  }

  lemma {:induction false} TrimmedEnd(s: string) returns (white: string)
    ensures AllWhite(white) && s == TrimEnd(s) + white
  {
    hide IsWhite;
    if s != "" && IsWhite(s[|s| - 1]) {
      white := TrimmedEnd(s[..|s| - 1]);
      assert s == s[..|s| - 1] + [s[|s| - 1]];
      white := white + [s[|s| - 1]];
    } else {
      white := "";
    }
  }

  lemma ReadIsSpelled(text: string) returns (t: Stamp)
    ensures ReadFields(Trim(text)).Some? ==>
      t.Readable() && Spells(text, t) && t.Meant() == ReadFields(Trim(text)).value
  {
    hide ReadFields, Stamp.Readable, Stamp.Text, AllWhite;
    t := ReadIsStamp(Trim(text));
    var before := TrimmedStart(text);
    var after := TrimmedEnd(TrimStart(text));
    assert before + (t.Text() + after) == before + t.Text() + after;
  }

  /**
    On every string: the reader answers an instant exactly when the string
    spells a stamp it takes, and then that stamp's instant.
   */
  lemma ReadsExactlyStamps(text: string, instant: int)
    ensures ParseRfc3339(text) == Some(instant)
       <==> exists t: Stamp :: t.Readable() && Spells(text, t) && t.Instant() == instant
  {
    hide ReadFields, Trim, Spells, Stamp.Readable, DaysFromCivil;
    forall t: Stamp | t.Readable() && Spells(text, t)
      ensures ParseRfc3339(text) == Some(t.Instant())
    {
      SpellingReads(text, t);
    }
    if ParseRfc3339(text) == Some(instant) {
      var t := ReadIsSpelled(text);
      assert t.Instant() == instant;
    }
  }

  // ---------- Which of them are date-times ----------

  lemma ZoneTextTells(y: Zone, z: Zone)
    requires y.Readable() && z.Readable() && y.Text() == z.Text()
    ensures y == z
  {
    if y.Offset? && z.Offset? {
      assert y.Text()[1..][..2] == y.hours && z.Text()[1..][..2] == z.hours;
      assert y.Text()[1..][3..] == y.minutes && z.Text()[1..][3..] == z.minutes;
      assert y.Text()[0] == z.Text()[0];
    } else {
      assert |y.Text()| == |z.Text()|;
      if y.Zulu? {
        assert y.Text()[0] == z.Text()[0];
      }
    }
  }

  /** A string spells at most one stamp. */
  lemma OneStampAString(text: string, t: Stamp, u: Stamp)
    requires t.Readable() && Spells(text, t) && u.Readable() && Spells(text, u)
    ensures t == u
  {
    hide Spells, Trim, SkipFraction, SplitThree, Zone.Readable, Zone.Text, IsWhite, IsAscii, IsInteger, IsAtMost, Value;
    SpellingTrims(text, t);
    SpellingTrims(text, u);
    DateSplits(t);
    DateSplits(u);
    TimeSplits(t);
    TimeSplits(u);
    FractionSkipped(t);
    FractionSkipped(u);
    ZoneTextTells(t.zone, u.zone);
    assert t.Tail() == u.Tail();
    assert t.Tail()[..|t.FractionText()|] == t.FractionText() && u.Tail()[..|u.FractionText()|] == u.FractionText();
    assert t.FractionText() == u.FractionText();
    if t.fraction.Some? && u.fraction.Some? {
      assert t.FractionText()[1..] == t.fraction.value && u.FractionText()[1..] == u.fraction.value;
    } else {
      assert |t.FractionText()| == |u.FractionText()|;
    }
  }

  /**
    A string the reader takes is a date-time of section 5.6 exactly when its one
    stamp is: four digits of year, two of everything else, no signs, no empty
    fraction, a zone.
   */
  lemma DateTimesAmongStamps(text: string, t: Stamp)
    requires t.Readable() && Spells(text, t)
    ensures (exists u: Stamp :: u.WellFormed() && Spells(text, u)) <==> t.WellFormed()
  {
    hide Stamp.WellFormed, Stamp.Readable, Spells;
    forall u: Stamp | u.WellFormed() && Spells(text, u)
      ensures u == t
    {
      WellFormedIsReadable(u);
      OneStampAString(text, t, u);
    }
  }

  // ---------- What is answered ----------

  /**
    A date-time is read as its Unix instant: its date lies `days` pages of the
    calendar from 1970-01-01, and the reader answers those days and the seconds
    of that day in UTC.
   */
  lemma InstantIsRead(text: string, t: Stamp, days: int)
    requires t.Readable() && Spells(text, t) && Walk(days) == t.Written()
    ensures ParseRfc3339(text) == Some(days * 86_400 + t.SecondsOfDay())
  {
    hide ReadFields, Trim, Spells, Walk, Stamp.Readable;
    SpellingReads(text, t);
    WalkCounts(days);
  }

  /**
    Two spellings read alike exactly when they are the same instant, whatever
    their offsets, fractions, separators and surrounding white space.
   */
  lemma SpellingsAgree(text: string, t: Stamp, m: int, other: string, u: Stamp, n: int)
    requires t.Readable() && Spells(text, t) && Walk(m) == t.Written()
    requires u.Readable() && Spells(other, u) && Walk(n) == u.Written()
    ensures ParseRfc3339(text) == ParseRfc3339(other)
       <==> m * 86_400 + t.SecondsOfDay() == n * 86_400 + u.SecondsOfDay()
  {
    hide ReadFields, Trim, Spells, Walk, ParseRfc3339, Stamp.Readable;
    InstantIsRead(text, t, m);
    InstantIsRead(other, u, n);
  }

  /**
    Of every string that is read: the midnight its seconds are counted from is
    that of the written day exactly when the month has that day; and the answer
    falls on the written day, in local time, exactly when the time of day is
    moreover one of that day. 31 February is read as a day of March, and an
    hour of -1 as one of the day before.
   */
  lemma WrittenDayIsReadIffItExists(text: string, t: Stamp)
    requires t.Readable() && Spells(text, t)
    ensures ParseRfc3339(text).Some?
    ensures var midnight := ParseRfc3339(text).value - t.SecondsOfDay();
      midnight % 86_400 == 0 && (Walk(midnight / 86_400) == t.Written() <==> t.Written().Valid())
    ensures Walk((ParseRfc3339(text).value + t.zone.Seconds()) / 86_400) == t.Written()
       <==> t.Written().Valid() && 0 <= t.LocalSeconds() < 86_400
  {
    hide ReadFields, Trim, Spells, Walk, DaysFromCivil, Stamp.Readable, Stamp.LocalSeconds, Zone.Seconds;
    SpellingReads(text, t);
    ZoneOfReadable(t);
    var days := t.Written().Days();
    assert ParseRfc3339(text).value - t.SecondsOfDay() == days * 86_400;
    var local := (ParseRfc3339(text).value + t.zone.Seconds()) / 86_400;
    WithinTheDay(days, t.LocalSeconds());
    WalkCounts(days);
    WalkCounts(local);
    if t.Written().Valid() {
      DaysCountTheWalk(t.Written(), days);
      DaysCountTheWalk(t.Written(), local);
    }
  }

  lemma ZoneOfReadable(t: Stamp)
    requires t.Readable()
    ensures t.zone.Readable()
  {
  }

  lemma WithinTheDay(days: int, seconds: int)
    ensures (days * 86_400 + seconds) / 86_400 == days <==> 0 <= seconds < 86_400
  {
  }

  const LAST_OF_FEBRUARY := Stamp("2023", "02", "31", 'T', "00", "00", "00", None, Zulu('Z'))
  const HOUR_BELOW_ZERO := Stamp("2023", "01", "01", 'T', "-1", "00", "00", None, Zulu('Z'))

  lemma LastOfFebruaryIsReadable()
    ensures LAST_OF_FEBRUARY.Readable()
    ensures LAST_OF_FEBRUARY.Meant() == Fields(2023, 2, 31, 0)
  {
    FourDigits("2023");
    TwoDigits("02");
    TwoDigits("31");
    TwoDigits("00");
    hide IsInteger, Value;
  }

  lemma LastOfFebruaryText()
    ensures LAST_OF_FEBRUARY.Text() == "2023-02-31T00:00:00Z"
  {
    assert LAST_OF_FEBRUARY.DateText() == "2023-02-31" && LAST_OF_FEBRUARY.TimeText() == "00:00:00";
    assert LAST_OF_FEBRUARY.Tail() == "Z";
  }

  /** A day that does not exist is read: 31 February 2023 as 3 March 2023. */
  lemma LastOfFebruaryIsReadAsMarch()
    ensures ParseRfc3339("2023-02-31T00:00:00Z") == Some(19_419 * 86_400)
    ensures Walk(19_419) == Date(2023, 3, 3) && !Date(2023, 2, 31).Valid()
  {
    LastOfFebruaryIsReadable();
    LastOfFebruaryText();
    TextSpellsItself(LAST_OF_FEBRUARY);
    hide Spells, ReadFields, Trim, Walk, Stamp.Readable, Stamp.Text, Stamp.Meant, DaysFromCivil;
    SpellingReads(LAST_OF_FEBRUARY.Text(), LAST_OF_FEBRUARY);
    ClosedForm(2023, 2, 31);
    ClosedForm(2023, 3, 3);
    DaysCountTheWalk(Date(2023, 3, 3), 19_419);
  }

  lemma HourBelowZeroIsReadable()
    ensures HOUR_BELOW_ZERO.Readable()
    ensures HOUR_BELOW_ZERO.Meant() == Fields(2023, 1, 1, -3_600)
  {
    FourDigits("2023");
    TwoDigits("01");
    TwoDigits("00");
    MinusOne();
    hide IsInteger, Value;
  }

  lemma HourBelowZeroText()
    ensures HOUR_BELOW_ZERO.Text() == "2023-01-01T-1:00:00Z"
  {
    assert HOUR_BELOW_ZERO.DateText() == "2023-01-01" && HOUR_BELOW_ZERO.TimeText() == "-1:00:00";
    assert HOUR_BELOW_ZERO.Tail() == "Z";
  }

  /** A time that does not exist is read: an hour of -1 as 23:00 of the day before. */
  lemma HourBelowZeroIsTheDayBefore()
    ensures ParseRfc3339("2023-01-01T-1:00:00Z") == Some(19_357 * 86_400 + 23 * 3_600)
    ensures Walk(19_357) == Date(2022, 12, 31)
  {
    HourBelowZeroIsReadable();
    HourBelowZeroText();
    TextSpellsItself(HOUR_BELOW_ZERO);
    hide Spells, ReadFields, Trim, Walk, Stamp.Readable, Stamp.Text, Stamp.Meant, DaysFromCivil;
    SpellingReads(HOUR_BELOW_ZERO.Text(), HOUR_BELOW_ZERO);
    ClosedForm(2023, 1, 1);
    ClosedForm(2022, 12, 31);
    DaysCountTheWalk(Date(2022, 12, 31), 19_357);
  }

  // The first two examples of section 5.8

  const WITH_FRACTION := Stamp("1985", "04", "12", 'T', "23", "20", "50", Some("52"), Zulu('Z'))
  const WITH_OFFSET := Stamp("1996", "12", "19", 'T', "16", "39", "57", None, Offset('-', "08", "00"))

  lemma WithFractionIsReadable()
    ensures WITH_FRACTION.Readable() && WITH_FRACTION.Meant() == Fields(1985, 4, 12, 84_050)
  {
    FourDigits("1985");
    TwoDigits("04");
    TwoDigits("12");
    TwoDigits("23");
    TwoDigits("20");
    TwoDigits("50");
    assert AllDigits("52");
    hide IsInteger, Value, AllDigits;
  }

  lemma WithOffsetIsReadable()
    ensures WITH_OFFSET.Readable() && WITH_OFFSET.Meant() == Fields(1996, 12, 19, 88_797)
  {
    FourDigits("1996");
    TwoDigits("12");
    TwoDigits("19");
    TwoDigits("16");
    TwoDigits("39");
    TwoDigits("57");
    TwoDigits("08");
    TwoDigits("00");
    hide IsInteger, Value, AllDigits;
  }

  lemma ExampleTexts()
    ensures WITH_FRACTION.Text() == "1985-04-12T23:20:50.52Z"
    ensures WITH_OFFSET.Text() == "1996-12-19T16:39:57-08:00"
  {
    assert WITH_FRACTION.DateText() == "1985-04-12" && WITH_FRACTION.TimeText() == "23:20:50";
    assert WITH_FRACTION.Tail() == ".52Z";
    assert WITH_OFFSET.DateText() == "1996-12-19" && WITH_OFFSET.TimeText() == "16:39:57";
    assert WITH_OFFSET.Tail() == "-08:00";
  }

  /** An example with a fraction, which is dropped, and one eight hours behind UTC. */
  lemma ExamplesAreRead()
    ensures ParseRfc3339("1985-04-12T23:20:50.52Z") == Some(482_196_050)
    ensures ParseRfc3339("1996-12-19T16:39:57-08:00") == Some(851_042_397)
    ensures Walk(851_042_397 / 86_400) == Date(1996, 12, 20)
  {
    WithFractionIsReadable();
    WithOffsetIsReadable();
    ExampleTexts();
    TextSpellsItself(WITH_FRACTION);
    TextSpellsItself(WITH_OFFSET);
    hide Spells, ReadFields, Trim, Walk, Stamp.Readable, Stamp.Text, Stamp.Meant, DaysFromCivil;
    SpellingReads(WITH_FRACTION.Text(), WITH_FRACTION);
    SpellingReads(WITH_OFFSET.Text(), WITH_OFFSET);
    ClosedForm(1985, 4, 12);
    ClosedForm(1996, 12, 19);
    ClosedForm(1996, 12, 20);
    DaysCountTheWalk(Date(1996, 12, 20), 9_850);
  }

  // Three that are no date-times of section 5.6

  const NO_ZONE := Stamp("1985", "04", "12", 't', "23", "20", "50", None, Missing)
  const EMPTY_FRACTION := Stamp("1985", "04", "12", ' ', "23", "20", "50", Some(""), Zulu('z'))
  const SIGNED_OFFSET := Stamp("1985", "+4", "12", 'T', "23", "20", "50", None, Offset('+', "-1", "00"))

  lemma LooseStampsAreReadable()
    ensures NO_ZONE.Readable() && NO_ZONE.Meant() == Fields(1985, 4, 12, 84_050)
    ensures EMPTY_FRACTION.Readable() && EMPTY_FRACTION.Meant() == Fields(1985, 4, 12, 84_050)
  {
    WithFractionIsReadable();
    assert AllDigits("");
    hide IsInteger, Value, AllDigits;
  }

  lemma SignedOffsetIsReadable()
    ensures SIGNED_OFFSET.Readable() && SIGNED_OFFSET.Meant() == Fields(1985, 4, 12, 84_050 + 3_600)
  {
    FourDigits("1985");
    TwoDigits("12");
    TwoDigits("23");
    TwoDigits("20");
    TwoDigits("50");
    TwoDigits("00");
    MinusOne();
    PlusFour();
    hide IsInteger, Value, AllDigits;
  }

  lemma PlusFour()
    ensures IsInteger("+4") && Value("+4") == 4
  {
    assert Digits("+4") == "4" && "4"[..0] == "";
    assert Number("4") == 4;
  }

  lemma LooseTexts()
    ensures NO_ZONE.Text() == "1985-04-12t23:20:50"
    ensures EMPTY_FRACTION.Text() == "1985-04-12 23:20:50.z"
  {
    assert NO_ZONE.DateText() == "1985-04-12" && NO_ZONE.TimeText() == "23:20:50" && NO_ZONE.Tail() == "";
    assert EMPTY_FRACTION.DateText() == "1985-04-12" && EMPTY_FRACTION.TimeText() == "23:20:50";
    assert EMPTY_FRACTION.Tail() == ".z";
  }

  lemma SignedOffsetText()
    ensures SIGNED_OFFSET.Text() == "1985-+4-12T23:20:50+-1:00"
  {
    assert SIGNED_OFFSET.DateText() == "1985-+4-12" && SIGNED_OFFSET.TimeText() == "23:20:50";
    assert SIGNED_OFFSET.Tail() == "+-1:00";
  }

  /** Without a zone a stamp is taken for UTC; an empty fraction and signs are taken too. */
  lemma LooseStampsAreRead()
    ensures ParseRfc3339("1985-04-12t23:20:50") == ParseRfc3339("1985-04-12 23:20:50.z") == Some(482_196_050)
    ensures ParseRfc3339("1985-+4-12T23:20:50+-1:00") == Some(482_196_050 + 3_600)
  {
    LooseStampsAreReadable();
    SignedOffsetIsReadable();
    LooseTexts();
    SignedOffsetText();
    TextSpellsItself(NO_ZONE);
    TextSpellsItself(EMPTY_FRACTION);
    TextSpellsItself(SIGNED_OFFSET);
    hide Spells, ReadFields, Trim, Stamp.Readable, Stamp.Text, Stamp.Meant, DaysFromCivil;
    SpellingReads(NO_ZONE.Text(), NO_ZONE);
    SpellingReads(EMPTY_FRACTION.Text(), EMPTY_FRACTION);
    SpellingReads(SIGNED_OFFSET.Text(), SIGNED_OFFSET);
    ClosedForm(1985, 4, 12);
  }

  lemma TwoDigits(s: string)
    requires |s| == 2 && AllDigits(s)
    ensures !IsSigned(s) && IsInteger(s) && Value(s) == (s[0] as int - '0' as int) * 10 + (s[1] as int - '0' as int)
  {
    assert IsDigit(s[0]) && s[..1][..0] == "" && s[..1] == [s[0]];
    assert Number(s[..1]) == s[0] as int - '0' as int;
  }

  lemma FourDigits(s: string)
    requires |s| == 4 && AllDigits(s)
    ensures !IsSigned(s) && IsInteger(s) && s[0] != '-'
    ensures Value(s) == (((s[0] as int - '0' as int) * 10 + (s[1] as int - '0' as int)) * 10
                        + (s[2] as int - '0' as int)) * 10 + (s[3] as int - '0' as int)
  {
    assert s[..3][..2] == s[..2];
    assert IsDigit(s[0]);
    TwoDigits(s[..2]);
    assert Number(s[..3]) == Number(s[..2]) * 10 + (s[2] as int - '0' as int);
  }

  lemma MinusOne()
    ensures IsInteger("-1") && Value("-1") == -1
  {
    assert Digits("-1") == "1" && "1"[..0] == "";
    assert Number("1") == 1;
  }

  lemma TextSpellsItself(t: Stamp)
    ensures Spells(t.Text(), t)
  {
    assert AllWhite("");
    assert t.Text() == "" + t.Text() + "";
  }

  // ---------- Any string at all: the arithmetic stays within 64 bits ----------

  function PowerOfTen(n: nat): (p: int)
    ensures p >= 1
  {
    if n == 0 then 1 else 10 * PowerOfTen(n - 1)
  }

  lemma {:induction false} DigitsBound(s: string)
    requires AllDigits(s)
    ensures Number(s) < PowerOfTen(|s|)
  {
    if s != "" {
      DigitsBound(s[..|s| - 1]);
    }
  }

  lemma {:induction false} PowerOfTenGrows(m: nat, n: nat)
    requires m <= n
    ensures PowerOfTen(m) <= PowerOfTen(n)
  {
    if m < n {
      PowerOfTenGrows(m, n - 1);
    }
  }

  lemma IntegerBound(s: string, n: nat)
    requires |s| <= n
    ensures ParseI64(s).Some? ==> -PowerOfTen(n) < ParseI64(s).value < PowerOfTen(n)
  {
    if s != "" {
      var digits := if s[0] == '+' || s[0] == '-' then s[1..] else s;
      if AllDigits(digits) {
        DigitsBound(digits);
        PowerOfTenGrows(|digits|, n);
      }
    }
  }

  lemma {:induction false} SplitShortens(s: string, separator: char)
    ensures SplitOnce(s, separator).Some? ==>
      |SplitOnce(s, separator).value.0| + |SplitOnce(s, separator).value.1| + 1 == |s|
  {
    if s != "" && s[0] != separator {
      SplitShortens(s[1..], separator);
    }
  }

  lemma ThreePiecesAreShort(s: string, separator: char)
    ensures SplitThree(s, separator).Some? ==>
      var (a, b, c) := SplitThree(s, separator).value; |a| + |b| + |c| + 2 == |s|
  {
    SplitShortens(s, separator);
    if SplitOnce(s, separator).Some? {
      SplitShortens(SplitOnce(s, separator).value.1, separator);
    }
  }

  lemma DateBound(date: string)
    requires |date| == 10
    ensures ParseDate(date).Some? ==>
      var (year, month, day) := ParseDate(date).value;
      -100_000_000 < year < 100_000_000 && 1 <= month <= 12 && 1 <= day <= 31
  {
    ThreePiecesAreShort(date, '-');
    if SplitThree(date, '-').Some? {
      IntegerBound(SplitThree(date, '-').value.0, 8);
      assert PowerOfTen(8) == 100_000_000;
    }
  }

  lemma TimeBound(time: string)
    requires |time| == 8
    ensures ParseTime(time).Some? ==> -4_000_000_000 < ParseTime(time).value < 100_000
  {
    ThreePiecesAreShort(time, ':');
    if SplitThree(time, ':').Some? {
      var (a, b, c) := SplitThree(time, ':').value;
      IntegerBound(a, 6);
      IntegerBound(b, 6);
      IntegerBound(c, 6);
      assert PowerOfTen(6) == 1_000_000;
    }
  }

  lemma OffsetBound(raw: string)
    ensures ParseOffset(raw).Some? ==> -400_000 < ParseOffset(raw).value < 400_000
  {
    if raw != "" && SplitOnce(raw[1..], ':').Some? {
      var (hours, minutes) := SplitOnce(raw[1..], ':').value;
      if |hours| == 2 && |minutes| == 2 {
        IntegerBound(hours, 2);
        IntegerBound(minutes, 2);
        assert PowerOfTen(2) == 100;
      }
    }
  }

  lemma DaysBound(year: int, month: int, day: int)
    requires -100_000_000 < year < 100_000_000 && 1 <= month <= 12 && 1 <= day <= 31
    ensures -40_000_000_000 < DaysFromCivil(year, month, day) < 40_000_000_000
  {
    ClosedForm(year, month, day);
  }

  /** On any string the answer fits the reader's 64-bit integers. */
  lemma AnswerFitsI64(value: string)
    ensures ParseRfc3339(value).Some? ==> I64_MIN <= ParseRfc3339(value).value <= I64_MAX
  {
    hide ParseDate, ParseTime, ParseOffset, Trim, DaysFromCivil;
    var raw := Trim(value);
    if ReadFields(raw).Some? {
      DateBound(raw[..10]);
      var (year, month, day) := ParseDate(raw[..10]).value;
      DaysBound(year, month, day);
      TimeBound(raw[10..][1..][..8]);
      OffsetBound(SkipFraction(raw[10..][1..][8..]));
    }
  }
}
