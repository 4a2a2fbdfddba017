/** Date-times and alarm triggers (`toICalDate`, `parseICalDate`, `parseTrigger` in
    src/calendar-ical.ts): sections 3.3.5 and 3.8.6.3 of RFC 5545. */
module ICalValue {
  import opened Text
  import opened UtcDate

  /** A JavaScript number that holds a time: `NaN` after a failed parse. */
  datatype Time = NaN | At(ms: int)

  // ---------- dates ----------

  function Pad2(n: int): string {
    var s := PrintInt(n);
    if |s| < 2 then "0" + s else s
  }

  function ToICalDate(t: int): string {
    PrintFields(FieldsOf(t))
  }

  function PrintFields(f: Fields): string {
    PrintInt(f.year) + Pad2(f.month + 1) + Pad2(f.date) + "T" + Pad2(f.hour) + Pad2(f.minute) + Pad2(f.second) + "Z"
  }

  predicate DateCharacter(c: char) {
    IsDigit(c) || c == 'T' || c == 'Z'
  }

  function Cleaned(s: string): string {
    if s == [] then []
    else (if DateCharacter(s[0]) then [s[0]] else []) + Cleaned(s[1..])
  }

  /** The longest prefix of decimal digits. */
  function LeadingDigits(s: string): (d: string)
    ensures d <= s && (forall c <- d :: IsDigit(c)) && (|d| < |s| ==> !IsDigit(s[|d|]))
  {
    if s == [] || !IsDigit(s[0]) then [] else [s[0]] + LeadingDigits(s[1..])
  }

  /** `parseInt(s, 10)` on a string of date characters. */
  function ParseInt(s: string): Time {
    var d := LeadingDigits(s);
    if d == [] then NaN else At(ParseDecimal(d))
  }

  /** `Date.UTC`, which is not a number as soon as one of its arguments is not. */
  function UtcOrNaN(year: Time, month: Time, day: Time, hour: Time, minute: Time, second: Time): Time {
    if year.NaN? || month.NaN? || day.NaN? || hour.NaN? || minute.NaN? || second.NaN? then NaN
    else At(Utc(Fields(year.ms, month.ms - 1, day.ms, hour.ms, minute.ms, second.ms)))
  }

  /** `fallback` stands for `Date.parse(value) || 0`, which the standard leaves open. */
  function ParseICalDate(value: string, fallback: string -> int): Time {
    var c := Cleaned(value);
    if |c| >= 15 then
      UtcOrNaN(ParseInt(c[0..4]), ParseInt(c[4..6]), ParseInt(c[6..8]),
               ParseInt(c[9..11]), ParseInt(c[11..13]), ParseInt(c[13..15]))
    else if |c| >= 8 then
      UtcOrNaN(ParseInt(c[0..4]), ParseInt(c[4..6]), ParseInt(c[6..8]), At(0), At(0), At(0))
    else At(fallback(value))
  }

  /** The time, down to the second, is in one of the years that print as four digits. */
  predicate FourDigitYear(t: int) {
    1000 <= FieldsOf(t).year <= 9999
  }

  lemma TwoDigits(n: int)
    requires 0 <= n < 100
    ensures DigitsOnly(Pad2(n), 2)
    ensures ParseInt(Pad2(n)) == At(n)
  {
    var s := Pad2(n);
    if n < 10 {
      assert s == ['0', DIGITS[n]];
      AllDigits(s);
      assert ParseDecimal("") == 0;
      assert s[..1] == ['0'] && ['0'][..0] == "" && ParseDecimal(['0']) == 0;
    } else {
      assert Decimal(n / 10) == [DIGITS[n / 10]];
      assert s == [DIGITS[n / 10], DIGITS[n % 10]];
      AllDigits(s);
      ParseDecimalInverse(n);
    }
  }

  lemma {:induction false} AllDigits(s: string)
    requires forall i | 0 <= i < |s| :: IsDigit(s[i])
    ensures LeadingDigits(s) == s
  {
    if s != [] {
      AllDigits(s[1..]);
    }
  }

  lemma FourDigits(n: int)
    requires 1000 <= n <= 9999
    ensures DigitsOnly(PrintInt(n), 4)
    ensures ParseInt(PrintInt(n)) == At(n)
  {
    assert |Decimal(n / 10 / 10 / 10)| == 1;
    assert |Decimal(n / 10 / 10)| == 2;
    assert |Decimal(n / 10)| == 3;
    var s := PrintInt(n);
    assert forall i | 0 <= i < 4 :: s[i] in s;
    AllDigits(s);
    ParseDecimalInverse(n);
  }

  lemma {:induction false} CleanedAll(s: string)
    requires forall i | 0 <= i < |s| :: DateCharacter(s[i])
    ensures Cleaned(s) == s
  {
    if s != [] {
      CleanedAll(s[1..]);
    }
  }

  lemma FieldRanges(t: int)
    ensures var f := FieldsOf(t);
            0 <= f.month <= 11 && 1 <= f.date <= 31
            && 0 <= f.hour <= 23 && 0 <= f.minute <= 59 && 0 <= f.second <= 59
  {
    TimeInDay(t % MS_PER_DAY);
    var d := DateOfDay(t / MS_PER_DAY);
    NextMonth(d.year, d.month);
  }

  predicate DigitsOnly(s: string, n: nat) {
    |s| == n && forall i | 0 <= i < |s| :: IsDigit(s[i])
  }

  /** A date-time made of six numbers is cut into those numbers again. */
  lemma ParseSlices(y: string, mo: string, d: string, h: string, mi: string, s: string, fallback: string -> int)
    requires DigitsOnly(y, 4) && DigitsOnly(mo, 2) && DigitsOnly(d, 2)
    requires DigitsOnly(h, 2) && DigitsOnly(mi, 2) && DigitsOnly(s, 2)
    ensures ParseICalDate(y + mo + d + "T" + h + mi + s + "Z", fallback)
         == UtcOrNaN(ParseInt(y), ParseInt(mo), ParseInt(d), ParseInt(h), ParseInt(mi), ParseInt(s))
  {
    var c := y + mo + d + "T" + h + mi + s + "Z";
    CleanedAll(c);
    assert c[0..4] == y && c[4..6] == mo && c[6..8] == d;
    assert c[9..11] == h && c[11..13] == mi && c[13..15] == s;
  }

  /** Printed fields are read back one by one. */
  lemma PrintedFields(f: Fields, fallback: string -> int)
    requires 1000 <= f.year <= 9999 && 0 <= f.month <= 11 && 1 <= f.date <= 31
    requires 0 <= f.hour <= 23 && 0 <= f.minute <= 59 && 0 <= f.second <= 59
    ensures ParseICalDate(PrintFields(f), fallback) == At(Utc(f))
  {
    FourDigits(f.year);
    TwoDigits(f.month + 1);
    TwoDigits(f.date);
    TwoDigits(f.hour);
    TwoDigits(f.minute);
    TwoDigits(f.second);
    ParseSlices(PrintInt(f.year), Pad2(f.month + 1), Pad2(f.date),
                Pad2(f.hour), Pad2(f.minute), Pad2(f.second), fallback);
  }

  /** Main result: parsing a printed time recovers it down to the second. */
  lemma DateRoundTrip(t: int, fallback: string -> int)
    requires FourDigitYear(t)
    ensures ParseICalDate(ToICalDate(t), fallback) == At(t - t % 1000)
  {
    hide FieldsOf, Utc, PrintFields, ParseICalDate;
    var f := FieldsOf(t);
    FieldRanges(t);
    PrintedFields(f, fallback);
    UtcOfFields(t);
  }

  // ---------- the text of a date, character by character ----------

  function Digit(n: int): char
    requires 0 <= n <= 9
  {
    ('0' as int + n) as char
  }

  lemma DigitText(n: int)
    requires 0 <= n <= 9
    ensures Decimal(n) == [Digit(n)] && DIGITS[n] == Digit(n)
  {
  }

  lemma MoreDigits(n: int)
    requires n >= 10
    ensures Decimal(n) == Decimal(n / 10) + [Digit(n % 10)]
  {
    DigitText(n % 10);
  }

  lemma Pad2Text(n: int)
    requires 0 <= n < 100
    ensures Pad2(n) == [Digit(n / 10), Digit(n % 10)]
  {
    if n < 10 {
      DigitText(n);
    } else {
      hide Decimal;
      MoreDigits(n);
      DigitText(n / 10);
    }
  }

  lemma FourDigitText(n: int)
    requires 1000 <= n <= 9999
    ensures PrintInt(n) == [Digit(n / 1000), Digit(n / 100 % 10), Digit(n / 10 % 10), Digit(n % 10)]
  {
    hide Decimal;
    MoreDigits(n);
    MoreDigits(n / 10);
    assert n / 10 / 10 == n / 100;
    MoreDigits(n / 100);
    assert n / 100 / 10 == n / 1000;
    DigitText(n / 1000);
  }

  /** Year, month from 1, day, `T`, hours, minutes, seconds and `Z`, from left to right. */
  lemma FieldsText(f: Fields)
    requires ValidFields(f) && 1000 <= f.year <= 9999
    ensures PrintFields(f)
         == [Digit(f.year / 1000), Digit(f.year / 100 % 10), Digit(f.year / 10 % 10), Digit(f.year % 10)]
            + [Digit((f.month + 1) / 10), Digit((f.month + 1) % 10), Digit(f.date / 10), Digit(f.date % 10), 'T']
            + [Digit(f.hour / 10), Digit(f.hour % 10), Digit(f.minute / 10), Digit(f.minute % 10)]
            + [Digit(f.second / 10), Digit(f.second % 10), 'Z']
  {
    hide Pad2, PrintInt, Digit;
    FourDigitText(f.year);
    Pad2Text(f.month + 1);
    Pad2Text(f.date);
    Pad2Text(f.hour);
    Pad2Text(f.minute);
    Pad2Text(f.second);
  }

  /** A time is printed by the fields it was made from. */
  lemma DateText(f: Fields, ms: int)
    requires ValidFields(f) && 1000 <= f.year <= 9999 && 0 <= ms <= 999
    ensures ToICalDate(Utc(f) + ms)
         == [Digit(f.year / 1000), Digit(f.year / 100 % 10), Digit(f.year / 10 % 10), Digit(f.year % 10)]
            + [Digit((f.month + 1) / 10), Digit((f.month + 1) % 10), Digit(f.date / 10), Digit(f.date % 10), 'T']
            + [Digit(f.hour / 10), Digit(f.hour % 10), Digit(f.minute / 10), Digit(f.minute % 10)]
            + [Digit(f.second / 10), Digit(f.second % 10), 'Z']
  {
    hide Utc, FieldsOf, PrintFields, Digit;
    FieldsOfUtc(f, ms);
    FieldsText(f);
  }

  lemma ReadDateOnly(value: string, year: string, month: string, day: string, fallback: string -> int)
    requires DigitsOnly(year, 4) && DigitsOnly(month, 2) && DigitsOnly(day, 2)
    requires Cleaned(value) == year + month + day
    ensures ParseICalDate(value, fallback)
         == UtcOrNaN(ParseInt(year), ParseInt(month), ParseInt(day), At(0), At(0), At(0))
  {
    hide Cleaned, ParseInt, UtcOrNaN;
    var c := Cleaned(value);
    assert c[0..4] == year && c[4..6] == month && c[6..8] == day;
  }

  /** A date without a time, with or without separators, is midnight of that day. */
  lemma DateOnly(value: string, f: Fields, fallback: string -> int)
    requires ValidFields(f) && 1000 <= f.year <= 9999 && f.hour == 0 && f.minute == 0 && f.second == 0
    requires Cleaned(value) == PrintInt(f.year) + Pad2(f.month + 1) + Pad2(f.date)
    ensures ParseICalDate(value, fallback) == At(Utc(f)) && FieldsOf(Utc(f)) == f
  {
    hide Cleaned, Utc, FieldsOf, ParseInt, PrintInt, Pad2;
    FourDigits(f.year);
    TwoDigits(f.month + 1);
    TwoDigits(f.date);
    ReadDateOnly(value, PrintInt(f.year), Pad2(f.month + 1), Pad2(f.date), fallback);
    FieldsOfUtc(f, 0);
  }

  lemma {:induction false} CleanedJoin(a: string, b: string)
    ensures Cleaned(a + b) == Cleaned(a) + Cleaned(b)
  {
    hide DateCharacter;
    if a == "" {
      assert a + b == b && Cleaned(a) == "";
    } else {
      var s := a + b;
      CleanedJoin(a[1..], b);
      assert s != "" && s[0] == a[0] && s[1..] == a[1..] + b;
    }
  }

  /** Of a date only the digits, `T` and `Z` are read, in their order. */
  lemma CleanedTold(a: string, c: char, b: string)
    ensures Cleaned("") == ""
    ensures Cleaned(a + [c] + b) == Cleaned(a) + (if c in "0123456789TZ" then [c] else "") + Cleaned(b)
  {
    CleanedJoin(a + [c], b);
    CleanedJoin(a, [c]);
    CleanedOne(c);
  }

  lemma CleanedOne(c: char)
    ensures Cleaned([c]) == if c in "0123456789TZ" then [c] else ""
  {
    assert [c][1..] == "";
    if IsDigit(c) {
      assert DIGITS[DigitValue(c)] == c;
    }
  }

  lemma ReadDateTime(value: string, y: string, mo: string, d: string, h: string, mi: string, s: string, rest: string,
                     fallback: string -> int)
    requires DigitsOnly(y, 4) && DigitsOnly(mo, 2) && DigitsOnly(d, 2)
    requires DigitsOnly(h, 2) && DigitsOnly(mi, 2) && DigitsOnly(s, 2)
    requires Cleaned(value) == y + mo + d + "T" + h + mi + s + rest
    ensures ParseICalDate(value, fallback)
         == UtcOrNaN(ParseInt(y), ParseInt(mo), ParseInt(d), ParseInt(h), ParseInt(mi), ParseInt(s))
  {
    hide Cleaned, ParseInt, UtcOrNaN;
    var c := Cleaned(value);
    assert c[0..4] == y && c[4..6] == mo && c[6..8] == d;
    assert c[9..11] == h && c[11..13] == mi && c[13..15] == s;
  }

  /** A date with a time is read in UTC whether or not a `Z` or anything else follows, with or without separators. */
  lemma DateAndTime(value: string, f: Fields, rest: string, fallback: string -> int)
    requires ValidFields(f) && 1000 <= f.year <= 9999
    requires Cleaned(value) == PrintInt(f.year) + Pad2(f.month + 1) + Pad2(f.date) + "T" + Pad2(f.hour)
                               + Pad2(f.minute) + Pad2(f.second) + rest
    ensures ParseICalDate(value, fallback) == At(Utc(f)) && FieldsOf(Utc(f)) == f
  {
    hide Cleaned, Utc, FieldsOf, ParseInt, PrintInt, Pad2;
    FourDigits(f.year);
    TwoDigits(f.month + 1);
    TwoDigits(f.date);
    TwoDigits(f.hour);
    TwoDigits(f.minute);
    TwoDigits(f.second);
    ReadDateTime(value, PrintInt(f.year), Pad2(f.month + 1), Pad2(f.date), Pad2(f.hour), Pad2(f.minute),
                 Pad2(f.second), rest, fallback);
    FieldsOfUtc(f, 0);
  }

  // ---------- triggers ----------

  /** The digits of the leftmost match of one or more digits followed by `letter`. */
  function NumberBefore(s: string, letter: char): (r: string)
    ensures forall c <- r :: IsDigit(c)
  {
    if s == [] then []
    else
      var d := LeadingDigits(s);
      if d != [] && |d| < |s| && s[|d|] == letter then d else NumberBefore(s[1..], letter)
  }

  /** The digits of the leftmost match of 'P', one or more digits and 'D'. */
  function DaysAfterP(s: string): (r: string)
    ensures forall c <- r :: IsDigit(c)
  {
    if s == [] then []
    else
      var d := LeadingDigits(s[1..]);
      if s[0] == 'P' && d != [] && |d| + 1 < |s| && s[|d| + 1] == 'D' then d else DaysAfterP(s[1..])
  }

  /** Minutes before the event; positive for a trigger with a leading minus sign. */
  function ParseTrigger(value: string): int {
    var negative := value != [] && value[0] == '-';
    var cleaned := if negative then value[1..] else value;
    var minutes := ParseDecimal(DaysAfterP(cleaned)) * 1440
                 + ParseDecimal(NumberBefore(cleaned, 'H')) * 60
                 + ParseDecimal(NumberBefore(cleaned, 'M'));
    if negative then minutes else -minutes
  }

  function TriggerOf(minutes: nat): string {
    "-PT" + Decimal(minutes) + "M"
  }

  lemma {:induction false} LeadingDigitsThen(d: string, c: char)
    requires (forall x <- d :: IsDigit(x)) && !IsDigit(c)
    ensures LeadingDigits(d + [c]) == d
  {
    if d == [] {
      assert d + [c] == [c];
    } else {
      assert (d + [c])[1..] == d[1..] + [c];
      LeadingDigitsThen(d[1..], c);
    }
  }

  lemma {:induction false} NoNumberBefore(s: string, letter: char)
    requires letter !in s
    ensures NumberBefore(s, letter) == []
  {
    if s != [] {
      NoNumberBefore(s[1..], letter);
    }
  }

  lemma {:induction false} NoDays(s: string)
    requires 'D' !in s
    ensures DaysAfterP(s) == []
  {
    if s != [] {
      NoDays(s[1..]);
    }
  }

  lemma {:induction false} FirstNumber(prefix: string, d: string)
    requires d != [] && (forall x <- d :: IsDigit(x))
    requires forall i | 0 <= i < |prefix| :: !IsDigit(prefix[i])
    ensures NumberBefore(prefix + (d + "M"), 'M') == d
  {
    var s := prefix + (d + "M");
    if prefix == [] {
      assert s == d + ['M'];
      LeadingDigitsThen(d, 'M');
    } else {
      assert s[1..] == prefix[1..] + (d + "M");
      FirstNumber(prefix[1..], d);
    }
  }

  /** Main result: parsing a printed trigger recovers the minutes. */
  lemma TriggerRoundTrip(n: nat)
    ensures ParseTrigger(TriggerOf(n)) == n
  {
    var d := Decimal(n);
    var s := "PT" + (d + "M");
    assert TriggerOf(n)[1..] == s;
    NoDays(s);
    NoNumberBefore(s, 'H');
    FirstNumber("PT", d);
    ParseDecimalInverse(n);
    assert ParseDecimal([]) == 0;
  }

  // ---------- triggers with days, hours and minutes ----------

  function Numbered(n: nat, letter: char): string {
    Decimal(n) + [letter]
  }

  /** A duration in days, hours and minutes, in the order of section 3.3.6 of RFC 5545. */
  function Duration(days: nat, hours: nat, minutes: nat): string {
    "P" + Numbered(days, 'D') + "T" + Numbered(hours, 'H') + Numbered(minutes, 'M')
  }

  /** The digits before a letter, when other numbers with other letters come first. */
  lemma SkipNumber(d: string, other: char, rest: string, letter: char)
    requires (forall x <- d :: IsDigit(x)) && !IsDigit(other) && !IsDigit(letter) && other != letter
    ensures NumberBefore(d + [other] + rest, letter) == NumberBefore(rest, letter)
    decreases |d|
  {
    var s := d + [other] + rest;
    LeadingDigitsWithin(d, other, rest);
    if d == [] {
      assert s[1..] == rest;
    } else {
      assert s[1..] == d[1..] + [other] + rest;
      SkipNumber(d[1..], other, rest, letter);
    }
  }

  lemma LeadingDigitsWithin(d: string, c: char, rest: string)
    requires (forall x <- d :: IsDigit(x)) && !IsDigit(c)
    ensures LeadingDigits(d + [c] + rest) == d
    decreases |d|
  {
    var s := d + [c] + rest;
    if d != [] {
      assert s[1..] == d[1..] + [c] + rest;
      LeadingDigitsWithin(d[1..], c, rest);
    }
  }

  lemma TakeNumber(d: string, letter: char, rest: string)
    requires d != [] && (forall x <- d :: IsDigit(x)) && !IsDigit(letter)
    ensures NumberBefore(d + [letter] + rest, letter) == d
  {
    LeadingDigitsWithin(d, letter, rest);
  }

  /** Days count 1440 minutes, hours 60, and a leading minus sign means before the event. */
  lemma TriggerUnits(days: nat, hours: nat, minutes: nat)
    ensures ParseTrigger("-" + Duration(days, hours, minutes)) == days * 1440 + hours * 60 + minutes
    ensures ParseTrigger(Duration(days, hours, minutes)) == -(days * 1440 + hours * 60 + minutes)
  {
    hide NumberBefore, LeadingDigits, DaysAfterP, Decimal, ParseDecimal;
    var d, h, m := Decimal(days), Decimal(hours), Decimal(minutes);
    var s := Duration(days, hours, minutes);
    ParseDecimalInverse(days);
    ParseDecimalInverse(hours);
    ParseDecimalInverse(minutes);
    assert ("-" + s)[1..] == s;
    DaysRead(d, "T" + h + "H" + m + "M");
    assert s == "P" + d + "D" + ("T" + h + "H" + m + "M");
    NumberRead(d, h, m, s);
  }

  lemma DaysRead(d: string, rest: string)
    requires d != [] && forall x <- d :: IsDigit(x)
    ensures DaysAfterP("P" + d + "D" + rest) == d
  {
    var s := "P" + d + "D" + rest;
    assert s[1..] == d + ['D'] + rest;
    LeadingDigitsWithin(d, 'D', rest);
  }

  lemma NumberRead(d: string, h: string, m: string, s: string)
    requires h != [] && m != []
    requires (forall x <- d :: IsDigit(x)) && (forall x <- h :: IsDigit(x)) && (forall x <- m :: IsDigit(x))
    requires s == "P" + d + "D" + ("T" + h + "H" + m + "M")
    ensures NumberBefore(s, 'H') == h && NumberBefore(s, 'M') == m
  {
    hide NumberBefore;
    var hours, last := h + ['H'] + (m + ['M']), m + ['M'] + [];
    assert s == [] + ['P'] + (d + ['D'] + ([] + ['T'] + hours));
    forall letter | letter in {'H', 'M'}
      ensures NumberBefore(s, letter) == NumberBefore(hours, letter)
    {
      SkipNumber([], 'P', d + ['D'] + ([] + ['T'] + hours), letter);
      SkipNumber(d, 'D', [] + ['T'] + hours, letter);
      SkipNumber([], 'T', hours, letter);
    }
    TakeNumber(h, 'H', m + ['M']);
    SkipNumber(h, 'H', m + ['M'], 'M');
    assert m + ['M'] == last;
    TakeNumber(m, 'M', []);
  }
}
