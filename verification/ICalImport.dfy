/** What an import reads (src/calendar-ical.ts), told from the lines of the file: files of other programs too, which
    need not look like exported ones. */
module ICalImport {
  import opened Text
  import opened ICalText
  import opened ICalValue
  import opened ICalLine
  import opened ICalendar
  import opened ICalRoundTrip
  import opened Wrappers

  // ---------- one line ----------

  /** A line without a colon has no value, and its name keeps its case. */
  lemma BareLine(line: string)
    requires ':' !in line
    ensures ContentLineOf(line) == ParsedLine(line, map[], "")
  {
  }

  /** The first equals sign. */
  predicate EqualsAt(part: string, k: int) {
    0 <= k < |part| && part[k] == '=' && '=' !in part[..k]
  }

  /** `part` is `key=v`, the key in any case. */
  predicate Sets(part: string, key: string, v: string) {
    exists k | 0 <= k < |part| :: EqualsAt(part, k) && Upper(part[..k]) == key && part[k + 1..] == v
  }

  predicate SetsKey(part: string, key: string) {
    exists k | 0 <= k < |part| :: EqualsAt(part, k) && Upper(part[..k]) == key
  }

  lemma OneFirstEquals(part: string, k: int)
    ensures EqualsAt(part, k) <==> k >= 0 && IndexOf(part, '=') == k
  {
    if EqualsAt(part, k) {
      IndexOfAt(part[..k], '=', part[k + 1..]);
      assert part == part[..k] + ['='] + part[k + 1..];
    }
  }

  lemma KeyAtFirstEquals(part: string, key: string)
    ensures var eq := IndexOf(part, '=');
            (SetsKey(part, key) <==> eq >= 0 && Upper(part[..eq]) == key)
            && (SetsKey(part, key) ==> Sets(part, key, part[eq + 1..]))
  {
    hide Upper, IndexOf, EqualsAt;
    var eq := IndexOf(part, '=');
    OneFirstEquals(part, eq);
    if SetsKey(part, key) {
      var k :| 0 <= k < |part| && EqualsAt(part, k) && Upper(part[..k]) == key;
      OneFirstEquals(part, k);
    }
  }

  lemma AddParamTold(params: map<string, string>, part: string, key: string)
    ensures !SetsKey(part, key) ==> (key in AddParam(params, part) <==> key in params)
    ensures !SetsKey(part, key) && key in params ==> AddParam(params, part)[key] == params[key]
    ensures SetsKey(part, key) ==> key in AddParam(params, part) && Sets(part, key, AddParam(params, part)[key])
  {
    hide Upper, IndexOf, SetsKey, Sets;
    KeyAtFirstEquals(part, key);
  }

  /** The part at `i` sets the key, and no later one does. */
  predicate LastToSet(parts: seq<string>, i: nat, key: string)
    requires i < |parts|
  {
    SetsKey(parts[i], key) && forall j | i < j < |parts| :: !SetsKey(parts[j], key)
  }

  /** Of several parameters with one key the last one counts; parts without an equals sign are none. */
  lemma {:induction false} ParamsTold(parts: seq<string>, key: string)
    ensures key in ParamsOf(parts) ==> exists i | 0 <= i < |parts| :: LastToSet(parts, i, key)
    ensures forall i | 0 <= i < |parts| && LastToSet(parts, i, key) ::
              key in ParamsOf(parts) && Sets(parts[i], key, ParamsOf(parts)[key])
  {
    hide AddParam, SetsKey, Sets;
    if parts != [] {
      var n := |parts| - 1;
      var front := parts[..n];
      ParamsTold(front, key);
      AddParamTold(ParamsOf(front), parts[n], key);
      if SetsKey(parts[n], key) {
        assert LastToSet(parts, n, key);
      } else if key in ParamsOf(front) {
        var i :| 0 <= i < n && LastToSet(front, i, key);
        assert LastToSet(parts, i, key);
      }
      forall i | 0 <= i < |parts| && LastToSet(parts, i, key)
        ensures key in ParamsOf(parts) && Sets(parts[i], key, ParamsOf(parts)[key])
      {
        if i < n {
          assert !SetsKey(parts[n], key);
          assert LastToSet(front, i, key);
        }
      }
    }
  }

  /** The value follows the first colon, the parameters the first semicolon before it; a name is read in any case. */
  lemma LineTold(name: string, parts: seq<string>, value: string)
    requires ':' !in name && ';' !in name && |parts| > 0
    requires forall i | 0 <= i < |parts| :: ':' !in parts[i] && ';' !in parts[i]
    ensures ContentLineOf(name + ":" + value) == ParsedLine(Upper(name), map[], value)
    ensures ContentLineOf(name + ";" + Join(parts, ";") + ":" + value)
         == ParsedLine(Upper(name), ParamsOf(parts), value)
  {
    hide ContentLineOf, ParamsOf, Split, Join;
    SimpleLine(name, value);
    JoinWithout(parts, ";", ':');
    LineWithParams(name, Join(parts, ";"), value);
    assert forall p <- parts :: ';' !in p;
    SplitJoin(parts, ';');
    assert [';'] == ";";
  }

  lemma {:induction false} JoinWithout(parts: seq<string>, sep: string, c: char)
    requires c !in sep && forall i | 0 <= i < |parts| :: c !in parts[i]
    ensures c !in Join(parts, sep)
  {
    if |parts| > 1 {
      JoinWithout(parts[1..], sep, c);
    }
  }

  // ---------- the lines of an event ----------

  const START: Scan := Scan(EMPTY, false, 0)

  /** An alarm has begun at `j` and has not ended. */
  predicate OpensAt(seen: seq<string>, j: int) {
    0 <= j < |seen| && seen[j] == "BEGIN:VALARM" && "END:VALARM" !in seen[j + 1..]
  }

  predicate InAlarm(seen: seq<string>) {
    exists j | 0 <= j < |seen| :: OpensAt(seen, j)
  }

  /** The lines of one property, those of alarms left out, in order. */
  function Of(lines: seq<string>, name: string): seq<ParsedLine> {
    if lines == [] then []
    else
      var n := |lines| - 1;
      Of(lines[..n], name)
      + if !InAlarm(lines[..n]) && ContentLineOf(lines[n]).name == name then [ContentLineOf(lines[n])] else []
  }

  /** The trigger of an alarm that ends here, 0 if it has none: the last one since the alarm before. */
  function TriggerHere(lines: seq<string>): int {
    if lines == [] then 0
    else
      var n := |lines| - 1;
      if lines[n] == "END:VALARM" then 0
      else if InAlarm(lines[..n]) && ContentLineOf(lines[n]).name == "TRIGGER" then
        ParseTrigger(ContentLineOf(lines[n]).value)
      else TriggerHere(lines[..n])
  }

  /** A reminder in the chat for each alarm that comes before the event. */
  function AlarmsIn(lines: seq<string>): seq<Reminder> {
    if lines == [] then []
    else
      var n := |lines| - 1;
      AlarmsIn(lines[..n])
      + if lines[n] == "END:VALARM" && TriggerHere(lines[..n]) > 0 then [Reminder(TriggerHere(lines[..n]), Chat)]
        else []
  }

  lemma ScanSnoc(lines: seq<string>, fallback: string -> int)
    requires lines != []
    ensures var n := |lines| - 1;
            ScanLines(START, lines, fallback) == ScanLine(ScanLines(START, lines[..n], fallback), lines[n], fallback)
  {
    hide ScanLine, ScanLines;
    var n := |lines| - 1;
    ScanAppend(START, lines[..n], [lines[n]], fallback);
    ScanOne(ScanLines(START, lines[..n], fallback), lines[n], fallback);
    assert lines[..n] + [lines[n]] == lines;
  }

  lemma OpensAtStep(seen: seq<string>, line: string, j: int)
    requires j < |seen|
    ensures OpensAt(seen + [line], j) <==> line != "END:VALARM" && OpensAt(seen, j)
  {
    if 0 <= j {
      assert (seen + [line])[j + 1..] == seen[j + 1..] + [line];
    }
  }

  lemma InAlarmStep(seen: seq<string>, line: string)
    ensures InAlarm(seen + [line]) <==> line == "BEGIN:VALARM" || (line != "END:VALARM" && InAlarm(seen))
  {
    forall j | j < |seen|
      ensures OpensAt(seen + [line], j) <==> line != "END:VALARM" && OpensAt(seen, j)
    {
      OpensAtStep(seen, line, j);
    }
    assert OpensAt(seen + [line], |seen|) <==> line == "BEGIN:VALARM";
    if line != "END:VALARM" && InAlarm(seen) {
      var j :| 0 <= j < |seen| && OpensAt(seen, j);
      OpensAtStep(seen, line, j);
    }
  }

  lemma {:induction false} AlarmState(lines: seq<string>, fallback: string -> int)
    ensures ScanLines(START, lines, fallback).inAlarm <==> InAlarm(lines)
  {
    hide ContentLineOf, ApplyProperty, ParseTrigger;
    if lines != [] {
      var n := |lines| - 1;
      AlarmState(lines[..n], fallback);
      ScanSnoc(lines, fallback);
      InAlarmStep(lines[..n], lines[n]);
      assert lines[..n] + [lines[n]] == lines;
    }
  }

  lemma AlarmBoundNames()
    ensures ContentLineOf("BEGIN:VALARM").name == "BEGIN" && ContentLineOf("END:VALARM").name == "END"
  {
    hide ContentLineOf;
    BoundNames();
    KeywordFacts("BEGIN");
    KeywordFacts("END");
    SimpleLine("BEGIN", "VALARM");
    SimpleLine("END", "VALARM");
  }

  /** Two events that differ at most in their reminders. */
  predicate SameButReminders(e: ParsedEvent, f: ParsedEvent) {
    e.(reminders := []) == f.(reminders := [])
  }

  function NameOf(p: Property): string {
    match p
    case Uid => "UID"
    case Summary => "SUMMARY"
    case Description => "DESCRIPTION"
    case DtStart => "DTSTART"
    case DtEnd => "DTEND"
    case RRule => "RRULE"
    case Organizer => "ORGANIZER"
    case Participant => "ATTENDEE"
    case Location => "LOCATION"
    case Categories => "CATEGORIES"
    case Status => "STATUS"
    case Unknown => ""
  }

  lemma PropertyNamed(name: string, p: Property)
    requires p != Unknown
    ensures PropertyOf(name) == p <==> name == NameOf(p)
  {
  }

  lemma NotABoundName(p: Property)
    ensures NameOf(p) != "BEGIN" && NameOf(p) != "END"
  {
  }

  /** A field that one property sets, and nothing else. */
  ghost predicate SetBy<T(!new)>(get: ParsedEvent -> T, value: ParsedLine -> T, prop: Property, fallback: string -> int) {
    && (forall e: ParsedEvent, p: ParsedLine ::
          get(ApplyProperty(e, p, fallback)) == if PropertyOf(p.name) == prop then value(p) else get(e))
    && (forall e: ParsedEvent, f: ParsedEvent :: SameButReminders(e, f) ==> get(e) == get(f))
  }

  lemma FieldStep<T(!new)>(s: Scan, line: string, get: ParsedEvent -> T, value: ParsedLine -> T, prop: Property,
                           fallback: string -> int)
    requires prop != Unknown && SetBy(get, value, prop, fallback)
    ensures get(ScanLine(s, line, fallback).event)
         == if !s.inAlarm && ContentLineOf(line).name == NameOf(prop) then value(ContentLineOf(line)) else get(s.event)
  {
    hide ContentLineOf, ApplyProperty, ParseTrigger, NameOf, PropertyOf;
    AlarmBoundNames();
    NotABoundName(prop);
    var next := ScanLine(s, line, fallback).event;
    if line == "BEGIN:VALARM" || line == "END:VALARM" || s.inAlarm {
      assert SameButReminders(next, s.event);
    } else {
      assert next == ApplyProperty(s.event, ContentLineOf(line), fallback);
      PropertyNamed(ContentLineOf(line).name, prop);
    }
  }

  /** The last line of the property counts. */
  lemma {:induction false} LastCounts<T(!new)>(lines: seq<string>, get: ParsedEvent -> T, value: ParsedLine -> T,
                                         prop: Property, fallback: string -> int)
    requires prop != Unknown && SetBy(get, value, prop, fallback)
    ensures var l := Of(lines, NameOf(prop));
            get(ScanLines(START, lines, fallback).event) == if l == [] then get(EMPTY) else value(l[|l| - 1])
  {
    hide ContentLineOf, ScanLine, ScanLines, SetBy, InAlarm, NameOf;
    if lines == [] {
      NothingScanned(fallback);
    } else {
      var n := |lines| - 1;
      LastCounts(lines[..n], get, value, prop, fallback);
      ScanSnoc(lines, fallback);
      AlarmState(lines[..n], fallback);
      FieldStep(ScanLines(START, lines[..n], fallback), lines[n], get, value, prop, fallback);
      OfStep(lines, NameOf(prop));
    }
  }

  lemma NothingScanned(fallback: string -> int)
    ensures ScanLines(START, [], fallback) == START
  {
  }

  lemma AttendeeStep(s: Scan, line: string, fallback: string -> int)
    ensures ScanLine(s, line, fallback).event.attendees
         == s.event.attendees
            + if !s.inAlarm && ContentLineOf(line).name == "ATTENDEE" then [ParsedAttendee(ContentLineOf(line))] else []
  {
    hide ContentLineOf, ParseTrigger, ParsedAttendee, ParsedCategories, ParsedStatus, ParseICalDate, UnescapeText,
      BeforeAt, StripMailto, Param, PropertyOf;
    AlarmBoundNames();
    PropertyNamed(ContentLineOf(line).name, Participant);
  }

  lemma {:induction false} AttendeesRead(lines: seq<string>, fallback: string -> int)
    ensures var l, a := Of(lines, "ATTENDEE"), ScanLines(START, lines, fallback).event.attendees;
            |a| == |l| && forall i | 0 <= i < |l| :: a[i] == ParsedAttendee(l[i])
  {
    hide ContentLineOf, ScanLine, ScanLines, InAlarm, ParsedAttendee;
    if lines == [] {
      NothingScanned(fallback);
    } else {
      var n := |lines| - 1;
      AttendeesRead(lines[..n], fallback);
      ScanSnoc(lines, fallback);
      AlarmState(lines[..n], fallback);
      AttendeeStep(ScanLines(START, lines[..n], fallback), lines[n], fallback);
    }
  }

  lemma AlarmStep(s: Scan, line: string, fallback: string -> int)
    ensures var next := ScanLine(s, line, fallback);
            next.event.reminders
            == s.event.reminders
               + (if line == "END:VALARM" && s.alarmTrigger > 0 then [Reminder(s.alarmTrigger, Chat)] else [])
            && next.alarmTrigger
            == if line == "END:VALARM" then 0
               else if s.inAlarm && ContentLineOf(line).name == "TRIGGER" then ParseTrigger(ContentLineOf(line).value)
               else s.alarmTrigger
  {
    hide ContentLineOf, ParseTrigger, ParsedAttendee, ParsedCategories, ParsedStatus, ParseICalDate, UnescapeText,
      BeforeAt, StripMailto, Param, PropertyOf;
    AlarmBoundNames();
  }

  lemma {:induction false} AlarmsRead(lines: seq<string>, fallback: string -> int)
    ensures ScanLines(START, lines, fallback).alarmTrigger == TriggerHere(lines)
    ensures ScanLines(START, lines, fallback).event.reminders == AlarmsIn(lines)
  {
    hide ContentLineOf, ParseTrigger, InAlarm, ScanLine, ScanLines;
    if lines == [] {
      NothingScanned(fallback);
    } else {
      var n := |lines| - 1;
      AlarmsRead(lines[..n], fallback);
      ScanSnoc(lines, fallback);
      AlarmState(lines[..n], fallback);
      AlarmStep(ScanLines(START, lines[..n], fallback), lines[n], fallback);
    }
  }

  /** The time zone of the event is that of its last start that has one. */
  function ZoneIn(starts: seq<ParsedLine>): string {
    if starts == [] then "UTC"
    else
      var p := starts[|starts| - 1];
      if "TZID" in p.params && p.params["TZID"] != "" then p.params["TZID"] else ZoneIn(starts[..|starts| - 1])
  }

  lemma ZoneStep(s: Scan, line: string, fallback: string -> int)
    ensures var p, zone := ContentLineOf(line), ScanLine(s, line, fallback).event.timezone;
            zone == if !s.inAlarm && p.name == "DTSTART" && "TZID" in p.params && p.params["TZID"] != ""
                    then p.params["TZID"] else s.event.timezone
  {
    hide ContentLineOf, ParseTrigger, ParsedAttendee, ParsedCategories, ParsedStatus, ParseICalDate, UnescapeText,
      BeforeAt, StripMailto, PropertyOf;
    AlarmBoundNames();
    PropertyNamed(ContentLineOf(line).name, DtStart);
  }

  lemma {:induction false} ZoneRead(lines: seq<string>, fallback: string -> int)
    ensures ScanLines(START, lines, fallback).event.timezone == ZoneIn(Of(lines, "DTSTART"))
  {
    hide ContentLineOf, ScanLine, ScanLines, InAlarm;
    if lines == [] {
      NothingScanned(fallback);
    } else {
      var n := |lines| - 1;
      ZoneRead(lines[..n], fallback);
      ScanSnoc(lines, fallback);
      AlarmState(lines[..n], fallback);
      ZoneStep(ScanLines(START, lines[..n], fallback), lines[n], fallback);
      OfStep(lines, "DTSTART");
      ZoneSnoc(Of(lines[..n], "DTSTART"), ContentLineOf(lines[n]));
    }
  }

  lemma OfStep(lines: seq<string>, name: string)
    requires lines != []
    ensures var n, l := |lines| - 1, Of(lines, name);
            l == if !InAlarm(lines[..n]) && ContentLineOf(lines[n]).name == name
                 then Of(lines[..n], name) + [ContentLineOf(lines[n])] else Of(lines[..n], name)
  {
    hide ContentLineOf, InAlarm;
  }

  lemma ZoneSnoc(starts: seq<ParsedLine>, p: ParsedLine)
    ensures ZoneIn(starts + [p])
         == if "TZID" in p.params && p.params["TZID"] != "" then p.params["TZID"] else ZoneIn(starts)
  {
    assert (starts + [p])[..|starts|] == starts;
  }

  /** The text of the last line of a property. */
  predicate ReadsText(text: string, lines: seq<string>, name: string) {
    var l := Of(lines, name);
    text == if l == [] then "" else UnescapeText(l[|l| - 1].value)
  }

  lemma TextRead(lines: seq<string>, get: ParsedEvent -> string, prop: Property, fallback: string -> int)
    requires prop != Unknown && SetBy(get, (p: ParsedLine) => UnescapeText(p.value), prop, fallback)
    requires get(EMPTY) == ""
    ensures ReadsText(get(ScanLines(START, lines, fallback).event), lines, NameOf(prop))
  {
    hide UnescapeText;
    LastCounts(lines, get, (p: ParsedLine) => UnescapeText(p.value), prop, fallback);
  }

  lemma TextsRead(lines: seq<string>, fallback: string -> int)
    ensures var e := ScanLines(START, lines, fallback).event;
            ReadsText(e.summary, lines, "SUMMARY") && ReadsText(e.description, lines, "DESCRIPTION")
            && ReadsText(e.location, lines, "LOCATION")
  {
    hide ScanLines, ReadsText, Of, ContentLineOf, ParsedAttendee, ParsedCategories, ParsedStatus, ParseICalDate,
      UnescapeText, BeforeAt, StripMailto, Param, PropertyOf;
    TextRead(lines, (e: ParsedEvent) => e.summary, Summary, fallback);
    TextRead(lines, (e: ParsedEvent) => e.description, Description, fallback);
    TextRead(lines, (e: ParsedEvent) => e.location, Location, fallback);
  }

  /** The last value of a property as it stands, if it is there at all. */
  function ValueOf(lines: seq<string>, name: string): Option<string> {
    var l := Of(lines, name);
    if l == [] then None else Some(l[|l| - 1].value)
  }

  lemma ValuesRead(lines: seq<string>, fallback: string -> int)
    ensures var e := ScanLines(START, lines, fallback).event;
            e.uid == ValueOf(lines, "UID") && e.rrule == ValueOf(lines, "RRULE")
  {
    hide ScanLines, Of, ContentLineOf, ParsedAttendee, ParsedCategories, ParsedStatus, ParseICalDate,
      UnescapeText, BeforeAt, StripMailto, Param, PropertyOf;
    LastCounts(lines, (e: ParsedEvent) => e.uid, (p: ParsedLine) => Some(p.value), Uid, fallback);
    LastCounts(lines, (e: ParsedEvent) => e.rrule, (p: ParsedLine) => Some(p.value), RRule, fallback);
  }

  function TimeOf(lines: seq<string>, name: string, fallback: string -> int): Time {
    var l := Of(lines, name);
    if l == [] then At(0) else ParseICalDate(l[|l| - 1].value, fallback)
  }

  lemma TimesRead(lines: seq<string>, fallback: string -> int)
    ensures var e := ScanLines(START, lines, fallback).event;
            e.dtstart == TimeOf(lines, "DTSTART", fallback) && e.dtend == TimeOf(lines, "DTEND", fallback)
  {
    hide ScanLines, Of, ContentLineOf, ParsedAttendee, ParsedCategories, ParsedStatus, ParseICalDate,
      UnescapeText, BeforeAt, StripMailto, Param, PropertyOf;
    LastCounts(lines, (e: ParsedEvent) => e.dtstart, (p: ParsedLine) => ParseICalDate(p.value, fallback),
               DtStart, fallback);
    LastCounts(lines, (e: ParsedEvent) => e.dtend, (p: ParsedLine) => ParseICalDate(p.value, fallback),
               DtEnd, fallback);
  }

  /** The name of a person: the common name, or else the address before its at sign. */
  function NameIn(p: ParsedLine): string {
    if "CN" in p.params && p.params["CN"] != "" then UnescapeText(p.params["CN"]) else BeforeAt(StripMailto(p.value))
  }

  lemma OrganizerRead(lines: seq<string>, fallback: string -> int)
    ensures var e, o := ScanLines(START, lines, fallback).event, Of(lines, "ORGANIZER");
            e.organizer == if o == [] then "" else NameIn(o[|o| - 1])
  {
    hide ScanLines, Of, ContentLineOf, ParsedAttendee, ParsedCategories, ParsedStatus, ParseICalDate,
      UnescapeText, BeforeAt, StripMailto, PropertyOf;
    LastCounts(lines, (e: ParsedEvent) => e.organizer, (p: ParsedLine) => NameIn(p), Organizer, fallback);
  }

  lemma CategoriesRead(lines: seq<string>, fallback: string -> int)
    ensures var e, c := ScanLines(START, lines, fallback).event, Of(lines, "CATEGORIES");
            e.categories == if c == [] then [] else ParsedCategories(c[|c| - 1].value)
  {
    hide ScanLines, Of, ContentLineOf, ParsedAttendee, ParsedCategories, ParsedStatus, ParseICalDate,
      UnescapeText, BeforeAt, StripMailto, PropertyOf;
    LastCounts(lines, (e: ParsedEvent) => e.categories, (p: ParsedLine) => ParsedCategories(p.value),
               Categories, fallback);
  }

  lemma StatusRead(lines: seq<string>, fallback: string -> int)
    ensures var e, s := ScanLines(START, lines, fallback).event, Of(lines, "STATUS");
            e.status == if s == [] then Confirmed else ParsedStatus(s[|s| - 1].value)
  {
    hide ScanLines, Of, ContentLineOf, ParsedAttendee, ParsedCategories, ParsedStatus, ParseICalDate,
      UnescapeText, BeforeAt, StripMailto, PropertyOf;
    LastCounts(lines, (e: ParsedEvent) => e.status, (p: ParsedLine) => ParsedStatus(p.value), Status, fallback);
  }

  /** The status is one of three, in any case, and confirmed unless told otherwise. */
  lemma StatusTold(value: string)
    ensures ParsedStatus(value) == EventStatus.Tentative <==> Upper(value) == "TENTATIVE"
    ensures ParsedStatus(value) == Cancelled <==> Upper(value) == "CANCELLED"
  {
  }

  lemma {:induction false} SplitTold(s: string, c: char)
    ensures Join(Split(s, c), [c]) == s && forall part <- Split(s, c) :: c !in part
  {
    if s != [] {
      SplitTold(s[1..], c);
      assert s == [s[0]] + s[1..];
    }
  }

  /** Categories stand between commas; white space around them does not count. */
  lemma CategoriesTold(value: string)
    ensures exists parts: seq<string> ::
              Join(parts, ",") == value && (forall i | 0 <= i < |parts| :: ',' !in parts[i])
              && |ParsedCategories(value)| == |parts| > 0
              && forall i | 0 <= i < |parts| :: ParsedCategories(value)[i] == UnescapeText(Trim(parts[i]))
  {
    hide Join, Split, Trim, UnescapeText;
    SplitTold(value, ',');
    var parts := Split(value, ',');
    assert [','] == ",";
    assert Join(parts, ",") == value;
  }

  lemma BeforeAtTold(user: string, host: string)
    requires '@' !in user
    ensures BeforeAt(user + "@" + host) == user && BeforeAt(user) == user
  {
    SplitAt(user, '@', host);
    assert user + ['@'] + host == user + "@" + host;
  }

  lemma AddressAfter(prefix: string, address: string)
    requires Lower(prefix) == "mailto:"
    ensures StripMailto(prefix + address) == address
  {
    hide Lower;
    var v := prefix + address;
    assert |prefix| == 7 && v[..7] == prefix && v[7..] == address;
  }

  lemma AddressAlone(address: string)
    requires !("mailto:" <= Lower(address))
    ensures StripMailto(address) == address
  {
    hide Lower;
    if |address| >= 7 {
      assert Lower(address)[..7] == Lower(address[..7]);
    }
  }

  /** An address may follow `mailto:`, in any case, or stand alone. */
  lemma AddressTold(prefix: string, address: string)
    requires Lower(prefix) == "mailto:" || (prefix == "" && !("mailto:" <= Lower(address)))
    ensures StripMailto(prefix + address) == address
  {
    hide StripMailto, Lower;
    if prefix == "" {
      AddressAlone(address);
      assert prefix + address == address;
    } else {
      AddressAfter(prefix, address);
    }
  }

  /** An attendee has a name, the address as it stands, and the answer in any case, none meaning that it is awaited. */
  lemma AttendeeTold(p: ParsedLine)
    ensures var a, answer := ParsedAttendee(p), if "PARTSTAT" in p.params then Lower(p.params["PARTSTAT"]) else "";
            a.name == NameIn(p)
            && a.email == (if StripMailto(p.value) == "" then None else Some(StripMailto(p.value)))
            && (a.status == AttendeeStatus.Accepted <==> answer == "accepted")
            && (a.status == Declined <==> answer == "declined")
            && (a.status == AttendeeStatus.Tentative <==> answer == "tentative")
  {
    hide StripMailto, BeforeAt, UnescapeText;
    assert Lower("NEEDS-ACTION") == "needs-action";
  }

  /** Main result: every field of an imported event, told from the lines of the event. */
  lemma ImportedEvent(lines: seq<string>, fallback: string -> int)
    ensures var e := VEventOf(lines, fallback);
            && ReadsText(e.summary, lines, "SUMMARY") && ReadsText(e.description, lines, "DESCRIPTION")
            && ReadsText(e.location, lines, "LOCATION")
            && e.uid == ValueOf(lines, "UID") && e.rrule == ValueOf(lines, "RRULE")
            && e.timezone == ZoneIn(Of(lines, "DTSTART")) && e.reminders == AlarmsIn(lines)
    ensures var e, o, c, s := VEventOf(lines, fallback), Of(lines, "ORGANIZER"), Of(lines, "CATEGORIES"),
                              Of(lines, "STATUS");
            e.organizer == (if o == [] then "" else NameIn(o[|o| - 1]))
            && e.categories == (if c == [] then [] else ParsedCategories(c[|c| - 1].value))
            && e.status == if s == [] then Confirmed else ParsedStatus(s[|s| - 1].value)
    ensures var l, a := Of(lines, "ATTENDEE"), VEventOf(lines, fallback).attendees;
            |a| == |l| && forall i | 0 <= i < |l| :: a[i] == ParsedAttendee(l[i])
    ensures var e, start, end := VEventOf(lines, fallback), TimeOf(lines, "DTSTART", fallback),
                                 TimeOf(lines, "DTEND", fallback);
            e.dtstart == start
            && e.dtend == if start !in {NaN, At(0)} && end in {NaN, At(0)} then At(start.ms + 3_600_000) else end
  {
    hide ScanLines, Of, ReadsText, ValueOf, TimeOf, ZoneIn, AlarmsIn, NameIn, ParsedAttendee, ParsedCategories,
      ParsedStatus;
    TextsRead(lines, fallback);
    ValuesRead(lines, fallback);
    TimesRead(lines, fallback);
    ZoneRead(lines, fallback);
    AlarmsRead(lines, fallback);
    OrganizerRead(lines, fallback);
    CategoriesRead(lines, fallback);
    StatusRead(lines, fallback);
    AttendeesRead(lines, fallback);
  }

  // ---------- the events of a file ----------

  const NOTHING: FileScan := FileScan([], [], false)

  function EventsIn(lines: seq<string>, fallback: string -> int): seq<ParsedEvent> {
    FileScanned(NOTHING, lines, fallback).events
  }

  lemma {:induction false} FileSnoc(s: FileScan, lines: seq<string>, line: string, fallback: string -> int)
    ensures FileScanned(s, lines + [line], fallback) == FileLine(FileScanned(s, lines, fallback), line, fallback)
    decreases |lines|
  {
    hide FileLine;
    if lines == [] {
      assert ([] + [line])[1..] == [];
      assert FileScanned(FileLine(s, line, fallback), [], fallback) == FileLine(s, line, fallback);
    } else {
      assert (lines + [line])[1..] == lines[1..] + [line];
      FileSnoc(FileLine(s, lines[0], fallback), lines[1..], line, fallback);
    }
  }

  /** The last event begins at `i`, and its lines go up to `j`: to its end, or to the last line seen. */
  predicate BodyAt(seen: seq<string>, i: int, j: int, body: seq<string>) {
    0 <= i < j <= |seen| && seen[i] == "BEGIN:VEVENT" && "BEGIN:VEVENT" !in seen[i + 1..]
    && seen[i + 1..j] == body && "END:VEVENT" !in body && (j < |seen| ==> seen[j] == "END:VEVENT")
  }

  lemma BodyGrows(seen: seq<string>, line: string, i: int, j: int, body: seq<string>)
    requires BodyAt(seen, i, j, body) && line != "BEGIN:VEVENT"
    ensures j < |seen| || line == "END:VEVENT" ==> BodyAt(seen + [line], i, j, body)
    ensures j == |seen| && line != "END:VEVENT" ==> BodyAt(seen + [line], i, j + 1, body + [line])
  {
    assert (seen + [line])[i + 1..] == seen[i + 1..] + [line];
    assert (seen + [line])[i + 1..j] == body;
    if j == |seen| {
      assert (seen + [line])[i + 1..j + 1] == body + [line];
    }
  }

  lemma {:induction false} CollectedTold(lines: seq<string>, fallback: string -> int)
    ensures var s := FileScanned(NOTHING, lines, fallback);
            if "BEGIN:VEVENT" !in lines then s.current == [] && !s.inEvent
            else exists i, j | 0 <= i < j <= |lines| :: BodyAt(lines, i, j, s.current) && (s.inEvent <==> j == |lines|)
  {
    hide BodyAt, VEventOf;
    if lines != [] {
      var n := |lines| - 1;
      var front, line := lines[..n], lines[n];
      var s, t := FileScanned(NOTHING, front, fallback), FileScanned(NOTHING, lines, fallback);
      CollectedTold(front, fallback);
      assert lines == front + [line];
      FileSnoc(NOTHING, front, line, fallback);
      if line == "BEGIN:VEVENT" {
        BodyBegins(front);
        assert BodyAt(lines, n, n + 1, t.current);
      } else if "BEGIN:VEVENT" in front {
        var i, j :| 0 <= i < j <= n && BodyAt(front, i, j, s.current) && (s.inEvent <==> j == n);
        BodyGrows(front, line, i, j, s.current);
        var k := if j == n && line != "END:VEVENT" then n + 1 else j;
        assert BodyAt(lines, i, k, t.current);
      }
    }
  }

  lemma BodyBegins(seen: seq<string>)
    ensures BodyAt(seen + ["BEGIN:VEVENT"], |seen|, |seen| + 1, [])
  {
    var s := seen + ["BEGIN:VEVENT"];
    assert s[|seen| + 1..] == [] && s[|seen| + 1..|seen| + 1] == [];
  }

  /** The lines of the event that ends here: those after the last start of an event and before an end; none where no
      event has begun. */
  predicate EventHere(seen: seq<string>, body: seq<string>) {
    if "BEGIN:VEVENT" !in seen then body == []
    else exists i, j | 0 <= i < j <= |seen| :: BodyAt(seen, i, j, body)
  }

  /** Main result: every end of an event gives one event, read from the lines before it; an end without a start gives
      the event before it once more. */
  lemma ImportedFile(lines: seq<string>, line: string, fallback: string -> int)
    ensures EventsIn([], fallback) == []
    ensures line != "END:VEVENT" ==> EventsIn(lines + [line], fallback) == EventsIn(lines, fallback)
    ensures line == "END:VEVENT" ==>
              exists body ::
                EventHere(lines, body)
                && EventsIn(lines + [line], fallback) == EventsIn(lines, fallback) + [VEventOf(body, fallback)]
  {
    hide BodyAt, VEventOf;
    FileSnoc(NOTHING, lines, line, fallback);
    CollectedTold(lines, fallback);
    assert EventHere(lines, FileScanned(NOTHING, lines, fallback).current);
  }
}
