/** What importing an exported calendar yields (src/calendar-ical.ts). */
module ICalRoundTrip {
  import opened Text
  import opened ICalText
  import opened ICalFold
  import opened ICalValue
  import opened UtcDate
  import opened ICalLine
  import opened ICalendar
  import opened Wrappers

  // ---------- the imported event ----------

  function Seconds(t: int): int {
    t - t % 1000
  }

  function RecoveredEnd(e: Event): int {
    if Seconds(e.dtstart) != 0 && Seconds(e.dtend) == 0 then Seconds(e.dtstart) + 60 * 60 * 1000
    else Seconds(e.dtend)
  }

  function RecoveredAttendee(a: Attendee): Attendee {
    Attendee(if a.name == "" then BeforeAt(EmailOf(a)) else Damaged(a.name), Some(EmailOf(a)), a.status)
  }

  function RecoveredAttendees(attendees: seq<Attendee>): seq<Attendee> {
    seq(|attendees|, i requires 0 <= i < |attendees| => RecoveredAttendee(attendees[i]))
  }

  function DamagedAll(texts: seq<string>): seq<string> {
    seq(|texts|, i requires 0 <= i < |texts| => Damaged(texts[i]))
  }

  /** Reminders at the start of the event are lost, the others go to the chat. */
  function RecoveredReminders(reminders: seq<Reminder>): seq<Reminder> {
    if reminders == [] then []
    else
      var last := reminders[|reminders| - 1];
      RecoveredReminders(reminders[..|reminders| - 1])
      + (if last.minutesBefore > 0 then [last.(method_ := Chat)] else [])
  }

  /** The event that an import of the exported event `e` produces. */
  function Recovered(e: Event): ParsedEvent {
    ParsedEvent(
      Some(e.uid), Damaged(e.summary), Damaged(e.description), At(Seconds(e.dtstart)), At(RecoveredEnd(e)), "UTC",
      if e.rrule == Some("") then None else e.rrule, Damaged(e.organizer), RecoveredAttendees(e.attendees),
      Damaged(e.location), DamagedAll(e.categories), RecoveredReminders(e.reminders), e.status)
  }

  // ---------- the events that can be exported ----------

  predicate NoCR(s: string) {
    '\r' !in s
  }

  predicate GoodAttendee(a: Attendee) {
    NoCR(a.name) && Plain(a.name) && OneLine(EmailOf(a))
  }

  /** The first and the last character survive trimming; a line feed does, being escaped. */
  predicate SolidEdges(s: string) {
    s != "" ==> (!IsBlank(s[0]) || s[0] == LF) && (!IsBlank(s[|s| - 1]) || s[|s| - 1] == LF)
  }

  predicate GoodCategory(c: string) {
    NoCR(c) && ',' !in c && SolidEdges(c)
  }

  /** What the export needs of an event; every clause can be checked before exporting. */
  predicate Exportable(e: Event) {
    && FourDigitYear(e.dtstart) && FourDigitYear(e.dtend)
    && OneLine(e.uid) && NoCR(e.summary) && NoCR(e.description) && NoCR(e.location)
    && (e.rrule.Some? ==> OneLine(e.rrule.value))
    && OneLine(e.organizer) && Plain(e.organizer)
    && (forall i | 0 <= i < |e.attendees| :: GoodAttendee(e.attendees[i]))
    && (forall i | 0 <= i < |e.categories| :: GoodCategory(e.categories[i]))
  }

  // ---------- scanning one exported line ----------

  predicate Keyword(name: string) {
    name != "" && (forall i | 0 <= i < |name| :: 'A' <= name[i] <= 'Z' || name[i] == '-')
  }

  lemma KeywordFacts(name: string)
    requires Keyword(name)
    ensures Upper(name) == name && Plain(name) && '=' !in name
  {
  }

  predicate PropertyLine(p: ParsedLine) {
    p.name != "BEGIN" && p.name != "END"
  }

  lemma NotThisBound(line: string, name: string, value: string)
    requires Keyword(name) && ContentLineOf(line).name != name
    ensures line != name + ":" + value
  {
    KeywordFacts(name);
    SimpleLine(name, value);
  }

  lemma BoundNames()
    ensures "BEGIN" + ":" + "VALARM" == "BEGIN:VALARM" && "END" + ":" + "VALARM" == "END:VALARM"
    ensures "BEGIN" + ":" + "VEVENT" == "BEGIN:VEVENT" && "END" + ":" + "VEVENT" == "END:VEVENT"
  {
  }

  /** Lines of other properties are not mistaken for the bounds of an event or an alarm. */
  lemma NotABound(line: string)
    requires PropertyLine(ContentLineOf(line))
    ensures line != "BEGIN:VALARM" && line != "END:VALARM" && line != "BEGIN:VEVENT" && line != "END:VEVENT"
  {
    hide ContentLineOf;
    BoundNames();
    NotThisBound(line, "BEGIN", "VALARM");
    NotThisBound(line, "END", "VALARM");
    NotThisBound(line, "BEGIN", "VEVENT");
    NotThisBound(line, "END", "VEVENT");
  }

  lemma ScanOutside(s: Scan, line: string, fallback: string -> int)
    requires !s.inAlarm && PropertyLine(ContentLineOf(line))
    ensures ScanLine(s, line, fallback) == s.(event := ApplyProperty(s.event, ContentLineOf(line), fallback))
  {
    NotABound(line);
  }

  /** A line without parameters, outside of an alarm. */
  lemma ScanSimple(s: Scan, name: string, value: string, fallback: string -> int)
    requires !s.inAlarm && Keyword(name) && name != "BEGIN" && name != "END"
    ensures ScanLine(s, Line(name, value), fallback)
         == s.(event := ApplyProperty(s.event, ParsedLine(name, map[], value), fallback))
  {
    KeywordFacts(name);
    SimpleLine(name, value);
    ScanOutside(s, name + ":" + value, fallback);
  }

  /** A line without parameters, inside an alarm. */
  lemma ScanInAlarm(s: Scan, name: string, value: string, fallback: string -> int)
    requires s.inAlarm && Keyword(name) && name != "BEGIN" && name != "END"
    ensures ScanLine(s, Line(name, value), fallback)
         == if name == "TRIGGER" then s.(alarmTrigger := ParseTrigger(value)) else s
  {
    KeywordFacts(name);
    SimpleLine(name, value);
    NotABound(name + ":" + value);
  }

  lemma {:induction false} ScanAppend(s: Scan, a: seq<string>, b: seq<string>, fallback: string -> int)
    ensures ScanLines(s, a + b, fallback) == ScanLines(ScanLines(s, a, fallback), b, fallback)
    decreases |a|
  {
    if a == [] {
      assert a + b == b;
    } else {
      assert (a + b)[1..] == a[1..] + b;
      ScanAppend(ScanLine(s, a[0], fallback), a[1..], b, fallback);
    }
  }

  lemma ScanOne(s: Scan, line: string, fallback: string -> int)
    ensures ScanLines(s, [line], fallback) == ScanLine(s, line, fallback)
  {
    assert [line][1..] == [];
    assert ScanLines(ScanLine(s, line, fallback), [], fallback) == ScanLine(s, line, fallback);
  }

  // ---------- scanning the lines of each field ----------

  lemma Names()
    ensures PropertyOf("UID") == Uid && PropertyOf("SUMMARY") == Summary && PropertyOf("DESCRIPTION") == Description
    ensures PropertyOf("DTSTART") == DtStart && PropertyOf("DTEND") == DtEnd && PropertyOf("RRULE") == RRule
    ensures PropertyOf("ORGANIZER") == Organizer && PropertyOf("ATTENDEE") == Participant
    ensures PropertyOf("LOCATION") == Location && PropertyOf("CATEGORIES") == Categories
    ensures PropertyOf("STATUS") == Status
    ensures PropertyOf("DTSTAMP") == Unknown && PropertyOf("CREATED") == Unknown
    ensures PropertyOf("LAST-MODIFIED") == Unknown
  {
  }

  // One lemma for each property; `s` is always outside of an alarm.

  lemma ScanUid(s: Scan, v: string, fallback: string -> int)
    requires !s.inAlarm
    ensures ScanLine(s, Line("UID", v), fallback) == s.(event := s.event.(uid := Some(v)))
  {
    Names();
    ScanSimple(s, "UID", v, fallback);
  }

  lemma ScanStart(s: Scan, t: int, fallback: string -> int)
    requires !s.inAlarm && FourDigitYear(t)
    ensures ScanLine(s, Line("DTSTART", ToICalDate(t)), fallback)
         == s.(event := s.event.(dtstart := At(Seconds(t))))
  {
    hide ToICalDate, ParseICalDate, ScanLine, Line, PropertyOf, FourDigitYear;
    Names();
    DateRoundTrip(t, fallback);
    ScanSimple(s, "DTSTART", ToICalDate(t), fallback);
  }

  lemma ScanEnd(s: Scan, t: int, fallback: string -> int)
    requires !s.inAlarm && FourDigitYear(t)
    ensures ScanLine(s, Line("DTEND", ToICalDate(t)), fallback)
         == s.(event := s.event.(dtend := At(Seconds(t))))
  {
    hide ToICalDate, ParseICalDate, ScanLine, Line, PropertyOf, FourDigitYear;
    Names();
    DateRoundTrip(t, fallback);
    ScanSimple(s, "DTEND", ToICalDate(t), fallback);
  }

  lemma ScanSummary(s: Scan, text: string, fallback: string -> int)
    requires !s.inAlarm
    ensures ScanLine(s, Line("SUMMARY", EscapeText(text)), fallback)
         == s.(event := s.event.(summary := Damaged(text)))
  {
    hide EscapeText, UnescapeText, ScanLine, Line, PropertyOf;
    Names();
    UnescapeEscape(text);
    ScanSimple(s, "SUMMARY", EscapeText(text), fallback);
  }

  /** Properties that the importer does not know. */
  lemma ScanUnknown(s: Scan, name: string, value: string, fallback: string -> int)
    requires !s.inAlarm && name in {"DTSTAMP", "CREATED", "LAST-MODIFIED"}
    ensures ScanLine(s, Line(name, value), fallback) == s
  {
    hide ScanLine, Line, PropertyOf;
    Names();
    ScanSimple(s, name, value, fallback);
  }

  lemma ScanHead(s: Scan, e: Event, fallback: string -> int)
    requires !s.inAlarm && FourDigitYear(e.dtstart) && FourDigitYear(e.dtend)
    ensures ScanLines(s, HeadLines(e), fallback)
         == s.(event := s.event.(uid := Some(e.uid), dtstart := At(Seconds(e.dtstart)),
                                 dtend := At(Seconds(e.dtend)), summary := Damaged(e.summary)))
  {
    hide Line, ScanLine, ToICalDate, EscapeText, FourDigitYear;
    var s1 := s.(event := s.event.(uid := Some(e.uid)));
    var s3 := s1.(event := s1.event.(dtstart := At(Seconds(e.dtstart))));
    var s4 := s3.(event := s3.event.(dtend := At(Seconds(e.dtend))));
    ScanUid(s, e.uid, fallback);
    ScanUnknown(s1, "DTSTAMP", ToICalDate(e.updatedAt), fallback);
    ScanStart(s1, e.dtstart, fallback);
    ScanEnd(s3, e.dtend, fallback);
    ScanSummary(s4, e.summary, fallback);
    ScanFive(s, HeadLines(e), fallback);
  }

  lemma ScanFive(s: Scan, l: seq<string>, fallback: string -> int)
    requires |l| == 5
    ensures ScanLines(s, l, fallback)
         == ScanLine(ScanLine(ScanLine(ScanLine(ScanLine(s, l[0], fallback), l[1], fallback),
                                       l[2], fallback), l[3], fallback), l[4], fallback)
  {
    hide ScanLine;
    var s2 := ScanLine(ScanLine(s, l[0], fallback), l[1], fallback);
    assert ScanLines(s, l, fallback) == ScanLines(s2, l[2..], fallback);
    ScanThree(s2, l[2..], fallback);
  }

  lemma ScanThree(s: Scan, l: seq<string>, fallback: string -> int)
    requires |l| == 3
    ensures ScanLines(s, l, fallback)
         == ScanLine(ScanLine(ScanLine(s, l[0], fallback), l[1], fallback), l[2], fallback)
  {
    hide ScanLine;
    var s2 := ScanLine(ScanLine(s, l[0], fallback), l[1], fallback);
    assert l[1..][1..] == [l[2]];
    ScanOne(s2, l[2], fallback);
  }

  lemma ScanDescription(s: Scan, text: string, fallback: string -> int)
    requires !s.inAlarm && s.event.description == ""
    ensures ScanLines(s, OptionalLine("DESCRIPTION", text), fallback)
         == s.(event := s.event.(description := Damaged(text)))
  {
    hide EscapeText, UnescapeText, ScanLine, Line, PropertyOf;
    if text != "" {
      Names();
      UnescapeEscape(text);
      ScanSimple(s, "DESCRIPTION", EscapeText(text), fallback);
      ScanOne(s, Line("DESCRIPTION", EscapeText(text)), fallback);
    }
  }

  lemma ScanLocation(s: Scan, text: string, fallback: string -> int)
    requires !s.inAlarm && s.event.location == ""
    ensures ScanLines(s, OptionalLine("LOCATION", text), fallback)
         == s.(event := s.event.(location := Damaged(text)))
  {
    hide EscapeText, UnescapeText, ScanLine, Line, PropertyOf;
    if text != "" {
      Names();
      UnescapeEscape(text);
      ScanSimple(s, "LOCATION", EscapeText(text), fallback);
      ScanOne(s, Line("LOCATION", EscapeText(text)), fallback);
    }
  }

  lemma ScanRRule(s: Scan, rrule: Option<string>, fallback: string -> int)
    requires !s.inAlarm && s.event.rrule == None
    ensures ScanLines(s, RRuleLines(rrule), fallback)
         == s.(event := s.event.(rrule := if rrule == Some("") then None else rrule))
  {
    hide ScanLine, Line, PropertyOf;
    if rrule.Some? && rrule.value != "" {
      Names();
      ScanSimple(s, "RRULE", rrule.value, fallback);
      ScanOne(s, Line("RRULE", rrule.value), fallback);
    }
  }

  lemma EscapeEmpty(text: string)
    ensures EscapeText(text) == "" <==> text == ""
  {
    EscapeTextEach(text);
  }

  lemma MailtoStripped(v: string)
    ensures StripMailto("mailto:" + v) == v
  {
    assert ("mailto:" + v)[..7] == "mailto:" && ("mailto:" + v)[7..] == v;
    assert Lower("mailto:") == "mailto:";
  }

  lemma OrganizerParsed(organizer: string)
    requires Plain(organizer)
    ensures ContentLineOf(OrganizerLine(organizer))
         == ParsedLine("ORGANIZER", map["CN" := EscapeText(organizer)], "mailto:" + (organizer + "@reflectt.ai"))
  {
    hide EscapeText, ContentLineOf;
    KeywordFacts("ORGANIZER");
    KeywordFacts("CN");
    EscapedCharacters(organizer);
    OneParamLine("ORGANIZER", "CN", EscapeText(organizer), "mailto:" + (organizer + "@reflectt.ai"));
  }

  lemma ScanOrganizer(s: Scan, organizer: string, fallback: string -> int)
    requires !s.inAlarm && Plain(organizer)
    ensures ScanLines(s, [OrganizerLine(organizer)], fallback)
         == s.(event := s.event.(organizer := Damaged(organizer)))
  {
    hide EscapeText, UnescapeText, ContentLineOf;
    var address := organizer + "@reflectt.ai";
    var line := OrganizerLine(organizer);
    OrganizerParsed(organizer);
    EscapeEmpty(organizer);
    UnescapeEscape(organizer);
    MailtoStripped(address);
    Names();
    var p := ParsedLine("ORGANIZER", map["CN" := EscapeText(organizer)], "mailto:" + address);
    assert ContentLineOf(line) == p;
    assert organizer == "" ==> BeforeAt(address) == "" by {
      if organizer == "" {
        assert address == "@reflectt.ai";
      }
    }
    ScanOutside(s, line, fallback);
    ScanOne(s, line, fallback);
  }

  lemma PartStatRead(a: AttendeeStatus)
    ensures Keyword(PartStat(a)) && StatusOfPartStat(Lower(PartStat(a))) == a
  {
    assert Lower("NEEDS-ACTION") == "needs-action";
    assert Lower("ACCEPTED") == "accepted";
    assert Lower("DECLINED") == "declined";
    assert Lower("TENTATIVE") == "tentative";
  }

  lemma AttendeeParsed(a: Attendee)
    requires Plain(a.name)
    ensures ContentLineOf(AttendeeLine(a))
         == ParsedLine("ATTENDEE", map["CN" := EscapeText(a.name)]["PARTSTAT" := PartStat(a.status)],
                       "mailto:" + EmailOf(a))
  {
    hide EscapeText, ContentLineOf, PartStat, EmailOf;
    KeywordFacts("ATTENDEE");
    KeywordFacts("CN");
    KeywordFacts("PARTSTAT");
    PartStatRead(a.status);
    KeywordFacts(PartStat(a.status));
    EscapedCharacters(a.name);
    TwoParamLine("ATTENDEE", "CN", EscapeText(a.name), "PARTSTAT", PartStat(a.status), "mailto:" + EmailOf(a));
  }

  lemma ScanAttendee(s: Scan, a: Attendee, fallback: string -> int)
    requires !s.inAlarm && Plain(a.name)
    ensures ScanLine(s, AttendeeLine(a), fallback)
         == s.(event := s.event.(attendees := s.event.attendees + [RecoveredAttendee(a)]))
  {
    hide EscapeText, UnescapeText, ContentLineOf, PartStat, StatusOfPartStat, AttendeeLine;
    AttendeeParsed(a);
    EscapeEmpty(a.name);
    UnescapeEscape(a.name);
    MailtoStripped(EmailOf(a));
    PartStatRead(a.status);
    Names();
    var params := map["CN" := EscapeText(a.name)]["PARTSTAT" := PartStat(a.status)];
    assert "CN" != "PARTSTAT";
    assert Param(params, "CN") == EscapeText(a.name) && Param(params, "PARTSTAT") == PartStat(a.status);
    ScanOutside(s, AttendeeLine(a), fallback);
  }

  lemma {:induction false} ScanAttendees(s: Scan, attendees: seq<Attendee>, fallback: string -> int)
    requires !s.inAlarm && forall i | 0 <= i < |attendees| :: Plain(attendees[i].name)
    ensures ScanLines(s, AttendeeLines(attendees), fallback)
         == s.(event := s.event.(attendees := s.event.attendees + RecoveredAttendees(attendees)))
    decreases |attendees|
  {
    hide ScanLine, AttendeeLine, RecoveredAttendee;
    if attendees == [] {
      assert s.event.attendees + [] == s.event.attendees;
    } else {
      ScanAttendee(s, attendees[0], fallback);
      var s1 := ScanLine(s, AttendeeLine(attendees[0]), fallback);
      assert AttendeeLines(attendees)[1..] == AttendeeLines(attendees[1..]);
      ScanAttendees(s1, attendees[1..], fallback);
      assert s.event.attendees + RecoveredAttendees(attendees)
          == s.event.attendees + [RecoveredAttendee(attendees[0])] + RecoveredAttendees(attendees[1..]);
    }
  }

  lemma TrimSolid(s: string)
    requires s != "" ==> !IsBlank(s[0]) && !IsBlank(s[|s| - 1])
    ensures Trim(s) == s
  {
  }

  lemma {:induction false} EscapedEdges(s: string)
    requires s != ""
    ensures EscapeText(s) != ""
    ensures EscapeText(s)[0] == EscapeChar(s[0])[0]
    ensures var last := EscapeChar(s[|s| - 1]);
            EscapeText(s)[|EscapeText(s)| - 1] == last[|last| - 1]
  {
    EscapeTextEach(s);
    EscapeTextEach(s[1..]);
    if |s| > 1 {
      EscapedEdges(s[1..]);
    }
  }

  lemma CategoryRead(c: string)
    requires GoodCategory(c)
    ensures UnescapeText(Trim(EscapeText(c))) == Damaged(c)
  {
    hide EscapeText, UnescapeText;
    EscapeEmpty(c);
    if c != "" {
      EscapedEdges(c);
      assert !IsBlank(BACKSLASH) && !IsBlank('n') && !IsBlank(';') && !IsBlank(',');
    }
    TrimSolid(EscapeText(c));
    UnescapeEscape(c);
  }

  lemma CategoriesRead(categories: seq<string>)
    requires categories != [] && forall i | 0 <= i < |categories| :: GoodCategory(categories[i])
    ensures ParsedCategories(Join(EscapeAll(categories), ",")) == DamagedAll(categories)
  {
    hide EscapeText, UnescapeText, Trim;
    var parts := EscapeAll(categories);
    forall p <- parts
      ensures ',' !in p
    {
      var i :| 0 <= i < |parts| && parts[i] == p;
      EscapedCharacters(categories[i]);
    }
    SplitJoin(parts, ',');
    forall i | 0 <= i < |categories|
      ensures UnescapeText(Trim(parts[i])) == Damaged(categories[i])
    {
      CategoryRead(categories[i]);
    }
  }

  lemma ScanCategories(s: Scan, categories: seq<string>, fallback: string -> int)
    requires !s.inAlarm && s.event.categories == []
    requires forall i | 0 <= i < |categories| :: GoodCategory(categories[i])
    ensures ScanLines(s, CategoryLines(categories), fallback)
         == s.(event := s.event.(categories := DamagedAll(categories)))
  {
    hide ParsedCategories, EscapeAll, ScanLine, Line, PropertyOf, GoodCategory;
    if categories != [] {
      var value := Join(EscapeAll(categories), ",");
      Names();
      CategoriesRead(categories);
      ScanSimple(s, "CATEGORIES", value, fallback);
      ScanOne(s, Line("CATEGORIES", value), fallback);
    }
  }

  lemma ScanAlarm(s: Scan, summary: string, r: Reminder, fallback: string -> int)
    requires !s.inAlarm && s.alarmTrigger == 0
    ensures ScanLines(s, AlarmLines(summary, r), fallback)
         == s.(event := s.event.(reminders := s.event.reminders
              + (if r.minutesBefore > 0 then [r.(method_ := Chat)] else [])))
  {
    hide Line, EscapeText, TriggerOf, ContentLineOf;
    var l := AlarmLines(summary, r);
    var s1 := s.(inAlarm := true);
    ScanInAlarm(s1, "ACTION", "DISPLAY", fallback);
    ScanInAlarm(s1, "DESCRIPTION", "Reminder: " + EscapeText(summary), fallback);
    ScanInAlarm(s1, "TRIGGER", TriggerOf(r.minutesBefore), fallback);
    TriggerRoundTrip(r.minutesBefore);
    assert ScanLine(s, l[0], fallback) == s1;
    ScanFive(s, l, fallback);
    assert s.event.reminders + [] == s.event.reminders;
  }

  lemma {:induction false} ScanAlarms(s: Scan, summary: string, reminders: seq<Reminder>, fallback: string -> int)
    requires !s.inAlarm && s.alarmTrigger == 0
    ensures ScanLines(s, AllAlarmLines(summary, reminders), fallback)
         == s.(event := s.event.(reminders := s.event.reminders + RecoveredReminders(reminders)))
    decreases |reminders|
  {
    hide ScanLine, AlarmLines;
    if reminders == [] {
      assert s.event.reminders + [] == s.event.reminders;
    } else {
      var front, last := reminders[..|reminders| - 1], reminders[|reminders| - 1];
      ScanAppend(s, AllAlarmLines(summary, front), AlarmLines(summary, last), fallback);
      ScanAlarms(s, summary, front, fallback);
      ScanAlarm(ScanLines(s, AllAlarmLines(summary, front), fallback), summary, last, fallback);
    }
  }

  lemma StatusRead(status: EventStatus)
    ensures ParsedStatus(StatusName(status)) == status
  {
    assert Upper("CONFIRMED") == "CONFIRMED";
    assert Upper("TENTATIVE") == "TENTATIVE";
    assert Upper("CANCELLED") == "CANCELLED";
  }

  lemma ScanStatus(s: Scan, status: EventStatus, fallback: string -> int)
    requires !s.inAlarm
    ensures ScanLine(s, Line("STATUS", StatusName(status)), fallback) == s.(event := s.event.(status := status))
  {
    hide StatusName, ParsedStatus, ScanLine, Line, PropertyOf;
    Names();
    StatusRead(status);
    ScanSimple(s, "STATUS", StatusName(status), fallback);
  }

  lemma ScanTail(s: Scan, e: Event, fallback: string -> int)
    requires !s.inAlarm
    ensures ScanLines(s, TailLines(e), fallback) == s.(event := s.event.(status := e.status))
  {
    hide Line, ScanLine, ToICalDate, StatusName;
    var s1 := s.(event := s.event.(status := e.status));
    ScanStatus(s, e.status, fallback);
    ScanUnknown(s1, "CREATED", ToICalDate(e.createdAt), fallback);
    ScanUnknown(s1, "LAST-MODIFIED", ToICalDate(e.updatedAt), fallback);
    ScanThree(s, TailLines(e), fallback);
  }

  // ---------- one event ----------

  /** Scanning the body of an exported event, segment by segment. */
  lemma ScanBody(e: Event, fallback: string -> int)
    requires Exportable(e)
    ensures DefaultEnd(ScanLines(Scan(EMPTY, false, 0), BodyLines(e), fallback).event) == Recovered(e)
  {
    hide HeadLines, OptionalLine, RRuleLines, OrganizerLine, AttendeeLines, CategoryLines, AllAlarmLines, TailLines;
    hide ScanLines, GoodCategory, FourDigitYear;
    var s0 := Scan(EMPTY, false, 0);
    var b1 := HeadLines(e);
    var b2 := b1 + OptionalLine("DESCRIPTION", e.description);
    var b3 := b2 + OptionalLine("LOCATION", e.location);
    var b4 := b3 + RRuleLines(e.rrule);
    var b5 := b4 + [OrganizerLine(e.organizer)];
    var b6 := b5 + AttendeeLines(e.attendees);
    var b7 := b6 + CategoryLines(e.categories);
    var b8 := b7 + AllAlarmLines(e.summary, e.reminders);
    ScanHead(s0, e, fallback);
    ScanAppend(s0, b1, OptionalLine("DESCRIPTION", e.description), fallback);
    ScanDescription(ScanLines(s0, b1, fallback), e.description, fallback);
    ScanAppend(s0, b2, OptionalLine("LOCATION", e.location), fallback);
    ScanLocation(ScanLines(s0, b2, fallback), e.location, fallback);
    ScanAppend(s0, b3, RRuleLines(e.rrule), fallback);
    ScanRRule(ScanLines(s0, b3, fallback), e.rrule, fallback);
    ScanAppend(s0, b4, [OrganizerLine(e.organizer)], fallback);
    ScanOrganizer(ScanLines(s0, b4, fallback), e.organizer, fallback);
    ScanAppend(s0, b5, AttendeeLines(e.attendees), fallback);
    ScanAttendees(ScanLines(s0, b5, fallback), e.attendees, fallback);
    ScanAppend(s0, b6, CategoryLines(e.categories), fallback);
    ScanCategories(ScanLines(s0, b6, fallback), e.categories, fallback);
    ScanAppend(s0, b7, AllAlarmLines(e.summary, e.reminders), fallback);
    ScanAlarms(ScanLines(s0, b7, fallback), e.summary, e.reminders, fallback);
    ScanAppend(s0, b8, TailLines(e), fallback);
    ScanTail(ScanLines(s0, b8, fallback), e, fallback);
    assert [] + RecoveredAttendees(e.attendees) == RecoveredAttendees(e.attendees);
    assert [] + RecoveredReminders(e.reminders) == RecoveredReminders(e.reminders);
  }

  // ---------- the exported lines are content lines ----------

  /** A content line that is not the bound of an event. */
  predicate BodyLine(line: string) {
    ContentLine(line) && line != "BEGIN:VEVENT" && line != "END:VEVENT"
  }

  predicate AllBodyLines(lines: seq<string>) {
    forall i | 0 <= i < |lines| :: BodyLine(lines[i])
  }

  lemma LineIsBodyLine(name: string, value: string)
    requires Keyword(name) && name != "BEGIN" && name != "END" && OneLine(value)
    ensures BodyLine(Line(name, value))
  {
    KeywordFacts(name);
    SimpleLine(name, value);
    NotABound(Line(name, value));
  }

  lemma EscapedOneLine(text: string)
    requires NoCR(text)
    ensures OneLine(EscapeText(text))
  {
    EscapedCharacters(text);
  }

  lemma DigitsOneLine(s: string)
    requires forall c <- s :: IsDigit(c)
    ensures OneLine(s)
  {
  }

  lemma PrintedOneLine(n: int)
    ensures OneLine(PrintInt(n)) && OneLine(Pad2(n))
  {
    DigitsOneLine(Decimal(if n < 0 then -n else n));
  }

  lemma DateOneLine(t: int)
    ensures OneLine(ToICalDate(t))
  {
    hide PrintInt, Pad2;
    var f := FieldsOf(t);
    PrintedOneLine(f.year);
    PrintedOneLine(f.month + 1);
    PrintedOneLine(f.date);
    PrintedOneLine(f.hour);
    PrintedOneLine(f.minute);
    PrintedOneLine(f.second);
  }

  lemma HeadBodyLines(e: Event)
    requires OneLine(e.uid) && NoCR(e.summary)
    ensures AllBodyLines(HeadLines(e))
  {
    hide Line, BodyLine, ToICalDate, EscapeText;
    DateOneLine(e.updatedAt);
    DateOneLine(e.dtstart);
    DateOneLine(e.dtend);
    EscapedOneLine(e.summary);
    LineIsBodyLine("UID", e.uid);
    LineIsBodyLine("DTSTAMP", ToICalDate(e.updatedAt));
    LineIsBodyLine("DTSTART", ToICalDate(e.dtstart));
    LineIsBodyLine("DTEND", ToICalDate(e.dtend));
    LineIsBodyLine("SUMMARY", EscapeText(e.summary));
  }

  lemma OptionalBodyLines(name: string, text: string)
    requires Keyword(name) && name != "BEGIN" && name != "END" && NoCR(text)
    ensures AllBodyLines(OptionalLine(name, text))
  {
    hide Line, BodyLine, EscapeText;
    EscapedOneLine(text);
    LineIsBodyLine(name, EscapeText(text));
  }

  lemma OrganizerOneLine(organizer: string)
    requires OneLine(organizer)
    ensures OneLine(OrganizerLine(organizer))
    ensures OrganizerLine(organizer) != "" && OrganizerLine(organizer)[0] == 'O'
  {
    hide EscapeText;
    EscapedCharacters(organizer);
  }

  lemma OrganizerBodyLine(organizer: string)
    requires OneLine(organizer) && Plain(organizer)
    ensures BodyLine(OrganizerLine(organizer))
  {
    hide OrganizerLine, ContentLineOf;
    OrganizerOneLine(organizer);
    OrganizerParsed(organizer);
    NotABound(OrganizerLine(organizer));
  }

  lemma AttendeeBodyLine(a: Attendee)
    requires GoodAttendee(a)
    ensures BodyLine(AttendeeLine(a))
  {
    hide EscapeText, ContentLineOf, EmailOf, PartStat;
    AttendeeParsed(a);
    EscapedCharacters(a.name);
    PartStatRead(a.status);
    NotABound(AttendeeLine(a));
    assert AttendeeLine(a)[0] == 'A';
  }

  lemma {:induction false} JoinOneLine(parts: seq<string>)
    requires AllOneLine(parts)
    ensures OneLine(Join(parts, ","))
  {
    if |parts| > 1 {
      JoinOneLine(parts[1..]);
    }
  }

  lemma CategoryBodyLines(categories: seq<string>)
    requires forall i | 0 <= i < |categories| :: GoodCategory(categories[i])
    ensures AllBodyLines(CategoryLines(categories))
  {
    hide Line, BodyLine, EscapeText;
    forall i | 0 <= i < |categories|
      ensures OneLine(EscapeAll(categories)[i])
    {
      EscapedOneLine(categories[i]);
    }
    JoinOneLine(EscapeAll(categories));
    LineIsBodyLine("CATEGORIES", Join(EscapeAll(categories), ","));
  }

  lemma AlarmBodyLines(summary: string, r: Reminder)
    requires NoCR(summary)
    ensures AllBodyLines(AlarmLines(summary, r))
  {
    hide Line, EscapeText, Decimal;
    EscapedOneLine(summary);
    DigitsOneLine(Decimal(r.minutesBefore));
    LineIsBodyLine("ACTION", "DISPLAY");
    LineIsBodyLine("DESCRIPTION", "Reminder: " + EscapeText(summary));
    LineIsBodyLine("TRIGGER", TriggerOf(r.minutesBefore));
    AlarmBounds();
  }

  lemma AlarmBounds()
    ensures BodyLine("BEGIN:VALARM") && BodyLine("END:VALARM")
  {
    assert "BEGIN:VALARM"[7] == 'A' && "BEGIN:VEVENT"[7] == 'E';
    assert "END:VALARM"[5] == 'A' && "END:VEVENT"[5] == 'E';
  }

  lemma {:induction false} AllAlarmBodyLines(summary: string, reminders: seq<Reminder>)
    requires NoCR(summary)
    ensures AllBodyLines(AllAlarmLines(summary, reminders))
  {
    hide BodyLine, AlarmLines;
    if reminders != [] {
      AllAlarmBodyLines(summary, reminders[..|reminders| - 1]);
      AlarmBodyLines(summary, reminders[|reminders| - 1]);
    }
  }

  lemma TailBodyLines(e: Event)
    ensures AllBodyLines(TailLines(e))
  {
    hide Line, BodyLine, ToICalDate;
    DateOneLine(e.createdAt);
    DateOneLine(e.updatedAt);
    assert OneLine(StatusName(e.status));
    LineIsBodyLine("STATUS", StatusName(e.status));
    LineIsBodyLine("CREATED", ToICalDate(e.createdAt));
    LineIsBodyLine("LAST-MODIFIED", ToICalDate(e.updatedAt));
  }

  lemma EventBodyLines(e: Event)
    requires Exportable(e)
    ensures AllBodyLines(BodyLines(e))
  {
    hide HeadLines, OptionalLine, RRuleLines, OrganizerLine, AttendeeLine, CategoryLines, AllAlarmLines, TailLines;
    hide BodyLine, Line, GoodCategory, GoodAttendee, FourDigitYear;
    HeadBodyLines(e);
    OptionalBodyLines("DESCRIPTION", e.description);
    OptionalBodyLines("LOCATION", e.location);
    RRuleBodyLines(e.rrule);
    OrganizerBodyLine(e.organizer);
    forall i | 0 <= i < |e.attendees|
      ensures BodyLine(AttendeeLine(e.attendees[i]))
    {
      AttendeeBodyLine(e.attendees[i]);
    }
    CategoryBodyLines(e.categories);
    AllAlarmBodyLines(e.summary, e.reminders);
    TailBodyLines(e);
  }

  lemma RRuleBodyLines(rrule: Option<string>)
    requires rrule.Some? ==> OneLine(rrule.value)
    ensures AllBodyLines(RRuleLines(rrule))
  {
    hide Line, BodyLine;
    if rrule.Some? {
      LineIsBodyLine("RRULE", rrule.value);
    }
  }

  // ---------- the whole file ----------

  function AllEventLines(events: seq<Event>): seq<string> {
    if events == [] then [] else EventLines(events[0]) + AllEventLines(events[1..])
  }

  function FileLines(events: seq<Event>): seq<string> {
    Preamble() + AllEventLines(events) + ["END:VCALENDAR"]
  }

  lemma {:induction false} FileScanAppend(s: FileScan, a: seq<string>, b: seq<string>, fallback: string -> int)
    ensures FileScanned(s, a + b, fallback) == FileScanned(FileScanned(s, a, fallback), b, fallback)
    decreases |a|
  {
    hide FileLine;
    if a == [] {
      assert a + b == b;
    } else {
      assert (a + b)[1..] == a[1..] + b;
      FileScanAppend(FileLine(s, a[0], fallback), a[1..], b, fallback);
    }
  }

  /** Body lines are collected while in an event and skipped outside of one. */
  lemma {:induction false} CollectBody(s: FileScan, lines: seq<string>, fallback: string -> int)
    requires AllBodyLines(lines)
    ensures FileScanned(s, lines, fallback) == if s.inEvent then s.(current := s.current + lines) else s
    decreases |lines|
  {
    hide VEventOf;
    if lines == [] {
      assert s.current + [] == s.current;
    } else {
      assert BodyLine(lines[0]);
      CollectBody(FileLine(s, lines[0], fallback), lines[1..], fallback);
      assert s.current + [lines[0]] + lines[1..] == s.current + lines;
    }
  }

  lemma FileScanOne(s: FileScan, line: string, fallback: string -> int)
    ensures FileScanned(s, [line], fallback) == FileLine(s, line, fallback)
  {
    hide FileLine;
    assert [line][1..] == [];
    assert FileScanned(FileLine(s, line, fallback), [], fallback) == FileLine(s, line, fallback);
  }

  lemma EventBoundsDiffer()
    ensures "END:VEVENT" != "BEGIN:VEVENT"
  {
  }

  lemma ScanEvent(s: FileScan, e: Event, fallback: string -> int)
    requires Exportable(e) && !s.inEvent
    ensures FileScanned(s, EventLines(e), fallback)
         == FileScan(s.events + [Recovered(e)], BodyLines(e), false)
  {
    hide BodyLines, Exportable, Recovered, VEventOf;
    var s1 := FileScan(s.events, [], true);
    var s2 := FileScan(s.events, BodyLines(e), true);
    FileScanAppend(s, ["BEGIN:VEVENT"] + BodyLines(e), ["END:VEVENT"], fallback);
    FileScanAppend(s, ["BEGIN:VEVENT"], BodyLines(e), fallback);
    FileScanOne(s, "BEGIN:VEVENT", fallback);
    EventBodyLines(e);
    CollectBody(s1, BodyLines(e), fallback);
    assert [] + BodyLines(e) == BodyLines(e);
    EventBoundsDiffer();
    FileScanOne(s2, "END:VEVENT", fallback);
    EventParsed(e, fallback);
  }

  lemma EventParsed(e: Event, fallback: string -> int)
    requires Exportable(e)
    ensures VEventOf(BodyLines(e), fallback) == Recovered(e)
  {
    hide BodyLines, Recovered, DefaultEnd, ScanLines;
    ScanBody(e, fallback);
  }

  function RecoveredAll(events: seq<Event>): seq<ParsedEvent> {
    seq(|events|, i requires 0 <= i < |events| => Recovered(events[i]))
  }

  predicate AllExportable(events: seq<Event>) {
    forall i | 0 <= i < |events| :: Exportable(events[i])
  }

  lemma {:induction false} ScanEvents(s: FileScan, events: seq<Event>, fallback: string -> int)
    requires AllExportable(events) && !s.inEvent
    ensures var r := FileScanned(s, AllEventLines(events), fallback);
            r.events == s.events + RecoveredAll(events) && !r.inEvent
    decreases |events|
  {
    hide Exportable, Recovered, EventLines, BodyLines, FileLine;
    if events == [] {
      assert s.events + [] == s.events;
    } else {
      FileScanAppend(s, EventLines(events[0]), AllEventLines(events[1..]), fallback);
      ScanEvent(s, events[0], fallback);
      var s1 := FileScanned(s, EventLines(events[0]), fallback);
      ScanEvents(s1, events[1..], fallback);
      assert s.events + [Recovered(events[0])] + RecoveredAll(events[1..]) == s.events + RecoveredAll(events);
    }
  }

  lemma CalendarBounds()
    ensures BodyLine("BEGIN:VCALENDAR") && BodyLine("END:VCALENDAR")
  {
    assert "BEGIN:VCALENDAR"[7] == 'C' && "BEGIN:VEVENT"[7] == 'E';
    assert "END:VCALENDAR"[5] == 'C' && "END:VEVENT"[5] == 'E';
  }

  lemma ProductLine()
    ensures BodyLine(Line("PRODID", "-//Reflectt AI//Calendar v1//EN"))
  {
    hide BodyLine;
    LineIsBodyLine("PRODID", "-//Reflectt AI//Calendar v1//EN");
  }

  lemma NameLine()
    ensures BodyLine(Line("X-WR-CALNAME", "Reflectt Calendar"))
  {
    hide BodyLine;
    LineIsBodyLine("X-WR-CALNAME", "Reflectt Calendar");
  }

  lemma ShortLines()
    ensures BodyLine(Line("VERSION", "2.0")) && BodyLine(Line("CALSCALE", "GREGORIAN"))
    ensures BodyLine(Line("METHOD", "PUBLISH"))
  {
    hide BodyLine;
    LineIsBodyLine("VERSION", "2.0");
    LineIsBodyLine("CALSCALE", "GREGORIAN");
    LineIsBodyLine("METHOD", "PUBLISH");
  }

  lemma PreambleLines()
    ensures AllBodyLines(Preamble())
  {
    hide Line, BodyLine;
    CalendarBounds();
    ShortLines();
    ProductLine();
    NameLine();
  }

  lemma ScanFile(events: seq<Event>, fallback: string -> int)
    requires AllExportable(events)
    ensures FileScanned(FileScan([], [], false), FileLines(events), fallback).events == RecoveredAll(events)
  {
    hide Preamble, AllEventLines, FileLine, BodyLine, RecoveredAll, FileScanned;
    var s := FileScan([], [], false);
    PreambleLines();
    CalendarBounds();
    FileScanAppend(s, Preamble() + AllEventLines(events), ["END:VCALENDAR"], fallback);
    FileScanAppend(s, Preamble(), AllEventLines(events), fallback);
    CollectBody(s, Preamble(), fallback);
    ScanEvents(s, events, fallback);
    CollectBody(FileScanned(s, AllEventLines(events), fallback), ["END:VCALENDAR"], fallback);
    assert [] + RecoveredAll(events) == RecoveredAll(events);
  }

  // ---------- the exported text renders the file's lines ----------

  lemma {:induction false} FoldedTerminated(lines: seq<string>)
    ensures Terminated(FoldedAll(lines), CRLF) == Rendered(lines)
  {
    hide Folded;
    if lines != [] {
      assert FoldedAll(lines)[1..] == FoldedAll(lines[1..]);
      FoldedTerminated(lines[1..]);
    }
  }

  lemma {:induction false} RenderedAppend(a: seq<string>, b: seq<string>)
    ensures Rendered(a + b) == Rendered(a) + Rendered(b)
  {
    hide Folded;
    if a == [] {
      assert a + b == b;
    } else {
      assert (a + b)[1..] == a[1..] + b;
      RenderedAppend(a[1..], b);
    }
  }

  /** Lines that need no folding are written as they are. */
  lemma {:induction false} ShortTerminated(lines: seq<string>)
    requires forall i | 0 <= i < |lines| :: |lines[i]| <= MAX_LINE
    ensures Terminated(lines, CRLF) == Rendered(lines)
  {
    if lines != [] {
      ShortTerminated(lines[1..]);
      assert Folded(lines[0]) == lines[0];
    }
  }

  lemma {:induction false} EventsTerminated(events: seq<Event>)
    ensures Terminated(VEventTexts(events), CRLF) == Rendered(AllEventLines(events))
  {
    hide EventLines;
    if events != [] {
      assert VEventTexts(events)[1..] == VEventTexts(events[1..]);
      EventsTerminated(events[1..]);
      EventTerminated(events[0]);
      RenderedAppend(EventLines(events[0]), AllEventLines(events[1..]));
    }
  }

  lemma EventTerminated(e: Event)
    ensures VEventText(e) + CRLF == Rendered(EventLines(e))
  {
    hide BodyLines;
    JoinTerminated(FoldedAll(EventLines(e)), CRLF);
    FoldedTerminated(EventLines(e));
  }

  lemma PreambleShort()
    ensures forall i | 0 <= i < |Preamble()| :: |Preamble()[i]| <= MAX_LINE
  {
  }

  lemma CalendarRendered(events: seq<Event>)
    ensures CalendarText(events) == Rendered(FileLines(events))
  {
    hide Preamble, VEventTexts, AllEventLines, Rendered, Join, Terminated;
    var lines := Preamble() + VEventTexts(events) + ["END:VCALENDAR"];
    JoinTerminated(lines, CRLF);
    TerminatedAppend(Preamble() + VEventTexts(events), ["END:VCALENDAR"], CRLF);
    TerminatedAppend(Preamble(), VEventTexts(events), CRLF);
    PreambleShort();
    ShortTerminated(Preamble());
    ShortTerminated(["END:VCALENDAR"]);
    EventsTerminated(events);
    RenderedAppend(Preamble() + AllEventLines(events), ["END:VCALENDAR"]);
    RenderedAppend(Preamble(), AllEventLines(events));
  }

  lemma {:induction false} EventsContentLines(events: seq<Event>)
    requires AllExportable(events)
    ensures AllContentLines(AllEventLines(events))
  {
    hide BodyLines, Exportable;
    if events != [] {
      EventsContentLines(events[1..]);
      EventBodyLines(events[0]);
      EventBounds();
    }
  }

  lemma EventBounds()
    ensures ContentLine("BEGIN:VEVENT") && ContentLine("END:VEVENT")
  {
  }

  // ---------- main results ----------

  /** Importing an exported calendar yields exactly the recovered events, in order. */
  lemma ExportThenImport(events: seq<Event>, fallback: string -> int)
    requires AllExportable(events)
    ensures ParsedCalendar(CalendarText(events), fallback) == RecoveredAll(events)
  {
    hide Preamble, AllEventLines, RecoveredAll, CalendarText, Unfolded, Rendered, FileScanned, ContentLine;
    CalendarRendered(events);
    PreambleLines();
    CalendarBounds();
    BodyLinesAreContentLines(Preamble());
    BodyLinesAreContentLines(["END:VCALENDAR"]);
    EventsContentLines(events);
    UnfoldRendered(FileLines(events));
    ScanFile(events, fallback);
  }

  lemma BodyLinesAreContentLines(lines: seq<string>)
    requires AllBodyLines(lines)
    ensures AllContentLines(lines)
  {
  }

  /** The texts, times and reminders that survive unchanged. */
  predicate LosslessEvent(e: Event) {
    && Lossless(e.summary) && Lossless(e.description) && Lossless(e.location) && Lossless(e.organizer)
    && (forall i | 0 <= i < |e.categories| :: Lossless(e.categories[i]))
    && (forall i | 0 <= i < |e.attendees| :: e.attendees[i].name != "" && Lossless(e.attendees[i].name))
    && e.dtstart % 1000 == 0 && e.dtend % 1000 == 0 && (e.dtend == 0 ==> e.dtstart in {0, -60 * 60 * 1000})
    && (forall i | 0 <= i < |e.reminders| :: e.reminders[i].minutesBefore >= 1)
    && e.rrule != Some("")
  }

  /** The event itself, as an import would write it down: default email and reminder
      method filled in, time zone UTC. */
  function AsParsed(e: Event): ParsedEvent {
    ParsedEvent(
      Some(e.uid), e.summary, e.description, At(e.dtstart), At(e.dtend), "UTC", e.rrule, e.organizer,
      seq(|e.attendees|, i requires 0 <= i < |e.attendees| => e.attendees[i].(email := Some(EmailOf(e.attendees[i])))),
      e.location, e.categories,
      seq(|e.reminders|, i requires 0 <= i < |e.reminders| => e.reminders[i].(method_ := Chat)), e.status)
  }

  lemma {:induction false} RemindersKept(reminders: seq<Reminder>)
    ensures RecoveredReminders(reminders)
         == seq(|reminders|, i requires 0 <= i < |reminders| => reminders[i].(method_ := Chat))
       <==> forall i | 0 <= i < |reminders| :: reminders[i].minutesBefore >= 1
    ensures |RecoveredReminders(reminders)| <= |reminders|
  {
    if reminders != [] {
      var front := reminders[..|reminders| - 1];
      RemindersKept(front);
      var all := seq(|reminders|, i requires 0 <= i < |reminders| => reminders[i].(method_ := Chat));
      var most := seq(|front|, i requires 0 <= i < |front| => front[i].(method_ := Chat));
      assert all == most + [all[|front|]];
      if reminders[|front|].minutesBefore > 0 {
        var kept := RecoveredReminders(front);
        assert RecoveredReminders(reminders) == kept + [all[|front|]];
        assert kept + [all[|front|]] == all ==> kept == all[..|front|];
      }
    }
  }

  lemma DamagedIffLossy(s: string)
    ensures Damaged(s) == s <==> Lossless(s)
  {
    UnescapeEscape(s);
    RoundTripIffLossless(s);
  }

  /** An exportable event survives the round trip unchanged exactly if it is lossless. */
  lemma UnchangedIffLossless(e: Event)
    requires forall i | 0 <= i < |e.attendees| :: e.attendees[i].name != ""
    ensures Recovered(e) == AsParsed(e) <==> LosslessEvent(e)
  {
    hide Damaged, Lossless;
    DamagedIffLossy(e.summary);
    DamagedIffLossy(e.description);
    DamagedIffLossy(e.location);
    DamagedIffLossy(e.organizer);
    RemindersKept(e.reminders);
    forall i | 0 <= i < |e.categories|
      ensures Damaged(e.categories[i]) == e.categories[i] <==> Lossless(e.categories[i])
    {
      DamagedIffLossy(e.categories[i]);
    }
    forall i | 0 <= i < |e.attendees|
      ensures Damaged(e.attendees[i].name) == e.attendees[i].name <==> Lossless(e.attendees[i].name)
    {
      DamagedIffLossy(e.attendees[i].name);
    }
    AttendeesKept(e);
    CategoriesKept(e);
    TimesKept(e);
  }

  /** The end is lost only at time 0, where the importer takes it for missing. */
  lemma TimesKept(e: Event)
    ensures Seconds(e.dtstart) == e.dtstart && RecoveredEnd(e) == e.dtend
       <==> e.dtstart % 1000 == 0 && e.dtend % 1000 == 0 && (e.dtend == 0 ==> e.dtstart in {0, -60 * 60 * 1000})
  {
  }

  lemma CategoriesKept(e: Event)
    ensures DamagedAll(e.categories) == e.categories
       <==> forall i | 0 <= i < |e.categories| :: Damaged(e.categories[i]) == e.categories[i]
  {
  }

  lemma AttendeesKept(e: Event)
    requires forall i | 0 <= i < |e.attendees| :: e.attendees[i].name != ""
    ensures RecoveredAttendees(e.attendees) == AsParsed(e).attendees
       <==> forall i | 0 <= i < |e.attendees| :: Damaged(e.attendees[i].name) == e.attendees[i].name
  {
    hide Damaged;
    var kept := AsParsed(e).attendees;
    forall i | 0 <= i < |e.attendees|
      ensures RecoveredAttendees(e.attendees)[i] == kept[i] <==> Damaged(e.attendees[i].name) == e.attendees[i].name
    {
    }
  }
}
