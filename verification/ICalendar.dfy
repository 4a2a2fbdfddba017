/** iCalendar export and import of events (src/calendar-ical.ts): VEVENT and VALARM blocks of
    section 3.6.1 of RFC 5545, and the result of importing an exported calendar. */
module ICalendar {
  import opened Text
  import opened ICalText
  import opened ICalFold
  import opened ICalValue
  import opened ICalLine
  import opened Wrappers

  datatype AttendeeStatus = Accepted | Declined | Tentative | NeedsAction
  datatype EventStatus = Confirmed | Tentative | Cancelled
  datatype Method = Chat | Inbox
  datatype Attendee = Attendee(name: string, email: Option<string>, status: AttendeeStatus)
  datatype Reminder = Reminder(minutesBefore: nat, method_: Method)

  datatype Event = Event(
    uid: string, summary: string, description: string, dtstart: int, dtend: int, rrule: Option<string>,
    organizer: string, attendees: seq<Attendee>, location: string, categories: seq<string>,
    reminders: seq<Reminder>, status: EventStatus, createdAt: int, updatedAt: int)

  datatype ParsedEvent = ParsedEvent(
    uid: Option<string>, summary: string, description: string, dtstart: Time, dtend: Time, timezone: string,
    rrule: Option<string>, organizer: string, attendees: seq<Attendee>, location: string,
    categories: seq<string>, reminders: seq<Reminder>, status: EventStatus)

  // ---------- export ----------

  function EmailOf(a: Attendee): string {
    if a.email.Some? && a.email.value != "" then a.email.value else a.name + "@reflectt.ai"
  }

  function PartStat(s: AttendeeStatus): string {
    match s
    case NeedsAction => "NEEDS-ACTION"
    case Accepted => "ACCEPTED"
    case Declined => "DECLINED"
    case Tentative => "TENTATIVE"
  }

  function StatusName(s: EventStatus): string {
    match s
    case Confirmed => "CONFIRMED"
    case Tentative => "TENTATIVE"
    case Cancelled => "CANCELLED"
  }

  /** A content line without parameters. */
  function Line(name: string, value: string): string {
    name + ":" + value
  }

  function OptionalLine(name: string, text: string): seq<string> {
    if text == "" then [] else [Line(name, EscapeText(text))]
  }

  function OrganizerLine(organizer: string): string {
    "ORGANIZER" + ";" + ("CN" + "=" + EscapeText(organizer)) + ":" + ("mailto:" + (organizer + "@reflectt.ai"))
  }

  function AttendeeLine(a: Attendee): string {
    "ATTENDEE" + ";" + ("CN" + "=" + EscapeText(a.name) + ";" + ("PARTSTAT" + "=" + PartStat(a.status)))
    + ":" + ("mailto:" + EmailOf(a))
  }

  function AttendeeLines(attendees: seq<Attendee>): seq<string> {
    seq(|attendees|, i requires 0 <= i < |attendees| => AttendeeLine(attendees[i]))
  }

  function EscapeAll(texts: seq<string>): seq<string> {
    seq(|texts|, i requires 0 <= i < |texts| => EscapeText(texts[i]))
  }

  function CategoryLines(categories: seq<string>): seq<string> {
    if categories == [] then [] else [Line("CATEGORIES", Join(EscapeAll(categories), ","))]
  }

  function AlarmLines(summary: string, r: Reminder): seq<string> {
    ["BEGIN:VALARM", Line("ACTION", "DISPLAY"), Line("DESCRIPTION", "Reminder: " + EscapeText(summary)),
     Line("TRIGGER", TriggerOf(r.minutesBefore)), "END:VALARM"]
  }

  function AllAlarmLines(summary: string, reminders: seq<Reminder>): seq<string> {
    if reminders == [] then []
    else AllAlarmLines(summary, reminders[..|reminders| - 1]) + AlarmLines(summary, reminders[|reminders| - 1])
  }

  function HeadLines(e: Event): seq<string> {
    [Line("UID", e.uid), Line("DTSTAMP", ToICalDate(e.updatedAt)), Line("DTSTART", ToICalDate(e.dtstart)),
     Line("DTEND", ToICalDate(e.dtend)), Line("SUMMARY", EscapeText(e.summary))]
  }

  function RRuleLines(rrule: Option<string>): seq<string> {
    if rrule.Some? && rrule.value != "" then [Line("RRULE", rrule.value)] else []
  }

  function TailLines(e: Event): seq<string> {
    [Line("STATUS", StatusName(e.status)), Line("CREATED", ToICalDate(e.createdAt)),
     Line("LAST-MODIFIED", ToICalDate(e.updatedAt))]
  }

  /** The content lines between BEGIN:VEVENT and END:VEVENT. */
  function BodyLines(e: Event): seq<string> {
    HeadLines(e) + OptionalLine("DESCRIPTION", e.description) + OptionalLine("LOCATION", e.location)
    + RRuleLines(e.rrule) + [OrganizerLine(e.organizer)] + AttendeeLines(e.attendees)
    + CategoryLines(e.categories) + AllAlarmLines(e.summary, e.reminders) + TailLines(e)
  }

  function EventLines(e: Event): seq<string> {
    ["BEGIN:VEVENT"] + BodyLines(e) + ["END:VEVENT"]
  }

  function FoldedAll(lines: seq<string>): (r: seq<string>)
    ensures |r| == |lines|
  {
    seq(|lines|, i requires 0 <= i < |lines| => Folded(lines[i]))
  }

  function VEventText(e: Event): string {
    Join(FoldedAll(EventLines(e)), CRLF)
  }

  function VEventTexts(events: seq<Event>): seq<string> {
    seq(|events|, i requires 0 <= i < |events| => VEventText(events[i]))
  }

  function Preamble(): seq<string> {
    ["BEGIN:VCALENDAR", Line("VERSION", "2.0"), Line("PRODID", "-//Reflectt AI//Calendar v1//EN"),
     Line("CALSCALE", "GREGORIAN"), Line("METHOD", "PUBLISH"), Line("X-WR-CALNAME", "Reflectt Calendar")]
  }

  function CalendarText(events: seq<Event>): string {
    Join(Preamble() + VEventTexts(events) + ["END:VCALENDAR"], CRLF) + CRLF
  }

  method FoldAll(lines: seq<string>) returns (folded: seq<string>)
    ensures folded == FoldedAll(lines)
  {
    folded := [];
    for i := 0 to |lines|
      invariant folded == FoldedAll(lines)[..i]
    {
      var f := FoldLine(lines[i]);
      folded := folded + [f];
    }
  }

  /** The lines of an event, collected from the left. */
  lemma EventLinesInOrder(e: Event, head: seq<string>)
    requires head == ["BEGIN:VEVENT"] + HeadLines(e) + OptionalLine("DESCRIPTION", e.description)
                     + OptionalLine("LOCATION", e.location) + RRuleLines(e.rrule) + [OrganizerLine(e.organizer)]
    ensures head + AttendeeLines(e.attendees) + CategoryLines(e.categories) + AllAlarmLines(e.summary, e.reminders)
            + TailLines(e) + ["END:VEVENT"]
         == EventLines(e)
  {
    hide HeadLines, TailLines, OptionalLine, RRuleLines, OrganizerLine, AttendeeLines, CategoryLines, AllAlarmLines;
  }

  method EventToVEvent(e: Event) returns (r: string)
    ensures r == VEventText(e)
  {
    hide HeadLines, TailLines, AlarmLines, AttendeeLine, OrganizerLine, OptionalLine, RRuleLines, CategoryLines,
      FoldedAll, EventLines, Join;
    var lines := ["BEGIN:VEVENT"] + HeadLines(e);
    lines := lines + OptionalLine("DESCRIPTION", e.description) + OptionalLine("LOCATION", e.location);
    lines := lines + RRuleLines(e.rrule) + [OrganizerLine(e.organizer)];
    EventLinesInOrder(e, lines);
    ghost var start := lines;
    for i := 0 to |e.attendees|
      invariant lines == start + AttendeeLines(e.attendees)[..i]
    {
      lines := lines + [AttendeeLine(e.attendees[i])];
    }
    assert AttendeeLines(e.attendees)[..|e.attendees|] == AttendeeLines(e.attendees);
    assert lines == start + AttendeeLines(e.attendees);
    lines := lines + CategoryLines(e.categories);
    start := lines;
    for i := 0 to |e.reminders|
      invariant lines == start + AllAlarmLines(e.summary, e.reminders[..i])
    {
      assert e.reminders[..i + 1][..i] == e.reminders[..i];
      lines := lines + AlarmLines(e.summary, e.reminders[i]);
    }
    assert e.reminders[..|e.reminders|] == e.reminders;
    lines := lines + TailLines(e) + ["END:VEVENT"];
    var folded := FoldAll(lines);
    r := Join(folded, CRLF);
  }

  method ExportICS(events: seq<Event>) returns (r: string)
    ensures r == CalendarText(events)
  {
    hide Preamble, VEventText;
    var lines := Preamble();
    for i := 0 to |events|
      invariant lines == Preamble() + VEventTexts(events)[..i]
    {
      var v := EventToVEvent(events[i]);
      lines := lines + [v];
    }
    assert VEventTexts(events)[..|events|] == VEventTexts(events);
    lines := lines + ["END:VCALENDAR"];
    r := Join(lines, CRLF) + CRLF;
  }

  // ---------- import ----------

  const EMPTY: ParsedEvent := ParsedEvent(None, "", "", At(0), At(0), "UTC", None, "", [], "", [], [], Confirmed)

  /** The state of the VEVENT scanner between two lines. */
  datatype Scan = Scan(event: ParsedEvent, inAlarm: bool, alarmTrigger: int)

  function StripMailto(v: string): string {
    if |v| >= 7 && Lower(v[..7]) == "mailto:" then v[7..] else v
  }

  function BeforeAt(v: string): string {
    Split(v, '@')[0]
  }

  function Param(params: map<string, string>, key: string): string {
    if key in params then params[key] else ""
  }

  function StatusOfPartStat(s: string): AttendeeStatus {
    if s == "accepted" then AttendeeStatus.Accepted
    else if s == "declined" then AttendeeStatus.Declined
    else if s == "tentative" then AttendeeStatus.Tentative
    else AttendeeStatus.NeedsAction
  }

  function ParsedAttendee(p: ParsedLine): Attendee {
    var cn := Param(p.params, "CN");
    var email := StripMailto(p.value);
    var partstat := Param(p.params, "PARTSTAT");
    Attendee(if cn != "" then UnescapeText(cn) else BeforeAt(email),
             if email == "" then None else Some(email),
             StatusOfPartStat(Lower(if partstat == "" then "NEEDS-ACTION" else partstat)))
  }

  function ParsedCategories(value: string): seq<string> {
    var parts := Split(value, ',');
    seq(|parts|, i requires 0 <= i < |parts| => UnescapeText(Trim(parts[i])))
  }

  function ParsedStatus(value: string): EventStatus {
    if Upper(value) == "TENTATIVE" then EventStatus.Tentative
    else if Upper(value) == "CANCELLED" then Cancelled
    else Confirmed
  }

  datatype Property = Uid | Summary | Description | DtStart | DtEnd | RRule | Organizer | Participant
                    | Location | Categories | Status | Unknown

  function PropertyOf(name: string): Property {
    if name == "UID" then Uid
    else if name == "SUMMARY" then Summary
    else if name == "DESCRIPTION" then Description
    else if name == "DTSTART" then DtStart
    else if name == "DTEND" then DtEnd
    else if name == "RRULE" then RRule
    else if name == "ORGANIZER" then Organizer
    else if name == "ATTENDEE" then Participant
    else if name == "LOCATION" then Location
    else if name == "CATEGORIES" then Categories
    else if name == "STATUS" then Status
    else Unknown
  }

  function ApplyProperty(e: ParsedEvent, p: ParsedLine, fallback: string -> int): ParsedEvent {
    match PropertyOf(p.name)
    case Uid => e.(uid := Some(p.value))
    case Summary => e.(summary := UnescapeText(p.value))
    case Description => e.(description := UnescapeText(p.value))
    case DtStart =>
      var tzid := Param(p.params, "TZID");
      e.(dtstart := ParseICalDate(p.value, fallback), timezone := if tzid == "" then e.timezone else tzid)
    case DtEnd => e.(dtend := ParseICalDate(p.value, fallback))
    case RRule => e.(rrule := Some(p.value))
    case Organizer =>
      var cn := Param(p.params, "CN");
      e.(organizer := if cn != "" then UnescapeText(cn) else BeforeAt(StripMailto(p.value)))
    case Participant => e.(attendees := e.attendees + [ParsedAttendee(p)])
    case Location => e.(location := UnescapeText(p.value))
    case Categories => e.(categories := ParsedCategories(p.value))
    case Status => e.(status := ParsedStatus(p.value))
    case Unknown => e
  }

  function ScanLine(s: Scan, line: string, fallback: string -> int): Scan {
    if line == "BEGIN:VALARM" then s.(inAlarm := true)
    else if line == "END:VALARM" then
      Scan(if s.alarmTrigger > 0
           then s.event.(reminders := s.event.reminders + [Reminder(s.alarmTrigger, Chat)]) else s.event,
           false, 0)
    else
      var p := ContentLineOf(line);
      if !s.inAlarm then s.(event := ApplyProperty(s.event, p, fallback))
      else if p.name == "TRIGGER" then s.(alarmTrigger := ParseTrigger(p.value))
      else s
  }

  function ScanLines(s: Scan, lines: seq<string>, fallback: string -> int): Scan
    decreases |lines|
  {
    if lines == [] then s else ScanLines(ScanLine(s, lines[0], fallback), lines[1..], fallback)
  }

  predicate IsZeroOrNaN(t: Time) {
    t == NaN || t == At(0)
  }

  /** A missing or zero end becomes one hour after a nonzero start. */
  function DefaultEnd(e: ParsedEvent): ParsedEvent {
    if !IsZeroOrNaN(e.dtstart) && IsZeroOrNaN(e.dtend) then e.(dtend := At(e.dtstart.ms + 60 * 60 * 1000)) else e
  }

  function VEventOf(lines: seq<string>, fallback: string -> int): ParsedEvent {
    DefaultEnd(ScanLines(Scan(EMPTY, false, 0), lines, fallback).event)
  }

  method ParseVEvent(lines: seq<string>, fallback: string -> int) returns (e: ParsedEvent)
    ensures e == VEventOf(lines, fallback)
  {
    e := EMPTY;
    var inAlarm, alarmTrigger := false, 0;
    for i := 0 to |lines|
      invariant ScanLines(Scan(e, inAlarm, alarmTrigger), lines[i..], fallback)
             == ScanLines(Scan(EMPTY, false, 0), lines, fallback)
    {
      var line := lines[i];
      assert lines[i..][1..] == lines[i + 1..];
      ghost var next := ScanLine(Scan(e, inAlarm, alarmTrigger), line, fallback);
      if line == "BEGIN:VALARM" {
        inAlarm := true;
      } else if line == "END:VALARM" {
        if alarmTrigger > 0 {
          e := e.(reminders := e.reminders + [Reminder(alarmTrigger, Chat)]);
        }
        inAlarm, alarmTrigger := false, 0;
      } else if inAlarm {
        var p := ParseContentLine(line);
        if p.name == "TRIGGER" {
          alarmTrigger := ParseTrigger(p.value);
        }
      } else {
        var p := ParseContentLine(line);
        e := ApplyProperty(e, p, fallback);
      }
      assert next == Scan(e, inAlarm, alarmTrigger);
    }
    e := DefaultEnd(e);
  }

  /** The state of the file scanner; the collected lines are not dropped at END:VEVENT. */
  datatype FileScan = FileScan(events: seq<ParsedEvent>, current: seq<string>, inEvent: bool)

  function FileLine(s: FileScan, line: string, fallback: string -> int): FileScan {
    if line == "BEGIN:VEVENT" then s.(inEvent := true, current := [])
    else if line == "END:VEVENT" then s.(inEvent := false, events := s.events + [VEventOf(s.current, fallback)])
    else if s.inEvent then s.(current := s.current + [line])
    else s
  }

  function FileScanned(s: FileScan, lines: seq<string>, fallback: string -> int): FileScan
    decreases |lines|
  {
    if lines == [] then s else FileScanned(FileLine(s, lines[0], fallback), lines[1..], fallback)
  }

  function ParsedCalendar(text: string, fallback: string -> int): seq<ParsedEvent> {
    FileScanned(FileScan([], [], false), Unfolded(text), fallback).events
  }

  method ParseICS(text: string, fallback: string -> int) returns (events: seq<ParsedEvent>)
    ensures events == ParsedCalendar(text, fallback)
  {
    var lines := UnfoldLines(text);
    events := [];
    var current: seq<string>, inEvent := [], false;
    for i := 0 to |lines|
      invariant FileScanned(FileScan(events, current, inEvent), lines[i..], fallback)
             == FileScanned(FileScan([], [], false), lines, fallback)
    {
      var line := lines[i];
      assert lines[i..][1..] == lines[i + 1..];
      ghost var next := FileLine(FileScan(events, current, inEvent), line, fallback);
      if line == "BEGIN:VEVENT" {
        inEvent, current := true, [];
      } else if line == "END:VEVENT" {
        inEvent := false;
        var e := ParseVEvent(current, fallback);
        events := events + [e];
      } else if inEvent {
        current := current + [line];
      }
      assert next == FileScan(events, current, inEvent);
    }
  }
}
