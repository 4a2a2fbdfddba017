/** What an exported calendar says (src/calendar-ical.ts), line by line: the properties that section 3.6 of RFC 5545
    asks for, with the values that other programs read in them. */
module ICalExport {
  import opened Text
  import opened ICalText
  import opened ICalFold
  import opened ICalValue
  import opened ICalLine
  import opened ICalendar
  import opened ICalRoundTrip
  import opened Wrappers

  /** Unfolding an exported file gives its content lines: the preamble, the events in order, and the end. */
  lemma ExportedFile(events: seq<Event>)
    requires AllExportable(events)
    ensures Unfolded(CalendarText(events)) == FileLines(events)
  {
    hide Preamble, AllEventLines, CalendarText, Unfolded, Rendered, ContentLine;
    CalendarRendered(events);
    PreambleLines();
    CalendarBounds();
    BodyLinesAreContentLines(Preamble());
    BodyLinesAreContentLines(["END:VCALENDAR"]);
    EventsContentLines(events);
    UnfoldRendered(FileLines(events));
  }

  lemma VersionLine()
    ensures Line("VERSION", "2.0") == "VERSION:2.0" && Line("METHOD", "PUBLISH") == "METHOD:PUBLISH"
  {
  }

  lemma ProducerLine()
    ensures Line("PRODID", "-//Reflectt AI//Calendar v1//EN") == "PRODID:-//Reflectt AI//Calendar v1//EN"
  {
  }

  lemma ScaleLine()
    ensures Line("CALSCALE", "GREGORIAN") == "CALSCALE:GREGORIAN"
  {
  }

  lemma CalendarNameLine()
    ensures Line("X-WR-CALNAME", "Reflectt Calendar") == "X-WR-CALNAME:Reflectt Calendar"
  {
  }

  /** The file is a published calendar of version 2.0, with its producer and a name. */
  lemma ExportedFrame(events: seq<Event>)
    ensures FileLines(events)
         == ["BEGIN:VCALENDAR", "VERSION:2.0", "PRODID:-//Reflectt AI//Calendar v1//EN", "CALSCALE:GREGORIAN",
             "METHOD:PUBLISH", "X-WR-CALNAME:Reflectt Calendar"] + AllEventLines(events) + ["END:VCALENDAR"]
  {
    hide AllEventLines, Line;
    VersionLine();
    ProducerLine();
    ScaleLine();
    CalendarNameLine();
  }

  /** The line is a property without parameters. */
  predicate Says(line: string, name: string, value: string) {
    ContentLineOf(line) == ParsedLine(name, map[], value)
  }

  /** The line is a property that holds the time, down to the second. */
  predicate SaysTime(line: string, name: string, t: int, fallback: string -> int) {
    var p := ContentLineOf(line);
    p.name == name && p.params == map[] && ParseICalDate(p.value, fallback) == At(t - t % 1000)
  }

  /** The line is a property that holds the text, as far as escaping keeps it. */
  predicate SaysText(line: string, name: string, text: string) {
    var p := ContentLineOf(line);
    p.name == name && p.params == map[] && UnescapeText(p.value) == Damaged(text)
  }

  lemma LineSays(name: string, value: string)
    requires Keyword(name)
    ensures Says(Line(name, value), name, value)
  {
    KeywordFacts(name);
    SimpleLine(name, value);
  }

  lemma LineSaysTime(name: string, t: int, fallback: string -> int)
    requires Keyword(name) && FourDigitYear(t)
    ensures SaysTime(Line(name, ToICalDate(t)), name, t, fallback)
  {
    LineSays(name, ToICalDate(t));
    DateRoundTrip(t, fallback);
  }

  lemma LineSaysText(name: string, text: string)
    requires Keyword(name)
    ensures SaysText(Line(name, EscapeText(text)), name, text)
  {
    LineSays(name, EscapeText(text));
    UnescapeEscape(text);
  }

  /** The first lines of an event: its id, the time of its last change, its start and end, and its summary. */
  lemma ExportedHead(e: Event, fallback: string -> int)
    requires FourDigitYear(e.dtstart) && FourDigitYear(e.dtend) && FourDigitYear(e.updatedAt)
    ensures var l := EventLines(e);
            |l| >= 6 && l[0] == "BEGIN:VEVENT" && Says(l[1], "UID", e.uid)
            && SaysTime(l[2], "DTSTAMP", e.updatedAt, fallback) && SaysTime(l[3], "DTSTART", e.dtstart, fallback)
            && SaysTime(l[4], "DTEND", e.dtend, fallback) && SaysText(l[5], "SUMMARY", e.summary)
  {
    hide Line, ToICalDate, EscapeText, SaysTime, Says, SaysText, AttendeeLines, AllAlarmLines, OptionalLine,
      RRuleLines, OrganizerLine, CategoryLines, TailLines, FourDigitYear, ContentLineOf;
    LineSays("UID", e.uid);
    LineSaysTime("DTSTAMP", e.updatedAt, fallback);
    LineSaysTime("DTSTART", e.dtstart, fallback);
    LineSaysTime("DTEND", e.dtend, fallback);
    LineSaysText("SUMMARY", e.summary);
  }

  /** The last lines of an event: its status, and when it was created and last changed. */
  lemma ExportedTail(e: Event, fallback: string -> int)
    requires FourDigitYear(e.createdAt) && FourDigitYear(e.updatedAt)
    ensures var l, n := EventLines(e), |EventLines(e)|;
            n >= 4 && l[n - 1] == "END:VEVENT"
            && Says(l[n - 4], "STATUS", match e.status
                                        case Confirmed => "CONFIRMED"
                                        case Tentative => "TENTATIVE"
                                        case Cancelled => "CANCELLED")
            && SaysTime(l[n - 3], "CREATED", e.createdAt, fallback)
            && SaysTime(l[n - 2], "LAST-MODIFIED", e.updatedAt, fallback)
  {
    hide Line, ToICalDate, SaysTime, Says, AttendeeLines, AllAlarmLines, HeadLines, CategoryLines, OptionalLine,
      RRuleLines, OrganizerLine, FourDigitYear, ContentLineOf;
    LineSays("STATUS", StatusName(e.status));
    LineSaysTime("CREATED", e.createdAt, fallback);
    LineSaysTime("LAST-MODIFIED", e.updatedAt, fallback);
  }

  lemma TriggerLine(minutes: nat)
    ensures var p := ContentLineOf(Line("TRIGGER", TriggerOf(minutes)));
            p.name == "TRIGGER" && ParseTrigger(p.value) == minutes
  {
    hide Line, ParseTrigger, TriggerOf, ContentLineOf;
    LineSays("TRIGGER", TriggerOf(minutes));
    TriggerRoundTrip(minutes);
  }

  /** An alarm shows a message so many minutes before the event. */
  lemma ExportedAlarm(summary: string, r: Reminder)
    ensures var l := AlarmLines(summary, r);
            |l| == 5 && l[0] == "BEGIN:VALARM" && l[4] == "END:VALARM"
            && Says(l[1], "ACTION", "DISPLAY")
            && Says(l[2], "DESCRIPTION", "Reminder: " + EscapeText(summary))
            && ContentLineOf(l[3]).name == "TRIGGER" && ParseTrigger(ContentLineOf(l[3]).value) == r.minutesBefore
  {
    hide Line, EscapeText, ParseTrigger, TriggerOf, ContentLineOf, Says;
    LineSays("ACTION", "DISPLAY");
    LineSays("DESCRIPTION", "Reminder: " + EscapeText(summary));
    TriggerLine(r.minutesBefore);
  }

  /** An attendee is written with the name, the answer and an address, which is made up where none is known. */
  lemma ExportedAttendee(a: Attendee)
    requires Plain(a.name)
    ensures var p := ContentLineOf(AttendeeLine(a));
            p.name == "ATTENDEE" && p.params.Keys == {"CN", "PARTSTAT"}
            && UnescapeText(p.params["CN"]) == Damaged(a.name)
            && p.params["PARTSTAT"] == (match a.status
                                        case Accepted => "ACCEPTED"
                                        case Declined => "DECLINED"
                                        case Tentative => "TENTATIVE"
                                        case NeedsAction => "NEEDS-ACTION")
            && p.value == "mailto:" + if a.email in {None, Some("")} then a.name + "@reflectt.ai" else a.email.value
  {
    hide EscapeText, UnescapeText, ContentLineOf, AttendeeLine;
    AttendeeParsed(a);
    UnescapeEscape(a.name);
    assert "CN" != "PARTSTAT";
  }

  /** The organizer is written with the name and an address of the server. */
  lemma ExportedOrganizer(organizer: string)
    requires Plain(organizer)
    ensures var p := ContentLineOf(OrganizerLine(organizer));
            p.name == "ORGANIZER" && p.params.Keys == {"CN"} && UnescapeText(p.params["CN"]) == Damaged(organizer)
            && p.value == "mailto:" + organizer + "@reflectt.ai"
  {
    hide EscapeText, UnescapeText, ContentLineOf, OrganizerLine;
    OrganizerParsed(organizer);
    UnescapeEscape(organizer);
    assert "mailto:" + (organizer + "@reflectt.ai") == "mailto:" + organizer + "@reflectt.ai";
  }
}
