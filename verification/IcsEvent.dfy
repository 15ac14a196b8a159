/**
 The calendar event and the iCalendar object printed for it: which content lines appear, that a reader gets them
 back, and that the fields can be read out of them again.
 */
module IcsEvent {
  import opened Wrappers
  import opened IcsText

  datatype Frequency = Daily | Weekly | Monthly | Yearly

  datatype Rule = Rule(frequency: Frequency, interval: nat, count: Option<nat>, until: Option<int>)

  /** Instants are nanoseconds since the epoch. */
  datatype Event = Event(
    summary: string,
    description: Option<string>,
    start: int,
    end: int,
    location: Option<string>,
    recurrence: Option<Rule>,
    uid: string,
    timeZone: Option<string>,
    durationMinutes: Option<int>)

  /** The calendar library: which zone names it knows, and how it writes an instant in UTC and in a zone. */
  datatype Chrono = Chrono(isZone: string -> bool, utc: int -> string, local: (string, int) -> string)

  predicate PlainText(s: string) {
    forall c <- s :: c as int < 0x80 && c != '\r' && c != '\n' && c != ';'
  }

  /** Formatted instants consist of digits, letters and signs. */
  ghost predicate WritesPlainly(chrono: Chrono) {
    && (forall t :: PlainText(chrono.utc(t)))
    && (forall z, t :: PlainText(chrono.local(z, t)))
  }

  const MINUTE := 60_000_000_000

  /** An event that would not end after it starts lasts its duration, if that is positive, or one minute. */
  function EffectiveEnd(e: Event): (end: int)
    ensures end > e.start
    ensures e.end > e.start ==> end == e.end
    ensures e.end <= e.start && e.durationMinutes.Some? && e.durationMinutes.value > 0 ==>
              end - e.start == e.durationMinutes.value * MINUTE
    ensures e.end <= e.start && (e.durationMinutes.None? || e.durationMinutes.value <= 0) ==> end - e.start == MINUTE
  {
    if e.end > e.start then e.end
    else
      var minutes := if e.durationMinutes.Some? && e.durationMinutes.value > 0 then e.durationMinutes.value else 1;
      e.start + minutes * MINUTE
  }

  // ----- Numbers and rules -----

  function Decimal(n: nat): (s: string)
    ensures s != ""
  {
    if n < 10 then [(n + '0' as int) as char]
    else Decimal(n / 10) + [(n % 10 + '0' as int) as char]
  }

  predicate IsDigit(c: char) { '0' <= c <= '9' }

  function ParseDecimal(s: string): nat {
    if s == "" then 0
    else
      var last := s[|s| - 1];
      10 * ParseDecimal(s[..|s| - 1]) + if IsDigit(last) then last as int - '0' as int else 0
  }

  lemma {:induction false} DecimalRoundTrip(n: nat)
    ensures ParseDecimal(Decimal(n)) == n
    ensures forall c <- Decimal(n) :: IsDigit(c)
  {
    var s := Decimal(n);
    if n < 10 {
      assert s[..|s| - 1] == "";
    } else {
      DecimalRoundTrip(n / 10);
      assert s[..|s| - 1] == Decimal(n / 10);
    }
  }

  function FrequencyName(f: Frequency): string {
    match f
    case Daily => "DAILY"
    case Weekly => "WEEKLY"
    case Monthly => "MONTHLY"
    case Yearly => "YEARLY"
  }

  function FrequencyOf(name: string): Option<Frequency> {
    if name == "DAILY" then Some(Daily)
    else if name == "WEEKLY" then Some(Weekly)
    else if name == "MONTHLY" then Some(Monthly)
    else if name == "YEARLY" then Some(Yearly)
    else None
  }

  function IntervalText(r: Rule): string {
    if r.interval > 1 then ";" + ("INTERVAL=" + Decimal(r.interval)) else ""
  }

  function BoundText(r: Rule, chrono: Chrono): string {
    if r.count.Some? then ";" + ("COUNT=" + Decimal(r.count.value))
    else if r.until.Some? then ";" + ("UNTIL=" + chrono.utc(r.until.value))
    else ""
  }

  function RuleText(r: Rule, chrono: Chrono): string {
    "FREQ=" + FrequencyName(r.frequency) + IntervalText(r) + BoundText(r, chrono)
  }

  // ----- The lines -----

  predicate Zoned(e: Event, chrono: Chrono) {
    e.timeZone.Some? && chrono.isZone(e.timeZone.value)
  }

  function Header(): seq<string> {
    ["BEGIN:VCALENDAR", "VERSION:2.0", "PRODID:-//Proton Meet//EN", "CALSCALE:GREGORIAN", "METHOD:PUBLISH"]
  }

  function ZoneHint(e: Event, chrono: Chrono): seq<string> {
    if Zoned(e, chrono) then ["X-WR-TIMEZONE:" + e.timeZone.value] else []
  }

  function Identity(e: Event, chrono: Chrono, now: int): seq<string> {
    ["BEGIN:VEVENT", "UID:" + EscapeIcsText(e.uid), "DTSTAMP:" + chrono.utc(now)]
  }

  function Times(e: Event, chrono: Chrono): seq<string> {
    var end := EffectiveEnd(e);
    if Zoned(e, chrono) then
      var zone := e.timeZone.value;
      ["DTSTART;TZID=" + (zone + ":" + chrono.local(zone, e.start)),
       "DTEND;TZID=" + (zone + ":" + chrono.local(zone, end))]
    else
      (if e.timeZone.Some? then ["X-PM-TIMEZONE:" + e.timeZone.value] else [])
      + ["DTSTART:" + chrono.utc(e.start), "DTEND:" + chrono.utc(end)]
  }

  function Summary(e: Event): seq<string> {
    ["SUMMARY:" + EscapeIcsText(e.summary)]
  }

  function Description(e: Event): seq<string> {
    if e.description.Some? then ["DESCRIPTION:" + EscapeIcsText(e.description.value)] else []
  }

  function Location(e: Event): seq<string> {
    if e.location.Some? then ["LOCATION:" + EscapeIcsText(e.location.value)] else []
  }

  function Recurrence(e: Event, chrono: Chrono): seq<string> {
    if e.recurrence.Some? then ["RRULE:" + RuleText(e.recurrence.value, chrono)] else []
  }

  function Footer(): seq<string> {
    ["STATUS:CONFIRMED", "SEQUENCE:0", "END:VEVENT", "END:VCALENDAR"]
  }

  /** The content lines of the object, in order. */
  function LinesOf(e: Event, chrono: Chrono, now: int): seq<string> {
    Header() + ZoneHint(e, chrono) + Identity(e, chrono, now) + Times(e, chrono) + Summary(e)
    + Description(e) + Location(e) + Recurrence(e, chrono) + Footer()
  }

  // ----- Printing -----

  /** Pushes one line; `lines` records what has been pushed so far. */
  method Push(out: string, ghost lines: seq<string>, line: string) returns (after: string, ghost pushed: seq<string>)
    requires out == Print(lines)
    ensures after == Print(lines + [line]) && pushed == lines + [line]
  {
    after := PushLine(out, line);
    pushed := lines + [line];
    PrintAppend(lines, [line]);
    assert Print([line]) == Folded(line) + Print([]);
    assert Folded(line) + "" == Folded(line);
  }

  /** Where the object ends the event. */
  method EndOf(e: Event) returns (end: int)
    ensures end == EffectiveEnd(e)
  {
    end := e.end;
    if end <= e.start {
      var minutes := if e.durationMinutes.Some? && e.durationMinutes.value > 0 then e.durationMinutes.value else 1;
      end := e.start + minutes * MINUTE;
    }
  }

  method PushTimes(e: Event, chrono: Chrono, end: int, out: string, ghost lines: seq<string>)
    returns (ics: string, ghost pushed: seq<string>)
    requires out == Print(lines) && end == EffectiveEnd(e)
    ensures ics == Print(lines + Times(e, chrono)) && pushed == lines + Times(e, chrono)
  {
    ics, pushed := out, lines;
    match e.timeZone {
      case Some(zone) =>
        if chrono.isZone(zone) {
          ics, pushed := Push(ics, pushed, "DTSTART;TZID=" + (zone + ":" + chrono.local(zone, e.start)));
          ics, pushed := Push(ics, pushed, "DTEND;TZID=" + (zone + ":" + chrono.local(zone, end)));
        } else {
          ics, pushed := Push(ics, pushed, "X-PM-TIMEZONE:" + zone);
          ics, pushed := Push(ics, pushed, "DTSTART:" + chrono.utc(e.start));
          ics, pushed := Push(ics, pushed, "DTEND:" + chrono.utc(end));
        }
      case None =>
        ics, pushed := Push(ics, pushed, "DTSTART:" + chrono.utc(e.start));
        ics, pushed := Push(ics, pushed, "DTEND:" + chrono.utc(end));
    }
    assert pushed == lines + Times(e, chrono);
  }

  method PushRecurrence(r: Rule, chrono: Chrono, out: string, ghost lines: seq<string>)
    returns (ics: string, ghost pushed: seq<string>)
    requires out == Print(lines)
    ensures ics == Print(lines + ["RRULE:" + RuleText(r, chrono)]) && pushed == lines + ["RRULE:" + RuleText(r, chrono)]
  {
    var rule := "RRULE:" + ("FREQ=" + FrequencyName(r.frequency));
    ghost var frequency := rule;
    if r.interval > 1 {
      rule := rule + (";" + ("INTERVAL=" + Decimal(r.interval)));
    }
    assert rule == frequency + IntervalText(r);
    ghost var interval := rule;
    if r.count.Some? {
      rule := rule + (";" + ("COUNT=" + Decimal(r.count.value)));
    } else if r.until.Some? {
      rule := rule + (";" + ("UNTIL=" + chrono.utc(r.until.value)));
    }
    assert rule == interval + BoundText(r, chrono);
    Regroup("RRULE:", "FREQ=" + FrequencyName(r.frequency), IntervalText(r));
    Regroup("RRULE:", "FREQ=" + FrequencyName(r.frequency) + IntervalText(r), BoundText(r, chrono));
    ics, pushed := Push(out, lines, rule);
  }

  method PushHeader(e: Event, chrono: Chrono) returns (ics: string, ghost pushed: seq<string>)
    ensures ics == Print(Header() + ZoneHint(e, chrono)) && pushed == Header() + ZoneHint(e, chrono)
  {
    ics, pushed := Push("", [], "BEGIN:VCALENDAR");
    ics, pushed := Push(ics, pushed, "VERSION:2.0");
    ics, pushed := Push(ics, pushed, "PRODID:-//Proton Meet//EN");
    ics, pushed := Push(ics, pushed, "CALSCALE:GREGORIAN");
    ics, pushed := Push(ics, pushed, "METHOD:PUBLISH");
    assert pushed == Header();
    if e.timeZone.Some? && chrono.isZone(e.timeZone.value) {
      ics, pushed := Push(ics, pushed, "X-WR-TIMEZONE:" + e.timeZone.value);
    }
    assert pushed == Header() + ZoneHint(e, chrono);
  }

  method PushIdentity(e: Event, chrono: Chrono, now: int, out: string, ghost lines: seq<string>)
    returns (ics: string, ghost pushed: seq<string>)
    requires out == Print(lines)
    ensures ics == Print(lines + Identity(e, chrono, now)) && pushed == lines + Identity(e, chrono, now)
  {
    ics, pushed := Push(out, lines, "BEGIN:VEVENT");
    ics, pushed := Push(ics, pushed, "UID:" + EscapeIcsText(e.uid));
    ics, pushed := Push(ics, pushed, "DTSTAMP:" + chrono.utc(now));
    assert pushed == lines + Identity(e, chrono, now);
  }

  method PushFooter(out: string, ghost lines: seq<string>) returns (ics: string)
    requires out == Print(lines)
    ensures ics == Print(lines + Footer())
  {
    ghost var pushed;
    ics, pushed := Push(out, lines, "STATUS:CONFIRMED");
    ics, pushed := Push(ics, pushed, "SEQUENCE:0");
    ics, pushed := Push(ics, pushed, "END:VEVENT");
    ics, pushed := Push(ics, pushed, "END:VCALENDAR");
    assert pushed == lines + Footer();
  }

  method ToIcs(e: Event, chrono: Chrono, now: int) returns (ics: string)
    ensures ics == Print(LinesOf(e, chrono, now))
  {
    var end := EndOf(e);
    ghost var pushed;
    ics, pushed := PushHeader(e, chrono);
    ics, pushed := PushIdentity(e, chrono, now, ics, pushed);
    ics, pushed := PushTimes(e, chrono, end, ics, pushed);
    ics, pushed := Push(ics, pushed, "SUMMARY:" + EscapeIcsText(e.summary));
    assert forall lines: seq<string> :: lines + [] == lines;
    if e.description.Some? {
      ics, pushed := Push(ics, pushed, "DESCRIPTION:" + EscapeIcsText(e.description.value));
    }
    if e.location.Some? {
      ics, pushed := Push(ics, pushed, "LOCATION:" + EscapeIcsText(e.location.value));
    }
    if e.recurrence.Some? {
      ics, pushed := PushRecurrence(e.recurrence.value, chrono, ics, pushed);
    }
    ics := PushFooter(ics, pushed);
  }
}
