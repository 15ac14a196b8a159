/**
 Reading a printed event: its content lines come back exactly when the time zone string holds no line break and no
 fold cuts a character, and the fields can then be looked up in them.
 */
module IcsReading {
  import opened Wrappers
  import opened IcsText
  import opened IcsEvent

  // ----- Which lines are printed -----

  ghost predicate OneLineZone(e: Event) {
    e.timeZone.Some? ==> OneLine(e.timeZone.value)
  }

  lemma NoCrIsOneLine(s: string)
    requires '\r' !in s
    ensures OneLine(s)
  {
  }

  /** A property whose value has no carriage return. */
  lemma PropertyIsOneLine(name: string, value: string)
    requires '\r' !in name && '\r' !in value
    ensures OneLine(name + value)
  {
    NoCrIsOneLine(name + value);
  }

  lemma {:induction false} TextIsOneLine(name: string, text: string)
    requires '\r' !in name
    ensures OneLine(name + EscapeIcsText(text))
  {
    EscapedIsOneLine(text);
    PropertyIsOneLine(name, EscapeIcsText(text));
  }

  lemma ZoneIsOneLine(name: string, zone: string, rest: string)
    requires '\r' !in name && '\r' !in rest && (rest == "" || rest[0] != '\n')
    ensures OneLine(name + (zone + rest)) <==> OneLine(zone)
  {
    var all := name + (zone + rest);
    assert forall i | 0 <= i < |zone| :: CrlfAt(zone, i) ==> CrlfAt(all, |name| + i);
    assert forall i | 0 <= i < |name| :: all[i] == name[i];
    assert forall i | 0 <= i < |zone| :: all[|name| + i] == zone[i];
    assert forall i | 0 <= i < |rest| :: all[|name| + |zone| + i] == rest[i];
    forall i | CrlfAt(all, i) ensures CrlfAt(zone, i - |name|) {
      assert i >= |name|;
      assert i < |name| + |zone|;
    }
  }

  lemma AllOneLineConcat(a: seq<string>, b: seq<string>)
    ensures AllOneLine(a + b) <==> AllOneLine(a) && AllOneLine(b)
    ensures Printable(a + b) <==> Printable(a) && Printable(b)
  {
    assert forall line <- a :: line in a + b;
    assert forall line <- b :: line in a + b;
  }

  lemma FixedLinesAreOneLine()
    ensures AllOneLine(Header()) && AllOneLine(Footer())
    ensures Printable(Header()) && Printable(Footer())
  {
    forall line | line in Header() || line in Footer() ensures OneLine(line) {
      NoCrIsOneLine(line);
    }
  }

  lemma {:induction false} ZoneHintIsOneLine(e: Event, chrono: Chrono)
    ensures Printable(ZoneHint(e, chrono))
    ensures AllOneLine(ZoneHint(e, chrono)) <==> !Zoned(e, chrono) || OneLine(e.timeZone.value)
  {
    if Zoned(e, chrono) {
      assert e.timeZone.value + "" == e.timeZone.value;
      ZoneIsOneLine("X-WR-TIMEZONE:", e.timeZone.value, "");
      assert ZoneHint(e, chrono)[0] in ZoneHint(e, chrono);
    }
  }

  lemma {:induction false} IdentityIsOneLine(e: Event, chrono: Chrono, now: int)
    requires WritesPlainly(chrono)
    ensures Printable(Identity(e, chrono, now)) && AllOneLine(Identity(e, chrono, now))
  {
    NoCrIsOneLine("BEGIN:VEVENT");
    TextIsOneLine("UID:", e.uid);
    assert PlainText(chrono.utc(now));
    PropertyIsOneLine("DTSTAMP:", chrono.utc(now));
  }

  lemma {:induction false} ZonedTimesAreOneLine(e: Event, chrono: Chrono)
    requires WritesPlainly(chrono) && Zoned(e, chrono)
    ensures Printable(Times(e, chrono))
    ensures AllOneLine(Times(e, chrono)) <==> OneLine(e.timeZone.value)
  {
    var zone, end := e.timeZone.value, EffectiveEnd(e);
    var from, to := chrono.local(zone, e.start), chrono.local(zone, end);
    assert PlainText(from) && PlainText(to);
    ZoneIsOneLine("DTSTART;TZID=", zone, ":" + from);
    ZoneIsOneLine("DTEND;TZID=", zone, ":" + to);
    Regroup(zone, ":", from);
    Regroup(zone, ":", to);
    var times := Times(e, chrono);
    assert times[0] in times;
    assert times == ["DTSTART;TZID=" + (zone + (":" + from)), "DTEND;TZID=" + (zone + (":" + to))];
  }

  lemma {:induction false} UtcTimesAreOneLine(e: Event, chrono: Chrono)
    requires WritesPlainly(chrono) && !Zoned(e, chrono)
    ensures Printable(Times(e, chrono))
    ensures AllOneLine(Times(e, chrono)) <==> OneLineZone(e)
  {
    var end := EffectiveEnd(e);
    assert PlainText(chrono.utc(e.start)) && PlainText(chrono.utc(end));
    PropertyIsOneLine("DTSTART:", chrono.utc(e.start));
    PropertyIsOneLine("DTEND:", chrono.utc(end));
    if e.timeZone.Some? {
      var zone := e.timeZone.value;
      assert zone + "" == zone;
      ZoneIsOneLine("X-PM-TIMEZONE:", zone, "");
      assert Times(e, chrono)[0] == "X-PM-TIMEZONE:" + zone;
      assert Times(e, chrono)[0] in Times(e, chrono);
    }
  }

  lemma {:induction false} TextsAreOneLine(e: Event)
    ensures Printable(Summary(e)) && AllOneLine(Summary(e))
    ensures Printable(Description(e)) && AllOneLine(Description(e))
    ensures Printable(Location(e)) && AllOneLine(Location(e))
  {
    TextIsOneLine("SUMMARY:", e.summary);
    if e.description.Some? {
      TextIsOneLine("DESCRIPTION:", e.description.value);
    }
    if e.location.Some? {
      TextIsOneLine("LOCATION:", e.location.value);
    }
  }

  lemma UtcIsPlain(chrono: Chrono, t: int)
    requires WritesPlainly(chrono)
    ensures PlainText(chrono.utc(t))
  {
  }

  predicate Plain(s: string) {
    '\r' !in s && Ascii(s)
  }

  lemma PlainConcat(s: string, t: string)
    requires Plain(s) && Plain(t)
    ensures Plain(s + t)
  {
  }

  lemma {:induction false} DecimalIsPlain(n: nat)
    ensures Plain(Decimal(n))
  {
    DecimalRoundTrip(n);
    forall c | c in Decimal(n) ensures c != '\r' && c as int < 0x80 {
      assert IsDigit(c);
    }
  }

  lemma {:induction false} IntervalIsPlain(r: Rule)
    ensures Plain(IntervalText(r))
  {
    DecimalIsPlain(r.interval);
    PlainConcat("INTERVAL=", Decimal(r.interval));
    PlainConcat(";", "INTERVAL=" + Decimal(r.interval));
  }

  lemma {:induction false} BoundIsPlain(r: Rule, chrono: Chrono)
    requires WritesPlainly(chrono)
    ensures Plain(BoundText(r, chrono))
  {
    if r.count.Some? {
      DecimalIsPlain(r.count.value);
      PlainConcat("COUNT=", Decimal(r.count.value));
      PlainConcat(";", "COUNT=" + Decimal(r.count.value));
    } else if r.until.Some? {
      UtcIsPlain(chrono, r.until.value);
      PlainConcat("UNTIL=", chrono.utc(r.until.value));
      PlainConcat(";", "UNTIL=" + chrono.utc(r.until.value));
    }
  }

  lemma {:induction false} RuleTextIsPlain(r: Rule, chrono: Chrono)
    requires WritesPlainly(chrono)
    ensures Plain(RuleText(r, chrono))
  {
    assert Plain(FrequencyName(r.frequency));
    PlainConcat("FREQ=", FrequencyName(r.frequency));
    IntervalIsPlain(r);
    PlainConcat("FREQ=" + FrequencyName(r.frequency), IntervalText(r));
    BoundIsPlain(r, chrono);
    PlainConcat("FREQ=" + FrequencyName(r.frequency) + IntervalText(r), BoundText(r, chrono));
  }

  lemma {:induction false} RecurrenceIsOneLine(e: Event, chrono: Chrono)
    requires WritesPlainly(chrono)
    ensures Printable(Recurrence(e, chrono)) && AllOneLine(Recurrence(e, chrono))
  {
    if e.recurrence.Some? {
      RuleTextIsPlain(e.recurrence.value, chrono);
      PropertyIsOneLine("RRULE:", RuleText(e.recurrence.value, chrono));
    }
  }

  lemma {:induction false} EventLines(e: Event, chrono: Chrono, now: int)
    requires WritesPlainly(chrono)
    ensures Printable(LinesOf(e, chrono, now))
    ensures AllOneLine(LinesOf(e, chrono, now)) <==> OneLineZone(e)
  {
    FixedLinesAreOneLine();
    ZoneHintIsOneLine(e, chrono);
    IdentityIsOneLine(e, chrono, now);
    if Zoned(e, chrono) {
      ZonedTimesAreOneLine(e, chrono);
    } else {
      UtcTimesAreOneLine(e, chrono);
    }
    TextsAreOneLine(e);
    RecurrenceIsOneLine(e, chrono);
    var a := Header() + ZoneHint(e, chrono);
    AllOneLineConcat(Header(), ZoneHint(e, chrono));
    AllOneLineConcat(a, Identity(e, chrono, now));
    a := a + Identity(e, chrono, now);
    AllOneLineConcat(a, Times(e, chrono));
    a := a + Times(e, chrono);
    AllOneLineConcat(a, Summary(e));
    a := a + Summary(e);
    AllOneLineConcat(a, Description(e));
    a := a + Description(e);
    AllOneLineConcat(a, Location(e));
    a := a + Location(e);
    AllOneLineConcat(a, Recurrence(e, chrono));
    AllOneLineConcat(a + Recurrence(e, chrono), Footer());
  }

  /**
   Unfolding and splitting the object gives back exactly the lines that were pushed just when the time zone string
   has no CRLF (it is printed unescaped) and no fold falls inside a multi-octet character.
   */
  lemma {:induction false} EventReadsBackIff(e: Event, chrono: Chrono, now: int)
    requires WritesPlainly(chrono)
    ensures var lines := LinesOf(e, chrono, now);
      ReadLines(Print(lines)) == lines <==> OneLineZone(e) && AllClean(lines)
  {
    EventLines(e, chrono, now);
    ReadsBackIff(LinesOf(e, chrono, now));
  }

  /** A zone string with a line break in it is enough to lose the lines. */
  lemma BrokenZone(e: Event, chrono: Chrono, now: int)
    requires WritesPlainly(chrono) && e.timeZone == Some("Mars\r\nLunar")
    ensures ReadLines(Print(LinesOf(e, chrono, now))) != LinesOf(e, chrono, now)
  {
    assert CrlfAt(e.timeZone.value, 4);
    EventReadsBackIff(e, chrono, now);
  }

  lemma {:induction false} EscapeChangesNothing(text: string)
    requires forall c <- text :: EscapeChar(c) == [c]
    ensures EscapeIcsText(text) == text
  {
    EscapeIsOnePass(text);
    if text != "" {
      assert text[0] in text;
      assert forall c <- text[1..] :: c in text;
      EscapeChangesNothing(text[1..]);
      EscapeIsOnePass(text[1..]);
    }
  }

  /** 66 letters and an accented one, whose two octets stand on both sides of the first fold. */
  function Accented(): string {
    seq(66, _ => 'a') + [0xC3 as char, 0xA9 as char]
  }

  lemma {:induction false} AccentedIsPlain()
    ensures EscapeIcsText(Accented()) == Accented()
  {
    forall c | c in Accented()
      ensures EscapeChar(c) == [c]
    {
      assert c == 'a' || c == 0xC3 as char || c == 0xA9 as char;
    }
    EscapeChangesNothing(Accented());
  }

  /** A line whose 76th octet continues a character is cut there. */
  lemma {:induction false} CutAtFirstFold(name: string, text: string)
    requires |name| == 8 && |text| >= 68 && 0x80 <= text[67] as int < 0xC0
    ensures !CleanCuts(name + text)
  {
    var line := name + text;
    assert line[75] == text[67];
    assert Cut(1) == 75 && !Boundary(line, Cut(1));
  }

  lemma SummaryIsPrinted(e: Event, chrono: Chrono, now: int)
    ensures "SUMMARY:" + EscapeIcsText(e.summary) in LinesOf(e, chrono, now)
  {
    assert "SUMMARY:" + EscapeIcsText(e.summary) == Summary(e)[0];
    InMiddle(Header() + ZoneHint(e, chrono) + Identity(e, chrono, now) + Times(e, chrono), Summary(e)[0],
      Description(e), Location(e), Recurrence(e, chrono), Footer());
  }

  lemma InMiddle(a: seq<string>, line: string, b: seq<string>, c: seq<string>, d: seq<string>, e: seq<string>)
    ensures line in a + [line] + b + c + d + e
  {
    assert (a + [line] + b + c + d + e)[|a|] == line;
  }

  lemma {:induction false} AccentedSummaryIsCut(e: Event, chrono: Chrono, now: int)
    requires WritesPlainly(chrono) && e.summary == Accented()
    ensures ReadLines(Print(LinesOf(e, chrono, now))) != LinesOf(e, chrono, now)
  {
    AccentedIsPlain();
    CutAtFirstFold("SUMMARY:", Accented());
    SummaryIsPrinted(e, chrono, now);
    EventReadsBackIff(e, chrono, now);
  }

  // ----- ASCII events -----

  predicate AsciiOption(s: Option<string>) {
    s.Some? ==> Ascii(s.value)
  }

  predicate AsciiEvent(e: Event) {
    && Ascii(e.uid) && Ascii(e.summary)
    && AsciiOption(e.description) && AsciiOption(e.location) && AsciiOption(e.timeZone)
  }

  lemma {:induction false} EscapedIsAscii(text: string)
    requires Ascii(text)
    ensures Ascii(EscapeIcsText(text))
  {
    EscapeIsOnePass(text);
    if text != "" {
      assert text[0] in text;
      assert forall c <- text[1..] :: c in text;
      EscapedIsAscii(text[1..]);
      EscapeIsOnePass(text[1..]);
    }
  }

  ghost predicate AllAscii(lines: seq<string>) {
    forall line <- lines :: Ascii(line)
  }

  lemma AsciiConcat(s: string, t: string)
    requires Ascii(s) && Ascii(t)
    ensures Ascii(s + t)
  {
  }

  lemma {:induction false} AsciiZonedTimes(zone: string, chrono: Chrono, t: int)
    requires WritesPlainly(chrono) && Ascii(zone)
    ensures Ascii("DTSTART;TZID=" + (zone + ":" + chrono.local(zone, t)))
    ensures Ascii("DTEND;TZID=" + (zone + ":" + chrono.local(zone, t)))
  {
    assert PlainText(chrono.local(zone, t));
    AsciiConcat(zone, ":");
    AsciiConcat(zone + ":", chrono.local(zone, t));
    AsciiConcat("DTSTART;TZID=", zone + ":" + chrono.local(zone, t));
    AsciiConcat("DTEND;TZID=", zone + ":" + chrono.local(zone, t));
  }

  lemma {:induction false} AsciiTimes(e: Event, chrono: Chrono)
    requires WritesPlainly(chrono) && AsciiOption(e.timeZone)
    ensures AllAscii(ZoneHint(e, chrono)) && AllAscii(Times(e, chrono))
  {
    var end := EffectiveEnd(e);
    UtcIsPlain(chrono, e.start);
    UtcIsPlain(chrono, end);
    AsciiConcat("DTSTART:", chrono.utc(e.start));
    AsciiConcat("DTEND:", chrono.utc(end));
    if e.timeZone.Some? {
      var zone := e.timeZone.value;
      AsciiConcat("X-WR-TIMEZONE:", zone);
      AsciiConcat("X-PM-TIMEZONE:", zone);
      AsciiZonedTimes(zone, chrono, e.start);
      AsciiZonedTimes(zone, chrono, end);
    }
  }

  lemma {:induction false} AsciiText(name: string, text: string)
    requires Ascii(name) && Ascii(text)
    ensures Ascii(name + EscapeIcsText(text))
  {
    EscapedIsAscii(text);
    AsciiConcat(name, EscapeIcsText(text));
  }

  lemma {:induction false} AsciiIdentity(e: Event, chrono: Chrono, now: int)
    requires WritesPlainly(chrono) && AsciiEvent(e)
    ensures AllAscii(Identity(e, chrono, now)) && AllAscii(Recurrence(e, chrono))
  {
    AsciiText("UID:", e.uid);
    UtcIsPlain(chrono, now);
    AsciiConcat("DTSTAMP:", chrono.utc(now));
    if e.recurrence.Some? {
      RuleTextIsPlain(e.recurrence.value, chrono);
      AsciiConcat("RRULE:", RuleText(e.recurrence.value, chrono));
    }
  }

  lemma {:induction false} AsciiTexts(e: Event)
    requires AsciiEvent(e)
    ensures AllAscii(Summary(e)) && AllAscii(Description(e)) && AllAscii(Location(e))
  {
    AsciiText("SUMMARY:", e.summary);
    if e.description.Some? {
      AsciiText("DESCRIPTION:", e.description.value);
    }
    if e.location.Some? {
      AsciiText("LOCATION:", e.location.value);
    }
  }

  lemma ProductIsAscii()
    ensures Ascii("PRODID:-//Proton Meet//EN") && Ascii("CALSCALE:GREGORIAN")
  {
  }

  lemma HeaderIsAscii()
    ensures AllAscii(Header())
  {
    assert Ascii("BEGIN:VCALENDAR") && Ascii("VERSION:2.0") && Ascii("METHOD:PUBLISH");
    ProductIsAscii();
  }

  lemma FooterIsAscii()
    ensures AllAscii(Footer())
  {
    assert Ascii("STATUS:CONFIRMED") && Ascii("SEQUENCE:0");
    assert Ascii("END:VEVENT") && Ascii("END:VCALENDAR");
  }

  lemma AllAsciiConcat(a: seq<string>, b: seq<string>)
    requires AllAscii(a) && AllAscii(b)
    ensures AllAscii(a + b)
  {
  }

  lemma {:induction false} AsciiLines(e: Event, chrono: Chrono, now: int)
    requires WritesPlainly(chrono) && AsciiEvent(e)
    ensures AllAscii(LinesOf(e, chrono, now))
  {
    AsciiTimes(e, chrono);
    AsciiIdentity(e, chrono, now);
    AsciiTexts(e);
    HeaderIsAscii();
    FooterIsAscii();
    var a := Header() + ZoneHint(e, chrono);
    AllAsciiConcat(Header(), ZoneHint(e, chrono));
    AllAsciiConcat(a, Identity(e, chrono, now));
    a := a + Identity(e, chrono, now);
    AllAsciiConcat(a, Times(e, chrono));
    a := a + Times(e, chrono);
    AllAsciiConcat(a, Summary(e));
    a := a + Summary(e);
    AllAsciiConcat(a, Description(e));
    a := a + Description(e);
    AllAsciiConcat(a, Location(e));
    a := a + Location(e);
    AllAsciiConcat(a, Recurrence(e, chrono));
    AllAsciiConcat(a + Recurrence(e, chrono), Footer());
  }

  /**
   With ASCII fields the only obstacle is a CRLF inside the time zone string; without one, every physical line is
   also at most 75 octets long.
   */
  lemma {:induction false} AsciiEventReadsBack(e: Event, chrono: Chrono, now: int)
    requires WritesPlainly(chrono) && AsciiEvent(e)
    ensures var lines := LinesOf(e, chrono, now);
      && (ReadLines(Print(lines)) == lines <==> OneLineZone(e))
      && (OneLineZone(e) ==> Short(SplitLines(Print(lines))))
  {
    AsciiLines(e, chrono, now);
    AllAsciiIsClean(LinesOf(e, chrono, now));
    EventReadsBackIff(e, chrono, now);
    if OneLineZone(e) {
      EventLines(e, chrono, now);
      PhysicalLinesAreShort(LinesOf(e, chrono, now));
    }
  }

  lemma AllAsciiIsClean(lines: seq<string>)
    requires AllAscii(lines)
    ensures AllClean(lines)
  {
    forall line | line in lines ensures CleanCuts(line) {
      AsciiIsClean(line);
    }
  }

  // ----- Looking properties up -----

  /** The value of the first line that begins with `name`. */
  function Lookup(lines: seq<string>, name: string): Option<string> {
    if lines == [] then None
    else if name <= lines[0] then Some(lines[0][|name|..])
    else Lookup(lines[1..], name)
  }

  function OrElse(a: Option<string>, b: Option<string>): Option<string> {
    if a.Some? then a else b
  }

  lemma {:induction false} LookupConcat(a: seq<string>, b: seq<string>, name: string)
    ensures Lookup(a + b, name) == OrElse(Lookup(a, name), Lookup(b, name))
  {
    if a == [] {
      assert a + b == b;
    } else {
      assert (a + b)[0] == a[0] && (a + b)[1..] == a[1..] + b;
      LookupConcat(a[1..], b, name);
    }
  }

  lemma {:induction false} LookupHit(name: string, value: string)
    ensures Lookup([name + value], name) == Some(value)
  {
    assert name <= name + value && (name + value)[|name|..] == value;
  }

  /** A line that differs from `name` at some position is passed over. */
  lemma {:induction false} LookupMiss(line: string, rest: seq<string>, name: string, i: nat)
    requires i < |line| && i < |name| && line[i] != name[i]
    ensures Lookup([line] + rest, name) == Lookup(rest, name)
  {
    assert ([line] + rest)[1..] == rest;
  }

  lemma {:induction false} LookupMissed(line: string, name: string, i: nat)
    requires i < |line| && i < |name| && line[i] != name[i]
    ensures Lookup([line], name) == None
  {
    LookupMiss(line, [], name, i);
    assert [line] + [] == [line];
  }

  /** The first value found in the blocks of lines, in the order they are printed. */
  lemma {:induction false} LookupEvent(e: Event, chrono: Chrono, now: int, name: string)
    ensures Lookup(LinesOf(e, chrono, now), name)
         == OrElse(OrElse(OrElse(OrElse(OrElse(OrElse(OrElse(OrElse(Lookup(Header(), name),
              Lookup(ZoneHint(e, chrono), name)), Lookup(Identity(e, chrono, now), name)),
              Lookup(Times(e, chrono), name)), Lookup(Summary(e), name)), Lookup(Description(e), name)),
              Lookup(Location(e), name)), Lookup(Recurrence(e, chrono), name)), Lookup(Footer(), name))
  {
    var a := Header() + ZoneHint(e, chrono);
    var b := a + Identity(e, chrono, now);
    var c := b + Times(e, chrono);
    var d := c + Summary(e);
    var f := d + Description(e);
    var g := f + Location(e);
    LookupConcat(Header(), ZoneHint(e, chrono), name);
    LookupConcat(a, Identity(e, chrono, now), name);
    LookupConcat(b, Times(e, chrono), name);
    LookupConcat(c, Summary(e), name);
    LookupConcat(d, Description(e), name);
    LookupConcat(f, Location(e), name);
    LookupConcat(g, Recurrence(e, chrono), name);
    LookupConcat(g + Recurrence(e, chrono), Footer(), name);
  }

  lemma {:induction false} HeaderMissed(name: string)
    requires name != "" && name[0] != 'B' && name[0] != 'V' && name[0] != 'P' && name[0] != 'C' && name[0] != 'M'
    ensures Lookup(Header(), name) == None
  {
    var h := Header();
    assert h == [h[0]] + ([h[1]] + ([h[2]] + ([h[3]] + [h[4]])));
    LookupMiss(h[0], [h[1]] + ([h[2]] + ([h[3]] + [h[4]])), name, 0);
    LookupMiss(h[1], [h[2]] + ([h[3]] + [h[4]]), name, 0);
    LookupMiss(h[2], [h[3]] + [h[4]], name, 0);
    LookupMiss(h[3], [h[4]], name, 0);
    LookupMissed(h[4], name, 0);
  }

  lemma {:induction false} FooterMissed(name: string)
    requires |name| >= 2 && name[0] != 'E'
    requires name[0] == 'S' ==> name[1] != 'T' && name[1] != 'E'
    ensures Lookup(Footer(), name) == None
  {
    var f := Footer();
    var i := if name[0] == 'S' then 1 else 0;
    assert f == [f[0]] + ([f[1]] + ([f[2]] + [f[3]]));
    LookupMiss(f[0], [f[1]] + ([f[2]] + [f[3]]), name, i);
    LookupMiss(f[1], [f[2]] + [f[3]], name, i);
    LookupMiss(f[2], [f[3]], name, 0);
    LookupMissed(f[3], name, 0);
  }

  lemma {:induction false} TextsMissed(e: Event, chrono: Chrono, name: string)
    requires |name| >= 2
    ensures name[0] != 'S' ==> Lookup(Summary(e), name) == None
    ensures name[0] != 'D' || name[1] != 'E' ==> Lookup(Description(e), name) == None
    ensures name[0] != 'L' ==> Lookup(Location(e), name) == None
    ensures name[0] != 'R' ==> Lookup(Recurrence(e, chrono), name) == None
  {
    if name[0] != 'S' {
      LookupMissed(Summary(e)[0], name, 0);
    }
    if (name[0] != 'D' || name[1] != 'E') && e.description.Some? {
      LookupMissed(Description(e)[0], name, if name[0] == 'D' then 1 else 0);
    }
    if name[0] != 'L' && e.location.Some? {
      LookupMissed(Location(e)[0], name, 0);
    }
    if name[0] != 'R' && e.recurrence.Some? {
      LookupMissed(Recurrence(e, chrono)[0], name, 0);
    }
  }

  lemma {:induction false} IdentityMissed(e: Event, chrono: Chrono, now: int, name: string)
    requires |name| >= 2 && name[0] != 'B' && name[0] != 'U' && (name[0] != 'D' || name[1] == 'E')
    ensures Lookup(Identity(e, chrono, now), name) == None
  {
    var l := Identity(e, chrono, now);
    assert l == [l[0]] + ([l[1]] + [l[2]]);
    LookupMiss(l[0], [l[1]] + [l[2]], name, 0);
    LookupMiss(l[1], [l[2]], name, 0);
    LookupMissed(l[2], name, if name[0] == 'D' then 1 else 0);
  }

  lemma {:induction false} TimesMissed(e: Event, chrono: Chrono, name: string)
    requires |name| >= 2 && name[0] != 'X' && (name[0] != 'D' || name[1] == 'E')
    ensures Lookup(Times(e, chrono), name) == None && Lookup(ZoneHint(e, chrono), name) == None
  {
    var l := Times(e, chrono);
    var i := if name[0] == 'D' then 1 else 0;
    if Zoned(e, chrono) {
      LookupMissed(ZoneHint(e, chrono)[0], name, 0);
      assert l == [l[0]] + [l[1]];
      LookupMiss(l[0], [l[1]], name, i);
      LookupMissed(l[1], name, i);
    } else if e.timeZone.Some? {
      assert l == [l[0]] + ([l[1]] + [l[2]]);
      LookupMiss(l[0], [l[1]] + [l[2]], name, 0);
      LookupMiss(l[1], [l[2]], name, i);
      LookupMissed(l[2], name, i);
    } else {
      assert l == [l[0]] + [l[1]];
      LookupMiss(l[0], [l[1]], name, i);
      LookupMissed(l[1], name, i);
    }
  }

  // ----- The fields -----

  /** The text of a property, unescaped. */
  function TextOf(lines: seq<string>, name: string): Option<string> {
    var value := Lookup(lines, name);
    if value.Some? then Some(Unescape(value.value)) else None
  }

  function Uncarried(text: Option<string>): Option<string> {
    if text.Some? then Some(WithoutCr(text.value)) else None
  }

  lemma {:induction false} IdentityLooksUp(e: Event, chrono: Chrono, now: int)
    ensures Lookup(Identity(e, chrono, now), "UID:") == Some(EscapeIcsText(e.uid))
  {
    var l := Identity(e, chrono, now);
    assert l == [l[0]] + ([l[1]] + [l[2]]);
    LookupMiss(l[0], [l[1]] + [l[2]], "UID:", 0);
    LookupConcat([l[1]], [l[2]], "UID:");
    LookupHit("UID:", EscapeIcsText(e.uid));
  }

  lemma {:induction false} UidLooksUp(e: Event, chrono: Chrono, now: int)
    ensures TextOf(LinesOf(e, chrono, now), "UID:") == Some(WithoutCr(e.uid))
  {
    LookupEvent(e, chrono, now, "UID:");
    HeaderMissed("UID:");
    TimesMissed(e, chrono, "UID:");
    IdentityLooksUp(e, chrono, now);
    UnescapeEscape(e.uid);
  }

  lemma {:induction false} TextsLookUp(e: Event, chrono: Chrono, now: int)
    ensures TextOf(LinesOf(e, chrono, now), "SUMMARY:") == Some(WithoutCr(e.summary))
    ensures TextOf(LinesOf(e, chrono, now), "DESCRIPTION:") == Uncarried(e.description)
    ensures TextOf(LinesOf(e, chrono, now), "LOCATION:") == Uncarried(e.location)
  {
    LookupText(e, chrono, now, "SUMMARY:");
    LookupHit("SUMMARY:", EscapeIcsText(e.summary));
    UnescapeEscape(e.summary);
    LookupText(e, chrono, now, "DESCRIPTION:");
    if e.description.Some? {
      LookupHit("DESCRIPTION:", EscapeIcsText(e.description.value));
      UnescapeEscape(e.description.value);
    }
    LookupText(e, chrono, now, "LOCATION:");
    if e.location.Some? {
      LookupHit("LOCATION:", EscapeIcsText(e.location.value));
      UnescapeEscape(e.location.value);
    }
  }

  /** Only the block of lines with the right initials can answer. */
  lemma {:induction false} LookupText(e: Event, chrono: Chrono, now: int, name: string)
    requires |name| >= 2
    requires
      || (name[0] == 'S' && name[1] == 'U') || (name[0] == 'D' && name[1] == 'E')
      || name[0] == 'L' || name[0] == 'R'
    ensures name[0] == 'S' ==> Lookup(LinesOf(e, chrono, now), name) == Lookup(Summary(e), name)
    ensures name[0] == 'D' ==> Lookup(LinesOf(e, chrono, now), name) == Lookup(Description(e), name)
    ensures name[0] == 'L' ==> Lookup(LinesOf(e, chrono, now), name) == Lookup(Location(e), name)
    ensures name[0] == 'R' ==> Lookup(LinesOf(e, chrono, now), name) == Lookup(Recurrence(e, chrono), name)
  {
    LookupEvent(e, chrono, now, name);
    HeaderMissed(name);
    TimesMissed(e, chrono, name);
    IdentityMissed(e, chrono, now, name);
    TextsMissed(e, chrono, name);
    FooterMissed(name);
  }

  /** A time property is answered by the block of times. */
  lemma {:induction false} LookupTime(e: Event, chrono: Chrono, now: int, name: string)
    requires |name| >= 6 && name[0] == 'D' && name[1] == 'T' && name[5] != 'M'
    requires Lookup(Times(e, chrono), name).Some?
    ensures Lookup(LinesOf(e, chrono, now), name) == Lookup(Times(e, chrono), name)
  {
    LookupEvent(e, chrono, now, name);
    HeaderMissed(name);
    if Zoned(e, chrono) {
      LookupMissed(ZoneHint(e, chrono)[0], name, 0);
    }
    StampMissed(e, chrono, now, name);
  }

  lemma {:induction false} StampMissed(e: Event, chrono: Chrono, now: int, name: string)
    requires |name| >= 6 && name[0] == 'D' && name[5] != 'M'
    ensures Lookup(Identity(e, chrono, now), name) == None
  {
    var l := Identity(e, chrono, now);
    assert l == [l[0]] + ([l[1]] + [l[2]]);
    LookupMiss(l[0], [l[1]] + [l[2]], name, 0);
    LookupMiss(l[1], [l[2]], name, 0);
    LookupMissed(l[2], name, 5);
  }

  /** The object carries the time at which it was made. */
  lemma {:induction false} StampLooksUp(e: Event, chrono: Chrono, now: int)
    ensures Lookup(LinesOf(e, chrono, now), "DTSTAMP:") == Some(chrono.utc(now))
  {
    var name, l := "DTSTAMP:", Identity(e, chrono, now);
    LookupEvent(e, chrono, now, name);
    HeaderMissed(name);
    if Zoned(e, chrono) {
      LookupMissed(ZoneHint(e, chrono)[0], name, 0);
    }
    assert l == [l[0]] + ([l[1]] + [l[2]]);
    LookupMiss(l[0], [l[1]] + [l[2]], name, 0);
    LookupMiss(l[1], [l[2]], name, 0);
    LookupHit(name, chrono.utc(now));
  }

  /** In a known zone the times are local to it. */
  lemma {:induction false} ZonedTimesLookUp(e: Event, chrono: Chrono, now: int)
    requires Zoned(e, chrono)
    ensures var lines, zone := LinesOf(e, chrono, now), e.timeZone.value;
      && Lookup(lines, "DTSTART;TZID=") == Some(zone + ":" + chrono.local(zone, e.start))
      && Lookup(lines, "DTEND;TZID=") == Some(zone + ":" + chrono.local(zone, EffectiveEnd(e)))
  {
    var zone := e.timeZone.value;
    var from, to := zone + ":" + chrono.local(zone, e.start), zone + ":" + chrono.local(zone, EffectiveEnd(e));
    TwoTimes("DTSTART;TZID=", from, "DTEND;TZID=", to);
    assert Times(e, chrono) == ["DTSTART;TZID=" + from] + ["DTEND;TZID=" + to];
    LookupTime(e, chrono, now, "DTSTART;TZID=");
    LookupTime(e, chrono, now, "DTEND;TZID=");
  }

  lemma {:induction false} TwoTimes(start: string, from: string, end: string, to: string)
    requires |start| >= 3 && |end| >= 3 && start[2] != end[2]
    ensures Lookup([start + from] + [end + to], start) == Some(from)
    ensures Lookup([start + from] + [end + to], end) == Some(to)
  {
    LookupConcat([start + from], [end + to], start);
    LookupHit(start, from);
    LookupMiss(start + from, [end + to], end, 2);
    LookupHit(end, to);
  }

  /** Without a known zone the times are in UTC. */
  lemma {:induction false} UtcTimesLookUp(e: Event, chrono: Chrono, now: int)
    requires !Zoned(e, chrono)
    ensures Lookup(LinesOf(e, chrono, now), "DTSTART:") == Some(chrono.utc(e.start))
    ensures Lookup(LinesOf(e, chrono, now), "DTEND:") == Some(chrono.utc(EffectiveEnd(e)))
  {
    var from, to := chrono.utc(e.start), chrono.utc(EffectiveEnd(e));
    var times := ["DTSTART:" + from] + ["DTEND:" + to];
    TwoTimes("DTSTART:", from, "DTEND:", to);
    if e.timeZone.Some? {
      var zone := "X-PM-TIMEZONE:" + e.timeZone.value;
      assert Times(e, chrono) == [zone] + times;
      LookupMiss(zone, times, "DTSTART:", 0);
      LookupMiss(zone, times, "DTEND:", 0);
    } else {
      assert Times(e, chrono) == times;
    }
    LookupTime(e, chrono, now, "DTSTART:");
    LookupTime(e, chrono, now, "DTEND:");
  }

  /** A known zone is announced as such; an unknown one is kept in a property of its own. */
  lemma {:induction false} ZoneLooksUp(e: Event, chrono: Chrono, now: int)
    ensures Lookup(LinesOf(e, chrono, now), "X-WR-TIMEZONE:") == if Zoned(e, chrono) then e.timeZone else None
    ensures Lookup(LinesOf(e, chrono, now), "X-PM-TIMEZONE:") == if Zoned(e, chrono) then None else e.timeZone
  {
    var known, unknown := "X-WR-TIMEZONE:", "X-PM-TIMEZONE:";
    LookupZone(e, chrono, now, known);
    LookupZone(e, chrono, now, unknown);
    if Zoned(e, chrono) {
      LookupHit(known, e.timeZone.value);
      LookupMissed(ZoneHint(e, chrono)[0], unknown, 2);
    } else if e.timeZone.Some? {
      LookupHit(unknown, e.timeZone.value);
      LookupMissed(unknown + e.timeZone.value, known, 2);
    }
  }

  lemma {:induction false} LookupZone(e: Event, chrono: Chrono, now: int, name: string)
    requires |name| >= 2 && name[0] == 'X'
    ensures Lookup(LinesOf(e, chrono, now), name)
         == if Zoned(e, chrono) then Lookup(ZoneHint(e, chrono), name)
            else if e.timeZone.Some? then Lookup(["X-PM-TIMEZONE:" + e.timeZone.value], name)
            else None
  {
    LookupEvent(e, chrono, now, name);
    HeaderMissed(name);
    IdentityMissed(e, chrono, now, name);
    TextsMissed(e, chrono, name);
    FooterMissed(name);
    TimesForZone(e, chrono, name);
  }

  lemma {:induction false} TimesForZone(e: Event, chrono: Chrono, name: string)
    requires |name| >= 2 && name[0] == 'X'
    ensures Zoned(e, chrono) || e.timeZone.None? ==> Lookup(Times(e, chrono), name) == None
    ensures !Zoned(e, chrono) && e.timeZone.Some?
        ==> Lookup(Times(e, chrono), name) == Lookup(["X-PM-TIMEZONE:" + e.timeZone.value], name)
  {
    var l := Times(e, chrono);
    if Zoned(e, chrono) || e.timeZone.None? {
      assert l == [l[0]] + [l[1]];
      LookupMiss(l[0], [l[1]], name, 0);
      LookupMissed(l[1], name, 0);
    } else {
      assert l == [l[0]] + ([l[1]] + [l[2]]);
      LookupMiss(l[1], [l[2]], name, 0);
      LookupMissed(l[2], name, 0);
      LookupConcat([l[0]], [l[1]] + [l[2]], name);
    }
  }

  // ----- The recurrence rule -----

  /** Splits at every occurrence of `c`. */
  function SplitAt(s: string, c: char): (parts: seq<string>)
    ensures parts != []
  {
    if s == "" then [""]
    else
      var rest := SplitAt(s[1..], c);
      if s[0] == c then [""] + rest else [[s[0]] + rest[0]] + rest[1..]
  }

  lemma {:induction false} SplitFirst(part: string, c: char, rest: string)
    requires c !in part
    ensures SplitAt(part, c) == [part]
    ensures SplitAt(part + ([c] + rest), c) == [part] + SplitAt(rest, c)
  {
    var all := part + ([c] + rest);
    if part == "" {
      assert all[1..] == rest;
    } else {
      assert all[1..] == part[1..] + ([c] + rest);
      SplitFirst(part[1..], c, rest);
      assert [part[0]] + part[1..] == part;
      assert ([part[1..]] + SplitAt(rest, c))[1..] == SplitAt(rest, c);
    }
  }

  /** What a reader makes of a rule; a missing interval means 1. */
  datatype RuleRead = RuleRead(frequency: Option<Frequency>, interval: nat, count: Option<nat>, until: Option<string>)

  function ReadNumber(text: Option<string>): Option<nat> {
    if text.Some? then Some(ParseDecimal(text.value)) else None
  }

  function ReadRule(text: string): RuleRead {
    var parts := SplitAt(text, ';');
    var frequency := Lookup(parts, "FREQ=");
    var interval := ReadNumber(Lookup(parts, "INTERVAL="));
    RuleRead(
      if frequency.Some? then FrequencyOf(frequency.value) else None,
      if interval.Some? then interval.value else 1,
      ReadNumber(Lookup(parts, "COUNT=")),
      Lookup(parts, "UNTIL="))
  }

  /** The rule a reader should get: an end date counts only without a number of occurrences. */
  function Meant(r: Rule, chrono: Chrono): RuleRead {
    RuleRead(
      Some(r.frequency),
      if r.interval > 1 then r.interval else 1,
      r.count,
      if r.count.None? && r.until.Some? then Some(chrono.utc(r.until.value)) else None)
  }

  lemma {:induction false} DecimalHasNoSemicolon(n: nat)
    ensures ';' !in Decimal(n)
  {
    DecimalRoundTrip(n);
    assert !IsDigit(';');
  }

  /** The parts of a rule, as its text joins them. */
  function Parts(r: Rule, chrono: Chrono): seq<string> {
    ["FREQ=" + FrequencyName(r.frequency)]
    + (if r.interval > 1 then ["INTERVAL=" + Decimal(r.interval)] else [])
    + BoundParts(r, chrono)
  }

  function BoundParts(r: Rule, chrono: Chrono): seq<string> {
    if r.count.Some? then ["COUNT=" + Decimal(r.count.value)]
    else if r.until.Some? then ["UNTIL=" + chrono.utc(r.until.value)]
    else []
  }

  /** Splitting a first part followed by an optional remainder. */
  lemma {:induction false} SplitBound(first: string, r: Rule, chrono: Chrono)
    requires WritesPlainly(chrono) && ';' !in first
    ensures SplitAt(first + BoundText(r, chrono), ';') == [first] + BoundParts(r, chrono)
  {
    if r.count.Some? {
      var part := "COUNT=" + Decimal(r.count.value);
      DecimalHasNoSemicolon(r.count.value);
      SplitFirst(first, ';', part);
      SplitFirst(part, ';', "");
      assert [';'] + part == ";" + part;
    } else if r.until.Some? {
      var part := "UNTIL=" + chrono.utc(r.until.value);
      UtcIsPlain(chrono, r.until.value);
      SplitFirst(first, ';', part);
      SplitFirst(part, ';', "");
      assert [';'] + part == ";" + part;
    } else {
      SplitFirst(first, ';', "");
      assert first + "" == first;
    }
  }

  lemma {:induction false} SplitRule(r: Rule, chrono: Chrono)
    requires WritesPlainly(chrono)
    ensures SplitAt(RuleText(r, chrono), ';') == Parts(r, chrono)
  {
    var frequency := "FREQ=" + FrequencyName(r.frequency);
    var bound := BoundText(r, chrono);
    assert ';' !in FrequencyName(r.frequency);
    if r.interval > 1 {
      var interval := "INTERVAL=" + Decimal(r.interval);
      DecimalHasNoSemicolon(r.interval);
      SplitBound(interval, r, chrono);
      SplitFirst(frequency, ';', interval + bound);
      Regroup(";", interval, bound);
      Regroup(frequency, ";" + interval, bound);
      assert [frequency] + ([interval] + BoundParts(r, chrono)) == Parts(r, chrono);
    } else {
      assert frequency + "" == frequency;
      SplitBound(frequency, r, chrono);
      assert [frequency] + [] == [frequency];
    }
  }

  lemma {:induction false} BoundLooksUp(r: Rule, chrono: Chrono)
    ensures ReadNumber(Lookup(BoundParts(r, chrono), "COUNT=")) == r.count
    ensures Lookup(BoundParts(r, chrono), "UNTIL=") == Meant(r, chrono).until
    ensures Lookup(BoundParts(r, chrono), "FREQ=") == None && Lookup(BoundParts(r, chrono), "INTERVAL=") == None
  {
    var parts := BoundParts(r, chrono);
    if r.count.Some? {
      LookupHit("COUNT=", Decimal(r.count.value));
      DecimalRoundTrip(r.count.value);
      LookupMissed(parts[0], "UNTIL=", 0);
    } else if r.until.Some? {
      LookupHit("UNTIL=", chrono.utc(r.until.value));
      LookupMissed(parts[0], "COUNT=", 0);
    }
    if parts != [] {
      LookupMissed(parts[0], "FREQ=", 0);
      LookupMissed(parts[0], "INTERVAL=", 0);
    }
  }

  lemma {:induction false} IntervalLooksUp(r: Rule, name: string)
    requires name != ""
    ensures var parts := if r.interval > 1 then ["INTERVAL=" + Decimal(r.interval)] else [];
      && (name[0] != 'I' ==> Lookup(parts, name) == None)
      && (name == "INTERVAL=" ==>
            ReadNumber(Lookup(parts, name)) == if r.interval > 1 then Some(r.interval) else None)
  {
    if r.interval > 1 {
      if name[0] != 'I' {
        LookupMissed("INTERVAL=" + Decimal(r.interval), name, 0);
      }
      LookupHit("INTERVAL=", Decimal(r.interval));
      DecimalRoundTrip(r.interval);
    }
  }

  lemma {:induction false} LookupPart(r: Rule, chrono: Chrono, name: string)
    requires name != ""
    ensures Lookup(Parts(r, chrono), name)
         == OrElse(OrElse(if name[0] == 'F' then Lookup(["FREQ=" + FrequencyName(r.frequency)], name) else None,
              Lookup(if r.interval > 1 then ["INTERVAL=" + Decimal(r.interval)] else [], name)),
              Lookup(BoundParts(r, chrono), name))
  {
    var first := ["FREQ=" + FrequencyName(r.frequency)];
    var interval := if r.interval > 1 then ["INTERVAL=" + Decimal(r.interval)] else [];
    if name[0] != 'F' {
      LookupMissed(first[0], name, 0);
    }
    LookupConcat(first, interval, name);
    LookupConcat(first + interval, BoundParts(r, chrono), name);
  }

  lemma {:induction false} FrequencyLooksUp(r: Rule, chrono: Chrono)
    ensures Lookup(Parts(r, chrono), "FREQ=") == Some(FrequencyName(r.frequency))
    ensures FrequencyOf(FrequencyName(r.frequency)) == Some(r.frequency)
  {
    LookupPart(r, chrono, "FREQ=");
    LookupHit("FREQ=", FrequencyName(r.frequency));
  }

  /** Every rule reads back as it was meant. */
  lemma {:induction false} RuleReadsBack(r: Rule, chrono: Chrono)
    requires WritesPlainly(chrono)
    ensures ReadRule(RuleText(r, chrono)) == Meant(r, chrono)
  {
    SplitRule(r, chrono);
    FrequencyLooksUp(r, chrono);
    LookupPart(r, chrono, "INTERVAL=");
    LookupPart(r, chrono, "COUNT=");
    LookupPart(r, chrono, "UNTIL=");
    IntervalLooksUp(r, "INTERVAL=");
    IntervalLooksUp(r, "COUNT=");
    IntervalLooksUp(r, "UNTIL=");
    BoundLooksUp(r, chrono);
  }

  /**
   A reader of the printed object recovers every field: the texts without their carriage returns, the rule as meant.
   */
  lemma {:induction false} FieldsReadBack(e: Event, chrono: Chrono, now: int)
    requires WritesPlainly(chrono)
    requires OneLineZone(e) && AllClean(LinesOf(e, chrono, now))
    ensures var lines := ReadLines(Print(LinesOf(e, chrono, now)));
      && TextOf(lines, "UID:") == Some(WithoutCr(e.uid))
      && TextOf(lines, "SUMMARY:") == Some(WithoutCr(e.summary))
      && TextOf(lines, "DESCRIPTION:") == Uncarried(e.description)
      && TextOf(lines, "LOCATION:") == Uncarried(e.location)
      && (if e.recurrence.None? then Lookup(lines, "RRULE:") == None
          else Lookup(lines, "RRULE:").Some?
               && ReadRule(Lookup(lines, "RRULE:").value) == Meant(e.recurrence.value, chrono))
  {
    EventReadsBackIff(e, chrono, now);
    UidLooksUp(e, chrono, now);
    TextsLookUp(e, chrono, now);
    LookupText(e, chrono, now, "RRULE:");
    if e.recurrence.Some? {
      LookupHit("RRULE:", RuleText(e.recurrence.value, chrono));
      RuleReadsBack(e.recurrence.value, chrono);
    }
  }

  // ----- Components -----

  /** A property, and the components it stands in, outermost first. */
  datatype Placed = Placed(path: seq<string>, property: string)

  predicate Begins(line: string) { "BEGIN:" <= line }

  predicate Ends(line: string) { "END:" <= line }

  /** Reads a component structure: every END must close the component opened last, and none may stay open. */
  function ReadComponents(lines: seq<string>, open: seq<string>): Option<seq<Placed>>
    decreases |lines|
  {
    if lines == [] then if open == [] then Some([]) else None
    else
      var line, rest := lines[0], lines[1..];
      if Begins(line) then ReadComponents(rest, open + [line[6..]])
      else if Ends(line) then
        if open != [] && open[|open| - 1] == line[4..] then ReadComponents(rest, open[..|open| - 1]) else None
      else
        match ReadComponents(rest, open)
        case Some(read) => Some([Placed(open, line)] + read)
        case None => None
  }

  function AllPlaced(path: seq<string>, properties: seq<string>): (placed: seq<Placed>)
    ensures |placed| == |properties|
  {
    seq(|properties|, i requires 0 <= i < |properties| => Placed(path, properties[i]))
  }

  /** Told from the delimiters by its first letter. */
  ghost predicate AllProperties(lines: seq<string>) {
    forall line <- lines :: line != "" && line[0] != 'B' && line[0] != 'E'
  }

  lemma NoDelimiter(line: string)
    requires line != "" && line[0] != 'B' && line[0] != 'E'
    ensures !Begins(line) && !Ends(line)
  {
    assert "BEGIN:"[0] == 'B' && "END:"[0] == 'E';
  }

  /** One property in front of the rest. */
  lemma PropertyIsPlaced(line: string, rest: seq<string>, open: seq<string>)
    requires line != "" && line[0] != 'B' && line[0] != 'E'
    ensures ReadComponents([line] + rest, open) == Prefixed([Placed(open, line)], ReadComponents(rest, open))
  {
    NoDelimiter(line);
    assert ([line] + rest)[1..] == rest;
  }

  function Prefixed(first: seq<Placed>, read: Option<seq<Placed>>): Option<seq<Placed>> {
    if read.Some? then Some(first + read.value) else None
  }

  lemma PrefixedTwice(first: seq<Placed>, second: seq<Placed>, read: Option<seq<Placed>>)
    ensures Prefixed(first, Prefixed(second, read)) == Prefixed(first + second, read)
  {
    if read.Some? {
      assert first + (second + read.value) == first + second + read.value;
    }
  }

  lemma {:induction false} PropertiesArePlaced(properties: seq<string>, rest: seq<string>, open: seq<string>)
    requires AllProperties(properties)
    ensures ReadComponents(properties + rest, open) ==
              Prefixed(AllPlaced(open, properties), ReadComponents(rest, open))
    decreases |properties|
  {
    if properties == [] {
      assert properties + rest == rest;
      assert forall read: seq<Placed> :: AllPlaced(open, properties) + read == read;
    } else {
      var line, more := properties[0], properties[1..];
      assert line in properties && forall l <- more :: l in properties;
      PropertiesArePlaced(more, rest, open);
      PropertyIsPlaced(line, more + rest, open);
      assert properties + rest == [line] + (more + rest);
      PrefixedTwice([Placed(open, line)], AllPlaced(open, more), ReadComponents(rest, open));
      assert AllPlaced(open, properties) == [Placed(open, line)] + AllPlaced(open, more);
    }
  }

  lemma ComponentOpens(line: string, name: string, rest: seq<string>, open: seq<string>)
    requires Begins(line) && line[6..] == name
    ensures ReadComponents([line] + rest, open) == ReadComponents(rest, open + [name])
  {
    assert ([line] + rest)[1..] == rest;
  }

  lemma ComponentCloses(line: string, name: string, rest: seq<string>, open: seq<string>)
    requires Ends(line) && !Begins(line) && line[4..] == name
    ensures ReadComponents([line] + rest, open + [name]) == ReadComponents(rest, open)
  {
    assert ([line] + rest)[1..] == rest && (open + [name])[..|open|] == open;
  }

  lemma CalendarDelimiters()
    ensures Begins("BEGIN:VCALENDAR") && "BEGIN:VCALENDAR"[6..] == "VCALENDAR"
    ensures Ends("END:VCALENDAR") && !Begins("END:VCALENDAR") && "END:VCALENDAR"[4..] == "VCALENDAR"
  {
    assert "END:VCALENDAR"[0] == 'E';
  }

  lemma EventDelimiters()
    ensures Begins("BEGIN:VEVENT") && "BEGIN:VEVENT"[6..] == "VEVENT"
    ensures Ends("END:VEVENT") && !Begins("END:VEVENT") && "END:VEVENT"[4..] == "VEVENT"
  {
    assert "END:VEVENT"[0] == 'E';
  }

  function CalendarProperties(e: Event, chrono: Chrono): seq<string> {
    ["VERSION:2.0", "PRODID:-//Proton Meet//EN", "CALSCALE:GREGORIAN", "METHOD:PUBLISH"] + ZoneHint(e, chrono)
  }

  function EventProperties(e: Event, chrono: Chrono, now: int): seq<string> {
    ["UID:" + EscapeIcsText(e.uid), "DTSTAMP:" + chrono.utc(now)] + Times(e, chrono) + Summary(e) + Description(e)
    + Location(e) + Recurrence(e, chrono) + ["STATUS:CONFIRMED", "SEQUENCE:0"]
  }

  lemma {:induction false} LinesByComponent(e: Event, chrono: Chrono, now: int)
    ensures LinesOf(e, chrono, now) ==
              ["BEGIN:VCALENDAR"] + (CalendarProperties(e, chrono) + (["BEGIN:VEVENT"]
              + (EventProperties(e, chrono, now) + (["END:VEVENT"] + (["END:VCALENDAR"] + [])))))
  {
    var header, identity, footer := Header(), Identity(e, chrono, now), Footer();
    Regrouped(header[0], header[1..], ZoneHint(e, chrono), identity[0], identity[1..], Times(e, chrono), Summary(e),
      Description(e), Location(e), Recurrence(e, chrono), footer[..2], footer[2], footer[3]);
    assert header == [header[0]] + header[1..] && identity == [identity[0]] + identity[1..];
    assert footer == footer[..2] + [footer[2], footer[3]];
  }

  lemma {:induction false} Regrouped(begin: string, h: seq<string>, z: seq<string>, open: string, i: seq<string>,
    t: seq<string>, s: seq<string>, d: seq<string>, l: seq<string>, r: seq<string>, f: seq<string>, close: string,
    end: string)
    ensures [begin] + h + z + ([open] + i) + t + s + d + l + r + (f + [close, end])
         == [begin] + ((h + z) + ([open] + ((i + t + s + d + l + r + f) + ([close] + ([end] + [])))))
  {
  }

  lemma AllPropertiesConcat(a: seq<string>, b: seq<string>)
    requires AllProperties(a) && AllProperties(b)
    ensures AllProperties(a + b)
  {
  }

  lemma {:induction false} FixedProperties()
    ensures AllProperties(["VERSION:2.0", "PRODID:-//Proton Meet//EN", "CALSCALE:GREGORIAN", "METHOD:PUBLISH"])
    ensures AllProperties(["STATUS:CONFIRMED", "SEQUENCE:0"])
  {
  }

  lemma {:induction false} TimesAreProperties(e: Event, chrono: Chrono)
    ensures AllProperties(ZoneHint(e, chrono)) && AllProperties(Times(e, chrono))
  {
  }

  lemma {:induction false} TextsAreProperties(e: Event, chrono: Chrono)
    ensures AllProperties(Summary(e)) && AllProperties(Description(e)) && AllProperties(Location(e))
    ensures AllProperties(Recurrence(e, chrono))
  {
  }

  lemma {:induction false} PropertiesAreProperties(e: Event, chrono: Chrono, now: int)
    ensures AllProperties(CalendarProperties(e, chrono)) && AllProperties(EventProperties(e, chrono, now))
  {
    FixedProperties();
    TimesAreProperties(e, chrono);
    TextsAreProperties(e, chrono);
    var identity := ["UID:" + EscapeIcsText(e.uid), "DTSTAMP:" + chrono.utc(now)];
    var a := identity + Times(e, chrono);
    AllPropertiesConcat(identity, Times(e, chrono));
    AllPropertiesConcat(a, Summary(e));
    AllPropertiesConcat(a + Summary(e), Description(e));
    a := a + Summary(e) + Description(e);
    AllPropertiesConcat(a, Location(e));
    AllPropertiesConcat(a + Location(e), Recurrence(e, chrono));
  }

  /** The object is one calendar that holds one event, every property standing in the component it belongs to. */
  lemma {:induction false} EventNests(e: Event, chrono: Chrono, now: int)
    ensures ReadComponents(LinesOf(e, chrono, now), [])
         == Some(AllPlaced(["VCALENDAR"], CalendarProperties(e, chrono))
                 + AllPlaced(["VCALENDAR", "VEVENT"], EventProperties(e, chrono, now)))
  {
    var calendar, event := CalendarProperties(e, chrono), EventProperties(e, chrono, now);
    LinesByComponent(e, chrono, now);
    PropertiesAreProperties(e, chrono, now);
    CalendarDelimiters();
    EventDelimiters();
    OneInsideTheOther("BEGIN:VCALENDAR", "VCALENDAR", calendar, "BEGIN:VEVENT", "VEVENT", event, "END:VEVENT",
      "END:VCALENDAR");
  }

  /** A component with properties and one inner component reads as such. */
  lemma {:induction false} OneInsideTheOther(begin: string, outer: string, properties: seq<string>, open: string,
    inner: string, more: seq<string>, close: string, end: string)
    requires Begins(begin) && begin[6..] == outer && Begins(open) && open[6..] == inner
    requires Ends(close) && !Begins(close) && close[4..] == inner && Ends(end) && !Begins(end) && end[4..] == outer
    requires AllProperties(properties) && AllProperties(more)
    ensures ReadComponents([begin] + (properties + ([open] + (more + ([close] + ([end] + []))))), [])
         == Some(AllPlaced([outer], properties) + AllPlaced([outer, inner], more))
  {
    var closing: seq<string> := [close] + ([end] + []);
    ComponentOpens(begin, outer, properties + ([open] + (more + closing)), []);
    PropertiesArePlaced(properties, [open] + (more + closing), [outer]);
    ComponentOpens(open, inner, more + closing, [outer]);
    PropertiesArePlaced(more, closing, [outer, inner]);
    ComponentCloses(close, inner, [end] + [], [outer]);
    ComponentCloses(end, outer, [], []);
    assert [] + [outer] == [outer] && [outer] + [inner] == [outer, inner];
    assert ReadComponents(closing, [outer, inner]) == Some([]);
    PrefixedTwice(AllPlaced([outer], properties), AllPlaced([outer, inner], more), Some([]));
    var both := AllPlaced([outer], properties) + AllPlaced([outer, inner], more);
    assert both + [] == both;
  }
}
