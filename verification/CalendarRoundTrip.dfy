/**
 Round trips over calendar objects: what the reader sees in a printed object, and what any
 history of time edits does to one.
 */
module CalendarRoundTrip {
  import opened CalendarObjects
  import opened ContentLines
  import opened Options
  import opened Timestamps

  // ---------- property names ----------

  /** An upper-case property name. */
  predicate Word(n: string) {
    n != "" && Upper(n) == n && ':' !in n && ';' !in n && !IsContinuation(n)
  }

  lemma {:induction false} NameBeforeMark(n: string, rest: string)
    requires ':' !in n && ';' !in n && rest != "" && rest[0] in ":;"
    ensures PropName(n + rest) == n
  {
    if n == "" {
      assert n + rest == rest;
    } else {
      assert (n + rest)[1..] == n[1..] + rest;
      NameBeforeMark(n[1..], rest);
    }
  }

  lemma PropNameOf(w: string, rest: string)
    requires Word(w) && rest != "" && rest[0] in ":;"
    ensures PropName(Upper(w + rest)) == w
  {
    assert Upper(w + rest) == Upper(w) + Upper(rest);
    NameBeforeMark(w, Upper(rest));
  }

  lemma ColonAfter(n: string, x: string)
    requires ':' !in n
    ensures IndexOf(n + (":" + x), ':') == |n|
  {
    var s := n + (":" + x);
    var i := IndexOf(s, ':');
    assert s[|n|] == ':' && forall k :: 0 <= k < |n| ==> s[k] == n[k];
    assert forall k :: 0 <= k < i ==> s[..i][k] == s[k];
  }

  lemma {:induction false} NoSplit(n: string, c: char)
    requires c !in n
    ensures SplitOn(n, c) == [n]
  {
    if n != "" {
      NoSplit(n[1..], c);
      assert [n[0]] + n[1..] == n;
    }
  }

  lemma {:induction false} FirstSplit(n: string, c: char, y: string)
    requires c !in n
    ensures SplitOn(n + ([c] + y), c)[0] == n
  {
    var s := n + ([c] + y);
    if n != "" {
      assert s[1..] == n[1..] + ([c] + y);
      FirstSplit(n[1..], c, y);
      assert [n[0]] + n[1..] == n;
    }
  }

  /** A line without parameters splits into its name and everything after the colon. */
  lemma SplitPlainLine(w: string, x: string)
    requires Word(w)
    ensures SplitLine(Line(w, x)) == Property(w, map[], x)
    ensures PropValue(Line(w, x)) == x
  {
    var ln := w + (":" + x);
    ColonAfter(w, x);
    assert ln[..|w|] == w && ln[|w| + 1..] == x;
    NoSplit(w, ';');
  }

  /** A line with parameters keeps its name whatever colons and semicolons the parameters hold. */
  lemma SplitParameterLine(w: string, y: string)
    requires Word(w) && ':' in y
    ensures SplitLine(w + (";" + y)).name == w
  {
    var ln := w + (";" + y);
    var colon := IndexOf(ln, ':');
    assert ':' in ln by {
      var i :| 0 <= i < |y| && y[i] == ':';
      assert ln[|w| + 1 + i] == ':';
    }
    assert ln[..|ln|] == ln && forall k :: 0 <= k < |w| ==> ln[k] == w[k];
    assert ln[..colon] == w + ([';'] + y[..colon - |w| - 1]);
    FirstSplit(w, ';', y[..colon - |w| - 1]);
  }

  // ---------- times ----------

  lemma {:induction false} NumberOfPad(n: nat, w: nat)
    requires n < Pow10(w)
    ensures AllDigits(Pad(n, w)) && Number(Pad(n, w)) == n
  {
    PadIsDigits(n, w);
    if w > 0 {
      NumberOfPad(n / 10, w - 1);
      assert Pad(n, w)[..w - 1] == Pad(n / 10, w - 1);
    }
  }

  lemma TwoDigits(n: nat)
    requires n < 100
    ensures AllDigits(Pad(n, 2)) && Number(Pad(n, 2)) == n
  {
    assert Pow10(2) == 100;
    NumberOfPad(n, 2);
  }

  lemma UtcReadsBack(t: Time)
    ensures |Utc(t)| == 16 && Utc(t)[15] == 'Z' && IsDigit(Utc(t)[0])
    ensures ParseDateTime(Utc(t)[..15]) == Some(ToSecond(t))
  {
    var y, mo, d := Pad(t.year, 4), Pad(t.month, 2), Pad(t.day, 2);
    var h, mi, s := Pad(t.hour, 2), Pad(t.minute, 2), Pad(t.second, 2);
    assert Pow10(4) == 10000;
    NumberOfPad(t.year, 4);
    TwoDigits(t.month);
    TwoDigits(t.day);
    TwoDigits(t.hour);
    TwoDigits(t.minute);
    TwoDigits(t.second);
    hide Pad, Number;
    var v := Utc(t)[..15];
    assert v[..4] == y && v[4..6] == mo && v[6..8] == d;
    assert v[..8] == y + mo + d;
    var clock := v[9..15];
    assert clock == h + mi + s;
    assert clock[..2] == h && clock[2..4] == mi && clock[4..] == s;
    assert v[15..] == "";
  }

  lemma NothingToTrim(s: string)
    requires s != "" && !IsSpace(s[0]) && !IsSpace(s[|s| - 1])
    ensures TrimSpace(s) == s
  {
  }

  lemma ReadUtc(zones: Zones, t: Time)
    ensures ParseICSTime(zones, map[], Utc(t)) == Some(Parsed(Instant(ToSecond(t)), false))
  {
    hide ParseDateTime, Utc, Instant;
    UtcReadsBack(t);
    NothingToTrim(Utc(t));
  }

  // ---------- what the reader sees ----------

  lemma {:induction false} ScanConcat(zones: Zones, st: Scan, a: seq<string>, b: seq<string>)
    ensures ScanLines(zones, st, a + b) == ScanLines(zones, ScanLines(zones, st, a), b)
    decreases |a|
  {
    if a == [] {
      assert a + b == b;
    } else {
      assert (a + b)[1..] == a[1..] + b;
      ScanConcat(zones, ScanLine(zones, st, a[0]), a[1..], b);
    }
  }

  lemma {:induction false} ScanInert(zones: Zones, st: Scan, lines: seq<string>)
    requires forall l :: l in lines ==> ScanLine(zones, st, l) == st
    ensures ScanLines(zones, st, lines) == st
    decreases |lines|
  {
    if lines != [] {
      ScanInert(zones, st, lines[1..]);
    }
  }

  predicate ReadName(w: string) {
    w in {"BEGIN", "END", "DTSTART", "DTEND", "DURATION", "TRANSP", "STATUS"}
  }

  lemma QuietLine(zones: Zones, st: Scan, ln: string, w: string)
    requires Word(w) && !ReadName(w) && SplitLine(ln).name == w
    ensures ScanLine(zones, st, ln) == st
  {
  }

  lemma QuietPlain(zones: Zones, st: Scan, w: string, x: string)
    requires Word(w) && !ReadName(w)
    ensures ScanLine(zones, st, Line(w, x)) == st
  {
    SplitPlainLine(w, x);
    QuietLine(zones, st, Line(w, x), w);
  }

  lemma FrameWords()
    ensures Word("BEGIN") && Word("END") && Word("STATUS") && Word("UID")
  {
  }

  lemma HeaderWords()
    ensures Word("VERSION") && Word("PRODID") && Word("CALSCALE") && Word("METHOD")
  {
  }

  lemma TimeWords()
    ensures Word("DTSTAMP") && Word("DTSTART") && Word("DTEND") && Word("SEQUENCE")
  {
  }

  lemma TextWords()
    ensures Word("SUMMARY") && Word("DESCRIPTION") && Word("LOCATION") && Word("ORGANIZER")
  {
  }

  lemma OtherComponent()
    ensures !EqualFold("VCALENDAR", "VEVENT") && EqualFold("VEVENT", "VEVENT") && !EqualFold("CONFIRMED", "CANCELLED")
  {
    assert Upper("CONFIRMED")[1] == 'O' && Upper("CANCELLED")[1] == 'A';
  }

  lemma BeginCalendarIsInert(zones: Zones)
    ensures ScanLine(zones, START, Line("BEGIN", "VCALENDAR")) == START
  {
    FrameWords();
    OtherComponent();
    hide Word, Line, EqualFold;
    SplitPlainLine("BEGIN", "VCALENDAR");
  }

  lemma ScanHeader(zones: Zones)
    ensures ScanLines(zones, START, HEADER) == START
  {
    hide Word, Line, EqualFold, ScanLines, ScanLine, SplitLine, PropValue;
    BeginCalendarIsInert(zones);
    HeaderWords();
    QuietPlain(zones, START, "VERSION", "2.0");
    QuietPlain(zones, START, "PRODID", "-//Calnode//Booking//EN");
    QuietPlain(zones, START, "CALSCALE", "GREGORIAN");
    QuietPlain(zones, START, "METHOD", "REQUEST");
    ScanInert(zones, START, HEADER);
  }

  lemma ScanTwo(zones: Zones, st: Scan, a: string, b: string)
    ensures ScanLines(zones, st, [a, b]) == ScanLine(zones, ScanLine(zones, st, a), b)
  {
    hide ScanLine;
    var next := ScanLine(zones, st, a);
    assert [a, b][1..] == [b] && [b][1..] == [];
    assert ScanLines(zones, next, [b]) == ScanLine(zones, next, b);
  }

  lemma ScanOpening(zones: Zones, e: Entry)
    ensures ScanLines(zones, START, Opening(e)) == Scan(Some(BLANK), false, [])
  {
    var open := Scan(Some(BLANK), false, []);
    FrameWords();
    OtherComponent();
    hide Word, Line, EqualFold, ScanLines;
    SplitPlainLine("BEGIN", "VEVENT");
    assert ScanLine(zones, START, Line("BEGIN", "VEVENT")) == open;
    QuietPlain(zones, open, "UID", e.id + "@calnode");
    hide ScanLine;
    ScanHeader(zones);
    var last := [Line("BEGIN", "VEVENT"), Line("UID", e.id + "@calnode")];
    ScanTwo(zones, START, last[0], last[1]);
    ScanConcat(zones, START, HEADER, last);
  }

  lemma ScanStart(zones: Zones, st: Scan, t: Time)
    requires st.cur.Some?
    ensures ScanLine(zones, st, Line("DTSTART", Utc(t))) ==
            st.(cur := Some(st.cur.value.(start := Instant(ToSecond(t)))), startDate := false)
  {
    hide Instant, Utc, ParseICSTime;
    ReadUtc(zones, t);
    TimeWords();
    SplitPlainLine("DTSTART", Utc(t));
  }

  lemma ScanEnd(zones: Zones, st: Scan, t: Time)
    requires st.cur.Some?
    ensures ScanLine(zones, st, Line("DTEND", Utc(t))) == st.(cur := Some(st.cur.value.(end := Instant(ToSecond(t)))))
  {
    hide Instant, Utc, ParseICSTime;
    ReadUtc(zones, t);
    TimeWords();
    SplitPlainLine("DTEND", Utc(t));
  }

  /** The event the reader has under construction once the times are read. */
  ghost function Timed(e: Entry): Event {
    Event(Instant(ToSecond(e.start)), Instant(ToSecond(e.end)), false, false)
  }

  lemma ScanTimes(zones: Zones, e: Entry)
    ensures ScanLines(zones, Scan(Some(BLANK), false, []), TimeLines(e)) == Scan(Some(Timed(e)), false, [])
  {
    hide Instant, Utc, ScanLine, Word, Line;
    var open := Scan(Some(BLANK), false, []);
    TimeWords();
    QuietPlain(zones, open, "DTSTAMP", Utc(e.stamp));
    ScanStart(zones, open, e.start);
    var started := Scan(Some(BLANK.(start := Instant(ToSecond(e.start)))), false, []);
    ScanEnd(zones, started, e.end);
    var lines := TimeLines(e);
    ScanTwo(zones, open, lines[1], lines[2]);
    assert lines[1..] == [lines[1], lines[2]];
  }

  predicate EditName(w: string) {
    w in {"DTSTART", "DTEND", "DURATION", "DTSTAMP", "LAST-MODIFIED", "SEQUENCE", "END"}
  }

  /** l is a property name, then a colon or parameters. */
  predicate Named(l: string, w: string, rest: string) {
    && l == w + rest && Word(w) && |w| < LIMIT
    && rest != "" && (rest[0] == ':' || (rest[0] == ';' && ':' in rest[1..]))
  }

  /** Neither the reader nor the editor acts on the property. */
  ghost predicate PassiveLine(l: string) {
    exists w, rest :: Named(l, w, rest) && !ReadName(w) && !EditName(w)
  }

  lemma PassivePlain(w: string, x: string)
    requires Word(w) && |w| < LIMIT && !ReadName(w) && !EditName(w)
    ensures PassiveLine(Line(w, x))
  {
    assert Named(Line(w, x), w, ":" + x);
  }

  lemma OrganizerIsPassive(e: Entry)
    ensures PassiveLine("ORGANIZER;" + ("CN=" + Escaped(e.orgName) + ":mailto:" + e.orgEmail))
  {
    TextWords();
    var y := "CN=" + Escaped(e.orgName) + ":mailto:" + e.orgEmail;
    assert "ORGANIZER;" == "ORGANIZER" + ";";
    assert y[|"CN=" + Escaped(e.orgName)|] == ':';
    assert (";" + y)[1..] == y;
    assert Named("ORGANIZER;" + y, "ORGANIZER", ";" + y);
  }

  lemma TextLinesArePassive(e: Entry)
    ensures forall l :: l in TextLines(e) ==> PassiveLine(l)
  {
    TextWords();
    hide Word, Line, Escaped, PassiveLine;
    PassivePlain("SUMMARY", Escaped(e.summary));
    PassivePlain("DESCRIPTION", Escaped(e.description));
    PassivePlain("LOCATION", Escaped(e.location));
    PassivePlain("ORGANIZER", "mailto:" + e.orgEmail);
    OrganizerIsPassive(e);
  }

  lemma ScanPassive(zones: Zones, st: Scan, l: string)
    requires PassiveLine(l)
    ensures ScanLine(zones, st, l) == st
  {
    var w, rest :| Named(l, w, rest) && !ReadName(w) && !EditName(w);
    hide Word, ScanLine;
    if rest[0] == ':' {
      QuietPlain(zones, st, w, rest[1..]);
      assert rest == ":" + rest[1..];
    } else {
      SplitParameterLine(w, rest[1..]);
      assert rest == ";" + rest[1..];
      QuietLine(zones, st, l, w);
    }
  }

  lemma StatusProperty()
    ensures SplitLine(Line("STATUS", "CONFIRMED")) == Property("STATUS", map[], "CONFIRMED")
    ensures Upper("STATUS") == "STATUS"
  {
    FrameWords();
    SplitPlainLine("STATUS", "CONFIRMED");
  }

  lemma StatusValue()
    ensures !EqualFold(TrimSpace("CONFIRMED"), "CANCELLED")
  {
    OtherComponent();
    NothingToTrim("CONFIRMED");
  }

  lemma ScanStatus(zones: Zones, st: Scan)
    requires st.cur.Some?
    ensures ScanLine(zones, st, Line("STATUS", "CONFIRMED")) == st.(cur := Some(st.cur.value.(cancelled := false)))
  {
    hide EqualFold, TrimSpace, SplitLine, ParseICSTime, ParseDuration, Upper, Line;
    StatusProperty();
    StatusValue();
  }

  lemma ScanEndLines(zones: Zones, st: Scan)
    ensures st.cur.Some? ==>
              ScanLine(zones, st, Line("END", "VEVENT")) ==
                  Scan(None, st.startDate, st.out + [Closed(st.cur.value, st.startDate)])
    ensures ScanLine(zones, st, Line("END", "VCALENDAR")) == st
  {
    FrameWords();
    OtherComponent();
    hide Word, Line, EqualFold, Closed;
    SplitPlainLine("END", "VEVENT");
    SplitPlainLine("END", "VCALENDAR");
  }

  lemma ScanClosing(zones: Zones, e: Event)
    ensures ScanLines(zones, Scan(Some(e), false, []), CLOSING).out == [Closed(e.(cancelled := false), false)]
  {
    hide Line, ScanLine, ScanLines, Closed;
    var a, b := Scan(Some(e), false, []), Scan(Some(e.(cancelled := false)), false, []);
    ScanStatus(zones, a);
    ScanEndLines(zones, b);
    ScanEndLines(zones, ScanLine(zones, b, CLOSING[1]));
    var first := [CLOSING[0]];
    ScanTwo(zones, b, CLOSING[1], CLOSING[2]);
    ScanOne(zones, a, first[0]);
    ScanConcat(zones, a, first, [CLOSING[1], CLOSING[2]]);
    assert CLOSING == first + [CLOSING[1], CLOSING[2]];
  }

  lemma ScanOne(zones: Zones, st: Scan, l: string)
    ensures ScanLines(zones, st, [l]) == ScanLine(zones, st, l)
  {
    assert [l][1..] == [];
  }

  /** Every logical line of a printed object is a content line. */
  lemma LinesAreContent(e: Entry)
    requires e.Valid()
    ensures forall l :: l in LinesOf(e) ==> ContentLine(l)
  {
    HeaderIsContent();
    ClosingIsContent();
    LineIsContent("BEGIN", "VEVENT");
    LineIsContent("UID", e.id + "@calnode");
    TimesAreContent(e);
    TextsAreContent(e);
  }

  lemma HeaderIsContent()
    ensures forall l :: l in HEADER ==> ContentLine(l)
  {
    LineIsContent("BEGIN", "VCALENDAR");
    LineIsContent("VERSION", "2.0");
    LineIsContent("PRODID", "-//Calnode//Booking//EN");
    LineIsContent("CALSCALE", "GREGORIAN");
    LineIsContent("METHOD", "REQUEST");
    hide Line, ContentLine;
  }

  lemma ClosingIsContent()
    ensures forall l :: l in CLOSING ==> ContentLine(l)
  {
    LineIsContent("STATUS", "CONFIRMED");
    LineIsContent("END", "VEVENT");
    LineIsContent("END", "VCALENDAR");
    hide Line, ContentLine;
  }

  lemma LineIsContent(w: string, x: string)
    requires w != "" && Plain(w) && !IsContinuation(w) && Plain(x)
    ensures ContentLine(Line(w, x))
  {
  }

  lemma {:induction false} PadIsPlain(n: nat, w: nat)
    ensures Plain(Pad(n, w))
  {
    PadIsDigits(n, w);
  }

  lemma UtcIsPlain(t: Time)
    ensures Plain(Utc(t))
  {
    PadIsPlain(t.year, 4);
    PadIsPlain(t.month, 2);
    PadIsPlain(t.day, 2);
    PadIsPlain(t.hour, 2);
    PadIsPlain(t.minute, 2);
    PadIsPlain(t.second, 2);
  }

  lemma TimesAreContent(e: Entry)
    ensures forall l :: l in TimeLines(e) + [SequenceLine(e)] ==> ContentLine(l)
  {
    UtcIsPlain(e.stamp);
    UtcIsPlain(e.start);
    UtcIsPlain(e.end);
    DecimalIsDigits(if e.sequence < 0 then -e.sequence else e.sequence);
    hide Utc, Decimal;
    assert Plain(Dec(e.sequence));
    LineIsContent("DTSTAMP", Utc(e.stamp));
    LineIsContent("DTSTART", Utc(e.start));
    LineIsContent("DTEND", Utc(e.end));
    LineIsContent("SEQUENCE", Dec(e.sequence));
  }

  lemma TextsAreContent(e: Entry)
    requires e.Valid()
    ensures forall l :: l in TextLines(e) ==> ContentLine(l)
  {
    EscapedIsPlain(e.summary);
    EscapedIsPlain(e.description);
    EscapedIsPlain(e.location);
    EscapedIsPlain(e.orgName);
    hide Escaped;
    LineIsContent("SUMMARY", Escaped(e.summary));
    LineIsContent("DESCRIPTION", Escaped(e.description));
    LineIsContent("LOCATION", Escaped(e.location));
    LineIsContent("ORGANIZER", "mailto:" + e.orgEmail);
  }

  /** The sequence number and the texts are passed over. */
  lemma MiddleIsInert(zones: Zones, e: Entry, st: Scan)
    requires st.cur.Some?
    ensures ScanLines(zones, st, TextLines(e)) == st
    ensures ScanLines(zones, st, [SequenceLine(e)]) == st
  {
    hide ScanLine, ScanLines, TextLines;
    TextLinesArePassive(e);
    forall l | l in TextLines(e) { ScanPassive(zones, st, l); }
    ScanInert(zones, st, TextLines(e));
    TimeWords();
    QuietPlain(zones, st, "SEQUENCE", Dec(e.sequence));
    ScanOne(zones, st, SequenceLine(e));
  }

  /** The printed object has exactly one event: opaque, not cancelled, with the printed times. */
  lemma PrintParse(zones: Zones, e: Entry)
    requires e.Valid()
    ensures Events(zones, Built(e)) == [Closed(Timed(e), false)]
  {
    assert Timed(e).(cancelled := false) == Timed(e);
    hide Built, ObjectText, Closed, Timed, ScanLines, ScanLine, Unfolded;
    LinesAreContent(e);
    FoldUnfoldInverse(LinesOf(e));
    BuiltIsText(e);
    ScanOpening(zones, e);
    ScanTimes(zones, e);
    MiddleIsInert(zones, e, Scan(Some(Timed(e)), false, []));
    ScanClosing(zones, Timed(e));
    hide Opening, TimeLines, TextLines, SequenceLine;
    ScanConcat(zones, START, Opening(e), TimeLines(e));
    ScanConcat(zones, START, Opening(e) + TimeLines(e), TextLines(e));
    ScanConcat(zones, START, Opening(e) + TimeLines(e) + TextLines(e), [SequenceLine(e)]);
    ScanConcat(zones, START, Opening(e) + TimeLines(e) + TextLines(e) + [SequenceLine(e)], CLOSING);
  }

  lemma BuiltIsText(e: Entry)
    ensures Built(e) == ObjectText(LinesOf(e))
  {
    hide ObjectText;
  }

  /** The reading is Go's zero time, which the reader takes for "no end given". */
  predicate IsGoZero(t: Time) {
    ToSecond(t) == Stamp(1, 1, 1, 0, 0, 0, 0)
  }

  lemma ZeroIsOneInstant(t: Time)
    ensures Instant(ToSecond(t)) == ZERO <==> IsGoZero(t)
  {
    var zero: Time := Stamp(1, 1, 1, 0, 0, 0, 0);
    assert DaysBeforeYear(1) == 366;
    assert Instant(zero) == ZERO;
    SecondsFollowFields(ToSecond(t), zero);
  }

  /**
   The round trip gives back exactly the printed times, to the second, unless the end alone is
   Go's zero time; then the reader replaces it by the start.
   */
  lemma RoundTripExact(zones: Zones, e: Entry)
    requires e.Valid()
    ensures Events(zones, Built(e)) == [Timed(e)] <==> !(IsGoZero(e.end) && !IsGoZero(e.start))
    ensures IsGoZero(e.end) && !IsGoZero(e.start) ==> Events(zones, Built(e)) == [Timed(e).(end := Timed(e).start)]
  {
    PrintParse(zones, e);
    ZeroIsOneInstant(e.start);
    ZeroIsOneInstant(e.end);
  }

  /** A year-one event that loses its end. */
  lemma ZeroEndIsLost(zones: Zones)
    ensures var e := Entry("x", Stamp(0, 12, 31, 23, 0, 0, 0), Stamp(1, 1, 1, 0, 0, 0, 0), "", "", "", "", "", 0,
                           Stamp(1, 1, 1, 0, 0, 0, 0));
            Events(zones, Built(e)) != [Timed(e)]
  {
    var e := Entry("x", Stamp(0, 12, 31, 23, 0, 0, 0), Stamp(1, 1, 1, 0, 0, 0, 0), "", "", "", "", "", 0,
                   Stamp(1, 1, 1, 0, 0, 0, 0));
    RoundTripExact(zones, e);
  }

  /** The texts a standard reader decodes from the printed lines. */
  lemma TextSurvives(e: Entry)
    requires e.Valid()
    ensures Line("SUMMARY", Escaped(e.summary)) in Unfolded(Built(e))
    ensures e.description != "" ==> Line("DESCRIPTION", Escaped(e.description)) in Unfolded(Built(e))
    ensures e.location != "" ==> Line("LOCATION", Escaped(e.location)) in Unfolded(Built(e))
    ensures Unescaped(Escaped(e.summary)) == LineFeeds(e.summary)
    ensures Unescaped(Escaped(e.description)) == LineFeeds(e.description)
    ensures Unescaped(Escaped(e.location)) == LineFeeds(e.location)
  {
    EscapeDecodes(e.summary);
    EscapeDecodes(e.description);
    EscapeDecodes(e.location);
    LinesAreContent(e);
    FoldUnfoldInverse(LinesOf(e));
    hide Escaped, Unescaped, LineFeeds, Line;
    assert forall l :: l in TextLines(e) ==> l in LinesOf(e);
  }
}
