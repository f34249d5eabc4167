/**
 The iCalendar objects written for bookings: the printer, the in-place time editor and the
 event reader, and the round trips between them.
 */
module CalendarObjects {
  import opened ContentLines
  import opened Options
  import opened Timestamps

  // ---------- times ----------

  /** A UTC date-time value, to the second. */
  function Utc(t: Time): string {
    Pad(t.year, 4) + Pad(t.month, 2) + Pad(t.day, 2) + "T" + Pad(t.hour, 2) + Pad(t.minute, 2) + Pad(t.second, 2) + "Z"
  }

  function ToSecond(t: Time): Time {
    t.(nanos := 0)
  }

  function Number(s: string): nat
    requires AllDigits(s)
  {
    if s == "" then 0 else 10 * Number(s[..|s| - 1]) + (s[|s| - 1] as int - '0' as int)
  }

  /** Go's time.Parse accepts only dates and clock readings that exist. */
  function Civil(year: nat, month: nat, day: nat, hour: nat, minute: nat, second: nat, nanos: nat): Option<Time> {
    var t := Stamp(year, month, day, hour, minute, second, nanos);
    if t.Valid() then Some(t) else None
  }

  /** Layout 20060102. */
  function ParseDate(v: string): Option<Time> {
    if |v| != 8 || !AllDigits(v) then None
    else Civil(Number(v[..4]), Number(v[4..6]), Number(v[6..8]), 0, 0, 0, 0)
  }

  /** The fractional seconds time.Parse accepts although the layout has none; nine digits count. */
  function ParseFraction(r: string): Option<nat> {
    if r == "" then Some(0)
    else if |r| >= 2 && r[0] in ".," && AllDigits(r[1..]) then
      var nine := (r[1..] + "000000000")[..9];
      if AllDigits(nine) then Some(Number(nine)) else None
    else None
  }

  /** Layout 20060102T150405. */
  function ParseDateTime(v: string): Option<Time> {
    if |v| < 15 || !AllDigits(v[..8]) || v[8] != 'T' || !AllDigits(v[9..15]) then None
    else
      var fraction := ParseFraction(v[15..]);
      if fraction.None? then None
      else
        var clock := v[9..15];
        Civil(Number(v[..4]), Number(v[4..6]), Number(v[6..8]),
              Number(clock[..2]), Number(clock[2..4]), Number(clock[4..]), fraction.value)
  }

  /** Local wall-clock time in a named zone, as an instant: the time zone database. */
  type Zones = (string, Time) -> int

  datatype Parsed = Parsed(at: int, isDate: bool)

  function ParseICSTime(zones: Zones, params: map<string, string>, raw: string): Option<Parsed> {
    var v := TrimSpace(raw);
    if ("VALUE" in params && EqualFold(params["VALUE"], "DATE")) || (|v| == 8 && 'T' !in v) then
      var t := ParseDate(v);
      if t.None? then None else Some(Parsed(Instant(t.value), true))
    else if v != "" && v[|v| - 1] == 'Z' then
      var t := ParseDateTime(v[..|v| - 1]);
      if t.None? then None else Some(Parsed(Instant(t.value), false))
    else
      var t := ParseDateTime(v);
      if t.None? then None
      else if "TZID" in params && params["TZID"] != "" then Some(Parsed(zones(params["TZID"], t.value), false))
      else Some(Parsed(Instant(t.value), false))
  }

  /** Nanoseconds per unit letter; minutes only count after the T. */
  function UnitNanos(unit: char, inTime: bool): Option<int> {
    match unit
    case 'W' => Some(7 * 24 * 3_600_000_000_000)
    case 'D' => Some(24 * 3_600_000_000_000)
    case 'H' => Some(3_600_000_000_000)
    case 'M' => Some(if inTime then 60_000_000_000 else 0)
    case 'S' => Some(1_000_000_000)
    case _ => None
  }

  function DurationFrom(v: string, inTime: bool, num: string, total: int): Option<int> {
    if v == "" then Some(total)
    else if v[0] == 'T' then DurationFrom(v[1..], true, num, total)
    else if IsDigit(v[0]) then DurationFrom(v[1..], inTime, num + [v[0]], total)
    else
      var unit := UnitNanos(v[0], inTime);
      if unit.None? then None
      else DurationFrom(v[1..], inTime, "", Wrap64(total + Wrap64(ReadInt(num, 0) * unit.value)))
  }

  /** A duration in nanoseconds, in the wrapping arithmetic of time.Duration. */
  function ParseDuration(raw: string): Option<int> {
    var v := TrimSpace(raw);
    if v == "" then None
    else
      var body := if v[0] == '-' || v[0] == '+' then v[1..] else v;
      if body == "" || body[0] != 'P' then None
      else
        var total := DurationFrom(body[1..], false, "", 0);
        if total.Some? && v[0] == '-' then Some(Wrap64(-total.value)) else total
  }

  method ParseICSDuration(raw: string) returns (r: Option<int>)
    ensures r == ParseDuration(raw)
  {
    var v := TrimSpace(raw);
    if v == "" {
      return None;
    }
    var neg := v[0] == '-';
    if v[0] == '-' || v[0] == '+' {
      v := v[1..];
    }
    if |v| == 0 || v[0] != 'P' {
      return None;
    }
    v := v[1..];
    var total, inTime, num := 0, false, "";
    for i := 0 to |v|
      invariant DurationFrom(v[i..], inTime, num, total) == DurationFrom(v, false, "", 0)
    {
      assert v[i..][1..] == v[i + 1..];
      if v[i] == 'T' {
        inTime := true;
      } else if IsDigit(v[i]) {
        num := num + [v[i]];
      } else {
        var n := Atoi(num);
        num := "";
        var unit := UnitNanos(v[i], inTime);
        if unit.None? {
          return None;
        }
        total := Wrap64(total + Wrap64(n * unit.value));
      }
    }
    if neg {
      total := Wrap64(-total);
    }
    r := Some(total);
  }

  // ---------- reading events ----------

  /** Position of the first c, or the length of s. */
  function IndexOf(s: string, c: char): (i: nat)
    ensures i <= |s| && (i < |s| ==> s[i] == c) && c !in s[..i]
  {
    if s == "" || s[0] == c then 0 else 1 + IndexOf(s[1..], c)
  }

  function TrimQuotes(s: string): string {
    if s != "" && s[0] == '"' then TrimQuotes(s[1..])
    else if s != "" && s[|s| - 1] == '"' then TrimQuotes(s[..|s| - 1])
    else s
  }

  /** The parameters after the property name; a later one replaces an earlier one of its name. */
  function Params(parts: seq<string>): map<string, string> {
    if parts == [] then map[]
    else
      var p := parts[|parts| - 1];
      var eq := IndexOf(p, '=');
      var earlier := Params(parts[..|parts| - 1]);
      if eq < |p| then earlier[Upper(p[..eq]) := TrimQuotes(p[eq + 1..])] else earlier
  }

  datatype Property = Property(name: string, params: map<string, string>, value: string)

  function SplitLine(ln: string): Property {
    var colon := IndexOf(ln, ':');
    if colon == |ln| then Property(ln, map[], "")
    else
      var parts := SplitOn(ln[..colon], ';');
      Property(parts[0], Params(parts[1..]), ln[colon + 1..])
  }

  method SplitContentLine(ln: string) returns (p: Property)
    ensures p == SplitLine(ln)
  {
    var colon := IndexOf(ln, ':');
    if colon == |ln| {
      return Property(ln, map[], "");
    }
    var parts := SplitOn(ln[..colon], ';');
    var params, rest := map[], parts[1..];
    for i := 0 to |rest|
      invariant params == Params(rest[..i])
    {
      assert rest[..i + 1][..i] == rest[..i];
      var eq := IndexOf(rest[i], '=');
      if eq < |rest[i]| {
        params := params[Upper(rest[i][..eq]) := TrimQuotes(rest[i][eq + 1..])];
      }
    }
    assert rest[..|rest|] == rest;
    p := Property(parts[0], params, ln[colon + 1..]);
  }

  /** Times are instants; Go's zero time stands for an absent one. */
  datatype Event = Event(start: int, end: int, transparent: bool, cancelled: bool)

  /** 0001-01-01T00:00:00Z. */
  const ZERO: int := 31_622_400_000_000_000

  const BLANK: Event := Event(ZERO, ZERO, false, false)

  datatype Scan = Scan(cur: Option<Event>, startDate: bool, out: seq<Event>)

  /** The end an event gets when it states none. */
  function Closed(e: Event, startDate: bool): Event {
    if e.end == ZERO && e.start != ZERO then
      e.(end := if startDate then e.start + 24 * 3_600_000_000_000 else e.start)
    else e
  }

  function ScanProperty(zones: Zones, st: Scan, p: Property): Scan
    requires st.cur.Some?
  {
    var e := st.cur.value;
    match Upper(p.name)
    case "DTSTART" =>
      var t := ParseICSTime(zones, p.params, p.value);
      if t.None? then st else st.(cur := Some(e.(start := t.value.at)), startDate := t.value.isDate)
    case "DTEND" =>
      var t := ParseICSTime(zones, p.params, p.value);
      if t.None? then st else st.(cur := Some(e.(end := t.value.at)))
    case "DURATION" =>
      var d := ParseDuration(p.value);
      if d.None? || e.start == ZERO then st else st.(cur := Some(e.(end := e.start + d.value)))
    case "TRANSP" => st.(cur := Some(e.(transparent := EqualFold(TrimSpace(p.value), "TRANSPARENT"))))
    case "STATUS" => st.(cur := Some(e.(cancelled := EqualFold(TrimSpace(p.value), "CANCELLED"))))
    case _ => st
  }

  function ScanLine(zones: Zones, st: Scan, ln: string): Scan {
    var p := SplitLine(ln);
    match Upper(p.name)
    case "BEGIN" => if EqualFold(p.value, "VEVENT") then Scan(Some(BLANK), false, st.out) else st
    case "END" =>
      if EqualFold(p.value, "VEVENT") && st.cur.Some? then
        Scan(None, st.startDate, st.out + [Closed(st.cur.value, st.startDate)])
      else st
    case _ => if st.cur.None? then st else ScanProperty(zones, st, p)
  }

  function ScanLines(zones: Zones, st: Scan, lines: seq<string>): Scan
    decreases |lines|
  {
    if lines == [] then st else ScanLines(zones, ScanLine(zones, st, lines[0]), lines[1..])
  }

  const START: Scan := Scan(None, false, [])

  function Events(zones: Zones, data: string): seq<Event> {
    ScanLines(zones, START, Unfolded(data)).out
  }

  method ParseVEvents(zones: Zones, data: string) returns (out: seq<Event>)
    ensures out == Events(zones, data)
  {
    hide ParseICSTime, ParseDuration, SplitLine, EqualFold, TrimSpace, Unfolded, Upper;
    var lines := Unfold(data);
    out := [];
    var cur: Option<Event>, startDate := None, false;
    for i := 0 to |lines|
      invariant ScanLines(zones, Scan(cur, startDate, out), lines[i..]) == ScanLines(zones, START, lines)
    {
      assert lines[i..][1..] == lines[i + 1..];
      var p := SplitContentLine(lines[i]);
      var upper := Upper(p.name);
      if upper == "BEGIN" {
        if EqualFold(p.value, "VEVENT") {
          cur, startDate := Some(BLANK), false;
        }
      } else if upper == "END" {
        if EqualFold(p.value, "VEVENT") && cur.Some? {
          var e := cur.value;
          if e.end == ZERO && e.start != ZERO {
            if startDate {
              e := e.(end := e.start + 24 * 3_600_000_000_000);
            } else {
              e := e.(end := e.start);
            }
          }
          out := out + [e];
          cur := None;
        }
      } else if cur.None? {
        continue;
      } else if upper == "DTSTART" {
        var t := ParseICSTime(zones, p.params, p.value);
        if t.Some? {
          cur, startDate := Some(cur.value.(start := t.value.at)), t.value.isDate;
        }
      } else if upper == "DTEND" {
        var t := ParseICSTime(zones, p.params, p.value);
        if t.Some? {
          cur := Some(cur.value.(end := t.value.at));
        }
      } else if upper == "DURATION" {
        var d := ParseICSDuration(p.value);
        if d.Some? && cur.value.start != ZERO {
          cur := Some(cur.value.(end := cur.value.start + d.value));
        }
      } else if upper == "TRANSP" {
        cur := Some(cur.value.(transparent := EqualFold(TrimSpace(p.value), "TRANSPARENT")));
      } else if upper == "STATUS" {
        cur := Some(cur.value.(cancelled := EqualFold(TrimSpace(p.value), "CANCELLED")));
      }
    }
  }

  // ---------- the printer ----------

  datatype Entry = Entry(
    id: string, start: Time, end: Time, summary: string, description: string, location: string,
    orgName: string, orgEmail: string, sequence: int, stamp: Time)
  {
    /** The two values written unescaped hold no line breaks; the sequence is a Go int. */
    predicate Valid() {
      Plain(id) && Plain(orgEmail) && -TWO63 <= sequence < TWO63
    }
  }

  /** A content line without parameters. */
  function Line(name: string, value: string): string {
    name + (":" + value)
  }

  const HEADER: seq<string> := [
    Line("BEGIN", "VCALENDAR"), Line("VERSION", "2.0"), Line("PRODID", "-//Calnode//Booking//EN"),
    Line("CALSCALE", "GREGORIAN"), Line("METHOD", "REQUEST")]

  function Opening(e: Entry): seq<string> {
    HEADER + [Line("BEGIN", "VEVENT"), Line("UID", e.id + "@calnode")]
  }

  function TimeLines(e: Entry): seq<string> {
    [Line("DTSTAMP", Utc(e.stamp)), Line("DTSTART", Utc(e.start)), Line("DTEND", Utc(e.end))]
  }

  function TextLines(e: Entry): seq<string> {
    [Line("SUMMARY", Escaped(e.summary))] +
    (if e.description == "" then [] else [Line("DESCRIPTION", Escaped(e.description))]) +
    (if e.location == "" then [] else [Line("LOCATION", Escaped(e.location))]) +
    (if e.orgEmail == "" then []
     else if e.orgName == "" then [Line("ORGANIZER", "mailto:" + e.orgEmail)]
     else ["ORGANIZER;" + ("CN=" + Escaped(e.orgName) + ":mailto:" + e.orgEmail)])
  }

  function SequenceLine(e: Entry): string {
    Line("SEQUENCE", Dec(e.sequence))
  }

  const CLOSING: seq<string> := [Line("STATUS", "CONFIRMED"), Line("END", "VEVENT"), Line("END", "VCALENDAR")]

  function LinesOf(e: Entry): seq<string> {
    Opening(e) + TimeLines(e) + TextLines(e) + [SequenceLine(e)] + CLOSING
  }

  /** The object text buildICS returns. */
  function Built(e: Entry): string {
    ObjectText(LinesOf(e))
  }

  lemma {:induction false} TextOfOneMore(lines: seq<string>, line: string)
    ensures ObjectText(lines + [line]) == ObjectText(lines) + (Folded(line) + "\r\n")
  {
    if lines == [] {
      assert [line][1..] == [];
    } else {
      assert (lines + [line])[1..] == lines[1..] + [line];
      TextOfOneMore(lines[1..], line);
    }
  }

  method WriteLine(b: string, ghost lines: seq<string>, line: string) returns (b': string, ghost lines': seq<string>)
    requires b == ObjectText(lines)
    ensures lines' == lines + [line] && b' == ObjectText(lines')
  {
    TextOfOneMore(lines, line);
    var folded := FoldLine(line);
    b', lines' := b + (folded + "\r\n"), lines + [line];
  }

  method WriteTextLines(b: string, ghost lines: seq<string>, e: Entry) returns (b': string, ghost lines': seq<string>)
    requires b == ObjectText(lines)
    ensures lines' == lines + TextLines(e) && b' == ObjectText(lines')
  {
    hide Escaped, ObjectText;
    b', lines' := WriteLine(b, lines, Line("SUMMARY", Escaped(e.summary)));
    if e.description != "" {
      b', lines' := WriteLine(b', lines', Line("DESCRIPTION", Escaped(e.description)));
    }
    if e.location != "" {
      b', lines' := WriteLine(b', lines', Line("LOCATION", Escaped(e.location)));
    }
    if e.orgEmail != "" {
      if e.orgName != "" {
        b', lines' := WriteLine(b', lines', "ORGANIZER;" + ("CN=" + Escaped(e.orgName) + ":mailto:" + e.orgEmail));
      } else {
        b', lines' := WriteLine(b', lines', Line("ORGANIZER", "mailto:" + e.orgEmail));
      }
    }
  }

  method WriteOpening(b: string, ghost lines: seq<string>, e: Entry) returns (b': string, ghost lines': seq<string>)
    requires b == ObjectText(lines)
    ensures lines' == lines + Opening(e) && b' == ObjectText(lines')
  {
    hide ObjectText, Line;
    b', lines' := WriteLine(b, lines, Line("BEGIN", "VCALENDAR"));
    b', lines' := WriteLine(b', lines', Line("VERSION", "2.0"));
    b', lines' := WriteLine(b', lines', Line("PRODID", "-//Calnode//Booking//EN"));
    b', lines' := WriteLine(b', lines', Line("CALSCALE", "GREGORIAN"));
    b', lines' := WriteLine(b', lines', Line("METHOD", "REQUEST"));
    assert lines' == lines + HEADER;
    b', lines' := WriteLine(b', lines', Line("BEGIN", "VEVENT"));
    b', lines' := WriteLine(b', lines', Line("UID", e.id + "@calnode"));
  }

  method WriteTimeLines(b: string, ghost lines: seq<string>, e: Entry) returns (b': string, ghost lines': seq<string>)
    requires b == ObjectText(lines)
    ensures lines' == lines + TimeLines(e) && b' == ObjectText(lines')
  {
    hide ObjectText, Line, Utc;
    b', lines' := WriteLine(b, lines, Line("DTSTAMP", Utc(e.stamp)));
    b', lines' := WriteLine(b', lines', Line("DTSTART", Utc(e.start)));
    b', lines' := WriteLine(b', lines', Line("DTEND", Utc(e.end)));
  }

  method WriteClosing(b: string, ghost lines: seq<string>) returns (b': string, ghost lines': seq<string>)
    requires b == ObjectText(lines)
    ensures lines' == lines + CLOSING && b' == ObjectText(lines')
  {
    hide ObjectText, Line;
    b', lines' := WriteLine(b, lines, Line("STATUS", "CONFIRMED"));
    b', lines' := WriteLine(b', lines', Line("END", "VEVENT"));
    b', lines' := WriteLine(b', lines', Line("END", "VCALENDAR"));
  }

  lemma Assembled(e: Entry)
    ensures LinesOf(e) == [] + Opening(e) + TimeLines(e) + TextLines(e) + [SequenceLine(e)] + CLOSING
  {
    hide Opening, TimeLines, TextLines, SequenceLine;
    assert [] + Opening(e) == Opening(e);
  }

  method BuildICS(e: Entry) returns (b: string)
    ensures b == Built(e)
  {
    ghost var lines: seq<string> := [];
    b := "";
    assert b == ObjectText(lines);
    hide ObjectText, Opening, TimeLines, TextLines, SequenceLine, LinesOf;
    Assembled(e);
    b, lines := WriteOpening(b, lines, e);
    b, lines := WriteTimeLines(b, lines, e);
    b, lines := WriteTextLines(b, lines, e);
    b, lines := WriteLine(b, lines, SequenceLine(e));
    b, lines := WriteClosing(b, lines);
  }

  // ---------- the editor ----------

  datatype Move = Move(start: Time, end: Time, now: Time)

  /** The text before the first colon or semicolon. */
  function PropName(line: string): string {
    if line == "" || line[0] == ':' || line[0] == ';' then "" else [line[0]] + PropName(line[1..])
  }

  function PropValue(line: string): string {
    var i := IndexOf(line, ':');
    if i < |line| then line[i + 1..] else ""
  }

  function SeqPlusOne(line: string): int {
    Wrap64(ReadInt(TrimSpace(PropValue(line)), 0) + 1)
  }

  /** What one physical line becomes, and whether a SEQUENCE has been seen since. */
  function EditLine(ln: string, sawSeq: bool, m: Move): (seq<string>, bool) {
    if ln == "" then ([], sawSeq)
    else
      var head := PropName(Upper(ln));
      match head
      case "DTSTART" => ([Line("DTSTART", Utc(m.start))], sawSeq)
      case "DTEND" => ([Line("DTEND", Utc(m.end))], sawSeq)
      case "DURATION" => ([], sawSeq)
      case "DTSTAMP" => ([Line("DTSTAMP", Utc(m.now))], sawSeq)
      case "LAST-MODIFIED" => ([Line("LAST-MODIFIED", Utc(m.now))], sawSeq)
      case "SEQUENCE" => ([Line("SEQUENCE", Dec(SeqPlusOne(ln)))], true)
      case "END" =>
        if EqualFold(TrimSpace(PropValue(ln)), "VEVENT") && !sawSeq then ([Line("SEQUENCE", "1"), ln], true)
        else ([ln], sawSeq)
      case _ => ([ln], sawSeq)
  }

  function Edit(lines: seq<string>, sawSeq: bool, m: Move): seq<string>
    decreases |lines|
  {
    if lines == [] then []
    else
      var (kept, saw) := EditLine(lines[0], sawSeq, m);
      kept + Edit(lines[1..], saw, m)
  }

  /** strings.Join(lines, "\r\n"). */
  function JoinLines(lines: seq<string>): string {
    if lines == [] then "" else if |lines| == 1 then lines[0] else lines[0] + "\r\n" + JoinLines(lines[1..])
  }

  /** The object text rewriteEventTimes returns. */
  function Rewritten(ics: string, m: Move): string {
    JoinLines(Edit(RawLines(ics), false, m)) + "\r\n"
  }

  /** The body of the editor's loop: the lines appended for ln, and the new flag. */
  method EditOneLine(ln: string, sawSeq: bool, m: Move) returns (kept: seq<string>, saw: bool)
    ensures (kept, saw) == EditLine(ln, sawSeq, m)
  {
    hide Utc, Dec, SeqPlusOne, PropName, PropValue, EqualFold, TrimSpace, Upper;
    kept, saw := [], sawSeq;
    if ln == "" {
      return;
    }
    var head := PropName(Upper(ln));
    if head == "DTSTART" {
      kept := [Line("DTSTART", Utc(m.start))];
    } else if head == "DTEND" {
      kept := [Line("DTEND", Utc(m.end))];
    } else if head == "DURATION" {
    } else if head == "DTSTAMP" || head == "LAST-MODIFIED" {
      kept := [Line(head, Utc(m.now))];
    } else if head == "SEQUENCE" {
      saw := true;
      kept := [Line("SEQUENCE", Dec(SeqPlusOne(ln)))];
    } else if head == "END" {
      if EqualFold(TrimSpace(PropValue(ln)), "VEVENT") && !saw {
        kept, saw := [Line("SEQUENCE", "1"), ln], true;
      } else {
        kept := [ln];
      }
    } else {
      kept := [ln];
    }
  }

  method RewriteEventTimes(ics: string, m: Move) returns (r: string)
    ensures r == Rewritten(ics, m)
  {
    hide EditLine;
    var lines := RawLines(ics);
    var out: seq<string>, sawSeq := [], false;
    assert lines[0..] == lines;
    for i := 0 to |lines|
      invariant out + Edit(lines[i..], sawSeq, m) == Edit(lines, false, m)
    {
      var rest := lines[i..];
      assert rest[0] == lines[i] && rest[1..] == lines[i + 1..];
      var kept, saw := EditOneLine(lines[i], sawSeq, m);
      out, sawSeq := out + kept, saw;
    }
    assert out + [] == out;
    r := JoinLines(out) + "\r\n";
  }
}
