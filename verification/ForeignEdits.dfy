/**
 Moving the event of any calendar object, whoever wrote it: what the editor's physical lines unfold to, and
 what the reader then makes of each event.
 */
module ForeignEdits {
  import opened CalendarEdits
  import opened CalendarObjects
  import opened CalendarReader
  import opened CalendarRoundTrip
  import opened ContentLines
  import opened Options
  import opened Timestamps

  // ---------- physical lines ----------

  /** What the editor takes for the property name. */
  function HeadOf(ln: string): string {
    PropName(Upper(ln))
  }

  /** The line names its property, and the editor leaves such lines alone. */
  predicate Tame(ln: string) {
    (':' in ln || ';' in ln) && !EditName(HeadOf(ln))
  }

  /** Lines are continued only behind a complete name, and only where the editor leaves the line alone. */
  predicate WellFolded(raw: seq<string>) {
    forall i :: 0 <= i < |raw| && IsContinuation(raw[i]) && Joined([], raw[..i]) != [] ==>
      Tame(Joined([], raw[..i])[|Joined([], raw[..i])| - 1])
  }

  lemma UnnamedIsKept(ln: string, saw: bool, m: Move)
    requires ln != "" && !EditName(HeadOf(ln))
    ensures EditLine(ln, saw, m) == ([ln], saw)
  {
    hide Utc, Dec, SeqPlusOne, PropName, PropValue, EqualFold, TrimSpace, Upper;
  }

  lemma {:induction false} NameStays(s: string, more: string)
    requires ':' in s || ';' in s
    ensures PropName(s + more) == PropName(s)
  {
    if s[0] != ':' && s[0] != ';' {
      assert (s + more)[1..] == s[1..] + more;
      NameStays(s[1..], more);
    }
  }

  lemma TameStays(ln: string, more: string)
    requires Tame(ln)
    ensures ln + more != "" && !EditName(HeadOf(ln + more))
  {
    assert Upper(ln + more) == Upper(ln) + Upper(more);
    var i :| 0 <= i < |ln| && (ln[i] == ':' || ln[i] == ';');
    assert Upper(ln)[i] == ln[i];
    NameStays(Upper(ln), Upper(more));
  }

  lemma ContinuationIsUnnamed(ln: string)
    requires IsContinuation(ln)
    ensures !EditName(HeadOf(ln))
  {
    assert Upper(ln)[0] == ln[0];
    assert HeadOf(ln)[0] == ln[0];
  }

  /** A line that begins a content line. */
  predicate Begins(ln: string) {
    ln != "" && !IsContinuation(ln)
  }

  lemma {:induction false} JoinNew(out: seq<string>, lines: seq<string>)
    requires forall l :: l in lines ==> Begins(l)
    ensures Joined(out, lines) == out + lines
    decreases |lines|
  {
    if lines != [] {
      assert Begins(lines[0]);
      assert JoinOne(out, lines[0]) == out + [lines[0]];
      JoinNew(out + [lines[0]], lines[1..]);
      assert lines == [lines[0]] + lines[1..];
    }
  }

  /** The lines the editor puts for a line that begins one. */
  lemma EditedBegins(ln: string, saw: bool, m: Move)
    requires Begins(ln)
    ensures forall l :: l in EditLine(ln, saw, m).0 ==> Begins(l)
  {
    hide Utc, Dec, SeqPlusOne, PropName, PropValue, EqualFold, TrimSpace, Upper;
  }

  lemma JoinedOneMore(raw: seq<string>, ln: string)
    ensures Joined([], raw + [ln]) == JoinOne(Joined([], raw), ln)
  {
    JoinedConcat([], raw, [ln]);
    assert [ln][1..] == [];
    assert Joined(Joined([], raw), [ln]) == JoinOne(Joined([], raw), ln);
  }

  lemma EditOneMore(lines: seq<string>, ln: string, m: Move)
    ensures var (kept, saw) := EditLine(ln, SawAfter(lines, false, m), m);
            && Edit(lines + [ln], false, m) == Edit(lines, false, m) + kept
            && SawAfter(lines + [ln], false, m) == saw
  {
    hide EditLine;
    EditConcat(lines, [ln], false, m);
    var saw := SawAfter(lines, false, m);
    assert [ln][1..] == [];
    assert Edit([ln], saw, m) == EditLine(ln, saw, m).0 + [];
    assert SawAfter([ln], saw, m) == EditLine(ln, saw, m).1;
  }

  /** Unfolding the edited lines is editing the unfolded ones. */
  lemma {:induction false} UnfoldEdited(raw: seq<string>, n: nat, m: Move)
    requires WellFolded(raw) && n <= |raw|
    ensures Joined([], Edit(raw[..n], false, m)) == Edit(Joined([], raw[..n]), false, m)
    ensures SawAfter(raw[..n], false, m) == SawAfter(Joined([], raw[..n]), false, m)
  {
    hide EditLine, Edit, SawAfter, Joined, Tame, EditName, HeadOf;
    if n == 0 {
      NothingEdited(m);
      assert raw[..0] == [];
    } else {
      UnfoldEdited(raw, n - 1, m);
      var front, ln := raw[..n - 1], raw[n - 1];
      assert raw[..n] == front + [ln];
      JoinedOneMore(front, ln);
      EditOneMore(front, ln, m);
      var joined := Joined([], front);
      if ln == "" {
        EmptyEdited(SawAfter(front, false, m), m);
        assert Edit(front, false, m) + [] == Edit(front, false, m);
      } else if IsContinuation(ln) && joined != [] {
        assert Tame(joined[|joined| - 1]);
        ContinuedEdited(front, ln, m);
      } else {
        EditOneMore(joined, ln, m);
        NewEdited(front, ln, m);
      }
    }
  }

  lemma NothingEdited(m: Move)
    ensures Edit([], false, m) == [] && SawAfter([], false, m) == false && Joined([], []) == []
  {
  }

  lemma EmptyEdited(saw: bool, m: Move)
    ensures EditLine("", saw, m) == ([], saw)
  {
  }

  /** A continuation: appended to a line the editor leaves alone. */
  lemma ContinuedEdited(front: seq<string>, ln: string, m: Move)
    requires Joined([], Edit(front, false, m)) == Edit(Joined([], front), false, m)
    requires SawAfter(front, false, m) == SawAfter(Joined([], front), false, m)
    requires IsContinuation(ln) && Joined([], front) != [] && Tame(Joined([], front)[|Joined([], front)| - 1])
    ensures Joined([], Edit(front + [ln], false, m)) == Edit(JoinOne(Joined([], front), ln), false, m)
    ensures SawAfter(front + [ln], false, m) == SawAfter(JoinOne(Joined([], front), ln), false, m)
  {
    hide EditLine, Edit, SawAfter, Joined, EditName, HeadOf;
    var joined := Joined([], front);
    var k := |joined| - 1;
    var before, last := joined[..k], joined[k];
    var longer := last + ln[1..];
    var saw := SawAfter(before, false, m);
    assert joined == before + [last];
    assert JoinOne(joined, ln) == before + [longer];
    ContinuationIsUnnamed(ln);
    TameStays(last, ln[1..]);
    UnnamedIsKept(ln, SawAfter(front, false, m), m);
    UnnamedIsKept(last, saw, m);
    UnnamedIsKept(longer, saw, m);
    EditOneMore(front, ln, m);
    EditOneMore(before, last, m);
    EditOneMore(before, longer, m);
    JoinedOneMore(Edit(front, false, m), ln);
  }

  /** A line of its own. */
  lemma NewEdited(front: seq<string>, ln: string, m: Move)
    requires Joined([], Edit(front, false, m)) == Edit(Joined([], front), false, m)
    requires ln != "" && (IsContinuation(ln) ==> Joined([], front) == [])
    ensures Joined([], Edit(front, false, m) + EditLine(ln, SawAfter(front, false, m), m).0) ==
            Edit(Joined([], front), false, m) + EditLine(ln, SawAfter(front, false, m), m).0
  {
    hide EditLine, Edit, SawAfter, Joined, EditName, HeadOf;
    var saw := SawAfter(front, false, m);
    var kept := EditLine(ln, saw, m).0;
    if IsContinuation(ln) {
      ContinuationIsUnnamed(ln);
      UnnamedIsKept(ln, saw, m);
      NothingEdited(m);
      JoinedOneMore(Edit(front, false, m), ln);
    } else {
      EditedBegins(ln, saw, m);
      JoinNew(Edit(Joined([], front), false, m), kept);
      JoinedConcat([], Edit(front, false, m), kept);
    }
  }

  lemma {:induction false} NoBreaksIn(s: string)
    ensures forall l :: l in SplitOn(s, '\n') ==> '\n' !in l
  {
    if s != "" { NoBreaksIn(s[1..]); }
  }

  lemma {:induction false} NoBreaksEdited(lines: seq<string>, saw: bool, m: Move)
    requires forall l :: l in lines ==> '\n' !in l
    ensures forall l :: l in Edit(lines, saw, m) ==> '\n' !in l
    decreases |lines|
  {
    hide EditLine;
    if lines != [] {
      var (kept, after) := EditLine(lines[0], saw, m);
      OneLineEdited(lines[0], saw, m);
      NoBreaksEdited(lines[1..], after, m);
    }
  }

  lemma OneLineEdited(ln: string, saw: bool, m: Move)
    requires '\n' !in ln
    ensures forall l :: l in EditLine(ln, saw, m).0 ==> '\n' !in l
  {
    hide Utc, Dec, SeqPlusOne, PropName, PropValue, EqualFold, TrimSpace, Upper, Line;
    StampLineHolds("DTSTART", m.start);
    StampLineHolds("DTEND", m.end);
    StampLineHolds("DTSTAMP", m.now);
    StampLineHolds("LAST-MODIFIED", m.now);
    NumberLineHolds(SeqPlusOne(ln));
  }

  lemma StampLineHolds(name: string, t: Time)
    requires '\n' !in name
    ensures '\n' !in Line(name, Utc(t))
  {
    UtcIsPlain(t);
    hide Utc;
  }

  lemma NumberLineHolds(n: int)
    ensures '\n' !in Line("SEQUENCE", Dec(n)) && '\n' !in Line("SEQUENCE", "1")
  {
    DecimalIsDigits(if n < 0 then -n else n);
    hide Decimal;
  }

  /** The edited object unfolds to the edited content lines of the object. */
  lemma RewrittenUnfolds(data: string, m: Move)
    requires WellFolded(RawLines(data))
    ensures Unfolded(Rewritten(data, m)) == Edit(Unfolded(data), false, m)
  {
    hide WellFolded, Edit, Joined, RawLines, Rewritten;
    var raw := RawLines(data);
    assert raw[..|raw|] == raw;
    UnfoldEdited(raw, |raw|, m);
    RewrittenJoins(data, m);
  }

  /** The edited object unfolds to what its edited physical lines join to. */
  lemma RewrittenJoins(data: string, m: Move)
    ensures Unfolded(Rewritten(data, m)) == Joined([], Edit(RawLines(data), false, m))
  {
    hide Edit, EditLine, Joined, SplitOn, UnixBreaks, Flat, JoinLines;
    var raw := RawLines(data);
    var out := Edit(raw, false, m);
    NoBreaksIn(UnixBreaks(data));
    NoBreaksEdited(raw, false, m);
    if out == [] {
      NothingWritten();
    } else {
      JoinIsFlat(out);
      RawLinesOfFlat(out);
      JoinedOneMore(out, "");
    }
  }

  lemma NothingWritten()
    ensures JoinLines([]) + "\r\n" == "\r\n" && Joined([], RawLines("\r\n")) == [] == Joined([], [])
  {
    BreaksAfterPlain("", "");
    assert "" + "\r\n" + "" == "\r\n" && UnixBreaks("\r\n") == "\n";
    SplitAfterPlain("", "");
    assert "" + "\n" + "" == "\n";
    assert RawLines("\r\n") == ["", ""];
    assert ["", ""][1..] == [""] && [""][1..] == [];
  }

  // ---------- what the reader makes of it ----------

  lemma {:induction false} FirstPart(s: string, c: char)
    ensures var p := SplitOn(s, c)[0]; p <= s && c !in p && (|p| < |s| ==> s[|p|] == c)
  {
    if s != "" && s[0] != c {
      FirstPart(s[1..], c);
    }
  }

  /** A property the reader knows by name is one the editor knows by that name. */
  lemma NameIsHead(ln: string, name: string)
    requires Has(ln, name) && name != "" && ':' !in name && ';' !in name
    ensures ln != "" && HeadOf(ln) == name
  {
    var p := SplitLine(ln).name;
    SplitNameIsFront(ln);
    hide SplitLine;
    var rest := ln[|p|..];
    assert ln == p + rest && Upper(ln) == Upper(p) + Upper(rest);
    if rest == "" {
      NameAlone(name);
      assert Upper(rest) == "";
      assert name + "" == name;
    } else {
      assert Upper(rest)[0] == rest[0];
      NameBeforeMark(name, Upper(rest));
    }
  }

  lemma SplitNameIsFront(ln: string)
    ensures var p := SplitLine(ln).name; p <= ln && (|p| < |ln| ==> ln[|p|] == ':' || ln[|p|] == ';')
  {
    var colon := IndexOf(ln, ':');
    if colon < |ln| {
      FirstPart(ln[..colon], ';');
    }
  }

  lemma {:induction false} NameAlone(name: string)
    requires ':' !in name && ';' !in name
    ensures PropName(name) == name
  {
    if name != "" {
      NameAlone(name[1..]);
      assert [name[0]] + name[1..] == name;
    }
  }

  /** Some line has this property, as the editor sees it. */
  predicate HasHead(body: seq<string>, head: string) {
    exists i :: 0 <= i < |body| && HeadOf(body[i]) == head
  }

  lemma OneMoreHead(body: seq<string>, ln: string, head: string)
    ensures HasHead(body + [ln], head) <==> HasHead(body, head) || HeadOf(ln) == head
  {
    hide HeadOf;
    var longer := body + [ln];
    assert longer[|body|] == ln;
    assert forall i :: 0 <= i < |body| ==> longer[i] == body[i];
  }

  function Second(t: Time): int {
    Instant(ToSecond(t))
  }

  /** The moved event before it is closed: the new times where there were lines for them, the rest as read. */
  function MovedRaw(body: seq<string>, m: Move): Event {
    Event(
      if HasHead(body, "DTSTART") then Second(m.start) else ZERO,
      if HasHead(body, "DTEND") then Second(m.end) else ZERO,
      LastGiven(body, Says("TRANSP", "TRANSPARENT")) == Some(true),
      LastGiven(body, Says("STATUS", "CANCELLED")) == Some(true))
  }

  /** The reader has the edited lines of an open event behind it. */
  ghost predicate HoldsMoved(st: Scan, body: seq<string>, m: Move) {
    st.cur == Some(MovedRaw(body, m)) && !st.startDate
  }

  lemma OneMoreMoved(body: seq<string>, ln: string, m: Move)
    ensures var e := MovedRaw(body, m);
            var transp, status := Says("TRANSP", "TRANSPARENT")(ln), Says("STATUS", "CANCELLED")(ln);
            MovedRaw(body + [ln], m) == Event(
              if HeadOf(ln) == "DTSTART" then Second(m.start) else e.start,
              if HeadOf(ln) == "DTEND" then Second(m.end) else e.end,
              if transp.Some? then transp == Some(true) else e.transparent,
              if status.Some? then status == Some(true) else e.cancelled)
  {
    hide LastGiven, Says, HeadOf, HasHead, Second;
    OneMoreGiven(body, ln, Says("TRANSP", "TRANSPARENT"));
    OneMoreGiven(body, ln, Says("STATUS", "CANCELLED"));
    OneMoreHead(body, ln, "DTSTART");
    OneMoreHead(body, ln, "DTEND");
  }

  /** Lines the editor writes itself do not open or close an event. */
  lemma WrittenFrames(w: string, x: string)
    requires Word(w) && w != "BEGIN" && w != "END"
    ensures !Opens(Line(w, x)) && !Closes(Line(w, x))
  {
    NameOfLine(w, x);
  }

  lemma EditWords()
    ensures Word("DTSTART") && Word("DTEND") && Word("DTSTAMP") && Word("LAST-MODIFIED") && Word("SEQUENCE")
    ensures "DTSTART"[0] == "DTEND"[0] == "DTSTAMP"[0] == 'D' && "LAST-MODIFIED"[0] == 'L' && "SEQUENCE"[0] == 'S'
  {
  }

  /** How the editor treats a line, by its head. */
  lemma EditByHead(ln: string, saw: bool, m: Move)
    ensures var kept, h := EditLine(ln, saw, m).0, HeadOf(ln);
            && (ln == "" ==> kept == [])
            && (ln != "" && !EditName(h) ==> kept == [ln])
            && (ln != "" && h == "DTSTART" ==> kept == [Line("DTSTART", Utc(m.start))])
            && (ln != "" && h == "DTEND" ==> kept == [Line("DTEND", Utc(m.end))])
            && (ln != "" && h == "DURATION" ==> kept == [])
            && (ln != "" && h == "DTSTAMP" ==> kept == [Line("DTSTAMP", Utc(m.now))])
            && (ln != "" && h == "LAST-MODIFIED" ==> kept == [Line("LAST-MODIFIED", Utc(m.now))])
            && (ln != "" && h == "SEQUENCE" ==> kept == [Line("SEQUENCE", Dec(SeqPlusOne(ln)))])
            && (ln != "" && h == "END" ==> kept == [ln] || kept == [Line("SEQUENCE", "1"), ln])
  {
    hide Utc, Dec, SeqPlusOne, PropName, PropValue, EqualFold, TrimSpace, Upper, Line;
  }

  lemma ReaderNames(ln: string)
    ensures Has(ln, "DTSTART") ==> ln != "" && HeadOf(ln) == "DTSTART"
    ensures Has(ln, "DTEND") ==> ln != "" && HeadOf(ln) == "DTEND"
    ensures Has(ln, "DURATION") ==> ln != "" && HeadOf(ln) == "DURATION"
    ensures Has(ln, "TRANSP") ==> ln != "" && HeadOf(ln) == "TRANSP"
    ensures Has(ln, "STATUS") ==> ln != "" && HeadOf(ln) == "STATUS"
    ensures Opens(ln) ==> ln != "" && HeadOf(ln) == "BEGIN"
    ensures Closes(ln) ==> ln != "" && HeadOf(ln) == "END"
  {
    hide Has, HeadOf, SplitLine, EqualFold;
    if Has(ln, "DTSTART") { NameIsHead(ln, "DTSTART"); }
    if Has(ln, "DTEND") { NameIsHead(ln, "DTEND"); }
    if Has(ln, "DURATION") { NameIsHead(ln, "DURATION"); }
    if Has(ln, "TRANSP") { NameIsHead(ln, "TRANSP"); }
    if Has(ln, "STATUS") { NameIsHead(ln, "STATUS"); }
    if Has(ln, "BEGIN") { NameIsHead(ln, "BEGIN"); }
    if Has(ln, "END") { NameIsHead(ln, "END"); }
  }

  /** The reader takes no word from the line. */
  predicate Silences(ln: string) {
    !Has(ln, "TRANSP") && !Has(ln, "STATUS")
  }

  lemma NothingSaid(ln: string)
    requires Silences(ln)
    ensures Says("TRANSP", "TRANSPARENT")(ln) == None && Says("STATUS", "CANCELLED")(ln) == None
  {
    hide Has, SplitLine, TrimSpace, EqualFold;
  }

  /** A line the editor replaces by one that says nothing, or by nothing, or keeps among such. */
  lemma SilentStep(zones: Zones, st: Scan, body: seq<string>, ln: string, kept: seq<string>, m: Move)
    requires HoldsMoved(st, body, m) && Silences(ln) && HeadOf(ln) != "DTSTART" && HeadOf(ln) != "DTEND"
    requires ScanLines(zones, st, kept) == st
    ensures HoldsMoved(ScanLines(zones, st, kept), body + [ln], m)
  {
    hide MovedRaw, Silences, HeadOf, Says, ScanLines;
    NothingSaid(ln);
    OneMoreMoved(body, ln, m);
  }

  lemma ScanNone(zones: Zones, st: Scan)
    ensures ScanLines(zones, st, []) == st
  {
  }

  lemma StartMoves(zones: Zones, st: Scan, body: seq<string>, ln: string, m: Move)
    requires HoldsMoved(st, body, m) && HeadOf(ln) == "DTSTART"
    ensures var next := ScanLine(zones, st, Line("DTSTART", Utc(m.start)));
            HoldsMoved(next, body + [ln], m) && next.out == st.out
  {
    hide MovedRaw, HeadOf, Has, ScanLine, Line, Says;
    EditWords();
    ReaderNames(ln);
    DifferentNames();
    assert Silences(ln);
    NothingSaid(ln);
    OneMoreMoved(body, ln, m);
    ScanStart(zones, st, m.start);
  }

  lemma EndMoves(zones: Zones, st: Scan, body: seq<string>, ln: string, m: Move)
    requires HoldsMoved(st, body, m) && HeadOf(ln) == "DTEND"
    ensures var next := ScanLine(zones, st, Line("DTEND", Utc(m.end)));
            HoldsMoved(next, body + [ln], m) && next.out == st.out
  {
    hide MovedRaw, HeadOf, Has, ScanLine, Line, Says;
    EditWords();
    ReaderNames(ln);
    WordsDiffer();
    assert Silences(ln);
    NothingSaid(ln);
    OneMoreMoved(body, ln, m);
    ScanEnd(zones, st, m.end);
  }

  /** A line the editor copies. */
  lemma CopyMoves(zones: Zones, st: Scan, body: seq<string>, ln: string, m: Move)
    requires HoldsMoved(st, body, m) && !Opens(ln) && !Closes(ln)
    requires HeadOf(ln) != "DTSTART" && HeadOf(ln) != "DTEND" && HeadOf(ln) != "DURATION"
    ensures HoldsMoved(ScanLine(zones, st, ln), body + [ln], m) && ScanLine(zones, st, ln).out == st.out
  {
    hide MovedRaw, HeadOf, Has, ScanLine, Opens, Closes, SplitLine, TrimSpace, EqualFold;
    ReaderNames(ln);
    OneName(ln);
    OneMoreMoved(body, ln, m);
    if Has(ln, "TRANSP") {
      ScanTranspLine(zones, st, ln);
    } else if Has(ln, "STATUS") {
      ScanStatusLine(zones, st, ln);
    } else {
      ScanOtherLine(zones, st, ln);
    }
  }

  lemma HeadsDiffer()
    ensures !EditName("BEGIN") && EditName("END") && "END" != "BEGIN"
    ensures forall h :: h in ["DURATION", "DTSTAMP", "LAST-MODIFIED", "SEQUENCE", "END", ""] ==>
              && h != "DTSTART" && h != "DTEND" && h != "TRANSP" && h != "STATUS" && h != "BEGIN"
    ensures forall h :: h in ["DTSTAMP", "LAST-MODIFIED", "SEQUENCE", "END", ""] ==> h != "DURATION"
    ensures forall h :: h in ["DTSTART", "DTEND", "DURATION", "DTSTAMP", "LAST-MODIFIED", "SEQUENCE", ""] ==>
              h != "END" && h != "BEGIN"
  {
    assert "DTSTAMP"[5] != "DTSTART"[5];
  }

  lemma WordsDiffer()
    ensures "DTEND" != "TRANSP" && "DTEND" != "STATUS" && "DTEND" != "DTSTART"
  {
  }

  /** One line of an open event: the editor's lines for it move what the reader holds. */
  lemma MovedLine(zones: Zones, st: Scan, body: seq<string>, ln: string, saw: bool, m: Move)
    requires HoldsMoved(st, body, m) && !Opens(ln) && !Closes(ln)
    ensures var next := ScanLines(zones, st, EditLine(ln, saw, m).0);
            HoldsMoved(next, body + [ln], m) && next.out == st.out
  {
    hide HoldsMoved, HeadOf, Has, ScanLine, ScanLines, Opens, Closes, EditLine, Line, EditName, Silences, Word;
    EditByHead(ln, saw, m);
    var kept, h := EditLine(ln, saw, m).0, HeadOf(ln);
    if ln != "" && h == "DTSTART" {
      StartMoves(zones, st, body, ln, m);
      ScanOne(zones, st, kept[0]);
    } else if ln != "" && h == "DTEND" {
      EndMoves(zones, st, body, ln, m);
      ScanOne(zones, st, kept[0]);
    } else if kept == [ln] && h != "DURATION" {
      ScanOne(zones, st, ln);
      HeadOfEmpty(ln);
      CopyMoves(zones, st, body, ln, m);
    } else {
      DroppedOrNumbered(zones, st, body, ln, saw, m);
    }
  }

  lemma HeadOfEmpty(ln: string)
    ensures ln == "" ==> HeadOf(ln) == ""
  {
  }

  /** The lines left: dropped, replaced by one the reader passes over, or an END behind a new SEQUENCE. */
  lemma DroppedOrNumbered(zones: Zones, st: Scan, body: seq<string>, ln: string, saw: bool, m: Move)
    requires HoldsMoved(st, body, m) && !Opens(ln) && !Closes(ln)
    requires ln == "" || (HeadOf(ln) != "DTSTART" && HeadOf(ln) != "DTEND")
    requires EditLine(ln, saw, m).0 != [ln] || HeadOf(ln) == "DURATION"
    ensures var next := ScanLines(zones, st, EditLine(ln, saw, m).0);
            HoldsMoved(next, body + [ln], m) && next.out == st.out
  {
    hide HoldsMoved, HeadOf, Has, ScanLine, ScanLines, Opens, Closes, EditLine, Line, Silences, Word;
    EditByHead(ln, saw, m);
    EditWords();
    HeadsDiffer();
    HeadOfEmpty(ln);
    var kept, h := EditLine(ln, saw, m).0, HeadOf(ln);
    QuietPlain(zones, st, "DTSTAMP", Utc(m.now));
    QuietPlain(zones, st, "LAST-MODIFIED", Utc(m.now));
    QuietPlain(zones, st, "SEQUENCE", Dec(SeqPlusOne(ln)));
    QuietPlain(zones, st, "SEQUENCE", "1");
    if |kept| == 2 {
      ScanTwo(zones, st, kept[0], kept[1]);
      CopyMoves(zones, st, body, ln, m);
    } else {
      ScanNone(zones, st);
      if kept != [] { ScanOne(zones, st, kept[0]); }
      assert Silences(ln) by { SilentHeads(ln); }
      SilentStep(zones, st, body, ln, kept, m);
    }
  }

  lemma SilentHeads(ln: string)
    requires HeadOf(ln) in ["DURATION", "DTSTAMP", "LAST-MODIFIED", "SEQUENCE", "END", ""]
    ensures Silences(ln)
  {
    hide HeadOf, Has;
    ReaderNames(ln);
    HeadsDiffer();
  }

  /** The event of a block after the edit. */
  function MovedEvent(body: seq<string>, m: Move): Event {
    Closed(MovedRaw(body, m), false)
  }

  /** The reader behind the edited form of the first n lines. */
  ghost predicate Follows(lines: seq<string>, n: nat, st: Scan, m: Move)
    requires n <= |lines|
  {
    match OpenAt(lines, n)
    case None => st.cur == None
    case Some(from) => HoldsMoved(st, lines[from + 1..n], m)
  }

  lemma OpeningMoves(zones: Zones, st: Scan, ln: string, saw: bool, m: Move)
    requires Opens(ln)
    ensures var next := ScanLines(zones, st, EditLine(ln, saw, m).0);
            HoldsMoved(next, [], m) && next.out == st.out
  {
    hide Has, HeadOf, ScanLine, ScanLines, EditLine, Line;
    ReaderNames(ln);
    HeadsDiffer();
    EditByHead(ln, saw, m);
    ScanOne(zones, st, ln);
    ScanOpens(zones, st, ln);
    NothingHeld(m);
  }

  lemma NothingHeld(m: Move)
    ensures MovedRaw([], m) == BLANK
    ensures forall zones: Zones :: Raw(zones, []) == BLANK && !DateIn(zones, [])
  {
  }

  lemma ClosingMoves(zones: Zones, st: Scan, ln: string, saw: bool, m: Move)
    requires Closes(ln)
    ensures var next := ScanLines(zones, st, EditLine(ln, saw, m).0);
            next.cur == None && next.out == st.out + if st.cur.Some? then [Closed(st.cur.value, st.startDate)] else []
  {
    hide Has, HeadOf, ScanLine, ScanLines, EditLine, Line, Closed, Word;
    ReaderNames(ln);
    HeadsDiffer();
    EditWords();
    EditByHead(ln, saw, m);
    QuietPlain(zones, st, "SEQUENCE", "1");
    ScanOne(zones, st, ln);
    ScanTwo(zones, st, Line("SEQUENCE", "1"), ln);
    ScanCloses(zones, st, ln);
  }

  lemma OutsideMoves(zones: Zones, st: Scan, ln: string, saw: bool, m: Move)
    requires st.cur == None && !Opens(ln) && !Closes(ln)
    ensures ScanLines(zones, st, EditLine(ln, saw, m).0) == st
  {
    hide Opens, Closes, HeadOf, ScanLine, ScanLines, EditLine, Line, Word;
    EditByHead(ln, saw, m);
    EditWords();
    HeadsDiffer();
    WrittenFrames("DTSTART", Utc(m.start));
    WrittenFrames("DTEND", Utc(m.end));
    WrittenFrames("DTSTAMP", Utc(m.now));
    WrittenFrames("LAST-MODIFIED", Utc(m.now));
    WrittenFrames("SEQUENCE", Dec(SeqPlusOne(ln)));
    WrittenFrames("SEQUENCE", "1");
    var kept := EditLine(ln, saw, m).0;
    forall l | l in kept ensures ScanLine(zones, st, l) == st {
      assert !Opens(l) && !Closes(l);
      ScanOutside(zones, st, l);
    }
    ScanInert(zones, st, kept);
  }

  lemma NextMoved(zones: Zones, lines: seq<string>, n: nat, st: Scan, saw: bool, m: Move)
    requires 0 < n <= |lines| && Follows(lines, n - 1, st, m)
    ensures var next := ScanLines(zones, st, EditLine(lines[n - 1], saw, m).0);
            && Follows(lines, n, next, m)
            && next.out == st.out + if Closes(lines[n - 1]) && OpenAt(lines, n - 1).Some? then
                 [MovedEvent(lines[OpenAt(lines, n - 1).value + 1..n - 1], m)] else []
  {
    hide Opens, Closes, ScanLines, EditLine, MovedRaw, Closed;
    var ln := lines[n - 1];
    OpensOrCloses(ln);
    if Opens(ln) {
      OpeningMoves(zones, st, ln, saw, m);
      assert lines[n..n] == [];
    } else if Closes(ln) {
      ClosingMoves(zones, st, ln, saw, m);
    } else if from: nat :| OpenAt(lines, n - 1) == Some(from) {
      MovedLine(zones, st, lines[from + 1..n - 1], ln, saw, m);
      assert lines[from + 1..n] == lines[from + 1..n - 1] + [ln];
    } else {
      OutsideMoves(zones, st, ln, saw, m);
    }
  }

  lemma {:induction false} ScannedMoved(zones: Zones, lines: seq<string>, n: nat, m: Move)
    requires n <= |lines|
    ensures var st := ScanLines(zones, START, Edit(lines[..n], false, m));
            && Follows(lines, n, st, m) && |st.out| == |Blocks(lines, n)|
            && forall i :: 0 <= i < |st.out| ==>
                 IsBlock(lines, Blocks(lines, n)[i]) && st.out[i] == MovedEvent(Body(lines, Blocks(lines, n)[i]), m)
  {
    hide ScanLines, Edit, EditLine, SawAfter, Opens, Closes, IsBlock, Follows, OpenAt, MovedEvent;
    if n > 0 {
      ScannedMoved(zones, lines, n - 1, m);
      BlocksExact(lines, n);
      OneMoreBlock(lines, n);
      hide Blocks;
      var front, ln := lines[..n - 1], lines[n - 1];
      assert lines[..n] == front + [ln];
      EditOneMore(front, ln, m);
      var st, saw := ScanLines(zones, START, Edit(front, false, m)), SawAfter(front, false, m);
      ScanConcat(zones, START, Edit(front, false, m), EditLine(ln, saw, m).0);
      NextMoved(zones, lines, n, st, saw, m);
      assert forall b :: b in Blocks(lines, n) ==> IsBlock(lines, b);
    } else {
      NothingMoved(zones, lines, m);
    }
  }

  lemma NothingMoved(zones: Zones, lines: seq<string>, m: Move)
    ensures ScanLines(zones, START, Edit(lines[..0], false, m)) == START && Follows(lines, 0, START, m)
  {
    assert lines[..0] == [];
    ScanNone(zones, START);
  }

  /** One moved event per block, in order. */
  ghost predicate MovedFrom(lines: seq<string>, blocks: seq<Block>, events: seq<Event>, m: Move) {
    && |events| == |blocks|
    && forall i :: 0 <= i < |blocks| ==> IsBlock(lines, blocks[i]) && events[i] == MovedEvent(Body(lines, blocks[i]), m)
  }

  /** After an edit the object has the same blocks, and each is read as its moved event. */
  lemma EditedEvents(zones: Zones, data: string, m: Move)
    requires WellFolded(RawLines(data))
    ensures exists blocks: seq<Block> ::
              InOrder(Unfolded(data), blocks) && MovedFrom(Unfolded(data), blocks, Events(zones, Rewritten(data, m)), m)
  {
    hide WellFolded, ScanLines, Edit, IsBlock, MovedEvent, Unfolded, Blocks, OpenAt, Follows, Rewritten, RawLines;
    var lines := Unfolded(data);
    RewrittenUnfolds(data, m);
    assert lines[..|lines|] == lines;
    ScannedMoved(zones, lines, |lines|, m);
    BlocksExact(lines, |lines|);
    BlocksInOrder(lines, |lines|);
    BlocksFit(lines);
    assert InOrder(lines, Blocks(lines, |lines|));
    assert MovedFrom(lines, Blocks(lines, |lines|), Events(zones, Rewritten(data, m)), m);
  }

  /** The property has a line of its own in the block. */
  ghost predicate HasLine(body: seq<string>, head: string) {
    exists i :: 0 <= i < |body| && PropName(Upper(body[i])) == head
  }

  /**
   What a move does to the event of a block: it stays transparent or cancelled as it was; it starts at the new time
   if and only if the block has a DTSTART line; and then it ends at the new end if and only if the block has
   a DTEND line, and at its start otherwise, whatever DURATION it had.
   */
  lemma MoveArrives(zones: Zones, body: seq<string>, m: Move)
    requires Second(m.start) != ZERO && Second(m.end) != ZERO
    ensures var e, was := MovedEvent(body, m), Read(zones, body);
            && e.transparent == was.transparent && e.cancelled == was.cancelled
            && (e.start == Instant(m.start.(nanos := 0)) <==> HasLine(body, "DTSTART"))
            && (HasLine(body, "DTSTART") ==>
                  e.end == Instant((if HasLine(body, "DTEND") then m.end else m.start).(nanos := 0)))
  {
    hide LastGiven, StartIn, EndIn, HeadOf, Instant;
    assert HasHead(body, "DTSTART") <==> HasLine(body, "DTSTART") by { SameHeads(body, "DTSTART"); }
    assert HasHead(body, "DTEND") <==> HasLine(body, "DTEND") by { SameHeads(body, "DTEND"); }
  }

  lemma SameHeads(body: seq<string>, head: string)
    ensures HasHead(body, head) <==> HasLine(body, head)
  {
  }

  // ---------- two objects that are not moved whole ----------

  const NINE: Time := Stamp(2026, 6, 15, 9, 0, 0, 0)

  /** One hour from nine, given by its duration. */
  const HOUR_LONG: seq<string> :=
    [Line("BEGIN", "VEVENT"), Line("DTSTART", Utc(NINE)), Line("DURATION", "PT1H"), Line("END", "VEVENT")]

  lemma FrameReads()
    ensures Opens(Line("BEGIN", "VEVENT")) && Closes(Line("END", "VEVENT"))
  {
    FrameWords();
    SplitPlainLine("BEGIN", "VEVENT");
    SplitPlainLine("END", "VEVENT");
    hide Line, SplitLine;
  }

  lemma ShortWords()
    ensures Word("DTSTART") && Word("DURATION") && Word("TRANSP") && Word("SEQUENCE")
  {
  }

  lemma OneHour()
    ensures ParseDuration("PT1H") == Some(3_600_000_000_000)
  {
    NothingToTrim("PT1H");
    var v := "PT1H";
    assert v[1..] == "T1H" && "T1H"[1..] == "1H" && "1H"[1..] == "H" && "H"[1..] == "";
    assert "" + ['1'] == "1";
    assert "1"[1..] == "" && ReadInt("1", 0) == 1;
  }

  /** An object of plain lines, none of them a continuation. */
  lemma PlainObject(lines: seq<string>)
    requires forall l :: l in lines ==> Begins(l) && '\n' !in l
    ensures RawLines(Flat(lines)) == lines + [""] && WellFolded(lines + [""]) && Unfolded(Flat(lines)) == lines
  {
    hide RawLines, Flat;
    RawLinesOfFlat(lines);
    JoinNew([], lines);
    JoinedOneMore(lines, "");
    assert [] + lines == lines;
    var raw := lines + [""];
    forall i | 0 <= i < |raw| ensures !IsContinuation(raw[i]) {
      if i < |lines| { assert raw[i] == lines[i] && Begins(lines[i]); }
    }
  }

  lemma HourLines()
    ensures forall l :: l in HOUR_LONG ==> Begins(l) && '\n' !in l
  {
    UtcIsPlain(NINE);
    hide Utc;
  }

  /** Before the move the event takes its hour. */
  lemma HourReads(zones: Zones)
    ensures Events(zones, Flat(HOUR_LONG)) == [Event(Instant(NINE), Instant(NINE) + 3_600_000_000_000, false, false)]
  {
    hide *;
    HourLines();
    PlainObject(HOUR_LONG);
    HourScans(zones);
    ScansAre(zones, Flat(HOUR_LONG), HOUR_LONG);
  }

  lemma ScansAre(zones: Zones, data: string, lines: seq<string>)
    requires Unfolded(data) == lines
    ensures Events(zones, data) == ScanLines(zones, START, lines).out
  {
    hide Unfolded, ScanLines;
  }

  lemma HourScans(zones: Zones)
    ensures ScanLines(zones, START, HOUR_LONG).out ==
            [Event(Instant(NINE), Instant(NINE) + 3_600_000_000_000, false, false)]
  {
    hide Utc, Instant, ScanLine, ScanLines, Word, Line, ParseDuration, Opens, Closes, SplitLine, Has, Raw, DateIn;
    FrameReads();
    NothingHeld(Move(NINE, NINE, NINE));
    FourScans(zones, HOUR_LONG);
    ScanOpens(zones, START, HOUR_LONG[0]);
    ScanStart(zones, Scan(Some(BLANK), false, []), NINE);
    HourFromNine(zones);
    var timed := Event(Instant(NINE), Instant(NINE) + 3_600_000_000_000, false, false);
    ScanCloses(zones, Scan(Some(timed), false, []), HOUR_LONG[3]);
    NineIsNotZero();
  }

  lemma HourFromNine(zones: Zones)
    ensures var started := Scan(Some(BLANK.(start := Instant(ToSecond(NINE)))), false, []);
            && ToSecond(NINE) == NINE
            && ScanLine(zones, started, HOUR_LONG[2]) ==
               started.(cur := Some(Event(Instant(NINE), Instant(NINE) + 3_600_000_000_000, false, false)))
  {
    hide Utc, Instant, ScanLine, Line, ParseDuration, SplitLine, Word, Has;
    ShortWords();
    OneHour();
    NineIsNotZero();
    SplitPlainLine("DURATION", "PT1H");
    HasItsName("DURATION", "PT1H");
    var started := Scan(Some(BLANK.(start := Instant(ToSecond(NINE)))), false, []);
    ScanDurationLine(zones, started, HOUR_LONG[2]);
  }

  lemma HasItsName(w: string, x: string)
    requires Word(w)
    ensures Has(Line(w, x), w)
  {
    NameOfLine(w, x);
  }

  lemma NineIsNotZero()
    ensures Instant(NINE) > ZERO
  {
    var zero: Time := Stamp(1, 1, 1, 0, 0, 0, 0);
    ZeroIsOneInstant(zero);
    SecondsFollowFields(zero, NINE);
  }

  lemma FourScans(zones: Zones, l: seq<string>)
    requires |l| == 4
    ensures ScanLines(zones, START, l) ==
            ScanLine(zones, ScanLine(zones, ScanLine(zones, ScanLine(zones, START, l[0]), l[1]), l[2]), l[3])
  {
    hide ScanLine;
    assert l == [l[0], l[1]] + [l[2], l[3]];
    ScanConcat(zones, START, [l[0], l[1]], [l[2], l[3]]);
    ScanTwo(zones, START, l[0], l[1]);
    ScanTwo(zones, ScanLines(zones, START, [l[0], l[1]]), l[2], l[3]);
  }

  lemma HourBlock()
    ensures forall b :: IsBlock(HOUR_LONG, b) <==> b == Block(0, 3)
  {
    hide Opens, Closes, Line, Utc;
    FrameReads();
    OpensOrCloses(HOUR_LONG[0]);
    OpensOrCloses(HOUR_LONG[3]);
    ShortWords();
    hide Word;
    WrittenFrames("DTSTART", Utc(NINE));
    WrittenFrames("DURATION", "PT1H");
  }

  lemma HeadOfLine(w: string, x: string)
    requires Word(w)
    ensures HeadOf(Line(w, x)) == w
  {
    PropNameOf(w, ":" + x);
  }

  lemma HourMoves(m: Move)
    ensures MovedRaw([HOUR_LONG[1], HOUR_LONG[2]], m) == BLANK.(start := Second(m.start))
  {
    hide MovedRaw, HeadOf, Has, Line, Utc, Second, Word, Says;
    ShortWords();
    HeadOfLine("DTSTART", Utc(NINE));
    HeadOfLine("DURATION", "PT1H");
    DifferentNames();
    ReaderNames(HOUR_LONG[1]);
    ReaderNames(HOUR_LONG[2]);
    WordsApart();
    NothingSaid(HOUR_LONG[1]);
    NothingSaid(HOUR_LONG[2]);
    NothingHeld(m);
    OneMoreMoved([], HOUR_LONG[1], m);
    OneMoreMoved([HOUR_LONG[1]], HOUR_LONG[2], m);
    assert [] + [HOUR_LONG[1]] == [HOUR_LONG[1]];
    assert [HOUR_LONG[1]] + [HOUR_LONG[2]] == [HOUR_LONG[1], HOUR_LONG[2]];
  }

  lemma WordsApart()
    ensures "DURATION" != "TRANSP" && "DURATION" != "STATUS"
  {
  }

  /** Moved anywhere, the event keeps its start alone: the editor drops the duration and writes no end. */
  lemma DurationIsLost(zones: Zones, m: Move)
    requires Second(m.start) != ZERO
    ensures Events(zones, Flat(HOUR_LONG)) == [Event(Instant(NINE), Instant(NINE) + 3_600_000_000_000, false, false)]
    ensures Events(zones, Rewritten(Flat(HOUR_LONG), m)) == [Event(Second(m.start), Second(m.start), false, false)]
  {
    HourReads(zones);
    hide Flat, Events, Rewritten, Unfolded, RawLines, Line, Utc, IsBlock, MovedRaw, Second, WellFolded;
    HourLines();
    PlainObject(HOUR_LONG);
    EditedEvents(zones, Flat(HOUR_LONG), m);
    HourBlock();
    HourMoves(m);
    var blocks: seq<Block> :| InOrder(HOUR_LONG, blocks) &&
      MovedFrom(HOUR_LONG, blocks, Events(zones, Rewritten(Flat(HOUR_LONG), m)), m);
    OnlyBlock(HOUR_LONG, blocks, Block(0, 3));
    assert Body(HOUR_LONG, Block(0, 3)) == [HOUR_LONG[1], HOUR_LONG[2]];
  }

  lemma OnlyBlock(lines: seq<string>, blocks: seq<Block>, b: Block)
    requires InOrder(lines, blocks) && forall c :: IsBlock(lines, c) <==> c == b
    ensures blocks == [b]
  {
    hide IsBlock;
    assert b in blocks && b.from < b.to by { BlocksFit(lines); }
    assert forall i :: 0 <= i < |blocks| ==> blocks[i] in blocks && blocks[i] == b;
    assert |blocks| >= 2 ==> blocks[0].to < blocks[1].from;
  }

  /** A start whose value stands on a continuation line. */
  const FOLDED: seq<string> :=
    [Line("BEGIN", "VEVENT"), "DTSTART;TZID=Europe/Berlin:", " 20260615T110000", Line("END", "VEVENT")]

  /** The new value with what is left of the old one behind it. */
  function Spoilt(t: Time): string {
    Utc(t) + "20260615T110000"
  }

  lemma SpoiltHasNoTime(zones: Zones, t: Time)
    ensures ParseICSTime(zones, map[], Spoilt(t)) == None
  {
    UtcReadsBack(t);
    var v := Spoilt(t);
    assert v[0] == Utc(t)[0] && v[30] == '0' && |v| == 31;
    hide Utc, ParseFraction, TrimSpace;
    NothingToTrim(v);
    NoFraction(v[15..]);
  }

  lemma NoFraction(r: string)
    ensures r != "" && r[0] == 'Z' ==> ParseFraction(r) == None
  {
  }

  lemma SpoiltIsPassed(zones: Zones, st: Scan, t: Time)
    requires st.cur.Some?
    ensures ScanLine(zones, st, Line("DTSTART", Spoilt(t))) == st
  {
    hide Spoilt, ParseICSTime, ScanLine, Word, Has;
    TimeWords();
    SplitPlainLine("DTSTART", Spoilt(t));
    HasItsName("DTSTART", Spoilt(t));
    SpoiltHasNoTime(zones, t);
    hide Line, SplitLine;
    ScanStartLine(zones, st, Line("DTSTART", Spoilt(t)));
  }

  lemma FoldedHeads()
    ensures HeadOf(FOLDED[0]) == "BEGIN" && HeadOf(FOLDED[1]) == "DTSTART" && HeadOf(FOLDED[3]) == "END"
    ensures FOLDED[0] != "" && FOLDED[3] != "" && Begins(FOLDED[0]) && Begins(FOLDED[3])
    ensures !EditName(HeadOf(FOLDED[0])) && !EditName(HeadOf(FOLDED[2])) && IsContinuation(FOLDED[2])
  {
    FrameWords();
    EditWords();
    HeadsDiffer();
    assert FOLDED[1] == "DTSTART" + ";TZID=Europe/Berlin:";
    PropNameOf("DTSTART", ";TZID=Europe/Berlin:");
    hide Word, EditName, PropName;
    HeadOfLine("BEGIN", "VEVENT");
    HeadOfLine("END", "VEVENT");
    ContinuationIsUnnamed(FOLDED[2]);
  }

  lemma FoldedTexts()
    ensures forall l :: l in FOLDED ==> '\n' !in l
  {
  }

  /** What the edited lines join to, up to the end of the event. */
  lemma FoldedJoins(m: Move) returns (saw: bool)
    ensures Joined([], Edit(FOLDED + [""], false, m)) ==
            [FOLDED[0], Line("DTSTART", Spoilt(m.start))] + EditLine(FOLDED[3], saw, m).0
  {
    hide Edit, EditLine, Joined, HeadOf, EditName, Line, Utc, SawAfter;
    FoldedHeads();
    NothingEdited(m);
    var a, b, c, d := FOLDED[0], FOLDED[1], FOLDED[2], FOLDED[3];
    var begin := Line("DTSTART", Utc(m.start));
    EditOneMore([], a, m);
    UnnamedIsKept(a, SawAfter([], false, m), m);
    EditOneMore([a], b, m);
    EditByHead(b, SawAfter([a], false, m), m);
    EditOneMore([a, b], c, m);
    UnnamedIsKept(c, SawAfter([a, b], false, m), m);
    EditOneMore([a, b, c], d, m);
    saw := SawAfter([a, b, c], false, m);
    EditedBegins(d, saw, m);
    EditOneMore([a, b, c, d], "", m);
    EmptyEdited(SawAfter([a, b, c, d], false, m), m);
    assert [] + [a] == [a] && [a] + [b] == [a, b] && [a, b] + [c] == [a, b, c] && [a, b, c] + [d] == [a, b, c, d];
    assert FOLDED + [""] == [a, b, c, d] + [""];
    var kept := EditLine(d, saw, m).0;
    assert Edit(FOLDED + [""], false, m) == [a] + [begin] + [c] + kept + [] == [a, begin, c] + kept;
    FoldedLine(a, begin, c, kept, m);
  }

  lemma FoldedLine(a: string, begin: string, c: string, kept: seq<string>, m: Move)
    requires Begins(a) && begin == Line("DTSTART", Utc(m.start)) && c == FOLDED[2]
    requires forall l :: l in kept ==> Begins(l)
    ensures Joined([], [a, begin, c] + kept) == [a, Line("DTSTART", Spoilt(m.start))] + kept
  {
    hide Joined, Utc;
    var spoilt := Line("DTSTART", Spoilt(m.start));
    assert begin + c[1..] == spoilt && Begins(begin) && IsContinuation(c);
    hide Line, Spoilt, IsContinuation;
    JoinNew([], [a, begin]);
    assert [] + [a, begin] == [a, begin] && [a, begin] + [c] == [a, begin, c];
    JoinedOneMore([a, begin], c);
    assert JoinOne([a, begin], c) == [a, spoilt];
    JoinedConcat([], [a, begin, c], kept);
    JoinNew([a, spoilt], kept);
  }

  /** Moved anywhere, an event with such a start is left without one: the reader cannot make out the new value. */
  lemma FoldedStartIsLost(zones: Zones, m: Move)
    ensures Events(zones, Rewritten(Flat(FOLDED), m)) == [BLANK]
  {
    hide Flat, Rewritten, Unfolded, RawLines, Line, Edit, EditLine, Joined, ScanLine, ScanLines, Opens, Closes, Raw;
    FoldedTexts();
    RawLinesOfFlat(FOLDED);
    RewrittenJoins(Flat(FOLDED), m);
    var saw := FoldedJoins(m);
    FrameReads();
    var open := Scan(Some(BLANK), false, []);
    var read, last := [FOLDED[0], Line("DTSTART", Spoilt(m.start))], EditLine(FOLDED[3], saw, m).0;
    NothingHeld(m);
    ScanOpens(zones, START, FOLDED[0]);
    SpoiltIsPassed(zones, open, m.start);
    ScanTwo(zones, START, read[0], read[1]);
    ClosingMoves(zones, open, FOLDED[3], saw, m);
    ScanConcat(zones, START, read, last);
  }
}
