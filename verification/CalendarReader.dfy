/**
 What the reader makes of any calendar object: which of its lines form events, what each event takes from
 which line, and which times it then blocks.
 */
module CalendarReader {
  import opened CalendarObjects
  import opened CalendarRoundTrip
  import opened ContentLines
  import opened Options
  import opened Timestamps

  // ---------- the lines of an event ----------

  predicate Has(ln: string, name: string) {
    Upper(SplitLine(ln).name) == name
  }

  predicate Opens(ln: string) {
    Has(ln, "BEGIN") && EqualFold(SplitLine(ln).value, "VEVENT")
  }

  predicate Closes(ln: string) {
    Has(ln, "END") && EqualFold(SplitLine(ln).value, "VEVENT")
  }

  /** The lines strictly between an opening and the closing next to it. */
  datatype Block = Block(from: nat, to: nat)

  predicate IsBlock(lines: seq<string>, b: Block) {
    && b.from < b.to < |lines| && Opens(lines[b.from]) && Closes(lines[b.to])
    && forall j :: b.from < j < b.to ==> !Opens(lines[j]) && !Closes(lines[j])
  }

  function Body(lines: seq<string>, b: Block): seq<string>
    requires b.from < b.to <= |lines|
  {
    lines[b.from + 1..b.to]
  }

  /** The opening line in force before line n. */
  function OpenAt(lines: seq<string>, n: nat): (from: Option<nat>)
    requires n <= |lines|
    ensures from.Some? ==> from.value < n && Opens(lines[from.value])
    ensures from.Some? ==> forall j :: from.value < j < n ==> !Opens(lines[j]) && !Closes(lines[j])
  {
    if n == 0 then None
    else if Opens(lines[n - 1]) then Some(n - 1)
    else if Closes(lines[n - 1]) then None
    else OpenAt(lines, n - 1)
  }

  lemma {:induction false} OpenAtExact(lines: seq<string>, n: nat, from: nat)
    requires from < n <= |lines| && Opens(lines[from])
    requires forall j :: from < j < n ==> !Opens(lines[j]) && !Closes(lines[j])
    ensures OpenAt(lines, n) == Some(from)
  {
    hide Opens, Closes;
    if from < n - 1 { OpenAtExact(lines, n - 1, from); }
  }

  /** The blocks closed before line n, in order. */
  function Blocks(lines: seq<string>, n: nat): seq<Block>
    requires n <= |lines|
  {
    if n == 0 then []
    else
      var open := OpenAt(lines, n - 1);
      Blocks(lines, n - 1) + if Closes(lines[n - 1]) && open.Some? then [Block(open.value, n - 1)] else []
  }

  /** Nothing but blocks, and none missing. */
  lemma {:induction false} BlocksExact(lines: seq<string>, n: nat)
    requires n <= |lines|
    ensures forall b :: b in Blocks(lines, n) <==> IsBlock(lines, b) && b.to < n
  {
    hide Opens, Closes;
    if n > 0 {
      BlocksExact(lines, n - 1);
      hide Blocks;
      OneMoreBlock(lines, n);
      forall b | b in Blocks(lines, n) ensures IsBlock(lines, b) && b.to < n {
        if b !in Blocks(lines, n - 1) { assert IsBlock(lines, b); }
      }
      forall b | IsBlock(lines, b) && b.to < n ensures b in Blocks(lines, n) {
        if b.to == n - 1 { OpenAtExact(lines, n - 1, b.from); }
      }
    }
  }

  lemma OneMoreBlock(lines: seq<string>, n: nat)
    requires 0 < n <= |lines|
    ensures var open := OpenAt(lines, n - 1);
            Blocks(lines, n) ==
            Blocks(lines, n - 1) + if Closes(lines[n - 1]) && open.Some? then [Block(open.value, n - 1)] else []
  {
    hide Opens, Closes, OpenAt;
  }

  /** Each block lies after the ones before it. */
  lemma {:induction false} BlocksInOrder(lines: seq<string>, n: nat)
    requires n <= |lines|
    ensures forall i, j :: 0 <= i < j < |Blocks(lines, n)| ==> Blocks(lines, n)[i].to < Blocks(lines, n)[j].from
  {
    hide Opens, Closes, IsBlock;
    if n > 0 {
      BlocksInOrder(lines, n - 1);
      BlocksExact(lines, n - 1);
      hide Blocks;
      OneMoreBlock(lines, n);
      var before, open := Blocks(lines, n - 1), OpenAt(lines, n - 1);
      if open.Some? {
        forall i | 0 <= i < |before| ensures before[i].to < open.value {
          assert before[i] in before;
          ClosedBefore(lines, n - 1, before[i]);
        }
      }
    }
  }

  lemma ClosedBefore(lines: seq<string>, n: nat, b: Block)
    requires n <= |lines| && IsBlock(lines, b) && b.to < n && OpenAt(lines, n).Some?
    ensures b.to < OpenAt(lines, n).value
  {
    hide Opens, Closes;
    OpensOrCloses(lines[b.to]);
  }

  lemma OpensOrCloses(ln: string)
    ensures !(Opens(ln) && Closes(ln))
  {
    assert "BEGIN"[0] != "END"[0];
  }

  // ---------- what a body says ----------

  /** What the last of the lines that give something gives. */
  function LastGiven<T>(body: seq<string>, given: string -> Option<T>): Option<T> {
    if body == [] then None
    else
      var x := given(body[|body| - 1]);
      if x.Some? then x else LastGiven(body[..|body| - 1], given)
  }

  /** Whether a line of this name holds the word. */
  function Says(name: string, word: string): string -> Option<bool> {
    ln => if Has(ln, name) then Some(EqualFold(TrimSpace(SplitLine(ln).value), word)) else None
  }

  function TimeOf(zones: Zones, ln: string): Option<Parsed> {
    ParseICSTime(zones, SplitLine(ln).params, SplitLine(ln).value)
  }

  function StartGiven(zones: Zones): string -> Option<Parsed> {
    ln => if Has(ln, "DTSTART") then TimeOf(zones, ln) else None
  }

  function StartIn(zones: Zones, body: seq<string>): Option<Parsed> {
    LastGiven(body, StartGiven(zones))
  }

  /** The end a line gives after these lines: its time, or its duration after a start. */
  function EndGiven(zones: Zones, before: seq<string>, ln: string): Option<int> {
    if Has(ln, "DTEND") then
      var t := TimeOf(zones, ln);
      if t.Some? then Some(t.value.at) else None
    else if Has(ln, "DURATION") then
      var d, s := ParseDuration(SplitLine(ln).value), StartIn(zones, before);
      if d.Some? && s.Some? && s.value.at != ZERO then Some(s.value.at + d.value) else None
    else None
  }

  function EndIn(zones: Zones, body: seq<string>): Option<int> {
    if body == [] then None
    else
      var front := body[..|body| - 1];
      var x := EndGiven(zones, front, body[|body| - 1]);
      if x.Some? then x else EndIn(zones, front)
  }

  /** The event under construction after these lines. */
  function Raw(zones: Zones, body: seq<string>): Event {
    var s, end := StartIn(zones, body), EndIn(zones, body);
    Event(
      if s.Some? then s.value.at else ZERO, if end.Some? then end.value else ZERO,
      LastGiven(body, Says("TRANSP", "TRANSPARENT")) == Some(true),
      LastGiven(body, Says("STATUS", "CANCELLED")) == Some(true))
  }

  function DateIn(zones: Zones, body: seq<string>): bool {
    StartIn(zones, body).Some? && StartIn(zones, body).value.isDate
  }

  const DAY: int := 24 * 3_600_000_000_000

  /** The event of a block. */
  function Read(zones: Zones, body: seq<string>): Event {
    var e := Raw(zones, body);
    if e.end == ZERO && e.start != ZERO then e.(end := e.start + if DateIn(zones, body) then DAY else 0) else e
  }

  lemma OneMoreGiven<T>(body: seq<string>, ln: string, given: string -> Option<T>)
    ensures LastGiven(body + [ln], given) == if given(ln).Some? then given(ln) else LastGiven(body, given)
  {
    assert (body + [ln])[..|body|] == body;
  }

  lemma OneMoreEnd(zones: Zones, body: seq<string>, ln: string)
    ensures EndIn(zones, body + [ln]) ==
            if EndGiven(zones, body, ln).Some? then EndGiven(zones, body, ln) else EndIn(zones, body)
  {
    assert (body + [ln])[..|body|] == body;
  }

  /** Having read these lines of an open event, the reader holds what they say. */
  ghost predicate Holds(zones: Zones, st: Scan, body: seq<string>) {
    st.cur == Some(Raw(zones, body)) && st.startDate == DateIn(zones, body)
  }

  lemma OneMoreLine(zones: Zones, st: Scan, body: seq<string>, ln: string)
    requires Holds(zones, st, body) && !Opens(ln) && !Closes(ln)
    ensures Holds(zones, ScanLine(zones, st, ln), body + [ln]) && ScanLine(zones, st, ln).out == st.out
  {
    hide LastGiven, EndIn, TimeOf, ParseDuration, SplitLine, TrimSpace, EqualFold, Has, ScanLine, Opens, Closes;
    OneMoreGiven(body, ln, Says("TRANSP", "TRANSPARENT"));
    OneMoreGiven(body, ln, Says("STATUS", "CANCELLED"));
    OneMoreGiven(body, ln, StartGiven(zones));
    OneMoreEnd(zones, body, ln);
    OneName(ln);
    if Has(ln, "DTSTART") {
      ScanStartLine(zones, st, ln);
    } else if Has(ln, "DTEND") {
      ScanEndLine(zones, st, ln);
    } else if Has(ln, "DURATION") {
      ScanDurationLine(zones, st, ln);
    } else if Has(ln, "TRANSP") {
      ScanTranspLine(zones, st, ln);
    } else if Has(ln, "STATUS") {
      ScanStatusLine(zones, st, ln);
    } else {
      ScanOtherLine(zones, st, ln);
    }
  }

  lemma OneName(ln: string)
    ensures Has(ln, "DTSTART") ==> !Has(ln, "DTEND") && !Has(ln, "DURATION") && !Has(ln, "TRANSP") && !Has(ln, "STATUS")
    ensures Has(ln, "DTEND") ==> !Has(ln, "DURATION") && !Has(ln, "TRANSP") && !Has(ln, "STATUS")
    ensures Has(ln, "DURATION") ==> !Has(ln, "TRANSP") && !Has(ln, "STATUS")
    ensures Has(ln, "TRANSP") ==> !Has(ln, "STATUS")
  {
    hide SplitLine, Upper;
    DifferentNames();
  }

  lemma ScanStartLine(zones: Zones, st: Scan, ln: string)
    requires st.cur.Some? && Has(ln, "DTSTART")
    ensures var t := TimeOf(zones, ln);
            ScanLine(zones, st, ln) ==
            if t.None? then st else st.(cur := Some(st.cur.value.(start := t.value.at)), startDate := t.value.isDate)
  {
    hide SplitLine, ParseICSTime, ParseDuration, TrimSpace, EqualFold, Upper;
  }

  lemma ScanEndLine(zones: Zones, st: Scan, ln: string)
    requires st.cur.Some? && Has(ln, "DTEND")
    ensures var t := TimeOf(zones, ln);
            ScanLine(zones, st, ln) ==
            if t.None? then st else st.(cur := Some(st.cur.value.(end := t.value.at)))
  {
    hide SplitLine, ParseICSTime, ParseDuration, TrimSpace, EqualFold, Upper;
  }

  lemma ScanDurationLine(zones: Zones, st: Scan, ln: string)
    requires st.cur.Some? && Has(ln, "DURATION")
    ensures var d, e := ParseDuration(SplitLine(ln).value), st.cur.value;
            ScanLine(zones, st, ln) ==
            if d.None? || e.start == ZERO then st else st.(cur := Some(e.(end := e.start + d.value)))
  {
    hide SplitLine, ParseICSTime, ParseDuration, TrimSpace, EqualFold, Upper;
  }

  lemma ScanTranspLine(zones: Zones, st: Scan, ln: string)
    requires st.cur.Some? && Has(ln, "TRANSP")
    ensures ScanLine(zones, st, ln) ==
            st.(cur := Some(st.cur.value.(transparent := EqualFold(TrimSpace(SplitLine(ln).value), "TRANSPARENT"))))
  {
    hide SplitLine, ParseICSTime, ParseDuration, TrimSpace, EqualFold, Upper;
  }

  lemma ScanStatusLine(zones: Zones, st: Scan, ln: string)
    requires st.cur.Some? && Has(ln, "STATUS")
    ensures ScanLine(zones, st, ln) ==
            st.(cur := Some(st.cur.value.(cancelled := EqualFold(TrimSpace(SplitLine(ln).value), "CANCELLED"))))
  {
    hide SplitLine, ParseICSTime, ParseDuration, TrimSpace, EqualFold, Upper;
  }

  lemma ScanOtherLine(zones: Zones, st: Scan, ln: string)
    requires !Opens(ln) && !Closes(ln) && !Has(ln, "DTSTART") && !Has(ln, "DTEND") && !Has(ln, "DURATION")
    requires !Has(ln, "TRANSP") && !Has(ln, "STATUS")
    ensures ScanLine(zones, st, ln) == st
  {
    hide SplitLine, ParseICSTime, ParseDuration, TrimSpace, EqualFold, Upper;
  }

  lemma DifferentNames()
    ensures "TRANSP" != "STATUS" && "TRANSP" != "DTSTART" && "STATUS" != "DTSTART"
    ensures "DTEND" != "DTSTART" && "DURATION" != "DTSTART" && "DURATION" != "DTEND"
  {
    assert "TRANSP"[0] == 'T' && "STATUS"[0] == 'S' && "DTSTART"[2] == 'S' && "DTEND"[2] == 'E' && "DURATION"[1] == 'U';
  }

  /** The reader after n lines: the closed blocks are out, and an open one is held. */
  lemma {:induction false} ScannedSoFar(zones: Zones, lines: seq<string>, n: nat)
    requires n <= |lines|
    ensures var st := ScanLines(zones, START, lines[..n]);
            && |st.out| == |Blocks(lines, n)|
            && (forall i :: 0 <= i < |st.out| ==>
                  IsBlock(lines, Blocks(lines, n)[i]) && st.out[i] == Read(zones, Body(lines, Blocks(lines, n)[i])))
            && match OpenAt(lines, n)
               case None => st.cur == None
               case Some(from) => Holds(zones, st, lines[from + 1..n])
  {
    hide ScanLines, ScanLine, Read, Opens, Closes, IsBlock, Holds, OpenAt;
    if n > 0 {
      ScannedSoFar(zones, lines, n - 1);
      BlocksExact(lines, n);
      OneMoreBlock(lines, n);
      hide Blocks;
      var ln := lines[n - 1];
      assert lines[..n] == lines[..n - 1] + [ln];
      ScanConcat(zones, START, lines[..n - 1], [ln]);
      var st := ScanLines(zones, START, lines[..n - 1]);
      ScanOne(zones, st, ln);
      NextState(zones, lines, n, st);
      assert forall b :: b in Blocks(lines, n) ==> IsBlock(lines, b);
    } else {
      NothingScanned(zones, lines);
    }
  }

  lemma NothingScanned(zones: Zones, lines: seq<string>)
    ensures ScanLines(zones, START, lines[..0]) == START && OpenAt(lines, 0) == None
  {
  }

  /** What one line does to the reader's state. */
  lemma NextState(zones: Zones, lines: seq<string>, n: nat, st: Scan)
    requires 0 < n <= |lines|
    requires match OpenAt(lines, n - 1)
             case None => st.cur == None
             case Some(from) => Holds(zones, st, lines[from + 1..n - 1])
    ensures var next := ScanLine(zones, st, lines[n - 1]);
            && (match OpenAt(lines, n)
                case None => next.cur == None
                case Some(from) => Holds(zones, next, lines[from + 1..n]))
            && next.out == st.out + if Closes(lines[n - 1]) && OpenAt(lines, n - 1).Some? then
                 [Read(zones, lines[OpenAt(lines, n - 1).value + 1..n - 1])] else []
  {
    hide ScanLine, Raw, DateIn, Opens, Closes, Read, Closed;
    var ln := lines[n - 1];
    var next := ScanLine(zones, st, ln);
    OpensOrCloses(ln);
    if Opens(ln) {
      ScanOpens(zones, st, ln);
      assert lines[n..n] == [];
    } else if Closes(ln) {
      ScanCloses(zones, st, ln);
      if from: nat :| OpenAt(lines, n - 1) == Some(from) {
        ReadIsClosed(zones, lines[from + 1..n - 1]);
      }
    } else if from: nat :| OpenAt(lines, n - 1) == Some(from) {
      OneMoreLine(zones, st, lines[from + 1..n - 1], ln);
      assert lines[from + 1..n] == lines[from + 1..n - 1] + [ln];
    } else {
      ScanOutside(zones, st, ln);
    }
  }

  lemma ReadIsClosed(zones: Zones, body: seq<string>)
    ensures Read(zones, body) == Closed(Raw(zones, body), DateIn(zones, body))
  {
    hide Raw, DateIn;
  }

  lemma ScanOpens(zones: Zones, st: Scan, ln: string)
    requires Opens(ln)
    ensures Holds(zones, ScanLine(zones, st, ln), []) && ScanLine(zones, st, ln).out == st.out
  {
  }

  lemma ScanCloses(zones: Zones, st: Scan, ln: string)
    requires Closes(ln)
    ensures ScanLine(zones, st, ln).cur == None
    ensures ScanLine(zones, st, ln).out ==
            st.out + if st.cur.Some? then [Closed(st.cur.value, st.startDate)] else []
  {
  }

  lemma ScanOutside(zones: Zones, st: Scan, ln: string)
    requires st.cur == None && !Opens(ln) && !Closes(ln)
    ensures ScanLine(zones, st, ln) == st
  {
  }

  lemma BlocksFit(lines: seq<string>)
    ensures forall b :: IsBlock(lines, b) ==> b.from < b.to < |lines|
  {
  }

  /** All the blocks of these lines, each after the ones before it. */
  ghost predicate InOrder(lines: seq<string>, blocks: seq<Block>) {
    && (forall b :: b in blocks <==> IsBlock(lines, b))
    && forall i, j :: 0 <= i < j < |blocks| ==> blocks[i].to < blocks[j].from
  }

  /** One event per block, in order. */
  ghost predicate ReadFrom(zones: Zones, lines: seq<string>, blocks: seq<Block>, events: seq<Event>) {
    && |events| == |blocks|
    && forall i :: 0 <= i < |blocks| ==>
         IsBlock(lines, blocks[i]) && events[i] == Read(zones, Body(lines, blocks[i]))
  }

  /** Every block of the unfolded object is read as one event, in order, and nothing else is. */
  lemma EventsAreBlocks(zones: Zones, data: string)
    ensures exists blocks: seq<Block> ::
              InOrder(Unfolded(data), blocks) && ReadFrom(zones, Unfolded(data), blocks, Events(zones, data))
  {
    hide ScanLines, IsBlock, Read, Unfolded, Blocks, OpenAt, Holds;
    var lines := Unfolded(data);
    assert lines[..|lines|] == lines;
    ScannedSoFar(zones, lines, |lines|);
    BlocksExact(lines, |lines|);
    BlocksInOrder(lines, |lines|);
    BlocksFit(lines);
    assert InOrder(lines, Blocks(lines, |lines|));
    assert ReadFrom(zones, lines, Blocks(lines, |lines|), Events(zones, data));
  }

  // ---------- which line counts ----------

  lemma {:induction false} LastGivenExact<T>(body: seq<string>, given: string -> Option<T>)
    ensures LastGiven(body, given) == None <==> forall i :: 0 <= i < |body| ==> given(body[i]) == None
    ensures LastGiven(body, given) != None ==>
              exists i :: 0 <= i < |body| && given(body[i]) == LastGiven(body, given) && Silent(body, i + 1, given)
    decreases |body|
  {
    if body != [] {
      var n := |body| - 1;
      var front := body[..n];
      LastGivenExact(front, given);
      assert forall i :: 0 <= i < n ==> front[i] == body[i];
      if given(body[n]) != None {
        assert Silent(body, n + 1, given);
      } else if LastGiven(front, given) != None {
        var i :| 0 <= i < n && given(front[i]) == LastGiven(front, given) && Silent(front, i + 1, given);
        assert Silent(body, i + 1, given);
        assert given(body[i]) == LastGiven(body, given);
      }
    }
  }

  /** No line from here on gives anything. */
  ghost predicate Silent<T>(body: seq<string>, from: nat, given: string -> Option<T>) {
    forall j :: from <= j < |body| ==> given(body[j]) == None
  }

  /** The last line of this name is at i. */
  predicate LastAt(body: seq<string>, i: nat, name: string) {
    i < |body| && Has(body[i], name) && forall j :: i < j < |body| ==> !Has(body[j], name)
  }

  /** The value of the property on the line, without surrounding blanks and in any case, is the word. */
  predicate ValueIs(ln: string, word: string) {
    EqualFold(TrimSpace(SplitLine(ln).value), word)
  }

  /** The line is a DTSTART that parses to this. */
  predicate GivesStart(zones: Zones, ln: string, t: Parsed) {
    Has(ln, "DTSTART") && ParseICSTime(zones, SplitLine(ln).params, SplitLine(ln).value) == Some(t)
  }

  predicate GivesNoStart(zones: Zones, ln: string) {
    Has(ln, "DTSTART") ==> ParseICSTime(zones, SplitLine(ln).params, SplitLine(ln).value) == None
  }

  /** The last DTSTART that parses gives this start; or there is none and start is the zero time. */
  ghost predicate StartsAt(zones: Zones, body: seq<string>, start: int, isDate: bool) {
    || (start == ZERO && !isDate && forall j :: 0 <= j < |body| ==> GivesNoStart(zones, body[j]))
    || exists i :: 0 <= i < |body| && GivesStart(zones, body[i], Parsed(start, isDate)) &&
         forall j :: i < j < |body| ==> GivesNoStart(zones, body[j])
  }

  /** Line i sets the end: a DTEND that parses, or a DURATION that does, after a start other than the zero time. */
  ghost predicate SetsEnd(zones: Zones, body: seq<string>, i: nat, end: int)
    requires i < |body|
  {
    var p := SplitLine(body[i]);
    || (Has(body[i], "DTEND") && exists t :: ParseICSTime(zones, p.params, p.value) == Some(t) && t.at == end)
    || (Has(body[i], "DURATION") && exists s :: Lasts(zones, body, i, s, end))
  }

  /** The start in force at line i, plus the duration on it. */
  ghost predicate Lasts(zones: Zones, body: seq<string>, i: nat, s: Parsed, end: int)
    requires i < |body|
  {
    && s.at != ZERO && StartsAt(zones, body[..i], s.at, s.isDate)
    && ParseDuration(SplitLine(body[i]).value) == Some(end - s.at)
  }

  /** The last line that sets an end sets this one; or none does and end is the zero time. */
  ghost predicate EndsAt(zones: Zones, body: seq<string>, end: int) {
    || (end == ZERO && forall j, x :: 0 <= j < |body| ==> !SetsEnd(zones, body, j, x))
    || exists i :: 0 <= i < |body| && SetsEnd(zones, body, i, end) &&
         forall j, x :: i < j < |body| ==> !SetsEnd(zones, body, j, x)
  }

  lemma StartInExact(zones: Zones, body: seq<string>)
    ensures forall start, isDate :: StartsAt(zones, body, start, isDate) <==>
              match StartIn(zones, body)
              case None => start == ZERO && !isDate
              case Some(t) => t == Parsed(start, isDate)
  {
    hide SplitLine, ParseICSTime, Has, LastGiven;
    var given := StartGiven(zones);
    LastGivenExact(body, given);
    StartGivenExact(zones);
    hide StartGiven, GivesStart, GivesNoStart;
    if t :| StartIn(zones, body) == Some(t) {
      var i :| 0 <= i < |body| && given(body[i]) == Some(t) && Silent(body, i + 1, given);
      assert GivesStart(zones, body[i], Parsed(t.at, t.isDate));
    }
  }

  lemma StartGivenExact(zones: Zones)
    ensures forall ln, t :: GivesStart(zones, ln, t) <==> StartGiven(zones)(ln) == Some(t)
    ensures forall ln :: GivesNoStart(zones, ln) <==> StartGiven(zones)(ln) == None
  {
    hide SplitLine, ParseICSTime, Has;
  }

  lemma EndGivenExact(zones: Zones, body: seq<string>, i: nat)
    requires i < |body|
    ensures forall end :: SetsEnd(zones, body, i, end) <==> EndGiven(zones, body[..i], body[i]) == Some(end)
  {
    hide SplitLine, ParseICSTime, ParseDuration, Has, StartsAt, StartIn;
    StartInExact(zones, body[..i]);
    OneName(body[i]);
    var p, s := SplitLine(body[i]), StartIn(zones, body[..i]);
    if Has(body[i], "DURATION") {
      forall end ensures SetsEnd(zones, body, i, end) <==> EndGiven(zones, body[..i], body[i]) == Some(end) {
        if s.Some? && s.value.at != ZERO && ParseDuration(p.value) == Some(end - s.value.at) {
          assert Lasts(zones, body, i, s.value, end);
        }
      }
    }
  }

  lemma {:induction false} EndInExact(zones: Zones, body: seq<string>, n: nat)
    requires n <= |body|
    ensures match EndIn(zones, body[..n])
            case None => forall j, x :: 0 <= j < n ==> !SetsEnd(zones, body, j, x)
            case Some(end) =>
              exists i :: 0 <= i < n && SetsEnd(zones, body, i, end) &&
                forall j, x :: i < j < n ==> !SetsEnd(zones, body, j, x)
  {
    hide SetsEnd, EndGiven;
    if n > 0 {
      EndInExact(zones, body, n - 1);
      EndGivenExact(zones, body, n - 1);
      assert body[..n] == body[..n - 1] + [body[n - 1]];
      OneMoreEnd(zones, body[..n - 1], body[n - 1]);
      hide EndIn;
      var given := EndGiven(zones, body[..n - 1], body[n - 1]);
      if given.Some? {
        assert SetsEnd(zones, body, n - 1, given.value);
      }
    }
  }

  /** Whether the last line of this name holds the word. */
  lemma LastSays(body: seq<string>, name: string, word: string)
    ensures LastGiven(body, Says(name, word)) == Some(true) <==>
              exists i :: 0 <= i < |body| && LastAt(body, i, name) && ValueIs(body[i], word)
  {
    hide SplitLine, TrimSpace, EqualFold, Has, LastGiven, Says, ValueIs, LastAt;
    var given := Says(name, word);
    LastGivenExact(body, given);
    SaysExact(name, word);
    if i :| 0 <= i < |body| && LastAt(body, i, name) && ValueIs(body[i], word) {
      LastIsGiven(body, i, name);
      assert given(body[i]) == Some(true);
      var j :| 0 <= j < |body| && given(body[j]) == LastGiven(body, given) && Silent(body, j + 1, given);
      assert Has(body[j], name) && j == i;
    }
    if LastGiven(body, given) == Some(true) {
      var i :| 0 <= i < |body| && given(body[i]) == LastGiven(body, given) && Silent(body, i + 1, given);
      LastIsGiven(body, i, name);
      assert LastAt(body, i, name) && ValueIs(body[i], word);
    }
  }

  lemma LastIsGiven(body: seq<string>, i: nat, name: string)
    requires i < |body|
    ensures LastAt(body, i, name) <==> Has(body[i], name) && forall j :: i + 1 <= j < |body| ==> !Has(body[j], name)
  {
    hide Has;
  }

  lemma SaysExact(name: string, word: string)
    ensures forall ln :: Says(name, word)(ln) == None <==> !Has(ln, name)
    ensures forall ln :: Says(name, word)(ln) == Some(true) <==> Has(ln, name) && ValueIs(ln, word)
  {
    hide Has, SplitLine, TrimSpace, EqualFold;
  }

  /**
   What the event of a block is, on whatever lines it has: transparent if the last TRANSP says TRANSPARENT,
   cancelled if the last STATUS says CANCELLED, starting at the last DTSTART that parses, ending where the last
   DTEND or DURATION puts it, else a day after a date, else at its start.
   */
  lemma ReadExact(zones: Zones, body: seq<string>)
    ensures var e := Read(zones, body);
            && (e.transparent <==>
                  exists i :: 0 <= i < |body| && LastAt(body, i, "TRANSP") && ValueIs(body[i], "TRANSPARENT"))
            && (e.cancelled <==>
                  exists i :: 0 <= i < |body| && LastAt(body, i, "STATUS") && ValueIs(body[i], "CANCELLED"))
            && exists isDate, stated ::
                 && StartsAt(zones, body, e.start, isDate) && EndsAt(zones, body, stated)
                 && e.end == if stated != ZERO || e.start == ZERO then stated
                             else if isDate then e.start + 24 * 3_600_000_000_000
                             else e.start
  {
    hide SplitLine, TrimSpace, EqualFold, Has, LastGiven, EndIn, StartsAt, SetsEnd, LastAt, ValueIs, StartIn;
    LastSays(body, "TRANSP", "TRANSPARENT");
    LastSays(body, "STATUS", "CANCELLED");
    assert body[..|body|] == body;
    StartInExact(zones, body);
    EndInExact(zones, body, |body|);
    var e, end := Raw(zones, body), EndIn(zones, body);
    assert EndsAt(zones, body, e.end);
    assert StartsAt(zones, body, e.start, DateIn(zones, body));
  }

  // ---------- parameters and times ----------

  /** A parameter as written, with or without quotes around its value. */
  datatype Param = Param(key: string, value: string, quoted: bool) {
    /** Nothing in it ends the parameter early, and its value has no quotes of its own at the ends. */
    predicate Valid() {
      && ':' !in key && ';' !in key && '=' !in key && ':' !in value && ';' !in value
      && (value != "" ==> value[0] != '"' && value[|value| - 1] != '"')
    }

    function Text(): string {
      key + ("=" + if quoted then "\"" + (value + "\"") else value)
    }
  }

  /** The property name with its parameters. */
  function Head(name: string, params: seq<Param>): string {
    if params == [] then name
    else Head(name, params[..|params| - 1]) + ([';'] + params[|params| - 1].Text())
  }

  function Texts(params: seq<Param>): seq<string> {
    if params == [] then [] else Texts(params[..|params| - 1]) + [params[|params| - 1].Text()]
  }

  lemma {:induction false} SplitLast(a: string, c: char, b: string)
    requires c !in b
    ensures SplitOn(a + ([c] + b), c) == SplitOn(a, c) + [b]
  {
    var s := a + ([c] + b);
    if a == "" {
      assert s == [c] + b && s[1..] == b;
      NoSplit(b, c);
    } else {
      assert s[1..] == a[1..] + ([c] + b);
      SplitLast(a[1..], c, b);
    }
  }

  lemma TextHolds(p: Param, c: char)
    requires p.Valid() && c in ":;"
    ensures c !in p.Text()
  {
  }

  lemma {:induction false} HeadSplits(name: string, params: seq<Param>)
    requires ':' !in name && ';' !in name && forall p :: p in params ==> p.Valid()
    ensures SplitOn(Head(name, params), ';') == [name] + Texts(params) && ':' !in Head(name, params)
  {
    hide Param.Text, Param.Valid;
    if params == [] {
      NoSplit(name, ';');
    } else {
      var front, last := params[..|params| - 1], params[|params| - 1];
      HeadSplits(name, front);
      TextHolds(last, ';');
      TextHolds(last, ':');
      SplitLast(Head(name, front), ';', last.Text());
    }
  }

  lemma NoQuotes(v: string)
    requires v != "" ==> v[0] != '"' && v[|v| - 1] != '"'
    ensures TrimQuotes(v) == v && TrimQuotes("\"" + (v + "\"")) == v
  {
    var q := v + "\"";
    assert ("\"" + q)[1..] == q && q[..|q| - 1] == v && q[|q| - 1] == '"';
    assert TrimQuotes(v) == v;
    assert TrimQuotes(q) == v;
  }

  lemma ParamSplits(p: Param)
    requires p.Valid()
    ensures var t := p.Text();
            var eq := IndexOf(t, '=');
            eq < |t| && t[..eq] == p.key && TrimQuotes(t[eq + 1..]) == p.value
  {
    hide TrimQuotes;
    NoQuotes(p.value);
    var rest := if p.quoted then "\"" + (p.value + "\"") else p.value;
    var t := p.Text();
    var eq := IndexOf(t, '=');
    assert t == p.key + ("=" + rest) && t[|p.key|] == '=';
    assert forall k :: 0 <= k < |p.key| ==> t[k] == p.key[k];
    assert forall k :: 0 <= k < eq ==> t[..eq][k] == t[k];
    assert eq == |p.key|;
    assert t[eq + 1..] == rest;
  }

  /** Among the parameters of this name, the last one at i. */
  predicate LastParam(params: seq<Param>, i: nat, key: string) {
    i < |params| && Upper(params[i].key) == key && forall j :: i < j < |params| ==> Upper(params[j].key) != key
  }

  lemma {:induction false} ParamsExact(params: seq<Param>, key: string)
    requires forall p :: p in params ==> p.Valid()
    ensures var m := Params(Texts(params));
            && (key in m <==> exists i :: 0 <= i < |params| && LastParam(params, i, key))
            && forall i :: 0 <= i < |params| && LastParam(params, i, key) ==> key in m && m[key] == params[i].value
  {
    hide Param.Text, Param.Valid, Upper, TrimQuotes, IndexOf;
    if params != [] {
      var n := |params| - 1;
      var front, last := params[..n], params[n];
      ParamsExact(front, key);
      ParamSplits(last);
      OneMoreText(params);
      assert forall i :: 0 <= i < n ==> front[i] == params[i];
      if Upper(last.key) == key {
        assert LastParam(params, n, key);
      } else {
        assert forall i :: 0 <= i < n ==> (LastParam(params, i, key) <==> LastParam(front, i, key));
      }
    }
  }

  lemma OneMoreText(params: seq<Param>)
    requires params != []
    ensures var earlier, p := Params(Texts(params[..|params| - 1])), params[|params| - 1].Text();
            var eq := IndexOf(p, '=');
            Params(Texts(params)) == if eq < |p| then earlier[Upper(p[..eq]) := TrimQuotes(p[eq + 1..])] else earlier
  {
    hide Param.Text, Upper, TrimQuotes, IndexOf, Params;
    var front, last := params[..|params| - 1], params[|params| - 1].Text();
    assert Texts(params) == Texts(front) + [last];
    hide Texts;
    OneMorePart(Texts(front), last);
  }

  lemma OneMorePart(parts: seq<string>, p: string)
    ensures var earlier, eq := Params(parts), IndexOf(p, '=');
            Params(parts + [p]) == if eq < |p| then earlier[Upper(p[..eq]) := TrimQuotes(p[eq + 1..])] else earlier
  {
    hide Upper, TrimQuotes, IndexOf;
    assert (parts + [p])[..|parts|] == parts;
  }

  /**
   A line with any parameters, quoted or not, splits into its name, its value, and under each parameter name
   in either case the value last given.
   */
  lemma ParametersRead(name: string, params: seq<Param>, value: string, key: string)
    requires ':' !in name && ';' !in name && forall p :: p in params ==> p.Valid()
    ensures var p := SplitLine(Head(name, params) + (":" + value));
            && p.name == name && p.value == value
            && (key in p.params <==> exists i :: 0 <= i < |params| && LastParam(params, i, key))
            && forall i :: 0 <= i < |params| && LastParam(params, i, key) ==>
                 key in p.params && p.params[key] == params[i].value
  {
    hide Param.Valid, LastParam;
    HeadSplits(name, params);
    ParamsExact(params, key);
    var head := Head(name, params);
    var ln := head + (":" + value);
    ColonAfter(head, value);
    assert ln[..|head|] == head && ln[|head| + 1..] == value;
    assert ([name] + Texts(params))[1..] == Texts(params);
  }

  /** A date without a clock reading. */
  function DateText(t: Time): string {
    Pad(t.year, 4) + (Pad(t.month, 2) + Pad(t.day, 2))
  }

  function Midnight(t: Time): Time {
    t.(hour := 0, minute := 0, second := 0, nanos := 0)
  }

  /** A date-time without a zone of its own. */
  function LocalText(t: Time): string {
    Pad(t.year, 4) + Pad(t.month, 2) + Pad(t.day, 2) + "T" + Pad(t.hour, 2) + Pad(t.minute, 2) + Pad(t.second, 2)
  }

  /** The line asks for a date. */
  predicate AsksDate(params: map<string, string>) {
    "VALUE" in params && EqualFold(params["VALUE"], "DATE")
  }

  lemma FourDigits(n: nat)
    requires n < 10000
    ensures AllDigits(Pad(n, 4)) && Number(Pad(n, 4)) == n
  {
    assert Pow10(4) == 10000;
    NumberOfPad(n, 4);
    hide Pad, Number;
  }

  lemma DigitsTogether(a: string, b: string)
    requires AllDigits(a) && AllDigits(b)
    ensures AllDigits(a + b)
  {
  }

  lemma DateReads(t: Time)
    ensures |DateText(t)| == 8 && AllDigits(DateText(t)) && ParseDate(DateText(t)) == Some(Midnight(t))
  {
    hide Pad, Number, AllDigits;
    var y, mo, d := Pad(t.year, 4), Pad(t.month, 2), Pad(t.day, 2);
    FourDigits(t.year);
    TwoDigits(t.month);
    TwoDigits(t.day);
    DigitsTogether(mo, d);
    DigitsTogether(y, mo + d);
    var v := DateText(t);
    assert v[..4] == y && v[4..6] == mo && v[6..8] == d;
  }

  lemma LocalReads(t: Time)
    ensures |LocalText(t)| == 15 && IsDigit(LocalText(t)[0]) && IsDigit(LocalText(t)[14])
    ensures ParseDateTime(LocalText(t)) == Some(ToSecond(t)) && Utc(t) == LocalText(t) + "Z"
  {
    UtcReadsBack(t);
    TwoDigits(t.second);
    hide Number, ParseDateTime, Pad;
    var s := Pad(t.second, 2);
    assert Utc(t)[..15] == LocalText(t);
    assert LocalText(t)[0] == Utc(t)[0] && LocalText(t)[14] == s[1];
  }

  /**
   What a value means, whatever blanks surround it. Eight digits are midnight UTC of a date; a date-time ending
   in Z is in UTC; any other is wall-clock time of the zone named by TZID, and in UTC if none is.
   */
  lemma TimesRead(zones: Zones, params: map<string, string>, raw: string, t: Time)
    ensures TrimSpace(raw) == DateText(t) ==>
              ParseICSTime(zones, params, raw) == Some(Parsed(Instant(Midnight(t)), true))
    ensures TrimSpace(raw) == LocalText(t) + "Z" && !AsksDate(params) ==>
              ParseICSTime(zones, params, raw) == Some(Parsed(Instant(ToSecond(t)), false))
    ensures TrimSpace(raw) == LocalText(t) && !AsksDate(params) ==>
              ParseICSTime(zones, params, raw) == Some(Parsed(
                if "TZID" in params && params["TZID"] != "" then zones(params["TZID"], ToSecond(t))
                else Instant(ToSecond(t)), false))
    ensures AsksDate(params) && |TrimSpace(raw)| != 8 ==> ParseICSTime(zones, params, raw) == None
  {
    hide Instant, EqualFold, TrimSpace, ParseDateTime, DateText, LocalText, ToSecond, Utc;
    DateReads(t);
    LocalReads(t);
    assert |DateText(t)| == 8 && 'T' !in DateText(t);
    var z := LocalText(t) + "Z";
    assert z[..15] == LocalText(t);
  }

  /** A start in a named zone begins at the instant of that zone. */
  lemma ZonedStart(zones: Zones, tz: string, quoted: bool, t: Time)
    requires Param("TZID", tz, quoted).Valid() && tz != ""
    ensures GivesStart(zones, Head("DTSTART", [Param("TZID", tz, quoted)]) + (":" + LocalText(t)),
              Parsed(zones(tz, ToSecond(t)), false))
  {
    var params := [Param("TZID", tz, quoted)];
    var ln := Head("DTSTART", params) + (":" + LocalText(t));
    LocalReads(t);
    TimeWords();
    assert Upper("TZID") == "TZID" && "TZID" != "VALUE";
    hide Head, LocalText, SplitLine, ParseICSTime, ToSecond, Utc, Instant, Upper, ParseDateTime, Param.Valid;
    NothingToTrim(LocalText(t));
    ParametersRead("DTSTART", params, LocalText(t), "TZID");
    ParametersRead("DTSTART", params, LocalText(t), "VALUE");
    assert LastParam(params, 0, "TZID");
    TimesRead(zones, SplitLine(ln).params, LocalText(t), t);
  }

  // ---------- who a printed object names ----------

  lemma NameOfLine(w: string, x: string)
    requires Word(w)
    ensures SplitLine(Line(w, x)).name == w
  {
    SplitPlainLine(w, x);
  }

  lemma FrameNames()
    ensures forall l :: l in HEADER || l in CLOSING ==> SplitLine(l).name != "UID"
  {
    FrameWords();
    HeaderWords();
    hide Word, SplitLine, Line;
    NameOfLine("BEGIN", "VCALENDAR");
    NameOfLine("VERSION", "2.0");
    NameOfLine("PRODID", "-//Calnode//Booking//EN");
    NameOfLine("CALSCALE", "GREGORIAN");
    NameOfLine("METHOD", "REQUEST");
    NameOfLine("STATUS", "CONFIRMED");
    NameOfLine("END", "VEVENT");
    NameOfLine("END", "VCALENDAR");
  }

  lemma MiddleNames(e: Entry)
    ensures forall l :: l in TimeLines(e) || l in TextLines(e) || l == SequenceLine(e) ==> SplitLine(l).name != "UID"
  {
    TimeWords();
    TextWords();
    OrganizerSplits(e);
    hide Word, SplitLine, Line, Escaped, Utc, Dec;
    NameOfLine("DTSTAMP", Utc(e.stamp));
    NameOfLine("DTSTART", Utc(e.start));
    NameOfLine("DTEND", Utc(e.end));
    NameOfLine("SUMMARY", Escaped(e.summary));
    NameOfLine("DESCRIPTION", Escaped(e.description));
    NameOfLine("LOCATION", Escaped(e.location));
    NameOfLine("ORGANIZER", "mailto:" + e.orgEmail);
    NameOfLine("SEQUENCE", Dec(e.sequence));
  }

  /** The one UID a reader finds in a printed object is made of the entry's id. */
  lemma UidReads(e: Entry)
    requires e.Valid()
    ensures exists l :: l in Unfolded(Built(e)) && SplitLine(l).name == "UID"
    ensures forall l :: l in Unfolded(Built(e)) && SplitLine(l).name == "UID" ==>
              SplitLine(l).value == e.id + "@calnode"
  {
    hide Word, SplitLine, Line, Unfolded, Built, ObjectText, LinesOf, ContentLine, Entry.Valid;
    FrameWords();
    LinesAreContent(e);
    FoldUnfoldInverse(LinesOf(e));
    BuiltIsText(e);
    FrameNames();
    MiddleNames(e);
    LinesByKind(e);
    SplitPlainLine("UID", e.id + "@calnode");
    NameOfLine("BEGIN", "VEVENT");
    assert Line("UID", e.id + "@calnode") in LinesOf(e);
  }

  lemma LinesByKind(e: Entry)
    ensures forall l :: l in LinesOf(e) <==>
              || l in HEADER || l == Line("BEGIN", "VEVENT") || l == Line("UID", e.id + "@calnode")
              || l in TimeLines(e) || l in TextLines(e) || l == SequenceLine(e) || l in CLOSING
  {
    hide Line, TextLines, TimeLines, SequenceLine;
    var opening, rest := Opening(e), TimeLines(e) + TextLines(e) + [SequenceLine(e)] + CLOSING;
    assert LinesOf(e) == opening + rest;
    assert forall l :: l in opening <==>
      l in HEADER || l == Line("BEGIN", "VEVENT") || l == Line("UID", e.id + "@calnode");
  }

  /** Objects carry the same UID exactly when they are of the same booking. */
  lemma UidsDiffer(e: Entry, f: Entry, l: string, m: string)
    requires e.Valid() && f.Valid()
    requires l in Unfolded(Built(e)) && SplitLine(l).name == "UID"
    requires m in Unfolded(Built(f)) && SplitLine(m).name == "UID"
    ensures SplitLine(l).value == SplitLine(m).value <==> e.id == f.id
  {
    hide Built, Unfolded, SplitLine, Entry.Valid;
    UidReads(e);
    UidReads(f);
    SameBefore(e.id, f.id, "@calnode");
  }

  lemma SameBefore(a: string, b: string, tail: string)
    ensures a + tail == b + tail <==> a == b
  {
    if a + tail == b + tail {
      assert |a| == |b|;
      assert a == (a + tail)[..|a|] == (b + tail)[..|b|] == b;
    }
  }

  function OrganizerLine(e: Entry): string {
    "ORGANIZER;" + ("CN=" + Escaped(e.orgName) + ":mailto:" + e.orgEmail)
  }

  lemma OrganizerSplits(e: Entry)
    ensures SplitLine(OrganizerLine(e)).name == "ORGANIZER"
  {
    TextWords();
    var y := "CN=" + Escaped(e.orgName) + ":mailto:" + e.orgEmail;
    assert y[|"CN=" + Escaped(e.orgName)|] == ':';
    SplitParameterLine("ORGANIZER", y);
    assert "ORGANIZER" + (";" + y) == "ORGANIZER;" + y;
  }

  lemma {:induction false} EscapedKeepsColons(s: string)
    ensures ':' in Escaped(s) <==> ':' in s
  {
    if s != "" {
      EscapedKeepsColons(s[1..]);
      if |s| >= 2 { EscapedKeepsColons(s[2..]); }
    }
  }

  /**
   The organizer's address reads back exactly when the organizer's name holds no colon: the name goes
   unquoted into a parameter, which the first colon ends.
   */
  lemma OrganizerReadsIff(e: Entry)
    requires e.Valid() && e.orgName != "" && e.orgEmail != ""
    ensures OrganizerLine(e) in Unfolded(Built(e))
    ensures SplitLine(OrganizerLine(e)).value == "mailto:" + e.orgEmail <==> ':' !in e.orgName
  {
    hide Unfolded, Built, ObjectText, LinesOf, ContentLine, Escaped, SplitLine, TextLines;
    LinesAreContent(e);
    FoldUnfoldInverse(LinesOf(e));
    BuiltIsText(e);
    LinesByKind(e);
    OrganizerIsText(e);
    EscapedKeepsColons(e.orgName);
    ValueAfterName(Escaped(e.orgName), "mailto:" + e.orgEmail, OrganizerLine(e));
  }

  lemma OrganizerIsText(e: Entry)
    requires e.orgName != "" && e.orgEmail != ""
    ensures OrganizerLine(e) in TextLines(e)
    ensures OrganizerLine(e) == "ORGANIZER;CN=" + Escaped(e.orgName) + (":" + ("mailto:" + e.orgEmail))
  {
    hide Escaped, Line;
    var name, address := Escaped(e.orgName), "mailto:" + e.orgEmail;
    assert ":mailto:" + e.orgEmail == ":" + address;
    assert "ORGANIZER;" + ("CN=" + name + (":" + address)) == "ORGANIZER;CN=" + name + (":" + address);
    assert "CN=" + name + ":mailto:" + e.orgEmail == "CN=" + name + (":" + address);
  }

  lemma ValueAfterName(name: string, address: string, ln: string)
    requires ln == "ORGANIZER;CN=" + name + (":" + address)
    ensures SplitLine(ln).value == address <==> ':' !in name
  {
    var head := "ORGANIZER;CN=" + name;
    var at := IndexOf(ln, ':');
    if ':' !in name {
      ColonAfter(head, address);
      assert ln[|head| + 1..] == address;
    } else {
      var k :| 0 <= k < |name| && name[k] == ':';
      assert ln[13 + k] == ':';
      assert forall i :: 0 <= i < at ==> ln[..at][i] == ln[i];
      assert at <= 13 + k;
      assert |ln[at + 1..]| > |address|;
    }
  }

  // ---------- busy times ----------

  datatype Interval = Interval(start: int, end: int)

  /** The event blocks the time it takes. */
  predicate Busies(e: Event) {
    !e.transparent && !e.cancelled && e.start != ZERO && e.start < e.end
  }

  function BusyOf(events: seq<Event>): seq<Interval> {
    if events == [] then []
    else
      var e := events[|events| - 1];
      BusyOf(events[..|events| - 1]) + if Busies(e) then [Interval(e.start, e.end)] else []
  }

  function BusyTimes(zones: Zones, responses: seq<string>): seq<Interval> {
    if responses == [] then []
    else
      BusyTimes(zones, responses[..|responses| - 1]) +
        BusyOf(Events(zones, TrimSpace(responses[|responses| - 1])))
  }

  /** The loops over the responses of a server and the events in each. */
  method FreeBusyForConn(zones: Zones, responses: seq<string>) returns (out: seq<Interval>)
    ensures out == BusyTimes(zones, responses)
  {
    hide Events, TrimSpace;
    out := [];
    for i := 0 to |responses|
      invariant out == BusyTimes(zones, responses[..i])
    {
      var data := TrimSpace(responses[i]);
      assert responses[..i + 1][..i] == responses[..i];
      if data == "" {
        NoEvents(zones);
        continue;
      }
      ghost var before := out;
      var events := ParseVEvents(zones, data);
      for j := 0 to |events|
        invariant out == before + BusyOf(events[..j])
      {
        var ev := events[j];
        assert events[..j + 1][..j] == events[..j];
        if ev.transparent || ev.cancelled || ev.start == ZERO || !(ev.end > ev.start) {
          continue;
        }
        out := out + [Interval(ev.start, ev.end)];
      }
      assert events[..|events|] == events;
    }
    assert responses[..|responses|] == responses;
  }

  lemma NoEvents(zones: Zones)
    ensures Events(zones, "") == []
  {
    assert Unfolded("") == [];
  }

  lemma {:induction false} BusyOfExact(events: seq<Event>)
    ensures forall iv :: iv in BusyOf(events) <==>
              exists i :: 0 <= i < |events| && Occupies(events[i], iv)
  {
    if events != [] {
      BusyOfExact(events[..|events| - 1]);
    }
  }

  /** Some block of the object reads as an event that blocks exactly this time. */
  ghost predicate BlocksTime(zones: Zones, data: string, iv: Interval) {
    exists b :: IsBlock(Unfolded(data), b) && Occupies(Read(zones, Body(Unfolded(data), b)), iv)
  }

  predicate Occupies(e: Event, iv: Interval) {
    Busies(e) && iv == Interval(e.start, e.end)
  }

  lemma BusyInObject(zones: Zones, data: string)
    ensures forall iv :: iv in BusyOf(Events(zones, data)) <==> BlocksTime(zones, data, iv)
  {
    hide Unfolded, IsBlock, Events, Read, Occupies, BusyOf;
    BlocksFit(Unfolded(data));
    EventsAreBlocks(zones, data);
    var lines, events := Unfolded(data), Events(zones, data);
    var blocks: seq<Block> :| InOrder(lines, blocks) && ReadFrom(zones, lines, blocks, events);
    BusyOfExact(events);
    forall b | IsBlock(lines, b) ensures Read(zones, Body(lines, b)) in events {
      assert b in blocks;
      var i :| 0 <= i < |blocks| && blocks[i] == b;
      assert events[i] == Read(zones, Body(lines, b));
    }
    forall iv | iv in BusyOf(events) ensures BlocksTime(zones, data, iv) {
      var i :| 0 <= i < |events| && Occupies(events[i], iv);
      assert IsBlock(lines, blocks[i]);
    }
  }

  /** The busy times of a connection are those its events block: opaque, not cancelled, and of some length. */
  lemma {:induction false} BusyTimesExact(zones: Zones, responses: seq<string>)
    ensures forall iv :: iv in BusyTimes(zones, responses) <==>
              exists r :: 0 <= r < |responses| && BlocksTime(zones, TrimSpace(responses[r]), iv)
  {
    hide TrimSpace, BlocksTime, BusyOf, Events;
    if responses != [] {
      BusyTimesExact(zones, responses[..|responses| - 1]);
      BusyInObject(zones, TrimSpace(responses[|responses| - 1]));
    }
  }
}
