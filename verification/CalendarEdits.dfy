/**
 Any history of time edits applied to a printed calendar object gives, byte for byte, the object
 that would have been printed with the last times and the next sequence number.
 */
module CalendarEdits {
  import opened CalendarObjects
  import opened CalendarRoundTrip
  import opened ContentLines
  import opened Timestamps

  // ---------- the editor, line by line ----------

  function SawAfter(lines: seq<string>, sawSeq: bool, m: Move): bool
    decreases |lines|
  {
    if lines == [] then sawSeq else SawAfter(lines[1..], EditLine(lines[0], sawSeq, m).1, m)
  }

  lemma {:induction false} EditConcat(a: seq<string>, b: seq<string>, sawSeq: bool, m: Move)
    ensures Edit(a + b, sawSeq, m) == Edit(a, sawSeq, m) + Edit(b, SawAfter(a, sawSeq, m), m)
    ensures SawAfter(a + b, sawSeq, m) == SawAfter(b, SawAfter(a, sawSeq, m), m)
    decreases |a|
  {
    hide EditLine;
    if a == [] {
      assert a + b == b;
    } else {
      var (kept, saw) := EditLine(a[0], sawSeq, m);
      assert (a + b)[0] == a[0] && (a + b)[1..] == a[1..] + b;
      EditConcat(a[1..], b, saw, m);
      assert Edit(a + b, sawSeq, m) == kept + Edit(a[1..] + b, saw, m);
      assert Edit(a, sawSeq, m) == kept + Edit(a[1..], saw, m);
      Regroup(kept, Edit(a[1..], saw, m), Edit(b, SawAfter(a[1..], saw, m), m));
    }
  }

  lemma Regroup(a: seq<string>, b: seq<string>, c: seq<string>)
    ensures a + (b + c) == a + b + c
  {
  }

  /** The editor copies the line and moves on. */
  predicate Kept(l: string, sawSeq: bool, m: Move) {
    EditLine(l, sawSeq, m) == ([l], sawSeq)
  }

  lemma {:induction false} KeptLines(lines: seq<string>, sawSeq: bool, m: Move)
    requires forall l :: l in lines ==> Kept(l, sawSeq, m)
    ensures Edit(lines, sawSeq, m) == lines
    ensures SawAfter(lines, sawSeq, m) == sawSeq
    decreases |lines|
  {
    if lines != [] {
      assert Kept(lines[0], sawSeq, m);
      assert EditLine(lines[0], sawSeq, m) == ([lines[0]], sawSeq);
      hide EditLine;
      KeptLines(lines[1..], sawSeq, m);
      assert lines == [lines[0]] + lines[1..];
    }
  }

  lemma {:induction false} RestPiecesContinue(rest: string)
    ensures forall p :: p in RestPieces(rest) ==> IsContinuation(p)
    decreases |rest|
  {
    if rest != "" {
      var n := if |rest| < LIMIT then |rest| else LIMIT;
      RestPiecesContinue(rest[n..]);
    }
  }

  /** A continuation is never mistaken for a property, whatever text it carries. */
  lemma ContinuationIsKept(p: string, sawSeq: bool, m: Move)
    requires IsContinuation(p)
    ensures Kept(p, sawSeq, m)
  {
    var head := PropName(Upper(p));
    assert head[0] == p[0];
    ForeignHeadIsKept(p, sawSeq, m, head);
  }

  lemma ForeignHeadIsKept(p: string, sawSeq: bool, m: Move, head: string)
    requires p != "" && head == PropName(Upper(p)) && !EditName(head)
    ensures Kept(p, sawSeq, m)
  {
  }

  /** The editor does not act on the property. */
  ghost predicate Copied(l: string) {
    exists w, rest :: Named(l, w, rest) && !EditName(w)
  }

  lemma CopiedPlain(w: string, x: string)
    requires Word(w) && |w| < LIMIT && !EditName(w)
    ensures Copied(Line(w, x))
  {
    assert Named(Line(w, x), w, ":" + x);
  }

  /** Every physical line of such a content line is copied. */
  lemma PiecesAreKept(l: string, sawSeq: bool, m: Move)
    requires Copied(l)
    ensures forall p :: p in Pieces(l) ==> Kept(p, sawSeq, m)
  {
    var w, rest :| Named(l, w, rest) && !EditName(w);
    hide Word, Kept;
    var h := Pieces(l)[0];
    var r := if |l| <= 75 then rest else rest[..LIMIT - |w|];
    assert h == w + r;
    PropNameOf(w, r);
    ForeignHeadIsKept(h, sawSeq, m, w);
    if |l| > 75 {
      RestPiecesContinue(l[LIMIT..]);
      forall p | p in RestPieces(l[LIMIT..]) { ContinuationIsKept(p, sawSeq, m); }
    }
  }

  lemma {:induction false} CopiedLines(lines: seq<string>, sawSeq: bool, m: Move)
    requires forall l :: l in lines ==> Copied(l)
    ensures Edit(AllPieces(lines), sawSeq, m) == AllPieces(lines)
    ensures SawAfter(AllPieces(lines), sawSeq, m) == sawSeq
    decreases |lines|
  {
    if lines != [] {
      hide Pieces, EditLine, Kept, Copied;
      PiecesAreKept(lines[0], sawSeq, m);
      KeptLines(Pieces(lines[0]), sawSeq, m);
      CopiedLines(lines[1..], sawSeq, m);
      EditConcat(Pieces(lines[0]), AllPieces(lines[1..]), sawSeq, m);
    }
  }

  lemma {:induction false} AllPiecesConcat(a: seq<string>, b: seq<string>)
    ensures AllPieces(a + b) == AllPieces(a) + AllPieces(b)
    decreases |a|
  {
    if a == [] {
      assert a + b == b;
    } else {
      hide Pieces;
      assert (a + b)[1..] == a[1..] + b;
      AllPiecesConcat(a[1..], b);
    }
  }

  // ---------- the parts of a printed object ----------

  lemma OpeningIsCopied(e: Entry)
    ensures forall l :: l in Opening(e) ==> Copied(l)
  {
    FrameWords();
    HeaderWords();
    hide Word, Line, Copied;
    CopiedPlain("BEGIN", "VCALENDAR");
    CopiedPlain("VERSION", "2.0");
    CopiedPlain("PRODID", "-//Calnode//Booking//EN");
    CopiedPlain("CALSCALE", "GREGORIAN");
    CopiedPlain("METHOD", "REQUEST");
    CopiedPlain("BEGIN", "VEVENT");
    CopiedPlain("UID", e.id + "@calnode");
  }

  lemma TextsAreCopied(e: Entry)
    ensures forall l :: l in TextLines(e) ==> Copied(l)
  {
    TextLinesArePassive(e);
  }

  lemma ShortLine(w: string, x: string)
    requires |w| + |x| < 75
    ensures Pieces(Line(w, x)) == [Line(w, x)]
  {
  }

  lemma ThreePieces(a: string, b: string, c: string)
    requires Pieces(a) == [a] && Pieces(b) == [b] && Pieces(c) == [c]
    ensures AllPieces([a, b, c]) == [a, b, c]
  {
    hide Pieces;
    assert [a, b, c][1..] == [b, c] && [b, c][1..] == [c] && [c][1..] == [];
    assert AllPieces([c]) == [c];
    assert AllPieces([b, c]) == [b, c];
  }

  lemma TimePieces(e: Entry)
    ensures AllPieces(TimeLines(e)) == TimeLines(e)
  {
    UtcReadsBack(e.stamp);
    UtcReadsBack(e.start);
    UtcReadsBack(e.end);
    hide Utc, Line;
    ShortLine("DTSTAMP", Utc(e.stamp));
    ShortLine("DTSTART", Utc(e.start));
    ShortLine("DTEND", Utc(e.end));
    ThreePieces(TimeLines(e)[0], TimeLines(e)[1], TimeLines(e)[2]);
  }

  lemma EditTimes(e: Entry, m: Move)
    ensures Edit(TimeLines(e), false, m) == TimeLines(e.(start := m.start, end := m.end, stamp := m.now))
    ensures SawAfter(TimeLines(e), false, m) == false
  {
    TimeWords();
    var lines := TimeLines(e);
    hide Word;
    PropNameOf("DTSTAMP", ":" + Utc(e.stamp));
    PropNameOf("DTSTART", ":" + Utc(e.start));
    PropNameOf("DTEND", ":" + Utc(e.end));
    hide Utc, PropName, Upper;
    assert EditLine(lines[0], false, m) == ([Line("DTSTAMP", Utc(m.now))], false);
    assert EditLine(lines[1], false, m) == ([Line("DTSTART", Utc(m.start))], false);
    assert EditLine(lines[2], false, m) == ([Line("DTEND", Utc(m.end))], false);
    hide EditLine, Line;
    assert lines[1..] == [lines[1], lines[2]] && lines[1..][1..] == [lines[2]] && lines[1..][1..][1..] == [];
    assert SawAfter([lines[2]], false, m) == false;
    assert SawAfter([lines[1], lines[2]], false, m) == false;
    assert Edit([lines[2]], false, m) == [Line("DTEND", Utc(m.end))];
    assert Edit([lines[1], lines[2]], false, m) == [Line("DTSTART", Utc(m.start)), Line("DTEND", Utc(m.end))];
  }

  // ---------- the sequence number ----------

  /** What the editor makes of a printed sequence number, in Go's int. */
  function NextSequence(n: int): int {
    if n < 0 then 1 else Wrap64(n + 1)
  }

  lemma SequenceReadsBack(n: int)
    requires -TWO63 <= n < TWO63
    ensures ReadInt(TrimSpace(Dec(n)), 0) == if n < 0 then 0 else n
  {
    DecimalIsDigits(if n < 0 then -n else n);
    if n >= 0 {
      DecimalReadsBack(n);
    }
    hide Decimal;
    NothingToTrim(Dec(n));
  }

  lemma {:induction false} DecimalLength(n: nat, k: nat)
    requires n < Pow10(k) && k > 0
    ensures |Decimal(n)| <= k
  {
    if n >= 10 {
      DecimalLength(n / 10, k - 1);
    }
  }

  lemma SequenceIsShort(e: Entry)
    requires e.Valid()
    ensures Pieces(SequenceLine(e)) == [SequenceLine(e)]
  {
    assert Pow10(5) == 100_000;
    assert Pow10(10) == 10_000_000_000;
    assert Pow10(15) == 1_000_000_000_000_000;
    assert Pow10(19) == 10_000_000_000_000_000_000;
    DecimalLength(if e.sequence < 0 then -e.sequence else e.sequence, 19);
    hide Decimal;
    ShortLine("SEQUENCE", Dec(e.sequence));
  }

  lemma SequenceHead(e: Entry)
    ensures PropName(Upper(SequenceLine(e))) == "SEQUENCE"
  {
    TimeWords();
    PropNameOf("SEQUENCE", ":" + Dec(e.sequence));
  }

  lemma SequenceValue(e: Entry)
    ensures PropValue(SequenceLine(e)) == Dec(e.sequence)
  {
    TimeWords();
    hide PropValue, Dec, Word, Line;
    SplitPlainLine("SEQUENCE", Dec(e.sequence));
  }

  lemma SequenceStep(e: Entry)
    requires e.Valid()
    ensures SeqPlusOne(SequenceLine(e)) == NextSequence(e.sequence)
  {
    hide Dec, PropValue, TrimSpace, ReadInt;
    SequenceValue(e);
    SequenceReadsBack(e.sequence);
    hide SequenceLine;
  }

  lemma EditSequence(e: Entry, m: Move)
    requires e.Valid()
    ensures EditLine(SequenceLine(e), false, m) == ([Line("SEQUENCE", Dec(NextSequence(e.sequence)))], true)
  {
    assert SequenceLine(e) != "";
    hide SequenceLine, Line, PropName, Upper, PropValue, TrimSpace, SeqPlusOne, NextSequence, EqualFold, Utc, Dec;
    SequenceHead(e);
    SequenceStep(e);
    SequenceOnly(SequenceLine(e), m);
  }

  lemma SequenceOnly(line: string, m: Move)
    requires line != "" && PropName(Upper(line)) == "SEQUENCE"
    ensures EditLine(line, false, m) == ([Line("SEQUENCE", Dec(SeqPlusOne(line)))], true)
  {
    hide Line, PropName, Upper, PropValue, TrimSpace, SeqPlusOne, EqualFold, Utc, Dec;
  }

  lemma ClosingKept(m: Move)
    ensures Edit(AllPieces(CLOSING), true, m) == AllPieces(CLOSING)
  {
    FrameWords();
    hide Word;
    ShortLine("STATUS", "CONFIRMED");
    ShortLine("END", "VEVENT");
    ShortLine("END", "VCALENDAR");
    hide *;
    ThreePieces(CLOSING[0], CLOSING[1], CLOSING[2]);
    StatusKept(m);
    EndKept("VEVENT", m);
    EndKept("VCALENDAR", m);
    KeptLines(CLOSING, true, m);
  }

  lemma StatusKept(m: Move)
    ensures Kept(Line("STATUS", "CONFIRMED"), true, m)
  {
    FrameWords();
    PropNameOf("STATUS", ":" + "CONFIRMED");
    hide PropName, Upper, Word;
  }

  /** Once the sequence number was written, the END lines are copied. */
  lemma EndKept(what: string, m: Move)
    ensures Kept(Line("END", what), true, m)
  {
    FrameWords();
    PropNameOf("END", ":" + what);
    hide PropName, Upper, Word, PropValue, TrimSpace, EqualFold;
  }

  // ---------- one edit ----------

  function Moved(e: Entry, m: Move): Entry {
    e.(start := m.start, end := m.end, stamp := m.now, sequence := NextSequence(e.sequence))
  }

  lemma PartsOf(e: Entry)
    ensures AllPieces(LinesOf(e)) ==
            AllPieces(Opening(e)) + AllPieces(TimeLines(e)) + AllPieces(TextLines(e)) +
            AllPieces([SequenceLine(e)]) + AllPieces(CLOSING)
  {
    hide AllPieces, Opening, TimeLines, TextLines, SequenceLine;
    AllPiecesConcat(Opening(e), TimeLines(e));
    AllPiecesConcat(Opening(e) + TimeLines(e), TextLines(e));
    AllPiecesConcat(Opening(e) + TimeLines(e) + TextLines(e), [SequenceLine(e)]);
    AllPiecesConcat(Opening(e) + TimeLines(e) + TextLines(e) + [SequenceLine(e)], CLOSING);
  }

  lemma MovedParts(e: Entry, m: Move)
    requires e.Valid()
    ensures var e' := Moved(e, m);
            && e'.Valid() && Opening(e') == Opening(e) && TextLines(e') == TextLines(e)
            && TimeLines(e') == TimeLines(e.(start := m.start, end := m.end, stamp := m.now))
            && SequenceLine(e') == Line("SEQUENCE", Dec(NextSequence(e.sequence)))
  {
    hide Line, Utc, Dec;
  }

  lemma EditPieces(e: Entry, m: Move)
    requires e.Valid()
    ensures Edit(AllPieces(LinesOf(e)), false, m) == AllPieces(LinesOf(Moved(e, m)))
  {
    hide *;
    var e' := Moved(e, m);
    MovedParts(e, m);
    PartsOf(e);
    PartsOf(e');
    OpeningIsCopied(e);
    CopiedLines(Opening(e), false, m);
    TimePieces(e);
    TimePieces(e');
    EditTimes(e, m);
    TextsAreCopied(e);
    CopiedLines(TextLines(e), false, m);
    SequenceIsShort(e);
    SequenceIsShort(e');
    EditSequence(e, m);
    ClosingKept(m);
    OneLine(SequenceLine(e), m);
    OneLine(SequenceLine(e'), m);
    var a, b, c, d := AllPieces(Opening(e)), TimeLines(e), AllPieces(TextLines(e)), [SequenceLine(e)];
    var f := AllPieces(CLOSING);
    EditConcat(a, b, false, m);
    EditConcat(a + b, c, false, m);
    EditConcat(a + b + c, d, false, m);
    EditConcat(a + b + c + d, f, false, m);
  }

  lemma OneLine(l: string, m: Move)
    requires Pieces(l) == [l]
    ensures AllPieces([l]) == [l]
    ensures Edit([l], false, m) == EditLine(l, false, m).0
    ensures SawAfter([l], false, m) == EditLine(l, false, m).1
  {
    hide EditLine, Pieces;
    assert [l][1..] == [];
  }

  lemma OneEdit(e: Entry, m: Move)
    requires e.Valid()
    ensures Rewritten(Built(e), m) == Built(Moved(e, m))
    ensures Moved(e, m).Valid()
  {
    var before, after := AllPieces(LinesOf(e)), AllPieces(LinesOf(Moved(e, m)));
    BuiltUnfolds(e);
    TextIsPieces(LinesOf(Moved(e, m)));
    EditPieces(e, m);
    SomePieces(Moved(e, m));
    assert Moved(e, m).Valid();
    hide LinesOf, AllPieces, ObjectText, RawLines, Unfolded, Moved;
    EditConcat(before, [""], false, m);
    NoEditOfEmpty(SawAfter(before, false, m), m);
    hide Edit;
    assert after + [] == after;
    JoinIsFlat(after);
  }

  lemma NoEditOfEmpty(sawSeq: bool, m: Move)
    ensures Edit([""], sawSeq, m) == []
  {
    assert [""][1..] == [];
  }

  lemma SomePieces(e: Entry)
    ensures AllPieces(LinesOf(e)) != []
  {
    hide Opening, TimeLines, TextLines, SequenceLine, AllPieces;
    PartsOf(e);
    ShortLine("STATUS", "CONFIRMED");
    ShortLine("END", "VEVENT");
    ShortLine("END", "VCALENDAR");
    ThreePieces(CLOSING[0], CLOSING[1], CLOSING[2]);
  }

  lemma {:induction false} JoinIsFlat(lines: seq<string>)
    requires lines != []
    ensures JoinLines(lines) + "\r\n" == Flat(lines)
  {
    if |lines| == 1 {
      assert lines[1..] == [];
    } else {
      JoinIsFlat(lines[1..]);
    }
  }

  // ---------- any history ----------

  function History(ics: string, moves: seq<Move>): string
    decreases |moves|
  {
    if moves == [] then ics else History(Rewritten(ics, moves[0]), moves[1..])
  }

  function MovedBy(e: Entry, moves: seq<Move>): Entry
    decreases |moves|
  {
    if moves == [] then e else MovedBy(Moved(e, moves[0]), moves[1..])
  }

  /** Editing a printed object any number of times is printing it with the edits applied. */
  lemma {:induction false} EditingIsPrinting(e: Entry, moves: seq<Move>)
    requires e.Valid()
    ensures History(Built(e), moves) == Built(MovedBy(e, moves)) && MovedBy(e, moves).Valid()
    decreases |moves|
  {
    if moves != [] {
      hide Built, Rewritten, NextSequence;
      OneEdit(e, moves[0]);
      EditingIsPrinting(Moved(e, moves[0]), moves[1..]);
    }
  }

  lemma {:induction false} MovedByFields(e: Entry, moves: seq<Move>)
    ensures var r := MovedBy(e, moves);
            && r == e.(start := r.start, end := r.end, stamp := r.stamp, sequence := r.sequence)
            && (moves != [] ==> var m := moves[|moves| - 1]; r.start == m.start && r.end == m.end && r.stamp == m.now)
            && (0 <= e.sequence && e.sequence + |moves| < TWO63 ==> r.sequence == e.sequence + |moves|)
    decreases |moves|
  {
    if moves != [] {
      MovedByFields(Moved(e, moves[0]), moves[1..]);
    }
  }

  /**
   After k edits of a freshly printed object the reader sees one event with the last start and
   end, and the object carries SEQUENCE:k (below the largest Go int).
   */
  lemma EditHistory(zones: Zones, e: Entry, moves: seq<Move>)
    requires e.Valid() && e.sequence == 0 && moves != []
    ensures var m := moves[|moves| - 1];
            var r := History(Built(e), moves);
            && Events(zones, r) ==
               [Closed(Event(Instant(ToSecond(m.start)), Instant(ToSecond(m.end)), false, false), false)]
            && (|moves| < TWO63 ==> Line("SEQUENCE", Dec(|moves|)) in Unfolded(r))
            && Line("SUMMARY", Escaped(e.summary)) in Unfolded(r)
  {
    hide Built, Rewritten, Events, Closed, Instant, Escaped, Dec, Unfolded, Line, TextLines, Opening, TimeLines;
    EditingIsPrinting(e, moves);
    MovedByFields(e, moves);
    var last := MovedBy(e, moves);
    PrintParse(zones, last);
    TextSurvives(last);
    LinesAreContent(last);
    FoldUnfoldInverse(LinesOf(last));
    assert Unfolded(Built(last)) == LinesOf(last) by { BuiltUnfolds(last); }
    assert SequenceLine(last) in LinesOf(last);
  }

  lemma BuiltUnfolds(e: Entry)
    requires e.Valid()
    ensures Unfolded(Built(e)) == LinesOf(e)
    ensures RawLines(Built(e)) == AllPieces(LinesOf(e)) + [""]
  {
    LinesAreContent(e);
    FoldUnfoldInverse(LinesOf(e));
    TextIsPieces(LinesOf(e));
    AllPiecesFit(LinesOf(e));
    RawLinesOfFlat(AllPieces(LinesOf(e)));
  }

  /** The physical lines the editor replaces. */
  predicate Replaceable(l: string) {
    PropName(Upper(l)) in {"DTSTART", "DTEND", "DTSTAMP", "SEQUENCE"}
  }

  lemma TimesAreReplaceable(e: Entry)
    ensures forall l :: l in TimeLines(e) ==> Replaceable(l)
    ensures Replaceable(SequenceLine(e))
  {
    TimeWords();
    hide Word, Utc, Dec;
    PropNameOf("DTSTAMP", ":" + Utc(e.stamp));
    PropNameOf("DTSTART", ":" + Utc(e.start));
    PropNameOf("DTEND", ":" + Utc(e.end));
    PropNameOf("SEQUENCE", ":" + Dec(e.sequence));
    hide PropName, Upper;
  }

  /** The physical lines of a printed object. */
  lemma BuiltShape(e: Entry)
    requires e.Valid()
    ensures RawLines(Built(e)) ==
            AllPieces(Opening(e)) + TimeLines(e) + AllPieces(TextLines(e)) + [SequenceLine(e)] +
                (AllPieces(CLOSING) + [""])
  {
    BuiltUnfolds(e);
    PartsOf(e);
    TimePieces(e);
    SequenceIsShort(e);
    OneLine(SequenceLine(e), Move(e.start, e.end, e.stamp));
    hide *;
  }

  /** Position by position, every other physical line, folded continuations included, is untouched. */
  lemma OtherLinesUntouched(e: Entry, moves: seq<Move>)
    requires e.Valid()
    ensures var before, after := RawLines(Built(e)), RawLines(History(Built(e), moves));
            && |before| == |after|
            && forall i :: 0 <= i < |before| ==>
                 before[i] == after[i] || (Replaceable(before[i]) && Replaceable(after[i]))
  {
    var last := MovedBy(e, moves);
    EditingIsPrinting(e, moves);
    MovedByFields(e, moves);
    assert Opening(last) == Opening(e) && TextLines(last) == TextLines(e) && |TimeLines(e)| == |TimeLines(last)|;
    hide *;
    BuiltShape(e);
    BuiltShape(last);
    TimesAreReplaceable(e);
    TimesAreReplaceable(last);
    SplicesAgree(AllPieces(Opening(e)), TimeLines(e), TimeLines(last), AllPieces(TextLines(e)),
                 SequenceLine(e), SequenceLine(last), AllPieces(CLOSING) + [""]);
  }

  /** Two lists that differ in one stretch and one further place. */
  lemma SplicesAgree(
      a: seq<string>, b: seq<string>, b': seq<string>, c: seq<string>, d: string, d': string, f: seq<string>)
    requires |b| == |b'|
    ensures var x, y := a + b + c + [d] + f, a + b' + c + [d'] + f;
            |x| == |y| && forall i :: 0 <= i < |x| ==>
                x[i] == y[i] || ((x[i] in b || x[i] == d) && (y[i] in b' || y[i] == d'))
  {
    var x, y := a + b + c + [d] + f, a + b' + c + [d'] + f;
    forall i | 0 <= i < |x|
      ensures x[i] == y[i] || ((x[i] in b || x[i] == d) && (y[i] in b' || y[i] == d'))
    {
      if |a| <= i < |a| + |b| {
        assert x[i] == b[i - |a|] && y[i] == b'[i - |a|];
      }
    }
  }
}
