/**
 iCalendar content lines as octets: folding and unfolding, text escaping, decimal numbers.
 Each char of a string stands for one octet.
 */
module ContentLines {

  // ---------- octet helpers ----------

  predicate IsDigit(c: char) {
    '0' <= c <= '9'
  }

  function Upper(s: string): (u: string)
    ensures |u| == |s|
  {
    seq(|s|, i requires 0 <= i < |s| => if 'a' <= s[i] <= 'z' then s[i] - 'a' + 'A' else s[i])
  }

  predicate EqualFold(a: string, b: string) {
    Upper(a) == Upper(b)
  }

  predicate IsSpace(c: char) {
    c in " \t\n\r" || c == 11 as char || c == 12 as char
  }

  function TrimLeft(s: string): string {
    if s != "" && IsSpace(s[0]) then TrimLeft(s[1..]) else s
  }

  function TrimRight(s: string): string {
    if s != "" && IsSpace(s[|s| - 1]) then TrimRight(s[..|s| - 1]) else s
  }

  function TrimSpace(s: string): string {
    TrimRight(TrimLeft(s))
  }

  /** The same octet, or the same ASCII letter in the other case. */
  predicate SameLetter(x: char, y: char) {
    || x == y
    || ('A' <= x <= 'Z' && y as int == x as int + 32)
    || ('A' <= y <= 'Z' && x as int == y as int + 32)
  }

  /** Equal but for the case of ASCII letters. */
  lemma EqualFoldExact(a: string, b: string)
    ensures EqualFold(a, b) <==> |a| == |b| && forall i :: 0 <= i < |a| ==> SameLetter(a[i], b[i])
  {
    if |a| == |b| {
      assert forall i :: 0 <= i < |a| ==> (Upper(a)[i] == Upper(b)[i] <==> SameLetter(a[i], b[i]));
    }
  }

  /** Blank, tab, and the octets from line feed to carriage return. */
  predicate Blank(c: char) {
    c == ' ' || 9 <= c as int <= 13
  }

  /** The blanks go at both ends, and nothing else. */
  lemma TrimSpaceExact(s: string)
    ensures exists i, j :: 0 <= i <= j <= |s| && TrimSpace(s) == s[i..j] && Trimmed(s, i, j)
  {
    var i := TrimmedLeft(s);
    var j := TrimmedRight(s[i..]);
    assert s[i..][..j] == s[i..i + j];
    assert forall k :: i <= k < |s| ==> s[k] == s[i..][k - i];
    assert Trimmed(s, i, i + j);
  }

  /** Blanks before i and from j on, and none at the ends of what is between. */
  ghost predicate Trimmed(s: string, i: nat, j: nat)
    requires i <= j <= |s|
  {
    && (forall k :: 0 <= k < i || j <= k < |s| ==> Blank(s[k]))
    && (i < j ==> !Blank(s[i]) && !Blank(s[j - 1]))
  }

  lemma {:induction false} TrimmedLeft(s: string) returns (i: nat)
    ensures i <= |s| && TrimLeft(s) == s[i..]
    ensures (forall k :: 0 <= k < i ==> Blank(s[k])) && (i < |s| ==> !Blank(s[i]))
  {
    i := 0;
    if s != "" && IsSpace(s[0]) {
      var n := TrimmedLeft(s[1..]);
      i := n + 1;
      assert forall k :: 1 <= k < i ==> s[k] == s[1..][k - 1];
    }
  }

  lemma {:induction false} TrimmedRight(s: string) returns (j: nat)
    ensures j <= |s| && TrimRight(s) == s[..j]
    ensures (forall k :: j <= k < |s| ==> Blank(s[k])) && (j > 0 ==> !Blank(s[j - 1]))
  {
    j := |s|;
    if s != "" && IsSpace(s[|s| - 1]) {
      j := TrimmedRight(s[..|s| - 1]);
    }
  }

  /** No CR and no LF inside. */
  predicate Plain(s: string) {
    '\r' !in s && '\n' !in s
  }

  /** strings.Split on one octet. */
  function SplitOn(s: string, c: char): (parts: seq<string>)
    ensures |parts| > 0
  {
    if s == "" then [""]
    else if s[0] == c then [""] + SplitOn(s[1..], c)
    else
      var rest := SplitOn(s[1..], c);
      [[s[0]] + rest[0]] + rest[1..]
  }

  /** strings.ReplaceAll(s, "\r\n", "\n"). */
  function UnixBreaks(s: string): string {
    if s == "" then ""
    else if |s| >= 2 && s[0] == '\r' && s[1] == '\n' then "\n" + UnixBreaks(s[2..])
    else [s[0]] + UnixBreaks(s[1..])
  }

  /** The physical lines both readers walk over. */
  function RawLines(data: string): seq<string> {
    SplitOn(UnixBreaks(data), '\n')
  }

  // ---------- folding ----------

  const LIMIT: nat := 73

  function FoldRest(rest: string): string {
    if rest == "" then ""
    else
      var n := if |rest| < LIMIT then |rest| else LIMIT;
      "\r\n " + rest[..n] + FoldRest(rest[n..])
  }

  /** The folded form of one content line. */
  function Folded(line: string): string {
    if |line| <= 75 then line else line[..LIMIT] + FoldRest(line[LIMIT..])
  }

  method FoldLine(line: string) returns (b: string)
    ensures b == Folded(line)
  {
    if |line| <= 75 {
      return line;
    }
    b := line[..LIMIT];
    var rest := line[LIMIT..];
    while |rest| > 0
      invariant b + FoldRest(rest) == Folded(line)
      decreases |rest|
    {
      var n := LIMIT;
      if |rest| < n {
        n := |rest|;
      }
      assert b + FoldRest(rest) == b + "\r\n " + rest[..n] + FoldRest(rest[n..]);
      b := b + "\r\n ";
      b := b + rest[..n];
      rest := rest[n..];
    }
    assert b + "" == b;
  }

  /** The physical lines of a folded line, and of the rest of one. */
  function RestPieces(rest: string): seq<string> {
    if rest == "" then []
    else
      var n := if |rest| < LIMIT then |rest| else LIMIT;
      [" " + rest[..n]] + RestPieces(rest[n..])
  }

  function Pieces(line: string): seq<string> {
    if |line| <= 75 then [line] else [line[..LIMIT]] + RestPieces(line[LIMIT..])
  }

  /** Every line followed by CRLF. */
  function Flat(lines: seq<string>): string {
    if lines == [] then "" else lines[0] + "\r\n" + Flat(lines[1..])
  }

  function AllPieces(lines: seq<string>): seq<string> {
    if lines == [] then [] else Pieces(lines[0]) + AllPieces(lines[1..])
  }

  /** The object text: each content line folded and terminated. */
  function ObjectText(lines: seq<string>): string {
    if lines == [] then "" else Folded(lines[0]) + "\r\n" + ObjectText(lines[1..])
  }

  lemma {:induction false} FlatConcat(a: seq<string>, b: seq<string>)
    ensures Flat(a + b) == Flat(a) + Flat(b)
  {
    if a == [] {
      assert a + b == b;
    } else {
      assert (a + b)[1..] == a[1..] + b;
      FlatConcat(a[1..], b);
    }
  }

  lemma {:induction false} FoldRestIsPieces(rest: string)
    ensures FoldRest(rest) + "\r\n" == "\r\n" + Flat(RestPieces(rest))
  {
    if rest != "" {
      var n := if |rest| < LIMIT then |rest| else LIMIT;
      FoldRestIsPieces(rest[n..]);
      assert RestPieces(rest)[1..] == RestPieces(rest[n..]);
      calc {
        FoldRest(rest) + "\r\n";
        "\r\n " + rest[..n] + (FoldRest(rest[n..]) + "\r\n");
        "\r\n" + ((" " + rest[..n]) + "\r\n" + Flat(RestPieces(rest[n..])));
      }
    }
  }

  lemma FoldedIsPieces(line: string)
    ensures Folded(line) + "\r\n" == Flat(Pieces(line))
  {
    if |line| <= 75 {
      assert Flat([line]) == line + "\r\n" + Flat([]);
    } else {
      var h, rest := line[..LIMIT], line[LIMIT..];
      hide FoldRest, RestPieces, Flat;
      FoldRestIsPieces(rest);
      FlatFirst(h, RestPieces(rest));
      assert Folded(line) + "\r\n" == h + (FoldRest(rest) + "\r\n");
      assert h + ("\r\n" + Flat(RestPieces(rest))) == h + "\r\n" + Flat(RestPieces(rest));
    }
  }

  lemma FlatFirst(h: string, more: seq<string>)
    ensures Flat([h] + more) == h + "\r\n" + Flat(more)
  {
    assert ([h] + more)[1..] == more;
  }

  lemma {:induction false} TextIsPieces(lines: seq<string>)
    ensures ObjectText(lines) == Flat(AllPieces(lines))
  {
    if lines != [] {
      FoldedIsPieces(lines[0]);
      TextIsPieces(lines[1..]);
      FlatConcat(Pieces(lines[0]), AllPieces(lines[1..]));
    }
  }

  // ---------- reading lines back ----------

  lemma {:induction false} BreaksAfterPlain(p: string, rest: string)
    requires '\n' !in p
    ensures UnixBreaks(p + "\r\n" + rest) == p + "\n" + UnixBreaks(rest)
  {
    var s := p + "\r\n" + rest;
    if p == "" {
      assert s[2..] == rest;
    } else {
      assert s[0] == p[0] && s[1..] == p[1..] + "\r\n" + rest;
      BreaksAfterPlain(p[1..], rest);
    }
  }

  lemma {:induction false} SplitAfterPlain(p: string, rest: string)
    requires '\n' !in p
    ensures SplitOn(p + "\n" + rest, '\n') == [p] + SplitOn(rest, '\n')
  {
    var s := p + "\n" + rest;
    if p == "" {
      assert s[1..] == rest;
    } else {
      assert s[0] == p[0] && s[1..] == p[1..] + "\n" + rest;
      SplitAfterPlain(p[1..], rest);
      assert [p[0]] + p[1..] == p;
    }
  }

  /** Terminated lines come back in order, followed by the empty string after the last CRLF. */
  lemma {:induction false} RawLinesOfFlat(lines: seq<string>)
    requires forall p :: p in lines ==> '\n' !in p
    ensures RawLines(Flat(lines)) == lines + [""]
  {
    if lines != [] {
      BreaksAfterPlain(lines[0], Flat(lines[1..]));
      SplitAfterPlain(lines[0], UnixBreaks(Flat(lines[1..])));
      RawLinesOfFlat(lines[1..]);
      assert lines == [lines[0]] + lines[1..];
    }
  }

  predicate IsContinuation(ln: string) {
    ln != "" && (ln[0] == ' ' || ln[0] == '\t')
  }

  /** One physical line: dropped when empty, appended to the last content line, or a new one. */
  function JoinOne(out: seq<string>, ln: string): seq<string> {
    if ln == "" then out
    else if IsContinuation(ln) && |out| > 0 then out[|out| - 1 := out[|out| - 1] + ln[1..]]
    else out + [ln]
  }

  /** Joining physical lines into content lines, left to right. */
  function Joined(out: seq<string>, raw: seq<string>): seq<string>
    decreases |raw|
  {
    if raw == [] then out else Joined(JoinOne(out, raw[0]), raw[1..])
  }

  function Unfolded(data: string): seq<string> {
    Joined([], RawLines(data))
  }

  method Unfold(data: string) returns (out: seq<string>)
    ensures out == Unfolded(data)
  {
    var raw := RawLines(data);
    out := [];
    for i := 0 to |raw|
      invariant Joined(out, raw[i..]) == Unfolded(data)
    {
      assert raw[i..][1..] == raw[i + 1..];
      var ln := raw[i];
      if ln == "" {
        continue;
      }
      if (ln[0] == ' ' || ln[0] == '\t') && |out| > 0 {
        out := out[|out| - 1 := out[|out| - 1] + ln[1..]];
        continue;
      }
      out := out + [ln];
    }
  }

  /** What the printer emits: non-empty, no CR or LF, not starting like a continuation. */
  predicate ContentLine(line: string) {
    line != "" && Plain(line) && !IsContinuation(line)
  }

  lemma {:induction false} JoinedConcat(out: seq<string>, a: seq<string>, b: seq<string>)
    ensures Joined(out, a + b) == Joined(Joined(out, a), b)
    decreases |a|
  {
    if a == [] {
      assert a + b == b;
    } else {
      assert (a + b)[1..] == a[1..] + b;
      JoinedConcat(JoinOne(out, a[0]), a[1..], b);
    }
  }

  lemma {:induction false} JoinRestPieces(done: seq<string>, line: string, rest: string)
    ensures Joined(done + [line], RestPieces(rest)) == done + [line + rest]
    decreases |rest|
  {
    if rest == "" {
      assert line + "" == line;
    } else {
      var n := if |rest| < LIMIT then |rest| else LIMIT;
      var piece, more := " " + rest[..n], RestPieces(rest[n..]);
      assert piece[1..] == rest[..n];
      assert JoinOne(done + [line], piece) == done + [line + rest[..n]];
      assert ([piece] + more)[1..] == more;
      JoinRestPieces(done, line + rest[..n], rest[n..]);
      assert line + rest[..n] + rest[n..] == line + rest;
    }
  }

  lemma JoinPieces(done: seq<string>, line: string)
    requires ContentLine(line)
    ensures Joined(done, Pieces(line)) == done + [line]
  {
    if |line| <= 75 {
      assert [line][1..] == [];
    } else {
      var h, rest := line[..LIMIT], line[LIMIT..];
      assert Pieces(line)[1..] == RestPieces(rest);
      JoinRestPieces(done, h, rest);
      assert h + rest == line;
    }
  }

  lemma FirstPieces(lines: seq<string>)
    requires lines != []
    ensures AllPieces(lines) == Pieces(lines[0]) + AllPieces(lines[1..])
    ensures lines[0] in lines && forall l :: l in lines[1..] ==> l in lines
  {
    hide Pieces;
  }

  lemma OneBefore(done: seq<string>, lines: seq<string>)
    requires lines != []
    ensures done + [lines[0]] + lines[1..] == done + lines
  {
  }

  lemma {:induction false} JoinAllPieces(done: seq<string>, lines: seq<string>)
    requires forall l :: l in lines ==> ContentLine(l)
    ensures Joined(done, AllPieces(lines)) == done + lines
    decreases |lines|
  {
    if lines == [] {
      assert done + lines == done;
    } else {
      var l, more := lines[0], lines[1..];
      FirstPieces(lines);
      hide *;
      JoinedConcat(done, Pieces(l), AllPieces(more));
      JoinPieces(done, l);
      JoinAllPieces(done + [l], more);
      OneBefore(done, lines);
    }
  }

  lemma {:induction false} RestPiecesFit(rest: string)
    requires Plain(rest)
    ensures forall p :: p in RestPieces(rest) ==> Plain(p) && IsContinuation(p) && |p| <= 75
  {
    if rest != "" {
      var n := if |rest| < LIMIT then |rest| else LIMIT;
      RestPiecesFit(rest[n..]);
    }
  }

  /** Folding leaves plain physical lines of at most 75 octets, all but the first continuations. */
  lemma PiecesFit(line: string)
    requires ContentLine(line)
    ensures forall p :: p in Pieces(line) ==> Plain(p) && p != "" && |p| <= 75
    ensures !IsContinuation(Pieces(line)[0])
    ensures forall i :: 0 < i < |Pieces(line)| ==> IsContinuation(Pieces(line)[i])
  {
    if |line| > 75 {
      RestPiecesFit(line[LIMIT..]);
      assert forall i :: 0 < i < |Pieces(line)| ==> Pieces(line)[i] in RestPieces(line[LIMIT..]);
    }
  }

  lemma {:induction false} AllPiecesFit(lines: seq<string>)
    requires forall l :: l in lines ==> ContentLine(l)
    ensures forall p :: p in AllPieces(lines) ==> Plain(p) && p != "" && |p| <= 75
  {
    if lines != [] {
      PiecesFit(lines[0]);
      AllPiecesFit(lines[1..]);
    }
  }

  /**
   Fold and unfold are inverse on any list of content lines, and no physical line of the
   folded text exceeds 75 octets.
   */
  lemma FoldUnfoldInverse(lines: seq<string>)
    requires forall l :: l in lines ==> ContentLine(l)
    ensures Unfolded(ObjectText(lines)) == lines
    ensures forall p :: p in RawLines(ObjectText(lines)) ==> |p| <= 75
  {
    var pieces := AllPieces(lines);
    TextIsPieces(lines);
    AllPiecesFit(lines);
    RawLinesOfFlat(pieces);
    JoinAllPieces([], lines);
    JoinedConcat([], pieces, [""]);
    assert [""][1..] == [];
    assert [] + lines == lines;
  }

  // ---------- text values ----------

  /** The escaped form of a TEXT value: backslash, semicolon, comma and every line break. */
  function Escaped(s: string): string {
    if s == "" then ""
    else if s[0] == '\\' then "\\\\" + Escaped(s[1..])
    else if s[0] == ';' then "\\;" + Escaped(s[1..])
    else if s[0] == ',' then "\\," + Escaped(s[1..])
    else if |s| >= 2 && s[0] == '\r' && s[1] == '\n' then "\\n" + Escaped(s[2..])
    else if s[0] == '\n' || s[0] == '\r' then "\\n" + Escaped(s[1..])
    else [s[0]] + Escaped(s[1..])
  }

  /** How a reader decodes a TEXT value (section 3.3.11 of RFC 5545). */
  function Unescaped(s: string): string {
    if s == "" then ""
    else if s[0] == '\\' && |s| >= 2 then
      [if s[1] == 'n' || s[1] == 'N' then '\n' else s[1]] + Unescaped(s[2..])
    else [s[0]] + Unescaped(s[1..])
  }

  /** The text with every line break written as LF. */
  function LineFeeds(s: string): string {
    if s == "" then ""
    else if |s| >= 2 && s[0] == '\r' && s[1] == '\n' then "\n" + LineFeeds(s[2..])
    else [if s[0] == '\r' then '\n' else s[0]] + LineFeeds(s[1..])
  }

  lemma {:induction false} EscapedIsPlain(s: string)
    ensures Plain(Escaped(s))
  {
    if s != "" {
      EscapedIsPlain(s[1..]);
      if |s| >= 2 {
        EscapedIsPlain(s[2..]);
      }
    }
  }

  /** Escaping loses nothing but the spelling of line breaks. */
  lemma {:induction false} EscapeDecodes(s: string)
    ensures Unescaped(Escaped(s)) == LineFeeds(s)
  {
    if s != "" {
      EscapeDecodes(s[1..]);
      if |s| >= 2 {
        EscapeDecodes(s[2..]);
      }
      var e := Escaped(s);
      if s[0] in "\\;,\r\n" {
        assert e[2..] == Escaped(if |s| >= 2 && s[0] == '\r' && s[1] == '\n' then s[2..] else s[1..]);
      } else {
        assert e[1..] == Escaped(s[1..]);
      }
    }
  }

  // ---------- numbers ----------

  const TWO63: int := 0x8000_0000_0000_0000

  /** Two's complement wrap-around of Go's 64-bit int. */
  function Wrap64(x: int): int {
    (x + TWO63) % (2 * TWO63) - TWO63
  }

  function Decimal(n: nat): string {
    (if n < 10 then "" else Decimal(n / 10)) + ['0' + (n % 10) as char]
  }

  /** fmt's %d. */
  function Dec(n: int): string {
    if n < 0 then "-" + Decimal(-n) else Decimal(n)
  }

  /** The leading digits read as a number, starting from n, in wrapping arithmetic. */
  function ReadInt(s: string, n: int): int {
    if s == "" || !IsDigit(s[0]) then n else ReadInt(s[1..], Wrap64(n * 10 + (s[0] as int - '0' as int)))
  }

  method Atoi(s: string) returns (n: int)
    ensures n == ReadInt(s, 0)
  {
    n := 0;
    for i := 0 to |s|
      invariant ReadInt(s[i..], n) == ReadInt(s, 0)
    {
      if !IsDigit(s[i]) {
        return;
      }
      assert s[i..][1..] == s[i + 1..];
      n := Wrap64(n * 10 + (s[i] as int - '0' as int));
    }
  }

  predicate AllDigits(s: string) {
    forall i :: 0 <= i < |s| ==> IsDigit(s[i])
  }

  lemma {:induction false} ReadIntConcat(a: string, b: string, n: int)
    requires AllDigits(a)
    ensures ReadInt(a + b, n) == ReadInt(b, ReadInt(a, n))
  {
    if a == "" {
      assert a + b == b;
    } else {
      assert (a + b)[1..] == a[1..] + b;
      ReadIntConcat(a[1..], b, Wrap64(n * 10 + (a[0] as int - '0' as int)));
    }
  }

  // ---------- wrapping arithmetic ----------

  lemma WrapShifts(x: int, k: int)
    ensures Wrap64(x + k * (2 * TWO63)) == Wrap64(x)
  {
    assert (x + k * (2 * TWO63) + TWO63) % (2 * TWO63) == (x + TWO63) % (2 * TWO63);
  }

  /** How far x is from its wrapped value, in multiples of 2^64. */
  function Turns(x: int): int {
    (x + TWO63) / (2 * TWO63)
  }

  lemma WrapTurns(x: int)
    ensures x == Wrap64(x) + Turns(x) * (2 * TWO63)
  {
  }

  lemma WrapPlus(x: int, y: int)
    ensures Wrap64(Wrap64(x) + Wrap64(y)) == Wrap64(x + y)
  {
    WrapTurns(x);
    WrapTurns(y);
    WrapShifts(Wrap64(x) + Wrap64(y), Turns(x) + Turns(y));
  }

  lemma WrapTimes(x: int, n: int)
    ensures Wrap64(Wrap64(x) * n) == Wrap64(x * n)
  {
    WrapTurns(x);
    var w, t := Wrap64(x), Turns(x);
    assert x * n == w * n + t * n * (2 * TWO63);
    WrapShifts(w * n, t * n);
  }

  lemma WrapMinus(x: int)
    ensures Wrap64(-Wrap64(x)) == Wrap64(0 - x)
  {
    WrapTurns(x);
    WrapShifts(-Wrap64(x), -Turns(x));
  }

  /** Any printed number reads back modulo 2^64. */
  lemma {:induction false} DecimalReadsWrapped(n: nat)
    ensures AllDigits(Decimal(n)) && Decimal(n) != ""
    ensures ReadInt(Decimal(n), 0) == Wrap64(n)
  {
    if n < 10 {
      DigitIsAppended(0, n);
    } else {
      var front, digit := n / 10, n % 10;
      DecimalReadsWrapped(front);
      DigitIsAppended(Wrap64(front), digit);
      assert Decimal(n) == Decimal(front) + ['0' + digit as char];
      hide Decimal, ReadInt, Wrap64;
      ReadIntConcat(Decimal(front), ['0' + digit as char], 0);
      WrapAppends(front, digit);
    }
  }

  lemma WrapAppends(n: int, digit: nat)
    ensures Wrap64(Wrap64(n) * 10 + digit) == Wrap64(n * 10 + digit)
  {
    WrapTurns(n);
    WrapShifts(Wrap64(n) * 10 + digit, Turns(n) * 10);
  }

  lemma DigitIsAppended(n: int, digit: nat)
    requires digit < 10
    ensures ReadInt(['0' + digit as char], n) == Wrap64(n * 10 + digit)
  {
    var last := ['0' + digit as char];
    assert last[1..] == "";
    assert ReadInt(last, n) == ReadInt("", Wrap64(n * 10 + digit));
  }

  /** Printing and reading back a number that fits the integer type. */
  lemma DecimalReadsBack(n: nat)
    requires n < TWO63
    ensures AllDigits(Decimal(n)) && Decimal(n) != ""
    ensures ReadInt(Decimal(n), 0) == n
  {
    DecimalReadsWrapped(n);
    hide Decimal, ReadInt;
  }

  lemma {:induction false} DecimalIsDigits(n: nat)
    ensures AllDigits(Decimal(n)) && Decimal(n) != ""
  {
    if n >= 10 {
      DecimalIsDigits(n / 10);
    }
  }
}
