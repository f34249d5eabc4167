/**
 Durations read from calendar objects: every well-formed duration whose total fits 64 bits of
 nanoseconds reads as the sum of its parts.
 */
module CalendarDurations {
  import opened CalendarObjects
  import opened CalendarRoundTrip
  import opened ContentLines
  import opened Options

  datatype Part = Part(count: nat, unit: char)

  function Text(parts: seq<Part>): string {
    if parts == [] then "" else Dec(parts[0].count) + [parts[0].unit] + Text(parts[1..])
  }

  predicate KnownUnits(parts: seq<Part>) {
    forall p :: p in parts ==> p.unit in "WDHMS"
  }

  /** Nanoseconds in one unit: a week to a second; an M before the T counts nothing. */
  function Weight(unit: char, inTime: bool): nat {
    if unit == 'W' then 604_800_000_000_000
    else if unit == 'D' then 86_400_000_000_000
    else if unit == 'H' then 3_600_000_000_000
    else if unit == 'M' && inTime then 60_000_000_000
    else if unit == 'S' then 1_000_000_000
    else 0
  }

  function Nanos(p: Part, inTime: bool): nat {
    p.count * Weight(p.unit, inTime)
  }

  function Sum(parts: seq<Part>, inTime: bool): nat {
    if parts == [] then 0 else Nanos(parts[0], inTime) + Sum(parts[1..], inTime)
  }

  lemma {:induction false} DigitsAreRead(digits: string, rest: string, inTime: bool, num: string, total: int)
    requires AllDigits(digits)
    ensures DurationFrom(digits + rest, inTime, num, total) == DurationFrom(rest, inTime, num + digits, total)
    decreases |digits|
  {
    if digits == "" {
      assert digits + rest == rest && num + digits == num;
    } else {
      assert (digits + rest)[1..] == digits[1..] + rest;
      assert num + [digits[0]] + digits[1..] == num + digits;
      DigitsAreRead(digits[1..], rest, inTime, num + [digits[0]], total);
    }
  }

  lemma UnitIsRead(unit: char, rest: string, inTime: bool, num: string, total: int)
    requires unit in "WDHMS"
    ensures DurationFrom([unit] + rest, inTime, num, total) ==
            DurationFrom(rest, inTime, "", Wrap64(total + Wrap64(ReadInt(num, 0) * Weight(unit, inTime))))
  {
    assert ([unit] + rest)[1..] == rest;
    hide Wrap64, ReadInt;
  }

  lemma NoWrap(x: int)
    requires -TWO63 <= x < TWO63
    ensures Wrap64(x) == x
  {
  }

  /** However large the count or the running total, the part adds its nanoseconds modulo 2^64. */
  lemma PartIsRead(p: Part, rest: string, inTime: bool, x: int)
    requires p.unit in "WDHMS"
    ensures DurationFrom(Dec(p.count) + [p.unit] + rest, inTime, "", Wrap64(x)) ==
            DurationFrom(rest, inTime, "", Wrap64(x + Nanos(p, inTime)))
  {
    DecimalReadsWrapped(p.count);
    var digits := Dec(p.count);
    assert digits == Decimal(p.count) && "" + digits == digits;
    var w := Weight(p.unit, inTime);
    assert Nanos(p, inTime) == p.count * w;
    hide *;
    assert digits + [p.unit] + rest == digits + ([p.unit] + rest);
    DigitsAreRead(digits, [p.unit] + rest, inTime, "", Wrap64(x));
    UnitIsRead(p.unit, rest, inTime, digits, Wrap64(x));
    WrapTimes(p.count, w);
    WrapPlus(x, p.count * w);
  }

  lemma FirstPart(parts: seq<Part>, inTime: bool)
    requires parts != [] && KnownUnits(parts)
    ensures var p, more := parts[0], parts[1..];
            && p.unit in "WDHMS" && KnownUnits(more)
            && Sum(parts, inTime) == Nanos(p, inTime) + Sum(more, inTime)
            && Text(parts) == Dec(p.count) + [p.unit] + Text(more)
  {
    hide Nanos, Dec;
    assert parts[0] in parts;
  }

  lemma {:induction false} PartsAreRead(parts: seq<Part>, rest: string, inTime: bool, x: int)
    requires KnownUnits(parts)
    ensures DurationFrom(Text(parts) + rest, inTime, "", Wrap64(x)) ==
            DurationFrom(rest, inTime, "", Wrap64(x + Sum(parts, inTime)))
    decreases |parts|
  {
    hide Wrap64, DurationFrom, Nanos, Dec;
    if parts == [] {
      assert "" + rest == rest;
    } else {
      var p, more := parts[0], parts[1..];
      FirstPart(parts, inTime);
      hide *;
      assert Text(parts) + rest == Dec(p.count) + [p.unit] + (Text(more) + rest);
      PartIsRead(p, Text(more) + rest, inTime, x);
      PartsAreRead(more, rest, inTime, x + Nanos(p, inTime));
    }
  }

  /** The parts of a time, behind a T if there are any. */
  function ClockText(clock: seq<Part>): string {
    if clock == [] then "" else "T" + Text(clock)
  }

  /** "P" with the parts of the date and of the time, and an optional sign. */
  function Spelled(sign: string, days: seq<Part>, clock: seq<Part>): string {
    sign + "P" + Text(days) + ClockText(clock)
  }

  lemma ClockIsRead(clock: seq<Part>, x: int)
    requires KnownUnits(clock)
    ensures DurationFrom(ClockText(clock), false, "", Wrap64(x)) == Some(Wrap64(x + Sum(clock, true)))
  {
    hide DurationFrom, Text, Sum, KnownUnits, Wrap64;
    if clock == [] {
      NoParts(true);
      NothingFollows(false, Wrap64(x));
    } else {
      var c := Text(clock);
      ClockFollows(c, Wrap64(x));
      NothingFollows(true, Wrap64(x + Sum(clock, true)));
      PartsAreRead(clock, "", true, x);
      assert c + "" == c;
    }
  }

  lemma ClockFollows(c: string, total: int)
    ensures DurationFrom("T" + c, false, "", total) == DurationFrom(c, true, "", total)
  {
    assert ("T" + c)[1..] == c;
  }

  lemma NothingFollows(inTime: bool, total: int)
    ensures DurationFrom("", inTime, "", total) == Some(total)
  {
  }

  lemma NoParts(inTime: bool)
    ensures Text([]) == "" && Sum([], inTime) == 0
  {
  }

  lemma SignIsRead(sign: string, body: string, x: int)
    requires sign in ["", "+", "-"] && DurationFrom(body, false, "", 0) == Some(Wrap64(x))
    requires TrimSpace(sign + "P" + body) == sign + "P" + body
    ensures ParseDuration(sign + "P" + body) == Some(Wrap64(if sign == "-" then 0 - x else x))
  {
    hide TrimSpace, DurationFrom, Wrap64;
    WrapMinus(x);
    var s := sign + "P" + body;
    if sign == "" {
      assert s == "P" + body && s[1..] == body;
    } else {
      assert s[1..] == "P" + body && s[1..][1..] == body && s[0] == sign[0];
    }
  }

  lemma SpelledParts(sign: string, days: seq<Part>, clock: seq<Part>)
    ensures Spelled(sign, days, clock) == sign + "P" + (Text(days) + ClockText(clock))
  {
  }

  lemma BodyIsRead(days: seq<Part>, clock: seq<Part>)
    requires KnownUnits(days) && KnownUnits(clock)
    ensures DurationFrom(Text(days) + ClockText(clock), false, "", 0) ==
              Some(Wrap64(Sum(days, false) + Sum(clock, true)))
  {
    hide Wrap64, DurationFrom, Text, Sum, ClockText, KnownUnits;
    NoWrap(0);
    PartsAreRead(days, ClockText(clock), false, 0);
    ClockIsRead(clock, Sum(days, false));
  }

  lemma {:induction false} TextEndsInUnit(parts: seq<Part>)
    requires KnownUnits(parts) && parts != []
    ensures Text(parts) != "" && Text(parts)[|Text(parts)| - 1] in "WDHMS"
    decreases |parts|
  {
    assert parts[0].unit in "WDHMS";
    hide Dec;
    if |parts| > 1 {
      TextEndsInUnit(parts[1..]);
    }
  }

  lemma LastIsLast(a: string, b: string)
    requires b != ""
    ensures (a + b)[|a + b| - 1] == b[|b| - 1]
  {
  }

  lemma NothingAround(sign: string, days: seq<Part>, clock: seq<Part>)
    requires sign in ["", "+", "-"] && KnownUnits(days) && KnownUnits(clock)
    ensures TrimSpace(Spelled(sign, days, clock)) == Spelled(sign, days, clock)
  {
    var s := Spelled(sign, days, clock);
    var head := sign + "P";
    hide Text;
    assert s[0] == head[0];
    if clock != [] {
      TextEndsInUnit(clock);
      LastIsLast(head + Text(days) + "T", Text(clock));
      assert s == head + Text(days) + "T" + Text(clock);
    } else if days != [] {
      TextEndsInUnit(days);
      LastIsLast(head, Text(days));
      assert s == head + Text(days);
    } else {
      assert Text(days) == "" && s == head && s[|s| - 1] == 'P' by { NoParts(false); }
    }
    hide Spelled, ClockText, KnownUnits;
    NothingToTrim(s);
  }

  /**
   Every duration reads as the sum of its parts, negated behind a minus, in 64-bit wrapping nanoseconds:
   weeks to seconds each count their unit, and a month count (an M before the T) is ignored.
   */
  lemma DurationReadsWrapped(sign: string, days: seq<Part>, clock: seq<Part>)
    requires sign in ["", "+", "-"] && KnownUnits(days) && KnownUnits(clock)
    ensures var total: int := Sum(days, false) + Sum(clock, true);
            ParseDuration(Spelled(sign, days, clock)) == Some(Wrap64(if sign == "-" then 0 - total else total))
  {
    hide *;
    NothingAround(sign, days, clock);
    BodyIsRead(days, clock);
    SpelledParts(sign, days, clock);
    SignIsRead(sign, Text(days) + ClockText(clock), Sum(days, false) + Sum(clock, true));
  }

  /** So one whose sum fits reads as that sum. */
  lemma DurationReadsBack(sign: string, days: seq<Part>, clock: seq<Part>)
    requires sign in ["", "+", "-"] && KnownUnits(days) && KnownUnits(clock)
    requires Sum(days, false) + Sum(clock, true) < TWO63
    ensures var total: int := Sum(days, false) + Sum(clock, true);
            ParseDuration(Spelled(sign, days, clock)) == Some(if sign == "-" then 0 - total else total)
  {
    hide *;
    var total: int := Sum(days, false) + Sum(clock, true);
    NoWrap(total);
    NoWrap(0 - total);
    DurationReadsWrapped(sign, days, clock);
  }
}
