/**
 Reading stored timestamps back: a row's text is parsed to the instant it was written for.
 */
module StoredTimes {
  import opened CalendarObjects
  import opened CalendarRoundTrip
  import opened ContentLines
  import opened Options
  import opened Timestamps

  /** The RFC 3339 layout of a UTC instant: digits and marks in their places. */
  predicate Layout(s: string) {
    && |s| >= 20 && s[4] == '-' && s[7] == '-' && s[10] == 'T' && s[13] == ':' && s[16] == ':' && s[|s| - 1] == 'Z'
    && AllDigits(s[..4]) && AllDigits(s[5..7]) && AllDigits(s[8..10])
    && AllDigits(s[11..13]) && AllDigits(s[14..16]) && AllDigits(s[17..19])
  }

  /** How the rows are read: the fields, and the fraction of the second if there is one. */
  function ParseStored(s: string): Option<Time> {
    if !Layout(s) then None
    else
      var fraction := ParseFraction(s[19..|s| - 1]);
      if fraction.None? then None
      else Civil(Number(s[..4]), Number(s[5..7]), Number(s[8..10]),
                 Number(s[11..13]), Number(s[14..16]), Number(s[17..19]), fraction.value)
  }

  /** The trimmed fraction, read with zeros behind it. */
  lemma FractionReads(t: Time)
    ensures var s := Suffix(t); s != "" && s[|s| - 1] == 'Z' && ParseFraction(s[..|s| - 1]) == Some(t.nanos)
  {
    var f := Fraction(t);
    if f == "" {
      WholeSecondHasNoFraction(t.(nanos := 0));
      SameFractionSameNanos(t, t.(nanos := 0));
      assert Suffix(t)[..0] == "";
    } else {
      var s := Suffix(t);
      assert s[..|s| - 1] == "." + f;
      FractionDigits(t);
    }
  }

  lemma FractionDigits(t: Time)
    requires Fraction(t) != ""
    ensures ParseFraction("." + Fraction(t)) == Some(t.nanos)
  {
    assert Pow10(9) == 1_000_000_000;
    NumberOfPad(t.nanos, 9);
    var p, f := Pad(t.nanos, 9), Fraction(t);
    TrimmedIsPrefix(p);
    FractionShape(t);
    hide Pad, Number, TrimZeros, Fraction;
    assert ("." + f)[1..] == f;
    assert (f + "000000000")[..9] == p;
  }

  lemma SecondsRead(t: Time, rest: string)
    ensures var s := ToTheSecond(t) + rest;
            && |ToTheSecond(t)| == 19 && s[19..] == rest
            && s[4] == '-' && s[7] == '-' && s[10] == 'T' && s[13] == ':' && s[16] == ':'
            && s[..4] == Pad(t.year, 4) && s[5..7] == Pad(t.month, 2) && s[8..10] == Pad(t.day, 2)
            && s[11..13] == Pad(t.hour, 2) && s[14..16] == Pad(t.minute, 2) && s[17..19] == Pad(t.second, 2)
  {
    hide Pad;
  }

  /** A stored timestamp is read back as the instant it was written for. */
  lemma StoredReads(t: Time)
    ensures ParseStored(Render(t)) == Some(t)
  {
    hide Pad, ToTheSecond, Suffix, ParseFraction, Number, AllDigits;
    var s := Render(t);
    SecondsRead(t, Suffix(t));
    FractionReads(t);
    FieldsRead(t);
    var tail := Suffix(t);
    assert s[19..|s| - 1] == tail[..|tail| - 1];
    assert s[|s| - 1] == tail[|tail| - 1];
  }

  lemma FieldsRead(t: Time)
    ensures AllDigits(Pad(t.year, 4)) && Number(Pad(t.year, 4)) == t.year
    ensures AllDigits(Pad(t.month, 2)) && Number(Pad(t.month, 2)) == t.month
    ensures AllDigits(Pad(t.day, 2)) && Number(Pad(t.day, 2)) == t.day
    ensures AllDigits(Pad(t.hour, 2)) && Number(Pad(t.hour, 2)) == t.hour
    ensures AllDigits(Pad(t.minute, 2)) && Number(Pad(t.minute, 2)) == t.minute
    ensures AllDigits(Pad(t.second, 2)) && Number(Pad(t.second, 2)) == t.second
  {
    assert Pow10(4) == 10000;
    NumberOfPad(t.year, 4);
    TwoDigits(t.month);
    TwoDigits(t.day);
    TwoDigits(t.hour);
    TwoDigits(t.minute);
    TwoDigits(t.second);
    hide Pad, Number;
  }
}
