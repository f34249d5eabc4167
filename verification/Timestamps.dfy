/**
 UTC instants as the booking tables store them: rendered by Go's RFC3339Nano layout
 and compared by SQLite as plain text.

 The main result is `TextOrderIsChronological`, which says for which pairs of instants
 the text comparison agrees with the clock.
 */
module Timestamps {

  // ---------- instants ----------

  /** A UTC instant by its calendar fields. */
  datatype Stamp = Stamp(year: nat, month: nat, day: nat, hour: nat, minute: nat, second: nat, nanos: nat) {
    predicate Valid() {
      && year <= 9999
      && 1 <= month <= 12
      && 1 <= day <= DaysIn(year, month)
      && hour < 24 && minute < 60 && second < 60
      && nanos < 1_000_000_000
    }
  }

  type Time = s: Stamp | s.Valid() witness Stamp(0, 1, 1, 0, 0, 0, 0)

  predicate Leap(year: nat) {
    year % 4 == 0 && (year % 100 != 0 || year % 400 == 0)
  }

  function DaysIn(year: nat, month: nat): nat {
    if month == 2 then (if Leap(year) then 29 else 28)
    else if month in {4, 6, 9, 11} then 30 else 31
  }

  /** Days from 0000-01-01 to the first day of the year. */
  function DaysBeforeYear(year: nat): nat {
    if year == 0 then 0 else DaysBeforeYear(year - 1) + (if Leap(year - 1) then 366 else 365)
  }

  /** Days from the first day of the year to the first day of the month. */
  function DaysBeforeMonth(year: nat, month: nat): nat {
    if month <= 1 then 0 else DaysBeforeMonth(year, month - 1) + DaysIn(year, month - 1)
  }

  /** Whole days since 0000-01-01. */
  function DayNumber(t: Time): nat {
    DaysBeforeYear(t.year) + DaysBeforeMonth(t.year, t.month) + t.day - 1
  }

  /** Whole seconds since 0000-01-01T00:00:00Z. */
  function Seconds(t: Time): nat {
    ((DayNumber(t) * 24 + t.hour) * 60 + t.minute) * 60 + t.second
  }

  /** Nanoseconds since 0000-01-01T00:00:00Z: the instant itself. */
  function Instant(t: Time): nat {
    Seconds(t) * 1_000_000_000 + t.nanos
  }

  // ---------- text ----------

  function Digit(d: nat): char
    requires d < 10
  {
    '0' + d as char
  }

  /** The last `width` decimal digits of n, zero padded. */
  function Pad(n: nat, width: nat): (s: string)
    ensures |s| == width
  {
    if width == 0 then "" else Pad(n / 10, width - 1) + [Digit(n % 10)]
  }

  function TrimZeros(s: string): string {
    if s != "" && s[|s| - 1] == '0' then TrimZeros(s[..|s| - 1]) else s
  }

  /** The digits RFC3339Nano prints after the decimal point; none for a whole second. */
  function Fraction(t: Time): string {
    TrimZeros(Pad(t.nanos, 9))
  }

  function ToTheSecond(t: Time): string {
    Pad(t.year, 4) + ("-" + (Pad(t.month, 2) + ("-" + (Pad(t.day, 2) + ("T" +
      (Pad(t.hour, 2) + (":" + (Pad(t.minute, 2) + (":" + Pad(t.second, 2))))))))))
  }

  /** What follows the second: the fraction, if any, and the zone. */
  function Suffix(t: Time): string {
    if Fraction(t) == "" then "Z" else "." + Fraction(t) + "Z"
  }

  /** time.Format(time.RFC3339Nano) for a UTC time with a four-digit year. */
  function Render(t: Time): string {
    ToTheSecond(t) + Suffix(t)
  }

  /** SQLite's `<` on two TEXT values (BINARY collation). */
  predicate TextLess(a: string, b: string) {
    b != "" && (a == "" || a[0] < b[0] || (a[0] == b[0] && TextLess(a[1..], b[1..])))
  }

  /** `a < b` as the SQL in the booking service evaluates it on stored timestamps. */
  predicate Before(a: Time, b: Time) {
    TextLess(Render(a), Render(b))
  }

  /** In one second, the printed fraction of b extends that of a: the text misses that a comes first. */
  predicate Missed(a: Time, b: Time) {
    Seconds(a) == Seconds(b) && Fraction(a) < Fraction(b)
  }

  /** The pairs the text order gets wrong. */
  predicate Confusable(a: Time, b: Time) {
    Missed(a, b) || Missed(b, a)
  }

  // ---------- the clock side ----------

  lemma {:induction false} YearsAddUp(y: nat, z: nat)
    requires y < z
    ensures DaysBeforeYear(y) + (if Leap(y) then 366 else 365) <= DaysBeforeYear(z)
  {
    if y + 1 < z {
      YearsAddUp(y, z - 1);
    }
  }

  lemma {:induction false} MonthsAddUp(year: nat, m: nat, n: nat)
    requires 1 <= m < n <= 13
    ensures DaysBeforeMonth(year, m) + DaysIn(year, m) <= DaysBeforeMonth(year, n)
  {
    if m + 1 < n {
      MonthsAddUp(year, m, n - 1);
    }
  }

  /** The Gregorian count of days: 97 leap years in 400, the year 0 among them. */
  lemma {:induction false} DaysOfYears(year: nat)
    ensures DaysBeforeYear(year) == 365 * year + (year + 3) / 4 - (year + 99) / 100 + (year + 399) / 400
  {
    if year > 0 {
      var n := year - 1;
      DaysOfYears(n);
      FourthYear(n);
      HundredthYear(n);
      FourHundredthYear(n);
      CenturiesAreFourths(n);
    }
  }

  lemma FourthYear(n: nat)
    ensures (n + 4) / 4 == (n + 3) / 4 + if n % 4 == 0 then 1 else 0
  {
  }

  lemma HundredthYear(n: nat)
    ensures (n + 100) / 100 == (n + 99) / 100 + if n % 100 == 0 then 1 else 0
  {
    assert n == 100 * (n / 100) + n % 100;
  }

  lemma FourHundredthYear(n: nat)
    ensures (n + 400) / 400 == (n + 399) / 400 + if n % 400 == 0 then 1 else 0
  {
    assert n == 400 * (n / 400) + n % 400;
  }

  lemma CenturiesAreFourths(n: nat)
    ensures n % 400 == 0 ==> n % 100 == 0
    ensures n % 100 == 0 ==> n % 4 == 0
  {
    if n % 100 == 0 { assert n == 4 * (25 * (n / 100)); }
    if n % 400 == 0 { assert n == 100 * (4 * (n / 400)); }
  }

  lemma YearLength(year: nat)
    ensures DaysBeforeMonth(year, 13) == if Leap(year) then 366 else 365
  {
    var feb := DaysIn(year, 2);
    assert DaysBeforeMonth(year, 2) == 31;
    assert DaysBeforeMonth(year, 3) == 31 + feb;
    assert DaysBeforeMonth(year, 5) == 92 + feb;
    assert DaysBeforeMonth(year, 7) == 153 + feb;
    assert DaysBeforeMonth(year, 9) == 215 + feb;
    assert DaysBeforeMonth(year, 11) == 276 + feb;
  }

  /** Lexicographic order on (year, month, day). */
  predicate EarlierDay(a: Time, b: Time) {
    a.year < b.year || (a.year == b.year && (a.month < b.month || (a.month == b.month && a.day < b.day)))
  }

  lemma EarlierDayIsSmaller(a: Time, b: Time)
    requires EarlierDay(a, b)
    ensures DayNumber(a) < DayNumber(b)
  {
    if a.year < b.year {
      YearsAddUp(a.year, b.year);
      YearLength(a.year);
      MonthsAddUp(a.year, a.month, 13);
    } else if a.month < b.month {
      MonthsAddUp(a.year, a.month, b.month);
    }
  }

  /** Lexicographic order on the six fields down to the second. */
  predicate EarlierSecond(a: Time, b: Time) {
    || EarlierDay(a, b)
    || (a.year == b.year && a.month == b.month && a.day == b.day &&
        (a.hour < b.hour || (a.hour == b.hour &&
         (a.minute < b.minute || (a.minute == b.minute && a.second < b.second)))))
  }

  /** The dates follow one another. */
  predicate NextDay(a: Time, b: Time) {
    || (b.year == a.year && b.month == a.month && b.day == a.day + 1)
    || (b.year == a.year && b.month == a.month + 1 && a.day == DaysIn(a.year, a.month) && b.day == 1)
    || (b.year == a.year + 1 && a.month == 12 && a.day == 31 && b.month == 1 && b.day == 1)
  }

  /** How far apart two instants of one day are, and of two successive days. */
  lemma InstantsOfDays(a: Time, b: Time)
    ensures a.year == b.year && a.month == b.month && a.day == b.day ==>
              Instant(b) - Instant(a) == ClockNanos(b) - ClockNanos(a)
    ensures NextDay(a, b) ==> Instant(b) - Instant(a) == ClockNanos(b) - ClockNanos(a) + 24 * 3_600_000_000_000
  {
    if NextDay(a, b) && b.year == a.year + 1 {
      YearLength(a.year);
      assert DaysBeforeMonth(b.year, 1) == 0;
      assert DaysBeforeMonth(a.year, 13) == DaysBeforeMonth(a.year, 12) + 31;
    }
  }

  /** Nanoseconds since midnight. */
  function ClockNanos(t: Time): int {
    t.hour * 3_600_000_000_000 + t.minute * 60_000_000_000 + t.second * 1_000_000_000 + t.nanos
  }

  lemma SecondsFollowFields(a: Time, b: Time)
    ensures Seconds(a) < Seconds(b) <==> EarlierSecond(a, b)
    ensures Seconds(a) == Seconds(b) <==> a.(nanos := 0) == b.(nanos := 0)
  {
    if EarlierDay(a, b) {
      EarlierDayIsSmaller(a, b);
    } else if EarlierDay(b, a) {
      EarlierDayIsSmaller(b, a);
    }
  }

  // ---------- the text side ----------

  lemma {:induction false} CommonPrefix(p: string, a: string, b: string)
    ensures TextLess(p + a, p + b) == TextLess(a, b)
  {
    if p == "" {
      assert p + a == a && p + b == b;
    } else {
      assert (p + a)[1..] == p[1..] + a && (p + b)[1..] == p[1..] + b;
      CommonPrefix(p[1..], a, b);
    }
  }

  lemma PrefixBehindSameHead(a: string, b: string)
    requires a != "" && b != "" && a[0] == b[0]
    ensures a <= b <==> a[1..] <= b[1..]
  {
    assert a == [a[0]] + a[1..] && b == [b[0]] + b[1..];
  }

  /** Once neither string is a prefix of the other, what follows cannot matter. */
  lemma {:induction false} DecidedEarly(a: string, b: string, x: string, y: string)
    requires !(a <= b) && !(b <= a)
    ensures TextLess(a + x, b + y) == TextLess(a, b)
  {
    assert a != "" && b != "";
    if a[0] == b[0] {
      assert (a + x)[1..] == a[1..] + x && (b + y)[1..] == b[1..] + y;
      PrefixBehindSameHead(a, b);
      PrefixBehindSameHead(b, a);
      DecidedEarly(a[1..], b[1..], x, y);
    }
  }

  /** Two strings with equally long heads compare by the heads, then by the tails. */
  lemma HeadThenTail(h: string, g: string, x: string, y: string)
    requires |h| == |g|
    ensures TextLess(h + x, g + y) == if h == g then TextLess(x, y) else TextLess(h, g)
  {
    if h == g {
      CommonPrefix(h, x, y);
    } else {
      DecidedEarly(h, g, x, y);
    }
  }

  function Pow10(k: nat): nat {
    if k == 0 then 1 else 10 * Pow10(k - 1)
  }

  lemma {:induction false} PadKeepsOrder(m: nat, n: nat, w: nat)
    requires m < Pow10(w) && n < Pow10(w)
    ensures TextLess(Pad(m, w), Pad(n, w)) == (m < n)
    ensures Pad(m, w) == Pad(n, w) <==> m == n
  {
    if w > 0 {
      var mh, nh := m / 10, n / 10;
      assert m == 10 * mh + m % 10 && n == 10 * nh + n % 10;
      PadKeepsOrder(mh, nh, w - 1);
      var md, nd := [Digit(m % 10)], [Digit(n % 10)];
      HeadThenTail(Pad(mh, w - 1), Pad(nh, w - 1), md, nd);
      if Pad(m, w) == Pad(n, w) {
        assert Pad(m, w)[..w - 1] == Pad(mh, w - 1) && Pad(n, w)[..w - 1] == Pad(nh, w - 1);
        assert Pad(m, w)[w - 1] == md[0] && Pad(n, w)[w - 1] == nd[0];
      }
    }
  }

  lemma Pad2(m: nat, n: nat, x: string, y: string)
    requires m < 100 && n < 100
    ensures TextLess(Pad(m, 2) + x, Pad(n, 2) + y) == (m < n || (m == n && TextLess(x, y)))
    ensures Pad(m, 2) + x == Pad(n, 2) + y <==> m == n && x == y
  {
    assert Pow10(2) == 100;
    PadKeepsOrder(m, n, 2);
    HeadThenTail(Pad(m, 2), Pad(n, 2), x, y);
    SplitEqual(Pad(m, 2), Pad(n, 2), x, y);
  }

  lemma SplitEqual(h: string, g: string, x: string, y: string)
    requires |h| == |g|
    ensures h + x == g + y <==> h == g && x == y
  {
    if h + x == g + y {
      assert h == (h + x)[..|h|] && x == (h + x)[|h|..];
      assert g == (g + y)[..|g|] && y == (g + y)[|g|..];
    }
  }

  lemma Mark(c: string, x: string, y: string)
    requires |c| == 1
    ensures TextLess(c + x, c + y) == TextLess(x, y)
    ensures c + x == c + y <==> x == y
  {
    CommonPrefix(c, x, y);
    SplitEqual(c, c, x, y);
  }

  lemma ClockTextOrder(a: Time, b: Time)
    ensures ClockText(a) == ClockText(b) <==> a.hour == b.hour && a.minute == b.minute && a.second == b.second
    ensures TextLess(ClockText(a), ClockText(b)) ==
            (a.hour < b.hour || (a.hour == b.hour &&
             (a.minute < b.minute || (a.minute == b.minute && a.second < b.second))))
  {
    var asec, bsec := Pad(a.second, 2), Pad(b.second, 2);
    Pad2(a.second, b.second, "", "");
    assert asec + "" == asec && bsec + "" == bsec;
    Mark(":", asec, bsec);
    var am, bm := ":" + asec, ":" + bsec;
    Pad2(a.minute, b.minute, am, bm);
    var an, bn := Pad(a.minute, 2) + am, Pad(b.minute, 2) + bm;
    Mark(":", an, bn);
    Pad2(a.hour, b.hour, ":" + an, ":" + bn);
  }

  function ClockText(t: Time): string {
    Pad(t.hour, 2) + (":" + (Pad(t.minute, 2) + (":" + Pad(t.second, 2))))
  }

  lemma SecondTextOrder(a: Time, b: Time)
    ensures |ToTheSecond(a)| == |ToTheSecond(b)|
    ensures ToTheSecond(a) == ToTheSecond(b) <==> a.(nanos := 0) == b.(nanos := 0)
    ensures TextLess(ToTheSecond(a), ToTheSecond(b)) == EarlierSecond(a, b)
  {
    ClockTextOrder(a, b);
    var at, bt := ClockText(a), ClockText(b);
    Mark("T", at, bt);
    Pad2(a.day, b.day, "T" + at, "T" + bt);
    var ad, bd := Pad(a.day, 2) + ("T" + at), Pad(b.day, 2) + ("T" + bt);
    Mark("-", ad, bd);
    Pad2(a.month, b.month, "-" + ad, "-" + bd);
    var am, bm := Pad(a.month, 2) + ("-" + ad), Pad(b.month, 2) + ("-" + bd);
    Mark("-", am, bm);
    assert Pow10(4) == 10000;
    PadKeepsOrder(a.year, b.year, 4);
    HeadThenTail(Pad(a.year, 4), Pad(b.year, 4), "-" + am, "-" + bm);
    SplitEqual(Pad(a.year, 4), Pad(b.year, 4), "-" + am, "-" + bm);
    assert ToTheSecond(a) == Pad(a.year, 4) + ("-" + am);
    assert ToTheSecond(b) == Pad(b.year, 4) + ("-" + bm);
  }

  // ---------- fractions ----------

  lemma {:induction false} TrimmedIsPrefix(s: string)
    ensures TrimZeros(s) <= s
    ensures forall i :: |TrimZeros(s)| <= i < |s| ==> s[i] == '0'
    ensures TrimZeros(s) != "" ==> TrimZeros(s)[|TrimZeros(s)| - 1] != '0'
  {
    if s != "" && s[|s| - 1] == '0' {
      TrimmedIsPrefix(s[..|s| - 1]);
    }
  }

  lemma {:induction false} PadIsDigits(n: nat, w: nat)
    ensures forall i :: 0 <= i < w ==> '0' <= Pad(n, w)[i] <= '9'
  {
    if w > 0 {
      PadIsDigits(n / 10, w - 1);
    }
  }

  lemma FractionShape(t: Time)
    ensures Fraction(t) <= Pad(t.nanos, 9)
    ensures forall c :: c in Fraction(t) ==> '0' <= c <= '9'
  {
    TrimmedIsPrefix(Pad(t.nanos, 9));
    PadIsDigits(t.nanos, 9);
  }

  lemma SameFractionSameNanos(a: Time, b: Time)
    requires Fraction(a) == Fraction(b)
    ensures a.nanos == b.nanos
  {
    var p, q := Pad(a.nanos, 9), Pad(b.nanos, 9);
    TrimmedIsPrefix(p);
    TrimmedIsPrefix(q);
    assert p == q by {
      forall i | 0 <= i < 9 ensures p[i] == q[i] {
        if i < |Fraction(a)| {
          assert p[i] == Fraction(a)[i] == q[i];
        }
      }
    }
    assert Pow10(9) == 1_000_000_000;
    PadKeepsOrder(a.nanos, b.nanos, 9);
  }

  lemma ShorterFractionIsEarlier(a: Time, b: Time)
    requires Fraction(a) < Fraction(b)
    ensures a.nanos < b.nanos
  {
    PadIsDigits(b.nanos, 9);
    ShorterTrimSortsFirst(Pad(a.nanos, 9), Pad(b.nanos, 9));
    assert Pow10(9) == 1_000_000_000;
    PadKeepsOrder(a.nanos, b.nanos, 9);
  }

  lemma ShorterTrimSortsFirst(p: string, q: string)
    requires |p| == |q|
    requires TrimZeros(p) < TrimZeros(q)
    requires forall i :: 0 <= i < |q| ==> '0' <= q[i]
    ensures TextLess(p, q)
  {
    TrimmedIsPrefix(p);
    TrimmedIsPrefix(q);
    var f, g := TrimZeros(p), TrimZeros(q);
    assert forall i :: 0 <= i < |f| ==> p[i] == f[i] == g[i] == q[i];
    ZerosComeFirst(p, q, |f|, |g| - 1);
  }

  /** Equal up to n, then only zeros on the left: smaller as soon as the right has a non-zero digit. */
  lemma {:induction false} ZerosComeFirst(z: string, d: string, n: nat, k: nat)
    requires |z| == |d| && n <= k < |d| && d[k] != '0'
    requires forall i :: 0 <= i < n ==> z[i] == d[i]
    requires forall i :: n <= i < |z| ==> z[i] == '0'
    requires forall i :: 0 <= i < |d| ==> '0' <= d[i]
    ensures TextLess(z, d)
  {
    if z[0] == d[0] {
      ZerosComeFirst(z[1..], d[1..], if n == 0 then 0 else n - 1, k - 1);
    }
  }

  /** Within one second: the printed fraction orders as the nanoseconds do unless one extends the other. */
  lemma SuffixOrder(a: Time, b: Time)
    ensures (TextLess(Suffix(a), Suffix(b)) == (a.nanos < b.nanos)) <==>
            !(Fraction(a) < Fraction(b) || Fraction(b) < Fraction(a))
  {
    var f, g := Fraction(a), Fraction(b);
    FractionShape(a);
    FractionShape(b);
    if f == g {
      SameFractionSameNanos(a, b);
      CommonPrefix(Suffix(a), "", "");
      assert Suffix(a) + "" == Suffix(a);
    } else if f < g {
      ShorterFractionIsEarlier(a, b);
      ExtensionSortsFirst(f, g);
    } else if g < f {
      ShorterFractionIsEarlier(b, a);
      ExtensionSortsFirst(g, f);
      NotBoth(Suffix(a), Suffix(b));
    } else {
      assert f != "" && g != "";
      assert Suffix(a) == "." + (f + "Z") && Suffix(b) == "." + (g + "Z");
      CommonPrefix(".", f + "Z", g + "Z");
      var p, q := Pad(a.nanos, 9), Pad(b.nanos, 9);
      DecidedEarly(f, g, "Z", "Z");
      DecidedEarly(f, g, p[|f|..], q[|g|..]);
      assert p == f + p[|f|..] && q == g + q[|g|..];
      assert Pow10(9) == 1_000_000_000;
      PadKeepsOrder(a.nanos, b.nanos, 9);
    }
  }

  lemma {:induction false} NotBoth(a: string, b: string)
    ensures !(TextLess(a, b) && TextLess(b, a))
  {
    if a != "" && b != "" && a[0] == b[0] {
      NotBoth(a[1..], b[1..]);
    }
  }

  /** 'Z' sorts after '.' and after every digit, so the longer fraction comes first as text. */
  lemma ExtensionSortsFirst(f: string, g: string)
    requires f < g
    requires forall c :: c in g ==> '0' <= c <= '9'
    ensures TextLess("." + g + "Z", if f == "" then "Z" else "." + f + "Z")
    ensures !TextLess(if f == "" then "Z" else "." + f + "Z", "." + g + "Z")
  {
    var long := "." + g + "Z";
    if f != "" {
      var short := "." + f + "Z";
      var p := "." + f;
      assert g == f + g[|f|..];
      assert short == p + "Z" && long == p + (g[|f|..] + "Z");
      CommonPrefix(p, g[|f|..] + "Z", "Z");
      CommonPrefix(p, "Z", g[|f|..] + "Z");
      assert g[|f|] in g;
    }
  }

  // ---------- results ----------

  /**
   The comparison `<` on stored timestamps is the order of the instants exactly when the two
   are not confusable, so in particular always across different seconds.
   */
  lemma TextOrderIsChronological(a: Time, b: Time)
    ensures (Before(a, b) == (Instant(a) < Instant(b))) <==> !Confusable(a, b)
  {
    SecondsFollowFields(a, b);
    SecondTextOrder(a, b);
    HeadThenTail(ToTheSecond(a), ToTheSecond(b), Suffix(a), Suffix(b));
    assert Render(a) == ToTheSecond(a) + Suffix(a) && Render(b) == ToTheSecond(b) + Suffix(b);
    if Seconds(a) == Seconds(b) {
      SuffixOrder(a, b);
    } else {
      SecondsFollowFields(b, a);
    }
  }

  /** Which way round it is wrong: an earlier time not seen as earlier, or a later one seen as earlier. */
  lemma MissedExactly(a: Time, b: Time)
    ensures Missed(a, b) <==> Instant(a) < Instant(b) && !Before(a, b)
    ensures Missed(b, a) <==> Instant(b) < Instant(a) && Before(a, b)
  {
    TextOrderIsChronological(a, b);
    if Missed(a, b) { ShorterFractionIsEarlier(a, b); }
    if Missed(b, a) { ShorterFractionIsEarlier(b, a); }
  }

  lemma {:induction false} TrimAllZeros(s: string)
    requires forall i :: 0 <= i < |s| ==> s[i] == '0'
    ensures TrimZeros(s) == ""
  {
    if s != "" {
      TrimAllZeros(s[..|s| - 1]);
    }
  }

  lemma {:induction false} PadZero(w: nat)
    ensures forall i :: 0 <= i < w ==> Pad(0, w)[i] == '0'
  {
    if w > 0 {
      PadZero(w - 1);
    }
  }

  lemma WholeSecondHasNoFraction(t: Time)
    ensures Fraction(t) == "" <==> t.nanos == 0
  {
    var whole := t.(nanos := 0);
    PadZero(9);
    TrimAllZeros(Pad(0, 9));
    if Fraction(t) == "" {
      SameFractionSameNanos(t, whole);
    }
  }

  /** On whole seconds, what the booking service stores, the text order is the clock's. */
  lemma WholeSecondsCompareExactly(a: Time, b: Time)
    requires a.nanos == 0 && b.nanos == 0
    ensures Before(a, b) <==> Instant(a) < Instant(b)
  {
    WholeSecondHasNoFraction(a);
    WholeSecondHasNoFraction(b);
    TextOrderIsChronological(a, b);
  }

  /** Half a second past is stored as text that sorts before the second itself. */
  lemma HalfSecondSortsBackwards()
    ensures var whole := Stamp(2026, 6, 15, 9, 30, 0, 0);
            var half := whole.(nanos := 500_000_000);
            Instant(whole) < Instant(half) && !Before(whole, half) && Before(half, whole)
  {
    var whole := Stamp(2026, 6, 15, 9, 30, 0, 0);
    var half := whole.(nanos := 500_000_000);
    WholeSecondHasNoFraction(whole);
    WholeSecondHasNoFraction(half);
    SecondsFollowFields(whole, half);
    TextOrderIsChronological(whole, half);
    TextOrderIsChronological(half, whole);
  }

  /** The parameter of the list queries: now, cut to the second. */
  function Cut(now: Time): Time {
    now.(nanos := 0)
  }

  /**
   Listing splits past from upcoming at the second of now: a stored end counts as past exactly when
   its second is earlier, or is the same and the end has a fraction. A booking listed on the wrong
   side ends within a second of now.
   */
  lemma ListSplitsAtTheSecond(end: Time, now: Time)
    ensures Before(end, Cut(now)) <==>
              Seconds(end) < Seconds(now) || (Seconds(end) == Seconds(now) && end.nanos != 0)
    ensures Before(end, Cut(now)) != (Instant(end) < Instant(now)) ==>
              -1_000_000_000 < Instant(end) - Instant(now) < 1_000_000_000
  {
    var cut := Cut(now);
    SecondsFollowFields(now, cut);
    WholeSecondHasNoFraction(cut);
    WholeSecondHasNoFraction(end);
    TextOrderIsChronological(end, cut);
    if Seconds(end) == Seconds(now) {
      WholeSecondsLast(end, cut);
    }
  }

  /** Within one second, the text without a fraction sorts last. */
  lemma WholeSecondsLast(a: Time, whole: Time)
    requires Seconds(a) == Seconds(whole) && Fraction(whole) == ""
    ensures Before(a, whole) <==> Fraction(a) != ""
  {
    SecondsFollowFields(a, whole);
    SecondTextOrder(a, whole);
    HeadThenTail(ToTheSecond(a), ToTheSecond(whole), Suffix(a), Suffix(whole));
    assert Render(a) == ToTheSecond(a) + Suffix(a) && Render(whole) == ToTheSecond(whole) + Suffix(whole);
    FractionShape(a);
    if Fraction(a) != "" {
      ExtensionSortsFirst("", Fraction(a));
    } else {
      NotBoth(Suffix(a), Suffix(whole));
    }
  }
}
