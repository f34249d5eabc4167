/**
 What the counting queries of Create achieve over whole runs: the hourly throttle, the cap on
 active bookings, and even round-robin distribution.
 */
module BookingLimits {
  import opened Bookings
  import opened Options
  import opened Seats
  import opened Timestamps

  // ---------- the hourly throttle ----------

  const SECOND: nat := 1_000_000_000
  const HOUR: nat := 3600 * SECOND

  /** The row was created at the instant of t. */
  predicate CreatedAt(b: Booking, t: Time) {
    b.createdAt == Render(t)
  }

  /** A stretch of time ending at the instant `to`. */
  datatype Window =
    | Span(to: nat, width: nat)       // the half-open (to - width, to]
    | WholeSeconds(to: nat, width: nat) // its whole seconds only
    | HourOfSeconds(to: nat)          // every second less than 3600 before the second of `to`
  {
    predicate Contains(t: Time) {
      && Instant(t) <= to
      && match this
         case Span(_, width) => to < Instant(t) + width
         case WholeSeconds(_, width) => to < Instant(t) + width && t.nanos == 0
         case HourOfSeconds(_) => to / SECOND < Seconds(t) + 3600
    }
  }

  ghost predicate CreatedWithin(b: Booking, w: Window) {
    exists t: Time :: CreatedAt(b, t) && w.Contains(t)
  }

  /** Bookings made for an email within the window, cancelled ones included. */
  ghost function MadeWithin(st: State, email: string, w: Window): set<Id> {
    set b | b in st.bookings.Keys && SameEmail(st.bookings[b].email, email) && CreatedWithin(st.bookings[b], w)
  }

  ghost predicate Throttled(st: State, email: string, limit: nat) {
    forall to: nat :: |MadeWithin(st, email, HourOfSeconds(to))| <= limit
  }

  /** Every booking was created at some reading no later than `last`. */
  ghost predicate CreatedBy(st: State, last: nat) {
    forall b :: b in st.bookings ==> exists t: Time :: CreatedAt(st.bookings[b], t) && Instant(t) <= last
  }

  /** The creations of a run read a clock that never goes back, under one hourly limit. */
  ghost predicate ClockedRun(ops: seq<Op>, limit: nat, last: nat)
    decreases |ops|
  {
    ops == [] ||
    if ops[0].OpCreate? then
      && ops[0].clock.Single() && last <= Instant(ops[0].clock.at)
      && ops[0].p.maxPerHour == limit
      && ClockedRun(ops[1..], limit, Instant(ops[0].clock.at))
    else ClockedRun(ops[1..], limit, last)
  }

  /** RFC3339Nano determines the instant. */
  lemma RenderInjective(a: Time, b: Time)
    requires Render(a) == Render(b)
    ensures a == b
  {
    NotBoth(Render(a), Render(b));
    SecondTextOrder(a, b);
    SplitEqual(ToTheSecond(a), ToTheSecond(b), Suffix(a), Suffix(b));
    assert Render(a) == ToTheSecond(a) + Suffix(a) && Render(b) == ToTheSecond(b) + Suffix(b);
    if Fraction(a) != "" && Fraction(b) != "" {
      assert Fraction(a) == Suffix(a)[1..|Suffix(a)| - 1];
    }
    SameFractionSameNanos(a, b);
  }

  lemma WindowCountsAsRecent(c: Clock, t: Time, to: nat)
    requires c.Single() && Instant(c.at) <= to && HourOfSeconds(to).Contains(t)
    ensures TextLess(c.hourAgo, Render(t))
  {
    assert Seconds(c.at) == Seconds(c.hourBefore) + 3600;
    TextOrderIsChronological(c.hourBefore, t);
  }

  /** The query counts a booking as made within the last hour exactly when it was, unless the
      threshold and the creation time are confusable as text. */
  lemma ThrottleCountsExactly(c: Clock, t: Time)
    requires c.Single()
    ensures (TextLess(c.hourAgo, Render(t)) == (Instant(c.at) < Instant(t) + HOUR)) <==> !Confusable(c.hourBefore, t)
  {
    TextOrderIsChronological(c.hourBefore, t);
  }

  lemma SameEmailTwice(a: string, b: string, c: string)
    requires SameEmail(a, c) && SameEmail(b, c)
    ensures SameEmail(a, b)
  {
  }

  /** The window after an accepted Create: only the new booking can have joined it. */
  lemma OnlyNewJoins(st: State, p: CreateParams, id: Id, clock: Clock, email: string, w: Window)
    requires Create(st, p, id, clock).1.Ok?
    ensures var before, after := MadeWithin(st, email, w), MadeWithin(Create(st, p, id, clock).0, email, w);
            && after - {id} <= before
            && (id in after ==> SameEmail(p.email, email) && w.Contains(clock.at))
  {
    hide TextLess, Render, HostBusy, SameEmail;
    CreateSeats(st, p, id, clock);
    hide Create;
    var st' := Create(st, p, id, clock).0;
    if id in MadeWithin(st', email, w) {
      var t: Time :| CreatedAt(st'.bookings[id], t) && w.Contains(t);
      RenderInjective(t, clock.at);
    }
  }

  /** What is in a window reaching up to the present was counted by the throttle query. */
  lemma WindowIsRecent(st: State, email: string, other: string, clock: Clock, to: nat)
    requires clock.Single() && Instant(clock.at) <= to && SameEmail(other, email)
    ensures MadeWithin(st, email, HourOfSeconds(to)) <= RecentSet(st, other, clock.hourAgo)
  {
    hide TextLess, Render, SameEmail;
    forall b | b in MadeWithin(st, email, HourOfSeconds(to)) ensures b in RecentSet(st, other, clock.hourAgo) {
      var t: Time :| CreatedAt(st.bookings[b], t) && HourOfSeconds(to).Contains(t);
      WindowCountsAsRecent(clock, t, to);
      SameEmailTwice(st.bookings[b].email, other, email);
    }
  }

  lemma AcceptedWithinLimits(st: State, p: CreateParams, id: Id, clock: Clock)
    requires Create(st, p, id, clock).1.Ok?
    ensures p.maxPerHour > 0 ==> |RecentSet(st, p.email, clock.hourAgo)| < p.maxPerHour
    ensures p.maxActive > 0 ==> |ActiveSet(st, p.eventType, p.email, clock.now)| < p.maxActive
  {
  }

  lemma OneMoreInWindow(st: State, p: CreateParams, id: Id, clock: Clock, email: string, to: nat)
    requires p.maxPerHour > 0 && Throttled(st, email, p.maxPerHour) && clock.Single()
    requires Create(st, p, id, clock).1.Ok?
    ensures |MadeWithin(Create(st, p, id, clock).0, email, HourOfSeconds(to))| <= p.maxPerHour
  {
    var w := HourOfSeconds(to);
    var before, after := MadeWithin(st, email, w), MadeWithin(Create(st, p, id, clock).0, email, w);
    hide Create, MadeWithin, SameEmail, TextLess, Render;
    AcceptedWithinLimits(st, p, id, clock);
    assert |before| <= p.maxPerHour;
    OnlyNewJoins(st, p, id, clock, email, w);
    if id in after {
      WindowIsRecent(st, email, p.email, clock, to);
      CardinalityOfSubset(after - {id}, RecentSet(st, p.email, clock.hourAgo));
      assert after == (after - {id}) + {id};
    } else {
      CardinalityOfSubset(after, before);
    }
  }

  /** One accepted Create cannot overfill any window, past or future. */
  lemma CreateKeepsThrottle(st: State, p: CreateParams, id: Id, clock: Clock, email: string, last: nat)
    requires p.maxPerHour > 0 && Throttled(st, email, p.maxPerHour)
    requires CreatedBy(st, last) && clock.Single() && last <= Instant(clock.at)
    ensures Throttled(Create(st, p, id, clock).0, email, p.maxPerHour)
    ensures CreatedBy(Create(st, p, id, clock).0, Instant(clock.at))
  {
    hide TextLess, Render, HostBusy, Instant;
    var (st', r) := Create(st, p, id, clock);
    if r.Ok? {
      CreateSeats(st, p, id, clock);
      hide Create;
      assert CreatedAt(st'.bookings[id], clock.at);
      forall to: nat ensures |MadeWithin(st', email, HourOfSeconds(to))| <= p.maxPerHour {
        OneMoreInWindow(st, p, id, clock, email, to);
      }
    }
  }

  /** Only Create writes creation times and organizer emails. */
  lemma SameCreations(st: State, op: Op)
    requires !op.OpCreate?
    ensures Apply(st, op).bookings.Keys == st.bookings.Keys
    ensures forall b :: b in st.bookings ==>
              && Apply(st, op).bookings[b].createdAt == st.bookings[b].createdAt
              && Apply(st, op).bookings[b].email == st.bookings[b].email
  {
    hide Create, Reschedule, Reassign;
    if op.OpReschedule? {
      RescheduleKeepsCreation(st, op.id, op.start, op.end, op.now);
    } else if op.OpReassign? {
      ReassignKeepsCreation(st, op.id, op.newHost, op.now);
    }
  }

  ghost predicate SameCreation(st: State, st': State) {
    && st'.bookings.Keys == st.bookings.Keys
    && forall b :: b in st.bookings ==>
         st'.bookings[b].createdAt == st.bookings[b].createdAt && st'.bookings[b].email == st.bookings[b].email
  }

  lemma RescheduleKeepsCreation(st: State, id: Id, start: Text, end: Text, now: Text)
    ensures SameCreation(st, Reschedule(st, id, start, end, now).0)
  {
    hide HostBusy, StartTaken, Occupants;
  }

  lemma ReassignKeepsCreation(st: State, id: Id, newHost: User, now: Text)
    ensures SameCreation(st, Reassign(st, id, newHost, now).0)
  {
    hide HostBusy, StartTaken, Primaries, MovePrimary;
  }

  /** Other operations leave every window as it is. */
  lemma SameWindows(st: State, op: Op, email: string, w: Window)
    requires !op.OpCreate?
    ensures MadeWithin(Apply(st, op), email, w) == MadeWithin(st, email, w)
  {
    hide Apply, Render, SameEmail, Instant;
    var st' := Apply(st, op);
    SameCreations(st, op);
    forall b | b in st.bookings ensures CreatedWithin(st'.bookings[b], w) <==> CreatedWithin(st.bookings[b], w) {
      assert forall t: Time :: CreatedAt(st'.bookings[b], t) <==> CreatedAt(st.bookings[b], t);
    }
  }

  lemma OthersKeepThrottle(st: State, op: Op, email: string, limit: nat, last: nat)
    requires Throttled(st, email, limit) && CreatedBy(st, last) && !op.OpCreate?
    ensures Throttled(Apply(st, op), email, limit) && CreatedBy(Apply(st, op), last)
  {
    hide Apply, Render, SameEmail, Instant, MadeWithin;
    var st' := Apply(st, op);
    SameCreations(st, op);
    forall b | b in st'.bookings ensures exists t: Time :: CreatedAt(st'.bookings[b], t) && Instant(t) <= last {
      var t: Time :| CreatedAt(st.bookings[b], t) && Instant(t) <= last;
      assert CreatedAt(st'.bookings[b], t);
    }
    forall to: nat ensures |MadeWithin(st', email, HourOfSeconds(to))| <= limit {
      SameWindows(st, op, email, HourOfSeconds(to));
    }
  }

  lemma {:induction false} EveryRunIsThrottled(st: State, ops: seq<Op>, email: string, limit: nat, last: nat)
    requires limit > 0 && Throttled(st, email, limit) && CreatedBy(st, last) && ClockedRun(ops, limit, last)
    ensures Throttled(Run(st, ops), email, limit)
    decreases |ops|
  {
    hide Create, Throttled, CreatedBy, Instant;
    if ops != [] {
      var op := ops[0];
      if op.OpCreate? {
        CreateKeepsThrottle(st, op.p, op.id, op.clock, email, last);
        EveryRunIsThrottled(Apply(st, op), ops[1..], email, limit, Instant(op.clock.at));
      } else {
        OthersKeepThrottle(st, op, email, limit, last);
        EveryRunIsThrottled(Apply(st, op), ops[1..], email, limit, last);
      }
    }
  }

  /** Windows inside an hour counted in seconds. */
  lemma NarrowerWindows(to: nat, t: Time)
    ensures Span(to, HOUR - SECOND).Contains(t) ==> HourOfSeconds(to).Contains(t)
    ensures WholeSeconds(to, HOUR).Contains(t) ==> HourOfSeconds(to).Contains(t)
  {
  }

  lemma NarrowerHoldsFewer(st: State, email: string, w: Window, v: Window)
    requires forall t: Time :: w.Contains(t) ==> v.Contains(t)
    ensures |MadeWithin(st, email, w)| <= |MadeWithin(st, email, v)|
  {
    hide SameEmail, Render;
    CardinalityOfSubset(MadeWithin(st, email, w), MadeWithin(st, email, v));
  }

  /**
   In a run from empty tables no email gets more than `limit` bookings in any window of an hour
   less one second, whatever fractions the clock shows, nor more than `limit` created on whole
   seconds in any full hour.
   */
  lemma HourlyLimitHolds(ops: seq<Op>, email: string, limit: nat, to: nat)
    requires limit > 0 && ClockedRun(ops, limit, 0)
    ensures var st := Run(EMPTY, ops);
            && |MadeWithin(st, email, Span(to, HOUR - SECOND))| <= limit
            && |MadeWithin(st, email, WholeSeconds(to, HOUR))| <= limit
  {
    forall h: nat ensures |MadeWithin(EMPTY, email, HourOfSeconds(h))| <= limit {
      assert MadeWithin(EMPTY, email, HourOfSeconds(h)) == {};
    }
    EveryRunIsThrottled(EMPTY, ops, email, limit, 0);
    var st := Run(EMPTY, ops);
    assert |MadeWithin(st, email, HourOfSeconds(to))| <= limit;
    hide *;
    forall t: Time { NarrowerWindows(to, t); }
    NarrowerHoldsFewer(st, email, Span(to, HOUR - SECOND), HourOfSeconds(to));
    NarrowerHoldsFewer(st, email, WholeSeconds(to, HOUR), HourOfSeconds(to));
  }

  // ---------- the full hour ----------

  /** Every window (to - 1h, to] holds at most the limit. */
  ghost predicate FullHour(st: State, email: string, limit: nat) {
    forall to: nat :: |MadeWithin(st, email, Span(to, HOUR))| <= limit
  }

  /**
   A booking made at t, less than an hour before the Create reads the clock, slips through its query: t is
   not after the threshold, which comes from a later reading, or the text misses that it is.
   */
  predicate Slips(clock: Clock, t: Time) {
    && Instant(clock.at) < Instant(t) + HOUR
    && (Missed(clock.hourBefore, t) || (Instant(t) <= Instant(clock.hourBefore) && !Missed(t, clock.hourBefore)))
  }

  /** Bookings for the email that slip through. */
  ghost function SlippedSet(st: State, email: string, clock: Clock): set<Id> {
    set b | b in st.bookings.Keys && SameEmail(st.bookings[b].email, email) &&
      exists t: Time :: CreatedAt(st.bookings[b], t) && Slips(clock, t)
  }

  lemma SlipsExactly(clock: Clock, t: Time)
    ensures Slips(clock, t) <==> Instant(clock.at) < Instant(t) + HOUR && !TextLess(clock.hourAgo, Render(t))
    ensures clock.Single() ==> (Slips(clock, t) <==> Missed(clock.hourBefore, t))
  {
    hide TextLess, Render, Fraction;
    MissedExactly(clock.hourBefore, t);
    TextOrderIsChronological(clock.hourBefore, t);
  }

  /** A window reaching up to the first reading or beyond holds only what was counted and what slipped through. */
  lemma WindowIsCountedOrSlipped(st: State, email: string, clock: Clock, to: nat)
    requires Instant(clock.at) <= to
    ensures MadeWithin(st, email, Span(to, HOUR)) <= RecentSet(st, email, clock.hourAgo) + SlippedSet(st, email, clock)
  {
    hide Render, TextLess, SameEmail, Slips, Instant;
    forall b | b in MadeWithin(st, email, Span(to, HOUR))
      ensures b in RecentSet(st, email, clock.hourAgo) + SlippedSet(st, email, clock)
    {
      var t: Time :| CreatedAt(st.bookings[b], t) && Span(to, HOUR).Contains(t);
      SlipsExactly(clock, t);
    }
  }

  lemma SlippedNotCounted(st: State, email: string, clock: Clock)
    ensures SlippedSet(st, email, clock) !! RecentSet(st, email, clock.hourAgo)
  {
    hide Render, TextLess, SameEmail, Slips, Instant;
    forall b | b in SlippedSet(st, email, clock) ensures b !in RecentSet(st, email, clock.hourAgo) {
      var t: Time :| CreatedAt(st.bookings[b], t) && Slips(clock, t);
      SlipsExactly(clock, t);
    }
  }

  lemma NewIsInWindow(st: State, p: CreateParams, id: Id, clock: Clock)
    requires Create(st, p, id, clock).1.Ok?
    ensures var w := Span(Instant(clock.at), HOUR);
            && id !in MadeWithin(st, p.email, w)
            && MadeWithin(Create(st, p, id, clock).0, p.email, w) == MadeWithin(st, p.email, w) + {id}
  {
    var w := Span(Instant(clock.at), HOUR);
    hide TextLess, Render, HostBusy, Create, Select, Instant;
    CreateSeats(st, p, id, clock);
    OnlyNewJoins(st, p, id, clock, p.email, w);
    var st', before := Create(st, p, id, clock).0, MadeWithin(st, p.email, w);
    assert forall b :: b in st.bookings ==> st'.bookings[b] == st.bookings[b];
    assert before <= MadeWithin(st', p.email, w);
    assert CreatedAt(st'.bookings[id], clock.at) && w.Contains(clock.at) by { InItsOwnWindow(clock.at); }
  }

  lemma InItsOwnWindow(t: Time)
    ensures Span(Instant(t), HOUR).Contains(t)
  {
  }

  /**
   Exactly when an accepted Create overfills the hour ending at its first reading: the bookings of that
   hour that the query counted and those that slipped through, together, had already reached the limit.
   */
  lemma FullHourExact(st: State, p: CreateParams, id: Id, clock: Clock)
    requires p.maxPerHour > 0 && Create(st, p, id, clock).1.Ok?
    ensures var w := Span(Instant(clock.at), HOUR);
            var counted := RecentSet(st, p.email, clock.hourAgo) * MadeWithin(st, p.email, w);
            var slipped := SlippedSet(st, p.email, clock) * MadeWithin(st, p.email, w);
            |MadeWithin(Create(st, p, id, clock).0, p.email, w)| > p.maxPerHour <==>
              |counted| + |slipped| >= p.maxPerHour
  {
    var w := Span(Instant(clock.at), HOUR);
    hide Create, MadeWithin, RecentSet, SlippedSet, Instant;
    NewIsInWindow(st, p, id, clock);
    WindowIsCountedOrSlipped(st, p.email, clock, Instant(clock.at));
    SlippedNotCounted(st, p.email, clock);
    var inside, recent := MadeWithin(st, p.email, w), RecentSet(st, p.email, clock.hourAgo);
    var slipped := SlippedSet(st, p.email, clock);
    assert inside == recent * inside + slipped * inside && recent * inside !! slipped * inside;
  }

  /**
   At the edge, with one booking to go and only bookings of the hour counted, the hour overflows if
   and only if some booking of that email made in it slips through.
   */
  lemma FullHourAtTheEdge(st: State, p: CreateParams, id: Id, clock: Clock)
    requires p.maxPerHour > 0 && Create(st, p, id, clock).1.Ok?
    requires RecentSet(st, p.email, clock.hourAgo) <= MadeWithin(st, p.email, Span(Instant(clock.at), HOUR))
    requires |RecentSet(st, p.email, clock.hourAgo)| == p.maxPerHour - 1
    ensures |MadeWithin(Create(st, p, id, clock).0, p.email, Span(Instant(clock.at), HOUR))| > p.maxPerHour <==>
            exists b, t: Time :: b in st.bookings && SameEmail(st.bookings[b].email, p.email) &&
              CreatedAt(st.bookings[b], t) && Slips(clock, t) && Instant(t) <= Instant(clock.at)
  {
    hide Create, RecentSet, Instant, CreatedAt, SameEmail;
    FullHourExact(st, p, id, clock);
    var w := Span(Instant(clock.at), HOUR);
    var inside, recent := MadeWithin(st, p.email, w), RecentSet(st, p.email, clock.hourAgo);
    assert recent * inside == recent;
    var slipped := SlippedSet(st, p.email, clock) * inside;
    forall b, t: Time
      | b in st.bookings && SameEmail(st.bookings[b].email, p.email) && CreatedAt(st.bookings[b], t) &&
        Slips(clock, t) && Instant(t) <= Instant(clock.at)
      ensures b in slipped
    {
      assert w.Contains(t) && CreatedWithin(st.bookings[b], w);
    }
    if b :| b in slipped {
      var t: Time :| CreatedAt(st.bookings[b], t) && Slips(clock, t);
      SameReading(st.bookings[b], t, w);
      assert b in st.bookings && SameEmail(st.bookings[b].email, p.email) && Instant(t) <= Instant(clock.at);
    } else {
      assert slipped == {};
    }
  }

  /** The creation time of a row is one instant. */
  lemma SameReading(b: Booking, t: Time, w: Window)
    requires CreatedAt(b, t) && CreatedWithin(b, w)
    ensures w.Contains(t)
  {
    var u: Time :| CreatedAt(b, u) && w.Contains(u);
    RenderInjective(t, u);
  }

  /** A Create that lets nothing slip keeps every full hour within the limit, past or future. */
  lemma CreateKeepsFullHour(st: State, p: CreateParams, id: Id, clock: Clock, email: string)
    requires p.maxPerHour > 0 && FullHour(st, email, p.maxPerHour)
    requires SameEmail(p.email, email) ==> SlippedSet(st, p.email, clock) == {}
    ensures FullHour(Create(st, p, id, clock).0, email, p.maxPerHour)
  {
    hide Create, MadeWithin, RecentSet, SlippedSet, Instant, SameEmail;
    FailedCreate(st, p, id, clock);
    if Create(st, p, id, clock).1.Ok? {
      AcceptedWithinLimits(st, p, id, clock);
      var st' := Create(st, p, id, clock).0;
      forall to: nat ensures |MadeWithin(st', email, Span(to, HOUR))| <= p.maxPerHour {
        var w := Span(to, HOUR);
        var after := MadeWithin(st', email, w);
        OnlyNewJoins(st, p, id, clock, email, w);
        if id in after {
          WindowIsCountedOrSlipped(st, p.email, clock, to);
          SameWindowEitherEmail(st, p.email, email, w);
          CardinalityOfSubset(after - {id}, RecentSet(st, p.email, clock.hourAgo));
          assert after == (after - {id}) + {id};
        } else {
          CardinalityOfSubset(after, MadeWithin(st, email, w));
        }
      }
    }
  }

  lemma SameWindowEitherEmail(st: State, a: string, b: string, w: Window)
    requires SameEmail(a, b)
    ensures MadeWithin(st, a, w) == MadeWithin(st, b, w)
  {
    hide CreatedWithin;
  }

  /** The Creates of a run share one hourly limit. */
  ghost predicate LimitedRun(ops: seq<Op>, limit: nat) {
    forall op :: op in ops && op.OpCreate? ==> op.p.maxPerHour == limit
  }

  /** No booking slips through a Create for the email. */
  ghost predicate NothingSlips(st: State, ops: seq<Op>, email: string)
    decreases |ops|
  {
    ops != [] ==>
      && (ops[0].OpCreate? && SameEmail(ops[0].p.email, email) ==> SlippedSet(st, ops[0].p.email, ops[0].clock) == {})
      && NothingSlips(Apply(st, ops[0]), ops[1..], email)
  }

  lemma {:induction false} EveryRunKeepsFullHour(st: State, ops: seq<Op>, email: string, limit: nat)
    requires limit > 0 && FullHour(st, email, limit) && LimitedRun(ops, limit) && NothingSlips(st, ops, email)
    ensures FullHour(Run(st, ops), email, limit)
    decreases |ops|
  {
    if ops != [] {
      var op := ops[0];
      assert op in ops && forall o :: o in ops[1..] ==> o in ops;
      hide Create, SlippedSet, SameEmail, MadeWithin;
      if op.OpCreate? {
        CreateKeepsFullHour(st, op.p, op.id, op.clock, email);
      } else {
        forall to: nat ensures |MadeWithin(Apply(st, op), email, Span(to, HOUR))| <= limit {
          SameWindows(st, op, email, Span(to, HOUR));
        }
      }
      assert Apply(st, op) == if op.OpCreate? then Create(st, op.p, op.id, op.clock).0 else Apply(st, op);
      hide Apply, FullHour;
      EveryRunKeepsFullHour(Apply(st, op), ops[1..], email, limit);
    }
  }

  /** From empty tables: no full hour (T - 1h, T] holds more than the limit for an email, if nothing slips through. */
  lemma FullHourHolds(ops: seq<Op>, email: string, limit: nat, to: nat)
    requires limit > 0 && LimitedRun(ops, limit) && NothingSlips(EMPTY, ops, email)
    ensures |MadeWithin(Run(EMPTY, ops), email, Span(to, HOUR))| <= limit
  {
    assert forall h: nat :: MadeWithin(EMPTY, email, Span(h, HOUR)) == {};
    EveryRunKeepsFullHour(EMPTY, ops, email, limit);
  }

  /** Half a second past ten, and eleven sharp. */
  const FIRST_READING: Clock :=
    Clock(Stamp(2026, 6, 15, 10, 0, 0, 500_000_000), Stamp(2026, 6, 15, 9, 0, 0, 500_000_000))
  const SECOND_READING: Clock := Clock(Stamp(2026, 6, 15, 11, 0, 0, 0), Stamp(2026, 6, 15, 10, 0, 0, 0))
  const ONCE_AN_HOUR: CreateParams := LATE_END.(maxPerHour := 1)
  const OTHER_HOST: CreateParams := ONCE_AN_HOUR.(hosts := ["bob"])

  lemma ReadingTimes()
    ensures FIRST_READING.Single() && SECOND_READING.Single()
    ensures Instant(FIRST_READING.at) < Instant(SECOND_READING.at) < Instant(FIRST_READING.at) + HOUR
    ensures !TextLess(SECOND_READING.hourAgo, FIRST_READING.now)
  {
    var half, whole := FIRST_READING.at, SECOND_READING.hourBefore;
    WholeSecondHasNoFraction(half);
    WholeSecondHasNoFraction(whole);
    TextOrderIsChronological(whole, half);
  }

  lemma OneBookingApart(st: State, id: Id, booked: User, host: User, start: Text, end: Text)
    requires st.seats.Keys == {(id, booked)} && st.bookings.Keys == {id} && st.calendars == {}
    requires booked != host && st.bookings[id].host == booked
    ensures Clear(st, {host}, start, end, None) && !StartTaken(st, host, start, None)
  {
  }

  /**
   The full hour fails on a fraction: a booking made at 10:00:00.5 is stored as text that sorts
   before the threshold 10:00:00 of the one made at 11:00:00, so a limit of one lets both through.
   */
  lemma FractionsDefeatTheThrottle()
    ensures var one := Create(EMPTY, ONCE_AN_HOUR, "a", FIRST_READING);
            var two := Create(one.0, OTHER_HOST, "b", SECOND_READING);
            && one.1.Ok? && two.1.Ok?
            && FIRST_READING.Single() && SECOND_READING.Single()
            && MadeWithin(two.0, "bo@example.com", Span(Instant(SECOND_READING.at), HOUR)) == {"a", "b"}
  {
    hide Create, TextLess, Render, Instant, Clear, StartTaken, Clock.Single;
    ReadingTimes();
    assert RecentSet(EMPTY, "bo@example.com", FIRST_READING.hourAgo) == {};
    NoneInEmpty("ada", ONCE_AN_HOUR.start, ONCE_AN_HOUR.end);
    OneHostAccepted(EMPTY, ONCE_AN_HOUR, "a", FIRST_READING, "ada");
    var st := Create(EMPTY, ONCE_AN_HOUR, "a", FIRST_READING).0;
    assert RecentSet(st, "bo@example.com", SECOND_READING.hourAgo) == {};
    OneBookingApart(st, "a", "ada", "bob", OTHER_HOST.start, OTHER_HOST.end);
    OneHostAccepted(st, OTHER_HOST, "b", SECOND_READING, "bob");
    var st' := Create(st, OTHER_HOST, "b", SECOND_READING).0;
    assert CreatedAt(st'.bookings["a"], FIRST_READING.at);
    assert CreatedAt(st'.bookings["b"], SECOND_READING.at);
    assert st'.bookings.Keys == {"a", "b"};
  }

  lemma NoneInEmpty(host: User, start: Text, end: Text)
    ensures Clear(EMPTY, {host}, start, end, None) && !StartTaken(EMPTY, host, start, None)
  {
  }

  // ---------- the active cap ----------

  /** Right after an accepted Create the invitee is within the cap for that event type. */
  lemma ActiveCapHolds(st: State, p: CreateParams, id: Id, clock: Clock)
    requires p.maxActive > 0 && Create(st, p, id, clock).1.Ok?
    ensures |ActiveSet(Create(st, p, id, clock).0, p.eventType, p.email, clock.now)| <= p.maxActive
  {
    hide TextLess, Render, HostBusy;
    CreateSeats(st, p, id, clock);
    var before := ActiveSet(st, p.eventType, p.email, clock.now);
    var after := ActiveSet(Create(st, p, id, clock).0, p.eventType, p.email, clock.now);
    CardinalityOfSubset(after, before + {id});
  }

  /** The row ends at the instant of t. */
  predicate EndsAt(b: Booking, t: Time) {
    b.end == Render(t)
  }

  /** Bookings of the type for the email that have not ended at the instant now. */
  ghost function NotEnded(st: State, eventType: Id, email: string, now: Time): set<Id> {
    set b | b in st.bookings.Keys && st.bookings[b].eventType == eventType && !st.bookings[b].cancelled &&
      SameEmail(st.bookings[b].email, email) && exists t: Time :: EndsAt(st.bookings[b], t) && Instant(now) < Instant(t)
  }

  /** Those of them the query takes for ended. */
  ghost function EndMissed(st: State, eventType: Id, email: string, now: Time): set<Id> {
    set b | b in st.bookings.Keys && st.bookings[b].eventType == eventType && !st.bookings[b].cancelled &&
      SameEmail(st.bookings[b].email, email) && exists t: Time :: EndsAt(st.bookings[b], t) && Missed(now, t)
  }

  /**
   The cap on the clock: what the query does not count of the bookings still running are exactly those
   whose end extends the fraction of now within its second; with none, the real count is within the cap.
   */
  lemma ActiveCapOnTheClock(st: State, p: CreateParams, id: Id, clock: Clock)
    requires p.maxActive > 0 && Create(st, p, id, clock).1.Ok?
    ensures var st' := Create(st, p, id, clock).0;
            var running := NotEnded(st', p.eventType, p.email, clock.at);
            var missed := EndMissed(st', p.eventType, p.email, clock.at);
            && running - ActiveSet(st', p.eventType, p.email, clock.now) == missed
            && (missed == {} ==> |running| <= p.maxActive)
  {
    assert clock.now == Render(clock.at);
    hide *;
    ActiveCapHolds(st, p, id, clock);
    var st' := Create(st, p, id, clock).0;
    ActiveOrMissed(st', p.eventType, p.email, clock.at);
    var running := NotEnded(st', p.eventType, p.email, clock.at);
    if running - ActiveSet(st', p.eventType, p.email, clock.now) == {} {
      assert forall b :: b in running ==> b !in running - ActiveSet(st', p.eventType, p.email, clock.now);
      CardinalityOfSubset(running, ActiveSet(st', p.eventType, p.email, clock.now));
    }
  }

  lemma ActiveOrMissed(st: State, eventType: Id, email: string, now: Time)
    ensures NotEnded(st, eventType, email, now) - ActiveSet(st, eventType, email, Render(now)) ==
              EndMissed(st, eventType, email, now)
  {
    hide TextLess, Render, SameEmail;
    forall b | b in st.bookings
      ensures b in NotEnded(st, eventType, email, now) - ActiveSet(st, eventType, email, Render(now)) <==>
              b in EndMissed(st, eventType, email, now)
    {
      forall t: Time | EndsAt(st.bookings[b], t)
        ensures Missed(now, t) <==> Instant(now) < Instant(t) && !TextLess(Render(now), st.bookings[b].end)
      {
        MissedExactly(now, t);
      }
    }
  }

  // ---------- round robin ----------

  /** best is the first of the candidates who carry the fewest bookings. */
  ghost predicate EarliestMinimum(st: State, eventType: Id, candidates: seq<User>, now: Text, best: User) {
    exists i :: 0 <= i < |candidates| && candidates[i] == best &&
      (forall j :: 0 <= j < |candidates| ==>
         Carried(st, eventType, best, now) <= Carried(st, eventType, candidates[j], now)) &&
      (forall j :: 0 <= j < i ==> Carried(st, eventType, best, now) < Carried(st, eventType, candidates[j], now))
  }

  lemma {:induction false} LeastLoadedIsEarliestMinimum(st: State, eventType: Id, candidates: seq<User>, now: Text)
    requires candidates != []
    ensures EarliestMinimum(st, eventType, candidates, now, LeastLoaded(st, eventType, candidates, now))
  {
    hide Load, Carried;
    LoadsExact(st, eventType, now);
    var n := |candidates| - 1;
    var best := LeastLoaded(st, eventType, candidates, now);
    if n == 0 {
      assert candidates[0] == best;
    } else {
      var front := candidates[..n];
      LeastLoadedIsEarliestMinimum(st, eventType, front, now);
      var prev := LeastLoaded(st, eventType, front, now);
      var i :| 0 <= i < n && front[i] == prev &&
        (forall j :: 0 <= j < n ==> Carried(st, eventType, prev, now) <= Carried(st, eventType, front[j], now)) &&
        (forall j :: 0 <= j < i ==> Carried(st, eventType, prev, now) < Carried(st, eventType, front[j], now));
      assert forall j :: 0 <= j < n ==> candidates[j] == front[j];
      if best == prev && Load(st, eventType, candidates[n], now) >= Load(st, eventType, prev, now) {
        assert candidates[i] == best;
      } else {
        assert candidates[n] == best;
      }
    }
  }

  ghost predicate Balanced(st: State, eventType: Id, pool: seq<User>, now: Text) {
    forall u, v :: u in pool && v in pool ==> Carried(st, eventType, u, now) <= Carried(st, eventType, v, now) + 1
  }

  datatype Call = Call(p: CreateParams, id: Id, clock: Clock)

  function After(st: State, c: Call): State {
    Create(st, c.p, c.id, c.clock).0
  }

  /** A rotation over this pool alone, every member of which is free for the slot. */
  ghost predicate Rotates(st: State, p: CreateParams, eventType: Id, pool: seq<User>) {
    && p.roundRobin && p.strategy != "priority" && p.eventType == eventType && p.hosts == pool
    && (forall u :: u in pool ==> u !in p.required && u !in p.optional && !HostBusy(st, u, p.start, p.end, None))
  }

  /** The same bookings of the event type are upcoming at both readings: none has ended meanwhile. */
  ghost predicate NoExpiry(st: State, eventType: Id, now: Text, next: Text) {
    forall b :: b in st.bookings && st.bookings[b].eventType == eventType ==>
      (TextLess(now, st.bookings[b].end) <==> TextLess(next, st.bookings[b].end))
  }

  /** A Create for the event type. */
  predicate Books(op: Op, eventType: Id) {
    op.OpCreate? && op.p.eventType == eventType
  }

  /** The operation is not about a booking of the event type. */
  predicate Bystands(st: State, op: Op, eventType: Id) {
    match op
    case OpCreate(p, _, _) => p.eventType != eventType
    case OpReschedule(id, _, _, _) => id in st.bookings ==> st.bookings[id].eventType != eventType
    case OpReassign(id, _, _) => id in st.bookings ==> st.bookings[id].eventType != eventType
    case OpCancel(_, id, _, _) => id in st.bookings ==> st.bookings[id].eventType != eventType
    case OpCancelByID(id, _, _) => id in st.bookings ==> st.bookings[id].eventType != eventType
    case OpTokenUpdate(id, _, _) => id in st.bookings ==> st.bookings[id].eventType != eventType
    case _ => true
  }

  /** Every Create for the event type rotates over the pool, none of its bookings ends meanwhile, all else bystands. */
  ghost predicate FairRun(st: State, ops: seq<Op>, eventType: Id, pool: seq<User>, now: Text)
    decreases |ops|
  {
    ops == [] ||
    if Books(ops[0], eventType) then
      && Rotates(st, ops[0].p, eventType, pool)
      && NoExpiry(st, eventType, now, ops[0].clock.now)
      && FairRun(Apply(st, ops[0]), ops[1..], eventType, pool, ops[0].clock.now)
    else Bystands(st, ops[0], eventType) && FairRun(Apply(st, ops[0]), ops[1..], eventType, pool, now)
  }

  /** The reading of the last Create for the event type. */
  function LastReading(ops: seq<Op>, eventType: Id, now: Text): Text
    decreases |ops|
  {
    if ops == [] then now
    else LastReading(ops[1..], eventType, if Books(ops[0], eventType) then ops[0].clock.now else now)
  }

  lemma {:induction false} AllFree(st: State, hosts: seq<User>, start: Text, end: Text)
    requires forall u :: u in hosts ==> !HostBusy(st, u, start, end, None)
    ensures FreeHosts(st, hosts, start, end) == hosts
  {
    if hosts != [] {
      AllFree(st, hosts[..|hosts| - 1], start, end);
      assert hosts == hosts[..|hosts| - 1] + [hosts[|hosts| - 1]];
    }
  }

  lemma RotationPicksMinimum(st: State, p: CreateParams, eventType: Id, pool: seq<User>, now: Text)
    requires pool != [] && Rotates(st, p, eventType, pool) && Select(st, p, now).Ok?
    ensures Select(st, p, now).value.chosen == LeastLoaded(st, eventType, pool, now)
  {
    AllFree(st, pool, p.start, p.end);
  }

  /** An accepted rotation adds at most one booking, to the earliest least-loaded host of the pool. */
  lemma RotationAddsToMinimum(st: State, c: Call, eventType: Id, pool: seq<User>)
    requires SeatsHaveBookings(st) && Rotates(st, c.p, eventType, pool)
    requires Create(st, c.p, c.id, c.clock).1.Ok?
    ensures pool != [] && c.id in After(st, c).bookings && SeatsHaveBookings(After(st, c))
    ensures After(st, c).bookings[c.id].host == LeastLoaded(st, eventType, pool, c.clock.now)
    ensures forall u :: u in pool ==>
              && c.id !in LoadSet(st, eventType, u, c.clock.now)
              && LoadSet(After(st, c), eventType, u, c.clock.now) ==
                 LoadSet(st, eventType, u, c.clock.now) +
                   (if u == LeastLoaded(st, eventType, pool, c.clock.now) && TextLess(c.clock.now, c.p.end)
                    then {c.id} else {})
  {
    hide TextLess, Render, HostBusy, LeastLoaded, Create, Select;
    CreateSeats(st, c.p, c.id, c.clock);
    RotationPicksMinimum(st, c.p, eventType, pool, c.clock.now);
    SelectedAreFree(st, c.p, c.clock.now);
    var st', now := After(st, c), c.clock.now;
    var chosen := Select(st, c.p, now).value.chosen;
    assert forall u :: (c.id, u) !in st.seats by {
      assert forall u :: (c.id, u) in st.seats ==> (c.id, u).0 in st.bookings;
    }
    forall u | u in pool
      ensures LoadSet(st', eventType, u, now) ==
              LoadSet(st, eventType, u, now) + (if u == chosen && TextLess(now, c.p.end) then {c.id} else {})
    {
      assert (c.id, u) in st'.seats <==> u == chosen;
    }
  }

  lemma CallKeepsBalance(st: State, c: Call, eventType: Id, pool: seq<User>)
    requires SeatsHaveBookings(st) && Rotates(st, c.p, eventType, pool) && Balanced(st, eventType, pool, c.clock.now)
    ensures Balanced(After(st, c), eventType, pool, c.clock.now)
    ensures SeatsHaveBookings(After(st, c))
  {
    hide TextLess, Render, HostBusy, LoadSet, LeastLoaded, Carried;
    LoadsExact(st, eventType, c.clock.now);
    LoadsExact(After(st, c), eventType, c.clock.now);
    if Create(st, c.p, c.id, c.clock).1.Ok? {
      RotationAddsToMinimum(st, c, eventType, pool);
      MinimumOfPool(st, eventType, pool, c.clock.now);
      hide Create, After;
    }
  }

  lemma MinimumOfPool(st: State, eventType: Id, pool: seq<User>, now: Text)
    requires pool != []
    ensures var least := LeastLoaded(st, eventType, pool, now);
            forall u :: u in pool ==> Carried(st, eventType, least, now) <= Carried(st, eventType, u, now)
  {
    hide TextLess, Carried;
    LeastLoadedIsEarliestMinimum(st, eventType, pool, now);
  }

  lemma NoExpirySameLoads(st: State, eventType: Id, pool: seq<User>, now: Text, next: Text)
    requires NoExpiry(st, eventType, now, next) && Balanced(st, eventType, pool, now)
    ensures Balanced(st, eventType, pool, next)
  {
    hide TextLess, Carried;
    LoadsExact(st, eventType, now);
    LoadsExact(st, eventType, next);
    forall u | u in pool ensures LoadSet(st, eventType, u, now) == LoadSet(st, eventType, u, next) {
    }
  }

  /** A booking untouched by a step, with its seats. */
  ghost predicate Untouched(st: State, st': State, b: Id) {
    && (b in st.bookings <==> b in st'.bookings)
    && (b in st.bookings && b in st'.bookings ==> st'.bookings[b] == st.bookings[b])
    && forall u :: (b, u) in st.seats <==> (b, u) in st'.seats
  }

  /** Of another event type before, or made for one. */
  predicate OtherType(st: State, st': State, b: Id, eventType: Id) {
    && (b in st.bookings ==> st.bookings[b].eventType != eventType)
    && (b in st'.bookings ==> st'.bookings[b].eventType != eventType)
  }

  lemma OtherTypesKeepLoads(st: State, st': State, eventType: Id, u: User, now: Text)
    requires forall b :: Untouched(st, st', b) || OtherType(st, st', b, eventType)
    ensures LoadSet(st', eventType, u, now) == LoadSet(st, eventType, u, now)
  {
    hide TextLess;
    forall b ensures b in LoadSet(st', eventType, u, now) <==> b in LoadSet(st, eventType, u, now) {
      assert Untouched(st, st', b) || OtherType(st, st', b, eventType);
    }
  }

  lemma CreateBystands(st: State, p: CreateParams, id: Id, clock: Clock, eventType: Id)
    requires p.eventType != eventType
    ensures forall b :: Untouched(st, Create(st, p, id, clock).0, b) ||
              OtherType(st, Create(st, p, id, clock).0, b, eventType)
  {
    hide Create, Select, HostBusy;
    FailedCreate(st, p, id, clock);
    if Create(st, p, id, clock).1.Ok? {
      CreateSeats(st, p, id, clock);
    }
  }

  lemma ChangeBystands(st: State, op: Op, eventType: Id)
    requires !op.OpCreate? && Bystands(st, op, eventType)
    ensures forall b :: Untouched(st, Apply(st, op), b) || OtherType(st, Apply(st, op), b, eventType)
  {
    hide HostBusy, StartTaken, Occupants, Primaries, Create;
  }

  lemma BystanderLeaves(st: State, op: Op, eventType: Id)
    requires Bystands(st, op, eventType)
    ensures forall b :: Untouched(st, Apply(st, op), b) || OtherType(st, Apply(st, op), b, eventType)
  {
    hide Untouched, OtherType, Create, Reschedule, Reassign;
    if op.OpCreate? {
      CreateBystands(st, op.p, op.id, op.clock, eventType);
    } else {
      ChangeBystands(st, op, eventType);
    }
  }

  lemma BystanderKeepsBalance(st: State, op: Op, eventType: Id, pool: seq<User>, now: Text)
    requires Balanced(st, eventType, pool, now) && Bystands(st, op, eventType)
    ensures Balanced(Apply(st, op), eventType, pool, now)
  {
    hide Apply, Untouched, OtherType, LoadSet, TextLess, Bystands, Carried;
    LoadsExact(st, eventType, now);
    LoadsExact(Apply(st, op), eventType, now);
    BystanderLeaves(st, op, eventType);
    forall u | u in pool ensures LoadSet(Apply(st, op), eventType, u, now) == LoadSet(st, eventType, u, now) {
      OtherTypesKeepLoads(st, Apply(st, op), eventType, u, now);
    }
  }

  /** The foreign key of the seats. */
  lemma ApplyKeepsSeatsKnown(st: State, op: Op)
    requires SeatsHaveBookings(st)
    ensures SeatsHaveBookings(Apply(st, op))
  {
    hide Create, Select, HostBusy, StartTaken, Occupants, Primaries;
    if op.OpCreate? {
      FailedCreate(st, op.p, op.id, op.clock);
      if Create(st, op.p, op.id, op.clock).1.Ok? {
        CreateSeats(st, op.p, op.id, op.clock);
        var st' := Apply(st, op);
        forall k | k in st'.seats ensures k.0 in st'.bookings {
          assert k == (k.0, k.1);
        }
      }
    }
  }

  /**
   Even rotation keeps the pool's upcoming loads within one of each other over any run in which every
   Create for the event type rotates over the pool, whatever is done to other event types in between.
   */
  lemma {:induction false} RotationIsFair(st: State, ops: seq<Op>, eventType: Id, pool: seq<User>, now: Text)
    requires SeatsHaveBookings(st) && FairRun(st, ops, eventType, pool, now) && Balanced(st, eventType, pool, now)
    ensures Balanced(Run(st, ops), eventType, pool, LastReading(ops, eventType, now))
    decreases |ops|
  {
    if ops != [] {
      var reading := if Books(ops[0], eventType) then ops[0].clock.now else now;
      FairStep(st, ops, eventType, pool, now);
      hide *;
      RotationIsFair(Apply(st, ops[0]), ops[1..], eventType, pool, reading);
      SplitRun(st, ops, eventType, now);
    }
  }

  lemma FairStep(st: State, ops: seq<Op>, eventType: Id, pool: seq<User>, now: Text)
    requires ops != [] && SeatsHaveBookings(st) && FairRun(st, ops, eventType, pool, now) &&
              Balanced(st, eventType, pool, now)
    ensures var next := Apply(st, ops[0]);
            var reading := if Books(ops[0], eventType) then ops[0].clock.now else now;
            SeatsHaveBookings(next) && Balanced(next, eventType, pool, reading) &&
                FairRun(next, ops[1..], eventType, pool, reading)
  {
    var op := ops[0];
    ApplyKeepsSeatsKnown(st, op);
    hide NoExpiry, Rotates, Balanced, SeatsHaveBookings, Create, Bystands;
    if Books(op, eventType) {
      NoExpirySameLoads(st, eventType, pool, now, op.clock.now);
      CallKeepsBalance(st, Call(op.p, op.id, op.clock), eventType, pool);
    } else {
      BystanderKeepsBalance(st, op, eventType, pool, now);
    }
  }

  lemma SplitRun(st: State, ops: seq<Op>, eventType: Id, now: Text)
    requires ops != []
    ensures Run(st, ops) == Run(Apply(st, ops[0]), ops[1..])
    ensures LastReading(ops, eventType, now) ==
            LastReading(ops[1..], eventType, if Books(ops[0], eventType) then ops[0].clock.now else now)
  {
    hide Apply;
  }
}
