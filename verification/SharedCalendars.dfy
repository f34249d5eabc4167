/**
 Conflicts through shared calendars: a host is checked against everybody who has flagged a calendar the
 host reads as their destination. The check looks from the newcomer to those already seated, never back.
 */
module SharedCalendars {
  import opened BookingGuards
  import opened Bookings
  import opened Options
  import opened Seats
  import opened Timestamps

  // ---------- every run ----------

  /** When each seat was last put at its time: by creation, by a reschedule, or by a reassignment. */
  type Ranks = map<SeatKey, nat>

  /** The later seat, whose user checks the earlier one's flagged destination, does not overlap it. */
  ghost predicate BackApart(st: State, ranks: Ranks, k: SeatKey, m: SeatKey)
    requires k in ranks && m in ranks
  {
    k.0 != m.0 && Confirmed(st, k.0) && Confirmed(st, m.0) && CountsAgainst(st, k.1, m.1) && ranks[m] <= ranks[k] ==>
      !Overlap(st.bookings[m.0].start, st.bookings[m.0].end, st.bookings[k.0].start, st.bookings[k.0].end)
  }

  ghost predicate LooksBack(st: State, ranks: Ranks) {
    ranks.Keys == st.seats.Keys && forall k, m :: k in ranks && m in ranks ==> BackApart(st, ranks, k, m)
  }

  ghost predicate RankedBelow(ranks: Ranks, n: nat) {
    forall k :: k in ranks ==> ranks[k] < n
  }

  predicate SameTimes(st: State, st': State, id: Id) {
    && id in st.bookings && id in st'.bookings
    && st'.bookings[id].start == st.bookings[id].start && st'.bookings[id].end == st.bookings[id].end
  }

  /** Seats that are new, or whose booking moved, get the number of the step. */
  function Reranked(st: State, st': State, ranks: Ranks, n: nat): Ranks {
    map k | k in st'.seats.Keys :: if k in ranks && SameTimes(st, st', k.0) then ranks[k] else n
  }

  function RunRanks(st: State, ranks: Ranks, ops: seq<Op>, n: nat): Ranks
    decreases |ops|
  {
    if ops == [] then ranks
    else RunRanks(Apply(st, ops[0]), Reranked(st, Apply(st, ops[0]), ranks, n), ops[1..], n + 1)
  }

  /** The seats of one booking that a step put at their time. */
  ghost function Newcomers(st: State, st': State, id: Id): set<User> {
    set k | k in st'.seats.Keys && k.0 == id && !(k in st.seats && SameTimes(st, st', id)) :: k.1
  }

  /** One booking changed; those newly seated at its time were checked against all other seats. */
  lemma OneBookingLooksBack(st: State, st': State, ranks: Ranks, n: nat, id: Id)
    requires LooksBack(st, ranks) && RankedBelow(ranks, n) && st'.calendars == st.calendars
    requires id in st'.bookings && forall k :: k in st'.seats && k.0 != id ==> k in st.seats
    requires forall b :: b != id ==> (b in st'.bookings <==> b in st.bookings)
    requires forall b :: b != id && b in st.bookings ==> st'.bookings[b] == st.bookings[b]
    requires Confirmed(st', id) && id in st.bookings ==> Confirmed(st, id)
    requires Clear(st, Newcomers(st, st', id), st'.bookings[id].start, st'.bookings[id].end, Some(id))
    ensures LooksBack(st', Reranked(st, st', ranks, n))
  {
    hide CountsAgainst, Overlap;
    var ranks' := Reranked(st, st', ranks, n);
    forall k, m | k in ranks' && m in ranks' ensures BackApart(st', ranks', k, m) {
      SameCalendars(st, st', k.1, m.1);
      if k in ranks && SameTimes(st, st', k.0) {
        assert ranks'[m] <= ranks'[k] ==> m in ranks && SameTimes(st, st', m.0);
        if m in ranks && SameTimes(st, st', m.0) { assert BackApart(st, ranks, k, m); }
      } else if m.0 != k.0 && Confirmed(st', k.0) && Confirmed(st', m.0) {
        assert k.0 == id;
        assert k.1 in Newcomers(st, st', id);
        assert m in st.seats && Confirmed(st, m.0);
      }
    }
  }

  /** Nobody newly seated: cancellations and steps on other columns. */
  lemma OthersLookBack(st: State, st': State, ranks: Ranks, n: nat)
    requires LooksBack(st, ranks) && st'.calendars == st.calendars && st'.seats.Keys == st.seats.Keys
    requires forall b :: Confirmed(st', b) ==> Confirmed(st, b)
    requires st'.bookings.Keys == st.bookings.Keys && forall b :: b in st.bookings ==> SameTimes(st, st', b)
    requires SeatsHaveBookings(st)
    ensures LooksBack(st', Reranked(st, st', ranks, n))
  {
    hide CountsAgainst, Overlap;
    var ranks' := Reranked(st, st', ranks, n);
    assert ranks' == ranks;
    forall k, m | k in ranks' && m in ranks' ensures BackApart(st', ranks', k, m) {
      SameCalendars(st, st', k.1, m.1);
      assert BackApart(st, ranks, k, m);
    }
  }

  lemma CreateLooksBack(st: State, p: CreateParams, id: Id, clock: Clock, ranks: Ranks, n: nat)
    requires SeatsHaveBookings(st) && LooksBack(st, ranks) && RankedBelow(ranks, n)
    requires Create(st, p, id, clock).1.Ok?
    ensures LooksBack(Create(st, p, id, clock).0, Reranked(st, Create(st, p, id, clock).0, ranks, n))
  {
    hide Create, Select, HostBusy, Overlap, CountsAgainst, LooksBack, Clear, Reranked;
    CreateSeats(st, p, id, clock);
    CreateLeavesCalendars(st, p, id, clock);
    var st' := Create(st, p, id, clock).0;
    assert forall u :: (id, u) !in st.seats by {
      assert forall u :: (id, u) in st.seats ==> (id, u).0 in st.bookings;
    }
    forall u | u in Newcomers(st, st', id) ensures !HostBusy(st, u, p.start, p.end, Some(id)) {
      assert (id, u) in st'.seats && !HostBusy(st, u, p.start, p.end, None);
      FreeOfAll(st, u, p.start, p.end, id);
    }
    ClearMeansFree(st, Newcomers(st, st', id), p.start, p.end, Some(id));
    assert forall k :: k in st'.seats && k.0 != id ==> k == (k.0, k.1) && k in st.seats;
    OneBookingLooksBack(st, st', ranks, n, id);
  }

  lemma FreeOfAll(st: State, user: User, start: Text, end: Text, id: Id)
    requires !HostBusy(st, user, start, end, None)
    ensures !HostBusy(st, user, start, end, Some(id))
  {
    hide CountsAgainst, Overlap;
    forall k | k in st.seats.Keys ensures !BlockedBy(st, user, start, end, Some(id), k) {
      assert !BlockedBy(st, user, start, end, None, k);
    }
  }

  lemma RescheduleLooksBack(st: State, id: Id, start: Text, end: Text, now: Text, ranks: Ranks, n: nat)
    requires LooksBack(st, ranks) && RankedBelow(ranks, n)
    requires Reschedule(st, id, start, end, now).1.Ok?
    ensures LooksBack(Reschedule(st, id, start, end, now).0,
              Reranked(st, Reschedule(st, id, start, end, now).0, ranks, n))
  {
    RescheduleMoves(st, id, start, end, now);
    var st' := Moved(st, id, start, end, now);
    assert Confirmed(st, id);
    RescheduleGuards(st, id, start, end, now);
    forall u | u in Newcomers(st, st', id) ensures u in Occupants(st, id) {
      assert (id, u) in st.seats && (id, u).1 in Attendees(st, id);
    }
    hide Reschedule, HostBusy, Overlap, CountsAgainst, LooksBack, Clear, Reranked, Newcomers, Occupants, StartTaken;
    ClearMeansFree(st, Newcomers(st, st', id), start, end, Some(id));
    OneBookingLooksBack(st, st', ranks, n, id);
  }

  lemma ReassignLooksBack(st: State, id: Id, newHost: User, now: Text, ranks: Ranks, n: nat)
    requires Safe(st) && LooksBack(st, ranks) && RankedBelow(ranks, n)
    requires Reassign(st, id, newHost, now).1.Ok? && st.bookings[id].host != newHost
    ensures LooksBack(Reassign(st, id, newHost, now).0, Reranked(st, Reassign(st, id, newHost, now).0, ranks, n))
  {
    ReassignTakesFreeStart(st, id, newHost, now);
    ReassignSeats(st, id, newHost, now);
    ReassignStands(st, id, newHost, now);
    var was, st' := st.bookings[id], HandedOver(st, id, newHost, now);
    hide Reassign, HostBusy, Overlap, CountsAgainst, LooksBack, Clear, Reranked, StartTaken, Safe;
    assert Newcomers(st, st', id) == {newHost} by {
      assert SameTimes(st, st', id);
      assert forall k :: k in st'.seats.Keys && k.0 == id && k !in st.seats ==> k == (id, newHost);
      assert (id, newHost) in st'.seats.Keys && (id, newHost).1 == newHost;
    }
    ClearMeansFree(st, {newHost}, was.start, was.end, Some(id));
    OneBookingLooksBack(st, st', ranks, n, id);
  }

  lemma ReassignStands(st: State, id: Id, newHost: User, now: Text)
    requires Reassign(st, id, newHost, now).1.Ok?
    ensures Confirmed(st, id) && Reassign(st, id, newHost, now).0.calendars == st.calendars
  {
    hide HostBusy, StartTaken, Primaries, MovePrimary;
  }

  lemma ApplyLooksBack(st: State, op: Op, ranks: Ranks, n: nat)
    requires Safe(st) && LooksBack(st, ranks) && RankedBelow(ranks, n) && !op.OpSetCalendars?
    ensures LooksBack(Apply(st, op), Reranked(st, Apply(st, op), ranks, n))
  {
    hide Create, Reschedule, Reassign, Safe, LooksBack, Reranked, HostBusy, SameTimes;
    SafeHasBookings(st);
    match op
    case OpCreate(p, id, clock) =>
      FailedCreate(st, p, id, clock);
      NothingChanged(st, ranks, n);
      if Create(st, p, id, clock).1.Ok? { CreateLooksBack(st, p, id, clock, ranks, n); }
    case OpReschedule(id, start, end, now) =>
      FailedChange(st, id, start, end, "", now);
      NothingChanged(st, ranks, n);
      if Reschedule(st, id, start, end, now).1.Ok? { RescheduleLooksBack(st, id, start, end, now, ranks, n); }
    case OpReassign(id, newHost, now) =>
      FailedChange(st, id, "", "", newHost, now);
      NothingChanged(st, ranks, n);
      if Reassign(st, id, newHost, now).1.Ok? && st.bookings[id].host != newHost {
        ReassignLooksBack(st, id, newHost, now, ranks, n);
      }
    case _ =>
      KeepsTimes(st, op);
      OthersLookBack(st, Apply(st, op), ranks, n);
  }

  lemma NothingChanged(st: State, ranks: Ranks, n: nat)
    requires SeatsHaveBookings(st) && LooksBack(st, ranks)
    ensures LooksBack(st, Reranked(st, st, ranks, n))
  {
    OthersLookBack(st, st, ranks, n);
  }

  /** Same rows at the same times; bookings may have been cancelled. */
  ghost predicate SameSchedule(st: State, st': State) {
    && st'.calendars == st.calendars && st'.seats.Keys == st.seats.Keys && st'.bookings.Keys == st.bookings.Keys
    && (forall b :: b in st.bookings ==> SameTimes(st, st', b))
    && forall b :: Confirmed(st', b) ==> Confirmed(st, b)
  }

  lemma CancelKeepsTimes(st: State, id: Id, reason: string, now: Text)
    requires id in st.bookings
    ensures SameSchedule(st, MarkCancelled(st, id, reason, now))
  {
  }

  lemma KeepsTimes(st: State, op: Op)
    requires !op.OpCreate? && !op.OpReschedule? && !op.OpReassign? && !op.OpSetCalendars?
    ensures SameSchedule(st, Apply(st, op))
  {
    hide Create, Reschedule, Reassign, MarkCancelled;
    match op
    case OpCancel(_, id, reason, now) => if id in st.bookings { CancelKeepsTimes(st, id, reason, now); }
    case OpCancelByID(id, reason, now) => if id in st.bookings { CancelKeepsTimes(st, id, reason, now); }
    case OpTokenUpdate(id, reason, now) => if id in st.bookings { CancelKeepsTimes(st, id, reason, now); }
    case _ =>
  }

  /**
   The shared-calendar guard after every run with the same calendar rows: of two overlapping confirmed
   bookings, the user seated later does not check the calendar flagged as the earlier one's destination.
   */
  lemma {:induction false} EveryRunLooksBack(st: State, ranks: Ranks, ops: seq<Op>, n: nat)
    requires Safe(st) && LooksBack(st, ranks) && RankedBelow(ranks, n)
    requires forall op :: op in ops ==> !op.OpSetCalendars?
    ensures LooksBack(Run(st, ops), RunRanks(st, ranks, ops, n))
    decreases |ops|
  {
    hide Apply, Safe, LooksBack;
    if ops != [] {
      var next := Apply(st, ops[0]);
      ApplyLooksBack(st, ops[0], ranks, n);
      ApplyIsSafe(st, ops[0]);
      assert RankedBelow(Reranked(st, next, ranks, n), n + 1);
      hide Reranked, RankedBelow;
      EveryRunLooksBack(next, Reranked(st, next, ranks, n), ops[1..], n + 1);
    }
  }

  // ---------- two bookings in either order ----------

  /** A booking with one host, no optional ones and no limits. */
  predicate Plain(p: CreateParams, host: User) {
    p.hosts == [host] && !p.roundRobin && p.optional == [] && p.maxActive <= 0 && p.maxPerHour <= 0
  }

  /** The host is clear, the start is free and the id is new. */
  ghost predicate Ready(st: State, p: CreateParams, id: Id, host: User) {
    && Plain(p, host) && id !in st.bookings && (forall u :: (id, u) !in st.seats)
    && Clear(st, {host}, p.start, p.end, None) && !StartTaken(st, host, p.start, None)
  }

  /**
   After another host's booking, a clear host no longer is exactly by reading that host's calendar at
   an overlapping time.
   */
  lemma BusyByOneMore(st: State, p: CreateParams, a: Id, u: User, clock: Clock, v: User, start: Text, end: Text)
    requires Ready(st, p, a, u) && Clear(st, {v}, start, end, None)
    ensures var st' := Create(st, p, a, clock).0;
            !Clear(st', {v}, start, end, None) <==> CountsAgainst(st, v, u) && Overlap(p.start, p.end, start, end)
  {
    hide Create, CountsAgainst, Overlap, StartTaken, Render;
    OneHostAccepted(st, p, a, clock, u);
    var st' := Create(st, p, a, clock).0;
    assert (a, u) in st'.seats && st'.bookings[a].start == p.start && st'.bookings[a].end == p.end;
    assert forall k :: k in st'.seats && k != (a, u) ==> k in st.seats && k == (k.0, k.1);
    forall m ensures CountsAgainst(st', v, m) <==> CountsAgainst(st, v, m) {
      SameCalendars(st, st', v, m);
    }
  }

  /**
   Two hosts' overlapping bookings, one after the other: the second goes through unless its host reads
   the first's calendar.
   */
  lemma SecondBookingExact(
      st: State, p: CreateParams, a: Id, u: User, c: Clock, q: CreateParams, b: Id, v: User, d: Clock)
    requires u != v && a != b && Ready(st, p, a, u) && Ready(st, q, b, v) && Overlap(p.start, p.end, q.start, q.end)
    ensures Create(st, p, a, c).1.Ok?
    ensures Create(Create(st, p, a, c).0, q, b, d).1.Ok? <==> !CountsAgainst(st, v, u)
  {
    hide Create, CountsAgainst, Overlap, Clear, Render, TextLess, ActiveSet, RecentSet;
    OneHostAccepted(st, p, a, c, u);
    BusyByOneMore(st, p, a, u, c, v, q.start, q.end);
    var st' := Create(st, p, a, c).0;
    assert !StartTaken(st', v, q.start, None);
    assert forall w :: (b, w) in st'.seats ==> (b, w) in st.seats;
    if CountsAgainst(st, v, u) {
      BusyHostRefused(st', q, b, d, v);
    } else {
      OneHostAccepted(st', q, b, d, v);
    }
  }

  /**
   Both orders: each has its own verdict, and they agree if and only if the two users' calendars are
   checked both ways or neither way.
   */
  lemma OrderMattersExactly(
      st: State, p: CreateParams, a: Id, u: User, c: Clock, q: CreateParams, b: Id, v: User, d: Clock)
    requires u != v && a != b && Ready(st, p, a, u) && Ready(st, q, b, v) && Overlap(p.start, p.end, q.start, q.end)
    ensures var pq, qp := Create(Create(st, p, a, c).0, q, b, d).1.Ok?, Create(Create(st, q, b, d).0, p, a, c).1.Ok?;
            && (pq <==> !CountsAgainst(st, v, u))
            && (qp <==> !CountsAgainst(st, u, v))
            && (pq == qp <==> (CountsAgainst(st, u, v) <==> CountsAgainst(st, v, u)))
  {
    hide Create, CountsAgainst, Clear, Render, StartTaken, TextLess;
    SecondBookingExact(st, p, a, u, c, q, b, v, d);
    SecondBookingExact(st, q, b, v, d, p, a, u, c);
  }

  /** Ada and Bob have one calendar flagged as destination, which Ada reads for conflicts and Bob does not. */
  const SHARED: CalendarRow := CalendarRow("ada", "google", "team@example.com", "rota", true, true)
  const TARGET: CalendarRow := CalendarRow("bob", "google", "team@example.com", "rota", false, true)
  const ONE_WAY: State := EMPTY.(calendars := {SHARED, TARGET})

  /** One hour with the given host. */
  function HourWith(host: User): CreateParams {
    CreateParams("call", [host], false, "", [], [],
                 Stamp(2026, 6, 15, 9, 0, 0, 0), Stamp(2026, 6, 15, 10, 0, 0, 0), "bo@example.com", 0, 0)
  }

  lemma HourTexts()
    ensures var p := HourWith("bob"); TextLess(p.start, p.end)
  {
    var p := HourWith("bob");
    SecondsFollowFields(p.startAt, p.endAt);
    WholeSecondsCompareExactly(p.startAt, p.endAt);
  }

  lemma AdaReadsBob()
    ensures CountsAgainst(ONE_WAY, "ada", "bob") && !CountsAgainst(ONE_WAY, "bob", "ada")
  {
    assert SHARED in ONE_WAY.calendars && TARGET in ONE_WAY.calendars;
  }

  lemma ReadyHours()
    ensures Ready(ONE_WAY, HourWith("bob"), "a", "bob") && Ready(ONE_WAY, HourWith("ada"), "b", "ada")
  {
    hide TextLess, Render, CountsAgainst;
  }

  /** The same two hours in the two orders: with Bob's first Ada's is refused, with Ada's first both are accepted. */
  lemma SharedCheckIsOneWay(clock: Clock)
    ensures Create(Create(ONE_WAY, HourWith("bob"), "a", clock).0, HourWith("ada"), "b", clock).1.Err?
    ensures Create(Create(ONE_WAY, HourWith("ada"), "b", clock).0, HourWith("bob"), "a", clock).1.Ok?
  {
    HourTexts();
    AdaReadsBob();
    ReadyHours();
    hide Create, TextLess, Render, CountsAgainst, Ready;
    assert "ada" != "bob" by { assert "ada"[0] != "bob"[0]; }
    assert "a" != "b" by { assert "a"[0] != "b"[0]; }
    OrderMattersExactly(ONE_WAY, HourWith("bob"), "a", "bob", clock, HourWith("ada"), "b", "ada", clock);
  }
}
