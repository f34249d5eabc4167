/**
 What the guards of the booking transactions refuse, and that they refuse nothing else: the
 unique start of a host, conflicts through shared calendars, and the exact cases in which a
 reschedule, a reassignment or a host selection goes through.
 */
module BookingGuards {
  import opened Bookings
  import opened Options
  import opened Seats
  import opened Timestamps

  // ---------- one start per host ----------

  /** No host has two confirmed bookings with the same start. */
  ghost predicate UniqueStarts(st: State) {
    forall a, b :: Confirmed(st, a) && Confirmed(st, b) && a != b && st.bookings[a].host == st.bookings[b].host ==>
      st.bookings[a].start != st.bookings[b].start
  }

  /** One booking gets this host and start, which no other confirmed booking has. */
  lemma OneStartMore(st: State, st': State, id: Id)
    requires UniqueStarts(st) && id in st'.bookings
    requires forall b :: b != id ==> (b in st'.bookings <==> b in st.bookings)
    requires forall b :: b != id && b in st.bookings ==> st'.bookings[b] == st.bookings[b]
    requires !StartTaken(st, st'.bookings[id].host, st'.bookings[id].start, Some(id))
    ensures UniqueStarts(st')
  {
    hide TextLess;
    var host, start := st'.bookings[id].host, st'.bookings[id].start;
    forall b | Confirmed(st', b) && b != id ensures st'.bookings[b].host == host ==> st'.bookings[b].start != start {
      assert b in st.bookings.Keys;
    }
    forall a, b | Confirmed(st', a) && Confirmed(st', b) && a != b && st'.bookings[a].host == st'.bookings[b].host
      ensures st'.bookings[a].start != st'.bookings[b].start
    {
      assert a != id && b != id ==> Confirmed(st, a) && Confirmed(st, b);
    }
  }

  lemma FewerConfirmed(st: State, st': State)
    requires UniqueStarts(st)
    requires forall b :: Confirmed(st', b) ==>
               Confirmed(st, b) && st'.bookings[b].host == st.bookings[b].host &&
                   st'.bookings[b].start == st.bookings[b].start
    ensures UniqueStarts(st')
  {
  }

  lemma CreateTakesFreeStart(st: State, p: CreateParams, id: Id, clock: Clock)
    requires Create(st, p, id, clock).1.Ok?
    ensures var b := Create(st, p, id, clock).0.bookings[id]; !StartTaken(st, b.host, b.start, Some(id))
  {
    hide Select, JoinOptional, Distinct, ActiveSet, RecentSet, NewSeats;
  }

  lemma RescheduleTakesFreeStart(st: State, id: Id, start: Text, end: Text, now: Text)
    requires Reschedule(st, id, start, end, now).1.Ok?
    ensures id in st.bookings && !StartTaken(st, st.bookings[id].host, start, Some(id))
    ensures Reschedule(st, id, start, end, now).0 == Moved(st, id, start, end, now)
  {
    hide HostBusy, Occupants, StartTaken;
  }

  lemma ReassignTakesFreeStart(st: State, id: Id, newHost: User, now: Text)
    requires Reassign(st, id, newHost, now).1.Ok? && st.bookings[id].host != newHost
    ensures id in st.bookings && !StartTaken(st, newHost, st.bookings[id].start, Some(id))
    ensures Reassign(st, id, newHost, now).0 == HandedOver(st, id, newHost, now)
  {
    hide HostBusy, Primaries, MovePrimary, StartTaken;
  }

  lemma CreateKeepsStarts(st: State, p: CreateParams, id: Id, clock: Clock)
    requires UniqueStarts(st) && Create(st, p, id, clock).1.Ok?
    ensures UniqueStarts(Create(st, p, id, clock).0)
  {
    hide Create, Select, HostBusy, NewBooking, StartTaken, UniqueStarts;
    CreateSeats(st, p, id, clock);
    CreateTakesFreeStart(st, p, id, clock);
    OneStartMore(st, Create(st, p, id, clock).0, id);
  }

  lemma ApplyKeepsStarts(st: State, op: Op)
    requires UniqueStarts(st)
    ensures UniqueStarts(Apply(st, op))
  {
    hide Create, Reschedule, Reassign, StartTaken, UniqueStarts;
    match op
    case OpCreate(p, id, clock) =>
      FailedCreate(st, p, id, clock);
      if Create(st, p, id, clock).1.Ok? { CreateKeepsStarts(st, p, id, clock); }
    case OpReschedule(id, start, end, now) =>
      FailedChange(st, id, start, end, "", now);
      if Reschedule(st, id, start, end, now).1.Ok? {
        RescheduleTakesFreeStart(st, id, start, end, now);
        OneStartMore(st, Apply(st, op), id);
      }
    case OpReassign(id, newHost, now) =>
      FailedChange(st, id, "", "", newHost, now);
      if Reassign(st, id, newHost, now).1.Ok? && st.bookings[id].host != newHost {
        ReassignTakesFreeStart(st, id, newHost, now);
        OneStartMore(st, Apply(st, op), id);
      }
    case _ => FewerConfirmed(st, Apply(st, op));
  }

  /** A refused or idle change leaves the tables alone. */
  lemma FailedChange(st: State, id: Id, start: Text, end: Text, newHost: User, now: Text)
    ensures Reschedule(st, id, start, end, now).1.Err? ==> Reschedule(st, id, start, end, now).0 == st
    ensures Reassign(st, id, newHost, now).1.Err? || st.bookings[id].host == newHost ==>
              Reassign(st, id, newHost, now).0 == st
    ensures Reassign(st, id, newHost, now).1.Ok? ==> id in st.bookings
  {
    hide HostBusy, Occupants, StartTaken, Primaries, MovePrimary;
  }

  /** The partial unique index holds after every run. */
  lemma {:induction false} EveryRunKeepsStarts(st: State, ops: seq<Op>)
    requires UniqueStarts(st)
    ensures UniqueStarts(Run(st, ops))
    decreases |ops|
  {
    hide Apply, UniqueStarts;
    if ops != [] {
      ApplyKeepsStarts(st, ops[0]);
      EveryRunKeepsStarts(Apply(st, ops[0]), ops[1..]);
    }
  }

  // ---------- shared calendars ----------

  /** Each of the two checks a calendar flagged as the other's destination, or they are one user. */
  predicate Mutual(st: State, u: User, v: User) {
    CountsAgainst(st, u, v) && CountsAgainst(st, v, u)
  }

  ghost predicate SharedApart(st: State, k: SeatKey, m: SeatKey) {
    k.0 != m.0 && Mutual(st, k.1, m.1) && Confirmed(st, k.0) && Confirmed(st, m.0) ==>
      !Overlap(st.bookings[k.0].start, st.bookings[k.0].end, st.bookings[m.0].start, st.bookings[m.0].end)
  }

  /** No two overlapping confirmed bookings seat users that mutually check each other's calendars. */
  ghost predicate NoSharedDoubleBooking(st: State) {
    forall k, m :: k in st.seats && m in st.seats ==> SharedApart(st, k, m)
  }

  /** This one booking was checked against the seats of all the others. */
  ghost predicate Checked(st: State, id: Id)
    requires id in st.bookings
  {
    forall u, m :: (id, u) in st.seats && m in st.seats && m.0 != id && Confirmed(st, m.0) && Mutual(st, u, m.1) ==>
      !Overlap(st.bookings[m.0].start, st.bookings[m.0].end, st.bookings[id].start, st.bookings[id].end)
  }

  lemma OneBookingChecked(st: State, st': State, id: Id)
    requires NoSharedDoubleBooking(st) && id in st'.bookings && Checked(st', id) && st'.calendars == st.calendars
    requires forall k :: k in st'.seats && k.0 != id ==> k in st.seats
    requires forall b :: b != id ==> (b in st'.bookings <==> b in st.bookings)
    requires forall b :: b != id && b in st.bookings ==> st'.bookings[b] == st.bookings[b]
    ensures NoSharedDoubleBooking(st')
  {
    hide CountsAgainst, TextLess;
    forall k, m | k in st'.seats && m in st'.seats ensures SharedApart(st', k, m) {
      if k.0 == id {
        assert k == (id, k.1);
      } else if m.0 == id {
        assert m == (id, m.1);
      } else {
        SameCalendars(st, st', k.1, m.1);
        SameCalendars(st, st', m.1, k.1);
        assert SharedApart(st, k, m);
      }
    }
  }

  lemma FreeMeansChecked(st: State, user: User, start: Text, end: Text, exclude: Option<Id>, m: SeatKey)
    requires !HostBusy(st, user, start, end, exclude)
    requires m in st.seats && Confirmed(st, m.0) && exclude != Some(m.0) && CountsAgainst(st, user, m.1)
    ensures !Overlap(st.bookings[m.0].start, st.bookings[m.0].end, start, end)
  {
    hide CountsAgainst, Overlap;
    assert !BlockedBy(st, user, start, end, exclude, m);
  }

  lemma CreateKeepsShared(st: State, p: CreateParams, id: Id, clock: Clock)
    requires SeatsHaveBookings(st) && NoSharedDoubleBooking(st)
    ensures NoSharedDoubleBooking(Create(st, p, id, clock).0)
  {
    hide Create, Select, HostBusy, Overlap, CountsAgainst, NoSharedDoubleBooking;
    FailedCreate(st, p, id, clock);
    if Create(st, p, id, clock).1.Ok? {
      CreateSeats(st, p, id, clock);
      CreateLeavesCalendars(st, p, id, clock);
      var st' := Create(st, p, id, clock).0;
      assert forall u :: (id, u) !in st.seats by {
        assert forall u :: (id, u) in st.seats ==> (id, u).0 in st.bookings;
      }
      forall u, m | (id, u) in st'.seats && m in st'.seats && m.0 != id && Confirmed(st', m.0) && Mutual(st', u, m.1)
        ensures !Overlap(st'.bookings[m.0].start, st'.bookings[m.0].end, p.start, p.end)
      {
        assert m == (m.0, m.1) && CountsAgainst(st', u, m.1);
        SameCalendars(st, st', u, m.1);
        FreeMeansChecked(st, u, p.start, p.end, None, m);
      }
      assert forall k :: k in st'.seats && k.0 != id ==> k == (k.0, k.1);
      OneBookingChecked(st, st', id);
    }
  }

  lemma SameCalendars(st: State, st': State, u: User, v: User)
    requires st'.calendars == st.calendars
    ensures CountsAgainst(st', u, v) <==> CountsAgainst(st, u, v)
  {
  }

  lemma CreateLeavesCalendars(st: State, p: CreateParams, id: Id, clock: Clock)
    ensures Create(st, p, id, clock).0.calendars == st.calendars
  {
    hide Select, JoinOptional, StartTaken, Distinct, ActiveSet, RecentSet, NewSeats;
  }

  function Moved(st: State, id: Id, start: Text, end: Text, now: Text): State
    requires id in st.bookings
  {
    st.(bookings := st.bookings[id := st.bookings[id].(start := start, end := end, updatedAt := now)])
  }

  function HandedOver(st: State, id: Id, newHost: User, now: Text): State
    requires id in st.bookings
  {
    st.(bookings := st.bookings[id := st.bookings[id].(host := newHost, updatedAt := now)],
        seats := MovePrimary(st.seats, id, newHost))
  }

  /** Every occupant is free at the new time exactly when the moved booking clashes with nobody. */
  lemma OccupantsFree(st: State, id: Id, start: Text, end: Text, now: Text)
    requires id in st.bookings && Attendees(st, id) != {}
    ensures (forall u :: u in Occupants(st, id) ==> !HostBusy(st, u, start, end, Some(id))) ==>
              Checked(Moved(st, id, start, end, now), id)
    ensures Symmetric(st) && Checked(Moved(st, id, start, end, now), id) ==>
              forall u :: u in Occupants(st, id) ==> !HostBusy(st, u, start, end, Some(id))
  {
    hide CountsAgainst, Overlap;
    var st' := Moved(st, id, start, end, now);
    assert forall u, v :: CountsAgainst(st', u, v) <==> CountsAgainst(st, u, v) by {
      forall u, v ensures CountsAgainst(st', u, v) <==> CountsAgainst(st, u, v) { SameCalendars(st, st', u, v); }
    }
    if forall u :: u in Occupants(st, id) ==> !HostBusy(st, u, start, end, Some(id)) {
      forall u, m | (id, u) in st'.seats && m in st'.seats && m.0 != id && Confirmed(st', m.0) && Mutual(st', u, m.1)
        ensures !Overlap(st'.bookings[m.0].start, st'.bookings[m.0].end, start, end)
      {
        assert (id, u).1 in Attendees(st, id);
        FreeMeansChecked(st, u, start, end, Some(id), m);
      }
    }
    if Symmetric(st) && Checked(st', id) {
      forall u | u in Occupants(st, id) ensures !HostBusy(st, u, start, end, Some(id)) {
        forall m | m in st.seats.Keys ensures !BlockedBy(st, u, start, end, Some(id), m) {
          assert (id, u) in st'.seats;
          assert CountsAgainst(st, u, m.1) ==> Mutual(st', u, m.1);
        }
      }
    }
  }

  /** Calendars are checked both ways. */
  ghost predicate Symmetric(st: State) {
    forall u, v :: CountsAgainst(st, u, v) ==> CountsAgainst(st, v, u)
  }

  lemma RescheduleKeepsShared(st: State, id: Id, start: Text, end: Text, now: Text)
    requires NoSharedDoubleBooking(st)
    ensures NoSharedDoubleBooking(Reschedule(st, id, start, end, now).0)
  {
    FailedChange(st, id, start, end, "", now);
    if Reschedule(st, id, start, end, now).1.Ok? {
      RescheduleTakesFreeStart(st, id, start, end, now);
      var st' := Moved(st, id, start, end, now);
      if Attendees(st, id) != {} {
        hide HostBusy, StartTaken;
        OccupantsFree(st, id, start, end, now);
      } else {
        forall k | k in st'.seats ensures k.0 != id {
          assert k.0 == id ==> k.1 in Attendees(st, id);
        }
      }
      hide *;
      OneBookingCheckedMoved(st, id, start, end, now);
    }
  }

  lemma OneBookingCheckedMoved(st: State, id: Id, start: Text, end: Text, now: Text)
    requires id in st.bookings && NoSharedDoubleBooking(st) && Checked(Moved(st, id, start, end, now), id)
    ensures NoSharedDoubleBooking(Moved(st, id, start, end, now))
  {
    hide NoSharedDoubleBooking, Checked;
    OneBookingChecked(st, Moved(st, id, start, end, now), id);
  }

  /** The newcomer is free exactly when no seat of the booking clashes, if none did before. */
  lemma NewcomerFree(st: State, id: Id, newHost: User, now: Text)
    requires Safe(st) && NoSharedDoubleBooking(st) && Confirmed(st, id)
    requires st.bookings[id].host != newHost && ((id, newHost) in st.seats ==> st.seats[(id, newHost)].primary)
    ensures var b := st.bookings[id];
            !HostBusy(st, newHost, b.start, b.end, Some(id)) ==> NoSharedDoubleBooking(HandedOver(st, id, newHost, now))
    ensures var b := st.bookings[id];
            Symmetric(st) && NoSharedDoubleBooking(HandedOver(st, id, newHost, now)) ==>
                !HostBusy(st, newHost, b.start, b.end, Some(id))
  {
    var b, st' := st.bookings[id], HandedOver(st, id, newHost, now);
    SeatsHandedOver(st, id, newHost, now);
    hide CountsAgainst, Overlap, Safe, HandedOver, NoSharedDoubleBooking;
    assert forall u, v :: CountsAgainst(st', u, v) <==> CountsAgainst(st, u, v) by {
      forall u, v ensures CountsAgainst(st', u, v) <==> CountsAgainst(st, u, v) { SameCalendars(st, st', u, v); }
    }
    if !HostBusy(st, newHost, b.start, b.end, Some(id)) {
      forall m | m in st.seats && m.0 != id && Confirmed(st, m.0) && Mutual(st, newHost, m.1)
        ensures !Overlap(st.bookings[m.0].start, st.bookings[m.0].end, b.start, b.end)
      {
        FreeMeansChecked(st, newHost, b.start, b.end, Some(id), m);
      }
      StillChecked(st, st', id, newHost);
      OneBookingChecked(st, st', id);
    }
    if Symmetric(st) && NoSharedDoubleBooking(st') {
      forall m | m in st.seats.Keys ensures !BlockedBy(st, newHost, b.start, b.end, Some(id), m) {
        assert m.0 != id ==> m in st'.seats;
        assert CountsAgainst(st, newHost, m.1) ==> Mutual(st', newHost, m.1);
        if m.0 != id { SharedPair(st', m, (id, newHost)); }
      }
    }
  }

  lemma SharedPair(st: State, k: SeatKey, m: SeatKey)
    requires NoSharedDoubleBooking(st) && k in st.seats && m in st.seats
    ensures SharedApart(st, k, m)
  {
    hide SharedApart;
  }

  /** The primary seat moves to newHost; the others stay. */
  lemma SeatsHandedOver(st: State, id: Id, newHost: User, now: Text)
    requires Safe(st) && id in st.bookings && st.bookings[id].host != newHost
    requires (id, newHost) in st.seats ==> st.seats[(id, newHost)].primary
    ensures var was, st' := st.bookings[id], HandedOver(st, id, newHost, now);
            && st'.calendars == st.calendars && (id, newHost) in st'.seats
            && st'.bookings == st.bookings[id := was.(host := newHost, updatedAt := now)]
            && (forall k :: k in st'.seats <==> k == (id, newHost) || (k in st.seats && k != (id, was.host)))
  {
    hide NoDoubleBooking, SeatsHaveBookings;
    forall k | k in st.seats && k.0 == id ensures st.seats[k].primary <==> k == (id, st.bookings[id].host) {
      assert HasHostSeat(st, k);
    }
  }

  /** Replacing an attendee by one who is free keeps the booking clear of all others. */
  lemma StillChecked(st: State, st': State, id: Id, newHost: User)
    requires NoSharedDoubleBooking(st) && Confirmed(st, id) && st'.calendars == st.calendars
    requires st'.bookings.Keys == st.bookings.Keys
    requires forall b :: b in st.bookings ==>
               && st'.bookings[b].start == st.bookings[b].start && st'.bookings[b].end == st.bookings[b].end
               && st'.bookings[b].cancelled == st.bookings[b].cancelled
    requires forall k :: k in st'.seats ==> k == (id, newHost) || k in st.seats
    requires forall m :: m in st.seats && m.0 != id && Confirmed(st, m.0) && Mutual(st, newHost, m.1) ==>
               !Overlap(st.bookings[m.0].start, st.bookings[m.0].end, st.bookings[id].start, st.bookings[id].end)
    ensures Checked(st', id)
  {
    hide CountsAgainst, Overlap;
    forall u, m | (id, u) in st'.seats && m in st'.seats && m.0 != id && Confirmed(st', m.0) && Mutual(st', u, m.1)
      ensures !Overlap(st'.bookings[m.0].start, st'.bookings[m.0].end, st'.bookings[id].start, st'.bookings[id].end)
    {
      SameCalendars(st, st', u, m.1);
      SameCalendars(st, st', m.1, u);
      assert (id, newHost).1 == newHost;
      if u != newHost {
        assert (id, u) in st.seats && SharedApart(st, m, (id, u));
      }
    }
  }

  lemma ReassignKeepsShared(st: State, id: Id, newHost: User, now: Text)
    requires Safe(st) && NoSharedDoubleBooking(st)
    ensures NoSharedDoubleBooking(Reassign(st, id, newHost, now).0)
  {
    FailedChange(st, id, "", "", newHost, now);
    if Reassign(st, id, newHost, now).1.Ok? && st.bookings[id].host != newHost {
      ReassignTakesFreeStart(st, id, newHost, now);
      hide Safe, NoSharedDoubleBooking, HostBusy, StartTaken, MovePrimary;
      NewcomerFree(st, id, newHost, now);
    }
  }

  lemma OtherStepsKeepShared(st: State, st': State)
    requires NoSharedDoubleBooking(st) && st'.calendars == st.calendars && st'.seats.Keys == st.seats.Keys
    requires forall b :: Confirmed(st', b) ==>
               Confirmed(st, b) && st'.bookings[b].start == st.bookings[b].start &&
                   st'.bookings[b].end == st.bookings[b].end
    ensures NoSharedDoubleBooking(st')
  {
    hide Overlap;
    forall k, m | k in st'.seats && m in st'.seats ensures SharedApart(st', k, m) {
      assert SharedApart(st, k, m);
    }
  }

  lemma SafeHasBookings(st: State)
    requires Safe(st)
    ensures SeatsHaveBookings(st)
  {
    hide SeatsHaveBookings, NoDoubleBooking, PrimaryIsHost;
  }

  /** While calendar rows stay as they are, every step keeps mutual checkers apart. */
  lemma ApplyKeepsShared(st: State, op: Op)
    requires Safe(st) && NoSharedDoubleBooking(st) && !op.OpSetCalendars?
    ensures NoSharedDoubleBooking(Apply(st, op))
  {
    hide Create, Reschedule, Reassign, Safe, NoSharedDoubleBooking;
    match op
    case OpCreate(p, id, clock) =>
      SafeHasBookings(st);
      CreateKeepsShared(st, p, id, clock);
    case OpReschedule(id, start, end, now) => RescheduleKeepsShared(st, id, start, end, now);
    case OpReassign(id, newHost, now) => ReassignKeepsShared(st, id, newHost, now);
    case _ => OtherStepsKeepShared(st, Apply(st, op));
  }

  lemma {:induction false} EveryRunKeepsShared(st: State, ops: seq<Op>)
    requires Safe(st) && NoSharedDoubleBooking(st) && forall op :: op in ops ==> !op.OpSetCalendars?
    ensures NoSharedDoubleBooking(Run(st, ops))
    decreases |ops|
  {
    hide Apply, Safe, NoSharedDoubleBooking;
    if ops != [] {
      ApplyKeepsShared(st, ops[0]);
      ApplyIsSafe(st, ops[0]);
      EveryRunKeepsShared(Apply(st, ops[0]), ops[1..]);
    }
  }

  // ---------- what is refused ----------

  /**
   Exactly which reschedules of a confirmed booking go through: everybody who occupies it is clear at
   the new time (the host of a booking without seats), and its host keeps unique starts.
   */
  lemma RescheduleExact(st: State, id: Id, start: Text, end: Text, now: Text)
    requires UniqueStarts(st) && Confirmed(st, id)
    ensures Reschedule(st, id, start, end, now).1.Ok? <==>
              && (forall u :: Occupies(st, id, u) ==> Clear(st, {u}, start, end, Some(id)))
              && UniqueStarts(Moved(st, id, start, end, now))
    ensures Reschedule(st, id, start, end, now) ==
            if Reschedule(st, id, start, end, now).1.Err? then (st, Err(DoubleBooked))
            else (Moved(st, id, start, end, now), Ok(()))
  {
    var st' := Moved(st, id, start, end, now);
    assert Confirmed(st', id) && st'.bookings.Keys == st.bookings.Keys;
    RescheduleGuards(st, id, start, end, now);
    if Reschedule(st, id, start, end, now).1.Ok? { RescheduleMoves(st, id, start, end, now); }
    hide HostBusy, UniqueStarts, StartTaken, Reschedule, Occupants, Clear, Occupies;
    OneClear(st, start, end, Some(id));
    OccupiesExactly(st, id);
    StartFree(st, st', id);
  }

  /** The user holds a seat of the booking, or leads it and nobody holds one. */
  predicate Occupies(st: State, id: Id, u: User) {
    || (id, u) in st.seats
    || (id in st.bookings && u == st.bookings[id].host && forall k :: k in st.seats.Keys ==> k.0 != id)
  }

  lemma OccupiesExactly(st: State, id: Id)
    requires id in st.bookings
    ensures forall u :: u in Occupants(st, id) <==> Occupies(st, id, u)
  {
    forall u ensures u in Attendees(st, id) <==> (id, u) in st.seats {
      assert (id, u) in st.seats.Keys ==> (id, u).1 in Attendees(st, id);
    }
    assert forall k :: k in st.seats.Keys && k.0 == id ==> k.1 in Attendees(st, id);
  }

  lemma RescheduleMoves(st: State, id: Id, start: Text, end: Text, now: Text)
    requires Reschedule(st, id, start, end, now).1.Ok?
    ensures id in st.bookings && Reschedule(st, id, start, end, now) == (Moved(st, id, start, end, now), Ok(()))
  {
    hide HostBusy, Occupants, StartTaken;
  }

  /**
   With calendars checked both ways, a reschedule of a seated booking is refused exactly when moving
   it would break a guard: it succeeds if and only if the moved tables keep both invariants.
   */
  lemma RescheduleKeepsGuards(st: State, id: Id, start: Text, end: Text, now: Text)
    requires NoSharedDoubleBooking(st) && UniqueStarts(st) && Symmetric(st) && Confirmed(st, id) &&
              Attendees(st, id) != {}
    ensures Reschedule(st, id, start, end, now).1.Ok? <==>
              && NoSharedDoubleBooking(Moved(st, id, start, end, now))
              && UniqueStarts(Moved(st, id, start, end, now))
  {
    var st' := Moved(st, id, start, end, now);
    assert Confirmed(st', id) && st'.bookings.Keys == st.bookings.Keys;
    hide HostBusy, NoSharedDoubleBooking, Symmetric, UniqueStarts, StartTaken, Reschedule;
    hide Attendees, Occupants, Checked;
    RescheduleGuards(st, id, start, end, now);
    OccupantsFree(st, id, start, end, now);
    if NoSharedDoubleBooking(st') { SharedMeansChecked(st', id); }
    if Checked(st', id) { OneBookingCheckedMoved(st, id, start, end, now); }
    StartFree(st, st', id);
  }

  lemma RescheduleGuards(st: State, id: Id, start: Text, end: Text, now: Text)
    requires Confirmed(st, id)
    ensures Reschedule(st, id, start, end, now).1.Ok? <==>
              && (forall u :: u in Occupants(st, id) ==> !HostBusy(st, u, start, end, Some(id)))
              && !StartTaken(st, st.bookings[id].host, start, Some(id))
    ensures Reschedule(st, id, start, end, now).1.Err? ==>
              Reschedule(st, id, start, end, now) == (st, Err(DoubleBooked))
  {
    hide HostBusy, StartTaken, Occupants;
  }

  lemma SharedMeansChecked(st: State, id: Id)
    requires NoSharedDoubleBooking(st) && Confirmed(st, id)
    ensures Checked(st, id)
  {
    hide CountsAgainst, Overlap;
    forall u, m | (id, u) in st.seats && m in st.seats && m.0 != id && Confirmed(st, m.0) && Mutual(st, u, m.1)
      ensures !Overlap(st.bookings[m.0].start, st.bookings[m.0].end, st.bookings[id].start, st.bookings[id].end)
    {
      assert SharedApart(st, m, (id, u));
    }
  }

  /** The index admits the changed row exactly when starts stay unique. */
  lemma StartFree(st: State, st': State, id: Id)
    requires UniqueStarts(st) && Confirmed(st', id) && st'.bookings.Keys == st.bookings.Keys
    requires forall b :: b != id && b in st.bookings ==> st'.bookings[b] == st.bookings[b]
    ensures UniqueStarts(st') <==> !StartTaken(st, st'.bookings[id].host, st'.bookings[id].start, Some(id))
  {
    if !StartTaken(st, st'.bookings[id].host, st'.bookings[id].start, Some(id)) {
      OneStartMore(st, st', id);
    } else {
      var b :| b in st.bookings.Keys && b != id && !st.bookings[b].cancelled &&
        st.bookings[b].host == st'.bookings[id].host && st.bookings[b].start == st'.bookings[id].start;
      assert Confirmed(st', b) && Confirmed(st', id);
    }
  }

  /**
   Exactly which reassignments of a confirmed booking go through: to the host it has, or to somebody
   who is clear at its time, does not attend it yet, and keeps unique starts; with the error otherwise.
   */
  lemma ReassignExact(st: State, id: Id, newHost: User, now: Text)
    requires Safe(st) && UniqueStarts(st) && Confirmed(st, id)
    ensures var b, r := st.bookings[id], Reassign(st, id, newHost, now);
            if b.host == newHost then r == (st, Ok(()))
            else if !Clear(st, {newHost}, b.start, b.end, Some(id)) then r == (st, Err(DoubleBooked))
            else if (id, newHost) in st.seats then r == (st, Err(HostAlreadyAssigned))
            else if !UniqueStarts(HandedOver(st, id, newHost, now)) then r == (st, Err(DoubleBooked))
            else r == (HandedOver(st, id, newHost, now), Ok(()))
  {
    var st' := HandedOver(st, id, newHost, now);
    var b := st.bookings[id];
    OnePrimary(st, id);
    assert (id, newHost) in st.seats ==> HasHostSeat(st, (id, newHost));
    hide HostBusy, UniqueStarts, StartTaken, Primaries, MovePrimary, Safe, Clear, CountsAgainst;
    ClearMeansFree(st, {newHost}, b.start, b.end, Some(id));
    if b.host != newHost {
      StartFree(st, st', id);
    }
  }

  /**
   With calendars checked both ways, a reassignment to somebody not yet attending is refused exactly
   when handing the booking over would break a guard.
   */
  lemma ReassignKeepsGuards(st: State, id: Id, newHost: User, now: Text)
    requires Safe(st) && NoSharedDoubleBooking(st) && UniqueStarts(st) && Symmetric(st)
    requires Confirmed(st, id) && st.bookings[id].host != newHost && (id, newHost) !in st.seats
    ensures Reassign(st, id, newHost, now).1.Ok? <==>
              && NoSharedDoubleBooking(HandedOver(st, id, newHost, now))
              && UniqueStarts(HandedOver(st, id, newHost, now))
  {
    hide HostBusy, NoSharedDoubleBooking, Symmetric, UniqueStarts, StartTaken, Safe, Reassign, Clear;
    ReassignExact(st, id, newHost, now);
    ClearMeansFree(st, {newHost}, st.bookings[id].start, st.bookings[id].end, Some(id));
    NewcomerFree(st, id, newHost, now);
  }

  lemma OnePrimary(st: State, id: Id)
    requires Safe(st) && id in st.bookings
    ensures |Primaries(st, id)| <= 1
  {
    hide NoDoubleBooking, SeatsHaveBookings;
    forall u | u in Primaries(st, id) ensures u == st.bookings[id].host {
      assert HasHostSeat(st, (id, u));
    }
    assert Primaries(st, id) <= {st.bookings[id].host};
    SubsetOfOne(Primaries(st, id), st.bookings[id].host);
  }

  lemma SubsetOfOne(s: set<User>, x: User)
    requires s <= {x}
    ensures |s| <= 1
  {
    if x in s {
      assert s == {x};
    } else {
      assert s == {};
    }
  }

  // ---------- what a Create accepts ----------

  /** Nothing confirmed counts against the user at the time asked for. */
  ghost predicate ClearFor(st: State, p: CreateParams, u: User) {
    Clear(st, {u}, Render(p.startAt), Render(p.endAt), None)
  }

  /** Every mandatory host is clear and, in round-robin, so is somebody in the pool. */
  ghost predicate Selectable(st: State, p: CreateParams) {
    if p.roundRobin then
      && (forall u :: u in p.required ==> ClearFor(st, p, u))
      && exists u :: u in p.hosts && ClearFor(st, p, u)
    else forall u :: u in p.hosts ==> ClearFor(st, p, u)
  }

  /** The clear users are those the overlap query finds nothing for. */
  lemma ClearForExact(st: State, p: CreateParams)
    ensures forall u :: ClearFor(st, p, u) <==> !HostBusy(st, u, p.start, p.end, None)
  {
    hide Clear, HostBusy;
    OneClear(st, p.start, p.end, None);
  }

  /**
   A selection exists exactly when every mandatory host is clear and, in round-robin, so is somebody
   in the pool. Outside round-robin the first of the pool leads and all of it attends; with the priority
   strategy the first clear one leads.
   */
  lemma SelectionExact(st: State, p: CreateParams, now: Text)
    requires p.hosts != []
    ensures Select(st, p, now).Ok? <==> Selectable(st, p)
    ensures Select(st, p, now).Err? ==> Select(st, p, now) == Err(DoubleBooked)
    ensures Select(st, p, now).Ok? && !p.roundRobin ==> Select(st, p, now).value == Selection(p.hosts[0], p.hosts)
    ensures Select(st, p, now).Ok? && p.roundRobin ==>
              Select(st, p, now).value.attending == p.required + [Select(st, p, now).value.chosen]
    ensures Select(st, p, now).Ok? && p.roundRobin && p.strategy == "priority" ==>
              FirstFree(st, p, Select(st, p, now).value.chosen)
  {
    hide HostBusy, ClearFor;
    ClearForExact(st, p);
    FreeHostsAreFree(st, p.hosts, p.start, p.end);
    var free := FreeHosts(st, p.hosts, p.start, p.end);
    if free != [] {
      assert free[0] in free;
      FirstOfFree(st, p, p.hosts);
    }
  }

  /** chosen is in the pool and clear, and nobody before its first place in the pool is. */
  ghost predicate FirstFree(st: State, p: CreateParams, chosen: User) {
    exists i :: 0 <= i < |p.hosts| && p.hosts[i] == chosen && ClearFor(st, p, chosen) &&
      forall j :: 0 <= j < i ==> !ClearFor(st, p, p.hosts[j])
  }

  lemma {:induction false} FirstOfFree(st: State, p: CreateParams, hosts: seq<User>)
    requires hosts <= p.hosts && FreeHosts(st, hosts, p.start, p.end) != []
    ensures FirstFree(st, p, FreeHosts(st, hosts, p.start, p.end)[0])
  {
    hide HostBusy, ClearFor;
    ClearForExact(st, p);
    var front, last := hosts[..|hosts| - 1], hosts[|hosts| - 1];
    if FreeHosts(st, front, p.start, p.end) != [] {
      FirstOfFree(st, p, front);
    } else {
      FreeHostsAreFree(st, front, p.start, p.end);
      assert p.hosts[|hosts| - 1] == last;
      forall j | 0 <= j < |hosts| - 1 ensures !ClearFor(st, p, p.hosts[j]) {
        assert p.hosts[j] == front[j] && front[j] in front;
      }
    }
  }

  lemma BusyHostRefused(st: State, p: CreateParams, id: Id, clock: Clock, host: User)
    requires p.hosts == [host] && !p.roundRobin && !ClearFor(st, p, host)
    ensures Create(st, p, id, clock) == (st, Err(DoubleBooked))
  {
    hide ClearFor;
    SelectionExact(st, p, clock.now);
    assert host in p.hosts;
  }

  /** Confirmed bookings of the event type made with the same email, whose stored end is after now. */
  ghost predicate OwnActive(st: State, p: CreateParams, now: Text, own: set<Id>) {
    forall b :: b in own ==>
      && Confirmed(st, b) && st.bookings[b].eventType == p.eventType
      && SameEmail(st.bookings[b].email, p.email) && TextLess(now, st.bookings[b].end)
  }

  /** Bookings of any kind made with the same email, whose stored creation is after hourAgo. */
  ghost predicate OwnRecent(st: State, p: CreateParams, hourAgo: Text, own: set<Id>) {
    forall b :: b in own ==>
      b in st.bookings && SameEmail(st.bookings[b].email, p.email) && TextLess(hourAgo, st.bookings[b].createdAt)
  }

  /** The invitee has as many active bookings of this event type as the cap allows. */
  ghost predicate AtCap(st: State, p: CreateParams, now: Text) {
    p.maxActive > 0 && exists own :: OwnActive(st, p, now, own) && |own| >= p.maxActive
  }

  /** The invitee has made as many bookings within the hour as the limit allows. */
  ghost predicate AtHourlyLimit(st: State, p: CreateParams, hourAgo: Text) {
    p.maxPerHour > 0 && exists own :: OwnRecent(st, p, hourAgo, own) && |own| >= p.maxPerHour
  }

  /** The counting queries reach a limit exactly when that many bookings of the invitee's own do. */
  lemma LimitsExact(st: State, p: CreateParams, now: Text, hourAgo: Text)
    ensures AtCap(st, p, now) <==> p.maxActive > 0 && |ActiveSet(st, p.eventType, p.email, now)| >= p.maxActive
    ensures AtHourlyLimit(st, p, hourAgo) <==>
              p.maxPerHour > 0 && |RecentSet(st, p.email, hourAgo)| >= p.maxPerHour
  {
    hide TextLess, SameEmail;
    var active, recent := ActiveSet(st, p.eventType, p.email, now), RecentSet(st, p.email, hourAgo);
    assert OwnActive(st, p, now, active) && OwnRecent(st, p, hourAgo, recent);
    forall own | OwnActive(st, p, now, own) ensures |own| <= |active| { CardinalityOfSubset(own, active); }
    forall own | OwnRecent(st, p, hourAgo, own) ensures |own| <= |recent| { CardinalityOfSubset(own, recent); }
  }

  /** The bookings as they would be with a new one led by this host. */
  function Added(st: State, p: CreateParams, id: Id, chosen: User, now: Text): State {
    st.(bookings := st.bookings[id := NewBooking(p, chosen, now)])
  }

  /**
   Exactly what becomes of a Create with a fresh id: refused for want of hosts, of a clear selection, of
   room in the active cap or the hourly limit, of a free start for the leading host, or because
   somebody would be seated twice, in this order; and accepted otherwise.
   */
  lemma CreateExact(st: State, p: CreateParams, id: Id, clock: Clock)
    requires SeatsHaveBookings(st) && UniqueStarts(st) && id !in st.bookings
    ensures var r := Create(st, p, id, clock).1;
            if p.hosts == [] then r == Err(NoHosts)
            else if !Selectable(st, p) then r == Err(DoubleBooked)
            else if AtCap(st, p, Render(clock.at)) then r == Err(LimitReached)
            else if AtHourlyLimit(st, p, Render(clock.hourBefore)) then r == Err(EmailThrottled)
            else
              Select(st, p, clock.now).Ok? && var sel := Select(st, p, clock.now).value;
              if !UniqueStarts(Added(st, p, id, sel.chosen, clock.now)) then r == Err(DoubleBooked)
              else if !Distinct(sel.attending) then r == Err(SeatConflict)
              else r == Ok(id)
  {
    hide AtCap, AtHourlyLimit, Select, Selectable, JoinOptional, HostBusy, StartTaken, ActiveSet, RecentSet, Distinct;
    hide NewSeats, UniqueStarts, Render, SeatsHaveBookings;
    NoSeatsYet(st, id);
    LimitsExact(st, p, clock.now, clock.hourAgo);
    if p.hosts != [] {
      SelectionExact(st, p, clock.now);
      if Select(st, p, clock.now).Ok? {
        var sel := Select(st, p, clock.now).value;
        JoinedDistinct(st, sel.attending, p.optional, p.start, p.end);
        NewStartFree(st, Added(st, p, id, sel.chosen, clock.now), id);
      }
    }
  }

  lemma NoSeatsYet(st: State, id: Id)
    requires SeatsHaveBookings(st) && id !in st.bookings
    ensures forall u :: (id, u) !in st.seats
  {
    assert forall u :: (id, u) in st.seats ==> (id, u).0 in st.bookings;
  }

  /** The index admits the new row exactly when starts stay unique. */
  lemma NewStartFree(st: State, st': State, id: Id)
    requires UniqueStarts(st) && Confirmed(st', id) && id !in st.bookings &&
              st'.bookings.Keys == st.bookings.Keys + {id}
    requires forall b :: b in st.bookings ==> st'.bookings[b] == st.bookings[b]
    ensures UniqueStarts(st') <==> !StartTaken(st, st'.bookings[id].host, st'.bookings[id].start, None)
  {
    var host, start := st'.bookings[id].host, st'.bookings[id].start;
    if !StartTaken(st, host, start, None) {
      assert !StartTaken(st, host, start, Some(id));
      OneStartMore(st, st', id);
    } else {
      var b :| b in st.bookings.Keys && !st.bookings[b].cancelled && st.bookings[b].host == host &&
          st.bookings[b].start == start;
      assert Confirmed(st', b) && Confirmed(st', id);
    }
  }

  // ---------- what a Create writes ----------

  /** Seated by a Create led by chosen: the pool, or the required hosts with chosen; and every clear optional host. */
  ghost predicate Attends(st: State, p: CreateParams, chosen: User, u: User) {
    || (if p.roundRobin then u in p.required || u == chosen else u in p.hosts)
    || (u in p.optional && ClearFor(st, p, u))
  }

  lemma BlankSeats(st: State, p: CreateParams, id: Id, clock: Clock)
    requires Create(st, p, id, clock).1.Ok?
    ensures var st' := Create(st, p, id, clock).0;
            && st'.tokens == st.tokens && st'.calendars == st.calendars && id in st'.bookings
            && forall k :: k in st'.seats && k !in st.seats ==>
                 st'.seats[k] == Seat(k.1 == st'.bookings[id].host, "", "", "", false)
  {
    hide Select, JoinOptional, StartTaken, ActiveSet, RecentSet, Distinct;
  }

  /**
   Everything an accepted Create writes: one row with the times, the email and the reading of the clock,
   led by a clear host of the pool, and one blank seat for everybody who attends, the leader's primary.
   */
  lemma CreateWrites(st: State, p: CreateParams, id: Id, clock: Clock)
    requires SeatsHaveBookings(st) && Create(st, p, id, clock).1.Ok?
    ensures var st', now := Create(st, p, id, clock).0, Render(clock.at);
            && id !in st.bookings && id in st'.bookings && var chosen := st'.bookings[id].host;
            && chosen in p.hosts && ClearFor(st, p, chosen) && (!p.roundRobin ==> chosen == p.hosts[0])
            && st'.bookings == st.bookings[id := Booking(
                 p.eventType, chosen, Render(p.startAt), Render(p.endAt), false, "", p.email, now, now)]
            && (forall u :: (id, u) in st'.seats <==> Attends(st, p, chosen, u))
            && (forall u :: (id, u) in st'.seats ==> st'.seats[(id, u)] == Seat(u == chosen, "", "", "", false))
            && (forall b, u :: b != id ==> ((b, u) in st'.seats <==> (b, u) in st.seats))
            && (forall k :: k in st.seats ==> k in st'.seats && st'.seats[k] == st.seats[k])
            && st'.tokens == st.tokens && st'.calendars == st.calendars
  {
    assert forall u :: (id, u) in st.seats ==> (id, u).0 in st.bookings;
    hide Create, Select, HostBusy, ClearFor, SeatsHaveBookings, Render;
    CreateSeats(st, p, id, clock);
    SelectedAreFree(st, p, clock.now);
    SelectionExact(st, p, clock.now);
    BlankSeats(st, p, id, clock);
    ClearForExact(st, p);
  }

  // ---------- cancelling ----------

  /**
   Which cancellations go through: a confirmed booking, for the host path one led by that host, and
   for the token path one named by a token that was known and unexpired when it was read.
   */
  lemma CancelsExactly(st: State, host: User, id: Id, hash: string, reason: string, readAt: Text, now: Text)
    ensures CancelByID(st, id, reason, now).1.Ok? <==> Confirmed(st, id)
    ensures Cancel(st, host, id, reason, now).1.Ok? <==> Confirmed(st, id) && st.bookings[id].host == host
    ensures CancelByToken(st, hash, reason, readAt, now).1.Ok? <==>
              hash in st.tokens && TextLess(readAt, st.tokens[hash].expires) && Confirmed(st, st.tokens[hash].booking)
    ensures id in st.bookings && !Confirmed(st, id) ==> CancelByID(st, id, reason, now) == (st, Err(AlreadyCancelled))
  {
    hide TextLess;
  }

  /**
   A cancellation that goes through marks this one booking, records its reason and clears the drift
   flags of its seats; times, host and attendees stay, as does everything about other bookings.
   */
  lemma CancelEffect(st: State, op: Op, id: Id)
    requires CancelsNow(st, op, id)
    ensures id in st.bookings && id in Apply(st, op).bookings
    ensures var st', was := Apply(st, op), st.bookings[id];
            var b := st'.bookings[id];
            && Confirmed(st, id) && b.cancelled && b.reason == op.reason
            && b.(cancelled := false, reason := was.reason, updatedAt := was.updatedAt) == was
            && (forall other :: other != id ==> (other in st'.bookings <==> other in st.bookings))
            && (forall other :: other != id && other in st.bookings ==> st'.bookings[other] == st.bookings[other])
            && st'.seats.Keys == st.seats.Keys
            && (forall k :: k in st.seats ==>
                  st'.seats[k] == if k.0 == id then st.seats[k].(needsSync := false) else st.seats[k])
            && st'.tokens == st.tokens && st'.calendars == st.calendars
  {
    hide TextLess, Create, Reschedule, Reassign;
  }

  /** Once it is cancelled, a booking stands in nobody's way: clear then is what was clear but for it. */
  lemma CancelFrees(st: State, op: Op, id: Id, users: set<User>, start: Text, end: Text)
    requires CancelsNow(st, op, id)
    ensures Clear(Apply(st, op), users, start, end, None) <==> Clear(st, users, start, end, Some(id))
  {
    CancelEffect(st, op, id);
    hide CancelsNow, Apply, CountsAgainst, Overlap;
    var st' := Apply(st, op);
    forall u, v ensures CountsAgainst(st', u, v) <==> CountsAgainst(st, u, v) { SameCalendars(st, st', u, v); }
    assert forall b :: Confirmed(st', b) <==> Confirmed(st, b) && b != id;
    assert st'.seats.Keys == st.seats.Keys;
    assert forall k :: k in st'.seats <==> k in st.seats;
  }

  /** Nothing else confirmed is led by this host at this start. */
  ghost predicate OnlyStart(st: State, host: User, start: Text, id: Id) {
    forall b :: Confirmed(st, b) && b != id ==> st.bookings[b].host != host || st.bookings[b].start != start
  }

  /**
   After a successful cancel the next Create for one host goes through exactly when nothing but the
   cancelled booking stood in its way, and the invitee is within the limits.
   */
  lemma FreedSlotIsBookable(st: State, op: Op, id: Id, p: CreateParams, next: Id, clock: Clock, host: User)
    requires SeatsHaveBookings(st) && UniqueStarts(st) && CancelsNow(st, op, id) && next !in st.bookings
    requires p.hosts == [host] && !p.roundRobin
    ensures Create(Apply(st, op), p, next, clock).1.Ok? <==>
              && Clear(st, {host}, Render(p.startAt), Render(p.endAt), Some(id))
              && OnlyStart(st, host, Render(p.startAt), id)
              && !AtCap(Apply(st, op), p, Render(clock.at))
              && !AtHourlyLimit(Apply(st, op), p, Render(clock.hourBefore))
  {
    hide Clear, Create, UniqueStarts, SeatsHaveBookings, Select, AtCap, AtHourlyLimit, Render;
    var st' := Apply(st, op);
    ApplyKeepsStarts(st, op);
    CancelKeepsSeatsKnown(st, op, id);
    CancelFrees(st, op, id, {host}, p.start, p.end);
    CreateExact(st', p, next, clock);
    SelectionExact(st', p, clock.now);
    CancelOpensStart(st, op, id, p, next, clock.now, host);
    assert forall u :: u in p.hosts <==> u == host;
    assert Selectable(st', p) <==> ClearFor(st', p, host);
    assert Distinct(p.hosts);
    assert Selectable(st', p) ==> Select(st', p, clock.now).value.chosen == host;
  }

  lemma CancelKeepsSeatsKnown(st: State, op: Op, id: Id)
    requires SeatsHaveBookings(st) && CancelsNow(st, op, id)
    ensures SeatsHaveBookings(Apply(st, op)) && Apply(st, op).bookings.Keys == st.bookings.Keys
  {
    CancelEffect(st, op, id);
    hide CancelsNow, Apply;
    var st' := Apply(st, op);
    forall k | k in st'.seats ensures k.0 in st'.bookings { assert k in st.seats.Keys; }
    assert forall b :: b in st'.bookings.Keys <==> b in st.bookings.Keys;
  }

  lemma CancelOpensStart(st: State, op: Op, id: Id, p: CreateParams, next: Id, now: Text, host: User)
    requires UniqueStarts(st) && CancelsNow(st, op, id) && next !in st.bookings
    ensures UniqueStarts(Added(Apply(st, op), p, next, host, now)) <==> OnlyStart(st, host, p.start, id)
  {
    hide CancelsNow, Apply, UniqueStarts, StartTaken, Render;
    ApplyKeepsStarts(st, op);
    CancelEffect(st, op, id);
    var st' := Apply(st, op);
    var added := Added(st', p, next, host, now);
    assert next !in st'.bookings && Confirmed(added, next);
    NewStartFree(st', added, next);
    StartTakenByOthers(st, st', id, host, p.start);
  }

  lemma StartTakenByOthers(st: State, st': State, id: Id, host: User, start: Text)
    requires forall b :: Confirmed(st', b) <==> Confirmed(st, b) && b != id
    requires forall b :: Confirmed(st', b) ==> b in st.bookings && st'.bookings[b] == st.bookings[b]
    ensures StartTaken(st', host, start, None) <==> !OnlyStart(st, host, start, id)
  {
    if !OnlyStart(st, host, start, id) {
      var b :| Confirmed(st, b) && b != id && st.bookings[b].host == host && st.bookings[b].start == start;
      assert Confirmed(st', b);
    }
    if StartTaken(st', host, start, None) {
      var b :| b in st'.bookings.Keys && !st'.bookings[b].cancelled &&
        st'.bookings[b].host == host && st'.bookings[b].start == start;
      assert Confirmed(st', b);
    }
  }

  /**
   Where calendars are checked both ways, the very slot a cancellation freed can be booked again: its
   host, its times, and any invitee within the limits.
   */
  lemma SlotComesBack(st: State, op: Op, id: Id, p: CreateParams, next: Id, clock: Clock)
    requires Safe(st) && UniqueStarts(st) && NoSharedDoubleBooking(st) && Symmetric(st)
    requires CancelsNow(st, op, id) && next !in st.bookings
    requires !AtCap(Apply(st, op), p, Render(clock.at)) && !AtHourlyLimit(Apply(st, op), p, Render(clock.hourBefore))
    requires id in st.bookings && var was := st.bookings[id];
             && (id, was.host) in st.seats && p.hosts == [was.host] && !p.roundRobin
             && Render(p.startAt) == was.start && Render(p.endAt) == was.end
    ensures Create(Apply(st, op), p, next, clock).1 == Ok(next)
  {
    var was := st.bookings[id];
    assert Confirmed(st, id) by { CancelEffect(st, op, id); }
    SafeHasBookings(st);
    hide Create, Apply, CancelsNow, AtCap, AtHourlyLimit, Render, CountsAgainst, Overlap, Safe;
    assert Clear(st, {was.host}, was.start, was.end, Some(id)) by {
      forall m | m in st.seats && m.0 != id && Confirmed(st, m.0) && CountsAgainst(st, was.host, m.1)
        ensures !Overlap(st.bookings[m.0].start, st.bookings[m.0].end, was.start, was.end)
      {
        assert SharedApart(st, m, (id, was.host));
      }
    }
    FreedSlotIsBookable(st, op, id, p, next, clock, was.host);
    AcceptedIsNew(Apply(st, op), p, next, clock);
  }

  lemma AcceptedIsNew(st: State, p: CreateParams, id: Id, clock: Clock)
    ensures Create(st, p, id, clock).1.Ok? ==> Create(st, p, id, clock).1 == Ok(id)
  {
    hide Select, JoinOptional, StartTaken, Distinct, ActiveSet, RecentSet, NewSeats;
  }
}
