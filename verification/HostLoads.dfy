/**
 What a host carries: how each operation changes the load that even rotation compares, and whom an
 accepted rotation picks when part of the pool is busy.
 */
module HostLoads {
  import opened BookingGuards
  import opened Bookings
  import opened Seats
  import opened Timestamps

  // ---------- how loads change ----------

  function One(holds: bool): int {
    if holds then 1 else 0
  }

  /** Tables that agree on all bookings but one have loads that differ by what they say of that one. */
  lemma LoadsDifferAt(st: State, st': State, id: Id, eventType: Id, u: User, now: Text)
    requires forall b :: b != id ==> (Carries(st', eventType, u, now, b) <==> Carries(st, eventType, u, now, b))
    ensures Load(st', eventType, u, now) ==
            Load(st, eventType, u, now)
              - One(Carries(st, eventType, u, now, id)) + One(Carries(st', eventType, u, now, id))
  {
    hide Carries, Load, CarriedSet;
    LoadsExact(st, eventType, now);
    LoadsExact(st', eventType, now);
    var was, later := CarriedSet(st, eventType, u, now), CarriedSet(st', eventType, u, now);
    CarriedMembers(st, eventType, u, now);
    CarriedMembers(st', eventType, u, now);
    assert was - {id} == later - {id};
    SizeWithout(was, id);
    SizeWithout(later, id);
  }

  lemma SizeWithout(s: set<Id>, x: Id)
    ensures |s - {x}| == |s| - One(x in s)
  {
    if x !in s { assert s - {x} == s; }
  }

  lemma CarriedMembers(st: State, eventType: Id, u: User, now: Text)
    ensures forall b :: b in CarriedSet(st, eventType, u, now) <==> Carries(st, eventType, u, now, b)
  {
    hide TextLess;
  }

  /** A booking of this event type, ending after now by its stored end. */
  predicate Upcoming(b: Booking, eventType: Id, now: Text) {
    b.eventType == eventType && TextLess(now, b.end)
  }

  /** A successful cancel takes exactly one from the load of each attendee of an upcoming booking. */
  lemma CancelUnloads(st: State, op: Op, id: Id, eventType: Id, u: User, now: Text)
    requires CancelsNow(st, op, id)
    ensures id in st.bookings
    ensures Load(Apply(st, op), eventType, u, now) ==
            Load(st, eventType, u, now) - One((id, u) in st.seats && Upcoming(st.bookings[id], eventType, now))
  {
    CancelEffect(st, op, id);
    hide CancelsNow, Apply, Load, TextLess;
    assert forall b :: (b, u) in Apply(st, op).seats.Keys <==> (b, u) in st.seats.Keys;
    LoadsDifferAt(st, Apply(st, op), id, eventType, u, now);
  }

  /** An accepted Create adds exactly one to the load of each host it seats, if it is upcoming. */
  lemma CreateLoads(st: State, p: CreateParams, id: Id, clock: Clock, eventType: Id, u: User, now: Text)
    requires SeatsHaveBookings(st) && Create(st, p, id, clock).1.Ok?
    ensures id in Create(st, p, id, clock).0.bookings
    ensures var st' := Create(st, p, id, clock).0;
            Load(st', eventType, u, now) ==
            Load(st, eventType, u, now) +
              One(Attends(st, p, st'.bookings[id].host, u) &&
                  p.eventType == eventType && TextLess(now, Render(p.endAt)))
  {
    hide Create, Load, TextLess, Render, Attends, SeatsHaveBookings, ClearFor;
    CreateWrites(st, p, id, clock);
    LoadsDifferAt(st, Create(st, p, id, clock).0, id, eventType, u, now);
  }

  /** A successful reschedule counts the booking at its new end instead of its old one, for its attendees alone. */
  lemma RescheduleLoads(st: State, id: Id, start: Text, end: Text, at: Text, eventType: Id, u: User, now: Text)
    requires Reschedule(st, id, start, end, at).1.Ok?
    ensures id in st.bookings
    ensures var b := st.bookings[id];
            Load(Reschedule(st, id, start, end, at).0, eventType, u, now) ==
            Load(st, eventType, u, now)
              - One((id, u) in st.seats && b.eventType == eventType && TextLess(now, b.end))
              + One((id, u) in st.seats && b.eventType == eventType && TextLess(now, end))
  {
    hide Reschedule, Load, TextLess;
    RescheduleMoves(st, id, start, end, at);
    StillConfirmed(st, id, start, end, at);
    LoadsDifferAt(st, Moved(st, id, start, end, at), id, eventType, u, now);
  }

  lemma StillConfirmed(st: State, id: Id, start: Text, end: Text, at: Text)
    requires Reschedule(st, id, start, end, at).1.Ok?
    ensures Confirmed(st, id)
  {
    hide HostBusy, Occupants, StartTaken;
  }

  /** A handover moves the load of an upcoming booking from its old host's seat to the new host. */
  lemma ReassignLoads(st: State, id: Id, newHost: User, at: Text, eventType: Id, u: User, now: Text)
    requires Safe(st) && Reassign(st, id, newHost, at).1.Ok? && st.bookings[id].host != newHost
    ensures id in st.bookings
    ensures var b := st.bookings[id];
            Load(Reassign(st, id, newHost, at).0, eventType, u, now) ==
            Load(st, eventType, u, now)
              - One(u == b.host && (id, u) in st.seats && Upcoming(b, eventType, now))
              + One(u == newHost && Upcoming(b, eventType, now))
  {
    ReassignSeats(st, id, newHost, at);
    HandoverOfConfirmed(st, id, newHost, at);
    hide Reassign, Load, TextLess, Safe;
    var st' := Reassign(st, id, newHost, at).0;
    assert forall b :: b != id ==> ((b, u) in st'.seats <==> (b, u) in st.seats);
    LoadsDifferAt(st, st', id, eventType, u, now);
  }

  lemma HandoverOfConfirmed(st: State, id: Id, newHost: User, at: Text)
    requires Reassign(st, id, newHost, at).1.Ok?
    ensures Confirmed(st, id)
  {
    hide HostBusy, StartTaken, Primaries, MovePrimary;
  }

  // ---------- whom a rotation picks ----------

  /** The clear member of the pool at i carries no more than any other, and less than those before it. */
  ghost predicate PickedAt(st: State, p: CreateParams, now: Text, hosts: seq<User>, i: nat)
    requires i < |hosts|
  {
    && ClearFor(st, p, hosts[i])
    && (forall j :: 0 <= j < |hosts| && ClearFor(st, p, hosts[j]) ==>
          Carried(st, p.eventType, hosts[i], now) <= Carried(st, p.eventType, hosts[j], now))
    && (forall j :: 0 <= j < i && ClearFor(st, p, hosts[j]) ==>
          Carried(st, p.eventType, hosts[i], now) < Carried(st, p.eventType, hosts[j], now))
  }

  /** One more candidate joins the clear ones, and leads if it carries less than their leader. */
  lemma OneMoreCandidate(st: State, p: CreateParams, hosts: seq<User>, now: Text)
    requires hosts != []
    ensures var front, last := hosts[..|hosts| - 1], hosts[|hosts| - 1];
            var free, all := FreeHosts(st, front, p.start, p.end), FreeHosts(st, hosts, p.start, p.end);
            && (!ClearFor(st, p, last) ==> all == free)
            && (ClearFor(st, p, last) && free == [] ==> all == [last])
            && (ClearFor(st, p, last) && free != [] ==>
                  LeastLoaded(st, p.eventType, all, now) ==
                  var best := LeastLoaded(st, p.eventType, free, now);
                  if Carried(st, p.eventType, last, now) < Carried(st, p.eventType, best, now) then last else best)
  {
    hide HostBusy, ClearFor, Load, Carried;
    ClearForExact(st, p);
    LoadsExact(st, p.eventType, now);
    var free, all := FreeHosts(st, hosts[..|hosts| - 1], p.start, p.end), FreeHosts(st, hosts, p.start, p.end);
    assert ClearFor(st, p, hosts[|hosts| - 1]) ==> all[..|all| - 1] == free;
  }

  lemma {:induction false} LeastOfFree(st: State, p: CreateParams, hosts: seq<User>, now: Text) returns (i: nat)
    requires FreeHosts(st, hosts, p.start, p.end) != []
    ensures i < |hosts| && PickedAt(st, p, now, hosts, i)
    ensures hosts[i] == LeastLoaded(st, p.eventType, FreeHosts(st, hosts, p.start, p.end), now)
    decreases |hosts|
  {
    hide HostBusy, ClearFor, Carried, FreeHosts, LeastLoaded;
    NoneOfNone(st, p.start, p.end);
    var n := |hosts| - 1;
    var front, last := hosts[..n], hosts[n];
    OneMoreCandidate(st, p, hosts, now);
    assert forall j :: 0 <= j < n ==> hosts[j] == front[j];
    var free := FreeHosts(st, front, p.start, p.end);
    if free == [] {
      NobodyClear(st, p, front);
      LeastOfOne(st, p.eventType, last, now);
      i := n;
    } else {
      i := LeastOfFree(st, p, front, now);
      if ClearFor(st, p, last) &&
        Carried(st, p.eventType, last, now) < Carried(st, p.eventType, front[i], now)
      {
        i := n;
      }
    }
  }

  lemma NobodyClear(st: State, p: CreateParams, hosts: seq<User>)
    ensures FreeHosts(st, hosts, p.start, p.end) == [] ==> forall j :: 0 <= j < |hosts| ==> !ClearFor(st, p, hosts[j])
  {
    hide HostBusy, ClearFor;
    ClearForExact(st, p);
    FreeHostsAreFree(st, hosts, p.start, p.end);
    assert forall j :: 0 <= j < |hosts| ==> hosts[j] in hosts;
  }

  lemma NoneOfNone(st: State, start: Text, end: Text)
    ensures FreeHosts(st, [], start, end) == []
  {
  }

  lemma LeastOfOne(st: State, eventType: Id, u: User, now: Text)
    ensures LeastLoaded(st, eventType, [u], now) == u
  {
  }

  /**
   An accepted even rotation is led by the earliest clear member of the pool that carries the fewest
   confirmed bookings of the event type, busy members notwithstanding.
   */
  lemma RotationPicksLeastLoaded(st: State, p: CreateParams, id: Id, clock: Clock)
    requires Create(st, p, id, clock).1.Ok? && p.roundRobin && p.strategy != "priority"
    ensures id in Create(st, p, id, clock).0.bookings
    ensures exists i :: 0 <= i < |p.hosts| && PickedAt(st, p, Render(clock.at), p.hosts, i) &&
              Create(st, p, id, clock).0.bookings[id].host == p.hosts[i]
  {
    hide Create, HostBusy, PickedAt, LeastLoaded, FreeHosts;
    CreateSeats(st, p, id, clock);
    var i := LeastOfFree(st, p, p.hosts, clock.now);
  }
}
