/**
 The booking service as it works: tables that each transaction reads and updates in place.

 Every method is proved to be the transaction of the same name in module Bookings, so what is
 proved there of every run holds of every sequence of calls here. A transaction that fails
 leaves the tables as they were.
 */
module BookingStore {
  import opened Bookings
  import opened Options
  import opened Seats

  lemma OneMoreSeat(table: map<SeatKey, Seat>, id: Id, chosen: User, before: seq<User>, u: User)
    ensures table + NewSeats(id, chosen, before + [u]) ==
            (table + NewSeats(id, chosen, before))[(id, u) := Seat(u == chosen, "", "", "", false)]
  {
    var more, fewer := NewSeats(id, chosen, before + [u]), NewSeats(id, chosen, before);
    assert more == fewer[(id, u) := Seat(u == chosen, "", "", "", false)];
  }

  lemma SeatedAre(table: map<SeatKey, Seat>, id: Id, chosen: User, before: seq<User>)
    ensures forall u :: (id, u) in table + NewSeats(id, chosen, before) <==> (id, u) in table || u in before
  {
    assert forall u :: (id, u) in NewSeats(id, chosen, before) <==> u in before;
  }

  lemma NobodySeated(table: map<SeatKey, Seat>, id: Id, chosen: User)
    ensures table + NewSeats(id, chosen, []) == table
  {
    assert NewSeats(id, chosen, []) == map[];
  }

  lemma PrefixDistinct(hosts: seq<User>, n: nat)
    requires n <= |hosts| && Distinct(hosts)
    ensures Distinct(hosts[..n])
  {
  }

  predicate PrimarySeat(st: State, id: Id, k: SeatKey) {
    k in st.seats && k.0 == id && st.seats[k].primary
  }

  lemma OnlyOnePrimary(st: State, id: Id)
    requires |Primaries(st, id)| <= 1
    ensures forall k, l :: PrimarySeat(st, id, k) && PrimarySeat(st, id, l) ==> k == l
  {
    forall k, l | PrimarySeat(st, id, k) && PrimarySeat(st, id, l) ensures k == l {
      assert k.1 in Primaries(st, id) && l.1 in Primaries(st, id);
      if k.1 != l.1 {
        AtLeastTwo(Primaries(st, id), k.1, l.1);
      }
    }
  }

  lemma AtLeastTwo(s: set<User>, x: User, y: User)
    requires x in s && y in s && x != y
    ensures |s| >= 2
  {
    assert |s| == |s - {x}| + 1;
  }

  class Store {
    var bookings: map<Id, Booking>
    var seats: map<SeatKey, Seat>
    var tokens: map<string, Token>
    var calendars: set<CalendarRow>

    function Contents(): State
      reads this
    {
      State(bookings, seats, tokens, calendars)
    }

    constructor ()
      ensures Contents() == EMPTY && Safe(Contents())
    {
      bookings, seats, tokens, calendars := map[], map[], map[], {};
    }

    /** One pass over the query's counts, keeping the first minimum. */
    static method LeastLoadedHost(st: State, eventType: Id, candidates: seq<User>, now: Text) returns (best: User)
      requires candidates != []
      ensures best == LeastLoaded(st, eventType, candidates, now)
    {
      var counts := map c | c in candidates :: Load(st, eventType, c, now);
      best := candidates[0];
      var bestN := counts[best];
      assert candidates[..1] == [best];
      for i := 1 to |candidates|
        invariant best == LeastLoaded(st, eventType, candidates[..i], now)
        invariant bestN == Load(st, eventType, best, now)
      {
        assert candidates[..i + 1][..i] == candidates[..i];
        if counts[candidates[i]] < bestN {
          bestN, best := counts[candidates[i]], candidates[i];
        }
      }
      assert candidates[..|candidates|] == candidates;
    }

    static method PickRotationHost(st: State, p: CreateParams, free: seq<User>, now: Text) returns (chosen: User)
      requires free != []
      ensures chosen == Bookings.PickRotationHost(st, p.eventType, p.strategy, free, now)
    {
      if p.strategy == "priority" {
        return free[0];
      }
      chosen := LeastLoadedHost(st, p.eventType, free, now);
    }

    /** Every host is asked in turn; the first busy one ends the transaction. */
    static method AllFree(st: State, hosts: seq<User>, start: Text, end: Text) returns (ok: bool)
      ensures ok <==> !AnyBusy(st, hosts, start, end)
    {
      hide HostBusy;
      for i := 0 to |hosts|
        invariant forall h :: h in hosts[..i] ==> !HostBusy(st, h, start, end, None)
      {
        if HostBusy(st, hosts[i], start, end, None) {
          assert hosts[i] in hosts;
          return false;
        }
        assert hosts[..i + 1] == hosts[..i] + [hosts[i]];
      }
      assert hosts[..|hosts|] == hosts;
      ok := true;
    }

    /** The free rotation hosts, in order. */
    static method FreeOf(st: State, hosts: seq<User>, start: Text, end: Text) returns (free: seq<User>)
      ensures free == FreeHosts(st, hosts, start, end)
    {
      hide HostBusy;
      free := [];
      for i := 0 to |hosts|
        invariant free == FreeHosts(st, hosts[..i], start, end)
      {
        assert hosts[..i + 1][..i] == hosts[..i];
        if !HostBusy(st, hosts[i], start, end, None) {
          free := free + [hosts[i]];
        }
      }
      assert hosts[..|hosts|] == hosts;
    }

    /** The host selection at the head of Create. */
    static method SelectHosts(st: State, p: CreateParams, now: Text) returns (r: Outcome<Selection>)
      requires p.hosts != []
      ensures r == Select(st, p, now)
    {
      hide HostBusy, AnyBusy, FreeHosts, Bookings.PickRotationHost;
      if p.roundRobin {
        var ok := AllFree(st, p.required, p.start, p.end);
        if !ok {
          return Err(DoubleBooked);
        }
        var free := FreeOf(st, p.hosts, p.start, p.end);
        if free == [] {
          return Err(DoubleBooked);
        }
        var chosen := PickRotationHost(st, p, free, now);
        return Ok(Selection(chosen, p.required + [chosen]));
      } else {
        var ok := AllFree(st, p.hosts, p.start, p.end);
        if !ok {
          return Err(DoubleBooked);
        }
        return Ok(Selection(p.hosts[0], p.hosts));
      }
    }

    /** Optional hosts attend only if free; a busy one is left off. */
    static method AddOptional(st: State, selected: seq<User>, p: CreateParams) returns (attending: seq<User>)
      ensures attending == JoinOptional(st, selected, p.optional, p.start, p.end)
    {
      hide HostBusy;
      attending := selected;
      for i := 0 to |p.optional|
        invariant attending == JoinOptional(st, selected, p.optional[..i], p.start, p.end)
      {
        assert p.optional[..i + 1][..i] == p.optional[..i];
        if p.optional[i] !in attending && !HostBusy(st, p.optional[i], p.start, p.end, None) {
          attending := attending + [p.optional[i]];
        }
      }
      assert p.optional[..|p.optional|] == p.optional;
    }

    /** One INSERT INTO booking_hosts per attending host; a repeated (booking, user) is refused. */
    static method InsertSeats(table: map<SeatKey, Seat>, id: Id, chosen: User, attending: seq<User>)
      returns (ok: bool, table': map<SeatKey, Seat>)
      ensures ok <==> Distinct(attending) && forall u :: u in attending ==> (id, u) !in table
      ensures ok ==> table' == table + NewSeats(id, chosen, attending)
    {
      assert attending[..0] == [] && Distinct(attending[..0]);
      hide NewSeats, Distinct;
      table' := table;
      NobodySeated(table, id, chosen);
      for i := 0 to |attending|
        invariant forall u :: u in attending[..i] ==> (id, u) !in table
        invariant Distinct(attending[..i])
        invariant table' == table + NewSeats(id, chosen, attending[..i])
      {
        var u := attending[i];
        assert attending[..i + 1] == attending[..i] + [u];
        SeatedAre(table, id, chosen, attending[..i]);
        DistinctGrows(attending[..i], u);
        if (id, u) in table' {
          if Distinct(attending) {
            PrefixDistinct(attending, i + 1);
          }
          assert u in attending;
          return false, table;
        }
        OneMoreSeat(table, id, chosen, attending[..i], u);
        table' := table'[(id, u) := Seat(u == chosen, "", "", "", false)];
      }
      assert attending[..|attending|] == attending;
      ok := true;
    }

    method Create(p: CreateParams, id: Id, clock: Clock) returns (r: Outcome<Id>)
      modifies this
      ensures (Contents(), r) == Bookings.Create(old(Contents()), p, id, clock)
    {
      hide Select, JoinOptional, ActiveSet, RecentSet, StartTaken, Distinct, NewSeats, NewBooking;
      var st := Contents();
      if p.hosts == [] {
        return Err(NoHosts);
      }
      var selected := SelectHosts(st, p, clock.now);
      if selected.Err? {
        return Err(selected.error);
      }
      var chosen := selected.value.chosen;
      var attending := AddOptional(st, selected.value.attending, p);
      if p.maxActive > 0 && |ActiveSet(st, p.eventType, p.email, clock.now)| >= p.maxActive {
        return Err(LimitReached);
      }
      if p.maxPerHour > 0 && |RecentSet(st, p.email, clock.hourAgo)| >= p.maxPerHour {
        return Err(EmailThrottled);
      }
      if id in bookings || StartTaken(st, chosen, p.start, None) {
        return Err(DoubleBooked);
      }
      var ok, table := InsertSeats(seats, id, chosen, attending);
      if !ok {
        return Err(SeatConflict);
      }
      bookings, seats := bookings[id := NewBooking(p, chosen, clock.now)], table;
      r := Ok(id);
    }

    method Reschedule(id: Id, start: Text, end: Text, now: Text) returns (r: Outcome<()>)
      modifies this
      ensures (Contents(), r) == Bookings.Reschedule(old(Contents()), id, start, end, now)
    {
      var st := Contents();
      if id !in bookings {
        return Err(NotFound);
      }
      var b := bookings[id];
      if b.cancelled {
        return Err(AlreadyCancelled);
      }
      var hosts := Attendees(st, id);
      if hosts == {} {
        hosts := {b.host};
      }
      var todo := hosts;
      while todo != {}
        invariant todo <= hosts
        invariant forall u :: u in hosts - todo ==> !HostBusy(st, u, start, end, Some(id))
      {
        var u :| u in todo;
        if HostBusy(st, u, start, end, Some(id)) {
          return Err(DoubleBooked);
        }
        todo := todo - {u};
      }
      if StartTaken(st, b.host, start, Some(id)) {
        return Err(DoubleBooked);
      }
      bookings := bookings[id := b.(start := start, end := end, updatedAt := now)];
      r := Ok(());
    }

    /** UPDATE booking_hosts SET user_id = ?, ... WHERE booking_id = ? AND is_primary = 1, with its row count. */
    method MoveSeat(id: Id, newHost: User) returns (rows: nat)
      requires |Primaries(Contents(), id)| <= 1
      modifies this`seats
      ensures rows == |Primaries(old(Contents()), id)|
      ensures rows == 0 ==> seats == old(seats)
      ensures rows == 0 ==>
                MovePrimary(old(seats), id, newHost) == seats[(id, newHost) := Seat(true, "", "", "", false)]
      ensures rows == 1 ==> seats == MovePrimary(old(seats), id, newHost)
    {
      var hit := set k | k in seats.Keys && k.0 == id && seats[k].primary;
      assert Primaries(Contents(), id) == set k | k in hit :: k.1;
      if hit == {} {
        assert forall k :: k in seats && k.0 == id && seats[k].primary ==> k in hit;
        assert seats == map k | k in seats.Keys && !(k.0 == id && seats[k].primary) :: seats[k];
        return 0;
      }
      var k :| k in hit;
      assert k.1 in Primaries(Contents(), id);
      var moved := seats[k].(eventId := "", calendarId := "", provider := "", needsSync := false);
      ghost var was := seats;
      assert forall l :: l in seats ==> (l.0 == id && seats[l].primary <==> l == k) by {
        OnlyOnePrimary(Contents(), id);
        assert forall l :: l in seats && l.0 == id && seats[l].primary ==> PrimarySeat(Contents(), id, l);
      }
      seats := (map l | l in seats.Keys && l != k :: seats[l])[(id, newHost) := moved];
      assert seats == MovePrimary(was, id, newHost);
      rows := 1;
    }

    method ReassignHost(id: Id, newHost: User, now: Text) returns (r: Outcome<()>)
      modifies this
      ensures (Contents(), r) == Reassign(old(Contents()), id, newHost, now)
    {
      var st := Contents();
      if id !in bookings {
        return Err(NotFound);
      }
      var b := bookings[id];
      if b.cancelled {
        return Err(AlreadyCancelled);
      }
      if b.host == newHost {
        return Ok(());
      }
      if HostBusy(st, newHost, b.start, b.end, Some(id)) {
        return Err(DoubleBooked);
      }
      if (id, newHost) in seats && !seats[(id, newHost)].primary {
        return Err(HostAlreadyAssigned);
      }
      if StartTaken(st, newHost, b.start, Some(id)) {
        return Err(DoubleBooked);
      }
      if |Primaries(st, id)| > 1 {
        return Err(SeatConflict);
      }
      bookings := bookings[id := b.(host := newHost, updatedAt := now)];
      var rows := MoveSeat(id, newHost);
      if rows == 0 {  // a booking without seats
        seats := seats[(id, newHost) := Seat(true, "", "", "", false)];
      }
      r := Ok(());
    }

    /** UPDATE bookings SET status = 'cancelled' WHERE id = ? AND status != 'cancelled', with its row count. */
    method CancelWhere(id: Id, reason: string, now: Text) returns (rows: nat)
      modifies this
      ensures rows == if id in old(bookings) && !old(bookings)[id].cancelled then 1 else 0
      ensures Contents() == if rows == 1 then MarkCancelled(old(Contents()), id, reason, now) else old(Contents())
    {
      if id !in bookings || bookings[id].cancelled {
        return 0;
      }
      var st := Contents();
      bookings := bookings[id := bookings[id].(cancelled := true, reason := reason, updatedAt := now)];
      seats := map k | k in seats.Keys :: if k.0 == id then seats[k].(needsSync := false) else seats[k];
      assert Contents() == MarkCancelled(st, id, reason, now);
      rows := 1;
    }

    method Cancel(host: User, id: Id, reason: string, now: Text) returns (r: Outcome<()>)
      modifies this
      ensures (Contents(), r) == Bookings.Cancel(old(Contents()), host, id, reason, now)
    {
      var owned := id in bookings && bookings[id].host == host;
      var rows := 0;
      if owned {
        rows := CancelWhere(id, reason, now);
      }
      r := if rows == 1 then Ok(()) else if owned then Err(AlreadyCancelled) else Err(NotFound);
    }

    method CancelByID(id: Id, reason: string, now: Text) returns (r: Outcome<()>)
      modifies this
      ensures (Contents(), r) == Bookings.CancelByID(old(Contents()), id, reason, now)
    {
      var rows := CancelWhere(id, reason, now);
      r := if rows == 1 then Ok(()) else if id in bookings then Err(AlreadyCancelled) else Err(NotFound);
    }

    method CancelByToken(hash: string, reason: string, readAt: Text, now: Text) returns (r: Outcome<()>)
      modifies this
      ensures (Contents(), r) == Bookings.CancelByToken(old(Contents()), hash, reason, readAt, now)
    {
      var found := TokenBooking(Contents(), hash, readAt);
      if found.Err? {
        return Err(found.error);
      }
      if bookings[found.value].cancelled {
        return Err(AlreadyCancelled);
      }
      var rows := CancelWhere(found.value, reason, now);
      r := if rows == 1 then Ok(()) else Err(AlreadyCancelled);
    }
  }
}
