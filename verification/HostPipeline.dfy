/**
 From an event type's hosts to the people on the booking: role pools, working hours, external
 calendars, and what this guarantees about the seats a booking ends up with.

 Working hours and calendar verdicts come from outside and are functions of the host here.
 */
module HostPipeline {
  import opened Bookings
  import opened Seats
  import opened Timestamps

  datatype EventHost = EventHost(user: User, role: string)

  datatype Hours = Within | Outside | HoursUnknown

  datatype Verdict = Free | Busy | VerdictUnknown

  datatype Refusal = SlotUnavailable | LookupFailed | CalendarUnavailable

  datatype Checked<+T> = Accepted(value: T) | Refused(why: Refusal)

  // ---------- role pools ----------

  /** Users holding the role, in order. */
  function WithRole(hosts: seq<EventHost>, role: string): seq<User> {
    if hosts == [] then []
    else
      var last := hosts[|hosts| - 1];
      WithRole(hosts[..|hosts| - 1], role) + (if last.role == role then [last.user] else [])
  }

  /** The positions of the set, in order. */
  ghost predicate InOrder(at: seq<nat>, positions: set<nat>) {
    && (forall i :: i in at <==> i in positions)
    && forall i, j :: 0 <= i < j < |at| ==> at[i] < at[j]
  }

  ghost function Holders(hosts: seq<EventHost>, role: string): set<nat> {
    set i: nat | i < |hosts| && hosts[i].role == role
  }

  /** A pool lists exactly the hosts with its role, each place once and in the order of the event type. */
  lemma {:induction false} WithRoleExact(hosts: seq<EventHost>, role: string) returns (at: seq<nat>)
    ensures InOrder(at, Holders(hosts, role)) && UsersAt(hosts, at, WithRole(hosts, role))
  {
    hide InOrder, Holders;
    if hosts == [] {
      at := [];
      NoHolders(role);
    } else {
      var n := |hosts| - 1;
      at := WithRoleExact(hosts[..n], role);
      OneMoreHolder(hosts, role);
      if hosts[n].role == role {
        OneMorePosition(at, Holders(hosts[..n], role), n);
        at := at + [n];
      } else {
        assert WithRole(hosts, role) == WithRole(hosts[..n], role) + [] == WithRole(hosts[..n], role);
        assert Holders(hosts, role) == Holders(hosts[..n], role);
      }
    }
  }

  lemma NoHolders(role: string)
    ensures InOrder([], Holders([], role))
  {
  }

  lemma OneMoreHolder(hosts: seq<EventHost>, role: string)
    requires hosts != []
    ensures var n := |hosts| - 1;
            && Holders(hosts, role) == Holders(hosts[..n], role) + (if hosts[n].role == role then {n} else {})
            && forall i :: i in Holders(hosts[..n], role) ==> i < n
  {
  }

  lemma OneMorePosition(at: seq<nat>, positions: set<nat>, n: nat)
    requires InOrder(at, positions) && forall i :: i in positions ==> i < n
    ensures InOrder(at + [n], positions + {n})
  {
    assert forall i :: 0 <= i < |at| ==> at[i] in positions;
  }

  /** The order of the pool of a role is that of the event type. */
  lemma RolePoolInOrder(hosts: seq<EventHost>, role: string)
    ensures exists at: seq<nat> :: InOrder(at, Holders(hosts, role)) && UsersAt(hosts, at, WithRole(hosts, role))
  {
    var at := WithRoleExact(hosts, role);
  }

  ghost predicate UsersAt(hosts: seq<EventHost>, at: seq<nat>, users: seq<User>) {
    && |users| == |at|
    && forall i :: 0 <= i < |at| ==> at[i] < |hosts| && users[i] == hosts[at[i]].user
  }

  datatype Pools = Pools(candidates: seq<User>, required: seq<User>, optional: seq<User>)

  method ResolveBookingHostPool(hosts: seq<EventHost>, roundRobin: bool) returns (p: Pools)
    ensures p.candidates == WithRole(hosts, if roundRobin then "rotation" else "required")
    ensures p.required == if roundRobin then WithRole(hosts, "required") else []
    ensures p.optional == WithRole(hosts, "optional")
  {
    var candidates: seq<User>, required: seq<User>, optional: seq<User> := [], [], [];
    for i := 0 to |hosts|
      invariant candidates == WithRole(hosts[..i], if roundRobin then "rotation" else "required")
      invariant required == if roundRobin then WithRole(hosts[..i], "required") else []
      invariant optional == WithRole(hosts[..i], "optional")
    {
      assert hosts[..i + 1][..i] == hosts[..i];
      var h := hosts[i];
      if h.role == "rotation" && roundRobin {
        candidates := candidates + [h.user];
      } else if h.role == "required" && roundRobin {
        required := required + [h.user];
      } else if h.role == "required" {
        candidates := candidates + [h.user];
      } else if h.role == "optional" {
        optional := optional + [h.user];
      }
    }
    assert hosts[..|hosts|] == hosts;
    p := Pools(candidates, required, optional);
  }

  // ---------- working hours ----------

  const DAY: int := 24 * 3_600_000_000_000
  const MINUTE: int := 60_000_000_000

  /** Notice and horizon; maxFutureDays 0 means a year. */
  predicate InHorizon(now: int, start: int, minNoticeMinutes: int, maxFutureDays: int) {
    && start >= now + minNoticeMinutes * MINUTE
    && start <= now + (if maxFutureDays > 0 then maxFutureDays else 365) * DAY
  }

  /**
   On the clock: a start is in notice if it is that many minutes of the same day later, and the horizon ends
   at the same time of day, one day on for each day.
   */
  lemma UnitsOnTheClock(now: Time, later: Time)
    requires later.second == now.second && later.nanos == now.nanos
    ensures later.(hour := 0, minute := 0) == now.(hour := 0, minute := 0) ==>
              Instant(later) - Instant(now) ==
              (60 * (later.hour as int - now.hour as int) + (later.minute as int - now.minute as int)) * MINUTE
    ensures NextDay(now, later) && later.hour == now.hour && later.minute == now.minute ==>
              Instant(later) == Instant(now) + DAY
  {
    hide Instant;
    InstantsOfDays(now, later);
  }

  /** The users before the first one whose lookup does not give pass, whose lookup gives stop. */
  ghost predicate StopsOn(hours: User -> Hours, users: seq<User>, pass: Hours, stop: Hours) {
    exists i :: 0 <= i < |users| && hours(users[i]) == stop && forall j :: 0 <= j < i ==> hours(users[j]) == pass
  }

  /** The checks in their order come to a failing lookup. */
  ghost predicate ComesToFailure(
    hours: User -> Hours, roundRobin: bool, candidates: seq<User>, required: seq<User>)
  {
    var mandatory := if roundRobin then required else candidates;
    || StopsOn(hours, mandatory, Within, HoursUnknown)
    || (roundRobin && (forall u :: u in mandatory ==> hours(u) == Within) &&
        StopsOn(hours, candidates, Outside, HoursUnknown))
  }

  /** The scan of the rotation pool meets an available host before any failing lookup. */
  ghost predicate ReachesWithin(hours: User -> Hours, candidates: seq<User>) {
    exists i :: 0 <= i < |candidates| && hours(candidates[i]) == Within &&
      forall j :: 0 <= j < i ==> hours(candidates[j]) == Outside
  }

  /** What an accepted time means for the pools. */
  ghost predicate TimeFits(hours: User -> Hours, roundRobin: bool, candidates: seq<User>, required: seq<User>) {
    && (forall u :: u in (if roundRobin then required else candidates) ==> hours(u) == Within)
    && (roundRobin ==> ReachesWithin(hours, candidates))
  }

  method ValidateBookingTime(
      now: int, start: int, minNoticeMinutes: int, maxFutureDays: int,
      hours: User -> Hours, roundRobin: bool, candidates: seq<User>, required: seq<User>)
    returns (r: Checked<()>)
    ensures r.Accepted? <==>
              InHorizon(now, start, minNoticeMinutes, maxFutureDays) &&
                  TimeFits(hours, roundRobin, candidates, required)
    ensures r == Refused(LookupFailed) <==>
              InHorizon(now, start, minNoticeMinutes, maxFutureDays) &&
                  ComesToFailure(hours, roundRobin, candidates, required)
    ensures r != Refused(CalendarUnavailable)
  {
    if start < now + minNoticeMinutes * MINUTE {
      return Refused(SlotUnavailable);
    }
    var maxFuture := now + 365 * DAY;
    if maxFutureDays > 0 {
      maxFuture := now + maxFutureDays * DAY;
    }
    if start > maxFuture {
      return Refused(SlotUnavailable);
    }
    var checkAll := if roundRobin then required else candidates;
    for i := 0 to |checkAll|
      invariant forall j :: 0 <= j < i ==> hours(checkAll[j]) == Within
    {
      assert checkAll[i] in checkAll;
      match hours(checkAll[i]) {
        case HoursUnknown => return Refused(LookupFailed);
        case Outside => return Refused(SlotUnavailable);
        case Within =>
      }
    }
    if !roundRobin {
      return Accepted(());
    }
    for i := 0 to |candidates|
      invariant forall j :: 0 <= j < i ==> hours(candidates[j]) == Outside
    {
      match hours(candidates[i]) {
        case HoursUnknown => return Refused(LookupFailed);
        case Within => return Accepted(());
        case Outside =>
      }
    }
    r := Refused(SlotUnavailable);
  }

  /** The hosts satisfying the test, in order. */
  function Kept(hosts: seq<User>, test: User -> bool): seq<User> {
    if hosts == [] then []
    else Kept(hosts[..|hosts| - 1], test) + (if test(hosts[|hosts| - 1]) then [hosts[|hosts| - 1]] else [])
  }

  function InHours(hours: User -> Hours): User -> bool {
    u => hours(u) == Within
  }

  /** Outcome of narrowing a pool to the hosts within their hours. */
  function Available(hours: User -> Hours, candidates: seq<User>): Checked<seq<User>> {
    if exists u :: u in candidates && hours(u) == HoursUnknown then Refused(LookupFailed)
    else if Kept(candidates, InHours(hours)) == [] then Refused(SlotUnavailable)
    else Accepted(Kept(candidates, InHours(hours)))
  }

  method FilterAvailableHosts(hours: User -> Hours, candidates: seq<User>) returns (r: Checked<seq<User>>)
    ensures r == Available(hours, candidates)
  {
    var available: seq<User> := [];
    for i := 0 to |candidates|
      invariant available == Kept(candidates[..i], InHours(hours))
      invariant forall u :: u in candidates[..i] ==> hours(u) != HoursUnknown
    {
      assert candidates[..i + 1][..i] == candidates[..i];
      assert candidates[i] in candidates;
      match hours(candidates[i]) {
        case HoursUnknown => return Refused(LookupFailed);
        case Within => available := available + [candidates[i]];
        case Outside =>
      }
    }
    assert candidates[..|candidates|] == candidates;
    if |available| == 0 {
      return Refused(SlotUnavailable);
    }
    r := Accepted(available);
  }

  /** a can be obtained from b by leaving out elements. */
  ghost predicate Sublist(a: seq<User>, b: seq<User>) {
    a == [] || (b != [] &&
      if a[|a| - 1] == b[|b| - 1] then Sublist(a[..|a| - 1], b[..|b| - 1]) else Sublist(a, b[..|b| - 1]))
  }

  lemma {:induction false} SublistOfLonger(a: seq<User>, b: seq<User>, x: User)
    requires Sublist(a, b)
    ensures Sublist(a, b + [x])
    decreases |b|
  {
    assert (b + [x])[..|b|] == b;
    if a != [] && a[|a| - 1] == x {
      if a[|a| - 1] == b[|b| - 1] {
        SublistOfLonger(a[..|a| - 1], b[..|b| - 1], b[|b| - 1]);
        assert b[..|b| - 1] + [b[|b| - 1]] == b;
      } else {
        DropLast(a, b[..|b| - 1]);
        SublistOfLonger(a[..|a| - 1], b[..|b| - 1], b[|b| - 1]);
        assert b[..|b| - 1] + [b[|b| - 1]] == b;
      }
    }
  }

  lemma {:induction false} DropLast(a: seq<User>, b: seq<User>)
    requires a != [] && Sublist(a, b)
    ensures Sublist(a[..|a| - 1], b)
    decreases |b|
  {
    var front, last := b[..|b| - 1], b[|b| - 1];
    assert front + [last] == b;
    if a[|a| - 1] == last {
      SublistOfLonger(a[..|a| - 1], front, last);
    } else {
      DropLast(a, front);
      SublistOfLonger(a[..|a| - 1], front, last);
    }
  }

  lemma {:induction false} KeptIs(hosts: seq<User>, test: User -> bool)
    ensures forall u :: u in Kept(hosts, test) <==> u in hosts && test(u)
    ensures Sublist(Kept(hosts, test), hosts)
    ensures (forall u :: u in hosts ==> test(u)) ==> Kept(hosts, test) == hosts
  {
    hide Sublist;
    if hosts != [] {
      var front, last := hosts[..|hosts| - 1], hosts[|hosts| - 1];
      assert hosts == front + [last];
      KeptIs(front, test);
      BothLonger(Kept(front, test), front, last);
      if !test(last) {
        assert Kept(hosts, test) == Kept(front, test) + [] == Kept(front, test);
        SublistOfLonger(Kept(front, test), front, last);
      }
    } else {
      assert Sublist([], []) by { NothingInNothing(); }
    }
  }

  lemma NothingInNothing()
    ensures Sublist([], [])
  {
  }

  lemma BothLonger(a: seq<User>, b: seq<User>, x: User)
    requires Sublist(a, b)
    ensures Sublist(a + [x], b + [x])
  {
    assert (a + [x])[..|a|] == a && (b + [x])[..|b|] == b;
  }

  lemma KeptStep(hosts: seq<User>, i: nat, test: User -> bool)
    requires i < |hosts|
    ensures Kept(hosts[..i + 1], test) == Kept(hosts[..i], test) + (if test(hosts[i]) then [hosts[i]] else [])
    ensures Kept(hosts[..0], test) == []
    ensures hosts[..|hosts|] == hosts
  {
    assert hosts[..i + 1][..i] == hosts[..i];
  }

  /**
   After an accepted time the narrowed pool is a non-empty, order-preserving part of the pool (all
   of it outside round-robin), exactly when the pool has somebody in it and no lookup fails on the
   rest of it.
   */
  lemma FilterAfterValidate(hours: User -> Hours, roundRobin: bool, candidates: seq<User>, required: seq<User>)
    requires TimeFits(hours, roundRobin, candidates, required)
    ensures var r := Available(hours, candidates);
            && (r.Accepted? <==> candidates != [] && forall u :: u in candidates ==> hours(u) != HoursUnknown)
            && (r.Accepted? ==> r.value != [] && Sublist(r.value, candidates))
            && (r.Accepted? ==> forall u :: u in r.value ==> hours(u) == Within)
            && (!roundRobin && candidates != [] ==> r == Accepted(candidates))
  {
    hide Kept, Sublist;
    KeptIs(candidates, InHours(hours));
    if roundRobin {
      var i :| 0 <= i < |candidates| && hours(candidates[i]) == Within;
      assert candidates[i] in Kept(candidates, InHours(hours));
    }
  }

  /** An accepted round-robin slot can still be refused: a lookup fails past the first available host. */
  lemma LateLookupRefuses()
    ensures var hours := (u: User) => if u == "ada" then Within else HoursUnknown;
            ReachesWithin(hours, ["ada", "bob"]) && Available(hours, ["ada", "bob"]) == Refused(LookupFailed)
  {
    var hours := (u: User) => if u == "ada" then Within else HoursUnknown;
    var pool := ["ada", "bob"];
    assert hours(pool[0]) == Within && pool[0] == "ada" && pool[1] == "bob" && pool[1] in pool;
    assert "ada"[0] != "bob"[0];
  }

  // ---------- external calendars ----------

  datatype Calendars = NotConfigured | Configured(verdict: User -> Verdict)

  datatype Attending = Attending(available: seq<User>, guests: seq<User>)

  function IsFree(verdict: User -> Verdict): User -> bool {
    u => verdict(u) == Free
  }

  /** Somebody can lead: one free rotation host, or all of the candidates outside round-robin. */
  predicate LeadFree(verdict: User -> Verdict, roundRobin: bool, candidates: seq<User>) {
    && candidates != []
    && if roundRobin then exists u :: u in candidates && verdict(u) == Free
       else forall u :: u in candidates ==> verdict(u) == Free
  }

  predicate CanMeet(verdict: User -> Verdict, roundRobin: bool, candidates: seq<User>, required: seq<User>) {
    (forall u :: u in required ==> verdict(u) == Free) && LeadFree(verdict, roundRobin, candidates)
  }

  /** The loop over the optional hosts: an unreadable or busy calendar leaves that host off. */
  method FreeGuests(verdict: User -> Verdict, optional: seq<User>) returns (guests: seq<User>)
    ensures guests == Kept(optional, IsFree(verdict))
  {
    guests := [];
    for i := 0 to |optional|
      invariant guests == Kept(optional[..i], IsFree(verdict))
    {
      hide Kept;
      KeptStep(optional, i, IsFree(verdict));
      if verdict(optional[i]) == Free {
        guests := guests + [optional[i]];
      }
    }
    assert optional[..|optional|] == optional;
  }

  /** The first user who is not free has an unreadable calendar. */
  ghost predicate FirstUnknown(verdict: User -> Verdict, users: seq<User>) {
    exists i :: 0 <= i < |users| && verdict(users[i]) == VerdictUnknown &&
      forall j :: 0 <= j < i ==> verdict(users[j]) == Free
  }

  /** Nobody is free to lead and for want of an unreadable calendar it is not known that nobody is. */
  ghost predicate LeadUnknown(verdict: User -> Verdict, roundRobin: bool, candidates: seq<User>) {
    if roundRobin then
      && (forall u :: u in candidates ==> verdict(u) != Free)
      && exists u :: u in candidates && verdict(u) == VerdictUnknown
    else FirstUnknown(verdict, candidates)
  }

  lemma NoneKept(hosts: seq<User>, test: User -> bool)
    ensures Kept(hosts[..0], test) == []
  {
  }

  /** Outside round-robin the first candidate who is not free decides. */
  lemma StopsAt(verdict: User -> Verdict, candidates: seq<User>, i: nat)
    requires i < |candidates| && verdict(candidates[i]) != Free
    requires forall j :: 0 <= j < i ==> verdict(candidates[j]) == Free
    ensures !LeadFree(verdict, false, candidates)
    ensures LeadUnknown(verdict, false, candidates) <==> verdict(candidates[i]) == VerdictUnknown
  {
    assert candidates[i] in candidates;
  }

  /** With all candidates looked at, the free ones among them decide. */
  lemma AllScanned(verdict: User -> Verdict, roundRobin: bool, candidates: seq<User>)
    requires !roundRobin ==> forall j :: 0 <= j < |candidates| ==> verdict(candidates[j]) == Free
    ensures LeadFree(verdict, roundRobin, candidates) <==> Kept(candidates, IsFree(verdict)) != []
    ensures LeadUnknown(verdict, roundRobin, candidates) <==>
              Kept(candidates, IsFree(verdict)) == [] && exists u :: u in candidates && verdict(u) == VerdictUnknown
  {
    hide Kept;
    var kept := Kept(candidates, IsFree(verdict));
    KeptIs(candidates, IsFree(verdict));
    if kept != [] { assert kept[0] in kept; }
  }

  /** The loop over the candidates; unknown is set when a rotation host was skipped over an error. */
  method FreeCandidates(verdict: User -> Verdict, roundRobin: bool, candidates: seq<User>)
    returns (r: Checked<seq<User>>)
    ensures r.Accepted? <==> LeadFree(verdict, roundRobin, candidates)
    ensures r.Accepted? ==> r.value == Kept(candidates, IsFree(verdict))
    ensures r == Refused(CalendarUnavailable) <==> LeadUnknown(verdict, roundRobin, candidates)
    ensures r.Refused? ==> r.why != LookupFailed
  {
    hide Kept, LeadFree, LeadUnknown;
    var available: seq<User>, candidateError := [], false;
    assert available == Kept(candidates[..0], IsFree(verdict)) by { NoneKept(candidates, IsFree(verdict)); }
    for i := 0 to |candidates|
      invariant available == Kept(candidates[..i], IsFree(verdict))
      invariant !roundRobin ==> forall j :: 0 <= j < i ==> verdict(candidates[j]) == Free
      invariant candidateError ==> roundRobin && exists u :: u in candidates && verdict(u) == VerdictUnknown
      invariant !candidateError ==> forall j :: 0 <= j < i ==> verdict(candidates[j]) != VerdictUnknown
    {
      KeptStep(candidates, i, IsFree(verdict));
      assert candidates[i] in candidates;
      if !roundRobin && verdict(candidates[i]) != Free {
        StopsAt(verdict, candidates, i);
      }
      match verdict(candidates[i]) {
        case VerdictUnknown =>
          if !roundRobin {
            return Refused(CalendarUnavailable);
          }
          candidateError := true;
        case Free => available := available + [candidates[i]];
        case Busy =>
          if !roundRobin {
            return Refused(SlotUnavailable);
          }
      }
    }
    assert candidates[..|candidates|] == candidates;
    AllScanned(verdict, roundRobin, candidates);
    if |available| == 0 {
      return Refused(if candidateError then CalendarUnavailable else SlotUnavailable);
    }
    r := Accepted(available);
  }

  /**
   Accepts exactly when everyone whose attendance is mandatory is free and somebody can lead, and
   then keeps exactly the free candidates and guests. An unreadable calendar is reported as such exactly
   when it is the first obstacle among those who must attend, or nobody is known to be free to lead.
   */
  method CalendarFreeHosts(
      calendars: Calendars, roundRobin: bool, candidates: seq<User>, required: seq<User>, optional: seq<User>)
    returns (r: Checked<Attending>)
    ensures calendars.NotConfigured? ==> r == Accepted(Attending(candidates, optional))
    ensures calendars.Configured? ==> (r.Accepted? <==> CanMeet(calendars.verdict, roundRobin, candidates, required))
    ensures calendars.Configured? && r.Accepted? ==>
              r.value == Attending(Kept(candidates, IsFree(calendars.verdict)),
                  Kept(optional, IsFree(calendars.verdict)))
    ensures r == Refused(CalendarUnavailable) <==>
              && calendars.Configured?
              && (FirstUnknown(calendars.verdict, required) ||
                  ((forall u :: u in required ==> calendars.verdict(u) == Free) &&
                   LeadUnknown(calendars.verdict, roundRobin, candidates)))
    ensures r != Refused(LookupFailed)
  {
    hide Kept, LeadFree, LeadUnknown;
    if calendars.NotConfigured? {
      return Accepted(Attending(candidates, optional));
    }
    var verdict := calendars.verdict;
    for i := 0 to |required|
      invariant forall j :: 0 <= j < i ==> verdict(required[j]) == Free
    {
      assert required[i] in required;
      match verdict(required[i]) {
        case VerdictUnknown => return Refused(CalendarUnavailable);
        case Busy => return Refused(SlotUnavailable);
        case Free =>
      }
    }
    var available := FreeCandidates(verdict, roundRobin, candidates);
    if available.Refused? {
      return Refused(available.why);
    }
    var guests := FreeGuests(verdict, optional);
    r := Accepted(Attending(available.value, guests));
  }

  /** In round-robin, unreadable calendars of other candidates and of optional hosts never block. */
  lemma OthersNeverBlock(verdict: User -> Verdict, candidates: seq<User>, required: seq<User>, lead: User)
    requires lead in candidates && verdict(lead) == Free && forall u :: u in required ==> verdict(u) == Free
    ensures CanMeet(verdict, true, candidates, required)
    ensures lead in Kept(candidates, IsFree(verdict))
  {
    KeptIs(candidates, IsFree(verdict));
  }

  // ---------- the seats of the booking ----------

  /**
   With calendars configured, everybody on the resulting booking had a free calendar; the host and
   the required hosts were within their hours, as was everyone but optional guests.
   */
  lemma PipelineIsSound(
      hours: User -> Hours, verdict: User -> Verdict, pools: Pools, available: seq<User>,
      st: State, p: CreateParams, id: Id, clock: Clock)
    requires TimeFits(hours, p.roundRobin, pools.candidates, pools.required)
    requires Available(hours, pools.candidates) == Accepted(available)
    requires CanMeet(verdict, p.roundRobin, available, pools.required)
    requires p.hosts == Kept(available, IsFree(verdict)) && p.optional == Kept(pools.optional, IsFree(verdict))
    requires p.required == pools.required && (!p.roundRobin ==> pools.required == [])
    requires Create(st, p, id, clock).1.Ok?
    ensures var st' := Create(st, p, id, clock).0;
            && id in st'.bookings
            && (forall u :: (id, u) in st'.seats && (id, u) !in st.seats ==> verdict(u) == Free)
            && (forall u :: (id, u) in st'.seats && (id, u) !in st.seats ==>
                  hours(u) == Within || (u in pools.optional && u != st'.bookings[id].host && u !in pools.required))
            && hours(st'.bookings[id].host) == Within
  {
    KeptIs(pools.candidates, InHours(hours));
    KeptIs(available, IsFree(verdict));
    KeptIs(pools.optional, IsFree(verdict));
    hide Kept, Create, Select;
    CreateSeats(st, p, id, clock);
    SelectedAreFree(st, p, clock.now);
    var sel := Select(st, p, clock.now).value;
    assert forall u :: u in sel.attending ==> (p.roundRobin && u in pools.required) || u in p.hosts;
    assert forall u :: u in p.hosts ==> verdict(u) == Free && hours(u) == Within;
    assert forall u :: u in p.optional ==> verdict(u) == Free && u in pools.optional;
  }
}
