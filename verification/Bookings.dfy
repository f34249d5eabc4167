/**
 The booking tables and the transactions of the booking service, as functions on values.

 Every transaction is one atomic step, because the database pool holds one connection.
 Module BookingStore performs the same steps in place; this module says what they mean
 and proves what no sequence of them can break.
 */
module Bookings {
  import opened Options
  import opened Seats
  import opened Timestamps

  // ---------- tables ----------

  /** A stored timestamp, as rendered when the row was written. */
  type Text = string

  /** A bookings row together with the email of its organizer attendee. */
  datatype Booking = Booking(
    eventType: Id, host: User, start: Text, end: Text,
    cancelled: bool, reason: string, email: string, createdAt: Text, updatedAt: Text)

  /** A booking_hosts row; its key (booking, user) is the table's UNIQUE constraint. */
  datatype Seat = Seat(primary: bool, eventId: string, calendarId: string, provider: string, needsSync: bool)

  datatype Token = Token(booking: Id, expires: Text)

  /** A connection_calendars row, as far as the overlap query reads it. */
  datatype CalendarRow = CalendarRow(
    user: User, provider: string, account: string, calendar: string, checks: bool, destination: bool)

  datatype State = State(
    bookings: map<Id, Booking>, seats: map<SeatKey, Seat>,
    tokens: map<string, Token>, calendars: set<CalendarRow>)

  datatype Error =
    | NoHosts | DoubleBooked | SeatConflict | LimitReached | EmailThrottled
    | NotFound | AlreadyCancelled | TokenNotFound | HostAlreadyAssigned

  datatype Outcome<+T> = Ok(value: T) | Err(error: Error)

  // ---------- the overlap query ----------

  /** The half-open intervals meet, as the SQL compares their text. */
  predicate Overlap(s: Text, e: Text, start: Text, end: Text) {
    TextLess(s, end) && TextLess(start, e)
  }

  /** A seat of `attendee` counts against `checker`: same user, or a calendar that checker
      reads for conflicts is flagged as attendee's destination. */
  predicate CountsAgainst(st: State, checker: User, attendee: User) {
    || attendee == checker
    || exists c, d :: c in st.calendars && d in st.calendars &&
         c.user == checker && c.checks && d.user == attendee && d.destination &&
         d.provider == c.provider && d.account == c.account && d.calendar == c.calendar
  }

  predicate BlockedBy(st: State, user: User, start: Text, end: Text, exclude: Option<Id>, k: SeatKey) {
    && k in st.seats && k.0 in st.bookings
    && CountsAgainst(st, user, k.1)
    && !st.bookings[k.0].cancelled
    && exclude != Some(k.0)
    && Overlap(st.bookings[k.0].start, st.bookings[k.0].end, start, end)
  }

  predicate HostBusy(st: State, user: User, start: Text, end: Text, exclude: Option<Id>) {
    exists k :: k in st.seats.Keys && BlockedBy(st, user, start, end, exclude, k)
  }

  /** The partial unique index on (host_id, start_at) refuses this pair. */
  predicate StartTaken(st: State, host: User, start: Text, exclude: Option<Id>) {
    exists b :: b in st.bookings.Keys && exclude != Some(b) && !st.bookings[b].cancelled &&
      st.bookings[b].host == host && st.bookings[b].start == start
  }

  // ---------- host selection ----------

  datatype CreateParams = CreateParams(
    eventType: Id, hosts: seq<User>, roundRobin: bool, strategy: string,
    required: seq<User>, optional: seq<User>, startAt: Time, endAt: Time,
    email: string, maxActive: int, maxPerHour: int)
  {
    const start: Text := Render(startAt)
    const end: Text := Render(endAt)
  }

  /** The readings of one Create: now, and an hour before a second, later reading. */
  datatype Clock = Clock(at: Time, hourBefore: Time) {
    /** The two readings coincide. */
    ghost predicate Single() {
      Instant(hourBefore) + 3_600_000_000_000 == Instant(at)
    }

    const now: Text := Render(at)
    const hourAgo: Text := Render(hourBefore)
  }

  /** Upcoming, not cancelled bookings of an event type that a user attends. */
  function LoadSet(st: State, eventType: Id, user: User, now: Text): set<Id> {
    set b | b in st.bookings.Keys && (b, user) in st.seats && st.bookings[b].eventType == eventType &&
      !st.bookings[b].cancelled && TextLess(now, st.bookings[b].end)
  }

  function Load(st: State, eventType: Id, user: User, now: Text): nat {
    |LoadSet(st, eventType, user, now)|
  }

  function LeastLoaded(st: State, eventType: Id, candidates: seq<User>, now: Text): User
    requires candidates != []
  {
    var last := candidates[|candidates| - 1];
    if |candidates| == 1 then last
    else
      var best := LeastLoaded(st, eventType, candidates[..|candidates| - 1], now);
      if Load(st, eventType, last, now) < Load(st, eventType, best, now) then last else best
  }

  function PickRotationHost(st: State, eventType: Id, strategy: string, free: seq<User>, now: Text): User
    requires free != []
  {
    if strategy == "priority" then free[0] else LeastLoaded(st, eventType, free, now)
  }

  function FreeHosts(st: State, hosts: seq<User>, start: Text, end: Text): seq<User> {
    if hosts == [] then []
    else
      var last := hosts[|hosts| - 1];
      FreeHosts(st, hosts[..|hosts| - 1], start, end) +
        (if HostBusy(st, last, start, end, None) then [] else [last])
  }

  predicate AnyBusy(st: State, hosts: seq<User>, start: Text, end: Text) {
    exists h :: h in hosts && HostBusy(st, h, start, end, None)
  }

  /** The primary host and everyone who must attend. */
  datatype Selection = Selection(chosen: User, attending: seq<User>)

  function Select(st: State, p: CreateParams, now: Text): Outcome<Selection>
    requires p.hosts != []
  {
    if p.roundRobin then
      var free := FreeHosts(st, p.hosts, p.start, p.end);
      if AnyBusy(st, p.required, p.start, p.end) || free == [] then Err(DoubleBooked)
      else
        var chosen := PickRotationHost(st, p.eventType, p.strategy, free, now);
        Ok(Selection(chosen, p.required + [chosen]))
    else if AnyBusy(st, p.hosts, p.start, p.end) then Err(DoubleBooked)
    else Ok(Selection(p.hosts[0], p.hosts))
  }

  /** Optional hosts join only when free and not already attending. */
  function JoinOptional(st: State, attending: seq<User>, optional: seq<User>, start: Text, end: Text): seq<User> {
    if optional == [] then attending
    else
      var last := optional[|optional| - 1];
      var joined := JoinOptional(st, attending, optional[..|optional| - 1], start, end);
      if last in joined || HostBusy(st, last, start, end, None) then joined else joined + [last]
  }

  // ---------- Create ----------

  function LowerAscii(c: char): char {
    if 'A' <= c <= 'Z' then c - 'A' + 'a' else c
  }

  /** COLLATE NOCASE: ASCII letters compare without case. */
  predicate SameEmail(a: string, b: string) {
    |a| == |b| && forall i :: 0 <= i < |a| ==> LowerAscii(a[i]) == LowerAscii(b[i])
  }

  /** x is the upper case of the letter y. */
  predicate UpperOf(x: char, y: char) {
    'A' <= x <= 'Z' && y as int == x as int + 32
  }

  /** Emails are the same exactly when they differ in nothing but the case of ASCII letters. */
  lemma SameEmailExact(a: string, b: string)
    ensures SameEmail(a, b) <==>
              |a| == |b| && forall i :: 0 <= i < |a| ==> a[i] == b[i] || UpperOf(a[i], b[i]) || UpperOf(b[i], a[i])
  {
  }

  function ActiveSet(st: State, eventType: Id, email: string, now: Text): set<Id> {
    set b | b in st.bookings.Keys && st.bookings[b].eventType == eventType && !st.bookings[b].cancelled &&
      TextLess(now, st.bookings[b].end) && SameEmail(st.bookings[b].email, email)
  }

  function RecentSet(st: State, email: string, hourAgo: Text): set<Id> {
    set b | b in st.bookings.Keys && SameEmail(st.bookings[b].email, email) &&
      TextLess(hourAgo, st.bookings[b].createdAt)
  }

  predicate Distinct(hosts: seq<User>) {
    forall i, j :: 0 <= i < j < |hosts| ==> hosts[i] != hosts[j]
  }

  function NewSeats(id: Id, chosen: User, seated: seq<User>): map<SeatKey, Seat> {
    map u | u in seated :: (id, u) := Seat(u == chosen, "", "", "", false)
  }

  function NewBooking(p: CreateParams, chosen: User, now: Text): Booking {
    Booking(p.eventType, chosen, p.start, p.end, false, "", p.email, now, now)
  }

  function Create(st: State, p: CreateParams, id: Id, clock: Clock): (State, Outcome<Id>) {
    if p.hosts == [] then (st, Err(NoHosts))
    else match Select(st, p, clock.now)
      case Err(e) => (st, Err(e))
      case Ok(sel) =>
        var seated := JoinOptional(st, sel.attending, p.optional, p.start, p.end);
        if p.maxActive > 0 && |ActiveSet(st, p.eventType, p.email, clock.now)| >= p.maxActive then
          (st, Err(LimitReached))
        else if p.maxPerHour > 0 && |RecentSet(st, p.email, clock.hourAgo)| >= p.maxPerHour then
          (st, Err(EmailThrottled))
        else if id in st.bookings || StartTaken(st, sel.chosen, p.start, None) then
          (st, Err(DoubleBooked))
        else if !Distinct(seated) || exists u :: u in seated && (id, u) in st.seats then
          (st, Err(SeatConflict))
        else
          (st.(bookings := st.bookings[id := NewBooking(p, sel.chosen, clock.now)],
               seats := st.seats + NewSeats(id, sel.chosen, seated)),
           Ok(id))
  }

  // ---------- Reschedule and ReassignHost ----------

  function Attendees(st: State, id: Id): set<User> {
    set k | k in st.seats.Keys && k.0 == id :: k.1
  }

  /** Everyone holding a seat, or the host of a legacy booking without seats. */
  function Occupants(st: State, id: Id): set<User>
    requires id in st.bookings
  {
    if Attendees(st, id) == {} then {st.bookings[id].host} else Attendees(st, id)
  }

  function Reschedule(st: State, id: Id, start: Text, end: Text, now: Text): (State, Outcome<()>) {
    if id !in st.bookings then (st, Err(NotFound))
    else
      var b := st.bookings[id];
      if b.cancelled then (st, Err(AlreadyCancelled))
      else if exists u :: u in Occupants(st, id) && HostBusy(st, u, start, end, Some(id)) then (st, Err(DoubleBooked))
      else if StartTaken(st, b.host, start, Some(id)) then (st, Err(DoubleBooked))
      else (st.(bookings := st.bookings[id := b.(start := start, end := end, updatedAt := now)]), Ok(()))
  }

  function Primaries(st: State, id: Id): set<User> {
    set k | k in st.seats.Keys && k.0 == id && st.seats[k].primary :: k.1
  }

  function Reassign(st: State, id: Id, newHost: User, now: Text): (State, Outcome<()>) {
    if id !in st.bookings then (st, Err(NotFound))
    else
      var b := st.bookings[id];
      if b.cancelled then (st, Err(AlreadyCancelled))
      else if b.host == newHost then (st, Ok(()))
      else if HostBusy(st, newHost, b.start, b.end, Some(id)) then (st, Err(DoubleBooked))
      else if (id, newHost) in st.seats && !st.seats[(id, newHost)].primary then (st, Err(HostAlreadyAssigned))
      else if StartTaken(st, newHost, b.start, Some(id)) then (st, Err(DoubleBooked))
      else if |Primaries(st, id)| > 1 then (st, Err(SeatConflict))
      else
        (st.(bookings := st.bookings[id := b.(host := newHost, updatedAt := now)],
             seats := MovePrimary(st.seats, id, newHost)),
         Ok(()))
  }

  /** The primary seat of the booking, if any, replaced by a blank one for newHost. */
  function MovePrimary(seats: map<SeatKey, Seat>, id: Id, newHost: User): map<SeatKey, Seat> {
    var others := map k | k in seats.Keys && !(k.0 == id && seats[k].primary) :: seats[k];
    others[(id, newHost) := Seat(true, "", "", "", false)]
  }

  // ---------- the cancel paths ----------

  /** UPDATE ... SET status = 'cancelled' WHERE id = ?, and the clearing of the drift flags. */
  function MarkCancelled(st: State, id: Id, reason: string, now: Text): State
    requires id in st.bookings
  {
    st.(bookings := st.bookings[id := st.bookings[id].(cancelled := true, reason := reason, updatedAt := now)],
        seats := map k | k in st.seats.Keys :: if k.0 == id then st.seats[k].(needsSync := false) else st.seats[k])
  }

  function CancelByID(st: State, id: Id, reason: string, now: Text): (State, Outcome<()>) {
    if id !in st.bookings then (st, Err(NotFound))
    else if st.bookings[id].cancelled then (st, Err(AlreadyCancelled))
    else (MarkCancelled(st, id, reason, now), Ok(()))
  }

  function Cancel(st: State, host: User, id: Id, reason: string, now: Text): (State, Outcome<()>) {
    if id in st.bookings && st.bookings[id].host == host then CancelByID(st, id, reason, now)
    else (st, Err(NotFound))
  }

  /** The manage token names a live booking; both times are written to the whole second here. */
  function TokenBooking(st: State, hash: string, now: Text): Outcome<Id> {
    if hash in st.tokens && TextLess(now, st.tokens[hash].expires) then
      if st.tokens[hash].booking in st.bookings then Ok(st.tokens[hash].booking) else Err(NotFound)
    else Err(TokenNotFound)
  }

  /** The guarded UPDATE of CancelByToken, which runs some time after the token was read. */
  function TokenUpdate(st: State, id: Id, reason: string, now: Text): (State, Outcome<()>) {
    if id in st.bookings && !st.bookings[id].cancelled then (MarkCancelled(st, id, reason, now), Ok(()))
    else (st, Err(AlreadyCancelled))
  }

  // ---------- runs ----------

  datatype Op =
    | OpCreate(p: CreateParams, id: Id, clock: Clock)
    | OpReschedule(id: Id, start: Text, end: Text, now: Text)
    | OpReassign(id: Id, newHost: User, now: Text)
    | OpCancel(host: User, id: Id, reason: string, now: Text)
    | OpCancelByID(id: Id, reason: string, now: Text)
    | OpTokenUpdate(id: Id, reason: string, now: Text)
    | OpIssueToken(hash: string, token: Token)
    | OpSetCalendars(rows: set<CalendarRow>)
    | OpProject(key: SeatKey, eventId: string, calendarId: string, provider: string, needsSync: bool)

  function Apply(st: State, op: Op): State {
    match op
    case OpCreate(p, id, clock) => Create(st, p, id, clock).0
    case OpReschedule(id, start, end, now) => Reschedule(st, id, start, end, now).0
    case OpReassign(id, newHost, now) => Reassign(st, id, newHost, now).0
    case OpCancel(host, id, reason, now) => Cancel(st, host, id, reason, now).0
    case OpCancelByID(id, reason, now) => CancelByID(st, id, reason, now).0
    case OpTokenUpdate(id, reason, now) => TokenUpdate(st, id, reason, now).0
    case OpIssueToken(hash, token) => st.(tokens := st.tokens[hash := token])
    case OpSetCalendars(rows) => st.(calendars := rows)
    case OpProject(key, eventId, calendarId, provider, needsSync) =>
      if key !in st.seats then st
      else st.(seats := st.seats[key := Seat(st.seats[key].primary, eventId, calendarId, provider, needsSync)])
  }

  function Run(st: State, ops: seq<Op>): State
    decreases |ops|
  {
    if ops == [] then st else Run(Apply(st, ops[0]), ops[1..])
  }

  /** The operation is a cancellation of this booking and it succeeds. */
  predicate CancelsNow(st: State, op: Op, id: Id) {
    match op
    case OpCancel(host, i, reason, now) => i == id && Cancel(st, host, i, reason, now).1.Ok?
    case OpCancelByID(i, reason, now) => i == id && CancelByID(st, i, reason, now).1.Ok?
    case OpTokenUpdate(i, reason, now) => i == id && TokenUpdate(st, i, reason, now).1.Ok?
    case _ => false
  }

  function CancelCount(st: State, ops: seq<Op>, id: Id): nat
    decreases |ops|
  {
    if ops == [] then 0
    else (if CancelsNow(st, ops[0], id) then 1 else 0) + CancelCount(Apply(st, ops[0]), ops[1..], id)
  }

  // ---------- invariants ----------

  /** Seats belong to existing bookings (foreign key). */
  ghost predicate SeatsHaveBookings(st: State) {
    forall k :: k in st.seats ==> k.0 in st.bookings
  }

  ghost predicate Confirmed(st: State, b: Id) {
    b in st.bookings && !st.bookings[b].cancelled
  }

  ghost predicate Apart(st: State, k: SeatKey, m: SeatKey) {
    k.1 == m.1 && k.0 != m.0 && Confirmed(st, k.0) && Confirmed(st, m.0) ==>
      !Overlap(st.bookings[k.0].start, st.bookings[k.0].end, st.bookings[m.0].start, st.bookings[m.0].end)
  }

  /** No user holds seats on two overlapping, not cancelled bookings. */
  ghost predicate NoDoubleBooking(st: State) {
    forall k, m :: k in st.seats && m in st.seats ==> Apart(st, k, m)
  }

  ghost predicate HasHostSeat(st: State, k: SeatKey)
    requires k in st.seats && k.0 in st.bookings
  {
    var host := st.bookings[k.0].host;
    && (st.seats[k].primary ==> k.1 == host)
    && (k.0, host) in st.seats
    && st.seats[(k.0, host)].primary
  }

  /** A booking has no seats, or exactly one primary seat and that is its host's. */
  ghost predicate PrimaryIsHost(st: State) {
    forall k :: k in st.seats && k.0 in st.bookings ==> HasHostSeat(st, k)
  }

  ghost predicate Safe(st: State) {
    SeatsHaveBookings(st) && NoDoubleBooking(st) && PrimaryIsHost(st)
  }

  /** No confirmed overlapping booking, but the excluded one, seats one of the users or counts against one. */
  ghost predicate Clear(st: State, users: set<User>, start: Text, end: Text, exclude: Option<Id>) {
    forall u, m ::
      u in users && m in st.seats && exclude != Some(m.0) && Confirmed(st, m.0) && CountsAgainst(st, u, m.1) ==>
        !Overlap(st.bookings[m.0].start, st.bookings[m.0].end, start, end)
  }

  /** The overlap query finds something for one of the users exactly when they are not clear. */
  lemma ClearMeansFree(st: State, users: set<User>, start: Text, end: Text, exclude: Option<Id>)
    ensures Clear(st, users, start, end, exclude) <==> forall u :: u in users ==> !HostBusy(st, u, start, end, exclude)
  {
    hide CountsAgainst, Overlap;
    if Clear(st, users, start, end, exclude) {
      forall u | u in users ensures !HostBusy(st, u, start, end, exclude) {
        forall k | k in st.seats.Keys ensures !BlockedBy(st, u, start, end, exclude, k) {
        }
      }
    } else {
      var u, m :| u in users && m in st.seats && exclude != Some(m.0) && Confirmed(st, m.0) &&
        CountsAgainst(st, u, m.1) && Overlap(st.bookings[m.0].start, st.bookings[m.0].end, start, end);
      assert m in st.seats.Keys && BlockedBy(st, u, start, end, exclude, m);
    }
  }

  lemma OneClear(st: State, start: Text, end: Text, exclude: Option<Id>)
    ensures forall u :: Clear(st, {u}, start, end, exclude) <==> !HostBusy(st, u, start, end, exclude)
  {
    hide Clear, HostBusy;
    forall u ensures Clear(st, {u}, start, end, exclude) <==> !HostBusy(st, u, start, end, exclude) {
      ClearMeansFree(st, {u}, start, end, exclude);
    }
  }

  /** A confirmed booking of the event type that the user attends, and whose stored end is after now. */
  ghost predicate Carries(st: State, eventType: Id, user: User, now: Text, b: Id) {
    && Confirmed(st, b) && (b, user) in st.seats
    && st.bookings[b].eventType == eventType && TextLess(now, st.bookings[b].end)
  }

  /** How many bookings the user carries. */
  ghost function Carried(st: State, eventType: Id, user: User, now: Text): nat {
    |CarriedSet(st, eventType, user, now)|
  }

  ghost function CarriedSet(st: State, eventType: Id, user: User, now: Text): set<Id> {
    set b | b in st.bookings && Carries(st, eventType, user, now, b)
  }

  lemma LoadsExact(st: State, eventType: Id, now: Text)
    ensures forall u :: Load(st, eventType, u, now) == Carried(st, eventType, u, now)
  {
    hide TextLess;
    forall u ensures Load(st, eventType, u, now) == Carried(st, eventType, u, now) {
      assert LoadSet(st, eventType, u, now) == CarriedSet(st, eventType, u, now);
    }
  }

  lemma FreeMeansApart(st: State, user: User, start: Text, end: Text, exclude: Option<Id>, k: SeatKey)
    requires !HostBusy(st, user, start, end, exclude)
    requires k in st.seats && k.1 == user && Confirmed(st, k.0) && exclude != Some(k.0)
    ensures !Overlap(st.bookings[k.0].start, st.bookings[k.0].end, start, end)
    ensures !Overlap(start, end, st.bookings[k.0].start, st.bookings[k.0].end)
  {
    assert !BlockedBy(st, user, start, end, exclude, k);
  }

  lemma {:induction false} FreeHostsAreFree(st: State, hosts: seq<User>, start: Text, end: Text)
    ensures forall h :: h in FreeHosts(st, hosts, start, end) <==> h in hosts && !HostBusy(st, h, start, end, None)
  {
    if hosts != [] {
      FreeHostsAreFree(st, hosts[..|hosts| - 1], start, end);
      assert hosts == hosts[..|hosts| - 1] + [hosts[|hosts| - 1]];
    }
  }

  lemma {:induction false} LeastLoadedIsCandidate(st: State, eventType: Id, candidates: seq<User>, now: Text)
    requires candidates != []
    ensures LeastLoaded(st, eventType, candidates, now) in candidates
  {
    if |candidates| > 1 {
      LeastLoadedIsCandidate(st, eventType, candidates[..|candidates| - 1], now);
    }
  }

  /** Who can end up on a booking: those already attending, and free optional hosts. */
  lemma {:induction false} JoinedAreKnown(st: State, attending: seq<User>, optional: seq<User>, start: Text, end: Text)
    ensures attending <= JoinOptional(st, attending, optional, start, end)
    ensures forall u :: u in JoinOptional(st, attending, optional, start, end) <==>
              u in attending || (u in optional && !HostBusy(st, u, start, end, None))
  {
    if optional != [] {
      JoinedAreKnown(st, attending, optional[..|optional| - 1], start, end);
      assert optional == optional[..|optional| - 1] + [optional[|optional| - 1]];
    }
  }

  /** A selection takes only free hosts: the required ones with one rotation host, or all of the pool. */
  lemma SelectedAreFree(st: State, p: CreateParams, now: Text)
    requires p.hosts != [] && Select(st, p, now).Ok?
    ensures var sel := Select(st, p, now).value;
            && sel.chosen in sel.attending && sel.chosen in p.hosts
            && (forall u :: u in sel.attending ==> !HostBusy(st, u, p.start, p.end, None))
            && sel.attending == if p.roundRobin then p.required + [sel.chosen] else p.hosts
  {
    if p.roundRobin {
      var free := FreeHosts(st, p.hosts, p.start, p.end);
      FreeHostsAreFree(st, p.hosts, p.start, p.end);
      LeastLoadedIsCandidate(st, p.eventType, free, now);
      var sel := Select(st, p, now).value;
      assert sel.chosen in free;
    }
  }

  /** A successful Create: a fresh booking whose seats are exactly the selected free hosts. */
  lemma CreateSeats(st: State, p: CreateParams, id: Id, clock: Clock)
    requires Create(st, p, id, clock).1.Ok?
    ensures p.hosts != [] && Select(st, p, clock.now).Ok?
    ensures var sel := Select(st, p, clock.now).value;
            var st' := Create(st, p, id, clock).0;
            && id !in st.bookings
            && st'.bookings == st.bookings[id := NewBooking(p, sel.chosen, clock.now)]
            && (forall b, u :: b != id ==> ((b, u) in st'.seats <==> (b, u) in st.seats))
            && (forall k :: k in st.seats ==> k in st'.seats && st'.seats[k] == st.seats[k])
            && (forall u :: (id, u) in st'.seats && (id, u) !in st.seats <==>
                  u in sel.attending || (u in p.optional && !HostBusy(st, u, p.start, p.end, None)))
            && (forall u :: (id, u) in st'.seats && (id, u) !in st.seats ==>
                  !HostBusy(st, u, p.start, p.end, None) && (st'.seats[(id, u)].primary <==> u == sel.chosen))
  {
    hide Select, JoinOptional, HostBusy, StartTaken, ActiveSet, RecentSet, NewSeats, Distinct;
    var sel := Select(st, p, clock.now).value;
    SelectedAreFree(st, p, clock.now);
    JoinedAreKnown(st, sel.attending, p.optional, p.start, p.end);
    SeatsAdded(st, id, sel.chosen, JoinOptional(st, sel.attending, p.optional, p.start, p.end));
  }

  lemma SeatsAdded(st: State, id: Id, chosen: User, seated: seq<User>)
    ensures var added := NewSeats(id, chosen, seated);
            && (forall u :: (id, u) in added <==> u in seated)
            && (forall k :: k in added ==> k.0 == id && (added[k].primary <==> k.1 == chosen))
  {
  }

  lemma CreateKeepsPrimaries(st: State, p: CreateParams, id: Id, clock: Clock)
    requires SeatsHaveBookings(st) && PrimaryIsHost(st) && Create(st, p, id, clock).1.Ok?
    ensures PrimaryIsHost(Create(st, p, id, clock).0)
  {
    hide Create, Select, HostBusy;
    CreateSeats(st, p, id, clock);
    SelectedAreFree(st, p, clock.now);
    var st' := Create(st, p, id, clock).0;
    forall k | k in st'.seats && k.0 in st'.bookings ensures HasHostSeat(st', k) {
      assert k == (k.0, k.1);
      if k.0 != id {
        assert HasHostSeat(st, k);
      }
    }
  }

  lemma FailedCreate(st: State, p: CreateParams, id: Id, clock: Clock)
    ensures Create(st, p, id, clock).1.Err? ==> Create(st, p, id, clock).0 == st
  {
    hide Select, JoinOptional, StartTaken, Distinct, ActiveSet, RecentSet, NewSeats;
  }

  lemma CreateIsSafe(st: State, p: CreateParams, id: Id, clock: Clock)
    requires Safe(st)
    ensures Safe(Create(st, p, id, clock).0)
  {
    hide Create, Select, HostBusy, Overlap;
    FailedCreate(st, p, id, clock);
    var (st', r) := Create(st, p, id, clock);
    if r.Ok? {
      CreateSeats(st, p, id, clock);
      SelectedAreFree(st, p, clock.now);
      assert forall k :: k in st'.seats && k !in st.seats ==> k == (id, k.1);
      forall k, m
        | k in st'.seats && m in st'.seats && k.0 != m.0 && k.1 == m.1 && Confirmed(st', k.0) && Confirmed(st', m.0)
        ensures Apart(st', k, m)
      {
        if k.0 == id {
          FreeMeansApart(st, k.1, p.start, p.end, None, m);
        } else if m.0 == id {
          FreeMeansApart(st, k.1, p.start, p.end, None, k);
        } else {
          assert Apart(st, k, m);
        }
      }
      assert PrimaryIsHost(st') by {
        CreateKeepsPrimaries(st, p, id, clock);
      }
    }
  }

  lemma RescheduleIsSafe(st: State, id: Id, start: Text, end: Text, now: Text)
    requires Safe(st)
    ensures Safe(Reschedule(st, id, start, end, now).0)
  {
    var (st', r) := Reschedule(st, id, start, end, now);
    if r.Ok? {
      forall k, m
        | k in st'.seats && m in st'.seats && k.0 != m.0 && k.1 == m.1 && Confirmed(st', k.0) && Confirmed(st', m.0)
        ensures Apart(st', k, m)
      {
        assert Apart(st, k, m);
        if k.0 == id {
          assert k.1 in Attendees(st, id);
          FreeMeansApart(st, k.1, start, end, Some(id), m);
        } else if m.0 == id {
          assert m.1 in Attendees(st, id);
          FreeMeansApart(st, k.1, start, end, Some(id), k);
        }
      }
      forall k | k in st'.seats ensures HasHostSeat(st', k) {
        assert HasHostSeat(st, k);
      }
    }
  }

  /** A successful, effective reassignment swaps one attendee and leaves every other seat alone. */
  lemma ReassignSeats(st: State, id: Id, newHost: User, now: Text)
    requires Safe(st) && Reassign(st, id, newHost, now).1.Ok? && st.bookings[id].host != newHost
    ensures var st' := Reassign(st, id, newHost, now).0;
            var was := st.bookings[id];
            && !HostBusy(st, newHost, was.start, was.end, Some(id))
            && (id, newHost) !in st.seats
            && st'.bookings == st.bookings[id := was.(host := newHost, updatedAt := now)]
            && (forall k :: k in st'.seats <==> k == (id, newHost) || (k in st.seats && k != (id, was.host)))
            && (forall k :: k in st'.seats && k != (id, newHost) ==> st'.seats[k] == st.seats[k])
            && st'.seats[(id, newHost)] == Seat(true, "", "", "", false)
  {
    forall k | k in st.seats && k.0 == id ensures st.seats[k].primary <==> k == (id, st.bookings[id].host) {
      assert HasHostSeat(st, k);
    }
  }

  lemma ReassignIsSafe(st: State, id: Id, newHost: User, now: Text)
    requires Safe(st)
    ensures Safe(Reassign(st, id, newHost, now).0)
  {
    var (st', r) := Reassign(st, id, newHost, now);
    if r.Ok? && st.bookings[id].host != newHost {
      ReassignSeats(st, id, newHost, now);
      var was := st.bookings[id];
      forall k, m
        | k in st'.seats && m in st'.seats && k.0 != m.0 && k.1 == m.1 && Confirmed(st', k.0) && Confirmed(st', m.0)
        ensures Apart(st', k, m)
      {
        if k == (id, newHost) {
          FreeMeansApart(st, newHost, was.start, was.end, Some(id), m);
        } else if m == (id, newHost) {
          FreeMeansApart(st, newHost, was.start, was.end, Some(id), k);
        } else {
          assert Apart(st, k, m);
        }
      }
      forall k | k in st'.seats ensures HasHostSeat(st', k) {
        if k != (id, newHost) {
          assert HasHostSeat(st, k);
        }
      }
    }
  }

  lemma MarkCancelledIsSafe(st: State, id: Id, reason: string, now: Text)
    requires Safe(st) && id in st.bookings
    ensures Safe(MarkCancelled(st, id, reason, now))
  {
    var st' := MarkCancelled(st, id, reason, now);
    forall k, m | k in st'.seats && m in st'.seats ensures Apart(st', k, m) {
      assert Apart(st, k, m);
    }
    forall k | k in st'.seats ensures HasHostSeat(st', k) {
      assert HasHostSeat(st, k);
    }
  }

  /** Columns no invariant reads: tokens, calendar rows, and the event columns of a seat. */
  lemma OtherColumnsAreSafe(st: State, st': State)
    requires Safe(st) && st'.bookings == st.bookings && st'.seats.Keys == st.seats.Keys
    requires forall k :: k in st.seats ==> st'.seats[k].primary == st.seats[k].primary
    ensures Safe(st')
  {
    forall k, m | k in st'.seats && m in st'.seats ensures Apart(st', k, m) {
      assert Apart(st, k, m);
    }
    forall k | k in st'.seats ensures HasHostSeat(st', k) {
      assert HasHostSeat(st, k);
    }
  }

  lemma ApplyIsSafe(st: State, op: Op)
    requires Safe(st)
    ensures Safe(Apply(st, op))
  {
    match op
    case OpCreate(p, id, clock) => CreateIsSafe(st, p, id, clock);
    case OpReschedule(id, start, end, now) => RescheduleIsSafe(st, id, start, end, now);
    case OpReassign(id, newHost, now) => ReassignIsSafe(st, id, newHost, now);
    case OpCancel(host, id, reason, now) => if id in st.bookings { MarkCancelledIsSafe(st, id, reason, now); }
    case OpCancelByID(id, reason, now) => if id in st.bookings { MarkCancelledIsSafe(st, id, reason, now); }
    case OpTokenUpdate(id, reason, now) => if id in st.bookings { MarkCancelledIsSafe(st, id, reason, now); }
    case OpIssueToken(_, _) => OtherColumnsAreSafe(st, Apply(st, op));
    case OpSetCalendars(_) => OtherColumnsAreSafe(st, Apply(st, op));
    case OpProject(_, _, _, _, _) => OtherColumnsAreSafe(st, Apply(st, op));
  }

  /**
   The double-booking guard and the record invariant hold after every run of every
   operation, with calendar rows replaced arbitrarily between steps.
   */
  lemma {:induction false} EveryRunIsSafe(st: State, ops: seq<Op>)
    requires Safe(st)
    ensures Safe(Run(st, ops))
    decreases |ops|
  {
    if ops != [] {
      ApplyIsSafe(st, ops[0]);
      EveryRunIsSafe(Apply(st, ops[0]), ops[1..]);
    }
  }

  // ---------- cancelled is final ----------

  /** st' agrees with st on the record, the attendees and the primary flags of a booking. */
  ghost predicate SameRecord(st: State, st': State, id: Id) {
    && id in st.bookings && id in st'.bookings && st'.bookings[id] == st.bookings[id]
    && (forall u :: (id, u) in st.seats <==> (id, u) in st'.seats)
    && (forall u :: (id, u) in st.seats && (id, u) in st'.seats ==>
          st'.seats[(id, u)].primary == st.seats[(id, u)].primary)
  }

  lemma CreateKeepsRecords(st: State, p: CreateParams, i: Id, clock: Clock, id: Id)
    requires Safe(st) && id in st.bookings
    ensures SameRecord(st, Create(st, p, i, clock).0, id)
  {
    hide Create, Select, HostBusy;
    FailedCreate(st, p, i, clock);
    if Create(st, p, i, clock).1.Ok? {
      CreateSeats(st, p, i, clock);
    }
  }

  lemma ReassignKeepsOthers(st: State, i: Id, newHost: User, now: Text, id: Id)
    requires Safe(st) && id in st.bookings && (id != i || st.bookings[id].cancelled)
    ensures SameRecord(st, Reassign(st, i, newHost, now).0, id)
  {
    if Reassign(st, i, newHost, now).1.Ok? && st.bookings[i].host != newHost {
      ReassignSeats(st, i, newHost, now);
    }
  }

  lemma MarkCancelledKeepsOthers(st: State, i: Id, reason: string, now: Text, id: Id)
    requires i in st.bookings && id in st.bookings && i != id
    ensures SameRecord(st, MarkCancelled(st, i, reason, now), id)
  {
  }

  lemma ApplyFreezesCancelled(st: State, op: Op, id: Id)
    requires Safe(st) && id in st.bookings && st.bookings[id].cancelled
    ensures SameRecord(st, Apply(st, op), id)
    ensures !CancelsNow(st, op, id)
  {
    hide Create, Reassign, MarkCancelled, Safe;
    match op
    case OpCreate(p, i, clock) => CreateKeepsRecords(st, p, i, clock, id);
    case OpReassign(i, newHost, now) => ReassignKeepsOthers(st, i, newHost, now, id);
    case OpCancel(_, i, reason, now) =>
      if i in st.bookings && i != id { MarkCancelledKeepsOthers(st, i, reason, now, id); }
    case OpCancelByID(i, reason, now) =>
      if i in st.bookings && i != id { MarkCancelledKeepsOthers(st, i, reason, now, id); }
    case OpTokenUpdate(i, reason, now) =>
      if i in st.bookings && i != id { MarkCancelledKeepsOthers(st, i, reason, now, id); }
    case _ =>
  }

  /** Once cancelled, status, times, reason, host and attendees never change again, whatever runs. */
  lemma {:induction false} CancelledIsFinal(st: State, ops: seq<Op>, id: Id)
    requires Safe(st) && id in st.bookings && st.bookings[id].cancelled
    ensures SameRecord(st, Run(st, ops), id)
    ensures CancelCount(st, ops, id) == 0
    decreases |ops|
  {
    if ops != [] {
      ApplyFreezesCancelled(st, ops[0], id);
      ApplyIsSafe(st, ops[0]);
      CancelledIsFinal(Apply(st, ops[0]), ops[1..], id);
    }
  }

  /** One step cancels the booking exactly when one of the cancel paths reports success on it. */
  lemma ApplyCancels(st: State, op: Op, id: Id)
    requires Safe(st) && !(id in st.bookings && st.bookings[id].cancelled)
    ensures var st' := Apply(st, op); CancelsNow(st, op, id) <==> id in st'.bookings && st'.bookings[id].cancelled
  {
    hide Safe, Create, Reschedule, Reassign, Select, HostBusy;
    match op
    case OpCreate(p, i, clock) =>
      FailedCreate(st, p, i, clock);
      if Create(st, p, i, clock).1.Ok? {
        CreateSeats(st, p, i, clock);
      }
    case OpReschedule(i, start, end, now) => RescheduleKeepsStatus(st, i, start, end, now);
    case OpReassign(i, newHost, now) => ReassignKeepsStatus(st, i, newHost, now);
    case _ =>
  }

  lemma RescheduleKeepsStatus(st: State, id: Id, start: Text, end: Text, now: Text)
    ensures SameStatus(st, Reschedule(st, id, start, end, now).0)
  {
    hide HostBusy, StartTaken, Occupants;
  }

  lemma ReassignKeepsStatus(st: State, id: Id, newHost: User, now: Text)
    ensures SameStatus(st, Reassign(st, id, newHost, now).0)
  {
    hide HostBusy, StartTaken, Primaries, MovePrimary;
  }

  ghost predicate SameStatus(st: State, st': State) {
    && st'.bookings.Keys == st.bookings.Keys
    && forall b :: b in st.bookings ==> st'.bookings[b].cancelled == st.bookings[b].cancelled
  }

  /**
   Of any interleaved cancel attempts on a booking that is not cancelled at the start, exactly
   one succeeds if the booking ends cancelled, and none otherwise.
   */
  lemma {:induction false} ExactlyOneCancelWins(st: State, ops: seq<Op>, id: Id)
    requires Safe(st) && !(id in st.bookings && st.bookings[id].cancelled)
    ensures var end := Run(st, ops);
            CancelCount(st, ops, id) == if id in end.bookings && end.bookings[id].cancelled then 1 else 0
    decreases |ops|
  {
    if ops != [] {
      var next := Apply(st, ops[0]);
      ApplyIsSafe(st, ops[0]);
      ApplyCancels(st, ops[0], id);
      if id in next.bookings && next.bookings[id].cancelled {
        CancelledIsFinal(next, ops[1..], id);
      } else {
        ExactlyOneCancelWins(next, ops[1..], id);
      }
    }
  }

  /** The operation cancels the booking if it is still confirmed, whoever asks. */
  predicate CancelsAny(op: Op, id: Id) {
    (op.OpCancelByID? && op.id == id) || (op.OpTokenUpdate? && op.id == id)
  }

  lemma StillThere(st: State, op: Op, id: Id)
    requires id in st.bookings
    ensures id in Apply(st, op).bookings
  {
    hide Create, Reschedule, Reassign, Select, HostBusy;
    match op
    case OpCreate(p, i, clock) =>
      FailedCreate(st, p, i, clock);
      if Create(st, p, i, clock).1.Ok? {
        CreateSeats(st, p, i, clock);
      }
    case OpReschedule(i, start, end, now) => RescheduleKeepsStatus(st, i, start, end, now);
    case OpReassign(i, newHost, now) => ReassignKeepsStatus(st, i, newHost, now);
    case _ =>
  }

  /** If an administrator or a token holder cancels a standing booking at any point, exactly one cancel wins. */
  lemma {:induction false} AnAttemptWins(st: State, ops: seq<Op>, id: Id)
    requires Safe(st) && Confirmed(st, id) && exists op :: op in ops && CancelsAny(op, id)
    ensures CancelCount(st, ops, id) == 1
    ensures id in Run(st, ops).bookings && Run(st, ops).bookings[id].cancelled
    decreases |ops|
  {
    var next := Apply(st, ops[0]);
    ApplyIsSafe(st, ops[0]);
    StillThere(st, ops[0], id);
    ApplyCancels(st, ops[0], id);
    assert CancelsAny(ops[0], id) ==> CancelsNow(st, ops[0], id);
    hide Apply, Safe, CancelsNow;
    if next.bookings[id].cancelled {
      CancelledIsFinal(next, ops[1..], id);
    } else {
      var op :| op in ops && CancelsAny(op, id);
      assert op in ops[1..];
      AnAttemptWins(next, ops[1..], id);
    }
  }

  /** CancelByToken in one go is its token read followed by its guarded update. */
  function CancelByToken(st: State, hash: string, reason: string, readAt: Text, now: Text): (State, Outcome<()>) {
    match TokenBooking(st, hash, readAt)
    case Err(e) => (st, Err(e))
    case Ok(id) => TokenUpdate(st, id, reason, now)
  }

  // ---------- on the clock ----------

  /** The intervals meet as instants. */
  predicate RealOverlap(s: Time, e: Time, start: Time, end: Time) {
    Instant(s) < Instant(end) && Instant(start) < Instant(e)
  }

  /** The text comparisons that go wrong still leave the right verdict on this pair of intervals. */
  predicate GuardReadsRight(s: Time, e: Time, start: Time, end: Time) {
    match (Confusable(s, end), Confusable(start, e))
    case (false, false) => true
    case (true, false) => Instant(start) >= Instant(e)
    case (false, true) => Instant(s) >= Instant(end)
    case (true, true) => (Instant(s) < Instant(end)) != (Instant(start) < Instant(e))
  }

  /** The SQL overlap test on the stored text is the overlap of the instants exactly then. */
  lemma OverlapTestExact(s: Time, e: Time, start: Time, end: Time)
    ensures (Overlap(Render(s), Render(e), Render(start), Render(end)) == RealOverlap(s, e, start, end))
            <==> GuardReadsRight(s, e, start, end)
  {
    TextOrderIsChronological(s, end);
    TextOrderIsChronological(start, e);
  }

  /** At least two different seconds, as every duration in minutes gives. */
  predicate Spans(s: Time, e: Time) {
    Seconds(s) < Seconds(e)
  }

  /** For intervals that span seconds: exactly when no end and start are confusable as text. */
  lemma SpanningOverlapExact(s: Time, e: Time, start: Time, end: Time)
    requires Spans(s, e) && Spans(start, end)
    ensures (Overlap(Render(s), Render(e), Render(start), Render(end)) == RealOverlap(s, e, start, end))
            <==> !Confusable(s, end) && !Confusable(start, e)
  {
    hide Render, TextLess, Fraction, Instant, Seconds;
    TextOrderIsChronological(s, end);
    TextOrderIsChronological(start, e);
    if Seconds(s) == Seconds(end) {
      EarlierSecondFirst(start, e);
    } else if Seconds(start) == Seconds(e) {
      EarlierSecondFirst(s, end);
    }
  }

  lemma EarlierSecondFirst(a: Time, b: Time)
    requires Seconds(a) < Seconds(b)
    ensures Instant(a) < Instant(b) && Before(a, b)
  {
    hide Render, TextLess, Fraction;
    MissedExactly(a, b);
  }

  /** What the guard lets through meets in real time exactly when it misses that a start comes before an end. */
  lemma PassedGuardMeets(s: Time, e: Time, start: Time, end: Time)
    requires !Overlap(Render(s), Render(e), Render(start), Render(end))
    ensures RealOverlap(s, e, start, end) ==> Missed(s, end) || Missed(start, e)
    ensures Spans(s, e) && Spans(start, end) ==>
              (RealOverlap(s, e, start, end) <==> Missed(s, end) || Missed(start, e))
  {
    hide Render, TextLess, Fraction;
    MissedExactly(s, end);
    MissedExactly(start, e);
  }

  /** The row's interval is [s, e). */
  predicate HasTimes(b: Booking, s: Time, e: Time) {
    b.start == Render(s) && b.end == Render(e)
  }

  /**
   The guard in real time, after every run: two confirmed bookings sharing an attendee meet as
   instants if and only if the text misses that one starts before the other ends, because both fall
   in one second and the fraction of the later extends that of the earlier. On whole seconds never.
   */
  lemma NoRealDoubleBooking(st: State, ops: seq<Op>, k: SeatKey, m: SeatKey, s: Time, e: Time, start: Time, end: Time)
    requires Safe(st)
    requires var r := Run(st, ops);
             && k in r.seats && m in r.seats && k.1 == m.1 && k.0 != m.0
             && Confirmed(r, k.0) && Confirmed(r, m.0)
             && HasTimes(r.bookings[k.0], s, e) && HasTimes(r.bookings[m.0], start, end)
    ensures RealOverlap(s, e, start, end) ==> Missed(s, end) || Missed(start, e)
    ensures Spans(s, e) && Spans(start, end) ==>
              (RealOverlap(s, e, start, end) <==> Missed(s, end) || Missed(start, e))
    ensures s.nanos == e.nanos == start.nanos == end.nanos == 0 ==> !RealOverlap(s, e, start, end)
  {
    EveryRunIsSafe(st, ops);
    assert Apart(Run(st, ops), k, m);
    hide Render, TextLess, Fraction;
    PassedGuardMeets(s, e, start, end);
    WholeSecondHasNoFraction(s);
    WholeSecondHasNoFraction(e);
    WholeSecondHasNoFraction(start);
    WholeSecondHasNoFraction(end);
  }

  lemma CardinalityOfSubset<T>(a: set<T>, b: set<T>)
    requires a <= b
    ensures |a| <= |b|
  {
    assert b == a + (b - a);
  }

  const EMPTY: State := State(map[], map[], map[], {})

  lemma DistinctGrows(before: seq<User>, u: User)
    ensures Distinct(before + [u]) <==> Distinct(before) && u !in before
  {
    var longer := before + [u];
    assert forall i :: 0 <= i < |before| ==> longer[i] == before[i];
    assert longer[|before|] == u;
  }

  /** Optional hosts join once each. */
  lemma {:induction false} JoinedDistinct(st: State, attending: seq<User>, optional: seq<User>, start: Text, end: Text)
    ensures Distinct(JoinOptional(st, attending, optional, start, end)) <==> Distinct(attending)
  {
    if optional != [] {
      JoinedDistinct(st, attending, optional[..|optional| - 1], start, end);
      var joined := JoinOptional(st, attending, optional[..|optional| - 1], start, end);
      hide Distinct, HostBusy;
      DistinctGrows(joined, optional[|optional| - 1]);
    }
  }

  /** Within the two limits of the event type. */
  predicate WithinLimits(st: State, p: CreateParams, clock: Clock) {
    && (p.maxActive > 0 ==> |ActiveSet(st, p.eventType, p.email, clock.now)| < p.maxActive)
    && (p.maxPerHour > 0 ==> |RecentSet(st, p.email, clock.hourAgo)| < p.maxPerHour)
  }

  lemma OneHostSelected(st: State, p: CreateParams, id: Id, now: Text, host: User)
    requires p.hosts == [host] && !p.roundRobin && Clear(st, {host}, p.start, p.end, None)
    ensures Select(st, p, now) == Ok(Selection(host, [host])) && Distinct([host])
    ensures p.optional == [] ==> JoinOptional(st, [host], p.optional, p.start, p.end) == [host]
    ensures NewSeats(id, host, [host]) == map[(id, host) := Seat(true, "", "", "", false)]
  {
    hide HostBusy, Clear;
    OneClear(st, p.start, p.end, None);
    assert forall u :: u in [host] <==> u == host;
  }

  /** One clear host, within the limits: the booking is accepted and seats that host and the free optional ones. */
  lemma OneHostAccepted(st: State, p: CreateParams, id: Id, clock: Clock, host: User)
    requires p.hosts == [host] && !p.roundRobin && WithinLimits(st, p, clock)
    requires id !in st.bookings && forall u :: (id, u) !in st.seats
    requires Clear(st, {host}, p.start, p.end, None) && !StartTaken(st, host, p.start, None)
    ensures Create(st, p, id, clock).1.Ok?
    ensures var st' := Create(st, p, id, clock).0;
            && st'.bookings == st.bookings[id := NewBooking(p, host, clock.now)]
            && st'.seats == st.seats + NewSeats(id, host, JoinOptional(st, [host], p.optional, p.start, p.end))
            && (p.optional == [] ==> st'.seats == st.seats[(id, host) := Seat(true, "", "", "", false)])
            && st'.calendars == st.calendars
  {
    hide Select, JoinOptional, StartTaken, ActiveSet, RecentSet, NewSeats, Clear, Distinct;
    OneHostSelected(st, p, id, clock.now, host);
    JoinedDistinct(st, [host], p.optional, p.start, p.end);
    var seat := Seat(true, "", "", "", false);
    assert st.seats + map[(id, host) := seat] == st.seats[(id, host) := seat];
  }

  /** Two half hours with one host, the first asked for half a second late, so running into the second. */
  const LATE_END: CreateParams := CreateParams(
    "call", ["ada"], false, "", [], [],
    Stamp(2026, 6, 15, 9, 0, 0, 500_000_000), Stamp(2026, 6, 15, 9, 30, 0, 500_000_000), "bo@example.com", 0, 0)
  const NEXT_SLOT: CreateParams := LATE_END.(
    startAt := Stamp(2026, 6, 15, 9, 30, 0, 0), endAt := Stamp(2026, 6, 15, 10, 0, 0, 0))

  lemma LateEndTimes()
    ensures RealOverlap(LATE_END.startAt, LATE_END.endAt, NEXT_SLOT.startAt, NEXT_SLOT.endAt)
    ensures !TextLess(NEXT_SLOT.start, LATE_END.end)
    ensures NEXT_SLOT.start != LATE_END.start
  {
    var p, q := LATE_END, NEXT_SLOT;
    HalfSecondSortsBackwards();
    NotBoth(p.end, q.start);
    SecondsFollowFields(p.startAt, q.startAt);
    TextOrderIsChronological(p.startAt, q.startAt);
    NotBoth(p.start, p.start);
    SecondsFollowFields(p.startAt, q.endAt);
    SecondsFollowFields(q.startAt, p.endAt);
  }

  lemma EndsBeforeNext(st: State, p: CreateParams, q: CreateParams)
    requires st.seats.Keys == {("a", "ada")} && "a" in st.bookings && st.bookings["a"].end == p.end
    requires !TextLess(q.start, p.end)
    ensures Clear(st, {"ada"}, q.start, q.end, None)
  {
  }

  /**
   With a fractional second the promise fails: the first end is stored as text that sorts before
   the second start, so both bookings are accepted although they meet for half a second.
   */
  lemma FractionsDefeatTheGuard(clock: Clock)
    ensures var one := Create(EMPTY, LATE_END, "a", clock);
            var two := Create(one.0, NEXT_SLOT, "b", clock);
            && one.1.Ok? && two.1.Ok?
            && ("a", "ada") in two.0.seats && ("b", "ada") in two.0.seats
            && Confirmed(two.0, "a") && Confirmed(two.0, "b")
            && RealOverlap(LATE_END.startAt, LATE_END.endAt, NEXT_SLOT.startAt, NEXT_SLOT.endAt)
  {
    hide Create, TextLess, Render, RealOverlap;
    LateEndTimes();
    OneHostAccepted(EMPTY, LATE_END, "a", clock, "ada");
    var st := Create(EMPTY, LATE_END, "a", clock).0;
    EndsBeforeNext(st, LATE_END, NEXT_SLOT);
    OneHostAccepted(st, NEXT_SLOT, "b", clock, "ada");
  }
}
