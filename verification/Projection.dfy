/**
 Bookings projected onto an external calendar, as interleaved steps: inline creation and
 cancellation run beside a single reconciler sweep, and every provider call and every row update
 is a step of its own.

 Inline creation may come at any time after the booking: for a paid booking it starts when the
 payment is confirmed, long after the sweeper's grace period. What that costs is stated exactly.
 */
module Projection {
  import opened Options
  import opened Seats
  import opened Timestamps

  type Event = string

  /** The inline creation of one seat's event. */
  datatype Inline = Waiting | Accepted(event: Event) | Finished

  datatype Seat = Seat(createdAt: nat, recorded: Option<Event>, inline: Inline)

  /** A cancellation's side effect on one seat: the event it read, and whether the provider deleted it. */
  datatype Task = Task(key: SeatKey, event: Event, deleted: bool)

  datatype Item = Item(key: SeatKey, event: Event)

  /** Where the sweeper is: its snapshot still to do, and the call whose row update is due. */
  datatype Sweeper =
    | Idle
    | Cancelling(todo: set<Item>, answered: Option<Item>)
    | Creating(missing: set<SeatKey>, made: Option<Item>)

  datatype State = State(
    clock: nat, seats: map<SeatKey, Seat>, cancelled: set<string>,
    live: map<Event, SeatKey>,  // events the provider holds, with the seat each was created for
    used: set<Event>, unreachable: set<Event>,
    tasks: set<Task>, sweeper: Sweeper)

  /** Five minutes; the clock counts whole seconds. */
  const GRACE: nat := 300

  const INITIAL: State := State(0, map[], {}, map[], {}, {}, {}, Idle)

  datatype Answer = Done | Failed | Unreachable

  datatype Step =
    | Book(keys: set<SeatKey>)
    | Tick(seconds: nat)
    | InlineAccepted(k: SeatKey, e: Event)
    | InlineGivesUp(k: SeatKey)
    | InlineRecords(k: SeatKey)
    | CancelBooking(b: string)
    | StartSideEffects(b: string)
    | SideEffectCall(t: Task, a: Answer)
    | SideEffectClears(t: Task)
    | SweepStarts
    | SweepCancels(i: Item, a: Answer)
    | SweepClears
    | SweepTurnsToCreate(snapshot: set<SeatKey>)
    | SweepSkips(k: SeatKey)
    | SweepAccepted(k: SeatKey, e: Event)
    | SweepRecords
    | SweepEnds

  predicate SeatReads(s: State, k: SeatKey, e: Event) {
    k in s.seats && s.seats[k].recorded == Some(e)
  }

  /** Rows the creation pass may select: from the second on in which the grace period ends. */
  predicate MissingEvent(s: State, k: SeatKey) {
    k in s.seats && k.0 !in s.cancelled && s.seats[k].recorded.None? && s.seats[k].createdAt + GRACE <= s.clock
  }

  /**
   Why that second counts: the cutoff, five minutes back, is printed without its fraction, and creation
   times are compared with it as text. In the second in which the grace ends, the rows created on a
   fraction are selected, those created on the whole second are not.
   */
  lemma GraceOnTheClock(created: Time, now: Time, back: Time)
    requires Instant(back) + GRACE * 1_000_000_000 == Instant(now)
    ensures Before(created, Cut(back)) <==>
              || Seconds(created) + GRACE < Seconds(now)
              || (Seconds(created) + GRACE == Seconds(now) && created.nanos != 0)
  {
    assert Seconds(back) + GRACE == Seconds(now);
    hide Before, Seconds, Instant;
    ListSplitsAtTheSecond(created, back);
  }

  /** A row made at 10:00:00.5 is selected at 10:05:00.2, three tenths of a second before its grace is over. */
  lemma SelectedEarly()
    ensures var created := Stamp(2026, 6, 15, 10, 0, 0, 500_000_000);
            var now := Stamp(2026, 6, 15, 10, 5, 0, 200_000_000);
            var back := Stamp(2026, 6, 15, 10, 0, 0, 200_000_000);
            && Instant(back) + GRACE * 1_000_000_000 == Instant(now)
            && Before(created, Cut(back)) && Instant(now) < Instant(created) + GRACE * 1_000_000_000
  {
    var created := Stamp(2026, 6, 15, 10, 0, 0, 500_000_000);
    var now := Stamp(2026, 6, 15, 10, 5, 0, 200_000_000);
    var back := Stamp(2026, 6, 15, 10, 0, 0, 200_000_000);
    assert Instant(back) + GRACE * 1_000_000_000 == Instant(now);
    GraceOnTheClock(created, now, back);
  }

  predicate Enabled(s: State, step: Step) {
    match step
    case Book(keys) => forall k :: k in keys ==> k !in s.seats && k.0 !in s.cancelled
    case Tick(_) => true
    case InlineAccepted(k, e) => k in s.seats && s.seats[k].inline.Waiting? && e !in s.used
    case InlineGivesUp(k) => k in s.seats && s.seats[k].inline.Waiting?
    case InlineRecords(k) => k in s.seats && s.seats[k].inline.Accepted?
    case CancelBooking(b) => b !in s.cancelled
    case StartSideEffects(b) => b in s.cancelled
    case SideEffectCall(t, _) => t in s.tasks && !t.deleted
    case SideEffectClears(t) => t in s.tasks && t.deleted
    case SweepStarts => s.sweeper.Idle?
    case SweepCancels(i, _) => s.sweeper.Cancelling? && s.sweeper.answered.None? && i in s.sweeper.todo
    case SweepClears => s.sweeper.Cancelling? && s.sweeper.answered.Some?
    case SweepTurnsToCreate(snapshot) =>
      s.sweeper == Cancelling({}, None) && forall k :: k in snapshot ==> MissingEvent(s, k)
    case SweepSkips(k) => s.sweeper.Creating? && s.sweeper.made.None? && k in s.sweeper.missing
    case SweepAccepted(k, e) => s.sweeper.Creating? && s.sweeper.made.None? && k in s.sweeper.missing && e !in s.used
    case SweepRecords => s.sweeper.Creating? && s.sweeper.made.Some?
    case SweepEnds => s.sweeper == Creating({}, None)
  }

  function Record(s: State, k: SeatKey, e: Option<Event>): map<SeatKey, Seat> {
    if k in s.seats then s.seats[k := s.seats[k].(recorded := e)] else s.seats
  }

  function Drop(live: map<Event, SeatKey>, e: Event): map<Event, SeatKey> {
    map f | f in live.Keys && f != e :: live[f]
  }

  /** Events recorded on a booking's seats. */
  function RecordedOn(s: State, b: string): set<Item> {
    set k | k in s.seats.Keys && k.0 == b && s.seats[k].recorded.Some? :: Item(k, s.seats[k].recorded.value)
  }

  /** Events recorded on cancelled bookings: the cancellation pass's query. */
  function Orphans(s: State): set<Item> {
    set k | k in s.seats.Keys && k.0 in s.cancelled && s.seats[k].recorded.Some? :: Item(k, s.seats[k].recorded.value)
  }

  function Apply(s: State, step: Step): State
    requires Enabled(s, step)
  {
    match step
    case Book(keys) => s.(seats := s.seats + map k | k in keys :: Seat(s.clock, None, Waiting))
    case Tick(n) => s.(clock := s.clock + n)
    case InlineAccepted(k, e) =>
      s.(live := s.live[e := k], used := s.used + {e}, seats := s.seats[k := s.seats[k].(inline := Accepted(e))])
    case InlineGivesUp(k) => s.(seats := s.seats[k := s.seats[k].(inline := Finished)])
    case InlineRecords(k) =>
      s.(seats := s.seats[k := s.seats[k].(recorded := Some(s.seats[k].inline.event), inline := Finished)])
    case CancelBooking(b) => s.(cancelled := s.cancelled + {b})
    case StartSideEffects(b) =>
      s.(tasks := s.tasks + set i | i in RecordedOn(s, b) :: Task(i.key, i.event, false))
    case SideEffectCall(t, a) =>
      if a == Done then s.(live := Drop(s.live, t.event), tasks := s.tasks - {t} + {t.(deleted := true)})
      else s.(tasks := s.tasks - {t})
    case SideEffectClears(t) => s.(seats := Record(s, t.key, None), tasks := s.tasks - {t})
    case SweepStarts => s.(sweeper := Cancelling(Orphans(s), None))
    case SweepCancels(i, a) =>
      match a {
        case Done => s.(live := Drop(s.live, i.event), sweeper := Cancelling(s.sweeper.todo - {i}, Some(i)))
        case Failed => s.(sweeper := Cancelling(s.sweeper.todo - {i}, None))
        case Unreachable =>
          s.(unreachable := s.unreachable + {i.event}, sweeper := Cancelling(s.sweeper.todo - {i}, Some(i)))
      }
    case SweepClears =>
      s.(seats := Record(s, s.sweeper.answered.value.key, None), sweeper := Cancelling(s.sweeper.todo, None))
    case SweepTurnsToCreate(snapshot) => s.(sweeper := Creating(snapshot, None))
    case SweepSkips(k) => s.(sweeper := Creating(s.sweeper.missing - {k}, None))
    case SweepAccepted(k, e) =>
      s.(live := s.live[e := k], used := s.used + {e}, sweeper := Creating(s.sweeper.missing - {k}, Some(Item(k, e))))
    case SweepRecords =>
      s.(seats := Record(s, s.sweeper.made.value.key, Some(s.sweeper.made.value.event)),
         sweeper := Creating(s.sweeper.missing, None))
    case SweepEnds => s.(sweeper := Idle)
  }

  // ---------- what never goes wrong ----------

  /** The event is recorded on its seat, about to be recorded, or given up as unreachable. */
  predicate Accounted(s: State, e: Event)
    requires e in s.live
  {
    var k := s.live[e];
    || SeatReads(s, k, e)
    || (k in s.seats && s.seats[k].inline == Accepted(e))
    || (s.sweeper.Creating? && s.sweeper.made == Some(Item(k, e)))
    || e in s.unreachable
  }

  ghost predicate EventsAccounted(s: State) {
    forall e :: e in s.live ==> Accounted(s, e)
  }

  /** The event is known to have been created for seat k, if it is still at the provider. */
  predicate CreatedFor(s: State, k: SeatKey, e: Event) {
    e in s.used && (e in s.live ==> s.live[e] == k)
  }

  /** Where a seat's events are: each was created for it, and no event is in two places. */
  ghost predicate SeatSound(s: State, k: SeatKey)
    requires k in s.seats
  {
    var seat := s.seats[k];
    && (seat.recorded.Some? ==> CreatedFor(s, k, seat.recorded.value))
    && (seat.inline.Accepted? ==> CreatedFor(s, k, seat.inline.event) && seat.recorded != Some(seat.inline.event))
  }

  ghost predicate MadeSound(s: State) {
    s.sweeper.Creating? && s.sweeper.made.Some? ==>
      var k, m := s.sweeper.made.value.key, s.sweeper.made.value.event;
      && k in s.seats && CreatedFor(s, k, m)
      && s.seats[k].recorded != Some(m) && s.seats[k].inline != Accepted(m)
  }

  /** What every step keeps, whenever it comes. */
  ghost predicate Sound(s: State) {
    && s.live.Keys <= s.used
    && (forall k :: k in s.seats ==> SeatSound(s, k))
    && (s.sweeper.Creating? ==> forall k :: k in s.sweeper.missing ==> k in s.seats)
    && MadeSound(s)
  }

  lemma StepKeepsSeats(s: State, step: Step)
    requires Sound(s) && Enabled(s, step)
    ensures var s' := Apply(s, step); s'.live.Keys <= s'.used && forall k :: k in s'.seats ==> SeatSound(s', k)
  {
    var s' := Apply(s, step);
    forall k | k in s'.seats ensures SeatSound(s', k) {
      assert k in s.seats ==> SeatSound(s, k);
    }
  }

  lemma StepKeepsMade(s: State, step: Step)
    requires Sound(s) && Enabled(s, step)
    ensures var s' := Apply(s, step);
            MadeSound(s') && (s'.sweeper.Creating? ==> forall k :: k in s'.sweeper.missing ==> k in s'.seats)
  {
    var s' := Apply(s, step);
    if s'.sweeper.Creating? && s'.sweeper.made.Some? {
      var k := s'.sweeper.made.value.key;
      assert k in s.seats && SeatSound(s, k);
    }
  }

  lemma StepKeepsSound(s: State, step: Step)
    requires Sound(s) && Enabled(s, step)
    ensures Sound(Apply(s, step))
  {
    StepKeepsSeats(s, step);
    StepKeepsMade(s, step);
  }

  /** Writing the seat's event column loses nothing: it is empty, or its event is deleted or given up. */
  predicate Spare(s: State, k: SeatKey) {
    k in s.seats && s.seats[k].recorded.Some? ==> Gone(s, s.seats[k].recorded.value)
  }

  /** The steps that write an event column write a spare one. */
  predicate Spares(s: State, step: Step)
    requires Enabled(s, step)
  {
    match step
    case InlineRecords(k) => Spare(s, k)
    case SideEffectClears(t) => Spare(s, t.key)
    case SweepClears => Spare(s, s.sweeper.answered.value.key)
    case SweepRecords => Spare(s, s.sweeper.made.value.key)
    case _ => true
  }

  lemma SparesAccounts(s: State, step: Step)
    requires Sound(s) && EventsAccounted(s) && Enabled(s, step) && Spares(s, step)
    ensures EventsAccounted(Apply(s, step))
  {
    var s' := Apply(s, step);
    forall e | e in s'.live ensures Accounted(s', e) {
      assert e in s.live ==> Accounted(s, e);
    }
  }

  /** The seat whose event column the step writes. */
  function Written(s: State, step: Step): Option<SeatKey>
    requires Enabled(s, step)
  {
    match step
    case InlineRecords(k) => Some(k)
    case SideEffectClears(t) => Some(t.key)
    case SweepClears => Some(s.sweeper.answered.value.key)
    case SweepRecords => Some(s.sweeper.made.value.key)
    case _ => None
  }

  lemma OverwriteLoses(s: State, step: Step)
    requires Sound(s) && Enabled(s, step) && !Spares(s, step)
    ensures var k := Written(s, step).value;
            var s', e := Apply(s, step), s.seats[k].recorded.value;
            e in s'.live && s'.live[e] == k && !Accounted(s', e)
  {
    var k := Written(s, step).value;
    assert SeatSound(s, k);
  }

  /**
   Exactly which steps keep every event accounted for: all, except those that overwrite or clear a
   seat's event column while its event is still at the provider and not given up.
   */
  lemma StepAccountsIff(s: State, step: Step)
    requires Sound(s) && EventsAccounted(s) && Enabled(s, step)
    ensures EventsAccounted(Apply(s, step)) <==> Spares(s, step)
  {
    if Spares(s, step) {
      SparesAccounts(s, step);
    } else {
      OverwriteLoses(s, step);
    }
  }

  // ---------- runs ----------

  /** steps can be taken one after the other from s, ending in s'. */
  ghost predicate Runs(s: State, steps: seq<Step>, s': State)
    decreases |steps|
  {
    if steps == [] then s' == s else Enabled(s, steps[0]) && Runs(Apply(s, steps[0]), steps[1..], s')
  }

  /** Every state the run passes through accounts for every event. */
  ghost predicate AccountsThroughout(s: State, steps: seq<Step>)
    decreases |steps|
  {
    EventsAccounted(s) &&
    (steps != [] ==> Enabled(s, steps[0]) && AccountsThroughout(Apply(s, steps[0]), steps[1..]))
  }

  ghost predicate SparesThroughout(s: State, steps: seq<Step>)
    decreases |steps|
  {
    steps != [] ==>
      Enabled(s, steps[0]) && Spares(s, steps[0]) && SparesThroughout(Apply(s, steps[0]), steps[1..])
  }

  lemma {:induction false} RunAccountsIff(s: State, steps: seq<Step>, s': State)
    requires Sound(s) && EventsAccounted(s) && Runs(s, steps, s')
    ensures AccountsThroughout(s, steps) <==> SparesThroughout(s, steps)
    decreases |steps|
  {
    if steps != [] {
      hide Sound, EventsAccounted, Apply, Enabled, Spares;
      StepAccountsIff(s, steps[0]);
      StepKeepsSound(s, steps[0]);
      if Spares(s, steps[0]) {
        RunAccountsIff(Apply(s, steps[0]), steps[1..], s');
      } else {
        NotAccountedFirst(Apply(s, steps[0]), steps[1..]);
      }
    }
  }

  lemma NotAccountedFirst(s: State, steps: seq<Step>)
    ensures !EventsAccounted(s) ==> !AccountsThroughout(s, steps)
  {
    hide EventsAccounted, Apply, Enabled;
  }

  // ---------- inline creation within the grace period ----------

  /** The provider accepts, and the seat records, an inline event before the second in which the grace ends. */
  predicate Prompt(s: State, step: Step)
    requires Enabled(s, step)
  {
    match step
    case InlineAccepted(k, _) => s.clock < s.seats[k].createdAt + GRACE
    case InlineRecords(k) => s.clock < s.seats[k].createdAt + GRACE
    case _ => true
  }

  ghost predicate PromptRun(s: State, steps: seq<Step>)
    decreases |steps|
  {
    steps != [] ==>
      Enabled(s, steps[0]) && Prompt(s, steps[0]) && PromptRun(Apply(s, steps[0]), steps[1..])
  }

  /** No prompt step can write the seat inline any more. */
  predicate InlineDone(s: State, k: SeatKey)
    requires k in s.seats
  {
    s.seats[k].inline.Finished? || s.seats[k].createdAt + GRACE <= s.clock
  }

  /** A canceller holding (k, e): the booking is cancelled, and no other event can be recorded on k. */
  predicate Settled(s: State, k: SeatKey, e: Event) {
    && k in s.seats && k.0 in s.cancelled && InlineDone(s, k) && e in s.used
    && (s.seats[k].recorded == None || s.seats[k].recorded == Some(e))
    && (s.sweeper.Creating? ==> k !in s.sweeper.missing && (s.sweeper.made.Some? ==> s.sweeper.made.value.key != k))
  }

  /** Deleted, or given up. */
  predicate Gone(s: State, e: Event) {
    e !in s.live || e in s.unreachable
  }

  /** Until inline creation is done, nothing is recorded on the seat. */
  ghost predicate InlineFirst(s: State) {
    forall k :: k in s.seats && !InlineDone(s, k) ==> s.seats[k].recorded == None
  }

  ghost predicate TasksSettled(s: State) {
    forall t :: t in s.tasks ==> Settled(s, t.key, t.event) && (t.deleted ==> t.event !in s.live)
  }

  ghost predicate SweeperSettled(s: State) {
    match s.sweeper
    case Idle => true
    case Cancelling(todo, answered) =>
      && (forall i :: i in todo ==> Settled(s, i.key, i.event))
      && (answered.Some? ==> Settled(s, answered.value.key, answered.value.event) && Gone(s, answered.value.event))
    case Creating(missing, made) =>
      && (forall k :: k in missing ==> k in s.seats && s.seats[k].recorded == None && InlineDone(s, k))
      && (made.Some? ==>
            var k := made.value.key;
            k in s.seats && k !in missing && s.seats[k].recorded == None && InlineDone(s, k))
  }

  ghost predicate Inv(s: State) {
    Sound(s) && EventsAccounted(s) && InlineFirst(s) && TasksSettled(s) && SweeperSettled(s)
  }

  /** Under the invariant a prompt step overwrites nothing. */
  lemma PromptSpares(s: State, step: Step)
    requires Inv(s) && Enabled(s, step) && Prompt(s, step)
    ensures Spares(s, step)
  {
    hide Sound, EventsAccounted;
  }

  lemma StepKeepsInline(s: State, step: Step)
    requires Inv(s) && Enabled(s, step) && Prompt(s, step)
    ensures InlineFirst(Apply(s, step))
  {
    hide EventsAccounted, Sound;
  }

  lemma StepKeepsTasks(s: State, step: Step)
    requires Inv(s) && Enabled(s, step) && Prompt(s, step)
    ensures TasksSettled(Apply(s, step))
  {
    var s' := Apply(s, step);
    hide EventsAccounted;
    forall t | t in s'.tasks ensures Settled(s', t.key, t.event) && (t.deleted ==> t.event !in s'.live) {
      assert t in s.tasks ==> Settled(s, t.key, t.event);
      assert t.key in s.seats && SeatSound(s, t.key);
    }
  }

  lemma StepKeepsCancelling(s: State, step: Step)
    requires Sound(s) && InlineFirst(s) && SweeperSettled(s) && Enabled(s, step) && Prompt(s, step)
    requires Apply(s, step).sweeper.Cancelling?
    ensures SweeperSettled(Apply(s, step))
  {
    var s' := Apply(s, step);
    forall i | i in s'.sweeper.todo ensures Settled(s', i.key, i.event) {
      assert s.sweeper.Cancelling? ==> i in s.sweeper.todo && Settled(s, i.key, i.event);
      assert i.key in s.seats && SeatSound(s, i.key);
    }
  }

  lemma StepKeepsCreating(s: State, step: Step)
    requires InlineFirst(s) && TasksSettled(s) && SweeperSettled(s) && Enabled(s, step) && Prompt(s, step)
    requires Apply(s, step).sweeper.Creating?
    ensures SweeperSettled(Apply(s, step))
  {
    var s' := Apply(s, step);
    forall k | k in s'.sweeper.missing ensures k in s'.seats && s'.seats[k].recorded == None && InlineDone(s', k) {
      assert s.sweeper.Creating? ==> k in s.sweeper.missing;
    }
  }

  lemma StepKeepsSweeper(s: State, step: Step)
    requires Inv(s) && Enabled(s, step) && Prompt(s, step)
    ensures SweeperSettled(Apply(s, step))
  {
    if Apply(s, step).sweeper.Cancelling? {
      StepKeepsCancelling(s, step);
    } else if Apply(s, step).sweeper.Creating? {
      StepKeepsCreating(s, step);
    }
  }

  lemma StepKeepsInv(s: State, step: Step)
    requires Inv(s) && Enabled(s, step) && Prompt(s, step)
    ensures Inv(Apply(s, step))
  {
    PromptSpares(s, step);
    SparesAccounts(s, step);
    StepKeepsSound(s, step);
    StepKeepsInline(s, step);
    StepKeepsTasks(s, step);
    StepKeepsSweeper(s, step);
  }

  lemma {:induction false} PromptRunKeepsInv(s: State, steps: seq<Step>, s': State)
    requires Inv(s) && Runs(s, steps, s') && PromptRun(s, steps)
    ensures Inv(s')
    decreases |steps|
  {
    if steps != [] {
      hide Inv, Apply;
      StepKeepsInv(s, steps[0]);
      PromptRunKeepsInv(Apply(s, steps[0]), steps[1..], s');
    }
  }

  /**
   From the start, as long as every inline creation is accepted and recorded before the last second of
   the grace period, every event a provider holds is accounted for.
   */
  lemma NoEventIsOrphaned(steps: seq<Step>, s: State)
    requires Runs(INITIAL, steps, s) && PromptRun(INITIAL, steps)
    ensures forall e :: e in s.live ==> Accounted(s, e)
  {
    PromptRunKeepsInv(INITIAL, steps, s);
  }

  // ---------- inline creation once the grace period ends ----------

  const PAID: SeatKey := ("booking", "host")

  /**
   A booking paid for in the second in which the grace ends: the sweeper fills the seat, then inline
   creation does.
   */
  const LATE_PAYMENT: seq<Step> := [
    Book({PAID}), Tick(300), SweepStarts, SweepTurnsToCreate({PAID}), SweepAccepted(PAID, "first"), SweepRecords,
    InlineAccepted(PAID, "second"), InlineRecords(PAID)]

  /** The tables along that run: what the seat records, where inline creation is, what the provider holds. */
  function Late(
      clock: nat, recorded: Option<Event>, inline: Inline, live: map<Event, SeatKey>, sweeper: Sweeper): State
  {
    State(clock, map[PAID := Seat(0, recorded, inline)], {}, live, live.Keys, {}, {}, sweeper)
  }

  const ONE: map<Event, SeatKey> := map["first" := PAID]
  const BOTH: map<Event, SeatKey> := map["first" := PAID, "second" := PAID]

  const STATES: seq<State> := [
    INITIAL, Late(0, None, Waiting, map[], Idle), Late(300, None, Waiting, map[], Idle),
    Late(300, None, Waiting, map[], Cancelling({}, None)), Late(300, None, Waiting, map[], Creating({PAID}, None)),
    Late(300, None, Waiting, ONE, Creating({}, Some(Item(PAID, "first")))),
    Late(300, Some("first"), Waiting, ONE, Creating({}, None)),
    Late(300, Some("first"), Accepted("second"), BOTH, Creating({}, None)),
    Late(300, Some("second"), Finished, BOTH, Creating({}, None))]

  ghost predicate Leads(s: State, step: Step, s': State) {
    Enabled(s, step) && Apply(s, step) == s'
  }

  lemma Booked()
    ensures Leads(STATES[0], LATE_PAYMENT[0], STATES[1]) && Leads(STATES[1], LATE_PAYMENT[1], STATES[2])
  {
  }

  lemma Swept()
    ensures Leads(STATES[2], LATE_PAYMENT[2], STATES[3]) && Leads(STATES[3], LATE_PAYMENT[3], STATES[4])
  {
    assert Orphans(STATES[2]) == {};
  }

  lemma SweeperFillsSeat()
    ensures Leads(STATES[4], LATE_PAYMENT[4], STATES[5]) && Leads(STATES[5], LATE_PAYMENT[5], STATES[6])
  {
    var live: map<Event, SeatKey> := map[];
    assert live["first" := PAID] == ONE && live.Keys + {"first"} == ONE.Keys;
    assert {PAID} - {PAID} == {};
  }

  lemma InlineOverwritesSeat()
    ensures Leads(STATES[6], LATE_PAYMENT[6], STATES[7]) && Leads(STATES[7], LATE_PAYMENT[7], STATES[8])
    ensures "first" in STATES[8].live && !Accounted(STATES[8], "first")
  {
    assert "first"[0] != "second"[0];
    assert ONE["second" := PAID] == BOTH;
  }

  /** The late inline event replaces the sweeper's on the seat, which nobody holds on to any more. */
  lemma LatePaymentOrphans()
    ensures exists s :: Runs(INITIAL, LATE_PAYMENT, s) && "first" in s.live && !Accounted(s, "first")
  {
    Booked();
    Swept();
    SweeperFillsSeat();
    InlineOverwritesSeat();
    assert |STATES| == 9 && |LATE_PAYMENT| == 8 && STATES[0] == INITIAL && LATE_PAYMENT[0..] == LATE_PAYMENT;
    hide *;
    Chain(STATES, LATE_PAYMENT, 0);
  }

  lemma {:induction false} Chain(at: seq<State>, steps: seq<Step>, i: nat)
    requires |at| == |steps| + 1 && i <= |steps|
    requires forall j :: 0 <= j < |steps| ==> Leads(at[j], steps[j], at[j + 1])
    ensures Runs(at[i], steps[i..], at[|steps|])
    decreases |steps| - i
  {
    hide Apply, Enabled;
    if i < |steps| {
      assert Leads(at[i], steps[i], at[i + 1]);
      Chain(at, steps, i + 1);
      assert steps[i..][1..] == steps[i + 1..];
    }
  }

  // ---------- the cancellation pass ----------

  /** The cancellation pass still has every reachable event of the booking ahead of it. */
  ghost predicate PassAhead(s: State, b: string) {
    && s.sweeper.Cancelling? && b in s.cancelled && NothingPending(s, b)
    && forall e :: e in s.live && s.live[e].0 == b ==> e in s.unreachable || Item(s.live[e], e) in s.sweeper.todo
  }

  /** No inline event of the booking waits to be recorded. */
  ghost predicate NothingPending(s: State, b: string) {
    forall k :: k in s.seats && k.0 == b ==> !s.seats[k].inline.Accepted?
  }

  lemma PassBegins(s: State, b: string)
    requires EventsAccounted(s) && s.sweeper.Idle? && b in s.cancelled && NothingPending(s, b)
    ensures PassAhead(Apply(s, SweepStarts), b)
  {
    forall e | e in s.live && s.live[e].0 == b ensures e in s.unreachable || Item(s.live[e], e) in Orphans(s) {
      assert Accounted(s, e);
    }
  }

  /** The provider accepts an inline event for the booking. */
  predicate AcceptsFor(step: Step, b: string) {
    step.InlineAccepted? && step.k.0 == b
  }

  /** Steps of one cancellation pass without a failed delete, whatever else goes on beside it. */
  predicate WithinPass(step: Step) {
    !(step.SweepCancels? && step.a == Failed) && !step.SweepTurnsToCreate?
  }

  lemma PassGoesOn(s: State, step: Step, b: string)
    requires PassAhead(s, b) && Enabled(s, step) && WithinPass(step) && !AcceptsFor(step, b)
    ensures PassAhead(Apply(s, step), b)
  {
    var s' := Apply(s, step);
    assert NothingPending(s', b);
    forall e | e in s'.live && s'.live[e].0 == b ensures e in s'.unreachable || Item(s'.live[e], e) in s'.sweeper.todo {
      assert e in s.live && s.live[e] == s'.live[e];
    }
  }

  lemma {:induction false} PassRuns(s: State, steps: seq<Step>, s': State, b: string)
    requires PassAhead(s, b) && Runs(s, steps, s')
    requires forall step :: step in steps ==> WithinPass(step) && !AcceptsFor(step, b)
    ensures PassAhead(s', b)
    decreases |steps|
  {
    if steps != [] {
      hide Apply, PassAhead, WithinPass;
      PassGoesOn(s, steps[0], b);
      PassRuns(Apply(s, steps[0]), steps[1..], s', b);
    }
  }

  /**
   A cancellation pass that starts after a booking was cancelled, with every event accounted for and
   no inline event of the booking pending or accepted during it, and in which no delete fails, leaves
   no event of the booking at a provider except those given up as unreachable, however other steps
   interleave with it.
   */
  lemma SweepAfterCancelLeavesNothing(s: State, steps: seq<Step>, s': State, snapshot: set<SeatKey>, b: string)
    requires EventsAccounted(s) && s.sweeper.Idle? && b in s.cancelled && NothingPending(s, b)
    requires Runs(Apply(s, SweepStarts), steps, s') && Enabled(s', SweepTurnsToCreate(snapshot))
    requires forall step :: step in steps ==> WithinPass(step) && !AcceptsFor(step, b)
    ensures forall e :: e in s'.live && s'.live[e].0 == b ==> e in s'.unreachable
  {
    PassBegins(s, b);
    PassRuns(Apply(s, SweepStarts), steps, s', b);
  }

  /** Every seat of the booking is past its inline creation: finished, or out of time for a prompt run. */
  ghost predicate InlineOver(s: State, b: string) {
    forall k :: k in s.seats && k.0 == b ==> InlineDone(s, k)
  }

  /** Once that is so, a prompt run accepts no further inline event for a cancelled booking. */
  lemma {:induction false} GraceEndsInline(s: State, steps: seq<Step>, s': State, b: string)
    requires Runs(s, steps, s') && PromptRun(s, steps) && b in s.cancelled && InlineOver(s, b)
    ensures forall step :: step in steps ==> !AcceptsFor(step, b)
    decreases |steps|
  {
    if steps != [] {
      StaysOver(s, steps[0], b);
      hide Apply, InlineOver, Enabled, Prompt;
      GraceEndsInline(Apply(s, steps[0]), steps[1..], s', b);
    }
  }

  lemma StaysOver(s: State, step: Step, b: string)
    requires b in s.cancelled && InlineOver(s, b) && Enabled(s, step) && Prompt(s, step)
    ensures InlineOver(Apply(s, step), b) && b in Apply(s, step).cancelled && !AcceptsFor(step, b)
  {
  }

  ghost predicate InlineFinished(s: State, b: string) {
    forall k :: k in s.seats && k.0 == b ==> s.seats[k].inline.Finished?
  }

  /** Nor does any run at all, once inline creation has finished on every seat. */
  lemma {:induction false} FinishedAcceptsNoMore(s: State, steps: seq<Step>, s': State, b: string)
    requires Runs(s, steps, s') && b in s.cancelled && InlineFinished(s, b)
    ensures forall step :: step in steps ==> !AcceptsFor(step, b)
    decreases |steps|
  {
    if steps != [] {
      StaysFinished(s, steps[0], b);
      hide Apply, InlineFinished, Enabled;
      FinishedAcceptsNoMore(Apply(s, steps[0]), steps[1..], s', b);
    }
  }

  lemma StaysFinished(s: State, step: Step, b: string)
    requires b in s.cancelled && InlineFinished(s, b) && Enabled(s, step)
    ensures InlineFinished(Apply(s, step), b) && b in Apply(s, step).cancelled && !AcceptsFor(step, b)
  {
  }
}
