# Calnode: a verified model of its scheduling engine

Calnode books meetings, keeps hosts from being booked twice, writes the bookings to external
calendars and heals what gets lost on the way. This project models the state behind that in Dafny
and proves what the code promises about it.

| file | models |
|---|---|
| `Options.dfy`, `Seats.dfy` | optional values; the key of a seat |
| `Timestamps.dfy`, `StoredTimes.dfy` | instants, their RFC 3339 text, the text order SQL compares by; reading the text back |
| `Bookings.dfy` | the booking tables and the transactions on them, as functions; what no run can break |
| `BookingGuards.dfy` | what each transaction refuses, exactly; unique starts; users who share calendars both ways; cancelling |
| `SharedCalendars.dfy` | the shared-calendar check: what it ensures over runs, and when the order of bookings decides |
| `BookingLimits.dfy` | the hourly throttle, the active cap and even rotation, over runs |
| `HostLoads.dfy` | how each operation changes the loads, and whom a rotation picks |
| `BookingStore.dfy` | the transactions in place, on a class with the tables as fields |
| `ContentLines.dfy` | iCalendar content lines: folding, unfolding, escaping, numbers |
| `CalendarObjects.dfy` | the iCalendar printer, reader and in-place time editor |
| `CalendarDurations.dfy`, `CalendarRoundTrip.dfy`, `CalendarEdits.dfy` | reading back durations, whole objects and edited objects |
| `CalendarReader.dfy` | what the reader makes of any object: blocks, times, parameters, busy times |
| `ForeignEdits.dfy` | moving the events of any object |
| `EventOwner.dfy` | CalDAV URLs and the search for the account that holds an event |
| `Routing.dfy` | connections, saved calendars and the single write target |
| `RoutingFrames.dfy` | what each operation on them leaves alone |
| `WriteTargets.dfy` | which write targets the overlap guard can see |
| `Reconcile.dfy` | the three passes of the calendar reconciler |
| `Projection.dfy` | inline calendar calls interleaved with a sweep, step by step |
| `Idempotency.dfy` | the Idempotency-Key table and concurrent requests with one key |
| `HostPipeline.dfy` | from an event type's hosts to the people on a booking |

Two conventions run through all files. A transaction or a single SQL statement is one atomic step,
because the database pool holds one connection (`internal/db/db.go:31-38`). What the code changes in
place is a class whose methods are proved equal to a function of the old state, and the properties
are proved of that function. Strings are octets, one `char` each. A booking's seats are a map keyed
by (booking, user), which is the table's unique constraint; so the users of one booking are distinct
by construction.

Everything the outside decides (availability lookups, calendar verdicts, provider answers, new ids,
clock readings, the time zone database) is a parameter.

## Where the code falls short of its own words

Each of these is proved with a concrete input, and beside it the condition under which the code is right.

- Stored times are compared as text. The comment at `internal/booking/list.go:77-84` says this can
  misplace a boundary by less than a second because booking times have no fraction; nothing rejects
  a fraction on a new booking, and then the overlap guard accepts two meeting bookings
  (`Bookings.FractionsDefeatTheGuard`; exactly when: `Bookings.NoRealDoubleBooking`). The hourly
  throttle compares clock readings, which do have fractions, in the same way
  (`BookingLimits.FractionsDefeatTheThrottle`; exactly when: `BookingLimits.FullHourExact`, and over
  runs `BookingLimits.FullHourHolds`).
- The sweeper's grace of five minutes is meant to leave new bookings to inline creation. Its cutoff is
  printed without a fraction, so a row created on a fraction is selected up to a second early
  (`Projection.SelectedEarly`; exactly when: `Projection.GraceOnTheClock`). And it takes no notice of
  payment: a paid booking is inserted as confirmed but gets its calendar events when the payment
  arrives, up to half an hour later, so the sweeper creates an event of its own, which the late inline
  one replaces on the seat (`Projection.LatePaymentOrphans`; exactly which steps lose an event:
  `Projection.StepAccountsIff`; none in a run that is prompt: `Projection.NoEventIsOrphaned`).
- The shared-calendar part of the guard looks from the new booking's host to those already booked
  only, so its verdict depends on the order of the bookings (`SharedCalendars.SharedCheckIsOneWay`;
  exactly when it does: `SharedCalendars.OrderMattersExactly`; what it always ensures:
  `SharedCalendars.EveryRunLooksBack`).
- The same guard reads calendars flagged as destination, while bookings are also written to a calendar
  that is merely bound to the account, as after a first connect. Those it does not see
  (`WriteTargets.BoundTargetsAreUnseen`; the condition is `WriteTargets.GuardSeesPicksOnly`).
- With Google, picking a calendar and taking the pick back is not undone if a token was refreshed in
  between: the refresh has stored the pick as the account's own calendar (`Routing.GoogleKeepsWriting`;
  the condition is `Routing.RefreshRemembersPick`).
- `internal/calendar/calselect.go:80-81` says at most one calendar is the destination, enforced by
  clearing others first; a selection naming two destinations still stores both
  (`Routing.TwoClaimsDisagree`; the condition is `Routing.SelectionAgreesIff`).
- An event ending at 0001-01-01T00:00:00Z reads back without its end (`CalendarRoundTrip.ZeroEndIsLost`;
  the condition is `CalendarRoundTrip.RoundTripExact`).
- Moving an event rewrites its time lines one physical line at a time and drops DURATION, "DTEND is now
  authoritative" (`internal/caldav/events.go:382-384`), without writing a DTEND. So an event a server
  states by its duration loses its length (`ForeignEdits.DurationIsLost`; exactly when:
  `ForeignEdits.MoveArrives`), and one whose start is folded loses its start
  (`ForeignEdits.FoldedStartIsLost`; the condition is that of `ForeignEdits.EditedEvents`).
- The organizer's name is printed as an unquoted parameter, so a colon in it swallows the address
  (`CalendarReader.OrganizerReadsIff`, which is the condition).
- A collection URL with a query or fragment swallows the name of an event joined to it
  (`EventOwner.JoinBehindQuery`; the condition is `EventOwner.JoinStaysInside`).
- A slot accepted by the time validation can still be refused when a lookup fails on a later rotation
  host (`HostPipeline.LateLookupRefuses`; the condition is `HostPipeline.FilterAfterValidate`).

## Model

| member | source | states |
|---|---|---|
| Timestamps.TextOrderIsChronological | internal/booking/service.go:40-41 | `<` on two stored RFC 3339 strings is the order of the instants exactly when the two are not confusable (same second, one printed fraction a proper prefix of the other) |
| Timestamps.WholeSecondsCompareExactly | internal/booking/list.go:77-87 | on whole seconds of years 0 to 9999 the string order is the order of the instants, both ways |
| Timestamps.HalfSecondSortsBackwards | internal/booking/list.go:79-84 | the concrete pair that sorts backwards: half a second past 09:30:00 is stored as text below 09:30:00 |
| Timestamps.MissedExactly | internal/booking/service.go:40-41 | which way round the text order is wrong: the missed pairs are exactly those with an earlier instant not seen as earlier, and their mirror images those with a later one seen as earlier |
| Timestamps.ListSplitsAtTheSecond | internal/booking/list.go:77-87 | the past/upcoming split against now cut to the second, exactly, and that a booking on the wrong side ends within one second of now |
| Timestamps.SecondsFollowFields | internal/booking/service.go:40-41 | the calendar fields of two instants order as their seconds since year zero do, leap years included; equal seconds mean equal fields |
| BookingLimits.RenderInjective | internal/booking/service.go:40-53 | a stored timestamp determines its instant to the nanosecond |
| StoredTimes.StoredReads | internal/booking/service.go:719-730 | a stored timestamp parses back to the very instant it was written for, fraction included |
| Timestamps.DaysOfYears | internal/booking/service.go:40-53 | the days before a year are 365 a year and one for every leap year of the Gregorian rule |
| Bookings.EveryRunIsSafe | internal/booking/service.go:35-232 | after any sequence of all booking operations, with calendar rows replaced arbitrarily in between, no user sits on two overlapping confirmed bookings, seats belong to bookings, and a seated booking has exactly one primary seat, its host's |
| Bookings.ApplyIsSafe | internal/booking/service.go:480-634 | every single operation keeps those three invariants |
| Bookings.CreateIsSafe | internal/booking/service.go:35-232 | a Create, accepted or refused, keeps them |
| Bookings.RescheduleIsSafe | internal/booking/service.go:480-548 | so does a Reschedule, for every attendee and not just the host |
| Bookings.ReassignIsSafe | internal/booking/service.go:555-634 | so does a ReassignHost |
| Bookings.ReassignSeats | internal/booking/service.go:596-624 | an effective reassignment trades the old host's seat for a blank primary seat of the new one and touches no other seat |
| Bookings.CreateSeats | internal/booking/service.go:51-186 | an accepted Create adds one booking under a fresh id whose seats are exactly the selected hosts and the free optional ones, one primary, all of them free; nothing else changes |
| Bookings.SelectedAreFree | internal/booking/service.go:55-102 | whoever is selected is free; the attendees are the required hosts with one rotation host, or the whole pool |
| Bookings.JoinedAreKnown | internal/booking/service.go:104-116 | an optional host joins exactly when free and not already attending, after those already selected |
| Bookings.ClearMeansFree | internal/booking/service.go:312-336 | the overlap query, with a booking excluded or without, finds nothing for some users exactly when no confirmed booking but the excluded one overlaps and seats one of them or somebody counted against one |
| Bookings.SameEmailExact | internal/booking/service.go:121-145 | two emails are one invitee's exactly when they differ in nothing but the case of ASCII letters |
| Bookings.OverlapTestExact | internal/booking/service.go:319-336 | the SQL overlap test on text decides the half-open overlap of the instants exactly under a condition on the two text comparisons, for intervals of any length |
| Bookings.SpanningOverlapExact | internal/booking/service.go:319-336 | for intervals that span two seconds: exactly when no start and end of the two are confusable as text |
| Bookings.PassedGuardMeets | internal/booking/service.go:319-336 | two such intervals the guard lets through meet in real time if and only if the text misses that one starts before the other ends (same second, the end's fraction extending the start's) |
| Bookings.NoRealDoubleBooking | internal/booking/service.go:312-336 | in real time after every run: two confirmed bookings of one user meet only if the text misses a start before an end, and, if both span at least two seconds, if and only if it does; on whole seconds never |
| Bookings.FractionsDefeatTheGuard | internal/booking/service.go:35-41 | with a first start half a second past the slot, two Creates are both accepted although the bookings meet for half a second |
| Bookings.OneHostAccepted | internal/booking/service.go:91-232 | a single host whom no confirmed booking stands in the way of, within the limits, is accepted, with exactly that booking and the seats of that host and the free optional ones added |
| Bookings.CancelledIsFinal | internal/booking/service.go:246-301 | once cancelled, a booking's status, times, reason, host and attendees never change in any run, and no later cancel succeeds |
| Bookings.ApplyFreezesCancelled | internal/booking/service.go:494-496 | no single operation changes the record of a cancelled booking |
| Bookings.ApplyCancels | internal/booking/service.go:246-301 | one step turns a booking cancelled exactly when it is one of the cancel paths reporting success on it |
| Bookings.ExactlyOneCancelWins | internal/booking/service.go:638-665 | over any interleaving, the token path's read and update being separate steps, the number of cancels that succeed is one if the booking ends cancelled and zero otherwise |
| Bookings.AnAttemptWins | internal/booking/service.go:278-301 | if an administrator or a token holder tries to cancel a standing booking at any point of a run, exactly one cancel of the run succeeds |
| BookingGuards.EveryRunKeepsStarts | internal/db/migrations/00001_initial_schema.sql:120-130 | the partial unique index holds after every run: a host never has two confirmed bookings with one start |
| BookingGuards.ApplyKeepsStarts | internal/booking/service.go:160-172 | and after every single operation |
| BookingGuards.EveryRunKeepsShared | internal/booking/service.go:319-336 | while calendar rows stay, no run lets two overlapping confirmed bookings seat users who check each other's flagged destination |
| BookingGuards.ApplyKeepsShared | internal/booking/service.go:319-336 | and no single operation does |
| SharedCalendars.EveryRunLooksBack | internal/booking/service.go:319-336 | while calendar rows stay: after every run, of two overlapping confirmed bookings the user seated later (by creation, reschedule or reassignment) does not check a calendar flagged as the earlier one's destination |
| SharedCalendars.ApplyLooksBack | internal/booking/service.go:319-336 | and after every single operation |
| SharedCalendars.SecondBookingExact | internal/booking/service.go:319-336 | of two hosts' overlapping bookings the first is accepted, and the second exactly when its host does not check a calendar flagged as the first one's destination |
| SharedCalendars.OrderMattersExactly | internal/booking/service.go:323-331 | the verdict on the second booking is independent of the order if and only if the two hosts check each other's flagged calendars both ways or neither way |
| SharedCalendars.SharedCheckIsOneWay | internal/booking/service.go:323-331 | the concrete pair accepted in one order and refused in the other |
| WriteTargets.CountsThroughPicks | internal/booking/service.go:323-331 | one user counts against another exactly through a calendar the other has picked as destination and the first checks |
| WriteTargets.GuardSeesPicksOnly | internal/connstore/connstore.go:75-106 | when a user checks the very calendar another's bookings are written to, the guard counts the other if and only if that calendar is a pick, not merely bound to the account |
| WriteTargets.BoundTargetsAreUnseen | internal/booking/service.go:323-331 | two hosts of one account, one checking the calendar the other writes to, booked for the same hour in either order |
| BookingGuards.RescheduleExact | internal/booking/service.go:480-548 | a reschedule of a confirmed booking succeeds if and only if no other confirmed booking stands in the way of anybody holding a seat (the host where nobody does) at the new time and starts stay unique; a refusal is a double booking and changes nothing |
| BookingGuards.RescheduleKeepsGuards | internal/booking/service.go:480-548 | with calendars checked both ways, that is if and only if moving a seated booking keeps both guards |
| BookingGuards.ReassignExact | internal/booking/service.go:555-634 | what becomes of every reassignment of a confirmed booking, each refusal with its error: already the host, not clear, already attending, start taken, or handed over |
| BookingGuards.ReassignKeepsGuards | internal/booking/service.go:555-634 | with calendars checked both ways, a reassignment to somebody new succeeds if and only if handing the booking over keeps both guards |
| BookingGuards.CreateExact | internal/booking/service.go:35-186 | what becomes of every Create with a fresh id, each refusal with its error and in its order, and that it is accepted otherwise; hosts are refused for confirmed overlapping bookings alone, an invitee for as many bookings of their own as the limit |
| BookingGuards.CreateWrites | internal/booking/service.go:51-186 | every column of the row an accepted Create writes (times, email, reading of the clock), a clear host of the pool in front, one blank seat for each who attends, and nothing else |
| BookingGuards.LimitsExact | internal/booking/service.go:118-152 | the cap and the throttle are reached exactly when that many bookings with the same email exist: for the cap confirmed ones of the event type not ended, for the throttle any made after the threshold |
| BookingGuards.FreedSlotIsBookable | internal/booking/service.go:246-336 | after a successful cancel the next Create for one host goes through exactly when nothing confirmed but the cancelled booking stood in its way or held its start, and the invitee is within the limits |
| BookingGuards.SlotComesBack | internal/booking/service.go:246-336 | in tables that keep the guards, calendars checked both ways, the very slot a cancellation freed is accepted again |
| BookingGuards.SelectionExact | internal/booking/service.go:55-102 | a selection exists exactly when no confirmed booking stands in the way of a mandatory host and, in round-robin, of somebody in the pool; who attends; who leads outside round-robin; and that "priority" takes the first clear host |
| BookingGuards.CancelsExactly | internal/booking/service.go:242-301 | which of the three cancel paths succeed, in terms of the booking, its host and the token |
| BookingGuards.CancelEffect | internal/booking/service.go:237-301 | what a successful cancel writes and everything it leaves alone |
| BookingStore.Store.Create | internal/booking/service.go:35-232 | the transaction in place: new tables and outcome are the specified ones |
| BookingStore.Store.Reschedule | internal/booking/service.go:480-548 | the same for Reschedule |
| BookingStore.Store.ReassignHost | internal/booking/service.go:555-634 | the same for ReassignHost |
| BookingStore.Store.Cancel | internal/booking/service.go:246-273 | the same for the host's cancel, existence query included |
| BookingStore.Store.CancelByID | internal/booking/service.go:278-301 | the same for the admin cancel |
| BookingStore.Store.CancelByToken | internal/booking/service.go:638-665 | the same for the token cancel |
| BookingStore.Store.SelectHosts | internal/booking/service.go:55-102 | the selection loops compute the specified selection |
| BookingStore.Store.AllFree | internal/booking/service.go:60-69 | asking host by host finds out whether anybody is busy |
| BookingStore.Store.FreeOf | internal/booking/service.go:70-80 | the loop keeps exactly the free rotation hosts, in order |
| BookingStore.Store.AddOptional | internal/booking/service.go:104-116 | the loop over optional hosts |
| BookingStore.Store.PickRotationHost | internal/booking/service.go:425-430 | first free host, or least loaded |
| BookingStore.Store.LeastLoadedHost | internal/booking/service.go:435-474 | one pass over the counts finds the earliest minimum (whose load is that of confirmed bookings: HostLoads, BookingLimits.LeastLoadedIsEarliestMinimum) |
| BookingStore.Store.InsertSeats | internal/booking/service.go:174-186 | inserting seats one by one succeeds exactly when users are distinct and new to the booking, and then adds exactly those rows |
| BookingLimits.HourlyLimitHolds | internal/booking/service.go:138-152 | with a clock that never goes back and is read once a call, no window of an hour less a second, and no full hour of bookings created on whole seconds, holds more than the limit for an email, cancelled bookings included |
| BookingLimits.FullHourHolds | internal/booking/service.go:138-152 | no full hour (T-1h, T] holds more than the limit for an email, cancelled bookings included, in any run in which no booking of that email slips through a Create: made within the hour before its first reading, but not after the threshold of its second, or with a fraction in the threshold's second that hides it |
| BookingLimits.EveryRunKeepsFullHour | internal/booking/service.go:138-152 | the same from any tables within the limit |
| BookingLimits.SlipsExactly | internal/booking/service.go:138-152 | slipping through is being made within the hour and not counted; when the two readings coincide, only by a fraction |
| BookingLimits.FullHourExact | internal/booking/service.go:138-152 | an accepted Create overfills the hour ending at its first reading if and only if the bookings of that hour that were counted and those that slipped through together had reached the limit |
| BookingLimits.FullHourAtTheEdge | internal/booking/service.go:138-152 | with one booking to go and only bookings of the hour counted, the hour overflows if and only if some booking of that email made in it slips through |
| BookingLimits.EveryRunIsThrottled | internal/booking/service.go:138-152 | the stronger invariant over every run and every window behind it |
| BookingLimits.CreateKeepsThrottle | internal/booking/service.go:138-152 | one accepted Create overfills no window, past or future |
| BookingLimits.ThrottleCountsExactly | internal/booking/service.go:138-152 | the throttle query counts a booking exactly when it was made within the hour, unless threshold and creation time are confusable |
| BookingLimits.FractionsDefeatTheThrottle | internal/booking/service.go:138-152 | a limit of one an hour lets two bookings through when the first reading has a fraction |
| BookingLimits.ActiveCapHolds | internal/booking/service.go:118-136 | right after an accepted Create the invitee is within the cap for that event type |
| BookingLimits.ActiveCapOnTheClock | internal/booking/service.go:118-136 | the bookings still running that the cap's query does not count are exactly those whose end extends the fraction of now in its second; with none the real count is within the cap |
| BookingLimits.LeastLoadedIsEarliestMinimum | internal/booking/service.go:432-474 | the pick attends the fewest confirmed, not ended bookings of the event type, and everybody before it in the pool attends more |
| BookingLimits.RotationAddsToMinimum | internal/booking/service.go:70-89 | an accepted rotation adds its booking to the earliest least-loaded host and to nobody else |
| BookingLimits.CallKeepsBalance | internal/booking/service.go:70-89 | one Create keeps the pool's loads within one of each other |
| BookingLimits.BystanderLeaves | internal/booking/service.go:421-474 | an operation on another event type touches no booking of this one |
| BookingLimits.RotationIsFair | internal/booking/service.go:421-474 | so does any run in which every Create for the event type rotates over the free pool and nothing of it expires, whatever is done to other event types in between |
| HostLoads.RotationPicksLeastLoaded | internal/booking/service.go:70-102 | an accepted even rotation is led by the earliest member of the pool, among those nothing confirmed stands in the way of, with the fewest confirmed, not ended bookings of the event type; part of the pool may be busy |
| HostLoads.CancelUnloads | internal/booking/service.go:435-474 | a successful cancel takes exactly one from the load of each attendee while the booking is upcoming, and nothing from anybody else |
| HostLoads.CreateLoads | internal/booking/service.go:435-474 | an accepted Create adds exactly one to the load of everybody it seats, for its event type and while upcoming |
| HostLoads.RescheduleLoads | internal/booking/service.go:480-548 | a reschedule counts the booking at its new end in place of the old one, for its attendees alone |
| HostLoads.ReassignLoads | internal/booking/service.go:555-634 | a handover moves the load of an upcoming booking from the old host to the new one |
| ContentLines.FoldLine | internal/caldav/events.go:438-458 | the folding loop produces the specified pieces |
| ContentLines.Unfold | internal/caldav/ics.go:74-90 | the unfolding loop, appending to the last line in place, produces the specified logical lines |
| ContentLines.FoldUnfoldInverse | internal/caldav/events.go:438-458 | any list of content lines (not empty, no CR or LF, no leading blank) comes back from folding and unfolding, and no physical line exceeds 75 octets (section 3.1 of RFC 5545) |
| ContentLines.PiecesFit | internal/caldav/events.go:438-458 | a folded line has at most 75 octets a piece, all but the first starting with a blank |
| ContentLines.EscapeDecodes | internal/caldav/events.go:425-436 | decoding the escaped text (section 3.3.11 of RFC 5545) gives the text back, its line breaks turned into LF |
| ContentLines.EscapedIsPlain | internal/caldav/events.go:425-436 | escaped text holds no line break, whatever the user typed |
| ContentLines.Atoi | internal/caldav/ics.go:196-205 | the digit loop in 64-bit wrap-around arithmetic |
| ContentLines.DecimalReadsWrapped | internal/caldav/ics.go:196-205 | any printed number reads back modulo 2^64 |
| ContentLines.DecimalReadsBack | internal/caldav/ics.go:196-205 | one below 2^63 as itself |
| CalendarObjects.BuildICS | internal/caldav/events.go:330-362 | the printer writes the specified object line by line |
| CalendarObjects.ParseVEvents | internal/caldav/ics.go:19-72 | the reader's loop over cur, startDate and out computes the specified events (what they are of any object: CalendarReader) |
| CalendarObjects.SplitContentLine | internal/caldav/ics.go:94-109 | the parameter loop computes the specified name, parameters and value |
| CalendarObjects.ParseICSDuration | internal/caldav/ics.go:144-194 | the duration loop computes the specified duration |
| CalendarObjects.RewriteEventTimes | internal/caldav/events.go:364-400 | the editor's loop computes the specified object |
| CalendarObjects.EditOneLine | internal/caldav/events.go:370-398 | the cases of the editor for one line |
| CalendarDurations.DurationReadsWrapped | internal/caldav/ics.go:143-194 | every duration spelled from week, day, hour, minute and second counts reads as their sum, negated behind a minus, in 64-bit wrapping nanoseconds (section 3.3.6 of RFC 5545) |
| CalendarDurations.DurationReadsBack | internal/caldav/ics.go:143-194 | and as the sum itself if it fits |
| CalendarRoundTrip.UtcReadsBack | internal/caldav/ics.go:113-141 | a printed UTC time reads back to the second |
| CalendarRoundTrip.PrintParse | internal/caldav/events.go:330-362 | parsing a printed object gives exactly one event, opaque and not cancelled, with the printed whole-second times, for arbitrary texts of any length |
| CalendarRoundTrip.RoundTripExact | internal/caldav/ics.go:26-45 | the times come back unchanged if and only if it is not the end alone that is Go's zero time; otherwise the end becomes the start |
| CalendarRoundTrip.ZeroEndIsLost | internal/caldav/ics.go:30-40 | the concrete year-one event that loses its end |
| CalendarRoundTrip.TextSurvives | internal/caldav/events.go:340-352 | summary, description and location reach the logical lines and decode to the given text |
| CalendarRoundTrip.LinesAreContent | internal/caldav/events.go:330-362 | every printed line is one content line, so no user text can start another |
| CalendarReader.EventsAreBlocks | internal/caldav/ics.go:19-72 | of any object: the events are, in order, one for each BEGIN:VEVENT with the END:VEVENT next to it, whatever lines are in between and around |
| CalendarReader.ReadExact | internal/caldav/ics.go:26-69 | of any block: transparent if and only if the last TRANSP says TRANSPARENT, cancelled if and only if the last STATUS says CANCELLED, starting at the last DTSTART that parses, ending where the last DTEND or DURATION puts it, else a day after a date, else at its start |
| CalendarReader.TimesRead | internal/caldav/ics.go:111-141 | eight digits are midnight UTC of a date, a date-time in Z is UTC, any other is wall-clock time of the zone named by TZID and UTC without one; VALUE=DATE takes dates alone |
| CalendarReader.ZonedStart | internal/caldav/ics.go:111-141 | a DTSTART with a TZID, quoted or not, starts at the instant of that zone |
| CalendarReader.ParametersRead | internal/caldav/ics.go:92-109 | any line with parameters, quoted or not, splits into its name, its value, and under each parameter name in either case the value last given |
| CalendarReader.BusyTimesExact | internal/caldav/freebusy.go:57-83 | an interval is busy exactly when some block of some response is an opaque event, not cancelled, with a start and of some length, that takes it |
| CalendarReader.FreeBusyForConn | internal/caldav/freebusy.go:57-83 | the loops over responses and events compute those intervals |
| CalendarReader.UidReads | internal/caldav/events.go:330-340 | the one UID line of a printed object is made of the entry's id |
| CalendarReader.UidsDiffer | internal/caldav/events.go:330-340 | two printed objects carry the same UID exactly when they are of the same booking |
| CalendarReader.OrganizerReadsIff | internal/caldav/events.go:350-356 | the organizer's address reads back if and only if the organizer's name holds no colon |
| ContentLines.EqualFoldExact | internal/caldav/ics.go:30-67 | names and words compare equal exactly when they differ in nothing but the case of ASCII letters |
| ContentLines.TrimSpaceExact | internal/caldav/ics.go:64-67 | trimming takes the blanks at both ends and nothing else |
| CalendarEdits.OneEdit | internal/caldav/events.go:364-400 | editing a printed object is printing the moved entry, byte for byte, with the next sequence number |
| CalendarEdits.EditingIsPrinting | internal/caldav/events.go:364-400 | and so for any number of edits |
| CalendarEdits.EditHistory | internal/caldav/events.go:418-423 | after k edits of a fresh object: one event with the last start and end, SEQUENCE:k, the summary intact |
| CalendarEdits.OtherLinesUntouched | internal/caldav/events.go:364-400 | position by position, every physical line but DTSTAMP, DTSTART, DTEND and SEQUENCE is unchanged through any history, folded continuations included |
| ForeignEdits.RewrittenUnfolds | internal/caldav/events.go:364-400 | of any object whose continued lines are not the editor's and are named before the fold: unfolding the edited object is editing the unfolded one |
| ForeignEdits.EditedEvents | internal/caldav/events.go:364-400 | such an object has the same events after an edit, in order, each moved |
| ForeignEdits.MoveArrives | internal/caldav/events.go:364-400 | a moved event stays transparent or cancelled as it was, starts at the new time if and only if it has a DTSTART line, and then ends at the new end if it has a DTEND line and at its start otherwise |
| ForeignEdits.DurationIsLost | internal/caldav/events.go:378-384 | an event of one hour given by DURATION has no length after any move |
| ForeignEdits.FoldedStartIsLost | internal/caldav/events.go:378-384 | an event whose DTSTART is folded has no start after any move |
| EventOwner.PickEventOwner | internal/caldav/events.go:207-243 | the one-pass scan returns an account exactly when it owns the event (best by exact match, then depth), and each error exactly in its case |
| EventOwner.Examine | internal/caldav/events.go:216-228 | the inner loop computes whether, how exactly and how deep an account holds the event |
| EventOwner.OwnsByPaths | internal/caldav/events.go:198-243 | ownership in collections and paths alone: an account owns an event if and only if it lists a collection of the same scheme, host and port above it at a segment boundary, and comes before every other such account, by listing the recorded collection first and a deeper one otherwise |
| EventOwner.UrlReads | internal/caldav/events.go:253-263 | an http or https URL reads as its scheme and host in lower case, its own port or the scheme's, and its path; user information is dropped |
| EventOwner.OrderIndependent | internal/caldav/events.go:198-206 | no outcome depends on the order of the accounts: not the owner, not that nobody holds the event, not a tie |
| EventOwner.TieSharesCollection | internal/caldav/events.go:203-206 | accounts with equal scores list one and the same most specific collection |
| EventOwner.EqualDepthSameCollection | internal/caldav/events.go:269-277 | two equally deep collections containing one event are the same |
| EventOwner.JoinExtendsPath | internal/caldav/events.go:323-326 | the joined URL is the collection's with one path segment more |
| EventOwner.JoinBehindQuery | internal/caldav/events.go:323-326 | behind a query or fragment the joined name is lost |
| EventOwner.JoinStaysInside | internal/caldav/events.go:269-277 | the URL of a new event lies inside its collection exactly when the collection URL has no query or fragment, or its path ends in two slashes |
| EventOwner.RoutingIsStable | internal/caldav/events.go:132-196 | an event made from a collection is owned by that collection's account whatever other accounts and deeper collections there are, as long as no other account lists it |
| Routing.ApplyAgrees | internal/calendar/calendar.go:204-353 | every operation keeps one destination account per connected user and at most one picked calendar, inside it |
| Routing.EveryRunAgrees | internal/calendar/calendar.go:204-353 | and so every run from tables that agree |
| Routing.SelectionAgreesIff | internal/calendar/calselect.go:82-149 | a saved selection keeps the invariant if and only if it names at most one destination |
| Routing.TwoClaimsDisagree | internal/calendar/calselect.go:80-81 | the concrete selection that breaks it |
| Routing.SelectionEffect | internal/calendar/calselect.go:97-148 | who is the destination and what is picked after a saved selection |
| Routing.SaveAgrees | internal/connstore/connstore.go:50-73 | a refresh or connect keeps the invariant |
| Routing.SetDestinationAgrees | internal/calendar/calendar.go:260-296 | the chosen account alone is the destination; picks elsewhere are dropped |
| Routing.DisconnectOneAgrees | internal/calendar/calendar.go:306-353 | an oldest remaining account inherits a vacated destination |
| Routing.SeedKeepsFlags | internal/caldav/discovery.go:135-157 | rediscovery refreshes names, checks only the bound collection among new rows, and resets nothing |
| RoutingFrames.SaveKeepsFlags | internal/connstore/connstore.go:37-73 | saving a known account keeps both its flags, a first save checks it and makes it the destination if nobody is, and no other row changes |
| RoutingFrames.SetDestinationWrites | internal/calendar/calendar.go:260-296 | choosing a destination writes destination flags and nothing else, in either table |
| RoutingFrames.SelectionWrites | internal/calendar/calselect.go:82-149 | a selection replaces the saved calendars of its account by exactly the selected ones; of all else it writes destination flags alone, and those only if it claims the destination |
| RoutingFrames.DisconnectWrites | internal/calendar/calendar.go:306-353 | a disconnection removes the account's rows and touches no other, but for the heir's destination flag |
| RoutingFrames.ChecksStay | internal/connstore/connstore.go:37-45 | an account keeps its conflict flag through any run until it is disconnected, and its bound calendar until it is saved |
| RoutingFrames.SavedChecksStay | internal/calendar/calselect.go:82-149 | a saved calendar keeps its conflict flag through any run without a selection for its account or its disconnection |
| Routing.OneWriteTarget | internal/connstore/connstore.go:75-106 | while the tables agree, a connected user has exactly one write target |
| Routing.PickStaysIff | internal/calendar/calselect.go:97-148 | one operation keeps a picked calendar exactly when it is none of the five named moves |
| Routing.TargetIsStable | internal/caldav/caldav.go:152-184 | a pick stays the write target through any run without such a move |
| Routing.RefreshRemembersPick | internal/gcal/gcal.go:187-214 | taking a pick back restores the account's bound calendar as the target; after a token refresh meanwhile it does so if and only if the account is not Google's or the bound calendar was the pick |
| Routing.GoogleKeepsWriting | internal/gcal/gcal.go:171-176 | a concrete Google account that keeps writing to the pick taken back |
| Routing.ListingStaysIff | internal/caldav/caldav.go:236-268 | one operation leaves a collection listed by its account exactly when it is none of the named ones (a save with another calendar, a selection without it, a disconnection) |
| Routing.RunListsIff | internal/caldav/caldav.go:236-268 | and so through a run |
| Routing.WrittenEventsFindTheirAccount | internal/caldav/events.go:132-196 | an event written to the target, picked or bound, is owned by the same account after any run without such a step, as long as no other account then lists the collection |
| Routing.ListedEventsFindTheirAccount | internal/caldav/events.go:132-196 | in any tables, an event of a collection one account alone lists is routed to that account |
| Routing.PicksKeepTheirEvents | internal/caldav/events.go:132-196 | for a pick that is not moved the listing need not be assumed |
| Routing.Store.SaveConnection | internal/caldav/caldav.go:236-268 | delete and re-insert of the account row, flags kept |
| Routing.Store.SeedDiscoveredCalendars | internal/caldav/discovery.go:142-157 | the upsert loop |
| Routing.Store.SetDestinationAccount | internal/calendar/calendar.go:260-296 | clearing and setting the flags |
| Routing.Store.SetCalendars | internal/calendar/calselect.go:82-149 | the loops over the selection, refused when an id repeats |
| Routing.Store.DisconnectAccount | internal/calendar/calendar.go:306-353 | removal and inheritance |
| Routing.Store.DisconnectAll | internal/calendar/calendar.go:204-217 | removal of everything |
| Routing.Store.OldestOf | internal/calendar/calendar.go:342-350 | the heir is an oldest connection |
| Reconcile.Reconciler.ReconcileCancellations | internal/handler/calendar_reconcile.go:133-177 | the rows after the pass and the calls made, each exactly once, with the recorded calendar, event and provider |
| Reconcile.Reconciler.ReconcileCreations | internal/handler/calendar_reconcile.go:182-281 | the same for missing events |
| Reconcile.Reconciler.ReconcileReschedules | internal/handler/calendar_reconcile.go:68-128 | the same for drifted events, unparseable times included |
| Reconcile.Reconciler.ReconcileCalendar | internal/handler/calendar_reconcile.go:51-66 | one sweep is the three passes in order, and its calls are theirs |
| Reconcile.Reconciler.Collect | internal/handler/calendar_reconcile.go:140-155 | the snapshot lists each due row once |
| Reconcile.SweepIsRowwise | internal/handler/calendar_reconcile.go:51-66 | a sweep treats rows independently |
| Reconcile.SweepConverges | internal/handler/calendar_reconcile.go:51-66 | one sweep without failures reaches a fixed point (of rows all settled: SweepSettles): a second at the same clock changes no row and calls no provider |
| Reconcile.SweepSettles | internal/handler/calendar_reconcile.go:51-281 | after a sweep without failures no cancelled booking keeps an event, and every confirmed one that has not ended has the event it can have, with no drift flag; a missing event gets the columns of the one created, and nothing else changes |
| Reconcile.SweepAndARow | internal/handler/calendar_reconcile.go:51-281 | under any failures a settled row stays and nothing is called for it; any other is healed, given up, or stays unsettled, and is called for again by every later sweep at that clock |
| Reconcile.CallsAboutARow | internal/handler/calendar_reconcile.go:51-281 | exactly what a sweep asks the providers about a row, with the calendar, event, provider and times on it |
| Reconcile.SweepsSettle | internal/handler/calendar_reconcile.go:51-66 | over any series of sweeps no row becomes unsettled, and one sweep without failures in it leaves none |
| Reconcile.FateOfARow | internal/handler/calendar_reconcile.go:68-281 | under any failures a row that does not show what the calendars should hold is healed, given up or still so, each exactly for its own reason, with the columns it then has |
| Reconcile.OneSweepMarksNoMore | internal/handler/calendar_reconcile.go:68-281 | no row becomes marked by a sweep |
| Reconcile.MarkedNeverGrows | internal/handler/calendar_reconcile.go:51-66 | the number of marked rows never grows over any series of sweeps |
| Reconcile.LeftAlone | internal/handler/calendar_reconcile.go:182-205 | bookings whose end is not after now as text, and those without an event whose creation is not before the cutoff as text, are neither changed nor called for |
| Projection.StepAccountsIff | internal/handler/booking_handler.go:1262-1281 | a step keeps every event accounted for if and only if it does not overwrite or clear a seat's event column while the event there is at the provider and not given up |
| Projection.RunAccountsIff | internal/handler/calendar_reconcile.go:182-281 | a run accounts for every event throughout if and only if none of its steps does that |
| Projection.LatePaymentOrphans | internal/handler/stripe_booking.go:89-134 | a booking paid for once the grace period ends: the sweeper records an event, inline creation replaces it, and nobody owns the first |
| Projection.GraceOnTheClock | internal/handler/calendar_reconcile.go:187-203 | the creation query on the clock: it selects a row from the second on in which the grace ends, in that second exactly those created on a fraction |
| Projection.SelectedEarly | internal/handler/calendar_reconcile.go:187-203 | a row selected three tenths of a second before its five minutes are over |
| Projection.StepKeepsInv | internal/handler/booking_handler.go:1239-1316 | every interleaved step keeps the accounting invariant, inline events being accepted and recorded before the second in which the grace ends |
| Projection.PromptRunKeepsInv | internal/handler/booking_handler.go:1863-1884 | and so every run |
| Projection.NoEventIsOrphaned | internal/handler/calendar_reconcile.go:182-281 | in every state reached by a run whose inline events are accepted and recorded before the second in which the grace ends, every event a provider holds is recorded on its seat, about to be, or given up as unreachable |
| Projection.SweepAfterCancelLeavesNothing | internal/handler/calendar_reconcile.go:133-177 | a cancellation pass without failed deletes leaves no event of a cancelled booking but the unreachable, however other steps interleave with it, if no inline event of the booking is pending or accepted meanwhile |
| Projection.PassGoesOn | internal/handler/calendar_reconcile.go:133-177 | no interleaved step takes an event out of the pass's reach |
| Projection.GraceEndsInline | internal/handler/calendar_reconcile.go:182-205 | from that second on such a run accepts no further inline event of a cancelled booking |
| Projection.FinishedAcceptsNoMore | internal/handler/booking_handler.go:1239-1316 | nor does any run once inline creation has finished |
| Idempotency.KeyTable.Insert | internal/handler/idempotency.go:34-45 | the insert of a claim succeeds exactly on an unseen key, which is then pending |
| Idempotency.KeyTable.ReadBack | internal/handler/idempotency.go:47-57 | the read-back returns the row as it is by then, or nothing |
| Idempotency.KeyTable.FinishKey | internal/handler/idempotency.go:61-66 | the response is stored on an existing row only |
| Idempotency.KeyTable.ReleaseKey | internal/handler/idempotency.go:71-76 | the key, and only it, is freed |
| Idempotency.StepAtItsKey | internal/handler/idempotency.go:34-76 | a step of a request on the whole table is the protocol's step at its key |
| Idempotency.NoStepElsewhere | internal/handler/idempotency.go:34-76 | and no step at any other key |
| Idempotency.RunAtKey | internal/handler/idempotency.go:34-76 | so the server, seen from one key, runs the protocol of that key |
| Idempotency.OneBookingForEveryKey | internal/handler/booking_handler.go:792-828 | over requests with any keys in any interleaving: for every key one owner, at most one standing booking, identical stored replies |
| Idempotency.FinishedRowStays | internal/handler/booking_handler.go:993-1048 | a finished row stays whatever all other requests do |
| Idempotency.OneBookingPerKey | internal/handler/booking_handler.go:792-828 | in every interleaving of requests with one key: one owner at a time, at most one standing booking, and all stored replies identical |
| Idempotency.FinishedIsForever | internal/handler/booking_handler.go:993-1048 | after a finish the row never changes; every later retry gets the stored status and body, or a refusal for another body |
| Idempotency.RetryWhileRunning | internal/handler/booking_handler.go:800-828 | while a request owns the key, another one finds the row and is told that it is still being processed; the row stays |
| Idempotency.ReleasedKeyIsFree | internal/handler/idempotency.go:34-76 | after a release nothing stands and nobody owns the key; the next insert owns it under its own hash, a late read-back is rejected |
| Idempotency.StepKeepsInv | internal/handler/idempotency.go:34-76 | each step keeps the invariants behind both |
| HostPipeline.ResolveBookingHostPool | internal/handler/booking_handler.go:271-292 | the role loop computes the three pools, in order, per routing mode |
| HostPipeline.RolePoolInOrder | internal/handler/booking_handler.go:271-292 | a pool lists the hosts with its role, each place once, in the order of the event type |
| HostPipeline.UnitsOnTheClock | internal/handler/booking_handler.go:316-330 | the units of notice and horizon are minutes and days of the clock |
| HostPipeline.ValidateBookingTime | internal/handler/booking_handler.go:316-361 | the time is accepted exactly when it is within notice and horizon, everybody mandatory is within hours, and the scan of the rotation pool meets an available host before a failing lookup; a failing lookup is the reason exactly when the checks come to one |
| HostPipeline.FilterAvailableHosts | internal/handler/booking_handler.go:432-447 | the pool is narrowed to the hosts within hours, or refused |
| HostPipeline.FilterAfterValidate | internal/handler/booking_handler.go:316-447 | after an accepted time: a non-empty order-preserving sublist (the whole pool outside round-robin), exactly when the pool is not empty and no lookup in it fails |
| HostPipeline.LateLookupRefuses | internal/handler/booking_handler.go:350-447 | a slot the validation accepts and the filter refuses, because a lookup fails past the first available host |
| HostPipeline.CalendarFreeHosts | internal/handler/booking_calendar_check.go:32-114 | accepted exactly when the mandatory hosts are free and somebody can lead; then exactly the free candidates and guests remain; an unreadable calendar is the reason exactly when it is the first obstacle among those who must attend or, in round-robin, no candidate is free and one is unreadable |
| HostPipeline.OthersNeverBlock | internal/handler/booking_calendar_check.go:25-31 | in round-robin, errors on other candidates or on optional hosts never block a slot with all required hosts and one candidate free |
| HostPipeline.PipelineIsSound | internal/booking/service.go:51-116 | with calendars configured, everybody on the resulting booking had a free calendar, and everybody but optional guests was within hours |

## Left out

- Bookings: a booking is confirmed or cancelled; one row holds it and the email of its organizer attendee; answers, location, payment and invite columns, foreign key failures and unparseable stored rows are not modelled.
- BookingLimits.EveryRunIsThrottled: takes the two clock readings of one call (`service.go:51`, `service.go:146`) as one; the full-hour results do not.
- Bookings.CancelByID: the update and the clearing of drift flags, two statements in the code, are one step here; a failure between them is not modelled.
- Bookings: cancellations by the background worker and by an expired checkout are not separate operations (the latter leaves the drift flags); deleting users or bookings is not modelled.
- Bookings: manage tokens are looked up by their hash; hashing, issuing and rotating them is not modelled beyond a row appearing.
- BookingLimits.HourlyLimitHolds: states the hour less one second, and whole-second creations, with no condition on the run; the full hour is stated by FullHourHolds with its condition, being false without.
- BookingGuards.EveryRunKeepsShared: covers users who check each other; those who check one way are covered by SharedCalendars.EveryRunLooksBack. Both assume the calendar rows stay as they are during the run; a row added later can make two old bookings conflict.
- BookingGuards.CreateExact: assumes a new id, as the generator of random ids provides.
- Timestamps: years outside 0 to 9999, which RFC 3339 cannot print, and times outside UTC are not modelled.
- ContentLines: upper-casing, case-insensitive comparison and trimming are those of ASCII; letters and blanks outside it (the long s, the Kelvin sign, the dotless i, NEL, NBSP) are treated as ordinary octets.
- CalendarObjects.ParseVEvents: the time zone database is a function of the zone name and the local reading; instants are unbounded.
- CalendarEdits.EditHistory: covers objects the printer wrote; those of others are covered by ForeignEdits.EditedEvents, event by event.
- ForeignEdits.EditedEvents: assumes that lines the editor acts on are not folded and that folded ones are named before the fold; otherwise the result is what the editor computes, of which one input is shown.
- EventOwner: host names in brackets, percent-escapes and control characters in URLs are not modelled; everything else of the URL parts the code reads is.
- Routing: one user's tables; account emails are not NULL and an account has one row. Provider-level Disconnect methods, credentials and token encryption are not modelled. For Microsoft the bound calendar stands for the account's default one, which a write without a pick goes to.
- Routing.WrittenEventsFindTheirAccount: that no other account lists the collection is asked of the tables at the end, not derived from the run; the list of accounts is any list that matches the tables.
- WriteTargets.GuardSeesPicksOnly: assumes picked calendars have an id, as every provider's have.
- Reconcile.Reconciler.ReconcileCreations: the meeting link and location written back beside a created event are not modelled.
- Reconcile: rows do not change while a pass runs over them; interleaving is the subject of Projection.
- Projection: database writes succeed, one sweep runs at a time, and reassignment is excluded; its handler's calendar calls and overlapping reschedules are not modelled.
- Projection.SweepAfterCancelLeavesNothing: events a provider declares unreachable remain at the provider, as the code intends.
- Idempotency: database writes and JSON encoding succeed and no key expires during the run; the expiry purge and a crash between the booking and the stored response are not modelled.
- HostPipeline: hours and calendar verdicts are functions of the host; buffers, windows and the concurrent collection of verdicts, whose results do not depend on their order, are not modelled.
- Which provider handles an event (`calendar.go:425-440`): a lookup with no state of its own. Free/busy times are modelled from the CalDAV responses on; the requests, and other providers' own free/busy calls, are not.
- HTTP handling, e-mail, webhooks, payments, video meetings, encryption, sessions and the user interface.
