/**
 The calendar reconciler: three passes over the seat rows that heal what inline calendar calls
 left behind, under provider calls that may each succeed, fail or be refused as unreachable.
 */
module Reconcile {
  import opened Seats
  import opened Timestamps

  /** A booking_hosts row joined with its booking. */
  datatype Row = Row(
    cancelled: bool, start: string, end: string, createdAt: string,
    eventId: string, calendarId: string, provider: string, needsSync: bool)

  /** The readings of one sweep: now, and now less the grace period. */
  datatype Clock = Clock(now: string, cutoff: string)

  datatype Outcome = Done | Failed | Unreachable

  datatype Creation = Created(eventId: string, calendarId: string, provider: string) | CreateFailed

  datatype Lookup = Yes | No | LookupFailed

  /** What the outside answers during one sweep. */
  datatype World = World(
    parses: string -> bool,
    destination: string -> Lookup,
    create: SeatKey -> Creation,
    update: SeatKey -> Outcome,
    cancel: SeatKey -> Outcome)

  datatype Call =
    | CancelCall(key: SeatKey, calendarId: string, eventId: string, provider: string)
    | CreateCall(key: SeatKey, start: string, end: string)
    | UpdateCall(key: SeatKey, calendarId: string, eventId: string, provider: string, start: string, end: string)

  type Rows = map<SeatKey, Row>

  // ---------- the three queries ----------

  predicate CancelDue(r: Row) {
    r.cancelled && r.eventId != ""
  }

  predicate CreateDue(r: Row, c: Clock) {
    !r.cancelled && TextLess(c.now, r.end) && TextLess(r.createdAt, c.cutoff) && r.eventId == ""
  }

  predicate SyncDue(r: Row, c: Clock) {
    r.needsSync && !r.cancelled && r.eventId != "" && TextLess(c.now, r.end)
  }

  // ---------- what each pass does to a row, and whether it calls the provider ----------

  predicate Creates(r: Row, k: SeatKey, w: World, c: Clock) {
    CreateDue(r, c) && w.destination(k.1) == Yes && w.parses(r.start) && w.parses(r.end)
  }

  predicate Updates(r: Row, w: World, c: Clock) {
    SyncDue(r, c) && w.parses(r.start) && w.parses(r.end)
  }

  function AfterCancel(r: Row, k: SeatKey, w: World): Row {
    if CancelDue(r) && w.cancel(k) != Failed then r.(eventId := "") else r
  }

  function AfterCreate(r: Row, k: SeatKey, w: World, c: Clock): Row {
    if Creates(r, k, w, c) && w.create(k).Created? && w.create(k).eventId != "" then
      r.(eventId := w.create(k).eventId, calendarId := w.create(k).calendarId, provider := w.create(k).provider)
    else r
  }

  function AfterSync(r: Row, k: SeatKey, w: World, c: Clock): Row {
    if SyncDue(r, c) && (!Updates(r, w, c) || w.update(k) != Failed) then r.(needsSync := false) else r
  }

  function CancelPass(rows: Rows, w: World): Rows {
    map k | k in rows.Keys :: AfterCancel(rows[k], k, w)
  }

  function CreatePass(rows: Rows, w: World, c: Clock): Rows {
    map k | k in rows.Keys :: AfterCreate(rows[k], k, w, c)
  }

  function SyncPass(rows: Rows, w: World, c: Clock): Rows {
    map k | k in rows.Keys :: AfterSync(rows[k], k, w, c)
  }

  function Sweep(rows: Rows, w: World, c: Clock): Rows {
    SyncPass(CreatePass(CancelPass(rows, w), w, c), w, c)
  }

  /** Provider calls of one pass. */
  function CancelCalls(rows: Rows): set<Call> {
    set k | k in rows.Keys && CancelDue(rows[k]) :: CancelCall(k, rows[k].calendarId, rows[k].eventId, rows[k].provider)
  }

  function CreateCalls(rows: Rows, w: World, c: Clock): set<Call> {
    set k | k in rows.Keys && Creates(rows[k], k, w, c) :: CreateCall(k, rows[k].start, rows[k].end)
  }

  function UpdateCalls(rows: Rows, w: World, c: Clock): set<Call> {
    set k | k in rows.Keys && Updates(rows[k], w, c) ::
      UpdateCall(k, rows[k].calendarId, rows[k].eventId, rows[k].provider, rows[k].start, rows[k].end)
  }

  // ---------- the sweeper ----------

  /** items lists each key of due once. */
  ghost predicate Lists(items: seq<SeatKey>, due: set<SeatKey>) {
    && (forall k :: k in items <==> k in due)
    && forall i, j :: 0 <= i < j < |items| ==> items[i] != items[j]
  }

  /** after extends before by exactly these calls, each made once. */
  ghost predicate CallsMade(before: seq<Call>, after: seq<Call>, made: set<Call>) {
    && before <= after
    && (forall c :: c in after[|before|..] <==> c in made)
    && forall j, l :: |before| <= j < l < |after| ==> after[j] != after[l]
  }

  lemma OneMoreCall(before: seq<Call>, after: seq<Call>, made: set<Call>, c: Call)
    requires CallsMade(before, after, made) && c !in made
    ensures CallsMade(before, after + [c], made + {c})
  {
    var longer := after + [c];
    assert longer[|before|..] == after[|before|..] + [c];
    forall j | |before| <= j < |after| ensures longer[j] != c {
      assert after[j] == after[|before|..][j - |before|];
    }
  }

  lemma CreateCases(r: Row, k: SeatKey, w: World, c: Clock)
    requires CreateDue(r, c)
    ensures Creates(r, k, w, c) <==> w.destination(k.1) == Yes && w.parses(r.start) && w.parses(r.end)
    ensures AfterCreate(r, k, w, c) ==
            if Creates(r, k, w, c) && w.create(k).Created? && w.create(k).eventId != "" then
              r.(eventId := w.create(k).eventId, calendarId := w.create(k).calendarId, provider := w.create(k).provider)
            else r
  {
    hide TextLess;
  }

  lemma SyncCases(r: Row, k: SeatKey, w: World, c: Clock)
    requires SyncDue(r, c)
    ensures Updates(r, w, c) <==> w.parses(r.start) && w.parses(r.end)
    ensures AfterSync(r, k, w, c) == if Updates(r, w, c) && w.update(k) == Failed then r else r.(needsSync := false)
  {
    hide TextLess;
  }

  /** The rows of done have been replaced by what the step makes of them, the others not. */
  ghost predicate DoneOn(before: Rows, after: Rows, done: seq<SeatKey>, step: (Row, SeatKey) -> Row) {
    && after.Keys == before.Keys
    && forall k :: k in after ==> after[k] == if k in done then step(before[k], k) else before[k]
  }

  lemma NothingDone(rows: Rows)
    ensures forall step :: DoneOn(rows, rows, [], step)
  {
  }

  lemma OneMoreRow(before: Rows, after: Rows, items: seq<SeatKey>, i: nat, step: (Row, SeatKey) -> Row)
    requires i < |items| && items[i] in before && DoneOn(before, after, items[..i], step)
    requires forall j, l :: 0 <= j < l < |items| ==> items[j] != items[l]
    ensures var k := items[i];
            && k in after && after[k] == before[k]
            && DoneOn(before, after[k := step(before[k], k)], items[..i + 1], step)
            && (step(before[k], k) == before[k] ==> DoneOn(before, after, items[..i + 1], step))
  {
    assert items[..i + 1] == items[..i] + [items[i]];
    assert items[i] !in items[..i];
  }

  function CancelStep(w: World): (Row, SeatKey) -> Row {
    (r, k) => AfterCancel(r, k, w)
  }

  function CreateStep(w: World, c: Clock): (Row, SeatKey) -> Row {
    (r, k) => AfterCreate(r, k, w, c)
  }

  function SyncStep(w: World, c: Clock): (Row, SeatKey) -> Row {
    (r, k) => AfterSync(r, k, w, c)
  }

  /** What the loops leave behind is the pass over the whole table. */
  lemma CancelPassDone(before: Rows, after: Rows, items: seq<SeatKey>, made: set<Call>, w: World)
    requires Lists(items, set k | k in before.Keys && CancelDue(before[k]))
    requires DoneOn(before, after, items, CancelStep(w))
    requires forall c :: c in made <==> c.CancelCall? && c.key in items && c == CallFor(before, c.key)
    ensures after == CancelPass(before, w) && made == CancelCalls(before)
  {
    assert made == CancelCalls(before);
  }

  lemma CreatePassDone(before: Rows, after: Rows, items: seq<SeatKey>, made: set<Call>, w: World, c: Clock)
    requires Lists(items, set k | k in before.Keys && CreateDue(before[k], c))
    requires DoneOn(before, after, items, CreateStep(w, c))
    requires forall call :: call in made <==>
               call.CreateCall? && call.key in items && call.key in before &&
               Creates(before[call.key], call.key, w, c) && call == AskFor(before, call.key)
    ensures after == CreatePass(before, w, c) && made == CreateCalls(before, w, c)
  {
    hide TextLess, AfterCreate, Creates, CreateDue;
    forall k | k in before && k !in items
      ensures before[k] == AfterCreate(before[k], k, w, c) && !Creates(before[k], k, w, c)
    {
      NotDueNotCreated(before[k], k, w, c);
    }
    assert made == CreateCalls(before, w, c);
  }

  lemma SyncPassDone(before: Rows, after: Rows, items: seq<SeatKey>, made: set<Call>, w: World, c: Clock)
    requires Lists(items, set k | k in before.Keys && SyncDue(before[k], c))
    requires DoneOn(before, after, items, SyncStep(w, c))
    requires forall call :: call in made <==>
               call.UpdateCall? && call.key in items && call.key in before && Updates(before[call.key], w, c) &&
               call == MoveFor(before, call.key)
    ensures after == SyncPass(before, w, c) && made == UpdateCalls(before, w, c)
  {
    hide TextLess, SyncDue;
    assert forall k :: k in before && k !in items ==> AfterSync(before[k], k, w, c) == before[k];
    assert made == UpdateCalls(before, w, c);
  }

  lemma NotDueNotCreated(r: Row, k: SeatKey, w: World, c: Clock)
    requires !CreateDue(r, c)
    ensures !Creates(r, k, w, c) && AfterCreate(r, k, w, c) == r
  {
  }

  lemma NoCalls(log: seq<Call>)
    ensures CallsMade(log, log, {})
  {
  }

  class Reconciler {
    var rows: Rows
    var calls: seq<Call>

    /** Reads the due rows fully before anything acts on them, in whatever order the table yields. */
    static method Collect(due: set<SeatKey>) returns (items: seq<SeatKey>)
      ensures Lists(items, due)
    {
      items := [];
      var todo := due;
      while todo != {}
        invariant todo <= due
        invariant Lists(items, due - todo)
      {
        var k :| k in todo;
        items := items + [k];
        todo := todo - {k};
      }
    }

    method ReconcileCancellations(w: World)
      modifies this
      ensures rows == CancelPass(old(rows), w)
      ensures CallsMade(old(calls), calls, CancelCalls(old(rows)))
    {
      hide CallsMade, DoneOn;
      ghost var before, log, made := rows, calls, {};
      assert CallsMade(log, calls, made) by { NoCalls(log); }
      NothingDone(before);
      var items := Collect(set k | k in rows.Keys && CancelDue(rows[k]));
      assert forall k :: k in items ==> k in before && CancelDue(before[k]);
      for i := 0 to |items|
        invariant DoneOn(before, rows, items[..i], CancelStep(w))
        invariant CallsMade(log, calls, made)
        invariant forall c :: c in made <==> c.CancelCall? && c.key in items[..i] && c == CallFor(before, c.key)
      {
        var k := items[i];
        assert k in items && k !in items[..i] && items[..i + 1] == items[..i] + [k];
        OneMoreRow(before, rows, items, i, CancelStep(w));
        var o := rows[k];
        OneMoreCall(log, calls, made, CallFor(before, k));
        made := made + {CallFor(before, k)};
        calls := calls + [CancelCall(k, o.calendarId, o.eventId, o.provider)];
        if w.cancel(k) == Failed {
          continue;
        }
        rows := rows[k := rows[k].(eventId := "")];
      }
      assert items[..|items|] == items;
      CancelPassDone(before, rows, items, made, w);
    }

    method ReconcileCreations(w: World, c: Clock)
      modifies this
      ensures rows == CreatePass(old(rows), w, c)
      ensures CallsMade(old(calls), calls, CreateCalls(old(rows), w, c))
    {
      hide TextLess, CallsMade, AfterCreate, Creates, DoneOn;
      ghost var before, log, made := rows, calls, {};
      assert CallsMade(log, calls, made) by { NoCalls(log); }
      NothingDone(before);
      var items := Collect(set k | k in rows.Keys && CreateDue(rows[k], c));
      assert forall k :: k in items ==> k in before && CreateDue(before[k], c);
      for i := 0 to |items|
        invariant DoneOn(before, rows, items[..i], CreateStep(w, c))
        invariant CallsMade(log, calls, made)
        invariant forall call :: call in made <==>
                    call.CreateCall? && call.key in items[..i] && call.key in before &&
                        Creates(before[call.key], call.key, w, c) && call == AskFor(before, call.key)
      {
        var k := items[i];
        assert k in items && k !in items[..i] && items[..i + 1] == items[..i] + [k];
        OneMoreRow(before, rows, items, i, CreateStep(w, c));
        var m := rows[k];
        CreateCases(m, k, w, c);
        if w.destination(k.1) != Yes {
          continue;
        }
        if !w.parses(m.start) || !w.parses(m.end) {
          continue;
        }
        OneMoreCall(log, calls, made, AskFor(before, k));
        made := made + {AskFor(before, k)};
        calls := calls + [CreateCall(k, m.start, m.end)];
        var event := w.create(k);
        if event.CreateFailed? || event.eventId == "" {
          continue;
        }
        var healed := rows[k].(eventId := event.eventId, calendarId := event.calendarId, provider := event.provider);
        rows := rows[k := healed];
      }
      assert items[..|items|] == items;
      CreatePassDone(before, rows, items, made, w, c);
    }

    method ReconcileReschedules(w: World, c: Clock)
      modifies this
      ensures rows == SyncPass(old(rows), w, c)
      ensures CallsMade(old(calls), calls, UpdateCalls(old(rows), w, c))
    {
      hide TextLess, CallsMade, AfterSync, Updates, DoneOn;
      ghost var before, log, made := rows, calls, {};
      assert CallsMade(log, calls, made) by { NoCalls(log); }
      NothingDone(before);
      var items := Collect(set k | k in rows.Keys && SyncDue(rows[k], c));
      assert forall k :: k in items ==> k in before && SyncDue(before[k], c);
      for i := 0 to |items|
        invariant DoneOn(before, rows, items[..i], SyncStep(w, c))
        invariant CallsMade(log, calls, made)
        invariant forall call :: call in made <==>
                    call.UpdateCall? && call.key in items[..i] && call.key in before &&
                    Updates(before[call.key], w, c) && call == MoveFor(before, call.key)
      {
        var k := items[i];
        assert k in items && k !in items[..i] && items[..i + 1] == items[..i] + [k];
        OneMoreRow(before, rows, items, i, SyncStep(w, c));
        var d := rows[k];
        SyncCases(d, k, w, c);
        if !w.parses(d.start) || !w.parses(d.end) {
          rows := rows[k := rows[k].(needsSync := false)];
          continue;
        }
        OneMoreCall(log, calls, made, MoveFor(before, k));
        made := made + {MoveFor(before, k)};
        calls := calls + [UpdateCall(k, d.calendarId, d.eventId, d.provider, d.start, d.end)];
        if w.update(k) == Failed {
          continue;
        }
        rows := rows[k := rows[k].(needsSync := false)];
      }
      assert items[..|items|] == items;
      SyncPassDone(before, rows, items, made, w, c);
    }

    /** One sweep: the three passes in order. */
    method ReconcileCalendar(w: World, c: Clock)
      modifies this
      ensures rows == Sweep(old(rows), w, c)
      ensures CallsMade(old(calls), calls, SweepCalls(old(rows), w, c))
    {
      ghost var r0, log0 := rows, calls;
      ReconcileCancellations(w);
      ghost var r1, log1 := rows, calls;
      ReconcileCreations(w, c);
      ghost var r2, log2 := rows, calls;
      ReconcileReschedules(w, c);
      PassesAddUp(log0, log1, log2, CancelCalls(r0), CreateCalls(r1, w, c));
      PassesAddUp(log0, log2, calls, CancelCalls(r0) + CreateCalls(r1, w, c), UpdateCalls(r2, w, c));
    }
  }

  /** Calls of a whole sweep. */
  function SweepCalls(rows: Rows, w: World, c: Clock): set<Call> {
    var r1 := CancelPass(rows, w);
    CancelCalls(rows) + CreateCalls(r1, w, c) + UpdateCalls(CreatePass(r1, w, c), w, c)
  }

  function CallFor(rows: Rows, k: SeatKey): Call {
    if k in rows then CancelCall(k, rows[k].calendarId, rows[k].eventId, rows[k].provider)
    else CreateCall(k, "", "")
  }

  function AskFor(rows: Rows, k: SeatKey): Call {
    if k in rows then CreateCall(k, rows[k].start, rows[k].end) else CreateCall(k, "", "")
  }

  function MoveFor(rows: Rows, k: SeatKey): Call {
    if k in rows then
      UpdateCall(k, rows[k].calendarId, rows[k].eventId, rows[k].provider, rows[k].start, rows[k].end)
    else CreateCall(k, "", "")
  }

  lemma PassesAddUp(a: seq<Call>, b: seq<Call>, c: seq<Call>, made: set<Call>, more: set<Call>)
    requires CallsMade(a, b, made) && CallsMade(b, c, more) && made !! more
    ensures CallsMade(a, c, made + more)
  {
    var x, y := b[|a|..], c[|b|..];
    assert c[|a|..] == x + y;
    forall j, l | |a| <= j < l < |c| ensures c[j] != c[l] {
      if l < |b| {
        assert c[j] == b[j] && c[l] == b[l];
      } else if j < |b| {
        assert c[j] == b[j] == x[j - |a|] && c[l] == y[l - |b|];
        assert x[j - |a|] in made && y[l - |b|] in more;
      } else {
        assert |b| <= j;
      }
    }
  }

  // ---------- convergence ----------

  function SweptRow(r: Row, k: SeatKey, w: World, c: Clock): Row {
    AfterSync(AfterCreate(AfterCancel(r, k, w), k, w, c), k, w, c)
  }

  /** The loops treat the rows independently. */
  lemma SweepIsRowwise(rows: Rows, w: World, c: Clock)
    ensures Sweep(rows, w, c) == map k | k in rows.Keys :: SweptRow(rows[k], k, w, c)
  {
    hide AfterCancel, AfterCreate, AfterSync;
    var swept := map k | k in rows.Keys :: SweptRow(rows[k], k, w, c);
    forall k | k in rows ensures Sweep(rows, w, c)[k] == swept[k] {
      assert CancelPass(rows, w)[k] == AfterCancel(rows[k], k, w);
    }
  }

  /**
   A confirmed booking that has ended, and one made within the grace period that has no event yet,
   is left alone: its row does not change and no provider is called for it.
   */
  lemma LeftAlone(rows: Rows, k: SeatKey, w: World, c: Clock)
    requires k in rows && !rows[k].cancelled
    requires !TextLess(c.now, rows[k].end) || (rows[k].eventId == "" && !TextLess(rows[k].createdAt, c.cutoff))
    ensures Sweep(rows, w, c)[k] == rows[k]
    ensures forall call :: call in SweepCalls(rows, w, c) ==> call.key != k
  {
    hide TextLess;
    SweepIsRowwise(rows, w, c);
    var r1 := CancelPass(rows, w);
    var r2 := CreatePass(r1, w, c);
    assert r1[k] == rows[k] && r2[k] == rows[k];
    forall call | call in SweepCalls(rows, w, c) ensures call.key != k {
      if call in CancelCalls(rows) {
        CallsAreDue(rows, w, c, call);
      } else if call in CreateCalls(r1, w, c) {
        CallsAreDue(r1, w, c, call);
      } else {
        CallsAreDue(r2, w, c, call);
      }
    }
  }

  lemma CallsAreDue(rows: Rows, w: World, c: Clock, call: Call)
    ensures call in CancelCalls(rows) ==> call.key in rows && CancelDue(rows[call.key])
    ensures call in CreateCalls(rows, w, c) ==> call.key in rows && Creates(rows[call.key], call.key, w, c)
    ensures call in UpdateCalls(rows, w, c) ==> call.key in rows && Updates(rows[call.key], w, c)
  {
    hide TextLess, Creates, Updates, CancelDue;
  }

  /** No provider call and no lookup fails; every accepted creation returns an id. */
  ghost predicate FailureFree(w: World) {
    forall k :: w.cancel(k) != Failed && w.update(k) != Failed && w.create(k).Created? && w.create(k).eventId != ""
  }

  /** The same times parse and the same hosts have a destination. */
  ghost predicate SameSurroundings(w: World, v: World) {
    (forall t :: w.parses(t) == v.parses(t)) && (forall u :: w.destination(u) == v.destination(u))
  }

  lemma SweptRowIsQuiet(r: Row, k: SeatKey, w: World, v: World, c: Clock)
    requires FailureFree(w) && SameSurroundings(w, v)
    ensures var s := SweptRow(r, k, w, c);
            && !CancelDue(s) && AfterCancel(s, k, v) == s
            && !Creates(s, k, v, c) && AfterCreate(s, k, v, c) == s
            && !Updates(s, v, c)
  {
    hide TextLess;
    assert w.cancel(k) != Failed && w.update(k) != Failed;
  }

  lemma SweptRowIsFixed(r: Row, k: SeatKey, w: World, v: World, c: Clock)
    requires FailureFree(w) && SameSurroundings(w, v)
    ensures SweptRow(SweptRow(r, k, w, c), k, v, c) == SweptRow(r, k, w, c)
  {
    SweptRowIsQuiet(r, k, w, v, c);
    var s := SweptRow(r, k, w, c);
    assert s.needsSync ==> !SyncDue(s, c) by {
      hide TextLess;
      assert w.cancel(k) != Failed && w.update(k) != Failed;
    }
    hide AfterCancel, AfterCreate, SweptRow, TextLess;
    assert SweptRow(s, k, v, c) == AfterSync(s, k, v, c) == s by { SweptBy(s, k, v, c); }
  }

  lemma SweptBy(r: Row, k: SeatKey, w: World, c: Clock)
    ensures SweptRow(r, k, w, c) == AfterSync(AfterCreate(AfterCancel(r, k, w), k, w, c), k, w, c)
  {
  }

  /**
   One sweep without failures reaches a fixed point: a second one at the same clock changes no row and
   calls no provider.
   */
  lemma SweepConverges(rows: Rows, w: World, v: World, c: Clock)
    requires FailureFree(w) && SameSurroundings(w, v)
    ensures SweepCalls(Sweep(rows, w, c), v, c) == {}
    ensures Sweep(Sweep(rows, w, c), v, c) == Sweep(rows, w, c)
  {
    SweepCallsNobody(rows, w, v, c);
    SweepIsRowwise(rows, w, c);
    SweepIsRowwise(Sweep(rows, w, c), v, c);
    hide Sweep, SweptRow;
    forall k | k in rows ensures SweptRow(SweptRow(rows[k], k, w, c), k, v, c) == SweptRow(rows[k], k, w, c) {
      SweptRowIsFixed(rows[k], k, w, v, c);
    }
  }

  lemma SweepCallsNobody(rows: Rows, w: World, v: World, c: Clock)
    requires FailureFree(w) && SameSurroundings(w, v)
    ensures SweepCalls(Sweep(rows, w, c), v, c) == {}
  {
    SweepIsRowwise(rows, w, c);
    var swept := Sweep(rows, w, c);
    forall k | k in rows
      ensures !CancelDue(swept[k]) && AfterCancel(swept[k], k, v) == swept[k]
      ensures !Creates(swept[k], k, v, c) && AfterCreate(swept[k], k, v, c) == swept[k]
      ensures !Updates(swept[k], v, c)
    {
      SweptRowIsQuiet(rows[k], k, w, v, c);
    }
    hide Sweep, AfterCancel, AfterCreate, Creates, Updates, CancelDue;
    assert CancelPass(swept, v) == swept;
    assert CreatePass(swept, v, c) == swept;
  }

  // ---------- what the sweep is for ----------

  /** Time enough to write the event, a calendar to write it to, and times that can be sent. */
  predicate Creatable(r: Row, k: SeatKey, w: World, c: Clock) {
    TextLess(r.createdAt, c.cutoff) && w.destination(k.1) == Yes && w.parses(r.start) && w.parses(r.end)
  }

  /**
   The row shows what the calendars should hold: no event of a cancelled booking, and for a confirmed
   one that has not ended an event, where one can be created, at the time of the booking.
   */
  predicate Settled(r: Row, k: SeatKey, w: World, c: Clock) {
    if r.cancelled then r.eventId == ""
    else TextLess(c.now, r.end) ==> if r.eventId == "" then !Creatable(r, k, w, c) else !r.needsSync
  }

  /** The provider accepted the creation and named the event. */
  predicate Made(k: SeatKey, w: World) {
    w.create(k).Created? && w.create(k).eventId != ""
  }

  /** r with the columns of the event created for it. */
  function WithEvent(r: Row, k: SeatKey, w: World): Row
    requires Made(k, w)
  {
    r.(eventId := w.create(k).eventId, calendarId := w.create(k).calendarId, provider := w.create(k).provider)
  }

  /** What went wrong for a row the sweep does not settle. */
  predicate StillFails(r: Row, k: SeatKey, w: World) {
    if r.cancelled then w.cancel(k) == Failed
    else if r.eventId == "" then !Made(k, w) || (r.needsSync && w.update(k) == Failed)
    else w.parses(r.start) && w.parses(r.end) && w.update(k) == Failed
  }

  /** The row is given up: it settles although no provider confirmed its event. */
  predicate Quarantined(r: Row, k: SeatKey, w: World) {
    if r.cancelled then w.cancel(k) == Unreachable
    else if r.eventId == "" then Made(k, w) && r.needsSync && w.update(k) == Unreachable
    else !w.parses(r.start) || !w.parses(r.end) || w.update(k) == Unreachable
  }

  /** Every provider call the row needed succeeded. */
  predicate Healed(r: Row, k: SeatKey, w: World) {
    if r.cancelled then w.cancel(k) == Done
    else if r.eventId == "" then Made(k, w) && (r.needsSync ==> w.update(k) == Done)
    else w.parses(r.start) && w.parses(r.end) && w.update(k) == Done
  }

  /** A settled row is left as it is. */
  lemma SettledRowStays(r: Row, k: SeatKey, w: World, c: Clock)
    requires Settled(r, k, w, c)
    ensures SweptRow(r, k, w, c) == r && !CancelDue(r) && !Creates(r, k, w, c) && !Updates(r, w, c)
  {
    hide TextLess;
  }

  /**
   Under any pattern of failures a row that is not settled has exactly one of three fates, each for its
   own reason: it is healed, given up, or still not settled.
   */
  lemma FateOfARow(r: Row, k: SeatKey, w: World, c: Clock)
    requires !Settled(r, k, w, c)
    ensures var s := SweptRow(r, k, w, c);
            && (!Settled(s, k, w, c) <==> StillFails(r, k, w))
            && (Settled(s, k, w, c) <==> (Healed(r, k, w) != Quarantined(r, k, w)))
            && (Settled(s, k, w, c) && r.cancelled ==> s == r.(eventId := ""))
            && (Settled(s, k, w, c) && !r.cancelled && r.eventId != "" ==> s == r.(needsSync := false))
            && (Settled(s, k, w, c) && !r.cancelled && r.eventId == "" ==>
                  Made(k, w) && s == WithEvent(r, k, w).(needsSync := false))
  {
    hide TextLess;
  }

  /** A row still not settled is as before, but for an event created while its time was refused. */
  lemma FailedRow(r: Row, k: SeatKey, w: World, c: Clock)
    requires !Settled(r, k, w, c) && !Settled(SweptRow(r, k, w, c), k, w, c)
    ensures SweptRow(r, k, w, c) == if !r.cancelled && r.eventId == "" && Made(k, w) then WithEvent(r, k, w) else r
  {
    hide TextLess;
  }

  lemma SettledAlike(r: Row, k: SeatKey, w: World, v: World, c: Clock)
    requires SameSurroundings(w, v)
    ensures Settled(r, k, w, c) <==> Settled(r, k, v, c)
  {
  }

  /** The calls of a sweep for one row. */
  ghost function CallsAbout(rows: Rows, k: SeatKey, w: World, c: Clock): set<Call> {
    set call | call in SweepCalls(rows, w, c) && call.key == k
  }

  /** What a sweep asks the providers about one row. */
  function Asks(r: Row, k: SeatKey, w: World, c: Clock): set<Call> {
    if Settled(r, k, w, c) then {}
    else if r.cancelled then {CancelCall(k, r.calendarId, r.eventId, r.provider)}
    else if r.eventId == "" then
      {CreateCall(k, r.start, r.end)} + if Made(k, w) && r.needsSync then {Move(WithEvent(r, k, w), k)} else {}
    else if w.parses(r.start) && w.parses(r.end) then {Move(r, k)}
    else {}
  }

  /** The event, where the row says it is, goes to the time of the booking. */
  function Move(r: Row, k: SeatKey): Call {
    UpdateCall(k, r.calendarId, r.eventId, r.provider, r.start, r.end)
  }

  /** The calls the three passes make for one row. */
  lemma CallsByPass(rows: Rows, k: SeatKey, w: World, c: Clock)
    requires k in rows
    ensures var r1 := AfterCancel(rows[k], k, w);
            var r2 := AfterCreate(r1, k, w, c);
            forall call :: call in CallsAbout(rows, k, w, c) <==>
              || (CancelDue(rows[k]) && call == CancelCall(k, rows[k].calendarId, rows[k].eventId, rows[k].provider))
              || (Creates(r1, k, w, c) && call == CreateCall(k, r1.start, r1.end))
              || (Updates(r2, w, c) && call == Move(r2, k))
  {
    hide CancelDue, Creates, Updates, AfterCancel, AfterCreate;
    var rows1 := CancelPass(rows, w);
    assert rows1[k] == AfterCancel(rows[k], k, w);
    assert CreatePass(rows1, w, c)[k] == AfterCreate(rows1[k], k, w, c);
  }

  /**
   A sweep asks exactly this about a row: nothing if it is settled, or drifted with times that cannot be
   sent; otherwise what the row lacks, with the calendar, event, provider and times it records.
   */
  lemma CallsAboutARow(rows: Rows, k: SeatKey, w: World, c: Clock)
    requires k in rows
    ensures CallsAbout(rows, k, w, c) == Asks(rows[k], k, w, c)
  {
    CallsByPass(rows, k, w, c);
    hide TextLess, CallsAbout;
    assert forall call :: call in CallsAbout(rows, k, w, c) <==> call in Asks(rows[k], k, w, c);
  }

  /**
   A sweep and a row: a settled row stays and no call is made for it; any other is healed, given up, or
   stays unsettled, and then every later sweep at this clock asks for it again.
   */
  lemma SweepAndARow(rows: Rows, k: SeatKey, w: World, v: World, c: Clock)
    requires k in rows && SameSurroundings(w, v)
    ensures k in Sweep(rows, w, c)
    ensures var r, s := rows[k], Sweep(rows, w, c)[k];
            && (Settled(r, k, w, c) ==> s == r && CallsAbout(rows, k, w, c) == {})
            && (!Settled(r, k, w, c) ==> Settled(s, k, w, c) || StillFails(r, k, w))
            && (!Settled(r, k, w, c) && Settled(s, k, w, c) ==> Healed(r, k, w) != Quarantined(r, k, w))
            && (!Settled(s, k, w, c) ==> CallsAbout(Sweep(rows, w, c), k, v, c) != {})
  {
    hide Sweep, CallsAbout, StillFails, Healed, Quarantined, TextLess, SweptRow, Settled;
    SweepIsRowwise(rows, w, c);
    CallsAboutARow(rows, k, w, c);
    CallsAboutARow(Sweep(rows, w, c), k, v, c);
    var r, s := rows[k], Sweep(rows, w, c)[k];
    assert s == SweptRow(r, k, w, c);
    SettledAlike(s, k, w, v, c);
    if Settled(r, k, w, c) {
      SettledRowStays(r, k, w, c);
    } else {
      FateOfARow(r, k, w, c);
      if !Settled(s, k, w, c) { FailedRowIsAsked(r, k, w, v, c); }
    }
  }

  lemma FailedRowIsAsked(r: Row, k: SeatKey, w: World, v: World, c: Clock)
    requires SameSurroundings(w, v) && !Settled(r, k, w, c) && !Settled(SweptRow(r, k, w, c), k, w, c)
    ensures Asks(SweptRow(r, k, w, c), k, v, c) != {}
  {
    hide TextLess, SweptRow, Asks;
    FateOfARow(r, k, w, c);
    FailedRow(r, k, w, c);
    var s := SweptRow(r, k, w, c);
    SettledAlike(s, k, w, v, c);
    SomethingAsked(s, k, v, c);
  }

  lemma SomethingAsked(r: Row, k: SeatKey, w: World, c: Clock)
    requires !Settled(r, k, w, c) && (r.cancelled || (w.parses(r.start) && w.parses(r.end)))
    ensures Asks(r, k, w, c) != {}
  {
    hide TextLess;
    assert r.cancelled ==> CancelCall(k, r.calendarId, r.eventId, r.provider) in Asks(r, k, w, c);
    assert !r.cancelled && r.eventId == "" ==> CreateCall(k, r.start, r.end) in Asks(r, k, w, c);
    assert !r.cancelled && r.eventId != "" ==> Move(r, k) in Asks(r, k, w, c);
  }

  /**
   A sweep without failures settles every row: no cancelled booking keeps an event, and every confirmed one
   that has not ended has the event it can have, without a drift flag. It changes nothing else.
   */
  lemma SweepSettles(rows: Rows, w: World, c: Clock)
    requires FailureFree(w)
    ensures Sweep(rows, w, c).Keys == rows.Keys
    ensures forall k :: k in rows ==>
              var r, s := rows[k], Sweep(rows, w, c)[k];
              && Settled(s, k, w, c) && Made(k, w)
              && s == if Settled(r, k, w, c) then r
                      else if r.cancelled then r.(eventId := "")
                      else if r.eventId == "" then WithEvent(r, k, w).(needsSync := false)
                      else r.(needsSync := false)
  {
    hide Sweep, SweptRow, TextLess, Settled, StillFails, Quarantined, Healed;
    SweepIsRowwise(rows, w, c);
    forall k | k in rows ensures Made(k, w) && SweptRow(rows[k], k, w, c) ==
                if Settled(rows[k], k, w, c) then rows[k]
                else if rows[k].cancelled then rows[k].(eventId := "")
                else if rows[k].eventId == "" then WithEvent(rows[k], k, w).(needsSync := false)
                else rows[k].(needsSync := false)
      ensures Settled(SweptRow(rows[k], k, w, c), k, w, c)
    {
      var r := rows[k];
      assert w.cancel(k) != Failed && w.update(k) != Failed && Made(k, w);
      if Settled(r, k, w, c) {
        SettledRowStays(r, k, w, c);
      } else {
        FateOfARow(r, k, w, c);
        NothingFails(r, k, w);
      }
    }
  }

  lemma NothingFails(r: Row, k: SeatKey, w: World)
    requires w.cancel(k) != Failed && w.update(k) != Failed && Made(k, w)
    ensures !StillFails(r, k, w)
  {
  }

  ghost function Unsettled(rows: Rows, w: World, c: Clock): set<SeatKey> {
    set k | k in rows.Keys && !Settled(rows[k], k, w, c)
  }

  lemma OneSweepUnsettlesNone(rows: Rows, w: World, v: World, c: Clock)
    requires SameSurroundings(w, v)
    ensures Unsettled(Sweep(rows, v, c), w, c) <= Unsettled(rows, w, c)
    ensures FailureFree(v) ==> Unsettled(Sweep(rows, v, c), w, c) == {}
  {
    hide Sweep, Settled, SweptRow, FailureFree;
    SweepIsRowwise(rows, v, c);
    var swept := Sweep(rows, v, c);
    forall k | k in rows ensures !Settled(swept[k], k, w, c) ==> !Settled(rows[k], k, w, c) && !FailureFree(v) {
      SettledAlike(swept[k], k, w, v, c);
      SettledAlike(rows[k], k, w, v, c);
      if Settled(rows[k], k, v, c) { SettledRowStays(rows[k], k, v, c); }
      if FailureFree(v) { SweepSettles(rows, v, c); }
    }
  }

  function Sweeps(rows: Rows, ws: seq<World>, c: Clock): Rows
    decreases |ws|
  {
    if ws == [] then rows else Sweeps(Sweep(rows, ws[0], c), ws[1..], c)
  }

  /** The sweeps of a series meet the same surroundings, whatever the providers answer. */
  ghost predicate Alike(w: World, ws: seq<World>) {
    forall i :: 0 <= i < |ws| ==> SameSurroundings(w, ws[i])
  }

  /**
   Over any series of sweeps no row becomes unsettled, and one sweep without failures anywhere in it
   leaves none unsettled at the end.
   */
  lemma {:induction false} SweepsSettle(rows: Rows, w: World, ws: seq<World>, c: Clock)
    requires Alike(w, ws)
    ensures Unsettled(Sweeps(rows, ws, c), w, c) <= Unsettled(rows, w, c)
    ensures (exists i :: 0 <= i < |ws| && FailureFree(ws[i])) ==> Unsettled(Sweeps(rows, ws, c), w, c) == {}
    decreases |ws|
  {
    hide Sweep, Unsettled, FailureFree, SameSurroundings;
    if ws != [] {
      OneSweepUnsettlesNone(rows, w, ws[0], c);
      assert forall i :: 0 <= i < |ws| - 1 ==> ws[1..][i] == ws[i + 1];
      SweepsSettle(Sweep(rows, ws[0], c), w, ws[1..], c);
      if i :| 0 <= i < |ws| && FailureFree(ws[i]) {
        if i > 0 { assert FailureFree(ws[1..][i - 1]); }
      }
    }
  }

  // ---------- what the queries select ----------

  /** Some query of the next sweep selects the row. */
  predicate Marked(r: Row, c: Clock) {
    CancelDue(r) || CreateDue(r, c) || SyncDue(r, c)
  }

  lemma NotMarkedStays(r: Row, k: SeatKey, w: World, c: Clock)
    requires !Marked(r, c)
    ensures SweptRow(r, k, w, c) == r
  {
    hide TextLess;
  }

  ghost function MarkedKeys(rows: Rows, c: Clock): set<SeatKey> {
    set k | k in rows.Keys && Marked(rows[k], c)
  }

  lemma OneSweepMarksNoMore(rows: Rows, w: World, c: Clock)
    ensures MarkedKeys(Sweep(rows, w, c), c) <= MarkedKeys(rows, c)
  {
    SweepIsRowwise(rows, w, c);
    forall k | k in rows ensures Marked(Sweep(rows, w, c)[k], c) ==> Marked(rows[k], c) {
      if !Marked(rows[k], c) { NotMarkedStays(rows[k], k, w, c); }
    }
    hide *;
  }

  /** The number of marked rows never grows over any series of sweeps. */
  lemma {:induction false} MarkedNeverGrows(rows: Rows, ws: seq<World>, c: Clock)
    ensures MarkedKeys(Sweeps(rows, ws, c), c) <= MarkedKeys(rows, c)
    ensures |MarkedKeys(Sweeps(rows, ws, c), c)| <= |MarkedKeys(rows, c)|
    decreases |ws|
  {
    hide Sweep, MarkedKeys;
    if ws != [] {
      OneSweepMarksNoMore(rows, ws[0], c);
      MarkedNeverGrows(Sweep(rows, ws[0], c), ws[1..], c);
      var a, b := MarkedKeys(Sweeps(rows, ws, c), c), MarkedKeys(rows, c);
      assert b == a + (b - a);
    }
  }
}
