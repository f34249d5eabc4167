/**
 The Idempotency-Key protocol of booking creation: concurrent requests with one key, interleaved
 between the insert of the key row, its read-back, the booking, and the finish or release.
 */
module Idempotency {
  import opened Options

  /** An idempotency_keys row; status 0 while the owning request runs. */
  datatype Record = Record(hash: string, status: nat, body: string)

  type Rows = map<string, Record>

  // ---------- the key table ----------

  function RowAt(rows: Rows, key: string): Option<Record> {
    if key in rows then Some(rows[key]) else None
  }

  function Inserted(rows: Rows, key: string, hash: string): Rows {
    rows[key := Record(hash, 0, "")]
  }

  /** UPDATE ... WHERE idempotency_key = ?: touches nothing when the row is gone. */
  function Finished(rows: Rows, key: string, status: nat, body: string): Rows {
    if key in rows then rows[key := rows[key].(status := status, body := body)] else rows
  }

  function Released(rows: Rows, key: string): Rows {
    map k | k in rows.Keys && k != key :: rows[k]
  }

  /** The four statements on the table. What interleaving them comes to is proved below of the same functions. */
  class KeyTable {
    var rows: Rows

    constructor ()
      ensures rows == map[]
    {
      rows := map[];
    }

    /** The INSERT of a claim: it fails on an existing key. */
    method Insert(key: string, hash: string) returns (ok: bool)
      modifies this
      ensures ok <==> key !in old(rows)
      ensures rows == if ok then Inserted(old(rows), key, hash) else old(rows)
    {
      if key in rows {
        return false;
      }
      rows := rows[key := Record(hash, 0, "")];
      ok := true;
    }

    /** The SELECT after a failed insert; the row may be gone by then. */
    method ReadBack(key: string) returns (r: Option<Record>)
      ensures r == RowAt(rows, key)
    {
      if key !in rows {
        return None;
      }
      r := Some(rows[key]);
    }

    method FinishKey(key: string, status: nat, body: string)
      modifies this
      ensures rows == Finished(old(rows), key, status, body)
    {
      if key in rows {
        rows := rows[key := rows[key].(status := status, body := body)];
      }
    }

    method ReleaseKey(key: string)
      modifies this
      ensures rows == Released(old(rows), key)
    {
      ghost var was := rows;
      rows := rows - {key};
      assert rows == Released(was, key);
    }
  }

  // ---------- requests with one key ----------

  type Request = nat
  type Booking = string

  datatype Reply = Stored(status: nat, body: string) | StillProcessing | OtherBody | Rejected

  /** Where one request's handler is. */
  datatype Phase =
    | Arrived
    | Refused                     // the insert met an existing row; the read-back is due
    | Owner                       // the insert succeeded
    | Booked(booking: Booking)    // the booking is committed
    | Undoing(booking: Booking)   // payment could not be set up; the cancel is due
    | Leaving                     // the release is due
    | Replied(reply: Reply)

  datatype Handler = Handler(hash: string, phase: Phase)

  datatype State = State(
    row: Option<Record>, handlers: map<Request, Handler>,
    made: set<Booking>, cancelled: set<Booking>)

  const INITIAL: State := State(None, map[], {}, {})

  datatype Step =
    | Arrive(r: Request, hash: string)
    | TryInsert(r: Request)
    | ReadBack(r: Request)
    | Reject(r: Request)
    | Book(r: Request, b: Booking)
    | PaymentFails(r: Request)
    | Undo(r: Request)
    | Finish(r: Request, status: nat, body: string)
    | Release(r: Request)
    | CancelElsewhere(b: Booking)

  predicate At(s: State, r: Request) {
    r in s.handlers
  }

  predicate Enabled(s: State, step: Step) {
    match step
    case Arrive(r, _) => r !in s.handlers
    case TryInsert(r) => At(s, r) && s.handlers[r].phase.Arrived?
    case ReadBack(r) => At(s, r) && s.handlers[r].phase.Refused?
    case Reject(r) => At(s, r) && s.handlers[r].phase.Owner?
    case Book(r, b) => At(s, r) && s.handlers[r].phase.Owner? && b !in s.made
    case PaymentFails(r) => At(s, r) && s.handlers[r].phase.Booked?
    case Undo(r) => At(s, r) && s.handlers[r].phase.Undoing?
    case Finish(r, status, _) => At(s, r) && s.handlers[r].phase.Booked? && status != 0
    case Release(r) => At(s, r) && s.handlers[r].phase.Leaving?
    case CancelElsewhere(b) => b in s.made
  }

  function Go(s: State, r: Request, p: Phase): map<Request, Handler>
    requires r in s.handlers
  {
    s.handlers[r := s.handlers[r].(phase := p)]
  }

  /** What the read-back answers. */
  function ReplyFor(row: Option<Record>, hash: string): Reply {
    if row.None? then Rejected
    else if row.value.status == 0 then StillProcessing
    else if row.value.hash != hash then OtherBody
    else Stored(row.value.status, row.value.body)
  }

  function Apply(s: State, step: Step): State
    requires Enabled(s, step)
  {
    match step
    case Arrive(r, hash) => s.(handlers := s.handlers[r := Handler(hash, Arrived)])
    case TryInsert(r) =>
      if s.row.None? then s.(row := Some(Record(s.handlers[r].hash, 0, "")), handlers := Go(s, r, Owner))
      else s.(handlers := Go(s, r, Refused))
    case ReadBack(r) => s.(handlers := Go(s, r, Replied(ReplyFor(s.row, s.handlers[r].hash))))
    case Reject(r) => s.(handlers := Go(s, r, Leaving))
    case Book(r, b) => s.(handlers := Go(s, r, Booked(b)), made := s.made + {b})
    case PaymentFails(r) => s.(handlers := Go(s, r, Undoing(s.handlers[r].phase.booking)))
    case Undo(r) =>
      s.(cancelled := s.cancelled + {s.handlers[r].phase.booking}, handlers := Go(s, r, Leaving))
    case Finish(r, status, body) =>
      s.(row := if s.row.None? then None else Some(s.row.value.(status := status, body := body)),
         handlers := Go(s, r, Replied(Stored(status, body))))
    case Release(r) => s.(row := None, handlers := Go(s, r, Replied(Rejected)))
    case CancelElsewhere(b) => s.(cancelled := s.cancelled + {b})
  }

  // ---------- what holds in every run ----------

  predicate Owns(s: State, r: Request) {
    r in s.handlers &&
    var p := s.handlers[r].phase;
    p.Owner? || p.Booked? || p.Undoing? || p.Leaving?
  }

  function Standing(s: State): set<Booking> {
    s.made - s.cancelled
  }

  /** The booking an owner is responsible for. */
  function OwnBooking(p: Phase): set<Booking> {
    if p.Booked? || p.Undoing? then {p.booking} else {}
  }

  ghost predicate Pending(s: State) {
    s.row.Some? && s.row.value.status == 0
  }

  /** Nobody owns the key unless its row is pending, under the owner's own hash. */
  ghost predicate OwnersSound(s: State) {
    && (forall r, q :: Owns(s, r) && Owns(s, q) ==> r == q)
    && (forall r :: Owns(s, r) ==> Pending(s) && s.row.value.hash == s.handlers[r].hash)
  }

  /** Standing bookings: the owner's, or the one of the finished row. */
  ghost predicate BookingsSound(s: State) {
    && (forall r :: Owns(s, r) ==> Standing(s) <= OwnBooking(s.handlers[r].phase))
    && (s.row.None? || Pending(s) ==> forall b :: b in Standing(s) ==> exists r :: Owns(s, r))
    && (forall b, c :: b in Standing(s) && c in Standing(s) ==> b == c)
  }

  /** Every stored reply given out is the row. */
  ghost predicate RepliesSound(s: State) {
    forall r :: AnsweredStored(s, r) ==>
      && s.row.Some? && s.row.value.status != 0 && s.row.value.hash == s.handlers[r].hash
      && s.handlers[r].phase.reply == Stored(s.row.value.status, s.row.value.body)
  }

  ghost predicate Inv(s: State) {
    OwnersSound(s) && BookingsSound(s) && RepliesSound(s)
  }

  lemma StepKeepsOwners(s: State, step: Step)
    requires Inv(s) && Enabled(s, step)
    ensures OwnersSound(Apply(s, step))
  {
    var s' := Apply(s, step);
    assert forall r :: Owns(s, r) ==> Pending(s);
    assert forall r :: Owns(s', r) ==> Owns(s, r) || (step == TryInsert(r) && s.row.None?);
  }

  /** With no owner and no finished row nothing stands. */
  lemma NothingStands(s: State)
    requires Inv(s) && (s.row.None? || Pending(s)) && forall r :: !Owns(s, r)
    ensures Standing(s) == {}
  {
    hide Standing, Owns;
    assert forall b :: b !in Standing(s);
  }

  lemma StepKeepsBookings(s: State, step: Step)
    requires Inv(s) && Enabled(s, step)
    ensures BookingsSound(Apply(s, step))
  {
    var s' := Apply(s, step);
    StepKeepsOwners(s, step);
    forall r | Owns(s', r) ensures Standing(s') <= OwnBooking(s'.handlers[r].phase) {
      if Owns(s, r) {
        assert Standing(s) <= OwnBooking(s.handlers[r].phase);
        if step.Book? {
          assert Owns(s, step.r);
        }
      } else {
        assert s.row.None?;
        assert forall q :: Owns(s, q) ==> Pending(s);
        NothingStands(s);
      }
    }
    if s'.row.None? || Pending(s') {
      forall b | b in Standing(s') ensures exists r :: Owns(s', r) {
        if b in Standing(s) {
          var r :| Owns(s, r);
          assert Standing(s) <= OwnBooking(s.handlers[r].phase);
          assert Owns(s', r);
        } else {
          assert step.Book? && Owns(s', step.r);
        }
      }
    }
    if step.Book? {
      assert Owns(s, step.r);
      assert Standing(s) <= OwnBooking(s.handlers[step.r].phase);
      assert Standing(s) == {};
      assert forall b :: b in Standing(s') ==> b == step.b;
    } else {
      assert forall b :: b in Standing(s') ==> b in Standing(s);
    }
  }

  lemma StepKeepsReplies(s: State, step: Step)
    requires Inv(s) && Enabled(s, step)
    ensures RepliesSound(Apply(s, step))
  {
    if step.Finish? || step.Release? {
      assert Owns(s, step.r);
    }
  }

  lemma StepKeepsInv(s: State, step: Step)
    requires Inv(s) && Enabled(s, step)
    ensures Inv(Apply(s, step))
  {
    StepKeepsOwners(s, step);
    StepKeepsBookings(s, step);
    StepKeepsReplies(s, step);
  }

  ghost predicate Runs(s: State, steps: seq<Step>, s': State)
    decreases |steps|
  {
    if steps == [] then s' == s else Enabled(s, steps[0]) && Runs(Apply(s, steps[0]), steps[1..], s')
  }

  lemma {:induction false} RunKeepsInv(s: State, steps: seq<Step>, s': State)
    requires Inv(s) && Runs(s, steps, s')
    ensures Inv(s')
    decreases |steps|
  {
    if steps != [] {
      hide Inv, Apply;
      StepKeepsInv(s, steps[0]);
      RunKeepsInv(Apply(s, steps[0]), steps[1..], s');
    }
  }

  /** The request got a stored response, as its first answer or as a replay. */
  predicate AnsweredStored(s: State, r: Request) {
    r in s.handlers && s.handlers[r].phase.Replied? && s.handlers[r].phase.reply.Stored?
  }

  /** In every interleaving: one owner at a time, one standing booking at most, one stored reply. */
  lemma OneBookingPerKey(steps: seq<Step>, s: State)
    requires Runs(INITIAL, steps, s)
    ensures forall r, q :: Owns(s, r) && Owns(s, q) ==> r == q
    ensures |Standing(s)| <= 1
    ensures forall r, q :: AnsweredStored(s, r) && AnsweredStored(s, q) ==>
              s.handlers[r].phase.reply == s.handlers[q].phase.reply && s.handlers[r].hash == s.handlers[q].hash
  {
    RunKeepsInv(INITIAL, steps, s);
    if Standing(s) != {} {
      var b :| b in Standing(s);
      assert Standing(s) == {b};
    }
  }

  lemma FinishedStep(s: State, step: Step)
    requires Inv(s) && Enabled(s, step) && s.row.Some? && s.row.value.status != 0
    ensures Apply(s, step).row == s.row
  {
    assert forall r :: Owns(s, r) ==> Pending(s);
  }

  /**
   Once some request has finished, the row never changes, and every later retry is answered from
   it: the identical status and body for the same request body, a refusal for another.
   */
  lemma {:induction false} FinishedIsForever(s: State, steps: seq<Step>, s': State)
    requires Inv(s) && Runs(s, steps, s') && s.row.Some? && s.row.value.status != 0
    ensures s'.row == s.row
    ensures forall r :: Enabled(s', ReadBack(r)) ==>
              Apply(s', ReadBack(r)).handlers[r].phase ==
              Replied(if s'.handlers[r].hash != s.row.value.hash then OtherBody
                      else Stored(s.row.value.status, s.row.value.body))
    ensures forall r :: Enabled(s', TryInsert(r)) ==> Apply(s', TryInsert(r)).handlers[r].phase == Refused
    decreases |steps|
  {
    if steps != [] {
      hide Inv;
      StepKeepsInv(s, steps[0]);
      FinishedStep(s, steps[0]);
      FinishedIsForever(Apply(s, steps[0]), steps[1..], s');
    }
  }

  /** While a request owns the key, another one finds the row and is told that it is still being processed. */
  lemma RetryWhileRunning(s: State, q: Request, r: Request)
    requires Inv(s) && Owns(s, q)
    ensures Enabled(s, TryInsert(r)) ==>
              Apply(s, TryInsert(r)).handlers[r].phase == Refused && Apply(s, TryInsert(r)).row == s.row
    ensures Enabled(s, ReadBack(r)) ==>
              Apply(s, ReadBack(r)).handlers[r].phase == Replied(StillProcessing) && Apply(s, ReadBack(r)).row == s.row
  {
  }

  /**
   A released key is free again: the next request to insert owns it under its own body's hash, and one that
   lost to the released owner and reads back now is rejected.
   */
  lemma ReleasedKeyIsFree(s: State, q: Request, r: Request)
    requires Inv(s) && Enabled(s, Release(q))
    ensures var free := Apply(s, Release(q));
            && (forall p :: !Owns(free, p)) && Standing(free) == {}
            && (Enabled(free, TryInsert(r)) ==>
                  var next := Apply(free, TryInsert(r));
                  Owns(next, r) && next.row == Some(Record(free.handlers[r].hash, 0, "")))
            && (Enabled(free, ReadBack(r)) ==> Apply(free, ReadBack(r)).handlers[r].phase == Replied(Rejected))
  {
    var free := Apply(s, Release(q));
    assert Owns(s, q);
    assert forall p :: Owns(free, p) ==> Owns(s, p) && p != q;
    StepKeepsInv(s, Release(q));
    NothingStands(free);
  }

  // ---------- all keys at once ----------

  /** A request and the key it came with. */
  datatype Asked = Asked(key: string, handler: Handler)

  /** The table, all requests, and the key each booking was made under. */
  datatype Server = Server(
    rows: Rows, requests: map<Request, Asked>, made: map<Booking, string>, cancelled: set<Booking>)

  const IDLE: Server := Server(map[], map[], map[], {})

  /** What the server looks like to the requests with one key. */
  function View(t: Server, key: string): State {
    State(RowAt(t.rows, key), Handlers(t.requests, key), Under(t.made, key), t.cancelled * Under(t.made, key))
  }

  function Handlers(requests: map<Request, Asked>, key: string): map<Request, Handler> {
    map r | r in requests.Keys && requests[r].key == key :: requests[r].handler
  }

  function Under(made: map<Booking, string>, key: string): set<Booking> {
    set b | b in made.Keys && made[b] == key
  }

  datatype KeyStep = KeyStep(key: string, step: Step)

  /** A request number and a booking id are new to the whole server, not just to the key. */
  predicate CanTake(t: Server, k: KeyStep) {
    match k.step
    case Arrive(r, _) => r !in t.requests
    case Book(r, b) => Enabled(View(t, k.key), k.step) && b !in t.made
    case _ => Enabled(View(t, k.key), k.step)
  }

  function Went(t: Server, r: Request, p: Phase): map<Request, Asked>
    requires r in t.requests
  {
    t.requests[r := t.requests[r].(handler := t.requests[r].handler.(phase := p))]
  }

  /** One statement or commit of one request, on the tables as they are. */
  function Take(t: Server, k: KeyStep): Server
    requires CanTake(t, k)
  {
    match k.step
    case Arrive(r, hash) => t.(requests := t.requests[r := Asked(k.key, Handler(hash, Arrived))])
    case TryInsert(r) =>
      if k.key !in t.rows then
        t.(rows := Inserted(t.rows, k.key, t.requests[r].handler.hash), requests := Went(t, r, Owner))
      else t.(requests := Went(t, r, Refused))
    case ReadBack(r) => t.(requests := Went(t, r, Replied(ReplyFor(RowAt(t.rows, k.key), t.requests[r].handler.hash))))
    case Reject(r) => t.(requests := Went(t, r, Leaving))
    case Book(r, b) => t.(requests := Went(t, r, Booked(b)), made := t.made[b := k.key])
    case PaymentFails(r) => t.(requests := Went(t, r, Undoing(t.requests[r].handler.phase.booking)))
    case Undo(r) =>
      t.(cancelled := t.cancelled + {t.requests[r].handler.phase.booking}, requests := Went(t, r, Leaving))
    case Finish(r, status, body) =>
      t.(rows := Finished(t.rows, k.key, status, body), requests := Went(t, r, Replied(Stored(status, body))))
    case Release(r) => t.(rows := Released(t.rows, k.key), requests := Went(t, r, Replied(Rejected)))
    case CancelElsewhere(b) => t.(cancelled := t.cancelled + {b})
  }

  /** Cancelled bookings were made, and a request's booking was made under its key. */
  ghost predicate BookingsKnown(t: Server) {
    && t.cancelled <= t.made.Keys
    && forall r :: r in t.requests ==>
         var p := t.requests[r].handler.phase;
         p.Booked? || p.Undoing? ==> p.booking in t.made && t.made[p.booking] == t.requests[r].key
  }

  lemma TakeKnowsBookings(t: Server, k: KeyStep)
    requires BookingsKnown(t) && CanTake(t, k)
    ensures BookingsKnown(Take(t, k))
  {
    hide ReplyFor, Finished, Released, Inserted;
  }

  lemma HandlersWent(t: Server, r: Request, p: Phase, key: string)
    requires r in t.requests
    ensures t.requests[r].key == key ==> r in View(t, key).handlers
    ensures t.requests[r].key == key ==> Handlers(Went(t, r, p), key) == Go(View(t, key), r, p)
    ensures t.requests[r].key != key ==> Handlers(Went(t, r, p), key) == Handlers(t.requests, key)
  {
    if t.requests[r].key == key {
      assert r in Handlers(t.requests, key);
    }
  }

  lemma HandlersArrived(t: Server, r: Request, a: Asked, key: string)
    requires r !in t.requests
    ensures r !in Handlers(t.requests, key)
    ensures Handlers(t.requests[r := a], key) ==
            if a.key == key then Handlers(t.requests, key)[r := a.handler] else Handlers(t.requests, key)
  {
  }

  lemma UnderMade(made: map<Booking, string>, b: Booking, under: string, key: string)
    requires b !in made
    ensures Under(made[b := under], key) == if under == key then Under(made, key) + {b} else Under(made, key)
  {
    assert forall c :: c in Under(made[b := under], key) <==> c in Under(made, key) || (c == b && under == key);
  }

  lemma UnderCancelled(t: Server, b: Booking, key: string)
    requires b in t.made
    ensures (t.cancelled + {b}) * Under(t.made, key) ==
            if t.made[b] == key then t.cancelled * Under(t.made, key) + {b} else t.cancelled * Under(t.made, key)
  {
    assert b in Under(t.made, key) <==> t.made[b] == key;
  }

  lemma RowsElsewhere(rows: Rows, key: string, hash: string, status: nat, body: string, other: string)
    requires key != other
    ensures RowAt(Inserted(rows, key, hash), other) == RowAt(rows, other)
    ensures RowAt(Finished(rows, key, status, body), other) == RowAt(rows, other)
    ensures RowAt(Released(rows, key), other) == RowAt(rows, other)
  {
  }

  /** The request of a step and its key. */
  lemma RequestOf(t: Server, k: KeyStep, r: Request)
    requires r in View(t, k.key).handlers
    ensures r in t.requests && t.requests[r].key == k.key && t.requests[r].handler == View(t, k.key).handlers[r]
  {
  }

  /** A step of a request is a step of the protocol at its key ... */
  lemma StepAtItsKey(t: Server, k: KeyStep)
    requires BookingsKnown(t) && CanTake(t, k)
    ensures Enabled(View(t, k.key), k.step)
    ensures View(Take(t, k), k.key) == Apply(View(t, k.key), k.step)
  {
    hide ReplyFor, Handlers, Under, Went, Go;
    match k.step
    case Arrive(r, hash) => HandlersArrived(t, r, Asked(k.key, Handler(hash, Arrived)), k.key);
    case TryInsert(r) =>
      RequestOf(t, k, r);
      HandlersWent(t, r, Owner, k.key);
      HandlersWent(t, r, Refused, k.key);
    case ReadBack(r) =>
      RequestOf(t, k, r);
      HandlersWent(t, r, Replied(ReplyFor(RowAt(t.rows, k.key), t.requests[r].handler.hash)), k.key);
    case Reject(r) =>
      RequestOf(t, k, r);
      HandlersWent(t, r, Leaving, k.key);
    case Book(r, b) => BookAtItsKey(t, k);
    case PaymentFails(r) =>
      RequestOf(t, k, r);
      HandlersWent(t, r, Undoing(t.requests[r].handler.phase.booking), k.key);
    case Undo(r) =>
      RequestOf(t, k, r);
      HandlersWent(t, r, Leaving, k.key);
      UnderCancelled(t, t.requests[r].handler.phase.booking, k.key);
    case Finish(r, status, body) =>
      RequestOf(t, k, r);
      HandlersWent(t, r, Replied(Stored(status, body)), k.key);
    case Release(r) =>
      RequestOf(t, k, r);
      HandlersWent(t, r, Replied(Rejected), k.key);
    case CancelElsewhere(b) => CancelAtItsKey(t, k);
  }

  lemma BookAtItsKey(t: Server, k: KeyStep)
    requires BookingsKnown(t) && CanTake(t, k) && k.step.Book?
    ensures View(Take(t, k), k.key) == Apply(View(t, k.key), k.step)
  {
    var r, b := k.step.r, k.step.b;
    assert b !in t.cancelled;
    RequestOf(t, k, r);
    HandlersWent(t, r, Booked(b), k.key);
    UnderMade(t.made, b, k.key, k.key);
    hide Handlers, Under, Went, Go;
    assert t.cancelled * (Under(t.made, k.key) + {b}) == t.cancelled * Under(t.made, k.key);
  }

  lemma CancelAtItsKey(t: Server, k: KeyStep)
    requires BookingsKnown(t) && CanTake(t, k) && k.step.CancelElsewhere?
    ensures View(Take(t, k), k.key) == Apply(View(t, k.key), k.step)
  {
    assert k.step.b in Under(t.made, k.key);
    UnderCancelled(t, k.step.b, k.key);
    hide Handlers;
  }

  /** ... and no step at all at any other key. */
  lemma NoStepElsewhere(t: Server, k: KeyStep, other: string)
    requires BookingsKnown(t) && CanTake(t, k) && other != k.key
    ensures View(Take(t, k), other) == View(t, other)
  {
    HandlersElsewhere(t, k, other);
    BookingsElsewhere(t, k, other);
    hide Handlers, Under, Went, ReplyFor, Enabled;
    match k.step
    case TryInsert(r) => RowsElsewhere(t.rows, k.key, t.requests[r].handler.hash, 0, "", other);
    case Finish(r, status, body) => RowsElsewhere(t.rows, k.key, "", status, body, other);
    case Release(r) => RowsElsewhere(t.rows, k.key, "", 0, "", other);
    case _ =>
  }

  lemma HandlersElsewhere(t: Server, k: KeyStep, other: string)
    requires CanTake(t, k) && other != k.key
    ensures Handlers(Take(t, k).requests, other) == Handlers(t.requests, other)
  {
    hide ReplyFor, Handlers, Went, Finished, Released, Inserted, Under;
    match k.step
    case Arrive(r, hash) => HandlersArrived(t, r, Asked(k.key, Handler(hash, Arrived)), other);
    case CancelElsewhere(_) =>
    case _ =>
      var r := k.step.r;
      RequestOf(t, k, r);
      forall p { HandlersWent(t, r, p, other); }
  }

  lemma BookingsElsewhere(t: Server, k: KeyStep, other: string)
    requires BookingsKnown(t) && CanTake(t, k) && other != k.key
    ensures Under(Take(t, k).made, other) == Under(t.made, other)
    ensures Take(t, k).cancelled * Under(t.made, other) == t.cancelled * Under(t.made, other)
  {
    hide ReplyFor, Finished, Released, Inserted, Went;
    match k.step
    case Book(_, b) => UnderMade(t.made, b, k.key, other);
    case Undo(r) =>
      RequestOf(t, k, r);
      UnderCancelled(t, t.requests[r].handler.phase.booking, other);
    case CancelElsewhere(b) => UnderCancelled(t, b, other);
    case _ =>
  }

  ghost predicate Serves(t: Server, steps: seq<KeyStep>, t': Server)
    decreases |steps|
  {
    if steps == [] then t' == t else CanTake(t, steps[0]) && Serves(Take(t, steps[0]), steps[1..], t')
  }

  /** The steps taken at one key. */
  function AtKey(steps: seq<KeyStep>, key: string): seq<Step> {
    if steps == [] then []
    else (if steps[0].key == key then [steps[0].step] else []) + AtKey(steps[1..], key)
  }

  /** Seen from one key, the server runs the protocol of that key. */
  lemma {:induction false} RunAtKey(t: Server, steps: seq<KeyStep>, t': Server, key: string)
    requires BookingsKnown(t) && Serves(t, steps, t')
    ensures Runs(View(t, key), AtKey(steps, key), View(t', key))
    decreases |steps|
  {
    if steps != [] {
      var k, more := steps[0], AtKey(steps[1..], key);
      TakeKnowsBookings(t, k);
      if k.key == key { StepAtItsKey(t, k); } else { NoStepElsewhere(t, k, key); }
      hide BookingsKnown, View, Take, CanTake, Enabled, Apply;
      RunAtKey(Take(t, k), steps[1..], t', key);
      assert ([k.step] + more)[1..] == more && [] + more == more;
    }
  }

  /**
   Over any interleaving of requests with any keys: for every key one owner at a time, at most one
   standing booking, and one stored reply.
   */
  lemma OneBookingForEveryKey(steps: seq<KeyStep>, t: Server, key: string)
    requires Serves(IDLE, steps, t)
    ensures forall r, q :: Owns(View(t, key), r) && Owns(View(t, key), q) ==> r == q
    ensures |Standing(View(t, key))| <= 1
    ensures forall r, q :: AnsweredStored(View(t, key), r) && AnsweredStored(View(t, key), q) ==>
              View(t, key).handlers[r].phase.reply == View(t, key).handlers[q].phase.reply
  {
    assert View(IDLE, key) == INITIAL;
    hide View, Owns, Standing, AnsweredStored;
    RunAtKey(IDLE, steps, t, key);
    OneBookingPerKey(AtKey(steps, key), View(t, key));
  }

  /** A finished row stays as it is whatever all the other requests do. */
  lemma FinishedRowStays(before: seq<KeyStep>, t: Server, after: seq<KeyStep>, t': Server, key: string)
    requires Serves(IDLE, before, t) && Serves(t, after, t')
    requires key in t.rows && t.rows[key].status != 0
    ensures key in t'.rows && t'.rows[key] == t.rows[key]
  {
    assert View(IDLE, key) == INITIAL;
    KnownThroughout(IDLE, before, t);
    RunAtKey(IDLE, before, t, key);
    RunAtKey(t, after, t', key);
    hide Serves;
    RunKeepsInv(INITIAL, AtKey(before, key), View(t, key));
    FinishedIsForever(View(t, key), AtKey(after, key), View(t', key));
  }

  lemma {:induction false} KnownThroughout(t: Server, steps: seq<KeyStep>, t': Server)
    requires BookingsKnown(t) && Serves(t, steps, t')
    ensures BookingsKnown(t')
    decreases |steps|
  {
    if steps != [] {
      TakeKnowsBookings(t, steps[0]);
      hide BookingsKnown, Take, CanTake;
      KnownThroughout(Take(t, steps[0]), steps[1..], t');
    }
  }
}
