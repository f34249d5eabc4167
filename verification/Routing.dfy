/**
 One user's calendar connections and saved calendars, and the operations that must keep them
 agreeing on a single write target.

 A connection row is keyed by its account, because every save deletes the account's row before it
 inserts the new one. Each operation is one transaction.
 */
module Routing {
  import EventOwner
  import opened Options
  import opened Timestamps

  // ---------- tables ----------

  datatype AccountKey = AccountKey(provider: string, email: string)

  /** A calendar_connections row: the bound calendar, the flags and the time of the last save. */
  datatype Connection = Connection(calendarId: string, checks: bool, destination: bool, createdAt: string)

  /** A connection_calendars row is keyed by account and calendar id (its UNIQUE constraint). */
  type CalendarKey = (AccountKey, string)

  datatype Saved = Saved(name: string, checks: bool, destination: bool)

  datatype Tables = Tables(connections: map<AccountKey, Connection>, calendars: map<CalendarKey, Saved>)

  const EMPTY: Tables := Tables(map[], map[])

  datatype Selection = Selection(id: string, name: string, checks: bool, destination: bool)

  datatype Found = Found(url: string, name: string)

  // ---------- operations ----------

  datatype Flags = Flags(checks: bool, destination: bool)

  predicate HasDestination(t: Tables) {
    exists k :: k in t.connections.Keys && t.connections[k].destination
  }

  /** Flags of a connection about to be saved: kept, or the defaults of a first save. */
  function ResolveFlags(t: Tables, k: AccountKey): Flags {
    if k in t.connections then Flags(t.connections[k].checks, t.connections[k].destination)
    else Flags(true, !HasDestination(t))
  }

  /** Token refresh, reconnect or first connect: delete and re-insert the account's row. */
  function Save(t: Tables, k: AccountKey, calendarId: string, now: string): Tables {
    var f := ResolveFlags(t, k);
    t.(connections := t.connections[k := Connection(calendarId, f.checks, f.destination, now)])
  }

  /** Upsert of discovered collections; existing rows only get the new name. */
  function Seed(t: Tables, k: AccountKey, bound: string, found: seq<Found>): Tables {
    if found == [] then t
    else
      var before := Seed(t, k, bound, found[..|found| - 1]);
      var f := found[|found| - 1];
      var row := if (k, f.url) in before.calendars then before.calendars[(k, f.url)].(name := f.name)
                 else Saved(f.name, f.url == bound, false);
      before.(calendars := before.calendars[(k, f.url) := row])
  }

  function OnlyDestination(connections: map<AccountKey, Connection>, k: AccountKey): map<AccountKey, Connection> {
    map l | l in connections.Keys :: connections[l].(destination := l == k)
  }

  /** None when the account is not connected. */
  function SetDestination(t: Tables, k: AccountKey): Option<Tables> {
    if k !in t.connections then None
    else Some(Tables(OnlyDestination(t.connections, k),
                     map c | c in t.calendars.Keys ::
                       if c.0 == k then t.calendars[c] else t.calendars[c].(destination := false)))
  }

  predicate Claims(sels: seq<Selection>) {
    exists s :: s in sels && s.destination
  }

  predicate DistinctIds(sels: seq<Selection>) {
    forall i, j :: 0 <= i < j < |sels| ==> sels[i].id != sels[j].id
  }

  function SavedRows(k: AccountKey, sels: seq<Selection>): map<CalendarKey, Saved> {
    if sels == [] then map[]
    else
      var s := sels[|sels| - 1];
      SavedRows(k, sels[..|sels| - 1])[(k, s.id) := Saved(s.name, s.checks, s.destination)]
  }

  /** The rows of other accounts, their flags cleared if the selection claims the destination. */
  function OtherRows(t: Tables, k: AccountKey, claims: bool): map<CalendarKey, Saved> {
    map c | c in t.calendars.Keys && c.0 != k ::
      if claims then t.calendars[c].(destination := false) else t.calendars[c]
  }

  /** None when the account is not connected or the selection repeats an id (rolled back). */
  function SetAccountCalendars(t: Tables, k: AccountKey, sels: seq<Selection>): Option<Tables> {
    if k !in t.connections || !DistinctIds(sels) then None
    else Some(Tables(if Claims(sels) then OnlyDestination(t.connections, k) else t.connections,
                     OtherRows(t, k, Claims(sels)) + SavedRows(k, sels)))
  }

  /** heir is an oldest connection, or None when there is none. */
  ghost predicate Oldest(connections: map<AccountKey, Connection>, heir: Option<AccountKey>) {
    match heir
    case None => connections == map[]
    case Some(h) =>
      && h in connections
      && forall k :: k in connections ==> !TextLess(connections[k].createdAt, connections[h].createdAt)
  }

  function Without(connections: map<AccountKey, Connection>, k: AccountKey): map<AccountKey, Connection> {
    map l | l in connections.Keys && l != k :: connections[l]
  }

  /** None when the account is not connected; otherwise heir takes over a vacated destination. */
  function DisconnectOne(t: Tables, k: AccountKey, heir: Option<AccountKey>): Option<Tables> {
    if k !in t.connections then None
    else
      var rest := Without(t.connections, k);
      var kept := map c | c in t.calendars.Keys && c.0 != k :: t.calendars[c];
      if t.connections[k].destination && heir.Some? && heir.value in rest then
        Some(Tables(rest[heir.value := rest[heir.value].(destination := true)], kept))
      else Some(Tables(rest, kept))
  }

  datatype Op =
    | OpSave(k: AccountKey, calendarId: string, now: string)
    | OpSeed(k: AccountKey, bound: string, found: seq<Found>)
    | OpSetDestination(k: AccountKey)
    | OpSetCalendars(k: AccountKey, sels: seq<Selection>)
    | OpDisconnectOne(k: AccountKey, heir: Option<AccountKey>)
    | OpDisconnect
  {
    /** The heir is what the query would return; nothing else is asked of an operation. */
    ghost predicate Valid(t: Tables) {
      OpDisconnectOne? && k in t.connections ==> Oldest(Without(t.connections, k), heir)
    }
  }

  function OrElse(o: Option<Tables>, t: Tables): Tables {
    if o.Some? then o.value else t
  }

  function Apply(t: Tables, op: Op): Tables {
    match op
    case OpSave(k, calendarId, now) => Save(t, k, calendarId, now)
    case OpSeed(k, bound, found) => Seed(t, k, bound, found)
    case OpSetDestination(k) => OrElse(SetDestination(t, k), t)
    case OpSetCalendars(k, sels) => OrElse(SetAccountCalendars(t, k, sels), t)
    case OpDisconnectOne(k, heir) => OrElse(DisconnectOne(t, k, heir), t)
    case OpDisconnect => EMPTY
  }

  // ---------- the destination invariant ----------

  predicate IsPick(t: Tables, c: CalendarKey) {
    c in t.calendars && t.calendars[c].destination
  }

  predicate IsDestination(t: Tables, k: AccountKey) {
    k in t.connections && t.connections[k].destination
  }

  /** A user with any connection has exactly one destination account. */
  ghost predicate OneDestination(t: Tables) {
    && (t.connections != map[] ==> exists k :: IsDestination(t, k))
    && forall k, l :: IsDestination(t, k) && IsDestination(t, l) ==> k == l
  }

  /** At most one saved calendar is the pick, and it lies inside the destination account. */
  ghost predicate PickInside(t: Tables) {
    && (forall c, d :: IsPick(t, c) && IsPick(t, d) ==> c == d)
    && forall c :: IsPick(t, c) ==> IsDestination(t, c.0)
  }

  ghost predicate Agree(t: Tables) {
    OneDestination(t) && PickInside(t)
  }

  /** The selection names at most one destination. */
  predicate AtMostOneClaim(sels: seq<Selection>) {
    forall i, j :: 0 <= i < j < |sels| ==> !(sels[i].destination && sels[j].destination)
  }

  lemma SaveAgrees(t: Tables, k: AccountKey, calendarId: string, now: string)
    requires Agree(t)
    ensures Agree(Save(t, k, calendarId, now))
  {
    var t' := Save(t, k, calendarId, now);
    assert forall l :: l != k ==> (IsDestination(t', l) <==> IsDestination(t, l));
    if k in t.connections {
      assert forall l :: IsDestination(t', l) <==> IsDestination(t, l);
    } else {
      assert IsDestination(t', k) <==> !HasDestination(t);
      assert HasDestination(t) <==> exists l :: IsDestination(t, l);
    }
    assert forall c :: IsPick(t', c) <==> IsPick(t, c);
  }

  lemma {:induction false} SeedKeepsPicks(t: Tables, k: AccountKey, bound: string, found: seq<Found>)
    ensures Seed(t, k, bound, found).connections == t.connections
    ensures forall c :: IsPick(Seed(t, k, bound, found), c) <==> IsPick(t, c)
    ensures forall c :: c in t.calendars ==> c in Seed(t, k, bound, found).calendars
  {
    if found != [] {
      SeedKeepsPicks(t, k, bound, found[..|found| - 1]);
    }
  }

  /** The name of the last found collection with this URL. */
  function FoundName(found: seq<Found>, url: string): Option<string> {
    if found == [] then None
    else if found[|found| - 1].url == url then Some(found[|found| - 1].name)
    else FoundName(found[..|found| - 1], url)
  }

  /**
   Rediscovery never resets the picker: every found collection has a row with the name found last,
   rows keep their flags, new ones are unchecked but for the bound collection, and no other row changes.
   */
  lemma {:induction false} SeedKeepsFlags(t: Tables, k: AccountKey, bound: string, found: seq<Found>, c: CalendarKey)
    ensures var after := Seed(t, k, bound, found).calendars;
            if c.0 == k && FoundName(found, c.1).Some? then
              c in after && after[c] ==
                (if c in t.calendars then t.calendars[c].(name := FoundName(found, c.1).value)
                 else Saved(FoundName(found, c.1).value, c.1 == bound, false))
            else (c in after <==> c in t.calendars) && (c in after ==> after[c] == t.calendars[c])
  {
    if found != [] {
      var last := found[|found| - 1];
      SeedKeepsFlags(t, k, bound, found[..|found| - 1], c);
      assert c == (k, last.url) <==> c.0 == k && c.1 == last.url;
    }
  }

  lemma SetDestinationAgrees(t: Tables, k: AccountKey)
    requires Agree(t) && k in t.connections
    ensures Agree(SetDestination(t, k).value)
    ensures forall l :: IsDestination(SetDestination(t, k).value, l) <==> l == k
    ensures forall c :: IsPick(SetDestination(t, k).value, c) <==> IsPick(t, c) && c.0 == k
  {
    var t' := SetDestination(t, k).value;
    assert forall l :: IsDestination(t', l) <==> l == k;
    assert IsDestination(t', k);
    assert forall c :: IsPick(t', c) <==> IsPick(t, c) && c.0 == k;
  }

  ghost predicate Selects(sels: seq<Selection>, id: string) {
    exists i :: 0 <= i < |sels| && sels[i].id == id
  }

  lemma SelectsLast(sels: seq<Selection>, id: string)
    requires sels != []
    ensures Selects(sels, id) <==> Selects(sels[..|sels| - 1], id) || sels[|sels| - 1].id == id
  {
    if i :| 0 <= i < |sels| - 1 && sels[i].id == id {
      assert sels[..|sels| - 1][i].id == id;
    }
  }

  lemma {:induction false} SavedKeysAre(k: AccountKey, sels: seq<Selection>)
    ensures forall c :: c in SavedRows(k, sels) <==> c.0 == k && Selects(sels, c.1)
  {
    if sels != [] {
      var front, last := sels[..|sels| - 1], sels[|sels| - 1];
      SavedKeysAre(k, front);
      forall c ensures c in SavedRows(k, sels) <==> c.0 == k && Selects(sels, c.1) {
        SelectsLast(sels, c.1);
      }
    }
  }

  lemma {:induction false} SavedValuesAre(k: AccountKey, sels: seq<Selection>, i: nat)
    requires DistinctIds(sels) && i < |sels|
    ensures (k, sels[i].id) in SavedRows(k, sels)
    ensures SavedRows(k, sels)[(k, sels[i].id)] == Saved(sels[i].name, sels[i].checks, sels[i].destination)
  {
    if i < |sels| - 1 {
      SavedValuesAre(k, sels[..|sels| - 1], i);
    }
  }

  lemma SavedRowsAre(k: AccountKey, sels: seq<Selection>)
    requires DistinctIds(sels)
    ensures forall c :: c in SavedRows(k, sels) <==> c.0 == k && exists i :: 0 <= i < |sels| && sels[i].id == c.1
    ensures forall i :: 0 <= i < |sels| ==>
              (k, sels[i].id) in SavedRows(k, sels) &&
              SavedRows(k, sels)[(k, sels[i].id)] == Saved(sels[i].name, sels[i].checks, sels[i].destination)
  {
    hide SavedRows;
    SavedKeysAre(k, sels);
    forall c ensures c in SavedRows(k, sels) <==> c.0 == k && exists i :: 0 <= i < |sels| && sels[i].id == c.1 {
      assert Selects(sels, c.1) <==> exists i :: 0 <= i < |sels| && sels[i].id == c.1;
    }
    hide Selects, DistinctIds;
    forall i | 0 <= i < |sels|
      ensures (k, sels[i].id) in SavedRows(k, sels)
      ensures SavedRows(k, sels)[(k, sels[i].id)] == Saved(sels[i].name, sels[i].checks, sels[i].destination)
    {
      SavedValuesAre(k, sels, i);
    }
  }

  /** One more inserted selection: it is refused exactly when it repeats an id. */
  lemma OneMoreSelection(k: AccountKey, sels: seq<Selection>, i: nat)
    requires i < |sels| && DistinctIds(sels[..i])
    ensures (k, sels[i].id) in SavedRows(k, sels[..i]) ==> !DistinctIds(sels)
    ensures (k, sels[i].id) !in SavedRows(k, sels[..i]) ==> DistinctIds(sels[..i + 1])
    ensures SavedRows(k, sels[..i + 1]) ==
            SavedRows(k, sels[..i])[(k, sels[i].id) := Saved(sels[i].name, sels[i].checks, sels[i].destination)]
  {
    assert sels[..i + 1][..i] == sels[..i];
    assert forall j :: 0 <= j < i ==> sels[..i][j] == sels[j];
    SavedRowsAre(k, sels[..i]);
    hide SavedRows;
  }

  /** Who is the destination and what is picked after a saved selection. */
  lemma SelectionEffect(t: Tables, k: AccountKey, sels: seq<Selection>)
    requires k in t.connections && DistinctIds(sels)
    ensures var t' := SetAccountCalendars(t, k, sels).value;
            && (forall l :: IsDestination(t', l) <==> if Claims(sels) then l == k else IsDestination(t, l))
            && (forall c: CalendarKey :: c.0 != k ==> (IsPick(t', c) <==> IsPick(t, c) && !Claims(sels)))
            && (forall c: CalendarKey :: c.0 == k ==>
                (IsPick(t', c) <==> exists i :: 0 <= i < |sels| && sels[i].id == c.1 && sels[i].destination))
  {
    SavedRowsAre(k, sels);
    var t' := SetAccountCalendars(t, k, sels).value;
    var rows := SavedRows(k, sels);
    assert forall c :: c in t'.calendars && c.0 != k ==> c !in rows;
    forall c: CalendarKey | c.0 == k
      ensures IsPick(t', c) <==> exists i :: 0 <= i < |sels| && sels[i].id == c.1 && sels[i].destination
    {
      if IsPick(t', c) {
        var i :| 0 <= i < |sels| && sels[i].id == c.1;
        assert rows[(k, sels[i].id)].destination == sels[i].destination;
      }
      if i :| 0 <= i < |sels| && sels[i].id == c.1 && sels[i].destination {
        assert (k, sels[i].id) == c;
      }
    }
  }

  /** A saved selection keeps the tables agreeing exactly when it names at most one destination. */
  lemma SelectionAgreesIff(t: Tables, k: AccountKey, sels: seq<Selection>)
    requires Agree(t) && SetAccountCalendars(t, k, sels).Some?
    ensures Agree(SetAccountCalendars(t, k, sels).value) <==> AtMostOneClaim(sels)
  {
    SelectionEffect(t, k, sels);
    var t' := SetAccountCalendars(t, k, sels).value;
    hide SetAccountCalendars, IsPick, IsDestination;
    if AtMostOneClaim(sels) {
      assert t'.connections != map[] ==> exists l :: IsDestination(t', l) by {
        assert Claims(sels) ==> IsDestination(t', k);
        if !Claims(sels) {
          assert t.connections != map[];
          var l :| IsDestination(t, l);
          assert IsDestination(t', l);
        }
      }
      assert forall c :: IsPick(t', c) && c.0 == k ==> Claims(sels);
      forall c, d | IsPick(t', c) && IsPick(t', d) ensures c == d {
      }
    } else {
      var i, j :| 0 <= i < j < |sels| && sels[i].destination && sels[j].destination;
      assert IsPick(t', (k, sels[i].id)) && IsPick(t', (k, sels[j].id));
    }
  }

  lemma DisconnectOneAgrees(t: Tables, k: AccountKey, heir: Option<AccountKey>)
    requires Agree(t) && k in t.connections && Oldest(Without(t.connections, k), heir)
    ensures Agree(DisconnectOne(t, k, heir).value)
    ensures !IsDestination(t, k) ==>
              forall l :: IsDestination(DisconnectOne(t, k, heir).value, l) <==> IsDestination(t, l)
    ensures forall c :: IsPick(DisconnectOne(t, k, heir).value, c) <==> IsPick(t, c) && c.0 != k
  {
    hide TextLess;
    var t' := DisconnectOne(t, k, heir).value;
    var rest := Without(t.connections, k);
    assert forall c :: IsPick(t', c) <==> IsPick(t, c) && c.0 != k;
    if IsDestination(t, k) {
      assert forall l :: l in rest ==> !IsDestination(t, l);
      if heir.Some? {
        assert IsDestination(t', heir.value);
        assert forall l :: IsDestination(t', l) ==> l == heir.value;
      }
    } else {
      assert forall l :: IsDestination(t', l) <==> IsDestination(t, l);
    }
  }

  /** Every operation keeps the tables agreeing, unless a saved selection names two destinations. */
  lemma ApplyAgrees(t: Tables, op: Op)
    requires Agree(t) && op.Valid(t)
    requires op.OpSetCalendars? ==> AtMostOneClaim(op.sels)
    ensures Agree(Apply(t, op))
  {
    match op
    case OpSave(k, calendarId, now) => SaveAgrees(t, k, calendarId, now);
    case OpSeed(k, bound, found) =>
      SeedKeepsPicks(t, k, bound, found);
      var t' := Seed(t, k, bound, found);
      assert forall l :: IsDestination(t', l) <==> IsDestination(t, l);
    case OpSetDestination(k) => if k in t.connections { SetDestinationAgrees(t, k); }
    case OpSetCalendars(k, sels) => if SetAccountCalendars(t, k, sels).Some? { SelectionAgreesIff(t, k, sels); }
    case OpDisconnectOne(k, heir) => if k in t.connections { DisconnectOneAgrees(t, k, heir); }
    case OpDisconnect =>
  }

  /** The concrete selection that breaks the invariant. */
  lemma TwoClaimsDisagree()
    ensures var k := AccountKey("google", "a@x");
            var t := Save(EMPTY, k, "primary", "");
            var sels := [Selection("one", "", true, true), Selection("two", "", true, true)];
            Agree(t) && var r := SetAccountCalendars(t, k, sels);
            r.Some? && !Agree(r.value)
  {
    var k := AccountKey("google", "a@x");
    SaveAgrees(EMPTY, k, "primary", "");
    var t := Save(EMPTY, k, "primary", "");
    var sels := [Selection("one", "", true, true), Selection("two", "", true, true)];
    assert sels[0].destination && sels[1].destination && sels[0].id[0] == 'o' && sels[1].id[0] == 't';
    SelectionAgreesIff(t, k, sels);
  }

  // ---------- the write target ----------

  /**
   The calendar the write path may resolve: a pick inside the destination account, or the account's
   bound calendar when there is no pick or the pick has no id.
   */
  ghost predicate WritesTo(t: Tables, k: AccountKey, calendar: string) {
    && IsDestination(t, k)
    && if exists c :: IsPick(t, (k, c))
       then exists c :: IsPick(t, (k, c)) && calendar == PickOr(c, t.connections[k].calendarId)
       else calendar == t.connections[k].calendarId
  }

  function PickOr(pick: string, bound: string): string {
    if pick != "" then pick else bound
  }

  /** While the tables agree there is one write target for any connected user, and none otherwise. */
  lemma OneWriteTarget(t: Tables)
    requires Agree(t)
    ensures t.connections != map[] <==> exists k, c :: WritesTo(t, k, c)
    ensures forall k, c, l, d :: WritesTo(t, k, c) && WritesTo(t, l, d) ==> k == l && c == d
  {
    if t.connections != map[] {
      var k :| IsDestination(t, k);
      if c :| IsPick(t, (k, c)) {
        assert WritesTo(t, k, PickOr(c, t.connections[k].calendarId));
      } else {
        assert WritesTo(t, k, t.connections[k].calendarId);
      }
    }
    forall k, c, l, d | WritesTo(t, k, c) && WritesTo(t, l, d) ensures k == l && c == d {
      if exists e :: IsPick(t, (k, e)) {
        var e :| IsPick(t, (k, e)) && c == PickOr(e, t.connections[k].calendarId);
        var f :| IsPick(t, (k, f)) && d == PickOr(f, t.connections[k].calendarId);
        assert (k, e) == (k, f);
      }
    }
  }

  /** The user's pick: calendar c inside account k. */
  predicate Picked(t: Tables, k: AccountKey, c: string) {
    IsDestination(t, k) && IsPick(t, (k, c)) && c != ""
  }

  lemma PickedIsTarget(t: Tables, k: AccountKey, c: string)
    requires Picked(t, k, c)
    ensures WritesTo(t, k, c)
  {
  }

  predicate Keeps(sels: seq<Selection>, c: string) {
    exists i :: 0 <= i < |sels| && sels[i].id == c && sels[i].destination
  }

  /** The operations that are asked to move the target away from (k, c). */
  predicate Moves(t: Tables, op: Op, k: AccountKey, c: string) {
    match op
    case OpSave(_, _, _) => false
    case OpSeed(_, _, _) => false
    case OpSetDestination(l) => l in t.connections && l != k
    case OpSetCalendars(l, sels) =>
      SetAccountCalendars(t, l, sels).Some? && if l == k then !Keeps(sels, c) else Claims(sels)
    case OpDisconnectOne(l, _) => l == k
    case OpDisconnect => true
  }

  /** One step keeps a pick exactly when it is not one of the moving operations. */
  lemma PickStaysIff(t: Tables, op: Op, k: AccountKey, c: string)
    requires Agree(t) && op.Valid(t) && Picked(t, k, c)
    ensures Picked(Apply(t, op), k, c) <==> !Moves(t, op, k, c)
  {
    match op
    case OpSave(l, calendarId, now) =>
    case OpSeed(l, bound, found) => SeedKeepsPicks(t, l, bound, found);
    case OpSetDestination(l) => if l in t.connections { SetDestinationAgrees(t, l); }
    case OpSetCalendars(l, sels) =>
      if SetAccountCalendars(t, l, sels).Some? {
        SelectionEffect(t, l, sels);
        if l == k && Keeps(sels, c) {
          var i :| 0 <= i < |sels| && sels[i].id == c && sels[i].destination;
          assert sels[i] in sels;
        }
      }
    case OpDisconnectOne(l, heir) => if l in t.connections { DisconnectOneAgrees(t, l, heir); }
    case OpDisconnect =>
  }

  function Run(t: Tables, ops: seq<Op>): Tables
    decreases |ops|
  {
    if ops == [] then t else Run(Apply(t, ops[0]), ops[1..])
  }

  /** Every operation is valid, names at most one destination and is not a move away from (k, c). */
  ghost predicate Quiet(t: Tables, ops: seq<Op>, k: AccountKey, c: string)
    decreases |ops|
  {
    ops == [] ||
    (&& ops[0].Valid(t)
     && (ops[0].OpSetCalendars? ==> AtMostOneClaim(ops[0].sels))
     && !Moves(t, ops[0], k, c)
     && Quiet(Apply(t, ops[0]), ops[1..], k, c))
  }

  /** The pick stays the write target through any run of refreshes, reconnects, seeds, new
      connections, other disconnects and selections elsewhere. */
  lemma {:induction false} TargetIsStable(t: Tables, ops: seq<Op>, k: AccountKey, c: string)
    requires Agree(t) && Picked(t, k, c) && Quiet(t, ops, k, c)
    ensures Agree(Run(t, ops)) && Picked(Run(t, ops), k, c) && WritesTo(Run(t, ops), k, c)
    decreases |ops|
  {
    if ops == [] {
      PickedIsTarget(t, k, c);
    } else {
      hide Agree, Picked, Moves, Apply;
      PickStaysIff(t, ops[0], k, c);
      ApplyAgrees(t, ops[0]);
      TargetIsStable(Apply(t, ops[0]), ops[1..], k, c);
    }
  }

  ghost predicate ValidRun(t: Tables, ops: seq<Op>)
    decreases |ops|
  {
    ops == [] ||
    (&& ops[0].Valid(t)
     && (ops[0].OpSetCalendars? ==> AtMostOneClaim(ops[0].sels))
     && ValidRun(Apply(t, ops[0]), ops[1..]))
  }

  /** From no connections on, the tables agree after every run. */
  lemma {:induction false} EveryRunAgrees(t: Tables, ops: seq<Op>)
    requires Agree(t) && ValidRun(t, ops)
    ensures Agree(Run(t, ops))
    decreases |ops|
  {
    if ops != [] {
      hide Agree, Apply;
      ApplyAgrees(t, ops[0]);
      EveryRunAgrees(Apply(t, ops[0]), ops[1..]);
    }
  }

  // ---------- events written to the target ----------

  /** The account is known to use the collection: bound at its connection, or saved. */
  predicate Lists(t: Tables, k: AccountKey, url: string) {
    k in t.connections && (t.connections[k].calendarId == url || (k, url) in t.calendars)
  }

  lemma TargetIsListed(t: Tables, k: AccountKey, c: string)
    requires WritesTo(t, k, c)
    ensures Lists(t, k, c)
  {
  }

  /** accounts is the list of the user's CalDAV accounts as an update or cancel loads it. */
  ghost predicate Loaded(t: Tables, accounts: seq<EventOwner.Account>) {
    && (forall i, j :: 0 <= i < j < |accounts| ==> accounts[i].username != accounts[j].username)
    && (forall i :: 0 <= i < |accounts| ==> AccountKey("caldav", accounts[i].username) in t.connections)
    && (forall k :: k in t.connections && k.provider == "caldav" ==>
        exists i :: 0 <= i < |accounts| && accounts[i].username == k.email)
    && (forall i, url :: 0 <= i < |accounts| ==>
          (url in accounts[i].collections <==> Lists(t, AccountKey("caldav", accounts[i].username), url)))
  }

  predicate SameURL(a: string, b: string) {
    var u, v := EventOwner.ParseDAVURL(a), EventOwner.ParseDAVURL(b);
    u.Some? && v.Some? && EventOwner.SameCollection(u.value, v.value)
  }

  /** No other CalDAV account lists the collection of `url`. */
  ghost predicate SoleListing(t: Tables, k: AccountKey, url: string) {
    forall l, raw :: l != k && l.provider == "caldav" && Lists(t, l, raw) ==> !SameURL(raw, url)
  }

  /** The operations after which the account no longer lists the collection. */
  predicate Unlists(t: Tables, op: Op, k: AccountKey, url: string) {
    match op
    case OpSave(l, calendarId, _) => l == k && calendarId != url && (k, url) !in t.calendars
    case OpSeed(_, _, _) => false
    case OpSetDestination(_) => false
    case OpSetCalendars(l, sels) =>
      && l == k && SetAccountCalendars(t, l, sels).Some?
      && t.connections[k].calendarId != url && forall i :: 0 <= i < |sels| ==> sels[i].id != url
    case OpDisconnectOne(l, _) => l == k
    case OpDisconnect => true
  }

  /**
   One step keeps the account listing a collection exactly when it is none of these: a save of the
   account with another calendar, or a selection for it, where nothing else lists the collection;
   its disconnection; or that of everything.
   */
  lemma ListingStaysIff(t: Tables, op: Op, k: AccountKey, url: string)
    requires Lists(t, k, url)
    ensures Lists(Apply(t, op), k, url) <==> !Unlists(t, op, k, url)
  {
    match op
    case OpSeed(l, bound, found) => SeedKeepsPicks(t, l, bound, found);
    case OpSetCalendars(l, sels) =>
      if SetAccountCalendars(t, l, sels).Some? {
        SavedRowsAre(l, sels);
      }
    case _ =>
  }

  ghost predicate StaysListed(t: Tables, ops: seq<Op>, k: AccountKey, url: string)
    decreases |ops|
  {
    ops != [] ==> !Unlists(t, ops[0], k, url) && StaysListed(Apply(t, ops[0]), ops[1..], k, url)
  }

  /** At every point of the run the account lists the collection. */
  ghost predicate ListsThroughout(t: Tables, ops: seq<Op>, k: AccountKey, url: string)
    decreases |ops|
  {
    Lists(t, k, url) && (ops != [] ==> ListsThroughout(Apply(t, ops[0]), ops[1..], k, url))
  }

  lemma {:induction false} RunListsIff(t: Tables, ops: seq<Op>, k: AccountKey, url: string)
    requires Lists(t, k, url)
    ensures ListsThroughout(t, ops, k, url) <==> StaysListed(t, ops, k, url)
    ensures StaysListed(t, ops, k, url) ==> Lists(Run(t, ops), k, url)
    decreases |ops|
  {
    if ops != [] {
      hide Apply, Unlists, Lists;
      ListingStaysIff(t, ops[0], k, url);
      if Lists(Apply(t, ops[0]), k, url) {
        RunListsIff(Apply(t, ops[0]), ops[1..], k, url);
      }
    }
  }

  /** In any tables: an event of a collection that one account alone lists is routed to that account. */
  lemma ListedEventsFindTheirAccount(
      t: Tables, email: string, url: string, name: string, accounts: seq<EventOwner.Account>)
    requires EventOwner.ParseDAVURL(url).Some? && '?' !in url && '#' !in url
    requires name != "" && '?' !in name && '#' !in name
    requires Loaded(t, accounts)
    requires Lists(t, AccountKey("caldav", email), url) && SoleListing(t, AccountKey("caldav", email), url)
    ensures EventOwner.ParseDAVURL(EventOwner.JoinURL(url, name)).Some?
    ensures exists i :: 0 <= i < |accounts| && accounts[i].username == email &&
              EventOwner.Owns(accounts, EventOwner.ParseDAVURL(url),
                  EventOwner.ParseDAVURL(EventOwner.JoinURL(url, name)).value, i)
  {
    hide Lists, EventOwner.ParseDAVURL, EventOwner.SameCollection, EventOwner.JoinURL, EventOwner.Owns;
    var k := AccountKey("caldav", email);
    assert k in t.connections by { ListsConnected(t, k, url); }
    var i :| 0 <= i < |accounts| && accounts[i].username == email;
    forall j, raw | 0 <= j < |accounts| && j != i && raw in accounts[j].collections && EventOwner.ParseDAVURL(raw).Some?
      ensures !EventOwner.SameCollection(EventOwner.ParseDAVURL(raw).value, EventOwner.ParseDAVURL(url).value)
    {
      assert Lists(t, AccountKey("caldav", accounts[j].username), raw);
      assert !SameURL(raw, url);
    }
    EventOwner.RoutingIsStable(accounts, i, url, name);
  }

  /**
   An event written while (email, url) was the write target, picked or merely bound, is routed to that
   same account after any run of which no step unlists the collection, as long as no other account
   lists it then.
   */
  lemma WrittenEventsFindTheirAccount(
      t: Tables, ops: seq<Op>, email: string, url: string, name: string, accounts: seq<EventOwner.Account>)
    requires WritesTo(t, AccountKey("caldav", email), url) && StaysListed(t, ops, AccountKey("caldav", email), url)
    requires EventOwner.ParseDAVURL(url).Some? && '?' !in url && '#' !in url
    requires name != "" && '?' !in name && '#' !in name
    requires Loaded(Run(t, ops), accounts) && SoleListing(Run(t, ops), AccountKey("caldav", email), url)
    ensures EventOwner.ParseDAVURL(EventOwner.JoinURL(url, name)).Some?
    ensures exists i :: 0 <= i < |accounts| && accounts[i].username == email &&
              EventOwner.Owns(accounts, EventOwner.ParseDAVURL(url),
                  EventOwner.ParseDAVURL(EventOwner.JoinURL(url, name)).value, i)
  {
    var k := AccountKey("caldav", email);
    hide Loaded, SoleListing, EventOwner.ParseDAVURL, EventOwner.Owns, Lists, WritesTo, StaysListed;
    TargetIsListed(t, k, url);
    RunListsIff(t, ops, k, url);
    ListedEventsFindTheirAccount(Run(t, ops), email, url, name, accounts);
  }

  lemma ListsConnected(t: Tables, k: AccountKey, url: string)
    requires Lists(t, k, url)
    ensures k in t.connections
  {
  }

  /** For a pick that is not moved, listing is not even a condition: the pick itself is listed. */
  lemma PicksKeepTheirEvents(
      t: Tables, ops: seq<Op>, email: string, url: string, name: string, accounts: seq<EventOwner.Account>)
    requires var k := AccountKey("caldav", email);
             Agree(t) && Picked(t, k, url) && Quiet(t, ops, k, url)
    requires EventOwner.ParseDAVURL(url).Some? && '?' !in url && '#' !in url
    requires name != "" && '?' !in name && '#' !in name
    requires Loaded(Run(t, ops), accounts) && SoleListing(Run(t, ops), AccountKey("caldav", email), url)
    ensures EventOwner.ParseDAVURL(EventOwner.JoinURL(url, name)).Some?
    ensures exists i :: 0 <= i < |accounts| && accounts[i].username == email &&
              EventOwner.Owns(accounts, EventOwner.ParseDAVURL(url),
                  EventOwner.ParseDAVURL(EventOwner.JoinURL(url, name)).value, i)
  {
    var k := AccountKey("caldav", email);
    TargetIsStable(t, ops, k, url);
    PickedIsTarget(t, k, url);
    hide Loaded, SoleListing, EventOwner.ParseDAVURL, EventOwner.Owns, Quiet, Agree, Picked;
    TargetIsListed(Run(t, ops), k, url);
    ListedEventsFindTheirAccount(Run(t, ops), email, url, name, accounts);
  }

  // ---------- what a token refresh remembers ----------

  /**
   A token refresh on the write path saves the account row again. Google's saver was handed the
   resolved target; every other provider writes back the bound calendar it read from the row.
   */
  function Refresh(t: Tables, k: AccountKey, target: string, now: string): Tables
    requires k in t.connections
  {
    Save(t, k, if k.provider == "google" then target else t.connections[k].calendarId, now)
  }

  /**
   Taking a pick back restores the account's bound calendar as the write target, unless a Google token
   was refreshed meanwhile: that has bound the pick itself. So after a refresh the original calendar
   returns if and only if the account is not Google's or the original was the pick.
   */
  lemma RefreshRemembersPick(t: Tables, k: AccountKey, c: string, now: string, sels: seq<Selection>)
    requires Agree(t) && Picked(t, k, c) && DistinctIds(sels) && !Claims(sels)
    ensures var plain := SetAccountCalendars(t, k, sels);
            plain.Some? && forall d :: WritesTo(plain.value, k, d) <==> d == t.connections[k].calendarId
    ensures var bound, refreshed := t.connections[k].calendarId, SetAccountCalendars(Refresh(t, k, c, now), k, sels);
            && refreshed.Some?
            && (forall d :: WritesTo(refreshed.value, k, d) <==> d == if k.provider == "google" then c else bound)
            && (WritesTo(refreshed.value, k, bound) <==> k.provider != "google" || c == bound)
  {
    UnpickedWritesToBound(t, k, sels);
    UnpickedWritesToBound(Refresh(t, k, c, now), k, sels);
  }

  /** A Google account bound to "primary" with "work" picked; the pick is taken back after a refresh. */
  lemma GoogleKeepsWriting()
    ensures var k := AccountKey("google", "a@x");
            var picked := SetAccountCalendars(Save(EMPTY, k, "primary", ""), k, [Selection("work", "", true, true)]);
            && picked.Some?
            && var refreshed := Refresh(picked.value, k, "work", "");
            var back := SetAccountCalendars(refreshed, k, [Selection("work", "", true, false)]);
            back.Some? && WritesTo(back.value, k, "work") && !WritesTo(back.value, k, "primary")
  {
    var k := AccountKey("google", "a@x");
    var t := Save(EMPTY, k, "primary", "");
    var pick, unpick := [Selection("work", "", true, true)], [Selection("work", "", true, false)];
    assert pick[0] in pick && pick[0].destination && DistinctIds(pick);
    assert forall s :: s in unpick ==> s == unpick[0];
    assert "work"[0] != "primary"[0];
    SaveAgrees(EMPTY, k, "primary", "");
    SelectionAgreesIff(t, k, pick);
    SelectionEffect(t, k, pick);
    var picked := SetAccountCalendars(t, k, pick).value;
    assert IsPick(picked, (k, "work")) && IsDestination(picked, k);
    assert picked.connections[k].calendarId == "primary";
    hide SetAccountCalendars, Save, Agree, WritesTo;
    RefreshRemembersPick(picked, k, "work", "", unpick);
  }

  lemma UnpickedWritesToBound(t: Tables, k: AccountKey, sels: seq<Selection>)
    requires IsDestination(t, k) && DistinctIds(sels) && !Claims(sels)
    ensures var t' := SetAccountCalendars(t, k, sels);
            t'.Some? && forall d :: WritesTo(t'.value, k, d) <==> d == t.connections[k].calendarId
  {
    SelectionEffect(t, k, sels);
    var t' := SetAccountCalendars(t, k, sels).value;
    assert forall i :: 0 <= i < |sels| ==> sels[i] in sels && !sels[i].destination;
    assert forall c :: !IsPick(t', (k, c));
  }

  // ---------- the tables in place ----------

  lemma {:induction false} NotAfterTwice(a: string, b: string, c: string)
    requires !TextLess(b, a) && !TextLess(c, b)
    ensures !TextLess(c, a)
  {
    if a != "" && b != "" && c != "" && a[0] == b[0] == c[0] {
      NotAfterTwice(a[1..], b[1..], c[1..]);
    }
  }

  class Store {
    var connections: map<AccountKey, Connection>
    var calendars: map<CalendarKey, Saved>

    function Contents(): Tables
      reads this
    {
      Tables(connections, calendars)
    }

    constructor ()
      ensures Contents() == EMPTY && Agree(Contents())
    {
      connections, calendars := map[], map[];
    }

    method SaveConnection(k: AccountKey, calendarId: string, now: string)
      modifies this
      ensures Contents() == Save(old(Contents()), k, calendarId, now)
    {
      var t := Contents();
      var flags := ResolveFlags(t, k);
      connections := Without(connections, k);
      connections := connections[k := Connection(calendarId, flags.checks, flags.destination, now)];
      assert connections == t.connections[k := Connection(calendarId, flags.checks, flags.destination, now)];
    }

    method SeedDiscoveredCalendars(k: AccountKey, bound: string, found: seq<Found>)
      modifies this`calendars
      ensures Contents() == Seed(old(Contents()), k, bound, found)
    {
      var t := Contents();
      for i := 0 to |found|
        invariant Contents() == Seed(t, k, bound, found[..i])
      {
        assert found[..i + 1][..i] == found[..i];
        var key := (k, found[i].url);
        if key in calendars {
          calendars := calendars[key := calendars[key].(name := found[i].name)];
        } else {
          calendars := calendars[key := Saved(found[i].name, found[i].url == bound, false)];
        }
      }
      assert found[..|found|] == found;
    }

    method SetDestinationAccount(k: AccountKey) returns (ok: bool)
      modifies this
      ensures ok <==> SetDestination(old(Contents()), k).Some?
      ensures Contents() == OrElse(SetDestination(old(Contents()), k), old(Contents()))
    {
      if k !in connections {
        return false;
      }
      connections := OnlyDestination(connections, k);
      calendars := map c | c in calendars.Keys ::
        if c.0 == k then calendars[c] else calendars[c].(destination := false);
      ok := true;
    }

    method SetCalendars(k: AccountKey, sels: seq<Selection>) returns (ok: bool)
      modifies this
      ensures ok <==> SetAccountCalendars(old(Contents()), k, sels).Some?
      ensures Contents() == OrElse(SetAccountCalendars(old(Contents()), k, sels), old(Contents()))
    {
      if k !in connections {
        return false;
      }
      var claims := false;
      for i := 0 to |sels|
        invariant Contents() == old(Contents())
        invariant claims <==> Claims(sels[..i])
      {
        assert sels[..i + 1] == sels[..i] + [sels[i]];
        claims := claims || sels[i].destination;
      }
      assert sels[..|sels|] == sels;
      var others := OtherRows(Contents(), k, claims);
      assert DistinctIds(sels[..0]) && SavedRows(k, sels[..0]) == map[];
      hide DistinctIds, SavedRows, OtherRows, OnlyDestination;
      var rows: map<CalendarKey, Saved> := map[];
      for i := 0 to |sels|
        invariant Contents() == old(Contents())
        invariant DistinctIds(sels[..i]) && rows == SavedRows(k, sels[..i])
      {
        OneMoreSelection(k, sels, i);
        if (k, sels[i].id) in rows {
          return false;
        }
        rows := rows[(k, sels[i].id) := Saved(sels[i].name, sels[i].checks, sels[i].destination)];
      }
      if claims {
        connections := OnlyDestination(connections, k);
      }
      calendars := others + rows;
      ok := true;
    }

    /** ORDER BY created_at ASC LIMIT 1; which of several equally old rows comes first is left open. */
    static method OldestOf(rows: map<AccountKey, Connection>) returns (heir: Option<AccountKey>)
      ensures Oldest(rows, heir)
    {
      heir := None;
      var todo := rows.Keys;
      while todo != {}
        invariant todo <= rows.Keys
        invariant heir.None? ==> todo == rows.Keys
        invariant heir.Some? ==>
                    && heir.value in rows
                    && forall k :: k in rows && k !in todo ==> !TextLess(rows[k].createdAt, rows[heir.value].createdAt)
      {
        var k :| k in todo;
        todo := todo - {k};
        if heir.None? {
          NotBoth(rows[k].createdAt, rows[k].createdAt);
          heir := Some(k);
        } else if TextLess(rows[k].createdAt, rows[heir.value].createdAt) {
          var a, b := rows[k].createdAt, rows[heir.value].createdAt;
          NotBoth(a, b);
          NotBoth(a, a);
          forall l | l in rows && l !in todo ensures !TextLess(rows[l].createdAt, a) {
            if l != k {
              NotAfterTwice(a, b, rows[l].createdAt);
            }
          }
          heir := Some(k);
        }
      }
    }

    method DisconnectAccount(k: AccountKey) returns (ok: bool, ghost heir: Option<AccountKey>)
      modifies this
      ensures ok <==> k in old(connections)
      ensures ok ==> Oldest(Without(old(connections), k), heir)
      ensures Contents() == OrElse(DisconnectOne(old(Contents()), k, heir), old(Contents()))
    {
      heir := None;
      if k !in connections {
        return false, None;
      }
      var wasDestination := connections[k].destination;
      connections := Without(connections, k);
      calendars := map c | c in calendars.Keys && c.0 != k :: calendars[c];
      var next := OldestOf(connections);
      heir := next;
      if wasDestination && next.Some? {
        connections := connections[next.value := connections[next.value].(destination := true)];
      }
      ok := true;
    }

    method DisconnectAll()
      modifies this
      ensures Contents() == EMPTY
    {
      connections, calendars := map[], map[];
    }
  }
}
