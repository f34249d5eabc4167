/**
 What each operation on a user's connections leaves alone: the flags, names and bound calendars the user
 did not ask to change.
 */
module RoutingFrames {
  import opened Options
  import opened Routing

  // ---------- one operation ----------

  /**
   Saving an account writes its calendar and time and keeps both flags it had; a first save checks it for
   conflicts, and makes it the destination if nobody is. No other row of either table changes.
   */
  lemma SaveKeepsFlags(t: Tables, k: AccountKey, calendarId: string, now: string)
    ensures var t' := Save(t, k, calendarId, now);
            && k in t'.connections && var row := t'.connections[k];
            && row.calendarId == calendarId && row.createdAt == now
            && (k in t.connections ==> row.checks == t.connections[k].checks)
            && (k in t.connections ==> row.destination == t.connections[k].destination)
            && (k !in t.connections ==> row.checks && (row.destination <==> forall l :: !IsDestination(t, l)))
            && (forall l :: l != k ==> (l in t'.connections <==> l in t.connections))
            && (forall l :: l != k && l in t.connections ==> t'.connections[l] == t.connections[l])
            && t'.calendars == t.calendars
  {
    if HasDestination(t) {
      var l :| l in t.connections.Keys && t.connections[l].destination;
      assert IsDestination(t, l);
    }
  }

  /** The rows are those of before, but for who is the destination. */
  ghost predicate SameConnections(was: map<AccountKey, Connection>, rows: map<AccountKey, Connection>) {
    && rows.Keys == was.Keys
    && forall l :: l in was ==> rows[l].(destination := was[l].destination) == was[l]
  }

  /**
   Choosing a destination account writes nothing but destination flags: it alone has one, and saved calendars
   of other accounts lose theirs.
   */
  lemma SetDestinationWrites(t: Tables, k: AccountKey)
    requires k in t.connections
    ensures SetDestination(t, k).Some?
    ensures var t' := SetDestination(t, k).value;
            && SameConnections(t.connections, t'.connections)
            && (forall l :: l in t'.connections ==> (t'.connections[l].destination <==> l == k))
            && t'.calendars.Keys == t.calendars.Keys
            && forall c :: c in t.calendars ==>
                 && t'.calendars[c].name == t.calendars[c].name && t'.calendars[c].checks == t.calendars[c].checks
                 && (t'.calendars[c].destination <==> t.calendars[c].destination && c.0 == k)
  {
  }

  /**
   A saved selection replaces the saved calendars of its account by exactly the selected ones. If it claims the
   destination, its account alone is the destination and other accounts' saved calendars lose their flags;
   all else stays.
   */
  lemma SelectionWrites(t: Tables, k: AccountKey, sels: seq<Selection>)
    requires k in t.connections && DistinctIds(sels)
    ensures SetAccountCalendars(t, k, sels).Some?
    ensures var t', claims := SetAccountCalendars(t, k, sels).value, exists s :: s in sels && s.destination;
            && SameConnections(t.connections, t'.connections)
            && (forall l :: l in t.connections ==>
                  t'.connections[l].destination == if claims then l == k else t.connections[l].destination)
            && (forall c: CalendarKey :: c.0 != k ==> (c in t'.calendars <==> c in t.calendars))
            && (forall c: CalendarKey :: c.0 != k && c in t.calendars ==>
                  t'.calendars[c] == t.calendars[c].(destination := t.calendars[c].destination && !claims))
            && (forall c: CalendarKey :: c.0 == k ==> (c in t'.calendars <==> Routing.Selects(sels, c.1)))
            && forall i :: 0 <= i < |sels| ==>
                 && (k, sels[i].id) in t'.calendars
                 && t'.calendars[(k, sels[i].id)] == Saved(sels[i].name, sels[i].checks, sels[i].destination)
  {
    SavedRowsAre(k, sels);
    hide SavedRows, DistinctIds;
    var t' := SetAccountCalendars(t, k, sels).value;
    assert forall c :: c in SavedRows(k, sels) ==> c.0 == k;
    forall i | 0 <= i < |sels|
      ensures (k, sels[i].id) in t'.calendars
      ensures t'.calendars[(k, sels[i].id)] == Saved(sels[i].name, sels[i].checks, sels[i].destination)
    {
      assert (k, sels[i].id) in SavedRows(k, sels);
    }
  }

  /**
   Disconnecting an account removes its connection and its saved calendars and touches no other row, except
   that the heir takes over a vacated destination.
   */
  lemma DisconnectWrites(t: Tables, k: AccountKey, heir: Option<AccountKey>)
    requires k in t.connections
    ensures DisconnectOne(t, k, heir).Some?
    ensures var t' := DisconnectOne(t, k, heir).value;
            && (forall l :: l in t'.connections <==> l in t.connections && l != k)
            && (forall l :: l in t'.connections ==>
                  t'.connections[l] ==
                  t.connections[l].(destination :=
                    t.connections[l].destination || (t.connections[k].destination && heir == Some(l))))
            && (forall c :: c in t'.calendars <==> c in t.calendars && c.0 != k)
            && (forall c :: c in t'.calendars ==> t'.calendars[c] == t.calendars[c])
  {
    var t' := DisconnectOne(t, k, heir).value;
    forall l ensures l in t'.connections <==> l in t.connections && l != k {
      assert l in Without(t.connections, k) <==> l in t.connections && l != k;
    }
  }

  // ---------- whole runs ----------

  /** The operation disconnects the account, alone or with all others. */
  predicate Drops(op: Op, k: AccountKey) {
    (op.OpDisconnectOne? && op.k == k) || op.OpDisconnect?
  }

  /** The operation saves the account itself. */
  predicate Saves(op: Op, k: AccountKey) {
    op.OpSave? && op.k == k
  }

  /** One operation keeps the account, its conflict flag, and, but for a save of it, its bound calendar and time. */
  lemma StepKeepsChecks(t: Tables, op: Op, k: AccountKey)
    requires k in t.connections && !Drops(op, k)
    ensures var t' := Apply(t, op);
            && k in t'.connections && t'.connections[k].checks == t.connections[k].checks
            && (!Saves(op, k) ==>
                  && t'.connections[k].calendarId == t.connections[k].calendarId
                  && t'.connections[k].createdAt == t.connections[k].createdAt)
  {
    hide Save, Seed, SetDestination, SetAccountCalendars, DisconnectOne;
    match op
    case OpSave(l, calendarId, now) => SaveKeepsFlags(t, l, calendarId, now);
    case OpSeed(l, bound, found) => SeedKeepsPicks(t, l, bound, found);
    case OpSetDestination(l) =>
      if l in t.connections { SetDestinationWrites(t, l); } else { Refused(t, l, [], None); }
    case OpSetCalendars(l, sels) =>
      Refused(t, l, sels, None);
      if l in t.connections && DistinctIds(sels) { SelectionWrites(t, l, sels); }
    case OpDisconnectOne(l, heir) =>
      if l in t.connections { DisconnectWrites(t, l, heir); } else { Refused(t, l, [], heir); }
    case OpDisconnect =>
  }

  /** What is refused: an account that is not connected, and a selection that repeats an id. */
  lemma Refused(t: Tables, k: AccountKey, sels: seq<Selection>, heir: Option<AccountKey>)
    ensures k !in t.connections ==> SetDestination(t, k).None? && DisconnectOne(t, k, heir).None?
    ensures k !in t.connections || !DistinctIds(sels) ==> SetAccountCalendars(t, k, sels).None?
  {
  }

  /**
   From its connection until it is disconnected, an account keeps its conflict flag through any run of token
   refreshes, reconnects, rediscoveries, selections and other accounts' operations.
   */
  lemma {:induction false} ChecksStay(t: Tables, ops: seq<Op>, k: AccountKey)
    requires k in t.connections && forall op :: op in ops ==> !Drops(op, k)
    ensures k in Run(t, ops).connections && Run(t, ops).connections[k].checks == t.connections[k].checks
    ensures (forall op :: op in ops ==> !Saves(op, k)) ==>
              Run(t, ops).connections[k].calendarId == t.connections[k].calendarId
    decreases |ops|
  {
    hide Apply;
    if ops != [] {
      StepKeepsChecks(t, ops[0], k);
      ChecksStay(Apply(t, ops[0]), ops[1..], k);
    }
  }

  /** The operation saves a selection for the account. */
  predicate Reselects(op: Op, k: AccountKey) {
    op.OpSetCalendars? && op.k == k
  }

  lemma StepKeepsSaved(t: Tables, op: Op, c: CalendarKey)
    requires c in t.calendars && !Drops(op, c.0) && !Reselects(op, c.0)
    ensures var t' := Apply(t, op);
            && c in t'.calendars && t'.calendars[c].checks == t.calendars[c].checks
            && (!(op.OpSeed? && op.k == c.0) ==> t'.calendars[c].name == t.calendars[c].name)
            && (t'.calendars[c].destination ==> t.calendars[c].destination)
  {
    hide Save, Seed, SetDestination, SetAccountCalendars, DisconnectOne;
    match op
    case OpSave(l, calendarId, now) => SaveKeepsFlags(t, l, calendarId, now);
    case OpSeed(l, bound, found) => SeedKeepsFlags(t, l, bound, found, c);
    case OpSetDestination(l) =>
      if l in t.connections { SetDestinationWrites(t, l); } else { Refused(t, l, [], None); }
    case OpSetCalendars(l, sels) =>
      Refused(t, l, sels, None);
      if l in t.connections && DistinctIds(sels) { SelectionWrites(t, l, sels); }
    case OpDisconnectOne(l, heir) =>
      if l in t.connections { DisconnectWrites(t, l, heir); } else { Refused(t, l, [], heir); }
    case OpDisconnect =>
  }

  /**
   A saved calendar keeps its conflict flag through any run without a selection for its account or a
   disconnection of it, and does not become the pick by itself.
   */
  lemma {:induction false} SavedChecksStay(t: Tables, ops: seq<Op>, c: CalendarKey)
    requires c in t.calendars && forall op :: op in ops ==> !Drops(op, c.0) && !Reselects(op, c.0)
    ensures c in Run(t, ops).calendars && Run(t, ops).calendars[c].checks == t.calendars[c].checks
    ensures Run(t, ops).calendars[c].destination ==> t.calendars[c].destination
    decreases |ops|
  {
    hide Apply;
    if ops != [] {
      StepKeepsSaved(t, ops[0], c);
      SavedChecksStay(Apply(t, ops[0]), ops[1..], c);
    }
  }
}
