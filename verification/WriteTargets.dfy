/**
 What the overlap guard knows of the calendars that bookings are written to. It reads the saved
 calendars flagged as destination; the write path also writes to calendars that are merely bound.
 */
module WriteTargets {
  import opened Bookings
  import Routing
  import opened Seats
  import opened SharedCalendars

  /** A user's saved calendars as the guard's query reads them. */
  function RowsOf(user: User, t: Routing.Tables): set<CalendarRow> {
    set c | c in t.calendars.Keys ::
      CalendarRow(user, c.0.provider, c.0.email, c.1, t.calendars[c].checks, t.calendars[c].destination)
  }

  /** The guard reads the tables of these users. */
  ghost predicate Reads(st: State, users: map<User, Routing.Tables>) {
    forall r :: r in st.calendars <==> r.user in users && r in RowsOf(r.user, users[r.user])
  }

  /** The user reads this calendar for conflicts. */
  predicate ChecksIt(t: Routing.Tables, c: Routing.CalendarKey) {
    c in t.calendars && t.calendars[c].checks
  }

  function RowOf(user: User, t: Routing.Tables, c: Routing.CalendarKey): CalendarRow
    requires c in t.calendars
  {
    CalendarRow(user, c.0.provider, c.0.email, c.1, t.calendars[c].checks, t.calendars[c].destination)
  }

  lemma RowIsRead(st: State, users: map<User, Routing.Tables>, u: User, c: Routing.CalendarKey)
    requires Reads(st, users) && u in users && c in users[u].calendars
    ensures RowOf(u, users[u], c) in st.calendars
  {
    assert RowOf(u, users[u], c) in RowsOf(u, users[u]);
  }

  /** One user is counted against another exactly through a pick of theirs that the other checks. */
  lemma CountsThroughPicks(st: State, users: map<User, Routing.Tables>, u: User, v: User)
    requires Reads(st, users) && u in users && v in users && u != v
    ensures CountsAgainst(st, u, v) <==>
            exists c: Routing.CalendarKey :: ChecksIt(users[u], c) && Routing.IsPick(users[v], c)
  {
    if CountsAgainst(st, u, v) {
      var a, b :| a in st.calendars && b in st.calendars && a.user == u && a.checks && b.user == v && b.destination &&
        b.provider == a.provider && b.account == a.account && b.calendar == a.calendar;
      var c := (Routing.AccountKey(a.provider, a.account), a.calendar);
      assert a in RowsOf(u, users[u]) && b in RowsOf(v, users[v]);
      assert ChecksIt(users[u], c) && Routing.IsPick(users[v], c);
    }
    if c: Routing.CalendarKey :| ChecksIt(users[u], c) && Routing.IsPick(users[v], c) {
      RowIsRead(st, users, u, c);
      RowIsRead(st, users, v, c);
      var a, b := RowOf(u, users[u], c), RowOf(v, users[v], c);
      assert a.user == u && a.checks && b.user == v && b.destination;
    }
  }

  /**
   The guard and the write path: when one user checks the very calendar another's bookings are written
   to, the guard counts the other exactly if that calendar is a pick. A target that is merely bound to
   the account, as after a first connect, it does not see.
   */
  lemma GuardSeesPicksOnly(
      st: State, users: map<User, Routing.Tables>, u: User, v: User, k: Routing.AccountKey, c: string)
    requires Reads(st, users) && u in users && v in users && u != v
    requires Routing.Agree(users[v]) && Routing.WritesTo(users[v], k, c) && ChecksIt(users[u], (k, c))
    requires forall d: Routing.CalendarKey :: Routing.IsPick(users[v], d) ==> d.1 != ""
    ensures CountsAgainst(st, u, v) <==> Routing.IsPick(users[v], (k, c))
  {
    hide CountsAgainst, Reads;
    CountsThroughPicks(st, users, u, v);
    if d: Routing.CalendarKey :| ChecksIt(users[u], d) && Routing.IsPick(users[v], d) {
      assert d.0 == k && d == (k, d.1);
      var e :| Routing.IsPick(users[v], (k, e)) && c == Routing.PickOr(e, users[v].connections[k].calendarId);
      assert (k, e) == d;
    }
  }

  const TEAM: Routing.AccountKey := Routing.AccountKey("google", "team@example.com")

  /** Bob has just connected the team account; Ada has too, and checks its calendar for conflicts. */
  function Connected(): Routing.Tables {
    Routing.Tables(map[TEAM := Routing.Connection("primary", true, true, "")], map[])
  }

  function Checking(): Routing.Tables {
    Connected().(calendars := map[(TEAM, "primary") := Routing.Saved("", true, false)])
  }

  const TEAM_ROW: CalendarRow := CalendarRow("ada", "google", "team@example.com", "primary", true, false)
  const TEAM_STATE: State := EMPTY.(calendars := {TEAM_ROW})

  lemma TeamTables()
    ensures var users := map["ada" := Checking(), "bob" := Connected()];
            && Reads(TEAM_STATE, users) && Routing.WritesTo(Connected(), TEAM, "primary")
            && ChecksIt(Checking(), (TEAM, "primary"))
    ensures !CountsAgainst(TEAM_STATE, "ada", "bob") && !CountsAgainst(TEAM_STATE, "bob", "ada")
  {
    assert "ada"[0] != "bob"[0];
    assert forall r :: r in RowsOf("ada", Checking()) <==> r == TEAM_ROW;
    assert RowsOf("bob", Connected()) == {};
    assert TEAM_ROW in TEAM_STATE.calendars;
  }

  /**
   Ada checks the calendar Bob's bookings are written to, and still both are booked for the same hour,
   in either order.
   */
  lemma BoundTargetsAreUnseen(clock: Clock)
    ensures Routing.WritesTo(Connected(), TEAM, "primary") && ChecksIt(Checking(), (TEAM, "primary"))
    ensures Create(Create(TEAM_STATE, HourWith("bob"), "a", clock).0, HourWith("ada"), "b", clock).1.Ok?
    ensures Create(Create(TEAM_STATE, HourWith("ada"), "b", clock).0, HourWith("bob"), "a", clock).1.Ok?
  {
    TeamTables();
    HourTexts();
    assert Ready(TEAM_STATE, HourWith("bob"), "a", "bob") && Ready(TEAM_STATE, HourWith("ada"), "b", "ada");
    hide Create, CountsAgainst, Ready, Routing.WritesTo, ChecksIt;
    assert "ada" != "bob" by { assert "ada"[0] != "bob"[0]; }
    assert "a" != "b" by { assert "a"[0] != "b"[0]; }
    OrderMattersExactly(TEAM_STATE, HourWith("bob"), "a", "bob", clock, HourWith("ada"), "b", "ada", clock);
  }
}
