/**
 Which connected CalDAV account an update or cancel of an event is sent as: URL containment and
 the one-pass choice of the single best account.
 */
module EventOwner {
  import opened ContentLines
  import opened Options

  // ---------- URLs ----------

  /** The part of a CalDAV URL that decides where a request goes. */
  datatype DavURL = DavURL(scheme: string, host: string, port: string, path: string)

  function Lower(s: string): string {
    seq(|s|, i requires 0 <= i < |s| => if 'A' <= s[i] <= 'Z' then s[i] - 'A' + 'a' else s[i])
  }

  /** s up to the first c. */
  function Before(s: string, c: char): (r: string)
    ensures r <= s && c !in r && (|r| < |s| ==> s[|r|] == c)
  {
    if s == "" || s[0] == c then "" else [s[0]] + Before(s[1..], c)
  }

  /** s after the last c, or all of it. */
  function AfterLast(s: string, c: char): string {
    if c !in s then s else AfterLast(s[1..], c)
  }

  function TrimSlashes(s: string): string {
    if s != "" && s[|s| - 1] == '/' then TrimSlashes(s[..|s| - 1]) else s
  }

  /** Host and explicit port of an authority, without user information. */
  function HostPort(authority: string, scheme: string): Option<(string, string)> {
    var hp := AfterLast(authority, '@');
    var host := Before(hp, ':');
    var port := if |host| < |hp| then hp[|host| + 1..] else "";
    if host == "" || !AllDigits(port) then None
    else Some((Lower(host), if port != "" then port else if scheme == "http" then "80" else "443"))
  }

  /** scheme://authority/path, fragment and query dropped. */
  datatype Parts = Parts(scheme: string, authority: string, path: string)

  function Cut(raw: string): Option<Parts> {
    var r := Before(Before(raw, '#'), '?');
    var s := Before(r, ':');
    if !(s + "://" <= r) then None
    else
      var rest := r[|s| + 3..];
      var authority := Before(rest, '/');
      Some(Parts(s, authority, rest[|authority|..]))
  }

  /** An absolute http(s) URL with a host. */
  function ParseDAVURL(raw: string): Option<DavURL> {
    var cut := Cut(raw);
    if cut.None? then None
    else
      var scheme := Lower(cut.value.scheme);
      if scheme != "http" && scheme != "https" then None
      else
        var hp := HostPort(cut.value.authority, scheme);
        if hp.None? then None else Some(DavURL(scheme, hp.value.0, hp.value.1, cut.value.path))
  }

  predicate SameOrigin(d: DavURL, o: DavURL) {
    d.scheme == o.scheme && d.host == o.host && d.port == o.port
  }

  /** resource lies inside the collection d, at a segment boundary. */
  predicate Contains(d: DavURL, resource: DavURL) {
    var dir := TrimSlashes(d.path) + "/";
    SameOrigin(d, resource) && dir < resource.path
  }

  predicate SameCollection(d: DavURL, o: DavURL) {
    SameOrigin(d, o) && TrimSlashes(d.path) == TrimSlashes(o.path)
  }

  function JoinURL(base: string, name: string): string {
    TrimSlashes(base) + "/" + name
  }

  // ---------- accounts ----------

  /** One connected account with every collection URL it is known to use. */
  datatype Account = Account(username: string, collections: seq<string>)

  predicate Holds(raw: string, ev: DavURL) {
    var c := ParseDAVURL(raw);
    c.Some? && Contains(c.value, ev)
  }

  /** The collection is the one recorded when the event was written. */
  predicate Recorded(raw: string, cal: Option<DavURL>, ev: DavURL) {
    var c := ParseDAVURL(raw);
    Holds(raw, ev) && cal.Some? && SameCollection(c.value, cal.value)
  }

  function DepthOf(raw: string, ev: DavURL): int {
    var c := ParseDAVURL(raw);
    if Holds(raw, ev) then |TrimSlashes(c.value.path)| else -1
  }

  function MaxDepth(raws: seq<string>, ev: DavURL): int {
    if raws == [] then -1
    else
      var d := DepthOf(raws[|raws| - 1], ev);
      var m := MaxDepth(raws[..|raws| - 1], ev);
      if d > m then d else m
  }

  predicate HeldBy(a: Account, ev: DavURL) {
    exists raw :: raw in a.collections && Holds(raw, ev)
  }

  predicate ExactFor(a: Account, cal: Option<DavURL>, ev: DavURL) {
    exists raw :: raw in a.collections && Recorded(raw, cal, ev)
  }

  datatype Score = Score(exact: bool, depth: int)

  function ScoreOf(a: Account, cal: Option<DavURL>, ev: DavURL): Score {
    Score(ExactFor(a, cal, ev), MaxDepth(a.collections, ev))
  }

  /** An exact match beats any depth; otherwise the deeper collection does. */
  predicate Beats(x: Score, y: Score) {
    (x.exact && !y.exact) || (x.exact == y.exact && x.depth > y.depth)
  }

  /** Account i holds the event and beats every other holder. */
  ghost predicate Owns(accounts: seq<Account>, cal: Option<DavURL>, ev: DavURL, i: int) {
    && 0 <= i < |accounts| && HeldBy(accounts[i], ev)
    && forall j :: 0 <= j < |accounts| && j != i && HeldBy(accounts[j], ev) ==>
         Beats(ScoreOf(accounts[i], cal, ev), ScoreOf(accounts[j], cal, ev))
  }

  ghost predicate NobodyHolds(accounts: seq<Account>, ev: DavURL) {
    forall j :: 0 <= j < |accounts| ==> !HeldBy(accounts[j], ev)
  }

  datatype Picked = Owner(index: nat) | EventNotURL | NoOwner | ManyOwners

  /** Each account's score, or None when it does not hold the event. */
  ghost function Ranks(accounts: seq<Account>, cal: Option<DavURL>, ev: DavURL): (r: seq<Option<Score>>)
    ensures |r| == |accounts|
  {
    seq(|accounts|, i requires 0 <= i < |accounts| =>
      if HeldBy(accounts[i], ev) then Some(ScoreOf(accounts[i], cal, ev)) else None)
  }

  /** The rank at i beats every other one. */
  ghost predicate Top(ranks: seq<Option<Score>>, i: int) {
    && 0 <= i < |ranks| && ranks[i].Some?
    && forall j :: 0 <= j < |ranks| && j != i && ranks[j].Some? ==> Beats(ranks[i].value, ranks[j].value)
  }

  lemma OwnsIsTop(accounts: seq<Account>, cal: Option<DavURL>, ev: DavURL)
    ensures forall i :: Owns(accounts, cal, ev, i) <==> Top(Ranks(accounts, cal, ev), i)
    ensures NobodyHolds(accounts, ev) <==> forall j :: 0 <= j < |accounts| ==> Ranks(accounts, cal, ev)[j].None?
  {
    hide HeldBy, ScoreOf, Beats;
    var ranks := Ranks(accounts, cal, ev);
    forall i ensures Owns(accounts, cal, ev, i) <==> Top(ranks, i) {
      if Top(ranks, i) {
        forall j | 0 <= j < |accounts| && j != i && HeldBy(accounts[j], ev)
          ensures Beats(ScoreOf(accounts[i], cal, ev), ScoreOf(accounts[j], cal, ev))
        {
          assert ranks[j].Some?;
        }
      }
    }
    assert forall j :: 0 <= j < |accounts| ==> (ranks[j].None? <==> !HeldBy(accounts[j], ev));
  }

  /** best is the leader of the first n ranks, tie says whether it shares its score. */
  ghost predicate Leads(ranks: seq<Option<Score>>, n: nat, best: int, tie: bool)
    requires n <= |ranks|
  {
    && -1 <= best < n
    && (best == -1 ==> !tie && forall j :: 0 <= j < n ==> ranks[j].None?)
    && (best >= 0 ==>
          && ranks[best].Some?
          && (forall j :: 0 <= j < n && ranks[j].Some? ==> !Beats(ranks[j].value, ranks[best].value))
          && (tie <==> exists j :: 0 <= j < n && j != best && ranks[j] == ranks[best]))
  }

  lemma LeaderIsTop(ranks: seq<Option<Score>>, best: int, tie: bool)
    requires Leads(ranks, |ranks|, best, tie)
    ensures best >= 0 && !tie ==> Top(ranks, best) && forall i :: Top(ranks, i) ==> i == best
    ensures best < 0 || tie ==> forall i :: !Top(ranks, i)
    ensures best < 0 <==> forall j :: 0 <= j < |ranks| ==> ranks[j].None?
  {
    if best >= 0 && tie {
      var j :| 0 <= j < |ranks| && j != best && ranks[j] == ranks[best];
      assert !Top(ranks, best);
    }
  }

  lemma RankAt(accounts: seq<Account>, cal: Option<DavURL>, ev: DavURL, i: nat)
    requires i < |accounts|
    ensures Ranks(accounts, cal, ev)[i] == if HeldBy(accounts[i], ev) then Some(ScoreOf(accounts[i], cal, ev)) else None
  {
    hide HeldBy, ScoreOf;
  }

  lemma NoLeader(ranks: seq<Option<Score>>)
    ensures Leads(ranks, 0, -1, false)
  {
  }

  /** The cases of the loop body. */
  lemma LeadsOn(ranks: seq<Option<Score>>, n: nat, best: int, tie: bool)
    requires n < |ranks| && Leads(ranks, n, best, tie)
    ensures ranks[n].None? ==> Leads(ranks, n + 1, best, tie)
    ensures ranks[n].Some? && (best < 0 || Beats(ranks[n].value, ranks[best].value)) ==> Leads(ranks, n + 1, n, false)
    ensures ranks[n].Some? && best >= 0 && ranks[n] == ranks[best] ==> Leads(ranks, n + 1, best, true)
    ensures ranks[n].Some? && best >= 0 && Beats(ranks[best].value, ranks[n].value) ==> Leads(ranks, n + 1, best, tie)
  {
  }

  /** The inner loop: what one account's collections say about the event. */
  method Examine(a: Account, cal: Option<DavURL>, ev: DavURL) returns (held: bool, exact: bool, depth: int)
    ensures held == HeldBy(a, ev) && Score(exact, depth) == ScoreOf(a, cal, ev)
  {
    hide Holds, Recorded, DepthOf;
    held, exact, depth := false, false, -1;
    for k := 0 to |a.collections|
      invariant held <==> exists raw :: raw in a.collections[..k] && Holds(raw, ev)
      invariant exact <==> exists raw :: raw in a.collections[..k] && Recorded(raw, cal, ev)
      invariant depth == MaxDepth(a.collections[..k], ev)
    {
      var raw := a.collections[k];
      assert a.collections[..k + 1] == a.collections[..k] + [raw];
      assert a.collections[..k + 1][..k] == a.collections[..k];
      HoldsFacts(raw, cal, ev);
      DepthAtLeast(a.collections[..k], ev);
      if !Holds(raw, ev) {
        continue;
      }
      held := true;
      exact := exact || Recorded(raw, cal, ev);
      depth := if depth > DepthOf(raw, ev) then depth else DepthOf(raw, ev);
    }
    assert a.collections[..|a.collections|] == a.collections;
  }

  lemma HoldsFacts(raw: string, cal: Option<DavURL>, ev: DavURL)
    ensures Recorded(raw, cal, ev) ==> Holds(raw, ev)
    ensures DepthOf(raw, ev) >= -1 && (DepthOf(raw, ev) >= 0 <==> Holds(raw, ev))
  {
  }

  lemma {:induction false} DepthAtLeast(raws: seq<string>, ev: DavURL)
    ensures MaxDepth(raws, ev) >= -1
    ensures forall raw :: raw in raws ==> DepthOf(raw, ev) <= MaxDepth(raws, ev)
    ensures MaxDepth(raws, ev) >= 0 ==> exists raw :: raw in raws && DepthOf(raw, ev) == MaxDepth(raws, ev)
  {
    hide DepthOf;
    if raws != [] {
      DepthAtLeast(raws[..|raws| - 1], ev);
      assert raws == raws[..|raws| - 1] + [raws[|raws| - 1]];
    }
  }

  /**
   One pass over the accounts. It returns the account that owns the event, reports that none
   holds it, or refuses a tie, in exactly the cases named.
   */
  method PickEventOwner(accounts: seq<Account>, calendarID: string, eventID: string) returns (r: Picked)
    ensures r == EventNotURL <==> ParseDAVURL(eventID).None?
    ensures ParseDAVURL(eventID).Some? ==>
              var cal, ev := ParseDAVURL(calendarID), ParseDAVURL(eventID).value;
              && (forall i: nat :: r == Owner(i) <==> Owns(accounts, cal, ev, i))
              && (r == NoOwner <==> NobodyHolds(accounts, ev))
              && (r == ManyOwners <==> !NobodyHolds(accounts, ev) && forall i :: !Owns(accounts, cal, ev, i))
  {
    hide ParseDAVURL, HeldBy, ScoreOf, Owns, Top, NobodyHolds, Leads, Ranks;
    var parsed := ParseDAVURL(eventID);
    if parsed.None? {
      return EventNotURL;
    }
    var ev := parsed.value;
    var cal := ParseDAVURL(calendarID);
    ghost var ranks := Ranks(accounts, cal, ev);
    OwnsIsTop(accounts, cal, ev);
    var best, tie, bestExact, bestDepth := -1, false, false, -1;
    assert Leads(ranks, 0, best, tie) by { NoLeader(ranks); }
    for i := 0 to |accounts|
      invariant -1 <= best < i && Leads(ranks, i, best, tie)
      invariant best >= 0 ==> ranks[best] == Some(Score(bestExact, bestDepth))
    {
      var held, exact, depth := Examine(accounts[i], cal, ev);
      assert ranks[i] == if held then Some(Score(exact, depth)) else None by { RankAt(accounts, cal, ev, i); }
      LeadsOn(ranks, i, best, tie);
      if !held {
      } else if best < 0 || (exact && !bestExact) || (exact == bestExact && depth > bestDepth) {
        best, bestExact, bestDepth, tie := i, exact, depth, false;
      } else if exact == bestExact && depth == bestDepth {
        tie := true;
      }
    }
    LeaderIsTop(ranks, best, tie);
    if best < 0 {
      return NoOwner;
    }
    if tie {
      return ManyOwners;
    }
    return Owner(best);
  }

  // ---------- what the choice guarantees ----------

  /** shuffled lists the same accounts, the one at k in place to[k]. */
  ghost predicate Shuffles(accounts: seq<Account>, shuffled: seq<Account>, to: seq<nat>, from: seq<nat>) {
    && |accounts| == |shuffled| == |to| == |from|
    && (forall k :: 0 <= k < |to| ==> to[k] < |to| && from[k] < |to|)
    && forall k :: 0 <= k < |to| ==> from[to[k]] == k && to[from[k]] == k && shuffled[to[k]] == accounts[k]
  }

  /** No outcome depends on the order of the accounts: not the owner, not that there is none, not a tie. */
  lemma OrderIndependent(accounts: seq<Account>, shuffled: seq<Account>, to: seq<nat>, from: seq<nat>,
                         cal: Option<DavURL>, ev: DavURL)
    requires Shuffles(accounts, shuffled, to, from)
    ensures forall i :: 0 <= i < |accounts| ==> (Owns(accounts, cal, ev, i) <==> Owns(shuffled, cal, ev, to[i]))
    ensures NobodyHolds(accounts, ev) <==> NobodyHolds(shuffled, ev)
    ensures (forall i :: !Owns(accounts, cal, ev, i)) <==> (forall i :: !Owns(shuffled, cal, ev, i))
  {
    NobodyEither(accounts, shuffled, to, from, ev);
    assert forall i :: Owns(accounts, cal, ev, i) ==> 0 <= i < |accounts|;
    assert forall j :: Owns(shuffled, cal, ev, j) ==> 0 <= j < |shuffled|;
    hide Owns, HeldBy, NobodyHolds;
    forall i | 0 <= i < |accounts| ensures Owns(accounts, cal, ev, i) <==> Owns(shuffled, cal, ev, to[i]) {
      OwnerMoves(accounts, shuffled, to, from, cal, ev, i);
    }
    if i :| Owns(accounts, cal, ev, i) {
      assert Owns(shuffled, cal, ev, to[i]);
    }
    if j :| Owns(shuffled, cal, ev, j) {
      assert to[from[j]] == j && Owns(accounts, cal, ev, from[j]);
    }
  }

  lemma NobodyEither(accounts: seq<Account>, shuffled: seq<Account>, to: seq<nat>, from: seq<nat>, ev: DavURL)
    requires Shuffles(accounts, shuffled, to, from)
    ensures NobodyHolds(accounts, ev) <==> NobodyHolds(shuffled, ev)
  {
    hide HeldBy;
    assert forall j :: 0 <= j < |shuffled| ==> shuffled[j] == accounts[from[j]];
    assert forall k :: 0 <= k < |accounts| ==> accounts[k] == shuffled[to[k]];
  }

  lemma OwnerMoves(accounts: seq<Account>, shuffled: seq<Account>, to: seq<nat>, from: seq<nat>,
                   cal: Option<DavURL>, ev: DavURL, i: nat)
    requires |accounts| == |shuffled| == |to| == |from| && i < |accounts|
    requires forall k :: 0 <= k < |to| ==> to[k] < |to| && from[k] < |to|
    requires forall k :: 0 <= k < |to| ==> from[to[k]] == k && to[from[k]] == k && shuffled[to[k]] == accounts[k]
    ensures Owns(accounts, cal, ev, i) <==> Owns(shuffled, cal, ev, to[i])
  {
    hide HeldBy, ScoreOf, Beats;
    if Owns(accounts, cal, ev, i) {
      forall j | 0 <= j < |shuffled| && j != to[i] && HeldBy(shuffled[j], ev)
        ensures Beats(ScoreOf(shuffled[to[i]], cal, ev), ScoreOf(shuffled[j], cal, ev))
      {
        assert shuffled[to[from[j]]] == accounts[from[j]] && from[j] != i;
      }
    }
    if Owns(shuffled, cal, ev, to[i]) {
      forall j | 0 <= j < |accounts| && j != i && HeldBy(accounts[j], ev)
        ensures Beats(ScoreOf(accounts[i], cal, ev), ScoreOf(accounts[j], cal, ev))
      {
        assert shuffled[to[j]] == accounts[j] && to[j] != to[i];
      }
    }
  }

  lemma {:induction false} TrimIsPrefix(s: string)
    ensures TrimSlashes(s) <= s
    ensures TrimSlashes(s) != "" ==> TrimSlashes(s)[|TrimSlashes(s)| - 1] != '/'
    ensures forall k :: |TrimSlashes(s)| <= k < |s| ==> s[k] == '/'
  {
    if s != "" && s[|s| - 1] == '/' {
      TrimIsPrefix(s[..|s| - 1]);
    }
  }

  /** Two collections that contain one event and are equally deep are the same collection. */
  lemma EqualDepthSameCollection(d: DavURL, o: DavURL, ev: DavURL)
    requires Contains(d, ev) && Contains(o, ev) && |TrimSlashes(d.path)| == |TrimSlashes(o.path)|
    ensures SameCollection(d, o)
  {
    var p, q := TrimSlashes(d.path), TrimSlashes(o.path);
    assert p == (p + "/")[..|p|] == ev.path[..|p|];
    assert q == (q + "/")[..|q|] == ev.path[..|q|];
  }

  /** A tie between accounts means they list one and the same most specific collection. */
  lemma TieSharesCollection(a: Account, b: Account, cal: Option<DavURL>, ev: DavURL)
    requires HeldBy(a, ev) && HeldBy(b, ev) && ScoreOf(a, cal, ev) == ScoreOf(b, cal, ev)
    ensures exists x, y :: x in a.collections && y in b.collections && Holds(x, ev) && Holds(y, ev) &&
              DepthOf(x, ev) == DepthOf(y, ev) == MaxDepth(a.collections, ev) &&
              SameCollection(ParseDAVURL(x).value, ParseDAVURL(y).value)
  {
    hide ParseDAVURL, Contains, SameCollection, MaxDepth;
    DepthAtLeast(a.collections, ev);
    DepthAtLeast(b.collections, ev);
    var raw :| raw in a.collections && Holds(raw, ev);
    var x :| x in a.collections && DepthOf(x, ev) == MaxDepth(a.collections, ev);
    var y :| y in b.collections && DepthOf(y, ev) == MaxDepth(b.collections, ev);
    EqualDepthSameCollection(ParseDAVURL(x).value, ParseDAVURL(y).value, ev);
  }

  // ---------- event URLs made from a collection ----------

  lemma {:induction false} BeforeAt(p: string, c: char, x: string)
    requires c !in p && (x == "" || x[0] == c)
    ensures Before(p + x, c) == p
  {
    if p == "" {
      assert p + x == x;
    } else {
      assert (p + x)[1..] == p[1..] + x;
      BeforeAt(p[1..], c, x);
    }
  }

  lemma {:induction false} TrimTail(a: string, b: string)
    requires a != "" && a[|a| - 1] != '/'
    ensures TrimSlashes(a + b) == a + TrimSlashes(b)
  {
    if b == "" {
      assert a + b == a;
    } else if b[|b| - 1] == '/' {
      assert (a + b)[..|a + b| - 1] == a + b[..|b| - 1];
      TrimTail(a, b[..|b| - 1]);
    }
  }

  lemma Assoc(x: string, y: string, z: string)
    ensures x + (y + z) == x + y + z
  {
  }

  lemma FirstParts(s: string, r: string)
    requires s + "://" <= r
    ensures r == (s + "://") + r[|s| + 3..]
  {
  }

  /** What a URL is cut into. */
  lemma CutShape(raw: string)
    requires Cut(raw).Some?
    ensures var p := Cut(raw).value;
            && Before(Before(raw, '#'), '?') == p.scheme + "://" + p.authority + p.path
            && ':' !in p.scheme && '/' !in p.authority && (p.path == "" || p.path[0] == '/')
  {
    hide Before;
    var r := Before(Before(raw, '#'), '?');
    var s := Before(r, ':');
    var rest := r[|s| + 3..];
    var authority := Before(rest, '/');
    FirstParts(s, r);
    assert rest == authority + rest[|authority|..];
    Assoc(s + "://", authority, rest[|authority|..]);
  }

  lemma CutOf(raw: string, p: Parts)
    requires '#' !in raw && '?' !in raw && raw == p.scheme + "://" + p.authority + p.path
    requires ':' !in p.scheme && '/' !in p.authority && (p.path == "" || p.path[0] == '/')
    ensures Cut(raw) == Some(p)
  {
    hide Before;
    NothingDropped(raw);
    var s, rest := p.scheme, p.authority + p.path;
    Assoc(s + "://", p.authority, p.path);
    Assoc(s, "://", rest);
    BeforeAt(s, ':', "://" + rest);
    FrontAndRest(s + "://", rest);
    BeforeAt(p.authority, '/', p.path);
    FrontAndRest(p.authority, p.path);
  }

  lemma FrontAndRest(x: string, y: string)
    ensures x <= x + y && (x + y)[|x|..] == y
  {
  }

  lemma NothingDropped(raw: string)
    requires '#' !in raw && '?' !in raw
    ensures Before(Before(raw, '#'), '?') == raw
  {
    BeforeAt(raw, '#', "");
    BeforeAt(raw, '?', "");
    assert raw + "" == raw;
  }

  /** A resource joined to a collection without query or fragment extends its path by one segment. */
  lemma JoinExtendsPath(base: string, name: string)
    requires ParseDAVURL(base).Some? && '?' !in base && '#' !in base && '?' !in name && '#' !in name
    ensures var u := ParseDAVURL(base).value;
            ParseDAVURL(JoinURL(base, name)) == Some(u.(path := TrimSlashes(u.path) + "/" + name))
  {
    var p := Cut(base).value;
    assert p.authority != "";
    hide *;
    CutShape(base);
    NothingDropped(base);
    var front := p.scheme + "://" + p.authority;
    LastOf(p.scheme + "://", p.authority);
    TrimTail(front, p.path);
    JoinedPathStarts(p.path, name);
    JoinedParts(base, front, p.path, name);
    CutOf(JoinURL(base, name), p.(path := TrimSlashes(p.path) + "/" + name));
    SameFront(base, JoinURL(base, name));
  }

  lemma LastOf(a: string, b: string)
    requires b != "" && '/' !in b
    ensures a + b != "" && (a + b)[|a + b| - 1] != '/'
  {
    assert (a + b)[|a + b| - 1] == b[|b| - 1];
    assert b[|b| - 1] in b;
  }

  lemma JoinedPathStarts(path: string, name: string)
    requires path == "" || path[0] == '/'
    ensures (TrimSlashes(path) + "/" + name)[0] == '/'
  {
    TrimIsPrefix(path);
    hide TrimSlashes;
    var t := TrimSlashes(path);
    if t != "" {
      assert (t + "/" + name)[0] == t[0] == path[0];
    }
  }

  /** URLs that differ in the path alone. */
  lemma SameFront(a: string, b: string)
    requires Cut(a).Some? && Cut(b).Some? && Cut(b).value == Cut(a).value.(path := Cut(b).value.path)
    requires ParseDAVURL(a).Some?
    ensures ParseDAVURL(a).value.path == Cut(a).value.path
    ensures ParseDAVURL(b) == Some(ParseDAVURL(a).value.(path := Cut(b).value.path))
  {
    hide Cut, HostPort, Lower;
  }

  lemma JoinedParts(base: string, front: string, path: string, name: string)
    requires base == front + path && TrimSlashes(front + path) == front + TrimSlashes(path)
    requires '?' !in base && '#' !in base && '?' !in name && '#' !in name
    ensures JoinURL(base, name) == front + (TrimSlashes(path) + "/" + name)
    ensures '?' !in JoinURL(base, name) && '#' !in JoinURL(base, name)
  {
    TrimIsPrefix(path);
    hide TrimSlashes;
    assert front + (TrimSlashes(path) + "/" + name) == front + TrimSlashes(path) + "/" + name;
  }

  lemma {:induction false} BeforeIgnoresTail(a: string, b: string, c: char)
    requires c in a
    ensures Before(a + b, c) == Before(a, c)
  {
    if a[0] != c {
      assert (a + b)[1..] == a[1..] + b;
      BeforeIgnoresTail(a[1..], b, c);
    }
  }

  /** Behind a query or fragment the joined name is lost: the event URL parses as the collection. */
  lemma JoinBehindQuery(base: string, name: string)
    requires ('?' in base || '#' in base) && '?' !in name && '#' !in name
    ensures ParseDAVURL(JoinURL(base, name)) == ParseDAVURL(base)
  {
    TrimIsPrefix(base);
    var t := TrimSlashes(base);
    var tail, slashes := "/" + name, base[|t|..];
    assert base == t + slashes && JoinURL(base, name) == t + tail;
    assert '#' !in slashes && '?' !in slashes && '#' !in tail && '?' !in tail;
    hide ParseDAVURL, TrimSlashes;
    if '#' in t {
      BeforeIgnoresTail(t, slashes, '#');
      BeforeIgnoresTail(t, tail, '#');
    } else {
      BeforeAt(t + slashes, '#', "");
      BeforeAt(t + tail, '#', "");
      assert t + slashes + "" == t + slashes && t + tail + "" == t + tail;
      BeforeIgnoresTail(t, slashes, '?');
      BeforeIgnoresTail(t, tail, '?');
    }
    ParseReadsPrefix(base, JoinURL(base, name));
  }

  lemma ParseReadsPrefix(a: string, b: string)
    requires Before(Before(a, '#'), '?') == Before(Before(b, '#'), '?')
    ensures ParseDAVURL(a) == ParseDAVURL(b)
  {
    hide Before, HostPort, Lower;
    assert Cut(a) == Cut(b);
  }

  /**
   The URL of a new event lies inside the collection it was made from exactly when the collection
   URL has no query or fragment (or, with one, its path already ends in two slashes).
   */
  lemma JoinStaysInside(base: string, name: string)
    requires ParseDAVURL(base).Some? && name != "" && '?' !in name && '#' !in name
    ensures var u := ParseDAVURL(base).value;
            var ev := ParseDAVURL(JoinURL(base, name));
            && ev.Some?
            && (Contains(u, ev.value) <==> ('?' !in base && '#' !in base) || TrimSlashes(u.path) + "/" < u.path)
  {
    hide ParseDAVURL, JoinURL;
    if '?' in base || '#' in base {
      JoinBehindQuery(base, name);
    } else {
      JoinExtendsPath(base, name);
    }
  }

  /**
   Routing stability: an event made from a collection of account i, with that collection recorded,
   is owned by account i whatever other accounts, deeper collections or destinations there are, as
   long as i still lists the collection and no other account does.
   */
  lemma RoutingIsStable(accounts: seq<Account>, i: nat, base: string, name: string)
    requires i < |accounts| && base in accounts[i].collections
    requires ParseDAVURL(base).Some? && '?' !in base && '#' !in base
    requires name != "" && '?' !in name && '#' !in name
    requires forall j, raw ::
               0 <= j < |accounts| && j != i && raw in accounts[j].collections && ParseDAVURL(raw).Some? ==>
               !SameCollection(ParseDAVURL(raw).value, ParseDAVURL(base).value)
    ensures ParseDAVURL(JoinURL(base, name)).Some?
    ensures Owns(accounts, ParseDAVURL(base), ParseDAVURL(JoinURL(base, name)).value, i)
  {
    JoinStaysInside(base, name);
    var cal, ev := ParseDAVURL(base), ParseDAVURL(JoinURL(base, name)).value;
    hide ParseDAVURL, JoinURL, SameCollection, Contains;
    assert Recorded(base, cal, ev) && HeldBy(accounts[i], ev) by {
      SameAsItself(cal.value);
      assert Holds(base, ev);
    }
    forall j | 0 <= j < |accounts| && j != i ensures !ExactFor(accounts[j], cal, ev) {
      hide Holds;
    }
    OnlyExactOwns(accounts, cal, ev, i);
  }

  lemma SameAsItself(d: DavURL)
    ensures SameCollection(d, d)
  {
  }

  lemma OnlyExactOwns(accounts: seq<Account>, cal: Option<DavURL>, ev: DavURL, i: nat)
    requires i < |accounts| && HeldBy(accounts[i], ev) && ExactFor(accounts[i], cal, ev)
    requires forall j :: 0 <= j < |accounts| && j != i ==> !ExactFor(accounts[j], cal, ev)
    ensures Owns(accounts, cal, ev, i)
  {
    hide HeldBy, ExactFor, MaxDepth;
  }

  // ---------- ownership in collections and paths ----------

  /** dir is the path without its trailing slashes. */
  ghost predicate Stem(path: string, dir: string) {
    dir <= path && (dir == "" || dir[|dir| - 1] != '/') && forall k :: |dir| <= k < |path| ==> path[k] == '/'
  }

  lemma StemIsTrim(path: string)
    ensures forall dir :: Stem(path, dir) <==> dir == TrimSlashes(path)
  {
    TrimIsPrefix(path);
    hide TrimSlashes;
    var t := TrimSlashes(path);
    assert t != "" ==> path[|t| - 1] != '/';
    forall dir | Stem(path, dir) ensures dir == t {
      assert dir != "" ==> path[|dir| - 1] != '/';
      assert dir == path[..|dir|] && t == path[..|t|];
    }
  }

  /** The URL names a collection with the event's scheme, host and port, strictly above it at a segment boundary. */
  ghost predicate Above(raw: string, dir: string, ev: DavURL) {
    var c := ParseDAVURL(raw);
    && c.Some? && c.value.scheme == ev.scheme && c.value.host == ev.host && c.value.port == ev.port
    && Stem(c.value.path, dir) && dir + "/" < ev.path
  }

  lemma HoldsExact(raw: string, ev: DavURL)
    ensures forall dir :: Above(raw, dir, ev) <==> Holds(raw, ev) && dir == TrimSlashes(ParseDAVURL(raw).value.path)
  {
    hide ParseDAVURL, Stem, TrimSlashes;
    if ParseDAVURL(raw).Some? { StemIsTrim(ParseDAVURL(raw).value.path); }
  }

  /** Some collection of the account is above the event, with this path. */
  ghost predicate Lists(a: Account, dir: string, ev: DavURL) {
    exists raw :: raw in a.collections && Above(raw, dir, ev)
  }

  /** The collection recorded with the event is one of the account's, and above it. */
  ghost predicate ListsRecorded(a: Account, cal: Option<DavURL>, ev: DavURL) {
    && cal.Some? && cal.value.scheme == ev.scheme && cal.value.host == ev.host && cal.value.port == ev.port
    && exists dir :: Stem(cal.value.path, dir) && Lists(a, dir, ev)
  }

  /** Some collection of a lies below every one of b above the event. */
  ghost predicate Deeper(a: Account, b: Account, ev: DavURL) {
    exists dir :: Lists(a, dir, ev) && forall other :: Lists(b, other, ev) ==> other + "/" <= dir
  }

  lemma ListsIsHeld(a: Account, ev: DavURL)
    ensures HeldBy(a, ev) <==> exists dir :: Lists(a, dir, ev)
  {
    hide Above, Contains, ParseDAVURL, TrimSlashes;
    forall raw ensures Holds(raw, ev) <==> exists dir :: Above(raw, dir, ev) {
      HoldsExact(raw, ev);
      if Holds(raw, ev) { assert Above(raw, TrimSlashes(ParseDAVURL(raw).value.path), ev); }
    }
    if HeldBy(a, ev) {
      var raw :| raw in a.collections && Holds(raw, ev);
      var dir :| Above(raw, dir, ev);
      assert Lists(a, dir, ev);
    }
    if dir :| Lists(a, dir, ev) {
      var raw :| raw in a.collections && Above(raw, dir, ev);
    }
  }

  /** The depth of an account is the longest path it lists above the event. */
  lemma DeepestListed(a: Account, ev: DavURL) returns (dir: string)
    requires HeldBy(a, ev)
    ensures Lists(a, dir, ev) && |dir| == MaxDepth(a.collections, ev)
    ensures forall other :: Lists(a, other, ev) ==> |other| <= |dir|
  {
    hide ParseDAVURL, TrimSlashes, Contains, MaxDepth, Above;
    DepthAtLeast(a.collections, ev);
    var x :| x in a.collections && DepthOf(x, ev) == MaxDepth(a.collections, ev);
    dir := TrimSlashes(ParseDAVURL(x).value.path);
    HoldsExact(x, ev);
    assert Above(x, dir, ev);
    forall other | Lists(a, other, ev) ensures |other| <= |dir| {
      var raw :| raw in a.collections && Above(raw, other, ev);
      HoldsExact(raw, ev);
      assert DepthOf(raw, ev) == |other|;
    }
  }

  /** Of two paths above one event the longer is below the shorter. */
  lemma LongerIsBelow(d: string, o: string, path: string)
    requires d + "/" < path && o + "/" < path
    ensures |d| > |o| <==> o + "/" <= d
  {
    var p, q := d + "/", o + "/";
    assert p == path[..|p|] && q == path[..|q|];
    if |d| > |o| { assert d == path[..|d|] && d[..|q|] == path[..|q|]; }
  }

  lemma ListedAbove(a: Account, dir: string, ev: DavURL)
    requires Lists(a, dir, ev)
    ensures dir + "/" < ev.path
  {
    hide ParseDAVURL;
  }

  lemma DeeperExact(a: Account, b: Account, ev: DavURL)
    requires HeldBy(a, ev) && HeldBy(b, ev)
    ensures Deeper(a, b, ev) <==> MaxDepth(a.collections, ev) > MaxDepth(b.collections, ev)
  {
    hide HeldBy, Lists, MaxDepth;
    var d := DeepestListed(a, ev);
    var o := DeepestListed(b, ev);
    ListedAbove(a, d, ev);
    forall other | Lists(b, other, ev) ensures other + "/" < ev.path { ListedAbove(b, other, ev); }
    if |d| > |o| {
      forall other | Lists(b, other, ev) ensures other + "/" <= d { LongerIsBelow(d, other, ev.path); }
    }
    if dir :| Lists(a, dir, ev) && forall other :: Lists(b, other, ev) ==> other + "/" <= dir {
      ListedAbove(a, dir, ev);
      LongerIsBelow(dir, o, ev.path);
    }
  }

  lemma RecordedExact(a: Account, cal: Option<DavURL>, ev: DavURL)
    ensures ExactFor(a, cal, ev) <==> ListsRecorded(a, cal, ev)
  {
    hide Above, ParseDAVURL, TrimSlashes, Stem, Contains;
    if cal.Some? { StemIsTrim(cal.value.path); }
    forall raw ensures forall dir :: Above(raw, dir, ev) <==>
        Holds(raw, ev) && dir == TrimSlashes(ParseDAVURL(raw).value.path)
    {
      HoldsExact(raw, ev);
    }
    HeldOrigin(ev);
    if ExactFor(a, cal, ev) {
      var raw :| raw in a.collections && Recorded(raw, cal, ev);
      var dir := TrimSlashes(cal.value.path);
      assert Above(raw, dir, ev) && Lists(a, dir, ev) && Stem(cal.value.path, dir);
    }
    if ListsRecorded(a, cal, ev) {
      var dir :| Stem(cal.value.path, dir) && Lists(a, dir, ev);
      var raw :| raw in a.collections && Above(raw, dir, ev);
      assert Recorded(raw, cal, ev);
    }
  }

  lemma HeldOrigin(ev: DavURL)
    ensures forall raw :: Holds(raw, ev) ==> SameOrigin(ParseDAVURL(raw).value, ev)
  {
    hide ParseDAVURL, TrimSlashes;
  }

  /** a comes before b: it alone lists the recorded collection, or else it lists a deeper one. */
  ghost predicate Closer(a: Account, b: Account, cal: Option<DavURL>, ev: DavURL) {
    || (ListsRecorded(a, cal, ev) && !ListsRecorded(b, cal, ev))
    || ((ListsRecorded(a, cal, ev) <==> ListsRecorded(b, cal, ev)) && Deeper(a, b, ev))
  }

  /**
   Who owns an event, in collections and paths alone: an account that lists a collection above it and comes
   before every other such account, by the recorded collection first and by the deeper one otherwise.
   */
  lemma OwnsByPaths(accounts: seq<Account>, cal: Option<DavURL>, ev: DavURL, i: nat)
    requires i < |accounts|
    ensures Owns(accounts, cal, ev, i) <==>
              && (exists dir :: Lists(accounts[i], dir, ev))
              && forall j :: 0 <= j < |accounts| && j != i && (exists dir :: Lists(accounts[j], dir, ev)) ==>
                   Closer(accounts[i], accounts[j], cal, ev)
  {
    hide Lists, HeldBy, ListsRecorded, Deeper, ExactFor, MaxDepth;
    forall j | 0 <= j < |accounts| ensures HeldBy(accounts[j], ev) <==> exists dir :: Lists(accounts[j], dir, ev) {
      ListsIsHeld(accounts[j], ev);
    }
    forall j | 0 <= j < |accounts| && HeldBy(accounts[i], ev) && HeldBy(accounts[j], ev)
      ensures Beats(ScoreOf(accounts[i], cal, ev), ScoreOf(accounts[j], cal, ev)) <==>
              Closer(accounts[i], accounts[j], cal, ev)
    {
      RecordedExact(accounts[i], cal, ev);
      RecordedExact(accounts[j], cal, ev);
      DeeperExact(accounts[i], accounts[j], ev);
    }
  }

  // ---------- URLs as written ----------

  /** An authority: user information, host, and port. */
  datatype Authority = Authority(user: Option<string>, host: string, port: Option<string>) {
    predicate Valid() {
      && host != "" && ':' !in host && '@' !in host && '/' !in host
      && (port.Some? ==> AllDigits(port.value)) && (user.Some? ==> '/' !in user.value)
    }

    function Text(): string {
      (if user.Some? then user.value + "@" else "") + HostText()
    }

    function HostText(): string {
      host + if port.Some? then ":" + port.value else ""
    }
  }

  lemma {:induction false} AfterLastAt(u: string, c: char, h: string)
    requires c !in h
    ensures AfterLast(h, c) == h && AfterLast(u + ([c] + h), c) == h
  {
    var s := u + ([c] + h);
    assert s[|u|] == c;
    if u == "" {
      assert s[1..] == h;
    } else {
      assert s[1..] == u[1..] + ([c] + h);
      AfterLastAt(u[1..], c, h);
    }
  }

  lemma AuthorityReads(a: Authority, scheme: string)
    requires a.Valid()
    ensures HostPort(a.Text(), scheme) == Some((Lower(a.host),
              if a.port.Some? && a.port.value != "" then a.port.value else if scheme == "http" then "80" else "443"))
    ensures '/' !in a.Text()
  {
    hide Before, AfterLast, Lower;
    UserIsDropped(a);
    var h := a.HostText();
    var rest := if a.port.Some? then ":" + a.port.value else "";
    BeforeAt(a.host, ':', rest);
    assert h == a.host + rest;
    assert a.port.Some? ==> h[|a.host| + 1..] == a.port.value;
  }

  lemma UserIsDropped(a: Authority)
    requires a.Valid()
    ensures AfterLast(a.Text(), '@') == a.HostText() && '/' !in a.Text()
  {
    hide AfterLast;
    var h := a.HostText();
    assert forall c :: c in h ==> c in a.host || c == ':' || IsDigit(c);
    AfterLastAt(if a.user.Some? then a.user.value else "", '@', h);
    if a.user.Some? {
      assert a.Text() == a.user.value + (['@'] + h);
    } else {
      assert a.Text() == h;
    }
  }

  /**
   An http or https URL is read as its scheme and host in lower case, its port or the scheme's own, and its
   path; user information is dropped.
   */
  lemma UrlReads(scheme: string, a: Authority, path: string)
    requires a.Valid() && (Lower(scheme) == "http" || Lower(scheme) == "https") && ':' !in scheme
    requires path == "" || path[0] == '/'
    requires '#' !in scheme + "://" + a.Text() + path && '?' !in scheme + "://" + a.Text() + path
    ensures ParseDAVURL(scheme + "://" + a.Text() + path) == Some(DavURL(
              Lower(scheme), Lower(a.host),
              if a.port.Some? && a.port.value != "" then a.port.value
              else if Lower(scheme) == "http" then "80" else "443", path))
  {
    hide Cut, HostPort, Lower, Authority.Text, Authority.Valid;
    AuthorityReads(a, Lower(scheme));
    CutOf(scheme + "://" + a.Text() + path, Parts(scheme, a.Text(), path));
  }
}
