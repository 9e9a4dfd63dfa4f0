/**
 * The read side of the Flask dashboard (web/webserver.py): the page
 * whitelist, the status matrix, leaderboard and service views. The
 * database tables are sequences of records; the leaderboard and service
 * queries are functions over them, while the status-matrix query's result
 * (its join of team_services, teams and services, ordered by team and
 * service name) is an input sequence of rows.
 */
module Dashboard {
  import opened Wrappers
  import opened Rows
  import opened Sorting
  import opened Enum
  import opened Users
  import opened Seqs

  // ---------------------------------------------------------------- pages

  const NotFound := 404

  /** allowed_templates: the pages render_page may show. */
  const AllowedTemplates: map<string, string> := map[
    "announcements" := "announcements.html",
    "services" := "services.html",
    "graphs" := "graphs.html",
    "" := "dashboard.html"]

  /** render_page: a whitelisted page's template, any other page a 404. */
  function RenderPage(page: string): (r: Result<string, int>)
    ensures r.Ok? <==> page == "announcements" || page == "services" || page == "graphs" || page == ""
    ensures r.Err? ==> r.error == NotFound
    ensures r.Ok? ==> r.value == (if page == "" then "dashboard" else page) + ".html"
  {
    if page in AllowedTemplates && AllowedTemplates[page] != "" then Ok(AllowedTemplates[page]) else Err(NotFound)
  }

  // ------------------------------------------------------ string ordering

  /** Lexicographic order by code point. */
  predicate Below(a: string, b: string)
    decreases |a|
  {
    if a == [] then b != []
    else if b == [] then false
    else if a[0] != b[0] then a[0] < b[0]
    else Below(a[1..], b[1..])
  }

  lemma {:induction false} BelowIrreflexive(a: string)
    ensures !Below(a, a)
    decreases |a|
  {
    if a != [] {
      BelowIrreflexive(a[1..]);
    }
  }

  lemma {:induction false} BelowTransitive(a: string, b: string, c: string)
    requires Below(a, b) && Below(b, c)
    ensures Below(a, c)
    decreases |a|
  {
    if a != [] && a[0] == b[0] && b[0] == c[0] {
      BelowTransitive(a[1..], b[1..], c[1..]);
    }
  }

  lemma {:induction false} BelowTotal(a: string, b: string)
    requires a != b
    ensures Below(a, b) || Below(b, a)
    decreases |a|
  {
    if a != [] && b != [] && a[0] == b[0] {
      assert a == [a[0]] + a[1..] && b == [b[0]] + b[1..];
      BelowTotal(a[1..], b[1..]);
    }
  }

  predicate StrictlyAscending(s: seq<string>)
  {
    forall i, j :: 0 <= i < j < |s| ==> Below(s[i], s[j])
  }

  // ------------------------------------------------------ service columns

  /** Inserts a name into an ascending list unless it is already there. */
  function InsertName(sorted: seq<string>, x: string): seq<string>
  {
    if sorted == [] then [x]
    else if sorted[0] == x then sorted
    else if Below(x, sorted[0]) then [x] + sorted
    else [sorted[0]] + InsertName(sorted[1..], x)
  }

  lemma {:induction false} InsertNameMembers(sorted: seq<string>, x: string)
    ensures forall y :: y in InsertName(sorted, x) <==> y in sorted || y == x
  {
    if sorted != [] && sorted[0] != x && !Below(x, sorted[0]) {
      InsertNameMembers(sorted[1..], x);
      assert sorted == [sorted[0]] + sorted[1..];
    }
  }

  lemma {:induction false} InsertNameAscending(sorted: seq<string>, x: string)
    requires StrictlyAscending(sorted)
    ensures StrictlyAscending(InsertName(sorted, x))
  {
    if sorted == [] {
    } else if sorted[0] == x {
    } else if Below(x, sorted[0]) {
      var r := [x] + sorted;
      forall i, j | 0 <= i < j < |r| ensures Below(r[i], r[j]) {
        if i == 0 && j > 1 {
          BelowTransitive(x, sorted[0], sorted[j - 1]);
        }
      }
    } else {
      BelowTotal(x, sorted[0]);
      var t := InsertName(sorted[1..], x);
      InsertNameAscending(sorted[1..], x);
      InsertNameMembers(sorted[1..], x);
      var r := [sorted[0]] + t;
      forall i, j | 0 <= i < j < |r| ensures Below(r[i], r[j]) {
        if i == 0 {
          assert r[j] == t[j - 1];
          if t[j - 1] != x {
            var m := IndexOf(sorted[1..], t[j - 1]);
            assert sorted[m + 1] == t[j - 1];
          }
        } else {
          assert r[i] == t[i - 1] && r[j] == t[j - 1];
        }
      }
    }
  }

  /** The distinct names in ascending order. */
  function DistinctSorted(names: seq<string>): seq<string>
  {
    if names == [] then [] else InsertName(DistinctSorted(names[..|names| - 1]), names[|names| - 1])
  }

  lemma {:induction false} DistinctSortedCorrect(names: seq<string>)
    ensures StrictlyAscending(DistinctSorted(names))
    ensures forall y :: y in DistinctSorted(names) <==> y in names
  {
    if names != [] {
      var init := names[..|names| - 1];
      DistinctSortedCorrect(init);
      InsertNameAscending(DistinctSorted(init), names[|names| - 1]);
      InsertNameMembers(DistinctSorted(init), names[|names| - 1]);
      assert names == init + [names[|names| - 1]];
    }
  }

  /** Two ascending lists with the same members are the same list. */
  lemma {:induction false} AscendingUnique(a: seq<string>, b: seq<string>)
    requires StrictlyAscending(a) && StrictlyAscending(b)
    requires forall y :: y in a <==> y in b
    ensures a == b
  {
    EmptyTogether(a, b);
    if a != [] {
      HeadIsLeast(a, b);
      HeadIsLeast(b, a);
      if a[0] != b[0] {
        BelowTotal(a[0], b[0]);
        assert false;
      }
      forall y ensures y in a[1..] <==> y in b[1..] {
        TailMember(a, y);
        TailMember(b, y);
      }
      AscendingUnique(a[1..], b[1..]);
      assert a == [a[0]] + a[1..] && b == [b[0]] + b[1..];
    }
  }

  lemma EmptyTogether(a: seq<string>, b: seq<string>)
    requires forall y :: y in a <==> y in b
    ensures a == [] <==> b == []
  {
    if a != [] {
      assert a[0] in b;
    }
    if b != [] {
      assert b[0] in a;
    }
  }

  /** The head of an ascending list is below every other member of the same set. */
  lemma HeadIsLeast(a: seq<string>, b: seq<string>)
    requires StrictlyAscending(a) && a != [] && b != []
    requires forall y :: y in a <==> y in b
    ensures !Below(b[0], a[0])
  {
    var m := IndexOf(a, b[0]);
    if m == 0 {
      BelowIrreflexive(a[0]);
    } else if Below(b[0], a[0]) {
      BelowTransitive(a[m], a[0], a[m]);
      BelowIrreflexive(a[m]);
    }
  }

  /** In an ascending list, the members of the tail are the members other than the head. */
  lemma TailMember(a: seq<string>, y: string)
    requires StrictlyAscending(a) && a != []
    ensures y in a[1..] <==> y in a && y != a[0]
  {
    assert a == [a[0]] + a[1..];
    if y in a[1..] {
      var m := IndexOf(a[1..], y);
      assert Below(a[0], a[m + 1]);
      BelowIrreflexive(y);
    }
  }

  function ServiceNames(services: seq<ScoringService>): (names: seq<string>)
    ensures |names| == |services|
    ensures forall k :: 0 <= k < |services| ==> names[k] == services[k].name
  {
    seq(|services|, k requires 0 <= k < |services| => services[k].name)
  }

  /** SELECT DISTINCT service_name FROM services ORDER BY service_name. */
  function ServiceColumns(services: seq<ScoringService>): seq<string>
  {
    DistinctSorted(ServiceNames(services))
  }

  /**
   * The column list is strictly ascending, holds exactly the service
   * names, and is the only list with both properties.
   */
  lemma ServiceColumnsCorrect(services: seq<ScoringService>, other: seq<string>)
    ensures StrictlyAscending(ServiceColumns(services))
    ensures forall n :: n in ServiceColumns(services) <==> exists k :: 0 <= k < |services| && services[k].name == n
    ensures StrictlyAscending(other) && (forall n :: n in other <==> n in ServiceColumns(services)) ==>
              other == ServiceColumns(services)
  {
    var names := ServiceNames(services);
    DistinctSortedCorrect(names);
    forall n ensures n in names <==> exists k :: 0 <= k < |services| && services[k].name == n {
      if n in names {
        var k := IndexOf(names, n);
        assert services[k].name == n;
      }
    }
    if StrictlyAscending(other) && (forall n :: n in other <==> n in ServiceColumns(services)) {
      AscendingUnique(other, ServiceColumns(services));
    }
  }

  // -------------------------------------------------------- status matrix

  /** One row of the status query: (team_name, service_name, is_up). */
  type StatusRow = Entry<string, string, bool>

  /** The row loop of graphs: services_data[team][service] = is_up. */
  method StatusMatrix(rows: seq<StatusRow>) returns (data: map<string, map<string, bool>>)
    ensures data == Nest(rows)
  {
    data := map[];
    for i := 0 to |rows|
      invariant data == Nest(rows[..i])
    {
      NestStep(rows[..i], rows[i]);
      assert rows[..i + 1] == rows[..i] + [rows[i]];
      var row := rows[i];
      if row.outer !in data {
        data := data[row.outer := map[]];
      }
      data := data[row.outer := data[row.outer][row.inner := row.value]];
    }
    assert rows[..|rows|] == rows;
  }

  // ---------------------------------------------------------- leaderboard

  /** A team_services row. */
  datatype TeamService = TeamService(
    id: int,
    teamID: int,
    serviceID: int,
    points: int,
    isUp: bool,
    totalChecks: int,
    successfulChecks: int)

  /** One row of team_services JOIN teams, as (team_name, points). */
  datatype Scored = Scored(team: string, points: int)

  /** Some team with the row's team_id is called n. */
  predicate JoinsName(ts: TeamService, teams: seq<ScoringTeam>, n: string)
  {
    exists t :: 0 <= t < |teams| && teams[t].id == ts.teamID && teams[t].name == n
  }

  /** Some joined row carries team name n. */
  predicate HasTeam(joined: seq<Scored>, n: string)
  {
    exists k :: 0 <= k < |joined| && joined[k].team == n
  }

  lemma HasTeamAppend(a: seq<Scored>, b: seq<Scored>, n: string)
    ensures HasTeam(a + b, n) <==> HasTeam(a, n) || HasTeam(b, n)
  {
    if HasTeam(a + b, n) {
      var k :| 0 <= k < |a + b| && (a + b)[k].team == n;
      if k >= |a| {
        assert b[k - |a|].team == n;
      }
    }
    if HasTeam(a, n) {
      var k :| 0 <= k < |a| && a[k].team == n;
      assert (a + b)[k].team == n;
    }
    if HasTeam(b, n) {
      var k :| 0 <= k < |b| && b[k].team == n;
      assert (a + b)[|a| + k].team == n;
    }
  }

  /** The team_name of every team joined to one team_services row. */
  function MatchTeams(ts: TeamService, teams: seq<ScoringTeam>): (j: seq<Scored>)
    ensures forall k :: 0 <= k < |j| ==> j[k].points == ts.points
  {
    if teams == [] then []
    else (if teams[0].id == ts.teamID then [Scored(teams[0].name, ts.points)] else []) + MatchTeams(ts, teams[1..])
  }

  lemma {:induction false} MatchTeamsNames(ts: TeamService, teams: seq<ScoringTeam>, n: string)
    ensures HasTeam(MatchTeams(ts, teams), n) <==> JoinsName(ts, teams, n)
  {
    if teams != [] {
      MatchTeamsNames(ts, teams[1..], n);
      var head := if teams[0].id == ts.teamID then [Scored(teams[0].name, ts.points)] else [];
      HasTeamAppend(head, MatchTeams(ts, teams[1..]), n);
      if JoinsName(ts, teams[1..], n) {
        var t :| 0 <= t < |teams[1..]| && teams[1..][t].id == ts.teamID && teams[1..][t].name == n;
        assert teams[t + 1] == teams[1..][t];
      }
      if JoinsName(ts, teams, n) {
        var t :| 0 <= t < |teams| && teams[t].id == ts.teamID && teams[t].name == n;
        if t > 0 {
          assert teams[1..][t - 1] == teams[t];
        } else {
          assert head[0].team == n;
        }
      }
    }
  }

  /** team_services JOIN teams ON team_id, in table order. */
  function Joined(teamServices: seq<TeamService>, teams: seq<ScoringTeam>): seq<Scored>
  {
    if teamServices == [] then [] else MatchTeams(teamServices[0], teams) + Joined(teamServices[1..], teams)
  }

  /** A name is joined exactly when some team_services row's team carries it. */
  lemma {:induction false} JoinedNames(teamServices: seq<TeamService>, teams: seq<ScoringTeam>, n: string)
    ensures HasTeam(Joined(teamServices, teams), n) <==>
            exists i :: 0 <= i < |teamServices| && JoinsName(teamServices[i], teams, n)
  {
    if teamServices != [] {
      JoinedNames(teamServices[1..], teams, n);
      MatchTeamsNames(teamServices[0], teams, n);
      HasTeamAppend(MatchTeams(teamServices[0], teams), Joined(teamServices[1..], teams), n);
      if exists i :: 0 <= i < |teamServices| && JoinsName(teamServices[i], teams, n) {
        var i :| 0 <= i < |teamServices| && JoinsName(teamServices[i], teams, n);
        if i > 0 {
          assert teamServices[1..][i - 1] == teamServices[i];
        }
      }
      if exists i :: 0 <= i < |teamServices[1..]| && JoinsName(teamServices[1..][i], teams, n) {
        var i :| 0 <= i < |teamServices[1..]| && JoinsName(teamServices[1..][i], teams, n);
        assert teamServices[i + 1] == teamServices[1..][i];
      }
    }
  }

  /** The team names of the joined rows, each once, in order of first appearance. */
  function GroupNames(joined: seq<Scored>): (names: seq<string>)
    ensures forall i, j :: 0 <= i < j < |names| ==> names[i] != names[j]
  {
    if joined == [] then []
    else
      var prev := GroupNames(joined[..|joined| - 1]);
      var n := joined[|joined| - 1].team;
      if n in prev then prev else prev + [n]
  }

  lemma {:induction false} GroupNamesMembers(joined: seq<Scored>, n: string)
    ensures n in GroupNames(joined) <==> HasTeam(joined, n)
  {
    if joined != [] {
      var init := joined[..|joined| - 1];
      GroupNamesMembers(init, n);
      HasTeamAppend(init, [joined[|joined| - 1]], n);
      assert joined == init + [joined[|joined| - 1]];
    }
  }

  /** SUM(points) over the joined rows of one team name. */
  function SumFor(joined: seq<Scored>, team: string): int
  {
    if joined == [] then 0
    else (if joined[0].team == team then joined[0].points else 0) + SumFor(joined[1..], team)
  }

  datatype Standing = Standing(team: string, total: int)

  function TotalOf(s: Standing): int { s.total }

  /** GROUP BY team_name: one standing per name, with the sum of its points. */
  function Standings(joined: seq<Scored>): (s: seq<Standing>)
    ensures |s| == |GroupNames(joined)|
    ensures forall k :: 0 <= k < |s| ==> s[k] == Standing(GroupNames(joined)[k], SumFor(joined, GroupNames(joined)[k]))
  {
    var names := GroupNames(joined);
    seq(|names|, k requires 0 <= k < |names| => Standing(names[k], SumFor(joined, names[k])))
  }

  /** The leaderboard query: standings ordered by total, highest first. */
  function Leaderboard(teamServices: seq<TeamService>, teams: seq<ScoringTeam>): seq<Standing>
  {
    SortDesc(Standings(Joined(teamServices, teams)), TotalOf)
  }

  /** Each standing carries its name's total, and no name has two. */
  lemma StandingsShape(joined: seq<Scored>)
    ensures forall x :: x in Standings(joined) ==> x.total == SumFor(joined, x.team)
    ensures forall i, j :: 0 <= i < j < |Standings(joined)| ==> Standings(joined)[i].team != Standings(joined)[j].team
  {
    var st := Standings(joined);
    forall x | x in st ensures x.total == SumFor(joined, x.team) {
      var m := IndexOf(st, x);
    }
  }

  /** Ordering standings by total keeps their names distinct. */
  lemma SortKeepsNamesDistinct(st: seq<Standing>)
    requires forall i, j :: 0 <= i < j < |st| ==> st[i].team != st[j].team
    ensures forall j, k :: 0 <= j < k < |SortDesc(st, TotalOf)| ==> SortDesc(st, TotalOf)[j].team != SortDesc(st, TotalOf)[k].team
  {
    var lb := SortDesc(st, TotalOf);
    SortDescCorrect(st, TotalOf);
    forall j, k | 0 <= j < k < |lb| ensures lb[j].team != lb[k].team {
      if lb[j].team == lb[k].team {
        PermutationMembers(lb, st);
        assert lb[j] in st && lb[k] in st;
        PermutationKeepsDistinct(lb, st);
      }
    }
  }

  /** Some standing carries the name n. */
  predicate Lists(st: seq<Standing>, n: string)
  {
    exists k :: 0 <= k < |st| && st[k].team == n
  }

  /** Reordering standings keeps every name that is listed. */
  lemma ListsPermutation(a: seq<Standing>, b: seq<Standing>, n: string)
    requires multiset(a) == multiset(b)
    ensures Lists(a, n) ==> Lists(b, n)
  {
    if Lists(a, n) {
      var k :| 0 <= k < |a| && a[k].team == n;
      assert a[k] in multiset(b);
      var m := IndexOf(b, a[k]);
    }
  }

  /** The standings list exactly the grouped names. */
  lemma StandingsNames(joined: seq<Scored>, n: string)
    ensures Lists(Standings(joined), n) <==> n in GroupNames(joined)
  {
    var st := Standings(joined);
    if Lists(st, n) {
      var k :| 0 <= k < |st| && st[k].team == n;
      assert GroupNames(joined)[k] == n;
    }
    if n in GroupNames(joined) {
      var m := IndexOf(GroupNames(joined), n);
      assert st[m].team == n;
    }
  }

  /** A name is on the leaderboard exactly when some team_services row joins to it. */
  lemma LeaderboardNames(teamServices: seq<TeamService>, teams: seq<ScoringTeam>, n: string)
    ensures Lists(Leaderboard(teamServices, teams), n) <==>
            exists i :: 0 <= i < |teamServices| && JoinsName(teamServices[i], teams, n)
  {
    var joined := Joined(teamServices, teams);
    var st := Standings(joined);
    var lb := SortDesc(st, TotalOf);
    SortDescCorrect(st, TotalOf);
    ListsPermutation(lb, st, n);
    ListsPermutation(st, lb, n);
    StandingsNames(joined, n);
    GroupNamesMembers(joined, n);
    JoinedNames(teamServices, teams, n);
  }

  /**
   * The leaderboard has exactly one entry per team name joined to some
   * team_services row, with the sum of that name's points, highest first.
   */
  lemma LeaderboardCorrect(teamServices: seq<TeamService>, teams: seq<ScoringTeam>, n: string)
    ensures SortedDesc(Leaderboard(teamServices, teams), TotalOf)
    ensures forall k :: 0 <= k < |Leaderboard(teamServices, teams)| ==>
              Leaderboard(teamServices, teams)[k].total == SumFor(Joined(teamServices, teams), Leaderboard(teamServices, teams)[k].team)
    ensures forall j, k :: 0 <= j < k < |Leaderboard(teamServices, teams)| ==>
              Leaderboard(teamServices, teams)[j].team != Leaderboard(teamServices, teams)[k].team
    ensures Lists(Leaderboard(teamServices, teams), n) <==>
            exists i :: 0 <= i < |teamServices| && JoinsName(teamServices[i], teams, n)
  {
    var joined := Joined(teamServices, teams);
    var st := Standings(joined);
    var lb := SortDesc(st, TotalOf);
    SortDescCorrect(st, TotalOf);
    PermutationMembers(lb, st);
    StandingsShape(joined);
    forall k | 0 <= k < |lb| ensures lb[k].total == SumFor(joined, lb[k].team) {
      assert lb[k] in st;
    }
    SortKeepsNamesDistinct(st);
    LeaderboardNames(teamServices, teams, n);
  }

  // ----------------------------------------------------- service view

  /** A service_checks row. */
  datatype ServiceCheck = ServiceCheck(teamServiceID: int, status: bool, timestamp: int)

  function TimestampOf(c: ServiceCheck): int { c.timestamp }

  /** The checks of one team_service, in table order. */
  function ChecksOf(checks: seq<ServiceCheck>, teamServiceID: int): (r: seq<ServiceCheck>)
    ensures forall k :: 0 <= k < |r| ==> r[k].teamServiceID == teamServiceID
    ensures multiset(r) <= multiset(checks)
    ensures forall c :: c in checks && c.teamServiceID == teamServiceID ==> c in r
  {
    if checks == [] then []
    else
      var rest := ChecksOf(checks[1..], teamServiceID);
      assert multiset(checks) == multiset{checks[0]} + multiset(checks[1..]) by {
        assert checks == [checks[0]] + checks[1..];
      }
      (if checks[0].teamServiceID == teamServiceID then [checks[0]] else []) + rest
  }

  /** No check of the team service is lost: each occurs in the result as often as in the table. */
  lemma {:induction false} ChecksOfExact(checks: seq<ServiceCheck>, teamServiceID: int, c: ServiceCheck)
    requires c.teamServiceID == teamServiceID
    ensures multiset(ChecksOf(checks, teamServiceID))[c] == multiset(checks)[c]
  {
    if checks != [] {
      ChecksOfExact(checks[1..], teamServiceID, c);
      assert checks == [checks[0]] + checks[1..];
    }
  }

  const WindowSize := 10

  /** ORDER BY timestamp DESC LIMIT 10. */
  function LastChecks(checks: seq<ServiceCheck>, teamServiceID: int): seq<ServiceCheck>
  {
    var sorted := SortDesc(ChecksOf(checks, teamServiceID), TimestampOf);
    if |sorted| <= WindowSize then sorted else sorted[..WindowSize]
  }

  /**
   * The window holds min(10, n) of the n checks of the team_service,
   * newest first, and none of the checks left out is newer than any kept.
   */
  lemma LastChecksAreMostRecent(checks: seq<ServiceCheck>, teamServiceID: int)
    ensures |LastChecks(checks, teamServiceID)| ==
            (if |ChecksOf(checks, teamServiceID)| <= WindowSize then |ChecksOf(checks, teamServiceID)| else WindowSize)
    ensures SortedDesc(LastChecks(checks, teamServiceID), TimestampOf)
    ensures multiset(LastChecks(checks, teamServiceID)) + multiset(Omitted(checks, teamServiceID)) ==
            multiset(ChecksOf(checks, teamServiceID))
    ensures forall i, j :: 0 <= i < |LastChecks(checks, teamServiceID)| && 0 <= j < |Omitted(checks, teamServiceID)| ==>
              LastChecks(checks, teamServiceID)[i].timestamp >= Omitted(checks, teamServiceID)[j].timestamp
  {
    var all := ChecksOf(checks, teamServiceID);
    var sorted := SortDesc(all, TimestampOf);
    SortDescCorrect(all, TimestampOf);
    var w := LastChecks(checks, teamServiceID);
    assert sorted == w + Omitted(checks, teamServiceID);
  }

  /** The checks of the team_service that the window leaves out. */
  function Omitted(checks: seq<ServiceCheck>, teamServiceID: int): seq<ServiceCheck>
  {
    var sorted := SortDesc(ChecksOf(checks, teamServiceID), TimestampOf);
    if |sorted| <= WindowSize then [] else sorted[WindowSize..]
  }

  /** Every check in the window is a check of that team_service. */
  lemma LastChecksBelong(checks: seq<ServiceCheck>, teamServiceID: int)
    ensures forall c :: c in LastChecks(checks, teamServiceID) ==> c.teamServiceID == teamServiceID && c in checks
  {
    var all := ChecksOf(checks, teamServiceID);
    var sorted := SortDesc(all, TimestampOf);
    SortDescCorrect(all, TimestampOf);
    forall c | c in LastChecks(checks, teamServiceID) ensures c.teamServiceID == teamServiceID && c in checks {
      assert c in sorted;
      assert c in multiset(all);
      assert c in multiset(checks);
    }
  }

  /** One row of the services query, with the uptime key once it has been set. */
  datatype ServiceRow = ServiceRow(
    serviceName: string,
    boxName: string,
    points: int,
    isUp: bool,
    totalChecks: int,
    successfulChecks: int,
    lastChecks: seq<ServiceCheck>,
    uptime: Option<int>)

  /** The services rows joined to one team_services row. */
  function MatchServices(ts: TeamService, services: seq<ScoringService>, checks: seq<ServiceCheck>): seq<ServiceRow>
  {
    if services == [] then []
    else
      (if services[0].id == ts.serviceID
       then [ServiceRow(services[0].name, services[0].vmName, ts.points, ts.isUp, ts.totalChecks,
                        ts.successfulChecks, LastChecks(checks, ts.id), None)]
       else []) + MatchServices(ts, services[1..], checks)
  }

  /** The services query for one team: its team_services rows joined to services. */
  function TeamServiceRows(teamID: int, teamServices: seq<TeamService>, services: seq<ScoringService>,
                           checks: seq<ServiceCheck>): seq<ServiceRow>
  {
    if teamServices == [] then []
    else
      (if teamServices[0].teamID == teamID then MatchServices(teamServices[0], services, checks) else [])
      + TeamServiceRows(teamID, teamServices[1..], services, checks)
  }

  /** Python's int() of a true division: the quotient truncated toward zero. */
  function TruncDiv(a: int, b: int): int
    requires b != 0
  {
    var q := (if a < 0 then -a else a) / (if b < 0 then -b else b);
    if (a < 0) != (b < 0) then -q else q
  }

  /** int(successful / total * 100), with exact arithmetic in place of floating point. */
  function UptimePercent(successful: int, total: int): int
    requires total != 0
  {
    TruncDiv(successful * 100, total)
  }

  /** For counts 0 <= s <= t, the uptime is the whole percentage s / t rounded down. */
  lemma UptimeIsFloorPercent(s: int, t: int)
    requires 0 <= s <= t && t > 0
    ensures var u := UptimePercent(s, t);
            0 <= u <= 100 && u * t <= 100 * s < (u + 1) * t &&
            (s == 0 ==> u == 0) && (s == t ==> u == 100)
  {
    var u := UptimePercent(s, t);
    var r := (s * 100) % t;
    assert u == (s * 100) / t;
    assert s * 100 == u * t + r && 0 <= r < t;
    assert (u + 1) * t == u * t + t;
    if u > 100 {
      MulMonotone(101, u, t);
      assert false;
    }
    if u < 0 {
      MulMonotone(u, -1, t);
      assert false;
    }
    if s == t && u < 100 {
      MulMonotone(u + 1, 100, t);
      assert false;
    }
  }

  lemma MulMonotone(a: int, b: int, t: int)
    requires a <= b && t > 0
    ensures a * t <= b * t
  {
    assert b * t - a * t == (b - a) * t;
  }

  /** The index of the first row with total_checks 0, or the row count. */
  function FirstZeroTotal(rows: seq<ServiceRow>): (z: nat)
    ensures z <= |rows|
    ensures forall k :: 0 <= k < z ==> rows[k].totalChecks != 0
    ensures z < |rows| ==> rows[z].totalChecks == 0
  {
    if rows == [] || rows[0].totalChecks == 0 then 0 else 1 + FirstZeroTotal(rows[1..])
  }

  function WithUptime(row: ServiceRow): ServiceRow
    requires row.totalChecks != 0
  {
    row.(uptime := Some(UptimePercent(row.successfulChecks, row.totalChecks)))
  }

  /**
   * The rows after the uptime loop: the division by zero at the first
   * zero total ends it, so rows from there on keep no uptime.
   */
  function Annotated(rows: seq<ServiceRow>): (r: seq<ServiceRow>)
    ensures |r| == |rows|
  {
    var z := FirstZeroTotal(rows);
    seq(|rows|, k requires 0 <= k < |rows| => if k < z then WithUptime(rows[k]) else rows[k])
  }

  /** The uptime loop, setting each row's uptime in place until a total of zero raises. */
  method AnnotateUptime(a: array<ServiceRow>)
    modifies a
    ensures a[..] == Annotated(old(a[..]))
  {
    ghost var rows := a[..];
    var i := 0;
    while i < a.Length
      invariant 0 <= i <= a.Length
      invariant forall k :: 0 <= k < i ==> rows[k].totalChecks != 0 && a[k] == WithUptime(rows[k])
      invariant forall k :: i <= k < a.Length ==> a[k] == rows[k]
    {
      if a[i].totalChecks == 0 {
        break;
      }
      a[i] := WithUptime(a[i]);
      i := i + 1;
    }
    assert FirstZeroTotal(rows) == i by {
      FirstZeroAt(rows, i);
    }
  }

  lemma {:induction false} FirstZeroAt(rows: seq<ServiceRow>, i: nat)
    requires i <= |rows|
    requires forall k :: 0 <= k < i ==> rows[k].totalChecks != 0
    requires i < |rows| ==> rows[i].totalChecks == 0
    ensures FirstZeroTotal(rows) == i
  {
    if i > 0 {
      FirstZeroAt(rows[1..], i - 1);
    }
  }

  /** What the services page lists for a viewer. */
  function ServicesView(viewer: Viewer, teamServices: seq<TeamService>, services: seq<ScoringService>,
                        checks: seq<ServiceCheck>): seq<ServiceRow>
  {
    if !HasIntId(viewer) then [] else Annotated(TeamServiceRows(viewer.id, teamServices, services, checks))
  }

  /** services: an admin, whose id is no int, gets an empty list before any query. */
  method ServicesPage(viewer: Viewer, teamServices: seq<TeamService>, services: seq<ScoringService>,
                      checks: seq<ServiceCheck>) returns (page: seq<ServiceRow>)
    ensures page == ServicesView(viewer, teamServices, services, checks)
  {
    if !HasIntId(viewer) {
      return [];
    }
    var rows := TeamServiceRows(viewer.id, teamServices, services, checks);
    var a := new ServiceRow[|rows|](k requires 0 <= k < |rows| => rows[k]);
    assert a[..] == rows;
    AnnotateUptime(a);
    page := a[..];
  }

  /**
   * The services page: empty for an admin; for a team, each row before
   * the first zero total carries its floor percentage, the later ones none.
   */
  lemma ServicesViewMeaning(viewer: Viewer, teamServices: seq<TeamService>, services: seq<ScoringService>,
                            checks: seq<ServiceCheck>, k: nat)
    ensures viewer.AdminUser? ==> ServicesView(viewer, teamServices, services, checks) == []
    ensures viewer.TeamUser? ==>
              var rows := TeamServiceRows(viewer.id, teamServices, services, checks);
              var view := ServicesView(viewer, teamServices, services, checks);
              |view| == |rows| &&
              (k < |rows| ==>
                 view[k].(uptime := rows[k].uptime) == rows[k] &&
                 (view[k].uptime.Some? <==> k < FirstZeroTotal(rows) || rows[k].uptime.Some?) &&
                 (k < FirstZeroTotal(rows) ==>
                    view[k].uptime == Some(UptimePercent(rows[k].successfulChecks, rows[k].totalChecks))))
  {
  }

  /** The service query yields no uptime: after the loop a row has one exactly when it precedes the first zero total. */
  lemma {:induction false} QueryRowsHaveNoUptime(teamID: int, teamServices: seq<TeamService>, services: seq<ScoringService>,
                                                 checks: seq<ServiceCheck>)
    ensures forall k :: 0 <= k < |TeamServiceRows(teamID, teamServices, services, checks)| ==>
              TeamServiceRows(teamID, teamServices, services, checks)[k].uptime.None?
  {
    if teamServices != [] {
      QueryRowsHaveNoUptime(teamID, teamServices[1..], services, checks);
      MatchesHaveNoUptime(teamServices[0], services, checks);
    }
  }

  lemma {:induction false} MatchesHaveNoUptime(ts: TeamService, services: seq<ScoringService>, checks: seq<ServiceCheck>)
    ensures forall k :: 0 <= k < |MatchServices(ts, services, checks)| ==> MatchServices(ts, services, checks)[k].uptime.None?
  {
    if services != [] {
      MatchesHaveNoUptime(ts, services[1..], checks);
    }
  }
}
