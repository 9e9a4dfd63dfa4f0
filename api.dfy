/**
 * The JSON API handlers (api/handlers.go): each query's outcome is an
 * input, and the handler's answer is an HTTP error status or a JSON array.
 * A Go slice that was never appended to is nil and encodes as null.
 */
module Api {
  import opened Wrappers
  import opened Rows
  import opened Enum

  datatype Response<T> = HttpError(status: int) | Json(body: Option<seq<T>>)

  const StatusBadRequest := 400
  const StatusInternalServerError := 500

  /** A nil slice (no element appended) encodes as null, any other as an array. */
  function SliceOf<T>(items: seq<T>): Option<seq<T>>
  {
    if items == [] then None else Some(items)
  }

  /** The row loop shared by ListTeams and ListTeamScore: append each scanned record, stop at a failed Scan. */
  method CollectRows<T>(results: seq<Scanned<T>>) returns (ok: bool, items: seq<T>)
    ensures ok <==> !AnyScanFailed(results)
    ensures ok ==> items == ScannedPrefix(results)
  {
    items := [];
    for i := 0 to |results|
      invariant forall k :: 0 <= k < i ==> results[k].Scanned?
      invariant |ScannedPrefix(results)| >= i
      invariant items == ScannedPrefix(results)[..i]
    {
      if results[i].ScanFailed? {
        return false, items;
      }
      assert ScannedPrefix(results)[..i + 1] == items + [results[i].value] by {
        ScannedAt(results, i);
      }
      items := items + [results[i].value];
    }
    AllScanned(results);
    assert items == ScannedPrefix(results);
    return true, items;
  }

  /** When the first i + 1 records scanned, the prefix reaches past i. */
  lemma {:induction false} ScannedAt<T>(results: seq<Scanned<T>>, i: nat)
    requires i < |results|
    requires forall k :: 0 <= k <= i ==> results[k].Scanned?
    ensures |ScannedPrefix(results)| > i && ScannedPrefix(results)[i] == results[i].value
  {
    if i > 0 {
      ScannedAt(results[1..], i - 1);
    }
  }

  /** One row of ListTeams: team_id, team_name, team_color. */
  datatype TeamRow = TeamRow(id: int, name: string, color: string)

  /** The scanned columns fill an enum.Team; its Password stays empty. */
  function TeamOf(row: TeamRow): TeamConfig
  {
    TeamConfig(row.id, row.name, "", row.color)
  }

  /** ListTeams: no rows.Err() check follows the row loop. */
  function TeamsResponse(q: Query<TeamRow>): (r: Response<TeamConfig>)
    ensures r.HttpError? <==> q.QueryFailed? || AnyScanFailed(q.results)
    ensures r.HttpError? ==> r.status == StatusInternalServerError
  {
    if q.QueryFailed? || AnyScanFailed(q.results) then HttpError(StatusInternalServerError)
    else
      var rows := ScannedPrefix(q.results);
      Json(SliceOf(seq(|rows|, k requires 0 <= k < |rows| => TeamOf(rows[k]))))
  }

  method ListTeams(q: Query<TeamRow>) returns (resp: Response<TeamConfig>)
    ensures resp == TeamsResponse(q)
  {
    if q.QueryFailed? {
      return HttpError(StatusInternalServerError);
    }
    var ok, rows := CollectRows(q.results);
    if !ok {
      return HttpError(StatusInternalServerError);
    }
    var teams: seq<TeamConfig> := [];
    for i := 0 to |rows|
      invariant teams == seq(i, k requires 0 <= k < i => TeamOf(rows[k]))
    {
      teams := teams + [TeamOf(rows[i])];
    }
    return Json(SliceOf(teams));
  }

  /**
   * ListTeams answers one team per row, in row order, ignoring an
   * iteration error; no rows gives null.
   */
  lemma TeamsOnePerRow(q: Query<TeamRow>)
    requires q.Rows? && !AnyScanFailed(q.results)
    ensures TeamsResponse(q).Json?
    ensures TeamsResponse(q).body.None? <==> q.results == []
    ensures TeamsResponse(q).body.Some? ==>
              |TeamsResponse(q).body.value| == |q.results| &&
              forall k :: 0 <= k < |q.results| ==>
                TeamsResponse(q).body.value[k] == TeamOf(q.results[k].value)
  {
    AllScanned(q.results);
  }

  /** One row of ListTeamScore: service_name and points. */
  datatype ServiceScore = ServiceScore(service: string, score: int)

  /** ListTeamScore: an empty teamID is refused before any query runs. */
  function TeamScoreResponse(teamID: string, q: Query<ServiceScore>): (r: Response<ServiceScore>)
    ensures r.HttpError? ==> r.status == (if teamID == "" then StatusBadRequest else StatusInternalServerError)
  {
    if teamID == "" then HttpError(StatusBadRequest)
    else if q.QueryFailed? || AnyScanFailed(q.results) || q.iterationError then HttpError(StatusInternalServerError)
    else Json(SliceOf(ScannedPrefix(q.results)))
  }

  method ListTeamScore(teamID: string, q: Query<ServiceScore>) returns (resp: Response<ServiceScore>)
    ensures resp == TeamScoreResponse(teamID, q)
  {
    if teamID == "" {
      return HttpError(StatusBadRequest);
    }
    if q.QueryFailed? {
      return HttpError(StatusInternalServerError);
    }
    var ok, results := CollectRows(q.results);
    if !ok {
      return HttpError(StatusInternalServerError);
    }
    if q.iterationError {
      return HttpError(StatusInternalServerError);
    }
    return Json(SliceOf(results));
  }

  /**
   * ListTeamScore: 400 exactly for an empty teamID, whatever the query
   * would give; otherwise one element per row in row order.
   */
  lemma TeamScoreOnePerRow(teamID: string, q: Query<ServiceScore>)
    ensures TeamScoreResponse(teamID, q) == HttpError(StatusBadRequest) <==> teamID == ""
    ensures TeamScoreResponse(teamID, q).Json? <==>
              teamID != "" && q.Rows? && !AnyScanFailed(q.results) && !q.iterationError
    ensures TeamScoreResponse(teamID, q).Json? ==> (TeamScoreResponse(teamID, q).body.None? <==> q.results == [])
    ensures TeamScoreResponse(teamID, q).Json? && TeamScoreResponse(teamID, q).body.Some? ==>
              |TeamScoreResponse(teamID, q).body.value| == |q.results| &&
              forall k :: 0 <= k < |q.results| ==> q.results[k] == Scanned(TeamScoreResponse(teamID, q).body.value[k])
  {
    if q.Rows? && !AnyScanFailed(q.results) {
      AllScanned(q.results);
    }
  }

  /** One row of ListAllTeamScores: team_id, team_name, service_name, points. */
  datatype ScoreRow = ScoreRow(teamID: int, teamName: string, serviceName: string, score: int)

  datatype TeamInfo = TeamInfo(id: int, name: string, services: map<string, int>)

  /** teamMap after the rows: an entry is created on a team's first row, then each row sets one score. */
  function TeamMapOf(rows: seq<ScoreRow>): (teams: map<int, TeamInfo>)
    ensures forall id :: id in teams ==> teams[id].id == id
    ensures forall k :: 0 <= k < |rows| ==> rows[k].teamID in teams
  {
    if rows == [] then map[]
    else
      var prev := TeamMapOf(rows[..|rows| - 1]);
      var r := rows[|rows| - 1];
      var info := if r.teamID in prev then prev[r.teamID] else TeamInfo(r.teamID, r.teamName, map[]);
      prev[r.teamID := info.(services := info.services[r.serviceName := r.score])]
  }

  /** The rows as (team, service, score) entries of a two-level map. */
  function ScoreEntries(rows: seq<ScoreRow>): (es: seq<Entry<int, string, int>>)
    ensures |es| == |rows|
    ensures forall k :: 0 <= k < |rows| ==> es[k] == Entry(rows[k].teamID, rows[k].serviceName, rows[k].score)
  {
    seq(|rows|, k requires 0 <= k < |rows| => Entry(rows[k].teamID, rows[k].serviceName, rows[k].score))
  }

  /**
   * teamMap has one entry per team id among the rows, keyed by its own id,
   * and each entry's Services map is the (service -> score) grouping of
   * that team's rows.
   */
  lemma {:induction false} TeamMapIsGrouping(rows: seq<ScoreRow>)
    ensures TeamMapOf(rows).Keys == Nest(ScoreEntries(rows)).Keys
    ensures forall id :: id in TeamMapOf(rows) ==>
              TeamMapOf(rows)[id].id == id && TeamMapOf(rows)[id].services == Nest(ScoreEntries(rows))[id]
  {
    if rows != [] {
      var init := rows[..|rows| - 1];
      TeamMapIsGrouping(init);
      assert ScoreEntries(rows) == ScoreEntries(init) + [ScoreEntries(rows)[|rows| - 1]];
      NestStep(ScoreEntries(init), ScoreEntries(rows)[|rows| - 1]);
    }
  }

  /** A team is listed exactly when some row carries its id, and a service exactly when some row names the pair. */
  lemma TeamScoresFromRows(rows: seq<ScoreRow>, id: int, service: string)
    ensures id in TeamMapOf(rows) <==> exists i :: 0 <= i < |rows| && rows[i].teamID == id
    ensures id in TeamMapOf(rows) && service in TeamMapOf(rows)[id].services <==>
              exists i :: 0 <= i < |rows| && rows[i].teamID == id && rows[i].serviceName == service
  {
    TeamMapIsGrouping(rows);
    NestOuterKeys(ScoreEntries(rows), id);
    NestInnerKeys(ScoreEntries(rows), id, service);
  }

  /** Services[name] holds the points of the last row for that team and service. */
  lemma LastScoreWins(rows: seq<ScoreRow>, i: nat)
    requires i < |rows|
    requires forall j :: i < j < |rows| ==> rows[j].teamID != rows[i].teamID || rows[j].serviceName != rows[i].serviceName
    ensures rows[i].teamID in TeamMapOf(rows)
    ensures rows[i].serviceName in TeamMapOf(rows)[rows[i].teamID].services
    ensures TeamMapOf(rows)[rows[i].teamID].services[rows[i].serviceName] == rows[i].score
  {
    TeamMapIsGrouping(rows);
    NestLastWins(ScoreEntries(rows), i);
  }

  /** A team's Name is the team_name of the first row carrying its id. */
  lemma {:induction false} NameFromFirstRow(rows: seq<ScoreRow>, i: nat)
    requires i < |rows|
    requires forall j :: 0 <= j < i ==> rows[j].teamID != rows[i].teamID
    ensures rows[i].teamID in TeamMapOf(rows)
    ensures TeamMapOf(rows)[rows[i].teamID].name == rows[i].teamName
  {
    var init := rows[..|rows| - 1];
    if i < |rows| - 1 {
      assert init[i] == rows[i];
      NameFromFirstRow(init, i);
    } else {
      TeamMapIsGrouping(init);
      NestOuterKeys(ScoreEntries(init), rows[i].teamID);
      forall j | 0 <= j < |init| ensures ScoreEntries(init)[j].outer != rows[i].teamID {
        assert init[j] == rows[j];
      }
    }
  }

  /** The answer lists every entry of the team map once, in any order. */
  predicate ListsEachTeamOnce(items: seq<TeamInfo>, teams: map<int, TeamInfo>)
  {
    (forall k :: 0 <= k < |items| ==> items[k].id in teams && items[k] == teams[items[k].id]) &&
    (forall j, k :: 0 <= j < k < |items| ==> items[j].id != items[k].id) &&
    (forall id :: id in teams ==> exists k :: 0 <= k < |items| && items[k].id == id)
  }

  predicate AllTeamScoresFail(q: Query<ScoreRow>)
  {
    q.QueryFailed? || AnyScanFailed(q.results) || q.iterationError
  }

  /** The row loop of ListAllTeamScores, updating each team's entry in place. */
  method BuildTeamMap(rows: seq<ScoreRow>) returns (teamMap: map<int, TeamInfo>)
    ensures teamMap == TeamMapOf(rows)
  {
    teamMap := map[];
    for i := 0 to |rows|
      invariant teamMap == TeamMapOf(rows[..i])
    {
      assert rows[..i + 1][..i] == rows[..i];
      var r := rows[i];
      if r.teamID !in teamMap {
        teamMap := teamMap[r.teamID := TeamInfo(r.teamID, r.teamName, map[])];
      }
      var info := teamMap[r.teamID];
      teamMap := teamMap[r.teamID := info.(services := info.services[r.serviceName := r.score])];
    }
    assert rows[..|rows|] == rows;
  }

  /** A value of a map keyed by its own id sits under that id. */
  lemma ValueUnderOwnId(teams: map<int, TeamInfo>, t: TeamInfo)
    requires forall id :: id in teams ==> teams[id].id == id
    requires t in teams.Values
    ensures t.id in teams && teams[t.id] == t
  {
    if forall id :: id in teams ==> teams[id] != t {
      assert false;
    }
  }

  /** The map-to-slice loop: Go's map iteration order is arbitrary, so any order is allowed. */
  method TeamSlice(teams: map<int, TeamInfo>) returns (items: seq<TeamInfo>)
    requires forall id :: id in teams ==> teams[id].id == id
    ensures ListsEachTeamOnce(items, teams)
  {
    items := [];
    var remaining := teams.Values;
    while remaining != {}
      invariant remaining <= teams.Values
      invariant forall k :: 0 <= k < |items| ==> items[k] in teams.Values && items[k] !in remaining
      invariant forall j, k :: 0 <= j < k < |items| ==> items[j] != items[k]
      invariant forall t :: t in teams.Values ==> t in remaining || t in items
      decreases |remaining|
    {
      var t :| t in remaining;
      items := items + [t];
      remaining := remaining - {t};
    }
    forall k | 0 <= k < |items| ensures items[k].id in teams && items[k] == teams[items[k].id] {
      ValueUnderOwnId(teams, items[k]);
    }
    forall id | id in teams ensures exists k :: 0 <= k < |items| && items[k].id == id {
      assert teams[id] in teams.Values;
      var k :| 0 <= k < |items| && items[k] == teams[id];
    }
  }

  /**
   * ListAllTeamScores: a 500 on a failed query, Scan or iteration;
   * otherwise every team of the grouping exactly once, in map order.
   */
  method ListAllTeamScores(q: Query<ScoreRow>) returns (resp: Response<TeamInfo>)
    ensures resp.HttpError? <==> AllTeamScoresFail(q)
    ensures resp.HttpError? ==> resp.status == StatusInternalServerError
    ensures resp.Json? ==> resp.body.Some? && ListsEachTeamOnce(resp.body.value, TeamMapOf(ScannedPrefix(q.results)))
  {
    if q.QueryFailed? {
      return HttpError(StatusInternalServerError);
    }
    var ok, rows := CollectRows(q.results);
    if !ok {
      return HttpError(StatusInternalServerError);
    }
    var teamMap := BuildTeamMap(rows);
    if q.iterationError {
      return HttpError(StatusInternalServerError);
    }
    TeamMapIsGrouping(rows);
    var results := TeamSlice(teamMap);
    return Json(Some(results));
  }
}
