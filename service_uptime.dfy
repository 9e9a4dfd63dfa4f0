/**
 * The uptime grid of the React front-end (ServiceUptime.tsx): one column
 * per service key of the first team, one row per team, and in each cell
 * the rounded uptime percentage with a colour band.
 */
module ServiceUptime {
  import opened Wrappers
  import opened Text
  import opened TeamHandler

  /** A JavaScript number as getUptime can produce it from integer counts. */
  datatype Uptime = Percent(p: int) | NaN | PositiveInfinity | NegativeInfinity

  /** The four cell colours, from worst to best. */
  datatype Color = DarkRed | Red | Orange | Green

  /** The CSS value of a colour. */
  function Hex(c: Color): string
  {
    match c
    case DarkRed => "#831911"
    case Red => "#F44336"
    case Orange => "#F08928"
    case Green => "#4CAF50"
  }

  /** Position of a colour on the scale from red to green. */
  function Rank(c: Color): nat
  {
    match c
    case DarkRed => 0
    case Red => 1
    case Orange => 2
    case Green => 3
  }

  /**
   * Math.round((timeScored / totalTime) * 100), computed on exact rationals:
   * the nearest integer to 100 * s / t, halves rounded up. A zero total gives
   * NaN for 0 / 0 and an infinity of the numerator's sign otherwise.
   */
  function GetUptime(timeScored: int, totalTime: int): (r: Uptime)
    ensures totalTime != 0 ==> r.Percent?
    ensures totalTime > 0 ==> 2 * totalTime * r.p - totalTime <= 200 * timeScored < 2 * totalTime * r.p + totalTime
    ensures totalTime == 0 ==> (r == NaN <==> timeScored == 0)
  {
    if totalTime == 0 then
      if timeScored == 0 then NaN
      else if timeScored > 0 then PositiveInfinity
      else NegativeInfinity
    else if totalTime > 0 then
      var q := (200 * timeScored + totalTime) / (2 * totalTime);
      Percent(q)
    else
      Percent((-200 * timeScored - totalTime) / (-2 * totalTime))
  }

  /** The rounded uptime of no successes is 0, of all successes 100, and in between it stays in [0, 100]. */
  lemma UptimeRange(s: int, t: int)
    requires 0 <= s <= t && t > 0
    ensures 0 <= GetUptime(s, t).p <= 100
    ensures s == 0 ==> GetUptime(s, t).p == 0
    ensures s == t ==> GetUptime(s, t).p == 100
  {
    var p := GetUptime(s, t).p;
    assert 200 * s < t * (2 * p + 1);
    assert t * (2 * p - 1) <= 200 * s;
    if p < 0 {
      MulNonPos(t, 2 * p + 1);
    }
    if p > 100 {
      MulAtLeast(t, 2 * p - 1, 201);
    }
    if s == 0 && p > 0 {
      MulAtLeast(t, 2 * p - 1, 1);
    }
    if s == t && p < 100 {
      MulAtMost(t, 2 * p + 1, 199);
    }
    if s == t && p > 100 {
      MulAtLeast(t, 2 * p - 1, 201);
    }
  }

  lemma MulNonPos(t: int, m: int)
    requires t > 0 && m <= 0
    ensures t * m <= 0
  {
  }

  lemma MulAtLeast(t: int, m: int, k: int)
    requires t > 0 && m >= k
    ensures t * m >= t * k
  {
  }

  lemma MulAtMost(t: int, m: int, k: int)
    requires t > 0 && m <= k
    ensures t * m <= t * k
  {
  }

  /** getBoxColor on a finite uptime. */
  function BandOf(uptime: int): (c: Color)
    ensures c == DarkRed <==> uptime <= 20
    ensures c == Red <==> 21 <= uptime <= 50
    ensures c == Orange <==> 51 <= uptime <= 74
    ensures c == Green <==> uptime >= 75
  {
    if uptime <= 20 then DarkRed
    else if uptime <= 50 then Red
    else if uptime < 75 then Orange
    else Green
  }

  /** getBoxColor: every comparison with NaN is false, so NaN falls through to green like +Infinity. */
  function BoxColor(u: Uptime): (c: Color)
    ensures u.NaN? || u.PositiveInfinity? ==> c == Green
    ensures u.NegativeInfinity? ==> c == DarkRed
  {
    match u
    case Percent(p) => BandOf(p)
    case NaN => Green
    case PositiveInfinity => Green
    case NegativeInfinity => DarkRed
  }

  /** A higher uptime never gets a redder colour. */
  lemma BandMonotone(u: int, v: int)
    requires u <= v
    ensures Rank(BandOf(u)) <= Rank(BandOf(v))
  {
  }

  /** The column keys: the service keys of the first team, or none without teams. */
  function Columns(teamData: seq<Team>): (cols: seq<string>)
    ensures teamData == [] ==> cols == []
    ensures teamData != [] ==> cols == Keys(teamData[0].services)
  {
    if |teamData| > 0 then Keys(teamData[0].services) else []
  }

  /** One cell: the uptime and its colour. */
  datatype Cell = Cell(uptime: Uptime, color: Color)

  /**
   * The cell of a team and a service: a missing service counts as 0
   * successful checks out of 1.
   */
  function CellOf(team: Team, service: string): Cell
  {
    var data := Lookup(team.services, service);
    var successful := if data.Some? then data.value.successfulChecks else 0;
    var total := if data.Some? then data.value.totalChecks else 1;
    var u := GetUptime(successful, total);
    Cell(u, BoxColor(u))
  }

  /** A service a team does not have shows 0% in dark red. */
  lemma MissingServiceIsDarkRed(team: Team, service: string)
    requires forall i :: 0 <= i < |team.services| ==> team.services[i].name != service
    ensures CellOf(team, service) == Cell(Percent(0), DarkRed)
  {
  }

  /** A service with no checks yet shows NaN% in green. */
  lemma UncheckedServiceIsGreen(team: Team, service: string, data: ServiceData)
    requires Lookup(team.services, service) == Some(data)
    requires data.successfulChecks == 0 && data.totalChecks == 0
    ensures CellOf(team, service) == Cell(NaN, Green)
  {
  }

  /** One row of the grid: the team's name and one cell per column. */
  datatype Row = Row(teamName: string, cells: seq<Cell>)

  function Grid(teamData: seq<Team>): (rows: seq<Row>)
    ensures |rows| == |teamData|
    ensures forall i :: 0 <= i < |rows| ==>
              && rows[i].teamName == teamData[i].name
              && |rows[i].cells| == |Columns(teamData)|
              && forall k :: 0 <= k < |Columns(teamData)| ==>
                   rows[i].cells[k] == CellOf(teamData[i], Columns(teamData)[k])
  {
    var cols := Columns(teamData);
    seq(|teamData|, i requires 0 <= i < |teamData| =>
      Row(teamData[i].name, seq(|cols|, k requires 0 <= k < |cols| => CellOf(teamData[i], cols[k]))))
  }

  /** String.prototype.toUpperCase on ASCII letters. */
  function UpperAscii(s: string): (r: string)
    ensures |r| == |s|
    ensures forall i :: 0 <= i < |s| ==>
              r[i] == (if 'a' <= s[i] <= 'z' then (s[i] as int - 32) as char else s[i])
  {
    seq(|s|, i requires 0 <= i < |s| => if 'a' <= s[i] <= 'z' then (s[i] as int - 32) as char else s[i])
  }

  /** service.split("_")[1]?.toUpperCase(): the second "_"-separated piece, upper-cased. */
  function HeaderLabel(service: string): (r: Option<string>)
    ensures r.None? <==> '_' !in service
  {
    var parts := Split(service, '_');
    if |parts| >= 2 then Some(UpperAscii(parts[1])) else None
  }

  /** The header of a "box_service" column is the service part, upper-cased. */
  lemma {:induction false} HeaderOfFullName(vm: string, svc: string)
    requires '_' !in vm && '_' !in svc
    ensures HeaderLabel(vm + "_" + svc) == Some(UpperAscii(svc))
  {
    JoinSplit([vm, svc], '_');
    assert Join([vm, svc], "_") == vm + "_" + Join([svc], "_");
  }
}
