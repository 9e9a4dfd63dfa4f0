/**
 * The leaderboard bar chart of the React front-end (ScoreGraph.tsx): each
 * team becomes a bar whose value is the sum of its services' points, and
 * the bars are sorted in place, highest first, before being stored as the
 * chart's state.
 */
module ScoreGraph {
  import opened TeamHandler
  import opened Sorting

  datatype Bar = Bar(barLabel: string, value: int, color: string)

  /** The bar colour of a team whose Color is empty. */
  const DefaultColor: string := "#89CFF0"

  /** The sort key of a bar. */
  function BarValue(b: Bar): int
  {
    b.value
  }

  /** Object.values(Services).reduce((sum, s) => sum + s.points, 0). */
  function TotalPoints(services: seq<ServiceEntry>): int
  {
    if services == [] then 0
    else TotalPoints(services[..|services| - 1]) + services[|services| - 1].data.points
  }

  /** The total over two runs of services is the sum of their totals. */
  lemma {:induction false} TotalPointsAppend(a: seq<ServiceEntry>, b: seq<ServiceEntry>)
    ensures TotalPoints(a + b) == TotalPoints(a) + TotalPoints(b)
    decreases |b|
  {
    if b != [] {
      TotalPointsAppend(a, b[..|b| - 1]);
      assert (a + b)[..|a + b| - 1] == a + b[..|b| - 1];
    } else {
      assert a + b == a;
    }
  }

  /** With non-negative points the total is non-negative and at least each service's points. */
  lemma {:induction false} TotalPointsBounds(services: seq<ServiceEntry>)
    requires forall i :: 0 <= i < |services| ==> services[i].data.points >= 0
    ensures TotalPoints(services) >= 0
    ensures forall i :: 0 <= i < |services| ==> TotalPoints(services) >= services[i].data.points
  {
    if services != [] {
      var init := services[..|services| - 1];
      TotalPointsBounds(init);
    }
  }

  /** The map step of the effect: one bar per team, in team order. */
  function FormatTeams(teams: seq<Team>): (bars: seq<Bar>)
    ensures |bars| == |teams|
    ensures forall i :: 0 <= i < |teams| ==>
              && bars[i].barLabel == teams[i].name
              && bars[i].value == TotalPoints(teams[i].services)
              && bars[i].color == (if teams[i].color != "" then teams[i].color else DefaultColor)
  {
    seq(|teams|, i requires 0 <= i < |teams| =>
      Bar(teams[i].name, TotalPoints(teams[i].services),
          if teams[i].color != "" then teams[i].color else DefaultColor))
  }

  /** The chart data the effect stores for a non-empty team list. */
  function ChartOf(teams: seq<Team>): seq<Bar>
  {
    SortDesc(FormatTeams(teams), BarValue)
  }

  /**
   * The chart is a permutation of the per-team bars, non-increasing by value,
   * with bars of equal value in team order.
   */
  lemma ChartIsLeaderboard(teams: seq<Team>)
    ensures |ChartOf(teams)| == |teams|
    ensures SortedDesc(ChartOf(teams), BarValue)
    ensures multiset(ChartOf(teams)) == multiset(FormatTeams(teams))
    ensures forall v :: WithKey(ChartOf(teams), BarValue, v) == WithKey(FormatTeams(teams), BarValue, v)
  {
    SortDescCorrect(FormatTeams(teams), BarValue);
  }

  /** Every bar of the chart belongs to one of the teams and carries its total. */
  lemma ChartBarsComeFromTeams(teams: seq<Team>, k: nat)
    requires k < |ChartOf(teams)|
    ensures exists i :: 0 <= i < |teams| && ChartOf(teams)[k].barLabel == teams[i].name
                        && ChartOf(teams)[k].value == TotalPoints(teams[i].services)
  {
    ChartIsLeaderboard(teams);
    var bars := FormatTeams(teams);
    assert ChartOf(teams)[k] in multiset(bars);
    var i :| 0 <= i < |bars| && bars[i] == ChartOf(teams)[k];
  }

  /** The shifting loop: moves the entries of a[..i] below x one place up and returns the gap. */
  method ShiftSmaller(a: array<Bar>, i: nat, x: Bar) returns (j: nat)
    requires i < a.Length
    modifies a
    ensures j <= i
    ensures forall t :: 0 <= t < j ==> a[t] == old(a[t])
    ensures forall t :: j < t <= i ==> a[t] == old(a[t - 1])
    ensures forall t :: i < t < a.Length ==> a[t] == old(a[t])
    ensures j == 0 || old(a[j - 1]).value >= x.value
    ensures forall t :: j <= t < i ==> old(a[t]).value < x.value
  {
    ghost var sorted := a[..i];
    j := i;
    while j > 0 && a[j - 1].value < x.value
      invariant 0 <= j <= i
      invariant forall t :: 0 <= t < j ==> a[t] == sorted[t]
      invariant forall t :: j < t <= i ==> a[t] == sorted[t - 1]
      invariant forall t :: j <= t < i ==> sorted[t].value < x.value
      invariant forall t :: i < t < a.Length ==> a[t] == old(a[t])
    {
      a[j] := a[j - 1];
      j := j - 1;
    }
  }

  /** One step of the in-place insertion: moves a[i] into the sorted a[..i]. */
  method InsertInPlace(a: array<Bar>, i: nat)
    requires i < a.Length
    requires SortedDesc(a[..i], BarValue)
    modifies a
    ensures a[..i + 1] == Insert(old(a[..i]), old(a[i]), BarValue)
    ensures a[i + 1..] == old(a[i + 1..])
  {
    ghost var sorted := a[..i];
    var x := a[i];
    var j := ShiftSmaller(a, i, x);
    a[j] := x;
    ghost var r := a[..i + 1];
    InsertLanding(sorted, x, j, r);
  }

  /** The array after the shifting loop holds the insertion of x into the sorted prefix. */
  lemma InsertLanding(sorted: seq<Bar>, x: Bar, j: nat, r: seq<Bar>)
    requires SortedDesc(sorted, BarValue) && j <= |sorted|
    requires j == 0 || sorted[j - 1].value >= x.value
    requires forall t :: j <= t < |sorted| ==> sorted[t].value < x.value
    requires |r| == |sorted| + 1 && r[j] == x
    requires forall t :: 0 <= t < j ==> r[t] == sorted[t]
    requires forall t :: j < t < |r| ==> r[t] == sorted[t - 1]
    ensures r == Insert(sorted, x, BarValue)
  {
    forall t | 0 <= t < j ensures BarValue(sorted[t]) >= BarValue(x) {
      assert BarValue(sorted[t]) >= BarValue(sorted[j - 1]);
    }
    InsertAt(sorted, x, BarValue, j);
    assert r == sorted[..j] + [x] + sorted[j..];
  }

  /** Array.prototype.sort((a, b) => b.value - a.value): stable, highest value first. */
  method SortBarsInPlace(a: array<Bar>)
    modifies a
    ensures a[..] == SortDesc(old(a[..]), BarValue)
  {
    ghost var s := a[..];
    var i := 0;
    while i < a.Length
      invariant 0 <= i <= a.Length
      invariant a[..i] == SortDesc(s[..i], BarValue)
      invariant a[i..] == s[i..]
    {
      SortDescCorrect(s[..i], BarValue);
      InsertInPlace(a, i);
      SortDescStep(s, i, BarValue);
      i := i + 1;
    }
    assert a[..] == a[..a.Length] && s == s[..a.Length];
  }

  /** The chart state of the ScoreGraph component. */
  class ScoreChart {
    var chartData: seq<Bar>

    constructor ()
      ensures chartData == []
    {
      chartData := [];
    }

    /** The useEffect run when new team data arrives. */
    method OnTeamData(teamData: seq<Team>)
      modifies this
      ensures teamData == [] ==> chartData == old(chartData)
      ensures teamData != [] ==> chartData == ChartOf(teamData)
    {
      if |teamData| == 0 {
        return;
      }
      var formatted := FormatTeams(teamData);
      var a := new Bar[|formatted|](i requires 0 <= i < |formatted| => formatted[i]);
      assert a[..] == formatted;
      if a.Length > 1 {
        SortBarsInPlace(a);
      } else {
        assert formatted == [formatted[0]];
        assert SortDesc(formatted, BarValue) == Insert([], formatted[0], BarValue);
      }
      chartData := a[..];
    }
  }
}
