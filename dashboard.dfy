/**
 * Summary figures of the dashboard (app/webapps/dashboard/service.py). The
 * rows come from queries that are not part of this model, so each query's
 * result is a parameter.
 */
module Dashboard {
  import opened Wrappers
  import opened Users

  /** A row of `get_sessions_last_7days`: the number of sessions of one day. */
  datatype DaySessions = DaySessions(total: nat)

  function Sum(xs: seq<nat>): nat {
    if xs == [] then 0 else Sum(xs[..|xs| - 1]) + xs[|xs| - 1]
  }

  /** The `total` column of each row, in order. */
  function Totals(rows: seq<DaySessions>): (ts: seq<nat>)
    ensures |ts| == |rows| && forall i :: 0 <= i < |rows| ==> ts[i] == rows[i].total
  {
    seq(|rows|, i requires 0 <= i < |rows| => rows[i].total)
  }

  /** `int(ceil(a / n))` for a positive `n`: the least integer whose multiple by `n` reaches `a`. */
  function CeilDiv(a: nat, n: nat): (r: nat)
    requires n > 0
    ensures r * n >= a && (r == 0 || (r - 1) * n < a)
    decreases a
  {
    if a == 0 then 0
    else if a <= n then 1
    else
      var r := 1 + CeilDiv(a - n, n);
      assert r * n == n + (r - 1) * n;
      r
  }

  /**
   * `get_7days_total_avg_session`: the rounded-up average of the daily
   * totals; None for no rows, where the division by zero raises.
   */
  method Get7DaysTotalAvgSession(rows: seq<DaySessions>) returns (r: Option<nat>)
    ensures r.None? <==> rows == []
    ensures r.Some? ==> r.value == CeilDiv(Sum(Totals(rows)), |rows|)
    ensures r.Some? ==> r.value * |rows| >= Sum(Totals(rows)) && (r.value == 0 || (r.value - 1) * |rows| < Sum(Totals(rows)))
  {
    var dataList: seq<nat> := [];
    var i := 0;
    while i < |rows|
      invariant 0 <= i <= |rows|
      invariant dataList == Totals(rows[..i])
    {
      assert Totals(rows[..i + 1]) == Totals(rows[..i]) + [rows[i].total];
      dataList := dataList + [rows[i].total];
      i := i + 1;
    }
    assert rows[..i] == rows;
    if |dataList| == 0 {
      return None;
    }
    r := Some(CeilDiv(Sum(dataList), |dataList|));
  }

  /** Seven days with the same total average to that total. */
  lemma {:induction false} ConstantDaysAverage(rows: seq<DaySessions>, t: nat)
    requires rows != [] && forall i :: 0 <= i < |rows| ==> rows[i].total == t
    ensures CeilDiv(Sum(Totals(rows)), |rows|) == t
  {
    SumOfConstant(Totals(rows), t);
    CeilDivOfMultiple(t, |rows|);
  }

  lemma {:induction false} CeilDivOfMultiple(t: nat, n: nat)
    requires n > 0
    ensures CeilDiv(t * n, n) == t
  {
    if t > 1 {
      assert t * n - n == (t - 1) * n;
      CeilDivOfMultiple(t - 1, n);
    }
  }

  lemma {:induction false} SumOfConstant(xs: seq<nat>, t: nat)
    requires forall i :: 0 <= i < |xs| ==> xs[i] == t
    ensures Sum(xs) == t * |xs|
  {
    if xs != [] {
      SumOfConstant(xs[..|xs| - 1], t);
    }
  }

  datatype Statistics = Statistics(totalUsers: int, totalSessionToday: nat, totalSession7Days: nat, totalUnverAccTmonth: nat)

  /**
   * `get_statistics`: `total_users` as given, the number of today's
   * sessions, the 7-day average and the number of accounts still unverified
   * this month; None when the 7-day query returned no row.
   */
  method GetStatistics(totalUsers: int, sessionsToday: seq<User>, last7Days: seq<DaySessions>, unverifiedThisMonth: seq<User>)
    returns (r: Option<Statistics>)
    ensures r.None? <==> last7Days == []
    ensures r.Some? ==> && r.value.totalUsers == totalUsers
                        && r.value.totalSessionToday == |sessionsToday|
                        && r.value.totalSession7Days == CeilDiv(Sum(Totals(last7Days)), |last7Days|)
                        && r.value.totalUnverAccTmonth == |unverifiedThisMonth|
  {
    var avg := Get7DaysTotalAvgSession(last7Days);
    if avg.None? {
      return None;
    }
    r := Some(Statistics(totalUsers, |sessionsToday|, avg.value, |unverifiedThisMonth|));
  }
}
