/**
 The time and station reports (`time_stats`, `station_stats`).

 Every "most common" value is pandas' `mode()[0]`: the modes come back
 sorted ascending and the first is taken, so among equally frequent values
 the smallest wins. The popular trip groups rows by (start, end) with keys
 sorted lexicographically and takes `idxmax`, the first key of largest
 size: again the smallest among the most frequent.
 */
module Stats {
  import opened Sequences
  import opened Text
  import opened Trips

  predicate IntLess(a: int, b: int)
  {
    a < b
  }

  /** The order of `groupby` keys: by start station, then by end station. */
  predicate RouteLess(a: Route, b: Route)
  {
    StrLess(a.startStation, b.startStation)
    || (a.startStation == b.startStation && StrLess(a.endStation, b.endStation))
  }

  lemma IntLessIsStrictTotalOrder()
    ensures StrictTotalOrder(IntLess)
  {
  }

  lemma RouteLessIsStrictTotalOrder()
    ensures StrictTotalOrder(RouteLess)
  {
    StrLessIsStrictTotalOrder();
    forall a, b | a != b
      ensures RouteLess(a, b) || RouteLess(b, a)
    {
      if a.startStation != b.startStation {
        StrLessTotal(a.startStation, b.startStation);
      } else {
        StrLessTotal(a.endStation, b.endStation);
      }
    }
    forall a, b, c | RouteLess(a, b) && RouteLess(b, c)
      ensures RouteLess(a, c)
    {
      if StrLess(a.startStation, b.startStation) && StrLess(b.startStation, c.startStation) {
        StrLessTransitive(a.startStation, b.startStation, c.startStation);
      } else if StrLess(a.endStation, b.endStation) && StrLess(b.endStation, c.endStation) {
        StrLessTransitive(a.endStation, b.endStation, c.endStation);
      }
    }
    forall a ensures !RouteLess(a, a) {
      StrLessIrreflexive(a.startStation);
      StrLessIrreflexive(a.endStation);
    }
  }

  /**
   The time report. `monthName` is `months[common_month]`, which raises
   `IndexError` (here `None`) when the most common month is past June.
   */
  datatype TimeReport = TimeReport(month: int, monthName: Option<string>, dayOfWeek: string, hour: int)

  /** Most common month (with its name), weekday and start hour of a non-empty table. */
  method TimeStats(trips: seq<Trip>) returns (r: TimeReport)
    requires |trips| > 0
    ensures IsMode(Column(trips, MonthOf), r.month, IntLess)
    ensures r.monthName == MonthLabel(r.month)
    ensures (forall t :: t in trips ==> 1 <= t.month < |Months|) ==>
              r.monthName.Some? && r.monthName.value in Months[1..]
    ensures (forall t :: t in trips ==> t.month >= |Months|) ==> r.monthName.None?
    ensures IsMode(Column(trips, DayOf), r.dayOfWeek, StrLess)
    ensures IsMode(Column(trips, HourOf), r.hour, IntLess)
  {
    IntLessIsStrictTotalOrder();
    StrLessIsStrictTotalOrder();
    var months := Column(trips, MonthOf);
    var month := Mode(months, IntLess);
    var i :| 0 <= i < |months| && months[i] == month;
    assert trips[i].month == month;
    var day := Mode(Column(trips, DayOf), StrLess);
    var hour := Mode(Column(trips, HourOf), IntLess);
    r := TimeReport(month, MonthLabel(month), day, hour);
    assert 1 <= month < |Months| ==> Months[month] == Months[1..][month - 1];
  }

  datatype StationReport = StationReport(startStation: string, endStation: string, route: Route, routeCount: nat)

  /**
   Most common start station, end station and (start, end) route of a
   non-empty table, with the number of trips along that route.
   */
  method StationStats(trips: seq<Trip>) returns (r: StationReport)
    requires |trips| > 0
    ensures IsMode(Column(trips, StartOf), r.startStation, StrLess)
    ensures IsMode(Column(trips, EndOf), r.endStation, StrLess)
    ensures IsMode(Column(trips, RouteOf), r.route, RouteLess)
    ensures r.routeCount == Count(Column(trips, RouteOf), r.route)
    ensures r.routeCount > 0
    ensures forall t :: t in trips ==> Count(Column(trips, RouteOf), RouteOf(t)) <= r.routeCount
  {
    StrLessIsStrictTotalOrder();
    RouteLessIsStrictTotalOrder();
    var start := Mode(Column(trips, StartOf), StrLess);
    var end := Mode(Column(trips, EndOf), StrLess);
    var routes := Column(trips, RouteOf);
    var route := Mode(routes, RouteLess);
    var count := Count(routes, route);
    CountPositive(routes, route);
    forall t | t in trips
      ensures RouteOf(t) in routes
    {
      var i :| 0 <= i < |trips| && trips[i] == t;
      assert routes[i] == RouteOf(t);
    }
    r := StationReport(start, end, route, count);
  }

  /** The number of trips along a route is the number of trips that start and end at its stations. */
  lemma {:induction false} RouteCountIsTripCount(trips: seq<Trip>, route: Route)
    ensures Count(Column(trips, RouteOf), route)
            == |Keep(trips, (t: Trip) => t.startStation == route.startStation && t.endStation == route.endStation)|
  {
    if |trips| > 0 {
      RouteCountIsTripCount(trips[1..], route);
      assert Column(trips, RouteOf)[1..] == Column(trips[1..], RouteOf);
    }
  }
}
