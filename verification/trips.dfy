/**
 The trip table and the program's fixed lookup tables.

 A `Trip` is one row of a city's table after the start time has been
 broken into its calendar fields (month, lower-case weekday name, hour);
 the timestamp itself is not modelled.
 */
module Trips {
  import opened Sequences

  datatype Trip = Trip(
    month: int,
    dayOfWeek: string,
    hour: int,
    startStation: string,
    endStation: string,
    userType: string,
    duration: nat)

  /** A (start station, end station) pair: the key of the popular-trip grouping. */
  datatype Route = Route(startStation: string, endStation: string)

  /** City name to the file holding its trips (`CITY_DATA`). */
  const CityData: map<string, string> :=
    map["chicago" := "chicago.csv", "new york" := "new_york_city.csv", "washington" := "washington.csv"]

  /** Month names a user may choose; the position is the month number, 0 meaning no filter. */
  const Months: seq<string> := ["all", "january", "february", "march", "april", "may", "june"]

  /** Weekday names a user may choose, "all" meaning no filter. */
  const Days: seq<string> :=
    ["all", "monday", "tuesday", "wednesday", "thursday", "friday", "saturday", "sunday"]

  /** The elements of a table, as a set for membership tests. */
  function Members(s: seq<string>): (r: set<string>)
    ensures forall x :: x in r <==> x in s
  {
    set x | x in s
  }

  /** What `get_filters` hands to `load_data`. */
  datatype Selection = Selection(city: string, month: int, day: string)

  predicate ValidSelection(sel: Selection)
  {
    && sel.city in CityData
    && 0 <= sel.month < |Months|
    && sel.day in Days
  }

  /**
   `months.index(name)`: the position of the first occurrence of `name`.
   The source only calls it on a name already known to be in the table.
   */
  function MonthIndex(name: string): (i: nat)
    requires name in Months
    ensures i < |Months| && Months[i] == name
    ensures forall j :: 0 <= j < i ==> Months[j] != name
  {
    IndexOf(Months, name)
  }

  function IndexOf(s: seq<string>, x: string): (i: nat)
    requires x in s
    ensures i < |s| && s[i] == x
    ensures forall j :: 0 <= j < i ==> s[j] != x
  {
    if s[0] == x then 0 else 1 + IndexOf(s[1..], x)
  }

  /**
   `months[m]` as the time report uses it on the most common month: Python
   list indexing, so -7..-1 count from the end and anything else raises
   `IndexError` (here `None`).
   */
  function MonthLabel(m: int): (r: Option<string>)
    ensures r.Some? <==> -|Months| <= m < |Months|
    ensures r.Some? ==> r.value in Months
    ensures 0 <= m < |Months| ==> r == Some(Months[m])
  {
    if 0 <= m < |Months| then Some(Months[m])
    else if -|Months| <= m < 0 then Some(Months[|Months| + m])
    else None
  }

  /** Converting a chosen month name to its number and back gives the name again. */
  lemma MonthLabelOfIndex(name: string)
    requires name in Months
    ensures MonthLabel(MonthIndex(name)) == Some(name)
    ensures MonthIndex(name) == 0 <==> name == "all"
  {
  }

  /** One column of the table, in row order. */
  function Column<U>(trips: seq<Trip>, field: Trip -> U): (r: seq<U>)
    ensures |r| == |trips|
    ensures forall i :: 0 <= i < |trips| ==> r[i] == field(trips[i])
  {
    seq(|trips|, i requires 0 <= i < |trips| => field(trips[i]))
  }

  function MonthOf(t: Trip): int { t.month }
  function DayOf(t: Trip): string { t.dayOfWeek }
  function HourOf(t: Trip): int { t.hour }
  function StartOf(t: Trip): string { t.startStation }
  function EndOf(t: Trip): string { t.endStation }
  function UserTypeOf(t: Trip): string { t.userType }
  function RouteOf(t: Trip): Route { Route(t.startStation, t.endStation) }
}
