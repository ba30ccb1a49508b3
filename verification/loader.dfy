/**
 The dataset loader (`load_data`): city lookup and the month/day filter.

 Reading and parsing a city's file is outside the model; the files are a
 map from file name to the trips they hold, with calendar fields derived.
 */
module Loader {
  import opened Sequences
  import opened Text
  import opened Trips

  datatype LoadError =
    | UnknownCity(city: string)     // `CITY_DATA[city]` raises KeyError
    | MissingFile(file: string)     // the city's file cannot be read

  datatype Loaded = Loaded(trips: seq<Trip>) | LoadFailed(error: LoadError)

  /** Whether a trip survives the month filter and then the day filter. */
  predicate Selected(month: int, day: string, t: Trip)
  {
    && (month != 0 ==> t.month == month)
    && (Lower(day) != "all" ==> t.dayOfWeek == day)
  }

  /**
   The two filters applied one after the other: the month filter only when
   `month != 0`, the day filter only when `day.lower() != "all"` (the kept
   rows are those whose weekday equals `day` as given).
   */
  function FilterTrips(trips: seq<Trip>, month: int, day: string): (r: seq<Trip>)
    ensures forall t :: t in r ==> Selected(month, day, t)
    ensures IsSubsequence(r, trips)
    ensures forall t :: Count(r, t) == (if Selected(month, day, t) then Count(trips, t) else 0)
  {
    var byMonth := if month != 0 then Keep(trips, (t: Trip) => t.month == month) else trips;
    var byDay := if Lower(day) != "all" then Keep(byMonth, (t: Trip) => t.dayOfWeek == day) else byMonth;
    SubsequenceReflexive(trips);
    SubsequenceReflexive(byMonth);
    SubsequenceTransitive(byDay, byMonth, trips);
    CountPositiveEverywhere(byDay);
    byDay
  }

  /** With month "all" and day "all" the table comes back unchanged. */
  lemma NoFilterKeepsEverything(trips: seq<Trip>, day: string)
    requires Lower(day) == "all"
    ensures FilterTrips(trips, 0, day) == trips
  {
  }

  /** A filter every trip already satisfies changes nothing. */
  lemma FilterOfMatchingTable(trips: seq<Trip>, month: int, day: string)
    requires forall t :: t in trips ==> Selected(month, day, t)
    ensures FilterTrips(trips, month, day) == trips
  {
    if month != 0 {
      KeepAll(trips, (t: Trip) => t.month == month);
    }
    if Lower(day) != "all" {
      KeepAll(trips, (t: Trip) => t.dayOfWeek == day);
    }
  }

  /** `load_data(city, month, day)`. */
  function LoadData(sel: Selection, files: map<string, seq<Trip>>): (r: Loaded)
    ensures sel.city !in CityData ==> r == LoadFailed(UnknownCity(sel.city))
    ensures sel.city in CityData && CityData[sel.city] !in files ==> r == LoadFailed(MissingFile(CityData[sel.city]))
    ensures sel.city in CityData && CityData[sel.city] in files ==> r.Loaded?
    ensures r.Loaded? ==>
              && sel.city in CityData && CityData[sel.city] in files
              && IsSubsequence(r.trips, files[CityData[sel.city]])
              && forall t :: Count(r.trips, t) ==
                   (if Selected(sel.month, sel.day, t) then Count(files[CityData[sel.city]], t) else 0)
  {
    if sel.city !in CityData then LoadFailed(UnknownCity(sel.city))
    else if CityData[sel.city] !in files then LoadFailed(MissingFile(CityData[sel.city]))
    else Loaded(FilterTrips(files[CityData[sel.city]], sel.month, sel.day))
  }

  /** A selection the input collector produced always reaches a city file. */
  lemma ValidSelectionLoads(sel: Selection, files: map<string, seq<Trip>>)
    requires ValidSelection(sel)
    requires forall c :: c in CityData ==> CityData[c] in files
    ensures LoadData(sel, files).Loaded?
  {
  }
}
