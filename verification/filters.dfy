/**
 The input collector (`get_filters`).

 Each question is asked again until an acceptable answer arrives. The
 answers the user types are modelled as a finite script: a question reads
 answers from the front of the script, and when the script runs out before
 an acceptable answer the result is `None` (the program would still be
 waiting at the prompt).
 */
module Filters {
  import opened Sequences
  import opened Text
  import opened Trips

  /** An accepted answer, after normalisation, and how many answers it took. */
  datatype Answer = Answer(value: string, used: nat)

  /** The i-th answer to a question as it is compared with the table. */
  function Normalize(answer: string, lower: bool): string
  {
    if lower then Lower(answer) else answer
  }

  /**
   Asking one question: answers are tried in order; the first one is
   lower-cased only when `lowerFirst` holds, every re-prompt answer is
   lower-cased. The result is the first acceptable normalised answer.
   */
  function Ask(answers: seq<string>, valid: set<string>, lowerFirst: bool): (r: Option<Answer>)
    ensures r.Some? ==>
              && 1 <= r.value.used <= |answers|
              && r.value.value in valid
              && r.value.value == Normalize(answers[r.value.used - 1], r.value.used > 1 || lowerFirst)
              && forall i :: 0 <= i < r.value.used - 1 ==> Normalize(answers[i], i > 0 || lowerFirst) !in valid
    ensures r.None? <==> forall i :: 0 <= i < |answers| ==> Normalize(answers[i], i > 0 || lowerFirst) !in valid
  {
    AskFrom(answers, valid, lowerFirst, 0)
  }

  function AskFrom(answers: seq<string>, valid: set<string>, lowerFirst: bool, i: nat): (r: Option<Answer>)
    requires i <= |answers|
    ensures r.Some? ==>
              && i + 1 <= r.value.used <= |answers|
              && r.value.value in valid
              && r.value.value == Normalize(answers[r.value.used - 1], r.value.used > 1 || lowerFirst)
              && forall j :: i <= j < r.value.used - 1 ==> Normalize(answers[j], j > 0 || lowerFirst) !in valid
    ensures r.None? <==> forall j :: i <= j < |answers| ==> Normalize(answers[j], j > 0 || lowerFirst) !in valid
    decreases |answers| - i
  {
    if i == |answers| then None
    else
      var a := Normalize(answers[i], i > 0 || lowerFirst);
      if a in valid then Some(Answer(a, i + 1)) else AskFrom(answers, valid, lowerFirst, i + 1)
  }

  /** The city question: every answer is lower-cased. */
  function AskCity(answers: seq<string>): Option<Answer>
  {
    Ask(answers, CityData.Keys, true)
  }

  /** The month question: every answer is lower-cased. */
  function AskMonth(answers: seq<string>): Option<Answer>
  {
    Ask(answers, Members(Months), true)
  }

  /** The day question: the first answer is compared exactly as typed. */
  function AskDay(answers: seq<string>): Option<Answer>
  {
    Ask(answers, Members(Days), false)
  }

  /**
   The three questions in turn, each reading the answers the previous one
   left over; the month name is turned into its number. The result also
   says how many answers were read in all.
   */
  function GetFilters(answers: seq<string>): (r: Option<(Selection, nat)>)
    ensures r.Some? ==> ValidSelection(r.value.0) && r.value.1 <= |answers|
    ensures AskCity(answers).None? ==> r.None?
    ensures AskCity(answers).Some? ==>
              var city := AskCity(answers).value;
              var afterCity := answers[city.used..];
              && (AskMonth(afterCity).None? ==> r.None?)
              && (AskMonth(afterCity).Some? ==>
                    var month := AskMonth(afterCity).value;
                    var afterMonth := afterCity[month.used..];
                    && (AskDay(afterMonth).None? ==> r.None?)
                    && (AskDay(afterMonth).Some? ==>
                          var day := AskDay(afterMonth).value;
                          && r.Some?
                          && r.value.0.city == city.value
                          && 0 <= r.value.0.month < |Months|
                          && Months[r.value.0.month] == month.value
                          && r.value.0.day == day.value
                          && r.value.1 == city.used + month.used + day.used))
  {
    match AskCity(answers)
    case None => None
    case Some(city) =>
      var afterCity := answers[city.used..];
      match AskMonth(afterCity)
      case None => None
      case Some(month) =>
        var afterMonth := afterCity[month.used..];
        match AskDay(afterMonth)
        case None => None
        case Some(day) =>
          assert city.value in CityData && month.value in Months && day.value in Days;
          var sel := Selection(city.value, MonthIndex(month.value), day.value);
          assert ValidSelection(sel);
          Some((sel, city.used + month.used + day.used))
  }

  /**
   The asymmetry of the day question: a first answer that is only valid
   once lower-cased ("Monday") is refused, while the very same text given
   again at the re-prompt is accepted.
   */
  lemma DayFirstAnswerIsCaseSensitive(a: string)
    requires a !in Days && Lower(a) in Days
    ensures AskDay([a]) == None
    ensures AskDay([a, a]) == Some(Answer(Lower(a), 2))
  {
    var valid := Members(Days);
    assert Normalize([a, a][1], true) in valid;
    assert AskFrom([a, a], valid, false, 1) == Some(Answer(Lower(a), 2));
  }

  /** The city and month questions, unlike the day question, lower-case the very first answer. */
  lemma CityAndMonthFirstAnswerLowered(a: string, more: seq<string>)
    ensures Lower(a) in CityData ==> AskCity([a] + more) == Some(Answer(Lower(a), 1))
    ensures Lower(a) in Months ==> AskMonth([a] + more) == Some(Answer(Lower(a), 1))
  {
  }

  /** An answer accepted by the month question gives a month number in 0..6 naming that answer. */
  lemma MonthAnswerNumber(answers: seq<string>)
    requires AskMonth(answers).Some?
    ensures 0 <= MonthIndex(AskMonth(answers).value.value) < |Months|
    ensures Months[MonthIndex(AskMonth(answers).value.value)] == Lower(answers[AskMonth(answers).value.used - 1])
  {
  }
}
