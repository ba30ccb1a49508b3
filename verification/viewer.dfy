/**
 The raw-data viewer at the end of each cycle of `main`.

 A cursor starts at row 0. Each answer whose lower-cased text is "yes"
 shows the next five rows (a slice that is simply shorter, or empty, past
 the end of the table) and moves the cursor on by five; any other answer
 ends the viewer. The loop's `row <= df.size` test is joined to `True` by
 `or`, so it never stops the loop and is not modelled.
 */
module Viewer {
  import opened Text
  import opened Trips

  const PageSize: nat := 5

  /** The viewer's state: where the next page starts, the pages shown so far, whether it has ended. */
  datatype Pager = Pager(cursor: nat, shown: seq<seq<Trip>>, done: bool)

  const Start: Pager := Pager(0, [], false)

  function Min(a: nat, b: nat): nat
  {
    if a <= b then a else b
  }

  /** `df.iloc[row:row+5]`: Python slicing clamps both bounds to the table. */
  function Page(table: seq<Trip>, row: nat): (r: seq<Trip>)
    ensures |r| <= PageSize
    ensures row >= |table| ==> r == []
    ensures row + PageSize <= |table| ==> |r| == PageSize
  {
    table[Min(row, |table|)..Min(row + PageSize, |table|)]
  }

  predicate IsYes(answer: string)
  {
    Lower(answer) == "yes"
  }

  /**
   One answer to "Would you like to view individual trip data?": a "yes"
   to a running viewer adds one page and moves the cursor on by a page;
   any other answer ends it; an ended viewer ignores answers. Pages already
   shown are never taken back.
   */
  function Step(p: Pager, table: seq<Trip>, answer: string): (r: Pager)
    ensures r.done <==> p.done || !IsYes(answer)
    ensures |r.shown| == |p.shown| + (if !p.done && IsYes(answer) then 1 else 0)
    ensures r.shown[..|p.shown|] == p.shown
    ensures r.cursor == p.cursor + PageSize * (|r.shown| - |p.shown|)
  {
    if p.done then p
    else if IsYes(answer) then Pager(p.cursor + PageSize, p.shown + [Page(table, p.cursor)], false)
    else p.(done := true)
  }

  /** The viewer after a script of answers. */
  function Run(table: seq<Trip>, answers: seq<string>): Pager
  {
    RunFrom(Start, table, answers)
  }

  function RunFrom(p: Pager, table: seq<Trip>, answers: seq<string>): Pager
    decreases |answers|
  {
    if |answers| == 0 then p else RunFrom(Step(p, table, answers[0]), table, answers[1..])
  }

  /** Number of "yes" answers before the first other answer. */
  function LeadingYes(answers: seq<string>): (k: nat)
    ensures k <= |answers|
    ensures forall i :: 0 <= i < k ==> IsYes(answers[i])
    ensures k < |answers| ==> !IsYes(answers[k])
  {
    if |answers| == 0 || !IsYes(answers[0]) then 0 else 1 + LeadingYes(answers[1..])
  }

  function Concat(pages: seq<seq<Trip>>): seq<Trip>
  {
    if |pages| == 0 then [] else Concat(pages[..|pages| - 1]) + pages[|pages| - 1]
  }

  /**
   What a running viewer always satisfies: the cursor is five times the
   number of pages shown, the i-th page is the slice starting at row 5i,
   and the pages together are the table's first rows up to the cursor.
   */
  ghost predicate Consistent(p: Pager, table: seq<Trip>)
  {
    && p.cursor == PageSize * |p.shown|
    && (forall i :: 0 <= i < |p.shown| ==> p.shown[i] == Page(table, PageSize * i))
    && Concat(p.shown) == table[..Min(p.cursor, |table|)]
  }

  lemma StepKeepsConsistent(p: Pager, table: seq<Trip>, answer: string)
    requires Consistent(p, table)
    ensures Consistent(Step(p, table, answer), table)
  {
    if !p.done && IsYes(answer) {
      var q := Step(p, table, answer);
      assert q.shown[..|q.shown| - 1] == p.shown;
      var a := Min(p.cursor, |table|);
      var b := Min(p.cursor + PageSize, |table|);
      assert table[..a] + table[a..b] == table[..b];
    }
  }

  lemma {:induction false} RunFromFacts(p: Pager, table: seq<Trip>, answers: seq<string>)
    requires Consistent(p, table)
    ensures Consistent(RunFrom(p, table, answers), table)
    ensures p.done ==> RunFrom(p, table, answers) == p
    ensures !p.done ==> |RunFrom(p, table, answers).shown| == |p.shown| + LeadingYes(answers)
    ensures !p.done ==> (RunFrom(p, table, answers).done <==> LeadingYes(answers) < |answers|)
    decreases |answers|
  {
    if |answers| > 0 {
      StepKeepsConsistent(p, table, answers[0]);
      RunFromFacts(Step(p, table, answers[0]), table, answers[1..]);
    }
  }

  /**
   After the answers, the cursor is five times the number of leading "yes"
   answers, the viewer has ended exactly when some other answer came, and
   the pages shown are the 5-row slices in order, which together make up the
   table's first min(5k, n) rows.
   */
  lemma RunShowsPrefix(table: seq<Trip>, answers: seq<string>)
    ensures Run(table, answers).cursor == PageSize * LeadingYes(answers)
    ensures Run(table, answers).done <==> LeadingYes(answers) < |answers|
    ensures |Run(table, answers).shown| == LeadingYes(answers)
    ensures forall i :: 0 <= i < LeadingYes(answers) ==>
              Run(table, answers).shown[i] == Page(table, PageSize * i)
    ensures Concat(Run(table, answers).shown) == table[..Min(PageSize * LeadingYes(answers), |table|)]
  {
    assert Concat(Start.shown) == table[..0];
    RunFromFacts(Start, table, answers);
  }

  /** Once an answer other than "yes" arrives, later answers change nothing. */
  lemma {:induction false} AnswersAfterNoIgnored(p: Pager, table: seq<Trip>, answers: seq<string>, later: seq<string>)
    requires LeadingYes(answers) < |answers|
    ensures RunFrom(p, table, answers + later) == RunFrom(p, table, answers)
    decreases |answers|
  {
    assert (answers + later)[0] == answers[0];
    assert (answers + later)[1..] == answers[1..] + later;
    var q := Step(p, table, answers[0]);
    if IsYes(answers[0]) {
      AnswersAfterNoIgnored(q, table, answers[1..], later);
    } else {
      RunFromDone(q, table, answers[1..] + later);
      RunFromDone(q, table, answers[1..]);
    }
  }

  lemma {:induction false} RunFromDone(p: Pager, table: seq<Trip>, answers: seq<string>)
    requires p.done
    ensures RunFrom(p, table, answers) == p
    decreases |answers|
  {
    if |answers| > 0 {
      RunFromDone(p, table, answers[1..]);
    }
  }

  /** Three "yes" answers on a 7-row table show rows 0..5, then rows 5..7, then nothing. */
  lemma SevenRowTable(table: seq<Trip>)
    requires |table| == 7
    ensures Run(table, ["yes", "yes", "yes"]).shown == [table[0..5], table[5..7], []]
    ensures Run(table, ["yes", "yes", "yes"]).cursor == 15
  {
    var answers := ["yes", "yes", "yes"];
    assert Lower("yes") == "yes";
    assert LeadingYes(answers) == 3 by {
      assert LeadingYes(answers[1..][1..][1..]) == 0;
    }
    RunShowsPrefix(table, answers);
  }
}
