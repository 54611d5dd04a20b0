/** Which strategies a task's results leave: those of the first result that names any. */
module JobStrategies {
  import opened Basics
  import opened JobResults
  import opened JobResultRuns
  import SqlGate
  import SqlMeaning

  predicate IsTitled(c: Candidate) {
    exists k :: 0 <= k < |c.title| && !SqlGate.IsSpace(c.title[k])
  }

  lemma TitledExactlyWhen(c: Candidate)
    ensures SqlGate.Strip(c.title) != "" <==> IsTitled(c)
  {
    if SqlGate.Strip(c.title) != "" {
      SqlGate.StripShape(c.title);
      var first := SqlGate.Strip(c.title)[0];
      assert first in SqlGate.Strip(c.title);
      var k :| 0 <= k < |c.title| && c.title[k] == first;
    } else {
      assert SqlGate.Blank(c.title);
      SqlGate.BlankIsSpaces(c.title);
    }
  }

  /** The text's first `most` characters. */
  predicate IsStart(start: string, text: string, most: nat) {
    start <= text && |start| == if |text| <= most then |text| else most
  }

  /** The title without the white space around it. */
  predicate IsStripped(title: string, before: string, text: string, after: string) {
    && title == before + text + after && SqlMeaning.AllSpaces(before) && SqlMeaning.AllSpaces(after)
    && text != "" && !SqlGate.IsSpace(text[0]) && !SqlGate.IsSpace(text[|text| - 1])
  }

  /** The row carries the candidate, with what is missing or unknown filled in. */
  ghost predicate IsStrategyOf(r: Strategy, c: Candidate, task: string) {
    && r.sourceTask == task
    && (exists before, text, after :: IsStripped(c.title, before, text, after) && IsStart(r.title, text, 255))
    && IsStart(r.source, if c.source == "" then "数字员工" else c.source, 128)
    && r.impact == (if c.impact == "" then "预计提升经营执行效率" else c.impact)
    && r.risk == (if c.risk in {"low", "medium", "high"} then c.risk else "medium")
  }

  lemma StrategyForIs(c: Candidate, task: string)
    requires IsTitled(c)
    ensures IsStrategyOf(StrategyFor(c, task), c, task)
  {
    TitledExactlyWhen(c);
    SqlGate.StripShape(c.title);
    var before, after := SqlMeaning.StripIs(c.title);
    var text := SqlGate.Strip(c.title);
    assert IsStripped(c.title, before, text, after) && IsStart(StrategyFor(c, task).title, text, 255);
  }

  /** How many of the first `n` candidates have a title. */
  function TitledBefore(cs: seq<Candidate>, n: nat): nat
    requires n <= |cs|
  {
    if n == 0 then 0 else TitledBefore(cs, n - 1) + if IsTitled(cs[n - 1]) then 1 else 0
  }

  function AtMostThree(cs: seq<Candidate>): nat {
    if |cs| < 3 then |cs| else 3
  }

  /** The row that the i-th candidate leaves behind those of the earlier ones. */
  ghost predicate LeavesRow(before: seq<Strategy>, rows: seq<Strategy>, task: string, cs: seq<Candidate>, i: nat)
    requires i < |cs|
  {
    var k := |before| + TitledBefore(cs, i);
    k < |rows| && IsStrategyOf(rows[k], cs[i], task)
  }

  /** The table has grown by a row for each titled candidate of the first three, in order. */
  ghost predicate Inserts(before: seq<Strategy>, rows: seq<Strategy>, task: string, cs: seq<Candidate>) {
    && before <= rows && |rows| == |before| + TitledBefore(cs, AtMostThree(cs))
    && forall i: nat :: i < AtMostThree(cs) && IsTitled(cs[i]) ==> LeavesRow(before, rows, task, cs, i)
  }

  lemma RowStays(before: seq<Strategy>, rows: seq<Strategy>, more: seq<Strategy>, task: string, cs: seq<Candidate>,
      i: nat)
    requires i < |cs| && rows <= more && LeavesRow(before, rows, task, cs, i)
    ensures LeavesRow(before, more, task, cs, i)
  {}

  /** The rows of the first `n` candidates, and where each of them stands. */
  ghost predicate RowsStand(before: seq<Strategy>, rows: seq<Strategy>, task: string, cs: seq<Candidate>, n: nat)
    requires n <= |cs|
  {
    && |rows| == TitledBefore(cs, n)
    && forall i: nat :: i < n && IsTitled(cs[i]) ==> LeavesRow(before, before + rows, task, cs, i)
  }

  lemma NewRowStands(before: seq<Strategy>, rows: seq<Strategy>, task: string, cs: seq<Candidate>, m: nat)
    requires m < |cs| && IsTitled(cs[m]) && |rows| == TitledBefore(cs, m)
    ensures LeavesRow(before, before + (rows + [StrategyFor(cs[m], task)]), task, cs, m)
  {
    StrategyForIs(cs[m], task);
    assert (before + (rows + [StrategyFor(cs[m], task)]))[|before| + |rows|] == StrategyFor(cs[m], task);
  }

  lemma EarlierRowsStand(before: seq<Strategy>, rows: seq<Strategy>, more: seq<Strategy>, task: string,
      cs: seq<Candidate>, n: nat)
    requires n <= |cs| && rows <= more
    requires forall i: nat :: i < n && IsTitled(cs[i]) ==> LeavesRow(before, before + rows, task, cs, i)
    ensures forall i: nat :: i < n && IsTitled(cs[i]) ==> LeavesRow(before, before + more, task, cs, i)
  {
    forall i: nat | i < n && IsTitled(cs[i]) ensures LeavesRow(before, before + more, task, cs, i) {
      RowStays(before, before + rows, before + more, task, cs, i);
    }
  }

  lemma OneMoreStands(before: seq<Strategy>, rows: seq<Strategy>, more: seq<Strategy>, task: string,
      cs: seq<Candidate>, m: nat)
    requires m < |cs| && RowsStand(before, rows, task, cs, m)
    requires more == if IsTitled(cs[m]) then rows + [StrategyFor(cs[m], task)] else rows
    ensures RowsStand(before, more, task, cs, m + 1)
  {
    if IsTitled(cs[m]) {
      NewRowStands(before, rows, task, cs, m);
      EarlierRowsStand(before, rows, more, task, cs, m);
    }
  }

  lemma NextRow(cs: seq<Candidate>, task: string, m: nat)
    requires m < |cs|
    ensures StrategiesFor(cs[..m + 1], task)
         == if IsTitled(cs[m]) then StrategiesFor(cs[..m], task) + [StrategyFor(cs[m], task)]
            else StrategiesFor(cs[..m], task)
  {
    OneMoreStrategy(cs, task, m);
    TitledExactlyWhen(cs[m]);
  }

  lemma {:induction false} RowsOf(before: seq<Strategy>, task: string, cs: seq<Candidate>, n: nat)
    requires n <= |cs|
    ensures RowsStand(before, StrategiesFor(cs[..n], task), task, cs, n)
  {
    if n > 0 {
      RowsOf(before, task, cs, n - 1);
      NextRow(cs, task, n - 1);
      OneMoreStands(before, StrategiesFor(cs[..n - 1], task), StrategiesFor(cs[..n], task), task, cs, n - 1);
    }
  }

  /** A result's titled candidates are inserted, all of the first three, if the task had none. */
  lemma WithStrategiesInserts(rows: seq<Strategy>, task: string, cs: seq<Candidate>)
    ensures var more := WithStrategies(rows, task, cs);
      if exists i :: 0 <= i < |rows| && rows[i].sourceTask == task then more == rows else Inserts(rows, more, task, cs)
  {
    if i :| 0 <= i < |rows| && rows[i].sourceTask == task {
      assert rows[i] in rows;
    } else {
      RowsOf(rows, task, cs, AtMostThree(cs));
      assert FirstThree(cs) == cs[..AtMostThree(cs)];
    }
  }

  // ---------------------------------------------------------------- whole runs

  /** A success with a titled candidate among its first three. */
  predicate Tells(e: Event) {
    e.Success? && exists i :: 0 <= i < AtMostThree(e.result.candidates) && IsTitled(e.result.candidates[i])
  }

  lemma {:induction false} TellsExactlyWhen(cs: seq<Candidate>, n: nat)
    requires n <= |cs|
    ensures TitledBefore(cs, n) > 0 <==> exists i :: 0 <= i < n && IsTitled(cs[i])
  {
    if n > 0 { TellsExactlyWhen(cs, n - 1); }
  }

  /** What one event leaves of the strategies. */
  ghost predicate LeavesAfter(before: seq<Strategy>, rows: seq<Strategy>, task: string, e: Event) {
    if HasStrategies(before, task) || !Tells(e) then rows == before
    else Inserts(before, rows, task, e.result.candidates) && HasStrategies(rows, task)
  }

  lemma StepStrategies(s: Tables, task: string, e: Event)
    requires task in s.jobs
    ensures LeavesAfter(s.strategies, Step(s, task, e).strategies, task, e)
  {
    if e.Success? {
      var cs := e.result.candidates;
      var rows := WithStrategies(s.strategies, task, cs);
      assert Step(s, task, e).strategies == rows;
      WithStrategiesInserts(s.strategies, task, cs);
      TellsExactlyWhen(cs, AtMostThree(cs));
      if HasStrategies(s.strategies, task) {
        var r :| r in s.strategies && r.sourceTask == task;
      } else if Tells(e) {
        var i: nat :| i < AtMostThree(cs) && IsTitled(cs[i]);
        assert LeavesRow(s.strategies, rows, task, cs, i);
        assert rows[|s.strategies| + TitledBefore(cs, i)] in rows;
      } else {
        assert rows == s.strategies;
      }
    }
  }

  predicate NoneTells(events: seq<Event>) {
    forall i :: 0 <= i < |events| ==> !Tells(events[i])
  }

  predicate TellsFirst(events: seq<Event>, first: nat) {
    first < |events| && Tells(events[first]) && NoneTells(events[..first])
  }

  /** What a run leaves of the strategies; `first` is the first event that tells any. */
  ghost predicate LeavesStrategies(before: seq<Strategy>, rows: seq<Strategy>, task: string, events: seq<Event>,
      first: nat)
  {
    if HasStrategies(before, task) || NoneTells(events) then rows == before
    else
      && TellsFirst(events, first)
      && Inserts(before, rows, task, events[first].result.candidates) && HasStrategies(rows, task)
  }

  /** The first event that tells any, if it was `first` before the last event came. */
  function FirstNow(events: seq<Event>, first: nat): nat
    requires events != []
  {
    if NoneTells(events[..|events| - 1]) then |events| - 1 else first
  }

  lemma TellingGrows(events: seq<Event>, first: nat)
    requires events != []
    ensures var n := |events| - 1;
      && (NoneTells(events) <==> NoneTells(events[..n]) && !Tells(events[n]))
      && (NoneTells(events[..n]) && Tells(events[n]) ==> TellsFirst(events, n))
      && (TellsFirst(events[..n], first) ==> TellsFirst(events, first) && events[..n][first] == events[first])
  {
    var n := |events| - 1;
    assert forall i :: 0 <= i < n ==> events[..n][i] == events[i];
    if TellsFirst(events[..n], first) { assert events[..n][..first] == events[..first]; }
  }

  lemma LeavesAfterOneMore(before: seq<Strategy>, rows: seq<Strategy>, more: seq<Strategy>, task: string,
      events: seq<Event>, first: nat)
    requires events != [] && LeavesStrategies(before, rows, task, events[..|events| - 1], first)
    requires LeavesAfter(rows, more, task, events[|events| - 1])
    ensures LeavesStrategies(before, more, task, events, FirstNow(events, first))
  {
    TellingGrows(events, first);
  }

  lemma LastStepStrategies(s: Tables, task: string, events: seq<Event>)
    requires task in s.jobs && events != [] && FreshIds(s, events)
    ensures var n := |events| - 1;
      && FreshIds(s, events[..n])
      && LeavesAfter(Run(s, task, events[..n]).strategies, Run(s, task, events).strategies, task, events[n])
  {
    var n := |events| - 1;
    FreshPrefix(s, events);
    ReportsCreatedExactly(s, task, events[..n]);
    StepStrategies(Run(s, task, events[..n]), task, events[n]);
  }

  /** Over any run: nothing is inserted if the task has strategies or no result names any; else
      exactly the titled candidates of the first result that does, and none of any later one. */
  lemma {:induction false} StrategiesOfRun(s: Tables, task: string, events: seq<Event>) returns (first: nat)
    requires task in s.jobs && FreshIds(s, events)
    ensures LeavesStrategies(s.strategies, Run(s, task, events).strategies, task, events, first)
  {
    first := 0;
    if events != [] {
      var n := |events| - 1;
      LastStepStrategies(s, task, events);
      first := StrategiesOfRun(s, task, events[..n]);
      LeavesAfterOneMore(s.strategies, Run(s, task, events[..n]).strategies, Run(s, task, events).strategies, task,
        events, first);
      first := FirstNow(events, first);
    }
  }
}
