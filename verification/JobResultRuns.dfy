/** Any sequence of success and failure finalisations of one task: what is created, when the
    job and its report agree, and that nothing else in the shop is touched. */
module JobResultRuns {
  import opened Basics
  import opened JobResults
  import SqlGate

  /** `id` is the identifier drawn in case a report has to be created. */
  datatype Event = Success(result: Result, id: string, user: string) | Failure(message: string)

  function Step(s: Tables, task: string, e: Event): Tables {
    match e
    case Success(result, id, user) => Succeeded(s, task, result, id, user)
    case Failure(message) => FailedWith(s, task, message)
  }

  function Run(s: Tables, task: string, events: seq<Event>): Tables {
    if events == [] then s
    else
      var n := |events| - 1;
      Step(Run(s, task, events[..n]), task, events[n])
  }

  predicate AnySuccess(events: seq<Event>) {
    exists e :: e in events && e.Success?
  }

  /** The job's own report: the linked one, else, for a job type with a report, the first that
      the task produced. */
  function OwnReport(s: Tables, task: string): Option<string>
    requires task in s.jobs
  {
    var job := s.jobs[task];
    if job.reportId != "" then Some(job.reportId)
    else if ReportKind(job.kind).None? then None
    else SourcedBy(s.reports, task)
  }

  predicate RowsHave(rows: seq<Report>, id: string, status: ReportStatus) {
    forall i :: 0 <= i < |rows| && rows[i].id == id ==> rows[i].status == status
  }

  /** Completed goes with ready, failed with draft. */
  predicate Agree(s: Tables, task: string)
    requires task in s.jobs
  {
    var own := OwnReport(s, task);
    own.Some? ==>
      && (s.jobs[task].status == Completed ==> RowsHave(s.reports, own.value, Ready))
      && (s.jobs[task].status == Failed ==> RowsHave(s.reports, own.value, Draft))
  }

  /** The task already has a report that its job does not link to. */
  predicate Unlinked(s: Tables, task: string)
    requires task in s.jobs
  {
    s.jobs[task].reportId == "" && OwnReport(s, task).Some?
  }

  /** A success must create the report. */
  predicate NeedsReport(s: Tables, task: string)
    requires task in s.jobs
  {
    s.jobs[task].reportId == "" && ReportKind(s.jobs[task].kind).Some? && SourcedBy(s.reports, task).None?
  }

  // ---------------------------------------------------------------- rows

  lemma {:induction false} SourcedIsThere(rows: seq<Report>, task: string)
    ensures SourcedBy(rows, task).None? <==> forall i :: 0 <= i < |rows| ==> rows[i].sourceTask != task
    ensures SourcedBy(rows, task).Some?
      ==> exists i :: 0 <= i < |rows| && rows[i].sourceTask == task && rows[i].id == SourcedBy(rows, task).value
  {
    if rows != [] {
      SourcedIsThere(rows[1..], task);
      if SourcedBy(rows[1..], task).Some? && rows[0].sourceTask != task {
        var i :| 0 <= i < |rows[1..]| && rows[1..][i].sourceTask == task
          && rows[1..][i].id == SourcedBy(rows[1..], task).value;
        assert rows[i + 1] == rows[1..][i];
      }
      assert forall i :: 0 < i < |rows| ==> rows[i] == rows[1..][i - 1];
    }
  }

  lemma {:induction false} SourcedSurvives(rows: seq<Report>, task: string, id: string, change: Report -> Report)
    requires forall r :: change(r).id == r.id && change(r).sourceTask == r.sourceTask
    ensures SourcedBy(WithId(rows, id, change), task) == SourcedBy(rows, task)
  {
    if rows != [] {
      assert WithId(rows, id, change)[1..] == WithId(rows[1..], id, change);
      SourcedSurvives(rows[1..], task, id, change);
    }
  }

  // ---------------------------------------------------------------- one step

  lemma UpsertSettles(s: Tables, task: string, result: Result, id: string, again: string, user: string, other: string)
    requires task in s.jobs && id != "" && forall i :: 0 <= i < |s.reports| ==> s.reports[i].id != id
    ensures var once := Upserted(s, task, s.jobs[task], result, id, user);
      task in once.jobs && Upserted(once, task, once.jobs[task], result, again, other) == once
  {
    var job := s.jobs[task];
    var once := Upserted(s, task, job, result, id, user);
    var twice := Upserted(once, task, once.jobs[task], result, again, other);
    if job.reportId == "" && ReportKind(job.kind).Some? {
      if SourcedBy(s.reports, task).Some? {
        SourcedSurvives(s.reports, task, SourcedBy(s.reports, task).value, r => ReadyReport(r, result));
      }
    }
    assert twice.reports == once.reports;
  }

  lemma UpsertKeepsCompleted(s: Tables, task: string, result: Result, id: string, user: string)
    requires task in s.jobs && MarkedCompleted(s, task, result) == s
    ensures var t := Upserted(s, task, s.jobs[task], result, id, user);
      task in t.jobs && MarkedCompleted(t, task, result) == t
  {
    var t := Upserted(s, task, s.jobs[task], result, id, user);
    assert MarkedCompleted(t, task, result).jobs == t.jobs;
  }

  /** Two consecutive identical successes are one. */
  lemma RepeatedSuccessChangesNothing(s: Tables, task: string, result: Result, id: string, again: string,
      user: string, other: string)
    requires id != "" && forall i :: 0 <= i < |s.reports| ==> s.reports[i].id != id
    ensures var once := Succeeded(s, task, result, id, user); Succeeded(once, task, result, again, other) == once
  {
    if task in s.jobs {
      var done := MarkedCompleted(s, task, result);
      assert MarkedCompleted(done, task, result) == done;
      var reported := Upserted(done, task, done.jobs[task], result, id, user);
      UpsertSettles(done, task, result, id, again, user, other);
      UpsertKeepsCompleted(done, task, result, id, user);
      StrategiesSettle(s.strategies, task, result.candidates);
      var rows := WithStrategies(s.strategies, task, result.candidates);
      var once := Succeeded(s, task, result, id, user);
      assert once == reported.(strategies := rows);
      assert MarkedCompleted(once, task, result) == once;
    }
  }

  lemma {:induction false} StrategiesAreOfTask(cs: seq<Candidate>, task: string)
    ensures |StrategiesFor(cs, task)| <= |cs|
    ensures forall i :: 0 <= i < |StrategiesFor(cs, task)| ==> StrategiesFor(cs, task)[i].sourceTask == task
  {
    if cs != [] {
      StrategiesAreOfTask(cs[..|cs| - 1], task);
    }
  }

  lemma StrategiesSettle(rows: seq<Strategy>, task: string, cs: seq<Candidate>)
    ensures WithStrategies(WithStrategies(rows, task, cs), task, cs) == WithStrategies(rows, task, cs)
  {
    var added := StrategiesFor(FirstThree(cs), task);
    StrategiesAreOfTask(FirstThree(cs), task);
    if !HasStrategies(rows, task) {
      if added == [] {
        assert rows + added == rows;
      } else {
        assert (rows + added)[|rows|] == added[0];
      }
    }
  }

  /** What a step keeps, whatever it does: the job's identity, the report ids, and whether the
      job's report is unlinked. */
  lemma StepShape(s: Tables, task: string, e: Event)
    requires task in s.jobs && (e.Success? ==> e.id != "")
    ensures var t := Step(s, task, e);
      && t.jobs.Keys == s.jobs.Keys && t.jobs[task].kind == s.jobs[task].kind
      && (Unlinked(t, task) <==> Unlinked(s, task))
      && (Unlinked(s, task) ==> OwnReport(t, task) == OwnReport(s, task))
      && (NeedsReport(t, task) <==> NeedsReport(s, task) && !e.Success?)
      && |t.reports| == |s.reports| + (if NeedsReport(s, task) && e.Success? then 1 else 0)
      && forall i :: 0 <= i < |s.reports| ==> t.reports[i].id == s.reports[i].id
  {
    var t := Step(s, task, e);
    if e.Success? && Unlinked(s, task) {
      SourcedSurvives(s.reports, task, SourcedBy(s.reports, task).value, r => ReadyReport(r, e.result));
    }
  }

  /** A success always leaves the job completed and its report ready. */
  lemma SuccessAgrees(s: Tables, task: string, e: Event)
    requires task in s.jobs && e.Success? && e.id != ""
    requires NeedsReport(s, task) ==> forall i :: 0 <= i < |s.reports| ==> s.reports[i].id != e.id
    ensures var t := Step(s, task, e);
      && t.jobs[task].status == Completed && t.jobs[task].error == None
      && t.jobs[task].summary == e.result.structured && Agree(t, task)
  {
    StepShape(s, task, e);
  }

  /** The report carries the result: content (a fixed sentence when it is empty), summary and
      structured form. */
  predicate Carries(r: Report, result: Result) {
    && r.content != "" && (result.content != "" ==> r.content == result.content)
    && r.summary == result.summary && r.structured == result.structured && r.status == Ready
  }

  predicate SameOrigin(a: Report, b: Report) {
    a.id == b.id && a.kind == b.kind && a.title == b.title && a.createdBy == b.createdBy
  }

  /** The kind of report that a job type asks for, by name. */
  predicate IsKindFor(kind: string, job: JobType) {
    && (job == DailyReport <==> kind == "daily")
    && (job == InventoryRiskScan || job == ReplenishmentPlan <==> kind == "inventory")
    && (job == CampaignReview <==> kind == "campaign")
    && (job == ProductOptimization || job == HotProductAnalysis <==> kind == "product")
    && (job == WeeklyReport <==> kind == "weekly") && (job == MonthlyReport <==> kind == "monthly")
    && !job.OtherJob?
  }

  lemma KindsAreNamed(job: JobType)
    ensures ReportKind(job).None? <==> job.OtherJob?
    ensures ReportKind(job).Some? ==> IsKindFor(ReportKind(job).value, job)
  {
    assert |"daily"| == 5 && |"inventory"| == 9 && |"campaign"| == 8 && |"product"| == 7 && |"weekly"| == 6
        && |"monthly"| == 7 && "product"[0] != "monthly"[0];
  }

  predicate IsCreatedFor(r: Report, job: Job, task: string, e: Event)
    requires e.Success?
  {
    && r.id == e.id && r.createdBy == e.user && r.sourceTask == task && IsKindFor(r.kind, job.kind)
    && r.title != "" && (job.title != "" ==> r.title == job.title) && Carries(r, e.result)
  }

  /** After a success every row with the id of the job's own report carries the result; a row
      that was there keeps its kind, title and author, and a new one has the kind of the job's
      type, a title and the caller as author, and belongs to the task. */
  lemma SuccessWritesTheReport(s: Tables, task: string, e: Event, i: nat)
    requires task in s.jobs && e.Success? && e.id != ""
    requires NeedsReport(s, task) ==> forall i :: 0 <= i < |s.reports| ==> s.reports[i].id != e.id
    requires i < |Step(s, task, e).reports|
    ensures var t := Step(s, task, e); var r := t.reports[i];
      && task in t.jobs
      && (OwnReport(t, task) == Some(r.id) ==> Carries(r, e.result))
      && (s.jobs[task].reportId != "" && s.jobs[task].reportId == r.id ==> r.sourceTask == task)
      && (i < |s.reports| ==> SameOrigin(r, s.reports[i]))
      && (i >= |s.reports| ==> IsCreatedFor(r, s.jobs[task], task, e))
  {
    StepOwn(s, task, e);
    KindsAreNamed(s.jobs[task].kind);
  }

  /** The message, or a fixed sentence for an empty one, cut at 1000 characters. */
  predicate IsFailureText(message: string, text: string) {
    && text != "" && (message != "" ==> text <= message)
    && (message == "" ==> text == "数字员工执行失败")
    && (0 < |message| <= 1000 ==> text == message) && (|message| > 1000 ==> |text| == 1000)
  }

  /** A failure writes its message to every row that the job links to, and to no other row. */
  lemma FailureWritesTheReport(s: Tables, task: string, e: Event, i: nat)
    requires task in s.jobs && e.Failure? && i < |s.reports|
    ensures var t := Step(s, task, e); var linked := s.jobs[task].reportId;
      && |t.reports| == |s.reports| && t.strategies == s.strategies
      && (linked == "" || s.reports[i].id != linked ==> t.reports[i] == s.reports[i])
      && (linked != "" && s.reports[i].id == linked ==>
            && t.reports[i].status == Draft && t.reports[i].sourceTask == task
            && SameOrigin(t.reports[i], s.reports[i]) && t.reports[i].structured == s.reports[i].structured
            && TellsFailure(t.reports[i], e.message))
  {
    FailureTextIs(e.message);
    if s.jobs[task].reportId != "" && s.reports[i].id == s.jobs[task].reportId {
      FailureIsTold(s.reports[i], task, e.message, FailureText(e.message));
    }
  }

  /** The row's content is the failure text behind a fixed opening, its summary the first 180
      characters of it. */
  ghost predicate TellsFailure(r: Report, message: string) {
    exists text :: IsFailureText(message, text) && r.content == "报告生成失败：" + text
      && (if |text| <= 180 then r.summary == "报告生成失败：" + text else r.summary == "报告生成失败：" + text[..180])
  }

  lemma FailureTextIs(message: string)
    ensures IsFailureText(message, FailureText(message))
  {}

  lemma FailureIsTold(r: Report, task: string, message: string, text: string)
    requires IsFailureText(message, text)
    ensures TellsFailure(FailedReport(r, task, text), message)
  {}

  /** Every strategy has a title of at most 255 characters, a source and a known risk level. */
  lemma {:induction false} StrategiesAreWellFormed(cs: seq<Candidate>, task: string, i: nat)
    requires i < |StrategiesFor(cs, task)|
    ensures var r := StrategiesFor(cs, task)[i];
      && 0 < |r.title| <= 255 && 0 < |r.source| <= 128 && r.impact != ""
      && (r.risk == "low" || r.risk == "medium" || r.risk == "high")
      && exists c :: c in cs && r == StrategyFor(c, task) && SqlGate.Strip(c.title) != ""
  {
    var n := |cs| - 1;
    var before := StrategiesFor(cs[..n], task);
    assert cs == cs[..n] + [cs[n]];
    if i < |before| {
      StrategiesAreWellFormed(cs[..n], task, i);
    } else {
      assert cs[n] in cs && StrategiesFor(cs, task)[i] == StrategyFor(cs[n], task);
    }
  }

  /** A failure leaves the job failed with a message of at most 1000 characters; job and report
      then agree exactly unless the report is unlinked and not a draft. */
  lemma FailureAgreesExactlyWhen(s: Tables, task: string, e: Event)
    requires task in s.jobs && e.Failure?
    ensures var t := Step(s, task, e);
      && t.jobs[task].status == Failed && t.jobs[task].error.Some? && IsFailureText(e.message, t.jobs[task].error.value)
      && (Agree(t, task) <==> (Unlinked(s, task) ==> RowsHave(s.reports, OwnReport(s, task).value, Draft)))
      && (Unlinked(s, task) ==> t.reports == s.reports)
  {
    FailureTextIs(e.message);
    StepShape(s, task, e);
  }

  // ---------------------------------------------------------------- whole runs

  /** Every identifier drawn is new to the report table. */
  predicate FreshIds(s: Tables, events: seq<Event>) {
    forall e :: e in events && e.Success? ==> e.id != "" && forall i :: 0 <= i < |s.reports| ==> s.reports[i].id != e.id
  }

  lemma FreshPrefix(s: Tables, events: seq<Event>)
    requires events != [] && FreshIds(s, events)
    ensures FreshIds(s, events[..|events| - 1])
    ensures AnySuccess(events) <==> AnySuccess(events[..|events| - 1]) || events[|events| - 1].Success?
  {
    var n := |events| - 1;
    assert events == events[..n] + [events[n]];
  }

  /** At most one report is created, and exactly when there is a success, the job's type has a
      report, the job links to none and the task has produced none; no report row goes away. */
  lemma {:induction false} ReportsCreatedExactly(s: Tables, task: string, events: seq<Event>)
    requires task in s.jobs && FreshIds(s, events)
    ensures var t := Run(s, task, events);
      && t.jobs.Keys == s.jobs.Keys
      && |t.reports| == |s.reports| + (if NeedsReport(s, task) && AnySuccess(events) then 1 else 0)
      && (forall i :: 0 <= i < |s.reports| ==> t.reports[i].id == s.reports[i].id)
      && (NeedsReport(t, task) <==> NeedsReport(s, task) && !AnySuccess(events))
      && (Unlinked(t, task) <==> Unlinked(s, task))
      && (Unlinked(s, task) ==> OwnReport(t, task) == OwnReport(s, task))
  {
    if events != [] {
      var n := |events| - 1;
      FreshPrefix(s, events);
      ReportsCreatedExactly(s, task, events[..n]);
      assert events[n] in events;
      StepShape(Run(s, task, events[..n]), task, events[n]);
    }
  }

  predicate IsUnlinkedAndSpoilt(s: Tables, task: string, events: seq<Event>)
    requires task in s.jobs
  {
    Unlinked(s, task) && (AnySuccess(events) || !RowsHave(s.reports, OwnReport(s, task).value, Draft))
  }

  lemma {:induction false} UnlinkedStatus(s: Tables, task: string, events: seq<Event>)
    requires task in s.jobs && FreshIds(s, events) && Unlinked(s, task)
    ensures var t := Run(s, task, events); var id := OwnReport(s, task).value;
      && task in t.jobs
      && (AnySuccess(events) ==> RowsHave(t.reports, id, Ready))
      && (!AnySuccess(events) ==> t.reports == s.reports)
      && (exists i :: 0 <= i < |t.reports| && t.reports[i].id == id)
  {
    SourcedIsThere(s.reports, task);
    ReportsCreatedExactly(s, task, events);
    var i :| 0 <= i < |s.reports| && s.reports[i].id == OwnReport(s, task).value;
    assert Run(s, task, events).reports[i].id == s.reports[i].id;
    if events != [] {
      var n := |events| - 1;
      FreshPrefix(s, events);
      UnlinkedStatus(s, task, events[..n]);
      ReportsCreatedExactly(s, task, events[..n]);
      assert events[n] in events;
      var before := Run(s, task, events[..n]);
      StepShape(before, task, events[n]);
      UnlinkedStep(before, task, events[n]);
    }
  }

  lemma UnlinkedStep(s: Tables, task: string, e: Event)
    requires task in s.jobs && Unlinked(s, task)
    ensures e.Success? ==> RowsHave(Step(s, task, e).reports, OwnReport(s, task).value, Ready)
    ensures e.Failure? ==> Step(s, task, e).reports == s.reports
  {}

  /** After any run, job and report agree exactly unless the run ends in a failure while the
      report is unlinked and was made ready before, or was no draft to begin with. */
  lemma AgreeExactlyWhen(s: Tables, task: string, events: seq<Event>)
    requires task in s.jobs && events != [] && FreshIds(s, events)
    ensures var t := Run(s, task, events); var last := events[|events| - 1];
      && task in t.jobs
      && t.jobs[task].status == (if last.Success? then Completed else JobStatus.Failed)
      && (Agree(t, task) <==> (last.Success? || !IsUnlinkedAndSpoilt(s, task, events)))
  {
    var n := |events| - 1;
    FreshPrefix(s, events);
    ReportsCreatedExactly(s, task, events[..n]);
    assert events[n] in events;
    if events[n].Success? {
      SuccessAgrees(Run(s, task, events[..n]), task, events[n]);
    } else {
      FailedRunAgrees(s, task, events);
    }
  }

  lemma FailedRunAgrees(s: Tables, task: string, events: seq<Event>)
    requires task in s.jobs && events != [] && FreshIds(s, events) && events[|events| - 1].Failure?
    ensures var t := Run(s, task, events);
      && task in t.jobs && t.jobs[task].status == JobStatus.Failed
      && (Agree(t, task) <==> !IsUnlinkedAndSpoilt(s, task, events))
  {
    var n := |events| - 1;
    var before := Run(s, task, events[..n]);
    FreshPrefix(s, events);
    ReportsCreatedExactly(s, task, events[..n]);
    FailureAgreesExactlyWhen(before, task, events[n]);
    if Unlinked(s, task) {
      UnlinkedStatus(s, task, events[..n]);
    }
  }

  /** `rows` follows `before` by at most `most` strategies of the task. */
  predicate Adds(before: seq<Strategy>, rows: seq<Strategy>, task: string, most: nat) {
    && |before| <= |rows| <= |before| + most && rows[..|before|] == before
    && forall i :: |before| <= i < |rows| ==> rows[i].sourceTask == task
  }

  lemma StepAdds(s: Tables, task: string, e: Event)
    ensures var rows := Step(s, task, e).strategies;
      Adds(s.strategies, rows, task, 3) && (HasStrategies(s.strategies, task) ==> rows == s.strategies)
  {
    if task in s.jobs && e.Success? {
      StrategiesAreOfTask(FirstThree(e.result.candidates), task);
      assert Step(s, task, e).strategies == WithStrategies(s.strategies, task, e.result.candidates);
    }
  }

  lemma HasAfterAdding(before: seq<Strategy>, rows: seq<Strategy>, task: string)
    requires Adds(before, rows, task, 3) && (HasStrategies(before, task) || rows != before)
    ensures HasStrategies(rows, task)
  {
    if HasStrategies(before, task) {
      var r :| r in before && r.sourceTask == task;
      assert r in rows[..|before|];
    } else {
      assert rows[..|rows|] == rows;
      assert rows[|before|].sourceTask == task;
    }
  }

  /** At most three strategies are created, all for the task, and none when it has some. */
  lemma {:induction false} StrategiesCreated(s: Tables, task: string, events: seq<Event>)
    ensures var rows := Run(s, task, events).strategies;
      Adds(s.strategies, rows, task, 3) && (HasStrategies(s.strategies, task) ==> rows == s.strategies)
  {
    if events != [] {
      var k := |events| - 1;
      StrategiesCreated(s, task, events[..k]);
      var before := Run(s, task, events[..k]);
      StepAdds(before, task, events[k]);
      if HasStrategies(s.strategies, task) || before.strategies != s.strategies {
        HasAfterAdding(s.strategies, before.strategies, task);
      }
    }
  }

  /** Nothing but the task's own job, report and strategies is touched: other jobs stay, and so
      does every report other than the job's own. */
  lemma {:induction false} OthersStay(s: Tables, task: string, events: seq<Event>, k: nat, other: string)
    requires task in s.jobs && FreshIds(s, events) && other != task
    requires k < |s.reports| && OwnReport(s, task) != Some(s.reports[k].id)
    ensures var t := Run(s, task, events);
      && task in t.jobs && k < |t.reports| && t.reports[k] == s.reports[k]
      && OwnReport(t, task) != Some(s.reports[k].id)
      && (other in t.jobs <==> other in s.jobs) && (other in s.jobs ==> t.jobs[other] == s.jobs[other])
  {
    if events != [] {
      var n := |events| - 1;
      FreshPrefix(s, events);
      OthersStay(s, task, events[..n], k, other);
      assert events[n] in events;
      StepOwn(Run(s, task, events[..n]), task, events[n]);
    }
  }

  /** A task without a job changes nothing, however it ends. */
  lemma {:induction false} UnknownTaskIsSkipped(s: Tables, task: string, events: seq<Event>)
    requires task !in s.jobs
    ensures Run(s, task, events) == s
  {
    if events != [] { UnknownTaskIsSkipped(s, task, events[..|events| - 1]); }
  }

  /** The job's own report only changes when one is created. */
  lemma StepOwn(s: Tables, task: string, e: Event)
    requires task in s.jobs && (e.Success? ==> e.id != "")
    ensures var t := Step(s, task, e);
      && task in t.jobs
      && OwnReport(t, task) == (if NeedsReport(s, task) && e.Success? then Some(e.id) else OwnReport(s, task))
  {
    if e.Success? && Unlinked(s, task) {
      SourcedSurvives(s.reports, task, SourcedBy(s.reports, task).value, r => ReadyReport(r, e.result));
    }
  }

  /** A failure after a success that found an unlinked report: the job is failed, the report
      still ready. */
  lemma UnlinkedReportStaysReady(result: Result, message: string) returns (s: Tables, events: seq<Event>)
    ensures "t" in s.jobs && FreshIds(s, events) && events == [Success(result, "new", "u"), Failure(message)]
    ensures var t := Run(s, "t", events); "t" in t.jobs && !Agree(t, "t")
  {
    s := Tables(map["t" := Job(DailyReport, "", Running, None, None, "")],
                [Report("r", "daily", "", "", "", None, Draft, "t", "")], []);
    events := [Success(result, "new", "u"), Failure(message)];
    assert events[|events| - 1] == Failure(message) && events[0] in events;
    AgreeExactlyWhen(s, "t", events);
  }
}
