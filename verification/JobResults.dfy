/** api/services/job_result_service.py: what the end of an Agent task writes to the business
    tables of one shop. The Markdown content, its summary, the structured JSON and the strategy
    candidates of a result are inputs, and so is the identifier drawn for a new report. */
module JobResults {
  import opened Basics
  import SqlGate

  datatype JobType = DailyReport | InventoryRiskScan | ReplenishmentPlan | CampaignReview | ProductOptimization
    | HotProductAnalysis | WeeklyReport | MonthlyReport | OtherJob(name: string)

  datatype JobStatus = Running | Completed | Failed

  datatype ReportStatus = Ready | Draft | OtherStatus(text: string)

  /** `reportId` is result_report_id, "" when it is null. */
  datatype Job = Job(
    kind: JobType, title: string, status: JobStatus, summary: Option<string>, error: Option<string>, reportId: string)

  datatype Report = Report(
    id: string, kind: string, title: string, summary: string, content: string, structured: Option<string>,
    status: ReportStatus, sourceTask: string, createdBy: string)

  datatype Strategy = Strategy(title: string, source: string, impact: string, risk: string, sourceTask: string)

  /** Jobs by task id, and the rows of the two result tables in table order. */
  datatype Tables = Tables(jobs: map<string, Job>, reports: seq<Report>, strategies: seq<Strategy>)

  datatype Candidate = Candidate(title: string, source: string, impact: string, risk: string)

  /** `content` has been stripped; absent texts are "". */
  datatype Result = Result(content: string, summary: string, structured: Option<string>, candidates: seq<Candidate>)

  /** REPORT_JOB_TYPES */
  function ReportKind(kind: JobType): Option<string> {
    match kind
    case DailyReport => Some("daily")
    case InventoryRiskScan => Some("inventory")
    case ReplenishmentPlan => Some("inventory")
    case CampaignReview => Some("campaign")
    case ProductOptimization => Some("product")
    case HotProductAnalysis => Some("product")
    case WeeklyReport => Some("weekly")
    case MonthlyReport => Some("monthly")
    case OtherJob(_) => None
  }

  function Cut(text: string, n: nat): string {
    if |text| <= n then text else text[..n]
  }

  // ---------------------------------------------------------------- rows

  function WithId(rows: seq<Report>, id: string, change: Report -> Report): seq<Report> {
    seq(|rows|, i requires 0 <= i < |rows| => if rows[i].id == id then change(rows[i]) else rows[i])
  }

  /** The identifier of the first report that the task produced, if any. */
  function SourcedBy(rows: seq<Report>, task: string): Option<string> {
    if rows == [] then None
    else if rows[0].sourceTask == task then Some(rows[0].id)
    else SourcedBy(rows[1..], task)
  }

  predicate HasStrategies(rows: seq<Strategy>, task: string) {
    exists r :: r in rows && r.sourceTask == task
  }

  // ---------------------------------------------------------------- the two outcomes

  function ReadyReport(r: Report, result: Result): Report {
    r.(content := Or(result.content, "报告已生成，但内容为空，请重新运行。"), structured := result.structured,
       summary := result.summary, status := Ready)
  }

  function NewReport(job: Job, task: string, result: Result, id: string, kind: string, user: string): Report {
    ReadyReport(Report(id, kind, Or(job.title, "数字员工报告"), "", "", None, Ready, task, user), result)
  }

  function Upserted(s: Tables, task: string, job: Job, result: Result, id: string, user: string): Tables
    requires task in s.jobs
  {
    if job.reportId != "" then
      s.(reports := WithId(s.reports, job.reportId, r => ReadyReport(r, result).(sourceTask := task)))
    else if ReportKind(job.kind).None? then s
    else
      var existing := SourcedBy(s.reports, task);
      if existing.Some? then s.(reports := WithId(s.reports, existing.value, r => ReadyReport(r, result)))
      else s.(reports := s.reports + [NewReport(job, task, result, id, ReportKind(job.kind).value, user)],
              jobs := s.jobs[task := s.jobs[task].(reportId := id)])
  }

  function StrategyFor(c: Candidate, task: string): Strategy {
    Strategy(Cut(SqlGate.Strip(c.title), 255), Cut(Or(c.source, "数字员工"), 128), Or(c.impact, "预计提升经营执行效率"),
             if c.risk == "low" || c.risk == "medium" || c.risk == "high" then c.risk else "medium", task)
  }

  /** The rows for the candidates with a title, in order. */
  function StrategiesFor(cs: seq<Candidate>, task: string): seq<Strategy> {
    if cs == [] then []
    else
      var n := |cs| - 1;
      StrategiesFor(cs[..n], task) + (if SqlGate.Strip(cs[n].title) == "" then [] else [StrategyFor(cs[n], task)])
  }

  lemma OneMoreStrategy(cs: seq<Candidate>, task: string, i: nat)
    requires i < |cs|
    ensures StrategiesFor(cs[..i + 1], task)
         == StrategiesFor(cs[..i], task) + (if SqlGate.Strip(cs[i].title) == "" then [] else [StrategyFor(cs[i], task)])
  {
    assert cs[..i + 1][..i] == cs[..i];
  }

  function FirstThree(cs: seq<Candidate>): seq<Candidate> {
    if |cs| <= 3 then cs else cs[..3]
  }

  function WithStrategies(rows: seq<Strategy>, task: string, cs: seq<Candidate>): seq<Strategy> {
    if HasStrategies(rows, task) then rows else rows + StrategiesFor(FirstThree(cs), task)
  }

  function MarkedCompleted(s: Tables, task: string, result: Result): Tables
    requires task in s.jobs
  {
    s.(jobs := s.jobs[task := s.jobs[task].(status := Completed, summary := result.structured, error := None)])
  }

  function Succeeded(s: Tables, task: string, result: Result, id: string, user: string): Tables {
    if task !in s.jobs then s
    else
      var reported := Upserted(MarkedCompleted(s, task, result), task, s.jobs[task], result, id, user);
      reported.(strategies := WithStrategies(reported.strategies, task, result.candidates))
  }

  function FailureText(message: string): string {
    Cut(Or(message, "数字员工执行失败"), 1000)
  }

  function FailedReport(r: Report, task: string, message: string): Report {
    r.(status := Draft, summary := "报告生成失败：" + Cut(message, 180), content := "报告生成失败：" + message, sourceTask := task)
  }

  function FailedWith(s: Tables, task: string, message: string): Tables {
    if task !in s.jobs then s
    else
      var job := s.jobs[task];
      var text := FailureText(message);
      var failed := s.(jobs := s.jobs[task := job.(status := Failed, error := Some(text))]);
      if job.reportId == "" then failed
      else failed.(reports := WithId(failed.reports, job.reportId, r => FailedReport(r, task, text)))
  }

  // ---------------------------------------------------------------- the service

  class JobResultService {
    var jobs: map<string, Job>
    var reports: seq<Report>
    var strategies: seq<Strategy>

    ghost function State(): Tables
      reads this
    {
      Tables(jobs, reports, strategies)
    }

    method FinalizeSuccess(task: string, result: Result, id: string, user: string)
      modifies this
      ensures State() == Succeeded(old(State()), task, result, id, user)
    {
      if task !in jobs { return; }
      var job := jobs[task];
      jobs := jobs[task := job.(status := Completed, summary := result.structured, error := None)];
      UpsertReport(task, job, result, id, user);
      var inserted := InsertStrategyCandidates(task, result.candidates);
    }

    method FinalizeFailure(task: string, message: string)
      modifies this
      ensures State() == FailedWith(old(State()), task, message)
    {
      if task !in jobs { return; }
      var job := jobs[task];
      var text := FailureText(message);
      jobs := jobs[task := job.(status := Failed, error := Some(text))];
      if job.reportId != "" {
        jobs := jobs[task := jobs[task].(reportId := job.reportId)];
        reports := WithId(reports, job.reportId, r => FailedReport(r, task, text));
      }
    }

    method UpsertReport(task: string, job: Job, result: Result, id: string, user: string)
      requires task in jobs
      modifies this
      ensures State() == Upserted(old(State()), task, job, result, id, user)
    {
      if job.reportId != "" {
        reports := WithId(reports, job.reportId, r => ReadyReport(r, result).(sourceTask := task));
        return;
      }
      var kind := ReportKind(job.kind);
      if kind.None? { return; }
      var existing := SourcedBy(reports, task);
      if existing.Some? {
        reports := WithId(reports, existing.value, r => ReadyReport(r, result));
        return;
      }
      reports := reports + [NewReport(job, task, result, id, kind.value, user)];
      jobs := jobs[task := jobs[task].(reportId := id)];
    }

    method InsertStrategyCandidates(task: string, candidates: seq<Candidate>) returns (inserted: nat)
      modifies this
      ensures State() == old(State()).(strategies := WithStrategies(old(strategies), task, candidates))
      ensures inserted == |strategies| - |old(strategies)| <= 3
    {
      inserted := 0;
      if HasStrategies(strategies, task) { return; }
      var cs := FirstThree(candidates);
      for i := 0 to |cs|
        invariant strategies == old(strategies) + StrategiesFor(cs[..i], task)
        invariant inserted == |StrategiesFor(cs[..i], task)| <= i
        invariant jobs == old(jobs) && reports == old(reports)
      {
        OneMoreStrategy(cs, task, i);
        if SqlGate.Strip(cs[i].title) != "" {
          strategies := strategies + [StrategyFor(cs[i], task)];
          inserted := inserted + 1;
        }
      }
      assert cs[..|cs|] == cs;
    }
  }
}
