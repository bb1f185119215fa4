/**
 The eval issue tracker: each run of a case is compared with the known issues.
 A failing assertion opens an issue or lets a resolved one regress; an issue that
 no longer fails is resolved.  An assertion of a message score is a `Check`; the
 evidence of an event is not a part of this model.
 */
module IssueTracker {
  import Ordering
  import opened Options
  import opened Severities

  datatype Check = Check(
    messageId: string, dimension: string, target: string, expected: string, actual: string, passed: bool)

  datatype EventKind = Detected | Resolved | Regressed

  datatype RunInfo = RunInfo(runId: string, timestamp: string, gitCommit: string)

  datatype Event = Event(kind: EventKind, run: RunInfo)

  datatype IssueStatus = Open | IsResolved | HasRegressed | WontFix

  datatype Issue = Issue(
    id: string, status: IssueStatus, severity: Severity, dimension: string, caseId: string, messageId: string,
    target: string, description: string, githubIssue: string, githubPr: string, history: seq<Event>)

  type Issues = map<string, Issue>

  // ---- The stored form ----

  datatype Field = Text(text: string) | History(events: seq<Event>)

  type Record = map<string, Field>

  function StatusText(status: IssueStatus): string {
    match status case Open => "open" case IsResolved => "resolved" case HasRegressed => "regressed" case WontFix => "wontfix"
  }

  function SeverityText(severity: Severity): string {
    match severity case High => "high" case Medium => "medium" case Low => "low"
  }

  function ToDict(issue: Issue): Record {
    map["id" := Text(issue.id), "status" := Text(StatusText(issue.status)), "severity" := Text(SeverityText(issue.severity)),
        "dimension" := Text(issue.dimension), "case_id" := Text(issue.caseId), "message_id" := Text(issue.messageId),
        "target" := Text(issue.target), "description" := Text(issue.description),
        "github_issue" := Text(issue.githubIssue), "github_pr" := Text(issue.githubPr), "history" := History(issue.history)]
  }

  /** `d.get(key, otherwise)` for a text. */
  function TextAt(d: Record, key: string, otherwise: string): string {
    if key in d && d[key].Text? then d[key].text else otherwise
  }

  function ReadStatus(text: string): IssueStatus {
    if text == "open" then Open else if text == "resolved" then IsResolved
    else if text == "regressed" then HasRegressed else WontFix
  }

  function ReadSeverity(text: string): Severity {
    if text == "high" then High else if text == "low" then Low else Medium
  }

  /** Id and status must be there; any other missing field gets its default. */
  function FromDict(d: Record): (issue: Option<Issue>)
    ensures issue.Some? <==> "id" in d && "status" in d
  {
    if "id" !in d || "status" !in d then None
    else
      Some(Issue(TextAt(d, "id", ""), ReadStatus(TextAt(d, "status", "")), ReadSeverity(TextAt(d, "severity", "medium")),
                 TextAt(d, "dimension", ""), TextAt(d, "case_id", ""), TextAt(d, "message_id", ""),
                 TextAt(d, "target", ""), TextAt(d, "description", ""), TextAt(d, "github_issue", ""),
                 TextAt(d, "github_pr", ""),
                 if "history" in d && d["history"].History? then d["history"].events else []))
  }

  /** A field that was dropped reads as its default, any other as before. */
  lemma {:induction false} DroppedText(d: Record, dropped: set<string>, key: string, otherwise: string)
    ensures TextAt(d - dropped, key, otherwise) == if key in dropped then otherwise else TextAt(d, key, otherwise)
  {
  }

  lemma {:induction false} StoredHead(issue: Issue, otherwise: string)
    ensures var d := ToDict(issue);
      && "id" in d && "status" in d && TextAt(d, "id", otherwise) == issue.id
      && TextAt(d, "status", otherwise) == StatusText(issue.status)
      && TextAt(d, "severity", otherwise) == SeverityText(issue.severity)
      && TextAt(d, "dimension", otherwise) == issue.dimension
  {
  }

  lemma {:induction false} StoredParts(issue: Issue, otherwise: string)
    ensures var d := ToDict(issue);
      && TextAt(d, "case_id", otherwise) == issue.caseId && TextAt(d, "message_id", otherwise) == issue.messageId
      && TextAt(d, "target", otherwise) == issue.target && TextAt(d, "description", otherwise) == issue.description
  {
  }

  lemma {:induction false} StoredRest(issue: Issue, otherwise: string)
    ensures var d := ToDict(issue);
      && TextAt(d, "github_issue", otherwise) == issue.githubIssue && TextAt(d, "github_pr", otherwise) == issue.githubPr
      && "history" in d && d["history"] == History(issue.history)
  {
  }

  /** What an issue becomes when some of its fields are not stored. */
  function WithDefaults(issue: Issue, dropped: set<string>): Issue {
    Issue(issue.id, issue.status,
          if "severity" in dropped then Medium else issue.severity,
          if "dimension" in dropped then "" else issue.dimension,
          if "case_id" in dropped then "" else issue.caseId,
          if "message_id" in dropped then "" else issue.messageId,
          if "target" in dropped then "" else issue.target,
          if "description" in dropped then "" else issue.description,
          if "github_issue" in dropped then "" else issue.githubIssue,
          if "github_pr" in dropped then "" else issue.githubPr,
          if "history" in dropped then [] else issue.history)
  }

  lemma {:induction false} StatusReturns(status: IssueStatus)
    ensures ReadStatus(StatusText(status)) == status
  {
    match status {
      case Open =>
      case IsResolved =>
      case HasRegressed =>
      case WontFix =>
    }
  }

  lemma {:induction false} SeverityReturns(severity: Severity)
    ensures ReadSeverity(SeverityText(severity)) == severity
  {
    match severity {
      case High =>
      case Medium =>
      case Low =>
    }
  }

  /** Reading back a stored issue that lost some fields: defaults for them, and nothing without id or status. */
  lemma {:induction false} StoredIssueWithout(issue: Issue, dropped: set<string>)
    ensures FromDict(ToDict(issue) - dropped) ==
      if "id" in dropped || "status" in dropped then None else Some(WithDefaults(issue, dropped))
  {
    var d := ToDict(issue);
    StoredHead(issue, "");
    StoredHead(issue, "medium");
    StoredParts(issue, "");
    StoredRest(issue, "");
    StatusReturns(issue.status);
    SeverityReturns(issue.severity);
    DroppedText(d, dropped, "id", "");
    DroppedText(d, dropped, "status", "");
    DroppedText(d, dropped, "severity", "medium");
    DroppedText(d, dropped, "dimension", "");
    DroppedText(d, dropped, "case_id", "");
    DroppedText(d, dropped, "message_id", "");
    DroppedText(d, dropped, "target", "");
    DroppedText(d, dropped, "description", "");
    DroppedText(d, dropped, "github_issue", "");
    DroppedText(d, dropped, "github_pr", "");
    assert ReadSeverity("medium") == Medium;
  }

  /** Storing an issue and loading it again gives the same issue. */
  lemma {:induction false} StoredIssueReturns(issue: Issue)
    ensures FromDict(ToDict(issue)) == Some(issue)
  {
    assert ToDict(issue) - {} == ToDict(issue);
    StoredIssueWithout(issue, {});
    assert WithDefaults(issue, {}) == issue;
  }

  // ---- Issue ids ----

  function MakeIssueId(caseId: string, messageId: string, dimension: string, target: string): string {
    caseId + ":" + messageId + ":" + dimension + ":" + target
  }

  predicate Plain(s: string) {
    ':' !in s
  }

  /** The first colon separates. */
  lemma {:induction false} SplitAtColon(a: string, b: string, r: string, s: string)
    requires Plain(a) && Plain(b) && a + ":" + r == b + ":" + s
    ensures a == b && r == s
  {
    var whole := a + ":" + r;
    assert whole[|a|] == ':' && whole[|b|] == ':';
    assert forall i :: 0 <= i < |a| ==> whole[i] == a[i] && a[i] in a;
    assert forall i :: 0 <= i < |b| ==> whole[i] == b[i] && b[i] in b;
    assert |a| == |b|;
    assert a == whole[..|a|] == b;
    assert r == whole[|a| + 1..] == s;
  }

  /** Without colons in the first three parts an id determines all four. */
  lemma {:induction false} IssueIdInjective(c1: string, m1: string, d1: string, t1: string,
                                            c2: string, m2: string, d2: string, t2: string)
    requires Plain(c1) && Plain(m1) && Plain(d1) && Plain(c2) && Plain(m2) && Plain(d2)
    requires MakeIssueId(c1, m1, d1, t1) == MakeIssueId(c2, m2, d2, t2)
    ensures c1 == c2 && m1 == m2 && d1 == d2 && t1 == t2
  {
    assert MakeIssueId(c1, m1, d1, t1) == c1 + ":" + (m1 + ":" + (d1 + ":" + t1));
    assert MakeIssueId(c2, m2, d2, t2) == c2 + ":" + (m2 + ":" + (d2 + ":" + t2));
    SplitAtColon(c1, c2, m1 + ":" + (d1 + ":" + t1), m2 + ":" + (d2 + ":" + t2));
    SplitAtColon(m1, m2, d1 + ":" + t1, d2 + ":" + t2);
    SplitAtColon(d1, d2, t1, t2);
  }

  /** With a colon in the case id, two cases can meet in one id. */
  lemma {:induction false} IssueIdsCollide()
    ensures MakeIssueId("a:b", "m", "d", "t") == MakeIssueId("a", "b:m", "d", "t")
  {
    assert MakeIssueId("a:b", "m", "d", "t") == "a:b:m:d:t";
    assert MakeIssueId("a", "b:m", "d", "t") == "a:b:m:d:t";
  }

  // ---- One run ----

  function SeverityOf(dimension: string): Severity {
    if dimension == "forbidden" then High
    else if dimension in {"routing", "node_update"} then Medium
    else Low
  }

  function IdOf(caseId: string, check: Check): string {
    MakeIssueId(caseId, check.messageId, check.dimension, check.target)
  }

  /** The failing checks among the first n, by issue id; a later check with the same id overrides. */
  function Failures(caseId: string, checks: seq<Check>, n: nat): map<string, Check>
    requires n <= |checks|
  {
    if n == 0 then map[]
    else if checks[n - 1].passed then Failures(caseId, checks, n - 1)
    else Failures(caseId, checks, n - 1)[IdOf(caseId, checks[n - 1]) := checks[n - 1]]
  }

  lemma {:induction false} FailuresMembers(caseId: string, checks: seq<Check>, n: nat)
    requires n <= |checks|
    ensures forall id :: id in Failures(caseId, checks, n) <==>
      exists i :: 0 <= i < n && !checks[i].passed && IdOf(caseId, checks[i]) == id
    ensures forall id :: id in Failures(caseId, checks, n) ==>
      IdOf(caseId, Failures(caseId, checks, n)[id]) == id && Failures(caseId, checks, n)[id] in checks
  {
    if n > 0 {
      FailuresMembers(caseId, checks, n - 1);
    }
  }

  function Describe(check: Check): string {
    check.dimension + ": " + check.target + " \U{2014} expected " + check.expected + ", got " + check.actual
  }

  function NewIssue(id: string, caseId: string, check: Check, run: RunInfo): Issue {
    Issue(id, Open, SeverityOf(check.dimension), check.dimension, caseId, check.messageId, check.target,
          Describe(check), "", "", [Event(Detected, run)])
  }

  /** What a run of the case does to a known issue. */
  function NextIssue(issue: Issue, failing: bool, caseId: string, run: RunInfo): Issue {
    if failing then
      if issue.status == IsResolved
      then issue.(status := HasRegressed, history := issue.history + [Event(Regressed, run)])
      else issue
    else if issue.caseId == caseId && issue.status in {Open, HasRegressed}
    then issue.(status := IsResolved, history := issue.history + [Event(Resolved, run)])
    else issue
  }

  function Updated(issues: Issues, caseId: string, failures: map<string, Check>, run: RunInfo): Issues {
    map id | id in issues.Keys + failures.Keys ::
      if id in issues then NextIssue(issues[id], id in failures, caseId, run)
      else NewIssue(id, caseId, failures[id], run)
  }

  datatype Changes = Changes(newIssues: seq<string>, stillOpen: seq<string>, resolved: seq<string>, regressed: seq<string>)

  /** Every id once. */
  ghost predicate NoneTwice(changes: Changes) {
    && Ordering.Distinct(changes.newIssues) && Ordering.Distinct(changes.stillOpen)
    && Ordering.Distinct(changes.resolved) && Ordering.Distinct(changes.regressed)
  }

  /** Which list an issue id of the run goes to, and once only. */
  ghost predicate ChangesOf(issues: Issues, caseId: string, failures: map<string, Check>, changes: Changes) {
    && NoneTwice(changes)
    && (forall id :: id in changes.newIssues <==> id in failures && id !in issues)
    && (forall id :: id in changes.regressed <==> id in failures && id in issues && issues[id].status == IsResolved)
    && (forall id :: id in changes.stillOpen <==> id in failures && id in issues && issues[id].status != IsResolved)
    && (forall id :: id in changes.resolved <==>
          id !in failures && id in issues && issues[id].caseId == caseId && issues[id].status in {Open, HasRegressed})
  }

  method CurrentFailures(caseId: string, checks: seq<Check>) returns (failures: map<string, Check>)
    ensures failures == Failures(caseId, checks, |checks|)
  {
    failures := map[];
    for i := 0 to |checks|
      invariant failures == Failures(caseId, checks, i)
    {
      if !checks[i].passed {
        failures := failures[IdOf(caseId, checks[i]) := checks[i]];
      }
    }
  }

  /** The first loop when the ids in `done` have been handled. */
  ghost predicate FailuresHandled(issues0: Issues, issues: Issues, caseId: string, failures: map<string, Check>,
                                  run: RunInfo, done: set<string>) {
    && issues.Keys == issues0.Keys + done
    && forall id :: id in issues ==>
         issues[id] == if id !in done then issues0[id]
                       else if id in issues0 then NextIssue(issues0[id], true, caseId, run)
                       else if id in failures then NewIssue(id, caseId, failures[id], run) else issues[id]
  }

  function AfterFailure(issues: Issues, id: string, caseId: string, check: Check, run: RunInfo): Issues {
    issues[id := if id in issues then NextIssue(issues[id], true, caseId, run) else NewIssue(id, caseId, check, run)]
  }

  function ChangesAfter(issues: Issues, id: string, changes: Changes): Changes {
    if id !in issues then changes.(newIssues := changes.newIssues + [id])
    else if issues[id].status == IsResolved then changes.(regressed := changes.regressed + [id])
    else changes.(stillOpen := changes.stillOpen + [id])
  }

  method HandleFailure(issues0: Issues, id: string, caseId: string, check: Check, run: RunInfo, changes0: Changes)
      returns (issues: Issues, changes: Changes)
    ensures issues == AfterFailure(issues0, id, caseId, check, run) && changes == ChangesAfter(issues0, id, changes0)
  {
    issues, changes := issues0, changes0;
    if id !in issues {
      issues := issues[id := NewIssue(id, caseId, check, run)];
      changes := changes.(newIssues := changes.newIssues + [id]);
    } else if issues[id].status == IsResolved {
      var issue := issues[id];
      issues := issues[id := issue.(status := HasRegressed, history := issue.history + [Event(Regressed, run)])];
      changes := changes.(regressed := changes.regressed + [id]);
    } else {
      changes := changes.(stillOpen := changes.stillOpen + [id]);
    }
  }

  /** The lists when the failures in `done` have been handled. */
  ghost predicate Listed(issues0: Issues, done: set<string>, changes: Changes) {
    && (forall id :: id in changes.newIssues <==> id in done && id !in issues0)
    && (forall id :: id in changes.regressed <==> id in done && id in issues0 && issues0[id].status == IsResolved)
    && (forall id :: id in changes.stillOpen <==> id in done && id in issues0 && issues0[id].status != IsResolved)
    && changes.resolved == [] && NoneTwice(changes)
  }

  lemma {:induction false} HandledOneMore(issues0: Issues, issues: Issues, caseId: string, failures: map<string, Check>,
                                          run: RunInfo, done: set<string>, id: string)
    requires FailuresHandled(issues0, issues, caseId, failures, run, done) && id !in done && id in failures
    ensures FailuresHandled(issues0, AfterFailure(issues, id, caseId, failures[id], run), caseId, failures, run, done + {id})
  {
  }

  lemma {:induction false} ListedOneMore(issues0: Issues, issues: Issues, done: set<string>, id: string, changes: Changes)
    requires Listed(issues0, done, changes) && id !in done
    requires id in issues <==> id in issues0
    requires id in issues ==> issues[id] == issues0[id]
    ensures Listed(issues0, done + {id}, ChangesAfter(issues, id, changes))
  {
  }

  method HandleFailures(issues0: Issues, caseId: string, failures: map<string, Check>, run: RunInfo)
      returns (issues: Issues, changes: Changes)
    ensures FailuresHandled(issues0, issues, caseId, failures, run, failures.Keys)
    ensures Listed(issues0, failures.Keys, changes)
  {
    issues, changes := issues0, Changes([], [], [], []);
    var todo := failures.Keys;
    ghost var done: set<string> := {};
    while todo != {}
      invariant done !! todo && done + todo == failures.Keys
      invariant FailuresHandled(issues0, issues, caseId, failures, run, done)
      invariant Listed(issues0, done, changes)
    {
      var id :| id in todo;
      ListedOneMore(issues0, issues, done, id, changes);
      HandledOneMore(issues0, issues, caseId, failures, run, done, id);
      issues, changes := HandleFailure(issues, id, caseId, failures[id], run, changes);
      todo, done := todo - {id}, done + {id};
    }
    assert done == failures.Keys;
  }

  /** The second loop when only the ids in `todo` are left. */
  ghost predicate PassesHandled(issues1: Issues, issues: Issues, caseId: string, failures: map<string, Check>,
                                run: RunInfo, todo: set<string>) {
    && issues.Keys == issues1.Keys
    && forall id :: id in issues ==>
         issues[id] == if id in todo || id in failures then issues1[id] else NextIssue(issues1[id], false, caseId, run)
  }

  ghost predicate Resolves(issues: Issues, caseId: string, failures: map<string, Check>, id: string) {
    id !in failures && id in issues && issues[id].caseId == caseId && issues[id].status in {Open, HasRegressed}
  }

  /** The ids that the second loop has resolved when only those in `todo` are left, each once. */
  ghost predicate ResolvedBut(issues1: Issues, caseId: string, failures: map<string, Check>, todo: set<string>,
                              resolved: seq<string>) {
    && Ordering.Distinct(resolved)
    && forall id :: id in resolved <==> Resolves(issues1, caseId, failures, id) && id !in todo
  }

  /** An open issue of the case that does not fail is resolved. */
  method HandlePass(issues1: Issues, issues0: Issues, id: string, caseId: string, failures: map<string, Check>, run: RunInfo,
                    resolved0: seq<string>, ghost todo: set<string>)
      returns (issues: Issues, resolved: seq<string>)
    requires id in todo && id in issues1 && PassesHandled(issues1, issues0, caseId, failures, run, todo)
    requires ResolvedBut(issues1, caseId, failures, todo, resolved0)
    ensures PassesHandled(issues1, issues, caseId, failures, run, todo - {id})
    ensures ResolvedBut(issues1, caseId, failures, todo - {id}, resolved)
  {
    issues, resolved := issues0, resolved0;
    var issue := issues[id];
    if issue.caseId == caseId && issue.status in {Open, HasRegressed} && id !in failures {
      issues := issues[id := issue.(status := IsResolved, history := issue.history + [Event(Resolved, run)])];
      resolved := resolved + [id];
    }
  }

  method HandlePasses(issues1: Issues, caseId: string, failures: map<string, Check>, run: RunInfo)
      returns (issues: Issues, resolved: seq<string>)
    ensures PassesHandled(issues1, issues, caseId, failures, run, {})
    ensures ResolvedBut(issues1, caseId, failures, {}, resolved)
  {
    issues, resolved := issues1, [];
    var todo := issues1.Keys;
    while todo != {}
      invariant todo <= issues1.Keys
      invariant PassesHandled(issues1, issues, caseId, failures, run, todo)
      invariant ResolvedBut(issues1, caseId, failures, todo, resolved)
    {
      var id :| id in todo;
      issues, resolved := HandlePass(issues1, issues, id, caseId, failures, run, resolved, todo);
      todo := todo - {id};
    }
  }

  method UpdateIssuesFromEval(issues0: Issues, caseId: string, checks: seq<Check>, run: RunInfo)
      returns (issues: Issues, changes: Changes)
    ensures issues == Updated(issues0, caseId, Failures(caseId, checks, |checks|), run)
    ensures ChangesOf(issues0, caseId, Failures(caseId, checks, |checks|), changes)
  {
    var failures := CurrentFailures(caseId, checks);
    var issues1, resolved;
    issues1, changes := HandleFailures(issues0, caseId, failures, run);
    issues, resolved := HandlePasses(issues1, caseId, failures, run);
    changes := changes.(resolved := resolved);
  }

  // ---- What one run leaves behind ----

  ghost predicate Failing(caseId: string, checks: seq<Check>, id: string) {
    exists i :: 0 <= i < |checks| && !checks[i].passed && IdOf(caseId, checks[i]) == id
  }

  function AfterRun(issues: Issues, caseId: string, checks: seq<Check>, run: RunInfo): Issues {
    Updated(issues, caseId, Failures(caseId, checks, |checks|), run)
  }

  /** Every failing id is known afterwards; a case's issue is alive exactly if it fails, unless nobody will fix it. */
  lemma {:induction false} RunSettles(issues: Issues, caseId: string, checks: seq<Check>, run: RunInfo, id: string)
    ensures var after := AfterRun(issues, caseId, checks, run);
      && (Failing(caseId, checks, id) ==> id in after)
      && (id in after && after[id].caseId == caseId && after[id].status != WontFix ==>
            (after[id].status in {Open, HasRegressed} <==> Failing(caseId, checks, id)))
  {
    FailuresMembers(caseId, checks, |checks|);
  }

  /** Check i is the last failing one with this id. */
  ghost predicate LastFailure(caseId: string, checks: seq<Check>, n: nat, i: int, id: string)
    requires n <= |checks|
  {
    && 0 <= i < n && !checks[i].passed && IdOf(caseId, checks[i]) == id
    && forall j :: i < j < n && !checks[j].passed ==> IdOf(caseId, checks[j]) != id
  }

  lemma {:induction false} LastFailureCounts(caseId: string, checks: seq<Check>, n: nat, i: int, id: string)
    requires n <= |checks| && LastFailure(caseId, checks, n, i, id)
    ensures id in Failures(caseId, checks, n) && Failures(caseId, checks, n)[id] == checks[i]
  {
    if i < n - 1 {
      LastFailureCounts(caseId, checks, n - 1, i, id);
    }
  }

  /** What an issue opened by this check looks like. */
  ghost predicate OpenedBy(issue: Issue, id: string, caseId: string, check: Check, run: RunInfo) {
    && issue.id == id && issue.status == Open && issue.caseId == caseId && issue.history == [Event(Detected, run)]
    && issue.dimension == check.dimension && issue.messageId == check.messageId && issue.target == check.target
    && issue.githubIssue == issue.githubPr == ""
    && (issue.severity == High <==> check.dimension == "forbidden")
    && (issue.severity == Medium <==> check.dimension == "routing" || check.dimension == "node_update")
  }

  /**
   What a run makes of a known issue: a failing one that was resolved regresses,
   an open one of the case that does not fail is resolved, every other one stays
   as it is.
   */
  lemma {:induction false} RunTreatsIssue(issues: Issues, caseId: string, checks: seq<Check>, run: RunInfo, id: string)
    requires id in issues
    ensures id in AfterRun(issues, caseId, checks, run)
    ensures AfterRun(issues, caseId, checks, run)[id] ==
      var issue, failing := issues[id], Failing(caseId, checks, id);
      if failing && issue.status == IsResolved then
        issue.(status := HasRegressed, history := issue.history + [Event(Regressed, run)])
      else if !failing && issue.caseId == caseId && (issue.status == Open || issue.status == HasRegressed) then
        issue.(status := IsResolved, history := issue.history + [Event(Resolved, run)])
      else issue
  {
    FailuresMembers(caseId, checks, |checks|);
  }

  /** And of an unknown one: it is opened exactly if it fails, by the last check that does. */
  lemma {:induction false} RunOpensIssue(issues: Issues, caseId: string, checks: seq<Check>, run: RunInfo, id: string)
    requires id !in issues
    ensures id in AfterRun(issues, caseId, checks, run) <==> Failing(caseId, checks, id)
    ensures forall i :: LastFailure(caseId, checks, |checks|, i, id) ==>
      id in AfterRun(issues, caseId, checks, run)
      && OpenedBy(AfterRun(issues, caseId, checks, run)[id], id, caseId, checks[i], run)
  {
    FailuresMembers(caseId, checks, |checks|);
    forall i | LastFailure(caseId, checks, |checks|, i, id)
      ensures id in AfterRun(issues, caseId, checks, run)
      ensures OpenedBy(AfterRun(issues, caseId, checks, run)[id], id, caseId, checks[i], run)
    {
      LastFailureCounts(caseId, checks, |checks|, i, id);
      NewIssueIsOpen(id, caseId, checks[i], run);
      assert AfterRun(issues, caseId, checks, run)[id] == NewIssue(id, caseId, checks[i], run);
    }
  }

  lemma {:induction false} NewIssueIsOpen(id: string, caseId: string, check: Check, run: RunInfo)
    ensures OpenedBy(NewIssue(id, caseId, check, run), id, caseId, check, run)
  {
  }

  /** The same run once more finds every failure still open and changes nothing. */
  lemma {:induction false} RunTwice(issues: Issues, caseId: string, checks: seq<Check>, first: RunInfo, second: RunInfo,
                                    changes: Changes)
    requires
      ChangesOf(AfterRun(issues, caseId, checks, first), caseId, Failures(caseId, checks, |checks|), changes)
    ensures var once := AfterRun(issues, caseId, checks, first); AfterRun(once, caseId, checks, second) == once
    ensures changes.newIssues == [] && changes.resolved == [] && changes.regressed == []
    ensures forall id :: id in changes.stillOpen <==> Failing(caseId, checks, id)
  {
    FailuresMembers(caseId, checks, |checks|);
    var failures := Failures(caseId, checks, |checks|);
    var once := Updated(issues, caseId, failures, first);
    UpdatedIsStable(issues, caseId, failures, first);
    NoMember(changes.newIssues);
    NoMember(changes.resolved);
    NoMember(changes.regressed);
    StableStays(once, caseId, failures, second);
  }

  /** Nothing is left to do for these failures: none is new or resolved, and no other issue of the case is alive. */
  ghost predicate Stable(issues: Issues, caseId: string, failures: map<string, Check>) {
    && (forall id :: id in failures ==> id in issues && issues[id].status != IsResolved)
    && forall id :: id in issues && id !in failures && issues[id].caseId == caseId ==>
         issues[id].status !in {Open, HasRegressed}
  }

  lemma {:induction false} UpdatedIsStable(issues: Issues, caseId: string, failures: map<string, Check>, run: RunInfo)
    ensures Stable(Updated(issues, caseId, failures, run), caseId, failures)
  {
  }

  lemma {:induction false} StableStays(issues: Issues, caseId: string, failures: map<string, Check>, run: RunInfo)
    requires Stable(issues, caseId, failures)
    ensures Updated(issues, caseId, failures, run) == issues
  {
    var after := Updated(issues, caseId, failures, run);
    assert after.Keys == issues.Keys;
    assert forall id :: id in issues ==> after[id] == issues[id];
  }

  lemma {:induction false} NoMember(ids: seq<string>)
    ensures ids == [] <==> forall id :: id !in ids
  {
    if ids != [] {
      assert ids[0] in ids;
    }
  }

  /** A failing id is the key of another case's resolved issue. */
  ghost predicate Collides(issues: Issues, caseId: string, checks: seq<Check>) {
    exists id :: id in issues && issues[id].caseId != caseId && issues[id].status == IsResolved
                 && Failing(caseId, checks, id)
  }

  ghost predicate OthersUntouched(issues: Issues, caseId: string, after: Issues) {
    forall id :: id in issues && issues[id].caseId != caseId ==> id in after && after[id] == issues[id]
  }

  /** A run leaves the other cases alone exactly when no failing id is taken by a resolved issue of one of them. */
  lemma {:induction false} OtherCasesUntouched(issues: Issues, caseId: string, checks: seq<Check>, run: RunInfo)
    ensures OthersUntouched(issues, caseId, AfterRun(issues, caseId, checks, run)) <==> !Collides(issues, caseId, checks)
  {
    FailuresMembers(caseId, checks, |checks|);
    var after := AfterRun(issues, caseId, checks, run);
    if id :| id in issues && issues[id].caseId != caseId && issues[id].status == IsResolved && Failing(caseId, checks, id) {
      assert after[id].status == HasRegressed;
    }
  }

  ghost predicate PlainChecks(checks: seq<Check>) {
    forall i :: 0 <= i < |checks| ==> Plain(checks[i].messageId) && Plain(checks[i].dimension)
  }

  /** Every key is the id of its issue's own parts, and these have no colons. */
  ghost predicate Keyed(issues: Issues) {
    forall id :: id in issues ==>
      && issues[id].id == id
      && id == MakeIssueId(issues[id].caseId, issues[id].messageId, issues[id].dimension, issues[id].target)
      && Plain(issues[id].caseId) && Plain(issues[id].messageId) && Plain(issues[id].dimension)
  }

  /** Where no part has a colon, cases never meet. */
  lemma {:induction false} PlainCasesNeverCollide(issues: Issues, caseId: string, checks: seq<Check>)
    requires Keyed(issues) && Plain(caseId) && PlainChecks(checks)
    ensures !Collides(issues, caseId, checks)
  {
    if id :| id in issues && issues[id].caseId != caseId && Failing(caseId, checks, id) {
      var i :| 0 <= i < |checks| && !checks[i].passed && IdOf(caseId, checks[i]) == id;
      IssueIdInjective(issues[id].caseId, issues[id].messageId, issues[id].dimension, issues[id].target,
                       caseId, checks[i].messageId, checks[i].dimension, checks[i].target);
    }
  }

  // ---- Any sequence of runs ----

  datatype Op = Eval(caseId: string, checks: seq<Check>, run: RunInfo) | MarkWontFix(id: string)

  function Step(issues: Issues, op: Op): Issues {
    match op
    case Eval(caseId, checks, run) => AfterRun(issues, caseId, checks, run)
    case MarkWontFix(id) => if id in issues then issues[id := issues[id].(status := WontFix)] else issues
  }

  function Run(ops: seq<Op>, n: nat): Issues
    requires n <= |ops|
  {
    if n == 0 then map[] else Step(Run(ops, n - 1), ops[n - 1])
  }

  /** detected (resolved regressed)* [resolved] */
  ghost predicate Word(history: seq<Event>) {
    && history != [] && history[0].kind == Detected
    && forall k :: 1 <= k < |history| ==> history[k].kind == if k % 2 == 1 then Resolved else Regressed
  }

  /** The history is such a word, and the status says its last event unless it was set by hand. */
  ghost predicate Told(issue: Issue) {
    && Word(issue.history)
    && match issue.history[|issue.history| - 1].kind
       case Detected => issue.status in {Open, WontFix}
       case Resolved => issue.status in {IsResolved, WontFix}
       case Regressed => issue.status in {HasRegressed, WontFix}
  }

  ghost predicate AllTold(issues: Issues) {
    forall id :: id in issues ==> Told(issues[id])
  }

  lemma {:induction false} NextTold(issue: Issue, failing: bool, caseId: string, run: RunInfo)
    requires Told(issue)
    ensures Told(NextIssue(issue, failing, caseId, run))
  {
    var next := NextIssue(issue, failing, caseId, run);
    assert forall k :: 0 <= k < |issue.history| ==> next.history[k] == issue.history[k];
  }

  lemma {:induction false} StepTold(issues: Issues, op: Op)
    requires AllTold(issues)
    ensures AllTold(Step(issues, op))
  {
    if op.Eval? {
      var failures := Failures(op.caseId, op.checks, |op.checks|);
      forall id | id in issues
        ensures Told(NextIssue(issues[id], id in failures, op.caseId, op.run))
      {
        NextTold(issues[id], id in failures, op.caseId, op.run);
      }
    }
  }

  /** Whatever runs there are, every issue's history is a word and its status tells the last event. */
  lemma {:induction false} HistoriesAreWords(ops: seq<Op>, n: nat)
    requires n <= |ops|
    ensures AllTold(Run(ops, n))
  {
    if n > 0 {
      HistoriesAreWords(ops, n - 1);
      StepTold(Run(ops, n - 1), ops[n - 1]);
    }
  }

  /** Issues are never lost, and a history only grows. */
  ghost predicate Kept(before: Issues, after: Issues) {
    forall id :: id in before ==> id in after && before[id].history <= after[id].history
  }

  lemma {:induction false} HistoriesGrow(ops: seq<Op>, m: nat, n: nat)
    requires m <= n <= |ops|
    ensures Kept(Run(ops, m), Run(ops, n))
  {
    if m < n {
      HistoriesGrow(ops, m, n - 1);
      StepKeeps(Run(ops, n - 1), ops[n - 1]);
      assert forall id :: id in Run(ops, m) ==> Run(ops, m)[id].history <= Run(ops, n - 1)[id].history;
    }
  }

  lemma {:induction false} StepKeeps(issues: Issues, op: Op)
    ensures Kept(issues, Step(issues, op))
  {
  }

  ghost predicate PlainOp(op: Op) {
    op.Eval? ==> Plain(op.caseId) && PlainChecks(op.checks)
  }

  lemma {:induction false} StepKeyed(issues: Issues, op: Op)
    requires Keyed(issues) && PlainOp(op)
    ensures Keyed(Step(issues, op))
  {
    if op.Eval? {
      FailuresMembers(op.caseId, op.checks, |op.checks|);
      var failures := Failures(op.caseId, op.checks, |op.checks|);
      forall id | id in failures
        ensures failures[id] in op.checks && Plain(failures[id].messageId) && Plain(failures[id].dimension)
      {
      }
      UpdatedKeyed(issues, op.caseId, failures, op.run);
    }
  }

  lemma {:induction false} UpdatedKeyed(issues: Issues, caseId: string, failures: map<string, Check>, run: RunInfo)
    requires Keyed(issues) && Plain(caseId)
    requires forall id :: id in failures ==>
      IdOf(caseId, failures[id]) == id && Plain(failures[id].messageId) && Plain(failures[id].dimension)
    ensures Keyed(Updated(issues, caseId, failures, run))
  {
  }

  lemma {:induction false} RunKeyed(ops: seq<Op>, n: nat)
    requires n <= |ops| && forall i :: 0 <= i < n ==> PlainOp(ops[i])
    ensures Keyed(Run(ops, n))
  {
    if n > 0 {
      RunKeyed(ops, n - 1);
      StepKeyed(Run(ops, n - 1), ops[n - 1]);
    }
  }

  /** Over any colon-free runs, a run of one case leaves every other case alone. */
  lemma {:induction false} CasesAreIndependent(ops: seq<Op>, n: nat)
    requires n < |ops| && ops[n].Eval? && forall i :: 0 <= i <= n ==> PlainOp(ops[i])
    ensures OthersUntouched(Run(ops, n), ops[n].caseId, Run(ops, n + 1))
  {
    RunKeyed(ops, n);
    PlainCasesNeverCollide(Run(ops, n), ops[n].caseId, ops[n].checks);
    OtherCasesUntouched(Run(ops, n), ops[n].caseId, ops[n].checks, ops[n].run);
  }
}
