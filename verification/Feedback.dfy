/** At-most-once publication of failed jobs as issues, over paginated listings that
    shift while they are read and uploads that may fail after taking effect. */
module Feedback {
  import opened Text
  import opened Markers

  const MAX_PAGES := 10
  const PAGE_SIZE := 100
  const BODY_BOUND := 60000
  const FAILURES := {"failure", "timed_out", "action_required", "stale", "startup_failure"}

  /** `trusted` is the verdict on the author: the configured publisher identity. */
  datatype Issue = Issue(number: nat, body: string, pull: bool, trusted: bool)

  datatype Subject = Subject(job: nat, published: bool, number: nat)

  datatype Outcome =
    | Raised
    | Pending
    | Partial(subjects: seq<Subject>, deferred: seq<nat>)
    | Finished(subjects: seq<Subject>)

  datatype Lookup = Failed | Missing | Found(number: nat)

  // ---------------------------------------------------------------- jobs of the attempt

  datatype Job = Job(id: nat, run: nat, attempt: Option<nat>, sha: Option<string>, completed: bool, conclusion: string)

  /** One answer of the jobs endpoint; None when the request failed. */
  datatype JobsPage = JobsPage(jobs: seq<Job>, total: int)

  predicate BelongsTo(job: Job, run: nat, attempt: nat, sha: string) {
    job.run == run && (job.attempt.Some? ==> job.attempt.value == attempt) &&
    (job.sha.Some? && sha != "" ==> job.sha.value == sha)
  }

  function Ids(jobs: seq<Job>): (ids: seq<nat>)
    ensures |ids| == |jobs| && forall i :: 0 <= i < |jobs| ==> ids[i] == jobs[i].id
  {
    seq(|jobs|, i requires 0 <= i < |jobs| => jobs[i].id)
  }

  function IdSet(jobs: seq<Job>): set<nat> { set job | job in jobs :: job.id }

  ghost predicate Unique(ids: seq<nat>) {
    forall i, j :: 0 <= i < j < |ids| ==> ids[i] != ids[j]
  }

  function Concat(pages: seq<JobsPage>): seq<Job> {
    if pages == [] then [] else Concat(pages[..|pages| - 1]) + pages[|pages| - 1].jobs
  }

  /** Every job is of this attempt and appears once. */
  ghost predicate Sane(jobs: seq<Job>, run: nat, attempt: nat, sha: string) {
    && (forall i :: 0 <= i < |jobs| ==> BelongsTo(jobs[i], run, attempt, sha) && PositiveId(jobs[i].id))
    && Unique(Ids(jobs))
  }

  /** The jobs are one consistent inventory: every page agreed on the total, the pages
      read add up to exactly it, none but the last is empty, and the jobs are sane. */
  ghost predicate Inventory(jobs: seq<Job>, pages: seq<JobsPage>, run: nat, attempt: nat, sha: string) {
    && jobs == Concat(pages) && 0 < |pages| <= MAX_PAGES
    && (forall p :: 0 <= p < |pages| ==> pages[p].total == |jobs| && |pages[p].jobs| <= PAGE_SIZE)
    && (forall p :: 0 <= p < |pages| - 1 ==> pages[p].jobs != [])
    && Sane(jobs, run, attempt, sha)
  }

  /** The first `n` answers are an inventory. */
  ghost predicate CompleteAt(answers: seq<JobsPage>, n: nat, run: nat, attempt: nat, sha: string)
    requires n <= |answers|
  {
    Inventory(Concat(answers[..n]), answers[..n], run, attempt, sha)
  }

  ghost predicate NoneComplete(answers: seq<JobsPage>, n: nat, run: nat, attempt: nat, sha: string) {
    forall m :: 0 <= m <= n && m <= |answers| ==> !CompleteAt(answers, m, run, attempt, sha)
  }

  lemma {:induction false} ConcatPrefix(answers: seq<JobsPage>, m: nat, n: nat)
    requires m <= n <= |answers|
    ensures Concat(answers[..m]) <= Concat(answers[..n])
    decreases n
  {
    if m < n {
      ConcatPrefix(answers, m, n - 1);
      assert answers[..n][..n - 1] == answers[..n - 1];
    }
  }

  lemma SanePrefix(jobs: seq<Job>, more: seq<Job>, run: nat, attempt: nat, sha: string)
    requires jobs <= more && Sane(more, run, attempt, sha)
    ensures Sane(jobs, run, attempt, sha)
  {
    assert forall i :: 0 <= i < |jobs| ==> jobs[i] == more[i] && Ids(jobs)[i] == Ids(more)[i];
  }

  /** A page that cannot be part of an inventory ends all hope of one. */
  lemma BadPage(answers: seq<JobsPage>, q: nat, total: int, run: nat, attempt: nat, sha: string)
    requires q < |answers| && NoneComplete(answers, q, run, attempt, sha)
    requires forall p :: 0 <= p < q ==> answers[p].total == total
    requires var bad := answers[q];
             || |bad.jobs| > PAGE_SIZE || bad.total < 0 || (q > 0 && bad.total != total)
             || !Sane(Concat(answers[..q + 1]), run, attempt, sha)
             || (|Concat(answers[..q + 1])| != bad.total && (bad.jobs == [] || |Concat(answers[..q + 1])| > bad.total))
    ensures NoneComplete(answers, |answers|, run, attempt, sha)
  {
    forall m | q < m <= |answers| ensures !CompleteAt(answers, m, run, attempt, sha) {
      if CompleteAt(answers, m, run, attempt, sha) {
        var pages := answers[..m];
        assert pages[q] == answers[q] && (q > 0 ==> pages[0] == answers[0]);
        ConcatPrefix(answers, q + 1, m);
        SanePrefix(Concat(answers[..q + 1]), Concat(pages), run, attempt, sha);
      }
    }
  }

  /** `read_jobs` over the answers of the endpoint, page by page: it accepts exactly when some
      first pages are an inventory, and then the shortest such. */
  method ReadJobs(answers: seq<JobsPage>, run: nat, attempt: nat, sha: string)
    returns (r: Option<seq<Job>>, ghost used: seq<JobsPage>)
    ensures r.Some? ==> used <= answers && Inventory(r.value, used, run, attempt, sha)
    ensures r.Some? ==> NoneComplete(answers, |used| - 1, run, attempt, sha)
    ensures r.None? ==> NoneComplete(answers, |answers|, run, attempt, sha)
  {
    var jobs: seq<Job> := [];
    var ids: set<nat> := {};
    var total := -1;
    used := [];
    var page := 1;
    while page <= MAX_PAGES
      invariant 1 <= page <= MAX_PAGES + 1 && ReadUpTo(answers, page - 1, jobs, ids, total, run, attempt, sha)
    {
      var turn;
      turn, jobs, ids, total := ReadAnswer(answers, page, jobs, ids, total, run, attempt, sha);
      if turn == Refuse {
        return None, used;
      }
      if turn == Accept {
        used := answers[..page];
        return Some(jobs), used;
      }
      page := page + 1;
    }
    TooManyPages(answers, run, attempt, sha);
    return None, used;
  }

  datatype Turn = Accept | Refuse | ReadOn

  /** The first `n` answers agree so far and are not an inventory yet. */
  ghost predicate ReadUpTo(answers: seq<JobsPage>, n: nat, jobs: seq<Job>, ids: set<nat>, total: int, run: nat, attempt: nat, sha: string) {
    && n <= |answers| && jobs == Concat(answers[..n]) && ids == IdSet(jobs) && Sane(jobs, run, attempt, sha)
    && (forall p :: 0 <= p < n ==> answers[p].total == total && |answers[p].jobs| <= PAGE_SIZE && answers[p].jobs != [])
    && (n == 0 <==> total == -1)
    && NoneComplete(answers, n, run, attempt, sha)
  }

  /** One more answer: it completes the inventory, rules one out, or neither. */
  method ReadAnswer(answers: seq<JobsPage>, page: nat, before: seq<Job>, seen: set<nat>, agreed: int, run: nat, attempt: nat, sha: string)
    returns (turn: Turn, jobs: seq<Job>, ids: set<nat>, total: int)
    requires 1 <= page <= MAX_PAGES && ReadUpTo(answers, page - 1, before, seen, agreed, run, attempt, sha)
    ensures turn == Accept ==> page <= |answers| && Inventory(jobs, answers[..page], run, attempt, sha)
    ensures turn == Refuse ==> NoneComplete(answers, |answers|, run, attempt, sha)
    ensures turn == ReadOn ==> ReadUpTo(answers, page, jobs, ids, total, run, attempt, sha)
  {
    jobs, ids, total := before, seen, agreed;
    if page > |answers| {
      return Refuse, jobs, ids, total;
    }
    var answer := answers[page - 1];
    ConcatNext(answers, page - 1);
    if |answer.jobs| > PAGE_SIZE || answer.total < 0 || (total != -1 && total != answer.total) {
      BadPage(answers, page - 1, total, run, attempt, sha);
      return Refuse, jobs, ids, total;
    }
    var ok;
    ok, jobs, ids := ReadPage(answer.jobs, jobs, ids, run, attempt, sha);
    if !ok || (|jobs| != answer.total && (answer.jobs == [] || |jobs| > answer.total)) {
      BadPage(answers, page - 1, total, run, attempt, sha);
      return Refuse, jobs, ids, total;
    }
    ReadNext(answers, page, before, seen, agreed, run, attempt, sha);
    return if |jobs| == answer.total then Accept else ReadOn, jobs, ids, answer.total;
  }

  lemma ConcatNext(answers: seq<JobsPage>, n: nat)
    requires n < |answers|
    ensures Concat(answers[..n + 1]) == Concat(answers[..n]) + answers[n].jobs
  {
    assert answers[..n + 1][..n] == answers[..n];
  }

  /** A page that fits completes the inventory, or leaves it open. */
  lemma ReadNext(answers: seq<JobsPage>, page: nat, before: seq<Job>, seen: set<nat>, agreed: int, run: nat, attempt: nat, sha: string)
    requires 1 <= page <= MAX_PAGES && page <= |answers| && ReadUpTo(answers, page - 1, before, seen, agreed, run, attempt, sha)
    requires var answer := answers[page - 1];
             && |answer.jobs| <= PAGE_SIZE && answer.total >= 0 && (agreed == -1 || agreed == answer.total)
             && Sane(before + answer.jobs, run, attempt, sha)
             && (|before + answer.jobs| == answer.total || (answer.jobs != [] && |before + answer.jobs| < answer.total))
    ensures var answer := answers[page - 1];
            var jobs := before + answer.jobs;
            if |jobs| == answer.total then Inventory(jobs, answers[..page], run, attempt, sha)
            else ReadUpTo(answers, page, jobs, IdSet(jobs), answer.total, run, attempt, sha)
  {
    var pages, jobs := answers[..page], before + answers[page - 1].jobs;
    ConcatNext(answers, page - 1);
    assert forall p :: 0 <= p < page ==> pages[p] == answers[p];
    if |jobs| != answers[page - 1].total {
      assert !CompleteAt(answers, page, run, attempt, sha) by { assert pages[page - 1].total != |jobs|; }
    }
  }

  lemma TooManyPages(answers: seq<JobsPage>, run: nat, attempt: nat, sha: string)
    requires NoneComplete(answers, MAX_PAGES, run, attempt, sha)
    ensures NoneComplete(answers, |answers|, run, attempt, sha)
  {
  }

  /** One page: accepted exactly when the jobs stay sane with it. */
  method ReadPage(batch: seq<Job>, before: seq<Job>, seen: set<nat>, run: nat, attempt: nat, sha: string)
    returns (ok: bool, jobs: seq<Job>, ids: set<nat>)
    requires seen == IdSet(before) && Sane(before, run, attempt, sha)
    ensures ok <==> Sane(before + batch, run, attempt, sha)
    ensures ok ==> jobs == before + batch && ids == IdSet(jobs)
  {
    jobs, ids := before, seen;
    for n := 0 to |batch|
      invariant jobs == before + batch[..n] && ids == IdSet(jobs) && Sane(jobs, run, attempt, sha)
    {
      var job := batch[n];
      if !PositiveId(job.id) || job.id in ids || !BelongsTo(job, run, attempt, sha) {
        NotSane(before, batch, n, run, attempt, sha);
        return false, jobs, ids;
      }
      SaneNext(jobs, job, run, attempt, sha);
      assert batch[..n + 1] == batch[..n] + [job];
      jobs, ids := jobs + [job], ids + {job.id};
    }
    assert batch[..|batch|] == batch;
    ok := true;
  }

  lemma SaneNext(jobs: seq<Job>, job: Job, run: nat, attempt: nat, sha: string)
    requires Sane(jobs, run, attempt, sha) && PositiveId(job.id) && job.id !in IdSet(jobs) && BelongsTo(job, run, attempt, sha)
    ensures Sane(jobs + [job], run, attempt, sha) && IdSet(jobs + [job]) == IdSet(jobs) + {job.id}
  {
    var more := jobs + [job];
    assert Ids(more) == Ids(jobs) + [job.id];
    forall i | 0 <= i < |jobs| ensures jobs[i].id != job.id { assert jobs[i] in jobs; }
  }

  lemma NotSane(before: seq<Job>, batch: seq<Job>, n: nat, run: nat, attempt: nat, sha: string)
    requires n < |batch|
    requires !PositiveId(batch[n].id) || batch[n].id in IdSet(before + batch[..n]) || !BelongsTo(batch[n], run, attempt, sha)
    ensures !Sane(before + batch, run, attempt, sha)
  {
    var all, first := before + batch, before + batch[..n];
    assert all[|first|] == batch[n];
    if batch[n].id in IdSet(first) {
      var i :| 0 <= i < |first| && first[i].id == batch[n].id;
      assert all[i] == first[i] && Ids(all)[i] == Ids(all)[|first|];
    }
  }

  /** `failed_jobs`: the ids with a failing conclusion, or None when an unfinished run
      reports a failing job that is not completed. */
  function FailedJobs(jobs: seq<Job>, active: bool): (r: Option<seq<nat>>)
    ensures r.Some? ==> forall id :: id in r.value <==> exists i :: 0 <= i < |jobs| && jobs[i].id == id && jobs[i].conclusion in FAILURES
    ensures r.None? <==> active && exists i :: 0 <= i < |jobs| && jobs[i].conclusion in FAILURES && !jobs[i].completed
  {
    if jobs == [] then Some([])
    else
      var rest := FailedJobs(jobs[..|jobs| - 1], active);
      var last := jobs[|jobs| - 1];
      if rest.None? then None
      else if last.conclusion !in FAILURES then rest
      else if active && !last.completed then None
      else Some(rest.value + [last.id])
  }

  lemma {:induction false} FailedUnique(jobs: seq<Job>, active: bool)
    requires Unique(Ids(jobs)) && FailedJobs(jobs, active).Some?
    ensures Unique(FailedJobs(jobs, active).value)
  {
    if jobs != [] {
      var init := jobs[..|jobs| - 1];
      assert Ids(init) == Ids(jobs)[..|jobs| - 1];
      FailedUnique(init, active);
      var rest := FailedJobs(init, active).value;
      assert FailedJobs(jobs, active).value == rest || FailedJobs(jobs, active).value == rest + [jobs[|jobs| - 1].id];
      forall id | id in rest ensures id != jobs[|jobs| - 1].id {
        var i :| 0 <= i < |init| && init[i].id == id && init[i].conclusion in FAILURES;
        assert Ids(jobs)[i] != Ids(jobs)[|jobs| - 1];
      }
      var all := FailedJobs(jobs, active).value;
      forall i, j | 0 <= i < j < |all| ensures all[i] != all[j] {
        assert all[i] == rest[i] && rest[i] in rest;
        assert j < |rest| ==> all[j] == rest[j];
      }
    }
  }

  // ---------------------------------------------------------------- coverage of jobs by issues

  /** The run whose jobs are published, and what an issue of the older format covers. */
  datatype Scope = Scope(key: RunKey, legacy: string -> set<nat>)

  /** The job whose marker the publisher's issue carries. */
  function Carried(sc: Scope, issue: Issue): Option<nat> {
    if issue.pull || !issue.trusted then None else JobOf(sc.key, issue.body)
  }

  /** The jobs an issue covers, as `find_job_publications` reads it. */
  function Covers(sc: Scope, issue: Issue): set<nat> {
    if issue.pull || !issue.trusted then {}
    else if JobPrefix(sc.key) <= issue.body then (match JobOf(sc.key, issue.body) case Some(job) => {job} case None => {})
    else sc.legacy(issue.body)
  }

  lemma {:induction false} LinePrefix(prefix: string, body: string)
    requires prefix <= FirstLine(body)
    ensures prefix <= body
  {
    if prefix != "" { LinePrefix(prefix[1..], body[1..]); }
  }

  /** An issue carrying a job's marker covers that job. */
  lemma CarriedIsCovered(sc: Scope, issue: Issue)
    requires Carried(sc, issue).Some?
    ensures Covers(sc, issue) == {Carried(sc, issue).value}
  {
    LinePrefix(JobPrefix(sc.key), issue.body);
  }

  /** At most one issue carries a given job marker. */
  ghost predicate AtMostOnce(sc: Scope, issues: seq<Issue>) {
    forall i, j :: 0 <= i < j < |issues| && Carried(sc, issues[i]).Some? ==> Carried(sc, issues[i]) != Carried(sc, issues[j])
  }

  ghost predicate CarriedSomewhere(sc: Scope, issues: seq<Issue>, job: nat) {
    exists i :: 0 <= i < |issues| && Carried(sc, issues[i]) == Some(job)
  }

  ghost predicate CoveredSomewhere(sc: Scope, issues: seq<Issue>, job: nat) {
    exists i :: 0 <= i < |issues| && job in Covers(sc, issues[i])
  }

  /** Issues by others came in front; none of them carries a marker of this run. */
  ghost predicate Grew(sc: Scope, before: seq<Issue>, after: seq<Issue>) {
    && |before| <= |after| && after[|after| - |before|..] == before
    && forall i :: 0 <= i < |after| - |before| ==> Carried(sc, after[i]).None?
  }

  lemma GrewTransitive(sc: Scope, a: seq<Issue>, b: seq<Issue>, c: seq<Issue>)
    requires Grew(sc, a, b) && Grew(sc, b, c)
    ensures Grew(sc, a, c)
  {
    var d, e := |b| - |a|, |c| - |b|;
    assert c[e..][d..] == c[d + e..];
    forall i | 0 <= i < d + e ensures Carried(sc, c[i]).None? {
      if i >= e { assert c[i] == c[e..][i - e]; }
    }
  }

  lemma GrewKeeps(sc: Scope, before: seq<Issue>, after: seq<Issue>)
    requires Grew(sc, before, after)
    ensures AtMostOnce(sc, before) ==> AtMostOnce(sc, after)
    ensures forall job :: CarriedSomewhere(sc, after, job) <==> CarriedSomewhere(sc, before, job)
    ensures forall job :: CoveredSomewhere(sc, before, job) ==> CoveredSomewhere(sc, after, job)
  {
    var d := |after| - |before|;
    forall job: nat | CarriedSomewhere(sc, after, job) ensures CarriedSomewhere(sc, before, job) {
      var i :| 0 <= i < |after| && Carried(sc, after[i]) == Some(job);
      assert after[i] == before[i - d];
    }
    forall job: nat | CarriedSomewhere(sc, before, job) ensures CarriedSomewhere(sc, after, job) {
      var i :| 0 <= i < |before| && Carried(sc, before[i]) == Some(job);
      assert after[d..][i] == after[d + i];
    }
    forall job: nat | CoveredSomewhere(sc, before, job) ensures CoveredSomewhere(sc, after, job) {
      var i :| 0 <= i < |before| && job in Covers(sc, before[i]);
      assert after[d..][i] == after[d + i];
    }
    if AtMostOnce(sc, before) {
      forall i, j | 0 <= i < j < |after| && Carried(sc, after[i]).Some? ensures Carried(sc, after[i]) != Carried(sc, after[j]) {
        assert after[i] == before[i - d] && after[j] == before[j - d];
      }
    }
  }

  // ---------------------------------------------------------------- listings

  /** Page `p` of the listing, newest first. */
  function PageOf(issues: seq<Issue>, p: nat): seq<Issue>
    requires 1 <= p
  {
    var low, high := PAGE_SIZE * (p - 1), PAGE_SIZE * p;
    if |issues| <= low then [] else if |issues| <= high then issues[low..] else issues[low..high]
  }

  /** What one listed issue adds to the map from covered job to smallest issue number. */
  function Note(sc: Scope, covered: map<nat, nat>, issue: Issue): map<nat, nat> {
    covered + map job | job in Covers(sc, issue) ::
      if job in covered && covered[job] < issue.number then covered[job] else issue.number
  }

  /** Everything the issue covers is in the map, under no larger number. */
  ghost predicate Noted(sc: Scope, covered: map<nat, nat>, issue: Issue) {
    forall job :: job in Covers(sc, issue) ==> job in covered && covered[job] <= issue.number
  }

  /** Every entry of the map is the number of an issue that covers the job. */
  ghost predicate Witnessed(sc: Scope, covered: map<nat, nat>, issues: seq<Issue>) {
    forall job :: job in covered ==> NumberedBy(sc, issues, job, covered[job])
  }

  ghost predicate NumberedBy(sc: Scope, issues: seq<Issue>, job: nat, number: nat) {
    exists i :: 0 <= i < |issues| && job in Covers(sc, issues[i]) && issues[i].number == number
  }

  lemma GrewWitnessed(sc: Scope, covered: map<nat, nat>, before: seq<Issue>, after: seq<Issue>)
    requires Grew(sc, before, after) && Witnessed(sc, covered, before)
    ensures Witnessed(sc, covered, after)
  {
    forall job | job in covered ensures NumberedBy(sc, after, job, covered[job]) {
      assert NumberedBy(sc, before, job, covered[job]);
      var i :| 0 <= i < |before| && job in Covers(sc, before[i]) && before[i].number == covered[job];
      assert after[|after| - |before|..][i] == after[|after| - |before| + i];
    }
  }

  class Repository {
    const scope: Scope
    /** The issues of the repository, newest first. */
    var issues: seq<Issue>
    var nextNumber: nat
    /** During this call every request is answered and nobody else publishes. */
    var calm: bool

    /** Numbers are handed out once, in order, and no job marker was published twice. */
    ghost predicate Valid()
      reads this
    {
      AtMostOnce(scope, issues) && Below(issues, nextNumber)
    }

    constructor (scope: Scope, issues: seq<Issue>, nextNumber: nat)
      requires AtMostOnce(scope, issues) && Below(issues, nextNumber)
      ensures this.scope == scope && this.issues == issues && this.nextNumber == nextNumber && Valid()
    {
      this.scope, this.issues, this.nextNumber, calm := scope, issues, nextNumber, false;
    }

    /** Other authors and other runs may publish at any moment. */
    method Interfere()
      requires Below(issues, nextNumber)
      modifies this
      ensures calm == old(calm) && nextNumber >= old(nextNumber)
      ensures Grew(scope, old(issues), issues) && Below(issues, nextNumber)
      ensures calm ==> issues == old(issues) && nextNumber == old(nextNumber)
    {
      var arrivals: int := *;
      if calm { arrivals := 0; }
      while arrivals > 0
        invariant calm == old(calm) && nextNumber >= old(nextNumber)
        invariant Grew(scope, old(issues), issues) && Below(issues, nextNumber)
        invariant calm ==> arrivals <= 0 && issues == old(issues) && nextNumber == old(nextNumber)
      {
        arrivals := arrivals - 1;
        var body: string, pull: bool, trusted: bool := *, *, *;
        var issue := Issue(nextNumber, body, pull, trusted);
        if Carried(scope, issue).None? {
          assert Grew(scope, issues, [issue] + issues);
          GrewTransitive(scope, old(issues), issues, [issue] + issues);
          issues, nextNumber := [issue] + issues, nextNumber + 1;
        }
      }
    }

    /** Whether a request is answered. */
    method Answers() returns (answered: bool)
      ensures calm ==> answered
    {
      answered := *;
      if calm { answered := true; }
    }

    /** One page of the listing as it is by then, unless the request fails. */
    method ListPage(page: nat) returns (batch: Option<seq<Issue>>)
      requires Below(issues, nextNumber) && 1 <= page
      modifies this
      ensures calm == old(calm) && nextNumber >= old(nextNumber) && Below(issues, nextNumber)
      ensures Grew(scope, old(issues), issues)
      ensures batch.Some? ==> batch.value == PageOf(issues, page)
      ensures batch.Some? && |batch.value| >= PAGE_SIZE ==> PAGE_SIZE * page <= |issues|
      ensures calm ==> issues == old(issues) && nextNumber == old(nextNumber) && batch.Some?
    {
      Interfere();
      var answered := Answers();
      return if answered then Some(PageOf(issues, page)) else None;
    }

    /** `find_job_publications`: complete for what existed when the call began, although
        the pages shift while they are read; it raises rather than miss anything, and does
        not when all is calm and the listing is within its bound. */
    method FindJobPublications() returns (r: Option<map<nat, nat>>)
      requires Below(issues, nextNumber)
      modifies this
      ensures calm == old(calm) && nextNumber >= old(nextNumber) && Below(issues, nextNumber)
      ensures Grew(scope, old(issues), issues)
      ensures r.Some? ==> Witnessed(scope, r.value, issues)
      ensures r.Some? ==> AllNoted(scope, r.value, old(issues))
      ensures calm ==> issues == old(issues) && nextNumber == old(nextNumber)
      ensures calm && |old(issues)| < PAGE_SIZE * MAX_PAGES ==> r.Some?
    {
      ghost var first := issues;
      var covered: map<nat, nat> := map[];
      var page := 1;
      while page <= MAX_PAGES
        invariant 1 <= page <= MAX_PAGES + 1
        invariant calm == old(calm) && nextNumber >= old(nextNumber) && Below(issues, nextNumber)
        invariant calm ==> issues == first && nextNumber == old(nextNumber) && PAGE_SIZE * (page - 1) <= |issues|
        invariant NotedUpTo(scope, covered, first, issues, page)
      {
        var ok, last;
        ok, covered, last := NoteListing(first, covered, page);
        if !ok {
          return None;
        }
        if last {
          return Some(covered);
        }
        page := page + 1;
      }
      return None;
    }

    /** List one page and note what its issues cover. */
    method NoteListing(ghost first: seq<Issue>, covered: map<nat, nat>, page: nat) returns (ok: bool, next: map<nat, nat>, last: bool)
      requires 1 <= page && Below(issues, nextNumber) && NotedUpTo(scope, covered, first, issues, page)
      modifies this
      ensures calm == old(calm) && nextNumber >= old(nextNumber) && Below(issues, nextNumber)
      ensures calm ==> ok && issues == old(issues) && nextNumber == old(nextNumber)
      ensures Grew(scope, first, issues)
      ensures ok ==> NotedUpTo(scope, next, first, issues, page + 1)
      ensures ok && last ==> AllNoted(scope, next, first)
      ensures ok && !last ==> PAGE_SIZE * page <= |issues|
    {
      ghost var before := issues;
      var batch := ListPage(page);
      GrewTransitive(scope, first, before, issues);
      GrewWitnessed(scope, covered, before, issues);
      if batch.None? {
        return false, covered, false;
      }
      next := NotePage(covered, batch.value, page);
      SeenNext(scope, covered, next, first, issues, page, |before| - |first|);
      return true, next, |batch.value| < PAGE_SIZE;
    }

    method NotePage(covered: map<nat, nat>, batch: seq<Issue>, page: nat) returns (next: map<nat, nat>)
      requires 1 <= page && batch == PageOf(issues, page) && Witnessed(scope, covered, issues)
      ensures Witnessed(scope, next, issues)
      ensures AllNoted(scope, next, batch) && Improves(covered, next)
    {
      next := covered;
      for n := 0 to |batch|
        invariant Witnessed(scope, next, issues)
        invariant AllNoted(scope, next, batch[..n]) && Improves(covered, next)
      {
        NoteNext(scope, covered, next, issues, batch, page, n);
        next := Note(scope, next, batch[n]);
      }
      assert batch[..|batch|] == batch;
    }

    /** `find_published` for one job marker: what it finds is there, and what it does not
        find was not there when the call began. */
    method FindPublished(job: nat) returns (r: Lookup)
      requires PositiveId(job) && Below(issues, nextNumber)
      modifies this
      ensures calm == old(calm) && nextNumber >= old(nextNumber) && Below(issues, nextNumber)
      ensures Grew(scope, old(issues), issues)
      ensures r.Found? ==> NumberedBy(scope, issues, job, r.number)
      ensures r.Missing? ==> forall issue :: issue in old(issues) ==> !Published(scope, job, issue)
    {
      var page := 1;
      while page <= MAX_PAGES
        invariant 1 <= page <= MAX_PAGES + 1 && Grew(scope, old(issues), issues)
        invariant calm == old(calm) && nextNumber >= old(nextNumber) && Below(issues, nextNumber)
        invariant UnpublishedUpTo(scope, job, old(issues), |issues| - |old(issues)|, PAGE_SIZE * (page - 1))
      {
        ghost var before := issues;
        var listed := ListPage(page);
        GrewTransitive(scope, old(issues), before, issues);
        if listed.None? {
          return Failed;
        }
        var batch := listed.value;
        for n := 0 to |batch|
          invariant forall k :: 0 <= k < n ==> !Published(scope, job, batch[k])
        {
          var issue := batch[n];
          if Published(scope, job, issue) {
            StartsWithMarker(scope.key, job, issue.body);
            CarriedIsCovered(scope, issue);
            assert issue == issues[PAGE_SIZE * (page - 1) + n];
            return Found(issue.number);
          }
        }
        UnpublishedNext(scope, job, old(issues), issues, page, |before| - |old(issues)|);
        if |batch| < PAGE_SIZE {
          return Missing;
        }
        page := page + 1;
      }
      return Failed;
    }

    /** `create_issue`: the upload succeeds, fails, or fails after taking effect. `made` holds
        the number of the issue this call stored, `lost` tells that its answer did not come. */
    method CreateIssue(job: nat, evidence: string) returns (r: Option<Subject>, ghost made: set<nat>, ghost lost: bool)
      requires PositiveId(job) && Valid() && !CarriedSomewhere(scope, issues, job)
      modifies this
      ensures calm == old(calm) && nextNumber >= old(nextNumber) && Valid()
      ensures Added(scope, old(issues), issues, job)
      ensures r.Some? ==> r.value.job == job && NumberedBy(scope, issues, job, r.value.number)
      ensures r.Some? ==> (r.value.published <==> made == {r.value.number} && !lost)
      ensures r.Some? && !r.value.published ==> lost
      ensures forall number :: number in made ==> old(nextNumber) <= number < nextNumber
      ensures calm && |Body(scope, job, evidence)| <= BODY_BOUND ==> r.Some?
      ensures calm ==> !lost
    {
      var body := Body(scope, job, evidence);
      made, lost := {}, false;
      if |body| > BODY_BOUND {
        AddedRefl(scope, issues, job);
        return None, {}, false;
      }
      Interfere();
      ghost var before := issues;
      AddedGrew(scope, old(issues), old(issues), before, job);
      var stored := Answers();
      var answered := Answers();
      if stored {
        var issue := Issue(nextNumber, body, false, true);
        AddedOne(scope, old(issues), before, issue, job, evidence);
        made := {nextNumber};
        issues, nextNumber := [issue] + issues, nextNumber + 1;
        if answered {
          return Some(Subject(job, true, issue.number)), made, false;
        }
      }
      lost := true;
      ghost var after := issues;
      var found := FindPublished(job);
      AddedGrew(scope, old(issues), after, issues, job);
      if found.Found? {
        return Some(Subject(job, false, found.number)), made, true;
      }
      return None, made, true;
    }

    /** One turn of the loop: the job is covered, deferred, or published now. */
    method PublishJob(ghost base: nat, covered: map<nat, nat>, order: seq<nat>, n: nat, evidence: nat -> string,
                      subjects: seq<Subject>, deferred: seq<nat>, exhausted: set<nat>, ghost made: set<nat>, ghost lost: set<nat>)
      returns (ok: bool, subjects': seq<Subject>, deferred': seq<nat>, ghost made': set<nat>, ghost lost': set<nat>)
      requires n < |order| && Ascending(order) && PositiveId(order[n]) && Valid() && base <= nextNumber
      requires PublishedUpTo(scope, issues, covered, order, n, subjects, deferred, exhausted)
      requires Told(base, covered, order, n, subjects, made, lost)
      modifies this
      ensures calm == old(calm) && nextNumber >= old(nextNumber) && Valid()
      ensures ok ==> PublishedUpTo(scope, issues, covered, order, n + 1, subjects', deferred', exhausted)
      ensures ok ==> Told(base, covered, order, n + 1, subjects', made', lost')
      ensures calm && |Body(scope, order[n], evidence(order[n]))| <= BODY_BOUND ==> ok
      ensures calm ==> lost' == lost
    {
      var job := order[n];
      ok, subjects', deferred', made', lost' := true, subjects, deferred, made, lost;
      AscendingUnique(order);
      if job in covered {
        var s := Subject(job, false, covered[job]);
        TurnReported(scope, issues, covered, order, n, subjects, deferred, exhausted, s);
        ToldMore(base, covered, order, n, subjects, made, lost, s, {}, false);
        subjects' := subjects + [s];
      } else if job in exhausted {
        TurnDeferred(scope, issues, covered, order, n, subjects, deferred, exhausted);
        ToldDeferred(base, covered, order, n, subjects, made, lost);
        deferred' := deferred + [job];
      } else {
        ghost var before := issues;
        NextIsNew(order, n);
        var created, number, gone := CreateIssue(job, evidence(job));
        if created.None? {
          return false, subjects, deferred, made, lost;
        }
        TurnCreated(scope, before, issues, covered, order, n, subjects, deferred, exhausted, created.value);
        ToldMore(base, covered, order, n, subjects, made, lost, created.value, number, gone);
        subjects' := subjects + [created.value];
        made', lost' := made + number, if gone then lost + {job} else lost;
      }
    }

    /** The early-mode loop of `publish` over the failed jobs in ascending order. A job is
        deferred if and only if it is exhausted and was not covered; it is reported as
        published if and only if this call stored its issue and got the answer; and when all
        is calm and within bounds, the call does not raise. */
    method PublishJobs(failed: seq<nat>, exhausted: set<nat>, evidence: nat -> string)
      returns (outcome: Outcome, ghost covered: map<nat, nat>, ghost made: set<nat>, ghost lost: set<nat>)
      requires failed != [] && Unique(failed) && forall id :: id in failed ==> PositiveId(id)
      requires Valid()
      modifies this
      ensures calm == old(calm) && Valid()
      ensures outcome.Finished? ==> Reports(scope, issues, outcome.subjects, failed, [])
      ensures outcome.Partial? ==> Reports(scope, issues, outcome.subjects, failed, outcome.deferred) && outcome.deferred != []
      ensures !outcome.Pending?
      ensures !outcome.Raised? ==> AllNoted(scope, covered, old(issues)) && Witnessed(scope, covered, issues)
      ensures !outcome.Raised? ==> AscendingSubjects(outcome.subjects) && forall number :: number in made ==> old(nextNumber) <= number
      ensures !outcome.Raised? ==> forall s :: s in outcome.subjects ==>
                (s.published <==> s.number in made && s.job !in lost) && (s.published <==> s.job !in covered && s.job !in lost)
      ensures !outcome.Raised? ==> forall id :: id in failed ==> (id in DeferredOf(outcome) <==> id in exhausted && id !in covered)
      ensures calm && !outcome.Raised? ==> lost == {} && forall id :: id in covered <==> CoveredSomewhere(scope, old(issues), id)
      ensures calm && |old(issues)| < PAGE_SIZE * MAX_PAGES && AllBounded(scope, failed, evidence) ==> !outcome.Raised?
    {
      covered, made, lost := map[], {}, {};
      var listed := FindJobPublications();
      GrewKeeps(scope, old(issues), issues);
      if listed.None? {
        return Raised, covered, made, lost;
      }
      covered := listed.value;
      UncoveredIsNew(scope, old(issues), issues, covered);
      if calm { CoveredExactly(scope, issues, covered); }
      var order := SortIds(failed);
      SortIdsSorts(failed);
      var subjects: seq<Subject>, deferred: seq<nat> := [], [];
      ghost var base := nextNumber;
      WitnessedBelow(scope, covered, issues, base);
      for n := 0 to |order|
        invariant calm == old(calm) && Valid() && base <= nextNumber
        invariant PublishedUpTo(scope, issues, covered, order, n, subjects, deferred, exhausted)
        invariant Told(base, covered, order, n, subjects, made, lost)
        invariant calm ==> lost == {}
      {
        var ok;
        assert order[n] in order;
        ok, subjects, deferred, made, lost :=
          PublishJob(base, listed.value, order, n, evidence, subjects, deferred, exhausted, made, lost);
        if !ok {
          return Raised, covered, made, lost;
        }
      }
      assert order[..|order|] == order;
      ReportsOrder(scope, issues, subjects, order, failed, deferred);
      PublishedIff(base, covered, order, subjects, made, lost);
      if deferred != [] {
        return Partial(subjects, deferred), covered, made, lost;
      }
      return Finished(subjects), covered, made, lost;
    }
  }

  /** The listing before page `page` has been noted, for all that was there at first. */
  ghost predicate NotedUpTo(sc: Scope, covered: map<nat, nat>, first: seq<Issue>, issues: seq<Issue>, page: int) {
    && Grew(sc, first, issues) && Witnessed(sc, covered, issues)
    && SeenUpTo(sc, covered, first, |issues| - |first|, PAGE_SIZE * (page - 1))
  }

  /** Every issue has a number handed out before. */
  ghost predicate Below(issues: seq<Issue>, next: nat) {
    forall i :: 0 <= i < |issues| ==> issues[i].number < next
  }

  /** The body of an issue: the marker line, then the evidence. */
  function Body(sc: Scope, job: nat, evidence: string): string {
    JobMarker(sc.key, job) + "\n" + evidence
  }

  function DeferredOf(outcome: Outcome): seq<nat> {
    if outcome.Partial? then outcome.deferred else []
  }

  ghost predicate AscendingSubjects(subjects: seq<Subject>) {
    forall i, j :: 0 <= i < j < |subjects| ==> subjects[i].job < subjects[j].job
  }

  // ---------------------------------------------------------------- one creation

  /** Others' issues came in, and at most one issue of ours, for this job. */
  ghost predicate Added(sc: Scope, before: seq<Issue>, after: seq<Issue>, job: nat) {
    && AtMostOnce(sc, after)
    && (forall other: nat :: CarriedSomewhere(sc, after, other) ==> other == job || CarriedSomewhere(sc, before, other))
    && (forall other: nat, number: nat :: NumberedBy(sc, before, other, number) ==> NumberedBy(sc, after, other, number))
  }

  lemma GrewNumbered(sc: Scope, before: seq<Issue>, after: seq<Issue>)
    requires Grew(sc, before, after)
    ensures forall job: nat, number: nat :: NumberedBy(sc, before, job, number) ==> NumberedBy(sc, after, job, number)
  {
    forall job: nat, number: nat | NumberedBy(sc, before, job, number) ensures NumberedBy(sc, after, job, number) {
      var i :| 0 <= i < |before| && job in Covers(sc, before[i]) && before[i].number == number;
      assert after[|after| - |before|..][i] == after[|after| - |before| + i];
    }
  }

  lemma AddedRefl(sc: Scope, issues: seq<Issue>, job: nat)
    requires AtMostOnce(sc, issues)
    ensures Added(sc, issues, issues, job)
  {
  }

  lemma AddedGrew(sc: Scope, start: seq<Issue>, before: seq<Issue>, after: seq<Issue>, job: nat)
    requires Added(sc, start, before, job) && Grew(sc, before, after)
    ensures Added(sc, start, after, job)
  {
    GrewKeeps(sc, before, after);
    GrewNumbered(sc, before, after);
  }

  lemma AddedOne(sc: Scope, start: seq<Issue>, before: seq<Issue>, issue: Issue, job: nat, evidence: string)
    requires Added(sc, start, before, job) && PositiveId(job) && !CarriedSomewhere(sc, before, job)
    requires issue.body == JobMarker(sc.key, job) + "\n" + evidence && !issue.pull && issue.trusted
    ensures Added(sc, start, [issue] + before, job) && NumberedBy(sc, [issue] + before, job, issue.number)
  {
    MarkerRoundTrip(sc.key, job, evidence);
    CarriedIsCovered(sc, issue);
    assert Carried(sc, issue) == Some(job);
    PrependCarrier(sc, start, before, issue, job);
  }

  /** One more issue, the only one to carry its job. */
  lemma PrependCarrier(sc: Scope, start: seq<Issue>, before: seq<Issue>, issue: Issue, job: nat)
    requires Added(sc, start, before, job) && !CarriedSomewhere(sc, before, job)
    requires Carried(sc, issue) == Some(job) && job in Covers(sc, issue)
    ensures Added(sc, start, [issue] + before, job) && NumberedBy(sc, [issue] + before, job, issue.number)
  {
    var after := [issue] + before;
    PrependOnce(sc, before, issue, job);
    forall other: nat | CarriedSomewhere(sc, after, other) ensures other == job || CarriedSomewhere(sc, start, other) {
      var i :| 0 <= i < |after| && Carried(sc, after[i]) == Some(other);
      assert i > 0 ==> Carried(sc, before[i - 1]) == Some(other);
    }
    assert after[0] == issue;
    PrependNumbered(sc, before, issue);
  }

  lemma PrependOnce(sc: Scope, before: seq<Issue>, issue: Issue, job: nat)
    requires AtMostOnce(sc, before) && !CarriedSomewhere(sc, before, job) && Carried(sc, issue) == Some(job)
    ensures AtMostOnce(sc, [issue] + before)
  {
  }

  lemma PrependNumbered(sc: Scope, before: seq<Issue>, issue: Issue)
    ensures forall job: nat, number: nat :: NumberedBy(sc, before, job, number) ==> NumberedBy(sc, [issue] + before, job, number)
  {
    var after := [issue] + before;
    forall job: nat, number: nat | NumberedBy(sc, before, job, number) ensures NumberedBy(sc, after, job, number) {
      var i :| 0 <= i < |before| && job in Covers(sc, before[i]) && before[i].number == number;
      assert after[i + 1] == before[i];
    }
  }

  /** Nothing is forgotten, and numbers only get smaller. */
  ghost predicate Improves(earlier: map<nat, nat>, later: map<nat, nat>) {
    forall job :: job in earlier ==> job in later && later[job] <= earlier[job]
  }

  ghost predicate AllNoted(sc: Scope, covered: map<nat, nat>, issues: seq<Issue>) {
    forall i :: 0 <= i < |issues| ==> Noted(sc, covered, issues[i])
  }

  lemma NoteNext(sc: Scope, start: map<nat, nat>, covered: map<nat, nat>, issues: seq<Issue>, batch: seq<Issue>, page: nat, n: nat)
    requires 1 <= page && batch == PageOf(issues, page) && n < |batch| && Witnessed(sc, covered, issues)
    requires AllNoted(sc, covered, batch[..n]) && Improves(start, covered)
    ensures var next := Note(sc, covered, batch[n]);
            Witnessed(sc, next, issues) && AllNoted(sc, next, batch[..n + 1]) && Improves(start, next)
  {
    var next, longer := Note(sc, covered, batch[n]), batch[..n + 1];
    NoteKeeps(sc, covered, issues, batch, page, n);
    forall i | 0 <= i < n + 1 ensures Noted(sc, next, longer[i]) {
      if i < n { assert Noted(sc, covered, batch[..n][i]); }
    }
    forall job | job in start ensures job in next && next[job] <= start[job] {
      assert job in covered;
    }
  }

  lemma NoteKeeps(sc: Scope, covered: map<nat, nat>, issues: seq<Issue>, batch: seq<Issue>, page: nat, n: nat)
    requires 1 <= page && batch == PageOf(issues, page) && n < |batch| && Witnessed(sc, covered, issues)
    ensures Witnessed(sc, Note(sc, covered, batch[n]), issues)
    ensures Noted(sc, Note(sc, covered, batch[n]), batch[n]) && Improves(covered, Note(sc, covered, batch[n]))
  {
    PagePosition(issues, page, n);
    NoteWitnessed(sc, covered, issues, PAGE_SIZE * (page - 1) + n);
    NoteImproves(sc, covered, batch[n]);
  }

  lemma PagePosition(issues: seq<Issue>, page: nat, n: nat)
    requires 1 <= page && n < |PageOf(issues, page)|
    ensures PAGE_SIZE * (page - 1) + n < |issues| && PageOf(issues, page)[n] == issues[PAGE_SIZE * (page - 1) + n]
  {
  }

  lemma NoteImproves(sc: Scope, covered: map<nat, nat>, issue: Issue)
    ensures Noted(sc, Note(sc, covered, issue), issue) && Improves(covered, Note(sc, covered, issue))
  {
  }

  lemma NoteWitnessed(sc: Scope, covered: map<nat, nat>, issues: seq<Issue>, i: nat)
    requires i < |issues| && Witnessed(sc, covered, issues)
    ensures Witnessed(sc, Note(sc, covered, issues[i]), issues)
  {
    var next := Note(sc, covered, issues[i]);
    forall job | job in next ensures NumberedBy(sc, issues, job, next[job]) {
      if job in covered { assert NumberedBy(sc, issues, job, covered[job]); }
    }
  }

  /** Old issues now at positions below `position` have been noted. */
  ghost predicate SeenUpTo(sc: Scope, covered: map<nat, nat>, first: seq<Issue>, shift: int, position: int) {
    forall i :: 0 <= i < |first| && shift + i < position ==> Noted(sc, covered, first[i])
  }

  /** Arrivals only push old issues to later pages, so no old issue is ever skipped. */
  lemma SeenNext(sc: Scope, earlier: map<nat, nat>, covered: map<nat, nat>, first: seq<Issue>, issues: seq<Issue>, page: nat, shift: int)
    requires 1 <= page && Grew(sc, first, issues) && shift <= |issues| - |first|
    requires SeenUpTo(sc, earlier, first, shift, PAGE_SIZE * (page - 1))
    requires AllNoted(sc, covered, PageOf(issues, page))
    requires Improves(earlier, covered)
    ensures SeenUpTo(sc, covered, first, |issues| - |first|, PAGE_SIZE * page)
    ensures |PageOf(issues, page)| < PAGE_SIZE ==> AllNoted(sc, covered, first)
  {
    var d := |issues| - |first|;
    forall i | 0 <= i < |first| && d + i < PAGE_SIZE * page ensures Noted(sc, covered, first[i]) {
      if d + i < PAGE_SIZE * (page - 1) {
        assert Noted(sc, earlier, first[i]);
      } else {
        assert first[i] == issues[d..][i] == issues[d + i];
        assert PageOf(issues, page)[d + i - PAGE_SIZE * (page - 1)] == issues[d + i];
      }
    }
  }

  /** The issue is a publication of the job: trusted, not a pull request, marker first. */
  predicate Published(sc: Scope, job: nat, issue: Issue) {
    !issue.pull && issue.trusted && JobMarker(sc.key, job) + "\n" <= issue.body
  }

  ghost predicate UnpublishedUpTo(sc: Scope, job: nat, first: seq<Issue>, shift: int, position: int) {
    forall i :: 0 <= i < |first| && shift + i < position ==> !Published(sc, job, first[i])
  }

  lemma UnpublishedNext(sc: Scope, job: nat, first: seq<Issue>, issues: seq<Issue>, page: nat, shift: int)
    requires 1 <= page && Grew(sc, first, issues) && shift <= |issues| - |first|
    requires UnpublishedUpTo(sc, job, first, shift, PAGE_SIZE * (page - 1))
    requires forall k :: 0 <= k < |PageOf(issues, page)| ==> !Published(sc, job, PageOf(issues, page)[k])
    ensures UnpublishedUpTo(sc, job, first, |issues| - |first|, PAGE_SIZE * page)
    ensures |PageOf(issues, page)| < PAGE_SIZE ==> forall issue :: issue in first ==> !Published(sc, job, issue)
  {
    var d := |issues| - |first|;
    forall i | 0 <= i < |first| && d + i < PAGE_SIZE * page ensures !Published(sc, job, first[i]) {
      if d + i >= PAGE_SIZE * (page - 1) {
        assert first[i] == issues[d..][i] == issues[d + i];
        assert PageOf(issues, page)[d + i - PAGE_SIZE * (page - 1)] == issues[d + i];
      }
    }
  }

  // ---------------------------------------------------------------- the result of a call

  function Set(ids: seq<nat>): set<nat> { set id | id in ids }

  function SubjectJobs(subjects: seq<Subject>): set<nat> { set s | s in subjects :: s.job }

  /** The subjects and the deferred ids split the jobs, and each subject names an issue
      that covers its job. */
  ghost predicate Reports(sc: Scope, issues: seq<Issue>, subjects: seq<Subject>, jobs: seq<nat>, deferred: seq<nat>) {
    && (forall s :: s in subjects ==> NumberedBy(sc, issues, s.job, s.number))
    && SubjectJobs(subjects) + Set(deferred) == Set(jobs) && SubjectJobs(subjects) !! Set(deferred)
    && |subjects| + |deferred| == |jobs|
  }

  /** The state of the publishing loop after the first `n` jobs: no marker was published
      twice, only covered jobs and those done carry one, and the report is right so far. */
  ghost predicate PublishedUpTo(sc: Scope, issues: seq<Issue>, covered: map<nat, nat>, order: seq<nat>, n: nat,
                                subjects: seq<Subject>, deferred: seq<nat>, exhausted: set<nat>)
  {
    && n <= |order| && AtMostOnce(sc, issues)
    && (forall job: nat :: CarriedSomewhere(sc, issues, job) ==> job in covered || job in order[..n])
    && Witnessed(sc, covered, issues)
    && Reports(sc, issues, subjects, order[..n], deferred)
    && (forall id :: id in order[..n] ==> (id in deferred <==> id in exhausted && id !in covered))
  }

  /** What the subjects say of this call, in ascending order of jobs: each is published if
      and only if it was not covered and the answer came, and then its issue was made here. */
  ghost predicate Told(base: nat, covered: map<nat, nat>, order: seq<nat>, n: nat, subjects: seq<Subject>, made: set<nat>, lost: set<nat>) {
    && n <= |order| && AscendingSubjects(subjects) && lost <= Set(order[..n])
    && (forall s :: s in subjects ==> s.job in order[..n] && Spoken(covered, s, made, lost))
    && (forall number :: number in made ==> base <= number)
    && (forall job :: job in covered ==> covered[job] < base)
  }

  predicate Spoken(covered: map<nat, nat>, s: Subject, made: set<nat>, lost: set<nat>) {
    && (s.published <==> s.job !in covered && s.job !in lost)
    && (s.published ==> s.number in made)
    && (s.job in covered ==> s.number == covered[s.job])
  }

  lemma PublishedIff(base: nat, covered: map<nat, nat>, order: seq<nat>, subjects: seq<Subject>, made: set<nat>, lost: set<nat>)
    requires Told(base, covered, order, |order|, subjects, made, lost)
    ensures forall s :: s in subjects ==>
              (s.published <==> s.number in made && s.job !in lost) && (s.published <==> s.job !in covered && s.job !in lost)
  {
    forall s | s in subjects ensures s.published <==> s.number in made && s.job !in lost {
      assert Spoken(covered, s, made, lost);
    }
  }

  ghost predicate AllBounded(sc: Scope, failed: seq<nat>, evidence: nat -> string) {
    forall id :: id in failed ==> |Body(sc, id, evidence(id))| <= BODY_BOUND
  }

  lemma AscendingUnique(ids: seq<nat>)
    requires Ascending(ids)
    ensures Unique(ids)
  {
  }

  /** One more subject. */
  lemma ToldMore(base: nat, covered: map<nat, nat>, order: seq<nat>, n: nat, subjects: seq<Subject>, made: set<nat>, lost: set<nat>,
                 s: Subject, number: set<nat>, gone: bool)
    requires n < |order| && Ascending(order) && Told(base, covered, order, n, subjects, made, lost) && s.job == order[n]
    requires forall x :: x in number ==> base <= x
    requires s.published <==> s.job !in covered && !gone
    requires s.published ==> s.number in number
    requires s.job in covered ==> s.number == covered[s.job]
    ensures Told(base, covered, order, n + 1, subjects + [s], made + number, if gone then lost + {s.job} else lost)
  {
    var more, lost' := subjects + [s], if gone then lost + {s.job} else lost;
    AscendingUnique(order);
    NextIsNew(order, n);
    assert order[..n + 1] == order[..n] + [s.job];
    forall i, j | 0 <= i < j < |more| ensures more[i].job < more[j].job {
      assert more[i] in subjects;
      assert more[i].job in order[..n];
    }
    forall x | x in more ensures x.job in order[..n + 1] && Spoken(covered, x, made + number, lost') {
      if x in subjects {
        assert Spoken(covered, x, made, lost) && x.job in order[..n];
        assert x.job != s.job;
      }
    }
  }

  lemma ToldDeferred(base: nat, covered: map<nat, nat>, order: seq<nat>, n: nat, subjects: seq<Subject>, made: set<nat>, lost: set<nat>)
    requires n < |order| && Told(base, covered, order, n, subjects, made, lost)
    ensures Told(base, covered, order, n + 1, subjects, made, lost)
  {
    assert order[..n + 1] == order[..n] + [order[n]];
  }

  lemma TurnReported(sc: Scope, issues: seq<Issue>, covered: map<nat, nat>, order: seq<nat>, n: nat,
                     subjects: seq<Subject>, deferred: seq<nat>, exhausted: set<nat>, s: Subject)
    requires n < |order| && Unique(order) && PublishedUpTo(sc, issues, covered, order, n, subjects, deferred, exhausted)
    requires s.job == order[n] && NumberedBy(sc, issues, s.job, s.number) && (s.job in covered || s.job !in exhausted)
    ensures PublishedUpTo(sc, issues, covered, order, n + 1, subjects + [s], deferred, exhausted)
  {
    ReportsAdd(sc, issues, subjects, order, deferred, n, s);
    DeferralsStand(covered, order, n, deferred, exhausted);
  }

  /** A reported job is not deferred. */
  lemma DeferralsStand(covered: map<nat, nat>, order: seq<nat>, n: nat, deferred: seq<nat>, exhausted: set<nat>)
    requires n < |order| && Unique(order) && (order[n] in covered || order[n] !in exhausted) && Set(deferred) <= Set(order[..n])
    requires forall id :: id in order[..n] ==> (id in deferred <==> id in exhausted && id !in covered)
    ensures forall id :: id in order[..n + 1] ==> (id in deferred <==> id in exhausted && id !in covered)
    ensures forall id :: id in order[..n] ==> id in order[..n + 1]
  {
    NextIsNew(order, n);
    assert order[..n + 1] == order[..n] + [order[n]];
    assert forall id :: id in deferred ==> id in Set(deferred);
  }

  lemma TurnDeferred(sc: Scope, issues: seq<Issue>, covered: map<nat, nat>, order: seq<nat>, n: nat,
                     subjects: seq<Subject>, deferred: seq<nat>, exhausted: set<nat>)
    requires n < |order| && Unique(order) && PublishedUpTo(sc, issues, covered, order, n, subjects, deferred, exhausted)
    requires order[n] !in covered && order[n] in exhausted
    ensures PublishedUpTo(sc, issues, covered, order, n + 1, subjects, deferred + [order[n]], exhausted)
  {
    NextIsNew(order, n);
    assert order[..n + 1] == order[..n] + [order[n]];
    ReportsDefer(sc, issues, subjects, order, deferred, n);
  }

  lemma TurnCreated(sc: Scope, before: seq<Issue>, issues: seq<Issue>, covered: map<nat, nat>, order: seq<nat>, n: nat,
                    subjects: seq<Subject>, deferred: seq<nat>, exhausted: set<nat>, s: Subject)
    requires n < |order| && Unique(order) && PublishedUpTo(sc, before, covered, order, n, subjects, deferred, exhausted)
    requires order[n] !in covered && order[n] !in exhausted && Added(sc, before, issues, order[n])
    requires s.job == order[n] && NumberedBy(sc, issues, s.job, s.number)
    ensures PublishedUpTo(sc, issues, covered, order, n + 1, subjects + [s], deferred, exhausted)
  {
    assert order[..n + 1] == order[..n] + [s.job];
    AddedKeeps(sc, before, issues, s.job, covered, subjects, order[..n], deferred);
    ReportsAdd(sc, issues, subjects, order, deferred, n, s);
    DeferralsStand(covered, order, n, deferred, exhausted);
  }

  lemma WitnessedBelow(sc: Scope, covered: map<nat, nat>, issues: seq<Issue>, next: nat)
    requires Witnessed(sc, covered, issues) && Below(issues, next)
    ensures forall job :: job in covered ==> covered[job] < next
  {
    forall job | job in covered ensures covered[job] < next {
      assert NumberedBy(sc, issues, job, covered[job]);
    }
  }

  lemma CoveredExactly(sc: Scope, issues: seq<Issue>, covered: map<nat, nat>)
    requires AllNoted(sc, covered, issues) && Witnessed(sc, covered, issues)
    ensures forall id :: id in covered <==> CoveredSomewhere(sc, issues, id)
  {
    forall id: nat ensures id in covered <==> CoveredSomewhere(sc, issues, id) {
      if id in covered {
        assert NumberedBy(sc, issues, id, covered[id]);
      }
      if CoveredSomewhere(sc, issues, id) {
        var i :| 0 <= i < |issues| && id in Covers(sc, issues[i]);
        assert Noted(sc, covered, issues[i]);
      }
    }
  }

  lemma NextIsNew(order: seq<nat>, n: nat)
    requires Unique(order) && n < |order|
    ensures order[n] !in Set(order[..n]) && Set(order[..n + 1]) == Set(order[..n]) + {order[n]}
  {
    assert order[..n + 1] == order[..n] + [order[n]];
  }

  lemma ReportsAdd(sc: Scope, issues: seq<Issue>, subjects: seq<Subject>, order: seq<nat>, deferred: seq<nat>, n: nat, s: Subject)
    requires n < |order| && Unique(order) && Reports(sc, issues, subjects, order[..n], deferred)
    requires s.job == order[n] && NumberedBy(sc, issues, s.job, s.number)
    ensures Reports(sc, issues, subjects + [s], order[..n + 1], deferred)
  {
    NextIsNew(order, n);
    assert SubjectJobs(subjects + [s]) == SubjectJobs(subjects) + {s.job};
  }

  lemma ReportsDefer(sc: Scope, issues: seq<Issue>, subjects: seq<Subject>, order: seq<nat>, deferred: seq<nat>, n: nat)
    requires n < |order| && Unique(order) && Reports(sc, issues, subjects, order[..n], deferred)
    ensures Reports(sc, issues, subjects, order[..n + 1], deferred + [order[n]])
  {
    NextIsNew(order, n);
    assert Set(deferred + [order[n]]) == Set(deferred) + {order[n]};
  }

  lemma ReportsOrder(sc: Scope, issues: seq<Issue>, subjects: seq<Subject>, order: seq<nat>, failed: seq<nat>, deferred: seq<nat>)
    requires Reports(sc, issues, subjects, order, deferred) && |order| == |failed| && forall x :: x in order <==> x in failed
    ensures Reports(sc, issues, subjects, failed, deferred)
  {
    assert Set(order) == Set(failed);
  }

  lemma AddedKeeps(sc: Scope, before: seq<Issue>, after: seq<Issue>, job: nat, covered: map<nat, nat>,
                   subjects: seq<Subject>, jobs: seq<nat>, deferred: seq<nat>)
    requires Added(sc, before, after, job)
    ensures Witnessed(sc, covered, before) ==> Witnessed(sc, covered, after)
    ensures Reports(sc, before, subjects, jobs, deferred) ==> Reports(sc, after, subjects, jobs, deferred)
  {
  }

  /** After a complete listing, a job outside the map is carried by no issue. */
  lemma UncoveredIsNew(sc: Scope, before: seq<Issue>, after: seq<Issue>, covered: map<nat, nat>)
    requires Grew(sc, before, after) && AllNoted(sc, covered, before)
    ensures forall job: nat :: CarriedSomewhere(sc, after, job) ==> job in covered
  {
    GrewKeeps(sc, before, after);
    forall job: nat | CarriedSomewhere(sc, after, job) ensures job in covered {
      assert CarriedSomewhere(sc, before, job);
      var i :| 0 <= i < |before| && Carried(sc, before[i]) == Some(job);
      CarriedIsCovered(sc, before[i]);
      assert Noted(sc, covered, before[i]);
    }
  }

  // ---------------------------------------------------------------- sorting

  function InsertId(x: nat, sorted: seq<nat>): seq<nat> {
    if sorted == [] || x <= sorted[0] then [x] + sorted else [sorted[0]] + InsertId(x, sorted[1..])
  }

  function SortIds(ids: seq<nat>): seq<nat> {
    if ids == [] then [] else InsertId(ids[0], SortIds(ids[1..]))
  }

  ghost predicate Ascending(ids: seq<nat>) {
    forall i, j :: 0 <= i < j < |ids| ==> ids[i] < ids[j]
  }

  lemma {:induction false} InsertIdHolds(x: nat, sorted: seq<nat>)
    ensures |InsertId(x, sorted)| == |sorted| + 1
    ensures forall y :: y in InsertId(x, sorted) <==> y == x || y in sorted
  {
    if sorted != [] && x > sorted[0] {
      InsertIdHolds(x, sorted[1..]);
      assert sorted == [sorted[0]] + sorted[1..];
    }
  }

  lemma AscendingCons(x: nat, s: seq<nat>)
    requires Ascending(s) && forall y :: y in s ==> x < y
    ensures Ascending([x] + s)
  {
    var t := [x] + s;
    forall i, j | 0 <= i < j < |t| ensures t[i] < t[j] {
      assert t[j] == s[j - 1] && s[j - 1] in s;
    }
  }

  lemma {:induction false} InsertIdSorts(x: nat, sorted: seq<nat>)
    requires Ascending(sorted) && x !in sorted
    ensures Ascending(InsertId(x, sorted)) && |InsertId(x, sorted)| == |sorted| + 1
    ensures forall y :: y in InsertId(x, sorted) <==> y == x || y in sorted
  {
    InsertIdHolds(x, sorted);
    if sorted == [] || x < sorted[0] {
      AscendingCons(x, sorted);
    } else {
      InsertIdSorts(x, sorted[1..]);
      AscendingCons(sorted[0], InsertId(x, sorted[1..]));
    }
  }

  lemma {:induction false} SortIdsSorts(ids: seq<nat>)
    requires Unique(ids)
    ensures Ascending(SortIds(ids)) && Unique(SortIds(ids)) && |SortIds(ids)| == |ids|
    ensures forall y :: y in SortIds(ids) <==> y in ids
  {
    if ids != [] {
      SortIdsSorts(ids[1..]);
      InsertIdSorts(ids[0], SortIds(ids[1..]));
      assert ids == [ids[0]] + ids[1..];
    }
  }

  // ---------------------------------------------------------------- whole calls and runs of calls

  /** One early-mode call of `publish`: read the jobs of the attempt, select the failed
      ones, publish those not yet covered. It raises only on a listing that is no inventory,
      an unfinished failure, or a request that fails; never when all is calm and bounded. */
  method Publish(repo: Repository, answers: seq<JobsPage>, sha: string, active: bool, exhausted: set<nat>,
                 evidence: nat -> string, calm: bool)
    returns (outcome: Outcome, ghost failed: seq<nat>)
    requires repo.Valid()
    modifies repo
    ensures repo.Valid()
    ensures outcome.Finished? ==> Reports(repo.scope, repo.issues, outcome.subjects, failed, [])
    ensures outcome.Partial? ==> Reports(repo.scope, repo.issues, outcome.subjects, failed, outcome.deferred)
    ensures outcome.Pending? <==> !outcome.Raised? && failed == []
    ensures !outcome.Raised? ==> exists used, jobs ::
              used <= answers && Inventory(jobs, used, repo.scope.key.run, repo.scope.key.attempt, sha)
              && FailedJobs(jobs, active) == Some(failed)
    ensures calm && !outcome.Raised? && !outcome.Pending? ==>
              forall s :: s in outcome.subjects ==> (s.published <==> !CoveredSomewhere(repo.scope, old(repo.issues), s.job))
    ensures calm && !outcome.Raised? && !outcome.Pending? ==>
              forall id :: id in failed ==> (id in DeferredOf(outcome) <==> id in exhausted && !CoveredSomewhere(repo.scope, old(repo.issues), id))
    ensures calm && |old(repo.issues)| < PAGE_SIZE * MAX_PAGES && EveryBody(repo.scope, answers, evidence)
            && !NoneComplete(answers, |answers|, repo.scope.key.run, repo.scope.key.attempt, sha) && (active ==> FailuresDone(answers))
            ==> !outcome.Raised?
  {
    failed := [];
    repo.calm := calm;
    var jobs, used := ReadJobs(answers, repo.scope.key.run, repo.scope.key.attempt, sha);
    if jobs.None? {
      return Raised, [];
    }
    if active && FailuresDone(answers) { NoUnfinishedFailure(answers, used, jobs.value); }
    var selected := FailedJobs(jobs.value, active);
    if selected.None? {
      return Raised, [];
    }
    FailedUnique(jobs.value, active);
    if selected.value == [] {
      return Pending, [];
    }
    failed := selected.value;
    FailedArePositive(jobs.value, active);
    if EveryBody(repo.scope, answers, evidence) { FailedAreBounded(repo.scope, answers, used, jobs.value, active, evidence); }
    ghost var covered, made, lost;
    outcome, covered, made, lost := repo.PublishJobs(selected.value, exhausted, evidence);
  }

  /** The issue of no listed job would be too long. */
  ghost predicate EveryBody(sc: Scope, answers: seq<JobsPage>, evidence: nat -> string) {
    forall p :: 0 <= p < |answers| ==> PageBodies(sc, answers[p], evidence)
  }

  ghost predicate PageBodies(sc: Scope, page: JobsPage, evidence: nat -> string) {
    forall job :: job in page.jobs ==> |Body(sc, job.id, evidence(job.id))| <= BODY_BOUND
  }

  lemma FailedAreBounded(sc: Scope, answers: seq<JobsPage>, used: seq<JobsPage>, jobs: seq<Job>, active: bool, evidence: nat -> string)
    requires used <= answers && jobs == Concat(used) && EveryBody(sc, answers, evidence) && FailedJobs(jobs, active).Some?
    ensures AllBounded(sc, FailedJobs(jobs, active).value, evidence)
  {
    JobsComeFromPages(used);
    forall id | id in FailedJobs(jobs, active).value ensures |Body(sc, id, evidence(id))| <= BODY_BOUND {
      var i :| 0 <= i < |jobs| && jobs[i].id == id && jobs[i].conclusion in FAILURES;
      assert jobs[i] in Concat(used);
      var p :| 0 <= p < |used| && jobs[i] in used[p].jobs;
      assert PageBodies(sc, answers[p], evidence) && used[p] == answers[p];
    }
  }

  /** Every job that failed is completed. */
  ghost predicate FailuresDone(answers: seq<JobsPage>) {
    forall p :: 0 <= p < |answers| ==> PageDone(answers[p])
  }

  ghost predicate PageDone(page: JobsPage) {
    forall job :: job in page.jobs ==> job.conclusion !in FAILURES || job.completed
  }

  lemma NoUnfinishedFailure(answers: seq<JobsPage>, used: seq<JobsPage>, jobs: seq<Job>)
    requires used <= answers && FailuresDone(answers) && jobs == Concat(used)
    ensures forall i :: 0 <= i < |jobs| ==> jobs[i].conclusion !in FAILURES || jobs[i].completed
  {
    JobsComeFromPages(used);
    forall i | 0 <= i < |jobs| ensures jobs[i].conclusion !in FAILURES || jobs[i].completed {
      assert jobs[i] in Concat(used);
      var p :| 0 <= p < |used| && jobs[i] in used[p].jobs;
      assert PageDone(answers[p]) && used[p] == answers[p];
    }
  }

  lemma {:induction false} JobsComeFromPages(pages: seq<JobsPage>)
    ensures forall job :: job in Concat(pages) ==> exists p :: 0 <= p < |pages| && job in pages[p].jobs
  {
    if pages != [] {
      var front := pages[..|pages| - 1];
      JobsComeFromPages(front);
      forall job | job in Concat(pages) ensures exists p :: 0 <= p < |pages| && job in pages[p].jobs {
        if job in Concat(front) {
          var p :| 0 <= p < |front| && job in front[p].jobs;
          assert pages[p] == front[p];
        }
      }
    }
  }

  lemma FailedArePositive(jobs: seq<Job>, active: bool)
    requires FailedJobs(jobs, active).Some? && forall i :: 0 <= i < |jobs| ==> PositiveId(jobs[i].id)
    ensures forall id :: id in FailedJobs(jobs, active).value ==> PositiveId(id)
  {
    forall id | id in FailedJobs(jobs, active).value ensures PositiveId(id) {
      var j :| 0 <= j < |jobs| && jobs[j].id == id && jobs[j].conclusion in FAILURES;
    }
  }

  datatype Call = Call(answers: seq<JobsPage>, sha: string, active: bool, exhausted: set<nat>, evidence: nat -> string, calm: bool)

  /** Any serialized sequence of calls, each of which may raise at any point. */
  method PublishRepeatedly(repo: Repository, calls: seq<Call>) returns (outcomes: seq<Outcome>)
    requires repo.Valid()
    modifies repo
    ensures repo.Valid() && |outcomes| == |calls|
  {
    outcomes := [];
    for i := 0 to |calls|
      invariant repo.Valid() && |outcomes| == i
    {
      var c := calls[i];
      var outcome, _ := Publish(repo, c.answers, c.sha, c.active, c.exhausted, c.evidence, c.calm);
      outcomes := outcomes + [outcome];
    }
  }
}
