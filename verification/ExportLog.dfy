/** What the exporter publishes, told by the log of its steps alone: status and progress say
    what the steps of the runs before them did, and nothing else. */
module ExportLog {
  import opened Text
  import opened Spool
  import opened Export
  import opened ExportSafety

  // ---------------------------------------------------------------- reading the log

  /** The failure a step is, if it is one. */
  function FailureOf(s: Sys, a: Action): Code {
    match a
    case Cancel => Cancelled
    case Unreadable => BundleVerify
    case HeadFailed => RemoteHead
    case Head => if s.process.Busy? && s.process.at.Probe? && Collides(s.store, s.process.at.bundle) then RemoteCollision else NoFailure
    case PutFailed(_) => RemotePut
    case ConfirmFailed => RemoteConfirm
    case ConfirmHead => if s.process.Busy? && s.process.at.Confirm? && !IsHeld(s.store, s.process.at.bundle) then RemoteConfirm else NoFailure
    case RemoveFailed(_) => SourceRemove
    case _ => NoFailure
  }

  /** The store has exactly this bundle's bytes, digest and schema at its key. */
  predicate IsHeld(store: Store, b: Bundle) {
    b.key in store && store[b.key] == Object(|b.file.content|, Sha256(b.file.content), "1")
  }

  predicate Collides(store: Store, b: Bundle) {
    b.key in store && !IsHeld(store, b)
  }

  /** What the steps of the run under way amount to. */
  datatype RunLog = RunLog(
    now: int, scanned: nat, failures: seq<Code>, readBytes: nat, exported: nat, exportedBytes: nat, deleted: nat,
    rescan: Option<(nat, nat)>)

  function NoRun(): RunLog { RunLog(0, 0, [], 0, 0, 0, 0, None) }

  function Bytes(b: Bundle): nat { |b.file.content| }

  /** One more step of the run. A recorded bundle counts as exported when it is read, any
      other when it is removed. */
  ghost function Follow(r: RunLog, s: Sys, a: Action): RunLog
    requires Enabled(s, a)
  {
    var code := FailureOf(s, a);
    if a.Begin? then RunLog(a.now, |a.batch|, [], 0, 0, 0, 0, None)
    else if a.Read? then
      var b := ReadBundle(s.process.todo[0], s.spool[s.process.todo[0]]).value;
      if ProcessAfter(s, a).at.Unlink?
      then r.(readBytes := r.readBytes + Bytes(b), exported := r.exported + 1, exportedBytes := r.exportedBytes + Bytes(b))
      else r.(readBytes := r.readBytes + Bytes(b))
    else if a.Remove? then
      if s.process.at.counted then r.(deleted := r.deleted + 1)
      else r.(deleted := r.deleted + 1, exported := r.exported + 1, exportedBytes := r.exportedBytes + Bytes(s.process.at.bundle))
    else if a.Rescanned? then r.(rescan := Some((a.pending, a.bytes)))
    else if code != NoFailure then r.(failures := r.failures + [code])
    else r
  }

  /** The run ended well: nothing failed and the spool was empty when it was counted. */
  predicate EndedWell(r: RunLog) {
    r.failures == [] && r.rescan.Some? && r.rescan.value.0 == 0
  }

  function FirstOf(codes: seq<Code>): Code { if codes == [] then NoFailure else codes[0] }

  /** What has been published: the run under way, the status and the progress. */
  datatype View = View(run: RunLog, status: Status, progress: Progress)

  ghost function Watch(v: View, s: Sys, a: Action): View
    requires Enabled(s, a)
  {
    var r := Follow(v.run, s, a);
    match a
    case ListFailed(now, true) =>
      View(r, Status(Some(now), v.status.lastSuccessAt, SourceList, v.status.consecutiveFailures + 1, 0, 0, 0, 0, 0), v.progress)
    case RescanFailed(true) =>
      View(r, Status(Some(r.now), v.status.lastSuccessAt, SourceRescan, v.status.consecutiveFailures + 1,
                     0, r.exported, 0, r.readBytes, r.exportedBytes), v.progress)
    case Save(_, true) => View(r, v.status.(observedAt := Some(r.now)), v.progress)
    case PublishStatus(_, true) => View(r, StatusOf(v), v.progress)
    case PublishProgress(true) => View(r, v.status, ProgressOf(v))
    case _ => View(r, v.status, v.progress)
  }

  /** The status of a run that was counted: its instant is the last success if it ended well,
      its first failure is the error, and failed runs are counted until one does not fail. */
  function StatusOf(v: View): Status {
    var r := v.run;
    var left := if r.rescan.Some? then r.rescan.value else (0, 0);
    Status(Some(r.now), if EndedWell(r) then Some(r.now) else v.status.lastSuccessAt,
           FirstOf(r.failures), if r.failures == [] then 0 else v.status.consecutiveFailures + 1,
           left.0, r.exported, left.0, left.1, r.exportedBytes)
  }

  function ProgressOf(v: View): Progress {
    var r := v.run;
    var left := if r.rescan.Some? then r.rescan.value else (0, 0);
    Progress(Some(r.now), if r.deleted > 0 then Some(r.now) else v.progress.lastProgressAt,
             if EndedWell(r) then Some(r.now) else v.progress.lastFullSyncAt,
             r.scanned, r.exported, r.deleted, |r.failures|, left.0, left.1)
  }

  /** The view after the first `n` steps of a trace. */
  ghost function ViewAt(trace: seq<Sys>, log: seq<Action>, n: nat): View
    requires Steps(trace, log) && n <= |log|
  {
    if n == 0 then View(NoRun(), NO_STATUS, NO_PROGRESS)
    else
      assert StepAt(trace, log, n - 1);
      Watch(ViewAt(trace, log, n - 1), trace[n - 1], log[n - 1])
  }

  // ---------------------------------------------------------------- the exporter follows it

  /** What the process has counted is what its steps amount to. */
  predicate Counts(t: Tally, r: RunLog) {
    t == Tally(r.scanned, r.exported, r.deleted, |r.failures|, r.readBytes, r.exportedBytes, FirstOf(r.failures))
  }

  ghost predicate ProcessLogged(v: View, s: Sys) {
    var p := s.process;
    p.Busy? ==>
      && p.now == v.run.now && Counts(p.tally, v.run) && p.progress == v.progress
      && (forall i :: 0 <= i < |v.run.failures| ==> v.run.failures[i] != NoFailure)
      && (p.at.Publish? || p.at.Report? ==> v.run.rescan.Some?)
      && (p.at.Publish? ==> p.state.status == StatusOf(v))
      && (!p.at.Publish? ==> p.state.status == v.status)
      && (p.at.Report? ==> v.run.rescan.value.0 == v.status.pendingBundles && v.run.rescan.value.1 == v.status.sourceBytes)
  }

  ghost predicate Logged(v: View, s: Sys) {
    s.saved.status == v.status && s.progress == v.progress && ProcessLogged(v, s)
  }

  /** One more failure, counted by log and process alike. */
  lemma FailCounts(t: Tally, r: RunLog, code: Code)
    requires Counts(t, r) && code != NoFailure && forall i :: 0 <= i < |r.failures| ==> r.failures[i] != NoFailure
    ensures Counts(Fail(t, code), r.(failures := r.failures + [code]))
    ensures forall i :: 0 <= i < |r.failures| + 1 ==> (r.failures + [code])[i] != NoFailure
  {
  }

  lemma LocalFailureIsLogged(v: View, s: Sys, a: Action)
    requires Enabled(s, a) && Logged(v, s)
    requires a.Cancel? || a.Unreadable? || a.HeadFailed? || a.ConfirmFailed?
    ensures Logged(Watch(v, s, a), Apply(s, a))
  {
    FailCounts(s.process.tally, v.run, FailureOf(s, a));
  }

  lemma UploadIsLogged(v: View, s: Sys, a: Action)
    requires Enabled(s, a) && Logged(v, s) && (a.Put? || a.PutFailed?)
    ensures Logged(Watch(v, s, a), Apply(s, a))
  {
    FailCounts(s.process.tally, v.run, RemotePut);
  }

  lemma AnswerIsLogged(v: View, s: Sys, a: Action)
    requires Enabled(s, a) && Logged(v, s) && (a.Head? || a.ConfirmHead?)
    ensures Logged(Watch(v, s, a), Apply(s, a))
  {
    FailCounts(s.process.tally, v.run, RemoteCollision);
    FailCounts(s.process.tally, v.run, RemoteConfirm);
  }

  lemma RemovalIsLogged(v: View, s: Sys, a: Action)
    requires Enabled(s, a) && Logged(v, s) && (a.Remove? || a.RemoveFailed?)
    ensures Logged(Watch(v, s, a), Apply(s, a))
  {
    FailCounts(s.process.tally, v.run, SourceRemove);
  }

  lemma ReadIsLogged(v: View, s: Sys)
    requires Enabled(s, Read) && Logged(v, s)
    ensures Logged(Watch(v, s, Read), Apply(s, Read))
  {
  }

  lemma WriteIsLogged(v: View, s: Sys, a: Action)
    requires Enabled(s, a) && Logged(v, s)
    requires a.ListFailed? || a.RescanFailed? || a.Save? || a.PublishStatus?
    ensures Logged(Watch(v, s, a), Apply(s, a))
  {
  }

  lemma ReportIsLogged(v: View, s: Sys, a: Action)
    requires Enabled(s, a) && Logged(v, s) && (a.PublishProgress? || a.Rescanned?)
    ensures Logged(Watch(v, s, a), Apply(s, a))
  {
  }

  lemma OtherIsLogged(v: View, s: Sys, a: Action)
    requires Enabled(s, a) && Logged(v, s)
    requires a.Begin? || a.Crash? || a.Arrive? || a.Withdraw? || a.ForeignPut?
    ensures Logged(Watch(v, s, a), Apply(s, a))
  {
  }

  lemma StepIsLogged(v: View, s: Sys, a: Action)
    requires Enabled(s, a) && Logged(v, s)
    ensures Logged(Watch(v, s, a), Apply(s, a))
  {
    if a.Cancel? || a.Unreadable? || a.HeadFailed? || a.ConfirmFailed? { LocalFailureIsLogged(v, s, a); }
    else if a.Put? || a.PutFailed? { UploadIsLogged(v, s, a); }
    else if a.Head? || a.ConfirmHead? { AnswerIsLogged(v, s, a); }
    else if a.Remove? || a.RemoveFailed? { RemovalIsLogged(v, s, a); }
    else if a.Read? { ReadIsLogged(v, s); }
    else if a.ListFailed? || a.RescanFailed? || a.Save? || a.PublishStatus? { WriteIsLogged(v, s, a); }
    else if a.PublishProgress? || a.Rescanned? { ReportIsLogged(v, s, a); }
    else { OtherIsLogged(v, s, a); }
  }

  /** Over every run, cut and interleaved anyhow: the saved status and progress, and whatever
      a process has counted, are what the log says. */
  lemma {:induction false} PublishedIsLogged(trace: seq<Sys>, log: seq<Action>, n: nat)
    requires Steps(trace, log) && Init(trace[0]) && n <= |log|
    ensures Logged(ViewAt(trace, log, n), trace[n])
  {
    if n > 0 {
      PublishedIsLogged(trace, log, n - 1);
      assert StepAt(trace, log, n - 1);
      StepIsLogged(ViewAt(trace, log, n - 1), trace[n - 1], log[n - 1]);
    }
  }

  // ---------------------------------------------------------------- the last success

  /** Step `b` begins the run to which step number `n` would belong. */
  ghost predicate BeganAt(log: seq<Action>, b: int, n: nat) {
    0 <= b < n <= |log| && log[b].Begin? && forall m :: b < m < n ==> !log[m].Begin?
  }

  /** No step from `b` on, before `n`, is a failure. */
  ghost predicate FailureFree(trace: seq<Sys>, log: seq<Action>, b: int, n: nat) {
    0 <= b && n <= |log| <= |trace| && forall m :: b < m < n ==> FailureOf(trace[m], log[m]) == NoFailure
  }

  /** The last count of the spool since `b`, before `n`, found it empty. */
  ghost predicate CountedEmpty(log: seq<Action>, b: int, n: nat) {
    exists q :: CountAt(log, b, n, q) && log[q].pending == 0
  }

  ghost predicate CountAt(log: seq<Action>, b: int, n: nat, q: int) {
    0 <= b < q < n <= |log| && log[q].Rescanned? && forall m :: q < m < n ==> !log[m].Rescanned?
  }

  /** Step `i` publishes the status of the run begun at `b`, in which nothing failed and the
      spool was found empty. */
  ghost predicate SuccessAt(trace: seq<Sys>, log: seq<Action>, b: int, i: int) {
    && 0 <= i < |log| && log[i].PublishStatus? && log[i].written
    && BeganAt(log, b, i) && FailureFree(trace, log, b, i) && CountedEmpty(log, b, i)
  }

  ghost predicate NoSuccess(trace: seq<Sys>, log: seq<Action>, from: int, n: nat) {
    forall b, i :: from <= i < n ==> !SuccessAt(trace, log, b, i)
  }

  /** `time` is the instant of the last published success among the first `n` steps. */
  ghost predicate LastSuccess(trace: seq<Sys>, log: seq<Action>, n: nat, time: Option<int>) {
    match time
    case None => NoSuccess(trace, log, 0, n)
    case Some(t) => exists b, i :: SuccessOf(trace, log, n, t, b, i)
  }

  ghost predicate SuccessOf(trace: seq<Sys>, log: seq<Action>, n: nat, t: int, b: int, i: int) {
    i < n && SuccessAt(trace, log, b, i) && log[b].now == t && NoSuccess(trace, log, i + 1, n)
  }

  /** The run log is about the steps since the last beginning. */
  ghost predicate RunIs(trace: seq<Sys>, log: seq<Action>, n: nat, r: RunLog) {
    forall b :: BeganAt(log, b, n) ==>
      && r.now == log[b].now
      && (r.failures == [] <==> FailureFree(trace, log, b, n))
      && (r.rescan.Some? && r.rescan.value.0 == 0 <==> CountedEmpty(log, b, n))
  }

  lemma BeganNext(log: seq<Action>, b: int, n: nat)
    requires n < |log|
    ensures BeganAt(log, b, n + 1) <==> if log[n].Begin? then b == n else BeganAt(log, b, n)
  {
  }

  lemma FailureFreeNext(trace: seq<Sys>, log: seq<Action>, b: int, n: nat)
    requires |log| <= |trace| && 0 <= b <= n < |log|
    ensures FailureFree(trace, log, b, n + 1) <==> FailureFree(trace, log, b, n) && (b < n ==> FailureOf(trace[n], log[n]) == NoFailure)
  {
  }

  lemma CountedNext(log: seq<Action>, b: int, n: nat)
    requires 0 <= b < n < |log|
    ensures CountedEmpty(log, b, n + 1) <==> if log[n].Rescanned? then log[n].pending == 0 else CountedEmpty(log, b, n)
  {
    if log[n].Rescanned? {
      assert CountAt(log, b, n + 1, n);
    } else {
      if CountedEmpty(log, b, n + 1) {
        var q :| CountAt(log, b, n + 1, q) && log[q].pending == 0;
        assert CountAt(log, b, n, q);
      }
      if CountedEmpty(log, b, n) {
        var q :| CountAt(log, b, n, q) && log[q].pending == 0;
        assert CountAt(log, b, n + 1, q);
      }
    }
  }

  lemma {:induction false} RunIsNext(trace: seq<Sys>, log: seq<Action>, n: nat, r: RunLog)
    requires Steps(trace, log) && n < |log| && RunIs(trace, log, n, r) && Enabled(trace[n], log[n])
    ensures RunIs(trace, log, n + 1, Follow(r, trace[n], log[n]))
  {
    var next := Follow(r, trace[n], log[n]);
    forall b | BeganAt(log, b, n + 1)
      ensures next.now == log[b].now
      ensures next.failures == [] <==> FailureFree(trace, log, b, n + 1)
      ensures next.rescan.Some? && next.rescan.value.0 == 0 <==> CountedEmpty(log, b, n + 1)
    {
      BeganNext(log, b, n);
      FailureFreeNext(trace, log, b, n);
      if b < n {
        assert BeganAt(log, b, n);
        CountedNext(log, b, n);
      }
    }
  }

  lemma WatchFollows(v: View, s: Sys, a: Action)
    requires Enabled(s, a)
    ensures Watch(v, s, a).run == Follow(v.run, s, a)
    ensures Watch(v, s, a).status.lastSuccessAt ==
            if a.PublishStatus? && a.written && EndedWell(v.run) then Some(v.run.now) else v.status.lastSuccessAt
  {
  }

  lemma {:induction false} RunIsLogged(trace: seq<Sys>, log: seq<Action>, n: nat)
    requires Steps(trace, log) && n <= |log|
    ensures RunIs(trace, log, n, ViewAt(trace, log, n).run)
  {
    if n > 0 {
      RunIsLogged(trace, log, n - 1);
      assert StepAt(trace, log, n - 1);
      WatchFollows(ViewAt(trace, log, n - 1), trace[n - 1], log[n - 1]);
      RunIsNext(trace, log, n - 1, ViewAt(trace, log, n - 1).run);
    }
  }

  lemma BusyAfter(s: Sys, a: Action)
    requires Enabled(s, a) && Apply(s, a).process.Busy?
    ensures a.Begin? || s.process.Busy?
  {
  }

  lemma {:induction false} BusyHasBegun(trace: seq<Sys>, log: seq<Action>, n: nat)
    requires Steps(trace, log) && Init(trace[0]) && n <= |log| && trace[n].process.Busy?
    ensures exists b :: BeganAt(log, b, n)
  {
    if n > 0 {
      assert StepAt(trace, log, n - 1);
      BusyAfter(trace[n - 1], log[n - 1]);
      if log[n - 1].Begin? {
        assert BeganAt(log, n - 1, n);
      } else {
        BusyHasBegun(trace, log, n - 1);
        var b :| BeganAt(log, b, n - 1);
        assert BeganAt(log, b, n);
      }
    }
  }

  /** A step publishes a success exactly if the run it belongs to ended well. */
  lemma SuccessIff(trace: seq<Sys>, log: seq<Action>, n: nat)
    requires Steps(trace, log) && Init(trace[0]) && n < |log|
    ensures var r := ViewAt(trace, log, n).run;
            log[n].PublishStatus? && log[n].written && EndedWell(r) <==> exists b :: SuccessAt(trace, log, b, n)
    ensures forall b :: SuccessAt(trace, log, b, n) ==> ViewAt(trace, log, n).run.now == log[b].now
  {
    RunIsLogged(trace, log, n);
    var r := ViewAt(trace, log, n).run;
    if log[n].PublishStatus? && log[n].written {
      assert StepAt(trace, log, n);
      BusyHasBegun(trace, log, n);
      var b :| BeganAt(log, b, n);
      if EndedWell(r) { assert SuccessAt(trace, log, b, n); }
    }
  }

  lemma NoSuccessNext(trace: seq<Sys>, log: seq<Action>, from: int, n: nat)
    requires NoSuccess(trace, log, from, n) && forall b :: !SuccessAt(trace, log, b, n)
    ensures NoSuccess(trace, log, from, n + 1)
  {
  }

  lemma {:induction false} LastSuccessIsLogged(trace: seq<Sys>, log: seq<Action>, n: nat)
    requires Steps(trace, log) && Init(trace[0]) && n <= |log|
    ensures LastSuccess(trace, log, n, ViewAt(trace, log, n).status.lastSuccessAt)
  {
    if n > 0 {
      var v := ViewAt(trace, log, n - 1);
      LastSuccessIsLogged(trace, log, n - 1);
      assert StepAt(trace, log, n - 1);
      WatchFollows(v, trace[n - 1], log[n - 1]);
      SuccessIff(trace, log, n - 1);
      if log[n - 1].PublishStatus? && log[n - 1].written && EndedWell(v.run) {
        var b :| SuccessAt(trace, log, b, n - 1);
        assert SuccessOf(trace, log, n, v.run.now, b, n - 1);
      } else if v.status.lastSuccessAt.Some? {
        var t := v.status.lastSuccessAt.value;
        var b, i :| SuccessOf(trace, log, n - 1, t, b, i);
        NoSuccessNext(trace, log, i + 1, n - 1);
        assert SuccessOf(trace, log, n, t, b, i);
      } else {
        NoSuccessNext(trace, log, 0, n - 1);
      }
    }
  }

  /** At any point of any run the saved last-success time is the instant of the last published
      run in which no step failed and whose count found the spool empty; None if there is none. */
  lemma {:induction false} LastSuccessIsTrue(trace: seq<Sys>, log: seq<Action>, n: nat)
    requires Steps(trace, log) && Init(trace[0]) && n <= |log|
    ensures LastSuccess(trace, log, n, trace[n].saved.status.lastSuccessAt)
  {
    LastSuccessIsLogged(trace, log, n);
    PublishedIsLogged(trace, log, n);
  }

  // ---------------------------------------------------------------- confirmation records

  /** A bundle is unlinked without asking the store if and only if a record of exactly its
      bytes, digest and key was verified within the hour before the run, not after it. */
  lemma {:induction false} FastPathIff(s: Sys)
    requires Enabled(s, Read)
    ensures var p := s.process;
            var name, file := p.todo[0], s.spool[p.todo[0]];
            ProcessAfter(s, Read).at.Unlink? <==>
              && name in p.state.exports
              && var r := p.state.exports[name];
                 && r.sha == Sha256(file.content) && r.key == Key(file.scope.value, Sha256(file.content)) && r.bytes == |file.content|
                 && r.lastVerifiedAt.Some? && r.lastVerifiedAt.value != ZERO_TIME
                 && 0 <= p.now - r.lastVerifiedAt.value < 60 * 60 * 1_000_000_000
  {
  }

  /** What a saved confirmation says: this bundle, verified now, exported now or when it was
      first recorded; every other record, and all of the status but its time, is kept. */
  lemma {:induction false} SavedRecordIs(s: Sys, ok: bool)
    requires Enabled(s, Save(ok, true))
    ensures var p, t := s.process, Apply(s, Save(ok, true));
            var b := p.at.bundle;
            && t.saved.status == p.state.status.(observedAt := Some(p.now))
            && t.saved.exports.Keys == p.state.exports.Keys + {b.name}
            && (forall n :: n in p.state.exports && n != b.name ==> t.saved.exports[n] == p.state.exports[n])
            && (var r := t.saved.exports[b.name];
                && r.sha == Sha256(b.file.content) && r.key == b.key && r.bytes == |b.file.content| && r.lastVerifiedAt == Some(p.now)
                && r.exportedAt == if b.name in p.state.exports && p.state.exports[b.name].exportedAt.Some?
                                   then p.state.exports[b.name].exportedAt else Some(p.now))
  {
  }
}
