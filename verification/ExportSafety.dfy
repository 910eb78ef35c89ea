/** What every run of the export protocol keeps, however it is cut short. */
module ExportSafety {
  import opened Text
  import opened Spool
  import opened Export

  /** The steps can be taken one after another from `s`. */
  ghost predicate Legal(s: Sys, actions: seq<Action>)
    decreases |actions|
  {
    actions == [] ||
    (Enabled(s, actions[0]) && Legal(Apply(s, actions[0]), actions[1..]))
  }

  ghost function Exec(s: Sys, actions: seq<Action>): Sys
    requires Legal(s, actions)
    decreases |actions|
  {
    if actions == [] then s else Exec(Apply(s, actions[0]), actions[1..])
  }

  lemma RemoveShrinks<K, V>(m: map<K, V>, k: K)
    ensures |m - {k}| <= |m|
  {
    assert (m - {k}).Keys == m.Keys - {k};
  }

  lemma InsertGrows<K, V>(m: map<K, V>, k: K, v: V)
    ensures |m[k := v]| <= |m| + 1
  {
    assert m[k := v].Keys == m.Keys + {k};
  }

  lemma StepKeepsBookkeeping(s: Sys, a: Action)
    requires Enabled(s, a) && Bookkeeping(s)
    ensures Bookkeeping(Apply(s, a))
  {
    if a.ListFailed? || a.Begin? || a.Crash? || a.Arrive? || a.Withdraw? || a.ForeignPut? {
    } else if a.Save? || a.Remove? || a.RemoveFailed? {
      CommitKeepsBookkeeping(s, a);
    } else if a.RescanFailed? || a.Rescanned? || a.PublishStatus? || a.PublishProgress? {
      FinishKeepsBookkeeping(s, a);
    } else if a.Cancel? || a.Unreadable? || a.Read? {
      TakeKeepsBookkeeping(s, a);
    } else if a.HeadFailed? || a.Head? {
      ProbeKeepsBookkeeping(s, a);
    } else if a.PutFailed? || a.Put? {
      UploadKeepsBookkeeping(s, a);
    } else {
      ConfirmKeepsBookkeeping(s, a);
    }
  }

  lemma TakeKeepsBookkeeping(s: Sys, a: Action)
    requires Enabled(s, a) && Bookkeeping(s)
    requires a.Cancel? || a.Unreadable? || a.Read?
    ensures Bookkeeping(Apply(s, a))
  {
  }

  lemma FailKeepsTally(p: Process, code: Code)
    requires WellPlaced(p) && TallySound(p) && p.Busy? && code != NoFailure
    requires p.at.Probe? || p.at.Upload? || p.at.Confirm?
    ensures TallySound(Advance(p, p.state, Fail(p.tally, code))) && TallySound(Break(p, Fail(p.tally, code)))
  {
  }

  lemma ProbeKeepsBookkeeping(s: Sys, a: Action)
    requires Enabled(s, a) && Bookkeeping(s)
    requires a.HeadFailed? || a.Head?
    ensures Bookkeeping(Apply(s, a))
  {
    FailKeepsTally(s.process, RemoteHead);
    FailKeepsTally(s.process, RemoteCollision);
  }

  lemma UploadKeepsBookkeeping(s: Sys, a: Action)
    requires Enabled(s, a) && Bookkeeping(s)
    requires a.PutFailed? || a.Put?
    ensures Bookkeeping(Apply(s, a))
  {
    FailKeepsTally(s.process, RemotePut);
  }

  lemma ConfirmKeepsBookkeeping(s: Sys, a: Action)
    requires Enabled(s, a) && Bookkeeping(s)
    requires a.ConfirmFailed? || a.ConfirmHead?
    ensures Bookkeeping(Apply(s, a))
  {
    FailKeepsTally(s.process, RemoteConfirm);
  }

  lemma CommitKeepsBookkeeping(s: Sys, a: Action)
    requires Enabled(s, a) && Bookkeeping(s)
    requires a.Save? || a.Remove? || a.RemoveFailed?
    ensures Bookkeeping(Apply(s, a))
  {
    var p := s.process;
    if a.Save? { InsertGrows(p.state.exports, p.at.bundle.name, RecordFor(p.state.exports, p.at.bundle, p.now)); }
    if a.Remove? { RemoveShrinks(p.state.exports, p.at.bundle.name); }
  }

  lemma FinishKeepsBookkeeping(s: Sys, a: Action)
    requires Enabled(s, a) && Bookkeeping(s)
    requires a.RescanFailed? || a.Rescanned? || a.PublishStatus? || a.PublishProgress?
    ensures Bookkeeping(Apply(s, a))
  {
  }

  /** An unlink takes away exactly the file that was read and confirmed. */
  lemma UnlinkedIsConfirmed(s: Sys)
    requires History(s) && ProcessSound(s)
    requires s.process.Busy? && s.process.at.Unlink? && SameInode(s.spool, s.process.at.bundle)
    ensures s.spool[s.process.at.bundle.name] == s.process.at.bundle.file
  {
    var b := s.process.at.bundle;
    assert (b.name, s.spool[b.name]) in s.spooled;
  }

  ghost predicate Extends(store: Store, larger: Store) {
    forall k :: k in store ==> k in larger && larger[k] == store[k]
  }

  lemma ExtendsTransitive(a: Store, b: Store, c: Store)
    requires Extends(a, b) && Extends(b, c)
    ensures Extends(a, c)
  {
    forall k | k in a ensures k in c && c[k] == a[k] {
      assert k in b;
    }
  }

  lemma StoreExtends(s: Sys, a: Action)
    requires Enabled(s, a)
    ensures Extends(s.store, Apply(s, a).store)
  {
  }

  lemma StepKeepsNoLoss(s: Sys, a: Action)
    requires Enabled(s, a) && NoLoss(s) && History(s) && ProcessSound(s)
    ensures NoLoss(Apply(s, a)) && History(Apply(s, a))
  {
    StoreExtends(s, a);
    if a.Remove? || a.RemoveFailed? {
      RemoveKeepsNoLoss(s, a);
    } else if a.Arrive? || a.Withdraw? {
      SpoolChangeKeepsNoLoss(s, a);
    } else {
      NoLossFrame(s, Apply(s, a));
    }
  }

  lemma NoLossFrame(s: Sys, t: Sys)
    requires NoLoss(s) && History(s)
    requires t.spool == s.spool && t.spooled == s.spooled && t.withdrawn == s.withdrawn && Extends(s.store, t.store)
    ensures NoLoss(t) && History(t)
  {
    forall e | e in t.spooled ensures Accounted(t, e.0, e.1) {
      assert Accounted(s, e.0, e.1);
    }
  }

  lemma RemoveKeepsNoLoss(s: Sys, a: Action)
    requires Enabled(s, a) && NoLoss(s) && History(s) && ProcessSound(s)
    requires a.Remove? || a.RemoveFailed?
    ensures NoLoss(Apply(s, a)) && History(Apply(s, a))
  {
    var t := Apply(s, a);
    if a.Remove? || a.removed { UnlinkedIsConfirmed(s); }
    forall e | e in t.spooled ensures Accounted(t, e.0, e.1) {
      assert Accounted(s, e.0, e.1);
    }
  }

  lemma SpoolChangeKeepsNoLoss(s: Sys, a: Action)
    requires Enabled(s, a) && NoLoss(s) && History(s) && ProcessSound(s)
    requires a.Arrive? || a.Withdraw?
    ensures NoLoss(Apply(s, a)) && History(Apply(s, a))
  {
    var t := Apply(s, a);
    forall e | e in t.spooled ensures Accounted(t, e.0, e.1) {
      assert e in s.spooled ==> Accounted(s, e.0, e.1);
    }
  }

  lemma StepKeepsProcess(s: Sys, a: Action)
    requires Enabled(s, a) && RecordsHeld(s.store, s.saved.exports) && History(s) && ProcessSound(s)
    ensures ProcessSound(Apply(s, a)) && RecordsHeld(Apply(s, a).store, Apply(s, a).saved.exports)
  {
    if a.Read? { ReadKeepsProcess(s); }
    else if a.Save? { SaveKeepsProcess(s, a); }
    else if a.Remove? || a.RemoveFailed? { RemoveKeepsProcess(s, a); }
    else if a.Head? || a.ConfirmHead? { AnswerKeepsProcess(s, a); }
    else if a.Put? || a.PutFailed? || a.ForeignPut? { PutKeepsProcess(s, a); }
    else { LocalKeepsProcess(s, a); }
  }

  lemma LocalKeepsProcess(s: Sys, a: Action)
    requires Enabled(s, a) && RecordsHeld(s.store, s.saved.exports) && ProcessSound(s)
    requires !(a.Read? || a.Save? || a.Remove? || a.RemoveFailed? || a.Head? || a.ConfirmHead?)
    requires !(a.Put? || a.PutFailed? || a.ForeignPut?)
    ensures ProcessSound(Apply(s, a)) && RecordsHeld(Apply(s, a).store, Apply(s, a).saved.exports)
  {
    if a.Cancel? || a.Unreadable? || a.HeadFailed? || a.ConfirmFailed? {
      FailureKeepsProcess(s, a);
    } else if a.ListFailed? || a.RescanFailed? || a.PublishStatus? {
      WriteKeepsProcess(s, a);
    }
  }

  lemma FailureKeepsProcess(s: Sys, a: Action)
    requires Enabled(s, a) && RecordsHeld(s.store, s.saved.exports) && ProcessSound(s)
    requires a.Cancel? || a.Unreadable? || a.HeadFailed? || a.ConfirmFailed?
    ensures ProcessSound(Apply(s, a)) && RecordsHeld(Apply(s, a).store, Apply(s, a).saved.exports)
  {
  }

  lemma WriteKeepsProcess(s: Sys, a: Action)
    requires Enabled(s, a) && RecordsHeld(s.store, s.saved.exports) && ProcessSound(s)
    requires a.ListFailed? || a.RescanFailed? || a.PublishStatus?
    ensures ProcessSound(Apply(s, a)) && RecordsHeld(Apply(s, a).store, Apply(s, a).saved.exports)
  {
  }

  lemma ReadKeepsProcess(s: Sys)
    requires Enabled(s, Read) && RecordsHeld(s.store, s.saved.exports) && History(s) && ProcessSound(s)
    ensures ProcessSound(Apply(s, Read)) && RecordsHeld(Apply(s, Read).store, Apply(s, Read).saved.exports)
  {
    var p := s.process;
    var b := ReadBundle(p.todo[0], s.spool[p.todo[0]]).value;
    if FreshlyRecorded(p.state.exports, b, p.now) { assert RecordHeld(s.store, s.saved.exports[b.name]); }
  }

  lemma SaveKeepsProcess(s: Sys, a: Action)
    requires Enabled(s, a) && RecordsHeld(s.store, s.saved.exports) && ProcessSound(s) && a.Save?
    ensures ProcessSound(Apply(s, a)) && RecordsHeld(Apply(s, a).store, Apply(s, a).saved.exports)
  {
  }

  lemma AnswerKeepsProcess(s: Sys, a: Action)
    requires Enabled(s, a) && RecordsHeld(s.store, s.saved.exports) && ProcessSound(s)
    requires a.Head? || a.ConfirmHead?
    ensures ProcessSound(Apply(s, a)) && RecordsHeld(Apply(s, a).store, Apply(s, a).saved.exports)
  {
  }

  lemma RemoveKeepsProcess(s: Sys, a: Action)
    requires Enabled(s, a) && RecordsHeld(s.store, s.saved.exports) && ProcessSound(s)
    requires a.Remove? || a.RemoveFailed?
    ensures ProcessSound(Apply(s, a)) && RecordsHeld(Apply(s, a).store, Apply(s, a).saved.exports)
  {
  }

  lemma PutKeepsProcess(s: Sys, a: Action)
    requires Enabled(s, a) && RecordsHeld(s.store, s.saved.exports) && ProcessSound(s)
    requires a.Put? || a.PutFailed? || a.ForeignPut?
    ensures ProcessSound(Apply(s, a)) && RecordsHeld(Apply(s, a).store, Apply(s, a).saved.exports)
  {
  }

  lemma StepKeepsInv(s: Sys, a: Action)
    requires Enabled(s, a) && Inv(s)
    ensures Inv(Apply(s, a))
  {
    StepKeepsNoLoss(s, a);
    StepKeepsProcess(s, a);
    StepKeepsBookkeeping(s, a);
  }

  /** Every run, cut by crashes and errors at any step and interleaved with arrivals,
      withdrawals and other writers, keeps the whole invariant. */
  lemma {:induction false} RunKeepsInv(s: Sys, actions: seq<Action>)
    requires Inv(s) && Legal(s, actions)
    ensures Inv(Exec(s, actions))
    decreases |actions|
  {
    if actions != [] {
      StepKeepsInv(s, actions[0]);
      RunKeepsInv(Apply(s, actions[0]), actions[1..]);
    }
  }

  lemma InitEstablishesInv(s: Sys)
    requires Init(s)
    ensures Inv(s)
  {
    forall e | e in s.spooled ensures Accounted(s, e.0, e.1) {
      assert (e.0, e.1) in s.spooled;
    }
    forall d, e | d in s.spooled && e in s.spooled && d.1.inode == e.1.inode ensures d == e {
      assert (d.0, d.1) in s.spooled && (e.0, e.1) in s.spooled;
    }
  }

  /** No stored object ever changes or disappears by an export step. */
  lemma {:induction false} StoreOnlyGrows(s: Sys, actions: seq<Action>)
    requires Inv(s) && Legal(s, actions)
    ensures Extends(s.store, Exec(s, actions).store)
    decreases |actions|
  {
    if actions != [] {
      var t := Apply(s, actions[0]);
      StepKeepsInv(s, actions[0]);
      StoreExtends(s, actions[0]);
      StoreOnlyGrows(t, actions[1..]);
      ExtendsTransitive(s.store, t.store, Exec(t, actions[1..]).store);
    }
  }

  /** No loss: from a fresh installation, after any sequence of runs and failures,
      every bundle that was ever spooled and not withdrawn by its owner is still in
      the spool or held by the store with its exact size, digest and schema, and
      every durable record names such an object. */
  lemma NothingIsLost(s: Sys, actions: seq<Action>, name: Name, file: File)
    requires Init(s) && Legal(s, actions)
    requires (name, file) in Exec(s, actions).spooled && (name, file) !in Exec(s, actions).withdrawn
    ensures var t := Exec(s, actions);
            (name in t.spool && t.spool[name] == file)
            || (file.safe && file.scope.Some?
                && var key := Key(file.scope.value, Sha256(file.content));
                   key in t.store && t.store[key] == Object(|file.content|, Sha256(file.content), "1"))
    ensures RecordsHeld(Exec(s, actions).store, Exec(s, actions).saved.exports)
  {
    InitEstablishesInv(s);
    RunKeepsInv(s, actions);
    var t := Exec(s, actions);
    assert Accounted(t, (name, file).0, (name, file).1);
    if !(name in t.spool && t.spool[name] == file) {
      assert ReadBundle(name, file) == Some(ReadBundle(name, file).value);
    }
  }

  /** Confirmation is durable before the unlink: whenever an exporter step takes a
      name out of the spool, the saved state already holds a record of that very
      file and the store holds its object. */
  lemma RemovedOnlyWhenConfirmed(s: Sys, actions: seq<Action>, a: Action, name: Name)
    requires Init(s) && Legal(s, actions) && Enabled(Exec(s, actions), a) && !a.Withdraw?
    requires name in Exec(s, actions).spool && name !in Apply(Exec(s, actions), a).spool
    ensures var t := Exec(s, actions);
            exists b :: ReadBundle(name, t.spool[name]) == Some(b) && RecordedFor(t.saved.exports, b) && Holds(t.store, b)
  {
    InitEstablishesInv(s);
    RunKeepsInv(s, actions);
    RemovalIsConfirmed(Exec(s, actions), a, name);
  }

  lemma OnlyUnlinkShrinks(t: Sys, a: Action, name: Name)
    requires Enabled(t, a) && !a.Withdraw? && name in t.spool && name !in Apply(t, a).spool
    ensures t.process.Busy? && t.process.at.Unlink? && name == t.process.at.bundle.name && SameInode(t.spool, t.process.at.bundle)
  {
  }

  lemma RemovalIsConfirmed(t: Sys, a: Action, name: Name)
    requires History(t) && ProcessSound(t)
    requires Enabled(t, a) && !a.Withdraw? && name in t.spool && name !in Apply(t, a).spool
    ensures exists b :: ReadBundle(name, t.spool[name]) == Some(b) && RecordedFor(t.saved.exports, b) && Holds(t.store, b)
  {
    OnlyUnlinkShrinks(t, a, name);
    UnlinkedIsConfirmed(t);
    var b := t.process.at.bundle;
    assert ReadBundle(name, t.spool[name]) == Some(b) && RecordedFor(t.saved.exports, b) && Holds(t.store, b);
  }

  /** What another process may rely on in the published files after any run. */
  lemma PublishedStateIsSound(s: Sys, actions: seq<Action>)
    requires Init(s) && Legal(s, actions)
    ensures var t := Exec(s, actions);
            && CountersConsistent(t.saved.status)
            && (t.saved.status.lastErrorCode != NoFailure <==> t.saved.status.consecutiveFailures > 0)
            && |t.saved.exports| <= 512
            && (t.progress == NO_PROGRESS || ValidProgress(t.progress))
  {
    InitEstablishesInv(s);
    RunKeepsInv(s, actions);
  }

  /** `SaveProgress` refuses the report exactly when the clock has gone back behind a
      milestone this run does not renew. */
  lemma ProgressRefusedIffClockWentBack(s: Sys, actions: seq<Action>)
    requires Init(s) && Legal(s, actions)
    requires Exec(s, actions).process.Busy? && Exec(s, actions).process.at.Report?
    ensures var p := Exec(s, actions).process;
            !ValidProgress(NewProgress(p)) <==>
              || (p.tally.deleted == 0 && !NotAfter(p.progress.lastProgressAt, p.now))
              || (!(p.tally.failed == 0 && p.state.status.pendingBundles == 0) && !NotAfter(p.progress.lastFullSyncAt, p.now))
  {
    InitEstablishesInv(s);
    RunKeepsInv(s, actions);
  }

  /** The instants at which runs start never go back behind `clock`. */
  predicate Monotone(actions: seq<Action>, clock: int)
    decreases |actions|
  {
    actions == [] ||
    if actions[0].Begin? || actions[0].ListFailed?
    then clock <= actions[0].now && Monotone(actions[1..], actions[0].now)
    else Monotone(actions[1..], clock)
  }

  predicate BehindClock(s: Sys, clock: int) {
    && NotAfter(s.progress.observedAt, clock)
    && (s.process.Busy? ==> s.process.now <= clock && NotAfter(s.progress.observedAt, s.process.now))
  }

  lemma {:induction false} MonotoneRunStaysBehindClock(s: Sys, actions: seq<Action>, clock: int)
    requires Legal(s, actions) && Monotone(actions, clock) && BehindClock(s, clock)
    ensures Exec(s, actions).process.Busy? ==>
              NotAfter(Exec(s, actions).progress.observedAt, Exec(s, actions).process.now)
    decreases |actions|
  {
    if actions != [] {
      var a := actions[0];
      var next := if a.Begin? || a.ListFailed? then a.now else clock;
      assert BehindClock(Apply(s, a), next);
      MonotoneRunStaysBehindClock(Apply(s, a), actions[1..], next);
    }
  }

  /** Under a monotone clock no run's report is ever refused. */
  lemma MonotoneClockNeverRefused(s: Sys, actions: seq<Action>, clock: int)
    requires Init(s) && Legal(s, actions) && Monotone(actions, clock)
    requires Exec(s, actions).process.Busy? && Exec(s, actions).process.at.Report?
    ensures ValidProgress(NewProgress(Exec(s, actions).process))
  {
    InitEstablishesInv(s);
    RunKeepsInv(s, actions);
    MonotoneRunStaysBehindClock(s, actions, clock);
  }

  /** Step number `i` of a run leads from its state to the next. */
  ghost predicate StepAt(trace: seq<Sys>, log: seq<Action>, i: nat)
    requires |trace| == |log| + 1 && i < |log|
  {
    Enabled(trace[i], log[i]) && trace[i + 1] == Apply(trace[i], log[i])
  }

  /** The states a run went through, one more than the steps it took. */
  ghost predicate Steps(trace: seq<Sys>, log: seq<Action>) {
    |trace| == |log| + 1 && forall i :: 0 <= i < |log| ==> StepAt(trace, log, i)
  }

  lemma StepsSnoc(trace: seq<Sys>, log: seq<Action>, a: Action)
    requires Steps(trace, log) && Enabled(trace[|log|], a)
    ensures Steps(trace + [Apply(trace[|log|], a)], log + [a])
  {
    var longer, more := trace + [Apply(trace[|log|], a)], log + [a];
    forall i | 0 <= i < |more| ensures StepAt(longer, more, i) {
      assert i < |log| ==> StepAt(trace, log, i);
    }
  }

  lemma StepsPrefix(trace: seq<Sys>, log: seq<Action>, n: nat)
    requires Steps(trace, log) && n <= |log|
    ensures Steps(trace[..n + 1], log[..n])
  {
    var states, steps := trace[..n + 1], log[..n];
    forall i | 0 <= i < n ensures StepAt(states, steps, i) {
      assert StepAt(trace, log, i);
    }
  }

  lemma StepsTail(trace: seq<Sys>, log: seq<Action>)
    requires Steps(trace, log) && log != []
    ensures Steps(trace[1..], log[1..])
  {
    var rest, steps := trace[1..], log[1..];
    forall i | 0 <= i < |steps| ensures StepAt(rest, steps, i) {
      assert StepAt(trace, log, i + 1);
    }
  }

  /** Such a trace is the legal run of its steps. */
  lemma {:induction false} StepsAreLegal(trace: seq<Sys>, log: seq<Action>)
    requires Steps(trace, log)
    ensures Legal(trace[0], log) && Exec(trace[0], log) == trace[|log|]
    decreases |log|
  {
    if log != [] {
      StepsTail(trace, log);
      StepsAreLegal(trace[1..], log[1..]);
      assert StepAt(trace, log, 0);
    }
  }

  /** A process killed at any point of a run from a fresh installation leaves a safe state. */
  lemma EveryPointIsSafe(trace: seq<Sys>, log: seq<Action>, i: nat)
    requires Steps(trace, log) && Init(trace[0]) && i < |trace|
    ensures Inv(trace[i])
  {
    StepsPrefix(trace, log, i);
    StepsAreLegal(trace[..i + 1], log[..i]);
    InitEstablishesInv(trace[0]);
    RunKeepsInv(trace[0], log[..i]);
  }
}
