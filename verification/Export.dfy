/** The crash-safe export protocol as a machine of small steps over the spool, the
    durable exporter state, the process memory and the object store.  A crash, an
    arrival or another writer's upload may come between any two steps. */
module Export {
  import opened Text
  import opened Spool

  const MAX_BUNDLES_PER_RUN: nat := 256
  const REVALIDATION_INTERVAL: int := 3_600_000_000_000
  const SCHEMA := "1"

  /** The error codes of a run; `NoFailure` is the empty code. */
  datatype Code =
    | NoFailure | SourceList | Cancelled | BundleVerify | RemoteHead | RemoteCollision | RemotePut | RemoteConfirm
    | SourceRemove | SourceRescan

  /** What a HEAD reports of a stored object. */
  datatype Object = Object(bytes: int, sha: Digest, schema: string)

  type Store = map<Key, Object>

  datatype Record = Record(sha: Digest, key: Key, bytes: int, exportedAt: Option<int>, lastVerifiedAt: Option<int>)

  type Exports = map<Name, Record>

  datatype Status = Status(
    observedAt: Option<int>, lastSuccessAt: Option<int>, lastErrorCode: Code, consecutiveFailures: int,
    sourceBundles: int, exportedBundles: int, pendingBundles: int, sourceBytes: int, exportedBytes: int)

  datatype State = State(status: Status, exports: Exports)

  datatype Progress = Progress(
    observedAt: Option<int>, lastProgressAt: Option<int>, lastFullSyncAt: Option<int>,
    scanned: int, exported: int, deleted: int, failed: int, backlogBundles: int, backlogBytes: int)

  /** The counters one run accumulates. */
  datatype Tally = Tally(
    scanned: nat, exported: nat, deleted: nat, failed: nat, sourceBytes: nat, exportedBytes: nat, firstFailure: Code)

  /** Where in the drain loop a running process is; `todo[0]` is the bundle at hand. */
  datatype Point =
    | Next
    | Probe(bundle: Bundle)
    | Upload(bundle: Bundle)
    | Confirm(bundle: Bundle)
    | Commit(bundle: Bundle)
    | Unlink(bundle: Bundle, counted: bool)
    | Rescan
    | Publish
    | Report

  datatype Process =
    | Idle
    | Busy(now: int, state: State, progress: Progress, todo: seq<Name>, tally: Tally, at: Point)

  /** `spooled` and `withdrawn` are history: every file that was ever in the spool,
      and those somebody other than the exporter took away. */
  datatype Sys = Sys(
    spool: Directory, store: Store, saved: State, progress: Progress, process: Process,
    spooled: set<(Name, File)>, withdrawn: set<(Name, File)>)

  // ---------------------------------------------------------------- pure pieces

  predicate RemoteMatches(stored: Object, bundle: Bundle) {
    stored == Object(bundle.Bytes(), bundle.Sha(), SCHEMA)
  }

  /** The record lets this bundle be unlinked without asking the store again. */
  predicate FreshlyRecorded(exports: Exports, bundle: Bundle, now: int) {
    bundle.name in exports &&
    var record := exports[bundle.name];
    record.sha == bundle.Sha() && record.key == bundle.key && record.bytes == bundle.Bytes() &&
    record.lastVerifiedAt.Some? && record.lastVerifiedAt.value != ZERO_TIME &&
    record.lastVerifiedAt.value <= now && now - record.lastVerifiedAt.value < REVALIDATION_INTERVAL
  }

  /** The conditional upload: creates the object once, never replaces one. */
  function PutIfAbsent(store: Store, bundle: Bundle): Store {
    if bundle.key in store then store else store[bundle.key := Object(bundle.Bytes(), bundle.Sha(), SCHEMA)]
  }

  function RecordFor(exports: Exports, bundle: Bundle, now: int): Record {
    var exportedAt :=
      if bundle.name in exports && exports[bundle.name].exportedAt.Some? then exports[bundle.name].exportedAt else Some(now);
    Record(bundle.Sha(), bundle.key, bundle.Bytes(), exportedAt, Some(now))
  }

  function Fail(tally: Tally, code: Code): Tally {
    tally.(failed := tally.failed + 1, firstFailure := if tally.firstFailure == NoFailure then code else tally.firstFailure)
  }

  function Committed(state: State, bundle: Bundle, now: int): State {
    State(state.status.(observedAt := Some(now)), state.exports[bundle.name := RecordFor(state.exports, bundle, now)])
  }

  /** The tally after a successful removal. */
  function Removed(tally: Tally, bundle: Bundle, counted: bool): Tally {
    if counted then tally.(deleted := tally.deleted + 1)
    else tally.(deleted := tally.deleted + 1, exported := tally.exported + 1,
                exportedBytes := tally.exportedBytes + bundle.Bytes())
  }

  function FailureStatus(state: State, now: int, tally: Tally, code: Code): Status {
    Status(Some(now), state.status.lastSuccessAt, code, state.status.consecutiveFailures + 1,
           0, tally.exported, 0, tally.sourceBytes, tally.exportedBytes)
  }

  function FinalStatus(state: State, now: int, tally: Tally, pending: nat, bytes: nat): Status {
    Status(Some(now),
           if tally.failed == 0 && pending == 0 then Some(now) else state.status.lastSuccessAt,
           if tally.failed != 0 then tally.firstFailure else NoFailure,
           if tally.failed != 0 then state.status.consecutiveFailures + 1 else 0,
           pending, tally.exported, pending, bytes, tally.exportedBytes)
  }

  function FinalProgress(progress: Progress, now: int, tally: Tally, pending: int, bytes: int): Progress {
    Progress(Some(now),
             if tally.deleted > 0 then Some(now) else progress.lastProgressAt,
             if tally.failed == 0 && pending == 0 then Some(now) else progress.lastFullSyncAt,
             tally.scanned, tally.exported, tally.deleted, tally.failed, pending, bytes)
  }

  predicate NotAfter(time: Option<int>, limit: int) { time.None? || time.value <= limit }

  /** `Progress.Validate`. */
  predicate ValidProgress(p: Progress) {
    && 0 <= p.deleted <= p.exported <= p.scanned && 0 <= p.failed <= p.scanned
    && 0 <= p.backlogBundles && 0 <= p.backlogBytes
    && p.observedAt.Some?
    && NotAfter(p.lastProgressAt, p.observedAt.value)
    && NotAfter(p.lastFullSyncAt, p.observedAt.value)
  }

  /** The observer's counter check on a published status. */
  predicate CountersConsistent(status: Status) {
    && 0 <= status.sourceBundles && 0 <= status.exportedBundles && 0 <= status.pendingBundles
    && (status.exportedBundles + status.pendingBundles == status.sourceBundles || status.pendingBundles == status.sourceBundles)
    && 0 <= status.sourceBytes && 0 <= status.exportedBytes
  }

  // ---------------------------------------------------------------- steps

  datatype Action =
    | ListFailed(now: int, written: bool)          // the first listing failed; its failure status may or may not land
    | Begin(now: int, batch: seq<Name>)
    | Cancel                                        // the context was cancelled between two bundles
    | Unreadable                                    // ReadBundle failed
    | Read
    | HeadFailed
    | Head
    | PutFailed(stored: bool)                       // the upload failed, before or after it took effect
    | Put
    | ConfirmFailed
    | ConfirmHead
    | Save(ok: bool, written: bool)                 // confirmation record; a failing save may still be durable
    | Remove
    | RemoveFailed(removed: bool)                   // unlink refused, or done but its directory sync failed
    | RescanFailed(written: bool)
    | Rescanned(pending: nat, bytes: nat)
    | PublishStatus(ok: bool, written: bool)
    | PublishProgress(written: bool)
    | Crash
    | Arrive(name: Name, file: File)
    | Withdraw(name: Name)
    | ForeignPut(key: Key, item: Object)

  /** While a bundle is at hand it heads the work list. */
  predicate WellPlaced(p: Process) {
    p.Busy? && !p.at.Rescan? && !p.at.Publish? && !p.at.Report? ==>
      p.todo != [] && (!p.at.Next? ==> p.at.bundle.name == p.todo[0])
  }

  /** `bytes` is the total size of the safe entries, whatever order they were listed in. */
  ghost predicate IsSize(spool: Directory, bytes: nat) {
    exists order :: Enumerates(order, spool) && bytes == SafeBytes(spool, order)
  }

  /** The same inode is still linked under the bundle's name. */
  predicate SameInode(spool: Directory, bundle: Bundle) {
    bundle.name in spool && spool[bundle.name].inode == bundle.file.inode
  }

  ghost predicate Enabled(s: Sys, a: Action) {
    WellPlaced(s.process) &&
    match a
    case ListFailed(_, _) => s.process.Idle?
    case Begin(_, batch) => s.process.Idle? && IsBatch(batch, s.spool, MAX_BUNDLES_PER_RUN)
    case Cancel => AtPoint(s, Next)
    case Unreadable => AtPoint(s, Next)
    case Read => AtPoint(s, Next) && s.process.todo[0] in s.spool && ReadBundle(s.process.todo[0], s.spool[s.process.todo[0]]).Some?
    case HeadFailed => s.process.Busy? && s.process.at.Probe?
    case Head => s.process.Busy? && s.process.at.Probe?
    case PutFailed(_) => s.process.Busy? && s.process.at.Upload?
    case Put => s.process.Busy? && s.process.at.Upload?
    case ConfirmFailed => s.process.Busy? && s.process.at.Confirm?
    case ConfirmHead => s.process.Busy? && s.process.at.Confirm?
    case Save(ok, written) => s.process.Busy? && s.process.at.Commit? && (ok ==> written)
    case Remove => s.process.Busy? && s.process.at.Unlink? && SameInode(s.spool, s.process.at.bundle)
    case RemoveFailed(removed) => s.process.Busy? && s.process.at.Unlink? && (removed ==> SameInode(s.spool, s.process.at.bundle))
    case RescanFailed(_) => s.process.Busy? && s.process.at.Rescan?
    case Rescanned(pending, bytes) => s.process.Busy? && s.process.at.Rescan? && pending == |s.spool| && IsSize(s.spool, bytes)
    case PublishStatus(ok, written) => s.process.Busy? && s.process.at.Publish? && (ok ==> written)
    case PublishProgress(written) =>
      s.process.Busy? && s.process.at.Report? && (written ==> ValidProgress(NewProgress(s.process)))
    case Crash => true
    case Arrive(name, file) => name !in s.spool && forall e :: e in s.spooled ==> e.1.inode != file.inode
    case Withdraw(name) => name in s.spool
    case ForeignPut(key, _) => key !in s.store
  }

  predicate AtPoint(s: Sys, point: Point) {
    s.process.Busy? && s.process.at == point && s.process.todo != []
  }

  function NewProgress(p: Process): Progress
    requires p.Busy?
  {
    FinalProgress(p.progress, p.now, p.tally, p.state.status.pendingBundles, p.state.status.sourceBytes)
  }

  /** The bundle at hand is done with; the loop goes on or ends. */
  function Advance(p: Process, state: State, tally: Tally): Process
    requires p.Busy? && p.todo != []
  {
    Busy(p.now, state, p.progress, p.todo[1..], tally, if |p.todo| == 1 then Rescan else Next)
  }

  /** The loop is left early. */
  function Break(p: Process, tally: Tally): Process
    requires p.Busy?
  {
    p.(tally := tally, at := Rescan)
  }

  ghost function SpoolAfter(s: Sys, a: Action): Directory
    requires Enabled(s, a)
  {
    match a
    case Remove => s.spool - {s.process.at.bundle.name}
    case RemoveFailed(true) => s.spool - {s.process.at.bundle.name}
    case Arrive(name, file) => s.spool[name := file]
    case Withdraw(name) => s.spool - {name}
    case _ => s.spool
  }

  ghost function StoreAfter(s: Sys, a: Action): Store
    requires Enabled(s, a)
  {
    match a
    case Put => PutIfAbsent(s.store, s.process.at.bundle)
    case PutFailed(true) => PutIfAbsent(s.store, s.process.at.bundle)
    case ForeignPut(key, item) => s.store[key := item]
    case _ => s.store
  }

  /** The state file is replaced atomically by whatever write reached the disk. */
  ghost function SavedAfter(s: Sys, a: Action): State
    requires Enabled(s, a)
  {
    var p := s.process;
    match a
    case ListFailed(now, true) =>
      s.saved.(status := FailureStatus(s.saved, now, Tally(0, 0, 0, 0, 0, 0, NoFailure), SourceList))
    case Save(_, true) => Committed(p.state, p.at.bundle, p.now)
    case RescanFailed(true) => p.state.(status := FailureStatus(p.state, p.now, p.tally, SourceRescan))
    case PublishStatus(_, true) => p.state
    case _ => s.saved
  }

  ghost function ProcessAfter(s: Sys, a: Action): Process
    requires Enabled(s, a)
  {
    var p := s.process;
    match a
    case Begin(now, batch) =>
      Busy(now, StartState(s.saved), s.progress, batch,
           Tally(|batch|, 0, 0, 0, 0, 0, NoFailure), if batch == [] then Rescan else Next)
    case Cancel => Break(p, Fail(p.tally, Cancelled))
    case Unreadable => Advance(p, p.state, Fail(p.tally, BundleVerify))
    case Read => AfterRead(p, ReadBundle(p.todo[0], s.spool[p.todo[0]]).value)
    case HeadFailed => Break(p, Fail(p.tally, RemoteHead))
    case Head =>
      if p.at.bundle.key !in s.store then p.(at := Upload(p.at.bundle))
      else if RemoteMatches(s.store[p.at.bundle.key], p.at.bundle) then p.(at := Commit(p.at.bundle))
      else Advance(p, p.state, Fail(p.tally, RemoteCollision))
    case PutFailed(_) => Advance(p, p.state, Fail(p.tally, RemotePut))
    case Put => p.(at := Confirm(p.at.bundle))
    case ConfirmFailed => Advance(p, p.state, Fail(p.tally, RemoteConfirm))
    case ConfirmHead =>
      if p.at.bundle.key in s.store && RemoteMatches(s.store[p.at.bundle.key], p.at.bundle)
      then p.(at := Commit(p.at.bundle))
      else Advance(p, p.state, Fail(p.tally, RemoteConfirm))
    case Save(ok, _) =>
      if ok then p.(state := Committed(p.state, p.at.bundle, p.now), at := Unlink(p.at.bundle, false)) else Idle
    case Remove =>
      Advance(p, p.state.(exports := p.state.exports - {p.at.bundle.name}), Removed(p.tally, p.at.bundle, p.at.counted))
    case RemoveFailed(_) => Advance(p, p.state, Fail(p.tally, SourceRemove))
    case RescanFailed(_) => Idle
    case Rescanned(pending, bytes) =>
      p.(state := p.state.(status := FinalStatus(p.state, p.now, p.tally, pending, bytes)), at := Publish)
    case PublishStatus(ok, _) => if ok then p.(at := Report) else Idle
    case PublishProgress(_) => Idle
    case Crash => Idle
    case _ => p
  }

  /** Confirmation records are crash markers: a run that finds too many starts with none. */
  function StartState(saved: State): State {
    if |saved.exports| > MAX_BUNDLES_PER_RUN then saved.(exports := map[]) else saved
  }

  /** A readable bundle is unlinked at once if freshly recorded, and probed otherwise. */
  function AfterRead(p: Process, bundle: Bundle): Process
    requires p.Busy?
  {
    var tally := p.tally.(sourceBytes := p.tally.sourceBytes + bundle.Bytes());
    if FreshlyRecorded(p.state.exports, bundle, p.now) then
      p.(tally := tally.(exported := tally.exported + 1, exportedBytes := tally.exportedBytes + bundle.Bytes()),
         at := Unlink(bundle, true))
    else p.(tally := tally, at := Probe(bundle))
  }

  ghost function Apply(s: Sys, a: Action): Sys
    requires Enabled(s, a)
  {
    Sys(SpoolAfter(s, a), StoreAfter(s, a), SavedAfter(s, a),
        if a == PublishProgress(true) then NewProgress(s.process) else s.progress,
        ProcessAfter(s, a),
        if a.Arrive? then s.spooled + {(a.name, a.file)} else s.spooled,
        if a.Withdraw? then s.withdrawn + {(a.name, s.spool[a.name])} else s.withdrawn)
  }

  // ---------------------------------------------------------------- invariant

  /** The store holds an object at the bundle's key with its exact size, digest and schema. */
  predicate Holds(store: Store, bundle: Bundle) {
    bundle.key in store && RemoteMatches(store[bundle.key], bundle)
  }

  /** The record names such an object. */
  predicate RecordHeld(store: Store, record: Record) {
    record.key in store && store[record.key] == Object(record.bytes, record.sha, SCHEMA)
  }

  ghost predicate RecordsHeld(store: Store, exports: Exports) {
    forall n :: n in exports ==> RecordHeld(store, exports[n])
  }

  /** A file that was spooled is still there, was withdrawn by its owner, or is exported. */
  predicate Accounted(s: Sys, name: Name, file: File) {
    || (name in s.spool && s.spool[name] == file)
    || (name, file) in s.withdrawn
    || (ReadBundle(name, file).Some? && Holds(s.store, ReadBundle(name, file).value))
  }

  ghost predicate NoLoss(s: Sys) {
    forall e :: e in s.spooled ==> Accounted(s, e.0, e.1)
  }

  ghost predicate History(s: Sys) {
    && (forall n :: n in s.spool ==> (n, s.spool[n]) in s.spooled)
    && (forall d, e :: d in s.spooled && e in s.spooled && d.1.inode == e.1.inode ==> d == e)
  }

  /** The memory of a running process: what it believes confirmed is confirmed and durable. */
  ghost predicate ProcessSound(s: Sys) {
    var p := s.process;
    && WellPlaced(p)
    && (p.Busy? ==>
      && (forall n :: n in p.state.exports ==> n in s.saved.exports && s.saved.exports[n] == p.state.exports[n])
      && (BundleAtHand(p) ==> (p.at.bundle.name, p.at.bundle.file) in s.spooled
                              && ReadBundle(p.at.bundle.name, p.at.bundle.file) == Some(p.at.bundle))
      && (p.at.Commit? || p.at.Unlink? ==> Holds(s.store, p.at.bundle))
      && (p.at.Unlink? ==> RecordedFor(p.state.exports, p.at.bundle)))
  }

  predicate BundleAtHand(p: Process) {
    p.Busy? && (p.at.Probe? || p.at.Upload? || p.at.Confirm? || p.at.Commit? || p.at.Unlink?)
  }

  predicate RecordedFor(exports: Exports, bundle: Bundle) {
    bundle.name in exports && exports[bundle.name].key == bundle.key
    && exports[bundle.name].sha == bundle.Sha() && exports[bundle.name].bytes == bundle.Bytes()
  }

  predicate StatusSound(status: Status) {
    && CountersConsistent(status)
    && 0 <= status.consecutiveFailures
    && (status.lastErrorCode != NoFailure <==> status.consecutiveFailures > 0)
  }

  /** Counters of a run: each bundle taken counts at most once as exported and at most once as failed. */
  predicate TallySound(p: Process) {
    p.Busy? ==>
      && p.tally.deleted <= p.tally.exported
      && p.tally.scanned <= MAX_BUNDLES_PER_RUN
      && |p.todo| <= p.tally.scanned
      && p.tally.exported + |p.todo| <= p.tally.scanned + (if p.at.Unlink? && p.at.counted then 1 else 0)
      && (!p.at.Rescan? && !p.at.Publish? && !p.at.Report? ==> p.tally.failed + |p.todo| <= p.tally.scanned)
      && p.tally.failed <= p.tally.scanned
      && (p.at.Unlink? ==> p.tally.deleted < p.tally.exported + (if p.at.counted then 0 else 1))
      && (p.tally.failed == 0 <==> p.tally.firstFailure == NoFailure)
      && |p.state.exports| + |p.todo| <= MAX_BUNDLES_PER_RUN + p.tally.scanned + (if p.at.Unlink? then 1 else 0)
  }

  ghost predicate Bookkeeping(s: Sys) {
    && StatusSound(s.saved.status)
    && |s.saved.exports| <= 2 * MAX_BUNDLES_PER_RUN
    && TallySound(s.process)
    && (s.process.Busy? ==> StatusSound(s.process.state.status))
    && (s.process.Busy? ==> s.process.progress == s.progress)
    && (s.progress == NO_PROGRESS || ValidProgress(s.progress))
  }

  const NO_PROGRESS := Progress(None, None, None, 0, 0, 0, 0, 0, 0)
  const NO_STATUS := Status(None, None, NoFailure, 0, 0, 0, 0, 0, 0)

  ghost predicate Inv(s: Sys) {
    NoLoss(s) && History(s) && RecordsHeld(s.store, s.saved.exports) && ProcessSound(s) && Bookkeeping(s)
  }

  /** A spool and an object store before the exporter first ran: no state files yet. */
  ghost predicate Init(s: Sys) {
    && s.saved == State(NO_STATUS, map[]) && s.progress == NO_PROGRESS && s.process.Idle?
    && s.withdrawn == {}
    && (forall n, f :: (n, f) in s.spooled <==> n in s.spool && s.spool[n] == f)
    && (forall m, n :: m in s.spool && n in s.spool && s.spool[m].inode == s.spool[n].inode ==> m == n)
  }
}
