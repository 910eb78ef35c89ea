/** `Exporter.Run` as the imperative loop it is, proved to do nothing but steps of
    the export protocol: a ghost log of the steps taken stays a legal run. */
module Exporter {
  import opened Text
  import opened Spool
  import opened Export
  import opened ExportSafety
  import opened ExportLog

  const HEAD_ATTEMPTS := 4

  datatype Flow = Continue | Break | Abort

  /** `Aborted` is an error returned before the run's own status was published. */
  datatype Outcome = Completed | CompletedWithFailures(code: Code, failed: nat) | Aborted

  /** Would the store take this bundle: it is readable and its key is free or already its own. */
  predicate Acceptable(store: Store, name: Name, file: File) {
    var b := ReadBundle(name, file);
    b.Some? && (b.value.key in store ==> RemoteMatches(store[b.value.key], b.value))
  }

  /** The store after some uploads: old objects as they were, new ones described by their own key. */
  ghost predicate Grown(before: Store, after: Store) {
    && Extends(before, after)
    && (forall k :: k in after && k !in before ==> after[k] == Object(|k.digest.preimage|, k.digest, SCHEMA))
  }

  lemma AcceptableStable(before: Store, after: Store, name: Name, file: File)
    requires Grown(before, after)
    ensures Acceptable(before, name, file) <==> Acceptable(after, name, file)
  {
  }

  /** A fresh installation. */
  type Origin = s: Sys | Init(s)
    ghost witness Sys(map[], map[], State(NO_STATUS, map[]), NO_PROGRESS, Idle, {}, {})

  /** The bundle would leave the spool: it is there and the store would take it. */
  predicate Leaves(spool: Directory, store: Store, name: Name) {
    name in spool && Acceptable(store, name, spool[name])
  }

  predicate SameButFailures(before: Tally, after: Tally) {
    after.scanned == before.scanned && after.exported == before.exported && after.deleted == before.deleted
  }

  /** One more name was dealt with: removed and exported, or failed. */
  predicate OneMore(before: Tally, after: Tally, left: bool) {
    && after.scanned == before.scanned
    && after.deleted == before.deleted + (if left then 1 else 0)
    && after.exported == before.exported + (if left then 1 else 0)
    && after.failed == before.failed + (if left then 0 else 1)
  }

  /** How many of the names would leave. */
  function Leaving(spool: Directory, store: Store, names: seq<Name>): nat {
    if names == [] then 0
    else Leaving(spool, store, names[..|names| - 1]) + if Leaves(spool, store, names[|names| - 1]) then 1 else 0
  }

  /** After `i` names of a calm run: every one that leaves was removed and exported, every
      other failed. */
  ghost predicate Balanced(t: Tally, names: seq<Name>, spool: Directory, store: Store, i: nat) {
    i <= |names| == t.scanned && t.deleted == t.exported == Leaving(spool, store, names[..i]) && t.failed == i - t.deleted
  }

  /** What a run that was not aborted leaves to be read, and how it ends. */
  predicate Publishes(status: Status, progress: Progress, now: int, t: Tally) {
    && status.observedAt == Some(now) && progress.observedAt == Some(now)
    && status.exportedBundles == progress.exported == t.exported && status.exportedBytes == t.exportedBytes
    && progress.scanned == t.scanned && progress.deleted == t.deleted && progress.failed == t.failed
    && status.pendingBundles == status.sourceBundles == progress.backlogBundles && status.sourceBytes == progress.backlogBytes
    && status.lastErrorCode == t.firstFailure && (t.failed == 0 <==> status.lastErrorCode == NoFailure)
  }

  function OutcomeOf(t: Tally): Outcome {
    if t.failed == 0 then Completed else CompletedWithFailures(t.firstFailure, t.failed)
  }

  function Verdict(code: Code, t: Tally): Outcome {
    if code != NoFailure then CompletedWithFailures(code, t.failed) else Completed
  }

  /** The loop is over and the counters are as given. */
  ghost predicate AtEnd(p: Process, now: int, state: State, progress: Progress, tally: Tally) {
    p.Busy? && p.at == Rescan && p.now == now && p.state == state && p.progress == progress && p.tally == tally
  }

  class Exporter {
    var spool: Directory
    var store: Store
    var saved: State
    var progress: Progress
    /** During this run no operation fails and nothing else touches the spool or the store. */
    var healthy: bool
    /** The file system never hands out an inode number twice. */
    var nextInode: nat
    ghost const origin: Origin
    ghost var sys: Sys
    ghost var trace: seq<Sys>
    ghost var log: seq<Action>

    ghost predicate Linked()
      reads this
    {
      && Steps(trace, log) && trace[0] == origin && sys == trace[|log|]
      && forall e :: e in sys.spooled ==> e.1.inode < nextInode
    }

    ghost predicate Valid()
      reads this
    {
      Linked() && sys.spool == spool && sys.store == store && sys.saved == saved && sys.progress == progress
    }

    constructor (spool: Directory, store: Store, nextInode: nat)
      requires forall m, n :: m in spool && n in spool && spool[m].inode == spool[n].inode ==> m == n
      requires forall n :: n in spool ==> spool[n].inode < nextInode
      ensures Valid() && sys.process.Idle? && log == []
      ensures this.spool == spool && this.store == store
    {
      this.spool, this.store, this.nextInode, healthy := spool, store, nextInode, false;
      saved, progress, log := State(NO_STATUS, map[]), NO_PROGRESS, [];
      var files := set n | n in spool :: (n, spool[n]);
      sys := Sys(spool, store, State(NO_STATUS, map[]), NO_PROGRESS, Idle, files, {});
      origin, trace := sys, [sys];
    }

    /** The exporter as the next process finds it after `earlier` was killed following the
        first `n` steps of its life, wherever in a run that was. */
    constructor Recover(ghost earlier: Exporter, ghost n: nat,
                        spool: Directory, store: Store, saved: State, progress: Progress, nextInode: nat)
      requires earlier.Linked() && n <= |earlier.log|
      requires earlier.trace[n].spool == spool && earlier.trace[n].store == store
      requires earlier.trace[n].saved == saved && earlier.trace[n].progress == progress
      requires forall e :: e in earlier.trace[n].spooled ==> e.1.inode < nextInode
      ensures Valid() && sys.process.Idle? && log == earlier.log[..n] + [Crash]
      ensures this.spool == spool && this.store == store && this.saved == saved && this.progress == progress
    {
      this.spool, this.store, this.nextInode, healthy := spool, store, nextInode, false;
      this.saved, this.progress := saved, progress;
      EveryPointIsSafe(earlier.trace, earlier.log, n);
      StepsPrefix(earlier.trace, earlier.log, n);
      StepsSnoc(earlier.trace[..n + 1], earlier.log[..n], Crash);
      origin := earlier.origin;
      sys, log := Apply(earlier.trace[n], Crash), earlier.log[..n] + [Crash];
      trace := earlier.trace[..n + 1] + [Apply(earlier.trace[n], Crash)];
    }

    /** Records one protocol step. */
    ghost method Step(a: Action)
      requires Linked() && Enabled(sys, a) && (a.Arrive? ==> a.file.inode < nextInode)
      modifies `sys, `log, `trace
      ensures Linked()
      ensures sys == Apply(old(sys), a) && log == old(log) + [a]
    {
      StepsSnoc(trace, log, a);
      sys, log := Apply(sys, a), log + [a];
      trace := trace + [sys];
    }

    method Arrival(name: Name, content: string, modTime: int, safe: bool, scope: Option<string>)
      requires Valid() && WellPlaced(sys.process) && name !in spool
      modifies this
      ensures healthy == old(healthy)
      ensures Valid() && old(log) <= log && sys.process == old(sys.process)
      ensures saved == old(saved) && progress == old(progress)
    {
      var file := File(nextInode, content, modTime, safe, scope);
      nextInode := nextInode + 1;
      Step(Arrive(name, file));
      spool := spool[name := file];
    }

    /** Other processes may add or take bundles and fill free keys at any moment. */
    method Interfere()
      requires Valid() && WellPlaced(sys.process)
      modifies this
      ensures healthy == old(healthy)
      ensures Valid() && old(log) <= log && sys.process == old(sys.process)
      ensures healthy ==> spool == old(spool) && store == old(store)
      ensures saved == old(saved) && progress == old(progress)
    {
      if healthy { return; }
      var events: int := *;
      while events > 0
        invariant Valid() && old(log) <= log && sys.process == old(sys.process) && healthy == old(healthy)
        invariant saved == old(saved) && progress == old(progress)
      {
        events := events - 1;
        var kind: int := *;
        var name: Name := *;
        if kind == 0 && name !in spool {
          var content: string, modTime: int, safe: bool, scope: Option<string> := *, *, *, *;
          Arrival(name, content, modTime, safe, scope);
        } else if kind == 1 && name in spool {
          Step(Withdraw(name));
          spool := spool - {name};
        } else {
          var key: Key, item: Object := *, *;
          if key !in store {
            Step(ForeignPut(key, item));
            store := store[key := item];
          }
        }
      }
    }

    /** One directory pass in whatever order the file system gives. */
    method ReadDir() returns (order: seq<Name>)
      ensures Enumerates(order, spool)
    {
      order := [];
      var rest := spool.Keys;
      while rest != {}
        invariant rest <= spool.Keys
        invariant forall n :: n in spool <==> n in rest || n in order
        invariant forall n :: n in order ==> n !in rest
        invariant forall i, j :: 0 <= i < j < |order| ==> order[i] != order[j]
        decreases rest
      {
        var n :| n in rest;
        rest, order := rest - {n}, order + [n];
      }
    }

    /** `head`: up to four attempts; an answer is what the store holds now. It gives up only
        when it is cancelled or after the fourth. */
    method Head(key: Key) returns (ok: bool, answer: Option<Object>, ghost tried: nat, ghost cancelled: bool)
      ensures ok ==> answer == if key in store then Some(store[key]) else None
      ensures healthy ==> ok
      ensures 1 <= tried <= 4 && (!ok && !cancelled ==> tried == 4)
    {
      ok, answer, tried, cancelled := false, None, 0, false;
      var attempt := 1;
      while attempt <= HEAD_ATTEMPTS
        invariant 1 <= attempt <= HEAD_ATTEMPTS + 1 && tried == attempt - 1 && !cancelled && !ok
        invariant !healthy || attempt == 1
      {
        var answered: bool, stopped: bool := *, *;
        tried := tried + 1;
        if healthy || answered {
          return true, if key in store then Some(store[key]) else None, tried, false;
        }
        if stopped {
          return false, None, tried, true;
        }
        attempt := attempt + 1;
      }
    }

    /** The unlink of a recorded bundle and the end of its turn. */
    method RemoveBundle(b: Bundle, counted: bool, ghost p: Process, state: State, tally: Tally)
      returns (state': State, tally': Tally)
      requires Valid() && sys.process == p && WellPlaced(p)
      requires p.Busy? && p.at == Unlink(b, counted) && p.state == state && p.tally == tally
      modifies this
      ensures healthy == old(healthy)
      ensures Valid() && old(log) <= log && saved == old(saved) && progress == old(progress)
      ensures sys.process == Advance(p, state', tally')
      ensures healthy ==> store == old(store) && spool == if old(SameInode(spool, b)) then old(spool) - {b.name} else old(spool)
      ensures healthy && old(SameInode(spool, b)) ==> tally' == Removed(tally, b, counted)
    {
      Interfere();
      state', tally' := state, Fail(tally, SourceRemove);
      if b.name in spool && spool[b.name].inode == b.file.inode {
        var unlinked: bool, synced: bool := *, *;
        if healthy || (unlinked && synced) {
          Step(Remove);
          spool := spool - {b.name};
          state', tally' := state.(exports := state.exports - {b.name}), Removed(tally, b, counted);
          return;
        }
        if unlinked {
          Step(RemoveFailed(true));
          spool := spool - {b.name};
          return;
        }
      }
      Step(RemoveFailed(false));
    }

    /** Persist the confirmation, then unlink. */
    method CommitBundle(b: Bundle, ghost p: Process, now: int, state: State, tally: Tally)
      returns (flow: Flow, state': State, tally': Tally)
      requires Valid() && sys.process == p && WellPlaced(p)
      requires p.Busy? && p.at == Commit(b) && p.now == now && p.state == state && p.tally == tally
      modifies this
      ensures healthy == old(healthy)
      ensures Valid() && old(log) <= log && progress == old(progress)
      ensures flow == Abort ==> sys.process.Idle?
      ensures flow == Continue ==> sys.process == Advance(p, state', tally')
      ensures flow != Break && (healthy ==> flow == Continue)
      ensures healthy ==> store == old(store) && spool == if old(SameInode(spool, b)) then old(spool) - {b.name} else old(spool)
      ensures healthy && old(SameInode(spool, b)) ==> tally' == Removed(tally, b, false)
    {
      Interfere();
      state', tally' := Committed(state, b, now), tally;
      var ok: bool, written: bool := *, *;
      if healthy || ok {
        Step(Save(true, true));
        saved := state';
      } else {
        Step(Save(false, written));
        if written { saved := state'; }
        return Abort, state', tally';
      }
      state', tally' := RemoveBundle(b, false, sys.process, state', tally');
      flow := Continue;
    }

    /** Ask the store, upload if the key is free, and confirm. */
    method ConfirmRemote(b: Bundle, ghost p: Process, tally: Tally)
      returns (flow: Flow, confirmed: bool, tally': Tally)
      requires Valid() && sys.process == p && WellPlaced(p)
      requires p.Busy? && p.at == Probe(b) && p.tally == tally
      requires ReadBundle(b.name, b.file) == Some(b)
      modifies this
      ensures healthy == old(healthy)
      ensures Valid() && old(log) <= log && saved == old(saved) && progress == old(progress)
      ensures confirmed ==> flow == Continue && tally' == tally && sys.process == p.(at := Commit(b))
      ensures flow == Continue && !confirmed ==> sys.process == Advance(p, p.state, tally')
      ensures flow == Break ==> sys.process == Export.Break(p, tally')
      ensures flow != Abort && (healthy ==> flow == Continue)
      ensures healthy ==> spool == old(spool) && Grown(old(store), store)
      ensures healthy ==> (confirmed <==> Acceptable(old(store), b.name, b.file))
      ensures healthy && !confirmed ==> tally'.failed == tally.failed + 1 && SameButFailures(tally, tally')
    {
      Interfere();
      flow, confirmed, tally' := Continue, false, tally;
      var ok, answer, _, _ := Head(b.key);
      if !ok {
        Step(HeadFailed);
        return Break, false, Fail(tally, RemoteHead);
      }
      Step(Action.Head);
      if answer.Some? {
        if RemoteMatches(answer.value, b) {
          return Continue, true, tally;
        }
        return Continue, false, Fail(tally, RemoteCollision);
      }
      confirmed, tally' := UploadBundle(b, sys.process, tally);
    }

    method UploadBundle(b: Bundle, ghost p: Process, tally: Tally) returns (confirmed: bool, tally': Tally)
      requires Valid() && sys.process == p && WellPlaced(p)
      requires p.Busy? && p.at == Upload(b) && p.tally == tally
      requires ReadBundle(b.name, b.file) == Some(b)
      requires healthy ==> b.key !in store
      modifies this
      ensures healthy == old(healthy)
      ensures Valid() && old(log) <= log && saved == old(saved) && progress == old(progress)
      ensures confirmed ==> tally' == tally && sys.process == p.(at := Commit(b))
      ensures !confirmed ==> sys.process == Advance(p, p.state, tally')
      ensures healthy ==> confirmed && spool == old(spool) && Grown(old(store), store)
    {
      Interfere();
      var accepted: bool, took: bool := *, *;
      if healthy || accepted {
        Step(Put);
        store := PutIfAbsent(store, b);
        confirmed, tally' := ConfirmUpload(b, sys.process, tally);
      } else {
        Step(PutFailed(took));
        if took { store := PutIfAbsent(store, b); }
        return false, Fail(tally, RemotePut);
      }
    }

    method ConfirmUpload(b: Bundle, ghost p: Process, tally: Tally) returns (confirmed: bool, tally': Tally)
      requires Valid() && sys.process == p && WellPlaced(p)
      requires p.Busy? && p.at == Confirm(b) && p.tally == tally
      modifies this
      ensures healthy == old(healthy)
      ensures Valid() && old(log) <= log && saved == old(saved) && progress == old(progress)
      ensures confirmed ==> tally' == tally && sys.process == p.(at := Commit(b))
      ensures !confirmed ==> sys.process == Advance(p, p.state, tally')
      ensures healthy ==> (confirmed <==> Holds(store, b)) && spool == old(spool) && store == old(store)
    {
      Interfere();
      var ok, answer, _, _ := Head(b.key);
      if !ok {
        Step(ConfirmFailed);
        return false, Fail(tally, RemoteConfirm);
      }
      Step(ConfirmHead);
      if answer.Some? && RemoteMatches(answer.value, b) {
        return true, tally;
      }
      return false, Fail(tally, RemoteConfirm);
    }

    /** One turn of the drain loop. */
    method ExportNext(name: Name, ghost p: Process, now: int, state: State, tally: Tally)
      returns (flow: Flow, state': State, tally': Tally)
      requires Valid() && sys.process == p && p.Busy? && p.at == Next && p.todo != [] && p.todo[0] == name
      requires p.now == now && p.state == state && p.tally == tally
      modifies this
      ensures healthy == old(healthy)
      ensures Valid() && old(log) <= log && progress == old(progress)
      ensures flow == Abort ==> sys.process.Idle?
      ensures flow == Break ==> sys.process == Export.Break(p, tally') && state' == state
      ensures flow == Continue ==> sys.process == Advance(p, state', tally')
      ensures healthy ==> flow == Continue && Grown(old(store), store) && spool == old(DrainedOne(spool, store, name))
      ensures healthy ==> OneMore(tally, tally', old(Leaves(spool, store, name)))
    {
      flow, state', tally' := Continue, state, tally;
      var read := ReadNext(name, p);
      if read.None? {
        return Continue, state, Fail(tally, BundleVerify);
      }
      var b := read.value;
      tally' := tally.(sourceBytes := tally.sourceBytes + b.Bytes());
      if FreshlyRecorded(state.exports, b, now) {
        state', tally' := UnlinkRecorded(b, sys.process, state, tally');
      } else {
        flow, state', tally' := ExportBundle(b, sys.process, now, state, tally');
      }
    }

    /** The bundle at hand, if it can be read. */
    method ReadNext(name: Name, ghost p: Process) returns (read: Option<Bundle>)
      requires Valid() && sys.process == p && p.Busy? && p.at == Next && p.todo != [] && p.todo[0] == name
      modifies this`sys, this`log, this`trace
      ensures Valid() && old(log) <= log
      ensures read.None? ==> sys.process == Advance(p, p.state, Fail(p.tally, BundleVerify))
      ensures read.Some? ==> name in spool && ReadBundle(name, spool[name]) == read && sys.process == AfterRead(p, read.value)
      ensures read.Some? ==> WellPlaced(sys.process)
      ensures healthy && read.None? ==> !Leaves(spool, store, name)
    {
      var unreadable: bool := *;
      read := if name in spool then ReadBundle(name, spool[name]) else None;
      if read.None? || (unreadable && !healthy) {
        Step(Unreadable);
        return None;
      }
      Step(Action.Read);
    }

    /** A freshly recorded bundle counts as exported and is unlinked at once. */
    method UnlinkRecorded(b: Bundle, ghost p: Process, state: State, tally: Tally) returns (state': State, tally': Tally)
      requires Valid() && sys.process == p && WellPlaced(p) && p.Busy? && p.at == Unlink(b, true) && p.state == state
      requires p.tally == tally.(exported := tally.exported + 1, exportedBytes := tally.exportedBytes + b.Bytes())
      requires SameInode(spool, b) && ReadBundle(b.name, spool[b.name]) == Some(b)
      modifies this
      ensures healthy == old(healthy)
      ensures Valid() && old(log) <= log && progress == old(progress)
      ensures sys.process == Advance(p, state', tally')
      ensures healthy ==> store == old(store) && spool == old(DrainedOne(spool, store, b.name)) && old(Leaves(spool, store, b.name))
      ensures healthy ==> OneMore(tally, tally', true)
    {
      HeldAtUnlink();
      tally' := tally.(exported := tally.exported + 1, exportedBytes := tally.exportedBytes + b.Bytes());
      state', tally' := RemoveBundle(b, true, p, state, tally');
    }

    /** At the unlink the store holds the bundle, whichever way the run got there. */
    lemma HeldAtUnlink()
      requires Valid() && sys.process.Busy? && sys.process.at.Unlink?
      ensures Holds(store, sys.process.at.bundle)
    {
      EveryPointIsSafe(trace, log, |log|);
    }

    method ExportBundle(b: Bundle, ghost p: Process, now: int, state: State, tally: Tally)
      returns (flow: Flow, state': State, tally': Tally)
      requires Valid() && sys.process == p && WellPlaced(p)
      requires p.Busy? && p.at == Probe(b) && p.now == now && p.state == state && p.tally == tally
      requires b.name in spool && spool[b.name] == b.file && ReadBundle(b.name, b.file) == Some(b)
      modifies this
      ensures healthy == old(healthy)
      ensures Valid() && old(log) <= log && progress == old(progress)
      ensures flow == Abort ==> sys.process.Idle?
      ensures flow == Break ==> sys.process == Export.Break(p, tally') && state' == state
      ensures flow == Continue ==> sys.process == Advance(p, state', tally')
      ensures healthy ==> flow == Continue && Grown(old(store), store) && spool == old(DrainedOne(spool, store, b.name))
      ensures healthy ==> OneMore(tally, tally', old(Leaves(spool, store, b.name)))
    {
      var confirmed;
      flow, confirmed, tally' := ConfirmRemote(b, sys.process, tally);
      state' := state;
      if confirmed {
        flow, state', tally' := CommitBundle(b, sys.process, now, state, tally');
      }
    }

    /** One turn of the loop: a cancelled context ends it, otherwise the next bundle is taken. */
    method NextUnlessCancelled(name: Name, ghost p: Process, now: int, state: State, tally: Tally)
      returns (flow: Flow, state': State, tally': Tally)
      requires Valid() && sys.process == p && p.Busy? && p.at == Next && p.todo != [] && p.todo[0] == name
      requires p.now == now && p.state == state && p.tally == tally
      modifies this
      ensures healthy == old(healthy)
      ensures Valid() && old(log) <= log && progress == old(progress)
      ensures flow == Abort ==> sys.process.Idle?
      ensures flow == Break ==> sys.process == Export.Break(p, tally') && state' == state
      ensures flow == Continue ==> sys.process == Advance(p, state', tally')
      ensures healthy ==> flow == Continue && Grown(old(store), store) && spool == old(DrainedOne(spool, store, name))
      ensures healthy ==> OneMore(tally, tally', old(Leaves(spool, store, name)))
    {
      Interfere();
      var cancelled: bool := *;
      if cancelled && !healthy {
        Step(Cancel);
        return Break, state, Fail(tally, Cancelled);
      }
      flow, state', tally' := ExportNext(name, p, now, state, tally);
    }

    /** The drain loop over the batch. */
    method DrainBatch(names: seq<Name>, ghost p: Process, now: int, state: State)
      returns (flow: Flow, state': State, tally: Tally)
      requires Valid() && sys.process == p && p.Busy? && p.todo == names && p.now == now && p.state == state
      requires p.tally == Tally(|names|, 0, 0, 0, 0, 0, NoFailure) && p.at == if names == [] then Rescan else Next
      requires forall i, j :: 0 <= i < j < |names| ==> names[i] != names[j]
      modifies this
      ensures healthy == old(healthy)
      ensures Valid() && old(log) <= log && progress == old(progress)
      ensures flow == Abort ==> sys.process.Idle?
      ensures flow != Abort ==> AtEnd(sys.process, now, state', p.progress, tally)
      ensures healthy ==> flow != Abort && Grown(old(store), store)
                          && spool == old(Drained(spool, store, Elements(names)))
      ensures healthy ==> Balanced(tally, names, old(spool), old(store), |names|)
    {
      flow, state', tally := Continue, state, Tally(|names|, 0, 0, 0, 0, 0, NoFailure);
      var i := 0;
      assert names[0..] == names;
      while i < |names|
        invariant 0 <= i <= |names| && flow == Continue && Valid() && healthy == old(healthy) && old(log) <= log && progress == old(progress)
        invariant Draining(names, i, now, state', p.progress, tally, old(spool), old(store))
      {
        flow, state', tally := DrainTurn(names, i, now, state', p.progress, tally, old(spool), old(store));
        if flow != Continue {
          break;
        }
        i := i + 1;
      }
      assert names[..|names|] == names;
    }

    /** Where the loop is after `i` names, and in a calm run what it has done. */
    ghost predicate Draining(names: seq<Name>, i: nat, now: int, state: State, prog: Progress, tally: Tally, spool0: Directory, store0: Store)
      reads this
    {
      && i <= |names|
      && sys.process == Busy(now, state, prog, names[i..], tally, if i == |names| then Rescan else Next)
      && (healthy ==> DrainedUpTo(spool0, store0, spool, store, names, i, tally))
    }

    /** One turn of the loop, and where it leads. */
    method DrainTurn(names: seq<Name>, i: nat, now: int, state: State, ghost prog: Progress, tally: Tally,
                     ghost spool0: Directory, ghost store0: Store) returns (flow: Flow, state': State, tally': Tally)
      requires Valid() && i < |names| && Draining(names, i, now, state, prog, tally, spool0, store0)
      requires forall i, j :: 0 <= i < j < |names| ==> names[i] != names[j]
      modifies this
      ensures healthy == old(healthy)
      ensures Valid() && old(log) <= log && progress == old(progress)
      ensures flow == Abort ==> sys.process.Idle?
      ensures flow == Break ==> AtEnd(sys.process, now, state', prog, tally')
      ensures flow == Continue ==> Draining(names, i + 1, now, state', prog, tally', spool0, store0)
      ensures healthy ==> flow == Continue
    {
      ghost var before, there, p := store, spool, sys.process;
      flow, state', tally' := NextUnlessCancelled(names[i], p, now, state, tally);
      if flow == Continue {
        AdvanceNext(p, names, i, state', tally');
        if healthy { DrainedMore(spool0, store0, there, before, spool, store, names, i, tally, tally'); }
      }
    }

    /** The second listing, for its totals only. */
    method CountSpool() returns (pending: nat, bytes: nat)
      ensures pending == |spool| && IsSize(spool, bytes)
    {
      var order := ReadDir();
      var _, total, totalBytes := ListBundleBatch(spool, order, 1);
      pending, bytes := total, totalBytes;
    }

    /** Count what is left, publish the status, then report progress. */
    method PublishRun(ghost p: Process, now: int, state: State, prog: Progress, tally: Tally)
      returns (summary: Tally, outcome: Outcome)
      requires Valid() && sys.process == p && p.Busy? && p.at == Rescan
      requires p.now == now && p.state == state && p.progress == prog && p.tally == tally
      modifies this
      ensures healthy == old(healthy)
      ensures Valid() && old(log) <= log && sys.process.Idle?
      ensures healthy ==> spool == old(spool) && store == old(store)
      ensures summary == tally
      ensures !outcome.Aborted? ==> Publishes(saved.status, progress, now, tally) && outcome == OutcomeOf(tally)
      ensures healthy && outcome.Aborted? ==> !NotAfter(prog.lastProgressAt, now) || !NotAfter(prog.lastFullSyncAt, now)
    {
      TallyIsSound();
      Interfere();
      summary := tally;
      var listed: bool := *;
      if !listed && !healthy {
        RescanFails(p, now, state, tally);
        return summary, Aborted;
      }
      var pending, bytes := CountSpool();
      Step(Rescanned(pending, bytes));
      var final := state.(status := FinalStatus(state, now, tally, pending, bytes));
      outcome := SaveStatus(sys.process, FinalProgress(prog, now, tally, pending, bytes), final, tally);
    }

    /** The second listing failed: a failure status is written, or not, and the run is over. */
    method RescanFails(ghost p: Process, now: int, state: State, tally: Tally)
      requires Valid() && sys.process == p && p.Busy? && p.at == Rescan
      requires p.now == now && p.state == state && p.tally == tally
      modifies this
      ensures healthy == old(healthy)
      ensures Valid() && old(log) <= log && sys.process.Idle?
    {
      var written: bool := *;
      Step(RescanFailed(written));
      if written { saved := state.(status := FailureStatus(state, now, tally, SourceRescan)); }
    }

    method SaveStatus(ghost p: Process, next: Progress, final: State, tally: Tally) returns (outcome: Outcome)
      requires Valid() && sys.process == p && p.Busy? && p.at == Publish && p.state == final && next == NewProgress(p)
      modifies this
      ensures healthy == old(healthy)
      ensures Valid() && old(log) <= log && sys.process.Idle?
      ensures spool == old(spool) && store == old(store)
      ensures !outcome.Aborted? ==> saved == final && progress == next && outcome == Verdict(final.status.lastErrorCode, tally)
      ensures healthy && outcome.Aborted? ==> !NotAfter(p.progress.lastProgressAt, p.now) || !NotAfter(p.progress.lastFullSyncAt, p.now)
    {
      var ok: bool, written: bool := *, *;
      if healthy { ok := true; }
      Step(PublishStatus(ok, ok || written));
      if ok || written { saved := final; }
      if !ok {
        return Aborted;
      }
      outcome := ReportProgress(sys.process, next, final, tally);
    }

    method ReportProgress(ghost p: Process, next: Progress, final: State, tally: Tally) returns (outcome: Outcome)
      requires Valid() && sys.process == p && p.Busy? && p.at == Report && p.state == final && next == NewProgress(p)
      modifies this
      ensures healthy == old(healthy)
      ensures Valid() && old(log) <= log && sys.process.Idle?
      ensures spool == old(spool) && store == old(store) && saved == old(saved)
      ensures !outcome.Aborted? ==> progress == next && outcome == Verdict(final.status.lastErrorCode, tally)
      ensures healthy && outcome.Aborted? ==> !NotAfter(p.progress.lastProgressAt, p.now) || !NotAfter(p.progress.lastFullSyncAt, p.now)
    {
      OnlyTimesInvalidate();
      var ok: bool, written: bool := *, *;
      if !ValidProgress(next) {
        ok, written := false, false;
      } else if ok || healthy {
        ok, written := true, true;
      }
      Step(PublishProgress(written));
      if written { progress := next; }
      return if ok then Verdict(final.status.lastErrorCode, tally) else Aborted;
    }

    /** The counters of a running process are sound, and at its report only kept times that
        lie in the future can be wrong. */
    lemma TallyIsSound()
      requires Valid() && sys.process.Busy?
      ensures TallySound(sys.process)
    {
      EveryPointIsSafe(trace, log, |log|);
    }

    lemma OnlyTimesInvalidate()
      requires Valid() && sys.process.Busy? && sys.process.at == Report
      ensures NotAfter(sys.process.progress.lastProgressAt, sys.process.now) && NotAfter(sys.process.progress.lastFullSyncAt, sys.process.now)
              ==> ValidProgress(NewProgress(sys.process))
    {
      EveryPointIsSafe(trace, log, |log|);
    }

    /** The first listing; a failure here publishes a failure status and ends the run. */
    method StartRun(now: int) returns (started: bool, names: seq<Name>)
      requires Valid() && sys.process.Idle?
      modifies this
      ensures healthy == old(healthy)
      ensures Valid() && old(log) <= log && progress == old(progress)
      ensures started ==> saved == old(saved) && IsBatch(names, spool, MAX_BUNDLES_PER_RUN) && sys.process.Busy?
      ensures started ==> sys.process == Busy(now, StartState(saved), progress, names, Tally(|names|, 0, 0, 0, 0, 0, NoFailure),
                                              if names == [] then Rescan else Next)
      ensures !started ==> sys.process.Idle?
      ensures healthy ==> started && spool == old(spool) && store == old(store)
    {
      Interfere();
      var order := ReadDir();
      var listed: bool, written: bool := *, *;
      if !listed && !healthy {
        Step(ListFailed(now, written));
        if written {
          saved := saved.(status := FailureStatus(saved, now, Tally(0, 0, 0, 0, 0, 0, NoFailure), SourceList));
        }
        return false, [];
      }
      var batch, _, _ := ListBundleBatch(spool, order, MAX_BUNDLES_PER_RUN);
      started, names := true, batch;
      Step(Begin(now, names));
    }

    /** `Exporter.Run`.  Its effects are steps of the protocol; in a calm run, when nothing
        fails, it removes exactly the acceptable bundles of the oldest batch. */
    method Run(now: int, calm: bool) returns (summary: Tally, outcome: Outcome, ghost batch: seq<Name>)
      requires Valid() && sys.process.Idle?
      modifies this
      ensures Valid() && old(log) <= log && sys.process.Idle?
      ensures !outcome.Aborted? ==> Publishes(saved.status, progress, now, summary) && outcome == OutcomeOf(summary)
      ensures calm && outcome.Aborted? ==> !NotAfter(old(progress.lastProgressAt), now) || !NotAfter(old(progress.lastFullSyncAt), now)
      ensures calm && !outcome.Aborted? ==> (outcome.Completed? <==> forall n :: n in batch ==> old(Leaves(spool, store, n)))
      ensures calm ==> Balanced(summary, batch, old(spool), old(store), |batch|)
      ensures calm ==> IsBatch(batch, old(spool), MAX_BUNDLES_PER_RUN)
      ensures calm ==> spool == old(Drained(spool, store, Elements(batch)))
      ensures calm ==> Grown(old(store), store)
    {
      healthy := calm;
      var started, names := StartRun(now);
      batch := names;
      LeavingAll(old(spool), old(store), names);
      assert names[..|names|] == names;
      if !started {
        return Tally(0, 0, 0, 0, 0, 0, NoFailure), Aborted, [];
      }
      summary, outcome := Work(names, sys.process, now);
    }

    /** The run once it has its batch: drain it, then publish. */
    method Work(names: seq<Name>, ghost p: Process, now: int) returns (summary: Tally, outcome: Outcome)
      requires Valid() && IsBatch(names, spool, MAX_BUNDLES_PER_RUN) && sys.process == p
      requires p == Busy(now, StartState(saved), progress, names, Tally(|names|, 0, 0, 0, 0, 0, NoFailure), if names == [] then Rescan else Next)
      modifies this
      ensures healthy == old(healthy)
      ensures Valid() && old(log) <= log && sys.process.Idle?
      ensures !outcome.Aborted? ==> Publishes(saved.status, progress, now, summary) && outcome == OutcomeOf(summary)
      ensures healthy && outcome.Aborted? ==> !NotAfter(old(progress.lastProgressAt), now) || !NotAfter(old(progress.lastFullSyncAt), now)
      ensures healthy ==> Balanced(summary, names, old(spool), old(store), |names|)
      ensures healthy ==> spool == old(Drained(spool, store, Elements(names))) && Grown(old(store), store)
    {
      var prog := progress;
      var state := saved;
      if |state.exports| > MAX_BUNDLES_PER_RUN {
        state := state.(exports := map[]);
      }
      BatchDistinct(names, spool, MAX_BUNDLES_PER_RUN);
      var flow, tally;
      flow, state, tally := DrainBatch(names, p, now, state);
      if flow == Abort {
        return tally, Aborted;
      }
      summary, outcome := PublishRun(sys.process, now, state, prog, tally);
    }

    /** At any time the files for others to read say what the log of all runs says; in particular
        the last success is the last published run without a failure and with an empty spool. */
    ghost predicate Told()
      reads this
      requires Valid()
    {
      && saved.status == ViewAt(trace, log, |log|).status && progress == ViewAt(trace, log, |log|).progress
      && LastSuccess(trace, log, |log|, saved.status.lastSuccessAt)
    }

    lemma WhatIsTold()
      requires Valid()
      ensures Told()
    {
      PublishedIsLogged(trace, log, |log|);
      LastSuccessIsTrue(trace, log, |log|);
    }
  }

  lemma {:induction false} LeavingAll(spool: Directory, store: Store, names: seq<Name>)
    ensures Leaving(spool, store, names) <= |names|
    ensures Leaving(spool, store, names) == |names| <==> forall n :: n in names ==> Leaves(spool, store, n)
  {
    if names != [] {
      var front, last := names[..|names| - 1], names[|names| - 1];
      LeavingAll(spool, store, front);
      AllOrLast(spool, store, names, front, last);
    }
  }

  lemma AllOrLast(spool: Directory, store: Store, names: seq<Name>, front: seq<Name>, last: Name)
    requires names == front + [last]
    ensures (forall n :: n in names ==> Leaves(spool, store, n)) <==> (forall n :: n in front ==> Leaves(spool, store, n)) && Leaves(spool, store, last)
  {
    assert last in names && forall n :: n in front ==> n in names;
  }

  /** The work list of the loop after one more name. */
  lemma AdvanceNext(p: Process, names: seq<Name>, i: nat, state: State, tally: Tally)
    requires i < |names| && p.Busy? && p.todo == names[i..]
    ensures Advance(p, state, tally) ==
            Busy(p.now, state, p.progress, names[i + 1..], tally, if i + 1 == |names| then Rescan else Next)
  {
    assert names[i..][1..] == names[i + 1..];
  }

  lemma BatchDistinct(names: seq<Name>, dir: Directory, limit: nat)
    requires IsBatch(names, dir, limit)
    ensures forall i, j :: 0 <= i < j < |names| ==> names[i] != names[j]
  {
    forall i, j | 0 <= i < j < |names| ensures names[i] != names[j] {
      LessIrreflexive(names[i]);
    }
  }

  lemma GrownTransitive(a: Store, b: Store, c: Store)
    requires Grown(a, b) && Grown(b, c)
    ensures Grown(a, c)
  {
    forall k | k in a ensures k in c && c[k] == a[k] { assert k in b; }
  }

  /** Draining one more name of a batch. */
  lemma DrainedNext(spool: Directory, store: Store, later: Store, names: seq<Name>, i: nat)
    requires i < |names| && Grown(store, later)
    requires forall i, j :: 0 <= i < j < |names| ==> names[i] != names[j]
    ensures DrainedOne(Drained(spool, store, Elements(names[..i])), later, names[i])
         == Drained(spool, store, Elements(names[..i + 1]))
  {
    var name := names[i];
    assert names[..i + 1] == names[..i] + [name];
    assert name !in names[..i];
    if name in spool { AcceptableStable(store, later, name, spool[name]); }
    assert Elements(names[..i + 1]) == Elements(names[..i]) + {name};
  }

  /** What one turn does to the balance, judged by what was there at the start. */
  lemma BalancedMore(before: Tally, after: Tally, names: seq<Name>, spool: Directory, store: Store, later: Store, i: nat)
    requires i < |names| && Grown(store, later) && Balanced(before, names, spool, store, i)
    requires forall i, j :: 0 <= i < j < |names| ==> names[i] != names[j]
    requires OneMore(before, after, Leaves(Drained(spool, store, Elements(names[..i])), later, names[i]))
    ensures Balanced(after, names, spool, store, i + 1)
  {
    var name := names[i];
    assert names[..i + 1][..i] == names[..i] && name !in names[..i];
    if name in spool { AcceptableStable(store, later, name, spool[name]); }
  }

  /** The state of a calm drain loop after `i` names. */
  ghost predicate DrainedUpTo(spool0: Directory, store0: Store, spool: Directory, store: Store, names: seq<Name>, i: nat, tally: Tally) {
    i <= |names| && Grown(store0, store) && spool == Drained(spool0, store0, Elements(names[..i])) && Balanced(tally, names, spool0, store0, i)
  }

  lemma DrainedMore(spool0: Directory, store0: Store, spool: Directory, store: Store, spool': Directory, store': Store,
                    names: seq<Name>, i: nat, tally: Tally, tally': Tally)
    requires i < |names| && DrainedUpTo(spool0, store0, spool, store, names, i, tally)
    requires forall i, j :: 0 <= i < j < |names| ==> names[i] != names[j]
    requires Grown(store, store') && spool' == DrainedOne(spool, store, names[i]) && OneMore(tally, tally', Leaves(spool, store, names[i]))
    ensures DrainedUpTo(spool0, store0, spool', store', names, i + 1, tally')
  {
    GrownTransitive(store0, store, store');
    DrainedNext(spool0, store0, store, names, i);
    BalancedMore(tally, tally', names, spool0, store0, store, i);
  }

  function Elements(names: seq<Name>): set<Name> { set n | n in names }

  function DrainedOne(spool: Directory, store: Store, name: Name): Directory {
    if name in spool && Acceptable(store, name, spool[name]) then spool - {name} else spool
  }

  /** The spool without those of the given entries that the store would take. */
  function Drained(spool: Directory, store: Store, names: set<Name>): Directory {
    spool - set n | n in names && n in spool && Acceptable(store, n, spool[n])
  }
}
