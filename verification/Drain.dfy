/** Progress of the bounded oldest-first drain: exactly which bundles leave the
    spool, and within how many faultless runs. */
module Drain {
  import opened Text
  import opened Spool
  import opened Export
  import opened Exporter

  /** One faultless run with no arrivals: the members of the oldest batch that the
      store takes (`ok`) are gone, everything else stays. */
  ghost predicate Drains(spool: Directory, ok: set<Name>, after: Directory) {
    exists batch :: IsBatch(batch, spool, MAX_BUNDLES_PER_RUN) && after == spool - Elements(batch) * ok
  }

  ghost predicate Runs(spools: seq<Directory>, ok: set<Name>) {
    && 0 < |spools|
    && forall i :: 0 <= i < |spools| - 1 ==> RunAt(spools, ok, i)
  }

  ghost predicate RunAt(spools: seq<Directory>, ok: set<Name>, i: nat)
    requires i < |spools| - 1
  {
    Drains(spools[i], ok, spools[i + 1])
  }

  /** The acceptable, and the rejected, entries strictly older than `b`. */
  ghost function GoodBefore(spool: Directory, ok: set<Name>, b: Name): set<Name>
    requires b in spool
  {
    set m | m in spool && m in ok && Older(spool, m, b)
  }

  ghost function RejectedBefore(spool: Directory, ok: set<Name>, b: Name): set<Name>
    requires b in spool
  {
    set m | m in spool && m !in ok && Older(spool, m, b)
  }

  lemma SubsetCount<T>(a: set<T>, b: set<T>)
    requires a <= b
    ensures |a| <= |b|
  {
    assert b == a + (b - a);
  }

  lemma BatchCount(batch: seq<Name>, spool: Directory)
    requires IsBatch(batch, spool, MAX_BUNDLES_PER_RUN)
    ensures |Elements(batch)| == |batch| && Elements(batch) <= spool.Keys
  {
    BatchDistinct(batch, spool, MAX_BUNDLES_PER_RUN);
    DistinctCount(batch);
  }

  /** A run that leaves `b` behind worked on a full batch of older entries. */
  lemma LeftBehind(spool: Directory, ok: set<Name>, batch: seq<Name>, b: Name)
    requires IsBatch(batch, spool, MAX_BUNDLES_PER_RUN) && b in spool && b !in batch
    ensures |Elements(batch)| == MAX_BUNDLES_PER_RUN
    ensures Elements(batch) <= GoodBefore(spool, ok, b) + RejectedBefore(spool, ok, b)
  {
    BatchCount(batch, spool);
    assert Elements(batch) + {b} <= spool.Keys;
    SubsetCount(Elements(batch) + {b}, spool.Keys);
  }

  /** Everything older than a member of the batch is in the batch too. */
  lemma OlderIncluded(spool: Directory, ok: set<Name>, batch: seq<Name>, b: Name)
    requires IsBatch(batch, spool, MAX_BUNDLES_PER_RUN) && b in batch
    ensures RejectedBefore(spool, ok, b) + {b} <= Elements(batch)
    ensures |RejectedBefore(spool, ok, b)| < MAX_BUNDLES_PER_RUN
  {
    var rejected := RejectedBefore(spool, ok, b);
    forall m | m in rejected ensures m in batch {
      if m !in batch {
        BeforeTotal(CandidateOf(m, spool[m]), CandidateOf(b, spool[b]));
      }
    }
    LessIrreflexive(b);
    BatchCount(batch, spool);
    SubsetCount(rejected + {b}, Elements(batch));
  }

  /** One run: rejected entries stay, and if `b` stays then at least `256 - r` older good ones left. */
  lemma DrainStep(spool: Directory, ok: set<Name>, after: Directory, b: Name)
    requires Drains(spool, ok, after) && b in spool && b in ok
    ensures b in after ==> RejectedBefore(after, ok, b) == RejectedBefore(spool, ok, b)
    ensures b in after ==>
              |GoodBefore(after, ok, b)| + MAX_BUNDLES_PER_RUN - |RejectedBefore(spool, ok, b)| <= |GoodBefore(spool, ok, b)|
    ensures |RejectedBefore(spool, ok, b)| >= MAX_BUNDLES_PER_RUN ==> b in after
  {
    var batch :| IsBatch(batch, spool, MAX_BUNDLES_PER_RUN) && after == spool - Elements(batch) * ok;
    var good, rejected := GoodBefore(spool, ok, b), RejectedBefore(spool, ok, b);
    if b in batch {
      OlderIncluded(spool, ok, batch, b);
    } else {
      LeftBehind(spool, ok, batch, b);
      var gone := Elements(batch) * good;
      assert GoodBefore(after, ok, b) == good - gone;
      assert RejectedBefore(after, ok, b) == rejected;
      assert Elements(batch) <= gone + rejected;
      SubsetCount(Elements(batch), gone + rejected);
      SubsetCount(gone, good);
    }
  }

  lemma {:induction false} DrainProgress(spools: seq<Directory>, ok: set<Name>, b: Name, k: nat)
    requires Runs(spools, ok) && k < |spools| && b in spools[0] && b in ok
    ensures b in spools[k] ==>
              && RejectedBefore(spools[k], ok, b) == RejectedBefore(spools[0], ok, b)
              && |GoodBefore(spools[k], ok, b)| + k * (MAX_BUNDLES_PER_RUN - |RejectedBefore(spools[0], ok, b)|)
                 <= |GoodBefore(spools[0], ok, b)|
    ensures |RejectedBefore(spools[0], ok, b)| >= MAX_BUNDLES_PER_RUN ==> b in spools[k]
  {
    if k > 0 {
      DrainProgress(spools, ok, b, k - 1);
      assert RunAt(spools, ok, k - 1);
      var d := MAX_BUNDLES_PER_RUN - |RejectedBefore(spools[0], ok, b)|;
      assert k * d == (k - 1) * d + d;
      if b in spools[k - 1] {
        DrainStep(spools[k - 1], ok, spools[k], b);
      } else {
        var batch :| IsBatch(batch, spools[k - 1], MAX_BUNDLES_PER_RUN) && spools[k] == spools[k - 1] - Elements(batch) * ok;
      }
    }
  }

  /** Exactly which bundles drain: a good bundle leaves the spool if and only if fewer
      than 256 rejected entries are older than it; then it leaves within
      `h / (256 - r) + 1` runs, `h` and `r` counting the good and rejected entries
      older than it. */
  lemma DrainsIffNotBlocked(spools: seq<Directory>, ok: set<Name>, b: Name, k: nat)
    requires Runs(spools, ok) && k < |spools| && b in spools[0] && b in ok
    requires k * (MAX_BUNDLES_PER_RUN - |RejectedBefore(spools[0], ok, b)|) > |GoodBefore(spools[0], ok, b)|
             || |RejectedBefore(spools[0], ok, b)| >= MAX_BUNDLES_PER_RUN
    ensures b !in spools[k] <==> |RejectedBefore(spools[0], ok, b)| < MAX_BUNDLES_PER_RUN
  {
    DrainProgress(spools, ok, b, k);
  }

  lemma {:induction false} RejectedStay(spools: seq<Directory>, ok: set<Name>, k: nat)
    requires Runs(spools, ok) && k < |spools|
    ensures spools[k].Keys <= spools[0].Keys
    ensures forall n :: n in spools[0] && n !in ok ==> n in spools[k]
  {
    if k > 0 {
      RejectedStay(spools, ok, k - 1);
      assert RunAt(spools, ok, k - 1);
      var batch :| IsBatch(batch, spools[k - 1], MAX_BUNDLES_PER_RUN) && spools[k] == spools[k - 1] - Elements(batch) * ok;
      assert spools[k].Keys == spools[k - 1].Keys - Elements(batch) * ok;
    }
  }

  /** The drain bound: with `r < 256` rejected and `h` good entries, `k` runs with
      `k * (256 - r) >= h` leave exactly the rejected ones. */
  lemma DrainBound(spools: seq<Directory>, ok: set<Name>, k: nat)
    requires Runs(spools, ok) && k < |spools|
    requires |spools[0].Keys - ok| < MAX_BUNDLES_PER_RUN
    requires k * (MAX_BUNDLES_PER_RUN - |spools[0].Keys - ok|) >= |spools[0].Keys * ok|
    ensures spools[k].Keys == spools[0].Keys - ok
  {
    RejectedStay(spools, ok, k);
    forall b | b in spools[0] && b in ok ensures b !in spools[k] {
      var good, rejected := GoodBefore(spools[0], ok, b), RejectedBefore(spools[0], ok, b);
      LessIrreflexive(b);
      assert b !in good;
      SubsetCount(good + {b}, spools[0].Keys * ok);
      SubsetCount(rejected, spools[0].Keys - ok);
      MulMonotone(k, MAX_BUNDLES_PER_RUN - |spools[0].Keys - ok|, MAX_BUNDLES_PER_RUN - |rejected|);
      DrainsIffNotBlocked(spools, ok, b, k);
    }
  }

  lemma MulMonotone(k: nat, a: int, b: int)
    requires a <= b
    ensures k * a <= k * b
  {
  }

  /** Every run removes at least `min(h, 256 - r)` of the good bundles. */
  lemma EachRunRemoves(spool: Directory, ok: set<Name>, after: Directory)
    requires Drains(spool, ok, after)
    ensures var h, r := |spool.Keys * ok|, |spool.Keys - ok|;
            |spool| - |after| >= if h < MAX_BUNDLES_PER_RUN - r then h else MAX_BUNDLES_PER_RUN - r
  {
    var batch :| IsBatch(batch, spool, MAX_BUNDLES_PER_RUN) && after == spool - Elements(batch) * ok;
    BatchCount(batch, spool);
    assert after.Keys == spool.Keys - Elements(batch) * ok;
    TakenCount(spool.Keys, ok, Elements(batch));
  }

  lemma TakenCount<T>(all: set<T>, ok: set<T>, batch: set<T>)
    requires batch <= all
    ensures |all| - |all - batch * ok| == |batch * ok| >= |batch| - |all - ok|
    ensures |all| == |all * ok| + |all - ok|
  {
    assert batch == batch * ok + (batch - ok);
    SubsetCount(batch - ok, all - ok);
    assert all == all * ok + (all - ok);
    assert all == (all - batch * ok) + batch * ok;
  }

  /** The names the store would take at the outset. */
  function AcceptableNames(spool: Directory, store: Store): set<Name> {
    set n | n in spool && Acceptable(store, n, spool[n])
  }

  ghost predicate Within(spool: Directory, spool0: Directory) {
    forall n :: n in spool ==> n in spool0 && spool[n] == spool0[n]
  }

  /** One faultless run, judged by what was acceptable when the first one started. */
  method RunOnce(e: Exporter, now: int, ghost spool0: Directory, ghost store0: Store)
    requires e.Valid() && e.sys.process.Idle?
    requires Within(e.spool, spool0) && Grown(store0, e.store)
    modifies e
    ensures e.Valid() && e.sys.process.Idle?
    ensures Drains(old(e.spool), AcceptableNames(spool0, store0), e.spool)
    ensures Within(e.spool, spool0) && Grown(store0, e.store)
  {
    ghost var spool, store := e.spool, e.store;
    var _, _, batch := e.Run(now, true);
    DrainedIsDrains(spool0, store0, spool, store, batch);
    GrownTransitive(store0, store, e.store);
  }

  /** Consecutive faultless runs of the exporter are such a sequence, for the names
      acceptable when the first of them starts. */
  method RunRepeatedly(e: Exporter, clock: seq<int>) returns (ghost spools: seq<Directory>)
    requires e.Valid() && e.sys.process.Idle?
    modifies e
    ensures e.Valid() && e.sys.process.Idle?
    ensures |spools| == |clock| + 1 && spools[0] == old(e.spool) && spools[|clock|] == e.spool
    ensures Runs(spools, AcceptableNames(old(e.spool), old(e.store)))
  {
    ghost var spool0, store0 := e.spool, e.store;
    spools := [e.spool];
    for i := 0 to |clock|
      invariant e.Valid() && e.sys.process.Idle?
      invariant |spools| == i + 1 && spools[0] == spool0 && spools[i] == e.spool
      invariant Runs(spools, AcceptableNames(spool0, store0))
      invariant Within(e.spool, spool0) && Grown(store0, e.store)
    {
      RunOnce(e, clock[i], spool0, store0);
      RunsSnoc(spools, AcceptableNames(spool0, store0), e.spool);
      spools := spools + [e.spool];
    }
  }

  /** Any number of runs under any failures, and then calm ones: the calm runs drain what
      the outage left. */
  method RunThroughOutage(e: Exporter, outage: seq<int>, clock: seq<int>) returns (ghost store0: Store, ghost spools: seq<Directory>)
    requires e.Valid() && e.sys.process.Idle?
    modifies e
    ensures e.Valid() && e.sys.process.Idle?
    ensures |spools| == |clock| + 1 && spools[|clock|] == e.spool
    ensures Runs(spools, AcceptableNames(spools[0], store0))
  {
    for i := 0 to |outage|
      invariant e.Valid() && e.sys.process.Idle?
    {
      var _, _, _ := e.Run(outage[i], false);
    }
    store0 := e.store;
    spools := RunRepeatedly(e, clock);
  }

  /** An exporter killed after any of its steps, and calm runs of the process that follows:
      they drain the spool as the crash left it. */
  method RunAfterCrash(ghost earlier: Exporter, ghost n: nat, spool: Directory, store: Store, saved: State, progress: Progress,
                       nextInode: nat, clock: seq<int>) returns (e: Exporter, ghost spools: seq<Directory>)
    requires earlier.Linked() && n <= |earlier.log|
    requires earlier.trace[n].spool == spool && earlier.trace[n].store == store
    requires earlier.trace[n].saved == saved && earlier.trace[n].progress == progress
    requires forall f :: f in earlier.trace[n].spooled ==> f.1.inode < nextInode
    ensures e.Valid() && e.sys.process.Idle?
    ensures |spools| == |clock| + 1 && spools[0] == spool && spools[|clock|] == e.spool
    ensures Runs(spools, AcceptableNames(spool, store))
  {
    e := new Exporter.Recover(earlier, n, spool, store, saved, progress, nextInode);
    spools := RunRepeatedly(e, clock);
  }

  lemma RunsSnoc(spools: seq<Directory>, ok: set<Name>, after: Directory)
    requires Runs(spools, ok) && Drains(spools[|spools| - 1], ok, after)
    ensures Runs(spools + [after], ok)
  {
    forall i | 0 <= i < |spools| ensures RunAt(spools + [after], ok, i) {
      assert i < |spools| - 1 ==> RunAt(spools, ok, i);
    }
  }

  lemma DrainedIsDrains(spool0: Directory, store0: Store, spool: Directory, store: Store, batch: seq<Name>)
    requires Grown(store0, store) && IsBatch(batch, spool, MAX_BUNDLES_PER_RUN)
    requires Within(spool, spool0)
    ensures Drains(spool, AcceptableNames(spool0, store0), Drained(spool, store, Elements(batch)))
  {
    var ok := AcceptableNames(spool0, store0);
    forall n | n in spool ensures n in ok <==> Acceptable(store, n, spool[n]) {
      AcceptableStable(store0, store, n, spool[n]);
    }
    assert Drained(spool, store, Elements(batch)) == spool - Elements(batch) * ok;
  }
}
