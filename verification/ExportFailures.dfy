/** Runs in which the exporter does not do what one might hope: the inputs beyond the
    conditions of `ProgressRefusedIffClockWentBack` and `DrainsIffNotBlocked`. */
module ExportFailures {
  import opened Text
  import opened Spool
  import opened Export
  import opened ExportSafety
  import opened Exporter
  import opened Drain

  // ---------------------------------------------------------------- a refused report

  /** The legal run leads from `s` to `t`. */
  ghost predicate Leads(s: Sys, actions: seq<Action>, t: Sys) {
    Legal(s, actions) && Exec(s, actions) == t
  }

  lemma {:induction false} LeadsOn(s: Sys, actions: seq<Action>, t: Sys, a: Action)
    requires Leads(s, actions, t) && Enabled(t, a)
    ensures Leads(s, actions + [a], Apply(t, a))
    decreases |actions|
  {
    if actions == [] {
      assert ([] + [a])[1..] == [];
    } else {
      LeadsOn(Apply(s, actions[0]), actions[1..], t, a);
      assert (actions + [a])[1..] == actions[1..] + [a];
    }
  }

  const FRESH := Sys(map[], map[], State(NO_STATUS, map[]), NO_PROGRESS, Idle, {}, {})
  const LATE_FILE := File(0, "", 0, false, None)
  const NO_TALLY := Tally(0, 0, 0, 0, 0, 0, NoFailure)

  lemma EmptySizes()
    ensures IsSize(map[], 0) && IsSize(map["a" := LATE_FILE], 0) && IsBatch([], map[], MAX_BUNDLES_PER_RUN)
  {
    var none: Directory := map[];
    assert Enumerates([], none) && SafeBytes(none, []) == 0;
    var one: Directory := map["a" := LATE_FILE];
    assert Enumerates(["a"], one) && ["a"][..0] == [] && SafeBytes(one, ["a"]) == 0;
  }

  /** A run over an empty spool at `now` is a full synchronization at `now`. */
  lemma FullSync(now: int) returns (actions: seq<Action>, t: Sys)
    ensures Leads(FRESH, actions, t) && t.process.Idle? && t.spool == map[] && t.spooled == {}
    ensures t.progress.lastFullSyncAt == Some(now)
  {
    EmptySizes();
    actions, t := [], FRESH;
    LeadsOn(FRESH, actions, t, Begin(now, []));
    actions, t := actions + [Begin(now, [])], Apply(t, Begin(now, []));
    assert t.process == Busy(now, FRESH.saved, NO_PROGRESS, [], NO_TALLY, Rescan);
    LeadsOn(FRESH, actions, t, Rescanned(0, 0));
    actions, t := actions + [Rescanned(0, 0)], Apply(t, Rescanned(0, 0));
    LeadsOn(FRESH, actions, t, PublishStatus(true, true));
    actions, t := actions + [PublishStatus(true, true)], Apply(t, PublishStatus(true, true));
    assert ValidProgress(NewProgress(t.process));
    LeadsOn(FRESH, actions, t, PublishProgress(true));
    actions, t := actions + [PublishProgress(true)], Apply(t, PublishProgress(true));
  }

  /** A second run that finds nothing to do, and a bundle that comes in meanwhile. */
  lemma LateArrival(now: int, earlier: int) returns (actions: seq<Action>, t: Sys)
    ensures Leads(FRESH, actions, t) && t.spool == map["a" := LATE_FILE]
    ensures t.process.Busy? && t.process.at == Rescan && t.process.now == earlier && t.process.tally == NO_TALLY
    ensures t.process.progress.lastFullSyncAt == Some(now)
  {
    EmptySizes();
    actions, t := FullSync(now);
    LeadsOn(FRESH, actions, t, Begin(earlier, []));
    actions, t := actions + [Begin(earlier, [])], Apply(t, Begin(earlier, []));
    LeadsOn(FRESH, actions, t, Arrive("a", LATE_FILE));
    actions, t := actions + [Arrive("a", LATE_FILE)], Apply(t, Arrive("a", LATE_FILE));
  }

  /** A clock that goes back by any amount: the second run is left with the late bundle, and
      its progress report is refused. */
  lemma RefusedAfterClockWentBack(now: int, earlier: int) returns (actions: seq<Action>)
    requires earlier < now
    ensures Init(FRESH) && Legal(FRESH, actions)
    ensures var p := Exec(FRESH, actions).process;
            p.Busy? && p.at.Report? && p.now == earlier && !ValidProgress(NewProgress(p))
  {
    var t;
    EmptySizes();
    actions, t := LateArrival(now, earlier);
    LeadsOn(FRESH, actions, t, Rescanned(1, 0));
    actions, t := actions + [Rescanned(1, 0)], Apply(t, Rescanned(1, 0));
    LeadsOn(FRESH, actions, t, PublishStatus(true, true));
    actions, t := actions + [PublishStatus(true, true)], Apply(t, PublishStatus(true, true));
  }

  // ---------------------------------------------------------------- a blocked spool

  /** Distinct names: as many letters as the number. */
  function Letters(n: nat): (s: string)
    ensures |s| == n && (n > 0 ==> s[0] == 'a')
  {
    if n == 0 then "" else "a" + Letters(n - 1)
  }

  function FirstNames(k: nat): set<Name> {
    if k == 0 then {} else FirstNames(k - 1) + {Letters(k - 1)}
  }

  lemma {:induction false} FirstNamesCount(k: nat)
    ensures |FirstNames(k)| == k && forall n :: n in FirstNames(k) ==> |n| < k && n == Letters(|n|)
  {
    if k > 0 {
      FirstNamesCount(k - 1);
    }
  }

  const GOOD := "b"

  /** `r` unsafe entries, which list as oldest, and one good bundle. */
  function BlockedSpool(r: nat): Directory {
    (map n | n in FirstNames(r) :: File(|n|, "", 0, false, None))[GOOD := File(r, "", 0, true, Some("scope"))]
  }

  lemma GoodIsApart(r: nat)
    ensures GOOD !in FirstNames(r)
  {
    FirstNamesCount(r);
    assert GOOD[0] == 'b';
  }

  lemma OnlyGoodIsAcceptable(r: nat)
    ensures AcceptableNames(BlockedSpool(r), map[]) == {GOOD}
  {
  }

  lemma AllAreOlder(r: nat)
    ensures RejectedBefore(BlockedSpool(r), {GOOD}, GOOD) == FirstNames(r)
  {
    GoodIsApart(r);
  }

  lemma BlockedCount(r: nat)
    ensures GOOD in BlockedSpool(r) && |RejectedBefore(BlockedSpool(r), {GOOD}, GOOD)| == r
  {
    AllAreOlder(r);
    FirstNamesCount(r);
  }

  lemma {:induction false} SomeOrder(dir: Directory) returns (order: seq<Name>)
    ensures Enumerates(order, dir)
    decreases |dir|
  {
    if dir == map[] {
      order := [];
    } else {
      var n :| n in dir;
      var rest := SomeOrder(dir - {n});
      order := rest + [n];
    }
  }

  /** Every directory has its batch. */
  lemma SomeBatch(dir: Directory) returns (batch: seq<Name>)
    ensures IsBatch(batch, dir, MAX_BUNDLES_PER_RUN)
  {
    var order := SomeOrder(dir);
    var cs := seq(|order|, i requires 0 <= i < |order| => CandidateOf(order[i], dir[order[i]]));
    SortedIsBatch(dir, order, cs, MAX_BUNDLES_PER_RUN);
    batch := NamesOf(if |Sort(cs)| > MAX_BUNDLES_PER_RUN then Sort(cs)[..MAX_BUNDLES_PER_RUN] else Sort(cs));
  }

  /** However many faultless runs: the good bundle behind 256 rejected ones never leaves. */
  lemma {:induction false} BlockedForever(r: nat, k: nat) returns (spools: seq<Directory>)
    requires r >= MAX_BUNDLES_PER_RUN
    ensures |spools| == k + 1 && spools[0] == BlockedSpool(r) && AcceptableNames(spools[0], map[]) == {GOOD}
    ensures Runs(spools, {GOOD}) && GOOD in spools[k]
    decreases k
  {
    BlockedCount(r);
    OnlyGoodIsAcceptable(r);
    if k == 0 {
      spools := [BlockedSpool(r)];
    } else {
      spools := BlockedForever(r, k - 1);
      var last := spools[k - 1];
      var batch := SomeBatch(last);
      var after := last - Elements(batch) * {GOOD};
      assert Drains(last, {GOOD}, after);
      RunsSnoc(spools, {GOOD}, after);
      spools := spools + [after];
      DrainsIffNotBlocked(spools, {GOOD}, GOOD, k);
    }
  }
}
