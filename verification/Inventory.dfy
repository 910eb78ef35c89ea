/** The observer's comparison of the provider journal with the instances that Incus shows:
    every name of either side is put into exactly one class. */
module Inventory {
  import opened Text
  import opened Grace

  datatype LeaseState = Admitted | Created | Deleting | WarmReady | WarmClaimed

  /** `maintenance`: the lease belongs to an image-maintenance pool. */
  datatype Lease = Lease(state: LeaseState, maintenance: bool, updatedAt: int)

  type Leases = map<string, Lease>

  /** `drained`: the member carries a drain marker. */
  datatype Member = Member(name: string, online: bool, drained: bool)

  /** One readable journal and listing. `builder` tells names of image-maintenance instances. */
  datatype Sweep = Sweep(now: int, leases: Leases, visible: set<string>, degraded: bool, builder: string -> bool)

  const DELETING_GRACE := 30 * SECOND
  const CREATED_GRACE := 30 * SECOND
  const ORPHAN_GRACE := 60 * SECOND

  // ---------------------------------------------------------------- the two sides

  function Expected(leases: Leases): set<string> {
    set name | name in leases && leases[name].state != Admitted && !leases[name].maintenance
  }

  function ExpectedMaintenance(leases: Leases): set<string> {
    set name | name in leases && leases[name].state != Admitted && leases[name].maintenance
  }

  /** Visible names without a lease that are not image maintenance. */
  function Uncovered(s: Sweep): set<string> {
    set name | name in s.visible && name !in s.leases && !s.builder(name)
  }

  function MissingCreated(s: Sweep): set<string> {
    set name | name in Expected(s.leases) && s.leases[name].state == Created && name !in s.visible
  }

  function Absent(s: Sweep): set<string> {
    set name | name in Expected(s.leases) && name !in s.visible
  }

  // ---------------------------------------------------------------- classes

  datatype Sighting = Covered | Maintenance | OrphanInGrace | OrphanUnattributable | Orphan

  datatype Absence = DeletingInGrace | CreatedInGrace | MissingUnattributable | Missing

  predicate Within(verdicts: map<string, bool>, name: string) {
    name in verdicts && verdicts[name]
  }

  function SightingOf(s: Sweep, orphans: map<string, bool>, name: string): Sighting {
    if name in s.leases then Covered
    else if s.builder(name) then Maintenance
    else if Within(orphans, name) then OrphanInGrace
    else if s.degraded then OrphanUnattributable
    else Orphan
  }

  function AbsenceOf(s: Sweep, created: map<string, bool>, name: string): Absence
    requires name in s.leases
  {
    var age := s.now - s.leases[name].updatedAt;
    if s.leases[name].state == Deleting && 0 <= age <= DELETING_GRACE then DeletingInGrace
    else if Within(created, name) then CreatedInGrace
    else if s.degraded then MissingUnattributable
    else Missing
  }

  function Sighted(s: Sweep, orphans: map<string, bool>, names: set<string>, sort: Sighting): set<string> {
    set name | name in names && SightingOf(s, orphans, name) == sort
  }

  /** How many of `names` are seen as `sort`. */
  function Sightings(s: Sweep, orphans: map<string, bool>, names: set<string>, sort: Sighting): nat {
    |Sighted(s, orphans, names, sort)|
  }

  function Unseen(s: Sweep, created: map<string, bool>, names: set<string>, sort: Absence): set<string>
    requires names <= s.leases.Keys
  {
    set name | name in names && AbsenceOf(s, created, name) == sort
  }

  function Absences(s: Sweep, created: map<string, bool>, names: set<string>, sort: Absence): nat
    requires names <= s.leases.Keys
  {
    |Unseen(s, created, names, sort)|
  }

  lemma SightingsNext(s: Sweep, orphans: map<string, bool>, names: set<string>, name: string, sort: Sighting)
    requires name !in names
    ensures Sightings(s, orphans, names + {name}, sort) ==
            Sightings(s, orphans, names, sort) + if SightingOf(s, orphans, name) == sort then 1 else 0
  {
    var before, after := Sighted(s, orphans, names, sort), Sighted(s, orphans, names + {name}, sort);
    if SightingOf(s, orphans, name) == sort {
      assert after == before + {name};
    } else {
      assert after == before;
    }
  }

  lemma AbsencesNext(s: Sweep, created: map<string, bool>, names: set<string>, name: string, sort: Absence)
    requires name !in names && names + {name} <= s.leases.Keys
    ensures Absences(s, created, names + {name}, sort) ==
            Absences(s, created, names, sort) + if AbsenceOf(s, created, name) == sort then 1 else 0
  {
    var before, after := Unseen(s, created, names, sort), Unseen(s, created, names + {name}, sort);
    var more := if AbsenceOf(s, created, name) == sort then before + {name} else before;
    forall n ensures n in after <==> n in more {
    }
    assert after == more;
  }

  /** Every visible name is counted once, and none as an orphan while visibility is degraded. */
  lemma {:induction false} SightingsPartition(s: Sweep, orphans: map<string, bool>, names: set<string>)
    ensures |names| == Sightings(s, orphans, names, Covered) + Sightings(s, orphans, names, Maintenance)
                     + Sightings(s, orphans, names, OrphanInGrace) + Sightings(s, orphans, names, OrphanUnattributable)
                     + Sightings(s, orphans, names, Orphan)
    ensures s.degraded ==> Sightings(s, orphans, names, Orphan) == 0
    ensures !s.degraded ==> Sightings(s, orphans, names, OrphanUnattributable) == 0
    decreases names
  {
    if names != {} {
      var name :| name in names;
      var rest := names - {name};
      assert rest + {name} == names;
      SightingsPartition(s, orphans, rest);
      SightingsNext(s, orphans, rest, name, Covered);
      SightingsNext(s, orphans, rest, name, Maintenance);
      SightingsNext(s, orphans, rest, name, OrphanInGrace);
      SightingsNext(s, orphans, rest, name, OrphanUnattributable);
      SightingsNext(s, orphans, rest, name, Orphan);
    }
  }

  lemma {:induction false} AbsencesPartition(s: Sweep, created: map<string, bool>, names: set<string>)
    requires names <= s.leases.Keys
    ensures |names| == Absences(s, created, names, DeletingInGrace) + Absences(s, created, names, CreatedInGrace)
                     + Absences(s, created, names, MissingUnattributable) + Absences(s, created, names, Missing)
    ensures s.degraded ==> Absences(s, created, names, Missing) == 0
    ensures !s.degraded ==> Absences(s, created, names, MissingUnattributable) == 0
    decreases names
  {
    if names != {} {
      var name :| name in names;
      var rest := names - {name};
      assert rest + {name} == names;
      AbsencesPartition(s, created, rest);
      AbsencesNext(s, created, rest, name, DeletingInGrace);
      AbsencesNext(s, created, rest, name, CreatedInGrace);
      AbsencesNext(s, created, rest, name, MissingUnattributable);
      AbsencesNext(s, created, rest, name, Missing);
    }
  }

  // ---------------------------------------------------------------- the tally

  datatype Tally = Tally(
    visible: nat, maintenance: nat, orphanInGrace: nat, orphanUnattributable: nat, orphan: nat,
    deletingInGrace: nat, createdInGrace: nat, missingUnattributable: nat, missing: nat, missingMaintenance: nat)

  const NOTHING := Tally(0, 0, 0, 0, 0, 0, 0, 0, 0, 0)

  /** The counters of one sweep, as sizes of classes. */
  function TallyOf(s: Sweep, created: map<string, bool>, orphans: map<string, bool>): Tally {
    Tally(|s.visible|,
          Sightings(s, orphans, s.visible, Maintenance),
          Sightings(s, orphans, s.visible, OrphanInGrace),
          Sightings(s, orphans, s.visible, OrphanUnattributable),
          Sightings(s, orphans, s.visible, Orphan),
          Absences(s, created, Absent(s), DeletingInGrace),
          Absences(s, created, Absent(s), CreatedInGrace),
          Absences(s, created, Absent(s), MissingUnattributable),
          Absences(s, created, Absent(s), Missing),
          |ExpectedMaintenance(s.leases) - s.visible|)
  }

  lemma LeasesCover(s: Sweep, orphans: map<string, bool>)
    ensures Sightings(s, orphans, s.visible, Covered) == |s.visible * s.leases.Keys|
  {
    assert Sighted(s, orphans, s.visible, Covered) == s.visible * s.leases.Keys;
  }

  lemma OrphansAreAllUncovered(s: Sweep, orphans: map<string, bool>)
    ensures Sightings(s, orphans, s.visible, OrphanInGrace) + Sightings(s, orphans, s.visible, OrphanUnattributable)
            + Sightings(s, orphans, s.visible, Orphan) == |Uncovered(s)|
  {
    SightingsPartition(s, orphans, Uncovered(s));
    OrphansAreUncovered(s, orphans, OrphanInGrace);
    OrphansAreUncovered(s, orphans, OrphanUnattributable);
    OrphansAreUncovered(s, orphans, Orphan);
    assert Sighted(s, orphans, Uncovered(s), Covered) == {} && Sighted(s, orphans, Uncovered(s), Maintenance) == {};
  }

  /** Conservation on both sides of the comparison, for every journal, listing and tracker
      verdict; and nothing is blamed while a member is deliberately held out. */
  lemma {:induction false} TallyConserves(s: Sweep, created: map<string, bool>, orphans: map<string, bool>)
    ensures var t := TallyOf(s, created, orphans);
            && t.visible == |s.visible * s.leases.Keys| + t.maintenance + t.orphanInGrace + t.orphanUnattributable + t.orphan
            && |Absent(s)| == t.deletingInGrace + t.createdInGrace + t.missingUnattributable + t.missing
            && (s.degraded ==> t.orphan == 0 && t.missing == 0)
            && (!s.degraded ==> t.orphanUnattributable == 0 && t.missingUnattributable == 0)
            && t.orphanInGrace + t.orphanUnattributable + t.orphan == |Uncovered(s)|
            && t.missingMaintenance == |set n | n in s.leases && s.leases[n].state != Admitted && s.leases[n].maintenance && n !in s.visible|
  {
    OrphansAreAllUncovered(s, orphans);
    assert ExpectedMaintenance(s.leases) - s.visible ==
           set n | n in s.leases && s.leases[n].state != Admitted && s.leases[n].maintenance && n !in s.visible;
    SightingsPartition(s, orphans, s.visible);
    AbsencesPartition(s, created, Absent(s));
    LeasesCover(s, orphans);
  }

  // ---------------------------------------------------------------- meaning over a run

  /** What the orphan tracker is shown over a run of sweeps. */
  function UncoveredSamples(sweeps: seq<Sweep>): (r: seq<Sample>)
    ensures |r| == |sweeps|
    ensures forall i :: 0 <= i < |sweeps| ==> r[i] == Sample(Uncovered(sweeps[i]), sweeps[i].now)
  {
    seq(|sweeps|, i requires 0 <= i < |sweeps| => Sample(Uncovered(sweeps[i]), sweeps[i].now))
  }

  function MissingSamples(sweeps: seq<Sweep>): (r: seq<Sample>)
    ensures |r| == |sweeps|
    ensures forall i :: 0 <= i < |sweeps| ==> r[i] == Sample(MissingCreated(sweeps[i]), sweeps[i].now)
  {
    seq(|sweeps|, i requires 0 <= i < |sweeps| => Sample(MissingCreated(sweeps[i]), sweeps[i].now))
  }

  /** What the trackers answer at the last of a run of sweeps. */
  function LastVerdicts(samples: seq<Sample>, grace: int): map<string, bool>
    requires |samples| > 0
  {
    Verdicts(Memory(samples[..|samples| - 1]), samples[|samples| - 1], grace)
  }

  lemma LastVerdictsMean(samples: seq<Sample>, grace: int, name: string)
    requires |samples| > 0
    ensures Within(LastVerdicts(samples, grace), name) <==>
            name in samples[|samples| - 1].names && !SeenFor(samples, name, grace + 1)
  {
    OutsideGraceIff(samples, name, grace);
  }

  /** After any run of sweeps, on any clock: an instance is counted as an orphan exactly
      when visibility is whole and it was visible without a lease in every sweep of a final
      stretch that began more than a minute ago. */
  lemma OrphanMeans(sweeps: seq<Sweep>, name: string)
    requires |sweeps| > 0 && name in sweeps[|sweeps| - 1].visible
    ensures var s := sweeps[|sweeps| - 1];
            var samples := UncoveredSamples(sweeps);
            SightingOf(s, LastVerdicts(samples, ORPHAN_GRACE), name) == Orphan <==>
            !s.degraded && SeenFor(samples, name, 60 * SECOND + 1)
  {
    var samples := UncoveredSamples(sweeps);
    LastVerdictsMean(samples, ORPHAN_GRACE, name);
    if SeenFor(samples, name, ORPHAN_GRACE + 1) {
      var k :| Unbroken(samples, k, name);
      assert name in samples[|samples| - 1].names;
    }
  }

  /** A created lease is counted as missing exactly when visibility is whole and its
      instance was absent in every sweep of a final stretch that began over 30 s ago. */
  lemma MissingMeans(sweeps: seq<Sweep>, name: string)
    requires |sweeps| > 0 && name in MissingCreated(sweeps[|sweeps| - 1])
    ensures var s := sweeps[|sweeps| - 1];
            var samples := MissingSamples(sweeps);
            AbsenceOf(s, LastVerdicts(samples, CREATED_GRACE), name) == Missing <==>
            !s.degraded && SeenFor(samples, name, 30 * SECOND + 1)
  {
    LastVerdictsMean(MissingSamples(sweeps), CREATED_GRACE, name);
  }

  /** What becomes of an absent lease that is not a created one: a deleting one is waited for
      during the 30 seconds after its last update, a warm one is missing at once; neither is
      blamed while visibility is degraded. */
  lemma {:induction false} AbsentMeans(sweeps: seq<Sweep>, name: string)
    requires |sweeps| > 0 && name in Absent(sweeps[|sweeps| - 1]) && sweeps[|sweeps| - 1].leases[name].state != Created
    ensures var s := sweeps[|sweeps| - 1];
            var lease := s.leases[name];
            AbsenceOf(s, LastVerdicts(MissingSamples(sweeps), CREATED_GRACE), name) ==
            if lease.state == Deleting && lease.updatedAt <= s.now <= lease.updatedAt + 30 * SECOND then DeletingInGrace
            else if s.degraded then MissingUnattributable else Missing
  {
    LastVerdictsMean(MissingSamples(sweeps), CREATED_GRACE, name);
  }

  // ---------------------------------------------------------------- the collector

  /** What a tracker, if there is one, will answer to these names. */
  ghost function Told(tracker: Tracker?, names: set<string>, now: int): map<string, bool>
    reads tracker
  {
    if tracker == null then map[] else Verdicts(tracker.firstSeen, Sample(names, now), tracker.grace)
  }

  class Collector {
    const created: Tracker?
    const orphans: Tracker?
    const builder: string -> bool

    constructor (created: Tracker?, orphans: Tracker?, builder: string -> bool)
      requires created != null ==> created != orphans
      ensures this.created == created && this.orphans == orphans && this.builder == builder
    {
      this.created, this.orphans, this.builder := created, orphans, builder;
    }

    /** A deliberately held out member makes what is not seen unattributable. */
    method HeldOut(members: seq<Member>) returns (degraded: bool)
      ensures degraded <==> exists m :: m in members && !m.online && m.drained
    {
      degraded := false;
      for i := 0 to |members|
        invariant degraded <==> exists m :: m in members[..i] && !m.online && m.drained
      {
        assert members[..i + 1] == members[..i] + [members[i]];
        if !members[i].online && members[i].drained { degraded := true; }
      }
      assert members[..|members|] == members;
    }

    /** The names a journal covers and the ones it requires to be seen. */
    method Sides(leases: Leases) returns (covered: set<string>, expected: set<string>, maintenance: set<string>)
      ensures covered == leases.Keys && expected == Expected(leases) && maintenance == ExpectedMaintenance(leases)
    {
      covered, expected, maintenance := {}, {}, {};
      var rest := leases.Keys;
      while rest != {}
        invariant rest <= leases.Keys && covered == leases.Keys - rest
        invariant expected == Expected(leases) - rest && maintenance == ExpectedMaintenance(leases) - rest
        decreases rest
      {
        var name :| name in rest;
        covered := covered + {name};
        if leases[name].state != Admitted {
          if leases[name].maintenance { maintenance := maintenance + {name}; } else { expected := expected + {name}; }
        }
        rest := rest - {name};
      }
    }

    /** The listing as a set; refused when a name is unsafe or listed twice. */
    method ValidateNames(names: seq<string>, safe: string -> bool) returns (visible: Option<set<string>>)
      ensures visible.Some? <==> (forall name :: name in names ==> safe(name)) && forall i, j :: 0 <= i < j < |names| ==> names[i] != names[j]
      ensures visible.Some? ==> visible.value == Elements(names)
    {
      var result := {};
      for i := 0 to |names|
        invariant result == Elements(names[..i])
        invariant forall k :: 0 <= k < i ==> safe(names[k])
        invariant forall k, j :: 0 <= k < j < i ==> names[k] != names[j]
      {
        if !safe(names[i]) {
          assert names[i] in names;
          return None;
        }
        if names[i] in result {
          var k :| 0 <= k < |names[..i]| && names[..i][k] == names[i];
          assert names[k] == names[i];
          return None;
        }
        result := result + {names[i]};
        assert Elements(names[..i + 1]) == Elements(names[..i]) + {names[i]};
      }
      assert names[..|names|] == names;
      visible := Some(result);
    }
  
    method MissingCreatedNames(s: Sweep, expected: set<string>) returns (names: seq<string>)
      requires expected == Expected(s.leases)
      ensures Elements(names) == MissingCreated(s)
    {
      names := [];
      var rest := expected;
      while rest != {}
        invariant rest <= expected && Elements(names) == MissingCreated(s) - rest
        decreases rest
      {
        var name :| name in rest;
        if s.leases[name].state == Created && name !in s.visible {
          assert Elements(names + [name]) == Elements(names) + {name};
          names := names + [name];
        }
        rest := rest - {name};
      }
    }

    /** The visible names no lease covers, and how many of the others are image maintenance. */
    method UncoveredNames(s: Sweep, covered: set<string>) returns (names: seq<string>, maintenance: nat)
      requires covered == s.leases.Keys
      ensures Elements(names) == Uncovered(s)
      ensures forall i, j :: 0 <= i < j < |names| ==> names[i] != names[j]
      ensures maintenance == Sightings(s, map[], s.visible, Maintenance)
    {
      names, maintenance := [], 0;
      var rest := s.visible;
      while rest != {}
        invariant rest <= s.visible && Elements(names) == Uncovered(s) - rest
        invariant forall i, j :: 0 <= i < j < |names| ==> names[i] != names[j]
        invariant maintenance == Sightings(s, map[], s.visible - rest, Maintenance)
        decreases rest
      {
        var name :| name in rest;
        SightingsNext(s, map[], s.visible - rest, name, Maintenance);
        assert s.visible - rest + {name} == s.visible - (rest - {name});
        if name !in covered {
          if s.builder(name) {
            maintenance := maintenance + 1;
          } else {
            assert name !in Elements(names);
            assert Elements(names + [name]) == Elements(names) + {name};
            names := names + [name];
          }
        }
        rest := rest - {name};
      }
      assert s.visible - rest == s.visible;
    }

    method CountOrphans(s: Sweep, names: seq<string>, verdicts: map<string, bool>)
        returns (inGrace: nat, unattributable: nat, orphan: nat)
      requires Elements(names) == Uncovered(s)
      requires forall i, j :: 0 <= i < j < |names| ==> names[i] != names[j]
      ensures inGrace == Sightings(s, verdicts, s.visible, OrphanInGrace)
      ensures unattributable == Sightings(s, verdicts, s.visible, OrphanUnattributable)
      ensures orphan == Sightings(s, verdicts, s.visible, Orphan)
    {
      inGrace, unattributable, orphan := 0, 0, 0;
      for i := 0 to |names|
        invariant inGrace == Sightings(s, verdicts, Elements(names[..i]), OrphanInGrace)
        invariant unattributable == Sightings(s, verdicts, Elements(names[..i]), OrphanUnattributable)
        invariant orphan == Sightings(s, verdicts, Elements(names[..i]), Orphan)
      {
        var name := names[i];
        ghost var done := Elements(names[..i]);
        assert names[i] in Elements(names);
        assert Elements(names[..i + 1]) == done + {name};
        SightingsNext(s, verdicts, done, name, OrphanInGrace);
        SightingsNext(s, verdicts, done, name, OrphanUnattributable);
        SightingsNext(s, verdicts, done, name, Orphan);
        if Within(verdicts, name) {
          inGrace := inGrace + 1;
        } else if s.degraded {
          unattributable := unattributable + 1;
        } else {
          orphan := orphan + 1;
        }
      }
      assert names[..|names|] == names;
      OrphansAreUncovered(s, verdicts, OrphanInGrace);
      OrphansAreUncovered(s, verdicts, OrphanUnattributable);
      OrphansAreUncovered(s, verdicts, Orphan);
    }

    method CountAbsent(s: Sweep, expected: set<string>, verdicts: map<string, bool>)
        returns (deleting: nat, created: nat, unattributable: nat, missing: nat)
      requires expected == Expected(s.leases)
      ensures deleting == Absences(s, verdicts, Absent(s), DeletingInGrace)
      ensures created == Absences(s, verdicts, Absent(s), CreatedInGrace)
      ensures unattributable == Absences(s, verdicts, Absent(s), MissingUnattributable)
      ensures missing == Absences(s, verdicts, Absent(s), Missing)
    {
      deleting, created, unattributable, missing := 0, 0, 0, 0;
      var rest := expected;
      while rest != {}
        invariant rest <= expected
        invariant deleting == Absences(s, verdicts, Absent(s) - rest, DeletingInGrace)
        invariant created == Absences(s, verdicts, Absent(s) - rest, CreatedInGrace)
        invariant unattributable == Absences(s, verdicts, Absent(s) - rest, MissingUnattributable)
        invariant missing == Absences(s, verdicts, Absent(s) - rest, Missing)
        decreases rest
      {
        var name :| name in rest;
        ghost var done, next := Absent(s) - rest, Absent(s) - (rest - {name});
        if name !in s.visible {
          assert next == done + {name};
          AbsencesNext(s, verdicts, done, name, DeletingInGrace);
          AbsencesNext(s, verdicts, done, name, CreatedInGrace);
          AbsencesNext(s, verdicts, done, name, MissingUnattributable);
          AbsencesNext(s, verdicts, done, name, Missing);
          var age := s.now - s.leases[name].updatedAt;
          if s.leases[name].state == Deleting && 0 <= age <= DELETING_GRACE {
            deleting := deleting + 1;
          } else if Within(verdicts, name) {
            created := created + 1;
          } else if s.degraded {
            unattributable := unattributable + 1;
          } else {
            missing := missing + 1;
          }
        } else {
          assert next == done;
        }
        rest := rest - {name};
      }
      assert Absent(s) - rest == Absent(s);
    }

    method CountMaintenance(s: Sweep, maintenance: set<string>) returns (missing: nat)
      ensures missing == |maintenance - s.visible|
    {
      missing := 0;
      var rest := maintenance;
      while rest != {}
        invariant rest <= maintenance && missing == |maintenance - s.visible - rest|
        decreases rest
      {
        var name :| name in rest;
        ghost var done, next := maintenance - s.visible - rest, maintenance - s.visible - (rest - {name});
        assert next == if name in s.visible then done else done + {name};
        if name !in s.visible { missing := missing + 1; }
        rest := rest - {name};
      }
      assert maintenance - s.visible - rest == maintenance - s.visible;
    }

    /** The inventory part of one collection. Without a listing nothing is counted; without
        a journal only what is visible; with both, every class is counted and both trackers
        take their sample. */
    method Collect(now: int, journal: Option<Leases>, visible: Option<set<string>>, degraded: bool) returns (t: Tally, oldest: int)
      requires created != null ==> created != orphans
      modifies created, orphans
      ensures visible.None? || journal.None? ==>
                && t == NOTHING.(visible := if visible.None? then 0 else |visible.value|)
                && (created != null ==> created.firstSeen == old(created.firstSeen))
                && (orphans != null ==> orphans.firstSeen == old(orphans.firstSeen))
      ensures visible.Some? && journal.Some? ==>
                var s := Sweep(now, journal.value, visible.value, degraded, builder);
                && t == TallyOf(s, old(Told(created, MissingCreated(s), now)), old(Told(orphans, Uncovered(s), now)))
                && (created != null ==> created.firstSeen == Remember(old(created.firstSeen), Sample(MissingCreated(s), now)))
                && (orphans != null ==> orphans.firstSeen == Remember(old(orphans.firstSeen), Sample(Uncovered(s), now)))
    {
      oldest := 0;
      if visible.None? { return NOTHING, 0; }
      t := NOTHING.(visible := |visible.value|);
      if journal.None? { return; }
      var s := Sweep(now, journal.value, visible.value, degraded, builder);
      var covered, expected, maintained := Sides(s.leases);
      var createdWithin := map[];
      if created != null {
        var names := MissingCreatedNames(s, expected);
        createdWithin, oldest := created.Observe(names, now);
      }
      var uncovered, maintenance := UncoveredNames(s, covered);
      var orphanWithin := map[];
      if orphans != null {
        var verdicts, _ := orphans.Observe(uncovered, now);
        orphanWithin := verdicts;
      }
      var inGrace, unattributable, orphan := CountOrphans(s, uncovered, orphanWithin);
      var deleting, young, unknown, missing := CountAbsent(s, expected, createdWithin);
      var missingMaintenance := CountMaintenance(s, maintained);
      MaintenanceAlways(s, orphanWithin);
      t := Tally(|s.visible|, maintenance, inGrace, unattributable, orphan, deleting, young, unknown, missing, missingMaintenance);
    }
  }

  /** Only uncovered names are classed as orphans of any kind. */
  lemma OrphansAreUncovered(s: Sweep, verdicts: map<string, bool>, sort: Sighting)
    requires sort != Covered && sort != Maintenance
    ensures Sightings(s, verdicts, Uncovered(s), sort) == Sightings(s, verdicts, s.visible, sort)
  {
    assert Sighted(s, verdicts, Uncovered(s), sort) == Sighted(s, verdicts, s.visible, sort);
  }

  /** Image maintenance is recognised whatever the tracker answers. */
  lemma MaintenanceAlways(s: Sweep, verdicts: map<string, bool>)
    ensures Sightings(s, verdicts, s.visible, Maintenance) == Sightings(s, map[], s.visible, Maintenance)
  {
    assert Sighted(s, verdicts, s.visible, Maintenance) == Sighted(s, map[], s.visible, Maintenance);
  }

  // ---------------------------------------------------------------- repeated collections

  /** What one collection found: either side may be unreadable. */
  datatype Found = Found(now: int, journal: Option<Leases>, visible: Option<set<string>>, degraded: bool)

  predicate Readable(f: Found) { f.journal.Some? && f.visible.Some? }

  function SweepOf(f: Found, builder: string -> bool): Sweep
    requires Readable(f)
  {
    Sweep(f.now, f.journal.value, f.visible.value, f.degraded, builder)
  }

  /** The sweeps among the collections. */
  function Sweeps(found: seq<Found>, builder: string -> bool): seq<Sweep> {
    if found == [] then []
    else
      var last := found[|found| - 1];
      Sweeps(found[..|found| - 1], builder) + if Readable(last) then [SweepOf(last, builder)] else []
  }

  /** The tally of the last collection is that of its sweep, judged by all sweeps so far. */
  ghost predicate Judged(t: Tally, found: seq<Found>, builder: string -> bool) {
    found != [] && Readable(found[|found| - 1]) ==>
      var sweeps := Sweeps(found, builder);
      && sweeps != []
      && t == TallyOf(sweeps[|sweeps| - 1], LastVerdicts(MissingSamples(sweeps), CREATED_GRACE),
                      LastVerdicts(UncoveredSamples(sweeps), ORPHAN_GRACE))
  }

  lemma SamplesSnoc(sweeps: seq<Sweep>, s: Sweep)
    ensures Memory(MissingSamples(sweeps + [s])) == Remember(Memory(MissingSamples(sweeps)), Sample(MissingCreated(s), s.now))
    ensures Memory(UncoveredSamples(sweeps + [s])) == Remember(Memory(UncoveredSamples(sweeps)), Sample(Uncovered(s), s.now))
    ensures LastVerdicts(MissingSamples(sweeps + [s]), CREATED_GRACE) ==
            Verdicts(Memory(MissingSamples(sweeps)), Sample(MissingCreated(s), s.now), CREATED_GRACE)
    ensures LastVerdicts(UncoveredSamples(sweeps + [s]), ORPHAN_GRACE) ==
            Verdicts(Memory(UncoveredSamples(sweeps)), Sample(Uncovered(s), s.now), ORPHAN_GRACE)
  {
    var missing, uncovered := MissingSamples(sweeps + [s]), UncoveredSamples(sweeps + [s]);
    assert missing[..|sweeps|] == MissingSamples(sweeps);
    assert uncovered[..|sweeps|] == UncoveredSamples(sweeps);
  }

  /** What the trackers remember of the collections. */
  ghost function CreatedMemory(found: seq<Found>, builder: string -> bool): map<string, int> {
    Memory(MissingSamples(Sweeps(found, builder)))
  }

  ghost function OrphanMemory(found: seq<Found>, builder: string -> bool): map<string, int> {
    Memory(UncoveredSamples(Sweeps(found, builder)))
  }

  lemma SweepsNext(before: seq<Found>, f: Found, builder: string -> bool)
    ensures Sweeps(before + [f], builder) == Sweeps(before, builder) + if Readable(f) then [SweepOf(f, builder)] else []
  {
    assert (before + [f])[..|before|] == before;
  }

  lemma MemoryNext(before: seq<Found>, f: Found, builder: string -> bool)
    ensures Readable(f) ==>
              var s := SweepOf(f, builder);
              && CreatedMemory(before + [f], builder) == Remember(CreatedMemory(before, builder), Sample(MissingCreated(s), s.now))
              && OrphanMemory(before + [f], builder) == Remember(OrphanMemory(before, builder), Sample(Uncovered(s), s.now))
    ensures !Readable(f) ==>
              && CreatedMemory(before + [f], builder) == CreatedMemory(before, builder)
              && OrphanMemory(before + [f], builder) == OrphanMemory(before, builder)
  {
    SweepsNext(before, f, builder);
    if Readable(f) {
      SamplesSnoc(Sweeps(before, builder), SweepOf(f, builder));
    } else {
      assert Sweeps(before, builder) + [] == Sweeps(before, builder);
    }
  }

  lemma JudgedNext(t: Tally, before: seq<Found>, f: Found, builder: string -> bool)
    requires Readable(f) ==>
               var s := SweepOf(f, builder);
               t == TallyOf(s, Verdicts(CreatedMemory(before, builder), Sample(MissingCreated(s), s.now), CREATED_GRACE),
                            Verdicts(OrphanMemory(before, builder), Sample(Uncovered(s), s.now), ORPHAN_GRACE))
    ensures Judged(t, before + [f], builder)
  {
    if Readable(f) {
      SweepsNext(before, f, builder);
      SamplesSnoc(Sweeps(before, builder), SweepOf(f, builder));
    }
  }

  /** One more collection by a collector whose trackers remember the ones before. */
  method CollectNext(c: Collector, ghost before: seq<Found>, f: Found) returns (t: Tally)
    requires c.created != null && c.orphans != null && c.created != c.orphans
    requires c.created.grace == CREATED_GRACE && c.orphans.grace == ORPHAN_GRACE
    requires c.created.firstSeen == CreatedMemory(before, c.builder) && c.orphans.firstSeen == OrphanMemory(before, c.builder)
    modifies c.created, c.orphans
    ensures c.created.firstSeen == CreatedMemory(before + [f], c.builder)
    ensures c.orphans.firstSeen == OrphanMemory(before + [f], c.builder)
    ensures Judged(t, before + [f], c.builder)
  {
    var tally, _ := c.Collect(f.now, f.journal, f.visible, f.degraded);
    t := tally;
    MemoryNext(before, f, c.builder);
    JudgedNext(t, before, f, c.builder);
  }

  ghost predicate AllJudged(tallies: seq<Tally>, found: seq<Found>, builder: string -> bool) {
    |tallies| <= |found| && forall i :: 0 <= i < |tallies| ==> Judged(tallies[i], found[..i + 1], builder)
  }

  lemma JudgedMore(tallies: seq<Tally>, t: Tally, found: seq<Found>, builder: string -> bool)
    requires AllJudged(tallies, found, builder) && |tallies| < |found| && Judged(t, found[..|tallies| + 1], builder)
    ensures AllJudged(tallies + [t], found, builder)
  {
    var more := tallies + [t];
    forall i | 0 <= i < |more| ensures Judged(more[i], found[..i + 1], builder) {
      if i < |tallies| {
        assert Judged(tallies[i], found[..i + 1], builder);
      }
    }
  }

  /** A collector over its whole life: every tally is judged by all the sweeps so far, as
      `OrphanMeans` and `MissingMeans` say what that means. */
  method CollectRepeatedly(found: seq<Found>, builder: string -> bool) returns (tallies: seq<Tally>)
    ensures |tallies| == |found| && AllJudged(tallies, found, builder)
  {
    var created := new Tracker(CREATED_GRACE);
    var orphans := new Tracker(ORPHAN_GRACE);
    var c := new Collector(created, orphans, builder);
    tallies := [];
    assert Sweeps([], builder) == [] && found[..0] == [];
    for i := 0 to |found|
      invariant |tallies| == i && AllJudged(tallies, found, builder)
      invariant created.firstSeen == CreatedMemory(found[..i], builder) && orphans.firstSeen == OrphanMemory(found[..i], builder)
    {
      var t := CollectNext(c, found[..i], found[i]);
      assert found[..i] + [found[i]] == found[..i + 1];
      JudgedMore(tallies, t, found, builder);
      tallies := tallies + [t];
    }
  }
}
