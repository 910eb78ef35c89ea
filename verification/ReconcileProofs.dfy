/** What a reconciliation run promises: the plan is what apply does, apply is idempotent
    and converges after an interruption, and nothing is enabled before it was validated. */
module ReconcileProofs {
  import opened Text
  import opened Reconcile

  // ---------------------------------------------------------------- steps seen again

  /** Once found, a credential is found again, for free, on every server that lists the same ones. */
  lemma CredentialAgain(s: Server, o: Options, budget: nat, t: Server, later: nat)
    requires Honest(s)
    requires CredentialStep(s, o, true, budget).found.Here?
    requires t.credentials == CredentialStep(s, o, true, budget).server.credentials
    ensures CredentialStep(t, o, true, later) == Step(t, [], CredentialStep(s, o, true, budget).found, later)
  {
    var c := CredentialStep(s, o, true, budget);
    if MatchingCredentials(s.credentials, o.tenant.credentialName) == [] {
      assert t.credentials[..|t.credentials| - 1] == s.credentials;
    }
  }

  lemma EntityAgain(s: Server, o: Options, c: Credential, budget: nat, t: Server, later: nat)
    requires Honest(s)
    requires EntityStep(s, o, c, true, budget).found.Here?
    requires t.organizations == EntityStep(s, o, c, true, budget).server.organizations
    requires t.repositories == EntityStep(s, o, c, true, budget).server.repositories
    ensures EntityStep(t, o, c, true, later) == Step(t, [], EntityStep(s, o, c, true, budget).found, later)
  {
    if o.kind == OfOrganization {
      if MatchingOrganizations(s.organizations, o.tenant.owner) == [] {
        assert t.organizations[..|t.organizations| - 1] == s.organizations;
      }
    } else if MatchingRepositories(s.repositories, o.tenant.repository) == [] {
      assert t.repositories[..|t.repositories| - 1] == s.repositories;
    }
  }

  lemma {:induction false} PutKeeps(s: seq<ScaleSet>, x: ScaleSet)
    ensures |PutScaleSet(s, x)| == |s|
    ensures forall i :: 0 <= i < |s| ==> PutScaleSet(s, x)[i] == if s[i].id == x.id then x else s[i]
  {
    if s != [] {
      PutKeeps(s[..|s| - 1], x);
    }
  }

  lemma {:induction false} MatchesAreListed(s: seq<ScaleSet>, e: Entity, name: string)
    ensures forall x :: x in MatchingScaleSets(s, e, name) <==> x in s && Hangs(x, e) && x.name == name
  {
    if s != [] {
      MatchesAreListed(s[..|s| - 1], e, name);
      assert s == s[..|s| - 1] + [s[|s| - 1]];
    }
  }

  ghost predicate DistinctIds(s: seq<ScaleSet>) {
    forall i, j :: 0 <= i < j < |s| ==> s[i].id != s[j].id
  }

  /** Writing the only match leaves the written value as the only match. */
  lemma {:induction false} PutMatches(s: seq<ScaleSet>, e: Entity, name: string, x: ScaleSet)
    requires DistinctIds(s)
    requires Hangs(x, e) && x.name == name
    requires forall y :: y in s && y.id == x.id ==> Hangs(y, e) && y.name == name
    ensures |MatchingScaleSets(PutScaleSet(s, x), e, name)| == |MatchingScaleSets(s, e, name)|
    ensures forall i :: 0 <= i < |MatchingScaleSets(s, e, name)| ==>
      MatchingScaleSets(PutScaleSet(s, x), e, name)[i] ==
      if MatchingScaleSets(s, e, name)[i].id == x.id then x else MatchingScaleSets(s, e, name)[i]
  {
    if s != [] {
      var rest, last := s[..|s| - 1], s[|s| - 1];
      PutMatches(rest, e, name, x);
      var p := PutScaleSet(s, x);
      PutKeeps(rest, x);
      assert p[..|p| - 1] == PutScaleSet(rest, x);
    }
  }

  lemma PutTwice(s: seq<ScaleSet>, x: ScaleSet, y: ScaleSet)
    requires x.id == y.id
    ensures PutScaleSet(PutScaleSet(s, x), y) == PutScaleSet(s, y)
  {
    PutKeeps(s, x);
    PutKeeps(PutScaleSet(s, x), y);
    PutKeeps(s, y);
  }

  lemma PutHonest(s: Server, x: ScaleSet)
    requires Honest(s)
    requires exists y :: y in s.scaleSets && y.id == x.id && y.repoId == x.repoId && y.orgId == x.orgId
    ensures Honest(s.(scaleSets := PutScaleSet(s.scaleSets, x)))
  {
    PutKeeps(s.scaleSets, x);
  }

  // ---------------------------------------------------------------- the scale set

  /** The single match, as listed. */
  lemma TheMatch(s: Server, o: Options, e: Entity) returns (x: ScaleSet)
    requires |MatchingScaleSets(s.scaleSets, e, o.spec.name)| == 1
    ensures x == MatchingScaleSets(s.scaleSets, e, o.spec.name)[0]
    ensures x in s.scaleSets && Hangs(x, e) && x.name == o.spec.name
  {
    x := MatchingScaleSets(s.scaleSets, e, o.spec.name)[0];
    MatchesAreListed(s.scaleSets, e, o.spec.name);
    assert x in MatchingScaleSets(s.scaleSets, e, o.spec.name);
  }

  /** After the match was overwritten, the listing shows what was written. */
  lemma Rewritten(s: Server, o: Options, e: Entity, x: ScaleSet, y: ScaleSet)
    requires Honest(s)
    requires MatchingScaleSets(s.scaleSets, e, o.spec.name) == [x]
    requires y.id == x.id && y.name == x.name && y.repoId == x.repoId && y.orgId == x.orgId
    ensures Honest(s.(scaleSets := PutScaleSet(s.scaleSets, y)))
    ensures MatchingScaleSets(PutScaleSet(s.scaleSets, y), e, o.spec.name) == [y]
  {
    var z := TheMatch(s, o, e);
    PutHonest(s, y);
    forall w | w in s.scaleSets && w.id == y.id ensures w == x {
      var i :| 0 <= i < |s.scaleSets| && s.scaleSets[i] == w;
      var j :| 0 <= j < |s.scaleSets| && s.scaleSets[j] == x;
      assert i == j;
    }
    PutMatches(s.scaleSets, e, o.spec.name, y);
  }

  /** Cut after `budget` writes and taken up again, a step ends where the uninterrupted one
      does; if it was not cut, taking it up again does nothing. */
  ghost predicate Resumes<T(!new)>(p: Step<T>, q: Step<T>, r: Step<T>, later: nat) {
    && (2 <= later ==> r.server == q.server && r.found == q.found)
    && (!p.found.Error? ==> r == Step(p.server, [], p.found, later))
  }

  /** A scale set that is as asked for is left alone. */
  lemma AsAskedFor(s: Server, o: Options, e: Entity, x: ScaleSet, budget: nat)
    requires MatchingScaleSets(s.scaleSets, e, o.spec.name) == [x]
    requires DriftOf(x, o.spec) == Drift(false, false, false) && ScaleSetOk(x, e, o.spec)
    requires x.enabled == o.enable
    ensures ScaleSetStep(s, o, e, true, budget) == Step(s, [], Here(x), budget)
  {
    assert MigrationStep(s, o, e, x, true, budget) == Step(s, [], Here(x), budget);
  }

  /** A scale set that only has to be enabled. */
  lemma ToBeEnabled(s: Server, o: Options, e: Entity, x: ScaleSet, budget: nat)
    requires MatchingScaleSets(s.scaleSets, e, o.spec.name) == [x]
    requires DriftOf(x, o.spec) == Drift(false, false, false) && ScaleSetOk(x, e, o.spec)
    requires !x.enabled && o.enable
    ensures var on := x.(enabled := true);
            ScaleSetStep(s, o, e, true, budget) ==
            if budget == 0 then Step(s, [EnableScaleSet], Error, 0)
            else Step(s.(scaleSets := PutScaleSet(s.scaleSets, on)), [EnableScaleSet], Here(on), budget - 1)
  {
    assert MigrationStep(s, o, e, x, true, budget) == Step(s, [], Here(x), budget);
    assert ScaleSetOk(x.(enabled := true), e, o.spec);
  }

  /** A scale set that needs no migration. */
  lemma ResumeSettled(s: Server, o: Options, e: Entity, x: ScaleSet, budget: nat, later: nat)
    requires Honest(s)
    requires MatchingScaleSets(s.scaleSets, e, o.spec.name) == [x]
    requires DriftOf(x, o.spec) == Drift(false, false, false) && ScaleSetOk(x, e, o.spec)
    ensures var p := ScaleSetStep(s, o, e, true, budget);
            && Honest(p.server)
            && Resumes(p, ScaleSetStep(s, o, e, true, later), ScaleSetStep(p.server, o, e, true, later), later)
  {
    if x.enabled == o.enable {
      AsAskedFor(s, o, e, x, budget);
      AsAskedFor(s, o, e, x, later);
    } else if o.enable {
      ToBeEnabled(s, o, e, x, budget);
      ToBeEnabled(s, o, e, x, later);
      if budget > 0 {
        var on := x.(enabled := true);
        Rewritten(s, o, e, x, on);
        assert DriftOf(on, o.spec) == DriftOf(x, o.spec);
        AsAskedFor(s.(scaleSets := PutScaleSet(s.scaleSets, on)), o, e, on, later);
      }
    }
  }

  /** A scale set that is migrated first. */
  lemma ResumeMigrated(s: Server, o: Options, e: Entity, x: ScaleSet, budget: nat, later: nat)
    requires Honest(s)
    requires MatchingScaleSets(s.scaleSets, e, o.spec.name) == [x]
    requires DriftOf(x, o.spec) != Drift(false, false, false) && MayMigrate(x, e, o)
    ensures var p := ScaleSetStep(s, o, e, true, budget);
            && Honest(p.server)
            && Resumes(p, ScaleSetStep(s, o, e, true, later), ScaleSetStep(p.server, o, e, true, later), later)
  {
    var y := Migrated(x, o.spec);
    var t := s.(scaleSets := PutScaleSet(s.scaleSets, y));
    Rewritten(s, o, e, x, y);
    assert DriftOf(y, o.spec) == Drift(false, false, false);
    if budget > 0 {
      AfterMigration(s, o, e, x, budget);
      if later > 0 {
        AfterMigration(s, o, e, x, later);
      }
      ResumeSettled(t, o, e, y, budget - 1, later);
      if later >= 2 {
        BudgetIsEnough(t, o, e, y, later - 1, later);
      }
    }
  }

  /** The migration write, and then the step of a settled scale set. */
  lemma AfterMigration(s: Server, o: Options, e: Entity, x: ScaleSet, budget: nat)
    requires Honest(s) && budget > 0
    requires MatchingScaleSets(s.scaleSets, e, o.spec.name) == [x]
    requires DriftOf(x, o.spec) != Drift(false, false, false) && MayMigrate(x, e, o)
    ensures var t := s.(scaleSets := PutScaleSet(s.scaleSets, Migrated(x, o.spec)));
            var p := ScaleSetStep(s, o, e, true, budget);
            var r := ScaleSetStep(t, o, e, true, budget - 1);
            p.server == r.server && p.found == r.found && p.budget == r.budget
  {
    var y := Migrated(x, o.spec);
    Rewritten(s, o, e, x, y);
    assert DriftOf(y, o.spec) == Drift(false, false, false);
  }

  /** One write settles a scale set that needs no migration. */
  lemma BudgetIsEnough(s: Server, o: Options, e: Entity, x: ScaleSet, budget: nat, later: nat)
    requires MatchingScaleSets(s.scaleSets, e, o.spec.name) == [x]
    requires DriftOf(x, o.spec) == Drift(false, false, false)
    requires 0 < budget && 0 < later
    ensures var p := ScaleSetStep(s, o, e, true, budget);
            var q := ScaleSetStep(s, o, e, true, later);
            p.server == q.server && p.found == q.found
  {
  }

  lemma NewIsOk(id: nat, e: Entity, spec: Spec)
    requires id != 0 && e.id != 0
    ensures var x := NewScaleSet(id, e, spec);
            ScaleSetOk(x, e, spec) && Hangs(x, e) && DriftOf(x, spec) == Drift(false, false, false) && !x.enabled
  {
  }

  lemma CreatedIsHonest(s: Server, x: ScaleSet)
    requires Honest(s) && x.id == s.nextId && x.repoId < s.nextId && x.orgId < s.nextId
    ensures Honest(s.(scaleSets := s.scaleSets + [x], nextId := s.nextId + 1))
  {
  }

  lemma AppendedMatches(s: seq<ScaleSet>, x: ScaleSet, e: Entity, name: string)
    requires MatchingScaleSets(s, e, name) == [] && Hangs(x, e) && x.name == name
    ensures MatchingScaleSets(s + [x], e, name) == [x]
  {
    assert (s + [x])[..|s|] == s;
  }

  lemma CreatedIsListed(s: Server, o: Options, e: Entity)
    requires Honest(s) && 0 < e.id < s.nextId
    requires MatchingScaleSets(s.scaleSets, e, o.spec.name) == []
    ensures var x := NewScaleSet(s.nextId, e, o.spec);
            var t := s.(scaleSets := s.scaleSets + [x], nextId := s.nextId + 1);
            Honest(t) && MatchingScaleSets(t.scaleSets, e, o.spec.name) == [x]
  {
    var x := NewScaleSet(s.nextId, e, o.spec);
    NewIsOk(s.nextId, e, o.spec);
    CreatedIsHonest(s, x);
    AppendedMatches(s.scaleSets, x, e, o.spec.name);
  }

  /** The step that creates the scale set. */
  lemma ToBeCreated(s: Server, o: Options, e: Entity, budget: nat)
    requires 0 < s.nextId && 0 < e.id && !o.enable
    requires MatchingScaleSets(s.scaleSets, e, o.spec.name) == []
    ensures var x := NewScaleSet(s.nextId, e, o.spec);
            ScaleSetStep(s, o, e, true, budget) ==
            if budget == 0 then Step(s, [CreateScaleSet], Error, 0)
            else Step(s.(scaleSets := s.scaleSets + [x], nextId := s.nextId + 1), [CreateScaleSet], Here(x), budget - 1)
  {
    NewIsOk(s.nextId, e, o.spec);
  }

  lemma ResumeCreated(s: Server, o: Options, e: Entity, budget: nat, later: nat)
    requires Honest(s) && 0 < e.id < s.nextId
    requires MatchingScaleSets(s.scaleSets, e, o.spec.name) == []
    ensures var p := ScaleSetStep(s, o, e, true, budget);
            && Honest(p.server)
            && Resumes(p, ScaleSetStep(s, o, e, true, later), ScaleSetStep(p.server, o, e, true, later), later)
  {
    if !o.enable {
      ToBeCreated(s, o, e, budget);
      ToBeCreated(s, o, e, later);
      if budget > 0 {
        var x := NewScaleSet(s.nextId, e, o.spec);
        CreatedIsListed(s, o, e);
        NewIsOk(s.nextId, e, o.spec);
        AsAskedFor(s.(scaleSets := s.scaleSets + [x], nextId := s.nextId + 1), o, e, x, later);
      }
    }
  }

  lemma {:induction false} ScaleSetResumes(s: Server, o: Options, e: Entity, budget: nat, later: nat)
    requires Honest(s) && 0 < e.id < s.nextId
    ensures var p := ScaleSetStep(s, o, e, true, budget);
            && Honest(p.server)
            && Resumes(p, ScaleSetStep(s, o, e, true, later), ScaleSetStep(p.server, o, e, true, later), later)
  {
    var matches := MatchingScaleSets(s.scaleSets, e, o.spec.name);
    if |matches| == 0 {
      ResumeCreated(s, o, e, budget, later);
    } else if |matches| == 1 {
      var x := matches[0];
      assert matches == [x];
      if DriftOf(x, o.spec) == Drift(false, false, false) {
        if ScaleSetOk(x, e, o.spec) {
          ResumeSettled(s, o, e, x, budget, later);
        }
      } else if MayMigrate(x, e, o) {
        ResumeMigrated(s, o, e, x, budget, later);
      }
    }
  }

  // ---------------------------------------------------------------- whole runs

  lemma {:induction false} OrganizationsAreListed(s: seq<Organization>, name: string)
    ensures forall x :: x in MatchingOrganizations(s, name) <==> x in s && x.name == name
  {
    if s != [] {
      OrganizationsAreListed(s[..|s| - 1], name);
      assert s == s[..|s| - 1] + [s[|s| - 1]];
    }
  }

  lemma {:induction false} RepositoriesAreListed(s: seq<Repository>, full: string)
    ensures forall x :: x in MatchingRepositories(s, full) <==> x in s && x.owner + "/" + x.name == full
  {
    if s != [] {
      RepositoriesAreListed(s[..|s| - 1], full);
      assert s == s[..|s| - 1] + [s[|s| - 1]];
    }
  }

  /** The entity step keeps the server honest and yields an entity of that server. */
  ghost predicate EntityHonest(s: Server, e: Step<Entity>) {
    && Honest(e.server) && e.server.credentials == s.credentials
    && (e.found.Here? ==> 0 < e.found.value.id < e.server.nextId)
  }

  lemma OrganizationIsHonest(s: Server, o: Options, c: Credential, apply: bool, budget: nat)
    requires Honest(s)
    ensures EntityHonest(s, OrganizationStep(s, o, c, apply, budget))
  {
    OrganizationsAreListed(s.organizations, o.tenant.owner);
    var matches := MatchingOrganizations(s.organizations, o.tenant.owner);
    assert |matches| == 1 ==> matches[0] in matches;
  }

  lemma RepositoryIsHonest(s: Server, o: Options, c: Credential, apply: bool, budget: nat)
    requires Honest(s)
    ensures EntityHonest(s, RepositoryStep(s, o, c, apply, budget))
  {
    RepositoriesAreListed(s.repositories, o.tenant.repository);
    var matches := MatchingRepositories(s.repositories, o.tenant.repository);
    assert |matches| == 1 ==> matches[0] in matches;
  }

  lemma EntityIsHonest(s: Server, o: Options, c: Credential, apply: bool, budget: nat)
    requires Honest(s)
    ensures EntityHonest(s, EntityStep(s, o, c, apply, budget))
  {
    match o.kind
    case OfOrganization => OrganizationIsHonest(s, o, c, apply, budget);
    case OfRepository => RepositoryIsHonest(s, o, c, apply, budget);
    case Unsupported =>
  }

  /** Nothing but scale sets and the next identifier differs. */
  predicate SameEntities(s: Server, t: Server) {
    t.credentials == s.credentials && t.organizations == s.organizations && t.repositories == s.repositories
  }

  lemma MatchedFrame(s: Server, o: Options, e: Entity, x: ScaleSet, apply: bool, budget: nat)
    ensures SameEntities(s, MatchedStep(s, o, e, x, apply, budget).server)
  {
    var m := MigrationStep(s, o, e, x, apply, budget);
    assert SameEntities(s, m.server);
    if m.found.Here? {
      assert SameEntities(m.server, EnableStep(m.server, o, e, m.found.value, apply, m.budget).server);
    }
  }

  /** The scale set step touches nothing but scale sets. */
  lemma ScaleSetFrame(s: Server, o: Options, e: Entity, apply: bool, budget: nat)
    ensures SameEntities(s, ScaleSetStep(s, o, e, apply, budget).server)
  {
    var matches := MatchingScaleSets(s.scaleSets, e, o.spec.name);
    if |matches| == 1 {
      MatchedFrame(s, o, e, matches[0], apply, budget);
    }
  }

  /** The entity and scale set part of a run. */
  function FromEntity(s: Server, o: Options, c: Credential, budget: nat): Report {
    var e := EntityStep(s, o, c, true, budget);
    if e.found.Here? then
      var x := ScaleSetStep(e.server, o, e.found.value, true, e.budget);
      Report(x.server, !x.found.Error?, e.actions + x.actions)
    else Report(e.server, false, e.actions)
  }

  /** An entity that is created validates, so a failed step wrote nothing; and a step that
      found its entity finds the same one with any other budget. */
  lemma EntityAllOrNothing(s: Server, o: Options, c: Credential, budget: nat, later: nat)
    requires Honest(s) && 1 <= later
    ensures var e := EntityStep(s, o, c, true, budget);
            var f := EntityStep(s, o, c, true, later);
            && (e.found.Here? || e.server == s)
            && (e.found.Here? ==> f.server == e.server && f.found == e.found && later - 1 <= f.budget)
            && (f.found.Error? ==> e.found.Error?)
            && !e.found.Absent?
  {
  }

  /** Two writes are enough for every scale set step. */
  lemma ScaleSetPlenty(s: Server, o: Options, e: Entity, one: nat, other: nat)
    requires 2 <= one && 2 <= other
    ensures ScaleSetStep(s, o, e, true, one).server == ScaleSetStep(s, o, e, true, other).server
    ensures ScaleSetStep(s, o, e, true, one).found == ScaleSetStep(s, o, e, true, other).found
  {
  }

  lemma FromEntityResumes(s: Server, o: Options, c: Credential, budget: nat, later: nat)
    requires Honest(s) && 3 <= later
    ensures var p := FromEntity(s, o, c, budget);
            var q := FromEntity(s, o, c, later);
            var r := FromEntity(p.server, o, c, later);
            && Honest(p.server) && p.server.credentials == s.credentials
            && r.server == q.server && r.ok == q.ok
            && (p.ok ==> r == Report(p.server, true, []))
  {
    var e := EntityStep(s, o, c, true, budget);
    var f := EntityStep(s, o, c, true, later);
    EntityAllOrNothing(s, o, c, budget, later);
    EntityIsHonest(s, o, c, true, budget);
    if e.found.Here? {
      var entity := e.found.value;
      var x := ScaleSetStep(e.server, o, entity, true, e.budget);
      ScaleSetResumes(e.server, o, entity, e.budget, later);
      ScaleSetFrame(e.server, o, entity, true, e.budget);
      EntityAgain(s, o, c, budget, x.server, later);
      ScaleSetPlenty(e.server, o, entity, f.budget, later);
    }
  }

  /** More budget than enough changes nothing. */
  lemma FromEntityPlenty(s: Server, o: Options, c: Credential, one: nat, other: nat)
    requires Honest(s) && 3 <= one && 3 <= other
    ensures FromEntity(s, o, c, one).server == FromEntity(s, o, c, other).server
    ensures FromEntity(s, o, c, one).ok == FromEntity(s, o, c, other).ok
  {
    var e, f := EntityStep(s, o, c, true, one), EntityStep(s, o, c, true, other);
    EntityAllOrNothing(s, o, c, one, other);
    EntityAllOrNothing(s, o, c, other, one);
    if e.found.Here? {
      ScaleSetPlenty(e.server, o, e.found.value, e.budget, f.budget);
    }
  }

  lemma RunFromEntity(s: Server, o: Options, budget: nat)
    ensures var c := CredentialStep(s, o, true, budget);
            var r := Run(s, o, true, budget);
            && !c.found.Absent?
            && (c.found.Error? ==> r == Report(c.server, false, c.actions))
            && (c.found.Here? ==>
                  var f := FromEntity(c.server, o, c.found.value, c.budget);
                  r == Report(f.server, f.ok, c.actions + f.actions))
  {
    var c := CredentialStep(s, o, true, budget);
    if c.found.Here? {
      var e := EntityStep(c.server, o, c.found.value, true, c.budget);
      EntityNeverAbsent(c.server, o, c.found.value, c.budget);
    }
  }

  lemma EntityNeverAbsent(s: Server, o: Options, c: Credential, budget: nat)
    ensures !EntityStep(s, o, c, true, budget).found.Absent?
  {
  }

  lemma CredentialAllOrNothing(s: Server, o: Options, budget: nat, later: nat)
    requires Honest(s) && 1 <= later
    ensures var c := CredentialStep(s, o, true, budget);
            var d := CredentialStep(s, o, true, later);
            && Honest(c.server)
            && (c.found.Here? || c.server == s)
            && (c.found.Here? ==> d.server == c.server && d.found == c.found && later - 1 <= d.budget)
  {
  }

  /** Stop an apply after any number of writes and run it again: it ends on the server, and
      with the verdict, of an apply that was not stopped. */
  lemma {:induction false} ApplyConverges(s: Server, o: Options, budget: nat, later: nat)
    requires Honest(s) && PLENTY <= later
    ensures var stopped := Run(s, o, true, budget);
            var straight := Run(s, o, true, later);
            var again := Run(stopped.server, o, true, later);
            && Honest(stopped.server)
            && again.server == straight.server && again.ok == straight.ok
            && (stopped.ok ==> again == Report(stopped.server, true, []))
  {
    var c := CredentialStep(s, o, true, budget);
    var d := CredentialStep(s, o, true, later);
    RunFromEntity(s, o, budget);
    RunFromEntity(s, o, later);
    CredentialAllOrNothing(s, o, budget, later);
    if c.found.Here? {
      var credential := c.found.value;
      var p := FromEntity(c.server, o, credential, c.budget);
      FromEntityResumes(c.server, o, credential, c.budget, later);
      FromEntityPlenty(c.server, o, credential, d.budget, later);
      CredentialAgain(s, o, budget, p.server, later);
      RunFromEntity(p.server, o, later);
    }
  }

  /** A successful apply leaves nothing for the next one to do, whatever it may write. */
  lemma {:induction false} ApplyIsIdempotent(s: Server, o: Options, budget: nat, later: nat)
    requires Honest(s) && Run(s, o, true, budget).ok
    ensures var t := Run(s, o, true, budget).server;
            Run(t, o, true, later) == Report(t, true, [])
  {
    var c := CredentialStep(s, o, true, budget);
    RunFromEntity(s, o, budget);
    CredentialAllOrNothing(s, o, budget, 1);
    var credential := c.found.value;
    var e := EntityStep(c.server, o, credential, true, c.budget);
    var t := Run(s, o, true, budget).server;
    EntityIsHonest(c.server, o, credential, true, c.budget);
    ScaleSetResumes(e.server, o, e.found.value, e.budget, later);
    ScaleSetFrame(e.server, o, e.found.value, true, e.budget);
    EntityAgain(c.server, o, credential, c.budget, t, later);
    CredentialAgain(s, o, budget, t, later);
    RunFromEntity(t, o, later);
  }

  // ---------------------------------------------------------------- enabling

  /** `x` was on the server before the run, and validates as it is now, under an entity of
      the kind asked for. */
  ghost predicate Verified(s: Server, o: Options, x: ScaleSet) {
    exists e: Entity, y: ScaleSet :: IsVerified(s, o, x, e, y)
  }

  predicate IsVerified(s: Server, o: Options, x: ScaleSet, e: Entity, y: ScaleSet) {
    && y in s.scaleSets && e.kind == o.kind && Hangs(y, e) && ScaleSetOk(x, e, o.spec)
    && (x == y.(enabled := true) || (MayMigrate(y, e, o) && x == Migrated(y, o.spec).(enabled := true)))
  }

  /** Every scale set that is enabled now was enabled before, or was asked for and verified. */
  ghost predicate EnabledAsAsked(s: Server, o: Options, t: Server) {
    forall x :: x in t.scaleSets && x.enabled ==> x in s.scaleSets || (o.enable && Verified(s, o, x))
  }

  lemma PutEnables(s: Server, o: Options, x: ScaleSet)
    requires x.enabled ==> o.enable && Verified(s, o, x)
    ensures EnabledAsAsked(s, o, s.(scaleSets := PutScaleSet(s.scaleSets, x)))
  {
    PutKeeps(s.scaleSets, x);
    var t := PutScaleSet(s.scaleSets, x);
    forall y | y in t ensures y == x || y in s.scaleSets {
      var i :| 0 <= i < |t| && t[i] == y;
      assert y == s.scaleSets[i] || y == x;
    }
  }

  lemma MatchedEnables(s: Server, o: Options, e: Entity, x: ScaleSet, budget: nat)
    requires x in s.scaleSets && e.kind == o.kind && Hangs(x, e)
    ensures EnabledAsAsked(s, o, MatchedStep(s, o, e, x, true, budget).server)
  {
    var m := MigrationStep(s, o, e, x, true, budget);
    if m.found.Here? {
      var y := m.found.value;
      var on := y.(enabled := true);
      assert ScaleSetOk(y, e, o.spec);
      assert o.enable && !y.enabled ==> IsVerified(s, o, on, e, x);
      if o.enable && !y.enabled {
        PutEnables(s, o, on);
        PutTwice(s.scaleSets, y, on);
      }
      PutEnables(s, o, y.(enabled := false));
    }
  }

  lemma ScaleSetEnables(s: Server, o: Options, e: Entity, budget: nat)
    requires e.kind == o.kind
    ensures EnabledAsAsked(s, o, ScaleSetStep(s, o, e, true, budget).server)
  {
    var matches := MatchingScaleSets(s.scaleSets, e, o.spec.name);
    if |matches| == 1 {
      var x := TheMatch(s, o, e);
      MatchedEnables(s, o, e, x, budget);
    }
  }

  lemma EntityFrame(s: Server, o: Options, c: Credential, budget: nat)
    ensures var e := EntityStep(s, o, c, true, budget);
            e.server.scaleSets == s.scaleSets && (e.found.Here? ==> e.found.value.kind == o.kind)
  {
  }

  /** At every moment of every apply run, complete or cut, a newly enabled scale set was
      there before the run began, was asked to be enabled, and validates against the spec. */
  lemma {:induction false} EnabledOnlyWhenVerified(s: Server, o: Options, budget: nat)
    ensures EnabledAsAsked(s, o, Run(s, o, true, budget).server)
  {
    var c := CredentialStep(s, o, true, budget);
    RunFromEntity(s, o, budget);
    assert c.server.scaleSets == s.scaleSets;
    if c.found.Here? {
      EntityFrame(c.server, o, c.found.value, c.budget);
      var e := EntityStep(c.server, o, c.found.value, true, c.budget);
      if e.found.Here? {
        ScaleSetEnables(e.server, o, e.found.value, e.budget);
        forall x | Verified(e.server, o, x) ensures Verified(s, o, x) {
          var f, y :| IsVerified(e.server, o, x, f, y);
          assert IsVerified(s, o, x, f, y);
        }
      }
    }
  }

  // ---------------------------------------------------------------- what a step leaves

  lemma {:induction false} CredentialsAreListed(s: seq<Credential>, name: string)
    ensures forall x :: x in MatchingCredentials(s, name) <==> x in s && x.name == name
  {
    if s != [] {
      CredentialsAreListed(s[..|s| - 1], name);
      assert s == s[..|s| - 1] + [s[|s| - 1]];
    }
  }

  /** A found credential is valid and the only one of its name; credentials are only added,
      and only by an apply that does not enable. */
  ghost predicate CredentialPromise(s: Server, o: Options, apply: bool, t: Server, found: Found<Credential>) {
    && (found.Here? ==> CredentialOk(found.value, o) && MatchingCredentials(t.credentials, o.tenant.credentialName) == [found.value])
    && (found.Absent? ==> !apply && forall c :: c in s.credentials ==> c.name != o.tenant.credentialName)
    && (!apply || o.enable ==> t == s)
    && s.credentials <= t.credentials && t == s.(credentials := t.credentials, nextId := t.nextId)
  }

  lemma CredentialKeepsPromise(s: Server, o: Options, apply: bool, budget: nat)
    ensures var r := CredentialStep(s, o, apply, budget);
            CredentialPromise(s, o, apply, r.server, r.found)
  {
    var r := CredentialStep(s, o, apply, budget);
    var matches := MatchingCredentials(s.credentials, o.tenant.credentialName);
    CredentialsAreListed(s.credentials, o.tenant.credentialName);
    assert matches == [] ==> forall c :: c in s.credentials && c.name == o.tenant.credentialName ==> c in matches;
    if |r.server.credentials| > |s.credentials| {
      assert r.server.credentials[..|r.server.credentials| - 1] == s.credentials;
    }
  }

  /** The server lists a valid organization, or repository, with this identifier. */
  ghost predicate IsOrganization(t: Server, o: Options, c: Credential, id: nat) {
    exists x :: x in t.organizations && x.id == id && OrganizationOk(x, o, c)
  }

  ghost predicate IsRepository(t: Server, o: Options, c: Credential, id: nat) {
    exists x :: x in t.repositories && x.id == id && RepositoryOk(x, o, c)
  }

  ghost predicate IsEntity(t: Server, o: Options, c: Credential, e: Entity) {
    match e.kind
    case OfOrganization => IsOrganization(t, o, c, e.id)
    case OfRepository => IsRepository(t, o, c, e.id)
    case Unsupported => false
  }

  /** A found entity is of the kind asked for, listed and valid; entities are only added, and
      only by an apply that does not enable; nothing else changes. */
  ghost predicate EntityPromise(s: Server, o: Options, c: Credential, apply: bool, t: Server, found: Found<Entity>) {
    && (found.Here? ==> found.value.kind == o.kind && IsEntity(t, o, c, found.value))
    && (found.Absent? ==> !apply)
    && (!apply || o.enable ==> t == s) && (0 < s.nextId && !found.Here? ==> t == s)
    && s.organizations <= t.organizations && s.repositories <= t.repositories
    && t == s.(organizations := t.organizations, repositories := t.repositories, nextId := t.nextId)
  }

  lemma OrganizationKeepsPromise(s: Server, o: Options, c: Credential, apply: bool, budget: nat)
    requires o.kind == OfOrganization
    ensures var r := OrganizationStep(s, o, c, apply, budget);
            EntityPromise(s, o, c, apply, r.server, r.found)
  {
    var r := OrganizationStep(s, o, c, apply, budget);
    var matches := MatchingOrganizations(s.organizations, o.tenant.owner);
    OrganizationsAreListed(s.organizations, o.tenant.owner);
    assert |matches| == 1 ==> matches[0] in matches;
    if |matches| == 0 && r.found.Here? {
      var all := r.server.organizations;
      assert all[|all| - 1] in all && OrganizationOk(all[|all| - 1], o, c);
    }
  }

  lemma RepositoryKeepsPromise(s: Server, o: Options, c: Credential, apply: bool, budget: nat)
    requires o.kind == OfRepository
    ensures var r := RepositoryStep(s, o, c, apply, budget);
            EntityPromise(s, o, c, apply, r.server, r.found)
  {
    var r := RepositoryStep(s, o, c, apply, budget);
    var matches := MatchingRepositories(s.repositories, o.tenant.repository);
    RepositoriesAreListed(s.repositories, o.tenant.repository);
    assert |matches| == 1 ==> matches[0] in matches;
    if |matches| == 0 && r.found.Here? {
      var all := r.server.repositories;
      assert all[|all| - 1] in all && RepositoryOk(all[|all| - 1], o, c);
    }
  }

  /** A found scale set validates against the spec; after an apply it is on the server and
      enabled exactly as asked; no other is newly enabled, and entities stay as they are. */
  ghost predicate ScaleSetPromise(s: Server, o: Options, e: Entity, apply: bool, t: Server, found: Found<ScaleSet>) {
    && (found.Here? ==> ScaleSetOk(found.value, e, o.spec))
    && (found.Here? && apply ==> found.value in t.scaleSets && found.value.enabled == o.enable)
    && (found.Absent? ==> !apply && !o.enable)
    && (!apply ==> t == s)
    && SameEntities(s, t)
    && (e.kind == o.kind ==> EnabledAsAsked(s, o, t))
  }

  lemma PutIsListed(s: seq<ScaleSet>, x: ScaleSet, y: ScaleSet)
    requires x in s && x.id == y.id
    ensures y in PutScaleSet(s, y)
  {
    PutKeeps(s, y);
    var i :| 0 <= i < |s| && s[i] == x;
    assert PutScaleSet(s, y)[i] == y;
  }

  lemma MigrationIsListed(s: Server, o: Options, e: Entity, x: ScaleSet, budget: nat)
    requires x in s.scaleSets
    ensures var m := MigrationStep(s, o, e, x, true, budget);
            m.found.Here? ==> m.found.value in m.server.scaleSets && ScaleSetOk(m.found.value, e, o.spec)
  {
    PutIsListed(s.scaleSets, x, Migrated(x, o.spec));
  }

  lemma EnableIsListed(s: Server, o: Options, e: Entity, x: ScaleSet, budget: nat)
    requires x in s.scaleSets && ScaleSetOk(x, e, o.spec)
    ensures var r := EnableStep(s, o, e, x, true, budget);
            r.found.Here? ==> r.found.value in r.server.scaleSets && ScaleSetOk(r.found.value, e, o.spec) && r.found.value.enabled == o.enable
  {
    PutIsListed(s.scaleSets, x, x.(enabled := true));
  }

  lemma MatchedIsListed(s: Server, o: Options, e: Entity, x: ScaleSet, budget: nat)
    requires x in s.scaleSets
    ensures var r := MatchedStep(s, o, e, x, true, budget);
            !r.found.Absent? &&
            (r.found.Here? ==> r.found.value in r.server.scaleSets && ScaleSetOk(r.found.value, e, o.spec) && r.found.value.enabled == o.enable)
  {
    var m := MigrationStep(s, o, e, x, true, budget);
    MigrationIsListed(s, o, e, x, budget);
    if m.found.Here? {
      EnableIsListed(m.server, o, e, m.found.value, m.budget);
    }
  }

  lemma MatchedValidates(s: Server, o: Options, e: Entity, x: ScaleSet, budget: nat)
    ensures var r := MatchedStep(s, o, e, x, false, budget);
            r.server == s && !r.found.Absent? && (r.found.Here? ==> ScaleSetOk(r.found.value, e, o.spec))
  {
  }

  lemma ScaleSetIsFound(s: Server, o: Options, e: Entity, apply: bool, budget: nat)
    ensures var r := ScaleSetStep(s, o, e, apply, budget);
            && (r.found.Here? ==> ScaleSetOk(r.found.value, e, o.spec))
            && (r.found.Here? && apply ==> r.found.value in r.server.scaleSets && r.found.value.enabled == o.enable)
            && (r.found.Absent? ==> !apply && !o.enable)
            && (!apply ==> r.server == s)
  {
    var matches := MatchingScaleSets(s.scaleSets, e, o.spec.name);
    if |matches| == 1 {
      var x := TheMatch(s, o, e);
      MatchedIsListed(s, o, e, x, budget);
      MatchedValidates(s, o, e, x, budget);
    }
  }

  lemma ScaleSetKeepsPromise(s: Server, o: Options, e: Entity, apply: bool, budget: nat)
    ensures var r := ScaleSetStep(s, o, e, apply, budget);
            ScaleSetPromise(s, o, e, apply, r.server, r.found)
  {
    ScaleSetIsFound(s, o, e, apply, budget);
    ScaleSetFrame(s, o, e, apply, budget);
    if e.kind == o.kind && apply {
      ScaleSetEnables(s, o, e, budget);
    }
  }
}
