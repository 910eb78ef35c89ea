/** What a reconciliation run may change, field by field, and exactly when it succeeds. */
module ReconcileFields {
  import opened Text
  import opened Reconcile
  import opened ReconcileProofs
  import opened ReconcilePlan

  // ---------------------------------------------------------------- activation specs

  lemma {:induction false} OnlyKeys(m: map<SpecKey, Json>, keys: set<SpecKey>)
    requires keys <= m.Keys && |m| == |keys|
    ensures m.Keys == keys
  {
    var rest := m.Keys - keys;
    assert m.Keys == keys + rest;
    assert |m.Keys| == |keys| + |rest|;
  }

  /** The match is exact: extra specs match a mode only if they are what the mode writes. */
  lemma SpecsMatchIff(specs: ExtraSpecs, directJIT: bool)
    ensures SpecsMatch(specs, directJIT) <==> specs == DesiredSpecs(directJIT)
  {
    if SpecsMatch(specs, directJIT) {
      if directJIT {
        OnlyKeys(specs.value, {DisableUpdates, DirectJIT});
        assert specs.value == map[DisableUpdates := True, DirectJIT := True];
      } else {
        OnlyKeys(specs.value, {DisableUpdates});
        assert specs.value == map[DisableUpdates := True];
      }
    }
  }

  // ---------------------------------------------------------------- permitted changes

  /** Every difference between a scale set before and after was asked for, and is the spec's
      value; what the reconciler never writes is as it was. */
  predicate Permitted(x: ScaleSet, y: ScaleSet, o: Options) {
    && y.id == x.id && y.name == x.name && y.repoId == x.repoId && y.orgId == x.orgId && y.fixed == x.fixed
    && (y.maxRunners != x.maxRunners ==> o.migrateCapacity && y.maxRunners == o.spec.maxRunners)
    && (y.image != x.image || y.flavor != x.flavor ==> o.migrateImage && y.image == o.spec.image && y.flavor == o.spec.flavor)
    && (y.specs != x.specs ==>
          o.migrateActivation && y.specs == DesiredSpecs(o.spec.directJIT) && x.specs == DesiredSpecs(!o.spec.directJIT))
    && (x.enabled && !y.enabled ==>
          y.maxRunners != x.maxRunners || y.image != x.image || y.flavor != x.flavor || y.specs != x.specs)
    && (!x.enabled && y.enabled ==> o.enable)
    && (y != x ==> x.name == o.spec.name)
  }

  /** All scale sets of before are there, in place, with permitted changes only; a new one is
      disabled and as the spec asks, and only a run that does not enable creates it. */
  ghost predicate ChangesAsAsked(s: seq<ScaleSet>, t: seq<ScaleSet>, o: Options) {
    && |s| <= |t| <= |s| + 1
    && (forall i :: 0 <= i < |s| ==> Permitted(s[i], t[i], o))
    && (|t| > |s| ==> !o.enable && AsCreated(t[|s|], o) && forall i :: 0 <= i < |s| ==> t[i] == s[i])
  }

  predicate AsCreated(x: ScaleSet, o: Options) {
    && x.name == o.spec.name && x.image == o.spec.image && x.flavor == o.spec.flavor && x.maxRunners == o.spec.maxRunners
    && x.specs == DesiredSpecs(o.spec.directJIT) && !x.enabled
  }

  /** The migration of a scale set that may be migrated is permitted, enabled or not. */
  lemma MigratedIsPermitted(x: ScaleSet, e: Entity, o: Options)
    requires DriftOf(x, o.spec) != Drift(false, false, false) && MayMigrate(x, e, o)
    ensures Permitted(x, Migrated(x, o.spec), o)
    ensures o.enable ==> Permitted(x, Migrated(x, o.spec).(enabled := true), o)
  {
    SpecsMatchIff(x.specs, true);
    SpecsMatchIff(x.specs, false);
    SpecsMatchIff(Migrated(x, o.spec).specs, o.spec.directJIT);
  }

  lemma PutPermits(s: seq<ScaleSet>, x: ScaleSet, y: ScaleSet, o: Options)
    requires DistinctIds(s) && x in s && x.id == y.id && Permitted(x, y, o)
    ensures ChangesAsAsked(s, PutScaleSet(s, y), o)
  {
    PutKeeps(s, y);
    var t := PutScaleSet(s, y);
    var j :| 0 <= j < |s| && s[j] == x;
    forall i | 0 <= i < |s| ensures Permitted(s[i], t[i], o) {
      assert s[i].id == y.id ==> i == j;
    }
  }

  lemma MatchedChanges(s: Server, o: Options, e: Entity, x: ScaleSet, budget: nat)
    requires DistinctIds(s.scaleSets) && x in s.scaleSets && x.name == o.spec.name
    ensures ChangesAsAsked(s.scaleSets, MatchedStep(s, o, e, x, true, budget).server.scaleSets, o)
  {
    if DriftOf(x, o.spec) == Drift(false, false, false) {
      if o.enable && !x.enabled { PutPermits(s.scaleSets, x, x.(enabled := true), o); }
    } else if MayMigrate(x, e, o) {
      MigrationChanges(s, o, e, x, budget);
    }
  }

  /** What a migration may have written when it is cut. */
  lemma MigrationWrites(s: Server, o: Options, e: Entity, x: ScaleSet, budget: nat)
    requires DriftOf(x, o.spec) != Drift(false, false, false) && MayMigrate(x, e, o)
    ensures var t := MatchedStep(s, o, e, x, true, budget).server.scaleSets;
            var y := Migrated(x, o.spec);
            || t == s.scaleSets || t == PutScaleSet(s.scaleSets, y)
            || (o.enable && t == PutScaleSet(s.scaleSets, y.(enabled := true)))
  {
    PutTwice(s.scaleSets, Migrated(x, o.spec), Migrated(x, o.spec).(enabled := true));
  }

  lemma MigrationChanges(s: Server, o: Options, e: Entity, x: ScaleSet, budget: nat)
    requires DistinctIds(s.scaleSets) && x in s.scaleSets && x.name == o.spec.name
    requires DriftOf(x, o.spec) != Drift(false, false, false) && MayMigrate(x, e, o)
    ensures ChangesAsAsked(s.scaleSets, MatchedStep(s, o, e, x, true, budget).server.scaleSets, o)
  {
    MigrationWrites(s, o, e, x, budget);
    MigratedIsPermitted(x, e, o);
    PutPermits(s.scaleSets, x, Migrated(x, o.spec), o);
    if o.enable {
      PutPermits(s.scaleSets, x, Migrated(x, o.spec).(enabled := true), o);
    }
  }

  lemma ScaleSetChanges(s: Server, o: Options, e: Entity, apply: bool, budget: nat)
    requires DistinctIds(s.scaleSets)
    ensures ChangesAsAsked(s.scaleSets, ScaleSetStep(s, o, e, apply, budget).server.scaleSets, o)
  {
    var matches := MatchingScaleSets(s.scaleSets, e, o.spec.name);
    if !apply {
      ScaleSetIsFound(s, o, e, false, budget);
    } else if |matches| == 1 {
      var x := TheMatch(s, o, e);
      MatchedChanges(s, o, e, x, budget);
    }
  }

  /** At every moment of every run, complete or cut, on every server with distinct ids. */
  lemma {:induction false} RunChangesAsAsked(s: Server, o: Options, apply: bool, budget: nat)
    requires DistinctIds(s.scaleSets)
    ensures ChangesAsAsked(s.scaleSets, Run(s, o, apply, budget).server.scaleSets, o)
  {
    var c := CredentialStep(s, o, apply, budget);
    assert c.server.scaleSets == s.scaleSets;
    if c.found.Here? {
      EntityLeavesScaleSets(c.server, o, c.found.value, apply, c.budget);
      var e := EntityStep(c.server, o, c.found.value, apply, c.budget);
      if e.found.Here? {
        ScaleSetChanges(e.server, o, e.found.value, apply, e.budget);
      }
    }
  }

  lemma EntityLeavesScaleSets(s: Server, o: Options, c: Credential, apply: bool, budget: nat)
    ensures EntityStep(s, o, c, apply, budget).server.scaleSets == s.scaleSets
  {
  }

  // ---------------------------------------------------------------- reported migrations

  /** The fields in which the scale set differs from the spec are those the action names. */
  predicate Names(a: Action, x: ScaleSet, spec: Spec) {
    var image := x.image != spec.image || x.flavor != spec.flavor;
    var capacity := x.maxRunners != spec.maxRunners;
    var activation := x.specs != DesiredSpecs(spec.directJIT);
    match a
    case MigrateImageAndRuntime => image && (capacity || activation)
    case MigrateImage => image && !capacity && !activation
    case MigrateActivationAndCapacity => !image && capacity && activation
    case MigrateActivation => !image && !capacity && activation
    case MigrateCapacity => !image && capacity && !activation
    case _ => false
  }

  predicate IsMigration(a: Action) {
    a.MigrateImageAndRuntime? || a.MigrateImage? || a.MigrateActivationAndCapacity? || a.MigrateActivation? || a.MigrateCapacity?
  }

  /** The actions of the scale set step say what is there and what is done to it. */
  ghost predicate Tells(s: Server, o: Options, e: Entity, actions: seq<Action>) {
    forall a :: a in actions ==>
      || (a == CreateScaleSet && !o.enable && MatchingScaleSets(s.scaleSets, e, o.spec.name) == [])
      || (a == EnableScaleSet && o.enable && exists x :: x in s.scaleSets && Hangs(x, e) && x.name == o.spec.name)
      || (IsMigration(a) && exists x :: x in s.scaleSets && Hangs(x, e) && x.name == o.spec.name && Names(a, x, o.spec))
  }

  lemma MigrationIsNamed(x: ScaleSet, spec: Spec)
    requires DriftOf(x, spec) != Drift(false, false, false)
    ensures Names(MigrationAction(DriftOf(x, spec)), x, spec) && IsMigration(MigrationAction(DriftOf(x, spec)))
  {
    SpecsMatchIff(x.specs, spec.directJIT);
  }

  lemma ScaleSetTells(s: Server, o: Options, e: Entity, apply: bool, budget: nat)
    ensures Tells(s, o, e, ScaleSetStep(s, o, e, apply, budget).actions)
  {
    var matches := MatchingScaleSets(s.scaleSets, e, o.spec.name);
    if |matches| == 1 {
      var x := TheMatch(s, o, e);
      MatchedTells(s, o, e, x, apply, budget);
    }
  }

  lemma MatchedTells(s: Server, o: Options, e: Entity, x: ScaleSet, apply: bool, budget: nat)
    requires x in s.scaleSets && Hangs(x, e) && x.name == o.spec.name
    ensures Tells(s, o, e, MatchedStep(s, o, e, x, apply, budget).actions)
  {
    if DriftOf(x, o.spec) != Drift(false, false, false) { MigrationIsNamed(x, o.spec); }
  }

  // ---------------------------------------------------------------- when a run succeeds

  predicate AsSpecified(x: ScaleSet, spec: Spec) {
    x.maxRunners == spec.maxRunners && x.image == spec.image && x.flavor == spec.flavor && x.specs == DesiredSpecs(spec.directJIT)
  }

  /** The scale set the server has can be brought to the spec: every field that differs may
      be migrated, and one that is already right and enabled was asked to be enabled. */
  predicate Migratable(x: ScaleSet, o: Options) {
    && x.id != 0 && x.fixed
    && (x.maxRunners != o.spec.maxRunners ==> o.migrateCapacity)
    && (x.image != o.spec.image || x.flavor != o.spec.flavor ==> o.migrateImage)
    && (x.specs != DesiredSpecs(o.spec.directJIT) ==> o.migrateActivation && x.specs == DesiredSpecs(!o.spec.directJIT))
    && (x.enabled && AsSpecified(x, o.spec) ==> o.enable)
  }

  predicate ScaleSetReady(s: Server, o: Options, e: Entity) {
    var matches := MatchingScaleSets(s.scaleSets, e, o.spec.name);
    (matches == [] && !o.enable) || (|matches| == 1 && Migratable(matches[0], o))
  }

  lemma MatchedSucceedsIff(s: Server, o: Options, e: Entity, x: ScaleSet, budget: nat)
    requires 2 <= budget && 0 < e.id && Hangs(x, e) && x.name == o.spec.name
    ensures MatchedStep(s, o, e, x, true, budget).found.Here? <==> Migratable(x, o)
  {
    SpecsMatchIff(x.specs, true);
    SpecsMatchIff(x.specs, false);
    SpecsMatchIff(DesiredSpecs(o.spec.directJIT), o.spec.directJIT);
    var m := MigrationStep(s, o, e, x, true, budget);
    if m.found.Here? {
      assert ScaleSetOk(m.found.value, e, o.spec) && ScaleSetOk(m.found.value.(enabled := true), e, o.spec);
    }
  }

  lemma ScaleSetSucceedsIff(s: Server, o: Options, e: Entity, budget: nat)
    requires 2 <= budget && 0 < e.id && 0 < s.nextId
    ensures ScaleSetStep(s, o, e, true, budget).found.Here? <==> ScaleSetReady(s, o, e)
    ensures !ScaleSetStep(s, o, e, true, budget).found.Absent?
  {
    var matches := MatchingScaleSets(s.scaleSets, e, o.spec.name);
    ScaleSetIsFound(s, o, e, true, budget);
    if matches == [] {
      NewIsOk(s.nextId, e, o.spec);
    } else if |matches| == 1 {
      var x := TheMatch(s, o, e);
      MatchedSucceedsIff(s, o, e, x, budget);
    }
  }

  /** The entity is there, once, bound to this credential and within its bounds, and its scale
      set is ready; or it is not there and may be created. */
  predicate OrganizationReady(s: Server, o: Options, credential: nat) {
    var matches := MatchingOrganizations(s.organizations, o.tenant.owner);
    || (matches == [] && !o.enable)
    || (|matches| == 1
        && var x := matches[0];
           x.id != 0 && x.name == o.tenant.owner && x.credentialName == o.tenant.credentialName && x.credentialId in {0, credential}
           && x.bounded && ScaleSetReady(s, o, Entity(OfOrganization, x.id)))
  }

  predicate RepositoryReady(s: Server, o: Options, credential: nat) {
    var matches := MatchingRepositories(s.repositories, o.tenant.repository);
    || (matches == [] && !o.enable && OwnerName(o.tenant.repository))
    || (|matches| == 1
        && var x := matches[0];
           x.id != 0 && x.owner + "/" + x.name == o.tenant.repository && x.credentialName == o.tenant.credentialName
           && x.credentialId in {0, credential} && x.bounded && ScaleSetReady(s, o, Entity(OfRepository, x.id)))
  }

  predicate EntityReady(s: Server, o: Options, credential: nat) {
    match o.kind
    case OfOrganization => OrganizationReady(s, o, credential)
    case OfRepository => RepositoryReady(s, o, credential)
    case Unsupported => false
  }

  /** What an operator can check on the server beforehand. */
  predicate Ready(s: Server, o: Options) {
    var matches := MatchingCredentials(s.credentials, o.tenant.credentialName);
    || (matches == [] && !o.enable && o.bundle && EntityReady(s, o, s.nextId))
    || (|matches| == 1
        && var c := matches[0];
           c.id != 0 && c.name == o.tenant.credentialName && c.description == o.description && c.app && EntityReady(s, o, c.id))
  }

  lemma FromEntitySucceedsIff(s: Server, o: Options, c: Credential, budget: nat)
    requires Honest(s) && 3 <= budget
    ensures FromEntity(s, o, c, budget).ok <==> EntityReady(s, o, c.id)
  {
    ListedIffMatched(s, o);
    EntityPlan(s, o, c, budget);
    var e := EntityStep(s, o, c, true, budget);
    if o.kind != Unsupported && !EntityListed(s, o) && !o.enable {
      FreshEntity(s, o, c, budget);
    } else if e.found.Here? {
      EntityIsHonest(s, o, c, true, budget);
      ScaleSetSucceedsIff(s, o, e.found.value, budget);
    }
  }

  lemma EntityReadyFrame(s: Server, t: Server, o: Options, credential: nat)
    requires t == s.(credentials := t.credentials, nextId := t.nextId)
    ensures EntityReady(s, o, credential) <==> EntityReady(t, o, credential)
  {
  }

  /** An uninterrupted apply on an honest server succeeds if and only if the server was ready. */
  lemma {:induction false} ApplySucceedsIff(s: Server, o: Options, budget: nat)
    requires Honest(s) && PLENTY <= budget
    ensures Run(s, o, true, budget).ok <==> Ready(s, o)
  {
    var c := CredentialStep(s, o, true, budget);
    var matches := MatchingCredentials(s.credentials, o.tenant.credentialName);
    RunFromEntity(s, o, budget);
    CredentialAllOrNothing(s, o, budget, budget);
    if c.found.Here? {
      FromEntitySucceedsIff(c.server, o, c.found.value, c.budget);
      EntityReadyFrame(s, c.server, o, c.found.value.id);
    }
  }

  // ---------------------------------------------------------------- what a success leaves

  /** The server has the scale set asked for: under an entity of the kind asked for, as the
      spec says in every field, and enabled or disabled as asked. */
  ghost predicate InForce(t: Server, o: Options) {
    exists e: Entity, x: ScaleSet :: IsInForce(t, o, e, x)
  }

  predicate IsInForce(t: Server, o: Options, e: Entity, x: ScaleSet) {
    && x in t.scaleSets && e.kind == o.kind && Hangs(x, e)
    && x.id != 0 && x.name == o.spec.name && x.fixed && AsSpecified(x, o.spec) && x.enabled == o.enable
  }

  lemma OkIsAsSpecified(x: ScaleSet, e: Entity, spec: Spec)
    ensures ScaleSetOk(x, e, spec) ==> x.id != 0 && x.name == spec.name && x.fixed && AsSpecified(x, spec) && Hangs(x, e)
  {
    SpecsMatchIff(x.specs, spec.directJIT);
  }

  lemma {:induction false} SuccessIsInForce(s: Server, o: Options, budget: nat)
    requires Run(s, o, true, budget).ok
    ensures InForce(Run(s, o, true, budget).server, o)
  {
    var c := CredentialStep(s, o, true, budget);
    RunFromEntity(s, o, budget);
    var e := EntityStep(c.server, o, c.found.value, true, c.budget);
    EntityFrame(c.server, o, c.found.value, c.budget);
    var x := ScaleSetStep(e.server, o, e.found.value, true, e.budget);
    ScaleSetIsFound(e.server, o, e.found.value, true, e.budget);
    OkIsAsSpecified(x.found.value, e.found.value, o.spec);
    assert IsInForce(x.server, o, e.found.value, x.found.value);
  }
}
