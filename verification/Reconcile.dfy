/** The GARM reconciler: credential, entity and scale set are matched, validated and,
    when applying, created, migrated or enabled on the server. */
module Reconcile {
  import opened Text

  // ---------------------------------------------------------------- the server

  /** Identifiers are positive; 0 stands for a missing one. */
  datatype Credential = Credential(id: nat, name: string, description: string, app: bool)

  /** `bounded` is the verdict on agent mode, endpoint, balancer and pools. */
  datatype Organization = Organization(id: nat, name: string, credentialName: string, credentialId: nat, bounded: bool)

  datatype Repository = Repository(id: nat, owner: string, name: string, credentialName: string, credentialId: nat, bounded: bool)

  datatype Json = True | Other

  datatype SpecKey = DisableUpdates | DirectJIT | OtherKey(name: string)

  /** Decoded extra specs; None when the raw text is not an object. */
  type ExtraSpecs = Option<map<SpecKey, Json>>

  /** `fixed` is the verdict on the fields the reconciler never writes after creation:
      provider, platform, prefix, update policy, idle count, timeout, shell, group, labels. */
  datatype ScaleSet = ScaleSet(
    id: nat, name: string, repoId: nat, orgId: nat, fixed: bool,
    image: string, flavor: string, maxRunners: nat, specs: ExtraSpecs, enabled: bool)

  datatype Server = Server(
    credentials: seq<Credential>, organizations: seq<Organization>, repositories: seq<Repository>,
    scaleSets: seq<ScaleSet>, nextId: nat)

  datatype Kind = OfRepository | OfOrganization | Unsupported

  datatype Entity = Entity(kind: Kind, id: nat)

  datatype Tenant = Tenant(credentialName: string, owner: string, repository: string)

  datatype Spec = Spec(name: string, image: string, flavor: string, maxRunners: nat, directJIT: bool)

  datatype Options = Options(
    kind: Kind, tenant: Tenant, description: string, bundle: bool, spec: Spec,
    enable: bool, migrateActivation: bool, migrateCapacity: bool, migrateImage: bool)

  // ---------------------------------------------------------------- pure checks

  /** `activationSpecsMatch`. */
  predicate SpecsMatch(specs: ExtraSpecs, directJIT: bool) {
    specs.Some? && DisableUpdates in specs.value && specs.value[DisableUpdates] == True &&
    if directJIT then |specs.value| == 2 && DirectJIT in specs.value && specs.value[DirectJIT] == True
    else |specs.value| == 1
  }

  function DesiredSpecs(directJIT: bool): ExtraSpecs {
    if directJIT then Some(map[DisableUpdates := True, DirectJIT := True])
    else Some(map[DisableUpdates := True])
  }

  predicate CredentialOk(c: Credential, o: Options) {
    c.id != 0 && c.name == o.tenant.credentialName && c.description == o.description && c.app
  }

  predicate OrganizationOk(e: Organization, o: Options, c: Credential) {
    e.id != 0 && e.name == o.tenant.owner && e.credentialName == o.tenant.credentialName &&
    (e.credentialId == 0 || e.credentialId == c.id) && e.bounded
  }

  predicate RepositoryOk(e: Repository, o: Options, c: Credential) {
    e.id != 0 && e.owner + "/" + e.name == o.tenant.repository && e.credentialName == o.tenant.credentialName &&
    (e.credentialId == 0 || e.credentialId == c.id) && e.bounded
  }

  predicate ScaleSetOk(x: ScaleSet, e: Entity, spec: Spec) {
    var owner := if e.kind == OfOrganization then x.orgId else x.repoId;
    x.id != 0 && x.name == spec.name && owner != 0 && owner == e.id && x.fixed &&
    x.image == spec.image && x.flavor == spec.flavor && x.maxRunners == spec.maxRunners && SpecsMatch(x.specs, spec.directJIT)
  }

  /** `strings.Cut` at the first slash, and the checks on its two halves. */
  function SlashAt(s: string): int
    ensures -1 <= SlashAt(s) < |s|
    ensures SlashAt(s) >= 0 ==> s[SlashAt(s)] == '/' && s == s[..SlashAt(s)] + "/" + s[SlashAt(s) + 1..]
  {
    if s == "" then -1 else if s[0] == '/' then 0
    else var i := SlashAt(s[1..]); if i < 0 then -1 else i + 1
  }

  predicate OwnerName(s: string) {
    0 < SlashAt(s) < |s| - 1 && '/' !in s[SlashAt(s) + 1..]
  }

  // ---------------------------------------------------------------- listings

  function MatchingCredentials(s: seq<Credential>, name: string): seq<Credential> {
    if s == [] then [] else MatchingCredentials(s[..|s| - 1], name) + if s[|s| - 1].name == name then [s[|s| - 1]] else []
  }

  function MatchingOrganizations(s: seq<Organization>, name: string): seq<Organization> {
    if s == [] then [] else MatchingOrganizations(s[..|s| - 1], name) + if s[|s| - 1].name == name then [s[|s| - 1]] else []
  }

  function MatchingRepositories(s: seq<Repository>, full: string): seq<Repository> {
    if s == [] then []
    else MatchingRepositories(s[..|s| - 1], full) + if s[|s| - 1].owner + "/" + s[|s| - 1].name == full then [s[|s| - 1]] else []
  }

  /** The scale sets listed under the entity's endpoint that bear the name. */
  function MatchingScaleSets(s: seq<ScaleSet>, e: Entity, name: string): seq<ScaleSet> {
    if s == [] then []
    else MatchingScaleSets(s[..|s| - 1], e, name) + if Hangs(s[|s| - 1], e) && s[|s| - 1].name == name then [s[|s| - 1]] else []
  }

  predicate Hangs(x: ScaleSet, e: Entity) {
    if e.kind == OfOrganization then x.orgId == e.id else x.repoId == e.id
  }

  // ---------------------------------------------------------------- steps

  /** What a run reports having done, or, in a dry run, being about to do. */
  datatype Action =
    | CreateCredential | CreateOrganization | CreateRepository | CreateScaleSet | EnableScaleSet
    | MigrateImageAndRuntime | MigrateImage | MigrateActivationAndCapacity | MigrateActivation | MigrateCapacity

  datatype Found<+T> = Error | Absent | Here(value: T)

  /** A reconcile step: the server, the actions reported, what was found, and how many
      writing requests may still succeed before the connection is lost. */
  datatype Step<+T> = Step(server: Server, actions: seq<Action>, found: Found<T>, budget: nat)

  function CredentialStep(s: Server, o: Options, apply: bool, budget: nat): Step<Credential> {
    var matches := MatchingCredentials(s.credentials, o.tenant.credentialName);
    if |matches| > 1 then Step(s, [], Error, budget)
    else if |matches| == 1 then Step(s, [], if CredentialOk(matches[0], o) then Here(matches[0]) else Error, budget)
    else if o.enable || !o.bundle then Step(s, [], Error, budget)
    else if !apply then Step(s, [CreateCredential], Absent, budget)
    else if budget == 0 then Step(s, [CreateCredential], Error, 0)
    else
      var c := Credential(s.nextId, o.tenant.credentialName, o.description, true);
      Step(s.(credentials := s.credentials + [c], nextId := s.nextId + 1), [CreateCredential],
           if CredentialOk(c, o) then Here(c) else Error, budget - 1)
  }

  function OrganizationStep(s: Server, o: Options, c: Credential, apply: bool, budget: nat): Step<Entity> {
    var matches := MatchingOrganizations(s.organizations, o.tenant.owner);
    if |matches| > 1 then Step(s, [], Error, budget)
    else if |matches| == 1 then
      Step(s, [], if OrganizationOk(matches[0], o, c) then Here(Entity(OfOrganization, matches[0].id)) else Error, budget)
    else if o.enable then Step(s, [], Error, budget)
    else if !apply then Step(s, [CreateOrganization], Absent, budget)
    else if budget == 0 then Step(s, [CreateOrganization], Error, 0)
    else
      var e := Organization(s.nextId, o.tenant.owner, o.tenant.credentialName, c.id, true);
      Step(s.(organizations := s.organizations + [e], nextId := s.nextId + 1), [CreateOrganization],
           if OrganizationOk(e, o, c) then Here(Entity(OfOrganization, e.id)) else Error, budget - 1)
  }

  function RepositoryStep(s: Server, o: Options, c: Credential, apply: bool, budget: nat): Step<Entity> {
    var matches := MatchingRepositories(s.repositories, o.tenant.repository);
    if |matches| > 1 then Step(s, [], Error, budget)
    else if |matches| == 1 then
      Step(s, [], if RepositoryOk(matches[0], o, c) then Here(Entity(OfRepository, matches[0].id)) else Error, budget)
    else if o.enable then Step(s, [], Error, budget)
    else if !apply then Step(s, [CreateRepository], Absent, budget)
    else if !OwnerName(o.tenant.repository) || budget == 0 then Step(s, [CreateRepository], Error, budget)
    else
      var cut := SlashAt(o.tenant.repository);
      var e := Repository(s.nextId, o.tenant.repository[..cut], o.tenant.repository[cut + 1..], o.tenant.credentialName, c.id, true);
      Step(s.(repositories := s.repositories + [e], nextId := s.nextId + 1), [CreateRepository],
           if RepositoryOk(e, o, c) then Here(Entity(OfRepository, e.id)) else Error, budget - 1)
  }

  function EntityStep(s: Server, o: Options, c: Credential, apply: bool, budget: nat): Step<Entity> {
    match o.kind
    case OfOrganization => OrganizationStep(s, o, c, apply, budget)
    case OfRepository => RepositoryStep(s, o, c, apply, budget)
    case Unsupported => Step(s, [], Error, budget)
  }

  /** A disabled scale set as requested, under a fresh identifier. */
  function NewScaleSet(id: nat, e: Entity, spec: Spec): ScaleSet {
    ScaleSet(id, spec.name, if e.kind == OfOrganization then 0 else e.id, if e.kind == OfOrganization then e.id else 0,
             true, spec.image, spec.flavor, spec.maxRunners, DesiredSpecs(spec.directJIT), false)
  }

  /** The PUT on one scale set. */
  function PutScaleSet(s: seq<ScaleSet>, x: ScaleSet): seq<ScaleSet> {
    if s == [] then [] else PutScaleSet(s[..|s| - 1], x) + [if s[|s| - 1].id == x.id then x else s[|s| - 1]]
  }

  datatype Drift = Drift(activation: bool, capacity: bool, image: bool)

  function DriftOf(x: ScaleSet, spec: Spec): Drift {
    Drift(!SpecsMatch(x.specs, spec.directJIT), x.maxRunners != spec.maxRunners, x.image != spec.image || x.flavor != spec.flavor)
  }

  function Migrated(x: ScaleSet, spec: Spec): ScaleSet {
    x.(specs := DesiredSpecs(spec.directJIT), maxRunners := spec.maxRunners, image := spec.image, flavor := spec.flavor, enabled := false)
  }

  function MigrationAction(d: Drift): Action {
    if d.image && (d.activation || d.capacity) then MigrateImageAndRuntime
    else if d.image then MigrateImage
    else if d.activation && d.capacity then MigrateActivationAndCapacity
    else if d.activation then MigrateActivation
    else MigrateCapacity
  }

  /** The drift may be migrated: its shape is known and every part of it was asked for. */
  predicate MayMigrate(x: ScaleSet, e: Entity, o: Options) {
    var d := DriftOf(x, o.spec);
    && (d.activation ==> SpecsMatch(x.specs, false) || SpecsMatch(x.specs, true))
    && ScaleSetOk(Migrated(x, o.spec), e, o.spec)
    && (d.activation ==> o.migrateActivation) && (d.capacity ==> o.migrateCapacity) && (d.image ==> o.migrateImage)
  }

  function MigrationStep(s: Server, o: Options, e: Entity, x: ScaleSet, apply: bool, budget: nat): Step<ScaleSet> {
    var d := DriftOf(x, o.spec);
    if !d.activation && !d.capacity && !d.image then
      Step(s, [], if ScaleSetOk(x, e, o.spec) then Here(x) else Error, budget)
    else if !MayMigrate(x, e, o) then Step(s, [], Error, budget)
    else
      var y := Migrated(x, o.spec);
      if !apply then Step(s, [MigrationAction(d)], Here(y), budget)
      else if budget == 0 then Step(s, [MigrationAction(d)], Error, 0)
      else Step(s.(scaleSets := PutScaleSet(s.scaleSets, y)), [MigrationAction(d)], Here(y), budget - 1)
  }

  function EnableStep(s: Server, o: Options, e: Entity, x: ScaleSet, apply: bool, budget: nat): Step<ScaleSet> {
    if o.enable && !x.enabled then
      var y := x.(enabled := true);
      if !apply then Step(s, [EnableScaleSet], Here(x), budget)
      else if budget == 0 then Step(s, [EnableScaleSet], Error, 0)
      else Step(s.(scaleSets := PutScaleSet(s.scaleSets, y)), [EnableScaleSet],
                if ScaleSetOk(y, e, o.spec) then Here(y) else Error, budget - 1)
    else if !o.enable && x.enabled then Step(s, [], Error, budget)
    else Step(s, [], Here(x), budget)
  }

  /** The single match: migrated where it drifted, then enabled where that was asked for. */
  function MatchedStep(s: Server, o: Options, e: Entity, x: ScaleSet, apply: bool, budget: nat): Step<ScaleSet> {
    var m := MigrationStep(s, o, e, x, apply, budget);
    if !m.found.Here? then m
    else
      var n := EnableStep(m.server, o, e, m.found.value, apply, m.budget);
      Step(n.server, m.actions + n.actions, n.found, n.budget)
  }

  function ScaleSetStep(s: Server, o: Options, e: Entity, apply: bool, budget: nat): Step<ScaleSet> {
    var matches := MatchingScaleSets(s.scaleSets, e, o.spec.name);
    if |matches| > 1 then Step(s, [], Error, budget)
    else if |matches| == 0 then
      if o.enable then Step(s, [], Error, budget)
      else if !apply then Step(s, [CreateScaleSet], Absent, budget)
      else if budget == 0 then Step(s, [CreateScaleSet], Error, 0)
      else
        var x := NewScaleSet(s.nextId, e, o.spec);
        Step(s.(scaleSets := s.scaleSets + [x], nextId := s.nextId + 1), [CreateScaleSet],
             if ScaleSetOk(x, e, o.spec) then Here(x) else Error, budget - 1)
    else MatchedStep(s, o, e, matches[0], apply, budget)
  }

  /** The outcome of a run: an error, or the reported actions. */
  datatype Report = Report(server: Server, ok: bool, actions: seq<Action>)

  function EntityAction(kind: Kind): Action {
    if kind == OfOrganization then CreateOrganization else CreateRepository
  }

  /** `Run` from credential reconciliation on. */
  function Run(s: Server, o: Options, apply: bool, budget: nat): Report {
    var c := CredentialStep(s, o, apply, budget);
    match c.found
    case Error => Report(c.server, false, c.actions)
    case Absent => Report(c.server, true, c.actions + [EntityAction(o.kind), CreateScaleSet])
    case Here(credential) =>
      var e := EntityStep(c.server, o, credential, apply, c.budget);
      match e.found
      case Error => Report(e.server, false, c.actions + e.actions)
      case Absent => Report(e.server, true, c.actions + e.actions + [CreateScaleSet])
      case Here(entity) =>
        var x := ScaleSetStep(e.server, o, entity, apply, e.budget);
        Report(x.server, !x.found.Error?, c.actions + e.actions + x.actions)
  }

  /** More writing requests than any run makes. */
  const PLENTY := 4

  // ---------------------------------------------------------------- honest server

  /** Identifiers are handed out once, and scale sets have one each. */
  ghost predicate Honest(s: Server) {
    && 0 < s.nextId
    && (forall i :: 0 <= i < |s.organizations| ==> s.organizations[i].id < s.nextId)
    && (forall i :: 0 <= i < |s.repositories| ==> s.repositories[i].id < s.nextId)
    && (forall i :: 0 <= i < |s.scaleSets| ==> s.scaleSets[i].id < s.nextId && s.scaleSets[i].repoId < s.nextId && s.scaleSets[i].orgId < s.nextId)
    && (forall i, j :: 0 <= i < j < |s.scaleSets| ==> s.scaleSets[i].id != s.scaleSets[j].id)
  }
}
