/** The reconciler as it runs: requests step the server, every attempted change is noted in
    the actions, and the connection may be lost before any writing request. */
module Reconciler {
  import opened Text
  import opened Reconcile
  import opened ReconcileProofs
  import opened ReconcilePlan
  import opened ReconcileFields

  class Reconciler {
    const options: Options
    const apply: bool
    var server: Server
    var actions: seq<Action>
    var budget: nat

    constructor (options: Options, apply: bool, server: Server, budget: nat)
      ensures this.options == options && this.apply == apply
      ensures this.server == server && this.budget == budget && actions == []
    {
      this.options, this.apply := options, apply;
      this.server, this.budget, this.actions := server, budget, [];
    }

    /** The fields after a step that started with `before` actions reported. */
    ghost predicate Took<T>(step: Step<T>, before: seq<Action>, found: Found<T>)
      reads this
    {
      server == step.server && budget == step.budget && found == step.found && actions == before + step.actions
    }

    /** One writing request: whether the connection still stood. */
    method Request() returns (ok: bool)
      modifies this`budget
      ensures ok <==> old(budget) > 0
      ensures budget == if ok then old(budget) - 1 else 0
    {
      ok := budget > 0;
      if ok { budget := budget - 1; }
    }

    method ListCredentials() returns (matches: seq<Credential>)
      ensures matches == MatchingCredentials(server.credentials, options.tenant.credentialName)
    {
      matches := [];
      for i := 0 to |server.credentials|
        invariant matches == MatchingCredentials(server.credentials[..i], options.tenant.credentialName)
      {
        assert server.credentials[..i + 1][..i] == server.credentials[..i];
        if server.credentials[i].name == options.tenant.credentialName {
          matches := matches + [server.credentials[i]];
        }
      }
      assert server.credentials[..|server.credentials|] == server.credentials;
    }

    method ListOrganizations() returns (matches: seq<Organization>)
      ensures matches == MatchingOrganizations(server.organizations, options.tenant.owner)
    {
      matches := [];
      for i := 0 to |server.organizations|
        invariant matches == MatchingOrganizations(server.organizations[..i], options.tenant.owner)
      {
        assert server.organizations[..i + 1][..i] == server.organizations[..i];
        if server.organizations[i].name == options.tenant.owner {
          matches := matches + [server.organizations[i]];
        }
      }
      assert server.organizations[..|server.organizations|] == server.organizations;
    }

    method ListRepositories() returns (matches: seq<Repository>)
      ensures matches == MatchingRepositories(server.repositories, options.tenant.repository)
    {
      matches := [];
      for i := 0 to |server.repositories|
        invariant matches == MatchingRepositories(server.repositories[..i], options.tenant.repository)
      {
        assert server.repositories[..i + 1][..i] == server.repositories[..i];
        if server.repositories[i].owner + "/" + server.repositories[i].name == options.tenant.repository {
          matches := matches + [server.repositories[i]];
        }
      }
      assert server.repositories[..|server.repositories|] == server.repositories;
    }

    /** The listing under the entity's endpoint, filtered by name. */
    method ListScaleSets(e: Entity) returns (matches: seq<ScaleSet>)
      ensures matches == MatchingScaleSets(server.scaleSets, e, options.spec.name)
    {
      matches := [];
      for i := 0 to |server.scaleSets|
        invariant matches == MatchingScaleSets(server.scaleSets[..i], e, options.spec.name)
      {
        assert server.scaleSets[..i + 1][..i] == server.scaleSets[..i];
        if Hangs(server.scaleSets[i], e) && server.scaleSets[i].name == options.spec.name {
          matches := matches + [server.scaleSets[i]];
        }
      }
      assert server.scaleSets[..|server.scaleSets|] == server.scaleSets;
    }

    /** A valid credential, the only one of its name, or an error; created only by an apply
        that does not enable. */
    method ReconcileCredential() returns (found: Found<Credential>)
      modifies this
      ensures Took(CredentialStep(old(server), options, apply, old(budget)), old(actions), found)
      ensures CredentialPromise(old(server), options, apply, server, found)
    {
      CredentialKeepsPromise(server, options, apply, budget);
      var matches := ListCredentials();
      if |matches| > 1 { return Error; }
      if |matches| == 1 {
        return if CredentialOk(matches[0], options) then Here(matches[0]) else Error;
      }
      if options.enable || !options.bundle { return Error; }
      actions := actions + [CreateCredential];
      if !apply { return Absent; }
      var sent := Request();
      if !sent { return Error; }
      var created := Credential(server.nextId, options.tenant.credentialName, options.description, true);
      server := server.(credentials := server.credentials + [created], nextId := server.nextId + 1);
      return if CredentialOk(created, options) then Here(created) else Error;
    }

    /** A listed organization bound to the credential, or an error. */
    method ReconcileOrganization(c: Credential) returns (found: Found<Entity>)
      modifies this
      ensures Took(OrganizationStep(old(server), options, c, apply, old(budget)), old(actions), found)
      ensures options.kind == OfOrganization ==> EntityPromise(old(server), options, c, apply, server, found)
    {
      if options.kind == OfOrganization { OrganizationKeepsPromise(server, options, c, apply, budget); }
      var matches := ListOrganizations();
      if |matches| > 1 { return Error; }
      if |matches| == 1 {
        return if OrganizationOk(matches[0], options, c) then Here(Entity(OfOrganization, matches[0].id)) else Error;
      }
      if options.enable { return Error; }
      actions := actions + [CreateOrganization];
      if !apply { return Absent; }
      var sent := Request();
      if !sent { return Error; }
      var created := Organization(server.nextId, options.tenant.owner, options.tenant.credentialName, c.id, true);
      server := server.(organizations := server.organizations + [created], nextId := server.nextId + 1);
      return if OrganizationOk(created, options, c) then Here(Entity(OfOrganization, created.id)) else Error;
    }

    /** A listed repository bound to the credential, or an error. */
    method ReconcileRepository(c: Credential) returns (found: Found<Entity>)
      modifies this
      ensures Took(RepositoryStep(old(server), options, c, apply, old(budget)), old(actions), found)
      ensures options.kind == OfRepository ==> EntityPromise(old(server), options, c, apply, server, found)
    {
      if options.kind == OfRepository { RepositoryKeepsPromise(server, options, c, apply, budget); }
      var matches := ListRepositories();
      if |matches| > 1 { return Error; }
      if |matches| == 1 {
        return if RepositoryOk(matches[0], options, c) then Here(Entity(OfRepository, matches[0].id)) else Error;
      }
      if options.enable { return Error; }
      actions := actions + [CreateRepository];
      if !apply { return Absent; }
      var full := options.tenant.repository;
      if !OwnerName(full) { return Error; }
      var sent := Request();
      if !sent { return Error; }
      var cut := SlashAt(full);
      var created := Repository(server.nextId, full[..cut], full[cut + 1..], options.tenant.credentialName, c.id, true);
      server := server.(repositories := server.repositories + [created], nextId := server.nextId + 1);
      return if RepositoryOk(created, options, c) then Here(Entity(OfRepository, created.id)) else Error;
    }

    /** A listed entity of the kind asked for, bound to the credential, or an error. */
    method ReconcileEntity(c: Credential) returns (found: Found<Entity>)
      modifies this
      ensures Took(EntityStep(old(server), options, c, apply, old(budget)), old(actions), found)
      ensures EntityPromise(old(server), options, c, apply, server, found)
    {
      match options.kind
      case OfOrganization => found := ReconcileOrganization(c);
      case OfRepository => found := ReconcileRepository(c);
      case Unsupported => return Error;
    }

    /** Bring a drifted scale set to the spec, disabled. */
    method Migrate(e: Entity, x: ScaleSet) returns (found: Found<ScaleSet>)
      modifies this
      ensures Took(MigrationStep(old(server), options, e, x, apply, old(budget)), old(actions), found)
    {
      var drift := DriftOf(x, options.spec);
      if !drift.activation && !drift.capacity && !drift.image {
        return if ScaleSetOk(x, e, options.spec) then Here(x) else Error;
      }
      if !MayMigrate(x, e, options) { return Error; }
      actions := actions + [MigrationAction(drift)];
      var candidate := Migrated(x, options.spec);
      if apply {
        var sent := Request();
        if !sent { return Error; }
        server := server.(scaleSets := PutScaleSet(server.scaleSets, candidate));
      }
      return Here(candidate);
    }

    method Enable(e: Entity, x: ScaleSet) returns (found: Found<ScaleSet>)
      modifies this
      ensures Took(EnableStep(old(server), options, e, x, apply, old(budget)), old(actions), found)
    {
      if options.enable && !x.enabled {
        actions := actions + [EnableScaleSet];
        if !apply { return Here(x); }
        var sent := Request();
        if !sent { return Error; }
        var updated := x.(enabled := true);
        server := server.(scaleSets := PutScaleSet(server.scaleSets, updated));
        return if ScaleSetOk(updated, e, options.spec) then Here(updated) else Error;
      }
      if !options.enable && x.enabled { return Error; }
      return Here(x);
    }

    /** A scale set that validates, enabled exactly as asked, or an error; and none that did
        not exist or does not validate is enabled on the way. */
    method ReconcileScaleSet(e: Entity) returns (found: Found<ScaleSet>)
      modifies this
      ensures Took(ScaleSetStep(old(server), options, e, apply, old(budget)), old(actions), found)
      ensures ScaleSetPromise(old(server), options, e, apply, server, found)
      ensures found.Here? ==> found.value.name == options.spec.name && found.value.fixed && AsSpecified(found.value, options.spec)
      ensures DistinctIds(old(server.scaleSets)) ==> ChangesAsAsked(old(server.scaleSets), server.scaleSets, options)
      ensures old(actions) <= actions && Tells(old(server), options, e, actions[|old(actions)|..])
      ensures old(budget) >= 2 && apply && 0 < e.id && 0 < old(server).nextId ==>
                (found.Here? <==> ScaleSetReady(old(server), options, e))
    {
      ScaleSetMeans(server, options, e, apply, budget);
      ghost var before, step := actions, ScaleSetStep(server, options, e, apply, budget);
      assert (before + step.actions)[|before|..] == step.actions;
      var matches := ListScaleSets(e);
      if |matches| > 1 {
        found := Error;
      } else if |matches| == 0 {
        found := CreateDisabled(e);
      } else {
        found := Update(e, matches[0]);
      }
    }

    /** No scale set yet: one is created, disabled. */
    method CreateDisabled(e: Entity) returns (found: Found<ScaleSet>)
      requires MatchingScaleSets(server.scaleSets, e, options.spec.name) == []
      modifies this
      ensures Took(ScaleSetStep(old(server), options, e, apply, old(budget)), old(actions), found)
    {
      if options.enable { return Error; }
      actions := actions + [CreateScaleSet];
      if !apply { return Absent; }
      var sent := Request();
      if !sent { return Error; }
      var created := NewScaleSet(server.nextId, e, options.spec);
      server := server.(scaleSets := server.scaleSets + [created], nextId := server.nextId + 1);
      return if ScaleSetOk(created, e, options.spec) then Here(created) else Error;
    }

    /** The one there is: migrated where it drifted, enabled where that was asked for. */
    method Update(e: Entity, x: ScaleSet) returns (found: Found<ScaleSet>)
      modifies this
      ensures Took(MatchedStep(old(server), options, e, x, apply, old(budget)), old(actions), found)
    {
      found := Migrate(e, x);
      if found.Here? {
        found := Enable(e, found.value);
      }
    }

    /** The whole run, on any server, with the connection lost at any point: a dry run writes
        nothing; whatever is newly enabled was asked for, existed before and validates; and
        after a success the next run, whatever it may write, reports and writes nothing. */
    method Run() returns (ok: bool)
      requires actions == []
      modifies this
      ensures Report(server, ok, actions) == Reconcile.Run(old(server), options, apply, old(budget))
      ensures !apply ==> server == old(server)
      ensures EnabledAsAsked(old(server), options, server)
      ensures Honest(old(server)) ==> Honest(server)
      ensures Honest(old(server)) && apply && ok ==>
                forall later: nat :: Reconcile.Run(server, options, true, later) == Report(server, true, [])
      ensures Honest(old(server)) ==> ChangesAsAsked(old(server.scaleSets), server.scaleSets, options)
      ensures Honest(old(server)) && apply && PLENTY <= old(budget) ==> (ok <==> Ready(old(server), options))
      ensures apply && ok ==> InForce(server, options)
    {
      RunKeepsPromise(server, options, apply, budget);
      ghost var c := CredentialStep(server, options, apply, budget);
      var credential := ReconcileCredential();
      assert actions == c.actions;
      if credential.Error? { return false; }
      if credential.Absent? {
        actions := actions + [EntityAction(options.kind), CreateScaleSet];
        return true;
      }
      ok := RunEntity(c, credential.value);
    }

    /** The rest of the run, once the credential is there. */
    method RunEntity(ghost c: Step<Credential>, credential: Credential) returns (ok: bool)
      requires Took(c, [], Here(credential))
      modifies this
      ensures var e := EntityStep(c.server, options, credential, apply, c.budget);
              match e.found
              case Error => Report(server, ok, actions) == Report(e.server, false, c.actions + e.actions)
              case Absent => Report(server, ok, actions) == Report(e.server, true, c.actions + e.actions + [CreateScaleSet])
              case Here(entity) =>
                var x := ScaleSetStep(e.server, options, entity, apply, e.budget);
                Report(server, ok, actions) == Report(x.server, !x.found.Error?, c.actions + e.actions + x.actions)
    {
      assert actions == c.actions;
      var entity := ReconcileEntity(credential);
      if entity.Error? { return false; }
      if entity.Absent? {
        actions := actions + [CreateScaleSet];
        return true;
      }
      var scaleSet := ReconcileScaleSet(entity.value);
      return !scaleSet.Error?;
    }
  }

  /** What `ReconcileScaleSet` promises, of the specification. */
  lemma ScaleSetMeans(s: Server, o: Options, e: Entity, apply: bool, budget: nat)
    ensures var r := ScaleSetStep(s, o, e, apply, budget);
            && ScaleSetPromise(s, o, e, apply, r.server, r.found)
            && (r.found.Here? ==> r.found.value.name == o.spec.name && r.found.value.fixed && AsSpecified(r.found.value, o.spec))
            && (DistinctIds(s.scaleSets) ==> ChangesAsAsked(s.scaleSets, r.server.scaleSets, o))
            && Tells(s, o, e, r.actions)
            && (budget >= 2 && apply && 0 < e.id && 0 < s.nextId ==> (r.found.Here? <==> ScaleSetReady(s, o, e)))
  {
    var r := ScaleSetStep(s, o, e, apply, budget);
    ScaleSetKeepsPromise(s, o, e, apply, budget);
    if r.found.Here? { OkIsAsSpecified(r.found.value, e, o.spec); }
    if DistinctIds(s.scaleSets) { ScaleSetChanges(s, o, e, apply, budget); }
    ScaleSetTells(s, o, e, apply, budget);
    if budget >= 2 && apply && 0 < e.id && 0 < s.nextId { ScaleSetSucceedsIff(s, o, e, budget); }
  }

  /** What `Run` promises, of the specification. */
  lemma RunKeepsPromise(s: Server, o: Options, apply: bool, budget: nat)
    ensures var r := Reconcile.Run(s, o, apply, budget);
            && (!apply ==> r.server == s)
            && EnabledAsAsked(s, o, r.server)
            && (Honest(s) ==> Honest(r.server))
            && (Honest(s) && apply && r.ok ==>
                  forall later: nat :: Reconcile.Run(r.server, o, true, later) == Report(r.server, true, []))
            && (Honest(s) ==> ChangesAsAsked(s.scaleSets, r.server.scaleSets, o))
            && (Honest(s) && apply && PLENTY <= budget ==> (r.ok <==> Ready(s, o)))
            && (apply && r.ok ==> InForce(r.server, o))
  {
    if Honest(s) { RunChangesAsAsked(s, o, apply, budget); }
    if Honest(s) && apply && PLENTY <= budget { ApplySucceedsIff(s, o, budget); }
    if apply && Reconcile.Run(s, o, apply, budget).ok { SuccessIsInForce(s, o, budget); }
    var r := Reconcile.Run(s, o, apply, budget);
    if apply {
      EnabledOnlyWhenVerified(s, o, budget);
      if Honest(s) {
        ApplyConverges(s, o, budget, PLENTY);
        if r.ok {
          forall later: nat ensures Reconcile.Run(r.server, o, true, later) == Report(r.server, true, []) {
            ApplyIsIdempotent(s, o, budget, later);
          }
        }
      }
    } else {
      DryRunWritesNothing(s, o, budget);
    }
  }
}
