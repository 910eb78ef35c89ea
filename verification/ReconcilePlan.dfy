/** The dry run of the reconciler as a prediction of what apply does. */
module ReconcilePlan {
  import opened Reconcile
  import opened ReconcileProofs

  /** The entity asked for is already listed. */
  predicate EntityListed(s: Server, o: Options) {
    match o.kind
    case OfOrganization => exists x :: x in s.organizations && x.name == o.tenant.owner
    case OfRepository => exists x :: x in s.repositories && x.owner + "/" + x.name == o.tenant.repository
    case Unsupported => false
  }

  /** An entity that has to be created can be: a repository is created by owner and name. */
  predicate Creatable(o: Options) {
    o.kind == OfRepository ==> OwnerName(o.tenant.repository)
  }

  /** When the plan is what apply does. Without its credential the plan is written blind: the
      entity must be of a supported kind and not exist yet. */
  predicate Plannable(s: Server, o: Options) {
    var matches := MatchingCredentials(s.credentials, o.tenant.credentialName);
    && (matches == [] && !o.enable && o.bundle ==> o.kind != Unsupported && !EntityListed(s, o) && Creatable(o))
    && (|matches| == 1 && CredentialOk(matches[0], o) && !o.enable && !EntityListed(s, o) ==> Creatable(o))
  }

  /** A dry run writes nothing, and looks no different with more or less budget. */
  lemma {:induction false} DryRunWritesNothing(s: Server, o: Options, budget: nat)
    ensures Run(s, o, false, budget).server == s
  {
    var c := CredentialStep(s, o, false, budget);
    assert c.server == s;
    if c.found.Here? {
      var e := EntityStep(s, o, c.found.value, false, c.budget);
      assert e.server == s;
      if e.found.Here? {
        DryScaleSet(s, o, e.found.value, e.budget);
      }
    }
  }

  lemma DryScaleSet(s: Server, o: Options, e: Entity, budget: nat)
    ensures ScaleSetStep(s, o, e, false, budget).server == s
  {
  }

  /** On the same server the scale set step plans what it applies. */
  lemma ScaleSetPlan(s: Server, o: Options, e: Entity, budget: nat)
    requires 2 <= budget && e.id != 0 && 0 < s.nextId
    ensures var d := ScaleSetStep(s, o, e, false, budget);
            var a := ScaleSetStep(s, o, e, true, budget);
            d.actions == a.actions && (d.found.Error? <==> a.found.Error?)
  {
    var matches := MatchingScaleSets(s.scaleSets, e, o.spec.name);
    if matches == [] {
      NewIsOk(s.nextId, e, o.spec);
    } else if |matches| == 1 {
      PlanMatched(s, o, e, matches[0], budget);
    }
  }

  lemma PlanMatched(s: Server, o: Options, e: Entity, x: ScaleSet, budget: nat)
    requires 2 <= budget
    ensures var d := MatchedStep(s, o, e, x, false, budget);
            var a := MatchedStep(s, o, e, x, true, budget);
            d.actions == a.actions && (d.found.Error? <==> a.found.Error?)
  {
    var m := MigrationStep(s, o, e, x, false, budget);
    var n := MigrationStep(s, o, e, x, true, budget);
    assert m.found == n.found && m.actions == n.actions && 1 <= n.budget;
    if m.found.Here? {
      assert ScaleSetOk(m.found.value, e, o.spec);
    }
  }

  /** A fresh entity has no scale sets yet. */
  lemma {:induction false} NothingHangs(s: seq<ScaleSet>, e: Entity, name: string)
    requires forall i :: 0 <= i < |s| ==> s[i].repoId < e.id && s[i].orgId < e.id
    ensures MatchingScaleSets(s, e, name) == []
  {
    if s != [] {
      NothingHangs(s[..|s| - 1], e, name);
    }
  }

  /** A listed entity has a match, and the other way round. */
  lemma ListedIffMatched(s: Server, o: Options)
    ensures o.kind == OfOrganization ==> (EntityListed(s, o) <==> MatchingOrganizations(s.organizations, o.tenant.owner) != [])
    ensures o.kind == OfRepository ==> (EntityListed(s, o) <==> MatchingRepositories(s.repositories, o.tenant.repository) != [])
  {
    OrganizationsAreListed(s.organizations, o.tenant.owner);
    RepositoriesAreListed(s.repositories, o.tenant.repository);
    var orgs := MatchingOrganizations(s.organizations, o.tenant.owner);
    var repos := MatchingRepositories(s.repositories, o.tenant.repository);
    assert orgs != [] ==> orgs[0] in orgs;
    assert repos != [] ==> repos[0] in repos;
  }

  /** The entity step plans what it applies, but for a repository it cannot create. */
  lemma EntityPlan(s: Server, o: Options, c: Credential, budget: nat)
    requires Honest(s) && 1 <= budget
    ensures var d := EntityStep(s, o, c, false, budget);
            var a := EntityStep(s, o, c, true, budget);
            && d.actions == a.actions
            && (d.found.Absent? <==> o.kind != Unsupported && !EntityListed(s, o) && !o.enable)
            && (!d.found.Absent? ==> a == d && d.server == s && d.actions == [] && d.budget == budget)
            && (d.found.Absent? ==> d.actions == [EntityAction(o.kind)])
            && (d.found.Absent? && Creatable(o) ==>
                  a.found.Here? && a.found.value.id == s.nextId && a.budget == budget - 1 &&
                  a.server.scaleSets == s.scaleSets && a.server.nextId == s.nextId + 1)
            && (d.found.Absent? && !Creatable(o) ==> a.found.Error?)
  {
    ListedIffMatched(s, o);
  }

  /** A run that creates the entity goes on to create its scale set. */
  lemma FreshScaleSet(s: Server, o: Options, e: Entity, budget: nat)
    requires Honest(s) && e.id == s.nextId && 1 <= budget && !o.enable
    ensures var a := ScaleSetStep(s.(nextId := s.nextId + 1), o, e, true, budget);
            a.actions == [CreateScaleSet] && a.found.Here?
  {
    NothingHangs(s.scaleSets, e, o.spec.name);
    NewIsOk(s.nextId + 1, e, o.spec);
  }

  /** The step reads no more of the server than its scale sets and the next identifier. */
  lemma ScaleSetReads(s: Server, t: Server, o: Options, e: Entity, budget: nat)
    requires s.scaleSets == t.scaleSets && s.nextId == t.nextId
    ensures ScaleSetStep(s, o, e, true, budget).actions == ScaleSetStep(t, o, e, true, budget).actions
    ensures ScaleSetStep(s, o, e, true, budget).found == ScaleSetStep(t, o, e, true, budget).found
  {
  }

  lemma FreshEntity(s: Server, o: Options, c: Credential, budget: nat)
    requires Honest(s) && 2 <= budget && !o.enable && o.kind != Unsupported && !EntityListed(s, o)
    ensures var f := FromEntity(s, o, c, budget);
            && (f.ok <==> Creatable(o))
            && (f.ok ==> f.actions == [EntityAction(o.kind), CreateScaleSet])
  {
    EntityPlan(s, o, c, budget);
    var a := EntityStep(s, o, c, true, budget);
    if Creatable(o) {
      FreshScaleSet(s, o, a.found.value, budget - 1);
      ScaleSetReads(s.(nextId := s.nextId + 1), a.server, o, a.found.value, budget - 1);
    }
  }

  /** Same verdict, same actions. */
  predicate Agree(dry: Report, applied: Report) {
    dry.ok == applied.ok && dry.actions == applied.actions
  }

  /** With the credential in place the plan is blind only to a repository without an owner. */
  lemma PlanWithCredential(s: Server, o: Options, c: Credential, budget: nat)
    requires Honest(s) && PLENTY <= budget
    requires MatchingCredentials(s.credentials, o.tenant.credentialName) == [c] && CredentialOk(c, o)
    ensures Agree(Run(s, o, false, budget), Run(s, o, true, budget)) <==> (o.enable || EntityListed(s, o) || Creatable(o))
  {
    assert CredentialStep(s, o, false, budget) == Step(s, [], Here(c), budget);
    assert CredentialStep(s, o, true, budget) == Step(s, [], Here(c), budget);
    RunFromEntity(s, o, budget);
    EntityPlan(s, o, c, budget);
    var d := EntityStep(s, o, c, false, budget);
    if d.found.Here? {
      EntityIsHonest(s, o, c, true, budget);
      ScaleSetPlan(s, o, d.found.value, budget);
    } else if d.found.Absent? {
      FreshEntity(s, o, c, budget);
    }
  }

  /** Without it the plan names the entity and the scale set unseen. */
  lemma PlanWithoutCredential(s: Server, o: Options, budget: nat)
    requires Honest(s) && PLENTY <= budget
    requires MatchingCredentials(s.credentials, o.tenant.credentialName) == [] && !o.enable && o.bundle
    ensures Agree(Run(s, o, false, budget), Run(s, o, true, budget)) <==>
            o.kind != Unsupported && !EntityListed(s, o) && Creatable(o)
  {
    var c := CredentialStep(s, o, true, budget);
    RunFromEntity(s, o, budget);
    CredentialAllOrNothing(s, o, budget, budget);
    assert c.found.Here? && EntityListed(c.server, o) == EntityListed(s, o);
    EntityPlan(c.server, o, c.found.value, c.budget);
    if o.kind != Unsupported && !EntityListed(s, o) {
      FreshEntity(c.server, o, c.found.value, c.budget);
    } else {
      EntityListedIsFree(c.server, o, c.found.value, c.budget);
    }
  }

  /** Where nothing is created, the run does not report creating it. */
  lemma EntityListedIsFree(s: Server, o: Options, c: Credential, budget: nat)
    requires Honest(s) && 1 <= budget && (o.kind == Unsupported || EntityListed(s, o))
    ensures var f := FromEntity(s, o, c, budget);
            !f.ok || |f.actions| < 2 || f.actions[1] != CreateScaleSet
  {
    EntityPlan(s, o, c, budget);
  }

  /** The dry run and the apply run agree on the verdict and on every action exactly when
      the plan is not written blind. */
  lemma PlanIsApplyIff(s: Server, o: Options, budget: nat)
    requires Honest(s) && PLENTY <= budget
    ensures Agree(Run(s, o, false, budget), Run(s, o, true, budget)) <==> Plannable(s, o)
  {
    var matches := MatchingCredentials(s.credentials, o.tenant.credentialName);
    if |matches| == 1 && CredentialOk(matches[0], o) {
      assert matches == [matches[0]];
      PlanWithCredential(s, o, matches[0], budget);
    } else if matches == [] && !o.enable && o.bundle {
      PlanWithoutCredential(s, o, budget);
    } else {
      assert CredentialStep(s, o, false, budget) == CredentialStep(s, o, true, budget);
    }
  }

  /** The entity outlived its credential: the plan announces a creation that will not happen. */
  lemma BlindPlan()
    ensures exists s: Server, o: Options ::
              Honest(s) && Run(s, o, false, PLENTY).ok && !Agree(Run(s, o, false, PLENTY), Run(s, o, true, PLENTY))
  {
    var o := Options(OfOrganization, Tenant("c", "o", "o/r"), "d", true, Spec("n", "i", "f", 1, true), false, false, false, false);
    var s := Server([], [Organization(1, "o", "c", 0, true)], [], [], 2);
    assert s.organizations[0] in s.organizations;
    PlanIsApplyIff(s, o, PLENTY);
  }
}
