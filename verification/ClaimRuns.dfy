/** Whole runs of the claim journal: lazy pruning against an eagerly pruned map, and
    the one-token-one-repository promise under any clock and interleaving. */
module ClaimRuns {
  import opened Text
  import opened Spool
  import opened Claims

  /** One request with the instant its clock read and the fate of its write. */
  datatype Event = Event(now: int, request: Request, fate: Fate)

  // ---------------------------------------------------------------- eager reference

  /** The reference: a plain map from which a claim vanishes the instant its lifetime
      ends, so that only a token can still be too old to use. */
  function EagerServe(claims: ClaimMap, e: Event): (ClaimMap, Reply) {
    var live := Prune(claims, e.now);
    var r := e.request;
    if r.ClaimedRepository? then
      (live, if r.instance in live && live[r.instance].repository != "" then Bound(live[r.instance].repository) else Refused)
    else if !WellFormed(r) then (live, Refused)
    else if r.Verify? then
      (live, if r.instance in live && live[r.instance].expiresAt > e.now && live[r.instance].token == Sha256(r.token)
             then Granted(live[r.instance]) else Refused)
    else
      match Mutate(live, e.now, r)
      case None => (live, Refused)
      case Some((after, reply)) =>
        if !ClaimsValid(after) then (live, Refused)
        else if after == live || e.fate.Landed? then (after, reply)
        else if e.fate.Lost? then (live, Refused)
        else (after, Refused)
  }

  function LazyReplies(j: Journal, events: seq<Event>): (replies: seq<Reply>)
    ensures |replies| == |events|
    decreases |events|
  {
    if events == [] then []
    else
      var (j', reply) := Serve(j, events[0].now, events[0].request, events[0].fate);
      [reply] + LazyReplies(j', events[1..])
  }

  function EagerReplies(claims: ClaimMap, events: seq<Event>): (replies: seq<Reply>)
    ensures |replies| == |events|
    decreases |events|
  {
    if events == [] then []
    else
      var (claims', reply) := EagerServe(claims, events[0]);
      [reply] + EagerReplies(claims', events[1..])
  }

  predicate ClockForward(events: seq<Event>, clock: int)
    decreases |events|
  {
    events == [] || (clock <= events[0].now && ClockForward(events[1..], events[0].now))
  }

  /** Pruning later makes pruning earlier invisible. */
  lemma PruneAbsorbs(claims: ClaimMap, t: int, u: int)
    requires t <= u
    ensures Prune(Prune(claims, t), u) == Prune(claims, u)
  {
  }

  /** A claim whose correlation has lapsed has no live token either: the one place
      where the validated lifetimes matter. */
  lemma {:induction false} StaleHasNoToken(key: string, c: Claim, now: int)
    requires ClaimValid(key, c) && !Retained(c, now)
    ensures c.expiresAt <= now
  {
  }

  lemma LookStep(j: Journal, now: int, r: Request)
    requires ClaimsValid(j.claims) && (r.Verify? || r.ClaimedRepository?)
    ensures Look(j.claims, now, r) == EagerServe(j.claims, Event(now, r, Landed)).1
  {
    if r.instance in j.claims {
      var c, live := j.claims[r.instance], Prune(j.claims, now);
      if Retained(c, now) {
        assert r.instance in live && live[r.instance] == c;
      } else {
        StaleHasNoToken(r.instance, c, now);
        assert r.instance !in live;
      }
    }
  }

  lemma TransactStep(j: Journal, e: Event)
    requires e.request.Add? || e.request.Consume? || e.request.Remove?
    ensures var lazy, eager := Transact(j, e.now, e.request, e.fate), EagerServe(j.claims, e);
            lazy.1 == eager.1 && Prune(lazy.0.claims, e.now) == Prune(eager.0, e.now)
  {
    PruneAbsorbs(j.claims, e.now, e.now);
  }

  /** One step of the simulation. */
  lemma LazyStep(j: Journal, claims: ClaimMap, clock: int, e: Event)
    requires ClaimsValid(j.claims) && clock <= e.now && Prune(j.claims, clock) == Prune(claims, clock)
    ensures var lazy, eager := Serve(j, e.now, e.request, e.fate), EagerServe(claims, e);
            && lazy.1 == eager.1 && ClaimsValid(lazy.0.claims)
            && Prune(lazy.0.claims, e.now) == Prune(eager.0, e.now)
  {
    PruneAbsorbs(j.claims, clock, e.now);
    PruneAbsorbs(claims, clock, e.now);
    assert EagerServe(claims, e) == EagerServe(j.claims, e);
    TransactIsSound(j, e.now, e.request, e.fate);
    if e.request.Verify? || e.request.ClaimedRepository? {
      LookStep(j, e.now, e.request);
      PruneAbsorbs(j.claims, e.now, e.now);
    } else {
      TransactStep(j, e);
    }
  }

  /** Lazy pruning refines eager pruning: under a clock that does not go back, every
      request of every run gets the same reply from the journal as stored as from a map
      pruned at every instant. */
  lemma {:induction false} LazyRefinesEager(j: Journal, claims: ClaimMap, clock: int, events: seq<Event>)
    requires ClaimsValid(j.claims) && Prune(j.claims, clock) == Prune(claims, clock) && ClockForward(events, clock)
    ensures LazyReplies(j, events) == EagerReplies(claims, events)
    decreases |events|
  {
    if events != [] {
      var e := events[0];
      LazyStep(j, claims, clock, e);
      LazyRefinesEager(Serve(j, e.now, e.request, e.fate).0, EagerServe(claims, e).0, e.now, events[1..]);
    }
  }

  // ---------------------------------------------------------------- the clock, exactly

  /** The readings never descend. */
  ghost predicate NeverDescends(cs: seq<int>) {
    forall i, j :: 0 <= i < j < |cs| ==> cs[i] <= cs[j]
  }

  /** The events are served at these readings. */
  ghost predicate ReadAt(events: seq<Event>, cs: seq<int>) {
    |events| == |cs| && forall i :: 0 <= i < |cs| ==> events[i].now == cs[i]
  }

  /** At these readings no run of any valid journal tells lazy from eager pruning. */
  ghost predicate Indistinguishable(cs: seq<int>) {
    forall j: Journal, events: seq<Event> ::
      ClaimsValid(j.claims) && ReadAt(events, cs) ==> LazyReplies(j, events) == EagerReplies(j.claims, events)
  }

  lemma {:induction false} ForwardRun(events: seq<Event>, cs: seq<int>, clock: int)
    requires ReadAt(events, cs) && NeverDescends(cs) && (cs != [] ==> clock <= cs[0])
    ensures ClockForward(events, clock)
    decreases |events|
  {
    if events != [] {
      var rest, later := events[1..], cs[1..];
      assert forall i :: 0 <= i < |later| ==> rest[i] == events[i + 1] && later[i] == cs[i + 1];
      ForwardRun(rest, later, cs[0]);
    }
  }

  const LOOK_TOKEN := "0123456789abcdef0123456789abcdef"
  const LOOK := Verify("runner", LOOK_TOKEN)

  /** The same look at every reading. */
  function Looks(cs: seq<int>): (events: seq<Event>)
    ensures |events| == |cs| && forall i :: 0 <= i < |cs| ==> events[i] == Event(cs[i], LOOK, Landed)
  {
    seq(|cs|, i requires 0 <= i < |cs| => Event(cs[i], LOOK, Landed))
  }

  lemma LooksTail(cs: seq<int>)
    requires cs != []
    ensures Looks(cs)[1..] == Looks(cs[1..])
  {
  }

  /** An unbound claim with the token of the looks, live up to and including `last`. */
  function LiveUpTo(last: int): Claim {
    Claim("runner", "pool", "trusted-writer", Sha256(LOOK_TOKEN),
          if last == ZERO_INSTANT then last - 1 else last, last + 1, "", ZERO_INSTANT)
  }

  lemma LiveUpToIsValid(last: int)
    ensures ClaimsValid(map["runner" := LiveUpTo(last)])
  {
  }

  /** The journal answers every look by the claim it holds. */
  lemma {:induction false} LazyLooks(j: Journal, cs: seq<int>, k: nat)
    requires k < |cs|
    ensures LazyReplies(j, Looks(cs))[k] == Look(j.claims, cs[k], LOOK)
    decreases |cs|
  {
    if k > 0 {
      LooksTail(cs);
      LazyLooks(j, cs[1..], k - 1);
    }
  }

  lemma {:induction false} EagerLooksAtNothing(cs: seq<int>, k: nat)
    requires k < |cs|
    ensures EagerReplies(map[], Looks(cs))[k] == Refused
    decreases |cs|
  {
    assert Prune(map[], cs[0]) == map[];
    if k > 0 {
      LooksTail(cs);
      EagerLooksAtNothing(cs[1..], k - 1);
    }
  }

  /** Once a reading has passed its end, the eager map has forgotten the claim. */
  lemma {:induction false} EagerForgets(last: int, cs: seq<int>, i: nat, k: nat)
    requires i < k < |cs| && last < cs[i]
    ensures EagerReplies(map["runner" := LiveUpTo(last)], Looks(cs))[k] == Refused
    decreases |cs|
  {
    var claims := map["runner" := LiveUpTo(last)];
    LooksTail(cs);
    if Retained(LiveUpTo(last), cs[0]) {
      assert Prune(claims, cs[0]) == claims;
      EagerForgets(last, cs[1..], i - 1, k - 1);
    } else {
      assert Prune(claims, cs[0]) == map[];
      EagerLooksAtNothing(cs[1..], k - 1);
    }
  }

  /** Any descent of the clock is told: after it the journal still answers for a claim that
      the eagerly pruned map has lost. */
  lemma BackwardClockDiffers(cs: seq<int>, i: nat, k: nat)
    requires i < k < |cs| && cs[k] < cs[i]
    ensures !Indistinguishable(cs)
  {
    var claims := map["runner" := LiveUpTo(cs[k])];
    var j := Journal(1, cs[k], claims);
    LiveUpToIsValid(cs[k]);
    LazyLooks(j, cs, k);
    EagerForgets(cs[k], cs, i, k);
    assert LazyReplies(j, Looks(cs))[k] == Granted(LiveUpTo(cs[k]));
    assert ReadAt(Looks(cs), cs) && LazyReplies(j, Looks(cs)) != EagerReplies(j.claims, Looks(cs));
  }

  /** Lazy pruning is indistinguishable from eager pruning, for every valid journal and every
      run at these readings, if and only if the readings never descend. */
  lemma {:induction false} LazyIsEagerIffForward(cs: seq<int>)
    ensures Indistinguishable(cs) <==> NeverDescends(cs)
  {
    if NeverDescends(cs) {
      forall j: Journal, events: seq<Event> | ClaimsValid(j.claims) && ReadAt(events, cs)
        ensures LazyReplies(j, events) == EagerReplies(j.claims, events)
      {
        var clock := if cs == [] then 0 else cs[0];
        ForwardRun(events, cs, clock);
        LazyRefinesEager(j, j.claims, clock, events);
      }
    } else {
      var i, k :| 0 <= i < k < |cs| && cs[k] < cs[i];
      BackwardClockDiffers(cs, i, k);
    }
  }

  // ---------------------------------------------------------------- one token, one repository

  function After(j: Journal, events: seq<Event>): Journal
    decreases |events|
  {
    if events == [] then j
    else After(Serve(j, events[0].now, events[0].request, events[0].fate).0, events[1..])
  }

  function Writes(j: Journal, events: seq<Event>): nat
    decreases |events|
  {
    if events == [] then 0
    else
      var j' := Serve(j, events[0].now, events[0].request, events[0].fate).0;
      (if j' != j then 1 else 0) + Writes(j', events[1..])
  }

  /** Over any run and any clock the journal stays valid and its generation is the
      number of writes that landed. */
  lemma {:induction false} RunIsSound(j: Journal, events: seq<Event>)
    requires ClaimsValid(j.claims)
    ensures ClaimsValid(After(j, events).claims)
    ensures After(j, events).generation == j.generation + Writes(j, events)
    decreases |events|
  {
    if events != [] {
      var e := events[0];
      TransactIsSound(j, e.now, e.request, e.fate);
      RunIsSound(Serve(j, e.now, e.request, e.fate).0, events[1..]);
    }
  }

  /** No `Add` of the run reuses one of these tokens, nor a token of an earlier `Add`. */
  predicate FreshTokens(events: seq<Event>, used: set<string>)
    decreases |events|
  {
    events == [] ||
    ((events[0].request.Add? ==> events[0].request.token !in used) && FreshTokens(events[1..], UsedAfter(used, events[0].request)))
  }

  /** Tokens in the journal were used, and no two claims share one. */
  predicate Distinct(claims: ClaimMap, used: set<string>) {
    && (forall k :: k in claims ==> claims[k].token.preimage in used)
    && (forall k, l :: k in claims && l in claims && claims[k].token == claims[l].token ==> k == l)
  }

  /** `c` is the claim `seen` was, at the same time or later: same instance, pool, role
      and lifetime, and bound to the same repository if `seen` was bound. */
  predicate Continues(seen: Claim, c: Claim) {
    && c == seen.(repository := c.repository, claimedAt := c.claimedAt)
    && (seen.repository != "" ==> c == seen)
  }

  /** Whatever the journal holds under the token of `seen` continues it. */
  predicate Pinned(claims: ClaimMap, seen: Claim) {
    forall k :: k in claims && claims[k].token == seen.token ==> Continues(seen, claims[k])
  }

  function UsedAfter(used: set<string>, r: Request): set<string> {
    if r.Add? then used + {r.token} else used
  }

  /** The stored claims after a request are the old ones or the mutation's. */
  lemma ServeShape(j: Journal, e: Event)
    ensures var after := Serve(j, e.now, e.request, e.fate).0.claims;
            after == j.claims ||
            ((e.request.Add? || e.request.Consume? || e.request.Remove?) &&
             var m := Mutate(Prune(j.claims, e.now), e.now, e.request); m.Some? && after == m.value.0)
  {
  }

  lemma MutateKeepsPinned(claims: ClaimMap, now: int, r: Request, used: set<string>, seen: Claim)
    requires Pinned(claims, seen) && Distinct(claims, used) && seen.token.preimage in used
    requires (r.Add? && r.token !in used) || r.Consume? || r.Remove?
    ensures var m := Mutate(claims, now, r);
            m.Some? ==> Pinned(m.value.0, seen)
                        && (m.value.1.Granted? && m.value.1.claim.token == seen.token ==> Continues(seen, m.value.1.claim))
  {
  }

  lemma MutateKeepsDistinct(claims: ClaimMap, now: int, r: Request, used: set<string>)
    requires Distinct(claims, used)
    requires (r.Add? && r.token !in used) || r.Consume? || r.Remove?
    ensures var m := Mutate(claims, now, r); m.Some? ==> Distinct(m.value.0, UsedAfter(used, r))
  {
  }

  lemma ServeKeepsPinned(j: Journal, e: Event, used: set<string>, seen: Claim)
    requires Pinned(j.claims, seen) && Distinct(j.claims, used) && seen.token.preimage in used
    requires e.request.Add? ==> e.request.token !in used
    ensures Pinned(Serve(j, e.now, e.request, e.fate).0.claims, seen)
    ensures var reply := Serve(j, e.now, e.request, e.fate).1;
            reply.Granted? && reply.claim.token == seen.token ==> Continues(seen, reply.claim)
  {
    var live := Prune(j.claims, e.now);
    assert Pinned(live, seen) && Distinct(live, used);
    ServeShape(j, e);
    if e.request.Add? || e.request.Consume? || e.request.Remove? {
      MutateKeepsPinned(live, e.now, e.request, used, seen);
    }
  }

  /** A claim handed out by a request pins its token from then on. */
  lemma ConsumePins(claims: ClaimMap, now: int, r: Request, used: set<string>)
    requires Distinct(claims, used) && r.Consume? && Mutate(claims, now, r).Some?
    ensures var (after, reply) := Mutate(claims, now, r).value;
            reply.Granted? && Pinned(after, reply.claim) && Distinct(after, used) && reply.claim.token.preimage in used
            && reply.claim.token == Sha256(r.token) && Pinned(claims, claims[r.instance])
  {
  }

  lemma GrantPins(j: Journal, e: Event, used: set<string>)
    requires Distinct(j.claims, used)
    requires e.request.Consume? || e.request.Verify?
    requires Serve(j, e.now, e.request, e.fate).1.Granted?
    ensures var (j', reply) := Serve(j, e.now, e.request, e.fate);
            Pinned(j'.claims, reply.claim) && Distinct(j'.claims, used) && reply.claim.token.preimage in used
            && reply.claim.token == Sha256(e.request.token)
  {
    if e.request.Consume? {
      ConsumePins(Prune(j.claims, e.now), e.now, e.request, used);
    }
  }

  /** A request whose reply carries the claim of this token. */
  predicate HandsOut(e: Event, reply: Reply, token: string) {
    (e.request.Verify? || e.request.Consume?) && e.request.token == token && reply.Granted?
  }

  lemma {:induction false} LaterGrantsContinue(j: Journal, events: seq<Event>, used: set<string>, seen: Claim, k: nat)
    requires Pinned(j.claims, seen) && Distinct(j.claims, used) && seen.token.preimage in used && FreshTokens(events, used)
    requires k < |events|
    requires HandsOut(events[k], LazyReplies(j, events)[k], seen.token.preimage)
    ensures Continues(seen, LazyReplies(j, events)[k].claim)
    decreases |events|
  {
    var e := events[0];
    ServeKeepsPinned(j, e, used, seen);
    ServeKeepsDistinct(j, e, used);
    if k > 0 {
      LaterGrantsContinue(Serve(j, e.now, e.request, e.fate).0, events[1..], UsedAfter(used, e.request), seen, k - 1);
    }
  }

  lemma ServeKeepsDistinct(j: Journal, e: Event, used: set<string>)
    requires Distinct(j.claims, used) && (e.request.Add? ==> e.request.token !in used)
    ensures Distinct(Serve(j, e.now, e.request, e.fate).0.claims, UsedAfter(used, e.request))
  {
    var live := Prune(j.claims, e.now);
    assert Distinct(live, used);
    ServeShape(j, e);
    if e.request.Add? || e.request.Consume? || e.request.Remove? {
      MutateKeepsDistinct(live, e.now, e.request, used);
    }
  }

  /** Any two answers about one token in one run agree, the later continuing the earlier. */
  lemma {:induction false} GrantsAgree(j: Journal, events: seq<Event>, used: set<string>, token: string, i: nat, k: nat)
    requires Distinct(j.claims, used) && FreshTokens(events, used)
    requires i < k < |events|
    requires HandsOut(events[i], LazyReplies(j, events)[i], token) && HandsOut(events[k], LazyReplies(j, events)[k], token)
    ensures Continues(LazyReplies(j, events)[i].claim, LazyReplies(j, events)[k].claim)
    decreases |events|
  {
    var e := events[0];
    var j' := Serve(j, e.now, e.request, e.fate).0;
    if i == 0 {
      GrantPins(j, e, used);
      LaterGrantsContinue(j', events[1..], used, LazyReplies(j, events)[0].claim, k - 1);
    } else {
      ServeKeepsDistinct(j, e, used);
      GrantsAgree(j', events[1..], UsedAfter(used, e.request), token, i - 1, k - 1);
    }
  }

  /** One token, one repository: in every run from an empty journal in which no token is
      added twice, under any clock, any interleaving of requests and any write failures,
      two successful consumes of a token name the same repository; and the claim a
      handler verified earlier has the pool and role of the claim it later consumes. */
  lemma {:induction false} OneTokenOneRepository(events: seq<Event>, token: string, i: nat, k: nat)
    requires FreshTokens(events, {}) && i < k < |events|
    requires HandsOut(events[i], LazyReplies(EMPTY_JOURNAL, events)[i], token)
    requires HandsOut(events[k], LazyReplies(EMPTY_JOURNAL, events)[k], token)
    ensures var replies := LazyReplies(EMPTY_JOURNAL, events);
            && replies[i].claim.pool == replies[k].claim.pool && replies[i].claim.role == replies[k].claim.role
            && (events[i].request.Consume? && events[k].request.Consume? && events[i].request.repository != ""
                ==> events[i].request.repository == events[k].request.repository)
  {
    GrantsAgree(EMPTY_JOURNAL, events, {}, token, i, k);
    if events[i].request.Consume? { GrantNamesRequest(EMPTY_JOURNAL, events, i); }
    if events[k].request.Consume? { GrantNamesRequest(EMPTY_JOURNAL, events, k); }
  }

  /** A granted consume answers with the repository it asked for. */
  lemma {:induction false} GrantNamesRequest(j: Journal, events: seq<Event>, i: nat)
    requires i < |events|
    requires events[i].request.Consume? && LazyReplies(j, events)[i].Granted?
    ensures LazyReplies(j, events)[i].claim.repository == events[i].request.repository
    decreases |events|
  {
    if i > 0 {
      var j' := Serve(j, events[0].now, events[0].request, events[0].fate).0;
      GrantNamesRequest(j', events[1..], i - 1);
    }
  }
}
