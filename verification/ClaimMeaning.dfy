/** What the claim journal does, told by its requests and replies alone: what each request
    changes for whom, where a granted claim comes from, and how long it lasts. */
module ClaimMeaning {
  import opened Text
  import opened Spool
  import opened Claims
  import opened ClaimRuns

  // ---------------------------------------------------------------- one request

  /** The instant from which a claim no longer exists: 15 minutes after it was added while
      it is unbound, 24 hours after it was bound. */
  function End(c: Claim): int {
    if c.repository == "" then c.expiresAt else c.claimedAt + 24 * 60 * 60
  }

  /** The claim an instance has at an instant, if any. */
  function LiveAt(claims: ClaimMap, instance: string, now: int): Option<Claim> {
    if instance in claims && now < End(claims[instance]) then Some(claims[instance]) else None
  }

  /** No other instance notices. */
  ghost predicate OthersKept(before: ClaimMap, after: ClaimMap, instance: string, now: int) {
    forall other :: other != instance ==> LiveAt(after, other, now) == LiveAt(before, other, now)
  }

  predicate MayBeAdded(claims: ClaimMap, now: int, instance: string, pool: string, role: string, token: string) {
    && |token| == CLAIM_TOKEN_BYTES && InstanceName(instance) && pool != "" && ClaimRole(role) && now != ZERO_INSTANT
    && !(LiveAt(claims, instance, now).Some? && LiveAt(claims, instance, now).value.repository != "")
  }

  function Added(now: int, instance: string, pool: string, role: string, token: string): Claim {
    Claim(instance, pool, role, Sha256(token), now, now + 15 * 60, "", ZERO_INSTANT)
  }

  lemma PruneIsLive(claims: ClaimMap, now: int, instance: string)
    ensures instance in Prune(claims, now) <==> LiveAt(claims, instance, now).Some?
    ensures LiveAt(claims, instance, now).Some? ==> Prune(claims, now)[instance] == LiveAt(claims, instance, now).value
    ensures LiveAt(Prune(claims, now), instance, now) == LiveAt(claims, instance, now)
  {
  }

  lemma PruneKeepsOthers(claims: ClaimMap, now: int, after: ClaimMap, instance: string)
    requires forall other :: other != instance ==>
               (other in after <==> other in Prune(claims, now)) && (other in after ==> after[other] == Prune(claims, now)[other])
    ensures OthersKept(claims, after, instance, now)
  {
    forall other | other != instance ensures LiveAt(after, other, now) == LiveAt(claims, other, now) {
      PruneIsLive(claims, now, other);
    }
  }

  lemma ValidUpdate(claims: ClaimMap, key: string, c: Claim)
    requires ClaimsValid(claims)
    ensures ClaimsValid(claims[key := c]) <==> ClaimValid(key, c)
  {
    var more := claims[key := c];
    assert more[key] == c && key in more;
  }

  /** An add is done if and only if it may be and its write lands; the instance then has
      exactly that claim, for the next 15 minutes, and no other instance notices. */
  lemma {:induction false} AddMeans(j: Journal, now: int, instance: string, pool: string, role: string, token: string, fate: Fate)
    requires ClaimsValid(j.claims)
    ensures var (j', reply) := Serve(j, now, Add(instance, pool, role, token), fate);
            var may, claim := MayBeAdded(j.claims, now, instance, pool, role, token), Added(now, instance, pool, role, token);
            && (reply == Done <==> may && (fate.Landed? || LiveAt(j.claims, instance, now) == Some(claim)))
            && (reply != Done ==> reply == Refused)
            && ((may && !fate.Lost?) || reply == Done ==> LiveAt(j'.claims, instance, now) == Some(claim))
            && (!may || fate.Lost? ==> j' == j)
            && OthersKept(j.claims, j'.claims, instance, now)
  {
    var pruned := Prune(j.claims, now);
    var claim := Added(now, instance, pool, role, token);
    PruneIsLive(j.claims, now, instance);
    PruneKeepsValid(j.claims, now);
    PruneKeepsOthers(j.claims, now, pruned[instance := claim], instance);
    ValidUpdate(pruned, instance, claim);
    assert pruned[instance := claim] == pruned <==> LiveAt(j.claims, instance, now) == Some(claim);
  }

  /** A remove is done if and only if its write lands or there was nothing to remove; the
      instance then has no claim, and no other instance notices. */
  lemma {:induction false} RemoveMeans(j: Journal, now: int, instance: string, fate: Fate)
    requires ClaimsValid(j.claims)
    ensures var (j', reply) := Serve(j, now, Remove(instance), fate);
            && (reply == Done <==> fate.Landed? || LiveAt(j.claims, instance, now).None?)
            && (reply != Done ==> reply == Refused)
            && (reply == Done || !fate.Lost? ==> LiveAt(j'.claims, instance, now).None?)
            && (fate.Lost? ==> j' == j)
            && OthersKept(j.claims, j'.claims, instance, now)
  {
    var pruned := Prune(j.claims, now);
    PruneIsLive(j.claims, now, instance);
    PruneKeepsValid(j.claims, now);
    PruneKeepsOthers(j.claims, now, pruned - {instance}, instance);
    assert pruned - {instance} == pruned <==> instance !in pruned;
  }

  /** The claim may be consumed for the repository: its token is right and live, and it is
      bound to that repository already, or to none and may be bound to it. */
  predicate MayBeConsumed(c: Claim, now: int, token: string, repository: string) {
    && |token| == CLAIM_TOKEN_BYTES && now < c.expiresAt && c.token == Sha256(token)
    && if c.repository != "" then repository == c.repository
       else if repository == "" then now == ZERO_INSTANT
       else RepositoryName(repository) && now != ZERO_INSTANT && c.createdAt <= now
  }

  function Consumed(c: Claim, now: int, repository: string): Claim {
    if c.repository == "" then c.(repository := repository, claimedAt := now) else c
  }

  /** A consume is granted if and only if the live claim may be consumed and, where it binds,
      its write lands; the instance then has the granted claim, bound to the repository. */
  lemma {:induction false} ConsumeMeans(j: Journal, now: int, instance: string, token: string, repository: string, fate: Fate)
    requires ClaimsValid(j.claims)
    ensures var (j', reply) := Serve(j, now, Consume(instance, token, repository), fate);
            var had := LiveAt(j.claims, instance, now);
            && (reply.Granted? <==>
                  had.Some? && MayBeConsumed(had.value, now, token, repository)
                  && (fate.Landed? || had.value.repository != "" || repository == ""))
            && (reply.Granted? ==> reply.claim == Consumed(had.value, now, repository) && reply.claim.repository == repository)
            && (reply.Granted? ==> LiveAt(j'.claims, instance, now) == Some(reply.claim))
            && (!reply.Granted? ==> reply == Refused)
            && OthersKept(j.claims, j'.claims, instance, now)
  {
    var pruned := Prune(j.claims, now);
    PruneIsLive(j.claims, now, instance);
    PruneKeepsValid(j.claims, now);
    if instance in pruned {
      var c := pruned[instance];
      var bound := c.(repository := repository, claimedAt := now);
      ValidUpdate(pruned, instance, bound);
      PruneKeepsOthers(j.claims, now, pruned[instance := bound], instance);
      assert ClaimValid(instance, c);
      assert pruned[instance := bound] == pruned <==> bound == c;
    }
  }

  /** Reading changes nothing: a verify shows the live claim for its live token, and the
      correlation of an instance is the repository its live claim is bound to. */
  lemma {:induction false} LookMeans(j: Journal, now: int, instance: string, token: string, fate: Fate)
    requires ClaimsValid(j.claims)
    ensures var had := LiveAt(j.claims, instance, now);
            && Serve(j, now, Verify(instance, token), fate) ==
               (j, if had.Some? && |token| == CLAIM_TOKEN_BYTES && now < had.value.expiresAt && had.value.token == Sha256(token)
                   then Granted(had.value) else Refused)
            && Serve(j, now, ClaimedRepository(instance), fate) ==
               (j, if had.Some? && had.value.repository != "" then Bound(had.value.repository) else Refused)
  {
    if instance in j.claims && !Retained(j.claims[instance], now) {
      StaleHasNoToken(instance, j.claims[instance], now);
    }
  }

  // ---------------------------------------------------------------- where a grant comes from

  /** The claim is the one this add asked for, but for its binding. */
  predicate From(c: Claim, e: Event) {
    e.request.Add? && Added(e.now, e.request.instance, e.request.pool, e.request.role, e.request.token)
                      == c.(repository := "", claimedAt := ZERO_INSTANT)
  }

  ghost predicate HasOrigin(c: Claim, history: seq<Event>) {
    exists a :: 0 <= a < |history| && From(c, history[a])
  }

  ghost predicate AllHaveOrigins(claims: ClaimMap, history: seq<Event>) {
    forall key :: key in claims ==> HasOrigin(claims[key], history)
  }

  lemma OriginStays(c: Claim, history: seq<Event>, more: seq<Event>)
    requires HasOrigin(c, history)
    ensures HasOrigin(c, history + more)
  {
    var a :| 0 <= a < |history| && From(c, history[a]);
    assert (history + more)[a] == history[a];
  }

  lemma ServeKeepsOrigins(j: Journal, history: seq<Event>, e: Event)
    requires AllHaveOrigins(j.claims, history)
    ensures AllHaveOrigins(Serve(j, e.now, e.request, e.fate).0.claims, history + [e])
  {
    var after := Serve(j, e.now, e.request, e.fate).0.claims;
    ServeShape(j, e);
    forall key | key in after ensures HasOrigin(after[key], history + [e]) {
      if e.request.Add? && From(after[key], e) {
        assert (history + [e])[|history|] == e;
      } else {
        assert key in j.claims;
        var a :| 0 <= a < |history| && From(j.claims[key], history[a]);
        assert From(after[key], history[a]) && (history + [e])[a] == history[a];
      }
    }
  }

  lemma GrantHasOrigin(j: Journal, history: seq<Event>, e: Event)
    requires AllHaveOrigins(j.claims, history) && Serve(j, e.now, e.request, e.fate).1.Granted?
    ensures var c := Serve(j, e.now, e.request, e.fate).1.claim;
            && HasOrigin(c, history) && e.now < c.expiresAt
            && (e.request.Consume? || e.request.Verify?) && c.token == Sha256(e.request.token)
  {
    var c := Serve(j, e.now, e.request, e.fate).1.claim;
    assert e.request.instance in j.claims;
    var a :| 0 <= a < |history| && From(j.claims[e.request.instance], history[a]);
    assert From(c, history[a]);
  }

  lemma {:induction false} GrantsHaveOrigins(j: Journal, history: seq<Event>, events: seq<Event>, k: nat)
    requires AllHaveOrigins(j.claims, history) && k < |events| && LazyReplies(j, events)[k].Granted?
    ensures var c := LazyReplies(j, events)[k].claim;
            && HasOrigin(c, history + events[..k]) && events[k].now < c.expiresAt
            && (events[k].request.Consume? || events[k].request.Verify?) && c.token == Sha256(events[k].request.token)
    decreases |events|
  {
    var e := events[0];
    if k == 0 {
      GrantHasOrigin(j, history, e);
      assert history + events[..0] == history;
    } else {
      ServeKeepsOrigins(j, history, e);
      GrantsHaveOrigins(Serve(j, e.now, e.request, e.fate).0, history + [e], events[1..], k - 1);
      assert history + [e] + events[1..][..k - 1] == history + events[..k];
    }
  }

  lemma {:induction false} FreshTokensOnce(events: seq<Event>, used: set<string>, a: nat, b: nat)
    requires FreshTokens(events, used) && a < b < |events| && events[a].request.Add? && events[b].request.Add?
    ensures events[a].request.token != events[b].request.token
    decreases |events|
  {
    if a == 0 {
      UsedIsNotFresh(events[1..], UsedAfter(used, events[0].request), b - 1);
    } else {
      FreshTokensOnce(events[1..], UsedAfter(used, events[0].request), a - 1, b - 1);
    }
  }

  lemma {:induction false} UsedIsNotFresh(events: seq<Event>, used: set<string>, b: nat)
    requires FreshTokens(events, used) && b < |events| && events[b].request.Add?
    ensures events[b].request.token !in used
    decreases |events|
  {
    if b > 0 {
      UsedIsNotFresh(events[1..], UsedAfter(used, events[0].request), b - 1);
    }
  }

  /** Over any run from the empty journal with fresh tokens, on any clock: a granted claim is
      the one its token was added with, by an earlier add, in instance, pool and role, dated
      by that add's clock and good for 15 minutes, and it is granted only within them. */
  lemma {:induction false} GrantIsItsAdd(events: seq<Event>, token: string, a: nat, k: nat)
    requires FreshTokens(events, {}) && k < |events| && HandsOut(events[k], LazyReplies(EMPTY_JOURNAL, events)[k], token)
    requires a < |events| && events[a].request.Add? && events[a].request.token == token
    ensures var c, add := LazyReplies(EMPTY_JOURNAL, events)[k].claim, events[a];
            && a < k && c.instance == add.request.instance && c.pool == add.request.pool && c.role == add.request.role
            && c.createdAt == add.now && c.expiresAt == add.now + 15 * 60 && events[k].now < add.now + 15 * 60
  {
    GrantsHaveOrigins(EMPTY_JOURNAL, [], events, k);
    var c := LazyReplies(EMPTY_JOURNAL, events)[k].claim;
    var history := [] + events[..k];
    var b :| 0 <= b < |history| && From(c, history[b]);
    assert history[b] == events[b];
    if a < b {
      FreshTokensOnce(events, {}, a, b);
    } else if b < a {
      FreshTokensOnce(events, {}, b, a);
    }
  }

  /** Such an add there is: nothing is granted that was not added. */
  lemma {:induction false} EveryGrantWasAdded(events: seq<Event>, token: string, k: nat)
    requires k < |events| && HandsOut(events[k], LazyReplies(EMPTY_JOURNAL, events)[k], token)
    ensures exists a :: 0 <= a < k && events[a].request.Add? && events[a].request.token == token
  {
    GrantsHaveOrigins(EMPTY_JOURNAL, [], events, k);
    var history := [] + events[..k];
    var b :| 0 <= b < |history| && From(LazyReplies(EMPTY_JOURNAL, events)[k].claim, history[b]);
    assert history[b] == events[b];
  }

  // ---------------------------------------------------------------- how long a token lasts

  lemma {:induction false} RepliesFrom(j: Journal, events: seq<Event>, n: nat, k: nat)
    requires n <= k < |events|
    ensures LazyReplies(j, events)[k] == LazyReplies(After(j, events[..n]), events[n..])[k - n]
    decreases |events|
  {
    if n == 0 {
      assert events[..0] == [] && events[0..] == events;
    } else {
      var e, rest := events[0], events[1..];
      RepliesFrom(Serve(j, e.now, e.request, e.fate).0, rest, n - 1, k - 1);
      assert events[..n][1..] == rest[..n - 1] && events[n..] == rest[n - 1..];
    }
  }

  lemma {:induction false} AfterNext(j: Journal, events: seq<Event>, n: nat)
    requires n < |events|
    ensures After(j, events[..n + 1]) == Serve(After(j, events[..n]), events[n].now, events[n].request, events[n].fate).0
    ensures LazyReplies(j, events)[n] == Serve(After(j, events[..n]), events[n].now, events[n].request, events[n].fate).1
    decreases |events|
  {
    var e, rest := events[0], events[1..];
    if n == 0 {
      assert events[..1] == [e] && events[..1][1..] == [] && events[..0] == [];
    } else {
      AfterNext(Serve(j, e.now, e.request, e.fate).0, rest, n - 1);
      assert events[..n + 1][1..] == rest[..n] && events[..n][1..] == rest[..n - 1];
    }
  }

  /** The event neither adds nor removes a claim of the instance. */
  predicate Spares(e: Event, instance: string) {
    !((e.request.Add? || e.request.Remove?) && e.request.instance == instance)
  }

  /** The claim of the instance is that of the token, and is there while the token lives. */
  predicate Carries(claims: ClaimMap, instance: string, token: string, end: int, clock: int) {
    && (instance in claims ==> claims[instance].token == Sha256(token) && claims[instance].expiresAt == end)
    && (clock < end ==> instance in claims)
  }

  lemma ServeCarries(j: Journal, e: Event, instance: string, token: string, end: int, clock: int)
    requires ClaimsValid(j.claims) && Carries(j.claims, instance, token, end, clock)
    requires clock <= e.now && Spares(e, instance)
    ensures var after := Serve(j, e.now, e.request, e.fate).0.claims;
            ClaimsValid(after) && Carries(after, instance, token, end, e.now)
  {
    TransactIsSound(j, e.now, e.request, e.fate);
    if e.now < end {
      assert ClaimValid(instance, j.claims[instance]) && Retained(j.claims[instance], e.now);
    }
  }

  lemma {:induction false} VerifyWhileCarried(j: Journal, events: seq<Event>, k: nat, instance: string, token: string, end: int, clock: int)
    requires ClaimsValid(j.claims) && Carries(j.claims, instance, token, end, clock) && ClockForward(events, clock)
    requires k < |events| && events[k].request == Verify(instance, token) && |token| == CLAIM_TOKEN_BYTES
    requires forall i :: 0 <= i < k ==> Spares(events[i], instance)
    ensures LazyReplies(j, events)[k].Granted? <==> events[k].now < end
    decreases |events|
  {
    var e := events[0];
    if k == 0 {
      LookMeans(j, e.now, instance, token, e.fate);
      if e.now < end {
        assert ClaimValid(instance, j.claims[instance]);
      }
    } else {
      ServeCarries(j, e, instance, token, end, clock);
      VerifyWhileCarried(Serve(j, e.now, e.request, e.fate).0, events[1..], k - 1, instance, token, end, e.now);
    }
  }

  /** After an add that replied Done, and while the clock does not go back, the token is good
      for exactly 15 minutes: whatever else is requested meanwhile, a verify is granted if and
      only if it comes within them, until the instance is added again or removed. */
  lemma {:induction false} TokenIsGoodFor15Minutes(j: Journal, events: seq<Event>, a: nat, k: nat, instance: string, token: string)
    requires ClaimsValid(j.claims) && a < k < |events| && LazyReplies(j, events)[a] == Done
    requires events[a].request.Add? && events[a].request.instance == instance && events[a].request.token == token
    requires events[k].request == Verify(instance, token)
    requires ClockForward(events[a + 1..], events[a].now)
    requires forall i :: a < i < k ==> Spares(events[i], instance)
    ensures LazyReplies(j, events)[k].Granted? <==> events[k].now < events[a].now + 15 * 60
  {
    var e := events[a];
    var before, j' := After(j, events[..a]), After(j, events[..a + 1]);
    RunIsSound(j, events[..a]);
    AfterNext(j, events, a);
    AddMeans(before, e.now, instance, e.request.pool, e.request.role, token, e.fate);
    TransactIsSound(before, e.now, e.request, e.fate);
    RepliesFrom(j, events, a + 1, k);
    var rest := events[a + 1..];
    assert rest[k - a - 1] == events[k] && forall i :: 0 <= i < k - a - 1 ==> rest[i] == events[a + 1 + i];
    VerifyWhileCarried(j', rest, k - a - 1, instance, token, e.now + 15 * 60, e.now);
  }

  // ---------------------------------------------------------------- how long a removal lasts

  /** At this reading and any later one the instance has no claim. */
  predicate GoneFrom(claims: ClaimMap, instance: string, floor: int) {
    instance in claims ==> End(claims[instance]) <= floor
  }

  predicate Shows(reply: Reply) { reply.Granted? || reply.Bound? }

  /** A request about another instance leaves the stored claim of this one, or drops it. */
  lemma OtherUntouched(j: Journal, e: Event, instance: string)
    requires e.request.instance != instance
    ensures var after := Serve(j, e.now, e.request, e.fate).0.claims;
            instance in after ==> instance in j.claims && after[instance] == j.claims[instance]
  {
  }

  lemma GoneIsRefused(j: Journal, e: Event, instance: string, floor: int)
    requires ClaimsValid(j.claims) && GoneFrom(j.claims, instance, floor) && floor <= e.now && e.request.instance == instance
    requires !e.request.Add?
    ensures var (j', reply) := Serve(j, e.now, e.request, e.fate);
            !Shows(reply) && (instance in j'.claims ==> instance in j.claims && j'.claims[instance] == j.claims[instance])
  {
    PruneIsLive(j.claims, e.now, instance);
    if instance in j.claims {
      StaleHasNoToken(instance, j.claims[instance], e.now);
    }
  }

  lemma ServeKeepsGone(j: Journal, e: Event, instance: string, floor: int)
    requires ClaimsValid(j.claims) && GoneFrom(j.claims, instance, floor) && floor <= e.now
    requires !(e.request.Add? && e.request.instance == instance)
    ensures var (j', reply) := Serve(j, e.now, e.request, e.fate);
            && ClaimsValid(j'.claims) && GoneFrom(j'.claims, instance, floor)
            && (e.request.instance == instance ==> !Shows(reply))
  {
    TransactIsSound(j, e.now, e.request, e.fate);
    if e.request.instance == instance {
      GoneIsRefused(j, e, instance, floor);
    } else {
      OtherUntouched(j, e, instance);
    }
  }

  /** From a journal in which the instance is gone, at readings not before the floor, nothing
      is shown of it until it is added again. */
  lemma {:induction false} GoneShowsNothing(j: Journal, events: seq<Event>, k: nat, instance: string, floor: int)
    requires ClaimsValid(j.claims) && GoneFrom(j.claims, instance, floor) && k < |events|
    requires forall i :: 0 <= i <= k ==> floor <= events[i].now
    requires forall i :: 0 <= i < k ==> !(events[i].request.Add? && events[i].request.instance == instance)
    ensures events[k].request.instance == instance ==> !Shows(LazyReplies(j, events)[k])
    decreases |events|
  {
    var e := events[0];
    if k == 0 {
      if e.request.Add? {
        AddMeans(j, e.now, e.request.instance, e.request.pool, e.request.role, e.request.token, e.fate);
      } else {
        ServeKeepsGone(j, e, instance, floor);
      }
    } else {
      ServeKeepsGone(j, e, instance, floor);
      GoneShowsNothing(Serve(j, e.now, e.request, e.fate).0, events[1..], k - 1, instance, floor);
    }
  }

  /** Over every valid journal and every run at these readings: after a remove at `r` that
      replied Done, no reply shows anything of its instance before it is added again. */
  ghost predicate RemovalHolds(cs: seq<int>, r: nat) {
    forall j: Journal, events: seq<Event>, k: nat ::
      ClaimsValid(j.claims) && ReadAt(events, cs) && RemovedAt(j, events, r, k) ==> !Shows(LazyReplies(j, events)[k])
  }

  ghost predicate RemovedAt(j: Journal, events: seq<Event>, r: nat, k: nat) {
    && r < k < |events| && events[r].request.Remove? && LazyReplies(j, events)[r] == Done
    && events[k].request.instance == events[r].request.instance
    && forall i :: r < i < k ==> !(events[i].request.Add? && events[i].request.instance == events[r].request.instance)
  }

  lemma {:induction false} RemovalHoldsLater(cs: seq<int>, r: nat, j: Journal, events: seq<Event>, k: nat)
    requires ClaimsValid(j.claims) && ReadAt(events, cs) && RemovedAt(j, events, r, k)
    requires forall m :: r < m < |cs| ==> cs[r] <= cs[m]
    ensures !Shows(LazyReplies(j, events)[k])
  {
    var e := events[r];
    RunIsSound(j, events[..r]);
    AfterNext(j, events, r);
    RemoveMeans(After(j, events[..r]), e.now, e.request.instance, e.fate);
    TransactIsSound(After(j, events[..r]), e.now, e.request, e.fate);
    RepliesFrom(j, events, r + 1, k);
    var rest := events[r + 1..];
    assert forall i :: 0 <= i < |rest| ==> rest[i] == events[r + 1 + i];
    GoneShowsNothing(After(j, events[..r + 1]), rest, k - r - 1, e.request.instance, e.now);
  }

  /** Looks at every reading but one, which removes. */
  function LooksAround(cs: seq<int>, r: nat): (events: seq<Event>)
    requires r < |cs|
    ensures |events| == |cs| && ReadAt(events, cs)
    ensures forall i :: 0 <= i < |cs| ==> events[i].request == if i == r then Remove("runner") else LOOK
  {
    seq(|cs|, i requires 0 <= i < |cs| => Event(cs[i], if i == r then Remove("runner") else LOOK, Landed))
  }

  /** A remove that finds only a stale claim writes nothing, so nothing ever is written. */
  lemma {:induction false} NothingWritten(j: Journal, events: seq<Event>, k: nat)
    requires ClaimsValid(j.claims) && k < |events|
    requires forall i :: 0 <= i <= k ==>
               events[i].request.Verify? || (events[i].request.Remove? && LiveAt(j.claims, events[i].request.instance, events[i].now).None?)
    ensures LazyReplies(j, events)[k] == Serve(j, events[k].now, events[k].request, events[k].fate).1
    decreases |events|
  {
    var e := events[0];
    if k > 0 {
      if e.request.Remove? {
        PruneIsLive(j.claims, e.now, e.request.instance);
        assert Prune(j.claims, e.now) - {e.request.instance} == Prune(j.claims, e.now);
      }
      NothingWritten(j, events[1..], k - 1);
    }
  }

  /** A later reading before that of the removal brings a stale claim back. */
  lemma {:induction false} RemovalUndone(cs: seq<int>, r: nat, m: nat)
    requires r < m < |cs| && cs[m] < cs[r]
    ensures !RemovalHolds(cs, r)
  {
    var claims := map["runner" := LiveUpTo(cs[m])];
    var j, events := Journal(1, cs[m], claims), LooksAround(cs, r);
    LiveUpToIsValid(cs[m]);
    NothingWritten(j, events, r);
    NothingWritten(j, events, m);
    RemoveMeans(j, cs[r], "runner", Landed);
    LookMeans(j, cs[m], "runner", LOOK_TOKEN, Landed);
    assert RemovedAt(j, events, r, m) && Shows(LazyReplies(j, events)[m]);
  }

  /** A removal holds, for every journal and run at these readings, if and only if no later
      reading lies before that of the removal: a remove that finds only a stale claim does not
      write, and the stale claim comes back with the clock. */
  lemma {:induction false} RemovalHoldsIff(cs: seq<int>, r: nat)
    requires r < |cs|
    ensures RemovalHolds(cs, r) <==> forall m :: r < m < |cs| ==> cs[r] <= cs[m]
  {
    if forall m :: r < m < |cs| ==> cs[r] <= cs[m] {
      forall j: Journal, events: seq<Event>, k: nat | ClaimsValid(j.claims) && ReadAt(events, cs) && RemovedAt(j, events, r, k)
        ensures !Shows(LazyReplies(j, events)[k])
      {
        RemovalHoldsLater(cs, r, j, events, k);
      }
    } else {
      var m :| r < m < |cs| && cs[m] < cs[r];
      RemovalUndone(cs, r, m);
    }
  }
}
