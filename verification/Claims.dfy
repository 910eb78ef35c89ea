/** The one-time cache-claim journal: claims with a 15-minute token and a 24-hour
    repository correlation, pruned lazily inside each exclusive transaction. */
module Claims {
  import opened Text
  import opened Spool

  const CLAIM_TTL: int := 15 * 60
  const CORRELATION_TTL: int := 24 * 60 * 60
  const CLAIM_TOKEN_BYTES := 32
  /** Go's zero `time.Time`, in seconds since the Unix epoch. */
  const ZERO_INSTANT: int := -62_135_596_800

  datatype Claim = Claim(
    instance: string, pool: string, role: string, token: Digest,
    createdAt: int, expiresAt: int, repository: string, claimedAt: int)

  type ClaimMap = map<string, Claim>

  datatype Journal = Journal(generation: nat, updatedAt: int, claims: ClaimMap)

  const EMPTY_JOURNAL := Journal(0, ZERO_INSTANT, map[])

  // ---------------------------------------------------------------- validity

  predicate LowerAlnum(c: char) { 'a' <= c <= 'z' || '0' <= c <= '9' }

  /** `^[a-z][a-z0-9-]{5,63}$` */
  predicate InstanceName(s: string) {
    6 <= |s| <= 64 && 'a' <= s[0] <= 'z' && forall i :: 1 <= i < |s| ==> LowerAlnum(s[i]) || s[i] == '-'
  }

  predicate ClaimRole(role: string) {
    role in {"correlation-only", "trusted-writer", "untrusted-writer", "release-reader"}
  }

  function Slashes(s: string): nat {
    if s == "" then 0 else (if s[0] == '/' then 1 else 0) + Slashes(s[1..])
  }

  /** `splitRepository`: exactly two non-empty parts, no blank and no backslash. */
  predicate RepositoryName(s: string) {
    Slashes(s) == 1 && s != "" && s[0] != '/' && s[|s| - 1] != '/' && '\\' !in s && ' ' !in s
  }

  predicate ClaimValid(key: string, c: Claim) {
    && key == c.instance && InstanceName(key) && c.pool != "" && ClaimRole(c.role)
    && c.createdAt != ZERO_INSTANT && c.createdAt < c.expiresAt && c.expiresAt - c.createdAt <= CLAIM_TTL
    && (c.repository == "" <==> c.claimedAt == ZERO_INSTANT)
    && (c.repository != "" ==> RepositoryName(c.repository) && c.createdAt <= c.claimedAt <= c.expiresAt)
  }

  /** `Journal.Validate` over the claims. */
  predicate ClaimsValid(claims: ClaimMap) {
    forall key :: key in claims ==> ClaimValid(key, claims[key])
  }

  // ---------------------------------------------------------------- lifetimes

  /** `claimRetained`. */
  predicate Retained(c: Claim, now: int) {
    if c.repository == "" then c.expiresAt > now else c.claimedAt + CORRELATION_TTL > now
  }

  function Prune(claims: ClaimMap, now: int): ClaimMap {
    map key | key in claims && Retained(claims[key], now) :: claims[key]
  }

  // ---------------------------------------------------------------- transactions

  datatype Request =
    | Add(instance: string, pool: string, role: string, token: string)
    | Consume(instance: string, token: string, repository: string)
    | Remove(instance: string)
    | Verify(instance: string, token: string)
    | ClaimedRepository(instance: string)

  datatype Reply = Refused | Done | Granted(claim: Claim) | Bound(repository: string)

  /** What became of the journal write, if there was one. */
  datatype Fate = Landed | Lost | LandedButFailed

  predicate WellFormed(r: Request) {
    match r
    case Add(instance, pool, role, token) =>
      |token| == CLAIM_TOKEN_BYTES && InstanceName(instance) && pool != "" && ClaimRole(role)
    case Consume(_, token, _) => |token| == CLAIM_TOKEN_BYTES
    case Verify(_, token) => |token| == CLAIM_TOKEN_BYTES
    case _ => true
  }

  /** The mutation run on the pruned claims: the new claims and the reply, or None on error. */
  function Mutate(claims: ClaimMap, now: int, r: Request): Option<(ClaimMap, Reply)>
    requires r.Add? || r.Consume? || r.Remove?
  {
    match r
    case Add(instance, pool, role, token) =>
      if instance in claims && claims[instance].repository != "" then None
      else Some((claims[instance := Claim(instance, pool, role, Sha256(token), now, now + CLAIM_TTL, "", ZERO_INSTANT)], Done))
    case Remove(instance) => Some((claims - {instance}, Done))
    case Consume(instance, token, repository) =>
      if instance !in claims then None
      else
        var c := claims[instance];
        if c.expiresAt <= now then None
        else if c.token != Sha256(token) then None
        else if c.repository != "" && c.repository != repository then None
        else if c.repository == "" then
          var bound := c.(repository := repository, claimedAt := now);
          Some((claims[instance := bound], Granted(bound)))
        else Some((claims, Granted(c)))
  }

  /** One exclusive transaction: prune in memory, mutate, validate, write only a change
      made by the mutation itself. */
  function Transact(j: Journal, now: int, r: Request, fate: Fate): (Journal, Reply)
    requires r.Add? || r.Consume? || r.Remove?
  {
    if !WellFormed(r) then (j, Refused)
    else
      var pruned := Prune(j.claims, now);
      match Mutate(pruned, now, r)
      case None => (j, Refused)
      case Some((claims, reply)) =>
        if !ClaimsValid(claims) then (j, Refused)
        else if claims == pruned then (j, reply)
        else
          var written := Journal(j.generation + 1, now, claims);
          match fate
          case Landed => (written, reply)
          case Lost => (j, Refused)
          case LandedButFailed => (written, Refused)
  }

  /** Reads look at the journal as stored, unpruned. */
  function Look(claims: ClaimMap, now: int, r: Request): Reply
    requires r.Verify? || r.ClaimedRepository?
  {
    match r
    case Verify(instance, token) =>
      if WellFormed(r) && instance in claims && claims[instance].expiresAt > now && claims[instance].token == Sha256(token)
      then Granted(claims[instance]) else Refused
    case ClaimedRepository(instance) =>
      if instance in claims && claims[instance].repository != "" && claims[instance].claimedAt + CORRELATION_TTL > now
      then Bound(claims[instance].repository) else Refused
  }

  function Serve(j: Journal, now: int, r: Request, fate: Fate): (Journal, Reply) {
    if r.Verify? || r.ClaimedRepository? then (j, Look(j.claims, now, r)) else Transact(j, now, r, fate)
  }

  // ---------------------------------------------------------------- the store

  class Store {
    var journal: Journal

    constructor ()
      ensures journal == EMPTY_JOURNAL
    {
      journal := EMPTY_JOURNAL;
    }

    method PruneClaims(claims: ClaimMap, now: int) returns (kept: ClaimMap)
      ensures kept == Prune(claims, now)
    {
      kept := claims;
      var keys := claims.Keys;
      while keys != {}
        invariant keys <= claims.Keys
        invariant forall k :: k in kept <==> k in claims && (k in keys || Retained(claims[k], now))
        invariant forall k :: k in kept ==> kept[k] == claims[k]
        decreases keys
      {
        var key :| key in keys;
        keys := keys - {key};
        if !Retained(claims[key], now) {
          kept := kept - {key};
        }
      }
    }

    /** `update`: `attempt` is the closure's verdict on the pruned claims. */
    method Update(now: int, r: Request) returns (reply: Reply, ghost fate: Fate)
      requires r.Add? || r.Consume? || r.Remove?
      modifies this
      ensures (journal, reply) == Transact(old(journal), now, r, fate)
    {
      fate := Landed;
      if !WellFormed(r) {
        return Refused, Landed;
      }
      var before := PruneClaims(journal.claims, now);
      var attempt := Mutate(before, now, r);
      if attempt.None? || !ClaimsValid(attempt.value.0) {
        return Refused, Landed;
      }
      var after, answer := attempt.value.0, attempt.value.1;
      if after == before {
        return answer, Landed;
      }
      var renamed: bool, synced: bool := *, *;
      if renamed {
        journal := Journal(journal.generation + 1, now, after);
        if synced {
          return answer, Landed;
        }
        return Refused, LandedButFailed;
      }
      return Refused, Lost;
    }
  }

  // ---------------------------------------------------------------- facts about one transaction

  lemma PruneKeepsValid(claims: ClaimMap, now: int)
    requires ClaimsValid(claims)
    ensures ClaimsValid(Prune(claims, now))
  {
  }

  /** Every written journal is valid, and the generation counts the writes. */
  lemma {:induction false} TransactIsSound(j: Journal, now: int, r: Request, fate: Fate)
    requires ClaimsValid(j.claims)
    ensures ClaimsValid(Serve(j, now, r, fate).0.claims)
    ensures Serve(j, now, r, fate).0 != j ==> Serve(j, now, r, fate).0.generation == j.generation + 1
  {
  }

  /** Claiming again with the same token and repository writes nothing and gets the
      same answer, as long as the token lives and the clock has not gone back. */
  lemma {:induction false} ConsumeAgainWritesNothing(j: Journal, now: int, later: int, instance: string, token: string, repository: string, fate: Fate, fate': Fate)
    requires ClaimsValid(j.claims) && repository != ""
    requires Transact(j, now, Consume(instance, token, repository), fate).1.Granted?
    requires now <= later < Transact(j, now, Consume(instance, token, repository), fate).1.claim.expiresAt
    ensures var after := Transact(j, now, Consume(instance, token, repository), fate);
            Transact(after.0, later, Consume(instance, token, repository), fate') == after
  {
    var (j', reply) := Transact(j, now, Consume(instance, token, repository), fate);
    GrantIsHeld(j, now, instance, token, repository, fate);
    HeldIsGranted(j', later, instance, token, repository, reply.claim, fate');
  }

  /** A granted claim is in the journal afterwards, bound to the repository. */
  lemma GrantIsHeld(j: Journal, now: int, instance: string, token: string, repository: string, fate: Fate)
    requires ClaimsValid(j.claims) && repository != "" && Transact(j, now, Consume(instance, token, repository), fate).1.Granted?
    ensures var (j', reply) := Transact(j, now, Consume(instance, token, repository), fate);
            && ClaimsValid(j'.claims) && |token| == CLAIM_TOKEN_BYTES
            && instance in j'.claims && j'.claims[instance] == reply.claim
            && reply.claim.repository == repository && reply.claim.token == Sha256(token)
  {
    PruneKeepsValid(j.claims, now);
  }

  /** And a claim so held is granted without a write. */
  lemma HeldIsGranted(j: Journal, now: int, instance: string, token: string, repository: string, c: Claim, fate: Fate)
    requires ClaimsValid(j.claims) && |token| == CLAIM_TOKEN_BYTES && repository != ""
    requires instance in j.claims && j.claims[instance] == c && c.repository == repository && c.token == Sha256(token)
    requires now < c.expiresAt
    ensures Transact(j, now, Consume(instance, token, repository), fate) == (j, Granted(c))
  {
    assert ClaimValid(instance, c) && Retained(c, now);
    PruneKeepsValid(j.claims, now);
  }
}
