/** The grace tracker of the fleet observer: since when each name has been seen without a
    gap, and which names are still within their grace. */
module Grace {
  /** One sample: the names seen, and the clock. */
  datatype Sample = Sample(names: set<string>, now: int)

  const SECOND := 1_000_000_000

  /** The memory after one sample. */
  function Remember(first: map<string, int>, s: Sample): map<string, int> {
    map name | name in s.names :: if name in first && first[name] <= s.now then first[name] else s.now
  }

  /** Which sampled names are within the grace, given the memory before the sample. */
  function Verdicts(first: map<string, int>, s: Sample, grace: int): map<string, bool> {
    var now := Remember(first, s);
    map name | name in now :: s.now - now[name] <= grace
  }

  /** The memory after a run of samples, starting from nothing. */
  function Memory(samples: seq<Sample>): map<string, int>
    decreases |samples|
  {
    if samples == [] then map[] else Remember(Memory(samples[..|samples| - 1]), samples[|samples| - 1])
  }

  // ---------------------------------------------------------------- meaning of a run

  /** `name` was in every sample from number `k` to the last. */
  ghost predicate Unbroken(samples: seq<Sample>, k: int, name: string) {
    0 <= k < |samples| && forall i :: k <= i < |samples| ==> name in samples[i].names
  }

  /** A final unbroken stretch of `name` holds a sample at least `age` old. */
  ghost predicate SeenFor(samples: seq<Sample>, name: string, age: int) {
    exists k :: Unbroken(samples, k, name) && samples[|samples| - 1].now - samples[k].now >= age
  }

  lemma UnbrokenSnoc(samples: seq<Sample>, k: int, name: string)
    requires |samples| > 0
    ensures Unbroken(samples, k, name) <==>
            name in samples[|samples| - 1].names && (k == |samples| - 1 || Unbroken(samples[..|samples| - 1], k, name))
  {
    var n := |samples| - 1;
    var front := samples[..n];
    if name in samples[n].names && Unbroken(front, k, name) {
      forall i | k <= i < |samples| ensures name in samples[i].names {
        assert i < n ==> name in front[i].names;
      }
    }
    if Unbroken(samples, k, name) && k < n {
      forall i | k <= i < n ensures name in front[i].names {
        assert name in samples[i].names;
      }
    }
  }

  /** `time` is the earliest clock of the final unbroken stretch of `name`. */
  ghost predicate Earliest(samples: seq<Sample>, name: string, time: int) {
    && (exists k :: Unbroken(samples, k, name) && samples[k].now == time)
    && (forall k :: Unbroken(samples, k, name) ==> time <= samples[k].now)
  }

  /** One more sample with the name: the stretch grows by it, or begins with it. */
  lemma EarliestNext(samples: seq<Sample>, name: string, time: int)
    requires |samples| > 0 && name in samples[|samples| - 1].names
    requires var front := samples[..|samples| - 1];
             if Unbroken(front, |front| - 1, name) then exists t :: Earliest(front, name, t) && time == Least(t, samples[|samples| - 1].now)
             else time == samples[|samples| - 1].now
    ensures Earliest(samples, name, time)
  {
    var n := |samples| - 1;
    var front := samples[..n];
    UnbrokenSnoc(samples, n, name);
    assert Unbroken(samples, n, name);
    if Unbroken(front, n - 1, name) {
      var t :| Earliest(front, name, t) && time == Least(t, samples[n].now);
      var k :| Unbroken(front, k, name) && front[k].now == t;
      UnbrokenSnoc(samples, k, name);
      assert Unbroken(samples, k, name) && samples[k] == front[k];
    }
    forall k | Unbroken(samples, k, name) ensures time <= samples[k].now {
      UnbrokenSnoc(samples, k, name);
      if k < n {
        assert front[k] == samples[k] && name in front[n - 1].names;
      }
    }
  }

  function Least(a: int, b: int): int { if a <= b then a else b }

  /** The memory holds exactly the names of the last sample, each with the earliest clock
      of its final unbroken stretch. */
  lemma {:induction false} MemoryIsEarliest(samples: seq<Sample>, name: string)
    requires |samples| > 0
    ensures name in Memory(samples) <==> name in samples[|samples| - 1].names
    ensures name in Memory(samples) ==> Earliest(samples, name, Memory(samples)[name])
    decreases |samples|
  {
    var n := |samples| - 1;
    var front := samples[..n];
    if n > 0 { MemoryIsEarliest(front, name); }
    if name in samples[n].names {
      if name in Memory(front) {
        assert Unbroken(front, n - 1, name);
        assert Memory(samples)[name] == Least(Memory(front)[name], samples[n].now);
      }
      EarliestNext(samples, name, Memory(samples)[name]);
    }
  }

  /** A name is outside its grace exactly when it was in every sample of a final stretch
      that began more than `grace` ago: on any clock, going forward or back. */
  lemma OutsideGraceIff(samples: seq<Sample>, name: string, grace: int)
    requires |samples| > 0
    ensures name in Memory(samples) <==> name in samples[|samples| - 1].names
    ensures (name in Memory(samples) && samples[|samples| - 1].now - Memory(samples)[name] > grace) <==>
            SeenFor(samples, name, grace + 1)
  {
    MemoryIsEarliest(samples, name);
    var now := samples[|samples| - 1].now;
    if name in Memory(samples) {
      var k :| Unbroken(samples, k, name) && samples[k].now == Memory(samples)[name];
      if now - Memory(samples)[name] > grace {
        assert Unbroken(samples, k, name) && now - samples[k].now >= grace + 1;
      }
    }
    if SeenFor(samples, name, grace + 1) {
      var k :| Unbroken(samples, k, name) && now - samples[k].now >= grace + 1;
      assert name in samples[|samples| - 1].names;
    }
  }

  /** One sample without the name starts its grace again: what was seen before it does not count. */
  lemma AbsenceRestarts(samples: seq<Sample>, name: string, gap: nat, grace: int)
    requires gap < |samples| && name !in samples[gap].names
    requires forall i :: gap < i < |samples| ==> samples[|samples| - 1].now - samples[i].now <= grace
    ensures name in Memory(samples) ==> samples[|samples| - 1].now - Memory(samples)[name] <= grace
  {
    OutsideGraceIff(samples, name, grace);
  }

  // ---------------------------------------------------------------- the tracker

  function Elements(names: seq<string>): set<string> {
    set name | name in names
  }

  class Tracker {
    var firstSeen: map<string, int>
    const grace: int

    constructor (grace: int)
      ensures this.grace == grace && firstSeen == Memory([])
    {
      this.grace := grace;
      firstSeen := map[];
    }

    /** Take one sample: the memory moves on, each name is told whether it is within its
        grace, and `oldest` is the greatest age in whole seconds among those that are. */
    method Observe(names: seq<string>, now: int) returns (within: map<string, bool>, oldest: int)
      modifies this
      ensures firstSeen == Remember(old(firstSeen), Sample(Elements(names), now))
      ensures within == Verdicts(old(firstSeen), Sample(Elements(names), now), grace)
      ensures oldest >= 0
      ensures forall name :: name in within && within[name] ==> (now - firstSeen[name]) / SECOND <= oldest
      ensures oldest > 0 ==> exists name :: name in within && within[name] && (now - firstSeen[name]) / SECOND == oldest
    {
      ghost var before := firstSeen;
      var current;
      current, within := Take(names, now);
      Forget(current);
      assert firstSeen == Remember(before, Sample(current, now));
      oldest := Oldest(within, now);
    }

    /** Enter every sampled name, new ones and ones from the future with the present time. */
    method Take(names: seq<string>, now: int) returns (current: set<string>, within: map<string, bool>)
      modifies this
      ensures current == Elements(names) == within.Keys && firstSeen.Keys == old(firstSeen).Keys + current
      ensures forall name :: name in current ==>
                firstSeen[name] == if name in old(firstSeen) && old(firstSeen)[name] <= now then old(firstSeen)[name] else now
      ensures forall name :: name in within ==> within[name] == (now - firstSeen[name] <= grace)
    {
      current, within := {}, map[];
      ghost var before := firstSeen;
      for i := 0 to |names|
        invariant current == Elements(names[..i]) && within.Keys == current
        invariant firstSeen.Keys == before.Keys + current
        invariant forall name :: name in firstSeen ==>
                    firstSeen[name] == if name in current && !(name in before && before[name] <= now) then now else before[name]
        invariant forall name :: name in within ==> within[name] == (now - firstSeen[name] <= grace)
      {
        var name := names[i];
        assert Elements(names[..i + 1]) == current + {name};
        current := current + {name};
        if name !in firstSeen || firstSeen[name] > now {
          firstSeen := firstSeen[name := now];
        }
        within := within[name := now - firstSeen[name] <= grace];
      }
      assert names[..|names|] == names;
    }

    /** Drop the names that were not sampled. */
    method Forget(current: set<string>)
      modifies this
      ensures firstSeen == map name | name in old(firstSeen) && name in current :: old(firstSeen)[name]
    {
      var rest := firstSeen.Keys;
      while rest != {}
        invariant rest <= firstSeen.Keys
        invariant firstSeen.Keys <= old(firstSeen).Keys
        invariant forall name :: name in firstSeen ==> firstSeen[name] == old(firstSeen)[name]
        invariant forall name :: name in old(firstSeen) ==> (name in firstSeen <==> name in rest || name in current)
        decreases rest
      {
        var name :| name in rest;
        if name !in current {
          firstSeen := firstSeen - {name};
        }
        rest := rest - {name};
      }
    }

    method Oldest(within: map<string, bool>, now: int) returns (oldest: int)
      requires within.Keys <= firstSeen.Keys
      ensures oldest >= 0
      ensures forall name :: name in within && within[name] ==> (now - firstSeen[name]) / SECOND <= oldest
      ensures oldest > 0 ==> exists name :: name in within && within[name] && (now - firstSeen[name]) / SECOND == oldest
    {
      oldest := 0;
      var rest := within.Keys;
      while rest != {}
        invariant rest <= within.Keys && oldest >= 0
        invariant forall name :: name in within && name !in rest && within[name] ==> (now - firstSeen[name]) / SECOND <= oldest
        invariant oldest > 0 ==> exists name :: name in within && within[name] && (now - firstSeen[name]) / SECOND == oldest
        decreases rest
      {
        var name :| name in rest;
        if within[name] {
          var age := (now - firstSeen[name]) / SECOND;
          if age > oldest { oldest := age; }
        }
        rest := rest - {name};
      }
    }
  }
}
