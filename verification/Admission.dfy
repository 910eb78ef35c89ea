/** The admission of a worker to a host: integer reserves, and the ledger of what was admitted. */
module Admission {
  import opened Text

  /** `overMemory`, `overCpu` and `overIo` are the comparisons of the pressure averages with
      their limits; `plausible` is the verdict on the ranges of those averages. */
  datatype Snapshot = Snapshot(
    healthy: bool, totalCpu: int, totalMemory: int, availableMemory: int,
    allocatedCpu: int, allocatedAllowance: int, allocatedMemory: int, freeDisk: int,
    pressureAvailable: bool, plausible: bool, recentOoms: int, overMemory: bool, overCpu: bool, overIo: bool)

  datatype Policy = Policy(
    minCpu: int, maxFleetPercent: int, overcommit: int, minMemory: int, minPercent: int, minFreeDisk: int,
    requirePressure: bool, maxOoms: int)

  datatype Request = Request(pool: string, vcpu: int, allowance: int, memory: int)

  datatype Reason =
    | Admitted | HostUnhealthy | DiskPressure | PressureUnavailable | RecentOom | MemoryPressure | CpuPressure | IoPressure
    | InsufficientCpu | CpuAllowance | InsufficientMemory

  datatype Decision = Decision(
    reason: Reason, cpuReserve: int, memoryReserve: int,
    remainingCpu: int, remainingAllowance: int, remainingMemory: int, remainingAvailable: int)

  // ---------------------------------------------------------------- the decision

  predicate Valid(s: Snapshot, p: Policy, r: Request) {
    && s.totalCpu > 0 && s.totalMemory > 0 && 0 < s.availableMemory <= s.totalMemory
    && s.allocatedCpu >= 0 && s.allocatedMemory >= 0 && 0 <= s.freeDisk <= 100 && s.plausible && s.recentOoms >= 0
    && ValidPolicy(p)
    && r.pool != "" && r.vcpu > 0 && r.memory > 0
  }

  predicate ValidPolicy(p: Policy) {
    && p.minCpu >= 0 && p.minMemory >= 0 && 0 <= p.minPercent <= 100
    && 0 <= p.maxFleetPercent <= 98 && 0 <= p.overcommit <= 4 && 0 <= p.minFreeDisk <= 100 && p.maxOoms >= 0
  }

  function Max(a: int, b: int): int { if a > b then a else b }

  function PercentCeiling(total: int, percent: int): int { (total * percent + 99) / 100 }

  function Overcommit(declared: int): int { if declared <= 0 then 1 else declared }

  function CpuReserve(totalCpu: int, p: Policy): int {
    if p.maxFleetPercent > 0 then 0 else Max(p.minCpu, PercentCeiling(totalCpu, p.minPercent))
  }

  function MemoryReserve(totalMemory: int, p: Policy): int {
    Max(p.minMemory, PercentCeiling(totalMemory, p.minPercent))
  }

  function AllowanceLimit(totalCpu: int, p: Policy): int {
    if p.maxFleetPercent > 0 then totalCpu * p.maxFleetPercent / 100 * Overcommit(p.overcommit) else totalCpu
  }

  /** What is counted as allocated and as asked for: an undeclared allowance is the CPUs. */
  function AllocatedShare(s: Snapshot): int { if s.allocatedAllowance == 0 then s.allocatedCpu else s.allocatedAllowance }

  function Share(r: Request): int { if r.allowance == 0 then r.vcpu else r.allowance }

  function Evaluate(s: Snapshot, p: Policy, r: Request): Option<Decision> {
    if !Valid(s, p, r) then None
    else
      var d := Decision(
        Admitted, CpuReserve(s.totalCpu, p), MemoryReserve(s.totalMemory, p),
        s.totalCpu - s.allocatedCpu - r.vcpu, AllowanceLimit(s.totalCpu, p) - AllocatedShare(s) - Share(r),
        s.totalMemory - s.allocatedMemory - r.memory, s.availableMemory - r.memory);
      Some(d.(reason := ReasonFor(s, p, d)))
  }

  /** The ordered switch. */
  function ReasonFor(s: Snapshot, p: Policy, d: Decision): Reason {
    if !s.healthy then HostUnhealthy
    else if s.freeDisk < p.minFreeDisk then DiskPressure
    else if p.requirePressure && !s.pressureAvailable then PressureUnavailable
    else if p.requirePressure && s.recentOoms > p.maxOoms then RecentOom
    else if p.requirePressure && s.overMemory then MemoryPressure
    else if p.requirePressure && s.overCpu then CpuPressure
    else if p.requirePressure && s.overIo then IoPressure
    else if d.remainingCpu < d.cpuReserve then InsufficientCpu
    else if d.remainingAllowance < 0 then CpuAllowance
    else if d.remainingMemory < d.memoryReserve || d.remainingAvailable < d.memoryReserve then InsufficientMemory
    else Admitted
  }

  predicate Admits(s: Snapshot, p: Policy, r: Request) {
    var d := Evaluate(s, p, r);
    d.Some? && d.value.reason == Admitted
  }

  /** Exactly what an admission asks of host, policy and request, each test spelled out. */
  lemma {:induction false} AdmitsIff(s: Snapshot, p: Policy, r: Request)
    requires Valid(s, p, r)
    ensures var memoryReserve, cpuReserve := MemoryReserve(s.totalMemory, p), CpuReserve(s.totalCpu, p);
            Admits(s, p, r) <==>
              && s.healthy && s.freeDisk >= p.minFreeDisk
              && (p.requirePressure ==>
                    s.pressureAvailable && s.recentOoms <= p.maxOoms && !s.overMemory && !s.overCpu && !s.overIo)
              && s.allocatedCpu + r.vcpu + cpuReserve <= s.totalCpu
              && AllocatedShare(s) + Share(r) <= AllowanceLimit(s.totalCpu, p)
              && s.allocatedMemory + r.memory + memoryReserve <= s.totalMemory && r.memory + memoryReserve <= s.availableMemory
  {
  }

  /** The reserves and the limit, spelled out. */
  lemma {:induction false} ReservesAre(s: Snapshot, p: Policy)
    requires ValidPolicy(p) && s.totalCpu > 0 && s.totalMemory > 0
    ensures p.maxFleetPercent > 0 ==> CpuReserve(s.totalCpu, p) == 0
    ensures p.maxFleetPercent == 0 ==> p.minCpu <= CpuReserve(s.totalCpu, p) && s.totalCpu * p.minPercent <= 100 * CpuReserve(s.totalCpu, p)
    ensures p.minMemory <= MemoryReserve(s.totalMemory, p) && s.totalMemory * p.minPercent <= 100 * MemoryReserve(s.totalMemory, p)
    ensures MemoryReserve(s.totalMemory, p) == p.minMemory || 100 * (MemoryReserve(s.totalMemory, p) - 1) < s.totalMemory * p.minPercent
    ensures p.maxFleetPercent == 0 ==> AllowanceLimit(s.totalCpu, p) == s.totalCpu
    ensures p.maxFleetPercent > 0 ==>
              exists share :: 100 * share <= s.totalCpu * p.maxFleetPercent < 100 * (share + 1) &&
                              AllowanceLimit(s.totalCpu, p) == share * (if p.overcommit == 0 then 1 else p.overcommit)
  {
    CeilingIs(s.totalCpu, p.minPercent);
    CeilingIs(s.totalMemory, p.minPercent);
    var share := s.totalCpu * p.maxFleetPercent / 100;
    assert 100 * share <= s.totalCpu * p.maxFleetPercent < 100 * (share + 1);
  }

  /** The reason names the first test that fails, in this order; every test before it passed. */
  lemma {:induction false} ReasonMeans(s: Snapshot, p: Policy, r: Request)
    requires Valid(s, p, r)
    ensures var d := Evaluate(s, p, r).value;
            && d.cpuReserve == CpuReserve(s.totalCpu, p) && d.memoryReserve == MemoryReserve(s.totalMemory, p)
            && s.totalCpu == s.allocatedCpu + r.vcpu + d.remainingCpu && s.totalMemory == s.allocatedMemory + r.memory + d.remainingMemory
            && s.availableMemory == r.memory + d.remainingAvailable
            && AllowanceLimit(s.totalCpu, p) == AllocatedShare(s) + Share(r) + d.remainingAllowance
    ensures var reason := Evaluate(s, p, r).value.reason;
            && (reason == HostUnhealthy <==> !s.healthy)
            && (reason == DiskPressure <==> s.healthy && s.freeDisk < p.minFreeDisk)
            && (reason == PressureUnavailable <==> Passes(s, p, 2) && p.requirePressure && !s.pressureAvailable)
            && (reason == RecentOom <==> Passes(s, p, 3) && p.requirePressure && s.recentOoms > p.maxOoms)
            && (reason == MemoryPressure <==> Passes(s, p, 4) && p.requirePressure && s.overMemory)
            && (reason == CpuPressure <==> Passes(s, p, 5) && p.requirePressure && s.overCpu)
            && (reason == IoPressure <==> Passes(s, p, 6) && p.requirePressure && s.overIo)
            && (reason == InsufficientCpu <==> Passes(s, p, 7) && s.totalCpu - s.allocatedCpu - r.vcpu < CpuReserve(s.totalCpu, p))
            && (reason in {CpuAllowance, InsufficientMemory, Admitted} <==>
                  Passes(s, p, 7) && s.totalCpu - s.allocatedCpu - r.vcpu >= CpuReserve(s.totalCpu, p))
            && (reason == CpuAllowance ==> AllocatedShare(s) + Share(r) > AllowanceLimit(s.totalCpu, p))
            && (reason == InsufficientMemory ==>
                  AllocatedShare(s) + Share(r) <= AllowanceLimit(s.totalCpu, p)
                  && (s.totalMemory - s.allocatedMemory - r.memory < MemoryReserve(s.totalMemory, p)
                      || s.availableMemory - r.memory < MemoryReserve(s.totalMemory, p)))
  {
  }

  /** The first `n` of the tests that do not look at the request pass. */
  predicate Passes(s: Snapshot, p: Policy, n: nat) {
    && (n > 0 ==> s.healthy)
    && (n > 1 ==> s.freeDisk >= p.minFreeDisk)
    && (n > 2 && p.requirePressure ==> s.pressureAvailable)
    && (n > 3 && p.requirePressure ==> s.recentOoms <= p.maxOoms)
    && (n > 4 && p.requirePressure ==> !s.overMemory)
    && (n > 5 && p.requirePressure ==> !s.overCpu)
    && (n > 6 && p.requirePressure ==> !s.overIo)
  }

  // ---------------------------------------------------------------- the reserve

  /** The reserve is the least whole number not below the percentage. */
  lemma {:induction false} CeilingIs(total: int, percent: int)
    ensures 100 * (PercentCeiling(total, percent) - 1) < total * percent <= 100 * PercentCeiling(total, percent)
  {
  }

  /** It never falls when the total grows, and never grows faster than the total. */
  lemma CeilingGrowsSlowly(total: int, more: nat, percent: int)
    requires 0 <= percent <= 100
    ensures PercentCeiling(total, percent) <= PercentCeiling(total + more, percent) <= PercentCeiling(total, percent) + more
  {
    assert (total + more) * percent == total * percent + more * percent;
    assert 0 <= more * percent <= 100 * more;
  }

  lemma LimitGrows(total: int, more: nat, p: Policy)
    requires ValidPolicy(p) && total > 0
    ensures AllowanceLimit(total, p) <= AllowanceLimit(total + more, p)
  {
    if p.maxFleetPercent > 0 {
      assert (total + more) * p.maxFleetPercent == total * p.maxFleetPercent + more * p.maxFleetPercent;
      var a, b := total * p.maxFleetPercent / 100, (total + more) * p.maxFleetPercent / 100;
      assert a <= b;
      assert a * Overcommit(p.overcommit) <= b * Overcommit(p.overcommit);
    }
  }

  // ---------------------------------------------------------------- monotonicity

  /** More CPUs never turn a yes into a no, although the reserve grows with them. */
  lemma {:induction false} MoreCpuKeepsAdmission(s: Snapshot, p: Policy, r: Request, more: nat)
    requires Admits(s, p, r)
    ensures Admits(s.(totalCpu := s.totalCpu + more), p, r)
  {
    CeilingGrowsSlowly(s.totalCpu, more, p.minPercent);
    LimitGrows(s.totalCpu, more, p);
  }

  /** Nor does memory that is both installed and available. */
  lemma {:induction false} MoreMemoryKeepsAdmission(s: Snapshot, p: Policy, r: Request, more: nat)
    requires Admits(s, p, r)
    ensures Admits(s.(totalMemory := s.totalMemory + more, availableMemory := s.availableMemory + more), p, r)
  {
    CeilingGrowsSlowly(s.totalMemory, more, p.minPercent);
  }

  /** Memory that is installed but not available can: exactly when the larger reserve no
      longer fits in what is available. */
  lemma {:induction false} TotalMemoryAloneIff(s: Snapshot, p: Policy, r: Request, more: nat)
    requires Admits(s, p, r)
    ensures Admits(s.(totalMemory := s.totalMemory + more), p, r) <==>
            MemoryReserve(s.totalMemory + more, p) <= s.availableMemory - r.memory
  {
    CeilingGrowsSlowly(s.totalMemory, more, p.minPercent);
  }

  lemma TotalMemoryAloneCanRefuse()
    ensures exists s: Snapshot, p: Policy, r: Request :: Admits(s, p, r) && !Admits(s.(totalMemory := s.totalMemory + 1000), p, r)
  {
    var s := Snapshot(true, 8, 1000, 300, 0, 0, 0, 50, true, true, 0, false, false, false);
    var p := Policy(0, 0, 0, 0, 20, 10, false, 0);
    var r := Request("p", 1, 0, 100);
    assert MemoryReserve(1000, p) == 200 && MemoryReserve(2000, p) == 400;
    assert CpuReserve(8, p) == 2;
    assert Admits(s, p, r);
    assert !Admits(s.(totalMemory := s.totalMemory + 1000), p, r);
  }

  /** A smaller demand on a host with no more allocated is admitted too. */
  lemma {:induction false} LessIsAdmitted(s: Snapshot, p: Policy, r: Request, t: Snapshot, q: Request)
    requires Admits(s, p, r)
    requires t == s.(allocatedCpu := t.allocatedCpu, allocatedAllowance := t.allocatedAllowance, allocatedMemory := t.allocatedMemory)
    requires 0 <= t.allocatedCpu <= s.allocatedCpu && 0 <= t.allocatedMemory <= s.allocatedMemory
    requires AllocatedShare(t) <= AllocatedShare(s)
    requires q.pool != "" && 0 < q.vcpu <= r.vcpu && 0 < q.memory <= r.memory && Share(q) <= Share(r)
    ensures Admits(t, p, q)
  {
  }

  // ---------------------------------------------------------------- the ledger

  /** What the admitted workers hold together. */
  function Cpu(held: seq<Request>): int {
    if held == [] then 0 else Cpu(held[..|held| - 1]) + held[|held| - 1].vcpu
  }

  function Memory(held: seq<Request>): int {
    if held == [] then 0 else Memory(held[..|held| - 1]) + held[|held| - 1].memory
  }

  /** What a lease is booked with: its allowance if that is positive, else its CPUs. */
  function Booked(r: Request): int { if r.allowance > 0 then r.allowance else r.vcpu }

  function Shares(held: seq<Request>): int {
    if held == [] then 0 else Shares(held[..|held| - 1]) + Booked(held[|held| - 1])
  }

  /** A host of fixed size and policy. */
  datatype Host = Host(totalCpu: int, totalMemory: int, policy: Policy)

  /** An attempt to admit, under whatever the host reports of itself, or a release. */
  datatype Move = Admit(request: Request, report: Snapshot) | Release(index: nat)

  /** What admission sees: the host's totals, the ledger's sums, and the rest as reported. */
  function Seen(h: Host, held: seq<Request>, report: Snapshot): Snapshot {
    report.(totalCpu := h.totalCpu, totalMemory := h.totalMemory,
            allocatedCpu := Cpu(held), allocatedMemory := Memory(held), allocatedAllowance := Shares(held))
  }

  function Apply(h: Host, held: seq<Request>, move: Move): seq<Request> {
    match move
    case Admit(request, report) => if Admits(Seen(h, held, report), h.policy, request) then held + [request] else held
    case Release(index) => if index < |held| then held[..index] + held[index + 1..] else held
  }

  function After(h: Host, moves: seq<Move>): seq<Request> {
    if moves == [] then [] else Apply(h, After(h, moves[..|moves| - 1]), moves[|moves| - 1])
  }

  /** The reserves are intact and the shares within their limit, while anything is held. */
  ghost predicate Fits(h: Host, held: seq<Request>) {
    held != [] ==>
      && Cpu(held) + CpuReserve(h.totalCpu, h.policy) <= h.totalCpu
      && Memory(held) + MemoryReserve(h.totalMemory, h.policy) <= h.totalMemory
      && Shares(held) <= AllowanceLimit(h.totalCpu, h.policy)
  }

  /** Every held demand is positive. */
  ghost predicate Positive(held: seq<Request>) {
    forall i :: 0 <= i < |held| ==> held[i].vcpu > 0 && held[i].memory > 0
  }

  lemma {:induction false} SumsArePositive(held: seq<Request>)
    requires Positive(held)
    ensures Cpu(held) >= |held| && Memory(held) >= |held| && Shares(held) >= |held|
  {
    if held != [] {
      SumsArePositive(held[..|held| - 1]);
    }
  }

  /** A release takes exactly the released demand out of every sum. */
  lemma {:induction false} ReleaseSubtracts(held: seq<Request>, k: nat)
    requires k < |held|
    ensures var rest := held[..k] + held[k + 1..];
            && Cpu(rest) == Cpu(held) - held[k].vcpu
            && Memory(rest) == Memory(held) - held[k].memory
            && Shares(rest) == Shares(held) - Booked(held[k])
  {
    var n := |held| - 1;
    var rest := held[..k] + held[k + 1..];
    if k == n {
      assert rest == held[..n];
    } else {
      var front := held[..n];
      ReleaseSubtracts(front, k);
      assert rest[..|rest| - 1] == front[..k] + front[k + 1..] && rest[|rest| - 1] == held[n];
    }
  }

  /** What an admission leaves room for. */
  lemma AdmittedFits(s: Snapshot, p: Policy, r: Request)
    requires Admits(s, p, r)
    ensures r.vcpu > 0 && r.memory > 0
    ensures s.allocatedCpu + r.vcpu + CpuReserve(s.totalCpu, p) <= s.totalCpu
    ensures s.allocatedMemory + r.memory + MemoryReserve(s.totalMemory, p) <= s.totalMemory
    ensures AllocatedShare(s) + Share(r) <= AllowanceLimit(s.totalCpu, p)
  {
  }

  lemma SumsOfMore(held: seq<Request>, r: Request)
    ensures Cpu(held + [r]) == Cpu(held) + r.vcpu
    ensures Memory(held + [r]) == Memory(held) + r.memory
    ensures Shares(held + [r]) == Shares(held) + Booked(r)
  {
    assert (held + [r])[..|held|] == held;
  }

  /** An admission keeps the ledger within the host exactly when its allowance is not
      negative, or its CPUs, with which it is then booked, happen to fit. */
  lemma {:induction false} AdmitKeepsFitIff(h: Host, held: seq<Request>, request: Request, report: Snapshot)
    requires Positive(held) && Admits(Seen(h, held, report), h.policy, request)
    ensures Positive(held + [request])
    ensures Fits(h, held + [request]) <==>
            request.allowance >= 0 || Shares(held) + request.vcpu <= AllowanceLimit(h.totalCpu, h.policy)
  {
    SumsArePositive(held);
    AdmittedFits(Seen(h, held, report), h.policy, request);
    SumsOfMore(held, request);
  }

  lemma ReleaseKeepsFit(h: Host, held: seq<Request>, index: nat)
    requires Positive(held) && Fits(h, held) && index < |held|
    ensures Fits(h, held[..index] + held[index + 1..]) && Positive(held[..index] + held[index + 1..])
  {
    ReleaseSubtracts(held, index);
  }

  lemma MoveKeepsFit(h: Host, held: seq<Request>, move: Move)
    requires Fits(h, held) && Positive(held)
    requires move.Admit? ==> move.request.allowance >= 0
    ensures Fits(h, Apply(h, held, move)) && Positive(Apply(h, held, move))
  {
    match move
    case Admit(request, report) =>
      if Admits(Seen(h, held, report), h.policy, request) {
        AdmitKeepsFitIff(h, held, request, report);
      }
    case Release(index) =>
      if index < |held| {
        ReleaseKeepsFit(h, held, index);
      }
  }

  /** Over every run of admissions and releases, whatever the host reports of itself, the
      ledger stays within the host: provided no request declares a negative allowance. */
  lemma {:induction false} LedgerFits(h: Host, moves: seq<Move>)
    requires forall i :: 0 <= i < |moves| && moves[i].Admit? ==> moves[i].request.allowance >= 0
    ensures Fits(h, After(h, moves)) && Positive(After(h, moves))
  {
    if moves != [] {
      LedgerFits(h, moves[..|moves| - 1]);
      MoveKeepsFit(h, After(h, moves[..|moves| - 1]), moves[|moves| - 1]);
    }
  }

  /** A release undoes its admission, whatever was admitted in between: the ledger is the
      one without that request, and every sum is smaller by exactly its demand. */
  lemma {:induction false} AdmitThenRelease(h: Host, held: seq<Request>, request: Request, report: Snapshot, between: seq<Request>)
    requires Admits(Seen(h, held, report), h.policy, request)
    ensures var later := Apply(h, held, Admit(request, report)) + between;
            var after := Apply(h, later, Release(|held|));
            && after == held + between
            && Cpu(after) == Cpu(later) - request.vcpu && Memory(after) == Memory(later) - request.memory
            && Shares(after) == Shares(later) - Booked(request)
  {
    var later := held + [request] + between;
    ReleaseSubtracts(later, |held|);
    assert later[..|held|] == held && later[|held| + 1..] == between && later[|held|] == request;
  }

  /** A negative allowance, which nothing rejects, is admitted for less than it is booked with. */
  lemma NegativeAllowanceOverruns() returns (h: Host, report: Snapshot, request: Request)
    ensures Admits(Seen(h, [], report), h.policy, request) && !Fits(h, [] + [request])
  {
    h := Host(10, 1000, Policy(0, 50, 1, 0, 0, 0, false, 0));
    report := Snapshot(true, 10, 1000, 1000, 0, 0, 0, 50, true, true, 0, false, false, false);
    request := Request("p", 6, -5, 1);
    OverrunIsAdmitted(report, h.policy, request);
    assert Seen(h, [], report) == report;
    AdmitKeepsFitIff(h, [], request, report);
  }

  lemma OverrunIsAdmitted(s: Snapshot, p: Policy, r: Request)
    requires p == Policy(0, 50, 1, 0, 0, 0, false, 0) && r == Request("p", 6, -5, 1)
    requires s == Snapshot(true, 10, 1000, 1000, 0, 0, 0, 50, true, true, 0, false, false, false)
    ensures Admits(s, p, r) && AllowanceLimit(10, p) == 5
  {
    assert CpuReserve(10, p) == 0;
    assert MemoryReserve(1000, p) == 0;
  }
}
