/** The worker lifecycle: a transition table with a job key that is bound once. */
module Lifecycle {
  import opened Text

  datatype State =
    | Provisioning | AvailableWarm | Admitted | Registering | Online | Assigned | Running
    | Collecting | Destroying | Destroyed | Quarantined

  datatype Event =
    | WarmReady | Admit | BeginRegistration | RunnerOnline | Assign | JobStarted | JobSucceeded | JobFailed
    | JobCancelled | ProvisionFailed | RegistrationFailed | AssignmentTimedOut | Drain
    | DiagnosticsCollected | DiagnosticsFailed | DestroyDone | DestroyFailed | RetryDestroy

  datatype Outcome = NoOutcome | Succeeded | Failed | Cancelled | InfrastructureFailure

  datatype Worker = Worker(id: string, imageDigest: string, state: State, jobKey: string, hasRun: bool, outcome: Outcome)

  // ---------------------------------------------------------------- one transition

  /** The transition table. */
  function Next(state: State, event: Event): Option<State> {
    match (state, event)
    case (Provisioning, WarmReady) => Some(AvailableWarm)
    case (Provisioning, ProvisionFailed) => Some(Destroying)
    case (AvailableWarm, Admit) => Some(Admitted)
    case (AvailableWarm, Drain) => Some(Destroying)
    case (Admitted, BeginRegistration) => Some(Registering)
    case (Admitted, JobCancelled) => Some(Collecting)
    case (Registering, RunnerOnline) => Some(Online)
    case (Registering, RegistrationFailed) => Some(Collecting)
    case (Registering, JobCancelled) => Some(Collecting)
    case (Online, Assign) => Some(Assigned)
    case (Online, AssignmentTimedOut) => Some(Collecting)
    case (Online, JobCancelled) => Some(Collecting)
    case (Assigned, JobStarted) => Some(Running)
    case (Assigned, JobCancelled) => Some(Collecting)
    case (Running, JobSucceeded) => Some(Collecting)
    case (Running, JobFailed) => Some(Collecting)
    case (Running, JobCancelled) => Some(Collecting)
    case (Collecting, DiagnosticsCollected) => Some(Destroying)
    case (Collecting, DiagnosticsFailed) => Some(Destroying)
    case (Destroying, DestroyDone) => Some(Destroyed)
    case (Destroying, DestroyFailed) => Some(Quarantined)
    case (Quarantined, RetryDestroy) => Some(Destroying)
    case _ => None
  }

  predicate NeedsJob(event: Event) {
    event.Admit? || event.BeginRegistration? || event.RunnerOnline? || event.Assign? || event.JobStarted? ||
    event.JobSucceeded? || event.JobFailed? || event.JobCancelled? || event.RegistrationFailed? || event.AssignmentTimedOut?
  }

  predicate ValidDigest(s: string) {
    |s| == 71 && s[..7] == "sha256:" && forall i :: 7 <= i < 71 ==> '0' <= s[i] <= '9' || 'a' <= s[i] <= 'f'
  }

  function NewWorker(id: string, imageDigest: string): Option<Worker> {
    if id == "" || !ValidDigest(imageDigest) then None
    else Some(Worker(id, imageDigest, Provisioning, "", false, NoOutcome))
  }

  /** An empty key is no key. */
  function Transition(w: Worker, event: Event, jobKey: string): Option<Worker> {
    var next := Next(w.state, event);
    if next.None? then None
    else if event == Admit then
      if jobKey == "" || w.jobKey != "" || w.hasRun then None
      else Finish(w.(jobKey := jobKey), event, next.value)
    else if w.jobKey != "" then
      if jobKey == "" || w.jobKey != jobKey then None else Finish(w, event, next.value)
    else if NeedsJob(event) || jobKey != "" then None
    else Finish(w, event, next.value)
  }

  /** What the event writes, and the guard of the warm pool. */
  function Finish(w: Worker, event: Event, next: State): Option<Worker> {
    var moved := w.(
      state := next,
      hasRun := w.hasRun || event == JobStarted,
      outcome := match event
                 case JobSucceeded => Succeeded
                 case JobFailed => Failed
                 case JobCancelled => Cancelled
                 case RegistrationFailed | AssignmentTimedOut => InfrastructureFailure
                 case _ => w.outcome);
    if WarmGuard(moved) then None else Some(moved)
  }

  predicate WarmGuard(w: Worker) {
    w.state == AvailableWarm && (w.hasRun || w.jobKey != "")
  }

  // ---------------------------------------------------------------- runs

  datatype Step = Step(event: Event, jobKey: string)

  /** The worker after a trace of events; None once one of them was refused. */
  function Run(w: Worker, trace: seq<Step>): Option<Worker>
    decreases |trace|
  {
    if trace == [] then Some(w)
    else
      var before := Run(w, trace[..|trace| - 1]);
      if before.None? then None else Transition(before.value, trace[|trace| - 1].event, trace[|trace| - 1].jobKey)
  }

  function Count(trace: seq<Step>, events: set<Event>): nat
    decreases |trace|
  {
    if trace == [] then 0
    else Count(trace[..|trace| - 1], events) + if trace[|trace| - 1].event in events then 1 else 0
  }

  const OUTCOMES := {JobSucceeded, JobFailed, JobCancelled, RegistrationFailed, AssignmentTimedOut}

  /** Where an event leads, and from where it is accepted. */
  function Destination(e: Event): State {
    match e
    case WarmReady => AvailableWarm
    case Admit => Admitted
    case BeginRegistration => Registering
    case RunnerOnline => Online
    case Assign => Assigned
    case JobStarted => Running
    case JobSucceeded => Collecting
    case JobFailed => Collecting
    case JobCancelled => Collecting
    case RegistrationFailed => Collecting
    case AssignmentTimedOut => Collecting
    case ProvisionFailed => Destroying
    case Drain => Destroying
    case DiagnosticsCollected => Destroying
    case DiagnosticsFailed => Destroying
    case RetryDestroy => Destroying
    case DestroyDone => Destroyed
    case DestroyFailed => Quarantined
  }

  predicate AcceptedFrom(e: Event, s: State) {
    match e
    case WarmReady => s.Provisioning?
    case ProvisionFailed => s.Provisioning?
    case Admit => s.AvailableWarm?
    case Drain => s.AvailableWarm?
    case BeginRegistration => s.Admitted?
    case RunnerOnline => s.Registering?
    case RegistrationFailed => s.Registering?
    case Assign => s.Online?
    case AssignmentTimedOut => s.Online?
    case JobStarted => s.Assigned?
    case JobSucceeded => s.Running?
    case JobFailed => s.Running?
    case JobCancelled => s.Admitted? || s.Registering? || s.Online? || s.Assigned? || s.Running?
    case DiagnosticsCollected => s.Collecting?
    case DiagnosticsFailed => s.Collecting?
    case DestroyDone => s.Destroying?
    case DestroyFailed => s.Destroying?
    case RetryDestroy => s.Quarantined?
  }

  /** Where an event leads depends on the event alone, and each has its states; a job can be
      cancelled from its admission to the end of its run. */
  lemma {:induction false} TableByEvent(s: State, e: Event)
    ensures Next(s, e) == if AcceptedFrom(e, s) then Some(Destination(e)) else None
  {
  }

  /** What the state says about the rest of the worker. */
  predicate Sound(w: Worker) {
    && (w.outcome in {Succeeded, Failed} ==> w.hasRun)
    && (w.outcome == InfrastructureFailure ==> !w.hasRun)
    && (w.hasRun ==> w.jobKey != "")
    && match w.state
       case Provisioning | AvailableWarm => w.jobKey == "" && w.outcome == NoOutcome
       case Admitted | Registering | Online | Assigned => w.jobKey != "" && !w.hasRun && w.outcome == NoOutcome
       case Running => w.hasRun && w.outcome == NoOutcome
       case Collecting => w.jobKey != "" && w.outcome != NoOutcome
       case Destroying | Quarantined | Destroyed => w.jobKey == "" <==> w.outcome == NoOutcome
  }

  lemma TransitionIsSound(w: Worker, event: Event, jobKey: string)
    requires Sound(w) && Transition(w, event, jobKey).Some?
    ensures Sound(Transition(w, event, jobKey).value)
  {
  }

  /** For a sound worker the table and the key decide alone: neither the second binding, nor
      the event without a job, nor the return to the warm pool is ever the reason to refuse. */
  lemma {:induction false} AcceptedIff(w: Worker, event: Event, jobKey: string)
    requires Sound(w)
    ensures Transition(w, event, jobKey).Some? <==>
            Next(w.state, event).Some? && (if event == Admit then jobKey != "" else jobKey == w.jobKey)
  {
  }

  lemma {:induction false} WarmGuardNeverFires(w: Worker, event: Event, jobKey: string)
    requires Sound(w) && Next(w.state, event).Some?
    ensures !WarmGuard(w.(state := Next(w.state, event).value, hasRun := w.hasRun || event == JobStarted,
                          jobKey := if event == Admit then jobKey else w.jobKey))
  {
  }

  /** Events left on the longest way to the end; a quarantined worker also owes its retry. */
  function Rank(s: State): nat {
    match s
    case Provisioning => 9
    case AvailableWarm => 8
    case Admitted => 7
    case Registering => 6
    case Online => 5
    case Assigned => 4
    case Running => 3
    case Collecting => 2
    case Destroying => 1
    case Destroyed => 0
    case Quarantined => 2
  }

  /** What a trace that was accepted in full, from a new worker, says about the worker: who
      it is, how often it was admitted, started and judged, and how long it can have been. */
  ghost predicate Accounted(w: Worker, trace: seq<Step>, now: Worker) {
    && Sound(now) && now.id == w.id && now.imageDigest == w.imageDigest
    && Count(trace, {Admit}) == (if now.jobKey == "" then 0 else 1)
    && Count(trace, {JobStarted}) == (if now.hasRun then 1 else 0)
    && Count(trace, OUTCOMES) == (if now.outcome == NoOutcome then 0 else 1)
    && |trace| + Rank(now.state) <= 9 + 2 * Count(trace, {DestroyFailed})
  }

  predicate IsNew(w: Worker) {
    w.state == Provisioning && w.jobKey == "" && !w.hasRun && w.outcome == NoOutcome
  }

  /** The outcome an event stands for. */
  function Judges(e: Event): Outcome {
    match e
    case JobSucceeded => Succeeded
    case JobFailed => Failed
    case JobCancelled => Cancelled
    case RegistrationFailed => InfrastructureFailure
    case AssignmentTimedOut => InfrastructureFailure
    case _ => NoOutcome
  }

  /** The outcome is that of the one event that stands for one, and none without. */
  ghost predicate OutcomeExplained(trace: seq<Step>, now: Worker) {
    && (forall e :: Judges(e) != NoOutcome && Count(trace, {e}) > 0 ==> now.outcome == Judges(e))
    && (now.outcome != NoOutcome ==> exists e :: Judges(e) == now.outcome && Count(trace, {e}) > 0)
  }

  /** Before the worker is collected or destroyed, its stage is the number of steps forward,
      and there was no other step. */
  ghost predicate StageExplained(trace: seq<Step>, now: Worker) {
    Forward(now.state) ==>
      Stage(now.state) == |trace| == Count(trace, {WarmReady}) + Count(trace, {Admit}) + Count(trace, {BeginRegistration})
                                     + Count(trace, {RunnerOnline}) + Count(trace, {Assign}) + Count(trace, {JobStarted})
  }

  predicate Ending(s: State) { s.Destroying? || s.Quarantined? || s.Destroyed? }

  /** An admitted worker is destroyed only after its diagnostics. */
  ghost predicate DiagnosticsExplained(trace: seq<Step>, now: Worker) {
    Count(trace, {DiagnosticsCollected}) + Count(trace, {DiagnosticsFailed}) == if now.jobKey != "" && Ending(now.state) then 1 else 0
  }

  /** Any other is when it could not be provisioned, or was drained. */
  ghost predicate DrainExplained(trace: seq<Step>, now: Worker) {
    Count(trace, {ProvisionFailed}) + Count(trace, {Drain}) == if now.jobKey == "" && Ending(now.state) then 1 else 0
  }

  /** A worker is quarantined by a failed destruction that was not retried. */
  ghost predicate DestructionExplained(trace: seq<Step>, now: Worker) {
    && Count(trace, {DestroyFailed}) == Count(trace, {RetryDestroy}) + (if now.state.Quarantined? then 1 else 0)
    && Count(trace, {DestroyDone}) == (if now.state.Destroyed? then 1 else 0)
  }

  ghost predicate Explained(trace: seq<Step>, now: Worker) {
    OutcomeExplained(trace, now) && StageExplained(trace, now) && DiagnosticsExplained(trace, now)
    && DrainExplained(trace, now) && DestructionExplained(trace, now)
  }

  predicate Forward(s: State) {
    !s.Collecting? && !s.Destroying? && !s.Destroyed? && !s.Quarantined?
  }

  function Stage(s: State): nat {
    match s
    case Provisioning => 0
    case AvailableWarm => 1
    case Admitted => 2
    case Registering => 3
    case Online => 4
    case Assigned => 5
    case _ => 6
  }

  lemma CountNext(trace: seq<Step>, step: Step, e: Event)
    ensures Count(trace + [step], {e}) == Count(trace, {e}) + if step.event == e then 1 else 0
  {
    assert (trace + [step])[..|trace|] == trace;
  }

  lemma ForwardNext(trace: seq<Step>, step: Step)
    ensures Count(trace + [step], {WarmReady}) == Count(trace, {WarmReady}) + if step.event.WarmReady? then 1 else 0
    ensures Count(trace + [step], {Admit}) == Count(trace, {Admit}) + if step.event.Admit? then 1 else 0
    ensures Count(trace + [step], {BeginRegistration}) == Count(trace, {BeginRegistration}) + if step.event.BeginRegistration? then 1 else 0
    ensures Count(trace + [step], {RunnerOnline}) == Count(trace, {RunnerOnline}) + if step.event.RunnerOnline? then 1 else 0
    ensures Count(trace + [step], {Assign}) == Count(trace, {Assign}) + if step.event.Assign? then 1 else 0
    ensures Count(trace + [step], {JobStarted}) == Count(trace, {JobStarted}) + if step.event.JobStarted? then 1 else 0
  {
    CountNext(trace, step, WarmReady);
    CountNext(trace, step, Admit);
    CountNext(trace, step, BeginRegistration);
    CountNext(trace, step, RunnerOnline);
    CountNext(trace, step, Assign);
    CountNext(trace, step, JobStarted);
  }

  /** An event that stands for an outcome is accepted only before there is one, and writes it. */
  lemma OutcomeWritten(w: Worker, event: Event, jobKey: string)
    requires Sound(w) && Transition(w, event, jobKey).Some?
    ensures var next := Transition(w, event, jobKey).value;
            if Judges(event) != NoOutcome then w.outcome == NoOutcome && next.outcome == Judges(event) else next.outcome == w.outcome
  {
  }

  lemma OutcomeExplainedNext(trace: seq<Step>, before: Worker, step: Step)
    requires Sound(before) && OutcomeExplained(trace, before) && Transition(before, step.event, step.jobKey).Some?
    ensures OutcomeExplained(trace + [step], Transition(before, step.event, step.jobKey).value)
  {
    var now := Transition(before, step.event, step.jobKey).value;
    var longer := trace + [step];
    OutcomeWritten(before, step.event, step.jobKey);
    forall e | Judges(e) != NoOutcome && Count(longer, {e}) > 0 ensures now.outcome == Judges(e) {
      CountNext(trace, step, e);
    }
    if now.outcome != NoOutcome {
      var e :| Judges(e) == now.outcome && (e == step.event || Count(trace, {e}) > 0);
      CountNext(trace, step, e);
    }
  }

  lemma StageExplainedNext(trace: seq<Step>, before: Worker, step: Step)
    requires Sound(before) && StageExplained(trace, before) && Transition(before, step.event, step.jobKey).Some?
    ensures StageExplained(trace + [step], Transition(before, step.event, step.jobKey).value)
  {
    ForwardNext(trace, step);
  }

  lemma DiagnosticsExplainedNext(trace: seq<Step>, before: Worker, step: Step)
    requires Sound(before) && DiagnosticsExplained(trace, before) && Transition(before, step.event, step.jobKey).Some?
    ensures DiagnosticsExplained(trace + [step], Transition(before, step.event, step.jobKey).value)
  {
    CountNext(trace, step, DiagnosticsCollected);
    CountNext(trace, step, DiagnosticsFailed);
  }

  lemma DrainExplainedNext(trace: seq<Step>, before: Worker, step: Step)
    requires Sound(before) && DrainExplained(trace, before) && Transition(before, step.event, step.jobKey).Some?
    ensures DrainExplained(trace + [step], Transition(before, step.event, step.jobKey).value)
  {
    CountNext(trace, step, ProvisionFailed);
    CountNext(trace, step, Drain);
  }

  lemma DestructionExplainedNext(trace: seq<Step>, before: Worker, step: Step)
    requires Sound(before) && DestructionExplained(trace, before) && Transition(before, step.event, step.jobKey).Some?
    ensures DestructionExplained(trace + [step], Transition(before, step.event, step.jobKey).value)
  {
    CountNext(trace, step, DestroyFailed);
    CountNext(trace, step, RetryDestroy);
    CountNext(trace, step, DestroyDone);
  }

  lemma ExplainedNext(trace: seq<Step>, before: Worker, step: Step)
    requires Sound(before) && Explained(trace, before) && Transition(before, step.event, step.jobKey).Some?
    ensures Explained(trace + [step], Transition(before, step.event, step.jobKey).value)
  {
    OutcomeExplainedNext(trace, before, step);
    StageExplainedNext(trace, before, step);
    DiagnosticsExplainedNext(trace, before, step);
    DrainExplainedNext(trace, before, step);
    DestructionExplainedNext(trace, before, step);
  }

  /** The whole life of a worker can be read off the events it accepted. */
  lemma {:induction false} LifeIsExplained(w: Worker, trace: seq<Step>)
    requires IsNew(w) && Run(w, trace).Some?
    ensures Explained(trace, Run(w, trace).value)
    decreases |trace|
  {
    if trace != [] {
      var front, last := trace[..|trace| - 1], trace[|trace| - 1];
      LifeIsExplained(w, front);
      RunIsAccounted(w, front);
      ExplainedNext(front, Run(w, front).value, last);
      assert front + [last] == trace;
    }
  }

  lemma AccountedNext(w: Worker, trace: seq<Step>, before: Worker, step: Step)
    requires Accounted(w, trace, before) && Transition(before, step.event, step.jobKey).Some?
    ensures Accounted(w, trace + [step], Transition(before, step.event, step.jobKey).value)
  {
    var longer := trace + [step];
    assert longer[..|longer| - 1] == trace;
    TransitionIsSound(before, step.event, step.jobKey);
  }

  lemma {:induction false} RunIsAccounted(w: Worker, trace: seq<Step>)
    requires IsNew(w) && Run(w, trace).Some?
    ensures Accounted(w, trace, Run(w, trace).value)
    decreases |trace|
  {
    if trace != [] {
      var front, last := trace[..|trace| - 1], trace[|trace| - 1];
      RunIsAccounted(w, front);
      AccountedNext(w, front, Run(w, front).value, last);
      assert front + [last] == trace;
    }
  }

  /** Every prefix of an accepted trace was accepted. */
  lemma {:induction false} PrefixAccepted(w: Worker, trace: seq<Step>, k: nat)
    requires Run(w, trace).Some? && k <= |trace|
    ensures Run(w, trace[..k]).Some?
    decreases |trace|
  {
    if k < |trace| {
      PrefixAccepted(w, trace[..|trace| - 1], k);
      assert trace[..|trace| - 1][..k] == trace[..k];
    } else {
      assert trace[..k] == trace;
    }
  }

  /** What is written stays: the job key, the mark of having run and the outcome. */
  lemma {:induction false} WrittenOnce(w: Worker, trace: seq<Step>, k: nat)
    requires IsNew(w) && Run(w, trace).Some? && k <= |trace|
    ensures Run(w, trace[..k]).Some?
    ensures var earlier, now := Run(w, trace[..k]).value, Run(w, trace).value;
            && (earlier.jobKey != "" ==> now.jobKey == earlier.jobKey)
            && (earlier.hasRun ==> now.hasRun)
            && (earlier.outcome != NoOutcome ==> now.outcome == earlier.outcome)
    decreases |trace|
  {
    PrefixAccepted(w, trace, k);
    if k < |trace| {
      var front := trace[..|trace| - 1];
      WrittenOnce(w, front, k);
      assert front[..k] == trace[..k];
      RunIsAccounted(w, front);
    } else {
      assert trace[..k] == trace;
    }
  }

  /** Every event after the admission carries the admitted key. */
  lemma {:induction false} EveryEventCarriesTheKey(w: Worker, trace: seq<Step>, k: nat)
    requires IsNew(w) && Run(w, trace).Some? && k < |trace|
    ensures Run(w, trace[..k]).Some?
    ensures trace[k].jobKey ==
            if trace[k].event == Admit || Run(w, trace[..k]).value.jobKey != "" then Run(w, trace).value.jobKey else ""
  {
    var upto := trace[..k + 1];
    WrittenOnce(w, trace, k + 1);
    WrittenOnce(w, trace, k);
    assert upto[..k] == trace[..k];
  }

  /** The life of a worker in one statement: at most one admission, start and outcome, a
      destroyed worker lacks an outcome exactly if it was never admitted, and only failed
      destructions can make the life longer than nine events. */
  lemma {:induction false} LifeOfAWorker(id: string, imageDigest: string, trace: seq<Step>)
    requires NewWorker(id, imageDigest).Some?
    requires Run(NewWorker(id, imageDigest).value, trace).Some?
    ensures var w := Run(NewWorker(id, imageDigest).value, trace).value;
            && w.id == id && w.imageDigest == imageDigest
            && Count(trace, {Admit}) <= 1 && Count(trace, {JobStarted}) <= 1 && Count(trace, OUTCOMES) <= 1
            && (w.outcome in {Succeeded, Failed} ==> w.hasRun) && (w.outcome == InfrastructureFailure ==> !w.hasRun)
            && (w.state == Destroyed ==> (w.outcome == NoOutcome <==> Count(trace, {Admit}) == 0))
            && |trace| <= 9 + 2 * Count(trace, {DestroyFailed})
  {
    RunIsAccounted(NewWorker(id, imageDigest).value, trace);
  }

  // ---------------------------------------------------------------- progress and tightness

  /** An event on the shortest way to the end. */
  function Onward(s: State): Event {
    match s
    case Provisioning => ProvisionFailed
    case AvailableWarm => Drain
    case Admitted | Registering | Online | Assigned | Running => JobCancelled
    case Collecting => DiagnosticsCollected
    case Quarantined => RetryDestroy
    case Destroying | Destroyed => DestroyDone
  }

  lemma OnwardIsAccepted(w: Worker)
    requires Sound(w) && w.state != Destroyed
    ensures var next := Transition(w, Onward(w.state), w.jobKey);
            next.Some? && Distance(next.value.state) < Distance(w.state)
  {
    AcceptedIff(w, Onward(w.state), w.jobKey);
  }

  lemma OneOnward(w: Worker, trace: seq<Step>) returns (longer: seq<Step>)
    requires IsNew(w) && Run(w, trace).Some? && Run(w, trace).value.state != Destroyed
    ensures |longer| == |trace| + 1 && trace == longer[..|trace|] && Run(w, longer).Some?
    ensures Distance(Run(w, longer).value.state) < Distance(Run(w, trace).value.state)
  {
    var now := Run(w, trace).value;
    var step := Step(Onward(now.state), now.jobKey);
    RunIsAccounted(w, trace);
    OnwardIsAccepted(now);
    RunSnoc(w, trace, step);
    longer := trace + [step];
  }

  /** No worker is ever stuck: from any reachable worker at most three more events end its life. */
  lemma {:induction false} CanAlwaysBeDestroyed(w: Worker, trace: seq<Step>) returns (longer: seq<Step>)
    requires IsNew(w) && Run(w, trace).Some?
    ensures |trace| <= |longer| <= |trace| + Distance(Run(w, trace).value.state) && trace == longer[..|trace|]
    ensures |longer| <= |trace| + 3
    ensures Run(w, longer).Some? && Run(w, longer).value.state == Destroyed
    decreases Distance(Run(w, trace).value.state)
  {
    if Run(w, trace).value.state == Destroyed {
      longer := trace;
    } else {
      var next := OneOnward(w, trace);
      longer := CanAlwaysBeDestroyed(w, next);
      assert longer[..|trace|] == longer[..|next|][..|trace|];
    }
  }

  function Distance(s: State): nat {
    match s
    case Destroyed => 0
    case Destroying => 1
    case Provisioning | AvailableWarm | Collecting | Quarantined => 2
    case Admitted | Registering | Online | Assigned | Running => 3
  }

  lemma RunSnoc(w: Worker, trace: seq<Step>, step: Step)
    ensures Run(w, trace + [step]) ==
            if Run(w, trace).None? then None else Transition(Run(w, trace).value, step.event, step.jobKey)
  {
    assert (trace + [step])[..|trace + [step]| - 1] == trace;
  }

  /** The trace ends at `now`, after `failures` failed destructions. */
  ghost predicate Reaches(w: Worker, trace: seq<Step>, now: Worker, failures: nat) {
    Run(w, trace) == Some(now) && Count(trace, {DestroyFailed}) == failures
  }

  lemma Extend(w: Worker, trace: seq<Step>, now: Worker, failures: nat, step: Step, next: Worker) returns (longer: seq<Step>)
    requires Reaches(w, trace, now, failures)
    requires Transition(now, step.event, step.jobKey) == Some(next)
    ensures |longer| == |trace| + 1
    ensures Reaches(w, longer, next, failures + if step.event == DestroyFailed then 1 else 0)
  {
    longer := trace + [step];
    assert longer[..|longer| - 1] == trace;
  }

  lemma Bound(w: Worker, key: string) returns (trace: seq<Step>)
    requires IsNew(w) && key != ""
    ensures |trace| == 2 && Reaches(w, trace, w.(state := Admitted, jobKey := key), 0)
  {
    trace := Extend(w, [], w, 0, Step(WarmReady, ""), w.(state := AvailableWarm));
    trace := Extend(w, trace, w.(state := AvailableWarm), 0, Step(Admit, key), w.(state := Admitted, jobKey := key));
  }

  lemma Readied(w: Worker, key: string) returns (trace: seq<Step>)
    requires IsNew(w) && key != ""
    ensures |trace| == 4 && Reaches(w, trace, w.(state := Online, jobKey := key), 0)
  {
    trace := Bound(w, key);
    trace := Extend(w, trace, w.(state := Admitted, jobKey := key), 0, Step(BeginRegistration, key), w.(state := Registering, jobKey := key));
    trace := Extend(w, trace, w.(state := Registering, jobKey := key), 0, Step(RunnerOnline, key), w.(state := Online, jobKey := key));
  }

  function Served(w: Worker, key: string): Worker {
    w.(state := Destroying, jobKey := key, hasRun := true, outcome := Succeeded)
  }

  function RanFor(w: Worker, key: string): Worker {
    w.(state := Running, jobKey := key, hasRun := true)
  }

  lemma StartedRun(w: Worker, key: string) returns (trace: seq<Step>)
    requires IsNew(w) && key != ""
    ensures |trace| == 6 && Reaches(w, trace, RanFor(w, key), 0)
  {
    trace := Readied(w, key);
    var bound := w.(jobKey := key);
    trace := Extend(w, trace, bound.(state := Online), 0, Step(Assign, key), bound.(state := Assigned));
    trace := Extend(w, trace, bound.(state := Assigned), 0, Step(JobStarted, key), RanFor(w, key));
  }

  lemma ServedRun(w: Worker, key: string) returns (trace: seq<Step>)
    requires IsNew(w) && key != ""
    ensures |trace| == 8 && Reaches(w, trace, Served(w, key), 0)
  {
    trace := StartedRun(w, key);
    var judged := RanFor(w, key).(outcome := Succeeded, state := Collecting);
    trace := Extend(w, trace, RanFor(w, key), 0, Step(JobSucceeded, key), judged);
    trace := Extend(w, trace, judged, 0, Step(DiagnosticsCollected, key), Served(w, key));
  }

  /** One failed destruction and its retry. */
  lemma FailOnce(w: Worker, key: string, before: seq<Step>, n: nat) returns (trace: seq<Step>)
    requires key != "" && Reaches(w, before, Served(w, key), n)
    ensures |trace| == |before| + 2 && Reaches(w, trace, Served(w, key), n + 1)
  {
    var held := Served(w, key).(state := Quarantined);
    trace := Extend(w, before, Served(w, key), n, Step(DestroyFailed, key), held);
    trace := Extend(w, trace, held, n + 1, Step(RetryDestroy, key), Served(w, key));
  }

  lemma {:induction false} FailingRun(w: Worker, key: string, n: nat) returns (trace: seq<Step>)
    requires IsNew(w) && key != ""
    ensures |trace| == 8 + 2 * n && Reaches(w, trace, Served(w, key), n)
  {
    if n == 0 {
      trace := ServedRun(w, key);
    } else {
      trace := FailingRun(w, key, n - 1);
      trace := FailOnce(w, key, trace, n - 1);
    }
  }

  /** The bound on the length of a life is reached for every number of failed destructions. */
  lemma BoundIsTight(w: Worker, key: string, n: nat) returns (trace: seq<Step>)
    requires IsNew(w) && key != ""
    ensures Run(w, trace).Some? && Count(trace, {DestroyFailed}) == n && |trace| == 9 + 2 * n
  {
    trace := FailingRun(w, key, n);
    trace := Extend(w, trace, Served(w, key), n, Step(DestroyDone, key), Served(w, key).(state := Destroyed));
  }
}
