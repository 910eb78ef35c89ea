/** Promotion of an image by moving the `current` and `previous` aliases with separate
    requests, any of which may be lost, or take effect and lose its answer. */
module Promote {
  import opened Text

  datatype Alias = Alias(target: string, description: string)

  type Aliases = map<string, Alias>

  /** The alias names of a plan. */
  datatype Names = Names(image: string, current: string, previous: string, source: string)

  /** What the manifest checks: the source alias is not compared with the others. */
  predicate ValidNames(n: Names) {
    n.image != n.current && n.image != n.previous && n.current != n.previous
  }

  /** The target an alias resolves to; empty when it does not exist. */
  function Target(m: Aliases, name: string): string {
    if name in m then m[name].target else ""
  }

  function Seen(m: Aliases, name: string): Alias {
    if name in m then m[name] else Alias("", "")
  }

  /** Every listed alias resolves. */
  ghost predicate Resolved(m: Aliases) {
    forall name :: name in m ==> m[name].target != ""
  }

  /** There is no previous image without a current one. */
  predicate Paired(m: Aliases, n: Names) {
    Target(m, n.previous) != "" ==> Target(m, n.current) != ""
  }

  const CURRENT := "Current verified NDDev worker image"
  const PREVIOUS := "Previous verified NDDev worker image"

  // ---------------------------------------------------------------- requests

  /** How a request ends: answered, lost on the way, or carried out with the answer lost. */
  datatype Fate = Answered | Dropped | Unanswered

  /** The fates of the requests to come; requests beyond them are answered. */
  type Script = seq<Fate>

  function Fate0(script: Script): Fate {
    if script == [] then Answered else script[0]
  }

  function Rest(script: Script): Script {
    if script == [] then [] else script[1..]
  }

  datatype Reply = Reply(aliases: Aliases, script: Script, ok: bool)

  /** POST of a new alias, or PUT of an existing one. */
  function Send(m: Aliases, name: string, value: Alias, create: bool, script: Script): Reply {
    if Fate0(script) == Dropped || (create <==> name in m) then Reply(m, Rest(script), false)
    else Reply(m[name := value], Rest(script), Fate0(script) == Answered)
  }

  /** `setAlias`, given the alias as last listed. */
  function AliasSet(m: Aliases, name: string, value: Alias, seen: Alias, script: Script): Reply {
    if seen.target == "" then Send(m, name, value, true, script)
    else if seen == value then Reply(m, script, true)
    else Send(m, name, value, false, script)
  }

  // ---------------------------------------------------------------- promotion

  /** The aliases afterwards, and the rollback target unless there was an error. */
  datatype Outcome = Outcome(aliases: Aliases, script: Script, result: Option<string>)

  function Promotion(m: Aliases, n: Names, target: string, script: Script): Outcome {
    var s0 := Rest(script);
    var current, previous := Target(m, n.current), Target(m, n.previous);
    if Fate0(script) != Answered then Outcome(m, s0, None)
    else if current == "" && previous != "" then Outcome(m, s0, None)
    else if current == target then Outcome(m, s0, Some(previous))
    else if current == "" then MoveCurrent(m, n, target, previous, Seen(m, n.current), s0)
    else
      var kept := AliasSet(m, n.previous, Alias(current, PREVIOUS), Seen(m, n.previous), s0);
      if !kept.ok then Outcome(kept.aliases, kept.script, None)
      else MoveCurrent(kept.aliases, n, target, current, Seen(m, n.current), kept.script)
  }

  /** The second half: move `current`, list again, compare. */
  function MoveCurrent(m: Aliases, n: Names, target: string, previous: string, seen: Alias, script: Script): Outcome {
    var moved := AliasSet(m, n.current, Alias(target, CURRENT), seen, script);
    var end := Rest(moved.script);
    if !moved.ok then Outcome(moved.aliases, moved.script, None)
    else if Fate0(moved.script) != Answered then Outcome(moved.aliases, end, None)
    else if Target(moved.aliases, n.current) != target then Outcome(moved.aliases, end, None)
    else if previous != "" && Target(moved.aliases, n.previous) != previous then Outcome(moved.aliases, end, None)
    else Outcome(moved.aliases, end, Some(previous))
  }

  /** Where an undisturbed promotion ends, said without its requests. */
  function Promoted(m: Aliases, n: Names, target: string): Aliases {
    var current := Target(m, n.current);
    if current == target then m
    else if current == "" then m[n.current := Alias(target, CURRENT)]
    else m[n.previous := Alias(current, PREVIOUS)][n.current := Alias(target, CURRENT)]
  }

  /** The image to roll back to afterwards. */
  function Rollback(m: Aliases, n: Names, target: string): string {
    if Target(m, n.current) == "" || Target(m, n.current) == target then Target(m, n.previous) else Target(m, n.current)
  }

  /** The three places a promotion can stop: before anything, between the aliases, after both. */
  predicate Stage(m: Aliases, n: Names, target: string, t: Aliases) {
    var current := Target(m, n.current);
    t == m || t == Promoted(m, n, target)
    || (current != "" && current != target && t == m[n.previous := Alias(current, PREVIOUS)])
  }

  lemma {:induction false} StopsAtAStage(m: Aliases, n: Names, target: string, script: Script)
    requires ValidNames(n) && Resolved(m)
    ensures Stage(m, n, target, Promotion(m, n, target, script).aliases)
    ensures Promotion(m, n, target, script).result.Some? ==>
              Paired(m, n) && Promotion(m, n, target, script).aliases == Promoted(m, n, target) &&
              Promotion(m, n, target, script).result.value == Rollback(m, n, target)
  {
    var current := Target(m, n.current);
    if current != "" && current != target && Paired(m, n) {
      var kept := AliasSet(m, n.previous, Alias(current, PREVIOUS), Seen(m, n.previous), Rest(script));
      assert kept.aliases == m || kept.aliases == m[n.previous := Alias(current, PREVIOUS)];
      assert kept.ok ==> kept.aliases == m[n.previous := Alias(current, PREVIOUS)];
    }
  }

  /** Undisturbed, a promotion is refused exactly when there is a previous image but no
      current one, and otherwise ends at `Promoted`. */
  lemma UndisturbedPromotion(m: Aliases, n: Names, target: string)
    requires ValidNames(n) && Resolved(m)
    ensures Promotion(m, n, target, []) ==
            if Paired(m, n) then Outcome(Promoted(m, n, target), [], Some(Rollback(m, n, target))) else Outcome(m, [], None)
  {
  }

  /** Every stage has the same end. */
  lemma StagesAgree(m: Aliases, n: Names, target: string, t: Aliases)
    requires ValidNames(n) && Resolved(m) && target != "" && Stage(m, n, target, t) && Paired(m, n)
    ensures Resolved(t) && Paired(t, n)
    ensures Promoted(t, n, target) == Promoted(m, n, target)
    ensures Rollback(t, n, target) == Rollback(m, n, target)
  {
    var current := Target(m, n.current);
    if current != "" && current != target {
      var kept := m[n.previous := Alias(current, PREVIOUS)];
      assert Promoted(kept, n, target) == Promoted(m, n, target);
    }
    assert Target(Promoted(m, n, target), n.current) == target;
  }

  /** Stop a promotion after any request and run it again: the same aliases, descriptions
      included, and the same rollback target as if it had not been stopped. */
  lemma {:induction false} PromotionConverges(m: Aliases, n: Names, target: string, script: Script)
    requires ValidNames(n) && Resolved(m) && target != ""
    ensures var stopped := Promotion(m, n, target, script).aliases;
            Resolved(stopped) && Promotion(stopped, n, target, []) == Promotion(m, n, target, [])
  {
    var t := Promotion(m, n, target, script).aliases;
    UndisturbedPromotion(m, n, target);
    if Paired(m, n) {
      StopsAtAStage(m, n, target, script);
      StagesAgree(m, n, target, t);
      UndisturbedPromotion(t, n, target);
    }
  }

  /** Promoting again after a promotion that ended well changes nothing, however its own
      requests fare, and reports the same rollback target. */
  lemma {:induction false} FinishedIsFixed(m: Aliases, n: Names, target: string, script: Script, again: Script)
    requires ValidNames(n) && Resolved(m) && target != ""
    requires Promotion(m, n, target, script).result.Some?
    ensures var done := Promotion(m, n, target, script);
            && Target(done.aliases, n.current) == target
            && Promotion(done.aliases, n, target, again).aliases == done.aliases
            && (Promotion(done.aliases, n, target, again).result.Some? ==>
                  Promotion(done.aliases, n, target, again).result == done.result)
  {
    StopsAtAStage(m, n, target, script);
  }

  /** At every moment `current` is what it was or the target, `previous` what it was or the
      old `current`, and no other alias moves. */
  lemma {:induction false} EveryMoment(m: Aliases, n: Names, target: string, script: Script)
    requires ValidNames(n) && Resolved(m) && target != ""
    ensures var t := Promotion(m, n, target, script).aliases;
            && Resolved(t)
            && Target(t, n.current) in {Target(m, n.current), target}
            && Target(t, n.previous) in {Target(m, n.previous), Target(m, n.current)}
            && (Target(t, n.current) != Target(m, n.current) && Target(m, n.current) != "" ==>
                  Target(t, n.previous) == Target(m, n.current))
            && (Paired(m, n) ==> Paired(t, n))
            && (forall name :: name != n.current && name != n.previous ==> Seen(t, name) == Seen(m, name))
  {
    StopsAtAStage(m, n, target, script);
  }

  // ---------------------------------------------------------------- many promotions

  /** One attempt to promote a target, with the fates of its requests. */
  datatype Attempt = Attempt(target: string, script: Script)

  function After(m: Aliases, n: Names, attempts: seq<Attempt>): Aliases
    decreases |attempts|
  {
    if attempts == [] then m
    else
      var last := attempts[|attempts| - 1];
      Promotion(After(m, n, attempts[..|attempts| - 1]), n, last.target, last.script).aliases
  }

  /** `target` was the current image at some point of the attempts. */
  ghost predicate WasCurrent(m: Aliases, n: Names, attempts: seq<Attempt>, target: string) {
    exists k :: 0 <= k <= |attempts| && Target(After(m, n, attempts[..k]), n.current) == target
  }

  /** Promotions never reach a previous image without a current one, so none of them is
      refused; and one can only roll back to an image that was current, or to the rollback
      image of the start. */
  lemma {:induction false} PromotionsStayPaired(m: Aliases, n: Names, attempts: seq<Attempt>)
    requires ValidNames(n) && Resolved(m) && Paired(m, n)
    requires forall k :: 0 <= k < |attempts| ==> attempts[k].target != ""
    ensures var t := After(m, n, attempts);
            && Resolved(t) && Paired(t, n)
            && (Target(t, n.previous) == Target(m, n.previous) || WasCurrent(m, n, attempts, Target(t, n.previous)))
            && (forall target :: Promotion(t, n, target, []).result.Some?)
    decreases |attempts|
  {
    var t := After(m, n, attempts);
    if attempts != [] {
      var k := |attempts| - 1;
      var rest := attempts[..k];
      PromotionsStayPaired(m, n, rest);
      var u := After(m, n, rest);
      EveryMoment(u, n, attempts[k].target, attempts[k].script);
      if Target(t, n.previous) == Target(u, n.current) {
        assert attempts[..k] == rest;
        assert WasCurrent(m, n, attempts, Target(u, n.current));
      } else if WasCurrent(m, n, rest, Target(u, n.previous)) {
        var j :| 0 <= j <= |rest| && Target(After(m, n, rest[..j]), n.current) == Target(u, n.previous);
        assert attempts[..j] == rest[..j];
      }
    }
    forall target ensures Promotion(t, n, target, []).result.Some? {
      UndisturbedPromotion(t, n, target);
    }
  }

  /** However often it was interrupted, the attempt that is not ends where a single
      undisturbed promotion ends. */
  lemma {:induction false} RetriesConverge(m: Aliases, n: Names, target: string, attempts: seq<Attempt>)
    requires ValidNames(n) && Resolved(m) && target != ""
    requires forall k :: 0 <= k < |attempts| ==> attempts[k].target == target
    ensures var t := After(m, n, attempts);
            Resolved(t) && Promotion(t, n, target, []) == Promotion(m, n, target, [])
    decreases |attempts|
  {
    if attempts != [] {
      var k := |attempts| - 1;
      RetriesConverge(m, n, target, attempts[..k]);
      PromotionConverges(After(m, n, attempts[..k]), n, target, attempts[k].script);
    }
  }

  // ---------------------------------------------------------------- the orchestrator

  /** The orchestrator at work on the alias map of one project. */
  class Orchestrator {
    const names: Names
    var aliases: Aliases
    var script: Script

    constructor (names: Names, aliases: Aliases, script: Script)
      ensures this.names == names && this.aliases == aliases && this.script == script
    {
      this.names, this.aliases, this.script := names, aliases, script;
    }

    method Request(name: string, value: Alias, create: bool) returns (ok: bool)
      modifies this
      ensures Reply(aliases, script, ok) == Send(old(aliases), name, value, create, old(script))
    {
      var fate := Fate0(script);
      script := Rest(script);
      if fate == Dropped || create == (name in aliases) { return false; }
      aliases := aliases[name := value];
      return fate == Answered;
    }

    method List() returns (listed: Option<Aliases>)
      modifies this`script
      ensures script == Rest(old(script))
      ensures listed == if Fate0(old(script)) == Answered then Some(aliases) else None
    {
      listed := if Fate0(script) == Answered then Some(aliases) else None;
      script := Rest(script);
    }

    /** Given the alias as it is, success means it now has the value asked for, and failure
        leaves either the old aliases or that one changed: no other alias is ever touched. */
    method SetAlias(name: string, value: Alias, seen: Alias) returns (ok: bool)
      modifies this
      ensures Reply(aliases, script, ok) == AliasSet(old(aliases), name, value, seen, old(script))
      ensures aliases == old(aliases) || aliases == old(aliases)[name := value]
      ensures seen == Seen(old(aliases), name) && ok && value.target != "" ==> Seen(aliases, name) == value
      ensures seen == Seen(old(aliases), name) && old(script) == [] && (name in old(aliases) ==> seen.target != "") ==> ok
    {
      if seen.target == "" {
        ok := Request(name, value, true);
        return;
      }
      if seen == value { return true; }
      ok := Request(name, value, false);
    }

    /** Move the aliases; the specification function says exactly what is left behind. */
    method Promote(target: string) returns (result: Option<string>)
      modifies this
      ensures Outcome(aliases, script, result) == Promotion(old(aliases), names, target, old(script))
      ensures ValidNames(names) && Resolved(old(aliases)) && target != "" && result.Some? ==>
                && Target(aliases, names.current) == target
                && (Target(old(aliases), names.current) !in {"", target} ==>
                      Target(aliases, names.previous) == result.value == Target(old(aliases), names.current))
      ensures ValidNames(names) && Resolved(old(aliases)) && old(script) == [] ==> (result.Some? <==> Paired(old(aliases), names))
    {
      if ValidNames(names) && Resolved(aliases) {
        StopsAtAStage(aliases, names, target, script);
        UndisturbedPromotion(aliases, names, target);
      }
      var listed := List();
      if listed.None? { return None; }
      var current, previous := Target(listed.value, names.current), Target(listed.value, names.previous);
      if current == "" && previous != "" { return None; }
      if current == target { return Some(previous); }
      if current != "" {
        var kept := SetAlias(names.previous, Alias(current, PREVIOUS), Seen(listed.value, names.previous));
        if !kept { return None; }
        previous := current;
      }
      var moved := SetAlias(names.current, Alias(target, CURRENT), Seen(listed.value, names.current));
      if !moved { return None; }
      var verified := List();
      if verified.None? { return None; }
      if Target(verified.value, names.current) != target { return None; }
      if previous != "" && Target(verified.value, names.previous) != previous { return None; }
      return Some(previous);
    }

    /** Have an alias for an image: create it when it does not resolve, and look again. */
    method Ensure(name: string, fingerprint: string) returns (ok: bool)
      modifies this
      ensures Reply(aliases, script, ok) == Ensured(old(aliases), name, fingerprint, old(script))
    {
      var listed := List();
      if listed.None? { return false; }
      if Target(listed.value, name) != "" { return true; }
      ok := Request(name, Alias(fingerprint, ""), true);
      if !ok { return false; }
      listed := List();
      return listed.Some? && Target(listed.value, name) != "";
    }

    /** The alias side of an apply: the source image is imported under its alias and the
        worker image published under its own, each only when absent, then the promotion
        unless the image is only staged. `passed` is the smoke verdict. Unless the source
        alias is itself one of them and absent, `current` and `previous` are moved by a
        promotion only. */
    method Apply(imported: string, built: string, passed: bool, stageOnly: bool) returns (ok: bool)
      requires ValidNames(names) && Resolved(aliases) && imported != "" && built != ""
      modifies this
      ensures Reply(aliases, script, ok) == Applied(old(aliases), names, imported, built, passed, stageOnly, old(script))
      ensures SourceApart(old(aliases), names) && (stageOnly || !passed) ==> Unmoved(old(aliases), names, aliases)
      ensures SourceApart(old(aliases), names) ==>
                Target(aliases, names.current) in {Target(old(aliases), names.current), Target(aliases, names.image)}
      ensures ok ==> passed && Target(aliases, names.source) != "" && Target(aliases, names.image) != ""
      ensures ok ==> Target(old(aliases), names.image) in {"", Target(aliases, names.image)}
      ensures ok && Target(old(aliases), names.image) == "" && names.source != names.image ==> Target(aliases, names.image) == built
      ensures ok && !stageOnly ==> InPlace(old(aliases), names, aliases)
      ensures SourceApart(old(aliases), names) && Paired(old(aliases), names) && passed && old(script) == [] ==> ok
    {
      AppliedDelivers(aliases, names, imported, built, passed, stageOnly, script);
      if SourceApart(aliases, names) { AppliedKeeps(aliases, names, imported, built, passed, stageOnly, script); }
      ok := Stage(imported, built);
      if !ok { return false; }
      if stageOnly || !passed { return passed; }
      var result := Promote(Target(aliases, names.image));
      return result.Some?;
    }

    method Stage(imported: string, built: string) returns (ok: bool)
      modifies this
      ensures Reply(aliases, script, ok) == Staging(old(aliases), names, imported, built, old(script))
    {
      ok := Ensure(names.source, imported);
      if ok {
        ok := Ensure(names.image, built);
      }
    }
  }

  // ---------------------------------------------------------------- staging

  function Ensured(m: Aliases, name: string, fingerprint: string, script: Script): Reply {
    if Fate0(script) != Answered then Reply(m, Rest(script), false)
    else if Target(m, name) != "" then Reply(m, Rest(script), true)
    else
      var sent := Send(m, name, Alias(fingerprint, ""), true, Rest(script));
      if !sent.ok then sent
      else Reply(sent.aliases, Rest(sent.script), Fate0(sent.script) == Answered && Target(sent.aliases, name) != "")
  }

  /** Import and publication. */
  function Staging(m: Aliases, n: Names, imported: string, built: string, script: Script): Reply {
    var sourced := Ensured(m, n.source, imported, script);
    if !sourced.ok then sourced else Ensured(sourced.aliases, n.image, built, sourced.script)
  }

  /** The source alias exists, or is neither of the moving ones. */
  predicate SourceApart(m: Aliases, n: Names) {
    n.source in m || (n.source != n.current && n.source != n.previous)
  }

  predicate Unmoved(m: Aliases, n: Names, t: Aliases) {
    Seen(t, n.current) == Seen(m, n.current) && Seen(t, n.previous) == Seen(m, n.previous)
  }

  lemma EnsuredAliases(m: Aliases, name: string, fingerprint: string, script: Script)
    requires Resolved(m) && fingerprint != ""
    ensures var r := Ensured(m, name, fingerprint, script);
            && Resolved(r.aliases)
            && (r.aliases == m || (name !in m && r.aliases == m[name := Alias(fingerprint, "")]))
            && (r.ok ==> Target(r.aliases, name) != "")
  {
  }

  lemma StagingUnmoved(m: Aliases, n: Names, imported: string, built: string, script: Script)
    requires ValidNames(n) && Resolved(m) && imported != "" && built != ""
    ensures var s := Staging(m, n, imported, built, script);
            && Resolved(s.aliases) && (s.ok ==> Target(s.aliases, n.image) != "")
            && (SourceApart(m, n) ==> Unmoved(m, n, s.aliases))
  {
    var sourced := Ensured(m, n.source, imported, script);
    EnsuredAliases(m, n.source, imported, script);
    EnsuredAliases(sourced.aliases, n.image, built, sourced.script);
  }

  /** Staging, and the promotion of what was staged unless it is held back. */
  function Applied(m: Aliases, n: Names, imported: string, built: string, passed: bool, stageOnly: bool, script: Script): Reply {
    var s := Staging(m, n, imported, built, script);
    if !s.ok || !passed || stageOnly then s.(ok := s.ok && passed)
    else
      var p := Promotion(s.aliases, n, Target(s.aliases, n.image), s.script);
      Reply(p.aliases, p.script, p.result.Some?)
  }

  lemma AppliedKeeps(m: Aliases, n: Names, imported: string, built: string, passed: bool, stageOnly: bool, script: Script)
    requires ValidNames(n) && Resolved(m) && imported != "" && built != "" && SourceApart(m, n)
    ensures var t := Applied(m, n, imported, built, passed, stageOnly, script).aliases;
            && (stageOnly || !passed ==> Unmoved(m, n, t))
            && Target(t, n.current) in {Target(m, n.current), Target(t, n.image)}
  {
    var s := Staging(m, n, imported, built, script);
    StagingUnmoved(m, n, imported, built, script);
    if s.ok {
      EveryMoment(s.aliases, n, Target(s.aliases, n.image), s.script);
      assert Seen(Promotion(s.aliases, n, Target(s.aliases, n.image), s.script).aliases, n.image) == Seen(s.aliases, n.image);
    }
  }

  /** The image is current, and the current image of before, if it was another, is kept. */
  predicate InPlace(m: Aliases, n: Names, t: Aliases) {
    && Target(t, n.current) == Target(t, n.image) != ""
    && (Target(m, n.current) != "" && Target(m, n.current) != Target(t, n.current) ==> Target(t, n.previous) == Target(m, n.current))
  }

  /** What staging leaves when it succeeds: both aliases resolve, an image that was there
      stays, and a moving alias that was there is as it was. */
  lemma StagingDelivers(m: Aliases, n: Names, imported: string, built: string, script: Script)
    requires ValidNames(n) && Resolved(m) && imported != "" && built != ""
    ensures var s := Staging(m, n, imported, built, script);
            && Resolved(s.aliases)
            && (n.current in m ==> Seen(s.aliases, n.current) == Seen(m, n.current))
            && (s.ok ==> Target(s.aliases, n.source) != "" && Target(s.aliases, n.image) != "")
            && (s.ok ==> Target(m, n.image) in {"", Target(s.aliases, n.image)})
            && (s.ok && Target(m, n.image) == "" && n.source != n.image ==> Target(s.aliases, n.image) == built)
            && (script == [] ==> s.ok && s.script == [])
  {
    var sourced := Ensured(m, n.source, imported, script);
    EnsuredAliases(m, n.source, imported, script);
    EnsuredAliases(sourced.aliases, n.image, built, sourced.script);
  }

  /** A promotion that reports success has put the target in place. */
  lemma PromotionDelivers(m: Aliases, n: Names, target: string, script: Script)
    requires ValidNames(n) && Resolved(m) && target != "" && Promotion(m, n, target, script).result.Some?
    ensures var t := Promotion(m, n, target, script).aliases;
            && Target(t, n.current) == target
            && (Target(m, n.current) != "" && Target(m, n.current) != target ==> Target(t, n.previous) == Target(m, n.current))
            && (forall name :: name != n.current && name != n.previous ==> Seen(t, name) == Seen(m, name))
  {
    StopsAtAStage(m, n, target, script);
  }

  lemma AppliedDelivers(m: Aliases, n: Names, imported: string, built: string, passed: bool, stageOnly: bool, script: Script)
    requires ValidNames(n) && Resolved(m) && imported != "" && built != ""
    ensures var r := Applied(m, n, imported, built, passed, stageOnly, script);
            && (r.ok ==> passed && Target(r.aliases, n.source) != "" && Target(r.aliases, n.image) != "")
            && (r.ok ==> Target(m, n.image) in {"", Target(r.aliases, n.image)})
            && (r.ok && Target(m, n.image) == "" && n.source != n.image ==> Target(r.aliases, n.image) == built)
            && (r.ok && !stageOnly ==> InPlace(m, n, r.aliases))
            && (SourceApart(m, n) && Paired(m, n) && passed && script == [] ==> r.ok)
  {
    var s := Staging(m, n, imported, built, script);
    StagingDelivers(m, n, imported, built, script);
    StagingUnmoved(m, n, imported, built, script);
    if s.ok && passed && !stageOnly {
      PromotedDelivers(m, n, s);
    }
  }

  lemma PromotedDelivers(m: Aliases, n: Names, s: Reply)
    requires ValidNames(n) && Resolved(s.aliases) && Target(s.aliases, n.image) != "" && Target(s.aliases, n.source) != ""
    requires n.current in m ==> Seen(s.aliases, n.current) == Seen(m, n.current)
    ensures var p := Promotion(s.aliases, n, Target(s.aliases, n.image), s.script);
            && (p.result.Some? ==> InPlace(m, n, p.aliases) && Target(p.aliases, n.image) == Target(s.aliases, n.image))
            && (p.result.Some? ==> Target(p.aliases, n.source) != "")
            && (s.script == [] && Paired(s.aliases, n) ==> p.result.Some?)
  {
    var target := Target(s.aliases, n.image);
    var p := Promotion(s.aliases, n, target, s.script);
    if p.result.Some? {
      PromotionDelivers(s.aliases, n, target, s.script);
      EveryMoment(s.aliases, n, target, s.script);
      assert Seen(p.aliases, n.image) == Seen(s.aliases, n.image);
      assert n.source != n.current && n.source != n.previous ==> Seen(p.aliases, n.source) == Seen(s.aliases, n.source);
    }
    if s.script == [] { UndisturbedPromotion(s.aliases, n, target); }
  }

  /** Staging leaves both moving aliases alone, whatever happens to its requests, if and only
      if the source alias exists or is neither of them, which the manifest does not ask for. */
  lemma {:induction false} StagingLeavesAliasesIff(m: Aliases, n: Names, imported: string, built: string)
    requires ValidNames(n) && Resolved(m) && imported != "" && built != ""
    ensures (forall script: Script :: Unmoved(m, n, Staging(m, n, imported, built, script).aliases)) <==> SourceApart(m, n)
  {
    if SourceApart(m, n) {
      forall script: Script ensures Unmoved(m, n, Staging(m, n, imported, built, script).aliases) {
        StagingUnmoved(m, n, imported, built, script);
      }
    } else {
      SourceMoves(m, n, imported, built);
    }
  }

  /** The undisturbed import creates the alias that should not have moved. */
  lemma SourceMoves(m: Aliases, n: Names, imported: string, built: string)
    requires ValidNames(n) && Resolved(m) && imported != "" && built != "" && !SourceApart(m, n)
    ensures Target(Staging(m, n, imported, built, []).aliases, n.source) == imported
    ensures !Unmoved(m, n, Staging(m, n, imported, built, []).aliases)
  {
    var sourced := Ensured(m, n.source, imported, []);
    EnsuredAliases(sourced.aliases, n.image, built, []);
  }

  /** With the name of `previous` as its source alias, a first apply makes a previous image
      without a current one, and the promotion that follows is refused. */
  lemma SourceTakesPrevious() returns (n: Names)
    ensures ValidNames(n) && !SourceApart(map[], n)
    ensures var s := Staging(map[], n, "imported", "built", []);
            s.ok && !Unmoved(map[], n, s.aliases) && Promotion(s.aliases, n, "built", s.script).result.None?
  {
    n := Names("image", "current", "previous", "previous");
    SourceMoves(map[], n, "imported", "built");
  }
}
