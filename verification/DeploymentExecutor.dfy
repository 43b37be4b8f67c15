// The root-side executor with automatic rollback
// (internal/agent/deployment_executor_linux.go). What Docker, the probes and the
// file system answer is an input; what was done to them is logged.
module DeploymentExecutor {
  import opened Text
  import opened DeploymentPolicy

  // How a stack proves that its service works.
  datatype Health = DockerHealth | HttpHealth

  // One poll: container id, `.State.Running`, health status, HTTP status.
  datatype Poll = Poll(container: Option<string>, running: Option<string>, health: Option<string>, status: Option<int>)

  predicate Passes(poll: Poll, health: Health) {
    && poll.container.Some?
    && poll.running.Some? && TrimSpace(poll.running.value) == "true"
    && match health
       case DockerHealth => poll.health.Some? && TrimSpace(poll.health.value) == "healthy"
       case HttpHealth => poll.status.Some? && 200 <= poll.status.value < 300
  }

  // ---- The answers of the environment ----

  // Before the branches: the services Compose lists, the image before and
  // after a pull, and the repository digest of the running image.
  datatype Preparation = Preparation(
    config: Option<string>,
    present: bool,
    pulled: bool,
    presentAfterPull: bool,
    found: Option<(string, string)>)

  // One attempt to put a release in place: writing the candidate file, the
  // services listed with it, `compose up`, the polls that fit in before the
  // deadline, and the two halves of the commit.
  datatype Attempt = Attempt(
    written: bool,
    config: Option<string>,
    applied: bool,
    polls: seq<Poll>,
    renamed: bool,
    synced: bool)

  datatype Answers = Answers(preparation: Preparation, forward: Attempt, recovery: Attempt)

  predicate ListsService(output: Option<string>, service: string) {
    output.Some? &&
    var lines := Split(TrimSpace(output.value), '\n');
    exists i | 0 <= i < |lines| :: TrimSpace(lines[i]) == service
  }

  // The first poll that passes decides.
  function Verdict(polls: seq<Poll>, health: Health): (verdict: Effect)
    ensures verdict.Healthy? || verdict.Unhealthy?
    ensures verdict.Healthy? ==> Passes(verdict.poll, health)
    ensures verdict.Healthy? <==> exists i :: 0 <= i < |polls| && Passes(polls[i], health)
  {
    if polls == [] then Unhealthy
    else if Passes(polls[0], health) then Healthy(polls[0])
    else
      var rest := Verdict(polls[1..], health);
      assert forall i | 0 < i < |polls| :: polls[i] == polls[1..][i - 1];
      rest
  }

  // One step of a deployment and the error it fails with.
  datatype Check = Check(passed: bool, error: string)

  // The error of the first step that failed; empty if none did.
  function FirstFailure(steps: seq<Check>): string {
    if steps == [] then "" else if !steps[0].passed then steps[0].error else FirstFailure(steps[1..])
  }

  predicate Committed(at: Attempt) {
    at.renamed && at.synced
  }

  function Steps(at: Attempt, service: string, health: Health): seq<Check> {
    [Check(at.written, "state_prepare_failed"),
     Check(ListsService(at.config, service), "preflight_failed"),
     Check(at.applied, "compose_apply_failed"),
     Check(Verdict(at.polls, health).Healthy?, "health_verification_failed"),
     Check(Committed(at), "state_commit_failed")]
  }

  // The same release under the same digest is only checked and recorded.
  function ConfirmSteps(at: Attempt, health: Health): seq<Check> {
    [Check(Verdict(at.polls, health).Healthy?, "health_verification_failed"),
     Check(at.written, "state_commit_failed"),
     Check(Committed(at), "state_commit_failed")]
  }

  function PrepareSteps(p: Preparation, service: string, stored: Option<State>): seq<Check> {
    [Check(ListsService(p.config, service), "preflight_failed"),
     Check(p.present || (p.pulled && p.presentAfterPull), "image_prepare_failed"),
     Check(stored.Some? || p.found.Some?, "current_release_unknown")]
  }

  function AttemptError(at: Attempt, service: string, health: Health): string {
    if !at.written then "state_prepare_failed"
    else if !ListsService(at.config, service) then "preflight_failed"
    else if !at.applied then "compose_apply_failed"
    else if !Verdict(at.polls, health).Healthy? then "health_verification_failed"
    else if !Committed(at) then "state_commit_failed"
    else ""
  }

  lemma StepsUnfold(at: Attempt, service: string, health: Health)
    ensures FirstFailure(Steps(at, service, health)) == AttemptError(at, service, health)
  {
    var steps := Steps(at, service, health);
    assert steps[1..][1..] == steps[2..] && steps[2..][1..] == steps[3..] && steps[3..][1..] == steps[4..];
    assert steps[4..][1..] == [];
    assert FirstFailure(steps[4..]) == if !Committed(at) then "state_commit_failed" else "";
    assert FirstFailure(steps[3..]) == if !steps[3].passed then steps[3].error else FirstFailure(steps[4..]);
    assert FirstFailure(steps[2..]) == if !steps[2].passed then steps[2].error else FirstFailure(steps[3..]);
    assert FirstFailure(steps[1..]) == if !steps[1].passed then steps[1].error else FirstFailure(steps[2..]);
  }

  lemma ThreeSteps(steps: seq<Check>)
    requires |steps| == 3
    ensures FirstFailure(steps) ==
      if !steps[0].passed then steps[0].error
      else if !steps[1].passed then steps[1].error
      else if !steps[2].passed then steps[2].error
      else ""
  {
    assert steps[1..][1..] == steps[2..] && steps[2..][1..] == [];
    assert FirstFailure(steps[2..]) == if !steps[2].passed then steps[2].error else "";
    assert FirstFailure(steps[1..]) == if !steps[1].passed then steps[1].error else FirstFailure(steps[2..]);
  }

  // The service may have changed once `up` was run.
  predicate Reaches(at: Attempt, service: string) {
    at.written && ListsService(at.config, service)
  }

  predicate Moves(at: Attempt, service: string, health: Health) {
    Reaches(at, service) && at.applied && Verdict(at.polls, health).Healthy? && at.renamed
  }

  // The release each `up` was run with, and whether it succeeded.
  function Ups(effects: seq<Effect>): seq<Effect> {
    if effects == [] then []
    else Ups(effects[..|effects| - 1]) + if effects[|effects| - 1].Up? then [effects[|effects| - 1]] else []
  }

  lemma {:induction false} UpsAppend(effects: seq<Effect>, more: seq<Effect>)
    ensures Ups(effects + more) == Ups(effects) + Ups(more)
  {
    if more == [] {
      assert effects + more == effects;
    } else {
      var all := effects + more;
      assert all[..|all| - 1] == effects + more[..|more| - 1];
      UpsAppend(effects, more[..|more| - 1]);
    }
  }

  // The outcome in terms of the answers: which error, whether the operation
  // rolled back, what ends up in the state file and which releases were put up.
  ghost predicate AsAnswered(stack: Stack, health: Health, d: Definition, stored: Option<State>, a: Answers,
                             r: Result, file: Option<State>, effects: seq<Effect>)
  {
    var unprepared := FirstFailure(PrepareSteps(a.preparation, stack.service, stored));
    if unprepared != "" || (stored.None? && a.preparation.found.None?) then
      && r == Result(d.id, d.stackKey, d.kind, d.releaseId, d.currentReleaseId, false, false, unprepared, "")
      && file == stored && effects == []
    else
      var current :=
        match stored
        case Some(state) => state.current
        case None => Release("external", "部署前版本", Image(a.preparation.found.value.0, a.preparation.found.value.1));
      var target := Release(d.releaseId, d.releaseTitle, d.image);
      if (match current.image case NoImage => "" case Image(_, digest) => digest)
         == (match d.image case NoImage => "" case Image(_, digest) => digest)
      then
        var error := FirstFailure(ConfirmSteps(a.forward, health));
        && r == Result(d.id, d.stackKey, d.kind, d.releaseId, current.id, error == "", false, error,
                       if error == "" then stack.title + " 已运行目标版本 " + d.releaseTitle + "，健康验证通过" else "")
        && file == (if Verdict(a.forward.polls, health).Healthy? && a.forward.written && a.forward.renamed
                    then Some(State(stack.key, target, NO_RELEASE)) else stored)
        && Ups(effects) == []
      else
        var error := FirstFailure(Steps(a.forward, stack.service, health));
        var touched := Reaches(a.forward, stack.service);
        var recovers := FirstFailure(Steps(a.recovery, stack.service, health)) == "";
        var rolledBack := error != "" && touched && recovers;
        var moved := if Moves(a.forward, stack.service, health) then Some(State(stack.key, target, current)) else stored;
        && r == Result(d.id, d.stackKey, d.kind, d.releaseId, current.id, error == "", rolledBack,
                       if error != "" && touched && !recovers then "rollback_failed" else error,
                       if error == "" then
                         stack.title + (if d.kind.Rollback? then " 已回滚到 " else " 已部署 ") + d.releaseTitle + "，健康验证通过"
                       else if rolledBack then "部署未通过验证，已自动恢复到操作前版本" else "")
        && file == (if error != "" && touched && Moves(a.recovery, stack.service, health)
                    then (if stored.Some? then stored else Some(State(stack.key, current, NO_RELEASE)))
                    else moved)
        && Ups(effects) ==
           (if touched then [Up(target, a.forward.applied)] else [])
           + (if touched && error != "" && Reaches(a.recovery, stack.service) then [Up(current, a.recovery.applied)] else [])
  }

  // ---- What an operation does ----

  // What a run did to the outside, in order: `compose up` with a release (it
  // may fail after changing the service), health verdicts, and renames of the
  // state file.
  datatype Effect =
    | Up(release: Release, succeeded: bool)
    | Healthy(poll: Poll)
    | Unhealthy
    | Renamed(state: State)

  // The release of the last `up`.
  function LastUp(effects: seq<Effect>): Option<Effect> {
    if effects == [] then None
    else if effects[|effects| - 1].Up? then Some(effects[|effects| - 1])
    else LastUp(effects[..|effects| - 1])
  }

  // The committed file after the renames so far.
  function FileAfter(stored: Option<State>, effects: seq<Effect>): Option<State> {
    if effects == [] then stored
    else if effects[|effects| - 1].Renamed? then Some(effects[|effects| - 1].state)
    else FileAfter(stored, effects[..|effects| - 1])
  }

  lemma FileAfterSnoc(stored: Option<State>, effects: seq<Effect>, e: Effect)
    ensures FileAfter(stored, effects + [e]) == if e.Renamed? then Some(e.state) else FileAfter(stored, effects)
  {
    assert (effects + [e])[..|effects|] == effects;
  }

  // One more effect keeps the log and the allowed renames.
  lemma Appended(stored: Option<State>, effects: seq<Effect>, e: Effect, allowed: set<State>)
    requires OnlyRenames(effects, allowed) && (e.Renamed? ==> e.state in allowed)
    ensures OnlyRenames(effects + [e], allowed)
    ensures FileAfter(stored, effects + [e]) == if e.Renamed? then Some(e.state) else FileAfter(stored, effects)
    ensures Touched(effects) || e.Up? ==> Touched(effects + [e])
  {
    FileAfterSnoc(stored, effects, e);
    var all := effects + [e];
    assert all[|effects|] == e;
    if Touched(effects) {
      var i :| 0 <= i < |effects| && effects[i].Up?;
      assert all[i].Up?;
    }
  }

  lemma {:induction false} AppendedAll(stored: Option<State>, effects: seq<Effect>, more: seq<Effect>, allowed: set<State>)
    requires OnlyRenames(effects, allowed) && forall e :: e in more ==> !e.Renamed?
    ensures OnlyRenames(effects + more, allowed) && FileAfter(stored, effects + more) == FileAfter(stored, effects)
    ensures Touched(effects) ==> Touched(effects + more)
  {
    if more == [] {
      assert effects + more == effects;
    } else {
      var init, last := more[..|more| - 1], more[|more| - 1];
      assert last in more;
      AppendedAll(stored, effects, init, allowed);
      Appended(stored, effects + init, last, allowed);
      assert effects + more == effects + init + [last];
    }
  }

  // A health verdict passed and no `up` came after it.
  predicate ConfirmedHealthy(effects: seq<Effect>, health: Health) {
    effects != [] &&
    var last := effects[|effects| - 1];
    || (last.Healthy? && Passes(last.poll, health))
    || (!last.Up? && !last.Unhealthy? && ConfirmedHealthy(effects[..|effects| - 1], health))
  }

  predicate Touched(effects: seq<Effect>) {
    exists i | 0 <= i < |effects| :: effects[i].Up?
  }

  function Target(d: Definition): Release {
    Release(d.releaseId, d.releaseTitle, d.image)
  }

  // The state a rollback restores: the stored one, or the discovered release.
  function RollbackState(stack: Stack, stored: Option<State>, before: Release): State {
    match stored
    case Some(state) => state
    case None => State(stack.key, before, NO_RELEASE)
  }

  // The only states an operation ever moves into place.
  function Renames(stack: Stack, d: Definition, stored: Option<State>, before: Option<Release>): set<State> {
    match before
    case None => {}
    case Some(current) =>
      if SameDigest(current.image, d.image) then {State(stack.key, Target(d), NO_RELEASE)}
      else {State(stack.key, Target(d), current), RollbackState(stack, stored, current)}
  }

  predicate OnlyRenames(effects: seq<Effect>, allowed: set<State>) {
    forall i :: 0 <= i < |effects| && effects[i].Renamed? ==> effects[i].state in allowed
  }

  // A release as far as this process knows it before the operation.
  predicate BeforeOk(stored: Option<State>, before: Release) {
    match stored
    case Some(state) => before == state.current
    case None => before.id == "external" && before.title == "部署前版本" && before.image.Image?
  }

  const ROLLBACK_SUMMARY := "部署未通过验证，已自动恢复到操作前版本"

  function Fail(d: Definition, errorKind: string, rollbackPerformed: bool, previousReleaseId: string): Result {
    Result(d.id, d.stackKey, d.kind, d.releaseId, previousReleaseId, false, rollbackPerformed, errorKind,
           if rollbackPerformed then ROLLBACK_SUMMARY else "")
  }

  function Success(d: Definition, stack: Stack, previousReleaseId: string, sameDigest: bool): Result {
    Result(d.id, stack.key, d.kind, d.releaseId, previousReleaseId, true, false, "",
           stack.title
           + (if sameDigest then " 已运行目标版本 " else if d.kind.Rollback? then " 已回滚到 " else " 已部署 ")
           + d.releaseTitle + "，健康验证通过")
  }

  const BEFORE_DISCOVERY := {"preflight_failed", "image_prepare_failed", "current_release_unknown"}
  const BEFORE_UP := {"preflight_failed", "state_prepare_failed"}
  const AFTER_UP := {"compose_apply_failed", "health_verification_failed", "state_commit_failed"}

  // The typed result agrees with the state file and with what was applied.
  // `before` is the release that ran before, once it is known.
  ghost predicate Honest(stack: Stack, health: Health, d: Definition, stored: Option<State>,
                         r: Result, file: Option<State>, effects: seq<Effect>, before: Option<Release>)
  {
    match before
    case None =>
      // Nothing was learned, nothing was done.
      effects == [] && file == stored && exists kind :: kind in BEFORE_DISCOVERY && r == Fail(d, kind, false, d.currentReleaseId)
    case Some(current) =>
      var next := State(stack.key, Target(d), current);
      var alone := State(stack.key, Target(d), NO_RELEASE);
      && BeforeOk(stored, current)
      && if SameDigest(current.image, d.image) then
           // The release already runs: only health and the state file matter.
           && !Touched(effects)
           && (r.ok ==> r == Success(d, stack, current.id, true) && file == Some(alone) && ConfirmedHealthy(effects, health))
           && (!r.ok ==>
                || (r == Fail(d, "health_verification_failed", false, current.id) && file == stored)
                || (r == Fail(d, "state_commit_failed", false, current.id) && file in {stored, Some(alone)}))
         else if !Touched(effects) then
           // Stopped before the service could change.
           file == stored && exists kind :: kind in BEFORE_UP && r == Fail(d, kind, false, current.id)
         else if r.ok then
           && r == Success(d, stack, current.id, false) && file == Some(next)
           && LastUp(effects) == Some(Up(Target(d), true)) && ConfirmedHealthy(effects, health)
         else if r.rollbackPerformed then
           && (exists kind :: kind in AFTER_UP && r == Fail(d, kind, true, current.id))
           && file == Some(RollbackState(stack, stored, current))
           && LastUp(effects) == Some(Up(current, true)) && ConfirmedHealthy(effects, health)
         else
           && r == Fail(d, "rollback_failed", false, current.id)
           && file in {stored, Some(next), Some(RollbackState(stack, stored, current))}
  }

  class Machine {
    var file: Option<State>
    var effects: seq<Effect>

    // The file is what the logged renames made of the stored one.
    ghost predicate Logged(stored: Option<State>, allowed: set<State>)
      reads this
    {
      file == FileAfter(stored, effects) && OnlyRenames(effects, allowed)
    }

    constructor (stored: Option<State>)
      ensures file == stored && effects == []
    {
      file, effects := stored, [];
    }

    // `docker compose config --services` lists the approved service.
    method ValidateComposeService(output: Option<string>, service: string) returns (ok: bool)
      ensures ok == ListsService(output, service)
    {
      if output.None? {
        return false;
      }
      var lines := Split(TrimSpace(output.value), '\n');
      for i := 0 to |lines|
        invariant forall j | 0 <= j < i :: TrimSpace(lines[j]) != service
      {
        if TrimSpace(lines[i]) == service {
          return true;
        }
      }
      ok := false;
    }

    method EnsureImmutableImage(p: Preparation) returns (ok: bool)
      ensures ok <==> p.present || (p.pulled && p.presentAfterPull)
    {
      if p.present {
        return true;
      }
      if !p.pulled {
        return false;
      }
      ok := p.presentAfterPull;
    }

    // The running container's immutable image, if Docker can name one.
    method DiscoverCurrentRelease(found: Option<(string, string)>) returns (release: Option<Release>)
      ensures release ==
        match found
        case None => None
        case Some(digest) => Some(Release("external", "部署前版本", Image(digest.0, digest.1)))
    {
      match found
      case None => release := None;
      case Some(digest) => release := Some(Release("external", "部署前版本", Image(digest.0, digest.1)));
    }

    method ApplyDeploymentOverride(state: State, applied: bool) returns (ok: bool)
      modifies this`effects
      ensures ok == applied && effects == old(effects) + [Up(state.current, applied)]
    {
      ok := applied;
      effects := effects + [Up(state.current, ok)];
    }

    // Polls until the service is healthy or the deadline has passed.
    method VerifyDeploymentHealth(polls: seq<Poll>, health: Health) returns (ok: bool)
      modifies this`effects
      ensures ok == Verdict(polls, health).Healthy?
      ensures effects == old(effects) + [Verdict(polls, health)]
    {
      for i := 0 to |polls|
        invariant effects == old(effects)
        invariant Verdict(polls, health) == Verdict(polls[i..], health)
      {
        var poll := polls[i];
        assert polls[i..][0] == poll && polls[i..][1..] == polls[i + 1..];
        if poll.container.Some? {
          if poll.running.Some? && TrimSpace(poll.running.value) == "true" {
            match health
            case DockerHealth =>
              if poll.health.Some? && TrimSpace(poll.health.value) == "healthy" {
                effects := effects + [Healthy(poll)];
                return true;
              }
            case HttpHealth =>
              if poll.status.Some? && 200 <= poll.status.value < 300 {
                effects := effects + [Healthy(poll)];
                return true;
              }
          }
        }
      }
      effects := effects + [Unhealthy];
      ok := false;
    }

    // Rename, then sync the directory: the error may come before or after the
    // rename took effect.
    method Commit(state: State, renamed: bool, synced: bool) returns (ok: bool)
      modifies this`file, this`effects
      ensures ok <==> renamed && synced
      ensures file == if renamed then Some(state) else old(file)
      ensures effects == old(effects) + if renamed then [Renamed(state)] else []
    {
      if !renamed {
        return false;
      }
      file := Some(state);
      effects := effects + [Renamed(state)];
      ok := synced;
    }

    method RollbackFailedDeployment(stack: Stack, health: Health, d: Definition, stored: Option<State>, current: Release, originalError: string, at: Attempt)
      returns (r: Result)
      modifies this
      ensures r == if AttemptError(at, stack.service, health) == "" then Fail(d, originalError, true, current.id)
                   else Fail(d, "rollback_failed", false, current.id)
      ensures file == if Moves(at, stack.service, health) then Some(RollbackState(stack, stored, current)) else old(file)
      ensures effects == old(effects) + AttemptLog(at, stack.service, RollbackState(stack, stored, current), health)
    {
      var state := RollbackState(stack, stored, current);
      var restored := RestoreRelease(stack.service, state, health, at);
      if !restored {
        return Fail(d, "rollback_failed", false, current.id);
      }
      var committed := Commit(state, at.renamed, at.synced);
      if !committed {
        return Fail(d, "rollback_failed", false, current.id);
      }
      r := Fail(d, originalError, true, current.id);
    }

    // Applies the earlier release again and waits for it to be healthy.
    method RestoreRelease(service: string, state: State, health: Health, at: Attempt) returns (ok: bool)
      modifies this`effects
      ensures effects == old(effects) + UpLog(at, service, state.current, health)
      ensures ok <==> at.written && ListsService(at.config, service) && at.applied && Verdict(at.polls, health).Healthy?
    {
      if !at.written {
        return false;
      }
      var valid := ValidateComposeService(at.config, service);
      if !valid {
        return false;
      }
      var applied := ApplyDeploymentOverride(state, at.applied);
      if !applied {
        return false;
      }
      ok := VerifyDeploymentHealth(at.polls, health);
    }

    method ExecuteApprovedDeployment(stack: Stack, health: Health, d: Definition, stored: Option<State>, a: Answers)
      returns (r: Result, ghost before: Option<Release>)
      requires file == stored && effects == [] && d.stackKey == stack.key
      modifies this
      ensures AsAnswered(stack, health, d, stored, a, r, file, effects)
      ensures Honest(stack, health, d, stored, r, file, effects, before)
      ensures Logged(stored, Renames(stack, d, stored, before))
    {
      ThreeSteps(PrepareSteps(a.preparation, stack.service, stored));
      before := None;
      var valid := ValidateComposeService(a.preparation.config, stack.service);
      if !valid {
        return Fail(d, "preflight_failed", false, d.currentReleaseId), None;
      }
      var prepared := EnsureImmutableImage(a.preparation);
      if !prepared {
        return Fail(d, "image_prepare_failed", false, d.currentReleaseId), None;
      }
      var current: Release;
      if stored.None? {
        var discovered := DiscoverCurrentRelease(a.preparation.found);
        if discovered.None? {
          return Fail(d, "current_release_unknown", false, d.currentReleaseId), None;
        }
        current := discovered.value;
      } else {
        current := stored.value.current;
      }
      before := Some(current);
      if SameDigest(current.image, d.image) {
        r := ConfirmRunningRelease(stack, health, d, stored, current, a.forward);
        ConfirmedIsHonest(stack, health, d, stored, current, a.forward, r, file, effects);
        ConfirmedAnswers(stack, health, d, stored, current, a, r, file, effects);
        return;
      }
      r := ReplaceRunningRelease(stack, health, d, stored, current, a.forward, a.recovery);
      ReplacedIsLogged(stack, health, d, stored, current, a.forward, a.recovery, r, file, effects);
      ReplacedIsHonest(stack, health, d, stored, current, a.forward, a.recovery, r, file, effects);
      ReplacedAnswers(stack, health, d, stored, current, a, r, file, effects);
    }

    // The branch that changes the service and falls back on any failure.
    method ReplaceRunningRelease(stack: Stack, health: Health, d: Definition, stored: Option<State>, current: Release,
                                 at: Attempt, recovery: Attempt)
      returns (r: Result)
      requires file == stored && effects == []
      modifies this
      ensures Replaced(stack, health, d, stored, current, at, recovery, r, file, effects)
    {
      var next := State(stack.key, Target(d), current);
      var error, touched := TryRelease(stack.service, health, next, at);
      if error == "" {
        return Success(d, stack, current.id, false);
      }
      if !touched {
        return Fail(d, error, false, current.id);
      }
      r := RollbackFailedDeployment(stack, health, d, stored, current, error, recovery);
    }

    // The forward path up to the first step that fails.
    method TryRelease(service: string, health: Health, next: State, at: Attempt) returns (error: string, touched: bool)
      modifies this
      ensures error == AttemptError(at, service, health) && touched == Reaches(at, service)
      ensures file == if Moves(at, service, health) then Some(next) else old(file)
      ensures effects == old(effects) + AttemptLog(at, service, next, health)
    {
      if !at.written {
        return "state_prepare_failed", false;
      }
      var valid := ValidateComposeService(at.config, service);
      if !valid {
        return "preflight_failed", false;
      }
      var applied := ApplyDeploymentOverride(next, at.applied);
      if !applied {
        return "compose_apply_failed", true;
      }
      var healthy := VerifyDeploymentHealth(at.polls, health);
      if !healthy {
        return "health_verification_failed", true;
      }
      var committed := Commit(next, at.renamed, at.synced);
      if !committed {
        return "state_commit_failed", true;
      }
      return "", true;
    }

    // The branch for a release that already runs under the same digest.
    method ConfirmRunningRelease(stack: Stack, health: Health, d: Definition, stored: Option<State>, current: Release, at: Attempt)
      returns (r: Result)
      requires file == stored && effects == []
      modifies this
      ensures ConfirmedRunning(stack, health, d, stored, current, at, r, file, effects)
    {
      var healthy := VerifyDeploymentHealth(at.polls, health);
      if !healthy {
        return Fail(d, "health_verification_failed", false, current.id);
      }
      var state := State(stack.key, Target(d), NO_RELEASE);
      if !at.written {
        return Fail(d, "state_commit_failed", false, current.id);
      }
      var committed := Commit(state, at.renamed, at.synced);
      if !committed {
        return Fail(d, "state_commit_failed", false, current.id);
      }
      r := Success(d, stack, current.id, true);
    }
  }

  // ---- The two branches in terms of the answers ----

  // The log of an attempt up to its health verdict.
  function UpLog(at: Attempt, service: string, release: Release, health: Health): seq<Effect> {
    if !Reaches(at, service) then []
    else if !at.applied then [Up(release, false)]
    else [Up(release, true), Verdict(at.polls, health)]
  }

  function AttemptLog(at: Attempt, service: string, state: State, health: Health): seq<Effect> {
    UpLog(at, service, state.current, health) + if Moves(at, service, health) then [Renamed(state)] else []
  }

  ghost predicate Replaced(stack: Stack, health: Health, d: Definition, stored: Option<State>, current: Release,
                           at: Attempt, recovery: Attempt, r: Result, file: Option<State>, effects: seq<Effect>)
  {
    var error := AttemptError(at, stack.service, health);
    var next, back := State(stack.key, Target(d), current), RollbackState(stack, stored, current);
    var touched := Reaches(at, stack.service);
    && r == (if error == "" then Success(d, stack, current.id, false)
             else if !touched then Fail(d, error, false, current.id)
             else if AttemptError(recovery, stack.service, health) == "" then Fail(d, error, true, current.id)
             else Fail(d, "rollback_failed", false, current.id))
    && file == (if error != "" && touched && Moves(recovery, stack.service, health) then Some(back)
                else if Moves(at, stack.service, health) then Some(next)
                else stored)
    && effects == AttemptLog(at, stack.service, next, health)
                  + if error != "" && touched then AttemptLog(recovery, stack.service, back, health) else []
  }

  ghost predicate ConfirmedRunning(stack: Stack, health: Health, d: Definition, stored: Option<State>, current: Release,
                                   at: Attempt, r: Result, file: Option<State>, effects: seq<Effect>)
  {
    var verdict := Verdict(at.polls, health);
    var alone := State(stack.key, Target(d), NO_RELEASE);
    var moved := verdict.Healthy? && at.written && at.renamed;
    && r == (if !verdict.Healthy? then Fail(d, "health_verification_failed", false, current.id)
             else if !at.written || !Committed(at) then Fail(d, "state_commit_failed", false, current.id)
             else Success(d, stack, current.id, true))
    && file == (if moved then Some(alone) else stored)
    && effects == [verdict] + if moved then [Renamed(alone)] else []
  }

  lemma UpsOfAttempt(at: Attempt, service: string, state: State, health: Health)
    ensures Ups(AttemptLog(at, service, state, health)) ==
            if Reaches(at, service) then [Up(state.current, at.applied)] else []
  {
    var up, verdict := [Up(state.current, true)], [Verdict(at.polls, health)];
    assert up + verdict == [Up(state.current, true), Verdict(at.polls, health)];
    UpsAppend(up, verdict);
    UpsAppend(UpLog(at, service, state.current, health), [Renamed(state)]);
    assert UpLog(at, service, state.current, health) + [] == UpLog(at, service, state.current, health);
  }

  // An attempt appends to the log, and the file follows.
  lemma AttemptLogged(stored: Option<State>, start: seq<Effect>, at: Attempt, service: string, state: State, health: Health, allowed: set<State>)
    requires OnlyRenames(start, allowed) && state in allowed
    ensures var effects := start + AttemptLog(at, service, state, health);
      && OnlyRenames(effects, allowed)
      && FileAfter(stored, effects) == (if Moves(at, service, health) then Some(state) else FileAfter(stored, start))
      && (Touched(effects) <==> Touched(start) || Reaches(at, service))
  {
    var up := UpLog(at, service, state.current, health);
    AppendedAll(stored, start, up, allowed);
    assert Touched(start + up) <==> Touched(start) || Reaches(at, service) by {
      TouchedAppend(start, up);
      assert Reaches(at, service) ==> up[0].Up?;
    }
    var effects := start + AttemptLog(at, service, state, health);
    if Moves(at, service, health) {
      Appended(stored, start + up, Renamed(state), allowed);
      TouchedAppend(start + up, [Renamed(state)]);
      assert effects == start + up + [Renamed(state)];
    } else {
      assert effects == start + up;
    }
  }

  lemma TouchedAppend(a: seq<Effect>, b: seq<Effect>)
    ensures Touched(a + b) <==> Touched(a) || Touched(b)
  {
    if Touched(a) {
      var i :| 0 <= i < |a| && a[i].Up?;
      assert (a + b)[i].Up?;
    }
    if Touched(b) {
      var i :| 0 <= i < |b| && b[i].Up?;
      assert (a + b)[|a| + i].Up?;
    }
  }

  // After an attempt in which every step passed the service is confirmed.
  lemma AttemptConfirms(start: seq<Effect>, at: Attempt, service: string, state: State, health: Health)
    requires AttemptError(at, service, health) == ""
    ensures var effects := start + AttemptLog(at, service, state, health);
            LastUp(effects) == Some(Up(state.current, true)) && ConfirmedHealthy(effects, health)
  {
    var verdict := Verdict(at.polls, health);
    AfterConfirmation(start, Up(state.current, true), verdict, state, health);
    assert start + AttemptLog(at, service, state, health) == start + [Up(state.current, true), verdict, Renamed(state)];
  }

  // Two attempts one after the other.
  lemma AttemptsLogged(stored: Option<State>, at: Attempt, next: State, recovery: Attempt, back: State, again: bool,
                       service: string, health: Health, effects: seq<Effect>, allowed: set<State>)
    requires next in allowed && back in allowed && (again ==> Reaches(at, service))
    requires effects == AttemptLog(at, service, next, health) + if again then AttemptLog(recovery, service, back, health) else []
    ensures FileAfter(stored, effects) ==
            if again && Moves(recovery, service, health) then Some(back) else if Moves(at, service, health) then Some(next) else stored
    ensures OnlyRenames(effects, allowed) && (Touched(effects) <==> Reaches(at, service))
  {
    var forward := AttemptLog(at, service, next, health);
    AttemptLogged(stored, [], at, service, next, health, allowed);
    assert [] + forward == forward && forward + [] == forward;
    AttemptLogged(stored, forward, recovery, service, back, health, allowed);
  }

  lemma UpsOfAttempts(at: Attempt, next: State, recovery: Attempt, back: State, service: string, health: Health)
    ensures Ups(AttemptLog(at, service, next, health) + AttemptLog(recovery, service, back, health)) ==
            (if Reaches(at, service) then [Up(next.current, at.applied)] else [])
            + (if Reaches(recovery, service) then [Up(back.current, recovery.applied)] else [])
  {
    UpsOfAttempt(at, service, next, health);
    UpsOfAttempt(recovery, service, back, health);
    UpsAppend(AttemptLog(at, service, next, health), AttemptLog(recovery, service, back, health));
  }

  lemma ReplacedIsLogged(stack: Stack, health: Health, d: Definition, stored: Option<State>, current: Release,
                         at: Attempt, recovery: Attempt, r: Result, file: Option<State>, effects: seq<Effect>)
    requires Replaced(stack, health, d, stored, current, at, recovery, r, file, effects) && !SameDigest(current.image, d.image)
    ensures file == FileAfter(stored, effects) && OnlyRenames(effects, Renames(stack, d, stored, Some(current)))
    ensures Touched(effects) <==> Reaches(at, stack.service)
    ensures Ups(effects) ==
            (if Reaches(at, stack.service) then [Up(Target(d), at.applied)] else [])
            + (if Reaches(at, stack.service) && AttemptError(at, stack.service, health) != "" && Reaches(recovery, stack.service)
               then [Up(RollbackState(stack, stored, current).current, recovery.applied)] else [])
  {
    var next, back := State(stack.key, Target(d), current), RollbackState(stack, stored, current);
    var again := AttemptError(at, stack.service, health) != "" && Reaches(at, stack.service);
    AttemptsLogged(stored, at, next, recovery, back, again, stack.service, health, effects, Renames(stack, d, stored, Some(current)));
    UpsOfAttempt(at, stack.service, next, health);
    UpsOfAttempts(at, next, recovery, back, stack.service, health);
    assert AttemptLog(at, stack.service, next, health) + [] == AttemptLog(at, stack.service, next, health);
  }

  lemma ReplacedIsHonest(stack: Stack, health: Health, d: Definition, stored: Option<State>, current: Release,
                         at: Attempt, recovery: Attempt, r: Result, file: Option<State>, effects: seq<Effect>)
    requires Replaced(stack, health, d, stored, current, at, recovery, r, file, effects)
    requires BeforeOk(stored, current) && !SameDigest(current.image, d.image)
    ensures Honest(stack, health, d, stored, r, file, effects, Some(current))
  {
    ReplacedIsLogged(stack, health, d, stored, current, at, recovery, r, file, effects);
    var next, back := State(stack.key, Target(d), current), RollbackState(stack, stored, current);
    var error := AttemptError(at, stack.service, health);
    var forward := AttemptLog(at, stack.service, next, health);
    if error == "" {
      AttemptConfirms([], at, stack.service, next, health);
      assert effects == [] + forward;
    } else if !Reaches(at, stack.service) {
      assert error in BEFORE_UP;
    } else if AttemptError(recovery, stack.service, health) == "" {
      AttemptConfirms(forward, recovery, stack.service, back, health);
      assert error in AFTER_UP;
    }
  }

  // The release that runs before the operation, once the preparation passed.
  predicate Known(stack: Stack, stored: Option<State>, a: Answers, current: Release) {
    && FirstFailure(PrepareSteps(a.preparation, stack.service, stored)) == ""
    && match stored
       case Some(state) => current == state.current
       case None => a.preparation.found.Some?
                    && current == Release("external", "部署前版本", Image(a.preparation.found.value.0, a.preparation.found.value.1))
  }

  lemma ReplacedAnswers(stack: Stack, health: Health, d: Definition, stored: Option<State>, current: Release,
                        a: Answers, r: Result, file: Option<State>, effects: seq<Effect>)
    requires Replaced(stack, health, d, stored, current, a.forward, a.recovery, r, file, effects)
    requires Known(stack, stored, a, current) && !SameDigest(current.image, d.image) && d.stackKey == stack.key
    ensures AsAnswered(stack, health, d, stored, a, r, file, effects)
  {
    StepsUnfold(a.forward, stack.service, health);
    StepsUnfold(a.recovery, stack.service, health);
    ReplacedIsLogged(stack, health, d, stored, current, a.forward, a.recovery, r, file, effects);
  }

  lemma ConfirmedAnswers(stack: Stack, health: Health, d: Definition, stored: Option<State>, current: Release,
                         a: Answers, r: Result, file: Option<State>, effects: seq<Effect>)
    requires ConfirmedRunning(stack, health, d, stored, current, a.forward, r, file, effects)
    requires Known(stack, stored, a, current) && SameDigest(current.image, d.image) && d.stackKey == stack.key && Ups(effects) == []
    ensures AsAnswered(stack, health, d, stored, a, r, file, effects)
  {
    ThreeSteps(ConfirmSteps(a.forward, health));
  }

  lemma ConfirmedIsHonest(stack: Stack, health: Health, d: Definition, stored: Option<State>, current: Release,
                          at: Attempt, r: Result, file: Option<State>, effects: seq<Effect>)
    requires ConfirmedRunning(stack, health, d, stored, current, at, r, file, effects)
    requires BeforeOk(stored, current) && SameDigest(current.image, d.image)
    ensures Honest(stack, health, d, stored, r, file, effects, Some(current))
    ensures file == FileAfter(stored, effects) && OnlyRenames(effects, Renames(stack, d, stored, Some(current)))
    ensures Ups(effects) == []
  {
    var verdict, alone := Verdict(at.polls, health), State(stack.key, Target(d), NO_RELEASE);
    FileAfterSnoc(stored, [], verdict);
    FileAfterSnoc(stored, [verdict], Renamed(alone));
    UpsAppend([verdict], [Renamed(alone)]);
    assert [verdict] + [] == [verdict] && [] + [verdict] == [verdict];
    assert ([verdict] + [Renamed(alone)])[..1] == [verdict];
    assert ConfirmedHealthy([verdict], health) <==> verdict.Healthy?;
  }

  // An `up`, a passed verdict and a rename leave the service confirmed.
  lemma AfterConfirmation(start: seq<Effect>, up: Effect, verdict: Effect, state: State, health: Health)
    requires up.Up? && verdict.Healthy? && Passes(verdict.poll, health)
    ensures var effects := start + [up, verdict, Renamed(state)];
            LastUp(effects) == Some(up) && ConfirmedHealthy(effects, health)
  {
    var effects := start + [up, verdict, Renamed(state)];
    var n := |start|;
    assert effects[..n + 2] == start + [up, verdict];
    assert (start + [up, verdict])[..n + 1] == start + [up];
    assert LastUp(start + [up]) == Some(up);
    assert LastUp(start + [up, verdict]) == Some(up);
    assert ConfirmedHealthy(start + [up, verdict], health);
  }
}
