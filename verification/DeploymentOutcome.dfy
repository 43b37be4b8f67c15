// When a deployment succeeds and when it is rolled back, over the bare answers of the environment.
module DeploymentOutcome {
  import opened Text
  import opened DeploymentPolicy
  import opened DeploymentExecutor

  predicate ListsLine(output: Option<string>, service: string) {
    output.Some? && exists line | line in Split(TrimSpace(output.value), '\n') :: TrimSpace(line) == service
  }

  predicate Answering(poll: Poll, health: Health) {
    && poll.container.Some? && poll.running.Some? && TrimSpace(poll.running.value) == "true"
    && (health.DockerHealth? ==> poll.health.Some? && TrimSpace(poll.health.value) == "healthy")
    && (health.HttpHealth? ==> poll.status.Some? && poll.status.value / 100 == 2)
  }

  // The service may have changed, and every step of an attempt passed.
  predicate Changes(at: Attempt, service: string) {
    at.written && ListsLine(at.config, service)
  }

  predicate Works(at: Attempt, service: string, health: Health) {
    && Changes(at, service) && at.applied
    && (exists poll | poll in at.polls :: Answering(poll, health))
    && at.renamed && at.synced
  }

  predicate Prepares(a: Answers, service: string, stored: Option<State>) {
    var p := a.preparation;
    && ListsLine(p.config, service)
    && (p.present || (p.pulled && p.presentAfterPull))
    && (stored.Some? || p.found.Some?)
  }

  lemma ListsMeans(output: Option<string>, service: string)
    ensures ListsService(output, service) <==> ListsLine(output, service)
  {
    if output.Some? {
      var lines := Split(TrimSpace(output.value), '\n');
      if line :| line in lines && TrimSpace(line) == service {
        var i :| 0 <= i < |lines| && lines[i] == line;
        assert TrimSpace(lines[i]) == service;
      }
    }
  }

  lemma VerdictMeans(polls: seq<Poll>, health: Health)
    ensures Verdict(polls, health).Healthy? <==> exists poll | poll in polls :: Answering(poll, health)
  {
    assert forall poll :: Passes(poll, health) <==> Answering(poll, health);
    if poll :| poll in polls && Answering(poll, health) {
      var i :| 0 <= i < |polls| && polls[i] == poll;
      assert Passes(polls[i], health);
    }
  }

  lemma AttemptMeans(at: Attempt, service: string, health: Health)
    ensures AttemptError(at, service, health) == "" <==> Works(at, service, health)
    ensures Reaches(at, service) <==> Changes(at, service)
  {
    ListsMeans(at.config, service);
    VerdictMeans(at.polls, health);
  }

  // A deployment that replaces the running release succeeds exactly when every
  // step passes, and reports a rollback exactly when it fails after the service
  // may have changed and every step of the recovery passes.
  lemma OutcomeMeans(stack: Stack, health: Health, d: Definition, stored: Option<State>, a: Answers,
                     r: Result, file: Option<State>, effects: seq<Effect>)
    requires AsAnswered(stack, health, d, stored, a, r, file, effects)
    requires stored.Some? ==> stored.value.current.image.Image?
    requires d.image.Image?
    ensures !Prepares(a, stack.service, stored) ==> !r.ok && !r.rollbackPerformed && effects == [] && file == stored
    ensures Prepares(a, stack.service, stored) ==>
      var running := if stored.Some? then stored.value.current.image.digest else a.preparation.found.value.1;
      var forward, recovery := a.forward, a.recovery;
      if running == d.image.digest then
        && (r.ok <==> (exists poll | poll in forward.polls :: Answering(poll, health)) && forward.written && forward.renamed && forward.synced)
        && !r.rollbackPerformed
      else
        && (r.ok <==> Works(forward, stack.service, health))
        && (r.rollbackPerformed <==>
              !Works(forward, stack.service, health) && Changes(forward, stack.service) && Works(recovery, stack.service, health))
  {
    ThreeSteps(PrepareSteps(a.preparation, stack.service, stored));
    ListsMeans(a.preparation.config, stack.service);
    ThreeSteps(ConfirmSteps(a.forward, health));
    VerdictMeans(a.forward.polls, health);
    StepsUnfold(a.forward, stack.service, health);
    StepsUnfold(a.recovery, stack.service, health);
    AttemptMeans(a.forward, stack.service, health);
    AttemptMeans(a.recovery, stack.service, health);
  }
}
