// The durable notification queue (internal/storage/notifications.go). Rows
// are appended and then only change state, so a position stands for a row id.
module Outbox {
  import opened Text
  import opened EventRules
  import opened EventTable

  datatype Transition = Opening | Recovery
  datatype DeliveryState = Pending | Sending | Delivered | Cancelled | Failed
  datatype Policy = Policy(channel: string, cooldown: nat)

  datatype Delivery = Delivery(
    event: nat,
    transition: Transition,
    channel: string,
    text: string,
    state: DeliveryState,
    attempts: nat,
    notBefore: int,
    nextAttempt: int,
    deliveredAt: Option<int>)

  // One (transition, policy) pair of a commit.
  datatype Job = Job(event: nat, transition: Transition, policy: Policy)

  predicate Terminal(d: Delivery) {
    d.state.Delivered? || d.state.Cancelled? || d.state.Failed?
  }

  predicate Same(d: Delivery, event: nat, transition: Transition, channel: string) {
    d.event == event && d.transition == transition && d.channel == channel
  }

  predicate HasRow(outbox: seq<Delivery>, event: nat, transition: Transition, channel: string) {
    exists i | 0 <= i < |outbox| :: Same(outbox[i], event, transition, channel)
  }

  predicate Cancellable(d: Delivery, event: nat, channel: string) {
    Same(d, event, Opening, channel) && d.state.Pending?
  }

  predicate Notified(d: Delivery, event: nat, channel: string) {
    Same(d, event, Opening, channel) && (d.state.Sending? || d.state.Delivered?)
  }

  // max(delivered_at) of earlier openings with the same key text on the channel.
  function LastDelivered(outbox: seq<Delivery>, channel: string, text: string): (last: Option<int>)
    ensures forall i {:trigger CoolsDown(outbox[i], channel, text)} | 0 <= i < |outbox| && CoolsDown(outbox[i], channel, text) ::
              last.Some? && outbox[i].deliveredAt.value <= last.value
    ensures last.Some? ==> exists i :: 0 <= i < |outbox| && CoolsDown(outbox[i], channel, text) && outbox[i].deliveredAt == last
  {
    if outbox == [] then None
    else
      var d := outbox[|outbox| - 1];
      var rest := LastDelivered(outbox[..|outbox| - 1], channel, text);
      if CoolsDown(d, channel, text) && (rest.None? || rest.value < d.deliveredAt.value) then d.deliveredAt else rest
  }

  predicate CoolsDown(d: Delivery, channel: string, text: string) {
    d.transition.Opening? && d.channel == channel && d.text == text
    && d.state.Delivered? && d.deliveredAt.Some?
  }

  function NotBefore(outbox: seq<Delivery>, policy: Policy, text: string, at: int): int {
    if policy.cooldown == 0 then at
    else match LastDelivered(outbox, policy.channel, text)
      case None => at
      case Some(last) => if last + policy.cooldown > at then last + policy.cooldown else at
  }

  function Cancel(outbox: seq<Delivery>, event: nat, channel: string): (after: seq<Delivery>)
    ensures |after| == |outbox|
  {
    seq(|outbox|, i requires 0 <= i < |outbox| =>
      if Cancellable(outbox[i], event, channel) then outbox[i].(state := Cancelled) else outbox[i])
  }

  function EnqueueOne(outbox: seq<Delivery>, events: seq<Event>, job: Job, at: int): seq<Delivery>
    requires job.event < |events|
  {
    var e := events[job.event];
    var channel := job.policy.channel;
    match job.transition
    case Opening =>
      var notBefore := NotBefore(outbox, job.policy, TextOf(e), at);
      Append(outbox, Delivery(job.event, Opening, channel, TextOf(e), Pending, 0, notBefore, notBefore, None))
    case Recovery =>
      if exists i | 0 <= i < |outbox| :: Cancellable(outbox[i], job.event, channel) then
        Cancel(outbox, job.event, channel)
      else if exists i | 0 <= i < |outbox| :: Notified(outbox[i], job.event, channel) then
        Append(outbox, Delivery(job.event, Recovery, channel, TextOf(e), Pending, 0, at, at, None))
      else outbox
  }

  // INSERT ... ON CONFLICT(event_id, transition, channel) DO NOTHING
  function Append(outbox: seq<Delivery>, d: Delivery): seq<Delivery> {
    if HasRow(outbox, d.event, d.transition, d.channel) then outbox else outbox + [d]
  }

  predicate JobsInRange(jobs: seq<Job>, events: seq<Event>) {
    forall i :: 0 <= i < |jobs| ==> jobs[i].event < |events|
  }

  function Enqueue(outbox: seq<Delivery>, events: seq<Event>, jobs: seq<Job>, at: int): seq<Delivery>
    requires JobsInRange(jobs, events)
  {
    if jobs == [] then outbox
    else EnqueueOne(Enqueue(outbox, events, jobs[..|jobs| - 1], at), events, jobs[|jobs| - 1], at)
  }

  function JobsFor(event: nat, transition: Transition, policies: seq<Policy>): (jobs: seq<Job>)
    ensures |jobs| == |policies|
  {
    seq(|policies|, i requires 0 <= i < |policies| => Job(event, transition, policies[i]))
  }

  function JobsOf(ids: seq<nat>, transition: Transition, policies: seq<Policy>): seq<Job> {
    if ids == [] then [] else JobsOf(ids[..|ids| - 1], transition, policies) + JobsFor(ids[|ids| - 1], transition, policies)
  }

  predicate DistinctChannels(policies: seq<Policy>) {
    forall i, j :: 0 <= i < j < |policies| ==> policies[i].channel != policies[j].channel
  }

  // ---- Claiming, delivering, retrying ----

  predicate Due(d: Delivery, channel: string, now: int) {
    d.channel == channel && (d.state.Pending? || d.state.Sending?) && d.nextAttempt <= now
  }

  // The row a claim takes: earliest next attempt, then lowest id.
  predicate FirstDue(outbox: seq<Delivery>, id: int, channel: string, now: int) {
    && 0 <= id < |outbox|
    && Due(outbox[id], channel, now)
    && forall j :: 0 <= j < |outbox| && Due(outbox[j], channel, now)
         ==> outbox[id].nextAttempt < outbox[j].nextAttempt || (outbox[id].nextAttempt == outbox[j].nextAttempt && id <= j)
  }

  function Claimed(outbox: seq<Delivery>, id: nat, leaseUntil: int): seq<Delivery>
    requires id < |outbox|
  {
    outbox[id := outbox[id].(state := Sending, attempts := outbox[id].attempts + 1, nextAttempt := leaseUntil)]
  }

  function MarkedDelivered(outbox: seq<Delivery>, id: nat, at: int): seq<Delivery>
    requires id < |outbox|
  {
    outbox[id := outbox[id].(state := Delivered, deliveredAt := Some(at), nextAttempt := at)]
  }

  function Retried(outbox: seq<Delivery>, id: nat, nextAttempt: int, terminal: bool): seq<Delivery>
    requires id < |outbox|
  {
    outbox[id := outbox[id].(state := if terminal then Failed else Pending, nextAttempt := nextAttempt)]
  }

  // ---- What the queue keeps ----

  ghost predicate OneRowEach(outbox: seq<Delivery>) {
    forall i, j :: 0 <= i < j < |outbox| ==> !Same(outbox[j], outbox[i].event, outbox[i].transition, outbox[i].channel)
  }

  predicate DeliveryOk(d: Delivery, events: seq<Event>) {
    && d.event < |events|
    && d.text == TextOf(events[d.event])
    && d.nextAttempt >= d.notBefore
    && (d.state.Delivered? <==> d.deliveredAt.Some?)
    && (d.deliveredAt.Some? ==> d.deliveredAt.value >= d.notBefore)
    && (d.state.Sending? || d.state.Delivered? || d.state.Failed? ==> d.attempts >= 1)
    && (d.state.Cancelled? ==> d.transition.Opening?)
    && (d.state.Cancelled? || d.transition.Recovery? ==> events[d.event].state.Resolved?)
  }

  // The opening behind a recovery message: attempted at least once and never
  // cancelled.
  predicate Backs(d: Delivery, recovery: Delivery) {
    Same(d, recovery.event, Opening, recovery.channel) && d.attempts >= 1 && !d.state.Cancelled?
  }

  ghost predicate RecoveriesBacked(outbox: seq<Delivery>) {
    forall i :: 0 <= i < |outbox| && outbox[i].transition.Recovery?
      ==> exists j :: 0 <= j < |outbox| && Backs(outbox[j], outbox[i])
  }

  ghost predicate OutboxOk(outbox: seq<Delivery>, events: seq<Event>) {
    && OneRowEach(outbox)
    && RecoveriesBacked(outbox)
    && forall i {:trigger DeliveryOk(outbox[i], events)} :: 0 <= i < |outbox| ==> DeliveryOk(outbox[i], events)
  }

  // The queue only cares which event a row stands for and whether it is resolved.
  lemma QueueFollowsTable(outbox: seq<Delivery>, before: seq<Event>, after: seq<Event>)
    requires OutboxOk(outbox, before) && |before| <= |after|
    requires forall i :: 0 <= i < |before| ==>
      after[i].host == before[i].host && after[i].key == before[i].key && (before[i].state.Resolved? ==> after[i].state.Resolved?)
    ensures OutboxOk(outbox, after)
  {
    forall i | 0 <= i < |outbox| ensures DeliveryOk(outbox[i], after) {
      assert DeliveryOk(outbox[i], before);
    }
  }

  // A cancelled opening is never followed by a recovery message.
  lemma CancelledStaysSilent(outbox: seq<Delivery>, events: seq<Event>, i: nat, j: nat)
    requires OutboxOk(outbox, events) && i < |outbox| && j < |outbox|
    requires outbox[i].state.Cancelled? && outbox[j].transition.Recovery?
    ensures !(outbox[i].event == outbox[j].event && outbox[i].channel == outbox[j].channel)
  {
    assert DeliveryOk(outbox[i], events);
    var k :| 0 <= k < |outbox| && Backs(outbox[k], outbox[j]);
    assert k != i;
    assert !Same(outbox[k], outbox[i].event, outbox[i].transition, outbox[i].channel);
  }

  // The pair a recovery job is about has not recovered before.
  predicate Untold(outbox: seq<Delivery>, event: nat, channel: string) {
    forall i :: 0 <= i < |outbox| && outbox[i].event == event && outbox[i].channel == channel
      ==> outbox[i].transition.Opening? && !outbox[i].state.Cancelled?
  }

  ghost predicate JobOk(job: Job, outbox: seq<Delivery>, events: seq<Event>) {
    && job.event < |events|
    && (job.transition.Recovery? ==> events[job.event].state.Resolved? && Untold(outbox, job.event, job.policy.channel))
  }

  lemma EnqueueOneKeeps(outbox: seq<Delivery>, events: seq<Event>, job: Job, at: int)
    requires OutboxOk(outbox, events) && JobOk(job, outbox, events)
    ensures OutboxOk(EnqueueOne(outbox, events, job, at), events)
    ensures Evolves(outbox, EnqueueOne(outbox, events, job, at))
  {
    if job.transition.Opening? {
      EnqueueOpeningKeeps(outbox, events, job, at);
    } else {
      EnqueueRecoveryKeeps(outbox, events, job, at);
    }
  }

  lemma EnqueueOpeningKeeps(outbox: seq<Delivery>, events: seq<Event>, job: Job, at: int)
    requires OutboxOk(outbox, events) && job.event < |events| && job.transition.Opening?
    ensures OutboxOk(EnqueueOne(outbox, events, job, at), events)
    ensures Evolves(outbox, EnqueueOne(outbox, events, job, at))
  {
    var e, channel := events[job.event], job.policy.channel;
    var notBefore := NotBefore(outbox, job.policy, TextOf(e), at);
    AppendKeeps(outbox, events, Delivery(job.event, Opening, channel, TextOf(e), Pending, 0, notBefore, notBefore, None));
  }

  lemma EnqueueRecoveryKeeps(outbox: seq<Delivery>, events: seq<Event>, job: Job, at: int)
    requires OutboxOk(outbox, events) && JobOk(job, outbox, events) && job.transition.Recovery?
    ensures OutboxOk(EnqueueOne(outbox, events, job, at), events)
    ensures Evolves(outbox, EnqueueOne(outbox, events, job, at))
  {
    var e, channel := events[job.event], job.policy.channel;
    if exists i | 0 <= i < |outbox| :: Cancellable(outbox[i], job.event, channel) {
      CancelKeeps(outbox, events, job.event, channel);
    } else if exists i | 0 <= i < |outbox| :: Notified(outbox[i], job.event, channel) {
      AnnounceKeeps(outbox, events, Delivery(job.event, Recovery, channel, TextOf(e), Pending, 0, at, at, None));
    }
  }

  // A recovery may be announced once its opening was sent or is being sent.
  lemma AnnounceKeeps(outbox: seq<Delivery>, events: seq<Event>, d: Delivery)
    requires OutboxOk(outbox, events) && DeliveryOk(d, events) && d.transition.Recovery?
    requires exists i :: 0 <= i < |outbox| && Notified(outbox[i], d.event, d.channel)
    ensures OutboxOk(Append(outbox, d), events) && Evolves(outbox, Append(outbox, d))
  {
    var i :| 0 <= i < |outbox| && Notified(outbox[i], d.event, d.channel);
    assert DeliveryOk(outbox[i], events);
    assert Backs(outbox[i], d);
    AppendKeeps(outbox, events, d);
  }

  lemma AppendKeeps(outbox: seq<Delivery>, events: seq<Event>, d: Delivery)
    requires OutboxOk(outbox, events) && DeliveryOk(d, events)
    requires d.transition.Recovery? ==> exists j :: 0 <= j < |outbox| && Backs(outbox[j], d)
    ensures OutboxOk(Append(outbox, d), events) && Evolves(outbox, Append(outbox, d))
  {
    var after := outbox + [d];
    if !HasRow(outbox, d.event, d.transition, d.channel) {
      forall i, j | 0 <= i < j < |after| ensures !Same(after[j], after[i].event, after[i].transition, after[i].channel) {
        if j < |outbox| {
          assert !Same(outbox[j], outbox[i].event, outbox[i].transition, outbox[i].channel);
        } else {
          assert !Same(outbox[i], d.event, d.transition, d.channel);
        }
      }
      forall i | 0 <= i < |after| && after[i].transition.Recovery?
        ensures exists j :: 0 <= j < |after| && Backs(after[j], after[i])
      {
        var j :| 0 <= j < |outbox| && Backs(outbox[j], after[i]);
        assert Backs(after[j], after[i]);
      }
    }
  }

  lemma CancelKeepsBacking(outbox: seq<Delivery>, events: seq<Event>, event: nat, channel: string)
    requires RecoveriesBacked(outbox) && Untold(outbox, event, channel)
    ensures RecoveriesBacked(Cancel(outbox, event, channel))
  {
    var after := Cancel(outbox, event, channel);
    forall i | 0 <= i < |after| && after[i].transition.Recovery?
      ensures exists j :: 0 <= j < |after| && Backs(after[j], after[i])
    {
      assert after[i] == outbox[i];
      var j :| 0 <= j < |outbox| && Backs(outbox[j], outbox[i]);
      assert !Cancellable(outbox[j], event, channel);
      assert Backs(after[j], after[i]);
    }
  }

  lemma CancelKeeps(outbox: seq<Delivery>, events: seq<Event>, event: nat, channel: string)
    requires OutboxOk(outbox, events) && event < |events| && events[event].state.Resolved?
    requires Untold(outbox, event, channel)
    ensures OutboxOk(Cancel(outbox, event, channel), events) && Evolves(outbox, Cancel(outbox, event, channel))
  {
    CancelKeepsBacking(outbox, events, event, channel);
    var after := Cancel(outbox, event, channel);
    forall i | 0 <= i < |after| ensures DeliveryOk(after[i], events) {
      assert DeliveryOk(outbox[i], events);
    }
  }

  // What any later queue keeps of an earlier one.
  ghost predicate Evolves(before: seq<Delivery>, after: seq<Delivery>) {
    && |before| <= |after|
    && forall i :: 0 <= i < |before| ==> RowEvolves(before[i], after[i])
  }

  predicate RowEvolves(d: Delivery, d': Delivery) {
    && Same(d', d.event, d.transition, d.channel)
    && d'.text == d.text && d'.notBefore == d.notBefore
    && d.attempts <= d'.attempts
    && (Terminal(d) ==> d' == d)
  }

  // Other pairs are left alone by a job.
  lemma EnqueueOneLeavesOthers(outbox: seq<Delivery>, events: seq<Event>, job: Job, at: int, event: nat, channel: string)
    requires job.event < |events| && Untold(outbox, event, channel)
    requires job.event != event || job.policy.channel != channel
    ensures Untold(EnqueueOne(outbox, events, job, at), event, channel)
  {
  }

  predicate NotAmong(jobs: seq<Job>, event: nat, channel: string) {
    forall i :: 0 <= i < |jobs| ==> jobs[i].event != event || jobs[i].policy.channel != channel
  }

  predicate DistinctJobs(jobs: seq<Job>) {
    forall i, j :: 0 <= i < j < |jobs| ==> jobs[i].event != jobs[j].event || jobs[i].policy.channel != jobs[j].policy.channel
  }

  lemma {:induction false} EnqueueKeeps(outbox: seq<Delivery>, events: seq<Event>, jobs: seq<Job>, at: int)
    requires OutboxOk(outbox, events) && DistinctJobs(jobs) && JobsInRange(jobs, events)
    requires forall i :: 0 <= i < |jobs| ==> JobOk(jobs[i], outbox, events)
    ensures OutboxOk(Enqueue(outbox, events, jobs, at), events)
    ensures Evolves(outbox, Enqueue(outbox, events, jobs, at))
    ensures forall e: nat, c | Untold(outbox, e, c) && NotAmong(jobs, e, c) :: Untold(Enqueue(outbox, events, jobs, at), e, c)
  {
    if jobs != [] {
      var n := |jobs| - 1;
      var before := Enqueue(outbox, events, jobs[..n], at);
      EnqueueKeeps(outbox, events, jobs[..n], at);
      EnqueueOneKeeps(before, events, jobs[n], at);
      forall e: nat, c | Untold(outbox, e, c) && NotAmong(jobs, e, c)
        ensures Untold(Enqueue(outbox, events, jobs, at), e, c)
      {
        assert NotAmong(jobs[..n], e, c) && !(jobs[n].event == e && jobs[n].policy.channel == c);
        EnqueueOneLeavesOthers(before, events, jobs[n], at, e, c);
      }
    }
  }

  // Jobs of distinct events and channels are distinct.
  lemma {:induction false} JobsOfMembers(ids: seq<nat>, transition: Transition, policies: seq<Policy>)
    ensures forall job :: job in JobsOf(ids, transition, policies) <==> job.event in ids && job.transition == transition && job.policy in policies
  {
    if ids != [] {
      var n := |ids| - 1;
      JobsOfMembers(ids[..n], transition, policies);
      forall job ensures job in JobsFor(ids[n], transition, policies) <==> job.event == ids[n] && job.transition == transition && job.policy in policies {
        if job.event == ids[n] && job.transition == transition && job.policy in policies {
          var i :| 0 <= i < |policies| && policies[i] == job.policy;
          assert JobsFor(ids[n], transition, policies)[i] == job;
        }
      }
      assert ids == ids[..n] + [ids[n]];
    }
  }

  lemma {:induction false} JobsOfDistinct(ids: seq<nat>, transition: Transition, policies: seq<Policy>)
    requires DistinctChannels(policies)
    requires forall i, j :: 0 <= i < j < |ids| ==> ids[i] != ids[j]
    ensures DistinctJobs(JobsOf(ids, transition, policies))
  {
    if ids != [] {
      var n := |ids| - 1;
      JobsOfDistinct(ids[..n], transition, policies);
      JobsOfMembers(ids[..n], transition, policies);
      var front := JobsOf(ids[..n], transition, policies);
      var jobs := JobsOf(ids, transition, policies);
      forall i, j | 0 <= i < j < |jobs|
        ensures jobs[i].event != jobs[j].event || jobs[i].policy.channel != jobs[j].policy.channel
      {
        if i < |front| {
          assert jobs[i] in front;
        }
      }
    }
  }
}
