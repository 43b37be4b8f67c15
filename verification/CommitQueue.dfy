// What one commit leaves in the notification queue (internal/storage/notifications.go), row by row.
module CommitQueue {
  import opened Text
  import opened Telemetry
  import opened EventRules
  import opened EventTable
  import opened Outbox
  import opened Database

  // An earlier delivery the cooldown is counted from.
  predicate Earlier(d: Delivery, channel: string, text: string) {
    d.transition.Opening? && d.channel == channel && d.text == text && d.state.Delivered? && d.deliveredAt.Some?
  }

  // The later of the observation and the latest such delivery plus cooldown.
  ghost predicate Waits(outbox: seq<Delivery>, text: string, policy: Policy, at: int, notBefore: int) {
    && at <= notBefore
    && (policy.cooldown == 0 ==> notBefore == at)
    && (policy.cooldown > 0 ==> forall i :: 0 <= i < |outbox| && Earlier(outbox[i], policy.channel, text) ==>
         outbox[i].deliveredAt.value + policy.cooldown <= notBefore)
    && (notBefore == at || exists i :: CooledFrom(outbox, i, text, policy, notBefore))
  }

  predicate CooledFrom(outbox: seq<Delivery>, i: int, text: string, policy: Policy, notBefore: int) {
    && 0 <= i < |outbox| && Earlier(outbox[i], policy.channel, text)
    && notBefore == outbox[i].deliveredAt.value + policy.cooldown
  }

  ghost predicate OpeningRow(d: Delivery, event: nat, text: string, policy: Policy, at: int, outbox: seq<Delivery>) {
    && d == Delivery(event, Opening, policy.channel, text, Pending, 0, d.notBefore, d.notBefore, None)
    && Waits(outbox, text, policy, at, d.notBefore)
  }

  predicate RecoveryRow(d: Delivery, event: nat, text: string, channel: string, at: int) {
    d == Delivery(event, Recovery, channel, text, Pending, 0, at, at, None)
  }

  // The opening of an event on a channel is still unsent, or is out.
  predicate Unsent(d: Delivery, event: nat, channel: string) {
    d.event == event && d.transition.Opening? && d.channel == channel && d.state.Pending?
  }

  predicate SentOut(d: Delivery, event: nat, channel: string) {
    d.event == event && d.transition.Opening? && d.channel == channel && (d.state.Sending? || d.state.Delivered?)
  }

  ghost predicate HasUnsent(outbox: seq<Delivery>, event: nat, channel: string) {
    exists i :: 0 <= i < |outbox| && Unsent(outbox[i], event, channel)
  }

  ghost predicate HasSentOut(outbox: seq<Delivery>, event: nat, channel: string) {
    exists i :: 0 <= i < |outbox| && SentOut(outbox[i], event, channel)
  }

  // ---- One job after another ----

  ghost predicate Announces(outbox: seq<Delivery>, event: nat, channel: string) {
    HasSentOut(outbox, event, channel) && !HasUnsent(outbox, event, channel)
  }

  ghost predicate NeedsRow(job: Job, outbox: seq<Delivery>) {
    job.transition.Opening? || Announces(outbox, job.event, job.policy.channel)
  }

  ghost predicate MadeBy(d: Delivery, job: Job, outbox: seq<Delivery>, events: seq<Event>, at: int)
    requires job.event < |events|
  {
    && NeedsRow(job, outbox)
    && match job.transition
       case Opening => OpeningRow(d, job.event, TextOf(events[job.event]), job.policy, at, outbox)
       case Recovery => RecoveryRow(d, job.event, TextOf(events[job.event]), job.policy.channel, at)
  }

  ghost predicate CancelledBy(jobs: seq<Job>, d: Delivery) {
    exists k :: 0 <= k < |jobs| && jobs[k].transition.Recovery? && Unsent(d, jobs[k].event, jobs[k].policy.channel)
  }

  ghost predicate OldRows(outbox: seq<Delivery>, after: seq<Delivery>, jobs: seq<Job>) {
    && |outbox| <= |after|
    && forall i :: 0 <= i < |outbox| ==>
         after[i] == if CancelledBy(jobs, outbox[i]) then outbox[i].(state := Cancelled) else outbox[i]
  }

  ghost predicate NewRowsFrom(outbox: seq<Delivery>, after: seq<Delivery>, jobs: seq<Job>, events: seq<Event>, at: int)
    requires JobsInRange(jobs, events)
  {
    forall j :: |outbox| <= j < |after| ==> MadeByOne(after[j], jobs, outbox, events, at)
  }

  ghost predicate MadeByOne(d: Delivery, jobs: seq<Job>, outbox: seq<Delivery>, events: seq<Event>, at: int)
    requires JobsInRange(jobs, events)
  {
    exists k :: 0 <= k < |jobs| && MadeBy(d, jobs[k], outbox, events, at)
  }

  ghost predicate AllMade(outbox: seq<Delivery>, after: seq<Delivery>, jobs: seq<Job>, events: seq<Event>, at: int)
    requires JobsInRange(jobs, events)
  {
    forall k :: 0 <= k < |jobs| && NeedsRow(jobs[k], outbox) ==> Made(outbox, after, jobs[k], events, at)
  }

  ghost predicate Made(outbox: seq<Delivery>, after: seq<Delivery>, job: Job, events: seq<Event>, at: int)
    requires job.event < |events|
  {
    exists j :: |outbox| <= j < |after| && MadeBy(after[j], job, outbox, events, at)
  }

  ghost predicate Queued(outbox: seq<Delivery>, after: seq<Delivery>, jobs: seq<Job>, events: seq<Event>, at: int)
    requires JobsInRange(jobs, events)
  {
    OldRows(outbox, after, jobs) && NewRowsFrom(outbox, after, jobs, events, at) && AllMade(outbox, after, jobs, events, at)
  }

  // What a job may rely on: an opening is for an event without rows.
  ghost predicate JobFits(job: Job, outbox: seq<Delivery>, events: seq<Event>) {
    && JobOk(job, outbox, events)
    && (job.transition.Opening? ==> forall i :: 0 <= i < |outbox| ==> outbox[i].event != job.event)
  }

  // Rows made for other jobs are about another pair of event and channel.
  lemma OthersElsewhere(outbox: seq<Delivery>, after: seq<Delivery>, jobs: seq<Job>, job: Job, events: seq<Event>, at: int, j: nat)
    requires JobsInRange(jobs, events) && Queued(outbox, after, jobs, events, at) && DistinctJobs(jobs + [job])
    requires |outbox| <= j < |after|
    ensures after[j].event != job.event || after[j].channel != job.policy.channel
    ensures after[j].state.Pending?
  {
    assert MadeByOne(after[j], jobs, outbox, events, at);
    var k :| 0 <= k < |jobs| && MadeBy(after[j], jobs[k], outbox, events, at);
    assert (jobs + [job])[k] == jobs[k] && (jobs + [job])[|jobs|] == job;
  }

  // An old row of the job's own pair is as it was.
  lemma OwnRowsUntouched(outbox: seq<Delivery>, after: seq<Delivery>, jobs: seq<Job>, job: Job, i: nat)
    requires OldRows(outbox, after, jobs) && DistinctJobs(jobs + [job]) && i < |outbox|
    requires outbox[i].event == job.event && outbox[i].channel == job.policy.channel
    ensures after[i] == outbox[i]
  {
    forall k | 0 <= k < |jobs| ensures !Unsent(outbox[i], jobs[k].event, jobs[k].policy.channel) {
      assert (jobs + [job])[k] == jobs[k] && (jobs + [job])[|jobs|] == job;
    }
  }

  // The pair's rows now are the pair's rows before.
  lemma OwnRows(outbox: seq<Delivery>, after: seq<Delivery>, jobs: seq<Job>, job: Job, events: seq<Event>, at: int, i: nat)
    requires JobsInRange(jobs, events) && Queued(outbox, after, jobs, events, at) && DistinctJobs(jobs + [job])
    requires i < |after| && after[i].event == job.event && after[i].channel == job.policy.channel
    ensures i < |outbox| && after[i] == outbox[i]
  {
    if i >= |outbox| {
      OthersElsewhere(outbox, after, jobs, job, events, at, i);
    } else {
      OwnRowsUntouched(outbox, after, jobs, job, i);
    }
  }

  lemma UnsentIff(outbox: seq<Delivery>, after: seq<Delivery>, jobs: seq<Job>, job: Job, events: seq<Event>, at: int)
    requires JobsInRange(jobs, events) && Queued(outbox, after, jobs, events, at) && DistinctJobs(jobs + [job])
    ensures (exists i | 0 <= i < |after| :: Cancellable(after[i], job.event, job.policy.channel))
            <==> HasUnsent(outbox, job.event, job.policy.channel)
    ensures (exists i | 0 <= i < |after| :: Notified(after[i], job.event, job.policy.channel))
            <==> HasSentOut(outbox, job.event, job.policy.channel)
  {
    forall i | 0 <= i < |after| && after[i].event == job.event && after[i].channel == job.policy.channel
      ensures i < |outbox| && after[i] == outbox[i]
    {
      OwnRows(outbox, after, jobs, job, events, at, i);
    }
    forall i | 0 <= i < |outbox| && outbox[i].event == job.event && outbox[i].channel == job.policy.channel
      ensures after[i] == outbox[i]
    {
      OwnRowsUntouched(outbox, after, jobs, job, i);
    }
    if HasUnsent(outbox, job.event, job.policy.channel) {
      var i :| 0 <= i < |outbox| && Unsent(outbox[i], job.event, job.policy.channel);
      assert Cancellable(after[i], job.event, job.policy.channel);
    }
    if HasSentOut(outbox, job.event, job.policy.channel) {
      var i :| 0 <= i < |outbox| && SentOut(outbox[i], job.event, job.policy.channel);
      assert Notified(after[i], job.event, job.policy.channel);
    }
  }

  lemma DeliveredIsOld(outbox: seq<Delivery>, after: seq<Delivery>, jobs: seq<Job>, events: seq<Event>, at: int, i: nat)
    requires JobsInRange(jobs, events) && Queued(outbox, after, jobs, events, at)
    requires i < |after| && after[i].state.Delivered?
    ensures i < |outbox| && after[i] == outbox[i]
  {
    if i >= |outbox| {
      NewRowPends(outbox, after, jobs, events, at, i);
    }
  }

  lemma NewRowPends(outbox: seq<Delivery>, after: seq<Delivery>, jobs: seq<Job>, events: seq<Event>, at: int, j: nat)
    requires JobsInRange(jobs, events) && Queued(outbox, after, jobs, events, at) && |outbox| <= j < |after|
    ensures after[j].state.Pending?
  {
    assert MadeByOne(after[j], jobs, outbox, events, at);
    var k :| 0 <= k < |jobs| && MadeBy(after[j], jobs[k], outbox, events, at);
  }

  lemma OldDelivered(outbox: seq<Delivery>, after: seq<Delivery>, jobs: seq<Job>, i: nat)
    requires OldRows(outbox, after, jobs) && i < |outbox| && outbox[i].state.Delivered?
    ensures after[i] == outbox[i]
  {
  }

  // Only the old rows count for the cooldown, and as they were.
  lemma CooldownOfOldRows(outbox: seq<Delivery>, after: seq<Delivery>, jobs: seq<Job>, policy: Policy, text: string, events: seq<Event>, at: int)
    requires JobsInRange(jobs, events) && Queued(outbox, after, jobs, events, at)
    ensures Waits(outbox, text, policy, at, NotBefore(after, policy, text, at))
  {
    var last := LastDelivered(after, policy.channel, text);
    var notBefore := NotBefore(after, policy, text, at);
    forall i | 0 <= i < |outbox| && Earlier(outbox[i], policy.channel, text)
      ensures policy.cooldown > 0 ==> outbox[i].deliveredAt.value + policy.cooldown <= notBefore
    {
      OldDelivered(outbox, after, jobs, i);
      assert CoolsDown(after[i], policy.channel, text);
    }
    if notBefore != at {
      var i :| 0 <= i < |after| && CoolsDown(after[i], policy.channel, text) && after[i].deliveredAt == last;
      DeliveredIsOld(outbox, after, jobs, events, at, i);
      assert CooledFrom(outbox, i, text, policy, notBefore);
    }
  }

  // What remains true of the rows and jobs before when one more row is
  // appended for one more job.
  lemma QueuedAppend(outbox: seq<Delivery>, after: seq<Delivery>, jobs: seq<Job>, job: Job, events: seq<Event>, at: int, d: Delivery)
    requires JobsInRange(jobs, events) && job.event < |events| && Queued(outbox, after, jobs, events, at)
    requires MadeBy(d, job, outbox, events, at)
    requires job.transition.Recovery? ==> !HasUnsent(outbox, job.event, job.policy.channel)
    ensures Queued(outbox, after + [d], jobs + [job], events, at)
  {
    var all, more := after + [d], jobs + [job];
    CancelledByMore(outbox, jobs, job);
    forall j | |outbox| <= j < |all| ensures MadeByOne(all[j], more, outbox, events, at) {
      if j < |after| {
        assert MadeByOne(after[j], jobs, outbox, events, at);
        var k :| 0 <= k < |jobs| && MadeBy(after[j], jobs[k], outbox, events, at);
        assert more[k] == jobs[k];
      } else {
        assert more[|jobs|] == job;
      }
    }
    forall k | 0 <= k < |more| && NeedsRow(more[k], outbox) ensures Made(outbox, all, more[k], events, at) {
      if k < |jobs| {
        assert Made(outbox, after, jobs[k], events, at);
        var j :| |outbox| <= j < |after| && MadeBy(after[j], jobs[k], outbox, events, at);
        assert all[j] == after[j];
      } else {
        assert all[|after|] == d;
      }
    }
  }

  lemma CancelledByMore(outbox: seq<Delivery>, jobs: seq<Job>, job: Job)
    ensures forall d :: CancelledBy(jobs + [job], d) <==>
      CancelledBy(jobs, d) || (job.transition.Recovery? && Unsent(d, job.event, job.policy.channel))
  {
    var more := jobs + [job];
    forall d ensures CancelledBy(more, d) <==>
      CancelledBy(jobs, d) || (job.transition.Recovery? && Unsent(d, job.event, job.policy.channel))
    {
      if CancelledBy(jobs, d) {
        var k :| 0 <= k < |jobs| && jobs[k].transition.Recovery? && Unsent(d, jobs[k].event, jobs[k].policy.channel);
        assert more[k] == jobs[k];
      }
      assert more[|jobs|] == job;
    }
  }

  // A job that neither cancels nor needs a row.
  lemma QueuedSilent(outbox: seq<Delivery>, after: seq<Delivery>, jobs: seq<Job>, job: Job, events: seq<Event>, at: int)
    requires JobsInRange(jobs, events) && job.event < |events| && Queued(outbox, after, jobs, events, at)
    requires job.transition.Recovery? && !HasSentOut(outbox, job.event, job.policy.channel)
    requires !HasUnsent(outbox, job.event, job.policy.channel)
    ensures Queued(outbox, after, jobs + [job], events, at)
  {
    QueuedMore(outbox, after, after, jobs, job, events, at);
  }

  // A job that cancels its unsent opening.
  lemma QueuedCancel(outbox: seq<Delivery>, after: seq<Delivery>, jobs: seq<Job>, job: Job, events: seq<Event>, at: int)
    requires JobsInRange(jobs, events) && job.event < |events| && Queued(outbox, after, jobs, events, at)
    requires job.transition.Recovery? && HasUnsent(outbox, job.event, job.policy.channel) && DistinctJobs(jobs + [job])
    ensures Queued(outbox, Cancel(after, job.event, job.policy.channel), jobs + [job], events, at)
  {
    var next := Cancel(after, job.event, job.policy.channel);
    forall j | |outbox| <= j < |after| ensures next[j] == after[j] {
      OthersElsewhere(outbox, after, jobs, job, events, at, j);
    }
    forall i | 0 <= i < |outbox|
      ensures next[i] == if CancelledBy(jobs, outbox[i]) || Unsent(outbox[i], job.event, job.policy.channel)
                         then outbox[i].(state := Cancelled) else outbox[i]
    {
      if outbox[i].event == job.event && outbox[i].channel == job.policy.channel {
        OwnRowsUntouched(outbox, after, jobs, job, i);
      }
    }
    QueuedMore(outbox, after, next, jobs, job, events, at);
  }

  lemma QueuedMore(outbox: seq<Delivery>, after: seq<Delivery>, next: seq<Delivery>, jobs: seq<Job>, job: Job, events: seq<Event>, at: int)
    requires JobsInRange(jobs, events) && job.event < |events| && Queued(outbox, after, jobs, events, at)
    requires !NeedsRow(job, outbox) && |next| == |after| && forall j :: |outbox| <= j < |after| ==> next[j] == after[j]
    requires forall i :: 0 <= i < |outbox| ==>
      next[i] == if CancelledBy(jobs, outbox[i]) || Unsent(outbox[i], job.event, job.policy.channel)
                 then outbox[i].(state := Cancelled) else outbox[i]
    ensures Queued(outbox, next, jobs + [job], events, at)
  {
    var more := jobs + [job];
    CancelledByMore(outbox, jobs, job);
    forall j | |outbox| <= j < |next| ensures MadeByOne(next[j], more, outbox, events, at) {
      assert MadeByOne(after[j], jobs, outbox, events, at);
      var k :| 0 <= k < |jobs| && MadeBy(after[j], jobs[k], outbox, events, at);
      assert more[k] == jobs[k];
    }
    forall k | 0 <= k < |more| && NeedsRow(more[k], outbox) ensures Made(outbox, next, more[k], events, at) {
      assert Made(outbox, after, jobs[k], events, at);
      var j :| |outbox| <= j < |after| && MadeBy(after[j], jobs[k], outbox, events, at);
      assert next[j] == after[j];
    }
  }

  // One job, whatever it finds.
  lemma QueuedStep(outbox: seq<Delivery>, after: seq<Delivery>, jobs: seq<Job>, job: Job, events: seq<Event>, at: int)
    requires JobsInRange(jobs, events) && Queued(outbox, after, jobs, events, at)
    requires JobFits(job, outbox, events) && DistinctJobs(jobs + [job])
    ensures Queued(outbox, EnqueueOne(after, events, job, at), jobs + [job], events, at)
  {
    UnsentIff(outbox, after, jobs, job, events, at);
    NoRowYet(outbox, after, jobs, job, events, at);
    var text, channel := TextOf(events[job.event]), job.policy.channel;
    if job.transition.Opening? {
      CooldownOfOldRows(outbox, after, jobs, job.policy, text, events, at);
      var notBefore := NotBefore(after, job.policy, text, at);
      QueuedAppend(outbox, after, jobs, job, events, at,
                   Delivery(job.event, Opening, channel, text, Pending, 0, notBefore, notBefore, None));
    } else if HasUnsent(outbox, job.event, channel) {
      QueuedCancel(outbox, after, jobs, job, events, at);
    } else if HasSentOut(outbox, job.event, channel) {
      QueuedAppend(outbox, after, jobs, job, events, at, Delivery(job.event, Recovery, channel, text, Pending, 0, at, at, None));
    } else {
      QueuedSilent(outbox, after, jobs, job, events, at);
    }
  }

  lemma NoRowYet(outbox: seq<Delivery>, after: seq<Delivery>, jobs: seq<Job>, job: Job, events: seq<Event>, at: int)
    requires JobsInRange(jobs, events) && Queued(outbox, after, jobs, events, at)
    requires JobFits(job, outbox, events) && DistinctJobs(jobs + [job])
    ensures !HasRow(after, job.event, job.transition, job.policy.channel)
  {
    forall i | 0 <= i < |after| ensures !Same(after[i], job.event, job.transition, job.policy.channel) {
      if after[i].event == job.event && after[i].channel == job.policy.channel {
        OwnRows(outbox, after, jobs, job, events, at, i);
      }
    }
  }

  ghost predicate AllFit(jobs: seq<Job>, outbox: seq<Delivery>, events: seq<Event>) {
    forall k {:trigger JobFits(jobs[k], outbox, events)} :: 0 <= k < |jobs| ==> JobFits(jobs[k], outbox, events)
  }

  lemma SplitLast(jobs: seq<Job>, outbox: seq<Delivery>, events: seq<Event>)
    requires jobs != [] && AllFit(jobs, outbox, events) && DistinctJobs(jobs) && JobsInRange(jobs, events)
    ensures var n := |jobs| - 1;
      && jobs == jobs[..n] + [jobs[n]] && AllFit(jobs[..n], outbox, events) && DistinctJobs(jobs[..n])
      && JobsInRange(jobs[..n], events) && JobFits(jobs[n], outbox, events)
  {
    var n := |jobs| - 1;
    forall k | 0 <= k < n ensures JobFits(jobs[..n][k], outbox, events) {
      assert JobFits(jobs[k], outbox, events);
    }
  }

  lemma NothingQueued(outbox: seq<Delivery>, events: seq<Event>, at: int)
    ensures Queued(outbox, outbox, [], events, at)
  {
    assert forall d :: !CancelledBy([], d);
  }

  lemma {:induction false} AllQueued(outbox: seq<Delivery>, jobs: seq<Job>, events: seq<Event>, at: int)
    requires JobsInRange(jobs, events) && DistinctJobs(jobs) && AllFit(jobs, outbox, events)
    ensures Queued(outbox, Enqueue(outbox, events, jobs, at), jobs, events, at)
  {
    if jobs == [] {
      NothingQueued(outbox, events, at);
    } else {
      var n := |jobs| - 1;
      SplitLast(jobs, outbox, events);
      AllQueued(outbox, jobs[..n], events, at);
      QueuedStep(outbox, Enqueue(outbox, events, jobs[..n], at), jobs[..n], jobs[n], events, at);
    }
  }

  // ---- The commit of one observation ----

  // The jobs of a commit: a new event or one just closed, on a channel.
  ghost predicate JobOfCommit(before: seq<Event>, after: seq<Event>, policies: seq<Policy>, job: Job) {
    && job.policy in policies
    && if job.transition.Opening? then |before| <= job.event < |after| else JustResolved(before, after, job.event)
  }

  ghost predicate JobsOfCommit(before: seq<Event>, after: seq<Event>, policies: seq<Policy>, jobs: seq<Job>) {
    forall job :: job in jobs <==> JobOfCommit(before, after, policies, job)
  }

  lemma NewIdsMembers(first: nat, count: nat, e: nat)
    ensures e in NewIds(first, count) <==> first <= e < first + count
  {
    if first <= e < first + count {
      assert NewIds(first, count)[e - first] == e;
    }
  }

  lemma CommitJobsFit(db: Tables, o: Observation, policies: seq<Policy>, added: seq<Key>, recovered: seq<nat>)
    requires DbOk(db) && Commits(db, o, policies, added, recovered)
    ensures var jobs, events := CommitJobs(db, policies, added, recovered), EventsAfter(db, o, policies, added, recovered);
      && JobsInRange(jobs, events) && DistinctJobs(jobs) && AllFit(jobs, db.outbox, events)
      && JobsOfCommit(db.events, events, policies, jobs)
  {
    var jobs, events := CommitJobs(db, policies, added, recovered), EventsAfter(db, o, policies, added, recovered);
    var ids := NewIds(|db.events|, |added|);
    JobsFine(db, o, policies, added, recovered);
    JobsInRangeAfter(db, o, policies, added, recovered);
    JobsOfMembers(ids, Opening, policies);
    JobsOfMembers(recovered, Recovery, policies);
    forall job ensures job in jobs <==> JobOfCommit(db.events, events, policies, job) {
      NewIdsMembers(|db.events|, |added|, job.event);
      RecoveredJustNow(db, o, policies, added, recovered, job.event);
    }
    forall k | 0 <= k < |jobs| ensures JobFits(jobs[k], db.outbox, events) {
      assert jobs[k] in jobs;
      forall i | 0 <= i < |db.outbox| ensures db.outbox[i].event < |db.events| {
        assert DeliveryOk(db.outbox[i], db.events);
      }
    }
  }

  // The event was closed by this commit.
  predicate JustResolved(before: seq<Event>, after: seq<Event>, r: nat) {
    r < |before| <= |after| && !before[r].state.Resolved? && after[r].state.Resolved?
  }

  // A new event is announced on every channel.
  ghost predicate OpeningQueued(db: Tables, after: Tables, event: nat, policy: Policy, at: int)
    requires event < |after.events|
  {
    exists j :: |db.outbox| <= j < |after.outbox|
      && OpeningRow(after.outbox[j], event, TextOf(after.events[event]), policy, at, db.outbox)
  }

  // A recovery is announced where the opening is out and not still unsent.
  ghost predicate RecoveryQueued(db: Tables, after: Tables, event: nat, channel: string, at: int)
    requires event < |after.events|
  {
    exists j :: |db.outbox| <= j < |after.outbox|
      && RecoveryRow(after.outbox[j], event, TextOf(after.events[event]), channel, at)
  }

  // The only reasons for a row of the queue to be new.
  ghost predicate Explained(db: Tables, after: Tables, policies: seq<Policy>, at: int, d: Delivery) {
    exists policy :: policy in policies && d.event < |after.events| && d.channel == policy.channel &&
      if d.transition.Opening? then
        |db.events| <= d.event && OpeningRow(d, d.event, TextOf(after.events[d.event]), policy, at, db.outbox)
      else
        JustResolved(db.events, after.events, d.event) && Announces(db.outbox, d.event, d.channel)
        && RecoveryRow(d, d.event, TextOf(after.events[d.event]), d.channel, at)
  }

  // An unsent opening of an event that is over is cancelled.
  ghost predicate Obsolete(db: Tables, after: Tables, policies: seq<Policy>, d: Delivery) {
    d.transition.Opening? && d.state.Pending? && JustResolved(db.events, after.events, d.event)
    && exists policy :: policy in policies && policy.channel == d.channel
  }

  // What one committed observation makes of the queue: every row it adds,
  // every row it cancels, and nothing else.
  ghost predicate QueueAfterCommit(db: Tables, after: Tables, policies: seq<Policy>, at: int) {
    && |db.events| <= |after.events| && |db.outbox| <= |after.outbox|
    && (forall e: nat, policy :: |db.events| <= e < |after.events| && policy in policies
         ==> OpeningQueued(db, after, e, policy, at))
    && (forall r: nat, policy :: JustResolved(db.events, after.events, r) && policy in policies && Announces(db.outbox, r, policy.channel)
         ==> RecoveryQueued(db, after, r, policy.channel, at))
    && (forall i :: 0 <= i < |db.outbox| ==>
         after.outbox[i] == if Obsolete(db, after, policies, db.outbox[i]) then db.outbox[i].(state := Cancelled) else db.outbox[i])
    && (forall j :: |db.outbox| <= j < |after.outbox| ==> Explained(db, after, policies, at, after.outbox[j]))
    && OneRowEach(after.outbox)
  }

  lemma RecoveredJustNow(db: Tables, o: Observation, policies: seq<Policy>, added: seq<Key>, recovered: seq<nat>, r: nat)
    requires Commits(db, o, policies, added, recovered)
    ensures r in recovered <==> JustResolved(db.events, EventsAfter(db, o, policies, added, recovered), r)
  {
    if r < |db.events| {
      RowAfter(db.events, o.host, o.at, SignalsOf(db, o), added, r);
    }
  }

  lemma CommitQueuesRows(db: Tables, o: Observation, policies: seq<Policy>, added: seq<Key>, recovered: seq<nat>)
    requires DbOk(db) && Commits(db, o, policies, added, recovered)
    ensures QueueAfterCommit(db, Commit(db, o, policies, added, recovered), policies, o.at)
  {
    var after := Commit(db, o, policies, added, recovered);
    var jobs, events := CommitJobs(db, policies, added, recovered), EventsAfter(db, o, policies, added, recovered);
    CommitJobsFit(db, o, policies, added, recovered);
    AllQueued(db.outbox, jobs, events, o.at);
    CommitKeeps(db, o, policies, added, recovered);
    QueueOfJobs(db, after, policies, jobs, o.at);
  }

  // The same, said of the jobs of the commit.
  lemma QueueOfJobs(db: Tables, after: Tables, policies: seq<Policy>, jobs: seq<Job>, at: int)
    requires |db.events| <= |after.events| && JobsInRange(jobs, after.events) && OneRowEach(after.outbox)
    requires Queued(db.outbox, after.outbox, jobs, after.events, at)
    requires JobsOfCommit(db.events, after.events, policies, jobs)
    ensures QueueAfterCommit(db, after, policies, at)
  {
    forall e: nat, policy | |db.events| <= e < |after.events| && policy in policies
      ensures OpeningQueued(db, after, e, policy, at)
    {
      assert JobOfCommit(db.events, after.events, policies, Job(e, Opening, policy));
      JobMade(db, after, jobs, Job(e, Opening, policy), at);
    }
    forall r: nat, policy | JustResolved(db.events, after.events, r) && policy in policies && Announces(db.outbox, r, policy.channel)
      ensures RecoveryQueued(db, after, r, policy.channel, at)
    {
      assert JobOfCommit(db.events, after.events, policies, Job(r, Recovery, policy));
      JobMade(db, after, jobs, Job(r, Recovery, policy), at);
    }
    forall i | 0 <= i < |db.outbox|
      ensures CancelledBy(jobs, db.outbox[i]) <==> Obsolete(db, after, policies, db.outbox[i])
    {
      CancelledIffObsolete(db, after, policies, jobs, db.outbox[i]);
    }
    forall j | |db.outbox| <= j < |after.outbox| ensures Explained(db, after, policies, at, after.outbox[j]) {
      assert MadeByOne(after.outbox[j], jobs, db.outbox, after.events, at);
      RowExplained(db, after, policies, jobs, at, after.outbox[j]);
    }
  }

  lemma RowExplained(db: Tables, after: Tables, policies: seq<Policy>, jobs: seq<Job>, at: int, d: Delivery)
    requires JobsInRange(jobs, after.events) && JobsOfCommit(db.events, after.events, policies, jobs)
    requires MadeByOne(d, jobs, db.outbox, after.events, at)
    ensures Explained(db, after, policies, at, d)
  {
    var k :| 0 <= k < |jobs| && MadeBy(d, jobs[k], db.outbox, after.events, at);
    assert jobs[k] in jobs;
    assert JobOfCommit(db.events, after.events, policies, jobs[k]);
  }

  lemma JobMade(db: Tables, after: Tables, jobs: seq<Job>, job: Job, at: int)
    requires JobsInRange(jobs, after.events) && Queued(db.outbox, after.outbox, jobs, after.events, at)
    requires job in jobs && NeedsRow(job, db.outbox)
    ensures job.event < |after.events| && Made(db.outbox, after.outbox, job, after.events, at)
  {
    var k :| 0 <= k < |jobs| && jobs[k] == job;
    assert Made(db.outbox, after.outbox, jobs[k], after.events, at);
  }

  lemma CancelledIffObsolete(db: Tables, after: Tables, policies: seq<Policy>, jobs: seq<Job>, d: Delivery)
    requires JobsOfCommit(db.events, after.events, policies, jobs)
    ensures CancelledBy(jobs, d) <==> Obsolete(db, after, policies, d)
  {
    if CancelledBy(jobs, d) {
      var k :| 0 <= k < |jobs| && jobs[k].transition.Recovery? && Unsent(d, jobs[k].event, jobs[k].policy.channel);
      assert jobs[k] in jobs;
      assert JobOfCommit(db.events, after.events, policies, jobs[k]);
    }
    if Obsolete(db, after, policies, d) {
      var policy :| policy in policies && policy.channel == d.channel;
      var job := Job(d.event, Recovery, policy);
      assert JobOfCommit(db.events, after.events, policies, job);
      var k :| 0 <= k < |jobs| && jobs[k] == job;
    }
  }
}
