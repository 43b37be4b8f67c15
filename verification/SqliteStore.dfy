// The store that runs the commits: rule evaluation, reconciliation and the
// outbox in one critical section (internal/hub/sqlite_store.go,
// internal/storage/sqlite.go, internal/storage/notifications.go).
module SqliteStore {
  import opened Text
  import opened Telemetry
  import opened EventRules
  import opened EventTable
  import opened Outbox
  import opened Database
  import opened CommitRows
  import opened CommitQueue

  // The rows touched so far while the signals are applied in order.
  ghost predicate Applied(events: seq<Event>, after: seq<Event>, host: HostId, at: int, signals: map<Key, Signal>,
                          done: set<Key>, added: seq<Key>)
  {
    && |after| == |events| + |added|
    && (forall k :: k in added ==> k in signals)
    && (forall i :: 0 <= i < |events| ==>
         after[i] == if events[i].key in done then NextRow(events[i], host, at, signals) else events[i])
    && (forall j :: 0 <= j < |added| ==> after[|events| + j] == NewRow(host, at, signals[added[j]]))
  }

  // Positions of the host's unresolved rows by key.
  method ActiveIndex(events: seq<Event>, host: HostId) returns (active: map<Key, nat>)
    requires TableOk(events)
    ensures forall k :: k in active <==> IsOpen(events, host, k)
    ensures IsIndex(active, events, host)
  {
    IndexSeparatesKeys(events);
    active := map[];
    for i := 0 to |events|
      invariant forall k :: k in active ==> active[k] < i && Open(events[active[k]], host) && events[active[k]].key == k
      invariant forall j :: 0 <= j < i && Open(events[j], host) ==> events[j].key in active && active[events[j].key] == j
    {
      if Open(events[i], host) {
        active := active[events[i].key := i];
      }
    }
  }

  // Halfway through, a key to be inserted finds its text taken only by a row
  // that another host had open before.
  lemma TakenIffClash(events: seq<Event>, after: seq<Event>, host: HostId, at: int, signals: map<Key, Signal>,
                      done: set<Key>, added: seq<Key>, key: Key)
    requires Applied(events, after, host, at, signals, done, added) && done <= signals.Keys
    requires forall k :: k in added ==> signals[k].key == k
    requires key !in added && !IsOpen(events, host, key)
    ensures TextTaken(after, DedupeKey(host, key)) <==> IndexRefuses(events, host, key)
  {
    var text := DedupeKey(host, key);
    if TextTaken(after, text) {
      var i :| 0 <= i < |after| && !after[i].state.Resolved? && TextOf(after[i]) == text;
      if i >= |events| {
        assert added[i - |events|] in added;
      }
      assert i < |events| ==> events[i].host == after[i].host && events[i].key == after[i].key;
      if after[i].host == host {
        SameHostText(host, after[i].key, key);
        assert i < |events| ==> Open(events[i], host);
        assert false;
      }
      assert Clashes(events[i], host, key);
    }
    if IndexRefuses(events, host, key) {
      var i :| 0 <= i < |events| && Clashes(events[i], host, key);
      assert after[i] == events[i];
      assert TextOf(after[i]) == text;
    }
  }

  lemma AppliedUpdate(events: seq<Event>, after: seq<Event>, host: HostId, at: int, signals: map<Key, Signal>,
                      done: set<Key>, added: seq<Key>, i: nat, s: Signal)
    requires Applied(events, after, host, at, signals, done, added)
    requires s.key in signals && signals[s.key] == s && s.key !in done
    requires i < |events| && Open(events[i], host) && events[i].key == s.key
    requires forall j :: 0 <= j < |events| && Open(events[j], host) && events[j].key == s.key ==> j == i
    ensures Applied(events, after[i := after[i].(kind := s.kind, severity := s.severity, lastObserved := at)],
                    host, at, signals, done + {s.key}, added)
  {
  }

  lemma AppliedInsert(events: seq<Event>, after: seq<Event>, host: HostId, at: int, signals: map<Key, Signal>,
                      done: set<Key>, added: seq<Key>, s: Signal)
    requires Applied(events, after, host, at, signals, done, added)
    requires s.key in signals && signals[s.key] == s && !IsOpen(events, host, s.key)
    ensures Applied(events, after + [NewRow(host, at, s)], host, at, signals, done + {s.key}, added + [s.key])
  {
  }

  // Updates the rows that have a signal and inserts the missing ones.
  method ApplySignals(events: seq<Event>, active: map<Key, nat>, host: HostId, at: int, signals: seq<Signal>, ghost wanted: map<Key, Signal>)
    returns (refused: bool, after: seq<Event>, ghost added: seq<Key>)
    requires TableOk(events) && DistinctKeys(signals) && IsIndex(active, events, host)
    requires forall s :: s in signals ==> s.key in wanted && wanted[s.key] == s && s.host == host
    ensures refused ==> Refused(events, host, at, wanted)
    ensures !refused ==> Applied(events, after, host, at, wanted, Keys(signals), added)
    ensures !refused ==> forall i, j :: 0 <= i < j < |added| ==> added[i] != added[j]
    ensures !refused ==> forall k :: k in added <==> k in Keys(signals) && k !in active
    ensures !refused ==> forall i :: 0 <= i < |events| && events[i].key in Keys(signals) ==> !RowRefuses(events[i], host, at, wanted)
    ensures !refused ==> forall k {:trigger IndexRefuses(events, host, k)} :: k in Keys(signals) ==> !IndexRefuses(events, host, k)
  {
    after, added := events, [];
    ghost var done: set<Key> := {};
    for n := 0 to |signals|
      invariant done == Keys(signals[..n])
      invariant Applied(events, after, host, at, wanted, done, added)
      invariant forall i, j :: 0 <= i < j < |added| ==> added[i] != added[j]
      invariant forall k :: k in added <==> k in done && k !in active
      invariant forall i :: 0 <= i < |events| && events[i].key in done ==> !RowRefuses(events[i], host, at, wanted)
      invariant forall k :: k in done ==> k in wanted && wanted[k].key == k
      invariant forall k {:trigger IndexRefuses(events, host, k)} :: k in done ==> !IndexRefuses(events, host, k)
    {
      var s := signals[n];
      if s.key in active {
        var i := active[s.key];
        OpenKeyNeverClashes(events, host, i);
        if at < after[i].lastObserved {
          assert RowRefuses(events[i], host, at, wanted);
          return true, [], [];
        }
        AppliedUpdate(events, after, host, at, wanted, done, added, i, s);
        after := after[i := after[i].(kind := s.kind, severity := s.severity, lastObserved := at)];
      } else {
        TakenIffClash(events, after, host, at, wanted, done, added, s.key);
        if TextTaken(after, DedupeKey(host, s.key)) {
          return true, [], [];
        }
        AppliedInsert(events, after, host, at, wanted, done, added, s);
        after := after + [NewRow(host, at, s)];
        added := added + [s.key];
      }
      done := done + {s.key};
    }
    assert signals[..|signals|] == signals;
    refused := false;
  }

  ghost predicate IsIndex(active: map<Key, nat>, events: seq<Event>, host: HostId) {
    && (forall k :: k in active ==> active[k] < |events| && Open(events[active[k]], host) && events[active[k]].key == k)
    && (forall i :: 0 <= i < |events| && Open(events[i], host) ==> events[i].key in active && active[events[i].key] == i)
  }

  // Closes every open row whose key is stale.
  method ResolveStale(events: seq<Event>, before: seq<Event>, active: map<Key, nat>, host: HostId, at: int,
                      stale: set<Key>, ghost wanted: map<Key, Signal>, ghost applied: set<Key>, ghost added: seq<Key>)
    returns (refused: bool, after: seq<Event>, recovered: seq<nat>)
    requires IsIndex(active, events, host) && stale <= active.Keys && stale !! applied && stale !! wanted.Keys
    requires Applied(events, before, host, at, wanted, applied, added)
    ensures refused ==> Refused(events, host, at, wanted)
    ensures !refused ==> Applied(events, after, host, at, wanted, applied + stale, added)
    ensures !refused ==> forall i, j :: 0 <= i < j < |recovered| ==> recovered[i] != recovered[j]
    ensures !refused ==> forall r: nat :: r in recovered <==> r < |events| && Open(events[r], host) && events[r].key in stale
    ensures !refused ==> forall i :: 0 <= i < |events| && events[i].key in stale ==> !RowRefuses(events[i], host, at, wanted)
  {
    after, recovered := before, [];
    var closed, todo := {}, stale;
    while todo != {}
      invariant closed + todo == stale && closed !! todo
      invariant Applied(events, after, host, at, wanted, applied + closed, added)
      invariant forall i, j :: 0 <= i < j < |recovered| ==> recovered[i] != recovered[j]
      invariant forall r: nat :: r in recovered <==> r < |events| && Open(events[r], host) && events[r].key in closed
      invariant forall i :: 0 <= i < |events| && events[i].key in closed ==> !RowRefuses(events[i], host, at, wanted)
      decreases todo
    {
      var k :| k in todo;
      var i := active[k];
      if at < after[i].lastObserved || (after[i].acknowledgedAt.Some? && at < after[i].acknowledgedAt.value) {
        assert RowRefuses(events[i], host, at, wanted);
        return true, [], [];
      }
      after := after[i := after[i].(state := Resolved, resolvedAt := Some(at))];
      assert applied + closed + {k} == applied + (closed + {k});
      recovered := recovered + [i];
      closed, todo := closed + {k}, todo - {k};
    }
    assert closed == stale;
    refused := false;
  }

  // One transaction over the events table. A refusal reports no table at all,
  // so the caller keeps the one it had.
  method ReconcileEventSignals(events: seq<Event>, host: HostId, at: int, signals: seq<Signal>, ghost wanted: map<Key, Signal>)
    returns (refused: bool, after: seq<Event>, ghost added: seq<Key>, recovered: seq<nat>)
    requires TableOk(events) && DistinctKeys(signals)
    requires forall k :: k in wanted <==> k in Keys(signals)
    requires forall s :: s in signals ==> wanted[s.key] == s && s.host == host
    ensures refused <==> Refused(events, host, at, wanted)
    ensures !refused ==> OpensExactly(added, events, host, wanted) && ResolvesExactly(recovered, events, host, wanted)
    ensures !refused ==> after == Reconciled(events, host, at, wanted, added)
  {
    recovered := [];
    var active := ActiveIndex(events, host);
    refused, after, added := ApplySignals(events, active, host, at, signals, wanted);
    if refused {
      return;
    }
    var stale := active.Keys - Keys(signals);
    refused, after, recovered := ResolveStale(events, after, active, host, at, stale, wanted, Keys(signals), added);
    if refused {
      return;
    }
    forall i | 0 <= i < |events|
      ensures after[i] == NextRow(events[i], host, at, wanted) && !RowRefuses(events[i], host, at, wanted)
    {
      if Open(events[i], host) {
        assert events[i].key in active;
        assert events[i].key in Keys(signals) + stale;
      }
    }
    assert after == Reconciled(events, host, at, wanted, added);
  }

  // One row of the outbox.
  method EnqueueStep(outbox: seq<Delivery>, events: seq<Event>, job: Job, at: int, ghost start: seq<Delivery>, ghost earlier: seq<Job>)
    returns (after: seq<Delivery>)
    requires JobsInRange(earlier, events) && job.event < |events| && outbox == Enqueue(start, events, earlier, at)
    ensures JobsInRange(earlier + [job], events) && after == Enqueue(start, events, earlier + [job], at)
  {
    after := EnqueueOne(outbox, events, job, at);
  }

  lemma JobsForSnoc(base: seq<Job>, id: nat, transition: Transition, policies: seq<Policy>, j: nat)
    requires j < |policies|
    ensures base + JobsFor(id, transition, policies)[..j] + [Job(id, transition, policies[j])]
         == base + JobsFor(id, transition, policies)[..j + 1]
  {
  }

  lemma JobsOfSnoc(base: seq<Job>, ids: seq<nat>, transition: Transition, policies: seq<Policy>, i: nat)
    requires i < |ids|
    ensures base + JobsOf(ids[..i], transition, policies) + JobsFor(ids[i], transition, policies)
         == base + JobsOf(ids[..i + 1], transition, policies)
  {
    assert ids[..i + 1][..i] == ids[..i];
  }

  // One transition, every channel.
  method EnqueueForPolicies(outbox: seq<Delivery>, events: seq<Event>, id: nat, transition: Transition,
                            policies: seq<Policy>, at: int, ghost start: seq<Delivery>, ghost base: seq<Job>)
    returns (after: seq<Delivery>)
    requires JobsInRange(base, events) && id < |events| && outbox == Enqueue(start, events, base, at)
    ensures JobsInRange(base + JobsFor(id, transition, policies), events)
    ensures after == Enqueue(start, events, base + JobsFor(id, transition, policies), at)
  {
    after := outbox;
    ghost var jobs := base;
    for j := 0 to |policies|
      invariant jobs == base + JobsFor(id, transition, policies)[..j] && JobsInRange(jobs, events)
      invariant after == Enqueue(start, events, jobs, at)
    {
      var job := Job(id, transition, policies[j]);
      after := EnqueueStep(after, events, job, at, start, jobs);
      JobsForSnoc(base, id, transition, policies, j);
      jobs := jobs + [job];
    }
    assert jobs == base + JobsFor(id, transition, policies);
  }

  // The outbox rows of one commit: every transition for every channel.
  method EnqueueTransitions(outbox: seq<Delivery>, events: seq<Event>, ids: seq<nat>, transition: Transition,
                            policies: seq<Policy>, at: int, ghost start: seq<Delivery>, ghost earlier: seq<Job>)
    returns (after: seq<Delivery>)
    requires JobsInRange(earlier, events) && outbox == Enqueue(start, events, earlier, at)
    requires forall i :: 0 <= i < |ids| ==> ids[i] < |events|
    ensures JobsInRange(earlier + JobsOf(ids, transition, policies), events)
    ensures after == Enqueue(start, events, earlier + JobsOf(ids, transition, policies), at)
  {
    after := outbox;
    ghost var jobs := earlier;
    for i := 0 to |ids|
      invariant jobs == earlier + JobsOf(ids[..i], transition, policies) && JobsInRange(jobs, events)
      invariant after == Enqueue(start, events, jobs, at)
    {
      after := EnqueueForPolicies(after, events, ids[i], transition, policies, at, start, jobs);
      JobsOfSnoc(earlier, ids, transition, policies, i);
      jobs := jobs + JobsFor(ids[i], transition, policies);
    }
    assert ids[..|ids|] == ids;
  }

  method EnqueueCommit(db: Tables, after: seq<Event>, o: Observation, policies: seq<Policy>, ghost added: seq<Key>, closed: seq<nat>)
    returns (queue: seq<Delivery>)
    requires Commits(db, o, policies, added, closed) && after == EventsAfter(db, o, policies, added, closed)
    ensures queue == Commit(db, o, policies, added, closed).outbox
  {
    JobsInRangeAfter(db, o, policies, added, closed);
    var newIds := NewIds(|db.events|, |after| - |db.events|);
    ghost var opening := JobsOf(newIds, Opening, policies);
    ghost var jobs := CommitJobs(db, policies, added, closed);
    assert jobs == opening + JobsOf(closed, Recovery, policies);
    assert [] + opening == opening;
    assert forall i :: 0 <= i < |closed| ==> closed[i] in closed;
    queue := EnqueueTransitions(db.outbox, after, newIds, Opening, policies, o.at, db.outbox, []);
    queue := EnqueueTransitions(queue, after, closed, Recovery, policies, o.at, db.outbox, opening);
  }

  method FindFirstDue(outbox: seq<Delivery>, channel: string, now: int) returns (found: bool, id: nat)
    ensures found ==> FirstDue(outbox, id, channel, now)
    ensures !found ==> forall j :: 0 <= j < |outbox| ==> !Due(outbox[j], channel, now)
  {
    found, id := false, 0;
    for i := 0 to |outbox|
      invariant !found ==> forall j :: 0 <= j < i ==> !Due(outbox[j], channel, now)
      invariant found ==> id < i && FirstDue(outbox[..i], id, channel, now)
    {
      if Due(outbox[i], channel, now) && (!found || outbox[i].nextAttempt < outbox[id].nextAttempt) {
        found, id := true, i;
      }
      assert forall j :: 0 <= j < i ==> outbox[..i + 1][j] == outbox[..i][j];
    }
    assert outbox[..|outbox|] == outbox;
  }

  method NewestComplete(history: seq<Observation>) returns (newest: Option<Observation>)
    ensures newest == FirstComplete(history)
  {
    for i := 0 to |history|
      invariant FirstComplete(history) == FirstComplete(history[i..])
    {
      assert history[i..][1..] == history[i + 1..];
      if CompleteListeners(history[i]) {
        return Some(history[i]);
      }
    }
    newest := None;
  }

  class Store {
    var events: seq<Event>
    var outbox: seq<Delivery>
    var observations: seq<Observation>
    var baselines: map<HostId, Baseline>

    function Db(): Tables
      reads this
    {
      Tables(events, outbox, observations, baselines)
    }

    constructor ()
      ensures Db() == EMPTY
    {
      events, outbox, observations, baselines := [], [], [], map[];
    }

    method LatestObservation(host: HostId) returns (latest: Option<Observation>)
      ensures latest == Latest(observations, host)
    {
      latest := None;
      for i := 0 to |observations|
        invariant latest == Latest(observations[..i], host)
      {
        assert observations[..i + 1][..i] == observations[..i];
        var o := observations[i];
        if o.host == host && (latest.None? || o.at >= latest.value.at) {
          latest := Some(o);
        }
      }
      assert observations[..|observations|] == observations;
    }

    method ActiveEvents(host: HostId) returns (active: map<Key, Event>)
      ensures active == ActiveByKey(events, host)
    {
      active := map[];
      for i := 0 to |events|
        invariant active == ActiveByKey(events[..i], host)
      {
        assert events[..i + 1][..i] == events[..i];
        if Open(events[i], host) {
          active := active[events[i].key := events[i]];
        }
      }
      assert events[..|events|] == events;
    }

    // Evaluates and records one observation. `durable` is the outcome of the
    // transaction: false stands for any storage or validation error.
    method Update(o: Observation, policies: seq<Policy>, durable: bool)
      returns (committed: bool, ghost added: seq<Key>, ghost recovered: seq<nat>)
      requires DbOk(Db())
      modifies this
      ensures DbOk(Db())
      ensures committed <==> durable && DistinctChannels(policies) && !Refused(old(events), o.host, o.at, SignalsOf(old(Db()), o))
      ensures committed ==> Commits(old(Db()), o, policies, added, recovered)
                            && Db() == Commit(old(Db()), o, policies, added, recovered)
      ensures committed ==> RowsAfterCommit(old(Db()), events, o) && QueueAfterCommit(old(Db()), Db(), policies, o.at)
                            && BaselinesAfterCommit(old(baselines), baselines, o) && observations == old(observations) + [o]
      ensures !committed ==> Db() == old(Db())
    {
      committed, added, recovered := false, [], [];
      var signals := CurrentSignals(o);
      if !DistinctChannels(policies) {
        return;
      }
      var refused, after, inserted, closed := ReconcileEventSignals(events, o.host, o.at, signals, SignalsOf(Db(), o));
      if refused || !durable {
        return;
      }
      committed, added, recovered := true, inserted, closed;
      CommitKeeps(Db(), o, policies, inserted, closed);
      CommitMeans(Db(), o, policies, inserted, closed);
      CommitQueuesRows(Db(), o, policies, inserted, closed);
      var queue := EnqueueCommit(Db(), after, o, policies, inserted, closed);
      var renewed := baselines;
      if CompleteListeners(o) {
        var keys := WildcardKeys(o);
        renewed := renewed[o.host := Baseline(keys, true)];
      }
      events, outbox, observations, baselines := after, queue, observations + [o], renewed;
    }

    // Reads what the rules need and evaluates them.
    method CurrentSignals(o: Observation) returns (signals: seq<Signal>)
      requires DbOk(Db())
      ensures DistinctKeys(signals)
      ensures forall k :: k in SignalsOf(Db(), o) <==> k in Keys(signals)
      ensures forall s :: s in signals ==> SignalsOf(Db(), o)[s.key] == s && s.host == o.host
    {
      var previous := LatestObservation(o.host);
      var active := ActiveEvents(o.host);
      var baseline := BaselineOf(baselines, o.host);
      SignalKeys(Db(), o);
      signals := EvaluateEventSignals(Context(previous, o, active, baseline.keys, baseline.established));
      assert forall s :: s in signals ==> s.key in Keys(signals);
    }

    method AcknowledgeEvent(id: int, at: int) returns (outcome: AckOutcome)
      requires DbOk(Db())
      modifies this`events
      ensures DbOk(Db())
      ensures outcome == AcknowledgeRow(old(events), id, at)
      ensures events == AfterAcknowledge(old(events), id, at)
      ensures Acknowledges(old(events), events, id, at, outcome)
    {
      AcknowledgeMeans(events, id, at);
      AcknowledgeKeeps(Db(), id, at);
      outcome := AcknowledgeRow(events, id, at);
      if outcome.Accepted? {
        events := events[id := outcome.row];
      }
    }

    method PruneObservations(before: int)
      modifies this`observations
      ensures observations == Kept(old(observations), before)
    {
      var kept: seq<Observation> := [];
      for i := 0 to |observations|
        invariant kept == Kept(observations[..i], before)
      {
        assert observations[..i + 1][..i] == observations[..i];
        if observations[i].at >= before {
          kept := kept + [observations[i]];
        }
      }
      assert observations[..|observations|] == observations;
      observations := kept;
    }

    // Gives every configured host that has no baseline one from its history.
    method BackfillListenerBaselines(hosts: seq<HostId>)
      modifies this`baselines
      ensures Db() == Backfill(old(Db()), hosts)
    {
      for i := 0 to |hosts|
        invariant Backfill(Db(), hosts[i..]) == Backfill(old(Db()), hosts)
        invariant Db() == old(Db()).(baselines := baselines)
      {
        ghost var before := Db();
        var host := hosts[i];
        var baseline := BaselineOf(baselines, host);
        if !baseline.established {
          if baseline.keys != {} {
            baselines := baselines[host := Baseline(baseline.keys, true)];
          } else {
            var newest := NewestComplete(Recent(observations, host));
            if newest.Some? {
              var keys := WildcardKeys(newest.value);
              baselines := baselines[host := Baseline(keys, true)];
            }
          }
        }
        assert Db() == BackfillHost(before, host);
        assert hosts[i..][1..] == hosts[i + 1..];
      }
    }

    // Leases the first due row of the channel.
    method ClaimEventNotification(channel: string, now: int, leaseUntil: int) returns (found: bool, id: nat)
      modifies this`outbox
      ensures found <==> now < leaseUntil && exists j :: 0 <= j < |old(outbox)| && Due(old(outbox)[j], channel, now)
      ensures found ==> FirstDue(old(outbox), id, channel, now) && outbox == Claimed(old(outbox), id, leaseUntil)
      ensures !found ==> outbox == old(outbox)
    {
      if leaseUntil <= now {
        return false, 0;
      }
      found, id := FindFirstDue(outbox, channel, now);
      if found {
        outbox := outbox[id := outbox[id].(state := Sending, attempts := outbox[id].attempts + 1, nextAttempt := leaseUntil)];
      }
    }

    method MarkEventNotificationDelivered(id: nat, at: int) returns (leased: bool)
      modifies this`outbox
      ensures leased <==> id < |old(outbox)| && old(outbox)[id].state.Sending?
      ensures outbox == if leased then MarkedDelivered(old(outbox), id, at) else old(outbox)
    {
      leased := id < |outbox| && outbox[id].state.Sending?;
      if leased {
        outbox := outbox[id := outbox[id].(state := Delivered, deliveredAt := Some(at), nextAttempt := at)];
      }
    }

    method RetryEventNotification(id: nat, nextAttempt: int, terminal: bool) returns (leased: bool)
      modifies this`outbox
      ensures leased <==> id < |old(outbox)| && old(outbox)[id].state.Sending?
      ensures outbox == if leased then Retried(old(outbox), id, nextAttempt, terminal) else old(outbox)
    {
      leased := id < |outbox| && outbox[id].state.Sending?;
      if leased {
        outbox := outbox[id := outbox[id].(state := if terminal then Failed else Pending, nextAttempt := nextAttempt)];
      }
    }
  }
}
