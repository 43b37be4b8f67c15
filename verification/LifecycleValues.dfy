// What the open rows of the events table show over a run.
module LifecycleValues {
  import opened Telemetry
  import opened Evidence
  import opened EventRules
  import opened EventTable
  import opened CommitRows
  import opened Lifecycle
  import opened LifecycleInvariants

  // ---- Whole runs ----

  // The last committed observation of the host.
  ghost predicate LastOf(history: seq<Observation>, host: HostId, m: int) {
    0 <= m < |history| && history[m].host == host && forall j :: m < j < |history| ==> history[j].host != host
  }

  // The last one that measured the metric.
  ghost predicate LastMeasured(history: seq<Observation>, host: HostId, key: Key, m: int) {
    && 0 <= m < |history| && history[m].host == host && Measured(key, history[m])
    && forall j :: m < j < |history| && history[j].host == host ==> !Measured(key, history[j])
  }

  // An open row was last observed at the host's last commit, and is as bad as
  // the last telemetry of its category said.
  ghost predicate RowCurrent(e: Event, history: seq<Observation>) {
    && (exists m :: LastOf(history, e.host, m) && e.lastObserved == history[m].at)
    && match e.key
       case HostOffline => e.severity.Critical?
       case WorkloadFailed(_) => e.severity.Critical?
       case ListenerAdded(_) => e.severity.Warning?
       case _ =>
         exists m :: LastMeasured(history, e.host, e.key, m) && (e.severity.Critical? <==> CriticalShown(e.key, history[m]))
  }

  lemma CurrentElsewhere(e: Event, history: seq<Observation>, o: Observation)
    requires RowCurrent(e, history) && o.host != e.host
    ensures RowCurrent(e, history + [o])
  {
    var longer := history + [o];
    var m :| LastOf(history, e.host, m) && e.lastObserved == history[m].at;
    assert LastOf(longer, e.host, m);
    if Metric(e.key) {
      var k :| LastMeasured(history, e.host, e.key, k) && (e.severity.Critical? <==> CriticalShown(e.key, history[k]));
      assert LastMeasured(longer, e.host, e.key, k);
    }
  }

  lemma CurrentUpdated(e: Event, e': Event, history: seq<Observation>, o: Observation)
    requires RowCurrent(e, history) && RowUpdated(e, e', o) && e.host == o.host && !e.state.Resolved? && !e'.state.Resolved?
    ensures RowCurrent(e', history + [o])
  {
    var longer, n := history + [o], |history|;
    assert LastOf(longer, o.host, n);
    if Metric(e.key) {
      var k :| LastMeasured(history, e.host, e.key, k) && (e.severity.Critical? <==> CriticalShown(e.key, history[k]));
      if Measured(e.key, o) {
        assert LastMeasured(longer, e.host, e.key, n);
      } else {
        assert LastMeasured(longer, e.host, e.key, k);
      }
    }
  }

  lemma CurrentInserted(e: Event, history: seq<Observation>, o: Observation)
    requires RowInserted(e, o)
    ensures RowCurrent(e, history + [o])
  {
    var longer, n := history + [o], |history|;
    assert LastOf(longer, o.host, n);
    if Metric(e.key) {
      assert LastMeasured(longer, o.host, e.key, n);
    }
  }

  lemma StepRow(states: seq<Hub>, actions: seq<Action>, n: nat, i: nat)
    requires Run(states, actions) && n < |actions| && i < |states[n + 1].db.events|
    ensures |states[n].db.events| <= |states[n + 1].db.events|
    ensures if actions[n].Observe? then
      && states[n + 1].history == states[n].history + [actions[n].o]
      && (if i < |states[n].db.events| then RowUpdated(states[n].db.events[i], states[n + 1].db.events[i], actions[n].o)
          else RowInserted(states[n + 1].db.events[i], actions[n].o))
    else
      && states[n + 1].history == states[n].history
      && i < |states[n].db.events|
      && (actions[n].Acknowledge? || states[n + 1].db.events[i] == states[n].db.events[i])
  {
    var s, a := states[n], actions[n];
    RunStep(states, actions, n);
    if a.Observe? {
      CommitWritesRows(s.db, a.o, a.policies, a.added, a.recovered, i);
    } else if a.Restart? {
      BackfillIsIdle(s, a.hosts);
    }
  }

  lemma AcknowledgeStep(states: seq<Hub>, actions: seq<Action>, n: nat, i: nat)
    requires Run(states, actions) && n < |actions| && actions[n].Acknowledge? && i < |states[n].db.events|
    ensures i < |states[n + 1].db.events|
    ensures AcknowledgedRow(states[n].db.events[i], states[n + 1].db.events[i], i == actions[n].event, actions[n].at)
  {
    RunStep(states, actions, n);
    AcknowledgeWritesOneRow(states[n].db.events, actions[n].event, actions[n].at, i);
  }

  lemma {:induction false} OpenRowsAreCurrent(states: seq<Hub>, actions: seq<Action>, n: nat, i: nat)
    requires Run(states, actions) && n < |states| && i < |states[n].db.events| && !states[n].db.events[i].state.Resolved?
    ensures RowCurrent(states[n].db.events[i], states[n].history)
  {
    assert |states[0].db.events| == 0;
    StepRow(states, actions, n - 1, i);
    var a, before, after := actions[n - 1], states[n - 1].db.events, states[n].db.events;
    if i >= |before| {
      CurrentInserted(after[i], states[n - 1].history, a.o);
    } else {
      if a.Acknowledge? {
        AcknowledgeStep(states, actions, n - 1, i);
      }
      OpenRowsAreCurrent(states, actions, n - 1, i);
      if a.Observe? {
        if before[i].host == a.o.host {
          CurrentUpdated(before[i], after[i], states[n - 1].history, a.o);
        } else {
          CurrentElsewhere(before[i], states[n - 1].history, a.o);
        }
      }
    }
  }
}
