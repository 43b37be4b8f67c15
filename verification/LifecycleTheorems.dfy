// What holds over every run of the hub.
module LifecycleTheorems {
  import opened Text
  import opened Telemetry
  import opened Evidence
  import opened EventRules
  import opened EventTable
  import opened Outbox
  import opened Database
  import opened Lifecycle
  import opened LifecycleInvariants

  // ---- Recovery ----

  // Proof of recovery is always positive telemetry of an online host.
  lemma ClearedMeansEvidence(key: Key, o: Observation)
    ensures ReadingOf(key, o).Cleared? <==> Recovered(key, o)
  {
    ReadingMeans(key, o);
  }

  ghost predicate Proves(a: Action, e: Event) {
    a.Observe? && a.o.host == e.host && Recovered(e.key, a.o)
  }

  lemma ObserveRecovers(db: Tables, o: Observation, policies: seq<Policy>, added: seq<Key>, closed: seq<nat>, i: nat)
    requires TableOk(db.events) && Commits(db, o, policies, added, closed)
    requires i < |db.events| && !db.events[i].state.Resolved?
    ensures i < |Commit(db, o, policies, added, closed).events|
    ensures Commit(db, o, policies, added, closed).events[i].state.Resolved?
       <==> db.events[i].host == o.host && Recovered(db.events[i].key, o)
  {
    ClearedMeansEvidence(db.events[i].key, o);
    SignalKeys(db, o);
    RowAfter(db.events, o.host, o.at, SignalsOf(db, o), added, i);
    if db.events[i].host == o.host {
      assert IsOpen(db.events, o.host, db.events[i].key);
      SignalGoneIffCleared(db, o, db.events[i].key);
    }
  }

  // In one step an open event recovers exactly when the step is a committed
  // observation that proves it.
  lemma RecoveryIffEvidence(s: Hub, a: Action, i: nat)
    requires Inv(s) && Enabled(s, a)
    requires i < |s.db.events| && !s.db.events[i].state.Resolved?
    ensures |s.db.events| <= |Next(s, a).db.events|
    ensures Next(s, a).db.events[i].state.Resolved? <==> Proves(a, s.db.events[i])
  {
    if a.Observe? {
      ObserveRecovers(s.db, a.o, a.policies, a.added, a.recovered, i);
    } else if a.Restart? {
      BackfillIsIdle(s, a.hosts);
    }
  }

  // What never changes about a row, and what never goes back.
  predicate RowForward(e: Event, e': Event) {
    && e'.host == e.host && e'.key == e.key && e'.kind == e.kind && e'.firstObserved == e.firstObserved
    && (e.acknowledgedAt.Some? ==> e'.acknowledgedAt == e.acknowledgedAt)
    && (e.state.Resolved? ==> e' == e)
    && e.lastObserved <= e'.lastObserved
  }

  lemma RowsOnlyMoveForward(s: Hub, a: Action, i: nat)
    requires Inv(s) && Enabled(s, a) && i < |s.db.events|
    ensures |s.db.events| <= |Next(s, a).db.events|
    ensures RowForward(s.db.events[i], Next(s, a).db.events[i])
  {
    assert RowOk(s.db.events[i]);
    if a.Observe? {
      SignalKeys(s.db, a.o);
      assert !RowRefuses(s.db.events[i], a.o.host, a.o.at, SignalsOf(s.db, a.o));
      assert Next(s, a).db.events[i] == NextRow(s.db.events[i], a.o.host, a.o.at, SignalsOf(s.db, a.o));
    } else if a.Restart? {
      BackfillIsIdle(s, a.hosts);
    }
  }

  // One step of a run, row by row.
  lemma RowStep(states: seq<Hub>, actions: seq<Action>, n: nat, i: nat)
    requires Run(states, actions) && n < |actions| && i < |states[n + 1].db.events|
    ensures |states[n].db.events| <= |states[n + 1].db.events|
    ensures i < |states[n].db.events| ==> RowForward(states[n].db.events[i], states[n + 1].db.events[i])
    ensures states[n + 1].db.events[i].state.Resolved? ==>
              i < |states[n].db.events|
              && (states[n].db.events[i].state.Resolved? || Proves(actions[n], states[n].db.events[i]))
    ensures states[n + 1].db.events[i].state.Resolved? && !states[n].db.events[i].state.Resolved? ==>
              states[n + 1].db.events[i].resolvedAt == Some(actions[n].o.at)
  {
    var s, a := states[n], actions[n];
    RunStep(states, actions, n);
    if i < |s.db.events| {
      RowsOnlyMoveForward(s, a, i);
      if !s.db.events[i].state.Resolved? {
        RecoveryIffEvidence(s, a, i);
      }
    } else if a.Restart? {
      BackfillIsIdle(s, a.hosts);
    }
  }

  lemma RowStays(states: seq<Hub>, actions: seq<Action>, n: nat, i: nat)
    requires Run(states, actions) && n < |actions| && i < |states[n].db.events|
    ensures i < |states[n + 1].db.events| && RowForward(states[n].db.events[i], states[n + 1].db.events[i])
  {
    RunStep(states, actions, n);
    RowsOnlyMoveForward(states[n], actions[n], i);
  }

  lemma {:induction false} RowsForwardOverRun(states: seq<Hub>, actions: seq<Action>, m: nat, n: nat, i: nat)
    requires Run(states, actions) && m <= n < |states| && i < |states[m].db.events|
    ensures i < |states[n].db.events|
    ensures RowForward(states[m].db.events[i], states[n].db.events[i])
    decreases n
  {
    if m < n {
      RowsForwardOverRun(states, actions, m, n - 1, i);
      RowStays(states, actions, n - 1, i);
    }
  }

  // No recovery without evidence, over whole runs: behind every resolved row
  // there is the committed observation that proved its recovery, made while
  // the row was there.
  lemma {:induction false} ResolvedHasEvidence(states: seq<Hub>, actions: seq<Action>, n: nat, i: nat)
    requires Run(states, actions) && n < |states|
    requires i < |states[n].db.events| && states[n].db.events[i].state.Resolved?
    ensures exists m :: 0 <= m < n && i < |states[m].db.events| && !states[m].db.events[i].state.Resolved?
                        && Proves(actions[m], states[n].db.events[i])
                        && states[n].db.events[i].resolvedAt == Some(actions[m].o.at)
  {
    assert states[0].db.events == [];
    RowStep(states, actions, n - 1, i);
    if states[n - 1].db.events[i].state.Resolved? {
      ResolvedHasEvidence(states, actions, n - 1, i);
    } else {
      assert Proves(actions[n - 1], states[n].db.events[i]);
    }
  }

  // ---- Openings ----

  // Hysteresis over whole runs: an event of any family but the listeners is
  // open iff some committed observation raised it and none since cleared it.
  lemma OpenIffRaisedLast(states: seq<Hub>, actions: seq<Action>, n: nat, host: HostId, key: Key)
    requires Run(states, actions) && n < |states| && !key.ListenerAdded?
    ensures IsOpen(states[n].db.events, host, key) <==> RaisedLast(states[n].history, host, key)
    ensures IsOpen(states[n].db.events, host, key) <==> exists i :: ShownAt(states[n].history, host, key, i)
  {
    RunKeeps(states, actions, n);
    var history := states[n].history;
    forall i ensures ShownAt(history, host, key, i) <==> RaisedAt(history, host, key, i) {
      forall j | 0 <= j < |history|
        ensures ReadingOf(key, history[j]).Raised? <==> Shown(key, history[j])
        ensures ReadingOf(key, history[j]).Cleared? <==> Recovered(key, history[j])
      {
        ReadingMeans(key, history[j]);
      }
    }
  }

  // An observation shows the condition and no later one of the host proves
  // its recovery.
  ghost predicate ShownAt(history: seq<Observation>, host: HostId, key: Key, i: int) {
    && 0 <= i < |history| && history[i].host == host && Shown(key, history[i])
    && forall j :: i < j < |history| && history[j].host == host ==> !Recovered(key, history[j])
  }

  // The same for memory, with the thresholds written out.
  lemma MemoryHysteresis(states: seq<Hub>, actions: seq<Action>, n: nat, host: HostId)
    requires Run(states, actions) && n < |states|
    ensures IsOpen(states[n].db.events, host, MemoryPressure) <==>
      exists i :: 0 <= i < |states[n].history| && MemoryAt(states[n].history[i], host, 85)
        && forall j :: i < j < |states[n].history| && MemorySample(states[n].history[j], host)
             ==> MemoryAt(states[n].history[j], host, 80)
  {
    OpenIffRaisedLast(states, actions, n, host, MemoryPressure);
    var history := states[n].history;
    forall i | 0 <= i < |history|
      ensures ShownAt(history, host, MemoryPressure, i) <==>
        MemoryAt(history[i], host, 85)
        && forall j :: i < j < |history| && MemorySample(history[j], host) ==> MemoryAt(history[j], host, 80)
    {
      if ShownAt(history, host, MemoryPressure, i) {
        forall j | i < j < |history| && MemorySample(history[j], host) ensures MemoryAt(history[j], host, 80) {
          assert !Recovered(MemoryPressure, history[j]);
        }
      }
    }
  }

  // An online observation with a memory sample, and with this much in use.
  ghost predicate MemorySample(o: Observation, host: HostId) {
    && o.host == host && o.online && o.resources.Some? && o.resources.value.memory.total > 0
    && !Warned(o, "meminfo")
  }

  ghost predicate MemoryAt(o: Observation, host: HostId, atLeast: int) {
    MemorySample(o, host) &&
    var memory := o.resources.value.memory;
    memory.used > 0 && memory.used * 100 >= atLeast * memory.total
  }

  // A listener event opens exactly for a wildcard outside the last complete
  // collection, unless this collection is the complete one right after downtime.
  lemma ListenerOpensExactly(states: seq<Hub>, actions: seq<Action>, n: nat, e: string)
    requires Run(states, actions) && n < |actions| && actions[n].Observe?
    ensures var o := actions[n].o;
            var s := states[n];
            var known := LastComplete(s.history, o.host);
            var predecessor := Latest(s.db.observations, o.host);
            (!IsOpen(s.db.events, o.host, ListenerAdded(e)) && IsOpen(states[n + 1].db.events, o.host, ListenerAdded(e)))
            <==>
            && !IsOpen(s.db.events, o.host, ListenerAdded(e))
            && known.Some? && ListenerShown(o, e) && e !in known.value
            && (Absent(ListenerAdded(e), o) || (predecessor.Some? && predecessor.value.online))
  {
    ListenerMissingIff(actions[n].o, e);
    WildcardIff(actions[n].o, e);
    var s, a := states[n], actions[n];
    RunStep(states, actions, n);
    SignalKeys(s.db, a.o);
    ActiveByKeyIsOpen(s.db.events, a.o.host);
    OpenKeysAreSignals(s.db.events, a.o.host, a.o.at, SignalsOf(s.db, a.o), a.added);
    assert IsOpen(states[n + 1].db.events, a.o.host, ListenerAdded(e)) <==> Emits(ListenerAdded(e), ContextOf(s.db, a.o));
    assert BaselineOf(s.db.baselines, a.o.host) == match LastComplete(s.history, a.o.host)
      case None => Baseline({}, false)
      case Some(keys) => Baseline(keys, true);
  }

  // What the last complete collection of a host is.
  lemma {:induction false} LastCompleteMeans(history: seq<Observation>, host: HostId)
    ensures LastComplete(history, host).None? ==> forall m :: 0 <= m < |history| ==> !CompleteAt(history, host, m)
    ensures LastComplete(history, host).Some? ==>
              exists m :: LastCompleteAt(history, host, m, LastComplete(history, host).value)
  {
    if history != [] {
      var n := |history| - 1;
      CompleteIff(history[n], "");
      LastCompleteMeans(history[..n], host);
      forall m | 0 <= m < n ensures CompleteAt(history, host, m) <==> CompleteAt(history[..n], host, m) {
      }
      if CompleteAt(history, host, n) {
        forall e ensures e in Wildcards(history[n]) <==> ListenerShown(history[n], e) {
          WildcardIff(history[n], e);
        }
        assert LastCompleteAt(history, host, n, Wildcards(history[n]));
      } else if LastComplete(history[..n], host).Some? {
        var keys := LastComplete(history[..n], host).value;
        var m :| LastCompleteAt(history[..n], host, m, keys);
        assert history[..n][m] == history[m];
        assert LastComplete(history, host) == Some(keys);
        assert LastCompleteAt(history, host, m, keys);
      } else {
        assert LastComplete(history, host).None?;
        forall m | 0 <= m < |history| ensures !CompleteAt(history, host, m) {
          if m < n {
            assert !CompleteAt(history[..n], host, m);
          }
        }
      }
    }
  }

  ghost predicate CompleteAt(history: seq<Observation>, host: HostId, m: int) {
    0 <= m < |history| && history[m].host == host && history[m].online && !Absent(ListenerAdded(""), history[m])
  }

  ghost predicate LastCompleteAt(history: seq<Observation>, host: HostId, m: int, keys: set<string>) {
    && CompleteAt(history, host, m)
    && (forall j :: m < j < |history| ==> !CompleteAt(history, host, j))
    && (forall e :: e in keys <==> ListenerShown(history[m], e))
  }

  // The stored baseline is the last committed complete collection.
  lemma BaselineIsLastComplete(states: seq<Hub>, actions: seq<Action>, n: nat, host: HostId)
    requires Run(states, actions) && n < |states|
    ensures BaselineOf(states[n].db.baselines, host).established <==> LastComplete(states[n].history, host).Some?
    ensures LastComplete(states[n].history, host).Some? ==>
              BaselineOf(states[n].db.baselines, host).keys == LastComplete(states[n].history, host).value
  {
    RunKeeps(states, actions, n);
    assert BaselineOf(states[n].db.baselines, host) == match LastComplete(states[n].history, host)
      case None => Baseline({}, false)
      case Some(keys) => Baseline(keys, true);
  }

  // Rows appear one commit at a time, for keys that were not open before it.
  lemma {:induction false} Birth(states: seq<Hub>, actions: seq<Action>, n: nat, j: nat) returns (m: nat)
    requires Run(states, actions) && n < |states| && j < |states[n].db.events|
    ensures m < n && |states[m].db.events| <= j < |states[m + 1].db.events|
    ensures actions[m].Observe? && actions[m].o.host == states[n].db.events[j].host
    ensures !IsOpen(states[m].db.events, states[n].db.events[j].host, states[n].db.events[j].key)
  {
    var s, a := states[n - 1], actions[n - 1];
    RunStep(states, actions, n - 1);
    if j < |s.db.events| {
      m := Birth(states, actions, n - 1, j);
      RowsOnlyMoveForward(s, a, j);
    } else {
      if a.Restart? {
        BackfillIsIdle(s, a.hosts);
      }
      m := n - 1;
      SignalKeys(s.db, a.o);
      assert a.added[j - |s.db.events|] in a.added;
    }
  }

  // One commit never inserts two rows of one key.
  lemma CommitHasNoTwins(db: Tables, o: Observation, policies: seq<Policy>, added: seq<Key>, closed: seq<nat>, i: nat, j: nat)
    requires TableOk(db.events) && Commits(db, o, policies, added, closed)
    requires |db.events| <= i < j < |Commit(db, o, policies, added, closed).events|
    ensures Commit(db, o, policies, added, closed).events[i].key != Commit(db, o, policies, added, closed).events[j].key
  {
    SignalKeys(db, o);
    NewRowsDiffer(db.events, o.host, o.at, SignalsOf(db, o), added, i, j);
  }

  lemma KeyStays(states: seq<Hub>, actions: seq<Action>, m: nat, n: nat, i: nat)
    requires Run(states, actions) && m <= n < |states| && i < |states[m].db.events|
    ensures i < |states[n].db.events| && states[n].db.events[i].key == states[m].db.events[i].key
  {
    RowsForwardOverRun(states, actions, m, n, i);
  }

  lemma CommittedStep(states: seq<Hub>, actions: seq<Action>, n: nat)
    requires Run(states, actions) && n < |actions| && actions[n].Observe?
    ensures var a, db := actions[n], states[n].db;
      && TableOk(db.events) && Commits(db, a.o, a.policies, a.added, a.recovered)
      && states[n + 1].db == Commit(db, a.o, a.policies, a.added, a.recovered)
  {
    RunKeeps(states, actions, n);
    assert StepAt(states, actions, n);
  }

  lemma NewKeysDiffer(states: seq<Hub>, actions: seq<Action>, b: nat, i: nat, j: nat)
    requires Run(states, actions) && b < |actions| && actions[b].Observe?
    requires |states[b].db.events| <= i < j < |states[b + 1].db.events|
    ensures states[b + 1].db.events[i].key != states[b + 1].db.events[j].key
  {
    CommittedStep(states, actions, b);
    var a := actions[b];
    CommitHasNoTwins(states[b].db, a.o, a.policies, a.added, a.recovered, i, j);
  }

  lemma TwinsCannotBeBorn(states: seq<Hub>, actions: seq<Action>, b: nat, n: nat, i: nat, j: nat)
    requires Run(states, actions) && b < n < |states| && actions[b].Observe?
    requires |states[b].db.events| <= i < j < |states[b + 1].db.events|
    ensures j < |states[n].db.events| && states[n].db.events[i].key != states[n].db.events[j].key
  {
    NewKeysDiffer(states, actions, b, i, j);
    KeyStays(states, actions, b + 1, n, i);
    KeyStays(states, actions, b + 1, n, j);
  }

  // Between two openings of one key the history proves its recovery.
  lemma RecoveryBetweenOpenings(states: seq<Hub>, actions: seq<Action>, n: nat, i: nat, j: nat)
    requires Run(states, actions) && n < |states| && i < j < |states[n].db.events|
    requires states[n].db.events[i].host == states[n].db.events[j].host
    requires states[n].db.events[i].key == states[n].db.events[j].key
    ensures exists m :: 0 <= m < n && i < |states[m].db.events| <= j && Proves(actions[m], states[n].db.events[i])
  {
    var b := Birth(states, actions, n, j);
    if |states[b].db.events| <= i {
      TwinsCannotBeBorn(states, actions, b, n, i, j);
      assert false;
    }
    RowsForwardOverRun(states, actions, b, n, i);
    assert Open(states[b].db.events[i], states[b].db.events[i].host) || states[b].db.events[i].state.Resolved?;
    ResolvedHasEvidence(states, actions, b, i);
    var m :| 0 <= m < b && i < |states[m].db.events| && Proves(actions[m], states[b].db.events[i]);
    if |states[m].db.events| > j {
      RowsForwardOverRun(states, actions, m, b, j);
    }
  }

  // A listener that was reported and is reported again was away in between, in
  // a complete collection of an online host.
  lemma ListenerAwayBetweenOpenings(states: seq<Hub>, actions: seq<Action>, n: nat, i: nat, j: nat, e: string)
    requires Run(states, actions) && n < |states| && i < j < |states[n].db.events|
    requires states[n].db.events[i].host == states[n].db.events[j].host
    requires states[n].db.events[i].key == states[n].db.events[j].key == ListenerAdded(e)
    ensures exists m :: 0 <= m < n && i < |states[m].db.events| <= j && actions[m].Observe?
              && actions[m].o.host == states[n].db.events[i].host
              && actions[m].o.online && !Absent(ListenerAdded(e), actions[m].o) && !ListenerShown(actions[m].o, e)
  {
    RecoveryBetweenOpenings(states, actions, n, i, j);
    var m :| 0 <= m < n && i < |states[m].db.events| <= j && Proves(actions[m], states[n].db.events[i]);
    assert Recovered(ListenerAdded(e), actions[m].o);
  }

  // ---- Notifications ----

  lemma {:induction false} QueueEvolves(states: seq<Hub>, actions: seq<Action>, m: nat, n: nat)
    requires Run(states, actions) && m <= n < |states|
    ensures Evolves(states[m].db.outbox, states[n].db.outbox)
    decreases n
  {
    if m < n {
      QueueEvolves(states, actions, m, n - 1);
      RunStep(states, actions, n - 1);
      StepKeeps(states[n - 1], actions[n - 1]);
    }
  }

  // A recovery is announced only after its opening was attempted, and never
  // after the opening was cancelled; a resolved event stands behind both.
  lemma RecoveryMessagesAreBacked(states: seq<Hub>, actions: seq<Action>, n: nat, i: nat)
    requires Run(states, actions) && n < |states| && i < |states[n].db.outbox|
    requires states[n].db.outbox[i].transition.Recovery?
    ensures var outbox := states[n].db.outbox;
            && outbox[i].event < |states[n].db.events| && states[n].db.events[outbox[i].event].state.Resolved?
            && (exists j :: 0 <= j < |outbox| && Backs(outbox[j], outbox[i]))
            && (forall j :: 0 <= j < |outbox| && Same(outbox[j], outbox[i].event, Opening, outbox[i].channel)
                 ==> !outbox[j].state.Cancelled?)
  {
    RunKeeps(states, actions, n);
    var outbox := states[n].db.outbox;
    assert DeliveryOk(outbox[i], states[n].db.events);
    forall j | 0 <= j < |outbox| && Same(outbox[j], outbox[i].event, Opening, outbox[i].channel)
      ensures !outbox[j].state.Cancelled?
    {
      if outbox[j].state.Cancelled? {
        CancelledStaysSilent(outbox, states[n].db.events, j, i);
      }
    }
  }

  // A backing opening stays one: once announced, never cancelled later.
  lemma BackingIsForGood(states: seq<Hub>, actions: seq<Action>, m: nat, n: nat, i: nat, j: nat)
    requires Run(states, actions) && m <= n < |states| && i < |states[m].db.outbox| && j < |states[m].db.outbox|
    requires states[m].db.outbox[i].transition.Recovery? && Backs(states[m].db.outbox[j], states[m].db.outbox[i])
    ensures |states[m].db.outbox| <= |states[n].db.outbox|
    ensures Backs(states[n].db.outbox[j], states[n].db.outbox[i])
  {
    QueueEvolves(states, actions, m, n);
    assert RowEvolves(states[m].db.outbox[i], states[n].db.outbox[i]) && RowEvolves(states[m].db.outbox[j], states[n].db.outbox[j]);
    RecoveryMessagesAreBacked(states, actions, n, i);
  }

  // One row per event, transition and channel; finished rows never change.
  lemma QueueRowsAreUniqueAndFinal(states: seq<Hub>, actions: seq<Action>, m: nat, n: nat)
    requires Run(states, actions) && m <= n < |states|
    ensures OneRowEach(states[n].db.outbox)
    ensures |states[m].db.outbox| <= |states[n].db.outbox|
    ensures forall i :: 0 <= i < |states[m].db.outbox| && Terminal(states[m].db.outbox[i])
              ==> states[n].db.outbox[i] == states[m].db.outbox[i]
  {
    RunKeeps(states, actions, n);
    QueueEvolves(states, actions, m, n);
    forall i | 0 <= i < |states[m].db.outbox| && Terminal(states[m].db.outbox[i])
      ensures states[n].db.outbox[i] == states[m].db.outbox[i]
    {
      assert RowEvolves(states[m].db.outbox[i], states[n].db.outbox[i]);
    }
  }

  // How often a row was claimed before position n of a run.
  function Claims(actions: seq<Action>, n: nat, id: nat): nat
    requires n <= |actions|
  {
    if n == 0 then 0
    else Claims(actions, n - 1, id) + if actions[n - 1].Claim? && actions[n - 1].id == id then 1 else 0
  }

  function Attempts(outbox: seq<Delivery>, id: nat): nat {
    if id < |outbox| then outbox[id].attempts else 0
  }

  lemma AttemptsStep(states: seq<Hub>, actions: seq<Action>, n: nat, id: nat)
    requires Run(states, actions) && n < |actions|
    ensures Attempts(states[n + 1].db.outbox, id) ==
            Attempts(states[n].db.outbox, id) + if actions[n].Claim? && actions[n].id == id then 1 else 0
  {
    var s, a := states[n], actions[n];
    RunStep(states, actions, n);
    if a.Observe? {
      JobsInRangeAfter(s.db, a.o, a.policies, a.added, a.recovered);
      EnqueueCounts(s.db.outbox, states[n + 1].db.events, CommitJobs(s.db, a.policies, a.added, a.recovered), a.o.at);
    } else if a.Restart? {
      BackfillIsIdle(s, a.hosts);
    }
  }

  // The attempts a row records are the claims of it, no more and no less.
  lemma {:induction false} AttemptsAreClaims(states: seq<Hub>, actions: seq<Action>, n: nat, id: nat)
    requires Run(states, actions) && n < |states|
    ensures Attempts(states[n].db.outbox, id) == Claims(actions, n, id)
  {
    if n > 0 {
      AttemptsAreClaims(states, actions, n - 1, id);
      AttemptsStep(states, actions, n - 1, id);
    }
  }

  // A row is claimed at most eight times plus once per lost lease, and never
  // before its not-before time.
  lemma ClaimsAreBounded(states: seq<Hub>, actions: seq<Action>, n: nat)
    requires Run(states, actions) && n < |states|
    ensures forall i: nat :: Claims(actions, n, i) <= 8 + Lost(states[n].lost, i)
    ensures forall i :: 0 <= i < |states[n].db.outbox| ==> states[n].db.outbox[i].attempts == Claims(actions, n, i)
    ensures n < |actions| && actions[n].Claim? ==>
              actions[n].id < |states[n].db.outbox| && states[n].db.outbox[actions[n].id].notBefore <= actions[n].now
              && actions[n].id < |states[n + 1].db.outbox|
              && states[n + 1].db.outbox[actions[n].id].attempts == states[n].db.outbox[actions[n].id].attempts + 1
  {
    RunKeeps(states, actions, n);
    forall i: nat
      ensures Claims(actions, n, i) <= 8 + Lost(states[n].lost, i)
      ensures i < |states[n].db.outbox| ==> states[n].db.outbox[i].attempts == Claims(actions, n, i)
    {
      AttemptsAreClaims(states, actions, n, i);
      if i < |states[n].db.outbox| {
        assert RowBudget(states[n], i);
      }
    }
    if n < |actions| && actions[n].Claim? {
      RunStep(states, actions, n);
      ClaimKeeps(states[n], actions[n]);
    }
  }

  // New openings wait out the cooldown of their policy, counted from every
  // delivery of the same key text on the channel that the queue already holds.
  lemma {:induction false} EnqueueWaits(outbox: seq<Delivery>, events: seq<Event>, jobs: seq<Job>, at: int, i: nat, j: nat)
    requires JobsInRange(jobs, events) && i < |outbox| <= j < |Enqueue(outbox, events, jobs, at)|
    requires var d := Enqueue(outbox, events, jobs, at)[j];
             d.transition.Opening? && CoolsDown(outbox[i], d.channel, d.text)
    ensures var d := Enqueue(outbox, events, jobs, at)[j];
            exists job :: job in jobs && job.transition.Opening? && job.policy.channel == d.channel
              && (job.policy.cooldown > 0 ==> outbox[i].deliveredAt.value + job.policy.cooldown <= d.notBefore)
  {
    var n := |jobs| - 1;
    var before := Enqueue(outbox, events, jobs[..n], at);
    EnqueueCounts(outbox, events, jobs[..n], at);
    var d := Enqueue(outbox, events, jobs, at)[j];
    if j < |before| {
      EnqueueWaits(outbox, events, jobs[..n], at, i, j);
      var job :| job in jobs[..n] && job.transition.Opening? && job.policy.channel == d.channel
        && (job.policy.cooldown > 0 ==> outbox[i].deliveredAt.value + job.policy.cooldown <= d.notBefore);
      assert job in jobs;
    } else {
      assert before[i] == outbox[i] && CoolsDown(before[i], d.channel, d.text);
      assert jobs[n] in jobs;
    }
  }

  lemma CooldownIsRespected(states: seq<Hub>, actions: seq<Action>, m: nat, n: nat, i: nat, j: nat, policy: Policy)
    requires Run(states, actions) && m < n < |states| && actions[m].Observe?
    requires policy in actions[m].policies && policy.cooldown > 0
    requires i < |states[m].db.outbox| <= j < |states[m + 1].db.outbox|
    requires j < |states[n].db.outbox|
    requires var d := states[n].db.outbox[j];
             d.transition.Opening? && d.channel == policy.channel && d.state.Delivered?
             && CoolsDown(states[m].db.outbox[i], d.channel, d.text)
    ensures states[n].db.outbox[j].deliveredAt.Some?
    ensures states[n].db.outbox[j].deliveredAt.value >= states[m].db.outbox[i].deliveredAt.value + policy.cooldown
  {
    var s, a := states[m], actions[m];
    QueueEvolves(states, actions, m + 1, n);
    RunKeeps(states, actions, n);
    RunStep(states, actions, m);
    assert RowEvolves(states[m + 1].db.outbox[j], states[n].db.outbox[j]);
    assert DeliveryOk(states[n].db.outbox[j], states[n].db.events);
    JobsInRangeAfter(s.db, a.o, a.policies, a.added, a.recovered);
    var jobs := CommitJobs(s.db, a.policies, a.added, a.recovered);
    EnqueueWaits(s.db.outbox, states[m + 1].db.events, jobs, a.o.at, i, j);
    var job :| job in jobs && job.transition.Opening? && job.policy.channel == policy.channel
      && (job.policy.cooldown > 0 ==> s.db.outbox[i].deliveredAt.value + job.policy.cooldown <= states[m + 1].db.outbox[j].notBefore);
    JobsOfMembers(NewIds(|s.db.events|, |a.added|), Opening, a.policies);
    JobsOfMembers(a.recovered, Recovery, a.policies);
    assert job.policy in a.policies;
    assert job.policy == policy;
  }

  // ---- The events table ----

  lemma OpenEventsAreUnique(states: seq<Hub>, actions: seq<Action>, n: nat)
    requires Run(states, actions) && n < |states|
    ensures OneOpenPerText(states[n].db.events) && OneOpenPerKey(states[n].db.events)
    ensures forall i :: 0 <= i < |states[n].db.events| ==> states[n].db.events[i].kind == KindOf(states[n].db.events[i].key)
  {
    RunKeeps(states, actions, n);
    IndexSeparatesKeys(states[n].db.events);
    forall i | 0 <= i < |states[n].db.events| ensures states[n].db.events[i].kind == KindOf(states[n].db.events[i].key) {
      assert RowOk(states[n].db.events[i]);
    }
  }
}
