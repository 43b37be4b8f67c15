// Every action keeps the invariants of the hub: open events follow the history
// of committed observations, baselines are those of the last complete
// collections, the queue stays consistent with the events, and the notifier
// stays within its budget of attempts. The theorems about whole runs rest on
// these lemmas.
module LifecycleInvariants {
  import opened Telemetry
  import opened EventRules
  import opened EventTable
  import opened Outbox
  import opened Database
  import opened Lifecycle

  // ---- Histories ----

  lemma RaisedLastSnoc(history: seq<Observation>, o: Observation, host: HostId, key: Key)
    ensures RaisedLast(history + [o], host, key) <==>
            if o.host != host then RaisedLast(history, host, key)
            else match ReadingOf(key, o)
              case Raised => true
              case Cleared => false
              case _ => RaisedLast(history, host, key)
  {
    var longer := history + [o];
    var n := |history|;
    var survives := o.host != host || !ReadingOf(key, o).Cleared?;
    forall i | 0 <= i < n ensures RaisedAt(longer, host, key, i) <==> RaisedAt(history, host, key, i) && survives {
      if RaisedAt(longer, host, key, i) {
        assert longer[n] == o;
        forall j | i < j < n && history[j].host == host ensures !ReadingOf(key, history[j]).Cleared? {
          assert longer[j] == history[j];
        }
      }
    }
    assert RaisedAt(longer, host, key, n) <==> o.host == host && ReadingOf(key, o).Raised?;
    if RaisedLast(longer, host, key) {
      var i :| RaisedAt(longer, host, key, i);
      assert i < n ==> RaisedAt(history, host, key, i);
    }
    if RaisedLast(history, host, key) && survives {
      var i :| RaisedAt(history, host, key, i);
      assert RaisedAt(longer, host, key, i);
    }
  }

  lemma {:induction false} NoCompleteYet(history: seq<Observation>, host: HostId)
    requires LastComplete(history, host).None?
    ensures forall o :: o in history && o.host == host ==> !CompleteListeners(o)
  {
    if history != [] {
      NoCompleteYet(history[..|history| - 1], host);
      assert history == history[..|history| - 1] + [history[|history| - 1]];
    }
  }

  // ---- Observations ----

  lemma ObserveFollowsHistory(s: Hub, a: Action)
    requires Inv(s) && a.Observe? && Enabled(s, a)
    ensures EventsFollowHistory(Next(s, a)) && BaselineFollowsHistory(Next(s, a)) && ObservationsFromHistory(Next(s, a))
  {
    var o := a.o;
    var s' := Next(s, a);
    var c := ContextOf(s.db, o);
    var signals := SignalsOf(s.db, o);
    SignalKeys(s.db, o);
    ActiveByKeyIsOpen(s.db.events, o.host);
    OpenKeysAreSignals(s.db.events, o.host, o.at, signals, a.added);
    forall h, k: Key | !k.ListenerAdded? ensures IsOpen(s'.db.events, h, k) <==> RaisedLast(s'.history, h, k) {
      RaisedLastSnoc(s.history, o, h, k);
      if h == o.host {
        assert IsOpen(s'.db.events, h, k) <==> Emits(k, c);
        assert k in c.active <==> RaisedLast(s.history, h, k);
      }
    }
    forall h ensures BaselineOf(s'.db.baselines, h) ==
      match LastComplete(s'.history, h)
      case None => Baseline({}, false)
      case Some(keys) => Baseline(keys, true)
    {
      assert s'.history[..|s.history|] == s.history;
      assert BaselineOf(s.db.baselines, h) == match LastComplete(s.history, h)
        case None => Baseline({}, false)
        case Some(keys) => Baseline(keys, true);
    }
  }

  // Existing rows keep their budget when the queue grows without claims.
  lemma ObserveKeepsBudget(s: Hub, a: Action)
    requires Inv(s) && a.Observe? && Enabled(s, a)
    ensures BudgetOk(Next(s, a))
  {
    var s' := Next(s, a);
    JobsInRangeAfter(s.db, a.o, a.policies, a.added, a.recovered);
    EnqueueCounts(s.db.outbox, s'.db.events, CommitJobs(s.db, a.policies, a.added, a.recovered), a.o.at);
    forall i | 0 <= i < |s'.db.outbox| ensures RowBudget(s', i) {
      if i < |s.db.outbox| {
        assert RowBudget(s, i);
      }
    }
  }

  // Enqueueing never touches attempts, leases or the rows in flight; new rows
  // are pending and untried.
  lemma {:induction false} EnqueueCounts(outbox: seq<Delivery>, events: seq<Event>, jobs: seq<Job>, at: int)
    requires JobsInRange(jobs, events)
    ensures var after := Enqueue(outbox, events, jobs, at);
            && |after| >= |outbox|
            && (forall i :: 0 <= i < |outbox| ==> after[i] == outbox[i] || (outbox[i].state.Pending? && after[i] == outbox[i].(state := Cancelled)))
            && (forall i :: |outbox| <= i < |after| ==> after[i].attempts == 0 && (after[i].state.Pending? || after[i].state.Cancelled?))
  {
    if jobs != [] {
      EnqueueCounts(outbox, events, jobs[..|jobs| - 1], at);
    }
  }

  // ---- The queue ----

  lemma ClaimKeeps(s: Hub, a: Action)
    requires Inv(s) && a.Claim? && Enabled(s, a)
    ensures OutboxOk(Next(s, a).db.outbox, s.db.events) && BudgetOk(Next(s, a))
    ensures Evolves(s.db.outbox, Next(s, a).db.outbox)
    ensures s.db.outbox[a.id].notBefore <= a.now
  {
    var s' := Next(s, a);
    assert DeliveryOk(s.db.outbox[a.id], s.db.events) && RowBudget(s, a.id);
    ReplaceRow(s.db.outbox, s.db.events, a.id, s'.db.outbox[a.id]);
    forall i | 0 <= i < |s'.db.outbox| ensures RowBudget(s', i) {
      assert RowBudget(s, i);
    }
  }

  lemma ReportKeeps(s: Hub, a: Action)
    requires Inv(s) && a.Report? && Enabled(s, a)
    ensures OutboxOk(Next(s, a).db.outbox, s.db.events) && BudgetOk(Next(s, a))
    ensures Evolves(s.db.outbox, Next(s, a).db.outbox)
  {
    var s' := Next(s, a);
    var id := s.notifier.id;
    assert DeliveryOk(s.db.outbox[id], s.db.events);
    ReplaceRow(s.db.outbox, s.db.events, id, s'.db.outbox[id]);
    forall i | 0 <= i < |s'.db.outbox| ensures RowBudget(s', i) {
      assert RowBudget(s, i);
    }
  }

  // Rewriting one live row in place keeps the queue consistent.
  lemma ReplaceRow(outbox: seq<Delivery>, events: seq<Event>, id: nat, d: Delivery)
    requires OutboxOk(outbox, events) && id < |outbox|
    requires RowEvolves(outbox[id], d) && DeliveryOk(d, events) && !d.state.Cancelled?
    ensures OutboxOk(outbox[id := d], events) && Evolves(outbox, outbox[id := d])
  {
    var after := outbox[id := d];
    forall i, j | 0 <= i < j < |after| ensures !Same(after[j], after[i].event, after[i].transition, after[i].channel) {
      assert !Same(outbox[j], outbox[i].event, outbox[i].transition, outbox[i].channel);
    }
    forall i | 0 <= i < |after| && after[i].transition.Recovery?
      ensures exists j :: 0 <= j < |after| && Backs(after[j], after[i])
    {
      var j :| 0 <= j < |outbox| && Backs(outbox[j], outbox[i]);
      assert Backs(after[j], after[i]);
    }
  }

  lemma AbandonKeeps(s: Hub)
    requires Inv(s)
    ensures Inv(Abandon(s))
  {
    var s' := Abandon(s);
    forall i | 0 <= i < |s'.db.outbox| ensures RowBudget(s', i) {
      assert RowBudget(s, i);
    }
  }

  // ---- Restarts ----

  // From an empty database the backfill of a restart has nothing to do.
  lemma {:induction false} BackfillIsIdle(s: Hub, hosts: seq<HostId>)
    requires BaselineFollowsHistory(s) && ObservationsFromHistory(s)
    ensures Backfill(s.db, hosts) == s.db
  {
    if hosts != [] {
      var h := hosts[0];
      if !BaselineOf(s.db.baselines, h).established {
        assert LastComplete(s.history, h).None?;
        NoCompleteYet(s.history, h);
        assert FirstComplete(Recent(s.db.observations, h)).None?;
      }
      BackfillIsIdle(s, hosts[1..]);
    }
  }

  // ---- All actions ----

  lemma StepKeeps(s: Hub, a: Action)
    requires Inv(s) && Enabled(s, a)
    ensures Inv(Next(s, a))
    ensures Evolves(s.db.outbox, Next(s, a).db.outbox)
  {
    var s' := Next(s, a);
    match a
    case Observe(o, policies, added, recovered) =>
      CommitKeeps(s.db, o, policies, added, recovered);
      ObserveFollowsHistory(s, a);
      ObserveKeepsBudget(s, a);
    case Acknowledge(event, at) =>
      AcknowledgeKeeps(s.db, event, at);
      AcknowledgeKeepsTable(s.db.events, event, at);
      BudgetDependsOnQueue(s, s');
    case Claim(id, now) =>
      ClaimKeeps(s, a);
    case Report(answer) =>
      ReportKeeps(s, a);
    case Crash =>
      AbandonKeeps(s);
    case Prune(before) =>
      BudgetDependsOnQueue(s, s');
    case Restart(hosts) =>
      AbandonKeeps(s);
      BackfillIsIdle(s, hosts);
  }

  lemma BudgetDependsOnQueue(s: Hub, s': Hub)
    requires BudgetOk(s) && s'.db.outbox == s.db.outbox && s'.notifier == s.notifier && s'.lost == s.lost
    ensures BudgetOk(s')
  {
    forall i | 0 <= i < |s'.db.outbox| ensures RowBudget(s', i) {
      assert RowBudget(s, i);
    }
  }

  lemma {:induction false} RunKeeps(states: seq<Hub>, actions: seq<Action>, n: nat)
    requires Run(states, actions) && n < |states|
    ensures Inv(states[n])
  {
    if n > 0 {
      RunKeeps(states, actions, n - 1);
      assert StepAt(states, actions, n - 1);
      StepKeeps(states[n - 1], actions[n - 1]);
    }
  }

  // One step of a run, with the invariants in front of it.
  lemma RunStep(states: seq<Hub>, actions: seq<Action>, n: nat)
    requires Run(states, actions) && n < |actions|
    ensures Inv(states[n]) && Enabled(states[n], actions[n]) && states[n + 1] == Next(states[n], actions[n])
  {
    RunKeeps(states, actions, n);
    assert StepAt(states, actions, n);
  }
}
