// The events table and its reconciliation with signals (internal/storage/sqlite.go).
// Rows are never deleted, so the position of a row stands for its random id.
module EventTable {
  import opened Text
  import opened Telemetry
  import opened EventRules

  predicate Open(e: Event, host: HostId) {
    e.host == host && !e.state.Resolved?
  }

  ghost predicate IsOpen(events: seq<Event>, host: HostId, key: Key) {
    exists i :: 0 <= i < |events| && Open(events[i], host) && events[i].key == key
  }

  // Rows the table accepts (Event.Validate without the texts).
  predicate RowOk(e: Event) {
    && e.kind == KindOf(e.key)
    && e.firstObserved <= e.lastObserved
    && (e.acknowledgedAt.Some? ==> e.firstObserved <= e.acknowledgedAt.value)
    && match e.state
       case Active => e.acknowledgedAt.None? && e.resolvedAt.None?
       case Acknowledged => e.acknowledgedAt.Some? && e.resolvedAt.None?
       case Resolved =>
         && e.resolvedAt.Some? && e.lastObserved <= e.resolvedAt.value
         && (e.acknowledgedAt.Some? ==> e.acknowledgedAt.value <= e.resolvedAt.value)
  }

  function TextOf(e: Event): string {
    DedupeKey(e.host, e.key)
  }

  // The unique index over the key texts of unresolved rows, of all hosts.
  ghost predicate OneOpenPerText(events: seq<Event>) {
    forall i, j {:trigger TextOf(events[i]), TextOf(events[j])} ::
      0 <= i < j < |events| && !events[i].state.Resolved? && !events[j].state.Resolved?
      ==> TextOf(events[i]) != TextOf(events[j])
  }

  // What that means for the rows of one host.
  ghost predicate OneOpenPerKey(events: seq<Event>) {
    forall i, j :: 0 <= i < j < |events| && Open(events[i], events[j].host) && !events[j].state.Resolved?
      ==> events[i].key != events[j].key
  }

  lemma IndexSeparatesKeys(events: seq<Event>)
    requires OneOpenPerText(events)
    ensures OneOpenPerKey(events)
  {
    forall i, j | 0 <= i < j < |events| && Open(events[i], events[j].host) && !events[j].state.Resolved?
      ensures events[i].key != events[j].key
    {
      assert TextOf(events[i]) != TextOf(events[j]);
    }
  }

  ghost predicate TableOk(events: seq<Event>) {
    && OneOpenPerText(events)
    && forall i :: 0 <= i < |events| ==> RowOk(events[i])
  }

  function ActiveByKey(events: seq<Event>, host: HostId): map<Key, Event> {
    if events == [] then map[]
    else
      var last := events[|events| - 1];
      var rest := ActiveByKey(events[..|events| - 1], host);
      if Open(last, host) then rest[last.key := last] else rest
  }

  lemma {:induction false} ActiveByKeyIsOpen(events: seq<Event>, host: HostId)
    ensures forall k :: k in ActiveByKey(events, host) <==> IsOpen(events, host, k)
    ensures forall k :: k in ActiveByKey(events, host) ==>
      exists i :: 0 <= i < |events| && Open(events[i], host) && events[i].key == k && ActiveByKey(events, host)[k] == events[i]
  {
    if events != [] {
      var n := |events| - 1;
      var rest := events[..n];
      ActiveByKeyIsOpen(rest, host);
      forall k ensures k in ActiveByKey(events, host) <==> IsOpen(events, host, k) {
        if IsOpen(rest, host, k) {
          var i :| 0 <= i < |rest| && Open(rest[i], host) && rest[i].key == k;
          assert events[i] == rest[i];
        }
        if IsOpen(events, host, k) {
          var i :| 0 <= i < |events| && Open(events[i], host) && events[i].key == k;
          if i < n {
            assert rest[i] == events[i];
          }
        }
      }
      forall k | k in ActiveByKey(events, host)
        ensures exists i :: 0 <= i < |events| && Open(events[i], host) && events[i].key == k && ActiveByKey(events, host)[k] == events[i]
      {
        if !(Open(events[n], host) && events[n].key == k) {
          var i :| 0 <= i < |rest| && Open(rest[i], host) && rest[i].key == k && ActiveByKey(rest, host)[k] == rest[i];
          assert events[i] == rest[i];
        }
      }
    }
  }

  // What one commit does to a row that is already there.
  function NextRow(e: Event, host: HostId, at: int, signals: map<Key, Signal>): Event {
    if !Open(e, host) then e
    else if e.key in signals then
      e.(kind := signals[e.key].kind, severity := signals[e.key].severity, lastObserved := at)
    else e.(state := Resolved, resolvedAt := Some(at))
  }

  function NewRow(host: HostId, at: int, s: Signal): Event {
    Event(host, s.key, s.kind, s.severity, Active, at, at, None, None)
  }

  // A commit is refused when the observation is older than an open row, or
  // would resolve a row before its acknowledgement.
  predicate RowRefuses(e: Event, host: HostId, at: int, signals: map<Key, Signal>) {
    && Open(e, host)
    && (at < e.lastObserved
        || (e.key !in signals && e.acknowledgedAt.Some? && at < e.acknowledgedAt.value))
  }

  predicate TextTaken(events: seq<Event>, text: string) {
    exists i {:trigger TextOf(events[i])} | 0 <= i < |events| :: !events[i].state.Resolved? && TextOf(events[i]) == text
  }

  // The unique index refuses the insert of a text that an unresolved row of
  // another host holds.
  predicate Clashes(e: Event, host: HostId, key: Key) {
    !e.state.Resolved? && e.host != host && TextOf(e) == DedupeKey(host, key)
  }

  predicate IndexRefuses(events: seq<Event>, host: HostId, key: Key) {
    exists i {:trigger Clashes(events[i], host, key)} | 0 <= i < |events| :: Clashes(events[i], host, key)
  }

  lemma OpenKeyNeverClashes(events: seq<Event>, host: HostId, i: nat)
    requires TableOk(events) && i < |events| && Open(events[i], host)
    ensures !IndexRefuses(events, host, events[i].key)
  {
    forall j | 0 <= j < |events| ensures !Clashes(events[j], host, events[i].key) {
      assert i != j && !events[j].state.Resolved? ==> TextOf(events[i]) != TextOf(events[j]);
    }
  }

  predicate Refused(events: seq<Event>, host: HostId, at: int, signals: map<Key, Signal>) {
    || (exists i | 0 <= i < |events| :: RowRefuses(events[i], host, at, signals))
    || (exists k {:trigger IndexRefuses(events, host, k)} | k in signals :: IndexRefuses(events, host, k))
  }

  function Touched(events: seq<Event>, host: HostId, at: int, signals: map<Key, Signal>): (touched: seq<Event>)
    ensures |touched| == |events|
  {
    seq(|events|, i requires 0 <= i < |events| => NextRow(events[i], host, at, signals))
  }

  function NewRows(host: HostId, at: int, signals: map<Key, Signal>, added: seq<Key>): (rows: seq<Event>)
    requires forall k :: k in added ==> k in signals
    ensures |rows| == |added|
  {
    seq(|added|, j requires 0 <= j < |added| => NewRow(host, at, signals[added[j]]))
  }

  function Reconciled(events: seq<Event>, host: HostId, at: int, signals: map<Key, Signal>, added: seq<Key>): seq<Event>
    requires forall k :: k in added ==> k in signals
  {
    Touched(events, host, at, signals) + NewRows(host, at, signals, added)
  }

  // The order in which a commit inserts its new rows: each new key once.
  ghost predicate OpensExactly(added: seq<Key>, events: seq<Event>, host: HostId, signals: map<Key, Signal>) {
    && (forall i, j :: 0 <= i < j < |added| ==> added[i] != added[j])
    && (forall k :: k in added <==> k in signals && !IsOpen(events, host, k))
  }

  // The rows it resolves: each open row without a signal, once.
  ghost predicate ResolvesExactly(recovered: seq<nat>, events: seq<Event>, host: HostId, signals: map<Key, Signal>) {
    && (forall i, j :: 0 <= i < j < |recovered| ==> recovered[i] != recovered[j])
    && (forall r: nat :: r in recovered <==> r < |events| && Open(events[r], host) && events[r].key !in signals)
  }

  ghost predicate SignalsOk(signals: map<Key, Signal>, host: HostId) {
    forall k :: k in signals ==> signals[k].key == k && signals[k].host == host && signals[k].kind == KindOf(k)
  }

  // Where a row of the new table comes from.
  lemma RowAfter(events: seq<Event>, host: HostId, at: int, signals: map<Key, Signal>, added: seq<Key>, i: nat)
    requires (forall k :: k in added ==> k in signals) && i < |events| + |added|
    ensures var after := Reconciled(events, host, at, signals, added);
      if i < |events| then after[i] == NextRow(events[i], host, at, signals)
      else added[i - |events|] in added && after[i] == NewRow(host, at, signals[added[i - |events|]])
  {
  }

  lemma OpenRowsDiffer(events: seq<Event>, host: HostId, at: int, signals: map<Key, Signal>, added: seq<Key>, i: nat, j: nat)
    requires TableOk(events) && SignalsOk(signals, host) && OpensExactly(added, events, host, signals)
    requires !Refused(events, host, at, signals)
    requires i < j < |events| + |added|
    requires var after := Reconciled(events, host, at, signals, added);
      !after[i].state.Resolved? && !after[j].state.Resolved?
    ensures var after := Reconciled(events, host, at, signals, added); TextOf(after[i]) != TextOf(after[j])
  {
    var after := Reconciled(events, host, at, signals, added);
    RowAfter(events, host, at, signals, added, i);
    RowAfter(events, host, at, signals, added, j);
    if j < |events| {
      assert TextOf(events[i]) != TextOf(events[j]);
    } else if i < |events| && events[i].host != host {
      assert !IndexRefuses(events, host, after[j].key);
      assert !Clashes(events[i], host, after[j].key);
    } else {
      assert i < |events| ==> IsOpen(events, host, events[i].key);
      if TextOf(after[i]) == TextOf(after[j]) {
        SameHostText(host, after[i].key, after[j].key);
      }
    }
  }

  // One commit never inserts two rows of one key.
  lemma NewRowsDiffer(events: seq<Event>, host: HostId, at: int, signals: map<Key, Signal>, added: seq<Key>, i: nat, j: nat)
    requires SignalsOk(signals, host) && OpensExactly(added, events, host, signals)
    requires |events| <= i < j < |events| + |added|
    ensures var after := Reconciled(events, host, at, signals, added); after[i].key != after[j].key
  {
    RowAfter(events, host, at, signals, added, i);
    RowAfter(events, host, at, signals, added, j);
    assert added[i - |events|] != added[j - |events|];
  }

  // Reconciliation keeps the table well formed.
  lemma ReconcileKeepsTable(events: seq<Event>, host: HostId, at: int, signals: map<Key, Signal>, added: seq<Key>)
    requires TableOk(events) && SignalsOk(signals, host) && OpensExactly(added, events, host, signals)
    requires !Refused(events, host, at, signals)
    ensures TableOk(Reconciled(events, host, at, signals, added))
  {
    var after := Reconciled(events, host, at, signals, added);
    forall i | 0 <= i < |after|
      ensures RowOk(after[i])
    {
    }
    forall i, j | 0 <= i < j < |after| && !after[i].state.Resolved? && !after[j].state.Resolved?
      ensures TextOf(after[i]) != TextOf(after[j])
    {
      OpenRowsDiffer(events, host, at, signals, added, i, j);
    }
  }

  // After the commit exactly the signalled keys are open on the host, and
  // nothing changed on any other host.
  lemma OpenKeysAreSignals(events: seq<Event>, host: HostId, at: int, signals: map<Key, Signal>, added: seq<Key>)
    requires SignalsOk(signals, host) && OpensExactly(added, events, host, signals)
    ensures forall k :: IsOpen(Reconciled(events, host, at, signals, added), host, k) <==> k in signals
    ensures forall h, k :: h != host ==>
      (IsOpen(Reconciled(events, host, at, signals, added), h, k) <==> IsOpen(events, h, k))
  {
    forall k
      ensures IsOpen(Reconciled(events, host, at, signals, added), host, k) <==> k in signals
    {
      OpenKeyOnHost(events, host, at, signals, added, k);
    }
    forall h, k | h != host
      ensures IsOpen(Reconciled(events, host, at, signals, added), h, k) <==> IsOpen(events, h, k)
    {
      OpenKeyElsewhere(events, host, at, signals, added, h, k);
    }
  }

  lemma OpenKeyOnHost(events: seq<Event>, host: HostId, at: int, signals: map<Key, Signal>, added: seq<Key>, k: Key)
    requires SignalsOk(signals, host) && OpensExactly(added, events, host, signals)
    ensures IsOpen(Reconciled(events, host, at, signals, added), host, k) <==> k in signals
  {
    var after := Reconciled(events, host, at, signals, added);
    if IsOpen(after, host, k) {
      var i :| 0 <= i < |after| && Open(after[i], host) && after[i].key == k;
      RowAfter(events, host, at, signals, added, i);
    }
    if k in signals {
      if IsOpen(events, host, k) {
        var i :| 0 <= i < |events| && Open(events[i], host) && events[i].key == k;
        RowAfter(events, host, at, signals, added, i);
        assert Open(after[i], host);
      } else {
        var j :| 0 <= j < |added| && added[j] == k;
        RowAfter(events, host, at, signals, added, |events| + j);
        assert Open(after[|events| + j], host);
      }
    }
  }

  lemma OpenKeyElsewhere(events: seq<Event>, host: HostId, at: int, signals: map<Key, Signal>, added: seq<Key>, h: HostId, k: Key)
    requires SignalsOk(signals, host) && OpensExactly(added, events, host, signals) && h != host
    ensures IsOpen(Reconciled(events, host, at, signals, added), h, k) <==> IsOpen(events, h, k)
  {
    var after := Reconciled(events, host, at, signals, added);
    if IsOpen(after, h, k) {
      var i :| 0 <= i < |after| && Open(after[i], h) && after[i].key == k;
      RowAfter(events, host, at, signals, added, i);
    }
    if IsOpen(events, h, k) {
      var i :| 0 <= i < |events| && Open(events[i], h) && events[i].key == k;
      RowAfter(events, host, at, signals, added, i);
      assert Open(after[i], h);
    }
  }

  // Acknowledgement of one row. None is the refusal that leaves the table alone.
  datatype AckOutcome = Accepted(row: Event) | NotFound | AlreadyResolved | TooEarly

  function AcknowledgeRow(events: seq<Event>, id: int, at: int): AckOutcome {
    if id < 0 || id >= |events| then NotFound
    else
      var e := events[id];
      match e.state
      case Resolved => AlreadyResolved
      case Acknowledged => Accepted(e)
      case Active =>
        if at < e.firstObserved then TooEarly
        else Accepted(e.(state := Acknowledged, acknowledgedAt := Some(at)))
  }

  function AfterAcknowledge(events: seq<Event>, id: int, at: int): (after: seq<Event>)
    ensures |after| == |events|
  {
    match AcknowledgeRow(events, id, at)
    case Accepted(row) => events[id := row]
    case _ => events
  }

  lemma AcknowledgeKeepsTable(events: seq<Event>, id: int, at: int)
    requires TableOk(events)
    ensures TableOk(AfterAcknowledge(events, id, at))
    ensures forall h, k :: IsOpen(AfterAcknowledge(events, id, at), h, k) <==> IsOpen(events, h, k)
  {
    var after := AfterAcknowledge(events, id, at);
    forall i | 0 <= i < |events| ensures RowOk(after[i]) && (forall h :: Open(after[i], h) <==> Open(events[i], h)) && TextOf(after[i]) == TextOf(events[i]) && after[i].key == events[i].key {
    }
    forall h, k ensures IsOpen(after, h, k) <==> IsOpen(events, h, k) {
      if IsOpen(after, h, k) {
        var i :| 0 <= i < |after| && Open(after[i], h) && after[i].key == k;
        assert Open(events[i], h);
      }
      if IsOpen(events, h, k) {
        var i :| 0 <= i < |events| && Open(events[i], h) && events[i].key == k;
        assert Open(after[i], h);
      }
    }
    forall i, j | 0 <= i < j < |after| && !after[i].state.Resolved? && !after[j].state.Resolved?
      ensures TextOf(after[i]) != TextOf(after[j])
    {
      assert Open(events[i], events[i].host) && Open(events[j], events[j].host);
      assert TextOf(events[i]) != TextOf(events[j]);
    }
  }

  // What an acknowledgement makes of the table.
  ghost predicate AcknowledgedRow(e: Event, e': Event, chosen: bool, at: int) {
    if chosen && e.state.Active? && at >= e.firstObserved
    then e' == Event(e.host, e.key, e.kind, e.severity, Acknowledged, e.firstObserved, e.lastObserved, Some(at), e.resolvedAt)
    else e' == e
  }

  lemma AcknowledgeWritesOneRow(events: seq<Event>, id: int, at: int, i: nat)
    requires i < |events|
    ensures AcknowledgedRow(events[i], AfterAcknowledge(events, id, at)[i], i == id, at)
  {
  }

  // The answer of an acknowledgement.
  lemma AcknowledgeAnswers(events: seq<Event>, id: int, at: int)
    ensures AcknowledgeRow(events, id, at).NotFound? <==> !(0 <= id < |events|)
    ensures 0 <= id < |events| ==>
      && (AcknowledgeRow(events, id, at).AlreadyResolved? <==> events[id].state.Resolved?)
      && (AcknowledgeRow(events, id, at).TooEarly? <==> events[id].state.Active? && at < events[id].firstObserved)
      && (AcknowledgeRow(events, id, at).Accepted? ==> AcknowledgeRow(events, id, at).row == AfterAcknowledge(events, id, at)[id])
  {
  }

  // Only the chosen row may change, and an answer says why it did not.
  ghost predicate Acknowledges(events: seq<Event>, after: seq<Event>, id: int, at: int, outcome: AckOutcome) {
    && |after| == |events|
    && (forall i :: 0 <= i < |events| ==> AcknowledgedRow(events[i], after[i], i == id, at))
    && (outcome.NotFound? <==> !(0 <= id < |events|))
    && (0 <= id < |events| ==>
         && (outcome.AlreadyResolved? <==> events[id].state.Resolved?)
         && (outcome.TooEarly? <==> events[id].state.Active? && at < events[id].firstObserved)
         && (outcome.Accepted? ==> outcome.row == after[id]))
  }

  lemma AcknowledgeMeans(events: seq<Event>, id: int, at: int)
    ensures Acknowledges(events, AfterAcknowledge(events, id, at), id, at, AcknowledgeRow(events, id, at))
  {
    AcknowledgeAnswers(events, id, at);
    forall i | 0 <= i < |events| ensures AcknowledgedRow(events[i], AfterAcknowledge(events, id, at)[i], i == id, at) {
      AcknowledgeWritesOneRow(events, id, at, i);
    }
  }
}
