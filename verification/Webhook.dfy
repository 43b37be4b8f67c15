// One delivery of the sequential webhook notifier (internal/hub/webhook.go).
module Webhook {
  import opened Text
  import opened Outbox
  import opened SqliteStore
  import opened Lifecycle

  // A row that waits to be sent, or whose sender has not come back in time.
  predicate Overdue(d: Delivery, now: int) {
    d.channel == "webhook" && (d.state == Pending || d.state == Sending) && d.nextAttempt <= now
  }

  predicate WorthRetrying(answer: Answer) {
    answer.Unreachable? || (answer.Status? && (answer.code in {408, 425, 429} || answer.code >= 500))
  }

  // What one delivery makes of its row: delivered on a status from 200 to 299,
  // back in the queue after 5 s, 30 s, 2 min, 10 min, 30 min and then an hour
  // where a retry is worth it, and failed for good otherwise or after the
  // eighth attempt.
  function Tried(d: Delivery, answer: Answer, now: int): Delivery {
    var attempt := d.attempts + 1;
    if answer.Status? && 200 <= answer.code <= 299 then
      Delivery(d.event, d.transition, d.channel, d.text, Delivered, attempt, d.notBefore, now, Some(now))
    else if attempt < 8 && WorthRetrying(answer) then
      Delivery(d.event, d.transition, d.channel, d.text, Pending, attempt, d.notBefore,
               now + 1_000_000_000 * (if attempt <= 5 then [5, 30, 120, 600, 1800][attempt - 1] else 3600), d.deliveredAt)
    else
      Delivery(d.event, d.transition, d.channel, d.text, Failed, attempt, d.notBefore, now, d.deliveredAt)
  }

  // The reports of the hub's runs do the same.
  lemma ReportedMeans(outbox: seq<Delivery>, id: nat, now: int, answer: Answer)
    requires id < |outbox|
    ensures Reported(Claimed(outbox, id, now + LEASE), Busy(id, outbox[id].attempts + 1, now), answer)
         == outbox[id := Tried(outbox[id], answer, now)]
  {
  }

  // And a claim leases the row for thirty seconds.
  lemma ClaimMeans(outbox: seq<Delivery>, id: nat, now: int)
    requires id < |outbox|
    ensures Claimed(outbox, id, now + LEASE) ==
      outbox[id := outbox[id].(state := Sending, attempts := outbox[id].attempts + 1, nextAttempt := now + 30_000_000_000)]
  {
  }

  // Claims the next due row, sends it and reports what the receiver answered.
  // The queue ends as the claim and the report of a hub run leave it.
  method DeliverNext(store: Store, now: int, answer: Answer) returns (processed: bool, ghost id: nat)
    modifies store`outbox
    ensures processed <==> exists j :: 0 <= j < |old(store.outbox)| && Overdue(old(store.outbox)[j], now)
    ensures !processed ==> store.outbox == old(store.outbox)
    ensures processed ==>
      && 0 <= id < |old(store.outbox)| && Overdue(old(store.outbox)[id], now)
      && (forall j :: 0 <= j < |old(store.outbox)| && Overdue(old(store.outbox)[j], now) ==>
            old(store.outbox)[id].nextAttempt < old(store.outbox)[j].nextAttempt
            || (old(store.outbox)[id].nextAttempt == old(store.outbox)[j].nextAttempt && id <= j))
      && store.outbox == old(store.outbox)[id := Tried(old(store.outbox)[id], answer, now)]
    ensures processed ==>
      && FirstDue(old(store.outbox), id, CHANNEL, now)
      && store.outbox == Reported(Claimed(old(store.outbox), id, now + LEASE),
                                  Busy(id, old(store.outbox)[id].attempts + 1, now), answer)
  {
    var found, row := store.ClaimEventNotification(CHANNEL, now, now + LEASE);
    processed, id := found, row;
    forall j | 0 <= j < |old(store.outbox)|
      ensures Due(old(store.outbox)[j], CHANNEL, now) <==> Overdue(old(store.outbox)[j], now)
    {
    }
    if !found {
      return;
    }
    ReportedMeans(old(store.outbox), id, now, answer);
    var attempt := store.outbox[row].attempts;
    var leased: bool;
    if Accepted2xx(answer) {
      leased := store.MarkEventNotificationDelivered(row, now);
    } else {
      leased := FinishFailure(store, row, attempt, now, Final(answer, attempt));
    }
  }

  method FinishFailure(store: Store, id: nat, attempt: nat, now: int, terminal: bool) returns (leased: bool)
    modifies store`outbox
    ensures leased <==> id < |old(store.outbox)| && old(store.outbox)[id].state.Sending?
    ensures store.outbox ==
      if leased then Retried(old(store.outbox), id, if terminal then now else now + RetryDelay(attempt), terminal)
      else old(store.outbox)
  {
    var nextAttempt := now;
    if !terminal {
      nextAttempt := now + RetryDelay(attempt);
    }
    leased := store.RetryEventNotification(id, nextAttempt, terminal);
  }
}
