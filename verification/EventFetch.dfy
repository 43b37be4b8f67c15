// The browser's page loop (frontend/src/app.ts).
module EventFetch {
  import opened Text
  import opened EventPaging
  import Runs = EventPagingRuns

  const EVENTS_PAGE_SIZE := 50
  const EVENTS_MAXIMUM_LIMIT := 500

  // Adding a page, leaving out events already collected.
  function Unseen(collected: seq<string>, events: seq<string>): seq<string>
    decreases |events|
  {
    if events == [] then collected
    else Unseen(if events[0] in collected then collected else collected + [events[0]], events[1..])
  }

  lemma {:induction false} UnseenOfSlice(ids: seq<string>, n: nat, end: nat)
    requires Distinct(ids) && n <= end <= |ids|
    ensures Unseen(ids[..n], ids[n..end]) == ids[..end]
    decreases end - n
  {
    if n < end {
      assert ids[n] !in ids[..n];
      assert ids[n..end][1..] == ids[n + 1..end] && ids[..n] + [ids[n]] == ids[..n + 1];
      UnseenOfSlice(ids, n + 1, end);
    }
  }

  method CollectPage(collected: seq<string>, events: seq<string>) returns (result: seq<string>)
    ensures result == Unseen(collected, events)
  {
    result := collected;
    var seen := set id | id in collected;
    for i := 0 to |events|
      invariant seen == set id | id in result
      invariant Unseen(result, events[i..]) == Unseen(collected, events)
    {
      assert events[i..][1..] == events[i + 1..];
      if events[i] !in seen {
        result := result + [events[i]];
        seen := seen + {events[i]};
      }
    }
  }

  // How many events one request of the loop asks for.
  function RequestLimit(target: int, have: nat): int {
    Min(EVENTS_MAXIMUM_LIMIT, Max(EVENTS_PAGE_SIZE, target - have))
  }

  // What one request of the loop meets: table, cache and clock of the server
  // at that moment, and whether the reply is lost or has become stale.
  datatype Moment = Moment(rows: Table, cache: Cache, now: int, lost: bool)

  // The loop throws unless a request brings a page.
  function Reply(m: Moment, q: Query, listed: seq<string>, freshId: string): Option<Page> {
    match AnswerTo(m.rows, m.cache, q, m.now, listed, freshId)
    case Ok(page) => if m.lost then None else Some(page)
    case Refused(_) => None
  }

  // Events are never deleted, and a cached snapshot is the one that was frozen.
  ghost predicate Serves(m: Moment, snapshot: Snapshot) {
    Runs.FrozenOk(m.rows, snapshot) && (snapshot.id in m.cache ==> m.cache[snapshot.id] == snapshot)
  }

  predicate CursorsOk(ids: seq<string>) {
    forall id | id in ids :: TrimSpace(id) == id && |id| <= 128
  }

  lemma FirstReply(m: Moment, snapshot: Snapshot, limit: int)
    requires Runs.FrozenOk(m.rows, snapshot) && 1 <= limit <= 500
    ensures var q, end := Query(snapshot.host, snapshot.state, limit, 0, "", ""), Min(limit, |snapshot.ids|);
      Reply(m, q, snapshot.ids, snapshot.id) ==
      if m.lost || !StateOk(snapshot.state) then None
      else Some(Page(snapshot.ids[..end], snapshot.id, |snapshot.ids|, 0, end < |snapshot.ids|))
  {
    assert TrimSpace("") == "";
    Runs.PageBehind(m.rows, snapshot, 0, 0, limit);
  }

  lemma LaterReply(m: Moment, snapshot: Snapshot, limit: int, n: nat)
    requires Serves(m, snapshot) && SnapshotIdOk(snapshot.id) && 0 < n <= |snapshot.ids| && 1 <= limit <= 500
    ensures var ids, end := snapshot.ids, Min(n + limit, |snapshot.ids|);
      var q := Query(snapshot.host, snapshot.state, limit, 0, ids[n - 1], snapshot.id);
      && (Reply(m, q, ids, snapshot.id).Some? ==>
           Reply(m, q, ids, snapshot.id) == Some(Page(ids[n..end], snapshot.id, |ids|, n, end < |ids|)))
      && (Reply(m, q, ids, snapshot.id).None? && CursorsOk(ids) ==>
           m.lost || !Available(m.cache, snapshot.id, m.now))
  {
    assert snapshot.ids[n - 1] in snapshot.ids;
    Runs.PageBehind(m.rows, snapshot, 0, n, limit);
  }

  // One round of the loop: the events behind those collected so far.
  method RequestPage(m: Moment, q: Query, listed: seq<string>, freshId: string, before: seq<string>, ghost frozen: Snapshot)
    returns (reply: Option<Page>, collected: seq<string>)
    requires Serves(m, frozen) && SnapshotIdOk(freshId) && before <= listed
    requires frozen.id == freshId && frozen.ids == listed && 1 <= q.limit <= 500
    requires q == if before == [] then Query(frozen.host, frozen.state, q.limit, 0, "", "")
                  else Query(frozen.host, frozen.state, q.limit, 0, before[|before| - 1], freshId)
    ensures reply.Some? ==>
      var n, end := |before|, Min(|before| + q.limit, |listed|);
      reply.value == Page(listed[n..end], freshId, |listed|, n, end < |listed|) && collected == listed[..end]
    ensures reply.None? && CursorsOk(listed) ==>
      m.lost || if before == [] then !StateOk(frozen.state) else !Available(m.cache, freshId, m.now)
  {
    reply, collected := Reply(m, q, listed, freshId), [];
    ghost var n := |before|;
    if before == [] {
      FirstReply(m, frozen, q.limit);
    } else {
      LaterReply(m, frozen, q.limit, n);
    }
    if reply.Some? {
      assert before == listed[..n];
      UnseenOfSlice(listed, n, Min(n + q.limit, |listed|));
      collected := CollectPage(before, reply.value.events);
    }
  }

  // The whole loop. Each request meets the server at a moment of its own; the
  // first one takes the snapshot of the events listed then. Unless a request
  // fails, the loop stops with a prefix of that list of at least the wanted
  // length, or all of it.
  method FetchEventPages(host: string, state: string, targetCount: int,
                         moments: nat -> Moment, listed: seq<string>, freshId: string)
    returns (failed: bool, collected: seq<string>, lastPage: Page)
    requires IsListing(moments(0).rows, host, state, listed) && SnapshotIdOk(freshId)
    requires forall k :: Serves(moments(k), Snapshot(freshId, host, state, listed, moments(0).now))
    ensures !failed ==> collected <= listed
    ensures !failed ==> |collected| >= Min(Max(EVENTS_PAGE_SIZE, targetCount), |listed|)
    ensures !failed ==> lastPage.snapshot == freshId && (lastPage.hasMore <==> |collected| < |listed|)
    ensures failed && CursorsOk(listed) ==>
      !StateOk(state) || exists k :: moments(k).lost || (k > 0 && !Available(moments(k).cache, freshId, moments(k).now))
  {
    ghost var frozen := Snapshot(freshId, host, state, listed, moments(0).now);
    collected := [];
    var snapshot, after, k := "", "", 0;
    var target := Max(EVENTS_PAGE_SIZE, targetCount);
    lastPage := Page([], "", 0, 0, false);
    while |collected| < target
      invariant collected <= listed
      invariant k == 0 <==> collected == []
      invariant k == 0 ==> snapshot == "" && after == ""
      invariant k > 0 ==> snapshot == freshId && after == collected[|collected| - 1]
      invariant k > 0 ==> lastPage.snapshot == freshId && (lastPage.hasMore <==> |collected| < |listed|)
      decreases target - |collected|
    {
      var q := Query(host, state, RequestLimit(target, |collected|), 0, after, snapshot);
      var reply, more := RequestPage(moments(k), q, listed, freshId, collected, frozen);
      if reply.None? {
        return true, [], lastPage;
      }
      collected, lastPage, snapshot := more, reply.value, reply.value.snapshot;
      if !lastPage.hasMore || |lastPage.events| == 0 {
        break;
      }
      after := lastPage.events[|lastPage.events| - 1];
      assert after in listed;
      if after == "" || snapshot == "" {
        break;
      }
      k := k + 1;
    }
    failed := false;
  }
}
