// Following cursors through one snapshot (internal/storage/sqlite.go, frontend/src/app.ts).
module EventPagingRuns {
  import opened EventPaging

  // `frozen` remembers every snapshot ever taken; it is not part of the server.
  datatype Server = Server(rows: Table, cache: Cache, frozen: Cache)

  // Between two requests of a client events may be inserted and updated, never
  // deleted, and other clients may list as well.
  datatype Step =
    | Change(rows: Table)
    | List(q: Query, now: int, listed: seq<string>, freshId: string)

  predicate IdsOk(rows: Table) {
    "" !in rows
  }

  ghost predicate Next(s: Server, step: Step, s': Server) {
    match step
    case Change(rows) => IdsOk(rows) && s.rows.Keys <= rows.Keys && s' == s.(rows := rows)
    case List(q, now, listed, freshId) =>
      && IsListing(s.rows, q.host, q.state, listed) && SnapshotIdOk(freshId) && freshId !in s.frozen
      && s'.rows == s.rows && CacheAfter(s.cache, s'.cache, q, now, listed, freshId)
      && s'.frozen == if Freezes(q) then s.frozen[freshId := Snapshot(freshId, q.host, q.state, listed, now)] else s.frozen
  }

  ghost predicate Run(states: seq<Server>, steps: seq<Step>) {
    && |states| == |steps| + 1
    && IdsOk(states[0].rows) && states[0].cache == map[] && states[0].frozen == map[]
    && forall i | 0 <= i < |steps| :: StepAt(states, steps, i)
  }

  ghost predicate StepAt(states: seq<Server>, steps: seq<Step>, i: int) {
    0 <= i < |steps| < |states| && Next(states[i], steps[i], states[i + 1])
  }

  ghost predicate FrozenOk(rows: Table, snapshot: Snapshot) {
    Distinct(snapshot.ids) && forall id | id in snapshot.ids :: id in rows && id != ""
  }

  // The cache is bounded and agrees with what was frozen.
  ghost predicate CacheOk(rows: Table, cache: Cache, frozen: Cache) {
    && |cache| <= EVENT_SNAPSHOT_LIMIT
    && (forall id | id in cache :: id in frozen && cache[id] == frozen[id])
    && (forall id | id in frozen :: frozen[id].id == id && FrozenOk(rows, frozen[id]))
  }

  ghost predicate Inv(s: Server) {
    IdsOk(s.rows) && CacheOk(s.rows, s.cache, s.frozen)
  }

  ghost predicate Remembers(s: Server, s': Server) {
    forall id | id in s.frozen :: id in s'.frozen && s'.frozen[id] == s.frozen[id]
  }

  lemma ListKeeps(s: Server, q: Query, now: int, listed: seq<string>, freshId: string, s': Server)
    requires Inv(s) && Next(s, List(q, now, listed, freshId), s')
    ensures Inv(s') && Remembers(s, s')
  {
    ListingIsDistinct(s.rows, q.host, q.state, listed);
  }

  lemma StepKeeps(s: Server, step: Step, s': Server)
    requires Inv(s) && Next(s, step, s')
    ensures Inv(s') && Remembers(s, s')
  {
    match step
    case Change(rows) =>
    case List(q, now, listed, freshId) => ListKeeps(s, q, now, listed, freshId, s');
  }

  lemma {:induction false} RunKeeps(states: seq<Server>, steps: seq<Step>, n: nat)
    requires Run(states, steps) && n < |states|
    ensures Inv(states[n])
  {
    if n > 0 {
      RunKeeps(states, steps, n - 1);
      assert StepAt(states, steps, n - 1);
      StepKeeps(states[n - 1], steps[n - 1], states[n]);
    }
  }

  lemma {:induction false} RunRemembers(states: seq<Server>, steps: seq<Step>, m: nat, n: nat)
    requires Run(states, steps) && m <= n < |states|
    ensures Remembers(states[m], states[n])
    decreases n
  {
    if m < n {
      RunRemembers(states, steps, m, n - 1);
      RunKeeps(states, steps, n - 1);
      assert StepAt(states, steps, n - 1);
      StepKeeps(states[n - 1], steps[n - 1], states[n]);
    }
  }

  // The cache never holds more than 64 snapshots.
  lemma CacheIsBounded(states: seq<Server>, steps: seq<Step>, n: nat)
    requires Run(states, steps) && n < |states|
    ensures |states[n].cache| <= EVENT_SNAPSHOT_LIMIT
  {
    RunKeeps(states, steps, n);
  }

  // ---- Pages of one snapshot ----

  function AnswerAt(s: Server, step: Step): Answer
    requires step.List?
  {
    AnswerTo(s.rows, s.cache, step.q, step.now, step.listed, step.freshId)
  }

  lemma {:induction false} StoredAll(rows: Table, ids: seq<string>)
    requires forall id | id in ids :: id in rows
    ensures Stored(rows, ids) == ids
  {
    if ids != [] {
      StoredAll(rows, ids[1..]);
      assert ids[0] in ids;
    }
  }

  // A page is a slice of the frozen list.
  lemma CutIsSlice(rows: Table, snapshot: Snapshot, start: nat, limit: nat)
    requires FrozenOk(rows, snapshot)
    ensures var ids, page := snapshot.ids, Cut(rows, snapshot.ids, snapshot.id, start, limit);
      var from := Min(start, |ids|);
      && page.events == ids[from..Min(from + limit, |ids|)]
      && page.snapshot == snapshot.id && page.matched == |ids| && page.offset == from
      && (page.hasMore <==> from + limit < |ids|)
  {
    var ids := snapshot.ids;
    var from := Min(start, |ids|);
    forall id | id in ids[from..Min(from + limit, |ids|)]
      ensures id in rows
    {
      assert id in ids;
    }
    StoredAll(rows, ids[from..Min(from + limit, |ids|)]);
  }

  // The page behind the first n ids of a frozen list.
  lemma PageBehind(rows: Table, snapshot: Snapshot, offset: nat, n: nat, limit: nat)
    requires FrozenOk(rows, snapshot) && n <= |snapshot.ids| && limit >= 1 && (n == 0 ==> offset == 0)
    ensures var ids := snapshot.ids;
      var end := Min(n + limit, |ids|);
      CutAfter(rows, ids, snapshot.id, offset, if n == 0 then "" else ids[n - 1], limit)
      == Ok(Page(ids[n..end], snapshot.id, |ids|, n, end < |ids|))
  {
    if n > 0 {
      assert snapshot.ids[n - 1] in snapshot.ids;
    }
    CutIsSlice(rows, snapshot, n, limit);
  }

  // Requests ks[0] < ks[1] < ... of a run follow one cursor: the first takes
  // the snapshot, each later one resumes it behind the last event received,
  // as long as the page before had more, and each was answered.
  ghost predicate Follows(states: seq<Server>, steps: seq<Step>, ks: seq<nat>) {
    && |ks| > 0
    && (forall i | 0 <= i < |ks| :: AnsweredAt(states, steps, ks[i]))
    && Freezes(steps[ks[0]].q)
    && (forall i | 0 < i < |ks| :: ResumesAt(states, steps, ks[i - 1], ks[i], PageAt(states, steps, ks[0]).snapshot))
  }

  ghost predicate AnsweredAt(states: seq<Server>, steps: seq<Step>, k: nat) {
    k < |steps| < |states| && steps[k].List? && AnswerAt(states[k], steps[k]).Ok?
  }

  ghost function PageAt(states: seq<Server>, steps: seq<Step>, k: nat): Page
    requires AnsweredAt(states, steps, k)
  {
    AnswerAt(states[k], steps[k]).page
  }

  ghost predicate ResumesAt(states: seq<Server>, steps: seq<Step>, before: nat, k: nat, snapshot: string)
    requires AnsweredAt(states, steps, before) && AnsweredAt(states, steps, k)
  {
    var page := PageAt(states, steps, before);
    && before < k && page.hasMore && page.events != []
    && steps[k].q.snapshot == snapshot && steps[k].q.after == page.events[|page.events| - 1]
  }

  ghost function Received(states: seq<Server>, steps: seq<Step>, ks: seq<nat>): seq<string>
    requires forall i | 0 <= i < |ks| :: AnsweredAt(states, steps, ks[i])
  {
    if ks == [] then []
    else Received(states, steps, ks[..|ks| - 1]) + PageAt(states, steps, ks[|ks| - 1]).events
  }

  lemma FollowsInit(states: seq<Server>, steps: seq<Step>, ks: seq<nat>)
    requires Follows(states, steps, ks) && |ks| > 1
    ensures Follows(states, steps, ks[..|ks| - 1])
  {
    var init := ks[..|ks| - 1];
    forall i | 0 <= i < |init|
      ensures AnsweredAt(states, steps, init[i])
    {
      assert AnsweredAt(states, steps, ks[i]);
    }
    forall i | 0 < i < |init|
      ensures ResumesAt(states, steps, init[i - 1], init[i], PageAt(states, steps, init[0]).snapshot)
    {
      assert ResumesAt(states, steps, ks[i - 1], ks[i], PageAt(states, steps, ks[0]).snapshot);
    }
  }

  lemma FirstPage(states: seq<Server>, steps: seq<Step>, k: nat)
    requires Run(states, steps) && AnsweredAt(states, steps, k) && Freezes(steps[k].q)
    ensures var ids, end := steps[k].listed, Min(steps[k].q.limit, |steps[k].listed|);
      && PageAt(states, steps, k) == Page(ids[..end], steps[k].freshId, |ids|, 0, end < |ids|)
      && steps[k].freshId in states[k + 1].frozen && states[k + 1].frozen[steps[k].freshId].ids == ids
  {
    var s, step := states[k], steps[k];
    assert StepAt(states, steps, k);
    RunKeeps(states, steps, k);
    var snapshot := Snapshot(step.freshId, step.q.host, step.q.state, step.listed, step.now);
    ListingIsDistinct(s.rows, step.q.host, step.q.state, step.listed);
    assert FrozenOk(s.rows, snapshot);
    PageBehind(s.rows, snapshot, 0, 0, step.q.limit);
  }

  lemma LaterPage(states: seq<Server>, steps: seq<Step>, m: nat, k: nat, n: nat)
    requires Run(states, steps) && AnsweredAt(states, steps, k) && m <= k
    requires var q, frozen := steps[k].q, states[m].frozen;
      && q.snapshot in frozen && 0 < n <= |frozen[q.snapshot].ids| && q.after == frozen[q.snapshot].ids[n - 1]
    ensures var ids := states[m].frozen[steps[k].q.snapshot].ids;
      var end := Min(n + steps[k].q.limit, |ids|);
      PageAt(states, steps, k) == Page(ids[n..end], steps[k].q.snapshot, |ids|, n, end < |ids|)
  {
    var s, step := states[k], steps[k];
    RunKeeps(states, steps, k);
    RunRemembers(states, steps, m, k);
    var q, snapshot := step.q, s.frozen[step.q.snapshot];
    assert FrozenOk(s.rows, snapshot) && q.after in snapshot.ids;
    PageBehind(s.rows, snapshot, q.offset, n, q.limit);
  }

  // `got` is what a client has of a frozen list after its last page: a prefix,
  // with "has more" telling whether anything is left.
  predicate Delivered(ids: seq<string>, snapshot: string, got: seq<string>, last: Page) {
    && got <= ids && last.matched == |ids| && last.snapshot == snapshot
    && (last.hasMore <==> |got| < |ids|)
    && (last.events != [] ==> got != [] && last.events[|last.events| - 1] == got[|got| - 1])
  }

  lemma DeliveredMore(ids: seq<string>, snapshot: string, got: seq<string>, limit: nat, page: Page)
    requires got <= ids
    requires var n, end := |got|, Min(|got| + limit, |ids|);
      page == Page(ids[n..end], snapshot, |ids|, n, end < |ids|)
    ensures Delivered(ids, snapshot, got + page.events, page)
  {
  }

  // Paging is lossless: whatever the page limits, and whatever changes between
  // requests, the pages of one snapshot are its frozen list in order, without
  // gap or repeat.
  lemma {:induction false} PagingIsLossless(states: seq<Server>, steps: seq<Step>, ks: seq<nat>)
    requires Run(states, steps) && Follows(states, steps, ks)
    ensures Delivered(steps[ks[0]].listed, steps[ks[0]].freshId, Received(states, steps, ks), PageAt(states, steps, ks[|ks| - 1]))
    decreases |ks|
  {
    var first, k := steps[ks[0]], ks[|ks| - 1];
    FirstPage(states, steps, ks[0]);
    if |ks| == 1 {
      assert ks[..0] == [];
      DeliveredMore(first.listed, first.freshId, [], first.q.limit, PageAt(states, steps, k));
    } else {
      FollowsInit(states, steps, ks);
      PagingIsLossless(states, steps, ks[..|ks| - 1]);
      assert ResumesAt(states, steps, ks[|ks| - 2], k, PageAt(states, steps, ks[0]).snapshot);
      IncreasingIndices(states, steps, ks);
      var got := Received(states, steps, ks[..|ks| - 1]);
      LaterPage(states, steps, ks[0] + 1, k, |got|);
      DeliveredMore(first.listed, first.freshId, got, steps[k].q.limit, PageAt(states, steps, k));
    }
  }

  lemma {:induction false} IncreasingIndices(states: seq<Server>, steps: seq<Step>, ks: seq<nat>)
    requires Follows(states, steps, ks)
    ensures |ks| > 1 ==> ks[0] < ks[|ks| - 1]
    decreases |ks|
  {
    if |ks| > 1 {
      assert ResumesAt(states, steps, ks[|ks| - 2], ks[|ks| - 1], PageAt(states, steps, ks[0]).snapshot);
      FollowsInit(states, steps, ks);
      IncreasingIndices(states, steps, ks[..|ks| - 1]);
    }
  }
}
