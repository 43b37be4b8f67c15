// Event pages cut from a frozen list of ids
// (internal/storage/sqlite.go, internal/hub/server.go).
module EventPaging {
  import opened Text
  import opened StringOrder
  import Rules = EventRules
  import Telemetry

  datatype Row = Row(host: string, state: Rules.EventState, lastObservedAt: int)

  type Table = map<string, Row>

  datatype Query = Query(host: string, state: string, limit: int, offset: int, after: string, snapshot: string)

  // `events` are the ids of the events on the page.
  datatype Page = Page(events: seq<string>, snapshot: string, matched: nat, offset: nat, hasMore: bool)

  datatype PageError = BadLimit | BadOffset | BadCursor | BadSnapshot | SnapshotRequired | BadState

  datatype Answer = Ok(page: Page) | Refused(error: PageError)

  datatype Snapshot = Snapshot(id: string, host: string, state: string, ids: seq<string>, createdAt: int)

  type Cache = map<string, Snapshot>

  const EVENT_SNAPSHOT_TTL := 3600 * Telemetry.SECOND
  const EVENT_SNAPSHOT_LIMIT := 64

  // ---- The list a snapshot freezes ----

  predicate StateOk(state: string) {
    state in {"", "all", "ongoing", "active", "acknowledged", "resolved"}
  }

  predicate Selected(row: Row, host: string, state: string) {
    && (host == "" || row.host == host)
    && match state
       case "ongoing" => !row.state.Resolved?
       case "active" => row.state.Active?
       case "acknowledged" => row.state.Acknowledged?
       case "resolved" => row.state.Resolved?
       case _ => true
  }

  function StateRank(state: Rules.EventState): nat {
    match state
    case Active => 0
    case Acknowledged => 1
    case Resolved => 2
  }

  // Open events first, then the latest observed, then the larger id.
  predicate ListedBefore(rows: Table, a: string, b: string)
    requires a in rows && b in rows
  {
    var x, y := rows[a], rows[b];
    || StateRank(x.state) < StateRank(y.state)
    || (StateRank(x.state) == StateRank(y.state)
        && (x.lastObservedAt > y.lastObservedAt || (x.lastObservedAt == y.lastObservedAt && Less(b, a))))
  }

  // The result of the id query.
  predicate IsListing(rows: Table, host: string, state: string, ids: seq<string>) {
    && (forall id | id in ids :: id in rows && Selected(rows[id], host, state))
    && (forall id | id in rows && Selected(rows[id], host, state) :: id in ids)
    && (forall i, j | 0 <= i < j < |ids| :: ListedBefore(rows, ids[i], ids[j]))
  }

  predicate Distinct(ids: seq<string>) {
    forall i, j | 0 <= i < j < |ids| :: ids[i] != ids[j]
  }

  lemma ListingIsDistinct(rows: Table, host: string, state: string, ids: seq<string>)
    requires IsListing(rows, host, state, ids)
    ensures Distinct(ids)
  {
    forall i, j | 0 <= i < j < |ids|
      ensures ids[i] != ids[j]
    {
      assert ListedBefore(rows, ids[i], ids[j]);
      if ids[i] == ids[j] {
        LessAsymmetric(ids[j], ids[i]);
        assert false;
      }
    }
  }

  // ---- Cutting a page ----

  // The position behind the first occurrence of an id.
  function Behind(ids: seq<string>, after: string): (at: Option<nat>)
    ensures at.Some? ==> 0 < at.value <= |ids| && ids[at.value - 1] == after
    ensures at.None? <==> after !in ids
  {
    if ids == [] then None
    else if ids[0] == after then Some(1)
    else
      var rest := Behind(ids[1..], after);
      if rest.None? then None else Some(rest.value + 1)
  }

  function Min(a: int, b: int): int {
    if a < b then a else b
  }

  function Max(a: int, b: int): int {
    if a < b then b else a
  }

  // The rows still stored, in the order asked for.
  function Stored(rows: Table, ids: seq<string>): seq<string> {
    if ids == [] then [] else (if ids[0] in rows then [ids[0]] else []) + Stored(rows, ids[1..])
  }

  function Cut(rows: Table, ids: seq<string>, snapshot: string, start: nat, limit: nat): Page {
    var from := Min(start, |ids|);
    var end := Min(from + limit, |ids|);
    Page(Stored(rows, ids[from..end]), snapshot, |ids|, from, end < |ids|)
  }

  function CutAfter(rows: Table, ids: seq<string>, snapshot: string, offset: nat, after: string, limit: nat): Answer {
    if after == "" then Ok(Cut(rows, ids, snapshot, offset, limit))
    else
      match Behind(ids, after)
      case None => Refused(BadCursor)
      case Some(at) => Ok(Cut(rows, ids, snapshot, at, limit))
  }

  // ---- The snapshot cache ----

  predicate Expired(snapshot: Snapshot, now: int) {
    now - snapshot.createdAt > EVENT_SNAPSHOT_TTL
  }

  function Live(cache: Cache, now: int): Cache {
    map id | id in cache && !Expired(cache[id], now) :: cache[id]
  }

  // What is kept to make room for one more: everything that has not expired,
  // except the oldest entries if there are 64 or more.
  ghost predicate MakesRoom(cache: Cache, kept: Cache, now: int) {
    var live := Live(cache, now);
    && (forall id | id in kept :: id in live && kept[id] == live[id])
    && |kept| == Min(|live|, EVENT_SNAPSHOT_LIMIT - 1)
    && (forall gone, id | gone in live && gone !in kept && id in kept :: live[gone].createdAt <= kept[id].createdAt)
  }

  ghost predicate Puts(cache: Cache, after: Cache, snapshot: Snapshot) {
    exists kept :: MakesRoom(cache, kept, snapshot.createdAt) && after == kept[snapshot.id := snapshot]
  }

  predicate Available(cache: Cache, id: string, now: int) {
    id in cache && !Expired(cache[id], now)
  }

  function AfterGet(cache: Cache, id: string, now: int): Cache {
    if Available(cache, id, now) then cache else cache - {id}
  }

  // ---- A page request ----

  predicate SnapshotIdOk(id: string) {
    |id| == 37 && "snap_" <= id && forall c | c in id[5..] :: '0' <= c <= '9' || 'a' <= c <= 'f'
  }

  function CheckQuery(q: Query): Option<PageError> {
    if q.limit < 1 || q.limit > 500 then Some(BadLimit)
    else if q.offset < 0 then Some(BadOffset)
    else if TrimSpace(q.after) != q.after || |q.after| > 128 then Some(BadCursor)
    else if q.snapshot != "" && !SnapshotIdOk(q.snapshot) then Some(BadSnapshot)
    else if q.snapshot == "" && (q.offset > 0 || q.after != "") then Some(SnapshotRequired)
    else None
  }

  // The request takes a new snapshot.
  predicate Freezes(q: Query) {
    CheckQuery(q).None? && q.snapshot == "" && StateOk(q.state)
  }

  predicate Resumes(q: Query) {
    CheckQuery(q).None? && q.snapshot != ""
  }

  // `listed` is the id query's result and `freshId` the random snapshot id,
  // both used only by a request that takes a new snapshot.
  function AnswerTo(rows: Table, cache: Cache, q: Query, now: int, listed: seq<string>, freshId: string): Answer {
    if CheckQuery(q).Some? then Refused(CheckQuery(q).value)
    else if q.snapshot == "" then
      if !StateOk(q.state) then Refused(BadState) else CutAfter(rows, listed, freshId, q.offset, q.after, q.limit)
    else if !Available(cache, q.snapshot, now) then Refused(BadSnapshot)
    else
      var snapshot := cache[q.snapshot];
      if snapshot.host != q.host || snapshot.state != q.state then Refused(BadSnapshot)
      else CutAfter(rows, snapshot.ids, snapshot.id, q.offset, q.after, q.limit)
  }

  ghost predicate CacheAfter(cache: Cache, after: Cache, q: Query, now: int, listed: seq<string>, freshId: string) {
    if Freezes(q) then Puts(cache, after, Snapshot(freshId, q.host, q.state, listed, now))
    else if Resumes(q) then after == AfterGet(cache, q.snapshot, now)
    else after == cache
  }

  class SnapshotCache {
    var snapshots: Cache

    constructor ()
      ensures snapshots == map[]
    {
      snapshots := map[];
    }

    method PutEventSnapshot(host: string, state: string, ids: seq<string>, id: string, now: int) returns (snapshot: Snapshot)
      modifies this
      ensures snapshot == Snapshot(id, host, state, ids, now)
      ensures Puts(old(snapshots), snapshots, snapshot)
      ensures |snapshots| <= EVENT_SNAPSHOT_LIMIT
    {
      snapshot := Snapshot(id, host, state, ids, now);
      DropExpired(now);
      while |snapshots| >= EVENT_SNAPSHOT_LIMIT
        invariant Thinned(Live(old(snapshots), now), snapshots)
        decreases |snapshots|
      {
        var oldest := Oldest(snapshots);
        snapshots := snapshots - {oldest};
      }
      assert MakesRoom(old(snapshots), snapshots, now);
      snapshots := snapshots[id := snapshot];
    }

    method DropExpired(now: int)
      modifies this
      ensures snapshots == Live(old(snapshots), now)
    {
      var done, todo := {}, snapshots.Keys;
      while todo != {}
        invariant done + todo == old(snapshots).Keys && done !! todo
        invariant forall id | id in snapshots :: id in old(snapshots) && snapshots[id] == old(snapshots)[id]
        invariant forall id | id in old(snapshots) :: id in snapshots <==> id in todo || !Expired(old(snapshots)[id], now)
        decreases |todo|
      {
        var id :| id in todo;
        done, todo := done + {id}, todo - {id};
        if now - snapshots[id].createdAt > EVENT_SNAPSHOT_TTL {
          snapshots := snapshots - {id};
        }
      }
    }

    method GetEventSnapshot(id: string, now: int) returns (found: Option<Snapshot>)
      modifies this
      ensures snapshots == AfterGet(old(snapshots), id, now)
      ensures found == if Available(old(snapshots), id, now) then Some(old(snapshots)[id]) else None
    {
      if id !in snapshots || now - snapshots[id].createdAt > EVENT_SNAPSHOT_TTL {
        snapshots := snapshots - {id};
        return None;
      }
      found := Some(snapshots[id]);
    }

    method ListEventPage(rows: Table, q: Query, now: int, listed: seq<string>, freshId: string) returns (answer: Answer)
      modifies this
      ensures answer == AnswerTo(rows, old(snapshots), q, now, listed, freshId)
      ensures CacheAfter(old(snapshots), snapshots, q, now, listed, freshId)
    {
      if q.limit < 1 || q.limit > 500 {
        return Refused(BadLimit);
      }
      if q.offset < 0 {
        return Refused(BadOffset);
      }
      if TrimSpace(q.after) != q.after || |q.after| > 128 {
        return Refused(BadCursor);
      }
      if q.snapshot != "" && !SnapshotIdOk(q.snapshot) {
        return Refused(BadSnapshot);
      }
      if q.snapshot == "" && (q.offset > 0 || q.after != "") {
        return Refused(SnapshotRequired);
      }
      var snapshot: Snapshot;
      if q.snapshot == "" {
        if !StateOk(q.state) {
          return Refused(BadState);
        }
        snapshot := PutEventSnapshot(q.host, q.state, listed, freshId, now);
      } else {
        var loaded := GetEventSnapshot(q.snapshot, now);
        if loaded.None? || loaded.value.host != q.host || loaded.value.state != q.state {
          return Refused(BadSnapshot);
        }
        snapshot := loaded.value;
      }
      answer := PageOf(rows, snapshot, q);
    }
  }

  method PageOf(rows: Table, snapshot: Snapshot, q: Query) returns (answer: Answer)
    requires q.limit >= 1 && q.offset >= 0
    ensures answer == CutAfter(rows, snapshot.ids, snapshot.id, q.offset, q.after, q.limit)
  {
    var start := q.offset;
    if q.after != "" {
      var index := FindId(snapshot.ids, q.after);
      if index < 0 {
        return Refused(BadCursor);
      }
      start := index + 1;
    }
    var page := CutPage(rows, snapshot, start, q.limit);
    answer := Ok(page);
  }

  method CutPage(rows: Table, snapshot: Snapshot, first: nat, limit: nat) returns (page: Page)
    ensures page == Cut(rows, snapshot.ids, snapshot.id, first, limit)
  {
    var start := first;
    if start > |snapshot.ids| {
      start := |snapshot.ids|;
    }
    var end := start + limit;
    if end > |snapshot.ids| {
      end := |snapshot.ids|;
    }
    var events := LoadEventsByIds(rows, snapshot.ids[start..end]);
    page := Page(events, snapshot.id, |snapshot.ids|, start, end < |snapshot.ids|);
  }

  method FindId(ids: seq<string>, after: string) returns (index: int)
    ensures index == if Behind(ids, after).Some? then Behind(ids, after).value - 1 else -1
  {
    for i := 0 to |ids|
      invariant after !in ids[..i]
      invariant Behind(ids, after)
             == if Behind(ids[i..], after).Some? then Some(Behind(ids[i..], after).value + i) else None
    {
      assert ids[i..][1..] == ids[i + 1..] && ids[..i + 1] == ids[..i] + [ids[i]];
      if ids[i] == after {
        return i;
      }
    }
    return -1;
  }

  method LoadEventsByIds(rows: Table, ids: seq<string>) returns (ordered: seq<string>)
    ensures ordered == Stored(rows, ids)
  {
    ordered := [];
    for i := 0 to |ids|
      invariant ordered + Stored(rows, ids[i..]) == Stored(rows, ids)
    {
      assert ids[i..][1..] == ids[i + 1..];
      if ids[i] in rows {
        ordered := ordered + [ids[i]];
      }
    }
  }

  // The eviction loop has removed some oldest entries, down to 63 at most.
  ghost predicate Thinned(live: Cache, kept: Cache) {
    && (forall id | id in kept :: id in live && kept[id] == live[id])
    && (|kept| == |live| || EVENT_SNAPSHOT_LIMIT - 1 <= |kept| <= |live|)
    && (|kept| == |live| ==> kept == live)
    && (forall gone, id | gone in live && gone !in kept && id in kept :: live[gone].createdAt <= kept[id].createdAt)
  }

  predicate IsOldest(cache: Cache, oldest: string) {
    oldest in cache && forall id | id in cache :: cache[oldest].createdAt <= cache[id].createdAt
  }

  method Oldest(cache: Cache) returns (oldest: string)
    requires cache != map[]
    ensures IsOldest(cache, oldest)
  {
    var todo := cache.Keys;
    oldest :| oldest in todo;
    var done := {oldest};
    todo := todo - {oldest};
    while todo != {}
      invariant done + todo == cache.Keys && oldest in done
      invariant forall id | id in done :: cache[oldest].createdAt <= cache[id].createdAt
      decreases |todo|
    {
      var id :| id in todo;
      done, todo := done + {id}, todo - {id};
      if cache[id].createdAt < cache[oldest].createdAt {
        oldest := id;
      }
    }
  }
}
