// What a listing holds and when a request gets which page, read off the query, the rows and the cached snapshot.
module PagingMeaning {
  import opened Text
  import opened StringOrder
  import opened EventPaging

  // A row of the listing of one host, or of all hosts for "".
  predicate Asked(row: Row, host: string, state: string) {
    && (host != "" ==> row.host == host)
    && (state == "ongoing" ==> row.state.Active? || row.state.Acknowledged?)
    && (state == "active" ==> row.state.Active?)
    && (state == "acknowledged" ==> row.state.Acknowledged?)
    && (state == "resolved" ==> row.state.Resolved?)
  }

  // Active rows come first and resolved ones last; within a state the latest
  // observed come first, and of those the larger ids.
  predicate InOrder(x: Row, a: string, y: Row, b: string) {
    && (y.state.Active? ==> x.state.Active?)
    && (x.state.Resolved? ==> y.state.Resolved?)
    && (x.state == y.state ==> x.lastObservedAt >= y.lastObservedAt)
    && (x.state == y.state && x.lastObservedAt == y.lastObservedAt ==> Less(b, a))
  }

  lemma ListingMeans(rows: Table, host: string, state: string, ids: seq<string>)
    requires IsListing(rows, host, state, ids)
    ensures forall id :: id in ids <==> id in rows && Asked(rows[id], host, state)
    ensures forall i, j | 0 <= i < j < |ids| :: InOrder(rows[ids[i]], ids[i], rows[ids[j]], ids[j])
  {
    forall i, j | 0 <= i < j < |ids|
      ensures InOrder(rows[ids[i]], ids[i], rows[ids[j]], ids[j])
    {
      assert ListedBefore(rows, ids[i], ids[j]);
    }
  }

  // Ids without a stored row are left out, the others stay in order.
  lemma {:induction false} StoredMeans(rows: Table, a: seq<string>, b: seq<string>)
    ensures Stored(rows, a + b) == Stored(rows, a) + Stored(rows, b)
    ensures |a| == 1 ==> Stored(rows, a) == if a[0] in rows then a else []
    ensures forall id :: id in Stored(rows, a) <==> id in a && id in rows
  {
    if a == [] {
      assert a + b == b;
    } else {
      assert (a + b)[1..] == a[1..] + b;
      StoredMeans(rows, a[1..], b);
    }
  }

  // ---- Requests ----

  predicate RangeOk(q: Query) {
    1 <= q.limit <= 500 && q.offset >= 0
  }

  predicate CursorOk(q: Query) {
    TrimSpace(q.after) == q.after && |q.after| <= 128
  }

  predicate NamesSnapshot(id: string) {
    && |id| == 37 && id[..5] == "snap_"
    && forall i | 5 <= i < 37 :: id[i] in "0123456789abcdef"
  }

  // The snapshot is cached, not older than an hour, and was taken for this listing.
  predicate Usable(cache: Cache, q: Query, now: int) {
    && q.snapshot in cache && now - cache[q.snapshot].createdAt <= 3_600_000_000_000
    && cache[q.snapshot].host == q.host && cache[q.snapshot].state == q.state
  }

  predicate Served(cache: Cache, q: Query, now: int) {
    && RangeOk(q) && CursorOk(q)
    && if q.snapshot == "" then q.offset == 0 && q.after == "" && q.state in {"", "all", "ongoing", "active", "acknowledged", "resolved"}
       else NamesSnapshot(q.snapshot) && Usable(cache, q, now) && (q.after != "" ==> q.after in cache[q.snapshot].ids)
  }

  // The page starts behind the cursor's first occurrence, else at the offset.
  predicate StartsAt(ids: seq<string>, q: Query, n: nat) {
    if q.after == "" then n == Min(q.offset, |ids|)
    else 0 < n <= |ids| && ids[n - 1] == q.after && q.after !in ids[..n - 1]
  }

  lemma {:induction false} BehindFirst(ids: seq<string>, after: string)
    requires after in ids
    ensures var n := Behind(ids, after).value; 0 < n <= |ids| && ids[n - 1] == after && after !in ids[..n - 1]
  {
    if ids[0] != after {
      BehindFirst(ids[1..], after);
      var n := Behind(ids[1..], after).value;
      assert ids[..n] == [ids[0]] + ids[1..][..n - 1];
    }
  }

  lemma HexDigits(id: string)
    ensures SnapshotIdOk(id) <==> NamesSnapshot(id)
  {
    if |id| == 37 {
      forall i | 5 <= i < 37
        ensures id[i] in "0123456789abcdef" <==> '0' <= id[i] <= '9' || 'a' <= id[i] <= 'f'
        ensures id[i] in id[5..]
      {
        Hex(id[i]);
        assert id[5..][i - 5] == id[i];
      }
    }
  }

  lemma Hex(c: char)
    ensures c in "0123456789abcdef" <==> '0' <= c <= '9' || 'a' <= c <= 'f'
  {
    assert "0123456789abcdef" == ['0', '1', '2', '3', '4', '5', '6', '7', '8', '9', 'a', 'b', 'c', 'd', 'e', 'f'];
  }

  lemma PositionFound(ids: seq<string>, q: Query) returns (n: nat)
    requires q.offset >= 0 && (q.after != "" ==> q.after in ids)
    ensures StartsAt(ids, q, n)
    ensures q.after != "" ==> Behind(ids, q.after) == Some(n)
  {
    if q.after == "" {
      n := Min(q.offset, |ids|);
    } else {
      BehindFirst(ids, q.after);
      n := Behind(ids, q.after).value;
    }
  }

  // Which requests get a page.
  lemma ServedIff(rows: Table, cache: Cache, q: Query, now: int, listed: seq<string>, freshId: string)
    ensures AnswerTo(rows, cache, q, now, listed, freshId).Ok? <==> Served(cache, q, now)
  {
    HexDigits(q.snapshot);
  }

  // Which page that is: the stored rows of up to `limit` ids behind the start.
  lemma PageMeans(rows: Table, cache: Cache, q: Query, now: int, listed: seq<string>, freshId: string) returns (n: nat)
    requires Served(cache, q, now)
    ensures var ids := if q.snapshot == "" then listed else cache[q.snapshot].ids;
      && n <= |ids| && StartsAt(ids, q, n)
      && var end := if |ids| < n + q.limit then |ids| else n + q.limit;
         AnswerTo(rows, cache, q, now, listed, freshId)
         == Ok(Page(Stored(rows, ids[n..end]), if q.snapshot == "" then freshId else cache[q.snapshot].id, |ids|, n, n + q.limit < |ids|))
  {
    HexDigits(q.snapshot);
    n := PositionFound(if q.snapshot == "" then listed else cache[q.snapshot].ids, q);
  }

  // The first check that fails names the error.
  lemma RefusalMeans(rows: Table, cache: Cache, q: Query, now: int, listed: seq<string>, freshId: string)
    ensures var answer := AnswerTo(rows, cache, q, now, listed, freshId);
      && (answer == Refused(BadLimit) <==> !(1 <= q.limit <= 500))
      && (answer == Refused(BadOffset) <==> 1 <= q.limit <= 500 && q.offset < 0)
      && (answer == Refused(SnapshotRequired) <==> RangeOk(q) && CursorOk(q) && q.snapshot == "" && (q.offset > 0 || q.after != ""))
      && (answer == Refused(BadState) ==> q.snapshot == "")
      && (answer == Refused(BadSnapshot) <==>
            RangeOk(q) && CursorOk(q) && q.snapshot != "" && !(NamesSnapshot(q.snapshot) && Usable(cache, q, now)))
      && (answer == Refused(BadCursor) ==>
            RangeOk(q) && (CursorOk(q) ==> q.snapshot != "" && Usable(cache, q, now) && q.after !in cache[q.snapshot].ids))
  {
    HexDigits(q.snapshot);
  }

  // ---- The cache ----

  // A request that takes a snapshot caches it, drops what is older than an
  // hour, and drops more only to keep to 64, the oldest first.
  lemma CacheMeans(cache: Cache, after: Cache, q: Query, now: int, listed: seq<string>, freshId: string)
    requires Served(cache, q, now) && q.snapshot == "" && CacheAfter(cache, after, q, now, listed, freshId)
    ensures freshId in after && after[freshId] == Snapshot(freshId, q.host, q.state, listed, now)
    ensures |after| <= 64
    ensures forall id | id in after && id != freshId :: KeptIn(cache, id, now) && after[id] == cache[id]
    ensures forall id | KeptIn(cache, id, now) && id !in after :: |after| >= 63
    ensures forall gone, id | KeptIn(cache, gone, now) && gone !in after && id in after && id != freshId ::
              cache[gone].createdAt <= cache[id].createdAt
  {
    var snapshot := Snapshot(freshId, q.host, q.state, listed, now);
    assert Puts(cache, after, snapshot);
    var kept :| MakesRoom(cache, kept, now) && after == kept[freshId := snapshot];
    RoomMeans(cache, kept, now);
    assert after.Keys == kept.Keys + {freshId};
    SubsetSize(kept.Keys, after.Keys);
  }

  predicate KeptIn(cache: Cache, id: string, now: int) {
    id in cache && now - cache[id].createdAt <= 3_600_000_000_000
  }

  lemma RoomMeans(cache: Cache, kept: Cache, now: int)
    requires MakesRoom(cache, kept, now)
    ensures |kept| <= 63
    ensures forall id | id in kept :: KeptIn(cache, id, now) && kept[id] == cache[id]
    ensures (exists id :: KeptIn(cache, id, now) && id !in kept) ==> |kept| == 63
    ensures forall gone, id | KeptIn(cache, gone, now) && gone !in kept && id in kept ::
              cache[gone].createdAt <= cache[id].createdAt
  {
    var live := Live(cache, now);
    assert forall id :: KeptIn(cache, id, now) <==> id in live;
    assert forall id | id in kept :: id in live;
    if id :| KeptIn(cache, id, now) && id !in kept {
      assert kept.Keys <= live.Keys - {id};
      SubsetSize(kept.Keys, live.Keys - {id});
    }
  }

  lemma {:induction false} SubsetSize<T>(a: set<T>, b: set<T>)
    requires a <= b
    ensures |a| <= |b|
  {
    assert b == a + (b - a);
  }
}
