// What a summary of failed logins says of the records it was built from (internal/agent/ssh_auth.go).
module SshMeaning {
  import opened Text
  import opened Telemetry
  import opened SshSummary
  import opened SshTheorems

  // The message reports a failed login from this address.
  predicate Reports(lib: Library, text: string, a: Address) {
    && lib.find(text).Some? && lib.parse(TrimSpace(lib.find(text).value)).Some?
    && a == lib.unmap(lib.parse(TrimSpace(lib.find(text).value)).value)
  }

  // Addresses in order: by width, then by value, then by zone.
  predicate AddressBefore(a: Address, b: Address) {
    if a.width != b.width then a.width < b.width
    else if a.bits != b.bits then a.bits < b.bits
    else StringOrder.Less(a.zone, b.zone)
  }

  // More failures come first, and among equals the smaller address.
  predicate Outranks(m: multiset<Address>, a: Address, b: Address) {
    if m[a] != m[b] then m[a] > m[b] else AddressBefore(a, b)
  }

  // The second a time falls into.
  predicate SecondOf(t: int, second: int) {
    second % 1_000_000_000 == 0 && second <= t < second + 1_000_000_000
  }

  ghost predicate TopOf(lib: Library, m: multiset<Address>, sources: seq<SshSource>, listed: seq<Address>) {
    && |listed| == |sources| <= 20
    && (forall i :: 0 <= i < |listed| ==> listed[i] in m && sources[i] == SshSource(lib.format(listed[i]), m[listed[i]]))
    && (forall i, j :: 0 <= i < j < |listed| ==> Outranks(m, listed[i], listed[j]))
    && (forall a :: a in m && a !in listed ==> |listed| == 20 && forall i :: 0 <= i < |listed| ==> Outranks(m, listed[i], a))
  }

  // The summary of a multiset of failures.
  ghost predicate SummaryOf(lib: Library, m: multiset<Address>, start: int, end: int, s: Summary) {
    && SecondOf(start, s.windowStart) && SecondOf(end, s.windowEnd)
    && s.failedTotal == |m|
    && exists listed :: TopOf(lib, m, s.sources, listed)
  }

  lemma RanksMean(counts: Counts, m: multiset<Address>, a: Address, b: Address)
    requires a in counts && b in counts && counts[a] == m[a] && counts[b] == m[b]
    ensures Ranks(counts, a, b) <==> Outranks(m, a, b)
  {
  }

  lemma TallyCounts(failures: seq<Address>)
    ensures forall a :: (a in Tally(failures) <==> a in multiset(failures))
                        && (a in Tally(failures) ==> Tally(failures)[a] == multiset(failures)[a])
  {
    forall a
      ensures (a in Tally(failures) <==> a in multiset(failures)) && (a in Tally(failures) ==> Tally(failures)[a] == multiset(failures)[a])
    {
      TallyIsMultiset(failures, a);
    }
  }

  lemma OrderOutranks(counts: Counts, m: multiset<Address>, order: seq<Address>)
    requires Ranked(counts, order) && forall a :: a in counts ==> counts[a] == m[a]
    ensures forall i, j :: 0 <= i < j < |order| ==> Outranks(m, order[i], order[j])
  {
    forall i, j | 0 <= i < j < |order| ensures Outranks(m, order[i], order[j]) {
      assert order[i] in order && order[j] in order && Ranks(counts, order[i], order[j]);
      RanksMean(counts, m, order[i], order[j]);
    }
  }

  lemma ListsTop(lib: Library, counts: Counts, m: multiset<Address>, order: seq<Address>, sources: seq<SshSource>)
    requires Lists(lib, counts, order, sources)
    requires forall a :: (a in counts <==> a in m) && (a in counts ==> counts[a] == m[a])
    ensures TopOf(lib, m, sources, order[..|sources|])
  {
    var listed := order[..|sources|];
    OrderOutranks(counts, m, order);
    forall i | 0 <= i < |listed| ensures listed[i] in m && sources[i] == SshSource(lib.format(listed[i]), m[listed[i]]) {
      assert listed[i] == order[i] && order[i] in order;
    }
    forall a | a in m && a !in listed
      ensures |listed| == 20 && forall i :: 0 <= i < |listed| ==> Outranks(m, listed[i], a)
    {
      assert a in order;
      var j :| 0 <= j < |order| && order[j] == a;
      LeftOut(order, |listed|, j);
    }
  }

  lemma LeftOut(order: seq<Address>, n: nat, j: nat)
    requires j < |order| && n <= |order| && order[j] !in order[..n]
    ensures j >= n
  {
    assert forall k | 0 <= k < n :: order[..n][k] == order[k];
  }

  lemma SecondsMean(t: int)
    ensures SecondOf(t, Seconds(t))
  {
  }

  lemma SummaryMeans(lib: Library, failures: seq<Address>, start: int, end: int, s: Summary)
    requires Summarizes(lib, failures, start, end, s)
    ensures SummaryOf(lib, multiset(failures), start, end, s)
  {
    var counts, m := Tally(failures), multiset(failures);
    var order :| Lists(lib, counts, order, s.sources);
    SecondsMean(start);
    SecondsMean(end);
    TallyCounts(failures);
    ListsTop(lib, counts, m, order, s.sources);
    assert |failures| == |m|;
  }

  // ---- The journal ----

  // A readable message that is not too long and reports a failure.
  predicate JournalHit(lib: Library, entry: Entry, a: Address) {
    entry.Message? && |entry.text| <= 4096 && Reports(lib, entry.text, a)
  }

  ghost function JournalHits(lib: Library, entries: seq<Entry>, a: Address): set<nat> {
    set i: nat | 0 <= i < |entries| && JournalHit(lib, entries[i], a)
  }

  ghost predicate CountsJournal(lib: Library, entries: seq<Entry>, m: multiset<Address>) {
    forall a :: m[a] == |JournalHits(lib, entries, a)|
  }

  lemma OneEntry(lib: Library, entry: Entry, a: Address)
    ensures multiset(JournalFailure(lib, entry))[a] == if JournalHit(lib, entry, a) then 1 else 0
  {
  }

  lemma JournalGrows(lib: Library, entries: seq<Entry>, last: Entry, a: Address)
    ensures JournalHits(lib, entries + [last], a) == JournalHits(lib, entries, a) + if JournalHit(lib, last, a) then {|entries|} else {}
  {
  }

  lemma {:induction false} JournalCounted(lib: Library, entries: seq<Entry>, a: Address)
    ensures multiset(JournalFailures(lib, entries))[a] == |JournalHits(lib, entries, a)|
  {
    if entries == [] {
      assert JournalHits(lib, entries, a) == {};
    } else {
      var n := |entries| - 1;
      JournalCounted(lib, entries[..n], a);
      OneEntry(lib, entries[n], a);
      JournalGrows(lib, entries[..n], entries[n], a);
      assert entries == entries[..n] + [entries[n]];
    }
  }

  // A journal is summarised exactly when all of it is readable and within the
  // limits, and then as its messages say.
  ghost predicate JournalSummary(lib: Library, entries: seq<Entry>, start: int, end: int, result: Result) {
    && (result.Built? ==>
         && |entries| <= 50_000 && Garbled !in entries
         && exists m :: CountsJournal(lib, entries, m) && |m| <= 1_000_000 && SummaryOf(lib, m, start, end, result.summary))
    && (!result.Built? ==>
         |entries| > 50_000 || Garbled in entries || exists m :: CountsJournal(lib, entries, m) && |m| > 1_000_000)
  }

  lemma JournalMeans(lib: Library, entries: seq<Entry>, start: int, end: int, result: Result)
    requires result.Built? <==> JournalOk(lib, entries)
    requires result.Built? ==> Summarizes(lib, JournalFailures(lib, entries), start, end, result.summary)
    ensures JournalSummary(lib, entries, start, end, result)
  {
    var failures := JournalFailures(lib, entries);
    forall a ensures multiset(failures)[a] == |JournalHits(lib, entries, a)| {
      JournalCounted(lib, entries, a);
    }
    assert CountsJournal(lib, entries, multiset(failures)) && |multiset(failures)| == |failures|;
    if result.Built? {
      SummaryMeans(lib, failures, start, end, result.summary);
    }
  }

  // ---- The text log ----

  // A line whose time stamp falls into the window, with a minute's grace.
  predicate Inside(lib: Library, line: string, start: int, end: int) {
    && line != "" && lib.loggedAt(line).Some?
    && start <= lib.loggedAt(line).value && lib.loggedAt(line).value <= end + 60_000_000_000
  }

  ghost function LogHits(lib: Library, lines: seq<string>, start: int, end: int, a: Address): set<nat> {
    set i: nat | 0 <= i < |lines| && LogHit(lib, lines[i], start, end, a)
  }

  ghost predicate CountsLog(lib: Library, lines: seq<string>, start: int, end: int, m: multiset<Address>) {
    forall a :: m[a] == |LogHits(lib, lines, start, end, a)|
  }

  predicate LogHit(lib: Library, line: string, start: int, end: int, a: Address) {
    Inside(lib, line, start, end) && Reports(lib, line, a)
  }

  lemma OneLine(lib: Library, line: string, start: int, end: int, a: Address)
    ensures multiset(LineFailure(lib, line, start, end))[a] == if LogHit(lib, line, start, end, a) then 1 else 0
  {
  }

  lemma LogGrows(lib: Library, lines: seq<string>, last: string, start: int, end: int, a: Address)
    ensures LogHits(lib, lines + [last], start, end, a) ==
            LogHits(lib, lines, start, end, a) + if LogHit(lib, last, start, end, a) then {|lines|} else {}
  {
  }

  lemma {:induction false} LogCounted(lib: Library, lines: seq<string>, start: int, end: int, a: Address)
    ensures multiset(LogFailures(lib, lines, start, end))[a] == |LogHits(lib, lines, start, end, a)|
  {
    if lines == [] {
      assert LogHits(lib, lines, start, end, a) == {};
    } else {
      var n := |lines| - 1;
      LogCounted(lib, lines[..n], start, end, a);
      OneLine(lib, lines[n], start, end, a);
      LogGrows(lib, lines[..n], lines[n], start, end, a);
      assert lines == lines[..n] + [lines[n]];
    }
  }

  ghost function NonEmpty(lines: seq<string>): set<nat> {
    set i: nat | 0 <= i < |lines| && lines[i] != ""
  }

  lemma {:induction false} EntriesCounted(lines: seq<string>)
    ensures Entries(lines) == |NonEmpty(lines)|
  {
    if lines == [] {
      assert NonEmpty(lines) == {};
    } else {
      var n := |lines| - 1;
      EntriesCounted(lines[..n]);
      assert NonEmpty(lines) == NonEmpty(lines[..n]) + if lines[n] != "" then {n} else {};
    }
  }

  // The log is within its limits and reaches back to the start of the window.
  ghost predicate LogUsable(lib: Library, lines: seq<string>, start: int, end: int) {
    && |NonEmpty(lines)| <= 1_000_000
    && (forall i :: 0 <= i < |lines| && Inside(lib, lines[i], start, end) ==> |lines[i]| <= 4096)
    && (exists i :: 0 <= i < |lines| && Stamped(lib, lines[i]) && lib.loggedAt(lines[i]).value <= start)
  }

  predicate Stamped(lib: Library, line: string) {
    line != "" && lib.loggedAt(line).Some?
  }

  ghost predicate LogSummary(lib: Library, lines: seq<string>, start: int, end: int, result: Result) {
    && (result.Built? ==>
         && LogUsable(lib, lines, start, end)
         && exists m :: CountsLog(lib, lines, start, end, m) && |m| <= 1_000_000 && SummaryOf(lib, m, start, end, result.summary))
    && (!result.Built? ==>
         !LogUsable(lib, lines, start, end) || exists m :: CountsLog(lib, lines, start, end, m) && |m| > 1_000_000)
  }

  lemma UsableIff(lib: Library, lines: seq<string>, start: int, end: int)
    ensures LogOk(lib, lines, start, end) <==>
            LogUsable(lib, lines, start, end) && |LogFailures(lib, lines, start, end)| <= 1_000_000
  {
    EntriesCounted(lines);
    if LogOk(lib, lines, start, end) {
      var line :| line in lines && Reaches(lib, line, start);
      var i :| 0 <= i < |lines| && lines[i] == line;
      forall i | 0 <= i < |lines| && Inside(lib, lines[i], start, end) ensures |lines[i]| <= 4096 {
        assert lines[i] in lines;
      }
      assert Stamped(lib, lines[i]);
    }
    if LogUsable(lib, lines, start, end) {
      var i :| 0 <= i < |lines| && Stamped(lib, lines[i]) && lib.loggedAt(lines[i]).value <= start;
      assert lines[i] in lines && Reaches(lib, lines[i], start);
      forall line | line in lines && InWindow(lib, line, start, end) ensures |line| <= 4096 {
        var i :| 0 <= i < |lines| && lines[i] == line;
        assert Inside(lib, lines[i], start, end);
      }
    }
  }

  lemma LogMeans(lib: Library, lines: seq<string>, start: int, end: int, result: Result)
    requires result.Built? <==> LogOk(lib, lines, start, end)
    requires result.Built? ==> Summarizes(lib, LogFailures(lib, lines, start, end), start, end, result.summary)
    ensures LogSummary(lib, lines, start, end, result)
  {
    var failures := LogFailures(lib, lines, start, end);
    UsableIff(lib, lines, start, end);
    forall a ensures multiset(failures)[a] == |LogHits(lib, lines, start, end, a)| {
      LogCounted(lib, lines, start, end, a);
    }
    assert CountsLog(lib, lines, start, end, multiset(failures)) && |multiset(failures)| == |failures|;
    if result.Built? {
      SummaryMeans(lib, failures, start, end, result.summary);
    }
  }
}
