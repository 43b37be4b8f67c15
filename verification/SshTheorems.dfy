// What a summary of failed logins promises its readers.
module SshTheorems {
  import opened Text
  import opened Telemetry
  import opened SshSummary

  // ---- The counts ----

  function Get(counts: Counts, a: Address): int {
    if a in counts then counts[a] else 0
  }

  lemma {:induction false} TallyIsMultiset(failures: seq<Address>, a: Address)
    ensures Get(Tally(failures), a) == multiset(failures)[a]
    ensures a in Tally(failures) <==> a in failures
  {
    if failures != [] {
      var init, last := failures[..|failures| - 1], failures[|failures| - 1];
      TallyIsMultiset(init, a);
      assert failures == init + [last];
    }
  }

  function Sum(counts: Counts, order: seq<Address>): int {
    if order == [] then 0 else Get(counts, order[0]) + Sum(counts, order[1..])
  }

  predicate NoRepeats(order: seq<Address>) {
    forall i, j | 0 <= i < j < |order| :: order[i] != order[j]
  }

  lemma {:induction false} SumCounted(counts: Counts, order: seq<Address>, a: Address)
    requires NoRepeats(order)
    ensures Sum(Counted(counts, a), order) == Sum(counts, order) + (if a in order then 1 else 0)
    decreases |order|
  {
    if order != [] {
      assert order == [order[0]] + order[1..];
      assert NoRepeats(order[1..]) by {
        forall i, j | 0 <= i < j < |order| - 1
          ensures order[1..][i] != order[1..][j]
        {
          assert order[i + 1] != order[j + 1];
        }
      }
      SumCounted(counts, order[1..], a);
      if a == order[0] {
        forall j | 1 <= j < |order|
          ensures order[j] != a
        {
          assert order[0] != order[j];
        }
        assert a !in order[1..];
      }
    }
  }

  lemma {:induction false} SumOfNothing(order: seq<Address>)
    ensures Sum(map[], order) == 0
  {
    if order != [] {
      SumOfNothing(order[1..]);
    }
  }

  // The per-address counts add up to the total.
  lemma {:induction false} CountsSumToTotal(failures: seq<Address>, order: seq<Address>)
    requires NoRepeats(order) && forall a | a in failures :: a in order
    ensures Sum(Tally(failures), order) == |failures|
  {
    if failures == [] {
      SumOfNothing(order);
    } else {
      var init, last := failures[..|failures| - 1], failures[|failures| - 1];
      assert last in failures && forall a | a in init :: a in failures;
      CountsSumToTotal(init, order);
      SumCounted(Tally(init), order, last);
    }
  }

  lemma RankedHasNoRepeats(counts: Counts, order: seq<Address>)
    requires Ranked(counts, order)
    ensures NoRepeats(order)
  {
    forall i, j | 0 <= i < j < |order|
      ensures order[i] != order[j]
    {
      assert Ranks(counts, order[i], order[j]);
      RanksIrreflexive(counts, order[i]);
    }
  }

  lemma {:induction false} SumOfPrefix(counts: Counts, order: seq<Address>, n: nat)
    requires n <= |order| && forall a | a in counts :: counts[a] >= 0
    ensures 0 <= Sum(counts, order[..n]) <= Sum(counts, order)
    decreases |order|
  {
    if n > 0 {
      SumOfPrefix(counts, order[1..], n - 1);
      assert order[..n][1..] == order[1..][..n - 1];
    } else if order != [] {
      SumOfPrefix(counts, order[1..], 0);
    }
  }

  // ---- The list ----

  // Two complete rankings agree, whatever order the map was walked in.
  lemma {:induction false} RankingIsUnique(counts: Counts, a: seq<Address>, b: seq<Address>)
    requires Ranked(counts, a) && Ranked(counts, b) && forall x :: x in a <==> x in b
    ensures a == b
    decreases |a|
  {
    if a == [] {
      if b != [] {
        FirstIsIn(b);
      }
    } else {
      FirstIsIn(a);
      FirstIsIn(b);
      if a[0] != b[0] {
        RanksTransitive(counts, a[0], b[0], a[0]);
        RanksIrreflexive(counts, a[0]);
        assert false;
      }
      RestWithoutFirst(counts, a);
      RestWithoutFirst(counts, b);
      RankingIsUnique(counts, a[1..], b[1..]);
      assert a == [a[0]] + a[1..] && b == [b[0]] + b[1..];
    }
  }

  lemma FirstIsIn(order: seq<Address>)
    requires order != []
    ensures order[0] in order
  {
  }

  lemma RestWithoutFirst(counts: Counts, order: seq<Address>)
    requires Ranked(counts, order) && order != []
    ensures Ranked(counts, order[1..]) && forall x :: x in order[1..] <==> x in order && x != order[0]
  {
    RankedHasNoRepeats(counts, order);
    forall j | 1 <= j < |order|
      ensures order[j] != order[0]
    {
      assert order[0] != order[j];
    }
    assert order == [order[0]] + order[1..];
  }

  // The summary depends only on how often each address failed: neither the
  // order of the records nor the walk over the counts shows in it.
  lemma SummaryIsDetermined(lib: Library, f: seq<Address>, g: seq<Address>, start: int, end: int, s: Summary, t: Summary)
    requires multiset(f) == multiset(g)
    requires Summarizes(lib, f, start, end, s) && Summarizes(lib, g, start, end, t)
    ensures s == t
  {
    forall a
      ensures (a in Tally(f) <==> a in Tally(g)) && Get(Tally(f), a) == Get(Tally(g), a)
    {
      TallyIsMultiset(f, a);
      TallyIsMultiset(g, a);
      assert a in f <==> a in multiset(f);
      assert a in g <==> a in multiset(g);
    }
    SameCounts(Tally(f), Tally(g));
    var o :| Lists(lib, Tally(f), o, s.sources);
    var p :| Lists(lib, Tally(g), p, t.sources);
    RankingIsUnique(Tally(f), o, p);
    assert |f| == |multiset(f)| && |g| == |multiset(g)|;
  }

  lemma SameCounts(a: Counts, b: Counts)
    requires forall x :: (x in a <==> x in b) && Get(a, x) == Get(b, x)
    ensures a == b
  {
    forall x | x in a
      ensures a[x] == b[x]
    {
      assert Get(a, x) == Get(b, x);
    }
  }

  // Every listed source outranks every address left out, and nothing is left
  // out unless twenty are listed.
  lemma TopTwenty(lib: Library, failures: seq<Address>, start: int, end: int, s: Summary, i: nat, left: Address)
    requires Summarizes(lib, failures, start, end, s) && i < |s.sources|
    requires (forall a | a in failures :: Known(lib, a)) && left in failures
    requires forall k | 0 <= k < |s.sources| :: s.sources[k].address != lib.format(left)
    ensures |s.sources| == MAXIMUM_SOURCES
    ensures lib.parse(s.sources[i].address).Some?
    ensures var a := lib.parse(s.sources[i].address).value;
      a in failures && s.sources[i].count == multiset(failures)[a]
      && (multiset(failures)[a] > multiset(failures)[left]
          || (multiset(failures)[a] == multiset(failures)[left] && Below(a, left)))
  {
    var order :| Lists(lib, Tally(failures), order, s.sources);
    TallyIsMultiset(failures, left);
    assert order[i] in order;
    TallyIsMultiset(failures, order[i]);
    forall k | 0 <= k < |s.sources|
      ensures order[k] != left
    {
      assert s.sources[k].address == lib.format(order[k]);
    }
    var j :| 0 <= j < |order| && order[j] == left;
    assert Ranks(Tally(failures), order[i], order[j]);
  }

  // Cutting the list does not lower the maximum the event rule reads from it.
  lemma CutKeepsMaximum(lib: Library, failures: seq<Address>, start: int, end: int, s: Summary)
    requires Summarizes(lib, failures, start, end, s)
    ensures forall a | a in failures :: multiset(failures)[a] <= TopSource(s.sources)
    ensures failures != [] ==> exists a :: a in failures && multiset(failures)[a] == TopSource(s.sources)
  {
    var order :| Lists(lib, Tally(failures), order, s.sources);
    var counts := Tally(failures);
    forall a | a in failures
      ensures order != [] && multiset(failures)[a] <= counts[order[0]]
    {
      TallyIsMultiset(failures, a);
    }
    if failures != [] {
      assert failures[0] in failures;
      assert s.sources[0] == SshSource(lib.format(order[0]), counts[order[0]]);
      TopIsFirst(lib, counts, order, s.sources);
      assert order[0] in order;
      TallyIsMultiset(failures, order[0]);
    }
  }

  lemma TopIsFirst(lib: Library, counts: Counts, order: seq<Address>, sources: seq<SshSource>)
    requires Lists(lib, counts, order, sources) && order != [] && order[0] in counts && counts[order[0]] >= 0
    ensures TopSource(sources) == counts[order[0]]
  {
    forall k | 0 <= k < |sources|
      ensures sources[k].count <= counts[order[0]]
    {
      assert order[k] in order;
    }
    assert sources[0].count == counts[order[0]];
  }

  // ---- The validators ----

  const ZERO_TIME := -62_135_596_800 * SECOND

  predicate SourceOk(lib: Library, source: SshSource) {
    && lib.parse(source.address).Some? && lib.format(lib.parse(source.address).value) == source.address
    && 1 <= source.count <= MAXIMUM_FAILURES
  }

  function SumSources(sources: seq<SshSource>): int {
    if sources == [] then 0 else sources[0].count + SumSources(sources[1..])
  }

  predicate SourcesOk(lib: Library, sources: seq<SshSource>, total: int) {
    && (forall source | source in sources :: SourceOk(lib, source))
    && (forall i, j | 0 <= i < j < |sources| :: lib.parse(sources[i].address) != lib.parse(sources[j].address))
    && SumSources(sources) <= total
  }

  predicate WindowOk(s: Summary) {
    5 * MINUTE <= s.windowEnd - s.windowStart <= 15 * MINUTE
  }

  predicate TotalsOk(s: Summary) {
    && 0 <= s.failedTotal <= MAXIMUM_FAILURES && |s.sources| <= MAXIMUM_SOURCES
    && (s.failedTotal == 0 <==> s.sources == [])
  }

  predicate AgentAccepts(lib: Library, s: Summary) {
    WindowOk(s) && TotalsOk(s) && SourcesOk(lib, s.sources, s.failedTotal)
  }

  predicate HubAccepts(lib: Library, s: Summary) {
    s.windowStart != ZERO_TIME && s.windowEnd != ZERO_TIME && AgentAccepts(lib, s)
  }

  lemma {:induction false} SumSourcesSnoc(sources: seq<SshSource>, last: SshSource)
    ensures SumSources(sources + [last]) == SumSources(sources) + last.count
  {
    if sources == [] {
      assert sources + [last] == [last] && [last][1..] == [];
    } else {
      SumSourcesSnoc(sources[1..], last);
      assert (sources + [last])[1..] == sources[1..] + [last];
    }
  }

  // The loop both validators run over the sources.
  method ValidateSources(lib: Library, sources: seq<SshSource>, total: int) returns (ok: bool)
    ensures ok <==> SourcesOk(lib, sources, total)
  {
    var seen: set<Address> := {};
    var sourceTotal := 0;
    for k := 0 to |sources|
      invariant forall source | source in sources[..k] :: SourceOk(lib, source)
      invariant forall a :: a in seen <==> exists j | 0 <= j < k :: lib.parse(sources[j].address) == Some(a)
      invariant forall i, j | 0 <= i < j < k :: lib.parse(sources[i].address) != lib.parse(sources[j].address)
      invariant sourceTotal == SumSources(sources[..k])
    {
      var source := sources[k];
      var address := lib.parse(source.address);
      assert source in sources && sources[..k + 1] == sources[..k] + [source];
      if address.None? || lib.format(address.value) != source.address || source.count < 1 || source.count > MAXIMUM_FAILURES {
        return false;
      }
      if address.value in seen {
        return false;
      }
      SumSourcesSnoc(sources[..k], source);
      seen := seen + {address.value};
      sourceTotal := sourceTotal + source.count;
    }
    assert sources[..|sources|] == sources;
    ok := sourceTotal <= total;
  }

  method ValidateSshAuthSummary(lib: Library, s: Summary) returns (ok: bool)
    ensures ok <==> AgentAccepts(lib, s)
  {
    var duration := s.windowEnd - s.windowStart;
    if duration < 5 * MINUTE || duration > 15 * MINUTE {
      return false;
    }
    if s.failedTotal < 0 || s.failedTotal > MAXIMUM_FAILURES || |s.sources| > MAXIMUM_SOURCES {
      return false;
    }
    if (s.failedTotal == 0) != (|s.sources| == 0) {
      return false;
    }
    ok := ValidateSources(lib, s.sources, s.failedTotal);
  }

  lemma {:induction false} SumOfSources(lib: Library, counts: Counts, order: seq<Address>)
    requires forall a | a in order :: a in counts
    ensures SumSources(Sources(lib, counts, order)) == Sum(counts, order)
  {
    if order != [] {
      assert order[0] in order && forall a | a in order[1..] :: a in order;
      SumOfSources(lib, counts, order[1..]);
      assert Sources(lib, counts, order)[1..] == Sources(lib, counts, order[1..]);
    }
  }

  lemma TallyBounds(failures: seq<Address>)
    ensures forall a | a in Tally(failures) :: 1 <= Tally(failures)[a] <= |failures|
  {
    forall a | a in Tally(failures)
      ensures 1 <= Tally(failures)[a] <= |failures|
    {
      TallyIsMultiset(failures, a);
      assert multiset(failures)[a] <= |multiset(failures)|;
    }
  }

  lemma ListedAddresses(lib: Library, failures: seq<Address>, order: seq<Address>, sources: seq<SshSource>)
    requires Lists(lib, Tally(failures), order, sources) && |failures| <= MAXIMUM_FAILURES
    requires forall a | a in failures :: Known(lib, a)
    ensures forall k | 0 <= k < |sources| :: SourceOk(lib, sources[k]) && lib.parse(sources[k].address) == Some(order[k])
  {
    TallyBounds(failures);
    forall k | 0 <= k < |sources|
      ensures SourceOk(lib, sources[k]) && lib.parse(sources[k].address) == Some(order[k])
    {
      assert order[k] in order;
      TallyIsMultiset(failures, order[k]);
      assert Known(lib, order[k]);
    }
  }

  lemma ListedSum(lib: Library, failures: seq<Address>, order: seq<Address>, sources: seq<SshSource>)
    requires Lists(lib, Tally(failures), order, sources)
    ensures SumSources(sources) <= |failures|
  {
    var counts, listed := Tally(failures), order[..|sources|];
    TallyBounds(failures);
    forall a | a in failures
      ensures a in order
    {
      TallyIsMultiset(failures, a);
    }
    RankedHasNoRepeats(counts, order);
    CountsSumToTotal(failures, order);
    SumOfPrefix(counts, order, |sources|);
    assert sources == Sources(lib, counts, listed);
    SumOfSources(lib, counts, listed);
  }

  lemma ListedSourcesOk(lib: Library, failures: seq<Address>, order: seq<Address>, sources: seq<SshSource>)
    requires Lists(lib, Tally(failures), order, sources) && |failures| <= MAXIMUM_FAILURES
    requires forall a | a in failures :: Known(lib, a)
    ensures SourcesOk(lib, sources, |failures|) && (failures == [] <==> sources == [])
  {
    ListedAddresses(lib, failures, order, sources);
    ListedSum(lib, failures, order, sources);
    RankedHasNoRepeats(Tally(failures), order);
    if failures != [] {
      TallyIsMultiset(failures, failures[0]);
      assert failures[0] in order;
    }
    if order != [] {
      FirstIsIn(order);
      TallyIsMultiset(failures, order[0]);
    }
  }

  // Agent and Hub accept every summary that is built over one window.
  lemma BothValidatorsAccept(lib: Library, failures: seq<Address>, start: int, end: int, s: Summary)
    requires Summarizes(lib, failures, start, end, s) && |failures| <= MAXIMUM_FAILURES
    requires forall a | a in failures :: Known(lib, a)
    requires end - start == SSH_AUTH_WINDOW && ZERO_TIME < Seconds(start)
    ensures AgentAccepts(lib, s) && HubAccepts(lib, s)
  {
    var order :| Lists(lib, Tally(failures), order, s.sources);
    ListedSourcesOk(lib, failures, order, s.sources);
  }

  lemma {:induction false} JournalFailuresKnown(lib: Library, entries: seq<Entry>)
    requires LibraryOk(lib)
    ensures forall a | a in JournalFailures(lib, entries) :: Known(lib, a)
  {
    if entries != [] {
      JournalFailuresKnown(lib, entries[..|entries| - 1]);
    }
  }

  lemma {:induction false} LogFailuresKnown(lib: Library, lines: seq<string>, start: int, end: int)
    requires LibraryOk(lib)
    ensures forall a | a in LogFailures(lib, lines, start, end) :: Known(lib, a)
  {
    if lines != [] {
      LogFailuresKnown(lib, lines[..|lines| - 1], start, end);
    }
  }

  // End to end, for both sources of records.
  method CollectFromJournal(lib: Library, entries: seq<Entry>, start: int, end: int) returns (result: Result)
    requires LibraryOk(lib) && end - start == 600_000_000_000 && ZERO_TIME < Seconds(start)
    ensures result.Built? <==> JournalOk(lib, entries)
    ensures result.Built? ==> AgentAccepts(lib, result.summary) && HubAccepts(lib, result.summary)
  {
    result := SummarizeSshJournal(lib, entries, start, end);
    if result.Built? {
      JournalFailuresKnown(lib, entries);
      BothValidatorsAccept(lib, JournalFailures(lib, entries), start, end, result.summary);
    }
  }

  method CollectFromLog(lib: Library, content: string, start: int, end: int) returns (result: Result)
    requires LibraryOk(lib) && end - start == 600_000_000_000 && ZERO_TIME < Seconds(start)
    ensures result.Built? <==> LogOk(lib, Split(content, '\n'), start, end)
    ensures result.Built? ==> AgentAccepts(lib, result.summary) && HubAccepts(lib, result.summary)
  {
    result := SummarizeSshTextLog(lib, content, start, end);
    if result.Built? {
      LogFailuresKnown(lib, Split(content, '\n'), start, end);
      BothValidatorsAccept(lib, LogFailures(lib, Split(content, '\n'), start, end), start, end, result.summary);
    }
  }
}
