// Summaries of failed SSH logins: counted per address, ranked and cut to the
// top twenty (internal/agent/ssh_auth.go, internal/domain/model.go).
module SshSummary {
  import opened Text
  import opened Telemetry
  import StringOrder

  // netip.Addr: its order compares the width, then the bits, then the zone.
  datatype Address = Address(width: nat, bits: nat, zone: string)

  predicate Below(a: Address, b: Address) {
    || a.width < b.width
    || (a.width == b.width && (a.bits < b.bits || (a.bits == b.bits && StringOrder.Less(a.zone, b.zone))))
  }

  // Library work: the failure pattern's address group, netip's parsing,
  // unmapping and formatting, and the time stamp of a log line.
  datatype Library = Library(
    find: string -> Option<string>,
    parse: string -> Option<Address>,
    unmap: Address -> Address,
    format: Address -> string,
    loggedAt: string -> Option<int>)

  predicate Known(lib: Library, a: Address) {
    lib.parse(lib.format(a)) == Some(a)
  }

  // An unmapped address that was parsed is read back from its text.
  ghost predicate LibraryOk(lib: Library) {
    forall text :: lib.parse(text).Some? ==> Known(lib, lib.unmap(lib.parse(text).value))
  }

  const MINUTE := 60 * SECOND
  const SSH_AUTH_WINDOW := 10 * MINUTE
  const MAXIMUM_SOURCES := 20
  const MAXIMUM_FAILURES := 1_000_000
  const MAXIMUM_JOURNAL_ENTRIES := 50_000
  const MAXIMUM_LOG_ENTRIES := 1_000_000
  const MAXIMUM_MESSAGE := 4096

  datatype Summary = Summary(windowStart: int, windowEnd: int, failedTotal: int, sources: seq<SshSource>)

  datatype Refusal = Malformed | TooManyEntries | TooManyFailures | LineTooLong | NoTimestamps | WindowNotCovered

  datatype Result = Built(summary: Summary) | Refused(reason: Refusal)

  // ---- Counting ----

  type Counts = map<Address, int>

  function FailureOf(lib: Library, message: string): Option<Address> {
    match lib.find(message)
    case None => None
    case Some(raw) =>
      var parsed := lib.parse(TrimSpace(raw));
      if parsed.None? then None else Some(lib.unmap(parsed.value))
  }

  function Counted(counts: Counts, a: Address): Counts {
    counts[a := (if a in counts then counts[a] else 0) + 1]
  }

  // The counts after a list of failures.
  function Tally(failures: seq<Address>): Counts {
    if failures == [] then map[] else Counted(Tally(failures[..|failures| - 1]), failures[|failures| - 1])
  }

  method AddSshFailure(lib: Library, counts: Counts, message: string) returns (after: Counts, found: bool)
    ensures found <==> FailureOf(lib, message).Some?
    ensures after == if found then Counted(counts, FailureOf(lib, message).value) else counts
  {
    var matched := lib.find(message);
    if matched.None? {
      return counts, false;
    }
    var parsed := lib.parse(TrimSpace(matched.value));
    if parsed.None? {
      return counts, false;
    }
    after, found := Counted(counts, lib.unmap(parsed.value)), true;
  }

  // ---- Ranking ----

  predicate Ranks(counts: Counts, a: Address, b: Address)
    requires a in counts && b in counts
  {
    counts[a] > counts[b] || (counts[a] == counts[b] && Below(a, b))
  }

  lemma RanksTotal(counts: Counts, a: Address, b: Address)
    requires a in counts && b in counts
    ensures a == b || Ranks(counts, a, b) || Ranks(counts, b, a)
  {
    StringOrder.LessTotal(a.zone, b.zone);
  }

  lemma RanksTransitive(counts: Counts, a: Address, b: Address, c: Address)
    requires a in counts && b in counts && c in counts && Ranks(counts, a, b) && Ranks(counts, b, c)
    ensures Ranks(counts, a, c)
  {
    if a.zone != b.zone && b.zone != c.zone && StringOrder.Less(a.zone, b.zone) && StringOrder.Less(b.zone, c.zone) {
      StringOrder.LessTransitive(a.zone, b.zone, c.zone);
    }
  }

  lemma RanksIrreflexive(counts: Counts, a: Address)
    requires a in counts
    ensures !Ranks(counts, a, a)
  {
    if StringOrder.Less(a.zone, a.zone) {
      StringOrder.LessAsymmetric(a.zone, a.zone);
    }
  }

  ghost predicate Ranked(counts: Counts, order: seq<Address>) {
    && (forall a | a in order :: a in counts)
    && (forall i, j | 0 <= i < j < |order| :: Ranks(counts, order[i], order[j]))
  }

  function InsertRanked(counts: Counts, order: seq<Address>, a: Address): seq<Address>
    requires a in counts && forall b | b in order :: b in counts
  {
    if order == [] || Ranks(counts, a, order[0]) then [a] + order
    else [order[0]] + InsertRanked(counts, order[1..], a)
  }

  lemma {:induction false} InsertRanks(counts: Counts, order: seq<Address>, a: Address)
    requires Ranked(counts, order) && a in counts && a !in order
    ensures Ranked(counts, InsertRanked(counts, order, a))
    ensures forall b :: b in InsertRanked(counts, order, a) <==> b in order || b == a
    decreases |order|
  {
    if order != [] {
      assert order == [order[0]] + order[1..];
      if Ranks(counts, a, order[0]) {
        forall j | 1 <= j < |order|
          ensures Ranks(counts, a, order[j])
        {
          RanksTransitive(counts, a, order[0], order[j]);
        }
      } else {
        RanksTotal(counts, a, order[0]);
        InsertRanks(counts, order[1..], a);
        var rest := InsertRanked(counts, order[1..], a);
        forall j | 0 <= j < |rest|
          ensures Ranks(counts, order[0], rest[j])
        {
          assert rest[j] in rest && (rest[j] in order[1..] || rest[j] == a);
        }
      }
    }
  }

  function Sources(lib: Library, counts: Counts, order: seq<Address>): seq<SshSource>
    requires forall a | a in order :: a in counts
  {
    seq(|order|, i requires 0 <= i < |order| => assert order[i] in order; SshSource(lib.format(order[i]), counts[order[i]]))
  }

  function Seconds(t: int): int {
    t - t % SECOND
  }

  // What is listed: the addresses in rank order, at most twenty of them.
  ghost predicate Lists(lib: Library, counts: Counts, order: seq<Address>, sources: seq<SshSource>) {
    && Ranked(counts, order) && (forall a | a in counts :: a in order)
    && sources == Sources(lib, counts, order)[..if |order| > MAXIMUM_SOURCES then MAXIMUM_SOURCES else |order|]
  }

  ghost predicate Summarizes(lib: Library, failures: seq<Address>, start: int, end: int, summary: Summary) {
    && summary.windowStart == Seconds(start) && summary.windowEnd == Seconds(end)
    && summary.failedTotal == |failures|
    && exists order :: Lists(lib, Tally(failures), order, summary.sources)
  }

  method RankAddresses(counts: Counts) returns (ranked: seq<Address>)
    ensures Ranked(counts, ranked) && forall a :: a in ranked <==> a in counts
  {
    ranked := [];
    var done, todo := {}, counts.Keys;
    while todo != {}
      invariant done + todo == counts.Keys && done !! todo
      invariant Ranked(counts, ranked) && forall a :: a in ranked <==> a in done
      decreases |todo|
    {
      var a :| a in todo;
      InsertRanks(counts, ranked, a);
      ranked := InsertRanked(counts, ranked, a);
      done, todo := done + {a}, todo - {a};
    }
  }

  method BuildSshAuthSummary(lib: Library, counts: Counts, total: int, start: int, end: int)
    returns (summary: Summary, ghost order: seq<Address>)
    ensures summary.windowStart == Seconds(start) && summary.windowEnd == Seconds(end) && summary.failedTotal == total
    ensures Lists(lib, counts, order, summary.sources)
  {
    var ranked := RankAddresses(counts);
    order := ranked;
    if |ranked| > MAXIMUM_SOURCES {
      ranked := ranked[..MAXIMUM_SOURCES];
    }
    var sources := [];
    for i := 0 to |ranked|
      invariant sources == Sources(lib, counts, order)[..i]
    {
      assert ranked[i] == order[i] && order[i] in order;
      sources := sources + [SshSource(lib.format(ranked[i]), counts[ranked[i]])];
    }
    summary := Summary(Seconds(start), Seconds(end), total, sources);
  }

  // ---- The journal ----

  // A decoded record: unreadable output, a record without a usable message, or
  // a message.
  datatype Entry = Garbled | Unusable | Message(text: string)

  function JournalFailure(lib: Library, entry: Entry): seq<Address> {
    if !entry.Message? || |entry.text| > MAXIMUM_MESSAGE then []
    else
      var failure := FailureOf(lib, entry.text);
      if failure.None? then [] else [failure.value]
  }

  function JournalFailures(lib: Library, entries: seq<Entry>): seq<Address> {
    if entries == [] then []
    else JournalFailures(lib, entries[..|entries| - 1]) + JournalFailure(lib, entries[|entries| - 1])
  }

  // Output is summarised when all of it is readable and within the limits.
  predicate JournalOk(lib: Library, entries: seq<Entry>) {
    Garbled !in entries && |entries| <= MAXIMUM_JOURNAL_ENTRIES && |JournalFailures(lib, entries)| <= MAXIMUM_FAILURES
  }

  lemma {:induction false} FailuresGrow(lib: Library, entries: seq<Entry>, n: nat)
    requires n <= |entries|
    ensures |JournalFailures(lib, entries[..n])| <= |JournalFailures(lib, entries)|
    decreases |entries|
  {
    if n < |entries| {
      FailuresGrow(lib, entries[..|entries| - 1], n);
      assert entries[..|entries| - 1][..n] == entries[..n];
    } else {
      assert entries[..n] == entries;
    }
  }

  method CountEntry(lib: Library, counts: Counts, entry: Entry, ghost before: seq<Address>)
    returns (after: Counts, found: bool)
    requires counts == Tally(before)
    ensures after == Tally(before + JournalFailure(lib, entry))
    ensures |JournalFailure(lib, entry)| == if found then 1 else 0
  {
    assert before + [] == before;
    if !entry.Message? || |entry.text| > MAXIMUM_MESSAGE {
      return counts, false;
    }
    after, found := AddSshFailure(lib, counts, entry.text);
  }

  // The loop has taken in some entries without breaking a limit.
  ghost predicate HasCounted(lib: Library, entries: seq<Entry>, counts: Counts, total: int) {
    && JournalOk(lib, entries) && total == |JournalFailures(lib, entries)| && counts == Tally(JournalFailures(lib, entries))
  }

  lemma CountedMore(lib: Library, entries: seq<Entry>, i: nat, counts: Counts, total: int)
    requires i < |entries| && JournalOk(lib, entries[..i]) && entries[i] != Garbled && i + 1 <= MAXIMUM_JOURNAL_ENTRIES
    requires var more := JournalFailures(lib, entries[..i]) + JournalFailure(lib, entries[i]);
      total == |more| && counts == Tally(more)
    ensures if total <= MAXIMUM_FAILURES then HasCounted(lib, entries[..i + 1], counts, total) else !JournalOk(lib, entries)
  {
    JournalStep(lib, entries, i);
    FailuresGrow(lib, entries, i + 1);
  }

  method SummarizeSshJournal(lib: Library, entries: seq<Entry>, start: int, end: int) returns (result: Result)
    ensures result.Built? <==> JournalOk(lib, entries)
    ensures result.Built? ==> Summarizes(lib, JournalFailures(lib, entries), start, end, result.summary)
  {
    var counts: Counts := map[];
    var total := 0;
    for i := 0 to |entries|
      invariant HasCounted(lib, entries[..i], counts, total)
    {
      var entry := entries[i];
      if entry == Garbled {
        return Refused(Malformed);
      }
      if i + 1 > MAXIMUM_JOURNAL_ENTRIES {
        return Refused(TooManyEntries);
      }
      var found;
      counts, found := CountEntry(lib, counts, entry, JournalFailures(lib, entries[..i]));
      if found {
        total := total + 1;
      }
      CountedMore(lib, entries, i, counts, total);
      if total > MAXIMUM_FAILURES {
        return Refused(TooManyFailures);
      }
    }
    assert entries[..|entries|] == entries;
    var summary;
    ghost var order;
    summary, order := BuildSshAuthSummary(lib, counts, total, start, end);
    result := Built(summary);
  }

  lemma JournalStep(lib: Library, entries: seq<Entry>, i: nat)
    requires i < |entries|
    ensures entries[..i + 1] == entries[..i] + [entries[i]]
    ensures JournalFailures(lib, entries[..i + 1]) == JournalFailures(lib, entries[..i]) + JournalFailure(lib, entries[i])
  {
    assert entries[..i + 1][..i] == entries[..i];
  }

  // ---- The text log ----

  // A line counts when it is not empty; its failure when it is in the window.
  function LineFailure(lib: Library, line: string, start: int, end: int): seq<Address> {
    if !InWindow(lib, line, start, end) then []
    else
      var failure := FailureOf(lib, line);
      if failure.None? then [] else [failure.value]
  }

  predicate InWindow(lib: Library, line: string, start: int, end: int) {
    line != "" && lib.loggedAt(line).Some? && start <= lib.loggedAt(line).value <= end + MINUTE
  }

  function LogFailures(lib: Library, lines: seq<string>, start: int, end: int): seq<Address> {
    if lines == [] then []
    else LogFailures(lib, lines[..|lines| - 1], start, end) + LineFailure(lib, lines[|lines| - 1], start, end)
  }

  function Entries(lines: seq<string>): nat {
    if lines == [] then 0 else Entries(lines[..|lines| - 1]) + (if lines[|lines| - 1] == "" then 0 else 1)
  }

  predicate Reaches(lib: Library, line: string, start: int) {
    line != "" && lib.loggedAt(line).Some? && lib.loggedAt(line).value <= start
  }

  // A log tail is summarised when it is within the limits and reaches back to
  // the start of the window.
  ghost predicate LogOk(lib: Library, lines: seq<string>, start: int, end: int) {
    && LimitsOk(lib, lines, start, end)
    && exists line | line in lines :: Reaches(lib, line, start)
  }

  ghost predicate LimitsOk(lib: Library, lines: seq<string>, start: int, end: int) {
    && Entries(lines) <= MAXIMUM_LOG_ENTRIES
    && (forall line | line in lines && InWindow(lib, line, start, end) :: |line| <= MAXIMUM_MESSAGE)
    && |LogFailures(lib, lines, start, end)| <= MAXIMUM_FAILURES
  }

  lemma {:induction false} LimitsShrink(lib: Library, lines: seq<string>, start: int, end: int, n: nat)
    requires LimitsOk(lib, lines, start, end) && n <= |lines|
    ensures LimitsOk(lib, lines[..n], start, end)
    decreases |lines|
  {
    if n < |lines| {
      var init := lines[..|lines| - 1];
      assert forall line | line in init :: line in lines;
      LimitsShrink(lib, init, start, end, n);
      assert init[..n] == lines[..n];
    } else {
      assert lines[..n] == lines;
    }
  }

  // The oldest time stamp of the lines so far.
  ghost predicate IsOldest(lib: Library, lines: seq<string>, oldest: Option<int>) {
    && (oldest.None? <==> forall line | line in lines && line != "" :: lib.loggedAt(line).None?)
    && (oldest.Some? ==>
         && (exists line | line in lines && line != "" :: lib.loggedAt(line) == oldest)
         && (forall line | line in lines && line != "" && lib.loggedAt(line).Some? :: oldest.value <= lib.loggedAt(line).value))
  }

  // The loop's variables.
  datatype Tail = Tail(counts: Counts, total: nat, entries: nat, parsedTimestamps: nat, oldest: Option<int>)

  ghost predicate HasRead(lib: Library, lines: seq<string>, start: int, end: int, tail: Tail) {
    && LimitsOk(lib, lines, start, end) && tail.entries == Entries(lines)
    && tail.total == |LogFailures(lib, lines, start, end)| && tail.counts == Tally(LogFailures(lib, lines, start, end))
    && IsOldest(lib, lines, tail.oldest) && (tail.parsedTimestamps == 0 ==> tail.oldest.None?)
  }

  function Stamp(lib: Library, line: string): Option<int> {
    if line == "" then None else lib.loggedAt(line)
  }

  // What one line does to the variables, limits aside.
  function Advanced(lib: Library, line: string, start: int, end: int, tail: Tail): Tail {
    var at, failure := Stamp(lib, line), LineFailure(lib, line, start, end);
    Tail(if failure == [] then tail.counts else Counted(tail.counts, failure[0]),
         tail.total + |failure|,
         tail.entries + (if line == "" then 0 else 1),
         tail.parsedTimestamps + (if at.Some? then 1 else 0),
         if at.Some? && (tail.oldest.None? || at.value < tail.oldest.value) then at else tail.oldest)
  }

  predicate WithinLimits(lib: Library, line: string, start: int, end: int, after: Tail) {
    && (line != "" ==> after.entries <= MAXIMUM_LOG_ENTRIES)
    && (InWindow(lib, line, start, end) ==> |line| <= MAXIMUM_MESSAGE && after.total <= MAXIMUM_FAILURES)
  }

  // One round of the loop: the line is taken in, or it breaks a limit.
  method ReadLine(lib: Library, line: string, start: int, end: int, tail: Tail) returns (next: Tail, refusal: Option<Refusal>)
    ensures refusal.None? <==> WithinLimits(lib, line, start, end, Advanced(lib, line, start, end, tail))
    ensures refusal.None? ==> next == Advanced(lib, line, start, end, tail)
  {
    next, refusal := tail, None;
    if line == "" {
      return;
    }
    next := next.(entries := next.entries + 1);
    if next.entries > MAXIMUM_LOG_ENTRIES {
      refusal := Some(TooManyEntries);
      return;
    }
    var loggedAt := lib.loggedAt(line);
    if loggedAt.None? {
      return;
    }
    next := next.(parsedTimestamps := next.parsedTimestamps + 1);
    if next.oldest.None? || loggedAt.value < next.oldest.value {
      next := next.(oldest := loggedAt);
    }
    if loggedAt.value < start || loggedAt.value > end + MINUTE {
      return;
    }
    if |line| > MAXIMUM_MESSAGE {
      refusal := Some(LineTooLong);
      return;
    }
    var counts, found := AddSshFailure(lib, next.counts, line);
    next := next.(counts := counts, total := if found then next.total + 1 else next.total);
    if next.total > MAXIMUM_FAILURES {
      refusal := Some(TooManyFailures);
    }
  }

  lemma OldestMore(lib: Library, lines: seq<string>, line: string, oldest: Option<int>)
    requires IsOldest(lib, lines, oldest)
    ensures var at := Stamp(lib, line);
      IsOldest(lib, lines + [line], if at.Some? && (oldest.None? || at.value < oldest.value) then at else oldest)
  {
    var all := lines + [line];
    assert all[|lines|] == line;
    assert forall l | l in all :: l in lines || l == line;
    assert forall l | l in lines :: l in all;
  }

  lemma HasReadMore(lib: Library, lines: seq<string>, line: string, start: int, end: int, tail: Tail)
    requires HasRead(lib, lines, start, end, tail)
    ensures var all, next := lines + [line], Advanced(lib, line, start, end, tail);
      && next.entries == Entries(all) && next.total == |LogFailures(lib, all, start, end)|
      && (LimitsOk(lib, all, start, end) ==> HasRead(lib, all, start, end, next))
  {
    var all, before := lines + [line], LogFailures(lib, lines, start, end);
    assert all[..|all|] == all && all[..|lines|] == lines;
    assert before + [] == before;
    OldestMore(lib, lines, line, tail.oldest);
  }

  // Taking in one more line keeps the loop's promise, or shows that the whole
  // log breaks a limit.
  lemma RoundKeeps(lib: Library, lines: seq<string>, i: nat, start: int, end: int, tail: Tail)
    requires i < |lines| && HasRead(lib, lines[..i], start, end, tail)
    ensures var next := Advanced(lib, lines[i], start, end, tail);
      if WithinLimits(lib, lines[i], start, end, next) then HasRead(lib, lines[..i + 1], start, end, next)
      else !LimitsOk(lib, lines, start, end)
  {
    HasReadMore(lib, lines[..i], lines[i], start, end, tail);
    assert lines[..i + 1] == lines[..i] + [lines[i]];
    if LimitsOk(lib, lines, start, end) {
      LimitsShrink(lib, lines, start, end, i + 1);
    }
  }

  method SummarizeSshTextLog(lib: Library, content: string, start: int, end: int) returns (result: Result)
    ensures result.Built? <==> LogOk(lib, Split(content, '\n'), start, end)
    ensures result.Built? ==> Summarizes(lib, LogFailures(lib, Split(content, '\n'), start, end), start, end, result.summary)
  {
    var lines := Split(content, '\n');
    var tail := Tail(map[], 0, 0, 0, None);
    for i := 0 to |lines|
      invariant HasRead(lib, lines[..i], start, end, tail)
    {
      var next, refusal := ReadLine(lib, lines[i], start, end, tail);
      RoundKeeps(lib, lines, i, start, end, tail);
      if refusal.Some? {
        return Refused(refusal.value);
      }
      tail := next;
    }
    assert lines[..|lines|] == lines;
    if tail.parsedTimestamps == 0 && tail.entries > 0 {
      return Refused(NoTimestamps);
    }
    if tail.oldest.None? || tail.oldest.value > start {
      return Refused(WindowNotCovered);
    }
    var summary;
    ghost var order;
    summary, order := BuildSshAuthSummary(lib, tail.counts, tail.total, start, end);
    result := Built(summary);
  }
}
