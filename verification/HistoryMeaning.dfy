/** What the derived index and the names of raw files tell a reader. */
module HistoryMeaning {
  import opened BenchmarkHistory
  import opened Sorting

  // The order of records.

  /** Sorted records are in order of their start; runs that start together are in order of attempt. */
  lemma EarlierFirst(a: Stored, b: Stored)
    requires StoredLe(a, b)
    ensures StampLe(a.record.started, b.record.started)
    ensures a.record.started == b.record.started && a.record.identity.runId == b.record.identity.runId ==>
              a.record.identity.attempt <= b.record.identity.attempt
  {
    var k, l := SortKey(a.record), SortKey(b.record);
    if k[0] != l[0] {
      StartsCompare(k[0], l[0]);
    } else {
      assert k[0][0] == l[0][0] && k[0][1] == l[0][1];
      if k[1] == l[1] {
        assert TupleLe(k[1..], l[1..]) && k[1..][0] == l[1..][0];
        assert TupleLe(k[1..][1..], l[1..][1..]) && k[1..][1..][0] == k[2] && l[1..][1..][0] == l[2];
        assert k[2] == l[2] || LexLe(k[2], l[2]);
      }
    }
  }

  lemma StartsCompare(k: seq<int>, l: seq<int>)
    requires |k| == |l| == 2 && LexLe(k, l)
    ensures k[0] < l[0] || (k[0] == l[0] && k[1] <= l[1])
  {
    assert k[1..] == [k[1]] && l[1..] == [l[1]];
  }

  // Chunks.

  lemma {:induction false} ChunkMembers(s: seq<Stored>, month: int, x: Stored)
    ensures x in Chunk(s, month) <==> x in s && Month(x) == month
    decreases |s|
  {
    if s != [] {
      ChunkMembers(s[..|s| - 1], month, x);
      assert s == s[..|s| - 1] + [s[|s| - 1]];
    }
  }

  predicate Chronological(s: seq<Stored>) {
    forall i, j | 0 <= i <= j < |s| :: StampLe(s[i].record.started, s[j].record.started)
  }

  lemma SortedIsChronological(s: seq<Stored>)
    requires Sorted(s, StoredLe)
    ensures Chronological(s)
  {
    forall i, j | 0 <= i < j < |s| ensures StampLe(s[i].record.started, s[j].record.started) { EarlierFirst(s[i], s[j]); }
  }

  lemma {:induction false} ChunkIsChronological(s: seq<Stored>, month: int)
    requires Chronological(s)
    ensures Chronological(Chunk(s, month))
    decreases |s|
  {
    if s != [] {
      var front, last := s[..|s| - 1], s[|s| - 1];
      ChunkIsChronological(front, month);
      var chunk := Chunk(front, month);
      forall i | 0 <= i < |chunk| ensures StampLe(chunk[i].record.started, last.record.started) {
        ChunkMembers(front, month, chunk[i]);
        var k :| 0 <= k < |front| && front[k] == chunk[i];
        assert s[k] == chunk[i];
      }
    }
  }

  predicate Starts(s: seq<Stored>, month: int, at: Stamp) {
    exists i | 0 <= i < |s| :: Month(s[i]) == month && s[i].record.started == at
  }

  predicate Runs(s: seq<Stored>, month: int, suite: string) {
    exists i | 0 <= i < |s| :: Month(s[i]) == month && s[i].record.identity.suite == suite
  }

  /** The entry tells how many records its month has, their earliest and latest start, and exactly their suites. */
  ghost predicate Describes(entry: ChunkEntry, s: seq<Stored>) {
    && Starts(s, entry.month, entry.first) && Starts(s, entry.month, entry.last)
    && (forall i | 0 <= i < |s| && Month(s[i]) == entry.month ::
          StampLe(entry.first, s[i].record.started) && StampLe(s[i].record.started, entry.last))
    && (forall suite :: suite in entry.suites <==> Runs(s, entry.month, suite))
    && entry.count == |Chunk(s, entry.month)|
  }

  lemma FirstAndLast(s: seq<Stored>, month: int, i: nat)
    requires Chronological(s) && i < |s| && Month(s[i]) == month
    ensures var chunk := Chunk(s, month);
            && chunk != [] && StampLe(chunk[0].record.started, s[i].record.started)
            && StampLe(s[i].record.started, chunk[|chunk| - 1].record.started)
  {
    ChunkMembers(s, month, s[i]);
    ChunkIsChronological(s, month);
    var k :| 0 <= k < |Chunk(s, month)| && Chunk(s, month)[k] == s[i];
  }

  lemma ChunkStarts(s: seq<Stored>, month: int, x: Stored)
    requires x in Chunk(s, month)
    ensures Starts(s, month, x.record.started) && Runs(s, month, x.record.identity.suite)
  {
    ChunkMembers(s, month, x);
    var i :| 0 <= i < |s| && s[i] == x;
  }

  lemma EntryDescribes(s: seq<Stored>, month: int)
    requires Chronological(s) && Chunk(s, month) != []
    ensures Describes(EntryOf(month, Chunk(s, month)), s)
  {
    var chunk := Chunk(s, month);
    ChunkStarts(s, month, chunk[0]);
    ChunkStarts(s, month, chunk[|chunk| - 1]);
    forall i | 0 <= i < |s| && Month(s[i]) == month
      ensures StampLe(chunk[0].record.started, s[i].record.started) && StampLe(s[i].record.started, chunk[|chunk| - 1].record.started)
    {
      FirstAndLast(s, month, i);
    }
    forall suite ensures suite in Suites(chunk) <==> Runs(s, month, suite) {
      SuiteIsRun(s, month, suite);
    }
  }

  lemma SuiteIsRun(s: seq<Stored>, month: int, suite: string)
    ensures suite in Suites(Chunk(s, month)) <==> Runs(s, month, suite)
  {
    var chunk := Chunk(s, month);
    if suite in Suites(chunk) {
      var i :| 0 <= i < |chunk| && chunk[i].record.identity.suite == suite;
      ChunkStarts(s, month, chunk[i]);
    }
    if Runs(s, month, suite) {
      var i :| 0 <= i < |s| && Month(s[i]) == month && s[i].record.identity.suite == suite;
      ChunkMembers(s, month, s[i]);
      var k :| 0 <= k < |chunk| && chunk[k] == s[i];
    }
  }

  lemma {:induction false} EntriesAt(s: seq<Stored>, months: seq<int>, i: nat)
    requires (forall k | 0 <= k < |months| :: Chunk(s, months[k]) != []) && i < |months|
    ensures |Entries(s, months)| == |months|
    ensures var month := months[|months| - 1 - i]; Entries(s, months)[i] == EntryOf(month, Chunk(s, month))
    decreases |months|
  {
    var front := months[..|months| - 1];
    if front == [] {
      assert Entries(s, front) == [];
    } else {
      EntriesAt(s, front, if i > 0 then i - 1 else 0);
    }
  }

  lemma MonthIsListed(s: seq<Stored>, i: nat)
    requires i < |s|
    ensures Month(s[i]) in Months(s)
  {
    ChunkMembers(s, Month(s[i]), s[i]);
    ChunkIsThere(s, Month(s[i]));
  }

  lemma EntryIsTrue(s: seq<Stored>, months: seq<int>, i: nat)
    requires Chronological(s) && (forall k | 0 <= k < |months| :: Chunk(s, months[k]) != []) && i < |months|
    ensures |Entries(s, months)| == |months| && Describes(Entries(s, months)[i], s)
    ensures Entries(s, months)[i].month == months[|months| - 1 - i]
  {
    EntriesAt(s, months, i);
    EntryDescribes(s, months[|months| - 1 - i]);
  }

  predicate Descending(entries: seq<ChunkEntry>) {
    forall i, j | 0 <= i < j < |entries| :: entries[i].month > entries[j].month
  }

  predicate ListsMonth(entries: seq<ChunkEntry>, month: int) {
    exists i | 0 <= i < |entries| :: entries[i].month == month
  }

  lemma {:induction false} EntriesLength(s: seq<Stored>, months: seq<int>)
    requires forall k | 0 <= k < |months| :: Chunk(s, months[k]) != []
    ensures |Entries(s, months)| == |months|
    decreases |months|
  {
    if months != [] { EntriesLength(s, months[..|months| - 1]); }
  }

  lemma EntriesDescend(s: seq<Stored>, months: seq<int>)
    requires Chronological(s) && (forall k | 0 <= k < |months| :: Chunk(s, months[k]) != [])
    requires forall i, j | 0 <= i < j < |months| :: months[i] < months[j]
    ensures Descending(Entries(s, months)) && forall month | month in months :: ListsMonth(Entries(s, months), month)
  {
    var entries := Entries(s, months);
    EntriesLength(s, months);
    forall i | 0 <= i < |months| ensures entries[i].month == months[|months| - 1 - i] {
      EntryIsTrue(s, months, i);
    }
    forall month | month in months ensures ListsMonth(entries, month) {
      var j :| 0 <= j < |months| && months[j] == month;
      assert entries[|months| - 1 - j].month == month;
    }
  }

  /** The manifest lists every month that has records, newest first, and describes each truly. */
  lemma ManifestDescribes(s: seq<Stored>)
    requires Sorted(s, StoredLe)
    ensures var entries := Derive(s).manifest.chunks;
            && Descending(entries) && (forall i | 0 <= i < |entries| :: Describes(entries[i], s))
            && (forall k | 0 <= k < |s| :: ListsMonth(entries, Month(s[k])))
  {
    var months, entries := SortedMonths(s), Derive(s).manifest.chunks;
    SortedIsChronological(s);
    SortedMonthsAreMonths(s);
    MonthsAscend(s);
    EntriesDescend(s, months);
    forall k | 0 <= k < |s| ensures ListsMonth(entries, Month(s[k])) { MonthIsListed(s, k); }
    EntriesLength(s, months);
    forall i | 0 <= i < |entries| ensures Describes(entries[i], s) {
      EntryIsTrue(s, months, i);
    }
  }

  // Names of raw files.

  /** Records under one name are attempts of one number, on one day of one month, with names that read the same. */
  lemma NameTellsAttemptAndDay(a: Record, b: Record)
    requires RawPath(a).Some? && RawPath(a) == RawPath(b)
    ensures a.identity.attempt == b.identity.attempt
    ensures a.started.month == b.started.month && -DAY < a.started.offset - b.started.offset < DAY
    ensures Segment(a.identity.suite) == Segment(b.identity.suite) && Segment(a.identity.benchmark) == Segment(b.identity.benchmark)
    ensures Segment(a.identity.test) == Segment(b.identity.test) && Segment(a.identity.runId) == Segment(b.identity.runId)
  {
  }

  predicate IsSafe(s: string) {
    && s != [] && (forall i | 0 <= i < |s| :: IsPathChar(s[i]))
    && !IsStripped(s[0]) && !IsStripped(s[|s| - 1])
  }

  lemma {:induction false} SubstitutedIsPath(s: string, inRun: bool)
    ensures forall i | 0 <= i < |Substituted(s, inRun)| :: IsPathChar(Substituted(s, inRun)[i])
    ensures (forall i | 0 <= i < |s| :: IsPathChar(s[i])) ==> Substituted(s, inRun) == s
    decreases |s|
  {
    if s != [] {
      SubstitutedIsPath(s[1..], false);
      SubstitutedIsPath(s[1..], true);
      assert s == [s[0]] + s[1..];
    }
  }

  lemma {:induction false} StrippedIsSafe(s: string)
    requires forall i | 0 <= i < |s| :: IsPathChar(s[i])
    ensures Stripped(s) == [] || IsSafe(Stripped(s))
    decreases |s|
  {
    if s != [] {
      if IsStripped(s[0]) {
        StrippedIsSafe(s[1..]);
      } else if IsStripped(s[|s| - 1]) {
        StrippedIsSafe(s[..|s| - 1]);
      }
    }
  }

  /** A segment holds only safe characters and neither begins nor ends with a dash or a dot; a safe value is its own. */
  lemma SegmentIsSafe(value: string)
    ensures Segment(value).Some? ==> IsSafe(Segment(value).value)
    ensures IsSafe(value) ==> Segment(value) == Some(value)
  {
    SubstitutedIsPath(value, false);
    StrippedIsSafe(Substituted(value, false));
  }
}
