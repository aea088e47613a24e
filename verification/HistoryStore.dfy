/**
 The history directory in the form of benchmark_history.py: dictionaries and
 files updated in loops.
 */
module HistoryStore {
  import opened BenchmarkHistory
  import opened Sorting

  lemma {:induction false} LoadErrorStays(files: Files, paths: seq<Path>, n: nat)
    requires n <= |paths| && forall i | 0 <= i < |paths| :: paths[i] in files
    requires Load(files, paths[..n]).Err?
    ensures Load(files, paths) == Load(files, paths[..n])
    decreases |paths|
  {
    if n == |paths| {
      assert paths[..n] == paths;
    } else {
      assert paths[..|paths| - 1][..n] == paths[..n];
      LoadErrorStays(files, paths[..|paths| - 1], n);
    }
  }

  lemma {:induction false} AddErrorStays(known: seq<Stored>, current: seq<Candidate>, n: nat)
    requires n <= |current| && Add(known, current[..n]).Err?
    ensures Add(known, current) == Add(known, current[..n])
    decreases |current|
  {
    if n == |current| {
      assert current[..n] == current;
    } else {
      assert current[..|current| - 1][..n] == current[..n];
      AddErrorStays(known, current[..|current| - 1], n);
    }
  }

  /** One more record goes into a file of its own. */
  lemma OneMoreFile(before: Files, files: Files, all: seq<Stored>, n: nat, x: Stored)
    requires n <= |all| && Holds(files, all) && files == Written(before, all[n..])
    requires !Has(all, x.record.identity) && !HasPath(all, x.path)
    ensures x.path !in files && Holds(files[x.path := Valid(x.record)], all + [x])
    ensures files[x.path := Valid(x.record)] == Written(before, (all + [x])[n..])
  {
    HoldsOneMore(files, all, x);
    WrittenOneMore(before, all[n..], x);
    assert (all + [x])[n..] == all[n..] + [x];
  }

  class History {
    var files: Files
    var chunks: map<int, seq<Stored>>
    var manifest: Option<Manifest>

    constructor ()
      ensures files == map[] && chunks == map[] && manifest == None
    {
      files, chunks, manifest := map[], map[], None;
    }

    /** Reads every raw file; two files of one identity are an error. */
    method LoadHistory(paths: seq<Path>) returns (r: Result<seq<Stored>>)
      requires forall i | 0 <= i < |paths| :: paths[i] in files
      ensures r == Load(files, paths)
    {
      var stored := [];
      var identities := map[];
      for n := 0 to |paths|
        invariant Load(files, paths[..n]) == Ok(stored)
        invariant forall identity :: identity in identities <==> Has(stored, identity)
      {
        assert paths[..n + 1][..n] == paths[..n];
        var value := files[paths[n]];
        if value.Malformed? || value.record.identity in identities {
          LoadErrorStays(files, paths, n + 1);
          return Err(if value.Malformed? then MalformedResult else DuplicateIdentity);
        }
        ghost var before := stored;
        identities := identities[value.record.identity := paths[n]];
        stored := stored + [Stored(value.record, paths[n])];
        HasOneMore(before, Stored(value.record, paths[n]));
      }
      assert paths[..|paths|] == paths;
      return Ok(stored);
    }

    /** Adds unseen identities, one file each. Whatever happens, no file that was there changes. */
    method AddResults(known: seq<Stored>, current: seq<Candidate>) returns (r: Result<seq<Stored>>)
      requires Holds(files, known)
      modifies this`files
      ensures r == Add(known, current)
      ensures r.Ok? ==> known <= r.value && files == Written(old(files), r.value[|known|..])
      ensures forall p | p in old(files) :: p in files && files[p] == old(files)[p]
    {
      var all := known;
      for n := 0 to |current|
        invariant Add(known, current[..n]) == Ok(all) && known <= all && Holds(files, all)
        invariant files == Written(old(files), all[|known|..])
        invariant forall p | p in old(files) :: p in files && files[p] == old(files)[p]
      {
        assert current[..n + 1][..n] == current[..n];
        var value := current[n];
        if value.Malformed? {
          AddErrorStays(known, current, n + 1);
          return Err(MalformedResult);
        }
        if !Has(all, value.record.identity) {
          var path := RawPath(value.record);
          if path.None? || HasPath(all, path.value) {
            AddErrorStays(known, current, n + 1);
            return Err(if path.None? then NoPath else PathCollision);
          }
          OneMoreFile(old(files), files, all, |known|, Stored(value.record, path.value));
          files := files[path.value := Valid(value.record)];
          all := all + [Stored(value.record, path.value)];
        }
      }
      assert current[..|current|] == current;
      return Ok(all);
    }

    /** Writes one chunk a month and the manifest; chunks of other months go. */
    method RebuildIndexes(stored: seq<Stored>)
      modifies this`chunks, this`manifest
      ensures manifest.Some? && Index(chunks, manifest.value) == Derive(Sort(stored, StoredLe))
    {
      var sorted := Sort(stored, StoredLe);
      var byMonth := GroupByMonth(sorted);
      var months := SortedMonths(sorted);
      var entries := [];
      for n := 0 to |months|
        invariant entries == Entries(sorted, months[..n])
      {
        assert months[..n + 1][..n] == months[..n];
        SortHasTheSame(Months(sorted), Ascending, months[n]);
        var items := byMonth[months[n]];
        entries := [EntryOf(months[n], items)] + entries;
      }
      assert months[..|months|] == months;
      var newest := LatestFinish(sorted);
      chunks := byMonth;
      manifest := Some(Manifest(|sorted|, newest, entries));
    }

    /** Stores what is new, then derives the index from everything that is known. */
    method StoreResults(paths: seq<Path>, current: seq<Candidate>) returns (r: Result<seq<Stored>>)
      requires Lists(paths, files)
      modifies this
      ensures r.Err? <==> Load(old(files), paths).Err? || Add(Load(old(files), paths).value, current).Err?
      ensures r.Err? ==> chunks == old(chunks) && manifest == old(manifest)
      ensures r.Ok? ==>
                var known := Load(old(files), paths).value;
                var all := Add(known, current).value;
                && r.value == Sort(all, StoredLe) && manifest.Some? && Index(chunks, manifest.value) == Derive(r.value)
                && known <= all && files == Written(old(files), all[|known|..])
      ensures forall p | p in old(files) :: p in files && files[p] == old(files)[p]
    {
      var existing := LoadHistory(paths);
      if existing.Err? { return existing; }
      LoadedHolds(files, paths);
      var all := AddResults(existing.value, current);
      if all.Err? { return all; }
      var sorted := Sort(all.value, StoredLe);
      StoredLeIsOrder();
      SortSorts(all.value, StoredLe);
      SortedStays(sorted, StoredLe);
      RebuildIndexes(sorted);
      return Ok(sorted);
    }
  }

  method GroupByMonth(s: seq<Stored>) returns (byMonth: map<int, seq<Stored>>)
    ensures byMonth == map m | m in Months(s) :: Chunk(s, m)
  {
    byMonth := map[];
    for n := 0 to |s|
      invariant byMonth == map m | m in Months(s[..n]) :: Chunk(s[..n], m)
    {
      assert s[..n + 1][..n] == s[..n];
      var month := Month(s[n]);
      ChunkIsThere(s[..n], month);
      byMonth := byMonth[month := (if month in byMonth then byMonth[month] else []) + [s[n]]];
    }
    assert s[..|s|] == s;
  }

  method LatestFinish(s: seq<Stored>) returns (newest: Option<Stamp>)
    ensures newest == Newest(s)
  {
    newest := None;
    for n := 0 to |s|
      invariant newest == Newest(s[..n])
    {
      assert s[..n + 1][..n] == s[..n];
      newest := Some(if newest.None? then s[n].record.finished else StampLater(newest.value, s[n].record.finished));
    }
    assert s[..|s|] == s;
  }

  lemma HasOneMore(s: seq<Stored>, x: Stored)
    ensures forall identity :: Has(s + [x], identity) <==> Has(s, identity) || x.record.identity == identity
  {
    var t := s + [x];
    assert t[|s|] == x && forall i | 0 <= i < |s| :: t[i] == s[i];
    forall identity ensures Has(t, identity) <==> Has(s, identity) || x.record.identity == identity {
      if i :| 0 <= i < |s| && s[i].record.identity == identity { assert t[i].record.identity == identity; }
    }
  }

  // Collecting the results of one run.

  /** Which run is collected, up to which attempt. */
  datatype Run = Run(suite: string, test: string, runId: string, attempt: int)

  /** The value is a result of this run for this benchmark. */
  predicate Belongs(value: Candidate, run: Run, benchmark: string) {
    && value.Valid?
    && var id := value.record.identity;
       id.suite == run.suite && id.test == run.test && id.runId == run.runId && id.attempt <= run.attempt && id.benchmark == benchmark
  }

  /** The newest attempt; of equal attempts the one found first. */
  ghost predicate IsNewest(values: seq<Candidate>, run: Run, benchmark: string, r: Record) {
    exists i | 0 <= i < |values| ::
      && values[i] == Valid(r) && Belongs(values[i], run, benchmark)
      && (forall j | 0 <= j < |values| && Belongs(values[j], run, benchmark) ::
            values[j].record.identity.attempt <= r.identity.attempt && (values[j].record.identity.attempt == r.identity.attempt ==> i <= j))
  }

  ghost predicate NothingBelongs(values: seq<Candidate>, run: Run, benchmark: string) {
    forall i | 0 <= i < |values| :: !Belongs(values[i], run, benchmark)
  }

  lemma NewestOneMore(values: seq<Candidate>, value: Candidate, run: Run, benchmark: string, r: Record)
    requires IsNewest(values, run, benchmark, r)
    ensures !Belongs(value, run, benchmark) || value.record.identity.attempt <= r.identity.attempt ==>
              IsNewest(values + [value], run, benchmark, r)
    ensures Belongs(value, run, benchmark) && value.record.identity.attempt > r.identity.attempt ==>
              IsNewest(values + [value], run, benchmark, value.record)
  {
    var all := values + [value];
    assert all[|values|] == value && forall i | 0 <= i < |values| :: all[i] == values[i];
    var i :| 0 <= i < |values| && values[i] == Valid(r) && Belongs(values[i], run, benchmark)
             && (forall j | 0 <= j < |values| && Belongs(values[j], run, benchmark) ::
                   values[j].record.identity.attempt <= r.identity.attempt && (values[j].record.identity.attempt == r.identity.attempt ==> i <= j));
    if !Belongs(value, run, benchmark) || value.record.identity.attempt <= r.identity.attempt {
      assert all[i] == Valid(r);
    } else {
      assert all[|values|] == Valid(value.record);
    }
  }

  lemma FirstOfItsCase(values: seq<Candidate>, value: Candidate, run: Run, benchmark: string)
    requires NothingBelongs(values, run, benchmark) && Belongs(value, run, benchmark)
    ensures IsNewest(values + [value], run, benchmark, value.record)
  {
    var all := values + [value];
    assert all[|values|] == value && forall i | 0 <= i < |values| :: all[i] == values[i];
  }

  ghost predicate Tracks(found: map<string, Record>, values: seq<Candidate>, run: Run, benchmark: string) {
    if benchmark in found then IsNewest(values, run, benchmark, found[benchmark]) else NothingBelongs(values, run, benchmark)
  }

  lemma TracksOneMore(before: map<string, Record>, found: map<string, Record>, values: seq<Candidate>, value: Candidate, run: Run, benchmark: string)
    requires Tracks(before, values, run, benchmark)
    requires var newer := Belongs(value, run, benchmark) && (benchmark in before ==> value.record.identity.attempt > before[benchmark].identity.attempt);
             if newer then benchmark in found && found[benchmark] == value.record
             else (benchmark in found <==> benchmark in before) && (benchmark in before ==> found[benchmark] == before[benchmark])
    ensures Tracks(found, values + [value], run, benchmark)
  {
    if benchmark in before {
      NewestOneMore(values, value, run, benchmark, before[benchmark]);
    } else if Belongs(value, run, benchmark) {
      FirstOfItsCase(values, value, run, benchmark);
    }
  }

  /** Keeps the newest attempt of every expected benchmark among the values found. */
  method CollectFound(values: seq<Candidate>, run: Run, expected: set<string>) returns (found: map<string, Record>)
    ensures found.Keys <= expected
    ensures forall benchmark | benchmark in expected :: Tracks(found, values, run, benchmark)
  {
    found := map[];
    for n := 0 to |values|
      invariant found.Keys <= expected
      invariant forall benchmark | benchmark in expected :: Tracks(found, values[..n], run, benchmark)
    {
      var value := values[n];
      ghost var before := found;
      if value.Valid? {
        var r := value.record;
        if Belongs(value, run, r.identity.benchmark) && r.identity.benchmark in expected {
          if r.identity.benchmark !in found || r.identity.attempt > found[r.identity.benchmark].identity.attempt {
            found := found[r.identity.benchmark := r];
          }
        }
      }
      assert values[..n + 1] == values[..n] + [value];
      forall benchmark | benchmark in expected ensures Tracks(found, values[..n + 1], run, benchmark) {
        TracksOneMore(before, found, values[..n], value, run, benchmark);
      }
    }
    assert values[..|values|] == values;
  }

  function Deduplicated(s: seq<string>): (r: seq<string>)
    ensures forall x :: x in r <==> x in s
    ensures forall i, j | 0 <= i < j < |r| :: r[i] != r[j]
  {
    if s == [] then [] else
    var front := Deduplicated(s[..|s| - 1]);
    assert s == s[..|s| - 1] + [s[|s| - 1]];
    if s[|s| - 1] in front then front else front + [s[|s| - 1]]
  }

  /** The failed result that stands for a benchmark without any. */
  function Synthesized(run: Run, benchmark: string, generated: Stamp, payload: nat): Record {
    Record(Identity(run.suite, benchmark, run.test, run.runId, run.attempt), generated, generated, payload)
  }

  /** One result per expected benchmark, in the order they are expected; a missing one is made explicit. */
  method CollectCurrent(values: seq<Candidate>, run: Run, expected: seq<string>, generated: Stamp, payload: nat)
    returns (results: Option<seq<Record>>)
    ensures results.None? <==> expected == []
    ensures results.Some? ==>
              && |results.value| == |Deduplicated(expected)|
              && forall i | 0 <= i < |results.value| ::
                   && results.value[i].identity.benchmark == Deduplicated(expected)[i]
                   && if NothingBelongs(values, run, Deduplicated(expected)[i])
                      then results.value[i] == Synthesized(run, Deduplicated(expected)[i], generated, payload)
                      else IsNewest(values, run, Deduplicated(expected)[i], results.value[i])
  {
    var wanted := Deduplicated(expected);
    if expected == [] { return None; }
    var found := CollectFound(values, run, set x | x in wanted);
    var collected: seq<Record> := [];
    for n := 0 to |wanted|
      invariant |collected| == n
      invariant forall i | 0 <= i < n ::
                  && collected[i].identity.benchmark == wanted[i]
                  && if NothingBelongs(values, run, wanted[i])
                     then collected[i] == Synthesized(run, wanted[i], generated, payload)
                     else IsNewest(values, run, wanted[i], collected[i])
    {
      assert Tracks(found, values, run, wanted[n]);
      collected := collected + [if wanted[n] in found then found[wanted[n]] else Synthesized(run, wanted[n], generated, payload)];
    }
    return Some(collected);
  }
}
