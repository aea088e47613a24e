/**
 Benchmark history: immutable raw records, one file each, and an index derived
 from them, one chunk a month and a manifest. Records are taken as validation
 leaves them; a file or a value that fails it is `Malformed`.
 */
module BenchmarkHistory {
  import opened Sorting

  datatype Identity = Identity(suite: string, benchmark: string, test: string, runId: string, attempt: int)

  /** A time in milliseconds: the calendar month, counted from year 0, and the time within it. */
  datatype Stamp = Stamp(month: int, offset: int)

  datatype Record = Record(identity: Identity, started: Stamp, finished: Stamp, payload: nat)

  datatype Candidate = Valid(record: Record) | Malformed

  /** A raw file under the name its record gives it, or anywhere else below the results directory. */
  datatype Path =
    | Raw(suite: string, benchmark: string, test: string, month: int, day: int, run: string, attempt: int)
    | Elsewhere(name: string)

  datatype Stored = Stored(record: Record, path: Path)

  datatype Error = MalformedResult | DuplicateIdentity | NoPath | PathCollision

  datatype Result<+T> = Ok(value: T) | Err(error: Error)

  datatype Option<+T> = None | Some(value: T)

  const DAY := 86_400_000

  // Names of raw files.

  predicate IsPathChar(c: char) {
    'A' <= c <= 'Z' || 'a' <= c <= 'z' || '0' <= c <= '9' || c == '_' || c == '.' || c == '-'
  }

  /** Every run of other characters becomes one dash; `inRun`: the last character belonged to such a run. */
  function Substituted(s: string, inRun: bool): string {
    if s == [] then [] else
    if IsPathChar(s[0]) then [s[0]] + Substituted(s[1..], false) else
    if inRun then Substituted(s[1..], true) else ['-'] + Substituted(s[1..], true)
  }

  predicate IsStripped(c: char) {
    c == '-' || c == '.'
  }

  function Stripped(s: string): string {
    if s == [] then [] else
    if IsStripped(s[0]) then Stripped(s[1..]) else
    if IsStripped(s[|s| - 1]) then Stripped(s[..|s| - 1]) else s
  }

  function Segment(value: string): Option<string> {
    var safe := Stripped(Substituted(value, false));
    if safe == [] then None else Some(safe)
  }

  function RawPath(r: Record): Option<Path> {
    var suite, benchmark, test, run := Segment(r.identity.suite), Segment(r.identity.benchmark), Segment(r.identity.test), Segment(r.identity.runId);
    if suite.None? || benchmark.None? || test.None? || run.None? then None else
    Some(Raw(suite.value, benchmark.value, test.value, r.started.month, r.started.offset / DAY, run.value, r.identity.attempt))
  }

  // The order of records.

  function Codes(s: string): (r: seq<int>)
    ensures |r| == |s| && forall i | 0 <= i < |s| :: r[i] == s[i] as int
  {
    seq(|s|, i requires 0 <= i < |s| => s[i] as int)
  }

  lemma CodesAreInjective(a: string, b: string)
    requires Codes(a) == Codes(b)
    ensures a == b
  {
    assert |a| == |b|;
    forall i | 0 <= i < |a| ensures a[i] == b[i] { assert Codes(a)[i] == Codes(b)[i]; }
  }

  function SortKey(r: Record): seq<seq<int>> {
    [[r.started.month, r.started.offset], Codes(r.identity.runId), [r.identity.attempt],
     Codes(r.identity.suite), Codes(r.identity.benchmark), Codes(r.identity.test)]
  }

  predicate StoredLe(a: Stored, b: Stored) {
    TupleLe(SortKey(a.record), SortKey(b.record))
  }

  lemma StoredLeIsOrder()
    ensures IsOrder(StoredLe)
  {
    forall a, b ensures StoredLe(a, b) || StoredLe(b, a) { TupleLeIsTotal(SortKey(a.record), SortKey(b.record)); }
    forall a, b, c | StoredLe(a, b) && StoredLe(b, c) ensures StoredLe(a, c) {
      TupleLeIsTransitive(SortKey(a.record), SortKey(b.record), SortKey(c.record));
    }
  }

  /** The key holds the whole identity. */
  lemma KeyDeterminesIdentity(a: Record, b: Record)
    requires SortKey(a) == SortKey(b)
    ensures a.identity == b.identity
  {
    var k, l := SortKey(a), SortKey(b);
    assert k[1] == l[1] && k[2] == l[2] && k[3] == l[3] && k[4] == l[4] && k[5] == l[5];
    assert k[2][0] == l[2][0];
    CodesAreInjective(a.identity.runId, b.identity.runId);
    CodesAreInjective(a.identity.suite, b.identity.suite);
    CodesAreInjective(a.identity.benchmark, b.identity.benchmark);
    CodesAreInjective(a.identity.test, b.identity.test);
  }

  predicate DistinctIdentities(s: seq<Stored>) {
    forall i, j | 0 <= i < j < |s| :: s[i].record.identity != s[j].record.identity
  }

  /** Records of distinct identities have one order only. */
  lemma OrderIsUnique(a: seq<Stored>, b: seq<Stored>)
    requires DistinctIdentities(a) && multiset(a) == multiset(b)
    ensures Sort(a, StoredLe) == Sort(b, StoredLe)
  {
    StoredLeIsOrder();
    SortKeeps(a, StoredLe);
    SortKeeps(b, StoredLe);
    SortSorts(a, StoredLe);
    SortSorts(b, StoredLe);
    var s := Sort(a, StoredLe);
    forall x, y | x in s && y in s && StoredLe(x, y) && StoredLe(y, x) ensures x == y {
      TupleLeIsAntisymmetric(SortKey(x.record), SortKey(y.record));
      KeyDeterminesIdentity(x.record, y.record);
      assert x in multiset(a) && y in multiset(a);
      var i :| 0 <= i < |a| && a[i] == x;
      var j :| 0 <= j < |a| && a[j] == y;
    }
    SortedIsUnique(s, Sort(b, StoredLe), StoredLe);
  }

  // Reading the raw files.

  type Files = map<Path, Candidate>

  predicate Has(s: seq<Stored>, identity: Identity) {
    exists i | 0 <= i < |s| :: s[i].record.identity == identity
  }

  predicate HasPath(s: seq<Stored>, path: Path) {
    exists i | 0 <= i < |s| :: s[i].path == path
  }

  function Load(files: Files, paths: seq<Path>): Result<seq<Stored>>
    requires forall i | 0 <= i < |paths| :: paths[i] in files
  {
    if paths == [] then Ok([]) else
    var front, path := Load(files, paths[..|paths| - 1]), paths[|paths| - 1];
    if front.Err? then front else
    match files[path]
    case Malformed => Err(MalformedResult)
    case Valid(record) => if Has(front.value, record.identity) then Err(DuplicateIdentity) else Ok(front.value + [Stored(record, path)])
  }

  /** Every file, once. */
  ghost predicate Lists(paths: seq<Path>, files: Files) {
    && (forall i | 0 <= i < |paths| :: paths[i] in files)
    && (forall i, j | 0 <= i < j < |paths| :: paths[i] != paths[j])
    && (forall p | p in files :: p in paths)
  }

  /** The files are exactly these records. */
  ghost predicate Holds(files: Files, s: seq<Stored>) {
    && DistinctIdentities(s)
    && (forall i, j | 0 <= i < j < |s| :: s[i].path != s[j].path)
    && (forall i | 0 <= i < |s| :: s[i].path in files && files[s[i].path] == Valid(s[i].record))
    && (forall p | p in files :: HasPath(s, p))
  }

  /** What is read is what is there: one entry per file, in the order of the listing. */
  lemma {:induction false} LoadedEntries(files: Files, paths: seq<Path>)
    requires (forall i | 0 <= i < |paths| :: paths[i] in files) && Load(files, paths).Ok?
    ensures var s := Load(files, paths).value;
            && |s| == |paths| && DistinctIdentities(s)
            && forall i | 0 <= i < |s| :: s[i].path == paths[i] && files[paths[i]] == Valid(s[i].record)
    decreases |paths|
  {
    if paths != [] { LoadedEntries(files, paths[..|paths| - 1]); }
  }

  lemma LoadedHolds(files: Files, paths: seq<Path>)
    requires Lists(paths, files) && Load(files, paths).Ok?
    ensures Holds(files, Load(files, paths).value)
  {
    LoadedEntries(files, paths);
    var s := Load(files, paths).value;
    forall p | p in files ensures HasPath(s, p) {
      var i :| 0 <= i < |paths| && paths[i] == p;
      assert s[i].path == p;
    }
  }

  lemma DifferentFiles(s: seq<Stored>, x: Stored, y: Stored)
    requires DistinctIdentities(s) && x in s && y in s && x.path != y.path
    ensures x.record.identity != y.record.identity
  {
    var i :| 0 <= i < |s| && s[i] == x;
    var j :| 0 <= j < |s| && s[j] == y;
  }

  /** Files that hold records of distinct identities can be read. */
  lemma {:induction false} HeldCanBeLoaded(files: Files, s: seq<Stored>, paths: seq<Path>)
    requires Holds(files, s) && (forall i | 0 <= i < |paths| :: paths[i] in files)
    requires forall i, j | 0 <= i < j < |paths| :: paths[i] != paths[j]
    ensures Load(files, paths).Ok?
    ensures forall x | x in Load(files, paths).value :: x in s
    decreases |paths|
  {
    if paths != [] {
      var front, path := paths[..|paths| - 1], paths[|paths| - 1];
      HeldCanBeLoaded(files, s, front);
      LoadedEntries(files, front);
      var loaded := Load(files, front).value;
      var k :| 0 <= k < |s| && s[k].path == path;
      forall i | 0 <= i < |loaded| ensures loaded[i].record.identity != s[k].record.identity {
        assert loaded[i] in s && loaded[i].path == front[i] == paths[i];
        DifferentFiles(s, loaded[i], s[k]);
      }
    }
  }

  /** Reading the raw files in any order and sorting gives the records in the one order they have. */
  lemma RawFilesSuffice(files: Files, s: seq<Stored>, paths: seq<Path>)
    requires Holds(files, s) && Lists(paths, files)
    ensures Load(files, paths).Ok? && Sort(Load(files, paths).value, StoredLe) == Sort(s, StoredLe)
  {
    HeldCanBeLoaded(files, s, paths);
    LoadedEntries(files, paths);
    var loaded := Load(files, paths).value;
    forall x ensures x in loaded <==> x in s {
      if x in s {
        assert x.path in paths;
        var i :| 0 <= i < |paths| && paths[i] == x.path;
        assert loaded[i] == x;
      }
    }
    assert forall i, j | 0 <= i < j < |s| :: s[i].record.identity != s[j].record.identity && s[i] != s[j];
    assert forall i, j | 0 <= i < j < |loaded| :: loaded[i].record.identity != loaded[j].record.identity && loaded[i] != loaded[j];
    SameElements(s, loaded);
    OrderIsUnique(s, loaded);
  }

  // Adding records.

  /** Adds what is new; an identity that is known keeps its first record. */
  function Add(known: seq<Stored>, current: seq<Candidate>): Result<seq<Stored>> {
    if current == [] then Ok(known) else
    var front := Add(known, current[..|current| - 1]);
    if front.Err? then front else AddOne(front.value, current[|current| - 1])
  }

  function AddOne(known: seq<Stored>, value: Candidate): Result<seq<Stored>> {
    if value.Malformed? then Err(MalformedResult) else
    if Has(known, value.record.identity) then Ok(known) else
    var path := RawPath(value.record);
    if path.None? then Err(NoPath) else
    if HasPath(known, path.value) then Err(PathCollision) else Ok(known + [Stored(value.record, path.value)])
  }

  function Written(files: Files, added: seq<Stored>): Files {
    if added == [] then files else
    var last := added[|added| - 1];
    Written(files, added[..|added| - 1])[last.path := Valid(last.record)]
  }

  lemma HoldsOneMore(files: Files, s: seq<Stored>, x: Stored)
    requires Holds(files, s) && !Has(s, x.record.identity) && !HasPath(s, x.path)
    ensures Holds(files[x.path := Valid(x.record)], s + [x])
  {
    var t, after := s + [x], files[x.path := Valid(x.record)];
    forall p | p in after ensures HasPath(t, p) {
      if p == x.path {
        assert t[|s|].path == p;
      } else {
        assert HasPath(s, p);
        var i :| 0 <= i < |s| && s[i].path == p;
        assert t[i].path == p;
      }
    }
  }

  /** What was known stays, at the front. */
  lemma {:induction false} KnownStays(known: seq<Stored>, current: seq<Candidate>)
    requires Add(known, current).Ok?
    ensures known <= Add(known, current).value
    decreases |current|
  {
    if current != [] { KnownStays(known, current[..|current| - 1]); }
  }

  lemma WrittenOneMore(files: Files, added: seq<Stored>, x: Stored)
    ensures Written(files, added + [x]) == Written(files, added)[x.path := Valid(x.record)]
  {
    assert (added + [x])[..|added|] == added;
  }

  lemma AddedOne(known: seq<Stored>, value: Candidate)
    requires AddOne(known, value).Ok?
    ensures var s := AddOne(known, value).value;
            && value.Valid? && known <= s && Has(s, value.record.identity)
            && (s == known || (s == known + [s[|known|]] && s[|known|].record == value.record
                               && !Has(known, value.record.identity) && !HasPath(known, s[|known|].path)))
  {
    var s := AddOne(known, value).value;
    if s != known { assert s[|known|].record.identity == value.record.identity; }
  }

  /** The files written along the way hold exactly the records that are known in the end. */
  lemma {:induction false} AddedHolds(files: Files, known: seq<Stored>, current: seq<Candidate>)
    requires Holds(files, known) && Add(known, current).Ok?
    ensures var s := Add(known, current).value;
            known <= s && Holds(Written(files, s[|known|..]), s)
    decreases |current|
  {
    KnownStays(known, current);
    var s := Add(known, current).value;
    if current == [] {
      assert s[|known|..] == [];
    } else {
      var before := current[..|current| - 1];
      var front := Add(known, before).value;
      AddedHolds(files, known, before);
      AddedOne(front, current[|current| - 1]);
      if s != front {
        var x := s[|front|];
        assert s[|known|..] == front[|known|..] + [x];
        WrittenOneMore(files, front[|known|..], x);
        HoldsOneMore(Written(files, front[|known|..]), front, x);
      }
    }
  }

  lemma HasBeyond(s: seq<Stored>, t: seq<Stored>, identity: Identity)
    requires s <= t && Has(s, identity)
    ensures Has(t, identity)
  {
    var i :| 0 <= i < |s| && s[i].record.identity == identity;
    assert t[i] == s[i];
  }

  /** Every identity that comes along ends up known. */
  lemma {:induction false} ComersAreKnown(known: seq<Stored>, current: seq<Candidate>, i: nat)
    requires Add(known, current).Ok? && i < |current|
    ensures current[i].Valid? && Has(Add(known, current).value, current[i].record.identity)
    decreases |current|
  {
    var before := current[..|current| - 1];
    AddedOne(Add(known, before).value, current[|current| - 1]);
    if i < |before| {
      ComersAreKnown(known, before, i);
      HasBeyond(Add(known, before).value, Add(known, current).value, current[i].record.identity);
    }
  }

  /** The first value of its identity. */
  predicate IsFirst(current: seq<Candidate>, r: Record) {
    exists i | 0 <= i < |current| ::
      current[i] == Valid(r) && forall j | 0 <= j < i && current[j].Valid? :: current[j].record.identity != r.identity
  }

  lemma FirstStays(before: seq<Candidate>, value: Candidate, r: Record)
    requires IsFirst(before, r)
    ensures IsFirst(before + [value], r)
  {
    var i :| 0 <= i < |before| && before[i] == Valid(r) && forall j | 0 <= j < i && before[j].Valid? :: before[j].record.identity != r.identity;
    var current := before + [value];
    assert current[i] == Valid(r) && forall j | 0 <= j < i :: current[j] == before[j];
  }

  /** Whatever is new is the first record of an identity that was not known before. */
  lemma {:induction false} FirstRecordIsKept(known: seq<Stored>, current: seq<Candidate>, k: nat)
    requires Add(known, current).Ok? && |known| <= k < |Add(known, current).value|
    ensures var r := Add(known, current).value[k].record;
            !Has(known, r.identity) && IsFirst(current, r)
    decreases |current|
  {
    if current != [] {
      var before, value := current[..|current| - 1], current[|current| - 1];
      var front, s := Add(known, before).value, Add(known, current).value;
      AddedOne(front, value);
      KnownStays(known, before);
      assert current == before + [value];
      if k < |front| {
        FirstRecordIsKept(known, before, k);
        FirstStays(before, value, front[k].record);
      } else {
        if Has(known, value.record.identity) { HasBeyond(known, front, value.record.identity); }
        forall j | 0 <= j < |before| ensures before[j].Valid? && before[j].record.identity != value.record.identity {
          ComersAreKnown(known, before, j);
        }
        assert current[|before|] == Valid(s[k].record);
      }
    }
  }

  // The order in which records arrive.

  predicate IsNew(known: seq<Stored>, value: Candidate) {
    value.Valid? && !Has(known, value.record.identity)
  }

  /** Valid values; those of new identities have names of their own, and no new identity comes twice. */
  predicate Fits(known: seq<Stored>, current: seq<Candidate>) {
    && (forall i | 0 <= i < |current| :: current[i].Valid?)
    && (forall i | 0 <= i < |current| && IsNew(known, current[i]) ::
          RawPath(current[i].record).Some? && !HasPath(known, RawPath(current[i].record).value))
    && (forall i, j | 0 <= i < j < |current| && IsNew(known, current[i]) && IsNew(known, current[j]) ::
          && current[i].record.identity != current[j].record.identity
          && RawPath(current[i].record) != RawPath(current[j].record))
  }

  predicate Contributes(known: seq<Stored>, value: Candidate, x: Stored) {
    IsNew(known, value) && x.record == value.record && RawPath(value.record) == Some(x.path)
  }

  predicate Arrives(known: seq<Stored>, current: seq<Candidate>, x: Stored) {
    exists i | 0 <= i < |current| :: Contributes(known, current[i], x)
  }

  lemma ArrivesOneMore(known: seq<Stored>, before: seq<Candidate>, value: Candidate, x: Stored)
    ensures Arrives(known, before + [value], x) <==> Arrives(known, before, x) || Contributes(known, value, x)
  {
    var current := before + [value];
    assert current[|before|] == value;
    if i :| 0 <= i < |before| && Contributes(known, before[i], x) { assert current[i] == before[i]; }
    if i :| 0 <= i < |current| && Contributes(known, current[i], x) {
      if i < |before| { assert before[i] == current[i]; }
    }
  }

  lemma FitsBefore(known: seq<Stored>, before: seq<Candidate>, value: Candidate)
    requires Fits(known, before + [value])
    ensures Fits(known, before) && value.Valid?
    ensures IsNew(known, value) ==> RawPath(value.record).Some? && !HasPath(known, RawPath(value.record).value)
    ensures forall x | Arrives(known, before, x) && IsNew(known, value) ::
              x.record.identity != value.record.identity && Some(x.path) != RawPath(value.record)
  {
    var current := before + [value];
    assert current[|before|] == value;
    assert forall i | 0 <= i < |before| :: current[i] == before[i];
  }

  /** Exactly the known records and those of new identities end up known. */
  lemma {:induction false} AddedMembers(known: seq<Stored>, current: seq<Candidate>)
    requires Fits(known, current)
    ensures Add(known, current).Ok? && forall x :: x in Add(known, current).value <==> x in known || Arrives(known, current, x)
    decreases |current|
  {
    if current != [] {
      var before, value := current[..|current| - 1], current[|current| - 1];
      assert current == before + [value];
      FitsBefore(known, before, value);
      AddedMembers(known, before);
      AddedOneMember(known, before, value);
    }
  }

  lemma AddedOneMember(known: seq<Stored>, before: seq<Candidate>, value: Candidate)
    requires Add(known, before).Ok? && value.Valid?
    requires forall x :: x in Add(known, before).value <==> x in known || Arrives(known, before, x)
    requires IsNew(known, value) ==> RawPath(value.record).Some? && !HasPath(known, RawPath(value.record).value)
    requires forall x | Arrives(known, before, x) && IsNew(known, value) ::
               x.record.identity != value.record.identity && Some(x.path) != RawPath(value.record)
    ensures var r := AddOne(Add(known, before).value, value);
            r.Ok? && forall x :: x in r.value <==> x in known || Arrives(known, before + [value], x)
  {
    var front := Add(known, before).value;
    KnownStays(known, before);
    if Has(known, value.record.identity) {
      HasBeyond(known, front, value.record.identity);
    } else {
      forall i | 0 <= i < |front|
        ensures front[i].record.identity != value.record.identity && front[i].path != RawPath(value.record).value
      {
        assert front[i] in front;
        if front[i] in known { var k :| 0 <= k < |known| && known[k] == front[i]; }
      }
    }
    forall x ensures x in AddOne(front, value).value <==> x in known || Arrives(known, before + [value], x) {
      ArrivesOneMore(known, before, value, x);
    }
  }

  lemma {:induction false} AddedIsDistinct(known: seq<Stored>, current: seq<Candidate>)
    requires DistinctIdentities(known) && Add(known, current).Ok?
    ensures DistinctIdentities(Add(known, current).value)
    decreases |current|
  {
    if current != [] {
      AddedIsDistinct(known, current[..|current| - 1]);
      AddedOne(Add(known, current[..|current| - 1]).value, current[|current| - 1]);
    }
  }

  /** Values whose new identities and names are distinct lead to the same records in the same order, however they arrive. */
  lemma OrderDoesNotMatter(known: seq<Stored>, a: seq<Candidate>, b: seq<Candidate>)
    requires DistinctIdentities(known) && Fits(known, a) && Fits(known, b) && forall c :: c in a <==> c in b
    ensures Add(known, a).Ok? && Add(known, b).Ok? && Sort(Add(known, a).value, StoredLe) == Sort(Add(known, b).value, StoredLe)
  {
    AddedMembers(known, a);
    AddedMembers(known, b);
    AddedIsDistinct(known, a);
    AddedIsDistinct(known, b);
    var s, t := Add(known, a).value, Add(known, b).value;
    forall x ensures x in s <==> x in t {
      if i :| 0 <= i < |a| && Contributes(known, a[i], x) {
        assert a[i] in b;
        var j :| 0 <= j < |b| && b[j] == a[i];
        assert Arrives(known, b, x);
      }
      if j :| 0 <= j < |b| && Contributes(known, b[j], x) {
        assert b[j] in a;
        var i :| 0 <= i < |a| && a[i] == b[j];
        assert Arrives(known, a, x);
      }
    }
    assert forall i, j | 0 <= i < j < |s| :: s[i].record.identity != s[j].record.identity && s[i] != s[j];
    assert forall i, j | 0 <= i < j < |t| :: t[i].record.identity != t[j].record.identity && t[i] != t[j];
    SameElements(s, t);
    OrderIsUnique(s, t);
  }

  // The index.

  datatype ChunkEntry = ChunkEntry(month: int, count: nat, first: Stamp, last: Stamp, suites: set<string>)

  /** `chunks` lists the newest month first. */
  datatype Manifest = Manifest(count: nat, newest: Option<Stamp>, chunks: seq<ChunkEntry>)

  datatype Index = Index(chunks: map<int, seq<Stored>>, manifest: Manifest)

  function Month(x: Stored): int {
    x.record.started.month
  }

  function Chunk(s: seq<Stored>, month: int): seq<Stored> {
    if s == [] then [] else
    var front := Chunk(s[..|s| - 1], month);
    if Month(s[|s| - 1]) == month then front + [s[|s| - 1]] else front
  }

  /** The months in order of first appearance. */
  function Months(s: seq<Stored>): seq<int> {
    if s == [] then [] else
    var front := Months(s[..|s| - 1]);
    if Month(s[|s| - 1]) in front then front else front + [Month(s[|s| - 1])]
  }

  predicate Ascending(a: int, b: int) {
    a <= b
  }

  function StampLater(a: Stamp, b: Stamp): Stamp {
    if a.month > b.month || (a.month == b.month && a.offset >= b.offset) then a else b
  }

  function Newest(s: seq<Stored>): Option<Stamp> {
    if s == [] then None else
    var front, last := Newest(s[..|s| - 1]), s[|s| - 1].record.finished;
    Some(if front.None? then last else StampLater(front.value, last))
  }

  function Suites(s: seq<Stored>): set<string> {
    set i | 0 <= i < |s| :: s[i].record.identity.suite
  }

  lemma {:induction false} ChunkIsThere(s: seq<Stored>, month: int)
    ensures Chunk(s, month) != [] <==> month in Months(s)
    decreases |s|
  {
    if s != [] { ChunkIsThere(s[..|s| - 1], month); }
  }

  function EntryOf(month: int, items: seq<Stored>): ChunkEntry
    requires items != []
  {
    ChunkEntry(month, |items|, items[0].record.started, items[|items| - 1].record.started, Suites(items))
  }

  /** The entries of these months, the last month first. */
  function Entries(s: seq<Stored>, months: seq<int>): seq<ChunkEntry>
    requires forall i | 0 <= i < |months| :: Chunk(s, months[i]) != []
  {
    if months == [] then [] else
    var month := months[|months| - 1];
    [EntryOf(month, Chunk(s, month))] + Entries(s, months[..|months| - 1])
  }

  function SortedMonths(s: seq<Stored>): (months: seq<int>)
    ensures forall i | 0 <= i < |months| :: Chunk(s, months[i]) != []
  {
    var months := Sort(Months(s), Ascending);
    assert forall i | 0 <= i < |months| :: Chunk(s, months[i]) != [] by {
      forall i | 0 <= i < |months| ensures Chunk(s, months[i]) != [] {
        SortHasTheSame(Months(s), Ascending, months[i]);
        ChunkIsThere(s, months[i]);
      }
    }
    months
  }

  /** Everything derived from sorted records. */
  function Derive(s: seq<Stored>): Index {
    Index(map m | m in Months(s) :: Chunk(s, m), Manifest(|s|, Newest(s), Entries(s, SortedMonths(s))))
  }

  // What the index says.

  function Merged(s: seq<Stored>, months: seq<int>): seq<Stored> {
    if months == [] then [] else Merged(s, months[..|months| - 1]) + Chunk(s, months[|months| - 1])
  }

  lemma LaterMonth(a: Stored, b: Stored)
    requires StoredLe(a, b)
    ensures Month(a) <= Month(b)
  {
    var k, l := SortKey(a.record)[0], SortKey(b.record)[0];
    if k == l { assert k[0] == l[0]; }
  }

  lemma {:induction false} OtherChunks(front: seq<Stored>, last: Stored, months: seq<int>)
    requires Month(last) !in months
    ensures Merged(front + [last], months) == Merged(front, months)
    decreases |months|
  {
    if months != [] {
      var m := months[|months| - 1];
      assert m in months;
      OtherChunks(front, last, months[..|months| - 1]);
      assert (front + [last])[..|front|] == front;
    }
  }

  /** In sorted records the months appear one after the other. */
  lemma {:induction false} MonthsAscend(s: seq<Stored>)
    requires Sorted(s, StoredLe)
    ensures var months := Months(s);
            && (forall i, j | 0 <= i < j < |months| :: months[i] < months[j])
            && (s != [] ==> months != [] && months[|months| - 1] == Month(s[|s| - 1]))
    decreases |s|
  {
    if |s| > 1 {
      var front := s[..|s| - 1];
      MonthsAscend(front);
      LaterMonth(s[|s| - 2], s[|s| - 1]);
      LastMonthIsLast(Months(front), Month(s[|s| - 1]));
    } else if |s| == 1 {
      assert Months(s[..0]) == [];
    }
  }

  lemma LastMonthIsLast(months: seq<int>, m: int)
    requires months != [] && months[|months| - 1] <= m && forall i, j | 0 <= i < j < |months| :: months[i] < months[j]
    ensures m in months ==> m == months[|months| - 1]
  {
  }

  /** The chunks, month by month, are the sorted records: none is lost, none is moved, none comes twice. */
  lemma {:induction false} ChunksPartition(s: seq<Stored>)
    requires Sorted(s, StoredLe)
    ensures Merged(s, Months(s)) == s
    decreases |s|
  {
    if s != [] {
      var front, last := s[..|s| - 1], s[|s| - 1];
      assert s == front + [last];
      ChunksPartition(front);
      MonthsAscend(front);
      MonthsAscend(s);
      if Month(last) in Months(front) { SameMonth(front, last); } else { NewMonth(front, last); }
    }
  }

  lemma SameMonth(front: seq<Stored>, last: Stored)
    requires Merged(front, Months(front)) == front && Months(front + [last]) == Months(front) != []
    requires var months := Months(front); months[|months| - 1] == Month(last) && Month(last) !in months[..|months| - 1]
    ensures Merged(front + [last], Months(front + [last])) == front + [last]
  {
    var months := Months(front);
    assert (front + [last])[..|front|] == front;
    OtherChunks(front, last, months[..|months| - 1]);
  }

  lemma NewMonth(front: seq<Stored>, last: Stored)
    requires Merged(front, Months(front)) == front && Month(last) !in Months(front)
    ensures Merged(front + [last], Months(front + [last])) == front + [last]
  {
    assert (front + [last])[..|front|] == front;
    assert Months(front + [last])[..|Months(front)|] == Months(front);
    ChunkIsThere(front, Month(last));
    OtherChunks(front, last, Months(front));
  }

  lemma SortedMonthsAreMonths(s: seq<Stored>)
    requires Sorted(s, StoredLe)
    ensures SortedMonths(s) == Months(s)
  {
    MonthsAscend(s);
    SortedStays(Months(s), Ascending);
  }

  function Total(entries: seq<ChunkEntry>): nat {
    if entries == [] then 0 else entries[0].count + Total(entries[1..])
  }

  lemma {:induction false} EntriesCount(s: seq<Stored>, months: seq<int>)
    requires forall i | 0 <= i < |months| :: Chunk(s, months[i]) != []
    ensures Total(Entries(s, months)) == |Merged(s, months)|
    decreases |months|
  {
    if months != [] {
      EntriesCount(s, months[..|months| - 1]);
      assert Entries(s, months)[1..] == Entries(s, months[..|months| - 1]);
    }
  }

  /** The counts of the chunks add up to the number of records. */
  lemma CountsAddUp(s: seq<Stored>)
    requires Sorted(s, StoredLe)
    ensures Total(Derive(s).manifest.chunks) == Derive(s).manifest.count == |s|
  {
    SortedMonthsAreMonths(s);
    ChunksPartition(s);
    EntriesCount(s, SortedMonths(s));
  }

  predicate StampLe(a: Stamp, b: Stamp) {
    a.month < b.month || (a.month == b.month && a.offset <= b.offset)
  }

  lemma {:induction false} NewestIsLatest(s: seq<Stored>)
    requires s != []
    ensures Newest(s).Some?
    ensures exists i | 0 <= i < |s| :: s[i].record.finished == Newest(s).value
    ensures forall i | 0 <= i < |s| :: StampLe(s[i].record.finished, Newest(s).value)
    decreases |s|
  {
    if |s| > 1 {
      var front := s[..|s| - 1];
      NewestIsLatest(front);
      var k :| 0 <= k < |front| && front[k].record.finished == Newest(front).value;
      assert s[k] == front[k] && forall i | 0 <= i < |front| :: s[i] == front[i];
      assert s[|front|].record.finished == s[|s| - 1].record.finished;
    } else {
      assert s[..0] == [] && s[0].record.finished == Newest(s).value;
    }
  }

  /**
   After records were stored, the raw files alone give the very same index, in whatever order they
   are read.
   */
  lemma RebuildingChangesNothing(files: Files, paths: seq<Path>, current: seq<Candidate>, later: seq<Path>)
    requires Lists(paths, files) && Load(files, paths).Ok? && Add(Load(files, paths).value, current).Ok?
    requires var known := Load(files, paths).value;
             var s := Add(known, current).value;
             known <= s && Lists(later, Written(files, s[|known|..]))
    ensures var known := Load(files, paths).value;
            var s := Add(known, current).value;
            var reloaded := Load(Written(files, s[|known|..]), later);
            reloaded.Ok? && Derive(Sort(reloaded.value, StoredLe)) == Derive(Sort(s, StoredLe))
  {
    LoadedHolds(files, paths);
    var known := Load(files, paths).value;
    AddedHolds(files, known, current);
    var s := Add(known, current).value;
    RawFilesSuffice(Written(files, s[|known|..]), s, later);
  }
}
