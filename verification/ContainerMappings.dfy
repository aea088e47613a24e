/**
 The restore mapping of a Pod: which destination containers take up the one
 captured container, as a list of pairs and as the text of an annotation.
 */
module ContainerMappings {
  import opened Sorting
  import opened Splitting
  import opened Texts

  datatype Error =
    | NilPod
    | NoSnapshotName
    | InvalidSnapshotName
    | InvalidCapturedSource
    | NoDestination
    | InvalidSource
    | InvalidDestination
    | SourceMismatch
    | DuplicateDestination
    | MalformedEntry
    | SnapshotConflict
    | MappingConflict
    | NoSuchContainer
    | DuplicateControl
    | ConflictingControl
    | MissingControl
    | ConflictingProbe
    | ConflictingSeccomp

  datatype Result<+T> = Ok(value: T) | Err(error: Error)

  datatype Mapping = Mapping(source: Text, destination: Text)

  const COMMA: Byte := 44
  const EQUALS: Byte := 61

  // Checking.

  function CheckMapping(m: Mapping, source: Text, seen: seq<Mapping>): Result<()> {
    if !IsLabel(m.source) then Err(InvalidSource) else
    if !IsLabel(m.destination) then Err(InvalidDestination) else
    if m.source != source then Err(SourceMismatch) else
    if exists i | 0 <= i < |seen| :: seen[i].destination == m.destination then Err(DuplicateDestination) else Ok(())
  }

  function CheckMappings(ms: seq<Mapping>, source: Text): Result<()> {
    if ms == [] then Ok(()) else
    var front := ms[..|ms| - 1];
    var r := CheckMappings(front, source);
    if r.Err? then r else CheckMapping(ms[|ms| - 1], source, front)
  }

  function ValidateMappings(ms: seq<Mapping>, captured: Text): Result<()> {
    if !IsLabel(TrimSpace(captured)) then Err(InvalidCapturedSource) else
    if ms == [] then Err(NoDestination) else CheckMappings(ms, TrimSpace(captured))
  }

  /** One captured source, several destinations, none twice. */
  predicate IsMapping(ms: seq<Mapping>, source: Text) {
    && (forall i | 0 <= i < |ms| :: ms[i].source == source && IsLabel(ms[i].destination))
    && (forall i, j | 0 <= i < j < |ms| :: ms[i].destination != ms[j].destination)
  }

  lemma MappingGrows(front: seq<Mapping>, last: Mapping, source: Text)
    ensures IsMapping(front + [last], source) <==>
            && IsMapping(front, source) && last.source == source && IsLabel(last.destination)
            && forall i | 0 <= i < |front| :: front[i].destination != last.destination
  {
    var ms := front + [last];
    assert ms[|front|] == last;
    if IsMapping(ms, source) {
      forall i | 0 <= i < |front| ensures front[i].source == source && IsLabel(front[i].destination) && front[i].destination != last.destination {
        assert front[i] == ms[i];
      }
      forall i, j | 0 <= i < j < |front| ensures front[i].destination != front[j].destination {
        assert front[i] == ms[i] && front[j] == ms[j];
      }
    }
  }

  /** The checks accept exactly the lists that map the captured container to distinct destinations. */
  lemma {:induction false} CheckedIffMapping(ms: seq<Mapping>, source: Text)
    requires IsLabel(source)
    ensures CheckMappings(ms, source).Ok? <==> IsMapping(ms, source)
    decreases |ms|
  {
    if ms != [] {
      var front, last := ms[..|ms| - 1], ms[|ms| - 1];
      CheckedIffMapping(front, source);
      assert ms == front + [last];
      MappingGrows(front, last, source);
    }
  }

  lemma {:induction false} ErrorStays(ms: seq<Mapping>, source: Text, n: nat)
    requires n <= |ms| && CheckMappings(ms[..n], source).Err?
    ensures CheckMappings(ms, source) == CheckMappings(ms[..n], source)
    decreases |ms|
  {
    if n == |ms| {
      assert ms[..n] == ms;
    } else {
      assert ms[..|ms| - 1][..n] == ms[..n];
      ErrorStays(ms[..|ms| - 1], source, n);
    }
  }

  /** `ValidateContainerMappings` with its set of destinations seen so far. */
  method CheckAll(ms: seq<Mapping>, captured: Text) returns (r: Result<()>)
    ensures r == ValidateMappings(ms, captured)
  {
    var source := TrimSpace(captured);
    if !IsLabel(source) { return Err(InvalidCapturedSource); }
    if ms == [] { return Err(NoDestination); }
    var destinations := {};
    for i := 0 to |ms|
      invariant CheckMappings(ms[..i], source).Ok?
      invariant destinations == set k | 0 <= k < i :: ms[k].destination
    {
      var m := ms[i];
      assert ms[..i + 1][..i] == ms[..i] && ms[..i + 1][i] == m;
      assert m.destination in destinations <==> exists k | 0 <= k < |ms[..i]| :: ms[..i][k].destination == m.destination by {
        if k :| 0 <= k < i && ms[k].destination == m.destination { assert ms[..i][k].destination == m.destination; }
      }
      var step := if !IsLabel(m.source) then Err(InvalidSource) else
                  if !IsLabel(m.destination) then Err(InvalidDestination) else
                  if m.source != source then Err(SourceMismatch) else
                  if m.destination in destinations then Err(DuplicateDestination) else Ok(());
      if step.Err? {
        ErrorStays(ms, source, i + 1);
        return step;
      }
      destinations := destinations + {m.destination};
    }
    assert ms[..|ms|] == ms;
    return Ok(());
  }

  // Writing.

  function Entry(m: Mapping): Text {
    m.source + [EQUALS] + m.destination
  }

  function Entries(ms: seq<Mapping>): (r: seq<Text>)
    ensures |r| == |ms|
  {
    seq(|ms|, i requires 0 <= i < |ms| => Entry(ms[i]))
  }

  /** The annotation; none is needed for a single container restored under its own name. */
  function Format(ms: seq<Mapping>): Option<Text> {
    if |ms| == 1 && ms[0].source == ms[0].destination then None else
    Some(Join(Sort(Entries(ms), TextLe), COMMA))
  }

  // Reading.

  function ParseEntry(part: Text): Result<Mapping> {
    var pair := Split(part, EQUALS);
    if |pair| != 2 then Err(MalformedEntry) else Ok(Mapping(TrimSpace(pair[0]), TrimSpace(pair[1])))
  }

  function ParseEntries(parts: seq<Text>): (r: Result<seq<Mapping>>)
    ensures r.Ok? ==> |r.value| == |parts|
  {
    if parts == [] then Ok([]) else
    var front := ParseEntries(parts[..|parts| - 1]);
    if front.Err? then front else
    var last := ParseEntry(parts[|parts| - 1]);
    if last.Err? then Err(last.error) else Ok(front.value + [last.value])
  }

  function Parse(annotation: Option<Text>, captured: Text): Result<seq<Mapping>> {
    match annotation
    case None => Ok([Mapping(TrimSpace(captured), TrimSpace(captured))])
    case Some(raw) => ParseEntries(Split(TrimSpace(raw), COMMA))
  }

  lemma {:induction false} ParseErrorStays(parts: seq<Text>, n: nat)
    requires n <= |parts| && ParseEntries(parts[..n]).Err?
    ensures ParseEntries(parts) == ParseEntries(parts[..n])
    decreases |parts|
  {
    if n == |parts| {
      assert parts[..n] == parts;
    } else {
      assert parts[..|parts| - 1][..n] == parts[..n];
      ParseErrorStays(parts[..|parts| - 1], n);
    }
  }

  /** `ContainerMappingsFromAnnotations` appending pair by pair. */
  method ParseAll(annotation: Option<Text>, captured: Text) returns (r: Result<seq<Mapping>>)
    ensures r == Parse(annotation, captured)
  {
    if annotation.None? {
      var source := TrimSpace(captured);
      return Ok([Mapping(source, source)]);
    }
    var parts := Split(TrimSpace(annotation.value), COMMA);
    var mappings := [];
    for i := 0 to |parts|
      invariant ParseEntries(parts[..i]) == Ok(mappings)
    {
      assert parts[..i + 1][..i] == parts[..i];
      var pair := Split(parts[i], EQUALS);
      if |pair| != 2 {
        ParseErrorStays(parts, i + 1);
        return Err(MalformedEntry);
      }
      mappings := mappings + [Mapping(TrimSpace(pair[0]), TrimSpace(pair[1]))];
    }
    assert parts[..|parts|] == parts;
    return Ok(mappings);
  }

  /** `sameContainerMappings`: equally many, and each of the left among the right. */
  predicate Same(left: seq<Mapping>, right: seq<Mapping>) {
    |left| == |right| && forall i | 0 <= i < |left| :: left[i] in right
  }

  method SameMappings(left: seq<Mapping>, right: seq<Mapping>) returns (same: bool)
    ensures same == Same(left, right)
  {
    if |left| != |right| { return false; }
    var want := {};
    for i := 0 to |right|
      invariant want == set k | 0 <= k < i :: right[k]
    {
      want := want + {right[i]};
    }
    for i := 0 to |left|
      invariant forall k | 0 <= k < i :: left[k] in right
    {
      if left[i] !in want {
        assert left[i] !in right;
        return false;
      }
    }
    return true;
  }

  lemma MappingCounts(ms: seq<Mapping>, source: Text, m: Mapping)
    requires IsMapping(ms, source)
    ensures multiset(ms)[m] <= 1
  {
    assert forall i, j | 0 <= i < j < |ms| :: ms[i].destination != ms[j].destination && ms[i] != ms[j];
    DistinctCounts(ms, m);
  }

  /** Of valid lists, one counts as the other exactly if it is a rearrangement. */
  lemma SameIffRearranged(left: seq<Mapping>, right: seq<Mapping>, source: Text)
    requires IsMapping(left, source) && IsMapping(right, source)
    ensures Same(left, right) <==> multiset(left) == multiset(right)
  {
    if Same(left, right) {
      forall m ensures multiset(left)[m] <= multiset(right)[m] {
        MappingCounts(left, source, m);
        if m in left { assert m in multiset(right); } else { assert m !in multiset(left); }
      }
      assert multiset(left) <= multiset(right);
      assert |multiset(right) - multiset(left)| == 0;
      assert multiset(right) == multiset(left) + (multiset(right) - multiset(left));
    }
    if multiset(left) == multiset(right) {
      assert |multiset(left)| == |multiset(right)|;
      forall i | 0 <= i < |left| ensures left[i] in right {
        assert left[i] in multiset(left);
      }
    }
  }

  // Writing, then reading.

  lemma EntryRoundTrip(m: Mapping)
    requires IsLabel(m.source) && IsLabel(m.destination)
    ensures ParseEntry(Entry(m)) == Ok(m) && COMMA !in Entry(m)
  {
    LabelIsPlain(m.source);
    LabelIsPlain(m.destination);
    SplitFirst(m.source, m.destination, EQUALS);
    SplitWhole(m.destination, EQUALS);
  }

  /** Every part is the entry of a mapping, and parses to it. */
  lemma {:induction false} EntriesRoundTrip(parts: seq<Text>, ms: seq<Mapping>, source: Text)
    requires IsLabel(source) && IsMapping(ms, source)
    requires forall i | 0 <= i < |parts| :: parts[i] in Entries(ms)
    ensures var r := ParseEntries(parts);
            && r.Ok? && Entries(r.value) == parts
            && (forall i | 0 <= i < |parts| :: r.value[i] in ms && COMMA !in parts[i])
    decreases |parts|
  {
    if parts != [] {
      var front, last := parts[..|parts| - 1], parts[|parts| - 1];
      EntriesRoundTrip(front, ms, source);
      assert last in Entries(ms);
      var k :| 0 <= k < |ms| && Entry(ms[k]) == last;
      EntryRoundTrip(ms[k]);
      assert parts == front + [last];
    }
  }

  lemma EntriesAreDistinct(ms: seq<Mapping>, source: Text)
    requires IsMapping(ms, source)
    ensures forall i, j | 0 <= i < j < |ms| :: Entries(ms)[i] != Entries(ms)[j]
  {
    forall i, j | 0 <= i < j < |ms| ensures Entry(ms[i]) != Entry(ms[j]) {
      assert Entry(ms[i])[|source| + 1..] == ms[i].destination && Entry(ms[j])[|source| + 1..] == ms[j].destination;
    }
  }

  /** An annotation with at least one entry begins and ends with a letter or a digit. */
  lemma {:induction false} JoinedIsPlain(parts: seq<Text>)
    requires parts != []
    requires forall i | 0 <= i < |parts| ::
               parts[i] != [] && IsLowerAlphanumeric(parts[i][0]) && IsLowerAlphanumeric(parts[i][|parts[i]| - 1])
    ensures var s := Join(parts, COMMA); s != [] && IsLowerAlphanumeric(s[0]) && IsLowerAlphanumeric(s[|s| - 1])
    decreases |parts|
  {
    if |parts| > 1 { JoinedIsPlain(parts[1..]); }
  }

  lemma SortedEntries(ms: seq<Mapping>)
    ensures var parts := Sort(Entries(ms), TextLe);
            && |parts| == |ms| && multiset(parts) == multiset(Entries(ms))
            && (forall i | 0 <= i < |parts| :: parts[i] in Entries(ms))
  {
    var parts := Sort(Entries(ms), TextLe);
    SortKeeps(Entries(ms), TextLe);
    forall i | 0 <= i < |parts| ensures parts[i] in Entries(ms) {
      assert parts[i] in multiset(parts);
    }
  }

  lemma WrittenParts(ms: seq<Mapping>, source: Text)
    requires IsLabel(source) && IsMapping(ms, source) && ms != []
    ensures var parts := Sort(Entries(ms), TextLe); Split(TrimSpace(Join(parts, COMMA)), COMMA) == parts
  {
    var parts := Sort(Entries(ms), TextLe);
    SortedEntries(ms);
    EntriesRoundTrip(parts, ms, source);
    forall i | 0 <= i < |parts|
      ensures parts[i] != [] && IsLowerAlphanumeric(parts[i][0]) && IsLowerAlphanumeric(parts[i][|parts[i]| - 1])
    {
      var k :| 0 <= k < |ms| && Entry(ms[k]) == parts[i];
    }
    JoinedIsPlain(parts);
    TrimKeeps(Join(parts, COMMA));
    SplitJoin(parts, COMMA);
  }

  /** What is written parses back to the same pairs, and they are valid again. */
  lemma FormatRoundTrip(ms: seq<Mapping>, source: Text)
    requires IsLabel(source) && IsMapping(ms, source) && ms != []
    ensures var r := Parse(Format(ms), source);
            r.Ok? && Same(r.value, ms) && IsMapping(r.value, source) && r.value != []
  {
    LabelIsPlain(source);
    if Format(ms).Some? {
      var parts := Sort(Entries(ms), TextLe);
      WrittenParts(ms, source);
      SortedEntries(ms);
      EntriesRoundTrip(parts, ms, source);
      EntriesAreDistinct(ms, source);
      DistinctStays(Entries(ms), parts);
      var r := ParseEntries(parts).value;
      assert forall i | 0 <= i < |r| :: Entries(r)[i] == Entry(r[i]) == parts[i];
    }
  }

  lemma {:induction false} EntriesOfSame(a: seq<Mapping>, b: seq<Mapping>)
    requires multiset(a) == multiset(b)
    ensures multiset(Entries(a)) == multiset(Entries(b))
    decreases |a|
  {
    if a == [] {
      assert |multiset(b)| == 0;
    } else {
      assert a[0] in multiset(a) && a[0] in multiset(b);
      var k :| 0 <= k < |b| && b[k] == a[0];
      EntriesWithout(a, 0);
      EntriesWithout(b, k);
      EntriesOfSame(a[..0] + a[1..], b[..k] + b[k + 1..]);
    }
  }

  lemma EntriesWithout(b: seq<Mapping>, k: nat)
    requires k < |b|
    ensures multiset(b[..k] + b[k + 1..]) == multiset(b) - multiset{b[k]}
    ensures multiset(Entries(b)) == multiset(Entries(b[..k] + b[k + 1..])) + multiset{Entry(b[k])}
  {
    assert b == b[..k] + [b[k]] + b[k + 1..];
    assert Entries(b) == Entries(b[..k]) + [Entry(b[k])] + Entries(b[k + 1..]);
    assert Entries(b[..k] + b[k + 1..]) == Entries(b[..k]) + Entries(b[k + 1..]);
  }

  /** The annotation does not depend on the order in which the pairs are given. */
  lemma FormatIsCanonical(a: seq<Mapping>, b: seq<Mapping>)
    requires multiset(a) == multiset(b)
    ensures Format(a) == Format(b)
  {
    assert |multiset(a)| == |multiset(b)|;
    if |a| == 1 { assert b[0] in multiset(a); }
    EntriesOfSame(a, b);
    TextLeIsOrder();
    SortKeeps(Entries(a), TextLe);
    SortKeeps(Entries(b), TextLe);
    SortSorts(Entries(a), TextLe);
    SortSorts(Entries(b), TextLe);
    SortedIsUnique(Sort(Entries(a), TextLe), Sort(Entries(b), TextLe), TextLe);
  }
}
