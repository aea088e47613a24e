/** The file that tells a workload its restore is complete: key=value lines, one of which names the PID. */
module RestoreMarker {
  import opened Splitting
  import opened Texts

  datatype Error = NoSeparator | DuplicatePid | InvalidPid | NoPid

  datatype Result<+T> = Ok(value: T) | Err(error: Error)

  const NEWLINE: Byte := 10
  const EQUALS: Byte := 61
  const MINUS: Byte := 45
  const PLUS: Byte := 43
  const PID_KEY: Text := Ascii("pid")

  /** Go's `int` on the platforms the agent runs on. */
  const INT_LIMIT: int := 0x8000_0000_0000_0000

  // Decimal numbers.

  function Digits(n: nat): (r: Text)
    ensures r != []
  {
    if n < 10 then [48 + n] else Digits(n / 10) + [48 + n % 10]
  }

  predicate IsDigits(s: Text) {
    s != [] && forall i | 0 <= i < |s| :: 48 <= s[i] <= 57
  }

  function DigitsValue(s: Text): nat
    requires forall i | 0 <= i < |s| :: 48 <= s[i] <= 57
  {
    if s == [] then 0 else DigitsValue(s[..|s| - 1]) * 10 + (s[|s| - 1] as int - 48)
  }

  function Itoa(n: int): Text {
    if n < 0 then [MINUS] + Digits(-n) else Digits(n)
  }

  function Atoi(s: Text): Option<int> {
    var (negative, digits) := Unsigned(s);
    if !IsDigits(digits) then None else
    var value: int := DigitsValue(digits);
    if value > INT_LIMIT || (!negative && value == INT_LIMIT) then None else
    Some(if negative then -value else value)
  }

  lemma {:induction false} DigitsRoundTrip(n: nat)
    ensures IsDigits(Digits(n)) && DigitsValue(Digits(n)) == n
  {
    if n < 10 {
      assert Digits(n)[..0] == [];
    } else {
      DigitsRoundTrip(n / 10);
      assert Digits(n)[..|Digits(n)| - 1] == Digits(n / 10);
    }
  }

  /** The sign, if any, and the rest. */
  function Unsigned(s: Text): (bool, Text) {
    if s != [] && s[0] == MINUS then (true, s[1..]) else
    if s != [] && s[0] == PLUS then (false, s[1..]) else (false, s)
  }

  lemma UnsignedItoa(n: int)
    ensures Unsigned(Itoa(n)) == (n < 0, Digits(if n < 0 then -n else n))
  {
    if n < 0 {
      assert Itoa(n)[1..] == Digits(-n);
    } else {
      DigitsRoundTrip(n);
      assert 48 <= Itoa(n)[0] <= 57;
    }
  }

  lemma AtoiRoundTrip(n: int)
    requires -INT_LIMIT <= n < INT_LIMIT
    ensures Atoi(Itoa(n)) == Some(n)
  {
    UnsignedItoa(n);
    DigitsRoundTrip(if n < 0 then -n else n);
  }

  // Lines.

  /** Where the first separator is. */
  function Cut(s: Text, separator: Byte): (r: Option<nat>)
    ensures r.Some? ==> r.value < |s| && s[r.value] == separator && separator !in s[..r.value]
    ensures r.None? ==> separator !in s
  {
    if s == [] then None else
    if s[0] == separator then Some(0) else
    var rest := Cut(s[1..], separator);
    assert s == [s[0]] + s[1..];
    if rest.None? then None else
    assert s[..rest.value + 1] == [s[0]] + s[1..][..rest.value];
    Some(rest.value + 1)
  }

  /** What one line makes of the PID read so far; none is 0. */
  function ParseLine(pid: nat, raw: Text): Result<nat> {
    var line := TrimSpace(raw);
    if line == [] then Ok(pid) else
    var at := Cut(line, EQUALS);
    if at.None? then Err(NoSeparator) else
    if line[..at.value] != PID_KEY then Ok(pid) else
    if pid != 0 then Err(DuplicatePid) else
    var value := Atoi(line[at.value + 1..]);
    if value.None? || value.value <= 0 then Err(InvalidPid) else Ok(value.value)
  }

  type LineParser = (nat, Text) -> Result<nat>

  /** Line after line until one fails. */
  function Folded(lines: seq<Text>, step: LineParser): Result<nat> {
    if lines == [] then Ok(0) else
    var front := Folded(lines[..|lines| - 1], step);
    if front.Err? then front else step(front.value, lines[|lines| - 1])
  }

  function Parse(data: Text): Result<nat> {
    var pid := Folded(Split(data, NEWLINE), ParseLine);
    if pid.Ok? && pid.value == 0 then Err(NoPid) else pid
  }

  function Format(pid: int): Text {
    PID_KEY + [EQUALS] + Itoa(pid) + [NEWLINE]
  }

  lemma {:induction false} ErrorStays(lines: seq<Text>, step: LineParser, n: nat)
    requires n <= |lines| && Folded(lines[..n], step).Err?
    ensures Folded(lines, step) == Folded(lines[..n], step)
    decreases |lines|
  {
    if n == |lines| {
      assert lines[..n] == lines;
    } else {
      assert lines[..|lines| - 1][..n] == lines[..n];
      ErrorStays(lines[..|lines| - 1], step, n);
    }
  }

  method Fold(lines: seq<Text>, step: LineParser) returns (r: Result<nat>)
    ensures r == Folded(lines, step)
  {
    var pid := 0;
    for i := 0 to |lines|
      invariant Folded(lines[..i], step) == Ok(pid)
    {
      assert lines[..i + 1][..i] == lines[..i];
      var line := step(pid, lines[i]);
      if line.Err? {
        ErrorStays(lines, step, i + 1);
        return line;
      }
      pid := line.value;
    }
    assert lines[..|lines|] == lines;
    return Ok(pid);
  }

  /** `ParseRestoreComplete` line by line. */
  method ParseMarker(data: Text) returns (r: Result<nat>)
    ensures r == Parse(data)
  {
    r := Fold(Split(data, NEWLINE), ParseLine);
    if r.Ok? && r.value == 0 { return Err(NoPid); }
  }

  // What readers rely on.

  lemma {:induction false} CutFirst(key: Text, separator: Byte, value: Text)
    requires separator !in key
    ensures Cut(key + [separator] + value, separator) == Some(|key|)
    decreases |key|
  {
    if key != [] {
      CutFirst(key[1..], separator, value);
      assert (key + [separator] + value)[1..] == key[1..] + [separator] + value;
    }
  }

  lemma ItoaIsPlain(n: int)
    ensures var s := Itoa(n); s != [] && IsLowerAlphanumeric(s[|s| - 1]) && NEWLINE !in s
  {
    if n < 0 { DigitsRoundTrip(-n); } else { DigitsRoundTrip(n); }
  }

  lemma FormattedLine(pid: int)
    ensures var line := PID_KEY + [EQUALS] + Itoa(pid);
            && TrimSpace(line) == line && NEWLINE !in line && Cut(line, EQUALS) == Some(3)
            && line[..3] == PID_KEY && line[4..] == Itoa(pid)
  {
    var line := PID_KEY + [EQUALS] + Itoa(pid);
    ItoaIsPlain(pid);
    KeyIsPlain();
    CutFirst(PID_KEY, EQUALS, Itoa(pid));
    assert line[0] == PID_KEY[0] && line[|line| - 1] == Itoa(pid)[|Itoa(pid)| - 1];
    TrimKeeps(line);
  }

  lemma KeyIsPlain()
    ensures |PID_KEY| == 3 && IsLowerAlphanumeric(PID_KEY[0]) && NEWLINE !in PID_KEY && EQUALS !in PID_KEY
  {
    assert PID_KEY == [112, 105, 100];
  }

  /** What is written is read back, exactly if it names a process. */
  lemma FormatRoundTrip(pid: int)
    requires -INT_LIMIT <= pid < INT_LIMIT
    ensures Parse(Format(pid)) == if pid > 0 then Ok(pid) else Err(InvalidPid)
  {
    var line := PID_KEY + [EQUALS] + Itoa(pid);
    FormattedLine(pid);
    AtoiRoundTrip(pid);
    assert Format(pid) == line + [NEWLINE] + [];
    SplitFirst(line, [], NEWLINE);
    var lines := Split(Format(pid), NEWLINE);
    assert lines == [line, []] && lines[..1] == [line];
    assert [line][..0] == lines[..0];
    assert Folded([line], ParseLine) == ParseLine(0, line);
    assert TrimSpace([]) == [];
  }

  /** A blank line or a line with another key. */
  predicate IsForeign(raw: Text) {
    var line := TrimSpace(raw);
    line == [] || exists k | 0 <= k < |line| :: line[k] == EQUALS && EQUALS !in line[..k] && line[..k] != PID_KEY
  }

  lemma ForeignLine(pid: nat, raw: Text)
    requires IsForeign(raw)
    ensures ParseLine(pid, raw) == Ok(pid)
  {
    var line := TrimSpace(raw);
    if line != [] {
      var k :| 0 <= k < |line| && line[k] == EQUALS && EQUALS !in line[..k] && line[..k] != PID_KEY;
      assert line == line[..k] + [EQUALS] + line[k + 1..];
      CutFirst(line[..k], EQUALS, line[k + 1..]);
    }
  }

  lemma {:induction false} IgnoredLine(before: seq<Text>, raw: Text, after: seq<Text>, step: LineParser)
    requires forall pid: nat :: step(pid, raw) == Ok(pid)
    ensures Folded(before + [raw] + after, step) == Folded(before + after, step)
    decreases |after|
  {
    var lines := before + [raw] + after;
    if after == [] {
      assert lines[..|lines| - 1] == before && before + after == before;
    } else {
      var front := after[..|after| - 1];
      IgnoredLine(before, raw, front, step);
      assert lines[..|lines| - 1] == before + [raw] + front;
      assert (before + after)[..|before + after| - 1] == before + front;
    }
  }

  /** A text that is empty or ends a line. */
  predicate EndsLine(s: Text) {
    s == [] || s[|s| - 1] == NEWLINE
  }

  lemma ForeignLineIsSkipped(before: seq<Text>, raw: Text, after: seq<Text>)
    requires IsForeign(raw)
    ensures Folded(before + [raw] + after, ParseLine) == Folded(before + after, ParseLine)
  {
    forall pid: nat ensures ParseLine(pid, raw) == Ok(pid) { ForeignLine(pid, raw); }
    IgnoredLine(before, raw, after, ParseLine);
  }

  /** A line with a key that a reader does not know can be put between any two lines of a marker. */
  lemma ForeignLinesAreIgnored(before: Text, raw: Text, after: Text)
    requires EndsLine(before) && NEWLINE !in raw && IsForeign(raw)
    ensures Parse(before + (raw + ([NEWLINE] + after))) == Parse(before + after)
  {
    var head := SplitInserted(before, raw, after, NEWLINE);
    ForeignLineIsSkipped(head, raw, Split(after, NEWLINE));
    assert head + [raw] + Split(after, NEWLINE) == head + ([raw] + Split(after, NEWLINE));
  }

  // Which texts are markers.

  /** A line that names this process, in its own words. */
  predicate NamesPid(raw: Text, pid: int) {
    var line := TrimSpace(raw);
    |line| > 3 && line[..3] == PID_KEY && line[3] == EQUALS && pid > 0 && Atoi(line[4..]) == Some(pid)
  }

  lemma KeyedLine(line: Text)
    requires |line| > 3 && line[..3] == PID_KEY && line[3] == EQUALS
    ensures Cut(line, EQUALS) == Some(3)
  {
    KeyIsPlain();
    CutFirst(PID_KEY, EQUALS, line[4..]);
    assert line == PID_KEY + [EQUALS] + line[4..];
  }

  /** What a line does: nothing if it is foreign; the first to name a process sets it; anything else is refused. */
  lemma LineMeaning(pid: nat, raw: Text, after: nat)
    ensures ParseLine(pid, raw) == Ok(after) <==> (IsForeign(raw) && after == pid) || (pid == 0 && NamesPid(raw, after))
    ensures !(IsForeign(raw) && NamesPid(raw, after))
  {
    var line := TrimSpace(raw);
    KeyIsPlain();
    if IsForeign(raw) { ForeignLine(pid, raw); }
    if |line| > 3 && line[..3] == PID_KEY && line[3] == EQUALS { KeyedLine(line); }
    if line != [] {
      var at := Cut(line, EQUALS);
      if at.Some? && line[..at.value] == PID_KEY { assert at.value == 3; }
    }
  }

  type LineTest = Text -> bool

  type PidTest = (Text, nat) -> bool

  predicate StepsAt(step: LineParser, foreign: LineTest, names: PidTest, pid: nat, raw: Text, after: nat) {
    && (step(pid, raw) == Ok(after) <==> (foreign(raw) && after == pid) || (pid == 0 && names(raw, after)))
    && !(foreign(raw) && names(raw, after)) && (names(raw, after) ==> after > 0)
  }

  ghost predicate StepsBy(step: LineParser, foreign: LineTest, names: PidTest) {
    forall pid: nat, raw: Text, after: nat :: StepsAt(step, foreign, names, pid, raw, after)
  }

  predicate AllForeign(lines: seq<Text>, foreign: LineTest) {
    forall i | 0 <= i < |lines| :: foreign(lines[i])
  }

  predicate OneNames(lines: seq<Text>, foreign: LineTest, names: PidTest, pid: nat) {
    exists k | 0 <= k < |lines| :: names(lines[k], pid) && forall j | 0 <= j < |lines| && j != k :: foreign(lines[j])
  }

  lemma OneNamesGrows(front: seq<Text>, last: Text, foreign: LineTest, names: PidTest, pid: nat)
    requires !(foreign(last) && names(last, pid))
    ensures AllForeign(front + [last], foreign) <==> AllForeign(front, foreign) && foreign(last)
    ensures OneNames(front + [last], foreign, names, pid) <==>
            (OneNames(front, foreign, names, pid) && foreign(last)) || (AllForeign(front, foreign) && names(last, pid))
  {
    var lines := front + [last];
    assert lines[|front|] == last && forall i | 0 <= i < |front| :: lines[i] == front[i];
    if k :| 0 <= k < |front| && names(front[k], pid) && forall j | 0 <= j < |front| && j != k :: foreign(front[j]) {
      if foreign(last) { assert names(lines[k], pid); }
    }
    if AllForeign(front, foreign) && names(last, pid) { assert names(lines[|front|], pid); }
    if k :| 0 <= k < |lines| && names(lines[k], pid) && forall j | 0 <= j < |lines| && j != k :: foreign(lines[j]) {
      if k < |front| { assert names(front[k], pid) && foreign(lines[|front|]); }
    }
  }

  lemma {:induction false} FoldedMeaning(lines: seq<Text>, step: LineParser, foreign: LineTest, names: PidTest, pid: nat)
    requires StepsBy(step, foreign, names)
    ensures Folded(lines, step) == Ok(0) <==> AllForeign(lines, foreign)
    ensures pid > 0 ==> (Folded(lines, step) == Ok(pid) <==> OneNames(lines, foreign, names, pid))
    decreases |lines|
  {
    if lines != [] {
      var front, last := lines[..|lines| - 1], lines[|lines| - 1];
      assert lines == front + [last];
      FoldedMeaning(front, step, foreign, names, pid);
      assert StepsAt(step, foreign, names, 0, last, pid);
      OneNamesGrows(front, last, foreign, names, pid);
      var r := Folded(front, step);
      if r.Ok? { assert StepsAt(step, foreign, names, r.value, last, 0) && StepsAt(step, foreign, names, r.value, last, pid); }
    }
  }

  /**
   A text is a marker of a process exactly if one of its lines names that process and every other line
   is foreign: a second such line, or one that is not a pair, is refused.
   */
  lemma ParseMeaning(data: Text, pid: nat)
    ensures Parse(data) == Ok(pid) <==>
            exists k | 0 <= k < |Split(data, NEWLINE)| ::
              && NamesPid(Split(data, NEWLINE)[k], pid)
              && forall j | 0 <= j < |Split(data, NEWLINE)| && j != k :: IsForeign(Split(data, NEWLINE)[j])
  {
    var lines := Split(data, NEWLINE);
    var names: PidTest := (raw: Text, p: nat) => NamesPid(raw, p);
    forall p: nat, raw, after: nat ensures StepsAt(ParseLine, IsForeign, names, p, raw, after) {
      LineMeaning(p, raw, after);
    }
    FoldedMeaning(lines, ParseLine, IsForeign, names, pid);
    assert OneNames(lines, IsForeign, names, pid) <==>
           exists k | 0 <= k < |lines| :: NamesPid(lines[k], pid) && forall j | 0 <= j < |lines| && j != k :: IsForeign(lines[j]);
  }
}
