/** Splitting a sequence at a separator, and joining the parts again. */
module Splitting {
  function Split<T(==)>(s: seq<T>, separator: T): (r: seq<seq<T>>)
    ensures r != []
  {
    if s == [] then [[]] else
    var rest := Split(s[1..], separator);
    if s[0] == separator then [[]] + rest else [[s[0]] + rest[0]] + rest[1..]
  }

  function Join<T>(parts: seq<seq<T>>, separator: T): seq<T> {
    if parts == [] then [] else
    if |parts| == 1 then parts[0] else
    parts[0] + [separator] + Join(parts[1..], separator)
  }

  lemma {:induction false} SplitWhole<T>(part: seq<T>, separator: T)
    requires separator !in part
    ensures Split(part, separator) == [part]
    decreases |part|
  {
    if part != [] {
      SplitWhole(part[1..], separator);
      assert part == [part[0]] + part[1..];
    }
  }

  lemma {:induction false} SplitFirst<T>(part: seq<T>, rest: seq<T>, separator: T)
    requires separator !in part
    ensures Split(part + [separator] + rest, separator) == [part] + Split(rest, separator)
    decreases |part|
  {
    var s := part + [separator] + rest;
    if part == [] {
      assert s[1..] == rest;
    } else {
      SplitFirst(part[1..], rest, separator);
      assert s[1..] == part[1..] + [separator] + rest;
      assert part == [part[0]] + part[1..];
    }
  }

  lemma {:induction false} SplitHasNoSeparator<T>(s: seq<T>, separator: T)
    ensures forall i | 0 <= i < |Split(s, separator)| :: separator !in Split(s, separator)[i]
    decreases |s|
  {
    if s != [] { SplitHasNoSeparator(s[1..], separator); }
  }

  /** Parts without the separator survive joining and splitting. */
  lemma {:induction false} SplitJoin<T>(parts: seq<seq<T>>, separator: T)
    requires parts != [] && forall i | 0 <= i < |parts| :: separator !in parts[i]
    ensures Split(Join(parts, separator), separator) == parts
    decreases |parts|
  {
    if |parts| == 1 {
      SplitWhole(parts[0], separator);
    } else {
      SplitJoin(parts[1..], separator);
      SplitFirst(parts[0], Join(parts[1..], separator), separator);
      assert parts == [parts[0]] + parts[1..];
    }
  }

  /** The parts when one more element comes first. */
  function Preceded<T(==)>(x: T, parts: seq<seq<T>>, separator: T): seq<seq<T>>
    requires parts != []
  {
    if x == separator then [[]] + parts else [[x] + parts[0]] + parts[1..]
  }

  lemma SplitStep<T>(x: T, s: seq<T>, separator: T)
    ensures Split([x] + s, separator) == Preceded(x, Split(s, separator), separator)
  {
    assert ([x] + s)[1..] == s;
  }

  lemma PrecededFirst<T>(x: T, parts: seq<seq<T>>, more: seq<seq<T>>, separator: T)
    requires parts != []
    ensures Preceded(x, parts + more, separator) == Preceded(x, parts, separator) + more
  {
  }

  /** What stands on either side of a separator is split on its own. */
  lemma {:induction false} SplitAt<T>(before: seq<T>, rest: seq<T>, separator: T)
    ensures Split(before + ([separator] + rest), separator) == Split(before, separator) + Split(rest, separator)
    decreases |before|
  {
    if before == [] {
      assert before + ([separator] + rest) == [separator] + rest;
      SplitStep(separator, rest, separator);
    } else {
      var x, tail := before[0], before[1..];
      SplitAt(tail, rest, separator);
      SplitStep(x, tail, separator);
      SplitStep(x, tail + ([separator] + rest), separator);
      PrecededFirst(x, Split(tail, separator), Split(rest, separator), separator);
      assert before == [x] + tail && before + ([separator] + rest) == [x] + (tail + ([separator] + rest));
    }
  }

  /** A part put in behind a separator, or at the very front, is one part more at one place. */
  lemma SplitInserted<T>(before: seq<T>, part: seq<T>, after: seq<T>, separator: T) returns (head: seq<seq<T>>)
    requires (before == [] || before[|before| - 1] == separator) && separator !in part
    ensures Split(before + (part + ([separator] + after)), separator) == head + ([part] + Split(after, separator))
    ensures Split(before + after, separator) == head + Split(after, separator)
  {
    SplitAt(part, after, separator);
    SplitWhole(part, separator);
    if before == [] {
      head := [];
      assert before + (part + ([separator] + after)) == part + ([separator] + after) && before + after == after;
    } else {
      head := InsertedLater(before, part + ([separator] + after), after, separator);
    }
  }

  lemma InsertedLater<T>(before: seq<T>, one: seq<T>, other: seq<T>, separator: T) returns (head: seq<seq<T>>)
    requires before != [] && before[|before| - 1] == separator
    ensures Split(before + one, separator) == head + Split(one, separator)
    ensures Split(before + other, separator) == head + Split(other, separator)
  {
    var front := before[..|before| - 1];
    head := Split(front, separator);
    SplitAt(front, one, separator);
    SplitAt(front, other, separator);
    assert before + one == front + ([separator] + one) && before + other == front + ([separator] + other);
  }
}
