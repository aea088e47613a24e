/**
 Strings as Go has them: sequences of bytes, read as UTF-8 where runes matter.
 */
module Texts {
  import opened Sorting
  import opened Splitting

  type Byte = b: int | 0 <= b < 256

  type Text = seq<Byte>

  datatype Option<+T> = None | Some(value: T)

  function Ascii(s: string): (r: Text)
    requires forall i | 0 <= i < |s| :: s[i] < '\U{80}'
    ensures |r| == |s| && forall i | 0 <= i < |s| :: r[i] == s[i] as int
  {
    seq(|s|, i requires 0 <= i < |s| => s[i] as int)
  }

  /** How many bytes the rune at the front takes; none if it is ill-formed. */
  function RuneWidth(s: Text): (w: nat)
    ensures w <= |s|
  {
    if s == [] then 0 else
    if s[0] < 0x80 then 1 else
    if 0xC2 <= s[0] <= 0xDF then if Continues(s, 1, 2, 0x80, 0xBF) then 2 else 0 else
    if s[0] == 0xE0 then if Continues(s, 1, 3, 0xA0, 0xBF) then 3 else 0 else
    if s[0] == 0xED then if Continues(s, 1, 3, 0x80, 0x9F) then 3 else 0 else
    if 0xE1 <= s[0] <= 0xEF then if Continues(s, 1, 3, 0x80, 0xBF) then 3 else 0 else
    if s[0] == 0xF0 then if Continues(s, 1, 4, 0x90, 0xBF) then 4 else 0 else
    if 0xF1 <= s[0] <= 0xF3 then if Continues(s, 1, 4, 0x80, 0xBF) then 4 else 0 else
    if s[0] == 0xF4 then if Continues(s, 1, 4, 0x80, 0x8F) then 4 else 0 else 0
  }

  /** Continuation bytes from `i` up to `n`; the first of them lies between `low` and `high`. */
  predicate Continues(s: Text, i: nat, n: nat, low: int, high: int)
    decreases n - i
  {
    i < n ==> i < |s| && low <= s[i] <= high && Continues(s, i + 1, n, 0x80, 0xBF)
  }

  function Rune(s: Text): nat {
    match RuneWidth(s)
    case 1 => s[0]
    case 2 => Low(s[0], 0x20) * 0x40 + Low(s[1], 0x40)
    case 3 => Low(s[0], 0x10) * 0x1000 + Low(s[1], 0x40) * 0x40 + Low(s[2], 0x40)
    case 4 => Low(s[0], 8) * 0x4_0000 + Low(s[1], 0x40) * 0x1000 + Low(s[2], 0x40) * 0x40 + Low(s[3], 0x40)
    case _ => 0xFFFD
  }

  function Low(b: int, n: nat): nat
    requires n > 0
  {
    b % n
  }

  function Runes(s: Text): Option<seq<nat>> {
    if s == [] then Some([]) else
    if RuneWidth(s) == 0 then None else
    var rest := Runes(s[RuneWidth(s)..]);
    if rest.None? then None else Some([Rune(s)] + rest.value)
  }

  predicate IsSpace(r: nat) {
    9 <= r <= 13 || r in {0x20, 0x85, 0xA0, 0x1680, 0x2028, 0x2029, 0x202F, 0x205F, 0x3000} || 0x2000 <= r <= 0x200A
  }

  predicate IsControl(r: nat) {
    r < 0x20 || 0x7F <= r < 0xA0
  }

  predicate IsLowerAlphanumeric(b: Byte) {
    97 <= b <= 122 || 48 <= b <= 57
  }

  /** The shape of one RFC 1123 label. */
  predicate IsLabelShape(s: Text) {
    && s != [] && IsLowerAlphanumeric(s[0]) && IsLowerAlphanumeric(s[|s| - 1])
    && forall i | 0 <= i < |s| :: IsLowerAlphanumeric(s[i]) || s[i] == 45
  }

  predicate IsLabel(s: Text) {
    IsLabelShape(s) && |s| <= 63
  }

  predicate IsSubdomain(s: Text) {
    |s| <= 253 && forall i | 0 <= i < |Split(s, 46)| :: IsLabelShape(Split(s, 46)[i])
  }

  // `strings.TrimSpace`.

  function TrimLeft(s: Text): Text {
    if RuneWidth(s) > 0 && IsSpace(Rune(s)) then TrimLeft(s[RuneWidth(s)..]) else s
  }

  /** The last `width` bytes are one space. */
  predicate EndsInSpace(s: Text, width: nat) {
    && 0 < width <= |s|
    && RuneWidth(s[|s| - width..]) == width && IsSpace(Rune(s[|s| - width..]))
  }

  function TrimRight(s: Text): Text {
    if EndsInSpace(s, 1) then TrimRight(s[..|s| - 1]) else
    if EndsInSpace(s, 2) then TrimRight(s[..|s| - 2]) else
    if EndsInSpace(s, 3) then TrimRight(s[..|s| - 3]) else s
  }

  function TrimSpace(s: Text): Text {
    TrimRight(TrimLeft(s))
  }

  lemma {:induction false} ContinuesBeyond(s: Text, k: nat, i: nat, n: nat, low: int, high: int)
    requires k <= |s| && Continues(s[..k], i, n, low, high)
    ensures Continues(s, i, n, low, high)
    decreases n - i
  {
    if i < n { ContinuesBeyond(s, k, i + 1, n, 0x80, 0xBF); }
  }

  /** A rune at the front is the same rune however the text goes on. */
  lemma RuneBeyond(s: Text, k: nat)
    requires k <= |s| && RuneWidth(s[..k]) > 0
    ensures RuneWidth(s) == RuneWidth(s[..k]) && Rune(s) == Rune(s[..k])
  {
    var w := RuneWidth(s[..k]);
    if w > 1 {
      ContinuesBeyond(s, k, 1, w, if s[0] == 0xE0 then 0xA0 else if s[0] == 0xF0 then 0x90 else 0x80,
                      if s[0] == 0xED then 0x9F else if s[0] == 0xF4 then 0x8F else 0xBF);
    }
  }

  lemma {:induction false} TrimLeftStops(s: Text)
    ensures var t := TrimLeft(s); RuneWidth(t) == 0 || !IsSpace(Rune(t))
    decreases |s|
  {
    if RuneWidth(s) > 0 && IsSpace(Rune(s)) { TrimLeftStops(s[RuneWidth(s)..]); }
  }

  lemma {:induction false} TrimRightStops(s: Text)
    ensures var r := TrimRight(s); TrimRight(r) == r && |r| <= |s| && s[..|r|] == r
    decreases |s|
  {
    if EndsInSpace(s, 1) {
      TrimRightStops(s[..|s| - 1]);
    } else if EndsInSpace(s, 2) {
      TrimRightStops(s[..|s| - 2]);
    } else if EndsInSpace(s, 3) {
      TrimRightStops(s[..|s| - 3]);
    }
  }

  lemma TrimIsIdempotent(s: Text)
    ensures TrimSpace(TrimSpace(s)) == TrimSpace(s)
  {
    var t, r := TrimLeft(s), TrimSpace(s);
    TrimLeftStops(s);
    TrimRightStops(t);
    if RuneWidth(r) > 0 { RuneBeyond(t, |r|); }
    assert TrimLeft(r) == r;
  }

  /** Text that begins and ends with a letter or a digit is not trimmed. */
  lemma TrimKeeps(s: Text)
    requires s != [] && IsLowerAlphanumeric(s[0]) && IsLowerAlphanumeric(s[|s| - 1])
    ensures TrimSpace(s) == s
  {
    StartsWithLetter(s);
    NoSpaceAfterLetter(s, 1);
    NoSpaceAfterLetter(s, 2);
    NoSpaceAfterLetter(s, 3);
  }

  lemma StartsWithLetter(s: Text)
    requires s != [] && IsLowerAlphanumeric(s[0])
    ensures RuneWidth(s) == 1 && !IsSpace(Rune(s))
  {
  }

  lemma NoSpaceAfterLetter(s: Text, width: nat)
    requires s != [] && IsLowerAlphanumeric(s[|s| - 1])
    ensures !EndsInSpace(s, width)
  {
    if 0 < width <= |s| {
      if width == 1 { StartsWithLetter(s[|s| - 1..]); } else { LastByteStandsAlone(s[|s| - width..]); }
    }
  }

  /** A rune of more than one byte does not end in a byte below 0x80. */
  lemma LastByteStandsAlone(s: Text)
    requires |s| >= 2 && s[|s| - 1] < 0x80
    ensures RuneWidth(s) != |s|
  {
    if RuneWidth(s) == |s| {
      ContinuesUpTo(s, 1, |s|, if s[0] == 0xE0 then 0xA0 else if s[0] == 0xF0 then 0x90 else 0x80,
                    if s[0] == 0xED then 0x9F else if s[0] == 0xF4 then 0x8F else 0xBF);
    }
  }

  lemma {:induction false} ContinuesUpTo(s: Text, i: nat, n: nat, low: int, high: int)
    requires i < n <= |s| && low >= 0x80 && Continues(s, i, n, low, high)
    ensures s[n - 1] >= 0x80
    decreases n - i
  {
    if i + 1 < n { ContinuesUpTo(s, i + 1, n, 0x80, 0xBF); }
  }

  /** A label is not trimmed and holds none of the characters that structure an annotation. */
  lemma LabelIsPlain(s: Text)
    requires IsLabel(s)
    ensures TrimSpace(s) == s && 44 !in s && 61 !in s
  {
    TrimKeeps(s);
  }

  lemma SubdomainIsPlain(s: Text)
    requires IsSubdomain(s)
    ensures s != [] && TrimSpace(s) == s
  {
    var parts := Split(s, 46);
    SplitEnds(s, 46);
    assert IsLabelShape(parts[0]) && IsLabelShape(parts[|parts| - 1]);
    TrimKeeps(s);
  }

  /** A text whose first and last parts are not empty begins and ends as they do. */
  lemma {:induction false} SplitEnds(s: Text, separator: Byte)
    ensures var parts := Split(s, separator);
            && (parts[0] != [] ==> s != [] && s[0] == parts[0][0])
            && var last := parts[|parts| - 1]; (last != [] ==> s != [] && s[|s| - 1] == last[|last| - 1])
    decreases |s|
  {
    if s != [] { SplitEnds(s[1..], separator); }
  }

  // The order of `sort.Strings`.

  predicate TextLe(a: Text, b: Text) {
    LexLe(a, b)
  }

  lemma TextLeIsOrder()
    ensures IsOrder(TextLe) && forall a, b | TextLe(a, b) && TextLe(b, a) :: a == b
  {
    forall a: Text, b: Text ensures TextLe(a, b) || TextLe(b, a) { LexLeIsTotal(a, b); }
    forall a: Text, b: Text, c: Text | TextLe(a, b) && TextLe(b, c) ensures TextLe(a, c) { LexLeIsTransitive(a, b, c); }
    forall a: Text, b: Text | TextLe(a, b) && TextLe(b, a) ensures a == b { LexLeIsAntisymmetric(a, b); }
  }
}
