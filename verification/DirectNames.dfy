/**
 The directory beside a published path in which a direct checkpoint is captured:
 the path, a marker and the transaction's ID in one string. The transaction
 model names such a directory by the pair; this module says when the string does.
 */
module DirectNames {
  const MARKER: string := ".pagebroker-tx-"

  function DirectDirectory(published: string, id: string): string {
    published + MARKER + id
  }

  /** The IDs that requests may carry: one path component. */
  predicate SafeId(id: string) {
    id != "" && id != "." && id != ".." && '/' !in id && '\\' !in id && '\0' !in id
  }

  /** The marker occurs again at `k`, and what follows it could be an ID. */
  predicate MarkerAt(id: string, k: nat) {
    0 < k <= |id| && (MARKER + id)[k..k + |MARKER|] == MARKER && SafeId((MARKER + id)[k + |MARKER|..])
  }

  /** The ID ends in a marker and another ID. */
  predicate HidesMarker(id: string) {
    exists k | 0 < k <= |id| :: MarkerAt(id, k)
  }

  lemma LongerPath(p: string, a: string, q: string, b: string)
    requires DirectDirectory(p, a) == DirectDirectory(q, b) && |p| < |q| && SafeId(b)
    ensures HidesMarker(a)
  {
    var k := |q| - |p|;
    Overlap(p, MARKER, a, q, b);
    assert MarkerAt(a, k);
  }

  lemma Overlap(p: string, m: string, a: string, q: string, b: string)
    requires p + m + a == q + m + b && |p| < |q|
    ensures var k := |q| - |p|; k <= |a| && (m + a)[k..k + |m|] == m && (m + a)[k + |m|..] == b
  {
    var s, t := p + m + a, q + m + b;
    var k := |q| - |p|;
    assert s[|p|..] == m + a;
    assert t[|q|..|q| + |m|] == m && t[|q| + |m|..] == b;
    assert (m + a)[k..k + |m|] == s[|q|..|q| + |m|] && (m + a)[k + |m|..] == s[|q| + |m|..];
  }

  /** Directories of IDs that hide no marker are as distinct as their paths and IDs. */
  lemma NamesAreDistinct(p: string, a: string, q: string, b: string)
    requires SafeId(a) && SafeId(b) && !HidesMarker(a) && !HidesMarker(b)
    ensures DirectDirectory(p, a) == DirectDirectory(q, b) <==> p == q && a == b
  {
    var s, t := DirectDirectory(p, a), DirectDirectory(q, b);
    if s == t {
      if |p| < |q| { LongerPath(p, a, q, b); }
      if |q| < |p| { LongerPath(q, b, p, a); }
      assert p == s[..|p|] && q == t[..|q|];
      assert a == s[|p| + |MARKER|..] && b == t[|q| + |MARKER|..];
    }
  }

  /** Every other ID shares its directory with a longer path and an ID that requests may carry, whatever the published path. */
  lemma HiddenMarkersCollide(p: string, a: string) returns (q: string, b: string)
    requires SafeId(a) && HidesMarker(a)
    ensures SafeId(b) && |q| > |p| && DirectDirectory(q, b) == DirectDirectory(p, a)
  {
    var k :| 0 < k <= |a| && MarkerAt(a, k);
    q, b := p + (MARKER + a)[..k], (MARKER + a)[k + |MARKER|..];
    Regrouped(p, MARKER, a, k);
  }

  lemma Regrouped(p: string, m: string, a: string, k: nat)
    requires 0 < k <= |a| && (m + a)[k..k + |m|] == m
    ensures p + (m + a)[..k] + m + (m + a)[k + |m|..] == p + m + a
  {
    var rest := m + a;
    assert rest == rest[..k] + rest[k..k + |m|] + rest[k + |m|..];
  }

  /** An ID shares a directory with a longer path exactly if it hides a marker. */
  lemma CollidesIffHidden(p: string, a: string)
    requires SafeId(a)
    ensures HidesMarker(a) <==> exists q: string, b: string :: SafeId(b) && |q| > |p| && DirectDirectory(q, b) == DirectDirectory(p, a)
  {
    if HidesMarker(a) {
      var q, b := HiddenMarkersCollide(p, a);
    }
    if q: string, b: string :| SafeId(b) && |q| > |p| && DirectDirectory(q, b) == DirectDirectory(p, a) {
      LongerPath(p, a, q, b);
    }
  }

  lemma Nested(p: string, x: string, y: string)
    ensures DirectDirectory(p, x + MARKER + y) == DirectDirectory(p + MARKER + x, y)
  {
  }

  /** Two requests the broker accepts, and one directory for both: /s/a.pagebroker-tx-x.pagebroker-tx-y. */
  lemma TwoRequestsOneDirectory()
    ensures SafeId("x" + MARKER + "y") && SafeId("y") && HidesMarker("x" + MARKER + "y")
    ensures DirectDirectory("/s/a", "x" + MARKER + "y") == DirectDirectory("/s/a" + MARKER + "x", "y")
  {
    Nested("/s/a", "x", "y");
    LongerPath("/s/a", "x" + MARKER + "y", "/s/a" + MARKER + "x", "y");
  }
}
