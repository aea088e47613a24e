/**
 The identity of a checkpoint store: a digest over length-prefixed fields, the
 last of which is a cleaned path. Strings are sequences of bytes, as in Go. The
 digest and the endpoint's URL normalization are parameters.
 */
module StoreIdentity {
  import opened Splitting
  import opened Texts

  datatype Result<+T> = Ok(value: T) | Err

  const SLASH: Byte := 47
  const DOT: Text := [46]
  const DOTDOT: Text := [46, 46]
  const BACKSLASH: Byte := 92

  // The preimage.

  /** The low `width` bytes of a number, the most significant first. */
  function BigEndian(n: nat, width: nat): (r: Text)
    ensures |r| == width
  {
    if width == 0 then [] else BigEndian(n / 0x100, width - 1) + [n % 0x100]
  }

  function Value(bytes: Text): nat {
    if bytes == [] then 0 else Value(bytes[..|bytes| - 1]) * 0x100 + bytes[|bytes| - 1]
  }

  function Range(width: nat): nat {
    if width == 0 then 1 else 0x100 * Range(width - 1)
  }

  lemma {:induction false} BigEndianRoundTrip(n: nat, width: nat)
    requires n < Range(width)
    ensures Value(BigEndian(n, width)) == n
  {
    if width > 0 { BigEndianRoundTrip(n / 0x100, width - 1); }
  }

  const LENGTH_LIMIT: nat := 0x1_0000_0000

  function Prefixed(field: Text): Text {
    BigEndian(|field|, 4) + field
  }

  function Preimage(fields: seq<Text>): Text {
    if fields == [] then [] else Preimage(fields[..|fields| - 1]) + Prefixed(fields[|fields| - 1])
  }

  predicate Bounded(fields: seq<Text>) {
    forall i | 0 <= i < |fields| :: |fields[i]| < LENGTH_LIMIT
  }

  /** What `hashFields` writes to the hash, field by field. */
  method WriteFields(fields: seq<Text>) returns (written: Text)
    ensures written == Preimage(fields)
  {
    written := [];
    for i := 0 to |fields|
      invariant written == Preimage(fields[..i])
    {
      written := written + BigEndian(|fields[i]|, 4);
      written := written + fields[i];
      assert fields[..i + 1][..i] == fields[..i];
      assert written == Preimage(fields[..i]) + Prefixed(fields[i]);
    }
    assert fields[..|fields|] == fields;
  }

  lemma {:induction false} PreimageFromFront(fields: seq<Text>)
    requires fields != []
    ensures Preimage(fields) == Prefixed(fields[0]) + Preimage(fields[1..])
    decreases |fields|
  {
    if |fields| == 1 {
      assert fields[1..] == [] && fields[..0] == [];
    } else {
      var front := fields[..|fields| - 1];
      PreimageFromFront(front);
      assert fields[1..][..|fields| - 2] == front[1..];
    }
  }

  lemma PrefixedIsDecodable(f: Text, g: Text, x: Text, y: Text)
    requires |f| < LENGTH_LIMIT && |g| < LENGTH_LIMIT && Prefixed(f) + x == Prefixed(g) + y
    ensures f == g && x == y
  {
    var s, t := Prefixed(f) + x, Prefixed(g) + y;
    assert s[..4] == BigEndian(|f|, 4) && t[..4] == BigEndian(|g|, 4);
    assert Range(4) == LENGTH_LIMIT;
    BigEndianRoundTrip(|f|, 4);
    BigEndianRoundTrip(|g|, 4);
    assert f == s[4..4 + |f|] && g == t[4..4 + |g|];
    assert x == s[4 + |f|..] && y == t[4 + |g|..];
  }

  /** No two lists of fields share a preimage, whatever their lengths. */
  lemma {:induction false} PreimageIsInjective(fs: seq<Text>, gs: seq<Text>)
    requires Bounded(fs) && Bounded(gs) && Preimage(fs) == Preimage(gs)
    ensures fs == gs
    decreases |fs|
  {
    if fs != [] { PreimageFromFront(fs); }
    if gs != [] { PreimageFromFront(gs); }
    if fs != [] && gs != [] {
      PrefixedIsDecodable(fs[0], gs[0], Preimage(fs[1..]), Preimage(gs[1..]));
      PreimageIsInjective(fs[1..], gs[1..]);
      assert fs == [fs[0]] + fs[1..] && gs == [gs[0]] + gs[1..];
    }
  }

  // Paths.

  predicate Proper(component: Text) {
    component != [] && component != DOT && SLASH !in component
  }

  function Dropped(components: seq<Text>): seq<Text> {
    if components == [] then [] else
    if components[0] == [] || components[0] == DOT then Dropped(components[1..]) else [components[0]] + Dropped(components[1..])
  }

  /** The components that matter: neither empty nor a dot. */
  function Components(s: Text): seq<Text> {
    Dropped(Split(s, SLASH))
  }

  predicate IsAbsolute(s: Text) {
    s != [] && s[0] == SLASH
  }

  predicate Traverses(s: Text) {
    DOTDOT in Split(s, SLASH)
  }

  /** `path.Clean` of a path without parent components. */
  function Clean(s: Text): Text
    requires !Traverses(s)
  {
    if IsAbsolute(s) then [SLASH] + Join(Components(s), SLASH) else
    if Components(s) == [] then DOT else Join(Components(s), SLASH)
  }

  lemma {:induction false} DroppedIsProper(components: seq<Text>)
    requires forall i | 0 <= i < |components| :: SLASH !in components[i]
    ensures forall i | 0 <= i < |Dropped(components)| :: Proper(Dropped(components)[i])
    decreases |components|
  {
    if components != [] { DroppedIsProper(components[1..]); }
  }

  lemma {:induction false} DroppedKeepsProper(components: seq<Text>)
    requires forall i | 0 <= i < |components| :: Proper(components[i])
    ensures Dropped(components) == components
    decreases |components|
  {
    if components != [] {
      DroppedKeepsProper(components[1..]);
      assert components == [components[0]] + components[1..];
    }
  }

  lemma ComponentsOfJoin(components: seq<Text>)
    requires forall i | 0 <= i < |components| :: Proper(components[i])
    ensures Components(Join(components, SLASH)) == components
  {
    if components == [] {
      NothingIsDropped();
    } else {
      SplitJoin(components, SLASH);
      DroppedKeepsProper(components);
    }
  }

  lemma NothingIsDropped()
    ensures Components([]) == [] && Components(DOT) == []
  {
    SplitWhole(DOT, SLASH);
    assert Split<Byte>([], SLASH) == [[]];
    assert Dropped([[]]) == Dropped([[]][1..]) && Dropped([DOT]) == Dropped([DOT][1..]);
  }

  /** Cleaning keeps exactly the components, and whether the path is absolute. */
  lemma CleanKeepsComponents(s: Text)
    requires !Traverses(s)
    ensures Components(Clean(s)) == Components(s) && IsAbsolute(Clean(s)) == IsAbsolute(s)
  {
    SplitHasNoSeparator(s, SLASH);
    DroppedIsProper(Split(s, SLASH));
    var components := Components(s);
    ComponentsOfJoin(components);
    if IsAbsolute(s) {
      assert ([SLASH] + Join(components, SLASH))[1..] == Join(components, SLASH);
      assert Split(Clean(s), SLASH) == [[]] + Split(Join(components, SLASH), SLASH);
    } else if components == [] {
      SplitWhole(DOT, SLASH);
    } else {
      assert Proper(components[0]);
    }
  }

  // What the fields may hold.

  /** Valid UTF-8 within a limit, without backslashes, control characters or space at either end. */
  predicate IsPathText(s: Text, limit: nat) {
    var runes := Runes(s);
    && runes.Some? && |s| <= limit && BACKSLASH !in s
    && (forall i | 0 <= i < |runes.value| :: !IsControl(runes.value[i]))
    && (runes.value != [] ==> !IsSpace(runes.value[0]) && !IsSpace(runes.value[|runes.value| - 1]))
  }

  predicate IsBucket(s: Text) {
    && 3 <= |s| <= 63 && (forall i | 0 <= i < |s| :: IsLowerAlphanumeric(s[i]) || s[i] == 46 || s[i] == 45)
    && s[0] != 46 && s[0] != 45 && s[|s| - 1] != 46 && s[|s| - 1] != 45
  }

  predicate IsRegion(s: Text) {
    s != [] && |s| <= 255 && forall i | 0 <= i < |s| :: 0x21 <= s[i] <= 0x7E
  }

  // Stores.

  datatype Pvc = Pvc(namespace: Text, claimName: Text, basePath: Text)

  datatype S3 = S3(endpoint: Text, region: Text, bucket: Text, prefix: Text)

  const VERSION: Text := Ascii("snapshot.store/v1")
  const PVC_KIND: Text := Ascii("pvc")
  const S3_KIND: Text := Ascii("s3")

  /** `url.Parse` and what `NormalizedEndpoint` makes of it. */
  type Normalizer = Text -> Result<Text>

  function NormalizedBasePath(base: Text): Result<Text> {
    if !IsPathText(base, 4096) || !IsAbsolute(base) || Traverses(base) then Err else Ok(Clean(base))
  }

  function NormalizedPrefix(prefix: Text): Result<Text> {
    if !IsPathText(prefix, 1024) || IsAbsolute(prefix) then Err else
    if prefix == [] then Ok([]) else
    if Traverses(prefix) then Err else
    if Clean(prefix) == DOT then Ok([]) else Ok(Clean(prefix))
  }

  function PvcFields(p: Pvc): Result<seq<Text>> {
    var base := NormalizedBasePath(p.basePath);
    if !IsLabel(p.namespace) || !IsSubdomain(p.claimName) || base.Err? then Err else
    Ok([VERSION, PVC_KIND, p.namespace, p.claimName, base.value])
  }

  function S3Fields(s: S3, normalize: Normalizer): Result<seq<Text>> {
    var endpoint, prefix := normalize(s.endpoint), NormalizedPrefix(s.prefix);
    if endpoint.Err? || !IsRegion(s.region) || !IsBucket(s.bucket) || prefix.Err? then Err else
    Ok([VERSION, S3_KIND, endpoint.value, s.region, s.bucket, prefix.value])
  }

  /** Normalized base paths agree exactly if the components that matter do. */
  lemma BasePathsAgree(a: Text, b: Text)
    requires NormalizedBasePath(a).Ok? && NormalizedBasePath(b).Ok?
    ensures NormalizedBasePath(a) == NormalizedBasePath(b) <==> Components(a) == Components(b)
  {
    CleanKeepsComponents(a);
    CleanKeepsComponents(b);
  }

  lemma PrefixShape(a: Text)
    requires NormalizedPrefix(a).Ok?
    ensures NormalizedPrefix(a).value == Join(Components(a), SLASH) && Components(Join(Components(a), SLASH)) == Components(a)
  {
    SplitHasNoSeparator(a, SLASH);
    DroppedIsProper(Split(a, SLASH));
    ComponentsOfJoin(Components(a));
    NothingIsDropped();
  }

  lemma PrefixesAgree(a: Text, b: Text)
    requires NormalizedPrefix(a).Ok? && NormalizedPrefix(b).Ok?
    ensures NormalizedPrefix(a) == NormalizedPrefix(b) <==> Components(a) == Components(b)
  {
    PrefixShape(a);
    PrefixShape(b);
  }

  lemma {:induction false} JoinIsShort(components: seq<Text>, limit: nat)
    requires Extent(components) <= limit
    ensures |Join(components, SLASH)| <= limit
    decreases |components|
  {
    if |components| > 1 { JoinIsShort(components[1..], limit - |components[0]| - 1); }
  }

  /** The bytes of all components, each with a separator. */
  function Extent(components: seq<Text>): nat {
    if components == [] then 0 else |components[0]| + 1 + Extent(components[1..])
  }

  lemma {:induction false} SplitExtent(s: Text)
    ensures Extent(Split(s, SLASH)) == |s| + 1
    decreases |s|
  {
    if s != [] { SplitExtent(s[1..]); }
  }

  lemma {:induction false} DroppedExtent(components: seq<Text>)
    ensures Extent(Dropped(components)) <= Extent(components)
    decreases |components|
  {
    if components != [] {
      DroppedExtent(components[1..]);
      assert ([components[0]] + Dropped(components[1..]))[1..] == Dropped(components[1..]);
    }
  }

  /** Cleaning lengthens a path by two bytes at most. */
  lemma CleanIsShort(s: Text)
    requires !Traverses(s)
    ensures |Clean(s)| <= |s| + 2
  {
    SplitExtent(s);
    DroppedExtent(Split(s, SLASH));
    JoinIsShort(Components(s), |s| + 1);
  }

  lemma PvcFieldsAreBounded(p: Pvc)
    requires PvcFields(p).Ok?
    ensures Bounded(PvcFields(p).value)
  {
    CleanIsShort(p.basePath);
  }

  lemma S3FieldsAreBounded(s: S3, normalize: Normalizer)
    requires S3Fields(s, normalize).Ok? && |normalize(s.endpoint).value| < LENGTH_LIMIT
    ensures Bounded(S3Fields(s, normalize).value)
  {
    if s.prefix != [] { CleanIsShort(s.prefix); }
  }

  lemma {:induction false} ParentStays(components: seq<Text>)
    ensures DOTDOT in Dropped(components) <==> DOTDOT in components
    decreases |components|
  {
    if components != [] {
      ParentStays(components[1..]);
      assert components == [components[0]] + components[1..];
    }
  }

  lemma PreimageOfFive(a: Text, b: Text, c: Text, d: Text, e: Text)
    ensures Preimage([a, b, c, d, e]) == Prefixed(a) + Prefixed(b) + Prefixed(c) + Prefixed(d) + Prefixed(e)
  {
    assert [a, b, c, d, e][..4] == [a, b, c, d] && [a, b, c, d][..3] == [a, b, c] && [a, b, c][..2] == [a, b] && [a, b][..1] == [a];
    assert Preimage([a]) == Preimage([]) + Prefixed(a);
    assert Preimage([a, b]) == Preimage([a]) + Prefixed(b);
    assert Preimage([a, b, c]) == Preimage([a, b]) + Prefixed(c);
    assert Preimage([a, b, c, d]) == Preimage([a, b, c]) + Prefixed(d);
  }

  /** A claim names a store: Kubernetes names, and a base path that is absolute, readable and without parent components. */
  predicate IsClaim(p: Pvc) {
    && IsLabel(p.namespace) && IsSubdomain(p.claimName)
    && IsPathText(p.basePath, 4096) && IsAbsolute(p.basePath) && DOTDOT !in Components(p.basePath)
  }

  /** A claim has an identity exactly if it names a store; its preimage is five fields in this order. */
  lemma PvcPreimage(p: Pvc)
    ensures PvcFields(p).Ok? <==> IsClaim(p)
    ensures PvcFields(p).Ok? ==>
              Preimage(PvcFields(p).value) ==
              Prefixed(VERSION) + Prefixed(PVC_KIND) + Prefixed(p.namespace) + Prefixed(p.claimName)
                + Prefixed([SLASH] + Join(Components(p.basePath), SLASH))
  {
    ParentStays(Split(p.basePath, SLASH));
    if PvcFields(p).Ok? {
      PreimageOfFive(VERSION, PVC_KIND, p.namespace, p.claimName, Clean(p.basePath));
    }
  }

  /** Two claims share a preimage exactly if they name the same location. */
  lemma PvcIdentity(p: Pvc, q: Pvc)
    requires PvcFields(p).Ok? && PvcFields(q).Ok?
    ensures Preimage(PvcFields(p).value) == Preimage(PvcFields(q).value) <==>
            p.namespace == q.namespace && p.claimName == q.claimName && Components(p.basePath) == Components(q.basePath)
  {
    BasePathsAgree(p.basePath, q.basePath);
    PvcFieldsAreBounded(p);
    PvcFieldsAreBounded(q);
    var fs, gs := PvcFields(p).value, PvcFields(q).value;
    if Preimage(fs) == Preimage(gs) {
      PreimageIsInjective(fs, gs);
      assert fs[2] == gs[2] && fs[3] == gs[3] && fs[4] == gs[4];
    }
  }

  /** A bucket names a store: the prefix is relative, readable and without parent components. */
  predicate IsBucketStore(s: S3) {
    && IsRegion(s.region) && IsBucket(s.bucket)
    && IsPathText(s.prefix, 1024) && !IsAbsolute(s.prefix) && DOTDOT !in Components(s.prefix)
  }

  /** A bucket has an identity exactly if its endpoint is usable and it names a store; its preimage is six fields in this order. */
  lemma S3Preimage(s: S3, normalize: Normalizer)
    ensures S3Fields(s, normalize).Ok? <==> normalize(s.endpoint).Ok? && IsBucketStore(s)
    ensures S3Fields(s, normalize).Ok? ==>
              Preimage(S3Fields(s, normalize).value) ==
              Prefixed(VERSION) + Prefixed(S3_KIND) + Prefixed(normalize(s.endpoint).value) + Prefixed(s.region) + Prefixed(s.bucket)
                + Prefixed(Join(Components(s.prefix), SLASH))
  {
    ParentStays(Split(s.prefix, SLASH));
    if S3Fields(s, normalize).Ok? {
      var fields, endpoint := S3Fields(s, normalize).value, normalize(s.endpoint).value;
      PrefixShape(s.prefix);
      PreimageOfFive(VERSION, S3_KIND, endpoint, s.region, s.bucket);
      assert fields[..5] == [VERSION, S3_KIND, endpoint, s.region, s.bucket];
    }
  }

  lemma S3Identity(p: S3, q: S3, normalize: Normalizer)
    requires S3Fields(p, normalize).Ok? && S3Fields(q, normalize).Ok?
    requires |normalize(p.endpoint).value| < LENGTH_LIMIT && |normalize(q.endpoint).value| < LENGTH_LIMIT
    ensures Preimage(S3Fields(p, normalize).value) == Preimage(S3Fields(q, normalize).value) <==>
            && normalize(p.endpoint) == normalize(q.endpoint) && p.region == q.region && p.bucket == q.bucket
            && Components(p.prefix) == Components(q.prefix)
  {
    PrefixesAgree(p.prefix, q.prefix);
    S3FieldsAreBounded(p, normalize);
    S3FieldsAreBounded(q, normalize);
    var fs, gs := S3Fields(p, normalize).value, S3Fields(q, normalize).value;
    if Preimage(fs) == Preimage(gs) {
      PreimageIsInjective(fs, gs);
      assert fs[2] == gs[2] && fs[3] == gs[3] && fs[4] == gs[4] && fs[5] == gs[5];
    }
  }

  /** A claim is never taken for a bucket. */
  lemma KindsAreApart(p: Pvc, s: S3, normalize: Normalizer)
    requires PvcFields(p).Ok? && S3Fields(s, normalize).Ok? && |normalize(s.endpoint).value| < LENGTH_LIMIT
    ensures Preimage(PvcFields(p).value) != Preimage(S3Fields(s, normalize).value)
  {
    PvcFieldsAreBounded(p);
    S3FieldsAreBounded(s, normalize);
    if Preimage(PvcFields(p).value) == Preimage(S3Fields(s, normalize).value) {
      PreimageIsInjective(PvcFields(p).value, S3Fields(s, normalize).value);
    }
  }

  // Store IDs.

  function HexDigit(n: nat): Byte
    requires n < 16
  {
    if n < 10 then 48 + n else 87 + n
  }

  function Hex(bytes: Text): (r: Text)
    ensures |r| == 2 * |bytes|
  {
    if bytes == [] then [] else [HexDigit(bytes[0] / 16), HexDigit(bytes[0] % 16)] + Hex(bytes[1..])
  }

  function StoreId(fields: seq<Text>, digest: Text -> Text): Text {
    Ascii("store-v1-") + Hex(digest(Preimage(fields)))
  }

  predicate IsHexDigit(b: Byte) {
    48 <= b <= 57 || 97 <= b <= 102
  }

  /** The pattern every store ID has to match. */
  predicate IsStoreId(id: Text) {
    |id| == 73 && id[..9] == Ascii("store-v1-") && forall i | 9 <= i < 73 :: IsHexDigit(id[i])
  }

  predicate IsArtifactIdentity(storeId: Text, artifactUid: Text, containerName: Text) {
    var runes := Runes(artifactUid);
    && IsStoreId(storeId)
    && artifactUid != [] && |artifactUid| <= 256 && runes.Some? && SLASH !in artifactUid && BACKSLASH !in artifactUid
    && (forall i | 0 <= i < |runes.value| :: !IsSpace(runes.value[i]) && !IsControl(runes.value[i]))
    && IsLabel(containerName)
  }

  lemma {:induction false} HexIsHexadecimal(bytes: Text)
    ensures forall i | 0 <= i < |Hex(bytes)| :: IsHexDigit(Hex(bytes)[i])
    decreases |bytes|
  {
    if bytes != [] { HexIsHexadecimal(bytes[1..]); }
  }

  lemma {:induction false} HexIsInjective(a: Text, b: Text)
    requires Hex(a) == Hex(b)
    ensures a == b
    decreases |a|
  {
    if a != [] && b != [] {
      assert Hex(a)[0] == Hex(b)[0] && Hex(a)[1] == Hex(b)[1];
      assert a[0] == a[0] / 16 * 16 + a[0] % 16 && b[0] == b[0] / 16 * 16 + b[0] % 16;
      assert Hex(a[1..]) == Hex(a)[2..] && Hex(b[1..]) == Hex(b)[2..];
      HexIsInjective(a[1..], b[1..]);
      assert a == [a[0]] + a[1..] && b == [b[0]] + b[1..];
    }
  }

  /** IDs add nothing to the collisions of the digest, and every ID passes the check its readers make. */
  lemma StoreIdsFollowDigests(fs: seq<Text>, gs: seq<Text>, digest: Text -> Text)
    ensures StoreId(fs, digest) == StoreId(gs, digest) <==> digest(Preimage(fs)) == digest(Preimage(gs))
    ensures |digest(Preimage(fs))| == 32 ==> IsStoreId(StoreId(fs, digest))
  {
    var prefix := Ascii("store-v1-");
    assert StoreId(fs, digest)[9..] == Hex(digest(Preimage(fs))) && StoreId(gs, digest)[9..] == Hex(digest(Preimage(gs)));
    if StoreId(fs, digest) == StoreId(gs, digest) {
      HexIsInjective(digest(Preimage(fs)), digest(Preimage(gs)));
    }
    HexIsHexadecimal(digest(Preimage(fs)));
  }
}
