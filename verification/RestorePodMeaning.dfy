/** Which Pods are valid and which can be built, told by what their lists and annotations hold. */
module RestorePodMeaning {
  import opened ContainerMappings
  import opened RestorePodLaws
  import opened RestorePods
  import opened Sorting
  import opened Splitting
  import opened Texts

  // What a Pod holds.

  predicate HasOneControlVolume(volumes: seq<Volume>) {
    exists i | 0 <= i < |volumes| ::
      && volumes[i].name == CONTROL_VOLUME && volumes[i].source.emptyDir.Some? && volumes[i].source.other.None?
      && forall j | 0 <= j < |volumes| && j != i :: volumes[j].name != CONTROL_VOLUME
  }

  predicate HasNoControlVolume(volumes: seq<Volume>) {
    forall i | 0 <= i < |volumes| :: volumes[i].name != CONTROL_VOLUME
  }

  predicate TouchesControl(m: Mount) {
    m.name == CONTROL_VOLUME || m.path == CONTROL_PATH
  }

  /** Read-write, on the container's own directory, and nothing fancy. */
  predicate MountsControl(m: Mount, container: Text) {
    && m.name == CONTROL_VOLUME && m.path == CONTROL_PATH && m.subPath == container && m.subPathExpr == []
    && !m.readOnly && m.recursiveReadOnly.None? && (m.propagation == None || m.propagation == Some(NoPropagation))
  }

  predicate HasOneControlMount(c: Container) {
    exists i | 0 <= i < |c.mounts| ::
      MountsControl(c.mounts[i], c.name) && forall j | 0 <= j < |c.mounts| && j != i :: !TouchesControl(c.mounts[j])
  }

  predicate HasNoControlMount(c: Container) {
    forall i | 0 <= i < |c.mounts| :: !TouchesControl(c.mounts[i])
  }

  predicate HasOneVariable(c: Container, name: Text) {
    exists i | 0 <= i < |c.env| ::
      c.env[i] == Variable(name, CONTROL_PATH, None) && forall j | 0 <= j < |c.env| && j != i :: c.env[j].name != name
  }

  predicate HasNoVariable(c: Container, name: Text) {
    forall i | 0 <= i < |c.env| :: c.env[i].name != name
  }

  predicate IsFirst(cs: seq<Container>, name: Text, at: nat) {
    at < |cs| && cs[at].name == name && forall i | 0 <= i < at :: cs[i].name != name
  }

  // Scans read back.

  lemma VolumeMeaning(volumes: seq<Volume>)
    ensures ControlVolume(volumes) == Ok(true) <==> HasOneControlVolume(volumes)
    ensures ControlVolume(volumes) == Ok(false) <==> HasNoControlVolume(volumes)
  {
    ScanMeaning(volumes, IsControlVolume, IsEmptyDir);
  }

  lemma MountMeaning(c: Container)
    ensures ControlMount(c) == Ok(true) <==> HasOneControlMount(c)
    ensures ControlMount(c) == Ok(false) <==> HasNoControlMount(c)
  {
    ScanMeaning(c.mounts, IsControlMount, ValidMountFor(c.name));
  }

  lemma VariableMeaning(c: Container, name: Text)
    ensures ControlEnv(c, name) == Ok(true) <==> HasOneVariable(c, name)
    ensures ControlEnv(c, name) == Ok(false) <==> HasNoVariable(c, name)
  {
    ScanMeaning(c.env, Named(name), IsControlVariable);
  }

  // Destinations.

  /** The container is wired to the control directory. */
  predicate IsWired(c: Container) {
    && HasOneControlMount(c) && HasOneVariable(c, CONTROL_ENV)
    && (HasNoVariable(c, LEGACY_CONTROL_ENV) || HasOneVariable(c, LEGACY_CONTROL_ENV))
  }

  lemma FoundOrNot(r: Result<bool>)
    ensures r.Ok? <==> r == Ok(true) || r == Ok(false)
  {
    if r.Ok? { assert r == Ok(r.value) && (r.value == true || r.value == false); }
  }

  lemma WiredMeaning(c: Container)
    ensures CheckContainer(c).Ok? <==> IsWired(c)
  {
    FoundOrNot(ControlMount(c));
    FoundOrNot(ControlEnv(c, CONTROL_ENV));
    FoundOrNot(ControlEnv(c, LEGACY_CONTROL_ENV));
    MountMeaning(c);
    VariableMeaning(c, CONTROL_ENV);
    VariableMeaning(c, LEGACY_CONTROL_ENV);
  }

  /** Nothing stands in the way of wiring it, and its seccomp profile is unset or the demanded one. */
  predicate CanBeWired(c: Container, options: Options) {
    && (HasNoControlMount(c) || HasOneControlMount(c))
    && (HasNoVariable(c, CONTROL_ENV) || HasOneVariable(c, CONTROL_ENV))
    && (HasNoVariable(c, LEGACY_CONTROL_ENV) || HasOneVariable(c, LEGACY_CONTROL_ENV))
    && (options.seccomp == [] || c.security.None? || c.security.value.seccomp.None? ||
        c.security.value.seccomp.value == Profile(Localhost, Some(options.seccomp)))
  }

  lemma VariableStepMeaning(c: Container)
    ensures EnsureEnvironment(c).Ok? <==> ControlEnv(c, CONTROL_ENV).Ok? && ControlEnv(c, LEGACY_CONTROL_ENV).Ok?
  {
    NamesDiffer();
    if EnsureVariable(c, CONTROL_ENV).Ok? { VariableLaw(c, CONTROL_ENV, LEGACY_CONTROL_ENV); }
  }

  lemma WiringMeaning(c: Container, options: Options)
    ensures EnsureContainer(c, options).Ok? <==> CanBeWired(c, options)
  {
    MountMeaning(c);
    VariableMeaning(c, CONTROL_ENV);
    VariableMeaning(c, LEGACY_CONTROL_ENV);
    FoundOrNot(ControlMount(c));
    FoundOrNot(ControlEnv(c, CONTROL_ENV));
    FoundOrNot(ControlEnv(c, LEGACY_CONTROL_ENV));
    var s := EnsureSeccomp(c, options.seccomp);
    if s.Ok? {
      SeccompLaw(c, options.seccomp);
      MountsOf(s.value, c);
      var m := EnsureMount(s.value);
      if m.Ok? {
        MountLaw(s.value);
        VariablesOf(m.value, c, CONTROL_ENV);
        VariablesOf(m.value, c, LEGACY_CONTROL_ENV);
        VariableStepMeaning(m.value);
      }
    }
  }

  lemma FindMeaning(cs: seq<Container>, name: Text, at: nat)
    ensures Find(cs, name) == Some(at) <==> IsFirst(cs, name, at)
  {
  }

  /** The destination is there, under the first container of its name, and that one is wired. */
  predicate IsReady(cs: seq<Container>, m: Mapping) {
    exists at | 0 <= at < |cs| :: IsFirst(cs, m.destination, at) && IsWired(cs[at])
  }

  predicate CanBeReady(cs: seq<Container>, m: Mapping, options: Options) {
    exists at | 0 <= at < |cs| :: IsFirst(cs, m.destination, at) && CanBeWired(cs[at], options)
  }

  lemma PassingMeaning(cs: seq<Container>, m: Mapping)
    ensures Passes(cs, m, CheckContainer) <==> IsReady(cs, m)
  {
    var at := Find(cs, m.destination);
    if at.Some? {
      FindMeaning(cs, m.destination, at.value);
      WiredMeaning(cs[at.value]);
    }
    if IsReady(cs, m) {
      var k :| 0 <= k < |cs| && IsFirst(cs, m.destination, k) && IsWired(cs[k]);
      FindMeaning(cs, m.destination, k);
    }
  }

  lemma DestinationsMeaning(cs: seq<Container>, ms: seq<Mapping>)
    ensures CheckDestinations(cs, ms).Ok? <==> forall k | 0 <= k < |ms| :: IsReady(cs, ms[k])
  {
    CheckedEverywhere(cs, ms, CheckContainer);
    forall k | 0 <= k < |ms| ensures Passes(cs, ms[k], CheckContainer) <==> IsReady(cs, ms[k]) {
      PassingMeaning(cs, ms[k]);
    }
  }

  /** The destination is there and can be shaped. */
  predicate Shapes(cs: seq<Container>, m: Mapping, shape: Shaper) {
    var at := Find(cs, m.destination);
    at.Some? && shape(cs[at.value]).Ok?
  }

  /** Shaping the destinations before it leaves the next one as it was. */
  lemma ShapesLater(cs: seq<Container>, es: seq<Container>, front: seq<Mapping>, last: Mapping, shape: Shaper)
    requires Shaped(cs, es, front, shape) && Distinct(front + [last])
    ensures Shapes(es, last, shape) <==> Shapes(cs, last, shape)
  {
    FindByNames(cs, es, last.destination);
    var at := Find(cs, last.destination);
    if at.Some? {
      LastIsNew(cs, front, last, at.value);
      assert ShapedAt(cs, es, front, shape, at.value);
    }
  }

  lemma ShapeLast(cs: seq<Container>, ms: seq<Mapping>, shape: Shaper)
    requires ms != []
    ensures var es := ShapeAll(cs, ms[..|ms| - 1], shape);
            ShapeAll(cs, ms, shape).Ok? <==> es.Ok? && Shapes(es.value, ms[|ms| - 1], shape)
  {
  }

  lemma {:induction false} ShapedEverywhere(cs: seq<Container>, ms: seq<Mapping>, shape: Shaper)
    requires Distinct(ms) && KeepsNames(shape)
    ensures ShapeAll(cs, ms, shape).Ok? <==> forall k | 0 <= k < |ms| :: Shapes(cs, ms[k], shape)
    decreases |ms|
  {
    if ms != [] {
      var front, last := ms[..|ms| - 1], ms[|ms| - 1];
      assert ms == front + [last] && forall k | 0 <= k < |front| :: ms[k] == front[k];
      ShapedEverywhere(cs, front, shape);
      ShapeLast(cs, ms, shape);
      var es := ShapeAll(cs, front, shape);
      if es.Ok? {
        ContainersLaw(cs, front, shape);
        ShapesLater(cs, es.value, front, last, shape);
      }
    }
  }

  lemma ShapingMeaning(cs: seq<Container>, m: Mapping, options: Options)
    ensures Shapes(cs, m, ShaperFor(options)) <==> CanBeReady(cs, m, options)
  {
    var at := Find(cs, m.destination);
    if at.Some? {
      FindMeaning(cs, m.destination, at.value);
      WiringMeaning(cs[at.value], options);
    }
    if CanBeReady(cs, m, options) {
      var k :| 0 <= k < |cs| && IsFirst(cs, m.destination, k) && CanBeWired(cs[k], options);
      FindMeaning(cs, m.destination, k);
    }
  }

  lemma ContainersMeaning(cs: seq<Container>, ms: seq<Mapping>, options: Options)
    requires Distinct(ms)
    ensures EnsureContainers(cs, ms, options).Ok? <==> forall k | 0 <= k < |ms| :: CanBeReady(cs, ms[k], options)
  {
    ShapersKeepNames(options);
    ShapedEverywhere(cs, ms, ShaperFor(options));
    forall k | 0 <= k < |ms| ensures Shapes(cs, ms[k], ShaperFor(options)) <==> CanBeReady(cs, ms[k], options) {
      ShapingMeaning(cs, ms[k], options);
    }
  }

  // Annotations.

  /** The part is a pair, trimmed on both sides of its one equals sign. */
  predicate IsPair(part: Text, m: Mapping) {
    var pair := Split(part, EQUALS);
    |pair| == 2 && m.source == TrimSpace(pair[0]) && m.destination == TrimSpace(pair[1])
  }

  predicate PairUp(parts: seq<Text>, ms: seq<Mapping>) {
    |parts| == |ms| && forall i | 0 <= i < |parts| :: IsPair(parts[i], ms[i])
  }

  predicate ReadsAs(raw: Text, ms: seq<Mapping>) {
    PairUp(Split(TrimSpace(raw), COMMA), ms)
  }

  lemma PairMeaning(part: Text, m: Mapping)
    ensures ParseEntry(part) == Ok(m) <==> IsPair(part, m)
  {
  }

  lemma {:induction false} EntriesPairUp(parts: seq<Text>)
    requires ParseEntries(parts).Ok?
    ensures PairUp(parts, ParseEntries(parts).value)
    decreases |parts|
  {
    if parts != [] {
      var front, last := parts[..|parts| - 1], parts[|parts| - 1];
      EntriesPairUp(front);
      PairMeaning(last, ParseEntry(last).value);
    }
  }

  lemma {:induction false} PairsParse(parts: seq<Text>, ms: seq<Mapping>)
    requires PairUp(parts, ms)
    ensures ParseEntries(parts) == Ok(ms)
    decreases |parts|
  {
    if parts != [] {
      var n := |parts| - 1;
      PairsParse(parts[..n], ms[..n]);
      PairMeaning(parts[n], ms[n]);
      assert ms[..n] + [ms[n]] == ms;
    }
  }

  lemma RearrangedIsMapping(ms: seq<Mapping>, rs: seq<Mapping>, source: Text)
    requires IsMapping(rs, source) && multiset(ms) == multiset(rs)
    ensures IsMapping(ms, source)
  {
    forall i | 0 <= i < |ms| ensures ms[i].source == source && IsLabel(ms[i].destination) {
      assert ms[i] in multiset(ms) && ms[i] in multiset(rs);
      assert ms[i] in rs;
    }
    DistinctStays(rs, ms);
  }

  /** The mapping annotation reads as a rearrangement of the mappings; without it the container keeps its name. */
  ghost predicate MapAgrees(annotations: map<Text, Text>, request: Request) {
    if CONTAINER_MAP in annotations then
      exists ms :: ReadsAs(annotations[CONTAINER_MAP], ms) && multiset(ms) == multiset(request.mappings)
    else
      request.mappings == [Mapping(request.source, request.source)]
  }

  lemma RearrangementChecks(ms: seq<Mapping>, request: Request)
    requires IsNormal(request)
    ensures ValidateMappings(ms, request.source).Ok? && Same(ms, request.mappings) <==> multiset(ms) == multiset(request.mappings)
  {
    LabelIsPlain(request.source);
    CheckedIffMapping(ms, request.source);
    if multiset(ms) == multiset(request.mappings) {
      assert |multiset(ms)| == |multiset(request.mappings)|;
      RearrangedIsMapping(ms, request.mappings, request.source);
    }
    if IsMapping(ms, request.source) { SameIffRearranged(ms, request.mappings, request.source); }
  }

  lemma PartsMeaning(parts: seq<Text>, parsed: Result<seq<Mapping>>, request: Request)
    requires IsNormal(request) && parsed == ParseEntries(parts)
    ensures parsed.Ok? && ValidateMappings(parsed.value, request.source).Ok? && Same(parsed.value, request.mappings) <==>
            exists ms :: PairUp(parts, ms) && multiset(ms) == multiset(request.mappings)
  {
    if parsed.Ok? {
      RearrangementChecks(parsed.value, request);
      EntriesPairUp(parts);
    }
    if ms :| PairUp(parts, ms) && multiset(ms) == multiset(request.mappings) { PairsParse(parts, ms); }
  }

  lemma WrittenMapMeaning(raw: Text, request: Request)
    requires IsNormal(request)
    ensures CheckMap(Some(raw), request).Ok? <==> exists ms :: ReadsAs(raw, ms) && multiset(ms) == multiset(request.mappings)
  {
    var parts := Split(TrimSpace(raw), COMMA);
    PartsMeaning(parts, ParseEntries(parts), request);
    if ms :| PairUp(parts, ms) && multiset(ms) == multiset(request.mappings) { assert ReadsAs(raw, ms); }
    if ms :| ReadsAs(raw, ms) && multiset(ms) == multiset(request.mappings) { assert PairUp(parts, ms); }
  }

  lemma MissingMapMeaning(request: Request)
    requires IsNormal(request)
    ensures CheckMap(None, request).Ok? <==> request.mappings == [Mapping(request.source, request.source)]
  {
    var m := Mapping(request.source, request.source);
    LabelIsPlain(request.source);
    RearrangementChecks([m], request);
    SingletonRearranged(m, request.mappings);
  }

  lemma MapMeaning(annotations: map<Text, Text>, request: Request)
    requires IsNormal(request)
    ensures CheckMap(Lookup(annotations, CONTAINER_MAP), request).Ok? <==> MapAgrees(annotations, request)
  {
    if CONTAINER_MAP in annotations {
      WrittenMapMeaning(annotations[CONTAINER_MAP], request);
    } else {
      MissingMapMeaning(request);
    }
  }

  lemma SingletonRearranged(m: Mapping, ms: seq<Mapping>)
    ensures multiset([m]) == multiset(ms) <==> ms == [m]
  {
    if multiset([m]) == multiset(ms) {
      assert |multiset(ms)| == |multiset([m])| == 1;
      assert ms[0] in multiset(ms);
    }
  }

  predicate NamesSnapshot(annotations: map<Text, Text>, request: Request) {
    RESTORE_FROM in annotations && TrimSpace(annotations[RESTORE_FROM]) == request.snapshot
  }

  lemma AnnotationsMeaning(annotations: map<Text, Text>, request: Request)
    requires IsNormal(request)
    ensures CheckAnnotations(annotations, request).Ok? <==> NamesSnapshot(annotations, request) && MapAgrees(annotations, request)
  {
    MapMeaning(annotations, request);
    SubdomainIsPlain(request.snapshot);
    assert TrimSpace([]) == [];
  }

  // The whole.

  /** The request without the caller's white space, and with the captured container itself where no mapping is given. */
  function Plain(request: Request): Request {
    var source := TrimSpace(request.source);
    Request(TrimSpace(request.snapshot), source, if request.mappings == [] then [Mapping(source, source)] else request.mappings)
  }

  lemma NormalMeaning(request: Request)
    ensures Normalize(request).Ok? <==> IsNormal(Plain(request))
    ensures Normalize(request).Ok? ==> Normalize(request).value == Plain(request)
  {
    var n := Plain(request);
    TrimIsIdempotent(request.source);
    if IsSubdomain(n.snapshot) { SubdomainIsPlain(n.snapshot); }
    if IsLabel(n.source) { CheckedIffMapping(n.mappings, n.source); }
  }

  /** A Pod that restores what the request says. */
  ghost predicate Restores(pod: Pod, request: Request) {
    && NamesSnapshot(pod.annotations, request) && MapAgrees(pod.annotations, request)
    && HasOneControlVolume(pod.volumes)
    && forall k | 0 <= k < |request.mappings| :: IsReady(pod.containers, request.mappings[k])
  }

  /** Validation accepts exactly the Pods that restore what a well-formed request says. */
  lemma ValidateMeaning(pod: Pod, request: Request)
    ensures Validate(pod, request).Ok? <==> IsNormal(Plain(request)) && Restores(pod, Plain(request))
  {
    NormalMeaning(request);
    if IsNormal(Plain(request)) { MinimumMeaning(pod, Plain(request)); }
  }

  lemma MinimumMeaning(pod: Pod, request: Request)
    requires IsNormal(request)
    ensures CheckMinimum(pod, request).Ok? <==> Restores(pod, request)
  {
    FoundOrNot(ControlVolume(pod.volumes));
    AnnotationsMeaning(pod.annotations, request);
    VolumeMeaning(pod.volumes);
    DestinationsMeaning(pod.containers, request.mappings);
  }

  /** Nothing in the Pod contradicts the request. */
  ghost predicate CanRestore(pod: Pod, request: Request, options: Options) {
    && (RESTORE_FROM in pod.annotations ==> NamesSnapshot(pod.annotations, request))
    && (CONTAINER_MAP in pod.annotations ==> MapAgrees(pod.annotations, request))
    && (HasNoControlVolume(pod.volumes) || HasOneControlVolume(pod.volumes))
    && forall k | 0 <= k < |request.mappings| :: CanBeReady(pod.containers, request.mappings[k], options)
  }

  lemma EnsureAnnotationsMeaning(annotations: map<Text, Text>, request: Request)
    requires IsNormal(request)
    ensures EnsureAnnotations(annotations, request).Ok? <==>
            && (RESTORE_FROM in annotations ==> NamesSnapshot(annotations, request))
            && (CONTAINER_MAP in annotations ==> MapAgrees(annotations, request))
  {
    MapMeaning(annotations, request);
    SubdomainIsPlain(request.snapshot);
  }

  lemma ShapeMeaning(pod: Pod, request: Request, options: Options)
    requires IsNormal(request)
    ensures Shape(pod, request, options).Ok? <==> CanRestore(pod, request, options)
  {
    FoundOrNot(ControlVolume(pod.volumes));
    EnsureAnnotationsMeaning(pod.annotations, request);
    VolumeMeaning(pod.volumes);
    ContainersMeaning(pod.containers, request.mappings, options);
  }

  /** A Pod can be built exactly if nothing in it contradicts a well-formed request. */
  lemma BuildMeaning(pod: Pod, request: Request, options: Options)
    ensures Build(pod, request, options).Ok? <==> IsNormal(Plain(request)) && CanRestore(pod, Plain(request), options)
  {
    NormalMeaning(request);
    if IsNormal(Plain(request)) {
      BuildNeverFailsItsOwnCheck(pod, request, options);
      ShapeMeaning(pod, Plain(request), options);
    }
  }
}
