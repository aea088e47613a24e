/** What shaping a restore Pod achieves, and what it leaves alone. */
module RestorePodLaws {
  import opened ContainerMappings
  import opened RestorePods
  import opened Texts

  lemma VolumeLaw(vs: seq<Volume>)
    requires EnsureVolume(vs).Ok?
    ensures var us := EnsureVolume(vs).value;
            && ControlVolume(us) == Ok(true) && EnsureVolume(us) == Ok(us)
            && (us == vs || us == vs + [Volume(CONTROL_VOLUME, VolumeSource(Some(0), None))])
  {
    Scanned(vs, Volume(CONTROL_VOLUME, VolumeSource(Some(0), None)), IsControlVolume, IsEmptyDir);
  }

  /** The control mount, where it was missing. */
  function AddedMounts(c: Container): seq<Mount> {
    if ControlMount(c) == Ok(false) then [Mount(CONTROL_VOLUME, CONTROL_PATH, c.name, false, None, [], None)] else []
  }

  /** A control variable, where it was missing. */
  function AddedVariable(c: Container, name: Text): seq<Variable> {
    if ControlEnv(c, name) == Ok(false) then [Variable(name, CONTROL_PATH, None)] else []
  }

  /** The demanded profile over all that the caller set besides. */
  function Secured(security: Option<SecurityContext>, expected: Text): Option<SecurityContext> {
    if expected == [] then security else
    Some(SecurityContext(Some(LocalProfile(expected)), if security.None? then 0 else security.value.other))
  }

  lemma MountLaw(c: Container)
    requires EnsureMount(c).Ok?
    ensures var d := EnsureMount(c).value;
            ControlMount(d) == Ok(true) && EnsureMount(d) == Ok(d) && d == c.(mounts := c.mounts + AddedMounts(c))
  {
    Scanned(c.mounts, Mount(CONTROL_VOLUME, CONTROL_PATH, c.name, false, None, [], None), IsControlMount, ValidMountFor(c.name));
  }

  lemma VariableLaw(c: Container, name: Text, other: Text)
    requires EnsureVariable(c, name).Ok?
    ensures var d := EnsureVariable(c, name).value;
            && ControlEnv(d, name) == Ok(true) && d == c.(env := c.env + AddedVariable(c, name))
            && (other != name ==> ControlEnv(d, other) == ControlEnv(c, other))
  {
    Scanned(c.env, Variable(name, CONTROL_PATH, None), Named(name), IsControlVariable);
    Scanned(c.env, Variable(name, CONTROL_PATH, None), Named(other), IsControlVariable);
  }

  lemma NamesDiffer()
    ensures CONTROL_ENV != LEGACY_CONTROL_ENV && RESTORE_FROM != CONTAINER_MAP
  {
    assert |CONTROL_ENV| == 20 && |LEGACY_CONTROL_ENV| == 24 && |RESTORE_FROM| == 23 && |CONTAINER_MAP| == 32;
  }

  lemma EnvironmentLaw(c: Container)
    requires EnsureEnvironment(c).Ok?
    ensures var d := EnsureEnvironment(c).value;
            && ControlEnv(d, CONTROL_ENV) == Ok(true) && ControlEnv(d, LEGACY_CONTROL_ENV) == Ok(true) && EnsureEnvironment(d) == Ok(d)
            && d == c.(env := c.env + AddedVariable(c, CONTROL_ENV) + AddedVariable(c, LEGACY_CONTROL_ENV))
  {
    NamesDiffer();
    VariableLaw(c, CONTROL_ENV, LEGACY_CONTROL_ENV);
    VariableLaw(EnsureVariable(c, CONTROL_ENV).value, LEGACY_CONTROL_ENV, CONTROL_ENV);
  }

  lemma SeccompLaw(c: Container, expected: Text)
    requires EnsureSeccomp(c, expected).Ok?
    ensures var d := EnsureSeccomp(c, expected).value;
            CheckSeccomp(d, expected).Ok? && EnsureSeccomp(d, expected) == Ok(d) && d == c.(security := Secured(c.security, expected))
  {
  }

  /** The container as the caller wrote it, with what was missing added and nothing else touched. */
  function Completed(c: Container, options: Options): Container {
    c.(mounts := c.mounts + AddedMounts(c),
       env := c.env + AddedVariable(c, CONTROL_ENV) + AddedVariable(c, LEGACY_CONTROL_ENV),
       security := Secured(c.security, options.seccomp),
       probe := if options.startupGate then Some(CanonicalProbe()) else c.probe)
  }

  /** Nothing is missing. */
  predicate IsComplete(c: Container, options: Options) {
    && ControlMount(c) == Ok(true) && ControlEnv(c, CONTROL_ENV) == Ok(true) && ControlEnv(c, LEGACY_CONTROL_ENV) == Ok(true)
    && (options.startupGate ==> c.probe == Some(CanonicalProbe()))
    && c.security == Secured(c.security, options.seccomp)
  }

  lemma CompleteStays(c: Container, options: Options)
    requires IsComplete(c, options)
    ensures CheckContainer(c).Ok? && CheckOptions(c, options).Ok? && EnsureContainer(c, options) == Ok(c)
  {
  }

  lemma MountsOf(c: Container, d: Container)
    requires c.mounts == d.mounts && c.name == d.name
    ensures ControlMount(c) == ControlMount(d) && AddedMounts(c) == AddedMounts(d)
  {
  }

  lemma VariablesOf(c: Container, d: Container, name: Text)
    requires c.env == d.env
    ensures ControlEnv(c, name) == ControlEnv(d, name) && AddedVariable(c, name) == AddedVariable(d, name)
  {
  }

  lemma CompletedIsComplete(c: Container, options: Options)
    requires EnsureContainer(c, options).Ok?
    ensures EnsureContainer(c, options).value == Completed(c, options) && IsComplete(Completed(c, options), options)
  {
    var s := EnsureSeccomp(c, options.seccomp).value;
    SeccompLaw(c, options.seccomp);
    MountsOf(s, c);
    var m := EnsureMount(s).value;
    MountLaw(s);
    VariablesOf(m, c, CONTROL_ENV);
    VariablesOf(m, c, LEGACY_CONTROL_ENV);
    var e := EnsureEnvironment(m).value;
    EnvironmentLaw(m);
    var d := Completed(c, options);
    MountsOf(d, m);
    VariablesOf(d, e, CONTROL_ENV);
    VariablesOf(d, e, LEGACY_CONTROL_ENV);
  }

  /** A shaped container is the caller's with only what was missing added; it passes all checks and is a fixed point. */
  lemma ContainerLaw(c: Container, options: Options)
    requires EnsureContainer(c, options).Ok?
    ensures var d := EnsureContainer(c, options).value;
            && CheckContainer(d).Ok? && CheckOptions(d, options).Ok?
            && EnsureContainer(d, options) == Ok(d) && d == Completed(c, options)
  {
    CompletedIsComplete(c, options);
    CompleteStays(Completed(c, options), options);
  }

  // All destinations.

  predicate Distinct(ms: seq<Mapping>) {
    forall i, j | 0 <= i < j < |ms| :: ms[i].destination != ms[j].destination
  }

  predicate SameNames(cs: seq<Container>, ds: seq<Container>) {
    |cs| == |ds| && forall i | 0 <= i < |cs| :: cs[i].name == ds[i].name
  }

  lemma FindByNames(cs: seq<Container>, ds: seq<Container>, name: Text)
    requires SameNames(cs, ds)
    ensures Find(cs, name) == Find(ds, name)
  {
    var a, b := Find(cs, name), Find(ds, name);
    if a.Some? { assert ds[a.value].name == name; }
    if b.Some? { assert cs[b.value].name == name; }
  }

  /** Some destination is this very container. */
  predicate Targeted(cs: seq<Container>, ms: seq<Mapping>, i: nat) {
    exists k | 0 <= k < |ms| :: Find(cs, ms[k].destination) == Some(i)
  }

  ghost predicate ShapedAt(cs: seq<Container>, ds: seq<Container>, ms: seq<Mapping>, shape: Shaper, i: nat)
    requires i < |cs| == |ds|
  {
    if Targeted(cs, ms, i) then shape(cs[i]) == Ok(ds[i]) else ds[i] == cs[i]
  }

  lemma TargetedGrows(cs: seq<Container>, front: seq<Mapping>, last: Mapping, i: nat)
    ensures Targeted(cs, front + [last], i) <==> Targeted(cs, front, i) || Find(cs, last.destination) == Some(i)
  {
    var ms := front + [last];
    assert ms[|front|] == last;
    if k :| 0 <= k < |front| && Find(cs, front[k].destination) == Some(i) { assert ms[k] == front[k]; }
    if k :| 0 <= k < |ms| && Find(cs, ms[k].destination) == Some(i) {
      if k < |front| { assert front[k] == ms[k]; }
    }
  }

  ghost predicate Shaped(cs: seq<Container>, ds: seq<Container>, ms: seq<Mapping>, shape: Shaper) {
    && SameNames(cs, ds)
    && (forall k | 0 <= k < |ms| :: Find(cs, ms[k].destination).Some?)
    && (forall i | 0 <= i < |cs| :: ShapedAt(cs, ds, ms, shape, i))
  }

  lemma ShapedGrows(cs: seq<Container>, es: seq<Container>, front: seq<Mapping>, last: Mapping, shape: Shaper, at: nat, d: Container)
    requires Shaped(cs, es, front, shape) && Find(cs, last.destination) == Some(at) && !Targeted(cs, front, at)
    requires shape(es[at]) == Ok(d) && d.name == es[at].name
    ensures Shaped(cs, es[at := d], front + [last], shape)
  {
    var ds, ms := es[at := d], front + [last];
    assert forall k | 0 <= k < |front| :: ms[k] == front[k];
    forall i | 0 <= i < |cs| ensures ShapedAt(cs, ds, ms, shape, i) {
      TargetedGrows(cs, front, last, i);
      assert ShapedAt(cs, es, front, shape, i);
    }
  }

  ghost predicate KeepsNames(shape: Shaper) {
    forall c | shape(c).Ok? :: shape(c).value.name == c.name
  }

  /** Each destination is shaped once; every other container stays as it was. */
  lemma {:induction false} ContainersLaw(cs: seq<Container>, ms: seq<Mapping>, shape: Shaper)
    requires ShapeAll(cs, ms, shape).Ok? && Distinct(ms) && KeepsNames(shape)
    ensures Shaped(cs, ShapeAll(cs, ms, shape).value, ms, shape)
    decreases |ms|
  {
    if ms != [] {
      var front, last := ms[..|ms| - 1], ms[|ms| - 1];
      assert ms == front + [last];
      var es := ShapeAll(cs, front, shape).value;
      ContainersLaw(cs, front, shape);
      FindByNames(cs, es, last.destination);
      var at := Find(cs, last.destination).value;
      LastIsNew(cs, front, last, at);
      ShapedGrows(cs, es, front, last, shape, at, shape(es[at]).value);
    }
  }

  lemma ShapersKeepNames(options: Options)
    ensures KeepsNames(ShaperFor(options))
  {
    forall c: Container | EnsureContainer(c, options).Ok? ensures EnsureContainer(c, options).value.name == c.name {
      CompletedIsComplete(c, options);
    }
  }

  lemma LastIsNew(cs: seq<Container>, front: seq<Mapping>, last: Mapping, at: nat)
    requires Distinct(front + [last]) && Find(cs, last.destination) == Some(at)
    ensures !Targeted(cs, front, at)
  {
    assert (front + [last])[|front|] == last;
    assert forall k | 0 <= k < |front| :: (front + [last])[k] == front[k] && front[k].destination != last.destination;
  }

  /** The destination is there and passes. */
  predicate Passes(cs: seq<Container>, m: Mapping, check: Checker) {
    var at := Find(cs, m.destination);
    at.Some? && check(cs[at.value]).Ok?
  }

  lemma {:induction false} CheckedEverywhere(cs: seq<Container>, ms: seq<Mapping>, check: Checker)
    ensures CheckEach(cs, ms, check).Ok? <==> forall k | 0 <= k < |ms| :: Passes(cs, ms[k], check)
    decreases |ms|
  {
    if ms != [] {
      var front := ms[..|ms| - 1];
      CheckedEverywhere(cs, front, check);
      assert forall k | 0 <= k < |front| :: front[k] == ms[k];
    }
  }

  /** The destination is there, and shaping it again would change nothing. */
  predicate Steady(cs: seq<Container>, m: Mapping, shape: Shaper) {
    var at := Find(cs, m.destination);
    at.Some? && shape(cs[at.value]) == Ok(cs[at.value])
  }

  lemma {:induction false} ShapedStays(cs: seq<Container>, ms: seq<Mapping>, shape: Shaper)
    requires forall k | 0 <= k < |ms| :: Steady(cs, ms[k], shape)
    ensures ShapeAll(cs, ms, shape) == Ok(cs)
    decreases |ms|
  {
    if ms != [] {
      var front, last := ms[..|ms| - 1], ms[|ms| - 1];
      assert forall k | 0 <= k < |front| :: front[k] == ms[k];
      ShapedStays(cs, front, shape);
      var at := Find(cs, last.destination).value;
      assert Steady(cs, last, shape) && cs[at := cs[at]] == cs;
    }
  }

  /** What the shaper makes passes, and is left as it is from then on. */
  ghost predicate Settles(shape: Shaper, check: Checker) {
    forall c | shape(c).Ok? :: check(shape(c).value).Ok? && shape(shape(c).value) == shape(c)
  }

  lemma DestinationsSettle(cs: seq<Container>, ms: seq<Mapping>, shape: Shaper, check: Checker)
    requires ShapeAll(cs, ms, shape).Ok? && Distinct(ms) && KeepsNames(shape) && Settles(shape, check)
    ensures var ds := ShapeAll(cs, ms, shape).value;
            CheckEach(ds, ms, check).Ok? && ShapeAll(ds, ms, shape) == Ok(ds)
  {
    var ds := ShapeAll(cs, ms, shape).value;
    ContainersLaw(cs, ms, shape);
    forall k | 0 <= k < |ms| ensures Passes(ds, ms[k], check) && Steady(ds, ms[k], shape) {
      FindByNames(cs, ds, ms[k].destination);
      assert ShapedAt(cs, ds, ms, shape, Find(cs, ms[k].destination).value);
    }
    CheckedEverywhere(ds, ms, check);
    ShapedStays(ds, ms, shape);
  }

  lemma ShapersSettle(options: Options)
    ensures Settles(ShaperFor(options), CheckContainer) && Settles(ShaperFor(options), CheckerFor(options))
  {
    forall c: Container | EnsureContainer(c, options).Ok?
      ensures var d := EnsureContainer(c, options).value;
              CheckContainer(d).Ok? && CheckOptions(d, options).Ok? && EnsureContainer(d, options) == Ok(d)
    {
      ContainerLaw(c, options);
    }
  }

  lemma DestinationsLaw(cs: seq<Container>, ms: seq<Mapping>, options: Options)
    requires EnsureContainers(cs, ms, options).Ok? && Distinct(ms)
    ensures var ds := EnsureContainers(cs, ms, options).value;
            && CheckDestinations(ds, ms).Ok? && CheckAllOptions(ds, ms, options).Ok?
            && EnsureContainers(ds, ms, options) == Ok(ds)
  {
    ShapersKeepNames(options);
    ShapersSettle(options);
    DestinationsSettle(cs, ms, ShaperFor(options), CheckContainer);
    DestinationsSettle(cs, ms, ShaperFor(options), CheckerFor(options));
  }

  // Annotations.

  /** A request as `Normalize` leaves it. */
  predicate IsNormal(request: Request) {
    && IsSubdomain(request.snapshot) && IsLabel(request.source) && request.mappings != []
    && IsMapping(request.mappings, request.source)
  }

  lemma NormalizedIsNormal(request: Request)
    requires Normalize(request).Ok?
    ensures IsNormal(Normalize(request).value)
  {
    TrimIsIdempotent(request.source);
    var n := Normalize(request).value;
    CheckedIffMapping(n.mappings, n.source);
  }

  lemma WrittenMapChecks(request: Request)
    requires IsNormal(request)
    ensures CheckMap(Format(request.mappings), request).Ok?
  {
    FormatRoundTrip(request.mappings, request.source);
    LabelIsPlain(request.source);
    CheckedIffMapping(Parse(Format(request.mappings), request.source).value, request.source);
  }

  function Annotated(annotations: map<Text, Text>, request: Request): map<Text, Text> {
    Stored(annotations[RESTORE_FROM := request.snapshot], CONTAINER_MAP, Format(request.mappings))
  }

  lemma AnnotatedLookups(annotations: map<Text, Text>, request: Request)
    ensures var after := Annotated(annotations, request);
            && Lookup(after, RESTORE_FROM) == Some(request.snapshot) && Lookup(after, CONTAINER_MAP) == Format(request.mappings)
            && (forall key | key != RESTORE_FROM && key != CONTAINER_MAP :: Lookup(after, key) == Lookup(annotations, key))
            && Annotated(after, request) == after
  {
    NamesDiffer();
  }

  lemma AnnotationsLaw(annotations: map<Text, Text>, request: Request)
    requires IsNormal(request) && EnsureAnnotations(annotations, request).Ok?
    ensures var after := EnsureAnnotations(annotations, request).value;
            && CheckAnnotations(after, request).Ok? && EnsureAnnotations(after, request) == Ok(after)
            && (forall key | key != RESTORE_FROM && key != CONTAINER_MAP :: Lookup(after, key) == Lookup(annotations, key))
  {
    AnnotatedLookups(annotations, request);
    SubdomainIsPlain(request.snapshot);
    WrittenMapChecks(request);
  }

  // Pods.

  /** Once the passes succeed, the final validation cannot fail. */
  lemma ShapedIsCanonical(pod: Pod, request: Request, options: Options)
    requires IsNormal(request) && Shape(pod, request, options).Ok?
    ensures var shaped := Shape(pod, request, options).value;
            CheckCanonical(shaped, request, options).Ok? && Shape(shaped, request, options) == Ok(shaped)
  {
    AnnotationsLaw(pod.annotations, request);
    VolumeLaw(pod.volumes);
    DestinationsLaw(pod.containers, request.mappings, options);
  }

  lemma BuildNeverFailsItsOwnCheck(pod: Pod, request: Request, options: Options)
    requires Normalize(request).Ok?
    ensures Build(pod, request, options) == Shape(pod, Normalize(request).value, options)
  {
    NormalizedIsNormal(request);
    if Shape(pod, Normalize(request).value, options).Ok? { ShapedIsCanonical(pod, Normalize(request).value, options); }
  }

  /** What was built is valid, and building it again changes nothing. */
  lemma BuildIsIdempotent(pod: Pod, request: Request, options: Options)
    requires Build(pod, request, options).Ok?
    ensures var built := Build(pod, request, options).value;
            Validate(built, request).Ok? && Build(built, request, options) == Ok(built)
  {
    var normal := Normalize(request).value;
    NormalizedIsNormal(request);
    ShapedIsCanonical(pod, normal, options);
  }

  /**
   A destination keeps all that its owner wrote and gains exactly what was missing; all other
   containers, other annotations and other volumes stay as they were.
   */
  lemma BuildFrame(pod: Pod, request: Request, options: Options)
    requires Build(pod, request, options).Ok?
    ensures var built, normal := Build(pod, request, options).value, Normalize(request).value;
            && built.other == pod.other && |built.containers| == |pod.containers|
            && (built.volumes == pod.volumes || built.volumes == pod.volumes + [Volume(CONTROL_VOLUME, VolumeSource(Some(0), None))])
            && (forall key | key != RESTORE_FROM && key != CONTAINER_MAP :: Lookup(built.annotations, key) == Lookup(pod.annotations, key))
            && (forall i | 0 <= i < |pod.containers| ::
                  built.containers[i] ==
                    if Targeted(pod.containers, normal.mappings, i) then Completed(pod.containers[i], options) else pod.containers[i])
  {
    var built, normal := Build(pod, request, options).value, Normalize(request).value;
    NormalizedIsNormal(request);
    AnnotationsLaw(pod.annotations, normal);
    VolumeLaw(pod.volumes);
    ShapersKeepNames(options);
    ContainersLaw(pod.containers, normal.mappings, ShaperFor(options));
    forall i | 0 <= i < |pod.containers|
      ensures built.containers[i] ==
                if Targeted(pod.containers, normal.mappings, i) then Completed(pod.containers[i], options) else pod.containers[i]
    {
      assert ShapedAt(pod.containers, built.containers, normal.mappings, ShaperFor(options), i);
      if Targeted(pod.containers, normal.mappings, i) { ContainerLaw(pod.containers[i], options); }
    }
  }

  // Pods that are valid already.

  const NO_OPTIONS := Options([], false)

  lemma CheckedCanBeShaped(c: Container)
    requires CheckContainer(c).Ok?
    ensures EnsureContainer(c, NO_OPTIONS).Ok?
  {
  }

  lemma {:induction false} PassingCanBeShaped(cs: seq<Container>, ms: seq<Mapping>, shape: Shaper, check: Checker)
    requires CheckEach(cs, ms, check).Ok? && Distinct(ms) && KeepsNames(shape)
    requires forall c | check(c).Ok? :: shape(c).Ok?
    ensures ShapeAll(cs, ms, shape).Ok?
    decreases |ms|
  {
    if ms != [] {
      var front, last := ms[..|ms| - 1], ms[|ms| - 1];
      assert ms == front + [last];
      PassingCanBeShaped(cs, front, shape, check);
      var es := ShapeAll(cs, front, shape).value;
      ContainersLaw(cs, front, shape);
      FindByNames(cs, es, last.destination);
      var at := Find(cs, last.destination).value;
      LastIsNew(cs, front, last, at);
      assert ShapedAt(cs, es, front, shape, at);
    }
  }

  /** Without options, every Pod that passes validation can be built. */
  lemma ValidPodsCanBeBuilt(pod: Pod, request: Request)
    requires Validate(pod, request).Ok?
    ensures Build(pod, request, NO_OPTIONS).Ok?
  {
    var normal := Normalize(request).value;
    NormalizedIsNormal(request);
    ShapersKeepNames(NO_OPTIONS);
    forall c: Container | CheckContainer(c).Ok? ensures EnsureContainer(c, NO_OPTIONS).Ok? { CheckedCanBeShaped(c); }
    PassingCanBeShaped(pod.containers, normal.mappings, ShaperFor(NO_OPTIONS), CheckContainer);
    BuildNeverFailsItsOwnCheck(pod, request, NO_OPTIONS);
  }
}
