/**
 The shaper in the form of restore_pod.go: passes that append to or overwrite a
 deep copy of the caller's Pod, and scans with a `found` flag.
 */
module RestorePodBuilder {
  import opened ContainerMappings
  import opened RestorePods
  import opened RestorePodLaws
  import opened RestorePodMeaning
  import opened Texts

  method HasValidControlVolume(volumes: seq<Volume>) returns (r: Result<bool>)
    ensures r == ControlVolume(volumes)
  {
    var found := false;
    for i := 0 to |volumes|
      invariant ControlVolume(volumes[..i]) == Ok(found)
    {
      assert volumes[..i + 1][..i] == volumes[..i];
      if volumes[i].name == CONTROL_VOLUME {
        if found || !IsEmptyDir(volumes[i]) {
          ScanErrorStays(volumes, IsControlVolume, IsEmptyDir, i + 1);
          return Err(if found then DuplicateControl else ConflictingControl);
        }
        found := true;
      }
    }
    assert volumes[..|volumes|] == volumes;
    return Ok(found);
  }

  method HasValidControlMount(c: Container) returns (r: Result<bool>)
    ensures r == ControlMount(c)
  {
    var found := false;
    for i := 0 to |c.mounts|
      invariant Scan(c.mounts[..i], IsControlMount, ValidMountFor(c.name)) == Ok(found)
    {
      assert c.mounts[..i + 1][..i] == c.mounts[..i];
      if c.mounts[i].name == CONTROL_VOLUME || c.mounts[i].path == CONTROL_PATH {
        if found || !IsValidMount(c.name, c.mounts[i]) {
          ScanErrorStays(c.mounts, IsControlMount, ValidMountFor(c.name), i + 1);
          return Err(if found then DuplicateControl else ConflictingControl);
        }
        found := true;
      }
    }
    assert c.mounts[..|c.mounts|] == c.mounts;
    return Ok(found);
  }

  method HasValidControlEnv(c: Container, name: Text) returns (r: Result<bool>)
    ensures r == ControlEnv(c, name)
  {
    var found := false;
    for i := 0 to |c.env|
      invariant Scan(c.env[..i], Named(name), IsControlVariable) == Ok(found)
    {
      assert c.env[..i + 1][..i] == c.env[..i];
      if c.env[i].name == name {
        if found || !IsControlVariable(c.env[i]) {
          ScanErrorStays(c.env, Named(name), IsControlVariable, i + 1);
          return Err(if found then DuplicateControl else ConflictingControl);
        }
        found := true;
      }
    }
    assert c.env[..|c.env|] == c.env;
    return Ok(found);
  }

  method FindContainer(containers: seq<Container>, name: Text) returns (at: Option<nat>)
    ensures at == Find(containers, name)
  {
    for i := 0 to |containers|
      invariant forall k | 0 <= k < i :: containers[k].name != name
    {
      if containers[i].name == name { return Some(i); }
    }
    return None;
  }

  /** The passes over one destination, in order. */
  method EnsureDestination(container: Container, options: Options) returns (r: Result<Container>)
    ensures r == EnsureContainer(container, options)
  {
    r := EnsureSeccomp(container, options.seccomp);
    if r.Err? { return; }
    var c := r.value;
    var mount := HasValidControlMount(c);
    if mount.Err? { return Err(mount.error); }
    if !mount.value {
      c := c.(mounts := c.mounts + [Mount(CONTROL_VOLUME, CONTROL_PATH, c.name, false, None, [], None)]);
    }
    var variable := HasValidControlEnv(c, CONTROL_ENV);
    if variable.Err? { return Err(variable.error); }
    if !variable.value { c := c.(env := c.env + [Variable(CONTROL_ENV, CONTROL_PATH, None)]); }
    var legacy := HasValidControlEnv(c, LEGACY_CONTROL_ENV);
    if legacy.Err? { return Err(legacy.error); }
    if !legacy.value { c := c.(env := c.env + [Variable(LEGACY_CONTROL_ENV, CONTROL_PATH, None)]); }
    if options.startupGate { c := c.(probe := Some(CanonicalProbe())); }
    return Ok(c);
  }

  lemma {:induction false} ShapeErrorStays(cs: seq<Container>, ms: seq<Mapping>, shape: Shaper, n: nat)
    requires n <= |ms| && ShapeAll(cs, ms[..n], shape).Err?
    ensures ShapeAll(cs, ms, shape) == ShapeAll(cs, ms[..n], shape)
    decreases |ms|
  {
    if n == |ms| {
      assert ms[..n] == ms;
    } else {
      assert ms[..|ms| - 1][..n] == ms[..n];
      ShapeErrorStays(cs, ms[..|ms| - 1], shape, n);
    }
  }

  lemma {:induction false} CheckErrorStays(cs: seq<Container>, ms: seq<Mapping>, check: Checker, n: nat)
    requires n <= |ms| && CheckEach(cs, ms[..n], check).Err?
    ensures CheckEach(cs, ms, check) == CheckEach(cs, ms[..n], check)
    decreases |ms|
  {
    if n == |ms| {
      assert ms[..n] == ms;
    } else {
      assert ms[..|ms| - 1][..n] == ms[..n];
      CheckErrorStays(cs, ms[..|ms| - 1], check, n);
    }
  }

  /** The checks of one kind over all destinations, up to the first that fails. */
  method CheckThrough(containers: seq<Container>, mappings: seq<Mapping>, check: Checker) returns (r: Result<()>)
    ensures r == CheckEach(containers, mappings, check)
  {
    r := Ok(());
    for i := 0 to |mappings|
      invariant r.Ok? && CheckEach(containers, mappings[..i], check) == r
    {
      assert mappings[..i + 1][..i] == mappings[..i];
      var at := FindContainer(containers, mappings[i].destination);
      r := if at.None? then Err(NoSuchContainer) else check(containers[at.value]);
      if r.Err? {
        CheckErrorStays(containers, mappings, check, i + 1);
        return;
      }
    }
    assert mappings[..|mappings|] == mappings;
  }

  class RestorePod {
    var annotations: map<Text, Text>
    var volumes: seq<Volume>
    var containers: seq<Container>
    const other: nat

    constructor (pod: Pod)
      ensures View() == pod
    {
      annotations, volumes, containers, other := pod.annotations, pod.volumes, pod.containers, pod.other;
    }

    function View(): Pod
      reads this
    {
      Pod(annotations, volumes, containers, other)
    }

    method EnsureRestoreAnnotations(request: Request) returns (r: Result<()>)
      modifies this`annotations
      ensures r == (match EnsureAnnotations(old(annotations), request) case Ok(_) => Ok(()) case Err(e) => Err(e))
      ensures r.Ok? ==> annotations == EnsureAnnotations(old(annotations), request).value
    {
      NamesDiffer();
      if RESTORE_FROM in annotations {
        var resolved := SnapshotName(annotations[RESTORE_FROM]);
        if resolved.Err? { return Err(resolved.error); }
        if resolved.value != request.snapshot { return Err(SnapshotConflict); }
      }
      annotations := annotations[RESTORE_FROM := request.snapshot];
      var formatted := Format(request.mappings);
      if CONTAINER_MAP in annotations {
        var existing := ParseAll(Some(annotations[CONTAINER_MAP]), request.source);
        if existing.Err? { return Err(existing.error); }
        var checked := CheckAll(existing.value, request.source);
        if checked.Err? { return checked; }
        var same := SameMappings(existing.value, request.mappings);
        if !same { return Err(MappingConflict); }
        if formatted.None? {
          annotations := annotations - {CONTAINER_MAP};
          return Ok(());
        }
      }
      if formatted.Some? { annotations := annotations[CONTAINER_MAP := formatted.value]; }
      return Ok(());
    }

    method EnsureControlVolume() returns (r: Result<()>)
      modifies this`volumes
      ensures r == (match EnsureVolume(old(volumes)) case Ok(_) => Ok(()) case Err(e) => Err(e))
      ensures r.Ok? ==> volumes == EnsureVolume(old(volumes)).value
    {
      var found := HasValidControlVolume(volumes);
      if found.Err? { return Err(found.error); }
      if !found.value { volumes := volumes + [Volume(CONTROL_VOLUME, VolumeSource(Some(0), None))]; }
      return Ok(());
    }

    /** Shapes the destinations one after the other, in place. */
    method EnsureDestinations(mappings: seq<Mapping>, options: Options) returns (r: Result<()>)
      modifies this`containers
      ensures r == (match EnsureContainers(old(containers), mappings, options) case Ok(_) => Ok(()) case Err(e) => Err(e))
      ensures r.Ok? ==> containers == EnsureContainers(old(containers), mappings, options).value
    {
      for i := 0 to |mappings|
        invariant EnsureContainers(old(containers), mappings[..i], options) == Ok(containers)
      {
        assert mappings[..i + 1][..i] == mappings[..i];
        var at := FindContainer(containers, mappings[i].destination);
        if at.None? {
          ShapeErrorStays(old(containers), mappings, ShaperFor(options), i + 1);
          return Err(NoSuchContainer);
        }
        var shaped := EnsureDestination(containers[at.value], options);
        if shaped.Err? {
          ShapeErrorStays(old(containers), mappings, ShaperFor(options), i + 1);
          return Err(shaped.error);
        }
        containers := containers[at.value := shaped.value];
      }
      assert mappings[..|mappings|] == mappings;
      return Ok(());
    }

    method ValidateMinimum(request: Request) returns (r: Result<()>)
      ensures r == CheckMinimum(View(), request)
      ensures IsNormal(request) ==> (r.Ok? <==> Restores(View(), request))
    {
      if IsNormal(request) { MinimumMeaning(View(), request); }
      var checked := CheckAnnotations(annotations, request);
      if checked.Err? { return checked; }
      var volume := HasValidControlVolume(volumes);
      if volume.Err? { return Err(volume.error); }
      if !volume.value { return Err(MissingControl); }
      r := CheckThrough(containers, request.mappings, CheckContainer);
    }

    method ValidateCanonical(request: Request, options: Options) returns (r: Result<()>)
      ensures r == CheckCanonical(View(), request, options)
    {
      r := ValidateMinimum(request);
      if r.Ok? { r := CheckThrough(containers, request.mappings, CheckerFor(options)); }
    }

    /** All passes over the copy. */
    method EnsureAll(request: Request, options: Options) returns (r: Result<()>)
      modifies this
      ensures r == (match Shape(old(View()), request, options) case Ok(_) => Ok(()) case Err(e) => Err(e))
      ensures r.Ok? ==> View() == Shape(old(View()), request, options).value
    {
      r := EnsureRestoreAnnotations(request);
      if r.Ok? { r := EnsureControlVolume(); }
      if r.Ok? { r := EnsureDestinations(request.mappings, options); }
    }
  }

  /**
   Works on a deep copy and leaves the Pod it was given alone. The copy is validated before it is
   returned (which `BuildNeverFailsItsOwnCheck` shows to succeed).
   */
  method BuildPod(pod: RestorePod?, request: Request, options: Options) returns (r: Result<RestorePod>)
    ensures pod == null ==> r == Err(NilPod)
    ensures pod != null && r.Ok? ==> fresh(r.value) && Build(pod.View(), request, options) == Ok(r.value.View())
    ensures pod != null && r.Err? ==> Build(pod.View(), request, options) == Err(r.error)
    ensures pod != null ==> (r.Ok? <==> IsNormal(Plain(request)) && CanRestore(pod.View(), Plain(request), options))
  {
    if pod != null { BuildMeaning(pod.View(), request, options); }
    if pod == null { return Err(NilPod); }
    var normal := Normalize(request);
    if normal.Err? { return Err(normal.error); }
    var result := new RestorePod(pod.View());
    var shaped := result.EnsureAll(normal.value, options);
    if shaped.Err? { return Err(shaped.error); }
    var checked := result.ValidateCanonical(normal.value, options);
    if checked.Err? { return Err(checked.error); }
    return Ok(result);
  }

  /** The agent's check: it reads the Pod and changes nothing. */
  method ValidatePod(pod: RestorePod?, request: Request) returns (r: Result<()>)
    ensures r.Ok? <==> pod != null && IsNormal(Plain(request)) && Restores(pod.View(), Plain(request))
  {
    NormalMeaning(request);
    var normal := Normalize(request);
    if normal.Err? { return Err(normal.error); }
    if pod == null { return Err(NilPod); }
    r := pod.ValidateMinimum(normal.value);
  }
}
