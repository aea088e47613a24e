/**
 Shaping a Pod so that it restores a snapshot: the annotations, the control
 volume, and for each destination container its control mount, its environment,
 its seccomp profile and its startup gate. Whatever the shaper does not look at
 is kept in one opaque field per object.
 */
module RestorePods {
  import opened ContainerMappings
  import opened Texts

  // The Pod.

  datatype VolumeSource = VolumeSource(emptyDir: Option<nat>, other: Option<nat>)

  datatype Volume = Volume(name: Text, source: VolumeSource)

  datatype Propagation = NoPropagation | HostToContainer | Bidirectional

  datatype Mount = Mount(
    name: Text, path: Text, subPath: Text, readOnly: bool, recursiveReadOnly: Option<Text>,
    subPathExpr: Text, propagation: Option<Propagation>)

  datatype Variable = Variable(name: Text, value: Text, valueFrom: Option<nat>)

  datatype Probe = Probe(command: seq<Text>, timeout: int, period: int, failures: int, successes: int, other: nat)

  datatype ProfileType = Localhost | RuntimeDefault | Unconfined

  datatype Profile = Profile(kind: ProfileType, localhost: Option<Text>)

  datatype SecurityContext = SecurityContext(seccomp: Option<Profile>, other: nat)

  datatype Container = Container(
    name: Text, command: seq<Text>, env: seq<Variable>, mounts: seq<Mount>, probe: Option<Probe>,
    security: Option<SecurityContext>, other: nat)

  datatype Pod = Pod(annotations: map<Text, Text>, volumes: seq<Volume>, containers: seq<Container>, other: nat)

  datatype Request = Request(snapshot: Text, source: Text, mappings: seq<Mapping>)

  /** `seccomp` is empty where the profile is left to the caller. */
  datatype Options = Options(seccomp: Text, startupGate: bool)

  const RESTORE_FROM: Text := Ascii("nvidia.com/restore-from")
  const CONTAINER_MAP: Text := Ascii("nvidia.com/restore-container-map")
  const CONTROL_VOLUME: Text := Ascii("snapshot-control")
  const CONTROL_PATH: Text := Ascii("/snapshot-control")
  const CONTROL_ENV: Text := Ascii("SNAPSHOT_CONTROL_DIR")
  const LEGACY_CONTROL_ENV: Text := Ascii("DYN_SNAPSHOT_CONTROL_DIR")

  // Looking for the one entry that matters.

  /** Whether a valid relevant item is there; a second one, or an invalid one, is an error. */
  function Scan<T>(items: seq<T>, relevant: T -> bool, valid: T -> bool): Result<bool> {
    if items == [] then Ok(false) else
    var front, last := Scan(items[..|items| - 1], relevant, valid), items[|items| - 1];
    if front.Err? || !relevant(last) then front else
    if front.value then Err(DuplicateControl) else
    if !valid(last) then Err(ConflictingControl) else Ok(true)
  }

  lemma {:induction false} ScanErrorStays<T>(items: seq<T>, relevant: T -> bool, valid: T -> bool, n: nat)
    requires n <= |items| && Scan(items[..n], relevant, valid).Err?
    ensures Scan(items, relevant, valid) == Scan(items[..n], relevant, valid)
    decreases |items|
  {
    if n == |items| {
      assert items[..n] == items;
    } else {
      assert items[..|items| - 1][..n] == items[..n];
      ScanErrorStays(items[..|items| - 1], relevant, valid, n);
    }
  }

  /** The scan finds an item exactly if one and only one is relevant, and that one is valid. */
  lemma {:induction false} ScanMeaning<T>(items: seq<T>, relevant: T -> bool, valid: T -> bool)
    ensures Scan(items, relevant, valid) == Ok(false) <==> forall i | 0 <= i < |items| :: !relevant(items[i])
    ensures Scan(items, relevant, valid) == Ok(true) <==>
            exists i | 0 <= i < |items| ::
              relevant(items[i]) && valid(items[i]) && forall j | 0 <= j < |items| && j != i :: !relevant(items[j])
    decreases |items|
  {
    if items != [] {
      var front, last := items[..|items| - 1], items[|items| - 1];
      ScanMeaning(front, relevant, valid);
      assert forall i | 0 <= i < |front| :: front[i] == items[i];
      if i :| 0 <= i < |items| && relevant(items[i]) && valid(items[i]) && forall j | 0 <= j < |items| && j != i :: !relevant(items[j]) {
        if i < |front| { assert relevant(front[i]) && forall j | 0 <= j < |front| && j != i :: !relevant(front[j]); }
      }
      if Scan(items, relevant, valid) == Ok(true) {
        if relevant(last) {
          assert forall j | 0 <= j < |items| && j != |front| :: items[j] == front[j];
        } else {
          var i :| 0 <= i < |front| && relevant(front[i]) && valid(front[i]) && forall j | 0 <= j < |front| && j != i :: !relevant(front[j]);
          assert relevant(items[i]) && valid(items[i]);
          assert forall j | 0 <= j < |items| && j != i :: items[j] == (if j == |front| then last else front[j]);
        }
      }
    }
  }

  lemma Scanned<T>(items: seq<T>, x: T, relevant: T -> bool, valid: T -> bool)
    ensures Scan(items, relevant, valid) == Ok(false) && relevant(x) && valid(x) ==> Scan(items + [x], relevant, valid) == Ok(true)
    ensures !relevant(x) ==> Scan(items + [x], relevant, valid) == Scan(items, relevant, valid)
  {
    assert (items + [x])[..|items|] == items;
  }

  // The parts of a destination.

  predicate IsControlVolume(v: Volume) {
    v.name == CONTROL_VOLUME
  }

  predicate IsEmptyDir(v: Volume) {
    v.source.emptyDir.Some? && v.source.other.None?
  }

  predicate IsControlMount(m: Mount) {
    m.name == CONTROL_VOLUME || m.path == CONTROL_PATH
  }

  predicate IsValidMount(container: Text, m: Mount) {
    && m.name == CONTROL_VOLUME && m.path == CONTROL_PATH && m.subPath == container
    && !m.readOnly && m.recursiveReadOnly.None? && m.subPathExpr == []
    && (m.propagation.None? || m.propagation.value == NoPropagation)
  }

  function ValidMountFor(container: Text): Mount -> bool {
    (m: Mount) => IsValidMount(container, m)
  }

  function Named(name: Text): Variable -> bool {
    (v: Variable) => v.name == name
  }

  predicate IsControlVariable(v: Variable) {
    v.value == CONTROL_PATH && v.valueFrom.None?
  }

  function ControlVolume(volumes: seq<Volume>): Result<bool> {
    Scan(volumes, IsControlVolume, IsEmptyDir)
  }

  function ControlMount(c: Container): Result<bool> {
    Scan(c.mounts, IsControlMount, ValidMountFor(c.name))
  }

  function ControlEnv(c: Container, name: Text): Result<bool> {
    Scan(c.env, Named(name), IsControlVariable)
  }

  function Needed(found: Result<bool>): Result<()> {
    if found.Err? then Err(found.error) else if !found.value then Err(MissingControl) else Ok(())
  }

  function EnsureVolume(volumes: seq<Volume>): Result<seq<Volume>> {
    var found := ControlVolume(volumes);
    if found.Err? then Err(found.error) else
    if found.value then Ok(volumes) else Ok(volumes + [Volume(CONTROL_VOLUME, VolumeSource(Some(0), None))])
  }

  function EnsureMount(c: Container): Result<Container> {
    var found := ControlMount(c);
    if found.Err? then Err(found.error) else
    if found.value then Ok(c) else
    Ok(c.(mounts := c.mounts + [Mount(CONTROL_VOLUME, CONTROL_PATH, c.name, false, None, [], None)]))
  }

  function EnsureVariable(c: Container, name: Text): Result<Container> {
    var found := ControlEnv(c, name);
    if found.Err? then Err(found.error) else
    if found.value then Ok(c) else Ok(c.(env := c.env + [Variable(name, CONTROL_PATH, None)]))
  }

  function EnsureEnvironment(c: Container): Result<Container> {
    var first := EnsureVariable(c, CONTROL_ENV);
    if first.Err? then first else EnsureVariable(first.value, LEGACY_CONTROL_ENV)
  }

  function LocalProfile(profile: Text): Profile {
    Profile(Localhost, Some(profile))
  }

  function CheckSeccomp(c: Container, expected: Text): Result<()> {
    if expected == [] then Ok(()) else
    if c.security.Some? && c.security.value.seccomp == Some(LocalProfile(expected)) then Ok(()) else Err(ConflictingSeccomp)
  }

  function EnsureSeccomp(c: Container, expected: Text): Result<Container> {
    if expected == [] then Ok(c) else
    var security := if c.security.None? then SecurityContext(None, 0) else c.security.value;
    if security.seccomp.None? then Ok(c.(security := Some(security.(seccomp := Some(LocalProfile(expected)))))) else
    if CheckSeccomp(c, expected).Err? then Err(ConflictingSeccomp) else Ok(c)
  }

  /** Reads the completion file once a second for half an hour. */
  function CanonicalProbe(): Probe {
    Probe([Ascii("cat"), CONTROL_PATH + [47] + Ascii("restore-complete")], 1, 1, 1800, 1, 0)
  }

  function EnsureContainer(c: Container, options: Options): Result<Container> {
    var c := EnsureSeccomp(c, options.seccomp);
    if c.Err? then c else
    var c := EnsureMount(c.value);
    if c.Err? then c else
    var c := EnsureEnvironment(c.value);
    if c.Err? then c else
    Ok(if options.startupGate then c.value.(probe := Some(CanonicalProbe())) else c.value)
  }

  function CheckContainer(c: Container): Result<()> {
    var mount := Needed(ControlMount(c));
    if mount.Err? then mount else
    var variable := Needed(ControlEnv(c, CONTROL_ENV));
    if variable.Err? then variable else
    var legacy := ControlEnv(c, LEGACY_CONTROL_ENV);
    if legacy.Err? then Err(legacy.error) else Ok(())
  }

  function CheckOptions(c: Container, options: Options): Result<()> {
    if options.startupGate && c.probe != Some(CanonicalProbe()) then Err(ConflictingProbe) else
    CheckSeccomp(c, options.seccomp)
  }

  /** The first container of that name. */
  function Find(containers: seq<Container>, name: Text): (r: Option<nat>)
    ensures r.Some? ==> r.value < |containers| && containers[r.value].name == name && forall i | 0 <= i < r.value :: containers[i].name != name
    ensures r.None? ==> forall i | 0 <= i < |containers| :: containers[i].name != name
  {
    FindFrom(containers, name, 0)
  }

  function FindFrom(containers: seq<Container>, name: Text, from: nat): (r: Option<nat>)
    requires from <= |containers|
    ensures r.Some? ==> from <= r.value < |containers| && containers[r.value].name == name && forall i | from <= i < r.value :: containers[i].name != name
    ensures r.None? ==> forall i | from <= i < |containers| :: containers[i].name != name
    decreases |containers| - from
  {
    if from == |containers| then None else
    if containers[from].name == name then Some(from) else FindFrom(containers, name, from + 1)
  }

  type Shaper = Container -> Result<Container>

  type Checker = Container -> Result<()>

  function ShaperFor(options: Options): Shaper {
    (c: Container) => EnsureContainer(c, options)
  }

  function CheckerFor(options: Options): Checker {
    (c: Container) => CheckOptions(c, options)
  }

  /** One destination after the other. */
  function ShapeAll(containers: seq<Container>, mappings: seq<Mapping>, shape: Shaper): Result<seq<Container>> {
    if mappings == [] then Ok(containers) else
    var done := ShapeAll(containers, mappings[..|mappings| - 1], shape);
    if done.Err? then done else
    var at := Find(done.value, mappings[|mappings| - 1].destination);
    if at.None? then Err(NoSuchContainer) else
    var shaped := shape(done.value[at.value]);
    if shaped.Err? then Err(shaped.error) else Ok(done.value[at.value := shaped.value])
  }

  function CheckEach(containers: seq<Container>, mappings: seq<Mapping>, check: Checker): Result<()> {
    if mappings == [] then Ok(()) else
    var done := CheckEach(containers, mappings[..|mappings| - 1], check);
    if done.Err? then done else
    var at := Find(containers, mappings[|mappings| - 1].destination);
    if at.None? then Err(NoSuchContainer) else check(containers[at.value])
  }

  function EnsureContainers(containers: seq<Container>, mappings: seq<Mapping>, options: Options): Result<seq<Container>> {
    ShapeAll(containers, mappings, ShaperFor(options))
  }

  function CheckDestinations(containers: seq<Container>, mappings: seq<Mapping>): Result<()> {
    CheckEach(containers, mappings, CheckContainer)
  }

  function CheckAllOptions(containers: seq<Container>, mappings: seq<Mapping>, options: Options): Result<()> {
    CheckEach(containers, mappings, CheckerFor(options))
  }

  // Annotations.

  function SnapshotName(value: Text): Result<Text> {
    var name := TrimSpace(value);
    if name == [] then Err(NoSnapshotName) else
    if !IsSubdomain(name) then Err(InvalidSnapshotName) else Ok(name)
  }

  function Lookup(annotations: map<Text, Text>, key: Text): Option<Text> {
    if key in annotations then Some(annotations[key]) else None
  }

  function Stored(annotations: map<Text, Text>, key: Text, value: Option<Text>): map<Text, Text> {
    if value.Some? then annotations[key := value.value] else annotations - {key}
  }

  function Normalize(request: Request): Result<Request> {
    var snapshot := SnapshotName(request.snapshot);
    if snapshot.Err? then Err(snapshot.error) else
    var source := TrimSpace(request.source);
    var mappings := if request.mappings == [] then [Mapping(source, source)] else request.mappings;
    var checked := ValidateMappings(mappings, source);
    if checked.Err? then Err(checked.error) else Ok(Request(snapshot.value, source, mappings))
  }

  /** A mapping annotation, if any, must say what the request says. */
  function CheckMap(annotation: Option<Text>, request: Request): Result<()> {
    var existing := Parse(annotation, request.source);
    if existing.Err? then Err(existing.error) else
    var checked := ValidateMappings(existing.value, request.source);
    if checked.Err? then checked else
    if !Same(existing.value, request.mappings) then Err(MappingConflict) else Ok(())
  }

  function EnsureAnnotations(annotations: map<Text, Text>, request: Request): Result<map<Text, Text>> {
    var from, existing := Lookup(annotations, RESTORE_FROM), Lookup(annotations, CONTAINER_MAP);
    var resolved := if from.Some? then SnapshotName(from.value) else Ok(request.snapshot);
    if resolved.Err? then Err(resolved.error) else
    if resolved.value != request.snapshot then Err(SnapshotConflict) else
    var checked := if existing.Some? then CheckMap(existing, request) else Ok(());
    if checked.Err? then Err(checked.error) else
    Ok(Stored(annotations[RESTORE_FROM := request.snapshot], CONTAINER_MAP, Format(request.mappings)))
  }

  function CheckAnnotations(annotations: map<Text, Text>, request: Request): Result<()> {
    var from := Lookup(annotations, RESTORE_FROM);
    var resolved := SnapshotName(if from.Some? then from.value else []);
    if resolved.Err? then Err(resolved.error) else
    if resolved.value != request.snapshot then Err(SnapshotConflict) else
    CheckMap(Lookup(annotations, CONTAINER_MAP), request)
  }

  // The whole.

  function Shape(pod: Pod, request: Request, options: Options): Result<Pod> {
    var annotations := EnsureAnnotations(pod.annotations, request);
    if annotations.Err? then Err(annotations.error) else
    var volumes := EnsureVolume(pod.volumes);
    if volumes.Err? then Err(volumes.error) else
    var containers := EnsureContainers(pod.containers, request.mappings, options);
    if containers.Err? then Err(containers.error) else
    Ok(pod.(annotations := annotations.value, volumes := volumes.value, containers := containers.value))
  }

  function CheckMinimum(pod: Pod, request: Request): Result<()> {
    var annotations := CheckAnnotations(pod.annotations, request);
    if annotations.Err? then annotations else
    var volume := Needed(ControlVolume(pod.volumes));
    if volume.Err? then volume else CheckDestinations(pod.containers, request.mappings)
  }

  function CheckCanonical(pod: Pod, request: Request, options: Options): Result<()> {
    var minimum := CheckMinimum(pod, request);
    if minimum.Err? then minimum else CheckAllOptions(pod.containers, request.mappings, options)
  }

  function Build(pod: Pod, request: Request, options: Options): Result<Pod> {
    var normal := Normalize(request);
    if normal.Err? then Err(normal.error) else
    var shaped := Shape(pod, normal.value, options);
    if shaped.Err? then shaped else
    var checked := CheckCanonical(shaped.value, normal.value, options);
    if checked.Err? then Err(checked.error) else shaped
  }

  function Validate(pod: Pod, request: Request): Result<()> {
    var normal := Normalize(request);
    if normal.Err? then Err(normal.error) else CheckMinimum(pod, normal.value)
  }
}
