/**
 One PageBroker transaction as a value: the fields of `Transaction`, the shared
 admission pool it draws on and the staging directories on disk, together with
 one function per operation of transaction.cpp. Time, failures of the
 filesystem and everything an engine decides arrive as arguments.
 */
module Lifecycle {

  type Id = string
  type Time = nat

  datatype Option<+T> = None | Some(value: T)

  /** A staging path names the transaction it belongs to. `NoPath` is the empty path. */
  datatype Path =
    | NoPath
    | Staging(restore: bool, id: Id)
    | Beside(published: string, id: Id)

  datatype State = New | Preparing | Staged | Aborting | Committed | Aborted

  datatype Descriptor =
    | Monostate
    | Restore(dir: Path)
    | Checkpoint(dir: Path, direct: bool)

  datatype Publication = Publication(artifact: string, pending: bool, published: bool)

  datatype Direction = CheckpointGpu | RestoreGpu

  datatype GpuRequest = GpuRequest(
    direction: Direction,
    capturedPids: seq<nat>,
    visibleDevices: seq<string>,
    deviceMap: seq<(string, string)>,
    targets: seq<nat>)

  datatype GpuResult = Succeeded(bytes: seq<nat>) | Failed(code: nat)

  datatype GpuState = Ready | Running | Finished

  /** `artifact` and `pidfds` tell whether the engine artifact and the target pidfds are still held. */
  datatype GpuOperation = GpuOperation(
    state: GpuState,
    artifact: bool,
    request: GpuRequest,
    pidfds: bool,
    result: GpuResult)

  /** Where the holder of the transaction mutex stands; `Free` when nobody holds it. */
  datatype Phase =
    | Free
    | RestoreScanning(direct: bool, artifact: bool)
    | RestoreSpacing(artifact: bool, bytes: nat)
    | RestoreCreating(artifact: bool, bytes: nat)
    | RestoreCopying(direct: bool, bytes: nat)
    | CheckpointOpening(direct: bool, artifact: bool)
    | CommitInspecting
    | CommitPublishing

  /** What a transaction holds: `limited` says that `resources_` is set, `dir` is `transfer_directory_`. */
  datatype Hold = Hold(
    limited: bool,
    reserved: nat,
    released: bool,
    pub: Option<Publication>,
    dir: Path)

  /** `deadline` is `None` for the largest time point; `phase` and `waiters` stand for the threads at work. */
  datatype Txn = Txn(
    id: Id,
    state: State,
    desc: Descriptor,
    retained: bool,
    cancelled: bool,
    deadline: Option<Time>,
    expired: bool,
    gpu: Option<GpuOperation>,
    hold: Hold,
    phase: Phase,
    waiters: nat)

  /** Signed counters, so that an underflow would show. */
  datatype Pool = Pool(
    byteLimit: nat,
    transactionLimit: nat,
    reserved: int,
    active: int,
    destinations: set<string>)

  /** The accounts between which bytes, slots, destinations and directories change hands. */
  datatype Books = Books(hold: Hold, pool: Pool, dirs: set<Path>)

  /** What one holder of a transaction mutex can touch. */
  datatype Ctx = Ctx(t: Txn, pool: Pool, dirs: set<Path>)

  datatype Admission = Admitted | LimitReached | DestinationOwned

  const CHECKPOINT_ADMISSION_BYTES: nat := 1

  const NOTHING_HELD := Hold(false, 0, false, None, NoPath)

  function Fresh(id: Id): Txn {
    Txn(id, New, Monostate, false, false, None, false, None, NOTHING_HELD, Free, 0)
  }

  predicate Terminal(t: Txn) {
    t.state == Committed || t.state == Aborted
  }

  predicate Pending(hold: Hold) {
    hold.dir != NoPath || (hold.limited && !hold.released)
  }

  predicate HasPendingCleanup(t: Txn) {
    Pending(t.hold)
  }

  predicate CanRetainTerminal(t: Txn) {
    !t.retained && Terminal(t) && !HasPendingCleanup(t)
  }

  predicate Expired(t: Txn, now: Time) {
    t.deadline.Some? && !Terminal(t) && (t.expired || now >= t.deadline.value)
  }

  /** `cancellation().ThrowIfCancelled()` would throw at time `now`. */
  predicate Stopped(t: Txn, now: Time) {
    t.cancelled || (t.deadline.Some? && now >= t.deadline.value)
  }

  predicate GpuRunning(t: Txn) {
    t.gpu.Some? && t.gpu.value.state == Running
  }

  /** What a successful Commit reply carries. */
  function Payload(hold: Hold): Option<string> {
    if hold.pub.Some? && hold.pub.value.published then Some(hold.pub.value.artifact) else None
  }

  // Accounts.

  function ReleaseReservation(b: Books): Books {
    if !b.hold.limited || b.hold.released then b else
    b.(pool := b.pool.(reserved := b.pool.reserved - b.hold.reserved, active := b.pool.active - 1),
       hold := b.hold.(reserved := 0, released := true))
  }

  function ReleaseDestination(b: Books): Books {
    if Pending(b.hold) || !b.hold.limited || b.hold.pub.None? then b else
    b.(pool := b.pool.(destinations := b.pool.destinations - {b.hold.pub.value.artifact}),
       hold := b.hold.(pub := None))
  }

  function Admit(b: Books, bytes: nat, artifact: Option<string>): (Books, Admission) {
    var hold := if artifact.Some? then b.hold.(pub := Some(Publication(artifact.value, false, false))) else b.hold;
    var pool := b.pool;
    if pool.active >= pool.transactionLimit || pool.reserved >= pool.byteLimit || bytes > pool.byteLimit - pool.reserved then
      (b.(hold := hold), LimitReached)
    else if hold.pub.Some? && hold.pub.value.artifact in pool.destinations then
      (b.(hold := hold), DestinationOwned)
    else
      var destinations := if hold.pub.Some? then pool.destinations + {hold.pub.value.artifact} else pool.destinations;
      (b.(hold := hold.(limited := true, reserved := bytes),
          pool := pool.(destinations := destinations, active := pool.active + 1, reserved := pool.reserved + bytes)),
       Admitted)
  }

  predicate Fits(b: Books, bytes: nat) {
    !b.hold.limited || bytes <= b.hold.reserved || bytes - b.hold.reserved <= b.pool.byteLimit - b.pool.reserved
  }

  function Grow(b: Books, bytes: nat): Books {
    if !b.hold.limited || bytes <= b.hold.reserved || !Fits(b, bytes) then b else
    b.(pool := b.pool.(reserved := b.pool.reserved + (bytes - b.hold.reserved)), hold := b.hold.(reserved := bytes))
  }

  function OwnPath(b: Books, dir: Path): Books {
    b.(hold := b.hold.(dir := dir), dirs := b.dirs + {dir})
  }

  /** Publication retry data goes with the staging it describes. */
  function DropPendingIndex(b: Books): Books {
    if b.hold.pub.Some? then b.(hold := b.hold.(pub := Some(b.hold.pub.value.(pending := false)))) else b
  }

  function DropDirectory(b: Books): Books {
    if b.hold.dir == NoPath then b else b.(dirs := b.dirs - {b.hold.dir}, hold := b.hold.(dir := NoPath))
  }

  function Clear(b: Books): Books {
    DropDirectory(ReleaseReservation(DropPendingIndex(b)))
  }

  // Operations of the transaction.

  function Accounts(c: Ctx): Books {
    Books(c.t.hold, c.pool, c.dirs)
  }

  function Settle(c: Ctx, b: Books): Ctx {
    c.(t := c.t.(hold := b.hold), pool := b.pool, dirs := b.dirs)
  }

  function TryClearDescriptor(t: Txn): Txn {
    if HasPendingCleanup(t) then t else t.(desc := Monostate)
  }

  function ReleaseAbortedDestination(c: Ctx): Ctx {
    if c.t.state != Aborted then c else Settle(c, ReleaseDestination(Accounts(c)))
  }

  function ClosePidfds(gpu: Option<GpuOperation>): Option<GpuOperation> {
    if gpu.Some? then Some(gpu.value.(pidfds := false)) else gpu
  }

  function SetState(c: Ctx, state: State): Ctx {
    var gpu := if state == Committed || state == Aborted then ClosePidfds(c.t.gpu) else c.t.gpu;
    ReleaseAbortedDestination(c.(t := c.t.(state := state, gpu := gpu)))
  }

  function PrepareTransfer(c: Ctx, limited: bool, bytes: nat, artifact: Option<string>, deadline: Time): (Ctx, Admission) {
    var c := c.(t := c.t.(deadline := Some(deadline)));
    if !limited then (c, Admitted) else
    var (b, admission) := Admit(Accounts(c), bytes, artifact);
    (Settle(c, b), admission)
  }

  function OwnDirectory(c: Ctx, dir: Path): Ctx {
    Settle(c, OwnPath(Accounts(c), dir))
  }

  predicate ReserveFits(c: Ctx, bytes: nat) {
    Fits(Accounts(c), bytes)
  }

  function Reserve(c: Ctx, bytes: nat): Ctx {
    Settle(c, Grow(Accounts(c), bytes))
  }

  predicate RemoveFails(t: Txn, dir: Path, removable: bool) {
    dir == t.hold.dir && dir != NoPath && !removable
  }

  function RemoveStaging(c: Ctx, dir: Path, removable: bool): Ctx {
    if dir != c.t.hold.dir || RemoveFails(c.t, dir, removable) then c else
    var c := ReleaseAbortedDestination(Settle(c, Clear(Accounts(c))));
    if Terminal(c.t) then c.(t := TryClearDescriptor(c.t)) else c
  }

  predicate CleanupFails(t: Txn, removable: bool) {
    HasPendingCleanup(t) && RemoveFails(t, t.hold.dir, removable)
  }

  function CleanupTransfer(c: Ctx, removable: bool): Ctx {
    if HasPendingCleanup(c.t) then RemoveStaging(c, c.t.hold.dir, removable) else c
  }

  function ExpireTransfer(c: Ctx, now: Time): Ctx {
    if !Expired(c.t, now) then c else
    SetState(c.(t := c.t.(expired := true, cancelled := true)), Aborting)
  }

  /** The destructor: give back what is still held. */
  function Destroyed(b: Books): Books {
    var b := ReleaseReservation(b);
    if b.hold.limited && b.hold.pub.Some? then
      b.(pool := b.pool.(destinations := b.pool.destinations - {b.hold.pub.value.artifact}), hold := b.hold.(pub := None))
    else b
  }
}
