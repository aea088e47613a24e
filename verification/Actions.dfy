/**
 What the holder of one transaction's mutex does between two points at which
 another thread may act. Each request handler of broker.cpp is cut at its engine
 calls, at the byte reservation shared by all restores, at the unlocked GPU run
 and at the condition wait of Abort. An action whose program point does not
 match the transaction's phase leaves everything as it is.
 */
module Actions {
  import opened Lifecycle

  /** How an exception is classified by the catch blocks of the staging handlers. */
  datatype Failure = InsufficientStorage | TransactionConflict | InvalidArgument | OtherFailure

  datatype Result<+T> = Ok(value: T) | Err(failure: Failure)

  datatype GpuOutcome = TargetConflict | Done(result: GpuResult)

  datatype Action =
    | Cancel
    | RestoreAdmit(direct: bool, artifact: bool, found: Result<bool>, deadline: Time, removable: bool)
    | RestoreScanned(inventory: Result<nat>, now: Time, removable: bool)
    | RestoreSpace(available: Option<nat>, removable: bool)
    | RestoreMkdir(made: Result<()>, before: Time, now: Time, removable: bool)
    | RestoreCopied(copied: Result<()>, now: Time, removable: bool)
    | CheckpointAdmit(direct: bool, destination: Option<string>, repeated: Result<string>, deadline: Time, now: Time, removable: bool)
    | CheckpointOpened(output: Result<string>, made: Result<()>, before: Time, now: Time, removable: bool)
    | Commit(now: Time, present: bool, removable: bool)
    | CommitInspected(inventory: Result<nat>)
    | CommitPublished(success: bool, saved: bool, removable: bool)
    | Abort(now: Time, removable: bool)
    | AbortResume(removable: bool)
    | AbortTimeout
    | Reap(now: Time, removable: bool)
    | Gpu(request: GpuRequest, now: Time, valid: bool)
    | GpuFinish(outcome: GpuOutcome)
    | Retain

  /** What the caller is told; a GPU answer names the request it answers. */
  datatype Reply =
    | Silent
    | NotFound
    | TransactionExpired
    | IsPreparing
    | IsAborting
    | GpuNotSucceeded
    | NoDescriptor
    | CommitComplete(payload: Option<string>)
    | AbortComplete
    | CleanupError
    | GpuStillRunning
    | Conflict
    | CheckpointReady
    | GpuReply(request: GpuRequest, result: GpuResult)

  /**
   The result of an action: the new context, whether the registry entry goes, whether the
   transaction is offered to the terminal queue, the change of the byte reservation shared
   by all restores, the reply, whether the engine published and whether a GPU run concluded.
   */
  datatype Effect = Effect(c: Ctx, erase: bool, retain: bool, staging: int, reply: Reply, published: bool, ran: bool)

  function Quiet(c: Ctx): Effect {
    Effect(c, false, false, 0, Silent, false, false)
  }

  function Answer(c: Ctx, reply: Reply): Effect {
    Effect(c, false, false, 0, reply, false, false)
  }

  function Enter(c: Ctx, phase: Phase): Effect {
    Quiet(c.(t := c.t.(phase := phase)))
  }

  function Unlock(c: Ctx): Ctx {
    c.(t := c.t.(phase := Free))
  }

  /** Bytes of `reserved_staging_bytes_` that this transaction's restore accounts for. */
  function Held(t: Txn): nat {
    match t.phase
    case RestoreCreating(_, bytes) => bytes
    case RestoreCopying(direct, bytes) => if direct then 0 else bytes
    case _ => 0
  }

  function OutputPath(direct: bool, destination: string, id: Id): Path {
    if direct then Beside(destination, id) else Staging(false, id)
  }

  /** An exclusive mkdir: an existing entry is a conflict whatever else happens. */
  function Mkdir(dirs: set<Path>, dir: Path, made: Result<()>): Result<()> {
    if dir in dirs then Err(TransactionConflict) else made
  }

  function RejectBeforeOwnership(c: Ctx, removable: bool): Effect {
    var c := SetState(Unlock(c), Aborted);
    Effect(CleanupTransfer(c, removable), !CleanupFails(c.t, removable), false, 0, Conflict, false, false)
  }

  function AbortStaging(c: Ctx, dir: Path, removable: bool): Effect {
    var c := SetState(Unlock(c.(t := TryClearDescriptor(c.t))), Aborted);
    Answer(RemoveStaging(c, dir, removable), Conflict)
  }

  function RestoreFailed(c: Ctx, artifact: bool, prepared: bool, owned: bool, failure: Failure, removable: bool): Effect {
    if !owned && failure == InsufficientStorage then
      RejectBeforeOwnership(c, removable)
    else if (c.t.state == New && failure == TransactionConflict) || (!artifact && !prepared && failure == InvalidArgument) then
      RejectBeforeOwnership(c, removable)
    else
      AbortStaging(c, if owned then Staging(true, c.t.id) else NoPath, removable)
  }

  /** `ReleaseStaging` for what this restore had reserved. */
  function GiveBack(held: nat, e: Effect): Effect {
    e.(staging := e.staging - held)
  }

  /** How the look for an existing staging directory ends the restore, if it does: the look may fail, or find one. */
  function Occupied(c: Ctx, found: Result<bool>): Option<Failure> {
    match found
    case Err(failure) => Some(failure)
    case Ok(there) => if there || Staging(true, c.t.id) in c.dirs then Some(TransactionConflict) else None
  }

  function RestoreAdmitted(c: Ctx, limits: bool, direct: bool, artifact: bool, found: Result<bool>, deadline: Time, removable: bool): Effect {
    if c.t.state != New then Answer(c, Conflict) else
    if !direct && Occupied(c, found).Some? then
      RestoreFailed(c, artifact, false, false, Occupied(c, found).value, removable)
    else
      var (c, admission) := PrepareTransfer(c, limits && !direct, 0, None, deadline);
      match admission
      case LimitReached => RestoreFailed(c, artifact, false, false, InsufficientStorage, removable)
      case DestinationOwned => RestoreFailed(c, artifact, false, false, TransactionConflict, removable)
      case Admitted => Enter(SetState(c, Preparing), RestoreScanning(direct, artifact))
  }

  function RestoreScan(c: Ctx, direct: bool, artifact: bool, inventory: Result<nat>, now: Time, removable: bool): Effect {
    match inventory
    case Err(failure) => RestoreFailed(c, artifact, false, false, failure, removable)
    case Ok(bytes) =>
      if Stopped(c.t, now) then RestoreFailed(c, artifact, false, false, OtherFailure, removable) else
      if !ReserveFits(c, bytes) then RestoreFailed(c, artifact, true, false, InsufficientStorage, removable) else
      Enter(Reserve(c, bytes), if direct then RestoreCopying(true, bytes) else RestoreSpacing(artifact, bytes))
  }

  /** The file system reported at least that much; it may not answer at all. */
  predicate SpaceFor(bytes: int, available: Option<nat>) {
    available.Some? && bytes <= available.value
  }

  function RestoreReserve(c: Ctx, artifact: bool, bytes: nat, staging: int, available: Option<nat>, removable: bool): Effect {
    if !SpaceFor(bytes + staging, available) then RejectBeforeOwnership(c, removable) else
    Enter(c, RestoreCreating(artifact, bytes)).(staging := bytes)
  }

  function RestoreCreate(c: Ctx, artifact: bool, bytes: nat, made: Result<()>, before: Time, now: Time, removable: bool): Effect {
    var dir := Staging(true, c.t.id);
    if Stopped(c.t, before) then
      GiveBack(bytes, RestoreFailed(c, artifact, true, false, OtherFailure, removable))
    else
      match Mkdir(c.dirs, dir, made)
      case Err(failure) => GiveBack(bytes, RestoreFailed(c, artifact, true, false, failure, removable))
      case Ok(_) =>
        var c := OwnDirectory(c, dir);
        if Stopped(c.t, now) then GiveBack(bytes, RestoreFailed(c, artifact, true, true, OtherFailure, removable)) else
        Enter(c, RestoreCopying(false, bytes))
  }

  function RestoreCopy(c: Ctx, direct: bool, bytes: nat, copied: Result<()>, now: Time, removable: bool): Effect {
    var held := if direct then 0 else bytes;
    if copied.Err? || Stopped(c.t, now) then
      var failure := if copied.Err? then copied.failure else OtherFailure;
      GiveBack(held, RestoreFailed(c, false, true, !direct, failure, removable))
    else
      var dir := if direct then NoPath else Staging(true, c.t.id);
      GiveBack(held, Quiet(Unlock(SetState(c.(t := c.t.(desc := Restore(dir))), Staged))))
  }

  function CheckpointFailed(c: Ctx, artifact: bool, owned: Option<Path>, failure: Failure, removable: bool): Effect {
    if owned.None? && failure == InsufficientStorage then
      RejectBeforeOwnership(c, removable)
    else if !artifact && owned.None? && (failure == InvalidArgument || failure == TransactionConflict) then
      RejectBeforeOwnership(c, removable)
    else
      AbortStaging(c, if owned.Some? then owned.value else NoPath, removable)
  }

  /** A direct checkpoint that is staged answers a repeated request for the same output; nothing changes either way. */
  predicate Repeats(t: Txn, direct: bool, repeated: Result<string>, now: Time) {
    && direct && t.state == Staged && t.desc.Checkpoint? && t.desc.direct && !Stopped(t, now)
    && repeated.Ok? && t.desc.dir == OutputPath(true, repeated.value, t.id)
  }

  function CheckpointAdmitted(c: Ctx, limits: bool, direct: bool, destination: Option<string>, repeated: Result<string>, deadline: Time, now: Time, removable: bool): Effect {
    if c.t.state != New then Answer(c, if Repeats(c.t, direct, repeated, now) then CheckpointReady else Conflict) else
    CheckpointStarted(c, limits, direct, destination, deadline, now, removable)
  }

  function CheckpointStarted(c: Ctx, limits: bool, direct: bool, destination: Option<string>, deadline: Time, now: Time, removable: bool): Effect {
    var (c, admission) := PrepareTransfer(c, limits && !direct, CHECKPOINT_ADMISSION_BYTES, destination, deadline);
    match admission
    case LimitReached => CheckpointFailed(c, destination.Some?, None, InsufficientStorage, removable)
    case DestinationOwned => CheckpointFailed(c, destination.Some?, None, TransactionConflict, removable)
    case Admitted =>
      var c := SetState(c, Preparing);
      if Stopped(c.t, now) then CheckpointFailed(c, destination.Some?, None, OtherFailure, removable) else
      Enter(c, CheckpointOpening(direct, destination.Some?))
  }

  function CheckpointOpen(c: Ctx, direct: bool, artifact: bool, output: Result<string>, made: Result<()>, before: Time, now: Time, removable: bool): Effect {
    if output.Err? then CheckpointFailed(c, artifact, None, output.failure, removable) else
    if Stopped(c.t, before) then CheckpointFailed(c, artifact, None, OtherFailure, removable) else
    var dir := OutputPath(direct, output.value, c.t.id);
    match Mkdir(c.dirs, dir, made)
    case Err(failure) => CheckpointFailed(c, artifact, None, failure, removable)
    case Ok(_) =>
      var c := OwnDirectory(c, dir);
      if Stopped(c.t, now) then CheckpointFailed(c, artifact, Some(dir), OtherFailure, removable) else
      Quiet(Unlock(SetState(c.(t := c.t.(desc := Checkpoint(dir, direct))), Staged)))
  }

  function DropArtifact(t: Txn): Txn {
    if t.gpu.Some? then t.(gpu := Some(t.gpu.value.(artifact := false))) else t
  }

  function CleanupRestore(c: Ctx, removable: bool): Effect {
    var c := if c.t.desc.Restore? && c.t.desc.dir != NoPath then RemoveStaging(c, c.t.desc.dir, removable) else c;
    var c := SetState(c.(t := TryClearDescriptor(c.t)), Committed);
    Answer(c, CommitComplete(None))
  }

  function CommitLocked(c: Ctx, now: Time, present: bool, removable: bool): Effect {
    if c.t.state == New || c.t.state == Aborted then Answer(c, NotFound) else
    if Expired(c.t, now) then Answer(c, TransactionExpired) else
    if c.t.state == Preparing then Answer(c, IsPreparing) else
    if c.t.state == Aborting then Answer(c, IsAborting) else
    if c.t.state == Committed then
      var c := CleanupTransfer(c, removable);
      Answer(c, CommitComplete(Payload(c.t.hold)))
    else if c.t.gpu.Some? && (c.t.gpu.value.state != Finished || c.t.gpu.value.result.Failed?) then
      Answer(c, GpuNotSucceeded)
    else
      var c := c.(t := DropArtifact(c.t));
      match c.t.desc
      case Restore(_) => CleanupRestore(c, removable)
      case Monostate => Answer(c, NoDescriptor)
      case Checkpoint(_, _) =>
        if !present then Answer(c, NotFound) else
        if c.t.hold.pub.None? || !c.t.hold.pub.value.pending then Enter(c, CommitInspecting) else Enter(c, CommitPublishing)
  }

  function CommitInspect(c: Ctx, inventory: Result<nat>): Effect {
    if inventory.Err? || !ReserveFits(c, inventory.value) then Answer(Unlock(c), Conflict) else
    Enter(Reserve(c, inventory.value), CommitPublishing)
  }

  /** A direct publication renames the staging directory away; a staged one leaves it to `RemoveStaging`. */
  function CommitPublish(c: Ctx, success: bool, saved: bool, removable: bool): Effect {
    if !success then
      Answer(Unlock(if saved then SaveIndex(c) else c), Conflict)
    else
      var d := RemoveStaging(CommitPublication(c), c.t.hold.dir, removable);
      Answer(d, CommitComplete(Payload(d.t.hold))).(published := true)
  }

  function CommitPublication(c: Ctx): Ctx {
    var c := MarkPublished(if c.t.desc.Checkpoint? && c.t.desc.direct then RenameAway(c) else c);
    SetState(Unlock(c.(t := TryClearDescriptor(c.t))), Committed)
  }

  function SaveIndex(c: Ctx): Ctx {
    if c.t.hold.pub.None? then c else
    c.(t := c.t.(hold := c.t.hold.(pub := Some(c.t.hold.pub.value.(pending := true)))))
  }

  function MarkPublished(c: Ctx): Ctx {
    if c.t.hold.pub.None? then c else
    c.(t := c.t.(hold := c.t.hold.(pub := Some(c.t.hold.pub.value.(pending := true, published := true)))))
  }

  function RenameAway(c: Ctx): Ctx {
    c.(dirs := c.dirs - {c.t.hold.dir})
  }

  function BeginAbort(c: Ctx): Ctx {
    var c := SetState(c, Aborting);
    c.(t := c.t.(cancelled := true))
  }

  /** The part of `TryAbortTransactionLocked` after GPU work has drained; `CleanupFails` says whether it stops short. */
  function DrainedAbort(c: Ctx, removable: bool): Ctx {
    var c := c.(t := DropArtifact(c.t));
    var d := CleanupTransfer(c, removable);
    if CleanupFails(c.t, removable) then d else
    SetState(d.(t := TryClearDescriptor(d.t)), Aborted)
  }

  function FinishAbort(c: Ctx, removable: bool): Effect {
    if CleanupFails(c.t, removable) then Answer(DrainedAbort(c, removable), CleanupError) else
    Answer(DrainedAbort(c, removable), AbortComplete)
  }

  function AbortLocked(c: Ctx, now: Time, removable: bool): Effect {
    if c.t.state == Committed then Answer(c, NotFound) else
    if c.t.state == Aborted then
      if CleanupFails(c.t, removable) then Answer(CleanupTransfer(c, removable), CleanupError) else
      Answer(CleanupTransfer(c, removable), AbortComplete)
    else if Expired(c.t, now) then Answer(c, TransactionExpired) else
    var c := BeginAbort(c);
    if GpuRunning(c.t) then Quiet(c.(t := c.t.(waiters := c.t.waiters + 1))) else
    FinishAbort(c, removable)
  }

  function ReapLocked(c: Ctx, now: Time, removable: bool): Effect {
    if Terminal(c.t) then
      Quiet(CleanupTransfer(c, removable)).(retain := !CleanupFails(c.t, removable))
    else if !Expired(c.t, now) then Quiet(c) else
    var c := BeginAbort(ExpireTransfer(c, now));
    if GpuRunning(c.t) then Quiet(c) else
    Quiet(DrainedAbort(c, removable)).(erase := !CleanupFails(c.t, removable))
  }

  /** The descriptor must match the direction; opening the artifact can fail besides. */
  predicate ArtifactOpens(t: Txn, direction: Direction, valid: bool) {
    valid && (if direction == RestoreGpu then t.desc.Restore? else t.desc.Checkpoint?)
  }

  const NO_RESULT: GpuResult := Failed(0)
  const TARGET_CONFLICT: GpuResult := Failed(1)

  function ExecuteGpu(t: Txn, operation: GpuOperation): Txn {
    t.(gpu := Some(operation.(state := Running, result := NO_RESULT)))
  }

  function GpuLocked(c: Ctx, request: GpuRequest, now: Time, valid: bool): Effect {
    if Expired(c.t, now) then Answer(ExpireTransfer(c, now), TransactionExpired) else
    if c.t.state != Staged then Answer(c, Conflict) else
    if c.t.gpu.Some? then
      var previous := c.t.gpu.value;
      if previous.state == Running then Answer(c, Conflict) else
      if !valid || previous.request != request then Answer(c, Conflict) else
      if previous.state == Finished then
        Answer(c, GpuReply(request, previous.result))
      else
        Quiet(c.(t := ExecuteGpu(c.t, previous)))
    else if !ArtifactOpens(c.t, request.direction, valid) then Answer(c, Conflict) else
    Quiet(c.(t := ExecuteGpu(c.t, GpuOperation(Ready, true, request, true, NO_RESULT))))
  }

  function GpuFinished(c: Ctx, outcome: GpuOutcome): Effect
    requires GpuRunning(c.t)
  {
    var operation := c.t.gpu.value;
    match outcome
    case TargetConflict =>
      Answer(c.(t := c.t.(gpu := Some(operation.(state := Ready, result := TARGET_CONFLICT)))), Conflict)
    case Done(result) =>
      Answer(c.(t := c.t.(gpu := Some(operation.(state := Finished, result := result)))), GpuReply(operation.request, result)).(ran := true)
  }

  /** The program point at which an action applies. */
  predicate Enabled(t: Txn, action: Action) {
    match action
    case Cancel => true
    case RestoreScanned(_, _, _) => t.phase.RestoreScanning?
    case RestoreSpace(_, _) => t.phase.RestoreSpacing?
    case RestoreMkdir(_, _, _, _) => t.phase.RestoreCreating?
    case RestoreCopied(_, _, _) => t.phase.RestoreCopying?
    case CheckpointOpened(_, _, _, _, _) => t.phase.CheckpointOpening?
    case CommitInspected(_) => t.phase.CommitInspecting?
    case CommitPublished(_, _, _) => t.phase.CommitPublishing?
    case AbortResume(_) => t.phase.Free? && t.waiters > 0 && !GpuRunning(t)
    case AbortTimeout => t.phase.Free? && t.waiters > 0 && GpuRunning(t)
    case GpuFinish(_) => t.phase.Free? && GpuRunning(t)
    case _ => t.phase.Free?
  }

  function Leave(c: Ctx): Ctx {
    c.(t := c.t.(waiters := if c.t.waiters > 0 then c.t.waiters - 1 else 0))
  }

  /** `limits`: admission limits are configured; `staging`: the value of `reserved_staging_bytes_`. */
  function Perform(c: Ctx, limits: bool, staging: int, action: Action): Effect
    requires Enabled(c.t, action)
  {
    match action
    case Cancel => Quiet(c.(t := c.t.(cancelled := true)))
    case RestoreAdmit(direct, artifact, found, deadline, removable) =>
      RestoreAdmitted(c, limits, direct, artifact, found, deadline, removable)
    case RestoreScanned(inventory, now, removable) =>
      RestoreScan(c, c.t.phase.direct, c.t.phase.artifact, inventory, now, removable)
    case RestoreSpace(available, removable) =>
      RestoreReserve(c, c.t.phase.artifact, c.t.phase.bytes, staging, available, removable)
    case RestoreMkdir(made, before, now, removable) =>
      RestoreCreate(c, c.t.phase.artifact, c.t.phase.bytes, made, before, now, removable)
    case RestoreCopied(copied, now, removable) =>
      RestoreCopy(c, c.t.phase.direct, c.t.phase.bytes, copied, now, removable)
    case CheckpointAdmit(direct, destination, repeated, deadline, now, removable) =>
      CheckpointAdmitted(c, limits, direct, destination, repeated, deadline, now, removable)
    case CheckpointOpened(output, made, before, now, removable) =>
      CheckpointOpen(c, c.t.phase.direct, c.t.phase.artifact, output, made, before, now, removable)
    case Commit(now, present, removable) => CommitLocked(c, now, present, removable)
    case CommitInspected(inventory) => CommitInspect(c, inventory)
    case CommitPublished(success, saved, removable) => CommitPublish(c, success, saved, removable)
    case Abort(now, removable) => AbortLocked(c, now, removable)
    case AbortResume(removable) => FinishAbort(Leave(c), removable)
    case AbortTimeout => Answer(Leave(c), GpuStillRunning)
    case Reap(now, removable) => ReapLocked(c, now, removable)
    case Gpu(request, now, valid) => GpuLocked(c, request, now, valid)
    case GpuFinish(outcome) => GpuFinished(c, outcome)
    case Retain => Quiet(c).(retain := true)
  }

  function Act(c: Ctx, limits: bool, staging: int, action: Action): Effect {
    if Enabled(c.t, action) then Perform(c, limits, staging, action) else Quiet(c)
  }
}
