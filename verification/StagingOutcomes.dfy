/** How staging ends: which failures free the ID at once, what stays behind, and that late work never counts. */
module StagingOutcomes {
  import opened Lifecycle
  import opened Actions
  import opened ActionLaws
  import opened RequestOutcomes

  /** Cancelled, or past the deadline. */
  predicate Cut(t: Txn, now: Time) {
    t.cancelled || (t.deadline.Some? && now >= t.deadline.value)
  }

  /** Staging failed: the ID is free again exactly if `frees`, something is left to clean up exactly if `leaves`. */
  predicate Fails(e: Effect, frees: bool, leaves: bool) {
    e.c.t.state == Aborted && e.c.t.phase.Free? && e.reply == Conflict && (e.erase <==> frees) && (Pending(e.c.t.hold) <==> leaves)
  }

  lemma RejectionFrees(c: Ctx, removable: bool)
    requires Preparatory(c.t) && Sound(Accounts(c)) && c.t.hold.dir == NoPath
    ensures var e := RejectBeforeOwnership(c, removable); e.erase && !HasPendingCleanup(e.c.t)
  {
    RejectLaw(c, removable);
  }

  lemma AbortedStaging(c: Ctx, removable: bool)
    requires Preparatory(c.t) && Sound(Accounts(c))
    ensures var e := AbortStaging(c, c.t.hold.dir, removable);
            !e.erase && (HasPendingCleanup(e.c.t) <==> c.t.hold.dir != NoPath && !removable)
  {
    assert TryClearDescriptor(c.t) == c.t;
    var d := SetState(Unlock(c), Aborted);
    AbortedLaw(c);
    if c.t.hold.dir == NoPath || removable { RemovedShape(d, removable); }
  }

  predicate RestoreFrees(state: State, artifact: bool, prepared: bool, failure: Failure) {
    || failure == InsufficientStorage
    || (failure == TransactionConflict && state == New)
    || (failure == InvalidArgument && !artifact && !prepared)
  }

  predicate CheckpointFrees(artifact: bool, failure: Failure) {
    failure == InsufficientStorage || (!artifact && failure != OtherFailure)
  }

  /**
   A failed restore frees its ID for a fresh retry exactly if it owns no directory and ran out of
   storage, met another transaction's staging, or named an invalid source. In every other case the
   ID stays taken by the aborted transaction, and something is left to clean up exactly if its
   directory could not be removed.
   */
  lemma FailedRestoreOutcome(c: Ctx, artifact: bool, prepared: bool, owned: bool, failure: Failure, removable: bool)
    requires Preparatory(c.t) && Sound(Accounts(c))
    requires c.t.hold.dir == (if owned then Staging(true, c.t.id) else NoPath)
    requires owned ==> prepared && c.t.state == Preparing
    ensures Fails(RestoreFailed(c, artifact, prepared, owned, failure, removable),
                  !owned && RestoreFrees(c.t.state, artifact, prepared, failure), owned && !removable)
  {
    RestoreFailedLaw(c, artifact, prepared, owned, failure, removable);
    AbortedStaging(c, removable);
    if !owned { RejectionFrees(c, removable); }
  }

  /** Likewise for a checkpoint, where an invalid or occupied output frees the ID unless an artifact was asked for. */
  lemma FailedCheckpointOutcome(c: Ctx, artifact: bool, owned: Option<Path>, failure: Failure, removable: bool)
    requires Preparatory(c.t) && Sound(Accounts(c))
    requires c.t.hold.dir == (if owned.Some? then owned.value else NoPath) && (owned.Some? ==> owned.value != NoPath)
    ensures Fails(CheckpointFailed(c, artifact, owned, failure, removable),
                  owned.None? && CheckpointFrees(artifact, failure), owned.Some? && !removable)
  {
    CheckpointFailedLaw(c, artifact, owned, failure, removable);
    AbortedStaging(c, removable);
    if owned.None? { RejectionFrees(c, removable); }
  }

  /** The pool can take one more transaction with that many bytes. */
  predicate Room(pool: Pool, bytes: nat) {
    pool.active < pool.transactionLimit && pool.reserved < pool.byteLimit && pool.reserved + bytes <= pool.byteLimit
  }

  /** A restore is admitted exactly if it is new, nothing is in its staging place, and the limits leave room. */
  lemma RestoreAdmitOutcome(c: Ctx, limits: bool, staging: int, direct: bool, artifact: bool, found: Result<bool>, deadline: Time, removable: bool)
    requires Grounded(c) && c.t.phase.Free?
    ensures var e := Act(c, limits, staging, RestoreAdmit(direct, artifact, found, deadline, removable));
            var clear := direct || (found == Ok(false) && Staging(true, c.t.id) !in c.dirs);
            var room := direct || !limits || Room(c.pool, 0);
            var failure := if clear then InsufficientStorage else if found.Err? then found.failure else TransactionConflict;
            && (c.t.state != New ==> e.c == c && e.reply == Conflict && !e.erase)
            && (c.t.state == New && clear && room ==>
                  && e.reply == Silent && e.c.t.state == Preparing && e.c.t.phase == RestoreScanning(direct, artifact)
                  && e.c.t.deadline == Some(deadline) && (Slot(e.c.t.hold) == 1 <==> limits && !direct))
            && (c.t.state == New && !(clear && room) ==> Fails(e, RestoreFrees(New, artifact, false, failure), false))
  {
    if c.t.state == New {
      if !direct && Occupied(c, found).Some? {
        FailedRestoreOutcome(c, artifact, false, false, Occupied(c, found).value, removable);
      } else {
        var (d, admission) := PrepareTransfer(c, limits && !direct, 0, None, deadline);
        AdmissionLaw(c, limits && !direct, 0, None, deadline);
        if !admission.Admitted? { FailedRestoreOutcome(d, artifact, false, false, InsufficientStorage, removable); }
      }
    }
  }

  /** A restore goes on exactly if its source was read in time and its whole inventory is in the budget. */
  lemma RestoreScanOutcome(c: Ctx, limits: bool, staging: int, inventory: Result<nat>, now: Time, removable: bool)
    requires Grounded(c) && c.t.phase.RestoreScanning?
    ensures var e := Act(c, limits, staging, RestoreScanned(inventory, now, removable));
            var direct, artifact := c.t.phase.direct, c.t.phase.artifact;
            var goes := inventory.Ok? && !Cut(c.t, now) && Affordable(c, inventory.value);
            var failure := if inventory.Err? then inventory.failure else if Cut(c.t, now) then OtherFailure else InsufficientStorage;
            && (goes ==> e.c.t.state == Preparing && Covers(c, e.c, inventory.value))
            && (goes ==> e.c.t.phase == if direct then RestoreCopying(true, inventory.value) else RestoreSpacing(artifact, inventory.value))
            && (!goes ==> Fails(e, RestoreFrees(Preparing, artifact, false, failure), false))
  {
    if inventory.Ok? && !Cut(c.t, now) {
      if Affordable(c, inventory.value) {
        ReserveCovers(c, inventory.value);
      } else {
        FailedRestoreOutcome(c, c.t.phase.artifact, true, false, InsufficientStorage, removable);
      }
    } else {
      var failure := if inventory.Err? then inventory.failure else OtherFailure;
      FailedRestoreOutcome(c, c.t.phase.artifact, false, false, failure, removable);
    }
  }

  /** The directory is new, made, and there was time for it. */
  predicate Creates(c: Ctx, dir: Path, made: Result<()>, before: Time) {
    !Cut(c.t, before) && dir !in c.dirs && made.Ok?
  }

  lemma RestoreCreateFails(c: Ctx, bytes: nat, made: Result<()>, before: Time, now: Time, removable: bool)
    requires Grounded(c) && c.t.phase.RestoreCreating?
    requires !Creates(c, Staging(true, c.t.id), made, before) || Cut(c.t, now)
    ensures var e := RestoreCreate(c, c.t.phase.artifact, bytes, made, before, now, removable);
            var creates := Creates(c, Staging(true, c.t.id), made, before);
            var full := !Cut(c.t, before) && Staging(true, c.t.id) !in c.dirs && made.Err? && made.failure == InsufficientStorage;
            e.staging == 0 - bytes && Fails(e, full, creates && !removable)
  {
    var artifact, dir := c.t.phase.artifact, Staging(true, c.t.id);
    if Creates(c, dir, made, before) {
      OwnDirectoryLaw(c, dir);
      FailedRestoreOutcome(OwnDirectory(c, dir), artifact, true, true, OtherFailure, removable);
    } else {
      var failure := if Cut(c.t, before) then OtherFailure else Mkdir(c.dirs, dir, made).failure;
      FailedRestoreOutcome(c, artifact, true, false, failure, removable);
    }
  }

  /** The staging directory is created exactly if it is new and there is still time; the shared bytes go back otherwise. */
  lemma RestoreMkdirOutcome(c: Ctx, limits: bool, staging: int, made: Result<()>, before: Time, now: Time, removable: bool)
    requires Grounded(c) && c.t.phase.RestoreCreating?
    ensures var e := Act(c, limits, staging, RestoreMkdir(made, before, now, removable));
            var dir, bytes := Staging(true, c.t.id), c.t.phase.bytes;
            var creates := Creates(c, dir, made, before);
            var full := !Cut(c.t, before) && dir !in c.dirs && made.Err? && made.failure == InsufficientStorage;
            && (creates && !Cut(c.t, now) ==>
                  e.c.t.phase == RestoreCopying(false, bytes) && e.c.t.hold.dir == dir && e.c.dirs == c.dirs + {dir} && e.staging == 0)
            && (!creates || Cut(c.t, now) ==> e.staging == 0 - bytes && Fails(e, full, creates && !removable))
  {
    if !Creates(c, Staging(true, c.t.id), made, before) || Cut(c.t, now) {
      RestoreCreateFails(c, c.t.phase.bytes, made, before, now, removable);
    }
  }

  /** A restore is Staged exactly if its copy succeeded, uncancelled and within the deadline; otherwise it is Aborted. */
  lemma LateRestoreIsNotStaged(c: Ctx, limits: bool, staging: int, copied: Result<()>, now: Time, removable: bool)
    requires Grounded(c) && c.t.phase.RestoreCopying?
    ensures var e := Act(c, limits, staging, RestoreCopied(copied, now, removable));
            var held := if c.t.phase.direct then 0 else c.t.phase.bytes;
            var full := c.t.phase.direct && copied.Err? && copied.failure == InsufficientStorage;
            && e.staging == -held
            && (copied.Ok? && !Cut(c.t, now) ==>
                  e.c.t.state == Staged && e.c.t.phase.Free? && e.c.t.desc == Restore(c.t.hold.dir) && Untouched(c, e.c))
            && (!(copied.Ok? && !Cut(c.t, now)) ==> Fails(e, full, !c.t.phase.direct && !removable))
  {
    if copied.Err? || Cut(c.t, now) {
      var failure := if copied.Err? then copied.failure else OtherFailure;
      FailedRestoreOutcome(c, false, true, !c.t.phase.direct, failure, removable);
    }
  }

  /** What a new checkpoint comes to: admitted exactly if the limits leave room, its destination is free and there is time. */
  predicate AdmittedIfRoom(c: Ctx, limited: bool, direct: bool, destination: Option<string>, deadline: Time, now: Time, e: Effect) {
    var room := !limited || Room(c.pool, 1);
    var free := !limited || destination.None? || destination.value !in c.pool.destinations;
    var failure := if !room then InsufficientStorage else if !free then TransactionConflict else OtherFailure;
    if room && free && !c.t.cancelled && now < deadline then
      && e.c.t.state == Preparing && e.c.t.phase == CheckpointOpening(direct, destination.Some?)
      && e.c.t.deadline == Some(deadline) && (Slot(e.c.t.hold) == 1 <==> limited)
      && (limited ==> Share(e.c.t.hold) == 1 && (destination.Some? ==> Owns(e.c.t.hold, destination.value)))
    else
      Fails(e, CheckpointFrees(destination.Some?, failure), false)
  }

  lemma CheckpointStartOutcome(c: Ctx, limits: bool, direct: bool, destination: Option<string>, deadline: Time, now: Time, removable: bool)
    requires Grounded(c) && c.t.phase.Free? && c.t.state == New
    ensures AdmittedIfRoom(c, limits && !direct, direct, destination, deadline, now,
                           CheckpointStarted(c, limits, direct, destination, deadline, now, removable))
  {
    var (d, admission) := PrepareTransfer(c, limits && !direct, CHECKPOINT_ADMISSION_BYTES, destination, deadline);
    AdmissionLaw(c, limits && !direct, CHECKPOINT_ADMISSION_BYTES, destination, deadline);
    if admission.LimitReached? {
      FailedCheckpointOutcome(d, destination.Some?, None, InsufficientStorage, removable);
    } else if admission.DestinationOwned? {
      FailedCheckpointOutcome(d, destination.Some?, None, TransactionConflict, removable);
    } else if c.t.cancelled || now >= deadline {
      FailedCheckpointOutcome(SetState(d, Preparing), destination.Some?, None, OtherFailure, removable);
    }
  }

  /** A new checkpoint is admitted exactly if the limits leave room, its destination is free and there is time. */
  lemma CheckpointAdmitOutcome(c: Ctx, limits: bool, staging: int, direct: bool, destination: Option<string>, repeated: Result<string>, deadline: Time, now: Time, removable: bool)
    requires Grounded(c) && c.t.phase.Free? && c.t.state == New
    ensures AdmittedIfRoom(c, limits && !direct, direct, destination, deadline, now,
                           Act(c, limits, staging, CheckpointAdmit(direct, destination, repeated, deadline, now, removable)))
  {
    CheckpointStartOutcome(c, limits, direct, destination, deadline, now, removable);
  }

  /** A repeated checkpoint is ready exactly if the staged one is direct, in time and of the same output. */
  lemma CheckpointRepeatOutcome(c: Ctx, limits: bool, staging: int, direct: bool, destination: Option<string>, repeated: Result<string>, deadline: Time, now: Time, removable: bool)
    requires Grounded(c) && c.t.phase.Free? && c.t.state != New
    ensures var e := Act(c, limits, staging, CheckpointAdmit(direct, destination, repeated, deadline, now, removable));
            && e.c == c && !e.erase && (e.reply == CheckpointReady || e.reply == Conflict)
            && (e.reply == CheckpointReady <==>
                  && c.t.state == Staged && c.t.desc.Checkpoint? && c.t.desc.direct && direct && !Cut(c.t, now)
                  && repeated.Ok? && c.t.desc.dir == Beside(repeated.value, c.t.id))
  {
  }

  function Output(direct: bool, path: string, id: Id): Path {
    if direct then Beside(path, id) else Staging(false, id)
  }

  predicate Opens(c: Ctx, output: Result<string>, made: Result<()>, before: Time)
    requires c.t.phase.CheckpointOpening?
  {
    output.Ok? && Creates(c, Output(c.t.phase.direct, output.value, c.t.id), made, before)
  }

  /** Why an output could not be opened. */
  function OpenFailure(c: Ctx, output: Result<string>, made: Result<()>, before: Time): Failure
    requires c.t.phase.CheckpointOpening?
  {
    if output.Err? then output.failure else if Cut(c.t, before) then OtherFailure else
    if Output(c.t.phase.direct, output.value, c.t.id) in c.dirs then TransactionConflict else
    if made.Err? then made.failure else OtherFailure
  }

  lemma CheckpointOpenFails(c: Ctx, output: Result<string>, made: Result<()>, before: Time, now: Time, removable: bool)
    requires Grounded(c) && c.t.phase.CheckpointOpening? && (!Opens(c, output, made, before) || Cut(c.t, now))
    ensures var opens := Opens(c, output, made, before);
            Fails(CheckpointOpen(c, c.t.phase.direct, c.t.phase.artifact, output, made, before, now, removable),
                  !opens && CheckpointFrees(c.t.phase.artifact, OpenFailure(c, output, made, before)), opens && !removable)
  {
    var artifact := c.t.phase.artifact;
    if Opens(c, output, made, before) {
      var dir := Output(c.t.phase.direct, output.value, c.t.id);
      OwnDirectoryLaw(c, dir);
      FailedCheckpointOutcome(OwnDirectory(c, dir), artifact, Some(dir), OtherFailure, removable);
    } else {
      FailedCheckpointOutcome(c, artifact, None, OpenFailure(c, output, made, before), removable);
    }
  }

  predicate StagedAt(c: Ctx, d: Ctx, dir: Path, direct: bool) {
    d.t.state == Staged && d.t.desc == Checkpoint(dir, direct) && d.t.hold.dir == dir && d.dirs == c.dirs + {dir} && d.pool == c.pool
  }

  lemma CheckpointOpens(c: Ctx, output: Result<string>, made: Result<()>, before: Time, now: Time, removable: bool)
    requires c.t.phase.CheckpointOpening? && Opens(c, output, made, before) && !Cut(c.t, now)
    ensures StagedAt(c, CheckpointOpen(c, c.t.phase.direct, c.t.phase.artifact, output, made, before, now, removable).c,
                     Output(c.t.phase.direct, output.value, c.t.id), c.t.phase.direct)
  {
  }

  /** Staged exactly if its output directory could be created new, uncancelled and within the deadline. */
  predicate StagedIfOpened(c: Ctx, output: Result<string>, made: Result<()>, before: Time, now: Time, removable: bool, e: Effect)
    requires c.t.phase.CheckpointOpening?
  {
    var opens := Opens(c, output, made, before);
    if opens && !Cut(c.t, now) then StagedAt(c, e.c, Output(c.t.phase.direct, output.value, c.t.id), c.t.phase.direct) else
    Fails(e, !opens && CheckpointFrees(c.t.phase.artifact, OpenFailure(c, output, made, before)), opens && !removable)
  }

  lemma CheckpointOpenOutcome(c: Ctx, output: Result<string>, made: Result<()>, before: Time, now: Time, removable: bool)
    requires Grounded(c) && c.t.phase.CheckpointOpening?
    ensures StagedIfOpened(c, output, made, before, now, removable,
                           CheckpointOpen(c, c.t.phase.direct, c.t.phase.artifact, output, made, before, now, removable))
  {
    if !Opens(c, output, made, before) || Cut(c.t, now) {
      CheckpointOpenFails(c, output, made, before, now, removable);
    } else {
      CheckpointOpens(c, output, made, before, now, removable);
    }
  }

  /** A checkpoint is Staged exactly if its output directory could be created new, uncancelled and within the deadline. */
  lemma LateCheckpointIsNotStaged(c: Ctx, limits: bool, staging: int, output: Result<string>, made: Result<()>, before: Time, now: Time, removable: bool)
    requires Grounded(c) && c.t.phase.CheckpointOpening?
    ensures StagedIfOpened(c, output, made, before, now, removable,
                           Act(c, limits, staging, CheckpointOpened(output, made, before, now, removable)))
  {
    CheckpointOpenOutcome(c, output, made, before, now, removable);
  }
}
