/**
 What the request handlers of broker.cpp do to the transaction whose mutex they
 hold, in place. The program point at which a handler next lets others run is
 recorded in the transaction's `phase`.
 */
module Handlers {
  import L = Lifecycle
  import A = Actions
  import opened Lifecycle
  import opened Transactions

  // Abort and expiry.

  method BeginAbort(t: Transaction)
    modifies t, t.pool
    ensures t.View() == A.BeginAbort(old(t.View()))
  {
    t.SetState(Aborting);
    t.CancelWork();
  }

  method DrainedAbort(t: Transaction, removable: bool) returns (failed: bool)
    modifies t, t.pool, t.area
    ensures t.View() == A.DrainedAbort(old(t.View()), removable)
    ensures failed == CleanupFails(old(t.Fields()), removable)
  {
    if t.gpuOperation.Some? { t.gpuOperation := Some(t.gpuOperation.value.(artifact := false)); }
    failed := t.CleanupTransfer(removable);
    if failed { return; }
    var _ := t.TryClearDescriptor();
    t.SetState(Aborted);
  }

  method FinishAbort(t: Transaction, removable: bool) returns (reply: A.Reply)
    modifies t, t.pool, t.area
    ensures t.View() == A.FinishAbort(old(t.View()), removable).c
    ensures reply == A.FinishAbort(old(t.View()), removable).reply
  {
    var failed := DrainedAbort(t, removable);
    reply := if failed then A.CleanupError else A.AbortComplete;
  }

  method Abort(t: Transaction, now: Time, removable: bool) returns (reply: A.Reply)
    modifies t, t.pool, t.area
    ensures t.View() == A.AbortLocked(old(t.View()), now, removable).c
    ensures reply == A.AbortLocked(old(t.View()), now, removable).reply
  {
    if t.state == Committed { return A.NotFound; }
    if t.state == Aborted {
      var failed := t.CleanupTransfer(removable);
      return if failed then A.CleanupError else A.AbortComplete;
    }
    if t.Expired(now) { return A.TransactionExpired; }
    BeginAbort(t);
    if t.gpuOperation.Some? && t.gpuOperation.value.state == Running {
      t.waiters := t.waiters + 1;
      return A.Silent;
    }
    reply := FinishAbort(t, removable);
  }

  /** One visit of the reaper to a transaction whose mutex it got. */
  method Reap(t: Transaction, now: Time, removable: bool) returns (erase: bool, retain: bool)
    modifies t, t.pool, t.area
    ensures t.View() == A.ReapLocked(old(t.View()), now, removable).c
    ensures erase == A.ReapLocked(old(t.View()), now, removable).erase
    ensures retain == A.ReapLocked(old(t.View()), now, removable).retain
  {
    erase, retain := false, false;
    if t.state == Committed || t.state == Aborted {
      var failed := t.CleanupTransfer(removable);
      retain := !failed;
      return;
    }
    if !t.Expired(now) { return; }
    var _ := t.ExpireTransfer(now);
    BeginAbort(t);
    if t.gpuOperation.Some? && t.gpuOperation.value.state == Running { return; }
    var failed := DrainedAbort(t, removable);
    erase := !failed;
  }

  /** The second half of an Abort that waited: GPU work has drained. */
  method AbortResumed(t: Transaction, removable: bool) returns (reply: A.Reply)
    requires t.waiters > 0
    modifies t, t.pool, t.area
    ensures t.View() == A.FinishAbort(A.Leave(old(t.View())), removable).c
    ensures reply == A.FinishAbort(A.Leave(old(t.View())), removable).reply
  {
    t.waiters := t.waiters - 1;
    assert t.View() == A.Leave(old(t.View()));
    reply := FinishAbort(t, removable);
  }

  /** The second half of an Abort that waited too long. */
  method AbortTimedOut(t: Transaction) returns (reply: A.Reply)
    requires t.waiters > 0
    modifies t`waiters
    ensures t.View() == A.Leave(old(t.View())) && reply == A.GpuStillRunning
  {
    t.waiters := t.waiters - 1;
    reply := A.GpuStillRunning;
  }

  // Commit.

  method CleanupRestore(t: Transaction, removable: bool)
    modifies t, t.pool, t.area
    ensures t.View() == A.CleanupRestore(old(t.View()), removable).c
  {
    if t.descriptor.Restore? && t.descriptor.dir != NoPath {
      var _ := t.RemoveStaging(t.descriptor.dir, removable);
    }
    var _ := t.TryClearDescriptor();
    t.SetState(Committed);
  }

  method Commit(t: Transaction, now: Time, present: bool, removable: bool) returns (reply: A.Reply)
    modifies t, t.pool, t.area
    ensures t.View() == A.CommitLocked(old(t.View()), now, present, removable).c
    ensures reply == A.CommitLocked(old(t.View()), now, present, removable).reply
  {
    if t.state == New || t.state == Aborted { return A.NotFound; }
    if t.Expired(now) { return A.TransactionExpired; }
    if t.state == Preparing { return A.IsPreparing; }
    if t.state == Aborting { return A.IsAborting; }
    if t.state == Committed {
      var _ := t.CleanupTransfer(removable);
      return A.CommitComplete(if t.publication.Some? && t.publication.value.published then Some(t.publication.value.artifact) else None);
    }
    if t.gpuOperation.Some? {
      var operation := t.gpuOperation.value;
      if operation.state != Finished || operation.result.Failed? { return A.GpuNotSucceeded; }
      t.gpuOperation := Some(operation.(artifact := false));
    }
    if t.descriptor.Restore? {
      CleanupRestore(t, removable);
      return A.CommitComplete(None);
    }
    if t.descriptor == Monostate { return A.NoDescriptor; }
    if !present { return A.NotFound; }
    t.phase := if t.publication.None? || !t.publication.value.pending then CommitInspecting else CommitPublishing;
    reply := A.Silent;
  }

  method CommitInspected(t: Transaction, inventory: A.Result<nat>) returns (reply: A.Reply)
    modifies t, t.pool
    ensures t.View() == A.CommitInspect(old(t.View()), inventory).c
    ensures reply == A.CommitInspect(old(t.View()), inventory).reply
  {
    var fits := false;
    if inventory.Ok? { fits := t.Reserve(inventory.value); }
    t.phase := if fits then CommitPublishing else Free;
    reply := if fits then A.Silent else A.Conflict;
  }

  /** A direct publication has renamed the staging directory away. */
  method MarkPublished(t: Transaction)
    modifies t, t.area
    ensures t.View() == A.MarkPublished(if old(t.descriptor).Checkpoint? && old(t.descriptor).direct then A.RenameAway(old(t.View())) else old(t.View()))
  {
    if t.descriptor.Checkpoint? && t.descriptor.direct {
      var _ := t.area.Remove(t.transferDirectory, true);
    }
    if t.publication.Some? { t.publication := Some(t.publication.value.(pending := true, published := true)); }
  }

  method CommitPublication(t: Transaction)
    modifies t, t.pool, t.area
    ensures t.View() == A.CommitPublication(old(t.View()))
  {
    MarkPublished(t);
    var _ := t.TryClearDescriptor();
    t.phase := Free;
    t.SetState(Committed);
  }

  /** The engine published, or failed and perhaps saved what a retry needs. */
  method CommitPublished(t: Transaction, success: bool, saved: bool, removable: bool) returns (reply: A.Reply)
    modifies t, t.pool, t.area
    ensures t.View() == A.CommitPublish(old(t.View()), success, saved, removable).c
    ensures reply == A.CommitPublish(old(t.View()), success, saved, removable).reply
  {
    if !success {
      if saved && t.publication.Some? { t.publication := Some(t.publication.value.(pending := true)); }
      t.phase := Free;
      return A.Conflict;
    }
    var directory := t.transferDirectory;
    CommitPublication(t);
    var _ := t.RemoveStaging(directory, removable);
    reply := A.CommitComplete(if t.publication.Some? && t.publication.value.published then Some(t.publication.value.artifact) else None);
  }

  // GPU work.

  method Gpu(t: Transaction, request: GpuRequest, now: Time, valid: bool) returns (reply: A.Reply)
    modifies t, t.pool
    ensures t.View() == A.GpuLocked(old(t.View()), request, now, valid).c
    ensures reply == A.GpuLocked(old(t.View()), request, now, valid).reply
  {
    var expired := t.ExpireTransfer(now);
    if expired { return A.TransactionExpired; }
    if t.state != Staged { return A.Conflict; }
    if t.gpuOperation.Some? {
      var previous := t.gpuOperation.value;
      if previous.state == Running { return A.Conflict; }
      if !valid || previous.request != request { return A.Conflict; }
      if previous.state == Finished { return A.GpuReply(request, previous.result); }
      t.gpuOperation := Some(previous.(state := Running, result := A.NO_RESULT));
      return A.Silent;
    }
    if !valid || (request.direction == RestoreGpu && !t.descriptor.Restore?) ||
       (request.direction == CheckpointGpu && !t.descriptor.Checkpoint?) {
      return A.Conflict;
    }
    t.gpuOperation := Some(GpuOperation(Running, true, request, true, A.NO_RESULT));
    reply := A.Silent;
  }

  method GpuFinished(t: Transaction, outcome: A.GpuOutcome) returns (reply: A.Reply)
    requires t.gpuOperation.Some? && t.gpuOperation.value.state == Running
    modifies t
    ensures t.View() == A.GpuFinished(old(t.View()), outcome).c
    ensures reply == A.GpuFinished(old(t.View()), outcome).reply
  {
    var operation := t.gpuOperation.value;
    match outcome
    case TargetConflict =>
      t.gpuOperation := Some(operation.(state := Ready, result := A.TARGET_CONFLICT));
      reply := A.Conflict;
    case Done(result) =>
      t.gpuOperation := Some(operation.(state := Finished, result := result));
      reply := A.GpuReply(operation.request, result);
  }

  // Staging.

  /** `erase` tells the broker to drop its registry entry. */
  method RejectBeforeOwnership(t: Transaction, removable: bool) returns (erase: bool)
    modifies t, t.pool, t.area
    ensures t.View() == A.RejectBeforeOwnership(old(t.View()), removable).c
    ensures erase == A.RejectBeforeOwnership(old(t.View()), removable).erase
  {
    t.phase := Free;
    t.SetState(Aborted);
    var failed := t.CleanupTransfer(removable);
    erase := !failed;
  }

  method AbortStaging(t: Transaction, directory: Path, removable: bool)
    modifies t, t.pool, t.area
    ensures t.View() == A.AbortStaging(old(t.View()), directory, removable).c
  {
    var _ := t.TryClearDescriptor();
    t.phase := Free;
    t.SetState(Aborted);
    var _ := t.RemoveStaging(directory, removable);
  }

  method RestoreFailed(t: Transaction, artifact: bool, prepared: bool, owned: bool, failure: A.Failure, removable: bool)
    returns (erase: bool)
    modifies t, t.pool, t.area
    ensures t.View() == A.RestoreFailed(old(t.View()), artifact, prepared, owned, failure, removable).c
    ensures erase == A.RestoreFailed(old(t.View()), artifact, prepared, owned, failure, removable).erase
  {
    if (!owned && failure == A.InsufficientStorage) || (t.state == New && failure == A.TransactionConflict) ||
       (!artifact && !prepared && failure == A.InvalidArgument) {
      erase := RejectBeforeOwnership(t, removable);
    } else {
      AbortStaging(t, if owned then Staging(true, t.id) else NoPath, removable);
      erase := false;
    }
  }

  method RestoreAdmitted(t: Transaction, limits: bool, direct: bool, artifact: bool, found: A.Result<bool>, deadline: Time, removable: bool)
    returns (erase: bool)
    modifies t, t.pool, t.area
    ensures t.View() == A.RestoreAdmitted(old(t.View()), limits, direct, artifact, found, deadline, removable).c
    ensures erase == A.RestoreAdmitted(old(t.View()), limits, direct, artifact, found, deadline, removable).erase
  {
    if t.state != New { return false; }
    if !direct {
      if found.Err? || found.value || Staging(true, t.id) in t.area.dirs {
        erase := RestoreFailed(t, artifact, false, false, if found.Err? then found.failure else A.TransactionConflict, removable);
        return;
      }
    }
    var admission := t.PrepareTransfer(if limits && !direct then t.pool else null, 0, None, deadline);
    if admission == Admitted {
      t.SetState(Preparing);
      t.phase := RestoreScanning(direct, artifact);
      return false;
    }
    var failure := if admission == LimitReached then A.InsufficientStorage else A.TransactionConflict;
    erase := RestoreFailed(t, artifact, false, false, failure, removable);
  }

  method RestoreScanned(t: Transaction, direct: bool, artifact: bool, inventory: A.Result<nat>, now: Time, removable: bool)
    returns (erase: bool)
    modifies t, t.pool, t.area
    ensures t.View() == A.RestoreScan(old(t.View()), direct, artifact, inventory, now, removable).c
    ensures erase == A.RestoreScan(old(t.View()), direct, artifact, inventory, now, removable).erase
  {
    if inventory.Err? {
      erase := RestoreFailed(t, artifact, false, false, inventory.failure, removable);
      return;
    }
    if t.Stopped(now) {
      erase := RestoreFailed(t, artifact, false, false, A.OtherFailure, removable);
      return;
    }
    var fits := t.Reserve(inventory.value);
    if !fits {
      erase := RestoreFailed(t, artifact, true, false, A.InsufficientStorage, removable);
      return;
    }
    t.phase := if direct then RestoreCopying(true, inventory.value) else RestoreSpacing(artifact, inventory.value);
    erase := false;
  }

  /** Goes on if the bytes were reserved. */
  method RestoreSpaced(t: Transaction, artifact: bool, bytes: nat, reserved: bool, removable: bool) returns (erase: bool)
    modifies t, t.pool, t.area
    ensures t.View() == if reserved then A.Enter(old(t.View()), RestoreCreating(artifact, bytes)).c else A.RejectBeforeOwnership(old(t.View()), removable).c
    ensures erase == (!reserved && A.RejectBeforeOwnership(old(t.View()), removable).erase)
  {
    if reserved {
      t.phase := RestoreCreating(artifact, bytes);
      erase := false;
    } else {
      erase := RejectBeforeOwnership(t, removable);
    }
  }

  method RestoreCreated(t: Transaction, artifact: bool, bytes: nat, outcome: A.Result<()>, before: Time, now: Time, removable: bool)
    returns (failed: bool, erase: bool)
    modifies t, t.pool, t.area
    ensures t.View() == A.RestoreCreate(old(t.View()), artifact, bytes, outcome, before, now, removable).c
    ensures erase == A.RestoreCreate(old(t.View()), artifact, bytes, outcome, before, now, removable).erase
    ensures A.RestoreCreate(old(t.View()), artifact, bytes, outcome, before, now, removable).staging == if failed then 0 - bytes else 0
  {
    var failure: Option<A.Failure> := None;
    var owned := false;
    if t.Stopped(before) {
      failure := Some(A.OtherFailure);
    } else {
      var made := t.area.CreateExclusive(Staging(true, t.id), outcome);
      if made.Err? {
        failure := Some(made.failure);
      } else {
        t.OwnDirectory(Staging(true, t.id));
        owned := true;
        if t.Stopped(now) { failure := Some(A.OtherFailure); }
      }
    }
    failed := failure.Some?;
    if failed {
      erase := RestoreFailed(t, artifact, true, owned, failure.value, removable);
    } else {
      t.phase := RestoreCopying(false, bytes);
      erase := false;
    }
  }

  method RestoreCopied(t: Transaction, direct: bool, bytes: nat, copied: A.Result<()>, now: Time, removable: bool)
    returns (erase: bool)
    modifies t, t.pool, t.area
    ensures t.View() == A.RestoreCopy(old(t.View()), direct, bytes, copied, now, removable).c
    ensures erase == A.RestoreCopy(old(t.View()), direct, bytes, copied, now, removable).erase
  {
    if copied.Err? || t.Stopped(now) {
      var failure := if copied.Err? then copied.failure else A.OtherFailure;
      erase := RestoreFailed(t, false, true, !direct, failure, removable);
      return;
    }
    t.SetDescriptor(Restore(if direct then NoPath else Staging(true, t.id)));
    t.SetState(Staged);
    t.phase := Free;
    erase := false;
  }

  method CheckpointFailed(t: Transaction, artifact: bool, owned: Option<Path>, failure: A.Failure, removable: bool)
    returns (erase: bool)
    modifies t, t.pool, t.area
    ensures t.View() == A.CheckpointFailed(old(t.View()), artifact, owned, failure, removable).c
    ensures erase == A.CheckpointFailed(old(t.View()), artifact, owned, failure, removable).erase
  {
    if owned.None? && (failure == A.InsufficientStorage ||
                       (!artifact && (failure == A.InvalidArgument || failure == A.TransactionConflict))) {
      erase := RejectBeforeOwnership(t, removable);
    } else {
      AbortStaging(t, if owned.Some? then owned.value else NoPath, removable);
      erase := false;
    }
  }

  method CheckpointAdmitted(t: Transaction, limits: bool, direct: bool, destination: Option<string>, repeated: A.Result<string>, deadline: Time, now: Time, removable: bool)
    returns (reply: A.Reply, erase: bool)
    modifies t, t.pool, t.area
    ensures t.View() == A.CheckpointAdmitted(old(t.View()), limits, direct, destination, repeated, deadline, now, removable).c
    ensures erase == A.CheckpointAdmitted(old(t.View()), limits, direct, destination, repeated, deadline, now, removable).erase
    ensures reply == A.CheckpointAdmitted(old(t.View()), limits, direct, destination, repeated, deadline, now, removable).reply
  {
    if t.state != New {
      reply := RepeatedCheckpoint(t, direct, repeated, now);
      erase := false;
    } else {
      reply, erase := CheckpointStarted(t, limits, direct, destination, deadline, now, removable);
    }
  }

  /** The answer to a request for a checkpoint that exists already. */
  method RepeatedCheckpoint(t: Transaction, direct: bool, repeated: A.Result<string>, now: Time) returns (reply: A.Reply)
    ensures reply == if A.Repeats(t.Fields(), direct, repeated, now) then A.CheckpointReady else A.Conflict
  {
    reply := A.Conflict;
    if direct && t.state == Staged && t.descriptor.Checkpoint? && t.descriptor.direct {
      if !t.Stopped(now) && repeated.Ok? && t.descriptor.dir == Beside(repeated.value, t.id) { reply := A.CheckpointReady; }
    }
  }

  method CheckpointStarted(t: Transaction, limits: bool, direct: bool, destination: Option<string>, deadline: Time, now: Time, removable: bool)
    returns (reply: A.Reply, erase: bool)
    modifies t, t.pool, t.area
    ensures t.View() == A.CheckpointStarted(old(t.View()), limits, direct, destination, deadline, now, removable).c
    ensures erase == A.CheckpointStarted(old(t.View()), limits, direct, destination, deadline, now, removable).erase
    ensures reply == A.CheckpointStarted(old(t.View()), limits, direct, destination, deadline, now, removable).reply
  {
    reply, erase := A.Conflict, false;
    var artifact := destination.Some?;
    var admission := t.PrepareTransfer(if limits && !direct then t.pool else null, CHECKPOINT_ADMISSION_BYTES, destination, deadline);
    if admission != Admitted {
      var failure := if admission == LimitReached then A.InsufficientStorage else A.TransactionConflict;
      erase := CheckpointFailed(t, artifact, None, failure, removable);
      return;
    }
    t.SetState(Preparing);
    if t.Stopped(now) {
      erase := CheckpointFailed(t, artifact, None, A.OtherFailure, removable);
      return;
    }
    t.phase := CheckpointOpening(direct, artifact);
    reply := A.Silent;
  }

  method CheckpointOpened(t: Transaction, direct: bool, artifact: bool, output: A.Result<string>, outcome: A.Result<()>,
                          before: Time, now: Time, removable: bool)
    returns (erase: bool)
    modifies t, t.pool, t.area
    ensures t.View() == A.CheckpointOpen(old(t.View()), direct, artifact, output, outcome, before, now, removable).c
    ensures erase == A.CheckpointOpen(old(t.View()), direct, artifact, output, outcome, before, now, removable).erase
  {
    if output.Err? {
      erase := CheckpointFailed(t, artifact, None, output.failure, removable);
      return;
    }
    if t.Stopped(before) {
      erase := CheckpointFailed(t, artifact, None, A.OtherFailure, removable);
      return;
    }
    var directory := A.OutputPath(direct, output.value, t.id);
    var made := t.area.CreateExclusive(directory, outcome);
    if made.Err? {
      erase := CheckpointFailed(t, artifact, None, made.failure, removable);
      return;
    }
    t.OwnDirectory(directory);
    if t.Stopped(now) {
      erase := CheckpointFailed(t, artifact, Some(directory), A.OtherFailure, removable);
      return;
    }
    t.SetDescriptor(Checkpoint(directory, direct));
    t.SetState(Staged);
    t.phase := Free;
    erase := false;
  }
}
