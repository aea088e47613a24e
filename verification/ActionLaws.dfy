/**
 What every action keeps, for one transaction: its own invariant, the parts of
 the shared state it does not own, and the one-way streets of its life.
 */
module ActionLaws {
  import opened Lifecycle
  import opened Actions

  /** Bytes, slot, destination and directory that the holder accounts for. */
  function Share(hold: Hold): nat {
    if hold.limited && !hold.released then hold.reserved else 0
  }

  function Slot(hold: Hold): nat {
    if hold.limited && !hold.released then 1 else 0
  }

  predicate HasDestination(hold: Hold) {
    hold.limited && hold.pub.Some?
  }

  predicate Owns(hold: Hold, artifact: string) {
    HasDestination(hold) && hold.pub.value.artifact == artifact
  }

  predicate KeepsDestination(hold: Hold, later: Hold) {
    HasDestination(hold) ==> Owns(later, hold.pub.value.artifact)
  }

  predicate Records(hold: Hold, dir: Path) {
    dir != NoPath && hold.dir == dir
  }

  predicate StagingPhase(p: Phase) {
    !p.Free? && !CommitPhase(p)
  }

  predicate RestorePhase(p: Phase) {
    StagingPhase(p) && !p.CheckpointOpening?
  }

  predicate CommitPhase(p: Phase) {
    p.CommitInspecting? || p.CommitPublishing?
  }

  predicate GpuSucceeded(g: GpuOperation) {
    g.state == Finished && g.result.Succeeded?
  }

  /** The mutex is free only between Preparing and the next state; a staged transaction knows its staging. */
  predicate PhaseInv(t: Txn) {
    && (t.phase.Free? ==> t.state != Preparing)
    && (StagingPhase(t.phase) ==> t.state == Preparing)
    && (CommitPhase(t.phase) ==> t.state == Staged && t.desc.Checkpoint?)
    && (t.state == Staged ==> t.desc != Monostate && t.desc.dir == t.hold.dir && (t.desc.Checkpoint? ==> t.hold.dir != NoPath))
    && (RestorePhase(t.phase) || (t.state == Staged && t.desc.Restore?) ==> t.hold.pub.None?)
    && (t.state == New ==> t.hold.dir == NoPath && !t.hold.limited && t.hold.pub.None? && t.deadline.None?)
    && (t.state == New || t.state == Preparing ==> t.desc == Monostate && t.gpu.None? && t.waiters == 0)
    && (t.state == Preparing ==>
          match t.phase
          case RestoreScanning(direct, _) => t.hold.dir == NoPath && (direct ==> !t.hold.limited)
          case RestoreCopying(direct, _) => if direct then t.hold.dir == NoPath && !t.hold.limited else t.hold.dir == Staging(true, t.id)
          case _ => t.hold.dir == NoPath)
  }

  predicate CleanupInv(t: Txn) {
    && (!t.hold.limited ==> t.hold.reserved == 0 && !t.hold.released)
    && (t.hold.released ==> t.hold.reserved == 0 && t.hold.dir == NoPath && Terminal(t))
    && (t.hold.dir != NoPath ==> t.hold.dir.id == t.id)
    && (t.state == Aborted && !HasPendingCleanup(t) ==> !HasDestination(t.hold))
    && (Terminal(t) && !HasPendingCleanup(t) ==> t.desc == Monostate)
    && (t.retained ==> Terminal(t) && !HasPendingCleanup(t))
    && (t.state == Aborting ==> t.cancelled)
    && (t.expired ==> t.state == Aborting || t.state == Aborted)
  }

  predicate GpuInv(t: Txn) {
    && (t.waiters > 0 ==> t.gpu.Some? && (t.state == Aborting || t.state == Aborted))
    && (t.gpu.Some? ==>
          var g := t.gpu.value;
          && (g.state == Running ==> !Terminal(t) && g.artifact && t.phase.Free?)
          && (g.state == Ready && t.state == Staged ==> g.artifact)
          && (g.pidfds <==> !Terminal(t))
          && (Terminal(t) ==> !g.artifact)
          && (t.state == Committed || CommitPhase(t.phase) ==> GpuSucceeded(g) && !g.artifact))
  }

  predicate TxnInv(t: Txn) {
    PhaseInv(t) && CleanupInv(t) && GpuInv(t)
  }

  predicate WithinLimits(pool: Pool) {
    pool.reserved <= pool.byteLimit && pool.active <= pool.transactionLimit
  }

  predicate Sound(b: Books) {
    WithinLimits(b.pool) && (HasDestination(b.hold) ==> b.hold.pub.value.artifact in b.pool.destinations)
  }

  predicate Grounded(c: Ctx) {
    TxnInv(c.t) && Sound(Accounts(c))
  }

  /** What a holder leaves to everybody else: totals less its own part. */
  datatype Rest = Rest(byteLimit: nat, transactionLimit: nat, reserved: int, active: int, destinations: set<string>, dirs: set<Path>)

  function Others(b: Books): Rest {
    Rest(b.pool.byteLimit, b.pool.transactionLimit, b.pool.reserved - Share(b.hold), b.pool.active - Slot(b.hold),
         if HasDestination(b.hold) then b.pool.destinations - {b.hold.pub.value.artifact} else b.pool.destinations,
         if b.hold.dir != NoPath then b.dirs - {b.hold.dir} else b.dirs)
  }

  ghost predicate Frame(b: Books, d: Books) {
    Others(b) == Others(d)
  }

  ghost predicate Transfers(b: Books, d: Books) {
    Sound(b) ==> Frame(b, d) && Sound(d)
  }

  predicate KeepsDeadline(t: Txn, u: Txn) {
    t.deadline.Some? ==> u.deadline == t.deadline
  }

  /** How a transaction may change from one observation to the next, however far apart. */
  predicate Evolves(t: Txn, u: Txn) {
    && u.id == t.id
    && (t.state == Committed ==> u.state == Committed && Payload(u.hold) == Payload(t.hold))
    && (t.state == Aborted ==> u.state == Aborted)
    && (t.state == Aborting ==> u.state == Aborting || u.state == Aborted)
    && (t.cancelled ==> u.cancelled)
    && KeepsDeadline(t, u)
    && (t.cancelled && t.state != Staged ==> u.state != Staged)
    && (t.retained ==> u.retained)
    && (t.gpu.Some? ==> u.gpu.Some? && u.gpu.value.request == t.gpu.value.request)
    && (t.gpu.Some? && t.gpu.value.state == Finished ==>
          u.gpu.value.state == Finished && u.gpu.value.result == t.gpu.value.result)
    && (Terminal(t) && !HasPendingCleanup(t) ==> !HasPendingCleanup(u))
    && (u.state != Aborted || HasPendingCleanup(u) ==> KeepsDestination(t.hold, u.hold))
  }

  predicate FinishedRun(t: Txn) {
    t.gpu.Some? && t.gpu.value.state == Finished
  }

  /** What a reply says about the transaction it came from. */
  predicate Witnesses(t: Txn, reply: Reply) {
    && (reply.CommitComplete? ==> t.state == Committed && Payload(t.hold) == reply.payload)
    && (reply.AbortComplete? ==> t.state == Aborted)
    && (reply.GpuReply? ==> FinishedRun(t) && t.gpu.value.request == reply.request && t.gpu.value.result == reply.result)
  }

  /** From one observation to a later one, the invariant holds, the rest is untouched and life goes one way. */
  ghost predicate Keeps(c: Ctx, d: Ctx) {
    Grounded(d) && Frame(Accounts(c), Accounts(d)) && Evolves(c.t, d.t) && d.t.retained == c.t.retained
  }

  predicate Tells(t: Txn, e: Effect) {
    && Witnesses(e.c.t, e.reply)
    && (e.published ==> t.state != Committed && e.c.t.state == Committed && e.reply.CommitComplete?)
    && (e.ran <==> !FinishedRun(t) && FinishedRun(e.c.t))
    && (e.ran ==> e.reply.GpuReply?)
  }

  ghost predicate EffectOk(c: Ctx, e: Effect) {
    && Keeps(c, e.c)
    && e.staging == Held(e.c.t) - Held(c.t)
    && (e.erase ==> Terminal(e.c.t) && !HasPendingCleanup(e.c.t))
    && (e.retain ==> e.c.t.phase.Free?)
    && Tells(c.t, e)
  }

  lemma ReleaseReservationLaw(b: Books)
    ensures Transfers(b, ReleaseReservation(b))
  {
  }

  lemma ReleaseDestinationLaw(b: Books)
    ensures Transfers(b, ReleaseDestination(b))
  {
  }

  lemma ClearLaw(b: Books)
    ensures Transfers(b, Clear(b))
  {
    var b1 := DropPendingIndex(b);
    var b2 := ReleaseReservation(b1);
    ReleaseReservationLaw(b1);
    assert Transfers(b2, DropDirectory(b2));
  }

  lemma SetStateLaw(c: Ctx, state: State)
    ensures Transfers(Accounts(c), Accounts(SetState(c, state)))
  {
    ReleaseDestinationLaw(Accounts(c));
  }

  lemma RemoveStagingLaw(c: Ctx, dir: Path, removable: bool)
    ensures Transfers(Accounts(c), Accounts(RemoveStaging(c, dir, removable)))
  {
    ClearLaw(Accounts(c));
    ReleaseDestinationLaw(Clear(Accounts(c)));
  }

  lemma AdmitLaw(c: Ctx, limited: bool, bytes: nat, artifact: Option<string>, deadline: Time)
    requires c.t.hold == NOTHING_HELD
    ensures Transfers(Accounts(c), Accounts(PrepareTransfer(c, limited, bytes, artifact, deadline).0))
  {
  }

  lemma ReserveLaw(c: Ctx, bytes: nat)
    requires !c.t.hold.released
    ensures Transfers(Accounts(c), Accounts(Reserve(c, bytes)))
  {
  }

  lemma OwnDirectoryLaw(c: Ctx, dir: Path)
    requires dir !in c.dirs && c.t.hold.dir == NoPath && dir != NoPath
    ensures Transfers(Accounts(c), Accounts(OwnDirectory(c, dir)))
  {
  }

  lemma KeepsTransitive(c: Ctx, d: Ctx, e: Ctx)
    requires Keeps(c, d) && Keeps(d, e)
    ensures Keeps(c, e)
  {
  }

  /** A reply that claims nothing, from a transaction that stays as it is. */
  lemma StayLaw(c: Ctx, reply: Reply)
    requires Grounded(c) && Witnesses(c.t, reply)
    ensures EffectOk(c, Answer(c, reply))
  {
  }

  /** Outside staging no restore bytes are held: what is kept and truly told is in order. */
  lemma AnswerLaw(c: Ctx, d: Ctx, reply: Reply)
    requires Keeps(c, d) && !StagingPhase(c.t.phase) && !StagingPhase(d.t.phase)
    requires FinishedRun(d.t) ==> FinishedRun(c.t)
    requires Witnesses(d.t, reply)
    ensures EffectOk(c, Answer(d, reply))
  {
  }

  /** What is left in hand once staging has been removed. */
  function Emptied(hold: Hold, aborted: bool): Hold {
    Hold(hold.limited, if hold.limited then 0 else hold.reserved, hold.limited || hold.released,
         if hold.pub.None? || (aborted && hold.limited) then None else Some(hold.pub.value.(pending := false)), NoPath)
  }

  lemma ClearShape(b: Books)
    requires b.hold.released ==> b.hold.reserved == 0
    ensures Clear(b).hold == Emptied(b.hold, false)
  {
  }

  lemma RemovedShape(c: Ctx, removable: bool)
    requires !RemoveFails(c.t, c.t.hold.dir, removable) && (c.t.hold.released ==> c.t.hold.reserved == 0)
    ensures RemoveStaging(c, c.t.hold.dir, removable).t ==
            c.t.(hold := Emptied(c.t.hold, c.t.state == Aborted), desc := if Terminal(c.t) then Monostate else c.t.desc)
  {
    ClearShape(Accounts(c));
    var d := Settle(c, Clear(Accounts(c)));
    assert d.t == c.t.(hold := Emptied(c.t.hold, false));
    assert !HasPendingCleanup(d.t);
  }

  /** Retrying the cleanup of a finished transaction. */
  lemma CleanupLaw(c: Ctx, removable: bool)
    requires Grounded(c) && Terminal(c.t)
    ensures var d := RemoveStaging(c, c.t.hold.dir, removable);
            && Grounded(d) && Frame(Accounts(c), Accounts(d)) && Evolves(c.t, d.t)
            && d.t == c.t.(hold := d.t.hold, desc := d.t.desc)
            && (HasPendingCleanup(d.t) ==> CleanupFails(c.t, removable))
  {
    RemoveStagingLaw(c, c.t.hold.dir, removable);
    if !RemoveFails(c.t, c.t.hold.dir, removable) {
      RemovedShape(c, removable);
      EmptiedInv(c.t);
    }
  }

  lemma EmptiedInv(t: Txn)
    requires TxnInv(t) && Terminal(t)
    ensures var u := t.(hold := Emptied(t.hold, t.state == Aborted), desc := Monostate);
            TxnInv(u) && Evolves(t, u)
  {
  }

  // Staging.

  /** Nothing but holdings has been acquired yet, all of them returnable. */
  predicate Preparatory(t: Txn) {
    && (t.state == New || t.state == Preparing)
    && t.desc == Monostate && t.gpu.None? && t.waiters == 0 && !t.retained && !t.expired
    && !t.hold.released && (!t.hold.limited ==> t.hold.reserved == 0)
    && (t.hold.dir != NoPath ==> t.hold.dir.id == t.id)
  }

  /** Staging failed: the transaction is Aborted and whatever could not be returned is still on record. */
  ghost predicate Ended(c: Ctx, e: Effect) {
    && Grounded(e.c) && Frame(Accounts(c), Accounts(e.c))
    && e.c.t.state == Aborted && e.c.t.phase.Free? && e.c.t.gpu.None?
    && e.c.t.id == c.t.id && e.c.t.cancelled == c.t.cancelled && e.c.t.deadline == c.t.deadline && !e.c.t.retained
    && (e.erase ==> !HasPendingCleanup(e.c.t)) && !e.retain && e.staging == 0 && !e.published && !e.ran
    && (HasPendingCleanup(e.c.t) ==> KeepsDestination(c.t.hold, e.c.t.hold))
    && (e.reply == Conflict)
  }

  lemma AbortedLaw(c: Ctx)
    requires Preparatory(c.t) && Sound(Accounts(c))
    ensures var d := SetState(Unlock(c), Aborted);
            && Grounded(d) && Frame(Accounts(c), Accounts(d)) && d.t.hold.dir == c.t.hold.dir
            && (HasPendingCleanup(d.t) ==> KeepsDestination(c.t.hold, d.t.hold))
  {
    SetStateLaw(Unlock(c), Aborted);
  }

  lemma RejectLaw(c: Ctx, removable: bool)
    requires Preparatory(c.t) && Sound(Accounts(c)) && c.t.hold.dir == NoPath
    ensures Ended(c, RejectBeforeOwnership(c, removable))
  {
    AbortedLaw(c);
    CleanupLaw(SetState(Unlock(c), Aborted), removable);
  }

  lemma AbortStagingLaw(c: Ctx, removable: bool)
    requires Preparatory(c.t) && Sound(Accounts(c))
    ensures Ended(c, AbortStaging(c, c.t.hold.dir, removable))
  {
    assert TryClearDescriptor(c.t) == c.t;
    AbortedLaw(c);
    CleanupLaw(SetState(Unlock(c), Aborted), removable);
  }

  lemma RestoreFailedLaw(c: Ctx, artifact: bool, prepared: bool, owned: bool, failure: Failure, removable: bool)
    requires Preparatory(c.t) && Sound(Accounts(c))
    requires c.t.hold.dir == (if owned then Staging(true, c.t.id) else NoPath)
    requires owned ==> prepared && c.t.state == Preparing
    ensures Ended(c, RestoreFailed(c, artifact, prepared, owned, failure, removable))
  {
    AbortStagingLaw(c, removable);
    if !owned { RejectLaw(c, removable); }
  }

  lemma CheckpointFailedLaw(c: Ctx, artifact: bool, owned: Option<Path>, failure: Failure, removable: bool)
    requires Preparatory(c.t) && Sound(Accounts(c))
    requires c.t.hold.dir == (if owned.Some? then owned.value else NoPath)
    ensures Ended(c, CheckpointFailed(c, artifact, owned, failure, removable))
  {
    AbortStagingLaw(c, removable);
    if owned.None? { RejectLaw(c, removable); }
  }

  lemma EndedIsOk(c: Ctx, d: Ctx, e: Effect)
    requires Grounded(c) && (c.t.state == New || c.t.state == Preparing)
    requires Frame(Accounts(c), Accounts(d)) && d.t.id == c.t.id && d.t.cancelled == c.t.cancelled
    requires KeepsDestination(c.t.hold, d.t.hold) && KeepsDeadline(c.t, d.t)
    requires Ended(d, e)
    ensures EffectOk(c, GiveBack(Held(c.t), e))
  {
  }

  /** From `c`, holdings may have been acquired up to `d` when staging failed. */
  ghost predicate Acquired(c: Ctx, d: Ctx) {
    && Grounded(c) && Preparatory(c.t)
    && Preparatory(d.t) && Sound(Accounts(d)) && Frame(Accounts(c), Accounts(d))
    && d.t.id == c.t.id && d.t.cancelled == c.t.cancelled
    && KeepsDestination(c.t.hold, d.t.hold) && KeepsDeadline(c.t, d.t)
  }

  lemma RestoreFailureIsOk(c: Ctx, d: Ctx, artifact: bool, prepared: bool, owned: bool, failure: Failure, removable: bool)
    requires Acquired(c, d)
    requires d.t.hold.dir == (if owned then Staging(true, d.t.id) else NoPath)
    requires owned ==> prepared && d.t.state == Preparing
    ensures EffectOk(c, GiveBack(Held(c.t), RestoreFailed(d, artifact, prepared, owned, failure, removable)))
  {
    RestoreFailedLaw(d, artifact, prepared, owned, failure, removable);
    EndedIsOk(c, d, RestoreFailed(d, artifact, prepared, owned, failure, removable));
  }

  lemma CheckpointFailureIsOk(c: Ctx, d: Ctx, artifact: bool, owned: Option<Path>, failure: Failure, removable: bool)
    requires Acquired(c, d) && Held(c.t) == 0
    requires d.t.hold.dir == (if owned.Some? then owned.value else NoPath)
    ensures EffectOk(c, CheckpointFailed(d, artifact, owned, failure, removable))
  {
    CheckpointFailedLaw(d, artifact, owned, failure, removable);
    EndedIsOk(c, d, CheckpointFailed(d, artifact, owned, failure, removable));
  }

  /** Staging moves on without giving anything up. */
  lemma AdvanceIsOk(c: Ctx, d: Ctx, phase: Phase)
    requires Grounded(c) && (c.t.state == New || c.t.state == Preparing)
    requires Frame(Accounts(c), Accounts(d)) && Sound(Accounts(d)) && KeepsDestination(c.t.hold, d.t.hold)
    requires d.t.state == Preparing && StagingPhase(phase)
    requires d.t == c.t.(state := Preparing, deadline := d.t.deadline, hold := d.t.hold) && KeepsDeadline(c.t, d.t)
    requires TxnInv(d.t.(phase := phase))
    ensures EffectOk(c, Enter(d, phase).(staging := Held(d.t.(phase := phase)) - Held(c.t)))
  {
  }

  /** Staging is complete: the mutex goes free on a Staged transaction that knows its directory. */
  lemma StagedIsOk(c: Ctx, d: Ctx, desc: Descriptor)
    requires Grounded(c) && c.t.state == Preparing && !c.t.cancelled
    requires Frame(Accounts(c), Accounts(d)) && Sound(Accounts(d)) && KeepsDestination(c.t.hold, d.t.hold)
    requires d.t == c.t.(hold := d.t.hold)
    requires d.t.hold.released == c.t.hold.released && d.t.hold.limited == c.t.hold.limited && d.t.hold.reserved == c.t.hold.reserved
    requires desc != Monostate && desc.dir == d.t.hold.dir && (desc.Checkpoint? ==> desc.dir != NoPath)
    requires d.t.hold.dir != NoPath ==> d.t.hold.dir.id == d.t.id
    requires desc.Restore? ==> d.t.hold.pub.None?
    ensures EffectOk(c, GiveBack(Held(c.t), Quiet(Unlock(SetState(d.(t := d.t.(desc := desc)), Staged)))))
  {
  }

  /** Admission from scratch: refused or not, nothing is lost, and a refusal leaves no share in the pool. */
  lemma AdmissionLaw(c: Ctx, limited: bool, bytes: nat, artifact: Option<string>, deadline: Time)
    requires Grounded(c) && c.t.state == New
    ensures var (d, admission) := PrepareTransfer(c, limited, bytes, artifact, deadline);
            && Acquired(c, d) && d.t.hold.dir == NoPath
            && d.t == c.t.(deadline := Some(deadline), hold := d.t.hold)
            && d.t.hold.limited == (limited && admission.Admitted?)
  {
    AdmitLaw(c, limited, bytes, artifact, deadline);
  }

  lemma RestoreStartLaw(c: Ctx, limited: bool, direct: bool, artifact: bool, deadline: Time)
    requires Grounded(c) && c.t.state == New && (direct ==> !limited)
    ensures var (d, admission) := PrepareTransfer(c, limited, 0, None, deadline);
            admission.Admitted? ==> EffectOk(c, Enter(SetState(d, Preparing), RestoreScanning(direct, artifact)))
  {
    var (d, admission) := PrepareTransfer(c, limited, 0, None, deadline);
    AdmissionLaw(c, limited, 0, None, deadline);
    if admission.Admitted? { AdvanceIsOk(c, SetState(d, Preparing), RestoreScanning(direct, artifact)); }
  }

  lemma RestoreAdmittedLaw(c: Ctx, limits: bool, direct: bool, artifact: bool, found: Result<bool>, deadline: Time, removable: bool)
    requires Grounded(c) && c.t.phase.Free?
    ensures EffectOk(c, RestoreAdmitted(c, limits, direct, artifact, found, deadline, removable))
  {
    if c.t.state != New {
      StayLaw(c, Conflict);
    } else if !direct && Occupied(c, found).Some? {
      RestoreFailureIsOk(c, c, artifact, false, false, Occupied(c, found).value, removable);
    } else {
      var (d, admission) := PrepareTransfer(c, limits && !direct, 0, None, deadline);
      RestoreStartLaw(c, limits && !direct, direct, artifact, deadline);
      if !admission.Admitted? {
        AdmissionLaw(c, limits && !direct, 0, None, deadline);
        var failure := if admission.LimitReached? then InsufficientStorage else TransactionConflict;
        RestoreFailureIsOk(c, d, artifact, false, false, failure, removable);
      }
    }
  }

  lemma RestoreScanLaw(c: Ctx, inventory: Result<nat>, now: Time, removable: bool)
    requires Grounded(c) && c.t.phase.RestoreScanning?
    ensures EffectOk(c, RestoreScan(c, c.t.phase.direct, c.t.phase.artifact, inventory, now, removable))
  {
    var direct, artifact := c.t.phase.direct, c.t.phase.artifact;
    if inventory.Ok? && !Stopped(c.t, now) && ReserveFits(c, inventory.value) {
      var bytes := inventory.value;
      ReserveLaw(c, bytes);
      AdvanceIsOk(c, Reserve(c, bytes), if direct then RestoreCopying(true, bytes) else RestoreSpacing(artifact, bytes));
    } else {
      var fits := inventory.Ok? && !Stopped(c.t, now);
      var failure := if inventory.Err? then inventory.failure else if fits then InsufficientStorage else OtherFailure;
      RestoreFailureIsOk(c, c, artifact, fits, false, failure, removable);
    }
  }

  lemma RestoreReserveLaw(c: Ctx, staging: int, available: Option<nat>, removable: bool)
    requires Grounded(c) && c.t.phase.RestoreSpacing?
    ensures EffectOk(c, RestoreReserve(c, c.t.phase.artifact, c.t.phase.bytes, staging, available, removable))
  {
    if !SpaceFor(c.t.phase.bytes + staging, available) {
      RejectLaw(c, removable);
      EndedIsOk(c, c, RejectBeforeOwnership(c, removable));
    } else {
      AdvanceIsOk(c, c, RestoreCreating(c.t.phase.artifact, c.t.phase.bytes));
    }
  }

  lemma RestoreCreateLaw(c: Ctx, made: Result<()>, before: Time, now: Time, removable: bool)
    requires Grounded(c) && c.t.phase.RestoreCreating?
    ensures EffectOk(c, RestoreCreate(c, c.t.phase.artifact, c.t.phase.bytes, made, before, now, removable))
  {
    var artifact, bytes := c.t.phase.artifact, c.t.phase.bytes;
    var dir := Staging(true, c.t.id);
    var result := if Stopped(c.t, before) then Err(OtherFailure) else Mkdir(c.dirs, dir, made);
    if result.Err? {
      RestoreFailureIsOk(c, c, artifact, true, false, result.failure, removable);
      return;
    }
    var d := OwnDirectory(c, dir);
    OwnDirectoryLaw(c, dir);
    if Stopped(c.t, now) {
      RestoreFailureIsOk(c, d, artifact, true, true, OtherFailure, removable);
    } else {
      AdvanceIsOk(c, d, RestoreCopying(false, bytes));
    }
  }

  lemma RestoreCopyLaw(c: Ctx, copied: Result<()>, now: Time, removable: bool)
    requires Grounded(c) && c.t.phase.RestoreCopying?
    ensures EffectOk(c, RestoreCopy(c, c.t.phase.direct, c.t.phase.bytes, copied, now, removable))
  {
    if copied.Err? || Stopped(c.t, now) {
      var failure := if copied.Err? then copied.failure else OtherFailure;
      RestoreFailureIsOk(c, c, false, true, !c.t.phase.direct, failure, removable);
    } else {
      StagedIsOk(c, c, Restore(if c.t.phase.direct then NoPath else Staging(true, c.t.id)));
    }
  }

  lemma CheckpointAdmittedLaw(c: Ctx, limits: bool, direct: bool, destination: Option<string>, repeated: Result<string>, deadline: Time, now: Time, removable: bool)
    requires Grounded(c) && c.t.phase.Free?
    ensures EffectOk(c, CheckpointAdmitted(c, limits, direct, destination, repeated, deadline, now, removable))
  {
    if c.t.state != New {
      StayLaw(c, if Repeats(c.t, direct, repeated, now) then CheckpointReady else Conflict);
    } else {
      CheckpointStartedLaw(c, limits, direct, destination, deadline, now, removable);
    }
  }

  lemma CheckpointStartedLaw(c: Ctx, limits: bool, direct: bool, destination: Option<string>, deadline: Time, now: Time, removable: bool)
    requires Grounded(c) && c.t.state == New
    ensures EffectOk(c, CheckpointStarted(c, limits, direct, destination, deadline, now, removable))
  {
    var (d, admission) := PrepareTransfer(c, limits && !direct, CHECKPOINT_ADMISSION_BYTES, destination, deadline);
    AdmissionLaw(c, limits && !direct, CHECKPOINT_ADMISSION_BYTES, destination, deadline);
    if admission.Admitted? && !Stopped(d.t, now) {
      AdvanceIsOk(c, SetState(d, Preparing), CheckpointOpening(direct, destination.Some?));
    } else {
      var f := if admission.Admitted? then SetState(d, Preparing) else d;
      var failure := match admission
        case LimitReached => InsufficientStorage
        case DestinationOwned => TransactionConflict
        case Admitted => OtherFailure;
      CheckpointFailureIsOk(c, f, destination.Some?, None, failure, removable);
    }
  }

  lemma CheckpointOpenLaw(c: Ctx, output: Result<string>, made: Result<()>, before: Time, now: Time, removable: bool)
    requires Grounded(c) && c.t.phase.CheckpointOpening?
    ensures EffectOk(c, CheckpointOpen(c, c.t.phase.direct, c.t.phase.artifact, output, made, before, now, removable))
  {
    var artifact := c.t.phase.artifact;
    var dir := OutputPath(c.t.phase.direct, if output.Ok? then output.value else "", c.t.id);
    var result := if output.Err? then Err(output.failure) else
                  if Stopped(c.t, before) then Err(OtherFailure) else Mkdir(c.dirs, dir, made);
    if result.Err? {
      CheckpointFailureIsOk(c, c, artifact, None, result.failure, removable);
      return;
    }
    var d := OwnDirectory(c, dir);
    OwnDirectoryLaw(c, dir);
    if Stopped(c.t, now) {
      CheckpointFailureIsOk(c, d, artifact, Some(dir), OtherFailure, removable);
    } else {
      StagedIsOk(c, d, Checkpoint(dir, c.t.phase.direct));
    }
  }

  // Commit.

  lemma DropArtifactLaw(c: Ctx)
    requires Grounded(c) && c.t.phase.Free? && !GpuRunning(c.t) && (c.t.gpu.Some? && c.t.state == Staged ==> FinishedRun(c.t))
    ensures Keeps(c, c.(t := DropArtifact(c.t)))
  {
  }

  /** A restore commits whether or not its staging could be removed; what is left stays on record. */
  function Restored(t: Txn, removed: bool): Txn {
    var hold := if removed && t.hold.dir != NoPath then Emptied(t.hold, false) else t.hold;
    t.(state := Committed, gpu := ClosePidfds(t.gpu), hold := hold, desc := if Pending(hold) then t.desc else Monostate)
  }

  lemma RestoredShape(c: Ctx, removable: bool)
    requires TxnInv(c.t) && c.t.state == Staged && c.t.desc.Restore?
    ensures CleanupRestore(c, removable).c.t == Restored(c.t, removable)
  {
    if !RemoveFails(c.t, c.t.hold.dir, removable) { RemovedShape(c, removable); }
  }

  lemma RestoredInv(t: Txn, removed: bool)
    requires TxnInv(t) && t.state == Staged && t.phase.Free? && t.desc.Restore?
    requires t.gpu.Some? ==> GpuSucceeded(t.gpu.value) && !t.gpu.value.artifact
    ensures TxnInv(Restored(t, removed)) && Evolves(t, Restored(t, removed))
  {
  }

  lemma CleanupRestoreLaw(c: Ctx, removable: bool)
    requires Grounded(c) && c.t.state == Staged && c.t.phase.Free? && c.t.desc.Restore?
    requires c.t.gpu.Some? ==> GpuSucceeded(c.t.gpu.value) && !c.t.gpu.value.artifact
    ensures Keeps(c, CleanupRestore(c, removable).c)
    ensures CleanupRestore(c, removable).c.t == Restored(c.t, removable)
  {
    RemoveStagingLaw(c, c.t.hold.dir, removable);
    RestoredShape(c, removable);
    RestoredInv(c.t, removable);
  }

  lemma CommitRestoreLaw(c: Ctx, removable: bool)
    requires Grounded(c) && c.t.state == Staged && c.t.phase.Free? && c.t.desc.Restore?
    requires c.t.gpu.Some? ==> GpuSucceeded(c.t.gpu.value)
    ensures EffectOk(c, CleanupRestore(c.(t := DropArtifact(c.t)), removable))
  {
    var d := c.(t := DropArtifact(c.t));
    DropArtifactLaw(c);
    CleanupRestoreLaw(d, removable);
    KeepsTransitive(c, d, CleanupRestore(d, removable).c);
    AnswerLaw(c, CleanupRestore(d, removable).c, CommitComplete(None));
  }

  lemma CommitCheckpointLaw(c: Ctx, phase: Phase)
    requires Grounded(c) && c.t.state == Staged && c.t.phase.Free? && c.t.desc.Checkpoint?
    requires c.t.gpu.Some? ==> GpuSucceeded(c.t.gpu.value)
    requires phase.Free? || CommitPhase(phase)
    ensures Keeps(c, c.(t := DropArtifact(c.t).(phase := phase)))
  {
  }

  lemma CommitAgainLaw(c: Ctx, removable: bool)
    requires Grounded(c) && c.t.phase.Free? && c.t.state == Committed
    ensures EffectOk(c, Answer(CleanupTransfer(c, removable), CommitComplete(Payload(CleanupTransfer(c, removable).t.hold))))
  {
    CleanupLaw(c, removable);
  }

  lemma CommitStagedCheckpointLaw(c: Ctx, now: Time, present: bool, removable: bool)
    requires Grounded(c) && c.t.phase.Free? && c.t.state == Staged && c.t.desc.Checkpoint? && !Expired(c.t, now)
    requires c.t.gpu.Some? ==> GpuSucceeded(c.t.gpu.value)
    ensures EffectOk(c, CommitLocked(c, now, present, removable))
  {
    var e := CommitLocked(c, now, present, removable);
    CommitCheckpointLaw(c, e.c.t.phase);
    AnswerLaw(c, e.c, e.reply);
  }

  lemma CommitLockedLaw(c: Ctx, now: Time, present: bool, removable: bool)
    requires Grounded(c) && c.t.phase.Free?
    ensures EffectOk(c, CommitLocked(c, now, present, removable))
  {
    if c.t.state == Committed {
      CommitAgainLaw(c, removable);
    } else if c.t.state == Staged && !Expired(c.t, now) && (c.t.gpu.Some? ==> GpuSucceeded(c.t.gpu.value)) {
      if c.t.desc.Restore? {
        CommitRestoreLaw(c, removable);
      } else {
        CommitStagedCheckpointLaw(c, now, present, removable);
      }
    } else {
      StayLaw(c, CommitLocked(c, now, present, removable).reply);
    }
  }

  lemma CommitInspectLaw(c: Ctx, inventory: Result<nat>)
    requires Grounded(c) && c.t.phase.CommitInspecting?
    ensures EffectOk(c, CommitInspect(c, inventory))
  {
    if inventory.Ok? { ReserveLaw(c, inventory.value); }
  }

  function Marked(hold: Hold): Hold {
    if hold.pub.None? then hold else hold.(pub := Some(hold.pub.value.(pending := true, published := true)))
  }

  lemma PublicationShape(c: Ctx)
    requires TxnInv(c.t) && c.t.phase.CommitPublishing?
    ensures var d := CommitPublication(c);
            && d.t == c.t.(state := Committed, phase := Free, hold := Marked(c.t.hold), gpu := ClosePidfds(c.t.gpu))
            && d.pool == c.pool && d.dirs == if c.t.desc.direct then c.dirs - {c.t.hold.dir} else c.dirs
  {
    assert c.t.hold.dir != NoPath;
  }

  lemma PublishedLaw(c: Ctx, d: Ctx)
    requires Grounded(c) && c.t.phase.CommitPublishing?
    requires d.t == c.t.(state := Committed, phase := Free, hold := Marked(c.t.hold), gpu := ClosePidfds(c.t.gpu))
    requires d.pool == c.pool && (d.dirs == c.dirs || d.dirs == c.dirs - {c.t.hold.dir})
    ensures Keeps(c, d)
  {
  }

  lemma PublicationLaw(c: Ctx, d: Ctx, removable: bool)
    requires Grounded(c) && c.t.phase.CommitPublishing?
    requires d.t == c.t.(state := Committed, phase := Free, hold := Marked(c.t.hold), gpu := ClosePidfds(c.t.gpu))
    requires d.pool == c.pool && (d.dirs == c.dirs || d.dirs == c.dirs - {c.t.hold.dir})
    ensures var e := RemoveStaging(d, d.t.hold.dir, removable);
            EffectOk(c, Answer(e, CommitComplete(Payload(e.t.hold))).(published := true))
  {
    PublishedLaw(c, d);
    CleanupLaw(d, removable);
    KeepsTransitive(c, d, RemoveStaging(d, d.t.hold.dir, removable));
  }

  lemma CommitPublishLaw(c: Ctx, success: bool, saved: bool, removable: bool)
    requires Grounded(c) && c.t.phase.CommitPublishing?
    ensures EffectOk(c, CommitPublish(c, success, saved, removable))
  {
    if success {
      PublicationShape(c);
      PublicationLaw(c, CommitPublication(c), removable);
    } else {
      var d := Unlock(if saved then SaveIndex(c) else c);
      assert Keeps(c, d);
      AnswerLaw(c, d, Conflict);
    }
  }

  // Abort, expiry and GPU work.

  predicate Aborts(t: Txn) {
    t.phase.Free? && !GpuRunning(t) && (t.state == Aborting || t.state == Aborted)
  }

  function Shut(gpu: Option<GpuOperation>): Option<GpuOperation> {
    if gpu.Some? then Some(gpu.value.(artifact := false, pidfds := false)) else None
  }

  /** An aborted transaction with nothing left in hand. */
  function Closed(t: Txn): Txn {
    t.(state := Aborted, desc := Monostate, gpu := Shut(t.gpu),
       hold := if Pending(t.hold) then Emptied(t.hold, true) else t.hold)
  }

  lemma AbortedShape(c: Ctx)
    requires !HasPendingCleanup(c.t)
    ensures SetState(c.(t := TryClearDescriptor(c.t)), Aborted).t ==
            c.t.(state := Aborted, desc := Monostate, gpu := ClosePidfds(c.t.gpu),
                 hold := if HasDestination(c.t.hold) then c.t.hold.(pub := None) else c.t.hold)
  {
  }

  lemma DrainedShape(c: Ctx, removable: bool)
    requires TxnInv(c.t) && Aborts(c.t) && !CleanupFails(c.t, removable)
    ensures DrainedAbort(c, removable).t == Closed(c.t)
  {
    var d := c.(t := DropArtifact(c.t));
    if Pending(c.t.hold) { RemovedShape(d, removable); }
    var e := CleanupTransfer(d, removable);
    assert e.t.hold == if Pending(c.t.hold) then Emptied(c.t.hold, c.t.state == Aborted) else c.t.hold;
    AbortedShape(e);
  }

  lemma ClosedInv(t: Txn)
    requires TxnInv(t) && Aborts(t)
    ensures TxnInv(Closed(t)) && Evolves(t, Closed(t))
  {
  }

  lemma DrainedTransfers(c: Ctx, removable: bool)
    ensures Transfers(Accounts(c), Accounts(DrainedAbort(c, removable)))
  {
    var d := c.(t := DropArtifact(c.t));
    RemoveStagingLaw(d, d.t.hold.dir, removable);
    var e := CleanupTransfer(d, removable);
    SetStateLaw(e.(t := TryClearDescriptor(e.t)), Aborted);
  }

  lemma DrainedAbortLaw(c: Ctx, removable: bool)
    requires Grounded(c) && Aborts(c.t)
    ensures Keeps(c, DrainedAbort(c, removable))
    ensures !CleanupFails(c.t, removable) ==> DrainedAbort(c, removable).t == Closed(c.t)
    ensures CleanupFails(c.t, removable) ==> DrainedAbort(c, removable) == c.(t := DropArtifact(c.t))
  {
    DrainedTransfers(c, removable);
    if !CleanupFails(c.t, removable) {
      DrainedShape(c, removable);
      ClosedInv(c.t);
    }
  }

  lemma BeginAbortLaw(c: Ctx)
    requires Grounded(c) && c.t.phase.Free? && !Terminal(c.t)
    ensures var d := BeginAbort(c);
            && Grounded(d) && Accounts(d) == Accounts(c) && Evolves(c.t, d.t) && d.t.state == Aborting
            && d.t == c.t.(state := Aborting, cancelled := true)
  {
  }

  lemma FinishAbortLaw(c: Ctx, d: Ctx, removable: bool)
    requires Keeps(c, d) && c.t.phase.Free? && Aborts(d.t)
    requires FinishedRun(d.t) ==> FinishedRun(c.t)
    ensures EffectOk(c, FinishAbort(d, removable))
  {
    DrainedAbortLaw(d, removable);
    KeepsTransitive(c, d, DrainedAbort(d, removable));
    AnswerLaw(c, DrainedAbort(d, removable), if CleanupFails(d.t, removable) then CleanupError else AbortComplete);
  }

  lemma AbortAgainLaw(c: Ctx, removable: bool)
    requires Grounded(c) && c.t.phase.Free? && c.t.state == Aborted
    ensures EffectOk(c, AbortLocked(c, 0, removable))
  {
    CleanupLaw(c, removable);
    AnswerLaw(c, CleanupTransfer(c, removable), if CleanupFails(c.t, removable) then CleanupError else AbortComplete);
  }

  lemma AbortLockedLaw(c: Ctx, now: Time, removable: bool)
    requires Grounded(c) && c.t.phase.Free?
    ensures EffectOk(c, AbortLocked(c, now, removable))
  {
    if c.t.state == Aborted {
      AbortAgainLaw(c, removable);
    } else if c.t.state == Committed || Expired(c.t, now) {
      StayLaw(c, AbortLocked(c, now, removable).reply);
    } else {
      var d := BeginAbort(c);
      BeginAbortLaw(c);
      if GpuRunning(c.t) {
        var e := d.(t := d.t.(waiters := d.t.waiters + 1));
        assert Keeps(d, e);
        KeepsTransitive(c, d, e);
        AnswerLaw(c, e, Silent);
      } else {
        FinishAbortLaw(c, d, removable);
      }
    }
  }

  lemma AbortResumeLaw(c: Ctx, removable: bool)
    requires Grounded(c) && c.t.phase.Free? && c.t.waiters > 0 && !GpuRunning(c.t)
    ensures EffectOk(c, FinishAbort(Leave(c), removable))
  {
    FinishAbortLaw(c, Leave(c), removable);
  }

  lemma ReapExpiredLaw(c: Ctx, d: Ctx, removable: bool)
    requires Grounded(c) && c.t.phase.Free? && !Terminal(c.t)
    requires d == c.(t := c.t.(state := Aborting, cancelled := true, expired := true))
    ensures Keeps(c, d)
    ensures !GpuRunning(c.t) ==> Keeps(c, DrainedAbort(d, removable))
    ensures !GpuRunning(c.t) && !CleanupFails(c.t, removable) ==> DrainedAbort(d, removable).t == Closed(d.t)
    ensures !GpuRunning(c.t) && CleanupFails(c.t, removable) ==> DrainedAbort(d, removable).t == DropArtifact(d.t)
  {
    assert Keeps(c, d);
    if !GpuRunning(c.t) {
      DrainedAbortLaw(d, removable);
      KeepsTransitive(c, d, DrainedAbort(d, removable));
    }
  }

  lemma ReapLockedLaw(c: Ctx, now: Time, removable: bool)
    requires Grounded(c) && c.t.phase.Free?
    ensures EffectOk(c, ReapLocked(c, now, removable))
  {
    var e := ReapLocked(c, now, removable);
    if Terminal(c.t) {
      CleanupLaw(c, removable);
    } else if Expired(c.t, now) {
      var d := BeginAbort(ExpireTransfer(c, now));
      assert d == c.(t := c.t.(state := Aborting, cancelled := true, expired := true));
      ReapExpiredLaw(c, d, removable);
    }
    AnswerLaw(c, e.c, Silent);
  }

  lemma ExecuteGpuLaw(c: Ctx, operation: GpuOperation)
    requires Grounded(c) && c.t.phase.Free? && c.t.state == Staged && operation.artifact && operation.pidfds
    requires c.t.gpu.None? || (c.t.gpu.value.state == Ready && c.t.gpu.value == operation)
    ensures EffectOk(c, Quiet(c.(t := ExecuteGpu(c.t, operation))))
  {
  }

  lemma GpuExpiredLaw(c: Ctx, now: Time)
    requires Grounded(c) && c.t.phase.Free? && Expired(c.t, now)
    ensures EffectOk(c, Answer(ExpireTransfer(c, now), TransactionExpired))
  {
    assert ExpireTransfer(c, now) == c.(t := c.t.(state := Aborting, cancelled := true, expired := true));
  }

  lemma GpuLockedLaw(c: Ctx, request: GpuRequest, now: Time, valid: bool)
    requires Grounded(c) && c.t.phase.Free?
    ensures EffectOk(c, GpuLocked(c, request, now, valid))
  {
    var e := GpuLocked(c, request, now, valid);
    if Expired(c.t, now) {
      GpuExpiredLaw(c, now);
    } else if e.c == c {
      StayLaw(c, e.reply);
    } else if c.t.gpu.Some? {
      ExecuteGpuLaw(c, c.t.gpu.value);
    } else {
      ExecuteGpuLaw(c, GpuOperation(Ready, true, request, true, NO_RESULT));
    }
  }

  lemma GpuFinishedLaw(c: Ctx, outcome: GpuOutcome)
    requires Grounded(c) && c.t.phase.Free? && GpuRunning(c.t)
    ensures EffectOk(c, GpuFinished(c, outcome))
  {
  }

  lemma CancelLaw(c: Ctx)
    requires Grounded(c)
    ensures EffectOk(c, Quiet(c.(t := c.t.(cancelled := true))))
  {
  }

  lemma LeaveLaw(c: Ctx)
    requires Grounded(c) && c.t.phase.Free?
    ensures EffectOk(c, Answer(Leave(c), GpuStillRunning))
  {
  }

  lemma PerformLaw(c: Ctx, limits: bool, staging: int, action: Action)
    requires Grounded(c) && Enabled(c.t, action)
    ensures EffectOk(c, Perform(c, limits, staging, action))
  {
    match action
    case Cancel => CancelLaw(c);
    case RestoreAdmit(direct, artifact, found, deadline, removable) =>
      RestoreAdmittedLaw(c, limits, direct, artifact, found, deadline, removable);
    case RestoreScanned(inventory, now, removable) => RestoreScanLaw(c, inventory, now, removable);
    case RestoreSpace(available, removable) => RestoreReserveLaw(c, staging, available, removable);
    case RestoreMkdir(made, before, now, removable) => RestoreCreateLaw(c, made, before, now, removable);
    case RestoreCopied(copied, now, removable) => RestoreCopyLaw(c, copied, now, removable);
    case CheckpointAdmit(direct, destination, repeated, deadline, now, removable) =>
      CheckpointAdmittedLaw(c, limits, direct, destination, repeated, deadline, now, removable);
    case CheckpointOpened(output, made, before, now, removable) =>
      CheckpointOpenLaw(c, output, made, before, now, removable);
    case Commit(now, present, removable) => CommitLockedLaw(c, now, present, removable);
    case CommitInspected(inventory) => CommitInspectLaw(c, inventory);
    case CommitPublished(success, saved, removable) => CommitPublishLaw(c, success, saved, removable);
    case Abort(now, removable) => AbortLockedLaw(c, now, removable);
    case AbortResume(removable) => AbortResumeLaw(c, removable);
    case AbortTimeout => LeaveLaw(c);
    case Reap(now, removable) => ReapLockedLaw(c, now, removable);
    case Gpu(request, now, valid) => GpuLockedLaw(c, request, now, valid);
    case GpuFinish(outcome) => GpuFinishedLaw(c, outcome);
    case Retain => StayLaw(c, Silent);
  }

  /** Every action, at every program point and with every outcome of the world around it. */
  lemma ActLaw(c: Ctx, limits: bool, staging: int, action: Action)
    requires Grounded(c)
    ensures EffectOk(c, Act(c, limits, staging, action))
  {
    if Enabled(c.t, action) { PerformLaw(c, limits, staging, action); } else { StayLaw(c, Silent); }
  }
}
