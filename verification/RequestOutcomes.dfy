/**
 What each request does, told by the fields of the transaction it meets: which
 answer Commit, Abort and the GPU request give, and what they leave behind.
 */
module RequestOutcomes {
  import opened Lifecycle
  import opened Actions
  import opened ActionLaws

  predicate Over(t: Txn) {
    t.state == Committed || t.state == Aborted
  }

  predicate PastDeadline(t: Txn, now: Time) {
    t.deadline.Some? && (t.expired || now >= t.deadline.value)
  }

  predicate GpuDone(t: Txn) {
    t.gpu.None? || (t.gpu.value.state == Finished && t.gpu.value.result.Succeeded?)
  }

  predicate GpuBusy(t: Txn) {
    t.gpu.Some? && t.gpu.value.state == Running
  }

  /** There is a directory and it cannot be removed. */
  predicate Stuck(t: Txn, removable: bool) {
    t.hold.dir != NoPath && !removable
  }

  function Without(dirs: set<Path>, dir: Path): set<Path> {
    if dir == NoPath then dirs else dirs - {dir}
  }

  /** Bytes, slot and directory are back with their accounts; nothing is left in hand. */
  predicate Returned(c: Ctx, d: Ctx) {
    && d.t.hold.dir == NoPath && Share(d.t.hold) == 0 && Slot(d.t.hold) == 0
    && d.pool.reserved == c.pool.reserved - Share(c.t.hold) && d.pool.active == c.pool.active - Slot(c.t.hold)
    && d.dirs == Without(c.dirs, c.t.hold.dir)
  }

  predicate Untouched(c: Ctx, d: Ctx) {
    d.t.hold == c.t.hold && d.pool == c.pool && d.dirs == c.dirs
  }

  lemma EmptyHandsReturn(c: Ctx, d: Ctx)
    requires Frame(Accounts(c), Accounts(d)) && d.t.hold.dir == NoPath && (d.t.hold.limited ==> d.t.hold.released)
    ensures Returned(c, d)
  {
  }

  // Commit.

  /** Commit may go ahead: staged, in time, and GPU work, if any, has succeeded. */
  predicate Committable(t: Txn, now: Time) {
    t.state == Staged && !PastDeadline(t, now) && GpuDone(t)
  }

  /** Each answer of Commit under its own condition. */
  predicate CommitAnswers(t: Txn, now: Time, present: bool, reply: Reply) {
    && (reply == TransactionExpired <==> (t.state == Staged || t.state == Aborting) && PastDeadline(t, now))
    && (reply == IsAborting <==> t.state == Aborting && !PastDeadline(t, now))
    && (reply == GpuNotSucceeded <==> t.state == Staged && !PastDeadline(t, now) && !GpuDone(t))
    && (reply == NotFound <==> t.state == New || t.state == Aborted || (Committable(t, now) && t.desc.Checkpoint? && !present))
    && (reply.CommitComplete? <==> t.state == Committed || (Committable(t, now) && t.desc.Restore?))
    && (reply == Silent <==> Committable(t, now) && t.desc.Checkpoint? && present)
  }

  /** What Commit makes of the transaction. */
  predicate CommitLeaves(t: Txn, now: Time, present: bool, u: Txn) {
    && (u.state == Committed <==> t.state == Committed || (Committable(t, now) && t.desc.Restore?))
    && (u.state == Committed || u.state == t.state)
    && (CommitPhase(u.phase) <==> Committable(t, now) && t.desc.Checkpoint? && present)
    && (u.phase.CommitPublishing? ==> t.hold.pub.Some? && t.hold.pub.value.pending)
    && (u.phase.CommitInspecting? ==> t.hold.pub.None? || !t.hold.pub.value.pending)
  }

  /** A committed restore has given its staging back, unless the directory is stuck. */
  predicate CommitCleans(c: Ctx, d: Ctx, removable: bool) {
    && (c.t.hold.dir != NoPath && removable ==> Returned(c, d))
    && (Stuck(c.t, removable) ==> Untouched(c, d))
  }

  lemma CommitTells(c: Ctx, now: Time, present: bool, removable: bool)
    requires TxnInv(c.t) && c.t.phase.Free?
    ensures CommitAnswers(c.t, now, present, CommitLocked(c, now, present, removable).reply)
  {
  }

  lemma RestoreMoves(c: Ctx, removable: bool)
    requires Grounded(c) && c.t.state == Staged && c.t.phase.Free? && c.t.desc.Restore? && GpuDone(c.t)
    ensures var d := CleanupRestore(c.(t := DropArtifact(c.t)), removable).c;
            && d.t == Restored(DropArtifact(c.t), removable) && CommitCleans(c, d, removable)
  {
    var d := c.(t := DropArtifact(c.t));
    CommitRestoreLaw(c, removable);
    RestoredShape(d, removable);
    if c.t.hold.dir != NoPath && removable { EmptyHandsReturn(c, CleanupRestore(d, removable).c); }
  }

  lemma CheckpointMoves(c: Ctx, now: Time, present: bool, removable: bool)
    requires TxnInv(c.t) && c.t.phase.Free? && Committable(c.t, now) && c.t.desc.Checkpoint?
    ensures var d := CommitLocked(c, now, present, removable).c;
            && d == c.(t := DropArtifact(c.t).(phase := d.t.phase)) && CommitLeaves(c.t, now, present, d.t)
  {
  }

  lemma CommitStays(c: Ctx, now: Time, present: bool, removable: bool)
    requires TxnInv(c.t) && c.t.phase.Free? && c.t.state != Committed && !Committable(c.t, now)
    ensures CommitLocked(c, now, present, removable).c == c
  {
  }

  lemma CommitRepeats(c: Ctx, now: Time, present: bool, removable: bool)
    requires Grounded(c) && c.t.phase.Free? && c.t.state == Committed
    ensures var d := CommitLocked(c, now, present, removable).c;
            && d.t == c.t.(hold := d.t.hold, desc := d.t.desc) && CommitCleans(c, d, removable)
  {
    CleanupLaw(c, removable);
    if !Stuck(c.t, removable) { EmptyHandsReturn(c, CommitLocked(c, now, present, removable).c); }
  }

  /** All that Commit says and does, from `c` to `d`. */
  predicate CommitMeans(c: Ctx, now: Time, present: bool, removable: bool, reply: Reply, d: Ctx) {
    && CommitAnswers(c.t, now, present, reply) && CommitLeaves(c.t, now, present, d.t)
    && (d.t.state == Committed ==> CommitCleans(c, d, removable))
    && (d.t.state != Committed ==> Untouched(c, d))
    && (c.t.state != Committed && !Committable(c.t, now) ==> d == c)
  }

  lemma CommitLockedOutcome(c: Ctx, now: Time, present: bool, removable: bool)
    requires Grounded(c) && c.t.phase.Free?
    ensures var e := CommitLocked(c, now, present, removable); CommitMeans(c, now, present, removable, e.reply, e.c)
  {
    CommitTells(c, now, present, removable);
    if c.t.state == Committed {
      CommitRepeats(c, now, present, removable);
    } else if !Committable(c.t, now) {
      CommitStays(c, now, present, removable);
    } else if c.t.desc.Restore? {
      RestoreMoves(c, removable);
    } else {
      CheckpointMoves(c, now, present, removable);
    }
  }

  /**
   Commit by the fields of the transaction. It answers that the transaction expired exactly if that
   is unfinished and past its deadline; it commits at once exactly a restore that is staged, in time
   and done with GPU work, and goes on to publish exactly such a checkpoint whose output is present.
   A refused Commit changes nothing.
   */
  lemma CommitOutcome(c: Ctx, limits: bool, staging: int, now: Time, present: bool, removable: bool)
    requires Grounded(c) && c.t.phase.Free?
    ensures var e := Act(c, limits, staging, Commit(now, present, removable));
            CommitMeans(c, now, present, removable, e.reply, e.c)
  {
    CommitLockedOutcome(c, now, present, removable);
  }

  /** Within the budget: nothing is limited, it is reserved already, or the pool has room for the difference. */
  predicate Affordable(c: Ctx, bytes: nat) {
    !c.t.hold.limited || bytes <= c.t.hold.reserved || c.pool.reserved + (bytes - c.t.hold.reserved) <= c.pool.byteLimit
  }

  /** The reservation of `d` covers the bytes, and the pool counts exactly the difference. */
  predicate Covers(c: Ctx, d: Ctx, bytes: nat) {
    && (c.t.hold.limited ==> Share(d.t.hold) >= bytes && Share(d.t.hold) >= Share(c.t.hold))
    && d.pool == c.pool.(reserved := c.pool.reserved + Share(d.t.hold) - Share(c.t.hold))
    && d.t.hold == c.t.hold.(reserved := d.t.hold.reserved)
  }

  lemma ReserveCovers(c: Ctx, bytes: nat)
    requires TxnInv(c.t) && !Terminal(c.t) && Affordable(c, bytes)
    ensures Covers(c, Reserve(c, bytes), bytes) && Reserve(c, bytes).t == c.t.(hold := Reserve(c, bytes).t.hold)
  {
  }

  /** A checkpoint is published only once its whole inventory is in the budget; otherwise it stays staged as it was. */
  lemma InspectOutcome(c: Ctx, limits: bool, staging: int, inventory: Result<nat>)
    requires Grounded(c) && c.t.phase.CommitInspecting?
    ensures var e := Act(c, limits, staging, CommitInspected(inventory));
            && (e.c.t.phase.CommitPublishing? <==> inventory.Ok? && Affordable(c, inventory.value))
            && (e.c.t.phase.CommitPublishing? ==> e.reply == Silent && e.c.t.state == Staged && Covers(c, e.c, inventory.value))
            && (!e.c.t.phase.CommitPublishing? ==> e.reply == Conflict && e.c == c.(t := c.t.(phase := Free)))
  {
    if inventory.Ok? && Affordable(c, inventory.value) { ReserveCovers(c, inventory.value); }
  }

  lemma PublicationReturns(c: Ctx, d: Ctx)
    requires Grounded(c) && c.t.phase.CommitPublishing?
    requires d.t == c.t.(state := Committed, phase := Free, hold := Marked(c.t.hold), gpu := ClosePidfds(c.t.gpu))
    requires d.pool == c.pool && (d.dirs == c.dirs || d.dirs == c.dirs - {c.t.hold.dir})
    ensures Returned(c, RemoveStaging(d, d.t.hold.dir, true)) && RemoveStaging(d, d.t.hold.dir, true).t.phase.Free?
  {
    PublicationLaw(c, d, true);
    RemovedShape(d, true);
    EmptyHandsReturn(c, RemoveStaging(d, d.t.hold.dir, true));
  }

  /** Publication succeeded: committed under its artifact, and clean unless a directory is stuck. */
  lemma PublishedOutcome(c: Ctx, limits: bool, staging: int, saved: bool, removable: bool)
    requires Grounded(c) && c.t.phase.CommitPublishing?
    ensures var e := Act(c, limits, staging, CommitPublished(true, saved, removable));
            && e.c.t.state == Committed && e.c.t.phase.Free? && e.published
            && e.reply == CommitComplete(if c.t.hold.pub.Some? then Some(c.t.hold.pub.value.artifact) else None)
            && (removable ==> Returned(c, e.c))
            && (!removable ==> e.c.t.hold.dir == c.t.hold.dir && e.c.pool == c.pool)
            && (!removable ==> e.c.dirs == if c.t.desc.direct then c.dirs - {c.t.hold.dir} else c.dirs)
  {
    var d := CommitPublication(c);
    PublicationShape(c);
    if removable {
      PublicationReturns(c, d);
      RemovedShape(d, true);
    }
  }

  /** Publication failed: staged as before, with the index kept for the next Commit if it was saved. */
  lemma PublicationFailedOutcome(c: Ctx, limits: bool, staging: int, saved: bool, removable: bool)
    requires Grounded(c) && c.t.phase.CommitPublishing?
    ensures var e := Act(c, limits, staging, CommitPublished(false, saved, removable));
            && e.reply == Conflict && !e.published && e.c.pool == c.pool && e.c.dirs == c.dirs
            && e.c.t == c.t.(phase := Free, hold := e.c.t.hold) && e.c.t.hold == c.t.hold.(pub := e.c.t.hold.pub)
            && (e.c.t.hold.pub.Some? <==> c.t.hold.pub.Some?)
            && (c.t.hold.pub.Some? ==> e.c.t.hold.pub.value == c.t.hold.pub.value.(pending := saved || c.t.hold.pub.value.pending))
  {
  }

  // Abort.

  predicate Abortable(t: Txn, now: Time) {
    !Over(t) && !PastDeadline(t, now)
  }

  /** Abort gets as far as cleaning up: at once, or again after an earlier failure. */
  predicate Cleans(t: Txn, now: Time) {
    t.state == Aborted || (Abortable(t, now) && !GpuBusy(t))
  }

  /** Each answer of Abort under its own condition. */
  predicate AbortAnswers(t: Txn, now: Time, removable: bool, reply: Reply) {
    && (reply == NotFound <==> t.state == Committed)
    && (reply == TransactionExpired <==> !Over(t) && PastDeadline(t, now))
    && (reply == Silent <==> Abortable(t, now) && GpuBusy(t))
    && (reply == CleanupError <==> Cleans(t, now) && Stuck(t, removable))
    && (reply == AbortComplete <==> Cleans(t, now) && !Stuck(t, removable))
  }

  /** The end of an abort: nothing is held any more, not even the destination. */
  predicate Gone(c: Ctx, d: Ctx) {
    && d.t.state == Aborted && Returned(c, d) && !HasDestination(d.t.hold) && !Pending(d.t.hold)
    && (HasDestination(c.t.hold) ==> c.t.hold.pub.value.artifact !in d.pool.destinations)
  }

  /** What Abort leaves behind. */
  predicate AbortLeaves(c: Ctx, now: Time, removable: bool, d: Ctx) {
    && (c.t.state == Committed ==> d == c)
    && (!Over(c.t) && PastDeadline(c.t, now) ==> d == c)
    && (Abortable(c.t, now) ==> d.t.cancelled && (d.t.state == Aborted || d.t.state == Aborting))
    && (Abortable(c.t, now) && GpuBusy(c.t) ==> d == c.(t := c.t.(state := Aborting, cancelled := true, waiters := c.t.waiters + 1)))
    && (Cleans(c.t, now) && !Stuck(c.t, removable) ==> Gone(c, d))
    && (Cleans(c.t, now) && Stuck(c.t, removable) ==> Untouched(c, d) && d.t.waiters == c.t.waiters)
    && (Abortable(c.t, now) && Stuck(c.t, removable) ==> d.t.state == Aborting)
  }

  lemma AbortTells(c: Ctx, now: Time, removable: bool)
    requires TxnInv(c.t) && c.t.phase.Free?
    ensures AbortAnswers(c.t, now, removable, AbortLocked(c, now, removable).reply)
  {
  }

  lemma ClosedIsGone(c: Ctx, d: Ctx)
    requires TxnInv(c.t) && Aborts(c.t) && Frame(Accounts(c), Accounts(d)) && d.t == Closed(c.t)
    ensures Gone(c, d)
  {
  }

  lemma AbortedAgain(c: Ctx, now: Time, removable: bool)
    requires Grounded(c) && c.t.phase.Free? && c.t.state == Aborted
    ensures AbortLeaves(c, now, removable, AbortLocked(c, now, removable).c)
  {
    CleanupLaw(c, removable);
    if !Stuck(c.t, removable) { EmptyHandsReturn(c, CleanupTransfer(c, removable)); }
  }

  /** Finishing an abort, wherever it comes from. */
  lemma FinishOutcome(c: Ctx, removable: bool)
    requires Grounded(c) && Aborts(c.t)
    ensures var e := FinishAbort(c, removable);
            && (Stuck(c.t, removable) ==> e.reply == CleanupError && e.c == c.(t := DropArtifact(c.t)))
            && (!Stuck(c.t, removable) ==> e.reply == AbortComplete && e.c.t == Closed(c.t) && Gone(c, e.c))
  {
    DrainedAbortLaw(c, removable);
    if !Stuck(c.t, removable) { ClosedIsGone(c, DrainedAbort(c, removable)); }
  }

  lemma LiveAborts(c: Ctx, now: Time, removable: bool)
    requires Grounded(c) && c.t.phase.Free? && Abortable(c.t, now)
    ensures AbortLeaves(c, now, removable, AbortLocked(c, now, removable).c)
  {
    var d := BeginAbort(c);
    BeginAbortLaw(c);
    if !GpuBusy(c.t) {
      FinishOutcome(d, removable);
      assert AbortLocked(c, now, removable) == FinishAbort(d, removable);
    }
  }

  lemma AbortLockedOutcome(c: Ctx, now: Time, removable: bool)
    requires Grounded(c) && c.t.phase.Free?
    ensures var e := AbortLocked(c, now, removable);
            AbortAnswers(c.t, now, removable, e.reply) && AbortLeaves(c, now, removable, e.c)
  {
    AbortTells(c, now, removable);
    if c.t.state == Aborted {
      AbortedAgain(c, now, removable);
    } else if Abortable(c.t, now) {
      LiveAborts(c, now, removable);
    }
  }

  /**
   Abort by the fields of the transaction. A live one in time ends Aborted with bytes, slot, directory
   and destination returned, unless its directory is stuck: then it is Aborting with its holdings kept
   and the next Abort tries again. While the GPU is busy the caller waits. A committed and an expired
   transaction stay as they are.
   */
  lemma AbortOutcome(c: Ctx, limits: bool, staging: int, now: Time, removable: bool)
    requires Grounded(c) && c.t.phase.Free?
    ensures var e := Act(c, limits, staging, Abort(now, removable));
            AbortAnswers(c.t, now, removable, e.reply) && AbortLeaves(c, now, removable, e.c)
  {
    AbortLockedOutcome(c, now, removable);
  }

  /** What the second half of an abort leaves: the same end, one waiter less. */
  predicate ResumeLeaves(c: Ctx, removable: bool, e: Effect) {
    && (e.reply == CleanupError <==> Stuck(c.t, removable)) && (e.reply == AbortComplete <==> !Stuck(c.t, removable))
    && e.c.t.waiters == c.t.waiters - 1
    && (!Stuck(c.t, removable) ==> Gone(c, e.c))
    && (Stuck(c.t, removable) ==> e.c.t.state == c.t.state && Untouched(c, e.c))
  }

  lemma ResumedFinish(c: Ctx, d: Ctx, removable: bool)
    requires Grounded(d) && Aborts(d.t) && d == c.(t := c.t.(waiters := d.t.waiters)) && c.t.waiters == d.t.waiters + 1
    ensures ResumeLeaves(c, removable, FinishAbort(d, removable))
  {
    FinishOutcome(d, removable);
  }

  /** The second half of an abort that waited for the GPU. */
  lemma AbortResumeOutcome(c: Ctx, limits: bool, staging: int, removable: bool)
    requires Grounded(c) && c.t.phase.Free? && c.t.waiters > 0 && !GpuBusy(c.t)
    ensures ResumeLeaves(c, removable, Act(c, limits, staging, AbortResume(removable)))
  {
    LeaveLaw(c);
    ResumedFinish(c, Leave(c), removable);
  }

  // GPU work.

  predicate Matches(desc: Descriptor, direction: Direction) {
    if direction == RestoreGpu then desc.Restore? else desc.Checkpoint?
  }

  /** The request may run: it is the first, on the right kind of transaction, or repeats one that met a target conflict. */
  predicate Starts(t: Txn, request: GpuRequest) {
    if t.gpu.None? then Matches(t.desc, request.direction) else t.gpu.value.state == Ready && t.gpu.value.request == request
  }

  /** The request is that of a run that has concluded. */
  predicate Replays(t: Txn, request: GpuRequest) {
    t.gpu.Some? && t.gpu.value.state == Finished && t.gpu.value.request == request
  }

  /** All that a GPU request is told and does, from `c` to `d`. */
  predicate GpuMeans(c: Ctx, request: GpuRequest, now: Time, valid: bool, reply: Reply, d: Ctx) {
    var expires := !Over(c.t) && PastDeadline(c.t, now);
    var usable := c.t.state == Staged && !PastDeadline(c.t, now) && valid;
    && (reply == TransactionExpired <==> expires)
    && (expires ==> d == c.(t := c.t.(state := Aborting, cancelled := true, expired := true)))
    && (reply.GpuReply? <==> usable && Replays(c.t, request))
    && (reply.GpuReply? ==> reply == GpuReply(request, c.t.gpu.value.result))
    && (reply == Silent <==> usable && Starts(c.t, request))
    && (reply == Silent ==> GpuBusy(d.t) && d.t.gpu.value.request == request && d == c.(t := c.t.(gpu := d.t.gpu)))
    && (reply == Conflict <==> !expires && !(usable && (Replays(c.t, request) || Starts(c.t, request))))
    && (reply == Conflict || reply.GpuReply? ==> d == c)
  }

  lemma GpuLockedOutcome(c: Ctx, request: GpuRequest, now: Time, valid: bool)
    requires Grounded(c) && c.t.phase.Free?
    ensures var e := GpuLocked(c, request, now, valid); GpuMeans(c, request, now, valid, e.reply, e.c)
  {
    if PastDeadline(c.t, now) && !Over(c.t) {
      assert ExpireTransfer(c, now) == c.(t := c.t.(state := Aborting, cancelled := true, expired := true));
    }
  }

  /**
   A GPU request by the fields of the transaction. An overdue transaction expires. Otherwise, staged
   and valid, exactly a repetition of the concluded request gets its result, and exactly the first
   request or a repetition of one that met a conflict starts a run, for that request. In every other
   case the answer is a conflict and nothing changes.
   */
  lemma GpuRequestOutcome(c: Ctx, limits: bool, staging: int, request: GpuRequest, now: Time, valid: bool)
    requires Grounded(c) && c.t.phase.Free?
    ensures var e := Act(c, limits, staging, Gpu(request, now, valid)); GpuMeans(c, request, now, valid, e.reply, e.c)
  {
    GpuLockedOutcome(c, request, now, valid);
  }

  /** The end of a run: a target conflict leaves it ready to be run again, anything else is recorded for good. */
  lemma GpuFinishOutcome(c: Ctx, limits: bool, staging: int, outcome: GpuOutcome)
    requires Grounded(c) && c.t.phase.Free? && GpuBusy(c.t)
    ensures var g, e := c.t.gpu.value, Act(c, limits, staging, GpuFinish(outcome));
            && e.c == c.(t := c.t.(gpu := e.c.t.gpu)) && e.c.t.gpu.Some? && e.c.t.gpu.value.request == g.request
            && (e.c.t.gpu.value.state == Ready <==> outcome == TargetConflict)
            && (e.c.t.gpu.value.state == Finished <==> outcome.Done?)
            && (e.reply == Conflict <==> outcome == TargetConflict)
            && (outcome.Done? ==> e.ran && e.c.t.gpu.value.result == outcome.result && e.reply == GpuReply(g.request, outcome.result))
            && e.c.t.gpu.value.artifact == g.artifact && e.c.t.gpu.value.pidfds == g.pidfds
  {
  }
}
