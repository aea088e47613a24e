/**
 Requests over whole runs: what a Commit, an Abort or a GPU request makes of the
 broker, and that nothing is committed by a request that came too late.
 */
module RequestRuns {
  import opened Lifecycle
  import opened Actions
  import opened Registry
  import opened ActionLaws
  import opened RunInvariants
  import opened RunTheorems
  import opened RequestOutcomes
  import opened StagingOutcomes
  import opened BrokerSweeps

  /** Committed, or on the way to it. */
  predicate Committing(t: Txn) {
    t.state == Committed || CommitPhase(t.phase)
  }

  lemma RestoreAdmitNeverCommits(c: Ctx, limits: bool, staging: int, direct: bool, artifact: bool, found: Result<bool>, deadline: Time, removable: bool)
    requires Grounded(c) && !Committing(c.t) && c.t.phase.Free?
    ensures !Committing(Act(c, limits, staging, RestoreAdmit(direct, artifact, found, deadline, removable)).c.t)
  {
    RestoreAdmitOutcome(c, limits, staging, direct, artifact, found, deadline, removable);
  }

  lemma RestoreScanNeverCommits(c: Ctx, limits: bool, staging: int, inventory: Result<nat>, now: Time, removable: bool)
    requires Grounded(c) && !Committing(c.t) && c.t.phase.RestoreScanning?
    ensures !Committing(Act(c, limits, staging, RestoreScanned(inventory, now, removable)).c.t)
  {
    RestoreScanOutcome(c, limits, staging, inventory, now, removable);
  }

  lemma RestoreMkdirNeverCommits(c: Ctx, limits: bool, staging: int, made: Result<()>, before: Time, now: Time, removable: bool)
    requires Grounded(c) && !Committing(c.t) && c.t.phase.RestoreCreating?
    ensures !Committing(Act(c, limits, staging, RestoreMkdir(made, before, now, removable)).c.t)
  {
    RestoreMkdirOutcome(c, limits, staging, made, before, now, removable);
  }

  lemma AbortNeverCommits(c: Ctx, limits: bool, staging: int, now: Time, removable: bool)
    requires Grounded(c) && !Committing(c.t) && c.t.phase.Free?
    ensures !Committing(Act(c, limits, staging, Abort(now, removable)).c.t)
  {
    AbortOutcome(c, limits, staging, now, removable);
    ActLaw(c, limits, staging, Abort(now, removable));
  }

  lemma RestoreSpaceNeverCommits(c: Ctx, limits: bool, staging: int, available: Option<nat>, removable: bool)
    requires Grounded(c) && !Committing(c.t) && c.t.phase.RestoreSpacing?
    ensures !Committing(Act(c, limits, staging, RestoreSpace(available, removable)).c.t)
  {
    if !SpaceFor(c.t.phase.bytes + staging, available) { RejectLaw(c, removable); }
  }

  lemma RestoreCopyNeverCommits(c: Ctx, limits: bool, staging: int, copied: Result<()>, now: Time, removable: bool)
    requires Grounded(c) && !Committing(c.t) && c.t.phase.RestoreCopying?
    ensures !Committing(Act(c, limits, staging, RestoreCopied(copied, now, removable)).c.t)
  {
    LateRestoreIsNotStaged(c, limits, staging, copied, now, removable);
  }

  lemma CheckpointAdmitNeverCommits(c: Ctx, limits: bool, staging: int, direct: bool, destination: Option<string>, repeated: Result<string>, deadline: Time, now: Time, removable: bool)
    requires Grounded(c) && !Committing(c.t) && c.t.phase.Free?
    ensures !Committing(Act(c, limits, staging, CheckpointAdmit(direct, destination, repeated, deadline, now, removable)).c.t)
  {
    if c.t.state == New {
      CheckpointAdmitOutcome(c, limits, staging, direct, destination, repeated, deadline, now, removable);
    } else {
      CheckpointRepeatOutcome(c, limits, staging, direct, destination, repeated, deadline, now, removable);
    }
  }

  lemma CheckpointOpenNeverCommits(c: Ctx, limits: bool, staging: int, output: Result<string>, made: Result<()>, before: Time, now: Time, removable: bool)
    requires Grounded(c) && !Committing(c.t) && c.t.phase.CheckpointOpening?
    ensures !Committing(Act(c, limits, staging, CheckpointOpened(output, made, before, now, removable)).c.t)
  {
    LateCheckpointIsNotStaged(c, limits, staging, output, made, before, now, removable);
    ActLaw(c, limits, staging, CheckpointOpened(output, made, before, now, removable));
  }

  lemma AbortResumeNeverCommits(c: Ctx, limits: bool, staging: int, removable: bool)
    requires Grounded(c) && !Committing(c.t) && c.t.phase.Free? && c.t.waiters > 0 && !GpuBusy(c.t)
    ensures !Committing(Act(c, limits, staging, AbortResume(removable)).c.t)
  {
    AbortResumeOutcome(c, limits, staging, removable);
    ActLaw(c, limits, staging, AbortResume(removable));
  }

  lemma ReapNeverCommits(c: Ctx, limits: bool, staging: int, now: Time, removable: bool)
    requires Grounded(c) && !Committing(c.t) && c.t.phase.Free?
    ensures !Committing(Act(c, limits, staging, Reap(now, removable)).c.t)
  {
    VisitEffect(c, limits, staging, now, removable);
  }

  lemma GpuNeverCommits(c: Ctx, limits: bool, staging: int, request: GpuRequest, now: Time, valid: bool)
    requires Grounded(c) && !Committing(c.t) && c.t.phase.Free?
    ensures !Committing(Act(c, limits, staging, Gpu(request, now, valid)).c.t)
  {
    GpuRequestOutcome(c, limits, staging, request, now, valid);
  }

  /** Commit alone starts on the way to Committed. */
  lemma OnlyCommitCommits(c: Ctx, limits: bool, staging: int, action: Action)
    requires Grounded(c) && !Committing(c.t) && !action.Commit?
    ensures !Committing(Act(c, limits, staging, action).c.t)
  {
    if Enabled(c.t, action) {
      match action
      case RestoreAdmit(direct, artifact, found, deadline, removable) =>
        RestoreAdmitNeverCommits(c, limits, staging, direct, artifact, found, deadline, removable);
      case RestoreScanned(inventory, now, removable) => RestoreScanNeverCommits(c, limits, staging, inventory, now, removable);
      case RestoreSpace(available, removable) => RestoreSpaceNeverCommits(c, limits, staging, available, removable);
      case RestoreMkdir(made, before, now, removable) => RestoreMkdirNeverCommits(c, limits, staging, made, before, now, removable);
      case RestoreCopied(copied, now, removable) => RestoreCopyNeverCommits(c, limits, staging, copied, now, removable);
      case CheckpointAdmit(direct, destination, repeated, deadline, now, removable) =>
        CheckpointAdmitNeverCommits(c, limits, staging, direct, destination, repeated, deadline, now, removable);
      case CheckpointOpened(output, made, before, now, removable) =>
        CheckpointOpenNeverCommits(c, limits, staging, output, made, before, now, removable);
      case Abort(now, removable) => AbortNeverCommits(c, limits, staging, now, removable);
      case AbortResume(removable) => AbortResumeNeverCommits(c, limits, staging, removable);
      case Reap(now, removable) => ReapNeverCommits(c, limits, staging, now, removable);
      case Gpu(request, now, valid) => GpuNeverCommits(c, limits, staging, request, now, valid);
      case _ =>
    }
  }

  /** The step is a Commit of this transaction that meets it staged, in time and done with GPU work. */
  predicate CommitsInTime(w: World, s: Step, h: Handle) {
    && s.On? && s.h == h && s.action.Commit?
    && h in w.objs && w.objs[h].phase.Free? && Committable(w.objs[h], s.action.now)
  }

  lemma ActedCommits(w: World, k: Handle, action: Action, h: Handle)
    requires Inv(w) && h in w.objs && !Committing(w.objs[h]) && !CommitsInTime(w, On(k, action), h)
    ensures h in Acted(w, k, action).objs && !Committing(Acted(w, k, action).objs[h])
  {
    if k in w.objs {
      Ground(w, k);
      var c := View(w, k);
      ApplyShape(w, k, Act(c, w.limits, w.staging, action));
      if k == h {
        if action.Commit? {
          if c.t.phase.Free? { CommitOutcome(c, w.limits, w.staging, action.now, action.present, action.removable); }
        } else {
          OnlyCommitCommits(c, w.limits, w.staging, action);
        }
      }
    }
  }

  /** In one step: only a Commit in time sets a transaction on the way to Committed. */
  lemma StepCommits(w: World, s: Step, h: Handle)
    requires Inv(w) && (h in w.objs ==> !Committing(w.objs[h])) && !CommitsInTime(w, s, h) && h in Next(w, s).objs
    ensures !Committing(Next(w, s).objs[h])
  {
    if s.On? {
      if h in w.objs {
        ActedCommits(w, s.h, s.action, h);
      } else {
        ActedEvolves(w, s.h, s.action);
      }
    } else {
      OutsideCommits(w, s, h);
    }
  }

  lemma OutsideCommits(w: World, s: Step, h: Handle)
    requires !s.On? && h in Next(w, s).objs && (h in w.objs ==> !Committing(w.objs[h]))
    ensures !Committing(Next(w, s).objs[h])
  {
  }

  ghost predicate CommittedInTime(w: World, steps: seq<Step>, h: Handle) {
    exists i :: 0 <= i < |steps| && CommitsInTime(Run(w, steps[..i]), steps[i], h)
  }

  lemma InTimeExtends(w: World, steps: seq<Step>, s: Step, h: Handle)
    requires CommittedInTime(w, steps, h)
    ensures CommittedInTime(w, steps + [s], h)
  {
    var i :| 0 <= i < |steps| && CommitsInTime(Run(w, steps[..i]), steps[i], h);
    assert (steps + [s])[..i] == steps[..i] && (steps + [s])[i] == steps[i];
  }

  /** Over every run: whatever is committed, or publishing, was asked to by a Commit that met it in time. */
  lemma {:induction false} NothingCommitsLate(w: World, steps: seq<Step>, h: Handle)
    requires Inv(w) && (h in w.objs ==> !Committing(w.objs[h]))
    requires h in Run(w, steps).objs && Committing(Run(w, steps).objs[h])
    ensures CommittedInTime(w, steps, h)
    decreases |steps|
  {
    var front, last := steps[..|steps| - 1], steps[|steps| - 1];
    var v := Run(w, front);
    RunInv(w, front);
    assert steps == front + [last];
    if h in v.objs && Committing(v.objs[h]) {
      NothingCommitsLate(w, front, h);
      InTimeExtends(w, front, last, h);
    } else {
      if !CommitsInTime(v, last, h) { StepCommits(v, last, h); }
      assert CommitsInTime(Run(w, steps[..|front|]), steps[|front|], h);
    }
  }

  /** Every Commit of this transaction comes at or after its deadline. */
  predicate CommitsAfter(steps: seq<Step>, h: Handle, deadline: Time) {
    forall i | 0 <= i < |steps| && steps[i].On? && steps[i].h == h && steps[i].action.Commit? :: steps[i].action.now >= deadline
  }

  /** Once its deadline has passed, a transaction that was not already publishing is never committed. */
  lemma ExpiredNeverCommits(w: World, steps: seq<Step>, h: Handle)
    requires Inv(w) && h in w.objs && !Committing(w.objs[h]) && w.objs[h].deadline.Some?
    requires CommitsAfter(steps, h, w.objs[h].deadline.value) && h in Run(w, steps).objs
    ensures !Committing(Run(w, steps).objs[h])
  {
    if Committing(Run(w, steps).objs[h]) {
      NothingCommitsLate(w, steps, h);
      var i :| 0 <= i < |steps| && CommitsInTime(Run(w, steps[..i]), steps[i], h);
      LifeIsOneWay(w, steps[..i], h);
    }
  }

  // Abort and GPU requests in the broker.

  /** From `w` to `v` one request changed this transaction and gave this answer; everybody else is as before. */
  predicate Answered(w: World, v: World, h: Handle, reply: Reply) {
    && v.objs.Keys == w.objs.Keys && (forall k | k in w.objs && k != h :: v.objs[k] == w.objs[k])
    && v.registry == w.registry && v.queue == w.queue && v.staging == w.staging
    && v.log == if reply == Silent then w.log else w.log + [Event(h, reply, false, false)]
  }

  lemma AnsweredByEffect(w: World, h: Handle, e: Effect)
    requires h in w.objs && !e.erase && !e.retain && e.staging == 0 && !e.published && !e.ran
    ensures Answered(w, Apply(w, h, e), h, e.reply) && View(Apply(w, h, e), h) == e.c
  {
  }

  lemma AbortIsPlain(c: Ctx, limits: bool, staging: int, now: Time, removable: bool)
    requires Grounded(c) && c.t.phase.Free?
    ensures var e := Act(c, limits, staging, Abort(now, removable));
            !e.erase && !e.retain && e.staging == 0 && !e.published && !e.ran
  {
  }

  /** An Abort in any state of the broker: its answer and what it leaves, and nothing else changes. */
  lemma AbortInTheBroker(w: World, h: Handle, now: Time, removable: bool)
    requires Inv(w) && h in w.objs && w.objs[h].phase.Free?
    ensures var v := Acted(w, h, Abort(now, removable));
            var reply := Act(View(w, h), w.limits, w.staging, Abort(now, removable)).reply;
            && h in v.objs && Answered(w, v, h, reply)
            && AbortAnswers(w.objs[h], now, removable, reply) && AbortLeaves(View(w, h), now, removable, View(v, h))
  {
    Ground(w, h);
    var c := View(w, h);
    AbortOutcome(c, w.limits, w.staging, now, removable);
    AbortIsPlain(c, w.limits, w.staging, now, removable);
    AnsweredByEffect(w, h, Act(c, w.limits, w.staging, Abort(now, removable)));
  }

  /** Cancelled before it was Staged, a transaction is never Staged, whatever happens later. */
  lemma CancelledIsNeverStaged(w: World, steps: seq<Step>, h: Handle)
    requires Inv(w) && h in w.objs && w.objs[h].state != Staged
    requires h in Run(Next(w, On(h, Cancel)), steps).objs
    ensures Run(Next(w, On(h, Cancel)), steps).objs[h].cancelled
    ensures Run(Next(w, On(h, Cancel)), steps).objs[h].state != Staged
  {
    var v := Next(w, On(h, Cancel));
    NextInv(w, On(h, Cancel));
    ApplyShape(w, h, Act(View(w, h), w.limits, w.staging, Cancel));
    assert h in v.objs && v.objs[h].cancelled && v.objs[h].state == w.objs[h].state && v.next == w.next;
    LifeIsOneWay(v, steps, h);
  }
}
