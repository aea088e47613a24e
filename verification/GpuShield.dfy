/** While the GPU engine works with the transaction mutex released, nothing under it is taken away. */
module GpuShield {
  import opened Lifecycle
  import opened Actions
  import opened ActionLaws
  import opened Registry
  import opened RunInvariants
  import opened RunTheorems

  /** Same operation with its artifact and pidfds, same holdings and descriptor, neither committed nor aborted. */
  predicate Intact(t: Txn, u: Txn) {
    && u.id == t.id && u.gpu == t.gpu && u.hold == t.hold && u.desc == t.desc
    && (u.state == t.state || u.state == Aborting) && (u.state == Staged || u.state == Aborting)
  }

  ghost predicate Spares(c: Ctx, e: Effect) {
    Intact(c.t, e.c.t) && e.c.pool == c.pool && e.c.dirs == c.dirs && !e.erase
  }

  lemma AbortSpares(c: Ctx, now: Time, removable: bool)
    requires TxnInv(c.t) && GpuRunning(c.t)
    ensures Spares(c, AbortLocked(c, now, removable))
    ensures Spares(c, ReapLocked(c, now, removable))
  {
  }

  lemma RequestSpares(c: Ctx, request: GpuRequest, now: Time, valid: bool, present: bool, removable: bool)
    requires TxnInv(c.t) && GpuRunning(c.t)
    ensures Spares(c, GpuLocked(c, request, now, valid))
    ensures Spares(c, CommitLocked(c, now, present, removable))
  {
  }

  /** A request that takes the mutex of a transaction whose GPU work is running. */
  predicate IsRequest(action: Action) {
    action.Abort? || action.Reap? || action.Commit? || action.Gpu?
  }

  lemma OtherActsSpare(c: Ctx, limits: bool, staging: int, action: Action)
    requires TxnInv(c.t) && GpuRunning(c.t) && !action.GpuFinish? && !IsRequest(action)
    ensures Spares(c, Act(c, limits, staging, action))
  {
  }

  /** Commit, Abort, expiry, further GPU requests: none touches what a running operation uses. */
  lemma ActsAroundGpu(c: Ctx, limits: bool, staging: int, action: Action)
    requires TxnInv(c.t) && GpuRunning(c.t) && !action.GpuFinish?
    ensures Spares(c, Act(c, limits, staging, action))
  {
    if action.Abort? || action.Reap? {
      AbortActSpares(c, limits, staging, action);
    } else if IsRequest(action) {
      RequestActSpares(c, limits, staging, action);
    } else {
      OtherActsSpare(c, limits, staging, action);
    }
  }

  lemma AbortActSpares(c: Ctx, limits: bool, staging: int, action: Action)
    requires TxnInv(c.t) && GpuRunning(c.t) && (action.Abort? || action.Reap?)
    ensures Spares(c, Act(c, limits, staging, action))
  {
    AbortSpares(c, action.now, action.removable);
  }

  lemma RequestActSpares(c: Ctx, limits: bool, staging: int, action: Action)
    requires TxnInv(c.t) && GpuRunning(c.t) && (action.Commit? || action.Gpu?)
    ensures Spares(c, Act(c, limits, staging, action))
  {
    if action.Commit? {
      RequestSpares(c, c.t.gpu.value.request, action.now, false, action.present, action.removable);
    } else {
      RequestSpares(c, action.request, action.now, action.valid, false, false);
    }
  }

  /** The transaction is findable, intact and its staging directory is still there if it was. */
  predicate Shielded(w: World, v: World, h: Handle) {
    && h in w.objs && h in v.objs && Intact(w.objs[h], v.objs[h]) && Registered(v, h)
    && (w.objs[h].hold.dir in w.dirs ==> w.objs[h].hold.dir in v.dirs)
  }

  /** Two transactions never record the same directory, so one's cleanup leaves the other's alone. */
  lemma OthersSpareDirectory(w: World, k: Handle, e: Effect, h: Handle)
    requires Inv(w) && h in w.objs && k in w.objs && h != k && EffectOk(View(w, k), e)
    requires w.objs[h].hold.dir in w.dirs
    ensures w.objs[h].hold.dir in e.c.dirs
  {
    var p := w.objs[h].hold.dir;
    var k' :| k' in w.objs && Records(w.objs[k'].hold, p);
    assert w.objs[k].hold.dir != p;
    assert p in Others(Accounts(View(w, k))).dirs;
    assert p in Others(Accounts(e.c)).dirs;
  }

  lemma ActedShields(w: World, k: Handle, action: Action, h: Handle)
    requires Inv(w) && h in w.objs && GpuRunning(w.objs[h]) && (k == h ==> !action.GpuFinish?)
    ensures Shielded(w, Acted(w, k, action), h)
  {
    ActedInv(w, k, action);
    if k in w.objs {
      var e := Act(View(w, k), w.limits, w.staging, action);
      Ground(w, k);
      ActLaw(View(w, k), w.limits, w.staging, action);
      ApplyShape(w, k, e);
      if k == h {
        ActsAroundGpu(View(w, h), w.limits, w.staging, action);
      } else if w.objs[h].hold.dir in w.dirs {
        OthersSpareDirectory(w, k, e, h);
      }
    }
  }

  /** Steps that act on no transaction's mutex. */
  lemma OutsideShields(w: World, s: Step, h: Handle)
    requires Inv(w) && h in w.objs && GpuRunning(w.objs[h]) && !s.On?
    ensures h in Next(w, s).objs && Intact(w.objs[h], Next(w, s).objs[h])
    ensures w.objs[h].hold.dir in w.dirs ==> w.objs[h].hold.dir in Next(w, s).dirs
  {
    assert h < w.next && TxnInv(w.objs[h]);
    match s
    case Shutdown => StoppedSpares(w, h);
    case Destroy(k) => DroppedSpares(w, k, h);
    case _ => StaysAsItIs(w, s, h);
  }

  lemma StaysAsItIs(w: World, s: Step, h: Handle)
    requires h in w.objs && h < w.next && (s.Create? || s.Tick? || s.PopTerminal? || s.EraseDoomed?)
    ensures h in Next(w, s).objs && Next(w, s).objs[h] == w.objs[h] && Next(w, s).dirs == w.dirs
  {
  }

  lemma DroppedSpares(w: World, k: Handle, h: Handle)
    requires Inv(w) && h in w.objs && GpuRunning(w.objs[h])
    ensures h in Drop(w, k).objs && Drop(w, k).objs[h] == w.objs[h] && Drop(w, k).dirs == w.dirs
  {
    if Unheld(w, k) { DestroyedShape(w, k); }
  }

  lemma StoppedSpares(w: World, h: Handle)
    requires h in w.objs && TxnInv(w.objs[h]) && GpuRunning(w.objs[h])
    ensures h in StopAll(w).objs && Intact(w.objs[h], StopAll(w).objs[h])
  {
  }

  lemma StepShields(w: World, s: Step, h: Handle)
    requires Inv(w) && h in w.objs && GpuRunning(w.objs[h])
    requires !(s.On? && s.h == h && s.action.GpuFinish?)
    ensures Shielded(w, Next(w, s), h)
  {
    if s.On? {
      ActedShields(w, s.h, s.action, h);
    } else {
      NextInv(w, s);
      OutsideShields(w, s, h);
    }
  }

  /**
   However long the engine runs and whatever others do meanwhile, until its own completion the
   transaction keeps its staging, reservation, artifact and pidfds and is neither Committed nor Aborted.
   */
  lemma {:induction false} RunningGpuIsShielded(w: World, steps: seq<Step>, h: Handle)
    requires Inv(w) && h in w.objs && GpuRunning(w.objs[h])
    requires forall i | 0 <= i < |steps| :: !(steps[i].On? && steps[i].h == h && steps[i].action.GpuFinish?)
    ensures Shielded(w, Run(w, steps), h)
    decreases |steps|
  {
    if steps == [] {
      assert !Terminal(w.objs[h]);
    } else {
      var front, last := steps[..|steps| - 1], steps[|steps| - 1];
      RunningGpuIsShielded(w, front, h);
      RunInv(w, front);
      StepShields(Run(w, front), last, h);
    }
  }
}
