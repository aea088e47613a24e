/** The promises of the PageBroker, over every run from an empty broker. */
module RunTheorems {
  import opened Lifecycle
  import opened Actions
  import opened ActionLaws
  import opened Registry
  import opened RunInvariants
  import opened DirectNames

  ghost predicate Reachable(w: World) {
    exists limits: bool, byteLimit: nat, transactionLimit: nat, steps: seq<Step> ::
      w == Run(Initial(limits, byteLimit, transactionLimit), steps)
  }

  lemma ReachableInv(w: World)
    requires Reachable(w)
    ensures Inv(w)
  {
    var limits: bool, byteLimit: nat, transactionLimit: nat, steps: seq<Step> :|
      w == Run(Initial(limits, byteLimit, transactionLimit), steps);
    InitialInv(limits, byteLimit, transactionLimit);
    RunInv(Initial(limits, byteLimit, transactionLimit), steps);
  }

  // Conservation.

  /**
   The pool's bytes and slots are exactly what unreleased admitted transactions account for,
   neither ever underflows or passes its limit, and the bytes reserved for running restores
   are exactly those of the restores between reservation and release.
   */
  lemma AdmissionIsConserved(w: World)
    requires Reachable(w)
    ensures w.pool.reserved == Sum(Bytes, w.objs, w.next) && 0 <= w.pool.reserved <= w.pool.byteLimit
    ensures w.pool.active == Sum(Slots, w.objs, w.next) && 0 <= w.pool.active <= w.pool.transactionLimit
    ensures w.staging == Sum(RestoreBytes, w.objs, w.next) && 0 <= w.staging
  {
    ReachableInv(w);
  }

  /** Where the budget can still grow, it has not been given back. */
  lemma ReserveNeverFollowsRelease(w: World, h: Handle)
    requires Reachable(w) && h in w.objs
    requires w.objs[h].phase.RestoreScanning? || w.objs[h].phase.CommitInspecting?
    ensures !w.objs[h].hold.released
  {
    ReachableInv(w);
  }

  /** The destinations are exactly those of the transactions that own one; no two own the same. */
  lemma DestinationsAreExclusive(w: World)
    requires Reachable(w)
    ensures forall a :: a in w.pool.destinations <==> exists h | h in w.objs :: Owns(w.objs[h].hold, a)
    ensures forall h, k, a | h in w.objs && k in w.objs && Owns(w.objs[h].hold, a) && Owns(w.objs[k].hold, a) :: h == k
  {
    ReachableInv(w);
  }

  /** An aborted transaction with nothing of its staging left owns no destination. */
  lemma AbortedDestination(w: World, h: Handle)
    requires Reachable(w) && h in w.objs && w.objs[h].state == Aborted && !HasPendingCleanup(w.objs[h])
    ensures !HasDestination(w.objs[h].hold)
  {
    ReachableInv(w);
  }

  /** For each ID at most one transaction, over all holders, is unfinished or unclean, and the registry finds it. */
  lemma OneLiveTransactionPerId(w: World, h: Handle)
    requires Reachable(w) && h in w.objs && (!Terminal(w.objs[h]) || HasPendingCleanup(w.objs[h]))
    ensures Registered(w, h)
    ensures forall k | k in w.objs && w.objs[k].id == w.objs[h].id && k != h ::
              Terminal(w.objs[k]) && !HasPendingCleanup(w.objs[k])
  {
    ReachableInv(w);
  }

  /** Every directory the broker made and has neither removed nor published is on exactly one registered transaction's record. */
  lemma NoStagingIsOrphaned(w: World, p: Path)
    requires Reachable(w) && p in w.dirs
    ensures exists h | h in w.objs :: Records(w.objs[h].hold, p) && Registered(w, h)
    ensures forall h, k | h in w.objs && k in w.objs && Records(w.objs[h].hold, p) && Records(w.objs[k].hold, p) :: h == k
  {
    ReachableInv(w);
    var h :| h in w.objs && Records(w.objs[h].hold, p);
    DirectoryOwner(w, h);
    forall k, l | k in w.objs && l in w.objs && Records(w.objs[k].hold, p) && Records(w.objs[l].hold, p) ensures k == l {
      DirectoryOwner(w, k);
      DirectoryOwner(w, l);
    }
  }

  /**
   The same for the directories of direct checkpoints as the file system names them, for IDs that
   hide no marker: no two transactions have one directory on record.
   */
  lemma NamedStagingHasOneOwner(w: World, h: Handle, k: Handle)
    requires Reachable(w) && h in w.objs && k in w.objs
    requires w.objs[h].hold.dir.Beside? && w.objs[k].hold.dir.Beside?
    requires SafeId(w.objs[h].id) && SafeId(w.objs[k].id) && !HidesMarker(w.objs[h].id) && !HidesMarker(w.objs[k].id)
    ensures var p, q := w.objs[h].hold.dir, w.objs[k].hold.dir;
            DirectDirectory(p.published, p.id) == DirectDirectory(q.published, q.id) <==> h == k
  {
    ReachableInv(w);
    DirectoryOwner(w, h);
    DirectoryOwner(w, k);
    var p, q := w.objs[h].hold.dir, w.objs[k].hold.dir;
    NamesAreDistinct(p.published, p.id, q.published, q.id);
  }

  lemma DirectoryOwner(w: World, h: Handle)
    requires Inv(w) && h in w.objs && w.objs[h].hold.dir != NoPath
    ensures w.objs[h].hold.dir.id == w.objs[h].id && Registered(w, h)
  {
  }

  // One-way streets.

  lemma EvolvesTransitive(t: Txn, u: Txn, v: Txn)
    requires Evolves(t, u) && Evolves(u, v)
    ensures Evolves(t, v)
  {
  }

  /** The transaction as an effect leaves it, marked if it enters the queue. */
  function Written(e: Effect): Txn {
    if e.retain && CanRetainTerminal(e.c.t) then e.c.t.(retained := true) else e.c.t
  }

  /** Writing an effect back touches one transaction. */
  lemma ApplyShape(w: World, k: Handle, e: Effect)
    requires k in w.objs
    ensures Apply(w, k, e).objs.Keys == w.objs.Keys && Apply(w, k, e).next == w.next
    ensures Apply(w, k, e).objs[k] == Written(e)
    ensures forall h | h in w.objs && h != k :: Apply(w, k, e).objs[h] == w.objs[h]
    ensures Apply(w, k, e).pool == e.c.pool && Apply(w, k, e).dirs == e.c.dirs && Apply(w, k, e).staging == w.staging + e.staging
    ensures Apply(w, k, e).registry == if e.erase then EraseTransaction(w.registry, w.objs[k].id, k) else w.registry
  {
  }

  lemma AppliedEvolves(w: World, k: Handle, e: Effect)
    requires k in w.objs && Evolves(w.objs[k], e.c.t)
    ensures Apply(w, k, e).next == w.next && Apply(w, k, e).objs.Keys == w.objs.Keys
    ensures forall h | h in w.objs :: Evolves(w.objs[h], Apply(w, k, e).objs[h])
  {
    ApplyShape(w, k, e);
  }

  lemma ActedEvolves(w: World, k: Handle, action: Action)
    requires Inv(w)
    ensures Acted(w, k, action).next == w.next && Acted(w, k, action).objs.Keys == w.objs.Keys
    ensures forall h | h in w.objs :: Evolves(w.objs[h], Acted(w, k, action).objs[h])
  {
    if k in w.objs {
      Ground(w, k);
      ActLaw(View(w, k), w.limits, w.staging, action);
      AppliedEvolves(w, k, Act(View(w, k), w.limits, w.staging, action));
    }
  }

  lemma OutsideEvolves(w: World, s: Step, h: Handle)
    requires !s.On? && h in w.objs && h in Next(w, s).objs && h < w.next
    ensures Evolves(w.objs[h], Next(w, s).objs[h])
  {
  }

  /** In one step a transaction evolves or is destroyed, and nothing comes back. */
  lemma StepEvolves(w: World, s: Step, h: Handle)
    requires Inv(w) && h < w.next
    ensures h < Next(w, s).next
    ensures h !in w.objs ==> h !in Next(w, s).objs
    ensures h in w.objs && h in Next(w, s).objs ==> Evolves(w.objs[h], Next(w, s).objs[h])
  {
    if s.On? {
      ActedEvolves(w, s.h, s.action);
    } else if h in w.objs && h in Next(w, s).objs {
      OutsideEvolves(w, s, h);
    }
  }

  /** However a run goes on, a transaction that is still there has moved along its life only forwards. */
  lemma {:induction false} LifeIsOneWay(w: World, steps: seq<Step>, h: Handle)
    requires Inv(w) && h < w.next
    ensures h < Run(w, steps).next
    ensures h !in w.objs ==> h !in Run(w, steps).objs
    ensures h in w.objs && h in Run(w, steps).objs ==> Evolves(w.objs[h], Run(w, steps).objs[h])
    decreases |steps|
  {
    if steps != [] {
      var front, last := steps[..|steps| - 1], steps[|steps| - 1];
      LifeIsOneWay(w, front, h);
      RunInv(w, front);
      StepEvolves(Run(w, front), last, h);
    }
  }

  /** Once owned, a destination stays with its transaction until that is aborted and clean. */
  lemma DestinationIsKept(w: World, steps: seq<Step>, h: Handle)
    requires Inv(w) && h in w.objs && HasDestination(w.objs[h].hold) && h in Run(w, steps).objs
    ensures var u := Run(w, steps).objs[h];
            Owns(u.hold, w.objs[h].hold.pub.value.artifact) <==> u.state != Aborted || HasPendingCleanup(u)
  {
    LifeIsOneWay(w, steps, h);
    RunInv(w, steps);
  }

  /** Commit and Abort never both succeed, Commit always answers the same, publication and a conclusive GPU run happen once. */
  lemma AnswersNeverClash(w: World, i: nat, j: nat)
    requires Reachable(w) && i < j < |w.log| && w.log[i].h == w.log[j].h
    ensures !(w.log[i].reply.CommitComplete? && w.log[j].reply.AbortComplete?)
    ensures !(w.log[i].reply.AbortComplete? && w.log[j].reply.CommitComplete?)
    ensures w.log[i].reply.CommitComplete? && w.log[j].reply.CommitComplete? ==> w.log[i].reply.payload == w.log[j].reply.payload
    ensures !(w.log[i].published && w.log[j].published)
    ensures w.log[i].reply.GpuReply? && w.log[j].reply.GpuReply? ==> w.log[i].reply == w.log[j].reply
    ensures !(w.log[i].ran && w.log[j].ran)
  {
    ReachableInv(w);
    assert !Clashes(w.log[i], w.log[j]);
  }

  /** A GPU answer is that of the one run that concluded, at or before it: same request, same result. */
  lemma GpuAnswersReplayOneRun(w: World, j: nat)
    requires Reachable(w) && j < |w.log| && w.log[j].reply.GpuReply?
    ensures exists i :: 0 <= i <= j && w.log[i].h == w.log[j].h && w.log[i].ran && w.log[i].reply == w.log[j].reply
  {
    ReachableInv(w);
    ReplaysConcluded(w.log, j);
  }

  lemma ReplaysConcluded(log: seq<Event>, j: nat)
    requires j < |log| && log[j].reply.GpuReply? && ConcludedBefore(log, log[j].h, j + 1)
    requires forall i, k | 0 <= i < k < |log| :: !Clashes(log[i], log[k])
    ensures exists i :: 0 <= i <= j && log[i].h == log[j].h && log[i].ran && log[i].reply == log[j].reply
  {
    var i :| 0 <= i < j + 1 && log[i].h == log[j].h && log[i].ran && log[i].reply.GpuReply?;
    assert i == j || !Clashes(log[i], log[j]);
  }

  /** A committed transaction answers Commit with the same payload for as long as anyone holds it. */
  lemma CommitIsRepeatable(w: World, h: Handle, now: Time, present: bool, removable: bool)
    requires Reachable(w) && h in w.objs && w.objs[h].state == Committed
    ensures Act(View(w, h), w.limits, w.staging, Commit(now, present, removable)).reply == CommitComplete(Payload(w.objs[h].hold))
  {
    ReachableInv(w);
    Ground(w, h);
    CommittedAnswers(View(w, h), w.limits, w.staging, now, present, removable);
  }

  lemma CommittedAnswers(c: Ctx, limits: bool, staging: int, now: Time, present: bool, removable: bool)
    requires Grounded(c) && c.t.state == Committed
    ensures Act(c, limits, staging, Commit(now, present, removable)).reply == CommitComplete(Payload(c.t.hold))
  {
    CleanupLaw(c, removable);
  }

  /** A transaction with a GPU operation commits only if that operation succeeded. */
  lemma CommittedGpuSucceeded(w: World, h: Handle)
    requires Reachable(w) && h in w.objs && w.objs[h].state == Committed && w.objs[h].gpu.Some?
    ensures w.objs[h].gpu.value.state == Finished && w.objs[h].gpu.value.result.Succeeded?
  {
    ReachableInv(w);
  }

  lemma CommitFindsDescriptor(c: Ctx, limits: bool, staging: int, now: Time, present: bool, removable: bool)
    requires TxnInv(c.t)
    ensures var reply := Act(c, limits, staging, Commit(now, present, removable)).reply;
            !reply.IsPreparing? && !reply.NoDescriptor?
  {
    assert CommitLocked(c, now, present, removable).reply.IsPreparing? ==> c.t.state == Preparing;
  }

  /** Commit never meets a preparing transaction nor a staged one without a descriptor. */
  lemma CommitBranchesUnreachable(w: World, h: Handle, now: Time, present: bool, removable: bool)
    requires Reachable(w) && h in w.objs
    ensures !Act(View(w, h), w.limits, w.staging, Commit(now, present, removable)).reply.IsPreparing?
    ensures !Act(View(w, h), w.limits, w.staging, Commit(now, present, removable)).reply.NoDescriptor?
  {
    ReachableInv(w);
    CommitFindsDescriptor(View(w, h), w.limits, w.staging, now, present, removable);
  }

  /** The GPU engine is only ever started on an artifact that is still held. */
  lemma GpuRunsOnAnArtifact(w: World, h: Handle)
    requires Reachable(w) && h in w.objs && GpuRunning(w.objs[h])
    ensures w.objs[h].gpu.value.artifact && w.objs[h].gpu.value.pidfds && Registered(w, h)
  {
    ReachableInv(w);
  }
}
