/** The terminal queue, the reaper's sweep and shutdown. */
module BrokerSweeps {
  import opened Lifecycle
  import opened Actions
  import opened ActionLaws
  import opened Registry
  import opened RunInvariants
  import opened RunTheorems
  import opened RequestOutcomes

  // Retention.

  predicate Stale(entry: Entry, now: Time) {
    now >= entry.completed + RETENTION
  }

  lemma {:induction false} OverdueCountSpec(queue: seq<Entry>, now: Time)
    ensures var n := OverdueCount(queue, now);
            && !Overdue(queue[n..], now)
            && forall i | 0 <= i < n :: Stale(queue[i], now) || |queue| - i > MAX_RETAINED
    decreases |queue|
  {
    if Overdue(queue, now) {
      var rest := queue[1..];
      var m := OverdueCount(rest, now);
      OverdueCountSpec(rest, now);
      assert queue[m + 1..] == rest[m..];
      forall i | 0 <= i < m + 1 ensures Stale(queue[i], now) || |queue| - i > MAX_RETAINED {
        if i > 0 { assert rest[i - 1] == queue[i]; }
      }
    } else {
      assert queue[0..] == queue;
    }
  }

  lemma PopIsExact(queue: seq<Entry>, now: Time)
    requires forall i, j | 0 <= i < j < |queue| :: queue[i].completed <= queue[j].completed
    ensures var left := queue[OverdueCount(queue, now)..];
            |left| <= MAX_RETAINED && forall i | 0 <= i < |left| :: !Stale(left[i], now)
  {
    OverdueCountSpec(queue, now);
    var n := OverdueCount(queue, now);
    var left := queue[n..];
    forall i | 0 <= i < |left| ensures !Stale(left[i], now) {
      assert left[i] == queue[n + i] && left[0] == queue[n];
    }
  }

  /**
   Taking from the front alone leaves no stale entry and at most the allowed number, and nothing
   is taken that is neither stale nor beyond that number; what is taken is due for erasure.
   */
  lemma RetentionIsExact(w: World, now: Time)
    requires Reachable(w)
    ensures var v := Pop(w, now);
            && |v.queue| <= MAX_RETAINED
            && (forall i | 0 <= i < |v.queue| :: !Stale(v.queue[i], now))
            && (exists n | 0 <= n <= |w.queue| ::
                  && v.queue == w.queue[n..] && v.doomed == w.doomed + w.queue[..n]
                  && forall i | 0 <= i < n :: Stale(w.queue[i], now) || |w.queue| - i > MAX_RETAINED)
  {
    ReachableInv(w);
    OverdueCountSpec(w.queue, now);
    PopIsExact(w.queue, now);
  }

  /** The queue holds finished, clean transactions, each at most once, in order of completion. */
  lemma QueueIsOrderly(w: World)
    requires Reachable(w)
    ensures forall i | 0 <= i < |w.queue| ::
              && w.queue[i].h in w.objs && w.queue[i].id == w.objs[w.queue[i].h].id
              && Terminal(w.objs[w.queue[i].h]) && !HasPendingCleanup(w.objs[w.queue[i].h])
    ensures forall i, j | 0 <= i < j < |w.queue| ::
              w.queue[i].completed <= w.queue[j].completed && w.queue[i].h != w.queue[j].h
  {
    ReachableInv(w);
    assert forall i | 0 <= i < |w.queue| :: Known(w.objs, w.clock, w.queue[i]);
  }

  /** Whatever the step, however stale its holder, only a finished and clean transaction leaves the registry. */
  lemma OnlyFinishedLeave(w: World, s: Step, h: Handle)
    requires Inv(w) && Registered(w, h) && h in Next(w, s).objs && !Registered(Next(w, s), h)
    ensures Terminal(Next(w, s).objs[h]) && !HasPendingCleanup(Next(w, s).objs[h])
  {
    NextInv(w, s);
  }

  lemma ActedEvicts(w: World, k: Handle, action: Action, h: Handle)
    requires Inv(w) && Registered(w, h) && k != h
    ensures Registered(Acted(w, k, action), h)
  {
    if k in w.objs {
      Ground(w, k);
      ActLaw(View(w, k), w.limits, w.staging, action);
      ApplyRegistry(w, k, Act(View(w, k), w.limits, w.staging, action));
    }
  }

  /**
   Only its own holder and its own queue entry take a transaction out of the registry: whoever is
   stale, be it a reaper's snapshot or an entry of the terminal queue, never evicts a later
   transaction that uses the ID again, finished or not.
   */
  lemma NobodyElseEvicts(w: World, s: Step, h: Handle)
    requires Inv(w) && Registered(w, h) && h in Next(w, s).objs && !Registered(Next(w, s), h)
    ensures (s.On? && s.h == h) || (s.EraseDoomed? && s.at < |w.doomed| && w.doomed[s.at].h == h)
    ensures Terminal(Next(w, s).objs[h]) && !HasPendingCleanup(Next(w, s).objs[h])
  {
    OnlyFinishedLeave(w, s, h);
    if !s.On? { OutsideEvicts(w, s, h); } else if s.h != h { ActedEvicts(w, s.h, s.action, h); }
  }

  lemma OutsideEvicts(w: World, s: Step, h: Handle)
    requires Registered(w, h) && !s.On? && h in Next(w, s).objs && !Registered(Next(w, s), h)
    ensures s.EraseDoomed? && s.at < |w.doomed| && w.doomed[s.at].h == h
  {
  }

  /** From `w` to `v` one entry taken from the queue had its turn: its transaction, and no other, leaves the registry. */
  predicate ErasedOnly(w: World, v: World, at: nat)
    requires at < |w.doomed|
  {
    && v.objs == w.objs && v.doomed == w.doomed[..at] + w.doomed[at + 1..]
    && forall h | h in w.objs :: Registered(v, h) <==> Registered(w, h) && h != w.doomed[at].h
  }

  lemma EntryErased(w: World, at: nat)
    requires at < |w.doomed| && Known(w.objs, w.clock, w.doomed[at])
    ensures ErasedOnly(w, EraseEntry(w, at), at)
  {
  }

  /** The turn of an entry taken from the queue erases its transaction exactly. */
  lemma ErasureIsExact(w: World, at: nat)
    requires Inv(w) && at < |w.doomed|
    ensures ErasedOnly(w, Next(w, EraseDoomed(at)), at)
  {
    EntryErased(w, at);
  }

  /** From `w` to `v` a transaction was created for the ID, with nothing in hand. */
  predicate CreatedOnly(w: World, v: World, id: Id) {
    && w.next !in w.objs && v.objs.Keys == w.objs.Keys + {w.next} && Registered(v, w.next)
    && v.objs[w.next].id == id && v.objs[w.next].state == New && v.objs[w.next].phase.Free? && !v.objs[w.next].cancelled
    && (forall h | h in w.objs :: v.objs[h] == w.objs[h] && (Registered(v, h) <==> Registered(w, h)))
    && v.pool == w.pool && v.dirs == w.dirs
  }

  lemma EntryCreated(w: World, id: Id)
    requires w.next !in w.objs && id !in w.registry && !w.stopping
    ensures CreatedOnly(w, CreateTransaction(w, id), id)
  {
  }

  /** A request for an ID finds its transaction or, unless the broker is stopping, creates one. */
  lemma CreationIsExact(w: World, id: Id)
    requires Inv(w)
    ensures var v := Next(w, Create(id)); if w.stopping || id in w.registry then v == w else CreatedOnly(w, v, id)
  {
    if !w.stopping && id !in w.registry { EntryCreated(w, id); }
  }

  /** A transaction dies when nobody holds it; all it can still take with it is the destination it published. */
  lemma DestructionIsExact(w: World, h: Handle)
    requires Inv(w) && Unheld(w, h)
    ensures var v := Next(w, Destroy(h));
            && v.objs == w.objs - {h} && v.registry == w.registry && v.dirs == w.dirs
            && v.pool.reserved == w.pool.reserved && v.pool.active == w.pool.active
            && (HasDestination(w.objs[h].hold) ==>
                  w.objs[h].state == Committed && v.pool.destinations == w.pool.destinations - {w.objs[h].hold.pub.value.artifact})
            && (!HasDestination(w.objs[h].hold) ==> v.pool.destinations == w.pool.destinations)
  {
    DestroyedShape(w, h);
  }

  // Once through the queue.

  /** The transaction has had its place in the queue and lost it. */
  predicate HasLeftQueue(w: World, h: Handle) {
    h < w.next && (h in w.objs ==> w.objs[h].retained) && !Listed(w.queue, h)
  }

  lemma ApplyQueue(w: World, k: Handle, e: Effect, h: Handle)
    requires k in w.objs && Evolves(w.objs[k], e.c.t) && HasLeftQueue(w, h)
    ensures HasLeftQueue(Apply(w, k, e), h)
  {
    ApplyShape(w, k, e);
    var v := Apply(w, k, e);
    if v.queue != w.queue {
      assert v.queue == w.queue + [Entry(w.objs[k].id, k, w.clock)];
    }
  }

  lemma StepLeavesQueue(w: World, s: Step, h: Handle)
    requires Inv(w) && HasLeftQueue(w, h)
    ensures HasLeftQueue(Next(w, s), h)
  {
    if s.On? {
      if s.h in w.objs {
        Ground(w, s.h);
        ActLaw(View(w, s.h), w.limits, w.staging, s.action);
        ApplyQueue(w, s.h, Act(View(w, s.h), w.limits, w.staging, s.action), h);
      }
    } else {
      StepEvolves(w, s, h);
    }
  }

  /** A transaction that has been through the terminal queue never enters it again, however the run goes on. */
  lemma {:induction false} QueuedAtMostOnce(w: World, steps: seq<Step>, h: Handle)
    requires Inv(w) && HasLeftQueue(w, h)
    ensures HasLeftQueue(Run(w, steps), h)
    decreases |steps|
  {
    if steps != [] {
      QueuedAtMostOnce(w, steps[..|steps| - 1], h);
      RunInv(w, steps[..|steps| - 1]);
      StepLeavesQueue(Run(w, steps[..|steps| - 1]), steps[|steps| - 1], h);
    }
  }

  // Shutdown.

  lemma StepStaysStopped(w: World, s: Step)
    requires w.stopping
    ensures Next(w, s).stopping && Next(w, s).next == w.next
  {
  }

  lemma {:induction false} StaysStopped(w: World, steps: seq<Step>)
    requires w.stopping
    ensures Run(w, steps).stopping && Run(w, steps).next == w.next
    decreases |steps|
  {
    if steps != [] {
      StaysStopped(w, steps[..|steps| - 1]);
      StepStaysStopped(Run(w, steps[..|steps| - 1]), steps[|steps| - 1]);
    }
  }

  /** After Shutdown no transaction ever becomes Staged again, although no transaction mutex was taken. */
  lemma NothingIsStagedAfterShutdown(w: World, steps: seq<Step>, h: Handle)
    requires Inv(w) && w.stopping
    requires h in Run(w, steps).objs && Run(w, steps).objs[h].state == Staged
    ensures h in w.objs && w.objs[h].state == Staged
  {
    StaysStopped(w, steps);
    RunInv(w, steps);
    LifeIsOneWay(w, steps, h);
  }

  // Room for restores.

  lemma SpaceDecision(c: Ctx, staging: int, available: Option<nat>, removable: bool)
    requires Grounded(c) && c.t.phase.RestoreSpacing?
    ensures var e := RestoreReserve(c, c.t.phase.artifact, c.t.phase.bytes, staging, available, removable);
            && !e.retain
            && (e.c.t.phase.RestoreCreating? <==> SpaceFor(staging + c.t.phase.bytes, available))
            && (e.c.t.phase.RestoreCreating? ==> e.staging == c.t.phase.bytes)
  {
    if !SpaceFor(c.t.phase.bytes + staging, available) { RejectLaw(c, removable); }
  }

  lemma SpaceEffect(c: Ctx, limits: bool, staging: int, available: Option<nat>, removable: bool)
    requires Grounded(c) && c.t.phase.RestoreSpacing?
    ensures var e := Act(c, limits, staging, RestoreSpace(available, removable));
            && (Written(e).phase.RestoreCreating? <==> SpaceFor(staging + c.t.phase.bytes, available))
            && (Written(e).phase.RestoreCreating? ==> e.staging == c.t.phase.bytes)
  {
    SpaceDecision(c, staging, available, removable);
  }

  /** From `w` to `v` the restore goes on exactly if its bytes and those of all others under way fit, and then they all do. */
  ghost predicate FitsExactly(w: World, v: World, h: Handle, available: Option<nat>)
    requires h in w.objs && w.objs[h].phase.RestoreSpacing?
  {
    && h in v.objs && v.staging == Sum(RestoreBytes, v.objs, v.next)
    && (v.objs[h].phase.RestoreCreating? ==> SpaceFor(v.staging, available))
    && (v.objs[h].phase.RestoreCreating? <==> SpaceFor(Sum(RestoreBytes, w.objs, w.next) + w.objs[h].phase.bytes, available))
  }

  lemma FitsWhenTaken(w: World, v: World, h: Handle, available: Option<nat>)
    requires h in w.objs && w.objs[h].phase.RestoreSpacing? && h in v.objs
    requires w.staging == Sum(RestoreBytes, w.objs, w.next) && v.staging == Sum(RestoreBytes, v.objs, v.next)
    requires v.objs[h].phase.RestoreCreating? <==> SpaceFor(w.staging + w.objs[h].phase.bytes, available)
    requires v.objs[h].phase.RestoreCreating? ==> v.staging == w.staging + w.objs[h].phase.bytes
    ensures FitsExactly(w, v, h, available)
  {
  }

  /** A restore starts copying exactly if its bytes and those of all others under way fit the space just reported. */
  lemma RestoresFitReportedSpace(w: World, h: Handle, available: Option<nat>, removable: bool)
    requires Inv(w) && h in w.objs && w.objs[h].phase.RestoreSpacing?
    ensures FitsExactly(w, Acted(w, h, RestoreSpace(available, removable)), h, available)
  {
    StagingIsCounted(w);
    ActedIsCounted(w, h, RestoreSpace(available, removable));
    SpaceTaken(w, h, available, removable);
    FitsWhenTaken(w, Acted(w, h, RestoreSpace(available, removable)), h, available);
  }

  lemma StagingIsCounted(w: World)
    requires Inv(w)
    ensures w.staging == Sum(RestoreBytes, w.objs, w.next)
  {
  }

  lemma ActedIsCounted(w: World, h: Handle, action: Action)
    requires Inv(w)
    ensures var v := Acted(w, h, action); v.staging == Sum(RestoreBytes, v.objs, v.next)
  {
    ActedInv(w, h, action);
    StagingIsCounted(Acted(w, h, action));
  }

  lemma SpaceTaken(w: World, h: Handle, available: Option<nat>, removable: bool)
    requires Inv(w) && h in w.objs && w.objs[h].phase.RestoreSpacing?
    ensures var v := Acted(w, h, RestoreSpace(available, removable));
            && h in v.objs && (v.objs[h].phase.RestoreCreating? <==> SpaceFor(w.staging + w.objs[h].phase.bytes, available))
            && (v.objs[h].phase.RestoreCreating? ==> v.staging == w.staging + w.objs[h].phase.bytes)
  {
    Ground(w, h);
    SpaceEffect(View(w, h), w.limits, w.staging, available, removable);
    ApplyShape(w, h, Act(View(w, h), w.limits, w.staging, RestoreSpace(available, removable)));
  }

  // The reaper.

  /** What one visit of the reaper makes of a transaction; one whose mutex is taken is skipped. */
  function Reaped(t: Txn, now: Time, removable: bool): Txn {
    if !t.phase.Free? then t else
    if Terminal(t) then
      if CleanupFails(t, removable) then t else
      (if HasPendingCleanup(t) then t.(hold := Emptied(t.hold, t.state == Aborted), desc := Monostate) else t).(retained := true)
    else if !Expired(t, now) then t else
    var u := t.(state := Aborting, cancelled := true, expired := true);
    if GpuRunning(t) then u else
    if CleanupFails(t, removable) then DropArtifact(u) else Closed(u)
  }

  lemma ReapShape(c: Ctx, now: Time, removable: bool)
    requires Grounded(c) && c.t.phase.Free?
    ensures var e := ReapLocked(c, now, removable);
            && (if e.retain then e.c.t.(retained := true) == Reaped(c.t, now, removable) else e.c.t == Reaped(c.t, now, removable))
            && (e.retain ==> Terminal(e.c.t) && !HasPendingCleanup(e.c.t))
            && (e.erase <==> !Terminal(c.t) && Terminal(e.c.t))
  {
    if Terminal(c.t) {
      if HasPendingCleanup(c.t) && !CleanupFails(c.t, removable) { RemovedShape(c, removable); }
    } else if Expired(c.t, now) {
      var d := BeginAbort(ExpireTransfer(c, now));
      assert d == c.(t := c.t.(state := Aborting, cancelled := true, expired := true));
      ReapExpiredLaw(c, d, removable);
    }
  }

  lemma VisitEffect(c: Ctx, limits: bool, staging: int, now: Time, removable: bool)
    requires Grounded(c)
    ensures var e := Act(c, limits, staging, Reap(now, removable));
            Written(e) == Reaped(c.t, now, removable) && (e.erase <==> !Terminal(c.t) && Terminal(Written(e)))
  {
    if c.t.phase.Free? { ReapShape(c, now, removable); }
  }

  /** What the reaper makes of a finished transaction and the queue; a stuck directory is left for the next visit. */
  predicate RetainedOnceClean(w: World, v: World, h: Handle, removable: bool)
    requires h in w.objs && h in v.objs
  {
    var t, u := w.objs[h], v.objs[h];
    if Stuck(t, removable) then u == t && v.queue == w.queue else
    && u.retained && u.state == t.state && u.hold.dir == NoPath && Share(u.hold) == 0 && Slot(u.hold) == 0
    && v.queue == if t.retained then w.queue else w.queue + [Entry(t.id, h, w.clock)]
  }

  lemma RetainedShape(w: World, h: Handle, e: Effect)
    requires h in w.objs && e.c.t.id == w.objs[h].id && (e.retain ==> Terminal(e.c.t) && !HasPendingCleanup(e.c.t))
    ensures h in Apply(w, h, e).objs && Apply(w, h, e).objs[h] == (if e.retain then e.c.t.(retained := true) else e.c.t)
    ensures Apply(w, h, e).queue ==
            if e.retain && !e.c.t.retained then w.queue + [Entry(w.objs[h].id, h, w.clock)] else w.queue
  {
  }

  lemma ReapFinished(c: Ctx, limits: bool, staging: int, now: Time, removable: bool)
    requires Grounded(c) && c.t.phase.Free? && Over(c.t)
    ensures var e := Act(c, limits, staging, Reap(now, removable));
            && e.c.t.id == c.t.id && e.c.t.state == c.t.state && e.c.t.retained == c.t.retained
            && (e.retain <==> !Stuck(c.t, removable)) && (e.retain ==> !HasPendingCleanup(e.c.t))
            && (Stuck(c.t, removable) ==> e.c == c)
  {
    CleanupLaw(c, removable);
  }

  /** The reaper queues a finished transaction exactly when nothing of it is left to clean up, once. */
  lemma ReapRetainsTheFinished(w: World, h: Handle, now: Time, removable: bool)
    requires Inv(w) && h in w.objs && w.objs[h].phase.Free? && Over(w.objs[h])
    ensures var v := Acted(w, h, Reap(now, removable)); h in v.objs && RetainedOnceClean(w, v, h, removable)
  {
    Ground(w, h);
    ReapFinished(View(w, h), w.limits, w.staging, now, removable);
    RetainedShape(w, h, Act(View(w, h), w.limits, w.staging, Reap(now, removable)));
  }

  function Visited(w: World, k: Handle, now: Time, removable: bool): World {
    Acted(w, k, Reap(now, removable))
  }

  /** Erasing one transaction's entry leaves the entries of all others. */
  lemma ApplyRegistry(w: World, k: Handle, e: Effect)
    requires k in w.objs && e.c.t.id == w.objs[k].id
    ensures forall h | h in w.objs && h != k :: Registered(Apply(w, k, e), h) <==> Registered(w, h)
    ensures e.erase ==> !Registered(Apply(w, k, e), k)
  {
    ApplyShape(w, k, e);
  }

  predicate Unvisited(v: World, u: World, h: Handle) {
    h in v.objs && h in u.objs && u.objs[h] == v.objs[h] && (Registered(u, h) <==> Registered(v, h))
  }

  /** From `w` to `v` only transaction `k` was visited. */
  ghost predicate VisitedOnly(w: World, v: World, k: Handle, now: Time, removable: bool)
    requires k in w.objs
  {
    && v.objs.Keys == w.objs.Keys && v.objs[k] == Reaped(w.objs[k], now, removable)
    && (!Terminal(w.objs[k]) && Terminal(v.objs[k]) ==> !Registered(v, k))
    && (forall h | h in w.objs && h != k :: Unvisited(w, v, h))
  }

  lemma AppliedVisit(w: World, k: Handle, e: Effect, now: Time, removable: bool)
    requires k in w.objs && e.c.t.id == w.objs[k].id && Written(e) == Reaped(w.objs[k], now, removable)
    requires e.erase <==> !Terminal(w.objs[k]) && Terminal(Written(e))
    ensures VisitedOnly(w, Apply(w, k, e), k, now, removable)
  {
    ApplyShape(w, k, e);
    ApplyRegistry(w, k, e);
  }

  lemma VisitLaw(w: World, k: Handle, now: Time, removable: bool)
    requires Inv(w) && k in w.objs
    ensures VisitedOnly(w, Visited(w, k, now, removable), k, now, removable)
  {
    Ground(w, k);
    ActLaw(View(w, k), w.limits, w.staging, Reap(now, removable));
    VisitEffect(View(w, k), w.limits, w.staging, now, removable);
    AppliedVisit(w, k, Act(View(w, k), w.limits, w.staging, Reap(now, removable)), now, removable);
  }

  predicate Snapshot(w: World, snapshot: seq<Handle>) {
    && (forall i | 0 <= i < |snapshot| :: snapshot[i] in w.objs)
    && (forall i, j | 0 <= i < j < |snapshot| :: snapshot[i] != snapshot[j])
  }

  predicate Removable(blocked: set<Handle>, k: Handle) {
    k !in blocked
  }

  /** Every visit is one of the reaper's. */
  ghost predicate Reaps(visit: Visit, now: Time, blocked: set<Handle>) {
    forall w, k :: ReapsAt(visit, w, k, now, blocked)
  }

  ghost predicate ReapsAt(visit: Visit, w: World, k: Handle, now: Time, blocked: set<Handle>) {
    Inv(w) && k in w.objs ==> Inv(visit(w, k)) && VisitedOnly(w, visit(w, k), k, now, Removable(blocked, k))
  }

  lemma ReapingReaps(now: Time, blocked: set<Handle>)
    ensures Reaps(Reaping(now, blocked), now, blocked)
  {
    forall w, k ensures ReapsAt(Reaping(now, blocked), w, k, now, blocked) {
      if Inv(w) && k in w.objs {
        ActedInv(w, k, Reap(now, k !in blocked));
        VisitLaw(w, k, now, k !in blocked);
      }
    }
  }

  lemma {:induction false} VisitsKeepInv(w: World, snapshot: seq<Handle>, visit: Visit, now: Time, blocked: set<Handle>)
    requires Inv(w) && Snapshot(w, snapshot) && Reaps(visit, now, blocked)
    ensures Inv(VisitAll(w, snapshot, visit)) && VisitAll(w, snapshot, visit).objs.Keys == w.objs.Keys
    decreases |snapshot|
  {
    if snapshot != [] {
      var front, k := snapshot[..|snapshot| - 1], snapshot[|snapshot| - 1];
      VisitsKeepInv(w, front, visit, now, blocked);
      assert ReapsAt(visit, VisitAll(w, front, visit), k, now, blocked);
    }
  }

  /** Visits leave alone whoever is not in the snapshot. */
  lemma {:induction false} VisitsSpare(w: World, snapshot: seq<Handle>, visit: Visit, now: Time, blocked: set<Handle>, h: Handle)
    requires Inv(w) && Snapshot(w, snapshot) && Reaps(visit, now, blocked) && h in w.objs && h !in snapshot
    ensures Unvisited(w, VisitAll(w, snapshot, visit), h)
    decreases |snapshot|
  {
    if snapshot != [] {
      var front, k := snapshot[..|snapshot| - 1], snapshot[|snapshot| - 1];
      VisitsKeepInv(w, front, visit, now, blocked);
      VisitsSpare(w, front, visit, now, blocked, h);
      var v := VisitAll(w, front, visit);
      assert ReapsAt(visit, v, k, now, blocked) && k != h;
      assert Unvisited(v, visit(v, k), h);
    }
  }

  /** The transaction as one visit leaves it, and out of the registry if that ended it. */
  predicate WasVisited(w: World, v: World, h: Handle, now: Time, removable: bool) {
    && h in w.objs && h in v.objs && v.objs[h] == Reaped(w.objs[h], now, removable)
    && (!Terminal(w.objs[h]) && Terminal(v.objs[h]) ==> !Registered(v, h))
  }

  /** Whoever is in the snapshot is visited exactly once. */
  lemma {:induction false} VisitsReach(w: World, snapshot: seq<Handle>, visit: Visit, now: Time, blocked: set<Handle>, h: Handle)
    requires Inv(w) && Snapshot(w, snapshot) && Reaps(visit, now, blocked) && h in snapshot
    ensures WasVisited(w, VisitAll(w, snapshot, visit), h, now, Removable(blocked, h))
    decreases |snapshot|
  {
    var front, k := snapshot[..|snapshot| - 1], snapshot[|snapshot| - 1];
    assert snapshot == front + [k];
    VisitsKeepInv(w, front, visit, now, blocked);
    var v := VisitAll(w, front, visit);
    assert ReapsAt(visit, v, k, now, blocked);
    if k == h {
      VisitsSpare(w, front, visit, now, blocked, h);
      VisitedLast(w, v, visit(v, k), h, now, Removable(blocked, h));
    } else {
      VisitsReach(w, front, visit, now, blocked, h);
      VisitedBefore(w, v, visit(v, k), k, h, now, Removable(blocked, h), Removable(blocked, k));
    }
  }

  lemma VisitedLast(w: World, v: World, u: World, h: Handle, now: Time, removable: bool)
    requires Unvisited(w, v, h) && VisitedOnly(v, u, h, now, removable)
    ensures WasVisited(w, u, h, now, removable)
  {
  }

  lemma VisitedBefore(w: World, v: World, u: World, k: Handle, h: Handle, now: Time, removable: bool, other: bool)
    requires WasVisited(w, v, h, now, removable) && k in v.objs && h != k && VisitedOnly(v, u, k, now, other)
    ensures WasVisited(w, u, h, now, removable)
  {
    assert Unvisited(v, u, h);
  }

  lemma ReapedFacts(t: Txn, now: Time, removable: bool)
    requires TxnInv(t) && t.phase.Free? && !Terminal(t)
    ensures var u := Reaped(t, now, removable);
            if !PastDeadline(t, now) then u == t else
            if GpuBusy(t) || Stuck(t, removable) then u.state == Aborting && u.cancelled && u.expired && u.hold == t.hold else
            && u.state == Aborted && !HasPendingCleanup(u)
            && Share(u.hold) == 0 && Slot(u.hold) == 0 && !HasDestination(u.hold)
  {
    var v := t.(state := Aborting, cancelled := true, expired := true);
    if Expired(t, now) && !GpuRunning(t) { ClosedInv(v); }
  }

  /** What a sweep that found `h` idle in `w` has made of it in `v`. */
  ghost predicate AbortedIfExpired(w: World, v: World, h: Handle, now: Time, removable: bool)
    requires h in w.objs
  {
    h in v.objs &&
    var t, u := w.objs[h], v.objs[h];
    if !PastDeadline(t, now) then u == t && Registered(v, h) else
    if GpuBusy(t) || Stuck(t, removable) then
      u.state == Aborting && u.cancelled && u.expired && u.hold == t.hold && Registered(v, h)
    else
    && u.state == Aborted && !HasPendingCleanup(u) && !Registered(v, h)
    && Share(u.hold) == 0 && Slot(u.hold) == 0 && !HasDestination(u.hold)
  }

  lemma VisitedMeansAborted(w: World, v: World, h: Handle, now: Time, removable: bool)
    requires WasVisited(w, v, h, now, removable) && TxnInv(w.objs[h]) && !Terminal(w.objs[h]) && w.objs[h].phase.Free?
    requires !Terminal(v.objs[h]) ==> Registered(v, h)
    ensures AbortedIfExpired(w, v, h, now, removable)
  {
    ReapedFacts(w.objs[h], now, removable);
  }

  lemma UnfinishedIsRegistered(w: World, h: Handle)
    requires Inv(w) && h in w.objs && !Terminal(w.objs[h])
    ensures Registered(w, h)
  {
  }

  /**
   A sweep aborts every expired transaction it finds: those whose GPU work is not running and whose
   staging goes away leave the registry with nothing left in hand; the others stay registered,
   Aborting, with all they hold. Whoever has not expired, or is not in the snapshot, is untouched.
   */
  lemma SweepAbortsTheExpired(w: World, now: Time, snapshot: seq<Handle>, blocked: set<Handle>, h: Handle)
    requires Inv(w) && Snapshot(w, snapshot) && h in w.objs
    ensures h !in snapshot ==> Unvisited(w, Sweep(w, now, snapshot, blocked), h)
    ensures h in snapshot && !Terminal(w.objs[h]) && w.objs[h].phase.Free? ==>
              AbortedIfExpired(w, Sweep(w, now, snapshot, blocked), h, now, Removable(blocked, h))
  {
    var visit := Reaping(now, blocked);
    ReapingReaps(now, blocked);
    if h !in snapshot {
      VisitsSpare(w, snapshot, visit, now, blocked, h);
    } else if !Terminal(w.objs[h]) && w.objs[h].phase.Free? {
      SweepOutcome(w, snapshot, visit, now, blocked, h);
    }
  }

  lemma SweepOutcome(w: World, snapshot: seq<Handle>, visit: Visit, now: Time, blocked: set<Handle>, h: Handle)
    requires Inv(w) && Snapshot(w, snapshot) && Reaps(visit, now, blocked) && h in snapshot
    requires !Terminal(w.objs[h]) && w.objs[h].phase.Free?
    ensures AbortedIfExpired(w, VisitAll(w, snapshot, visit), h, now, Removable(blocked, h))
  {
    var v := VisitAll(w, snapshot, visit);
    VisitsKeepInv(w, snapshot, visit, now, blocked);
    VisitsReach(w, snapshot, visit, now, blocked, h);
    Ground(w, h);
    if !Terminal(v.objs[h]) { UnfinishedIsRegistered(v, h); }
    VisitedMeansAborted(w, v, h, now, Removable(blocked, h));
  }
}
