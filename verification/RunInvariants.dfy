/** What holds of the broker after every run, whatever its length and interleaving. */
module RunInvariants {
  import opened Lifecycle
  import opened Actions
  import opened ActionLaws
  import opened Registry

  // Sums over all transactions that still exist.

  datatype Measure = Bytes | Slots | RestoreBytes

  function Weight(m: Measure, t: Txn): nat {
    match m
    case Bytes => Share(t.hold)
    case Slots => Slot(t.hold)
    case RestoreBytes => Held(t)
  }

  function Sum(m: Measure, objs: map<Handle, Txn>, n: nat): nat {
    if n == 0 then 0 else
    Sum(m, objs, n - 1) + if n - 1 in objs then Weight(m, objs[n - 1]) else 0
  }

  lemma {:induction false} SumAgrees(m: Measure, objs: map<Handle, Txn>, others: map<Handle, Txn>, n: nat)
    requires forall h | 0 <= h < n :: (h in objs <==> h in others) && (h in objs ==> Weight(m, objs[h]) == Weight(m, others[h]))
    ensures Sum(m, objs, n) == Sum(m, others, n)
  {
    if n > 0 { SumAgrees(m, objs, others, n - 1); }
  }

  lemma {:induction false} SumUpdate(m: Measure, objs: map<Handle, Txn>, n: nat, h: Handle, t: Txn)
    requires h in objs && h < n
    ensures Sum(m, objs[h := t], n) == Sum(m, objs, n) - Weight(m, objs[h]) + Weight(m, t)
  {
    if n - 1 == h {
      SumAgrees(m, objs, objs[h := t], n - 1);
    } else {
      SumUpdate(m, objs, n - 1, h, t);
    }
  }

  lemma {:induction false} SumRemove(m: Measure, objs: map<Handle, Txn>, n: nat, h: Handle)
    requires h in objs && h < n
    ensures Sum(m, objs - {h}, n) == Sum(m, objs, n) - Weight(m, objs[h])
  {
    if n - 1 == h {
      SumAgrees(m, objs, objs - {h}, n - 1);
    } else {
      SumRemove(m, objs, n - 1, h);
    }
  }

  // The invariant.

  type Objects = map<Handle, Txn>

  predicate Lives(objs: Objects, next: Handle) {
    forall h | h in objs :: h < next && TxnInv(objs[h])
  }

  predicate Finds(registry: map<Id, Handle>, id: Id, h: Handle) {
    id in registry && registry[id] == h
  }

  /** A transaction that is unfinished or unclean is the one its ID finds. */
  predicate Findable(objs: Objects, registry: map<Id, Handle>) {
    && (forall id | id in registry :: registry[id] in objs && objs[registry[id]].id == id)
    && (forall h | h in objs :: !Terminal(objs[h]) || HasPendingCleanup(objs[h]) ==> Finds(registry, objs[h].id, h))
  }

  predicate Balanced(objs: Objects, next: Handle, pool: Pool, staging: int) {
    && pool.reserved == Sum(Bytes, objs, next)
    && pool.active == Sum(Slots, objs, next)
    && staging == Sum(RestoreBytes, objs, next)
    && WithinLimits(pool)
  }

  /** The destinations are those of the transactions that own one, each owned once. */
  ghost predicate Exclusive(objs: Objects, destinations: set<string>) {
    && (forall h | h in objs && HasDestination(objs[h].hold) :: objs[h].hold.pub.value.artifact in destinations)
    && (forall a | a in destinations :: exists h | h in objs :: Owns(objs[h].hold, a))
    && (forall h, k | h in objs && k in objs && h != k && HasDestination(objs[h].hold) && HasDestination(objs[k].hold) ::
          objs[h].hold.pub.value.artifact != objs[k].hold.pub.value.artifact)
  }

  /** Every directory on disk is on some transaction's record. */
  ghost predicate NoOrphans(objs: Objects, dirs: set<Path>) {
    forall p | p in dirs :: exists h | h in objs :: Records(objs[h].hold, p)
  }

  predicate Known(objs: Objects, clock: Time, entry: Entry) {
    entry.h in objs && objs[entry.h].id == entry.id && objs[entry.h].retained && entry.completed <= clock
  }

  /** The queue is in order of completion and lists no transaction twice. */
  predicate Queued(objs: Objects, clock: Time, queue: seq<Entry>, doomed: seq<Entry>) {
    && (forall i | 0 <= i < |queue| :: Known(objs, clock, queue[i]))
    && (forall i | 0 <= i < |doomed| :: Known(objs, clock, doomed[i]))
    && (forall i, j | 0 <= i < j < |queue| :: queue[i].completed <= queue[j].completed && queue[i].h != queue[j].h)
  }

  predicate Halted(objs: Objects, stopping: bool) {
    stopping ==> forall h | h in objs && !Terminal(objs[h]) :: objs[h].cancelled
  }

  predicate Clashes(e: Event, f: Event) {
    && e.h == f.h
    && (|| (e.reply.CommitComplete? && f.reply.AbortComplete?)
        || (e.reply.AbortComplete? && f.reply.CommitComplete?)
        || (e.reply.CommitComplete? && f.reply.CommitComplete? && e.reply.payload != f.reply.payload)
        || (e.published && f.published)
        || (e.reply.GpuReply? && f.reply.GpuReply? && e.reply != f.reply)
        || (e.ran && f.ran))
  }

  predicate ConcludedBefore(log: seq<Event>, h: Handle, n: nat)
    requires n <= |log|
  {
    exists i :: 0 <= i < n && log[i].h == h && log[i].ran && log[i].reply.GpuReply?
  }

  /** What an event says of a transaction is true of it. */
  predicate TrueOf(t: Txn, e: Event) {
    Witnesses(t, e.reply) && (e.published ==> t.state == Committed) && (e.ran ==> FinishedRun(t))
  }

  predicate Truthful(objs: Objects, next: Handle, log: seq<Event>) {
    && (forall i | 0 <= i < |log| :: log[i].h < next && (log[i].h in objs ==> TrueOf(objs[log[i].h], log[i])))
    && (forall i, j | 0 <= i < j < |log| :: !Clashes(log[i], log[j]))
    && (forall h | h in objs && FinishedRun(objs[h]) :: ConcludedBefore(log, h, |log|))
    && (forall j | 0 <= j < |log| && log[j].reply.GpuReply? :: ConcludedBefore(log, log[j].h, j + 1))
  }

  ghost predicate Inv(w: World) {
    && Lives(w.objs, w.next)
    && Findable(w.objs, w.registry)
    && Balanced(w.objs, w.next, w.pool, w.staging)
    && Exclusive(w.objs, w.pool.destinations)
    && NoOrphans(w.objs, w.dirs)
    && Queued(w.objs, w.clock, w.queue, w.doomed)
    && Halted(w.objs, w.stopping)
    && Truthful(w.objs, w.next, w.log)
  }

  lemma InitialInv(limits: bool, byteLimit: nat, transactionLimit: nat)
    ensures Inv(Initial(limits, byteLimit, transactionLimit))
  {
  }

  lemma Ground(w: World, h: Handle)
    requires Inv(w) && h in w.objs
    ensures Grounded(View(w, h))
  {
  }

  // One transaction changes from objs[h] to t.

  lemma LivesUpdate(objs: Objects, next: Handle, h: Handle, t: Txn)
    requires Lives(objs, next) && h in objs && TxnInv(t)
    ensures Lives(objs[h := t], next)
  {
  }

  lemma FindableUpdate(objs: Objects, registry: map<Id, Handle>, h: Handle, t: Txn, erase: bool)
    requires Findable(objs, registry) && h in objs && Evolves(objs[h], t)
    requires erase ==> Terminal(t) && !HasPendingCleanup(t)
    ensures Findable(objs[h := t], if erase then EraseTransaction(registry, t.id, h) else registry)
  {
  }

  lemma BalancedUpdate(objs: Objects, next: Handle, b: Books, d: Books, h: Handle, t: Txn, staging: int)
    requires Lives(objs, next) && Balanced(objs, next, b.pool, staging) && h in objs
    requires b.hold == objs[h].hold && d.hold == t.hold && Frame(b, d) && WithinLimits(d.pool)
    ensures Balanced(objs[h := t], next, d.pool, staging + Held(t) - Held(objs[h]))
  {
    forall m: Measure { SumUpdate(m, objs, next, h, t); }
  }

  lemma ExclusiveUpdate(objs: Objects, b: Books, d: Books, h: Handle, t: Txn)
    requires Exclusive(objs, b.pool.destinations) && h in objs
    requires b.hold == objs[h].hold && d.hold == t.hold && Frame(b, d) && Sound(d)
    ensures Exclusive(objs[h := t], d.pool.destinations)
  {
    var us := objs[h := t];
    forall a | a in d.pool.destinations ensures exists k | k in us :: Owns(us[k].hold, a) {
      if Owns(t.hold, a) {
        assert Owns(us[h].hold, a);
      } else {
        assert a in Others(d).destinations;
        assert a in Others(b).destinations;
        var k :| k in objs && Owns(objs[k].hold, a);
        assert Owns(us[k].hold, a);
      }
    }
    forall k | k in objs && k != h && HasDestination(objs[k].hold)
      ensures objs[k].hold.pub.value.artifact in Others(d).destinations
    {
      assert objs[k].hold.pub.value.artifact in Others(b).destinations;
    }
  }

  lemma NoOrphansUpdate(objs: Objects, b: Books, d: Books, h: Handle, t: Txn)
    requires NoOrphans(objs, b.dirs) && h in objs
    requires b.hold == objs[h].hold && d.hold == t.hold && Frame(b, d)
    ensures NoOrphans(objs[h := t], d.dirs)
  {
    var us := objs[h := t];
    forall p | p in d.dirs ensures exists k | k in us :: Records(us[k].hold, p) {
      if Records(t.hold, p) {
        assert Records(us[h].hold, p);
      } else {
        assert p in Others(d).dirs;
        assert p in Others(b).dirs;
        var k :| k in objs && Records(objs[k].hold, p);
        assert Records(us[k].hold, p);
      }
    }
  }

  lemma QueuedUpdate(objs: Objects, clock: Time, queue: seq<Entry>, doomed: seq<Entry>, h: Handle, t: Txn)
    requires Queued(objs, clock, queue, doomed) && h in objs && Evolves(objs[h], t)
    ensures Queued(objs[h := t], clock, queue, doomed)
  {
  }

  lemma HaltedUpdate(objs: Objects, stopping: bool, h: Handle, t: Txn)
    requires Halted(objs, stopping) && h in objs && Evolves(objs[h], t)
    ensures Halted(objs[h := t], stopping)
  {
  }

  lemma {:induction false} ConcludedExtends(log: seq<Event>, more: seq<Event>, h: Handle, n: nat)
    requires n <= |log| && ConcludedBefore(log, h, n)
    ensures ConcludedBefore(log + more, h, n)
  {
    var i :| 0 <= i < n && log[i].h == h && log[i].ran && log[i].reply.GpuReply?;
    assert (log + more)[i] == log[i];
  }

  lemma TruthfulUpdate(objs: Objects, next: Handle, log: seq<Event>, h: Handle, e: Effect)
    requires Truthful(objs, next, log) && Lives(objs, next) && h in objs && Evolves(objs[h], e.c.t) && Tells(objs[h], e)
    ensures Truthful(objs[h := e.c.t], next, log + [Event(h, e.reply, e.published, e.ran)])
    ensures e.reply.Silent? ==> Truthful(objs[h := e.c.t], next, log)
  {
    var news := Event(h, e.reply, e.published, e.ran);
    var us := objs[h := e.c.t];
    var log' := log + [news];
    assert log'[|log|] == news;
    forall i | 0 <= i < |log| && log[i].h == h ensures TrueOf(e.c.t, log[i]) && !Clashes(log[i], news) {
    }
    assert TrueOf(e.c.t, news);
    forall k | k in us && FinishedRun(us[k]) ensures ConcludedBefore(log', k, |log'|) {
      if k != h || !e.ran { ConcludedExtends(log, [news], k, |log|); }
    }
    forall j | 0 <= j < |log'| && log'[j].reply.GpuReply? ensures ConcludedBefore(log', log'[j].h, j + 1) {
      if j < |log| { ConcludedExtends(log, [news], log[j].h, j + 1); }
    }
  }

  // Steps.

  lemma SettledHoldings(w: World, h: Handle, e: Effect)
    requires Inv(w) && h in w.objs && EffectOk(View(w, h), e)
    ensures var us := w.objs[h := e.c.t];
            && Balanced(us, w.next, e.c.pool, w.staging + e.staging)
            && Exclusive(us, e.c.pool.destinations) && NoOrphans(us, e.c.dirs)
  {
    var b, d := Accounts(View(w, h)), Accounts(e.c);
    BalancedUpdate(w.objs, w.next, b, d, h, e.c.t, w.staging);
    ExclusiveUpdate(w.objs, b, d, h, e.c.t);
    NoOrphansUpdate(w.objs, b, d, h, e.c.t);
  }

  lemma SettledRecords(w: World, h: Handle, e: Effect)
    requires Inv(w) && h in w.objs && EffectOk(View(w, h), e)
    ensures var us := w.objs[h := e.c.t];
            && Lives(us, w.next) && Queued(us, w.clock, w.queue, w.doomed) && Halted(us, w.stopping)
            && Findable(us, if e.erase then EraseTransaction(w.registry, w.objs[h].id, h) else w.registry)
            && Truthful(us, w.next, Noted(w.log, h, e))
  {
    LivesUpdate(w.objs, w.next, h, e.c.t);
    FindableUpdate(w.objs, w.registry, h, e.c.t, e.erase);
    QueuedUpdate(w.objs, w.clock, w.queue, w.doomed, h, e.c.t);
    HaltedUpdate(w.objs, w.stopping, h, e.c.t);
    TruthfulUpdate(w.objs, w.next, w.log, h, e);
  }

  lemma SettledInv(w: World, h: Handle, e: Effect)
    requires Inv(w) && h in w.objs && EffectOk(View(w, h), e)
    ensures Inv(Settled(w, h, e))
  {
    SettledHoldings(w, h, e);
    SettledRecords(w, h, e);
  }

  /** `us` has the transactions of `objs`, at most marked or cancelled, and perhaps a new one with nothing in hand. */
  predicate Enlarges(objs: Objects, us: Objects, next: Handle) {
    && (forall h | h in objs :: h in us && us[h] == objs[h].(cancelled := us[h].cancelled, retained := us[h].retained))
    && (forall h | h in us && h !in objs :: h >= next && us[h] == Fresh(us[h].id))
  }

  lemma ExclusiveEnlarged(objs: Objects, us: Objects, next: Handle, destinations: set<string>)
    requires Exclusive(objs, destinations) && Enlarges(objs, us, next)
    ensures Exclusive(us, destinations)
  {
    forall a | a in destinations ensures exists k | k in us :: Owns(us[k].hold, a) {
      var k :| k in objs && Owns(objs[k].hold, a);
      assert Owns(us[k].hold, a);
    }
  }

  lemma NoOrphansEnlarged(objs: Objects, us: Objects, next: Handle, dirs: set<Path>)
    requires NoOrphans(objs, dirs) && Enlarges(objs, us, next)
    ensures NoOrphans(us, dirs)
  {
    forall p | p in dirs ensures exists k | k in us :: Records(us[k].hold, p) {
      var k :| k in objs && Records(objs[k].hold, p);
      assert Records(us[k].hold, p);
    }
  }

  lemma {:induction false} SumEnlarged(m: Measure, objs: Objects, us: Objects, next: Handle, n: nat)
    requires Lives(objs, next) && Enlarges(objs, us, next)
    ensures Sum(m, us, n) == Sum(m, objs, n)
  {
    if n > 0 { SumEnlarged(m, objs, us, next, n - 1); }
  }

  lemma TruthfulEnlarged(objs: Objects, us: Objects, next: Handle, later: Handle, log: seq<Event>)
    requires Truthful(objs, next, log) && Enlarges(objs, us, next) && later >= next
    ensures Truthful(us, later, log)
  {
    forall i | 0 <= i < |log| ensures log[i].h in us ==> TrueOf(us[log[i].h], log[i]) {
      if log[i].h in us { assert TrueOf(objs[log[i].h], log[i]); }
    }
  }

  /** The parts of the invariant that enlarging the population leaves alone. */
  lemma EnlargedInv(w: World, us: Objects, later: Handle)
    requires Inv(w) && Enlarges(w.objs, us, w.next) && later >= w.next
    requires Lives(us, later)
    ensures Balanced(us, later, w.pool, w.staging)
    ensures Exclusive(us, w.pool.destinations) && NoOrphans(us, w.dirs) && Truthful(us, later, w.log)
  {
    forall m: Measure ensures Sum(m, us, later) == Sum(m, w.objs, w.next) {
      SumEnlarged(m, w.objs, us, w.next, later);
      SumBeyond(m, w.objs, w.next, later);
    }
    ExclusiveEnlarged(w.objs, us, w.next, w.pool.destinations);
    NoOrphansEnlarged(w.objs, us, w.next, w.dirs);
    TruthfulEnlarged(w.objs, us, w.next, later, w.log);
  }

  lemma {:induction false} SumBeyond(m: Measure, objs: Objects, next: Handle, n: nat)
    requires Lives(objs, next) && n >= next
    ensures Sum(m, objs, n) == Sum(m, objs, next)
  {
    if n > next { SumBeyond(m, objs, next, n - 1); }
  }

  lemma QueuedAppend(objs: Objects, clock: Time, queue: seq<Entry>, doomed: seq<Entry>, h: Handle)
    requires Queued(objs, clock, queue, doomed) && h in objs && !objs[h].retained
    ensures Queued(objs[h := objs[h].(retained := true)], clock, queue + [Entry(objs[h].id, h, clock)], doomed)
  {
  }

  lemma RetainedTxnInv(t: Txn)
    requires TxnInv(t) && CanRetainTerminal(t)
    ensures TxnInv(t.(retained := true)) && Evolves(t, t.(retained := true))
  {
  }

  lemma RetainedInv(w: World, h: Handle)
    requires Inv(w) && h in w.objs
    ensures Inv(RetainTerminal(w, h))
  {
    if CanRetainTerminal(w.objs[h]) {
      var u := w.objs[h].(retained := true);
      RetainedTxnInv(w.objs[h]);
      LivesUpdate(w.objs, w.next, h, u);
      EnlargedInv(w, w.objs[h := u], w.next);
      FindableUpdate(w.objs, w.registry, h, u, false);
      HaltedUpdate(w.objs, w.stopping, h, u);
      QueuedAppend(w.objs, w.clock, w.queue, w.doomed, h);
    }
  }

  lemma FreshInv(id: Id)
    ensures TxnInv(Fresh(id))
  {
  }

  lemma FindableCreated(objs: Objects, registry: map<Id, Handle>, h: Handle, id: Id)
    requires Findable(objs, registry) && h !in objs && id !in registry
    ensures Findable(objs[h := Fresh(id)], registry[id := h])
  {
  }

  lemma LivesCreated(objs: Objects, next: Handle, id: Id)
    requires Lives(objs, next)
    ensures Lives(objs[next := Fresh(id)], next + 1) && Enlarges(objs, objs[next := Fresh(id)], next)
  {
    FreshInv(id);
  }

  lemma QueuedCreated(objs: Objects, next: Handle, clock: Time, queue: seq<Entry>, doomed: seq<Entry>, id: Id)
    requires Queued(objs, clock, queue, doomed) && next !in objs
    ensures Queued(objs[next := Fresh(id)], clock, queue, doomed)
  {
  }

  lemma CreatedInv(w: World, id: Id)
    requires Inv(w)
    ensures Inv(CreateTransaction(w, id))
  {
    if !w.stopping && id !in w.registry {
      LivesCreated(w.objs, w.next, id);
      QueuedCreated(w.objs, w.next, w.clock, w.queue, w.doomed, id);
      FindableCreated(w.objs, w.registry, w.next, id);
      EnlargedInv(w, w.objs[w.next := Fresh(id)], w.next + 1);
    }
  }

  lemma CancelledInv(t: Txn)
    requires TxnInv(t)
    ensures TxnInv(t.(cancelled := true))
  {
  }

  lemma FindableCancelled(objs: Objects, us: Objects, registry: map<Id, Handle>)
    requires Findable(objs, registry) && us.Keys == objs.Keys
    requires forall h | h in objs :: us[h] == objs[h] || us[h] == objs[h].(cancelled := true)
    ensures Findable(us, registry)
  {
  }

  lemma QueuedCancelled(objs: Objects, us: Objects, clock: Time, queue: seq<Entry>, doomed: seq<Entry>)
    requires Queued(objs, clock, queue, doomed) && us.Keys == objs.Keys
    requires forall h | h in objs :: us[h] == objs[h] || us[h] == objs[h].(cancelled := true)
    ensures Queued(us, clock, queue, doomed)
  {
  }

  lemma LivesCancelled(objs: Objects, us: Objects, next: Handle)
    requires Lives(objs, next) && us.Keys == objs.Keys
    requires forall h | h in objs :: us[h] == objs[h] || us[h] == objs[h].(cancelled := true)
    ensures Lives(us, next)
  {
    forall h | h in us ensures TxnInv(us[h]) { CancelledInv(objs[h]); }
  }

  lemma HaltedStopped(w: World)
    requires Findable(w.objs, w.registry)
    ensures Halted(StopAll(w).objs, true)
  {
  }

  lemma StoppedEnlarges(w: World)
    ensures Enlarges(w.objs, StopAll(w).objs, w.next)
  {
  }

  lemma StoppedInv(w: World)
    requires Inv(w)
    ensures Inv(StopAll(w))
  {
    var us := StopAll(w).objs;
    StoppedEnlarges(w);
    LivesCancelled(w.objs, us, w.next);
    FindableCancelled(w.objs, us, w.registry);
    QueuedCancelled(w.objs, us, w.clock, w.queue, w.doomed);
    HaltedStopped(w);
    EnlargedInv(w, us, w.next);
  }

  lemma PoppedInv(w: World, now: Time)
    requires Inv(w)
    ensures Inv(Pop(w, now))
  {
  }

  lemma ErasedInv(w: World, at: nat)
    requires Inv(w)
    ensures Inv(EraseEntry(w, at))
  {
  }

  /** A transaction nobody finds is finished and clean, so only its destination comes back with it. */
  lemma DestroyedShape(w: World, h: Handle)
    requires Inv(w) && Unheld(w, h)
    ensures var t := w.objs[h];
            && Terminal(t) && !HasPendingCleanup(t) && Share(t.hold) == 0 && Slot(t.hold) == 0 && Held(t) == 0
            && Drop(w, h).dirs == w.dirs
            && Drop(w, h).pool == w.pool.(destinations :=
                 if HasDestination(t.hold) then w.pool.destinations - {t.hold.pub.value.artifact} else w.pool.destinations)
  {
  }

  lemma ExclusiveRemoved(objs: Objects, destinations: set<string>, h: Handle)
    requires Exclusive(objs, destinations) && h in objs
    ensures Exclusive(objs - {h}, if HasDestination(objs[h].hold) then destinations - {objs[h].hold.pub.value.artifact} else destinations)
  {
    var us := objs - {h};
    var left := if HasDestination(objs[h].hold) then destinations - {objs[h].hold.pub.value.artifact} else destinations;
    forall a | a in left ensures exists k | k in us :: Owns(us[k].hold, a) {
      var k :| k in objs && Owns(objs[k].hold, a);
      assert Owns(us[k].hold, a);
    }
    forall k | k in us && HasDestination(us[k].hold) ensures us[k].hold.pub.value.artifact in left {
      assert us[k] == objs[k] && objs[k].hold.pub.value.artifact in destinations;
    }
  }

  lemma NoOrphansRemoved(objs: Objects, dirs: set<Path>, h: Handle)
    requires NoOrphans(objs, dirs) && h in objs && objs[h].hold.dir == NoPath
    ensures NoOrphans(objs - {h}, dirs)
  {
    var us := objs - {h};
    forall p | p in dirs ensures exists k | k in us :: Records(us[k].hold, p) {
      var k :| k in objs && Records(objs[k].hold, p);
      assert Records(us[k].hold, p);
    }
  }

  lemma FindableRemoved(objs: Objects, registry: map<Id, Handle>, h: Handle)
    requires Findable(objs, registry) && h in objs && !Finds(registry, objs[h].id, h)
    ensures Findable(objs - {h}, registry)
  {
  }

  lemma QueuedRemoved(objs: Objects, clock: Time, queue: seq<Entry>, doomed: seq<Entry>, h: Handle)
    requires Queued(objs, clock, queue, doomed) && !Listed(queue, h) && !Listed(doomed, h)
    ensures Queued(objs - {h}, clock, queue, doomed)
  {
  }

  lemma TruthfulRemoved(objs: Objects, next: Handle, log: seq<Event>, h: Handle)
    requires Truthful(objs, next, log)
    ensures Truthful(objs - {h}, next, log)
  {
  }

  lemma DroppedInv(w: World, h: Handle)
    requires Inv(w)
    ensures Inv(Drop(w, h))
  {
    if Unheld(w, h) {
      DestroyedShape(w, h);
      FindableRemoved(w.objs, w.registry, h);
      QueuedRemoved(w.objs, w.clock, w.queue, w.doomed, h);
      TruthfulRemoved(w.objs, w.next, w.log, h);
      forall m: Measure { SumRemove(m, w.objs, w.next, h); }
      ExclusiveRemoved(w.objs, w.pool.destinations, h);
      NoOrphansRemoved(w.objs, w.dirs, h);
    }
  }

  lemma ActedInv(w: World, h: Handle, action: Action)
    requires Inv(w)
    ensures Inv(Acted(w, h, action))
  {
    if h in w.objs {
      var e := Act(View(w, h), w.limits, w.staging, action);
      Ground(w, h);
      ActLaw(View(w, h), w.limits, w.staging, action);
      SettledInv(w, h, e);
      RetainedInv(Settled(w, h, e), h);
    }
  }

  lemma NextInv(w: World, s: Step)
    requires Inv(w)
    ensures Inv(Next(w, s))
  {
    match s
    case Create(id) => CreatedInv(w, id);
    case On(h, action) => ActedInv(w, h, action);
    case Shutdown => StoppedInv(w);
    case Tick(elapsed) =>
    case PopTerminal(now) => PoppedInv(w, now);
    case EraseDoomed(at) => ErasedInv(w, at);
    case Destroy(h) => DroppedInv(w, h);
  }

  lemma {:induction false} RunInv(w: World, steps: seq<Step>)
    requires Inv(w)
    ensures Inv(Run(w, steps))
    decreases |steps|
  {
    if steps != [] {
      RunInv(w, steps[..|steps| - 1]);
      NextInv(Run(w, steps[..|steps| - 1]), steps[|steps| - 1]);
    }
  }
}
