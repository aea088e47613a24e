/**
 The broker in the form of broker.cpp: a registry, a queue and a byte counter
 updated in place. Every method is tied to steps of the run model, so whatever
 holds of every run holds of the objects.
 */
module Brokers {
  import L = Lifecycle
  import A = Actions
  import R = Registry
  import H = Handlers
  import I = RunInvariants
  import T = RunTheorems
  import O = RequestOutcomes
  import opened Lifecycle
  import opened Transactions

  /** One step of the run model. It keeps the invariant, and whatever is reached by it is the end of a run. */
  ghost predicate Steps(w: R.World, v: R.World, s: R.Step) {
    v == R.Next(w, s) && Lawful(w, v)
  }

  /** The same for several steps. */
  ghost predicate Runs(w: R.World, v: R.World, steps: seq<R.Step>) {
    v == R.Run(w, steps) && Lawful(w, v)
  }

  ghost predicate Lawful(w: R.World, v: R.World) {
    (I.Inv(w) ==> I.Inv(v)) && (T.Reachable(w) ==> T.Reachable(v))
  }

  /** From a state in which every theorem about runs holds, any run leads to one in which they all hold. */
  lemma RunsAreLawful(w: R.World, steps: seq<R.Step>)
    ensures Lawful(w, R.Run(w, steps))
  {
    if I.Inv(w) { I.RunInv(w, steps); }
    if T.Reachable(w) {
      var limits: bool, byteLimit: nat, transactionLimit: nat, before: seq<R.Step> :|
        w == R.Run(R.Initial(limits, byteLimit, transactionLimit), before);
      RunsOn(R.Initial(limits, byteLimit, transactionLimit), before, steps);
    }
  }

  lemma {:induction false} RunsOn(w: R.World, before: seq<R.Step>, steps: seq<R.Step>)
    ensures R.Run(R.Run(w, before), steps) == R.Run(w, before + steps)
    decreases |steps|
  {
    if steps == [] {
      assert before + steps == before;
    } else {
      var front := steps[..|steps| - 1];
      RunsOn(w, before, front);
      assert (before + steps)[..|before + steps| - 1] == before + front;
    }
  }

  lemma StepIsLawful(w: R.World, s: R.Step)
    ensures Steps(w, R.Next(w, s), s)
  {
    RunsAreLawful(w, [s]);
    assert [s][..|[s]| - 1] == [] && R.Run(w, [s][..|[s]| - 1]) == w;
  }

  /** An enabled action that offers nothing to the terminal queue is one step once it has settled. */
  lemma SettledIsAStep(w: R.World, h: R.Handle, action: A.Action, e: A.Effect)
    requires h in w.objs && A.Enabled(w.objs[h], action) && e == A.Perform(R.View(w, h), w.limits, w.staging, action) && !e.retain
    ensures Steps(w, R.Settled(w, h, e), R.On(h, action))
  {
    StepIsLawful(w, R.On(h, action));
  }

  lemma CommitIsTold(w: R.World, h: R.Handle, now: Time, present: bool, removable: bool)
    requires h in w.objs && w.objs[h].phase.Free?
    ensures I.Inv(w) ==>
              var e := A.CommitLocked(R.View(w, h), now, present, removable);
              O.CommitMeans(R.View(w, h), now, present, removable, e.reply, e.c)
  {
    if I.Inv(w) {
      I.Ground(w, h);
      O.CommitLockedOutcome(R.View(w, h), now, present, removable);
    }
  }

  lemma AbortIsTold(w: R.World, h: R.Handle, now: Time, removable: bool)
    requires h in w.objs && w.objs[h].phase.Free?
    ensures I.Inv(w) ==>
              var e := A.AbortLocked(R.View(w, h), now, removable);
              O.AbortAnswers(w.objs[h], now, removable, e.reply) && O.AbortLeaves(R.View(w, h), now, removable, e.c)
  {
    if I.Inv(w) {
      I.Ground(w, h);
      O.AbortLockedOutcome(R.View(w, h), now, removable);
    }
  }

  lemma GpuIsTold(w: R.World, h: R.Handle, request: GpuRequest, now: Time, valid: bool)
    requires h in w.objs && w.objs[h].phase.Free?
    ensures I.Inv(w) ==>
              var e := A.GpuLocked(R.View(w, h), request, now, valid);
              O.GpuMeans(R.View(w, h), request, now, valid, e.reply, e.c)
  {
    if I.Inv(w) {
      I.Ground(w, h);
      O.GpuLockedOutcome(R.View(w, h), request, now, valid);
    }
  }

  datatype TerminalTransaction = TerminalTransaction(id: Id, transaction: Transaction, completed: Time)

  class Broker {
    const limited: bool
    const area: StagingArea
    const pool: TransactionResources

    var transactions: map<Id, Transaction>
    var terminalTransactions: seq<TerminalTransaction>
    var reservedStagingBytes: int
    var stopping: bool
    var created: nat
    var clock: Time

    ghost var objs: map<nat, Transaction>
    ghost var doomed: seq<R.Entry>
    ghost var log: seq<R.Event>

    constructor (limits: bool, bytes: nat, slots: nat)
      ensures Valid() && View() == R.Initial(limits, bytes, slots) && T.Reachable(View())
      ensures fresh(pool) && fresh(area)
    {
      var accounts := new TransactionResources(bytes, slots);
      var disk := new StagingArea();
      pool, area := accounts, disk;
      limited := limits;
      transactions, terminalTransactions, reservedStagingBytes := map[], [], 0;
      stopping, created, clock := false, 0, 0;
      objs, doomed, log := map[], [], [];
      new;
      assert View() == R.Run(R.Initial(limits, bytes, slots), []);
    }

    ghost predicate Knows(t: Transaction)
      reads this`objs
    {
      t.handle in objs && objs[t.handle] == t
    }

    ghost predicate Valid()
      reads this`objs, this`created, this`transactions, this`terminalTransactions
    {
      && (forall h | h in objs :: h < created && objs[h].handle == h && objs[h].pool == pool && objs[h].area == area)
      && (forall id | id in transactions :: Knows(transactions[id]) && transactions[id].id == id)
      && (forall i | 0 <= i < |terminalTransactions| :: Knows(terminalTransactions[i].transaction))
    }

    ghost function Population(): map<nat, Txn>
      reads this`objs, objs.Values
    {
      map h | h in objs :: objs[h].Fields()
    }

    ghost function Names(): map<Id, nat>
      reads this`transactions
    {
      map id | id in transactions :: transactions[id].handle
    }

    ghost function Queue(): seq<R.Entry>
      reads this`terminalTransactions
    {
      Listing(terminalTransactions)
    }

    static ghost function Listing(entries: seq<TerminalTransaction>): (r: seq<R.Entry>)
      ensures |r| == |entries|
    {
      seq(|entries|, i requires 0 <= i < |entries| => R.Entry(entries[i].id, entries[i].transaction.handle, entries[i].completed))
    }

    ghost function View(): R.World
      reads this, objs.Values, pool, area
    {
      R.World(limited, Population(), created, Names(), Queue(), doomed, stopping, reservedStagingBytes,
              pool.View(), area.dirs, clock, log)
    }

    /** Nobody but `t` has changed. */
    twostate lemma OneChanged(t: Transaction)
      requires old(Valid()) && old(Knows(t)) && objs == old(objs)
      requires forall h | h in objs && h != t.handle :: objs[h].Fields() == old(objs[h].Fields())
      ensures Population() == old(Population())[t.handle := t.Fields()]
    {
    }

    /** Nothing but `t`, the accounts and the disk has changed. */
    twostate lemma OnlyThis(t: Transaction)
      requires old(Valid()) && old(Knows(t)) && objs == old(objs) && transactions == old(transactions)
      requires terminalTransactions == old(terminalTransactions) && created == old(created) && doomed == old(doomed)
      requires stopping == old(stopping) && reservedStagingBytes == old(reservedStagingBytes) && clock == old(clock) && log == old(log)
      requires forall h | h in objs && h != t.handle :: objs[h].Fields() == old(objs[h].Fields())
      ensures View() == old(View()).(objs := old(Population())[t.handle := t.Fields()], pool := pool.View(), dirs := area.dirs)
    {
      OneChanged(t);
    }

    method Register(id: Id) returns (t: Transaction)
      requires Valid() && id !in transactions
      modifies this`transactions, this`objs, this`created
      ensures Valid() && fresh(t) && t.handle == old(created) && transactions == old(transactions)[id := t] && Knows(t)
      ensures created == old(created) + 1 && Population() == old(Population())[t.handle := Fresh(id)]
    {
      t := new Transaction(id, created, area, pool);
      objs := objs[created := t];
      transactions := transactions[id := t];
      created := created + 1;
    }

    /** The registered transaction, or a new one; nothing once the broker is stopping. */
    method CreateOrGetTransaction(id: Id) returns (found: Option<Transaction>)
      requires Valid()
      modifies this`transactions, this`objs, this`created
      ensures Valid() && Steps(old(View()), View(), R.Create(id))
      ensures found == if stopping then None else if id in transactions then Some(transactions[id]) else None
      ensures found.Some? <==> !stopping
    {
      StepIsLawful(View(), R.Create(id));
      found := None;
      if !stopping {
        EnsureRegistered(id);
        found := Some(transactions[id]);
      }
    }

    method EnsureRegistered(id: Id)
      requires Valid() && !stopping
      modifies this`transactions, this`objs, this`created
      ensures Valid() && View() == R.CreateTransaction(old(View()), id) && id in transactions
    {
      if id !in transactions {
        var t := Register(id);
        assert Names() == old(Names())[id := t.handle];
      }
    }

    method FindTransaction(id: Id) returns (found: Option<Transaction>)
      requires Valid()
      ensures found == if id in transactions then Some(transactions[id]) else None
      ensures found.Some? ==> Knows(found.value)
    {
      if id in transactions { return Some(transactions[id]); }
      return None;
    }

    /** A stale holder's call leaves the entry of a later transaction alone. */
    method EraseTransaction(id: Id, t: Transaction)
      requires Valid() && Knows(t)
      modifies this`transactions
      ensures Valid() && View() == old(View()).(registry := R.EraseTransaction(old(Names()), id, t.handle))
    {
      if id in transactions && transactions[id] == t {
        transactions := transactions - {id};
      }
      assert Names() == R.EraseTransaction(old(Names()), id, t.handle) && Population() == old(Population());
    }

    method RetainTerminalTransactionLocked(t: Transaction)
      requires Valid() && Knows(t)
      modifies this`terminalTransactions, t
      ensures Valid() && View() == R.RetainTerminal(old(View()), t.handle)
    {
      var retained := t.RetainTerminal();
      OnlyThis(t);
      if retained {
        Enqueue(t);
      } else {
        assert old(Population())[t.handle := t.Fields()] == old(Population());
      }
    }

    method Enqueue(t: Transaction)
      requires Valid() && Knows(t)
      modifies this`terminalTransactions
      ensures Valid() && View() == old(View()).(queue := old(Queue()) + [R.Entry(t.id, t.handle, clock)])
    {
      terminalTransactions := terminalTransactions + [TerminalTransaction(t.id, t, clock)];
      assert Queue() == old(Queue()) + [R.Entry(t.id, t.handle, clock)];
    }

    /** After a request: the transaction is offered to the queue unless its mutex is taken. */
    method RetainTerminalTransaction(t: Transaction)
      requires Valid() && Knows(t)
      modifies this`terminalTransactions, t
      ensures Valid() && Steps(old(View()), View(), R.On(t.handle, A.Retain))
    {
      RetainIsAStep(View(), t.handle);
      if t.phase.Free? { RetainTerminalTransactionLocked(t); }
    }

    method ReserveStaging(bytes: nat, available: Option<nat>) returns (reserved: bool)
      requires Valid()
      modifies this`reservedStagingBytes
      ensures Valid() && reserved == A.SpaceFor(bytes + old(reservedStagingBytes), available)
      ensures View() == old(View()).(staging := old(reservedStagingBytes) + if reserved then bytes else 0)
    {
      if available.None? || bytes + reservedStagingBytes > available.value { return false; }
      reservedStagingBytes := reservedStagingBytes + bytes;
      assert Population() == old(Population());
      return true;
    }

    method ReleaseStaging(bytes: nat)
      requires Valid()
      modifies this`reservedStagingBytes
      ensures Valid() && View() == old(View()).(staging := old(reservedStagingBytes) - bytes)
    {
      reservedStagingBytes := reservedStagingBytes - bytes;
      assert Population() == old(Population());
    }

    /** Stale and surplus entries leave from the front. */
    method TakeOverdue(now: Time) returns (expired: seq<TerminalTransaction>)
      requires Valid()
      modifies this`terminalTransactions
      ensures Valid() && old(terminalTransactions) == expired + terminalTransactions && View() == old(View()).(queue := Queue())
      ensures forall k | 0 <= k < |expired| :: Knows(expired[k].transaction)
      ensures |expired| == R.OverdueCount(old(Queue()), now)
    {
      var rest;
      expired, rest := SplitOverdue(terminalTransactions, now);
      assert forall i | 0 <= i < |rest| :: rest[i] == terminalTransactions[|expired| + i];
      assert forall k | 0 <= k < |expired| :: expired[k] == terminalTransactions[k];
      KeepInQueue(rest);
    }

    method KeepInQueue(rest: seq<TerminalTransaction>)
      requires Valid() && forall i | 0 <= i < |rest| :: Knows(rest[i].transaction)
      modifies this`terminalTransactions
      ensures Valid() && terminalTransactions == rest && View() == old(View()).(queue := Queue())
    {
      terminalTransactions := rest;
      assert Population() == old(Population());
    }

    static method SplitOverdue(entries: seq<TerminalTransaction>, now: Time) returns (expired: seq<TerminalTransaction>, rest: seq<TerminalTransaction>)
      ensures entries == expired + rest && |expired| == R.OverdueCount(Listing(entries), now)
    {
      expired, rest := [], entries;
      while |rest| > 0 && (now >= rest[0].completed + R.RETENTION || |rest| > R.MAX_RETAINED)
        invariant expired + rest == entries
        invariant R.OverdueCount(Listing(entries), now) == |expired| + R.OverdueCount(Listing(rest), now)
        decreases |rest|
      {
        OverdueFirst(rest, now);
        expired, rest := expired + [rest[0]], rest[1..];
      }
    }

    method EraseExpired(item: TerminalTransaction, ghost w: R.World)
      requires Valid() && Knows(item.transaction) && View() == w && doomed != []
      requires doomed[0] == R.Entry(item.id, item.transaction.handle, item.completed)
      modifies this`transactions, this`doomed
      ensures Valid() && doomed == old(doomed)[1..] && View() == R.EraseEntry(w, 0)
    {
      EraseTransaction(item.id, item.transaction);
      doomed := doomed[1..];
    }

    method PopOverdue(now: Time) returns (expired: seq<TerminalTransaction>)
      requires Valid() && doomed == []
      modifies this`terminalTransactions, this`doomed
      ensures Valid() && View() == R.Pop(old(View()), now) && doomed == Listing(expired)
      ensures forall k | 0 <= k < |expired| :: Knows(expired[k].transaction)
    {
      expired := TakeOverdue(now);
      TakenIsPopped(old(terminalTransactions), expired, terminalTransactions);
      ghost var v := View();
      doomed := Listing(expired);
      assert doomed == old(doomed) + old(Queue())[..|expired|];
      assert View() == v.(doomed := doomed);
    }

    method EraseAll(expired: seq<TerminalTransaction>, ghost w: R.World)
      requires Valid() && View() == w && doomed == Listing(expired) && forall k | 0 <= k < |expired| :: Knows(expired[k].transaction)
      modifies this`transactions, this`doomed
      ensures Valid() && View() == Erased(w, |expired|) && doomed == []
    {
      for i := 0 to |expired|
        invariant Valid() && View() == Erased(w, i)
        invariant doomed == Listing(expired)[i..]
      {
        EraseExpired(expired[i], Erased(w, i));
      }
    }

    /** Each entry taken from the queue loses its registry entry, if that is still its own. */
    method ReapTerminalTransactions(now: Time)
      requires Valid() && doomed == []
      modifies this`terminalTransactions, this`transactions, this`doomed
      ensures Valid() && doomed == [] && Runs(old(View()), View(), ErasingSteps(now, R.OverdueCount(old(Queue()), now)))
    {
      var expired := PopOverdue(now);
      EraseAll(expired, R.Pop(old(View()), now));
      ErasingIsARun(old(View()), now, |expired|);
      RunsAreLawful(old(View()), ErasingSteps(now, |expired|));
    }

    // Acting on one transaction whose mutex is held.

    /** Concludes an action: `w` is the world before it, and the transaction has been changed already. */
    ghost method Note(t: Transaction, e: A.Effect, w: R.World)
      requires Valid() && Knows(t) && t.handle in w.objs && Plain(e)
      requires View() == w.(objs := w.objs[t.handle := e.c.t], pool := e.c.pool, dirs := e.c.dirs)
      modifies this`log
      ensures Valid() && View() == R.Settled(w, t.handle, e)
    {
      log := R.Noted(log, t.handle, e);
    }

    method Commit(t: Transaction, now: Time, present: bool, removable: bool) returns (reply: A.Reply)
      requires Valid() && Knows(t) && t.phase.Free?
      modifies this`log, t, pool, area
      ensures Valid() && Steps(old(View()), View(), R.On(t.handle, A.Commit(now, present, removable)))
      ensures reply == A.CommitLocked(old(t.View()), now, present, removable).reply
      ensures old(I.Inv(View())) ==> O.CommitMeans(old(t.View()), now, present, removable, reply, t.View())
    {
      CommitIsTold(View(), t.handle, now, present, removable);
      CommitIsPlain(t.View(), now, present, removable);
      reply := SettleCommit(t, now, present, removable);
      SettledIsAStep(old(View()), t.handle, A.Commit(now, present, removable), A.CommitLocked(old(t.View()), now, present, removable));
    }

    method SettleCommit(t: Transaction, now: Time, present: bool, removable: bool) returns (reply: A.Reply)
      requires Valid() && Knows(t)
      modifies this`log, t, pool, area
      ensures Valid() && View() == R.Settled(old(View()), t.handle, A.CommitLocked(old(t.View()), now, present, removable))
      ensures t.View() == A.CommitLocked(old(t.View()), now, present, removable).c
      ensures reply == A.CommitLocked(old(t.View()), now, present, removable).reply
    {
      reply := H.Commit(t, now, present, removable);
      CommitIsPlain(old(t.View()), now, present, removable);
      OnlyThis(t);
      Note(t, A.CommitLocked(old(t.View()), now, present, removable), old(View()));
    }

    method CommitInspected(t: Transaction, inventory: A.Result<nat>) returns (reply: A.Reply)
      requires Valid() && Knows(t) && t.phase.CommitInspecting?
      modifies this`log, t, pool
      ensures Valid() && Steps(old(View()), View(), R.On(t.handle, A.CommitInspected(inventory)))
      ensures reply == A.CommitInspect(old(t.View()), inventory).reply
    {
      reply := SettleInspection(t, inventory);
      SettledIsAStep(old(View()), t.handle, A.CommitInspected(inventory), A.CommitInspect(old(t.View()), inventory));
    }

    method SettleInspection(t: Transaction, inventory: A.Result<nat>) returns (reply: A.Reply)
      requires Valid() && Knows(t) && t.phase.CommitInspecting?
      modifies this`log, t, pool
      ensures Valid() && View() == R.Settled(old(View()), t.handle, A.CommitInspect(old(t.View()), inventory))
      ensures reply == A.CommitInspect(old(t.View()), inventory).reply
    {
      reply := H.CommitInspected(t, inventory);
      ghost var e := A.CommitInspect(old(t.View()), inventory);
      OnlyThis(t);
      Note(t, e, old(View()));
    }

    method CommitPublished(t: Transaction, success: bool, saved: bool, removable: bool) returns (reply: A.Reply)
      requires Valid() && Knows(t) && t.phase.CommitPublishing?
      modifies this`log, t, pool, area
      ensures Valid() && Steps(old(View()), View(), R.On(t.handle, A.CommitPublished(success, saved, removable)))
      ensures reply == A.CommitPublish(old(t.View()), success, saved, removable).reply
    {
      reply := SettlePublication(t, success, saved, removable);
      SettledIsAStep(old(View()), t.handle, A.CommitPublished(success, saved, removable), A.CommitPublish(old(t.View()), success, saved, removable));
    }

    method SettlePublication(t: Transaction, success: bool, saved: bool, removable: bool) returns (reply: A.Reply)
      requires Valid() && Knows(t) && t.phase.CommitPublishing?
      modifies this`log, t, pool, area
      ensures Valid() && View() == R.Settled(old(View()), t.handle, A.CommitPublish(old(t.View()), success, saved, removable))
      ensures reply == A.CommitPublish(old(t.View()), success, saved, removable).reply
    {
      reply := H.CommitPublished(t, success, saved, removable);
      ghost var e := A.CommitPublish(old(t.View()), success, saved, removable);
      OnlyThis(t);
      Note(t, e, old(View()));
    }

    method Abort(t: Transaction, now: Time, removable: bool) returns (reply: A.Reply)
      requires Valid() && Knows(t) && t.phase.Free?
      modifies this`log, t, pool, area
      ensures Valid() && Steps(old(View()), View(), R.On(t.handle, A.Abort(now, removable)))
      ensures reply == A.AbortLocked(old(t.View()), now, removable).reply
      ensures old(I.Inv(View())) ==>
                O.AbortAnswers(old(t.Fields()), now, removable, reply) && O.AbortLeaves(old(t.View()), now, removable, t.View())
    {
      AbortIsTold(View(), t.handle, now, removable);
      AbortIsPlain(t.View(), now, removable);
      reply := SettleAbort(t, now, removable);
      SettledIsAStep(old(View()), t.handle, A.Abort(now, removable), A.AbortLocked(old(t.View()), now, removable));
    }

    method SettleAbort(t: Transaction, now: Time, removable: bool) returns (reply: A.Reply)
      requires Valid() && Knows(t)
      modifies this`log, t, pool, area
      ensures Valid() && View() == R.Settled(old(View()), t.handle, A.AbortLocked(old(t.View()), now, removable))
      ensures t.View() == A.AbortLocked(old(t.View()), now, removable).c
      ensures reply == A.AbortLocked(old(t.View()), now, removable).reply
    {
      reply := H.Abort(t, now, removable);
      AbortIsPlain(old(t.View()), now, removable);
      OnlyThis(t);
      Note(t, A.AbortLocked(old(t.View()), now, removable), old(View()));
    }

    /** Interrupts the work of a transaction without taking its mutex. */
    method CancelWork(t: Transaction)
      requires Valid() && Knows(t)
      modifies t`cancelled
      ensures Valid() && Steps(old(View()), View(), R.On(t.handle, A.Cancel))
    {
      t.CancelWork();
      OnlyThis(t);
      SettledIsAStep(old(View()), t.handle, A.Cancel, A.Quiet(old(t.View()).(t := old(t.Fields()).(cancelled := true))));
    }

    /** The second half of an Abort that waited for GPU work. */
    method AbortResumed(t: Transaction, removable: bool) returns (reply: A.Reply)
      requires Valid() && Knows(t) && t.phase.Free? && t.waiters > 0 && !GpuRunning(t.Fields())
      modifies this`log, t, pool, area
      ensures Valid() && Steps(old(View()), View(), R.On(t.handle, A.AbortResume(removable)))
      ensures reply == A.FinishAbort(A.Leave(old(t.View())), removable).reply
    {
      reply := SettleResumed(t, removable);
      SettledIsAStep(old(View()), t.handle, A.AbortResume(removable), A.FinishAbort(A.Leave(old(t.View())), removable));
    }

    method SettleResumed(t: Transaction, removable: bool) returns (reply: A.Reply)
      requires Valid() && Knows(t) && t.waiters > 0
      modifies this`log, t, pool, area
      ensures Valid() && View() == R.Settled(old(View()), t.handle, A.FinishAbort(A.Leave(old(t.View())), removable))
      ensures reply == A.FinishAbort(A.Leave(old(t.View())), removable).reply
    {
      reply := H.AbortResumed(t, removable);
      OnlyThis(t);
      Note(t, A.FinishAbort(A.Leave(old(t.View())), removable), old(View()));
    }

    /** The second half of an Abort that waited too long. */
    method AbortTimedOut(t: Transaction) returns (reply: A.Reply)
      requires Valid() && Knows(t) && t.phase.Free? && t.waiters > 0 && GpuRunning(t.Fields())
      modifies this`log, t`waiters
      ensures Valid() && Steps(old(View()), View(), R.On(t.handle, A.AbortTimeout)) && reply == A.GpuStillRunning
    {
      reply := H.AbortTimedOut(t);
      ghost var e := A.Answer(A.Leave(old(t.View())), A.GpuStillRunning);
      OnlyThis(t);
      Note(t, e, old(View()));
      SettledIsAStep(old(View()), t.handle, A.AbortTimeout, e);
    }

    method Gpu(t: Transaction, request: GpuRequest, now: Time, valid: bool) returns (reply: A.Reply)
      requires Valid() && Knows(t) && t.phase.Free?
      modifies this`log, t, pool
      ensures Valid() && Steps(old(View()), View(), R.On(t.handle, A.Gpu(request, now, valid)))
      ensures reply == A.GpuLocked(old(t.View()), request, now, valid).reply
      ensures old(I.Inv(View())) ==> O.GpuMeans(old(t.View()), request, now, valid, reply, t.View())
    {
      GpuIsTold(View(), t.handle, request, now, valid);
      GpuIsPlain(t.View(), request, now, valid);
      reply := SettleRequest(t, request, now, valid);
      SettledIsAStep(old(View()), t.handle, A.Gpu(request, now, valid), A.GpuLocked(old(t.View()), request, now, valid));
    }

    method SettleRequest(t: Transaction, request: GpuRequest, now: Time, valid: bool) returns (reply: A.Reply)
      requires Valid() && Knows(t) && t.phase.Free?
      modifies this`log, t, pool
      ensures Valid() && View() == R.Settled(old(View()), t.handle, A.GpuLocked(old(t.View()), request, now, valid))
      ensures t.View() == A.GpuLocked(old(t.View()), request, now, valid).c
      ensures reply == A.GpuLocked(old(t.View()), request, now, valid).reply
    {
      reply := H.Gpu(t, request, now, valid);
      ghost var e := A.GpuLocked(old(t.View()), request, now, valid);
      GpuIsPlain(old(t.View()), request, now, valid);
      OnlyThis(t);
      Note(t, e, old(View()));
    }

    method GpuFinished(t: Transaction, outcome: A.GpuOutcome) returns (reply: A.Reply)
      requires Valid() && Knows(t) && t.phase.Free? && t.gpuOperation.Some? && t.gpuOperation.value.state == Running
      modifies this`log, t
      ensures Valid() && Steps(old(View()), View(), R.On(t.handle, A.GpuFinish(outcome)))
      ensures reply == A.GpuFinished(old(t.View()), outcome).reply
    {
      reply := SettleGpu(t, outcome);
      SettledIsAStep(old(View()), t.handle, A.GpuFinish(outcome), A.GpuFinished(old(t.View()), outcome));
    }

    method SettleGpu(t: Transaction, outcome: A.GpuOutcome) returns (reply: A.Reply)
      requires Valid() && Knows(t) && t.phase.Free? && t.gpuOperation.Some? && t.gpuOperation.value.state == Running
      modifies this`log, t
      ensures Valid() && View() == R.Settled(old(View()), t.handle, A.GpuFinished(old(t.View()), outcome))
      ensures reply == A.GpuFinished(old(t.View()), outcome).reply
    {
      reply := H.GpuFinished(t, outcome);
      ghost var e := A.GpuFinished(old(t.View()), outcome);
      OnlyThis(t);
      Note(t, e, old(View()));
    }

    // Staging.

    /** Concludes an action that may give up the registry entry. */
    method Depart(t: Transaction, erase: bool, ghost e: A.Effect, ghost w: R.World)
      requires Valid() && Knows(t) && t.handle in w.objs && w.objs[t.handle].id == t.id && erase == e.erase
      requires View() == w.(objs := w.objs[t.handle := e.c.t], pool := e.c.pool, dirs := e.c.dirs, staging := w.staging + e.staging)
      modifies this`log, this`transactions
      ensures Valid() && View() == R.Settled(w, t.handle, e)
    {
      if erase { EraseTransaction(t.id, t); }
      log := R.Noted(log, t.handle, e);
    }

    /** The same where the restore may hold bytes to give back. */
    method Conclude(t: Transaction, erase: bool, held: nat, ghost e: A.Effect, ghost w: R.World)
      requires Valid() && Knows(t) && t.handle in w.objs && w.objs[t.handle].id == t.id && erase == e.erase
      requires View() == w.(objs := w.objs[t.handle := e.c.t], pool := e.c.pool, dirs := e.c.dirs, staging := w.staging + e.staging + held)
      modifies this`log, this`transactions, this`reservedStagingBytes
      ensures Valid() && View() == R.Settled(w, t.handle, e)
    {
      ReleaseStaging(held);
      Depart(t, erase, e, w);
    }

    method RestoreAdmit(t: Transaction, direct: bool, artifact: bool, found: A.Result<bool>, deadline: Time, removable: bool)
      requires Valid() && Knows(t) && t.phase.Free?
      modifies this`log, this`transactions, this`reservedStagingBytes, t, pool, area
      ensures Valid() && Steps(old(View()), View(), R.On(t.handle, A.RestoreAdmit(direct, artifact, found, deadline, removable)))
    {
      RestoreAdmittedReserves(t.View(), limited, direct, artifact, found, deadline, removable);
      SettleRestore(t, direct, artifact, found, deadline, removable);
      SettledIsAStep(old(View()), t.handle, A.RestoreAdmit(direct, artifact, found, deadline, removable), A.RestoreAdmitted(old(t.View()), limited, direct, artifact, found, deadline, removable));
    }

    method SettleRestore(t: Transaction, direct: bool, artifact: bool, found: A.Result<bool>, deadline: Time, removable: bool)
      requires Valid() && Knows(t) && t.phase.Free?
      modifies this`log, this`transactions, this`reservedStagingBytes, t, pool, area
      ensures Valid() && View() == R.Settled(old(View()), t.handle, A.RestoreAdmitted(old(t.View()), limited, direct, artifact, found, deadline, removable))
    {
      var erase := H.RestoreAdmitted(t, limited, direct, artifact, found, deadline, removable);
      ghost var e := A.RestoreAdmitted(old(t.View()), limited, direct, artifact, found, deadline, removable);
      RestoreAdmittedReserves(old(t.View()), limited, direct, artifact, found, deadline, removable);
      OnlyThis(t);
      Conclude(t, erase, 0, e, old(View()));
    }

    method RestoreScanned(t: Transaction, inventory: A.Result<nat>, now: Time, removable: bool)
      requires Valid() && Knows(t) && t.phase.RestoreScanning?
      modifies this`log, this`transactions, this`reservedStagingBytes, t, pool, area
      ensures Valid() && Steps(old(View()), View(), R.On(t.handle, A.RestoreScanned(inventory, now, removable)))
    {
      RestoreScanReserves(t.View(), t.phase.direct, t.phase.artifact, inventory, now, removable);
      SettleInventory(t, inventory, now, removable);
      SettledIsAStep(old(View()), t.handle, A.RestoreScanned(inventory, now, removable), A.RestoreScan(old(t.View()), old(t.phase).direct, old(t.phase).artifact, inventory, now, removable));
    }

    method SettleInventory(t: Transaction, inventory: A.Result<nat>, now: Time, removable: bool)
      requires Valid() && Knows(t) && t.phase.RestoreScanning?
      modifies this`log, this`transactions, this`reservedStagingBytes, t, pool, area
      ensures Valid() && View() == R.Settled(old(View()), t.handle, A.RestoreScan(old(t.View()), old(t.phase).direct, old(t.phase).artifact, inventory, now, removable))
    {
      var direct, artifact := t.phase.direct, t.phase.artifact;
      var erase := H.RestoreScanned(t, direct, artifact, inventory, now, removable);
      ghost var e := A.RestoreScan(old(t.View()), direct, artifact, inventory, now, removable);
      RestoreScanReserves(old(t.View()), direct, artifact, inventory, now, removable);
      OnlyThis(t);
      Conclude(t, erase, 0, e, old(View()));
    }

    method RestoreSpaced(t: Transaction, artifact: bool, bytes: nat, reserved: bool, removable: bool, ghost e: A.Effect, ghost w: R.World)
      requires Valid() && Knows(t) && t.handle in w.objs && w.objs[t.handle].id == t.id && View() == w.(staging := w.staging + e.staging)
      requires e.c == if reserved then A.Enter(t.View(), RestoreCreating(artifact, bytes)).c else A.RejectBeforeOwnership(t.View(), removable).c
      requires e.erase == (!reserved && A.RejectBeforeOwnership(t.View(), removable).erase)
      modifies this`log, this`transactions, this`reservedStagingBytes, t, pool, area
      ensures Valid() && View() == R.Settled(w, t.handle, e)
    {
      var erase := H.RestoreSpaced(t, artifact, bytes, reserved, removable);
      OnlyThis(t);
      Conclude(t, erase, 0, e, w);
    }

    method RestoreSpace(t: Transaction, available: Option<nat>, removable: bool)
      requires Valid() && Knows(t) && t.phase.RestoreSpacing?
      modifies this`log, this`transactions, this`reservedStagingBytes, t, pool, area
      ensures Valid() && Steps(old(View()), View(), R.On(t.handle, A.RestoreSpace(available, removable)))
    {
      RestoreReserveShape(t.View(), t.phase.artifact, t.phase.bytes, reservedStagingBytes, available, removable);
      SettleSpace(t, available, removable);
      SettledIsAStep(old(View()), t.handle, A.RestoreSpace(available, removable), A.RestoreReserve(old(t.View()), old(t.phase).artifact, old(t.phase).bytes, old(reservedStagingBytes), available, removable));
    }

    method SettleSpace(t: Transaction, available: Option<nat>, removable: bool)
      requires Valid() && Knows(t) && t.phase.RestoreSpacing?
      modifies this`log, this`transactions, this`reservedStagingBytes, t, pool, area
      ensures Valid() && View() == R.Settled(old(View()), t.handle, A.RestoreReserve(old(t.View()), old(t.phase).artifact, old(t.phase).bytes, old(reservedStagingBytes), available, removable))
    {
      var artifact, bytes := t.phase.artifact, t.phase.bytes;
      ghost var e := A.RestoreReserve(old(t.View()), artifact, bytes, old(reservedStagingBytes), available, removable);
      RestoreReserveShape(old(t.View()), artifact, bytes, old(reservedStagingBytes), available, removable);
      var reserved := ReserveStaging(bytes, available);
      assert Population() == old(Population()) && t.View() == old(t.View());
      RestoreSpaced(t, artifact, bytes, reserved, removable, e, old(View()));
    }

    method RestoreMkdir(t: Transaction, made: A.Result<()>, before: Time, now: Time, removable: bool)
      requires Valid() && Knows(t) && t.phase.RestoreCreating?
      modifies this`log, this`transactions, this`reservedStagingBytes, t, pool, area
      ensures Valid() && Steps(old(View()), View(), R.On(t.handle, A.RestoreMkdir(made, before, now, removable)))
    {
      RestoreCreateRetains(t.View(), t.phase.artifact, t.phase.bytes, made, before, now, removable);
      SettleMkdir(t, made, before, now, removable);
      SettledIsAStep(old(View()), t.handle, A.RestoreMkdir(made, before, now, removable), A.RestoreCreate(old(t.View()), old(t.phase).artifact, old(t.phase).bytes, made, before, now, removable));
    }

    method SettleMkdir(t: Transaction, made: A.Result<()>, before: Time, now: Time, removable: bool)
      requires Valid() && Knows(t) && t.phase.RestoreCreating?
      modifies this`log, this`transactions, this`reservedStagingBytes, t, pool, area
      ensures Valid() && View() == R.Settled(old(View()), t.handle, A.RestoreCreate(old(t.View()), old(t.phase).artifact, old(t.phase).bytes, made, before, now, removable))
    {
      var artifact, bytes := t.phase.artifact, t.phase.bytes;
      ghost var e := A.RestoreCreate(old(t.View()), artifact, bytes, made, before, now, removable);
      var failed, erase := H.RestoreCreated(t, artifact, bytes, made, before, now, removable);
      OnlyThis(t);
      Conclude(t, erase, if failed then bytes else 0, e, old(View()));
    }

    method RestoreCopied(t: Transaction, copied: A.Result<()>, now: Time, removable: bool)
      requires Valid() && Knows(t) && t.phase.RestoreCopying?
      modifies this`log, this`transactions, this`reservedStagingBytes, t, pool, area
      ensures Valid() && Steps(old(View()), View(), R.On(t.handle, A.RestoreCopied(copied, now, removable)))
    {
      RestoreCopyReserves(t.View(), t.phase.direct, t.phase.bytes, copied, now, removable);
      SettleCopy(t, copied, now, removable);
      SettledIsAStep(old(View()), t.handle, A.RestoreCopied(copied, now, removable), A.RestoreCopy(old(t.View()), old(t.phase).direct, old(t.phase).bytes, copied, now, removable));
    }

    method SettleCopy(t: Transaction, copied: A.Result<()>, now: Time, removable: bool)
      requires Valid() && Knows(t) && t.phase.RestoreCopying?
      modifies this`log, this`transactions, this`reservedStagingBytes, t, pool, area
      ensures Valid() && View() == R.Settled(old(View()), t.handle, A.RestoreCopy(old(t.View()), old(t.phase).direct, old(t.phase).bytes, copied, now, removable))
    {
      var direct, bytes := t.phase.direct, t.phase.bytes;
      ghost var e := A.RestoreCopy(old(t.View()), direct, bytes, copied, now, removable);
      RestoreCopyReserves(old(t.View()), direct, bytes, copied, now, removable);
      var erase := H.RestoreCopied(t, direct, bytes, copied, now, removable);
      OnlyThis(t);
      Conclude(t, erase, if direct then 0 else bytes, e, old(View()));
    }

    method CheckpointAdmit(t: Transaction, direct: bool, destination: Option<string>, repeated: A.Result<string>, deadline: Time, now: Time, removable: bool)
      returns (reply: A.Reply)
      requires Valid() && Knows(t) && t.phase.Free?
      modifies this`log, this`transactions, this`reservedStagingBytes, t, pool, area
      ensures Valid() && Steps(old(View()), View(), R.On(t.handle, A.CheckpointAdmit(direct, destination, repeated, deadline, now, removable)))
      ensures reply == A.CheckpointAdmitted(old(t.View()), limited, direct, destination, repeated, deadline, now, removable).reply
    {
      CheckpointReserves(t.View(), limited, direct, destination, repeated, deadline, now, removable);
      reply := SettleCheckpoint(t, direct, destination, repeated, deadline, now, removable);
      SettledIsAStep(old(View()), t.handle, A.CheckpointAdmit(direct, destination, repeated, deadline, now, removable), A.CheckpointAdmitted(old(t.View()), limited, direct, destination, repeated, deadline, now, removable));
    }

    method SettleCheckpoint(t: Transaction, direct: bool, destination: Option<string>, repeated: A.Result<string>, deadline: Time, now: Time, removable: bool)
      returns (reply: A.Reply)
      requires Valid() && Knows(t) && t.phase.Free?
      modifies this`log, this`transactions, this`reservedStagingBytes, t, pool, area
      ensures Valid() && View() == R.Settled(old(View()), t.handle, A.CheckpointAdmitted(old(t.View()), limited, direct, destination, repeated, deadline, now, removable))
      ensures reply == A.CheckpointAdmitted(old(t.View()), limited, direct, destination, repeated, deadline, now, removable).reply
    {
      var erase;
      reply, erase := H.CheckpointAdmitted(t, limited, direct, destination, repeated, deadline, now, removable);
      ghost var e := A.CheckpointAdmitted(old(t.View()), limited, direct, destination, repeated, deadline, now, removable);
      CheckpointReserves(old(t.View()), limited, direct, destination, repeated, deadline, now, removable);
      OnlyThis(t);
      Conclude(t, erase, 0, e, old(View()));
    }

    method CheckpointOpened(t: Transaction, output: A.Result<string>, made: A.Result<()>, before: Time, now: Time, removable: bool)
      requires Valid() && Knows(t) && t.phase.CheckpointOpening?
      modifies this`log, this`transactions, this`reservedStagingBytes, t, pool, area
      ensures Valid() && Steps(old(View()), View(), R.On(t.handle, A.CheckpointOpened(output, made, before, now, removable)))
    {
      CheckpointOpenReserves(t.View(), t.phase.direct, t.phase.artifact, output, made, before, now, removable);
      SettleOutput(t, output, made, before, now, removable);
      SettledIsAStep(old(View()), t.handle, A.CheckpointOpened(output, made, before, now, removable), A.CheckpointOpen(old(t.View()), old(t.phase).direct, old(t.phase).artifact, output, made, before, now, removable));
    }

    method SettleOutput(t: Transaction, output: A.Result<string>, made: A.Result<()>, before: Time, now: Time, removable: bool)
      requires Valid() && Knows(t) && t.phase.CheckpointOpening?
      modifies this`log, this`transactions, this`reservedStagingBytes, t, pool, area
      ensures Valid() && View() == R.Settled(old(View()), t.handle, A.CheckpointOpen(old(t.View()), old(t.phase).direct, old(t.phase).artifact, output, made, before, now, removable))
    {
      var direct, artifact := t.phase.direct, t.phase.artifact;
      var erase := H.CheckpointOpened(t, direct, artifact, output, made, before, now, removable);
      ghost var e := A.CheckpointOpen(old(t.View()), direct, artifact, output, made, before, now, removable);
      CheckpointOpenReserves(old(t.View()), direct, artifact, output, made, before, now, removable);
      OnlyThis(t);
      Conclude(t, erase, 0, e, old(View()));
    }

    // The reaper and shutdown.

    /** One visit of the reaper; a transaction whose mutex is taken is skipped. */
    method ReapTransaction(t: Transaction, now: Time, removable: bool)
      requires Valid() && Knows(t)
      modifies this`log, this`transactions, this`terminalTransactions, this`reservedStagingBytes, t, pool, area
      ensures Valid() && Steps(old(View()), View(), R.On(t.handle, A.Reap(now, removable)))
    {
      StepIsLawful(View(), R.On(t.handle, A.Reap(now, removable)));
      ReapIsAStep(View(), t.handle, now, removable);
      if !t.phase.Free? { return; }
      var retain := ReapLocked(t, now, removable);
      if retain { RetainTerminalTransactionLocked(t); }
    }

    method ReapLocked(t: Transaction, now: Time, removable: bool) returns (retain: bool)
      requires Valid() && Knows(t)
      modifies this`log, this`transactions, this`reservedStagingBytes, t, pool, area
      ensures Valid() && View() == R.Settled(old(View()), t.handle, A.ReapLocked(old(t.View()), now, removable))
      ensures retain == A.ReapLocked(old(t.View()), now, removable).retain
    {
      ghost var e := A.ReapLocked(old(t.View()), now, removable);
      var erase;
      erase, retain := H.Reap(t, now, removable);
      ReapReserves(old(t.View()), now, removable);
      OnlyThis(t);
      Conclude(t, erase, 0, e, old(View()));
    }

    /** Visits whatever a snapshot of the registry holds; removal of a blocked transaction's staging fails. */
    method ReapExpiredTransactions(snapshot: seq<Transaction>, now: Time, blocked: set<nat>)
      requires Valid() && forall i | 0 <= i < |snapshot| :: Knows(snapshot[i])
      modifies this`log, this`transactions, this`terminalTransactions, this`reservedStagingBytes, snapshot, pool, area
      ensures Valid() && View() == R.Sweep(old(View()), now, Handles(snapshot), blocked)
      ensures Runs(old(View()), View(), SweepSteps(now, Handles(snapshot), blocked))
    {
      VisitEach(snapshot, now, blocked);
      SweepIsARun(old(View()), now, Handles(snapshot), blocked);
      RunsAreLawful(old(View()), SweepSteps(now, Handles(snapshot), blocked));
    }

    method VisitEach(snapshot: seq<Transaction>, now: Time, blocked: set<nat>)
      requires Valid() && forall i | 0 <= i < |snapshot| :: Knows(snapshot[i])
      modifies this`log, this`transactions, this`terminalTransactions, this`reservedStagingBytes, snapshot, pool, area
      ensures Valid() && View() == R.Sweep(old(View()), now, Handles(snapshot), blocked)
    {
      ghost var w := View();
      for i := 0 to |snapshot|
        invariant Valid() && View() == R.Sweep(w, now, Handles(snapshot[..i]), blocked)
      {
        OneMoreVisit(w, now, snapshot, i, blocked);
        ReapTransaction(snapshot[i], now, snapshot[i].handle !in blocked);
      }
      assert snapshot[..|snapshot|] == snapshot;
    }

    /** Raises the stop flag of every registered transaction. */
    method CancelAll()
      requires Valid()
      modifies transactions.Values`cancelled
      ensures forall h | h in objs :: objs[h].cancelled == (Owned(objs[h]) || old(objs[h].cancelled))
    {
      var ids := transactions.Keys;
      while ids != {}
        invariant ids <= transactions.Keys
        invariant forall h | h in objs :: objs[h].cancelled == ((Owned(objs[h]) && objs[h].id !in ids) || old(objs[h].cancelled))
        decreases |ids|
      {
        var id :| id in ids;
        transactions[id].CancelWork();
        ids := ids - {id};
      }
    }

    /** The registry finds this very transaction under its ID. */
    ghost predicate Owned(t: Transaction)
      reads this`transactions
    {
      t.id in transactions && transactions[t.id] == t
    }

    twostate lemma AllCancelled(w: R.World)
      requires old(Valid()) && objs == old(objs) && transactions == old(transactions) && w.objs == old(Population()) && w.registry == Names()
      requires forall h | h in objs :: objs[h].Fields() == old(objs[h].Fields()).(cancelled := Owned(objs[h]) || old(objs[h].cancelled))
      ensures Population() == R.StopAll(w).objs
    {
      forall h | h in objs ensures Population()[h] == R.StopAll(w).objs[h] {
        assert Owned(objs[h]) <==> R.Registered(w, h);
      }
    }

    method CancelRegistered(ghost w: R.World)
      requires Valid() && w.objs == Population() && w.registry == Names()
      modifies transactions.Values`cancelled
      ensures Population() == R.StopAll(w).objs
    {
      CancelAll();
      AllCancelled(w);
    }

    /** Stops new requests and all registered work, without taking any transaction's mutex. */
    method Shutdown()
      requires Valid()
      modifies this`stopping, transactions.Values`cancelled
      ensures Valid() && Steps(old(View()), View(), R.Shutdown)
    {
      StepIsLawful(View(), R.Shutdown);
      StopAll();
    }

    method StopAll()
      requires Valid()
      modifies this`stopping, transactions.Values`cancelled
      ensures Valid() && View() == R.StopAll(old(View()))
    {
      stopping := true;
      CancelRegistered(old(View()));
    }
  }

  ghost function Handles(ts: seq<Transaction>): (r: seq<nat>)
    ensures |r| == |ts|
  {
    seq(|ts|, i requires 0 <= i < |ts| => ts[i].handle)
  }

  lemma OneMoreVisit(w: R.World, now: Time, snapshot: seq<Transaction>, i: nat, blocked: set<nat>)
    requires i < |snapshot|
    ensures R.Sweep(w, now, Handles(snapshot[..i + 1]), blocked) ==
            R.Next(R.Sweep(w, now, Handles(snapshot[..i]), blocked), R.On(snapshot[i].handle, A.Reap(now, snapshot[i].handle !in blocked)))
  {
    assert Handles(snapshot[..i + 1])[..i] == Handles(snapshot[..i]);
  }

  lemma ReapIsAStep(w: R.World, h: R.Handle, now: Time, removable: bool)
    requires h in w.objs
    ensures R.Acted(w, h, A.Reap(now, removable)) ==
            if w.objs[h].phase.Free? then R.Apply(w, h, A.ReapLocked(R.View(w, h), now, removable)) else w
  {
  }

  lemma RetainIsAStep(w: R.World, h: R.Handle)
    requires h in w.objs
    ensures Steps(w, if w.objs[h].phase.Free? then R.RetainTerminal(w, h) else w, R.On(h, A.Retain))
  {
    StepIsLawful(w, R.On(h, A.Retain));
    assert R.Settled(w, h, A.Quiet(R.View(w, h))) == w;
  }

  ghost function SweepSteps(now: Time, snapshot: seq<R.Handle>, blocked: set<R.Handle>): seq<R.Step>
    decreases |snapshot|
  {
    if snapshot == [] then [] else
    var h := snapshot[|snapshot| - 1];
    SweepSteps(now, snapshot[..|snapshot| - 1], blocked) + [R.On(h, A.Reap(now, h !in blocked))]
  }

  lemma OneMoreStep(w: R.World, steps: seq<R.Step>, s: R.Step)
    ensures R.Run(w, steps + [s]) == R.Next(R.Run(w, steps), s)
  {
    assert (steps + [s])[..|steps + [s]| - 1] == steps;
  }

  /** A sweep is the run of its visits. */
  lemma {:induction false} SweepIsARun(w: R.World, now: Time, snapshot: seq<R.Handle>, blocked: set<R.Handle>)
    ensures R.Sweep(w, now, snapshot, blocked) == R.Run(w, SweepSteps(now, snapshot, blocked))
    decreases |snapshot|
  {
    if snapshot != [] {
      var front, h := snapshot[..|snapshot| - 1], snapshot[|snapshot| - 1];
      SweepIsARun(w, now, front, blocked);
      OneMoreStep(w, SweepSteps(now, front, blocked), R.On(h, A.Reap(now, h !in blocked)));
    }
  }

  /** One take from the queue, then one erasure for each entry taken. */
  ghost function ErasingSteps(now: Time, n: nat): seq<R.Step> {
    if n == 0 then [R.PopTerminal(now)] else ErasingSteps(now, n - 1) + [R.EraseDoomed(0)]
  }

  lemma {:induction false} ErasingIsARun(w: R.World, now: Time, n: nat)
    ensures Erased(R.Pop(w, now), n) == R.Run(w, ErasingSteps(now, n))
    decreases n
  {
    if n == 0 {
      OneMoreStep(w, [], R.PopTerminal(now));
      assert [] + [R.PopTerminal(now)] == ErasingSteps(now, n);
    } else {
      ErasingIsARun(w, now, n - 1);
      OneMoreStep(w, ErasingSteps(now, n - 1), R.EraseDoomed(0));
    }
  }

  lemma ReapReserves(c: Ctx, now: Time, removable: bool)
    ensures A.ReapLocked(c, now, removable).staging == 0
  {
  }

  // What the staging actions do to the byte reservation shared by all restores; none is offered to the queue.

  lemma RestoreAdmittedReserves(c: Ctx, limits: bool, direct: bool, artifact: bool, found: A.Result<bool>, deadline: Time, removable: bool)
    ensures var e := A.RestoreAdmitted(c, limits, direct, artifact, found, deadline, removable); e.staging == 0 && !e.retain
  {
  }

  lemma RestoreScanReserves(c: Ctx, direct: bool, artifact: bool, inventory: A.Result<nat>, now: Time, removable: bool)
    ensures var e := A.RestoreScan(c, direct, artifact, inventory, now, removable); e.staging == 0 && !e.retain
  {
  }

  lemma RestoreReserveShape(c: Ctx, artifact: bool, bytes: nat, staging: int, available: Option<nat>, removable: bool)
    ensures var e := A.RestoreReserve(c, artifact, bytes, staging, available, removable);
            && !e.retain
            && if A.SpaceFor(bytes + staging, available)
               then e.c == A.Enter(c, RestoreCreating(artifact, bytes)).c && !e.erase && e.staging == bytes
               else e == A.RejectBeforeOwnership(c, removable) && e.staging == 0
  {
  }

  lemma RestoreCreateRetains(c: Ctx, artifact: bool, bytes: nat, made: A.Result<()>, before: Time, now: Time, removable: bool)
    ensures !A.RestoreCreate(c, artifact, bytes, made, before, now, removable).retain
  {
  }

  lemma RestoreCopyReserves(c: Ctx, direct: bool, bytes: nat, copied: A.Result<()>, now: Time, removable: bool)
    ensures var e := A.RestoreCopy(c, direct, bytes, copied, now, removable);
            e.staging == 0 - (if direct then 0 else bytes) && !e.retain
  {
  }

  lemma CheckpointReserves(c: Ctx, limits: bool, direct: bool, destination: Option<string>, repeated: A.Result<string>, deadline: Time, now: Time, removable: bool)
    ensures var e := A.CheckpointAdmitted(c, limits, direct, destination, repeated, deadline, now, removable); e.staging == 0 && !e.retain
  {
    CheckpointStartReserves(c, limits, direct, destination, deadline, now, removable);
  }

  lemma CheckpointStartReserves(c: Ctx, limits: bool, direct: bool, destination: Option<string>, deadline: Time, now: Time, removable: bool)
    ensures var e := A.CheckpointStarted(c, limits, direct, destination, deadline, now, removable); e.staging == 0 && !e.retain
  {
  }

  lemma CheckpointOpenReserves(c: Ctx, direct: bool, artifact: bool, output: A.Result<string>, made: A.Result<()>, before: Time, now: Time, removable: bool)
    ensures var e := A.CheckpointOpen(c, direct, artifact, output, made, before, now, removable); e.staging == 0 && !e.retain
  {
  }

  ghost function Erased(w: R.World, n: nat): R.World {
    if n == 0 then w else R.EraseEntry(Erased(w, n - 1), 0)
  }

  lemma TakenIsPopped(entries: seq<TerminalTransaction>, expired: seq<TerminalTransaction>, rest: seq<TerminalTransaction>)
    requires entries == expired + rest
    ensures Broker.Listing(entries)[|expired|..] == Broker.Listing(rest)
    ensures Broker.Listing(entries)[..|expired|] == Broker.Listing(expired)
  {
  }

  lemma OverdueFirst(entries: seq<TerminalTransaction>, now: Time)
    requires R.Overdue(Broker.Listing(entries), now)
    ensures R.OverdueCount(Broker.Listing(entries), now) == 1 + R.OverdueCount(Broker.Listing(entries[1..]), now)
  {
    assert Broker.Listing(entries)[1..] == Broker.Listing(entries[1..]);
  }

  /** An effect on the transaction and its accounts alone. */
  ghost predicate Plain(e: A.Effect) {
    !e.erase && !e.retain && e.staging == 0
  }

  lemma CommitIsPlain(c: Ctx, now: Time, present: bool, removable: bool)
    ensures Plain(A.CommitLocked(c, now, present, removable))
  {
  }

  lemma AbortIsPlain(c: Ctx, now: Time, removable: bool)
    ensures Plain(A.AbortLocked(c, now, removable))
  {
  }

  lemma GpuIsPlain(c: Ctx, request: GpuRequest, now: Time, valid: bool)
    ensures Plain(A.GpuLocked(c, request, now, valid))
  {
  }
}
