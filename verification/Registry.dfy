/**
 The broker around its transactions: the registry by ID, the queue of finished
 transactions, the shared byte reservation, the admission pool and the staging
 directories. A run is any sequence of steps by any number of threads; every
 choice of the world around the broker is an argument of a step.

 Transactions live in `objs` until their last holder drops them. Any thread may
 hold any transaction that still exists, however stale, so a step may act on a
 transaction that has already left the registry.
 */
module Registry {
  import opened Lifecycle
  import opened Actions

  type Handle = nat

  /** Time points count nanoseconds. */
  const RETENTION: nat := 3_600_000_000_000
  const MAX_RETAINED: nat := 1024

  datatype Entry = Entry(id: Id, h: Handle, completed: Time)

  /** An observable answer: who gave it, what it said, whether the engine published, whether a GPU run concluded. */
  datatype Event = Event(h: Handle, reply: Reply, published: bool, ran: bool)

  datatype World = World(
    limits: bool,
    objs: map<Handle, Txn>,
    next: Handle,
    registry: map<Id, Handle>,
    queue: seq<Entry>,
    doomed: seq<Entry>,
    stopping: bool,
    staging: int,
    pool: Pool,
    dirs: set<Path>,
    clock: Time,
    log: seq<Event>)

  datatype Step =
    | Create(id: Id)
    | On(h: Handle, action: Action)
    | Shutdown
    | Tick(elapsed: nat)
    | PopTerminal(now: Time)
    | EraseDoomed(at: nat)
    | Destroy(h: Handle)

  function Initial(limits: bool, byteLimit: nat, transactionLimit: nat): World {
    World(limits, map[], 0, map[], [], [], false, 0, Pool(byteLimit, transactionLimit, 0, 0, {}), {}, 0, [])
  }

  predicate Registered(w: World, h: Handle) {
    h in w.objs && w.objs[h].id in w.registry && w.registry[w.objs[h].id] == h
  }

  function View(w: World, h: Handle): Ctx
    requires h in w.objs
  {
    Ctx(w.objs[h], w.pool, w.dirs)
  }

  /** Removes the entry only if it still names this very transaction. */
  function EraseTransaction(registry: map<Id, Handle>, id: Id, h: Handle): map<Id, Handle> {
    if id in registry && registry[id] == h then registry - {id} else registry
  }

  function CreateTransaction(w: World, id: Id): World {
    if w.stopping || id in w.registry then w else
    w.(objs := w.objs[w.next := Fresh(id)], registry := w.registry[id := w.next], next := w.next + 1)
  }

  /** `RetainTerminalTransactionLocked`: at most once per transaction, stamped under the queue lock. */
  function RetainTerminal(w: World, h: Handle): World
    requires h in w.objs
  {
    if !CanRetainTerminal(w.objs[h]) then w else
    w.(objs := w.objs[h := w.objs[h].(retained := true)],
       queue := w.queue + [Entry(w.objs[h].id, h, w.clock)])
  }

  function Noted(log: seq<Event>, h: Handle, e: Effect): seq<Event> {
    if e.reply.Silent? then log else log + [Event(h, e.reply, e.published, e.ran)]
  }

  /** Writes the effect of an action back; retention comes last and is not part of it. */
  function Settled(w: World, h: Handle, e: Effect): World
    requires h in w.objs
  {
    w.(objs := w.objs[h := e.c.t], pool := e.c.pool, dirs := e.c.dirs, staging := w.staging + e.staging,
       registry := if e.erase then EraseTransaction(w.registry, w.objs[h].id, h) else w.registry,
       log := Noted(w.log, h, e))
  }

  function Apply(w: World, h: Handle, e: Effect): World
    requires h in w.objs
  {
    if e.retain then RetainTerminal(Settled(w, h, e), h) else Settled(w, h, e)
  }

  function StopAll(w: World): World {
    w.(stopping := true,
       objs := map h | h in w.objs :: if Registered(w, h) then w.objs[h].(cancelled := true) else w.objs[h])
  }

  predicate Overdue(queue: seq<Entry>, now: Time) {
    queue != [] && (now >= queue[0].completed + RETENTION || |queue| > MAX_RETAINED)
  }

  /** How many entries `ReapTerminalTransactions` takes from the front. */
  function OverdueCount(queue: seq<Entry>, now: Time): (n: nat)
    ensures n <= |queue|
  {
    if Overdue(queue, now) then 1 + OverdueCount(queue[1..], now) else 0
  }

  function Pop(w: World, now: Time): World {
    var n := OverdueCount(w.queue, now);
    w.(queue := w.queue[n..], doomed := w.doomed + w.queue[..n])
  }

  /** One of the entries taken from the queue, by whichever reaper took it, has its turn. */
  function EraseEntry(w: World, at: nat): World {
    if at >= |w.doomed| then w else
    w.(doomed := w.doomed[..at] + w.doomed[at + 1..],
       registry := EraseTransaction(w.registry, w.doomed[at].id, w.doomed[at].h))
  }

  predicate Listed(entries: seq<Entry>, h: Handle) {
    exists i :: 0 <= i < |entries| && entries[i].h == h
  }

  /** Nobody holds the transaction any more. */
  predicate Unheld(w: World, h: Handle) {
    && h in w.objs && !Registered(w, h) && !Listed(w.queue, h) && !Listed(w.doomed, h)
    && w.objs[h].phase.Free? && w.objs[h].waiters == 0 && !GpuRunning(w.objs[h])
  }

  function Drop(w: World, h: Handle): World {
    if !Unheld(w, h) then w else
    var b := Destroyed(Books(w.objs[h].hold, w.pool, w.dirs));
    w.(objs := w.objs - {h}, pool := b.pool, dirs := b.dirs)
  }

  function Acted(w: World, h: Handle, action: Action): World {
    if h in w.objs then Apply(w, h, Act(View(w, h), w.limits, w.staging, action)) else w
  }

  type Visit = (World, Handle) -> World

  function VisitAll(w: World, snapshot: seq<Handle>, visit: Visit): World {
    if snapshot == [] then w else visit(VisitAll(w, snapshot[..|snapshot| - 1], visit), snapshot[|snapshot| - 1])
  }

  /** The reaper's visit; removal of a blocked transaction's staging fails. */
  function Reaping(now: Time, blocked: set<Handle>): Visit {
    (w: World, h: Handle) => Acted(w, h, Reap(now, h !in blocked))
  }

  /** `ReapExpiredTransactions` over a snapshot of the registry. */
  function Sweep(w: World, now: Time, snapshot: seq<Handle>, blocked: set<Handle>): World {
    VisitAll(w, snapshot, Reaping(now, blocked))
  }

  function Next(w: World, s: Step): World {
    match s
    case Create(id) => CreateTransaction(w, id)
    case On(h, action) => Acted(w, h, action)
    case Shutdown => StopAll(w)
    case Tick(elapsed) => w.(clock := w.clock + elapsed)
    case PopTerminal(now) => Pop(w, now)
    case EraseDoomed(at) => EraseEntry(w, at)
    case Destroy(h) => Drop(w, h)
  }

  function Run(w: World, steps: seq<Step>): World
    decreases |steps|
  {
    if steps == [] then w else Next(Run(w, steps[..|steps| - 1]), steps[|steps| - 1])
  }
}
