/**
 The transaction as the object that PageBroker's threads share, in the form of
 transaction.cpp: fields updated in place, one method per operation. Each method
 is tied to the function of the same name on values, about which everything
 else is proved. `phase` and `waiters` are no fields of the original: they
 record where the threads are that hold or await the transaction's mutex.
 */
module Transactions {
  import L = Lifecycle
  import A = Actions
  import opened Lifecycle

  /** Admission accounting shared by all transactions of a broker. */
  class TransactionResources {
    const byteLimit: nat
    const transactionLimit: nat
    var reserved: int
    var active: int
    var destinations: set<string>

    constructor (bytes: nat, transactions: nat)
      ensures View() == Pool(bytes, transactions, 0, 0, {})
    {
      byteLimit, transactionLimit := bytes, transactions;
      reserved, active, destinations := 0, 0, {};
    }

    function View(): Pool
      reads this
    {
      Pool(byteLimit, transactionLimit, reserved, active, destinations)
    }
  }

  /** The staging directories on disk. */
  class StagingArea {
    var dirs: set<Path>

    constructor ()
      ensures dirs == {}
    {
      dirs := {};
    }

    method Remove(dir: Path, removable: bool) returns (failed: bool)
      modifies this
      ensures failed == !removable
      ensures dirs == if failed then old(dirs) else old(dirs) - {dir}
    {
      failed := !removable;
      if !failed { dirs := dirs - {dir}; }
    }

    /** Creates the directory or reports the failure; an existing entry is a conflict. */
    method CreateExclusive(dir: Path, outcome: A.Result<()>) returns (made: A.Result<()>)
      modifies this
      ensures made == A.Mkdir(old(dirs), dir, outcome)
      ensures dirs == if made.Ok? then old(dirs) + {dir} else old(dirs)
    {
      if dir in dirs {
        made := A.Err(A.TransactionConflict);
      } else {
        made := outcome;
        if made.Ok? { dirs := dirs + {dir}; }
      }
    }
  }

  class Transaction {
    const id: Id
    const handle: nat
    const area: StagingArea
    /** The accounts of the broker that made this transaction; `admitted` says that `resources_` points to them. */
    const pool: TransactionResources

    var state: State
    var descriptor: Descriptor
    var terminalRetained: bool
    var cancelled: bool
    var deadline: Option<Time>
    var admitted: bool
    var reserved: nat
    var released: bool
    var publication: Option<Publication>
    var transferDirectory: Path
    var transferExpired: bool
    var gpuOperation: Option<GpuOperation>
    var phase: Phase
    var waiters: nat

    constructor (id: Id, handle: nat, area: StagingArea, pool: TransactionResources)
      ensures this.handle == handle && this.area == area && this.pool == pool
      ensures Fields() == Fresh(id)
    {
      this.id, this.handle, this.area, this.pool := id, handle, area, pool;
      state, descriptor, terminalRetained, cancelled := New, Monostate, false, false;
      deadline, admitted, reserved, released := None, false, 0, false;
      publication, transferDirectory, transferExpired, gpuOperation := None, NoPath, false, None;
      phase, waiters := Free, 0;
    }

    ghost function Fields(): Txn
      reads this
    {
      Txn(id, state, descriptor, terminalRetained, cancelled, deadline, transferExpired, gpuOperation,
          Hold(admitted, reserved, released, publication, transferDirectory), phase, waiters)
    }

    ghost function View(): Ctx
      reads this, pool, area
    {
      Ctx(Fields(), pool.View(), area.dirs)
    }

    predicate HasPendingCleanup()
      reads this
    {
      transferDirectory != NoPath || (admitted && !released)
    }

    predicate CanRetainTerminal()
      reads this
    {
      !terminalRetained && (state == Committed || state == Aborted) && !HasPendingCleanup()
    }

    predicate Expired(now: Time)
      reads this
    {
      deadline.Some? && state != Committed && state != Aborted && (transferExpired || now >= deadline.value)
    }

    /** A cancellation point at time `now` would throw. */
    predicate Stopped(now: Time)
      reads this
    {
      cancelled || (deadline.Some? && now >= deadline.value)
    }

    method CancelWork()
      modifies this`cancelled
      ensures Fields() == old(Fields()).(cancelled := true)
    {
      cancelled := true;
    }

    method ReleaseReservation()
      modifies this, pool
      ensures View() == Settle(old(View()), L.ReleaseReservation(Accounts(old(View()))))
    {
      if !admitted || released { return; }
      pool.reserved := pool.reserved - reserved;
      pool.active := pool.active - 1;
      reserved := 0;
      released := true;
    }

    method ReleaseAbortedDestination()
      modifies this, pool
      ensures View() == L.ReleaseAbortedDestination(old(View()))
    {
      if state != Aborted || HasPendingCleanup() || !admitted || publication.None? { return; }
      pool.destinations := pool.destinations - {publication.value.artifact};
      publication := None;
    }

    method SetState(next: State)
      modifies this, pool
      ensures View() == L.SetState(old(View()), next)
    {
      state := next;
      if (next == Committed || next == Aborted) && gpuOperation.Some? {
        gpuOperation := Some(gpuOperation.value.(pidfds := false));
      }
      ReleaseAbortedDestination();
    }

    method SetDescriptor(next: Descriptor)
      modifies this
      ensures Fields() == old(Fields()).(desc := next)
    {
      descriptor := next;
    }

    method TryClearDescriptor() returns (cleared: bool)
      modifies this
      ensures Fields() == L.TryClearDescriptor(old(Fields()))
      ensures cleared <==> !L.HasPendingCleanup(old(Fields()))
    {
      if HasPendingCleanup() { return false; }
      descriptor := Monostate;
      return true;
    }

    method RetainTerminal() returns (retained: bool)
      modifies this
      ensures retained == L.CanRetainTerminal(old(Fields()))
      ensures Fields() == if retained then old(Fields()).(retained := true) else old(Fields())
    {
      if !CanRetainTerminal() { return false; }
      terminalRetained := true;
      return true;
    }

    method PrepareTransfer(shared: TransactionResources?, bytes: nat, artifact: Option<string>, until: Time)
      returns (admission: Admission)
      requires shared != null ==> shared == pool
      modifies this, pool
      ensures (View(), admission) == L.PrepareTransfer(old(View()), shared != null, bytes, artifact, until)
    {
      deadline := Some(until);
      if shared == null { return Admitted; }
      if artifact.Some? { publication := Some(Publication(artifact.value, false, false)); }
      admission := TryAdmit(bytes);
    }

    /** Takes a slot, bytes and the destination on record, or nothing. */
    method TryAdmit(bytes: nat) returns (admission: Admission)
      modifies this`admitted, this`reserved, pool
      ensures var (b, granted) := L.Admit(L.Accounts(old(View())), bytes, None);
              admission == granted && View() == L.Settle(old(View()), b)
    {
      if pool.active >= pool.transactionLimit || pool.reserved >= pool.byteLimit || bytes > pool.byteLimit - pool.reserved {
        return LimitReached;
      }
      if publication.Some? {
        if publication.value.artifact in pool.destinations { return DestinationOwned; }
        pool.destinations := pool.destinations + {publication.value.artifact};
      }
      admitted, reserved := true, bytes;
      pool.active, pool.reserved := pool.active + 1, pool.reserved + bytes;
      return Admitted;
    }

    /** From here on the directory is this transaction's to remove. */
    method OwnDirectory(directory: Path)
      modifies this
      ensures Fields() == old(Fields()).(hold := old(Fields()).hold.(dir := directory))
    {
      transferDirectory := directory;
    }

    method Reserve(bytes: nat) returns (fits: bool)
      modifies this, pool
      ensures View() == L.Reserve(old(View()), bytes)
      ensures fits == ReserveFits(old(View()), bytes)
    {
      if !admitted || bytes <= reserved { return true; }
      var additional := bytes - reserved;
      if additional > pool.byteLimit - pool.reserved { return false; }
      pool.reserved := pool.reserved + additional;
      reserved := bytes;
      return true;
    }

    /** Gives up retry data, reservation and the record of a directory that is no longer there. */
    method DropHoldings()
      modifies this, pool
      ensures area.dirs == old(area.dirs)
      ensures View() == Settle(old(View()), Clear(Accounts(old(View())))).(dirs := area.dirs)
    {
      if publication.Some? { publication := Some(publication.value.(pending := false)); }
      ReleaseReservation();
      transferDirectory := NoPath;
    }

    /** Acts only on the path on record. If that is the empty path, what is reserved goes all the same. */
    method RemoveStaging(directory: Path, removable: bool) returns (failed: bool)
      modifies this, pool, area
      ensures View() == L.RemoveStaging(old(View()), directory, removable)
      ensures failed == RemoveFails(old(Fields()), directory, removable)
    {
      if directory != transferDirectory { return false; }
      if directory != NoPath {
        failed := area.Remove(directory, removable);
        if failed { return; }
      }
      failed := false;
      DropHoldings();
      assert View() == Settle(old(View()), Clear(Accounts(old(View()))));
      ReleaseAbortedDestination();
      if state == Committed || state == Aborted {
        var _ := TryClearDescriptor();
      }
    }

    method CleanupTransfer(removable: bool) returns (failed: bool)
      modifies this, pool, area
      ensures View() == L.CleanupTransfer(old(View()), removable)
      ensures failed == CleanupFails(old(Fields()), removable)
    {
      failed := false;
      if HasPendingCleanup() { failed := RemoveStaging(transferDirectory, removable); }
    }

    method ExpireTransfer(now: Time) returns (was: bool)
      modifies this, pool
      ensures View() == L.ExpireTransfer(old(View()), now)
      ensures was == L.Expired(old(Fields()), now)
    {
      if !Expired(now) { return false; }
      transferExpired := true;
      CancelWork();
      SetState(Aborting);
      return true;
    }
  }
}
