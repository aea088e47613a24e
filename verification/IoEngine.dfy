/**
 The slot engine over NIXL: one request per buffer slot, one file at a time.
 What the agent answers and what the clock shows are arguments. A request that
 does not drain, or anything that cannot be released, is fatal: the process
 never gets past that point.
 */
module IoEngine {
  datatype Option<+T> = None | Some(value: T)

  datatype Status = Success | InProgress | Failed(code: int)

  datatype Error = OutOfRange | FileAlreadyOpen | NotReady | RegisterFailed | CreateFailed | PostFailed(code: int) | TransferFailed(code: int)

  datatype Outcome = Returned | Threw(error: Error) | Fatal

  datatype Operation = Read | Write

  datatype Request = Request(handle: Option<nat>, status: Status, deadline: int)

  /** One turn of the polling loop: the agent's answer, an injected stall, and the clock. */
  datatype Poll = Poll(status: Status, stall: bool, now: int)

  /** Memory given back to the operating system while the listed slots held a request. */
  datatype Event = FileReleased(holding: set<nat>) | BuffersReleased(holding: set<nat>)

  const REQUEST_TIMEOUT := 240_000_000_000

  function Seen(poll: Poll): Status {
    if poll.stall && poll.status == Success then InProgress else poll.status
  }

  /** The status that ends the polling; none if the deadline passes first. */
  function Drained(status: Status, deadline: int, polls: seq<Poll>): (r: Option<Status>)
    ensures r != Some(InProgress)
    decreases |polls|
  {
    if status != InProgress then Some(status) else
    if polls == [] || (Seen(polls[0]) == InProgress && polls[0].now >= deadline) then None else
    Drained(Seen(polls[0]), deadline, polls[1..])
  }

  /** Time passes: the polls go on until the deadline. */
  predicate Elapses(request: Request, polls: seq<Poll>) {
    request.handle.Some? && request.status == InProgress ==> polls != [] && polls[|polls| - 1].now >= request.deadline
  }

  /** How waiting for one request ends. */
  function Waited(request: Request, polls: seq<Poll>, released: bool): Outcome {
    if request.handle.None? then Returned else
    var end := Drained(request.status, request.deadline, polls);
    if end.None? || !released then Fatal else
    if end.value == Success then Returned else Threw(TransferFailed(Code(end.value)))
  }

  /** The poll brings that status: an injected stall hides a success. */
  predicate Brings(poll: Poll, status: Status) {
    status != InProgress && poll.status == status && !(poll.stall && status == Success)
  }

  predicate GoesOn(poll: Poll, deadline: int) {
    (poll.status == InProgress || (poll.stall && poll.status == Success)) && poll.now < deadline
  }

  /** The request ends in that status: it was over from the start, or the first poll to bring one, in time, brings it. */
  ghost predicate EndsIn(status: Status, deadline: int, polls: seq<Poll>, end: Status) {
    if status != InProgress then end == status else
    exists k | 0 <= k < |polls| :: Brings(polls[k], end) && forall j | 0 <= j < k :: GoesOn(polls[j], deadline)
  }

  /** How waiting ends: well, with the request's own failure, or fatally if it does not end or cannot be released. */
  ghost predicate WaitEnds(request: Request, polls: seq<Poll>, released: bool, outcome: Outcome) {
    if request.handle.None? then outcome == Returned else
    && (outcome == Returned <==> released && EndsIn(request.status, request.deadline, polls, Success))
    && (forall code :: outcome == Threw(TransferFailed(code)) <==> released && EndsIn(request.status, request.deadline, polls, Failed(code)))
    && (outcome.Threw? ==> outcome.error.TransferFailed?)
  }

  /** How waiting for each slot ends. */
  ghost predicate SlotsEnd(requests: seq<Request>, polls: seq<seq<Poll>>, released: seq<bool>, ends: seq<Outcome>) {
    && |requests| == |polls| == |released| == |ends|
    && forall i | 0 <= i < |requests| :: WaitEnds(requests[i], polls[i], released[i], ends[i])
  }

  /** The outcome of the lowest slot that fails. */
  ghost predicate FirstFailure(ends: seq<Outcome>, outcome: Outcome) {
    exists i | 0 <= i < |ends| :: ends[i] == outcome && outcome.Threw? && forall j | 0 <= j < i :: ends[j] == Returned
  }

  lemma FailureStays(ends: seq<Outcome>, n: nat, outcome: Outcome)
    requires n < |ends| && FirstFailure(ends[..n], outcome)
    ensures FirstFailure(ends[..n + 1], outcome)
  {
    var i :| 0 <= i < n && ends[..n][i] == outcome && forall j | 0 <= j < i :: ends[..n][j] == Returned;
    assert ends[..n + 1][i] == outcome;
    assert forall j | 0 <= j < i :: ends[..n + 1][j] == ends[..n][j];
  }

  function Code(status: Status): int {
    if status.Failed? then status.code else 0
  }

  /** Polling ends with a status exactly if the first poll to bring one brings that one, and no earlier poll found the deadline passed. */
  lemma {:induction false} DrainedMeaning(status: Status, deadline: int, polls: seq<Poll>, end: Status)
    ensures Drained(status, deadline, polls) == Some(end) <==> EndsIn(status, deadline, polls, end)
    decreases |polls|
  {
    if status == InProgress && polls != [] {
      var rest := polls[1..];
      if Seen(polls[0]) == InProgress {
        if polls[0].now < deadline {
          DrainedMeaning(InProgress, deadline, rest, end);
          EndsLater(deadline, polls, end);
        }
      } else {
        DrainedMeaning(Seen(polls[0]), deadline, rest, end);
        assert Brings(polls[0], Seen(polls[0]));
      }
    }
  }

  lemma EndsLater(deadline: int, polls: seq<Poll>, end: Status)
    requires polls != [] && GoesOn(polls[0], deadline)
    ensures EndsIn(InProgress, deadline, polls, end) <==> EndsIn(InProgress, deadline, polls[1..], end)
  {
    var rest := polls[1..];
    if k :| 0 <= k < |rest| && Brings(rest[k], end) && forall j | 0 <= j < k :: GoesOn(rest[j], deadline) {
      assert Brings(polls[k + 1], end);
      assert forall j | 0 < j < k + 1 :: polls[j] == rest[j - 1];
    }
    if k :| 0 <= k < |polls| && Brings(polls[k], end) && forall j | 0 <= j < k :: GoesOn(polls[j], deadline) {
      assert Brings(rest[k - 1], end);
      assert forall j | 0 <= j < k - 1 :: rest[j] == polls[j + 1];
    }
  }

  ghost function Ends(requests: seq<Request>, polls: seq<seq<Poll>>, released: seq<bool>): (r: seq<Outcome>)
    requires |requests| == |polls| == |released|
    ensures |r| == |requests|
  {
    seq(|requests|, i requires 0 <= i < |requests| => Waited(requests[i], polls[i], released[i]))
  }

  lemma EndsMeaning(requests: seq<Request>, polls: seq<seq<Poll>>, released: seq<bool>)
    requires |requests| == |polls| == |released|
    ensures SlotsEnd(requests, polls, released, Ends(requests, polls, released))
  {
    forall i | 0 <= i < |requests| ensures WaitEnds(requests[i], polls[i], released[i], Ends(requests, polls, released)[i]) {
      WaitedMeaning(requests[i], polls[i], released[i], Waited(requests[i], polls[i], released[i]));
    }
  }

  /** Waiting ends as the polls say, in exactly one way. */
  lemma WaitedMeaning(request: Request, polls: seq<Poll>, released: bool, outcome: Outcome)
    ensures WaitEnds(request, polls, released, outcome) <==> outcome == Waited(request, polls, released)
  {
    var status, deadline := request.status, request.deadline;
    DrainedMeaning(status, deadline, polls, Success);
    forall code ensures Drained(status, deadline, polls) == Some(Failed(code)) <==> EndsIn(status, deadline, polls, Failed(code)) {
      DrainedMeaning(status, deadline, polls, Failed(code));
    }
  }

  class Engine {
    const requests: array<Request>
    var descriptor: Option<int>
    var nextHandle: nat
    ghost var log: seq<Event>

    ghost predicate Valid()
      reads this
    {
      forall i | 0 <= i < |log| :: log[i].holding == {}
    }

    ghost function Holding(): set<nat>
      reads requests
    {
      set i | 0 <= i < requests.Length && requests[i].handle.Some?
    }

    constructor (slots: nat)
      ensures Valid() && fresh(requests) && requests.Length == slots && Holding() == {} && descriptor == None && log == []
    {
      requests := new Request[slots](_ => Request(None, Success, 0));
      descriptor, nextHandle, log := None, 0, [];
    }

    method Open(file: int, registered: bool) returns (outcome: Outcome)
      requires Valid()
      modifies this`descriptor
      ensures outcome == if old(descriptor).Some? then Threw(FileAlreadyOpen) else if !registered then Threw(RegisterFailed) else Returned
      ensures descriptor == if outcome == Returned then Some(file) else old(descriptor)
    {
      if descriptor.Some? { return Threw(FileAlreadyOpen); }
      if !registered { return Threw(RegisterFailed); }
      descriptor := Some(file);
      return Returned;
    }

    /**
     Posts a request in a free slot. A request that was created stays in its slot even if posting
     it fails, so that it is drained and released like any other.
     */
    method Submit(slot: nat, operation: Operation, now: int, created: bool, posted: Status, stall: bool) returns (outcome: Outcome)
      requires Valid()
      modifies requests, this`nextHandle
      ensures slot >= requests.Length ==> outcome == Threw(OutOfRange)
      ensures slot < requests.Length && (old(requests[slot]).handle.Some? || descriptor.None?) ==> outcome == Threw(NotReady)
      ensures forall i | 0 <= i < requests.Length && i != slot :: requests[i] == old(requests[i])
      ensures slot < requests.Length ==>
                if outcome == Threw(NotReady) then requests[slot] == old(requests[slot]) else
                if !created then outcome == Threw(CreateFailed) && requests[slot].handle.None? else
                && requests[slot].handle.Some?
                && requests[slot].status == (if stall && posted == Success then InProgress else posted)
                && requests[slot].deadline == (if stall && !posted.Failed? then now else now + REQUEST_TIMEOUT)
                && outcome == if posted.Failed? then Threw(PostFailed(posted.code)) else Returned
    {
      if slot >= requests.Length { return Threw(OutOfRange); }
      if requests[slot].handle.Some? || descriptor.None? { return Threw(NotReady); }
      requests[slot] := requests[slot].(deadline := now + REQUEST_TIMEOUT);
      if !created { return Threw(CreateFailed); }
      requests[slot] := requests[slot].(handle := Some(nextHandle), status := posted);
      nextHandle := nextHandle + 1;
      if stall && !posted.Failed? {
        requests[slot] := requests[slot].(status := InProgress, deadline := now);
      }
      if requests[slot].status.Failed? { return Threw(PostFailed(requests[slot].status.code)); }
      return Returned;
    }

    /** Polls until the request has ended, then releases it; a failed request is released all the same. */
    method Wait(slot: nat, polls: seq<Poll>, released: bool) returns (outcome: Outcome)
      requires Valid() && (slot < requests.Length ==> Elapses(requests[slot], polls))
      modifies requests
      ensures slot >= requests.Length ==> outcome == Threw(OutOfRange)
      ensures slot < requests.Length ==> WaitEnds(old(requests[slot]), polls, released, outcome)
      ensures slot < requests.Length && outcome != Fatal ==> requests[slot].handle.None?
      ensures forall i | 0 <= i < requests.Length && i != slot :: requests[i] == old(requests[i])
    {
      if slot >= requests.Length { return Threw(OutOfRange); }
      if requests[slot].handle.None? { return Returned; }
      ghost var request := requests[slot];
      WaitedMeaning(request, polls, released, Waited(request, polls, released));
      var k := 0;
      while requests[slot].status == InProgress
        invariant 0 <= k <= |polls| && requests[slot] == request.(status := requests[slot].status)
        invariant Drained(requests[slot].status, request.deadline, polls[k..]) == Drained(request.status, request.deadline, polls)
        invariant requests[slot].status == InProgress ==> k < |polls|
        invariant forall i | 0 <= i < requests.Length && i != slot :: requests[i] == old(requests[i])
        decreases |polls| - k, requests[slot].status == InProgress
      {
        requests[slot] := requests[slot].(status := Seen(polls[k]));
        if requests[slot].status == InProgress && polls[k].now >= requests[slot].deadline { return Fatal; }
        assert polls[k..][1..] == polls[k + 1..];
        k := k + 1;
      }
      if !released { return Fatal; }
      requests[slot] := requests[slot].(handle := None);
      if requests[slot].status.Failed? { return Threw(TransferFailed(requests[slot].status.code)); }
      return Returned;
    }

    /**
     Waits for every slot, remembers the first failure, closes the file and only then reports that
     failure. Whichever slots fail, every slot is empty and the file closed afterwards.
     */
    method Close(polls: seq<seq<Poll>>, released: seq<bool>, unregistered: bool) returns (outcome: Outcome, ghost ends: seq<Outcome>)
      requires Valid() && |polls| == |released| == requests.Length
      requires forall i | 0 <= i < requests.Length :: Elapses(requests[i], polls[i])
      modifies this`descriptor, this`log, requests
      ensures Valid() && old(log) <= log
      ensures SlotsEnd(old(requests[..]), polls, released, ends)
      ensures outcome == Fatal <==> Fatal in ends || (old(descriptor).Some? && !unregistered)
      ensures outcome != Fatal ==> Holding() == {} && descriptor == None
      ensures outcome.Threw? ==> FirstFailure(ends, outcome)
      ensures outcome == Returned ==> forall end | end in ends :: end == Returned
    {
      ghost var before := requests[..];
      ends := Ends(before, polls, released);
      EndsMeaning(before, polls, released);
      var failure: Option<Error> := None;
      for slot := 0 to requests.Length
        invariant log == old(log) && descriptor == old(descriptor)
        invariant forall i | 0 <= i < slot :: requests[i].handle.None? && ends[i] != Fatal
        invariant forall i | slot <= i < requests.Length :: requests[i] == before[i]
        invariant failure.None? ==> forall i | 0 <= i < slot :: ends[i] == Returned
        invariant failure.Some? ==> FirstFailure(ends[..slot], Threw(failure.value))
      {
        assert Elapses(before[slot], polls[slot]);
        var result := Wait(slot, polls[slot], released[slot]);
        assert result == ends[slot] by { WaitedMeaning(before[slot], polls[slot], released[slot], result); }
        if result == Fatal { return Fatal, ends; }
        assert failure.Some? ==> FirstFailure(ends[..slot + 1], Threw(failure.value)) by {
          if failure.Some? { FailureStays(ends, slot, Threw(failure.value)); }
        }
        if result.Threw? && failure.None? {
          failure := Some(result.error);
          assert ends[..slot + 1][slot] == result;
        }
      }
      assert ends[..requests.Length] == ends;
      if descriptor.Some? {
        log := log + [FileReleased(Holding())];
        if !unregistered { return Fatal, ends; }
        descriptor := None;
      }
      if failure.Some? { return Threw(failure.value), ends; }
      return Returned, ends;
    }

    /** The destructor: the buffers go only after every request has drained, whatever failed on the way. */
    method Destroy(polls: seq<seq<Poll>>, released: seq<bool>, unregistered: bool, freed: bool) returns (outcome: Outcome, ghost ends: seq<Outcome>)
      requires Valid() && |polls| == |released| == requests.Length
      requires forall i | 0 <= i < requests.Length :: Elapses(requests[i], polls[i])
      modifies this`descriptor, this`log, requests
      ensures Valid() && !outcome.Threw?
      ensures outcome == Returned ==> log != [] && log[|log| - 1] == BuffersReleased({}) && descriptor == None
      ensures SlotsEnd(old(requests[..]), polls, released, ends)
      ensures outcome == Fatal <==> Fatal in ends || (old(descriptor).Some? && !unregistered) || !freed
    {
      var closed;
      closed, ends := Close(polls, released, unregistered);
      if closed == Fatal { return Fatal, ends; }
      log := log + [BuffersReleased(Holding())];
      if !freed { return Fatal, ends; }
      return Returned, ends;
    }
  }
}
