/**
 Cancellation scopes: a growing graph of stop states, forwarding callbacks from
 parents to children, and handles that come and go. A scope made by `ChildOf`
 or `Join` registers with its parents; the registration lives as long as some
 handle below it does, whatever becomes of the handles in between.
 */
module Cancellations {
  /** A deadline; `Never` is the greatest time point of the clock. */
  datatype Instant = At(time: int) | Never

  datatype Option<+T> = None | Some(value: T)

  datatype Reason = DeadlineExceeded | Cancelled

  /** A handle names a stop state; deadline views share it. */
  datatype Handle = Handle(node: nat, deadline: Instant)

  type Parents = seq<seq<nat>>

  function Earlier(a: Instant, b: Instant): (r: Instant)
    ensures r == a || r == b
  {
    if a.Never? then b else if b.Never? || a.time <= b.time then a else b
  }

  predicate Reached(deadline: Instant, now: int) {
    deadline.At? && now >= deadline.time
  }

  /** The least of the given times. */
  ghost predicate IsLeast(deadline: Instant, times: set<int>) {
    match deadline
    case Never => times == {}
    case At(t) => t in times && forall x | x in times :: t <= x
  }

  ghost predicate Before(now: int, times: set<int>) {
    forall t | t in times :: now < t
  }

  ghost function Elements(s: seq<nat>): set<nat> {
    set n | n in s
  }

  // The graph.

  /** Scopes are made after their parents. */
  predicate WellFormed(parents: Parents) {
    forall n | 0 <= n < |parents| :: |parents[n]| <= 2 && forall i | 0 <= i < |parents[n]| :: parents[n][i] < n
  }

  /** `a` is `n` or an ancestor of `n`. */
  predicate Above(parents: Parents, a: nat, n: nat)
    requires WellFormed(parents) && n < |parents|
    decreases n
  {
    a == n || exists i | 0 <= i < |parents[n]| :: Above(parents, a, parents[n][i])
  }

  lemma {:induction false} AboveIsOlder(parents: Parents, a: nat, n: nat)
    requires WellFormed(parents) && n < |parents| && Above(parents, a, n)
    ensures a <= n
    decreases n
  {
    if a != n {
      var i :| 0 <= i < |parents[n]| && Above(parents, a, parents[n][i]);
      AboveIsOlder(parents, a, parents[n][i]);
    }
  }

  lemma {:induction false} AboveIsTransitive(parents: Parents, a: nat, m: nat, n: nat)
    requires WellFormed(parents) && m < |parents| && n < |parents| && Above(parents, a, m) && Above(parents, m, n)
    ensures Above(parents, a, n)
    decreases n
  {
    if m != n {
      var i :| 0 <= i < |parents[n]| && Above(parents, m, parents[n][i]);
      AboveIsTransitive(parents, a, m, parents[n][i]);
    }
  }

  lemma {:induction false} AboveIsStable(parents: Parents, links: seq<nat>, a: nat, n: nat)
    requires WellFormed(parents) && WellFormed(parents + [links]) && n < |parents|
    ensures Above(parents + [links], a, n) <==> Above(parents, a, n)
    decreases n
  {
    forall i | 0 <= i < |parents[n]| ensures Above(parents + [links], a, parents[n][i]) <==> Above(parents, a, parents[n][i]) {
      AboveIsStable(parents, links, a, parents[n][i]);
    }
    assert (parents + [links])[n] == parents[n];
  }

  /** Some handle or some retained child keeps the links of `n`. */
  predicate InUse(parents: Parents, handles: map<nat, Handle>, retained: set<nat>, n: nat) {
    (exists h | h in handles :: handles[h].node == n) || exists c | 0 <= c < |parents| :: c in retained && n in parents[c]
  }

  ghost predicate CountedBut(parents: Parents, handles: map<nat, Handle>, retained: set<nat>, open: set<nat>) {
    && (forall n | n in retained :: n < |parents|)
    && (forall n | 0 <= n < |parents| && InUse(parents, handles, retained, n) :: n in retained)
    && (forall n {:trigger InUse(parents, handles, retained, n)} | n in retained && n !in open :: InUse(parents, handles, retained, n))
  }

  /** A retained scope has stopped if a parent has, except for parents whose callbacks are still running. */
  ghost predicate Forwarded(parents: Parents, retained: set<nat>, stopped: set<nat>, running: set<nat>) {
    forall c, i | c in retained && 0 <= c < |parents| && 0 <= i < |parents[c]| && parents[c][i] in stopped && parents[c][i] !in running ::
      c in stopped
  }

  /** The scope or one of its ancestors was cancelled. */
  ghost predicate RequestedAbove(parents: Parents, requested: set<nat>, n: nat)
    requires WellFormed(parents) && n < |parents|
  {
    exists a | a in requested :: Above(parents, a, n)
  }

  /** Whatever has stopped, an explicit request is the cause. */
  ghost predicate Caused(parents: Parents, stopped: set<nat>, requested: set<nat>)
    requires WellFormed(parents)
  {
    && (forall n | n in stopped :: n < |parents|)
    && (forall n {:trigger RequestedAbove(parents, requested, n)} | n in stopped :: RequestedAbove(parents, requested, n))
  }

  lemma {:induction false} RequestArrives(parents: Parents, handles: map<nat, Handle>, retained: set<nat>, stopped: set<nat>, a: nat, n: nat)
    requires WellFormed(parents) && CountedBut(parents, handles, retained, {}) && Forwarded(parents, retained, stopped, {})
    requires n in retained && a in stopped && Above(parents, a, n)
    ensures n in stopped
    decreases n
  {
    if a != n {
      var i :| 0 <= i < |parents[n]| && Above(parents, a, parents[n][i]);
      assert parents[n][i] in parents[n] && InUse(parents, handles, retained, parents[n][i]);
      RequestArrives(parents, handles, retained, stopped, a, parents[n][i]);
    }
  }

  /**
   A scope that is still in use has stopped exactly if it or one of its ancestors was cancelled,
   whether or not any handle to the scopes in between is left.
   */
  lemma StoppedIffRequestedAbove(parents: Parents, handles: map<nat, Handle>, retained: set<nat>, stopped: set<nat>, requested: set<nat>, n: nat)
    requires WellFormed(parents) && CountedBut(parents, handles, retained, {}) && Forwarded(parents, retained, stopped, {})
    requires Caused(parents, stopped, requested) && requested <= stopped
    requires n in retained
    ensures n in stopped <==> RequestedAbove(parents, requested, n)
  {
    if a :| a in requested && Above(parents, a, n) {
      RequestArrives(parents, handles, retained, stopped, a, n);
    }
  }

  lemma {:induction false} AncestorsAreRetained(parents: Parents, handles: map<nat, Handle>, retained: set<nat>, a: nat, n: nat)
    requires WellFormed(parents) && CountedBut(parents, handles, retained, {}) && n in retained && Above(parents, a, n)
    ensures a in retained
    decreases n
  {
    if a != n {
      var i :| 0 <= i < |parents[n]| && Above(parents, a, parents[n][i]);
      assert parents[n][i] in parents[n] && InUse(parents, handles, retained, parents[n][i]);
      AncestorsAreRetained(parents, handles, retained, a, parents[n][i]);
    }
  }

  /** Links are kept for exactly the scopes with a handle at or below them. */
  lemma {:induction false} RetainedIffAboveAHandle(parents: Parents, handles: map<nat, Handle>, retained: set<nat>, n: nat)
    requires WellFormed(parents) && CountedBut(parents, handles, retained, {}) && n < |parents|
    requires forall h | h in handles :: handles[h].node < |parents|
    ensures n in retained <==> exists h | h in handles :: Above(parents, n, handles[h].node)
    decreases |parents| - n
  {
    if h :| h in handles && Above(parents, n, handles[h].node) {
      assert InUse(parents, handles, retained, handles[h].node);
      AncestorsAreRetained(parents, handles, retained, n, handles[h].node);
    }
    if n in retained {
      assert InUse(parents, handles, retained, n);
      if c :| 0 <= c < |parents| && c in retained && n in parents[c] {
        RetainedIffAboveAHandle(parents, handles, retained, c);
        var h :| h in handles && Above(parents, c, handles[h].node);
        AboveIsTransitive(parents, n, c, handles[h].node);
      } else {
        var h :| h in handles && handles[h].node == n;
        assert Above(parents, n, handles[h].node);
      }
    }
  }

  lemma CausedByRequest(parents: Parents, before: set<nat>, stopped: set<nat>, requested: set<nat>, n: nat)
    requires WellFormed(parents) && Caused(parents, before, requested)
    requires forall m | m in stopped && m !in before :: m < |parents| && Above(parents, n, m)
    ensures Caused(parents, stopped, requested + {n})
  {
    forall m | m in stopped ensures m < |parents| && RequestedAbove(parents, requested + {n}, m) {
      if m in before {
        assert RequestedAbove(parents, requested, m);
        var a :| a in requested && Above(parents, a, m);
        assert a in requested + {n};
      } else {
        assert n in requested + {n};
      }
    }
  }

  ghost predicate Consistent(parents: Parents, stopped: set<nat>, retained: set<nat>, requested: set<nat>) {
    && WellFormed(parents) && Forwarded(parents, retained, stopped, {})
    && Caused(parents, stopped, requested) && requested <= stopped
  }

  ghost predicate HandlesFit(parents: Parents, handles: map<nat, Handle>, retained: set<nat>, issued: nat, given: map<nat, set<int>>) {
    && CountedBut(parents, handles, retained, {})
    && (forall h | h in handles :: h < issued && handles[h].node < |parents|)
    && handles.Keys == given.Keys && forall h | h in handles :: IsLeast(handles[h].deadline, given[h])
  }

  class Scopes {
    var parents: Parents
    var stopped: set<nat>
    var retained: set<nat>
    var handles: map<nat, Handle>
    var issued: nat

    /** The scopes on which `Cancel` was called, and for each handle the deadlines it was derived from. */
    ghost var requested: set<nat>
    ghost var given: map<nat, set<int>>

    ghost predicate Valid()
      reads this
    {
      Consistent(parents, stopped, retained, requested) && HandlesFit(parents, handles, retained, issued, given)
    }

    constructor ()
      ensures Valid() && handles == map[] && requested == {}
    {
      parents, stopped, retained, handles, issued := [], {}, {}, map[], 0;
      requested, given := {}, map[];
    }

    /** `request_stop` on a stop state: the first request runs the callbacks registered with it. */
    method RequestStop(n: nat, ghost running: set<nat>)
      requires WellFormed(parents) && n < |parents| && Forwarded(parents, retained, stopped, running)
      modifies this`stopped
      ensures n in stopped && old(stopped) <= stopped && Forwarded(parents, retained, stopped, running)
      ensures forall m | m in stopped && m !in old(stopped) :: m < |parents| && Above(parents, n, m)
      decreases |parents| - n
    {
      if n in stopped { return; }
      stopped := stopped + {n};
      for c := n + 1 to |parents|
        invariant n in stopped && old(stopped) <= stopped && Forwarded(parents, retained, stopped, running + {n})
        invariant forall m | m in stopped && m !in old(stopped) :: m < |parents| && Above(parents, n, m)
        invariant forall k | n < k < c && k in retained && n in parents[k] :: k in stopped
      {
        if c in retained && n in parents[c] {
          ghost var before := stopped;
          RequestStop(c, running + {n});
          assert Above(parents, n, c);
          forall m | m in stopped && m !in before ensures Above(parents, n, m) {
            AboveIsTransitive(parents, n, c, m);
          }
        }
      }
    }

    /** Stops the scope and everything below it that is still in use; nothing above it and nothing beside it. */
    method Cancel(h: nat)
      requires Valid() && h in handles
      modifies this`stopped, this`requested
      ensures Valid() && requested == old(requested) + {handles[h].node}
      ensures forall m | m in retained ::
                m in stopped <==> m in old(stopped) || Above(parents, handles[h].node, m)
      ensures forall m | m in stopped && m !in old(stopped) :: m < |parents| && Above(parents, handles[h].node, m)
    {
      var n := handles[h].node;
      RequestStop(n, {});
      CausedByRequest(parents, old(stopped), stopped, requested, n);
      requested := requested + {n};
      forall m | m in retained && Above(parents, n, m) ensures m in stopped {
        RequestArrives(parents, handles, retained, stopped, n, m);
      }
    }

    /** A new handle to an existing stop state. */
    method Issue(n: nat, deadline: Instant, ghost times: set<int>) returns (h: nat)
      requires Valid() && n in retained && IsLeast(deadline, times)
      modifies this`handles, this`issued, this`given
      ensures Valid() && h == old(issued) && issued == h + 1 && h !in old(handles)
      ensures handles == old(handles)[h := Handle(n, deadline)] && given == old(given)[h := times]
    {
      h := issued;
      handles := handles[h := Handle(n, deadline)];
      given := given[h := times];
      issued := issued + 1;
      CountedWithHandle(parents, old(handles), retained, h, Handle(n, deadline));
    }

    /** A new stop state registered with its parents; a parent that has stopped stops it at once. */
    method NewScope(links: seq<nat>, deadline: Instant, ghost times: set<int>) returns (h: nat)
      requires Valid() && |links| <= 2 && (forall p | p in links :: p in retained) && IsLeast(deadline, times)
      modifies this`parents, this`stopped, this`retained, this`handles, this`issued, this`given
      ensures Valid() && h == old(issued) && issued == h + 1 && h !in old(handles)
      ensures parents == old(parents) + [links] && retained == old(retained) + {|old(parents)|}
      ensures stopped == if exists p | p in links :: p in old(stopped) then old(stopped) + {|old(parents)|} else old(stopped)
      ensures handles == old(handles)[h := Handle(|old(parents)|, deadline)] && given == old(given)[h := times]
    {
      var n := |parents|;
      ConsistentWithScope(parents, stopped, retained, requested, links);
      CountedWithScope(parents, handles, retained, links, issued, Handle(n, deadline));
      h := issued;
      parents := parents + [links];
      handles := handles[h := Handle(n, deadline)];
      given := given[h := times];
      issued := issued + 1;
      retained := retained + {n};
      if exists p | p in links :: p in stopped { stopped := stopped + {n}; }
    }

    /** A root scope. */
    method Root(deadline: Instant) returns (h: nat)
      requires Valid()
      modifies this`parents, this`stopped, this`retained, this`handles, this`issued, this`given
      ensures Valid() && parents == old(parents) + [[]] && stopped == old(stopped)
      ensures handles == old(handles)[h := Handle(|old(parents)|, deadline)] && h !in old(handles)
    {
      h := NewScope([], deadline, if deadline.At? then {deadline.time} else {});
    }

    method ChildOf(parent: nat) returns (h: nat)
      requires Valid() && parent in handles
      modifies this`parents, this`stopped, this`retained, this`handles, this`issued, this`given
      ensures Valid() && parents == old(parents) + [[old(handles[parent].node)]]
      ensures stopped == old(stopped) + if old(handles[parent].node) in old(stopped) then {|old(parents)|} else {}
      ensures handles == old(handles)[h := Handle(|old(parents)|, old(handles[parent].deadline))] && h !in old(handles)
      ensures given == old(given)[h := old(given)[parent]]
    {
      assert InUse(parents, handles, retained, handles[parent].node);
      h := NewScope([handles[parent].node], Earlier(handles[parent].deadline, Never), given[parent]);
    }

    method Join(first: nat, second: nat) returns (h: nat)
      requires Valid() && first in handles && second in handles
      modifies this`parents, this`stopped, this`retained, this`handles, this`issued, this`given
      ensures Valid() && parents == old(parents) + [[old(handles[first].node), old(handles[second].node)]]
      ensures stopped == old(stopped) +
                if old(handles[first].node) in old(stopped) || old(handles[second].node) in old(stopped) then {|old(parents)|} else {}
      ensures h !in old(handles) && given == old(given)[h := old(given)[first] + old(given)[second]]
      ensures handles == old(handles)[h := Handle(|old(parents)|, Earlier(old(handles[first].deadline), old(handles[second].deadline)))]
    {
      assert InUse(parents, handles, retained, handles[first].node);
      assert InUse(parents, handles, retained, handles[second].node);
      h := NewScope([handles[first].node, handles[second].node], Earlier(handles[first].deadline, handles[second].deadline), given[first] + given[second]);
    }

    /** A view that shares the stop state; its deadline is never later. */
    method WithDeadline(parent: nat, deadline: int) returns (h: nat)
      requires Valid() && parent in handles
      modifies this`handles, this`issued, this`given
      ensures Valid() && h !in old(handles) && given == old(given)[h := old(given)[parent] + {deadline}]
      ensures handles == old(handles)[h := Handle(old(handles[parent].node), Earlier(old(handles[parent].deadline), At(deadline)))]
    {
      assert InUse(parents, handles, retained, handles[parent].node);
      h := Issue(handles[parent].node, Earlier(handles[parent].deadline, At(deadline)), given[parent] + {deadline});
    }

    /** Drops the links of a scope nobody uses, then lets go of those of its parents. */
    method Release(n: nat, ghost open: set<nat>)
      requires WellFormed(parents) && CountedBut(parents, handles, retained, open)
      modifies this`retained
      ensures CountedBut(parents, handles, retained, open - {n}) && retained <= old(retained)
      decreases n
    {
      if n !in retained || InUse(parents, handles, retained, n) { return; }
      retained := retained - {n};
      Unlinked(parents, handles, old(retained), n, open);
      var links := parents[n];
      for i := 0 to |links|
        invariant retained <= old(retained)
        invariant CountedBut(parents, handles, retained, open - {n} + Elements(links[i..]))
      {
        ghost var rest := open - {n} + Elements(links[i..]);
        Release(links[i], rest);
        assert rest - {links[i]} <= open - {n} + Elements(links[i + 1..]);
      }
      assert open - {n} + Elements(links[|links|..]) == open - {n};
    }

    /** The handle goes out of scope; links that nobody needs any more go with it. */
    method Drop(h: nat)
      requires Valid() && h in handles
      modifies this`handles, this`given, this`retained
      ensures Valid() && handles == old(handles) - {h} && retained <= old(retained)
    {
      var n := handles[h].node;
      handles := handles - {h};
      given := given - {h};
      CountedWithoutHandle(parents, old(handles), retained, h);
      Release(n, {n});
      assert {n} - {n} == {};
    }

    /** Why the work under this handle must stop, if it must; the deadline is checked first. */
    method WhyStopped(h: nat, now: int, fatal: bool) returns (reason: Option<Reason>)
      requires Valid() && h in handles
      ensures reason == Some(DeadlineExceeded) <==> !Before(now, given[h])
      ensures reason == Some(Cancelled) <==>
                Before(now, given[h]) && (fatal || RequestedAbove(parents, requested, handles[h].node))
    {
      assert InUse(parents, handles, retained, handles[h].node);
      StoppedIffRequestedAbove(parents, handles, retained, stopped, requested, handles[h].node);
      if Reached(handles[h].deadline, now) { return Some(DeadlineExceeded); }
      if fatal || handles[h].node in stopped { return Some(Cancelled); }
      return None;
    }
  }

  lemma CountedWithHandle(parents: Parents, handles: map<nat, Handle>, retained: set<nat>, h: nat, handle: Handle)
    requires CountedBut(parents, handles, retained, {}) && handle.node in retained && h !in handles
    ensures CountedBut(parents, handles[h := handle], retained, {})
  {
    var after := handles[h := handle];
    forall n | n in retained ensures InUse(parents, after, retained, n) {
      assert InUse(parents, handles, retained, n);
      if k :| k in handles && handles[k].node == n { assert after[k].node == n; }
    }
    forall n | 0 <= n < |parents| && InUse(parents, after, retained, n) ensures n in retained {
      if n != handle.node { assert InUse(parents, handles, retained, n); }
    }
  }

  lemma CountedWithoutHandle(parents: Parents, handles: map<nat, Handle>, retained: set<nat>, h: nat)
    requires CountedBut(parents, handles, retained, {}) && h in handles
    ensures CountedBut(parents, handles - {h}, retained, {handles[h].node})
  {
    var after := handles - {h};
    forall n | n in retained && n != handles[h].node ensures InUse(parents, after, retained, n) {
      assert InUse(parents, handles, retained, n);
      if k :| k in handles && handles[k].node == n { assert after[k].node == n; }
    }
    forall n | 0 <= n < |parents| && InUse(parents, after, retained, n) ensures n in retained {
      assert InUse(parents, handles, retained, n);
    }
  }

  lemma CountedWithScope(parents: Parents, handles: map<nat, Handle>, retained: set<nat>, links: seq<nat>, h: nat, handle: Handle)
    requires CountedBut(parents, handles, retained, {}) && h !in handles && handle.node == |parents|
    requires forall p | p in links :: p in retained
    ensures CountedBut(parents + [links], handles[h := handle], retained + {|parents|}, {})
  {
    var all, after, kept := parents + [links], handles[h := handle], retained + {|parents|};
    forall n | n in kept ensures InUse(all, after, kept, n) {
      if n == |parents| {
        assert after[h].node == n;
      } else {
        assert InUse(parents, handles, retained, n);
        if k :| k in handles && handles[k].node == n {
          assert after[k].node == n;
        } else {
          var c :| 0 <= c < |parents| && c in retained && n in parents[c];
          assert all[c] == parents[c];
        }
      }
    }
    forall n | 0 <= n < |all| && InUse(all, after, kept, n) ensures n in kept {
      if n < |parents| && n !in links { assert InUse(parents, handles, retained, n); }
    }
  }

  function StoppedWithScope(parents: Parents, stopped: set<nat>, links: seq<nat>): set<nat> {
    if exists p | p in links :: p in stopped then stopped + {|parents|} else stopped
  }

  lemma ConsistentWithScope(parents: Parents, stopped: set<nat>, retained: set<nat>, requested: set<nat>, links: seq<nat>)
    requires Consistent(parents, stopped, retained, requested) && |links| <= 2
    requires forall p | p in links :: p < |parents|
    ensures Consistent(parents + [links], StoppedWithScope(parents, stopped, links), retained + {|parents|}, requested)
  {
    assert forall i | 0 <= i < |links| :: links[i] in links;
    CausedWithScope(parents, stopped, requested, links, StoppedWithScope(parents, stopped, links));
    ForwardedWithScope(parents, retained, stopped, links, StoppedWithScope(parents, stopped, links));
  }

  lemma ForwardedWithScope(parents: Parents, retained: set<nat>, stopped: set<nat>, links: seq<nat>, after: set<nat>)
    requires WellFormed(parents + [links]) && Forwarded(parents, retained, stopped, {})
    requires after == if exists p | p in links :: p in stopped then stopped + {|parents|} else stopped
    ensures Forwarded(parents + [links], retained + {|parents|}, after, {})
  {
    var all := parents + [links];
    forall c, i | c in retained + {|parents|} && 0 <= c < |all| && 0 <= i < |all[c]| && all[c][i] in after ensures c in after {
      if c < |parents| {
        assert all[c] == parents[c] && parents[c][i] in stopped;
      } else {
        assert links[i] in links;
      }
    }
  }

  lemma CausedWithScope(parents: Parents, stopped: set<nat>, requested: set<nat>, links: seq<nat>, after: set<nat>)
    requires WellFormed(parents) && WellFormed(parents + [links]) && Caused(parents, stopped, requested)
    requires after == if exists p | p in links :: p in stopped then stopped + {|parents|} else stopped
    ensures Caused(parents + [links], after, requested)
  {
    var all := parents + [links];
    forall n | n in after ensures n < |all| && RequestedAbove(all, requested, n) {
      var m := n;
      if n == |parents| { m :| m in links && m in stopped; }
      assert RequestedAbove(parents, requested, m);
      var a :| a in requested && Above(parents, a, m);
      AboveIsStable(parents, links, a, m);
      if n == |parents| {
        var i :| 0 <= i < |links| && links[i] == m;
        assert Above(all, a, all[n][i]);
      }
    }
  }

  /** Once nobody uses a scope, only its parents may have lost a user by letting go of it. */
  lemma Unlinked(parents: Parents, handles: map<nat, Handle>, retained: set<nat>, n: nat, open: set<nat>)
    requires CountedBut(parents, handles, retained, open) && n in retained && !InUse(parents, handles, retained, n)
    ensures CountedBut(parents, handles, retained - {n}, open - {n} + Elements(parents[n]))
  {
    forall m | m in retained && m != n && m !in open && m !in parents[n] ensures InUse(parents, handles, retained - {n}, m) {
      assert InUse(parents, handles, retained, m);
    }
    forall m | 0 <= m < |parents| && InUse(parents, handles, retained - {n}, m) ensures m in retained - {n} {
      assert InUse(parents, handles, retained, m);
    }
  }
}
