/**
 The reactor's loop when handlers do anything to the vector. Its reference is a queue: the head is
 called, and what its handler removes and adds is done to the rest. `CursorRightIff` says exactly
 which turns of the loop do that, and a loop all of whose turns do calls every entry once, in order,
 unless the entry is removed before its turn.
 */
module ReactorWalks {
  import opened Reactors
  import opened Sequences
  import opened Wrappers

  // ---------- Exactly when the cursor is right ----------

  /** The entries of `v` whose descriptors are not in `gone`. */
  function Survivors(v: seq<PollFd>, gone: set<int>): seq<PollFd> {
    if v == [] then []
    else if v[0].fd in gone then Survivors(v[1..], gone)
    else [v[0]] + Survivors(v[1..], gone)
  }

  /** How many entries of `v` have their descriptors in `gone`. */
  function CountIn(v: seq<PollFd>, gone: set<int>): nat {
    if v == [] then 0 else (if v[0].fd in gone then 1 else 0) + CountIn(v[1..], gone)
  }

  function RemovedBy(changes: seq<Change>): set<int> {
    set a | a in changes && a.Removing? :: a.fd
  }

  /** The entries a handler adds and does not remove again. */
  function Added(changes: seq<Change>): seq<PollFd> {
    if changes == [] then []
    else
      var rest := Added(changes[1..]);
      match changes[0]
      case Adding(fd, handler, flag) =>
        if fd in RemovedBy(changes[1..]) then rest else [PollFd(fd, flag, NO_EVENTS)] + rest
      case Removing(_) => rest
  }

  lemma {:induction false} SurvivorsJoin(a: seq<PollFd>, b: seq<PollFd>, gone: set<int>)
    ensures Survivors(a + b, gone) == Survivors(a, gone) + Survivors(b, gone)
  {
    if a == [] {
      assert a + b == b;
    } else {
      assert (a + b)[1..] == a[1..] + b;
      SurvivorsJoin(a[1..], b, gone);
    }
  }

  lemma {:induction false} SurvivorsCount(v: seq<PollFd>, gone: set<int>)
    ensures |Survivors(v, gone)| + CountIn(v, gone) == |v|
  {
    if v != [] {
      SurvivorsCount(v[1..], gone);
    }
  }

  lemma {:induction false} SurvivorsTwice(v: seq<PollFd>, fd: int, gone: set<int>)
    ensures Survivors(Without(v, fd), gone) == Survivors(v, gone + {fd})
  {
    if v != [] {
      SurvivorsTwice(v[1..], fd, gone);
      HeadTail(v[0], Without(v[1..], fd));
    }
  }

  /** Whatever a handler does, the entries it does not remove stay, in order, before those it adds. */
  lemma {:induction false} ChangesSplit(t: Table, changes: seq<Change>)
    ensures ChangedAll(t, changes).data == Survivors(t.data, RemovedBy(changes)) + Added(changes)
    decreases |changes|
  {
    var gone := RemovedBy(changes);
    if changes == [] {
      NoneGone(t.data, gone);
      ConcatEmpty(t.data);
    } else {
      var rest := RemovedBy(changes[1..]);
      SplitHead(changes);
      ChangesSplit(Changed(t, changes[0]), changes[1..]);
      match changes[0]
      case Adding(fd, handler, flag) =>
        var entry := PollFd(fd, flag, NO_EVENTS);
        assert gone == rest;
        SurvivorsJoin(t.data, [entry], gone);
        assert Survivors([entry], gone) == if fd in gone then [] else [entry];
        ConcatEmpty(Survivors(t.data, gone));
        Assoc(Survivors(t.data, gone), Survivors([entry], gone), Added(changes[1..]));
        ConcatEmpty(Added(changes[1..]));
      case Removing(fd) =>
        assert changes[0] in changes;
        assert gone == rest + {fd};
        SurvivorsTwice(t.data, fd, rest);
    }
  }

  /** What the changes of a handler last do to `f`. */
  function LastTo(changes: seq<Change>, f: int): (last: Option<Change>)
    ensures last.Some? ==> last.value.fd == f && last.value in changes
    ensures last.None? ==> forall c | c in changes :: c.fd != f
  {
    if changes == [] then None
    else
      var n := |changes| - 1;
      assert changes == changes[..n] + [changes[n]];
      if changes[n].fd == f then Some(changes[n]) else LastTo(changes[..n], f)
  }

  lemma {:induction false} ChangesJoin(t: Table, a: seq<Change>, b: seq<Change>)
    ensures ChangedAll(t, a + b) == ChangedAll(ChangedAll(t, a), b)
    decreases |a|
  {
    if a == [] {
      ConcatEmpty(b);
    } else {
      assert (a + b)[1..] == a[1..] + b;
      ChangesJoin(Changed(t, a[0]), a[1..], b);
    }
  }

  /**
   A descriptor is registered iff its last change added it, or nothing changed it and it was
   registered before; and its handler is the one added last, or the one it had.
   */
  lemma {:induction false} LastChangeCounts(t: Table, changes: seq<Change>, f: int)
    ensures var last, h := LastTo(changes, f), ChangedAll(t, changes).handlers;
            && (f in h <==> if last.None? then f in t.handlers else last.value.Adding?)
            && (f in h ==> h[f] == if last.None? then t.handlers[f] else last.value.handler)
    decreases |changes|
  {
    if changes != [] {
      var n := |changes| - 1;
      TakeDrop(changes, n);
      assert changes[n..] == [changes[n]];
      ChangesJoin(t, changes[..n], [changes[n]]);
      OneChange(ChangedAll(t, changes[..n]), changes[n]);
      LastChangeCounts(t, changes[..n], f);
    }
  }

  // ---------- The queue the loop should be ----------

  /** The entries still to be called, the handlers, and the calls made so far. */
  datatype Pending = Pending(queue: seq<PollFd>, handlers: map<int, nat>, calls: seq<HandlerCall>)

  /** What is left when the loop stands at `s`: nothing when the cursor is at the end or beyond. */
  function Left(s: Walk): Pending {
    Pending(if s.i <= |s.t.data| then s.t.data[s.i..] else [], s.t.handlers, s.calls)
  }

  ghost predicate AllHandled(p: Pending) {
    Handled(Table(p.queue, p.handlers))
  }

  /** What the handler of the head does. */
  function ChangesOf(b: Behaviour, p: Pending): seq<Change>
    requires p.queue != []
  {
    b(p.queue[0].fd, EventOf(p.queue[0].revents), |p.calls|)
  }

  /** The head is called, and its handler's changes are made to the rest. */
  ghost function Serve(b: Behaviour, p: Pending): (p': Pending)
    requires AllHandled(p) && p.queue != []
    ensures AllHandled(p')
  {
    var entry := p.queue[0];
    assert entry.fd in Fds(p.queue);
    assert Handled(Table(p.queue[1..], p.handlers)) by {
      SplitHead(p.queue);
      FdsJoin([entry], p.queue[1..]);
    }
    ChangesKeepHandled(Table(p.queue[1..], p.handlers), ChangesOf(b, p));
    var t := ChangedAll(Table(p.queue[1..], p.handlers), ChangesOf(b, p));
    Pending(t.data, t.handlers, p.calls + [HandlerCall(p.handlers[entry.fd], entry.fd, EventOf(entry.revents))])
  }

  ghost function ServeNext(b: Behaviour, p: Pending): (p': Pending)
    requires AllHandled(p)
    ensures AllHandled(p')
  {
    if p.queue == [] then p else Serve(b, p)
  }

  ghost function Served(b: Behaviour, p: Pending, n: nat): (p': Pending)
    requires AllHandled(p)
    ensures AllHandled(p')
  {
    if n == 0 then p else ServeNext(b, Served(b, p, n - 1))
  }

  lemma LeftIsHandled(s: Walk)
    requires Handled(s.t)
    ensures AllHandled(Left(s)) && (Over(s) <==> Left(s).queue == [])
  {
    if !Over(s) {
      TakeDrop(s.t.data, s.i);
      FdsJoin(s.t.data[..s.i], s.t.data[s.i..]);
    }
  }

  // ---------- Exactly when a turn of the loop is right ----------

  /** A turn of the loop leaves what serving the head leaves. */
  ghost predicate GoesOnRight(b: Behaviour, s: Walk)
    requires Handled(s.t) && !Over(s)
  {
    NotOverIsAtEntry(s);
    LeftIsHandled(s);
    Left(Turn(b, s)) == Serve(b, Left(s))
  }

  /** The map of handlers does not depend on the vector. */
  lemma {:induction false} HandlersApart(t: Table, u: Table, changes: seq<Change>)
    requires t.handlers == u.handlers
    ensures ChangedAll(t, changes).handlers == ChangedAll(u, changes).handlers
    decreases |changes|
  {
    if changes != [] {
      HandlersApart(Changed(t, changes[0]), Changed(u, changes[0]), changes[1..]);
    }
  }

  /** Only what is left in the vector can go wrong. */
  lemma RightIff(b: Behaviour, s: Walk)
    requires Handled(s.t) && !Over(s)
    ensures AtEntry(s)
    ensures var changes := ChangesAt(b, s);
            GoesOnRight(b, s) <==>
            Left(Turn(b, s)).queue == Survivors(s.t.data[s.i + 1..], RemovedBy(changes)) + Added(changes)
  {
    NotOverIsAtEntry(s);
    LeftIsHandled(s);
    var changes, rest := ChangesAt(b, s), Table(s.t.data[s.i + 1..], s.t.handlers);
    assert Left(s).queue[0] == s.t.data[s.i];
    DropTwice(s.t.data, s.i, 1);
    HandlersApart(s.t, rest, changes);
    ChangesSplit(rest, changes);
  }

  /**
   For a handler that does anything: the loop goes on right iff, of the entries up to the cursor, it
   removes none when it adds as many as it removes in all, and exactly one when it does not; or it
   removes several of them and leaves nothing after them, and then the loop ends.
   */
  lemma CursorRightIff(b: Behaviour, s: Walk)
    requires Handled(s.t) && !Over(s)
    ensures AtEntry(s)
    ensures var changes := ChangesAt(b, s);
            var gone := RemovedBy(changes);
            var before, after := s.t.data[..s.i + 1], s.t.data[s.i + 1..];
            var visited, unvisited := CountIn(before, gone), CountIn(after, gone);
            GoesOnRight(b, s) <==>
            || visited == (if |Added(changes)| == visited + unvisited then 0 else 1)
            || (visited > 1 && unvisited == |after| && Added(changes) == [])
  {
    RightIff(b, s);
    var changes := ChangesAt(b, s);
    var gone := RemovedBy(changes);
    var before, after := s.t.data[..s.i + 1], s.t.data[s.i + 1..];
    ChangesSplit(s.t, changes);
    TakeDrop(s.t.data, s.i + 1);
    SurvivorsJoin(before, after, gone);
    SurvivorsCount(before, gone);
    SurvivorsCount(after, gone);
    Assoc(Survivors(before, gone), Survivors(after, gone), Added(changes));
    RestIs(Survivors(before, gone), Survivors(after, gone) + Added(changes), Turn(b, s).i);
  }

  /**
   A handler that only removes must spare the vector, or remove exactly one entry up to the cursor,
   or remove several of these and all the others.
   */
  lemma RemovingIsRightIff(b: Behaviour, s: Walk)
    requires Handled(s.t) && !Over(s)
    requires AtEntry(s) && forall a | a in ChangesAt(b, s) :: a.Removing?
    ensures var gone := RemovedBy(ChangesAt(b, s));
            var before, after := s.t.data[..s.i + 1], s.t.data[s.i + 1..];
            GoesOnRight(b, s) <==>
            || CountIn(s.t.data, gone) == 0
            || CountIn(before, gone) == 1
            || (CountIn(before, gone) > 1 && CountIn(after, gone) == |after|)
  {
    var gone := RemovedBy(ChangesAt(b, s));
    CursorRightIff(b, s);
    NothingAdded(ChangesAt(b, s));
    TakeDrop(s.t.data, s.i + 1);
    CountJoin(s.t.data[..s.i + 1], s.t.data[s.i + 1..], gone);
  }

  lemma {:induction false} NothingAdded(changes: seq<Change>)
    requires forall a | a in changes :: a.Removing?
    ensures Added(changes) == []
  {
    if changes != [] {
      assert changes[0] in changes;
      NothingAdded(changes[1..]);
    }
  }

  lemma CountJoin(a: seq<PollFd>, b: seq<PollFd>, fds: set<int>)
    ensures CountIn(a + b, fds) == CountIn(a, fds) + CountIn(b, fds)
  {
    SurvivorsJoin(a, b, fds);
    SurvivorsCount(a, fds);
    SurvivorsCount(b, fds);
    SurvivorsCount(a + b, fds);
  }

  lemma RestIs<T>(a: seq<T>, b: seq<T>, n: nat)
    ensures (if n <= |a + b| then (a + b)[n..] else []) == b <==> n == |a| || (n > |a| && b == [])
  {
    if n == |a| {
      DropJoin(a, b, n);
    }
  }

  /** Among distinct descriptors, a handler that removes at most its own is always right. */
  lemma OwnTurnIsRight(b: Behaviour, s: Walk)
    requires Handled(s.t) && !Over(s) && Distinct(s.t.data) && RemovesOnlyItself(b)
    ensures GoesOnRight(b, s)
  {
    NotOverIsAtEntry(s);
    TurnIsOwnTurn(b, s);
    RightIff(b, s);
    var changes, entry, after := ChangesAt(b, s), s.t.data[s.i], s.t.data[s.i + 1..];
    DistinctAt(s.t.data, s.i);
    NothingAdded(changes);
    assert RemovedBy(changes) <= {entry.fd};
    NoneGone(after, RemovedBy(changes));
    ConcatEmpty(after);
  }

  lemma {:induction false} NoneGone(v: seq<PollFd>, gone: set<int>)
    requires forall p | p in v :: p.fd !in gone
    ensures Survivors(v, gone) == v
  {
    if v != [] {
      NoneGone(v[1..], gone);
    }
  }

  // ---------- Whole walks ----------

  /** Each of the first `n` turns is right. */
  ghost predicate AllRight(b: Behaviour, s: Walk, n: nat)
    requires Handled(s.t)
  {
    forall j: nat | j < n && !Over(Walked(b, s, j)) :: GoesOnRight(b, Walked(b, s, j))
  }

  /** After `n` turns, what is left is what the queue leaves. */
  ghost predicate LikeQueue(b: Behaviour, s: Walk, n: nat)
    requires Handled(s.t) && AllHandled(Left(s))
  {
    Left(Walked(b, s, n)) == Served(b, Left(s), n)
  }

  lemma RightNext(b: Behaviour, m: Walk, p: Pending)
    requires Handled(m.t) && AllHandled(p) && Left(m) == p
    ensures Left(Next(b, m)) == ServeNext(b, p) <==> Over(m) || GoesOnRight(b, m)
  {
    LeftIsHandled(m);
  }

  lemma {:induction false} RightIsLikeQueue(b: Behaviour, s: Walk, n: nat)
    requires Handled(s.t) && AllHandled(Left(s)) && AllRight(b, s, n)
    ensures LikeQueue(b, s, n)
  {
    if n > 0 {
      RightIsLikeQueue(b, s, n - 1);
      RightNext(b, Walked(b, s, n - 1), Served(b, Left(s), n - 1));
    }
  }

  /** The loop goes through what is left as the queue does, for `n` turns, iff each of these is right. */
  lemma WalkIsQueueIff(b: Behaviour, s: Walk, n: nat)
    requires Handled(s.t)
    ensures AllHandled(Left(s))
    ensures AllRight(b, s, n) <==> forall j: nat | j <= n :: LikeQueue(b, s, j)
  {
    LeftIsHandled(s);
    if AllRight(b, s, n) {
      forall j: nat | j <= n ensures LikeQueue(b, s, j) {
        RightIsLikeQueue(b, s, j);
      }
    } else {
      var j: nat :| j < n && !Over(Walked(b, s, j)) && !GoesOnRight(b, Walked(b, s, j));
      if LikeQueue(b, s, j) {
        RightNext(b, Walked(b, s, j), Served(b, Left(s), j));
        assert !LikeQueue(b, s, j + 1);
      }
    }
  }

  // ---------- What the queue promises ----------

  /** No handler adds `f`. */
  ghost predicate NeverAdds(b: Behaviour, f: int) {
    forall fd, event, k, a | a in b(fd, event, k) :: a.Adding? ==> a.fd != f
  }

  /** The handler called as the `j`-th removes `f`. */
  ghost predicate RemovedAt(b: Behaviour, calls: seq<HandlerCall>, j: nat, f: int)
    requires j < |calls|
  {
    f in RemovedBy(b(calls[j].fd, calls[j].event, j))
  }

  /** Since the `k`-th call, `f` was neither called nor removed. */
  ghost predicate Waiting(b: Behaviour, calls: seq<HandlerCall>, k: nat, f: int) {
    forall j | k <= j < |calls| :: calls[j].fd != f && !RemovedAt(b, calls, j, f)
  }

  /** Since the `k`-th call, `f` was called exactly once, before any handler removed it. */
  ghost predicate CalledOnce(b: Behaviour, calls: seq<HandlerCall>, k: nat, f: int) {
    exists j | k <= j < |calls| ::
      && calls[j].fd == f && Waiting(b, calls[..j], k, f)
      && forall i | j < i < |calls| :: calls[i].fd != f
  }

  /** Since the `k`-th call, `f` was removed and never called. */
  ghost predicate Dropped(b: Behaviour, calls: seq<HandlerCall>, k: nat, f: int) {
    && (exists j | k <= j < |calls| :: RemovedAt(b, calls, j, f))
    && forall j | k <= j < |calls| :: calls[j].fd != f
  }

  /** Whether `f` still waits, was called once, or was dropped. */
  ghost predicate Accounted(b: Behaviour, p: Pending, k: nat, f: int) {
    if CountIn(p.queue, {f}) == 1 then Waiting(b, p.calls, k, f)
    else CountIn(p.queue, {f}) == 0 && (CalledOnce(b, p.calls, k, f) || Dropped(b, p.calls, k, f))
  }

  lemma {:induction false} SurvivorsOf(v: seq<PollFd>, gone: set<int>, f: int)
    ensures CountIn(Survivors(v, gone), {f}) == if f in gone then 0 else CountIn(v, {f})
  {
    if v != [] {
      SurvivorsOf(v[1..], gone, f);
    }
  }

  lemma {:induction false} AddedNot(changes: seq<Change>, f: int)
    requires forall a | a in changes :: a.Adding? ==> a.fd != f
    ensures CountIn(Added(changes), {f}) == 0
  {
    if changes != [] {
      assert changes[0] in changes;
      AddedNot(changes[1..], f);
    }
  }

  /** Serving takes `f` out of the queue when it is the head or the head removes it. */
  lemma ServeCounts(b: Behaviour, p: Pending, f: int)
    requires AllHandled(p) && p.queue != [] && NeverAdds(b, f)
    ensures CountIn(Serve(b, p).queue, {f}) ==
            if f in RemovedBy(ChangesOf(b, p)) then 0 else CountIn(p.queue[1..], {f})
  {
    var changes, rest := ChangesOf(b, p), p.queue[1..];
    ChangesSplit(Table(rest, p.handlers), changes);
    CountJoin(Survivors(rest, RemovedBy(changes)), Added(changes), {f});
    SurvivorsOf(rest, RemovedBy(changes), f);
    AddedNot(changes, f);
  }

  lemma CallWaits(b: Behaviour, calls: seq<HandlerCall>, c: HandlerCall, k: nat, f: int)
    requires k <= |calls|
    ensures var calls' := calls + [c];
            Waiting(b, calls', k, f) <==> Waiting(b, calls, k, f) && c.fd != f && !RemovedAt(b, calls', |calls|, f)
  {
    var calls' := calls + [c];
    forall j | 0 <= j < |calls| ensures calls'[j] == calls[j] {}
  }

  lemma CallIsOnce(b: Behaviour, calls: seq<HandlerCall>, c: HandlerCall, k: nat, f: int)
    requires k <= |calls|
    requires if c.fd == f then Waiting(b, calls, k, f) else CalledOnce(b, calls, k, f)
    ensures CalledOnce(b, calls + [c], k, f)
  {
    var calls' := calls + [c];
    forall j | 0 <= j <= |calls| ensures calls'[..j] == calls[..j] {}
    if c.fd == f {
      assert calls'[|calls|].fd == f && Waiting(b, calls'[..|calls|], k, f);
    } else {
      var j :| k <= j < |calls| && calls[j].fd == f && Waiting(b, calls[..j], k, f)
               && forall i | j < i < |calls| :: calls[i].fd != f;
      assert calls'[j].fd == f && Waiting(b, calls'[..j], k, f);
    }
  }

  lemma CallDrops(b: Behaviour, calls: seq<HandlerCall>, c: HandlerCall, k: nat, f: int)
    requires k <= |calls| && c.fd != f
    requires Dropped(b, calls, k, f) || (Waiting(b, calls, k, f) && RemovedAt(b, calls + [c], |calls|, f))
    ensures Dropped(b, calls + [c], k, f)
  {
    var calls' := calls + [c];
    if Dropped(b, calls, k, f) {
      var j :| k <= j < |calls| && RemovedAt(b, calls, j, f);
      assert RemovedAt(b, calls', j, f);
    }
  }

  lemma ServeAccounts(b: Behaviour, p: Pending, k: nat, f: int)
    requires AllHandled(p) && p.queue != [] && NeverAdds(b, f)
    requires k <= |p.calls| && Accounted(b, p, k, f)
    ensures Accounted(b, Serve(b, p), k, f)
  {
    var p' := Serve(b, p);
    ServeCounts(b, p, f);
    var c := p'.calls[|p.calls|];
    assert p'.calls == p.calls + [c] && c.fd == p.queue[0].fd;
    CallWaits(b, p.calls, c, k, f);
    if c.fd == f {
      if Waiting(b, p.calls, k, f) {
        CallIsOnce(b, p.calls, c, k, f);
      }
    } else if CalledOnce(b, p.calls, k, f) {
      CallIsOnce(b, p.calls, c, k, f);
    } else if !Waiting(b, p'.calls, k, f) {
      CallDrops(b, p.calls, c, k, f);
    }
  }

  lemma {:induction false} ServedAccounts(b: Behaviour, p: Pending, n: nat, f: int)
    requires AllHandled(p) && NeverAdds(b, f) && CountIn(p.queue, {f}) == 1
    ensures p.calls <= Served(b, p, n).calls
    ensures Accounted(b, Served(b, p, n), |p.calls|, f)
  {
    if n > 0 {
      ServedAccounts(b, p, n - 1, f);
      var m := Served(b, p, n - 1);
      if m.queue != [] {
        ServeAccounts(b, m, |p.calls|, f);
      }
    }
  }

  /**
   Once the queue is empty, an entry that was in it has been called exactly once, before any handler
   removed it, or else a handler removed it and it was never called.
   */
  lemma CalledOnceOrDropped(b: Behaviour, p: Pending, n: nat, f: int)
    requires AllHandled(p) && NeverAdds(b, f) && CountIn(p.queue, {f}) == 1 && Served(b, p, n).queue == []
    ensures var calls, k := Served(b, p, n).calls, |p.calls|;
            && p.calls <= calls
            && (CalledOnce(b, calls, k, f) <==> !Dropped(b, calls, k, f))
  {
    ServedAccounts(b, p, n, f);
  }

  /** The same of a loop that ends and whose turns are all right. */
  lemma RightWalksCallOnce(b: Behaviour, s: Walk, n: nat, f: int)
    requires Handled(s.t) && Over(Walked(b, s, n)) && AllRight(b, s, n)
    requires NeverAdds(b, f) && CountIn(Left(s).queue, {f}) == 1
    ensures var calls, k := Walked(b, s, n).calls, |s.calls|;
            && s.calls <= calls
            && (CalledOnce(b, calls, k, f) <==> !Dropped(b, calls, k, f))
  {
    LeftIsHandled(s);
    LeftIsHandled(Walked(b, s, n));
    RightIsLikeQueue(b, s, n);
    CalledOnceOrDropped(b, Left(s), n, f);
  }

  /** In `v`, no entry of `f` comes after one of `g`. */
  predicate NoneAfter(v: seq<PollFd>, f: int, g: int) {
    v == [] || if v[0].fd == g then CountIn(v[1..], {f}) == 0 else NoneAfter(v[1..], f, g)
  }

  lemma {:induction false} NoneIsNoneAfter(v: seq<PollFd>, f: int, g: int)
    requires CountIn(v, {f}) == 0
    ensures NoneAfter(v, f, g)
  {
    if v != [] {
      NoneIsNoneAfter(v[1..], f, g);
    }
  }

  lemma {:induction false} SurvivorsKeepOrder(v: seq<PollFd>, gone: set<int>, f: int, g: int)
    requires NoneAfter(v, f, g)
    ensures NoneAfter(Survivors(v, gone), f, g)
  {
    if v != [] {
      if v[0].fd == g {
        NoneIsNoneAfter(v[1..], f, g);
        SurvivorsOf(v[1..], gone, f);
      }
      SurvivorsKeepOrder(v[1..], gone, f, g);
    }
  }

  lemma {:induction false} AppendKeepsOrder(v: seq<PollFd>, more: seq<PollFd>, f: int, g: int)
    requires NoneAfter(v, f, g) && CountIn(more, {f}) == 0
    ensures NoneAfter(v + more, f, g)
  {
    if v == [] {
      ConcatEmpty(more);
      NoneIsNoneAfter(more, f, g);
    } else {
      assert (v + more)[1..] == v[1..] + more;
      if v[0].fd == g {
        CountJoin(v[1..], more, {f});
      } else {
        AppendKeepsOrder(v[1..], more, f, g);
      }
    }
  }

  /** No call of `f` since the `k`-th comes after one of `g`. */
  ghost predicate CalledBefore(calls: seq<HandlerCall>, k: nat, f: int, g: int) {
    forall i, j | k <= i < |calls| && k <= j < |calls| && calls[i].fd == f && calls[j].fd == g :: i < j
  }

  lemma ServeKeepsOrder(b: Behaviour, p: Pending, f: int, g: int)
    requires AllHandled(p) && p.queue != [] && NeverAdds(b, f) && f != g && NoneAfter(p.queue, f, g)
    ensures NoneAfter(Serve(b, p).queue, f, g)
  {
    var changes, rest := ChangesOf(b, p), p.queue[1..];
    if p.queue[0].fd == g {
      NoneIsNoneAfter(rest, f, g);
    }
    ChangesSplit(Table(rest, p.handlers), changes);
    SurvivorsKeepOrder(rest, RemovedBy(changes), f, g);
    AddedNot(changes, f);
    AppendKeepsOrder(Survivors(rest, RemovedBy(changes)), Added(changes), f, g);
  }

  /** Since the `k`-th call, `f` and `g` were called in order, and will be. */
  ghost predicate InOrder(p: Pending, k: nat, f: int, g: int) {
    && NoneAfter(p.queue, f, g)
    && CalledBefore(p.calls, k, f, g)
    && (CountIn(p.queue, {f}) > 0 ==> forall j | k <= j < |p.calls| :: p.calls[j].fd != g)
  }

  lemma ServeInOrder(b: Behaviour, p: Pending, k: nat, f: int, g: int)
    requires AllHandled(p) && p.queue != [] && NeverAdds(b, f) && f != g
    requires k <= |p.calls| && InOrder(p, k, f, g)
    ensures InOrder(Serve(b, p), k, f, g)
  {
    ServeKeepsOrder(b, p, f, g);
    ServeCounts(b, p, f);
    assert Serve(b, p).calls[|p.calls|].fd == p.queue[0].fd;
  }

  /** Entries are called in the order in which they stood in the queue. */
  lemma {:induction false} CalledInQueueOrder(b: Behaviour, p: Pending, n: nat, f: int, g: int)
    requires AllHandled(p) && NeverAdds(b, f) && f != g && NoneAfter(p.queue, f, g)
    ensures p.calls <= Served(b, p, n).calls && InOrder(Served(b, p, n), |p.calls|, f, g)
  {
    if n > 0 {
      CalledInQueueOrder(b, p, n - 1, f, g);
      var m := Served(b, p, n - 1);
      if m.queue != [] {
        ServeInOrder(b, m, |p.calls|, f, g);
      }
    }
  }

  // ---------- Walks that go wrong, and one that ends beyond the vector ----------

  /** Two entries for which nothing is reported, and their handlers. */
  function TwoEntries(x: int, hx: nat, y: int, hy: nat): Table {
    Table([PollFd(x, READ, NO_EVENTS), PollFd(y, READ, NO_EVENTS)], map[x := hx, y := hy])
  }

  lemma TwoEntriesHandled(x: int, hx: nat, y: int, hy: nat)
    ensures Handled(TwoEntries(x, hx, y, hy))
  {
  }

  lemma OneChange(t: Table, c: Change)
    ensures ChangedAll(t, [c]) == Changed(t, c)
    ensures RemovedBy([c]) == if c.Removing? then {c.fd} else {}
    ensures Added([c]) == if c.Removing? then [] else [PollFd(c.fd, c.flag, NO_EVENTS)]
  {
    HeadTail(c, []);
  }

  lemma TwoChanges(t: Table, c: Change, d: Change)
    ensures ChangedAll(t, [c, d]) == Changed(Changed(t, c), d)
    ensures RemovedBy([c, d]) == RemovedBy([c]) + RemovedBy([d])
  {
    HeadTail(c, [d]);
    OneChange(Changed(t, c), d);
    assert [c, d] == [c] + [d];
  }

  lemma SecondRemoved(x: int, hx: nat, y: int, hy: nat)
    requires x != y
    ensures var t := TwoEntries(x, hx, y, hy);
            && ChangedAll(t, [Removing(y)]) == Table([t.data[0]], map[x := hx])
            && Survivors(t.data[1..], RemovedBy([Removing(y)])) + Added([Removing(y)]) == []
  {
    var t := TwoEntries(x, hx, y, hy);
    OneChange(t, Removing(y));
    WithoutAt(t.data, 1);
    assert t.data[..1] + t.data[2..] == [t.data[0]] && t.data[1..] == [t.data[1]];
  }

  /** The first handler removes the second entry: it is called again, and the other never. */
  lemma CalledAgain(x: int, hx: nat, y: int, hy: nat) returns (b: Behaviour, s: Walk)
    requires x != y
    ensures var start := Walk(0, TwoEntries(x, hx, y, hy), []);
            && Handled(start.t) && Distinct(start.t.data) && !GoesOnRight(b, start)
            && s == Turn(b, start) && AtEntry(s)
    ensures var call := HandlerCall(hx, x, 0);
            Turn(b, s).calls == [call, call] && Turn(b, s).i == |Turn(b, s).t.data|
  {
    var changes := [Removing(y)];
    b := (fd, event, k) => if k == 0 then changes else [];
    var start := Walk(0, TwoEntries(x, hx, y, hy), []);
    TwoEntriesHandled(x, hx, y, hy);
    SecondRemoved(x, hx, y, hy);
    RightIff(b, start);
    s := Walk(0, Table([start.t.data[0]], map[x := hx]), [HandlerCall(hx, x, 0)]);
    assert s == Turn(b, start);
    assert s.t.data[s.i..] != [];
  }

  lemma ReplacedEntry(x: int, hx: nat, y: int, hy: nat, z: int)
    requires x != y && z != x && z != y
    ensures ChangedAll(TwoEntries(x, hx, y, hy), [Removing(x), Adding(z, hx, READ)]) == TwoEntries(y, hy, z, hx)
  {
    var t := TwoEntries(x, hx, y, hy);
    TwoChanges(t, Removing(x), Adding(z, hx, READ));
    WithoutAt(t.data, 0);
    assert t.data[..0] + t.data[1..] == [t.data[1]];
  }

  /** The first handler replaces its own entry by a new one: the second is passed over. */
  lemma PassedOver(x: int, hx: nat, y: int, hy: nat, z: int) returns (b: Behaviour, s: Walk)
    requires x != y && z != x && z != y
    ensures var start := Walk(0, TwoEntries(x, hx, y, hy), []);
            && Handled(start.t) && Distinct(start.t.data) && !GoesOnRight(b, start)
            && s == Turn(b, start) && AtEntry(s) && s.t.data[s.i].fd == z
    ensures Turn(b, s).i == |Turn(b, s).t.data| && forall c | c in Turn(b, s).calls :: c.fd != y
  {
    var changes := [Removing(x), Adding(z, hx, READ)];
    b := (fd, event, k) => if k == 0 then changes else [];
    var start := Walk(0, TwoEntries(x, hx, y, hy), []);
    ReplacedEntry(x, hx, y, hy, z);
    TwoEntriesHandled(x, hx, y, hy);
    RightIff(b, start);
    TwoChanges(start.t, changes[0], changes[1]);
    s := Walk(1, TwoEntries(y, hy, z, hx), [HandlerCall(hx, x, 0)]);
    assert s == Turn(b, start);
    assert s.t.data[s.i..] == [s.t.data[1]];
    assert Survivors(start.t.data[1..], {x}) == [s.t.data[0]];
  }

  lemma BothRemoved(x: int, hx: nat, y: int, hy: nat)
    requires x != y
    ensures var changes := [Removing(x), Removing(y)];
            && ChangedAll(TwoEntries(x, hx, y, hy), changes) == Table([], map[])
            && RemovedBy(changes) == {x, y} && Added(changes) == []
  {
    var t := TwoEntries(x, hx, y, hy);
    TwoChanges(t, Removing(x), Removing(y));
    OneChange(t, Removing(x));
    OneChange(t, Removing(y));
    WithoutAt(t.data, 0);
    assert t.data[..0] + t.data[1..] == [t.data[1]];
    assert Without([t.data[1]], y) == [];
    NothingAdded([Removing(x), Removing(y)]);
  }

  /**
   The first handler does nothing, and the second removes both entries: the loop ends beyond the
   vector, and rightly.
   */
  lemma EndsBeyond(x: int, hx: nat, y: int, hy: nat) returns (b: Behaviour, s: Walk)
    requires x != y
    ensures var start := Walk(0, TwoEntries(x, hx, y, hy), []);
            && Handled(start.t) && GoesOnRight(b, start)
            && s == Turn(b, start) && Handled(s.t) && !Over(s) && AtEntry(s) && GoesOnRight(b, s)
    ensures Turn(b, s) == Walk(1, Table([], map[]), [HandlerCall(hx, x, 0), HandlerCall(hy, y, 0)])
  {
    var changes := [Removing(x), Removing(y)];
    b := (fd, event, k) => if k == 0 then [] else changes;
    var t := TwoEntries(x, hx, y, hy);
    var start := Walk(0, t, []);
    TwoEntriesHandled(x, hx, y, hy);
    RightIff(b, start);
    s := Walk(1, t, [HandlerCall(hx, x, 0)]);
    assert s == Turn(b, start);
    BothRemoved(x, hx, y, hy);
    RightIff(b, s);
  }
}
