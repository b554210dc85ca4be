/**
 The reactor: a vector of polled descriptors and a map from descriptor to handler. `Poll` walks the
 vector by index while the handlers it calls may change it. What poll(2) reports is a parameter,
 and so is what a handler does, `behave`, given its descriptor, the event and how many calls came
 before.
 */
module Reactors {
  import opened Sequences

  /** The bits of `revents` the reactor looks at. */
  datatype Revents = Revents(pollIn: bool, pollOut: bool, pollHup: bool, pollErr: bool, pollNval: bool)

  datatype PollFd = PollFd(fd: int, events: nat, revents: Revents)

  const NO_EVENTS := Revents(false, false, false, false, false)

  const READ: nat := 1
  const WRITE: nat := 2
  const CLOSE: nat := 4

  function EventOf(r: Revents): nat {
    (if r.pollIn then READ else 0) + (if r.pollOut then WRITE else 0)
    + (if r.pollHup || r.pollErr || r.pollNval then CLOSE else 0)
  }

  predicate IsReadEvent(mask: nat) { mask / READ % 2 == 1 }
  predicate IsWriteEvent(mask: nat) { mask / WRITE % 2 == 1 }
  predicate IsCloseEvent(mask: nat) { mask / CLOSE % 2 == 1 }

  /** The mask handed to a handler tells reading, writing and closing apart. */
  lemma EventsAreTold(r: Revents)
    ensures IsReadEvent(EventOf(r)) <==> r.pollIn
    ensures IsWriteEvent(EventOf(r)) <==> r.pollOut
    ensures IsCloseEvent(EventOf(r)) <==> r.pollHup || r.pollErr || r.pollNval
    ensures EventOf(r) % 2 == 1 <==> r.pollIn
    ensures EventOf(r) / 2 % 2 == 1 <==> r.pollOut
    ensures EventOf(r) / 4 == 1 <==> r.pollHup || r.pollErr || r.pollNval
    ensures EventOf(r) < 8
  {
  }

  /** What a handler may do to the reactor that calls it. */
  datatype Change = Adding(fd: int, handler: nat, flag: nat) | Removing(fd: int)

  /** The vector of descriptors and the map of handlers. */
  datatype Table = Table(data: seq<PollFd>, handlers: map<int, nat>)

  function Changed(t: Table, change: Change): Table {
    match change
    case Adding(fd, handler, flag) => Table(t.data + [PollFd(fd, flag, NO_EVENTS)], t.handlers[fd := handler])
    case Removing(fd) => Table(Without(t.data, fd), t.handlers - {fd})
  }

  function ChangedAll(t: Table, changes: seq<Change>): Table
    decreases |changes|
  {
    if changes == [] then t else ChangedAll(Changed(t, changes[0]), changes[1..])
  }

  type Behaviour = (int, nat, nat) -> seq<Change>

  /** One call of a handler. */
  datatype HandlerCall = HandlerCall(handler: nat, fd: int, event: nat)

  datatype Outcome = Aborted | Idle | Dispatched

  // ---------- Descriptors ----------

  function Fds(v: seq<PollFd>): set<int> {
    set p | p in v :: p.fd
  }

  /** The vector after erasing one descriptor. */
  function Without(v: seq<PollFd>, fd: int): seq<PollFd> {
    if v == [] then []
    else if v[0].fd == fd then Without(v[1..], fd)
    else [v[0]] + Without(v[1..], fd)
  }

  predicate Distinct(v: seq<PollFd>) {
    forall i, j | 0 <= i < j < |v| :: v[i].fd != v[j].fd
  }

  lemma FdsJoin(a: seq<PollFd>, b: seq<PollFd>)
    ensures Fds(a + b) == Fds(a) + Fds(b)
  {
    forall p | p in a + b ensures p in a || p in b {}
    forall p | p in a || p in b ensures p in a + b {}
  }

  lemma {:induction false} WithoutFds(v: seq<PollFd>, fd: int)
    ensures Fds(Without(v, fd)) == Fds(v) - {fd}
  {
    if v != [] {
      WithoutFds(v[1..], fd);
      assert v == [v[0]] + v[1..];
      FdsJoin([v[0]], v[1..]);
      FdsJoin([v[0]], Without(v[1..], fd));
      assert v[0] in [v[0]] && Fds([v[0]]) == {v[0].fd};
    }
  }

  /** Exactly the entries of the descriptor are gone. */
  lemma {:induction false} WithoutCounts(v: seq<PollFd>, fd: int)
    ensures forall p {:trigger multiset(v)[p]} ::
              multiset(Without(v, fd))[p] == if p.fd == fd then 0 else multiset(v)[p]
    ensures forall p | p in Without(v, fd) :: p in v && p.fd != fd
  {
    if v != [] {
      WithoutCounts(v[1..], fd);
      assert v == [v[0]] + v[1..];
    }
  }

  lemma {:induction false} WithoutAbsent(v: seq<PollFd>, fd: int)
    requires forall p | p in v :: p.fd != fd
    ensures Without(v, fd) == v
  {
    if v != [] {
      WithoutAbsent(v[1..], fd);
    }
  }

  lemma {:induction false} WithoutJoin(a: seq<PollFd>, b: seq<PollFd>, fd: int)
    ensures Without(a + b, fd) == Without(a, fd) + Without(b, fd)
  {
    if a == [] {
      assert a + b == b;
    } else {
      assert (a + b)[1..] == a[1..] + b;
      WithoutJoin(a[1..], b, fd);
    }
  }

  lemma DistinctAt(v: seq<PollFd>, i: nat)
    requires i < |v| && Distinct(v)
    ensures Distinct(v[..i] + v[i + 1..])
    ensures forall p | p in v[..i] || p in v[i + 1..] :: p.fd != v[i].fd
  {
  }

  lemma WithoutBetween(before: seq<PollFd>, entry: PollFd, after: seq<PollFd>)
    requires forall p | p in before || p in after :: p.fd != entry.fd
    ensures Without(before + ([entry] + after), entry.fd) == before + after
  {
    WithoutJoin(before, [entry] + after, entry.fd);
    WithoutAbsent(before, entry.fd);
    WithoutAbsent(after, entry.fd);
    HeadTail(entry, after);
  }

  /** Where no other entry has its descriptor, removing the one at `i` takes out exactly that entry. */
  lemma WithoutAt(v: seq<PollFd>, i: nat)
    requires i < |v|
    requires forall p | p in v[..i] || p in v[i + 1..] :: p.fd != v[i].fd
    ensures Without(v, v[i].fd) == v[..i] + v[i + 1..]
  {
    TakeDrop(v, i);
    SplitHead(v[i..]);
    DropTwice(v, i, 1);
    WithoutBetween(v[..i], v[i], v[i + 1..]);
  }

  // ---------- The specification of a dispatch ----------

  /** A handler called for `fd` only ever removes `fd`. */
  ghost predicate RemovesOnlyItself(b: Behaviour) {
    forall fd, event, k, a | a in b(fd, event, k) :: a == Removing(fd)
  }

  /** The vector as poll(2) leaves it. */
  function Reported(v: seq<PollFd>, reported: seq<Revents>): (r: seq<PollFd>)
    requires |reported| == |v|
    ensures |r| == |v| && forall i | 0 <= i < |v| :: r[i] == v[i].(revents := reported[i])
  {
    seq(|v|, i requires 0 <= i < |v| => v[i].(revents := reported[i]))
  }

  /** `calls` is `before` and then one call for every entry, in order. */
  ghost predicate CalledInOrder(before: seq<HandlerCall>, v: seq<PollFd>, handlers: map<int, nat>,
                                calls: seq<HandlerCall>)
  {
    && |calls| == |before| + |v| && before <= calls
    && (forall q | 0 <= q < |v| ::
          v[q].fd in handlers
          && calls[|before| + q] == HandlerCall(handlers[v[q].fd], v[q].fd, EventOf(v[q].revents)))
  }

  /** The entries whose handler did not remove them, the first being called as the `k`-th. */
  function Kept(b: Behaviour, v: seq<PollFd>, k: nat): seq<PollFd>
    decreases |v|
  {
    if v == [] then []
    else if b(v[0].fd, EventOf(v[0].revents), k) == [] then [v[0]] + Kept(b, v[1..], k + 1)
    else Kept(b, v[1..], k + 1)
  }

  /** Where the loop over the vector stands: its cursor, the reactor, and the calls made so far. */
  datatype Walk = Walk(i: nat, t: Table, calls: seq<HandlerCall>)

  /** The entry at the cursor, which has a handler. */
  predicate AtEntry(s: Walk) {
    s.i < |s.t.data| && s.t.data[s.i].fd in s.t.handlers
  }

  /** What the handler of the entry at the cursor does. */
  function ChangesAt(b: Behaviour, s: Walk): seq<Change>
    requires AtEntry(s)
  {
    b(s.t.data[s.i].fd, EventOf(s.t.data[s.i].revents), |s.calls|)
  }

  /** One turn of the loop, whatever the handler does: the cursor moves on if the size is what it was. */
  function Turn(b: Behaviour, s: Walk): Walk
    requires AtEntry(s)
  {
    var entry := s.t.data[s.i];
    var t := ChangedAll(s.t, ChangesAt(b, s));
    var i := if |t.data| == |s.t.data| then s.i + 1 else s.i;
    Walk(i, t, s.calls + [HandlerCall(s.t.handlers[entry.fd], entry.fd, EventOf(entry.revents))])
  }

  /** Every entry has a handler. */
  ghost predicate Handled(t: Table) {
    Fds(t.data) <= t.handlers.Keys
  }

  lemma ChangeKeepsHandled(t: Table, change: Change)
    requires Handled(t)
    ensures Handled(Changed(t, change))
  {
    match change
    case Adding(fd, handler, flag) =>
      var entry := PollFd(fd, flag, NO_EVENTS);
      FdsJoin(t.data, [entry]);
      assert Fds([entry]) == {fd};
    case Removing(fd) =>
      WithoutFds(t.data, fd);
  }

  lemma {:induction false} ChangesKeepHandled(t: Table, changes: seq<Change>)
    requires Handled(t)
    ensures Handled(ChangedAll(t, changes))
    decreases |changes|
  {
    if changes != [] {
      ChangeKeepsHandled(t, changes[0]);
      ChangesKeepHandled(Changed(t, changes[0]), changes[1..]);
    }
  }

  /** The cursor is past the vector, which is where the loop ends. */
  predicate Over(s: Walk) {
    s.i >= |s.t.data|
  }

  lemma NotOverIsAtEntry(s: Walk)
    requires Handled(s.t) && !Over(s)
    ensures AtEntry(s)
  {
    assert s.t.data[s.i] in s.t.data && s.t.data[s.i].fd in Fds(s.t.data);
  }

  /** One more turn, unless the loop has ended. */
  ghost function Next(b: Behaviour, s: Walk): (s': Walk)
    requires Handled(s.t)
    ensures Handled(s'.t)
  {
    if Over(s) then s
    else
      NotOverIsAtEntry(s);
      ChangesKeepHandled(s.t, ChangesAt(b, s));
      Turn(b, s)
  }

  /** Where the loop stands after `n` turns, or when it ended before. */
  ghost function Walked(b: Behaviour, s: Walk, n: nat): (s': Walk)
    requires Handled(s.t)
    ensures Handled(s'.t)
  {
    if n == 0 then s else Next(b, Walked(b, s, n - 1))
  }

  /** The loop ends, and leaves the reactor as `t` with `calls` made. */
  ghost predicate EndsIn(b: Behaviour, s: Walk, t: Table, calls: seq<HandlerCall>)
    requires Handled(s.t)
  {
    exists n: nat :: Over(Walked(b, s, n)) && Walked(b, s, n).t == t && Walked(b, s, n).calls == calls
  }

  ghost predicate Ends(b: Behaviour, s: Walk)
    requires Handled(s.t)
  {
    exists n: nat :: Over(Walked(b, s, n))
  }

  lemma {:induction false} OverForGood(b: Behaviour, s: Walk, m: nat, n: nat)
    requires Handled(s.t) && m <= n && Over(Walked(b, s, m))
    ensures Walked(b, s, n) == Walked(b, s, m)
    decreases n - m
  {
    if m < n {
      OverForGood(b, s, m + 1, n);
    }
  }

  /** Where the loop stands after a handler that removed at most itself. */
  function OwnTurn(b: Behaviour, s: Walk): Walk
    requires AtEntry(s)
  {
    var entry := s.t.data[s.i];
    var called := s.(calls := s.calls + [HandlerCall(s.t.handlers[entry.fd], entry.fd, EventOf(entry.revents))]);
    if ChangesAt(b, s) == [] then called.(i := s.i + 1)
    else called.(t := Table(s.t.data[..s.i] + s.t.data[s.i + 1..], s.t.handlers - {entry.fd}))
  }

  lemma TurnIsOwnTurn(b: Behaviour, s: Walk)
    requires AtEntry(s) && Distinct(s.t.data) && RemovesOnlyItself(b)
    ensures Turn(b, s) == OwnTurn(b, s)
  {
    DistinctAt(s.t.data, s.i);
    WithoutAt(s.t.data, s.i);
    OwnRemovals(s.t, s.t.data[s.i].fd, ChangesAt(b, s));
  }

  /** Every handler is one of `h`: some may be gone, none is new or another. */
  ghost predicate HandlersOf(now: map<int, nat>, h: map<int, nat>) {
    forall f | f in now :: f in h && now[f] == h[f]
  }

  // ---------- The reactor object ----------

  class Reactor {
    const behave: Behaviour
    var fdData: seq<PollFd>
    var fdHandlers: map<int, nat>
    var calls: seq<HandlerCall>

    ghost function Now(): Table
      reads this
    {
      Table(fdData, fdHandlers)
    }

    /** The descriptors in the vector are exactly those with a handler. */
    ghost predicate Valid()
      reads this
    {
      Fds(fdData) == fdHandlers.Keys
    }

    constructor (behave: Behaviour)
      ensures Valid() && this.behave == behave && fdData == [] && fdHandlers == map[] && calls == []
    {
      this.behave := behave;
      fdData, fdHandlers, calls := [], map[], [];
    }

    method Add(fd: int, handler: nat, flag: nat)
      requires Valid()
      modifies `fdData, `fdHandlers
      ensures fdHandlers == old(fdHandlers)[fd := handler]
      ensures fdData == old(fdData) + [PollFd(fd, flag, Revents(false, false, false, false, false))]
      ensures Valid() && Now() == Changed(old(Now()), Adding(fd, handler, flag))
      ensures old(Distinct(fdData)) && fd !in old(fdHandlers) ==> Distinct(fdData)
    {
      var entry := PollFd(fd, flag, NO_EVENTS);
      ghost var v := fdData;
      fdData := fdData + [entry];
      fdHandlers := fdHandlers[fd := handler];
      FdsJoin(v, [entry]);
      assert forall i | 0 <= i < |v| :: v[i] in v && v[i].fd in Fds(v);
    }

    method Remove(fd: int)
      requires Valid()
      modifies `fdData, `fdHandlers
      ensures fdHandlers == old(fdHandlers) - {fd}
      ensures forall p | p in fdData :: p in old(fdData) && p.fd != fd
      ensures forall p | p in old(fdData) && p.fd != fd :: multiset(fdData)[p] == multiset(old(fdData))[p]
      ensures Valid() && Now() == Changed(old(Now()), Removing(fd))
    {
      ghost var v := fdData;
      var kept: seq<PollFd> := [];
      for i := 0 to |fdData|
        invariant fdData == v && Without(v, fd) == kept + Without(v[i..], fd)
      {
        assert v[i..][1..] == v[i + 1..];
        if fdData[i].fd != fd {
          kept := kept + [fdData[i]];
        }
      }
      fdData := kept;
      assert kept + Without([], fd) == kept;
      fdHandlers := fdHandlers - {fd};
      WithoutFds(v, fd);
      WithoutCounts(v, fd);
    }

    /** Calls the handler of a registered descriptor, with everything the handler does. */
    method Call(fd: int, event: nat)
      requires Valid() && fd in fdHandlers
      modifies this
      ensures Valid()
      ensures calls == old(calls) + [HandlerCall(old(fdHandlers)[fd], fd, event)]
      ensures Now() == ChangedAll(old(Now()), behave(fd, event, |old(calls)|))
    {
      var changes := behave(fd, event, |calls|);
      calls := calls + [HandlerCall(fdHandlers[fd], fd, event)];
      ghost var t, called := Now(), calls;
      for i := 0 to |changes|
        invariant Valid() && calls == called
        invariant ChangedAll(t, changes) == ChangedAll(Now(), changes[i..])
      {
        assert changes[i..][1..] == changes[i + 1..];
        match changes[i]
        case Adding(f, handler, flag) => Add(f, handler, flag);
        case Removing(f) => Remove(f);
      }
    }

    /** Calls the handler of the entry at `i`, and says which index is next. */
    method Visit(i: nat) returns (next: nat)
      requires Valid() && i < |fdData| && fdData[i].fd in fdHandlers
      modifies this
      ensures Valid()
      ensures Walk(next, Now(), calls) == Turn(behave, Walk(i, old(Now()), old(calls)))
    {
      var entry := fdData[i];
      var size := |fdData|;
      Call(entry.fd, EventOf(entry.revents));
      if size == |fdData| {
        return i + 1;
      }
      return i;
    }

    /**
     Takes down what was reported, and on readiness runs the loop over the vector. With distinct
     descriptors and handlers that remove nothing but their own, every handler registered at entry is
     then called once, in order, and exactly the descriptors stay whose handlers did not remove them,
     with their handlers.
     */
    method Poll(re: int, reported: seq<Revents>) returns (outcome: Outcome)
      requires Valid() && |reported| == |fdData|
      requires re > 0 ==> Ends(behave, Walk(0, Table(Reported(fdData, reported), fdHandlers), calls))
      modifies this
      ensures Valid()
      ensures outcome == (if re < 0 then Aborted else if re == 0 then Idle else Dispatched)
      ensures var t := Table(Reported(old(fdData), reported), old(fdHandlers));
              if re <= 0 then Now() == t && calls == old(calls)
              else
                && EndsIn(behave, Walk(0, t, old(calls)), Now(), calls)
                && (Distinct(t.data) && RemovesOnlyItself(behave) ==> VisitedAll(behave, t, old(calls), Now(), calls))
    {
      ReportedFds(fdData, reported);
      fdData := Reported(fdData, reported);
      if re < 0 {
        return Aborted;
      }
      if re == 0 {
        return Idle;
      }
      Dispatch();
      return Dispatched;
    }

    /** The loop over the vector, which the handlers change. It is assumed to end. */
    method Dispatch()
      requires Valid() && Ends(behave, Walk(0, Now(), calls))
      modifies this
      ensures Valid() && EndsIn(behave, Walk(0, old(Now()), old(calls)), Now(), calls)
      ensures Distinct(old(fdData)) && RemovesOnlyItself(behave) ==>
                VisitedAll(behave, old(Now()), old(calls), Now(), calls)
    {
      ghost var s := Walk(0, Now(), calls);
      ghost var n: nat :| Over(Walked(behave, s, n));
      var i: nat := 0;
      ghost var p: nat := 0;
      while i < |fdData|
        invariant Valid() && p <= n && Walk(i, Now(), calls) == Walked(behave, s, p)
        decreases n - p
      {
        NotOverIsAtEntry(Walk(i, Now(), calls));
        assert p != n;
        i := Visit(i);
        p := p + 1;
      }
      if Distinct(s.t.data) && RemovesOnlyItself(behave) {
        OwnWalkVisitsAll(behave, s.t, s.calls, p);
      }
    }
  }

  /** From `t` and `before`: every entry was called once, in order, and those stay that did not remove themselves. */
  ghost predicate VisitedAll(b: Behaviour, t: Table, before: seq<HandlerCall>, t': Table, calls: seq<HandlerCall>) {
    && CalledInOrder(before, t.data, t.handlers, calls)
    && t'.data == Kept(b, t.data, |before|)
    && Distinct(t'.data) && HandlersOf(t'.handlers, t.handlers)
  }

  /** The first `p` entries of `v` have been visited, and the cursor stands at the next. */
  ghost predicate Midway(b: Behaviour, v: seq<PollFd>, h: map<int, nat>, before: seq<HandlerCall>, p: nat, s: Walk) {
    && p <= |v| && Distinct(s.t.data) && HandlersOf(s.t.handlers, h)
    && s.i == |Kept(b, v[..p], |before|)|
    && s.t.data == Kept(b, v[..p], |before|) + v[p..]
    && CalledInOrder(before, v[..p], h, s.calls)
    && (forall q | p <= q < |v| :: v[q].fd in h && v[q].fd in s.t.handlers && s.t.handlers[v[q].fd] == h[v[q].fd])
  }

  lemma MidwayStart(b: Behaviour, v: seq<PollFd>, t: Table, calls: seq<HandlerCall>)
    requires t.data == v && Distinct(v) && Handled(t)
    ensures Midway(b, v, t.handlers, calls, 0, Walk(0, t, calls))
  {
    assert v[..0] == [] && v[0..] == v && [] + v == v;
    forall q | 0 <= q < |v| ensures v[q].fd in t.handlers {
      assert v[q] in v && v[q].fd in Fds(v);
    }
  }

  lemma MidwayStep(b: Behaviour, v: seq<PollFd>, h: map<int, nat>, before: seq<HandlerCall>, p: nat, s: Walk)
    requires Distinct(v) && RemovesOnlyItself(b) && Midway(b, v, h, before, p, s) && p < |v|
    ensures AtEntry(s) && Midway(b, v, h, before, p + 1, Turn(b, s))
  {
    var kept := Kept(b, v[..p], |before|);
    KeptSplits(b, v[..p], v[p], |before|);
    assert v[..p + 1] == v[..p] + [v[p]];
    MidwayData(kept, v, p);
    TurnIsOwnTurn(b, s);
    DistinctAt(s.t.data, s.i);
    forall q | p + 1 <= q < |v| ensures v[q].fd != v[p].fd {}
  }

  lemma {:induction false} OwnWalk(b: Behaviour, t: Table, before: seq<HandlerCall>, p: nat)
    requires Handled(t) && Distinct(t.data) && RemovesOnlyItself(b) && p <= |t.data|
    ensures Midway(b, t.data, t.handlers, before, p, Walked(b, Walk(0, t, before), p))
  {
    if p == 0 {
      MidwayStart(b, t.data, t, before);
    } else {
      OwnWalk(b, t, before, p - 1);
      MidwayStep(b, t.data, t.handlers, before, p - 1, Walked(b, Walk(0, t, before), p - 1));
    }
  }

  /** Where handlers remove at most themselves, the loop ends after as many turns as there are entries. */
  lemma OwnWalkEnds(b: Behaviour, t: Table, before: seq<HandlerCall>)
    requires Handled(t) && Distinct(t.data) && RemovesOnlyItself(b)
    ensures Over(Walked(b, Walk(0, t, before), |t.data|)) && Ends(b, Walk(0, t, before))
  {
    OwnWalk(b, t, before, |t.data|);
  }

  lemma OwnWalkVisitsAll(b: Behaviour, t: Table, before: seq<HandlerCall>, n: nat)
    requires Handled(t) && Distinct(t.data) && RemovesOnlyItself(b) && Over(Walked(b, Walk(0, t, before), n))
    ensures var s := Walked(b, Walk(0, t, before), n);
            VisitedAll(b, t, before, s.t, s.calls)
  {
    var v, start := t.data, Walk(0, t, before);
    OwnWalkEnds(b, t, before);
    OverForGood(b, start, if n < |v| then n else |v|, if n < |v| then |v| else n);
    OwnWalk(b, t, before, |v|);
    assert v[..|v|] == v && v[|v|..] == [];
  }

  /** The vector `kept + v[p..]`, with and without the entry at the cursor. */
  lemma MidwayData(kept: seq<PollFd>, v: seq<PollFd>, p: nat)
    requires p < |v|
    ensures var data, i := kept + v[p..], |kept|;
            && data[i] == v[p]
            && data[..i] + data[i + 1..] == kept + v[p + 1..]
            && data == (kept + [v[p]]) + v[p + 1..]
  {
    var data, i := kept + v[p..], |kept|;
    assert data[..i] == kept && data[i + 1..] == v[p + 1..];
    SplitHead(v[p..]);
    DropTwice(v, p, 1);
    Assoc(kept, [v[p]], v[p + 1..]);
  }

  lemma ReportedFds(v: seq<PollFd>, reported: seq<Revents>)
    requires |reported| == |v|
    ensures Fds(Reported(v, reported)) == Fds(v)
    ensures Distinct(v) ==> Distinct(Reported(v, reported))
    ensures forall i | 0 <= i < |v| :: v[i].fd in Fds(v)
  {
    var r := Reported(v, reported);
    forall i | 0 <= i < |v| ensures v[i].fd in Fds(r) && r[i].fd in Fds(v) {
      assert r[i] in r && v[i] in v;
    }
  }

  lemma {:induction false} KeptSplits(b: Behaviour, v: seq<PollFd>, last: PollFd, k: nat)
    ensures Kept(b, v + [last], k) ==
            Kept(b, v, k) + (if b(last.fd, EventOf(last.revents), k + |v|) == [] then [last] else [])
    decreases |v|
  {
    if v == [] {
      assert v + [last] == [last];
      assert Kept(b, [last][1..], k + 1) == [];
    } else {
      assert (v + [last])[1..] == v[1..] + [last];
      KeptSplits(b, v[1..], last, k + 1);
    }
  }

  lemma RemovedTwice(v: seq<PollFd>, fd: int)
    ensures Without(Without(v, fd), fd) == Without(v, fd)
  {
    var w := Without(v, fd);
    WithoutFds(v, fd);
    assert forall p | p in w :: p.fd in Fds(w);
    WithoutAbsent(w, fd);
  }

  /** Removing one descriptor again and again is removing it once. */
  lemma {:induction false} OwnRemovals(t: Table, fd: int, changes: seq<Change>)
    requires forall a | a in changes :: a == Removing(fd)
    ensures ChangedAll(t, changes) == if changes == [] then t else Changed(t, Removing(fd))
    decreases |changes|
  {
    if changes != [] {
      assert changes[0] in changes;
      forall a | a in changes[1..] ensures a == Removing(fd) {
        assert a in changes;
      }
      OwnRemovals(Changed(t, Removing(fd)), fd, changes[1..]);
      RemovedTwice(t.data, fd);
    }
  }
}
