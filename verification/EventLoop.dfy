/**
 The event loop's context: a queue of operations polled in batches. An operation may enqueue more
 operations, ask for a stop, or poll again; what the operation executed as the `k`-th does is the
 parameter `behave`, on which nothing is assumed.
 */
module EventLoop {
  import opened Sequences

  /** Polling the reactor is queued by the loop itself; any other operation is a callable of the user. */
  datatype Op = ReactorPoll | User(id: nat)

  datatype Action = Enqueuing(id: nat) | Polling | Stopping

  type Behaviour = (Op, nat) -> seq<Action>

  /** The queue and flags, with everything executed and everything enqueued so far. */
  datatype Loop = Loop(ops: seq<Op>, pollInProgress: bool, stopRequested: bool, executed: seq<Op>, enqueued: seq<Op>)

  const UINT32: nat := 0x1_0000_0000

  // ---------- What the operations do ----------

  function Push(l: Loop, op: Op): Loop {
    l.(ops := l.ops + [op], enqueued := l.enqueued + [op])
  }

  /** One action of a running operation. A poll is then nested and does nothing. */
  function Act(l: Loop, a: Action): Loop {
    match a
    case Enqueuing(id) => Push(l, User(id))
    case Polling => l
    case Stopping => l.(stopRequested := true)
  }

  function ActAll(l: Loop, script: seq<Action>): (l': Loop)
    ensures l.ops <= l'.ops
    decreases |script|
  {
    if script == [] then l else ActAll(Act(l, script[0]), script[1..])
  }

  function RunFront(b: Behaviour, l: Loop): (l': Loop)
    requires l.ops != []
    ensures l.ops[1..] <= l'.ops
  {
    var op := l.ops[0];
    ActAll(l.(ops := l.ops[1..], executed := l.executed + [op]), b(op, |l.executed|))
  }

  function RunMany(b: Behaviour, l: Loop, n: nat): (l': Loop)
    requires n <= |l.ops|
    ensures l.ops[n..] <= l'.ops
  {
    if n == 0 then l else RunFront(b, RunMany(b, l, n - 1))
  }

  /** A poll that is not nested: the reactor is queued last, and the batch present then is run. */
  function PollLoop(b: Behaviour, l: Loop): Loop {
    if l.pollInProgress then l
    else
      var l1 := Push(l.(pollInProgress := true), ReactorPoll);
      RunMany(b, l1, |l1.ops|).(pollInProgress := false)
  }

  /** A stop was requested and nothing is queued, which is when the user's loop of polls ends. */
  predicate Stopped(l: Loop) {
    l.stopRequested && l.ops == []
  }

  // ---------- The context object ----------

  class Context {
    const behave: Behaviour
    var ops: seq<Op>
    var pollInProgress: bool
    var stopRequested: bool
    var executed: seq<Op>
    ghost var enqueued: seq<Op>

    ghost function State(): Loop
      reads this
    {
      Loop(ops, pollInProgress, stopRequested, executed, enqueued)
    }

    constructor (behave: Behaviour)
      ensures this.behave == behave && State() == Loop([], false, false, [], [])
    {
      this.behave := behave;
      ops, pollInProgress, stopRequested := [], false, false;
      executed, enqueued := [], [];
    }

    method Enqueue(op: Op)
      modifies this
      ensures ops == old(ops) + [op] && enqueued == old(enqueued) + [op]
      ensures State() == Push(old(State()), op)
    {
      ops := ops + [op];
      enqueued := enqueued + [op];
    }

    method Stop()
      modifies this
      ensures State() == old(State()).(stopRequested := true)
    {
      stopRequested := true;
    }

    method IsStopped() returns (stopped: bool)
      ensures stopped <==> stopRequested && ops == []
      ensures stopped <==> Stopped(State())
    {
      return |ops| == 0 && stopRequested;
    }

    /** Calls an operation, the `k`-th to run, while a poll is in progress. */
    method Call(op: Op, k: nat)
      requires pollInProgress
      modifies this
      ensures pollInProgress && State() == ActAll(old(State()), behave(op, k))
      decreases 1, 0
    {
      var script := behave(op, k);
      ghost var l := State();
      for i := 0 to |script|
        invariant pollInProgress && ActAll(l, script) == ActAll(State(), script[i..])
      {
        assert script[i..][1..] == script[i + 1..];
        match script[i]
        case Enqueuing(id) => Enqueue(User(id));
        case Polling =>
          var n := Poll();
          assert n == 0;
        case Stopping => Stop();
      }
    }

    /** The result counts the operations run, in 32 bits. */
    method Poll() returns (n: nat)
      modifies this
      ensures State() == PollLoop(behave, old(State()))
      ensures n == (if old(pollInProgress) then 0 else (|old(ops)| + 1) % 0x1_0000_0000)
      ensures !old(pollInProgress) && |old(ops)| + 1 < 0x1_0000_0000 ==> n == |old(ops)| + 1
      decreases if pollInProgress then 0 else 2
    {
      if pollInProgress {
        return 0;
      }
      pollInProgress := true;
      Enqueue(ReactorPoll);
      n := |ops| % UINT32;
      RunBatch(|ops|);
      pollInProgress := false;
    }

    /** Runs the first `count` operations. */
    method RunBatch(count: nat)
      requires pollInProgress && count <= |ops|
      modifies this
      ensures pollInProgress && State() == RunMany(behave, old(State()), count)
      decreases 1, 2
    {
      ghost var l := State();
      for i := 0 to count
        invariant pollInProgress && State() == RunMany(behave, l, i)
      {
        RunOne();
      }
    }

    /** Takes the operation at the front off the queue and runs it. */
    method RunOne()
      requires pollInProgress && ops != []
      modifies this
      ensures pollInProgress && State() == RunFront(behave, old(State()))
      decreases 1, 1
    {
      var op, k := ops[0], |executed|;
      ops := ops[1..];
      executed := executed + [op];
      Call(op, k);
    }
  }

  // ---------- Batches ----------

  /** The operations a script enqueues. */
  function Posted(script: seq<Action>): seq<Op> {
    if script == [] then []
    else (if script[0].Enqueuing? then [User(script[0].id)] else []) + Posted(script[1..])
  }

  /** The operations that `ops` enqueue when they run in order, the first as the `k`-th. */
  function Spawned(b: Behaviour, ops: seq<Op>, k: nat): seq<Op>
    decreases |ops|
  {
    if ops == [] then [] else Posted(b(ops[0], k)) + Spawned(b, ops[1..], k + 1)
  }

  /** Some operation of `ops` asks for a stop when they run in order, the first as the `k`-th. */
  predicate Stops(b: Behaviour, ops: seq<Op>, k: nat)
    decreases |ops|
  {
    ops != [] && (Stopping in b(ops[0], k) || Stops(b, ops[1..], k + 1))
  }

  lemma {:induction false} ActAllPosts(l: Loop, script: seq<Action>)
    ensures var l' := ActAll(l, script);
            && l'.ops == l.ops + Posted(script) && l'.enqueued == l.enqueued + Posted(script)
            && l'.executed == l.executed && l'.pollInProgress == l.pollInProgress
            && (l'.stopRequested <==> l.stopRequested || Stopping in script)
    decreases |script|
  {
    if script != [] {
      ActAllPosts(Act(l, script[0]), script[1..]);
      assert script == [script[0]] + script[1..];
    }
  }

  lemma {:induction false} SpawnedSplits(b: Behaviour, ops: seq<Op>, op: Op, k: nat)
    ensures Spawned(b, ops + [op], k) == Spawned(b, ops, k) + Posted(b(op, k + |ops|))
    decreases |ops|
  {
    if ops == [] {
      assert ops + [op] == [op];
      assert Spawned(b, [op][1..], k + 1) == [];
    } else {
      assert (ops + [op])[1..] == ops[1..] + [op];
      SpawnedSplits(b, ops[1..], op, k + 1);
    }
  }

  lemma {:induction false} StopsSplits(b: Behaviour, ops: seq<Op>, more: seq<Op>, k: nat)
    ensures Stops(b, ops + more, k) <==> Stops(b, ops, k) || Stops(b, more, k + |ops|)
    decreases |ops|
  {
    if ops == [] {
      ConcatEmpty(more);
    } else {
      assert (ops + more)[1..] == ops[1..] + more;
      StopsSplits(b, ops[1..], more, k + 1);
    }
  }

  lemma RunFrontPosts(b: Behaviour, l: Loop)
    requires l.ops != []
    ensures var l' := RunFront(b, l);
            var posted := Posted(b(l.ops[0], |l.executed|));
            && l'.executed == l.executed + [l.ops[0]] && l'.ops == l.ops[1..] + posted
            && l'.enqueued == l.enqueued + posted && l'.pollInProgress == l.pollInProgress
            && (l'.stopRequested <==> l.stopRequested || Stops(b, [l.ops[0]], |l.executed|))
  {
    ActAllPosts(l.(ops := l.ops[1..], executed := l.executed + [l.ops[0]]), b(l.ops[0], |l.executed|));
  }

  /** `l'` is `l` after its first `n` operations ran in order, and queued `spawned` behind the others. */
  ghost predicate Ran(l: Loop, n: nat, spawned: seq<Op>, l': Loop)
    requires n <= |l.ops|
  {
    && l'.executed == l.executed + l.ops[..n]
    && l'.ops == l.ops[n..] + spawned
    && l'.enqueued == l.enqueued + spawned
    && l'.pollInProgress == l.pollInProgress
  }

  lemma {:induction false} RunManyRunsBatch(b: Behaviour, l: Loop, n: nat)
    requires n <= |l.ops|
    ensures Ran(l, n, Spawned(b, l.ops[..n], |l.executed|), RunMany(b, l, n))
  {
    if n == 0 {
      assert l.ops[..0] == [] && l.ops[0..] == l.ops;
      assert l.executed + [] == l.executed && l.ops + [] == l.ops && l.enqueued + [] == l.enqueued;
    } else {
      RunManyRunsBatch(b, l, n - 1);
      var m := RunMany(b, l, n - 1);
      var op, spawned := l.ops[n - 1], Spawned(b, l.ops[..n - 1], |l.executed|);
      var posted := Posted(b(op, |m.executed|));
      assert m.ops[0] == op && m.ops[1..] == l.ops[n..] + spawned && RunMany(b, l, n) == RunFront(b, m);
      assert l.ops[..n] == l.ops[..n - 1] + [op];
      SpawnedSplits(b, l.ops[..n - 1], op, |l.executed|);
      RunFrontPosts(b, m);
      Assoc(l.executed, l.ops[..n - 1], [op]);
      Assoc(l.ops[n..], spawned, posted);
      Assoc(l.enqueued, spawned, posted);
    }
  }

  lemma {:induction false} RunManyStopsIff(b: Behaviour, l: Loop, n: nat)
    requires n <= |l.ops|
    ensures RunMany(b, l, n).stopRequested <==> l.stopRequested || Stops(b, l.ops[..n], |l.executed|)
  {
    if n > 0 {
      RunManyStopsIff(b, l, n - 1);
      RunManyRunsBatch(b, l, n - 1);
      var m := RunMany(b, l, n - 1);
      assert m.ops[0] == l.ops[n - 1] && l.ops[..n] == l.ops[..n - 1] + [m.ops[0]];
      assert |m.executed| == |l.executed| + |l.ops[..n - 1]| && RunMany(b, l, n) == RunFront(b, m);
      StopsSplits(b, l.ops[..n - 1], [m.ops[0]], |l.executed|);
      RunFrontPosts(b, m);
    }
  }

  /** The batch a poll runs: what was queued at entry, and the reactor. */
  function Batch(l: Loop): seq<Op> {
    l.ops + [ReactorPoll]
  }

  /**
   A poll runs exactly its batch, in order, and leaves queued exactly what the batch enqueued. A
   nested poll changes nothing.
   */
  lemma PollRunsItsBatch(b: Behaviour, l: Loop)
    ensures l.pollInProgress ==> PollLoop(b, l) == l
    ensures !l.pollInProgress ==>
              var l' := PollLoop(b, l);
              && l'.executed == l.executed + Batch(l)
              && l'.ops == Spawned(b, Batch(l), |l.executed|)
              && l'.enqueued == l.enqueued + [ReactorPoll] + l'.ops
              && !l'.pollInProgress
              && (l'.stopRequested <==> l.stopRequested || Stops(b, Batch(l), |l.executed|))
  {
    if !l.pollInProgress {
      var l1 := Push(l.(pollInProgress := true), ReactorPoll);
      RunManyRunsBatch(b, l1, |l1.ops|);
      RunManyStopsIff(b, l1, |l1.ops|);
      assert l1.ops[..|l1.ops|] == Batch(l) && l1.ops[|l1.ops|..] == [];
    }
  }

  // ---------- Whole runs ----------

  /** What happens between polls: the user enqueues or stops, or polls. */
  datatype Request = Post(id: nat) | PollNow | StopNow

  function Serve(b: Behaviour, l: Loop, r: Request): Loop {
    match r
    case Post(id) => Push(l, User(id))
    case PollNow => PollLoop(b, l)
    case StopNow => l.(stopRequested := true)
  }

  function ServeAll(b: Behaviour, l: Loop, rs: seq<Request>): Loop
    decreases |rs|
  {
    if rs == [] then l else ServeAll(b, Serve(b, l, rs[0]), rs[1..])
  }

  ghost predicate Balanced(l: Loop) {
    !l.pollInProgress && l.executed + l.ops == l.enqueued
  }

  /** In every run, what was executed followed by what is queued is all that was enqueued, in order. */
  lemma {:induction false} NothingLostOrReordered(b: Behaviour, l: Loop, rs: seq<Request>)
    requires Balanced(l)
    ensures Balanced(ServeAll(b, l, rs))
    ensures l.executed <= ServeAll(b, l, rs).executed && l.enqueued <= ServeAll(b, l, rs).enqueued
    ensures l.stopRequested ==> ServeAll(b, l, rs).stopRequested
    decreases |rs|
  {
    if rs != [] {
      var l1 := Serve(b, l, rs[0]);
      PollRunsItsBatch(b, l);
      assert Balanced(l1) by {
        if rs[0].PollNow? {
          assert l1.executed + l1.ops == l.executed + l.ops + [ReactorPoll] + l1.ops;
        }
      }
      NothingLostOrReordered(b, l1, rs[1..]);
    }
  }

  /** The loop after `g` polls in a row. */
  function Polls(b: Behaviour, l: Loop, g: nat): Loop {
    if g == 0 then l else PollLoop(b, Polls(b, l, g - 1))
  }

  /** The batches of the first `g` polls, one after the other. */
  function Generations(b: Behaviour, l: Loop, g: nat): seq<Op> {
    if g == 0 then [] else Generations(b, l, g - 1) + Batch(Polls(b, l, g - 1))
  }

  /** Polling again and again executes generation after generation. */
  lemma {:induction false} PollsRunGenerations(b: Behaviour, l: Loop, g: nat)
    requires !l.pollInProgress
    ensures !Polls(b, l, g).pollInProgress
    ensures Polls(b, l, g).executed == l.executed + Generations(b, l, g)
  {
    if g == 0 {
      assert l.executed + [] == l.executed;
    } else {
      PollsRunGenerations(b, l, g - 1);
      var m := Polls(b, l, g - 1);
      PollRunsItsBatch(b, m);
      Assoc(l.executed, Generations(b, l, g - 1), Batch(m));
    }
  }

  /**
   Breadth first: a generation is what the one before enqueued, in the order in which its operations
   ran, and the reactor.
   */
  lemma GenerationsAreBreadthFirst(b: Behaviour, l: Loop, g: nat)
    requires !l.pollInProgress
    ensures Batch(Polls(b, l, g + 1)) ==
            Spawned(b, Batch(Polls(b, l, g)), |l.executed + Generations(b, l, g)|) + [ReactorPoll]
  {
    PollsRunGenerations(b, l, g);
    PollRunsItsBatch(b, Polls(b, l, g));
  }

  // ---------- When the loop ends ----------

  /**
   After a poll the context is stopped iff a stop was requested, before or by an operation of the
   batch, and the batch enqueued nothing.
   */
  lemma PollStopsIff(b: Behaviour, l: Loop)
    requires !l.pollInProgress
    ensures Stopped(PollLoop(b, l)) <==>
            && (l.stopRequested || Stops(b, Batch(l), |l.executed|))
            && Spawned(b, Batch(l), |l.executed|) == []
  {
    PollRunsItsBatch(b, l);
  }

  /** `m` is not polling, has executed `gens` since `l`, and has a stop requested iff `l` had or they asked for it. */
  ghost predicate StopsLike(b: Behaviour, l: Loop, gens: seq<Op>, m: Loop) {
    && !m.pollInProgress
    && |m.executed| == |l.executed| + |gens|
    && (m.stopRequested <==> l.stopRequested || Stops(b, gens, |l.executed|))
  }

  lemma NextGenerationStops(b: Behaviour, l: Loop, gens: seq<Op>, m: Loop)
    requires StopsLike(b, l, gens, m)
    ensures StopsLike(b, l, gens + Batch(m), PollLoop(b, m))
  {
    PollRunsItsBatch(b, m);
    StopsSplits(b, gens, Batch(m), |l.executed|);
  }

  /** Over all generations so far, a stop is requested iff one was before or an operation run asked for it. */
  lemma {:induction false} StopIsRequestedIff(b: Behaviour, l: Loop, g: nat)
    requires !l.pollInProgress
    ensures StopsLike(b, l, Generations(b, l, g), Polls(b, l, g))
  {
    if g > 0 {
      StopIsRequestedIff(b, l, g - 1);
      NextGenerationStops(b, l, Generations(b, l, g - 1), Polls(b, l, g - 1));
    }
  }

  /** What is queued after `g` polls: what was queued before, or what the last generation enqueued. */
  function LeftQueued(b: Behaviour, l: Loop, g: nat): seq<Op> {
    if g == 0 then l.ops else
    var m := Polls(b, l, g - 1);
    Spawned(b, Batch(m), |m.executed|)
  }

  lemma PollsLeave(b: Behaviour, l: Loop, g: nat)
    requires !l.pollInProgress
    ensures Polls(b, l, g).ops == LeftQueued(b, l, g)
  {
    if g > 0 {
      PollsRunGenerations(b, l, g - 1);
      PollRunsItsBatch(b, Polls(b, l, g - 1));
    }
  }

  /**
   Some operation of the first `g` generations asked for a stop, or one was requested before, and the
   last generation enqueued nothing.
   */
  predicate StopDue(b: Behaviour, l: Loop, g: nat) {
    (l.stopRequested || Stops(b, Generations(b, l, g), |l.executed|)) && LeftQueued(b, l, g) == []
  }

  lemma StoppedIffDue(b: Behaviour, l: Loop, g: nat)
    requires !l.pollInProgress
    ensures Stopped(Polls(b, l, g)) <==> StopDue(b, l, g)
  {
    StopIsRequestedIff(b, l, g);
    PollsLeave(b, l, g);
  }

  /** The user's loop `while !IsStopped() { Poll(); }` polls exactly `g` times. */
  ghost predicate LoopEndsAfter(b: Behaviour, l: Loop, g: nat) {
    Stopped(Polls(b, l, g)) && forall j: nat | j < g :: !Stopped(Polls(b, l, j))
  }

  /** The loop ends after the first generation, or before any, at which a stop is due. */
  lemma LoopEndsIff(b: Behaviour, l: Loop, g: nat)
    requires !l.pollInProgress
    ensures LoopEndsAfter(b, l, g) <==> StopDue(b, l, g) && forall j: nat | j < g :: !StopDue(b, l, j)
  {
    forall j: nat | j <= g ensures Stopped(Polls(b, l, j)) <==> StopDue(b, l, j) {
      StoppedIffDue(b, l, j);
    }
  }

  /** The user's loop, when it ends. */
  method PollUntilStopped(ctx: Context, ghost g: nat)
    requires LoopEndsAfter(ctx.behave, ctx.State(), g)
    modifies ctx
    ensures ctx.State() == Polls(ctx.behave, old(ctx.State()), g)
  {
    ghost var l, m := ctx.State(), ctx.State();
    ghost var polls: nat := 0;
    var stopped := ctx.IsStopped();
    while !stopped
      invariant polls <= g && m == ctx.State() && m == Polls(ctx.behave, l, polls)
      invariant stopped <==> Stopped(m)
      decreases g - polls
    {
      NotYetStopped(ctx.behave, l, g, polls);
      var _ := ctx.Poll();
      m, polls := PollLoop(ctx.behave, m), polls + 1;
      stopped := ctx.IsStopped();
    }
  }

  lemma NotYetStopped(b: Behaviour, l: Loop, g: nat, polls: nat)
    requires LoopEndsAfter(b, l, g) && polls <= g
    ensures polls < g <==> !Stopped(Polls(b, l, polls))
    ensures Polls(b, l, polls + 1) == PollLoop(b, Polls(b, l, polls))
  {
  }
}
