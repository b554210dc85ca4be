/**
 Runs that show the exceptions of the protocol occur: a scope that is stranded, one that is destroyed
 twice, and a stranded one that is started after all.
 */
module ScopeExceptions {
  import opened AsyncScopes
  import opened ScopeSafety
  import opened ScopeHistory
  import opened ScopeDrain

  lemma Extend(ws: seq<World>, acts: seq<Action>, a: Action, w': World)
    requires Run(ws, acts) && Next(ws[|acts|], a, w')
    ensures Run(ws + [w'], acts + [a])
    ensures CarefulRun(ws, acts) && Careful(ws[|acts|], a) ==> CarefulRun(ws + [w'], acts + [a])
  {
    var ws', acts' := ws + [w'], acts + [a];
    forall i | 0 <= i < |acts'| ensures Next(ws'[i], acts'[i], ws'[i + 1]) {
      if i < |acts| {
        assert Next(ws[i], acts[i], ws[i + 1]);
      }
    }
    if CarefulRun(ws, acts) && Careful(ws[|acts|], a) {
      forall i | 0 <= i < |acts'| ensures Careful(ws'[i], acts'[i]) {
        if i < |acts| {
          assert Careful(ws[i], acts[i]);
        }
      }
    }
  }

  /** A root, its child `a`, and `b` beneath that. */
  ghost predicate Chain(root: Scope, a: Scope, b: Scope) {
    && root.parent == null && a.parent == root && b.parent == a
    && root.depth < a.depth < b.depth
  }

  /** A chain with the given nodes; `told` is the root's flag. */
  ghost function ChainNodes(root: Scope, told: bool, a: Scope, x: Node, b: Scope, y: Node): map<Scope, Node> {
    map[root := Node({a}, told, Unlocked, Valid), a := x, b := y]
  }

  /** A careful run that leaves `b` under `a` under the root, all unlocked and untold. */
  lemma ChainRun(root: Scope, a: Scope, b: Scope) returns (ws: seq<World>, acts: seq<Action>)
    requires Chain(root, a, b)
    ensures CarefulRun(ws, acts) && |acts| == 4
    ensures ws[4] == RootWorld(root).(nodes := ChainNodes(root, false, a, FRESH_NODE.(children := {b}), b, FRESH_NODE))
  {
    var w0 := RootWorld(root);
    var w1 := Create(w0, root, a);
    ws, acts := [w0], [];
    assert CarefulRun(ws, acts);
    Extend(ws, acts, Creating(root, a), w1);
    ws, acts := ws + [w1], acts + [Creating(root, a)];
    var w2 := LockStep(w1, a);
    Extend(ws, acts, Locking(a), w2);
    ws, acts := ws + [w2], acts + [Locking(a)];
    var w3 := Create(w2, a, b);
    Extend(ws, acts, Creating(a, b), w3);
    ws, acts := ws + [w3], acts + [Creating(a, b)];
    var w4 := With(w3, a, w3.nodes[a].(user := Unlocked));
    assert w4.nodes[root].children == {a} && w4.nodes[a].children == {b};
    Extend(ws, acts, Unlocking(a), w4);
    ws, acts := ws + [w4], acts + [Unlocking(a)];
  }

  /** The notification of a lone unlocked scope starts it. */
  lemma TellLeaf(w: World, b: Scope, w': World)
    requires Shaped(w) && b in w.nodes && b != w.root && w.nodes[b] == FRESH_NODE
    requires w' == World(w.root, w.nodes[b := Node({}, true, Unlocked, StartedDestruction)],
                         w.ops + [b], w.started + multiset{b}, w.finished)
    ensures Wave(w, {b}, w')
  {
    assert ShapedAt(w, b);
    WaveBelow(w, b, With(w, b, w.nodes[b].(told := true)), w');
  }

  /** The chain's `a` was detached, which started `b`. */
  ghost function DetachedChain(root: Scope, a: Scope, b: Scope): World {
    var x, y := Node({b}, false, UserState.Detached, Valid), Node({}, true, Unlocked, StartedDestruction);
    World(root, ChainNodes(root, false, a, x, b, y), [b], multiset{b}, multiset{})
  }

  lemma DetachedChainRun(root: Scope, a: Scope, b: Scope) returns (ws: seq<World>, acts: seq<Action>)
    requires Chain(root, a, b)
    ensures CarefulRun(ws, acts) && |acts| == 5
    ensures ws[5] == DetachedChain(root, a, b) && Shaped(ws[5])
  {
    ws, acts := ChainRun(root, a, b);
    var w4, w5 := ws[4], DetachedChain(root, a, b);
    var d := With(w4, a, w4.nodes[a].(user := UserState.Detached));
    assert ShapedAt(d, root) && ShapedAt(d, a) && ShapedAt(d, b);
    TellLeaf(d, b, w5);
    KeepsShape(d, w5);
    Extend(ws, acts, Detaching(a), w5);
    ws, acts := ws + [w5], acts + [Detaching(a)];
  }

  /**
   Detaching a scope that has a child, and letting the child complete, strands the scope: the root
   can then never shut down.
   */
  lemma DetachedParentIsStranded(root: Scope, a: Scope, b: Scope) returns (ws: seq<World>, acts: seq<Action>)
    requires Chain(root, a, b)
    ensures CarefulRun(ws, acts) && |acts| == 6
    ensures Stranded(ws[6], a) && !NoneStuck(ws[6])
  {
    ws, acts := DetachedChainRun(root, a, b);
    var w6 := Finish(ws[5]);
    Extend(ws, acts, Finishing, w6);
    ws, acts := ws + [w6], acts + [Finishing];
    assert Stuck(w6, a);
  }

  /** The chain's `b` was given up after it started, and so started twice. */
  ghost function TwiceStarted(root: Scope, a: Scope, b: Scope): World {
    var x, y := Node({b}, false, UserState.Detached, Valid), Node({}, true, UserState.Detached, StartedDestruction);
    World(root, ChainNodes(root, false, a, x, b, y), [b, b], multiset{b, b}, multiset{})
  }

  /** Then `b` completed once, and `a` is stranded; `told` says whether the root shuts down. */
  ghost function OnceCompleted(root: Scope, told: bool, a: Scope, b: Scope): World {
    var x, y := Node({}, told, UserState.Detached, Valid), Node({}, true, UserState.Detached, Destroyed);
    World(root, ChainNodes(root, told, a, x, b, y), [b], multiset{b, b}, multiset{b})
  }

  lemma CompletesOnce(root: Scope, a: Scope, b: Scope)
    requires Chain(root, a, b) && Shaped(TwiceStarted(root, a, b))
    ensures Finish(TwiceStarted(root, a, b)) == OnceCompleted(root, false, a, b)
  {
    var w, w' := TwiceStarted(root, a, b), OnceCompleted(root, false, a, b);
    assert w.ops[0] == b && w.ops[1..] == [b] && {b} - {b} == {};
    assert Finish(w).nodes == w'.nodes;
  }

  lemma SecondCompletionRun(root: Scope, a: Scope, b: Scope) returns (ws: seq<World>, acts: seq<Action>)
    requires Chain(root, a, b)
    ensures Run(ws, acts) && |acts| == 7 && ws[7] == OnceCompleted(root, false, a, b)
  {
    ws, acts := DetachedChainRun(root, a, b);
    var w5, w6 := ws[5], TwiceStarted(root, a, b);
    assert w6 == Start(With(w5, b, w5.nodes[b].(user := UserState.Detached)), b);
    KeepsShape(w5, w6);
    Extend(ws, acts, Detaching(b), w6);
    ws, acts := ws + [w6], acts + [Detaching(b)];
    CompletesOnce(root, a, b);
    var w7 := OnceCompleted(root, false, a, b);
    Extend(ws, acts, Finishing, w7);
    ws, acts := ws + [w7], acts + [Finishing];
  }

  /** The root's notification only marks the stranded `a`. */
  lemma StrandedIsTold(root: Scope, a: Scope, b: Scope)
    requires Chain(root, a, b)
    ensures var w' := OnceCompleted(root, true, a, b);
            Next(OnceCompleted(root, false, a, b), ShuttingDown, w') && Shaped(w') && Queued(w')
  {
    var w, w' := OnceCompleted(root, false, a, b), OnceCompleted(root, true, a, b);
    var t := With(w, root, w.nodes[root].(told := true));
    assert ShapedAt(t, root) && ShapedAt(t, a) && ShapedAt(t, b);
    WaveStops(t, a);
    assert w' == With(t, a, t.nodes[a].(told := true));
    KeepsShape(t, w');
  }

  /** A second completion of its child starts a stranded scope, once the root has told it. */
  lemma StrandedIsFreed(root: Scope, a: Scope, b: Scope) returns (ws: seq<World>, acts: seq<Action>)
    requires Chain(root, a, b)
    ensures Run(ws, acts) && |acts| == 9
    ensures Stranded(ws[7], a) && Frees(ws[8], acts[8], a) && a in ws[9].nodes && ws[9].nodes[a].state != Valid
  {
    ws, acts := SecondCompletionRun(root, a, b);
    StrandedIsTold(root, a, b);
    var w8 := OnceCompleted(root, true, a, b);
    Extend(ws, acts, ShuttingDown, w8);
    ws, acts := ws + [w8], acts + [ShuttingDown];
    var w9 := Finish(w8);
    assert w9.nodes[a].state == StartedDestruction;
    Extend(ws, acts, Finishing, w9);
    ws, acts := ws + [w9], acts + [Finishing];
  }

  /** A run that detaches a scope the root has already told, which starts it a second time. */
  lemma StartedTwice(root: Scope, a: Scope) returns (ws: seq<World>, acts: seq<Action>)
    requires root.parent == null && a.parent == root && root.depth < a.depth
    ensures Run(ws, acts) && |acts| == 3 && !Careful(ws[2], acts[2])
    ensures ws[3] == World(root, map[root := Node({a}, true, Unlocked, Valid),
                                     a := Node({}, true, UserState.Detached, StartedDestruction)],
                           [a, a], multiset{a, a}, multiset{})
  {
    var w0 := RootWorld(root);
    var w1 := Create(w0, root, a);
    ws, acts := [w0], [];
    Extend(ws, acts, Creating(root, a), w1);
    ws, acts := ws + [w1], acts + [Creating(root, a)];
    var t := With(w1, root, w1.nodes[root].(told := true));
    assert t.nodes[root].children == {a};
    assert ShapedAt(t, root) && ShapedAt(t, a);
    var w2 := World(root, t.nodes[a := Node({}, true, Unlocked, StartedDestruction)], [a], multiset{a}, multiset{});
    TellLeaf(t, a, w2);
    Extend(ws, acts, ShuttingDown, w2);
    ws, acts := ws + [w2], acts + [ShuttingDown];
    var w3 := Start(With(w2, a, w2.nodes[a].(user := UserState.Detached)), a);
    Extend(ws, acts, Detaching(a), w3);
    ws, acts := ws + [w3], acts + [Detaching(a)];
  }

  lemma FinishCounts(w: World)
    requires Shaped(w) && Queued(w) && w.ops != []
    ensures Finish(w).finished == w.finished + multiset{w.ops[0]}
    ensures Finish(w).started >= w.started
    ensures Finish(w).root == w.root
  {
  }

  /** Without care a scope is destroyed twice. */
  lemma FinishedTwice(root: Scope, a: Scope) returns (ws: seq<World>, acts: seq<Action>)
    requires root.parent == null && a.parent == root && root.depth < a.depth
    ensures Run(ws, acts) && |acts| == 5 && !Careful(ws[2], acts[2])
    ensures ws[5].started[a] >= 2 && ws[5].finished[a] == 2
  {
    ws, acts := StartedTwice(root, a);
    var w3 := ws[3];
    assert ShapedAt(w3, root) && ShapedAt(w3, a);
    var w4 := Finish(w3);
    FinishCounts(w3);
    Extend(ws, acts, Finishing, w4);
    ws, acts := ws + [w4], acts + [Finishing];
    assert w3.ops[1..] == [a];
    var w5 := Finish(w4);
    FinishCounts(w4);
    Extend(ws, acts, Finishing, w5);
    ws, acts := ws + [w5], acts + [Finishing];
  }
}
