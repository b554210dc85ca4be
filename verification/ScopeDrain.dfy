/**
 The root's destructor: it tells every child and polls until no child is left. Where no scope started
 twice, it ends exactly when no scope is stuck, that is locked or stranded, and then the whole tree
 has been destroyed.
 */
module ScopeDrain {
  import opened AsyncScopes
  import opened ScopeSafety
  import opened ScopeHistory

  /** A scope nothing in the queue can ever start. */
  ghost predicate Stuck(w: World, n: Scope) {
    && Held(w, n) && w.nodes[n].state == Valid
    && (w.nodes[n].user == Locked || (w.nodes[n].user == UserState.Detached && w.nodes[n].children == {}))
  }

  ghost predicate NoneStuck(w: World) {
    forall n | n in w.nodes :: !Stuck(w, n)
  }

  /** The destructor has told the children, and nothing is stuck. */
  ghost predicate Draining(w: World) {
    Core(w) && Once(w) && w.nodes[w.root].told && NoneStuck(w)
  }

  /** The scopes the destructor still waits for. */
  ghost function Live(w: World): set<Scope> {
    set n | n in w.nodes && n != w.root && w.nodes[n].state != Destroyed
  }

  /** Every scope was destroyed, having started and finished once, and nothing is queued. */
  ghost predicate TornDown(w: World) {
    && w.ops == []
    && (forall n | n in w.nodes && n != w.root ::
          w.nodes[n].state == Destroyed && w.started[n] == 1 && w.finished[n] == 1)
  }

  // ---------- A live scope keeps its ancestors alive ----------

  lemma LiveIsChild(w: World, n: Scope)
    requires Core(w) && Once(w) && n in Live(w)
    ensures n.parent != null && n.parent in w.nodes && n in w.nodes[n.parent].children
    ensures w.nodes[n.parent].state == Valid && n.parent.depth < n.depth
  {
    assert ShapedAt(w, n) && OnceOk(w, n) && NodeOk(w, n.parent);
  }

  lemma {:induction false} LiveHoldsRoot(w: World, n: Scope)
    requires Core(w) && Once(w) && n in Live(w)
    ensures w.nodes[w.root].children != {} && w.nodes[w.root].state == Valid
    decreases n.depth
  {
    LiveIsChild(w, n);
    if n.parent != w.root {
      LiveHoldsRoot(w, n.parent);
    }
  }

  /** While nothing is stuck, the notification has reached every live scope. */
  lemma {:induction false} LiveIsTold(w: World, n: Scope)
    requires Draining(w) && n in Live(w)
    ensures w.nodes[n].told
    decreases n.depth
  {
    LiveIsChild(w, n);
    assert WaveOk(w, n.parent) && NodeOk(w, n.parent);
    if n.parent != w.root {
      LiveIsTold(w, n.parent);
      assert !Stuck(w, n.parent);
    }
  }

  ghost function Deeper(w: World, n: Scope): set<Scope> {
    set m | m in w.nodes && m.depth > n.depth
  }

  /** While nothing is stuck, some completion is queued for as long as a scope is live. */
  lemma {:induction false} LiveIsQueued(w: World, n: Scope)
    requires Draining(w) && n in Live(w)
    ensures w.ops != []
    decreases Deeper(w, n)
  {
    LiveIsTold(w, n);
    assert OnceOk(w, n) && NodeOk(w, n) && WaveOk(w, n) && ShapedAt(w, n) && !Stuck(w, n);
    if w.nodes[n].children == {} {
      assert multiset(w.ops)[n] == 1;
    } else {
      var c :| c in w.nodes[n].children;
      assert ShapedAt(w, c) && OnceOk(w, c);
      assert c in Deeper(w, n) && Deeper(w, c) <= Deeper(w, n);
      LiveIsQueued(w, c);
    }
  }

  // ---------- Each completion shrinks the live tree ----------

  lemma FinishShrinksLive(w: World)
    requires Core(w) && Once(w) && w.ops != []
    ensures Live(Finish(w)) == Live(w) - {w.ops[0]} && w.ops[0] in Live(w)
  {
    var n := w.ops[0];
    assert n in w.ops && ShapedAt(w, n) && OnceOk(w, n) && NodeOk(w, n.parent);
    assert multiset(w.ops)[n] > 0;
    assert n in w.nodes[n.parent].children && w.nodes[n.parent].state == Valid;
    assert ShapedAt(w, n.parent);
    var w' := Finish(w);
    assert n.parent != w.root ==> w'.nodes[n.parent].state != Destroyed;
    assert w'.nodes[n].state == Destroyed;
  }

  lemma FinishKeepsRoot(w: World)
    requires Core(w) && Once(w) && w.ops != []
    ensures Finish(w).root == w.root && Finish(w).nodes.Keys == w.nodes.Keys
    ensures w.nodes[w.root].told ==> Finish(w).nodes[w.root].told
    ensures w.nodes[w.root].told && w.nodes[w.root].children != {} && Finish(w).nodes[w.root].children == {}
            ==> Finish(w).nodes[w.root].state == Destroyed
    ensures w.nodes[w.root].children == {} ==> Finish(w).nodes[w.root] == w.nodes[w.root]
  {
    var n := w.ops[0];
    assert n in w.ops && ShapedAt(w, w.root) && OnceOk(w, n) && NodeOk(w, w.root);
    assert multiset(w.ops)[n] > 0;
    FinishChanges(w, w.root);
    FinishGrows(w);
  }

  lemma FinishKeepsDraining(w: World)
    requires Draining(w) && w.ops != []
    ensures Draining(Finish(w))
  {
    var w' := Finish(w);
    FinishKeepsCore(w);
    FinishKeepsOnce(w);
    FinishKeepsRoot(w);
    forall n | n in w'.nodes ensures !Stuck(w', n) {
      if Held(w, n) {
        FinishStrands(w, n);
        OnceFreesNone(w, Finishing, n);
        if n in Live(w) {
          LiveIsTold(w, n);
        }
        FinishChanges(w, n);
        FinishKeepsLocks(w, n);
        assert !Stuck(w, n);
        assert NodeOk(w, n) && OnceOk(w, n);
      }
    }
  }

  lemma FinishKeepsLocks(w: World, n: Scope)
    requires Core(w) && w.ops != [] && n in w.nodes
    ensures n in Finish(w).nodes && Finish(w).nodes[n].user == w.nodes[n].user
    ensures w.nodes[n].user == Locked ==> Finish(w).nodes[n].state == w.nodes[n].state
  {
    FinishChanges(w, n);
    assert w.ops[0] in w.ops && NodeOk(w, w.ops[0]);
  }

  /** What one poll by the root makes of a draining tree. */
  lemma {:induction false} PollDrains(w: World, k: nat)
    requires Draining(w) && k <= |w.ops|
    ensures var w' := FinishMany(w, k);
            && Draining(w') && w'.root == w.root && w'.nodes.Keys == w.nodes.Keys
            && Live(w') <= Live(w) && (k > 0 ==> Live(w') < Live(w))
            && (w.nodes[w.root].children != {} && w'.nodes[w'.root].children == {} ==>
                  w'.nodes[w'.root].state == Destroyed)
            && (w.nodes[w.root].children == {} ==> w'.nodes[w'.root] == w.nodes[w.root])
  {
    if k > 0 {
      PollDrains(w, k - 1);
      var w1 := FinishMany(w, k - 1);
      FinishKeepsDraining(w1);
      FinishShrinksLive(w1);
      FinishKeepsRoot(w1);
    }
  }

  lemma NoChildrenIsTornDown(w: World)
    requires Core(w) && Once(w) && w.nodes[w.root].children == {}
    ensures TornDown(w)
  {
    assert w.ops != [] ==> w.ops[0] in w.ops && w.ops[0] != w.root;
    forall n | n in w.nodes && n != w.root
      ensures w.nodes[n].state == Destroyed && w.started[n] == 1 && w.finished[n] == 1 && n !in w.ops
    {
      if n in Live(w) {
        LiveHoldsRoot(w, n);
      }
      assert OnceOk(w, n);
    }
  }

  lemma ShutdownStarts(w: World, w': World)
    requires Core(w) && Once(w) && ShutdownStep(w, w') && !w.nodes[w.root].told
    ensures Core(w') && Once(w') && w'.nodes[w'.root].told && w'.root == w.root
    ensures w'.nodes[w.root].children == w.nodes[w.root].children && w'.nodes[w.root].state == w.nodes[w.root].state
    ensures forall n :: Stuck(w', n) <==> Stuck(w, n)
  {
    NextKeepsCore(w, ShuttingDown, w');
    ShutdownKeepsOnce(w, w');
  }

  // ---------- Exactly when the destructor ends ----------

  /** One poll of the context. */
  ghost function PollNext(w: World): (w': World)
    requires Shaped(w) && Queued(w)
    ensures Shaped(w') && Queued(w')
  {
    FinishMany(w, |w.ops|)
  }

  ghost function Polls(w: World, j: nat): (w': World)
    requires Shaped(w) && Queued(w)
    ensures Shaped(w') && Queued(w')
  {
    if j == 0 then w else PollNext(Polls(w, j - 1))
  }

  lemma FinishKeepsStuck(w: World, n: Scope)
    requires Core(w) && Once(w) && w.ops != [] && Stuck(w, n)
    ensures Stuck(Finish(w), n)
  {
    FinishStrands(w, n);
    OnceFreesNone(w, Finishing, n);
    FinishKeepsLocks(w, n);
    FinishKeepsRoot(w);
  }

  lemma {:induction false} FinishManyKeepsStuck(w: World, k: nat, n: Scope)
    requires Core(w) && Once(w) && k <= |w.ops| && Stuck(w, n)
    ensures Core(FinishMany(w, k)) && Once(FinishMany(w, k)) && Stuck(FinishMany(w, k), n)
  {
    if k > 0 {
      FinishManyKeepsStuck(w, k - 1, n);
      var w1 := FinishMany(w, k - 1);
      FinishKeepsCore(w1);
      FinishKeepsOnce(w1);
      FinishKeepsStuck(w1, n);
    }
  }

  lemma PollKeepsStuck(w: World, n: Scope)
    requires Core(w) && Once(w) && Stuck(w, n)
    ensures Core(PollNext(w)) && Once(PollNext(w)) && Stuck(PollNext(w), n)
  {
    FinishManyKeepsStuck(w, |w.ops|, n);
  }

  lemma {:induction false} PollsKeepStuck(w: World, j: nat, n: Scope)
    requires Core(w) && Once(w) && Stuck(w, n)
    ensures Core(Polls(w, j)) && Once(Polls(w, j)) && Stuck(Polls(w, j), n)
  {
    if j > 0 {
      PollsKeepStuck(w, j - 1, n);
      PollKeepsStuck(Polls(w, j - 1), n);
    }
  }

  /** No number of polls frees a stuck scope, so the root never loses its last child. */
  lemma StuckForever(w: World, j: nat, n: Scope)
    requires Core(w) && Once(w) && Stuck(w, n)
    ensures var w' := Polls(w, j);
            && Core(w') && Once(w') && Stuck(w', n)
            && w'.nodes[w'.root].children != {} && w'.nodes[w'.root].state != Destroyed
  {
    PollsKeepStuck(w, j, n);
    LiveHoldsRoot(Polls(w, j), n);
  }

  lemma Smaller<T>(a: set<T>, b: set<T>)
    requires a < b
    ensures |a| < |b|
  {
    assert b == a + (b - a);
  }

  lemma PollShrinks(w: World)
    requires Draining(w) && w.nodes[w.root].children != {}
    ensures |Live(PollNext(w))| < |Live(w)|
  {
    var child :| child in w.nodes[w.root].children;
    assert ShapedAt(w, w.root) && ShapedAt(w, child) && OnceOk(w, child);
    LiveIsQueued(w, child);
    PollDrains(w, |w.ops|);
    Smaller(Live(PollNext(w)), Live(w));
  }

  /** `j` polls have taken at least `j` scopes from the live ones. */
  ghost predicate ShrinksTo(w: World, m: World, j: nat)
    requires w.root in w.nodes
  {
    DrainsTo(w, m) && |Live(m)| + j <= |Live(w)|
  }

  lemma PollShrinksOn(w: World, m: World, j: nat)
    requires w.root in w.nodes && ShrinksTo(w, m, j) && m.nodes[m.root].children != {}
    ensures ShrinksTo(w, PollNext(m), j + 1)
  {
    PollDrainsOn(w, m);
    PollShrinks(m);
  }

  lemma {:induction false} PollsDrainFrom(w: World, m: World, j: nat) returns (k: nat)
    requires Shaped(w) && Queued(w) && ShrinksTo(w, m, j) && m == Polls(w, j)
    ensures k <= |Live(w)| && Drained(w, k)
    decreases |Live(m)|
  {
    if m.nodes[m.root].children == {} {
      return j;
    }
    PollShrinksOn(w, m, j);
    PollShrinks(m);
    k := PollsDrainFrom(w, PollNext(m), j + 1);
  }

  /** Where nothing is stuck, there are at most as many polls as live scopes. */
  lemma PollsDrain(w: World)
    requires Draining(w)
    ensures exists j: nat :: j <= |Live(w)| && Drained(w, j)
  {
    var j := PollsDrainFrom(w, w, 0);
  }

  /** After enough polls the loop of the destructor is over. */
  ghost predicate DrainEnds(w: World) {
    Shaped(w) && Queued(w) && exists j: nat :: Drained(w, j)
  }

  /** After `j` polls the loop of the destructor is over. */
  ghost predicate Drained(w: World, j: nat)
    requires Shaped(w) && Queued(w)
  {
    var w' := Polls(w, j);
    w'.nodes[w'.root].children == {} || w'.nodes[w'.root].state == Destroyed
  }

  /** Once the root was told, polling ends iff no scope is locked or stranded. */
  lemma EndsIffNoneStuck(w: World)
    requires Core(w) && Once(w) && w.nodes[w.root].told
    ensures DrainEnds(w) <==> NoneStuck(w)
  {
    if NoneStuck(w) {
      PollsDrain(w);
    } else {
      var n :| n in w.nodes && Stuck(w, n);
      forall j: nat ensures !Drained(w, j) {
        StuckForever(w, j, n);
      }
    }
  }

  /** Once the root has told its children, polling ends iff no scope was locked or stranded. */
  lemma DrainEndsIffNoneStuck(w: World, w': World)
    requires Core(w) && Once(w) && Next(w, ShuttingDown, w')
    ensures DrainEnds(w') <==> NoneStuck(w)
  {
    ShutdownStarts(w, w');
    EndsIffNoneStuck(w');
  }

  /** What stuck means over a whole careful run. */
  lemma StuckIffHistory(ws: seq<World>, acts: seq<Action>, i: nat)
    requires CarefulRun(ws, acts) && i < |ws|
    ensures NoneStuck(ws[i]) <==>
            (forall n | n in ws[i].nodes && n != ws[i].root ::
               ws[i].nodes[n].user != Locked && !StrandedBefore(ws, i, n))
  {
    var w := ws[i];
    RunsKeepCore(ws, acts, i);
    forall n | n in w.nodes && n != w.root
      ensures Stuck(w, n) <==> w.nodes[n].user == Locked || StrandedBefore(ws, i, n)
    {
      CarefulRunsMissStranded(ws, acts, i, n);
      MissedIsStranded(w, n);
      assert NodeOk(w, n);
    }
  }

  /**
   Over a whole careful run: shutting down then completes iff no scope is locked, and none was
   detached untold and emptied untold before.
   */
  lemma ShutdownCompletesIff(ws: seq<World>, acts: seq<Action>, i: nat, w': World)
    requires CarefulRun(ws, acts) && i < |ws| && Next(ws[i], ShuttingDown, w')
    ensures DrainEnds(w') <==>
            (forall n | n in ws[i].nodes && n != ws[i].root ::
               ws[i].nodes[n].user != Locked && !StrandedBefore(ws, i, n))
  {
    CarefulRunsKeepOnce(ws, acts, i);
    DrainEndsIffNoneStuck(ws[i], w');
    StuckIffHistory(ws, acts, i);
  }

  /** The same at any later state, after whatever steps users and completions took since. */
  lemma DrainCompletesIff(ws: seq<World>, acts: seq<Action>, i: nat)
    requires CarefulRun(ws, acts) && i < |ws| && ws[i].root in ws[i].nodes && ws[i].nodes[ws[i].root].told
    ensures DrainEnds(ws[i]) <==>
            (forall n | n in ws[i].nodes && n != ws[i].root ::
               ws[i].nodes[n].user != Locked && !StrandedBefore(ws, i, n))
  {
    CarefulRunsKeepOnce(ws, acts, i);
    EndsIffNoneStuck(ws[i]);
    StuckIffHistory(ws, acts, i);
  }

  // ---------- The destructor ----------

  /** The loop of the destructor polls exactly `j` times. */
  ghost predicate DrainEndsAfter(w: World, j: nat)
    requires Shaped(w) && Queued(w)
  {
    Drained(w, j) && NotDrainedBefore(w, j)
  }

  ghost predicate NotDrainedBefore(w: World, j: nat)
    requires Shaped(w) && Queued(w)
  {
    forall i: nat | i < j :: !Drained(w, i)
  }

  lemma NotDrainedNext(w: World, m: World, j: nat)
    requires Shaped(w) && Queued(w) && NotDrainedBefore(w, j) && m == Polls(w, j)
    requires m.nodes[m.root].children != {} && m.nodes[m.root].state != Destroyed
    ensures NotDrainedBefore(w, j + 1)
    ensures forall n: nat | Drained(w, n) :: j < n
    ensures Polls(w, j + 1) == PollNext(m)
  {
    assert !Drained(w, j);
  }

  /** `w'` is what draining has made of `w` so far. */
  ghost predicate DrainsTo(w: World, w': World)
    requires w.root in w.nodes
  {
    && Draining(w') && w'.root == w.root
    && (w.nodes[w.root].children != {} && w'.nodes[w.root].children == {} ==> w'.nodes[w.root].state == Destroyed)
    && (w.nodes[w.root].children == {} ==> w'.nodes[w.root] == w.nodes[w.root])
  }

  lemma PollDrainsOn(w: World, m: World)
    requires w.root in w.nodes && DrainsTo(w, m)
    ensures DrainsTo(w, PollNext(m))
  {
    PollDrains(m, |m.ops|);
  }

  lemma {:induction false} PollsKeepDraining(w: World, j: nat)
    requires Draining(w)
    ensures DrainsTo(w, Polls(w, j))
  {
    if j > 0 {
      PollsKeepDraining(w, j - 1);
      PollDrainsOn(w, Polls(w, j - 1));
    }
  }

  /** Where each scope has started at most once, a destructor that ends has destroyed the whole tree. */
  lemma ShutdownTearsDown(w: World, w1: World, j: nat)
    requires Core(w) && Once(w) && Next(w, ShuttingDown, w1)
    requires Shaped(w1) && Queued(w1) && Drained(w1, j)
    ensures var w' := Polls(w1, j);
            && TornDown(w') && w'.root == w.root && w'.nodes[w.root].children == {}
            && w'.nodes[w.root].state == if w.nodes[w.root].children == {} then w.nodes[w.root].state else Destroyed
  {
    ShutdownStarts(w, w1);
    EndsIffNoneStuck(w1);
    PollsKeepDraining(w1, j);
    var w' := Polls(w1, j);
    assert NodeOk(w', w.root);
    NoChildrenIsTornDown(w');
  }

  class BlockingScope {
    const scope: Scope
    const ctx: ExecutionContext

    constructor (ctx: ExecutionContext)
      modifies ctx`scopes
      ensures this.ctx == ctx && ctx.scopes == old(ctx.scopes) + {scope} && scope !in old(ctx.scopes)
      ensures ctx.Nodes() == old(ctx.Nodes())[scope := FRESH_NODE]
      ensures old(ctx.scopes == {} && ctx.ops == [] && ctx.started == ctx.finished == multiset{}) ==>
                Initial(ctx.Snapshot(scope))
    {
      this.ctx := ctx;
      scope := new Scope.Blocking(ctx);
    }

    /** The loop of the destructor, which polls `j` times, on every tree on which it ends. */
    method Drain() returns (ghost j: nat)
      requires Core(ctx.Snapshot(scope)) && DrainEnds(ctx.Snapshot(scope))
      modifies ctx, ctx.scopes
      ensures ctx.scopes == old(ctx.scopes) && Core(ctx.Snapshot(scope))
      ensures DrainEndsAfter(old(ctx.Snapshot(scope)), j)
      ensures ctx.Snapshot(scope) == Polls(old(ctx.Snapshot(scope)), j)
    {
      ghost var w := ctx.Snapshot(scope);
      ghost var n: nat :| Drained(w, n);
      ghost var m := w;
      j := 0;
      while scope.children != {} && scope.objectState != Destroyed
        invariant ctx.scopes == old(ctx.scopes) && j <= n
        invariant m == ctx.Snapshot(scope) && m == Polls(w, j) && m.root == scope && Core(m)
        invariant NotDrainedBefore(w, j)
        decreases n - j
      {
        NotDrainedNext(w, m, j);
        PollKeepsInvariants(m, |m.ops|);
        var _ := ctx.Poll(scope);
        m, j := PollNext(m), j + 1;
      }
      assert Drained(w, j);
    }

    /** The destructor's notification, which brings no new scope into being. */
    method Notify() returns (ghost w1: World)
      requires Core(ctx.Snapshot(scope)) && !scope.parentTriggeredDestroy
      modifies ctx, ctx.scopes
      ensures ctx.scopes == old(ctx.scopes) && w1 == ctx.Snapshot(scope)
      ensures Next(old(ctx.Snapshot(scope)), ShuttingDown, w1) && old(allocated(w1))
    {
      ghost var w := ctx.Snapshot(scope);
      scope.parentTriggeredDestroy := true;
      ghost var t := With(w, scope, w.nodes[scope].(told := true));
      assert ctx.Snapshot(scope).nodes == t.nodes;
      KeepsShape(w, t);
      scope.TellChildren(ctx, scope);
      w1 := ctx.Snapshot(scope);
      ghost var ops := w1.ops;
      forall i | 0 <= i < |ops| ensures old(allocated(ops[i])) {
        assert ops[i] in multiset(ops);
        assert ops[i] in multiset(w.ops) || ops[i] in w.nodes;
      }
      assert old(allocated(ops));
    }

    /**
     Tells the children, which makes `w1` of the tree, and polls `j` times, on every tree on which
     that ends. `DrainEndsIffNoneStuck` says on which it does.
     */
    method Destroy() returns (ghost w1: World, ghost j: nat)
      requires Core(ctx.Snapshot(scope)) && !scope.parentTriggeredDestroy
      requires forall w | Next(ctx.Snapshot(scope), ShuttingDown, w) :: DrainEnds(w)
      modifies ctx, ctx.scopes
      ensures ctx.scopes == old(ctx.scopes)
      ensures Next(old(ctx.Snapshot(scope)), ShuttingDown, w1) && Core(w1) && DrainEndsAfter(w1, j)
      ensures ctx.Snapshot(scope) == Polls(w1, j) && Core(ctx.Snapshot(scope))
      ensures scope.children == {}
      ensures old(Once(ctx.Snapshot(scope))) ==>
                && TornDown(ctx.Snapshot(scope))
                && scope.objectState == (if old(scope.children) == {} then old(scope.objectState) else Destroyed)
    {
      ghost var w := ctx.Snapshot(scope);
      w1 := Notify();
      NextKeepsCore(w, ShuttingDown, w1);
      j := Drain();
      assert NodeOk(ctx.Snapshot(scope), scope);
      if Once(w) {
        ShutdownTearsDown(w, w1, j);
      }
    }
  }
}
