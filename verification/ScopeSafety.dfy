/**
 What every step of the shutdown protocol keeps, and what that means for whole runs: locks protect
 a scope, notifications stop only at locked scopes, teardown is bottom-up, and destruction starts
 and finishes at most once.
 */
module ScopeSafety {
  import opened AsyncScopes

  // ---------- Runs ----------

  datatype Action =
    | Creating(parent: Scope, child: Scope)
    | Locking(scope: Scope)
    | Unlocking(scope: Scope)
    | Detaching(scope: Scope)
    | ShuttingDown
    | Finishing

  /** Scopes are created under a locked scope, or under the root before it shuts down. */
  ghost predicate MayCreate(w: World, p: Scope, c: Scope) {
    && p in w.nodes && c !in w.nodes && c.parent == p && p.depth < c.depth
    && (w.nodes[p].user == Locked || (p == w.root && !w.nodes[p].told))
  }

  /** Every scope but the root has a holder, through which the user acts on it. */
  ghost predicate Held(w: World, n: Scope) {
    n in w.nodes && n != w.root
  }

  ghost predicate Next(w: World, a: Action, w': World) {
    match a
    case Creating(p, c) => MayCreate(w, p, c) && w' == Create(w, p, c)
    case Locking(n) => Held(w, n) && w' == LockStep(w, n)
    case Unlocking(n) => Held(w, n) && UnlockStep(w, n, w')
    case Detaching(n) => Held(w, n) && DetachStep(w, n, w')
    case ShuttingDown => w.root in w.nodes && !w.nodes[w.root].told && ShutdownStep(w, w')
    case Finishing => Shaped(w) && Queued(w) && w.ops != [] && w' == Finish(w)
  }

  ghost predicate Initial(w: World) {
    w.root.parent == null && w == RootWorld(w.root)
  }

  /** `ws[i]` becomes `ws[i + 1]` by action `acts[i]`, from a lone root on. */
  ghost predicate Run(ws: seq<World>, acts: seq<Action>) {
    && |ws| == |acts| + 1
    && Initial(ws[0])
    && forall i {:trigger acts[i]} | 0 <= i < |acts| :: Next(ws[i], acts[i], ws[i + 1])
  }

  /** No holder gives up a scope whose destruction has begun. */
  ghost predicate Careful(w: World, a: Action) {
    a.Detaching? && a.scope in w.nodes && w.nodes[a.scope].user == Unlocked ==> w.nodes[a.scope].state == Valid
  }

  ghost predicate CarefulRun(ws: seq<World>, acts: seq<Action>) {
    && Run(ws, acts)
    && forall i {:trigger acts[i]} | 0 <= i < |acts| :: Careful(ws[i], acts[i])
  }

  // ---------- The invariant of every run ----------

  ghost predicate NodeOk(w: World, n: Scope)
    requires n in w.nodes
  {
    var x := w.nodes[n];
    && (n == w.root ==> x.user == Unlocked)
    && (x.user == Locked ==> x.state == Valid)
    && (x.state != Valid ==> (x.told || x.user == UserState.Detached) && x.children == {})
    && (n != w.root && n.parent != null && n.parent in w.nodes && n !in w.nodes[n.parent].children ==>
          w.finished[n] > 0)
    && (w.finished[n] > 0 ==> x.state != Valid)
    && (n in w.ops ==> x.state != Valid)
  }

  /** A scope that passed a notification on has told its children, and started if it had none. */
  ghost predicate WaveOk(w: World, n: Scope)
    requires n in w.nodes
  {
    var x := w.nodes[n];
    && (x.user == UserState.Detached || (x.told && x.user == Unlocked) ==>
          forall c | c in x.children && c in w.nodes :: w.nodes[c].told)
    && (x.told && x.user == Unlocked && x.children == {} && n != w.root ==> x.state != Valid)
  }

  ghost predicate Counted(w: World) {
    && (forall n | n in w.started :: n in w.nodes)
    && (forall n | n in w.finished :: n in w.nodes)
  }

  ghost predicate CoreExcept(w: World, busy: set<Scope>) {
    && Shaped(w) && Queued(w) && Counted(w)
    && (forall n {:trigger NodeOk(w, n)} | n in w.nodes :: NodeOk(w, n))
    && (forall n {:trigger WaveOk(w, n)} | n in w.nodes && n !in busy :: WaveOk(w, n))
  }

  ghost predicate Core(w: World) {
    CoreExcept(w, {})
  }

  lemma CreateKeepsCore(w: World, p: Scope, c: Scope)
    requires Core(w) && MayCreate(w, p, c)
    ensures Core(Create(w, p, c))
  {
    var w' := Create(w, p, c);
    CreateKeepsShape(w, p, c);
    forall n | n in w'.nodes ensures NodeOk(w', n) && WaveOk(w', n) {
      if n != c {
        assert NodeOk(w, n) && WaveOk(w, n) && ShapedAt(w, n);
      }
      assert NodeOk(w, p) && WaveOk(w, p);
    }
  }

  lemma StartKeepsCore(w: World, n: Scope)
    requires CoreExcept(w, {n}) && n in w.nodes
    requires w.nodes[n].children == {} && w.nodes[n].user != Locked
    requires w.nodes[n].told || w.nodes[n].user == UserState.Detached
    ensures Core(Start(w, n))
  {
    var w' := Start(w, n);
    KeepsShape(w, w');
    assert ShapedAt(w, n);
    forall m | m in w'.nodes ensures NodeOk(w', m) && WaveOk(w', m) {
      assert NodeOk(w, m) && (m != n ==> WaveOk(w, m));
    }
  }

  lemma WaveKeepsCore(w: World, n: Scope, w': World)
    requires CoreExcept(w, {n}) && n in w.nodes
    requires w.nodes[n].children != {} || n == w.root
    requires Wave(w, w.nodes[n].children, w')
    ensures Core(w')
  {
    var kids := w.nodes[n].children;
    KeepsShape(w, w');
    assert ShapedAt(w, n);
    forall m | m in w'.ops ensures m in w.ops || m in Leaves(w, kids) {
      assert m in multiset(w'.ops);
    }
    forall m | m in w'.nodes ensures NodeOk(w', m) && WaveOk(w', m) {
      assert NodeOk(w, m) && ShapedAt(w, m) && (m != n ==> WaveOk(w, m));
      forall c | c in w.nodes[m].children
        ensures Reached(w, kids, m) && w.nodes[m].user == Unlocked ==> w'.nodes[c].told
      {
        assert ShapedAt(w, c);
      }
    }
  }

  lemma PassOnKeepsCore(w: World, n: Scope, w': World)
    requires CoreExcept(w, {n}) && n in w.nodes && w.nodes[n].user != Locked
    requires w.nodes[n].told || w.nodes[n].user == UserState.Detached
    requires PassOn(w, n, w')
    ensures Core(w')
  {
    if w.nodes[n].children == {} {
      StartKeepsCore(w, n);
    } else {
      WaveKeepsCore(w, n, w');
    }
  }

  /** Only the flags of `n` change, and it stays unlocked or becomes so. */
  lemma FlagKeepsCore(w: World, n: Scope, node: Node)
    requires Core(w) && n in w.nodes
    requires node == w.nodes[n].(told := node.told, user := node.user)
    requires node.user == Locked ==> node.state == Valid && !w.nodes[n].told && n != w.root
    requires n == w.root ==> node.user == Unlocked
    requires node.state != Valid ==> node.told || node.user == UserState.Detached
    requires w.nodes[n].told ==> node.told
    ensures CoreExcept(With(w, n, node), {n})
  {
    var w' := With(w, n, node);
    KeepsShape(w, w');
    forall m | m in w'.nodes ensures NodeOk(w', m) && (m != n ==> WaveOk(w', m)) {
      assert NodeOk(w, m) && WaveOk(w, m) && ShapedAt(w, m);
    }
  }

  lemma DestroyKeepsCore(w: World, n: Scope, w': World)
    requires Core(w) && w.ops != [] && n == w.ops[0] && n in w.nodes
    requires w' == With(w, n, w.nodes[n].(state := Destroyed))
                   .(ops := w.ops[1..], finished := w.finished + multiset{n})
    ensures Core(w')
  {
    assert NodeOk(w, n);
    KeepsShape(w, w');
    forall m | m in w'.nodes ensures NodeOk(w', m) && WaveOk(w', m) {
      assert NodeOk(w, m) && WaveOk(w, m);
    }
  }

  lemma LeaveKeepsCore(w: World, p: Scope, n: Scope)
    requires Core(w) && p in w.nodes && w.finished[n] > 0
    ensures CoreExcept(With(w, p, w.nodes[p].(children := w.nodes[p].children - {n})), {p})
  {
    var w' := With(w, p, w.nodes[p].(children := w.nodes[p].children - {n}));
    KeepsShape(w, w');
    forall m | m in w'.nodes ensures NodeOk(w', m) && (m != p ==> WaveOk(w', m)) {
      assert NodeOk(w, m) && WaveOk(w, m);
    }
  }

  lemma FinishKeepsCore(w: World)
    requires Core(w) && w.ops != []
    ensures Core(Finish(w))
  {
    var n := w.ops[0];
    assert n in w.ops && ShapedAt(w, n);
    var p := n.parent;
    var w1 := With(w, n, w.nodes[n].(state := Destroyed)).(ops := w.ops[1..], finished := w.finished + multiset{n});
    DestroyKeepsCore(w, n, w1);
    var w2 := With(w1, p, w1.nodes[p].(children := w1.nodes[p].children - {n}));
    LeaveKeepsCore(w1, p, n);
    if w2.nodes[p].children == {} && w2.nodes[p].user != Locked && w2.nodes[p].told {
      StartKeepsCore(w2, p);
    } else {
      assert WaveOk(w1, p) && WaveOk(w2, p);
    }
  }

  lemma NextKeepsCore(w: World, a: Action, w': World)
    requires Core(w) && Next(w, a, w')
    ensures Core(w')
  {
    match a
    case Creating(p, c) => CreateKeepsCore(w, p, c);
    case Locking(n) =>
      assert NodeOk(w, n) && WaveOk(w, n);
      if w' != w {
        FlagKeepsCore(w, n, w.nodes[n].(user := Locked));
        assert WaveOk(w', n);
      }
    case Unlocking(n) =>
      assert NodeOk(w, n) && WaveOk(w, n);
      if w.nodes[n].user == Locked {
        var w1 := With(w, n, w.nodes[n].(user := Unlocked));
        FlagKeepsCore(w, n, w1.nodes[n]);
        if w.nodes[n].told {
          PassOnKeepsCore(w1, n, w');
        } else {
          assert WaveOk(w', n);
        }
      }
    case Detaching(n) =>
      assert NodeOk(w, n) && WaveOk(w, n);
      if w.nodes[n].user == Unlocked {
        var w1 := With(w, n, w.nodes[n].(user := UserState.Detached));
        FlagKeepsCore(w, n, w1.nodes[n]);
        if !w.nodes[n].told {
          PassOnKeepsCore(w1, n, w');
        } else if w.nodes[n].children != {} {
          assert ShapedAt(w, n) && WaveOk(w', n);
        } else {
          StartKeepsCore(w1, n);
        }
      }
    case ShuttingDown =>
      assert NodeOk(w, w.root) && ShapedAt(w, w.root);
      var w1 := With(w, w.root, w.nodes[w.root].(told := true));
      FlagKeepsCore(w, w.root, w1.nodes[w.root]);
      WaveKeepsCore(w1, w.root, w');
    case Finishing => FinishKeepsCore(w);
  }

  lemma InitialIsCore(w: World)
    requires Initial(w)
    ensures Core(w)
  {
    assert ShapedAt(w, w.root) && NodeOk(w, w.root) && WaveOk(w, w.root);
  }

  lemma {:induction false} RunsKeepCore(ws: seq<World>, acts: seq<Action>, i: nat)
    requires Run(ws, acts) && i < |ws|
    ensures Core(ws[i])
  {
    if i == 0 {
      InitialIsCore(ws[0]);
    } else {
      RunsKeepCore(ws, acts, i - 1);
      assert Next(ws[i - 1], acts[i - 1], ws[i]);
      NextKeepsCore(ws[i - 1], acts[i - 1], ws[i]);
    }
  }

  // ---------- What the invariant means ----------

  /** In every run a lock protects its scope, and none is granted once destruction has begun. */
  lemma LocksProtect(ws: seq<World>, acts: seq<Action>, i: nat, n: Scope)
    requires Run(ws, acts) && i < |ws| && n in ws[i].nodes
    ensures ws[i].nodes[n].user == Locked ==> ws[i].nodes[n].state == Valid && n !in ws[i].ops
    ensures ws[i].nodes[n].state != Valid ==> ws[i].nodes[n].told || ws[i].nodes[n].user == UserState.Detached
    ensures ws[i].nodes[n].state != Valid ==> LockStep(ws[i], n) == ws[i]
  {
    RunsKeepCore(ws, acts, i);
    assert NodeOk(ws[i], n);
  }

  /** In every run the children of a detached scope, or of a told unlocked one, have been told. */
  lemma WavesStopOnlyAtLocks(ws: seq<World>, acts: seq<Action>, i: nat, n: Scope, c: Scope)
    requires Run(ws, acts) && i < |ws| && n in ws[i].nodes && c in ws[i].nodes[n].children
    requires ws[i].nodes[n].user == UserState.Detached || (ws[i].nodes[n].told && ws[i].nodes[n].user != Locked)
    ensures c in ws[i].nodes && ws[i].nodes[c].told
  {
    RunsKeepCore(ws, acts, i);
    assert ShapedAt(ws[i], n) && WaveOk(ws[i], n);
  }

  /** `d` was created somewhere beneath `n`. */
  ghost predicate Beneath(d: Scope, n: Scope)
    decreases d.depth
  {
    d.parent != null && d.parent.depth < d.depth && (d.parent == n || Beneath(d.parent, n))
  }

  lemma {:induction false} CoreBottomUp(w: World, n: Scope, d: Scope)
    requires Core(w) && n in w.nodes && w.nodes[n].state != Valid
    requires d in w.nodes && Beneath(d, n)
    ensures w.finished[d] > 0 && w.nodes[d].state != Valid
    decreases d.depth
  {
    assert ShapedAt(w, d) && NodeOk(w, d) && NodeOk(w, d.parent);
    if d.parent != n {
      CoreBottomUp(w, n, d.parent);
    }
  }

  /**
   In every run, once destruction of a scope has begun it has no children, and everything ever
   created beneath it has finished.
   */
  lemma TeardownIsBottomUp(ws: seq<World>, acts: seq<Action>, i: nat, n: Scope)
    requires Run(ws, acts) && i < |ws| && n in ws[i].nodes && ws[i].nodes[n].state != Valid
    ensures ws[i].nodes[n].children == {}
    ensures forall d | d in ws[i].nodes && Beneath(d, n) :: ws[i].finished[d] > 0
  {
    var w := ws[i];
    RunsKeepCore(ws, acts, i);
    assert NodeOk(w, n);
    forall d | d in w.nodes && Beneath(d, n) ensures w.finished[d] > 0 {
      CoreBottomUp(w, n, d);
    }
  }

  // ---------- At most once ----------

  /** The counters of `n` match its state, its place in the tree and the queue. */
  ghost predicate OnceOk(w: World, n: Scope)
    requires n in w.nodes
  {
    var state := w.nodes[n].state;
    var begun, done := w.started[n], w.finished[n];
    && begun <= 1
    && (state == Valid <==> begun == 0)
    && if n == w.root then done == 0 && state != StartedDestruction else
       && done <= begun
       && multiset(w.ops)[n] == begun - done
       && (state == Destroyed <==> done == 1)
       && (n.parent != null && n.parent in w.nodes && n in w.nodes[n.parent].children <==> done == 0)
  }

  ghost predicate Once(w: World) {
    forall n {:trigger OnceOk(w, n)} | n in w.nodes :: OnceOk(w, n)
  }

  lemma StartKeepsOnce(w: World, n: Scope)
    requires Shaped(w) && Once(w) && n in w.nodes && w.nodes[n].state == Valid
    ensures Once(Start(w, n))
  {
    assert ShapedAt(w, n);
    var w' := Start(w, n);
    forall m | m in w'.nodes ensures OnceOk(w', m) {
      assert OnceOk(w, m);
    }
  }

  lemma WaveKeepsOnce(w: World, n: Scope, targets: set<Scope>, w': World)
    requires CoreExcept(w, {n}) && Once(w) && Wave(w, targets, w')
    ensures Once(w')
  {
    forall m | m in w'.nodes ensures OnceOk(w', m) {
      assert OnceOk(w, m) && NodeOk(w, m) && ShapedAt(w, m);
      assert m in multiset(Leaves(w, targets)) <==> m in Leaves(w, targets);
    }
  }

  lemma DepartureKeepsOnce(w: World, n: Scope, p: Scope, w2: World)
    requires Core(w) && Once(w) && w.ops != [] && n == w.ops[0] && n in w.nodes && n != w.root
    requires p == n.parent && p in w.nodes && p != n
    requires w2 == With(With(w, n, w.nodes[n].(state := Destroyed)), p,
                        w.nodes[p].(children := w.nodes[p].children - {n}))
                   .(ops := w.ops[1..], finished := w.finished + multiset{n})
    ensures Once(w2)
    ensures n in w.nodes[p].children
  {
    assert w.ops == [n] + w.ops[1..];
    assert OnceOk(w, n);
    forall m | m in w2.nodes ensures OnceOk(w2, m) {
      assert OnceOk(w, m);
    }
  }

  lemma FinishKeepsOnce(w: World)
    requires Core(w) && Once(w) && w.ops != []
    ensures Once(Finish(w))
  {
    var n := w.ops[0];
    assert n in w.ops && ShapedAt(w, n);
    var p := n.parent;
    var w1 := With(w, n, w.nodes[n].(state := Destroyed)).(ops := w.ops[1..], finished := w.finished + multiset{n});
    var w2 := With(w1, p, w1.nodes[p].(children := w1.nodes[p].children - {n}));
    DepartureKeepsOnce(w, n, p, w2);
    if w2.nodes[p].children == {} && w2.nodes[p].user != Locked && w2.nodes[p].told {
      assert NodeOk(w, p);
      KeepsShape(w, w2);
      StartKeepsOnce(w2, p);
    }
  }

  lemma CreateKeepsOnce(w: World, p: Scope, c: Scope)
    requires Core(w) && Once(w) && MayCreate(w, p, c)
    ensures Once(Create(w, p, c))
  {
    var w' := Create(w, p, c);
    assert c !in w.ops && w.started[c] == 0 && w.finished[c] == 0;
    forall m | m in w'.nodes ensures OnceOk(w', m) {
      if m != c {
        assert OnceOk(w, m) && ShapedAt(w, m);
      }
    }
  }

  lemma FlagKeepsOnce(w: World, n: Scope, node: Node)
    requires Once(w) && n in w.nodes
    requires node == w.nodes[n].(told := node.told, user := node.user)
    ensures Once(With(w, n, node))
  {
    forall m | m in w.nodes ensures OnceOk(With(w, n, node), m) {
      assert OnceOk(w, m);
    }
  }

  lemma PassOnKeepsOnce(w: World, n: Scope, w': World)
    requires CoreExcept(w, {n}) && Once(w) && n in w.nodes && PassOn(w, n, w')
    requires w.nodes[n].state == Valid
    ensures Once(w')
  {
    if w.nodes[n].children == {} {
      StartKeepsOnce(w, n);
    } else {
      WaveKeepsOnce(w, n, w.nodes[n].children, w');
    }
  }

  lemma UnlockKeepsOnce(w: World, n: Scope, w': World)
    requires Core(w) && Once(w) && Held(w, n) && UnlockStep(w, n, w')
    ensures Once(w')
  {
    assert NodeOk(w, n);
    if w.nodes[n].user == Locked {
      var node := w.nodes[n].(user := Unlocked);
      FlagKeepsCore(w, n, node);
      FlagKeepsOnce(w, n, node);
      if w.nodes[n].told {
        PassOnKeepsOnce(With(w, n, node), n, w');
      }
    }
  }

  lemma DetachCounts(w: World, n: Scope, w': World)
    requires Core(w) && Once(w) && Held(w, n) && DetachStep(w, n, w') && w.nodes[n].state == Valid
    ensures w'.started[n] <= 1
  {
    DetachKeepsOnce(w, n, w');
    assert OnceOk(w', n);
  }

  lemma DetachKeepsOnce(w: World, n: Scope, w': World)
    requires Core(w) && Once(w) && Held(w, n) && DetachStep(w, n, w')
    requires w.nodes[n].state == Valid
    ensures Once(w')
  {
    assert NodeOk(w, n) && WaveOk(w, n);
    if w.nodes[n].user == Unlocked {
      var node := w.nodes[n].(user := UserState.Detached);
      FlagKeepsCore(w, n, node);
      FlagKeepsOnce(w, n, node);
      if !w.nodes[n].told {
        PassOnKeepsOnce(With(w, n, node), n, w');
      }
    }
  }

  lemma ShutdownKeepsOnce(w: World, w': World)
    requires Core(w) && Once(w) && ShutdownStep(w, w')
    ensures Once(w')
  {
    var node := w.nodes[w.root].(told := true);
    assert NodeOk(w, w.root);
    FlagKeepsCore(w, w.root, node);
    FlagKeepsOnce(w, w.root, node);
    WaveKeepsOnce(With(w, w.root, node), w.root, node.children, w');
  }

  lemma NextKeepsOnce(w: World, a: Action, w': World)
    requires Core(w) && Once(w) && Next(w, a, w') && Careful(w, a)
    ensures Once(w')
  {
    match a
    case Creating(p, c) => CreateKeepsOnce(w, p, c);
    case Locking(n) =>
      if w' != w {
        FlagKeepsOnce(w, n, w.nodes[n].(user := Locked));
      }
    case Unlocking(n) => UnlockKeepsOnce(w, n, w');
    case Detaching(n) =>
      if w.nodes[n].user == Unlocked {
        DetachKeepsOnce(w, n, w');
      }
    case ShuttingDown => ShutdownKeepsOnce(w, w');
    case Finishing => FinishKeepsOnce(w);
  }

  /** A poll is completions one after the other, each a step of the protocol. */
  lemma PollIsSteps(w: World, k: nat)
    requires Core(w) && k < |w.ops|
    ensures FinishMany(w, 0) == w && Next(FinishMany(w, k), Finishing, FinishMany(w, k + 1))
  {
  }

  /** Polling, outside the root's destructor as well, keeps both invariants. */
  lemma {:induction false} PollKeepsInvariants(w: World, k: nat)
    requires Core(w) && k <= |w.ops|
    ensures Core(FinishMany(w, k)) && (Once(w) ==> Once(FinishMany(w, k)))
  {
    if k > 0 {
      PollKeepsInvariants(w, k - 1);
      var w1 := FinishMany(w, k - 1);
      FinishKeepsCore(w1);
      if Once(w1) {
        FinishKeepsOnce(w1);
      }
    }
  }

  /** Care up to state `i` is enough for state `i`. */
  lemma {:induction false} CarefulRunsKeepOnce(ws: seq<World>, acts: seq<Action>, i: nat)
    requires Run(ws, acts) && i < |ws|
    requires forall j {:trigger acts[j]} | 0 <= j < i :: Careful(ws[j], acts[j])
    ensures Core(ws[i]) && Once(ws[i])
  {
    RunsKeepCore(ws, acts, i);
    if i == 0 {
      assert OnceOk(ws[0], ws[0].root);
    } else {
      CarefulRunsKeepOnce(ws, acts, i - 1);
      assert Next(ws[i - 1], acts[i - 1], ws[i]);
      NextKeepsOnce(ws[i - 1], acts[i - 1], ws[i]);
    }
  }

  /** Nodes and counters only grow. */
  ghost predicate Grows(w: World, w': World) {
    && w'.root == w.root && w.nodes.Keys <= w'.nodes.Keys
    && w.started <= w'.started && w.finished <= w'.finished
  }

  lemma WaveGrows(w: World, targets: set<Scope>, w': World)
    requires Wave(w, targets, w')
    ensures Grows(w, w') && w'.nodes.Keys == w.nodes.Keys
  {
  }

  lemma PassOnGrows(w: World, n: Scope, w': World)
    requires n in w.nodes && PassOn(w, n, w')
    ensures Grows(w, w') && w'.nodes.Keys == w.nodes.Keys
  {
    if w.nodes[n].children != {} {
      WaveGrows(w, w.nodes[n].children, w');
    }
  }

  lemma FinishGrows(w: World)
    requires Core(w) && w.ops != []
    ensures Grows(w, Finish(w)) && Finish(w).nodes.Keys == w.nodes.Keys
  {
    assert w.ops[0] in w.ops && ShapedAt(w, w.ops[0]);
  }

  lemma NextGrows(w: World, a: Action, w': World)
    requires Core(w) && Next(w, a, w')
    ensures Grows(w, w')
    ensures a.Creating? || w'.nodes.Keys == w.nodes.Keys
  {
    match a
    case Creating(p, c) =>
    case Locking(n) =>
    case Unlocking(n) =>
      if w.nodes[n].user == Locked && w.nodes[n].told {
        PassOnGrows(With(w, n, w.nodes[n].(user := Unlocked)), n, w');
      }
    case Detaching(n) =>
      if w.nodes[n].user == Unlocked && !w.nodes[n].told {
        PassOnGrows(With(w, n, w.nodes[n].(user := UserState.Detached)), n, w');
      }
    case ShuttingDown =>
      WaveGrows(With(w, w.root, w.nodes[w.root].(told := true)), w.nodes[w.root].children, w');
    case Finishing => FinishGrows(w);
  }

  lemma {:induction false} RunsGrow(ws: seq<World>, acts: seq<Action>, i: nat, j: nat)
    requires Run(ws, acts) && i <= j < |ws|
    ensures Grows(ws[i], ws[j])
  {
    if i < j {
      RunsGrow(ws, acts, i, j - 1);
      RunsKeepCore(ws, acts, j - 1);
      assert Next(ws[j - 1], acts[j - 1], ws[j]);
      NextGrows(ws[j - 1], acts[j - 1], ws[j]);
    }
  }

  function Rank(s: ObjectState): nat {
    match s case Valid => 0 case StartedDestruction => 1 case Destroyed => 2
  }

  /**
   In a careful run each scope starts and finishes at most once, never finishes before it started,
   and its state only moves forward.
   */
  lemma AtMostOnce(ws: seq<World>, acts: seq<Action>, i: nat, j: nat, n: Scope)
    requires CarefulRun(ws, acts) && i <= j < |ws| && n in ws[i].nodes
    ensures ws[j].finished[n] <= ws[j].started[n] <= 1
    ensures n in ws[j].nodes && Rank(ws[i].nodes[n].state) <= Rank(ws[j].nodes[n].state)
  {
    CarefulRunsKeepOnce(ws, acts, i);
    CarefulRunsKeepOnce(ws, acts, j);
    RunsGrow(ws, acts, i, j);
    assert OnceOk(ws[i], n) && OnceOk(ws[j], n);
  }

  /** Detaching an unlocked scope starts it again iff its destruction had begun. */
  lemma DetachStartsOnceIffValid(w: World, n: Scope, w': World)
    requires Core(w) && Once(w) && Next(w, Detaching(n), w') && w.nodes[n].user == Unlocked
    ensures Once(w') <==> w.nodes[n].state == Valid
    ensures w'.started[n] == 2 <==> w.nodes[n].state != Valid
  {
    assert OnceOk(w, n) && NodeOk(w, n);
    if w.nodes[n].state == Valid {
      DetachKeepsOnce(w, n, w');
      DetachCounts(w, n, w');
    } else {
      assert !OnceOk(w', n);
    }
  }

  /** Destruction has started at most once for every scope. */
  ghost predicate StartedOnce(w: World) {
    forall n | n in w.nodes :: w.started[n] <= 1
  }

  /** The first careless detach of a run starts a scope a second time. */
  lemma CarelessStartsTwice(ws: seq<World>, acts: seq<Action>, i: nat)
    requires Run(ws, acts) && i < |acts| && !Careful(ws[i], acts[i])
    requires forall j {:trigger acts[j]} | 0 <= j < i :: Careful(ws[j], acts[j])
    ensures !StartedOnce(ws[i + 1])
  {
    CarefulRunsKeepOnce(ws, acts, i);
    var w, a, w' := ws[i], acts[i], ws[i + 1];
    assert Next(w, a, w');
    DetachStartsOnceIffValid(w, a.scope, w');
    NextGrows(w, a, w');
    assert a.scope in w'.nodes && w'.started[a.scope] == 2;
  }

  lemma {:induction false} FirstCareless(ws: seq<World>, acts: seq<Action>, k: nat) returns (i: nat)
    requires k < |acts| < |ws| && !Careful(ws[k], acts[k])
    ensures i <= k && !Careful(ws[i], acts[i])
    ensures forall j {:trigger acts[j]} | 0 <= j < i :: Careful(ws[j], acts[j])
  {
    if forall j {:trigger acts[j]} | 0 <= j < k :: Careful(ws[j], acts[j]) {
      return k;
    }
    var j :| 0 <= j < k && !Careful(ws[j], acts[j]);
    i := FirstCareless(ws, acts, j);
  }

  /** Being careful is exactly what it takes: no scope ever starts twice iff the run is careful. */
  lemma AtMostOnceIffCareful(ws: seq<World>, acts: seq<Action>)
    requires Run(ws, acts)
    ensures CarefulRun(ws, acts) <==> forall i | 0 <= i < |ws| :: StartedOnce(ws[i])
  {
    if CarefulRun(ws, acts) {
      forall i, n | 0 <= i < |ws| && n in ws[i].nodes ensures ws[i].started[n] <= 1 {
        AtMostOnce(ws, acts, i, i, n);
      }
    } else {
      var k :| 0 <= k < |acts| && !Careful(ws[k], acts[k]);
      var i := FirstCareless(ws, acts, k);
      CarelessStartsTwice(ws, acts, i);
    }
  }
}
