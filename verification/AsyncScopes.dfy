/**
 Hierarchical shutdown of asynchronous scopes.

 `Scope` is the mutable object of the program: a node of the ownership tree, with its user state,
 its object state, the flag set by the parent and its set of live children. `ExecutionContext` is
 the queue of completions.

 `World` is the value of all of them at one moment. Every method below is specified by a step on
 worlds, and the modules `ScopeSafety`, `ScopeHistory` and `ScopeDrain` prove what those steps keep.
 */
module AsyncScopes {

  datatype UserState = Locked | Unlocked | Detached

  datatype ObjectState = Valid | StartedDestruction | Destroyed

  /** The mutable part of one scope. */
  datatype Node = Node(children: set<Scope>, told: bool, user: UserState, state: ObjectState)

  /**
   A snapshot: the nodes ever created, the queue of pending completions, and how often
   `handleStartDestroy` and `handleFinishDestroy` ran for each scope.
   */
  datatype World = World(root: Scope, nodes: map<Scope, Node>, ops: seq<Scope>,
                         started: multiset<Scope>, finished: multiset<Scope>)

  // ---------- Steps on worlds ----------

  const FRESH_NODE := Node({}, false, Unlocked, Valid)

  /** A lone root. */
  ghost function RootWorld(root: Scope): World {
    World(root, map[root := FRESH_NODE], [], multiset{}, multiset{})
  }

  ghost function With(w: World, n: Scope, node: Node): World {
    w.(nodes := w.nodes[n := node])
  }

  /** Destruction of `n` begins: the root is done at once, any other scope queues its completion. */
  ghost function Start(w: World, n: Scope): World
    requires n in w.nodes
  {
    var w' := w.(started := w.started + multiset{n});
    if n.parent == null then
      With(w', n, w.nodes[n].(state := Destroyed))
    else
      With(w', n, w.nodes[n].(state := StartedDestruction)).(ops := w.ops + [n])
  }

  /** The child `c` leaves `p`; `p` starts once it is empty, was told, and is not locked. */
  ghost function Remove(w: World, p: Scope, c: Scope): World
    requires p in w.nodes
  {
    var left := w.nodes[p].children - {c};
    var w' := With(w, p, w.nodes[p].(children := left));
    if left == {} && w.nodes[p].user != Locked && w.nodes[p].told then Start(w', p) else w'
  }

  /** The completion of `n` runs. */
  ghost function Complete(w: World, n: Scope): World
    requires n in w.nodes && n.parent != null && n.parent in w.nodes
  {
    var w' := With(w, n, w.nodes[n].(state := Destroyed));
    Remove(w'.(finished := w.finished + multiset{n}), n.parent, n)
  }

  /** Queued completions are for scopes of the tree, other than the root. */
  ghost predicate Queued(w: World) {
    forall n | n in w.ops :: n in w.nodes && n != w.root
  }

  /** The completion at the front of the queue runs. */
  ghost function Finish(w: World): (w': World)
    requires Shaped(w) && Queued(w) && w.ops != []
    ensures Shaped(w') && Queued(w') && w.ops[1..] <= w'.ops
  {
    var n := w.ops[0];
    assert ShapedAt(w, n);
    var w' := Complete(w.(ops := w.ops[1..]), n);
    KeepsShape(w, w');
    w'
  }

  /** The first `k` completions run, in the order they were queued. */
  ghost function FinishMany(w: World, k: nat): (w': World)
    requires Shaped(w) && Queued(w) && k <= |w.ops|
    ensures Shaped(w') && Queued(w') && w.ops[k..] <= w'.ops
  {
    if k == 0 then w else Finish(FinishMany(w, k - 1))
  }

  ghost function Create(w: World, p: Scope, c: Scope): World
    requires p in w.nodes
  {
    With(With(w, c, FRESH_NODE), p, w.nodes[p].(children := w.nodes[p].children + {c}))
  }

  /**
   The scopes a notification of `targets` reaches: an untold target, or an untold child of a
   reached scope that is unlocked. Notifications stop at locked and at detached scopes. This says
   nothing about the order in which children are visited.
   */
  ghost predicate Reached(w: World, targets: set<Scope>, m: Scope)
    decreases m.depth
  {
    && m in w.nodes && !w.nodes[m].told && m.parent != null
    && (|| m in targets
        || (&& m.parent in w.nodes && m.parent.depth < m.depth
            && m in w.nodes[m.parent].children && w.nodes[m.parent].user == Unlocked
            && Reached(w, targets, m.parent)))
  }

  ghost function MarkTold(node: Node): Node {
    node.(told := true,
          state := if node.user == Unlocked && node.children == {} then StartedDestruction else node.state)
  }

  ghost function ToldNodes(w: World, targets: set<Scope>): map<Scope, Node> {
    map m | m in w.nodes :: if Reached(w, targets, m) then MarkTold(w.nodes[m]) else w.nodes[m]
  }

  /** The reached scopes whose destruction starts at once. */
  ghost function Leaves(w: World, targets: set<Scope>): set<Scope> {
    set m | m in w.nodes && Reached(w, targets, m) && w.nodes[m].user == Unlocked && w.nodes[m].children == {}
  }

  /**
   `w'` follows `w` by notifying all of `targets`. Only the order in which the new completions are
   queued is left open.
   */
  ghost predicate Wave(w: World, targets: set<Scope>, w': World) {
    && w' == World(w.root, ToldNodes(w, targets), w'.ops, w.started + multiset(Leaves(w, targets)), w.finished)
    && w.ops <= w'.ops
    && multiset(w'.ops) == multiset(w.ops) + multiset(Leaves(w, targets))
  }

  /** `n` passes the notification on, or starts if nothing is left beneath it. */
  ghost predicate PassOn(w: World, n: Scope, w': World)
    requires n in w.nodes
  {
    if w.nodes[n].children == {} then w' == Start(w, n) else Wave(w, w.nodes[n].children, w')
  }

  ghost predicate UnlockStep(w: World, n: Scope, w': World)
    requires n in w.nodes
  {
    if w.nodes[n].user != Locked then w' == w else
    var w1 := With(w, n, w.nodes[n].(user := Unlocked));
    if w.nodes[n].told then PassOn(w1, n, w') else w' == w1
  }

  ghost predicate DetachStep(w: World, n: Scope, w': World)
    requires n in w.nodes
  {
    if w.nodes[n].user != Unlocked then w' == w else
    var w1 := With(w, n, w.nodes[n].(user := Detached));
    if !w.nodes[n].told then PassOn(w1, n, w')
    else if w.nodes[n].children != {} then w' == w1
    else w' == Start(w1, n)
  }

  ghost function LockStep(w: World, n: Scope): World
    requires n in w.nodes
  {
    if w.nodes[n].user == Unlocked && !w.nodes[n].told
    then With(w, n, w.nodes[n].(user := Locked)) else w
  }

  /** The root's destructor tells every child. */
  ghost predicate ShutdownStep(w: World, w': World)
    requires w.root in w.nodes
  {
    var w1 := With(w, w.root, w.nodes[w.root].(told := true));
    Wave(w1, w.nodes[w.root].children, w')
  }

  // ---------- Facts about notification ----------

  /** The shape notifications rely on: children are nodes, they name their parent, and lie deeper. */
  ghost predicate Shaped(w: World) {
    && w.root in w.nodes && w.root.parent == null
    && forall n {:trigger ShapedAt(w, n)} | n in w.nodes :: ShapedAt(w, n)
  }

  ghost predicate ShapedAt(w: World, n: Scope)
    requires n in w.nodes
  {
    && (n != w.root ==> n.parent != null && n.parent in w.nodes && n.parent.depth < n.depth)
    && (forall c | c in w.nodes[n].children :: c in w.nodes && c.parent == n)
  }

  lemma {:induction false} NothingReached(w: World, m: Scope)
    ensures !Reached(w, {}, m)
    decreases m.depth
  {
    if m.parent != null && m.parent.depth < m.depth {
      NothingReached(w, m.parent);
    }
  }

  /** Notifying nobody changes nothing. */
  lemma EmptyWave(w: World)
    ensures Wave(w, {}, w)
  {
    forall m | m in w.nodes ensures !Reached(w, {}, m) {
      NothingReached(w, m);
    }
    assert Leaves(w, {}) == {};
    assert ToldNodes(w, {}) == w.nodes;
  }

  /** Apart from the order of the queue, a notification has one outcome. */
  lemma WaveUnique(w: World, targets: set<Scope>, w1: World, w2: World)
    requires Wave(w, targets, w1) && Wave(w, targets, w2)
    ensures w2 == w1.(ops := w2.ops) && multiset(w2.ops) == multiset(w1.ops)
    ensures Leaves(w, targets) == {} ==> w1.ops == w2.ops == w.ops
  {
    forall w' | w' in {w1, w2} && Leaves(w, targets) == {} ensures w'.ops == w.ops {
      assert w'.ops == w.ops + w'.ops[|w.ops|..];
      assert |multiset(w'.ops)| == |multiset(w.ops)|;
    }
  }

  /** Exactly the first `k` completions have run, each as often as it was queued. */
  lemma {:induction false} FinishManyCounts(w: World, k: nat)
    requires Shaped(w) && Queued(w) && k <= |w.ops|
    ensures FinishMany(w, k).finished == w.finished + multiset(w.ops[..k])
  {
    if k > 0 {
      FinishManyCounts(w, k - 1);
      FinishCount(FinishMany(w, k - 1));
      OneMore(w.ops, k - 1, FinishMany(w, k - 1).ops);
    }
  }

  lemma OneMore(s: seq<Scope>, k: nat, left: seq<Scope>)
    requires k < |s| && s[k..] <= left
    ensures left != [] && multiset(s[..k + 1]) == multiset(s[..k]) + multiset{left[0]}
  {
    assert s[..k + 1] == s[..k] + [s[k]];
    assert left[0] == s[k..][0];
  }

  lemma FinishCount(w: World)
    requires Shaped(w) && Queued(w) && w.ops != []
    ensures Finish(w).finished == w.finished + multiset{w.ops[0]}
  {
  }

  /** What `more` reaches after `done` was notified is what both reach together, less what `done` reached. */
  lemma {:induction false} ReachedTogether(w: World, done: set<Scope>, w1: World, more: set<Scope>, m: Scope)
    requires w1.nodes == ToldNodes(w, done)
    ensures Reached(w, done + more, m) <==> Reached(w, done, m) || Reached(w1, more, m)
    decreases m.depth
  {
    if m.parent != null && m.parent.depth < m.depth {
      ReachedTogether(w, done, w1, more, m.parent);
    }
  }

  lemma MarkedTogether(w: World, done: set<Scope>, w1: World, more: set<Scope>)
    requires w1.nodes == ToldNodes(w, done)
    ensures ToldNodes(w1, more) == ToldNodes(w, done + more)
  {
    forall m | m in w.nodes ensures ToldNodes(w1, more)[m] == ToldNodes(w, done + more)[m] {
      ReachedTogether(w, done, w1, more, m);
    }
  }

  lemma LeavesTogether(w: World, done: set<Scope>, w1: World, more: set<Scope>)
    requires w1.nodes == ToldNodes(w, done)
    ensures multiset(Leaves(w, done + more)) == multiset(Leaves(w, done)) + multiset(Leaves(w1, more))
  {
    forall m | m in w.nodes
      ensures m in Leaves(w, done + more) <==> m in Leaves(w, done) || m in Leaves(w1, more)
      ensures !(m in Leaves(w, done) && m in Leaves(w1, more))
    {
      ReachedTogether(w, done, w1, more, m);
    }
    MultisetOfUnion(Leaves(w, done), Leaves(w1, more), Leaves(w, done + more));
  }

  lemma MultisetOfUnion<T>(a: set<T>, b: set<T>, c: set<T>)
    requires a !! b && c == a + b
    ensures multiset(c) == multiset(a) + multiset(b)
  {
  }

  lemma TakenFrom<T>(all: set<T>, left: set<T>, x: T)
    requires x in left && left <= all
    ensures all - left + {x} == all - (left - {x}) && left - {x} <= all
  {
  }

  /** Notifying `done` and then `more` is notifying both at once, so the order of siblings is immaterial. */
  lemma WavesCompose(w: World, done: set<Scope>, w1: World, more: set<Scope>, w2: World)
    requires Wave(w, done, w1) && Wave(w1, more, w2)
    ensures Wave(w, done + more, w2)
  {
    MarkedTogether(w, done, w1, more);
    LeavesTogether(w, done, w1, more);
  }

  lemma {:induction false} ReachedBelow(w: World, n: Scope, m: Scope)
    requires Shaped(w) && n in w.nodes && n != w.root
    requires !w.nodes[n].told && w.nodes[n].user == Unlocked
    requires m != n
    ensures var w1 := With(w, n, w.nodes[n].(told := true));
            Reached(w, {n}, m) <==> Reached(w1, w.nodes[n].children, m)
    decreases m.depth
  {
    assert ShapedAt(w, n);
    assert Reached(w, {n}, n);
    if m in w.nodes && m != w.root {
      assert ShapedAt(w, m);
      if m.parent != n {
        ReachedBelow(w, n, m.parent);
      }
    }
  }

  /** Notifying an unlocked untold scope with children is marking it and notifying the children. */
  lemma WaveBelow(w: World, n: Scope, w1: World, w': World)
    requires Shaped(w) && n in w.nodes && n != w.root
    requires !w.nodes[n].told && w.nodes[n].user == Unlocked
    requires w1 == With(w, n, w.nodes[n].(told := true))
    requires PassOn(w1, n, w')
    ensures Wave(w, {n}, w')
  {
    assert ShapedAt(w, n);
    var kids := w.nodes[n].children;
    forall m | m != n ensures Reached(w, {n}, m) <==> Reached(w1, kids, m) {
      ReachedBelow(w, n, m);
    }
    assert Reached(w, {n}, n);
    if kids == {} {
      forall m | m != n ensures !Reached(w, {n}, m) {
        NothingReached(w1, m);
      }
      assert Leaves(w, {n}) == {n};
      assert w'.nodes == ToldNodes(w, {n});
    } else {
      assert !Reached(w1, kids, n);
      assert Leaves(w, {n}) == Leaves(w1, kids);
      assert w'.nodes == ToldNodes(w, {n});
    }
  }

  /** Notifying a locked or detached untold scope only sets its flag. */
  lemma WaveStops(w: World, n: Scope)
    requires Shaped(w) && n in w.nodes && n != w.root
    requires !w.nodes[n].told && w.nodes[n].user != Unlocked
    ensures Wave(w, {n}, With(w, n, w.nodes[n].(told := true)))
  {
    assert ShapedAt(w, n);
    var w' := With(w, n, w.nodes[n].(told := true));
    forall m | m != n ensures !Reached(w, {n}, m) {
      OnlyTarget(w, n, m);
    }
    assert Reached(w, {n}, n);
    assert Leaves(w, {n}) == {};
    assert w'.nodes == ToldNodes(w, {n});
  }

  lemma {:induction false} OnlyTarget(w: World, n: Scope, m: Scope)
    requires n in w.nodes && w.nodes[n].user != Unlocked && m != n
    ensures !Reached(w, {n}, m)
    decreases m.depth
  {
    if m.parent != null && m.parent.depth < m.depth && m.parent != n {
      OnlyTarget(w, n, m.parent);
    }
  }

  /** Notifying a scope that was already told changes nothing. */
  lemma {:induction false} ToldUnreached(w: World, n: Scope, m: Scope)
    requires n in w.nodes && w.nodes[n].told
    ensures !Reached(w, {n}, m)
    decreases m.depth
  {
    if m.parent != null && m.parent.depth < m.depth {
      ToldUnreached(w, n, m.parent);
    }
  }

  lemma WaveRepeated(w: World, n: Scope)
    requires n in w.nodes && w.nodes[n].told
    ensures Wave(w, {n}, w)
  {
    forall m ensures !Reached(w, {n}, m) {
      ToldUnreached(w, n, m);
    }
    assert Leaves(w, {n}) == {};
    assert ToldNodes(w, {n}) == w.nodes;
  }

  /** The shape survives as long as no node appears and no child set grows. */
  lemma KeepsShape(w: World, w': World)
    requires Shaped(w) && w'.root == w.root && w'.nodes.Keys == w.nodes.Keys
    requires forall n | n in w.nodes :: w'.nodes[n].children <= w.nodes[n].children
    ensures Shaped(w')
  {
    forall n | n in w'.nodes ensures ShapedAt(w', n) {
      assert ShapedAt(w, n);
    }
  }

  /** A world in which no node but that of `n` has changed. */
  lemma OneNodeChanged(w: World, n: Scope, w': World)
    requires n in w.nodes && w'.nodes.Keys == w.nodes.Keys
    requires forall m | m in w.nodes && m != n :: w'.nodes[m] == w.nodes[m]
    ensures w'.nodes == w.nodes[n := w'.nodes[n]]
  {
  }

  /** A world with the new scope, its parent's new child, and all else as it was. */
  lemma CreatedNodes(w: World, p: Scope, c: Scope, w': World)
    requires p in w.nodes && c !in w.nodes
    requires w' == w.(nodes := w'.nodes) && w'.nodes.Keys == w.nodes.Keys + {c}
    requires forall n | n in w.nodes ::
               w'.nodes[n] == w.nodes[n].(children := if n == p then w.nodes[p].children + {c} else w.nodes[n].children)
    requires w'.nodes[c] == FRESH_NODE
    ensures w' == Create(w, p, c)
  {
  }

  lemma ChildOfNode(w: World, n: Scope, c: Scope)
    requires Shaped(w) && n in w.nodes && c in w.nodes[n].children
    ensures c in w.nodes && c.parent == n
  {
    assert ShapedAt(w, n);
  }

  lemma CreateKeepsShape(w: World, p: Scope, c: Scope)
    requires Shaped(w) && p in w.nodes && c !in w.nodes && c.parent == p && p.depth < c.depth
    ensures Shaped(Create(w, p, c))
  {
    var w' := Create(w, p, c);
    forall n | n in w'.nodes ensures ShapedAt(w', n) {
      if n != c {
        assert ShapedAt(w, n);
      }
    }
  }

  /** The scopes not yet told: each notification takes one away, which is why notifying terminates. */
  ghost function Untold(w: World): set<Scope> {
    set m | m in w.nodes && !w.nodes[m].told
  }

  lemma WaveKeeps(w: World, targets: set<Scope>, w': World)
    requires Shaped(w) && Wave(w, targets, w')
    ensures Shaped(w') && w'.nodes.Keys == w.nodes.Keys
    ensures Untold(w') <= Untold(w)
  {
    KeepsShape(w, w');
  }

  // ---------- The objects ----------

  class Scope {
    const parent: Scope?
    ghost const depth: nat
    var children: set<Scope>
    var parentTriggeredDestroy: bool
    var userState: UserState
    var objectState: ObjectState

    ghost function Record(): Node
      reads this
    {
      Node(children, parentTriggeredDestroy, userState, objectState)
    }

    /** The root of a tree, a blocking scope. */
    constructor Blocking(ctx: ExecutionContext)
      modifies ctx`scopes
      ensures parent == null && depth == 0
      ensures children == {} && !parentTriggeredDestroy && userState == Unlocked && objectState == Valid
      ensures ctx.scopes == old(ctx.scopes) + {this} && this !in old(ctx.scopes)
      ensures ctx.Nodes() == old(ctx.Nodes())[this := FRESH_NODE]
    {
      parent, depth := null, 0;
      children, parentTriggeredDestroy, userState, objectState := {}, false, Unlocked, Valid;
      new;
      ctx.scopes := ctx.scopes + {this};
    }

    /** A new scope registers itself with its parent. */
    constructor (parent: Scope, ctx: ExecutionContext, ghost root: Scope)
      requires parent in ctx.scopes
      modifies ctx, parent
      ensures this.parent == parent && depth == parent.depth + 1
      ensures ctx.scopes == old(ctx.scopes) + {this} && this !in old(ctx.scopes)
      ensures children == {} && !parentTriggeredDestroy && userState == Unlocked && objectState == Valid
      ensures parent.children == old(parent.children) + {this}
      ensures ctx.Snapshot(root) == Create(old(ctx.Snapshot(root)), parent, this)
    {
      this.parent, depth := parent, parent.depth + 1;
      children, parentTriggeredDestroy, userState, objectState := {}, false, Unlocked, Valid;
      new;
      ghost var w := ctx.Snapshot(root);
      parent.Add(this);
      ctx.scopes := ctx.scopes + {this};
      CreatedNodes(w, parent, this, ctx.Snapshot(root));
    }

    method Add(child: Scope)
      modifies this
      ensures children == old(children) + {child}
      ensures unchanged(`parentTriggeredDestroy) && unchanged(`userState) && unchanged(`objectState)
    {
      children := children + {child};
    }

    /** Marks the start, and calls the hook: the root is done, any other scope queues its completion. */
    method StartDestroy(ctx: ExecutionContext, ghost root: Scope)
      requires this in ctx.scopes
      modifies ctx, this
      ensures ctx.scopes == old(ctx.scopes)
      ensures objectState == if parent == null then Destroyed else StartedDestruction
      ensures ctx.ops == old(ctx.ops) + if parent == null then [] else [this]
      ensures unchanged(`children) && unchanged(`parentTriggeredDestroy) && unchanged(`userState)
      ensures ctx.Snapshot(root) == Start(old(ctx.Snapshot(root)), this)
    {
      ghost var w := ctx.Snapshot(root);
      objectState := StartedDestruction;
      if parent == null {
        objectState := Destroyed;
      } else {
        ctx.Enqueue(this);
      }
      ctx.started := ctx.started + multiset{this};
      OneNodeChanged(w, this, ctx.Snapshot(root));
    }

    method RemoveChild(child: Scope, ctx: ExecutionContext, ghost root: Scope)
      requires this in ctx.scopes
      modifies ctx, this
      ensures ctx.scopes == old(ctx.scopes)
      ensures children == old(children) - {child}
      ensures unchanged(`parentTriggeredDestroy) && unchanged(`userState)
      ensures ctx.Snapshot(root) == Remove(old(ctx.Snapshot(root)), this, child)
    {
      ghost var w := ctx.Snapshot(root);
      children := children - {child};
      assert ctx.Snapshot(root).nodes == With(w, this, w.nodes[this].(children := children)).nodes;
      if children == {} {
        match userState
        case Detached | Unlocked =>
          if parentTriggeredDestroy {
            StartDestroy(ctx, root);
          }
        case Locked =>
      }
    }

    method HandleParentStartDestroy(ctx: ExecutionContext, ghost root: Scope)
      requires Shaped(ctx.Snapshot(root)) && this in ctx.scopes && parent != null
      modifies ctx, ctx.scopes
      ensures ctx.scopes == old(ctx.scopes)
      ensures parentTriggeredDestroy && userState == old(userState) && children == old(children)
      ensures Wave(old(ctx.Snapshot(root)), {this}, ctx.Snapshot(root))
      decreases Untold(ctx.Snapshot(root)), 0
    {
      ghost var w := ctx.Snapshot(root);
      if parentTriggeredDestroy {
        WaveRepeated(w, this);
        return;
      }
      parentTriggeredDestroy := true;
      match userState
      case Locked =>
        WaveStops(w, this);
        assert ctx.Snapshot(root) == With(w, this, w.nodes[this].(told := true));
      case Unlocked =>
        ghost var w1 := ctx.Snapshot(root);
        assert w1 == With(w, this, w.nodes[this].(told := true));
        assert this in Untold(w) && this !in Untold(w1);
        assert Untold(w1) <= Untold(w);
        KeepsShape(w, w1);
        PassOnDestroy(ctx, root);
        WaveBelow(w, this, w1, ctx.Snapshot(root));
      case Detached =>
        // the children were told when this scope was detached
        WaveStops(w, this);
        assert ctx.Snapshot(root) == With(w, this, w.nodes[this].(told := true));
    }

    method TellChildren(ctx: ExecutionContext, ghost root: Scope)
      requires Shaped(ctx.Snapshot(root)) && this in ctx.scopes
      modifies ctx, ctx.scopes
      ensures ctx.scopes == old(ctx.scopes)
      ensures userState == old(userState)
      ensures Wave(old(ctx.Snapshot(root)), old(children), ctx.Snapshot(root))
      decreases Untold(ctx.Snapshot(root)), 1
    {
      ghost var w, kids, told := ctx.Snapshot(root), children, {};
      ghost var now := w;
      var left := children;
      EmptyWave(w);
      while left != {}
        invariant left <= kids && told == kids - left
        invariant ctx.scopes == old(ctx.scopes)
        invariant now == ctx.Snapshot(root) && Wave(w, told, now)
        decreases left
      {
        var child :| child in left;
        WaveKeeps(w, told, now);
        ChildOfNode(w, this, child);
        child.HandleParentStartDestroy(ctx, root);
        ghost var next := ctx.Snapshot(root);
        WavesCompose(w, told, now, {child}, next);
        TakenFrom(kids, left, child);
        told, now, left := told + {child}, next, left - {child};
      }
      assert told == kids;
      assert now.nodes[this].user == w.nodes[this].user;
    }

    /** The children are told, and a scope without children starts. */
    method PassOnDestroy(ctx: ExecutionContext, ghost root: Scope)
      requires Shaped(ctx.Snapshot(root)) && this in ctx.scopes
      modifies ctx, ctx.scopes
      ensures ctx.scopes == old(ctx.scopes)
      ensures userState == old(userState)
      ensures PassOn(old(ctx.Snapshot(root)), this, ctx.Snapshot(root))
      decreases Untold(ctx.Snapshot(root)), 2
    {
      ghost var w := ctx.Snapshot(root);
      TellChildren(ctx, root);
      if children == {} {
        EmptyWave(w);
        WaveUnique(w, {}, w, ctx.Snapshot(root));
        StartDestroy(ctx, root);
      }
    }

    method Lock(ctx: ExecutionContext, ghost root: Scope) returns (ok: bool)
      requires this in ctx.scopes
      modifies this
      ensures ok == (old(userState) == Unlocked && !parentTriggeredDestroy)
      ensures userState == if ok then Locked else old(userState)
      ensures unchanged(`children) && unchanged(`parentTriggeredDestroy) && unchanged(`objectState)
      ensures !ok ==> ctx.Snapshot(root) == old(ctx.Snapshot(root))
      ensures ctx.Snapshot(root) == LockStep(old(ctx.Snapshot(root)), this)
    {
      ghost var w := ctx.Snapshot(root);
      if userState != Unlocked {
        return false;
      }
      if parentTriggeredDestroy {
        return false;
      }
      userState := Locked;
      assert ctx.Snapshot(root).nodes == LockStep(w, this).nodes;
      return true;
    }

    /** `ok` is false where the program reports an incorrect transition. */
    method Unlock(ctx: ExecutionContext, ghost root: Scope) returns (ok: bool)
      requires Shaped(ctx.Snapshot(root)) && this in ctx.scopes
      modifies ctx, ctx.scopes
      ensures ok == (old(userState) == Locked)
      ensures userState == if ok then Unlocked else old(userState)
      ensures ctx.scopes == old(ctx.scopes)
      ensures !ok ==> ctx.Snapshot(root) == old(ctx.Snapshot(root))
      ensures UnlockStep(old(ctx.Snapshot(root)), this, ctx.Snapshot(root))
    {
      ghost var w := ctx.Snapshot(root);
      if userState != Locked {
        return false;
      }
      userState := Unlocked;
      ghost var w1 := With(w, this, w.nodes[this].(user := Unlocked));
      assert ctx.Snapshot(root).nodes == w1.nodes;
      KeepsShape(w, w1);
      if parentTriggeredDestroy {
        PassOnDestroy(ctx, root);
      }
      return true;
    }

    /** The holder gives the scope up. `ok` is false where the program reports an incorrect transition. */
    method Detach(ctx: ExecutionContext, ghost root: Scope) returns (ok: bool)
      requires Shaped(ctx.Snapshot(root)) && this in ctx.scopes
      modifies ctx, ctx.scopes
      ensures ok == (old(userState) == Unlocked)
      ensures userState == if ok then UserState.Detached else old(userState)
      ensures ctx.scopes == old(ctx.scopes)
      ensures !ok ==> ctx.Snapshot(root) == old(ctx.Snapshot(root))
      ensures DetachStep(old(ctx.Snapshot(root)), this, ctx.Snapshot(root))
    {
      ghost var w := ctx.Snapshot(root);
      if userState == Locked || userState == Detached {
        return false;
      }
      userState := UserState.Detached;
      ghost var w1 := With(w, this, w.nodes[this].(user := UserState.Detached));
      assert ctx.Snapshot(root).nodes == w1.nodes;
      KeepsShape(w, w1);
      if !parentTriggeredDestroy {
        PassOnDestroy(ctx, root);
        return true;
      }
      if children != {} {
        return true;
      }
      StartDestroy(ctx, root);
      return true;
    }

    method HandleFinishDestroy(ctx: ExecutionContext, ghost root: Scope)
      requires this in ctx.scopes && parent != null && parent in ctx.scopes
      modifies ctx, this, parent
      ensures ctx.scopes == old(ctx.scopes)
      ensures parent.children == old(parent.children) - {this}
      ensures parent != this ==> objectState == Destroyed
      ensures ctx.Snapshot(root) == Complete(old(ctx.Snapshot(root)), this)
    {
      ghost var w := ctx.Snapshot(root);
      objectState := Destroyed;
      ctx.finished := ctx.finished + multiset{this};
      assert ctx.Snapshot(root).nodes == With(w, this, w.nodes[this].(state := Destroyed)).nodes;
      parent.RemoveChild(this, ctx, root);
    }
  }

  class ExecutionContext {
    var ops: seq<Scope>
    ghost var scopes: set<Scope>
    ghost var started: multiset<Scope>
    ghost var finished: multiset<Scope>

    ghost function Snapshot(root: Scope): World
      reads this, scopes
    {
      World(root, Nodes(), ops, started, finished)
    }

    ghost function Nodes(): map<Scope, Node>
      reads this, scopes
    {
      map n | n in scopes :: n.Record()
    }

    method Enqueue(scope: Scope)
      modifies `ops
      ensures ops == old(ops) + [scope]
    {
      ops := ops + [scope];
    }

    /** Runs the operation at the front, which is the completion of a scope. */
    method RunFront(ghost root: Scope)
      requires Shaped(Snapshot(root)) && Queued(Snapshot(root)) && ops != []
      modifies this, scopes
      ensures scopes == old(scopes)
      ensures Snapshot(root) == Finish(old(Snapshot(root)))
    {
      ghost var w := Snapshot(root);
      var op := ops[0];
      ops := ops[1..];
      assert op in w.ops && ShapedAt(w, op);
      assert Snapshot(root).nodes == w.nodes;
      op.HandleFinishDestroy(this, root);
    }

    /** Runs the completions that were queued at entry; those they queue wait for the next call. */
    method Poll(ghost root: Scope) returns (n: nat)
      requires Shaped(Snapshot(root)) && Queued(Snapshot(root))
      modifies this, scopes
      ensures n == |old(ops)|
      ensures scopes == old(scopes)
      ensures finished == old(finished) + multiset(old(ops))
      ensures Snapshot(root) == FinishMany(old(Snapshot(root)), n)
    {
      ghost var w := Snapshot(root);
      n := |ops|;
      for i := 0 to n
        invariant scopes == old(scopes)
        invariant Snapshot(root) == FinishMany(w, i)
      {
        RunFront(root);
      }
      FinishManyCounts(w, n);
      assert w.ops[..n] == w.ops;
    }
  }
}
