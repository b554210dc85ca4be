/**
 The protocol as rules for each scope on its own: when its user state, its flag, its children, its
 state and the counters change in a step, and to what. The rules mention no step function, every step
 follows them, and they leave nothing but the order of new completions open.
 */
module ScopeRules {
  import opened AsyncScopes
  import opened ScopeSafety
  import opened ScopeHistory

  // ---------- The rules ----------

  /** Only a successful call of its holder changes the user state of a scope. */
  ghost function NewUser(w: World, a: Action, n: Scope): UserState
    requires n in w.nodes
  {
    var x := w.nodes[n];
    if a == Locking(n) && x.user == Unlocked && !x.told then Locked
    else if a == Unlocking(n) && x.user == Locked then Unlocked
    else if a == Detaching(n) && x.user == Unlocked then UserState.Detached
    else x.user
  }

  ghost function NewChildren(w: World, a: Action, n: Scope): set<Scope>
    requires n in w.nodes
  {
    var children := w.nodes[n].children;
    if a.Creating? && a.parent == n then children + {a.child}
    else if a.Finishing? && w.ops != [] && w.ops[0].parent == n then children - {w.ops[0]}
    else children
  }

  /** The step makes `n` tell its children. */
  ghost predicate Tells(w: World, a: Action, w': World, n: Scope)
    requires n in w.nodes && n in w'.nodes
  {
    var x := w.nodes[n];
    || (a == ShuttingDown && n == w.root)
    || (a == Unlocking(n) && x.user == Locked && x.told)
    || (a == Detaching(n) && x.user == Unlocked && !x.told)
    || (n != w.root && !x.told && w'.nodes[n].told && x.user == Unlocked)
  }

  /** A scope is told for good, by a parent that tells its children; the root by shutting down. */
  ghost predicate ToldRule(w: World, a: Action, w': World, n: Scope)
    requires n in w.nodes && n in w'.nodes
  {
    w'.nodes[n].told <==>
    || w.nodes[n].told
    || (a == ShuttingDown && n == w.root)
    || (n.parent != null && n.parent in w.nodes && n.parent in w'.nodes && n in w.nodes[n.parent].children
        && Tells(w, a, w', n.parent))
  }

  /** The step starts the destruction of `n`: it has no children left, and it is its turn. */
  ghost predicate Starts(w: World, a: Action, w': World, n: Scope)
    requires n in w.nodes && n in w'.nodes
  {
    var x := w.nodes[n];
    && w'.nodes[n].children == {}
    && (|| (a == Unlocking(n) && x.user == Locked && x.told)
        || (a == Detaching(n) && x.user == Unlocked)
        || (n != w.root && !x.told && w'.nodes[n].told && x.user == Unlocked)
        || (a.Finishing? && w.ops != [] && w.ops[0].parent == n && x.told && x.user != Locked))
  }

  ghost function NewState(w: World, a: Action, w': World, n: Scope): ObjectState
    requires n in w.nodes && n in w'.nodes
  {
    if Starts(w, a, w', n) then (if n.parent == null then Destroyed else StartedDestruction)
    else if a.Finishing? && w.ops != [] && w.ops[0] == n then Destroyed
    else w.nodes[n].state
  }

  ghost predicate NodeRule(w: World, a: Action, w': World, n: Scope)
    requires n in w.nodes && n in w'.nodes
  {
    && w'.nodes[n].user == NewUser(w, a, n)
    && w'.nodes[n].children == NewChildren(w, a, n)
    && ToldRule(w, a, w', n)
    && w'.nodes[n].state == NewState(w, a, w', n)
    && w'.started[n] == w.started[n] + (if Starts(w, a, w', n) then 1 else 0)
    && multiset(w'.ops)[n] ==
       multiset(Waiting(w, a))[n] + (if Starts(w, a, w', n) && n.parent != null then 1 else 0)
  }

  /** A completion leaves the queue when it runs; scopes that start, other than the root, join it at the back. */
  ghost function Waiting(w: World, a: Action): seq<Scope> {
    if a.Finishing? && w.ops != [] then w.ops[1..] else w.ops
  }

  /** The new scope, if there is one, is unlocked, untold and valid, and has no child. */
  ghost predicate KeysRule(w: World, a: Action, w': World) {
    && w'.root == w.root
    && w'.nodes.Keys == w.nodes.Keys + (if a.Creating? then {a.child} else {})
    && (a.Creating? ==> a.child !in w.nodes && w'.nodes[a.child] == Node({}, false, Unlocked, Valid))
    && w'.finished == w.finished + (if a.Finishing? && w.ops != [] then multiset{w.ops[0]} else multiset{})
  }

  ghost predicate Rules(w: World, a: Action, w': World) {
    && KeysRule(w, a, w')
    && (forall n {:trigger NodeRule(w, a, w', n)} | n in w.nodes && n in w'.nodes :: NodeRule(w, a, w', n))
    && Waiting(w, a) <= w'.ops
  }

  // ---------- Every step follows the rules ----------

  lemma CreateFollows(w: World, p: Scope, c: Scope)
    requires Core(w) && MayCreate(w, p, c)
    ensures Rules(w, Creating(p, c), Create(w, p, c))
  {
    var a, w' := Creating(p, c), Create(w, p, c);
    forall n | n in w.nodes && n in w'.nodes ensures NodeRule(w, a, w', n) {
      assert ShapedAt(w, n);
    }
  }

  lemma LockFollows(w: World, m: Scope)
    requires Core(w) && Held(w, m)
    ensures Rules(w, Locking(m), LockStep(w, m))
  {
    var a, w' := Locking(m), LockStep(w, m);
    forall n | n in w.nodes && n in w'.nodes ensures NodeRule(w, a, w', n) {
      assert ShapedAt(w, n);
    }
  }

  /** `p` tells its children by action `a`, and is `node` then. */
  ghost predicate Telling(w: World, a: Action, p: Scope, node: Node)
    requires p in w.nodes
  {
    var x := w.nodes[p];
    || (a == ShuttingDown && p == w.root && !x.told && node == x.(told := true))
    || (a == Unlocking(p) && p != w.root && x.children != {} && x.user == Locked && x.told
        && node == x.(user := Unlocked))
    || (a == Detaching(p) && p != w.root && x.children != {} && x.user == Unlocked && !x.told
        && node == x.(user := UserState.Detached))
  }

  lemma {:induction false} ReachedIsDeeper(w: World, p: Scope, m: Scope)
    requires Shaped(w) && p in w.nodes && Reached(w, w.nodes[p].children, m)
    ensures m.depth > p.depth
    decreases m.depth
  {
    if m in w.nodes[p].children {
      assert ShapedAt(w, p) && ShapedAt(w, m);
    } else {
      ReachedIsDeeper(w, p, m.parent);
    }
  }

  /** A scope is newly told iff it was reached; the teller itself is not reached. */
  lemma NewlyToldIsReached(w: World, a: Action, p: Scope, node: Node, w': World, n: Scope)
    requires Core(w) && p in w.nodes && n in w.nodes && Telling(w, a, p, node)
    requires Wave(With(w, p, node), node.children, w')
    ensures n in w'.nodes
    ensures n != p ==> (w'.nodes[n].told <==> w.nodes[n].told || Reached(With(w, p, node), node.children, n))
    ensures n == p ==> w'.nodes[n].told == node.told && !Reached(With(w, p, node), node.children, n)
  {
    var w1 := With(w, p, node);
    KeepsShape(w, w1);
    if n == p && Reached(w1, node.children, p) {
      ReachedIsDeeper(w1, p, p);
    }
  }

  /** What a notification reaches is told by a parent that tells its children. */
  lemma ReachedFollows(w: World, a: Action, p: Scope, node: Node, w': World, n: Scope)
    requires Core(w) && p in w.nodes && n in w.nodes && Telling(w, a, p, node)
    requires Wave(With(w, p, node), node.children, w')
    ensures n in w'.nodes && ToldRule(w, a, w', n)
  {
    assert ShapedAt(w, n) && ShapedAt(w, p);
    NewlyToldIsReached(w, a, p, node, w', n);
    NewlyToldIsReached(w, a, p, node, w', p);
    if n.parent != null && n.parent in w.nodes {
      NewlyToldIsReached(w, a, p, node, w', n.parent);
      assert n.parent != w.root ==> ShapedAt(w, n.parent);
      assert w.nodes[n].told || n == p || n.parent == p || (Reached(With(w, p, node), node.children, n) <==>
        n in w.nodes[n.parent].children && w.nodes[n.parent].user == Unlocked
        && Reached(With(w, p, node), node.children, n.parent));
    }
  }

  /** What a notification starts are the leaves it reaches. */
  lemma LeavesFollow(w: World, a: Action, p: Scope, node: Node, w': World, n: Scope)
    requires Core(w) && p in w.nodes && n in w.nodes && Telling(w, a, p, node)
    requires Wave(With(w, p, node), node.children, w')
    ensures n in w'.nodes && w'.nodes[n].children == w.nodes[n].children
    ensures Starts(w, a, w', n) <==> n in Leaves(With(w, p, node), node.children)
    ensures Starts(w, a, w', n) ==> n != p && n.parent != null
    ensures w'.nodes[n].state == NewState(w, a, w', n)
  {
    NewlyToldIsReached(w, a, p, node, w', n);
    assert NodeOk(w, p);
  }

  lemma WaveNodeFollows(w: World, a: Action, p: Scope, node: Node, w': World, n: Scope)
    requires Core(w) && p in w.nodes && n in w.nodes && Telling(w, a, p, node)
    requires Wave(With(w, p, node), node.children, w')
    ensures n in w'.nodes && NodeRule(w, a, w', n)
  {
    ReachedFollows(w, a, p, node, w', n);
    LeavesFollow(w, a, p, node, w', n);
    assert w'.started[n] == w.started[n] + multiset(Leaves(With(w, p, node), node.children))[n];
  }

  lemma WaveFollows(w: World, a: Action, p: Scope, node: Node, w': World)
    requires Core(w) && p in w.nodes && Telling(w, a, p, node)
    requires Wave(With(w, p, node), node.children, w')
    ensures Rules(w, a, w')
  {
    forall n | n in w.nodes ensures n in w'.nodes && NodeRule(w, a, w', n) {
      WaveNodeFollows(w, a, p, node, w', n);
    }
  }

  /** A step of `m` alone, which may start. */
  lemma StartFollows(w: World, a: Action, m: Scope, user: UserState)
    requires Core(w) && Held(w, m) && w.nodes[m].children == {}
    requires || (a == Unlocking(m) && w.nodes[m].user == Locked && w.nodes[m].told && user == Unlocked)
             || (a == Detaching(m) && w.nodes[m].user == Unlocked && user == UserState.Detached)
    ensures Rules(w, a, Start(With(w, m, w.nodes[m].(user := user)), m))
  {
    var w' := Start(With(w, m, w.nodes[m].(user := user)), m);
    forall n | n in w.nodes && n in w'.nodes ensures NodeRule(w, a, w', n) {
      StartNodeFollows(w, a, m, user, n);
    }
  }

  lemma StartNodeFollows(w: World, a: Action, m: Scope, user: UserState, n: Scope)
    requires Core(w) && Held(w, m) && w.nodes[m].children == {} && n in w.nodes
    requires || (a == Unlocking(m) && w.nodes[m].user == Locked && w.nodes[m].told && user == Unlocked)
             || (a == Detaching(m) && w.nodes[m].user == Unlocked && user == UserState.Detached)
    ensures NodeRule(w, a, Start(With(w, m, w.nodes[m].(user := user)), m), n)
  {
    assert ShapedAt(w, n) && ShapedAt(w, m);
  }

  lemma UserFollows(w: World, a: Action, m: Scope, user: UserState)
    requires Core(w) && Held(w, m)
    requires || (a == Unlocking(m) && w.nodes[m].user == Locked && !w.nodes[m].told && user == Unlocked)
             || (a == Unlocking(m) && w.nodes[m].user != Locked && user == w.nodes[m].user)
             || (a == Detaching(m) && w.nodes[m].user != Unlocked && user == w.nodes[m].user)
             || (a == Detaching(m) && w.nodes[m].user == Unlocked && w.nodes[m].told && w.nodes[m].children != {}
                 && user == UserState.Detached)
    ensures Rules(w, a, With(w, m, w.nodes[m].(user := user)))
  {
    var w' := With(w, m, w.nodes[m].(user := user));
    forall n | n in w.nodes && n in w'.nodes ensures NodeRule(w, a, w', n) {
      assert ShapedAt(w, n);
    }
  }

  lemma UnlockFollows(w: World, m: Scope, w': World)
    requires Core(w) && Held(w, m) && UnlockStep(w, m, w')
    ensures Rules(w, Unlocking(m), w')
  {
    var x := w.nodes[m];
    if x.user == Locked && x.told {
      if x.children == {} {
        StartFollows(w, Unlocking(m), m, Unlocked);
      } else {
        WaveFollows(w, Unlocking(m), m, x.(user := Unlocked), w');
      }
    } else {
      UserFollows(w, Unlocking(m), m, w'.nodes[m].user);
      assert w' == With(w, m, x.(user := w'.nodes[m].user));
    }
  }

  lemma DetachFollows(w: World, m: Scope, w': World)
    requires Core(w) && Held(w, m) && DetachStep(w, m, w')
    ensures Rules(w, Detaching(m), w')
  {
    var x := w.nodes[m];
    if x.user == Unlocked && x.children == {} {
      StartFollows(w, Detaching(m), m, UserState.Detached);
    } else if x.user == Unlocked && !x.told {
      WaveFollows(w, Detaching(m), m, x.(user := UserState.Detached), w');
    } else {
      UserFollows(w, Detaching(m), m, w'.nodes[m].user);
      assert w' == With(w, m, x.(user := w'.nodes[m].user));
    }
  }

  lemma FinishFollows(w: World)
    requires Core(w) && w.ops != []
    ensures Rules(w, Finishing, Finish(w))
  {
    var w' := Finish(w);
    FinishGrows(w);
    FinishCounts(w, w.ops[0]);
    forall n | n in w.nodes && n in w'.nodes ensures NodeRule(w, Finishing, w', n) {
      FinishNodeFollows(w, n);
    }
  }

  /** The counters and the queue after a completion, as they concern `n`. */
  lemma FinishCounts(w: World, n: Scope)
    requires Core(w) && w.ops != [] && n in w.nodes
    ensures var m, w' := w.ops[0], Finish(w);
            var x := w.nodes[n];
            var starts := n == m.parent && x.children - {m} == {} && x.user != Locked && x.told;
            && w'.root == w.root && w'.finished == w.finished + multiset{m}
            && w'.started[n] == w.started[n] + (if starts then 1 else 0)
            && multiset(w'.ops)[n] == multiset(w.ops[1..])[n] + (if starts && n.parent != null then 1 else 0)
  {
    assert w.ops[0] in w.ops && ShapedAt(w, w.ops[0]);
  }

  lemma FinishNodeFollows(w: World, n: Scope)
    requires Core(w) && w.ops != [] && n in w.nodes
    ensures n in Finish(w).nodes && NodeRule(w, Finishing, Finish(w), n)
  {
    var m := w.ops[0];
    assert m in w.ops && ShapedAt(w, m) && ShapedAt(w, n);
    FinishChanges(w, n);
    FinishCounts(w, n);
    if n.parent != null && n.parent in w.nodes {
      FinishChanges(w, n.parent);
    }
  }

  /** Every step follows the rules. */
  lemma StepsFollowRules(w: World, a: Action, w': World)
    requires Core(w) && Next(w, a, w')
    ensures Rules(w, a, w')
  {
    match a
    case Creating(p, c) => CreateFollows(w, p, c);
    case Locking(n) => LockFollows(w, n);
    case Unlocking(n) => UnlockFollows(w, n, w');
    case Detaching(n) => DetachFollows(w, n, w');
    case ShuttingDown => WaveFollows(w, a, w.root, w.nodes[w.root].(told := true), w');
    case Finishing => FinishFollows(w);
  }

  // ---------- The rules leave nothing open ----------

  lemma {:induction false} ToldIsDetermined(w: World, a: Action, w1: World, w2: World, n: Scope)
    requires Core(w) && Rules(w, a, w1) && Rules(w, a, w2) && n in w.nodes
    ensures n in w1.nodes && n in w2.nodes && w1.nodes[n].told == w2.nodes[n].told
    decreases n.depth
  {
    assert NodeRule(w, a, w1, n) && NodeRule(w, a, w2, n) && ShapedAt(w, n);
    if n != w.root {
      ToldIsDetermined(w, a, w1, w2, n.parent);
    }
  }

  ghost predicate SameCounts(w1: World, w2: World, n: Scope) {
    w1.started[n] == w2.started[n] && multiset(w1.ops)[n] == multiset(w2.ops)[n]
  }

  lemma NodeIsDetermined(w: World, a: Action, w1: World, w2: World, n: Scope)
    requires Core(w) && Rules(w, a, w1) && Rules(w, a, w2) && n in w.nodes
    ensures n in w1.nodes && n in w2.nodes && w1.nodes[n] == w2.nodes[n] && SameCounts(w1, w2, n)
  {
    ToldIsDetermined(w, a, w1, w2, n);
    assert NodeRule(w, a, w1, n) && NodeRule(w, a, w2, n);
  }

  /** Two outcomes of one step agree on every scope, on the counters, and on the queue but for its order. */
  lemma RulesDetermine(w: World, a: Action, w1: World, w2: World)
    requires Core(w) && Rules(w, a, w1) && Rules(w, a, w2)
    ensures w1.root == w2.root && w1.nodes == w2.nodes && w1.finished == w2.finished
    ensures forall n | n in w.nodes :: SameCounts(w1, w2, n)
  {
    forall n | n in w.nodes
      ensures n in w1.nodes && n in w2.nodes && w1.nodes[n] == w2.nodes[n] && SameCounts(w1, w2, n)
    {
      NodeIsDetermined(w, a, w1, w2, n);
    }
  }

  // ---------- Over whole runs ----------

  /** Once told and not locked, a scope is never locked again; once detached, it stays detached. */
  lemma {:induction false} ToldIsNeverLocked(ws: seq<World>, acts: seq<Action>, i: nat, j: nat, n: Scope)
    requires Run(ws, acts) && i <= j < |ws| && n in ws[i].nodes
    ensures n in ws[j].nodes && (ws[i].nodes[n].told ==> ws[j].nodes[n].told)
    ensures ws[i].nodes[n].told && ws[i].nodes[n].user != Locked ==> ws[j].nodes[n].user != Locked
    ensures ws[i].nodes[n].user == UserState.Detached ==> ws[j].nodes[n].user == UserState.Detached
  {
    if i < j {
      ToldIsNeverLocked(ws, acts, i, j - 1, n);
      RunsKeepCore(ws, acts, j - 1);
      assert Next(ws[j - 1], acts[j - 1], ws[j]);
      StepsFollowRules(ws[j - 1], acts[j - 1], ws[j]);
      assert NodeRule(ws[j - 1], acts[j - 1], ws[j], n);
    }
  }

  /** Giving up an unlocked scope detaches it; if it was told and has children, that is all. */
  lemma DetachingDetaches(w: World, n: Scope, w': World)
    requires Core(w) && Next(w, Detaching(n), w') && w.nodes[n].user == Unlocked
    ensures n in w'.nodes && w'.nodes[n].user == UserState.Detached
    ensures w.nodes[n].told && w.nodes[n].children != {} ==>
              w' == w.(nodes := w.nodes[n := w.nodes[n].(user := UserState.Detached)])
  {
    StepsFollowRules(w, Detaching(n), w');
    assert NodeRule(w, Detaching(n), w', n);
  }

  /** Returning a lock unlocks; if the scope was not told meanwhile, that is all, and else it passes that on. */
  lemma UnlockingUnlocks(w: World, n: Scope, w': World)
    requires Core(w) && Next(w, Unlocking(n), w') && w.nodes[n].user == Locked
    ensures n in w'.nodes && w'.nodes[n].user == Unlocked
    ensures !w.nodes[n].told ==> w' == w.(nodes := w.nodes[n := w.nodes[n].(user := Unlocked)])
    ensures w.nodes[n].told ==> forall c | c in w.nodes[n].children :: c in w'.nodes && w'.nodes[c].told
    ensures w.nodes[n].told && w.nodes[n].children == {} ==> w'.nodes[n].state == StartedDestruction
  {
    StepsFollowRules(w, Unlocking(n), w');
    assert NodeRule(w, Unlocking(n), w', n) && ShapedAt(w, n);
    forall c | c in w.nodes[n].children && w.nodes[n].told ensures c in w'.nodes && w'.nodes[c].told {
      assert NodeRule(w, Unlocking(n), w', c);
    }
  }
}
