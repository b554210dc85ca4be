/**
 Which scopes never start. A scope that is detached before its parent told it, and whose last child
 leaves before that too, is stranded: its parent's notification stops at it as detached, and no
 child is left to trigger the start. These are the only missed starts, in every run; only a second
 completion of a child, which a careful run does not have, can still start such a scope.
 */
module ScopeHistory {
  import opened AsyncScopes
  import opened ScopeSafety

  /** Due for destruction, with nothing in the way, and yet not started. */
  ghost predicate Missed(w: World, n: Scope) {
    && Held(w, n) && (w.nodes[n].told || w.nodes[n].user == UserState.Detached) && w.nodes[n].user != Locked
    && w.nodes[n].children == {} && w.nodes[n].state == Valid
  }

  ghost predicate Stranded(w: World, n: Scope) {
    && Held(w, n) && w.nodes[n].user == UserState.Detached
    && w.nodes[n].children == {} && w.nodes[n].state == Valid
  }

  ghost predicate DetachedUntold(ws: seq<World>, d: nat, n: Scope) {
    && d + 1 < |ws| && n in ws[d].nodes && n in ws[d + 1].nodes
    && ws[d].nodes[n].user != UserState.Detached && ws[d + 1].nodes[n].user == UserState.Detached
    && !ws[d + 1].nodes[n].told
  }

  ghost predicate EmptiedUntold(ws: seq<World>, e: nat, n: Scope) {
    && e + 1 < |ws| && n in ws[e].nodes && n in ws[e + 1].nodes
    && ws[e].nodes[n].children != {} && ws[e + 1].nodes[n].children == {}
    && !ws[e + 1].nodes[n].told
  }

  /** The step at which a detached untold scope loses its last child. */
  ghost predicate Emptying(w: World, w': World, n: Scope)
    requires n in w.nodes && n in w'.nodes
  {
    && w.nodes[n].user == UserState.Detached && w.nodes[n].children != {}
    && w'.nodes[n].children == {} && !w'.nodes[n].told
  }

  lemma MissedIsStranded(w: World, n: Scope)
    requires Core(w)
    ensures Missed(w, n) <==> Stranded(w, n)
  {
    if Held(w, n) {
      assert WaveOk(w, n);
    }
  }

  // ---------- Steps ----------

  /** What one step may do to the flags of `n`. */
  ghost predicate FlagsMove(w: World, w': World, n: Scope)
    requires n in w.nodes
  {
    && n in w'.nodes
    && (w.nodes[n].told ==> w'.nodes[n].told)
    && (w.nodes[n].user == UserState.Detached ==> w'.nodes[n].user == UserState.Detached)
  }

  /** A step that neither strands `n` nor frees it, and takes no last child from it. */
  ghost predicate LeavesAlone(w: World, w': World, n: Scope)
    requires n in w.nodes
  {
    && FlagsMove(w, w', n)
    && w'.root == w.root
    && (Stranded(w', n) <==> Stranded(w, n))
    && (w'.nodes[n].children == {} ==> w.nodes[n].children == {})
  }

  lemma WaveLeaves(w: World, targets: set<Scope>, w': World, n: Scope)
    requires Wave(w, targets, w') && n in w.nodes
    ensures LeavesAlone(w, w', n) && w'.nodes[n].children == w.nodes[n].children
    ensures w'.nodes[n].user == w.nodes[n].user
  {
  }

  lemma UnlockLeaves(w: World, m: Scope, w': World, n: Scope)
    requires Held(w, m) && UnlockStep(w, m, w') && n in w.nodes
    ensures LeavesAlone(w, w', n)
  {
    var w1 := With(w, m, w.nodes[m].(user := Unlocked));
    if w.nodes[m].user == Locked && w.nodes[m].told && w.nodes[m].children != {} {
      WaveLeaves(w1, w1.nodes[m].children, w', n);
    }
  }

  lemma DetachLeaves(w: World, m: Scope, w': World, n: Scope)
    requires Held(w, m) && DetachStep(w, m, w') && n in w.nodes
    ensures LeavesAlone(w, w', n)
  {
    var w1 := With(w, m, w.nodes[m].(user := UserState.Detached));
    if w.nodes[m].user == Unlocked && !w.nodes[m].told && w.nodes[m].children != {} {
      WaveLeaves(w1, w1.nodes[m].children, w', n);
    }
  }

  lemma ShutdownLeaves(w: World, w': World, n: Scope)
    requires w.root in w.nodes && ShutdownStep(w, w') && n in w.nodes
    ensures LeavesAlone(w, w', n)
  {
    WaveLeaves(With(w, w.root, w.nodes[w.root].(told := true)), w.nodes[w.root].children, w', n);
  }

  lemma NextLeaves(w: World, a: Action, w': World, n: Scope)
    requires Core(w) && Next(w, a, w') && n in w.nodes && !a.Finishing?
    ensures LeavesAlone(w, w', n)
  {
    match a
    case Creating(p, c) => assert NodeOk(w, p);
    case Locking(m) =>
    case Unlocking(m) => UnlockLeaves(w, m, w', n);
    case Detaching(m) => DetachLeaves(w, m, w', n);
    case ShuttingDown => ShutdownLeaves(w, w', n);
  }

  /** The node of `n` after the completion of `m`. */
  ghost function AfterFinish(w: World, m: Scope, n: Scope): Node
    requires n in w.nodes
  {
    var x := w.nodes[n];
    if n == m then x.(state := Destroyed)
    else if n != m.parent then x
    else
      var left := x.children - {m};
      var state := if n.parent == null then Destroyed else StartedDestruction;
      x.(children := left, state := if left == {} && x.user != Locked && x.told then state else x.state)
  }

  lemma FinishChanges(w: World, n: Scope)
    requires Core(w) && w.ops != [] && n in w.nodes
    ensures Finish(w).root == w.root && n in Finish(w).nodes
    ensures Finish(w).nodes[n] == AfterFinish(w, w.ops[0], n)
  {
    assert w.ops[0] in w.ops && ShapedAt(w, w.ops[0]);
  }

  lemma NextMovesFlags(w: World, a: Action, w': World, n: Scope)
    requires Core(w) && Next(w, a, w') && n in w.nodes
    ensures FlagsMove(w, w', n)
  {
    if a.Finishing? {
      FinishChanges(w, n);
    } else {
      NextLeaves(w, a, w', n);
    }
  }

  /** A child of `n` completes a second time, when `n` has been told: its removal starts an empty `n`. */
  ghost predicate Frees(w: World, a: Action, n: Scope) {
    && a.Finishing? && w.ops != [] && w.ops[0].parent == n && w.finished[w.ops[0]] > 0
    && n in w.nodes && w.nodes[n].told
  }

  lemma FinishStrands(w: World, n: Scope)
    requires Core(w) && w.ops != [] && Held(w, n)
    ensures Stranded(Finish(w), n) <==>
            (Stranded(w, n) || Emptying(w, Finish(w), n)) && !Frees(w, Finishing, n)
  {
    FinishChanges(w, n);
    var m := w.ops[0];
    assert m in w.ops && ShapedAt(w, m) && NodeOk(w, m) && NodeOk(w, n);
  }

  /**
   A step strands `n` only by taking its last child while it is detached and untold; stranded it
   stays, unless a child completes a second time.
   */
  lemma NextStrands(w: World, a: Action, w': World, n: Scope)
    requires Core(w) && Next(w, a, w') && Held(w, n)
    ensures n in w'.nodes && w'.root == w.root
    ensures Stranded(w', n) <==> (Stranded(w, n) || Emptying(w, w', n)) && !Frees(w, a, n)
  {
    if a.Finishing? {
      FinishChanges(w, n);
      FinishStrands(w, n);
    } else {
      NextLeaves(w, a, w', n);
    }
  }

  /** Where scopes start at most once, none completes a second time. */
  lemma OnceFreesNone(w: World, a: Action, n: Scope)
    requires Core(w) && Once(w)
    ensures !Frees(w, a, n)
  {
    if w.ops != [] {
      assert w.ops[0] in w.ops && OnceOk(w, w.ops[0]);
      assert multiset(w.ops)[w.ops[0]] > 0;
    }
  }

  // ---------- Runs ----------

  lemma {:induction false} ToldForGood(ws: seq<World>, acts: seq<Action>, i: nat, j: nat, n: Scope)
    requires Run(ws, acts) && i <= j < |ws| && n in ws[i].nodes
    ensures FlagsMove(ws[i], ws[j], n)
  {
    if i < j {
      ToldForGood(ws, acts, i, j - 1, n);
      RunsKeepCore(ws, acts, j - 1);
      assert Next(ws[j - 1], acts[j - 1], ws[j]);
      NextMovesFlags(ws[j - 1], acts[j - 1], ws[j], n);
    }
  }

  lemma NewIsFresh(w: World, a: Action, w': World, n: Scope)
    requires Core(w) && Next(w, a, w') && n !in w.nodes && n in w'.nodes
    ensures w'.nodes[n] == FRESH_NODE
  {
    NextGrows(w, a, w');
  }

  /** One step of a run, as it concerns the flags of `n`. */
  lemma RunMovesFlags(ws: seq<World>, acts: seq<Action>, i: nat, n: Scope)
    requires Run(ws, acts) && 0 < i < |ws| && n in ws[i].nodes
    ensures n in ws[i - 1].nodes ==> FlagsMove(ws[i - 1], ws[i], n)
    ensures n !in ws[i - 1].nodes ==> ws[i].nodes[n] == FRESH_NODE
  {
    RunsKeepCore(ws, acts, i - 1);
    assert Next(ws[i - 1], acts[i - 1], ws[i]);
    if n in ws[i - 1].nodes {
      NextMovesFlags(ws[i - 1], acts[i - 1], ws[i], n);
    } else {
      NewIsFresh(ws[i - 1], acts[i - 1], ws[i], n);
    }
  }

  lemma {:induction false} WasDetached(ws: seq<World>, acts: seq<Action>, i: nat, n: Scope)
    requires Run(ws, acts) && i < |ws| && n in ws[i].nodes
    requires ws[i].nodes[n].user == UserState.Detached && !ws[i].nodes[n].told
    ensures exists d: nat :: d < i && DetachedUntold(ws, d, n)
  {
    if i > 0 {
      RunMovesFlags(ws, acts, i, n);
      if ws[i - 1].nodes[n].user == UserState.Detached {
        WasDetached(ws, acts, i - 1, n);
      } else {
        assert DetachedUntold(ws, i - 1, n);
      }
    }
  }

  /** `n` was detached before it was told, and later lost its last child before it was told. */
  ghost predicate StrandedBefore(ws: seq<World>, i: nat, n: Scope) {
    exists d: nat, e: nat {:trigger DetachedUntold(ws, d, n), EmptiedUntold(ws, e, n)} ::
      d < e < i && DetachedUntold(ws, d, n) && EmptiedUntold(ws, e, n)
  }

  /** Up to state `i` a child of `n` completed a second time, when `n` had been told. */
  ghost predicate FreedBefore(ws: seq<World>, acts: seq<Action>, i: nat, n: Scope)
    requires i <= |acts| && i <= |ws|
  {
    exists f {:trigger acts[f]} | 0 <= f < i :: Frees(ws[f], acts[f], n)
  }

  /** One step of a run, as it concerns whether `n` is stranded. */
  lemma RunStrands(ws: seq<World>, acts: seq<Action>, i: nat, n: Scope)
    requires Run(ws, acts) && 0 < i < |ws| && Held(ws[i - 1], n)
    ensures Held(ws[i], n)
    ensures Stranded(ws[i], n) <==>
            (Stranded(ws[i - 1], n) || Emptying(ws[i - 1], ws[i], n)) && !Frees(ws[i - 1], acts[i - 1], n)
  {
    RunsKeepCore(ws, acts, i - 1);
    assert Next(ws[i - 1], acts[i - 1], ws[i]);
    NextStrands(ws[i - 1], acts[i - 1], ws[i], n);
  }

  /** A scope is freed only once it was told. */
  lemma UntoldIsNotFreed(ws: seq<World>, acts: seq<Action>, i: nat, n: Scope)
    requires Run(ws, acts) && i < |ws| && n in ws[i].nodes && !ws[i].nodes[n].told
    ensures !FreedBefore(ws, acts, i, n)
  {
    forall f {:trigger acts[f]} | 0 <= f < i ensures !Frees(ws[f], acts[f], n) {
      if n in ws[f].nodes {
        ToldForGood(ws, acts, f, i, n);
      }
    }
  }

  lemma NewlyStranded(ws: seq<World>, acts: seq<Action>, i: nat, n: Scope)
    requires Run(ws, acts) && 0 < i < |ws| && n in ws[i - 1].nodes && n in ws[i].nodes
    requires Emptying(ws[i - 1], ws[i], n)
    ensures StrandedBefore(ws, i, n) && !FreedBefore(ws, acts, i, n)
  {
    ToldForGood(ws, acts, i - 1, i, n);
    WasDetached(ws, acts, i - 1, n);
    assert EmptiedUntold(ws, i - 1, n);
    UntoldIsNotFreed(ws, acts, i, n);
  }

  /** A stranded scope was stranded one step before, or is emptied by this step. */
  lemma StrandedBackwards(ws: seq<World>, acts: seq<Action>, i: nat, n: Scope)
    requires Run(ws, acts) && 0 < i < |ws| && Stranded(ws[i], n)
    ensures !Frees(ws[i - 1], acts[i - 1], n)
    ensures !Stranded(ws[i - 1], n) ==> n in ws[i - 1].nodes && Emptying(ws[i - 1], ws[i], n)
  {
    RunMovesFlags(ws, acts, i, n);
    RunsGrow(ws, acts, i - 1, i);
    RunStrands(ws, acts, i, n);
  }

  lemma HistoryGrows(ws: seq<World>, acts: seq<Action>, i: nat, n: Scope)
    requires 0 < i <= |acts| && i <= |ws|
    ensures StrandedBefore(ws, i - 1, n) ==> StrandedBefore(ws, i, n)
    ensures FreedBefore(ws, acts, i, n) <==> FreedBefore(ws, acts, i - 1, n) || Frees(ws[i - 1], acts[i - 1], n)
  {
  }

  lemma {:induction false} StrandedHasHistory(ws: seq<World>, acts: seq<Action>, i: nat, n: Scope)
    requires Run(ws, acts) && i < |ws| && Stranded(ws[i], n)
    ensures StrandedBefore(ws, i, n) && !FreedBefore(ws, acts, i, n)
  {
    if i > 0 {
      StrandedBackwards(ws, acts, i, n);
      if Stranded(ws[i - 1], n) {
        StrandedHasHistory(ws, acts, i - 1, n);
        HistoryGrows(ws, acts, i, n);
      } else {
        NewlyStranded(ws, acts, i, n);
      }
    }
  }

  lemma EmptiedIsStranded(ws: seq<World>, acts: seq<Action>, d: nat, e: nat, n: Scope)
    requires Run(ws, acts) && d < e && DetachedUntold(ws, d, n) && EmptiedUntold(ws, e, n)
    requires Held(ws[e], n)
    ensures Stranded(ws[e + 1], n)
  {
    ToldForGood(ws, acts, d + 1, e, n);
    ToldForGood(ws, acts, e, e + 1, n);
    RunStrands(ws, acts, e + 1, n);
  }

  lemma {:induction false} StrandedForGood(ws: seq<World>, acts: seq<Action>, e: nat, i: nat, n: Scope)
    requires Run(ws, acts) && e <= i < |ws| && Stranded(ws[e], n) && !FreedBefore(ws, acts, i, n)
    ensures Stranded(ws[i], n)
  {
    if e < i {
      HistoryGrows(ws, acts, i, n);
      StrandedForGood(ws, acts, e, i - 1, n);
      RunStrands(ws, acts, i, n);
    }
  }

  /**
   In every run, a scope that is due, unlocked and empty has started, unless it was detached before
   being told and lost its last child before being told, and no child completed a second time since.
   Exactly then it is not started.
   */
  lemma NoMissedStart(ws: seq<World>, acts: seq<Action>, i: nat, n: Scope)
    requires Run(ws, acts) && i < |ws| && Held(ws[i], n)
    ensures Missed(ws[i], n) <==> StrandedBefore(ws, i, n) && !FreedBefore(ws, acts, i, n)
  {
    RunsKeepCore(ws, acts, i);
    MissedIsStranded(ws[i], n);
    if Stranded(ws[i], n) {
      StrandedHasHistory(ws, acts, i, n);
    }
    if StrandedBefore(ws, i, n) && !FreedBefore(ws, acts, i, n) {
      var d: nat, e: nat :| d < e < i && DetachedUntold(ws, d, n) && EmptiedUntold(ws, e, n);
      RunsGrow(ws, acts, e, i);
      EmptiedIsStranded(ws, acts, d, e, n);
      StrandedForGood(ws, acts, e + 1, i, n);
    }
  }

  /** In a careful run no child completes a second time, so a stranded scope never starts. */
  lemma CarefulRunsMissStranded(ws: seq<World>, acts: seq<Action>, i: nat, n: Scope)
    requires CarefulRun(ws, acts) && i < |ws| && Held(ws[i], n)
    ensures Missed(ws[i], n) <==> StrandedBefore(ws, i, n)
  {
    NoMissedStart(ws, acts, i, n);
    forall f {:trigger acts[f]} | 0 <= f < i ensures !Frees(ws[f], acts[f], n) {
      CarefulRunsKeepOnce(ws, acts, f);
      OnceFreesNone(ws[f], acts[f], n);
    }
  }
}
