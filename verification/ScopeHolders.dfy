/**
 The handle through which a user owns a scope. Whatever a holder does is a step of the protocol, so
 every object reached by calls on holders and by polling satisfies the invariants of `ScopeSafety`.
 */
module ScopeHolders {
  import opened AsyncScopes
  import opened ScopeSafety

  class UniqueAsyncHolder {
    var ptr: Scope?

    /** The holder is empty or holds a scope of the tree, other than the root. */
    ghost predicate Holds(ctx: ExecutionContext, root: Scope)
      reads this, ctx, ctx.scopes
    {
      ptr != null ==> Held(ctx.Snapshot(root), ptr)
    }

    /** Creates a scope under a locked scope, or under a root that is not shutting down. */
    constructor Make(parent: Scope, ctx: ExecutionContext, ghost root: Scope)
      requires Core(ctx.Snapshot(root)) && parent in ctx.scopes
      requires parent.userState == Locked || (parent == root && !parent.parentTriggeredDestroy)
      modifies ctx, parent
      ensures ptr != null && fresh(ptr) && Holds(ctx, root)
      ensures Next(old(ctx.Snapshot(root)), Creating(parent, ptr), ctx.Snapshot(root))
      ensures Core(ctx.Snapshot(root))
    {
      ghost var w := ctx.Snapshot(root);
      var scope := new Scope(parent, ctx, root);
      ptr := scope;
      new;
      NextKeepsCore(w, Creating(parent, scope), ctx.Snapshot(root));
    }

    /** The scope if the lock was granted, and null for an empty holder or a refused lock. */
    method LockScope(ctx: ExecutionContext, ghost root: Scope) returns (scope: Scope?)
      requires Core(ctx.Snapshot(root)) && Holds(ctx, root)
      modifies if ptr == null then {} else {ptr}
      ensures Holds(ctx, root) && ptr == old(ptr) && Core(ctx.Snapshot(root))
      ensures ptr == null ==> scope == null && ctx.Snapshot(root) == old(ctx.Snapshot(root))
      ensures ptr != null ==>
                && Next(old(ctx.Snapshot(root)), Locking(ptr), ctx.Snapshot(root))
                && scope == if old(ptr.userState) == Unlocked && !ptr.parentTriggeredDestroy then ptr else null
      ensures scope != null ==> scope.userState == Locked && scope.objectState == Valid
    {
      if ptr == null {
        return null;
      }
      ghost var w := ctx.Snapshot(root);
      var ok := ptr.Lock(ctx, root);
      NextKeepsCore(w, Locking(ptr), ctx.Snapshot(root));
      assert NodeOk(ctx.Snapshot(root), ptr);
      if ok {
        return ptr;
      }
      return null;
    }

    /** Gives a lock back. `ok` is false where the program reports an incorrect transition. */
    method ReturnLock(ctx: ExecutionContext, ghost root: Scope) returns (ok: bool)
      requires Core(ctx.Snapshot(root)) && Holds(ctx, root) && ptr != null
      modifies ctx, ctx.scopes
      ensures ctx.scopes == old(ctx.scopes) && ptr == old(ptr) && Holds(ctx, root)
      ensures Core(ctx.Snapshot(root)) && ok == (old(ptr.userState) == Locked)
      ensures Next(old(ctx.Snapshot(root)), Unlocking(ptr), ctx.Snapshot(root))
    {
      ghost var w := ctx.Snapshot(root);
      ok := ptr.Unlock(ctx, root);
      NextKeepsCore(w, Unlocking(ptr), ctx.Snapshot(root));
    }

    /** Detaches the scope, if any, and forgets it. */
    method Release(ctx: ExecutionContext, ghost root: Scope)
      requires Core(ctx.Snapshot(root)) && Holds(ctx, root)
      modifies this, ctx, ctx.scopes
      ensures ctx.scopes == old(ctx.scopes) && ptr == null && Core(ctx.Snapshot(root))
      ensures old(ptr) == null ==> ctx.Snapshot(root) == old(ctx.Snapshot(root))
      ensures old(ptr) != null ==> Next(old(ctx.Snapshot(root)), Detaching(old(ptr)), ctx.Snapshot(root))
    {
      if ptr != null {
        ghost var w := ctx.Snapshot(root);
        var ok := ptr.Detach(ctx, root);
        NextKeepsCore(w, Detaching(ptr), ctx.Snapshot(root));
      }
      ptr := null;
    }
  }
}
