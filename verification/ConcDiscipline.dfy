/** The lock discipline of the concurrent queue: what the code of every call respects, and what that
    means for the mutexes in every state. */
module ConcDiscipline {
  import opened Options
  import opened ConcModel
  import F = Fifo

  // ---- the discipline of a call ---------------------------------------------------------------------

  /** A handle no call is running on owns the mutex of the queue it is bound to, if it is non-reentrant,
      and no mutex otherwise. */
  predicate Settled(kind: Kind, lock: Option<nat>, bound: Option<nat>) {
    if kind.reentrant then lock.None? else lock == bound
  }

  /** A non-reentrant handle bound to a queue implies that the mutex of the queue is owned. */
  predicate Covered(locals: set<nat>, kind: Kind, lock: Option<nat>, bound: Option<nat>) {
    !kind.reentrant && bound.Some? ==> lock == bound || bound.value in locals
  }

  predicate Fits<T>(op: F.Op<T>, kind: Kind) {
    if kind.put then op.StartPut? && op.reentrant == kind.reentrant else op.StartConsume?
  }

  /** The step releases only what is owned: by the call (`locals`) or by its handle (`lock`), which is bound
      to the queue `bound`. If `strict`, it also accesses a queue only while its mutex is owned. */
  predicate CanStep<T>(m: Micro<T>, locals: set<nat>, kind: Kind, lock: Option<nat>, bound: Option<nat>, strict: bool) {
    match m
    case Acquire(q) => q !in locals
    case Release(q) => q in locals
    case Keep(q) => q in locals && !kind.reentrant && lock.None? && (bound.None? || bound == Some(q))
    case Drop => lock.Some? && bound.None?
    case Start(q, op) => (strict ==> q in locals) && lock.None? && bound.None? && Fits(op, kind)
    case Finish(_) => bound.Some? && (strict ==> Reaches(locals, lock, bound))
    case RawAllocate => bound.Some? && (strict ==> Reaches(locals, lock, bound))
    case Clear(q) => (strict ==> q in locals) && bound.None?
    case IsEmpty(q) => strict ==> q in locals
  }

  function LocalsAfter<T>(m: Micro<T>, locals: set<nat>): set<nat> {
    match m
    case Acquire(q) => locals + {q}
    case Release(q) => locals - {q}
    case Keep(q) => locals - {q}
    case _ => locals
  }

  function LockAfter<T>(m: Micro<T>, lock: Option<nat>, bound: Option<nat>): Option<nat> {
    if m.Keep? then bound else if m.Drop? then None else lock
  }

  ghost predicate BoundAfter<T>(m: Micro<T>, bound: Option<nat>, bound': Option<nat>) {
    if m.Start? then bound'.None? || bound' == Some(m.queue)
    else bound' == if m.Finish? then None else bound
  }

  /** Running the steps releases what it acquires, and leaves the handle settled. If `strict`, it accesses
      queues only while the call or its handle owns their mutex. */
  ghost predicate Guarded<T>(code: Code<T>, locals: set<nat>, kind: Kind, lock: Option<nat>, bound: Option<nat>,
                             strict: bool) {
    && Covered(locals, kind, lock, bound)
    && if code.Return? then
         locals == {} && Settled(kind, lock, bound)
       else
         var m := code.step;
         && CanStep(m, locals, kind, lock, bound, strict)
         && forall bound' :: BoundAfter(m, bound, bound') ==>
              Guarded(code.next, LocalsAfter(m, locals), kind, LockAfter(m, lock, bound), bound', strict)
  }

  predicate Reaches(locals: set<nat>, lock: Option<nat>, bound: Option<nat>) {
    bound.Some? && (lock == bound || bound.value in locals)
  }

  /** A bound reentrant handle points to the queue it is bound to. */
  predicate TargetOk(hd: Handle) {
    hd.kind.reentrant && hd.inner.Some? ==> hd.target == Some(hd.inner.value.queue)
  }

  lemma ReleaseLast<T>(q: nat, kind: Kind, bound: Option<nat>, strict: bool)
    ensures Guarded<T>(Do(Release(q), Return), {q}, kind, None, bound, strict)
            <==> kind.reentrant || bound.None?
  {
    assert BoundAfter<T>(Release(q), bound, bound);
    assert {q} - {q} == {};
  }

  lemma KeepLast<T>(q: nat, kind: Kind, bound: Option<nat>, strict: bool)
    requires !kind.reentrant && (bound.None? || bound == Some(q))
    ensures Guarded<T>(Do(Keep(q), Return), {q}, kind, None, bound, strict)
  {
    assert {q} - {q} == {};
  }

  lemma StartScoped<T>(q: nat, op: F.Op<T>, kind: Kind, strict: bool)
    requires Fits(op, kind) && !kind.reentrant
    ensures Guarded(Do(Acquire(q), Do(Start(q, op), Do(Keep(q), Return))), {}, kind, None, None, strict)
  {
    KeepLast<T>(q, kind, None, strict);
    KeepLast<T>(q, kind, Some(q), strict);
    assert {} + {q} == {q};
    assert Guarded(Do(Start(q, op), Do(Keep(q), Return)), {q}, kind, None, None, strict);
  }

  lemma StartLast<T>(q: nat, op: F.Op<T>, kind: Kind, strict: bool)
    requires Fits(op, kind) && kind.reentrant
    ensures Guarded(Do(Start(q, op), Do(Release(q), Return)), {q}, kind, None, None, strict)
  {
    ReleaseLast<T>(q, kind, None, strict);
    ReleaseLast<T>(q, kind, Some(q), strict);
  }

  lemma StartReentrant<T>(q: nat, op: F.Op<T>, kind: Kind, strict: bool)
    requires Fits(op, kind) && kind.reentrant
    ensures Guarded(Do(Acquire(q), Do(Start(q, op), Do(Release(q), Return))), {}, kind, None, None, strict)
  {
    StartLast(q, op, kind, strict);
    assert {} + {q} == {q};
  }

  lemma LockedGuarded<T>(q: nat, m: Micro<T>, kind: Kind, bound: Option<nat>, strict: bool)
    requires kind.reentrant && (bound.Some? ==> bound == Some(q))
    requires ((m.Finish? || m.RawAllocate?) && bound.Some?) || (m == Clear(q) && bound.None?) || m == IsEmpty(q)
    ensures Guarded(Do(Acquire(q), Do(m, Do(Release(q), Return))), {}, kind, None, bound, strict)
  {
    ReleaseLast<T>(q, kind, None, strict);
    ReleaseLast<T>(q, kind, bound, strict);
    assert {} + {q} == {q};
  }

  /** Moving a reentrant consume handle to another queue holds both mutexes, and then the new one. */
  lemma RebindElsewhere<T>(q: nat, p: nat, hd: Handle, strict: bool)
    requires hd.kind == Kind(false, true) && hd.target == Some(p) && p != q
    requires Bound(hd).None? || Bound(hd) == Some(p)
    ensures Guarded(Rebind<T>(q, hd), {}, hd.kind, None, Bound(hd), strict)
  {
    StartLast<T>(q, F.StartConsume, hd.kind, strict);
    assert {} + {p} == {p} && {p} + {q} - {p} == {q};
    var start: Code<T> := Do(Start(q, F.StartConsume), Do(Release(q), Return));
    assert Guarded(Do(Release(p), start), {p} + {q}, hd.kind, None, None, strict);
    var cancel := if hd.inner.Some? then Do(Finish(false), Do(Release(p), start)) else Do(Release(p), start);
    assert Guarded(cancel, {p} + {q}, hd.kind, None, Bound(hd), strict);
    assert Guarded(Do(Acquire(q), cancel), {p}, hd.kind, None, Bound(hd), strict);
  }

  /** On the queue it already points to, the mutex has been released when the consume starts. */
  lemma RebindInPlace<T>(q: nat, hd: Handle, strict: bool)
    requires hd.kind == Kind(false, true) && hd.target == Some(q) && hd.lock.None?
    requires Bound(hd).None? || Bound(hd) == Some(q)
    ensures Guarded(Rebind<T>(q, hd), {}, hd.kind, hd.lock, Bound(hd), strict) <==> !strict
  {
    var start: Code<T> := Do(Start(q, F.StartConsume), Return);
    assert {} + {q} == {q} && {q} - {q} == {};
    assert Guarded(start, {}, hd.kind, None, None, strict) <==> !strict;
    assert BoundAfter<T>(Release(q), None, None);
    assert Guarded(Do(Release(q), start), {q}, hd.kind, None, None, strict) <==> !strict;
    var cancel := if hd.inner.Some? then Do(Finish(false), Do(Release(q), start)) else Do(Release(q), start);
    assert Guarded(cancel, {q}, hd.kind, None, Bound(hd), strict) <==> !strict by {
      assert BoundAfter<T>(Finish(false), Bound(hd), None);
    }
    assert BoundAfter<T>(Acquire(q), Bound(hd), Bound(hd));
  }

  /** Every call releases what it acquires. Every call also accesses queues only under their mutex, except
      for one family: starting a reentrant consume on the queue its handle already points to, whether or
      not the handle is empty. */
  lemma CallGuarded<T>(s: State<T>, t: nat, c: Call<T>, hd: Handle, strict: bool)
    requires Allowed(s, t, c)
    requires hd == if HandleOf(c).None? then NO_HANDLE else HandleAt(s.(handles := Created(s, c)), c.handle)
    requires Settled(hd.kind, hd.lock, Bound(hd)) && TargetOk(hd)
    ensures Guarded(CodeOf(c, hd), {}, hd.kind, hd.lock, Bound(hd), strict) <==> (strict ==> Harmless(s, c))
  {
    hide Guarded;
    match c
    case StartPut(q, _, v, reentrant) =>
      if reentrant {
        StartReentrant(q, F.StartPut(v, true), hd.kind, strict);
      } else {
        StartScoped(q, F.StartPut(v, false), hd.kind, strict);
      }
    case StartConsume(q, h, false) =>
      StartScoped<T>(q, F.StartConsume, hd.kind, strict);
      if hd.lock.Some? {
        CancelFirst<T>(q, hd, strict);
      }
    case StartConsume(q, h, true) =>
      if hd.target == Some(q) {
        RebindInPlace<T>(q, hd, strict);
      } else if hd.target.Some? {
        RebindElsewhere<T>(q, hd.target.value, hd, strict);
      } else {
        StartReentrant<T>(q, F.StartConsume, hd.kind, strict);
      }
    case End(_, commit) =>
      if hd.kind.reentrant {
        LockedGuarded<T>(hd.target.value, Finish(commit), hd.kind, Bound(hd), strict);
      } else {
        EndScoped<T>(hd, commit, strict);
      }
    case AllocateRaw(_) =>
      if hd.kind.reentrant {
        LockedGuarded<T>(hd.target.value, RawAllocate, hd.kind, Bound(hd), strict);
      } else {
        RawScoped<T>(hd, strict);
      }
    case ClearQueue(q) => LockedGuarded<T>(q, Clear(q), hd.kind, None, strict);
    case TestEmpty(q) => LockedGuarded<T>(q, IsEmpty(q), hd.kind, None, strict);
  }

  lemma CancelFirst<T>(q: nat, hd: Handle, strict: bool)
    requires !hd.kind.reentrant && hd.lock == Bound(hd) && hd.lock.Some?
    ensures var start: Code<T> := Do(Acquire(q), Do(Start(q, F.StartConsume), Do(Keep(q), Return)));
            Guarded(start, {}, hd.kind, None, None, strict) ==>
              Guarded(Do(Finish(false), Do(Drop, start)), {}, hd.kind, hd.lock, Bound(hd), strict)
  {
  }

  lemma EndScoped<T>(hd: Handle, commit: bool, strict: bool)
    requires !hd.kind.reentrant && hd.lock == Bound(hd) && hd.lock.Some?
    ensures Guarded<T>(Do(Finish(commit), Do(Drop, Return)), {}, hd.kind, hd.lock, Bound(hd), strict)
  {
  }

  lemma RawScoped<T>(hd: Handle, strict: bool)
    requires !hd.kind.reentrant && hd.lock == Bound(hd) && hd.lock.Some?
    ensures Guarded<T>(Do(RawAllocate, Return), {}, hd.kind, hd.lock, Bound(hd), strict)
  {
  }

  // ---- the locks in every state ------------------------------------------------------------------------

  /** The steps start an operation, which needs a handle. */
  predicate HasStart<T>(code: Code<T>) {
    code.Do? && (code.step.Start? || HasStart(code.next))
  }

  /** What remains of the call of a thread follows the discipline. */
  ghost predicate GuardedAt<T>(s: State<T>, t: nat, strict: bool) {
    var th, hd := ThreadAt(s, t), Current(s, t);
    && (th.code.Return? ==> th.handle.None?)
    && (th.handle.Some? ==> th.handle.value in s.handles)
    && (HasStart(th.code) ==> th.handle.Some?)
    && Guarded(th.code, Locals(s, t), hd.kind, hd.lock, Bound(hd), strict)
  }

  ghost predicate Exclusive<T>(s: State<T>) {
    forall t: nat, u: nat, h: nat :: Uses(s, t, h) && Uses(s, u, h) ==> t == u
  }

  /** The mutex that the lock object of a handle claims to own is locked by that lock object, in the
      thread that uses the handle. */
  ghost predicate LockAt<T>(s: State<T>, h: nat) {
    var lock := HandleAt(s, h).lock;
    lock.Some? ==>
      && lock.value in s.mutexes && s.mutexes[lock.value].holder == Some(h)
      && forall t: nat :: Uses(s, t, h) ==> s.mutexes[lock.value].thread == t
  }

  ghost predicate HandleSettled<T>(s: State<T>, h: nat) {
    var hd := HandleAt(s, h);
    Settled(hd.kind, hd.lock, Bound(hd))
  }

  ghost predicate InUse<T>(s: State<T>, h: nat) {
    exists t: nat :: Uses(s, t, h)
  }

  ghost predicate FreeAt<T>(s: State<T>, h: nat) {
    TargetOk(HandleAt(s, h)) && (InUse(s, h) || HandleSettled(s, h))
  }

  ghost predicate LocksOk<T>(s: State<T>, strict: bool) {
    && (forall t: nat :: GuardedAt(s, t, strict))
    && Exclusive(s)
    && (forall h: nat :: LockAt(s, h))
    && (forall h: nat :: FreeAt(s, h))
  }

  lemma DifferentHandles<T>(s: State<T>, t: nat, u: nat)
    requires Exclusive(s) && t != u
    ensures ThreadAt(s, t).handle.None? || ThreadAt(s, t).handle != ThreadAt(s, u).handle
  {
    if ThreadAt(s, t).handle.Some? && ThreadAt(s, t).handle == ThreadAt(s, u).handle {
      assert Uses(s, t, ThreadAt(s, t).handle.value) && Uses(s, u, ThreadAt(s, t).handle.value);
      assert false;
    }
  }

  lemma OwnLock<T>(s: State<T>, t: nat, strict: bool)
    requires LocksOk(s, strict)
    ensures var lock := Current(s, t).lock;
            lock.Some? ==> lock.value in s.mutexes && s.mutexes[lock.value] == Lock(t, ThreadAt(s, t).handle)
  {
    if ThreadAt(s, t).handle.Some? {
      var h := ThreadAt(s, t).handle.value;
      assert LockAt(s, h) && Uses(s, t, h);
    }
  }

  lemma Steps<T>(s: State<T>, t: nat, fails: bool, strict: bool)
    requires LocksOk(s, strict) && Enabled(s, Advance(t, fails))
    ensures var hd := Current(s, t);
            CanStep(ThreadAt(s, t).code.step, Locals(s, t), hd.kind, hd.lock, Bound(hd), strict)
  {
    assert GuardedAt(s, t, strict);
  }

  /** A step of one thread does not change the locks or the handle of the others. */
  lemma OthersKept<T>(s: State<T>, t: nat, fails: bool, u: nat, strict: bool)
    requires LocksOk(s, strict) && Enabled(s, Advance(t, fails)) && u != t
    ensures var s' := Next(s, Advance(t, fails));
            Locals(s', u) == Locals(s, u) && Current(s', u) == Current(s, u) && ThreadAt(s', u) == ThreadAt(s, u)
  {
    hide QueuesAfter, Begun, Guarded;
    DifferentHandles(s, t, u);
    OwnLock(s, t, strict);
    Steps(s, t, fails, strict);
    hide LocksOk;
  }

  /** The handle of the call thread `t` is in, in another state. */
  ghost function CurrentIn<T>(s: State<T>, t: nat, s': State<T>): Handle {
    match ThreadAt(s, t).handle
    case None => NO_HANDLE
    case Some(h) => HandleAt(s', h)
  }

  /** The thread itself keeps following the discipline. */
  lemma OwnKept<T>(s: State<T>, t: nat, fails: bool, strict: bool)
    requires LocksOk(s, strict) && Enabled(s, Advance(t, fails))
    ensures var s' := Next(s, Advance(t, fails));
            var hd' := CurrentIn(s, t, s');
            Guarded(ThreadAt(s, t).code.next, Locals(s', t), hd'.kind, hd'.lock, Bound(hd'), strict)
  {
    hide QueuesAfter, Begun;
    assert GuardedAt(s, t, strict);
    OwnLock(s, t, strict);
    Steps(s, t, fails, strict);
    hide LocksOk;
    OwnSummary(s, t, fails, strict);
  }

  lemma OwnSummary<T>(s: State<T>, t: nat, fails: bool, strict: bool)
    requires Enabled(s, Advance(t, fails)) && GuardedAt(s, t, strict)
    requires var lock := Current(s, t).lock;
             lock.Some? ==> lock.value in s.mutexes && s.mutexes[lock.value] == Lock(t, ThreadAt(s, t).handle)
    requires var hd := Current(s, t);
             CanStep(ThreadAt(s, t).code.step, Locals(s, t), hd.kind, hd.lock, Bound(hd), strict)
    ensures var s' := Next(s, Advance(t, fails));
            var hd, hd' := Current(s, t), CurrentIn(s, t, s');
            var m := ThreadAt(s, t).code.step;
            && Locals(s', t) == LocalsAfter(m, Locals(s, t))
            && BoundAfter(m, Bound(hd), Bound(hd'))
            && hd'.lock == LockAfter(m, hd.lock, Bound(hd)) && hd'.kind == hd.kind
  {
    hide QueuesAfter, Guarded;
  }

  lemma AdvanceKeepsLocks<T>(s: State<T>, t: nat, fails: bool, strict: bool)
    requires LocksOk(s, strict) && Enabled(s, Advance(t, fails))
    ensures LocksOk(Next(s, Advance(t, fails)), strict)
  {
    var s' := Next(s, Advance(t, fails));
    hide Next, Guarded;
    forall u: nat ensures GuardedAt(s', u, strict) {
      if u == t {
        AdvanceKeepsGuarded(s, t, fails, strict);
      } else {
        assert GuardedAt(s, u, strict);
        OthersKept(s, t, fails, u, strict);
        HandlesStay(s, t, fails);
      }
    }
    UsesAfter(s, t, fails);
    forall h: nat ensures LockAt(s', h) {
      AdvanceKeepsLock(s, t, fails, h, strict);
    }
    forall h: nat ensures FreeAt(s', h) {
      AdvanceKeepsFree(s, t, fails, h, strict);
    }
  }

  lemma HandlesStay<T>(s: State<T>, t: nat, fails: bool)
    requires Enabled(s, Advance(t, fails))
    ensures s.handles.Keys <= Next(s, Advance(t, fails)).handles.Keys
  {
    hide QueuesAfter, Begun;
  }

  /** A thread uses the handle it used before, or, at the end of its call, none. */
  lemma UsesAfter<T>(s: State<T>, t: nat, fails: bool)
    requires Enabled(s, Advance(t, fails))
    ensures var s' := Next(s, Advance(t, fails));
            && (forall u: nat, h: nat :: Uses(s', u, h) ==> Uses(s, u, h))
            && (forall u: nat, h: nat | u != t :: Uses(s, u, h) ==> Uses(s', u, h))
            && (forall h: nat :: Uses(s, t, h) && ThreadAt(s, t).code.next.Do? ==> Uses(s', t, h))
  {
    hide MutexesAfter, HandleAfter, QueuesAfter;
  }

  lemma AdvanceKeepsGuarded<T>(s: State<T>, t: nat, fails: bool, strict: bool)
    requires LocksOk(s, strict) && Enabled(s, Advance(t, fails))
    ensures GuardedAt(Next(s, Advance(t, fails)), t, strict)
  {
    hide QueuesAfter, Begun;
    OwnKept(s, t, fails, strict);
    HandlesStay(s, t, fails);
    assert GuardedAt(s, t, strict);
    hide LocksOk, MutexesAfter, HandleAfter, QueuesAfter;
  }

  lemma AdvanceKeepsLock<T>(s: State<T>, t: nat, fails: bool, h: nat, strict: bool)
    requires LocksOk(s, strict) && Enabled(s, Advance(t, fails))
    ensures LockAt(Next(s, Advance(t, fails)), h)
  {
    hide QueuesAfter, Begun, Guarded;
    assert LockAt(s, h);
    OwnLock(s, t, strict);
    Steps(s, t, fails, strict);
    assert Uses(s, t, h) ==> ThreadAt(s, t).handle == Some(h);
    UsesAfter(s, t, fails);
    assert Exclusive(s);
    hide LocksOk;
  }

  lemma AdvanceKeepsFree<T>(s: State<T>, t: nat, fails: bool, h: nat, strict: bool)
    requires LocksOk(s, strict) && Enabled(s, Advance(t, fails))
    ensures FreeAt(Next(s, Advance(t, fails)), h)
  {
    var s' := Next(s, Advance(t, fails));
    assert FreeAt(s, h);
    TargetKept(s, t, fails, h);
    UsesAfter(s, t, fails);
    if Uses(s, t, h) {
      OwnKept(s, t, fails, strict);
    } else {
      OtherHandle(s, t, fails, h);
      hide Next, Guarded, Settled;
      if InUse(s, h) {
        var u: nat :| Uses(s, u, h);
        assert Uses(s', u, h);
      }
    }
  }

  lemma OtherHandle<T>(s: State<T>, t: nat, fails: bool, h: nat)
    requires Enabled(s, Advance(t, fails)) && !Uses(s, t, h)
    ensures HandleAt(Next(s, Advance(t, fails)), h) == HandleAt(s, h)
  {
    hide QueuesAfter, Begun;
  }

  lemma TargetKept<T>(s: State<T>, t: nat, fails: bool, h: nat)
    requires Enabled(s, Advance(t, fails)) && TargetOk(HandleAt(s, h))
    ensures TargetOk(HandleAt(Next(s, Advance(t, fails)), h))
  {
    hide QueuesAfter;
  }

  lemma InvokeKeepsLocks<T>(s: State<T>, t: nat, c: Call<T>, strict: bool)
    requires LocksOk(s, strict) && Enabled(s, Invoke(t, c)) && (strict ==> Harmless(s, c))
    ensures LocksOk(Next(s, Invoke(t, c)), strict)
  {
    var s' := Next(s, Invoke(t, c));
    var created := s.(handles := Created(s, c));
    var hd := if HandleOf(c).Some? then HandleAt(created, c.handle) else NO_HANDLE;
    hide Guarded, CodeOf, HasStart;
    assert GuardedAt(s, t, strict) && Locals(s, t) == {} by {
      assert GuardedAt(s, t, strict);
      IdleHasNothing(s, t, strict);
    }
    if HandleOf(c).Some? {
      assert FreeAt(s, c.handle) && LockAt(s, c.handle);
    }
    assert Settled(hd.kind, hd.lock, Bound(hd)) && TargetOk(hd);
    CallGuarded(s, t, c, hd, strict);
    CodeNotEmpty(c, hd);
    forall u: nat ensures GuardedAt(s', u, strict) {
      assert GuardedAt(s, u, strict);
      assert Locals(s', u) == Locals(s, u);
    }
    InvokeUses(s, t, c);
    InvokeHandles(s, t, c);
    hide Next, Allowed;
    forall h: nat ensures LockAt(s', h) {
      assert LockAt(s, h);
    }
    forall h: nat ensures FreeAt(s', h) {
      assert FreeAt(s, h);
      if InUse(s, h) {
        var u: nat :| Uses(s, u, h);
        assert Uses(s', u, h) by { assert GuardedAt(s, u, strict); }
      }
    }
  }

  lemma InvokeUses<T>(s: State<T>, t: nat, c: Call<T>)
    requires Exclusive(s) && Enabled(s, Invoke(t, c)) && ThreadAt(s, t).handle.None?
    ensures var s' := Next(s, Invoke(t, c));
            && (forall u: nat, h: nat :: Uses(s', u, h) <==> Uses(s, u, h) || (u == t && HandleOf(c) == Some(h)))
            && Exclusive(s')
  {
  }

  lemma InvokeHandles<T>(s: State<T>, t: nat, c: Call<T>)
    requires Enabled(s, Invoke(t, c))
    ensures var s' := Next(s, Invoke(t, c));
            && s'.mutexes == s.mutexes
            && forall h: nat ::
                 if HandleAt(s', h) == HandleAt(s, h) then HandleOf(c) == Some(h) ==> OwnedBy(s, HandleAt(s', h), t)
                 else HandleOf(c) == Some(h) && HandleAt(s', h).lock.None? && HandleAt(s', h).inner.None?
                      && HandleAt(s', h).target.None?
  {
  }

  lemma CodeNotEmpty<T>(c: Call<T>, hd: Handle)
    ensures CodeOf(c, hd).Do?
    ensures HandleOf(c).None? ==> !HasStart(CodeOf(c, hd))
  {
    match c
    case ClearQueue(q) => NoStartUnderLock<T>(q, Clear(q));
    case TestEmpty(q) => NoStartUnderLock<T>(q, IsEmpty(q));
    case _ =>
  }

  lemma NoStartUnderLock<T>(q: nat, m: Micro<T>)
    requires !m.Start?
    ensures !HasStart(Do(Acquire(q), Do(m, Do(Release(q), Return))))
  {
    assert !HasStart<T>(Do(Release(q), Return));
  }

  lemma IdleHasNothing<T>(s: State<T>, t: nat, strict: bool)
    requires GuardedAt(s, t, strict) && ThreadAt(s, t).code.Return?
    ensures Locals(s, t) == {}
  {
  }
}
