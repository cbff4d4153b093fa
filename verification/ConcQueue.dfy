/** What the lock discipline gives: every run of the concurrent queue is a run of sequential queues. */
module ConcQueues {
  import opened Options
  import opened ConcModel
  import opened ConcDiscipline
  import F = Fifo
  import E = FifoEnds

  // ---- the queues in every state ------------------------------------------------------------------------

  /** The phase of the element a handle is bound to. */
  function PhaseOf(kind: Kind): F.Phase {
    if !kind.put then F.Taken else if kind.reentrant then F.Pending else F.Open
  }

  ghost predicate HandleHolds<T>(s: State<T>, h: nat) {
    var hd := HandleAt(s, h);
    hd.inner.Some? ==> F.Holds(QueueAt(s, hd.inner.value.queue).fifo.live, hd.inner.value.id, PhaseOf(hd.kind))
  }

  /** No two handles are bound to the same element. */
  ghost predicate Distinct<T>(s: State<T>) {
    forall h: nat, g: nat :: HandleAt(s, h).inner.Some? && HandleAt(s, h).inner == HandleAt(s, g).inner ==> h == g
  }

  /** The queue is the result of the operations in its log, one after the other. */
  ghost predicate Sequential<T>(k: Queue<T>) {
    k.defined && F.Reached(k.log, k.fifo)
  }

  ghost predicate OpenHandle<T>(s: State<T>, h: nat, q: nat, id: nat) {
    HandleAt(s, h).kind == Kind(true, false) && HandleAt(s, h).inner == Some(Inner(q, id))
  }

  /** An element being put by a non-reentrant transaction is bound to a handle. */
  ghost predicate OpensHeld<T>(s: State<T>, q: nat) {
    var live := QueueAt(s, q).fifo.live;
    forall i :: 0 <= i < |live| && live[i].phase.Open? ==> exists h: nat :: OpenHandle(s, h, q, live[i].item.id)
  }

  ghost predicate DataOk<T>(s: State<T>) {
    && (forall q: nat :: Sequential(QueueAt(s, q)))
    && (forall q: nat :: OpensHeld(s, q))
    && (forall h: nat :: HandleHolds(s, h))
    && Distinct(s)
  }

  /** A non-reentrant handle that is not empty implies that the mutex of its queue is locked: by the lock
      object in the handle, or by the call that is filling the handle. */
  lemma HandleOwnsMutex<T>(s: State<T>, h: nat)
    requires LocksOk(s, true)
    requires !HandleAt(s, h).kind.reentrant && HandleAt(s, h).inner.Some?
    ensures var q := HandleAt(s, h).inner.value.queue;
            && q in s.mutexes
            && (s.mutexes[q].holder == Some(h) || (s.mutexes[q].holder.None? && Uses(s, s.mutexes[q].thread, h)))
            && (forall t: nat :: Uses(s, t, h) ==> Owns(s, t, q))
  {
    assert FreeAt(s, h) && LockAt(s, h);
    if InUse(s, h) {
      var u: nat :| Uses(s, u, h);
      assert GuardedAt(s, u, true);
    }
  }

  /** A thread that can access a queue finds no open put in it, except the one its own call is about. */
  lemma NoOpenHere<T>(s: State<T>, t: nat, q: nat)
    requires LocksOk(s, true) && OpensHeld(s, q)
    requires q in Locals(s, t) || Current(s, t).lock == Some(q)
    requires Current(s, t).kind == Kind(true, false) ==> Bound(Current(s, t)) != Some(q)
    ensures F.NoOpen(QueueAt(s, q).fifo.live)
  {
    hide Guarded;
    var live := QueueAt(s, q).fifo.live;
    forall i | 0 <= i < |live| ensures !live[i].phase.Open? {
      if live[i].phase.Open? {
        var h: nat :| OpenHandle(s, h, q, live[i].item.id);
        HandleOwnsMutex(s, h);
        OwnLock(s, t, true);
        assert false;
      }
    }
  }

  // ---- what an access does to the sequential queue --------------------------------------------------------

  lemma AccessNothing<T>(s: State<T>, t: nat, q: nat)
    requires Owns(s, t, q)
    ensures Access(s, t, q, []) == QueueAt(s, q)
  {
    var none: seq<F.Op<T>> := [];
    assert QueueAt(s, q).log + none == QueueAt(s, q).log;
    assert F.CanRun(QueueAt(s, q).fifo, none);
  }

  lemma AccessOps<T>(s: State<T>, t: nat, q: nat, ops: seq<F.Op<T>>)
    requires Owns(s, t, q) && Sequential(QueueAt(s, q)) && F.CanRun(QueueAt(s, q).fifo, ops)
    ensures Sequential(Access(s, t, q, ops)) && Access(s, t, q, ops).fifo == F.Run(QueueAt(s, q).fifo, ops)
    ensures Access(s, t, q, ops).log == QueueAt(s, q).log + ops
  {
    F.RunConcat(F.Empty<T>(), QueueAt(s, q).log, ops);
  }

  lemma AccessOne<T>(s: State<T>, t: nat, q: nat, op: F.Op<T>)
    requires Owns(s, t, q) && Sequential(QueueAt(s, q)) && F.Enabled(QueueAt(s, q).fifo, op)
    ensures Sequential(Access(s, t, q, [op])) && Access(s, t, q, [op]).fifo == F.Apply(QueueAt(s, q).fifo, op)
    ensures Access(s, t, q, [op]).log == QueueAt(s, q).log + [op]
    ensures F.Inv(QueueAt(s, q).fifo) && F.Inv(F.Apply(QueueAt(s, q).fifo, op))
  {
    hide F.Enabled, F.Apply;
    var k := QueueAt(s, q);
    var none: seq<F.Op<T>> := [];
    assert none + [op] == [op];
    F.RunAppend(k.fifo, none, op);
    AccessOps(s, t, q, [op]);
    F.ReachedStep(k.log, k.fifo, op);
    F.ReachedInv(k.log, k.fifo);
  }

  /** The element a starting operation is bound to is new: nothing else was bound to it. */
  lemma StartBinds<T>(fifo: F.State<T>, q: nat, op: F.Op<T>, kind: Kind)
    requires F.Inv(fifo) && F.NoOpen(fifo.live) && Fits(op, kind)
    ensures F.Enabled(fifo, op)
    ensures var b := Begun(fifo, q, op);
            b.Some? ==> && b.value.queue == q
                        && F.Holds(F.Apply(fifo, op).live, b.value.id, PhaseOf(kind))
                        && forall phase :: F.Holds(fifo.live, b.value.id, phase) ==> phase.Ready?
  {
    hide F.Conserved, F.CommittedOk;
    if kind.put {
      F.StartPutFinds(fifo, op.value, op.reentrant);
    } else {
      var i := F.FirstReady(fifo.live);
      if i < |fifo.live| {
        F.FindUnique(fifo.live, fifo.nextId, i);
        F.SetPhaseFinds(fifo.live, fifo.nextId, i, F.Taken);
      }
    }
  }

  /** After a start, the only open put is the one just started. */
  lemma OpensAfterStart<T>(fifo: F.State<T>, op: F.Op<T>, i: nat)
    requires F.NoOpen(fifo.live) && (op.StartPut? || op.StartConsume?) && F.Enabled(fifo, op)
    requires i < |F.Apply(fifo, op).live| && F.Apply(fifo, op).live[i].phase.Open?
    ensures op.StartPut? && !op.reentrant && F.Apply(fifo, op).live[i].item.id == fifo.nextId
  {
  }

  /** Once the open put is finished there is no open put. */
  lemma NoOpenAfterEnd<T>(fifo: F.State<T>, kind: Kind, id: nat, commit: bool)
    requires F.Inv(fifo) && F.Holds(fifo.live, id, PhaseOf(kind))
    requires F.NoOpen(fifo.live) || kind == Kind(true, false)
    ensures var op := Ending<T>(kind, id, commit);
            F.Enabled(fifo, op) && F.NoOpen(F.Apply(fifo, op).live)
  {
    hide F.Conserved, F.CommittedOk;
    var i := F.Find(fifo.live, id);
    if kind == Kind(true, false) {
      assert i == |fifo.live| - 1;
    }
  }

  lemma HoldsAnywhere<T>(live: seq<F.Entry<T>>, nextId: nat, i: nat)
    requires F.Ordered(live, nextId) && i < |live|
    ensures F.Holds(live, live[i].item.id, live[i].phase)
  {
    F.FindUnique(live, nextId, i);
  }

  lemma {:induction false} UnreadyKeeps<T>(live: seq<F.Entry<T>>, i: nat)
    requires i < |live| && !live[i].phase.Ready?
    ensures live[i] in F.Unready(live)
  {
    if i > 0 {
      UnreadyKeeps(live[1..], i - 1);
    }
  }

  lemma {:induction false} UnreadyWithin<T>(live: seq<F.Entry<T>>)
    ensures forall e <- F.Unready(live) :: e in live
  {
    if live != [] {
      UnreadyWithin(live[1..]);
      forall e | e in F.Unready(live) ensures e in live {
        assert e == live[0] || e in live[1..];
      }
    }
  }

  lemma {:induction false} UnreadyOrdered<T>(live: seq<F.Entry<T>>, nextId: nat)
    requires F.Ordered(live, nextId)
    ensures F.Ordered(F.Unready(live), nextId)
  {
    if live != [] {
      UnreadyOrdered(live[1..], nextId);
      UnreadyWithin(live[1..]);
      PrependOrdered(live[0], live[1..], F.Unready(live[1..]), nextId);
    }
  }

  lemma PrependOrdered<T>(e: F.Entry<T>, rest: seq<F.Entry<T>>, part: seq<F.Entry<T>>, nextId: nat)
    requires F.Ordered([e] + rest, nextId) && F.Ordered(part, nextId)
    requires forall x <- part :: x in rest
    ensures F.Ordered([e] + part, nextId)
  {
    assert ([e] + rest)[0] == e;
    forall j | 0 <= j < |part| ensures e.item.id < part[j].item.id {
      assert part[j] in rest;
      var k :| 0 <= k < |rest| && rest[k] == part[j];
      assert ([e] + rest)[k + 1] == part[j];
    }
  }

  lemma UnreadyHolds<T>(live: seq<F.Entry<T>>, nextId: nat, id: nat, phase: F.Phase)
    requires F.Ordered(live, nextId) && F.Holds(live, id, phase) && !phase.Ready?
    ensures F.Holds(F.Unready(live), id, phase)
  {
    var live' := F.Unready(live);
    var i := F.Find(live, id);
    UnreadyKeeps(live, i);
    UnreadyOrdered(live, nextId);
    var j :| 0 <= j < |live'| && live'[j] == live[i];
    HoldsAnywhere(live', nextId, j);
  }

  lemma UnreadyNoOpen<T>(live: seq<F.Entry<T>>, nextId: nat)
    requires F.Ordered(live, nextId) && F.NoOpen(live)
    ensures F.NoOpen(F.Unready(live))
  {
    UnreadyWithin(live);
    hide F.Unready, F.Ordered;
    var live' := F.Unready(live);
    forall j | 0 <= j < |live'| ensures !live'[j].phase.Open? {
      assert live'[j] in live;
    }
  }

  lemma ClearAccess<T>(s: State<T>, t: nat, q: nat)
    requires Owns(s, t, q) && Sequential(QueueAt(s, q)) && F.NoOpen(QueueAt(s, q).fifo.live)
    ensures var k, k' := QueueAt(s, q), Access(s, t, q, Clearing(QueueAt(s, q).fifo));
            && Sequential(k')
            && F.Visible(k'.fifo) == [] && F.NoOpen(k'.fifo.live)
            && forall id, phase :: F.Holds(k.fifo.live, id, phase) && !phase.Ready? ==> F.Holds(k'.fifo.live, id, phase)
  {
    var fifo := QueueAt(s, q).fifo;
    F.ReachedInv(QueueAt(s, q).log, fifo);
    F.ClearIsRun(fifo);
    AccessOps(s, t, q, F.ClearOps(fifo));
    F.ClearResult(fifo);
    UnreadyNoOpen(fifo.live, fifo.nextId);
    hide Access, F.ClearOps, F.Clear, F.Visible, F.Unready, F.Conserved, F.CommittedOk, F.NoOpen, F.Holds, F.OpenIsLast;
    forall id, phase | F.Holds(fifo.live, id, phase) && !phase.Ready? ensures F.Holds(F.Unready(fifo.live), id, phase) {
      UnreadyHolds(fifo.live, fifo.nextId, id, phase);
    }
  }

  // ---- every step keeps it -------------------------------------------------------------------------------

  /** Nothing is bound, unbound or changed in any queue. */
  ghost predicate SameData<T>(s: State<T>, s': State<T>) {
    && (forall q: nat :: QueueAt(s', q) == QueueAt(s, q))
    && (forall h: nat :: HandleAt(s', h).inner == HandleAt(s, h).inner)
    && (forall h: nat :: HandleAt(s, h).inner.Some? ==> HandleAt(s', h).kind == HandleAt(s, h).kind)
  }

  lemma SameDataOk<T>(s: State<T>, s': State<T>)
    requires DataOk(s) && SameData(s, s')
    ensures DataOk(s')
  {
    hide F.NoOpen, F.Holds, Sequential;
    forall q: nat ensures Sequential(QueueAt(s', q)) && OpensHeld(s', q) {
      assert Sequential(QueueAt(s, q)) && OpensHeld(s, q);
      SameOpens(s, s', q);
    }
    forall h: nat ensures HandleHolds(s', h) {
      assert HandleHolds(s, h);
    }
  }

  lemma SameOpens<T>(s: State<T>, s': State<T>, q: nat)
    requires OpensHeld(s, q) && QueueAt(s', q).fifo.live == QueueAt(s, q).fifo.live
    requires forall h: nat, id: nat :: OpenHandle(s, h, q, id) ==> OpenHandle(s', h, q, id)
    ensures OpensHeld(s', q)
  {
    var live := QueueAt(s, q).fifo.live;
    forall i | 0 <= i < |live| && live[i].phase.Open? ensures exists h: nat :: OpenHandle(s', h, q, live[i].item.id) {
      var h: nat :| OpenHandle(s, h, q, live[i].item.id);
      assert OpenHandle(s', h, q, live[i].item.id);
    }
  }

  /** The step does not change what is in the queues or in the sequential handles. */
  predicate Passive<T>(m: Micro<T>, fails: bool) {
    !m.Finish? && !m.Clear? && (m.Start? ==> fails && m.op.StartPut?)
  }

  lemma OwnsReached<T>(s: State<T>, t: nat, q: nat)
    requires LocksOk(s, true) && Reaches(Locals(s, t), Current(s, t).lock, Some(q))
    ensures Owns(s, t, q)
  {
    OwnLock(s, t, true);
  }

  lemma PassiveSame<T>(s: State<T>, t: nat, fails: bool)
    requires LocksOk(s, true) && Enabled(s, Advance(t, fails)) && Passive(ThreadAt(s, t).code.step, fails)
    ensures SameData(s, Next(s, Advance(t, fails)))
  {
    hide Access, Guarded, MutexesAfter;
    var m := ThreadAt(s, t).code.step;
    Steps(s, t, fails, true);
    var q := match m
      case Start(p, _) => p
      case IsEmpty(p) => p
      case RawAllocate => Current(s, t).inner.value.queue
      case _ => 0;
    if m.Start? || m.IsEmpty? || m.RawAllocate? {
      OwnsReached(s, t, q);
      AccessNothing(s, t, q);
    }
    hide LocksOk;
  }

  /** Only queue `q` and the handle of the call of `t` have changed. */
  ghost predicate Elsewhere<T>(s: State<T>, t: nat, s': State<T>, q: nat) {
    && (forall p: nat | p != q :: QueueAt(s', p) == QueueAt(s, p))
    && (forall h: nat | !Uses(s, t, h) :: HandleAt(s', h) == HandleAt(s, h))
    && (Bound(Current(s, t)).None? || Bound(Current(s, t)) == Some(q))
  }

  lemma ElsewhereOk<T>(s: State<T>, t: nat, s': State<T>, q: nat)
    requires DataOk(s) && Elsewhere(s, t, s', q)
    requires Sequential(QueueAt(s', q)) && OpensHeld(s', q)
    requires forall h: nat :: HandleHolds(s', h)
    requires Distinct(s')
    ensures DataOk(s')
  {
    hide Sequential, HandleHolds, Distinct;
    forall p: nat ensures Sequential(QueueAt(s', p)) && OpensHeld(s', p) {
      assert Sequential(QueueAt(s, p)) && OpensHeld(s, p);
      if p != q {
        SameOpens(s, s', p);
      }
    }
  }

  lemma OtherHolds<T>(s: State<T>, t: nat, s': State<T>, q: nat, op: F.Op<T>, h: nat)
    requires DataOk(s) && Elsewhere(s, t, s', q) && !Uses(s, t, h)
    requires F.Enabled(QueueAt(s, q).fifo, op) && QueueAt(s', q).fifo == F.Apply(QueueAt(s, q).fifo, op)
    requires forall id: nat :: F.Concerns(op, id) ==> Current(s, t).inner == Some(Inner(q, id))
    ensures HandleHolds(s', h)
  {
    hide F.Enabled, F.Apply, F.Holds;
    assert HandleHolds(s, h);
    var inner := HandleAt(s, h).inner;
    if inner.Some? && inner.value.queue == q {
      var fifo := QueueAt(s, q).fifo;
      assert Sequential(QueueAt(s, q));
      F.ReachedInv(QueueAt(s, q).log, fifo);
      assert !F.Concerns(op, inner.value.id);
      hide DataOk, F.Reached;
      F.HandleKept(fifo, op, inner.value.id, PhaseOf(HandleAt(s, h).kind));
    }
  }

  lemma StartKeepsData<T>(s: State<T>, t: nat)
    requires LocksOk(s, true) && DataOk(s) && Enabled(s, Advance(t, false)) && ThreadAt(s, t).code.step.Start?
    ensures DataOk(Next(s, Advance(t, false)))
  {
    StartEffect(s, t);
    var s' := Next(s, Advance(t, false));
    var q, op := ThreadAt(s, t).code.step.queue, ThreadAt(s, t).code.step.op;
    var fifo := QueueAt(s, q).fifo;
    hide Next, Enabled, LocksOk, F.Enabled, F.Apply, F.Holds, F.Inv, F.NoOpen;
    forall h: nat ensures HandleHolds(s', h) {
      if !Uses(s, t, h) {
        OtherHolds(s, t, s', q, op, h);
      }
    }
    forall h: nat, g: nat | HandleAt(s', h).inner.Some? && HandleAt(s', h).inner == HandleAt(s', g).inner
      ensures h == g
    {
      assert HandleHolds(s, h) && HandleHolds(s, g);
    }
    ElsewhereOk(s, t, s', q);
  }

  /** What starting an operation does: the element is bound to the handle of the call alone. */
  lemma StartEffect<T>(s: State<T>, t: nat)
    requires LocksOk(s, true) && DataOk(s) && Enabled(s, Advance(t, false)) && ThreadAt(s, t).code.step.Start?
    ensures var s' := Next(s, Advance(t, false));
            var q, op := ThreadAt(s, t).code.step.queue, ThreadAt(s, t).code.step.op;
            var fifo := QueueAt(s, q).fifo;
            && Elsewhere(s, t, s', q) && OpensHeld(s', q) && Sequential(QueueAt(s', q))
            && (op.StartPut? || op.StartConsume?)
            && F.Enabled(fifo, op) && QueueAt(s', q).fifo == F.Apply(fifo, op)
            && forall h: nat | Uses(s, t, h) :: Binds(s, s', q, h)
  {
    var s' := Next(s, Advance(t, false));
    hide Access, Guarded, MutexesAfter, HandleAfter, F.Enabled, F.Apply, F.Holds, F.NoOpen, F.Reached, Begun,
         OpensHeld, Binds;
    StartReady(s, t);
    StartShape(s, t);
    StartOpens(s, t);
    hide LocksOk;
    forall h: nat | Uses(s, t, h) ensures Binds(s, s', ThreadAt(s, t).code.step.queue, h) {
      StartBindsHandle(s, t, h);
    }
  }

  lemma StartReady<T>(s: State<T>, t: nat)
    requires LocksOk(s, true) && DataOk(s) && Enabled(s, Advance(t, false)) && ThreadAt(s, t).code.step.Start?
    ensures var q, op := ThreadAt(s, t).code.step.queue, ThreadAt(s, t).code.step.op;
            var fifo := QueueAt(s, q).fifo;
            var b := Begun(fifo, q, op);
            && Bound(Current(s, t)).None?
            && (op.StartPut? || op.StartConsume?)
            && F.NoOpen(fifo.live) && Fits(op, Current(s, t).kind)
            && F.Enabled(fifo, op) && Access(s, t, q, [op]).fifo == F.Apply(fifo, op)
            && Sequential(Access(s, t, q, [op])) && Access(s, t, q, [op]).log == QueueAt(s, q).log + [op]
            && (b.Some? ==>
                  && b.value.queue == q
                  && F.Holds(F.Apply(fifo, op).live, b.value.id, PhaseOf(Current(s, t).kind))
                  && forall phase :: F.Holds(fifo.live, b.value.id, phase) ==> phase.Ready?)
  {
    var q, op := ThreadAt(s, t).code.step.queue, ThreadAt(s, t).code.step.op;
    var fifo := QueueAt(s, q).fifo;
    hide Access, Guarded, F.Enabled, F.Apply, F.Holds, F.Inv, F.NoOpen, F.Reached, Begun;
    Steps(s, t, false, true);
    OwnsReached(s, t, q);
    assert OpensHeld(s, q) && Sequential(QueueAt(s, q));
    hide OpensHeld;
    NoOpenHere(s, t, q);
    hide LocksOk;
    F.ReachedInv(QueueAt(s, q).log, fifo);
    StartBinds(fifo, q, op, Current(s, t).kind);
    AccessOne(s, t, q, op);
  }

  lemma StartShape<T>(s: State<T>, t: nat)
    requires Enabled(s, Advance(t, false)) && ThreadAt(s, t).code.step.Start? && Bound(Current(s, t)).None?
    ensures var s' := Next(s, Advance(t, false));
            var q, op := ThreadAt(s, t).code.step.queue, ThreadAt(s, t).code.step.op;
            Elsewhere(s, t, s', q) && QueueAt(s', q) == Access(s, t, q, [op])
  {
    hide Access, MutexesAfter, HandleAfter;
  }

  /** The handle is empty, or bound to an element of queue `q` that no handle was bound to before. */
  ghost predicate Binds<T>(s: State<T>, s': State<T>, q: nat, h: nat) {
    var inner := HandleAt(s', h).inner;
    && HandleHolds(s', h)
    && (inner.Some? ==>
          && inner.value.queue == q
          && forall phase :: F.Holds(QueueAt(s, q).fifo.live, inner.value.id, phase) ==> phase.Ready?)
  }

  lemma StartBindsHandle<T>(s: State<T>, t: nat, h: nat)
    requires Enabled(s, Advance(t, false)) && ThreadAt(s, t).code.step.Start? && Uses(s, t, h)
    requires var q, op := ThreadAt(s, t).code.step.queue, ThreadAt(s, t).code.step.op;
             var fifo := QueueAt(s, q).fifo;
             var b := Begun(fifo, q, op);
             && F.Enabled(fifo, op) && Access(s, t, q, [op]).fifo == F.Apply(fifo, op)
             && (b.Some? ==>
                   && b.value.queue == q
                   && F.Holds(F.Apply(fifo, op).live, b.value.id, PhaseOf(Current(s, t).kind))
                   && forall phase :: F.Holds(fifo.live, b.value.id, phase) ==> phase.Ready?)
    ensures Binds(s, Next(s, Advance(t, false)), ThreadAt(s, t).code.step.queue, h)
  {
    hide F.Enabled, F.Apply, F.Holds, Begun, Access, MutexesAfter;
  }

  lemma StartOpens<T>(s: State<T>, t: nat)
    requires Enabled(s, Advance(t, false)) && ThreadAt(s, t).code.step.Start?
    requires var q, op := ThreadAt(s, t).code.step.queue, ThreadAt(s, t).code.step.op;
             var fifo := QueueAt(s, q).fifo;
             && F.NoOpen(fifo.live) && Fits(op, Current(s, t).kind)
             && F.Enabled(fifo, op) && Access(s, t, q, [op]).fifo == F.Apply(fifo, op)
    ensures OpensHeld(Next(s, Advance(t, false)), ThreadAt(s, t).code.step.queue)
  {
    hide F.Enabled, F.Apply, Access, MutexesAfter;
    var s' := Next(s, Advance(t, false));
    var q, op := ThreadAt(s, t).code.step.queue, ThreadAt(s, t).code.step.op;
    var live' := QueueAt(s', q).fifo.live;
    forall i | 0 <= i < |live'| && live'[i].phase.Open?
      ensures exists h: nat :: OpenHandle(s', h, q, live'[i].item.id)
    {
      OpensAfterStart(QueueAt(s, q).fifo, op, i);
      assert OpenHandle(s', ThreadAt(s, t).handle.value, q, live'[i].item.id);
    }
  }

  /** What finishing an operation does: the element is no longer bound, and no put is open any more. */
  lemma FinishEffect<T>(s: State<T>, t: nat, fails: bool)
    requires LocksOk(s, true) && DataOk(s) && Enabled(s, Advance(t, fails)) && ThreadAt(s, t).code.step.Finish?
    ensures Current(s, t).inner.Some?
    ensures var q := Current(s, t).inner.value.queue;
            var op := Ending(Current(s, t).kind, Current(s, t).inner.value.id, ThreadAt(s, t).code.step.commit);
            var fifo := QueueAt(s, q).fifo;
            && F.Enabled(fifo, op) && F.NoOpen(F.Apply(fifo, op).live)
            && Access(s, t, q, [op]).fifo == F.Apply(fifo, op)
            && Sequential(Access(s, t, q, [op])) && Access(s, t, q, [op]).log == QueueAt(s, q).log + [op]
  {
    hide Access, Guarded, F.Enabled, F.Apply, F.Holds, F.Inv, F.NoOpen, F.Reached;
    Steps(s, t, fails, true);
    var hd := Current(s, t);
    var q, id := hd.inner.value.queue, hd.inner.value.id;
    var fifo := QueueAt(s, q).fifo;
    OwnsReached(s, t, q);
    assert OpensHeld(s, q) && Sequential(QueueAt(s, q)) && HandleHolds(s, ThreadAt(s, t).handle.value);
    hide OpensHeld, DataOk;
    if hd.kind != Kind(true, false) {
      NoOpenHere(s, t, q);
    }
    hide LocksOk;
    F.ReachedInv(QueueAt(s, q).log, fifo);
    NoOpenAfterEnd(fifo, hd.kind, id, ThreadAt(s, t).code.step.commit);
    AccessOne(s, t, q, Ending(hd.kind, id, ThreadAt(s, t).code.step.commit));
  }

  lemma FinishShape<T>(s: State<T>, t: nat, fails: bool)
    requires Enabled(s, Advance(t, fails)) && ThreadAt(s, t).code.step.Finish? && Current(s, t).inner.Some?
    ensures var s' := Next(s, Advance(t, fails));
            var q := Current(s, t).inner.value.queue;
            var op := Ending(Current(s, t).kind, Current(s, t).inner.value.id, ThreadAt(s, t).code.step.commit);
            && Elsewhere(s, t, s', q) && QueueAt(s', q) == Access(s, t, q, [op])
            && forall h: nat | Uses(s, t, h) :: HandleAt(s', h).inner.None?
  {
    hide Access, MutexesAfter;
  }

  lemma FinishKeepsData<T>(s: State<T>, t: nat, fails: bool)
    requires LocksOk(s, true) && DataOk(s) && Enabled(s, Advance(t, fails)) && ThreadAt(s, t).code.step.Finish?
    ensures DataOk(Next(s, Advance(t, fails)))
  {
    FinishEffect(s, t, fails);
    FinishShape(s, t, fails);
    var s' := Next(s, Advance(t, fails));
    var q := Current(s, t).inner.value.queue;
    var op := Ending(Current(s, t).kind, Current(s, t).inner.value.id, ThreadAt(s, t).code.step.commit);
    hide Next, Enabled, LocksOk, Access, Sequential, F.Enabled, F.Apply, F.Holds, F.Inv;
    forall h: nat ensures HandleHolds(s', h) {
      if !Uses(s, t, h) {
        OtherHolds(s, t, s', q, op, h);
      }
    }
    ElsewhereOk(s, t, s', q);
  }

  lemma ClearKeepsData<T>(s: State<T>, t: nat, fails: bool)
    requires LocksOk(s, true) && DataOk(s) && Enabled(s, Advance(t, fails)) && ThreadAt(s, t).code.step.Clear?
    ensures DataOk(Next(s, Advance(t, fails)))
  {
    hide Access, Guarded, Clearing, MutexesAfter, F.Holds, F.Reached;
    var s' := Next(s, Advance(t, fails));
    var q := ThreadAt(s, t).code.step.queue;
    Steps(s, t, fails, true);
    OwnsReached(s, t, q);
    assert OpensHeld(s, q) && Sequential(QueueAt(s, q));
    NoOpenHere(s, t, q);
    hide LocksOk;
    ClearAccess(s, t, q);
    forall h: nat ensures HandleAt(s', h) == HandleAt(s, h) && HandleHolds(s', h) {
      assert HandleHolds(s, h);
    }
    ElsewhereOk(s, t, s', q);
  }

  lemma AdvanceKeepsData<T>(s: State<T>, t: nat, fails: bool)
    requires LocksOk(s, true) && DataOk(s) && Enabled(s, Advance(t, fails))
    ensures DataOk(Next(s, Advance(t, fails)))
  {
    hide Next, LocksOk, DataOk;
    var m := ThreadAt(s, t).code.step;
    if Passive(m, fails) {
      PassiveSame(s, t, fails);
      SameDataOk(s, Next(s, Advance(t, fails)));
    } else if m.Start? {
      SuccessIsTheSame(s, t, fails);
      StartKeepsData(s, t);
    } else if m.Finish? {
      FinishKeepsData(s, t, fails);
    } else {
      ClearKeepsData(s, t, fails);
    }
  }

  lemma SuccessIsTheSame<T>(s: State<T>, t: nat, fails: bool)
    requires Enabled(s, Advance(t, fails)) && !Passive(ThreadAt(s, t).code.step, fails)
    ensures Next(s, Advance(t, fails)) == Next(s, Advance(t, false))
  {
  }

  lemma InvokeKeepsData<T>(s: State<T>, t: nat, c: Call<T>)
    requires DataOk(s) && Enabled(s, Invoke(t, c))
    ensures DataOk(Next(s, Invoke(t, c)))
  {
    hide DataOk, CodeOf;
    SameDataOk(s, Next(s, Invoke(t, c)));
  }

  // ---- every unfinished element has its handle -------------------------------------------------------------

  ghost predicate HeldBy<T>(s: State<T>, h: nat, q: nat, id: nat) {
    HandleAt(s, h).inner == Some(Inner(q, id))
  }

  ghost predicate IsHeld<T>(s: State<T>, q: nat, id: nat) {
    exists h: nat :: HeldBy(s, h, q, id)
  }

  /** An element that is being put or consumed is bound to a handle: nothing is taken without somebody who can
      end it. */
  ghost predicate AllHeld<T>(s: State<T>, q: nat) {
    var live := QueueAt(s, q).fifo.live;
    forall i :: 0 <= i < |live| && !live[i].phase.Ready? ==> IsHeld(s, q, live[i].item.id)
  }

  ghost predicate HeldOk<T>(s: State<T>) {
    forall q: nat :: AllHeld(s, q)
  }

  /** Where nothing has changed, the same handles hold the same elements. */
  lemma HeldElsewhere<T>(s: State<T>, t: nat, s': State<T>, q: nat, p: nat)
    requires Elsewhere(s, t, s', q) && p != q && AllHeld(s, p)
    ensures AllHeld(s', p)
  {
    var live := QueueAt(s, p).fifo.live;
    forall i | 0 <= i < |live| && !live[i].phase.Ready? ensures IsHeld(s', p, live[i].item.id) {
      assert IsHeld(s, p, live[i].item.id);
      var h: nat :| HeldBy(s, h, p, live[i].item.id);
      assert HeldBy(s', h, p, live[i].item.id);
    }
  }

  lemma SameHeld<T>(s: State<T>, s': State<T>)
    requires SameData(s, s') && HeldOk(s)
    ensures HeldOk(s')
  {
    forall q: nat ensures AllHeld(s', q) {
      assert AllHeld(s, q);
      var live := QueueAt(s, q).fifo.live;
      forall i | 0 <= i < |live| && !live[i].phase.Ready? ensures IsHeld(s', q, live[i].item.id) {
        assert IsHeld(s, q, live[i].item.id);
        var h: nat :| HeldBy(s, h, q, live[i].item.id);
        assert HeldBy(s', h, q, live[i].item.id);
      }
    }
  }

  /** After an operation on a queue: what it has started is held, and what it did not concern still is. */
  lemma HeldAfterOp<T>(s: State<T>, t: nat, s': State<T>, q: nat, op: F.Op<T>)
    requires HeldOk(s) && Elsewhere(s, t, s', q) && F.Inv(QueueAt(s, q).fifo)
    requires F.Enabled(QueueAt(s, q).fifo, op) && QueueAt(s', q).fifo == F.Apply(QueueAt(s, q).fifo, op)
    requires forall id: nat :: Current(s, t).inner == Some(Inner(q, id)) ==> F.Concerns(op, id)
    requires forall id: nat :: E.Begins(QueueAt(s, q).fifo, op, id) ==> IsHeld(s', q, id)
    ensures HeldOk(s')
  {
    hide E.Begins, F.Enabled, F.Apply, F.Inv;
    forall p: nat ensures AllHeld(s', p) {
      assert AllHeld(s, p) && AllHeld(s, q);
      if p != q {
        HeldElsewhere(s, t, s', q, p);
      } else {
        var live, live' := QueueAt(s, q).fifo.live, QueueAt(s', q).fifo.live;
        forall k | 0 <= k < |live'| && !live'[k].phase.Ready? ensures IsHeld(s', q, live'[k].item.id) {
          var id := live'[k].item.id;
          E.UnreadyComesFrom(QueueAt(s, q).fifo, op, k);
          if !E.Begins(QueueAt(s, q).fifo, op, id) {
            var i :| 0 <= i < |live| && live[i] == live'[k];
            assert IsHeld(s, q, id);
            var h: nat :| HeldBy(s, h, q, id);
            assert HeldBy(s', h, q, id);
          }
        }
      }
    }
  }

  lemma StartKeepsHeld<T>(s: State<T>, t: nat)
    requires LocksOk(s, true) && DataOk(s) && HeldOk(s) && Enabled(s, Advance(t, false))
    requires ThreadAt(s, t).code.step.Start?
    ensures HeldOk(Next(s, Advance(t, false)))
  {
    var s' := Next(s, Advance(t, false));
    var q, op := ThreadAt(s, t).code.step.queue, ThreadAt(s, t).code.step.op;
    StartReady(s, t);
    StartEffect(s, t);
    assert Sequential(QueueAt(s, q)) && GuardedAt(s, t, true);
    F.ReachedInv(QueueAt(s, q).log, QueueAt(s, q).fifo);
    forall id: nat | E.Begins(QueueAt(s, q).fifo, op, id) ensures IsHeld(s', q, id) {
      BegunHeld(s, t, id);
    }
    hide Next, Enabled, LocksOk, DataOk, F.Enabled, F.Apply, F.Inv, E.Begins, HeldOk;
    HeldAfterOp(s, t, s', q, op);
  }

  lemma BegunHeld<T>(s: State<T>, t: nat, id: nat)
    requires Enabled(s, Advance(t, false)) && ThreadAt(s, t).code.step.Start? && ThreadAt(s, t).handle.Some?
    requires E.Begins(QueueAt(s, ThreadAt(s, t).code.step.queue).fifo, ThreadAt(s, t).code.step.op, id)
    ensures IsHeld(Next(s, Advance(t, false)), ThreadAt(s, t).code.step.queue, id)
  {
    hide Access, MutexesAfter, QueuesAfter;
    var q, op := ThreadAt(s, t).code.step.queue, ThreadAt(s, t).code.step.op;
    var fifo := QueueAt(s, q).fifo;
    if op.StartConsume? {
      var i: nat :| E.TakenBy(fifo.live, i, id);
      assert i == F.FirstReady(fifo.live);
    }
    assert Begun(fifo, q, op) == Some(Inner(q, id));
    assert HeldBy(Next(s, Advance(t, false)), ThreadAt(s, t).handle.value, q, id);
  }

  lemma FinishKeepsHeld<T>(s: State<T>, t: nat, fails: bool)
    requires LocksOk(s, true) && DataOk(s) && HeldOk(s) && Enabled(s, Advance(t, fails))
    requires ThreadAt(s, t).code.step.Finish?
    ensures HeldOk(Next(s, Advance(t, fails)))
  {
    FinishEffect(s, t, fails);
    FinishShape(s, t, fails);
    var s' := Next(s, Advance(t, fails));
    var q := Current(s, t).inner.value.queue;
    var op := Ending(Current(s, t).kind, Current(s, t).inner.value.id, ThreadAt(s, t).code.step.commit);
    assert Sequential(QueueAt(s, q));
    F.ReachedInv(QueueAt(s, q).log, QueueAt(s, q).fifo);
    hide Next, Enabled, LocksOk, DataOk, Access, Sequential, F.Enabled, F.Apply, F.Inv, HeldOk;
    HeldAfterOp(s, t, s', q, op);
  }

  /** Everything visible has been consumed, in order, and exactly the other elements are left, in order. */
  ghost predicate Cleared<T>(fifo: F.State<T>, fifo': F.State<T>) {
    && F.Visible(fifo') == [] && fifo'.consumed == fifo.consumed + F.Visible(fifo)
    && fifo'.committed == fifo.committed && F.Ordered(fifo'.live, fifo'.nextId)
    && (forall e <- fifo'.live :: e in fifo.live && !e.phase.Ready?)
    && (forall e <- fifo.live :: e.phase.Ready? || e in fifo'.live)
  }

  lemma ClearStep<T>(s: State<T>, t: nat, fails: bool)
    requires LocksOk(s, true) && DataOk(s) && Enabled(s, Advance(t, fails)) && ThreadAt(s, t).code.step.Clear?
    ensures var q := ThreadAt(s, t).code.step.queue;
            var s' := Next(s, Advance(t, fails));
            && Cleared(QueueAt(s, q).fifo, QueueAt(s', q).fifo)
            && (forall p: nat | p != q :: QueueAt(s', p) == QueueAt(s, p))
            && (forall h: nat :: HandleAt(s', h) == HandleAt(s, h))
  {
    var q := ThreadAt(s, t).code.step.queue;
    hide Access, Guarded, Clearing, F.Reached;
    Steps(s, t, fails, true);
    OwnsReached(s, t, q);
    assert OpensHeld(s, q) && Sequential(QueueAt(s, q));
    NoOpenHere(s, t, q);
    hide LocksOk, DataOk;
    ClearedByAccess(s, t, q);
    ClearShape(s, t, fails);
    hide Next, Cleared;
  }

  lemma ClearedByAccess<T>(s: State<T>, t: nat, q: nat)
    requires Owns(s, t, q) && Sequential(QueueAt(s, q)) && F.NoOpen(QueueAt(s, q).fifo.live)
    ensures Cleared(QueueAt(s, q).fifo, Access(s, t, q, Clearing(QueueAt(s, q).fifo)).fifo)
  {
    hide Cleared, F.Reached, F.Visible, F.Clear, F.ClearOps, F.Conserved, F.CommittedOk, F.OpenIsLast,
         F.NoOpen, F.Ordered;
    var fifo := QueueAt(s, q).fifo;
    F.ReachedInv(QueueAt(s, q).log, fifo);
    F.ClearIsRun(fifo);
    AccessOps(s, t, q, F.ClearOps(fifo));
    ClearCleared(fifo);
  }

  lemma ClearCleared<T>(fifo: F.State<T>)
    requires F.Inv(fifo) && F.NoOpen(fifo.live)
    ensures Cleared(fifo, F.Clear(fifo))
  {
    E.ClearLeaves(fifo);
    hide F.NoOpen, F.Visible, F.Clear, F.Conserved, F.CommittedOk, F.OpenIsLast;
    assert F.Ordered(F.Clear(fifo).live, F.Clear(fifo).nextId);
    hide F.Ordered;
  }

  lemma ClearShape<T>(s: State<T>, t: nat, fails: bool)
    requires Enabled(s, Advance(t, fails)) && ThreadAt(s, t).code.step.Clear?
    ensures var q := ThreadAt(s, t).code.step.queue;
            var s' := Next(s, Advance(t, fails));
            && QueueAt(s', q) == Access(s, t, q, Clearing(QueueAt(s, q).fifo))
            && (forall p: nat | p != q :: QueueAt(s', p) == QueueAt(s, p))
            && (forall h: nat :: HandleAt(s', h) == HandleAt(s, h))
  {
    hide Access, Clearing, MutexesAfter;
  }

  lemma ClearKeepsHeld<T>(s: State<T>, t: nat, fails: bool)
    requires LocksOk(s, true) && DataOk(s) && HeldOk(s) && Enabled(s, Advance(t, fails))
    requires ThreadAt(s, t).code.step.Clear?
    ensures HeldOk(Next(s, Advance(t, fails)))
  {
    var s' := Next(s, Advance(t, fails));
    var q := ThreadAt(s, t).code.step.queue;
    ClearStep(s, t, fails);
    hide Next, LocksOk, DataOk;
    forall p: nat ensures AllHeld(s', p) {
      assert AllHeld(s, p);
      var live' := QueueAt(s', p).fifo.live;
      forall k | 0 <= k < |live'| && !live'[k].phase.Ready? ensures IsHeld(s', p, live'[k].item.id) {
        assert live'[k] in QueueAt(s, p).fifo.live;
        assert IsHeld(s, p, live'[k].item.id);
        var h: nat :| HeldBy(s, h, p, live'[k].item.id);
        assert HeldBy(s', h, p, live'[k].item.id);
      }
    }
  }

  lemma AdvanceKeepsHeld<T>(s: State<T>, t: nat, fails: bool)
    requires LocksOk(s, true) && DataOk(s) && HeldOk(s) && Enabled(s, Advance(t, fails))
    ensures HeldOk(Next(s, Advance(t, fails)))
  {
    hide Next, LocksOk, DataOk, HeldOk;
    var m := ThreadAt(s, t).code.step;
    if Passive(m, fails) {
      PassiveSame(s, t, fails);
      SameHeld(s, Next(s, Advance(t, fails)));
    } else if m.Start? {
      SuccessIsTheSame(s, t, fails);
      StartKeepsHeld(s, t);
    } else if m.Finish? {
      FinishKeepsHeld(s, t, fails);
    } else {
      ClearKeepsHeld(s, t, fails);
    }
  }

  lemma InvokeKeepsHeld<T>(s: State<T>, t: nat, c: Call<T>)
    requires HeldOk(s) && Enabled(s, Invoke(t, c))
    ensures HeldOk(Next(s, Invoke(t, c)))
  {
    hide HeldOk, CodeOf;
    SameHeld(s, Next(s, Invoke(t, c)));
  }

  // ---- every run -----------------------------------------------------------------------------------------

  ghost predicate Safe<T>(s: State<T>) {
    LocksOk(s, true) && DataOk(s) && HeldOk(s)
  }

  lemma EventKeepsSafe<T>(s: State<T>, e: Event<T>)
    requires Safe(s) && Enabled(s, e) && (e.Invoke? ==> Harmless(s, e.call))
    ensures Safe(Next(s, e))
  {
    hide Next, Enabled, LocksOk, DataOk, HeldOk;
    match e
    case Invoke(t, c) =>
      InvokeKeepsLocks(s, t, c, true);
      InvokeKeepsData(s, t, c);
      InvokeKeepsHeld(s, t, c);
    case Advance(t, fails) =>
      AdvanceKeepsLocks(s, t, fails, true);
      AdvanceKeepsData(s, t, fails);
      AdvanceKeepsHeld(s, t, fails);
  }

  lemma InitialSafe<T>()
    ensures Safe(Initial<T>())
  {
    var s := Initial<T>();
    forall t: nat ensures GuardedAt(s, t, true) {
      assert Locals(s, t) == {};
    }
  }

  lemma {:induction false} RunSafe<T>(s: State<T>, run: seq<Event<T>>)
    requires Safe(s) && Possible(s, run) && AllHarmless(s, run)
    ensures Safe(After(s, run))
    decreases |run|
  {
    hide Next, Enabled, Safe;
    if run != [] {
      EventKeepsSafe(s, run[0]);
      RunSafe(Next(s, run[0]), run[1..]);
    }
  }

  /** Whatever the threads do, each queue is in the state that the operations of its log, executed one
      after the other from the empty queue, give; the sequential contract has never been broken. */
  lemma Linearizable<T>(run: seq<Event<T>>, q: nat)
    requires Possible(Initial<T>(), run) && AllHarmless(Initial<T>(), run)
    ensures var k := QueueAt(After(Initial<T>(), run), q);
            && k.defined
            && F.CanRun(F.Empty<T>(), k.log) && k.fifo == F.Run(F.Empty<T>(), k.log)
            && F.Inv(k.fifo)
  {
    InitialSafe<T>();
    RunSafe(Initial<T>(), run);
    var k := QueueAt(After(Initial<T>(), run), q);
    assert Sequential(k);
    F.ReachedInv(k.log, k.fifo);
  }

  lemma AccessGrows<T>(s: State<T>, t: nat, q: nat)
    ensures forall ops :: QueueAt(s, q).log <= Access(s, t, q, ops).log
  {
  }

  /** A step appends to the log of a queue only while its thread owns the mutex: the log is in the order
      of the critical sections. */
  lemma LogInLockOrder<T>(s: State<T>, e: Event<T>, q: nat)
    requires Safe(s) && Enabled(s, e)
    ensures var k, k' := QueueAt(s, q), QueueAt(Next(s, e), q);
            && k.log <= k'.log
            && (k' != k ==> e.Advance? && Accesses(s, e.thread, q) && Owns(s, e.thread, q))
  {
    if e.Advance? {
      hide Guarded, Clearing, Begun, MutexesAfter, HandleAfter, Access, Ending;
      var t := e.thread;
      Steps(s, t, e.fails, true);
      if Accesses(s, t, q) {
        OwnsReached(s, t, q);
      }
      AccessGrows(s, t, q);
      hide LocksOk, DataOk;
    }
  }

  /** The next step of the thread accesses the sequential queue. */
  ghost predicate Accesses<T>(s: State<T>, t: nat, q: nat) {
    && ThreadAt(s, t).code.Do?
    && match ThreadAt(s, t).code.step
       case Start(p, _) => p == q
       case Clear(p) => p == q
       case IsEmpty(p) => p == q
       case Finish(_) => Bound(Current(s, t)) == Some(q)
       case RawAllocate => Bound(Current(s, t)) == Some(q)
       case _ => false
  }

  /** Two threads are never about to access the same queue. */
  lemma NoRace<T>(s: State<T>, t: nat, u: nat, q: nat)
    requires Safe(s) && Accesses(s, t, q) && Accesses(s, u, q)
    ensures Owns(s, t, q) && t == u
  {
    hide Guarded;
    Steps(s, t, false, true);
    Steps(s, u, false, true);
    OwnsReached(s, t, q);
    OwnsReached(s, u, q);
  }
}
