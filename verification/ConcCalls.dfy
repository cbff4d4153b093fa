/** What a whole call does, from its beginning to its return, while other threads do whatever they do: which
    operations it performs on which queue, and how it leaves its handle. */
module ConcCalls {
  import opened Options
  import opened ConcModel
  import opened ConcDiscipline
  import opened ConcQueues
  import F = Fifo

  // ---- the run of a call --------------------------------------------------------------------------------

  predicate IsStep<T>(e: Event<T>, t: nat) {
    e.Advance? && e.thread == t
  }

  /** A run of all threads from a state in which thread `t` is in a call, up to the step with which it returns. */
  ghost predicate CallRun<T>(s: State<T>, run: seq<Event<T>>, t: nat)
    decreases |run|
  {
    && run != [] && ThreadAt(s, t).code.Do? && Enabled(s, run[0])
    && (run[0].Invoke? ==> Harmless(s, run[0].call))
    && if IsStep(run[0], t) && ThreadAt(s, t).code.next.Return? then |run| == 1
       else CallRun(Next(s, run[0]), run[1..], t)
  }

  lemma {:induction false} CallRunPossible<T>(s: State<T>, run: seq<Event<T>>, t: nat)
    requires CallRun(s, run, t)
    ensures Possible(s, run) && AllHarmless(s, run) && ThreadAt(After(s, run), t) == Thread(Return, None)
    decreases |run|
  {
    if IsStep(run[0], t) && ThreadAt(s, t).code.next.Return? {
      hide MutexesAfter, HandleAfter, QueuesAfter;
      assert run[1..] == [];
    } else {
      hide Next, Enabled, Harmless;
      CallRunPossible(Next(s, run[0]), run[1..], t);
    }
  }

  function Appended<T>(log: seq<T>, log': seq<T>): seq<T> {
    if |log| <= |log'| then log'[|log|..] else []
  }

  /** The operations that the steps of thread `t` append to the log of queue `q`. */
  ghost function Performed<T>(s: State<T>, run: seq<Event<T>>, t: nat, q: nat): seq<F.Op<T>>
    requires Possible(s, run)
    decreases |run|
  {
    if run == [] then []
    else
      var s' := Next(s, run[0]);
      (if IsStep(run[0], t) then Appended(QueueAt(s, q).log, QueueAt(s', q).log) else [])
      + Performed(s', run[1..], t, q)
  }

  ghost predicate NoFailure<T>(run: seq<Event<T>>, t: nat) {
    forall i :: 0 <= i < |run| && IsStep(run[i], t) ==> !run[i].fails
  }

  /** What a call means, for a handle that is `hd` before and `hd'` after it: the operations it performs on
      queue `q`. */
  ghost predicate Performs<T>(c: Call<T>, hd: Handle, hd': Handle, q: nat, ops: seq<F.Op<T>>) {
    match c
    case StartPut(p, _, v, reentrant) =>
      && hd'.kind == Kind(true, reentrant)
      && if hd'.inner.Some? then
           && hd'.inner.value.queue == p && ops == (if q == p then [F.StartPut(v, reentrant)] else [])
           && hd'.lock == (if reentrant then None else Some(p)) && hd'.target == (if reentrant then Some(p) else None)
         else
           ops == [] && hd'.lock.None? && hd'.target.None?
    case StartConsume(p, _, reentrant) =>
      && hd'.kind == Kind(false, reentrant)
      && ops == (if hd.inner.Some? && q == hd.inner.value.queue then [F.CancelConsume(hd.inner.value.id)] else [])
                + (if q == p then [F.StartConsume] else [])
      && (hd'.inner.Some? ==> hd'.inner.value.queue == p)
      && hd'.lock == (if reentrant || hd'.inner.None? then None else Some(p))
      && hd'.target == (if reentrant then Some(p) else None)
    case End(_, commit) =>
      && hd.inner.Some? && hd'.kind == hd.kind && hd'.inner.None? && hd'.lock.None?
      && hd'.target == (if hd.kind.put then None else hd.target)
      && var id := hd.inner.value.id;
         ops == if q != hd.inner.value.queue then []
                else if hd.kind.put then [if commit then F.CommitPut(id) else F.CancelPut(id)]
                else [if commit then F.CommitConsume(id) else F.CancelConsume(id)]
    case AllocateRaw(_) => ops == [] && hd' == hd
    case TestEmpty(_) => ops == []
    case ClearQueue(_) => true
  }

  // ---- what the steps do, one by one ----------------------------------------------------------------------

  predicate HasClear<T>(code: Code<T>) {
    code.Do? && (code.step.Clear? || HasClear(code.next))
  }

  ghost function OneIf<T>(b: bool, op: F.Op<T>): seq<F.Op<T>> {
    if b then [op] else []
  }

  /** The operations begin with this one, if `b`, and the others. */
  ghost predicate Heads<T>(ops: seq<F.Op<T>>, b: bool, op: F.Op<T>) {
    b ==> ops != [] && ops[0] == op
  }

  ghost function Rest<T>(ops: seq<F.Op<T>>, b: bool): seq<F.Op<T>> {
    if b && ops != [] then ops[1..] else ops
  }

  lemma HeadAndRest<T>(b: bool, op: F.Op<T>, rest: seq<F.Op<T>>)
    ensures Heads(OneIf(b, op) + rest, b, op) && Rest(OneIf(b, op) + rest, b) == rest
  {
  }

  function Started(hd: Handle, p: nat, inner: Option<Inner>): Handle {
    hd.(inner := inner, target := if hd.kind.reentrant then Some(p) else None)
  }

  /** Running the code with this handle can perform exactly these operations on the queue and leave the handle
      like this; a put that is started fails only if `mayFail`. */
  ghost predicate Yields<T>(code: Code<T>, hd: Handle, q: nat, ops: seq<F.Op<T>>, hd': Handle, mayFail: bool) {
    match code
    case Return => ops == [] && hd' == hd
    case Do(m, next) =>
      match m
      case Start(p, op) =>
        || (mayFail && op.StartPut? && Yields(next, hd, q, ops, hd', mayFail))
        || (Heads(ops, p == q, op)
            && exists inner: Option<Inner> ::
                 && (inner.Some? ==> inner.value.queue == p) && (op.StartPut? ==> inner.Some?)
                 && Yields(next, Started(hd, p, inner), q, Rest(ops, p == q), hd', mayFail))
      case Finish(commit) =>
        && hd.inner.Some?
        && Heads(ops, hd.inner.value.queue == q, Ending(hd.kind, hd.inner.value.id, commit))
        && Yields(next, HandleAfter(Initial<T>(), hd, m, false), q, Rest(ops, hd.inner.value.queue == q), hd', mayFail)
      case Clear(_) => false
      case _ => Yields(next, HandleAfter(Initial<T>(), hd, m, false), q, ops, hd', mayFail)
  }

  ghost function Added<T>(s: State<T>, t: nat, fails: bool, q: nat): seq<F.Op<T>>
    requires Enabled(s, Advance(t, fails))
  {
    Appended(QueueAt(s, q).log, QueueAt(Next(s, Advance(t, fails)), q).log)
  }

  ghost function HandleThen<T>(s: State<T>, t: nat, fails: bool): Handle
    requires Enabled(s, Advance(t, fails))
  {
    CurrentIn(s, t, Next(s, Advance(t, fails)))
  }

  lemma StartDoes<T>(s: State<T>, t: nat, q: nat)
    requires Safe(s) && Enabled(s, Advance(t, false)) && ThreadAt(s, t).code.step.Start?
    ensures var m, hd, hd' := ThreadAt(s, t).code.step, Current(s, t), HandleThen(s, t, false);
            && Added(s, t, false, q) == OneIf(m.queue == q, m.op)
            && hd' == Started(hd, m.queue, hd'.inner)
            && (hd'.inner.Some? ==> hd'.inner.value.queue == m.queue) && (m.op.StartPut? ==> hd'.inner.Some?)
  {
    assert GuardedAt(s, t, true);
    StartReady(s, t);
    StartShape(s, t);
    hide LocksOk, DataOk, HeldOk, Access, MutexesAfter, QueuesAfter, F.Reached, F.Apply, F.Enabled, F.Holds;
  }

  lemma FinishDoes<T>(s: State<T>, t: nat, fails: bool, q: nat)
    requires Safe(s) && Enabled(s, Advance(t, fails)) && ThreadAt(s, t).code.step.Finish?
    ensures var m, hd := ThreadAt(s, t).code.step, Current(s, t);
            && hd.inner.Some? && HandleThen(s, t, fails) == HandleAfter(Initial<T>(), hd, m, false)
            && Added(s, t, fails, q)
               == OneIf(hd.inner.value.queue == q, Ending(hd.kind, hd.inner.value.id, m.commit))
  {
    FinishEffect(s, t, fails);
    FinishShape(s, t, fails);
    hide LocksOk, DataOk, HeldOk, Access, MutexesAfter, QueuesAfter, F.Reached, F.Apply, F.Enabled, F.NoOpen, Ending;
  }

  lemma PassiveDoes<T>(s: State<T>, t: nat, fails: bool, q: nat)
    requires Safe(s) && Enabled(s, Advance(t, fails)) && Passive(ThreadAt(s, t).code.step, fails)
    ensures var m, hd := ThreadAt(s, t).code.step, Current(s, t);
            && Added(s, t, fails, q) == []
            && HandleThen(s, t, fails) == if m.Start? then hd else HandleAfter(Initial<T>(), hd, m, false)
  {
    PassiveSame(s, t, fails);
    assert GuardedAt(s, t, true);
    hide LocksOk, DataOk, HeldOk, MutexesAfter, QueuesAfter;
  }

  /** Steps of the others leave the call and its handle alone. */
  lemma OtherEvent<T>(s: State<T>, e: Event<T>, t: nat)
    requires Safe(s) && Enabled(s, e) && ThreadAt(s, t).code.Do? && !IsStep(e, t)
    ensures ThreadAt(Next(s, e), t) == ThreadAt(s, t) && Current(Next(s, e), t) == Current(s, t)
  {
    match e
    case Advance(u, fails) =>
      OthersKept(s, u, fails, t, true);
    case Invoke(u, c) =>
      assert GuardedAt(s, t, true);
      assert HandleOf(c).Some? ==> !Uses(s, t, c.handle);
      hide LocksOk, DataOk, HeldOk, CodeOf;
  }

  lemma {:induction false} MayFailMore<T>(code: Code<T>, hd: Handle, q: nat, ops: seq<F.Op<T>>, hd': Handle)
    requires Yields(code, hd, q, ops, hd', false)
    ensures Yields(code, hd, q, ops, hd', true)
  {
    if code.Do? {
      var m, next := code.step, code.next;
      match m
      case Start(p, op) =>
        var inner: Option<Inner> :|
          && (inner.Some? ==> inner.value.queue == p) && (op.StartPut? ==> inner.Some?)
          && Yields(next, Started(hd, p, inner), q, Rest(ops, p == q), hd', false);
        MayFailMore(next, Started(hd, p, inner), q, Rest(ops, p == q), hd');
      case Finish(commit) =>
        MayFailMore(next, HandleAfter(Initial<T>(), hd, m, false), q, Rest(ops, hd.inner.value.queue == q), hd');
      case Clear(_) => assert false;
      case _ => MayFailMore(next, HandleAfter(Initial<T>(), hd, m, false), q, ops, hd');
    }
  }

  /** One step, and then what the rest of the code yields. */
  lemma YieldsStep<T>(s: State<T>, t: nat, fails: bool, q: nat, rest: seq<F.Op<T>>, hd': Handle, mayFail: bool)
    requires Safe(s) && Enabled(s, Advance(t, fails)) && !ThreadAt(s, t).code.step.Clear? && (fails ==> mayFail)
    requires Yields(ThreadAt(s, t).code.next, HandleThen(s, t, fails), q, rest, hd', mayFail)
    ensures Yields(ThreadAt(s, t).code, Current(s, t), q, Added(s, t, fails, q) + rest, hd', mayFail)
  {
    var m := ThreadAt(s, t).code.step;
    hide Safe;
    if Passive(m, fails) {
      PassiveDoes(s, t, fails, q);
      hide Next, Enabled, Added, HandleThen;
      assert [] + rest == rest;
    } else if m.Start? {
      SuccessIsTheSame(s, t, fails);
      StartDoes(s, t, q);
      HeadAndRest(m.queue == q, m.op, rest);
      hide Next, Enabled;
    } else {
      FinishDoes(s, t, fails, q);
      var hd := Current(s, t);
      HeadAndRest(hd.inner.value.queue == q, Ending<T>(hd.kind, hd.inner.value.id, m.commit), rest);
      hide Next, Enabled, Added, HandleThen;
    }
  }

  /** The call goes on with the same handle. */
  lemma StillUsed<T>(s: State<T>, t: nat, fails: bool)
    requires Enabled(s, Advance(t, fails)) && ThreadAt(s, t).code.next.Do?
    ensures var s' := Next(s, Advance(t, fails));
            && ThreadAt(s', t) == Thread(ThreadAt(s, t).code.next, ThreadAt(s, t).handle)
            && Current(s', t) == HandleThen(s, t, fails)
  {
    hide MutexesAfter, HandleAfter, QueuesAfter;
  }

  lemma FailureLater<T>(run: seq<Event<T>>, t: nat)
    requires run != []
    ensures NoFailure(run, t) ==> NoFailure(run[1..], t) && (IsStep(run[0], t) ==> !run[0].fails)
    ensures NoFailure(run[1..], t) && !IsStep(run[0], t) ==> NoFailure(run, t)
  {
    if NoFailure(run[1..], t) && !IsStep(run[0], t) {
      forall i | 0 <= i < |run| && IsStep(run[i], t) ensures !run[i].fails {
        assert run[1..][i - 1] == run[i];
      }
    }
  }

  /** What thread `t` performs during its call, and how the handle is left, is what its code yields. */
  lemma {:induction false} RunYields<T>(s: State<T>, run: seq<Event<T>>, t: nat, q: nat)
    requires Safe(s) && CallRun(s, run, t) && !HasClear(ThreadAt(s, t).code) && Possible(s, run)
    ensures Yields(ThreadAt(s, t).code, Current(s, t), q, Performed(s, run, t, q), CurrentIn(s, t, After(s, run)),
                   !NoFailure(run, t))
    decreases |run|
  {
    var s' := Next(s, run[0]);
    hide Safe, Enabled, Next, Harmless;
    EventKeepsSafe(s, run[0]);
    if IsStep(run[0], t) {
      if ThreadAt(s, t).code.next.Return? {
        assert run[1..] == [];
        assert Performed(s', run[1..], t, q) == [];
        YieldsStep(s, t, run[0].fails, q, [], HandleThen(s, t, run[0].fails), !NoFailure(run, t));
      } else {
        CallRunPossible(s', run[1..], t);
        RunYields(s', run[1..], t, q);
        StillUsed(s, t, run[0].fails);
        var ops, final := Performed(s', run[1..], t, q), CurrentIn(s, t, After(s, run));
        if NoFailure(run[1..], t) && !NoFailure(run, t) {
          MayFailMore(ThreadAt(s', t).code, Current(s', t), q, ops, final);
        }
        FailureLater(run, t);
        YieldsStep(s, t, run[0].fails, q, ops, final, !NoFailure(run, t));
      }
    } else {
      OtherEvent(s, run[0], t);
      CallRunPossible(s', run[1..], t);
      RunYields(s', run[1..], t, q);
      FailureLater(run, t);
      assert Performed(s, run, t, q) == Performed(s', run[1..], t, q);
    }
  }

  // ---- what a call does -------------------------------------------------------------------------------------

  lemma YieldsRelease<T>(p: nat, hd: Handle, q: nat, ops: seq<F.Op<T>>, hd': Handle, mayFail: bool)
    ensures Yields(Do(Release(p), Return), hd, q, ops, hd', mayFail) <==> ops == [] && hd' == hd
  {
    assert Yields(Return, hd, q, ops, hd', mayFail) <==> ops == [] && hd' == hd;
  }

  lemma YieldsKeep<T>(p: nat, hd: Handle, q: nat, ops: seq<F.Op<T>>, hd': Handle, mayFail: bool)
    ensures Yields(Do(Keep(p), Return), hd, q, ops, hd', mayFail)
            <==> ops == [] && hd' == if hd.inner.Some? then hd.(lock := Some(p)) else hd
  {
    var next := HandleAfter(Initial<T>(), hd, Keep(p), false);
    assert Yields(Return, next, q, ops, hd', mayFail) <==> ops == [] && hd' == next;
  }

  lemma YieldsDrop<T>(hd: Handle, q: nat, ops: seq<F.Op<T>>, hd': Handle, mayFail: bool)
    ensures Yields(Do(Drop, Return), hd, q, ops, hd', mayFail) <==> ops == [] && hd' == hd.(lock := None)
  {
    var next := HandleAfter(Initial<T>(), hd, Drop, false);
    assert Yields(Return, next, q, ops, hd', mayFail) <==> ops == [] && hd' == next;
  }

  /** A step that neither accesses a queue nor changes the handle. */
  lemma YieldsPast<T>(m: Micro<T>, next: Code<T>, hd: Handle, q: nat, ops: seq<F.Op<T>>, hd': Handle, mayFail: bool)
    requires m.Acquire? || m.Release? || m.RawAllocate? || m.IsEmpty?
    ensures Yields(Do(m, next), hd, q, ops, hd', mayFail) <==> Yields(next, hd, q, ops, hd', mayFail)
  {
  }

  lemma YieldsDropThen<T>(next: Code<T>, hd: Handle, q: nat, ops: seq<F.Op<T>>, hd': Handle, mayFail: bool)
    ensures Yields(Do(Drop, next), hd, q, ops, hd', mayFail) <==> Yields(next, hd.(lock := None), q, ops, hd', mayFail)
  {
  }

  lemma YieldsFinish<T>(commit: bool, next: Code<T>, hd: Handle, q: nat, ops: seq<F.Op<T>>, hd': Handle, mayFail: bool)
    requires hd.inner.Some? && Yields(Do(Finish(commit), next), hd, q, ops, hd', mayFail)
    ensures var id := hd.inner.value.id;
            var op: F.Op<T> := if hd.kind.put then (if commit then F.CommitPut(id) else F.CancelPut(id))
                               else (if commit then F.CommitConsume(id) else F.CancelConsume(id));
            var b := hd.inner.value.queue == q;
            && Heads(ops, b, op)
            && Yields(next, hd.(inner := None, target := if hd.kind.put then None else hd.target), q, Rest(ops, b), hd',
                      mayFail)
  {
  }

  /** A consume that is started, with the lock given back or kept. */
  lemma YieldsStart<T>(p: nat, op: F.Op<T>, last: Micro<T>, hd: Handle, q: nat, ops: seq<F.Op<T>>, hd': Handle,
                       mayFail: bool)
    requires last == Release(p) || last == Keep(p)
    requires Yields(Do(Start(p, op), Do(last, Return)), hd, q, ops, hd', mayFail)
    ensures var kept := last.Keep? && hd'.inner.Some?;
            || (mayFail && op.StartPut? && ops == []
                && hd' == if last.Keep? && hd.inner.Some? then hd.(lock := Some(p)) else hd)
            || (&& ops == OneIf(p == q, op) && (hd'.inner.Some? ==> hd'.inner.value.queue == p)
                && (op.StartPut? ==> hd'.inner.Some?)
                && hd' == Started(hd, p, hd'.inner).(lock := if kept then Some(p) else hd.lock))
  {
    if mayFail && op.StartPut? && Yields(Do(last, Return), hd, q, ops, hd', mayFail) {
      YieldsLast(p, last, hd, q, ops, hd', mayFail);
    } else {
      var inner: Option<Inner> :|
        && (inner.Some? ==> inner.value.queue == p) && (op.StartPut? ==> inner.Some?)
        && Yields(Do(last, Return), Started(hd, p, inner), q, Rest(ops, p == q), hd', mayFail);
      YieldsLast(p, last, Started(hd, p, inner), q, Rest(ops, p == q), hd', mayFail);
      assert Heads(ops, p == q, op);
      if p == q {
        assert ops == [ops[0]] + ops[1..];
      }
    }
  }

  lemma YieldsLast<T>(p: nat, last: Micro<T>, hd: Handle, q: nat, ops: seq<F.Op<T>>, hd': Handle, mayFail: bool)
    requires last == Release(p) || last == Keep(p)
    requires Yields(Do(last, Return), hd, q, ops, hd', mayFail)
    ensures ops == [] && hd' == if last.Keep? && hd.inner.Some? then hd.(lock := Some(p)) else hd
  {
    YieldsRelease(p, hd, q, ops, hd', mayFail);
    YieldsKeep(p, hd, q, ops, hd', mayFail);
  }

  /** A handle the callers may use for the call. */
  ghost predicate Usable<T>(c: Call<T>, hd: Handle) {
    && Settled(hd.kind, hd.lock, Bound(hd)) && TargetOk(hd)
    && match c
       case StartPut(_, _, _, reentrant) => hd == Handle(Kind(true, reentrant), None, None, None)
       case StartConsume(_, _, reentrant) => hd.kind == Kind(false, reentrant)
       case End(_, _) => hd.inner.Some?
       case AllocateRaw(_) => hd.inner.Some? && hd.kind.put
       case ClearQueue(_) => false
       case TestEmpty(_) => hd == NO_HANDLE
  }

  /** What the code of a call yields is what the call means. */
  lemma CallMeans<T>(c: Call<T>, hd: Handle, q: nat, ops: seq<F.Op<T>>, hd': Handle, mayFail: bool)
    requires Usable(c, hd) && Yields(CodeOf(c, hd), hd, q, ops, hd', mayFail)
    ensures Performs(c, hd, hd', q, ops)
    ensures c.StartPut? && !mayFail ==> hd'.inner.Some?
  {
    hide Yields;
    var code := CodeOf(c, hd);
    match c
    case StartPut(p, _, v, reentrant) =>
      YieldsPast(Acquire(p), code.next, hd, q, ops, hd', mayFail);
      YieldsStart(p, F.StartPut(v, reentrant), if reentrant then Release(p) else Keep(p), hd, q, ops, hd', mayFail);
    case StartConsume(p, _, false) => RestartMeans(p, hd, q, ops, hd', mayFail);
    case StartConsume(p, _, true) => RebindMeans(p, hd, q, ops, hd', mayFail);
    case End(_, commit) =>
      if hd.kind.reentrant {
        var p := hd.target.value;
        YieldsPast(Acquire(p), code.next, hd, q, ops, hd', mayFail);
        YieldsFinish(commit, Do(Release(p), Return), hd, q, ops, hd', mayFail);
        YieldsRelease(p, hd.(inner := None, target := if hd.kind.put then None else hd.target), q,
                      Rest(ops, hd.inner.value.queue == q), hd', mayFail);
      } else {
        YieldsFinish(commit, Do(Drop, Return), hd, q, ops, hd', mayFail);
        YieldsDrop(hd.(inner := None, target := if hd.kind.put then None else hd.target), q,
                   Rest(ops, hd.inner.value.queue == q), hd', mayFail);
      }
    case AllocateRaw(_) =>
      if hd.kind.reentrant {
        var p := hd.target.value;
        YieldsPast(Acquire(p), code.next, hd, q, ops, hd', mayFail);
        YieldsPast(RawAllocate, Do(Release(p), Return), hd, q, ops, hd', mayFail);
        YieldsRelease(p, hd, q, ops, hd', mayFail);
      } else {
        YieldsPast(RawAllocate, Return, hd, q, ops, hd', mayFail);
        YieldsReturn(hd, q, ops, hd', mayFail);
      }
    case TestEmpty(p) =>
      YieldsPast(Acquire(p), code.next, hd, q, ops, hd', mayFail);
      YieldsPast(IsEmpty(p), Do(Release(p), Return), hd, q, ops, hd', mayFail);
      YieldsRelease(p, hd, q, ops, hd', mayFail);
  }

  lemma YieldsReturn<T>(hd: Handle, q: nat, ops: seq<F.Op<T>>, hd': Handle, mayFail: bool)
    ensures Yields(Return, hd, q, ops, hd', mayFail) <==> ops == [] && hd' == hd
  {
  }

  lemma RestartMeans<T>(p: nat, hd: Handle, q: nat, ops: seq<F.Op<T>>, hd': Handle, mayFail: bool)
    requires hd.kind == Kind(false, false) && hd.lock == Bound(hd)
    requires Yields(CodeOf(StartConsume(p, 0, false), hd), hd, q, ops, hd', mayFail)
    ensures Performs(StartConsume(p, 0, false), hd, hd', q, ops)
  {
    hide Yields;
    var take: Code<T> := Do(Start(p, F.StartConsume), Do(Keep(p), Return));
    if hd.lock.Some? {
      var free := hd.(inner := None, lock := None);
      var b := hd.inner.value.queue == q;
      var rest := Rest(ops, b);
      YieldsFinish(false, Do(Drop, Do(Acquire(p), take)), hd, q, ops, hd', mayFail);
      YieldsDropThen(Do(Acquire(p), take), hd.(inner := None), q, rest, hd', mayFail);
      YieldsPast(Acquire(p), take, free, q, rest, hd', mayFail);
      YieldsStart(p, F.StartConsume, Keep(p), free, q, rest, hd', mayFail);
      if b {
        assert ops == [ops[0]] + rest;
      }
    } else {
      YieldsPast(Acquire(p), take, hd, q, ops, hd', mayFail);
      YieldsStart(p, F.StartConsume, Keep(p), hd, q, ops, hd', mayFail);
      assert ops == [] + ops;
    }
  }

  /** The end of a rebind: the consume, and the lock of the new queue given back unless there is none. */
  lemma RebindEnds<T>(p: nat, same: bool, hd: Handle, q: nat, ops: seq<F.Op<T>>, hd': Handle, mayFail: bool)
    requires Yields(Do(Start(p, F.StartConsume), if same then Return else Do(Release(p), Return)), hd, q, ops, hd',
                    mayFail)
    ensures ops == OneIf(p == q, F.StartConsume) && (hd'.inner.Some? ==> hd'.inner.value.queue == p)
    ensures hd' == Started(hd, p, hd'.inner)
  {
    if same {
      var inner: Option<Inner> :|
        && (inner.Some? ==> inner.value.queue == p)
        && Yields(Return, Started(hd, p, inner), q, Rest(ops, p == q), hd', mayFail);
      YieldsReturn(Started(hd, p, inner), q, Rest(ops, p == q), hd', mayFail);
      if p == q {
        assert ops == [ops[0]] + ops[1..];
      }
    } else {
      hide Yields;
      YieldsStart(p, F.StartConsume, Release(p), hd, q, ops, hd', mayFail);
    }
  }

  lemma RebindMeans<T>(p: nat, hd: Handle, q: nat, ops: seq<F.Op<T>>, hd': Handle, mayFail: bool)
    requires hd.kind == Kind(false, true) && hd.lock.None?
    requires hd.inner.Some? ==> hd.target == Some(hd.inner.value.queue)
    requires Yields(Rebind(p, hd), hd, q, ops, hd', mayFail)
    ensures Performs(StartConsume(p, 0, true), hd, hd', q, ops)
  {
    hide Yields;
    var same := hd.target == Some(p);
    var take: Code<T> := Do(Start(p, F.StartConsume), if same then Return else Do(Release(p), Return));
    var unlock: Code<T> := if hd.target.Some? then Do(Release(hd.target.value), take) else take;
    var cancel: Code<T> := if hd.inner.Some? then Do(Finish(false), unlock) else unlock;
    var lock: Code<T> := if same then cancel else Do(Acquire(p), cancel);
    if hd.target.Some? {
      YieldsPast(Acquire(hd.target.value), lock, hd, q, ops, hd', mayFail);
    }
    YieldsPast(Acquire(p), cancel, hd, q, ops, hd', mayFail);
    var b := hd.inner.Some? && hd.inner.value.queue == q;
    var rest := Rest(ops, b);
    if hd.inner.Some? {
      YieldsFinish(false, unlock, hd, q, ops, hd', mayFail);
    }
    var free := hd.(inner := None);
    YieldsPast(Release(if hd.target.Some? then hd.target.value else 0), take, free, q, rest, hd', mayFail);
    RebindEnds(p, same, free, q, rest, hd', mayFail);
    if b {
      assert ops == [ops[0]] + rest;
    } else {
      assert ops == [] + ops;
    }
  }

  lemma NoClear<T>(c: Call<T>, hd: Handle)
    requires !c.ClearQueue?
    ensures !HasClear(CodeOf(c, hd))
  {
    match c
    case StartPut(p, _, v, reentrant) =>
      assert !HasClear<T>(Do(if reentrant then Release(p) else Keep(p), Return));
    case StartConsume(p, _, false) =>
      assert !HasClear<T>(Do(Keep(p), Return));
      assert !HasClear<T>(Do(Acquire(p), Do(Start(p, F.StartConsume), Do(Keep(p), Return))));
    case StartConsume(p, _, true) =>
      var same := hd.target == Some(p);
      var take: Code<T> := Do(Start(p, F.StartConsume), if same then Return else Do(Release(p), Return));
      assert !HasClear<T>(Do(Release(p), Return)) && !HasClear(take);
      var unlock := if hd.target.Some? then Do(Release(hd.target.value), take) else take;
      assert !HasClear(unlock);
      var cancel := if hd.inner.Some? then Do(Finish(false), unlock) else unlock;
      assert !HasClear(cancel);
      assert !HasClear(if same then cancel else Do(Acquire(p), cancel));
    case End(_, commit) =>
      assert hd.target.Some? ==> !HasClear<T>(Do(Release(hd.target.value), Return));
    case AllocateRaw(_) =>
      assert hd.target.Some? ==> !HasClear<T>(Do(Release(hd.target.value), Return));
    case TestEmpty(p) =>
      assert !HasClear<T>(Do(Release(p), Return));
  }

  /** The handle of a call: an empty one if it is new or there is none. */
  ghost function CallHandle<T>(s: State<T>, c: Call<T>): Handle {
    if HandleOf(c).Some? then HandleAt(s, c.handle) else NO_HANDLE
  }

  /** Whatever the other threads do during a call, the call performs on each queue exactly the operations it
      stands for, and leaves its handle as it should. */
  lemma CallPerforms<T>(s: State<T>, t: nat, c: Call<T>, run: seq<Event<T>>, q: nat)
    requires Safe(s) && Allowed(s, t, c) && Harmless(s, c) && !c.ClearQueue?
    requires CallRun(Next(s, Invoke(t, c)), run, t)
    ensures var s1 := Next(s, Invoke(t, c));
            && Possible(s1, run) && Safe(After(s1, run))
            && Performs(c, CallHandle(s, c), CallHandle(After(s1, run), c), q, Performed(s1, run, t, q))
            && (c.StartPut? && NoFailure(run, t) ==> CallHandle(After(s1, run), c).inner.Some?)
  {
    var s1 := Next(s, Invoke(t, c));
    var hd := Current(s1, t);
    CallBegins(s, t, c);
    EventKeepsSafe(s, Invoke(t, c));
    hide Next, Safe, Allowed, Harmless, CodeOf, Yields, Usable, HasClear;
    CallRunPossible(s1, run, t);
    RunSafe(s1, run);
    NoClear(c, hd);
    RunYields(s1, run, t, q);
    CallMeans(c, hd, q, Performed(s1, run, t, q), CurrentIn(s1, t, After(s1, run)), !NoFailure(run, t));
  }

  lemma CallBegins<T>(s: State<T>, t: nat, c: Call<T>)
    requires Safe(s) && Allowed(s, t, c) && !c.ClearQueue?
    ensures var s1 := Next(s, Invoke(t, c));
            && ThreadAt(s1, t) == Thread(CodeOf(c, Current(s1, t)), HandleOf(c))
            && Usable(c, Current(s1, t)) && Current(s1, t).inner == CallHandle(s, c).inner
            && (c.End? || c.AllocateRaw? ==> Current(s1, t) == CallHandle(s, c))
  {
    hide CodeOf, DataOk, HeldOk;
    if HandleOf(c).Some? {
      assert FreeAt(s, c.handle);
    }
    hide LocksOk;
  }

  // ---- clearing ---------------------------------------------------------------------------------------------

  /** While a call owns the mutex of a queue, nobody else changes the queue. */
  lemma Frozen<T>(s: State<T>, e: Event<T>, t: nat, q: nat)
    requires Safe(s) && Enabled(s, e) && ThreadAt(s, t).code.Do? && !IsStep(e, t) && q in Locals(s, t)
    ensures QueueAt(Next(s, e), q) == QueueAt(s, q) && q in Locals(Next(s, e), t)
  {
    LogInLockOrder(s, e, q);
    match e
    case Advance(u, fails) =>
      OthersKept(s, u, fails, t, true);
      hide Safe, Next, Enabled;
    case Invoke(u, c) =>
      hide Safe, CodeOf, Allowed;
  }

  /** Only the queue that is cleared is touched by the call. */
  ghost predicate OnlyOn<T>(s: State<T>, run: seq<Event<T>>, t: nat, q: nat)
    requires Possible(s, run)
  {
    forall p: nat :: p != q ==> Performed(s, run, t, p) == []
  }

  lemma {:induction false} AfterClear<T>(s: State<T>, run: seq<Event<T>>, t: nat, q: nat)
    requires Safe(s) && CallRun(s, run, t) && Possible(s, run)
    requires ThreadAt(s, t).code == Do(Release(q), Return) && q in Locals(s, t)
    ensures QueueAt(After(s, run), q) == QueueAt(s, q) && OnlyOn(s, run, t, q)
    decreases |run|
  {
    var s' := Next(s, run[0]);
    hide Safe, Next, Enabled, Harmless;
    if IsStep(run[0], t) {
      assert run[1..] == [];
      assert OnlyOn(s', run[1..], t, q);
      PassiveQueues(s, t, run[0].fails);
      OwnAdds(s, run, t, q);
    } else {
      EventKeepsSafe(s, run[0]);
      OtherEvent(s, run[0], t);
      Frozen(s, run[0], t, q);
      AfterClear(s', run[1..], t, q);
      OthersAdd(s, run, t, q);
    }
  }

  lemma PassiveQueues<T>(s: State<T>, t: nat, fails: bool)
    requires Safe(s) && Enabled(s, Advance(t, fails)) && Passive(ThreadAt(s, t).code.step, fails)
    ensures forall p: nat :: QueueAt(Next(s, Advance(t, fails)), p) == QueueAt(s, p)
  {
    PassiveSame(s, t, fails);
  }

  lemma OthersAdd<T>(s: State<T>, run: seq<Event<T>>, t: nat, q: nat)
    requires Possible(s, run) && run != [] && !IsStep(run[0], t)
    requires OnlyOn(Next(s, run[0]), run[1..], t, q)
    ensures OnlyOn(s, run, t, q)
  {
    hide Next, Enabled;
    forall p: nat | p != q ensures Performed(s, run, t, p) == [] {
      assert Performed(Next(s, run[0]), run[1..], t, p) == [];
    }
  }

  /** A step of the call that changes no queue but `q`. */
  lemma OwnAdds<T>(s: State<T>, run: seq<Event<T>>, t: nat, q: nat)
    requires Possible(s, run) && run != [] && IsStep(run[0], t)
    requires forall p: nat | p != q :: QueueAt(Next(s, run[0]), p) == QueueAt(s, p)
    requires OnlyOn(Next(s, run[0]), run[1..], t, q)
    ensures OnlyOn(s, run, t, q)
  {
    hide Next, Enabled;
    forall p: nat | p != q ensures Performed(s, run, t, p) == [] {
      assert Performed(Next(s, run[0]), run[1..], t, p) == [];
    }
  }

  lemma {:induction false} AtClear<T>(s: State<T>, run: seq<Event<T>>, t: nat, q: nat)
    requires Safe(s) && CallRun(s, run, t) && Possible(s, run)
    requires ThreadAt(s, t).code == Do(Clear(q), Do(Release(q), Return)) && q in Locals(s, t)
    ensures Cleared(QueueAt(s, q).fifo, QueueAt(After(s, run), q).fifo) && OnlyOn(s, run, t, q)
    decreases |run|
  {
    var s' := Next(s, run[0]);
    hide Safe, Next, Enabled, Harmless, Cleared;
    EventKeepsSafe(s, run[0]);
    if IsStep(run[0], t) {
      ClearStepOf(s, t, run[0].fails);
      StillUsed(s, t, run[0].fails);
      AfterClear(s', run[1..], t, q);
      OwnAdds(s, run, t, q);
    } else {
      OtherEvent(s, run[0], t);
      Frozen(s, run[0], t, q);
      AtClear(s', run[1..], t, q);
      OthersAdd(s, run, t, q);
    }
  }

  lemma ClearStepOf<T>(s: State<T>, t: nat, fails: bool)
    requires Safe(s) && Enabled(s, Advance(t, fails)) && ThreadAt(s, t).code.step.Clear?
    ensures var q, s' := ThreadAt(s, t).code.step.queue, Next(s, Advance(t, fails));
            && Cleared(QueueAt(s, q).fifo, QueueAt(s', q).fifo) && Locals(s', t) == Locals(s, t)
            && forall p: nat | p != q :: QueueAt(s', p) == QueueAt(s, p)
  {
    ClearStep(s, t, fails);
    hide Safe, QueuesAfter, HandleAfter, Cleared;
  }

  /** The other threads do nothing. */
  ghost predicate Alone<T>(run: seq<Event<T>>, t: nat) {
    forall i :: 0 <= i < |run| ==> IsStep(run[i], t)
  }

  lemma AloneFirst<T>(run: seq<Event<T>>, t: nat)
    requires run != []
    ensures Alone(run, t) ==> IsStep(run[0], t) && Alone(run[1..], t)
  {
  }

  lemma LongerPrefix<T>(s: State<T>, run: seq<Event<T>>, n: nat)
    requires Possible(s, run) && 0 < n <= |run| && Possible(Next(s, run[0]), run[1..][..n - 1])
    ensures Possible(s, run[..n]) && After(s, run[..n]) == After(Next(s, run[0]), run[1..][..n - 1])
  {
    hide Next, Enabled;
    assert run[..n][1..] == run[1..][..n - 1];
  }

  /** Where in the run the call gets the mutex: until then the others may change the queue. */
  lemma {:induction false} BeforeClear<T>(s: State<T>, run: seq<Event<T>>, t: nat, q: nat) returns (n: nat)
    requires Safe(s) && CallRun(s, run, t) && Possible(s, run)
    requires ThreadAt(s, t).code == Do(Acquire(q), Do(Clear(q), Do(Release(q), Return)))
    ensures n <= |run| && Possible(s, run[..n])
    ensures Cleared(QueueAt(After(s, run[..n]), q).fifo, QueueAt(After(s, run), q).fifo) && OnlyOn(s, run, t, q)
    ensures Alone(run, t) ==> QueueAt(After(s, run[..n]), q) == QueueAt(s, q)
    decreases |run|
  {
    var s' := Next(s, run[0]);
    hide Safe, Next, Enabled, Harmless, Cleared, OnlyOn, Performed, Locals, Alone;
    EventKeepsSafe(s, run[0]);
    if IsStep(run[0], t) {
      PassiveQueues(s, t, run[0].fails);
      StillUsed(s, t, run[0].fails);
      Acquired(s, t, run[0].fails);
      AtClear(s', run[1..], t, q);
      OwnAdds(s, run, t, q);
      n := 1;
      assert run[1..][..0] == [];
      LongerPrefix(s, run, n);
    } else {
      OtherEvent(s, run[0], t);
      n := BeforeClear(s', run[1..], t, q);
      OthersAdd(s, run, t, q);
      n := n + 1;
      LongerPrefix(s, run, n);
      AloneFirst(run, t);
    }
  }

  lemma Acquired<T>(s: State<T>, t: nat, fails: bool)
    requires Enabled(s, Advance(t, fails)) && ThreadAt(s, t).code.step.Acquire?
    ensures ThreadAt(s, t).code.step.queue in Locals(Next(s, Advance(t, fails)), t)
  {
    hide QueuesAfter, HandleAfter;
  }

  /** A clear consumes everything visible at the moment it gets the mutex, and leaves what others are putting
      or consuming; at its return nothing is visible, whatever the others have done meanwhile. If they have
      done nothing, that moment is the beginning of the call. */
  lemma ClearCall<T>(s: State<T>, t: nat, q: nat, run: seq<Event<T>>) returns (n: nat)
    requires Safe(s) && Allowed(s, t, ClearQueue(q)) && CallRun(Next(s, Invoke(t, ClearQueue(q))), run, t)
    ensures var s1 := Next(s, Invoke(t, ClearQueue(q)));
            && Possible(s1, run) && n <= |run| && Possible(s1, run[..n])
            && Cleared(QueueAt(After(s1, run[..n]), q).fifo, QueueAt(After(s1, run), q).fifo)
            && (Alone(run, t) ==> QueueAt(After(s1, run[..n]), q) == QueueAt(s, q))
            && OnlyOn(s1, run, t, q)
  {
    var s1 := Next(s, Invoke(t, ClearQueue(q)));
    EventKeepsSafe(s, Invoke(t, ClearQueue(q)));
    assert ThreadAt(s1, t).code == Do(Acquire(q), Do(Clear(q), Do(Release(q), Return)));
    assert QueueAt(s1, q) == QueueAt(s, q);
    hide Safe, Next, Cleared;
    CallRunPossible(s1, run, t);
    n := BeforeClear(s1, run, t, q);
  }

  // ---- alone ------------------------------------------------------------------------------------------------

  /** While the others do nothing, the log of a queue grows by what the call performs on it. */
  lemma {:induction false} LogGrows<T>(s: State<T>, run: seq<Event<T>>, t: nat, q: nat)
    requires Safe(s) && Possible(s, run) && Alone(run, t)
    ensures QueueAt(After(s, run), q).log == QueueAt(s, q).log + Performed(s, run, t, q)
    decreases |run|
  {
    hide Safe, Next, Enabled, Appended;
    if run != [] {
      AloneFirst(run, t);
      EventKeepsSafe(s, run[0]);
      LogInLockOrder(s, run[0], q);
      var s' := Next(s, run[0]);
      LogGrows(s', run[1..], t, q);
      AppendedAll(QueueAt(s, q).log, QueueAt(s', q).log, Performed(s', run[1..], t, q));
    }
  }

  lemma AppendedAll<T>(log: seq<T>, log': seq<T>, more: seq<T>)
    requires log <= log'
    ensures log' + more == log + (Appended(log, log') + more)
  {
  }

  /** Moving a reentrant consume handle locks the mutex of the old queue first, and then that of the new one. */
  lemma MoveLocksInOrder<T>(s: State<T>, t: nat, c: Call<T>, p: nat)
    requires Allowed(s, t, c) && c.StartConsume? && c.reentrant && c.queue != p
    requires CallHandle(s, c).target == Some(p) && p !in s.mutexes && c.queue !in s.mutexes
    ensures var s1 := Next(s, Invoke(t, c));
            && Enabled(s1, Advance(t, false))
            && var s2 := Next(s1, Advance(t, false));
               && Enabled(s2, Advance(t, false))
               && var s3 := Next(s2, Advance(t, false));
                  && s2.mutexes == s.mutexes[p := Lock(t, None)]
                  && s3.mutexes == s.mutexes[p := Lock(t, None)][c.queue := Lock(t, None)]
  {
  }
}
