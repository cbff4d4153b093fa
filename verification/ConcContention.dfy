/** Which calls can end up waiting for each other: the exact condition, for two calls in any situation and
    for any number of calls while no mutex is locked. */
module ConcContention {
  import opened Options
  import opened ConcModel
  import opened ConcDiscipline
  import opened ConcRebind
  import opened ConcDeadlock
  import F = Fifo

  // ---- two calls -------------------------------------------------------------------------------------------

  ghost predicate LeadsToCycle<T>(s: State<T>, run: seq<Event<T>>, t: nat, u: nat) {
    OnlySteps(run) && Possible(s, run) && WaitCycle(After(s, run), [t, u])
  }

  /** Each call wants, while it owns a mutex, one that the other one owns while it wants the first. */
  ghost predicate Contend<T>(s: State<T>, t: nat, c: Call<T>, u: nat, d: Call<T>) {
    exists x: nat, y: nat :: Demanded(s, t, c, x, y) && Demanded(s, u, d, y, x)
  }

  ghost function BothBegun<T>(s: State<T>, t: nat, c: Call<T>, u: nat, d: Call<T>): State<T>
    requires Allowed(s, t, c) && Allowed(Next(s, Invoke(t, c)), u, d)
  {
    Next(Next(s, Invoke(t, c)), Invoke(u, d))
  }

  lemma StillAllowed<T>(s: State<T>, t: nat, c: Call<T>, u: nat, d: Call<T>)
    requires t != u && Allowed(s, t, c) && Allowed(s, u, d)
    requires HandleOf(c).Some? ==> HandleOf(c) != HandleOf(d)
    ensures Allowed(Next(s, Invoke(t, c)), u, d)
    ensures HandleIn(Next(s, Invoke(t, c)), d) == HandleIn(s, d)
  {
    var s1 := Next(s, Invoke(t, c));
    if HandleOf(d).Some? {
      forall w: nat ensures !Uses(s1, w, d.handle) {
        assert !Uses(s, w, d.handle);
      }
    }
  }

  /** What the two calls demand once both have begun. */
  lemma BothDemand<T>(s: State<T>, t: nat, c: Call<T>, u: nat, d: Call<T>)
    requires LocksOk(s, false) && t != u && Allowed(s, t, c) && Allowed(s, u, d)
    requires HandleOf(c).Some? ==> HandleOf(c) != HandleOf(d)
    ensures Allowed(Next(s, Invoke(t, c)), u, d)
    ensures var s2 := BothBegun(s, t, c, u, d);
            && LocksOk(s2, false)
            && (forall x: nat, y: nat :: (x, y) in DemandsAt(s2, t) <==> Demanded(s, t, c, x, y))
            && (forall x: nat, y: nat :: (x, y) in DemandsAt(s2, u) <==> Demanded(s, u, d, x, y))
  {
    hide LocksOk, Allowed, DemandsAt, Next;
    var s1 := Next(s, Invoke(t, c));
    StillAllowed(s, t, c, u, d);
    InvokeKeepsLocks(s, t, c, false);
    InvokeKeepsLocks(s1, u, d, false);
    CallDemands(s, t, c);
    InvokeElsewhere(s1, u, d, t);
    InvokeElsewhere(s, t, c, u);
    CallDemands(s1, u, d);
  }

  lemma {:induction false} StepsShrink<T>(s: State<T>, run: seq<Event<T>>, t: nat)
    requires LocksOk(s, false) && OnlySteps(run) && Possible(s, run)
    ensures DemandsAt(After(s, run), t) <= DemandsAt(s, t)
    decreases |run|
  {
    hide Next, Enabled, LocksOk, DemandsAt;
    if run != [] {
      EventKeepsLocks(s, run[0]);
      if run[0].thread == t {
        DemandsShrink(s, t, run[0].fails);
      } else {
        OthersOwn(s, run[0].thread, run[0].fails, t);
      }
      StepsShrink(Next(s, run[0]), run[1..], t);
    }
  }

  /** A cycle needs contending calls. */
  lemma CycleContends<T>(s: State<T>, t: nat, u: nat, run: seq<Event<T>>)
    requires LocksOk(s, false) && LeadsToCycle(s, run, t, u)
    ensures exists x: nat, y: nat :: (x, y) in DemandsAt(s, t) && (y, x) in DemandsAt(s, u)
  {
    hide LocksOk, DemandsAt, WaitCycle, AtAcquire, Wanted;
    var s' := After(s, run);
    StepsShrink(s, run, t);
    StepsShrink(s, run, u);
    CycleDemands(s', [t, u], 0);
    CycleDemands(s', [t, u], 1);
    assert (Wanted(s', u), Wanted(s', t)) in DemandsAt(s, t);
  }

  /** The thread is about to lock these mutexes. */
  ghost predicate Poised<T>(s: State<T>, t: nat, locks: seq<nat>) {
    && 1 <= |locks| <= 2 && AtAcquire(s, t) && Wanted(s, t) == locks[0]
    && (|locks| == 2 ==> ThreadAt(s, t).code.next.Do? && ThreadAt(s, t).code.next.step == Acquire(locks[1]))
  }

  /** Nothing has changed for the other threads, and no mutex but those of `t` has been locked or released. */
  ghost predicate OnlyMoved<T>(s: State<T>, t: nat, s': State<T>) {
    && (forall u: nat | u != t :: ThreadAt(s', u) == ThreadAt(s, u) && Current(s', u) == Current(s, u))
    && (forall u: nat | u != t :: Owned(s', u) == Owned(s, u))
  }

  /** A call gets to its first `Acquire` by itself. */
  lemma Approach<T>(s: State<T>, run: seq<Event<T>>, t: nat, c: Call<T>, hd: Handle) returns (run': seq<Event<T>>)
    requires OnlySteps(run) && Possible(s, run) && LocksOk(After(s, run), false)
    requires ThreadAt(After(s, run), t).code == CodeOf(c, hd) && Current(After(s, run), t) == hd
    requires LocksOf(c, hd) != [] && |LocksOf(c, hd)| <= 2
    ensures OnlySteps(run') && Possible(s, run') && LocksOk(After(s, run'), false)
    ensures Poised(After(s, run'), t, LocksOf(c, hd)) && OnlyMoved(After(s, run), t, After(s, run'))
    ensures Owned(After(s, run'), t)
            == if c.StartConsume? && !c.reentrant && hd.lock.Some? then Owned(After(s, run), t) - {hd.lock.value}
               else Owned(After(s, run), t)
  {
    run' := run;
    if c.StartConsume? && !c.reentrant && hd.lock.Some? {
      var s0 := After(s, run);
      run' := OneStep(s, run', t);
      var s1 := After(s, run');
      FinishStep(s0, t);
      run' := OneStep(s, run', t);
      DropStep(s1, t);
    }
  }

  /** One step of `t`, which is not waiting. */
  lemma OneStep<T>(s: State<T>, run: seq<Event<T>>, t: nat) returns (run': seq<Event<T>>)
    requires OnlySteps(run) && Possible(s, run) && LocksOk(After(s, run), false)
    requires ThreadAt(After(s, run), t).code.Do? && !Blocked(After(s, run), t)
    ensures OnlySteps(run') && Possible(s, run') && LocksOk(After(s, run'), false)
    ensures Enabled(After(s, run), Advance(t, false)) && After(s, run') == Next(After(s, run), Advance(t, false))
    ensures OnlyMoved(After(s, run), t, After(s, run'))
  {
    var s0 := After(s, run);
    assert Enabled(s0, Advance(t, false));
    Extend(s, run, Advance(t, false));
    run' := run + [Advance(t, false)];
    var s1 := Next(s0, Advance(t, false));
    hide LocksOk, Next, Enabled, Blocked;
    AdvanceKeepsLocks(s0, t, false, false);
    forall u: nat | u != t
      ensures ThreadAt(s1, u) == ThreadAt(s0, u) && Current(s1, u) == Current(s0, u) && Owned(s1, u) == Owned(s0, u)
    {
      OthersKept(s0, t, false, u, false);
      OthersOwn(s0, t, false, u);
    }
  }

  lemma FinishStep<T>(s: State<T>, t: nat)
    requires ThreadAt(s, t).code.Do? && ThreadAt(s, t).code.step == Finish(false) && ThreadAt(s, t).code.next.Do?
    requires Current(s, t).lock.Some?
    ensures var s' := Next(s, Advance(t, false));
            && ThreadAt(s', t).code == ThreadAt(s, t).code.next && Owned(s', t) == Owned(s, t)
            && Current(s', t).lock == Current(s, t).lock
  {
    hide QueuesAfter;
  }

  lemma DropStep<T>(s: State<T>, t: nat)
    requires ThreadAt(s, t).code.Do? && ThreadAt(s, t).code.step == Drop && ThreadAt(s, t).code.next.Do?
    requires Current(s, t).lock.Some?
    ensures var s' := Next(s, Advance(t, false));
            && ThreadAt(s', t).code == ThreadAt(s, t).code.next
            && Owned(s', t) == Owned(s, t) - {Current(s, t).lock.value}
  {
    hide QueuesAfter;
  }

  lemma AcquireStep<T>(s: State<T>, t: nat, locks: seq<nat>)
    requires Poised(s, t, locks) && |locks| == 2 && locks[0] !in s.mutexes
    ensures var s' := Next(s, Advance(t, false));
            && AtAcquire(s', t) && Wanted(s', t) == locks[1] && Owned(s', t) == Owned(s, t) + {locks[0]}
  {
    hide QueuesAfter;
  }

  /** A thread goes on until it wants `goal`, or waits before. */
  lemma Proceed<T>(s: State<T>, run: seq<Event<T>>, t: nat, locks: seq<nat>, goal: nat) returns (run': seq<Event<T>>)
    requires OnlySteps(run) && Possible(s, run) && LocksOk(After(s, run), false)
    requires Poised(After(s, run), t, locks) && goal in locks
    ensures OnlySteps(run') && Possible(s, run') && LocksOk(After(s, run'), false)
    ensures OnlyMoved(After(s, run), t, After(s, run'))
    ensures var s0, s1 := After(s, run), After(s, run');
            && AtAcquire(s1, t)
            && if goal == locks[0] || locks[0] in s0.mutexes then
                 Wanted(s1, t) == locks[0] && Owned(s1, t) == Owned(s0, t)
               else
                 Wanted(s1, t) == goal && Owned(s1, t) == Owned(s0, t) + {locks[0]}
  {
    run' := run;
    if goal != locks[0] && locks[0] !in After(s, run).mutexes {
      AcquireStep(After(s, run), t, locks);
      run' := OneStep(s, run, t);
    }
  }

  /** The two threads are about to lock mutexes, and own `kept` meanwhile. */
  ghost predicate Facing<T>(s: State<T>, t: nat, kept: set<nat>, locks: seq<nat>) {
    && Poised(s, t, locks) && Owned(s, t) == kept
    && (forall q <- locks :: q !in kept) && (|locks| == 2 ==> locks[0] != locks[1])
  }

  /** While one thread owns `kept` and then locks `locks`, it owns `x` and wants `y`. */
  ghost predicate Pairs(kept: set<nat>, locks: seq<nat>, x: nat, y: nat) {
    (x in kept && y in locks) || (|locks| == 2 && x == locks[0] && y == locks[1])
  }

  /** All locked mutexes are owned by these two threads. */
  ghost predicate Closed<T>(s: State<T>, t: nat, u: nat) {
    s.mutexes.Keys == Owned(s, t) + Owned(s, u)
  }

  lemma MovedClosed<T>(s: State<T>, t: nat, s': State<T>, u: nat)
    requires t != u && OnlyMoved(s, t, s') && Closed(s, t, u)
    ensures Closed(s', t, u) && Owned(s', u) == Owned(s, u)
  {
    forall q | q in s'.mutexes ensures q in Owned(s', t) + Owned(s', u) {
      var v := s'.mutexes[q].thread;
      if v != t {
        assert q in Owned(s', v) && q in Owned(s, v);
      }
    }
  }

  lemma MovedPoised<T>(s: State<T>, t: nat, s': State<T>, u: nat, locks: seq<nat>)
    requires t != u && OnlyMoved(s, t, s') && Poised(s, u, locks)
    ensures Poised(s', u, locks)
  {
  }

  /** Two threads that contend, and have nobody else to wait for, can get into a cycle. */
  lemma FacingCycle<T>(s: State<T>, run: seq<Event<T>>, t: nat, kept: set<nat>, locks: seq<nat>, u: nat,
                       kept': set<nat>, locks': seq<nat>, x: nat, y: nat) returns (run': seq<Event<T>>)
    requires OnlySteps(run) && Possible(s, run) && LocksOk(After(s, run), false) && t != u
    requires Facing(After(s, run), t, kept, locks) && Facing(After(s, run), u, kept', locks')
    requires Closed(After(s, run), t, u)
    requires Pairs(kept, locks, x, y) && Pairs(kept', locks', y, x)
    ensures LeadsToCycle(s, run', t, u)
  {
    hide LocksOk, Owned, AtAcquire, Wanted, Poised, OnlyMoved;
    var s0 := After(s, run);
    LocksNonEmpty(s0, t, locks);
    LocksNonEmpty(s0, u, locks');
    run' := Proceed(s, run, t, locks, y);
    var s1 := After(s, run');
    MovedClosed(s0, t, s1, u);
    MovedPoised(s0, t, s1, u, locks');
    run' := Proceed(s, run', u, locks', x);
    var s2 := After(s, run');
    MovedKeeps(s1, u, s2, t);
    MeetInCycle(kept, locks, kept', locks', x, y, s0.mutexes.Keys, s1.mutexes.Keys, Wanted(s2, t), Owned(s2, t),
                Wanted(s2, u), Owned(s2, u));
    TwoWait(s2, t, u);
  }

  lemma LocksNonEmpty<T>(s: State<T>, t: nat, locks: seq<nat>)
    requires Poised(s, t, locks)
    ensures 1 <= |locks| <= 2
  {
  }

  lemma MovedKeeps<T>(s: State<T>, u: nat, s': State<T>, t: nat)
    requires OnlyMoved(s, u, s') && t != u && AtAcquire(s, t)
    ensures AtAcquire(s', t) && Wanted(s', t) == Wanted(s, t) && Owned(s', t) == Owned(s, t)
  {
    hide Owned;
  }

  lemma TwoWait<T>(s: State<T>, t: nat, u: nat)
    requires AtAcquire(s, t) && AtAcquire(s, u) && Wanted(s, t) in Owned(s, u) && Wanted(s, u) in Owned(s, t)
    ensures WaitCycle(s, [t, u])
  {
  }

  /** Wherever the two threads get stuck, each wants a mutex the other one owns. `mutexes` and `mutexes'` are
      those locked when the first and when the second one proceeds. */
  lemma MeetInCycle(kept: set<nat>, locks: seq<nat>, kept': set<nat>, locks': seq<nat>, x: nat, y: nat,
                    mutexes: set<nat>, mutexes': set<nat>, wanted: nat, owned: set<nat>, wanted': nat, owned': set<nat>)
    requires 1 <= |locks| <= 2 && (forall q <- locks :: q !in kept) && (|locks| == 2 ==> locks[0] != locks[1])
    requires 1 <= |locks'| <= 2 && (forall q <- locks' :: q !in kept') && (|locks'| == 2 ==> locks'[0] != locks'[1])
    requires Pairs(kept, locks, x, y) && Pairs(kept', locks', y, x)
    requires mutexes == kept + kept' && mutexes' == owned + kept'
    requires if y == locks[0] || locks[0] in mutexes then wanted == locks[0] && owned == kept
             else wanted == y && owned == kept + {locks[0]}
    requires if x == locks'[0] || locks'[0] in mutexes' then wanted' == locks'[0] && owned' == kept'
             else wanted' == x && owned' == kept' + {locks'[0]}
    ensures wanted in owned' && wanted' in owned
  {
  }

  /** Two calls, of threads that own all the locked mutexes and do not lock what they own, can end up waiting
      for each other if and only if they contend, which can be read off before they begin. */
  lemma TwoCallsExactly<T>(s: State<T>, t: nat, c: Call<T>, u: nat, d: Call<T>)
    requires LocksOk(s, false) && t != u && Allowed(s, t, c) && Allowed(s, u, d)
    requires HandleOf(c).Some? ==> HandleOf(c) != HandleOf(d)
    requires Closed(s, t, u)
    requires forall x: nat :: !Demanded(s, t, c, x, x) && !Demanded(s, u, d, x, x)
    ensures Allowed(Next(s, Invoke(t, c)), u, d)
    ensures (exists run :: LeadsToCycle(BothBegun(s, t, c, u, d), run, t, u)) <==> Contend(s, t, c, u, d)
  {
    hide LocksOk, Allowed, DemandsAt, Next, Demanded, LeadsToCycle;
    BothDemand(s, t, c, u, d);
    var s2 := BothBegun(s, t, c, u, d);
    forall run | LeadsToCycle(s2, run, t, u) ensures Contend(s, t, c, u, d) {
      CycleContends(s2, t, u, run);
    }
    if Contend(s, t, c, u, d) {
      var run := ContendersMeet(s, t, c, u, d);
    }
  }

  lemma ContendersMeet<T>(s: State<T>, t: nat, c: Call<T>, u: nat, d: Call<T>) returns (run: seq<Event<T>>)
    requires LocksOk(s, false) && t != u && Allowed(s, t, c) && Allowed(s, u, d)
    requires HandleOf(c).Some? ==> HandleOf(c) != HandleOf(d)
    requires Closed(s, t, u) && Contend(s, t, c, u, d)
    requires forall x: nat :: !Demanded(s, t, c, x, x) && !Demanded(s, u, d, x, x)
    requires Allowed(Next(s, Invoke(t, c)), u, d) && LocksOk(BothBegun(s, t, c, u, d), false)
    ensures LeadsToCycle(BothBegun(s, t, c, u, d), run, t, u)
  {
    hide LocksOk, Allowed, Demanded, Owned, KeptBy, OnlyMoved, Poised, LeadsToCycle, Next, HandleIn, CodeOf, LocksOf,
         Pairs, Current, ThreadAt, AtAcquire, Wanted;
    var s2 := BothBegun(s, t, c, u, d);
    var hd, hd' := HandleIn(s, c), HandleIn(s, d);
    var x: nat, y: nat :| Demanded(s, t, c, x, y) && Demanded(s, u, d, y, x);
    DemandedPairs(s, t, c, x, y);
    DemandedPairs(s, u, d, y, x);
    BothShapes(s, t, c, u, d);
    run := [];
    assert After(s2, run) == s2;
    run := Approach(s2, run, t, c, hd);
    var s3 := After(s2, run);
    MovedClosed(s2, t, s3, u);
    MovedSame(s2, t, s3, u);
    run := Approach(s2, run, u, d, hd');
    var s4 := After(s2, run);
    MovedPoised(s3, u, s4, t, LocksOf(c, hd));
    MovedClosed(s3, u, s4, t);
    KeptIs(s, t, c);
    KeptIs(s, u, d);
    run := FacingCycle(s2, run, t, KeptBy(s, t, c), LocksOf(c, hd), u, KeptBy(s, u, d), LocksOf(d, hd'), x, y);
  }

  lemma MovedSame<T>(s: State<T>, t: nat, s': State<T>, u: nat)
    requires t != u && OnlyMoved(s, t, s')
    ensures ThreadAt(s', u) == ThreadAt(s, u) && Current(s', u) == Current(s, u)
  {
  }

  lemma KeptIs<T>(s: State<T>, t: nat, c: Call<T>)
    ensures KeptBy(s, t, c)
            == if c.StartConsume? && !c.reentrant && HandleIn(s, c).lock.Some? then
                 Owned(s, t) - {HandleIn(s, c).lock.value}
               else Owned(s, t)
  {
  }

  /** What a call demands, and that it does not lock what its thread owns. */
  lemma DemandedPairs<T>(s: State<T>, t: nat, c: Call<T>, x: nat, y: nat)
    requires Demanded(s, t, c, x, y) && forall z: nat :: !Demanded(s, t, c, z, z)
    ensures var kept, locks := KeptBy(s, t, c), LocksOf(c, HandleIn(s, c));
            && Pairs(kept, locks, x, y) && 1 <= |locks| <= 2
            && (forall q <- locks :: q !in kept) && (|locks| == 2 ==> locks[0] != locks[1])
  {
    var kept, locks := KeptBy(s, t, c), LocksOf(c, HandleIn(s, c));
    hide KeptBy;
    forall q | q in locks ensures q !in kept {
      assert !Demanded(s, t, c, q, q);
    }
    if |locks| == 2 {
      assert !Demanded(s, t, c, locks[0], locks[0]);
    }
  }

  lemma BothShapes<T>(s: State<T>, t: nat, c: Call<T>, u: nat, d: Call<T>)
    requires LocksOk(s, false) && t != u && Allowed(s, t, c) && Allowed(s, u, d) && Closed(s, t, u)
    requires HandleOf(c).Some? ==> HandleOf(c) != HandleOf(d)
    requires Allowed(Next(s, Invoke(t, c)), u, d)
    ensures var s2 := BothBegun(s, t, c, u, d);
            && ThreadAt(s2, t).code == CodeOf(c, HandleIn(s, c)) && Current(s2, t) == HandleIn(s, c)
            && ThreadAt(s2, u).code == CodeOf(d, HandleIn(s, d)) && Current(s2, u) == HandleIn(s, d)
            && Owned(s2, t) == Owned(s, t) && Owned(s2, u) == Owned(s, u) && Closed(s2, t, u)
  {
    var s1 := Next(s, Invoke(t, c));
    BegunShape(s, t, c);
    BegunShape(s1, u, d);
    hide Allowed, Next, LocksOk;
    StillAllowed(s, t, c, u, d);
    InvokeKeepsLocks(s, t, c, false);
    InvokeElsewhere(s1, u, d, t);
  }

  lemma BegunShape<T>(s: State<T>, t: nat, c: Call<T>)
    requires Allowed(s, t, c)
    ensures var s1 := Next(s, Invoke(t, c));
            && s1.mutexes == s.mutexes
            && ThreadAt(s1, t).code == CodeOf(c, HandleIn(s, c)) && Current(s1, t) == HandleIn(s, c)
  {
    hide CodeOf;
  }

  /** Each call starts a reentrant consume on the queue that the handle of the other one points to. */
  ghost predicate Swapped<T>(s: State<T>, c: Call<T>, d: Call<T>) {
    && c.StartConsume? && c.reentrant && d.StartConsume? && d.reentrant && c.queue != d.queue
    && HandleIn(s, c).target == Some(d.queue) && HandleIn(s, d).target == Some(c.queue)
  }

  lemma SwappedContend<T>(s: State<T>, t: nat, c: Call<T>, u: nat, d: Call<T>)
    requires s.mutexes == map[]
    ensures Contend(s, t, c, u, d) <==> Swapped(s, c, d)
    ensures forall x: nat :: !Demanded(s, t, c, x, x) && !Demanded(s, u, d, x, x)
  {
    assert KeptBy(s, t, c) == {} && KeptBy(s, u, d) == {};
    hide KeptBy, HandleIn;
    if Swapped(s, c, d) {
      assert Demanded(s, t, c, d.queue, c.queue) && Demanded(s, u, d, c.queue, d.queue);
    }
  }

  /** While no mutex is locked, two calls can end up waiting for each other if and only if both start a
      reentrant consume, each on the queue that the handle of the other one points to. */
  lemma SwappedExactly<T>(s: State<T>, t: nat, c: Call<T>, u: nat, d: Call<T>)
    requires LocksOk(s, false) && t != u && Allowed(s, t, c) && Allowed(s, u, d) && s.mutexes == map[]
    requires HandleOf(c).Some? ==> HandleOf(c) != HandleOf(d)
    ensures Allowed(Next(s, Invoke(t, c)), u, d)
    ensures (exists run :: LeadsToCycle(BothBegun(s, t, c, u, d), run, t, u)) <==> Swapped(s, c, d)
  {
    assert Closed(s, t, u);
    hide LocksOk, Allowed, Next, LeadsToCycle, Demanded, Swapped, Contend, Closed;
    SwappedContend(s, t, c, u, d);
    TwoCallsExactly(s, t, c, u, d);
  }

  // ---- any number of calls -----------------------------------------------------------------------------

  /** Thread `ts[i]` has just begun call `cs[i]` with handle `hs[i]`. */
  ghost predicate AllBegun<T>(s: State<T>, ts: seq<nat>, cs: seq<Call<T>>, hs: seq<Handle>) {
    && |cs| == |ts| && |hs| == |ts|
    && (forall i, j :: 0 <= i < j < |ts| ==> ts[i] != ts[j])
    && (forall i :: 0 <= i < |ts| ==> ThreadAt(s, ts[i]).code == CodeOf(cs[i], hs[i]) && Current(s, ts[i]) == hs[i])
  }

  /** The call moves a reentrant consume handle to another queue. */
  predicate Moves<T>(c: Call<T>, hd: Handle) {
    c.StartConsume? && c.reentrant && hd.target.Some? && hd.target != Some(c.queue)
  }

  /** The queue the handle of such a call points to, and the one it is moved to. */
  function From(hd: Handle): nat {
    if hd.target.Some? then hd.target.value else 0
  }

  function To<T>(c: Call<T>): nat {
    if c.StartConsume? then c.queue else 0
  }

  /** Each call moves its handle to the queue that the handle of the following one points to, and no two
      handles point to the same queue. */
  ghost predicate Ring<T>(cs: seq<Call<T>>, hs: seq<Handle>)
    requires |hs| == |cs|
  {
    && (forall i :: 0 <= i < |cs| ==> Moves(cs[i], hs[i]))
    && (forall i :: 0 <= i < |cs| ==> From(hs[Following(i, |cs|)]) == To(cs[i]))
    && (forall i, j :: 0 <= i < j < |cs| ==> From(hs[i]) != From(hs[j]))
  }

  ghost predicate LeadsToRing<T>(s: State<T>, run: seq<Event<T>>, ts: seq<nat>) {
    OnlySteps(run) && Possible(s, run) && WaitCycle(After(s, run), ts)
  }

  /** Any number of calls that have just begun, while no mutex is locked, can end up waiting for each other
      in this order if and only if they form a ring. */
  lemma RingExactly<T>(s: State<T>, ts: seq<nat>, cs: seq<Call<T>>, hs: seq<Handle>)
    requires LocksOk(s, false) && s.mutexes == map[] && ts != [] && AllBegun(s, ts, cs, hs)
    ensures (exists run :: LeadsToRing(s, run, ts)) <==> Ring(cs, hs)
  {
    hide LocksOk, Ring, LeadsToRing;
    forall run | LeadsToRing(s, run, ts) ensures Ring(cs, hs) {
      RingNeeded(s, ts, cs, hs, run);
    }
    if Ring(cs, hs) {
      var run := RingMeets(s, ts, cs, hs);
    }
  }

  /** The calls that distinct threads are allowed to make, each with a handle of its own. */
  ghost predicate AllAllowed<T>(s: State<T>, ts: seq<nat>, cs: seq<Call<T>>, k: nat)
    requires |cs| == |ts|
  {
    && (forall i :: k <= i < |ts| ==> Allowed(s, ts[i], cs[i]))
    && (forall i, j :: 0 <= i < j < |ts| ==> ts[i] != ts[j])
    && (forall i, j :: 0 <= i < j < |ts| && HandleOf(cs[i]).Some? ==> HandleOf(cs[i]) != HandleOf(cs[j]))
  }

  ghost function HandlesOf<T>(s: State<T>, cs: seq<Call<T>>): (hs: seq<Handle>)
    ensures |hs| == |cs| && forall i :: 0 <= i < |cs| ==> hs[i] == HandleIn(s, cs[i])
  {
    if cs == [] then [] else [HandleIn(s, cs[0])] + HandlesOf(s, cs[1..])
  }

  /** They can begin one after the other, and then all have begun with the handles they had. */
  lemma AllBegin<T>(s: State<T>, ts: seq<nat>, cs: seq<Call<T>>) returns (run: seq<Event<T>>)
    requires LocksOk(s, false) && s.mutexes == map[] && |cs| == |ts| && AllAllowed(s, ts, cs, 0)
    ensures Possible(s, run) && LocksOk(After(s, run), false) && After(s, run).mutexes == map[]
    ensures AllBegun(After(s, run), ts, cs, HandlesOf(s, cs))
  {
    hide LocksOk, Allowed, Next, HandlesOf, CodeOf, HandleIn;
    run := [];
    var k := 0;
    while k < |ts|
      invariant k <= |ts| && Possible(s, run) && LocksOk(After(s, run), false) && After(s, run).mutexes == map[]
      invariant AllAllowed(After(s, run), ts, cs, k)
      invariant forall i :: k <= i < |ts| ==> HandleIn(After(s, run), cs[i]) == HandleIn(s, cs[i])
      invariant forall i :: 0 <= i < k ==> ThreadAt(After(s, run), ts[i]).code == CodeOf(cs[i], HandleIn(s, cs[i]))
      invariant forall i :: 0 <= i < k ==> Current(After(s, run), ts[i]) == HandleIn(s, cs[i])
    {
      var s0 := After(s, run);
      var e: Event<T> := Invoke(ts[k], cs[k]);
      forall i | k < i < |ts|
        ensures Allowed(Next(s0, e), ts[i], cs[i]) && HandleIn(Next(s0, e), cs[i]) == HandleIn(s0, cs[i])
      {
        StillAllowed(s0, ts[k], cs[k], ts[i], cs[i]);
      }
      forall i | 0 <= i < k
        ensures ThreadAt(Next(s0, e), ts[i]) == ThreadAt(s0, ts[i]) && Current(Next(s0, e), ts[i]) == Current(s0, ts[i])
      {
        InvokeElsewhere(s0, ts[k], cs[k], ts[i]);
      }
      BegunShape(s0, ts[k], cs[k]);
      EventKeepsLocks(s0, e);
      Extend(s, run, e);
      run := run + [e];
      k := k + 1;
    }
  }

  function Preceding(i: nat, n: nat): nat
    requires i < n
  {
    if i == 0 then n - 1 else i - 1
  }

  /** What is demanded by a call that has just begun while its thread owns nothing. */
  lemma BegunDemands<T>(s: State<T>, t: nat, c: Call<T>, hd: Handle, x: nat, y: nat)
    requires s.mutexes == map[] && ThreadAt(s, t).code == CodeOf(c, hd) && Current(s, t) == hd
    requires (x, y) in DemandsAt(s, t)
    ensures Moves(c, hd) && hd.target == Some(x) && y == c.queue
  {
    assert Owned(s, t) == {};
    hide Demands;
    CodeDemands(c, hd, {});
  }

  lemma RingNeeded<T>(s: State<T>, ts: seq<nat>, cs: seq<Call<T>>, hs: seq<Handle>, run: seq<Event<T>>)
    requires LocksOk(s, false) && s.mutexes == map[] && AllBegun(s, ts, cs, hs)
    requires LeadsToRing(s, run, ts)
    ensures Ring(cs, hs)
  {
    hide LocksOk, DemandsAt, CodeOf, Moves, WaitCycle, From, To, Owned;
    var s', n := After(s, run), |ts|;
    forall j | 0 <= j < n
      ensures Moves(cs[j], hs[j]) && From(hs[j]) in Owned(s', ts[j])
      ensures AtAcquire(s', ts[j]) && Wanted(s', ts[j]) == To(cs[j])
      ensures AtAcquire(s', ts[Preceding(j, n)]) && From(hs[j]) == Wanted(s', ts[Preceding(j, n)])
    {
      RingNeedsOne(s, ts, cs, hs, run, j);
    }
    forall i | 0 <= i < n ensures From(hs[Following(i, n)]) == To(cs[i]) {
      assert Preceding(Following(i, n), n) == i;
    }
    forall i, j | 0 <= i < j < n ensures From(hs[i]) != From(hs[j]) {
      OneOwner(s', ts[i], ts[j], From(hs[i]));
    }
  }

  lemma OneOwner<T>(s: State<T>, t: nat, u: nat, q: nat)
    requires t != u && q in Owned(s, t)
    ensures q !in Owned(s, u)
  {
  }

  lemma RingNeedsOne<T>(s: State<T>, ts: seq<nat>, cs: seq<Call<T>>, hs: seq<Handle>, run: seq<Event<T>>, j: nat)
    requires LocksOk(s, false) && s.mutexes == map[] && AllBegun(s, ts, cs, hs)
    requires LeadsToRing(s, run, ts) && j < |ts|
    ensures var s', i := After(s, run), Preceding(j, |ts|);
            && Moves(cs[j], hs[j]) && From(hs[j]) in Owned(s', ts[j])
            && AtAcquire(s', ts[j]) && Wanted(s', ts[j]) == To(cs[j])
            && AtAcquire(s', ts[i]) && From(hs[j]) == Wanted(s', ts[i])
  {
    hide LocksOk, DemandsAt, CodeOf, WaitCycle, Owned;
    var s', i := After(s, run), Preceding(j, |ts|);
    CycleDemands(s', ts, i);
    StepsShrink(s, run, ts[j]);
    BegunDemands(s, ts[j], cs[j], hs[j], Wanted(s', ts[i]), Wanted(s', ts[j]));
    WaitOwned(s', ts, i);
  }

  lemma WaitOwned<T>(s: State<T>, ts: seq<nat>, i: nat)
    requires WaitCycle(s, ts) && i < |ts|
    ensures AtAcquire(s, ts[i]) && Wanted(s, ts[i]) in Owned(s, ts[Following(i, |ts|)])
  {
    assert WaitsOn(s, ts[i], ts[Following(i, |ts|)]);
  }

  /** The first `k` threads own the queues their handles point to and want the next one; the others have
      not locked anything, and nothing else is locked. */
  ghost predicate HalfRing<T>(s: State<T>, ts: seq<nat>, cs: seq<Call<T>>, hs: seq<Handle>, k: nat)
    requires |cs| == |ts| && |hs| == |ts|
  {
    && (forall i :: 0 <= i < k && i < |ts| ==>
          AtAcquire(s, ts[i]) && Wanted(s, ts[i]) == To(cs[i]) && From(hs[i]) in Owned(s, ts[i]))
    && (forall i :: k <= i < |ts| ==> Poised(s, ts[i], [From(hs[i]), To(cs[i])]))
    && (forall q <- s.mutexes :: exists i :: 0 <= i < k && i < |ts| && From(hs[i]) == q)
  }

  lemma RingMeets<T>(s: State<T>, ts: seq<nat>, cs: seq<Call<T>>, hs: seq<Handle>) returns (run: seq<Event<T>>)
    requires LocksOk(s, false) && s.mutexes == map[] && ts != [] && AllBegun(s, ts, cs, hs) && Ring(cs, hs)
    ensures LeadsToRing(s, run, ts)
  {
    hide LocksOk, HalfRing;
    run := [];
    RingBegins(s, ts, cs, hs);
    var k := 0;
    while k < |ts|
      invariant k <= |ts| && OnlySteps(run) && Possible(s, run) && LocksOk(After(s, run), false)
      invariant HalfRing(After(s, run), ts, cs, hs, k)
    {
      run := RingStep(s, run, ts, cs, hs, k);
      k := k + 1;
    }
    RingClosed(After(s, run), ts, cs, hs);
  }

  lemma RingBegins<T>(s: State<T>, ts: seq<nat>, cs: seq<Call<T>>, hs: seq<Handle>)
    requires s.mutexes == map[] && AllBegun(s, ts, cs, hs)
    requires forall i :: 0 <= i < |ts| ==> Moves(cs[i], hs[i])
    ensures HalfRing(s, ts, cs, hs, 0)
  {
    forall i | 0 <= i < |ts| ensures Poised(s, ts[i], [From(hs[i]), To(cs[i])]) {
      MovesPoised(s, ts[i], cs[i], hs[i]);
    }
  }

  lemma MovesPoised<T>(s: State<T>, t: nat, c: Call<T>, hd: Handle)
    requires Moves(c, hd) && ThreadAt(s, t).code == CodeOf(c, hd)
    ensures Poised(s, t, [From(hd), To(c)])
  {
  }

  lemma RingStep<T>(s: State<T>, run: seq<Event<T>>, ts: seq<nat>, cs: seq<Call<T>>, hs: seq<Handle>, k: nat)
    returns (run': seq<Event<T>>)
    requires OnlySteps(run) && Possible(s, run) && LocksOk(After(s, run), false)
    requires k < |ts| == |cs| == |hs| && Ring(cs, hs) && HalfRing(After(s, run), ts, cs, hs, k)
    requires forall i, j :: 0 <= i < j < |ts| ==> ts[i] != ts[j]
    ensures OnlySteps(run') && Possible(s, run') && LocksOk(After(s, run'), false)
    ensures HalfRing(After(s, run'), ts, cs, hs, k + 1)
  {
    hide LocksOk, Poised, Owned, AtAcquire, Wanted, OnlyMoved;
    var s0 := After(s, run);
    var t, p, q := ts[k], From(hs[k]), To(cs[k]);
    assert p !in s0.mutexes;
    run' := Proceed(s, run, t, [p, q], q);
    var s1 := After(s, run');
    forall i | 0 <= i < |ts| && i != k
      ensures i < k ==> AtAcquire(s1, ts[i]) && Wanted(s1, ts[i]) == To(cs[i])
                        && From(hs[i]) in Owned(s1, ts[i])
      ensures i > k ==> Poised(s1, ts[i], [From(hs[i]), To(cs[i])])
    {
      if i < k {
        MovedKeeps(s0, t, s1, ts[i]);
      } else {
        MovedPoised(s0, t, s1, ts[i], [From(hs[i]), To(cs[i])]);
      }
    }
    forall r | r in s1.mutexes ensures r in s0.mutexes || r == p {
      MovedMutex(s0, t, s1, r, p);
    }
  }

  /** A mutex locked after others have not moved was locked before, or is the one `t` has locked. */
  lemma MovedMutex<T>(s: State<T>, t: nat, s': State<T>, r: nat, p: nat)
    requires OnlyMoved(s, t, s') && Owned(s', t) <= Owned(s, t) + {p} && r in s'.mutexes
    ensures r in s.mutexes || r == p
  {
    var v := s'.mutexes[r].thread;
    if v != t {
      assert r in Owned(s', v) && r in Owned(s, v);
    } else {
      assert r in Owned(s', t);
    }
  }

  lemma RingClosed<T>(s: State<T>, ts: seq<nat>, cs: seq<Call<T>>, hs: seq<Handle>)
    requires |cs| == |hs| == |ts| && ts != [] && Ring(cs, hs) && HalfRing(s, ts, cs, hs, |ts|)
    ensures WaitCycle(s, ts)
  {
    hide Owned, AtAcquire, Wanted;
    forall i | 0 <= i < |ts| ensures WaitsOn(s, ts[i], ts[Following(i, |ts|)]) {
      var j := Following(i, |ts|);
      assert From(hs[j]) == To(cs[i]) && From(hs[j]) in Owned(s, ts[j]);
    }
  }

  // ---- a cycle from the start --------------------------------------------------------------------------

  lemma {:induction false} Concat<T>(s: State<T>, a: seq<Event<T>>, b: seq<Event<T>>)
    requires Possible(s, a) && Possible(After(s, a), b)
    ensures Possible(s, a + b) && After(s, a + b) == After(After(s, a), b)
    decreases |a|
  {
    hide Enabled, Next;
    if a == [] {
      assert a + b == b;
    } else {
      assert (a + b)[1..] == a[1..] + b;
      Concat(Next(s, a[0]), a[1..], b);
    }
  }

  /** Thread `t` is between two calls, and no mutex is locked. */
  ghost predicate Quiet<T>(s: State<T>, t: nat) {
    ThreadAt(s, t) == Thread(Return, None) && s.mutexes == map[]
  }

  ghost predicate Unused<T>(s: State<T>, h: nat) {
    h !in s.handles && forall u: nat :: !Uses(s, u, h)
  }

  function FirstCode<T>(q: nat): Code<T> {
    Do(Acquire(q), Do(Start(q, F.StartConsume), Do(Release(q), Return)))
  }

  /** Thread `t` has begun its first consume with the new handle, and is left with `code`. */
  ghost predicate InFirst<T>(s: State<T>, s': State<T>, t: nat, h: nat, code: Code<T>, target: Option<nat>,
                             mutexes: map<nat, Lock>) {
    && s'.threads == s.threads[t := Thread(code, if code.Return? then None else Some(h))]
    && s'.mutexes == mutexes
    && h in s'.handles && s'.handles == s.handles[h := s'.handles[h]]
    && s'.handles[h].kind == Kind(false, true) && s'.handles[h].lock.None? && s'.handles[h].target == target
  }

  lemma FirstBegins<T>(s: State<T>, t: nat, h: nat, q: nat)
    requires Quiet(s, t) && Unused(s, h)
    ensures Enabled(s, Invoke(t, StartConsume(q, h, true)))
    ensures InFirst(s, Next(s, Invoke(t, StartConsume(q, h, true))), t, h, FirstCode(q), None, map[])
  {
  }

  lemma FirstStep<T>(s: State<T>, s': State<T>, t: nat, h: nat, m: Micro<T>, next: Code<T>, target: Option<nat>,
                     mutexes: map<nat, Lock>, q: nat)
    requires InFirst(s, s', t, h, Do(m, next), target, mutexes)
    requires m == Acquire(q) || m == Start(q, F.StartConsume) || m == Release(q)
    requires m.Acquire? ==> mutexes == map[]
    ensures Enabled(s', Advance(t, false))
    ensures InFirst(s, Next(s', Advance(t, false)), t, h, next, if m.Start? then Some(q) else target,
                    if m.Acquire? then mutexes[q := Lock(t, None)] else if m.Release? then mutexes - {q} else mutexes)
  {
    hide QueuesAfter, Begun;
  }

  lemma FourEvents<T>(s: State<T>, a: Event<T>, b: Event<T>, c: Event<T>, d: Event<T>) returns (run: seq<Event<T>>)
    requires Enabled(s, a) && Enabled(Next(s, a), b)
    requires Enabled(Next(Next(s, a), b), c) && Enabled(Next(Next(Next(s, a), b), c), d)
    ensures Possible(s, run) && After(s, run) == Next(Next(Next(Next(s, a), b), c), d)
  {
    hide Enabled, Next;
    run := [];
    Extend(s, run, a);
    run := run + [a];
    Extend(s, run, b);
    run := run + [b];
    Extend(s, run, c);
    run := run + [c];
    Extend(s, run, d);
    run := run + [d];
  }

  /** Starting a reentrant consume with a new handle leaves the handle pointing to the queue, whether or not
      the queue is empty. */
  lemma FirstConsume<T>(s: State<T>, t: nat, h: nat, q: nat) returns (run: seq<Event<T>>)
    requires Quiet(s, t) && Unused(s, h)
    ensures Possible(s, run) && InFirst(s, After(s, run), t, h, Return, Some(q), map[])
  {
    var step: Event<T> := Advance(t, false);
    var first: Event<T> := Invoke(t, StartConsume(q, h, true));
    var s1 := Next(s, first);
    var release: Code<T> := Do(Release(q), Return);
    FirstBegins(s, t, h, q);
    FirstStep(s, s1, t, h, Acquire(q), Do(Start(q, F.StartConsume), release), None, map[], q);
    var s2 := Next(s1, step);
    var owned: map<nat, Lock> := map[q := Lock(t, None)];
    FirstStep(s, s2, t, h, Start(q, F.StartConsume), release, None, owned, q);
    var s3 := Next(s2, step);
    FirstStep(s, s3, t, h, Release(q), Return, Some(q), owned, q);
    hide Next, Enabled, Quiet, Unused;
    assert owned - {q} == map[];
    run := FourEvents(s, first, step, step, step);
  }

  /** After one consume of each of two threads, each on a queue of its own, both can start another one with
      the same handle on the queue of the other. */
  lemma SwappedFromStart<T>() returns (run: seq<Event<T>>)
    ensures Possible(Initial<T>(), run) && LocksOk(After(Initial<T>(), run), false)
    ensures var s := After(Initial<T>(), run);
            var c: Call<T>, d: Call<T> := StartConsume(1, 0, true), StartConsume(0, 1, true);
            s.mutexes == map[] && Allowed(s, 0, c) && Allowed(s, 1, d) && Swapped(s, c, d)
  {
    var s0 := Initial<T>();
    var first := FirstConsume(s0, 0, 0, 0);
    var s1 := After(s0, first);
    var second := FirstConsume(s1, 1, 1, 1);
    var s2 := After(s1, second);
    InitialLocks<T>();
    hide LocksOk;
    RunKeepsLocks(s0, first);
    RunKeepsLocks(s1, second);
    Concat(s0, first, second);
    run := first + second;
  }

  /** Then they wait for each other, whatever else is done. */
  lemma CycleFromStart<T>() returns (run: seq<Event<T>>)
    ensures Possible(Initial<T>(), run) && WaitCycle(After(Initial<T>(), run), [0, 1])
    ensures forall more :: Possible(After(Initial<T>(), run), more) ==>
              WaitCycle(After(After(Initial<T>(), run), more), [0, 1])
  {
    hide Next, Allowed, LocksOk, WaitCycle, Swapped, OnlySteps;
    var s0 := Initial<T>();
    run := SwappedFromStart<T>();
    var s2 := After(s0, run);
    var c: Call<T>, d: Call<T> := StartConsume(1, 0, true), StartConsume(0, 1, true);
    SwappedExactly(s2, 0, c, 1, d);
    var third :| LeadsToCycle(BothBegun(s2, 0, c, 1, d), third, 0, 1);
    Extend(s0, run, Invoke(0, c));
    run := run + [Invoke(0, c)];
    Extend(s0, run, Invoke(1, d));
    run := run + [Invoke(1, d)];
    Concat(s0, run, third);
    run := run + third;
    InitialLocks<T>();
    RunKeepsLocks(s0, run);
    forall more | Possible(After(s0, run), more) ensures WaitCycle(After(After(s0, run), more), [0, 1]) {
      CycleForever(After(s0, run), more, [0, 1]);
    }
  }
}
