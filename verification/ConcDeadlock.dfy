/** When threads wait for each other forever. A thread waits while it is at an `Acquire` of a mutex that
    is owned; the mutexes it owns meanwhile, through its handles or its call, are those others wait for. */
module ConcDeadlock {
  import opened Options
  import opened ConcModel
  import opened ConcDiscipline
  import F = Fifo

  // ---- waiting ----------------------------------------------------------------------------------------

  ghost function Owned<T>(s: State<T>, t: nat): set<nat> {
    set q | q in s.mutexes && s.mutexes[q].thread == t
  }

  ghost predicate AtAcquire<T>(s: State<T>, t: nat) {
    ThreadAt(s, t).code.Do? && ThreadAt(s, t).code.step.Acquire?
  }

  /** The mutex thread `t` is about to lock. */
  ghost function Wanted<T>(s: State<T>, t: nat): nat
    requires AtAcquire(s, t)
  {
    ThreadAt(s, t).code.step.queue
  }

  ghost predicate Blocked<T>(s: State<T>, t: nat) {
    AtAcquire(s, t) && Wanted(s, t) in s.mutexes
  }

  /** Thread `t` is blocked by a mutex of thread `u`, whoever holds its lock. */
  ghost predicate WaitsOn<T>(s: State<T>, t: nat, u: nat) {
    AtAcquire(s, t) && Wanted(s, t) in Owned(s, u)
  }

  function Following(i: nat, n: nat): nat {
    if i + 1 < n then i + 1 else 0
  }

  /** Each thread waits on the following one, and the last one on the first. */
  ghost predicate WaitCycle<T>(s: State<T>, ts: seq<nat>) {
    ts != [] && forall i :: 0 <= i < |ts| ==> WaitsOn(s, ts[i], ts[Following(i, |ts|)])
  }

  // ---- demands ------------------------------------------------------------------------------------------

  function HeldAfter<T>(m: Micro<T>, held: set<nat>, lock: Option<nat>): set<nat> {
    match m
    case Acquire(q) => held + {q}
    case Release(q) => held - {q}
    case Drop => if lock.Some? then held - {lock.value} else held
    case _ => held
  }

  function LockLeft<T>(m: Micro<T>, lock: Option<nat>): Option<nat> {
    if m.Keep? || m.Drop? then None else lock
  }

  /** The pairs of a mutex that is owned and a mutex that is wanted, over the steps still to run. */
  ghost function Demands<T>(code: Code<T>, held: set<nat>, lock: Option<nat>): set<(nat, nat)> {
    match code
    case Return => {}
    case Do(m, next) =>
      (if m.Acquire? then set x | x in held :: (x, m.queue) else {})
      + Demands(next, HeldAfter(m, held, lock), LockLeft(m, lock))
  }

  ghost function DemandsAt<T>(s: State<T>, t: nat): set<(nat, nat)> {
    Demands(ThreadAt(s, t).code, Owned(s, t), Current(s, t).lock)
  }

  lemma {:induction false} DemandsMonotone<T>(code: Code<T>, held: set<nat>, lock: Option<nat>, held': set<nat>,
                                              lock': Option<nat>)
    requires held' <= held && (lock.None? || lock == lock')
    ensures Demands(code, held', lock') <= Demands(code, held, lock)
  {
    if code.Do? {
      var m := code.step;
      DemandsMonotone(code.next, HeldAfter(m, held, lock), LockLeft(m, lock), HeldAfter(m, held', lock'),
                      LockLeft(m, lock'));
    }
  }

  /** A step of one thread changes neither what the others own nor their demands. */
  lemma OthersOwn<T>(s: State<T>, t: nat, fails: bool, u: nat)
    requires LocksOk(s, false) && Enabled(s, Advance(t, fails)) && u != t
    ensures Owned(Next(s, Advance(t, fails)), u) == Owned(s, u)
    ensures DemandsAt(Next(s, Advance(t, fails)), u) == DemandsAt(s, u)
  {
    hide QueuesAfter, HandleAfter, Guarded, Demands;
    OwnLock(s, t, false);
    Steps(s, t, fails, false);
    OthersKept(s, t, fails, u, false);
    hide LocksOk;
  }

  /** A step of a thread meets some of its own demands and adds none. */
  lemma DemandsShrink<T>(s: State<T>, t: nat, fails: bool)
    requires LocksOk(s, false) && Enabled(s, Advance(t, fails))
    ensures DemandsAt(Next(s, Advance(t, fails)), t) <= DemandsAt(s, t)
  {
    hide Guarded;
    OwnLock(s, t, false);
    Steps(s, t, fails, false);
    hide LocksOk;
    var s' := Next(s, Advance(t, fails));
    var m, next := ThreadAt(s, t).code.step, ThreadAt(s, t).code.next;
    var held, lock := Owned(s, t), Current(s, t).lock;
    if next.Do? {
      OwnedAfter(s, t, fails);
      hide Next;
      DemandsMonotone(next, HeldAfter(m, held, lock), LockLeft(m, lock), Owned(s', t), Current(s', t).lock);
    }
  }

  lemma OwnedAfter<T>(s: State<T>, t: nat, fails: bool)
    requires Enabled(s, Advance(t, fails)) && ThreadAt(s, t).code.next.Do?
    requires ThreadAt(s, t).code.step.Keep? ==> ThreadAt(s, t).code.step.queue in Owned(s, t)
    ensures var s' := Next(s, Advance(t, fails));
            var m, lock := ThreadAt(s, t).code.step, Current(s, t).lock;
            && ThreadAt(s', t).code == ThreadAt(s, t).code.next
            && Owned(s', t) <= HeldAfter(m, Owned(s, t), lock)
            && (LockLeft(m, lock).None? || LockLeft(m, lock) == Current(s', t).lock)
  {
    hide QueuesAfter, Begun;
  }

  // ---- the locks of every run ---------------------------------------------------------------------------

  lemma InitialLocks<T>()
    ensures LocksOk(Initial<T>(), false)
  {
    var s := Initial<T>();
    forall t: nat ensures GuardedAt(s, t, false) {
      assert Locals(s, t) == {};
    }
  }

  /** Every run, harmless or not, releases what it acquires. */
  lemma {:induction false} RunKeepsLocks<T>(s: State<T>, run: seq<Event<T>>)
    requires LocksOk(s, false) && Possible(s, run)
    ensures LocksOk(After(s, run), false)
    decreases |run|
  {
    hide Next, Enabled, LocksOk;
    if run != [] {
      EventKeepsLocks(s, run[0]);
      RunKeepsLocks(Next(s, run[0]), run[1..]);
    }
  }

  lemma EventKeepsLocks<T>(s: State<T>, e: Event<T>)
    requires LocksOk(s, false) && Enabled(s, e)
    ensures LocksOk(Next(s, e), false)
  {
    hide LocksOk, Next, Enabled;
    match e
    case Invoke(t, c) => InvokeKeepsLocks(s, t, c, false);
    case Advance(t, fails) => AdvanceKeepsLocks(s, t, fails, false);
  }

  // ---- a cycle is forever ---------------------------------------------------------------------------------

  lemma CycleStays<T>(s: State<T>, e: Event<T>, ts: seq<nat>)
    requires LocksOk(s, false) && Enabled(s, e) && WaitCycle(s, ts)
    ensures WaitCycle(Next(s, e), ts)
  {
    var s' := Next(s, e);
    forall i | 0 <= i < |ts| ensures WaitsOn(s', ts[i], ts[Following(i, |ts|)]) {
      assert WaitsOn(s, ts[i], ts[Following(i, |ts|)]);
      WaitStays(s, e, ts[i], ts[Following(i, |ts|)], ts[Following(Following(i, |ts|), |ts|)]);
    }
  }

  /** A thread keeps waiting while the thread it waits on waits itself. */
  lemma WaitStays<T>(s: State<T>, e: Event<T>, t: nat, u: nat, v: nat)
    requires LocksOk(s, false) && Enabled(s, e) && WaitsOn(s, t, u) && WaitsOn(s, u, v)
    ensures WaitsOn(Next(s, e), t, u)
  {
    hide QueuesAfter, HandleAfter, CodeOf, Guarded;
    if e.Advance? {
      OthersKept(s, e.thread, e.fails, t, false);
      OthersOwn(s, e.thread, e.fails, u);
      hide Next, LocksOk;
    }
  }

  /** Nothing that any thread does ends a cycle. */
  lemma {:induction false} CycleForever<T>(s: State<T>, run: seq<Event<T>>, ts: seq<nat>)
    requires LocksOk(s, false) && Possible(s, run) && WaitCycle(s, ts)
    ensures WaitCycle(After(s, run), ts)
    decreases |run|
  {
    hide Next, Enabled, LocksOk, WaitCycle;
    if run != [] {
      EventKeepsLocks(s, run[0]);
      CycleStays(s, run[0], ts);
      CycleForever(Next(s, run[0]), run[1..], ts);
    }
  }

  // ---- what a call demands ------------------------------------------------------------------------------

  ghost function HandleIn<T>(s: State<T>, c: Call<T>): Handle {
    if HandleOf(c).Some? then HandleAt(s.(handles := Created(s, c)), c.handle) else NO_HANDLE
  }

  /** The mutexes a call locks, in order. */
  function LocksOf<T>(c: Call<T>, hd: Handle): seq<nat> {
    match c
    case StartPut(q, _, _, _) => [q]
    case StartConsume(q, _, reentrant) =>
      if reentrant && hd.target.Some? && hd.target != Some(q) then [hd.target.value, q] else [q]
    case End(_, _) => if hd.kind.reentrant && hd.target.Some? then [hd.target.value] else []
    case AllocateRaw(_) => if hd.kind.reentrant && hd.target.Some? then [hd.target.value] else []
    case ClearQueue(q) => [q]
    case TestEmpty(q) => [q]
  }

  /** The mutexes the thread owns while the call locks these. A non-reentrant consume that is started again
      gives back its own first. */
  ghost function KeptBy<T>(s: State<T>, t: nat, c: Call<T>): set<nat> {
    var lock := HandleIn(s, c).lock;
    if c.StartConsume? && !c.reentrant && lock.Some? then Owned(s, t) - {lock.value} else Owned(s, t)
  }

  /** The pair is a mutex that the thread of the call owns when the call wants the other one. */
  ghost predicate Demanded<T>(s: State<T>, t: nat, c: Call<T>, x: nat, y: nat) {
    var locks := LocksOf(c, HandleIn(s, c));
    (x in KeptBy(s, t, c) && y in locks) || (|locks| == 2 && x == locks[0] && y == locks[1])
  }

  lemma CallDemands<T>(s: State<T>, t: nat, c: Call<T>)
    requires Allowed(s, t, c)
    ensures forall x: nat, y: nat :: (x, y) in DemandsAt(Next(s, Invoke(t, c)), t) <==> Demanded(s, t, c, x, y)
  {
    var s', hd := Next(s, Invoke(t, c)), HandleIn(s, c);
    var held := Owned(s, t);
    assert Owned(s', t) == held && Current(s', t) == hd;
    hide Next, Allowed;
    CodeDemands(c, hd, held);
  }

  lemma FewSteps<T>(a: Micro<T>, b: Micro<T>)
    requires !a.Acquire? && !b.Acquire?
    ensures !Locks(Do(a, Do(b, Return))) && !Locks(Do(a, Return))
  {
    assert !Locks(Do(b, Return));
  }

  lemma CodeDemands<T>(c: Call<T>, hd: Handle, held: set<nat>)
    ensures var locks := LocksOf(c, hd);
            var kept := if c.StartConsume? && !c.reentrant && hd.lock.Some? then held - {hd.lock.value} else held;
            forall x: nat, y: nat :: (x, y) in Demands(CodeOf(c, hd), held, hd.lock) <==>
              (x in kept && y in locks) || (|locks| == 2 && x == locks[0] && y == locks[1])
  {
    hide Demands;
    match c
    case StartPut(q, _, v, reentrant) =>
      FewSteps(Start(q, F.StartPut(v, reentrant)), if reentrant then Release(q) else Keep(q));
      LockOnce(CodeOf(c, hd), held, hd.lock);
    case StartConsume(q, _, false) =>
      var start: Code<T> := Do(Acquire(q), Do(Start(q, F.StartConsume), Do(Keep(q), Return)));
      FewSteps<T>(Start(q, F.StartConsume), Keep(q));
      if hd.lock.Some? {
        LockOnce(start, held - {hd.lock.value}, None);
        PassOver(Finish(false), Do(Drop, start), held, hd.lock);
        PassOver(Drop, start, held, hd.lock);
      } else {
        LockOnce(start, held, hd.lock);
      }
    case StartConsume(q, _, true) => RebindDemands<T>(q, hd, held);
    case End(_, commit) =>
      FewSteps<T>(Finish(commit), if hd.kind.reentrant && hd.target.Some? then Release(hd.target.value) else Drop);
      if hd.kind.reentrant && hd.target.Some? {
        LockOnce(CodeOf(c, hd), held, hd.lock);
      } else {
        NoLocks(CodeOf(c, hd), held, hd.lock);
      }
    case AllocateRaw(_) =>
      FewSteps<T>(RawAllocate, if hd.kind.reentrant && hd.target.Some? then Release(hd.target.value) else Drop);
      if hd.kind.reentrant && hd.target.Some? {
        LockOnce(CodeOf(c, hd), held, hd.lock);
      } else {
        NoLocks(CodeOf(c, hd), held, hd.lock);
      }
    case ClearQueue(q) =>
      FewSteps<T>(Clear(q), Release(q));
      LockOnce(CodeOf(c, hd), held, hd.lock);
    case TestEmpty(q) =>
      FewSteps<T>(IsEmpty(q), Release(q));
      LockOnce(CodeOf(c, hd), held, hd.lock);
  }

  lemma RebindDemands<T>(q: nat, hd: Handle, held: set<nat>)
    ensures var two := hd.target.Some? && hd.target != Some(q);
            forall x: nat, y: nat :: (x, y) in Demands(Rebind<T>(q, hd), held, hd.lock) <==>
              (x in held && (y == q || (two && y == hd.target.value))) || (two && x == hd.target.value && y == q)
  {
    hide Demands;
    var code := Rebind<T>(q, hd);
    var start: Code<T> := Do(Start(q, F.StartConsume), if hd.target == Some(q) then Return else Do(Release(q), Return));
    FewSteps<T>(Start(q, F.StartConsume), Release(q));
    assert !Locks(start);
    var unlock := if hd.target.Some? then Do(Release(hd.target.value), start) else start;
    assert !Locks(unlock);
    if hd.target.Some? && hd.target != Some(q) {
      Unroll(code, held, hd.lock);
      LockOnce(code.next, held + {hd.target.value}, hd.lock);
    } else {
      LockOnce(code, held, hd.lock);
    }
  }

  function Locks<T>(code: Code<T>): bool {
    code.Do? && (code.step.Acquire? || Locks(code.next))
  }

  lemma {:induction false} NoLocks<T>(code: Code<T>, held: set<nat>, lock: Option<nat>)
    requires !Locks(code)
    ensures Demands(code, held, lock) == {}
  {
    if code.Do? {
      NoLocks(code.next, HeldAfter(code.step, held, lock), LockLeft(code.step, lock));
    }
  }

  lemma Unroll<T>(code: Code<T>, held: set<nat>, lock: Option<nat>)
    requires code.Do? && code.step.Acquire?
    ensures forall x: nat, y: nat :: (x, y) in Demands(code, held, lock) <==>
              (x in held && y == code.step.queue) || (x, y) in Demands(code.next, held + {code.step.queue}, lock)
  {
  }

  lemma LockOnce<T>(code: Code<T>, held: set<nat>, lock: Option<nat>)
    requires code.Do? && code.step.Acquire? && !Locks(code.next)
    ensures forall x: nat, y: nat :: (x, y) in Demands(code, held, lock) <==> x in held && y == code.step.queue
  {
    hide Demands;
    Unroll(code, held, lock);
    NoLocks(code.next, held + {code.step.queue}, lock);
  }

  lemma PassOver<T>(m: Micro<T>, next: Code<T>, held: set<nat>, lock: Option<nat>)
    requires !m.Acquire?
    ensures Demands(Do(m, next), held, lock) == Demands(next, HeldAfter(m, held, lock), LockLeft(m, lock))
  {
  }

  /** The rank of a mutex. */
  ghost function RankOf(rank: imap<nat, nat>, q: nat): nat {
    if q in rank then rank[q] else 0
  }

  /** A rule a caller can follow: given a rank for each mutex, a call only locks mutexes that rank above all
      those the thread owns, and moves a handle only to queues that rank above the one it points to. */
  ghost predicate Upward<T>(s: State<T>, t: nat, c: Call<T>, rank: imap<nat, nat>) {
    forall x: nat, y: nat :: Demanded(s, t, c, x, y) ==> RankOf(rank, x) < RankOf(rank, y)
  }

  ghost predicate AllUpward<T>(s: State<T>, run: seq<Event<T>>, rank: imap<nat, nat>)
    requires Possible(s, run)
    decreases |run|
  {
    run == [] ||
    ((run[0].Invoke? ==> Upward(s, run[0].thread, run[0].call, rank)) && AllUpward(Next(s, run[0]), run[1..], rank))
  }

  ghost predicate Ascending<T>(s: State<T>, t: nat, rank: imap<nat, nat>) {
    forall x: nat, y: nat :: (x, y) in DemandsAt(s, t) ==> RankOf(rank, x) < RankOf(rank, y)
  }

  lemma EventKeepsAscending<T>(s: State<T>, e: Event<T>, rank: imap<nat, nat>, t: nat)
    requires LocksOk(s, false) && Enabled(s, e) && Ascending(s, t, rank)
    requires e.Invoke? ==> Upward(s, e.thread, e.call, rank)
    ensures Ascending(Next(s, e), t, rank)
  {
    hide DemandsAt, Demanded;
    match e
    case Advance(u, fails) =>
      hide Next, Enabled, LocksOk;
      if t == u {
        DemandsShrink(s, t, fails);
      } else {
        OthersOwn(s, u, fails, t);
      }
    case Invoke(u, c) =>
      if t == u {
        hide Next, LocksOk;
        CallDemands(s, t, c);
      } else {
        InvokeElsewhere(s, u, c, t);
      }
  }

  /** A call changes neither what the other threads own nor their demands. */
  lemma InvokeElsewhere<T>(s: State<T>, u: nat, c: Call<T>, t: nat)
    requires LocksOk(s, false) && Allowed(s, u, c) && t != u
    ensures var s' := Next(s, Invoke(u, c));
            && ThreadAt(s', t) == ThreadAt(s, t) && Current(s', t) == Current(s, t)
            && Owned(s', t) == Owned(s, t) && DemandsAt(s', t) == DemandsAt(s, t)
  {
    hide Guarded, CodeOf, Demands;
    assert GuardedAt(s, t, false);
    assert HandleOf(c).Some? ==> !Uses(s, t, c.handle);
    hide LocksOk;
  }

  lemma {:induction false} RunKeepsAscending<T>(s: State<T>, run: seq<Event<T>>, rank: imap<nat, nat>)
    requires LocksOk(s, false) && Possible(s, run) && AllUpward(s, run, rank)
    requires forall t: nat :: Ascending(s, t, rank)
    ensures forall t: nat :: Ascending(After(s, run), t, rank)
    decreases |run|
  {
    hide Next, Enabled, LocksOk, Ascending, Upward;
    if run != [] {
      EventKeepsLocks(s, run[0]);
      forall t: nat ensures Ascending(Next(s, run[0]), t, rank) {
        EventKeepsAscending(s, run[0], rank, t);
      }
      RunKeepsAscending(Next(s, run[0]), run[1..], rank);
    }
  }

  // ---- no cycle -------------------------------------------------------------------------------------------

  /** Waiting demands everything the thread owns. */
  lemma WaitingDemands<T>(s: State<T>, t: nat, x: nat)
    requires AtAcquire(s, t) && x in Owned(s, t)
    ensures (x, Wanted(s, t)) in DemandsAt(s, t)
  {
  }

  /** In a cycle, each thread demands the mutex it waits for while it owns the one that the thread before
      it waits for. */
  lemma CycleDemands<T>(s: State<T>, ts: seq<nat>, i: nat)
    requires WaitCycle(s, ts) && i < |ts|
    ensures var j := Following(i, |ts|);
            && AtAcquire(s, ts[i]) && AtAcquire(s, ts[j])
            && (Wanted(s, ts[i]), Wanted(s, ts[j])) in DemandsAt(s, ts[j])
  {
    hide DemandsAt, Owned;
    var j := Following(i, |ts|);
    assert WaitsOn(s, ts[i], ts[j]) && WaitsOn(s, ts[j], ts[Following(j, |ts|)]);
    WaitingDemands(s, ts[j], Wanted(s, ts[i]));
  }

  lemma {:induction false} RanksRise<T>(s: State<T>, ts: seq<nat>, rank: imap<nat, nat>, i: nat)
    requires WaitCycle(s, ts) && i < |ts| && forall t: nat :: Ascending(s, t, rank)
    ensures AtAcquire(s, ts[0]) && AtAcquire(s, ts[i])
    ensures RankOf(rank, Wanted(s, ts[0])) + i <= RankOf(rank, Wanted(s, ts[i]))
    decreases i
  {
    hide WaitCycle, WaitsOn, DemandsAt, Wanted, AtAcquire;
    CycleDemands(s, ts, i);
    if i > 0 {
      RanksRise(s, ts, rank, i - 1);
      CycleDemands(s, ts, i - 1);
      assert Ascending(s, ts[i], rank);
    }
  }

  lemma NoCycle<T>(s: State<T>, ts: seq<nat>, rank: imap<nat, nat>)
    requires forall t: nat :: Ascending(s, t, rank)
    ensures !WaitCycle(s, ts)
  {
    hide Ascending, WaitsOn, DemandsAt, Wanted;
    if WaitCycle(s, ts) {
      var n := |ts| - 1;
      RanksRise(s, ts, rank, n);
      CycleDemands(s, ts, n);
      assert Ascending(s, ts[0], rank);
      RankBelow(s, ts[0], rank, Wanted(s, ts[n]), Wanted(s, ts[0]));
      assert false;
    }
  }

  lemma RankBelow<T>(s: State<T>, t: nat, rank: imap<nat, nat>, x: nat, y: nat)
    requires Ascending(s, t, rank) && (x, y) in DemandsAt(s, t)
    ensures RankOf(rank, x) < RankOf(rank, y)
  {
  }

  /** If all callers follow the rule, no threads, however many, ever wait for each other. */
  lemma NoDeadlock<T>(run: seq<Event<T>>, rank: imap<nat, nat>, ts: seq<nat>)
    requires Possible(Initial<T>(), run) && AllUpward(Initial<T>(), run, rank)
    ensures !WaitCycle(After(Initial<T>(), run), ts)
  {
    InitialLocks<T>();
    forall t: nat ensures Ascending(Initial<T>(), t, rank) {
      assert Owned(Initial<T>(), t) == {};
    }
    hide Ascending;
    RunKeepsAscending(Initial<T>(), run, rank);
    NoCycle(After(Initial<T>(), run), ts, rank);
  }

  // ---- waits end ------------------------------------------------------------------------------------------

  ghost function Above<T>(s: State<T>, rank: imap<nat, nat>, q: nat): set<nat> {
    set p | p in s.mutexes && RankOf(rank, p) > RankOf(rank, q)
  }

  /** Under the rule, whoever waits waits, over other waiting threads, on one that does not: it can take its
      next step, or it is between two calls and owns the mutex through a handle. */
  lemma WaitEnds<T>(s: State<T>, t: nat, rank: imap<nat, nat>) returns (path: seq<nat>)
    requires forall u: nat :: Ascending(s, u, rank)
    ensures path != [] && path[0] == t && !Blocked(s, path[|path| - 1])
    ensures forall i :: 0 <= i < |path| - 1 ==> WaitsOn(s, path[i], path[i + 1])
    decreases if Blocked(s, t) then |Above(s, rank, Wanted(s, t))| + 1 else 0
  {
    hide Ascending, DemandsAt;
    if !Blocked(s, t) {
      return [t];
    }
    var w := Wanted(s, t);
    var u := s.mutexes[w].thread;
    if Blocked(s, u) {
      var z := Wanted(s, u);
      WaitingDemands(s, u, w);
      assert Ascending(s, u, rank);
      RankBelow(s, u, rank, w, z);
      FewerAbove(s, rank, w, z);
    }
    var rest := WaitEnds(s, u, rank);
    path := [t] + rest;
  }

  lemma FewerAbove<T>(s: State<T>, rank: imap<nat, nat>, w: nat, z: nat)
    requires z in s.mutexes && RankOf(rank, w) < RankOf(rank, z)
    ensures |Above(s, rank, z)| < |Above(s, rank, w)|
  {
    var low, high := Above(s, rank, w), Above(s, rank, z);
    assert high <= low - {z};
    Subset(high, low - {z});
  }

  lemma {:induction false} Subset(a: set<nat>, b: set<nat>)
    requires a <= b
    ensures |a| <= |b|
    decreases a
  {
    if a != {} {
      var x :| x in a;
      Subset(a - {x}, b - {x});
    }
  }
}
