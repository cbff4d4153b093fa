/** The concurrent queue: a queue behind a mutex. Threads call its functions and the member functions of
    its handles; every call is a sequence of small steps, and the steps of different threads interleave
    in any way. Any number of threads, queues and handles. */
module ConcModel {
  import opened Options
  import F = Fifo

  // ---- state ------------------------------------------------------------------------------------------

  datatype Kind = Kind(put: bool, reentrant: bool)

  /** The sequential handle inside a handle: the queue and the element it is bound to. */
  datatype Inner = Inner(queue: nat, id: nat)

  /** A put transaction or a consume operation. A non-reentrant one has a lock object, which owns the
      mutex of a queue or none; a reentrant one remembers its target queue. */
  datatype Handle = Handle(kind: Kind, lock: Option<nat>, target: Option<nat>, inner: Option<Inner>)

  /** A locked mutex: the thread that locked it and the lock object that owns it, which is a local
      variable of the running call or belongs to a handle. */
  datatype Lock = Lock(thread: nat, holder: Option<nat>)

  /** The sequential queue behind a mutex, the operations it went through, and whether its state is still
      defined: it no longer is after an access without the mutex or against the sequential contract. */
  datatype Queue<+T> = Queue(fifo: F.State<T>, log: seq<F.Op<T>>, defined: bool)

  /** `Keep` moves the local lock into the handle, or releases it if the handle is empty; `Drop` releases
      the lock of the handle. `Start`, `Finish`, `RawAllocate`, `Clear` and `IsEmpty` access the queue. */
  datatype Micro<+T> =
    | Acquire(queue: nat)
    | Release(queue: nat)
    | Keep(queue: nat)
    | Drop
    | Start(queue: nat, op: F.Op<T>)
    | Finish(commit: bool)
    | RawAllocate
    | Clear(queue: nat)
    | IsEmpty(queue: nat)

  datatype Code<+T> = Return | Do(step: Micro<T>, next: Code<T>)

  /** What remains of the call a thread is in, and the handle the call is about. */
  datatype Thread<+T> = Thread(code: Code<T>, handle: Option<nat>)

  datatype State<+T> = State(threads: map<nat, Thread<T>>, handles: map<nat, Handle>, mutexes: map<nat, Lock>,
                             queues: map<nat, Queue<T>>)

  const NO_HANDLE := Handle(Kind(false, true), None, None, None)

  ghost function ThreadAt<T>(s: State<T>, t: nat): Thread<T> {
    if t in s.threads then s.threads[t] else Thread(Return, None)
  }

  ghost function HandleAt<T>(s: State<T>, h: nat): Handle {
    if h in s.handles then s.handles[h] else NO_HANDLE
  }

  ghost function QueueAt<T>(s: State<T>, q: nat): Queue<T> {
    if q in s.queues then s.queues[q] else Queue(F.Empty(), [], true)
  }

  /** The handle the running call of a thread is about. */
  ghost function Current<T>(s: State<T>, t: nat): Handle {
    match ThreadAt(s, t).handle
    case None => NO_HANDLE
    case Some(h) => HandleAt(s, h)
  }

  ghost predicate Uses<T>(s: State<T>, t: nat, h: nat) {
    ThreadAt(s, t).handle == Some(h)
  }

  ghost predicate Owns<T>(s: State<T>, t: nat, q: nat) {
    q in s.mutexes && s.mutexes[q].thread == t
  }

  /** The mutexes owned by local variables of the call a thread is in. */
  ghost function Locals<T>(s: State<T>, t: nat): set<nat> {
    set q | q in s.mutexes && s.mutexes[q] == Lock(t, None)
  }

  ghost function Bound(hd: Handle): Option<nat> {
    if hd.inner.Some? then Some(hd.inner.value.queue) else None
  }

  // ---- calls ------------------------------------------------------------------------------------------

  datatype Call<+T> =
    | StartPut(queue: nat, handle: nat, value: T, reentrant: bool)
    | StartConsume(queue: nat, handle: nat, reentrant: bool)
    | End(handle: nat, commit: bool)
    | AllocateRaw(handle: nat)
    | ClearQueue(queue: nat)
    | TestEmpty(queue: nat)

  function HandleOf<T>(c: Call<T>): Option<nat> {
    if c.ClearQueue? || c.TestEmpty? then None else Some(c.handle)
  }

  function KindOf<T>(c: Call<T>): Kind
    requires c.StartPut? || c.StartConsume?
  {
    Kind(c.StartPut?, c.reentrant)
  }

  /** The steps of a call on a handle. */
  function CodeOf<T>(c: Call<T>, hd: Handle): Code<T> {
    match c
    case StartPut(q, _, v, reentrant) =>
      Do(Acquire(q), Do(Start(q, F.StartPut(v, reentrant)), Do(if reentrant then Release(q) else Keep(q), Return)))
    case StartConsume(q, _, false) =>
      var start := Do(Acquire(q), Do(Start(q, F.StartConsume), Do(Keep(q), Return)));
      if hd.lock.Some? then Do(Finish(false), Do(Drop, start)) else start
    case StartConsume(q, _, true) => Rebind(q, hd)
    case End(_, commit) =>
      if hd.kind.reentrant then Locked(hd, Finish(commit)) else Do(Finish(commit), Do(Drop, Return))
    case AllocateRaw(_) => if hd.kind.reentrant then Locked(hd, RawAllocate) else Do(RawAllocate, Return)
    case ClearQueue(q) => Do(Acquire(q), Do(Clear(q), Do(Release(q), Return)))
    case TestEmpty(q) => Do(Acquire(q), Do(IsEmpty(q), Do(Release(q), Return)))
  }

  /** One access under the lock of the queue a reentrant handle points to. */
  function Locked<T>(hd: Handle, m: Micro<T>): Code<T> {
    if hd.target.Some? then Do(Acquire(hd.target.value), Do(m, Do(Release(hd.target.value), Return))) else Do(m, Return)
  }

  /** Starting a reentrant consume with an existing handle. It locks the queue of the handle, and the new
      queue if it is a different one; then it cancels the old operation, and the lock of the new queue
      takes the place of the lock of the old one. */
  function Rebind<T>(q: nat, hd: Handle): Code<T> {
    var same := hd.target == Some(q);
    var start := Do(Start(q, F.StartConsume), if same then Return else Do(Release(q), Return));
    var unlock := if hd.target.Some? then Do(Release(hd.target.value), start) else start;
    var cancel := if hd.inner.Some? then Do(Finish(false), unlock) else unlock;
    var lock := if same then cancel else Do(Acquire(q), cancel);
    if hd.target.Some? then Do(Acquire(hd.target.value), lock) else lock
  }

  ghost predicate OwnedBy<T>(s: State<T>, hd: Handle, t: nat) {
    hd.lock.Some? ==> Owns(s, t, hd.lock.value)
  }

  /** What the callers must respect: a thread makes one call at a time, a handle is used by one thread at a
      time, and a non-reentrant handle by the thread whose lock it contains; empty handles can't be
      committed, canceled or asked for raw blocks. */
  ghost predicate Allowed<T>(s: State<T>, t: nat, c: Call<T>) {
    && ThreadAt(s, t).code.Return?
    && (HandleOf(c).Some? ==> forall u: nat :: !Uses(s, u, c.handle))
    && match c
       case StartPut(_, h, _, _) => h !in s.handles
       case StartConsume(_, h, _) =>
         h !in s.handles || (s.handles[h].kind == KindOf(c) && OwnedBy(s, s.handles[h], t))
       case End(h, _) => h in s.handles && s.handles[h].inner.Some? && OwnedBy(s, s.handles[h], t)
       case AllocateRaw(h) =>
         h in s.handles && s.handles[h].inner.Some? && s.handles[h].kind.put && OwnedBy(s, s.handles[h], t)
       case ClearQueue(_) => true
       case TestEmpty(_) => true
  }

  /** Not a reentrant consume that starts on the queue its handle already points to. */
  ghost predicate Harmless<T>(s: State<T>, c: Call<T>) {
    c.StartConsume? && c.reentrant ==> HandleAt(s, c.handle).target != Some(c.queue)
  }

  // ---- steps ------------------------------------------------------------------------------------------

  /** The sequential queue after a thread has performed operations on it. */
  ghost function Access<T>(s: State<T>, t: nat, q: nat, ops: seq<F.Op<T>>): Queue<T> {
    var k := QueueAt(s, q);
    if Owns(s, t, q) && F.CanRun(k.fifo, ops) then Queue(F.Run(k.fifo, ops), k.log + ops, k.defined)
    else k.(defined := false)
  }

  ghost function SetCurrent<T>(s: State<T>, t: nat, hd: Handle): map<nat, Handle> {
    match ThreadAt(s, t).handle
    case None => s.handles
    case Some(h) => s.handles[h := hd]
  }

  /** The sequential handle a started operation gives. */
  ghost function Begun<T>(fifo: F.State<T>, q: nat, op: F.Op<T>): Option<Inner> {
    var i := F.FirstReady(fifo.live);
    if op.StartPut? then Some(Inner(q, fifo.nextId))
    else if i < |fifo.live| then Some(Inner(q, fifo.live[i].item.id))
    else None
  }

  function Ending<T>(kind: Kind, id: nat, commit: bool): F.Op<T> {
    if kind.put then (if commit then F.CommitPut(id) else F.CancelPut(id))
    else (if commit then F.CommitConsume(id) else F.CancelConsume(id))
  }

  ghost function Clearing<T>(fifo: F.State<T>): seq<F.Op<T>> {
    if F.NoOpen(fifo.live) && F.Ordered(fifo.live, fifo.nextId) then F.ClearOps(fifo) else [F.StartConsume]
  }

  ghost function MutexesAfter<T>(s: State<T>, t: nat, m: Micro<T>): map<nat, Lock> {
    var hd := Current(s, t);
    match m
    case Acquire(q) => s.mutexes[q := Lock(t, None)]
    case Release(q) => s.mutexes - {q}
    case Keep(q) => if hd.inner.Some? then s.mutexes[q := Lock(t, ThreadAt(s, t).handle)] else s.mutexes - {q}
    case Drop => if hd.lock.Some? then s.mutexes - {hd.lock.value} else s.mutexes
    case _ => s.mutexes
  }

  /** The handle of the call after a step. A put that fails leaves it empty; a finished one empties it. */
  ghost function HandleAfter<T>(s: State<T>, hd: Handle, m: Micro<T>, fails: bool): Handle {
    match m
    case Keep(q) => if hd.inner.Some? then hd.(lock := Some(q)) else hd
    case Drop => hd.(lock := None)
    case Start(q, op) =>
      if fails && op.StartPut? then hd
      else hd.(inner := Begun(QueueAt(s, q).fifo, q, op), target := if hd.kind.reentrant then Some(q) else None)
    case Finish(_) => hd.(inner := None, target := if hd.kind.put then None else hd.target)
    case _ => hd
  }

  ghost function QueuesAfter<T>(s: State<T>, t: nat, m: Micro<T>, fails: bool): map<nat, Queue<T>> {
    var hd := Current(s, t);
    match m
    case Start(q, op) => s.queues[q := Access(s, t, q, if fails && op.StartPut? then [] else [op])]
    case Finish(commit) =>
      if hd.inner.None? then s.queues
      else
        var ops := [Ending(hd.kind, hd.inner.value.id, commit)];
        s.queues[hd.inner.value.queue := Access(s, t, hd.inner.value.queue, ops)]
    case RawAllocate =>
      if hd.inner.None? then s.queues
      else s.queues[hd.inner.value.queue := Access(s, t, hd.inner.value.queue, [])]
    case Clear(q) => s.queues[q := Access(s, t, q, Clearing(QueueAt(s, q).fifo))]
    case IsEmpty(q) => s.queues[q := Access(s, t, q, [])]
    case _ => s.queues
  }

  /** Starting a put may fail, and then has no effect. */
  datatype Event<+T> = Invoke(thread: nat, call: Call<T>) | Advance(thread: nat, fails: bool)

  /** A thread at an `Acquire` waits until the mutex is free. */
  ghost predicate Enabled<T>(s: State<T>, e: Event<T>) {
    match e
    case Invoke(t, c) => Allowed(s, t, c)
    case Advance(t, _) =>
      var code := ThreadAt(s, t).code;
      code.Do? && (code.step.Acquire? ==> code.step.queue !in s.mutexes)
  }

  ghost function Created<T>(s: State<T>, c: Call<T>): map<nat, Handle> {
    if (c.StartPut? || c.StartConsume?) && c.handle !in s.handles then
      s.handles[c.handle := Handle(KindOf(c), None, None, None)]
    else s.handles
  }

  function Rest<T>(th: Thread<T>): Thread<T>
    requires th.code.Do?
  {
    if th.code.next.Return? then Thread(Return, None) else Thread(th.code.next, th.handle)
  }

  ghost function Next<T>(s: State<T>, e: Event<T>): State<T>
    requires Enabled(s, e)
  {
    match e
    case Invoke(t, c) =>
      var s' := s.(handles := Created(s, c));
      var hd := if HandleOf(c).Some? then HandleAt(s', c.handle) else NO_HANDLE;
      s'.(threads := s.threads[t := Thread(CodeOf(c, hd), HandleOf(c))])
    case Advance(t, fails) =>
      var th := ThreadAt(s, t);
      var m := th.code.step;
      State(s.threads[t := Rest(th)], SetCurrent(s, t, HandleAfter(s, Current(s, t), m, fails)), MutexesAfter(s, t, m),
            QueuesAfter(s, t, m, fails))
  }

  // ---- runs -------------------------------------------------------------------------------------------

  ghost predicate Possible<T>(s: State<T>, run: seq<Event<T>>)
    decreases |run|
  {
    run == [] || (Enabled(s, run[0]) && Possible(Next(s, run[0]), run[1..]))
  }

  ghost function After<T>(s: State<T>, run: seq<Event<T>>): State<T>
    requires Possible(s, run)
    decreases |run|
  {
    if run == [] then s else After(Next(s, run[0]), run[1..])
  }

  /** No call of the run starts a reentrant consume on the queue its handle already points to. */
  ghost predicate AllHarmless<T>(s: State<T>, run: seq<Event<T>>)
    requires Possible(s, run)
    decreases |run|
  {
    run == [] ||
    ((run[0].Invoke? ==> Harmless(s, run[0].call)) && AllHarmless(Next(s, run[0]), run[1..]))
  }

  ghost function Initial<T>(): State<T> {
    State(map[], map[], map[], map[])
  }
}
