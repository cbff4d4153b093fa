/** Where queues are accessed without their mutex: starting a reentrant consume with a handle that already
    points to the same queue. */
module ConcRebind {
  import opened Options
  import opened ConcModel
  import opened ConcDiscipline
  import opened ConcQueues
  import F = Fifo

  // ---- a reentrant consume on the queue its handle points to -------------------------------------------

  lemma {:induction false} Extend<T>(s: State<T>, run: seq<Event<T>>, e: Event<T>)
    requires Possible(s, run) && Enabled(After(s, run), e)
    ensures Possible(s, run + [e]) && After(s, run + [e]) == Next(After(s, run), e)
    decreases |run|
  {
    hide Enabled, Next;
    if run == [] {
      assert run + [e] == [e];
      assert [e][1..] == run;
      assert Possible(Next(s, e), run);
    } else {
      assert (run + [e])[1..] == run[1..] + [e];
      Extend(Next(s, run[0]), run[1..], e);
    }
  }

  /** After the call, the steps already begun go on, and no other call is made. */
  ghost predicate OnlySteps<T>(run: seq<Event<T>>) {
    forall i :: 0 <= i < |run| ==> run[i].Advance?
  }

  ghost predicate CanBreak<T>(s: State<T>, run: seq<Event<T>>) {
    && OnlySteps(run) && Possible(s, run)
    && exists q: nat :: !QueueAt(After(s, run), q).defined
  }

  lemma {:induction false} OnlyStepsHarmless<T>(s: State<T>, run: seq<Event<T>>)
    requires Possible(s, run) && OnlySteps(run)
    ensures AllHarmless(s, run)
    decreases |run|
  {
    hide Enabled, Next;
    if run != [] {
      OnlyStepsHarmless(Next(s, run[0]), run[1..]);
    }
  }

  /** Starting a consume while the mutex is free can access a queue without its mutex exactly if it is a
      reentrant consume on the queue its handle already points to. */
  lemma RebindExactly<T>(s: State<T>, t: nat, c: Call<T>)
    requires Safe(s) && Allowed(s, t, c) && c.StartConsume? && c.queue !in s.mutexes
    ensures (exists run :: CanBreak(Next(s, Invoke(t, c)), run)) <==> !Harmless(s, c)
  {
    var s' := Next(s, Invoke(t, c));
    if Harmless(s, c) {
      hide Next, Safe;
      EventKeepsSafe(s, Invoke(t, c));
      forall run ensures !CanBreak(s', run) {
        if Possible(s', run) && OnlySteps(run) {
          StaysDefined(s', run);
        }
      }
    } else {
      var run := InPlaceBreaks(s, t, c);
      assert CanBreak(s', run);
    }
  }

  lemma StaysDefined<T>(s: State<T>, run: seq<Event<T>>)
    requires Safe(s) && Possible(s, run) && OnlySteps(run)
    ensures forall q: nat :: QueueAt(After(s, run), q).defined
  {
    hide Next, Enabled, LocksOk;
    OnlyStepsHarmless(s, run);
    RunSafe(s, run);
    forall q: nat ensures QueueAt(After(s, run), q).defined {
      assert Sequential(QueueAt(After(s, run), q));
    }
  }

  /** Thread `t` is left with the steps `code`, and the queue is not locked or is locked by the call. */
  ghost predicate At<T>(s: State<T>, t: nat, q: nat, code: Code<T>, locked: bool) {
    && ThreadAt(s, t).code == code
    && (if locked then q in s.mutexes else q !in s.mutexes)
  }

  lemma Stage<T>(s: State<T>, run: seq<Event<T>>, t: nat, q: nat, m: Micro<T>, next: Code<T>)
      returns (run': seq<Event<T>>)
    requires OnlySteps(run) && Possible(s, run) && next.Do?
    requires m == Acquire(q) || m == Release(q) || m == Finish(false)
    requires At(After(s, run), t, q, Do(m, next), !m.Acquire?)
    ensures OnlySteps(run') && Possible(s, run') && At(After(s, run'), t, q, next, !m.Release?)
  {
    hide Access;
    Extend(s, run, Advance(t, false));
    run' := run + [Advance(t, false)];
  }

  function FromUnlock<T>(q: nat): Code<T> {
    Do(Release(q), Do(Start(q, F.StartConsume), Return))
  }

  function InPlaceTail<T>(q: nat, hd: Handle): Code<T> {
    if hd.inner.Some? then Do(Finish(false), FromUnlock(q)) else FromUnlock(q)
  }

  lemma InPlaceBegins<T>(s: State<T>, t: nat, c: Call<T>)
    requires Allowed(s, t, c) && c.StartConsume? && c.queue !in s.mutexes && !Harmless(s, c)
    ensures At(Next(s, Invoke(t, c)), t, c.queue, Do(Acquire(c.queue), InPlaceTail(c.queue, HandleAt(s, c.handle))),
               false)
  {
  }

  lemma InPlaceBreaks<T>(s: State<T>, t: nat, c: Call<T>) returns (run: seq<Event<T>>)
    requires Allowed(s, t, c) && c.StartConsume? && c.queue !in s.mutexes && !Harmless(s, c)
    ensures CanBreak(Next(s, Invoke(t, c)), run)
  {
    InPlaceBegins(s, t, c);
    var s0 := Next(s, Invoke(t, c));
    var q, hd := c.queue, HandleAt(s, c.handle);
    hide Allowed, Enabled, Next, At, Harmless, QueueAt, HandleAt;
    run := [];
    assert After(s0, run) == s0;
    run := Stage(s0, run, t, q, Acquire(q), InPlaceTail(q, hd));
    if hd.inner.Some? {
      run := Stage(s0, run, t, q, Finish(false), FromUnlock(q));
    }
    run := Stage(s0, run, t, q, Release(q), Do(Start(q, F.StartConsume), Return));
    StartUnlocked(After(s0, run), t, q);
    Extend(s0, run, Advance(t, false));
    run := run + [Advance(t, false)];
  }

  lemma StartUnlocked<T>(s: State<T>, t: nat, q: nat)
    requires At(s, t, q, Do(Start(q, F.StartConsume), Return), false)
    ensures Enabled(s, Advance(t, false)) && !QueueAt(Next(s, Advance(t, false)), q).defined
  {
  }

  // The states of a run in which this goes wrong.

  ghost function Scene<T>(code: Code<T>, target: Option<nat>, mutexes: map<nat, Lock>, log: seq<F.Op<T>>): State<T> {
    State(map[0 := Thread(code, if code.Return? then None else Some(0))],
          map[0 := Handle(Kind(false, true), None, target, None)], mutexes,
          if log == [] then map[] else map[0 := Queue(F.Empty(), log, true)])
  }

  lemma SceneConsume<T>()
    ensures var consume: Call<T> := StartConsume(0, 0, true);
            var start: Code<T> := Do(Start(0, F.StartConsume), Do(Release(0), Return));
            var s1 := Scene(Do(Acquire(0), start), None, map[], []);
            Allowed(Initial(), 0, consume) && Next(Initial(), Invoke(0, consume)) == s1
  {
  }

  lemma SceneAcquire<T>(next: Code<T>, target: Option<nat>, log: seq<F.Op<T>>)
    requires next.Do?
    ensures Next(Scene(Do(Acquire(0), next), target, map[], log), Advance(0, false))
            == Scene(next, target, map[0 := Lock(0, None)], log)
  {
  }

  lemma SceneStart<T>(next: Code<T>)
    requires next.Do?
    ensures Next(Scene(Do(Start(0, F.StartConsume), next), None, map[0 := Lock(0, None)], []), Advance(0, false))
            == Scene(next, Some(0), map[0 := Lock(0, None)], [F.StartConsume])
  {
    var none: seq<F.Op<T>> := [];
    var fifo := F.Empty<T>();
    F.RunAppend(fifo, none, F.StartConsume);
    assert none + [F.StartConsume] == [F.StartConsume];
  }

  lemma SceneRelease<T>(next: Code<T>, log: seq<F.Op<T>>)
    requires log != []
    ensures Next(Scene(Do(Release(0), next), Some(0), map[0 := Lock(0, None)], log), Advance(0, false))
            == Scene(next, Some(0), map[], log)
  {
  }

  lemma SceneAgain<T>()
    ensures var consume: Call<T> := StartConsume(0, 0, true);
            var start: Code<T> := Do(Start(0, F.StartConsume), Return);
            var s := Scene<T>(Return, Some(0), map[], [F.StartConsume]);
            && Allowed(s, 0, consume)
            && Next(s, Invoke(0, consume))
               == Scene(Do(Acquire(0), Do(Release(0), start)), Some(0), map[], [F.StartConsume])
  {
  }

  lemma ScenePut<T>(s: State<T>, v: T)
    requires s == Scene(Do(Start(0, F.StartConsume), Return), Some(0), map[], [F.StartConsume])
    ensures var put: Call<T> := StartPut(0, 1, v, false);
            var s1 := Next(s, Invoke(1, put));
            && Allowed(s, 1, put) && Enabled(s1, Advance(1, false))
            && var s2 := Next(s1, Advance(1, false));
               && Enabled(s2, Advance(1, false))
               && Unprotected(Next(s2, Advance(1, false)))
  {
    var put: Call<T> := StartPut(0, 1, v, false);
    var s1 := Next(s, Invoke(1, put));
    var s2 := Next(s1, Advance(1, false));
    var s3 := Next(s2, Advance(1, false));
    assert Owns(s2, 1, 0) && ThreadAt(s2, 1).code.step == Start(0, F.StartPut(v, false));
    assert QueueAt(s2, 0) == Queue(F.Empty(), [F.StartConsume], true);
    hide Next, Enabled;
    SceneConstructs(s2, v);
  }

  /** Thread 1 is putting an element and owns the mutex; thread 0 is about to consume and does not. */
  ghost predicate Unprotected<T>(s: State<T>) {
    && QueueAt(s, 0).defined
    && Owns(s, 1, 0) && F.Holds(QueueAt(s, 0).fifo.live, 0, F.Open)
    && Accesses(s, 0, 0) && !Owns(s, 0, 0)
  }

  lemma SceneConstructs<T>(s: State<T>, v: T)
    requires Owns(s, 1, 0) && QueueAt(s, 0) == Queue(F.Empty(), [F.StartConsume], true)
    requires ThreadAt(s, 1).code.Do? && ThreadAt(s, 1).code.step == Start(0, F.StartPut(v, false))
    requires ThreadAt(s, 1).handle == Some(1) && ThreadAt(s, 1).code.next.Do?
    requires ThreadAt(s, 0) == Thread(Do(Start(0, F.StartConsume), Return), Some(0))
    ensures Unprotected(Next(s, Advance(1, false)))
  {
    var fifo := F.Empty<T>();
    var none: seq<F.Op<T>> := [];
    var op: F.Op<T> := F.StartPut(v, false);
    assert none + [op] == [op];
    F.RunAppend(fifo, none, op);
    F.EmptyInv<T>();
    F.StartPutFinds(fifo, v, false);
  }

  /** What can go wrong there: another thread puts an element between the unlock and the consume, and the
      consume works on the queue without the mutex while that element is being constructed. */
  lemma ConsumeDuringPut<T>(v: T) returns (run: seq<Event<T>>)
    ensures Possible(Initial<T>(), run) && Unprotected(After(Initial<T>(), run))
  {
    var init := Initial<T>();
    var consume: Event<T> := Invoke(0, StartConsume(0, 0, true));
    var step0: Event<T>, step1: Event<T> := Advance(0, false), Advance(1, false);
    var release: Code<T> := Do(Release(0), Return);
    var unguarded: Code<T> := Do(Start(0, F.StartConsume), Return);
    var log: seq<F.Op<T>> := [F.StartConsume];
    var last := Scene(unguarded, Some(0), map[], log);
    SceneConsume<T>();
    SceneAcquire(Do(Start(0, F.StartConsume), release), None, []);
    SceneStart(release);
    SceneRelease(Return, log);
    SceneAgain<T>();
    SceneAcquire(Do(Release(0), unguarded), Some(0), log);
    SceneRelease(unguarded, log);
    ScenePut(last, v);
    SceneReady<T>();
    hide Next, Enabled, Unprotected, Scene;
    run := [];
    Extend(init, run, consume);
    run := run + [consume];
    Extend(init, run, step0);
    run := run + [step0];
    Extend(init, run, step0);
    run := run + [step0];
    Extend(init, run, step0);
    run := run + [step0];
    Extend(init, run, consume);
    run := run + [consume];
    Extend(init, run, step0);
    run := run + [step0];
    Extend(init, run, step0);
    run := run + [step0];
    assert After(init, run) == last;
    Extend(init, run, Invoke(1, StartPut(0, 1, v, false)));
    run := run + [Invoke(1, StartPut(0, 1, v, false))];
    Extend(init, run, step1);
    run := run + [step1];
    Extend(init, run, step1);
    run := run + [step1];
  }

  lemma SceneReady<T>()
    ensures forall code: Code<T>, target, mutexes, log ::
              code.Do? && (code.step.Acquire? ==> mutexes == map[]) ==>
                Enabled(Scene<T>(code, target, mutexes, log), Advance(0, false))
  {
  }
}
