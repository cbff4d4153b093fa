/** What the operations of the queue do to its entries, one by one, and when nothing is left of them. */
module FifoEnds {
  import opened Fifo

  // ---- entries ----------------------------------------------------------------------------------------

  /** The entry with this id is in the given phase; everything else is as it was. */
  ghost predicate OnlyPhase<T>(live: seq<Entry<T>>, live': seq<Entry<T>>, id: nat, phase: Phase) {
    && |live'| == |live|
    && (forall i :: 0 <= i < |live| ==> live'[i].item == live[i].item)
    && (forall i :: 0 <= i < |live| ==> live'[i].phase == if live[i].item.id == id then phase else live[i].phase)
  }

  /** The entry at `i`, which has this id, is gone; the others are as they were, in the same order. */
  ghost predicate OnlyGone<T>(live: seq<Entry<T>>, live': seq<Entry<T>>, id: nat, i: nat) {
    && i < |live| && live[i].item.id == id
    && live' == live[..i] + live[i + 1..]
    && forall j :: 0 <= j < |live'| ==> live'[j].item.id != id
  }

  /** The first ready entry is taken, if there is one. */
  ghost predicate FirstTaken<T>(live: seq<Entry<T>>, live': seq<Entry<T>>, i: nat) {
    && i <= |live| && (forall j :: 0 <= j < i ==> !live[j].phase.Ready?)
    && if i == |live| then live' == live
       else live[i].phase.Ready? && OnlyPhase(live, live', live[i].item.id, Taken)
  }

  lemma Unique<T>(live: seq<Entry<T>>, nextId: nat, id: nat)
    requires Ordered(live, nextId)
    ensures forall i, j :: 0 <= i < |live| && 0 <= j < |live| && live[i].item.id == live[j].item.id ==> i == j
  {
  }

  /** What each operation does to the entries. */
  lemma EntriesAfter<T>(s: State<T>, op: Op<T>)
    requires Inv(s) && Enabled(s, op)
    ensures var live, live' := s.live, Apply(s, op).live;
            match op
            case StartPut(v, reentrant) =>
              live' == live + [Entry(Item(s.nextId, v), if reentrant then Pending else Open)]
            case CommitPut(id) => OnlyPhase(live, live', id, Ready)
            case CancelPut(id) => exists i :: OnlyGone(live, live', id, i)
            case StartConsume => exists i :: FirstTaken(live, live', i)
            case CommitConsume(id) => exists i :: OnlyGone(live, live', id, i)
            case CancelConsume(id) => OnlyPhase(live, live', id, Ready)
  {
    hide Conserved, CommittedOk, OpenIsLast, NoOpen;
    var live, live' := s.live, Apply(s, op).live;
    match op
    case StartPut(v, reentrant) =>
    case CommitPut(id) => Unique(live, s.nextId, id);
    case CancelConsume(id) => Unique(live, s.nextId, id);
    case CancelPut(id) => RemoveGone(live, s.nextId, id);
    case CommitConsume(id) => RemoveGone(live, s.nextId, id);
    case StartConsume =>
      Unique(live, s.nextId, 0);
      assert FirstTaken(live, live', FirstReady(live));
  }

  lemma RemoveGone<T>(live: seq<Entry<T>>, nextId: nat, id: nat)
    requires Ordered(live, nextId) && Find(live, id) < |live|
    ensures OnlyGone(live, Remove(live, Find(live, id)), id, Find(live, id))
  {
    var i := Find(live, id);
    var live' := Remove(live, i);
    forall j | 0 <= j < |live'| ensures live'[j].item.id != id {
      assert live'[j] == if j < i then live[j] else live[j + 1];
    }
  }

  /** The histories an operation adds to: a commit adds its item, and nothing else adds any. */
  lemma HistoriesAfter<T>(s: State<T>, op: Op<T>)
    requires Inv(s) && Enabled(s, op)
    ensures var s' := Apply(s, op);
            && (op.CommitPut? ==> exists i :: 0 <= i < |s.live| && s.live[i].item.id == op.id
                                              && s'.committed == s.committed + [s.live[i].item])
            && (!op.CommitPut? ==> s'.committed == s.committed)
            && (op.CommitConsume? ==> exists i :: 0 <= i < |s.live| && s.live[i].item.id == op.id
                                                  && s'.consumed == s.consumed + [s.live[i].item])
            && (!op.CommitConsume? ==> s'.consumed == s.consumed)
  {
    hide Inv, NoOpen;
  }

  // ---- what is visible -------------------------------------------------------------------------------------

  lemma {:induction false} ItemsExactly<T>(live: seq<Entry<T>>, phase: Phase, x: Item<T>)
    ensures x in Items(live, phase) <==> Entry(x, phase) in live
  {
    if live != [] {
      ItemsExactly(live[1..], phase, x);
      assert Entry(x, phase) in live <==> Entry(x, phase) == live[0] || Entry(x, phase) in live[1..];
    }
  }

  /** The visible sequence holds exactly the items that are ready, each once, in the order of their starts. */
  lemma VisibleExactly<T>(s: State<T>)
    requires Inv(s)
    ensures Increasing(Visible(s)) && forall x :: x in Visible(s) <==> Entry(x, Ready) in s.live
  {
    ItemsIncreasing(s.live, s.nextId, Ready);
    forall x ensures x in Visible(s) <==> Entry(x, Ready) in s.live {
      ItemsExactly(s.live, Ready, x);
    }
  }

  // ---- runs whose operations have all ended --------------------------------------------------------------

  /** The operation starts the put or the consume of this element. */
  ghost predicate Begins<T>(s: State<T>, op: Op<T>, id: nat) {
    || (op.StartPut? && id == s.nextId)
    || (op.StartConsume? && exists i :: TakenBy(s.live, i, id))
  }

  ghost predicate TakenBy<T>(live: seq<Entry<T>>, i: nat, id: nat) {
    && i < |live| && live[i].phase.Ready? && live[i].item.id == id
    && forall j :: 0 <= j < i ==> !live[j].phase.Ready?
  }

  ghost predicate LaterEnded<T>(ops: seq<Op<T>>, id: nat) {
    exists j :: 0 <= j < |ops| && Concerns(ops[j], id)
  }

  /** Every put and every consume that is started is later committed or canceled. */
  ghost predicate AllEnded<T>(s: State<T>, ops: seq<Op<T>>)
    requires CanRun(s, ops)
    decreases |ops|
  {
    ops == [] ||
    ((forall id: nat :: Begins(s, ops[0], id) ==> LaterEnded(ops[1..], id)) && AllEnded(Apply(s, ops[0]), ops[1..]))
  }

  ghost predicate AllReady<T>(live: seq<Entry<T>>) {
    forall i :: 0 <= i < |live| ==> live[i].phase.Ready?
  }

  /** An entry that is not ready was not before, and the operation did not concern it, or the operation
      has started it. */
  lemma UnreadyComesFrom<T>(s: State<T>, op: Op<T>, k: nat)
    requires Inv(s) && Enabled(s, op)
    requires k < |Apply(s, op).live| && !Apply(s, op).live[k].phase.Ready?
    ensures var id := Apply(s, op).live[k].item.id;
            || Begins(s, op, id)
            || (!Concerns(op, id) && exists i :: 0 <= i < |s.live| && s.live[i] == Apply(s, op).live[k])
  {
    hide Inv;
    EntriesAfter(s, op);
    var live, live' := s.live, Apply(s, op).live;
    hide Apply, Enabled;
    match op
    case StartPut(_, _) => assert k < |live| ==> live'[k] == live[k];
    case CommitPut(id) => assert live'[k] == live[k];
    case CancelConsume(id) => assert live'[k] == live[k];
    case CancelPut(id) => KeptEntry(live, live', id, k);
    case CommitConsume(id) => KeptEntry(live, live', id, k);
    case StartConsume =>
      var i: nat :| FirstTaken(live, live', i);
      if i < |live| && live[k].item.id == live[i].item.id {
        assert TakenBy(live, i, live[i].item.id);
      } else {
        assert live'[k] == live[k];
      }
  }

  lemma KeptEntry<T>(live: seq<Entry<T>>, live': seq<Entry<T>>, id: nat, k: nat)
    requires k < |live'| && exists i :: OnlyGone(live, live', id, i)
    ensures live'[k].item.id != id && exists i :: 0 <= i < |live| && live[i] == live'[k]
  {
    var i: nat :| OnlyGone(live, live', id, i);
    assert live'[k] == if k < i then live[k] else live[k + 1];
  }

  lemma {:induction false} EndedReady<T>(s: State<T>, ops: seq<Op<T>>)
    requires Inv(s) && CanRun(s, ops) && AllEnded(s, ops)
    requires forall i :: 0 <= i < |s.live| && !s.live[i].phase.Ready? ==> LaterEnded(ops, s.live[i].item.id)
    ensures AllReady(Run(s, ops).live)
    decreases |ops|
  {
    hide Inv, Apply, Enabled, Begins;
    if ops != [] {
      var s' := Apply(s, ops[0]);
      ApplyKeepsInv(s, ops[0]);
      forall k | 0 <= k < |s'.live| && !s'.live[k].phase.Ready? ensures LaterEnded(ops[1..], s'.live[k].item.id) {
        UnreadyComesFrom(s, ops[0], k);
        var id := s'.live[k].item.id;
        if !Begins(s, ops[0], id) {
          var i :| 0 <= i < |s.live| && s.live[i] == s'.live[k];
          var j :| 0 <= j < |ops| && Concerns(ops[j], id);
          assert j > 0 && ops[1..][j - 1] == ops[j];
        }
      }
      EndedReady(s', ops[1..]);
    }
  }

  /** What is started is not ready. */
  lemma BegunUnready<T>(s: State<T>, op: Op<T>, id: nat)
    requires Inv(s) && Enabled(s, op) && Begins(s, op, id)
    ensures exists phase: Phase :: !phase.Ready? && Holds(Apply(s, op).live, id, phase)
  {
    hide Conserved, CommittedOk;
    match op
    case StartPut(v, reentrant) =>
      StartPutFinds(s, v, reentrant);
    case StartConsume =>
      var i: nat :| TakenBy(s.live, i, id);
      assert i == FirstReady(s.live);
      SetPhaseFinds(s.live, s.nextId, i, Taken);
      assert Holds(Apply(s, op).live, id, Taken);
  }

  lemma {:induction false} HandleKeptByRun<T>(s: State<T>, ops: seq<Op<T>>, id: nat, phase: Phase)
    requires Inv(s) && CanRun(s, ops) && Holds(s.live, id, phase) && !phase.Ready? && !LaterEnded(ops, id)
    ensures Holds(Run(s, ops).live, id, phase)
    decreases |ops|
  {
    hide Inv, Apply, Enabled, Holds;
    if ops != [] {
      assert !Concerns(ops[0], id);
      HandleKept(s, ops[0], id, phase);
      ApplyKeepsInv(s, ops[0]);
      assert !LaterEnded(ops[1..], id) by {
        assert forall j :: 0 <= j < |ops[1..]| ==> ops[1..][j] == ops[j + 1];
      }
      HandleKeptByRun(Apply(s, ops[0]), ops[1..], id, phase);
    }
  }

  lemma {:induction false} ReadyEnded<T>(s: State<T>, ops: seq<Op<T>>)
    requires Inv(s) && CanRun(s, ops) && AllReady(Run(s, ops).live)
    ensures AllEnded(s, ops)
    decreases |ops|
  {
    hide Inv, Apply, Enabled, Begins, Holds;
    if ops != [] {
      var s' := Apply(s, ops[0]);
      ApplyKeepsInv(s, ops[0]);
      forall id: nat | Begins(s, ops[0], id) ensures LaterEnded(ops[1..], id) {
        if !LaterEnded(ops[1..], id) {
          BegunUnready(s, ops[0], id);
          var phase: Phase :| !phase.Ready? && Holds(s'.live, id, phase);
          HandleKeptByRun(s', ops[1..], id, phase);
          HoldsReady(Run(s', ops[1..]).live, id, phase);
        }
      }
      ReadyEnded(s', ops[1..]);
    }
  }

  lemma HoldsReady<T>(live: seq<Entry<T>>, id: nat, phase: Phase)
    requires Holds(live, id, phase) && AllReady(live)
    ensures phase.Ready?
  {
  }

  /** Every started put and consume has been committed or canceled if and only if all entries left can be
      consumed; and then clearing leaves nothing. */
  lemma EndedExactly<T>(history: seq<Op<T>>, s: State<T>)
    requires Reached(history, s)
    ensures AllEnded(Empty<T>(), history) <==> AllReady(s.live)
    ensures AllReady(s.live) ==> NoOpen(s.live) && Ordered(s.live, s.nextId) && Clear(s).live == []
  {
    EmptyInv<T>();
    ReachedInv(history, s);
    if AllEnded(Empty<T>(), history) {
      EndedReady(Empty<T>(), history);
    }
    if AllReady(s.live) {
      ReadyEnded(Empty<T>(), history);
      ClearAll(s);
    }
  }

  // ---- clearing and playing ------------------------------------------------------------------------------

  lemma {:induction false} UnreadyExactly<T>(live: seq<Entry<T>>, e: Entry<T>)
    ensures e in Unready(live) <==> e in live && !e.phase.Ready?
  {
    if live != [] {
      UnreadyExactly(live[1..], e);
      assert e in live <==> e == live[0] || e in live[1..];
    }
  }

  /** Clearing leaves exactly the entries that are not ready, still in order, and consumes the visible items. */
  lemma ClearLeaves<T>(s: State<T>)
    requires Inv(s) && NoOpen(s.live)
    ensures var t := Clear(s);
            && Inv(t) && (forall e :: e in t.live <==> e in s.live && !e.phase.Ready?)
            && Visible(t) == [] && t.consumed == s.consumed + Visible(s) && t.committed == s.committed
  {
    hide Conserved, CommittedOk, OpenIsLast;
    ClearResult(s);
    ClearIsRun(s);
    hide NoOpen;
    RunKeepsInv(s, ClearOps(s));
    forall e ensures e in Clear(s).live <==> e in s.live && !e.phase.Ready? {
      UnreadyExactly(s.live, e);
    }
  }

  /** What a push and a pop mean: a push adds its value behind the visible ones, a pop consumes the first
      visible item. */
  lemma MovesMean<T>(s: State<T>, v: T)
    requires Settled(s)
    ensures var t := PlayOne(s, Push(v));
            && Visible(t) == Visible(s) + [Item(s.nextId, v)] && t.consumed == s.consumed
            && t.committed == s.committed + [Item(s.nextId, v)]
    ensures var t := PlayOne(s, Pop);
            && t.committed == s.committed
            && if Visible(s) == [] then t == s
               else Visible(t) == Visible(s)[1..] && t.consumed == s.consumed + [Visible(s)[0]]
  {
    hide Items;
    ItemsAppend(s.live, Entry(Item(s.nextId, v), Ready), Ready);
    TakeFirst(s.live, FirstReady(s.live));
  }

  lemma {:induction false} PushedAppend<T>(moves: seq<Move<T>>, move: Move<T>)
    ensures Pushed(moves + [move]) == Pushed(moves) + PushedBy(move)
  {
    hide PushedBy;
    if moves == [] {
      assert moves + [move] == [move];
      assert [move][1..] == moves;
    } else {
      assert (moves + [move])[1..] == moves[1..] + [move];
      PushedAppend(moves[1..], move);
      Regroup(PushedBy(moves[0]), Pushed(moves[1..]), PushedBy(move));
    }
  }
}
