/** The queue its users see: elements being put, elements they can consume, elements being consumed.
    No addresses, pages or flags appear here. */
module Fifo {

  /** `Pending` is a reentrant put not yet committed, `Open` a non-reentrant one, `Ready` an element in
      the queue, `Taken` an element some consume operation holds. */
  datatype Phase = Pending | Open | Ready | Taken

  datatype Item<+T> = Item(id: nat, value: T)

  datatype Entry<+T> = Entry(item: Item<T>, phase: Phase)

  /** `committed` and `consumed` are the histories of committed puts and committed consumes. */
  datatype State<+T> = State(live: seq<Entry<T>>, nextId: nat, committed: seq<Item<T>>, consumed: seq<Item<T>>)

  datatype Op<+T> =
    | StartPut(value: T, reentrant: bool)
    | CommitPut(id: nat)
    | CancelPut(id: nat)
    | StartConsume
    | CommitConsume(id: nat)
    | CancelConsume(id: nat)

  ghost function Empty<T>(): State<T> {
    State([], 0, [], [])
  }

  // ---- the operations -----------------------------------------------------------------------------

  /** The position of the entry with the given id, or the length if there is none. */
  ghost function Find<T>(live: seq<Entry<T>>, id: nat): (i: nat)
    ensures i <= |live|
    ensures i < |live| ==> live[i].item.id == id
    ensures forall j :: 0 <= j < i ==> live[j].item.id != id
  {
    if live == [] || live[0].item.id == id then 0 else 1 + Find(live[1..], id)
  }

  /** The position of the first ready entry, or the length if there is none. */
  ghost function FirstReady<T>(live: seq<Entry<T>>): (i: nat)
    ensures i <= |live|
    ensures i < |live| ==> live[i].phase.Ready?
    ensures forall j :: 0 <= j < i ==> !live[j].phase.Ready?
  {
    if live == [] || live[0].phase.Ready? then 0 else 1 + FirstReady(live[1..])
  }

  lemma FindUnique<T>(live: seq<Entry<T>>, nextId: nat, i: nat)
    requires Ordered(live, nextId) && i < |live|
    ensures Find(live, live[i].item.id) == i
  {
    var k := Find(live, live[i].item.id);
    assert !(i < k) && !(k < i);
  }

  lemma StartPutFinds<T>(s: State<T>, v: T, reentrant: bool)
    requires Inv(s) && Enabled(s, StartPut(v, reentrant))
    ensures var s' := Apply(s, StartPut(v, reentrant));
            && Find(s'.live, s.nextId) == |s.live|
            && Holds(s'.live, s.nextId, if reentrant then Pending else Open)
  {
    var s' := Apply(s, StartPut(v, reentrant));
    ApplyKeepsOrder(s, StartPut(v, reentrant));
    FindUnique(s'.live, s'.nextId, |s.live|);
  }

  lemma SetPhaseFinds<T>(live: seq<Entry<T>>, nextId: nat, i: nat, phase: Phase)
    requires Ordered(live, nextId) && i < |live|
    ensures Find(SetPhase(live, i, phase), live[i].item.id) == i
  {
    FindUnique(SetPhase(live, i, phase), nextId, i);
  }

  ghost predicate Holds<T>(live: seq<Entry<T>>, id: nat, phase: Phase) {
    var i := Find(live, id);
    i < |live| && live[i].phase == phase
  }

  ghost function SetPhase<T>(live: seq<Entry<T>>, i: nat, phase: Phase): seq<Entry<T>>
    requires i < |live|
  {
    live[i := live[i].(phase := phase)]
  }

  ghost function Remove<T>(live: seq<Entry<T>>, i: nat): seq<Entry<T>>
    requires i < |live|
  {
    live[..i] + live[i + 1..]
  }

  /** While a non-reentrant put is open the queue must not be touched, except through the put. */
  ghost predicate NoOpen<T>(live: seq<Entry<T>>) {
    forall i :: 0 <= i < |live| ==> !live[i].phase.Open?
  }

  ghost predicate Enabled<T>(s: State<T>, op: Op<T>) {
    match op
    case StartPut(_, _) => NoOpen(s.live)
    case StartConsume => NoOpen(s.live)
    case CommitPut(id) => Holds(s.live, id, Open) || (Holds(s.live, id, Pending) && NoOpen(s.live))
    case CancelPut(id) => Holds(s.live, id, Open) || (Holds(s.live, id, Pending) && NoOpen(s.live))
    case CommitConsume(id) => Holds(s.live, id, Taken) && NoOpen(s.live)
    case CancelConsume(id) => Holds(s.live, id, Taken) && NoOpen(s.live)
  }

  ghost function Apply<T>(s: State<T>, op: Op<T>): State<T>
    requires Enabled(s, op)
  {
    match op
    case StartPut(v, reentrant) =>
      s.(live := s.live + [Entry(Item(s.nextId, v), if reentrant then Pending else Open)], nextId := s.nextId + 1)
    case CommitPut(id) =>
      var i := Find(s.live, id);
      s.(live := SetPhase(s.live, i, Ready), committed := s.committed + [s.live[i].item])
    case CancelPut(id) =>
      s.(live := Remove(s.live, Find(s.live, id)))
    case StartConsume =>
      var i := FirstReady(s.live);
      if i < |s.live| then s.(live := SetPhase(s.live, i, Taken)) else s
    case CommitConsume(id) =>
      var i := Find(s.live, id);
      s.(live := Remove(s.live, i), consumed := s.consumed + [s.live[i].item])
    case CancelConsume(id) =>
      s.(live := SetPhase(s.live, Find(s.live, id), Ready))
  }

  ghost predicate Step<T>(s: State<T>, op: Op<T>, t: State<T>) {
    Enabled(s, op) && t == Apply(s, op)
  }

  // ---- what an observer sees ------------------------------------------------------------------------

  /** The items in one phase, in queue order. */
  ghost function Items<T>(live: seq<Entry<T>>, phase: Phase): seq<Item<T>> {
    if live == [] then [] else OneItem(live[0], phase) + Items(live[1..], phase)
  }

  ghost function OneItem<T>(e: Entry<T>, phase: Phase): seq<Item<T>> {
    if e.phase == phase then [e.item] else []
  }

  ghost function Visible<T>(s: State<T>): seq<Item<T>> {
    Items(s.live, Ready)
  }

  // ---- the invariant ----------------------------------------------------------------------------------

  ghost predicate Increasing<T>(items: seq<Item<T>>) {
    forall i, j :: 0 <= i < j < |items| ==> items[i].id < items[j].id
  }

  ghost predicate DistinctIds<T>(items: seq<Item<T>>) {
    forall i, j :: 0 <= i < j < |items| ==> items[i].id != items[j].id
  }

  /** Entries stand in the order in which their puts were started. */
  ghost predicate Ordered<T>(live: seq<Entry<T>>, nextId: nat) {
    && (forall i :: 0 <= i < |live| ==> live[i].item.id < nextId)
    && (forall i, j :: 0 <= i < j < |live| ==> live[i].item.id < live[j].item.id)
  }

  ghost predicate OpenIsLast<T>(live: seq<Entry<T>>) {
    forall i :: 0 <= i < |live| - 1 ==> !live[i].phase.Open?
  }

  /** The committed items still in the queue, visible or held by a consume operation. */
  ghost function Present<T>(live: seq<Entry<T>>): multiset<Item<T>> {
    multiset(Items(live, Ready)) + multiset(Items(live, Taken))
  }

  /** Every committed put is visible, or held by a consume operation, or consumed: exactly one of the
      three, exactly once, and with the value it was put with. */
  ghost predicate Conserved<T>(s: State<T>) {
    multiset(s.committed) == Present(s.live) + multiset(s.consumed)
  }

  /** No uncommitted put has been counted as committed. */
  ghost predicate CommittedOk<T>(s: State<T>) {
    && DistinctIds(s.committed)
    && (forall c :: 0 <= c < |s.committed| ==> s.committed[c].id < s.nextId)
    && (forall c, i :: 0 <= c < |s.committed| && 0 <= i < |s.live|
                       && (s.live[i].phase.Pending? || s.live[i].phase.Open?)
          ==> s.committed[c].id != s.live[i].item.id)
  }

  ghost predicate Inv<T>(s: State<T>) {
    Ordered(s.live, s.nextId) && OpenIsLast(s.live) && Conserved(s) && CommittedOk(s)
  }

  // ---- preservation -------------------------------------------------------------------------------------

  lemma {:induction false} ItemsConcat<T>(a: seq<Entry<T>>, b: seq<Entry<T>>, phase: Phase)
    ensures Items(a + b, phase) == Items(a, phase) + Items(b, phase)
  {
    if a == [] {
      assert a + b == b;
    } else {
      hide OneItem;
      assert (a + b)[1..] == a[1..] + b && (a + b)[0] == a[0];
      ItemsConcat(a[1..], b, phase);
      Regroup(OneItem(a[0], phase), Items(a[1..], phase), Items(b, phase));
    }
  }

  lemma Regroup<T>(x: seq<T>, y: seq<T>, z: seq<T>)
    ensures x + (y + z) == (x + y) + z
  {
  }

  /** The items of a phase around one entry, whether it stays, changes phase or goes. */
  lemma ItemsParts<T>(live: seq<Entry<T>>, i: nat, next: Phase, phase: Phase)
    requires i < |live|
    ensures var low, high := Items(live[..i], phase), Items(live[i + 1..], phase);
            && Items(live, phase) == low + OneItem(live[i], phase) + high
            && Items(SetPhase(live, i, next), phase) == low + OneItem(live[i].(phase := next), phase) + high
            && Items(Remove(live, i), phase) == low + high
  {
    var low, high := live[..i], live[i + 1..];
    assert live == low + [live[i]] + high;
    assert SetPhase(live, i, next) == low + [live[i].(phase := next)] + high;
    assert Remove(live, i) == low + high;
    hide Items, OneItem, SetPhase, Remove;
    ItemsParted(low, live[i], high, phase);
    ItemsParted(low, live[i].(phase := next), high, phase);
    ItemsConcat(low, high, phase);
  }

  lemma ItemsParted<T>(low: seq<Entry<T>>, e: Entry<T>, high: seq<Entry<T>>, phase: Phase)
    ensures Items(low + [e] + high, phase) == Items(low, phase) + OneItem(e, phase) + Items(high, phase)
  {
    ItemsConcat(low + [e], high, phase);
    ItemsConcat(low, [e], phase);
    assert Items([e], phase) == OneItem(e, phase);
  }

  lemma ItemsAppend<T>(live: seq<Entry<T>>, e: Entry<T>, phase: Phase)
    ensures Items(live + [e], phase) == Items(live, phase) + OneItem(e, phase)
  {
    ItemsConcat(live, [e], phase);
    assert Items([e], phase) == OneItem(e, phase);
  }

  /** What one entry adds to the committed items in the queue. */
  ghost function Counted<T>(e: Entry<T>): multiset<Item<T>> {
    if e.phase.Ready? || e.phase.Taken? then multiset{e.item} else multiset{}
  }

  lemma PresentRemove<T>(live: seq<Entry<T>>, i: nat)
    requires i < |live|
    ensures Present(live) == Present(Remove(live, i)) + Counted(live[i])
  {
    hide Items, Remove;
    ItemsParts(live, i, Ready, Ready);
    ItemsParts(live, i, Ready, Taken);
  }

  lemma PresentSetPhase<T>(live: seq<Entry<T>>, i: nat, next: Phase)
    requires i < |live|
    ensures Present(SetPhase(live, i, next)) == Present(Remove(live, i)) + Counted(live[i].(phase := next))
  {
    hide Items, Remove, SetPhase;
    ItemsParts(live, i, next, Ready);
    ItemsParts(live, i, next, Taken);
  }

  lemma SetPhaseKeepsOrder<T>(live: seq<Entry<T>>, nextId: nat, i: nat, next: Phase)
    requires Ordered(live, nextId) && OpenIsLast(live) && i < |live| && !next.Open?
    ensures Ordered(SetPhase(live, i, next), nextId) && OpenIsLast(SetPhase(live, i, next))
  {
  }

  lemma RemoveKeepsOrder<T>(live: seq<Entry<T>>, nextId: nat, i: nat)
    requires Ordered(live, nextId) && OpenIsLast(live) && i < |live|
    ensures Ordered(Remove(live, i), nextId) && OpenIsLast(Remove(live, i))
  {
  }

  lemma ApplyKeepsOrder<T>(s: State<T>, op: Op<T>)
    requires Ordered(s.live, s.nextId) && OpenIsLast(s.live) && Enabled(s, op)
    ensures var s' := Apply(s, op); Ordered(s'.live, s'.nextId) && OpenIsLast(s'.live)
  {
    if !op.StartPut? {
      hide Ordered, OpenIsLast, SetPhase, Remove, NoOpen;
      var i := if op.StartConsume? then FirstReady(s.live) else Find(s.live, op.id);
      if i < |s.live| {
        RemoveKeepsOrder(s.live, s.nextId, i);
        SetPhaseKeepsOrder(s.live, s.nextId, i, Ready);
        SetPhaseKeepsOrder(s.live, s.nextId, i, Taken);
      }
    }
  }

  lemma ApplyKeepsCommitted<T>(s: State<T>, op: Op<T>)
    requires Inv(s) && Enabled(s, op)
    ensures CommittedOk(Apply(s, op))
  {
    hide Conserved, OpenIsLast, NoOpen;
  }

  lemma StartPutConserves<T>(s: State<T>, v: T, reentrant: bool)
    requires Conserved(s) && Enabled(s, StartPut(v, reentrant))
    ensures Conserved(Apply(s, StartPut(v, reentrant)))
  {
    hide Items;
    var e := Entry(Item(s.nextId, v), if reentrant then Pending else Open);
    ItemsAppend(s.live, e, Ready);
    ItemsAppend(s.live, e, Taken);
  }

  lemma CommitPutConserves<T>(s: State<T>, id: nat)
    requires Conserved(s) && Enabled(s, CommitPut(id))
    ensures Conserved(Apply(s, CommitPut(id)))
  {
    hide SetPhase, Remove, NoOpen, Present;
    var i := Find(s.live, id);
    PresentRemove(s.live, i);
    PresentSetPhase(s.live, i, Ready);
  }

  lemma CommitConsumeConserves<T>(s: State<T>, id: nat)
    requires Conserved(s) && Enabled(s, CommitConsume(id))
    ensures Conserved(Apply(s, CommitConsume(id)))
  {
    hide Remove, NoOpen, Present;
    PresentRemove(s.live, Find(s.live, id));
  }

  lemma StartConsumeConserves<T>(s: State<T>)
    requires Conserved(s) && Enabled(s, StartConsume)
    ensures Conserved(Apply(s, StartConsume))
  {
    hide SetPhase, Remove, NoOpen, Present;
    var i := FirstReady(s.live);
    if i < |s.live| {
      PresentRemove(s.live, i);
      PresentSetPhase(s.live, i, Taken);
    }
  }

  lemma CancelConserves<T>(s: State<T>, op: Op<T>)
    requires Conserved(s) && Enabled(s, op) && (op.CancelPut? || op.CancelConsume?)
    ensures Conserved(Apply(s, op))
  {
    hide SetPhase, Remove, NoOpen, Present;
    PresentRemove(s.live, Find(s.live, op.id));
    if op.CancelConsume? {
      PresentSetPhase(s.live, Find(s.live, op.id), Ready);
    }
  }

  lemma ApplyConserves<T>(s: State<T>, op: Op<T>)
    requires Conserved(s) && Enabled(s, op)
    ensures Conserved(Apply(s, op))
  {
    hide Conserved, Apply, Enabled;
    match op
    case StartPut(v, reentrant) => StartPutConserves(s, v, reentrant);
    case CommitPut(id) => CommitPutConserves(s, id);
    case CommitConsume(id) => CommitConsumeConserves(s, id);
    case CancelPut(id) => CancelConserves(s, op);
    case CancelConsume(id) => CancelConserves(s, op);
    case StartConsume => StartConsumeConserves(s);
  }

  /** Every operation keeps the invariant. */
  lemma ApplyKeepsInv<T>(s: State<T>, op: Op<T>)
    requires Inv(s) && Enabled(s, op)
    ensures Inv(Apply(s, op))
  {
    ApplyKeepsOrder(s, op);
    ApplyKeepsCommitted(s, op);
    ApplyConserves(s, op);
  }

  // ---- runs -------------------------------------------------------------------------------------------------

  ghost predicate CanRun<T>(s: State<T>, ops: seq<Op<T>>)
    decreases |ops|
  {
    ops == [] || (Enabled(s, ops[0]) && CanRun(Apply(s, ops[0]), ops[1..]))
  }

  ghost function Run<T>(s: State<T>, ops: seq<Op<T>>): State<T>
    requires CanRun(s, ops)
    decreases |ops|
  {
    if ops == [] then s else Run(Apply(s, ops[0]), ops[1..])
  }

  /** The invariant holds in every state that any run from the empty queue reaches. */
  lemma {:induction false} RunKeepsInv<T>(s: State<T>, ops: seq<Op<T>>)
    requires Inv(s) && CanRun(s, ops)
    ensures Inv(Run(s, ops))
    decreases |ops|
  {
    hide Inv, Apply, Enabled;
    if ops != [] {
      ApplyKeepsInv(s, ops[0]);
      RunKeepsInv(Apply(s, ops[0]), ops[1..]);
    }
  }

  lemma {:induction false} RunAppend<T>(s: State<T>, ops: seq<Op<T>>, op: Op<T>)
    requires CanRun(s, ops) && Enabled(Run(s, ops), op)
    ensures CanRun(s, ops + [op]) && Run(s, ops + [op]) == Apply(Run(s, ops), op)
    decreases |ops|
  {
    hide Apply, Enabled;
    if ops == [] {
      assert ops + [op] == [op];
      assert [op][1..] == [];
      assert CanRun(Apply(s, op), []);
    } else {
      assert (ops + [op])[1..] == ops[1..] + [op];
      RunAppend(Apply(s, ops[0]), ops[1..], op);
    }
  }

  lemma {:induction false} RunConcat<T>(s: State<T>, ops: seq<Op<T>>, more: seq<Op<T>>)
    requires CanRun(s, ops) && CanRun(Run(s, ops), more)
    ensures CanRun(s, ops + more) && Run(s, ops + more) == Run(Run(s, ops), more)
    decreases |ops|
  {
    hide Apply, Enabled;
    if ops == [] {
      assert ops + more == more;
    } else {
      assert (ops + more)[1..] == ops[1..] + more;
      RunConcat(Apply(s, ops[0]), ops[1..], more);
    }
  }

  lemma RunTwo<T>(s: State<T>, a: Op<T>, b: Op<T>)
    requires Enabled(s, a) && Enabled(Apply(s, a), b)
    ensures CanRun(s, [a, b]) && Run(s, [a, b]) == Apply(Apply(s, a), b)
  {
    hide Apply, Enabled;
    var none: seq<Op<T>> := [];
    assert none + [a] == [a] && [a] + [b] == [a, b];
    RunAppend(s, none, a);
    RunAppend(s, [a], b);
  }

  /** The state is the result of these operations from the empty queue. */
  ghost predicate Reached<T>(history: seq<Op<T>>, s: State<T>) {
    CanRun(Empty<T>(), history) && s == Run(Empty(), history)
  }

  lemma EmptyInv<T>()
    ensures Inv(Empty<T>()) && Reached([], Empty<T>())
  {
  }

  /** Whatever has been done to it, a queue satisfies the invariant. */
  lemma ReachedInv<T>(history: seq<Op<T>>, s: State<T>)
    requires Reached(history, s)
    ensures Inv(s)
  {
    EmptyInv<T>();
    RunKeepsInv(Empty<T>(), history);
  }

  lemma ReachedStep<T>(history: seq<Op<T>>, s: State<T>, op: Op<T>)
    requires Reached(history, s) && Enabled(s, op)
    ensures Reached(history + [op], Apply(s, op)) && Inv(Apply(s, op))
  {
    hide Inv;
    ReachedInv(history, s);
    ApplyKeepsInv(s, op);
    RunAppend(Empty<T>(), history, op);
  }

  // ---- handles ------------------------------------------------------------------------------------------------

  /** The operation acts on the entry with this id. */
  predicate Concerns<T>(op: Op<T>, id: nat) {
    !op.StartPut? && !op.StartConsume? && op.id == id
  }

  /** An entry that a transaction or a consume operation holds keeps its phase, its item and its identity
      until an operation concerns it. */
  lemma HandleKept<T>(s: State<T>, op: Op<T>, id: nat, phase: Phase)
    requires Inv(s) && Enabled(s, op) && Holds(s.live, id, phase) && !phase.Ready? && !Concerns(op, id)
    ensures var live' := Apply(s, op).live;
            && Holds(live', id, phase)
            && live'[Find(live', id)].item == s.live[Find(s.live, id)].item
  {
    hide Conserved, CommittedOk;
    ApplyKeepsOrder(s, op);
    var k := Find(s.live, id);
    var s' := Apply(s, op);
    match op
    case StartPut(_, _) =>
      assert s'.live[k] == s.live[k];
      FindUnique(s'.live, s'.nextId, k);
    case StartConsume =>
      assert s'.live[k] == s.live[k];
      FindUnique(s'.live, s'.nextId, k);
    case CommitPut(j) => FindUnique(s'.live, s'.nextId, k);
    case CancelConsume(j) => FindUnique(s'.live, s'.nextId, k);
    case CancelPut(j) => AfterRemove(s.live, s'.nextId, Find(s.live, j), k);
    case CommitConsume(j) => AfterRemove(s.live, s'.nextId, Find(s.live, j), k);
  }

  lemma AfterRemove<T>(live: seq<Entry<T>>, nextId: nat, i: nat, k: nat)
    requires i < |live| && k < |live| && i != k && Ordered(Remove(live, i), nextId)
    ensures var k' := if k < i then k else k - 1;
            && Remove(live, i)[k'] == live[k]
            && Find(Remove(live, i), live[k].item.id) == k'
  {
    FindUnique(Remove(live, i), nextId, if k < i then k else k - 1);
  }

  // ---- order ------------------------------------------------------------------------------------------------

  lemma {:induction false} ItemsIncreasing<T>(live: seq<Entry<T>>, nextId: nat, phase: Phase)
    requires Ordered(live, nextId)
    ensures Increasing(Items(live, phase))
    ensures forall k :: 0 <= k < |Items(live, phase)| ==>
              Items(live, phase)[k].id < nextId && Items(live, phase)[k].id >= live[0].item.id
  {
    if live != [] {
      ItemsIncreasing(live[1..], nextId, phase);
    }
  }

  ghost predicate InsertedAt<T>(before: seq<Item<T>>, item: Item<T>, after: seq<Item<T>>, k: nat) {
    && k <= |before|
    && after == before[..k] + [item] + before[k..]
    && (forall j :: 0 <= j < k ==> before[j].id < item.id)
    && (forall j :: k <= j < |before| ==> item.id < before[j].id)
  }

  ghost predicate InsertedInOrder<T>(before: seq<Item<T>>, item: Item<T>, after: seq<Item<T>>) {
    exists k :: InsertedAt(before, item, after, k)
  }

  /** What an observer sees of each operation. Starting a consume takes the first visible item;
      committing a put and canceling a consume insert the item at the place its id gives it, which for
      a canceled consume is the place it was taken from; nothing else is visible. */
  lemma VisibleChange<T>(s: State<T>, op: Op<T>)
    requires Inv(s) && Enabled(s, op)
    ensures match op
            case StartPut(_, _) => Visible(Apply(s, op)) == Visible(s)
            case CancelPut(_) => Visible(Apply(s, op)) == Visible(s)
            case CommitConsume(_) => Visible(Apply(s, op)) == Visible(s)
            case StartConsume => Visible(Apply(s, op)) == if Visible(s) == [] then [] else Visible(s)[1..]
            case CommitPut(id) =>
              InsertedInOrder(Visible(s), s.live[Find(s.live, id)].item, Visible(Apply(s, op)))
            case CancelConsume(id) =>
              InsertedInOrder(Visible(s), s.live[Find(s.live, id)].item, Visible(Apply(s, op)))
  {
    hide Items, SetPhase, Remove, Ordered, OpenIsLast, Conserved, CommittedOk, NoOpen, InsertedInOrder;
    match op
    case StartPut(v, reentrant) =>
      ItemsAppend(s.live, Entry(Item(s.nextId, v), if reentrant then Pending else Open), Ready);
    case StartConsume =>
      TakeFirst(s.live, FirstReady(s.live));
    case CancelPut(id) =>
      ItemsParts(s.live, Find(s.live, id), Ready, Ready);
    case CommitConsume(id) =>
      ItemsParts(s.live, Find(s.live, id), Ready, Ready);
    case CommitPut(id) =>
      MakeReady(s.live, s.nextId, Find(s.live, id));
    case CancelConsume(id) =>
      MakeReady(s.live, s.nextId, Find(s.live, id));
  }

  lemma {:induction false} NoneReady<T>(live: seq<Entry<T>>)
    requires forall j :: 0 <= j < |live| ==> !live[j].phase.Ready?
    ensures Items(live, Ready) == []
  {
    if live != [] {
      NoneReady(live[1..]);
    }
  }

  lemma TakeFirst<T>(live: seq<Entry<T>>, i: nat)
    requires i == FirstReady(live)
    ensures if i < |live| then
              && Items(live, Ready) == [live[i].item] + Items(live[i + 1..], Ready)
              && Items(SetPhase(live, i, Taken), Ready) == Items(live[i + 1..], Ready)
              && Items(Remove(live, i), Ready) == Items(live[i + 1..], Ready)
            else Items(live, Ready) == []
  {
    hide Items, Remove, SetPhase;
    if i == |live| {
      NoneReady(live);
    } else {
      ItemsParts(live, i, Taken, Ready);
      NoneReady(live[..i]);
    }
  }

  lemma ItemsNonEmpty<T>(live: seq<Entry<T>>, phase: Phase)
    requires Items(live, phase) != []
    ensures live != []
  {
  }

  lemma {:induction false} MakeReady<T>(live: seq<Entry<T>>, nextId: nat, i: nat)
    requires Ordered(live, nextId) && i < |live| && !live[i].phase.Ready?
    ensures InsertedInOrder(Items(live, Ready), live[i].item, Items(SetPhase(live, i, Ready), Ready))
  {
    hide Items, Remove, SetPhase;
    ItemsParts(live, i, Ready, Ready);
    ItemsIncreasing(live[..i], live[i].item.id, Ready);
    ItemsIncreasing(live[i + 1..], nextId, Ready);
    var low, high := Items(live[..i], Ready), Items(live[i + 1..], Ready);
    assert low + high == Items(live, Ready);
    var both: seq<Item<T>> := low + high;
    forall j | |low| <= j < |both|
      ensures live[i].item.id < both[j].id
    {
      assert both[j] == high[j - |low|];
      ItemsNonEmpty(live[i + 1..], Ready);
    }
    assert both[..|low|] == low && both[|low|..] == high;
    assert InsertedAt(low + high, live[i].item, low + [live[i].item] + high, |low|);
  }

  /** A consume starts with the earliest committed item that is neither held nor consumed. */
  lemma TakesEarliest<T>(s: State<T>, c: Item<T>)
    requires Inv(s) && FirstReady(s.live) < |s.live|
    requires c in s.committed && c !in s.consumed && c !in Items(s.live, Taken)
    ensures s.live[FirstReady(s.live)].item in s.committed
    ensures s.live[FirstReady(s.live)].item.id <= c.id
  {
    hide Items, OpenIsLast, CommittedOk;
    ItemsIncreasing(s.live, s.nextId, Ready);
    TakeFirst(s.live, FirstReady(s.live));
    hide Ordered;
    InMultiset(s.committed, c);
    InMultiset(Visible(s), c);
    InMultiset(Items(s.live, Taken), c);
    InMultiset(s.consumed, c);
    InMultiset(s.committed, Visible(s)[0]);
    InMultiset(Visible(s), Visible(s)[0]);
  }

  lemma InMultiset<T>(items: seq<T>, x: T)
    ensures x in items <==> x in multiset(items)
  {
  }

  // ---- exactly once -------------------------------------------------------------------------------------------

  lemma {:induction false} CountOnce<T>(a: seq<Item<T>>, x: Item<T>)
    requires DistinctIds(a)
    ensures multiset(a)[x] <= 1
  {
    if a != [] {
      assert a == [a[0]] + a[1..];
      CountOnce(a[1..], x);
      if a[0] == x && x in a[1..] {
        assert false;
      }
    }
  }

  lemma CountTwice<T>(b: seq<Item<T>>, i: nat, j: nat)
    requires i < j < |b| && b[i] == b[j]
    ensures multiset(b)[b[i]] >= 2
  {
    assert b == b[..j] + b[j..];
    assert b[i] in b[..j] && b[j] in b[j..];
  }

  lemma DistinctTransfers<T>(a: seq<Item<T>>, b: seq<Item<T>>)
    requires DistinctIds(a) && multiset(a) == multiset(b)
    ensures DistinctIds(b)
  {
    forall i, j | 0 <= i < j < |b|
      ensures b[i].id != b[j].id
    {
      if b[i].id == b[j].id {
        assert b[i] in multiset(a) && b[j] in multiset(a);
        var p :| 0 <= p < |a| && a[p] == b[i];
        var q :| 0 <= q < |a| && a[q] == b[j];
        assert p == q;
        CountOnce(a, b[i]);
        CountTwice(b, i, j);
      }
    }
  }

  /** No id occurs twice among the visible, the held and the consumed items, and all are committed. */
  lemma ExactlyOnce<T>(s: State<T>)
    requires Inv(s)
    ensures DistinctIds(Visible(s) + Items(s.live, Taken) + s.consumed)
    ensures forall x :: x in Visible(s) + Items(s.live, Taken) + s.consumed <==> x in s.committed
  {
    var all := Visible(s) + Items(s.live, Taken) + s.consumed;
    assert multiset(all) == multiset(s.committed);
    DistinctTransfers(s.committed, all);
    forall x ensures x in all <==> x in s.committed {
      assert x in all <==> x in multiset(all);
      assert x in s.committed <==> x in multiset(s.committed);
    }
  }

  lemma SmallestFirst<T>(a: seq<Item<T>>, x: Item<T>)
    requires Increasing(a) && a != [] && x in multiset(a)
    ensures a[0].id <= x.id && (a[0].id == x.id ==> a[0] == x)
  {
    InMultiset(a, x);
    var k :| 0 <= k < |a| && a[k] == x;
    assert k == 0 || a[0].id < a[k].id;
  }

  /** Two sequences of the same items with increasing ids are equal. */
  lemma {:induction false} IncreasingUnique<T>(a: seq<Item<T>>, b: seq<Item<T>>)
    requires Increasing(a) && Increasing(b) && multiset(a) == multiset(b)
    ensures a == b
    decreases |a|
  {
    assert |a| == |multiset(a)| == |multiset(b)| == |b|;
    if a != [] {
      InMultiset(a, a[0]);
      InMultiset(b, b[0]);
      SmallestFirst(a, b[0]);
      SmallestFirst(b, a[0]);
      DropFirst(a);
      DropFirst(b);
      IncreasingUnique(a[1..], b[1..]);
    }
  }

  lemma DropFirst<T>(a: seq<Item<T>>)
    requires a != []
    ensures multiset(a[1..]) == multiset(a) - multiset{a[0]} && a == [a[0]] + a[1..]
    ensures Increasing(a) ==> Increasing(a[1..])
  {
    assert a == [a[0]] + a[1..];
  }

  /** The visible sequence is determined by which items are committed, held and consumed: whatever the
      order in which two runs reached that point, both show the same sequence. */
  lemma VisibleDetermined<T>(s: State<T>, t: State<T>)
    requires Inv(s) && Inv(t)
    requires multiset(s.committed) == multiset(t.committed) && multiset(s.consumed) == multiset(t.consumed)
    requires multiset(Items(s.live, Taken)) == multiset(Items(t.live, Taken))
    ensures Visible(s) == Visible(t)
  {
    ItemsIncreasing(s.live, s.nextId, Ready);
    ItemsIncreasing(t.live, t.nextId, Ready);
    hide Items, Increasing, Ordered, OpenIsLast, CommittedOk;
    CancelMultiset(Present(s.live), Present(t.live), multiset(s.consumed));
    CancelMultiset(multiset(Visible(s)), multiset(Visible(t)), multiset(Items(s.live, Taken)));
    IncreasingUnique(Visible(s), Visible(t));
  }

  lemma CancelMultiset<T>(a: multiset<T>, b: multiset<T>, common: multiset<T>)
    requires a + common == b + common
    ensures a == b
  {
    assert a == (a + common) - common;
    assert b == (b + common) - common;
  }

  // ---- clear ----------------------------------------------------------------------------------------------------

  ghost function ConsumeFirst<T>(s: State<T>): State<T>
    requires NoOpen(s.live) && Ordered(s.live, s.nextId) && FirstReady(s.live) < |s.live|
  {
    var i := FirstReady(s.live);
    s.(live := Remove(s.live, i), consumed := s.consumed + [s.live[i].item])
  }

  /** Consuming the first item is starting a consume and committing it. */
  lemma ConsumeFirstIsTwoOps<T>(s: State<T>)
    requires NoOpen(s.live) && Ordered(s.live, s.nextId) && FirstReady(s.live) < |s.live|
    ensures var id := s.live[FirstReady(s.live)].item.id;
            && Enabled(s, StartConsume) && Enabled(Apply(s, StartConsume), CommitConsume(id))
            && Apply(Apply(s, StartConsume), CommitConsume(id)) == ConsumeFirst(s)
  {
    var i := FirstReady(s.live);
    var live' := SetPhase(s.live, i, Taken);
    FindUnique(live', s.nextId, i);
    assert Remove(live', i) == Remove(s.live, i);
  }

  ghost function Clear<T>(s: State<T>): State<T>
    requires NoOpen(s.live) && Ordered(s.live, s.nextId)
    decreases |s.live|
  {
    if FirstReady(s.live) == |s.live| then s else Clear(ConsumeFirst(s))
  }

  /** The operations clearing performs. */
  ghost function ClearOps<T>(s: State<T>): seq<Op<T>>
    requires NoOpen(s.live) && Ordered(s.live, s.nextId)
    decreases |s.live|
  {
    var i := FirstReady(s.live);
    if i == |s.live| then [] else [StartConsume, CommitConsume(s.live[i].item.id)] + ClearOps(ConsumeFirst(s))
  }

  lemma {:induction false} ClearIsRun<T>(s: State<T>)
    requires NoOpen(s.live) && Ordered(s.live, s.nextId)
    ensures CanRun(s, ClearOps(s)) && Run(s, ClearOps(s)) == Clear(s)
    decreases |s.live|
  {
    hide NoOpen, Ordered, Apply, Enabled, ConsumeFirst;
    var i := FirstReady(s.live);
    if i < |s.live| {
      var id := s.live[i].item.id;
      ConsumeFirstIsTwoOps(s);
      ConsumeFirstStep(s);
      RunTwo(s, StartConsume, CommitConsume(id));
      ClearIsRun(ConsumeFirst(s));
      RunConcat(s, [StartConsume, CommitConsume(id)], ClearOps(ConsumeFirst(s)));
    }
  }

  /** Consumes and put commits never open a put. */
  lemma StillNoOpen<T>(s: State<T>, op: Op<T>)
    requires NoOpen(s.live) && Enabled(s, op) && !op.StartPut?
    ensures NoOpen(Apply(s, op).live)
  {
  }

  /** With nothing pending and nothing held, clearing leaves nothing. */
  lemma ClearAll<T>(s: State<T>)
    requires Inv(s) && forall i :: 0 <= i < |s.live| ==> s.live[i].phase.Ready?
    ensures NoOpen(s.live) && Clear(s).live == []
  {
    ClearResult(s);
    AllReadyNoneUnready(s.live);
  }

  lemma {:induction false} AllReadyNoneUnready<T>(live: seq<Entry<T>>)
    requires forall i :: 0 <= i < |live| ==> live[i].phase.Ready?
    ensures Unready(live) == []
  {
    if live != [] {
      AllReadyNoneUnready(live[1..]);
    }
  }

  ghost function Unready<T>(live: seq<Entry<T>>): seq<Entry<T>> {
    if live == [] then []
    else (if live[0].phase.Ready? then [] else [live[0]]) + Unready(live[1..])
  }

  lemma {:induction false} UnreadyConcat<T>(a: seq<Entry<T>>, b: seq<Entry<T>>)
    ensures Unready(a + b) == Unready(a) + Unready(b)
  {
    if a == [] {
      assert a + b == b;
    } else {
      assert (a + b)[1..] == a[1..] + b;
      UnreadyConcat(a[1..], b);
    }
  }

  lemma {:induction false} UnreadyUnchanged<T>(live: seq<Entry<T>>)
    requires forall j :: 0 <= j < |live| ==> !live[j].phase.Ready?
    ensures Unready(live) == live
  {
    if live != [] {
      UnreadyUnchanged(live[1..]);
    }
  }

  lemma ConsumeFirstStep<T>(s: State<T>)
    requires NoOpen(s.live) && Ordered(s.live, s.nextId) && FirstReady(s.live) < |s.live|
    ensures var t := ConsumeFirst(s);
            && NoOpen(t.live) && Ordered(t.live, t.nextId) && |t.live| < |s.live|
            && Unready(t.live) == Unready(s.live)
            && t.consumed + Visible(t) == s.consumed + Visible(s)
            && t.committed == s.committed && t.nextId == s.nextId
  {
    hide Items, Unready;
    TakeFirst(s.live, FirstReady(s.live));
    UnreadyRemove(s.live, FirstReady(s.live));
  }

  /** Clearing consumes exactly the visible items, in order, and leaves the open handles alone. */
  lemma {:induction false} ClearResult<T>(s: State<T>)
    requires NoOpen(s.live) && Ordered(s.live, s.nextId)
    ensures Clear(s) == s.(live := Unready(s.live), consumed := s.consumed + Visible(s))
    ensures Visible(Clear(s)) == []
    decreases |s.live|
  {
    if FirstReady(s.live) == |s.live| {
      TakeFirst(s.live, FirstReady(s.live));
      UnreadyUnchanged(s.live);
    } else {
      hide NoOpen, Ordered, Items, Unready, ConsumeFirst, FirstReady;
      ConsumeFirstStep(s);
      ClearResult(ConsumeFirst(s));
    }
  }

  lemma UnreadyRemove<T>(live: seq<Entry<T>>, i: nat)
    requires i < |live| && live[i].phase.Ready?
    ensures Unready(Remove(live, i)) == Unready(live)
  {
    assert live == live[..i] + ([live[i]] + live[i + 1..]);
    UnreadyConcat(live[..i], [live[i]] + live[i + 1..]);
    UnreadyConcat(live[..i], live[i + 1..]);
    UnreadyConcat([live[i]], live[i + 1..]);
  }

  // ---- first in, first out --------------------------------------------------------------------------------------

  /** A user that pushes and pops without keeping operations open. */
  datatype Move<+T> = Push(value: T) | Pop

  ghost function Values<T>(items: seq<Item<T>>): (values: seq<T>)
    ensures |values| == |items| && forall k :: 0 <= k < |items| ==> values[k] == items[k].value
  {
    seq(|items|, k requires 0 <= k < |items| => items[k].value)
  }

  ghost function Pushed<T>(moves: seq<Move<T>>): seq<T> {
    if moves == [] then []
    else PushedBy(moves[0]) + Pushed(moves[1..])
  }

  ghost function PushedBy<T>(move: Move<T>): seq<T> {
    match move
    case Push(v) => [v]
    case Pop => []
  }

  ghost predicate Settled<T>(s: State<T>) {
    && Ordered(s.live, s.nextId)
    && (forall i :: 0 <= i < |s.live| ==> s.live[i].phase.Ready?)
    && s.committed == s.consumed + Visible(s)
  }

  ghost function PushOne<T>(s: State<T>, v: T): State<T>
    requires Settled(s)
  {
    s.(live := s.live + [Entry(Item(s.nextId, v), Ready)], nextId := s.nextId + 1,
       committed := s.committed + [Item(s.nextId, v)])
  }

  lemma PushOneIsTwoOps<T>(s: State<T>, v: T)
    requires Settled(s)
    ensures && Enabled(s, StartPut(v, false)) && Enabled(Apply(s, StartPut(v, false)), CommitPut(s.nextId))
            && Apply(Apply(s, StartPut(v, false)), CommitPut(s.nextId)) == PushOne(s, v)
  {
    var s' := Apply(s, StartPut(v, false));
    FindUnique(s'.live, s'.nextId, |s.live|);
  }

  ghost function Play<T>(s: State<T>, moves: seq<Move<T>>): State<T>
    requires Settled(s)
    decreases |moves|
  {
    if moves == [] then s
    else
      PlayOneSettled(s, moves[0]);
      Play(PlayOne(s, moves[0]), moves[1..])
  }

  ghost function PlayOne<T>(s: State<T>, move: Move<T>): State<T>
    requires Settled(s)
  {
    match move
    case Push(v) => PushOne(s, v)
    case Pop => if FirstReady(s.live) == |s.live| then s else ConsumeFirst(s)
  }

  lemma PushOneSettled<T>(s: State<T>, v: T)
    requires Settled(s)
    ensures Settled(PushOne(s, v))
  {
    hide Items;
    ItemsAppend(s.live, Entry(Item(s.nextId, v), Ready), Ready);
  }

  lemma ConsumeFirstSettled<T>(s: State<T>)
    requires Settled(s) && FirstReady(s.live) < |s.live|
    ensures Settled(ConsumeFirst(s))
  {
    hide Items;
    TakeFirst(s.live, FirstReady(s.live));
  }

  lemma PlayOneSettled<T>(s: State<T>, move: Move<T>)
    requires Settled(s)
    ensures Settled(PlayOne(s, move))
    ensures PlayOne(s, move).committed
            == s.committed + (match move case Push(v) => [Item(s.nextId, v)] case Pop => [])
  {
    hide Settled;
    match move
    case Push(v) => PushOneSettled(s, v);
    case Pop =>
      if FirstReady(s.live) < |s.live| {
        ConsumeFirstSettled(s);
      }
  }

  /** The operations of one move, and of a sequence of moves. Popping from an empty queue starts a
      consume that finds nothing. */
  ghost function MoveOps<T>(s: State<T>, move: Move<T>): seq<Op<T>> {
    match move
    case Push(v) => [StartPut(v, false), CommitPut(s.nextId)]
    case Pop =>
      var i := FirstReady(s.live);
      if i == |s.live| then [StartConsume] else [StartConsume, CommitConsume(s.live[i].item.id)]
  }

  ghost function PlayOps<T>(s: State<T>, moves: seq<Move<T>>): seq<Op<T>>
    requires Settled(s)
    decreases |moves|
  {
    if moves == [] then []
    else
      PlayOneSettled(s, moves[0]);
      MoveOps(s, moves[0]) + PlayOps(PlayOne(s, moves[0]), moves[1..])
  }

  lemma MoveIsRun<T>(s: State<T>, move: Move<T>)
    requires Settled(s)
    ensures CanRun(s, MoveOps(s, move)) && Run(s, MoveOps(s, move)) == PlayOne(s, move)
  {
    hide Apply, Enabled, PushOne, ConsumeFirst, Visible;
    match move
    case Push(v) =>
      PushOneIsTwoOps(s, v);
      RunTwo(s, StartPut(v, false), CommitPut(s.nextId));
    case Pop =>
      var i := FirstReady(s.live);
      if i < |s.live| {
        ConsumeFirstIsTwoOps(s);
        RunTwo(s, StartConsume, CommitConsume(s.live[i].item.id));
      } else {
        EmptyConsume(s);
      }
  }

  lemma EmptyConsume<T>(s: State<T>)
    requires NoOpen(s.live) && FirstReady(s.live) == |s.live|
    ensures CanRun(s, [StartConsume]) && Run(s, [StartConsume]) == s
  {
    var none: seq<Op<T>> := [];
    assert none + [StartConsume] == [StartConsume];
    RunAppend(s, none, StartConsume);
  }

  /** Playing the moves is running their operations. */
  lemma {:induction false} PlayIsRun<T>(s: State<T>, moves: seq<Move<T>>)
    requires Settled(s)
    ensures CanRun(s, PlayOps(s, moves)) && Run(s, PlayOps(s, moves)) == Play(s, moves)
    decreases |moves|
  {
    hide Settled, PlayOne, MoveOps;
    if moves != [] {
      PlayOneSettled(s, moves[0]);
      MoveIsRun(s, moves[0]);
      PlayIsRun(PlayOne(s, moves[0]), moves[1..]);
      RunConcat(s, MoveOps(s, moves[0]), PlayOps(PlayOne(s, moves[0]), moves[1..]));
    }
  }

  lemma {:induction false} PlayKeepsOrder<T>(s: State<T>, moves: seq<Move<T>>)
    requires Settled(s)
    ensures var t := Play(s, moves);
            Values(t.consumed) + Values(Visible(t)) == Values(s.committed) + Pushed(moves)
    decreases |moves|
  {
    ValuesConcat(s.consumed, Visible(s));
    hide Values, Visible;
    if moves == [] {
      assert Pushed(moves) == [];
    } else {
      PlayOneSettled(s, moves[0]);
      var s' := PlayOne(s, moves[0]);
      PlayKeepsOrder(s', moves[1..]);
      var added: seq<Item<T>> := match moves[0] case Push(v) => [Item(s.nextId, v)] case Pop => [];
      ValuesConcat(s.committed, added);
      ValuesOfMove(s.nextId, moves[0]);
      Regroup(Values(s.committed), Values(added), Pushed(moves[1..]));
    }
  }

  lemma ValuesConcat<T>(a: seq<Item<T>>, b: seq<Item<T>>)
    ensures Values(a + b) == Values(a) + Values(b)
  {
  }

  lemma ValuesOfMove<T>(id: nat, move: Move<T>)
    ensures var items: seq<Item<T>> := match move case Push(v) => [Item(id, v)] case Pop => [];
            Values(items) == PushedBy(move)
  {
  }

  /** First in, first out: whatever is pushed into and popped from an empty queue, the operations can be
      run, and after them the values popped so far followed by the values still visible are the values
      pushed, in the order they were pushed. */
  lemma FirstInFirstOut<T>(moves: seq<Move<T>>)
    ensures Settled(Empty<T>())
    ensures var ops := PlayOps(Empty<T>(), moves);
            && CanRun(Empty<T>(), ops)
            && var t := Run(Empty(), ops);
               Values(t.consumed) + Values(Visible(t)) == Pushed(moves)
  {
    var s := Empty<T>();
    assert Settled(s);
    hide Settled;
    PlayIsRun(s, moves);
    PlayKeepsOrder(s, moves);
    assert Values(s.committed) == [];
  }
}
