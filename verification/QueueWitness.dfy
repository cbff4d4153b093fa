/** A queue on which iterating goes wrong: one put, too large for a page. */
module QueueWitness {
  import opened Bits
  import opened Align
  import opened Options
  import opened Allocators
  import opened QueueLayout
  import opened QueueSteps
  import opened QueueIteration
  import opened HeterQueues
  import F = Fifo

  /** Pages of 256 bytes, and nothing over-aligned. */
  const SMALL_PAGES := Config(8, 256, 256, 8, 8, 8)

  /** Two pages large. */
  const LARGE_TYPE := RuntimeType(0, 512, 8)

  lemma SmallPagesValid()
    ensures SMALL_PAGES.Valid() && IsPow2(256) && IsPow2(8)
    ensures Aligned(LARGE_TYPE.size, LARGE_TYPE.alignment)
    ensures !MayFit(SMALL_PAGES, LARGE_TYPE.size, LARGE_TYPE.alignment)
  {
    hide And, UpperAlign;
    assert Pow2(3) == 8;
    assert Pow2(6) == 64;
    assert Pow2(8) == 256;
    hide Pow2;
    AlignedSelf(8);
    AlignedMultiple(64, 8);
    UpperAlignLeast(EXTERNAL_BLOCK_SIZE, 8, 0);
  }

  /** Putting a large element into an empty queue makes one slot, which is external and ends at the tail. */
  lemma OneExternalSlot<V>(cfg: Config, head: nat, headPage: nat, slots: seq<Slot<V>>, tail: nat, tailPage: nat,
                           m: Memory<V>, pages: set<nat>, blocks: map<nat, BlockInfo>, grown: seq<Slot<V>>,
                           a: Allocation, status: Status, size: nat, alignment: nat)
    requires cfg.Valid() && IsPow2(alignment) && alignment >= cfg.minAlign && !MayFit(cfg, size, alignment)
    requires Grown(cfg, cfg.Sentinel(), [], grown, a, status, true, size, alignment)
    requires slots != [] && grown == slots[|slots| - 1 := slots[|slots| - 1].(content := Blank)]
    requires Represents(cfg, head, headPage, slots, tail, tailPage, m, map[], pages, blocks)
    ensures a.controlBlock in m.words && IsExternal(m.words[a.controlBlock])
    ensures NextOf(m.words[a.controlBlock]) == tail && FirstHop(m.words[a.controlBlock]) == tail + 4
  {
    hide Aligned, UpperAlign, StorageAt, EndOfPage, SlotOk, LowerAlign, And, IsPow2, InPage;
    SentinelOverflows(cfg, true, size, alignment);
    SentinelOverflows(cfg, true, DescriptorSize(cfg), cfg.minAlign);
    assert |slots| == 1 && grown[0].external.Some?;
    var s := slots[0];
    assert s.external.Some? && s.addr == a.controlBlock;
    assert tail != cfg.Sentinel();
    assert SlotOk(cfg, s) && SlotStored(cfg, s, m);
    NotJump(cfg, s);
    assert slots[1..] == [];
    assert Chain(cfg, s.next, s.page, slots[1..], tail, tailPage);
    ExternalWord(cfg, s);
  }

  lemma NotJump<V>(cfg: Config, s: Slot<V>)
    requires cfg.Valid() && SlotOk(cfg, s) && s.external.Some?
    ensures !s.content.Jump?
  {
  }

  lemma ExternalWord<V>(cfg: Config, s: Slot<V>)
    requires cfg.Valid() && SlotOk(cfg, s) && s.external.Some?
    ensures IsExternal(WordOf(s)) && NextOf(WordOf(s)) == s.next && FirstHop(WordOf(s)) == s.next + 4
  {
    hide And, Aligned, UpperAlign, IsPow2, InPage;
    WordParts(s.next, StatusBits(s.status), EXTERNAL);
    HopWord(s.next, StatusBits(s.status), EXTERNAL);
  }

  /** The large put, unless an allocation fails. */
  method PutLarge<V>(q: HeterQueue<V>, value: V) returns (r: PutResult)
    requires q.Valid() && q.cfg == SMALL_PAGES && q.tail == SMALL_PAGES.Sentinel() && q.slots == []
    requires q.fifo == F.Empty() && q.allocator.failures == 0
    modifies q, q.allocator
    ensures q.Valid() && (r.Put? <==> q.allocator.failures == 0)
    ensures r.Put? ==>
              F.Step(F.Empty(), F.StartPut(Cell(r.a.controlBlock, r.a.userStorage, LARGE_TYPE, value), false), q.fifo)
    ensures r.Put? ==> q.Handle(r.a.controlBlock, 0, F.Open)
    ensures r.Put? ==> HopsPastTail(q.mem, r.a.controlBlock, q.tail)
  {
    SmallPagesValid();
    hide Represents, Aligned, UpperAlign, IsPow2, Live, F.Inv, F.Reached, RawsKept, Finished, Grown, MayFit;
    assert F.NoOpen(q.fifo.live);
    r := q.StartPut(LARGE_TYPE, value, false, false, false);
    if r.Put? {
      OneExternalSlot(q.cfg, q.head, q.headPage, q.slots, q.tail, q.tailPage, q.mem, q.allocator.pages,
                      q.allocator.blocks, q.slots[|q.slots| - 1 := q.slots[|q.slots| - 1].(content := Blank)], r.a,
                      Alive(F.Open), LARGE_TYPE.size, LARGE_TYPE.alignment);
    }
  }

  /** The control block behind this one is at the tail, but the first hop of an iterator lands four bytes
      behind it. */
  ghost predicate HopsPastTail<V>(m: Memory<V>, control: nat, tail: nat) {
    control in m.words && NextOf(m.words[control]) == tail && FirstHop(m.words[control]) == tail + 4
  }

  /** Unless an allocation fails, the queue shows one element, and incrementing an iterator that is at it
      jumps over the tail, where the iteration should end. */
  method ExternalHop<V>(value: V) returns (q: HeterQueue<V>, r: PutResult)
    ensures fresh(q) && fresh(q.allocator) && q.Valid()
    ensures r.Put? <==> q.allocator.failures == 0
    ensures r.Put? ==> F.NoOpen(q.fifo.live) && q.CursorAt(0) == Some(r.a.controlBlock) && q.CursorAt(1) == None
    ensures r.Put? ==> HopsPastTail(q.mem, r.a.controlBlock, q.tail)
  {
    SmallPagesValid();
    var allocator := new Allocator(256);
    q := new HeterQueue<V>(SMALL_PAGES, allocator);
    hide Represents, Aligned, UpperAlign, IsPow2, Live, F.Inv, F.Reached, RawsKept, Finished, HopsPastTail, F.Apply,
         F.Enabled, F.Items, F.Holds, F.Find, F.NoOpen;
    r := PutLarge(q, value);
    if r.Put? {
      CommitOnlyPut(q, Cell(r.a.controlBlock, r.a.userStorage, LARGE_TYPE, value));
    }
  }

  method CommitOnlyPut<V>(q: HeterQueue<V>, cell: Cell<V>)
    requires q.Valid() && q.Handle(cell.control, 0, F.Open)
    requires F.Step(F.Empty(), F.StartPut(cell, false), q.fifo)
    modifies q`slots, q`fifo, q`history
    ensures q.Valid() && F.NoOpen(q.fifo.live)
    ensures q.CursorAt(0) == Some(cell.control) && q.CursorAt(1) == None
  {
    hide Represents, Aligned, IsPow2, Live, F.Inv, F.Reached, RawsKept, Finished, F.Apply, F.Enabled, F.Items, F.Holds,
         F.Find, F.NoOpen;
    q.CommitPut(cell.control, 0);
    OnePut(cell);
  }

  /** One put and its commit. */
  lemma OnePut<T>(x: T)
    ensures var s := F.Empty<T>();
            && F.Enabled(s, F.StartPut(x, false))
            && var t := F.Apply(s, F.StartPut(x, false));
               && F.Enabled(t, F.CommitPut(0))
               && var u := F.Apply(t, F.CommitPut(0));
                  F.NoOpen(u.live) && F.Visible(u) == [F.Item(0, x)]
  {
    var s := F.Empty<T>();
    assert F.Settled(s);
    F.PushOneIsTwoOps(s, x);
    var e := F.Entry(F.Item(0, x), F.Ready);
    assert F.PushOne(s, x).live == [e];
    F.ItemsAppend([], e, F.Ready);
    assert [] + [e] == [e];
  }
}
