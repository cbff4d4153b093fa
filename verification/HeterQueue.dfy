/** The heterogeneous queue: a class whose methods walk and edit the chain of control blocks. */
module HeterQueues {
  import opened Bits
  import opened Align
  import opened Options
  import opened Machine
  import opened Allocators
  import opened QueueLayout
  import opened QueueSteps
  import opened QueueFlags
  import opened QueueObjects
  import opened QueueIteration
  import F = Fifo

  datatype Allocation = Allocation(controlBlock: nat, userStorage: nat)

  function DescriptorSize(cfg: Config): nat
    requires cfg.minAlign > 0
  {
    UpperAlign(EXTERNAL_BLOCK_SIZE, cfg.minAlign)
  }

  /** The tail page has room, so that nothing has to be allocated. */
  predicate FitsBehind(cfg: Config, tail: nat, includeType: bool, size: nat, alignment: nat) {
    && cfg.minAlign > 0 && cfg.pageAlign > 0 && alignment > 0
    && Decide(cfg, tail, includeType, NormalSize(cfg, size, alignment), NormalAlignment(cfg, alignment)).InTailPage?
  }

  /** The element would fit in a page of its own, counting a runtime type and the bytes that its alignment may
      cost. */
  predicate FitsFresh(cfg: Config, size: nat, alignment: nat) {
    cfg.minAlign > 0 &&
    2 * cfg.control + cfg.typeSpace + (NormalAlignment(cfg, alignment) - cfg.minAlign)
    + NormalSize(cfg, size, alignment) <= cfg.pageSize
  }

  /** The two tests, for the decision taken on the normal size and alignment. */
  lemma FitsDecides(cfg: Config, tail: nat, includeType: bool, size: nat, alignment: nat)
    requires cfg.Valid() && alignment > 0
    ensures NormalAlignment(cfg, alignment) > 0
    ensures var d := Decide(cfg, tail, includeType, NormalSize(cfg, size, alignment), NormalAlignment(cfg, alignment));
            && (FitsBehind(cfg, tail, includeType, size, alignment) <==> d.InTailPage?)
            && (FitsBehind(cfg, tail, includeType, size, alignment) || FitsFresh(cfg, size, alignment)
                <==> !d.Outside?)
  {
    hide UpperAlign, Aligned, StorageAt, EndOfPage;
  }

  /** What an allocation adds to the chain behind `oldTail`: at most one page jump, then one slot
      without an object. The new slot, or the descriptor of its heap block, is placed where `Decide` says;
      the next control block comes immediately behind it. */
  ghost predicate Grown<V>(cfg: Config, oldTail: nat, before: seq<Slot<V>>, after: seq<Slot<V>>, a: Allocation,
                           status: Status, includeType: bool, size: nat, alignment: nat)
    requires alignment > 0 && cfg.pageAlign > 0 && cfg.minAlign > 0
  {
    && before < after && |after| <= |before| + 2
    && var s := after[|after| - 1];
       && (|after| == |before| + 2 ==> after[|before|] == JumpSlot(oldTail, after[|before|].page, s.page))
       && s.addr == a.controlBlock && s.storage == a.userStorage
       && s.status == status && s.content.Blank? && s.size == size && Aligned(s.storage, alignment)
       && if Decide(cfg, oldTail, includeType, size, alignment).Outside? then
            && s.external == Some(ExternalBlock(a.userStorage, size, alignment))
            && s.next == StorageAt(cfg, s.addr, true, cfg.minAlign) + DescriptorSize(cfg)
            && GrownAt(cfg, oldTail, s, |after| - |before|,
                       Decide(cfg, oldTail, true, DescriptorSize(cfg), cfg.minAlign))
          else
            && s.external.None?
            && s.storage == StorageAt(cfg, s.addr, includeType, alignment) && s.next == s.storage + size
            && GrownAt(cfg, oldTail, s, |after| - |before|, Decide(cfg, oldTail, includeType, size, alignment))
  }

  /** The slot is at the old tail, or at the beginning of a new page. */
  ghost predicate GrownAt<V>(cfg: Config, oldTail: nat, s: Slot<V>, added: nat, place: Decision) {
    match place
    case InTailPage => added == 1 && s.addr == oldTail
    case InNewPage => s.addr == s.page && (added == 1 <==> oldTail == cfg.Sentinel())
    case Outside => false
  }

  /** Whatever overload has been called, the same allocations with the same pages and heap blocks lead to
      the same chain and the same result. */
  lemma GrownDetermined<V>(cfg: Config, oldTail: nat, before: seq<Slot<V>>, after1: seq<Slot<V>>, a1: Allocation,
                           after2: seq<Slot<V>>, a2: Allocation, status: Status, includeType: bool, size: nat,
                           alignment: nat)
    requires alignment > 0 && cfg.pageAlign > 0 && cfg.minAlign > 0
    requires Grown(cfg, oldTail, before, after1, a1, status, includeType, size, alignment)
    requires Grown(cfg, oldTail, before, after2, a2, status, includeType, size, alignment)
    requires after1[|after1| - 1].page == after2[|after2| - 1].page
    requires after1[|before|].page == after2[|before|].page
    requires Decide(cfg, oldTail, includeType, size, alignment).Outside? ==> a1.userStorage == a2.userStorage
    ensures after1 == after2 && a1 == a2
  {
    hide Decide, StorageAt, Aligned;
    assert |after1| == |after2|;
    assert after1[|after1| - 1] == after2[|after2| - 1];
    forall i | 0 <= i < |after1| ensures after1[i] == after2[i] {
      if i < |before| {
        assert after1[i] == before[i] == after2[i];
      }
    }
  }

  lemma GrownInPages<V>(cfg: Config, oldTail: nat, before: seq<Slot<V>>, oldTailPage: nat, tail: nat, tailPage: nat,
                        status: Status, includeType: bool, size: nat, alignment: nat, jumped: bool)
    requires cfg.Valid() && IsPow2(alignment) && alignment >= cfg.minAlign && Aligned(size, alignment)
    requires InPage(cfg, tail, tailPage)
    requires if jumped then
               && Decide(cfg, oldTail, includeType, size, alignment).InNewPage?
               && tail == tailPage
             else
               Decide(cfg, oldTail, includeType, size, alignment).InTailPage? && tail == oldTail
    ensures var s := NewSlot<V>(cfg, tail, tailPage, includeType, size, alignment, status);
            var links := if jumped && oldTail != cfg.Sentinel() then [JumpSlot(oldTail, oldTailPage, tail)] else [];
            Grown(cfg, oldTail, before, before + links + [s], Allocation(s.addr, s.storage), status, includeType, size,
                  alignment)
  {
    hide Aligned, IsPow2, UpperAlign, InPage, StorageAt, EndOfPage, Decide;
    StorageFacts(cfg, tail, tailPage, includeType, size, alignment);
  }

  /** A descriptor never goes into a heap block. */
  lemma DescriptorInPage(cfg: Config, tail: nat)
    requires cfg.Valid()
    ensures !Decide(cfg, tail, true, DescriptorSize(cfg), cfg.minAlign).Outside?
    ensures FitsFresh(cfg, EXTERNAL_BLOCK_SIZE, POINTER_SIZE)
  {
    hide UpperAlign, Aligned;
    DescriptorNormal(cfg);
  }

  /** The slot grown for a descriptor. */
  lemma GrownDescriptor<V>(cfg: Config, oldTail: nat, before: seq<Slot<V>>, after: seq<Slot<V>>, a: Allocation,
                           status: Status)
    requires cfg.Valid() && Grown(cfg, oldTail, before, after, a, status, true, DescriptorSize(cfg), cfg.minAlign)
    ensures after != []
    ensures var s := after[|after| - 1];
            && s.content.Blank? && s.external.None? && s.size == DescriptorSize(cfg)
            && s.addr == a.controlBlock && s.storage == a.userStorage == StorageAt(cfg, s.addr, true, cfg.minAlign)
  {
    hide UpperAlign, Aligned, StorageAt, EndOfPage;
    DescriptorInPage(cfg, oldTail);
  }

  /** Linking a heap block to a slot grown for its descriptor. */
  lemma GrownOutside<V>(cfg: Config, oldTail: nat, before: seq<Slot<V>>, after: seq<Slot<V>>, a: Allocation,
                        status: Status, includeType: bool, size: nat, e: ExternalBlock)
    requires cfg.Valid() && e.alignment > 0 && Aligned(e.element, e.alignment) && e.size == size
    requires Grown(cfg, oldTail, before, after, a, status, true, DescriptorSize(cfg), cfg.minAlign)
    requires !Decide(cfg, oldTail, true, DescriptorSize(cfg), cfg.minAlign).Outside?
    requires Decide(cfg, oldTail, includeType, size, e.alignment).Outside?
    ensures Grown(cfg, oldTail, before, after[|after| - 1 := Linked(after[|after| - 1], e)],
                  Allocation(a.controlBlock, e.element), status, includeType, size, e.alignment)
  {
    hide Aligned, IsPow2, UpperAlign, InPage, StorageAt, EndOfPage, Decide;
  }

  class HeterQueue<V> {
    const cfg: Config
    const allocator: Allocator
    var head: nat
    var tail: nat
    var mem: Memory<V>
    ghost var slots: seq<Slot<V>>
    ghost var headPage: nat
    ghost var tailPage: nat
    /** Heap blocks that have been allocated but are not linked to a slot yet. */
    ghost var loose: map<nat, BlockInfo>
    ghost var fifo: F.State<Cell<V>>
    /** The operations that led here. */
    ghost var history: seq<F.Op<Cell<V>>>
    ghost var raws: set<RawBlock<V>>

    /** Memory, resources and chain are consistent; slots may still miss their objects. */
    ghost predicate Core()
      reads this, allocator
    {
      && cfg.Valid() && allocator.Valid() && allocator.pageAlign == cfg.pageAlign
      && Represents(cfg, head, headPage, slots, tail, tailPage, mem, loose, allocator.pages, allocator.blocks)
      && fifo.live == Live(slots)
    }

    /** Between operations: every slot that is alive has its object, no heap block is loose, and the
        storage of every raw block whose element is alive is still in the chain. */
    ghost predicate Valid()
      reads this, allocator
    {
      && Core() && Finished(slots) && loose == map[]
      && F.Reached(history, fifo) && F.Inv(fifo) && RawsKept(slots, raws, fifo.nextId)
    }

    /** The operation has been added to the history. */
    ghost predicate Logged(history0: seq<F.Op<Cell<V>>>, op: F.Op<Cell<V>>)
      reads this
    {
      history == history0 + [op]
    }

    /** `control` is the control block of the entry with this id, which is in this phase. */
    ghost predicate Handle(control: nat, id: nat, phase: F.Phase)
      reads this
    {
      F.Holds(fifo.live, id, phase) && fifo.live[F.Find(fifo.live, id)].item.value.control == control
    }

    constructor (cfg: Config, allocator: Allocator)
      requires cfg.Valid() && allocator.Valid() && allocator.pageAlign == cfg.pageAlign
      requires allocator.pages == {} && allocator.blocks == map[]
      ensures Valid() && fifo == F.Empty() && raws == {}
      ensures head == tail == cfg.Sentinel() && slots == []
      ensures this.cfg == cfg && this.allocator == allocator
    {
      this.cfg := cfg;
      this.allocator := allocator;
      head, tail := cfg.pageSize - 1, cfg.pageSize - 1;
      mem := Memory(map[], map[], map[], map[]);
      slots, headPage, tailPage, loose, fifo, raws, history := [], 0, 0, map[], F.Empty(), {}, [];
    }

    /** Exactly this heap block has been allocated, of the normal size and alignment for the ones asked for. */
    ghost predicate GrantedBlock(blocks0: map<nat, BlockInfo>, block: nat, size: nat, alignment: nat)
      reads allocator
    {
      && cfg.minAlign > 0 && block !in blocks0
      && allocator.blocks
         == blocks0[block := BlockInfo(NormalSize(cfg, size, alignment), NormalAlignment(cfg, alignment))]
    }

    /** Links a fresh page behind the tail, or gives a queue its first page. */
    method AllocateNewPage() returns (ok: bool)
      requires Core()
      modifies this`head, this`tail, this`mem, this`slots, this`headPage, this`tailPage, allocator
      ensures Core() && allocator.blocks == old(allocator.blocks)
      ensures allocator.failures == old(allocator.failures) + if ok then 0 else 1
      ensures !ok ==> head == old(head) && tail == old(tail) && slots == old(slots)
                      && allocator.pages == old(allocator.pages)
      ensures ok ==> && tail != cfg.Sentinel() && tail == tailPage && InPage(cfg, tail, tail)
                     && old(allocator.pages) < allocator.pages
                     && slots == old(slots) + (if old(tail) == cfg.Sentinel() then []
                                               else [JumpSlot(old(tail), old(tailPage), tail)])
    {
      hide Represents, InPage, Aligned, UpperAlign, Live, IsPow2;
      ghost var mem0 := mem;
      if tail != cfg.Sentinel() {
        var controlBlock := tail;
        mem := mem.(words := mem.words[controlBlock := 0]);
        ZeroTail(cfg, head, headPage, slots, tail, tailPage, mem0, loose, allocator.pages, allocator.blocks);
        ghost var pages0 := allocator.pages;
        var page := allocator.AllocatePage();
        if page.None? {
          return false;
        }
        PageStart(cfg, page.value);
        LinkPage(cfg, head, headPage, slots, tail, tailPage, mem, loose, pages0, allocator.blocks, page.value);
        mem := mem.(words := mem.words[controlBlock := page.value + DEAD]);
        slots := slots + [JumpSlot(tail, tailPage, page.value)];
        tail, tailPage := page.value, page.value;
      } else {
        VirginState(cfg, head, headPage, slots, tail, tailPage, mem, loose, allocator.pages, allocator.blocks);
        var page := allocator.AllocatePage();
        if page.None? {
          return false;
        }
        PageStart(cfg, page.value);
        FirstPage(cfg, mem, loose, page.value);
        assert allocator.pages == {page.value};
        NotSentinel(cfg, page.value, page.value);
        tail, head := page.value, page.value;
        tailPage, headPage := page.value, page.value;
      }
      ok := true;
    }

    /** Turns the bytes from the tail to `newTail` into a slot. */
    method PlaceAtTail(controlBits: nat, newTail: nat, ghost includeType: bool, ghost size: nat, ghost alignment: nat,
                       ghost status: Status)
      requires Core() && tail != cfg.Sentinel() && controlBits == StatusBits(status)
      requires IsPow2(alignment) && alignment >= cfg.minAlign && Aligned(size, alignment)
      requires newTail == StorageAt(cfg, tail, includeType, alignment) + size <= EndOfPage(cfg, tail)
      modifies this`tail, this`mem, this`slots
      ensures Core() && tail != cfg.Sentinel()
      ensures slots == old(slots) + [NewSlot(cfg, old(tail), tailPage, includeType, size, alignment, status)]
    {
      hide Represents, InPage, Aligned, UpperAlign, Live, IsPow2, SlotOk, StorageAt, EndOfPage;
      var controlBlock := tail;
      ghost var s := NewSlot<V>(cfg, tail, tailPage, includeType, size, alignment, status);
      TailInPageOrSentinel(cfg, head, headPage, slots, tail, tailPage, mem, loose, allocator.pages, allocator.blocks);
      NewSlotOk<V>(cfg, tail, tailPage, includeType, size, alignment, status);
      PlaceSlot(cfg, head, headPage, slots, tail, tailPage, mem, loose, allocator.pages, allocator.blocks, s);
      mem := mem.(words := mem.words[controlBlock := newTail + controlBits]);
      tail := newTail;
      slots := slots + [s];
    }

    /** Allocates a control block and the storage for an element of the given size and alignment: in the
        tail page, in a fresh page, or outside the pages. A failed allocation changes nothing.
        The loop makes at most two attempts, and the nested call at most one level. */
    method InplaceAllocate(controlBits: nat, includeType: bool, size0: nat, alignment0: nat, ghost status: Status)
      returns (r: Option<Allocation>)
      requires Core() && controlBits == StatusBits(status) && (status.Dead? || includeType)
      requires IsPow2(alignment0) && alignment0 > 0 && Aligned(size0, alignment0)
      requires loose == map[] || MayFit(cfg, NormalSize(cfg, size0, alignment0), NormalAlignment(cfg, alignment0))
      modifies this`head, this`tail, this`mem, this`slots, this`headPage, this`tailPage, this`loose, allocator
      ensures Core() && loose == old(loose)
      ensures allocator.failures == old(allocator.failures) + if r.None? then 1 else 0
      ensures FitsBehind(cfg, old(tail), includeType, size0, alignment0) ==>
                r.Some? && allocator.pages == old(allocator.pages) && allocator.blocks == old(allocator.blocks)
      ensures r.Some? ==>
                if FitsBehind(cfg, old(tail), includeType, size0, alignment0) || FitsFresh(cfg, size0, alignment0) then
                  allocator.blocks == old(allocator.blocks)
                else
                  GrantedBlock(old(allocator.blocks), r.value.userStorage, size0, alignment0)
      ensures r.None? ==> head == old(head) && tail == old(tail) && slots == old(slots)
                          && allocator.pages == old(allocator.pages) && allocator.blocks == old(allocator.blocks)
      ensures r.Some? ==>
                var size, alignment := NormalSize(cfg, size0, alignment0), NormalAlignment(cfg, alignment0);
                && tail != cfg.Sentinel()
                && Grown(cfg, old(tail), old(slots), slots, r.value, status, includeType, size, alignment)
      decreases if MayFit(cfg, NormalSize(cfg, size0, alignment0), NormalAlignment(cfg, alignment0)) then 0 else 1, 1
    {
      hide Represents, InPage, Aligned, UpperAlign, Live, IsPow2, SlotOk, Grown, EndOfPage, FitsBehind, FitsFresh;
      FitsDecides(cfg, tail, includeType, size0, alignment0);
      var size, alignment := size0, alignment0;
      NormalFacts(cfg, size, alignment);
      if alignment < cfg.minAlign {
        alignment := cfg.minAlign;
        size := UpperAlign(size, cfg.minAlign);
      }
      ghost var attempts := 0;
      while true
        invariant Core() && loose == old(loose) && attempts <= 1
        invariant allocator.blocks == old(allocator.blocks) && allocator.failures == old(allocator.failures)
        invariant attempts == 0 ==> head == old(head) && tail == old(tail) && slots == old(slots)
                                    && tailPage == old(tailPage) && allocator.pages == old(allocator.pages)
        invariant attempts == 0 || Decide(cfg, old(tail), includeType, size, alignment).InNewPage?
        invariant attempts == 1 ==>
                    && tail != cfg.Sentinel() && tail == tailPage && InPage(cfg, tail, tail)
                    && slots == old(slots) + (if old(tail) == cfg.Sentinel() then []
                                              else [JumpSlot(old(tail), old(tailPage), tail)])
        decreases 1 - attempts
      {
        var controlBlock := tail;
        var newTail := controlBlock + (if includeType then cfg.control + cfg.typeSpace else cfg.control);
        newTail := UpperAlign(newTail, alignment);
        var userStorage := newTail;
        newTail := newTail + size;
        var endOfPage := EndOfPage(cfg, controlBlock);
        TailInPageOrSentinel(cfg, head, headPage, slots, tail, tailPage, mem, loose, allocator.pages, allocator.blocks);
        if attempts == 1 {
          FreshPageFits(cfg, tail, includeType, size, alignment);
        } else if tail == cfg.Sentinel() {
          SentinelOverflows(cfg, includeType, size, alignment);
        }
        if newTail <= endOfPage {
          GrownInPages(cfg, old(tail), old(slots), old(tailPage), tail, tailPage, status, includeType, size, alignment,
                       attempts == 1);
          assert old(slots) + [] == old(slots);
          PlaceAtTail(controlBits, newTail, includeType, size, alignment, status);
          return Some(Allocation(controlBlock, userStorage));
        } else if size + (alignment - cfg.minAlign) <= cfg.MaxSizeInPage() {
          var ok := AllocateNewPage();
          if !ok {
            return None;
          }
          attempts := attempts + 1;
        } else {
          r := ExternalAllocate(controlBits, size, alignment, status, includeType);
          return;
        }
      }
    }

    /** Allocates a heap block and, in the tail page, the slot whose descriptor points to it. */
    method ExternalAllocate(controlBits: nat, size: nat, alignment: nat, ghost status: Status, ghost includeType: bool)
      returns (r: Option<Allocation>)
      requires Core() && loose == map[] && controlBits == StatusBits(status)
      requires IsPow2(alignment) && alignment >= cfg.minAlign
      requires Decide(cfg, tail, includeType, size, alignment).Outside?
      modifies this`head, this`tail, this`mem, this`slots, this`headPage, this`tailPage, this`loose, allocator
      ensures Core() && loose == map[]
      ensures allocator.failures == old(allocator.failures) + if r.None? then 1 else 0
      ensures r.None? ==> head == old(head) && tail == old(tail) && slots == old(slots)
                          && allocator.pages == old(allocator.pages) && allocator.blocks == old(allocator.blocks)
      ensures r.Some? ==>
                && tail != cfg.Sentinel()
                && Grown(cfg, old(tail), old(slots), slots, r.value, status, includeType, size, alignment)
      ensures r.Some? ==> r.value.userStorage !in old(allocator.blocks)
      ensures r.Some? ==>
                allocator.blocks == old(allocator.blocks)[r.value.userStorage := BlockInfo(size, alignment)]
      decreases 1, 0
    {
      hide Represents, InPage, Aligned, UpperAlign, Live, IsPow2, SlotOk, EndOfPage, Grown, Decide, StorageAt;
      ghost var blocks0 := allocator.blocks;
      var block := allocator.Allocate(size, alignment);
      if block.None? {
        return None;
      }
      ghost var e := ExternalBlock(block.value, size, alignment);
      LooseBlock(cfg, head, headPage, slots, tail, tailPage, mem, allocator.pages, blocks0, e);
      loose := map[block.value := BlockInfo(size, alignment)];
      DescriptorFits(cfg);
      DescriptorNormal(cfg);
      DescriptorInPage(cfg, tail);
      var inplacePut := InplaceAllocate(controlBits, true, EXTERNAL_BLOCK_SIZE, POINTER_SIZE, status);
      if inplacePut.None? {
        LooseReturned(cfg, head, headPage, slots, tail, tailPage, mem, allocator.pages, blocks0, allocator.blocks, e);
        allocator.Deallocate(block.value, size, alignment);
        loose := map[];
        return None;
      }
      var a := inplacePut.value;
      ghost var n := |slots| - 1;
      GrownDescriptor(cfg, old(tail), old(slots), slots, a, status);
      LastSlotPlace(cfg, head, headPage, slots, tail, tailPage, mem, loose, allocator.pages, allocator.blocks);
      LinkExternal(cfg, head, headPage, slots, tail, tailPage, mem, allocator.pages, allocator.blocks, e);
      GrownOutside(cfg, old(tail), old(slots), slots, a, status, includeType, size, e);
      mem := mem.(externals := mem.externals[a.userStorage := ExternalBlock(block.value, size, alignment)]);
      mem := mem.(words := mem.words[a.controlBlock := SetExternal(mem.words[a.controlBlock])]);
      slots := slots[n := Linked(slots[n], e)];
      loose := map[];
      r := Some(Allocation(a.controlBlock, block.value));
    }

    /** The overload for a size and an alignment known at compile time. It skips the alignment of the
        element when the minimum alignment is enough, and still decides and does exactly the same. */
    method InplaceAllocateFixed(controlBits: nat, includeType: bool, size0: nat, alignment0: nat, ghost status: Status)
      returns (r: Option<Allocation>)
      requires Core() && controlBits == StatusBits(status) && (status.Dead? || includeType)
      requires IsPow2(alignment0) && alignment0 > 0 && Aligned(size0, alignment0)
      requires loose == map[]
      modifies this`head, this`tail, this`mem, this`slots, this`headPage, this`tailPage, this`loose, allocator
      ensures Core() && loose == old(loose)
      ensures allocator.failures == old(allocator.failures) + if r.None? then 1 else 0
      ensures FitsBehind(cfg, old(tail), includeType, size0, alignment0) ==>
                r.Some? && allocator.pages == old(allocator.pages) && allocator.blocks == old(allocator.blocks)
      ensures r.Some? ==>
                if FitsBehind(cfg, old(tail), includeType, size0, alignment0) || FitsFresh(cfg, size0, alignment0) then
                  allocator.blocks == old(allocator.blocks)
                else
                  GrantedBlock(old(allocator.blocks), r.value.userStorage, size0, alignment0)
      ensures r.None? ==> head == old(head) && tail == old(tail) && slots == old(slots)
                          && allocator.pages == old(allocator.pages) && allocator.blocks == old(allocator.blocks)
      ensures r.Some? ==>
                var size, alignment := NormalSize(cfg, size0, alignment0), NormalAlignment(cfg, alignment0);
                && tail != cfg.Sentinel()
                && Grown(cfg, old(tail), old(slots), slots, r.value, status, includeType, size, alignment)
    {
      hide Represents, InPage, Aligned, UpperAlign, Live, IsPow2, SlotOk, Grown, EndOfPage, FitsBehind, FitsFresh;
      FitsDecides(cfg, tail, includeType, size0, alignment0);
      NormalFacts(cfg, size0, alignment0);
      FixedNormal(cfg, size0, alignment0);
      var alignment := if alignment0 > cfg.minAlign then alignment0 else cfg.minAlign;
      var size := UpperAlign(size0, alignment);
      var canFitInAPage := size + (alignment - cfg.minAlign) <= cfg.MaxSizeInPage();
      var overAligned := alignment > cfg.minAlign;
      ghost var attempts := 0;
      while true
        invariant Core() && loose == map[] && attempts <= 1
        invariant allocator.blocks == old(allocator.blocks) && allocator.failures == old(allocator.failures)
        invariant attempts == 0 ==> head == old(head) && tail == old(tail) && slots == old(slots)
                                    && tailPage == old(tailPage) && allocator.pages == old(allocator.pages)
        invariant attempts == 0 || Decide(cfg, old(tail), includeType, size, alignment).InNewPage?
        invariant attempts == 1 ==>
                    && tail != cfg.Sentinel() && tail == tailPage && InPage(cfg, tail, tail)
                    && slots == old(slots) + (if old(tail) == cfg.Sentinel() then []
                                              else [JumpSlot(old(tail), old(tailPage), tail)])
        decreases 1 - attempts
      {
        var controlBlock := tail;
        var newTail := controlBlock + (if includeType then cfg.control + cfg.typeSpace else cfg.control);
        if overAligned {
          newTail := UpperAlign(newTail, alignment);
        }
        var newElement := newTail;
        newTail := newTail + size;
        var endOfPage := EndOfPage(cfg, controlBlock);
        TailInPageOrSentinel(cfg, head, headPage, slots, tail, tailPage, mem, loose, allocator.pages, allocator.blocks);
        FixedDecides(cfg, tail, tailPage, includeType, size, alignment);
        if attempts == 1 {
          FreshPageFits(cfg, tail, includeType, size, alignment);
        }
        if newTail <= endOfPage {
          GrownInPages(cfg, old(tail), old(slots), old(tailPage), tail, tailPage, status, includeType, size, alignment,
                       attempts == 1);
          assert old(slots) + [] == old(slots);
          PlaceAtTail(controlBits, newTail, includeType, size, alignment, status);
          return Some(Allocation(controlBlock, newElement));
        } else if canFitInAPage {
          var ok := AllocateNewPage();
          if !ok {
            return None;
          }
          attempts := attempts + 1;
        } else {
          r := ExternalAllocate(controlBits, size, alignment, status, includeType);
          return;
        }
      }
    }

    // ---- puts -------------------------------------------------------------------------------------------

    /** Adds an element with a type known at run time (`start_dyn_push` and its variants), or at compile
        time (`start_emplace`); reentrant or not. `throws` tells whether the construction of the type
        or of the element throws. */
    method StartPut(rtype: RuntimeType, value: V, reentrant: bool, fixedType: bool, throws: bool) returns (r: PutResult)
      requires Valid() && F.NoOpen(fifo.live)
      requires IsPow2(rtype.alignment) && rtype.alignment > 0 && Aligned(rtype.size, rtype.alignment)
      modifies this, allocator
      ensures Valid() && raws == old(raws)
      ensures allocator.failures == old(allocator.failures) + if r.AllocationFailed? then 1 else 0
      ensures FitsBehind(cfg, old(tail), true, rtype.size, rtype.alignment) ==> !r.AllocationFailed?
      ensures r.Put? ==>
                if FitsBehind(cfg, old(tail), true, rtype.size, rtype.alignment)
                   || FitsFresh(cfg, rtype.size, rtype.alignment) then
                  allocator.blocks == old(allocator.blocks)
                else
                  GrantedBlock(old(allocator.blocks), r.a.userStorage, rtype.size, rtype.alignment)
      ensures FitsBehind(cfg, old(tail), true, rtype.size, rtype.alignment) ==> allocator.pages == old(allocator.pages)
      ensures r.AllocationFailed? ==> fifo == old(fifo) && slots == old(slots)
      ensures r.AllocationFailed? ==> head == old(head) && tail == old(tail)
      ensures r.AllocationFailed? ==> allocator.pages == old(allocator.pages)
      ensures r.AllocationFailed? ==> allocator.blocks == old(allocator.blocks)
      ensures r.ConstructionFailed? ==> throws && fifo == old(fifo) && DeadGrowth(old(slots), slots)
      ensures r.Put? ==> !throws && Aligned(r.a.userStorage, rtype.alignment)
      ensures r.Put? ==>
                F.Step(old(fifo), F.StartPut(Cell(r.a.controlBlock, r.a.userStorage, rtype, value), reentrant), fifo)
      ensures r.Put? ==> Handle(r.a.controlBlock, old(fifo.nextId), if reentrant then F.Pending else F.Open)
      ensures r.Put? ==> old(slots) < slots && Placed(old(tail), old(slots), r.a, rtype, reentrant)
      ensures r.Put? ==>
                Logged(old(history), F.StartPut(Cell(r.a.controlBlock, r.a.userStorage, rtype, value), reentrant))
      ensures !r.Put? ==> history == old(history)
    {
      hide Represents, Aligned, UpperAlign, Live, IsPow2, SlotOk, Grown, F.Inv, F.Reached, RawsKept, F.NoOpen, Finished,
           FitsBehind, FitsFresh, GrantedBlock, Decide, NormalSize, StorageAt, EndOfPage, F.Holds, F.Enabled, F.Apply;
      var controlBits := if reentrant then BUSY else 0;
      ghost var status := Alive(if reentrant then F.Pending else F.Open);
      var placed: Option<Allocation>;
      if fixedType {
        placed := InplaceAllocateFixed(controlBits, true, rtype.size, rtype.alignment, status);
      } else {
        placed := InplaceAllocate(controlBits, true, rtype.size, rtype.alignment, status);
      }
      if placed.None? {
        return AllocationFailed;
      }
      var a := placed.value;
      GrownFacts(cfg, old(tail), old(slots), slots, a, status, rtype);
      GrownKeeps(old(slots), slots, raws, fifo.nextId);
      if throws {
        AbandonSlot(a.controlBlock, reentrant);
        return ConstructionFailed;
      }
      ghost var grown := slots;
      FinishPut(a, rtype, value, reentrant, old(slots));
      Unfilled(old(slots), grown, slots, old(fifo.nextId), rtype, value);
      r := Put(a);
    }

    /** The element has gone where `Decide` says. */
    ghost predicate Placed(tail0: nat, slots0: seq<Slot<V>>, a: Allocation, rtype: RuntimeType, reentrant: bool)
      reads this
    {
      rtype.alignment > 0 && cfg.Valid() && slots != [] &&
      var s := slots[|slots| - 1];
      Grown(cfg, tail0, slots0, slots[|slots| - 1 := s.(content := Blank)], a,
            Alive(if reentrant then F.Pending else F.Open), true, NormalSize(cfg, rtype.size, rtype.alignment),
            NormalAlignment(cfg, rtype.alignment))
    }

    /** The raw block has gone where `Decide` says, without room for a type. */
    ghost predicate RawPlaced(tail0: nat, slots0: seq<Slot<V>>, block: nat, size: nat, alignment: nat)
      reads this
    {
      alignment > 0 && cfg.Valid() && slots != [] &&
      Grown(cfg, tail0, slots0, slots, Allocation(slots[|slots| - 1].addr, block), Dead, false,
            NormalSize(cfg, size, alignment), NormalAlignment(cfg, alignment))
    }

    /** The construction threw: the new slot is marked dead. */
    method AbandonSlot(control: nat, reentrant: bool)
      requires Core() && loose == map[] && F.Reached(history, fifo) && F.Inv(fifo) && RawsKept(slots, raws, fifo.nextId)
      requires slots != [] && Finished(slots[..|slots| - 1])
      requires var s := slots[|slots| - 1];
               s.addr == control && s.content.Blank? && s.status == Alive(if reentrant then F.Pending else F.Open)
      modifies this`mem, this`slots
      ensures Valid()
      ensures slots == old(slots)[|old(slots)| - 1 := WithStatus(old(slots)[|old(slots)| - 1], Dead)]
    {
      hide Represents, Aligned, UpperAlign, Live, IsPow2, SlotOk, F.Inv, F.Reached, RawsKept, StateBits;
      ghost var n := |slots| - 1;
      SetFlags(cfg, head, headPage, slots, tail, tailPage, mem, loose, allocator.pages, allocator.blocks, n, Dead);
      RawsAfterStatus(slots, raws, fifo.nextId, n, Dead);
      LiveLast(slots, WithStatus(slots[n], Dead));
      FinishedLast(slots, WithStatus(slots[n], Dead));
      assert StateBits(mem.words[control]) == (if reentrant then BUSY else 0);
      if reentrant {
        mem := mem.(words := mem.words[control := mem.words[control] + (DEAD - BUSY)]);
      } else {
        mem := mem.(words := mem.words[control := mem.words[control] + DEAD]);
      }
      slots := slots[n := WithStatus(slots[n], Dead)];
    }

    /** The type and the element are constructed in the new slot. */
    method FinishPut(a: Allocation, rtype: RuntimeType, value: V, reentrant: bool, ghost before: seq<Slot<V>>)
      requires Core() && loose == map[] && F.Reached(history, fifo) && F.Inv(fifo) && F.NoOpen(fifo.live)
      requires RawsKept(slots, raws, fifo.nextId)
      requires tail != cfg.Sentinel() && slots != [] && Finished(slots[..|slots| - 1])
      requires NewObjectSlot(cfg, slots[|slots| - 1], a, Alive(if reentrant then F.Pending else F.Open), rtype)
      modifies this`mem, this`slots, this`fifo, this`history
      ensures Valid()
      ensures F.Step(old(fifo), F.StartPut(Cell(a.controlBlock, a.userStorage, rtype, value), reentrant), fifo)
      ensures Handle(a.controlBlock, old(fifo.nextId), if reentrant then F.Pending else F.Open)
      ensures Logged(old(history), F.StartPut(Cell(a.controlBlock, a.userStorage, rtype, value), reentrant))
      ensures var n := |old(slots)| - 1;
              slots == old(slots)[n := WithObject(old(slots)[n], old(fifo.nextId), rtype, value)]
    {
      hide Represents, Aligned, UpperAlign, Live, IsPow2, SlotOk, F.Inv, F.Reached, RawsKept, F.NoOpen, ResourcesOk,
           NormalSize, NormalAlignment, StorageAt;
      ghost var n := |slots| - 1;
      ghost var id := fifo.nextId;
      ghost var t := WithObject(slots[n], id, rtype, value);
      ghost var cell := Cell(a.controlBlock, a.userStorage, rtype, value);
      ConstructObject(cfg, head, headPage, slots, tail, tailPage, mem, loose, allocator.pages, allocator.blocks,
                      allocator.limit, id, rtype, value);
      RawsAfterObject(slots, raws, id, rtype, value);
      FinishedLast(slots, t);
      F.ReachedStep(history, fifo, F.StartPut(cell, reentrant));
      F.StartPutFinds(fifo, cell, reentrant);
      mem := mem.(types := mem.types[a.controlBlock + cfg.control := rtype]);
      mem := mem.(elements := mem.elements[a.userStorage := value]);
      slots := slots[n := t];
      history, fifo := history + [F.StartPut(cell, reentrant)], F.Apply(fifo, F.StartPut(cell, reentrant));
    }

    /** Committing a non-reentrant put writes nothing: its element has had no flags from the start. */
    method CommitPut(control: nat, ghost id: nat)
      requires Valid() && Handle(control, id, F.Open)
      modifies this`slots, this`fifo, this`history
      ensures Valid() && F.Step(old(fifo), F.CommitPut(id), fifo)
      ensures Logged(old(history), F.CommitPut(id))
      ensures exists i :: StatusSet(old(slots), slots, i, control, Alive(F.Ready))
    {
      hide Represents, Live, F.Inv, F.Reached, RawsKept, Finished;
      InvOrdered(fifo);
      ghost var i := ChangeStatus(cfg, head, headPage, slots, tail, tailPage, mem, loose, allocator.pages,
                                  allocator.blocks, raws, fifo.nextId, control, id, Alive(F.Ready));
      F.ReachedStep(history, fifo, F.CommitPut(id));
      SameWord(mem, control);
      WithStatusSets(slots, i, Alive(F.Ready));
      slots := slots[i := WithStatus(slots[i], Alive(F.Ready))];
      history, fifo := history + [F.CommitPut(id)], F.Apply(fifo, F.CommitPut(id));
    }

    /** Canceling a non-reentrant put destroys the element and marks its slot dead. */
    method CancelPut(control: nat, ghost id: nat)
      requires Valid() && Handle(control, id, F.Open)
      modifies this`mem, this`slots, this`fifo, this`history
      ensures Valid() && F.Step(old(fifo), F.CancelPut(id), fifo)
      ensures Logged(old(history), F.CancelPut(id))
      ensures exists i :: StatusSet(old(slots), slots, i, control, Dead)
    {
      hide Represents, Live, F.Inv, F.Reached, RawsKept, Finished, StateBits;
      InvOrdered(fifo);
      ghost var i := ChangeStatus(cfg, head, headPage, slots, tail, tailPage, mem, loose, allocator.pages,
                                  allocator.blocks, raws, fifo.nextId, control, id, Dead);
      F.ReachedStep(history, fifo, F.CancelPut(id));
      assert StateBits(mem.words[control]) == 0;
      mem := mem.(words := mem.words[control := mem.words[control] + DEAD]);
      WithStatusSets(slots, i, Dead);
      slots := slots[i := WithStatus(slots[i], Dead)];
      history, fifo := history + [F.CancelPut(id)], F.Apply(fifo, F.CancelPut(id));
    }

    method CommitReentrantPut(control: nat, ghost id: nat)
      requires Valid() && Handle(control, id, F.Pending) && F.NoOpen(fifo.live)
      modifies this`mem, this`slots, this`fifo, this`history
      ensures Valid() && F.Step(old(fifo), F.CommitPut(id), fifo)
      ensures Logged(old(history), F.CommitPut(id))
      ensures exists i :: StatusSet(old(slots), slots, i, control, Alive(F.Ready))
    {
      hide Represents, Live, F.Inv, F.Reached, RawsKept, Finished, StateBits, F.NoOpen;
      InvOrdered(fifo);
      ghost var i := ChangeStatus(cfg, head, headPage, slots, tail, tailPage, mem, loose, allocator.pages,
                                  allocator.blocks, raws, fifo.nextId, control, id, Alive(F.Ready));
      F.ReachedStep(history, fifo, F.CommitPut(id));
      assert StateBits(mem.words[control]) == BUSY;
      mem := mem.(words := mem.words[control := mem.words[control] - BUSY]);
      WithStatusSets(slots, i, Alive(F.Ready));
      slots := slots[i := WithStatus(slots[i], Alive(F.Ready))];
      history, fifo := history + [F.CommitPut(id)], F.Apply(fifo, F.CommitPut(id));
    }

    method CancelReentrantPut(control: nat, ghost id: nat)
      requires Valid() && Handle(control, id, F.Pending) && F.NoOpen(fifo.live)
      modifies this`mem, this`slots, this`fifo, this`history
      ensures Valid() && F.Step(old(fifo), F.CancelPut(id), fifo)
      ensures Logged(old(history), F.CancelPut(id))
      ensures exists i :: StatusSet(old(slots), slots, i, control, Dead)
    {
      hide Represents, Live, F.Inv, F.Reached, RawsKept, Finished, StateBits, F.NoOpen;
      InvOrdered(fifo);
      ghost var i := ChangeStatus(cfg, head, headPage, slots, tail, tailPage, mem, loose, allocator.pages,
                                  allocator.blocks, raws, fifo.nextId, control, id, Dead);
      F.ReachedStep(history, fifo, F.CancelPut(id));
      assert StateBits(mem.words[control]) == BUSY;
      mem := mem.(words := mem.words[control := mem.words[control] + (DEAD - BUSY)]);
      WithStatusSets(slots, i, Dead);
      slots := slots[i := WithStatus(slots[i], Dead)];
      history, fifo := history + [F.CancelPut(id)], F.Apply(fifo, F.CancelPut(id));
    }

    /** Allocates memory that lives as long as the element being put. Its slot is dead from birth. */
    method RawAllocate(size: nat, alignment: nat, ghost owner: nat) returns (r: Option<nat>)
      requires Valid() && IsPow2(alignment) && alignment > 0 && Aligned(size, alignment)
      requires F.Holds(fifo.live, owner, F.Open) || (F.Holds(fifo.live, owner, F.Pending) && F.NoOpen(fifo.live))
      modifies this, allocator
      ensures Valid() && fifo == old(fifo)
      ensures allocator.failures == old(allocator.failures) + if r.None? then 1 else 0
      ensures FitsBehind(cfg, old(tail), false, size, alignment) ==> r.Some?
      ensures r.Some? ==>
                if FitsBehind(cfg, old(tail), false, size, alignment) || FitsFresh(cfg, size, alignment) then
                  allocator.blocks == old(allocator.blocks)
                else
                  GrantedBlock(old(allocator.blocks), r.value, size, alignment)
      ensures FitsBehind(cfg, old(tail), false, size, alignment) ==> allocator.pages == old(allocator.pages)
      ensures r.None? ==> raws == old(raws) && slots == old(slots) && head == old(head) && tail == old(tail)
      ensures r.None? ==> allocator.pages == old(allocator.pages) && allocator.blocks == old(allocator.blocks)
      ensures r.Some? ==> Aligned(r.value, alignment)
      ensures r.Some? ==> old(slots) < slots && NewRaw(slots[|slots| - 1], r.value, size)
      ensures r.Some? ==> raws == old(raws) + {RawBlock(owner, slots[|slots| - 1])}
      ensures r.Some? ==> RawPlaced(old(tail), old(slots), r.value, size, alignment)
    {
      hide Represents, Aligned, UpperAlign, Live, IsPow2, SlotOk, Grown, F.Inv, F.Reached, RawsKept, F.NoOpen, Finished,
           FitsBehind, FitsFresh, GrantedBlock, Decide;
      var a := InplaceAllocate(DEAD, false, size, alignment, Dead);
      if a.None? {
        return None;
      }
      InvOrdered(fifo);
      GrownRaw(cfg, old(tail), old(slots), slots, a.value, size, alignment, raws, fifo.nextId, owner);
      ghost var s := slots[|slots| - 1];
      assert NewRaw(s, a.value.userStorage, size);
      raws := raws + {RawBlock(owner, s)};
      r := Some(a.value.userStorage);
    }

    // ---- consumes -----------------------------------------------------------------------------------------

    /** Takes the first element that is neither busy nor dead. */
    method StartConsume() returns (control: Option<nat>)
      requires Valid() && F.NoOpen(fifo.live)
      modifies this`mem, this`slots, this`fifo, this`history
      ensures Valid() && F.Step(old(fifo), F.StartConsume, fifo)
      ensures Logged(old(history), F.StartConsume)
      ensures control.None? <==> F.Visible(old(fifo)) == []
      ensures control.Some? ==>
                Handle(control.value, F.Visible(old(fifo))[0].id, F.Taken)
                && control.value == F.Visible(old(fifo))[0].value.control
      ensures control.None? ==> slots == old(slots)
      ensures control.Some? ==> exists i :: StatusSet(old(slots), slots, i, control.value, Alive(F.Taken))
    {
      hide Represents, Live, F.Inv, F.Reached, RawsKept, Finished, StateBits, F.NoOpen, F.Items, Chain, NextOf;
      var curr: nat := head;
      ghost var k := 0;
      ghost var page := headPage;
      WalkStart(cfg, head, headPage, slots, tail, tailPage, mem, loose, allocator.pages, allocator.blocks);
      while curr != tail
        invariant Valid() && mem == old(mem) && slots == old(slots) && fifo == old(fifo) && history == old(history)
        invariant k <= |slots| && Passed(slots, k) && Walk(cfg, curr, page, slots, k, tail, tailPage)
        decreases |slots| - k
      {
        WalkStep(cfg, curr, page, slots, k, tail, tailPage, head, headPage, mem, loose, allocator.pages,
                 allocator.blocks);
        if StateBits(mem.words[curr]) == 0 {
          TakeSlot(curr, k);
          return Some(curr);
        }
        page := PageAfter(slots[k]);
        k := k + 1;
        curr := NextOf(mem.words[curr]);
      }
      WalkEnd(cfg, curr, page, slots, k, tail, tailPage);
      FirstReadySlot(slots, k);
      F.TakeFirst(fifo.live, F.FirstReady(fifo.live));
      F.ReachedStep(history, fifo, F.StartConsume);
      history := history + [F.StartConsume];
      control := None;
    }

    /** Marks the first slot without flags as busy. */
    method TakeSlot(curr: nat, ghost k: nat)
      requires Valid() && F.NoOpen(fifo.live)
      requires k < |slots| && slots[k].addr == curr && Passed(slots, k) && StatusBits(slots[k].status) == 0
      requires curr in mem.words && mem.words[curr] == WordOf(slots[k])
      modifies this`mem, this`slots, this`fifo, this`history
      ensures Valid() && F.Step(old(fifo), F.StartConsume, fifo)
      ensures Logged(old(history), F.StartConsume)
      ensures F.Visible(old(fifo)) != [] && F.Visible(old(fifo))[0].value.control == curr
      ensures Handle(curr, F.Visible(old(fifo))[0].id, F.Taken)
      ensures StatusSet(old(slots), slots, k, curr, Alive(F.Taken))
    {
      hide Represents, Live, F.Inv, F.Reached, RawsKept, Finished, StateBits, F.NoOpen, F.Items, WordOf, Passed;
      InvOrdered(fifo);
      TakeStatus(cfg, head, headPage, slots, tail, tailPage, mem, loose, allocator.pages, allocator.blocks, raws,
                 fifo.nextId, k);
      F.ReachedStep(history, fifo, F.StartConsume);
      F.TakeFirst(fifo.live, F.FirstReady(fifo.live));
      F.SetPhaseFinds(fifo.live, fifo.nextId, F.FirstReady(fifo.live), F.Taken);
      mem := mem.(words := mem.words[curr := mem.words[curr] + BUSY]);
      WithStatusSets(slots, k, Alive(F.Taken));
      slots := slots[k := WithStatus(slots[k], Alive(F.Taken))];
      history, fifo := history + [F.StartConsume], F.Apply(fifo, F.StartConsume);
    }

    /** Puts the element back where it was. */
    method CancelConsume(control: nat, ghost id: nat)
      requires Valid() && Handle(control, id, F.Taken) && F.NoOpen(fifo.live)
      modifies this`mem, this`slots, this`fifo, this`history
      ensures Valid() && F.Step(old(fifo), F.CancelConsume(id), fifo)
      ensures Logged(old(history), F.CancelConsume(id))
      ensures exists i :: StatusSet(old(slots), slots, i, control, Alive(F.Ready))
    {
      hide Represents, Live, F.Inv, F.Reached, RawsKept, Finished, StateBits, F.NoOpen;
      InvOrdered(fifo);
      ghost var i := ChangeStatus(cfg, head, headPage, slots, tail, tailPage, mem, loose, allocator.pages,
                                  allocator.blocks, raws, fifo.nextId, control, id, Alive(F.Ready));
      F.ReachedStep(history, fifo, F.CancelConsume(id));
      assert StateBits(mem.words[control]) == BUSY;
      mem := mem.(words := mem.words[control := mem.words[control] - BUSY]);
      WithStatusSets(slots, i, Alive(F.Ready));
      slots := slots[i := WithStatus(slots[i], Alive(F.Ready))];
      history, fifo := history + [F.CancelConsume(id)], F.Apply(fifo, F.CancelConsume(id));
    }

    /** Marks the slot dead and reclaims the dead slots at the head. */
    method CommitConsume(control: nat, ghost id: nat)
      requires Valid() && Handle(control, id, F.Taken) && F.NoOpen(fifo.live)
      modifies this, allocator
      ensures Valid() && F.Step(old(fifo), F.CommitConsume(id), fifo)
      ensures Logged(old(history), F.CommitConsume(id))
      ensures raws == old(raws) && tail == old(tail) && allocator.failures == old(allocator.failures)
      ensures exists i: nat, dead :: StatusSet(old(slots), dead, i, control, Dead) && slots == DropDead(dead)
    {
      hide Represents, Live, F.Inv, F.Reached, RawsKept, Finished, StateBits, F.NoOpen, DropDead;
      InvOrdered(fifo);
      ghost var i := ChangeStatus(cfg, head, headPage, slots, tail, tailPage, mem, loose, allocator.pages,
                                  allocator.blocks, raws, fifo.nextId, control, id, Dead);
      F.ReachedStep(history, fifo, F.CommitConsume(id));
      assert StateBits(mem.words[control]) == BUSY;
      mem := mem.(words := mem.words[control := mem.words[control] + (DEAD - BUSY)]);
      WithStatusSets(slots, i, Dead);
      slots := slots[i := WithStatus(slots[i], Dead)];
      history, fifo := history + [F.CommitConsume(id)], F.Apply(fifo, F.CommitConsume(id));
      CleanDeadElements();
    }

    /** Frees the dead slots before the first one that is alive: the heap block of each external slot and
        each page that the chain leaves. */
    method CleanDeadElements()
      requires Valid()
      modifies this`head, this`headPage, this`slots, allocator
      ensures Valid() && slots == DropDead(old(slots)) && allocator.failures == old(allocator.failures)
    {
      hide Represents, Live, F.Inv, F.Reached, RawsKept, Finished, StateBits, NextOf, SlotOk, LowerAlign, IsExternal,
           DropDead;
      var curr: nat := head;
      ghost var page := headPage;
      while curr != tail
        invariant cfg.Valid() && allocator.Valid() && allocator.pageAlign == cfg.pageAlign && loose == map[]
        invariant Represents(cfg, curr, page, slots, tail, tailPage, mem, loose, allocator.pages, allocator.blocks)
        invariant fifo.live == Live(slots) && Finished(slots) && F.Reached(history, fifo) && F.Inv(fifo)
        invariant RawsKept(slots, raws, fifo.nextId)
        invariant DropDead(slots) == DropDead(old(slots)) && allocator.failures == old(allocator.failures)
        decreases |slots|
      {
        NotEmpty(cfg, curr, page, slots, tail, tailPage, mem, loose, allocator.pages, allocator.blocks);
        SweepFirst(cfg, curr, page, slots, tail, tailPage, mem, loose, allocator.pages, allocator.blocks);
        ghost var s := slots[0];
        WordBits(cfg, s);
        DropDeadStep(slots);
        if StateBits(mem.words[curr]) != DEAD {
          break;
        }
        RawsAfterSweep(slots, raws, fifo.nextId);
        LiveDropDead(slots);
        var next: nat := NextOf(mem.words[curr]);
        if IsExternal(mem.words[curr]) {
          var block := mem.externals[curr + cfg.control + cfg.typeSpace];
          allocator.Deallocate(block.element, block.size, block.alignment);
        }
        if !SameFrame(next, curr, cfg.pageAlign) {
          allocator.DeallocatePage(curr);
        }
        page := PageAfter(s);
        slots := slots[1..];
        curr := next;
      }
      DropDeadDone(cfg, curr, page, slots, tail, tailPage, mem, loose, allocator.pages, allocator.blocks);
      head, headPage := curr, page;
    }

    /** Binds an operation object to a new consume of this queue. If the object already holds an operation,
        of this queue or of another one, that is canceled first, in its own queue. */
    method StartConsumeWith(from: HeterQueue<V>, bound: Option<nat>, ghost id: nat) returns (control: Option<nat>)
      requires Valid() && F.NoOpen(fifo.live)
      requires bound.Some? ==> from.Valid() && F.NoOpen(from.fifo.live) && from.Handle(bound.value, id, F.Taken)
      modifies this`mem, this`slots, this`fifo, this`history
      modifies from`mem, from`slots, from`fifo, from`history
      ensures Valid() && (bound.Some? ==> from.Valid())
      ensures from != this && bound.Some? ==> F.Step(old(from.fifo), F.CancelConsume(id), from.fifo)
      ensures from != this && bound.Some? ==> from.Logged(old(from.history), F.CancelConsume(id))
      ensures from != this && bound.None? ==> from.mem == old(from.mem) && from.slots == old(from.slots)
      ensures from != this && bound.None? ==> from.fifo == old(from.fifo) && from.history == old(from.history)
      ensures exists s ::
                && (if bound.Some? && from == this then F.Step(old(fifo), F.CancelConsume(id), s) else s == old(fifo))
                && F.Step(s, F.StartConsume, fifo)
                && (control.None? <==> F.Visible(s) == [])
                && (control.Some? ==> Handle(control.value, F.Visible(s)[0].id, F.Taken))
    {
      hide Represents, Live, F.Inv, F.Reached, RawsKept, Finished, F.NoOpen, F.Items;
      if bound.Some? {
        F.StillNoOpen(from.fifo, F.CancelConsume(id));
        from.CancelConsume(bound.value, id);
      }
      ghost var s := fifo;
      control := StartConsume();
      assert F.Step(s, F.StartConsume, fifo);
    }

    /** Consumes everything that can be consumed, and reclaims. Elements held by handles stay. */
    method Clear()
      requires Valid() && F.NoOpen(fifo.live)
      modifies this, allocator
      ensures Valid() && F.NoOpen(fifo.live) && raws == old(raws) && tail == old(tail)
      ensures allocator.failures == old(allocator.failures)
      ensures fifo == F.Clear(old(fifo)) && F.Visible(fifo) == [] && old(history) <= history
      ensures slots == [] || slots[0].status.Alive?
    {
      hide Represents, Live, F.Inv, F.Reached, RawsKept, Finished, F.NoOpen, F.Items, F.Ordered, DropDead, StatusSet,
           WithStatus, F.Holds;
      InvOrdered(fifo);
      ghost var all := F.Clear(fifo);
      while true
        invariant Valid() && F.NoOpen(fifo.live) && F.Ordered(fifo.live, fifo.nextId)
        invariant raws == old(raws) && tail == old(tail) && old(history) <= history
        invariant allocator.failures == old(allocator.failures)
        invariant F.Clear(fifo) == all
        decreases |fifo.live|
      {
        ghost var s := fifo;
        ghost var i := F.FirstReady(fifo.live);
        F.TakeFirst(fifo.live, i);
        F.StillNoOpen(fifo, F.StartConsume);
        var consume := StartConsume();
        if consume.None? {
          break;
        }
        F.ConsumeFirstIsTwoOps(s);
        F.ConsumeFirstStep(s);
        CommitConsume(consume.value, s.live[i].item.id);
      }
      F.TakeFirst(fifo.live, F.FirstReady(fifo.live));
      DropDeadHead(slots);
      CleanDeadElements();
    }

    /** The destructor: with no open handle, every page and every heap block is given back. */
    method Destroy()
      requires Valid()
      requires forall i :: 0 <= i < |fifo.live| ==> fifo.live[i].phase.Ready?
      modifies this, allocator
      ensures allocator.pages == {} && allocator.blocks == map[]
      ensures head == tail
    {
      hide Represents, Live, F.Inv, F.Reached, RawsKept, F.Items, LowerAlign;
      F.ClearAll(fifo);
      Clear();
      NoEntryNoLife(slots);
      LastPage(cfg, head, headPage, slots, tail, tailPage, mem, allocator.pages, allocator.blocks);
      if head != cfg.Sentinel() {
        allocator.DeallocatePage(head);
      }
    }

    // ---- observers ----------------------------------------------------------------------------------------

    method Empty() returns (empty: bool)
      requires Valid() && F.NoOpen(fifo.live)
      ensures empty <==> F.Visible(fifo) == []
    {
      hide Represents, Live, F.Inv, F.Reached, RawsKept, Finished, StateBits, F.NoOpen, F.Items, Chain, NextOf;
      var curr: nat := head;
      ghost var k := 0;
      ghost var page := headPage;
      WalkStart(cfg, head, headPage, slots, tail, tailPage, mem, loose, allocator.pages, allocator.blocks);
      ReadyEnds(slots);
      while curr != tail
        invariant k <= |slots| && Walk(cfg, curr, page, slots, k, tail, tailPage) && ReadyBefore(slots, k) == 0
        decreases |slots| - k
      {
        WalkStep(cfg, curr, page, slots, k, tail, tailPage, head, headPage, mem, loose, allocator.pages,
                 allocator.blocks);
        ReadyAt(slots, k);
        if StateBits(mem.words[curr]) == 0 {
          return false;
        }
        page := PageAfter(slots[k]);
        k := k + 1;
        curr := NextOf(mem.words[curr]);
      }
      WalkEnd(cfg, curr, page, slots, k, tail, tailPage);
      empty := true;
    }

    /** The control block of the visible element number `n`, or none behind the last one. */
    ghost function CursorAt(n: nat): Option<nat>
      reads this
    {
      if n < |F.Visible(fifo)| then Some(F.Visible(fifo)[n].value.control) else None
    }

    method FirstValid() returns (control: Option<nat>)
      requires Valid() && F.NoOpen(fifo.live)
      ensures control == CursorAt(0)
    {
      hide Represents, Live, F.Inv, F.Reached, RawsKept, Finished, StateBits, F.NoOpen, F.Items, Chain, NextOf;
      var curr: nat := head;
      ghost var k := 0;
      ghost var page := headPage;
      WalkStart(cfg, head, headPage, slots, tail, tailPage, mem, loose, allocator.pages, allocator.blocks);
      ReadyEnds(slots);
      while curr != tail
        invariant k <= |slots| && Walk(cfg, curr, page, slots, k, tail, tailPage) && ReadyBefore(slots, k) == 0
        decreases |slots| - k
      {
        WalkStep(cfg, curr, page, slots, k, tail, tailPage, head, headPage, mem, loose, allocator.pages,
                 allocator.blocks);
        ReadyAt(slots, k);
        if StateBits(mem.words[curr]) == 0 {
          return Some(curr);
        }
        page := PageAfter(slots[k]);
        k := k + 1;
        curr := NextOf(mem.words[curr]);
      }
      WalkEnd(cfg, curr, page, slots, k, tail, tailPage);
      control := None;
    }

    /** The element is in the pages, so that the first hop of an increment is right. */
    ghost predicate Steppable(control: nat)
      reads this
    {
      control in mem.words && !IsExternal(mem.words[control])
    }

    /** The visible element behind the one at `from`, which must not be external: its first hop keeps the
        external flag (see `FirstHopExactly`). */
    method NextValid(from: nat, ghost n: nat) returns (control: Option<nat>)
      requires Valid() && F.NoOpen(fifo.live)
      requires CursorAt(n) == Some(from) && Steppable(from)
      ensures control == CursorAt(n + 1)
    {
      hide Represents, Live, F.Inv, F.Reached, RawsKept, Finished, StateBits, F.NoOpen, F.Items, Chain, NextOf,
           IsExternal, FirstHop;
      ghost var k := SlotOfVisibleStart(slots, n);
      ReadyAt(slots, k);
      ghost var page := WalkFrom(cfg, head, headPage, slots, tail, tailPage, mem, loose, allocator.pages,
                                 allocator.blocks, k);
      ReadyEnds(slots);
      k := k + 1;
      var curr: nat := FirstHop(mem.words[from]);
      while curr != tail
        invariant k <= |slots| && Walk(cfg, curr, page, slots, k, tail, tailPage) && ReadyBefore(slots, k) == n + 1
        decreases |slots| - k
      {
        WalkStep(cfg, curr, page, slots, k, tail, tailPage, head, headPage, mem, loose, allocator.pages,
                 allocator.blocks);
        ReadyAt(slots, k);
        if StateBits(mem.words[curr]) == 0 {
          return Some(curr);
        }
        page := PageAfter(slots[k]);
        k := k + 1;
        curr := NextOf(mem.words[curr]);
      }
      WalkEnd(cfg, curr, page, slots, k, tail, tailPage);
      control := None;
    }

    /** What an iterator shows: the type and the element of the control block it is at. */
    method Dereference(control: nat, ghost n: nat) returns (rtype: RuntimeType, value: V)
      requires Valid() && F.NoOpen(fifo.live) && CursorAt(n) == Some(control)
      ensures rtype == F.Visible(fifo)[n].value.rtype && value == F.Visible(fifo)[n].value.value
    {
      hide Represents, Live, F.Inv, F.Reached, RawsKept, Finished, F.NoOpen, F.Items, Chain, IsExternal, SlotOk,
           UpperAlign;
      ghost var k := SlotOfVisibleStart(slots, n);
      SlotReadable(cfg, head, headPage, slots, tail, tailPage, mem, loose, allocator.pages, allocator.blocks, k);
      rtype := mem.types[control + cfg.control];
      value := mem.elements[GetElement(cfg, mem, control)];
    }

    ghost predicate AllSteppable()
      reads this
    {
      forall n :: 0 <= n < |F.Visible(fifo)| ==> Steppable(F.Visible(fifo)[n].value.control)
    }

    /** Iterating from the beginning shows exactly the visible elements, in order. */
    method Iterate() returns (shown: seq<(RuntimeType, V)>)
      requires Valid() && F.NoOpen(fifo.live) && AllSteppable()
      ensures |shown| == |F.Visible(fifo)|
      ensures forall k :: 0 <= k < |shown| ==>
                shown[k].0 == F.Visible(fifo)[k].value.rtype && shown[k].1 == F.Visible(fifo)[k].value.value
    {
      hide Represents, Live, F.Inv, F.Reached, RawsKept, Finished, F.NoOpen, F.Items;
      shown := [];
      var it := FirstValid();
      while it.Some?
        invariant |shown| <= |F.Visible(fifo)| && it == CursorAt(|shown|)
        invariant forall k :: 0 <= k < |shown| ==>
                    shown[k].0 == F.Visible(fifo)[k].value.rtype && shown[k].1 == F.Visible(fifo)[k].value.value
        decreases |F.Visible(fifo)| - |shown|
      {
        var rtype, value := Dereference(it.value, |shown|);
        it := NextValid(it.value, |shown|);
        shown := shown + [(rtype, value)];
      }
    }
  }

  datatype PutResult = Put(a: Allocation) | AllocationFailed | ConstructionFailed

  /** Only dead slots have been added. */
  ghost predicate DeadGrowth<V>(before: seq<Slot<V>>, after: seq<Slot<V>>) {
    && |before| <= |after| && before == after[..|before|]
    && forall i :: |before| <= i < |after| ==> after[i].status.Dead?
  }

  /** A slot ready for the object it was placed for. */
  ghost predicate NewObjectSlot<V>(cfg: Config, s: Slot<V>, a: Allocation, status: Status, rtype: RuntimeType)
    requires cfg.Valid()
  {
    && s.addr == a.controlBlock && s.storage == a.userStorage && s.status == status && s.content.Blank?
    && IsPow2(rtype.alignment) && rtype.alignment > 0 && Aligned(rtype.size, rtype.alignment)
    && s.size == NormalSize(cfg, rtype.size, rtype.alignment)
    && NormalAlignment(cfg, rtype.alignment) > 0
    && Aligned(s.storage, NormalAlignment(cfg, rtype.alignment))
    && Aligned(s.storage, rtype.alignment)
    && (s.external.None? ==> s.storage == StorageAt(cfg, s.addr, true, NormalAlignment(cfg, rtype.alignment)))
  }

  lemma GrownFacts<V>(cfg: Config, oldTail: nat, before: seq<Slot<V>>, after: seq<Slot<V>>, a: Allocation,
                      status: Status, rtype: RuntimeType)
    requires cfg.Valid() && IsPow2(rtype.alignment) && rtype.alignment > 0 && Aligned(rtype.size, rtype.alignment)
    requires NormalAlignment(cfg, rtype.alignment) > 0
    requires Grown(cfg, oldTail, before, after, a, status, true, NormalSize(cfg, rtype.size, rtype.alignment),
                   NormalAlignment(cfg, rtype.alignment))
    ensures after != [] && NewObjectSlot(cfg, after[|after| - 1], a, status, rtype)
    ensures before < after && before == after[..|before|]
    ensures forall i :: |before| <= i < |after| - 1 ==> after[i].content.Jump? && after[i].status.Dead?
    ensures after[|after| - 1].content.Blank?
  {
    hide Aligned, UpperAlign, IsPow2, StorageAt, Decide, NormalSize;
    NormalFacts(cfg, rtype.size, rtype.alignment);
    WeakerAlignment(a.userStorage, NormalAlignment(cfg, rtype.alignment), rtype.alignment);
  }

  /** Without its object, the last slot is as it was when it was placed. */
  lemma Unfilled<V>(before: seq<Slot<V>>, grown: seq<Slot<V>>, after: seq<Slot<V>>, id: nat, rtype: RuntimeType,
                    value: V)
    requires before < grown && grown[|grown| - 1].content.Blank?
    requires after == grown[|grown| - 1 := WithObject(grown[|grown| - 1], id, rtype, value)]
    ensures before < after && after[|after| - 1 := after[|after| - 1].(content := Blank)] == grown
  {
    var n := |grown| - 1;
    assert after[n].(content := Blank) == grown[n];
  }

  lemma GrownKeeps<V>(before: seq<Slot<V>>, after: seq<Slot<V>>, raws: set<RawBlock<V>>, nextId: nat)
    requires RawsKept(before, raws, nextId) && Finished(before)
    requires |before| < |after| && before == after[..|before|]
    requires forall i :: |before| <= i < |after| - 1 ==> after[i].content.Jump? && after[i].status.Dead?
    requires after[|after| - 1].content.Blank?
    ensures RawsKept(after, raws, nextId)
    ensures Finished(after[..|after| - 1])
  {
    RawsAfterGrowth(before, after, raws, nextId);
    assert forall i :: 0 <= i < |before| ==> before[i] == after[i];
  }

  lemma FinishedLast<V>(slots: seq<Slot<V>>, t: Slot<V>)
    requires slots != [] && Finished(slots[..|slots| - 1]) && (t.status.Alive? ==> t.content.Object?)
    ensures Finished(slots[|slots| - 1 := t])
  {
    var n := |slots| - 1;
    var slots' := slots[n := t];
    forall i | 0 <= i < |slots'| && slots'[i].status.Alive?
      ensures slots'[i].content.Object?
    {
      if i < n {
        assert slots[..n][i] == slots'[i];
      }
    }
  }

  /** A new object takes an id that no raw block has as its owner. */
  lemma RawsAfterObject<V>(slots: seq<Slot<V>>, raws: set<RawBlock<V>>, id: nat, rtype: RuntimeType, value: V)
    requires slots != [] && RawsKept(slots, raws, id)
    requires slots[|slots| - 1].status.Alive? && slots[|slots| - 1].content.Blank?
    ensures RawsKept(slots[|slots| - 1 := WithObject(slots[|slots| - 1], id, rtype, value)], raws, id + 1)
  {
    var n := |slots| - 1;
    var slots' := slots[n := WithObject(slots[n], id, rtype, value)];
    forall r <- raws ensures RawKept(slots', r) {
      assert RawKept(slots, r);
      forall k | 0 <= k < |slots'| && IsObject(slots'[k], r.owner)
        ensures r.slot in slots'[k + 1..]
      {
        assert k < n && IsObject(slots[k], r.owner);
        var j :| 0 <= j < |slots[k + 1..]| && slots[k + 1..][j] == r.slot;
        assert slots[k + 1 + j] == r.slot && slots'[k + 1..][j] == r.slot;
      }
    }
  }

  /** A raw block of at least the size asked for, at its address. */
  ghost predicate NewRaw<V>(s: Slot<V>, storage: nat, size: nat) {
    s.storage == storage && size <= s.size && s.status.Dead? && s.content.Blank?
  }

  lemma SameWord<V>(m: Memory<V>, a: nat)
    requires a in m.words
    ensures m.(words := m.words[a := m.words[a]]) == m
  {
    assert m.words[a := m.words[a]] == m.words;
  }

  lemma GrownRaw<V>(cfg: Config, oldTail: nat, before: seq<Slot<V>>, after: seq<Slot<V>>, a: Allocation,
                    size: nat, alignment: nat, raws: set<RawBlock<V>>, nextId: nat, owner: nat)
    requires cfg.Valid() && IsPow2(alignment) && alignment > 0 && Aligned(size, alignment)
    requires NormalAlignment(cfg, alignment) > 0
    requires Grown(cfg, oldTail, before, after, a, Dead, false, NormalSize(cfg, size, alignment),
                   NormalAlignment(cfg, alignment))
    requires Finished(before) && RawsKept(before, raws, nextId)
    requires F.Ordered(Live(before), nextId) && F.Find(Live(before), owner) < |Live(before)|
    ensures before < after && Aligned(a.userStorage, alignment)
    ensures Finished(after) && RawsKept(after, raws + {RawBlock(owner, after[|after| - 1])}, nextId)
    ensures NewRaw(after[|after| - 1], a.userStorage, size)
    ensures a == Allocation(after[|after| - 1].addr, a.userStorage)
  {
    hide Aligned, UpperAlign, IsPow2, StorageAt, Decide, Live, IsObject;
    var s := after[|after| - 1];
    NormalFacts(cfg, size, alignment);
    WeakerAlignment(a.userStorage, NormalAlignment(cfg, alignment), alignment);
    assert forall i :: 0 <= i < |before| ==> before[i] == after[i];
    RawsAfterGrowth(before, after, raws, nextId);
    NewRawKept(before, after, owner);
  }

  lemma NewRawKept<V>(before: seq<Slot<V>>, after: seq<Slot<V>>, owner: nat)
    requires |before| < |after| && before == after[..|before|]
    requires forall i :: |before| <= i < |after| ==> !after[i].content.Object?
    ensures RawKept(after, RawBlock(owner, after[|after| - 1]))
  {
    var s := after[|after| - 1];
    forall i | 0 <= i < |after| && IsObject(after[i], owner)
      ensures s in after[i + 1..]
    {
      assert after[i + 1..][|after| - i - 2] == s;
    }
  }

  // ---- walking the chain ------------------------------------------------------------------------------------

  /** A walk has reached position `k` of the chain. */
  ghost predicate Walk<V>(cfg: Config, curr: nat, page: nat, slots: seq<Slot<V>>, k: nat, tail: nat, tailPage: nat)
    requires cfg.Valid()
  {
    && k <= |slots|
    && if tail == cfg.Sentinel() then curr == tail && slots == []
       else Chain(cfg, curr, page, slots[k..], tail, tailPage)
  }

  lemma WalkStart<V>(cfg: Config, head: nat, headPage: nat, slots: seq<Slot<V>>, tail: nat, tailPage: nat,
                     m: Memory<V>, loose: map<nat, BlockInfo>, pages: set<nat>, blocks: map<nat, BlockInfo>)
    requires cfg.Valid() && Represents(cfg, head, headPage, slots, tail, tailPage, m, loose, pages, blocks)
    ensures Walk(cfg, head, headPage, slots, 0, tail, tailPage)
  {
    hide Chain;
    assert slots[0..] == slots;
  }

  /** Away from the tail, a walk stands on a slot, and its next word leads to the following position. */
  lemma WalkStep<V>(cfg: Config, curr: nat, page: nat, slots: seq<Slot<V>>, k: nat, tail: nat, tailPage: nat,
                    head: nat, headPage: nat, m: Memory<V>, loose: map<nat, BlockInfo>, pages: set<nat>,
                    blocks: map<nat, BlockInfo>)
    requires cfg.Valid() && Represents(cfg, head, headPage, slots, tail, tailPage, m, loose, pages, blocks)
    requires Walk(cfg, curr, page, slots, k, tail, tailPage) && curr != tail
    ensures k < |slots| && slots[k].addr == curr && SlotOk(cfg, slots[k]) && SlotStored(cfg, slots[k], m)
    ensures curr in m.words && m.words[curr] == WordOf(slots[k])
    ensures StateBits(m.words[curr]) == StatusBits(slots[k].status) && NextOf(m.words[curr]) == slots[k].next
    ensures IsExternal(m.words[curr]) <==> slots[k].external.Some?
    ensures Walk(cfg, slots[k].next, PageAfter(slots[k]), slots, k + 1, tail, tailPage)
  {
    hide SlotOk, SlotStored, Apart, WordOf, StateBits, NextOf, IsExternal, Resources;
    assert k < |slots|;
    assert slots[k..][0] == slots[k] && slots[k..][1..] == slots[k + 1..];
    StoredAt(cfg, slots, m, k);
    WordBits(cfg, slots[k]);
  }

  lemma WalkEnd<V>(cfg: Config, curr: nat, page: nat, slots: seq<Slot<V>>, k: nat, tail: nat, tailPage: nat)
    requires cfg.Valid() && Walk(cfg, curr, page, slots, k, tail, tailPage) && curr == tail
    ensures k == |slots|
  {
    hide Chain;
    if k < |slots| {
      TailIsNoSlot(cfg, curr, page, slots[k..], tail, tailPage);
      ChainFirst(cfg, curr, page, slots[k..], tail, tailPage);
    }
  }

  lemma ChainFirst<V>(cfg: Config, a: nat, page: nat, slots: seq<Slot<V>>, tail: nat, tailPage: nat)
    requires cfg.Valid() && slots != [] && Chain(cfg, a, page, slots, tail, tailPage)
    ensures slots[0].addr == a
  {
  }

  // ---- the sweep --------------------------------------------------------------------------------------------

  lemma NotEmpty<V>(cfg: Config, head: nat, headPage: nat, slots: seq<Slot<V>>, tail: nat, tailPage: nat,
                    m: Memory<V>, loose: map<nat, BlockInfo>, pages: set<nat>, blocks: map<nat, BlockInfo>)
    requires cfg.Valid() && head != tail
    requires Represents(cfg, head, headPage, slots, tail, tailPage, m, loose, pages, blocks)
    ensures slots != []
  {
  }

  lemma DropDeadStep<V>(slots: seq<Slot<V>>)
    requires slots != []
    ensures if slots[0].status.Dead? then DropDead(slots) == DropDead(slots[1..]) else DropDead(slots) == slots
  {
  }

  lemma LiveDropDead<V>(slots: seq<Slot<V>>)
    requires slots != [] && slots[0].status.Dead? && Finished(slots)
    ensures Live(slots[1..]) == Live(slots) && Finished(slots[1..])
  {
  }

  lemma DropDeadDone<V>(cfg: Config, head: nat, headPage: nat, slots: seq<Slot<V>>, tail: nat, tailPage: nat,
                        m: Memory<V>, loose: map<nat, BlockInfo>, pages: set<nat>, blocks: map<nat, BlockInfo>)
    requires cfg.Valid()
    requires Represents(cfg, head, headPage, slots, tail, tailPage, m, loose, pages, blocks)
    requires head == tail || (slots != [] && !slots[0].status.Dead?)
    ensures DropDead(slots) == slots
  {
    if head == tail && slots != [] {
      TailIsNoSlot(cfg, head, headPage, slots, tail, tailPage);
    }
  }

  /** Comparing two queues by iterating both decides whether they show the same elements in the same order. */
  method Equals<V(==)>(q: HeterQueue<V>, p: HeterQueue<V>) returns (equal: bool)
    requires q.Valid() && F.NoOpen(q.fifo.live) && q.AllSteppable()
    requires p.Valid() && F.NoOpen(p.fifo.live) && p.AllSteppable()
    ensures equal <==>
              && |F.Visible(q.fifo)| == |F.Visible(p.fifo)|
              && forall k :: 0 <= k < |F.Visible(q.fifo)| ==>
                   && F.Visible(q.fifo)[k].value.rtype == F.Visible(p.fifo)[k].value.rtype
                   && F.Visible(q.fifo)[k].value.value == F.Visible(p.fifo)[k].value.value
  {
    hide Represents, Live, F.Inv, F.Reached, RawsKept, Finished, F.NoOpen, F.Items;
    ghost var v, w := F.Visible(q.fifo), F.Visible(p.fifo);
    ghost var n := 0;
    var it2 := p.FirstValid();
    var it1 := q.FirstValid();
    while it1.Some?
      invariant n <= |v| && n <= |w| && it1 == q.CursorAt(n) && it2 == p.CursorAt(n)
      invariant forall k :: 0 <= k < n ==>
                  v[k].value.rtype == w[k].value.rtype && v[k].value.value == w[k].value.value
      decreases |v| - n
    {
      if it2.None? {
        return false;
      }
      var type1, value1 := q.Dereference(it1.value, n);
      var type2, value2 := p.Dereference(it2.value, n);
      if type1 != type2 || value1 != value2 {
        assert v[n].value.rtype != w[n].value.rtype || v[n].value.value != w[n].value.value;
        return false;
      }
      it1 := q.NextValid(it1.value, n);
      it2 := p.NextValid(it2.value, n);
      n := n + 1;
    }
    equal := it2.None?;
  }

  lemma SlotOfVisibleStart<V>(slots: seq<Slot<V>>, n: nat) returns (i: nat)
    requires Finished(slots) && F.NoOpen(Live(slots)) && n < |F.Items(Live(slots), F.Ready)|
    ensures i < |slots| && ReadyBefore(slots, i) == n && slots[i].status == Alive(F.Ready)
    ensures EntryOf(slots[i]) != [] && EntryOf(slots[i])[0].item == F.Items(Live(slots), F.Ready)[n]
    ensures slots[i].addr == F.Items(Live(slots), F.Ready)[n].value.control
  {
    hide Live, F.Items;
    ReadyEnds(slots);
    i := SlotOfVisible(slots, n, 0);
  }

  /** A walk that starts behind a slot that is not external. */
  lemma WalkFrom<V>(cfg: Config, head: nat, headPage: nat, slots: seq<Slot<V>>, tail: nat, tailPage: nat,
                    m: Memory<V>, loose: map<nat, BlockInfo>, pages: set<nat>, blocks: map<nat, BlockInfo>, k: nat)
    returns (page: nat)
    requires cfg.Valid() && Represents(cfg, head, headPage, slots, tail, tailPage, m, loose, pages, blocks)
    requires k < |slots| && slots[k].addr in m.words && !IsExternal(m.words[slots[k].addr])
    ensures m.words[slots[k].addr] == WordOf(slots[k])
    ensures FirstHop(m.words[slots[k].addr]) == slots[k].next
    ensures Walk(cfg, slots[k].next, page, slots, k + 1, tail, tailPage)
  {
    hide Chain, SlotOk, SlotStored, WordOf, StateBits, NextOf, IsExternal, FirstHop, Resources;
    page := PageAfter(slots[k]);
    ChainAt(cfg, head, headPage, slots, tail, tailPage, k);
    StoredAt(cfg, slots, m, k);
    WordBits(cfg, slots[k]);
    FirstHopExactly(cfg, head, headPage, slots, tail, tailPage, k);
  }

  lemma SlotReadable<V>(cfg: Config, head: nat, headPage: nat, slots: seq<Slot<V>>, tail: nat, tailPage: nat,
                        m: Memory<V>, loose: map<nat, BlockInfo>, pages: set<nat>, blocks: map<nat, BlockInfo>, k: nat)
    requires cfg.Valid() && Represents(cfg, head, headPage, slots, tail, tailPage, m, loose, pages, blocks)
    requires k < |slots| && slots[k].content.Object?
    ensures var s := slots[k];
            && Readable(cfg, m, s.addr)
            && s.addr + cfg.control in m.types && m.types[s.addr + cfg.control] == s.content.rtype
            && GetElement(cfg, m, s.addr) in m.elements
            && m.elements[GetElement(cfg, m, s.addr)] == s.content.value
  {
    hide Chain, SlotOk, SlotStored, Resources, Readable, IsExternal;
    ChainAt(cfg, head, headPage, slots, tail, tailPage, k);
    StoredAt(cfg, slots, m, k);
    ElementFound(cfg, slots[k], m);
  }

  /** An empty chain owns its one page at most. */
  lemma LastPage<V>(cfg: Config, head: nat, headPage: nat, slots: seq<Slot<V>>, tail: nat, tailPage: nat,
                    m: Memory<V>, pages: set<nat>, blocks: map<nat, BlockInfo>)
    requires cfg.Valid() && slots == []
    requires Represents(cfg, head, headPage, slots, tail, tailPage, m, map[], pages, blocks)
    ensures head == tail && blocks == map[]
    ensures if head == cfg.Sentinel() then pages == {} else pages == {LowerAlign(head, cfg.pageAlign)}
  {
    if head != cfg.Sentinel() {
      FrameOf(tailPage, tail, cfg.pageAlign);
    }
  }
}
