/** Where the elements are: no two storages overlap, and the storage of an element can be found again
    from its control block. */
module QueueObjects {
  import opened Bits
  import opened Align
  import opened Options
  import opened Machine
  import opened Allocators
  import opened QueueLayout
  import opened QueueSteps
  import opened QueueFlags
  import F = Fifo

  // ---- storages are apart ---------------------------------------------------------------------------------

  lemma {:induction false} ExternalIn<V>(slots: seq<Slot<V>>, k: nat)
    requires ExternalsDistinct(slots) && k < |slots| && slots[k].external.Some?
    ensures var e := slots[k].external.value;
            e.element in ExternalBlocks(slots) && ExternalBlocks(slots)[e.element] == BlockInfo(e.size, e.alignment)
  {
    if k > 0 {
      ExternalIn(slots[1..], k - 1);
    }
  }

  lemma {:induction false} ExternalsDiffer<V>(slots: seq<Slot<V>>, i: nat, j: nat)
    requires ExternalsDistinct(slots) && i < j < |slots| && slots[i].external.Some? && slots[j].external.Some?
    ensures slots[i].external.value.element != slots[j].external.value.element
  {
    if i == 0 {
      ExternalIn(slots[1..], j - 1);
    } else {
      ExternalsDiffer(slots[1..], i - 1, j - 1);
    }
  }

  /** A storage in a page lies between the control block of its slot and the next one. */
  lemma StorageInPage<V>(cfg: Config, s: Slot<V>)
    requires cfg.Valid() && SlotOk(cfg, s) && !s.content.Jump? && s.external.None?
    ensures s.page < s.addr + cfg.control <= s.storage && s.storage + s.size <= s.next
    ensures s.next < s.page + cfg.pageAlign
    ensures Aligned(s.page, cfg.pageAlign)
  {
    hide Aligned, IsPow2, UpperAlign;
  }

  /** A storage outside the pages is one of the blocks in use. */
  lemma StorageOutside<V>(cfg: Config, slots: seq<Slot<V>>, tailPage: nat, loose: map<nat, BlockInfo>, pages: set<nat>,
                          blocks: map<nat, BlockInfo>, k: nat)
    requires cfg.Valid() && k < |slots| && SlotOk(cfg, slots[k]) && !slots[k].content.Jump? && slots[k].external.Some?
    requires Resources(slots, tailPage, loose, pages, blocks)
    ensures slots[k].storage in blocks && slots[k].size <= blocks[slots[k].storage].size
  {
    hide Aligned, IsPow2, UpperAlign, JumpPages, InPage, ExternalBlocks, ExternalsDistinct;
    ExternalIn(slots, k);
  }

  ghost predicate RangesApart(a: nat, n: nat, b: nat, m: nat) {
    a != b && (a + n <= b || b + m <= a)
  }

  /** The storages of two slots never overlap and never start at the same address, in pages or outside. */
  lemma StoragesApart<V>(cfg: Config, head: nat, headPage: nat, slots: seq<Slot<V>>, tail: nat, tailPage: nat,
                         m: Memory<V>, loose: map<nat, BlockInfo>, pages: set<nat>, blocks: map<nat, BlockInfo>,
                         limit: nat, i: nat, j: nat)
    requires cfg.Valid() && i < j < |slots| && !slots[i].content.Jump? && !slots[j].content.Jump?
    requires Represents(cfg, head, headPage, slots, tail, tailPage, m, loose, pages, blocks)
    requires ResourcesOk(cfg.pageAlign, pages, blocks, limit)
    ensures RangesApart(slots[i].storage, slots[i].size, slots[j].storage, slots[j].size)
  {
    hide Chain, Stored, Resources, SlotOk, Aligned, IsPow2, UpperAlign, ResourcesOk;
    var s, t := slots[i], slots[j];
    ChainAt(cfg, head, headPage, slots, tail, tailPage, i);
    ChainAt(cfg, head, headPage, slots, tail, tailPage, j);
    PageOwned(slots, tailPage, loose, pages, blocks, i);
    PageOwned(slots, tailPage, loose, pages, blocks, j);
    if s.external.None? {
      StorageInPage(cfg, s);
    } else {
      StorageOutside(cfg, slots, tailPage, loose, pages, blocks, i);
    }
    if t.external.None? {
      StorageInPage(cfg, t);
    } else {
      StorageOutside(cfg, slots, tailPage, loose, pages, blocks, j);
    }
    if s.external.None? && t.external.None? {
      assert slots[i + 1..][j - i - 1] == t;
      if s.page < t.page {
        AlignedApart(s.page, t.page, cfg.pageAlign);
      } else if t.page < s.page {
        AlignedApart(t.page, s.page, cfg.pageAlign);
      }
    } else if s.external.None? {
      PageAndBlock(cfg.pageAlign, pages, blocks, limit, s.page, t.storage);
    } else if t.external.None? {
      PageAndBlock(cfg.pageAlign, pages, blocks, limit, t.page, s.storage);
    } else {
      OwnersDiffer(cfg, slots, tailPage, loose, pages, blocks, i, j);
      TwoBlocks(cfg.pageAlign, pages, blocks, limit, s.storage, t.storage);
    }
  }

  // ---- the queue's own data ---------------------------------------------------------------------------

  /** Where the control block, the runtime type and the descriptor of a slot end. */
  function HeaderEnd<V>(cfg: Config, s: Slot<V>): nat {
    s.addr + cfg.control + (if s.content.Object? || s.external.Some? then cfg.typeSpace else 0)
    + (if s.external.Some? then EXTERNAL_BLOCK_SIZE else 0)
  }

  lemma HeaderInPage<V>(cfg: Config, s: Slot<V>)
    requires cfg.Valid() && SlotOk(cfg, s)
    ensures Aligned(s.page, cfg.pageAlign) && s.page <= s.addr && HeaderEnd(cfg, s) <= s.page + cfg.pageSize
    ensures !s.content.Jump? ==> HeaderEnd(cfg, s) <= s.next
    ensures !s.content.Jump? && s.external.None? ==> HeaderEnd(cfg, s) <= s.storage
  {
    hide Aligned, IsPow2, UpperAlign;
  }

  /** No storage overlaps what the queue writes for any slot: its control block, runtime type and
      descriptor. Writing an element never changes the queue's own data. */
  lemma StorageMissesHeaders<V>(cfg: Config, head: nat, headPage: nat, slots: seq<Slot<V>>, tail: nat, tailPage: nat,
                                m: Memory<V>, loose: map<nat, BlockInfo>, pages: set<nat>,
                                blocks: map<nat, BlockInfo>, limit: nat, i: nat, j: nat)
    requires cfg.Valid() && i < |slots| && j < |slots| && !slots[i].content.Jump?
    requires Represents(cfg, head, headPage, slots, tail, tailPage, m, loose, pages, blocks)
    requires ResourcesOk(cfg.pageAlign, pages, blocks, limit)
    ensures slots[i].storage + slots[i].size <= slots[j].addr || HeaderEnd(cfg, slots[j]) <= slots[i].storage
  {
    hide Chain, Stored, Resources, SlotOk, Aligned, IsPow2, UpperAlign, ResourcesOk, HeaderEnd;
    var s, t := slots[i], slots[j];
    ChainAt(cfg, head, headPage, slots, tail, tailPage, i);
    ChainAt(cfg, head, headPage, slots, tail, tailPage, j);
    HeaderInPage(cfg, t);
    if s.external.None? {
      StorageInPage(cfg, s);
      if i < j {
        assert slots[i + 1..][j - i - 1] == t;
      } else if j < i {
        assert slots[j + 1..][i - j - 1] == s;
      }
      if s.page < t.page {
        AlignedApart(s.page, t.page, cfg.pageAlign);
      } else if t.page < s.page {
        AlignedApart(t.page, s.page, cfg.pageAlign);
      }
    } else {
      StorageOutside(cfg, slots, tailPage, loose, pages, blocks, i);
      PageOwned(slots, tailPage, loose, pages, blocks, j);
      PageAndBlock(cfg.pageAlign, pages, blocks, limit, t.page, s.storage);
    }
  }

  /** Nor the place of the next control block, at the tail. */
  lemma StorageMissesTail<V>(cfg: Config, head: nat, headPage: nat, slots: seq<Slot<V>>, tail: nat, tailPage: nat,
                             m: Memory<V>, loose: map<nat, BlockInfo>, pages: set<nat>, blocks: map<nat, BlockInfo>,
                             limit: nat, i: nat)
    requires cfg.Valid() && i < |slots| && !slots[i].content.Jump?
    requires Represents(cfg, head, headPage, slots, tail, tailPage, m, loose, pages, blocks)
    requires ResourcesOk(cfg.pageAlign, pages, blocks, limit)
    ensures slots[i].storage + slots[i].size <= tail || tail + cfg.control <= slots[i].storage
  {
    hide Chain, Stored, SlotOk, Aligned, IsPow2, UpperAlign, ResourcesOk, JumpPages, ExternalBlocks, ExternalsDistinct;
    var s := slots[i];
    ChainAt(cfg, head, headPage, slots, tail, tailPage, i);
    if s.external.None? {
      StorageInPage(cfg, s);
      if s.page < tailPage {
        AlignedApart(s.page, tailPage, cfg.pageAlign);
      } else if tailPage < s.page {
        AlignedApart(tailPage, s.page, cfg.pageAlign);
      }
    } else {
      StorageOutside(cfg, slots, tailPage, loose, pages, blocks, i);
      PageAndBlock(cfg.pageAlign, pages, blocks, limit, tailPage, s.storage);
    }
  }

  /** What the queue writes for one slot overlaps nothing it writes for another. */
  lemma HeadersApart<V>(cfg: Config, head: nat, headPage: nat, slots: seq<Slot<V>>, tail: nat, tailPage: nat, i: nat,
                        j: nat)
    requires cfg.Valid() && i < j < |slots| && Chain(cfg, head, headPage, slots, tail, tailPage)
    ensures HeaderEnd(cfg, slots[i]) <= slots[j].addr || HeaderEnd(cfg, slots[j]) <= slots[i].addr
  {
    hide Chain, SlotOk, Aligned, IsPow2, UpperAlign, HeaderEnd;
    var s, t := slots[i], slots[j];
    ChainAt(cfg, head, headPage, slots, tail, tailPage, i);
    ChainAt(cfg, head, headPage, slots, tail, tailPage, j);
    HeaderInPage(cfg, s);
    HeaderInPage(cfg, t);
    assert slots[i + 1..][j - i - 1] == t;
    if s.page < t.page {
      AlignedApart(s.page, t.page, cfg.pageAlign);
    } else if t.page < s.page {
      AlignedApart(t.page, s.page, cfg.pageAlign);
    }
  }

  lemma PageOwned<V>(slots: seq<Slot<V>>, tailPage: nat, loose: map<nat, BlockInfo>, pages: set<nat>,
                     blocks: map<nat, BlockInfo>, k: nat)
    requires Resources(slots, tailPage, loose, pages, blocks) && k < |slots|
    ensures slots[k].page in pages
  {
  }

  lemma OwnersDiffer<V>(cfg: Config, slots: seq<Slot<V>>, tailPage: nat, loose: map<nat, BlockInfo>, pages: set<nat>,
                        blocks: map<nat, BlockInfo>, i: nat, j: nat)
    requires cfg.Valid() && i < j < |slots| && SlotOk(cfg, slots[i]) && SlotOk(cfg, slots[j])
    requires !slots[i].content.Jump? && !slots[j].content.Jump?
    requires slots[i].external.Some? && slots[j].external.Some?
    requires Resources(slots, tailPage, loose, pages, blocks)
    ensures slots[i].storage != slots[j].storage
  {
    hide JumpPages, ExternalBlocks, ExternalsDistinct, InPage;
    ExternalsDiffer(slots, i, j);
  }

  lemma PageAndBlock(pageAlign: nat, pages: set<nat>, blocks: map<nat, BlockInfo>, limit: nat, p: nat, b: nat)
    requires pageAlign > 0 && ResourcesOk(pageAlign, pages, blocks, limit) && p in pages && b in blocks
    ensures b + Footprint(blocks[b].size) <= p || p + pageAlign <= b
    ensures b + blocks[b].size <= p || p + pageAlign <= b
  {
  }

  lemma TwoBlocks(pageAlign: nat, pages: set<nat>, blocks: map<nat, BlockInfo>, limit: nat, b: nat, c: nat)
    requires pageAlign > 0 && ResourcesOk(pageAlign, pages, blocks, limit) && b in blocks && c in blocks && b != c
    ensures b + blocks[b].size <= c || c + blocks[c].size <= b
  {
  }

  // ---- constructing an object --------------------------------------------------------------------------------

  function WithObject<V>(s: Slot<V>, id: nat, rtype: RuntimeType, value: V): Slot<V> {
    s.(content := Object(id, rtype, value))
  }

  /** The storage an allocation chose is the one that the type's own alignment gives. */
  lemma ElementPlace(cfg: Config, addr: nat, page: nat, alignment: nat)
    requires cfg.Valid() && InPage(cfg, addr, page) && IsPow2(alignment) && alignment > 0
    ensures StorageAt(cfg, addr, true, NormalAlignment(cfg, alignment))
            == UpperAlign(addr + cfg.control + cfg.typeSpace, alignment)
  {
    hide Aligned, UpperAlign;
    if alignment < cfg.minAlign {
      DescriptorPlace(cfg, addr, page);
      AlignedAdd(addr, cfg.control, cfg.minAlign);
      AlignedAdd(addr + cfg.control, cfg.typeSpace, cfg.minAlign);
      WeakerAlignment(addr + cfg.control + cfg.typeSpace, cfg.minAlign, alignment);
      AlignedUnchanged(addr + cfg.control + cfg.typeSpace, alignment);
    }
  }

  lemma WithObjectOk<V>(cfg: Config, s: Slot<V>, id: nat, rtype: RuntimeType, value: V)
    requires cfg.Valid() && SlotOk(cfg, s) && s.content.Blank? && s.status.Alive?
    requires IsPow2(rtype.alignment) && rtype.alignment > 0 && Aligned(rtype.size, rtype.alignment)
    requires s.size == NormalSize(cfg, rtype.size, rtype.alignment)
    requires Aligned(s.storage, NormalAlignment(cfg, rtype.alignment))
    requires s.external.None? ==> s.storage == StorageAt(cfg, s.addr, true, NormalAlignment(cfg, rtype.alignment))
    ensures SlotOk(cfg, WithObject(s, id, rtype, value)) && SamePlace(s, WithObject(s, id, rtype, value))
  {
    hide Aligned, UpperAlign, IsPow2, StorageAt, NormalSize, NormalAlignment, InPage;
    var a := NormalAlignment(cfg, rtype.alignment);
    NormalFacts(cfg, rtype.size, rtype.alignment);
    WeakerAlignment(s.storage, a, rtype.alignment);
    ElementPlace(cfg, s.addr, s.page, rtype.alignment);
    UpperAlignAbove(s.addr + cfg.control + cfg.typeSpace, rtype.alignment);
  }

  lemma UpperAlignAbove(x: nat, a: nat)
    requires IsPow2(a) && a > 0
    ensures x <= UpperAlign(x, a)
  {
    hide Aligned, UpperAlign;
    UpperAlignLeast(x, a, 0);
  }

  /** Constructing the object of the last slot changes no other object. */
  lemma ConstructObject<V>(cfg: Config, head: nat, headPage: nat, slots: seq<Slot<V>>, tail: nat, tailPage: nat,
                           m: Memory<V>, loose: map<nat, BlockInfo>, pages: set<nat>, blocks: map<nat, BlockInfo>,
                           limit: nat, id: nat, rtype: RuntimeType, value: V)
    requires cfg.Valid() && slots != [] && tail != cfg.Sentinel()
    requires Represents(cfg, head, headPage, slots, tail, tailPage, m, loose, pages, blocks)
    requires ResourcesOk(cfg.pageAlign, pages, blocks, limit)
    requires var s := slots[|slots| - 1];
             && s.content.Blank? && s.status.Alive? && s.size == NormalSize(cfg, rtype.size, rtype.alignment)
             && IsPow2(rtype.alignment) && rtype.alignment > 0 && Aligned(rtype.size, rtype.alignment)
             && Aligned(s.storage, NormalAlignment(cfg, rtype.alignment))
             && (s.external.None? ==> s.storage == StorageAt(cfg, s.addr, true, NormalAlignment(cfg, rtype.alignment)))
    ensures var n := |slots| - 1;
            var s, t := slots[n], WithObject(slots[n], id, rtype, value);
            && Represents(cfg, head, headPage, slots[n := t], tail, tailPage,
                          m.(types := m.types[s.addr + cfg.control := rtype],
                             elements := m.elements[s.storage := value]),
                          loose, pages, blocks)
            && Live(slots[n := t]) == Live(slots) + EntryOf(t)
  {
    hide Chain, Stored, Resources, SlotOk, Aligned, IsPow2, UpperAlign, ResourcesOk, StorageAt, NormalSize,
         NormalAlignment, Live, InPage;
    var n := |slots| - 1;
    var t := WithObject(slots[n], id, rtype, value);
    ChainAt(cfg, head, headPage, slots, tail, tailPage, n);
    WithObjectOk(cfg, slots[n], id, rtype, value);
    ReplaceKeepsChain(cfg, head, headPage, slots, tail, tailPage, n, t);
    ReplaceKeepsResources(slots, tailPage, loose, pages, blocks, n, t);
    StoreObject(cfg, head, headPage, slots, tail, tailPage, m, loose, pages, blocks, limit, id, rtype, value);
    LiveLast(slots, t);
  }

  lemma LiveLast<V>(slots: seq<Slot<V>>, t: Slot<V>)
    requires slots != [] && EntryOf(slots[|slots| - 1]) == []
    ensures Live(slots[|slots| - 1 := t]) == Live(slots) + EntryOf(t)
  {
    hide Live;
    LiveAround(slots, |slots| - 1, t);
    assert slots[|slots|..] == [];
    LiveNone<V>();
  }

  lemma LiveNone<V>()
    ensures Live<V>([]) == []
  {
  }

  lemma StoreObject<V>(cfg: Config, head: nat, headPage: nat, slots: seq<Slot<V>>, tail: nat, tailPage: nat,
                       m: Memory<V>, loose: map<nat, BlockInfo>, pages: set<nat>, blocks: map<nat, BlockInfo>,
                       limit: nat, id: nat, rtype: RuntimeType, value: V)
    requires cfg.Valid() && slots != [] && tail != cfg.Sentinel() && slots[|slots| - 1].content.Blank?
    requires Represents(cfg, head, headPage, slots, tail, tailPage, m, loose, pages, blocks)
    requires ResourcesOk(cfg.pageAlign, pages, blocks, limit)
    ensures var n := |slots| - 1;
            var s, t := slots[n], WithObject(slots[n], id, rtype, value);
            Stored(cfg, slots[n := t],
                   m.(types := m.types[s.addr + cfg.control := rtype], elements := m.elements[s.storage := value]))
  {
    hide Chain, Resources, ResourcesOk, SlotStored, Represents;
    var n := |slots| - 1;
    var s, t := slots[n], WithObject(slots[n], id, rtype, value);
    var m' := m.(types := m.types[s.addr + cfg.control := rtype], elements := m.elements[s.storage := value]);
    var slots' := slots[n := t];
    StoredAll(cfg, head, headPage, slots, tail, tailPage, m, loose, pages, blocks);
    forall k | 0 <= k < |slots'|
      ensures SlotStored(cfg, slots'[k], m')
    {
      assert SlotStored(cfg, slots[k], m);
      if k == n {
        OwnObjectStored(cfg, s, m, id, rtype, value);
      } else {
        ChainOf(cfg, head, headPage, slots, tail, tailPage, m, loose, pages, blocks);
        AddressesDiffer(cfg, head, headPage, slots, tail, tailPage, k, n);
        if !slots[k].content.Jump? {
          StoragesApart(cfg, head, headPage, slots, tail, tailPage, m, loose, pages, blocks, limit, k, n);
        }
        OtherObjectStored(cfg, slots[k], m, s.addr, s.storage, rtype, value);
      }
    }
  }

  lemma StoredAll<V>(cfg: Config, head: nat, headPage: nat, slots: seq<Slot<V>>, tail: nat, tailPage: nat,
                     m: Memory<V>, loose: map<nat, BlockInfo>, pages: set<nat>, blocks: map<nat, BlockInfo>)
    requires cfg.Valid() && Represents(cfg, head, headPage, slots, tail, tailPage, m, loose, pages, blocks)
    ensures Stored(cfg, slots, m)
  {
    hide SlotStored;
  }

  lemma ChainOf<V>(cfg: Config, head: nat, headPage: nat, slots: seq<Slot<V>>, tail: nat, tailPage: nat,
                   m: Memory<V>, loose: map<nat, BlockInfo>, pages: set<nat>, blocks: map<nat, BlockInfo>)
    requires cfg.Valid() && tail != cfg.Sentinel()
    requires Represents(cfg, head, headPage, slots, tail, tailPage, m, loose, pages, blocks)
    ensures Chain(cfg, head, headPage, slots, tail, tailPage)
  {
  }

  lemma OwnObjectStored<V>(cfg: Config, s: Slot<V>, m: Memory<V>, id: nat, rtype: RuntimeType, value: V)
    requires SlotStored(cfg, s, m)
    ensures SlotStored(cfg, WithObject(s, id, rtype, value),
                       m.(types := m.types[s.addr + cfg.control := rtype], elements := m.elements[s.storage := value]))
  {
  }

  lemma OtherObjectStored<V>(cfg: Config, s: Slot<V>, m: Memory<V>, a: nat, storage: nat, rtype: RuntimeType, value: V)
    requires SlotStored(cfg, s, m) && s.addr != a && (s.content.Object? ==> s.storage != storage)
    ensures SlotStored(cfg, s, m.(types := m.types[a + cfg.control := rtype], elements := m.elements[storage := value]))
  {
    hide WordOf;
  }

  // ---- finding an element again -----------------------------------------------------------------------------------

  /** What the library may read to find the element of a control block. */
  ghost predicate Readable<V>(cfg: Config, m: Memory<V>, control: nat) {
    && control in m.words
    && (if IsExternal(m.words[control]) then control + cfg.control + cfg.typeSpace in m.externals
        else control + cfg.control in m.types && m.types[control + cfg.control].alignment > 0)
  }

  function GetUnalignedElement<V>(cfg: Config, m: Memory<V>, control: nat): nat
    requires Readable(cfg, m, control)
  {
    var result := control + (cfg.control + cfg.typeSpace);
    if IsExternal(m.words[control]) then m.externals[result].element else result
  }

  function GetElement<V>(cfg: Config, m: Memory<V>, control: nat): nat
    requires Readable(cfg, m, control)
  {
    var result := control + (cfg.control + cfg.typeSpace);
    if IsExternal(m.words[control]) then m.externals[result].element
    else UpperAlign(result, m.types[control + cfg.control].alignment)
  }

  /** From its control block, an element is found exactly where the allocation put it, in a page or
      outside; aligning the unaligned address by the type's alignment finds it too. */
  lemma ElementFound<V>(cfg: Config, s: Slot<V>, m: Memory<V>)
    requires cfg.Valid() && SlotOk(cfg, s) && SlotStored(cfg, s, m) && s.content.Object?
    ensures Readable(cfg, m, s.addr)
    ensures GetElement(cfg, m, s.addr) == s.storage
    ensures s.addr + cfg.control in m.types && m.types[s.addr + cfg.control] == s.content.rtype
    ensures s.content.rtype.alignment > 0
    ensures UpperAlign(GetUnalignedElement(cfg, m, s.addr), s.content.rtype.alignment) == s.storage
    ensures s.storage in m.elements && m.elements[s.storage] == s.content.value
  {
    hide And, UpperAlign, InPage, WordOf, IsPow2, NextOf, StateBits, IsExternal;
    WordBits(cfg, s);
    AlignedUnchanged(s.storage, s.content.rtype.alignment);
  }

  // ---- what is owned ------------------------------------------------------------------------------------------------

  /** The pages obtained and not given back are exactly those the chain goes through. */
  lemma OwnedPages<V>(cfg: Config, head: nat, headPage: nat, slots: seq<Slot<V>>, tail: nat, tailPage: nat,
                      m: Memory<V>, loose: map<nat, BlockInfo>, pages: set<nat>, blocks: map<nat, BlockInfo>, p: nat)
    requires cfg.Valid() && Represents(cfg, head, headPage, slots, tail, tailPage, m, loose, pages, blocks)
    ensures p in pages
            <==> tail != cfg.Sentinel() && (p == tailPage || exists i :: 0 <= i < |slots| && slots[i].page == p)
  {
    hide Chain, Stored;
    if tail != cfg.Sentinel() {
      JumpPagesAre(slots, p);
    }
  }

  /** The heap blocks obtained and not given back are exactly those of the external slots, each with the
      size and the alignment it was requested with. */
  lemma {:induction false} OwnedBlocks<V>(slots: seq<Slot<V>>, b: nat)
    requires ExternalsDistinct(slots)
    ensures b in ExternalBlocks(slots)
            <==> exists i :: 0 <= i < |slots| && slots[i].external.Some? && slots[i].external.value.element == b
    ensures b in ExternalBlocks(slots) ==>
              exists i :: 0 <= i < |slots| && slots[i].external.Some? && slots[i].external.value.element == b
                && ExternalBlocks(slots)[b]
                   == BlockInfo(slots[i].external.value.size, slots[i].external.value.alignment)
  {
    if slots != [] {
      var rest := slots[1..];
      OwnedBlocks(rest, b);
      forall i | 0 <= i < |slots| && slots[i].external.Some? && slots[i].external.value.element == b
        ensures b in ExternalBlocks(slots)
      {
        ExternalIn(slots, i);
      }
      if b in ExternalBlocks(rest) {
        var i :| 0 <= i < |rest| && rest[i].external.Some? && rest[i].external.value.element == b
                 && ExternalBlocks(rest)[b] == BlockInfo(rest[i].external.value.size, rest[i].external.value.alignment);
        assert slots[i + 1] == rest[i];
        assert ExternalBlocks(slots)[b] == ExternalBlocks(rest)[b];
      } else if b in ExternalBlocks(slots) {
        assert slots[0].external.Some? && slots[0].external.value.element == b;
      }
    }
  }

  /** As long as the element a raw block was allocated for is alive, the memory of the block is owned: it
      lies in a page that has not been given back, or it is a heap block that has not been freed. */
  lemma RawBlockUsable<V>(cfg: Config, head: nat, headPage: nat, slots: seq<Slot<V>>, tail: nat, tailPage: nat,
                          m: Memory<V>, pages: set<nat>, blocks: map<nat, BlockInfo>,
                          raws: set<RawBlock<V>>, nextId: nat, r: RawBlock<V>)
    requires cfg.Valid() && Represents(cfg, head, headPage, slots, tail, tailPage, m, map[], pages, blocks)
    requires RawsKept(slots, raws, nextId) && r in raws
    requires F.Find(Live(slots), r.owner) < |Live(slots)|
    ensures r.slot in slots
    ensures match r.slot.external
            case None =>
              && r.slot.page in pages
              && r.slot.page <= r.slot.storage && r.slot.storage + r.slot.size <= r.slot.page + cfg.pageSize
            case Some(e) =>
              && e.element == r.slot.storage && e.element in blocks && r.slot.size <= blocks[e.element].size
  {
    hide Chain, Stored, SlotOk, RawsKept, Resources, Live, InPage;
    var i := SlotOfEntry(slots, F.Find(Live(slots), r.owner));
    var k := RawPosition(slots, raws, nextId, r, i);
    ChainAt(cfg, head, headPage, slots, tail, tailPage, k);
    PageOwned(slots, tailPage, map[], pages, blocks, k);
    if r.slot.external.None? {
      StorageInPage(cfg, slots[k]);
      NextInPage(cfg, slots[k]);
    } else {
      StorageOutside(cfg, slots, tailPage, map[], pages, blocks, k);
      ExternalElement(cfg, slots[k]);
    }
  }

  lemma RawPosition<V>(slots: seq<Slot<V>>, raws: set<RawBlock<V>>, nextId: nat, r: RawBlock<V>, i: nat)
    returns (k: nat)
    requires RawsKept(slots, raws, nextId) && r in raws && i < |slots| && IsObject(slots[i], r.owner)
    ensures i < k < |slots| && slots[k] == r.slot && r.slot in slots && r.slot.content.Blank?
  {
    assert RawKept(slots, r);
    var n :| 0 <= n < |slots[i + 1..]| && slots[i + 1..][n] == r.slot;
    k := i + 1 + n;
  }

  lemma NextInPage<V>(cfg: Config, s: Slot<V>)
    requires cfg.Valid() && SlotOk(cfg, s) && !s.content.Jump?
    ensures s.next <= s.page + cfg.pageSize
  {
    hide Aligned, IsPow2, UpperAlign;
  }

  lemma ExternalElement<V>(cfg: Config, s: Slot<V>)
    requires cfg.Valid() && SlotOk(cfg, s) && s.external.Some? && !s.content.Jump?
    ensures s.external.value.element == s.storage
  {
    hide Aligned, IsPow2, UpperAlign;
  }
}
