/** What each step of the queue does to the chain, to the memory, to the resources and to the live
    entries. Every lemma is about values; the queue class only strings them together. */
module QueueSteps {
  import opened Bits
  import opened Align
  import opened Options
  import opened Machine
  import opened Allocators
  import opened QueueLayout

  // ---- positions --------------------------------------------------------------------------------------

  lemma PagesApart(cfg: Config, a: nat, page: nat, b: nat, page': nat)
    requires cfg.Valid() && InPage(cfg, a, page) && InPage(cfg, b, page') && page != page'
    ensures a + cfg.control <= page' || page' + cfg.pageAlign <= a
    ensures a != b
  {
    hide Aligned, IsPow2, UpperAlign;
    if page < page' {
      AlignedApart(page, page', cfg.pageAlign);
    } else {
      AlignedApart(page', page, cfg.pageAlign);
    }
  }

  lemma {:induction false} ChainAt<V>(cfg: Config, a: nat, page: nat, slots: seq<Slot<V>>, tail: nat, tailPage: nat,
                                      k: nat)
    requires cfg.Valid() && Chain(cfg, a, page, slots, tail, tailPage) && k < |slots|
    ensures Chain(cfg, slots[k].addr, slots[k].page, slots[k..], tail, tailPage)
    ensures SlotOk(cfg, slots[k]) && Apart(slots[k], slots[k + 1..], tail, tailPage)
    ensures Chain(cfg, slots[k].next, PageAfter(slots[k]), slots[k + 1..], tail, tailPage)
    ensures InPage(cfg, tail, tailPage)
    decreases k
  {
    hide SlotOk, Apart, InPage;
    ChainEnd(cfg, a, page, slots, tail, tailPage);
    if k > 0 {
      ChainAt(cfg, slots[0].next, PageAfter(slots[0]), slots[1..], tail, tailPage, k - 1);
      assert slots[1..][k - 1..] == slots[k..] && slots[1..][k..] == slots[k + 1..];
    }
  }

  lemma {:induction false} ChainEnd<V>(cfg: Config, a: nat, page: nat, slots: seq<Slot<V>>, tail: nat, tailPage: nat)
    requires cfg.Valid() && Chain(cfg, a, page, slots, tail, tailPage)
    ensures InPage(cfg, tail, tailPage)
    decreases |slots|
  {
    if slots != [] {
      ChainEnd(cfg, slots[0].next, PageAfter(slots[0]), slots[1..], tail, tailPage);
    }
  }

  /** Control blocks at different positions of the chain have different addresses. */
  lemma AddressesDiffer<V>(cfg: Config, a: nat, page: nat, slots: seq<Slot<V>>, tail: nat, tailPage: nat, i: nat,
                           j: nat)
    requires cfg.Valid() && Chain(cfg, a, page, slots, tail, tailPage) && i < j < |slots|
    ensures slots[i].addr != slots[j].addr
  {
    hide Aligned, IsPow2, UpperAlign, InPage, StorageOk, ContentOk, Chain;
    ChainAt(cfg, a, page, slots, tail, tailPage, i);
    ChainAt(cfg, a, page, slots, tail, tailPage, j);
    assert slots[i + 1..][j - i - 1] == slots[j];
    if slots[i].page != slots[j].page {
      PagesApart(cfg, slots[i].addr, slots[i].page, slots[j].addr, slots[j].page);
    }
  }

  lemma TailIsNoSlot<V>(cfg: Config, a: nat, page: nat, slots: seq<Slot<V>>, tail: nat, tailPage: nat)
    requires cfg.Valid() && Chain(cfg, a, page, slots, tail, tailPage)
    ensures forall i :: 0 <= i < |slots| ==> slots[i].addr != tail
  {
    hide Aligned, IsPow2, UpperAlign, InPage, StorageOk, ContentOk, Chain;
    forall i | 0 <= i < |slots| ensures slots[i].addr != tail {
      ChainAt(cfg, a, page, slots, tail, tailPage, i);
      if slots[i].page != tailPage {
        PagesApart(cfg, slots[i].addr, slots[i].page, tail, tailPage);
      }
    }
  }

  // ---- the chain ----------------------------------------------------------------------------------------

  lemma {:induction false} AppendKeepsChain<V>(cfg: Config, a: nat, page: nat, slots: seq<Slot<V>>, tail: nat,
                                               tailPage: nat, s: Slot<V>)
    requires cfg.Valid() && Chain(cfg, a, page, slots, tail, tailPage)
    requires SlotOk(cfg, s) && s.addr == tail && s.page == tailPage
    requires s.content.Jump? ==> s.next != tailPage && forall i :: 0 <= i < |slots| ==> slots[i].page != s.next
    ensures Chain(cfg, a, page, slots + [s], s.next, PageAfter(s))
    decreases |slots|
  {
    hide Aligned, IsPow2, UpperAlign, InPage, StorageOk, ContentOk;
    if slots == [] {
      assert slots + [s] == [s] && [s][1..] == [];
      assert Chain<V>(cfg, s.next, PageAfter(s), [], s.next, PageAfter(s));
    } else {
      var h, rest := slots[0], slots[1..];
      assert (slots + [s])[1..] == rest + [s] && (slots + [s])[0] == h;
      AppendKeepsChain(cfg, h.next, PageAfter(h), rest, tail, tailPage, s);
      AppendKeepsApart(h, rest, tail, tailPage, s);
    }
  }

  lemma AppendKeepsApart<V>(h: Slot<V>, rest: seq<Slot<V>>, tail: nat, tailPage: nat, s: Slot<V>)
    requires Apart(h, rest, tail, tailPage)
    requires s.addr == tail && s.page == tailPage
    requires if s.content.Jump? then h.page != s.next else tail <= s.next
    ensures Apart(h, rest + [s], s.next, PageAfter(s))
  {
  }

  /** Same place in the chain, whatever the flags and the object. */
  ghost predicate SamePlace<V>(s: Slot<V>, t: Slot<V>) {
    && s.addr == t.addr && s.next == t.next && s.page == t.page
    && (s.content.Jump? <==> t.content.Jump?)
  }

  lemma {:induction false} ReplaceKeepsChain<V>(cfg: Config, a: nat, page: nat, slots: seq<Slot<V>>, tail: nat,
                                                tailPage: nat, i: nat, t: Slot<V>)
    requires cfg.Valid() && Chain(cfg, a, page, slots, tail, tailPage)
    requires i < |slots| && SamePlace(slots[i], t) && SlotOk(cfg, t)
    ensures Chain(cfg, a, page, slots[i := t], tail, tailPage)
    decreases i
  {
    hide SlotOk, InPage;
    var rest := slots[1..];
    if i == 0 {
      assert slots[i := t][1..] == rest;
    } else {
      assert slots[i := t][1..] == rest[i - 1 := t];
      ReplaceKeepsChain(cfg, slots[0].next, PageAfter(slots[0]), rest, tail, tailPage, i - 1, t);
    }
  }

  // ---- the memory -----------------------------------------------------------------------------------------

  /** Writing a word at an address that belongs to no slot disturbs none. */
  lemma WriteWordElsewhere<V>(cfg: Config, slots: seq<Slot<V>>, m: Memory<V>, a: nat, w: nat)
    requires Stored(cfg, slots, m)
    requires forall i :: 0 <= i < |slots| ==> slots[i].addr != a
    ensures Stored(cfg, slots, m.(words := m.words[a := w]))
  {
  }

  /** Changing the flags of one slot. */
  lemma WriteWord<V>(cfg: Config, a: nat, page: nat, slots: seq<Slot<V>>, tail: nat, tailPage: nat, m: Memory<V>,
                     i: nat, t: Slot<V>)
    requires cfg.Valid() && Chain(cfg, a, page, slots, tail, tailPage) && Stored(cfg, slots, m)
    requires i < |slots| && t.addr == slots[i].addr
    requires SlotStored(cfg, t, m.(words := m.words[t.addr := WordOf(t)]))
    ensures Stored(cfg, slots[i := t], m.(words := m.words[t.addr := WordOf(t)]))
  {
    hide Chain, WordOf;
    var m' := m.(words := m.words[t.addr := WordOf(t)]);
    var slots' := slots[i := t];
    forall k | 0 <= k < |slots'|
      ensures SlotStored(cfg, slots'[k], m')
    {
      assert SlotStored(cfg, slots[k], m);
      if k < i {
        AddressesDiffer(cfg, a, page, slots, tail, tailPage, k, i);
      } else if i < k {
        AddressesDiffer(cfg, a, page, slots, tail, tailPage, i, k);
      }
    }
  }

  // ---- the resources -----------------------------------------------------------------------------------------

  lemma {:induction false} JumpPagesAppend<V>(slots: seq<Slot<V>>, s: Slot<V>)
    ensures JumpPages(slots + [s]) == JumpPages(slots) + (if s.content.Jump? then {s.page} else {})
  {
    if slots == [] {
      assert slots + [s] == [s];
      assert JumpPages([s][1..]) == {};
    } else {
      assert (slots + [s])[1..] == slots[1..] + [s];
      JumpPagesAppend(slots[1..], s);
    }
  }

  lemma {:induction false} JumpPagesAre<V>(slots: seq<Slot<V>>, p: nat)
    ensures p in JumpPages(slots) <==> exists i :: 0 <= i < |slots| && slots[i].content.Jump? && slots[i].page == p
  {
    if slots != [] {
      JumpPagesAre(slots[1..], p);
      forall i | 0 <= i < |slots| && slots[i].content.Jump? && slots[i].page == p
        ensures p in JumpPages(slots)
      {
        if i > 0 {
          assert slots[1..][i - 1] == slots[i];
        }
      }
      if p in JumpPages(slots[1..]) {
        var i :| 0 <= i < |slots[1..]| && slots[1..][i].content.Jump? && slots[1..][i].page == p;
        assert slots[i + 1].content.Jump? && slots[i + 1].page == p;
      }
    }
  }

  lemma {:induction false} JumpPagesReplace<V>(slots: seq<Slot<V>>, i: nat, t: Slot<V>)
    requires i < |slots| && SamePlace(slots[i], t)
    ensures JumpPages(slots[i := t]) == JumpPages(slots)
  {
    if i > 0 {
      assert slots[i := t][1..] == slots[1..][i - 1 := t];
      JumpPagesReplace(slots[1..], i - 1, t);
    } else {
      assert slots[i := t][1..] == slots[1..];
    }
  }

  lemma {:induction false} ExternalsAppend<V>(slots: seq<Slot<V>>, s: Slot<V>)
    requires ExternalsDistinct(slots) && ExternalBlocks(slots).Keys !! ExternalOf(s).Keys
    ensures ExternalsDistinct(slots + [s])
    ensures ExternalBlocks(slots + [s]) == ExternalBlocks(slots) + ExternalOf(s)
  {
    hide ExternalOf;
    if slots == [] {
      assert slots + [s] == [s];
      assert [s][1..] == [];
    } else {
      assert (slots + [s])[1..] == slots[1..] + [s] && (slots + [s])[0] == slots[0];
      ExternalsAppend(slots[1..], s);
    }
  }

  lemma {:induction false} ExternalsReplace<V>(slots: seq<Slot<V>>, i: nat, t: Slot<V>)
    requires ExternalsDistinct(slots) && i < |slots| && t.external == slots[i].external
    ensures ExternalsDistinct(slots[i := t]) && ExternalBlocks(slots[i := t]) == ExternalBlocks(slots)
  {
    if i > 0 {
      assert slots[i := t][1..] == slots[1..][i - 1 := t];
      ExternalsReplace(slots[1..], i - 1, t);
    } else {
      assert slots[i := t][1..] == slots[1..];
    }
  }

  /** Linking an external block to the last slot of the chain. */
  lemma {:induction false} ExternalsLink<V>(slots: seq<Slot<V>>, t: Slot<V>)
    requires slots != [] && ExternalsDistinct(slots) && slots[|slots| - 1].external.None?
    requires ExternalBlocks(slots).Keys !! ExternalOf(t).Keys
    ensures var slots' := slots[|slots| - 1 := t];
            ExternalsDistinct(slots') && ExternalBlocks(slots') == ExternalBlocks(slots) + ExternalOf(t)
  {
    var n := |slots| - 1;
    var front, s := slots[..n], slots[n];
    assert slots == front + [s] && slots[n := t] == front + [t];
    ExternalsPrefix(front, s);
    ExternalsAppend(front, t);
  }

  lemma {:induction false} ExternalsPrefix<V>(front: seq<Slot<V>>, s: Slot<V>)
    requires ExternalsDistinct(front + [s]) && s.external.None?
    ensures ExternalsDistinct(front) && ExternalBlocks(front + [s]) == ExternalBlocks(front)
  {
    if front == [] {
      assert front + [s] == [s];
      assert [s][1..] == [];
    } else {
      assert (front + [s])[1..] == front[1..] + [s] && (front + [s])[0] == front[0];
      ExternalsPrefix(front[1..], s);
    }
  }

  // ---- the live entries ---------------------------------------------------------------------------------------

  lemma {:induction false} LiveConcat<V>(a: seq<Slot<V>>, b: seq<Slot<V>>)
    ensures Live(a + b) == Live(a) + Live(b)
  {
    if a == [] {
      assert a + b == b;
    } else {
      hide EntryOf;
      LiveConcat(a[1..], b);
      assert (a + b)[1..] == a[1..] + b && (a + b)[0] == a[0];
    }
  }

  /** A slot in the middle of the chain puts its entry, if it has one, in the middle of the live ones. */
  lemma LiveAround<V>(slots: seq<Slot<V>>, i: nat, t: Slot<V>)
    requires i < |slots|
    ensures Live(slots) == Live(slots[..i]) + EntryOf(slots[i]) + Live(slots[i + 1..])
    ensures Live(slots[i := t]) == Live(slots[..i]) + EntryOf(t) + Live(slots[i + 1..])
  {
    hide EntryOf;
    LiveParted(slots[..i], slots[i], slots[i + 1..]);
    LiveParted(slots[..i], t, slots[i + 1..]);
    assert slots == slots[..i] + [slots[i]] + slots[i + 1..];
    assert slots[i := t] == slots[..i] + [t] + slots[i + 1..];
  }

  lemma LiveParted<V>(low: seq<Slot<V>>, s: Slot<V>, high: seq<Slot<V>>)
    ensures Live(low + [s] + high) == Live(low) + EntryOf(s) + Live(high)
  {
    hide EntryOf;
    LiveConcat(low + [s], high);
    LiveConcat(low, [s]);
    assert Live([s]) == EntryOf(s) + Live([]);
  }

  // ---- allocating in the tail page -----------------------------------------------------------------------------

  function HeaderSize(cfg: Config, includeType: bool): nat {
    if includeType then cfg.control + cfg.typeSpace else cfg.control
  }

  function StorageAt(cfg: Config, tail: nat, includeType: bool, alignment: nat): nat
    requires alignment > 0
  {
    UpperAlign(tail + HeaderSize(cfg, includeType), alignment)
  }

  /** The last address at which a control block fits in the page of an address. */
  function EndOfPage(cfg: Config, a: nat): int
    requires cfg.pageAlign > 0
  {
    LowerAlign(a, cfg.pageAlign) + (cfg.pageSize - cfg.control)
  }

  lemma EndOfPageIs(cfg: Config, a: nat, page: nat)
    requires cfg.Valid() && InPage(cfg, a, page)
    ensures EndOfPage(cfg, a) == page + cfg.pageSize - cfg.control
  {
    hide Aligned, IsPow2, UpperAlign, LowerAlign;
    FrameOf(page, a, cfg.pageAlign);
  }

  /** Where the storage goes, and that the tail behind it is aligned again. */
  lemma StorageFacts(cfg: Config, tail: nat, page: nat, includeType: bool, size: nat, alignment: nat)
    requires cfg.Valid() && InPage(cfg, tail, page)
    requires IsPow2(alignment) && alignment >= cfg.minAlign && Aligned(size, alignment)
    ensures var storage := StorageAt(cfg, tail, includeType, alignment);
            && tail + HeaderSize(cfg, includeType) <= storage
            && storage <= tail + HeaderSize(cfg, includeType) + (alignment - cfg.minAlign)
            && Aligned(storage, alignment) && Aligned(storage + size, cfg.minAlign) && Aligned(storage + size, 8)
            && Aligned(tail, 8)
  {
    hide Aligned, UpperAlign, LowerAlign;
    var header := tail + HeaderSize(cfg, includeType);
    AlignedAdd(tail, cfg.control, cfg.minAlign);
    AlignedAdd(tail + cfg.control, cfg.typeSpace, cfg.minAlign);
    UpperAlignCost(header, alignment, cfg.minAlign);
    var storage := UpperAlign(header, alignment);
    AlignedAdd(storage, size, alignment);
    WeakerAlignment(storage + size, alignment, cfg.minAlign);
    assert Pow2(3) == 8;
    WeakerAlignment(storage + size, cfg.minAlign, 8);
    WeakerAlignment(tail, cfg.minAlign, 8);
  }

  function NewSlot<V>(cfg: Config, tail: nat, page: nat, includeType: bool, size: nat, alignment: nat,
                      status: Status): Slot<V>
    requires alignment > 0
  {
    var storage := StorageAt(cfg, tail, includeType, alignment);
    Slot(tail, storage + size, page, status, Blank, storage, size, None)
  }

  lemma NewSlotOk<V>(cfg: Config, tail: nat, page: nat, includeType: bool, size: nat, alignment: nat, status: Status)
    requires cfg.Valid() && InPage(cfg, tail, page)
    requires IsPow2(alignment) && alignment >= cfg.minAlign && Aligned(size, alignment)
    requires StorageAt(cfg, tail, includeType, alignment) + size <= EndOfPage(cfg, tail)
    ensures SlotOk<V>(cfg, NewSlot(cfg, tail, page, includeType, size, alignment, status))
  {
    hide Aligned, IsPow2, UpperAlign, LowerAlign, StorageAt, EndOfPage;
    StorageFacts(cfg, tail, page, includeType, size, alignment);
    EndOfPageIs(cfg, tail, page);
  }

  /** After a fresh page has been linked, the attempt that was worth it succeeds. */
  lemma FreshPageFits(cfg: Config, page: nat, includeType: bool, size: nat, alignment: nat)
    requires cfg.Valid() && InPage(cfg, page, page)
    requires IsPow2(alignment) && alignment >= cfg.minAlign && Aligned(size, alignment)
    requires size + (alignment - cfg.minAlign) <= cfg.MaxSizeInPage()
    ensures StorageAt(cfg, page, includeType, alignment) + size <= EndOfPage(cfg, page)
  {
    hide Aligned, IsPow2, UpperAlign, LowerAlign, StorageAt, EndOfPage;
    StorageFacts(cfg, page, page, includeType, size, alignment);
    EndOfPageIs(cfg, page, page);
  }

  /** The sentinel has room for nothing, so the first put allocates a page. */
  lemma SentinelOverflows(cfg: Config, includeType: bool, size: nat, alignment: nat)
    requires cfg.Valid() && IsPow2(alignment) && alignment > 0
    ensures cfg.Sentinel() >= 0 && cfg.pageAlign > 0
    ensures StorageAt(cfg, cfg.Sentinel(), includeType, alignment) + size > EndOfPage(cfg, cfg.Sentinel())
    ensures cfg.Sentinel() + HeaderSize(cfg, includeType) + size > EndOfPage(cfg, cfg.Sentinel())
  {
    hide Aligned, IsPow2, UpperAlign, LowerAlign;
    UpperAlignLeast(cfg.Sentinel() + HeaderSize(cfg, includeType), alignment, 0);
    AlignedSelf(cfg.pageAlign);
    FrameOf(0, cfg.Sentinel(), cfg.pageAlign);
  }

  /** Where an allocation is going to be placed. */
  datatype Decision = InTailPage | InNewPage | Outside

  function Decide(cfg: Config, tail: nat, includeType: bool, size: nat, alignment: nat): Decision
    requires alignment > 0 && cfg.pageAlign > 0
  {
    if StorageAt(cfg, tail, includeType, alignment) + size <= EndOfPage(cfg, tail) then InTailPage
    else if MayFit(cfg, size, alignment) then InNewPage
    else Outside
  }

  /** The storage is at the first aligned address behind the control block and, if there is one, the runtime
      type. */
  lemma StorageLeast(cfg: Config, tail: nat, includeType: bool, alignment: nat, m: nat)
    requires IsPow2(alignment) && alignment > 0
    ensures var storage := StorageAt(cfg, tail, includeType, alignment);
            var start := tail + cfg.control + (if includeType then cfg.typeSpace else 0);
            && Aligned(storage, alignment) && start <= storage
            && (Aligned(m, alignment) && start <= m ==> storage <= m)
  {
    hide Aligned, IsPow2, UpperAlign;
    UpperAlignLeast(tail + HeaderSize(cfg, includeType), alignment, m);
  }

  /** There is room for the header, the storage at `a` and one more control block in the page of `tail`. */
  ghost predicate RoomAt(cfg: Config, tail: nat, page: nat, includeType: bool, size: nat, alignment: nat, a: nat)
    requires alignment > 0
  {
    && Aligned(a, alignment) && tail + cfg.control + (if includeType then cfg.typeSpace else 0) <= a
    && a + size + cfg.control <= page + cfg.pageSize
  }

  /** The tail page is used exactly if there is room for the element anywhere behind the tail; a heap block
      is used exactly if there is none, and the element is too large for a page of its own, counting the
      runtime type and the bytes that its alignment may cost. */
  lemma DecideExactly(cfg: Config, tail: nat, page: nat, includeType: bool, size: nat, alignment: nat)
    requires cfg.Valid() && InPage(cfg, tail, page)
    requires IsPow2(alignment) && alignment >= cfg.minAlign && Aligned(size, alignment)
    ensures var d := Decide(cfg, tail, includeType, size, alignment);
            && (d.InTailPage? <==> exists a: nat :: RoomAt(cfg, tail, page, includeType, size, alignment, a))
            && (d.Outside? <==> !d.InTailPage? && 2 * cfg.control + cfg.typeSpace + (alignment - cfg.minAlign) + size
                                                  > cfg.pageSize)
  {
    hide Aligned, IsPow2, UpperAlign, LowerAlign;
    EndOfPageIs(cfg, tail, page);
    var start := tail + HeaderSize(cfg, includeType);
    UpperAlignLeast(start, alignment, 0);
    if Decide(cfg, tail, includeType, size, alignment).InTailPage? {
      assert RoomAt(cfg, tail, page, includeType, size, alignment, UpperAlign(start, alignment));
    }
    forall a: nat | RoomAt(cfg, tail, page, includeType, size, alignment, a)
      ensures Decide(cfg, tail, includeType, size, alignment).InTailPage?
    {
      UpperAlignLeast(start, alignment, a);
    }
  }

  /** The converse of `FreshPageFits`, up to the slack that the test allows for: what goes into a heap block
      does not fit in a fresh page with a runtime type and the bytes that its alignment may cost. */
  lemma OutsideTooLarge(cfg: Config, tail: nat, page: nat, includeType: bool, size: nat, alignment: nat)
    requires cfg.Valid() && InPage(cfg, page, page)
    requires IsPow2(alignment) && alignment >= cfg.minAlign && Aligned(size, alignment)
    requires Decide(cfg, tail, includeType, size, alignment).Outside?
    ensures page + cfg.control + cfg.typeSpace + (alignment - cfg.minAlign) + size > EndOfPage(cfg, page)
  {
    hide Aligned, IsPow2, UpperAlign, LowerAlign;
    EndOfPageIs(cfg, page, page);
  }

  /** Where the fixed-size overload puts the element, without aligning it when it need not. */
  function FixedStorageAt(cfg: Config, tail: nat, includeType: bool, alignment: nat): nat
    requires alignment > 0
  {
    if alignment > cfg.minAlign then StorageAt(cfg, tail, includeType, alignment)
    else tail + HeaderSize(cfg, includeType)
  }

  /** At every tail a queue can have, the sentinel included, the fixed-size overload takes the same
      decision as the other one, and when it places the element it places it at the same address. */
  lemma FixedDecides(cfg: Config, tail: nat, page: nat, includeType: bool, size: nat, alignment: nat)
    requires cfg.Valid() && (tail == cfg.Sentinel() || InPage(cfg, tail, page))
    requires IsPow2(alignment) && alignment >= cfg.minAlign && Aligned(size, alignment)
    ensures cfg.pageAlign > 0
    ensures var storage := FixedStorageAt(cfg, tail, includeType, alignment);
            && (storage + size <= EndOfPage(cfg, tail)
                <==> Decide(cfg, tail, includeType, size, alignment).InTailPage?)
            && (storage + size <= EndOfPage(cfg, tail) ==>
                  storage == StorageAt(cfg, tail, includeType, alignment) && tail != cfg.Sentinel())
  {
    hide Aligned, IsPow2, UpperAlign, EndOfPage;
    if tail == cfg.Sentinel() {
      SentinelOverflows(cfg, includeType, size, alignment);
    } else {
      NotSentinel(cfg, tail, page);
      StorageFacts(cfg, tail, page, includeType, size, alignment);
    }
  }

  /** The fixed-size overload rounds the size to the raised alignment; that is the normal size. */
  lemma FixedNormal(cfg: Config, size: nat, alignment: nat)
    requires cfg.Valid() && IsPow2(alignment) && alignment > 0 && Aligned(size, alignment)
    ensures var a := if alignment > cfg.minAlign then alignment else cfg.minAlign;
            a == NormalAlignment(cfg, alignment) && UpperAlign(size, a) == NormalSize(cfg, size, alignment)
  {
    hide Aligned, IsPow2, UpperAlign;
    AlignedUnchanged(size, alignment);
  }

  /** A descriptor of an external block always fits in a page. */
  lemma DescriptorFits(cfg: Config)
    requires cfg.Valid()
    ensures UpperAlign(EXTERNAL_BLOCK_SIZE, cfg.minAlign) + (cfg.minAlign - cfg.minAlign) <= cfg.MaxSizeInPage()
  {
  }

  // ---- whole-state steps ------------------------------------------------------------------------------------------

  /** A slot added at the tail of its page. */
  lemma PlaceSlot<V>(cfg: Config, head: nat, headPage: nat, slots: seq<Slot<V>>, tail: nat, tailPage: nat,
                     m: Memory<V>, loose: map<nat, BlockInfo>, pages: set<nat>, blocks: map<nat, BlockInfo>, s: Slot<V>)
    requires cfg.Valid() && tail != cfg.Sentinel()
    requires Represents(cfg, head, headPage, slots, tail, tailPage, m, loose, pages, blocks)
    requires SlotOk(cfg, s) && s.addr == tail && s.page == tailPage && s.content.Blank? && s.external.None?
    ensures s.next != cfg.Sentinel()
    ensures Represents(cfg, head, headPage, slots + [s], s.next, tailPage, m.(words := m.words[tail := WordOf(s)]),
                       loose, pages, blocks)
    ensures Live(slots + [s]) == Live(slots)
  {
    hide Chain, InPage, StorageOk, ContentOk, WordOf, Apart, JumpPages, ExternalBlocks, ExternalsDistinct, Live;
    AppendKeepsChain(cfg, head, headPage, slots, tail, tailPage, s);
    NotSentinel(cfg, s.next, s.page);
    TailIsNoSlot(cfg, head, headPage, slots, tail, tailPage);
    WriteWordElsewhere(cfg, slots, m, tail, WordOf(s));
    JumpPagesAppend(slots, s);
    ExternalsAppend(slots, s);
    LiveAppend(slots, s);
  }

  lemma NotSentinel(cfg: Config, a: nat, page: nat)
    requires cfg.Valid() && InPage(cfg, a, page)
    ensures a != cfg.Sentinel()
  {
  }

  lemma LiveAppend<V>(slots: seq<Slot<V>>, s: Slot<V>)
    ensures Live(slots + [s]) == Live(slots) + EntryOf(s)
  {
    hide EntryOf;
    LiveConcat(slots, [s]);
    assert Live([s]) == EntryOf(s) + Live([]);
  }

  function JumpSlot<V>(tail: nat, tailPage: nat, page: nat): Slot<V> {
    Slot(tail, page, tailPage, Dead, Jump, 0, 0, None)
  }

  /** A fresh page linked behind the tail. */
  lemma LinkPage<V>(cfg: Config, head: nat, headPage: nat, slots: seq<Slot<V>>, tail: nat, tailPage: nat,
                    m: Memory<V>, loose: map<nat, BlockInfo>, pages: set<nat>, blocks: map<nat, BlockInfo>, page: nat)
    requires cfg.Valid() && tail != cfg.Sentinel()
    requires Represents(cfg, head, headPage, slots, tail, tailPage, m, loose, pages, blocks)
    requires page !in pages && InPage(cfg, page, page)
    ensures var s := JumpSlot<V>(tail, tailPage, page);
            Represents(cfg, head, headPage, slots + [s], page, page, m.(words := m.words[tail := page + DEAD]),
                       loose, pages + {page}, blocks)
    ensures Live(slots + [JumpSlot(tail, tailPage, page)]) == Live(slots)
  {
    hide Chain, StorageOk, ContentOk, Apart, JumpPages, ExternalBlocks, ExternalsDistinct, Live, InPage;
    var s := JumpSlot<V>(tail, tailPage, page);
    ChainEnd(cfg, head, headPage, slots, tail, tailPage);
    InPageFacts(cfg, page, page);
    InPageFacts(cfg, tail, tailPage);
    assert SlotOk(cfg, s);
    AppendKeepsChain(cfg, head, headPage, slots, tail, tailPage, s);
    NotSentinel(cfg, page, page);
    TailIsNoSlot(cfg, head, headPage, slots, tail, tailPage);
    WriteWordElsewhere(cfg, slots, m, tail, WordOf(s));
    JumpPagesAppend(slots, s);
    ExternalsAppend(slots, s);
    LiveAppend(slots, s);
  }

  lemma InPageFacts(cfg: Config, a: nat, page: nat)
    requires cfg.Valid() && InPage(cfg, a, page)
    ensures Aligned(a, 8)
  {
    hide Aligned;
    assert Pow2(3) == 8;
    WeakerAlignment(a, cfg.minAlign, 8);
  }

  /** The first byte of a page is a valid position. */
  lemma PageStart(cfg: Config, page: nat)
    requires cfg.Valid() && Aligned(page, cfg.pageAlign) && cfg.pageAlign <= page
    ensures InPage(cfg, page, page) && Aligned(page, 8)
  {
    hide Aligned, UpperAlign;
    WeakerAlignment(page, cfg.pageAlign, cfg.minAlign);
    UpperAlignLeast(EXTERNAL_BLOCK_SIZE, cfg.minAlign, 0);
    InPageFacts(cfg, page, page);
  }

  /** The first page of a queue that had none. */
  lemma FirstPage<V>(cfg: Config, m: Memory<V>, loose: map<nat, BlockInfo>, page: nat)
    requires cfg.Valid() && InPage(cfg, page, page)
    ensures Represents(cfg, page, page, [], page, page, m, loose, {page}, loose)
  {
    NotSentinel(cfg, page, page);
    assert Chain<V>(cfg, page, page, [], page, page);
    assert map[] + loose == loose;
  }

  lemma VirginState<V>(cfg: Config, head: nat, headPage: nat, slots: seq<Slot<V>>, tail: nat, tailPage: nat,
                       m: Memory<V>, loose: map<nat, BlockInfo>, pages: set<nat>, blocks: map<nat, BlockInfo>)
    requires cfg.Valid() && tail == cfg.Sentinel()
    requires Represents(cfg, head, headPage, slots, tail, tailPage, m, loose, pages, blocks)
    ensures head == tail && slots == [] && pages == {} && blocks == loose
  {
  }

  /** Writing to the control block at the tail, which belongs to no slot, changes nothing. */
  lemma ZeroTail<V>(cfg: Config, head: nat, headPage: nat, slots: seq<Slot<V>>, tail: nat, tailPage: nat,
                    m: Memory<V>, loose: map<nat, BlockInfo>, pages: set<nat>, blocks: map<nat, BlockInfo>)
    requires cfg.Valid() && tail != cfg.Sentinel()
    requires Represents(cfg, head, headPage, slots, tail, tailPage, m, loose, pages, blocks)
    ensures Represents(cfg, head, headPage, slots, tail, tailPage, m.(words := m.words[tail := 0]), loose, pages,
                       blocks)
    ensures InPage(cfg, tail, tailPage)
  {
    hide Chain, Stored, Resources, InPage;
    ChainEnd(cfg, head, headPage, slots, tail, tailPage);
    TailIsNoSlot(cfg, head, headPage, slots, tail, tailPage);
    WriteWordElsewhere(cfg, slots, m, tail, 0);
  }

  // ---- allocating outside the pages --------------------------------------------------------------------------------

  /** The library raises small alignments, and the size with them, to the minimum alignment. */
  function NormalAlignment(cfg: Config, alignment: nat): nat {
    if alignment < cfg.minAlign then cfg.minAlign else alignment
  }

  function NormalSize(cfg: Config, size: nat, alignment: nat): nat
    requires cfg.minAlign > 0
  {
    if alignment < cfg.minAlign then UpperAlign(size, cfg.minAlign) else size
  }

  /** The alignment is the larger of the two, and the size the least multiple of the minimum alignment that is
      not smaller than the size asked for. */
  lemma NormalLeast(cfg: Config, size: nat, alignment: nat, m: nat)
    requires cfg.Valid() && IsPow2(alignment) && alignment > 0 && Aligned(size, alignment)
    ensures var a := NormalAlignment(cfg, alignment);
            a >= alignment && a >= cfg.minAlign && (a == alignment || a == cfg.minAlign)
    ensures var n := NormalSize(cfg, size, alignment);
            size <= n && Aligned(n, cfg.minAlign) && (Aligned(m, cfg.minAlign) && size <= m ==> n <= m)
  {
    hide Aligned, IsPow2, UpperAlign;
    UpperAlignLeast(size, cfg.minAlign, m);
    if alignment >= cfg.minAlign {
      WeakerAlignment(size, alignment, cfg.minAlign);
    }
  }

  /** Whether an allocation may fit in a page, however full the tail page is. */
  predicate MayFit(cfg: Config, size: nat, alignment: nat) {
    size + (alignment - cfg.minAlign) <= cfg.MaxSizeInPage()
  }

  lemma NormalFacts(cfg: Config, size: nat, alignment: nat)
    requires cfg.Valid() && IsPow2(alignment) && alignment > 0 && Aligned(size, alignment)
    ensures var a, n := NormalAlignment(cfg, alignment), NormalSize(cfg, size, alignment);
            && IsPow2(a) && cfg.minAlign <= a && alignment <= a && Aligned(n, a) && size <= n
  {
    hide Aligned, IsPow2, UpperAlign;
    UpperAlignLeast(size, cfg.minAlign, 0);
  }

  /** Where the descriptor of an external block is put is where the reclaim sweep reads it. */
  lemma DescriptorPlace(cfg: Config, tail: nat, page: nat)
    requires cfg.Valid() && InPage(cfg, tail, page)
    ensures StorageAt(cfg, tail, true, cfg.minAlign) == tail + cfg.control + cfg.typeSpace
  {
    hide Aligned, UpperAlign;
    AlignedAdd(tail, cfg.control, cfg.minAlign);
    AlignedAdd(tail + cfg.control, cfg.typeSpace, cfg.minAlign);
    AlignedUnchanged(tail + cfg.control + cfg.typeSpace, cfg.minAlign);
  }

  function Linked<V>(s: Slot<V>, e: ExternalBlock): Slot<V> {
    s.(storage := e.element, size := e.size, external := Some(e))
  }

  /** A loose heap block becomes the storage of the last slot. */
  lemma LinkExternal<V>(cfg: Config, head: nat, headPage: nat, slots: seq<Slot<V>>, tail: nat, tailPage: nat,
                        m: Memory<V>, pages: set<nat>, blocks: map<nat, BlockInfo>, e: ExternalBlock)
    requires cfg.Valid() && slots != [] && tail != cfg.Sentinel()
    requires Represents(cfg, head, headPage, slots, tail, tailPage, m,
                        map[e.element := BlockInfo(e.size, e.alignment)], pages, blocks)
    requires var s := slots[|slots| - 1];
             s.content.Blank? && s.external.None? && s.size >= EXTERNAL_BLOCK_SIZE
             && s.storage == s.addr + cfg.control + cfg.typeSpace
    ensures var n := |slots| - 1;
            var s, t := slots[n], Linked(slots[n], e);
            && s.addr in m.words
            && SetExternal(m.words[s.addr]) == WordOf(t)
            && Represents(cfg, head, headPage, slots[n := t], tail, tailPage,
                          m.(words := m.words[s.addr := WordOf(t)], externals := m.externals[s.storage := e]),
                          map[], pages, blocks)
            && Live(slots[n := t]) == Live(slots)
  {
    hide Chain, InPage, Live, Apart, SetExternal, Stored, SlotStored, Resources, WordOf;
    var n := |slots| - 1;
    var s, t := slots[n], Linked(slots[n], e);
    ChainAt(cfg, head, headPage, slots, tail, tailPage, n);
    LinkWord(cfg, slots, m, e);
    ReplaceKeepsChain(cfg, head, headPage, slots, tail, tailPage, n, t);
    WriteExternal(cfg, head, headPage, slots, tail, tailPage, m, n, t);
    LinkResources(slots, tailPage, e, pages, blocks);
    LiveAround(slots, n, t);
  }

  lemma LinkWord<V>(cfg: Config, slots: seq<Slot<V>>, m: Memory<V>, e: ExternalBlock)
    requires cfg.Valid() && slots != [] && Stored(cfg, slots, m)
    requires SlotOk(cfg, slots[|slots| - 1]) && slots[|slots| - 1].external.None?
    ensures var s := slots[|slots| - 1];
            s.addr in m.words && SetExternal(m.words[s.addr]) == WordOf(Linked(s, e))
  {
    hide SetExternal, InPage, StorageOk, ContentOk, And, Aligned;
    var s := slots[|slots| - 1];
    assert SlotStored(cfg, s, m);
    WordParts(s.next, StatusBits(s.status), 0);
  }

  lemma LinkResources<V>(slots: seq<Slot<V>>, tailPage: nat, e: ExternalBlock, pages: set<nat>,
                         blocks: map<nat, BlockInfo>)
    requires slots != [] && slots[|slots| - 1].external.None?
    requires Resources(slots, tailPage, map[e.element := BlockInfo(e.size, e.alignment)], pages, blocks)
    ensures Resources(slots[|slots| - 1 := Linked(slots[|slots| - 1], e)], tailPage, map[], pages, blocks)
  {
    hide JumpPages, ExternalBlocks, ExternalsDistinct;
    var n := |slots| - 1;
    var t := Linked(slots[n], e);
    JumpPagesReplace(slots, n, t);
    ExternalsLink(slots, t);
  }

  /** Writing the word and the descriptor of one slot leaves every slot at another address alone. */
  lemma OtherSlotStored<V>(cfg: Config, s: Slot<V>, m: Memory<V>, a: nat, w: nat, e: ExternalBlock)
    requires SlotStored(cfg, s, m) && s.addr != a
    ensures SlotStored(cfg, s, m.(words := m.words[a := w],
                                  externals := m.externals[a + cfg.control + cfg.typeSpace := e]))
  {
    hide WordOf;
  }

  lemma WriteExternal<V>(cfg: Config, a: nat, page: nat, slots: seq<Slot<V>>, tail: nat, tailPage: nat, m: Memory<V>,
                         i: nat, t: Slot<V>)
    requires cfg.Valid() && Chain(cfg, a, page, slots, tail, tailPage) && Stored(cfg, slots, m)
    requires i < |slots| && t.addr == slots[i].addr && t.external.Some? && t.content.Blank?
    ensures Stored(cfg, slots[i := t],
                   m.(words := m.words[t.addr := WordOf(t)],
                      externals := m.externals[t.addr + cfg.control + cfg.typeSpace := t.external.value]))
  {
    hide Chain, WordOf, SlotStored;
    var m' := m.(words := m.words[t.addr := WordOf(t)],
                 externals := m.externals[t.addr + cfg.control + cfg.typeSpace := t.external.value]);
    var slots' := slots[i := t];
    OwnSlotStored(cfg, t, m);
    forall k | 0 <= k < |slots'|
      ensures SlotStored(cfg, slots'[k], m')
    {
      if k != i {
        assert SlotStored(cfg, slots[k], m);
        AddressesDiffer(cfg, a, page, slots, tail, tailPage, if k < i then k else i, if k < i then i else k);
        OtherSlotStored(cfg, slots[k], m, t.addr, WordOf(t), t.external.value);
      }
    }
  }

  lemma OwnSlotStored<V>(cfg: Config, t: Slot<V>, m: Memory<V>)
    requires t.external.Some? && t.content.Blank?
    ensures SlotStored(cfg, t, m.(words := m.words[t.addr := WordOf(t)],
                                  externals := m.externals[t.addr + cfg.control + cfg.typeSpace := t.external.value]))
  {
    hide WordOf;
  }

  lemma TailInPageOrSentinel<V>(cfg: Config, head: nat, headPage: nat, slots: seq<Slot<V>>, tail: nat, tailPage: nat,
                      m: Memory<V>, loose: map<nat, BlockInfo>, pages: set<nat>, blocks: map<nat, BlockInfo>)
    requires cfg.Valid()
    requires Represents(cfg, head, headPage, slots, tail, tailPage, m, loose, pages, blocks)
    ensures tail != cfg.Sentinel() ==> InPage(cfg, tail, tailPage)
  {
    hide Chain, Stored, Resources, InPage;
    if tail != cfg.Sentinel() {
      ChainEnd(cfg, head, headPage, slots, tail, tailPage);
    }
  }

  lemma DescriptorNormal(cfg: Config)
    requires cfg.Valid()
    ensures IsPow2(POINTER_SIZE) && Aligned(EXTERNAL_BLOCK_SIZE, POINTER_SIZE)
    ensures NormalAlignment(cfg, POINTER_SIZE) == cfg.minAlign
    ensures NormalSize(cfg, EXTERNAL_BLOCK_SIZE, POINTER_SIZE) == UpperAlign(EXTERNAL_BLOCK_SIZE, cfg.minAlign)
    ensures EXTERNAL_BLOCK_SIZE <= UpperAlign(EXTERNAL_BLOCK_SIZE, cfg.minAlign)
  {
    hide And, UpperAlign;
    assert Pow2(3) == 8;
    AlignedMod(EXTERNAL_BLOCK_SIZE, POINTER_SIZE);
    AlignedUnchanged(EXTERNAL_BLOCK_SIZE, POINTER_SIZE);
    UpperAlignLeast(EXTERNAL_BLOCK_SIZE, cfg.minAlign, 0);
  }

  /** A heap block just allocated is loose. */
  lemma LooseBlock<V>(cfg: Config, head: nat, headPage: nat, slots: seq<Slot<V>>, tail: nat, tailPage: nat,
                      m: Memory<V>, pages: set<nat>, blocks: map<nat, BlockInfo>, e: ExternalBlock)
    requires cfg.Valid() && e.element !in blocks
    requires Represents(cfg, head, headPage, slots, tail, tailPage, m, map[], pages, blocks)
    ensures var info := BlockInfo(e.size, e.alignment);
            Represents(cfg, head, headPage, slots, tail, tailPage, m, map[e.element := info], pages,
                       blocks[e.element := info])
  {
    hide Chain, Stored, JumpPages, ExternalBlocks, ExternalsDistinct;
  }

  /** A loose block that is given back leaves the state as it was before. */
  lemma LooseReturned<V>(cfg: Config, head: nat, headPage: nat, slots: seq<Slot<V>>, tail: nat, tailPage: nat,
                         m: Memory<V>, pages: set<nat>, blocks: map<nat, BlockInfo>, blocks': map<nat, BlockInfo>,
                         e: ExternalBlock)
    requires cfg.Valid() && e.element !in blocks && blocks' == blocks[e.element := BlockInfo(e.size, e.alignment)]
    requires Represents(cfg, head, headPage, slots, tail, tailPage, m,
                        map[e.element := BlockInfo(e.size, e.alignment)], pages, blocks')
    ensures blocks' - {e.element} == blocks
    ensures Represents(cfg, head, headPage, slots, tail, tailPage, m, map[], pages, blocks)
  {
    hide Chain, Stored, JumpPages, ExternalBlocks, ExternalsDistinct;
    if tail != cfg.Sentinel() {
      assert ExternalBlocks(slots) == blocks;
    }
  }

  /** The storage of the slot just placed for a descriptor. */
  lemma LastSlotPlace<V>(cfg: Config, head: nat, headPage: nat, slots: seq<Slot<V>>, tail: nat, tailPage: nat,
                         m: Memory<V>, loose: map<nat, BlockInfo>, pages: set<nat>, blocks: map<nat, BlockInfo>)
    requires cfg.Valid() && tail != cfg.Sentinel() && slots != []
    requires Represents(cfg, head, headPage, slots, tail, tailPage, m, loose, pages, blocks)
    requires slots[|slots| - 1].content.Blank?
    ensures var s := slots[|slots| - 1];
            StorageAt(cfg, s.addr, true, cfg.minAlign) == s.addr + cfg.control + cfg.typeSpace
  {
    hide Chain, Stored, Resources, InPage, Apart, StorageOk;
    ChainAt(cfg, head, headPage, slots, tail, tailPage, |slots| - 1);
    DescriptorPlace(cfg, slots[|slots| - 1].addr, slots[|slots| - 1].page);
  }
}
