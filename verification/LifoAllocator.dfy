/** The stack allocator: one integer and the page headers, against the stack of living blocks. */
module LifoAllocators {
  import opened Bits
  import opened Align
  import opened Options
  import opened Allocators
  import opened LifoLayout

  type Bytes = map<nat, nat>

  function Read(m: Bytes, a: nat): nat {
    if a in m then m[a] else 0
  }

  /** Memory after `n` bytes have been copied. */
  function Copied(m: Bytes, from: nat, to: nat, n: nat): Bytes {
    if n == 0 then m else Copied(m, from, to, n - 1)[to + n - 1 := Read(m, from + n - 1)]
  }

  lemma {:induction false} ReadCopied(m: Bytes, from: nat, to: nat, n: nat, a: nat)
    ensures Read(Copied(m, from, to, n), a) == if to <= a < to + n then Read(m, a - to + from) else Read(m, a)
  {
    if n > 0 {
      ReadCopied(m, from, to, n - 1, a);
    }
  }

  /** `memcpy` wants the two ranges not to overlap. */
  predicate Disjoint(from: nat, to: nat, n: nat) {
    n == 0 || from + n <= to || to + n <= from
  }

  function SmallerSize(x: nat, y: nat): (r: nat)
    ensures r <= x && r <= y && (r == x || r == y)
  {
    if x < y then x else y
  }

  /** The bytes of a living block are the same. */
  ghost predicate SameBytes(m: Bytes, m': Bytes, c: Block) {
    forall a: nat :: c.addr <= a < c.addr + c.size ==> Read(m', a) == Read(m, a)
  }

  /** The first `n` bytes at `to` are those that were at `from`. */
  ghost predicate MovedBytes(m: Bytes, m': Bytes, from: nat, to: nat, n: nat) {
    forall a: nat :: to <= a < to + n ==> Read(m', a) == Read(m, a - to + from)
  }

  /** A block of this size fits in the page behind `top`. */
  predicate Fits(cfg: Config, top: nat, size: nat)
    requires cfg.pageAlign > 0
  {
    top + size - LowerAlign(top, cfg.pageAlign) < cfg.pageSize
  }

  /** In a page, that is exactly if the block ends before the page does. */
  lemma FitsExactly(cfg: Config, l: Levels, headers: map<nat, nat>, size: nat)
    requires cfg.Valid() && LevelsOk(cfg, l, headers) && l.Page?
    ensures Fits(cfg, TopOf(cfg, l), size) <==> l.top + size < l.base + cfg.pageSize
  {
    hide Aligned, IsPow2, LowerAlign;
    TopFrame(cfg, l, headers);
  }

  /** Where a block goes if the stack ends at `top0`: behind it if it fits in the page, else behind the
      header of a new page if it is smaller than half a page, else in the heap. */
  ghost predicate Placed(cfg: Config, top0: nat, top: nat, b: Block, pages0: set<nat>)
    requires cfg.pageAlign > 0
  {
    if Fits(cfg, top0, b.size) then
      b.place.InPage? && b.addr == top0 && top == top0 + b.size
    else if b.size < cfg.pageSize / 2 then
      b.place.InPage? && b.place.base !in pages0 && b.addr == b.place.base + cfg.Header() && top == b.addr + b.size
    else
      b.place.Outside? && top == top0
  }

  class LifoAllocator {
    const cfg: Config
    const allocator: Allocator
    /** Where the next block would start. */
    var top: nat
    /** The word each page header holds: the top of the allocator when the page was put on. */
    var headers: map<nat, nat>
    /** The bytes of the blocks. */
    var memory: Bytes
    ghost var blocks: Stack
    ghost var levels: Levels

    ghost predicate Valid()
      reads this, allocator
    {
      && cfg.Valid() && allocator.Valid() && allocator.pageAlign == cfg.pageAlign
      && Represents(cfg, top, headers, blocks, levels, allocator.pages, allocator.blocks)
    }

    constructor (cfg: Config, allocator: Allocator)
      requires cfg.Valid() && allocator.Valid() && allocator.pageAlign == cfg.pageAlign
      requires allocator.pages == {} && allocator.blocks == map[]
      ensures Valid() && blocks == Bottom
      ensures this.cfg == cfg && this.allocator == allocator
    {
      this.cfg := cfg;
      this.allocator := allocator;
      top := LowerAlign(cfg.pageAlign - 1, cfg.alignment);
      headers := map[];
      memory := map[];
      blocks, levels := Bottom, Ground;
    }

    /** Puts a block on the stack. A failure changes nothing; no byte of a living block changes. */
    method Allocate(size: nat) returns (r: Option<nat>)
      requires Valid() && Aligned(size, cfg.alignment)
      modifies this`top, this`headers, this`blocks, this`levels, allocator
      ensures Valid()
      ensures allocator.failures == old(allocator.failures) + if r.None? then 1 else 0
      ensures Fits(cfg, old(top), size) ==> r == Some(old(top))
      ensures r.None? ==> Unchanged(old(top), old(headers), old(blocks), old(allocator.pages), old(allocator.blocks))
      ensures r.Some? ==> blocks.Push? && blocks == Push(Block(r.value, size, blocks.block.place), old(blocks))
      ensures r.Some? ==> Placed(cfg, old(top), top, blocks.block, old(allocator.pages))
      ensures r.Some? ==> Aligned(r.value, cfg.alignment)
      ensures r.Some? ==> forall c <- Elements(old(blocks)) :: RangesApart(blocks.block, c)
      ensures r.Some? ==> MissesHeaders(cfg, blocks.block, allocator.pages)
    {
      hide Represents, Aligned, IsPow2, LowerAlign, RangesApart;
      var newTop := top + size;
      var newOffset := newTop - LowerAlign(top, cfg.pageAlign);
      if !(newOffset < cfg.pageSize) {
        r := AllocateSlowPath(size);
      } else {
        PushInPage(cfg, top, headers, blocks, levels, allocator.pages, allocator.blocks, size);
        var newBlock := top;
        blocks := Push(Block(top, size, InPage(BaseOf(levels))), blocks);
        levels := WithTop(levels, newTop);
        top := newTop;
        r := Some(newBlock);
      }
      if r.Some? {
        AllApart(cfg, top, headers, blocks, levels, allocator.pages, allocator.blocks, allocator.limit);
        TopMissesHeaders(cfg, top, headers, blocks, levels, allocator.pages, allocator.blocks, allocator.limit);
      }
    }

    ghost predicate Unchanged(top0: nat, headers0: map<nat, nat>, blocks0: Stack, pages0: set<nat>,
                              heap0: map<nat, BlockInfo>)
      reads this, allocator
    {
      top == top0 && headers == headers0 && blocks == blocks0 && allocator.pages == pages0 && allocator.blocks == heap0
    }

    method AllocateSlowPath(size: nat) returns (r: Option<nat>)
      requires Valid() && Aligned(size, cfg.alignment)
      requires top + size - LowerAlign(top, cfg.pageAlign) >= cfg.pageSize
      modifies this`top, this`headers, this`blocks, this`levels, allocator
      ensures Valid()
      ensures allocator.failures == old(allocator.failures) + if r.None? then 1 else 0
      ensures r.None? ==> Unchanged(old(top), old(headers), old(blocks), old(allocator.pages), old(allocator.blocks))
      ensures r.Some? ==> blocks.Push? && blocks == Push(Block(r.value, size, blocks.block.place), old(blocks))
      ensures r.Some? ==> Placed(cfg, old(top), top, blocks.block, old(allocator.pages))
      ensures r.Some? ==> Aligned(r.value, cfg.alignment)
    {
      hide Represents, Aligned, IsPow2, LowerAlign;
      ghost var pages0, heap0 := allocator.pages, allocator.blocks;
      if size < cfg.pageSize / 2 {
        var page := allocator.AllocatePage();
        if page.None? {
          return None;
        }
        PushPage(cfg, top, headers, blocks, levels, pages0, heap0, size, page.value);
        var newHeader := page.value;
        headers := headers[newHeader := top];
        top := newHeader + cfg.Header() + size;
        blocks := Push(Block(newHeader + cfg.Header(), size, InPage(page.value)), blocks);
        levels := Page(page.value, top, levels);
        r := Some(newHeader + cfg.Header());
      } else {
        r := allocator.Allocate(size, cfg.alignment);
        if r.Some? {
          PushOutside(cfg, top, headers, blocks, levels, pages0, heap0, size, r.value);
          blocks := Push(Block(r.value, size, Outside), blocks);
        }
      }
    }

    /** A block of size zero, at the top: nothing but the stack of living blocks changes. */
    method AllocateEmpty() returns (r: nat)
      requires Valid()
      modifies this`blocks
      ensures Valid() && r == top && blocks.Push? && blocks == Push(Block(r, 0, blocks.block.place), old(blocks))
      ensures Aligned(r, cfg.alignment)
    {
      hide Represents, Aligned, IsPow2, LowerAlign;
      ZeroFits(cfg, top, headers, blocks, levels, allocator.pages, allocator.blocks);
      blocks := Push(Block(top, 0, InPage(BaseOf(levels))), blocks);
      r := top;
    }

    /** Takes the most recent block off the stack. Whether it is in the top page, in the page under it or
        in the heap is read off the addresses. */
    method Deallocate(block: nat, size: nat)
      requires Valid() && blocks.Push? && blocks.block.addr == block && blocks.block.size == size
      modifies this`top, this`blocks, this`levels, allocator
      ensures Valid() && blocks == old(blocks).below
      ensures top == if old(blocks).block.place.Outside? then old(top) else block
    {
      hide Represents, Aligned, IsPow2, LowerAlign;
      AddressesDecide(cfg, top, headers, blocks.block, blocks.below, levels, allocator.pages, allocator.blocks,
                      allocator.limit);
      if !SameFrame(block, top, cfg.pageAlign) {
        DeallocateSlowPath(block, size);
      } else {
        PopInPage(cfg, top, headers, blocks.block, blocks.below, levels, allocator.pages, allocator.blocks);
        levels := Lowered(blocks.block, levels);
        top := block;
        blocks := blocks.below;
      }
    }

    method DeallocateSlowPath(block: nat, size: nat)
      requires Valid() && blocks.Push? && blocks.block.addr == block && blocks.block.size == size
      requires !SameFrame(block, top, cfg.pageAlign)
      modifies this`top, this`blocks, this`levels, allocator
      ensures Valid() && blocks == old(blocks).below
      ensures top == if old(blocks).block.place.Outside? then old(top) else block
    {
      hide Represents, Aligned, IsPow2, LowerAlign, And;
      ghost var b := blocks.block;
      AddressesDecide(cfg, top, headers, b, blocks.below, levels, allocator.pages, allocator.blocks, allocator.limit);
      if And(top, cfg.pageAlign - 1) == cfg.Header() && SameFrame(headers[top - cfg.Header()], block, cfg.pageAlign) {
        PopInPage(cfg, top, headers, b, blocks.below, levels, allocator.pages, allocator.blocks);
        var pageToDeallocate := top;
        assert !SameFrame(pageToDeallocate, block, cfg.pageAlign);
        allocator.DeallocatePage(pageToDeallocate);
        levels := Lowered(b, levels);
        top := block;
      } else {
        PopOutside(cfg, top, headers, b, blocks.below, levels, allocator.pages, allocator.blocks);
        allocator.Deallocate(block, size, cfg.alignment);
      }
      blocks := blocks.below;
    }

    /** Has the effect of lowering the top to `currentTop` and allocating there, but lowers it only when
        nothing can fail any more. `pages` are the pages left once the top is lowered. */
    method SetTopAndAllocate(currentTop: nat, size: nat, ghost below: Stack, ghost lowered: Levels,
                             ghost pages: set<nat>) returns (r: Option<nat>, ghost b: Block)
      requires cfg.Valid() && allocator.Valid() && allocator.pageAlign == cfg.pageAlign
      requires Represents(cfg, currentTop, headers, below, lowered, pages, allocator.blocks)
      requires pages <= allocator.pages && Aligned(size, cfg.alignment)
      modifies this`top, this`headers, this`levels, allocator
      ensures allocator.Valid()
      ensures allocator.failures == old(allocator.failures) + if r.None? then 1 else 0
      ensures Fits(cfg, currentTop, size) ==> r == Some(currentTop)
      ensures r.None? ==> top == old(top) && headers == old(headers) && levels == old(levels)
      ensures r.None? ==> allocator.pages == old(allocator.pages) && allocator.blocks == old(allocator.blocks)
      ensures r.Some? ==> b == Block(r.value, size, b.place) && Aligned(r.value, cfg.alignment)
      ensures r.Some? ==> Placed(cfg, currentTop, top, b, old(allocator.pages))
      ensures r.Some? ==> old(allocator.pages) <= allocator.pages
      ensures r.Some? ==> Represents(cfg, top, headers, Push(b, below), levels,
                                     pages + (allocator.pages - old(allocator.pages)), allocator.blocks)
      ensures r.Some? ==>
                r.value == currentTop || Fresh(cfg, b, old(allocator.pages), old(allocator.blocks), allocator.blocks)
    {
      hide Represents, Aligned, IsPow2, LowerAlign;
      b := Block(0, 0, Outside);
      ghost var pages0, heap0 := allocator.pages, allocator.blocks;
      var newTop := currentTop + size;
      var newOffset := newTop - LowerAlign(currentTop, cfg.pageAlign);
      if newOffset < cfg.pageSize {
        PushInPage(cfg, currentTop, headers, below, lowered, pages, heap0, size);
        b := Block(currentTop, size, InPage(BaseOf(lowered)));
        levels := WithTop(lowered, newTop);
        top := newTop;
        r := Some(currentTop);
        assert pages + (allocator.pages - pages0) == pages;
      } else if size < cfg.pageSize / 2 {
        var page := allocator.AllocatePage();
        if page.None? {
          return None, b;
        }
        PushPage(cfg, currentTop, headers, below, lowered, pages, heap0, size, page.value);
        assert pages + (allocator.pages - pages0) == pages + {page.value};
        b := Block(page.value + cfg.Header(), size, InPage(page.value));
        headers := headers[page.value := currentTop];
        top := page.value + cfg.Header() + size;
        levels := Page(page.value, top, lowered);
        r := Some(page.value + cfg.Header());
      } else {
        var newExternalBlock := allocator.Allocate(size, cfg.alignment);
        if newExternalBlock.None? {
          return None, b;
        }
        PushOutside(cfg, currentTop, headers, below, lowered, pages, heap0, size, newExternalBlock.value);
        assert pages + (allocator.pages - pages0) == pages;
        RepresentsTop(cfg, currentTop, headers, below, lowered, pages, heap0);
        b := Block(newExternalBlock.value, size, Outside);
        levels := lowered;
        top := currentTop;
        r := newExternalBlock;
      }
    }

    /** Copies the common bytes, unless the block has not moved. */
    method Copy(oldBlock: nat, oldSize: nat, newBlock: nat, newSize: nat)
      requires oldBlock == newBlock || Disjoint(oldBlock, newBlock, SmallerSize(newSize, oldSize))
      modifies this`memory
      ensures memory == if oldBlock == newBlock then old(memory)
                        else Copied(old(memory), oldBlock, newBlock, SmallerSize(newSize, oldSize))
    {
      if oldBlock != newBlock {
        var sizeToCopy := SmallerSize(newSize, oldSize);
        memory := Copied(memory, oldBlock, newBlock, sizeToCopy);
      }
    }

    /** Changes the size of the most recent block. Its bytes are kept up to the smaller size, wherever it
        was and wherever it goes; no other living block changes; a failure changes nothing. */
    method Reallocate(block: nat, oldSize: nat, newSize: nat) returns (r: Option<nat>)
      requires Valid() && blocks.Push? && blocks.block.addr == block && blocks.block.size == oldSize
      requires Aligned(newSize, cfg.alignment)
      modifies this, allocator
      ensures Valid()
      ensures allocator.failures == old(allocator.failures) + if r.None? then 1 else 0
      ensures var place := old(blocks).block.place;
              Fits(cfg, if place.Outside? then old(top) else block, newSize)
              ==> r == Some(if place.Outside? then old(top) else block)
      ensures r.None? ==> Unchanged(old(top), old(headers), old(blocks), old(allocator.pages), old(allocator.blocks))
      ensures r.None? ==> memory == old(memory)
      ensures r.Some? ==> blocks.Push? && blocks == Push(Block(r.value, newSize, blocks.block.place), old(blocks).below)
      ensures r.Some? ==> Placed(cfg, if old(blocks).block.place.Outside? then old(top) else block, top, blocks.block,
                                 old(allocator.pages))
      ensures r.Some? ==> Aligned(r.value, cfg.alignment)
      ensures r.Some? ==> MovedBytes(old(memory), memory, block, r.value, SmallerSize(newSize, oldSize))
      ensures r.Some? ==> forall c <- Elements(old(blocks).below) :: SameBytes(old(memory), memory, c)
      ensures r.Some? ==> MissesHeaders(cfg, blocks.block, allocator.pages)
    {
      hide Represents, Aligned, IsPow2, LowerAlign, And, RangesApart, Copied, MovedBytes, SameBytes, Disjoint,
           Fresh, OldPlace, EmptyPage, Elements, MissesHeaders;
      ghost var b, below := blocks.block, blocks.below;
      ghost var pages0, heap0 := allocator.pages, allocator.blocks;
      AddressesDecide(cfg, top, headers, b, below, levels, pages0, heap0, allocator.limit);
      OldBlock(cfg, top, headers, b, below, levels, pages0, heap0);
      if SameFrame(block, top, cfg.pageAlign) {
        PopInPage(cfg, top, headers, b, below, levels, pages0, heap0);
        ghost var n;
        r, n := SetTopAndAllocate(block, newSize, below, Lowered(b, levels), pages0);
        if r.None? {
          return;
        }
        assert pages0 + (allocator.pages - pages0) == allocator.pages;
        NewVersusOld(cfg, b, n, pages0, heap0, allocator.pages, allocator.blocks, allocator.limit);
        AllApart(cfg, top, headers, Push(n, below), levels, allocator.pages, allocator.blocks, allocator.limit);
        Copy(block, oldSize, r.value, newSize);
        CopyKeeps(old(memory), b, n, below);
        blocks := Push(n, below);
      } else {
        if And(top, cfg.pageAlign - 1) == cfg.Header() && SameFrame(headers[top - cfg.Header()], block, cfg.pageAlign) {
          var pageToDeallocate := top;
          assert !SameFrame(pageToDeallocate, block, cfg.pageAlign);
          PopInPage(cfg, top, headers, b, below, levels, pages0, heap0);
          ghost var n;
          ghost var gone := levels.base;
          r, n := SetTopAndAllocate(block, newSize, below, Lowered(b, levels), pages0 - {gone});
          if r.None? {
            return;
          }
          assert (pages0 - {gone}) + (allocator.pages - pages0) == allocator.pages - {gone};
          NewVersusOld(cfg, b, n, pages0, heap0, allocator.pages, allocator.blocks, allocator.limit);
          AllApartOf(cfg, top, headers, Push(n, below), levels, allocator.pages - {gone}, allocator.blocks,
                     allocator.pages, allocator.limit);
          Copy(block, oldSize, r.value, newSize);
          CopyKeeps(old(memory), b, n, below);
          allocator.DeallocatePage(pageToDeallocate);
          blocks := Push(n, below);
        } else {
          r := Allocate(newSize);
          if r.None? {
            return;
          }
          ghost var n := blocks.block;
          BelowIn(b, below);
          ApartIsDisjoint(n, b);
          Copy(block, oldSize, r.value, newSize);
          CopyKeeps(old(memory), b, n, below);
          DropSecond(cfg, top, headers, n, b, below, levels, allocator.pages, allocator.blocks);
          allocator.Deallocate(block, oldSize, cfg.alignment);
          blocks := Push(n, below);
        }
      }
      TopMissesHeaders(cfg, top, headers, blocks, levels, allocator.pages, allocator.blocks, allocator.limit);
    }

    /** The destructor: once all blocks are gone, everything is given back. */
    method Destroy()
      requires Valid() && blocks == Bottom
      modifies allocator
      ensures allocator.pages == {} && allocator.blocks == map[]
    {
      hide Aligned, IsPow2, LowerAlign;
      LastLevel(cfg, top, headers, levels, allocator.pages, allocator.blocks);
      if top != cfg.Virgin() {
        allocator.DeallocatePage(top);
      }
    }
  }

  // ---- lemmas about the stack ----------------------------------------------------------------------------

  lemma AllApartOf(cfg: Config, top: nat, headers: map<nat, nat>, s: Stack, l: Levels, pages: set<nat>,
                   blocks: map<nat, BlockInfo>, allPages: set<nat>, limit: nat)
    requires cfg.Valid() && s.Push? && Represents(cfg, top, headers, s, l, pages, blocks)
    requires ResourcesOk(cfg.pageAlign, allPages, blocks, limit) && pages <= allPages
    ensures forall c <- Elements(s.below) :: RangesApart(s.block, c)
  {
    hide Represents, ResourcesOk, RangesApart;
    forall c <- Elements(s.below) ensures RangesApart(s.block, c) {
      BlocksApart(cfg, top, headers, s.block, s.below, l, pages, blocks, allPages, limit, c);
    }
  }

  /** The most recent block overlaps no other living block. */
  lemma AllApart(cfg: Config, top: nat, headers: map<nat, nat>, s: Stack, l: Levels, pages: set<nat>,
                 blocks: map<nat, BlockInfo>, limit: nat)
    requires cfg.Valid() && s.Push? && Represents(cfg, top, headers, s, l, pages, blocks)
    requires ResourcesOk(cfg.pageAlign, pages, blocks, limit)
    ensures forall c <- Elements(s.below) :: RangesApart(s.block, c)
  {
    hide Represents, ResourcesOk, RangesApart;
    AllApartOf(cfg, top, headers, s, l, pages, blocks, pages, limit);
  }

  /** The block overlaps no page header. */
  ghost predicate MissesHeaders(cfg: Config, b: Block, pages: set<nat>) {
    forall p <- pages :: b.size == 0 || b.addr + b.size <= p || p + cfg.Header() <= b.addr
  }

  lemma TopMissesHeaders(cfg: Config, top: nat, headers: map<nat, nat>, s: Stack, l: Levels, pages: set<nat>,
                         blocks: map<nat, BlockInfo>, limit: nat)
    requires cfg.Valid() && s.Push? && Represents(cfg, top, headers, s, l, pages, blocks)
    requires ResourcesOk(cfg.pageAlign, pages, blocks, limit)
    ensures MissesHeaders(cfg, s.block, pages)
  {
    hide Represents, ResourcesOk;
    forall p <- pages
      ensures s.block.size == 0 || s.block.addr + s.block.size <= p || p + cfg.Header() <= s.block.addr
    {
      BlocksMissHeaders(cfg, top, headers, s, l, pages, blocks, pages, limit, s.block, p);
    }
  }

  lemma ApartIsDisjoint(n: Block, b: Block)
    requires RangesApart(n, b)
    ensures Disjoint(b.addr, n.addr, SmallerSize(n.size, b.size))
  {
  }

  lemma BelowIn(b: Block, below: Stack)
    ensures b in Elements(Push(b, below)) && Elements(below) <= Elements(Push(b, below))
  {
  }

  lemma RepresentsTop(cfg: Config, top: nat, headers: map<nat, nat>, s: Stack, l: Levels, pages: set<nat>,
                      blocks: map<nat, BlockInfo>)
    requires cfg.Valid() && Represents(cfg, top, headers, s, l, pages, blocks)
    ensures top == TopOf(cfg, l)
  {
  }

  /** An empty block can always be put at the top. */
  lemma ZeroFits(cfg: Config, top: nat, headers: map<nat, nat>, s: Stack, l: Levels, pages: set<nat>,
                 blocks: map<nat, BlockInfo>)
    requires cfg.Valid() && Represents(cfg, top, headers, s, l, pages, blocks)
    ensures Represents(cfg, top, headers, Push(Block(top, 0, InPage(BaseOf(l))), s), l, pages, blocks)
    ensures Aligned(top, cfg.alignment)
  {
    hide Aligned, IsPow2, LowerAlign;
    TopAligned(cfg, l, headers);
    AlignedSelf(cfg.alignment);
    assert WithTop(l, top) == l;
  }

  /** A block that has just been obtained: in a page that was not owned before, or in the heap. */
  ghost predicate Fresh(cfg: Config, b: Block, pages: set<nat>, blocks: map<nat, BlockInfo>,
                        blocks': map<nat, BlockInfo>)
    requires cfg.Valid()
  {
    match b.place
    case InPage(base) =>
      && base !in pages && Aligned(base, cfg.pageAlign) && cfg.pageAlign <= base
      && base <= b.addr && b.addr + b.size < base + cfg.pageSize
    case Outside => b.addr in blocks' && b.addr !in blocks && blocks'[b.addr].size == b.size
  }

  /** Where a block in a page is. */
  ghost predicate OldPlace(cfg: Config, b: Block, pages: set<nat>)
    requires cfg.Valid()
  {
    b.place.InPage? ==>
      if b.place.base == 0 then b.size == 0
      else && b.place.base in pages && Aligned(b.place.base, cfg.pageAlign)
           && b.place.base <= b.addr && b.addr + b.size < b.place.base + cfg.pageSize
  }

  lemma OldBlock(cfg: Config, top: nat, headers: map<nat, nat>, b: Block, below: Stack, l: Levels, pages: set<nat>,
                 blocks: map<nat, BlockInfo>)
    requires cfg.Valid() && Represents(cfg, top, headers, Push(b, below), l, pages, blocks)
    ensures OldPlace(cfg, b, pages)
  {
    hide Aligned, IsPow2, LowerAlign, Stacked, LevelsOk;
    BelowIn(b, below);
    BlockInLevels(cfg, Push(b, below), l, headers, b);
    if b.place.InPage? && b.place.base != 0 {
      PageRange(cfg, l, headers, b.place.base);
    }
  }

  /** A fresh block does not overlap the block it replaces. */
  lemma NewVersusOld(cfg: Config, b: Block, n: Block, pages: set<nat>, blocks: map<nat, BlockInfo>,
                     pages': set<nat>, blocks': map<nat, BlockInfo>, limit: nat)
    requires cfg.Valid() && b.place.InPage? && OldPlace(cfg, b, pages)
    requires n.addr == b.addr || Fresh(cfg, n, pages, blocks, blocks')
    requires pages <= pages' && ResourcesOk(cfg.pageAlign, pages', blocks', limit)
    ensures n.addr == b.addr || Disjoint(b.addr, n.addr, SmallerSize(n.size, b.size))
  {
    hide Aligned, IsPow2, LowerAlign;
    if n.addr != b.addr && b.place.base != 0 && n.place.InPage? {
      if n.place.base < b.place.base {
        AlignedApart(n.place.base, b.place.base, cfg.pageAlign);
      } else {
        AlignedApart(b.place.base, n.place.base, cfg.pageAlign);
      }
    }
  }

  /** Copying into a block that overlaps no other living block keeps the bytes of all of them. */
  lemma CopyKeeps(m: Bytes, b: Block, n: Block, below: Stack)
    requires forall c <- Elements(below) :: RangesApart(n, c)
    ensures var k := SmallerSize(n.size, b.size);
            var m' := if b.addr == n.addr then m else Copied(m, b.addr, n.addr, k);
            && MovedBytes(m, m', b.addr, n.addr, k)
            && forall c <- Elements(below) :: SameBytes(m, m', c)
  {
    hide RangesApart;
    var k := SmallerSize(n.size, b.size);
    var m' := if b.addr == n.addr then m else Copied(m, b.addr, n.addr, k);
    hide Copied;
    forall a: nat | n.addr <= a < n.addr + k ensures Read(m', a) == Read(m, a - n.addr + b.addr) {
      ReadCopied(m, b.addr, n.addr, k, a);
    }
    forall c <- Elements(below) ensures SameBytes(m, m', c) {
      CopyKeepsBlock(m, b, n, c);
    }
  }

  lemma CopyKeepsBlock(m: Bytes, b: Block, n: Block, c: Block)
    requires RangesApart(n, c)
    ensures SameBytes(m, Copied(m, b.addr, n.addr, SmallerSize(n.size, b.size)), c)
  {
    hide Copied;
    var k := SmallerSize(n.size, b.size);
    forall a: nat | c.addr <= a < c.addr + c.size ensures Read(Copied(m, b.addr, n.addr, k), a) == Read(m, a) {
      ReadCopied(m, b.addr, n.addr, k, a);
    }
  }

  /** Without living blocks there is at most one page, and the top lies in it. */
  lemma LastLevel(cfg: Config, top: nat, headers: map<nat, nat>, l: Levels, pages: set<nat>,
                  blocks: map<nat, BlockInfo>)
    requires cfg.Valid() && Represents(cfg, top, headers, Bottom, l, pages, blocks)
    ensures blocks == map[]
    ensures if top == cfg.Virgin() then pages == {} else pages == {LowerAlign(top, cfg.pageAlign)}
  {
    hide Aligned, IsPow2, LowerAlign;
    VirginFacts(cfg);
    TopFrame(cfg, l, headers);
    if l.Page? {
      assert l.under.Ground?;
      assert Bases(l) == {l.base};
    }
  }
}
