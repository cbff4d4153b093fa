/** How a stack of memory blocks lies in pages: the blocks of a page are contiguous behind its header,
    every page but the top one holds bytes of living blocks, and blocks too large are in the heap. */
module LifoLayout {
  import opened Bits
  import opened Align
  import opened Allocators
  import opened Machine

  datatype Config = Config(alignment: nat, pageSize: nat, pageAlign: nat) {
    /** The library's compile-time checks. */
    ghost predicate Valid() {
      && IsPow2(alignment) && alignment > 0
      && IsPow2(pageAlign) && alignment <= pageAlign && pageSize <= pageAlign
      && pageSize / 2 > Header()
    }

    /** The size of a page header, which is aligned both as the blocks and as a pointer. */
    function Header(): (r: nat)
      ensures r >= alignment && r >= POINTER_SIZE && (r == alignment || r == POINTER_SIZE)
    {
      if alignment > POINTER_SIZE then alignment else POINTER_SIZE
    }

    /** The top of an allocator that has no page. */
    function Virgin(): nat
      requires alignment > 0 && pageAlign > 0
    {
      LowerAlign(pageAlign - 1, alignment)
    }
  }

  /** The virgin top is the last aligned address of frame zero: a block of positive size never fits
      behind it, and it never looks like the top of an empty page. */
  lemma VirginFacts(cfg: Config)
    requires cfg.Valid()
    ensures cfg.Virgin() == cfg.pageAlign - cfg.alignment && cfg.Virgin() != cfg.Header()
    ensures Aligned(cfg.Virgin(), cfg.alignment) && cfg.Virgin() < cfg.pageAlign
    ensures Aligned(cfg.Header(), cfg.alignment) && cfg.Header() < cfg.pageSize
    ensures LowerAlign(cfg.Virgin(), cfg.pageAlign) == 0
    ensures And(cfg.Virgin(), cfg.pageAlign - 1) == cfg.Virgin()
  {
    hide Aligned, LowerAlign, IsPow2, And;
    AlignedSelf(cfg.alignment);
    AlignedSelf(cfg.pageAlign);
    LowerAlignGreatest(cfg.pageAlign - 1, cfg.alignment, 0);
    WeakerAlignment(cfg.pageAlign, cfg.pageAlign, cfg.alignment);
    AlignedApart(cfg.Virgin(), cfg.pageAlign, cfg.alignment);
    PointerAlignment(cfg);
    FrameOf(0, cfg.Virgin(), cfg.pageAlign);
    SmallRemainder(cfg.Virgin(), cfg.pageAlign);
    LastAligned(cfg.pageAlign, cfg.alignment);
  }

  lemma PointerAlignment(cfg: Config)
    requires cfg.Valid()
    ensures Aligned(cfg.Header(), cfg.alignment)
  {
    hide Aligned, And;
    assert Pow2(3) == POINTER_SIZE;
    AlignedSelf(cfg.alignment);
    AlignedSelf(POINTER_SIZE);
    if cfg.alignment <= POINTER_SIZE {
      WeakerAlignment(POINTER_SIZE, POINTER_SIZE, cfg.alignment);
    }
  }

  lemma LastAligned(big: nat, small: nat)
    requires IsPow2(big) && IsPow2(small) && 0 < small <= big
    ensures LowerAlign(big - 1, small) == big - small
  {
    hide And, IsPow2;
    AlignedSelf(big);
    AlignedSelf(small);
    WeakerAlignment(big, big, small);
    AlignedSum(small, big - small, small);
    LowerAlignGreatest(big - 1, small, big - small);
    AlignedApart(LowerAlign(big - 1, small), big, small);
  }

  // ---- blocks and pages ---------------------------------------------------------------------------------

  datatype Place = InPage(base: nat) | Outside

  datatype Block = Block(addr: nat, size: nat, place: Place)

  /** Living blocks, the most recent one first. */
  datatype Stack = Bottom | Push(block: Block, below: Stack)

  /** Pages with their tops, the most recent one first. `Ground` stands for the virgin top in frame zero. */
  datatype Levels = Ground | Page(base: nat, top: nat, under: Levels)

  function TopOf(cfg: Config, l: Levels): nat
    requires cfg.alignment > 0 && cfg.pageAlign > 0
  {
    if l.Ground? then cfg.Virgin() else l.top
  }

  function BaseOf(l: Levels): nat {
    if l.Ground? then 0 else l.base
  }

  function WithTop(l: Levels, top: nat): Levels {
    if l.Ground? then l else l.(top := top)
  }

  ghost function Bases(l: Levels): set<nat> {
    if l.Ground? then {} else {l.base} + Bases(l.under)
  }

  /** A page holds bytes of living blocks; the ground needs none. */
  predicate Full(cfg: Config, l: Levels) {
    l.Ground? || l.base + cfg.Header() < l.top
  }

  /** Each page is aligned, its top is strictly inside, its header leads to the top under it, and no page
      lies over an empty one. */
  ghost predicate LevelsOk(cfg: Config, l: Levels, headers: map<nat, nat>)
    requires cfg.Valid()
  {
    l.Page? ==>
      && Aligned(l.base, cfg.pageAlign) && cfg.pageAlign <= l.base && l.base !in Bases(l.under)
      && l.base + cfg.Header() <= l.top < l.base + cfg.pageSize && Aligned(l.top, cfg.alignment)
      && l.base in headers && headers[l.base] == TopOf(cfg, l.under)
      && Full(cfg, l.under)
      && LevelsOk(cfg, l.under, headers)
  }

  /** The block ends at the top of the level, and starts behind the page header. */
  ghost predicate AtTop(cfg: Config, b: Block, l: Levels)
    requires cfg.Valid()
  {
    && b.place == InPage(BaseOf(l))
    && b.addr + b.size == TopOf(cfg, l)
    && (if l.Ground? then b.size == 0 else l.base + cfg.Header() <= b.addr)
  }

  ghost predicate EmptyPage(cfg: Config, l: Levels) {
    l.Page? && l.top == l.base + cfg.Header()
  }

  /** The levels once the most recent block, which is in a page, is gone. */
  ghost function Lowered(b: Block, l: Levels): Levels
    requires b.place.InPage?
  {
    if b.place.base == BaseOf(l) || l.Ground? then WithTop(l, b.addr) else WithTop(l.under, b.addr)
  }

  /** The blocks fill the levels: the most recent block in a page ends at the top, or at the top of the
      page under an empty one. */
  ghost predicate Stacked(cfg: Config, s: Stack, l: Levels)
    requires cfg.Valid()
    decreases s
  {
    match s
    case Bottom => l.Ground? || (EmptyPage(cfg, l) && l.under.Ground?)
    case Push(b, below) =>
      && Aligned(b.addr, cfg.alignment) && Aligned(b.size, cfg.alignment)
      && match b.place
         case Outside => b.size > 0 && Stacked(cfg, below, l)
         case InPage(base) =>
           && (AtTop(cfg, b, l) || (EmptyPage(cfg, l) && base != l.base && AtTop(cfg, b, l.under)))
           && Stacked(cfg, below, Lowered(b, l))
  }

  /** The living blocks in the heap. */
  ghost function OutsideBlocks(cfg: Config, s: Stack): map<nat, BlockInfo> {
    match s
    case Bottom => map[]
    case Push(b, below) =>
      if b.place.Outside? then OutsideBlocks(cfg, below)[b.addr := BlockInfo(b.size, cfg.alignment)]
      else OutsideBlocks(cfg, below)
  }

  /** No two of them are the same. */
  ghost predicate OutsideDistinct(cfg: Config, s: Stack) {
    s.Push? ==>
      && (s.block.place.Outside? ==> s.block.addr !in OutsideBlocks(cfg, s.below))
      && OutsideDistinct(cfg, s.below)
  }

  /** The top and the page headers represent the stack of living blocks, and what the underlying allocator
      has given and not got back are exactly the pages and the heap blocks of the stack. */
  ghost predicate Represents(cfg: Config, top: nat, headers: map<nat, nat>, s: Stack, l: Levels,
                             pages: set<nat>, blocks: map<nat, BlockInfo>)
    requires cfg.Valid()
  {
    && top == TopOf(cfg, l)
    && LevelsOk(cfg, l, headers)
    && Stacked(cfg, s, l)
    && pages == Bases(l)
    && blocks == OutsideBlocks(cfg, s) && OutsideDistinct(cfg, s)
  }

  // ---- which block is where -------------------------------------------------------------------------------

  lemma {:induction false} LevelsFrame(cfg: Config, l: Levels, headers: map<nat, nat>, p: nat, w: nat)
    requires cfg.Valid() && LevelsOk(cfg, l, headers) && p !in Bases(l)
    ensures LevelsOk(cfg, l, headers[p := w])
  {
    hide Aligned;
    if l.Page? {
      LevelsFrame(cfg, l.under, headers, p, w);
    }
  }

  /** The frame of the top is the page of the top level, or frame zero. */
  lemma TopFrame(cfg: Config, l: Levels, headers: map<nat, nat>)
    requires cfg.Valid() && LevelsOk(cfg, l, headers)
    ensures LowerAlign(TopOf(cfg, l), cfg.pageAlign) == BaseOf(l)
    ensures l.Page? ==> And(l.top, cfg.pageAlign - 1) == l.top - l.base
  {
    hide Aligned, And, IsPow2;
    VirginFacts(cfg);
    if l.Page? {
      FrameOf(l.base, l.top, cfg.pageAlign);
    }
  }

  /** The frame of the most recent block. */
  lemma BlockFrame(cfg: Config, b: Block, below: Stack, l: Levels, headers: map<nat, nat>, pages: set<nat>,
                   blocks: map<nat, BlockInfo>, limit: nat)
    requires cfg.Valid() && LevelsOk(cfg, l, headers) && Stacked(cfg, Push(b, below), l)
    requires pages == Bases(l) && ResourcesOk(cfg.pageAlign, pages, blocks, limit)
    requires b.place.Outside? ==> b.addr in blocks
    ensures b.place.InPage? ==> LowerAlign(b.addr, cfg.pageAlign) == b.place.base
    ensures b.place.Outside? ==> LowerAlign(b.addr, cfg.pageAlign) != 0 && LowerAlign(b.addr, cfg.pageAlign) !in pages
  {
    hide Aligned, And, IsPow2, LowerAlign, Stacked;
    VirginFacts(cfg);
    match b.place
    case Outside =>
      LowerAlignGreatest(b.addr, cfg.pageAlign, cfg.pageAlign);
      AlignedSelf(cfg.pageAlign);
    case InPage(base) =>
      LastPlace(cfg, b, below, l);
      var m := if AtTop(cfg, b, l) then l else l.under;
      if m.Page? {
        FrameOf(base, b.addr, cfg.pageAlign);
      }
  }

  lemma LastPlace(cfg: Config, b: Block, below: Stack, l: Levels)
    requires cfg.Valid() && Stacked(cfg, Push(b, below), l) && b.place.InPage?
    ensures AtTop(cfg, b, l) || (EmptyPage(cfg, l) && b.place.base != l.base && AtTop(cfg, b, l.under))
    ensures AtTop(cfg, b, l) <==> b.place.base == BaseOf(l)
    ensures Stacked(cfg, below, Lowered(b, l))
    ensures Aligned(b.addr, cfg.alignment)
  {
    hide Aligned, AtTop;
    if AtTop(cfg, b, l) {
      AtTopBase(cfg, b, l);
    } else {
      AtTopBase(cfg, b, l.under);
    }
  }

  lemma AtTopBase(cfg: Config, b: Block, l: Levels)
    requires cfg.Valid() && AtTop(cfg, b, l)
    ensures b.place == InPage(BaseOf(l))
  {
  }

  /** The tests `deallocate` and `reallocate` make on addresses alone tell where the most recent block is:
      in the frame of the top if it is in the top page, in the frame that the header of an empty top page
      leads to if it is in the page under it, and in neither if it is in the heap. The header is read only
      when the top is right behind one. */
  lemma AddressesDecide(cfg: Config, top: nat, headers: map<nat, nat>, b: Block, below: Stack, l: Levels,
                        pages: set<nat>, blocks: map<nat, BlockInfo>, limit: nat)
    requires cfg.Valid() && Represents(cfg, top, headers, Push(b, below), l, pages, blocks)
    requires ResourcesOk(cfg.pageAlign, pages, blocks, limit)
    ensures SameFrame(b.addr, top, cfg.pageAlign) <==> b.place == InPage(BaseOf(l))
    ensures And(top, cfg.pageAlign - 1) == cfg.Header() <==> EmptyPage(cfg, l)
    ensures EmptyPage(cfg, l) ==>
              && top >= cfg.Header() && top - cfg.Header() == l.base && l.base in headers
              && LowerAlign(top, cfg.pageAlign) == l.base
              && (!SameFrame(b.addr, top, cfg.pageAlign) ==>
                    (SameFrame(headers[l.base], b.addr, cfg.pageAlign) <==> b.place == InPage(BaseOf(l.under))))
    ensures b.place.InPage? && b.place != InPage(BaseOf(l)) ==> EmptyPage(cfg, l) && b.place == InPage(BaseOf(l.under))
  {
    hide Aligned, And, IsPow2, LowerAlign, Stacked, AtTop, OutsideBlocks, OutsideDistinct, ResourcesOk;
    OutsideIn(cfg, b, below);
    BlockFrame(cfg, b, below, l, headers, pages, blocks, limit);
    TopFrame(cfg, l, headers);
    VirginFacts(cfg);
    BaseIn(l);
    if l.Page? {
      TopFrame(cfg, l.under, headers);
      BaseIn(l.under);
    }
    if b.place.InPage? {
      LastPlace(cfg, b, below, l);
      if b.place.base != BaseOf(l) {
        AtTopBase(cfg, b, l.under);
      }
    }
  }

  lemma BaseIn(l: Levels)
    ensures l.Page? ==> l.base in Bases(l) && Bases(l) == {l.base} + Bases(l.under)
  {
  }

  lemma OutsideIn(cfg: Config, b: Block, below: Stack)
    ensures b.place.Outside? ==> b.addr in OutsideBlocks(cfg, Push(b, below))
                                 && OutsideBlocks(cfg, Push(b, below))[b.addr] == BlockInfo(b.size, cfg.alignment)
  {
  }

  // ---- taking the most recent block away --------------------------------------------------------------------

  lemma LoweredOk(cfg: Config, b: Block, below: Stack, l: Levels, headers: map<nat, nat>)
    requires cfg.Valid() && LevelsOk(cfg, l, headers) && Stacked(cfg, Push(b, below), l) && b.place.InPage?
    ensures LevelsOk(cfg, Lowered(b, l), headers) && TopOf(cfg, Lowered(b, l)) == b.addr
    ensures Bases(Lowered(b, l)) == if b.place.base == BaseOf(l) then Bases(l) else Bases(l.under)
  {
    hide Aligned, IsPow2, LowerAlign;
    LastPlace(cfg, b, below, l);
  }

  lemma PopInPage(cfg: Config, top: nat, headers: map<nat, nat>, b: Block, below: Stack, l: Levels,
                  pages: set<nat>, blocks: map<nat, BlockInfo>)
    requires cfg.Valid() && Represents(cfg, top, headers, Push(b, below), l, pages, blocks) && b.place.InPage?
    ensures Represents(cfg, b.addr, headers, below, Lowered(b, l),
                       if b.place.base == BaseOf(l) then pages else pages - {l.base}, blocks)
    ensures b.place.base != BaseOf(l) ==> l.Page? && l.base in pages
  {
    hide Aligned, IsPow2, LowerAlign, LevelsOk, Stacked;
    LoweredOk(cfg, b, below, l, headers);
    LastPlace(cfg, b, below, l);
    PagesUnder(cfg, l, headers);
  }

  lemma PagesUnder(cfg: Config, l: Levels, headers: map<nat, nat>)
    requires cfg.Valid() && LevelsOk(cfg, l, headers)
    ensures l.Page? ==> Bases(l) - {l.base} == Bases(l.under) && l.base in Bases(l)
  {
    hide Aligned;
  }

  lemma PopOutside(cfg: Config, top: nat, headers: map<nat, nat>, b: Block, below: Stack, l: Levels,
                   pages: set<nat>, blocks: map<nat, BlockInfo>)
    requires cfg.Valid() && Represents(cfg, top, headers, Push(b, below), l, pages, blocks) && b.place.Outside?
    ensures Represents(cfg, top, headers, below, l, pages, blocks - {b.addr})
    ensures b.addr in blocks && blocks[b.addr] == BlockInfo(b.size, cfg.alignment)
  {
    hide Aligned, IsPow2, LowerAlign, LevelsOk;
  }

  // ---- putting a block on top ---------------------------------------------------------------------------------

  /** A block that ends inside the page of the top. */
  lemma PushInPage(cfg: Config, top: nat, headers: map<nat, nat>, s: Stack, l: Levels, pages: set<nat>,
                   blocks: map<nat, BlockInfo>, size: nat)
    requires cfg.Valid() && Represents(cfg, top, headers, s, l, pages, blocks) && Aligned(size, cfg.alignment)
    requires cfg.pageAlign > 0 && top + size - LowerAlign(top, cfg.pageAlign) < cfg.pageSize
    ensures Represents(cfg, top + size, headers, Push(Block(top, size, InPage(BaseOf(l))), s), WithTop(l, top + size),
                       pages, blocks)
    ensures Aligned(top, cfg.alignment)
  {
    hide Aligned, IsPow2, LowerAlign;
    TopFrame(cfg, l, headers);
    VirginFacts(cfg);
    TopAligned(cfg, l, headers);
    AlignedAdd(top, size, cfg.alignment);
    if l.Ground? {
      TooSmall(size, cfg.alignment);
    }
    assert WithTop(WithTop(l, top + size), top) == l;
  }

  lemma TopAligned(cfg: Config, l: Levels, headers: map<nat, nat>)
    requires cfg.Valid() && LevelsOk(cfg, l, headers)
    ensures Aligned(TopOf(cfg, l), cfg.alignment)
  {
    VirginFacts(cfg);
  }

  lemma TooSmall(x: nat, a: nat)
    requires IsPow2(a) && a > 0 && Aligned(x, a) && x < a
    ensures x == 0
  {
    hide And;
    SmallRemainder(x, a);
  }

  /** A page is put on top only when the block does not fit under it, and then the page under it is not
      empty. */
  lemma OverflowMeansFull(cfg: Config, l: Levels, headers: map<nat, nat>, size: nat)
    requires cfg.Valid() && LevelsOk(cfg, l, headers) && size < cfg.pageSize / 2 && cfg.pageAlign > 0
    requires TopOf(cfg, l) + size - LowerAlign(TopOf(cfg, l), cfg.pageAlign) >= cfg.pageSize
    ensures Full(cfg, l)
  {
    hide Aligned, IsPow2, LowerAlign;
    TopFrame(cfg, l, headers);
  }

  /** An empty page on top of a full one changes nothing. */
  lemma {:induction false} EmptyPageOnTop(cfg: Config, s: Stack, l: Levels, p: nat)
    requires cfg.Valid() && Stacked(cfg, s, l) && Full(cfg, l) && p !in Bases(l) && p != 0
    ensures Stacked(cfg, s, Page(p, p + cfg.Header(), l))
    decreases s
  {
    hide Aligned;
    if s.Push? {
      if s.block.place.Outside? {
        EmptyPageOnTop(cfg, s.below, l, p);
      } else {
        LastPlace(cfg, s.block, s.below, l);
        BaseIn(l);
      }
    }
  }

  lemma PushPage(cfg: Config, top: nat, headers: map<nat, nat>, s: Stack, l: Levels, pages: set<nat>,
                 blocks: map<nat, BlockInfo>, size: nat, p: nat)
    requires cfg.Valid() && Represents(cfg, top, headers, s, l, pages, blocks) && Aligned(size, cfg.alignment)
    requires size < cfg.pageSize / 2 && cfg.pageAlign > 0
    requires top + size - LowerAlign(top, cfg.pageAlign) >= cfg.pageSize
    requires p !in pages && Aligned(p, cfg.pageAlign) && cfg.pageAlign <= p
    ensures var start := p + cfg.Header();
            && Represents(cfg, start + size, headers[p := top], Push(Block(start, size, InPage(p)), s),
                          Page(p, start + size, l), pages + {p}, blocks)
            && Aligned(start, cfg.alignment)
  {
    hide Aligned, IsPow2, LowerAlign;
    OverflowMeansFull(cfg, l, headers, size);
    EmptyPageOnTop(cfg, s, l, p);
    LevelsFrame(cfg, l, headers, p, top);
    VirginFacts(cfg);
    WeakerAlignment(p, cfg.pageAlign, cfg.alignment);
    AlignedAdd(p, cfg.Header(), cfg.alignment);
    AlignedAdd(p + cfg.Header(), size, cfg.alignment);
  }

  lemma PushOutside(cfg: Config, top: nat, headers: map<nat, nat>, s: Stack, l: Levels, pages: set<nat>,
                    blocks: map<nat, BlockInfo>, size: nat, a: nat)
    requires cfg.Valid() && Represents(cfg, top, headers, s, l, pages, blocks)
    requires Aligned(size, cfg.alignment) && Aligned(a, cfg.alignment) && size >= cfg.pageSize / 2
    requires a !in blocks
    ensures Represents(cfg, top, headers, Push(Block(a, size, Outside), s), l, pages,
                       blocks[a := BlockInfo(size, cfg.alignment)])
  {
    hide Aligned, IsPow2, LowerAlign, LevelsOk;
  }

  /** A heap block may go from under the most recent block. */
  lemma DropSecond(cfg: Config, top: nat, headers: map<nat, nat>, n: Block, b: Block, below: Stack, l: Levels,
                   pages: set<nat>, blocks: map<nat, BlockInfo>)
    requires cfg.Valid() && Represents(cfg, top, headers, Push(n, Push(b, below)), l, pages, blocks)
    requires b.place.Outside?
    ensures Represents(cfg, top, headers, Push(n, below), l, pages, blocks - {b.addr})
    ensures b.addr in blocks && blocks[b.addr] == BlockInfo(b.size, cfg.alignment)
  {
    hide Aligned, IsPow2, LowerAlign, LevelsOk, AtTop, Stacked, OutsideBlocks, OutsideDistinct;
    DropSecondStacked(cfg, n, b, below, l);
    DropSecondOutside(cfg, n, b, below);
  }

  lemma DropSecondStacked(cfg: Config, n: Block, b: Block, below: Stack, l: Levels)
    requires cfg.Valid() && Stacked(cfg, Push(n, Push(b, below)), l) && b.place.Outside?
    ensures Stacked(cfg, Push(n, below), l)
  {
    hide Aligned, AtTop;
    var l' := if n.place.Outside? then l else Lowered(n, l);
    assert Stacked(cfg, Push(b, below), l');
    assert Stacked(cfg, below, l');
  }

  lemma DropSecondOutside(cfg: Config, n: Block, b: Block, below: Stack)
    requires OutsideDistinct(cfg, Push(n, Push(b, below))) && b.place.Outside?
    ensures var all := OutsideBlocks(cfg, Push(n, Push(b, below)));
            && b.addr in all && all[b.addr] == BlockInfo(b.size, cfg.alignment)
            && OutsideBlocks(cfg, Push(n, below)) == all - {b.addr}
    ensures OutsideDistinct(cfg, Push(n, below))
  {
    assert OutsideDistinct(cfg, Push(b, below));
    assert OutsideBlocks(cfg, Push(b, below)) == OutsideBlocks(cfg, below)[b.addr := BlockInfo(b.size, cfg.alignment)];
  }

  // ---- blocks are apart -------------------------------------------------------------------------------------------

  ghost function Elements(s: Stack): set<Block> {
    if s.Bottom? then {} else {s.block} + Elements(s.below)
  }

  ghost function TopAt(cfg: Config, l: Levels, base: nat): nat
    requires base in Bases(l)
  {
    if l.base == base then l.top else TopAt(cfg, l.under, base)
  }

  lemma {:induction false} PageRange(cfg: Config, l: Levels, headers: map<nat, nat>, base: nat)
    requires cfg.Valid() && LevelsOk(cfg, l, headers) && base in Bases(l)
    ensures Aligned(base, cfg.pageAlign) && cfg.pageAlign <= base
    ensures TopAt(cfg, l, base) < base + cfg.pageSize
  {
    hide Aligned;
    if base != l.base {
      PageRange(cfg, l.under, headers, base);
    }
  }

  lemma {:induction false} LoweredTop(cfg: Config, b: Block, below: Stack, l: Levels, headers: map<nat, nat>, base: nat)
    requires cfg.Valid() && LevelsOk(cfg, l, headers) && Stacked(cfg, Push(b, below), l) && b.place.InPage?
    requires base in Bases(Lowered(b, l))
    ensures base in Bases(l) && TopAt(cfg, Lowered(b, l), base) <= TopAt(cfg, l, base)
    ensures base == b.place.base ==> TopAt(cfg, Lowered(b, l), base) == b.addr
  {
    hide Aligned;
    LastPlace(cfg, b, below, l);
  }

  /** Every block in a page lies between the header and the top of its page. */
  lemma {:induction false} BlockInLevels(cfg: Config, s: Stack, l: Levels, headers: map<nat, nat>, c: Block)
    requires cfg.Valid() && LevelsOk(cfg, l, headers) && Stacked(cfg, s, l) && c in Elements(s)
    ensures Aligned(c.addr, cfg.alignment)
    ensures c.place.InPage? ==>
              if c.place.base == 0 then c.size == 0
              else && c.place.base in Bases(l)
                   && c.place.base + cfg.Header() <= c.addr && c.addr + c.size <= TopAt(cfg, l, c.place.base)
    decreases s
  {
    hide Aligned, LevelsOk;
    var b := s.block;
    if b.place.Outside? {
      if c != b {
        BlockInLevels(cfg, s.below, l, headers, c);
      }
    } else if c == b {
      LastPlace(cfg, b, s.below, l);
      PositiveBases(cfg, l, headers);
    } else {
      LastPlace(cfg, b, s.below, l);
      LoweredOk(cfg, b, s.below, l, headers);
      BlockInLevels(cfg, s.below, Lowered(b, l), headers, c);
      if c.place.InPage? && c.place.base != 0 {
        LoweredTop(cfg, b, s.below, l, headers, c.place.base);
      }
    }
  }

  lemma PositiveBases(cfg: Config, l: Levels, headers: map<nat, nat>)
    requires cfg.Valid() && LevelsOk(cfg, l, headers)
    ensures l.Page? ==> l.base > 0 && (l.under.Page? ==> l.under.base > 0)
  {
    hide Aligned;
  }

  lemma {:induction false} OutsideElement(cfg: Config, s: Stack, c: Block)
    requires OutsideDistinct(cfg, s) && c in Elements(s) && c.place.Outside?
    ensures c.addr in OutsideBlocks(cfg, s) && OutsideBlocks(cfg, s)[c.addr] == BlockInfo(c.size, cfg.alignment)
  {
    if c != s.block {
      OutsideElement(cfg, s.below, c);
    }
  }

  ghost predicate RangesApart(b: Block, c: Block) {
    b.size == 0 || c.size == 0 || b.addr + b.size <= c.addr || c.addr + c.size <= b.addr
  }

  /** The most recent block overlaps no other living block. */
  lemma BlocksApart(cfg: Config, top: nat, headers: map<nat, nat>, b: Block, below: Stack, l: Levels,
                    pages: set<nat>, blocks: map<nat, BlockInfo>, allPages: set<nat>, limit: nat, c: Block)
    requires cfg.Valid() && Represents(cfg, top, headers, Push(b, below), l, pages, blocks)
    requires ResourcesOk(cfg.pageAlign, allPages, blocks, limit) && pages <= allPages
    requires c in Elements(below)
    ensures RangesApart(b, c)
  {
    hide Aligned, LevelsOk, Stacked, IsPow2, OutsideBlocks, OutsideDistinct, TopAt;
    var s := Push(b, below);
    BlockInLevels(cfg, s, l, headers, c);
    BlockInLevels(cfg, s, l, headers, b);
    if b.place.InPage? && c.place.InPage? {
      if b.place.base == c.place.base {
        SamePageApart(cfg, b, below, l, headers, c);
      } else if b.place.base != 0 && c.place.base != 0 {
        PageRange(cfg, l, headers, b.place.base);
        PageRange(cfg, l, headers, c.place.base);
        if b.place.base < c.place.base {
          AlignedApart(b.place.base, c.place.base, cfg.pageAlign);
        } else {
          AlignedApart(c.place.base, b.place.base, cfg.pageAlign);
        }
      }
    } else if b.place.InPage? {
      OutsideElement(cfg, s, c);
      PageVersusHeap(cfg, l, headers, pages, blocks, allPages, limit, b, c);
    } else if c.place.InPage? {
      OutsideElement(cfg, s, b);
      PageVersusHeap(cfg, l, headers, pages, blocks, allPages, limit, c, b);
    } else {
      TwoInHeap(cfg, b, below, c);
      OutsideElement(cfg, s, c);
      OutsideElement(cfg, s, b);
    }
  }

  /** No living block overlaps the header of a page, so that no content of a block, and no copy between
      blocks, changes one. */
  lemma BlocksMissHeaders(cfg: Config, top: nat, headers: map<nat, nat>, s: Stack, l: Levels, pages: set<nat>,
                          blocks: map<nat, BlockInfo>, allPages: set<nat>, limit: nat, c: Block, p: nat)
    requires cfg.Valid() && Represents(cfg, top, headers, s, l, pages, blocks)
    requires ResourcesOk(cfg.pageAlign, allPages, blocks, limit) && pages <= allPages
    requires c in Elements(s) && p in allPages
    ensures c.size == 0 || c.addr + c.size <= p || p + cfg.Header() <= c.addr
  {
    hide Aligned, LevelsOk, Stacked, IsPow2, OutsideBlocks, OutsideDistinct, TopAt;
    BlockInLevels(cfg, s, l, headers, c);
    if c.place.Outside? {
      OutsideElement(cfg, s, c);
    } else if c.place.base != 0 {
      PageRange(cfg, l, headers, c.place.base);
      if c.place.base < p {
        AlignedApart(c.place.base, p, cfg.pageAlign);
      } else if p < c.place.base {
        AlignedApart(p, c.place.base, cfg.pageAlign);
      }
    }
  }

  lemma SamePageApart(cfg: Config, b: Block, below: Stack, l: Levels, headers: map<nat, nat>, c: Block)
    requires cfg.Valid() && LevelsOk(cfg, l, headers) && Stacked(cfg, Push(b, below), l)
    requires b.place.InPage? && c in Elements(below) && c.place == b.place
    ensures c.size == 0 || c.addr + c.size <= b.addr
  {
    hide Aligned, LevelsOk, Stacked, TopAt;
    LastPlace(cfg, b, below, l);
    LoweredOk(cfg, b, below, l, headers);
    BlockInLevels(cfg, below, Lowered(b, l), headers, c);
    if c.place.base != 0 {
      LoweredTop(cfg, b, below, l, headers, c.place.base);
    }
  }

  lemma PageVersusHeap(cfg: Config, l: Levels, headers: map<nat, nat>, pages: set<nat>, blocks: map<nat, BlockInfo>,
                       allPages: set<nat>, limit: nat, b: Block, c: Block)
    requires cfg.Valid() && LevelsOk(cfg, l, headers) && pages == Bases(l) && pages <= allPages
    requires ResourcesOk(cfg.pageAlign, allPages, blocks, limit)
    requires b.place.InPage? && (if b.place.base == 0 then b.size == 0 else
               && b.place.base in Bases(l) && b.place.base <= b.addr && b.addr + b.size <= TopAt(cfg, l, b.place.base))
    requires c.addr in blocks && blocks[c.addr].size == c.size
    ensures RangesApart(b, c)
  {
    hide Aligned, LevelsOk, IsPow2, TopAt;
    if b.place.base != 0 {
      PageRange(cfg, l, headers, b.place.base);
    }
  }

  lemma {:induction false} TwoInHeap(cfg: Config, b: Block, below: Stack, c: Block)
    requires OutsideDistinct(cfg, Push(b, below)) && c in Elements(below) && b.place.Outside? && c.place.Outside?
    ensures b.addr != c.addr
  {
    OutsideElement(cfg, below, c);
  }
}
