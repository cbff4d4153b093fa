/** Which instantiations of the queue work: the compile-time checks leave out one condition. */
module QueueConfigs {
  import opened DivMod
  import opened Bits
  import opened Align
  import opened Machine
  import opened QueueLayout
  import opened QueueSteps

  /** A configuration that passes the library's checks is one the proofs are about exactly if an external
      block descriptor fits in a page. */
  lemma ValidExactly(cfg: Config)
    requires cfg.Checked()
    ensures cfg.Valid() <==> cfg.RoomForDescriptor()
  {
    hide And, UpperAlign;
    UpperAlignLeast(POINTER_SIZE, cfg.minAlign, 0);
    UpperAlignLeast(cfg.sizeofType, cfg.minAlign, 0);
    Split(cfg.pageAlign, cfg.minAlign);
  }

  /** The descriptor of an external block would be put into the page of `tail`. */
  ghost predicate DescriptorFitsAt(cfg: Config, tail: nat, page: nat)
    requires cfg.Checked()
  {
    && Aligned(page, cfg.pageAlign) && page <= tail < page + cfg.pageSize
    && StorageAt(cfg, tail, true, cfg.minAlign) + UpperAlign(EXTERNAL_BLOCK_SIZE, cfg.minAlign) <= EndOfPage(cfg, tail)
  }

  /** Otherwise the descriptor fits at no place of any page, and placing it never ends (see
      `MisfitRegimes`). */
  lemma DescriptorExactly(cfg: Config)
    requires cfg.Checked()
    ensures (exists tail: nat, page: nat :: DescriptorFitsAt(cfg, tail, page)) <==> cfg.RoomForDescriptor()
  {
    hide Aligned, LowerAlign, UpperAlign, IsPow2;
    if cfg.RoomForDescriptor() {
      var page := cfg.pageAlign;
      AlignedSelf(page);
      FrameOf(page, page, page);
      ValidExactly(cfg);
      HeaderAligned(cfg, page);
      assert DescriptorFitsAt(cfg, page, page);
    }
    forall tail: nat, page: nat | DescriptorFitsAt(cfg, tail, page) ensures cfg.RoomForDescriptor() {
      FrameOf(page, tail, cfg.pageAlign);
      UpperAlignLeast(tail + HeaderSize(cfg, true), cfg.minAlign, 0);
    }
  }

  lemma HeaderAligned(cfg: Config, page: nat)
    requires cfg.Valid() && Aligned(page, cfg.pageAlign)
    ensures StorageAt(cfg, page, true, cfg.minAlign) == page + HeaderSize(cfg, true)
  {
    hide And;
    WeakerAlignment(page, cfg.pageAlign, cfg.minAlign);
    AlignedAdd(page, cfg.control, cfg.minAlign);
    AlignedAdd(page + cfg.control, cfg.typeSpace, cfg.minAlign);
    AlignedUnchanged(page + HeaderSize(cfg, true), cfg.minAlign);
  }

  /** The largest size for a page, as a word of the given width: the subtraction wraps around. */
  function WrappedMaxSize(cfg: Config, width: nat): int {
    if cfg.MaxSizeInPage() < 0 then cfg.MaxSizeInPage() + Pow2(width) else cfg.MaxSizeInPage()
  }

  /** How placing the descriptor fails to end. If two control blocks and the type fit in a page, the
      descriptor does not pass the test for pages, and asks for an external block, whose descriptor has to be
      placed, and so on. If they do not, the limit of the test has wrapped around: the descriptor passes,
      and one page after the other is allocated, in none of which it fits. */
  lemma MisfitRegimes(cfg: Config, width: nat)
    requires cfg.Checked() && !cfg.RoomForDescriptor()
    requires 2 * cfg.control + cfg.typeSpace + UpperAlign(EXTERNAL_BLOCK_SIZE, cfg.minAlign)
             <= cfg.pageSize + Pow2(width)
    ensures UpperAlign(EXTERNAL_BLOCK_SIZE, cfg.minAlign) <= WrappedMaxSize(cfg, width)
            <==> cfg.pageSize < 2 * cfg.control + cfg.typeSpace
    ensures forall tail: nat, page: nat :: !DescriptorFitsAt(cfg, tail, page)
  {
    DescriptorExactly(cfg);
  }

  /** Runtime types no larger than the minimum alignment are never a problem. */
  lemma SmallTypesWork(cfg: Config)
    requires cfg.Checked() && cfg.sizeofType <= cfg.minAlign
    ensures cfg.Valid()
  {
    hide And, UpperAlign;
    AlignedSelf(cfg.minAlign);
    UpperAlignLeast(POINTER_SIZE, cfg.minAlign, cfg.minAlign);
    UpperAlignLeast(cfg.sizeofType, cfg.minAlign, cfg.minAlign);
    UpperAlignLeast(EXTERNAL_BLOCK_SIZE, cfg.minAlign, 0);
    ValidExactly(cfg);
  }

  /** A type as large as a page is always one: the checks say nothing about the size of the type. */
  lemma ChecksNotEnough(cfg: Config) returns (bad: Config)
    requires cfg.Checked()
    ensures bad == cfg.(sizeofType := cfg.pageSize, typeSpace := bad.typeSpace)
    ensures bad.Checked() && !bad.RoomForDescriptor()
  {
    hide And, UpperAlign;
    bad := cfg.(sizeofType := cfg.pageSize, typeSpace := UpperAlign(cfg.pageSize, cfg.minAlign));
    UpperAlignLeast(cfg.pageSize, cfg.minAlign, 0);
    UpperAlignLeast(POINTER_SIZE, cfg.minAlign, 0);
    UpperAlignLeast(EXTERNAL_BLOCK_SIZE, cfg.minAlign, 0);
  }
}
