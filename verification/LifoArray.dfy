/** Arrays and buffers on the data stack: how much they ask of the stack allocator, and where the elements go. */
module LifoArrays {
  import opened DivMod
  import opened Bits
  import opened Align
  import opened Options
  import opened LifoLayout
  import opened LifoAllocators

  /** The element type of an array. */
  datatype ElementType = ElementType(size: nat, alignment: nat)

  /** The address of the block, that of the first element, and the number of elements. */
  datatype LifoArray = LifoArray(block: nat, elements: nat, count: nat)

  ghost predicate TypeOk(t: ElementType) {
    IsPow2(t.alignment) && t.alignment > 0
  }

  /** The bytes an over-aligned array may need to skip. */
  function SizeOverhead(t: ElementType, alignment: nat): nat {
    if t.alignment > alignment then t.alignment - alignment else 0
  }

  function ComputeMemSize(t: ElementType, alignment: nat, count: nat): nat
    requires alignment > 0
  {
    var memSize := count * t.size + SizeOverhead(t, alignment);
    if t.size % alignment == 0 then memSize else UpperAlign(memSize, alignment)
  }

  function ElementsOf(t: ElementType, alignment: nat, block: nat): nat
    requires t.alignment > 0
  {
    if t.alignment > alignment then UpperAlign(block, t.alignment) else block
  }

  /** The size is a multiple of the alignment of the stack, as the allocator wants it, and wastes less than
      the alignment. */
  lemma MemSizeAligned(t: ElementType, alignment: nat, count: nat)
    requires TypeOk(t) && IsPow2(alignment) && alignment > 0
    ensures Aligned(ComputeMemSize(t, alignment, count), alignment)
    ensures var needed := count * t.size + SizeOverhead(t, alignment);
            needed <= ComputeMemSize(t, alignment, count) < needed + alignment
  {
    hide Aligned, UpperAlign, IsPow2;
    var needed := count * t.size + SizeOverhead(t, alignment);
    UpperAlignLeast(needed, alignment, 0);
    if t.size % alignment == 0 {
      CountAligned(t.size, alignment, count);
      OverheadAligned(t, alignment);
      AlignedAdd(count * t.size, SizeOverhead(t, alignment), alignment);
    }
  }

  lemma CountAligned(size: nat, a: nat, count: nat)
    requires IsPow2(a) && a > 0 && size % a == 0
    ensures Aligned(count * size, a)
  {
    hide And;
    Split(size, a);
    assert count * size == a * (count * (size / a)) by {
      assert count * (a * (size / a)) == a * (count * (size / a));
    }
    AlignedMultiple(count * (size / a), a);
  }

  lemma OverheadAligned(t: ElementType, a: nat)
    requires TypeOk(t) && IsPow2(a) && a > 0
    ensures Aligned(SizeOverhead(t, a), a)
  {
    hide And;
    AlignedSelf(a);
    if t.alignment > a {
      AlignedSelf(t.alignment);
      WeakerAlignment(t.alignment, t.alignment, a);
      AlignedSum(a, t.alignment - a, a);
    }
  }

  /** The elements are aligned as their type wants, and all of them are inside the block. */
  lemma ElementsFit(t: ElementType, alignment: nat, block: nat, count: nat)
    requires TypeOk(t) && IsPow2(alignment) && alignment > 0 && Aligned(block, alignment)
    ensures var elements := ElementsOf(t, alignment, block);
            && Aligned(elements, t.alignment)
            && block <= elements <= block + SizeOverhead(t, alignment)
            && elements + count * t.size <= block + ComputeMemSize(t, alignment, count)
  {
    hide Aligned, UpperAlign, IsPow2;
    MemSizeAligned(t, alignment, count);
    if t.alignment > alignment {
      UpperAlignCost(block, t.alignment, alignment);
    } else {
      WeakerAlignment(block, alignment, t.alignment);
    }
  }

  /** Less overhead would not be enough: there are blocks for which all of it is skipped. */
  lemma OverheadNeeded(t: ElementType, alignment: nat) returns (block: nat)
    requires TypeOk(t) && IsPow2(alignment) && 0 < alignment < t.alignment
    ensures Aligned(block, alignment)
    ensures ElementsOf(t, alignment, block) == block + SizeOverhead(t, alignment)
  {
    hide And;
    block := t.alignment + alignment;
    AlignedSelf(alignment);
    AlignedSelf(t.alignment);
    WeakerAlignment(t.alignment, t.alignment, alignment);
    AlignedSum(t.alignment, alignment, alignment);
    AlignedSum(t.alignment, t.alignment, t.alignment);
    UpperAlignLeast(block, t.alignment, 2 * t.alignment);
    if UpperAlign(block, t.alignment) < 2 * t.alignment {
      AlignedApart(t.alignment, UpperAlign(block, t.alignment), t.alignment);
    }
  }

  /** Allocates the elements on the stack. */
  method Construct(stack: LifoAllocator, t: ElementType, count: nat) returns (r: Option<LifoArray>)
    requires stack.Valid() && TypeOk(t)
    modifies stack`top, stack`headers, stack`blocks, stack`levels, stack.allocator
    ensures stack.Valid()
    ensures stack.allocator.failures == old(stack.allocator.failures) + if r.None? then 1 else 0
    ensures Fits(stack.cfg, old(stack.top), ComputeMemSize(t, stack.cfg.alignment, count)) ==> r.Some?
    ensures r.None? ==> stack.blocks == old(stack.blocks) && stack.top == old(stack.top)
    ensures r.Some? ==> Holds(stack.blocks, old(stack.blocks), stack.cfg.alignment, t, r.value)
    ensures r.Some? ==> r.value.count == count
    ensures r.Some? ==> Aligned(r.value.elements, t.alignment)
    ensures r.Some? ==> forall c <- Elements(old(stack.blocks)) ::
              RangesApart(Block(r.value.elements, count * t.size, stack.blocks.block.place), c)
  {
    hide Represents, Aligned, IsPow2, UpperAlign;
    MemSizeAligned(t, stack.cfg.alignment, count);
    var memSize := ComputeMemSize(t, stack.cfg.alignment, count);
    var block := stack.Allocate(memSize);
    if block.None? {
      return None;
    }
    ElementsFit(t, stack.cfg.alignment, block.value, count);
    r := Some(LifoArray(block.value, ElementsOf(t, stack.cfg.alignment, block.value), count));
  }

  /** The most recent block is that of the array, and the elements are inside it. */
  ghost predicate Holds(blocks: Stack, below: Stack, alignment: nat, t: ElementType, a: LifoArray) {
    && alignment > 0 && blocks.Push? && blocks.below == below
    && blocks.block.addr == a.block && blocks.block.size == ComputeMemSize(t, alignment, a.count)
    && a.block <= a.elements && a.elements + a.count * t.size <= a.block + blocks.block.size
  }

  /** Gives the stack back what the constructor took. */
  method Destruct(stack: LifoAllocator, t: ElementType, a: LifoArray)
    requires stack.Valid() && TypeOk(t) && stack.blocks.Push?
    requires Holds(stack.blocks, stack.blocks.below, stack.cfg.alignment, t, a)
    modifies stack`top, stack`blocks, stack`levels, stack.allocator
    ensures stack.Valid() && stack.blocks == old(stack.blocks).below
  {
    stack.Deallocate(a.block, ComputeMemSize(t, stack.cfg.alignment, a.count));
  }

  /** A block of raw bytes that can be resized while it is the most recent one. */
  class LifoBuffer {
    const stack: LifoAllocator
    var data: nat
    var size: nat

    /** The buffer is the most recent block of the stack. */
    ghost predicate IsTop()
      reads this, stack, stack.allocator
    {
      && stack.Valid() && stack.blocks.Push?
      && stack.blocks.block.addr == data
      && stack.blocks.block.size == UpperAlign(size, stack.cfg.alignment)
    }

    /** An empty buffer, which can't fail. */
    constructor (stack: LifoAllocator)
      requires stack.Valid()
      modifies stack`blocks
      ensures IsTop() && this.stack == stack && size == 0 && stack.blocks.below == old(stack.blocks)
      ensures stack.top == old(stack.top) && Aligned(data, stack.cfg.alignment)
    {
      this.stack := stack;
      var block := stack.AllocateEmpty();
      data := block;
      size := 0;
      new;
      hide Represents, IsPow2;
      AlignedSelf(stack.cfg.alignment);
      AlignedUnchanged(0, stack.cfg.alignment);
    }

    /** The bytes are kept up to the smaller size; a failure changes nothing; no other block changes. */
    method Resize(newSize: nat) returns (ok: bool)
      requires IsTop()
      modifies this, stack, stack.allocator
      ensures IsTop() && stack.blocks.below == old(stack.blocks).below
      ensures stack.allocator.failures == old(stack.allocator.failures) + if ok then 0 else 1
      ensures old(stack.blocks).block.place.InPage? ==>
                Fits(stack.cfg, old(data), UpperAlign(newSize, stack.cfg.alignment)) ==> ok && data == old(data)
      ensures !ok ==> data == old(data) && size == old(size) && stack.memory == old(stack.memory)
                      && stack.top == old(stack.top) && stack.blocks == old(stack.blocks)
      ensures ok ==> size == newSize && Aligned(data, stack.cfg.alignment)
      ensures ok ==> MovedBytes(old(stack.memory), stack.memory, old(data), data, SmallerSize(newSize, old(size)))
      ensures ok ==> forall c <- Elements(stack.blocks.below) :: SameBytes(old(stack.memory), stack.memory, c)
    {
      hide Represents, Aligned, IsPow2, UpperAlign, SameBytes;
      UpperAlignLeast(size, stack.cfg.alignment, 0);
      UpperAlignLeast(newSize, stack.cfg.alignment, 0);
      var block := stack.Reallocate(data, UpperAlign(size, stack.cfg.alignment),
                                    UpperAlign(newSize, stack.cfg.alignment));
      if block.None? {
        return false;
      }
      data, size := block.value, newSize;
      ok := true;
    }

    method Destroy()
      requires IsTop()
      modifies stack, stack.allocator
      ensures stack.Valid() && stack.blocks == old(stack.blocks).below
    {
      stack.Deallocate(data, UpperAlign(size, stack.cfg.alignment));
    }
  }
}
