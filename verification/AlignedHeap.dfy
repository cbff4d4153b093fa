/** Over-aligned heap blocks on top of `operator new`: a block of the wanted alignment is placed
    inside a larger raw block, and the address of the raw block is saved in a header just below it. */
module AlignedHeap {
  import opened Bits
  import opened Align
  import opened Options
  import opened Machine

  const HEADER_SIZE := 8

  function Max(x: nat, y: nat): (r: nat)
    ensures r >= x && r >= y && (r == x || r == y)
  {
    if x > y then x else y
  }

  function Min(x: nat, y: nat): (r: nat)
    ensures r <= x && r <= y && (r == x || r == y)
  {
    if x < y then x else y
  }

  // ---- where the user block lands --------------------------------------------------------------

  function ExtraSize(alignment: nat): nat {
    Max(alignment, HEADER_SIZE)
  }

  function UserBlock(raw: nat, alignment: nat, offset: nat): int
    requires alignment > 0
  {
    LowerAlignAt(raw + ExtraSize(alignment), alignment, offset)
  }

  /** The caller's guarantee that leaves room for the header below the user block: the part of the
      offset that a raw block cannot compensate is small enough. */
  predicate HeaderFits(maxAlignment: nat, alignment: nat, offset: nat)
    requires alignment > 0 && maxAlignment > 0
  {
    var e := Min(alignment, maxAlignment);
    And(offset, e - 1) + HEADER_SIZE <= Max(e, HEADER_SIZE)
  }

  /** The user block is aligned at its offset and lies inside the raw block, whatever the raw block. */
  lemma UserBlockContained(raw: nat, size: nat, alignment: nat, offset: nat)
    requires IsPow2(alignment) && alignment > 0
    ensures var u := UserBlock(raw, alignment, offset);
            raw < u && u + size <= raw + (size + ExtraSize(alignment))
            && Aligned(u + offset, alignment)
  {
    LowerAlignAtGreatest(raw + ExtraSize(alignment), alignment, offset, 0);
  }

  /** The extra size is a multiple of the alignment, so only the raw address and the offset decide
      how much room there is below the user block. */
  lemma HeaderRoom(raw: nat, alignment: nat, offset: nat)
    requires IsPow2(alignment) && alignment > 0
    ensures UserBlock(raw, alignment, offset) == raw + ExtraSize(alignment) - And(raw + offset, alignment - 1)
  {
    hide And;
    var extra := ExtraSize(alignment);
    AlignedSelf(alignment);
    assert Pow2(3) == HEADER_SIZE;
    if alignment <= HEADER_SIZE {
      AlignedSelf(HEADER_SIZE);
      WeakerAlignment(HEADER_SIZE, HEADER_SIZE, alignment);
    }
    AlignedSum(extra, raw + offset, alignment);
  }

  /** The header stays inside the raw block for every raw block that `operator new` may return exactly
      when `HeaderFits` holds of the requested alignment and offset. */
  lemma HeaderInsideExactly(maxAlignment: nat, alignment: nat, offset: nat)
    requires IsPow2(maxAlignment) && IsPow2(alignment) && maxAlignment >= HEADER_SIZE && alignment > 0
    ensures HeaderFits(maxAlignment, alignment, offset)
            <==> forall raw: nat | raw > 0 && Aligned(raw, maxAlignment) ::
                   raw + HEADER_SIZE <= UserBlock(raw, alignment, offset)
  {
    hide HeaderFits, UserBlock;
    if HeaderFits(maxAlignment, alignment, offset) {
      forall raw: nat | raw > 0 && Aligned(raw, maxAlignment)
        ensures raw + HEADER_SIZE <= UserBlock(raw, alignment, offset)
      {
        HeaderInside(maxAlignment, raw, alignment, offset);
      }
    } else {
      var raw := HeaderOutside(maxAlignment, alignment, offset);
    }
  }

  lemma HeaderInside(maxAlignment: nat, raw: nat, alignment: nat, offset: nat)
    requires IsPow2(maxAlignment) && IsPow2(alignment) && maxAlignment >= HEADER_SIZE && alignment > 0
    requires Aligned(raw, maxAlignment) && HeaderFits(maxAlignment, alignment, offset)
    ensures raw + HEADER_SIZE <= UserBlock(raw, alignment, offset)
  {
    hide And, IsPow2;
    HeaderRoom(raw, alignment, offset);
    if alignment <= maxAlignment {
      WeakerAlignment(raw, maxAlignment, alignment);
      AlignedSum(raw, offset, alignment);
    } else {
      AlignedSum(raw, offset, maxAlignment);
      RemainderRoom(raw + offset, alignment, maxAlignment);
    }
  }

  /** A remainder modulo `big` keeps the remainder modulo the smaller power `small`, so it stays as
      far below `big` as that one is below `small`. */
  lemma RemainderRoom(y: nat, big: nat, small: nat)
    requires IsPow2(big) && IsPow2(small) && 0 < small <= big
    ensures And(y, big - 1) + small <= big + And(y, small - 1)
  {
    hide And, IsPow2;
    var r := And(y, big - 1);
    LowerAlignGreatest(y, big, 0);
    WeakerAlignment(y - r, big, small);
    AlignedSum(y - r, r, small);
    LowerAlignGreatest(r, small, 0);
    AlignedSelf(big);
    WeakerAlignment(big, big, small);
    AlignedApart(LowerAlign(r, small), big, small);
  }

  /** Without `HeaderFits` there is a raw block for which the header starts below it. */
  lemma HeaderOutside(maxAlignment: nat, alignment: nat, offset: nat) returns (raw: nat)
    requires IsPow2(maxAlignment) && IsPow2(alignment) && maxAlignment >= HEADER_SIZE && alignment > 0
    requires !HeaderFits(maxAlignment, alignment, offset)
    ensures raw > 0 && Aligned(raw, maxAlignment) && raw + HEADER_SIZE > UserBlock(raw, alignment, offset)
  {
    hide And, IsPow2;
    AlignedSelf(maxAlignment);
    if alignment <= maxAlignment {
      raw := maxAlignment;
      WeakerAlignment(maxAlignment, maxAlignment, alignment);
      AlignedSum(raw, offset, alignment);
    } else {
      // pick the raw block whose offset lands in the last maxAlignment bytes before an aligned address
      var r := And(offset, maxAlignment - 1);
      LowerAlignGreatest(offset, maxAlignment, 0);
      raw := FillUp(offset - r, alignment, maxAlignment);
      AlignedSum(raw + (offset - r) + maxAlignment - alignment, alignment - maxAlignment + r, alignment);
      SmallRemainder(alignment - maxAlignment + r, alignment);
    }
    HeaderRoom(raw, alignment, offset);
  }

  /** The distance from a multiple of `small` to a position `small` bytes before a multiple of `big`. */
  lemma FillUp(x: nat, big: nat, small: nat) returns (d: nat)
    requires IsPow2(big) && IsPow2(small) && 0 < small <= big && Aligned(x, small)
    ensures d > 0 && Aligned(d, small) && x + d + small >= big && Aligned(x + d + small - big, big)
  {
    hide And, IsPow2;
    AlignedSelf(small);
    AlignedSelf(big);
    UpperAlignLeast(x + small + 1, big, 0);
    var target := UpperAlign(x + small + 1, big);
    d := target - small - x;
    WeakerAlignment(target, big, small);
    AlignedSum(small, x, small);
    AlignedSum(x + small, d, small);
    AlignedApart(0, target, big);
    AlignedSum(big, target - big, big);
  }

  /** For instance: alignment 8 at offset 4 puts the user block 4 bytes into the raw block, so the
      8-byte header starts 4 bytes before it. */
  lemma HeaderOutsideWitness()
    ensures Aligned(16, 16) && !HeaderFits(16, 8, 4)
    ensures UserBlock(16, 8, 4) == 20 && 20 - HEADER_SIZE < 16
  {
    hide And;
    assert Pow2(3) == 8 && Pow2(4) == 16;
    AlignedSelf(16);
    AlignedMod(4, 8);
    AlignedMod(28, 8);
  }

  /** A block handed to a caller, with the arguments it was requested with. */
  datatype Grant = Grant(block: nat, size: nat, alignment: nat, offset: nat)

  /** `a` could start a new raw block of `size` bytes. */
  predicate Free(raws: map<nat, nat>, a: nat, size: nat) {
    forall r <- raws :: r + Footprint(raws[r]) <= a || a + Footprint(size) <= r
  }

  /** Live raw blocks do not overlap, and end below `limit`. */
  ghost predicate RawsDisjoint(raws: map<nat, nat>, limit: nat) {
    && (forall r <- raws :: r + Footprint(raws[r]) <= limit)
    && (forall r <- raws, s <- raws :: r < s ==> r + Footprint(raws[r]) <= s)
  }

  lemma AddRaw(raws: map<nat, nat>, limit: nat, a: nat, size: nat)
    requires RawsDisjoint(raws, limit) && Free(raws, a, size)
    ensures RawsDisjoint(raws[a := size], Max(limit, a + Footprint(size)))
    ensures a !in raws
  {
  }

  predicate Direct(maxAlignment: nat, alignment: nat, offset: nat) {
    alignment <= maxAlignment && offset == 0
  }

  /** A granted block is aligned at its offset and inside its raw block. Unless it is the raw block
      itself, the header below it is inside the raw block too and holds its address. */
  ghost predicate GrantOk(maxAlignment: nat, raws: map<nat, nat>, headers: map<nat, nat>, raw: nat, g: Grant) {
    && raw in raws
    && g.alignment > 0
    && Aligned(g.block + g.offset, g.alignment)
    && (if Direct(maxAlignment, g.alignment, g.offset) then
          g.block == raw && raws[raw] == g.size
        else
          && raws[raw] == g.size + ExtraSize(g.alignment)
          && raw + HEADER_SIZE <= g.block && g.block + g.size <= raw + raws[raw]
          && g.block - HEADER_SIZE in headers && headers[g.block - HEADER_SIZE] == raw)
  }

  ghost predicate GrantsOk(maxAlignment: nat, raws: map<nat, nat>, headers: map<nat, nat>, grants: map<nat, Grant>) {
    && grants.Keys == raws.Keys
    && forall raw <- grants :: GrantOk(maxAlignment, raws, headers, raw, grants[raw])
  }

  /** A header written for a new raw block leaves the header of an older grant alone. */
  lemma KeepGrant(maxAlignment: nat, raws: map<nat, nat>, headers: map<nat, nat>, raw: nat, k: Grant,
                  a: nat, size: nat, at: nat)
    requires GrantOk(maxAlignment, raws, headers, raw, k)
    requires raw + Footprint(raws[raw]) <= a || a + Footprint(size) <= raw
    requires a <= at < a + size
    ensures GrantOk(maxAlignment, raws[a := size], headers[at := a], raw, k)
    ensures GrantOk(maxAlignment, raws[a := size], headers, raw, k)
  {
    hide Aligned, ExtraSize;
  }

  lemma AddGrant(maxAlignment: nat, raws: map<nat, nat>, headers: map<nat, nat>, grants: map<nat, Grant>,
                 a: nat, size: nat, at: nat, g: Grant)
    requires Free(raws, a, size) && GrantsOk(maxAlignment, raws, headers, grants)
    requires a <= at < a + size
    requires GrantOk(maxAlignment, raws[a := size], headers[at := a], a, g)
    ensures GrantsOk(maxAlignment, raws[a := size], headers[at := a], grants[a := g])
  {
    hide GrantOk;
    forall raw <- grants
      ensures raw != a && GrantOk(maxAlignment, raws[a := size], headers[at := a], raw, grants[raw])
    {
      assert raw != a;
      KeepGrant(maxAlignment, raws, headers, raw, grants[raw], a, size, at);
    }
  }

  lemma AddDirectGrant(maxAlignment: nat, raws: map<nat, nat>, headers: map<nat, nat>, grants: map<nat, Grant>,
                       a: nat, size: nat, g: Grant)
    requires Free(raws, a, size) && GrantsOk(maxAlignment, raws, headers, grants)
    requires GrantOk(maxAlignment, raws[a := size], headers, a, g)
    ensures GrantsOk(maxAlignment, raws[a := size], headers, grants[a := g])
  {
    hide GrantOk;
    forall raw <- grants
      ensures raw != a && GrantOk(maxAlignment, raws[a := size], headers, raw, grants[raw])
    {
      assert GrantOk(maxAlignment, raws, headers, raw, grants[raw]);
      GrantOkFrame(maxAlignment, raws, raws[a := size], headers, raw, grants[raw]);
    }
  }

  /** Placing the user block and its header in a new raw block makes a good grant. */
  lemma PlaceGrant(maxAlignment: nat, raws: map<nat, nat>, headers: map<nat, nat>, a: nat,
                   size: nat, alignment: nat, offset: nat)
    requires IsPow2(maxAlignment) && maxAlignment >= HEADER_SIZE
    requires IsPow2(alignment) && alignment > 0 && HeaderFits(maxAlignment, alignment, offset)
    requires Aligned(a, maxAlignment) && !Direct(maxAlignment, alignment, offset)
    ensures var user, actual := UserBlock(a, alignment, offset), size + ExtraSize(alignment);
            && a + HEADER_SIZE <= user && user + size <= a + actual
            && Aligned(user + offset, alignment)
            && GrantOk(maxAlignment, raws[a := actual], headers[user - HEADER_SIZE := a], a,
                       Grant(user, size, alignment, offset))
  {
    hide Aligned, UserBlock, IsPow2, HeaderFits;
    HeaderInside(maxAlignment, a, alignment, offset);
    UserBlockContained(a, size, alignment, offset);
  }

  /** What makes a grant good depends on its own raw block and its own header only. */
  lemma GrantOkFrame(maxAlignment: nat, raws: map<nat, nat>, raws': map<nat, nat>, headers: map<nat, nat>,
                     raw: nat, g: Grant)
    requires GrantOk(maxAlignment, raws, headers, raw, g)
    requires raw in raws' && raws'[raw] == raws[raw]
    ensures GrantOk(maxAlignment, raws', headers, raw, g)
  {
    hide Aligned, ExtraSize, Direct;
  }

  lemma RemoveGrant(maxAlignment: nat, raws: map<nat, nat>, limit: nat, headers: map<nat, nat>,
                    grants: map<nat, Grant>, a: nat)
    requires RawsDisjoint(raws, limit) && GrantsOk(maxAlignment, raws, headers, grants)
    ensures RawsDisjoint(raws - {a}, limit)
    ensures GrantsOk(maxAlignment, raws - {a}, headers, grants - {a})
  {
    hide GrantOk;
    forall raw <- grants | raw != a
      ensures GrantOk(maxAlignment, raws - {a}, headers, raw, grants[raw])
    {
      GrantOkFrame(maxAlignment, raws, raws - {a}, headers, raw, grants[raw]);
    }
  }

  class Heap {
    const maxAlignment: nat
    /** Live blocks of `operator new`, with their sizes. */
    var raws: map<nat, nat>
    /** The word stored at each header address. */
    var headers: map<nat, nat>
    /** For each live raw block, what the caller got out of it. */
    ghost var grants: map<nat, Grant>
    /** An address above every live block. */
    ghost var limit: nat

    ghost predicate Valid()
      reads this
    {
      && IsPow2(maxAlignment) && maxAlignment >= HEADER_SIZE
      && RawsDisjoint(raws, limit)
      && GrantsOk(maxAlignment, raws, headers, grants)
    }

    constructor (maxAlignment: nat)
      requires IsPow2(maxAlignment) && maxAlignment >= HEADER_SIZE
      ensures Valid() && grants == map[] && this.maxAlignment == maxAlignment
    {
      this.maxAlignment := maxAlignment;
      raws, headers, grants, limit := map[], map[], map[], 0;
    }

    /** `operator new`: any address that is suitably aligned and overlaps no live block, or a failure. */
    method OperatorNew(size: nat) returns (r: Option<nat>)
      requires IsPow2(maxAlignment) && maxAlignment > 0 && RawsDisjoint(raws, limit)
      modifies this`raws, this`limit
      ensures RawsDisjoint(raws, limit)
      ensures r.None? ==> raws == old(raws)
      ensures r.Some? ==> Free(old(raws), r.value, size) && Aligned(r.value, maxAlignment)
                          && r.value !in old(raws) && raws == old(raws)[r.value := size]
    {
      hide Aligned, UpperAlign, IsPow2;
      if * {
        return None;
      }
      UpperAlignLeast(limit, maxAlignment, 0);
      assert Free(raws, UpperAlign(limit, maxAlignment), size);
      var a: nat :| Aligned(a, maxAlignment) && Free(raws, a, size);
      AddRaw(raws, limit, a, size);
      raws, limit := raws[a := size], Max(limit, a + Footprint(size));
      r := Some(a);
    }

    /** A block of `size` bytes whose byte at `offset` is aligned, or a failure that changes nothing. */
    method AlignedAllocate(size: nat, alignment: nat, offset: nat) returns (r: Option<nat>, ghost raw: nat)
      requires Valid()
      requires IsPow2(alignment) && alignment > 0 && offset <= size
      requires HeaderFits(maxAlignment, alignment, offset)
      modifies this
      ensures Valid()
      ensures r.None? ==> grants == old(grants) && raws == old(raws) && headers == old(headers)
      ensures r.Some? ==>
                && Aligned(r.value + offset, alignment)
                && raw !in old(raws) && raw in raws && raws == old(raws)[raw := raws[raw]]
                && raw <= r.value && r.value + size <= raw + raws[raw]
                && grants == old(grants)[raw := Grant(r.value, size, alignment, offset)]
    {
      hide Aligned, LowerAlignAt, IsPow2, HeaderFits, RawsDisjoint, GrantsOk, Free;
      raw := 0;
      ghost var raws0, headers0 := raws, headers;
      if Direct(maxAlignment, alignment, offset) {
        r := OperatorNew(size);
        if r.Some? {
          raw := r.value;
          WeakerAlignment(raw, maxAlignment, alignment);
          AddDirectGrant(maxAlignment, raws0, headers, grants, raw, size, Grant(raw, size, alignment, offset));
          grants := grants[raw := Grant(raw, size, alignment, offset)];
        }
      } else {
        var extra := ExtraSize(alignment);
        var actualSize := size + extra;
        var complete := OperatorNew(actualSize);
        if complete.None? {
          return None, 0;
        }
        raw := complete.value;
        PlaceGrant(maxAlignment, raws0, headers, raw, size, alignment, offset);
        var user: nat := LowerAlignAt(complete.value + extra, alignment, offset);
        headers := headers[user - HEADER_SIZE := complete.value];
        AddGrant(maxAlignment, raws0, headers0, grants, raw, actualSize, user - HEADER_SIZE,
                 Grant(user, size, alignment, offset));
        grants := grants[raw := Grant(user, size, alignment, offset)];
        r := Some(user);
      }
    }

    /** Given the arguments of the allocation back, releases exactly the raw block that was obtained
        for it, with its own size. A null block is ignored. */
    method AlignedDeallocate(block: Option<nat>, size: nat, alignment: nat, offset: nat, ghost raw: nat)
      requires Valid()
      requires alignment > 0
      requires block.Some? ==> raw in grants && grants[raw] == Grant(block.value, size, alignment, offset)
      modifies this
      ensures Valid() && headers == old(headers)
      ensures raws == if block.Some? then old(raws) - {raw} else old(raws)
      ensures grants == if block.Some? then old(grants) - {raw} else old(grants)
    {
      hide Aligned, RawsDisjoint;
      if block.None? {
        return;
      }
      assert GrantOk(maxAlignment, raws, headers, raw, grants[raw]);
      RemoveGrant(maxAlignment, raws, limit, headers, grants, raw);
      if Direct(maxAlignment, alignment, offset) {
        OperatorDelete(block.value, size);
      } else {
        var stored := headers[block.value - HEADER_SIZE];
        var actualSize := size + ExtraSize(alignment);
        OperatorDelete(stored, actualSize);
      }
      grants := grants - {raw};
    }

    /** Sized `operator delete`. */
    method OperatorDelete(a: nat, size: nat)
      requires a in raws && raws[a] == size
      modifies this`raws
      ensures raws == old(raws) - {a}
    {
      raws := raws - {a};
    }
  }

  /** The user regions of two live grants never overlap, and no header lies in a user region. */
  lemma GrantsApart(maxAlignment: nat, raws: map<nat, nat>, limit: nat, headers: map<nat, nat>,
                    grants: map<nat, Grant>, raw: nat, other: nat)
    requires RawsDisjoint(raws, limit) && GrantsOk(maxAlignment, raws, headers, grants)
    requires raw in grants && other in grants && raw != other
    ensures var g, k := grants[raw], grants[other];
            && (g.block + g.size <= k.block || k.block + k.size <= g.block)
            && (!Direct(maxAlignment, g.alignment, g.offset) ==>
                  g.block <= k.block || k.block + k.size <= g.block - HEADER_SIZE)
  {
    hide Aligned;
    assert GrantOk(maxAlignment, raws, headers, raw, grants[raw]);
    assert GrantOk(maxAlignment, raws, headers, other, grants[other]);
  }
}
