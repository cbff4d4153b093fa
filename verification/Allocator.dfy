/** The underlying allocator of pages and of heap blocks, as its documentation describes it: any
    placement that respects the alignments and overlaps nothing still in use may be returned, and any
    request may fail. */
module Allocators {
  import opened Bits
  import opened Align
  import opened Options
  import opened Machine

  datatype BlockInfo = BlockInfo(size: nat, alignment: nat)

  /** What the documentation promises of the pages and blocks in use. Page frames are aligned, the
      frame at address zero is never a page, and no block starts in or overlaps a page frame. */
  ghost predicate ResourcesOk(pageAlign: nat, pages: set<nat>, blocks: map<nat, BlockInfo>, limit: nat)
    requires pageAlign > 0
  {
    && (forall p <- pages :: Aligned(p, pageAlign) && pageAlign <= p && p + pageAlign <= limit)
    && (forall b <- blocks :: pageAlign <= b && b + Footprint(blocks[b].size) <= limit)
    && (forall p <- pages, b <- blocks :: b + Footprint(blocks[b].size) <= p || p + pageAlign <= b)
    && (forall b <- blocks, c <- blocks :: b < c ==> b + Footprint(blocks[b].size) <= c)
  }

  predicate PageFree(pageAlign: nat, pages: set<nat>, blocks: map<nat, BlockInfo>, p: nat)
    requires pageAlign > 0
  {
    && Aligned(p, pageAlign) && pageAlign <= p && p !in pages
    && forall b <- blocks :: b + Footprint(blocks[b].size) <= p || p + pageAlign <= b
  }

  predicate BlockFree(pageAlign: nat, pages: set<nat>, blocks: map<nat, BlockInfo>, a: nat, size: nat) {
    && pageAlign <= a
    && (forall p <- pages :: a + Footprint(size) <= p || p + pageAlign <= a)
    && (forall b <- blocks :: b + Footprint(blocks[b].size) <= a || a + Footprint(size) <= b)
  }

  lemma LimitIsFree(pageAlign: nat, pages: set<nat>, blocks: map<nat, BlockInfo>, limit: nat,
                    alignment: nat, size: nat) returns (a: nat)
    requires IsPow2(pageAlign) && pageAlign > 0 && IsPow2(alignment) && alignment > 0
    requires ResourcesOk(pageAlign, pages, blocks, limit)
    ensures Aligned(a, alignment) && limit + pageAlign <= a
    ensures BlockFree(pageAlign, pages, blocks, a, size)
    ensures alignment == pageAlign ==> PageFree(pageAlign, pages, blocks, a)
  {
    hide Aligned, UpperAlign, IsPow2;
    UpperAlignLeast(limit + pageAlign, alignment, 0);
    a := UpperAlign(limit + pageAlign, alignment);
  }

  lemma BlockFreeFacts(pageAlign: nat, pages: set<nat>, blocks: map<nat, BlockInfo>, limit: nat, a: nat, size: nat,
                       alignment: nat, limit': nat)
    requires pageAlign > 0 && ResourcesOk(pageAlign, pages, blocks, limit)
    requires BlockFree(pageAlign, pages, blocks, a, size)
    ensures a !in blocks
    ensures limit <= limit' && a + Footprint(size) <= limit' ==>
              ResourcesOk(pageAlign, pages, blocks[a := BlockInfo(size, alignment)], limit')
  {
    hide Aligned;
  }

  class Allocator {
    const pageAlign: nat
    var pages: set<nat>
    var blocks: map<nat, BlockInfo>
    /** An address above everything in use. */
    ghost var limit: nat
    /** The number of requests that have failed. */
    ghost var failures: nat

    ghost predicate Valid()
      reads this
    {
      && IsPow2(pageAlign) && pageAlign > 0
      && ResourcesOk(pageAlign, pages, blocks, limit)
    }

    constructor (pageAlign: nat)
      requires IsPow2(pageAlign) && pageAlign > 0
      ensures Valid() && pages == {} && blocks == map[] && this.pageAlign == pageAlign && failures == 0
    {
      this.pageAlign := pageAlign;
      pages, blocks, limit, failures := {}, map[], 0, 0;
    }

    method AllocatePage() returns (r: Option<nat>)
      requires Valid()
      modifies this
      ensures Valid() && blocks == old(blocks)
      ensures failures == old(failures) + if r.None? then 1 else 0
      ensures r.None? ==> pages == old(pages)
      ensures r.Some? ==> r.value !in old(pages) && pages == old(pages) + {r.value}
                          && Aligned(r.value, pageAlign) && pageAlign <= r.value
    {
      if * {
        failures := failures + 1;
        return None;
      }
      ghost var w := LimitIsFree(pageAlign, pages, blocks, limit, pageAlign, 0);
      var p: nat :| PageFree(pageAlign, pages, blocks, p);
      assert PageFree(pageAlign, pages, blocks, p);
      pages := pages + {p};
      limit := limit + p + pageAlign;
      r := Some(p);
    }

    /** Releases the page that contains the given address. */
    method DeallocatePage(address: nat)
      requires Valid() && LowerAlign(address, pageAlign) in pages
      modifies this
      ensures Valid() && blocks == old(blocks) && pages == old(pages) - {LowerAlign(address, pageAlign)}
      ensures failures == old(failures)
    {
      hide Aligned, LowerAlign, IsPow2;
      pages := pages - {LowerAlign(address, pageAlign)};
    }

    method Allocate(size: nat, alignment: nat) returns (r: Option<nat>)
      requires Valid() && IsPow2(alignment) && alignment > 0
      modifies this
      ensures Valid() && pages == old(pages)
      ensures failures == old(failures) + if r.None? then 1 else 0
      ensures r.None? ==> blocks == old(blocks)
      ensures r.Some? ==> r.value !in old(blocks) && blocks == old(blocks)[r.value := BlockInfo(size, alignment)]
                          && Aligned(r.value, alignment) && pageAlign <= r.value
    {
      hide Aligned, IsPow2, ResourcesOk;
      if * {
        failures := failures + 1;
        return None;
      }
      ghost var w := LimitIsFree(pageAlign, pages, blocks, limit, alignment, size);
      var a: nat :| Aligned(a, alignment) && BlockFree(pageAlign, pages, blocks, a, size);
      BlockFreeFacts(pageAlign, pages, blocks, limit, a, size, alignment, limit + a + Footprint(size));
      blocks := blocks[a := BlockInfo(size, alignment)];
      limit := limit + a + Footprint(size);
      r := Some(a);
    }

    method Deallocate(address: nat, size: nat, alignment: nat)
      requires Valid() && address in blocks && blocks[address] == BlockInfo(size, alignment)
      modifies this
      ensures Valid() && pages == old(pages) && blocks == old(blocks) - {address}
      ensures failures == old(failures)
    {
      hide Aligned, IsPow2;
      blocks := blocks - {address};
    }
  }
}
