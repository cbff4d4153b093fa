/** Steps that change the flags of a slot, construct or destroy its object, or sweep it away, and what
    they do to the live entries. */
module QueueFlags {
  import opened Bits
  import opened Align
  import opened Options
  import opened Allocators
  import opened QueueLayout
  import opened QueueSteps
  import F = Fifo

  // ---- flags ------------------------------------------------------------------------------------------

  /** The same slot with other flags, keeping its object only if it stays alive. */
  function WithStatus<V>(s: Slot<V>, status: Status): Slot<V> {
    s.(status := status, content := if status.Dead? && !s.content.Jump? then Blank else s.content)
  }

  /** The slot of this control block has the given status, and no object if it is dead; where it is and what
      it owns has not changed, nor has any other slot. */
  ghost predicate StatusSet<V>(slots: seq<Slot<V>>, slots': seq<Slot<V>>, i: nat, control: nat, status: Status) {
    && i < |slots| && slots[i].addr == control && |slots'| == |slots|
    && (forall j :: 0 <= j < |slots| && j != i ==> slots'[j] == slots[j])
    && slots'[i].status == status
    && (if status.Dead? then slots'[i].content.Blank? else slots'[i].content == slots[i].content)
    && slots'[i].addr == control && slots'[i].next == slots[i].next && slots'[i].page == slots[i].page
    && slots'[i].storage == slots[i].storage && slots'[i].size == slots[i].size
    && slots'[i].external == slots[i].external
  }

  lemma WithStatusSets<V>(slots: seq<Slot<V>>, i: nat, status: Status)
    requires i < |slots| && (status.Dead? ==> !slots[i].content.Jump?)
    ensures StatusSet(slots, slots[i := WithStatus(slots[i], status)], i, slots[i].addr, status)
  {
  }

  lemma WithStatusOk<V>(cfg: Config, s: Slot<V>, status: Status, m: Memory<V>)
    requires cfg.Valid() && SlotOk(cfg, s) && SlotStored(cfg, s, m) && !s.content.Jump?
    ensures SlotOk(cfg, WithStatus(s, status)) && SamePlace(s, WithStatus(s, status))
    ensures var t := WithStatus(s, status);
            SlotStored(cfg, t, m.(words := m.words[t.addr := WordOf(t)]))
  {
    hide InPage, Aligned, UpperAlign, IsPow2;
  }

  /** Writing the word of a slot with other flags. */
  lemma SetFlags<V>(cfg: Config, head: nat, headPage: nat, slots: seq<Slot<V>>, tail: nat, tailPage: nat,
                    m: Memory<V>, loose: map<nat, BlockInfo>, pages: set<nat>, blocks: map<nat, BlockInfo>,
                    i: nat, status: Status)
    requires cfg.Valid() && i < |slots| && !slots[i].content.Jump?
    requires Represents(cfg, head, headPage, slots, tail, tailPage, m, loose, pages, blocks)
    ensures slots[i].addr in m.words && m.words[slots[i].addr] == WordOf(slots[i])
    ensures StateBits(WordOf(slots[i])) == StatusBits(slots[i].status)
    ensures var t := WithStatus(slots[i], status);
            Represents(cfg, head, headPage, slots[i := t], tail, tailPage, m.(words := m.words[t.addr := WordOf(t)]),
                       loose, pages, blocks)
  {
    hide Chain, Stored, SlotStored, WordOf, SlotOk, Resources;
    var s, t := slots[i], WithStatus(slots[i], status);
    ChainAt(cfg, head, headPage, slots, tail, tailPage, i);
    StoredAt(cfg, slots, m, i);
    WordBits(cfg, s);
    WithStatusOk(cfg, s, status, m);
    ReplaceKeepsChain(cfg, head, headPage, slots, tail, tailPage, i, t);
    WriteWord(cfg, head, headPage, slots, tail, tailPage, m, i, t);
    ReplaceKeepsResources(slots, tailPage, loose, pages, blocks, i, t);
  }

  lemma StoredAt<V>(cfg: Config, slots: seq<Slot<V>>, m: Memory<V>, i: nat)
    requires Stored(cfg, slots, m) && i < |slots|
    ensures SlotStored(cfg, slots[i], m) && slots[i].addr in m.words && m.words[slots[i].addr] == WordOf(slots[i])
  {
  }

  /** What masking the word of a slot gives. */
  lemma WordBits<V>(cfg: Config, s: Slot<V>)
    requires cfg.Valid() && SlotOk(cfg, s)
    ensures NextOf(WordOf(s)) == s.next && StateBits(WordOf(s)) == StatusBits(s.status)
    ensures IsExternal(WordOf(s)) <==> s.external.Some?
  {
    hide InPage, StorageOk, ContentOk, And, Aligned;
    WordParts(s.next, StatusBits(s.status), if s.external.Some? then EXTERNAL else 0);
  }

  lemma ReplaceKeepsResources<V>(slots: seq<Slot<V>>, tailPage: nat, loose: map<nat, BlockInfo>, pages: set<nat>,
                                 blocks: map<nat, BlockInfo>, i: nat, t: Slot<V>)
    requires Resources(slots, tailPage, loose, pages, blocks)
    requires i < |slots| && SamePlace(slots[i], t) && t.external == slots[i].external
    ensures Resources(slots[i := t], tailPage, loose, pages, blocks)
  {
    hide JumpPages, ExternalBlocks, ExternalsDistinct;
    JumpPagesReplace(slots, i, t);
    ExternalsReplace(slots, i, t);
  }

  // ---- live entries -------------------------------------------------------------------------------------

  /** The position of a slot's entry among the live ones. */
  lemma LivePosition<V>(slots: seq<Slot<V>>, nextId: nat, i: nat)
    requires F.Ordered(Live(slots), nextId) && i < |slots| && EntryOf(slots[i]) != []
    ensures var k := |Live(slots[..i])|;
            && k < |Live(slots)| && Live(slots)[k] == EntryOf(slots[i])[0]
            && F.Find(Live(slots), slots[i].content.id) == k
  {
    hide Live;
    LiveAround(slots, i, slots[i]);
    F.FindUnique(Live(slots), nextId, |Live(slots[..i])|);
  }

  /** Changing the flags of a slot changes the phase of its entry, or removes it. */
  lemma LiveWithStatus<V>(slots: seq<Slot<V>>, i: nat, status: Status)
    requires i < |slots| && EntryOf(slots[i]) != []
    ensures var k, live' := |Live(slots[..i])|, Live(slots[i := WithStatus(slots[i], status)]);
            && k < |Live(slots)|
            && live' == (if status.Dead? then F.Remove(Live(slots), k) else F.SetPhase(Live(slots), k, status.phase))
  {
    hide Live;
    LiveAround(slots, i, WithStatus(slots[i], status));
  }

  /** The slot behind a live entry. */
  lemma {:induction false} SlotOfEntry<V>(slots: seq<Slot<V>>, k: nat) returns (i: nat)
    requires k < |Live(slots)|
    ensures i < |slots| && EntryOf(slots[i]) == [Live(slots)[k]] && k == |Live(slots[..i])|
  {
    if EntryOf(slots[0]) != [] && k == 0 {
      i := 0;
      assert slots[..0] == [];
    } else {
      var j := SlotOfEntry(slots[1..], k - |EntryOf(slots[0])|);
      i := j + 1;
      assert slots[..i][1..] == slots[1..][..j] && slots[..i][0] == slots[0];
    }
  }

  /** A put that is not dead and has an object is exactly one with a live entry. */
  lemma {:induction false} NoEntryNoLife<V>(slots: seq<Slot<V>>)
    requires Finished(slots) && Live(slots) == []
    ensures forall i :: 0 <= i < |slots| ==> slots[i].status.Dead?
  {
    if slots != [] {
      assert EntryOf(slots[0]) == [];
      assert forall i :: 0 <= i < |slots[1..]| ==> slots[1..][i] == slots[i + 1];
      NoEntryNoLife(slots[1..]);
    }
  }

  // ---- the first ready slot ---------------------------------------------------------------------------------

  /** No slot of a prefix is ready. */
  ghost predicate Passed<V>(slots: seq<Slot<V>>, k: nat) {
    k <= |slots| && forall j :: 0 <= j < k ==> StatusBits(slots[j].status) != 0
  }

  lemma {:induction false} PassedNotReady<V>(slots: seq<Slot<V>>)
    requires Passed(slots, |slots|)
    ensures forall j :: 0 <= j < |Live(slots)| ==> !Live(slots)[j].phase.Ready?
  {
    if slots != [] {
      assert forall i :: 0 <= i < |slots[1..]| ==> slots[1..][i] == slots[i + 1];
      PassedNotReady(slots[1..]);
    }
  }

  /** The first slot without flags is the first ready entry. */
  lemma FirstReadySlot<V>(slots: seq<Slot<V>>, k: nat)
    requires Finished(slots) && F.NoOpen(Live(slots))
    requires Passed(slots, k)
    requires k < |slots| ==> StatusBits(slots[k].status) == 0
    ensures k < |slots| ==> slots[k].status == Alive(F.Ready) && EntryOf(slots[k]) != []
    ensures F.FirstReady(Live(slots)) == if k < |slots| then |Live(slots[..k])| else |Live(slots)|
  {
    hide Live;
    PassedNotReady(slots[..k]);
    if k < |slots| {
      LiveAround(slots, k, slots[k]);
      var n := |Live(slots[..k])|;
      assert Live(slots)[n] == EntryOf(slots[k])[0];
      assert forall j :: 0 <= j < n ==> Live(slots)[j] == Live(slots[..k])[j];
    } else {
      assert slots[..k] == slots;
    }
  }

  // ---- raw blocks -----------------------------------------------------------------------------------------------

  lemma RawsAfterStatus<V>(slots: seq<Slot<V>>, raws: set<RawBlock<V>>, nextId: nat, i: nat, status: Status)
    requires RawsKept(slots, raws, nextId) && i < |slots| && slots[i].status.Alive?
    ensures RawsKept(slots[i := WithStatus(slots[i], status)], raws, nextId)
  {
    hide IsObject;
    var slots' := slots[i := WithStatus(slots[i], status)];
    forall r <- raws ensures RawKept(slots', r) {
      RawAfterStatus(slots, r, i, status);
    }
  }

  lemma RawAfterStatus<V>(slots: seq<Slot<V>>, r: RawBlock<V>, i: nat, status: Status)
    requires RawKept(slots, r) && r.slot.status.Dead? && i < |slots| && slots[i].status.Alive?
    ensures RawKept(slots[i := WithStatus(slots[i], status)], r)
  {
    var slots' := slots[i := WithStatus(slots[i], status)];
    forall k | 0 <= k < |slots'| && IsObject(slots'[k], r.owner)
      ensures r.slot in slots'[k + 1..]
    {
      assert IsObject(slots[k], r.owner);
      var n :| 0 <= n < |slots[k + 1..]| && slots[k + 1..][n] == r.slot;
      assert slots[k + 1 + n] == r.slot;
      assert slots'[k + 1..][n] == r.slot;
    }
  }

  /** Slots added at the end, without objects, keep every raw block where it is. */
  lemma RawsAfterGrowth<V>(slots: seq<Slot<V>>, slots': seq<Slot<V>>, raws: set<RawBlock<V>>, nextId: nat)
    requires RawsKept(slots, raws, nextId) && |slots| <= |slots'| && slots == slots'[..|slots|]
    requires forall i :: |slots| <= i < |slots'| ==> !slots'[i].content.Object?
    ensures RawsKept(slots', raws, nextId)
  {
    forall r <- raws ensures RawKept(slots', r) {
      forall k | 0 <= k < |slots'| && IsObject(slots'[k], r.owner)
        ensures r.slot in slots'[k + 1..]
      {
        assert slots[k] == slots'[k];
        var n :| 0 <= n < |slots[k + 1..]| && slots[k + 1..][n] == r.slot;
        assert slots'[k + 1..][n] == slots'[k + 1 + n] == slots[k + 1 + n];
      }
    }
  }

  lemma RawsAfterSweep<V>(slots: seq<Slot<V>>, raws: set<RawBlock<V>>, nextId: nat)
    requires RawsKept(slots, raws, nextId) && slots != []
    ensures RawsKept(slots[1..], raws, nextId)
  {
    forall r <- raws ensures RawKept(slots[1..], r) {
      forall k | 0 <= k < |slots[1..]| && IsObject(slots[1..][k], r.owner)
        ensures r.slot in slots[1..][k + 1..]
      {
        assert slots[1..][k] == slots[k + 1];
        assert slots[1..][k + 1..] == slots[k + 2..];
      }
    }
  }

  // ---- the sweep ----------------------------------------------------------------------------------------------------

  /** What the sweep leaves: the chain from the first slot that is not dead. */
  ghost function DropDead<V>(slots: seq<Slot<V>>): seq<Slot<V>> {
    if slots == [] || !slots[0].status.Dead? then slots else DropDead(slots[1..])
  }

  /** The sweep never passes a slot that is alive, so it keeps everything behind it. */
  lemma {:induction false} DropDeadKeeps<V>(slots: seq<Slot<V>>, i: nat)
    requires i < |slots| && slots[i].status.Alive?
    ensures |slots| - i <= |DropDead(slots)|
    ensures slots[i..] == DropDead(slots)[|DropDead(slots)| - (|slots| - i)..]
  {
    if slots[0].status.Dead? {
      assert slots[1..][i - 1..] == slots[i..];
      DropDeadKeeps(slots[1..], i - 1);
    }
  }

  lemma {:induction false} DropDeadHead<V>(slots: seq<Slot<V>>)
    ensures DropDead(slots) == [] || DropDead(slots)[0].status.Alive?
  {
    if slots != [] && slots[0].status.Dead? {
      DropDeadHead(slots[1..]);
    }
  }

  /** The resources the sweep frees with the first slot. */
  ghost function PagesAfterSweep<V>(s: Slot<V>, pages: set<nat>): set<nat> {
    if s.content.Jump? then pages - {s.page} else pages
  }

  ghost function BlocksAfterSweep<V>(s: Slot<V>, blocks: map<nat, BlockInfo>): map<nat, BlockInfo> {
    match s.external
    case None => blocks
    case Some(e) => blocks - {e.element}
  }

  /** Sweeping the first slot away, with the page it leaves and the heap block it owns. The library tells
      whether a page is left by comparing frames. */
  lemma SweepFirst<V>(cfg: Config, head: nat, headPage: nat, slots: seq<Slot<V>>, tail: nat, tailPage: nat,
                      m: Memory<V>, loose: map<nat, BlockInfo>, pages: set<nat>, blocks: map<nat, BlockInfo>)
    requires cfg.Valid() && slots != []
    requires Represents(cfg, head, headPage, slots, tail, tailPage, m, loose, pages, blocks)
    ensures var s := slots[0];
            && tail != cfg.Sentinel() && head == s.addr != tail
            && SlotStored(cfg, s, m) && SlotOk(cfg, s)
            && (SameFrame(s.next, s.addr, cfg.pageAlign) <==> !s.content.Jump?)
            && LowerAlign(s.addr, cfg.pageAlign) == s.page && s.page in pages
            && (s.external.Some? ==> var e := s.external.value;
                  e.element in blocks && blocks[e.element] == BlockInfo(e.size, e.alignment))
            && Represents(cfg, s.next, PageAfter(s), slots[1..], tail, tailPage, m, loose,
                          PagesAfterSweep(s, pages), BlocksAfterSweep(s, blocks))
  {
    hide Chain, Stored, Resources, InPage, SlotStored, SlotOk, Apart;
    var s, rest := slots[0], slots[1..];
    ChainHead(cfg, head, headPage, slots, tail, tailPage);
    TailIsNoSlot(cfg, head, headPage, slots, tail, tailPage);
    StoredAt(cfg, slots, m, 0);
    StoredRest(cfg, slots, m);
    SweepFrames(cfg, slots, tail, tailPage);
    SweepResources(slots, tail, tailPage, loose, pages, blocks);
  }

  lemma ChainHead<V>(cfg: Config, head: nat, headPage: nat, slots: seq<Slot<V>>, tail: nat, tailPage: nat)
    requires cfg.Valid() && slots != [] && Chain(cfg, head, headPage, slots, tail, tailPage)
    ensures var s := slots[0];
            && s.addr == head && s.page == headPage && SlotOk(cfg, s) && Apart(s, slots[1..], tail, tailPage)
            && Chain(cfg, s.next, PageAfter(s), slots[1..], tail, tailPage)
  {
  }

  lemma StoredRest<V>(cfg: Config, slots: seq<Slot<V>>, m: Memory<V>)
    requires Stored(cfg, slots, m) && slots != []
    ensures Stored(cfg, slots[1..], m)
  {
    hide SlotStored;
  }

  lemma SweepFrames<V>(cfg: Config, slots: seq<Slot<V>>, tail: nat, tailPage: nat)
    requires cfg.Valid() && slots != [] && SlotOk(cfg, slots[0])
    requires Apart(slots[0], slots[1..], tail, tailPage)
    requires Chain(cfg, slots[0].next, PageAfter(slots[0]), slots[1..], tail, tailPage)
    ensures LowerAlign(slots[0].addr, cfg.pageAlign) == slots[0].page
    ensures SameFrame(slots[0].next, slots[0].addr, cfg.pageAlign) <==> !slots[0].content.Jump?
  {
    hide Aligned, IsPow2, UpperAlign, LowerAlign, StorageOk, ContentOk;
    var s := slots[0];
    FrameOf(s.page, s.addr, cfg.pageAlign);
    FrameOf(PageAfter(s), s.next, cfg.pageAlign);
    if s.content.Jump? {
      assert PageAfter(s) != s.page by {
        if slots[1..] != [] {
          assert slots[1..][0].page == PageAfter(s);
        }
      }
    }
  }

  lemma SweepResources<V>(slots: seq<Slot<V>>, tail: nat, tailPage: nat, loose: map<nat, BlockInfo>, pages: set<nat>,
                          blocks: map<nat, BlockInfo>)
    requires slots != [] && Apart(slots[0], slots[1..], tail, tailPage)
    requires Resources(slots, tailPage, loose, pages, blocks)
    ensures slots[0].page in pages
    ensures slots[0].external.Some? ==> var e := slots[0].external.value;
              e.element in blocks && blocks[e.element] == BlockInfo(e.size, e.alignment)
    ensures Resources(slots[1..], tailPage, loose, PagesAfterSweep(slots[0], pages), BlocksAfterSweep(slots[0], blocks))
  {
    var s, rest := slots[0], slots[1..];
    if s.content.Jump? {
      JumpPagesAre(rest, s.page);
    }
    assert forall i :: 0 <= i < |rest| ==> rest[i] == slots[i + 1];
    hide JumpPages;
    SweepPages(slots, tail, tailPage, pages);
    SweepBlocks(slots, loose, blocks);
  }

  lemma SweepPages<V>(slots: seq<Slot<V>>, tail: nat, tailPage: nat, pages: set<nat>)
    requires slots != [] && Apart(slots[0], slots[1..], tail, tailPage)
    requires pages == JumpPages(slots) + {tailPage}
    ensures PagesAfterSweep(slots[0], pages) == JumpPages(slots[1..]) + {tailPage}
  {
    JumpPagesAre(slots[1..], slots[0].page);
  }

  lemma SweepBlocks<V>(slots: seq<Slot<V>>, loose: map<nat, BlockInfo>, blocks: map<nat, BlockInfo>)
    requires slots != [] && ExternalsDistinct(slots) && ExternalBlocks(slots).Keys !! loose.Keys
    requires blocks == ExternalBlocks(slots) + loose
    ensures slots[0].external.Some? ==> var e := slots[0].external.value;
              e.element in blocks && blocks[e.element] == BlockInfo(e.size, e.alignment)
    ensures ExternalBlocks(slots[1..]).Keys !! loose.Keys
    ensures BlocksAfterSweep(slots[0], blocks) == ExternalBlocks(slots[1..]) + loose
  {
    hide ExternalsDistinct;
    SweepExternals(slots);
  }

  lemma SweepExternals<V>(slots: seq<Slot<V>>)
    requires slots != [] && ExternalsDistinct(slots)
    ensures ExternalBlocks(slots) == ExternalOf(slots[0]) + ExternalBlocks(slots[1..])
    ensures ExternalOf(slots[0]).Keys !! ExternalBlocks(slots[1..]).Keys
    ensures ExternalsDistinct(slots[1..])
  {
  }

  // ---- changing the phase of an entry -------------------------------------------------------------------

  lemma FinishedWithStatus<V>(slots: seq<Slot<V>>, i: nat, status: Status)
    requires Finished(slots) && i < |slots| && slots[i].status.Alive?
    ensures Finished(slots[i := WithStatus(slots[i], status)])
  {
  }

  /** Writing the flags of the control block a handle refers to changes the phase of its entry, or removes
      the entry, and nothing else an observer or another handle depends on. */
  lemma ChangeStatus<V>(cfg: Config, head: nat, headPage: nat, slots: seq<Slot<V>>, tail: nat, tailPage: nat,
                        m: Memory<V>, loose: map<nat, BlockInfo>, pages: set<nat>, blocks: map<nat, BlockInfo>,
                        raws: set<RawBlock<V>>, nextId: nat, control: nat, id: nat, status: Status) returns (i: nat)
    requires cfg.Valid() && Represents(cfg, head, headPage, slots, tail, tailPage, m, loose, pages, blocks)
    requires Finished(slots) && RawsKept(slots, raws, nextId) && F.Ordered(Live(slots), nextId)
    requires var k := F.Find(Live(slots), id); k < |Live(slots)| && Live(slots)[k].item.value.control == control
    ensures i < |slots| && slots[i].addr == control
    ensures var k := F.Find(Live(slots), id);
            && slots[i].status == Alive(Live(slots)[k].phase) && EntryOf(slots[i]) == [Live(slots)[k]]
            && control in m.words && m.words[control] == WordOf(slots[i])
            && StateBits(m.words[control]) == StatusBits(slots[i].status)
            && var slots' := slots[i := WithStatus(slots[i], status)];
               && Represents(cfg, head, headPage, slots', tail, tailPage,
                             m.(words := m.words[control := WordOf(WithStatus(slots[i], status))]), loose, pages,
                             blocks)
               && Finished(slots') && RawsKept(slots', raws, nextId)
               && Live(slots') == (if status.Dead? then F.Remove(Live(slots), k)
                                   else F.SetPhase(Live(slots), k, status.phase))
  {
    hide Represents, Live, RawsKept, Finished, WordOf, StateBits;
    var k := F.Find(Live(slots), id);
    i := SlotOfEntry(slots, k);
    LivePosition(slots, nextId, i);
    SetFlags(cfg, head, headPage, slots, tail, tailPage, m, loose, pages, blocks, i, status);
    LiveWithStatus(slots, i, status);
    FinishedWithStatus(slots, i, status);
    RawsAfterStatus(slots, raws, nextId, i, status);
  }

  /** Marking the first slot without flags as busy takes the first ready entry. */
  lemma TakeStatus<V>(cfg: Config, head: nat, headPage: nat, slots: seq<Slot<V>>, tail: nat, tailPage: nat,
                      m: Memory<V>, loose: map<nat, BlockInfo>, pages: set<nat>, blocks: map<nat, BlockInfo>,
                      raws: set<RawBlock<V>>, nextId: nat, k: nat)
    requires cfg.Valid() && Represents(cfg, head, headPage, slots, tail, tailPage, m, loose, pages, blocks)
    requires Finished(slots) && RawsKept(slots, raws, nextId)
    requires F.NoOpen(Live(slots))
    requires k < |slots| && Passed(slots, k) && StatusBits(slots[k].status) == 0
    ensures var i := F.FirstReady(Live(slots));
            var t := WithStatus(slots[k], Alive(F.Taken));
            && i < |Live(slots)| && Live(slots)[i].item.value.control == slots[k].addr
            && WordOf(t) == WordOf(slots[k]) + BUSY
            && Represents(cfg, head, headPage, slots[k := t], tail, tailPage,
                          m.(words := m.words[slots[k].addr := WordOf(t)]), loose, pages, blocks)
            && Finished(slots[k := t]) && RawsKept(slots[k := t], raws, nextId)
            && Live(slots[k := t]) == F.SetPhase(Live(slots), i, F.Taken)
  {
    hide Represents, Live, RawsKept, Finished, F.NoOpen;
    FirstReadySlot(slots, k);
    LiveAt(slots, k);
    SetFlags(cfg, head, headPage, slots, tail, tailPage, m, loose, pages, blocks, k, Alive(F.Taken));
    LiveWithStatus(slots, k, Alive(F.Taken));
    FinishedWithStatus(slots, k, Alive(F.Taken));
    RawsAfterStatus(slots, raws, nextId, k, Alive(F.Taken));
  }

  lemma LiveAt<V>(slots: seq<Slot<V>>, i: nat)
    requires i < |slots| && EntryOf(slots[i]) != []
    ensures var k := |Live(slots[..i])|; k < |Live(slots)| && Live(slots)[k] == EntryOf(slots[i])[0]
  {
    hide Live;
    LiveAround(slots, i, slots[i]);
  }

  lemma InvOrdered<T>(s: F.State<T>)
    requires F.Inv(s)
    ensures F.Ordered(s.live, s.nextId)
  {
  }
}
