/** How an heterogeneous queue lies in memory: a chain of control blocks, linear inside a page, whose
    `next` words carry the address of the following control block and three flags. */
module QueueLayout {
  import opened Bits
  import opened Align
  import opened Options
  import opened Allocators
  import opened Machine
  import F = Fifo

  const EXTERNAL_BLOCK_SIZE := 24

  /** Sizes and alignments the queue is instantiated with. */
  datatype Config = Config(minAlign: nat, pageSize: nat, pageAlign: nat, sizeofType: nat,
                           control: nat, typeSpace: nat)
  {
    /** The library's compile-time checks, and how it computes the sizes. */
    ghost predicate Checked() {
      && IsPow2(minAlign) && minAlign >= 8
      && IsPow2(pageAlign) && pageAlign >= pageSize && pageAlign % minAlign == 0
      && pageSize > (minAlign + POINTER_SIZE) * 4
      && control == UpperAlign(POINTER_SIZE, minAlign)
      && typeSpace == UpperAlign(sizeofType, minAlign)
    }

    /** What the queue needs besides the checks: an external block descriptor, with its control block and
        its runtime type, fits in a page. */
    ghost predicate RoomForDescriptor()
      requires minAlign > 0
    {
      pageSize >= 2 * control + typeSpace + UpperAlign(EXTERNAL_BLOCK_SIZE, minAlign)
    }

    /** What the proofs use of the sizes. */
    ghost predicate Valid() {
      && IsPow2(minAlign) && minAlign >= 8
      && IsPow2(pageAlign) && pageAlign >= minAlign && pageAlign >= pageSize
      && control >= POINTER_SIZE && Aligned(control, minAlign) && Aligned(typeSpace, minAlign)
      && RoomForDescriptor()
    }

    /** The value of head and tail before the first page is allocated. */
    function Sentinel(): int {
      pageSize - 1
    }

    function MaxSizeInPage(): int {
      pageSize - control - typeSpace - control
    }
  }

  // ---- next words ---------------------------------------------------------------------------------

  const BUSY := 1
  const DEAD := 2
  const EXTERNAL := 4

  function NextOf(word: nat): nat {
    LowerAlign(word, 8)
  }

  function StateBits(word: nat): nat {
    And(word, BUSY + DEAD)
  }

  predicate IsExternal(word: nat) {
    And(word, EXTERNAL) != 0
  }

  function SetExternal(word: nat): nat {
    Or(word, EXTERNAL)
  }

  /** Masking a word recovers the address and the flags that were added up in it. */
  lemma WordParts(next: nat, bits: nat, external: nat)
    requires Aligned(next, 8) && bits < 4 && (external == 0 || external == EXTERNAL)
    ensures var w := next + bits + external;
            && NextOf(w) == next
            && StateBits(w) == bits
            && (IsExternal(w) <==> external != 0)
            && SetExternal(w) == next + bits + EXTERNAL
  {
    hide And;
    var w := next + bits + external;
    assert Pow2(3) == 8 && Pow2(2) == 4;
    AlignedMod(next, 8);
    AlignedMod(w, 8);
    AlignedMod(w, 4);
    AndFour(w);
  }

  lemma AndFour(w: nat)
    ensures And(w, 4) == 4 * ((w / 4) % 2)
  {
    assert And(w, 4) == 2 * And(w / 2, 2);
    assert And(w / 2, 2) == 2 * And(w / 4, 1) by { assert w / 2 / 2 == w / 4; }
    assert And(w / 4, 1) == (w / 4) % 2;
  }

  // ---- slots -----------------------------------------------------------------------------------------

  datatype Status = Dead | Alive(phase: F.Phase)

  datatype RuntimeType = RuntimeType(name: nat, size: nat, alignment: nat)

  datatype ExternalBlock = ExternalBlock(element: nat, size: nat, alignment: nat)

  /** A slot is a page jump, or storage without an object (a raw block, a destroyed element, or one not
      constructed yet), or storage with an object. */
  datatype Content<+V> = Jump | Blank | Object(id: nat, rtype: RuntimeType, value: V)

  datatype Slot<+V> = Slot(addr: nat, next: nat, page: nat, status: Status, content: Content<V>,
                           storage: nat, size: nat, external: Option<ExternalBlock>)

  function StatusBits(status: Status): nat {
    match status
    case Dead => DEAD
    case Alive(Pending) => BUSY
    case Alive(Taken) => BUSY
    case Alive(Open) => 0
    case Alive(Ready) => 0
  }

  function WordOf<V>(s: Slot<V>): nat {
    s.next + StatusBits(s.status) + (if s.external.Some? then EXTERNAL else 0)
  }

  ghost predicate StorageOk<V>(cfg: Config, s: Slot<V>)
    requires cfg.Valid()
  {
    match s.external
    case None =>
      && s.addr + cfg.control <= s.storage && s.storage + s.size <= s.next
      && (s.content.Object? ==>
            && s.content.rtype.alignment > 0
            && s.addr + cfg.control + cfg.typeSpace <= s.storage
            && s.storage == UpperAlign(s.addr + cfg.control + cfg.typeSpace, s.content.rtype.alignment))
    case Some(e) =>
      && e.element == s.storage && s.size <= e.size
      && s.addr + cfg.control + cfg.typeSpace + EXTERNAL_BLOCK_SIZE <= s.next
  }

  /** The object of a slot is aligned as its type wants it and has the room its type wants. */
  ghost predicate ContentOk<V>(s: Slot<V>) {
    s.content.Object? ==>
      && !s.status.Dead?
      && IsPow2(s.content.rtype.alignment) && s.content.rtype.alignment > 0
      && Aligned(s.storage, s.content.rtype.alignment) && s.content.rtype.size <= s.size
  }

  /** Room for one more control block before the end of the page. */
  ghost predicate InPage(cfg: Config, a: nat, page: nat)
    requires cfg.Valid()
  {
    && Aligned(page, cfg.pageAlign) && cfg.pageAlign <= page
    && Aligned(a, cfg.minAlign) && page <= a && a + cfg.control <= page + cfg.pageSize
  }

  ghost predicate SlotOk<V>(cfg: Config, s: Slot<V>)
    requires cfg.Valid()
  {
    && InPage(cfg, s.addr, s.page)
    && Aligned(s.addr, 8) && Aligned(s.next, 8)
    && (if s.content.Jump? then
          s.status.Dead? && s.external.None? && InPage(cfg, s.next, s.next)
        else
          s.addr + cfg.control <= s.next && InPage(cfg, s.next, s.page) && StorageOk(cfg, s) && ContentOk(s))
  }

  /** The page the chain is in after a slot. */
  function PageAfter<V>(s: Slot<V>): nat {
    if s.content.Jump? then s.next else s.page
  }

  /** Positions after a slot are above it if they are in its page; a page that has been left is never
      entered again. */
  ghost predicate Apart<V>(s: Slot<V>, rest: seq<Slot<V>>, tail: nat, tailPage: nat) {
    if s.content.Jump? then
      tailPage != s.page && forall i :: 0 <= i < |rest| ==> rest[i].page != s.page
    else
      && (tailPage == s.page ==> s.next <= tail)
      && forall i :: 0 <= i < |rest| && rest[i].page == s.page ==> s.next <= rest[i].addr
  }

  /** Following the next addresses from `a`, which is in page `page`, goes through the slots and ends at
      the tail. */
  ghost predicate Chain<V>(cfg: Config, a: nat, page: nat, slots: seq<Slot<V>>, tail: nat, tailPage: nat)
    requires cfg.Valid()
    decreases |slots|
  {
    if slots == [] then a == tail && page == tailPage && InPage(cfg, tail, tailPage)
    else
      && slots[0].addr == a && slots[0].page == page
      && SlotOk(cfg, slots[0])
      && Apart(slots[0], slots[1..], tail, tailPage)
      && Chain(cfg, slots[0].next, PageAfter(slots[0]), slots[1..], tail, tailPage)
  }

  /** The memory a queue writes, by what it writes there: the word of each control block, the runtime
      type behind it, the descriptor of an external block, and the element objects. */
  datatype Memory<+V> = Memory(words: map<nat, nat>, types: map<nat, RuntimeType>,
                               externals: map<nat, ExternalBlock>, elements: map<nat, V>)

  ghost predicate SlotStored<V>(cfg: Config, s: Slot<V>, m: Memory<V>) {
    && s.addr in m.words && m.words[s.addr] == WordOf(s)
    && (s.external.Some? ==>
          var at := s.addr + cfg.control + cfg.typeSpace;
          at in m.externals && m.externals[at] == s.external.value)
    && (s.content.Object? ==>
          && s.addr + cfg.control in m.types && m.types[s.addr + cfg.control] == s.content.rtype
          && s.storage in m.elements && m.elements[s.storage] == s.content.value)
  }

  ghost predicate Stored<V>(cfg: Config, slots: seq<Slot<V>>, m: Memory<V>) {
    forall i :: 0 <= i < |slots| ==> SlotStored(cfg, slots[i], m)
  }

  // ---- resources ------------------------------------------------------------------------------------

  /** The pages the chain leaves behind: those crossed before the tail page. */
  ghost function JumpPages<V>(slots: seq<Slot<V>>): set<nat> {
    if slots == [] then {}
    else (if slots[0].content.Jump? then {slots[0].page} else {}) + JumpPages(slots[1..])
  }

  ghost function ExternalOf<V>(s: Slot<V>): map<nat, BlockInfo> {
    match s.external
    case None => map[]
    case Some(e) => map[e.element := BlockInfo(e.size, e.alignment)]
  }

  ghost function ExternalBlocks<V>(slots: seq<Slot<V>>): map<nat, BlockInfo> {
    if slots == [] then map[] else ExternalOf(slots[0]) + ExternalBlocks(slots[1..])
  }

  /** No two slots own the same external block. */
  ghost predicate ExternalsDistinct<V>(slots: seq<Slot<V>>) {
    slots == [] || (ExternalOf(slots[0]).Keys !! ExternalBlocks(slots[1..]).Keys && ExternalsDistinct(slots[1..]))
  }

  /** Nothing is lost and nothing is owned twice: the pages obtained and not returned are those the
      chain goes through, the heap blocks are those of the external slots plus `loose` ones, which
      have been allocated but not linked to a slot yet. */
  ghost predicate Resources<V>(slots: seq<Slot<V>>, tailPage: nat, loose: map<nat, BlockInfo>,
                               pages: set<nat>, blocks: map<nat, BlockInfo>) {
    && pages == JumpPages(slots) + {tailPage}
    && (forall i :: 0 <= i < |slots| ==> slots[i].page in pages)
    && ExternalsDistinct(slots)
    && ExternalBlocks(slots).Keys !! loose.Keys
    && blocks == ExternalBlocks(slots) + loose
  }

  // ---- the queue an observer sees --------------------------------------------------------------------

  /** What a handle holds: the control block, where the element is, and the element. */
  datatype Cell<+V> = Cell(control: nat, storage: nat, rtype: RuntimeType, value: V)

  ghost function EntryOf<V>(s: Slot<V>): seq<F.Entry<Cell<V>>> {
    if s.status.Alive? && s.content.Object? then
      [F.Entry(F.Item(s.content.id, Cell(s.addr, s.storage, s.content.rtype, s.content.value)), s.status.phase)]
    else []
  }

  ghost function Live<V>(slots: seq<Slot<V>>): seq<F.Entry<Cell<V>>> {
    if slots == [] then [] else EntryOf(slots[0]) + Live(slots[1..])
  }

  /** Every slot that is not dead has an object. */
  ghost predicate Finished<V>(slots: seq<Slot<V>>) {
    forall i :: 0 <= i < |slots| && slots[i].status.Alive? ==> slots[i].content.Object?
  }

  // ---- the whole state ------------------------------------------------------------------------------------

  /** Head, tail, memory and owned resources represent the slots. A queue that never allocated has no
      page, and head and tail are the sentinel. */
  ghost predicate Represents<V>(cfg: Config, head: nat, headPage: nat, slots: seq<Slot<V>>, tail: nat, tailPage: nat,
                                m: Memory<V>, loose: map<nat, BlockInfo>, pages: set<nat>, blocks: map<nat, BlockInfo>)
    requires cfg.Valid()
  {
    if tail == cfg.Sentinel() then
      head == tail && slots == [] && pages == {} && blocks == loose
    else
      && Chain(cfg, head, headPage, slots, tail, tailPage)
      && Stored(cfg, slots, m)
      && Resources(slots, tailPage, loose, pages, blocks)
  }

  // ---- raw blocks -------------------------------------------------------------------------------------------

  /** A raw block, by the id of the element it was allocated for and the slot it got. */
  datatype RawBlock<+V> = RawBlock(owner: nat, slot: Slot<V>)

  predicate IsObject<V>(s: Slot<V>, id: nat) {
    s.status.Alive? && s.content.Object? && s.content.id == id
  }

  /** The slot of a raw block stays in the chain, behind its owner, as long as the owner is alive. */
  ghost predicate RawKept<V>(slots: seq<Slot<V>>, r: RawBlock<V>) {
    forall i :: 0 <= i < |slots| && IsObject(slots[i], r.owner) ==> r.slot in slots[i + 1..]
  }

  ghost predicate RawsKept<V>(slots: seq<Slot<V>>, raws: set<RawBlock<V>>, nextId: nat) {
    && (forall r <- raws :: r.slot.status.Dead? && r.slot.content.Blank? && r.owner < nextId)
    && (forall r <- raws :: RawKept(slots, r))
  }
}
