/** Which slots an iteration stops at. */
module QueueIteration {
  import opened DivMod
  import opened Bits
  import opened Align
  import opened Options
  import opened QueueLayout
  import opened QueueSteps
  import F = Fifo

  /** How many visible elements the first `k` slots hold. */
  ghost function ReadyBefore<V>(slots: seq<Slot<V>>, k: nat): nat
    requires k <= |slots|
  {
    |F.Items(Live(slots[..k]), F.Ready)|
  }

  /** A slot without flags holds the visible element with the number of those before it; any other
      slot holds none. */
  lemma ReadyAt<V>(slots: seq<Slot<V>>, k: nat)
    requires k < |slots| && Finished(slots) && F.NoOpen(Live(slots))
    ensures var visible, n := F.Items(Live(slots), F.Ready), ReadyBefore(slots, k);
            if StatusBits(slots[k].status) == 0 then
              && slots[k].status == Alive(F.Ready) && EntryOf(slots[k]) != []
              && n < |visible| && visible[n] == EntryOf(slots[k])[0].item
              && ReadyBefore(slots, k + 1) == n + 1
            else
              ReadyBefore(slots, k + 1) == n
  {
    hide Live, F.Items;
    LiveAround(slots, k, slots[k]);
    var low, e, high := Live(slots[..k]), EntryOf(slots[k]), Live(slots[k + 1..]);
    assert slots[..k + 1] == slots[..k] + [slots[k]];
    LiveAppend(slots[..k], slots[k]);
    F.ItemsConcat(low + e, high, F.Ready);
    F.ItemsConcat(low, e, F.Ready);
    if e != [] {
      assert Live(slots)[|low|] == e[0];
      SingleItem(e[0]);
    } else {
      NoItem<V>();
    }
  }

  lemma SingleItem<V>(e: F.Entry<Cell<V>>)
    ensures F.Items([e], F.Ready) == F.OneItem(e, F.Ready)
  {
  }

  lemma NoItem<V>()
    ensures F.Items<Cell<V>>([], F.Ready) == []
  {
  }

  lemma ReadyEnds<V>(slots: seq<Slot<V>>)
    ensures ReadyBefore(slots, 0) == 0
    ensures ReadyBefore(slots, |slots|) == |F.Items(Live(slots), F.Ready)|
  {
    assert slots[..|slots|] == slots;
    assert slots[..0] == [];
  }

  /** The slot that holds a visible element. */
  lemma {:induction false} SlotOfVisible<V>(slots: seq<Slot<V>>, n: nat, k: nat) returns (i: nat)
    requires Finished(slots) && F.NoOpen(Live(slots)) && k <= |slots|
    requires ReadyBefore(slots, k) <= n < |F.Items(Live(slots), F.Ready)|
    ensures i < |slots| && ReadyBefore(slots, i) == n && slots[i].status == Alive(F.Ready)
    ensures EntryOf(slots[i]) != [] && EntryOf(slots[i])[0].item == F.Items(Live(slots), F.Ready)[n]
    decreases |slots| - k
  {
    hide Live, F.Items;
    ReadyEnds(slots);
    ReadyAt(slots, k);
    if StatusBits(slots[k].status) == 0 && ReadyBefore(slots, k) == n {
      i := k;
    } else {
      i := SlotOfVisible(slots, n, k + 1);
    }
  }

  // ---- the first hop --------------------------------------------------------------------------------------------

  /** The first hop of the library's iterator increment: it masks only the two low flags. */
  function FirstHop(word: nat): nat {
    LowerAlign(word, 4)
  }

  /** The first hop reaches the successor exactly when the element is not external. From an external one it
      lands four bytes behind it, where there is neither a control block of the chain nor the tail. */
  lemma FirstHopExactly<V>(cfg: Config, head: nat, headPage: nat, slots: seq<Slot<V>>, tail: nat, tailPage: nat, k: nat)
    requires cfg.Valid() && Chain(cfg, head, headPage, slots, tail, tailPage) && k < |slots|
    ensures FirstHop(WordOf(slots[k])) == slots[k].next <==> slots[k].external.None?
    ensures slots[k].external.Some? ==>
              var hop := FirstHop(WordOf(slots[k]));
              hop == slots[k].next + 4 && hop != tail && forall j :: 0 <= j < |slots| ==> slots[j].addr != hop
  {
    hide Chain, Apart, InPage, StorageOk, ContentOk, And, Aligned;
    ChainAt(cfg, head, headPage, slots, tail, tailPage, k);
    var s := slots[k];
    HopWord(s.next, StatusBits(s.status), if s.external.Some? then EXTERNAL else 0);
    if s.external.Some? {
      InPageFacts(cfg, tail, tailPage);
      FourOff(s.next, tail);
      forall j | 0 <= j < |slots| ensures slots[j].addr != s.next + 4 {
        ChainAt(cfg, head, headPage, slots, tail, tailPage, j);
        FourOff(s.next, slots[j].addr);
      }
    }
  }

  lemma HopWord(next: nat, bits: nat, external: nat)
    requires Aligned(next, 8) && bits < 4 && (external == 0 || external == EXTERNAL)
    ensures FirstHop(next + bits + external) == next + external
  {
    hide And, Pow2;
    EightAndFour();
    var w := next + bits + external;
    AlignedMod(next, 8);
    AlignedMod(w, 4);
    var q := next / 8;
    assert w == 4 * (2 * q + external / 4) + bits;
    QuotientUnique(w, 4, 2 * q + external / 4, bits);
    assert And(w, 3) == bits;
  }

  lemma EightAndFour()
    ensures IsPow2(8) && IsPow2(4)
  {
    assert Pow2(3) == 8 && Pow2(2) == 4;
  }

  lemma FourOff(x: nat, y: nat)
    requires Aligned(x, 8) && Aligned(y, 8)
    ensures x + 4 != y
  {
    hide And;
    assert Pow2(3) == 8;
    AlignedMod(x, 8);
    AlignedMod(y, 8);
  }
}
