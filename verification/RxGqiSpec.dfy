/**
 GQI receive buffers. Every ring slot has a page split into two halves; the NIC
 fills one half while SKBs may still use the other. In QPL mode the slot flips
 to the other half as soon as a packet is taken, or the packet is copied into a
 pool of pages used twice in turn. In raw mode the flip waits for the refill.
 */
module RxGqiSpec {
  import opened PageRefs

  datatype Mode = Qpl | Raw

  /** `addr` is what the NIC reads; `page_offset` and the page's own address stay with the driver. */
  datatype Slot = Slot(page: PageRef, base: nat, offset: nat, addr: nat, canFlip: bool)

  datatype CopyPage = CopyPage(page: PageRef, offset: nat, canFlip: bool)

  datatype State = State(
    mode: Mode, half: nat,               // half: PAGE_SIZE / 2
    slots: seq<Slot>, pool: seq<CopyPage>, poolHead: nat,
    cnt: nat, fill: nat, work: nat)       // taken, posted, and taken in this poll

  predicate Sane(s: State) {
    |s.slots| > 0 && |s.pool| > 0 && s.half > 0
  }

  /** What exclusive-or with `half`, a single bit, does to `x`. */
  function Toggle(x: nat, half: nat): nat
    requires half > 0
  {
    if x / half % 2 == 0 then x + half else Minus(x, half)
  }

  function Minus(x: nat, y: nat): nat {
    if x < y then 0 else x - y
  }

  /** Which half an offset names. */
  function HalfOf(offset: nat): nat {
    if offset == 0 then 0 else 1
  }

  function Flip(p: Slot, half: nat): Slot
    requires half > 0
  {
    p.(offset := Toggle(p.offset, half), addr := Toggle(p.addr, half))
  }

  /** A slot on a new page at `base`. */
  function Setup(base: nat): Slot {
    Slot(Fresh(), base, 0, base, false)
  }

  function SetSlot(s: State, i: nat, p: Slot): State
    requires i < |s.slots|
  {
    s.(slots := s.slots[i := p])
  }

  // ----- Taking a packet -----------------------------------------------------------------------

  /** The pool page a copy goes to. */
  function PoolIndex(s: State): (j: nat)
    requires |s.pool| > 0
    ensures j < |s.pool|
  {
    s.poolHead % |s.pool|
  }

  predicate CopyNeedsNewPage(s: State)
    requires |s.pool| > 0
  {
    var c := s.pool[PoolIndex(s)];
    !c.canFlip && RefCnt(c.page) > 0
  }

  function NextHead(h: nat): nat {
    (h + 1) % 0x1_0000_0000
  }

  /** `ok`: an SKB could be had. A page still in use is passed over, and a new page takes its place for once. */
  function CopyToPool(s: State, ok: bool): State
    requires Sane(s)
  {
    var (j, c) := (PoolIndex(s), s.pool[PoolIndex(s)]);
    if !c.canFlip && RefCnt(c.page) < 0 then s
    else if CopyNeedsNewPage(s) then s.(poolHead := NextHead(s.poolHead))
    else if !ok then s
    else
      var c' := CopyPage(AddFrag(c.page, HalfOf(c.offset)), (c.offset + s.half) % (2 * s.half), !c.canFlip);
      s.(pool := s.pool[j := c'], poolHead := if c.canFlip then NextHead(s.poolHead) else s.poolHead)
  }

  /** `gve_rx_skb` beyond the copybreak, for slot `i`. */
  function TakePacket(s: State, i: nat, ok: bool): State
    requires Sane(s) && i < |s.slots|
  {
    var p := s.slots[i];
    if RefCnt(p.page) < 0 then s
    else
      var q := p.(canFlip := RefCnt(p.page) == 0);
      var used := if ok then q.(page := AddFrag(q.page, HalfOf(q.offset))) else q;
      match s.mode
      case Raw => SetSlot(s, i, used)
      case Qpl =>
        if q.canFlip then SetSlot(s, i, if ok then Flip(used, s.half) else q)
        else CopyToPool(SetSlot(s, i, q), ok)
  }

  // ----- Refilling -----------------------------------------------------------------------------

  /** One turn of the refill loop, with `base` the page to use if one is needed. */
  function RefillOne(s: State, base: nat): State
    requires Sane(s)
  {
    var i := s.fill % |s.slots|;
    var p := s.slots[i];
    var next := s.(fill := s.fill + 1);
    if p.canFlip then SetSlot(next, i, Flip(p, s.half).(canFlip := false))
    else if RefCnt(p.page) < 0 then s
    else if RefCnt(p.page) == 0 then next
    else SetSlot(next, i, Setup(base))
  }

  // ----- The machine -----------------------------------------------------------------------------

  datatype Action =
    | Take(ok: bool)             // a packet kept by the stack
    | Skip                       // a packet copied out, dropped or consumed on the spot
    | PollEnd                    // QPL: the slots taken are posted again
    | Refill(base: nat)         // raw: one slot
    | StackDrop(i: nat, h: nat)  // an SKB lets go of a half of slot i's page
    | PoolDrop(j: nat, h: nat)
    | StackTake(i: nat, h: nat)  // an SKB takes another reference on a half it refers to
    | PoolTake(j: nat, h: nat)

  predicate PageAligned(base: nat, half: nat)
    requires half > 0
  {
    base % (2 * half) == 0
  }

  function Step(s: State, a: Action): State
    requires Sane(s)
  {
    match a
    case Take(ok) =>
      if s.cnt < s.fill then
        TakePacket(s, s.cnt % |s.slots|, ok).(cnt := s.cnt + 1, work := s.work + 1)
      else s
    case Skip => if s.cnt < s.fill then s.(cnt := s.cnt + 1, work := s.work + 1) else s
    case PollEnd => if s.mode == Qpl then s.(fill := s.fill + s.work, work := 0) else s.(work := 0)
    case Refill(base) =>
      if s.mode == Raw && s.fill < s.cnt + |s.slots| && PageAligned(base, s.half) then RefillOne(s, base) else s
    case StackDrop(i, h) =>
      if i < |s.slots| then SetSlot(s, i, s.slots[i].(page := Drop(s.slots[i].page, h))) else s
    case PoolDrop(j, h) =>
      if j < |s.pool| then s.(pool := s.pool[j := s.pool[j].(page := Drop(s.pool[j].page, h))]) else s
    case StackTake(i, h) =>
      if i < |s.slots| && Claims(s.slots[i].page.refs, 2) < INT_MAX - 1
      then SetSlot(s, i, s.slots[i].(page := GetRef(s.slots[i].page, h))) else s
    case PoolTake(j, h) =>
      if j < |s.pool| && Claims(s.pool[j].page.refs, 2) < INT_MAX - 1
      then s.(pool := s.pool[j := s.pool[j].(page := GetRef(s.pool[j].page, h))]) else s
  }

  function Init(mode: Mode, half: nat, bases: seq<nat>, pool: nat): State {
    State(mode, half, seq(|bases|, i requires 0 <= i < |bases| => Setup(bases[i])),
          seq(pool, _ => CopyPage(Fresh(), 0, false)), 0, 0, |bases|, 0)
  }
}

module RxGqiProofs {
  import Arith
  import opened PageRefs
  import opened RxGqiSpec
  // ----- Bits ------------------------------------------------------------------------------------

  lemma XorAdds(x: bv64, half: bv64)
    requires x & half == 0
    ensures x ^ half == x + half
  {
  }

  lemma Twice(x: bv64, half: bv64)
    ensures (x ^ half) ^ half == x
  {
  }

  /** On machine words, exclusive-or with a bit adds it where it is clear and takes it away where it is set. */
  lemma XorIsToggle(x: bv64, half: bv64)
    requires x & half == 0
    ensures x ^ half == x + half && (x + half) ^ half == x
  {
    XorAdds(x, half);
    Twice(x, half);
  }

  lemma ToggleLower(base: nat, half: nat)
    requires half > 0 && PageAligned(base, half)
    ensures Toggle(base, half) == base + half
  {
    var q := base / (2 * half);
    assert base == q * (2 * half) == (2 * q) * half;
    Arith.DivModUnique(base, half, 2 * q, 0);
  }

  lemma ToggleUpper(base: nat, half: nat)
    requires half > 0 && PageAligned(base, half)
    ensures Toggle(base + half, half) == base
  {
    var q := base / (2 * half);
    assert base == q * (2 * half) == (2 * q) * half;
    assert base + half == (2 * q + 1) * half;
    Arith.DivModUnique(base + half, half, 2 * q + 1, 0);
  }

  /** Flipping goes back and forth between the halves of a page. */
  lemma ToggleHalf(base: nat, offset: nat, half: nat)
    requires half > 0 && PageAligned(base, half) && AtHalf(offset, half)
    ensures Toggle(base + offset, half) == base + (if offset == 0 then half else 0)
  {
    if offset == 0 { ToggleLower(base, half); } else { ToggleUpper(base, half); }
  }

  lemma ZeroAligned(half: nat)
    requires half > 0
    ensures PageAligned(0, half)
  {
    Arith.ModIdem(0, 2 * half);
  }

  /** Adding half a page and masking to a page is the same flip. */
  lemma AddIsFlip(offset: nat, half: nat)
    requires half > 0 && AtHalf(offset, half)
    ensures (offset + half) % (2 * half) == if offset == 0 then half else 0
  {
    if offset == 0 {
      Arith.ModIdem(half, 2 * half);
    } else {
      Arith.DivModUnique(2 * half, 2 * half, 1, 0);
    }
  }

  // ----- The invariant -----------------------------------------------------------------------------

  /** References on the two halves only, and no more than the count can hold. */
  ghost predicate OnHalves(page: PageRef) {
    PageRefs.Inv(page) && Covered(page.refs, 2)
  }

  ghost predicate AtHalf(offset: nat, half: nat) {
    offset == 0 || offset == half
  }

  /** The address the NIC uses is the page's own plus `page_offset`. */
  ghost predicate Addressed(p: Slot, half: nat)
    requires half > 0
  {
    AtHalf(p.offset, half) && PageAligned(p.base, half) && p.addr == p.base + p.offset
  }

  /** No SKB uses the half in turn. */
  predicate Free(p: Slot) {
    HalfOf(p.offset) !in p.page.refs
  }

  predicate OtherFree(p: Slot) {
    1 - HalfOf(p.offset) !in p.page.refs
  }

  ghost predicate SlotOk(p: Slot, mode: Mode, half: nat)
    requires half > 0
  {
    && Addressed(p, half) && OnHalves(p.page)
    && (mode == Qpl ==> Free(p))
    && (mode == Raw && p.canFlip ==> OtherFree(p))
  }

  ghost predicate CopyOk(c: CopyPage, half: nat) {
    AtHalf(c.offset, half) && OnHalves(c.page) && (c.canFlip ==> HalfOf(c.offset) !in c.page.refs)
  }

  /** The slot the `k`-th buffer is posted in. */
  function At(slots: seq<Slot>, k: nat): Slot
    requires |slots| > 0
  {
    slots[k % |slots|]
  }

  /** A posted slot: the half in turn is free, and its turn is not over. */
  predicate Postable(p: Slot, mode: Mode) {
    Free(p) && (mode == Raw ==> !p.canFlip)
  }

  ghost predicate Counts(s: State) {
    && s.cnt <= s.fill <= s.cnt + |s.slots|
    && (s.mode == Qpl ==> s.fill + s.work == s.cnt + |s.slots|)
  }

  ghost predicate Inv(s: State) {
    && Sane(s) && Counts(s)
    && (forall i :: 0 <= i < |s.slots| ==> SlotOk(s.slots[i], s.mode, s.half))
    && (forall j :: 0 <= j < |s.pool| ==> CopyOk(s.pool[j], s.half))
    && (forall k :: s.cnt <= k < s.fill ==> Postable(At(s.slots, k), s.mode))
  }

  // ----- Single pages ------------------------------------------------------------------------------

  lemma FlipKeepsAddressed(p: Slot, half: nat)
    requires half > 0 && Addressed(p, half)
    ensures Addressed(Flip(p, half), half)
    ensures HalfOf(Flip(p, half).offset) == 1 - HalfOf(p.offset)
  {
    hide PageAligned, Toggle;
    ToggleHalf(p.base, p.offset, half);
    ZeroAligned(half);
    ToggleHalf(0, p.offset, half);
  }

  /** A reference on a free half is counted, and none before means only that one. */
  lemma AddKeepsOnHalves(page: PageRef, h: nat)
    requires OnHalves(page) && h < 2 && h !in page.refs
    ensures OnHalves(AddFrag(page, h))
    ensures RefCnt(page) == 0 ==> 1 - h !in AddFrag(page, h).refs
    ensures RefCnt(page) >= 0
  {
    hide Claims;
    FragKeepsCovered(page.refs, 2, h);
    AddFragKeepsInvExactly(page, h);
    if RefCnt(page) == 0 {
      NoRefs(page);
    }
  }

  lemma NoRefs(page: PageRef)
    requires PageRefs.Inv(page) && RefCnt(page) == 0
    ensures forall h :: h !in page.refs
  {
    assert page.refs == multiset{};
  }

  lemma DropKeepsOnHalves(page: PageRef, h: nat)
    requires OnHalves(page)
    ensures OnHalves(Drop(page, h))
    ensures forall g :: g !in page.refs ==> g !in Drop(page, h).refs
  {
    hide Claims;
    DropKeepsInv(page, h);
    DropKeepsCovered(page, 2, h);
  }

  lemma GetRefKeepsOnHalves(page: PageRef, h: nat)
    requires OnHalves(page) && Claims(page.refs, 2) < INT_MAX - 1
    ensures OnHalves(GetRef(page, h))
    ensures forall g :: g !in page.refs ==> g !in GetRef(page, h).refs
  {
    hide Claims;
    GetRefKeepsInv(page, h);
    GetRefKeepsCovered(page, 2, h);
  }

  // ----- Slots not involved ----------------------------------------------------------------------------

  lemma OthersPosted(s: State, s': State, i: nat)
    requires Sane(s) && i < |s.slots| == |s'.slots| && s'.mode == s.mode
    requires forall x :: 0 <= x < |s.slots| && x != i ==> s'.slots[x] == s.slots[x]
    requires forall k :: s.cnt <= k < s.fill ==> Postable(At(s.slots, k), s.mode)
    ensures forall k :: s.cnt <= k < s.fill && k % |s.slots| != i ==> Postable(At(s'.slots, k), s.mode)
  {
    forall k | s.cnt <= k < s.fill && k % |s.slots| != i
      ensures Postable(At(s'.slots, k), s.mode)
    {
      assert At(s'.slots, k) == At(s.slots, k);
    }
  }

  /** A slot other than the one in turn belongs to another count. */
  lemma OtherTurn(x: nat, k: nat, n: nat)
    requires n > 0 && x != k && x < k + n && k < x + n
    ensures x % n != k % n
  {
    if x < k { Arith.SlotsDiffer(x, k, n); } else { Arith.SlotsDiffer(k, x, n); }
  }

  // ----- Taking a packet ---------------------------------------------------------------------------------

  /** The half a copy writes to is not in use. */
  lemma CopyTargetFree(s: State)
    requires Inv(s) && !CopyNeedsNewPage(s)
    ensures var c := s.pool[PoolIndex(s)];
      RefCnt(c.page) >= 0 && HalfOf(c.offset) !in c.page.refs
  {
    hide SlotOk, PoolIndex;
    var c := s.pool[PoolIndex(s)];
    assert CopyOk(c, s.half);
    if !c.canFlip { NoRefs(c.page); }
  }

  lemma CopyKeepsPool(s: State, ok: bool)
    requires Inv(s)
    ensures var s' := CopyToPool(s, ok);
      && |s'.pool| == |s.pool| && (forall j :: 0 <= j < |s.pool| ==> CopyOk(s'.pool[j], s.half))
      && s' == s.(pool := s'.pool, poolHead := s'.poolHead)
  {
    hide SlotOk, PoolIndex, Postable, AddFrag;
    var c := s.pool[PoolIndex(s)];
    assert CopyOk(c, s.half);
    if !CopyNeedsNewPage(s) {
      CopyTargetFree(s);
      AddIsFlip(c.offset, s.half);
      AddKeepsOnHalves(c.page, HalfOf(c.offset));
      if c.canFlip {
      } else {
        assert RefCnt(c.page) == 0;
      }
    }
  }

  /** What taking a packet does to its slot. */
  lemma TakenSlot(p: Slot, mode: Mode, half: nat, ok: bool)
    requires half > 0 && SlotOk(p, mode, half) && Free(p)
    ensures RefCnt(p.page) >= 0
    ensures var q := p.(canFlip := RefCnt(p.page) == 0);
      var used := if ok then q.(page := AddFrag(q.page, HalfOf(q.offset))) else q;
      && (mode == Raw ==> SlotOk(used, mode, half))
      && (mode == Qpl ==> SlotOk(q, mode, half))
      && (mode == Qpl && q.canFlip ==> SlotOk(Flip(used, half), mode, half))
  {
    hide PageAligned, AddFrag, OnHalves;
    AddKeepsOnHalves(p.page, HalfOf(p.offset));
    FlipKeepsAddressed(p, half);
    if RefCnt(p.page) == 0 { PageInv(p.page); NoRefs(p.page); }
  }

  lemma PageInv(page: PageRef)
    requires OnHalves(page)
    ensures PageRefs.Inv(page)
  {
  }

  /** Taking a packet touches only its own slot and the pool. */
  lemma TakeShape(s: State, i: nat, ok: bool)
    requires Inv(s) && i < |s.slots| && Free(s.slots[i])
    ensures var s' := TakePacket(s, i, ok);
      && s' == s.(slots := s.slots[i := s'.slots[i]], pool := s'.pool, poolHead := s'.poolHead)
      && |s'.slots| == |s.slots| && |s'.pool| == |s.pool|
      && SlotOk(s'.slots[i], s.mode, s.half)
      && (forall j :: 0 <= j < |s.pool| ==> CopyOk(s'.pool[j], s.half))
  {
    hide SlotOk, CopyOk, CopyToPool, Flip, AddFrag, Postable;
    var p := s.slots[i];
    TakenSlot(p, s.mode, s.half, ok);
    if s.mode == Qpl && RefCnt(p.page) != 0 {
      var m := SetSlot(s, i, p.(canFlip := false));
      QplCopyInv(s, m, i);
      CopyKeepsPool(m, ok);
    }
  }

  lemma QplCopyInv(s: State, m: State, i: nat)
    requires Inv(s) && s.mode == Qpl && i < |s.slots| && m == SetSlot(s, i, s.slots[i].(canFlip := false))
    ensures Inv(m)
  {
    hide CopyOk, OnHalves, Addressed;
    assert SlotOk(s.slots[i], s.mode, s.half);
    AddressedSame(s.slots[i], m.slots[i], s.half);
    forall k | m.cnt <= k < m.fill
      ensures Postable(At(m.slots, k), m.mode)
    {
      assert Postable(At(s.slots, k), s.mode);
    }
  }

  lemma TakeKeepsInv(s: State, ok: bool)
    requires Inv(s)
    ensures Inv(Step(s, Take(ok)))
  {
    hide SlotOk, CopyOk, TakePacket, Postable;
    if s.cnt < s.fill {
      var i, s' := s.cnt % |s.slots|, Step(s, Take(ok));
      assert Free(s.slots[i]) by { PostedIsFree(s, s.cnt); }
      TakeShape(s, i, ok);
      OthersPosted(s, s', i);
      forall k | s'.cnt <= k < s'.fill
        ensures Postable(At(s'.slots, k), s'.mode)
      {
        OtherTurn(s.cnt, k, |s.slots|);
      }
    }
  }

  lemma PostedIsFree(s: State, k: nat)
    requires Inv(s) && s.cnt <= k < s.fill
    ensures Free(s.slots[k % |s.slots|])
  {
    hide SlotOk, CopyOk;
    assert Postable(At(s.slots, k), s.mode);
  }

  // ----- Refilling -------------------------------------------------------------------------------------------

  lemma RefilledSlot(p: Slot, half: nat, base: nat)
    requires half > 0 && SlotOk(p, Raw, half) && PageAligned(base, half)
    ensures RefCnt(p.page) >= 0
    ensures p.canFlip ==> var q := Flip(p, half).(canFlip := false); SlotOk(q, Raw, half) && Postable(q, Raw)
    ensures RefCnt(p.page) == 0 && !p.canFlip ==> Postable(p, Raw)
    ensures SlotOk(Setup(base), Raw, half) && Postable(Setup(base), Raw)
  {
    hide PageAligned;
    FlipKeepsAddressed(p, half);
    if RefCnt(p.page) == 0 { NoRefs(p.page); }
  }

  lemma RefillKeepsInv(s: State, base: nat)
    requires Inv(s)
    ensures Inv(Step(s, Refill(base)))
  {
    hide SlotOk, CopyOk, Flip, Postable, Setup, PageAligned;
    if s.mode == Raw && s.fill < s.cnt + |s.slots| && PageAligned(base, s.half) {
      var i, s' := s.fill % |s.slots|, Step(s, Refill(base));
      RefilledSlot(s.slots[i], s.half, base);
      OthersPosted(s, s', i);
      forall k | s'.cnt <= k < s'.fill
        ensures Postable(At(s'.slots, k), s'.mode)
      {
        if k < s.fill {
          OtherTurn(k, s.fill, |s.slots|);
        }
      }
    }
  }

  // ----- The stack ----------------------------------------------------------------------------------------------

  /** References dropped or repeated on the page of slot `i`. */
  lemma StackKeepsInv(s: State, i: nat, page: PageRef)
    requires Inv(s) && i < |s.slots| && OnHalves(page)
    requires forall g :: g !in s.slots[i].page.refs ==> g !in page.refs
    ensures Inv(SetSlot(s, i, s.slots[i].(page := page)))
  {
    hide CopyOk, OnHalves, Addressed;
    var s' := SetSlot(s, i, s.slots[i].(page := page));
    assert SlotOk(s.slots[i], s.mode, s.half);
    AddressedSame(s.slots[i], s'.slots[i], s.half);
    forall k | s'.cnt <= k < s'.fill
      ensures Postable(At(s'.slots, k), s'.mode)
    {
      assert Postable(At(s.slots, k), s.mode);
    }
  }

  lemma AddressedSame(p: Slot, q: Slot, half: nat)
    requires half > 0 && Addressed(p, half) && q.offset == p.offset && q.base == p.base && q.addr == p.addr
    ensures Addressed(q, half)
  {
  }

  lemma PoolKeepsInv(s: State, j: nat, page: PageRef)
    requires Inv(s) && j < |s.pool| && OnHalves(page)
    requires forall g :: g !in s.pool[j].page.refs ==> g !in page.refs
    ensures Inv(s.(pool := s.pool[j := s.pool[j].(page := page)]))
  {
    hide SlotOk, OnHalves, Postable;
    assert CopyOk(s.pool[j], s.half);
  }

  lemma SlotPage(s: State, i: nat)
    requires Inv(s) && i < |s.slots|
    ensures OnHalves(s.slots[i].page)
  {
    assert SlotOk(s.slots[i], s.mode, s.half);
  }

  lemma PoolPage(s: State, j: nat)
    requires Inv(s) && j < |s.pool|
    ensures OnHalves(s.pool[j].page)
  {
    assert CopyOk(s.pool[j], s.half);
  }

  lemma RefsKeepInv(s: State, a: Action)
    requires Inv(s) && (a.StackDrop? || a.PoolDrop? || a.StackTake? || a.PoolTake?)
    ensures Inv(Step(s, a))
  {
    hide SlotOk, CopyOk, Postable, OnHalves, Drop, GetRef;
    match a
    case StackDrop(i, h) =>
      if i < |s.slots| {
        SlotPage(s, i);
        DropKeepsOnHalves(s.slots[i].page, h);
        StackKeepsInv(s, i, Drop(s.slots[i].page, h));
      }
    case PoolDrop(j, h) =>
      if j < |s.pool| {
        PoolPage(s, j);
        DropKeepsOnHalves(s.pool[j].page, h);
        PoolKeepsInv(s, j, Drop(s.pool[j].page, h));
      }
    case StackTake(i, h) =>
      if i < |s.slots| && Claims(s.slots[i].page.refs, 2) < INT_MAX - 1 {
        SlotPage(s, i);
        GetRefKeepsOnHalves(s.slots[i].page, h);
        StackKeepsInv(s, i, GetRef(s.slots[i].page, h));
      }
    case PoolTake(j, h) =>
      if j < |s.pool| && Claims(s.pool[j].page.refs, 2) < INT_MAX - 1 {
        PoolPage(s, j);
        GetRefKeepsOnHalves(s.pool[j].page, h);
        PoolKeepsInv(s, j, GetRef(s.pool[j].page, h));
      }
  }

  // ----- Runs -----------------------------------------------------------------------------------------------------

  lemma PollEndKeepsInv(s: State)
    requires Inv(s)
    ensures Inv(Step(s, PollEnd))
  {
    hide CopyOk, OnHalves, Addressed;
    var s' := Step(s, PollEnd);
    if s.mode == Qpl {
      forall k | s'.cnt <= k < s'.fill
        ensures Postable(At(s'.slots, k), s'.mode)
      {
        assert SlotOk(s.slots[k % |s.slots|], s.mode, s.half);
      }
    }
  }

  lemma StepKeepsInv(s: State, a: Action)
    requires Inv(s)
    ensures Inv(Step(s, a))
  {
    hide SlotOk, CopyOk, TakePacket, RefillOne, Postable, PageAligned;
    match a
    case Take(ok) => TakeKeepsInv(s, ok);
    case Skip =>
    case PollEnd => PollEndKeepsInv(s);
    case Refill(base) => RefillKeepsInv(s, base);
    case _ => RefsKeepInv(s, a);
  }

  ghost function Exec(s: State, actions: seq<Action>): (r: State)
    requires Inv(s)
    ensures Inv(r)
  {
    if actions == [] then s
    else
      var s' := Exec(s, actions[..|actions| - 1]);
      StepKeepsInv(s', actions[|actions| - 1]);
      Step(s', actions[|actions| - 1])
  }

  lemma InitInv(mode: Mode, half: nat, bases: seq<nat>, pool: nat)
    requires half > 0 && |bases| > 0 && pool > 0
    requires forall i :: 0 <= i < |bases| ==> PageAligned(bases[i], half)
    ensures Inv(Init(mode, half, bases, pool))
  {
    hide PageAligned;
    var s := Init(mode, half, bases, pool);
  }
}
