/**
 What SKBs hold of the GQI receive pages, kept apart from the driver: a packet
 kept, a reference dropped or taken, a page exchanged. The driver's pages are
 proved to agree with it, and nothing in it is ever posted or copied over.
 */
module RxGqiLedger {
  import opened PageRefs
  import opened RxGqiSpec
  import opened RxGqiProofs

  /** By slot and by pool page, the halves SKBs hold; `apart`: packets in pages of their own. */
  datatype Held = Held(slots: seq<multiset<nat>>, pool: seq<multiset<nat>>, apart: nat)

  /** Where a packet kept by the stack is afterwards. */
  datatype Keep = OnSlot(half: nat) | OnPool(j: nat, half: nat) | Apart

  /**
   In raw mode it stays where it was received. In QPL mode it does so if nobody
   holds anything of that page; else it is copied, to the pool page in turn if
   that is in the middle of its two uses or nobody holds anything of it.
   */
  function KeptAt(h: Held, s: State, i: nat): Keep
    requires i < |h.slots| == |s.slots| && |h.pool| == |s.pool| > 0
  {
    var (j, p) := (s.poolHead % |s.pool|, s.slots[i]);
    if s.mode == Raw || h.slots[i] == multiset{} then OnSlot(if p.offset == 0 then 0 else 1)
    else if s.pool[j].canFlip || h.pool[j] == multiset{} then OnPool(j, if s.pool[j].offset == 0 then 0 else 1)
    else Apart
  }

  function Plus(l: seq<multiset<nat>>, i: nat, half: nat): seq<multiset<nat>> {
    if i < |l| then l[i := l[i] + multiset{half}] else l
  }

  function Less(l: seq<multiset<nat>>, i: nat, half: nat): seq<multiset<nat>> {
    if i < |l| then l[i := l[i] - multiset{half}] else l
  }

  function Keeping(h: Held, i: nat, k: Keep): Held {
    match k
    case OnSlot(half) => h.(slots := Plus(h.slots, i, half))
    case OnPool(j, half) => h.(pool := Plus(h.pool, j, half))
    case Apart => h.(apart := h.apart + 1)
  }

  /** One more reference on a half already held, with room in the count and one for a half nobody holds. */
  predicate MayTake(refs: multiset<nat>, page: PageRef, half: nat) {
    half in refs && page.count < INT_MAX && Claims(refs, 2) < INT_MAX - 1
  }

  predicate Fits(h: Held, s: State) {
    |h.slots| == |s.slots| > 0 && |h.pool| == |s.pool| > 0 && s.half > 0
  }

  /** What a step does to SKBs. */
  function Record(h: Held, s: State, a: Action): Held
    requires Fits(h, s)
  {
    match a
    case Take(ok) =>
      var i := s.cnt % |s.slots|;
      if s.cnt < s.fill && ok then Keeping(h, i, KeptAt(h, s, i)) else h
    case Refill(base) =>
      var i := s.fill % |s.slots|;
      if s.mode == Raw && s.fill < s.cnt + |s.slots| && PageAligned(base, s.half)
         && !s.slots[i].canFlip && h.slots[i] != multiset{}
      then h.(slots := h.slots[i := multiset{}])
      else h
    case StackDrop(i, half) => h.(slots := Less(h.slots, i, half))
    case PoolDrop(j, half) => h.(pool := Less(h.pool, j, half))
    case StackTake(i, half) =>
      if i < |h.slots| && MayTake(h.slots[i], s.slots[i].page, half) then h.(slots := Plus(h.slots, i, half)) else h
    case PoolTake(j, half) =>
      if j < |h.pool| && MayTake(h.pool[j], s.pool[j].page, half) then h.(pool := Plus(h.pool, j, half)) else h
    case _ => h
  }

  ghost predicate Agrees(h: Held, s: State) {
    && Fits(h, s)
    && (forall i :: 0 <= i < |s.slots| ==> s.slots[i].page.refs == h.slots[i])
    && (forall j :: 0 <= j < |s.pool| ==> s.pool[j].page.refs == h.pool[j])
  }

  // ----- Taking a packet -----------------------------------------------------------------------------------

  lemma CountMeans(page: PageRef)
    requires PageRefs.Inv(page)
    ensures RefCnt(page) == 0 <==> page.refs == multiset{}
    ensures RefCnt(page) >= 0
  {
    assert |page.refs| == 0 <==> page.refs == multiset{};
  }

  lemma AddRefs(page: PageRef, half: nat)
    ensures AddFrag(page, half).refs == page.refs + multiset{half}
  {
  }

  /**
   A copy into the pool. The page in turn gets one more reference, on the half its
   offset names, and its other half is next; after its second use, or when it is
   passed over because an SKB still holds a part of it, the turn goes to the next
   page.
   */
  lemma CopyEffect(s: State, ok: bool)
    requires RxGqiProofs.Inv(s)
    ensures var j := s.poolHead % |s.pool|;
      var (c, s') := (s.pool[j], CopyToPool(s, ok));
      && s' == s.(pool := s'.pool, poolHead := s'.poolHead) && |s'.pool| == |s.pool|
      && (forall x :: 0 <= x < |s.pool| && x != j ==> s'.pool[x] == s.pool[x])
      && (if !c.canFlip && c.page.refs != multiset{} then
            s'.pool[j] == c && s'.poolHead == (s.poolHead + 1) % 0x1_0000_0000
          else if !ok then s' == s
          else
            && s'.pool[j].page.refs == c.page.refs + multiset{if c.offset == 0 then 0 else 1}
            && s'.pool[j].offset == (if c.offset == 0 then s.half else 0)
            && s'.pool[j].canFlip == !c.canFlip
            && s'.poolHead == if c.canFlip then (s.poolHead + 1) % 0x1_0000_0000 else s.poolHead)
  {
    hide SlotOk, Postable, AddFrag;
    var c := s.pool[PoolIndex(s)];
    PoolPage(s, PoolIndex(s));
    CountMeans(c.page);
    AddRefs(c.page, HalfOf(c.offset));
    assert CopyOk(c, s.half);
    AddIsFlip(c.offset, s.half);
  }

  /**
   A packet taken from slot `i`. If it is kept there, the page gets one more
   reference, on the half it was received in. The slot may flip exactly if nobody
   held anything of its page before; in QPL mode it then flips at once.
   */
  lemma TakeEffect(s: State, i: nat, ok: bool)
    requires RxGqiProofs.Inv(s) && i < |s.slots| && Free(s.slots[i])
    ensures var (p, s') := (s.slots[i], TakePacket(s, i, ok));
      var (alone, half) := (p.page.refs == multiset{}, if p.offset == 0 then 0 else 1);
      && |s'.slots| == |s.slots| && |s'.pool| == |s.pool| && s'.slots[i].canFlip == alone
      && (forall x :: 0 <= x < |s.slots| && x != i ==> s'.slots[x] == s.slots[x])
      && s'.slots[i].page.refs == p.page.refs + (if ok && (s.mode == Raw || alone) then multiset{half} else multiset{})
      && s'.slots[i].base == p.base
      && (if s.mode == Qpl && alone && ok then
            s'.slots[i].offset == (if p.offset == 0 then s.half else 0)
          else s'.slots[i].offset == p.offset && s'.slots[i].addr == p.addr)
      && (s.mode == Raw || alone ==> s'.pool == s.pool && s'.poolHead == s.poolHead)
      && (s.mode == Qpl && !alone ==>
            var m := SetSlot(s, i, p.(canFlip := false));
            s'.pool == CopyToPool(m, ok).pool && s'.poolHead == CopyToPool(m, ok).poolHead)
  {
    hide SlotOk, CopyOk, CopyToPool, AddFrag, Postable, OnHalves, PageAligned, Toggle;
    var p := s.slots[i];
    SlotPage(s, i);
    PageInv(p.page);
    CountMeans(p.page);
    AddRefs(p.page, HalfOf(p.offset));
    SlotAddressed(s, i);
    ZeroAligned(s.half);
    ToggleHalf(0, p.offset, s.half);
    if s.mode == Qpl && p.page.refs != multiset{} {
      CopyShape(SetSlot(s, i, p.(canFlip := false)), ok);
    }
  }

  lemma SlotAddressed(s: State, i: nat)
    requires RxGqiProofs.Inv(s) && i < |s.slots|
    ensures AtHalf(s.slots[i].offset, s.half)
  {
    assert SlotOk(s.slots[i], s.mode, s.half);
  }

  lemma CopyShape(s: State, ok: bool)
    requires Sane(s)
    ensures var s' := CopyToPool(s, ok);
      s' == s.(pool := s'.pool, poolHead := s'.poolHead) && |s'.pool| == |s.pool|
  {
    hide AddFrag;
  }

  /** The pages of two states agree with the ledger alike if they carry the same references. */
  lemma SameAgrees(h: Held, s: State, s': State)
    requires Agrees(h, s) && s'.slots == s.slots && s'.pool == s.pool && s'.half == s.half
    ensures Agrees(h, s')
  {
  }

  lemma TakeOnSlot(h: Held, s: State, i: nat, ok: bool)
    requires RxGqiProofs.Inv(s) && Agrees(h, s) && i < |s.slots| && Free(s.slots[i])
    requires s.mode == Raw || s.slots[i].page.refs == multiset{}
    ensures Agrees(if ok then Keeping(h, i, KeptAt(h, s, i)) else h, TakePacket(s, i, ok))
  {
    hide RxGqiProofs.Inv, TakePacket, CopyToPool;
    TakeEffect(s, i, ok);
    TakeKeepsShape(s, i, ok);
  }

  lemma TakeCopied(h: Held, s: State, i: nat, ok: bool)
    requires RxGqiProofs.Inv(s) && Agrees(h, s) && i < |s.slots| && Free(s.slots[i])
    requires s.mode == Qpl && s.slots[i].page.refs != multiset{}
    ensures Agrees(if ok then Keeping(h, i, KeptAt(h, s, i)) else h, TakePacket(s, i, ok))
  {
    hide RxGqiProofs.Inv, TakePacket, CopyToPool;
    var m := SetSlot(s, i, s.slots[i].(canFlip := false));
    TakeEffect(s, i, ok);
    TakeKeepsShape(s, i, ok);
    QplCopyInv(s, m, i);
    CopyEffect(m, ok);
  }

  /** A kept packet has exactly one new reference, and it is where the ledger says. */
  lemma TakeAgrees(h: Held, s: State, ok: bool)
    requires RxGqiProofs.Inv(s) && Agrees(h, s)
    ensures Agrees(Record(h, s, Take(ok)), Step(s, Take(ok)))
  {
    hide RxGqiProofs.Inv, TakePacket, Agrees, Keeping, KeptAt;
    AgreesFits(h, s);
    if s.cnt < s.fill {
      var i := s.cnt % |s.slots|;
      PostedIsFree(s, s.cnt);
      if s.mode == Raw || s.slots[i].page.refs == multiset{} {
        TakeOnSlot(h, s, i, ok);
      } else {
        TakeCopied(h, s, i, ok);
      }
      SameAgrees(Record(h, s, Take(ok)), TakePacket(s, i, ok), Step(s, Take(ok)));
    }
  }

  lemma AgreesFits(h: Held, s: State)
    requires Agrees(h, s)
    ensures Fits(h, s) && Sane(s)
  {
  }

  lemma TakeKeepsShape(s: State, i: nat, ok: bool)
    requires RxGqiProofs.Inv(s) && i < |s.slots| && Free(s.slots[i])
    ensures var s' := TakePacket(s, i, ok); s'.half == s.half && s'.mode == s.mode
  {
    hide RxGqiProofs.Inv, TakePacket, SlotOk, CopyOk;
    TakeShape(s, i, ok);
  }

  // ----- Refilling --------------------------------------------------------------------------------------------

  /**
   One turn of the refill loop: a slot that may flip turns to its other half, one
   nobody holds anything of stays as it is, any other gets the new page.
   */
  lemma RefillEffect(s: State, base: nat)
    requires RxGqiProofs.Inv(s) && s.mode == Raw
    ensures var i := s.fill % |s.slots|;
      var (p, s') := (s.slots[i], RefillOne(s, base));
      && s' == s.(fill := s.fill + 1, slots := s'.slots) && |s'.slots| == |s.slots|
      && (forall x :: 0 <= x < |s.slots| && x != i ==> s'.slots[x] == s.slots[x])
      && (if p.canFlip then
            s'.slots[i].page == p.page && s'.slots[i].base == p.base && !s'.slots[i].canFlip
            && s'.slots[i].offset == if p.offset == 0 then s.half else 0
          else if p.page.refs == multiset{} then s'.slots[i] == p
          else s'.slots[i].page == Fresh() && s'.slots[i].base == s'.slots[i].addr == base && s'.slots[i].offset == 0)
  {
    hide SlotOk, CopyOk, Postable, OnHalves, PageAligned, Toggle;
    var i := s.fill % |s.slots|;
    SlotPage(s, i);
    PageInv(s.slots[i].page);
    CountMeans(s.slots[i].page);
    SlotAddressed(s, i);
    ZeroAligned(s.half);
    ToggleHalf(0, s.slots[i].offset, s.half);
  }

  lemma RefillAgrees(h: Held, s: State, base: nat)
    requires RxGqiProofs.Inv(s) && Agrees(h, s)
    ensures Agrees(Record(h, s, Refill(base)), Step(s, Refill(base)))
  {
    hide RxGqiProofs.Inv, RefillOne, PageAligned;
    if s.mode == Raw {
      RefillEffect(s, base);
    }
  }

  lemma SlotPageAgrees(h: Held, s: State, i: nat, page: PageRef)
    requires Agrees(h, s) && i < |s.slots|
    ensures Agrees(h.(slots := h.slots[i := page.refs]), SetSlot(s, i, s.slots[i].(page := page)))
  {
  }

  lemma PoolPageAgrees(h: Held, s: State, j: nat, page: PageRef)
    requires Agrees(h, s) && j < |s.pool|
    ensures Agrees(h.(pool := h.pool[j := page.refs]), s.(pool := s.pool[j := s.pool[j].(page := page)]))
  {
  }

  lemma HeldIs(h: Held, s: State)
    requires Agrees(h, s)
    ensures forall i :: 0 <= i < |s.slots| ==> h.slots[i] == s.slots[i].page.refs
    ensures forall j :: 0 <= j < |s.pool| ==> h.pool[j] == s.pool[j].page.refs
  {
  }

  lemma StackAgrees(h: Held, s: State, a: Action)
    requires Agrees(h, s) && (a.StackDrop? || a.PoolDrop? || a.StackTake? || a.PoolTake?)
    ensures Fits(h, s) && Sane(s) && Agrees(Record(h, s, a), Step(s, a))
  {
    hide Agrees, Claims, Drop, GetRef;
    AgreesFits(h, s);
    HeldIs(h, s);
    match a
    case StackDrop(i, half) =>
      if i < |s.slots| {
        DropRefs(s.slots[i].page, half);
        SlotPageAgrees(h, s, i, Drop(s.slots[i].page, half));
      }
    case PoolDrop(j, half) =>
      if j < |s.pool| {
        DropRefs(s.pool[j].page, half);
        PoolPageAgrees(h, s, j, Drop(s.pool[j].page, half));
      }
    case StackTake(i, half) =>
      if i < |s.slots| {
        TakeRefs(s.slots[i].page, half);
        SlotPageAgrees(h, s, i, GetRef(s.slots[i].page, half));
        SlotUntouched(h, s, i);
      }
    case PoolTake(j, half) =>
      if j < |s.pool| {
        TakeRefs(s.pool[j].page, half);
        PoolPageAgrees(h, s, j, GetRef(s.pool[j].page, half));
        PoolUntouched(h, s, j);
      }
  }

  lemma SlotUntouched(h: Held, s: State, i: nat)
    requires Fits(h, s) && i < |s.slots|
    ensures h.(slots := h.slots[i := h.slots[i]]) == h
  {
    assert h.slots[i := h.slots[i]] == h.slots;
  }

  lemma PoolUntouched(h: Held, s: State, j: nat)
    requires Fits(h, s) && j < |s.pool|
    ensures h.(pool := h.pool[j := h.pool[j]]) == h
  {
    assert h.pool[j := h.pool[j]] == h.pool;
  }

  lemma RecordAgrees(h: Held, s: State, a: Action)
    requires RxGqiProofs.Inv(s) && Agrees(h, s)
    ensures Agrees(Record(h, s, a), Step(s, a))
  {
    hide RxGqiProofs.Inv, Record, Step;
    match a
    case Take(ok) => TakeAgrees(h, s, ok);
    case Refill(base) => RefillAgrees(h, s, base);
    case Skip => NothingRecorded(h, s, a);
    case PollEnd => NothingRecorded(h, s, a);
    case _ => StackAgrees(h, s, a);
  }

  lemma NothingRecorded(h: Held, s: State, a: Action)
    requires Agrees(h, s) && Sane(s) && (a.Skip? || a.PollEnd?)
    ensures Agrees(Record(h, s, a), Step(s, a))
  {
  }

  // ----- Every run ---------------------------------------------------------------------------------------------

  /** The ledger after a run. */
  ghost function Ledger(s: State, h: Held, actions: seq<Action>): (r: Held)
    requires RxGqiProofs.Inv(s) && Agrees(h, s)
    ensures Agrees(r, Exec(s, actions))
  {
    if actions == [] then h
    else
      var front := actions[..|actions| - 1];
      RecordAgrees(Ledger(s, h, front), Exec(s, front), actions[|actions| - 1]);
      Record(Ledger(s, h, front), Exec(s, front), actions[|actions| - 1])
  }

  function NothingHeld(slots: nat, pool: nat): Held {
    Held(seq(slots, _ => multiset{}), seq(pool, _ => multiset{}), 0)
  }

  lemma InitAgrees(mode: Mode, half: nat, bases: seq<nat>, pool: nat)
    requires half > 0 && |bases| > 0 && pool > 0
    requires forall i :: 0 <= i < |bases| ==> PageAligned(bases[i], half)
    ensures RxGqiProofs.Inv(Init(mode, half, bases, pool))
    ensures Agrees(NothingHeld(|bases|, pool), Init(mode, half, bases, pool))
  {
    hide PageAligned;
    InitInv(mode, half, bases, pool);
  }

  /**
   No SKB holds a half-page the NIC may write, the NIC's address is the one the
   driver believes in, and the page count tells exactly what SKBs hold.
   */
  lemma PostedHalvesAreFree(mode: Mode, half: nat, bases: seq<nat>, pool: nat, actions: seq<Action>, k: nat)
    requires half > 0 && |bases| > 0 && pool > 0
    requires forall i :: 0 <= i < |bases| ==> PageAligned(bases[i], half)
    ensures RxGqiProofs.Inv(Init(mode, half, bases, pool))
    ensures Agrees(NothingHeld(|bases|, pool), Init(mode, half, bases, pool))
    ensures var s := Exec(Init(mode, half, bases, pool), actions);
      var h := Ledger(Init(mode, half, bases, pool), NothingHeld(|bases|, pool), actions);
      && s.fill <= s.cnt + |s.slots| && |h.slots| == |s.slots|
      && (s.cnt <= k < s.fill ==>
            var (p, held) := (s.slots[k % |s.slots|], h.slots[k % |s.slots|]);
            && (if p.offset == 0 then 0 else 1) !in held
            && p.addr == p.base + p.offset && (p.offset == 0 || p.offset == s.half)
            && p.page.refs == held && p.page.count - p.page.bias == |held| && p.page.count >= 1)
  {
    hide PageAligned, Exec, Ledger, Claims;
    InitAgrees(mode, half, bases, pool);
    var s := Exec(Init(mode, half, bases, pool), actions);
    var h := Ledger(Init(mode, half, bases, pool), NothingHeld(|bases|, pool), actions);
    assert Agrees(h, s);
    if s.cnt <= k < s.fill {
      PostedIsFree(s, k);
      assert SlotOk(s.slots[k % |s.slots|], s.mode, s.half);
    }
  }

  /** A packet copied into the pool never overwrites a half an SKB holds; no page count falls below its bias. */
  lemma CopiesGoToFreeHalves(mode: Mode, half: nat, bases: seq<nat>, pool: nat, actions: seq<Action>)
    requires half > 0 && |bases| > 0 && pool > 0
    requires forall i :: 0 <= i < |bases| ==> PageAligned(bases[i], half)
    ensures RxGqiProofs.Inv(Init(mode, half, bases, pool))
    ensures Agrees(NothingHeld(|bases|, pool), Init(mode, half, bases, pool))
    ensures var s := Exec(Init(mode, half, bases, pool), actions);
      var h := Ledger(Init(mode, half, bases, pool), NothingHeld(|bases|, pool), actions);
      && |h.slots| == |s.slots| && |h.pool| == |s.pool| > 0
      && (var j := s.poolHead % |s.pool|;
          s.pool[j].canFlip || h.pool[j] == multiset{} ==> (if s.pool[j].offset == 0 then 0 else 1) !in h.pool[j])
      && (forall i :: 0 <= i < |s.slots| ==> RefCnt(s.slots[i].page) == |h.slots[i]|)
      && (forall j :: 0 <= j < |s.pool| ==> RefCnt(s.pool[j].page) == |h.pool[j]|)
  {
    hide PageAligned, Exec, Ledger, Claims;
    InitAgrees(mode, half, bases, pool);
    var s := Exec(Init(mode, half, bases, pool), actions);
    var h := Ledger(Init(mode, half, bases, pool), NothingHeld(|bases|, pool), actions);
    assert Agrees(h, s);
    assert CopyOk(s.pool[PoolIndex(s)], s.half);
    forall i | 0 <= i < |s.slots|
      ensures RefCnt(s.slots[i].page) == |h.slots[i]|
    {
      assert SlotOk(s.slots[i], s.mode, s.half);
    }
    forall j | 0 <= j < |s.pool|
      ensures RefCnt(s.pool[j].page) == |h.pool[j]|
    {
      assert CopyOk(s.pool[j], s.half);
    }
  }
}
