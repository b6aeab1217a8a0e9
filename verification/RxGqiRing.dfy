/** The GQI receive ring: page infos, data slots and the copy pool, changed in place. */
module RxGqiRing {
  import opened Rings
  import opened Words
  import opened PageRefs
  import opened RxGqiSpec
  import opened RxGqiProofs

  /** Whether the next slot to refill must have a new page. */
  predicate NeedsPage(s: State)
    requires Sane(s)
  {
    var p := s.slots[s.fill % |s.slots|];
    !p.canFlip && RefCnt(p.page) > 0
  }

  ghost predicate Supply(pages: seq<nat>, half: nat) {
    half > 0 && forall i :: 0 <= i < |pages| ==> PageAligned(pages[i], half)
  }

  /** The refill loop: until the ring is full or the supply of pages is out. */
  ghost function RefillAll(s: State, pages: seq<nat>): (r: State)
    requires RxGqiProofs.Inv(s) && s.mode == Raw && Supply(pages, s.half)
    ensures RxGqiProofs.Inv(r) && r.mode == Raw && r.cnt == s.cnt && |r.slots| == |s.slots|
    decreases s.cnt + |s.slots| - s.fill
  {
    if s.fill == s.cnt + |s.slots| || (NeedsPage(s) && pages == []) then s
    else
      var base := if NeedsPage(s) then pages[0] else 0;
      RefillFacts(s, base);
      RefillAll(RefillOne(s, base), if NeedsPage(s) then pages[1..] else pages)
  }

  lemma RefillFacts(s: State, base: nat)
    requires RxGqiProofs.Inv(s) && s.mode == Raw && s.fill < s.cnt + |s.slots|
    requires NeedsPage(s) ==> PageAligned(base, s.half)
    ensures var r := RefillOne(s, base);
      && RxGqiProofs.Inv(r) && r == s.(fill := s.fill + 1, slots := r.slots) && |r.slots| == |s.slots|
      && RefCnt(s.slots[s.fill % |s.slots|].page) >= 0
  {
    hide SlotOk, CopyOk, Postable, Flip, Setup, PageAligned;
    var base' := if NeedsPage(s) then base else 0;
    ZeroAligned(s.half);
    RefilledSlot(s.slots[s.fill % |s.slots|], s.half, base');
    RefillKeepsInv(s, base');
    assert RefillOne(s, base) == RefillOne(s, base');
  }

  /** A refill stops only with a full ring or for want of a page; the slots before are never touched again. */
  lemma {:induction false} RefillStopsRight(s: State, pages: seq<nat>)
    requires RxGqiProofs.Inv(s) && s.mode == Raw && Supply(pages, s.half)
    ensures var r := RefillAll(s, pages);
      && s.fill <= r.fill <= s.cnt + |s.slots|
      && (r.fill < s.cnt + |s.slots| ==> NeedsPage(r))
      && (|pages| >= |s.slots| ==> r.fill == s.cnt + |s.slots|)
      && (|pages| >= s.cnt + |s.slots| - s.fill ==> r.fill == s.cnt + |s.slots|)
    decreases s.cnt + |s.slots| - s.fill
  {
    hide SlotOk, CopyOk, Postable, Flip, Setup, PageAligned, RefillOne;
    if s.fill == s.cnt + |s.slots| || (NeedsPage(s) && pages == []) {
    } else {
      var base := if NeedsPage(s) then pages[0] else 0;
      RefillFacts(s, base);
      RefillStopsRight(RefillOne(s, base), if NeedsPage(s) then pages[1..] else pages);
    }
  }

  /** The branches of the refill loop. */
  lemma RefillCases(s: State, pages: seq<nat>, base: nat, rest: seq<nat>)
    requires RxGqiProofs.Inv(s) && s.mode == Raw && s.fill < s.cnt + |s.slots| && Supply(pages, s.half)
    requires base == if NeedsPage(s) && pages != [] then pages[0] else 0
    requires rest == if NeedsPage(s) && pages != [] then pages[1..] else pages
    ensures var p := s.slots[s.fill % |s.slots|];
      RefCnt(p.page) >= 0 && (NeedsPage(s) <==> !p.canFlip && RefCnt(p.page) > 0)
    ensures NeedsPage(s) && pages == [] ==> RefillAll(s, pages) == s
    ensures !(NeedsPage(s) && pages == []) ==>
      var (i, r) := (s.fill % |s.slots|, RefillOne(s, base));
      && RxGqiProofs.Inv(r) && Supply(rest, s.half) && RefillAll(s, pages) == RefillAll(r, rest)
      && r == s.(fill := s.fill + 1, slots := r.slots) && |r.slots| == |s.slots|
      && r.slots == if s.slots[i].canFlip then s.slots[i := Flip(s.slots[i], s.half).(canFlip := false)]
                    else if RefCnt(s.slots[i].page) == 0 then s.slots
                    else s.slots[i := Setup(base)]
  {
    hide SlotOk, CopyOk, Postable, Flip, Setup, PageAligned;
    ZeroAligned(s.half);
    RefilledSlot(s.slots[s.fill % |s.slots|], s.half, 0);
    if !(NeedsPage(s) && pages == []) {
      RefillFacts(s, base);
    }
  }

  lemma RefillDone(s: State, pages: seq<nat>)
    requires RxGqiProofs.Inv(s) && s.mode == Raw && Supply(pages, s.half) && s.fill == s.cnt + |s.slots|
    ensures RefillAll(s, pages) == s
  {
  }

  class GqiRing {
    const mode: Mode
    const half: nat
    const slots: array<Slot>
    const pool: array<CopyPage>
    var poolHead: nat
    var cnt: nat    // 32-bit
    var fill: nat   // 32-bit
    var work: nat

    // The state of the machine this ring is in.
    ghost var s: State

    ghost predicate Valid()
      reads this, slots, pool
    {
      && mode == s.mode && half == s.half && slots[..] == s.slots && pool[..] == s.pool
      && poolHead == s.poolHead && cnt == U32(s.cnt) && fill == U32(s.fill) && work == s.work
      && slots.Length > 0 && WRAP % slots.Length == 0 && slots.Length < WRAP
      && RxGqiProofs.Inv(s)
    }

    /** `gve_prefill_rx_pages` */
    constructor (mode: Mode, half: nat, bases: seq<nat>, copies: nat)
      requires half > 0 && 0 < |bases| < WRAP && copies > 0 && WRAP % |bases| == 0
      requires forall i :: 0 <= i < |bases| ==> PageAligned(bases[i], half)
      ensures Valid() && fresh(slots) && fresh(pool)
      ensures s == Init(mode, half, bases, copies)
    {
      this.mode, this.half := mode, half;
      slots := new Slot[|bases|](i requires 0 <= i < |bases| => Setup(bases[i]));
      pool := new CopyPage[copies](_ => CopyPage(Fresh(), 0, false));
      poolHead, cnt, fill, work := 0, 0, |bases|, 0;
      s := Init(mode, half, bases, copies);
      new;
      InitInv(mode, half, bases, copies);
      assert slots[..] == s.slots && pool[..] == s.pool;
    }

    lemma Facts()
      requires Valid()
      ensures Sane(s) && slots.Length == |s.slots| > 0 && pool.Length == |s.pool| > 0 && half > 0
      ensures cnt % slots.Length == s.cnt % |s.slots| && fill % slots.Length == s.fill % |s.slots|
      ensures s.cnt <= s.fill <= s.cnt + |s.slots|
      ensures U32(fill - cnt) == s.fill - s.cnt
    {
      hide SlotOk, CopyOk, Postable, U32;
      IndexOfU32(s.cnt, slots.Length);
      IndexOfU32(s.fill, slots.Length);
      Difference(s.fill, s.cnt);
    }

    /** `gve_rx_can_recycle_buffer` */
    static method CanRecycle(page: PageRef) returns (r: int)
      ensures r == 1 <==> RefCnt(page) == 0
      ensures r == 0 <==> RefCnt(page) > 0
      ensures r == -1 <==> RefCnt(page) < 0
    {
      if page.count == page.bias {
        return 1;
      } else if page.count > page.bias {
        return 0;
      }
      return -1;
    }

    /** `gve_rx_copy_to_pool`, for a packet taken in state `m` */
    method CopyPacket(ok: bool, ghost m: State)
      requires Sane(m) && pool[..] == m.pool && poolHead == m.poolHead && half == m.half
      modifies `poolHead, pool
      ensures pool[..] == CopyToPool(m, ok).pool && poolHead == CopyToPool(m, ok).poolHead
    {
      hide AddFrag;
      var j := poolHead % pool.Length;
      var c := pool[j];
      var alloc := false;
      if !c.canFlip {
        var recycle := CanRecycle(c.page);
        if recycle < 0 {
          return;
        }
        alloc := recycle == 0;
      }
      if alloc {
        poolHead := NextHead(poolHead);
        return;
      }
      if !ok {
        return;
      }
      var page := DecPagecntBias(c.page, HalfOf(c.offset));
      pool[j] := CopyPage(page, (c.offset + half) % (2 * half), !c.canFlip);
      if c.canFlip {
        poolHead := NextHead(poolHead);
      }
    }

    /** `gve_rx_qpl`: flip at once, or copy the packet out */
    method RxQpl(idx: nat, p: Slot, ok: bool, ghost m: State)
      requires Sane(m) && slots[..] == m.slots && idx < slots.Length && slots[idx] == p
      requires pool[..] == m.pool && poolHead == m.poolHead && half == m.half
      modifies `poolHead, slots, pool
      ensures var r := if !p.canFlip then CopyToPool(m, ok)
                       else SetSlot(m, idx, if !ok then p
                                            else Flip(p.(page := AddFrag(p.page, HalfOf(p.offset))), half));
        slots[..] == r.slots && pool[..] == r.pool && poolHead == r.poolHead
    {
      hide CopyToPool, Flip, AddFrag;
      if p.canFlip {
        if ok {
          var page := DecPagecntBias(p.page, HalfOf(p.offset));
          slots[idx] := Flip(p.(page := page), half);
        }
      } else {
        CopyKeepsSlots(m, ok);
        CopyPacket(ok, m);
      }
    }

    static lemma CopyKeepsSlots(m: State, ok: bool)
      requires Sane(m)
      ensures CopyToPool(m, ok).slots == m.slots
    {
    }

    /** The pages' part of `gve_rx_skb`, beyond the copybreak */
    method TakeFrom(idx: nat, ok: bool, ghost m: State)
      requires Sane(m) && idx < slots.Length && slots[..] == m.slots && mode == m.mode
      requires pool[..] == m.pool && poolHead == m.poolHead && half == m.half
      modifies `poolHead, slots, pool
      ensures var r := TakePacket(m, idx, ok);
        slots[..] == r.slots && pool[..] == r.pool && poolHead == r.poolHead
    {
      hide CopyToPool, Flip, AddFrag;
      var p := slots[idx];
      var recycle := CanRecycle(p.page);
      if recycle < 0 {
        return;
      }
      p := p.(canFlip := recycle == 1);
      slots[idx] := p;
      if mode == Raw {
        if ok {
          var page := DecPagecntBias(p.page, HalfOf(p.offset));
          slots[idx] := p.(page := page);
        }
      } else {
        RxQpl(idx, p, ok, SetSlot(m, idx, p));
      }
    }

    /** `gve_rx_skb` on the oldest posted slot */
    method RxSkb(ok: bool)
      requires Valid() && s.cnt < s.fill
      modifies `poolHead, `cnt, `work, `s, slots, pool
      ensures Valid() && Sane(old(s)) && s == Step(old(s), Take(ok))
    {
      hide RxGqiProofs.Inv, TakePacket, U32;
      Facts();
      TakenFacts(s, ok);
      TakeFrom(cnt % slots.Length, ok, s);
      Advanced(s.cnt, 1);
      cnt := U32(cnt + 1);
      work := work + 1;
      s := Step(s, Take(ok));
    }

    static lemma TakenFacts(s: State, ok: bool)
      requires RxGqiProofs.Inv(s) && s.cnt < s.fill
      ensures Sane(s) && RxGqiProofs.Inv(Step(s, Take(ok)))
      ensures var s' := Step(s, Take(ok));
        && s'.cnt == s.cnt + 1 && s'.work == s.work + 1 && s'.fill == s.fill && s'.mode == s.mode && s'.half == s.half
        && |s'.slots| == |s.slots|
        && s'.slots == TakePacket(s, s.cnt % |s.slots|, ok).slots
        && s'.pool == TakePacket(s, s.cnt % |s.slots|, ok).pool
        && s'.poolHead == TakePacket(s, s.cnt % |s.slots|, ok).poolHead
    {
      hide SlotOk, CopyOk, Postable, TakePacket;
      PostedIsFree(s, s.cnt);
      TakeShape(s, s.cnt % |s.slots|, ok);
      StepKeepsInv(s, Take(ok));
    }

    /** `gve_rx_refill_buffers`, with `pages` the pages the allocator can give */
    method RefillBuffers(pages: seq<nat>)
      requires Valid() && mode == Raw && Supply(pages, half)
      modifies `fill, `s, slots
      ensures Valid() && RxGqiProofs.Inv(old(s)) && s == RefillAll(old(s), pages)
    {
      hide RxGqiProofs.Inv, U32, Flip, RefillAll, RefillOne, NeedsPage, PageAligned;
      var rest := pages;
      Facts();
      while U32(fill - cnt) < slots.Length
        invariant Valid() && Supply(rest, half)
        invariant RefillAll(s, rest) == RefillAll(old(s), pages)
        decreases s.cnt + |s.slots| - s.fill
      {
        Facts();
        var idx := fill % slots.Length;
        var p := slots[idx];
        ghost var base := if NeedsPage(s) && rest != [] then rest[0] else 0;
        ghost var left := if NeedsPage(s) && rest != [] then rest[1..] else rest;
        RefillCases(s, rest, base, left);
        if p.canFlip {
          slots[idx] := Flip(p, half).(canFlip := false);
        } else {
          var recycle := CanRecycle(p.page);
          if recycle == 0 {
            if rest == [] {
              return;
            }
            slots[idx] := Setup(rest[0]);
            rest := rest[1..];
          }
        }
        Advanced(s.fill, 1);
        fill := U32(fill + 1);
        s := RefillOne(s, base);
      }
      Facts();
      RefillDone(s, rest);
    }
  }
}
