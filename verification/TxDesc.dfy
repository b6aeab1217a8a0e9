/**
 DQO transmit descriptors: how a packet's buffers are cut into descriptors, how
 many there are, and how many ring slots are left.
 */
module TxDesc {
  import opened Arith
  import opened Rings

  const MAX_BUF: nat := 16383    // GVE_TX_MAX_BUF_SIZE_DQO
  const BOUNCE: nat := 2048      // GVE_TX_BUF_SIZE_DQO
  const MAX_DATA_DESCS: nat := 10
  const KEEP_FREE: nat := 4      // GVE_TX_MIN_DESC_PREVENT_CACHE_OVERLAP
  const MAX_UNSEGMENTED: nat := 9728  // the most the device takes without segmentation; the MTU is below that

  datatype Desc = TsoCtx | GeneralCtx | PktDesc(addr: nat, size: nat, eop: bool, tag: nat)

  datatype Buf = Buf(addr: nat, len: nat)

  /** `num_avail_tx_slots` */
  function NumAvail(n: nat, tail: nat, head: nat): int
    requires n > 0
  {
    n - 1 - RingDistance(tail, head, n)
  }

  function Min(a: nat, b: nat): nat {
    if a < b then a else b
  }

  /** `gve_num_descs_per_buf`: rounded up */
  function DescsPerBuf(len: nat): nat {
    (len + MAX_BUF - 1) / MAX_BUF
  }

  // ----- One buffer ---------------------------------------------------------------------------

  /** The descriptors of one buffer, last to first cut off the front. */
  function Pieces(b: Buf, tag: nat, eop: bool): seq<Desc>
    decreases b.len
  {
    if b.len == 0 then []
    else
      var n := Min(b.len, MAX_BUF);
      [PktDesc(b.addr, n, eop && n == b.len, tag)] + Pieces(Buf(b.addr + n, b.len - n), tag, eop)
  }

  /** The addresses a descriptor or a buffer stands for, in order. */
  function Addresses(addr: nat, len: nat): seq<nat> {
    seq(len, i requires i >= 0 => addr + i)
  }

  function Covered(ds: seq<Desc>): seq<nat> {
    if ds == [] then []
    else Spanned(ds[0]) + Covered(ds[1..])
  }

  function Spanned(d: Desc): seq<nat> {
    if d.PktDesc? then Addresses(d.addr, d.size) else []
  }

  lemma AddressesSplit(addr: nat, n: nat, m: nat)
    ensures Addresses(addr, n) + Addresses(addr + n, m) == Addresses(addr, n + m)
  {
  }

  lemma Associate(x: seq<nat>, y: seq<nat>, z: seq<nat>)
    ensures x + (y + z) == x + y + z
  {
  }

  lemma {:induction false} CoveredAppend(a: seq<Desc>, b: seq<Desc>)
    ensures Covered(a + b) == Covered(a) + Covered(b)
  {
    hide Spanned;
    if a == [] {
      assert a + b == b;
    } else {
      CoveredAppend(a[1..], b);
      assert (a + b)[1..] == a[1..] + b;
      Associate(Spanned(a[0]), Covered(a[1..]), Covered(b));
    }
  }

  lemma {:induction false} PiecesCover(b: Buf, tag: nat, eop: bool)
    ensures Covered(Pieces(b, tag, eop)) == Addresses(b.addr, b.len)
    decreases b.len
  {
    hide Addresses;
    if b.len > 0 {
      var n := Min(b.len, MAX_BUF);
      var ds := Pieces(b, tag, eop);
      PiecesCover(Buf(b.addr + n, b.len - n), tag, eop);
      assert ds[1..] == Pieces(Buf(b.addr + n, b.len - n), tag, eop);
      AddressesSplit(b.addr, n, b.len - n);
    } else {
      assert Addresses(b.addr, 0) == [] by { NoAddresses(b.addr); }
    }
  }

  lemma NoAddresses(addr: nat)
    ensures Addresses(addr, 0) == []
  {
  }

  /** As many pieces as computed beforehand, none too large, the mark on the last alone. */
  lemma {:induction false} PiecesShape(b: Buf, tag: nat, eop: bool)
    ensures var ds := Pieces(b, tag, eop);
      && |ds| == DescsPerBuf(b.len)
      && (forall i :: 0 <= i < |ds| ==> ds[i].PktDesc? && 0 < ds[i].size <= 16383 && ds[i].tag == tag)
      && (forall i :: 0 <= i < |ds| ==> (ds[i].eop <==> eop && i == |ds| - 1))
    decreases b.len
  {
    if b.len == 0 {
    } else {
      var n := Min(b.len, MAX_BUF);
      var rest := Pieces(Buf(b.addr + n, b.len - n), tag, eop);
      PiecesShape(Buf(b.addr + n, b.len - n), tag, eop);
      assert Pieces(b, tag, eop) == [PktDesc(b.addr, n, eop && n == b.len, tag)] + rest;
      assert n < b.len ==> |rest| > 0;
    }
  }

  // ----- One packet -----------------------------------------------------------------------------

  /** All buffers in turn; the mark is asked for on the last. */
  function Data(bufs: seq<Buf>, tag: nat, last: bool): seq<Desc> {
    if bufs == [] then []
    else Data(bufs[..|bufs| - 1], tag, false) + Pieces(bufs[|bufs| - 1], tag, last)
  }

  /** `gve_num_buffer_descs_needed` */
  function NumDescs(bufs: seq<Buf>): nat {
    if bufs == [] then 0 else NumDescs(bufs[..|bufs| - 1]) + DescsPerBuf(bufs[|bufs| - 1].len)
  }

  function BufAddresses(bufs: seq<Buf>): seq<nat> {
    if bufs == [] then [] else BufAddresses(bufs[..|bufs| - 1]) + Addresses(bufs[|bufs| - 1].addr, bufs[|bufs| - 1].len)
  }

  /** The descriptors cover the buffers exactly and in order, and number what was computed for them. */
  lemma {:induction false} DataCovers(bufs: seq<Buf>, tag: nat, last: bool)
    ensures var ds := Data(bufs, tag, last);
      && Covered(ds) == BufAddresses(bufs)
      && |ds| == NumDescs(bufs)
      && (forall i :: 0 <= i < |ds| ==> ds[i].PktDesc? && 0 < ds[i].size <= 16383 && ds[i].tag == tag)
    decreases |bufs|
  {
    hide Addresses, Pieces, DescsPerBuf;
    if bufs == [] {
    } else {
      var front, b := bufs[..|bufs| - 1], bufs[|bufs| - 1];
      DataCovers(front, tag, false);
      PiecesCover(b, tag, last);
      PiecesShape(b, tag, last);
      CoveredAppend(Data(front, tag, false), Pieces(b, tag, last));
    }
  }

  lemma {:induction false} NoEarlyMark(bufs: seq<Buf>, tag: nat)
    ensures var ds := Data(bufs, tag, false);
      forall i :: 0 <= i < |ds| ==> ds[i].PktDesc? && !ds[i].eop
    decreases |bufs|
  {
    hide Pieces;
    if bufs == [] {
    } else {
      NoEarlyMark(bufs[..|bufs| - 1], tag);
      LastData(bufs, tag, false);
      PiecesShape(bufs[|bufs| - 1], tag, false);
    }
  }

  /** One end-of-packet mark, on the last descriptor. */
  ghost predicate MarkedOnce(ds: seq<Desc>) {
    |ds| > 0 && forall i :: 0 <= i < |ds| ==> (ds[i].PktDesc? && ds[i].eop <==> i == |ds| - 1)
  }

  /** The mark is there exactly when the last buffer is not empty. */
  lemma MarkNeedsLastBuffer(bufs: seq<Buf>, tag: nat)
    requires bufs != []
    ensures MarkedOnce(Data(bufs, tag, true)) <==> bufs[|bufs| - 1].len > 0
  {
    hide Data, Pieces;
    var front, b := bufs[..|bufs| - 1], bufs[|bufs| - 1];
    var ds, ps := Data(bufs, tag, true), Pieces(b, tag, true);
    LastData(bufs, tag, true);
    NoEarlyMark(front, tag);
    PiecesShape(b, tag, true);
    var k := |Data(front, tag, false)|;
    if b.len > 0 {
      assert |ps| > 0;
    } else if |ds| > 0 {
      assert ds[|ds| - 1] == Data(front, tag, false)[k - 1];
    }
  }

  lemma LastData(bufs: seq<Buf>, tag: nat, last: bool)
    requires bufs != []
    ensures Data(bufs, tag, last) == Data(bufs[..|bufs| - 1], tag, false) + Pieces(bufs[|bufs| - 1], tag, last)
  {
  }

  // ----- What is asked for and what is written ----------------------------------------------------

  datatype Skb = Skb(linear: Buf, frags: seq<Buf>, gso: bool)

  function Bufs(p: Skb): seq<Buf> {
    [p.linear] + p.frags
  }

  function Len(bufs: seq<Buf>): nat {
    if bufs == [] then 0 else Len(bufs[..|bufs| - 1]) + bufs[|bufs| - 1].len
  }

  /** The buffers that get written, and the number of descriptors admission was asked for. */
  datatype Plan = Plan(bufs: seq<Buf>, count: nat)

  /** `gve_try_tx_skb` without bounce buffers; `at` is where a linearised copy would lie. */
  function PlanDirect(p: Skb, canTso: bool, at: nat): Plan {
    var whole := [Buf(at, Len(Bufs(p)))];
    if p.gso then
      var bufs := if canTso then Bufs(p) else whole;
      Plan(bufs, NumDescs(bufs))
    else if NumDescs(Bufs(p)) > MAX_DATA_DESCS then Plan(whole, 1)
    else Plan(Bufs(p), NumDescs(Bufs(p)))
  }

  lemma {:induction false} NumDescsBounds(bufs: seq<Buf>)
    ensures Len(bufs) == 0 ==> NumDescs(bufs) == 0
    ensures (forall i :: 0 <= i < |bufs| ==> bufs[i].len > 0) ==> NumDescs(bufs) >= |bufs|
    ensures forall i :: 0 <= i < |bufs| ==> bufs[i].len <= Len(bufs)
  {
    if bufs == [] {
    } else {
      NumDescsBounds(bufs[..|bufs| - 1]);
      forall i | 0 <= i < |bufs|
        ensures bufs[i].len <= Len(bufs)
      {
        if i < |bufs| - 1 { assert bufs[..|bufs| - 1][i] == bufs[i]; }
      }
    }
  }

  lemma WholeDescs(at: nat, len: nat)
    ensures NumDescs([Buf(at, len)]) == DescsPerBuf(len)
  {
    assert [Buf(at, len)][..0] == [] && NumDescs([]) == 0;
  }

  /**
   The count is right except for a packet linearised without segmentation that
   does not fit one descriptor. Then too many are written, never too few.
   */
  lemma DirectCountExact(p: Skb, canTso: bool, at: nat, tag: nat)
    ensures var plan := PlanDirect(p, canTso, at);
      && |Data(plan.bufs, tag, true)| == NumDescs(plan.bufs) >= plan.count
      && (|Data(plan.bufs, tag, true)| == plan.count <==>
            p.gso || NumDescs(Bufs(p)) <= MAX_DATA_DESCS || Len(Bufs(p)) <= MAX_BUF)
  {
    hide Data;
    var plan := PlanDirect(p, canTso, at);
    DataCovers(plan.bufs, tag, true);
    NumDescsBounds(Bufs(p));
    WholeDescs(at, Len(Bufs(p)));
  }

  /** Packets no longer than the device takes are counted right. */
  lemma CountExactWithinMtu(p: Skb, canTso: bool, at: nat, tag: nat)
    requires !p.gso ==> Len(Bufs(p)) <= MAX_UNSEGMENTED
    ensures var plan := PlanDirect(p, canTso, at); |Data(plan.bufs, tag, true)| == plan.count
  {
    DirectCountExact(p, canTso, at, tag);
  }

  /** A head of 20000 bytes and ten fragments of one: one descriptor is asked for, and two are written. */
  lemma LongPacketIsMiscounted(tag: nat)
    ensures var p := Skb(Buf(0, 20000), seq(10, _ => Buf(0, 1)), false);
      var plan := PlanDirect(p, false, 0);
      plan.count == 1 && |Data(plan.bufs, tag, true)| == 2
  {
    hide Data, Len, NumDescs;
    var p := Skb(Buf(0, 20000), seq(10, _ => Buf(0, 1)), false);
    NumDescsBounds(Bufs(p));
    assert Bufs(p)[0].len == 20000;
    LenOfOnes(Buf(0, 20000), 10);
    DirectCountExact(p, false, 0, tag);
    WholeDescs(0, Len(Bufs(p)));
  }

  lemma {:induction false} LenOfOnes(b: Buf, n: nat)
    ensures Len([b] + seq(n, _ => Buf(0, 1))) == b.len + n
  {
    var bufs := [b] + seq(n, _ => Buf(0, 1));
    if n == 0 {
      assert bufs[..0] == [] && Len([]) == 0;
    } else {
      LenOfOnes(b, n - 1);
      assert bufs[..|bufs| - 1] == [b] + seq(n - 1, _ => Buf(0, 1));
    }
  }

  /** A packet that ends in an empty fragment goes out without the mark. */
  lemma EmptyLastFragmentHasNoMark(tag: nat)
    ensures var plan := PlanDirect(Skb(Buf(0, 100), [Buf(0, 0)], false), false, 0);
      plan.bufs == [Buf(0, 100), Buf(0, 0)] && !MarkedOnce(Data(plan.bufs, tag, true))
  {
    hide Data, MarkedOnce;
    var bufs := [Buf(0, 100), Buf(0, 0)];
    assert Bufs(Skb(Buf(0, 100), [Buf(0, 0)], false)) == bufs;
    assert bufs[..1] == [Buf(0, 100)];
    WholeDescs(0, 100);
    assert NumDescs(bufs) == NumDescs(bufs[..1]) + DescsPerBuf(0) == 1;
    MarkNeedsLastBuffer(bufs, tag);
  }

  /** The bounce buffers at `addrs`, each full but the last. */
  function Bounce(addrs: seq<nat>, len: nat): seq<Buf>
    decreases len
  {
    if len == 0 || addrs == [] then []
    else [Buf(addrs[0], Min(BOUNCE, len))] + Bounce(addrs[1..], len - Min(BOUNCE, len))
  }

  /** With bounce buffers every buffer is one descriptor, and the last one carries the mark. */
  lemma {:induction false} BounceShape(addrs: seq<nat>, len: nat)
    requires |addrs| == (len + BOUNCE - 1) / BOUNCE
    ensures var bufs := Bounce(addrs, len);
      && |bufs| == |addrs|
      && (forall i :: 0 <= i < |bufs| ==> bufs[i].addr == addrs[i] && 0 < bufs[i].len <= BOUNCE)
    decreases len
  {
    if len == 0 {
    } else {
      BounceShape(addrs[1..], len - Min(BOUNCE, len));
    }
  }

  /** Bounce buffer `i` holds the bytes of the packet from `2048 * i` on, up to 2048 of them. */
  lemma {:induction false} BounceAt(addrs: seq<nat>, len: nat, i: nat)
    requires |addrs| == (len + BOUNCE - 1) / BOUNCE && i < |addrs|
    ensures |Bounce(addrs, len)| == |addrs| && 0 < len - i * BOUNCE
    ensures Bounce(addrs, len)[i] == Buf(addrs[i], if len - i * BOUNCE < 2048 then len - i * BOUNCE else 2048)
    decreases len
  {
    BounceShape(addrs, len);
    if i == 0 {
    } else {
      BounceAt(addrs[1..], len - Min(BOUNCE, len), i - 1);
    }
  }

  lemma {:induction false} LenFront(b: Buf, bufs: seq<Buf>)
    ensures Len([b] + bufs) == b.len + Len(bufs)
    decreases |bufs|
  {
    if bufs == [] {
      assert [b] + bufs == [b] && [b][..0] == [] && Len([]) == 0;
    } else {
      LenFront(b, bufs[..|bufs| - 1]);
      assert ([b] + bufs)[..|bufs|] == [b] + bufs[..|bufs| - 1];
    }
  }

  /** No byte more and none less than the packet has. */
  lemma {:induction false} BounceLen(addrs: seq<nat>, len: nat)
    requires |addrs| == (len + BOUNCE - 1) / BOUNCE
    ensures Len(Bounce(addrs, len)) == len
    decreases len
  {
    if len == 0 {
    } else {
      BounceLen(addrs[1..], len - Min(BOUNCE, len));
      LenFront(Buf(addrs[0], Min(BOUNCE, len)), Bounce(addrs[1..], len - Min(BOUNCE, len)));
    }
  }

  /** Buffers of one piece each: one descriptor for each. */
  lemma {:induction false} DataOfSmall(bufs: seq<Buf>, tag: nat, last: bool)
    requires forall i :: 0 <= i < |bufs| ==> 0 < bufs[i].len <= MAX_BUF
    ensures |Data(bufs, tag, last)| == |bufs|
    ensures forall i :: 0 <= i < |bufs| ==>
      Data(bufs, tag, last)[i] == PktDesc(bufs[i].addr, bufs[i].len, last && i == |bufs| - 1, tag)
    decreases |bufs|
  {
    if bufs == [] {
    } else {
      DataOfSmall(bufs[..|bufs| - 1], tag, false);
      var b := bufs[|bufs| - 1];
      assert Pieces(b, tag, last) == [PktDesc(b.addr, b.len, last, tag)];
    }
  }

  /**
   With bounce buffers a packet of `len` bytes is one descriptor for every 2048 of
   them, each over its own buffer and of the bytes that are in it, with the mark
   on the last; together they are `len` bytes.
   */
  lemma BounceCountExact(addrs: seq<nat>, len: nat, tag: nat)
    requires |addrs| == (len + BOUNCE - 1) / BOUNCE && len > 0
    ensures var ds := Data(Bounce(addrs, len), tag, true);
      && |ds| == (len + 2047) / 2048 && MarkedOnce(ds)
      && (forall i :: 0 <= i < |ds| ==>
            ds[i] == PktDesc(addrs[i], if len - i * 2048 < 2048 then len - i * 2048 else 2048, i == |ds| - 1, tag))
      && Len(Bounce(addrs, len)) == len
  {
    hide Data, Bounce, Len;
    var bufs := Bounce(addrs, len);
    BounceShape(addrs, len);
    BounceLen(addrs, len);
    DataOfSmall(bufs, tag, true);
    MarkNeedsLastBuffer(bufs, tag);
    var ds := Data(bufs, tag, true);
    forall i | 0 <= i < |ds|
      ensures 0 <= len - i * 2048
      ensures ds[i] == PktDesc(addrs[i], if len - i * 2048 < 2048 then len - i * 2048 else 2048, i == |ds| - 1, tag)
    {
      BounceAt(addrs, len, i);
    }
  }

  // ----- The ring -------------------------------------------------------------------------------------

  function Context(gso: bool): seq<Desc> {
    if gso then [TsoCtx, GeneralCtx] else [GeneralCtx]
  }

  /** Admission with `avail` free slots for a packet said to need `count` data descriptors. */
  predicate Admits(avail: int, gso: bool, count: nat) {
    avail >= |Context(gso)| + count + KEEP_FREE
  }

  predicate LeavesRoom(avail: int, written: nat) {
    avail - written >= KEEP_FREE
  }

  /**
   Admission leaves its slots free behind every packet exactly when the count
   it was asked for is not short of what is written.
   */
  lemma RoomLeftExactly(p: Skb, canTso: bool, at: nat, tag: nat)
    ensures var plan := PlanDirect(p, canTso, at);
      var written := |Context(p.gso) + Data(plan.bufs, tag, true)|;
      (forall avail :: Admits(avail, p.gso, plan.count) ==> LeavesRoom(avail, written))
      <==> p.gso || NumDescs(Bufs(p)) <= MAX_DATA_DESCS || Len(Bufs(p)) <= MAX_BUF
  {
    hide Data, NumDescs, Len;
    var plan := PlanDirect(p, canTso, at);
    DirectCountExact(p, canTso, at, tag);
    assert Admits(|Context(p.gso)| + plan.count + KEEP_FREE, p.gso, plan.count);
  }

  /** The slots and the driver's two indices into them. */
  datatype Slots = Slots(ring: seq<Desc>, tail: nat, head: nat)

  /** What a packet puts into the ring: nothing if it is not admitted. */
  function Outgoing(s: Slots, gso: bool, count: nat, bufs: seq<Buf>, tag: nat): seq<Desc>
    requires |s.ring| > 0
  {
    if Admits(NumAvail(|s.ring|, s.tail, s.head), gso, count) then Context(gso) + Data(bufs, tag, true) else []
  }

  function Appended(s: Slots, ds: seq<Desc>): Slots
    requires |s.ring| > 0
  {
    s.(ring := Put(s.ring, s.tail, ds), tail := Index(s.tail + |ds|, |s.ring|))
  }

  class DescRing {
    const ring: array<Desc>
    var tail: nat
    var head: nat  // copy of the head the device has reached

    ghost predicate Valid()
      reads this
    {
      0 < ring.Length && tail < ring.Length && head < ring.Length
    }

    ghost function State(): Slots
      reads this, ring
    {
      Slots(ring[..], tail, head)
    }

    constructor (n: nat)
      requires n > 0
      ensures Valid() && fresh(ring) && ring.Length == n && tail == head == 0
    {
      ring := new Desc[n](_ => GeneralCtx);
      tail, head := 0, 0;
    }

    /** `gve_tx_fill_pkt_desc_dqo` */
    method FillPktDesc(at: nat, b: Buf, tag: nat, eop: bool) returns (next: nat)
      requires Valid() && at < ring.Length
      modifies ring
      ensures ring[..] == Put(old(ring[..]), at, Pieces(b, tag, eop))
      ensures next == Index(at + |Pieces(b, tag, eop)|, ring.Length)
    {
      hide Index, Put;
      ghost var was, all := ring[..], Pieces(b, tag, eop);
      ghost var done: nat := 0;
      var addr, len: nat := b.addr, b.len;
      next := at;
      PutNone(was, at);
      assert all[..0] == [];
      IndexSelf(at, ring.Length);
      while len > 0
        invariant done <= |all| && all[done..] == Pieces(Buf(addr, len), tag, eop)
        invariant ring[..] == Put(was, at, all[..done])
        invariant next == Index(at + done, ring.Length)
        decreases len
      {
        var n := Min(len, MAX_BUF);
        assert all[done] == all[done..][0] == PktDesc(addr, n, eop && n == len, tag);
        assert all[done + 1..] == all[done..][1..];
        PutOne(was, at, all, done);
        ring[next] := PktDesc(addr, n, eop && n == len, tag);
        addr, len := addr + n, len - n;
        IndexNext(at + done, ring.Length);
        next := Index(next + 1, ring.Length);
        done := done + 1;
      }
      assert all[..done] == all;
    }

    static lemma IndexSelf(at: nat, n: nat)
      requires at < n
      ensures Index(at, n) == at
    {
      ModIdem(at, n);
    }

    /** One buffer more behind the `done` descriptors already written. */
    method FillNext(ghost was: seq<Desc>, at: nat, ghost done: seq<Desc>, idx: nat, b: Buf, tag: nat, eop: bool)
      returns (next: nat)
      requires Valid() && |was| == ring.Length && ring[..] == Put(was, at, done)
      requires idx == Index(at + |done|, ring.Length)
      modifies ring
      ensures ring[..] == Put(was, at, done + Pieces(b, tag, eop))
      ensures next == Index(at + |done + Pieces(b, tag, eop)|, ring.Length)
    {
      hide Index, Put, Pieces;
      ghost var ps := Pieces(b, tag, eop);
      PutAt(ring[..], at + |done|, ps);
      PutAppend(was, at, done, ps);
      IndexPlus(at + |done|, |ps|, ring.Length);
      next := FillPktDesc(idx, b, tag, eop);
    }

    /** The data descriptors of `gve_tx_add_skb_no_copy_dqo` and of the copy path */
    method FillData(ghost was: seq<Desc>, at: nat, ghost ctx: seq<Desc>, idx: nat, bufs: seq<Buf>, tag: nat)
      returns (next: nat)
      requires Valid() && |was| == ring.Length && ring[..] == Put(was, at, ctx)
      requires idx == Index(at + |ctx|, ring.Length)
      modifies ring
      ensures ring[..] == Put(was, at, ctx + Data(bufs, tag, true))
      ensures next == Index(at + |ctx| + |Data(bufs, tag, true)|, ring.Length)
    {
      hide Index, Put, Data, Pieces;
      next := idx;
      ghost var ds: seq<Desc> := [];
      NoData(tag);
      assert bufs[..0] == [] && ctx + [] == ctx;
      for i := 0 to |bufs|
        invariant ds == Data(bufs[..i], tag, i == |bufs|)
        invariant ring[..] == Put(was, at, ctx + ds)
        invariant next == Index(at + |ctx| + |ds|, ring.Length)
      {
        var eop := i == |bufs| - 1;
        LastData(bufs[..i + 1], tag, eop);
        assert bufs[..i + 1][..i] == bufs[..i];
        next := FillNext(was, at, ctx + ds, next, bufs[i], tag, eop);
        assert ctx + ds + Pieces(bufs[i], tag, eop) == ctx + (ds + Pieces(bufs[i], tag, eop));
        ds := ds + Pieces(bufs[i], tag, eop);
      }
      assert bufs[..|bufs|] == bufs;
    }

    static lemma NoData(tag: nat)
      ensures Data([], tag, false) == [] && Data([], tag, true) == []
    {
    }

    /** `gve_tx_add_skb_dqo`: a packet that fits takes as many slots as its buffers need. */
    method AddSkb(gso: bool, bufs: seq<Buf>, tag: nat)
      requires Valid()
      modifies ring, `tail
      ensures Valid()
      ensures ring[..] == Put(old(ring[..]), old(tail), Context(gso) + Data(bufs, tag, true))
      ensures tail == Index(old(tail) + |Context(gso)| + NumDescs(bufs), ring.Length)
      ensures NumAvail(ring.Length, old(tail), head) >= |Context(gso)| + NumDescs(bufs) ==>
        NumAvail(ring.Length, tail, head)
          == NumAvail(ring.Length, old(tail), head) - |Context(gso)| - NumDescs(bufs)
    {
      hide Index, Put, Data, NumAvail, NumDescs, Context;
      ghost var was := ring[..];
      var idx := FillContext(gso);
      DescCount(bufs, tag);
      AvailShrinks(ring.Length, tail, head, |Context(gso)| + NumDescs(bufs));
      tail := FillData(was, tail, Context(gso), idx, bufs, tag);
      IndexBelow(old(tail) + |Context(gso)| + NumDescs(bufs), ring.Length);
    }

    /** The context descriptors at the tail */
    method FillContext(gso: bool) returns (idx: nat)
      requires Valid()
      modifies ring
      ensures ring[..] == Put(old(ring[..]), tail, Context(gso)) && idx == Index(tail + |Context(gso)|, ring.Length)
    {
      hide Index, Put;
      ghost var was := ring[..];
      idx := tail;
      PutContext(was, tail, gso);
      IndexBelow(tail + 1, ring.Length);
      if gso {
        ring[idx] := TsoCtx;
        idx := Index(idx + 1, ring.Length);
      }
      ring[idx] := GeneralCtx;
      idx := Index(idx + 1, ring.Length);
    }

    static lemma IndexBelow(x: nat, n: nat)
      requires n > 0
      ensures Index(x, n) < n
    {
    }

    static lemma DescCount(bufs: seq<Buf>, tag: nat)
      ensures |Data(bufs, tag, true)| == NumDescs(bufs)
    {
      hide Data, NumDescs;
      DataCovers(bufs, tag, true);
    }

    static lemma AvailShrinks(n: nat, tail: nat, head: nat, k: nat)
      requires n > 0
      ensures NumAvail(n, tail, head) >= k ==> NumAvail(n, Index(tail + k, n), head) == NumAvail(n, tail, head) - k
    {
      hide RingDistance, Index;
      if NumAvail(n, tail, head) >= k {
        DistanceGrows(tail, head, k, n);
      }
    }

    /**
     `gve_try_tx_skb` without bounce buffers: the packet is taken exactly when
     the count it asks for fits. Four slots stay free behind it, unless it is
     longer than one descriptor and was linearised without segmentation.
     */
    method TrySend(p: Skb, canTso: bool, at: nat, tag: nat) returns (sent: bool)
      requires Valid()
      modifies ring, `tail
      ensures Valid()
      ensures var plan := PlanDirect(p, canTso, at);
        && (sent <==> Admits(NumAvail(ring.Length, old(tail), head), p.gso, plan.count))
        && (sent <==> NumAvail(ring.Length, old(tail), head) >= 1 + (if p.gso then 1 else 0) + plan.count + 4)
        && State() == Appended(old(State()), Outgoing(old(State()), p.gso, plan.count, plan.bufs, tag))
        && (sent ==> State() == Appended(old(State()), Context(p.gso) + Data(plan.bufs, tag, true)))
        && (!sent ==> State() == old(State()))
      ensures sent && (p.gso || NumDescs(Bufs(p)) <= MAX_DATA_DESCS || Len(Bufs(p)) <= MAX_BUF) ==>
        NumAvail(ring.Length, tail, head) >= KEEP_FREE
    {
      hide Index, Put, Data, NumAvail, NumDescs, Len;
      DirectCountExact(p, canTso, at, tag);
      var plan := PlanDirect(p, canTso, at);
      sent := NumAvail(ring.Length, tail, head) >= |Context(p.gso)| + plan.count + KEEP_FREE;
      AppendNone(State());
      if sent {
        AddSkb(p.gso, plan.bufs, tag);
      }
    }

    static lemma AppendNone(s: Slots)
      requires s.tail < |s.ring|
      ensures Appended(s, []) == s
    {
      hide Put, Index;
      PutNone(s.ring, s.tail);
      IndexSelf(s.tail, |s.ring|);
    }

    /** The head the completion thread has published */
    method UpdateHead(h: nat)
      requires Valid() && h < ring.Length
      modifies `head
      ensures Valid() && State() == old(State()).(head := h)
    {
      head := h;
    }

    /** The same with bounce buffers: the count asked for is always the count written. */
    method TrySendCopy(gso: bool, addrs: seq<nat>, len: nat, tag: nat) returns (sent: bool)
      requires Valid() && len > 0 && |addrs| == (len + BOUNCE - 1) / BOUNCE
      modifies ring, `tail
      ensures Valid()
      ensures sent <==> Admits(NumAvail(ring.Length, old(tail), head), gso, |addrs|)
      ensures sent <==> NumAvail(ring.Length, old(tail), head) >= 1 + (if gso then 1 else 0) + |addrs| + 4
      ensures State() == Appended(old(State()), Outgoing(old(State()), gso, |addrs|, Bounce(addrs, len), tag))
      ensures sent ==> State() == Appended(old(State()), Context(gso) + Data(Bounce(addrs, len), tag, true))
      ensures sent ==> NumAvail(ring.Length, tail, head) >= KEEP_FREE
      ensures !sent ==> State() == old(State())
    {
      hide Index, Put, Data, NumAvail, NumDescs, Bounce;
      BounceCountExact(addrs, len, tag);
      DataCovers(Bounce(addrs, len), tag, true);
      sent := NumAvail(ring.Length, tail, head) >= |Context(gso)| + |addrs| + KEEP_FREE;
      AppendNone(State());
      if sent {
        AddSkb(gso, Bounce(addrs, len), tag);
      }
    }

    static lemma PutContext(was: seq<Desc>, at: nat, gso: bool)
      requires |was| > 0 && at < |was|
      ensures Index(at, |was|) == at
      ensures !gso ==> Put(was, at, Context(gso)) == was[at := GeneralCtx]
      ensures gso ==> Put(was, at, Context(gso)) == was[at := TsoCtx][Index(at + 1, |was|) := GeneralCtx]
      ensures gso ==> Index(Index(at + 1, |was|) + 1, |was|) == Index(at + 2, |was|)
    {
      hide Index;
      IndexSelf(at, |was|);
      IndexNext(at + 1, |was|);
      PutNone(was, at);
      var c := Context(gso);
      assert c[..0] == [];
      PutOne(was, at, c, 0);
      if gso {
        PutOne(was, at, c, 1);
        assert c[..2] == c;
      } else {
        assert c[..1] == c;
      }
    }
  }
}
