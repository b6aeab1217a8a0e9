/**
 The DQO receive ring as the driver keeps it: one `next` link per buffer state,
 list heads and tails, and a posted buffer pointing to itself. Its methods are
 proved against the moves of the state machine.
 */
module RxDqoRing {
  import opened Arith
  import opened Lists
  import opened PageRefs
  import opened Rings
  import opened RxDqoSpec
  import opened RxDqoProofs

  datatype Heads = Heads(free: int, recycledHead: int, recycledTail: int, usedHead: int, usedTail: int)

  /** The links and heads spell out the lists of `s`, and self links mark the posted buffers. */
  ghost predicate Links(next: seq<int>, h: Heads, s: Rx) {
    && |next| == |s.bufs|
    && Placed(s)
    && Chain(next, h.free, s.free)
    && Chain(next, h.recycledHead, s.recycled) && h.recycledTail == Final(s.recycled)
    && Chain(next, h.usedHead, s.used) && h.usedTail == Final(s.used)
    && (forall b :: 0 <= b < |next| ==> (next[b] == b <==> s.place[b] == Posted))
  }

  lemma InitIs(s: Rx, n: nat, chunks: nat, qpl: bool, hdrBufs: bool)
    requires |s.bufs| == |s.place| == |s.free| == n
    requires s == Rx(chunks, qpl, hdrBufs, s.bufs, s.place, s.free, [], [], 0, 0)
    requires forall b :: 0 <= b < n ==> s.bufs[b] == Buf(false, Fresh(), 0, 0, false)
    requires forall b :: 0 <= b < n ==> s.place[b] == Place.Free
    requires forall b :: 0 <= b < n ==> s.free[b] == b
    ensures s == Init(n, chunks, qpl, hdrBufs)
  {
  }

  lemma InitLinks(next: seq<int>, n: nat, chunks: nat, qpl: bool, hdrBufs: bool)
    requires n > 0 && |next| == n && next[n - 1] == -1 && RxInv(Init(n, chunks, qpl, hdrBufs))
    requires forall j :: 0 <= j < n - 1 ==> next[j] == j + 1
    ensures Links(next, Heads(0, -1, -1, -1, -1), Init(n, chunks, qpl, hdrBufs))
  {
    hide BufOk;
  }

  /** Only the lists matter for the links. */
  lemma LinksFrame(next: seq<int>, h: Heads, s: Rx, s': Rx)
    requires Links(next, h, s)
    requires |s'.bufs| == |s.bufs| && s'.place == s.place
    requires s'.free == s.free && s'.recycled == s.recycled && s'.used == s.used
    ensures Links(next, h, s')
  {
  }

  /** The links and heads alone say which buffers are where. */
  lemma LinksDetermineLists(next: seq<int>, h: Heads, s: Rx, s': Rx)
    requires Links(next, h, s) && Links(next, h, s')
    ensures s.free == s'.free && s.recycled == s'.recycled && s.used == s'.used
    ensures forall b :: 0 <= b < |next| ==> (s.place[b] == Posted <==> s'.place[b] == Posted)
    ensures NoDup(s.free) && NoDup(s.recycled) && NoDup(s.used)
  {
    hide Chain, NoDup, OnList;
    ChainIsUnique(next, h.free, s.free, s'.free);
    ChainIsUnique(next, h.recycledHead, s.recycled, s'.recycled);
    ChainIsUnique(next, h.usedHead, s.used, s'.used);
    ChainIsAcyclic(next, h.free, s.free);
    ChainIsAcyclic(next, h.recycledHead, s.recycled);
    ChainIsAcyclic(next, h.usedHead, s.used);
  }

  /** Unlinking the head of a chain and pointing it to itself. */
  lemma Unlink(next: seq<int>, head: int, l: seq<nat>)
    requires Chain(next, head, l) && NoDup(l) && |l| > 0
    ensures Chain(next[l[0] := l[0]], next[l[0]], l[1..])
    ensures Final(l[1..]) == if next[l[0]] == -1 then -1 else Final(l)
  {
    ChainPop(next, head, l);
    ChainFrame(next, next[l[0]], l[1..], l[0], l[0]);
    assert next[l[0]] == After(l, 0);
  }

  lemma LinkTakeFree(next: seq<int>, h: Heads, s: Rx)
    requires Links(next, h, s) && |s.free| > 0
    ensures var b := s.free[0]; Links(next[b := b], h.(free := next[b]), TakeFree(s))
  {
    hide Chain;
    var b := s.free[0];
    TakeKeepsPlaced(s);
    Unlink(next, h.free, s.free);
    ChainFrame(next, h.recycledHead, s.recycled, b, b);
    ChainFrame(next, h.usedHead, s.used, b, b);
  }

  lemma LinkTakeRecycled(next: seq<int>, h: Heads, s: Rx)
    requires Links(next, h, s) && |s.recycled| > 0
    ensures var b := s.recycled[0];
      Links(next[b := b],
            h.(recycledHead := next[b], recycledTail := if next[b] == -1 then -1 else h.recycledTail),
            TakeRecycled(s))
  {
    hide Chain;
    var b := s.recycled[0];
    TakeKeepsPlaced(s);
    Unlink(next, h.recycledHead, s.recycled);
    ChainFrame(next, h.free, s.free, b, b);
    ChainFrame(next, h.usedHead, s.used, b, b);
  }

  lemma LinkTakeUsed(next: seq<int>, h: Heads, s: Rx)
    requires Links(next, h, s) && |s.used| > 0
    ensures var b := s.used[0];
      Links(next[b := b],
            h.(usedHead := next[b], usedTail := if next[b] == -1 then -1 else h.usedTail),
            TakeUsed(s))
  {
    hide Chain;
    var b := s.used[0];
    TakeKeepsPlaced(s);
    Unlink(next, h.usedHead, s.used);
    ChainFrame(next, h.free, s.free, b, b);
    ChainFrame(next, h.recycledHead, s.recycled, b, b);
  }

  lemma LinkPutFree(next: seq<int>, h: Heads, s: Rx, b: nat)
    requires Links(next, h, s) && b < |next| && s.place[b] == Posted
    ensures Links(next[b := h.free], h.(free := b), PutFree(s, b))
  {
    PutKeepsPlaced(s, b);
    ChainPush(next, h.free, s.free, b);
    ChainFrame(next, h.recycledHead, s.recycled, b, h.free);
    ChainFrame(next, h.usedHead, s.used, b, h.free);
  }

  /** The links after appending `b` to a list with the given tail. */
  function Appended(next: seq<int>, tail: int, b: nat): seq<int>
    requires b < |next| && -1 <= tail < |next|
  {
    if tail == -1 then next[b := -1] else next[b := -1][tail := b]
  }

  lemma LinkAppend(next: seq<int>, head: int, l: seq<nat>, b: nat)
    requires Chain(next, head, l) && NoDup(l) && b < |next| && b !in l
    ensures -1 <= Final(l) < |next|
    ensures Chain(Appended(next, Final(l), b), if head == -1 then b else head, l + [b])
  {
    if |l| > 0 {
      ChainAppend(next, head, l, b);
    }
  }

  lemma AppendFrame(next: seq<int>, head: int, l: seq<nat>, tail: int, b: nat)
    requires Chain(next, head, l) && b < |next| && b !in l
    requires -1 <= tail < |next| && (tail >= 0 ==> tail !in l)
    ensures Chain(Appended(next, tail, b), head, l)
  {
  }

  lemma LinkPutRecycled(next: seq<int>, h: Heads, s: Rx, b: nat)
    requires Links(next, h, s) && b < |next| && s.place[b] == Posted
    ensures -1 <= h.recycledTail < |next|
    ensures Links(Appended(next, h.recycledTail, b),
                  h.(recycledHead := if h.recycledHead == -1 then b else h.recycledHead, recycledTail := b),
                  PutRecycled(s, b))
  {
    hide Chain;
    PutKeepsPlaced(s, b);
    LinkAppend(next, h.recycledHead, s.recycled, b);
    AppendFrame(next, h.free, s.free, h.recycledTail, b);
    AppendFrame(next, h.usedHead, s.used, h.recycledTail, b);
  }

  lemma LinkPutUsed(next: seq<int>, h: Heads, s: Rx, b: nat)
    requires Links(next, h, s) && b < |next| && s.place[b] == Posted
    ensures -1 <= h.usedTail < |next|
    ensures Links(Appended(next, h.usedTail, b),
                  h.(usedHead := if h.usedHead == -1 then b else h.usedHead, usedTail := b),
                  PutUsed(s, b))
  {
    hide Chain;
    PutKeepsPlaced(s, b);
    LinkAppend(next, h.usedHead, s.used, b);
    AppendFrame(next, h.free, s.free, h.usedTail, b);
    AppendFrame(next, h.recycledHead, s.recycled, h.usedTail, b);
  }

  /** Every buffer state linked to the next one. */
  method FreshLinks(n: nat) returns (next: array<int>)
    requires n > 0
    ensures fresh(next) && next.Length == n && next[n - 1] == -1
    ensures forall j :: 0 <= j < n - 1 ==> next[j] == j + 1
  {
    next := new int[n];
    for i := 0 to n - 1
      invariant forall j :: 0 <= j < i ==> next[j] == j + 1
    {
      next[i] := i + 1;
    }
    next[n - 1] := -1;
  }

  class RxRing {
    const chunks: nat
    const qpl: bool
    const hdrBufs: bool
    const next: array<int>
    const bufs: array<Buf>
    var freeHead: int
    var recycledHead: int
    var recycledTail: int
    var usedHead: int
    var usedTail: int
    var nextPage: nat
    var usedCnt: int

    // The lists the links stand for.
    ghost var place: seq<Place>
    ghost var free: seq<nat>
    ghost var recycled: seq<nat>
    ghost var used: seq<nat>

    ghost function State(): Rx
      reads this, bufs
    {
      Rx(chunks, qpl, hdrBufs, bufs[..], place, free, recycled, used, nextPage, usedCnt)
    }

    ghost predicate Linked()
      reads this, next, bufs
    {
      Links(next[..], Heads(freeHead, recycledHead, recycledTail, usedHead, usedTail), State())
    }

    /** Links in order and no chunk at risk. */
    ghost predicate Valid()
      reads this, next, bufs
    {
      Linked() && RxInv(State())
    }

    /** `gve_rx_init_ring_state_dqo`: every buffer state free, in order. */
    constructor (n: nat, chunks: nat, qpl: bool, hdrBufs: bool)
      requires n > 0 && 1 <= chunks < INT_MAX - 1
      ensures Valid() && fresh(next) && fresh(bufs)
      ensures State() == Init(n, chunks, qpl, hdrBufs)
    {
      this.chunks, this.qpl, this.hdrBufs := chunks, qpl, hdrBufs;
      var links := FreshLinks(n);
      next := links;
      bufs := new Buf[n](_ => Buf(false, Fresh(), 0, 0, false));
      freeHead, recycledHead, recycledTail, usedHead, usedTail := 0, -1, -1, -1, -1;
      nextPage, usedCnt := 0, 0;
      place, free, recycled, used := seq(n, _ => Place.Free), seq(n, i => i), [], [];
      new;
      hide Links, RxInv, Init;
      InitInv(n, chunks, qpl, hdrBufs);
      InitLinks(next[..], n, chunks, qpl, hdrBufs);
      InitIs(State(), n, chunks, qpl, hdrBufs);
    }

    /** What the links say about the lists. */
    lemma LinkedFacts()
      requires Linked()
      ensures Placed(State()) && InBounds(State()) && |place| == next.Length == bufs.Length
      ensures freeHead == First(free)
      ensures recycledHead == First(recycled) && recycledTail == Final(recycled)
      ensures usedHead == First(used) && usedTail == Final(used)
      ensures -1 <= recycledTail < next.Length && -1 <= usedTail < next.Length
    {
    }

    method AllocBufState() returns (b: int)
      requires Linked()
      modifies this, next
      ensures Linked()
      ensures b == First(old(free))
      ensures State() == if b == -1 then old(State()) else TakeFree(old(State()))
    {
      hide Links, Placed;
      LinkedFacts();
      b := freeHead;
      if b == -1 {
        return;
      }
      LinkTakeFree(next[..], Heads(freeHead, recycledHead, recycledTail, usedHead, usedTail), State());
      ghost var links := next[..];
      freeHead := next[b];
      next[b] := b;
      place, free := place[b := Posted], free[1..];
      assert next[..] == links[b := b];
    }

    method IsAllocated(b: nat) returns (r: bool)
      requires Linked() && b < next.Length
      ensures r <==> place[b] == Posted
    {
      r := next[b] == b;
    }

    method FreeBufState(b: nat)
      requires Linked() && b < next.Length && place[b] == Posted
      modifies this, next
      ensures Linked()
      ensures State() == PutFree(old(State()), b)
    {
      hide Links, Placed;
      LinkedFacts();
      LinkPutFree(next[..], Heads(freeHead, recycledHead, recycledTail, usedHead, usedTail), State(), b);
      ghost var links := next[..];
      next[b] := freeHead;
      freeHead := b;
      place, free := place[b := Free], [b] + free;
      assert next[..] == links[b := old(freeHead)];
    }

    /** `gve_dequeue_buf_state` on the recycled list. */
    method DequeueRecycled() returns (b: int)
      requires Linked()
      modifies this, next
      ensures Linked()
      ensures b == First(old(recycled))
      ensures State() == if b == -1 then old(State()) else TakeRecycled(old(State()))
    {
      hide Links, Placed;
      LinkedFacts();
      b := recycledHead;
      if b == -1 {
        return;
      }
      LinkTakeRecycled(next[..], Heads(freeHead, recycledHead, recycledTail, usedHead, usedTail), State());
      recycledHead := next[b];
      if next[b] == -1 {
        recycledTail := -1;
      }
      next[b] := b;
      place, recycled := place[b := Posted], recycled[1..];
      assert next[..] == old(next[..])[b := b];
      assert State() == TakeRecycled(old(State()));
    }

    /** `gve_dequeue_buf_state` on the used list. */
    method DequeueUsed() returns (b: int)
      requires Linked()
      modifies this, next
      ensures Linked()
      ensures b == First(old(used))
      ensures State() == if b == -1 then old(State()) else TakeUsed(old(State()))
    {
      hide Links, Placed;
      LinkedFacts();
      b := usedHead;
      if b == -1 {
        return;
      }
      LinkTakeUsed(next[..], Heads(freeHead, recycledHead, recycledTail, usedHead, usedTail), State());
      usedHead := next[b];
      if next[b] == -1 {
        usedTail := -1;
      }
      next[b] := b;
      place, used := place[b := Posted], used[1..];
      assert next[..] == old(next[..])[b := b];
      assert State() == TakeUsed(old(State()));
    }

    /** `gve_recycle_buf`: forget the header buffer and enqueue on the recycled list. */
    method RecycleBuf(b: nat)
      requires Linked() && b < next.Length && place[b] == Posted
      modifies this, next, bufs
      ensures Linked()
      ensures State() == PutRecycled(old(State()), b)
    {
      hide Links, Placed;
      LinkedFacts();
      LinkPutRecycled(next[..], Heads(freeHead, recycledHead, recycledTail, usedHead, usedTail), State(), b);
      bufs[b] := bufs[b].(hdr := false);
      next[b] := -1;
      if recycledHead == -1 {
        recycledHead := b;
      } else {
        next[recycledTail] := b;
      }
      recycledTail := b;
      place, recycled := place[b := Recycled], recycled + [b];
      assert next[..] == Appended(old(next[..]), old(recycledTail), b);
      assert bufs[..] == old(bufs[..])[b := old(bufs[..])[b].(hdr := false)];
      assert State() == PutRecycled(old(State()), b);
    }

    /** `gve_enqueue_buf_state` on the used list. */
    method EnqueueUsed(b: nat)
      requires Linked() && b < next.Length && place[b] == Posted
      modifies this, next
      ensures Linked()
      ensures State() == PutUsed(old(State()), b)
    {
      hide Links, Placed;
      LinkedFacts();
      LinkPutUsed(next[..], Heads(freeHead, recycledHead, recycledTail, usedHead, usedTail), State(), b);
      next[b] := -1;
      if usedHead == -1 {
        usedHead := b;
      } else {
        next[usedTail] := b;
      }
      usedTail := b;
      place, used := place[b := Used], used + [b];
      assert next[..] == Appended(old(next[..]), old(usedTail), b);
      assert State() == PutUsed(old(State()), b);
    }

    /** One look at the used list: keep the oldest entry if it is idle, else requeue it. */
    method TryOldestUsed() returns (b: int)
      requires Linked() && |used| > 0
      modifies this, next
      ensures Linked()
      ensures State() == ScanUsed(old(State()))
      ensures b == -1 ==> |used| == |old(used)|
      ensures b == if BufRefCnt(old(State()), old(used)[0]) == 0 then old(used)[0] else -1
    {
      hide Links, Placed;
      LinkedFacts();
      b := DequeueUsed();
      if RefCnt(bufs[b].page) == 0 {
        AddToUsedCnt(-1);
        return;
      }
      EnqueueUsed(b);
      RotateByRequeue(old(State()));
      b := -1;
    }

    /** Give up the oldest used page so that its buffer state becomes free. */
    method DiscardOldestUsed() returns (b: int)
      requires Linked() && |used| > 0
      modifies this, next, bufs
      ensures Linked()
      ensures State() == Discard(old(State()))
      ensures b == if BufRefCnt(old(State()), old(used)[0]) == 0 then old(used)[0] else -1
    {
      hide Links, Placed;
      LinkedFacts();
      b := DequeueUsed();
      if RefCnt(bufs[b].page) == 0 {
        return;
      }
      SetBuf(b, bufs[b].(hasPage := false));
      FreeBufState(b);
      b := -1;
    }

    /** Search a limited number of used buffers. */
    method SearchUsed(limit: nat) returns (b: int)
      requires Linked() && |used| > 0
      modifies this, next
      ensures Linked()
      ensures (State(), b) == Scan(old(State()), limit)
    {
      hide Links, Placed, ScanUsed;
      LinkedFacts();
      b := -1;
      var i := 0;
      while i < limit
        invariant 0 <= i <= limit && b == -1
        invariant Linked() && InBounds(State()) && |used| > 0
        invariant Scan(State(), limit - i) == Scan(old(State()), limit)
      {
        b := TryOldestUsed();
        if b != -1 {
          return;
        }
        LinkedFacts();
        i := i + 1;
      }
    }

    /** `gve_get_recycled_buf_state`. */
    method GetRecycledBufState() returns (b: int)
      requires Linked()
      modifies this, next, bufs
      ensures Linked()
      ensures (State(), b) == GetRecycled(old(State()))
    {
      hide Links, Placed, Scan;
      LinkedFacts();
      b := DequeueRecycled();
      if b != -1 {
        return;
      }
      LinkedFacts();
      if usedHead == -1 {
        return;
      }
      b := SearchUsed(SCAN_LIMIT);
      LinkedFacts();
      if b == -1 && !qpl && freeHead == -1 {
        b := DiscardOldestUsed();
      }
    }

    method MarkUsedBuf(b: nat)
      requires Linked() && b < next.Length && place[b] == Posted
      modifies this, next
      ensures Linked()
      ensures State() == MarkUsed(old(State()), b)
    {
      hide Links, Placed;
      LinkedFacts();
      EnqueueUsed(b);
      AddToUsedCnt(1);
    }

    method SetBuf(b: nat, buf: Buf)
      requires Linked() && b < next.Length
      modifies bufs
      ensures Linked()
      ensures State() == old(State()).(bufs := old(bufs[..])[b := buf])
    {
      bufs[b] := buf;
      assert bufs[..] == old(bufs[..])[b := buf];
    }

    /** `gve_try_recycle_buf`, after the fragment at `page_offset` went to an SKB. */
    method TryRecycleBuf(b: nat)
      requires Linked() && b < next.Length && place[b] == Posted && chunks >= 1
      modifies this, next, bufs
      ensures Linked()
      ensures State() == TryRecycle(old(State()), b)
    {
      hide Links, Placed;
      LinkedFacts();
      if chunks < 2 {
        MarkUsedBuf(b);
        return;
      }
      var buf := bufs[b];
      if RefCnt(buf.page) == 1 {
        buf := buf.(last := buf.off);
      }
      buf := buf.(off := (buf.off + 1) % chunks);
      SetBuf(b, buf);
      if buf.off == buf.last {
        MarkUsedBuf(b);
      } else {
        RecycleBuf(b);
      }
    }

    /** Attach the buffer to the SKB under construction, or copy it when buffers run low. */
    method DeliverBuf(b: nat, env: Env) returns (err: int)
      requires Linked() && b < next.Length && place[b] == Posted && chunks >= 1
      modifies this, next, bufs
      ensures Linked()
      ensures DeliverOrCopy(old(State()), env) ==
        if CopyOnDemand(old(State())) then Recycle(err) else Deliver
      ensures State() == if CopyOnDemand(old(State())) then PutRecycled(old(State()), b) else GiveFrag(old(State()), b)
      ensures !CopyOnDemand(old(State())) ==> err == 0
    {
      hide Links, Placed;
      LinkedFacts();
      if qpl && usedCnt >= bufs.Length - ONDEMAND_ALLOC_THRESHOLD {
        RecycleBuf(b);
        err := if env.page then 0 else ENOMEM;
        return;
      }
      SetBuf(b, bufs[b].(page := AddFrag(bufs[b].page, bufs[b].off)));
      TryRecycleBuf(b);
      err := 0;
    }

    /** `gve_rx_dqo`: one completion descriptor, whatever it says. */
    method Receive(d: CompDesc, ctx: Ctx, env: Env) returns (err: int)
      requires Valid()
      modifies this, next, bufs
      ensures Valid()
      ensures State() == Complete(old(State()), d, ctx, env)
      ensures err == Err(Verdict(old(State()), d, ctx, env))
    {
      hide Links, Placed, Complete, Verdict, BufOk;
      LinkedFacts();
      CompleteKeepsInv(State(), d, ctx, env);
      err := Dispatch(d, ctx, env);
    }

    /** The checks on a completion descriptor, in order, and what becomes of the buffer. */
    method Dispatch(d: CompDesc, ctx: Ctx, env: Env) returns (err: int)
      requires Linked() && chunks >= 1
      modifies this, next, bufs
      ensures Linked()
      ensures State() == Complete(old(State()), d, ctx, env)
      ensures err == Err(Verdict(old(State()), d, ctx, env))
    {
      hide Links, Placed, PutRecycled, GiveFrag, DeliverOrCopy;
      LinkedFacts();
      if d.bufId >= next.Length {
        return EINVAL;
      }
      var b := d.bufId;
      var posted := IsAllocated(b);
      if !posted {
        return EINVAL;
      }
      if d.rxError || (d.splitHeader && d.hdrLen == 0) || (d.hdrLen != 0 && !bufs[b].hdr) {
        RecycleBuf(b);
        return EINVAL;
      }
      if d.hdrOverflow && env.strictSplit {
        RecycleBuf(b);
        return EFAULT;
      }
      if d.splitHeader && !env.hdrSkb {
        RecycleBuf(b);
        return ENOMEM;
      }
      if d.splitHeader || ctx.Building? {
        if !d.splitHeader && ctx.nrFrags == MAX_SKB_FRAGS && !env.tailSkb {
          RecycleBuf(b);
          return ENOMEM;
        }
        err := DeliverBuf(b, env);
      } else if d.endOfPacket && d.packetLen <= env.copybreak {
        RecycleBuf(b);
        err := if env.copySkb then 0 else ENOMEM;
      } else if !env.fragSkb {
        RecycleBuf(b);
        err := ENOMEM;
      } else {
        err := DeliverBuf(b, env);
      }
    }

    /** `gve_alloc_page_dqo`. */
    method AllocPage(b: nat, pageOk: bool) returns (ok: bool)
      requires Linked() && b < next.Length
      modifies this`nextPage, bufs
      ensures Linked()
      ensures ok == !AllocFails(old(State()), pageOk)
      ensures State() == if ok then WithPage(old(State()), b) else old(State())
    {
      if if qpl then nextPage >= bufs.Length else !pageOk {
        return false;
      }
      bufs[b] := Buf(true, Fresh(), 0, 0, bufs[b].hdr);
      if qpl {
        nextPage := nextPage + 1;
      }
      assert bufs[..] == old(bufs[..])[b := bufs[b]];
      return true;
    }

    /** `gve_alloc_buf_state` followed by `gve_alloc_page_dqo`. */
    method UseFreeBuf(pageOk: bool) returns (b: int)
      requires Linked()
      modifies this, next, bufs
      ensures Linked()
      ensures (State(), b) == TakeFresh(old(State()), pageOk)
    {
      hide Links, Placed;
      LinkedFacts();
      b := AllocBufState();
      if b == -1 {
        return;
      }
      var ok := AllocPage(b, pageOk);
      if !ok {
        FreeBufState(b);
        TakeThenPutFree(old(State()));
        b := -1;
      }
    }

    /** A buffer to post, as at the top of the posting loop. */
    method ObtainBuf(pageOk: bool) returns (b: int)
      requires Linked()
      modifies this, next, bufs
      ensures Linked()
      ensures (State(), b) == Obtain(old(State()), pageOk)
    {
      hide Links, Placed;
      LinkedFacts();
      b := GetRecycledBufState();
      if b == -1 {
        b := UseFreeBuf(pageOk);
      }
    }

    /** The count is not part of the links. */
    method AddToUsedCnt(d: int)
      requires Linked()
      modifies this`usedCnt
      ensures Linked()
      ensures State() == old(State()).(usedCnt := old(usedCnt) + d)
    {
      hide Links;
      usedCnt := usedCnt + d;
      LinksFrame(next[..], Heads(freeHead, recycledHead, recycledTail, usedHead, usedTail), old(State()), State());
    }

    /** The buffer state goes into the queue entry together with its header buffer. */
    method DescribeBuf(b: nat) returns (desc: (nat, nat))
      requires Linked() && b < next.Length
      modifies bufs
      ensures Linked()
      ensures State() == Describe(old(State()), b)
      ensures desc == (b, bufs[b].off)
    {
      if hdrBufs {
        SetBuf(b, bufs[b].(hdr := true));
      }
      desc := (b, bufs[b].off);
    }
  }

  lemma TailStaysBehind(tail: nat, head: nat, k: nat, n: nat)
    requires head < n && tail < n && 0 < k && RingDistance(tail, head, n) + k < n
    ensures Slot(tail, k, n) != head
  {
    hide RingDistance;
    DistanceGrows(tail, head, k, n);
    NoDistance(head, n);
    DistanceBounds(tail, head, n);
  }

  lemma NoDistance(x: nat, n: nat)
    requires n > 0
    ensures RingDistance(x, x, n) == 0
  {
    ModIdem(0, n);
  }

  lemma DistanceBounds(x: nat, y: nat, n: nat)
    requires n > 0
    ensures 0 <= RingDistance(x, y, n) < n
  {
    RemainderBounds(x % n - y % n, n);
  }

  lemma HeadCatchesUp(tail: nat, head: nat, n: nat)
    requires tail < n && head < n && RingDistance(tail, head, n) > 0
    ensures RingDistance(tail, (head + 1) % n, n) == RingDistance(tail, head, n) - 1
  {
    hide RingDistance;
    DistanceOf(tail, head, n);
    if head + 1 == n {
      DivModUnique(n, n, 1, 0);
    } else {
      ModIdem(head + 1, n);
    }
    DistanceOf(tail, if head + 1 == n then 0 else head + 1, n);
  }

  lemma DistanceOf(x: nat, y: nat, n: nat)
    requires x < n && y < n
    ensures RingDistance(x, y, n) == if y <= x then x - y else x - y + n
  {
    ModIdem(x, n);
    ModIdem(y, n);
    if y <= x {
      ModIdem(x - y, n);
    } else {
      DivModUnique(x - y, n, -1, x - y + n);
    }
  }

  /** Buffer queue towards the device, and the free slots of the completion queue. */
  class BufQueue {
    const descs: array<(nat, nat)>
    var head: nat
    var tail: nat
    var freeSlots: int

    ghost function State(): Queue
      reads this, descs
    {
      Queue(descs[..], head, tail, freeSlots)
    }

    /** An empty queue of `n` slots, with `complSlots` completions to come */
    constructor (n: nat, complSlots: nat)
      requires n > 0
      ensures fresh(descs) && State() == Queue(seq(n, _ => (0, 0)), 0, 0, complSlots)
    {
      descs := new (nat, nat)[n](_ => (0, 0));
      head, tail, freeSlots := 0, 0, complSlots;
      new;
      assert descs[..] == seq(n, _ => (0, 0));
    }

    /**
     How many entries the posting loop may add: no more than completions can
     answer, and so few that the tail does not come round to the head.
     */
    method Available() returns (avail: int)
      requires head < descs.Length && tail < descs.Length
      ensures avail == Room(State())
      ensures avail <= freeSlots
      ensures avail >= 0 ==> RingDistance(tail, head, descs.Length) + avail <= descs.Length - 1
      ensures forall k :: 0 < k <= avail ==> Slot(tail, k, descs.Length) != head
    {
      var full := (tail - head) % descs.Length;
      ModIdem(tail, descs.Length);
      ModIdem(head, descs.Length);
      avail := descs.Length - 1 - full;
      avail := if freeSlots < avail then freeSlots else avail;
      forall k | 0 < k <= avail
        ensures Slot(tail, k, descs.Length) != head
      {
        TailStaysBehind(tail, head, k, descs.Length);
      }
    }

    method Push(desc: (nat, nat))
      requires tail < descs.Length
      modifies this, descs
      ensures State() == Pushed(old(State()), desc)
    {
      descs[tail] := desc;
      tail := (tail + 1) % descs.Length;
      freeSlots := freeSlots - 1;
    }

    /** A completion was taken: one buffer fewer is with the device, and there is room for one more. */
    method Reclaim()
      requires head < descs.Length && tail < descs.Length
      modifies this
      ensures State() == Reclaimed(old(State()))
      ensures old(RingDistance(tail, head, descs.Length)) > 0 ==>
        RingDistance(tail, head, descs.Length) == old(RingDistance(tail, head, descs.Length)) - 1
        && Room(State()) == old(Room(State())) + 1
    {
      if RingDistance(tail, head, descs.Length) > 0 {
        HeadCatchesUp(tail, head, descs.Length);
      }
      head := (head + 1) % descs.Length;
      freeSlots := freeSlots + 1;
    }
  }

  /** One round of the posting loop. */
  method PostOne(rx: RxRing, q: BufQueue, pageOk: bool) returns (b: int)
    requires rx.Linked() && q.tail < q.descs.Length
    modifies rx, rx.next, rx.bufs, q, q.descs
    ensures rx.Linked()
    ensures (rx.State(), q.State(), b) == PostRound(old(rx.State()), old(q.State()), pageOk)
  {
    hide Links, Obtain, Slot, Placed;
    rx.LinkedFacts();
    b := rx.ObtainBuf(pageOk);
    if b != -1 {
      rx.LinkedFacts();
      var desc := rx.DescribeBuf(b);
      q.Push(desc);
    }
  }

  /**
   `gve_rx_post_buffers_dqo`. `pageOk[i]` is what a page allocation in round `i`
   would answer.
   */
  method PostBuffers(rx: RxRing, q: BufQueue, pageOk: seq<bool>)
    requires rx.Valid() && q.head < q.descs.Length && q.tail < q.descs.Length && |pageOk| == Room(q.State())
    modifies rx, rx.next, rx.bufs, q, q.descs
    ensures rx.Valid()
    ensures var r := PostAll(old(rx.State()), old(q.State()), pageOk); rx.State() == r.0 && q.State() == r.1
  {
    hide Links, Room, PostRound, Placed, RxInv, RingDistance;
    rx.LinkedFacts();
    var avail := q.Available();
    DistanceBounds(q.tail, q.head, q.descs.Length);
    PostAllFills(rx.State(), q.State(), pageOk);
    var i := 0;
    while i < avail
      invariant 0 <= i <= avail
      invariant rx.Linked() && InBounds(rx.State()) && q.tail < q.descs.Length
      invariant var r := PostAll(old(rx.State()), old(q.State()), pageOk);
        var r' := PostAll(rx.State(), q.State(), pageOk[i..]);
        r.0 == r'.0 && r.1 == r'.1
    {
      assert pageOk[i..][1..] == pageOk[i + 1..];
      var b := PostOne(rx, q, pageOk[i]);
      if b == -1 {
        return;
      }
      i := i + 1;
    }
  }

  lemma TakeThenPutFree(s: Rx)
    requires Placed(s) && |s.free| > 0
    ensures PutFree(TakeFree(s), s.free[0]) == s
  {
    var b := s.free[0];
    assert s.place[b := Posted][b := Free] == s.place;
    assert [b] + s.free[1..] == s.free;
  }

  lemma RotateByRequeue(s: Rx)
    requires Placed(s) && |s.used| > 0
    ensures PutUsed(TakeUsed(s), s.used[0]) == RotateUsed(s)
  {
    var b := s.used[0];
    assert s.place[b := Posted][b := Used] == s.place;
  }
}
