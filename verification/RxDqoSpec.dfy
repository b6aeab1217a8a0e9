/**
 DQO receive buffers as a state machine. Every buffer state is in exactly one
 place; a page is cut into `chunks` buffer-sized pieces and used round robin;
 the stack drops references whenever it likes.
 */
module RxDqoSpec {
  import opened Arith
  import opened Lists
  import opened PageRefs
  import opened Rings

  const EINVAL := 22
  const EFAULT := 14
  const ENOMEM := 12
  const MAX_SKB_FRAGS := 17
  const ONDEMAND_ALLOC_THRESHOLD := 96
  const SCAN_LIMIT: nat := 5

  datatype Place = Free | Recycled | Used | Posted

  /** `off` and `last` are `page_offset` and `last_single_ref_offset` in chunks. */
  datatype Buf = Buf(hasPage: bool, page: PageRef, off: nat, last: nat, hdr: bool)

  datatype Rx = Rx(
    chunks: nat, qpl: bool, hdrBufs: bool,
    bufs: seq<Buf>, place: seq<Place>,
    free: seq<nat>, recycled: seq<nat>, used: seq<nat>,
    nextPage: nat, usedCnt: int)

  // ----- Invariant ---------------------------------------------------------------

  /** `c` lies in the cyclic range from `last` up to, but not including, `off`. */
  predicate InRange(last: nat, off: nat, c: nat) {
    if last < off then last <= c < off
    else if off < last then last <= c || c < off
    else false
  }

  ghost predicate PageOk(chunks: nat, b: Buf) {
    && b.hasPage && b.off < chunks && b.last < chunks
    && Inv(b.page)
    && Covered(b.page.refs, chunks)
  }

  ghost predicate BufOk(chunks: nat, p: Place, b: Buf) {
    match p
    case Free => true
    case Used => PageOk(chunks, b) && b.off == b.last
    case _ => PageOk(chunks, b) && forall c :: c in b.page.refs ==> InRange(b.last, b.off, c)
  }

  ghost predicate Placed(s: Rx) {
    && |s.place| == |s.bufs|
    && OnList(s.place, s.free, Free)
    && OnList(s.place, s.recycled, Recycled)
    && OnList(s.place, s.used, Used)
  }

  ghost predicate RxInv(s: Rx) {
    && Placed(s)
    && 1 <= s.chunks < INT_MAX - 1
    && (forall b :: 0 <= b < |s.bufs| ==> BufOk(s.chunks, s.place[b], s.bufs[b]))
    && (s.qpl ==> s.nextPage + |s.free| == |s.bufs| && s.usedCnt == |s.used|)
  }

  // ----- Moving buffers between places -------------------------------------------

  function TakeRecycled(s: Rx): Rx
    requires |s.recycled| > 0 && s.recycled[0] < |s.place|
  {
    s.(recycled := s.recycled[1..], place := s.place[s.recycled[0] := Posted])
  }

  function TakeUsed(s: Rx): Rx
    requires |s.used| > 0 && s.used[0] < |s.place|
  {
    s.(used := s.used[1..], place := s.place[s.used[0] := Posted])
  }

  function TakeFree(s: Rx): Rx
    requires |s.free| > 0 && s.free[0] < |s.place|
  {
    s.(free := s.free[1..], place := s.place[s.free[0] := Posted])
  }

  function PutRecycled(s: Rx, b: nat): Rx
    requires b < |s.place| == |s.bufs|
  {
    s.(recycled := s.recycled + [b], place := s.place[b := Recycled], bufs := s.bufs[b := s.bufs[b].(hdr := false)])
  }

  function PutUsed(s: Rx, b: nat): Rx
    requires b < |s.place|
  {
    s.(used := s.used + [b], place := s.place[b := Used])
  }

  function PutFree(s: Rx, b: nat): Rx
    requires b < |s.place|
  {
    s.(free := [b] + s.free, place := s.place[b := Free])
  }

  function RotateUsed(s: Rx): Rx
    requires |s.used| > 0
  {
    s.(used := s.used[1..] + [s.used[0]])
  }

  // ----- One step each ------------------------------------------------------------

  function BufRefCnt(s: Rx, b: nat): int
    requires b < |s.bufs|
  {
    RefCnt(s.bufs[b].page)
  }

  /** Look at the oldest used buffer: take it if nobody refers to it, else send it to the back. */
  function ScanUsed(s: Rx): Rx
    requires |s.used| > 0 && s.used[0] < |s.place| == |s.bufs|
  {
    if BufRefCnt(s, s.used[0]) == 0 then TakeUsed(s).(usedCnt := s.usedCnt - 1)
    else RotateUsed(s)
  }

  /** Without a QPL and without free states: give up on the oldest used page. */
  function Discard(s: Rx): Rx
    requires |s.used| > 0 && s.used[0] < |s.place| == |s.bufs|
  {
    var b := s.used[0];
    if BufRefCnt(s, b) == 0 then TakeUsed(s)
    else PutFree(TakeUsed(s).(bufs := s.bufs[b := s.bufs[b].(hasPage := false)]), b)
  }

  /** Buffer `b` gets a fresh page, in QPL mode the next one of the list. */
  function WithPage(s: Rx, b: nat): Rx
    requires b < |s.bufs|
  {
    s.(bufs := s.bufs[b := Buf(true, Fresh(), 0, 0, s.bufs[b].hdr)],
       nextPage := if s.qpl then s.nextPage + 1 else s.nextPage)
  }

  /** A free buffer state gets a fresh page. */
  function AllocFresh(s: Rx): Rx
    requires |s.free| > 0 && s.free[0] < |s.place| == |s.bufs|
  {
    WithPage(TakeFree(s), s.free[0])
  }

  /** A QPL has one page per buffer state; otherwise the page allocator decides. */
  function AllocFails(s: Rx, pageOk: bool): bool {
    if s.qpl then s.nextPage >= |s.bufs| else !pageOk
  }

  /** The buffer queue entry: with header split on, a header buffer is attached. */
  function Describe(s: Rx, b: nat): Rx
    requires b < |s.bufs|
  {
    if s.hdrBufs then s.(bufs := s.bufs[b := s.bufs[b].(hdr := true)]) else s
  }

  // ----- Obtaining a buffer to post --------------------------------------------------

  predicate InBounds(s: Rx) {
    && |s.place| == |s.bufs|
    && (forall i :: 0 <= i < |s.free| ==> s.free[i] < |s.place|)
    && (forall i :: 0 <= i < |s.recycled| ==> s.recycled[i] < |s.place|)
    && (forall i :: 0 <= i < |s.used| ==> s.used[i] < |s.place|)
  }

  /** At most `tries` looks at the used list; the buffer found, or -1. */
  function Scan(s: Rx, tries: nat): (r: (Rx, int))
    requires InBounds(s) && |s.used| > 0
    ensures InBounds(r.0)
    ensures r.1 == -1 ==> |r.0.used| == |s.used|
    ensures -1 <= r.1 < |r.0.bufs|
    decreases tries
  {
    if tries == 0 then (s, -1)
    else if BufRefCnt(s, s.used[0]) == 0 then (ScanUsed(s), s.used[0])
    else Scan(ScanUsed(s), tries - 1)
  }

  function GetRecycled(s: Rx): (r: (Rx, int))
    requires InBounds(s)
    ensures InBounds(r.0) && -1 <= r.1 < |r.0.bufs|
  {
    if |s.recycled| > 0 then (TakeRecycled(s), s.recycled[0])
    else if |s.used| == 0 then (s, -1)
    else
      var (s', b) := Scan(s, SCAN_LIMIT);
      if b != -1 || s'.qpl || |s'.free| > 0 then (s', b)
      else (Discard(s'), if BufRefCnt(s', s'.used[0]) == 0 then s'.used[0] else -1)
  }

  /** A free state with a fresh page, or -1. */
  function TakeFresh(s: Rx, pageOk: bool): (r: (Rx, int))
    requires InBounds(s)
    ensures InBounds(r.0) && -1 <= r.1 < |r.0.bufs|
  {
    var none: int := -1;
    if |s.free| == 0 || AllocFails(s, pageOk) then (s, none) else (AllocFresh(s), s.free[0])
  }

  /** A recycled buffer if there is one, else a fresh one. */
  function Obtain(s: Rx, pageOk: bool): (r: (Rx, int))
    requires InBounds(s)
    ensures InBounds(r.0) && -1 <= r.1 < |r.0.bufs|
  {
    var (s', b) := GetRecycled(s);
    if b != -1 then (s', b) else TakeFresh(s', pageOk)
  }

  // ----- The posting loop ------------------------------------------------------------

  /** Buffer queue towards the device: entries are (buffer id, chunk). */
  datatype Queue = Queue(ring: seq<(nat, nat)>, head: nat, tail: nat, freeSlots: int)

  /** Slots the posting loop may fill. */
  function Room(q: Queue): int
    requires |q.ring| > 0
  {
    var room := |q.ring| - 1 - RingDistance(q.tail, q.head, |q.ring|);
    if q.freeSlots < room then q.freeSlots else room
  }

  function Pushed(q: Queue, desc: (nat, nat)): Queue
    requires q.tail < |q.ring|
  {
    q.(ring := q.ring[q.tail := desc], tail := Slot(q.tail, 1, |q.ring|), freeSlots := q.freeSlots - 1)
  }

  /** What taking a completion gives back to the posting loop. */
  function Reclaimed(q: Queue): Queue
    requires |q.ring| > 0
  {
    q.(head := Slot(q.head, 1, |q.ring|), freeSlots := q.freeSlots + 1)
  }

  function PostRound(s: Rx, q: Queue, pageOk: bool): (r: (Rx, Queue, int))
    requires InBounds(s) && q.tail < |q.ring|
    ensures InBounds(r.0) && r.1.tail < |r.1.ring| == |q.ring| && -1 <= r.2 < |r.0.bufs|
  {
    var (s', b) := Obtain(s, pageOk);
    if b == -1 then (s', q, b)
    else
      var s'' := Describe(s', b);
      (s'', Pushed(q, (b, s''.bufs[b].off)), b)
  }

  /**
   One round per element of `pageOk`, which also says whether a page allocation
   would succeed in that round; the loop stops at the first failure.
   */
  function PostAll(s: Rx, q: Queue, pageOk: seq<bool>): (r: (Rx, Queue, seq<nat>))
    requires InBounds(s) && q.tail < |q.ring|
    decreases |pageOk|
  {
    if pageOk == [] then (s, q, [])
    else
      var (s', q', b) := PostRound(s, q, pageOk[0]);
      if b == -1 then (s', q', [])
      else
        var (end, endq, rest) := PostAll(s', q', pageOk[1..]);
        (end, endq, [b] + rest)
  }

  /** A received fragment: the chunk goes to the SKB, the page moves on or waits. */
  function TryRecycle(s: Rx, b: nat): Rx
    requires b < |s.place| == |s.bufs|
  {
    var buf := s.bufs[b];
    if s.chunks < 2 then MarkUsed(s, b)
    else
      var last := if RefCnt(buf.page) == 1 then buf.off else buf.last;
      var off := (buf.off + 1) % s.chunks;
      var s' := s.(bufs := s.bufs[b := buf.(last := last, off := off)]);
      if off == last then MarkUsed(s', b) else PutRecycled(s', b)
  }

  function MarkUsed(s: Rx, b: nat): Rx
    requires b < |s.place|
  {
    PutUsed(s, b).(usedCnt := s.usedCnt + 1)
  }

  function GiveFrag(s: Rx, b: nat): Rx
    requires b < |s.place| == |s.bufs|
  {
    TryRecycle(s.(bufs := s.bufs[b := s.bufs[b].(page := AddFrag(s.bufs[b].page, s.bufs[b].off))]), b)
  }

  function StackDrop(s: Rx, b: nat, c: nat): Rx
    requires b < |s.bufs|
  {
    s.(bufs := s.bufs[b := s.bufs[b].(page := Drop(s.bufs[b].page, c))])
  }

  /**
   One more reference on a chunk the stack already refers to, while the page
   count has room for it and for one reference on every chunk not referred to.
   */
  function StackTake(s: Rx, b: nat, c: nat): Rx
    requires b < |s.bufs|
  {
    var page := s.bufs[b].page;
    if Claims(page.refs, s.chunks) < INT_MAX - 1
    then s.(bufs := s.bufs[b := s.bufs[b].(page := GetRef(page, c))])
    else s
  }

  // ----- The completion handler ------------------------------------------------------

  datatype CompDesc = CompDesc(bufId: nat, rxError: bool, splitHeader: bool, hdrLen: nat,
                               hdrOverflow: bool, endOfPacket: bool, packetLen: nat)

  /** The SKB under construction: none, or one with so many fragments on its tail. */
  datatype Ctx = NoSkb | Building(nrFrags: nat)

  /** Settings, and which of the allocations along the way succeed. */
  datatype Env = Env(strictSplit: bool, copybreak: nat,
                     hdrSkb: bool, tailSkb: bool, copySkb: bool, fragSkb: bool, page: bool)

  datatype Outcome = Reject(err: int) | Recycle(err: int) | Deliver

  function CopyOnDemand(s: Rx): bool {
    s.qpl && s.usedCnt >= |s.bufs| - ONDEMAND_ALLOC_THRESHOLD
  }

  function DeliverOrCopy(s: Rx, env: Env): Outcome {
    if CopyOnDemand(s) then Recycle(if env.page then 0 else ENOMEM) else Deliver
  }

  function Verdict(s: Rx, d: CompDesc, ctx: Ctx, env: Env): Outcome
    requires |s.place| == |s.bufs|
  {
    if d.bufId >= |s.bufs| || s.place[d.bufId] != Posted then Reject(EINVAL)
    else if d.rxError || (d.splitHeader && d.hdrLen == 0) || (d.hdrLen != 0 && !s.bufs[d.bufId].hdr)
    then Recycle(EINVAL)
    else if d.hdrOverflow && env.strictSplit then Recycle(EFAULT)
    else if d.splitHeader && !env.hdrSkb then Recycle(ENOMEM)
    else if d.splitHeader || ctx.Building? then
      if !d.splitHeader && ctx.nrFrags == MAX_SKB_FRAGS && !env.tailSkb then Recycle(ENOMEM)
      else DeliverOrCopy(s, env)
    else if d.endOfPacket && d.packetLen <= env.copybreak then Recycle(if env.copySkb then 0 else ENOMEM)
    else if !env.fragSkb then Recycle(ENOMEM)
    else DeliverOrCopy(s, env)
  }

  function Complete(s: Rx, d: CompDesc, ctx: Ctx, env: Env): Rx
    requires |s.place| == |s.bufs|
  {
    match Verdict(s, d, ctx, env)
    case Reject(_) => s
    case Recycle(_) => PutRecycled(s, d.bufId)
    case Deliver => GiveFrag(s, d.bufId)
  }

  /** The error the handler returns; 0 if there is none. */
  function Err(o: Outcome): int {
    match o
    case Reject(e) => e
    case Recycle(e) => e
    case Deliver => 0
  }

  /** The SKB in hand after a completion handled without error. */
  function Continued(d: CompDesc, ctx: Ctx, env: Env): Ctx {
    if d.splitHeader then Building(1)
    else if ctx.Building? then Building(if ctx.nrFrags == MAX_SKB_FRAGS then 1 else ctx.nrFrags + 1)
    else if d.endOfPacket && d.packetLen <= env.copybreak then Building(0)
    else Building(1)
  }

  /** An error loses the SKB, the end of its packet delivers it. */
  function NextCtx(d: CompDesc, ctx: Ctx, env: Env, err: int): Ctx {
    if err != 0 || d.endOfPacket then NoSkb else Continued(d, ctx, env)
  }

  // ----- Whole runs --------------------------------------------------------------------

  datatype Action =
    | ReuseRecycled
    | ScanOneUsed
    | DiscardUsed
    | UseFree(pageOk: bool)
    | Completion(d: CompDesc, ctx: Ctx, env: Env)
    | DropRef(b: nat, c: nat)
    | TakeRef(b: nat, c: nat)

  function Step(s: Rx, a: Action): Rx {
    if !(|s.place| == |s.bufs|) then s else
    match a
    case ReuseRecycled =>
      if |s.recycled| > 0 && s.recycled[0] < |s.place| then Describe(TakeRecycled(s), s.recycled[0]) else s
    case ScanOneUsed =>
      if |s.used| > 0 && s.used[0] < |s.place| then Posting(ScanUsed(s), s.used[0]) else s
    case DiscardUsed =>
      if !s.qpl && |s.free| == 0 && |s.used| > 0 && s.used[0] < |s.place| then Posting(Discard(s), s.used[0]) else s
    case UseFree(pageOk) =>
      if |s.free| > 0 && s.free[0] < |s.place| && !AllocFails(s, pageOk) then Describe(AllocFresh(s), s.free[0]) else s
    case Completion(d, ctx, env) => Complete(s, d, ctx, env)
    case DropRef(b, c) => if b < |s.bufs| then StackDrop(s, b, c) else s
    case TakeRef(b, c) => if b < |s.bufs| then StackTake(s, b, c) else s
  }

  function Posting(s: Rx, b: nat): Rx
    requires b < |s.place| == |s.bufs|
  {
    if s.place[b] == Posted then Describe(s, b) else s
  }

  function Exec(s: Rx, actions: seq<Action>): Rx
    decreases |actions|
  {
    if actions == [] then s
    else Step(Exec(s, actions[..|actions| - 1]), actions[|actions| - 1])
  }

  function Init(n: nat, chunks: nat, qpl: bool, hdrBufs: bool): Rx {
    Rx(chunks, qpl, hdrBufs,
       seq(n, _ => Buf(false, Fresh(), 0, 0, false)), seq(n, _ => Free),
       seq(n, i => i), [], [], 0, 0)
  }
}
