/** What every step of the DQO receive machine keeps, and what follows for whole runs. */
module RxDqoProofs {
  import opened Arith
  import opened Lists
  import opened PageRefs
  import opened RxDqoSpec

  // ----- Lists and places ----------------------------------------------------------

  /** Taking the oldest member off a list and posting it. */
  lemma TakeKeepsPlaced(s: Rx)
    requires Placed(s)
    ensures |s.recycled| > 0 ==> Placed(TakeRecycled(s))
    ensures |s.used| > 0 ==> Placed(TakeUsed(s))
    ensures |s.free| > 0 ==> Placed(TakeFree(s))
  {
    if |s.recycled| > 0 {
      OnListPop(s.place, s.recycled, Recycled, Posted);
      OnListFrame(s.place, s.used, Used, s.recycled[0], Posted);
      OnListFrame(s.place, s.free, Free, s.recycled[0], Posted);
    }
    if |s.used| > 0 {
      OnListPop(s.place, s.used, Used, Posted);
      OnListFrame(s.place, s.recycled, Recycled, s.used[0], Posted);
      OnListFrame(s.place, s.free, Free, s.used[0], Posted);
    }
    if |s.free| > 0 {
      OnListPop(s.place, s.free, Free, Posted);
      OnListFrame(s.place, s.recycled, Recycled, s.free[0], Posted);
      OnListFrame(s.place, s.used, Used, s.free[0], Posted);
    }
  }

  /** Putting a posted buffer on a list. */
  lemma PutKeepsPlaced(s: Rx, b: nat)
    requires Placed(s) && b < |s.place| && s.place[b] == Posted
    ensures Placed(PutRecycled(s, b)) && Placed(PutUsed(s, b)) && Placed(PutFree(s, b))
  {
    OnListAppend(s.place, s.recycled, Recycled, b);
    OnListAppend(s.place, s.used, Used, b);
    OnListPrepend(s.place, s.free, Free, b);
    OnListFrame(s.place, s.recycled, Recycled, b, Used);
    OnListFrame(s.place, s.recycled, Recycled, b, Free);
    OnListFrame(s.place, s.used, Used, b, Recycled);
    OnListFrame(s.place, s.used, Used, b, Free);
    OnListFrame(s.place, s.free, Free, b, Recycled);
    OnListFrame(s.place, s.free, Free, b, Used);
  }

  // ----- One page ---------------------------------------------------------------------

  /** The posted chunk is free, so a fragment on it keeps the references counted. */
  lemma FragKeepsPage(chunks: nat, b: Buf)
    requires 1 <= chunks < INT_MAX - 1 && BufOk(chunks, Posted, b)
    ensures PageOk(chunks, b.(page := AddFrag(b.page, b.off)))
  {
    hide Claims;
    FragKeepsCovered(b.page.refs, chunks, b.off);
    AddFragKeepsInvExactly(b.page, b.off);
  }

  /**
   The inference from a bare count. With a single reference left, it is the one
   just handed out; otherwise the references stay within the range that grew by
   one chunk, unless the range closed and the page has to wait.
   */
  lemma RotationIsSafe(chunks: nat, b: Buf, b': Buf)
    requires 2 <= chunks < INT_MAX - 1 && BufOk(chunks, Posted, b)
    requires var page := AddFrag(b.page, b.off);
      b' == b.(page := page, last := if RefCnt(page) == 1 then b.off else b.last, off := (b.off + 1) % chunks)
    ensures BufOk(chunks, if b'.off == b'.last then Used else Recycled, b')
  {
    FragKeepsPage(chunks, b);
    NextChunk(chunks, b.off);
    if RefCnt(b'.page) == 1 {
      OnlyRef(b.page.refs, b.off);
    }
    forall c | c in b'.page.refs && b'.off != b'.last
      ensures InRange(b'.last, b'.off, c)
    {
      assert c == b.off || c in b.page.refs;
      RangeGrows(chunks, b'.last, b.off, c);
    }
  }

  /** With one chunk per page, the page waits for its only reference. */
  lemma LoneChunkWaits(chunks: nat, b: Buf)
    requires chunks == 1 && BufOk(chunks, Posted, b)
    ensures BufOk(chunks, Used, b.(page := AddFrag(b.page, b.off)))
  {
    FragKeepsPage(chunks, b);
  }

  lemma NextChunk(chunks: nat, off: nat)
    requires off < chunks
    ensures (off + 1) % chunks == if off + 1 == chunks then 0 else off + 1
  {
  }

  lemma RangeGrows(chunks: nat, last: nat, off: nat, c: nat)
    requires last < chunks && off < chunks && c < chunks
    requires c == off || InRange(last, off, c)
    ensures var next := if off + 1 == chunks then 0 else off + 1;
      next == last || InRange(last, next, c)
  {
  }

  lemma OnlyRef(refs: multiset<nat>, c: nat)
    requires |refs + multiset{c}| == 1
    ensures refs == multiset{}
  {
    assert |refs + multiset{c}| == |refs| + 1;
  }

  // ----- One step ------------------------------------------------------------------------

  lemma InvShape(s: Rx)
    requires RxInv(s)
    ensures InBounds(s)
  {
  }

  lemma InvFacts(s: Rx, b: nat)
    requires RxInv(s) && b < |s.bufs|
    ensures |s.place| == |s.bufs| && 1 <= s.chunks < INT_MAX - 1
    ensures BufOk(s.chunks, s.place[b], s.bufs[b])
  {
  }

  lemma TakeRecycledKeepsInv(s: Rx)
    requires RxInv(s) && |s.recycled| > 0
    ensures RxInv(TakeRecycled(s))
  {
    TakeKeepsPlaced(s);
  }

  /** A used page nobody refers to can be posted at its current chunk. */
  lemma TakeUsedKeepsBufs(s: Rx)
    requires RxInv(s) && |s.used| > 0 && BufRefCnt(s, s.used[0]) == 0
    ensures BufOk(s.chunks, Posted, s.bufs[s.used[0]])
  {
    var b := s.bufs[s.used[0]];
    assert BufOk(s.chunks, Used, b);
    assert |b.page.refs| == 0;
  }

  lemma ScanUsedKeepsInv(s: Rx)
    requires RxInv(s) && |s.used| > 0
    ensures RxInv(ScanUsed(s))
  {
    TakeKeepsPlaced(s);
    if BufRefCnt(s, s.used[0]) == 0 {
      TakeUsedKeepsBufs(s);
    } else {
      OnListRotate(s.place, s.used, Used);
    }
  }

  lemma DiscardKeepsInv(s: Rx)
    requires RxInv(s) && |s.used| > 0 && !s.qpl
    ensures RxInv(Discard(s))
  {
    var b := s.used[0];
    TakeKeepsPlaced(s);
    if BufRefCnt(s, b) == 0 {
      TakeUsedKeepsBufs(s);
    } else {
      PutKeepsPlaced(TakeUsed(s).(bufs := s.bufs[b := s.bufs[b].(hasPage := false)]), b);
    }
  }

  lemma AllocFreshKeepsInv(s: Rx)
    requires RxInv(s) && |s.free| > 0
    ensures RxInv(AllocFresh(s))
  {
    hide Claims;
    TakeKeepsPlaced(s);
    NoRefsCovered(s.chunks);
  }

  lemma DescribeKeepsInv(s: Rx, b: nat)
    requires RxInv(s) && b < |s.bufs|
    ensures RxInv(Describe(s, b))
  {
  }

  lemma PutRecycledKeepsInv(s: Rx, b: nat)
    requires RxInv(s) && b < |s.bufs| && s.place[b] == Posted
    ensures RxInv(PutRecycled(s, b))
  {
    PutKeepsPlaced(s, b);
  }

  /** A posted buffer whose page moved on goes to the list its offsets call for. */
  lemma RequeueKeepsInv(s: Rx, b: nat, buf: Buf, p: Place)
    requires RxInv(s) && b < |s.bufs| && s.place[b] == Posted
    requires p == Recycled || p == Used
    requires BufOk(s.chunks, p, buf)
    ensures var s' := s.(bufs := s.bufs[b := buf]);
      RxInv(if p == Used then MarkUsed(s', b) else PutRecycled(s', b))
  {
    PutKeepsPlaced(s.(bufs := s.bufs[b := buf]), b);
  }

  lemma GiveFragKeepsInv(s: Rx, b: nat)
    requires RxInv(s) && b < |s.bufs| && s.place[b] == Posted
    ensures RxInv(GiveFrag(s, b))
  {
    hide RxInv, BufOk;
    InvFacts(s, b);
    var buf := s.bufs[b];
    var page := AddFrag(buf.page, buf.off);
    if s.chunks < 2 {
      LoneChunkWaits(s.chunks, buf);
      RequeueKeepsInv(s, b, buf.(page := page), Used);
    } else {
      var last := if RefCnt(page) == 1 then buf.off else buf.last;
      var buf' := buf.(page := page, last := last, off := (buf.off + 1) % s.chunks);
      RotationIsSafe(s.chunks, buf, buf');
      RequeueKeepsInv(s, b, buf', if buf'.off == buf'.last then Used else Recycled);
      assert s.bufs[b := buf.(page := page)][b := buf'] == s.bufs[b := buf'];
    }
  }

  /** References dropped or repeated on the page of buffer `b`. */
  lemma PageKeepsInv(s: Rx, b: nat, page: PageRef)
    requires RxInv(s) && b < |s.bufs|
    requires s.place[b] != Free ==>
      PageRefs.Inv(page) && Covered(page.refs, s.chunks) && forall x :: x in page.refs ==> x in s.bufs[b].page.refs
    ensures RxInv(s.(bufs := s.bufs[b := s.bufs[b].(page := page)]))
  {
    hide PageRefs.Inv, Covered, OnList;
    var buf := s.bufs[b];
    assert BufOk(s.chunks, s.place[b], buf);
    assert BufOk(s.chunks, s.place[b], buf.(page := page));
  }

  lemma PageFacts(s: Rx, b: nat)
    requires RxInv(s) && b < |s.bufs| && s.place[b] != Free
    ensures PageRefs.Inv(s.bufs[b].page) && Covered(s.bufs[b].page.refs, s.chunks)
  {
    hide Covered, OnList;
    assert BufOk(s.chunks, s.place[b], s.bufs[b]);
  }

  lemma StackDropKeepsInv(s: Rx, b: nat, c: nat)
    requires RxInv(s) && b < |s.bufs|
    ensures RxInv(StackDrop(s, b, c))
  {
    hide RxInv, Covered, PageRefs.Inv;
    var page := s.bufs[b].page;
    InvFacts(s, b);
    if s.place[b] != Free {
      PageFacts(s, b);
      DropKeepsInv(page, c);
      DropKeepsCovered(page, s.chunks, c);
    }
    PageKeepsInv(s, b, Drop(page, c));
  }

  /** A chunk that is referred to already is not free, so another reference to it endangers nothing. */
  lemma StackTakeKeepsInv(s: Rx, b: nat, c: nat)
    requires RxInv(s) && b < |s.bufs|
    ensures RxInv(StackTake(s, b, c))
  {
    hide RxInv, Covered, PageRefs.Inv, Claims;
    var page := s.bufs[b].page;
    InvFacts(s, b);
    if Claims(page.refs, s.chunks) < INT_MAX - 1 {
      if s.place[b] != Free {
        PageFacts(s, b);
        GetRefKeepsInv(page, c);
        GetRefKeepsCovered(page, s.chunks, c);
      }
      PageKeepsInv(s, b, GetRef(page, c));
    }
  }

  /** Only a posted buffer gets past the first two checks. */
  lemma VerdictFacts(s: Rx, d: CompDesc, ctx: Ctx, env: Env)
    requires |s.place| == |s.bufs|
    ensures Verdict(s, d, ctx, env).Reject? <==> !(d.bufId < |s.bufs| && s.place[d.bufId] == Posted)
  {
  }

  lemma CompleteKeepsInv(s: Rx, d: CompDesc, ctx: Ctx, env: Env)
    requires RxInv(s)
    ensures RxInv(Complete(s, d, ctx, env))
  {
    match Verdict(s, d, ctx, env)
    case Reject(_) =>
    case Recycle(_) => PutRecycledKeepsInv(s, d.bufId);
    case Deliver => GiveFragKeepsInv(s, d.bufId);
  }

  lemma StepKeepsInv(s: Rx, a: Action)
    requires RxInv(s)
    ensures RxInv(Step(s, a))
  {
    hide RxInv, Placed, Verdict;
    InvShape(s);
    match a
    case ReuseRecycled =>
      if |s.recycled| > 0 {
        TakeRecycledKeepsInv(s);
        DescribeKeepsInv(TakeRecycled(s), s.recycled[0]);
      }
    case ScanOneUsed =>
      if |s.used| > 0 {
        ScanUsedKeepsInv(s);
        DescribeKeepsInv(ScanUsed(s), s.used[0]);
      }
    case DiscardUsed =>
      if !s.qpl && |s.used| > 0 {
        DiscardKeepsInv(s);
        DescribeKeepsInv(Discard(s), s.used[0]);
      }
    case UseFree(_) =>
      if |s.free| > 0 {
        AllocFreshKeepsInv(s);
        DescribeKeepsInv(AllocFresh(s), s.free[0]);
      }
    case Completion(d, ctx, env) => CompleteKeepsInv(s, d, ctx, env);
    case DropRef(b, c) => if b < |s.bufs| { StackDropKeepsInv(s, b, c); }
    case TakeRef(b, c) => if b < |s.bufs| { StackTakeKeepsInv(s, b, c); }
  }

  // ----- Chunks and bytes ----------------------------------------------------------------------

  /** Offsets in bytes move on like chunks: `size` divides the page, and the mask wraps at its end. */
  lemma ChunksInBytes(size: nat, chunks: nat, k: nat)
    requires size > 0 && k < chunks
    ensures chunks * size > 0 && (k * size + size) % (chunks * size) == (k + 1) % chunks * size
    ensures size * 2 > chunks * size <==> chunks < 2
  {
    MulAtLeast(chunks, size);
    if k + 1 < chunks {
      ModIdem(k + 1, chunks);
      MulAtLeast(chunks - (k + 1), size);
      assert (chunks - (k + 1)) * size == chunks * size - (k * size + size);
      ModIdem(k * size + size, chunks * size);
    } else {
      assert k * size + size == chunks * size;
      DivModUnique(chunks * size, chunks * size, 1, 0);
      DivModUnique(chunks, chunks, 1, 0);
    }
    if chunks >= 2 { MulAtLeast(chunks - 1, size); assert (chunks - 1) * size == chunks * size - size; }
  }

  // ----- Every run -------------------------------------------------------------------------

  lemma InitInv(n: nat, chunks: nat, qpl: bool, hdrBufs: bool)
    requires 1 <= chunks < INT_MAX - 1
    ensures RxInv(Init(n, chunks, qpl, hdrBufs))
  {
    var s := Init(n, chunks, qpl, hdrBufs);
    forall b | 0 <= b < n
      ensures b in s.free
    {
      assert s.free[b] == b;
    }
  }

  lemma {:induction false} RunKeepsInv(s: Rx, actions: seq<Action>)
    requires RxInv(s)
    ensures RxInv(Exec(s, actions))
    decreases |actions|
  {
    if actions == [] {
    } else {
      RunKeepsInv(s, actions[..|actions| - 1]);
      StepKeepsInv(Exec(s, actions[..|actions| - 1]), actions[|actions| - 1]);
    }
  }

  lemma StepKeepsSize(s: Rx, a: Action)
    ensures |Step(s, a).bufs| == |s.bufs| && Step(s, a).qpl == s.qpl
  {
    hide Verdict, AddFrag, Drop, RefCnt;
    if a.Completion? && |s.place| == |s.bufs| {
      VerdictFacts(s, a.d, a.ctx, a.env);
    }
  }

  lemma {:induction false} RunKeepsSize(s: Rx, actions: seq<Action>)
    ensures |Exec(s, actions).bufs| == |s.bufs|
    ensures Exec(s, actions).qpl == s.qpl
    decreases |actions|
  {
    if actions == [] {
    } else {
      RunKeepsSize(s, actions[..|actions| - 1]);
      StepKeepsSize(Exec(s, actions[..|actions| - 1]), actions[|actions| - 1]);
    }
  }

  /** A QPL never runs out of pages while a buffer state is free. */
  lemma QplPagesNeverRunOut(n: nat, chunks: nat, hdrBufs: bool, actions: seq<Action>, pageOk: bool)
    requires 1 <= chunks < INT_MAX - 1
    ensures var s := Exec(Init(n, chunks, true, hdrBufs), actions);
      && s.nextPage + |s.free| == |s.bufs| == n
      && s.usedCnt == |s.used|
      && (|s.free| > 0 ==> !AllocFails(s, pageOk))
  {
    InitInv(n, chunks, true, hdrBufs);
    RunKeepsInv(Init(n, chunks, true, hdrBufs), actions);
    RunKeepsSize(Init(n, chunks, true, hdrBufs), actions);
  }

  predicate KeepsBack(s: Rx) {
    s.qpl ==> s.used == [] || |s.used| <= |s.bufs| - ONDEMAND_ALLOC_THRESHOLD
  }

  lemma StepKeepsBack(s: Rx, a: Action)
    requires RxInv(s) && KeepsBack(s)
    ensures KeepsBack(Step(s, a))
  {
    hide Verdict, AddFrag, Drop, RefCnt, BufOk, OnList;
    StepKeepsSize(s, a);
    if a.Completion? {
      VerdictFacts(s, a.d, a.ctx, a.env);
      if Verdict(s, a.d, a.ctx, a.env).Deliver? { DeliverNeedsRoom(s, a.d, a.ctx, a.env); }
    }
  }

  lemma DeliverNeedsRoom(s: Rx, d: CompDesc, ctx: Ctx, env: Env)
    requires |s.place| == |s.bufs| && Verdict(s, d, ctx, env).Deliver?
    ensures !CopyOnDemand(s)
  {
  }

  /** In QPL mode packets are copied out in time: 96 buffers are never tied up by the stack. */
  lemma {:induction false} QplKeepsBuffersBack(n: nat, chunks: nat, hdrBufs: bool, actions: seq<Action>)
    requires 1 <= chunks < INT_MAX - 1
    ensures var s := Exec(Init(n, chunks, true, hdrBufs), actions);
      s.used == [] || |s.used| <= n - ONDEMAND_ALLOC_THRESHOLD
    decreases |actions|
  {
    hide Step;
    var s0 := Init(n, chunks, true, hdrBufs);
    RunKeepsSize(s0, actions);
    if actions == [] {
    } else {
      var front := actions[..|actions| - 1];
      QplKeepsBuffersBack(n, chunks, hdrBufs, front);
      InitInv(n, chunks, true, hdrBufs);
      RunKeepsInv(s0, front);
      RunKeepsSize(s0, front);
      StepKeepsBack(Exec(s0, front), actions[|actions| - 1]);
    }
  }

  /**
   Any descriptor at all: a buffer that is not posted, or does not exist, leaves
   everything unchanged; a posted one ends up on exactly one list, once, and no
   other buffer moves.
   */
  lemma CompletionMovesOneBufferOnce(s: Rx, d: CompDesc, ctx: Ctx, env: Env)
    requires RxInv(s)
    ensures var s' := Complete(s, d, ctx, env);
      if d.bufId < |s.bufs| && s.place[d.bufId] == Posted then
        && s'.place[d.bufId] in {Recycled, Used}
        && (forall b :: 0 <= b < |s.bufs| && b != d.bufId ==> s'.place[b] == s.place[b] && s'.bufs[b] == s.bufs[b])
        && |s'.recycled| + |s'.used| == |s.recycled| + |s.used| + 1
        && s'.free == s.free
      else s' == s
  {
    hide Verdict, BufOk, OnList, GiveFrag;
    VerdictFacts(s, d, ctx, env);
    if d.bufId < |s.bufs| { FragMovesOne(s, d.bufId); }
  }

  /** A fragment sends its buffer to one of two lists and touches no other. */
  lemma FragMovesOne(s: Rx, b: nat)
    requires b < |s.place| == |s.bufs|
    ensures var s' := GiveFrag(s, b);
      && |s'.place| == |s'.bufs| == |s.bufs| && s'.place[b] in {Recycled, Used}
      && (forall x :: 0 <= x < |s.bufs| && x != b ==> s'.place[x] == s.place[x] && s'.bufs[x] == s.bufs[x])
      && |s'.recycled| + |s'.used| == |s.recycled| + |s.used| + 1
      && s'.free == s.free
  {
    hide AddFrag, RefCnt;
  }

  // ----- The posting loop ------------------------------------------------------------------

  /** Buffers posted in `s` are still posted in `s'`, at the same chunk. */
  ghost predicate PostedStay(s: Rx, s': Rx) {
    && |s.place| == |s.bufs| == |s'.place| == |s'.bufs|
    && forall x :: 0 <= x < |s.place| && s.place[x] == Posted ==>
         s'.place[x] == Posted && s'.bufs[x].off == s.bufs[x].off
  }

  lemma ScanUsedStays(s: Rx)
    requires RxInv(s) && |s.used| > 0
    ensures PostedStay(s, ScanUsed(s)) && InBounds(ScanUsed(s))
    ensures BufRefCnt(s, s.used[0]) == 0 ==> ScanUsed(s).place[s.used[0]] == Posted
    ensures BufRefCnt(s, s.used[0]) != 0 ==> |ScanUsed(s).used| == |s.used|
  {
  }

  lemma {:induction false} ScanKeepsInv(s: Rx, tries: nat)
    requires RxInv(s) && InBounds(s) && |s.used| > 0
    ensures var r := Scan(s, tries);
      RxInv(r.0) && PostedStay(s, r.0) && (r.1 != -1 ==> r.0.place[r.1] == Posted)
    decreases tries
  {
    hide RxInv, Placed, RefCnt;
    InvShape(s);
    if tries == 0 {
    } else {
      ScanUsedKeepsInv(s);
      ScanUsedStays(s);
      if BufRefCnt(s, s.used[0]) != 0 {
        ScanKeepsInv(ScanUsed(s), tries - 1);
      }
    }
  }

  lemma GetRecycledKeepsInv(s: Rx)
    requires RxInv(s) && InBounds(s)
    ensures var r := GetRecycled(s);
      RxInv(r.0) && PostedStay(s, r.0) && (r.1 != -1 ==> r.0.place[r.1] == Posted)
  {
    hide Scan;
    if |s.recycled| > 0 {
      TakeRecycledKeepsInv(s);
    } else if |s.used| > 0 {
      ScanKeepsInv(s, SCAN_LIMIT);
      var (s', b) := Scan(s, SCAN_LIMIT);
      if b == -1 && !s'.qpl && |s'.free| == 0 {
        DiscardKeepsInv(s');
      }
    }
  }

  lemma ObtainKeepsInv(s: Rx, pageOk: bool)
    requires RxInv(s) && InBounds(s)
    ensures var r := Obtain(s, pageOk);
      RxInv(r.0) && PostedStay(s, r.0) && (r.1 != -1 ==> r.0.place[r.1] == Posted)
  {
    hide GetRecycled;
    GetRecycledKeepsInv(s);
    var (s', b) := GetRecycled(s);
    if b == -1 && |s'.free| > 0 {
      AllocFreshKeepsInv(s');
    }
  }

  lemma PostRoundKeepsInv(s: Rx, q: Queue, pageOk: bool)
    requires RxInv(s) && InBounds(s) && q.tail < |q.ring|
    ensures var r := PostRound(s, q, pageOk);
      && RxInv(r.0) && PostedStay(s, r.0)
      && (r.2 == -1 ==> r.1 == q)
      && (r.2 != -1 ==> 0 <= r.2 < |r.0.bufs| && r.0.place[r.2] == Posted && r.1 == Pushed(q, (r.2, r.0.bufs[r.2].off)))
  {
    hide Obtain;
    ObtainKeepsInv(s, pageOk);
    var (s', b) := Obtain(s, pageOk);
    if b != -1 {
      DescribeKeepsInv(s', b);
    }
  }

  /**
   What the posting loop leaves behind: the ring from the old tail on names the
   posted buffers in order, each out at the chunk its entry says; every other
   slot is as before.
   */
  ghost predicate PostedFrom(s: Rx, q: Queue, s': Rx, q': Queue, posted: seq<nat>) {
    && q.tail < |q.ring| == |q'.ring| && |posted| < |q.ring|
    && q' == q.(ring := q'.ring, tail := Slot(q.tail, |posted|, |q.ring|), freeSlots := q.freeSlots - |posted|)
    && PostedStay(s, s')
    && (forall i :: 0 <= i < |posted| ==>
          && posted[i] < |s'.bufs| && s'.place[posted[i]] == Posted
          && q'.ring[Slot(q.tail, i, |q.ring|)] == (posted[i], s'.bufs[posted[i]].off))
    && (forall i :: |posted| <= i < |q.ring| ==>
          q'.ring[Slot(q.tail, i, |q.ring|)] == q.ring[Slot(q.tail, i, |q.ring|)])
  }

  lemma PostedFromStep(s: Rx, q: Queue, s1: Rx, b: nat, s2: Rx, q2: Queue, rest: seq<nat>)
    requires q.tail < |q.ring| && PostedStay(s, s1) && b < |s1.bufs| && s1.place[b] == Posted
    requires PostedFrom(s1, Pushed(q, (b, s1.bufs[b].off)), s2, q2, rest) && |rest| + 1 < |q.ring|
    ensures PostedFrom(s, q, s2, q2, [b] + rest)
  {
    var n, q1, posted := |q.ring|, Pushed(q, (b, s1.bufs[b].off)), [b] + rest;
    SlotStart(q.tail, n);
    forall i: nat
      ensures Slot(q1.tail, i, n) == Slot(q.tail, i + 1, n)
    {
      SlotShift(q.tail, i, n);
    }
    forall i | 0 < i < n
      ensures Slot(q.tail, i, n) != q.tail
    {
      SlotsDiffer(q.tail, q.tail + i, n);
    }
    assert Slot(q1.tail, n - 1, n) == q.tail by {
      SlotRound(q.tail, n);
    }
    forall i | 0 <= i < |posted|
      ensures posted[i] < |s2.bufs| && s2.place[posted[i]] == Posted
      ensures q2.ring[Slot(q.tail, i, n)] == (posted[i], s2.bufs[posted[i]].off)
    {
      if i > 0 {
        assert posted[i] == rest[i - 1] && Slot(q1.tail, i - 1, n) == Slot(q.tail, i, n);
      }
    }
    forall i | |posted| <= i < n
      ensures q2.ring[Slot(q.tail, i, n)] == q.ring[Slot(q.tail, i, n)]
    {
      assert Slot(q1.tail, i - 1, n) == Slot(q.tail, i, n);
    }
  }

  lemma {:induction false} PostAllFills(s: Rx, q: Queue, pageOk: seq<bool>)
    requires RxInv(s) && InBounds(s) && q.tail < |q.ring| && |pageOk| < |q.ring|
    ensures var (s', q', posted) := PostAll(s, q, pageOk);
      RxInv(s') && |posted| <= |pageOk| && PostedFrom(s, q, s', q', posted)
    decreases |pageOk|
  {
    hide PostRound;
    if pageOk == [] {
      SlotStart(q.tail, |q.ring|);
    } else {
      PostRoundKeepsInv(s, q, pageOk[0]);
      var (s1, q1, b) := PostRound(s, q, pageOk[0]);
      if b == -1 {
        SlotStart(q.tail, |q.ring|);
      } else {
        PostAllFills(s1, q1, pageOk[1..]);
        var (s2, q2, rest) := PostAll(s1, q1, pageOk[1..]);
        PostedFromStep(s, q, s1, b, s2, q2, rest);
      }
    }
  }

  /**
   Everything the posting loop puts in front of the device: entries in order,
   never more than there is room for, each naming a chunk no SKB refers to.
   */
  lemma PostingIsSafe(s: Rx, q: Queue, pageOk: seq<bool>)
    requires RxInv(s) && InBounds(s) && q.head < |q.ring| && q.tail < |q.ring| && |pageOk| <= Room(q)
    ensures var (s', q', posted) := PostAll(s, q, pageOk);
      && RxInv(s')
      && PostedFrom(s, q, s', q', posted)
      && |posted| <= Room(q) && q'.freeSlots >= 0
      && forall i :: 0 <= i < |posted| ==>
           s'.bufs[posted[i]].off !in s'.bufs[posted[i]].page.refs
  {
    PostAllFills(s, q, pageOk);
    var (s', q', posted) := PostAll(s, q, pageOk);
    forall i | 0 <= i < |posted|
      ensures s'.bufs[posted[i]].off !in s'.bufs[posted[i]].page.refs
    {
      assert BufOk(s'.chunks, Posted, s'.bufs[posted[i]]);
    }
  }
}
