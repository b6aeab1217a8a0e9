/**
 What SKBs hold of the receive pages, kept apart from the driver. The ledger is
 changed by what happens to SKBs: a buffer is handed over, a reference dropped
 or taken, a page exchanged. That the driver's pages agree with it is proved,
 and so is that nothing in it is ever posted again.
 */
module RxDqoLedger {
  import opened Arith
  import opened Lists
  import opened PageRefs
  import opened RxDqoSpec
  import opened RxDqoProofs

  // ----- What a completion descriptor means ---------------------------------------------------------

  /** The descriptor names a buffer that is out, reports no error, and its header fields make sense. */
  predicate Sensible(s: Rx, d: CompDesc)
    requires |s.place| == |s.bufs|
  {
    && d.bufId < |s.bufs| && s.place[d.bufId] == Posted
    && !d.rxError
    && (d.splitHeader ==> d.hdrLen > 0)
    && (d.hdrLen > 0 ==> s.bufs[d.bufId].hdr)
  }

  predicate Overflows(d: CompDesc, env: Env) {
    d.hdrOverflow && env.strictSplit
  }

  /** The packet begins here and is short: it is copied, not handed over. */
  predicate CopiedWhole(d: CompDesc, ctx: Ctx, env: Env) {
    !d.splitHeader && ctx.NoSkb? && d.endOfPacket && d.packetLen <= env.copybreak
  }

  /** Few buffers are left in QPL mode: the buffer is copied into a page of its own. */
  predicate CopiedAway(s: Rx) {
    s.qpl && s.usedCnt >= |s.bufs| - 96
  }

  /** Everything that has to be allocated for the buffer can be had. */
  predicate Supplied(s: Rx, d: CompDesc, ctx: Ctx, env: Env) {
    && (d.splitHeader ==> env.hdrSkb)
    && (!d.splitHeader && ctx.Building? && ctx.nrFrags == 17 ==> env.tailSkb)
    && (CopiedWhole(d, ctx, env) ==> env.copySkb)
    && (!d.splitHeader && ctx.NoSkb? && !CopiedWhole(d, ctx, env) ==> env.fragSkb)
    && (CopiedAway(s) && !CopiedWhole(d, ctx, env) ==> env.page)
  }

  /** The chunk itself goes to the stack. */
  predicate HandsOver(s: Rx, d: CompDesc, ctx: Ctx, env: Env)
    requires |s.place| == |s.bufs|
  {
    && Sensible(s, d) && !Overflows(d, env) && Supplied(s, d, ctx, env)
    && !CopiedWhole(d, ctx, env) && !CopiedAway(s)
  }

  /** The error returned, and whether the buffer is handed over, by the fields of the descriptor. */
  lemma VerdictMeans(s: Rx, d: CompDesc, ctx: Ctx, env: Env)
    requires |s.place| == |s.bufs|
    ensures var v := Verdict(s, d, ctx, env);
      && (v.Deliver? <==> HandsOver(s, d, ctx, env))
      && (Err(v) == 22 <==> !Sensible(s, d))
      && (Err(v) == 14 <==> Sensible(s, d) && Overflows(d, env))
      && (Err(v) == 12 <==> Sensible(s, d) && !Overflows(d, env) && !Supplied(s, d, ctx, env))
      && (Err(v) == 0 <==> Sensible(s, d) && !Overflows(d, env) && Supplied(s, d, ctx, env))
      && (v.Reject? <==> !(d.bufId < |s.bufs| && s.place[d.bufId] == Posted))
  {
  }

  /**
   A completion for a posted buffer. Handed over, its page has exactly one more
   reference, on the chunk that was posted, and moves on to the next chunk; it
   waits when that closes the circle of chunks in use. Copied or refused, the page
   stays as it is and the buffer can be posted again.
   */
  lemma CompletionEffect(s: Rx, d: CompDesc, ctx: Ctx, env: Env)
    requires RxInv(s) && d.bufId < |s.bufs| && s.place[d.bufId] == Posted
    ensures var s' := Complete(s, d, ctx, env);
      && |s'.bufs| == |s'.place| == |s.bufs|
      && (!HandsOver(s, d, ctx, env) ==>
            s'.place[d.bufId] == Recycled && s'.bufs[d.bufId] == s.bufs[d.bufId].(hdr := false))
      && (HandsOver(s, d, ctx, env) ==> HandedOver(s.chunks, s.bufs[d.bufId], s'.bufs[d.bufId], s'.place[d.bufId]))
  {
    hide RxInv, Verdict, HandsOver, GiveFrag, HandedOver;
    InvFacts(s, d.bufId);
    VerdictMeans(s, d, ctx, env);
    if HandsOver(s, d, ctx, env) {
      FragEffect(s, d.bufId);
    }
  }

  ghost predicate HandedOver(chunks: nat, b: Buf, b': Buf, place': Place)
    requires chunks > 0
  {
    && b'.hasPage && b'.page.refs == b.page.refs + multiset{b.off}
    && RefCnt(b'.page) == RefCnt(b.page) + 1
    && (chunks >= 2 ==>
          && b'.off == (b.off + 1) % chunks
          && b'.last == (if b.page.refs == multiset{} then b.off else b.last)
          && place' == if b'.off == b'.last then Used else Recycled)
    && (chunks == 1 ==> b'.off == b.off && place' == Used)
  }

  lemma FragEffect(s: Rx, b: nat)
    requires RxInv(s) && b < |s.bufs| && s.place[b] == Posted
    ensures var s' := GiveFrag(s, b);
      |s'.bufs| == |s'.place| == |s.bufs| && HandedOver(s.chunks, s.bufs[b], s'.bufs[b], s'.place[b])
  {
    hide RxInv, BufOk, AddFrag, RefCnt;
    InvFacts(s, b);
    FragOnPage(s.chunks, s.bufs[b]);
  }

  lemma FragOnPage(chunks: nat, b: Buf)
    requires 1 <= chunks && BufOk(chunks, Posted, b)
    ensures var page := AddFrag(b.page, b.off);
      && page.refs == b.page.refs + multiset{b.off} && RefCnt(page) == RefCnt(b.page) + 1 && b.hasPage
      && (RefCnt(page) == 1 <==> b.page.refs == multiset{})
  {
    hide Claims;
    var p := b.page;
    assert |p.refs| == 0 <==> p.refs == multiset{};
    AddFragKeepsInvExactly(p, b.off);
  }

  // ----- The ledger ---------------------------------------------------------------------------------------

  /** For every buffer state, the chunks of its page SKBs hold. */
  type Held = seq<multiset<nat>>

  function Plus(held: Held, b: nat, c: nat): Held {
    if b < |held| then held[b := held[b] + multiset{c}] else held
  }

  function Less(held: Held, b: nat, c: nat): Held {
    if b < |held| then held[b := held[b] - multiset{c}] else held
  }

  /** A reference taken again has to fit the page count, with one to spare for every chunk nobody holds. */
  predicate MayTake(held: Held, s: Rx, b: nat, c: nat) {
    && b < |held| == |s.bufs| && c in held[b]
    && s.bufs[b].page.count < INT_MAX && Claims(held[b], s.chunks) < INT_MAX - 1
  }

  /** What a step does to SKBs. */
  function Record(held: Held, s: Rx, a: Action): Held {
    match a
    case UseFree(pageOk) =>
      if |s.free| > 0 && s.free[0] < |held| && (s.qpl || pageOk) then held[s.free[0] := multiset{}] else held
    case Completion(d, ctx, env) =>
      if |s.place| == |s.bufs| && HandsOver(s, d, ctx, env) then Plus(held, d.bufId, s.bufs[d.bufId].off) else held
    case DropRef(b, c) => Less(held, b, c)
    case TakeRef(b, c) => if MayTake(held, s, b, c) then Plus(held, b, c) else held
    case _ => held
  }

  /** The driver's pages carry the references SKBs hold. */
  ghost predicate Agrees(held: Held, s: Rx) {
    |held| == |s.bufs| && forall b :: 0 <= b < |s.bufs| ==> s.bufs[b].page.refs == held[b]
  }

  lemma CompletionAgrees(held: Held, s: Rx, d: CompDesc, ctx: Ctx, env: Env)
    requires RxInv(s) && Agrees(held, s)
    ensures Agrees(Record(held, s, Completion(d, ctx, env)), Complete(s, d, ctx, env))
  {
    hide RxInv, Complete, HandsOver, Verdict;
    InvShape(s);
    CompletionMovesOneBufferOnce(s, d, ctx, env);
    VerdictMeans(s, d, ctx, env);
    CompleteKeepsSize(s, d, ctx, env);
    if d.bufId < |s.bufs| && s.place[d.bufId] == Posted {
      CompletionEffect(s, d, ctx, env);
    } else {
      NothingSensible(s, d, ctx, env);
    }
  }

  lemma NothingSensible(s: Rx, d: CompDesc, ctx: Ctx, env: Env)
    requires |s.place| == |s.bufs| && !(d.bufId < |s.bufs| && s.place[d.bufId] == Posted)
    ensures !HandsOver(s, d, ctx, env)
  {
  }

  lemma CompleteKeepsSize(s: Rx, d: CompDesc, ctx: Ctx, env: Env)
    requires |s.place| == |s.bufs|
    ensures |Complete(s, d, ctx, env).bufs| == |s.bufs|
  {
    hide Complete;
    StepKeepsSize(s, Completion(d, ctx, env));
  }

  lemma PageAgrees(held: Held, s: Rx, b: nat, page: PageRef)
    requires Agrees(held, s) && b < |s.bufs|
    ensures Agrees(held[b := page.refs], s.(bufs := s.bufs[b := s.bufs[b].(page := page)]))
    ensures held[b] == s.bufs[b].page.refs && held[b := held[b]] == held
  {
    assert held[b := held[b]] == held;
  }

  lemma StackAgrees(held: Held, s: Rx, a: Action)
    requires RxInv(s) && Agrees(held, s) && (a.DropRef? || a.TakeRef?)
    ensures Agrees(Record(held, s, a), Step(s, a))
  {
    hide RxInv, Agrees, Claims, Drop, GetRef;
    InvShape(s);
    HeldSize(held, s);
    if a.b < |s.bufs| {
      var page := s.bufs[a.b].page;
      if a.DropRef? {
        DropRefs(page, a.c);
        PageAgrees(held, s, a.b, Drop(page, a.c));
      } else {
        TakeRefs(page, a.c);
        PageAgrees(held, s, a.b, GetRef(page, a.c));
      }
    }
  }

  lemma HeldSize(held: Held, s: Rx)
    requires Agrees(held, s)
    ensures |held| == |s.bufs|
  {
  }

  lemma FreshAgrees(held: Held, s: Rx, pageOk: bool)
    requires RxInv(s) && Agrees(held, s)
    ensures Agrees(Record(held, s, UseFree(pageOk)), Step(s, UseFree(pageOk)))
  {
    hide Claims, OnList, BufOk;
    InvShape(s);
  }

  lemma RecordAgrees(held: Held, s: Rx, a: Action)
    requires RxInv(s) && Agrees(held, s)
    ensures Agrees(Record(held, s, a), Step(s, a))
  {
    hide RxInv, Complete, HandsOver, RefCnt, AllocFresh, StackDrop, StackTake;
    InvShape(s);
    match a
    case UseFree(pageOk) => FreshAgrees(held, s, pageOk);
    case Completion(d, ctx, env) => CompletionAgrees(held, s, d, ctx, env);
    case DropRef(_, _) => StackAgrees(held, s, a);
    case TakeRef(_, _) => StackAgrees(held, s, a);
    case _ =>
  }

  // ----- Obtaining a buffer to post -----------------------------------------------------------------------

  /** `l` after its first member went to the back `k` times. */
  function Turned(l: seq<nat>, k: nat): seq<nat>
    decreases k
  {
    if k == 0 || l == [] then l else Turned(l[1..] + [l[0]], k - 1)
  }

  lemma {:induction false} TurnedAt(l: seq<nat>, k: nat, i: nat)
    requires i < |l|
    ensures |Turned(l, k)| == |l| && Turned(l, k)[i] == l[(i + k) % |l|]
    decreases k
  {
    var n := |l|;
    if k == 0 {
      ModIdem(i, n);
    } else {
      var l' := l[1..] + [l[0]];
      TurnedAt(l', k - 1, i);
      var j := (i + (k - 1)) % n;
      NextTurn(i + (k - 1), n);
      assert l'[j] == if j + 1 == n then l[0] else l[j + 1];
    }
  }

  lemma NextTurn(x: nat, n: nat)
    requires n > 0
    ensures (x + 1) % n == if x % n + 1 == n then 0 else x % n + 1
  {
    if n == 1 {
      ModShift(0, x + 1, 1);
      ModShift(0, x, 1);
    } else {
      ModAdd(x, 1, n);
    }
  }

  /** Whether an SKB holds anything of the page of `b`. */
  predicate Busy(bufs: seq<Buf>, b: nat)
    requires b < |bufs|
  {
    bufs[b].page.refs != multiset{}
  }

  /** The first `k` on the list, going round it, are busy. */
  predicate AllBusy(bufs: seq<Buf>, l: seq<nat>, k: nat) {
    l != [] && forall i :: 0 <= i < k ==> l[i % |l|] < |bufs| && Busy(bufs, l[i % |l|])
  }

  lemma BusyMeans(s: Rx, i: nat)
    requires RxInv(s) && i < |s.used|
    ensures s.used[i] < |s.bufs| == |s.place| && s.place[s.used[i]] == Used
    ensures BufRefCnt(s, s.used[i]) != 0 <==> Busy(s.bufs, s.used[i])
  {
    hide Claims;
    assert BufOk(s.chunks, s.place[s.used[i]], s.bufs[s.used[i]]);
  }

  lemma AllBusyOn(bufs: seq<Buf>, l: seq<nat>, k: nat)
    requires l != [] && l[0] < |bufs| && Busy(bufs, l[0]) && AllBusy(bufs, l[1..] + [l[0]], k)
    ensures AllBusy(bufs, l, k + 1)
  {
    hide Busy;
    var n, l' := |l|, l[1..] + [l[0]];
    forall i | 0 <= i < k + 1
      ensures l[i % n] < |bufs| && Busy(bufs, l[i % n])
    {
      if i == 0 {
        ModIdem(0, n);
      } else {
        NextTurn(i - 1, n);
        var j := (i - 1) % n;
        assert l'[j] == if j + 1 == n then l[0] else l[j + 1];
      }
    }
  }

  /** Nothing, with all looked at going to the back; or the first that is not busy, off the list. */
  predicate Searched(s: Rx, tries: nat, k: nat, s': Rx, b: int) {
    if b == -1 then k == tries && s' == s.(used := Turned(s.used, k))
    else
      && k < tries && Turned(s.used, k) != [] && b == Turned(s.used, k)[0] < |s.place| == |s.bufs|
      && s.place[b] == Used && !Busy(s.bufs, b)
      && s' == s.(used := Turned(s.used, k)[1..], place := s.place[b := Posted], usedCnt := s.usedCnt - 1)
  }

  /**
   The bounded search: with `k` the number of pages found busy in a row from the
   oldest on, it takes the next one if that is within the limit.
   */
  lemma {:induction false} ScanFindsFirst(s: Rx, tries: nat) returns (k: nat)
    requires RxInv(s) && InBounds(s) && |s.used| > 0
    ensures k <= tries && AllBusy(s.bufs, s.used, k)
    ensures var (s', b) := Scan(s, tries); Searched(s, tries, k, s', b)
    decreases tries
  {
    hide RxInv, RefCnt, Busy, AllBusy, InBounds;
    BusyMeans(s, 0);
    if tries == 0 || BufRefCnt(s, s.used[0]) == 0 {
      k := 0;
      NoneBusy(s.bufs, s.used);
    } else {
      var s1 := ScanUsed(s);
      ScanUsedKeepsInv(s);
      InvShape(s1);
      var k1 := ScanFindsFirst(s1, tries - 1);
      k := k1 + 1;
      AllBusyOn(s.bufs, s.used, k1);
    }
  }

  lemma NoneBusy(bufs: seq<Buf>, l: seq<nat>)
    requires l != []
    ensures AllBusy(bufs, l, 0)
  {
  }

  /** A used list nobody can take from within the limit. */
  predicate NothingToReuse(s: Rx) {
    s.recycled == [] && (s.used == [] || AllBusy(s.bufs, s.used, 5))
  }

  /** A state that was free, or whose page is still busy, gets a new page. */
  predicate NewPageFor(s: Rx, b: nat) {
    b < |s.bufs| == |s.place| && (s.place[b] == Free || (s.place[b] == Used && Busy(s.bufs, b)))
  }

  /** What a search for a buffer to use again comes to. */
  ghost predicate Looked(s: Rx, s': Rx, b: int) {
    && |s'.bufs| == |s.bufs| && (forall x :: 0 <= x < |s.bufs| ==> s'.bufs[x].page == s.bufs[x].page)
    && s'.qpl == s.qpl && (b != -1 ==> 0 <= b && !NewPageFor(s, b))
    && (b == -1 ==> NothingToReuse(s) && forall i :: 0 <= i < |s'.free| ==> NewPageFor(s, s'.free[i]))
  }

  /** Giving up on the used page next in turn: it is used if nobody holds it, else its state is free. */
  lemma DiscardLooked(s: Rx)
    requires RxInv(s) && InBounds(s) && s.used != [] && s.free == []
    ensures var s' := Discard(s);
      && s'.qpl == s.qpl && |s'.bufs| == |s.bufs|
      && (forall x :: 0 <= x < |s.bufs| ==> s'.bufs[x].page == s.bufs[x].page)
      && (if BufRefCnt(s, s.used[0]) == 0 then !NewPageFor(s, s.used[0])
          else forall i :: 0 <= i < |s'.free| ==> NewPageFor(s, s'.free[i]))
  {
    hide RxInv, RefCnt, Busy;
    BusyMeans(s, 0);
  }

  lemma FreeIsNew(s: Rx, i: nat)
    requires RxInv(s) && i < |s.free|
    ensures NewPageFor(s, s.free[i])
  {
    hide BufOk;
  }

  lemma GetRecycledLooked(s: Rx)
    requires RxInv(s) && InBounds(s)
    ensures var (s', b) := GetRecycled(s); Looked(s, s', b)
    ensures s.recycled == [] && !NothingToReuse(s) ==>
      exists k: nat :: k < 5 && AllBusy(s.bufs, s.used, k) && Searched(s, 5, k, GetRecycled(s).0, GetRecycled(s).1)
  {
    hide RxInv, Scan, Busy, RefCnt, Discard, AllBusy;
    forall i | 0 <= i < |s.free|
      ensures NewPageFor(s, s.free[i])
    {
      FreeIsNew(s, i);
    }
    if s.recycled != [] {
      RecycledIsOld(s);
    } else if s.used != [] {
      var k := ScanFindsFirst(s, 5);
      var (s1, b1) := Scan(s, SCAN_LIMIT);
      if b1 == -1 {
        ScanKeepsInv(s, SCAN_LIMIT);
        InvShape(s1);
        TurnedLength(s.used, k);
        if !s.qpl && s.free == [] {
          DiscardLooked(s1);
          DiscardedSame(s, s1);
        }
      }
    }
  }

  lemma TurnedLength(l: seq<nat>, k: nat)
    ensures |Turned(l, k)| == |l|
  {
    if l != [] { TurnedAt(l, k, 0); }
  }

  lemma DiscardedSame(s: Rx, s1: Rx)
    requires s1.bufs == s.bufs && s1.place == s.place
    ensures forall b: nat :: NewPageFor(s, b) <==> NewPageFor(s1, b)
  {
    hide Busy;
  }

  lemma RecycledIsOld(s: Rx)
    requires RxInv(s) && s.recycled != []
    ensures !NewPageFor(s, s.recycled[0]) && s.recycled[0] < |s.place| == |s.bufs|
  {
    hide BufOk;
  }

  /** Only the state obtained can have another page than before, and it is then a new one. */
  ghost predicate Obtained(s: Rx, s': Rx, b: int) {
    && |s'.bufs| == |s.bufs| && -1 <= b < |s.bufs|
    && (forall x :: 0 <= x < |s.bufs| ==>
          s'.bufs[x].page == if x == b && NewPageFor(s, x) then Fresh() else s.bufs[x].page)
  }

  /**
   Where the next buffer comes from: the oldest recycled one; else the first used
   one within five that nobody holds. There is none only if neither is to be had,
   and no state is free or no page for it. A state that was free or whose page is
   still busy comes with a new page, which must be there to be had, and no other
   page changes.
   */
  lemma ObtainMeans(s: Rx, pageOk: bool)
    requires RxInv(s) && InBounds(s)
    ensures var (s', b) := Obtain(s, pageOk);
      && Obtained(s, s', b)
      && (s.recycled != [] ==> b == s.recycled[0] && s' == TakeRecycled(s))
      && (b == -1 ==> NothingToReuse(s) && (s'.free == [] || (!s.qpl && !pageOk)))
      && (b != -1 && NewPageFor(s, b) ==> s.qpl || pageOk)
    ensures s.recycled == [] && !NothingToReuse(s) ==>
      exists k: nat ::
        k < 5 && AllBusy(s.bufs, s.used, k) && Searched(s, 5, k, Obtain(s, pageOk).0, Obtain(s, pageOk).1)
  {
    hide RxInv, GetRecycled, TakeFresh, AllBusy, Searched, NothingToReuse, Looked, Obtained, TakeRecycled;
    GetRecycledLooked(s);
    GetRecycledKeepsInv(s);
    if s.recycled != [] {
      RecycledFirst(s);
    }
    var (s1, b1) := GetRecycled(s);
    LookedFacts(s, s1, b1);
    if b1 == -1 {
      FreshObtained(s, s1, pageOk);
    }
  }

  lemma LookedFacts(s: Rx, s': Rx, b: int)
    requires Looked(s, s', b)
    ensures b == -1 ==> NothingToReuse(s)
    ensures -1 < b < |s.bufs| ==> Obtained(s, s', b) && !NewPageFor(s, b)
    ensures |s'.bufs| == |s.bufs| && s'.qpl == s.qpl
  {
    hide NothingToReuse, NewPageFor;
  }

  lemma FreshObtained(s: Rx, s1: Rx, pageOk: bool)
    requires RxInv(s1) && InBounds(s1) && Looked(s, s1, -1) && s1.qpl == s.qpl
    ensures var (s', b) := TakeFresh(s1, pageOk);
      Obtained(s, s', b) && (if b == -1 then s'.free == [] || (!s.qpl && !pageOk) else s.qpl || pageOk)
  {
    hide RxInv, NothingToReuse, NewPageFor;
    if s1.free != [] {
      QplHasPage(s1);
    }
  }

  lemma RecycledFirst(s: Rx)
    requires InBounds(s) && s.recycled != []
    ensures GetRecycled(s) == (TakeRecycled(s), s.recycled[0])
  {
  }

  lemma QplHasPage(s: Rx)
    requires RxInv(s) && s.free != []
    ensures s.qpl ==> s.nextPage < |s.bufs|
  {
    hide BufOk, OnList;
  }

  // ----- Every run ---------------------------------------------------------------------------------------

  /** The ledger after a run from the initial state. */
  function Ledger(s: Rx, held: Held, actions: seq<Action>): Held
    decreases |actions|
  {
    if actions == [] then held
    else
      var front := actions[..|actions| - 1];
      Record(Ledger(s, held, front), Exec(s, front), actions[|actions| - 1])
  }

  function NothingHeld(n: nat): Held {
    seq(n, _ => multiset{})
  }

  lemma {:induction false} LedgerAgrees(s: Rx, held: Held, actions: seq<Action>)
    requires RxInv(s) && Agrees(held, s)
    ensures Agrees(Ledger(s, held, actions), Exec(s, actions))
    decreases |actions|
  {
    hide RxInv, Record, Step;
    if actions == [] {
    } else {
      var front := actions[..|actions| - 1];
      LedgerAgrees(s, held, front);
      RunKeepsInv(s, front);
      RecordAgrees(Ledger(s, held, front), Exec(s, front), actions[|actions| - 1]);
    }
  }

  /**
   In every reachable state, whatever the device reported and whenever the stack
   dropped or took references: no SKB holds a posted chunk, nor the chunk a
   recycled buffer would post next; what SKBs hold lies in the cyclic range from
   the last single-reference offset up to the current one; and the page count
   tells the driver exactly how much that is.
   */
  lemma PostedChunkIsUnreferenced(n: nat, chunks: nat, qpl: bool, hdrBufs: bool, actions: seq<Action>, b: nat)
    requires 1 <= chunks < INT_MAX - 1 && b < n
    ensures var s := Exec(Init(n, chunks, qpl, hdrBufs), actions);
      var held := Ledger(Init(n, chunks, qpl, hdrBufs), NothingHeld(n), actions);
      && |s.place| == |s.bufs| == |held| == n && s.bufs[b].page.refs == held[b]
      && (s.place[b] != Free ==> RefCnt(s.bufs[b].page) == |held[b]|)
      && (s.place[b] == Posted || s.place[b] == Recycled ==>
            && s.bufs[b].off !in held[b]
            && forall c :: c in held[b] ==> InRange(s.bufs[b].last, s.bufs[b].off, c))
  {
    hide Claims, Step, Exec, Ledger;
    var s0 := Init(n, chunks, qpl, hdrBufs);
    InitInv(n, chunks, qpl, hdrBufs);
    RunKeepsInv(s0, actions);
    RunKeepsSize(s0, actions);
    LedgerAgrees(s0, NothingHeld(n), actions);
    var s := Exec(s0, actions);
    assert BufOk(s.chunks, s.place[b], s.bufs[b]);
  }

  // ----- Header buffers -----------------------------------------------------------------------------------

  /** A buffer is out with a header buffer exactly when header split is on. */
  ghost predicate HeadersOk(s: Rx) {
    && |s.place| == |s.bufs|
    && forall b :: 0 <= b < |s.bufs| ==>
         (s.place[b] == Posted ==> s.bufs[b].hdr == s.hdrBufs) && (s.bufs[b].hdr ==> s.hdrBufs)
  }

  lemma StepKeepsHeaders(s: Rx, a: Action)
    requires RxInv(s) && HeadersOk(s)
    ensures HeadersOk(Step(s, a)) && Step(s, a).hdrBufs == s.hdrBufs
  {
    hide RxInv, Complete, RefCnt, Drop, GetRef, Claims;
    if a.Completion? {
      CompleteKeepsHeaders(s, a.d, a.ctx, a.env);
    }
  }

  lemma CompleteKeepsHeaders(s: Rx, d: CompDesc, ctx: Ctx, env: Env)
    requires HeadersOk(s)
    ensures HeadersOk(Complete(s, d, ctx, env)) && Complete(s, d, ctx, env).hdrBufs == s.hdrBufs
  {
    hide Verdict, AddFrag, RefCnt;
    VerdictFacts(s, d, ctx, env);
  }

  lemma {:induction false} HeaderBuffersAttached(n: nat, chunks: nat, qpl: bool, hdrBufs: bool, actions: seq<Action>)
    requires 1 <= chunks < INT_MAX - 1
    ensures var s := Exec(Init(n, chunks, qpl, hdrBufs), actions);
      && s.hdrBufs == hdrBufs && |s.place| == |s.bufs| && HeadersOk(s)
      && forall b :: 0 <= b < |s.bufs| && s.place[b] == Posted ==> s.bufs[b].hdr == hdrBufs
    decreases |actions|
  {
    hide RxInv, Step;
    if actions == [] {
    } else {
      var s0, front := Init(n, chunks, qpl, hdrBufs), actions[..|actions| - 1];
      HeaderBuffersAttached(n, chunks, qpl, hdrBufs, front);
      InitInv(n, chunks, qpl, hdrBufs);
      RunKeepsInv(s0, front);
      StepKeepsHeaders(Exec(s0, front), actions[|actions| - 1]);
    }
  }
}
