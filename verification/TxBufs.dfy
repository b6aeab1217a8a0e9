/**
 Bounce buffers of the DQO transmit path. The sender takes buffers from its own
 free list and steals the completion thread's list when that is empty; the
 completion thread chains up a packet's buffers and pushes the whole chain with
 compare-and-swap. Two wrapping 32-bit counters, one of them read late, tell the
 sender whether a packet will find all the buffers it needs.
 */
module TxBufsSpec {
  import TxDesc
  import opened Lists
  import opened Words

  const BUF_SIZE: nat := TxDesc.BOUNCE

  /** Rounded up: how many buffers hold `len` bytes. */
  function Pieces(len: nat): nat {
    (len + BUF_SIZE - 1) / BUF_SIZE
  }

  datatype Place =
    | Consumer        // free list of the sender
    | Producer        // free list the completion thread pushes to
    | Of(tag: nat)    // held by the packet with this tag

  datatype TxPc =
    | TxIdle
    | Admitted(len: nat)                         // the check passed
    | Filling(tag: nat, len: nat, off: nat)      // copied up to `off`
    | TxFailed                                   // no buffer was to be had

  /** Where the completion thread is in freeing the buffers of `tag`. */
  datatype Freeing =
    | CIdle
    | CStart(tag: nat) | CLoaded(tag: nat, seen: int) | CLinked(tag: nat, seen: int)
    | CPushed(tag: nat, k: nat)                  // on the list, not yet counted

  datatype State = State(
    n: nat,
    consumer: seq<nat>, producer: seq<nat>, place: seq<Place>,
    ids: seq<seq<nat>>, lens: seq<nat>, posted: seq<bool>, // per tag
    tx: TxPc, compl: Freeing,
    alloc: nat, cached: nat, free: nat,                    // 32-bit counters
    allocs: nat, pushes: nat, frees: nat, seenFrees: nat)  // the same and the pushes, unbounded

  // ----- The check --------------------------------------------------------------------

  function NumAvail(s: State): int {
    Int32(U32(s.n - U32(s.alloc - s.cached)))
  }

  function Refresh(s: State): State {
    s.(cached := s.free, seenFrees := s.frees)
  }

  function HasFreeBufs(s: State, count: nat): (State, bool) {
    if count <= NumAvail(s) then (s, true) else (Refresh(s), count <= NumAvail(Refresh(s)))
  }

  // ----- The machine --------------------------------------------------------------------

  datatype Action =
    | TxCheck(len: nat) | TxAbandon | TxBegin(tag: nat) | TxSteal | TxPop | TxPost
    | Complete(tag: nat) | CLoad | CLink | CCas | CCount

  predicate Busy(c: Freeing, tag: nat) {
    !c.CIdle? && c.tag == tag
  }

  predicate InBounds(s: State) {
    && |s.ids| == |s.lens| == |s.posted|
    && (forall i :: 0 <= i < |s.consumer| ==> s.consumer[i] < |s.place|)
    && (s.tx.Filling? ==> s.tx.tag < |s.ids|)
    && (!s.compl.CIdle? ==> s.compl.tag < |s.ids|)
  }

  function Steal(s: State): State {
    s.(consumer := s.producer, producer := [], place := Moved(s.place, Producer, Consumer))
  }

  function Min(a: nat, b: nat): nat {
    if a < b then a else b
  }

  /** Take a buffer and copy the next piece into it. */
  function Pop(s: State): State
    requires InBounds(s) && s.tx.Filling? && s.consumer != []
  {
    var (b, t) := (s.consumer[0], s.tx.tag);
    s.(consumer := s.consumer[1..], place := s.place[b := Of(t)], ids := s.ids[t := s.ids[t] + [b]],
       alloc := U32(s.alloc + 1), allocs := s.allocs + 1,
       tx := s.tx.(off := Min(s.tx.off + BUF_SIZE, s.tx.len)))
  }

  function Cas(s: State): State
    requires InBounds(s) && s.compl.CLinked?
  {
    var t := s.compl.tag;
    if First(s.producer) != s.compl.seen then s.(compl := CStart(t))
    else
      s.(producer := s.ids[t] + s.producer, place := Moved(s.place, Of(t), Producer), ids := s.ids[t := []],
         pushes := s.pushes + |s.ids[t]|, compl := CPushed(t, |s.ids[t]|))
  }

  function Step(s: State, a: Action): State
    requires InBounds(s)
  {
    match a
    case TxCheck(len) =>
      if s.tx == TxIdle then
        var (s', ok) := HasFreeBufs(s, Pieces(len));
        s'.(tx := if ok then Admitted(len) else TxIdle)
      else s
    case TxAbandon => if s.tx.Admitted? then s.(tx := TxIdle) else s
    case TxBegin(tag) =>
      if s.tx.Admitted? && tag < |s.ids| && !s.posted[tag] && !Busy(s.compl, tag) then
        s.(tx := Filling(tag, s.tx.len, 0), lens := s.lens[tag := s.tx.len])
      else s
    case TxSteal =>
      if s.tx.Filling? && s.tx.off < s.tx.len && s.consumer == [] then
        Steal(s).(tx := if s.producer == [] then TxFailed else s.tx)
      else s
    case TxPop => if s.tx.Filling? && s.tx.off < s.tx.len && s.consumer != [] then Pop(s) else s
    case TxPost =>
      if s.tx.Filling? && s.tx.off >= s.tx.len then s.(posted := s.posted[s.tx.tag := true], tx := TxIdle) else s
    case Complete(tag) =>
      if s.compl.CIdle? && tag < |s.ids| && s.posted[tag] then
        s.(posted := s.posted[tag := false], compl := if s.ids[tag] == [] then CIdle else CStart(tag))
      else s
    case CLoad => if s.compl.CStart? then s.(compl := CLoaded(s.compl.tag, First(s.producer))) else s
    case CLink => if s.compl.CLoaded? then s.(compl := CLinked(s.compl.tag, s.compl.seen)) else s
    case CCas => if s.compl.CLinked? then Cas(s) else s
    case CCount =>
      if s.compl.CPushed? then
        s.(free := U32(s.free + s.compl.k), frees := s.frees + s.compl.k, compl := CIdle)
      else s
  }

  function Init(n: nat, tags: nat): State {
    State(n, seq(n, i => i), [], seq(n, _ => Consumer), seq(tags, _ => []), seq(tags, _ => 0), seq(tags, _ => false),
          TxIdle, CIdle, 0, 0, 0, 0, 0, 0, 0)
  }
}

module TxBufsProofs {
  import opened Lists
  import opened Words
  import opened TxBufsSpec

  // ----- Rounding up --------------------------------------------------------------------

  lemma PiecesStep(len: nat)
    requires len > 0
    ensures Pieces(len) == 1 + Pieces(len - Min(BUF_SIZE, len))
  {
  }

  // ----- Every buffer has one place --------------------------------------------------------

  ghost predicate Placed(s: State) {
    && InBounds(s) && |s.place| == s.n
    && OnList(s.place, s.consumer, Consumer)
    && OnList(s.place, s.producer, Producer)
    && (forall t :: 0 <= t < |s.ids| ==> OnList(s.place, s.ids[t], Of(t)))
    && (forall b :: 0 <= b < s.n && s.place[b].Of? ==> s.place[b].tag < |s.ids|)
  }

  lemma PopKeepsPlaced(s: State)
    requires Placed(s) && s.tx.Filling? && s.consumer != []
    ensures Placed(Pop(s))
  {
    hide OnList;
    var b, t, s' := s.consumer[0], s.tx.tag, Pop(s);
    HeadIs(s.place, s.consumer, Consumer);
    OnListPop(s.place, s.consumer, Consumer, Of(t));
    OnListFrame(s.place, s.producer, Producer, b, Of(t));
    OnListAppend(s.place, s.ids[t], Of(t), b);
    forall u | 0 <= u < |s.ids| && u != t
      ensures OnList(s'.place, s'.ids[u], Of(u))
    {
      OnListFrame(s.place, s.ids[u], Of(u), b, Of(t));
    }
    TailInBounds(s.place, s.consumer);
  }

  lemma HeadIs(place: seq<Place>, l: seq<nat>, p: Place)
    requires OnList(place, l, p) && l != []
    ensures l[0] < |place| && place[l[0]] == p
  {
  }

  lemma TailInBounds(place: seq<Place>, l: seq<nat>)
    requires (forall i :: 0 <= i < |l| ==> l[i] < |place|) && l != []
    ensures forall i :: 0 <= i < |l[1..]| ==> l[1..][i] < |place|
  {
  }

  lemma StealKeepsPlaced(s: State)
    requires Placed(s) && s.consumer == []
    ensures Placed(Steal(s))
  {
    hide OnList;
    var s' := Steal(s);
    OnListMoved(s.place, s.producer, Producer, s.consumer, Consumer);
    assert s.producer + s.consumer == s.producer;
    forall t | 0 <= t < |s.ids|
      ensures OnList(s'.place, s'.ids[t], Of(t))
    {
      OnListMovedFrame(s.place, s.ids[t], Of(t), Producer, Consumer);
    }
    MembersInBounds(s'.place, s'.consumer, Consumer);
  }

  lemma MembersInBounds(place: seq<Place>, l: seq<nat>, p: Place)
    requires OnList(place, l, p)
    ensures forall i :: 0 <= i < |l| ==> l[i] < |place|
  {
  }

  lemma CasKeepsPlaced(s: State)
    requires Placed(s) && s.compl.CLinked?
    ensures Placed(Cas(s))
  {
    hide OnList;
    if First(s.producer) == s.compl.seen {
      var t, s' := s.compl.tag, Cas(s);
      OnListMoved(s.place, s.ids[t], Of(t), s.producer, Producer);
      OnListMovedFrame(s.place, s.consumer, Consumer, Of(t), Producer);
      forall u | 0 <= u < |s.ids| && u != t
        ensures OnList(s'.place, s'.ids[u], Of(u))
      {
        OnListMovedFrame(s.place, s.ids[u], Of(u), Of(t), Producer);
      }
    }
  }

  lemma StepKeepsPlaced(s: State, a: Action)
    requires Placed(s)
    ensures Placed(Step(s, a))
  {
    hide OnList, Cas, Pop, Steal;
    match a
    case TxPop =>
      if s.tx.Filling? && s.consumer != [] { PopKeepsPlaced(s); }
    case TxSteal =>
      if s.consumer == [] { StealKeepsPlaced(s); StealKeepsThreads(s); }
    case CCas =>
      if s.compl.CLinked? { CasKeepsPlaced(s); }
    case _ =>
  }

  lemma StealKeepsThreads(s: State)
    ensures Steal(s).ids == s.ids && Steal(s).n == s.n && Steal(s).tx == s.tx && Steal(s).compl == s.compl
  {
  }

  // ----- Counting --------------------------------------------------------------------------

  /** Buffers pushed but not yet added to the free counter. */
  function Uncounted(s: State): nat {
    if s.compl.CPushed? then s.compl.k else 0
  }

  /** Free buffers as far as the sender knows. */
  function Known(s: State): int {
    s.n - (s.allocs - s.seenFrees)
  }

  ghost predicate Counted(s: State) {
    && s.n < 0x8000
    && s.alloc == U32(s.allocs) && s.free == U32(s.frees) && s.cached == U32(s.seenFrees)
    && |s.consumer| + |s.producer| == s.n - (s.allocs - s.pushes)
    && s.pushes - s.frees == Uncounted(s)
    && s.seenFrees <= s.frees
    && s.pushes <= s.allocs && 0 <= Known(s)
  }

  /** What was promised to the packet in hand is still there. */
  ghost predicate PromiseKept(s: State) {
    && !s.tx.TxFailed?
    && (s.tx.Admitted? ==> Pieces(s.tx.len) <= Known(s))
    && (s.tx.Filling? ==> s.tx.off <= s.tx.len && Pieces(s.tx.len - s.tx.off) <= Known(s))
  }

  /** The wrapping counters give the exact difference however long the run is. */
  lemma NumAvailIsKnown(s: State)
    requires Counted(s)
    ensures NumAvail(s) == Known(s)
  {
    Difference(s.allocs, s.seenFrees);
  }

  lemma CheckKeeps(s: State, len: nat)
    requires Counted(s) && PromiseKept(s) && InBounds(s)
    ensures var s' := Step(s, TxCheck(len)); Counted(s') && PromiseKept(s')
  {
    NumAvailIsKnown(s);
    if s.tx == TxIdle && Pieces(len) > NumAvail(s) {
      assert Counted(Refresh(s));
      NumAvailIsKnown(Refresh(s));
    }
  }

  lemma PopKeeps(s: State)
    requires Counted(s) && PromiseKept(s) && InBounds(s)
    requires s.tx.Filling? && s.tx.off < s.tx.len && s.consumer != []
    ensures Counted(Pop(s)) && PromiseKept(Pop(s))
  {
    Advanced(s.allocs, 1);
    PiecesStep(s.tx.len - s.tx.off);
    assert Pop(s).tx.off == s.tx.off + Min(BUF_SIZE, s.tx.len - s.tx.off);
  }

  lemma CasKeeps(s: State)
    requires Counted(s) && PromiseKept(s) && Placed(s) && s.compl.CLinked?
    ensures Counted(Cas(s)) && PromiseKept(Cas(s))
  {
    if First(s.producer) == s.compl.seen {
      CasKeepsPlaced(s);
      FreeAtMost(Cas(s));
    }
  }

  /** No more buffers are free than there are. */
  lemma FreeAtMost(s: State)
    requires Placed(s)
    ensures |s.consumer| + |s.producer| <= s.n
  {
    var all := s.consumer + s.producer;
    forall i, j | 0 <= i < j < |all|
      ensures all[i] != all[j] && all[i] < s.n && all[j] < s.n
    {
      assert s.place[all[i]] == if i < |s.consumer| then Consumer else Producer;
      assert s.place[all[j]] == if j < |s.consumer| then Consumer else Producer;
    }
    assert forall i :: 0 <= i < |all| ==> all[i] < s.n;
    DistinctBelow(all, s.n);
  }

  lemma {:induction false} DistinctBelow(l: seq<nat>, n: nat)
    requires NoDup(l) && forall i :: 0 <= i < |l| ==> l[i] < n
    ensures |l| <= n
  {
    if l == [] {
    } else if exists k :: 0 <= k < |l| && l[k] == n - 1 {
      var k :| 0 <= k < |l| && l[k] == n - 1;
      var m := Without(l, k);
      assert forall i :: 0 <= i < |m| ==> m[i] == if i < k then l[i] else l[i + 1];
      DistinctBelow(m, n - 1);
    } else {
      assert l[0] < n;
      DistinctBelow(l, n - 1);
    }
  }

  lemma StepKeepsCounts(s: State, a: Action)
    requires Counted(s) && PromiseKept(s) && Placed(s)
    ensures Counted(Step(s, a)) && PromiseKept(Step(s, a))
  {
    hide Placed, Pop, Cas, NumAvail, Pieces, U32;
    assert InBounds(s) by { BoundsOf(s); }
    match a
    case TxCheck(len) => CheckKeeps(s, len);
    case TxPop =>
      if s.tx.Filling? && s.tx.off < s.tx.len && s.consumer != [] { PopKeeps(s); }
    case TxSteal => StealKeeps(s);
    case CCas =>
      if s.compl.CLinked? { CasKeeps(s); }
    case CCount =>
      if s.compl.CPushed? { Advanced(s.frees, s.compl.k); }
    case _ =>
  }

  lemma BoundsOf(s: State)
    requires Placed(s)
    ensures InBounds(s)
  {
  }

  /** The heart of the argument: with nothing on either list the promise would be zero. */
  lemma StealKeeps(s: State)
    requires Counted(s) && PromiseKept(s) && InBounds(s)
    ensures Counted(Step(s, TxSteal)) && PromiseKept(Step(s, TxSteal))
  {
    if s.tx.Filling? && s.tx.off < s.tx.len && s.consumer == [] {
      PiecesStep(s.tx.len - s.tx.off);
      assert |s.producer| >= Known(s) >= 1;
    }
  }

  // ----- Packets get exactly what they need ------------------------------------------------------

  ghost predicate Filled(s: State) {
    && InBounds(s)
    && (forall t :: 0 <= t < |s.ids| && s.posted[t] ==> |s.ids[t]| == Pieces(s.lens[t]))
    && (forall t :: 0 <= t < |s.ids| && s.ids[t] != [] ==>
          s.posted[t] || (s.tx.Filling? && s.tx.tag == t) || Busy(s.compl, t))
    && (s.tx.Filling? ==>
          && !s.posted[s.tx.tag] && !Busy(s.compl, s.tx.tag)
          && s.lens[s.tx.tag] == s.tx.len && s.tx.off <= s.tx.len
          && |s.ids[s.tx.tag]| + Pieces(s.tx.len - s.tx.off) == Pieces(s.tx.len))
    && (!s.compl.CIdle? ==> !s.posted[s.compl.tag])
    && (s.compl.CPushed? ==> s.ids[s.compl.tag] == [])
  }

  lemma PopKeepsFilled(s: State)
    requires Filled(s) && s.tx.Filling? && s.tx.off < s.tx.len && s.consumer != []
    requires InBounds(Pop(s))
    ensures Filled(Pop(s))
  {
    hide Pieces;
    PiecesStep(s.tx.len - s.tx.off);
    assert Pop(s).tx.off == s.tx.off + Min(BUF_SIZE, s.tx.len - s.tx.off);
  }

  lemma SenderKeepsFilled(s: State, a: Action)
    requires Filled(s) && (a.TxCheck? || a.TxAbandon? || a.TxBegin? || a.TxSteal? || a.TxPost?)
    requires InBounds(Step(s, a)) && !Step(s, a).tx.TxFailed?
    ensures Filled(Step(s, a))
  {
    hide NumAvail, Pieces, Moved;
    if a.TxBegin? && s.tx.Admitted? && a.tag < |s.ids| && !s.posted[a.tag] && !Busy(s.compl, a.tag) {
      assert s.ids[a.tag] == [];
    }
    NothingLeft();
  }

  lemma CasKeepsFilled(s: State)
    requires Filled(s) && s.compl.CLinked? && InBounds(Cas(s))
    ensures Filled(Cas(s))
  {
    hide Pieces, Moved;
  }

  lemma CompletionKeepsFilled(s: State, a: Action)
    requires Filled(s) && (a.Complete? || a.CLoad? || a.CLink? || a.CCas? || a.CCount?)
    requires InBounds(Step(s, a))
    ensures Filled(Step(s, a))
  {
    hide Pieces, Moved, Cas;
    if a.CCas? && s.compl.CLinked? { CasKeepsFilled(s); }
  }

  lemma StepKeepsFilled(s: State, a: Action)
    requires Filled(s) && Placed(s) && Counted(s) && PromiseKept(s)
    ensures Filled(Step(s, a))
  {
    hide Placed, Pop, Counted, Filled, Cas, NumAvail, Steal, Pieces;
    BoundsOf(s);
    StepKeepsPlaced(s, a);
    BoundsOf(Step(s, a));
    StepKeepsCounts(s, a);
    match a
    case TxPop =>
      if s.tx.Filling? && s.tx.off < s.tx.len && s.consumer != [] { PopKeepsFilled(s); }
    case TxCheck(_) => SenderKeepsFilled(s, a);
    case TxAbandon => SenderKeepsFilled(s, a);
    case TxBegin(_) => SenderKeepsFilled(s, a);
    case TxSteal => SenderKeepsFilled(s, a);
    case TxPost => SenderKeepsFilled(s, a);
    case _ => CompletionKeepsFilled(s, a);
  }

  lemma NothingLeft()
    ensures Pieces(0) == 0
  {
  }

  // ----- Runs ---------------------------------------------------------------------------------------

  ghost predicate Inv(s: State) {
    Placed(s) && Counted(s) && PromiseKept(s) && Filled(s)
  }

  lemma StepKeepsInv(s: State, a: Action)
    requires Inv(s)
    ensures Inv(Step(s, a)) && Step(s, a).n == s.n
  {
    hide Placed, Counted, PromiseKept, Filled;
    BoundsOf(s);
    StepKeepsPlaced(s, a);
    StepKeepsCounts(s, a);
    StepKeepsFilled(s, a);
  }

  ghost function Exec(s: State, actions: seq<Action>): (r: State)
    requires Inv(s)
    ensures Inv(r) && r.n == s.n
  {
    if actions == [] then s
    else
      var s' := Exec(s, actions[..|actions| - 1]);
      StepKeepsInv(s', actions[|actions| - 1]);
      Step(s', actions[|actions| - 1])
  }

  lemma InitInv(n: nat, tags: nat)
    requires n < 0x8000
    ensures Inv(Init(n, tags))
  {
    var s := Init(n, tags);
    forall b | 0 <= b < n
      ensures b in s.consumer
    {
      assert s.consumer[b] == b;
    }
    assert U32(0) == 0;
  }

  lemma PromiseFacts(s: State)
    requires Inv(s)
    ensures !s.tx.TxFailed?
    ensures s.tx.Admitted? ==> Pieces(s.tx.len) <= |s.consumer| + |s.producer|
    ensures s.tx.Filling? ==> s.tx.off <= s.tx.len && Pieces(s.tx.len - s.tx.off) <= |s.consumer| + |s.producer|
    ensures InBounds(s)
    ensures forall t :: 0 <= t < |s.ids| && s.posted[t] ==> |s.ids[t]| == Pieces(s.lens[t])
  {
    hide Placed, Pieces, U32;
  }

  /** A packet that passed the check finds every buffer it needs, whatever the completion thread does. */
  lemma AdmittedPacketsNeverRunOut(n: nat, tags: nat, actions: seq<Action>)
    requires n < 0x8000
    ensures Inv(Init(n, tags))
    ensures var s := Exec(Init(n, tags), actions);
      && InBounds(s) && !s.tx.TxFailed?
      && (s.tx.Admitted? ==> (s.tx.len + 2047) / 2048 <= |s.consumer| + |s.producer|)
      && (s.tx.Filling? ==>
            s.tx.off <= s.tx.len && (s.tx.len - s.tx.off + 2047) / 2048 <= |s.consumer| + |s.producer|)
      && (forall t :: 0 <= t < |s.ids| && s.posted[t] ==> |s.ids[t]| == (s.lens[t] + 2047) / 2048)
  {
    hide Inv, Exec, Init;
    InitInv(n, tags);
    PromiseFacts(Exec(Init(n, tags), actions));
  }

  /** The check says yes exactly when that many buffers are free and counted as free. */
  lemma CheckIsExact(n: nat, tags: nat, actions: seq<Action>, count: nat)
    requires n < 0x8000
    ensures Inv(Init(n, tags))
    ensures var s := Exec(Init(n, tags), actions);
      HasFreeBufs(s, count).1 <==> count <= |s.consumer| + |s.producer| - Uncounted(s)
  {
    hide Placed, PromiseKept, Filled, NumAvail;
    InitInv(n, tags);
    var s := Exec(Init(n, tags), actions);
    NumAvailIsKnown(s);
    NumAvailIsKnown(Refresh(s));
  }

  /** No buffer is lost, and none is on two lists or in two packets. */
  lemma BuffersAreNeverLostOrDuplicated(n: nat, tags: nat, actions: seq<Action>, b: nat)
    requires n < 0x8000 && b < n
    ensures Inv(Init(n, tags))
    ensures var s := Exec(Init(n, tags), actions);
      && |s.place| == n && InBounds(s)
      && (b in s.consumer <==> s.place[b] == Consumer)
      && (b in s.producer <==> s.place[b] == Producer)
      && (forall t :: 0 <= t < |s.ids| ==> (b in s.ids[t] <==> s.place[b] == Of(t)))
      && NoDup(s.consumer) && NoDup(s.producer) && (forall t :: 0 <= t < |s.ids| ==> NoDup(s.ids[t]))
      && (s.place[b].Of? ==> s.place[b].tag < |s.ids|)
  {
    hide Counted, PromiseKept, Filled;
    InitInv(n, tags);
  }

  // ----- What is achieved ------------------------------------------------------------------------------

  /**
   The sender's steps. A packet is admitted exactly when enough buffers are free
   and counted. While it is being filled, each round takes the first buffer of the
   list, after taking over the other list when its own is empty, and copies the
   next 2048 bytes or what is left; all copied, it is posted.
   */
  lemma SenderEffect(s: State, len: nat)
    requires Inv(s)
    ensures InBounds(s)
    ensures s.tx == TxIdle ==>
      (Step(s, TxCheck(len)).tx == Admitted(len)
       <==> (len + 2047) / 2048 <= |s.consumer| + |s.producer| - Uncounted(s))
    ensures s.tx.Filling? && s.tx.off < s.tx.len ==>
      if s.consumer == [] then
        Step(s, TxSteal).consumer == s.producer != [] && Step(s, TxSteal).producer == []
      else
        var s' := Step(s, TxPop);
        && s'.consumer == s.consumer[1..] && s'.ids[s.tx.tag] == s.ids[s.tx.tag] + [s.consumer[0]]
        && s'.tx == s.tx.(off := if s.tx.off + 2048 < s.tx.len then s.tx.off + 2048 else s.tx.len)
    ensures s.tx.Filling? && s.tx.off >= s.tx.len ==>
      Step(s, TxPost).posted[s.tx.tag] && Step(s, TxPost).tx == TxIdle
  {
    hide Placed, Filled, NumAvail, U32, Moved;
    BoundsOf(s);
    PromiseFacts(s);
    NumAvailIsKnown(s);
    NumAvailIsKnown(Refresh(s));
    if s.tx.Filling? && s.tx.off < s.tx.len {
      PiecesStep(s.tx.len - s.tx.off);
    }
  }

  /**
   A completion of a posted packet, when the sender does not come in between: all
   its buffers end up in front of the shared list, and are counted as free.
   */
  lemma CompletionGivesBack(s: State, tag: nat)
    requires Inv(s) && s.compl.CIdle? && tag < |s.ids| && tag < |s.posted| && s.posted[tag] && s.ids[tag] != []
    ensures var r := Exec(s, [Complete(tag), CLoad, CLink, CCas, CCount]);
      && r.producer == s.ids[tag] + s.producer && r.consumer == s.consumer
      && r.ids == s.ids[tag := []] && r.posted == s.posted[tag := false] && r.compl.CIdle?
      && r.frees == s.frees + |s.ids[tag]|
  {
    hide Inv, Exec, Moved;
    BoundsOfInv(s);
    var s1 := Step(s, Complete(tag));
    StepKeepsInv(s, Complete(tag));
    BoundsOfInv(s1);
    var s2 := Step(s1, CLoad);
    StepKeepsInv(s1, CLoad);
    BoundsOfInv(s2);
    var s3 := Step(s2, CLink);
    StepKeepsInv(s2, CLink);
    BoundsOfInv(s3);
    var s4 := Step(s3, CCas);
    StepKeepsInv(s3, CCas);
    BoundsOfInv(s4);
    RunOfFive(s, Complete(tag), CLoad, CLink, CCas, CCount);
  }

  lemma BoundsOfInv(s: State)
    requires Inv(s)
    ensures InBounds(s)
  {
    hide Placed, Counted, PromiseKept, Filled;
    BoundsOf(s);
  }

  lemma RunOfFive(s: State, a: Action, b: Action, c: Action, e: Action, f: Action)
    requires Inv(s) && InBounds(s) && InBounds(Step(s, a)) && InBounds(Step(Step(s, a), b))
    requires InBounds(Step(Step(Step(s, a), b), c)) && InBounds(Step(Step(Step(Step(s, a), b), c), e))
    ensures Exec(s, [a, b, c, e, f]) == Step(Step(Step(Step(Step(s, a), b), c), e), f)
  {
    hide Inv, Step;
    assert [a, b, c, e, f][..4] == [a, b, c, e] && [a, b, c, e][..3] == [a, b, c] && [a, b, c][..2] == [a, b];
    assert [a, b][..1] == [a] && [a][..0] == [];
    assert Exec(s, []) == s;
    assert Exec(s, [a]) == Step(s, a);
    assert Exec(s, [a, b]) == Step(Step(s, a), b);
    assert Exec(s, [a, b, c]) == Step(Step(Step(s, a), b), c);
    assert Exec(s, [a, b, c, e]) == Step(Step(Step(Step(s, a), b), c), e);
  }
}
