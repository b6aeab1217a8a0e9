/**
 The tag lists as the driver keeps them: `next` and `prev` indices in the
 packet array and a handful of heads and tails. Every operation of either
 thread is proved to take the step of the state machine it stands for.
 */
module TxTagsRing {
  import opened Lists
  import opened TxTagsSpec
  import opened TxTagsProofs
  import opened TxTagsRuns

  datatype Heads = Heads(tx: int, compl: int, missHead: int, missTail: int, outHead: int, outTail: int)

  /** Links and heads spell out the lists; a tag about to be swapped in already points at the head it loaded. */
  ghost predicate Links(next: seq<int>, prev: seq<int>, h: Heads, s: State) {
    && |next| == |prev| == |s.place| && Placed(s)
    && Chain(next, h.tx, s.consumer)
    && Chain(next, h.compl, s.producer)
    && Chain(next, h.missHead, s.missed) && BackChain(prev, h.missTail, s.missed)
    && Chain(next, h.outHead, s.timedOut) && BackChain(prev, h.outTail, s.timedOut)
    && Points(next, s.compl)
    && (s.tx.TxFreeing? ==> Points(next, s.tx.push))
  }

  ghost predicate Points(next: seq<int>, p: Push) {
    p.Linked? ==> p.t < |next| && next[p.t] == p.seen
  }

  lemma ListFacts(s: State, t: nat)
    requires Placed(s) && t < |s.place|
    ensures NoDup(s.consumer) && NoDup(s.producer) && NoDup(s.missed) && NoDup(s.timedOut)
    ensures t in s.consumer <==> s.place[t] == Consumer
    ensures t in s.producer <==> s.place[t] == Producer
    ensures t in s.missed <==> s.place[t] == Missed
    ensures t in s.timedOut <==> s.place[t] == TimedOut
  {
  }

  /** The arrays and heads alone say which tags are on which list, in which order, and no list comes back to a tag. */
  lemma LinksDetermineLists(next: seq<int>, prev: seq<int>, h: Heads, s: State, s': State)
    requires Links(next, prev, h, s) && Links(next, prev, h, s')
    ensures s.consumer == s'.consumer && s.producer == s'.producer && s.missed == s'.missed && s.timedOut == s'.timedOut
    ensures NoDup(s.consumer) && NoDup(s.producer) && NoDup(s.missed) && NoDup(s.timedOut)
  {
    hide Chain, BackChain, Placed, NoDup;
    ChainIsUnique(next, h.tx, s.consumer, s'.consumer);
    ChainIsUnique(next, h.compl, s.producer, s'.producer);
    ChainIsUnique(next, h.missHead, s.missed, s'.missed);
    ChainIsUnique(next, h.outHead, s.timedOut, s'.timedOut);
    ChainIsAcyclic(next, h.tx, s.consumer);
    ChainIsAcyclic(next, h.compl, s.producer);
    ChainIsAcyclic(next, h.missHead, s.missed);
    ChainIsAcyclic(next, h.outHead, s.timedOut);
  }

  // ----- The sender's list ---------------------------------------------------------------------

  lemma LinkSteal(next: seq<int>, prev: seq<int>, h: Heads, s: State)
    requires Links(next, prev, h, s) && InBounds(s) && s.tx == TxIdle && s.consumer == []
    ensures Links(next, prev, h.(tx := h.compl, compl := -1), Step(s, TxSteal))
  {
    hide Placed;
    StealKeepsPlaced(s);
  }

  lemma LinkPop(next: seq<int>, prev: seq<int>, h: Heads, s: State)
    requires Links(next, prev, h, s) && InBounds(s) && s.tx == TxIdle && s.consumer != []
    ensures s.consumer[0] < |next| && h.tx == s.consumer[0]
    ensures Links(next, prev, h.(tx := next[s.consumer[0]]), Step(s, TxPop))
  {
    hide Placed;
    PopKeepsPlaced(s);
    ChainPop(next, h.tx, s.consumer);
  }

  // ----- Pushing -------------------------------------------------------------------------------

  function PushOf(s: State, sender: bool): Push {
    if sender then (if s.tx.TxFreeing? then s.tx.push else NoPush) else s.compl
  }

  function PushAction(sender: bool): Action {
    if sender then TxPush else CPush
  }

  lemma LinkLoad(next: seq<int>, prev: seq<int>, h: Heads, s: State, sender: bool)
    requires Links(next, prev, h, s) && InBounds(s) && PushOf(s, sender).Start?
    ensures Links(next, prev, h, Step(s, PushAction(sender)))
    ensures PushOf(Step(s, PushAction(sender)), sender) == Loaded(PushOf(s, sender).t, h.compl)
  {
    hide Placed, BackChain;
    PushStepKeepsPlaced(s, sender);
  }

  /** The link is written while the tag is on no list. */
  lemma LinkLink(next: seq<int>, prev: seq<int>, h: Heads, s: State, sender: bool)
    requires Links(next, prev, h, s) && InBounds(s) && PushOf(s, sender).Loaded?
    ensures PushOf(s, sender).t < |next|
    ensures Links(next[PushOf(s, sender).t := PushOf(s, sender).seen], prev, h, Step(s, PushAction(sender)))
  {
    hide Chain, BackChain, OnList;
    var t, v := PushOf(s, sender).t, PushOf(s, sender).seen;
    PushStepKeepsPlaced(s, sender);
    ListFacts(s, t);
    ChainFrame(next, h.tx, s.consumer, t, v);
    ChainFrame(next, h.compl, s.producer, t, v);
    ChainFrame(next, h.missHead, s.missed, t, v);
    ChainFrame(next, h.outHead, s.timedOut, t, v);
  }

  /**
   Compare-and-swap. Success means the head is again what was loaded, whatever
   happened in between, so the link written earlier is the right one.
   */
  lemma LinkCas(next: seq<int>, prev: seq<int>, h: Heads, s: State, sender: bool)
    requires Links(next, prev, h, s) && InBounds(s) && PushOf(s, sender).Linked?
    ensures var p := PushOf(s, sender);
      Links(next, prev, if h.compl == p.seen then h.(compl := p.t) else h, Step(s, PushAction(sender)))
  {
    hide BackChain, OnList, Chain, ListsOk;
    var p := PushOf(s, sender);
    PushStepKeepsPlaced(s, sender);
    ListFacts(s, p.t);
    ChainHead(next, h.compl, s.producer);
    HeadIsFirst(next, h.compl, s.producer);
    if h.compl == p.seen {
      assert next[p.t := h.compl] == next;
      ChainPush(next, h.compl, s.producer, p.t);
    }
  }

  lemma HeadIsFirst(next: seq<int>, head: int, l: seq<nat>)
    requires Chain(next, head, l)
    ensures head == First(l)
  {
  }

  // ----- The timeout lists -------------------------------------------------------------------------

  lemma LinkMiss(next: seq<int>, prev: seq<int>, h: Heads, s: State, t: nat)
    requires Links(next, prev, h, s) && StatesOk(s) && t < |s.place| && s.place[t] == InFlight && s.compl.NoPush?
    ensures -1 <= h.missTail < |next|
    ensures Links(AppendNext(next, h.missTail, t), prev[t := h.missTail],
                  h.(missHead := if h.missTail == -1 then t else h.missHead, missTail := t),
                  Handle(s, Miss, t))
  {
    hide Chain, OnList;
    HandleKeepsPlaced(s, Miss, t);
    ListFacts(s, t);
    BackTail(prev, h.missTail, s.missed);
    if h.missTail >= 0 { ListFacts(s, h.missTail); }
    assert s.pkts[t].state == StateAt(s.place[t], s.tx);
    AppendForward(next, h.missHead, s.missed, t);
    AppendBackward(prev, h.missTail, s.missed, t);
    BackFrame(prev, h.outTail, s.timedOut, t, h.missTail);
    AppendElsewhere(next, h.tx, s.consumer, h.missTail, t);
    AppendElsewhere(next, h.compl, s.producer, h.missTail, t);
    AppendElsewhere(next, h.outHead, s.timedOut, h.missTail, t);
  }

  /** `remove_from_list`: the neighbours of `t` are joined; everything else keeps its links. */
  lemma Joined(next: seq<int>, prev: seq<int>, head: int, tail: int, l: seq<nat>, t: nat)
    requires Chain(next, head, l) && BackChain(prev, tail, l) && NoDup(l) && t in l
    ensures t < |next| && t < |prev|
    ensures -1 <= prev[t] < |next| && -1 <= next[t] < |prev|
    ensures prev[t] >= 0 ==> prev[t] in l
    ensures next[t] >= 0 ==> next[t] in l
    ensures Chain(WriteAt(next, prev[t], next[t]), if prev[t] == -1 then next[t] else head, RemoveTag(l, t))
    ensures BackChain(WriteAt(prev, next[t], prev[t]), if next[t] == -1 then prev[t] else tail, RemoveTag(l, t))
  {
    var k :| 0 <= k < |l| && l[k] == t;
    assert next[l[k]] == After(l, k) && prev[l[k]] == Before(l, k);
    UnlinkForward(next, head, l, k);
    UnlinkBackward(prev, tail, l, k);
    RemoveTagIsWithout(l, t, k);
  }

  lemma WriteElsewhere(next: seq<int>, head: int, l: seq<nat>, i: int, v: int)
    requires Chain(next, head, l) && -1 <= i < |next| && (i >= 0 ==> i !in l)
    ensures Chain(WriteAt(next, i, v), head, l)
  {
  }

  lemma WriteElsewhereBack(prev: seq<int>, tail: int, l: seq<nat>, i: int, v: int)
    requires BackChain(prev, tail, l) && -1 <= i < |prev| && (i >= 0 ==> i !in l)
    ensures BackChain(WriteAt(prev, i, v), tail, l)
  {
  }

  /** The links once `t` is off the miss list, with `s'` the state the caller moves to. */
  lemma LinkOffMissed(next: seq<int>, prev: seq<int>, h: Heads, s: State, t: nat)
    requires Links(next, prev, h, s) && t < |s.place| && s.place[t] == Missed
    ensures -1 <= prev[t] < |next| && -1 <= next[t] < |prev|
    ensures var next', prev' := WriteAt(next, prev[t], next[t]), WriteAt(prev, next[t], prev[t]);
      && Chain(next', if prev[t] == -1 then next[t] else h.missHead, RemoveTag(s.missed, t))
      && BackChain(prev', if next[t] == -1 then prev[t] else h.missTail, RemoveTag(s.missed, t))
      && Chain(next', h.tx, s.consumer) && Chain(next', h.compl, s.producer)
      && Chain(next', h.outHead, s.timedOut) && BackChain(prev', h.outTail, s.timedOut)
      && Points(next', s.compl) && (s.tx.TxFreeing? ==> Points(next', s.tx.push))
  {
    hide Chain, BackChain, OnList, RemoveTag, NoDup;
    ListFacts(s, t);
    Joined(next, prev, h.missHead, h.missTail, s.missed, t);
    if prev[t] >= 0 { ListFacts(s, prev[t]); }
    if next[t] >= 0 { ListFacts(s, next[t]); }
    WriteElsewhere(next, h.tx, s.consumer, prev[t], next[t]);
    WriteElsewhere(next, h.compl, s.producer, prev[t], next[t]);
    WriteElsewhere(next, h.outHead, s.timedOut, prev[t], next[t]);
    WriteElsewhereBack(prev, h.outTail, s.timedOut, next[t], prev[t]);
  }

  lemma LinkOffTimedOut(next: seq<int>, prev: seq<int>, h: Heads, s: State, t: nat)
    requires Links(next, prev, h, s) && t < |s.place| && s.place[t] == TimedOut
    ensures -1 <= prev[t] < |next| && -1 <= next[t] < |prev|
    ensures var next', prev' := WriteAt(next, prev[t], next[t]), WriteAt(prev, next[t], prev[t]);
      && Chain(next', if prev[t] == -1 then next[t] else h.outHead, RemoveTag(s.timedOut, t))
      && BackChain(prev', if next[t] == -1 then prev[t] else h.outTail, RemoveTag(s.timedOut, t))
      && Chain(next', h.tx, s.consumer) && Chain(next', h.compl, s.producer)
      && Chain(next', h.missHead, s.missed) && BackChain(prev', h.missTail, s.missed)
      && Points(next', s.compl) && (s.tx.TxFreeing? ==> Points(next', s.tx.push))
  {
    hide Chain, BackChain, OnList, RemoveTag, NoDup;
    ListFacts(s, t);
    Joined(next, prev, h.outHead, h.outTail, s.timedOut, t);
    if prev[t] >= 0 { ListFacts(s, prev[t]); }
    if next[t] >= 0 { ListFacts(s, next[t]); }
    WriteElsewhere(next, h.tx, s.consumer, prev[t], next[t]);
    WriteElsewhere(next, h.compl, s.producer, prev[t], next[t]);
    WriteElsewhere(next, h.missHead, s.missed, prev[t], next[t]);
    WriteElsewhereBack(prev, h.missTail, s.missed, next[t], prev[t]);
  }

  // ----- Whole moves -------------------------------------------------------------------------------

  lemma LinkReinjectMissed(next: seq<int>, prev: seq<int>, h: Heads, s: State, t: nat)
    requires Links(next, prev, h, s) && StatesOk(s) && t < |s.place| && s.place[t] == Missed && s.compl.NoPush?
    ensures -1 <= prev[t] < |next| && -1 <= next[t] < |prev|
    ensures Links(WriteAt(next, prev[t], next[t]), WriteAt(prev, next[t], prev[t]),
                  h.(missHead := if prev[t] == -1 then next[t] else h.missHead,
                     missTail := if next[t] == -1 then prev[t] else h.missTail),
                  Handle(s, Reinject, t))
  {
    hide Chain, BackChain, ListsOk, Owned;
    HandleKeepsPlaced(s, Reinject, t);
    LinkOffMissed(next, prev, h, s, t);
    assert s.pkts[t].state == StateAt(s.place[t], s.tx);
  }

  lemma LinkReinjectTimedOut(next: seq<int>, prev: seq<int>, h: Heads, s: State, t: nat)
    requires Links(next, prev, h, s) && StatesOk(s) && t < |s.place| && s.place[t] == TimedOut && s.compl.NoPush?
    ensures -1 <= prev[t] < |next| && -1 <= next[t] < |prev|
    ensures Links(WriteAt(next, prev[t], next[t]), WriteAt(prev, next[t], prev[t]),
                  h.(outHead := if prev[t] == -1 then next[t] else h.outHead,
                     outTail := if next[t] == -1 then prev[t] else h.outTail),
                  Handle(s, Reinject, t))
  {
    hide Chain, BackChain, ListsOk, Owned;
    HandleKeepsPlaced(s, Reinject, t);
    LinkOffTimedOut(next, prev, h, s, t);
    assert s.pkts[t].state == StateAt(s.place[t], s.tx);
  }

  lemma LinkData(next: seq<int>, prev: seq<int>, h: Heads, s: State, t: nat)
    requires Links(next, prev, h, s) && StatesOk(s) && t < |s.place| && s.place[t] == InFlight && s.compl.NoPush?
    ensures Links(next, prev, h, Handle(s, Data, t))
  {
    hide Chain, BackChain, ListsOk, Owned;
    HandleKeepsPlaced(s, Data, t);
    assert s.pkts[t].state == StateAt(s.place[t], s.tx);
  }

  /** Off the head of the miss list and onto the end of the timed-out list. */
  lemma LinkExpire(next: seq<int>, prev: seq<int>, h: Heads, s: State)
    requires Links(next, prev, h, s) && InBounds(s) && s.missed != [] && s.compl.NoPush?
    ensures h.missHead == s.missed[0] && h.missHead < |next|
    ensures prev[h.missHead] == -1 && -1 <= next[h.missHead] < |prev| && -1 <= h.outTail < |next|
    ensures var t := h.missHead;
      Links(AppendNext(next, h.outTail, t), WriteAt(prev, next[t], -1)[t := h.outTail],
            h.(missHead := next[t], missTail := if next[t] == -1 then -1 else h.missTail,
               outHead := if h.outTail == -1 then t else h.outHead, outTail := t),
            ExpireMiss(s))
  {
    hide OnList, Chain, BackChain, NoDup, RemoveTag, Placed;
    MissFront(next, prev, h, s);
    ScanKeepsPlaced(s);
    ExpireForward(next, prev, h, s);
    ExpireBackward(next, prev, h, s);
  }

  lemma ExpireForward(next: seq<int>, prev: seq<int>, h: Heads, s: State)
    requires Links(next, prev, h, s) && InBounds(s) && s.missed != []
    ensures h.missHead == s.missed[0] && h.missHead < |next| && -1 <= next[h.missHead] < |prev|
    ensures -1 <= h.outTail < |next|
    ensures var t, next' := h.missHead, AppendNext(next, h.outTail, h.missHead);
      && Chain(next', h.tx, s.consumer) && Chain(next', h.compl, s.producer) && Chain(next', next[t], s.missed[1..])
      && Chain(next', if h.outTail == -1 then t else h.outHead, s.timedOut + [t])
      && Points(next', s.compl) == Points(next, s.compl)
      && (s.tx.TxFreeing? ==> Points(next', s.tx.push))
  {
    hide OnList, Chain, BackChain, NoDup, RemoveTag;
    var t := s.missed[0];
    MissFront(next, prev, h, s);
    ListFacts(s, t);
    LinkOffMissed(next, prev, h, s, t);
    BackTail(prev, h.outTail, s.timedOut);
    if h.outTail >= 0 { ListFacts(s, h.outTail); }
    NotInTail(s.missed);
    AppendForward(next, h.outHead, s.timedOut, t);
    AppendElsewhere(next, h.tx, s.consumer, h.outTail, t);
    AppendElsewhere(next, h.compl, s.producer, h.outTail, t);
    AppendElsewhere(next, next[t], s.missed[1..], h.outTail, t);
  }

  lemma ExpireBackward(next: seq<int>, prev: seq<int>, h: Heads, s: State)
    requires Links(next, prev, h, s) && InBounds(s) && s.missed != []
    ensures h.missHead == s.missed[0] && h.missHead < |next| && -1 <= next[h.missHead] < |prev|
    ensures prev[h.missHead] == -1
    ensures var t := h.missHead;
      var prev' := WriteAt(prev, next[t], -1)[t := h.outTail];
      && BackChain(prev', if next[t] == -1 then -1 else h.missTail, s.missed[1..])
      && BackChain(prev', t, s.timedOut + [t])
  {
    hide OnList, Chain, BackChain, NoDup, RemoveTag;
    var t := s.missed[0];
    MissFront(next, prev, h, s);
    ListFacts(s, t);
    LinkOffMissed(next, prev, h, s, t);
    var prev' := WriteAt(prev, next[t], -1);
    NotInTail(s.missed);
    AppendBackward(prev', h.outTail, s.timedOut, t);
    BackFrame(prev', if next[t] == -1 then -1 else h.missTail, s.missed[1..], t, h.outTail);
  }

  lemma MissFront(next: seq<int>, prev: seq<int>, h: Heads, s: State)
    requires Links(next, prev, h, s) && s.missed != []
    ensures s.missed[0] < |s.place| && s.place[s.missed[0]] == Missed
    ensures h.missHead == s.missed[0] && prev[s.missed[0]] == -1
    ensures RemoveTag(s.missed, s.missed[0]) == s.missed[1..]
    ensures h.outTail == Final(s.timedOut)
    ensures forall i :: 0 <= i < |s.missed[1..]| ==> s.missed[1..][i] in s.missed
  {
    assert prev[s.missed[0]] == Before(s.missed, 0);
  }

  lemma OutFront(next: seq<int>, prev: seq<int>, h: Heads, s: State)
    requires Links(next, prev, h, s) && s.timedOut != []
    ensures s.timedOut[0] < |s.place| && s.place[s.timedOut[0]] == TimedOut
    ensures h.outHead == s.timedOut[0] && prev[s.timedOut[0]] == -1
    ensures RemoveTag(s.timedOut, s.timedOut[0]) == s.timedOut[1..]
  {
    assert prev[s.timedOut[0]] == Before(s.timedOut, 0);
  }

  /** Off the head of the timed-out list and into the completion thread's hands. */
  lemma LinkDeallocate(next: seq<int>, prev: seq<int>, h: Heads, s: State)
    requires Links(next, prev, h, s) && StatesOk(s) && InBounds(s) && s.compl.NoPush?
    requires s.timedOut != [] && Expired(s, s.timedOut[0])
    ensures h.outHead == s.timedOut[0] && h.outHead < |next|
    ensures prev[h.outHead] == -1 && -1 <= next[h.outHead] < |prev|
    ensures var t := h.outHead;
      Links(next, WriteAt(prev, next[t], -1),
            h.(outHead := next[t], outTail := if next[t] == -1 then -1 else h.outTail),
            Step(s, ScanTimedOut))
  {
    hide OnList, Chain, BackChain, NoDup, RemoveTag, ListsOk;
    OutFront(next, prev, h, s);
    StepKeepsPlaced(s, ScanTimedOut);
    LinkOffTimedOut(next, prev, h, s, s.timedOut[0]);
  }

  const ALT_MISS_COMPL_BIT: bv16 := 0x8000

  /** Testing and clearing the top bit of a 16-bit tag is a comparison and a subtraction. */
  lemma TopBit(tag: bv16)
    ensures tag & ALT_MISS_COMPL_BIT != 0 <==> tag >= ALT_MISS_COMPL_BIT
    ensures tag & ALT_MISS_COMPL_BIT != 0 ==> tag & !ALT_MISS_COMPL_BIT == tag - ALT_MISS_COMPL_BIT
  {
  }

  lemma InitLinks(next: seq<int>, prev: seq<int>, n: nat, hz: nat, now: int)
    requires n > 0 && |next| == |prev| == n && next[n - 1] == -1 && Inv(Init(n, hz, now))
    requires forall j :: 0 <= j < n - 1 ==> next[j] == j + 1
    ensures Links(next, prev, Heads(0, -1, -1, -1, -1, -1), Init(n, hz, now))
  {
    hide StatesOk, InOrder;
  }

  class TagRing {
    const hz: nat
    const next: array<int>
    const prev: array<int>
    const pkts: array<Pkt>
    var txHead: int      // dqo_tx.free_pending_packets
    var complHead: int   // dqo_compl.free_pending_packets
    var missHead: int
    var missTail: int
    var outHead: int
    var outTail: int

    // The state of the machine this ring is in.
    ghost var s: State

    ghost function Ends(): Heads
      reads this
    {
      Heads(txHead, complHead, missHead, missTail, outHead, outTail)
    }

    ghost predicate Valid()
      reads this, next, prev, pkts
    {
      && next != prev && pkts[..] == s.pkts && hz == s.hz
      && Links(next[..], prev[..], Ends(), s)
      && Inv(s)
    }

    /** The list set up by `gve_tx_alloc_ring_dqo`: every tag free, in order, with the sender. */
    constructor (n: nat, hz: nat, now: int)
      requires n > 0
      ensures Valid() && fresh(next) && fresh(prev) && fresh(pkts)
      ensures s == Init(n, hz, now)
    {
      this.hz := hz;
      next := new int[n];
      prev := new int[n];
      pkts := new Pkt[n](_ => Pkt(Unallocated, NoSkb, 0));
      txHead, complHead, missHead, missTail, outHead, outTail := 0, -1, -1, -1, -1, -1;
      s := Init(n, hz, now);
      new;
      for i := 0 to n - 1
        modifies next
        invariant forall j :: 0 <= j < i ==> next[j] == j + 1
      {
        next[i] := i + 1;
      }
      next[n - 1] := -1;
      InitInv(n, hz, now);
      InitLinks(next[..], prev[..], n, hz, now);
      assert pkts[..] == s.pkts;
    }

    lemma Facts()
      requires Valid()
      ensures next.Length == prev.Length == pkts.Length == |s.place| == |s.pkts|
      ensures InBounds(s) && Placed(s) && StatesOk(s)
      ensures txHead == First(s.consumer) && complHead == First(s.producer)
      ensures missHead == First(s.missed) && outHead == First(s.timedOut)
      ensures missTail == Final(s.missed) && outTail == Final(s.timedOut)
      ensures s.missed != [] ==> 0 <= missHead < next.Length && next[missHead] == First(s.missed[1..])
    {
      PlacedInBounds(s);
      if s.missed != [] {
        ChainPop(next[..], missHead, s.missed);
      }
    }

    /** `atomic_xchg` of the producer list into the empty consumer list. */
    method Steal()
      requires Valid() && s.tx == TxIdle && txHead == -1
      modifies this
      ensures Valid() && s == Step(old(s), TxSteal)
    {
      hide Links, Inv, Placed, StatesOk, Step;
      Facts();
      LinkSteal(next[..], prev[..], Ends(), s);
      StepKeepsInv(s, TxSteal);
      StepKeepsPkts(s, TxSteal);
      txHead, complHead := complHead, -1;
      s := Step(s, TxSteal);
    }

    /** Take the first tag of the consumer list; -1 when it is empty. */
    method Pop() returns (t: int)
      requires Valid() && s.tx == TxIdle
      modifies this
      ensures Valid() && s == Step(old(s), TxPop)
      ensures t == First(old(s).consumer)
    {
      hide Links, Inv, Placed, StatesOk, Step;
      Facts();
      StepKeepsInv(s, TxPop);
      StepKeepsPkts(s, TxPop);
      t := txHead;
      if t == -1 {
        PopNothing(s);
        return;
      }
      LinkPop(next[..], prev[..], Ends(), s);
      txHead := next[t];
      s := Step(s, TxPop);
    }

    /** `atomic_read` of the producer list's head. */
    method PushLoad(sender: bool) returns (seen: int)
      requires Valid() && PushOf(s, sender).Start?
      modifies this`s
      ensures Valid() && s == Step(old(s), PushAction(sender))
      ensures PushOf(s, sender) == Loaded(PushOf(old(s), sender).t, seen)
    {
      hide Links, Inv, Placed, StatesOk, Step;
      Facts();
      LinkLoad(next[..], prev[..], Ends(), s, sender);
      StepKeepsInv(s, PushAction(sender));
      StepKeepsPkts(s, PushAction(sender));
      seen := complHead;
      s := Step(s, PushAction(sender));
    }

    /** The tag being pushed is linked to the head just loaded. */
    method PushLink(sender: bool, t: nat, seen: int)
      requires Valid() && PushOf(s, sender) == Loaded(t, seen)
      modifies this`s, next
      ensures Valid() && s == Step(old(s), PushAction(sender))
    {
      hide Links, Inv, Placed, StatesOk, Step;
      Facts();
      LinkLink(next[..], prev[..], Ends(), s, sender);
      StepKeepsInv(s, PushAction(sender));
      StepKeepsPkts(s, PushAction(sender));
      next[t] := seen;
      s := Step(s, PushAction(sender));
      assert next[..] == old(next[..])[t := seen];
    }

    /** `atomic_cmpxchg` on the producer list's head. */
    method PushCas(sender: bool, t: nat, seen: int) returns (ok: bool)
      requires Valid() && PushOf(s, sender) == Linked(t, seen)
      modifies this
      ensures Valid() && s == Step(old(s), PushAction(sender))
      ensures ok <==> First(old(s).producer) == seen
    {
      hide Links, Inv, Placed, StatesOk, Step;
      Facts();
      LinkCas(next[..], prev[..], Ends(), s, sender);
      StepKeepsInv(s, PushAction(sender));
      StepKeepsPkts(s, PushAction(sender));
      ok := complHead == seen;
      if ok {
        complHead := t;
      }
      s := Step(s, PushAction(sender));
    }

    /** The links `add_to_list` writes for `t` behind `oldTail`. */
    method AppendLinks(t: nat, oldTail: int)
      requires next != prev && t < next.Length == prev.Length && -1 <= oldTail < next.Length
      modifies next, prev
      ensures next[..] == AppendNext(old(next[..]), oldTail, t)
      ensures prev[..] == old(prev[..])[t := oldTail]
    {
      if oldTail != -1 {
        next[oldTail] := t;
      }
      next[t] := -1;
      prev[t] := oldTail;
    }

    /** `gve_handle_miss_completion`, with `add_to_list` on the miss list. */
    method HandleMiss(t: nat, jiffies: int)
      requires Valid() && s.compl.NoPush? && Permitted(s, t) && jiffies == s.now
      modifies this, next, prev, pkts
      ensures Valid() && s == Handle(old(s), Miss, t)
    {
      hide Links, Inv, Placed;
      Facts();
      HandleKeepsInv(s, Miss, t);
      if t >= pkts.Length || pkts[t].state != PendingData {
        return;
      }
      PendingIsInFlight(s, t);
      LinkMiss(next[..], prev[..], Ends(), s, t);
      pkts[t] := pkts[t].(state := PendingReinject, timeout := jiffies + hz);
      var oldTail := missTail;
      missTail := t;
      if oldTail == -1 {
        missHead := t;
      }
      AppendLinks(t, oldTail);
      s := Handle(s, Miss, t);
    }

    /** A data completion, up to freeing the tag. */
    method FinishData(t: nat) returns (done: bool)
      requires Valid() && s.compl.NoPush? && Permitted(s, t)
      modifies this, pkts
      ensures Valid() && s == Handle(old(s), Data, t)
      ensures s.compl == (if done then Start(t) else NoPush) && s.tx == old(s).tx
    {
      hide Links, Inv, Placed;
      Facts();
      HandleKeepsInv(s, Data, t);
      if t >= pkts.Length || pkts[t].state != PendingData {
        return false;
      }
      PendingIsInFlight(s, t);
      LinkData(next[..], prev[..], Ends(), s, t);
      pkts[t] := Pkt(Unallocated, NoSkb, pkts[t].timeout);
      s := Handle(s, Data, t);
      done := true;
    }

    /** `remove_from_list`, given what the neighbours of `t` are. */
    method JoinNeighbours(t: nat)
      requires next != prev && t < next.Length && t < prev.Length
      requires -1 <= prev[t] < next.Length && -1 <= next[t] < prev.Length
      modifies next, prev
      ensures next[..] == WriteAt(old(next[..]), old(prev[t]), old(next[t]))
      ensures prev[..] == WriteAt(old(prev[..]), old(next[t]), old(prev[t]))
    {
      var prevIndex, nextIndex := prev[t], next[t];
      if prevIndex != -1 {
        next[prevIndex] := nextIndex;
      }
      if nextIndex != -1 {
        prev[nextIndex] := prevIndex;
      }
    }

    /** A reinjection that comes after the timeout only frees the tag. */
    method ReinjectTimedOut(t: nat)
      requires Valid() && s.compl.NoPush? && t < pkts.Length && pkts[t].state == TimedOutCompl
      modifies this, next, prev, pkts
      ensures Valid() && s == Handle(old(s), Reinject, t)
    {
      hide Links, Inv, Placed, StatesOk, Handle;
      Facts();
      StatePlace(s, t);
      HandleKeepsInv(s, Reinject, t);
      HandleFreesPkt(s, t);
      LinkReinjectTimedOut(next[..], prev[..], Ends(), s, t);
      if prev[t] == -1 { outHead := next[t]; }
      if next[t] == -1 { outTail := prev[t]; }
      JoinNeighbours(t);
      pkts[t] := Pkt(Unallocated, NoSkb, pkts[t].timeout);
      s := Handle(s, Reinject, t);
    }

    /** A reinjection in time completes the packet. */
    method ReinjectMissed(t: nat)
      requires Valid() && s.compl.NoPush? && t < pkts.Length && pkts[t].state == PendingReinject
      modifies this, next, prev, pkts
      ensures Valid() && s == Handle(old(s), Reinject, t)
    {
      hide Links, Inv, Placed, StatesOk, Handle;
      Facts();
      StatePlace(s, t);
      HandleKeepsInv(s, Reinject, t);
      HandleFreesPkt(s, t);
      LinkReinjectMissed(next[..], prev[..], Ends(), s, t);
      if prev[t] == -1 { missHead := next[t]; }
      if next[t] == -1 { missTail := prev[t]; }
      JoinNeighbours(t);
      pkts[t] := Pkt(Unallocated, NoSkb, pkts[t].timeout);
      s := Handle(s, Reinject, t);
    }

    /** A reinjection, up to freeing the tag. */
    method FinishReinjection(t: nat) returns (done: bool)
      requires Valid() && s.compl.NoPush?
      modifies this, next, prev, pkts
      ensures Valid() && s == Handle(old(s), Reinject, t)
      ensures s.compl == (if done then Start(t) else NoPush) && s.tx == old(s).tx
    {
      hide Links, Inv, Placed, StatesOk;
      Facts();
      if t >= pkts.Length {
        return false;
      }
      done := true;
      if pkts[t].state == TimedOutCompl {
        ReinjectTimedOut(t);
      } else if pkts[t].state == PendingReinject {
        ReinjectMissed(t);
      } else {
        done := false;
      }
    }

    /** The first half of a round of the push loop: load and link. */
    method PushPrepare(t: nat) returns (seen: int)
      requires Valid() && s.compl == Start(t)
      modifies this`s, next
      ensures Valid() && s == Exec(old(s), [CPush, CPush]) && SameRest(old(s), s)
      ensures s.compl == Linked(t, seen) && seen == First(s.producer)
    {
      hide Links, Inv, Placed, StatesOk, Step, Exec;
      Facts();
      PushFacts(s);
      ghost var s0 := s;
      seen := PushLoad(false);
      Facts();
      PushFacts(s);
      RunOfTwo(s0, CPush, CPush);
      PushLink(false, t, seen);
    }

    /** The second half: the swap, before which the sender steals or not. */
    method PushSwap(t: nat, seen: int, steal: bool) returns (done: bool, ghost run: seq<Action>)
      requires Valid() && s.compl == Linked(t, seen) && seen == First(s.producer) && (steal ==> s.tx == TxIdle)
      modifies this
      ensures Valid() && s == Exec(old(s), run) && SameRest(old(s), s)
      ensures run == [CPush] || run == [TxSteal, CPush]
      ensures if done then s.compl.NoPush? && s.producer != [] && s.producer[0] == t else s.compl == Start(t) && steal
    {
      hide Links, Inv, Placed, StatesOk, Step, Exec;
      ghost var s0 := s;
      Facts();
      if steal && txHead == -1 {
        StealFacts(s);
        Steal();
        Facts();
        RunOfTwo(s0, TxSteal, CPush);
        run := [TxSteal, CPush];
      } else {
        RunOfOne(s0, CPush);
        run := [CPush];
      }
      PushFacts(s);
      done := PushCas(false, t, seen);
    }

    /** One round of the push loop, with the sender stealing before the swap or not. */
    method PushRound(t: nat, steal: bool) returns (done: bool, ghost run: seq<Action>)
      requires Valid() && s.compl == Start(t) && (steal ==> s.tx == TxIdle)
      modifies this, next
      ensures Valid() && s == Exec(old(s), run) && OfPush(run) && SameRest(old(s), s)
      ensures if done then s.compl.NoPush? && s.producer != [] && s.producer[0] == t else s.compl == Start(t) && steal
    {
      hide Links, Inv, Placed, StatesOk, Step, Exec;
      var seen := PushPrepare(t);
      ghost var swap;
      done, swap := PushSwap(t, seen, steal);
      Append(old(s), [CPush, CPush], swap);
      run := [CPush, CPush] + swap;
    }

    /**
     `gve_free_pending_packet`: the push loop, until a swap succeeds. Where
     `steals[i]`, the sender takes the whole list before the swap of round `i`.
     */
    method FreePending(t: nat, steals: seq<bool>) returns (ghost run: seq<Action>)
      requires Valid() && s.compl == Start(t) && (steals != [] ==> s.tx == TxIdle)
      modifies this, next
      ensures Valid() && s == Exec(old(s), run) && OfPush(run)
      ensures SameRest(old(s), s) && s.compl.NoPush?
      ensures s.producer != [] && s.producer[0] == t
    {
      hide Links, Inv, Placed, StatesOk, Step, Exec;
      ghost var s0 := s;
      run := [];
      NoRun(s);
      var i, done := 0, false;
      while !done
        invariant Valid() && s == Exec(s0, run) && OfPush(run) && SameRest(s0, s)
        invariant 0 <= i <= |steals|
        invariant if done then s.compl.NoPush? && s.producer != [] && s.producer[0] == t else s.compl == Start(t)
        decreases |steals| - i, if done then 0 else 1
      {
        ghost var more;
        done, more := PushRound(t, i < |steals| && steals[i]);
        Append(s0, run, more);
        run := run + more;
        if i < |steals| {
          i := i + 1;
        }
      }
    }

    /** `gve_handle_packet_completion` for a data completion */
    method HandleData(t: nat, steals: seq<bool>) returns (ghost run: seq<Action>)
      requires Valid() && s.compl.NoPush? && Permitted(s, t) && (steals != [] ==> s.tx == TxIdle)
      modifies this, next, pkts
      ensures Valid() && s == Exec(Handle(old(s), Data, t), run) && OfPush(run)
      ensures s.compl.NoPush?
    {
      hide Links, Inv, Placed, StatesOk, Handle, Exec;
      Facts();
      HandleKeepsInv(s, Data, t);
      NoRun(Handle(s, Data, t));
      var done := FinishData(t);
      run := [];
      if done {
        run := FreePending(t, steals);
      }
    }

    /** `gve_handle_packet_completion` for a reinjection */
    method HandleReinjection(t: nat, steals: seq<bool>) returns (ghost run: seq<Action>)
      requires Valid() && s.compl.NoPush? && (steals != [] ==> s.tx == TxIdle)
      modifies this, next, prev, pkts
      ensures Valid() && s == Exec(Handle(old(s), Reinject, t), run) && OfPush(run)
      ensures s.compl.NoPush?
    {
      hide Links, Inv, Placed, StatesOk, Handle, Exec;
      Facts();
      NoRun(Handle(s, Reinject, t));
      var done := FinishReinjection(t);
      run := [];
      if done {
        run := FreePending(t, steals);
      }
    }

    /**
     The dispatch in `gve_clean_tx_done_dqo`; a miss may come as a packet
     completion with the top tag bit set. What it does is the completion step,
     and then the steps of the push if a tag is freed.
     */
    method HandleCompletion(kind: Kind, tag: nat, jiffies: int, steals: seq<bool>) returns (ghost run: seq<Action>)
      requires Valid() && s.compl.NoPush? && jiffies == s.now && tag < 0x1_0000
      requires Permitted(s, Decode(kind, tag).1) && (steals != [] ==> s.tx == TxIdle)
      modifies this, next, prev, pkts
      ensures Valid() && InBounds(old(s)) && s.compl.NoPush?
      ensures s == Exec(Step(old(s), Completion(kind, tag)), run) && OfPush(run)
    {
      hide Links, Inv, Placed, StatesOk, Handle, Exec;
      Facts();
      MissKeepsPush(s, Decode(kind, tag).1);
      NoRun(Step(s, Completion(kind, tag)));
      match kind
      case Data =>
        if tag / 0x8000 == 1 {
          HandleMiss(tag % 0x8000, jiffies);
          run := [];
        } else {
          run := HandleData(tag, steals);
        }
      case Miss =>
        HandleMiss(tag, jiffies);
        run := [];
      case Reinject =>
        run := HandleReinjection(tag, steals);
    }

    /** One round of the scan: the oldest missed packet is dropped and its tag set aside. */
    method ExpireOldest(jiffies: int)
      requires Valid() && s.compl.NoPush? && missHead != -1 && jiffies == s.now
      modifies this, next, prev, pkts
      ensures Valid() && s == ExpireMiss(old(s))
    {
      hide Links, Inv, Placed, StatesOk, ExpireMiss;
      Facts();
      ExpireMissFacts(s);
      ExpireMissKeepsInv(s);
      LinkExpire(next[..], prev[..], Ends(), s);
      var t := missHead;
      missHead := next[t];
      if next[t] == -1 {
        missTail := -1;
      }
      JoinNeighbours(t);
      pkts[t] := Pkt(TimedOutCompl, NoSkb, jiffies + 60 * hz);
      var oldTail := outTail;
      outTail := t;
      if oldTail == -1 {
        outHead := t;
      }
      AppendLinks(t, oldTail);
      s := ExpireMiss(s);
    }

    /** The oldest timed-out tag comes off its list, to be freed. */
    method TakeTimedOut() returns (t: nat)
      requires Valid() && s.compl.NoPush? && s.timedOut != [] && s.timedOut[0] < |s.pkts| && Expired(s, s.timedOut[0])
      modifies this, next, prev, pkts
      ensures Valid() && InBounds(old(s)) && s == Step(old(s), ScanTimedOut)
      ensures t == old(s).timedOut[0] && s.compl == Start(t)
    {
      hide Links, Inv, Placed, StatesOk;
      Facts();
      StepKeepsInv(s, ScanTimedOut);
      LinkDeallocate(next[..], prev[..], Ends(), s);
      t := outHead;
      outHead := next[t];
      if next[t] == -1 {
        outTail := -1;
      }
      JoinNeighbours(t);
      pkts[t] := Pkt(Unallocated, NoSkb, pkts[t].timeout);
      s := Step(s, ScanTimedOut);
    }

    /** One round of the loop: the oldest timed-out tag, which is due, is freed. */
    method FreeOldest(steals: seq<bool>) returns (ghost run: seq<Action>)
      requires Valid() && s.compl.NoPush? && s.timedOut != [] && s.timedOut[0] < |s.pkts| && Expired(s, s.timedOut[0])
      requires steals != [] ==> s.tx == TxIdle
      modifies this, next, prev, pkts
      ensures Valid() && s == Exec(old(s), run) && s.compl.NoPush?
      ensures s.timedOut == old(s).timedOut[1..] && s.missed == old(s).missed
      ensures s.now == old(s).now && s.tx == old(s).tx && SameTimeouts(old(s), s)
    {
      hide Links, Inv, Placed, StatesOk, Step, Exec;
      Facts();
      FreeFacts(s);
      RunOfOne(s, ScanTimedOut);
      var t := TakeTimedOut();
      ghost var pushes := FreePending(t, steals);
      Append(old(s), [ScanTimedOut], pushes);
      run := [ScanTimedOut] + pushes;
    }

    /**
     `remove_timed_out_completions`: frees the tags that are due, oldest first, and
     leaves none that is. The sender may take the free list in between.
     */
    method RemoveTimedOutCompletions(jiffies: int, steals: seq<bool>)
      returns (ghost run: seq<Action>, ghost freed: nat)
      requires Valid() && s.compl.NoPush? && jiffies == s.now && (steals != [] ==> s.tx == TxIdle)
      modifies this, next, prev, pkts
      ensures Valid() && s == Exec(old(s), run)
      ensures s.compl.NoPush? && InBounds(s) && s.now == old(s).now && s.missed == old(s).missed
      ensures freed <= |old(s).timedOut| && s.timedOut == old(s).timedOut[freed..]
      ensures DueFreed(old(s), freed, jiffies)
    {
      hide Links, Inv, Placed, StatesOk, Step, Exec;
      ghost var s0 := s;
      Facts();
      NoRun(s);
      run, freed := [], 0;
      while outHead != -1
        invariant Valid() && InBounds(s) && s == Exec(s0, run)
        invariant s.compl.NoPush? && s.now == s0.now && s.missed == s0.missed && s.tx == s0.tx
        invariant freed <= |s0.timedOut| && s.timedOut == s0.timedOut[freed..] && outHead == First(s.timedOut)
        invariant SameTimeouts(s0, s)
        invariant DueSoFar(s0, freed, jiffies)
        decreases |s.timedOut|
      {
        Facts();
        if pkts[outHead].timeout > jiffies {
          break;
        }
        ghost var more := FreeOldest(steals);
        Append(s0, run, more);
        run := run + more;
        freed := freed + 1;
        Facts();
      }
      NoneDue(s);
      FreedAll(s0, s, freed);
    }

    /** `remove_miss_completions` */
    method RemoveMissCompletions(jiffies: int)
      requires Valid() && s.compl.NoPush? && jiffies == s.now
      modifies this, next, prev, pkts
      ensures Valid() && s == ExpireAll(old(s)) && DueMoved(old(s), s, jiffies)
    {
      hide Links, Inv, Placed, StatesOk, ExpireMiss;
      Facts();
      ScanMoves(s);
      var nextIndex := missHead;
      while nextIndex != -1
        invariant Valid() && s.compl.NoPush? && InBounds(s) && jiffies == s.now
        invariant nextIndex == missHead == First(s.missed)
        invariant ExpireAll(s) == ExpireAll(old(s))
        decreases |s.missed|
      {
        Facts();
        var t := nextIndex;
        if pkts[t].timeout > jiffies {
          break;
        }
        ExpireMissFacts(s);
        nextIndex := next[t];
        ExpireOldest(jiffies);
        Facts();
      }
    }
  }

  /** What the push loop consists of, with the sender stealing in between. */
  predicate OfPush(run: seq<Action>) {
    forall i :: 0 <= i < |run| ==> run[i].CPush? || run[i].TxSteal?
  }

  lemma RunOfOne(s: State, a: Action)
    requires InBounds(s)
    ensures Exec(s, [a]) == Step(s, a)
  {
    hide Step;
    NoRun(s);
    Snoc(s, [], a);
    assert [] + [a] == [a];
  }

  lemma RunOfTwo(s: State, a: Action, b: Action)
    requires InBounds(s) && InBounds(Step(s, a))
    ensures Exec(s, [a, b]) == Step(Step(s, a), b)
  {
    hide Step;
    RunOfOne(s, a);
    Snoc(s, [a], b);
    assert [a] + [b] == [a, b];
  }

  /** Everything the push loop leaves alone. */
  predicate SameRest(s: State, s': State) {
    && s'.tx == s.tx && s'.pkts == s.pkts && s'.now == s.now && s'.hz == s.hz
    && s'.missed == s.missed && s'.timedOut == s.timedOut && |s'.place| == |s.place|
  }

  predicate SameTimeouts(s: State, s': State) {
    |s'.pkts| == |s.pkts| && forall t :: 0 <= t < |s.pkts| ==> s'.pkts[t].timeout == s.pkts[t].timeout
  }

  lemma NoRun(s: State)
    ensures Exec(s, []) == s
  {
  }

  lemma Snoc(s: State, run: seq<Action>, a: Action)
    requires InBounds(Exec(s, run))
    ensures Exec(s, run + [a]) == Step(Exec(s, run), a)
  {
    hide Step;
    assert (run + [a])[..|run|] == run;
  }

  lemma {:induction false} Append(s: State, a: seq<Action>, b: seq<Action>)
    ensures Exec(s, a + b) == Exec(Exec(s, a), b)
    decreases |b|
  {
    hide Step;
    if b == [] {
      assert a + b == a;
    } else {
      var front, last := b[..|b| - 1], b[|b| - 1];
      Append(s, a, front);
      assert (a + b)[..|a + b| - 1] == a + front;
    }
  }

  /** The three steps of the push loop. */
  lemma PushFacts(s: State)
    requires InBounds(s)
    ensures var s' := Step(s, CPush);
      && SameRest(s, s')
      && (s.compl.Start? ==> s'.compl == Loaded(s.compl.t, First(s.producer)) && s'.producer == s.producer)
      && (s.compl.Loaded? ==> s'.compl == Linked(s.compl.t, s.compl.seen) && s'.producer == s.producer)
      && (s.compl.Linked? ==>
            if First(s.producer) == s.compl.seen then s'.compl == NoPush && s'.producer == [s.compl.t] + s.producer
            else s'.compl == Start(s.compl.t))
  {
  }

  lemma StealFacts(s: State)
    requires InBounds(s)
    ensures SameRest(s, Step(s, TxSteal)) && Step(s, TxSteal).compl == s.compl
  {
  }

  lemma FreeFacts(s: State)
    requires InBounds(s) && s.compl.NoPush? && s.timedOut != [] && Expired(s, s.timedOut[0])
    ensures var s' := Step(s, ScanTimedOut);
      && s'.timedOut == s.timedOut[1..] && s'.missed == s.missed && s'.now == s.now && s'.tx == s.tx
      && SameTimeouts(s, s')
  {
  }

  lemma MissKeepsPush(s: State, t: nat)
    requires |s.pkts| == |s.place|
    ensures Handle(s, Miss, t).compl == s.compl
  {
  }

  lemma NoneDue(s: State)
    requires Inv(s) && (s.timedOut == [] || (s.timedOut[0] < |s.pkts| && s.now < s.pkts[s.timedOut[0]].timeout))
    ensures InBounds(s) && forall i :: 0 <= i < |s.timedOut| ==> s.now < s.pkts[s.timedOut[i]].timeout
  {
    hide StatesOk;
    PlacedInBounds(s);
  }

  /** Which entries the scan moves. */
  lemma ScanMoves(s: State)
    requires Inv(s) && InBounds(s) && s.compl.NoPush?
    ensures DueMoved(s, ExpireAll(s), s.now)
  {
    hide Inv, ExpireAll;
    ScanIsExact(s);
    var s' := ExpireAll(s);
    var k := |s.missed| - |s'.missed|;
    forall t | t in s.missed
      ensures if s.pkts[t].timeout <= s.now then t !in s'.missed && t in s'.timedOut else t in s'.missed
    {
      var i :| 0 <= i < |s.missed| && s.missed[i] == t;
      if i < k {
        assert s.missed[..k][i] == t;
      } else {
        assert s'.missed[i - k] == t;
      }
    }
  }

  /** Exactly the entries due at `now` went from the miss list to the timed-out list. */
  ghost predicate DueMoved(s: State, s': State, now: int) {
    forall t :: t in s.missed ==>
      && t < |s.pkts|
      && (if s.pkts[t].timeout <= now then t !in s'.missed && t in s'.timedOut else t in s'.missed)
  }

  /** The first `k` entries of the timed-out list were due at `now`. */
  ghost predicate DueSoFar(s: State, k: nat, now: int) {
    k <= |s.timedOut| && forall i :: 0 <= i < k ==> s.timedOut[i] < |s.pkts| && s.pkts[s.timedOut[i]].timeout <= now
  }

  /** Those and no others. */
  ghost predicate DueFreed(s: State, k: nat, now: int) {
    && DueSoFar(s, k, now)
    && forall i :: k <= i < |s.timedOut| ==> s.timedOut[i] < |s.pkts| && now < s.pkts[s.timedOut[i]].timeout
  }

  lemma FreedAll(s: State, s': State, k: nat)
    requires DueSoFar(s, k, s.now) && s'.timedOut == s.timedOut[k..] && s'.now == s.now && SameTimeouts(s, s')
    requires InBounds(s') && forall i :: 0 <= i < |s'.timedOut| ==> s'.now < s'.pkts[s'.timedOut[i]].timeout
    ensures DueFreed(s, k, s.now)
  {
    forall i | k <= i < |s.timedOut|
      ensures s.timedOut[i] < |s.pkts| && s.now < s.pkts[s.timedOut[i]].timeout
    {
      assert s'.timedOut[i - k] == s.timedOut[i];
    }
  }

  lemma ExpireMissFacts(s: State)
    requires InBounds(s) && s.missed != []
    ensures ExpireMiss(s).compl == s.compl && ExpireMiss(s).now == s.now && ExpireMiss(s).hz == s.hz
    ensures ExpireMiss(s).missed == s.missed[1..]
    ensures ExpireMiss(s).pkts == s.pkts[s.missed[0] := Pkt(TimedOutCompl, NoSkb, s.now + 60 * s.hz)]
  {
  }

  lemma HandleFreesPkt(s: State, t: nat)
    requires t < |s.pkts| == |s.place| && s.pkts[t].state in {TimedOutCompl, PendingReinject}
    ensures Handle(s, Reinject, t).pkts == s.pkts[t := Pkt(Unallocated, NoSkb, s.pkts[t].timeout)]
    ensures Handle(s, Reinject, t).hz == s.hz
  {
  }

  lemma StatePlace(s: State, t: nat)
    requires StatesOk(s) && t < |s.pkts|
    ensures s.pkts[t].state == TimedOutCompl <==> s.place[t] == TimedOut
    ensures s.pkts[t].state == PendingReinject <==> s.place[t] == Missed
  {
    assert s.pkts[t].state == StateAt(s.place[t], s.tx);
  }

  lemma PendingIsInFlight(s: State, t: nat)
    requires StatesOk(s) && Permitted(s, t) && t < |s.pkts| && s.pkts[t].state == PendingData
    ensures s.place[t] == InFlight
  {
    assert s.pkts[t].state == StateAt(s.place[t], s.tx);
  }

  lemma StepKeepsPkts(s: State, a: Action)
    requires InBounds(s) && (a.TxSteal? || a.TxPop? || a.TxPush? || a.CPush?)
    ensures Step(s, a).pkts == s.pkts && Step(s, a).hz == s.hz
  {
  }

  lemma PopNothing(s: State)
    requires InBounds(s) && s.consumer == []
    ensures Step(s, TxPop) == s
  {
  }
}
