/**
 The DQO transmit ring over whole runs: packets admitted and written behind the
 tail, the device working through them, and the head it reports reaching the
 sender late.
 */
module TxDescRuns {
  import opened Arith
  import opened Rings
  import opened TxDesc

  /**
   `log`: every descriptor ever posted. `hwHead`: how many of them the device has
   reported done. `seen`: how many of those the sender knows of.
   */
  datatype State = State(slots: Slots, log: seq<Desc>, hwHead: nat, seen: nat)

  datatype Action =
    | Send(p: Skb, canTso: bool, at: nat, tag: nat)
    | SendCopy(gso: bool, addrs: seq<nat>, len: nat, tag: nat)
    | DevDone(upTo: nat)
    | UpdateHead

  predicate InRange(s: State) {
    |s.slots.ring| > 0
  }

  /** `ds` posted behind everything else. */
  function Posted(s: State, ds: seq<Desc>): State
    requires InRange(s)
  {
    s.(slots := Appended(s.slots, ds), log := s.log + ds)
  }

  /** One bounce buffer for every 2048 bytes. */
  predicate EnoughBuffers(addrs: seq<nat>, len: nat) {
    len > 0 && |addrs| == (len + BOUNCE - 1) / BOUNCE
  }

  function Step(s: State, a: Action): State
    requires InRange(s)
  {
    match a
    case Send(p, canTso, at, tag) =>
      var plan := PlanDirect(p, canTso, at);
      Posted(s, Outgoing(s.slots, p.gso, plan.count, plan.bufs, tag))
    case SendCopy(gso, addrs, len, tag) =>
      if EnoughBuffers(addrs, len)
      then Posted(s, Outgoing(s.slots, gso, |addrs|, Bounce(addrs, len), tag)) else s
    case DevDone(upTo) => if s.hwHead <= upTo <= |s.log| then s.(hwHead := upTo) else s
    case UpdateHead => s.(seen := s.hwHead, slots := s.slots.(head := Index(s.hwHead, |s.slots.ring|)))
  }

  // ----- The invariant ------------------------------------------------------------------------------

  ghost predicate Counters(s: State) {
    && InRange(s)
    && s.slots.tail == Index(|s.log|, |s.slots.ring|) && s.slots.head == Index(s.seen, |s.slots.ring|)
    && s.seen <= s.hwHead <= |s.log| <= s.seen + |s.slots.ring| - 1
  }

  /** Every slot from the head to the tail holds the descriptor posted there. */
  ghost predicate Kept(ring: seq<Desc>, log: seq<Desc>, from: nat) {
    |ring| > 0 && forall j :: from <= j < |log| ==> ring[Index(j, |ring|)] == log[j]
  }

  ghost predicate Inv(s: State) {
    Counters(s) && Kept(s.slots.ring, s.log, s.seen)
  }

  lemma AvailIs(s: State)
    requires Counters(s)
    ensures NumAvail(|s.slots.ring|, s.slots.tail, s.slots.head) == |s.slots.ring| - 1 - (|s.log| - s.seen)
  {
    var n := |s.slots.ring|;
    Distance(|s.log|, s.seen, n);
    ModIdem(|s.log| % n, n);
    ModIdem(s.seen % n, n);
  }

  /** Descriptors that fit into the free slots. */
  lemma PostedKeepsInv(s: State, ds: seq<Desc>)
    requires Inv(s) && |s.log| + |ds| <= s.seen + |s.slots.ring| - 1
    ensures Inv(Posted(s, ds))
  {
    hide Index, Put;
    var n, s' := |s.slots.ring|, Posted(s, ds);
    PutAt(s.slots.ring, |s.log|, ds);
    IndexPlus(|s.log|, |ds|, n);
    forall j | s.seen <= j < |s'.log|
      ensures s'.slots.ring[Index(j, n)] == s'.log[j]
    {
      if j < |s.log| {
        PutOld(s.slots.ring, |s.log|, ds, j);
        assert s.slots.ring[Index(j, n)] == s.log[j];
      } else {
        PutNew(s.slots.ring, |s.log|, ds, j - |s.log|);
      }
    }
  }

  // ----- Which packets are safe -----------------------------------------------------------------------

  /** The count asked for is the count written. */
  predicate Counted(p: Skb) {
    p.gso || NumDescs(Bufs(p)) <= MAX_DATA_DESCS || Len(Bufs(p)) <= MAX_BUF
  }

  /** The slots admission keeps free make up for what the count leaves out. */
  predicate WithinSlack(p: Skb) {
    p.gso || NumDescs(Bufs(p)) <= MAX_DATA_DESCS || Len(Bufs(p)) <= (KEEP_FREE + 1) * MAX_BUF
  }

  lemma SlackIsExact(p: Skb, canTso: bool, at: nat, tag: nat)
    ensures var plan := PlanDirect(p, canTso, at);
      && (Counted(p) ==> WithinSlack(p) && |Data(plan.bufs, tag, true)| == plan.count)
      && (WithinSlack(p) <==> |Data(plan.bufs, tag, true)| <= plan.count + KEEP_FREE)
  {
    hide Data;
    var plan := PlanDirect(p, canTso, at);
    DirectCountExact(p, canTso, at, tag);
    DataCovers(plan.bufs, tag, true);
    WholeDescs(at, Len(Bufs(p)));
  }

  /** What a packet leaves free behind it. */
  lemma SendKeepsInv(s: State, gso: bool, count: nat, bufs: seq<Buf>, tag: nat)
    requires Inv(s) && |Data(bufs, tag, true)| <= count + KEEP_FREE
    ensures var s' := Posted(s, Outgoing(s.slots, gso, count, bufs, tag));
      && Inv(s') && |s'.slots.ring| == |s.slots.ring|
      && (|Data(bufs, tag, true)| == count && Roomy(s) ==> Roomy(s'))
  {
    hide Data, Index, Put, NumAvail;
    AvailIs(s);
    PostedKeepsInv(s, Outgoing(s.slots, gso, count, bufs, tag));
    AvailIs(Posted(s, Outgoing(s.slots, gso, count, bufs, tag)));
  }

  /** Nothing was ever posted, or the slots admission keeps free are free. */
  predicate Roomy(s: State)
    requires InRange(s)
  {
    s.log == [] || NumAvail(|s.slots.ring|, s.slots.tail, s.slots.head) >= KEEP_FREE
  }

  predicate Allowed(a: Action) {
    a.Send? ==> WithinSlack(a.p)
  }

  predicate WellCounted(a: Action) {
    a.Send? ==> Counted(a.p)
  }

  lemma StepKeepsInv(s: State, a: Action)
    requires Inv(s) && Allowed(a)
    ensures Inv(Step(s, a)) && |Step(s, a).slots.ring| == |s.slots.ring|
    ensures WellCounted(a) && Roomy(s) ==> Roomy(Step(s, a))
  {
    hide Kept, Data, Index, PlanDirect, Bounce, Outgoing, Roomy, WithinSlack, Counted, EnoughBuffers;
    match a
    case Send(p, canTso, at, tag) =>
      var plan := PlanDirect(p, canTso, at);
      SlackIsExact(p, canTso, at, tag);
      SendKeepsInv(s, p.gso, plan.count, plan.bufs, tag);
    case SendCopy(gso, addrs, len, tag) =>
      if EnoughBuffers(addrs, len) {
        BounceFits(addrs, len, tag);
        SendKeepsInv(s, gso, |addrs|, Bounce(addrs, len), tag);
      }
    case DevDone(upTo) => DoneKeepsInv(s, upTo);
    case UpdateHead => HeadKeepsInv(s);
  }

  lemma BounceFits(addrs: seq<nat>, len: nat, tag: nat)
    requires EnoughBuffers(addrs, len)
    ensures |Data(Bounce(addrs, len), tag, true)| == |addrs|
  {
    BounceCountExact(addrs, len, tag);
  }

  lemma DoneKeepsInv(s: State, upTo: nat)
    requires Inv(s)
    ensures Inv(Step(s, DevDone(upTo))) && (Roomy(s) ==> Roomy(Step(s, DevDone(upTo))))
  {
    hide Index, NumAvail;
  }

  lemma HeadKeepsInv(s: State)
    requires Inv(s)
    ensures Inv(Step(s, UpdateHead)) && (Roomy(s) ==> Roomy(Step(s, UpdateHead)))
  {
    hide Index, NumAvail;
    AvailIs(s);
    AvailIs(Step(s, UpdateHead));
  }

  // ----- Runs ---------------------------------------------------------------------------------------------

  ghost function Exec(s: State, actions: seq<Action>): (r: State)
    requires Inv(s) && forall i :: 0 <= i < |actions| ==> Allowed(actions[i])
    ensures Inv(r) && |r.slots.ring| == |s.slots.ring|
    ensures Roomy(s) && (forall i :: 0 <= i < |actions| ==> WellCounted(actions[i])) ==> Roomy(r)
  {
    if actions == [] then s
    else
      var s' := Exec(s, actions[..|actions| - 1]);
      StepKeepsInv(s', actions[|actions| - 1]);
      Step(s', actions[|actions| - 1])
  }

  /** An empty ring of `n` slots, whatever they hold. */
  function Init(ring: seq<Desc>): State {
    State(Slots(ring, 0, 0), [], 0, 0)
  }

  lemma InitInv(ring: seq<Desc>)
    requires |ring| > 0
    ensures Inv(Init(ring)) && Roomy(Init(ring))
  {
    ModIdem(0, |ring|);
  }

  /**
   Over every run of sends, device progress and head updates: the driver's count
   of free slots is exact, and every descriptor the sender does not know to be
   done is in its slot as it was posted. With packets counted right, the slots
   admission asks to keep free are free after every packet.
   */
  lemma PostedDescriptorsStay(ring: seq<Desc>, actions: seq<Action>)
    requires |ring| > 0 && forall i :: 0 <= i < |actions| ==> Allowed(actions[i])
    ensures Inv(Init(ring))
    ensures var s := Exec(Init(ring), actions);
      && |s.slots.ring| == |ring| && s.seen <= s.hwHead <= |s.log|
      && NumAvail(|ring|, s.slots.tail, s.slots.head) == |ring| - 1 - (|s.log| - s.seen) >= 0
      && (forall j :: s.seen <= j < |s.log| ==> s.slots.ring[Index(j, |ring|)] == s.log[j])
      && ((forall i :: 0 <= i < |actions| ==> WellCounted(actions[i])) && s.log != [] ==>
            NumAvail(|ring|, s.slots.tail, s.slots.head) >= KEEP_FREE)
  {
    hide Index, NumAvail, Allowed, WellCounted;
    InitInv(ring);
    AvailIs(Exec(Init(ring), actions));
  }

  /**
   A packet that asks for no more than is free is posted: context, with one more
   descriptor for segmentation, and then descriptors over exactly its bytes. One
   that asks for more leaves everything as it is.
   */
  lemma SendEffect(s: State, p: Skb, canTso: bool, at: nat, tag: nat)
    requires Inv(s)
    ensures var plan := PlanDirect(p, canTso, at);
      var s' := Step(s, Send(p, canTso, at, tag));
      var free := |s.slots.ring| - 1 - (|s.log| - s.seen);
      if free >= 5 + (if p.gso then 1 else 0) + plan.count then
        && |s.log| < |s'.log| && s'.log[..|s.log|] == s.log
        && (var ds := s'.log[|s.log|..];
            && |ds| == 1 + (if p.gso then 1 else 0) + NumDescs(plan.bufs)
            && (if p.gso then ds[0] == TsoCtx && ds[1] == GeneralCtx else ds[0] == GeneralCtx)
            && Covered(ds) == BufAddresses(plan.bufs))
      else s'.log == s.log && s'.slots.ring == s.slots.ring
  {
    hide Index, Put, Kept, NumAvail, Data, Covered, NumDescs, BufAddresses, PlanDirect;
    var plan := PlanDirect(p, canTso, at);
    AvailIs(s);
    DataCovers(plan.bufs, tag, true);
    PutNone(s.slots.ring, s.slots.tail);
    var ds := Context(p.gso) + Data(plan.bufs, tag, true);
    assert (s.log + ds)[|s.log|..] == ds && (s.log + ds)[..|s.log|] == s.log;
    CoveredAppend(Context(p.gso), Data(plan.bufs, tag, true));
    ContextCoversNothing(p.gso);
    assert [] + BufAddresses(plan.bufs) == BufAddresses(plan.bufs);
    assert s.log + [] == s.log;
  }

  lemma ContextCoversNothing(gso: bool)
    ensures Covered(Context(gso)) == []
  {
    if gso {
      assert Context(gso)[1..] == [GeneralCtx] && [GeneralCtx][1..] == [];
    } else {
      assert Context(gso)[1..] == [];
    }
  }

  // ----- The packets that are not safe ------------------------------------------------------------------

  ghost predicate SafeFrom(s: State, a: Action) {
    Inv(s) ==> Inv(Step(s, a))
  }

  /**
   A packet keeps the ring sound from every state exactly when the slots kept
   free make up for its miscount: for a packet linearised without segmentation,
   when it is not longer than five descriptors.
   */
  lemma SafeExactlyWithinSlack(p: Skb, canTso: bool, at: nat, tag: nat)
    ensures (forall s :: SafeFrom(s, Send(p, canTso, at, tag))) <==> WithinSlack(p)
  {
    hide Inv, Step, WithinSlack;
    var a := Send(p, canTso, at, tag);
    if WithinSlack(p) {
      forall s
        ensures SafeFrom(s, a)
      {
        if Inv(s) { StepKeepsInv(s, a); }
      }
    } else {
      OverrunsTightRing(p, canTso, at, tag);
      assert !SafeFrom(Init(TightRing()), a);
    }
  }

  /** Seven slots: just enough for a packet of one descriptor and its context. */
  function TightRing(): seq<Desc> {
    seq(KEEP_FREE + 3, _ => GeneralCtx)
  }

  lemma OverrunsTightRing(p: Skb, canTso: bool, at: nat, tag: nat)
    requires !WithinSlack(p)
    ensures Inv(Init(TightRing())) && !Inv(Step(Init(TightRing()), Send(p, canTso, at, tag)))
  {
    hide Kept, Data, Index, Put, NumAvail, NumDescs, Len;
    var s := Init(TightRing());
    InitInv(TightRing());
    AvailIs(s);
    SlackIsExact(p, canTso, at, tag);
  }
}
