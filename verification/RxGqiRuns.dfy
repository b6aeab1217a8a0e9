/**
 GQI receive as a whole: the slots and pages of one side, the descriptors of the
 other, tied together by the two counters. That the device never has more
 buffers than the ring has slots, and that a descriptor is always there for a
 posted buffer, is proved here of the counters.
 */
module RxGqiRuns {
  import opened Rings
  import opened PageRefs
  import opened RxGqiSpec
  import opened RxGqiProofs
  import opened RxGqiLedger
  import Polling

  /** `held`: what SKBs hold of the pages. */
  datatype Joint = Joint(rx: RxGqiSpec.State, ring: Polling.State, held: Held)

  datatype Action =
    | DevWrite(data: nat, more: bool)  // the device fills the next buffer and writes its descriptor
    | Poll(kept: bool, ok: bool)       // the poll looks at its head, and takes the packet if it is new
    | PollEnd                          // QPL: the slots taken are posted again
    | Refill(base: nat)                // raw: one turn of the refill loop
    | Stack(a: RxGqiSpec.Action)

  predicate InRange(s: Joint) {
    Sane(s.rx) && Polling.Sane(s.ring) && Fits(s.held, s.rx)
  }

  predicate OfStack(a: RxGqiSpec.Action) {
    a.StackDrop? || a.PoolDrop? || a.StackTake? || a.PoolTake?
  }

  /** Whatever the receive side does, the device may use the buffers it has posted by then. */
  function WithRx(s: Joint, a: RxGqiSpec.Action): Joint
    requires InRange(s)
  {
    var rx := RxGqiSpec.Step(s.rx, a);
    Joint(rx, s.ring.(posted := rx.fill), Record(s.held, s.rx, a))
  }

  function Step(s: Joint, a: Action): Joint
    requires InRange(s)
  {
    match a
    case DevWrite(data, more) => s.(ring := Polling.Step(s.ring, Polling.DevWrite(data, more)))
    case Poll(kept, ok) =>
      if Polling.Ready(s.ring) then
        var a := if kept then Take(ok) else Skip;
        Joint(RxGqiSpec.Step(s.rx, a), Polling.Consume(s.ring), Record(s.held, s.rx, a))
      else s
    case PollEnd => WithRx(s, RxGqiSpec.PollEnd)
    case Refill(base) => WithRx(s, RxGqiSpec.Refill(base))
    case Stack(b) => if OfStack(b) then WithRx(s, b) else s
  }

  // ----- The invariant ----------------------------------------------------------------------------

  /** Buffers posted and packets taken are the same on both sides. */
  ghost predicate Agree(rx: RxGqiSpec.State, ring: Polling.State) {
    ring.scheme == Polling.Seqno && ring.n == |rx.slots| && ring.cnt == rx.cnt && ring.posted == rx.fill
  }

  ghost predicate Inv(s: Joint) {
    RxGqiProofs.Inv(s.rx) && Polling.Inv(s.ring) && Agree(s.rx, s.ring) && Agrees(s.held, s.rx)
  }

  lemma InvInRange(s: Joint)
    requires Inv(s)
    ensures InRange(s) && s.rx.cnt <= |s.ring.stream| <= s.rx.fill <= s.rx.cnt + |s.rx.slots|
  {
    hide SlotOk, CopyOk, Postable, Index, Polling.Mark;
  }

  /** What a step of the receive side does to its counters. */
  lemma StepCounts(rx: RxGqiSpec.State, a: RxGqiSpec.Action)
    requires RxGqiProofs.Inv(rx)
    ensures var rx' := RxGqiSpec.Step(rx, a);
      && |rx'.slots| == |rx.slots| && rx.fill <= rx'.fill
      && (a.Take? || a.Skip? ==>
            rx'.fill == rx.fill && rx'.cnt == if rx.cnt < rx.fill then rx.cnt + 1 else rx.cnt)
      && (!a.Take? && !a.Skip? ==> rx'.cnt == rx.cnt)
  {
    hide SlotOk, CopyOk, Postable, TakePacket, Flip, PageAligned, Drop, GetRef, Claims;
    if a.Take? && rx.cnt < rx.fill {
      PostedIsFree(rx, rx.cnt);
      TakeShape(rx, rx.cnt % |rx.slots|, a.ok);
    }
  }

  lemma RxKeepsInv(s: Joint, a: RxGqiSpec.Action)
    requires Inv(s) && !a.Take? && !a.Skip?
    ensures InRange(s) && Inv(WithRx(s, a))
  {
    hide RxGqiProofs.Inv, Polling.Inv, RxGqiSpec.Step, Record;
    RecordAgrees(s.held, s.rx, a);
    InvInRange(s);
    StepCounts(s.rx, a);
    RxGqiProofs.StepKeepsInv(s.rx, a);
    CountsOf(RxGqiSpec.Step(s.rx, a));
    Polling.PostManyKeepsInv(s.ring, RxGqiSpec.Step(s.rx, a).fill - s.rx.fill);
  }

  lemma CountsOf(rx: RxGqiSpec.State)
    requires RxGqiProofs.Inv(rx)
    ensures rx.cnt <= rx.fill <= rx.cnt + |rx.slots|
  {
    hide SlotOk, CopyOk, Postable;
  }

  /** A packet is taken only from a slot that is posted. */
  lemma PollKeepsInv(s: Joint, kept: bool, ok: bool)
    requires Inv(s)
    ensures InRange(s) && Inv(Step(s, Poll(kept, ok)))
  {
    hide RxGqiProofs.Inv, Polling.Inv, RxGqiSpec.Step, Polling.Ready, Polling.NextWant, Index, Record;
    InvInRange(s);
    if Polling.Ready(s.ring) {
      var a := if kept then Take(ok) else Skip;
      Polling.ReadyMeansWritten(s.ring);
      Polling.PollKeepsInv(s.ring);
      StepCounts(s.rx, a);
      RxGqiProofs.StepKeepsInv(s.rx, a);
      RecordAgrees(s.held, s.rx, a);
    }
  }

  lemma WriteKeepsInv(s: Joint, data: nat, more: bool)
    requires Inv(s)
    ensures InRange(s) && Inv(Step(s, DevWrite(data, more)))
  {
    hide RxGqiProofs.Inv, Polling.Inv, Index, Polling.Mark;
    InvInRange(s);
    Polling.WriteKeepsInv(s.ring, data, more);
    Polling.StepKeepsDriver(s.ring, Polling.Write(data, more));
  }

  lemma StepKeepsInv(s: Joint, a: Action)
    requires Inv(s)
    ensures InRange(s) && Inv(Step(s, a)) && Step(s, a).ring.n == s.ring.n
  {
    hide RxGqiProofs.Inv, Polling.Inv, RxGqiSpec.Step, Polling.Step, Polling.Ready, Agree, Polling.NextWant, Index,
      Record;
    InvInRange(s);
    match a
    case DevWrite(data, more) =>
      WriteKeepsInv(s, data, more);
      Polling.StepKeepsDriver(s.ring, Polling.Write(data, more));
    case Poll(kept, ok) => PollKeepsInv(s, kept, ok);
    case PollEnd => RxKeepsInv(s, RxGqiSpec.PollEnd);
    case Refill(base) => RxKeepsInv(s, RxGqiSpec.Refill(base));
    case Stack(b) => if OfStack(b) { RxKeepsInv(s, b); }
  }

  // ----- Runs ------------------------------------------------------------------------------------------------

  ghost function Exec(s: Joint, actions: seq<Action>): (r: Joint)
    requires Inv(s)
    ensures Inv(r) && r.ring.n == s.ring.n
  {
    if actions == [] then s
    else
      var s' := Exec(s, actions[..|actions| - 1]);
      StepKeepsInv(s', actions[|actions| - 1]);
      Step(s', actions[|actions| - 1])
  }

  /** All slots posted, no descriptor written. */
  function Init(mode: Mode, half: nat, bases: seq<nat>, pool: nat): Joint {
    Joint(RxGqiSpec.Init(mode, half, bases, pool),
          Polling.Init(Polling.Seqno, |bases|).(posted := |bases|), NothingHeld(|bases|, pool))
  }

  lemma InitInv(mode: Mode, half: nat, bases: seq<nat>, pool: nat, k: nat)
    requires half > 0 && |bases| == Polling.Pow2(k) && pool > 0
    requires forall i :: 0 <= i < |bases| ==> PageAligned(bases[i], half)
    ensures Inv(Init(mode, half, bases, pool))
  {
    hide RxGqiProofs.Inv, Polling.Inv, PageAligned;
    Polling.SevenNeverDivides(k);
    InitAgrees(mode, half, bases, pool);
    Polling.InitInv(Polling.Seqno, |bases|);
    Polling.PostManyKeepsInv(Polling.Init(Polling.Seqno, |bases|), |bases|);
  }

  /**
   Over every run, on a ring of any power-of-two size: the counters agree with
   the stream, there are never more buffers out than slots nor descriptors than
   buffers, the poll's test succeeds exactly when a descriptor is unread and then
   the slot under it is posted, and no SKB holds a half-page the device has
   filled or may still fill.
   */
  lemma CountersAgree(mode: Mode, half: nat, bases: seq<nat>, pool: nat, k: nat, actions: seq<Action>)
    requires half > 0 && |bases| == Polling.Pow2(k) && pool > 0
    requires forall i :: 0 <= i < |bases| ==> PageAligned(bases[i], half)
    ensures Inv(Init(mode, half, bases, pool))
    ensures var s := Exec(Init(mode, half, bases, pool), actions);
      && InRange(s) && |s.rx.slots| == s.ring.n == |bases|
      && s.rx.cnt == |s.ring.got| <= |s.ring.stream| <= s.rx.fill <= s.rx.cnt + |bases|
      && s.ring.got == s.ring.stream[..s.rx.cnt]
      && s.ring.head == s.rx.cnt % |bases|
      && (Polling.Ready(s.ring) <==> s.rx.cnt < |s.ring.stream|)
      && (Polling.Ready(s.ring) ==> s.rx.cnt < s.rx.fill)
      && (forall j :: s.rx.cnt <= j < s.rx.fill ==>
            (if At(s.rx.slots, j).offset == 0 then 0 else 1) !in s.held.slots[j % |bases|])
  {
    hide PageAligned, Polling.Ready, SlotOk, CopyOk, Polling.Mark;
    InitInv(mode, half, bases, pool, k);
    var s := Exec(Init(mode, half, bases, pool), actions);
    InvInRange(s);
    Polling.ReadyMeansWritten(s.ring);
  }
}
