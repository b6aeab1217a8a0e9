/**
 Completion tags of the DQO transmit path. Two threads share them: the sender
 pops its private consumer list and steals the whole producer list when that is
 empty; the completion thread, and the sender's own error path, push onto the
 producer list with compare-and-swap. One step is one atomic operation, or work
 on data only the acting thread owns.
 */
module TxTagsSpec {
  import opened Lists

  datatype PacketState = Unallocated | PendingData | PendingReinject | TimedOutCompl

  datatype Place =
    | Consumer      // free list of the sender
    | Producer      // free list the completion thread pushes to
    | TxOwned       // in the sender's hands, not posted (or being freed by it)
    | InFlight      // posted, first completion outstanding
    | Missed        // on the miss list, waiting for the reinjection
    | TimedOut      // on the timed-out list, waiting to be deallocated
    | ComplOwned    // being freed by the completion thread

  /** An SKB is known by its number in order of arrival. */
  datatype Skb = NoSkb | Skb(id: nat, len: nat)

  datatype Pkt = Pkt(state: PacketState, skb: Skb, timeout: int)

  /** Where a thread is in pushing tag `t`; `seen` is the list head it loaded. */
  datatype Push = NoPush | Start(t: nat) | Loaded(t: nat, seen: int) | Linked(t: nat, seen: int)

  datatype TxPc = TxIdle | TxPopped(t: nat) | TxHolding(t: nat) | TxFreeing(push: Push)

  /** Sums the polling routine keeps until it reports them. */
  datatype Poll = Poll(done: nat, doneBytes: nat, queueBytes: nat)

  datatype State = State(
    hz: nat, now: int,
    pkts: seq<Pkt>, place: seq<Place>,
    consumer: seq<nat>, producer: seq<nat>, missed: seq<nat>, timedOut: seq<nat>,
    tx: TxPc, compl: Push,
    pktDone: nat, bytesDone: nat, dropped: nat,      // statistics
    sentBytes: int, completedBytes: int, poll: Poll, // byte queue limits
    released: seq<nat>,                              // per SKB: how often it was released
    holder: seq<nat>)                                // per SKB: the tag it was given

  // ----- Small moves -------------------------------------------------------------------

  function Put(s: State, t: nat, p: Place, pkt: Pkt): State
    requires t < |s.pkts| == |s.place|
  {
    s.(pkts := s.pkts[t := pkt], place := s.place[t := p])
  }

  function RemoveTag(l: seq<nat>, t: nat): seq<nat> {
    if l == [] then [] else if l[0] == t then l[1..] else [l[0]] + RemoveTag(l[1..], t)
  }

  function Released(s: State, skb: Skb): State {
    if skb.Skb? && skb.id < |s.released|
    then s.(released := s.released[skb.id := s.released[skb.id] + 1])
    else s
  }

  /** The completion thread takes tag `t` to give it back; its SKB is gone. */
  function Retire(s: State, t: nat): State
    requires t < |s.pkts| == |s.place|
  {
    Put(s, t, ComplOwned, Pkt(Unallocated, NoSkb, s.pkts[t].timeout)).(compl := Start(t))
  }

  function LenOf(skb: Skb): nat {
    if skb.Skb? then skb.len else 0
  }

  /** A packet is completed: count it, consume its SKB, free its tag. */
  function Finish(s: State, t: nat): State
    requires t < |s.pkts| == |s.place|
  {
    var skb := s.pkts[t].skb;
    Retire(Released(s, skb), t).(
      poll := s.poll.(done := s.poll.done + 1, doneBytes := s.poll.doneBytes + LenOf(skb)))
  }

  // ----- Completions -----------------------------------------------------------------------

  datatype Kind = Data | Miss | Reinject

  /** A miss completion may also come as a packet completion with the top tag bit set. */
  function Decode(kind: Kind, tag: nat): (Kind, nat) {
    if kind == Data && tag >= 0x8000 then (Miss, tag - 0x8000) else (kind, tag)
  }

  /** What the handlers do up to freeing the tag; any kind, any tag, any state. */
  function Handle(s: State, kind: Kind, t: nat): State
    requires |s.pkts| == |s.place|
  {
    if t >= |s.pkts| then s
    else
      var pkt := s.pkts[t];
      match kind
      case Data =>
        if pkt.state != PendingData then s
        else Finish(s, t).(poll := Finish(s, t).poll.(queueBytes := s.poll.queueBytes + LenOf(pkt.skb)))
      case Miss =>
        if pkt.state != PendingData then s
        else Put(s, t, Missed, pkt.(state := PendingReinject, timeout := s.now + s.hz)).(
          missed := s.missed + [t],
          poll := s.poll.(queueBytes := s.poll.queueBytes + LenOf(pkt.skb)))
      case Reinject =>
        if pkt.state == TimedOutCompl then Retire(s.(timedOut := RemoveTag(s.timedOut, t)), t)
        else if pkt.state != PendingReinject then s
        else Finish(s.(missed := RemoveTag(s.missed, t)), t)
  }

  /** The oldest missed packet has waited long enough: drop it, but keep its tag aside. */
  function ExpireMiss(s: State): State
    requires |s.missed| > 0 && s.missed[0] < |s.pkts| == |s.place|
  {
    var t := s.missed[0];
    var s' := Released(s, s.pkts[t].skb);
    Put(s', t, TimedOut, Pkt(TimedOutCompl, NoSkb, s.now + 60 * s.hz)).(
      missed := s.missed[1..], timedOut := s.timedOut + [t], dropped := s.dropped + 1)
  }

  /** The oldest timed-out tag is given back at last. */
  function Deallocate(s: State): State
    requires |s.timedOut| > 0 && s.timedOut[0] < |s.pkts| == |s.place|
  {
    Retire(s.(timedOut := s.timedOut[1..]), s.timedOut[0])
  }

  /** The scan of the miss list: as long as the oldest entry is due, it moves over. */
  function ExpireAll(s: State): State
    requires InBounds(s)
    decreases |s.missed|
  {
    if s.missed != [] && Expired(s, s.missed[0]) then ExpireAll(ExpireMiss(s)) else s
  }

  /** Not `time_is_after_jiffies(timeout)` */
  predicate Expired(s: State, t: nat)
    requires t < |s.pkts|
  {
    s.pkts[t].timeout <= s.now
  }

  // ----- Pushing with compare-and-swap ---------------------------------------------------------

  /** One step of the push loop: load the head, link to it, swap it in or start over. */
  function PushStep(s: State, p: Push): (State, Push)
    requires p.NoPush? || p.t < |s.place|
  {
    match p
    case NoPush => (s, p)
    case Start(t) => (s, Loaded(t, First(s.producer)))
    case Loaded(t, seen) => (s, Linked(t, seen))
    case Linked(t, seen) =>
      if First(s.producer) == seen
      then (s.(producer := [t] + s.producer, place := s.place[t := Producer]), NoPush)
      else (s, Start(t))
  }

  // ----- The machine --------------------------------------------------------------------------

  datatype Action =
    | TxSteal | TxPop | TxMark | TxPost(len: nat) | TxFail | TxDrop | TxPush
    | Completion(kind: Kind, tag: nat) | CPush | ScanMissed | ScanTimedOut | PollEnd
    | Tick(d: nat)

  predicate InBounds(s: State) {
    && |s.pkts| == |s.place|
    && (forall i :: 0 <= i < |s.consumer| ==> s.consumer[i] < |s.place|)
    && (forall i :: 0 <= i < |s.missed| ==> s.missed[i] < |s.place|)
    && (forall i :: 0 <= i < |s.timedOut| ==> s.timedOut[i] < |s.place|)
    && (s.tx.TxPopped? ==> s.tx.t < |s.place|)
    && (s.tx.TxHolding? ==> s.tx.t < |s.place|)
    && (s.tx.TxFreeing? && !s.tx.push.NoPush? ==> s.tx.push.t < |s.place|)
    && (!s.compl.NoPush? ==> s.compl.t < |s.place|)
  }

  /** The device only completes what was posted: never a tag the sender still holds. */
  predicate Permitted(s: State, t: nat)
    requires |s.pkts| == |s.place|
  {
    t < |s.place| ==> s.place[t] != TxOwned
  }

  function Accept(s: State, t: nat): State {
    s.(released := s.released + [0], holder := s.holder + [t])
  }

  /** A packet given up by the sender: it counts as accepted and is released at once. */
  function GiveUp(s: State): State {
    s.(released := s.released + [1], holder := s.holder + [0], dropped := s.dropped + 1)
  }

  function Step(s: State, a: Action): State
    requires InBounds(s)
  {
    match a
    case TxSteal =>
      if s.tx == TxIdle && s.consumer == [] then
        s.(consumer := s.producer, producer := [],
           place := seq(|s.place|, i requires 0 <= i < |s.place| =>
             if s.place[i] == Producer then Consumer else s.place[i]))
      else s
    case TxPop =>
      if s.tx == TxIdle && s.consumer != [] then
        var t := s.consumer[0];
        s.(consumer := s.consumer[1..], place := s.place[t := TxOwned], tx := TxPopped(t))
      else s
    case TxMark =>
      if s.tx.TxPopped? then
        s.(pkts := s.pkts[s.tx.t := s.pkts[s.tx.t].(state := PendingData)], tx := TxHolding(s.tx.t))
      else s
    case TxPost(len) =>
      if s.tx.TxHolding? then
        var t := s.tx.t;
        var skb := Skb(|s.released|, len);
        Accept(Put(s, t, InFlight, s.pkts[t].(skb := skb)), t).(tx := TxIdle, sentBytes := s.sentBytes + len)
      else s
    case TxFail =>
      if s.tx.TxHolding? then
        GiveUp(Put(s, s.tx.t, TxOwned, s.pkts[s.tx.t].(state := Unallocated))).(tx := TxFreeing(Start(s.tx.t)))
      else s
    case TxDrop => if s.tx == TxIdle then GiveUp(s) else s
    case TxPush =>
      if s.tx.TxFreeing? then
        var (s', p) := PushStep(s, s.tx.push);
        s'.(tx := if p.NoPush? then TxIdle else TxFreeing(p))
      else s
    case Completion(kind, tag) =>
      var (k, t) := Decode(kind, tag);
      if s.compl.NoPush? && Permitted(s, t) then Handle(s, k, t) else s
    case CPush =>
      var (s', p) := PushStep(s, s.compl);
      s'.(compl := p)
    case ScanMissed =>
      if s.compl.NoPush? && s.missed != [] && Expired(s, s.missed[0]) then ExpireMiss(s) else s
    case ScanTimedOut =>
      if s.compl.NoPush? && s.timedOut != [] && Expired(s, s.timedOut[0]) then Deallocate(s) else s
    case PollEnd =>
      s.(poll := Poll(0, 0, 0), completedBytes := s.completedBytes + s.poll.queueBytes,
         pktDone := s.pktDone + s.poll.done, bytesDone := s.bytesDone + s.poll.doneBytes)
    case Tick(d) => s.(now := s.now + d)
  }

  function Init(n: nat, hz: nat, now: int): State {
    State(hz, now, seq(n, _ => Pkt(Unallocated, NoSkb, 0)), seq(n, _ => Consumer),
          seq(n, i => i), [], [], [], TxIdle, NoPush, 0, 0, 0, 0, 0, Poll(0, 0, 0), [], [])
  }
}
