/**
 What the steps of the tag machine mean, in terms of where a tag is and of the
 clock, and what follows for counts and waiting times over whole runs.
 */
module TxTagsLaws {
  import opened Lists
  import opened TxTagsSpec
  import opened TxTagsProofs
  import opened TxTagsRuns

  // ----- What a completion does -------------------------------------------------------------------------

  /** On the wire a data completion with the top tag bit set reports a miss. */
  predicate ReportsMiss(kind: Kind, tag: nat) {
    kind == Miss || (kind == Data && tag >= 32768)
  }

  function TagOf(kind: Kind, tag: nat): nat {
    if kind == Data && tag >= 32768 then tag - 32768 else tag
  }

  /** The completion ends the life of a packet in flight, or of one reinjected in time. */
  predicate Delivers(s: State, kind: Kind, tag: nat)
    requires |s.pkts| == |s.place|
  {
    var t := TagOf(kind, tag);
    && t < |s.place|
    && ((s.place[t] == InFlight && kind == Data && !ReportsMiss(kind, tag))
        || (s.place[t] == Missed && kind == Reinject))
  }

  predicate Misses(s: State, kind: Kind, tag: nat)
    requires |s.pkts| == |s.place|
  {
    var t := TagOf(kind, tag);
    t < |s.place| && s.place[t] == InFlight && ReportsMiss(kind, tag)
  }

  /** The reinjection of a packet that was already given up. */
  predicate ComesLate(s: State, kind: Kind, tag: nat)
    requires |s.pkts| == |s.place|
  {
    tag < |s.place| && s.place[tag] == TimedOut && kind == Reinject
  }

  function Bytes(s: State, t: nat): nat
    requires t < |s.pkts|
  {
    if s.pkts[t].skb.Skb? then s.pkts[t].skb.len else 0
  }

  /** Only tag `t` has moved, from where it was to `p`. */
  ghost predicate Moves(s: State, s': State, t: nat, p: Place) {
    && |s'.place| == |s.place| && |s'.pkts| == |s.pkts| && t < |s.place| == |s.pkts| && s'.place[t] == p
    && (forall u :: 0 <= u < |s.place| && u != t ==> s'.place[u] == s.place[u] && s'.pkts[u] == s.pkts[u])
  }

  /**
   A completion of any kind and tag. Delivered, the packet is counted with its
   bytes and its tag is on its way to be free. Missed, it waits for a second with
   its SKB. In both cases the queue is told of its bytes, once. A late reinjection
   only frees the tag. Anything else changes nothing.
   */
  lemma CompletionEffect(s: State, kind: Kind, tag: nat)
    requires Inv(s) && InBounds(s) && s.compl.NoPush? && Permitted(s, TagOf(kind, tag))
    ensures var (s', t) := (Step(s, Completion(kind, tag)), TagOf(kind, tag));
      && s'.dropped == s.dropped && s'.now == s.now && s'.pktDone == s.pktDone
      && (if Delivers(s, kind, tag) then
            && Moves(s, s', t, ComplOwned) && !s'.pkts[t].skb.Skb? && s'.compl == Start(t)
            && s'.poll.done == s.poll.done + 1 && s'.poll.doneBytes == s.poll.doneBytes + Bytes(s, t)
            && s'.poll.queueBytes == s.poll.queueBytes + (if kind == Data then Bytes(s, t) else 0)
          else if Misses(s, kind, tag) then
            && Moves(s, s', t, Missed) && s'.pkts[t].skb == s.pkts[t].skb && s'.compl.NoPush?
            && s'.pkts[t].timeout == s.now + s.hz && s'.missed == s.missed + [t]
            && s'.poll == s.poll.(queueBytes := s.poll.queueBytes + Bytes(s, t))
          else if ComesLate(s, kind, tag) then
            Moves(s, s', t, ComplOwned) && s'.compl == Start(t) && s'.poll == s.poll
          else s' == s)
  {
    hide Inv, Handle, Moves;
    var t := TagOf(kind, tag);
    if t < |s.pkts| {
      StateIs(s, t);
      if kind == Reinject {
        ReinjectEffect(s, t);
      } else if ReportsMiss(kind, tag) {
        MissEffect(s, t);
      } else {
        DataEffect(s, t);
      }
    } else {
      UnknownTag(s, Decode(kind, tag).0, t);
    }
  }

  lemma StateIs(s: State, t: nat)
    requires Inv(s) && t < |s.pkts|
    ensures |s.place| == |s.pkts| && s.pkts[t].state == StateAt(s.place[t], s.tx)
    ensures s.pkts[t].skb.Skb? <==> s.place[t] == InFlight || s.place[t] == Missed
  {
    hide Placed, InOrder;
  }

  lemma UnknownTag(s: State, kind: Kind, t: nat)
    requires |s.pkts| == |s.place| && t >= |s.pkts|
    ensures Handle(s, kind, t) == s
  {
  }

  lemma DataEffect(s: State, t: nat)
    requires t < |s.pkts| == |s.place| && s.compl.NoPush?
    ensures var s' := Handle(s, Data, t);
      if s.pkts[t].state == PendingData then
        && Moves(s, s', t, ComplOwned) && !s'.pkts[t].skb.Skb? && s'.compl == Start(t)
        && s'.poll == Poll(s.poll.done + 1, s.poll.doneBytes + Bytes(s, t), s.poll.queueBytes + Bytes(s, t))
        && s'.dropped == s.dropped && s'.now == s.now && s'.pktDone == s.pktDone
      else s' == s
  {
  }

  lemma MissEffect(s: State, t: nat)
    requires t < |s.pkts| == |s.place| && s.compl.NoPush?
    ensures var s' := Handle(s, Miss, t);
      if s.pkts[t].state == PendingData then
        && Moves(s, s', t, Missed) && s'.pkts[t].skb == s.pkts[t].skb && s'.compl.NoPush?
        && s'.pkts[t].timeout == s.now + s.hz && s'.missed == s.missed + [t]
        && s'.poll == s.poll.(queueBytes := s.poll.queueBytes + Bytes(s, t))
        && s'.dropped == s.dropped && s'.now == s.now && s'.pktDone == s.pktDone
      else s' == s
  {
  }

  lemma ReinjectEffect(s: State, t: nat)
    requires t < |s.pkts| == |s.place| && s.compl.NoPush?
    ensures var s' := Handle(s, Reinject, t);
      && s'.dropped == s.dropped && s'.now == s.now && s'.pktDone == s.pktDone
      && (if s.pkts[t].state == PendingReinject then
            && Moves(s, s', t, ComplOwned) && !s'.pkts[t].skb.Skb? && s'.compl == Start(t)
            && s'.poll == Poll(s.poll.done + 1, s.poll.doneBytes + Bytes(s, t), s.poll.queueBytes)
          else if s.pkts[t].state == TimedOutCompl then
            Moves(s, s', t, ComplOwned) && s'.compl == Start(t) && s'.poll == s.poll
          else s' == s)
  {
    hide RemoveTag;
  }

  /** The end of a poll reports what it summed up: packets and bytes done, and bytes to the queue. */
  lemma PollEndEffect(s: State)
    requires InBounds(s)
    ensures var s' := Step(s, PollEnd);
      && s'.pktDone == s.pktDone + s.poll.done && s'.bytesDone == s.bytesDone + s.poll.doneBytes
      && s'.completedBytes == s.completedBytes + s.poll.queueBytes
      && s'.poll == Poll(0, 0, 0) && s'.place == s.place && s'.pkts == s.pkts
  {
  }

  // ----- What the sender achieves -----------------------------------------------------------------------

  /** With its own list empty, the sender takes over the whole other list, in order. */
  lemma StealEffect(s: State)
    requires Inv(s) && InBounds(s) && s.tx == TxIdle && s.consumer == []
    ensures var s' := Step(s, TxSteal); s'.consumer == s.producer && s'.producer == [] && s'.tx == TxIdle
  {
    hide Inv;
  }

  /**
   A packet of `len` bytes goes out on the first free tag: the tag is in flight
   with it, it counts as accepted and not released, and its bytes as sent.
   */
  lemma PostEffect(s: State, len: nat)
    requires Inv(s) && s.tx == TxIdle && s.consumer != []
    ensures var (r, t) := (Exec(s, [TxPop, TxMark, TxPost(len)]), s.consumer[0]);
      && Moves(s, r, t, InFlight) && r.pkts[t].skb == Skb(|s.released|, len) && r.tx == TxIdle
      && r.consumer == s.consumer[1..] && r.released == s.released + [0] && r.sentBytes == s.sentBytes + len
      && r.dropped == s.dropped
  {
    hide Inv, Exec;
    StepKeepsInv(s, TxPop);
    var s1 := Step(s, TxPop);
    StepKeepsInv(s1, TxMark);
    var s2 := Step(s1, TxMark);
    StepKeepsInv(s2, TxPost(len));
    RunOfThree(s, TxPop, TxMark, TxPost(len));
  }

  /** A packet that cannot be posted is given up, and its tag is to be pushed back. */
  lemma FailEffect(s: State)
    requires Inv(s) && s.tx == TxIdle && s.consumer != []
    ensures var (r, t) := (Exec(s, [TxPop, TxMark, TxFail]), s.consumer[0]);
      && Moves(s, r, t, TxOwned) && r.tx == TxFreeing(Start(t)) && r.dropped == s.dropped + 1
      && r.released == s.released + [1] && r.sentBytes == s.sentBytes
  {
    hide Inv, Exec;
    StepKeepsInv(s, TxPop);
    var s1 := Step(s, TxPop);
    StepKeepsInv(s1, TxMark);
    var s2 := Step(s1, TxMark);
    StepKeepsInv(s2, TxFail);
    RunOfThree(s, TxPop, TxMark, TxFail);
  }

  lemma RunOfThree(s: State, a: Action, b: Action, c: Action)
    requires InBounds(s) && InBounds(Step(s, a)) && InBounds(Step(Step(s, a), b))
    ensures Exec(s, [a, b, c]) == Step(Step(Step(s, a), b), c)
  {
    hide Step;
    assert [a, b, c][..2] == [a, b] && [a, b][..1] == [a] && [a][..0] == [];
    assert Exec(s, []) == s;
    assert Exec(s, [a]) == Step(s, a);
    assert Exec(s, [a, b]) == Step(Step(s, a), b);
  }

  // ----- Tallies ------------------------------------------------------------------------------------------

  predicate Acts(s: State) {
    s.compl.NoPush? && |s.pkts| == |s.place|
  }

  /** The packets a step completes. */
  function CompletedBy(s: State, a: Action): nat {
    if a.Completion? && Acts(s) && Permitted(s, TagOf(a.kind, a.tag)) && Delivers(s, a.kind, a.tag) then 1 else 0
  }

  /** The packets a step gives up: one that waited too long, or one the sender could not post. */
  function GivenUpBy(s: State, a: Action): nat {
    if a.ScanMissed? && Acts(s) && s.missed != [] && s.missed[0] < |s.pkts|
       && s.pkts[s.missed[0]].timeout <= s.now then 1
    else if (a.TxFail? && s.tx.TxHolding?) || (a.TxDrop? && s.tx == TxIdle) then 1
    else 0
  }

  function Tally(s: State, actions: seq<Action>, each: (State, Action) -> nat): nat
    decreases |actions|
  {
    if actions == [] then 0
    else
      var front := actions[..|actions| - 1];
      Tally(s, front, each) + each(Exec(s, front), actions[|actions| - 1])
  }

  lemma StepTallies(s: State, a: Action)
    requires Inv(s) && InBounds(s)
    ensures var s' := Step(s, a);
      && s'.pktDone + s'.poll.done == s.pktDone + s.poll.done + CompletedBy(s, a)
      && s'.dropped == s.dropped + GivenUpBy(s, a)
  {
    hide Inv, Handle;
    if a.Completion? {
      if s.compl.NoPush? && Permitted(s, TagOf(a.kind, a.tag)) {
        CompletionEffect(s, a.kind, a.tag);
      }
    }
  }

  /** Over every run: packets counted as completed are those completed, those counted as dropped were given up. */
  lemma {:induction false} TalliesAreExact(n: nat, hz: nat, now: int, actions: seq<Action>)
    ensures var s := Exec(Init(n, hz, now), actions);
      && s.pktDone + s.poll.done == Tally(Init(n, hz, now), actions, CompletedBy)
      && s.dropped == Tally(Init(n, hz, now), actions, GivenUpBy)
    decreases |actions|
  {
    hide Inv, Step, InBounds, CompletedBy, GivenUpBy;
    if actions == [] {
    } else {
      var s0, front := Init(n, hz, now), actions[..|actions| - 1];
      TalliesAreExact(n, hz, now, front);
      InitInv(n, hz, now);
      RunKeepsInv(s0, front);
      StepKeepsInv(Exec(s0, front), actions[|actions| - 1]);
      StepTallies(Exec(s0, front), actions[|actions| - 1]);
    }
  }

  // ----- Waiting times -------------------------------------------------------------------------------------

  predicate SamePlace(s: State, s': State, t: nat) {
    t < |s.place| && t < |s'.place| && s'.place[t] == s.place[t]
  }

  /** Since when tag `t` has been where it is. */
  function Since(s: State, actions: seq<Action>, t: nat): int
    decreases |actions|
  {
    if actions == [] then s.now
    else
      var front := actions[..|actions| - 1];
      if SamePlace(Exec(s, front), Exec(s, actions), t) then Since(s, front, t) else Exec(s, front).now
  }

  /** Tag `t`, in its place since `since`, has the timeout of the list it waits on. */
  predicate Timed(s: State, t: nat, since: int) {
    t < |s.place| && t < |s.pkts| ==>
      && (s.place[t] == Missed ==> s.pkts[t].timeout == since + s.hz)
      && (s.place[t] == TimedOut ==> s.pkts[t].timeout == since + 60 * s.hz)
  }

  lemma StepTimed(s: State, a: Action, t: nat, since: int)
    requires Inv(s) && InBounds(s) && Timed(s, t, since)
    ensures Timed(Step(s, a), t, if SamePlace(s, Step(s, a), t) then since else s.now)
    ensures Step(s, a).hz == s.hz
  {
    hide Inv, Handle, PushStep;
    InvPlaced(s);
    match a
    case Completion(kind, tag) =>
      HandleKeepsHz(s, Decode(kind, tag).0, Decode(kind, tag).1);
      if s.compl.NoPush? && Permitted(s, TagOf(kind, tag)) { CompletionEffect(s, kind, tag); }
    case TxPush => if s.tx.TxFreeing? { PushTimed(s, s.tx.push, t); }
    case CPush => PushTimed(s, s.compl, t);
    case ScanMissed => ScanTimed(s, a, t, since);
    case ScanTimedOut => ScanTimed(s, a, t, since);
    case TxSteal => SenderTimed(s, a, t, since);
    case TxPop => SenderTimed(s, a, t, since);
    case TxMark => SenderTimed(s, a, t, since);
    case TxPost(_) => SenderTimed(s, a, t, since);
    case TxFail => SenderTimed(s, a, t, since);
    case _ =>
  }

  lemma InvPlaced(s: State)
    requires Inv(s)
    ensures Placed(s)
  {
    hide Placed, StatesOk, InOrder;
  }

  lemma HandleKeepsHz(s: State, kind: Kind, t: nat)
    requires |s.pkts| == |s.place|
    ensures Handle(s, kind, t).hz == s.hz
  {
  }

  lemma PushTimed(s: State, p: Push, t: nat)
    requires p.NoPush? || p.t < |s.place|
    ensures var s' := PushStep(s, p).0;
      && s'.pkts == s.pkts && s'.hz == s.hz && s'.now == s.now && |s'.place| == |s.place|
      && (t < |s.place| ==> s'.place[t] == s.place[t] || s'.place[t] == Producer)
  {
  }

  lemma ScanTimed(s: State, a: Action, t: nat, since: int)
    requires Placed(s) && InBounds(s) && Timed(s, t, since) && (a.ScanMissed? || a.ScanTimedOut?)
    ensures Timed(Step(s, a), t, if SamePlace(s, Step(s, a), t) then since else s.now)
    ensures Step(s, a).hz == s.hz
  {
    hide NoDup;
  }

  lemma SenderTimed(s: State, a: Action, t: nat, since: int)
    requires InBounds(s) && Timed(s, t, since) && (a.TxSteal? || a.TxPop? || a.TxMark? || a.TxPost? || a.TxFail?)
    ensures Timed(Step(s, a), t, if SamePlace(s, Step(s, a), t) then since else s.now)
    ensures Step(s, a).hz == s.hz
  {
  }

  /** In every reachable state a missed packet is due a second after its miss, a tag given up a minute later. */
  lemma {:induction false} TimeoutsAreExact(n: nat, hz: nat, now: int, actions: seq<Action>, t: nat)
    ensures var s := Exec(Init(n, hz, now), actions);
      Timed(s, t, Since(Init(n, hz, now), actions, t)) && s.hz == hz
    decreases |actions|
  {
    hide Inv, Step, InBounds, Timed, SamePlace;
    var s0 := Init(n, hz, now);
    if actions == [] {
      InitTimed(n, hz, now, t);
    } else {
      var front := actions[..|actions| - 1];
      TimeoutsAreExact(n, hz, now, front, t);
      InitInv(n, hz, now);
      RunKeepsInv(s0, front);
      StepKeepsInv(Exec(s0, front), actions[|actions| - 1]);
      StepTimed(Exec(s0, front), actions[|actions| - 1], t, Since(s0, front, t));
    }
  }

  lemma InitTimed(n: nat, hz: nat, now: int, t: nat)
    ensures Timed(Init(n, hz, now), t, now)
  {
  }

  /**
   The scan of the miss list in any reachable state: a packet is given up exactly
   when its reinjection has been outstanding for a second.
   */
  lemma MissedPacketsAreGivenUpInTime(n: nat, hz: nat, now: int, actions: seq<Action>, t: nat)
    ensures var s := Exec(Init(n, hz, now), actions);
      InBounds(s) && (s.compl.NoPush? && t in s.missed ==>
        (t in ExpireAll(s).missed <==> s.now < Since(Init(n, hz, now), actions, t) + hz)
        && (t in ExpireAll(s).timedOut <==> Since(Init(n, hz, now), actions, t) + hz <= s.now))
  {
    hide Inv, Exec, Since, ExpireAll;
    var s := Exec(Init(n, hz, now), actions);
    InitInv(n, hz, now);
    RunKeepsInv(Init(n, hz, now), actions);
    Listed(s, t);
    TimeoutsAreExact(n, hz, now, actions, t);
    if s.compl.NoPush? && t in s.missed {
      ScanIsExact(s);
      ScanSplits(s, ExpireAll(s), t);
    }
  }

  lemma Listed(s: State, t: nat)
    requires Inv(s)
    ensures InBounds(s) && NoDup(s.missed) && NoDup(s.timedOut)
    ensures t in s.missed <==> t < |s.place| && s.place[t] == Missed
    ensures t in s.timedOut <==> t < |s.place| && s.place[t] == TimedOut
  {
    hide StatesOk, InOrder;
    PlacedInBounds(s);
    if t < |s.place| { WhereListed(s, t); }
  }

  lemma ScanSplits(s: State, s': State, t: nat)
    requires InBounds(s) && InBounds(s') && Scanned(s, s') && NoDup(s.missed) && t in s.missed && t !in s.timedOut
    ensures t in s'.missed <==> s.now < s.pkts[t].timeout
    ensures t in s'.timedOut <==> s.pkts[t].timeout <= s.now
  {
    var k := |s.missed| - |s'.missed|;
    var i :| 0 <= i < |s.missed| && s.missed[i] == t;
    if i < k {
      assert s.missed[..k][i] == t;
    } else {
      assert s'.missed[i - k] == t;
    }
    forall j | 0 <= j < |s.missed| && s.missed[j] == t
      ensures j == i
    {
    }
    assert t in s'.missed ==> exists j :: 0 <= j < |s'.missed| && s'.missed[j] == t == s.missed[k + j];
    assert t in s.missed[..k] ==> exists j :: 0 <= j < k && s.missed[..k][j] == t == s.missed[j];
  }

  /**
   The timed-out list in any reachable state: the next step of its scan frees the
   oldest tag exactly when a minute has passed since the packet was given up; if
   it does not, a minute has not passed for any tag on the list.
   */
  lemma TimedOutTagsAreFreedInTime(n: nat, hz: nat, now: int, actions: seq<Action>, t: nat)
    ensures var s := Exec(Init(n, hz, now), actions);
      InBounds(s) && (s.compl.NoPush? && s.timedOut != [] ==>
        var (oldest, s') := (s.timedOut[0], Step(s, ScanTimedOut));
        var due := Since(Init(n, hz, now), actions, oldest) + 60 * hz <= s.now;
        && (due ==> s'.timedOut == s.timedOut[1..] && s'.compl == Start(oldest))
        && (!due ==> s' == s)
        && (!due && t in s.timedOut ==> s.now < Since(Init(n, hz, now), actions, t) + 60 * hz))
  {
    hide Inv, Exec, Since;
    var s := Exec(Init(n, hz, now), actions);
    InitInv(n, hz, now);
    RunKeepsInv(Init(n, hz, now), actions);
    Listed(s, t);
    TimeoutsAreExact(n, hz, now, actions, t);
    EarlyBreakMissesNothing(n, hz, now, actions);
    if s.timedOut != [] {
      Listed(s, s.timedOut[0]);
      TimeoutsAreExact(n, hz, now, actions, s.timedOut[0]);
    }
  }
}
