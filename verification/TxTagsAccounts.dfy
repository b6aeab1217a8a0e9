/** Packet and byte accounting of the transmit path, and what happens to every SKB. */
module TxTagsAccounts {
  import opened Arith
  import opened TxTagsSpec
  import opened TxTagsProofs

  /** One for every tag that holds an SKB. */
  function Holding(pkts: seq<Pkt>): seq<int> {
    seq(|pkts|, t requires 0 <= t < |pkts| => if pkts[t].skb.Skb? then 1 else 0)
  }

  /** The bytes of every packet that still awaits its first completion. */
  function Awaiting(place: seq<Place>, pkts: seq<Pkt>): seq<int>
    requires |place| == |pkts|
  {
    seq(|pkts|, t requires 0 <= t < |pkts| => AwaitedBytes(place[t], pkts[t]))
  }

  function AwaitedBytes(p: Place, pkt: Pkt): nat {
    if p == InFlight then LenOf(pkt.skb) else 0
  }

  ghost predicate CountsOk(s: State) {
    && |s.pkts| == |s.place|
    && |s.released| == s.pktDone + s.poll.done + s.dropped + Sum(Holding(s.pkts))
    && s.sentBytes - s.completedBytes - s.poll.queueBytes == Sum(Awaiting(s.place, s.pkts))
  }

  lemma OneTagChanges(place: seq<Place>, pkts: seq<Pkt>, t: nat, p: Place, pkt: Pkt)
    requires |place| == |pkts| && t < |pkts|
    ensures Sum(Holding(pkts[t := pkt])) ==
      Sum(Holding(pkts)) - (if pkts[t].skb.Skb? then 1 else 0) + (if pkt.skb.Skb? then 1 else 0)
    ensures Sum(Awaiting(place[t := p], pkts[t := pkt])) ==
      Sum(Awaiting(place, pkts)) - AwaitedBytes(place[t], pkts[t]) + AwaitedBytes(p, pkt)
  {
    hide Sum;
    var w, v := Holding(pkts), if pkt.skb.Skb? then 1 else 0;
    SumUpdate(w, t, v);
    assert Holding(pkts[t := pkt]) == w[t := v];
    var b := Awaiting(place, pkts);
    SumUpdate(b, t, AwaitedBytes(p, pkt));
    assert Awaiting(place[t := p], pkts[t := pkt]) == b[t := AwaitedBytes(p, pkt)];
  }

  lemma StealKeepsCounts(s: State)
    requires CountsOk(s) && InBounds(s)
    ensures CountsOk(Step(s, TxSteal))
  {
    hide Sum;
    assert Awaiting(Step(s, TxSteal).place, s.pkts) == Awaiting(s.place, s.pkts);
  }

  lemma SenderKeepsCounts(s: State, a: Action)
    requires Placed(s) && StatesOk(s) && CountsOk(s) && InBounds(s)
    requires a.TxPop? || a.TxMark? || a.TxPost? || a.TxFail? || a.TxDrop?
    ensures CountsOk(Step(s, a))
  {
    hide Sum, ListsOk;
    if a.TxPop? && s.tx == TxIdle && s.consumer != [] {
      PopConsumer(s.place, s.consumer, s.producer, s.missed, s.timedOut);
      OneTagChanges(s.place, s.pkts, s.consumer[0], TxOwned, s.pkts[s.consumer[0]]);
      assert s.pkts == s.pkts[s.consumer[0] := s.pkts[s.consumer[0]]];
    }
    if !a.TxPop? && !a.TxDrop? && TxTag(s.tx) >= 0 {
      var t, s' := TxTag(s.tx), Step(s, a);
      OneTagChanges(s.place, s.pkts, t, s'.place[t], s'.pkts[t]);
      assert s'.pkts == s.pkts[t := s'.pkts[t]] && s'.place == s.place[t := s'.place[t]];
    }
  }

  lemma PushStepKeepsCounts(s: State, sender: bool)
    requires Placed(s) && CountsOk(s) && InBounds(s)
    ensures CountsOk(Step(s, if sender then TxPush else CPush))
  {
    hide Sum, ListsOk;
    var p := if sender then (if s.tx.TxFreeing? then s.tx.push else NoPush) else s.compl;
    if !p.NoPush? {
      OneTagChanges(s.place, s.pkts, p.t, Producer, s.pkts[p.t]);
      assert s.pkts == s.pkts[p.t := s.pkts[p.t]];
    }
  }

  lemma HandleKeepsCounts(s: State, kind: Kind, t: nat)
    requires StatesOk(s) && CountsOk(s) && Permitted(s, t)
    ensures CountsOk(Handle(s, kind, t))
  {
    hide Sum;
    if t < |s.pkts| {
      assert s.pkts[t].state == StateAt(s.place[t], s.tx);
      var s' := Handle(s, kind, t);
      OneTagChanges(s.place, s.pkts, t, s'.place[t], s'.pkts[t]);
      assert s'.pkts == s.pkts[t := s'.pkts[t]] && s'.place == s.place[t := s'.place[t]];
    }
  }

  lemma ScanKeepsCounts(s: State)
    requires Placed(s) && StatesOk(s) && CountsOk(s) && InBounds(s)
    ensures |s.missed| > 0 ==> CountsOk(ExpireMiss(s))
    ensures |s.timedOut| > 0 ==> CountsOk(Deallocate(s))
  {
    hide Sum, ListsOk;
    if |s.missed| > 0 {
      MissedToTimedOut(s.place, s.consumer, s.producer, s.missed, s.timedOut);
      OneTagChanges(s.place, s.pkts, s.missed[0], TimedOut, ExpireMiss(s).pkts[s.missed[0]]);
    }
    if |s.timedOut| > 0 {
      TimedOutMember(s, 0);
      OneTagChanges(s.place, s.pkts, s.timedOut[0], ComplOwned, Deallocate(s).pkts[s.timedOut[0]]);
    }
  }

  lemma StepKeepsCounts(s: State, a: Action)
    requires Placed(s) && StatesOk(s) && CountsOk(s) && InBounds(s)
    ensures CountsOk(Step(s, a))
  {
    hide Placed, StatesOk, CountsOk, Handle, PushStep;
    match a
    case TxSteal => StealKeepsCounts(s);
    case TxPush => PushStepKeepsCounts(s, true);
    case CPush => PushStepKeepsCounts(s, false);
    case Completion(kind, tag) =>
      var (k, t) := Decode(kind, tag);
      if Permitted(s, t) { HandleKeepsCounts(s, k, t); }
    case ScanMissed => ScanKeepsCounts(s);
    case ScanTimedOut => ScanKeepsCounts(s);
    case PollEnd => QuietKeepsCounts(s, Step(s, a));
    case Tick(_) => QuietKeepsCounts(s, Step(s, a));
    case _ => SenderKeepsCounts(s, a);
  }

  lemma QuietKeepsCounts(s: State, s': State)
    requires CountsOk(s) && s'.pkts == s.pkts && s'.place == s.place && s'.released == s.released
    requires s'.pktDone + s'.poll.done == s.pktDone + s.poll.done && s'.dropped == s.dropped
    requires s'.completedBytes + s'.poll.queueBytes == s.completedBytes + s.poll.queueBytes
    requires s'.sentBytes == s.sentBytes
    ensures CountsOk(s')
  {
  }

  // ----- Every SKB ------------------------------------------------------------------------------

  /** An accepted SKB is held by the one tag it was given to, or was released exactly once. */
  ghost predicate ReleasesOk(s: State) {
    && |s.holder| == |s.released|
    && (forall id :: 0 <= id < |s.released| ==>
          && s.released[id] <= 1
          && (s.released[id] == 0 ==>
                s.holder[id] < |s.pkts| && s.pkts[s.holder[id]].skb.Skb? && s.pkts[s.holder[id]].skb.id == id))
    && (forall t :: 0 <= t < |s.pkts| && s.pkts[t].skb.Skb? ==>
          && s.pkts[t].skb.id < |s.released|
          && s.released[s.pkts[t].skb.id] == 0 && s.holder[s.pkts[t].skb.id] == t)
  }

  lemma ReleaseKeeps(s: State, t: nat, pkt: Pkt, s': State)
    requires ReleasesOk(s) && t < |s.pkts| && pkt.skb.NoSkb?
    requires s'.pkts == s.pkts[t := pkt] && s'.released == Released(s, s.pkts[t].skb).released && s'.holder == s.holder
    ensures ReleasesOk(s')
  {
  }

  lemma SameSkbsKeep(s: State, s': State)
    requires ReleasesOk(s) && s'.released == s.released && s'.holder == s.holder && |s'.pkts| == |s.pkts|
    requires forall t :: 0 <= t < |s.pkts| ==> s'.pkts[t].skb == s.pkts[t].skb
    ensures ReleasesOk(s')
  {
  }

  lemma AcceptKeeps(s: State, t: nat, len: nat, s': State)
    requires ReleasesOk(s) && t < |s.pkts| && s.pkts[t].skb.NoSkb?
    requires s'.released == s.released + [0] && s'.holder == s.holder + [t]
    requires s'.pkts == s.pkts[t := s.pkts[t].(skb := Skb(|s.released|, len))]
    ensures ReleasesOk(s')
  {
  }

  lemma GiveUpKeeps(s: State, s': State)
    requires ReleasesOk(s)
    requires s'.released == s.released + [1] && s'.holder == s.holder + [0] && |s'.pkts| == |s.pkts|
    requires forall t :: 0 <= t < |s.pkts| ==> s'.pkts[t].skb == s.pkts[t].skb
    ensures ReleasesOk(s')
  {
  }

  lemma HandleKeepsReleases(s: State, kind: Kind, t: nat)
    requires StatesOk(s) && ReleasesOk(s) && s.compl.NoPush? && Permitted(s, t)
    ensures ReleasesOk(Handle(s, kind, t))
  {
    hide ReleasesOk;
    if t < |s.pkts| {
      assert s.pkts[t].state == StateAt(s.place[t], s.tx);
      var s' := Handle(s, kind, t);
      if s'.compl.Start? {
        ReleaseKeeps(s, t, s'.pkts[t], s');
      } else {
        SameSkbsKeep(s, s');
      }
    }
  }

  lemma SenderKeepsReleases(s: State, a: Action)
    requires Placed(s) && StatesOk(s) && ReleasesOk(s) && InBounds(s)
    requires a.TxPost? || a.TxFail? || a.TxDrop?
    ensures ReleasesOk(Step(s, a))
  {
    hide ReleasesOk, ListsOk;
    var s' := Step(s, a);
    if a.TxPost? && s.tx.TxHolding? {
      AcceptKeeps(s, s.tx.t, a.len, s');
    } else if s'.released != s.released {
      GiveUpKeeps(s, s');
    }
  }

  lemma StepKeepsReleases(s: State, a: Action)
    requires Placed(s) && StatesOk(s) && ReleasesOk(s) && InBounds(s)
    ensures ReleasesOk(Step(s, a))
  {
    hide Placed, StatesOk, ReleasesOk, Handle;
    match a
    case Completion(kind, tag) =>
      var (k, t) := Decode(kind, tag);
      if s.compl.NoPush? && Permitted(s, t) { HandleKeepsReleases(s, k, t); }
    case ScanMissed =>
      if Step(s, a) != s { ReleaseKeeps(s, s.missed[0], Step(s, a).pkts[s.missed[0]], Step(s, a)); }
    case ScanTimedOut =>
      if Step(s, a) != s { DeallocateKeepsReleases(s); }
    case TxPost(_) => SenderKeepsReleases(s, a);
    case TxFail => SenderKeepsReleases(s, a);
    case TxDrop => SenderKeepsReleases(s, a);
    case _ => SameSkbsKeep(s, Step(s, a));
  }

  lemma DeallocateKeepsReleases(s: State)
    requires Placed(s) && StatesOk(s) && ReleasesOk(s) && InBounds(s) && |s.timedOut| > 0
    ensures ReleasesOk(Deallocate(s))
  {
    hide ReleasesOk, ListsOk;
    TimedOutMember(s, 0);
    SameSkbsKeep(s, Deallocate(s));
  }
}
