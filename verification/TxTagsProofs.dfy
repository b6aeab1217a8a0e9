/** What every step of the tag machine keeps. */
module TxTagsProofs {
  import opened Lists
  import opened TxTagsSpec

  // ----- The invariant --------------------------------------------------------------------

  /** The tag the sender holds, or -1. */
  function TxTag(tx: TxPc): int {
    match tx
    case TxIdle => -1
    case TxPopped(t) => t
    case TxHolding(t) => t
    case TxFreeing(p) => PushTag(p)
  }

  function PushTag(p: Push): int {
    if p.NoPush? then -1 else p.t
  }

  ghost predicate ListsOk(place: seq<Place>, c: seq<nat>, p: seq<nat>, m: seq<nat>, o: seq<nat>) {
    && OnList(place, c, Consumer)
    && OnList(place, p, Producer)
    && OnList(place, m, Missed)
    && OnList(place, o, TimedOut)
  }

  /** Every tag is in exactly one place, and the lists and hands agree with it. */
  ghost predicate Placed(s: State) {
    && |s.pkts| == |s.place|
    && ListsOk(s.place, s.consumer, s.producer, s.missed, s.timedOut)
    && Owned(s.place, TxOwned, TxTag(s.tx))
    && Owned(s.place, ComplOwned, PushTag(s.compl))
    && (s.tx.TxFreeing? ==> !s.tx.push.NoPush?)
  }

  /** `t` is the only tag with place `p`; with -1 there is none. */
  ghost predicate Owned(place: seq<Place>, p: Place, t: int) {
    && -1 <= t < |place|
    && (t >= 0 ==> place[t] == p)
    && (forall i :: 0 <= i < |place| && place[i] == p ==> i == t)
  }

  function StateAt(p: Place, tx: TxPc): PacketState {
    match p
    case Consumer => Unallocated
    case Producer => Unallocated
    case TxOwned => if tx.TxHolding? then PendingData else Unallocated
    case InFlight => PendingData
    case Missed => PendingReinject
    case TimedOut => TimedOutCompl
    case ComplOwned => Unallocated
  }

  /** The `state` field and the SKB agree with the place. */
  ghost predicate StatesOk(s: State) {
    && |s.pkts| == |s.place|
    && forall t :: 0 <= t < |s.pkts| ==>
         && s.pkts[t].state == StateAt(s.place[t], s.tx)
         && (s.pkts[t].skb.Skb? <==> s.place[t] == InFlight || s.place[t] == Missed)
  }

  // ----- Lists ---------------------------------------------------------------------------

  predicate OffList(p: Place) {
    p == TxOwned || p == InFlight || p == ComplOwned
  }

  lemma MoveOffLists(place: seq<Place>, c: seq<nat>, p: seq<nat>, m: seq<nat>, o: seq<nat>, t: nat, q: Place)
    requires ListsOk(place, c, p, m, o) && t < |place| && OffList(place[t]) && OffList(q)
    ensures ListsOk(place[t := q], c, p, m, o)
  {
    hide OnList;
    OnListFrame(place, c, Consumer, t, q);
    OnListFrame(place, p, Producer, t, q);
    OnListFrame(place, m, Missed, t, q);
    OnListFrame(place, o, TimedOut, t, q);
  }

  lemma StealLists(place: seq<Place>, p: seq<nat>, m: seq<nat>, o: seq<nat>, place': seq<Place>)
    requires ListsOk(place, [], p, m, o) && |place'| == |place|
    requires forall i :: 0 <= i < |place| ==> place'[i] == if place[i] == Producer then Consumer else place[i]
    ensures ListsOk(place', p, [], m, o)
  {
    assert forall i :: 0 <= i < |place| ==> place[i] != Consumer;
  }

  lemma PopConsumer(place: seq<Place>, c: seq<nat>, p: seq<nat>, m: seq<nat>, o: seq<nat>)
    requires ListsOk(place, c, p, m, o) && |c| > 0
    ensures c[0] < |place| && place[c[0]] == Consumer
    ensures ListsOk(place[c[0] := TxOwned], c[1..], p, m, o)
  {
    OnListPop(place, c, Consumer, TxOwned);
    OnListFrame(place, p, Producer, c[0], TxOwned);
    OnListFrame(place, m, Missed, c[0], TxOwned);
    OnListFrame(place, o, TimedOut, c[0], TxOwned);
  }

  lemma PushProducer(place: seq<Place>, c: seq<nat>, p: seq<nat>, m: seq<nat>, o: seq<nat>, t: nat)
    requires ListsOk(place, c, p, m, o) && t < |place| && OffList(place[t])
    ensures ListsOk(place[t := Producer], c, [t] + p, m, o)
  {
    hide OnList;
    OnListFrame(place, c, Consumer, t, Producer);
    OnListPrepend(place, p, Producer, t);
    OnListFrame(place, m, Missed, t, Producer);
    OnListFrame(place, o, TimedOut, t, Producer);
  }

  lemma AddMissed(place: seq<Place>, c: seq<nat>, p: seq<nat>, m: seq<nat>, o: seq<nat>, t: nat)
    requires ListsOk(place, c, p, m, o) && t < |place| && OffList(place[t])
    ensures ListsOk(place[t := Missed], c, p, m + [t], o)
  {
    hide OnList;
    OnListFrame(place, c, Consumer, t, Missed);
    OnListFrame(place, p, Producer, t, Missed);
    OnListAppend(place, m, Missed, t);
    OnListFrame(place, o, TimedOut, t, Missed);
  }

  /** Removing by value is removing the one position it has. */
  lemma {:induction false} RemoveTagIsWithout(l: seq<nat>, t: nat, k: nat)
    requires NoDup(l) && k < |l| && l[k] == t
    ensures RemoveTag(l, t) == Without(l, k)
    decreases |l|
  {
    if k == 0 {
      assert Without(l, 0) == l[1..];
    } else {
      assert l[0] != l[k];
      RemoveTagIsWithout(l[1..], t, k - 1);
      assert [l[0]] + Without(l[1..], k - 1) == Without(l, k);
    }
  }

  lemma TakeMissed(place: seq<Place>, c: seq<nat>, p: seq<nat>, m: seq<nat>, o: seq<nat>, t: nat)
    requires ListsOk(place, c, p, m, o) && t < |place| && place[t] == Missed
    ensures ListsOk(place[t := ComplOwned], c, p, RemoveTag(m, t), o)
  {
    var k :| 0 <= k < |m| && m[k] == t;
    RemoveTagIsWithout(m, t, k);
    OnListRemove(place, m, Missed, k, ComplOwned);
    OnListFrame(place, c, Consumer, t, ComplOwned);
    OnListFrame(place, p, Producer, t, ComplOwned);
    OnListFrame(place, o, TimedOut, t, ComplOwned);
  }

  lemma TakeTimedOut(place: seq<Place>, c: seq<nat>, p: seq<nat>, m: seq<nat>, o: seq<nat>, t: nat)
    requires ListsOk(place, c, p, m, o) && t < |place| && place[t] == TimedOut
    ensures ListsOk(place[t := ComplOwned], c, p, m, RemoveTag(o, t))
  {
    var k :| 0 <= k < |o| && o[k] == t;
    RemoveTagIsWithout(o, t, k);
    OnListRemove(place, o, TimedOut, k, ComplOwned);
    OnListFrame(place, c, Consumer, t, ComplOwned);
    OnListFrame(place, p, Producer, t, ComplOwned);
    OnListFrame(place, m, Missed, t, ComplOwned);
  }

  lemma MissedToTimedOut(place: seq<Place>, c: seq<nat>, p: seq<nat>, m: seq<nat>, o: seq<nat>)
    requires ListsOk(place, c, p, m, o) && |m| > 0
    ensures m[0] < |place| && place[m[0]] == Missed
    ensures ListsOk(place[m[0] := TimedOut], c, p, m[1..], o + [m[0]])
  {
    OnListPop(place, m, Missed, TimedOut);
    OnListAppend(place, o, TimedOut, m[0]);
    OnListFrame(place, c, Consumer, m[0], TimedOut);
    OnListFrame(place, p, Producer, m[0], TimedOut);
  }

  // ----- Places ------------------------------------------------------------------------------

  lemma PlacedInBounds(s: State)
    requires Placed(s)
    ensures InBounds(s)
  {
  }

  lemma StealKeepsPlaced(s: State)
    requires Placed(s) && InBounds(s)
    ensures Placed(Step(s, TxSteal))
  {
    if s.tx == TxIdle && s.consumer == [] {
      StealLists(s.place, s.producer, s.missed, s.timedOut, Step(s, TxSteal).place);
    }
  }

  lemma PopKeepsPlaced(s: State)
    requires Placed(s) && InBounds(s)
    ensures Placed(Step(s, TxPop))
  {
    hide ListsOk;
    if s.tx == TxIdle && s.consumer != [] {
      PopConsumer(s.place, s.consumer, s.producer, s.missed, s.timedOut);
    }
  }

  lemma SenderKeepsPlaced(s: State, a: Action)
    requires Placed(s) && InBounds(s)
    requires a.TxMark? || a.TxPost? || a.TxFail? || a.TxDrop?
    ensures Placed(Step(s, a))
  {
    hide ListsOk;
    if s.tx.TxHolding? {
      MoveOffLists(s.place, s.consumer, s.producer, s.missed, s.timedOut, s.tx.t, InFlight);
      MoveOffLists(s.place, s.consumer, s.producer, s.missed, s.timedOut, s.tx.t, TxOwned);
    }
  }

  lemma PushStepKeepsPlaced(s: State, sender: bool)
    requires Placed(s) && InBounds(s)
    ensures Placed(Step(s, if sender then TxPush else CPush))
  {
    hide ListsOk;
    var p := if sender then (if s.tx.TxFreeing? then s.tx.push else NoPush) else s.compl;
    if p.Linked? {
      PushProducer(s.place, s.consumer, s.producer, s.missed, s.timedOut, p.t);
    }
  }

  lemma RetireKeepsPlaced(s: State, t: nat, s': State)
    requires Placed(s) && t < |s.place| && s.compl.NoPush? && s.place[t] != TxOwned && s.place[t] != ComplOwned
    requires s'.place == s.place[t := ComplOwned] && |s'.pkts| == |s.pkts|
    requires s'.tx == s.tx && s'.compl == Start(t)
    requires ListsOk(s'.place, s'.consumer, s'.producer, s'.missed, s'.timedOut)
    ensures Placed(s')
  {
    hide ListsOk;
  }

  lemma HandleKeepsPlaced(s: State, kind: Kind, t: nat)
    requires Placed(s) && StatesOk(s) && s.compl.NoPush? && Permitted(s, t)
    ensures Placed(Handle(s, kind, t))
  {
    hide ListsOk;
    if t < |s.pkts| {
      var s' := Handle(s, kind, t);
      assert s.pkts[t].state == StateAt(s.place[t], s.tx);
      if s.place[t] == InFlight {
        MoveOffLists(s.place, s.consumer, s.producer, s.missed, s.timedOut, t, ComplOwned);
        AddMissed(s.place, s.consumer, s.producer, s.missed, s.timedOut, t);
        if kind == Data { RetireKeepsPlaced(s, t, s'); }
      } else if s.place[t] == Missed && kind == Reinject {
        TakeMissed(s.place, s.consumer, s.producer, s.missed, s.timedOut, t);
        RetireKeepsPlaced(s, t, s');
      } else if s.place[t] == TimedOut && kind == Reinject {
        TakeTimedOut(s.place, s.consumer, s.producer, s.missed, s.timedOut, t);
        RetireKeepsPlaced(s, t, s');
      }
    }
  }

  lemma ScanKeepsPlaced(s: State)
    requires Placed(s) && InBounds(s) && s.compl.NoPush?
    ensures |s.missed| > 0 ==> Placed(ExpireMiss(s))
    ensures |s.timedOut| > 0 ==> Placed(Deallocate(s))
  {
    hide ListsOk;
    if |s.missed| > 0 {
      MissedToTimedOut(s.place, s.consumer, s.producer, s.missed, s.timedOut);
    }
    if |s.timedOut| > 0 {
      var t := s.timedOut[0];
      TimedOutMember(s, 0);
      TakeTimedOut(s.place, s.consumer, s.producer, s.missed, s.timedOut, t);
      assert RemoveTag(s.timedOut, t) == s.timedOut[1..];
      RetireKeepsPlaced(s, t, Deallocate(s));
    }
  }

  lemma TimedOutMember(s: State, i: nat)
    requires Placed(s) && i < |s.timedOut|
    ensures s.timedOut[i] < |s.place| && s.place[s.timedOut[i]] == TimedOut
  {
  }

  lemma StepKeepsPlaced(s: State, a: Action)
    requires Placed(s) && StatesOk(s) && InBounds(s)
    ensures Placed(Step(s, a))
  {
    hide Placed, StatesOk, Handle, PushStep;
    match a
    case TxSteal => StealKeepsPlaced(s);
    case TxPop => PopKeepsPlaced(s);
    case TxPush => PushStepKeepsPlaced(s, true);
    case CPush => PushStepKeepsPlaced(s, false);
    case Completion(kind, tag) =>
      var (k, t) := Decode(kind, tag);
      if s.compl.NoPush? && Permitted(s, t) { HandleKeepsPlaced(s, k, t); }
    case ScanMissed => if s.compl.NoPush? { ScanKeepsPlaced(s); }
    case ScanTimedOut => if s.compl.NoPush? { ScanKeepsPlaced(s); }
    case PollEnd => QuietKeepsPlaced(s, Step(s, a));
    case Tick(_) => QuietKeepsPlaced(s, Step(s, a));
    case _ => SenderKeepsPlaced(s, a);
  }

  /** Time and statistics do not move tags. */
  lemma QuietKeepsPlaced(s: State, s': State)
    requires Placed(s)
    requires s' == s.(now := s'.now, poll := s'.poll, completedBytes := s'.completedBytes,
                      pktDone := s'.pktDone, bytesDone := s'.bytesDone)
    ensures Placed(s')
  {
  }

  // ----- States --------------------------------------------------------------------------------

  lemma SenderKeepsStates(s: State, a: Action)
    requires Placed(s) && StatesOk(s) && InBounds(s)
    requires a.TxSteal? || a.TxPop? || a.TxMark? || a.TxPost? || a.TxFail? || a.TxDrop?
    ensures StatesOk(Step(s, a))
  {
    hide ListsOk;
    if a.TxPop? && s.tx == TxIdle && s.consumer != [] {
      PopConsumer(s.place, s.consumer, s.producer, s.missed, s.timedOut);
    }
  }

  lemma PushStepKeepsStates(s: State, sender: bool)
    requires Placed(s) && StatesOk(s) && InBounds(s)
    ensures StatesOk(Step(s, if sender then TxPush else CPush))
  {
    hide ListsOk;
  }

  lemma HandleKeepsStates(s: State, kind: Kind, t: nat)
    requires StatesOk(s) && Permitted(s, t)
    ensures StatesOk(Handle(s, kind, t))
  {
    if t < |s.pkts| {
      assert s.pkts[t].state == StateAt(s.place[t], s.tx);
    }
  }

  lemma ScanKeepsStates(s: State)
    requires StatesOk(s) && InBounds(s)
    ensures |s.missed| > 0 ==> StatesOk(ExpireMiss(s))
    ensures |s.timedOut| > 0 ==> StatesOk(Deallocate(s))
  {
  }

  lemma StepKeepsStates(s: State, a: Action)
    requires Placed(s) && StatesOk(s) && InBounds(s)
    ensures StatesOk(Step(s, a))
  {
    hide Placed, StatesOk, Handle, PushStep;
    match a
    case TxPush => PushStepKeepsStates(s, true);
    case CPush => PushStepKeepsStates(s, false);
    case Completion(kind, tag) =>
      var (k, t) := Decode(kind, tag);
      if Permitted(s, t) { HandleKeepsStates(s, k, t); }
    case ScanMissed => ScanKeepsStates(s);
    case ScanTimedOut => ScanKeepsStates(s);
    case PollEnd => QuietKeepsStates(s, Step(s, a));
    case Tick(_) => QuietKeepsStates(s, Step(s, a));
    case _ => SenderKeepsStates(s, a);
  }

  lemma QuietKeepsStates(s: State, s': State)
    requires StatesOk(s) && s'.pkts == s.pkts && s'.place == s.place && s'.tx == s.tx
    ensures StatesOk(s')
  {
  }

  // ----- Timeouts ---------------------------------------------------------------------------------

  /** The list is sorted by timeout and no entry is due later than `limit`. */
  ghost predicate Sorted(pkts: seq<Pkt>, l: seq<nat>, limit: int) {
    && (forall i :: 0 <= i < |l| ==> l[i] < |pkts| && pkts[l[i]].timeout <= limit)
    && (forall i, j :: 0 <= i < j < |l| ==> pkts[l[i]].timeout <= pkts[l[j]].timeout)
  }

  ghost predicate InOrder(s: State) {
    && Sorted(s.pkts, s.missed, s.now + s.hz)
    && Sorted(s.pkts, s.timedOut, s.now + 60 * s.hz)
  }

  lemma SortedFrame(pkts: seq<Pkt>, l: seq<nat>, limit: int, t: nat, p: Pkt)
    requires Sorted(pkts, l, limit) && t < |pkts| && (t !in l || p.timeout == pkts[t].timeout)
    ensures Sorted(pkts[t := p], l, limit)
  {
  }

  /** Appending at the current time keeps the order. */
  lemma SortedAppend(pkts: seq<Pkt>, l: seq<nat>, limit: int, t: nat, p: Pkt)
    requires Sorted(pkts, l, limit) && t < |pkts| && t !in l && p.timeout == limit
    ensures Sorted(pkts[t := p], l + [t], limit)
  {
  }

  /** So does a removal anywhere. */
  lemma SortedRemove(pkts: seq<Pkt>, l: seq<nat>, limit: int, t: nat)
    requires Sorted(pkts, l, limit) && NoDup(l) && t in l
    ensures Sorted(pkts, RemoveTag(l, t), limit)
    ensures forall x :: x in RemoveTag(l, t) ==> x in l && x != t
  {
    hide RemoveTag, Without;
    var k :| 0 <= k < |l| && l[k] == t;
    RemoveTagIsWithout(l, t, k);
    SortedWithout(pkts, l, limit, k);
    MembersWithout(l, k);
  }

  lemma SortedWithout(pkts: seq<Pkt>, l: seq<nat>, limit: int, k: nat)
    requires Sorted(pkts, l, limit) && k < |l|
    ensures Sorted(pkts, Without(l, k), limit)
  {
    var m := Without(l, k);
    forall i | 0 <= i < |m|
      ensures m[i] < |pkts| && pkts[m[i]].timeout <= limit
    {
      WithoutAt(l, k, i);
    }
    forall i, j | 0 <= i < j < |m|
      ensures pkts[m[i]].timeout <= pkts[m[j]].timeout
    {
      WithoutAt(l, k, i);
      WithoutAt(l, k, j);
    }
  }

  lemma MembersWithout(l: seq<nat>, k: nat)
    requires NoDup(l) && k < |l|
    ensures forall x :: x in Without(l, k) ==> x in l && x != l[k]
  {
    var m := Without(l, k);
    forall x | x in m
      ensures x in l && x != l[k]
    {
      var i :| 0 <= i < |m| && m[i] == x;
      WithoutAt(l, k, i);
    }
  }

  lemma HandleKeepsOrder(s: State, kind: Kind, t: nat)
    requires Placed(s) && StatesOk(s) && InOrder(s) && s.compl.NoPush? && Permitted(s, t)
    ensures InOrder(Handle(s, kind, t))
  {
    hide Placed, StatesOk, InOrder, Handle;
    if t < |s.pkts| {
      HandleAt(s, kind, t);
      if s.place[t] == InFlight && kind != Reinject {
        FirstKeepsOrder(s, kind, t);
      } else if s.place[t] == Missed && kind == Reinject {
        ReinjectMissedKeepsOrder(s, t);
      } else if s.place[t] == TimedOut && kind == Reinject {
        ReinjectLateKeepsOrder(s, t);
      }
    } else {
      HandleOutside(s, kind, t);
    }
  }

  lemma HandleOutside(s: State, kind: Kind, t: nat)
    requires Placed(s) && t >= |s.pkts|
    ensures Handle(s, kind, t) == s
  {
  }

  /** Which packets a completion acts on. */
  lemma HandleAt(s: State, kind: Kind, t: nat)
    requires Placed(s) && StatesOk(s) && Permitted(s, t) && t < |s.pkts|
    ensures |s.pkts| == |s.place|
    ensures s.pkts[t].state == PendingData <==> s.place[t] == InFlight
    ensures s.pkts[t].state == PendingReinject <==> s.place[t] == Missed
    ensures s.pkts[t].state == TimedOutCompl <==> s.place[t] == TimedOut
    ensures (if kind == Reinject then s.place[t] !in {Missed, TimedOut} else s.place[t] != InFlight)
              ==> Handle(s, kind, t) == s
  {
    assert s.pkts[t].state == StateAt(s.place[t], s.tx);
  }

  lemma FirstKeepsOrder(s: State, kind: Kind, t: nat)
    requires Placed(s) && InOrder(s) && t < |s.pkts| && s.place[t] == InFlight && kind != Reinject
    requires s.pkts[t].state == PendingData
    ensures InOrder(Handle(s, kind, t))
  {
    hide Sorted, OnList, NoDup, Owned;
    var p' := Handle(s, kind, t).pkts[t];
    WhereListed(s, t);
    if kind == Miss {
      SortedAppend(s.pkts, s.missed, s.now + s.hz, t, p');
    } else {
      SortedFrame(s.pkts, s.missed, s.now + s.hz, t, p');
    }
    SortedFrame(s.pkts, s.timedOut, s.now + 60 * s.hz, t, p');
  }

  lemma ReinjectMissedKeepsOrder(s: State, t: nat)
    requires Placed(s) && InOrder(s) && t < |s.pkts| && s.place[t] == Missed && s.pkts[t].state == PendingReinject
    ensures InOrder(Handle(s, Reinject, t))
  {
    hide Sorted, OnList, RemoveTag, NoDup, Owned;
    var p' := Handle(s, Reinject, t).pkts[t];
    WhereListed(s, t);
    SortedRemove(s.pkts, s.missed, s.now + s.hz, t);
    SortedFrame(s.pkts, RemoveTag(s.missed, t), s.now + s.hz, t, p');
    SortedFrame(s.pkts, s.timedOut, s.now + 60 * s.hz, t, p');
  }

  lemma ReinjectLateKeepsOrder(s: State, t: nat)
    requires Placed(s) && InOrder(s) && t < |s.pkts| && s.place[t] == TimedOut && s.pkts[t].state == TimedOutCompl
    ensures InOrder(Handle(s, Reinject, t))
  {
    hide Sorted, OnList, RemoveTag, NoDup, Owned;
    var p' := Handle(s, Reinject, t).pkts[t];
    WhereListed(s, t);
    SortedRemove(s.pkts, s.timedOut, s.now + 60 * s.hz, t);
    SortedFrame(s.pkts, RemoveTag(s.timedOut, t), s.now + 60 * s.hz, t, p');
    SortedFrame(s.pkts, s.missed, s.now + s.hz, t, p');
  }

  lemma WhereListed(s: State, t: nat)
    requires Placed(s) && t < |s.place|
    ensures NoDup(s.missed) && NoDup(s.timedOut)
    ensures t in s.missed <==> s.place[t] == Missed
    ensures t in s.timedOut <==> s.place[t] == TimedOut
  {
  }

  lemma ScanKeepsOrder(s: State)
    requires Placed(s) && InBounds(s) && InOrder(s)
    ensures |s.missed| > 0 ==> InOrder(ExpireMiss(s))
    ensures |s.timedOut| > 0 ==> InOrder(Deallocate(s))
  {
    hide OnList, Sorted, NoDup;
    if |s.missed| > 0 {
      var t := s.missed[0];
      WhereListed(s, t);
      NotInTail(s.missed);
      var p' := ExpireMiss(s).pkts[t];
      SortedTail(s.pkts, s.missed, s.now + s.hz);
      SortedFrame(s.pkts, s.missed[1..], s.now + s.hz, t, p');
      SortedAppend(s.pkts, s.timedOut, s.now + 60 * s.hz, t, p');
    }
    if |s.timedOut| > 0 {
      var t := s.timedOut[0];
      WhereListed(s, t);
      NotInTail(s.timedOut);
      var p' := Deallocate(s).pkts[t];
      SortedTail(s.pkts, s.timedOut, s.now + 60 * s.hz);
      SortedFrame(s.pkts, s.timedOut[1..], s.now + 60 * s.hz, t, p');
      SortedFrame(s.pkts, s.missed, s.now + s.hz, t, p');
    }
  }

  lemma NotInTail(l: seq<nat>)
    requires NoDup(l) && |l| > 0
    ensures l[0] !in l[1..] && l[0] in l
  {
  }

  lemma SortedTail(pkts: seq<Pkt>, l: seq<nat>, limit: int)
    requires Sorted(pkts, l, limit) && |l| > 0
    ensures Sorted(pkts, l[1..], limit)
  {
    assert forall i :: 0 <= i < |l[1..]| ==> l[1..][i] == l[i + 1];
  }

  /** The sender never touches a timeout, and time only moves forward. */
  lemma QuietKeepsOrder(s: State, s': State)
    requires InOrder(s) && s'.missed == s.missed && s'.timedOut == s.timedOut
    requires s'.hz == s.hz && s'.now >= s.now && |s'.pkts| == |s.pkts|
    requires forall t :: 0 <= t < |s.pkts| ==> s'.pkts[t].timeout == s.pkts[t].timeout
    ensures InOrder(s')
  {
  }

  lemma StepKeepsOrder(s: State, a: Action)
    requires Placed(s) && StatesOk(s) && InOrder(s) && InBounds(s)
    ensures InOrder(Step(s, a))
  {
    hide Placed, StatesOk, InOrder, Handle;
    match a
    case Completion(kind, tag) =>
      var (k, t) := Decode(kind, tag);
      if s.compl.NoPush? && Permitted(s, t) { HandleKeepsOrder(s, k, t); }
    case ScanMissed => ScanKeepsOrder(s);
    case ScanTimedOut => ScanKeepsOrder(s);
    case _ => QuietKeepsOrder(s, Step(s, a));
  }
}
