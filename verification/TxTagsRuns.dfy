/** Safety of the tag protocol over whole runs of both threads, the device and the clock. */
module TxTagsRuns {
  import opened Arith
  import opened Lists
  import opened TxTagsSpec
  import opened TxTagsProofs
  import opened TxTagsAccounts

  ghost predicate Inv(s: State) {
    Placed(s) && StatesOk(s) && InOrder(s) && CountsOk(s) && ReleasesOk(s)
  }

  function Exec(s: State, actions: seq<Action>): State
    decreases |actions|
  {
    if actions == [] then s
    else
      var r := Exec(s, actions[..|actions| - 1]);
      if InBounds(r) then Step(r, actions[|actions| - 1]) else r
  }

  lemma StepKeepsInv(s: State, a: Action)
    requires Inv(s)
    ensures InBounds(s) && Inv(Step(s, a))
  {
    hide Placed, StatesOk, InOrder, CountsOk, ReleasesOk, Step;
    PlacedInBounds(s);
    StepKeepsPlaced(s, a);
    StepKeepsStates(s, a);
    StepKeepsOrder(s, a);
    StepKeepsCounts(s, a);
    StepKeepsReleases(s, a);
  }

  lemma HandleKeepsInv(s: State, kind: Kind, t: nat)
    requires Inv(s) && s.compl.NoPush? && Permitted(s, t)
    ensures Inv(Handle(s, kind, t))
  {
    hide Placed, StatesOk, InOrder, CountsOk, ReleasesOk, Handle;
    HandleKeepsPlaced(s, kind, t);
    HandleKeepsStates(s, kind, t);
    HandleKeepsOrder(s, kind, t);
    HandleKeepsCounts(s, kind, t);
    HandleKeepsReleases(s, kind, t);
  }

  lemma ExpireMissKeepsInv(s: State)
    requires Inv(s) && InBounds(s) && s.compl.NoPush? && s.missed != []
    ensures Inv(ExpireMiss(s))
  {
    hide Placed, StatesOk, InOrder, CountsOk, ReleasesOk;
    ScanKeepsPlaced(s);
    ScanKeepsStates(s);
    ScanKeepsOrder(s);
    ScanKeepsCounts(s);
    ReleaseKeeps(s, s.missed[0], ExpireMiss(s).pkts[s.missed[0]], ExpireMiss(s));
  }

  lemma InitInv(n: nat, hz: nat, now: int)
    ensures Inv(Init(n, hz, now))
  {
    hide Sum;
    var s := Init(n, hz, now);
    forall t | 0 <= t < n
      ensures t in s.consumer
    {
      assert s.consumer[t] == t;
    }
    SumOfZeros(Holding(s.pkts));
    SumOfZeros(Awaiting(s.place, s.pkts));
  }

  lemma {:induction false} RunKeepsInv(s: State, actions: seq<Action>)
    requires Inv(s)
    ensures Inv(Exec(s, actions))
    decreases |actions|
  {
    hide Inv, Step;
    if actions == [] {
    } else {
      RunKeepsInv(s, actions[..|actions| - 1]);
      StepKeepsInv(Exec(s, actions[..|actions| - 1]), actions[|actions| - 1]);
    }
  }

  // ----- One place -------------------------------------------------------------------------------

  function One(b: bool): nat {
    if b then 1 else 0
  }

  /** In how many places tag `t` is found when one looks at the lists and hands themselves. */
  ghost function Sightings(s: State, t: nat): nat {
    One(t in s.consumer) + One(t in s.producer) + One(t in s.missed) + One(t in s.timedOut)
    + One(t == TxTag(s.tx)) + One(t == PushTag(s.compl))
    + One(t < |s.place| && s.place[t] == InFlight)
  }

  lemma ExactlyOnePlace(s: State, t: nat)
    requires Placed(s) && StatesOk(s) && t < |s.place|
    ensures Sightings(s, t) == 1
    ensures s.pkts[t].state == StateAt(s.place[t], s.tx)
  {
  }

  /**
   Whatever the interleaving and whatever the device completes, a tag is in
   exactly one of the two free lists, the two timeout lists, flight, or a
   thread's hands; no list names it twice; its state field agrees.
   */
  lemma TagsAreNeverLostOrDuplicated(n: nat, hz: nat, now: int, actions: seq<Action>, t: nat)
    requires t < n
    ensures var s := Exec(Init(n, hz, now), actions);
      && |s.pkts| == |s.place| == n
      && Sightings(s, t) == 1
      && s.pkts[t].state == StateAt(s.place[t], s.tx)
      && NoDup(s.consumer) && NoDup(s.producer) && NoDup(s.missed) && NoDup(s.timedOut)
  {
    hide CountsOk, ReleasesOk, InOrder;
    InitInv(n, hz, now);
    RunKeepsInv(Init(n, hz, now), actions);
    RunKeepsSize(Init(n, hz, now), actions);
    ExactlyOnePlace(Exec(Init(n, hz, now), actions), t);
  }

  lemma StepKeepsSize(s: State, a: Action)
    requires InBounds(s)
    ensures |Step(s, a).place| == |s.place| && |Step(s, a).pkts| == |s.pkts|
  {
    hide Handle, PushStep;
    match a
    case Completion(kind, tag) => HandleKeepsSize(s, Decode(kind, tag).0, Decode(kind, tag).1);
    case TxPush => if s.tx.TxFreeing? { PushKeepsSize(s, s.tx.push); }
    case CPush => PushKeepsSize(s, s.compl);
    case _ =>
  }

  lemma HandleKeepsSize(s: State, kind: Kind, t: nat)
    requires |s.pkts| == |s.place|
    ensures |Handle(s, kind, t).place| == |s.place| && |Handle(s, kind, t).pkts| == |s.pkts|
  {
  }

  lemma PushKeepsSize(s: State, p: Push)
    requires p.NoPush? || p.t < |s.place|
    ensures |PushStep(s, p).0.place| == |s.place| && PushStep(s, p).0.pkts == s.pkts
  {
  }

  lemma {:induction false} RunKeepsSize(s: State, actions: seq<Action>)
    ensures |Exec(s, actions).place| == |s.place| && |Exec(s, actions).pkts| == |s.pkts|
    decreases |actions|
  {
    hide Step, InBounds;
    if actions == [] {
    } else {
      RunKeepsSize(s, actions[..|actions| - 1]);
      var r := Exec(s, actions[..|actions| - 1]);
      if InBounds(r) { StepKeepsSize(r, actions[|actions| - 1]); }
    }
  }

  /**
   What the device must not do, exactly: complete the tag the sender has
   allocated but not yet posted. Any other completion, however wrong, is safe.
   */
  lemma CompletionIsSafeExactlyWhenNotHeld(s: State, kind: Kind, t: nat)
    requires Inv(s) && s.compl.NoPush?
    ensures Placed(Handle(s, kind, t)) <==> !(s.tx == TxHolding(t) && kind != Reinject)
  {
    hide CountsOk, ReleasesOk, InOrder, ListsOk;
    if t < |s.pkts| {
      assert s.pkts[t].state == StateAt(s.place[t], s.tx);
    }
    if Permitted(s, t) {
      HandleKeepsPlaced(s, kind, t);
    } else if s.tx == TxHolding(t) && kind != Reinject {
      assert Handle(s, kind, t).place[t] != TxOwned;
    } else {
      assert Handle(s, kind, t) == s;
    }
  }

  /** One tag, popped and marked but not posted: a data completion for it puts it in two hands at once. */
  lemma CompletionOfHeldTagBreaks(hz: nat, now: int)
    ensures var s := Exec(Init(1, hz, now), [TxPop, TxMark]);
      && s.tx == TxHolding(0) && s.compl.NoPush? && |s.pkts| == |s.place|
      && !Placed(Handle(s, Data, 0))
  {
    hide Inv, Handle, Placed;
    var s0, a := Init(1, hz, now), [TxPop, TxMark];
    InitInv(1, hz, now);
    RunKeepsInv(s0, a);
    RunKeepsSize(s0, a);
    HoldsAfterMark(hz, now);
    CompletionIsSafeExactlyWhenNotHeld(Exec(s0, a), Data, 0);
  }

  lemma HoldsAfterMark(hz: nat, now: int)
    ensures var s := Exec(Init(1, hz, now), [TxPop, TxMark]); s.tx == TxHolding(0) && s.compl.NoPush?
  {
    var s0, a := Init(1, hz, now), [TxPop, TxMark];
    assert a[..1] == [TxPop] && a[..1][..0] == [];
    assert Exec(s0, a[..1][..0]) == s0;
    assert Exec(s0, a[..1]) == Step(s0, TxPop);
  }

  // ----- Allocation ---------------------------------------------------------------------------------

  predicate OtherThanSender(a: Action) {
    a.Completion? || a.CPush? || a.ScanMissed? || a.ScanTimedOut? || a.PollEnd? || a.Tick?
  }

  lemma StepKeepsFreeTags(s: State, a: Action)
    requires InBounds(s) && OtherThanSender(a)
    ensures Step(s, a).consumer == s.consumer && Step(s, a).tx == s.tx
    ensures |Step(s, a).producer| >= |s.producer|
  {
    hide Handle, PushStep, ExpireMiss, Deallocate;
    match a
    case Completion(kind, tag) => HandleKeepsFree(s, Decode(kind, tag).0, Decode(kind, tag).1);
    case CPush => PushKeepsFree(s, s.compl);
    case ScanMissed =>
      if s.missed != [] { ExpireKeepsFree(s); }
    case ScanTimedOut =>
      if s.timedOut != [] { DeallocateKeepsFree(s); }
    case _ =>
  }

  lemma HandleKeepsFree(s: State, kind: Kind, t: nat)
    requires |s.pkts| == |s.place|
    ensures var s' := Handle(s, kind, t); s'.consumer == s.consumer && s'.producer == s.producer && s'.tx == s.tx
  {
  }

  lemma ExpireKeepsFree(s: State)
    requires InBounds(s) && s.missed != []
    ensures var s' := ExpireMiss(s); s'.consumer == s.consumer && s'.producer == s.producer && s'.tx == s.tx
  {
  }

  lemma DeallocateKeepsFree(s: State)
    requires InBounds(s) && s.timedOut != []
    ensures var s' := Deallocate(s); s'.consumer == s.consumer && s'.producer == s.producer && s'.tx == s.tx
  {
  }

  lemma PushKeepsFree(s: State, p: Push)
    requires p.NoPush? || p.t < |s.place|
    ensures var s' := PushStep(s, p).0; s'.consumer == s.consumer && |s'.producer| >= |s.producer| && s'.tx == s.tx
  {
  }

  /**
   A sender that has seen a free tag, on its own list or on the other, still
   finds one when it comes to allocate: taking the head, or stealing first.
   */
  lemma {:induction false} FreeTagStaysFree(s: State, actions: seq<Action>)
    requires Inv(s) && s.tx == TxIdle && (s.consumer != [] || s.producer != [])
    requires forall i :: 0 <= i < |actions| ==> OtherThanSender(actions[i])
    ensures var r := Exec(s, actions);
      && InBounds(r)
      && var r' := if r.consumer == [] then Step(r, TxSteal) else r;
         InBounds(r') && Step(r', TxPop).tx.TxPopped?
  {
    hide Inv, Step, Exec, InBounds;
    RunKeepsFreeTags(s, actions);
    var r := Exec(s, actions);
    RunKeepsInv(s, actions);
    StepKeepsInv(r, TxSteal);
    var r' := if r.consumer == [] then Step(r, TxSteal) else r;
    StepKeepsInv(r', TxPop);
    StepKeepsInv(Step(r, TxSteal), TxPop);
    AllocTakesOne(r);
  }

  lemma AllocTakesOne(r: State)
    requires InBounds(r) && r.tx == TxIdle && (r.consumer != [] || r.producer != [])
    requires InBounds(Step(r, TxSteal))
    ensures Step(if r.consumer == [] then Step(r, TxSteal) else r, TxPop).tx.TxPopped?
  {
  }

  lemma {:induction false} RunKeepsFreeTags(s: State, actions: seq<Action>)
    requires Inv(s) && (forall i :: 0 <= i < |actions| ==> OtherThanSender(actions[i]))
    ensures var r := Exec(s, actions);
      r.consumer == s.consumer && r.tx == s.tx && |r.producer| >= |s.producer|
    decreases |actions|
  {
    hide Inv, Step, InBounds;
    if actions == [] {
    } else {
      var front := actions[..|actions| - 1];
      RunKeepsFreeTags(s, front);
      RunKeepsInv(s, front);
      StepKeepsInv(Exec(s, front), TxSteal);
      StepKeepsFreeTags(Exec(s, front), actions[|actions| - 1]);
    }
  }

  // ----- Accounts -----------------------------------------------------------------------------------

  /**
   Between polls, every accepted packet is completed, dropped, or held by a tag;
   the bytes the queue still counts are those of packets awaiting their first
   completion; and each SKB is either held, by one tag, or was released once.
   */
  lemma PacketsAreConserved(n: nat, hz: nat, now: int, actions: seq<Action>)
    ensures var s := Exec(Init(n, hz, now), actions);
      && |s.pkts| == |s.place|
      && (s.poll == Poll(0, 0, 0) ==>
            && |s.released| == s.pktDone + s.dropped + Sum(Holding(s.pkts))
            && s.sentBytes - s.completedBytes == Sum(Awaiting(s.place, s.pkts)))
      && (forall id :: 0 <= id < |s.released| ==> s.released[id] <= 1)
      && (forall id :: 0 <= id < |s.released| ==>
            (s.released[id] == 0 <==> exists t :: 0 <= t < |s.pkts| && s.pkts[t].skb.Skb? && s.pkts[t].skb.id == id))
      && (forall t, u :: 0 <= t < u < |s.pkts| && s.pkts[t].skb.Skb? && s.pkts[u].skb.Skb? ==>
            s.pkts[t].skb.id != s.pkts[u].skb.id)
  {
    hide Placed, StatesOk, InOrder;
    InitInv(n, hz, now);
    RunKeepsInv(Init(n, hz, now), actions);
  }

  // ----- Timeouts ------------------------------------------------------------------------------------

  /** The scans may stop at the first entry that is not due: nothing behind it is. */
  lemma EarlyBreakMissesNothing(n: nat, hz: nat, now: int, actions: seq<Action>)
    ensures var s := Exec(Init(n, hz, now), actions);
      && InBounds(s)
      && (|s.missed| > 0 && s.now < s.pkts[s.missed[0]].timeout ==>
            forall i :: 0 <= i < |s.missed| ==> s.now < s.pkts[s.missed[i]].timeout)
      && (|s.timedOut| > 0 && s.now < s.pkts[s.timedOut[0]].timeout ==>
            forall i :: 0 <= i < |s.timedOut| ==> s.now < s.pkts[s.timedOut[i]].timeout)
  {
    hide StatesOk, CountsOk, ReleasesOk;
    InitInv(n, hz, now);
    RunKeepsInv(Init(n, hz, now), actions);
    PlacedInBounds(Exec(Init(n, hz, now), actions));
  }

  /** `s'` is `s` after its due missed entries, and no others, moved to the timed-out list. */
  ghost predicate Scanned(s: State, s': State)
    requires InBounds(s) && InBounds(s')
  {
    && |s'.missed| <= |s.missed|
    && var k := |s.missed| - |s'.missed|;
       && s'.missed == s.missed[k..] && s'.timedOut == s.timedOut + s.missed[..k] && s'.dropped == s.dropped + k
       && s'.now == s.now
       && (forall i :: 0 <= i < k ==> s.pkts[s.missed[i]].timeout <= s.now)
       && (forall i :: k <= i < |s.missed| ==> s.now < s.pkts[s.missed[i]].timeout)
  }

  /**
   The scan of the miss list moves exactly the entries that are due, in order,
   to the timed-out list, and leaves none that is due.
   */
  lemma {:induction false} ScanIsExact(s: State)
    requires Inv(s) && InBounds(s) && s.compl.NoPush?
    ensures InBounds(ExpireAll(s)) && Inv(ExpireAll(s)) && Scanned(s, ExpireAll(s))
    decreases |s.missed|
  {
    hide Inv, ExpireMiss, SameDue, Scanned;
    if s.missed != [] && Expired(s, s.missed[0]) {
      var m := ExpireMiss(s);
      ExpireFacts(s);
      ScanIsExact(m);
      ScanOneMore(s, m, ExpireAll(m));
    } else {
      NothingDue(s);
    }
  }

  /** What is on the miss list of `m` is due at the same time in both states. */
  ghost predicate SameDue(s: State, m: State)
    requires InBounds(s) && InBounds(m)
  {
    && |m.pkts| == |s.pkts| && m.now == s.now
    && forall i :: 0 <= i < |m.missed| ==> m.pkts[m.missed[i]].timeout == s.pkts[m.missed[i]].timeout
  }

  lemma ScanOneMore(s: State, m: State, s': State)
    requires InBounds(s) && InBounds(m) && InBounds(s') && s.missed != [] && Expired(s, s.missed[0])
    requires m.missed == s.missed[1..] && m.timedOut == s.timedOut + [s.missed[0]] && m.dropped == s.dropped + 1
    requires SameDue(s, m) && Scanned(m, s')
    ensures Scanned(s, s')
  {
    var k := |s.missed| - |s'.missed|;
    forall i | 0 <= i < |s.missed|
      ensures if i < k then s.pkts[s.missed[i]].timeout <= s.now else s.now < s.pkts[s.missed[i]].timeout
    {
      if i > 0 {
        assert s.missed[i] == m.missed[i - 1];
        assert m.pkts[m.missed[i - 1]].timeout == s.pkts[m.missed[i - 1]].timeout;
      }
    }
    assert s.missed[k..] == m.missed[k - 1..];
    assert s.timedOut + [s.missed[0]] + m.missed[..k - 1] == s.timedOut + s.missed[..k];
  }

  lemma ExpireFacts(s: State)
    requires Inv(s) && InBounds(s) && s.compl.NoPush? && s.missed != [] && Expired(s, s.missed[0])
    ensures var m := ExpireMiss(s);
      && Inv(m) && InBounds(m) && m.compl.NoPush? && SameDue(s, m)
      && m.missed == s.missed[1..] && m.timedOut == s.timedOut + [s.missed[0]] && m.dropped == s.dropped + 1
  {
    hide Placed, StatesOk, CountsOk, ReleasesOk, InOrder;
    ExpireMissKeepsInv(s);
    PlacedInBounds(ExpireMiss(s));
    MissedDistinct(s);
    var m := ExpireMiss(s);
    forall i | 0 <= i < |m.missed|
      ensures m.pkts[m.missed[i]].timeout == s.pkts[m.missed[i]].timeout
    {
      assert m.missed[i] == s.missed[i + 1] && s.missed[i + 1] != s.missed[0];
    }
  }

  lemma NothingDue(s: State)
    requires Inv(s) && InBounds(s) && (s.missed == [] || !Expired(s, s.missed[0]))
    ensures Scanned(s, s)
  {
    hide Placed, StatesOk, CountsOk, ReleasesOk;
  }

  lemma MissedDistinct(s: State)
    requires Placed(s)
    ensures forall i, j :: 0 <= i < j < |s.missed| ==> s.missed[i] != s.missed[j]
  {
  }

  /** Nothing in the run lets go of tag `t` waiting at `p`: no reinjection, no scan of its list when it is due. */
  ghost predicate StillWaiting(s: State, actions: seq<Action>, t: nat, p: Place, due: int) {
    forall i :: 0 <= i < |actions| ==>
      && (actions[i].Completion? ==> Decode(actions[i].kind, actions[i].tag) != (Reinject, t))
      && (ScansPlace(actions[i], p) ==> Exec(s, actions[..i]).now < due)
  }

  predicate ScansPlace(a: Action, p: Place) {
    (a.ScanMissed? && p == Missed) || (a.ScanTimedOut? && p == TimedOut)
  }

  /** Tag `t` waits on the miss list or the timed-out list, due at `due`. */
  predicate WaitsUntil(s: State, t: nat, p: Place, due: int) {
    && (p == Missed || p == TimedOut)
    && t < |s.pkts| == |s.place| && s.place[t] == p && s.pkts[t].timeout == due
  }

  lemma HandleKeepsWaiting(s: State, kind: Kind, u: nat, t: nat, p: Place, due: int)
    requires StatesOk(s) && WaitsUntil(s, t, p, due) && (kind, u) != (Reinject, t)
    ensures WaitsUntil(Handle(s, kind, u), t, p, due)
  {
    assert s.pkts[t].state == StateAt(s.place[t], s.tx);
  }

  lemma SenderKeepsWaiting(s: State, a: Action, t: nat, p: Place, due: int)
    requires Placed(s) && InBounds(s) && WaitsUntil(s, t, p, due)
    requires a.TxSteal? || a.TxPop? || a.TxMark? || a.TxPost? || a.TxFail? || a.TxDrop?
    ensures WaitsUntil(Step(s, a), t, p, due)
  {
    hide ListsOk;
    if a.TxPop? && s.consumer != [] {
      PopConsumer(s.place, s.consumer, s.producer, s.missed, s.timedOut);
    }
  }

  lemma ScanKeepsWaiting(s: State, a: Action, t: nat, p: Place, due: int)
    requires Placed(s) && InBounds(s) && WaitsUntil(s, t, p, due) && (a.ScanMissed? || a.ScanTimedOut?)
    requires ScansPlace(a, p) ==> s.now < due
    ensures WaitsUntil(Step(s, a), t, p, due)
  {
    hide ListsOk, OnList;
    if s.missed != [] { MissedToTimedOut(s.place, s.consumer, s.producer, s.missed, s.timedOut); }
    if s.timedOut != [] { FrontTimedOut(s); }
  }

  lemma FrontTimedOut(s: State)
    requires Placed(s) && InBounds(s) && s.timedOut != []
    ensures s.place[s.timedOut[0]] == TimedOut
  {
  }

  lemma PushKeepsWaiting(s: State, a: Action, t: nat, p: Place, due: int)
    requires Placed(s) && InBounds(s) && WaitsUntil(s, t, p, due)
    requires a.TxPush? || a.CPush? || a.PollEnd? || a.Tick?
    ensures WaitsUntil(Step(s, a), t, p, due)
  {
    hide ListsOk, OnList;
  }

  lemma StepKeepsWaiting(s: State, a: Action, t: nat, p: Place, due: int)
    requires Inv(s) && InBounds(s) && WaitsUntil(s, t, p, due)
    requires a.Completion? ==> Decode(a.kind, a.tag) != (Reinject, t)
    requires ScansPlace(a, p) ==> s.now < due
    ensures WaitsUntil(Step(s, a), t, p, due)
  {
    hide Placed, StatesOk, InOrder, CountsOk, ReleasesOk, WaitsUntil, Handle, PushStep;
    match a
    case Completion(kind, tag) =>
      var (k, u) := Decode(kind, tag);
      HandleKeepsWaiting(s, k, u, t, p, due);
    case TxPush => PushKeepsWaiting(s, a, t, p, due);
    case CPush => PushKeepsWaiting(s, a, t, p, due);
    case ScanMissed => ScanKeepsWaiting(s, a, t, p, due);
    case ScanTimedOut => ScanKeepsWaiting(s, a, t, p, due);
    case PollEnd => PushKeepsWaiting(s, a, t, p, due);
    case Tick(_) => PushKeepsWaiting(s, a, t, p, due);
    case _ => SenderKeepsWaiting(s, a, t, p, due);
  }

  lemma {:induction false} RunKeepsWaiting(s: State, actions: seq<Action>, t: nat, p: Place, due: int)
    requires Inv(s) && WaitsUntil(s, t, p, due) && StillWaiting(s, actions, t, p, due)
    ensures WaitsUntil(Exec(s, actions), t, p, due)
    decreases |actions|
  {
    hide Placed, StatesOk, InOrder, CountsOk, ReleasesOk, Step, InBounds, WaitsUntil, Exec;
    if actions == [] {
      ExecNil(s);
    } else {
      var k := |actions| - 1;
      var r := Exec(s, actions[..k]);
      forall i | 0 <= i < k
        ensures actions[..k][i] == actions[i] && actions[..k][..i] == actions[..i]
      {
      }
      RunKeepsWaiting(s, actions[..k], t, p, due);
      RunKeepsInv(s, actions[..k]);
      PlacedInBounds(r);
      ExecLast(s, actions);
      StepKeepsWaiting(r, actions[k], t, p, due);
    }
  }

  /**
   A timed-out tag stays out of circulation until its late reinjection arrives
   or sixty seconds have passed since its packet was given up.
   */
  lemma TimedOutTagIsNotReused(s: State, actions: seq<Action>)
    requires Inv(s) && InBounds(s) && s.compl.NoPush? && s.missed != [] && s.pkts[s.missed[0]].timeout <= s.now
    requires StillWaiting(ExpireMiss(s), actions, s.missed[0], TimedOut, s.now + 60 * s.hz)
    ensures WaitsUntil(Exec(ExpireMiss(s), actions), s.missed[0], TimedOut, s.now + 60 * s.hz)
  {
    hide Placed, StatesOk, InOrder, CountsOk, ReleasesOk, Exec, StillWaiting;
    ExpireMissKeepsInv(s);
    RunKeepsWaiting(ExpireMiss(s), actions, s.missed[0], TimedOut, s.now + 60 * s.hz);
  }

  /** A missed packet is not given up before its reinjection has been outstanding for a second. */
  lemma MissedPacketIsKept(s: State, t: nat, actions: seq<Action>)
    requires Inv(s) && InBounds(s) && s.compl.NoPush? && t < |s.place| && s.place[t] == InFlight
    requires StillWaiting(Handle(s, Miss, t), actions, t, Missed, s.now + s.hz)
    ensures WaitsUntil(Exec(Handle(s, Miss, t), actions), t, Missed, s.now + s.hz)
  {
    hide Placed, InOrder, CountsOk, ReleasesOk, Exec, StillWaiting;
    assert s.pkts[t].state == StateAt(s.place[t], s.tx);
    HandleKeepsInv(s, Miss, t);
    RunKeepsWaiting(Handle(s, Miss, t), actions, t, Missed, s.now + s.hz);
  }

  lemma ExecNil(s: State)
    ensures Exec(s, []) == s
  {
  }

  lemma ExecLast(s: State, actions: seq<Action>)
    requires actions != [] && InBounds(Exec(s, actions[..|actions| - 1]))
    ensures Exec(s, actions) == Step(Exec(s, actions[..|actions| - 1]), actions[|actions| - 1])
  {
  }
}
