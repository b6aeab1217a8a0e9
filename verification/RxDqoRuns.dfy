/**
 DQO receive as a whole: the posting loop, the device that answers with
 completions, and the poll that takes them, tied together by two indices and one
 count. The ring of completions is the polled ring with a generation bit; that
 the driver never has more buffers out than that ring has slots is proved here,
 not assumed.
 */
module RxDqoRuns {
  import opened Arith
  import opened Rings
  import opened RxDqoSpec
  import opened RxDqoProofs
  import opened RxDqoLedger
  import PageRefs
  import Polling

  /**
   `left`: rounds the posting loop may still go, 0 outside the loop. `ctx`: the
   SKB in hand. `finished`: packets delivered. `held`: what SKBs hold of the
   pages. `log`: every entry ever posted. `descs`: every completion ever written.
   `errs`: how those taken were handled.
   */
  datatype State = State(rx: Rx, q: Queue, compl: Polling.State, left: nat, ctx: Ctx, finished: nat, held: Held,
                         log: seq<(nat, nat)>, descs: seq<CompDesc>, errs: seq<int>)

  datatype Action =
    | PostBegin                        // the posting loop finds out how far it may go
    | PostOne(pageOk: bool)            // one round of it, with what the allocator answers
    | DevComplete(d: CompDesc)         // the device completes one more of the buffers it was given
    | Take(env: Env)                   // the poll looks at its head, and takes the completion if it is new
    | DropRef(b: nat, c: nat) | TakeRef(b: nat, c: nat)

  predicate InRange(s: State) {
    && RxDqoSpec.InBounds(s.rx) && Polling.Sane(s.compl)
    && s.q.head < |s.q.ring| && s.q.tail < |s.q.ring|
  }

  function Entries(rx: Rx, posted: seq<nat>): seq<(nat, nat)> {
    seq(|posted|, i requires 0 <= i < |posted| =>
      (posted[i], if posted[i] < |rx.bufs| then rx.bufs[posted[i]].off else 0))
  }

  /** The posting loop goes round once. */
  function RoundStep(s: State, pageOk: bool): State
    requires InRange(s) && s.left > 0
  {
    var (rx, q, b) := PostRound(s.rx, s.q, pageOk);
    if b == -1 then s.(rx := rx, left := 0)
    else
      s.(rx := rx, q := q, compl := s.compl.(posted := s.compl.posted + 1),
         held := Renewed(s.held, s.rx, b),
         log := s.log + [(b, rx.bufs[b].off)], left := s.left - 1)
  }

  /** Nobody holds anything of a page just allocated. */
  function Renewed(held: Held, rx: Rx, b: nat): Held {
    if b < |held| && NewPageFor(rx, b) then held[b := multiset{}] else held
  }

  /** Several rounds without anyone in between. */
  function PostStep(s: State, pageOk: seq<bool>): State
    requires InRange(s)
  {
    var (rx, q, posted) := PostAll(s.rx, s.q, pageOk);
    s.(rx := rx, q := q, compl := s.compl.(posted := s.compl.posted + |posted|), log := s.log + Entries(rx, posted))
  }

  function TakeStep(s: State, env: Env): State
    requires InRange(s)
  {
    var j := s.compl.slots[s.compl.head].data;
    if j < |s.descs| then
      var d := s.descs[j];
      var err := Err(Verdict(s.rx, d, s.ctx, env));
      s.(rx := Complete(s.rx, d, s.ctx, env), q := Reclaimed(s.q), compl := Polling.Consume(s.compl),
         ctx := NextCtx(d, s.ctx, env, err), errs := s.errs + [err],
         held := if HandsOver(s.rx, d, s.ctx, env) then Plus(s.held, d.bufId, s.rx.bufs[d.bufId].off) else s.held,
         finished := if err == 0 && d.endOfPacket then s.finished + 1 else s.finished)
    else s
  }

  function Step(s: State, a: Action): State
    requires InRange(s)
  {
    match a
    case PostBegin => if s.left == 0 && Room(s.q) >= 0 then s.(left := Room(s.q)) else s
    case PostOne(pageOk) => if s.left > 0 then RoundStep(s, pageOk) else s
    case DevComplete(d) =>
      if |s.compl.stream| < s.compl.posted then
        s.(compl := Polling.Step(s.compl, Polling.DevWrite(|s.descs|, false)), descs := s.descs + [d])
      else s
    case Take(env) => if s.left == 0 && Polling.Ready(s.compl) then TakeStep(s, env) else s
    case DropRef(b, c) => s.(rx := RxDqoSpec.Step(s.rx, RxDqoSpec.DropRef(b, c)), held := Less(s.held, b, c))
    case TakeRef(b, c) =>
      s.(rx := RxDqoSpec.Step(s.rx, RxDqoSpec.TakeRef(b, c)),
         held := if MayTake(s.held, s.rx, b, c) then Plus(s.held, b, c) else s.held)
  }

  // ----- The invariant ----------------------------------------------------------------------------

  /** The indices and the count of free slots follow from what was posted and what was taken. */
  ghost predicate Counters(q: Queue, compl: Polling.State) {
    && |q.ring| > 0
    && q.head == Index(compl.cnt, |q.ring|) && q.tail == Index(compl.posted, |q.ring|)
    && compl.cnt <= compl.posted <= compl.cnt + |q.ring| - 1
    && q.freeSlots == compl.n - (compl.posted - compl.cnt)
  }

  /** Entries the device may still read are as they were posted. */
  ghost predicate Kept(ring: seq<(nat, nat)>, log: seq<(nat, nat)>, from: nat) {
    |ring| > 0 && forall j :: from <= j < |log| ==> ring[Index(j, |ring|)] == log[j]
  }

  /** The completions in the ring are numbered in the order they were written. */
  ghost predicate Numbered(compl: Polling.State, descs: seq<CompDesc>) {
    |descs| == |compl.stream| && forall j :: 0 <= j < |compl.stream| ==> compl.stream[j].data == j
  }

  /** Packets whose last completion was handled without error. */
  function Finished(descs: seq<CompDesc>, errs: seq<int>): nat
    requires |errs| <= |descs|
    decreases |errs|
  {
    if errs == [] then 0
    else
      var k := |errs| - 1;
      Finished(descs, errs[..k]) + if errs[k] == 0 && descs[k].endOfPacket then 1 else 0
  }

  /** How many buffers of the packet in hand have come; a header on its own starts it. */
  function InHand(descs: seq<CompDesc>, errs: seq<int>): nat
    requires |errs| <= |descs|
    decreases |errs|
  {
    if errs == [] then 0
    else
      var k := |errs| - 1;
      if errs[k] != 0 || descs[k].endOfPacket then 0
      else if descs[k].splitHeader then 1
      else InHand(descs, errs[..k]) + 1
  }

  /**
   An SKB is in hand exactly when the last completion taken was handled without
   error and did not end its packet. It has a fragment for every buffer so far, and
   a new one is chained to it after every 17.
   */
  ghost predicate Packets(descs: seq<CompDesc>, errs: seq<int>, ctx: Ctx, finished: nat) {
    && |errs| <= |descs| && finished == Finished(descs, errs)
    && (ctx.Building? <==> |errs| > 0 && errs[|errs| - 1] == 0 && !descs[|errs| - 1].endOfPacket)
    && (ctx.Building? ==>
          InHand(descs, errs) > 0 && ctx.nrFrags == (InHand(descs, errs) - 1) % 17 + 1 && ctx.nrFrags <= MAX_SKB_FRAGS)
    && (ctx.NoSkb? ==> InHand(descs, errs) == 0)
  }

  /** Everything but the progress of the posting loop. */
  ghost predicate Tied(s: State) {
    && RxInv(s.rx) && Polling.Inv(s.compl) && Counters(s.q, s.compl)
    && |s.log| == s.compl.posted && Kept(s.q.ring, s.log, s.compl.cnt)
    && Numbered(s.compl, s.descs)
    && |s.errs| == s.compl.cnt && Packets(s.descs, s.errs, s.ctx, s.finished)
  }

  ghost predicate Inv(s: State) {
    Tied(s) && s.left <= Room(s.q) && Agrees(s.held, s.rx)
  }

  lemma InvInRange(s: State)
    requires Tied(s)
    ensures InRange(s)
  {
    hide Index;
    InvShape(s.rx);
  }

  // ----- Ring positions ------------------------------------------------------------------------------

  lemma IndexSelf(x: nat, n: nat)
    requires n > 0
    ensures Index(Index(x, n), n) == Index(x, n)
  {
    ModIdem(x % n, n);
  }

  lemma SlotIsIndex(x: nat, k: nat, n: nat)
    requires n > 0
    ensures Slot(Index(x, n), k, n) == Index(x + k, n)
  {
    IndexPlus(x, k, n);
  }

  lemma IndexLap(x: nat, n: nat)
    requires n > 0
    ensures Index(x + n, n) == Index(x, n)
  {
    ModShift(x, 1, n);
  }

  /** The driver's difference of indices is the number of buffers out. */
  lemma DistanceIsOutstanding(q: Queue, compl: Polling.State)
    requires Counters(q, compl)
    ensures RingDistance(q.tail, q.head, |q.ring|) == compl.posted - compl.cnt
  {
    Distance(compl.posted, compl.cnt, |q.ring|);
    ModIdem(compl.posted % |q.ring|, |q.ring|);
    ModIdem(compl.cnt % |q.ring|, |q.ring|);
  }

  /** There is always room for nothing or more, and never for more than either ring can take. */
  lemma RoomIsExact(q: Queue, compl: Polling.State)
    requires Counters(q, compl) && compl.posted <= compl.cnt + compl.n
    ensures var out := compl.posted - compl.cnt;
      0 <= Room(q) && Room(q) == if compl.n - out < |q.ring| - 1 - out then compl.n - out else |q.ring| - 1 - out
  {
    hide Index, RingDistance;
    DistanceIsOutstanding(q, compl);
  }

  // ----- Posting -----------------------------------------------------------------------------------------

  lemma PostKeepsCounters(q: Queue, q': Queue, compl: Polling.State, k: nat)
    requires Counters(q, compl) && compl.posted <= compl.cnt + compl.n && k <= Room(q)
    requires |q'.ring| == |q.ring|
    requires q' == q.(ring := q'.ring, tail := Slot(q.tail, k, |q.ring|), freeSlots := q.freeSlots - k)
    ensures Counters(q', compl.(posted := compl.posted + k)) && compl.posted + k <= compl.cnt + compl.n
  {
    hide Index, Room, Slot;
    RoomIsExact(q, compl);
    SlotIsIndex(compl.posted, k, |q.ring|);
  }

  lemma PostKeepsKept(s: State, s': Rx, q': Queue, posted: seq<nat>)
    requires Counters(s.q, s.compl) && s.compl.posted <= s.compl.cnt + s.compl.n && |posted| <= Room(s.q)
    requires |s.log| == s.compl.posted && Kept(s.q.ring, s.log, s.compl.cnt)
    requires PostedFrom(s.rx, s.q, s', q', posted)
    ensures Kept(q'.ring, s.log + Entries(s', posted), s.compl.cnt)
  {
    hide Index, Room, Slot;
    RoomIsExact(s.q, s.compl);
    var n, p, log' := |s.q.ring|, s.compl.posted, s.log + Entries(s', posted);
    forall j | s.compl.cnt <= j < |log'|
      ensures q'.ring[Index(j, n)] == log'[j]
    {
      if j < p {
        var i := j + n - p;
        SlotIsIndex(p, i, n);
        IndexLap(j, n);
        assert q'.ring[Slot(s.q.tail, i, n)] == s.q.ring[Slot(s.q.tail, i, n)];
        assert s.q.ring[Index(j, n)] == s.log[j];
      } else {
        SlotIsIndex(p, j - p, n);
        assert q'.ring[Slot(s.q.tail, j - p, n)] == (posted[j - p], s'.bufs[posted[j - p]].off);
      }
    }
  }

  lemma PostKeepsTied(s: State, pageOk: seq<bool>)
    requires Tied(s) && InRange(s) && |pageOk| <= Room(s.q)
    ensures var (rx, q, posted) := PostAll(s.rx, s.q, pageOk);
      Tied(PostStep(s, pageOk)) && |q.ring| == |s.q.ring| && Room(q) == Room(s.q) - |posted|
  {
    hide RxInv, Polling.Inv, Room, PostAll, Kept, Counters, PostedFrom, Entries, Packets;
    var (rx, q, posted) := PostAll(s.rx, s.q, pageOk);
    PollingBounds(s.compl);
    RoomFits(s.q, s.compl);
    PostAllFills(s.rx, s.q, pageOk);
    PostedKeepsTied(s, rx, q, posted);
  }

  lemma PostedKeepsTied(s: State, rx: Rx, q: Queue, posted: seq<nat>)
    requires Tied(s) && RxInv(rx) && PostedFrom(s.rx, s.q, rx, q, posted) && |posted| <= Room(s.q)
    ensures Tied(s.(rx := rx, q := q, compl := s.compl.(posted := s.compl.posted + |posted|),
                    log := s.log + Entries(rx, posted)))
    ensures |q.ring| == |s.q.ring| > 0 && Room(q) == Room(s.q) - |posted|
  {
    hide RxInv, Polling.Inv, Room, Kept, Counters, PostedFrom, Entries, Packets, Slot;
    PollingBounds(s.compl);
    PostedShape(s.rx, s.q, rx, q, posted);
    PostKeepsCounters(s.q, q, s.compl, |posted|);
    PostKeepsKept(s, rx, q, posted);
    Polling.PostManyKeepsInv(s.compl, |posted|);
    EntriesLength(rx, posted);
    RoomShrinks(s.q, q, s.compl, |posted|);
  }

  lemma RoomShrinks(q: Queue, q': Queue, compl: Polling.State, k: nat)
    requires Counters(q, compl) && Counters(q', compl.(posted := compl.posted + k)) && |q'.ring| == |q.ring|
    requires compl.posted + k <= compl.cnt + compl.n
    ensures Room(q') == Room(q) - k
  {
    hide Index, Room;
    RoomIsExact(q, compl);
    RoomIsExact(q', compl.(posted := compl.posted + k));
  }

  /** A round is the loop with one round to go. */
  lemma RoundIsPost(s: State, pageOk: bool)
    requires InRange(s) && s.left > 0
    ensures var (rx, q, b) := PostRound(s.rx, s.q, pageOk);
      && PostAll(s.rx, s.q, [pageOk]) == (rx, q, if b == -1 then [] else [b])
      && RoundStep(s, pageOk) == PostStep(s, [pageOk]).(left := if b == -1 then 0 else s.left - 1,
           held := if b == -1 then s.held else Renewed(s.held, s.rx, b))
  {
    hide Obtain, Describe;
    var (rx, q, b) := PostRound(s.rx, s.q, pageOk);
    assert [pageOk][1..] == [];
    assert PostAll(rx, q, []) == (rx, q, []);
    if b == -1 {
      assert Entries(rx, []) == [];
    } else {
      var one: nat := b;
      assert [one] + [] == [one];
      assert Entries(rx, [one]) == [(b, rx.bufs[b].off)];
    }
  }

  lemma RoundKeepsInv(s: State, pageOk: bool)
    requires Inv(s) && InRange(s) && s.left > 0
    ensures Inv(RoundStep(s, pageOk)) && RoundStep(s, pageOk).compl.n == s.compl.n
    ensures |RoundStep(s, pageOk).q.ring| == |s.q.ring|
  {
    hide RxInv, Polling.Inv, Room, PostAll, PostRound, Kept, Counters, Numbered, Entries;
    RoundIsPost(s, pageOk);
    PostKeepsTied(s, [pageOk]);
    TiedRoom(PostStep(s, [pageOk]));
    RoundAgrees(s, pageOk);
  }

  lemma RoundAgrees(s: State, pageOk: bool)
    requires Inv(s) && InRange(s) && s.left > 0
    ensures Agrees(RoundStep(s, pageOk).held, RoundStep(s, pageOk).rx)
  {
    hide RxInv, Polling.Inv, Kept, Counters, Numbered, Packets, Obtain, NewPageFor, Room;
    ObtainMeans(s.rx, pageOk);
    var (rx, b) := Obtain(s.rx, pageOk);
    if b != -1 {
      DescribedPages(rx, b);
    }
  }

  lemma DescribedPages(rx: Rx, b: nat)
    requires b < |rx.bufs|
    ensures var rx' := Describe(rx, b);
      |rx'.bufs| == |rx.bufs| && forall x :: 0 <= x < |rx.bufs| ==> rx'.bufs[x].page == rx.bufs[x].page
  {
  }

  lemma TiedRoom(s: State)
    requires Tied(s)
    ensures |s.q.ring| > 0 && 0 <= Room(s.q) < |s.q.ring|
  {
    hide RxInv, Polling.Inv, Room, Kept, Numbered, Index;
    PollingBounds(s.compl);
    RoomFits(s.q, s.compl);
  }

  lemma PollingBounds(p: Polling.State)
    requires Polling.Inv(p)
    ensures Polling.Sane(p) && p.cnt <= |p.stream| <= p.posted <= p.cnt + p.n
  {
  }

  lemma RoomFits(q: Queue, compl: Polling.State)
    requires Counters(q, compl) && compl.posted <= compl.cnt + compl.n
    ensures 0 <= Room(q) < |q.ring|
  {
    hide Index, Room;
    RoomIsExact(q, compl);
  }

  lemma PostedShape(s: Rx, q: Queue, s': Rx, q': Queue, posted: seq<nat>)
    requires PostedFrom(s, q, s', q', posted)
    ensures |q'.ring| == |q.ring| > 0
    ensures q' == q.(ring := q'.ring, tail := Slot(q.tail, |posted|, |q.ring|), freeSlots := q.freeSlots - |posted|)
  {
    hide Slot;
  }

  lemma EntriesLength(rx: Rx, posted: seq<nat>)
    ensures |Entries(rx, posted)| == |posted|
  {
  }

  // ----- The device and the poll ---------------------------------------------------------------------------

  lemma DevKeepsInv(s: State, d: CompDesc)
    requires Inv(s) && InRange(s)
    ensures Inv(Step(s, DevComplete(d)))
  {
    hide RxInv, Polling.Inv, Counters, Kept, Index, Room, Finished, InHand;
    PollingBounds(s.compl);
    FinishedSame(s.descs, [d], s.errs);
    InHandSame(s.descs, [d], s.errs);
    Polling.WriteKeepsInv(s.compl, |s.descs|, false);
    WriteShape(s.compl, |s.descs|);
    var s' := Step(s, DevComplete(d));
    CountersSame(s.q, s.compl, s'.compl);
  }

  lemma WriteShape(p: Polling.State, data: nat)
    requires Polling.Sane(p)
    ensures var p' := Polling.Step(p, Polling.DevWrite(data, false));
      && p'.cnt == p.cnt && p'.posted == p.posted && p'.n == p.n
      && (|p.stream| < p.posted ==>
            |p'.stream| == |p.stream| + 1 && p'.stream[..|p.stream|] == p.stream && p'.stream[|p.stream|].data == data)
  {
    hide Polling.Mark, Index;
  }

  lemma CountersSame(q: Queue, p: Polling.State, p': Polling.State)
    requires Counters(q, p) && p'.cnt == p.cnt && p'.posted == p.posted && p'.n == p.n
    ensures Counters(q, p')
  {
    hide Index;
  }

  lemma {:induction false} FinishedSame(descs: seq<CompDesc>, more: seq<CompDesc>, errs: seq<int>)
    requires |errs| <= |descs|
    ensures Finished(descs + more, errs) == Finished(descs, errs)
    decreases |errs|
  {
    if errs == [] {
    } else {
      FinishedSame(descs, more, errs[..|errs| - 1]);
    }
  }

  lemma {:induction false} InHandSame(descs: seq<CompDesc>, more: seq<CompDesc>, errs: seq<int>)
    requires |errs| <= |descs|
    ensures InHand(descs + more, errs) == InHand(descs, errs)
    decreases |errs|
  {
    if errs == [] {
    } else {
      InHandSame(descs, more, errs[..|errs| - 1]);
    }
  }

  lemma PacketsOn(descs: seq<CompDesc>, errs: seq<int>, ctx: Ctx, finished: nat, env: Env, err: int)
    requires Packets(descs, errs, ctx, finished) && |errs| < |descs|
    ensures var d := descs[|errs|];
      Packets(descs, errs + [err], NextCtx(d, ctx, env, err),
              if err == 0 && d.endOfPacket then finished + 1 else finished)
  {
    assert (errs + [err])[..|errs|] == errs;
  }

  /** The completion the poll takes is the next one written. */
  lemma TakesInOrder(s: State)
    requires Inv(s) && InRange(s) && Polling.Ready(s.compl)
    ensures s.compl.slots[s.compl.head].data == s.compl.cnt < |s.descs|
  {
    hide RxInv, Counters, Kept, Index, Polling.Mark, Room;
    Polling.ReadyMeansWritten(s.compl);
  }

  lemma TakeKeepsInv(s: State, env: Env)
    requires Inv(s) && InRange(s) && Polling.Ready(s.compl) && s.left == 0
    ensures Inv(TakeStep(s, env))
  {
    hide RxInv, Polling.Inv, Counters, Kept, Index, Complete, Reclaimed, Room, Packets, Verdict, NextCtx;
    TakesInOrder(s);
    CompleteKeepsInv(s.rx, s.descs[s.compl.cnt], s.ctx, env);
    PacketsOn(s.descs, s.errs, s.ctx, s.finished, env, Err(Verdict(s.rx, s.descs[s.compl.cnt], s.ctx, env)));
    Polling.PollKeepsInv(s.compl);
    PollingBounds(s.compl);
    Polling.ReadyMeansWritten(s.compl);
    ReclaimKeepsCounters(s.q, s.compl);
    KeptOn(s.q.ring, s.log, s.compl.cnt);
    ReclaimedRing(s.q);
    TiedRoom(TakeStep(s, env));
    CompletionAgrees(s.held, s.rx, s.descs[s.compl.cnt], s.ctx, env);
  }

  lemma ReclaimKeepsCounters(q: Queue, p: Polling.State)
    requires Counters(q, p) && Polling.Sane(p) && p.cnt < p.posted
    ensures Counters(Reclaimed(q), Polling.Consume(p))
  {
    hide Index, Slot, Polling.NextWant;
    SlotIsIndex(p.cnt, 1, |q.ring|);
  }

  lemma ReclaimedRing(q: Queue)
    requires |q.ring| > 0
    ensures Reclaimed(q).ring == q.ring
  {
  }

  lemma KeptOn(ring: seq<(nat, nat)>, log: seq<(nat, nat)>, from: nat)
    requires Kept(ring, log, from)
    ensures Kept(ring, log, from + 1)
  {
    hide Index;
  }

  // ----- Runs ------------------------------------------------------------------------------------------------

  lemma StepKeepsInv(s: State, a: Action)
    requires Inv(s)
    ensures InRange(s) && Inv(Step(s, a)) && Step(s, a).compl.n == s.compl.n && |Step(s, a).q.ring| == |s.q.ring|
  {
    hide RxInv, Polling.Inv, Counters, Kept, Numbered, Room, Polling.Ready, RoundStep, TakeStep;
    InvInRange(s);
    match a
    case PostBegin => TiedRoom(s);
    case PostOne(pageOk) =>
      if s.left > 0 { RoundKeepsInv(s, pageOk); }
    case DevComplete(d) => DevKeepsInv(s, d); WriteShape(s.compl, |s.descs|);
    case Take(env) =>
      if s.left == 0 && Polling.Ready(s.compl) { TakeKeepsInv(s, env); TakeKeepsSize(s, env); }
    case DropRef(b, c) =>
      RxDqoProofs.StepKeepsInv(s.rx, RxDqoSpec.DropRef(b, c));
      StackAgrees(s.held, s.rx, RxDqoSpec.DropRef(b, c));
    case TakeRef(b, c) =>
      RxDqoProofs.StepKeepsInv(s.rx, RxDqoSpec.TakeRef(b, c));
      StackAgrees(s.held, s.rx, RxDqoSpec.TakeRef(b, c));
  }

  lemma TakeKeepsSize(s: State, env: Env)
    requires InRange(s)
    ensures var s' := TakeStep(s, env); s'.compl.n == s.compl.n && |s'.q.ring| == |s.q.ring|
  {
    hide Complete, Index, Slot;
  }

  ghost function Exec(s: State, actions: seq<Action>): (r: State)
    requires Inv(s)
    ensures Inv(r) && r.compl.n == s.compl.n && |r.q.ring| == |s.q.ring|
  {
    if actions == [] then s
    else
      var s' := Exec(s, actions[..|actions| - 1]);
      StepKeepsInv(s', actions[|actions| - 1]);
      Step(s', actions[|actions| - 1])
  }

  /** Settings of a receive ring: buffer states, chunks per page, and the slots of its two rings. */
  datatype Cfg = Cfg(bufs: nat, chunks: nat, qpl: bool, hdrBufs: bool, bufSlots: nat, complSlots: nat)

  predicate Sane(c: Cfg) {
    1 <= c.chunks < PageRefs.INT_MAX - 1 && c.bufSlots > 0 && c.complSlots > 0
  }

  function Init(c: Cfg): State {
    State(RxDqoSpec.Init(c.bufs, c.chunks, c.qpl, c.hdrBufs),
          Queue(seq(c.bufSlots, _ => (0, 0)), 0, 0, c.complSlots),
          Polling.Init(Polling.GenBit, c.complSlots), 0, NoSkb, 0, NothingHeld(c.bufs), [], [], [])
  }

  lemma InitInv(c: Cfg)
    requires Sane(c)
    ensures Inv(Init(c))
  {
    RxDqoProofs.InitInv(c.bufs, c.chunks, c.qpl, c.hdrBufs);
    Polling.InitInv(Polling.GenBit, c.complSlots);
    ModIdem(0, c.bufSlots);
    TiedRoom(Init(c));
  }

  /**
   Over every run: the count of free slots and the two indices are exactly what
   posting and taking leave, the completions never outnumber their ring, no
   entry the device has not answered is overwritten, and the poll's test
   succeeds exactly when a completion is unread.
   */
  lemma CountersAgree(c: Cfg, actions: seq<Action>)
    requires Sane(c)
    ensures Inv(Init(c))
    ensures var s := Exec(Init(c), actions);
      var out := s.compl.posted - s.compl.cnt;
      && |s.log| == s.compl.posted && |s.q.ring| == c.bufSlots && InRange(s)
      && s.q.freeSlots == c.complSlots - out >= 0
      && RingDistance(s.q.tail, s.q.head, c.bufSlots) == out <= c.bufSlots - 1
      && Room(s.q) == (if c.complSlots < c.bufSlots - 1 then c.complSlots else c.bufSlots - 1) - out >= 0
      && s.compl.cnt <= |s.descs| <= s.compl.posted
      && (forall j :: s.compl.cnt <= j < |s.log| ==> s.q.ring[Index(j, c.bufSlots)] == s.log[j])
      && (Polling.Ready(s.compl) <==> s.compl.cnt < |s.descs|)
  {
    hide RxInv, Index, RingDistance, Polling.Mark, Polling.Ready, Packets, Agrees;
    InitInv(c);
    var s := Exec(Init(c), actions);
    InvInRange(s);
    DistanceIsOutstanding(s.q, s.compl);
    RoomIsExact(s.q, s.compl);
    Polling.ReadyMeansWritten(s.compl);
  }

  /**
   Over every run: an SKB is in hand exactly when the last completion taken was
   handled without error and did not end its packet, it has a fragment for every
   buffer of the packet, no more than 17 on one SKB, and the packets delivered are
   those whose end was handled so.
   */
  lemma PacketsAreFinishedOnce(c: Cfg, actions: seq<Action>)
    requires Sane(c)
    ensures Inv(Init(c))
    ensures var s := Exec(Init(c), actions);
      && |s.errs| == s.compl.cnt <= |s.descs| && s.finished == Finished(s.descs, s.errs)
      && (s.ctx.Building? <==>
            s.compl.cnt > 0 && s.errs[s.compl.cnt - 1] == 0 && !s.descs[s.compl.cnt - 1].endOfPacket)
      && (s.ctx.Building? ==>
            s.ctx.nrFrags == (InHand(s.descs, s.errs) - 1) % 17 + 1 && 1 <= s.ctx.nrFrags <= 17)
  {
    hide RxInv, Polling.Inv, Counters, Kept, Room, Finished, InHand;
    InitInv(c);
  }

  /**
   In every reachable state, so between any two rounds of the posting loop too:
   there is room for nothing or more, at least for the rounds the loop still
   means to go, and whatever the next rounds post is safe.
   */
  lemma PostingIsAlwaysSafe(c: Cfg, actions: seq<Action>, pageOk: seq<bool>)
    requires Sane(c)
    ensures Inv(Init(c))
    ensures var s := Exec(Init(c), actions);
      && InRange(s) && s.left <= Room(s.q) < c.bufSlots
      && (|pageOk| <= Room(s.q) ==>
            var (rx, q, posted) := PostAll(s.rx, s.q, pageOk);
            && PostedFrom(s.rx, s.q, rx, q, posted) && |posted| <= Room(s.q)
            && forall i :: 0 <= i < |posted| ==>
                 posted[i] < |rx.bufs| && rx.bufs[posted[i]].off !in rx.bufs[posted[i]].page.refs)
  {
    hide RxInv, Counters, Kept, Numbered, Polling.Inv, Room, PostAll;
    InitInv(c);
    var s := Exec(Init(c), actions);
    InvInRange(s);
    TiedRoom(s);
    if |pageOk| <= Room(s.q) {
      PostingIsSafe(s.rx, s.q, pageOk);
    }
  }

  /** No SKB holds a chunk the device may write, at any point of the posting loop or the poll. */
  lemma OutstandingChunksAreFree(c: Cfg, actions: seq<Action>, b: nat)
    requires Sane(c)
    ensures Inv(Init(c))
    ensures var s := Exec(Init(c), actions);
      InRange(s) && |s.held| == |s.rx.bufs| && (b < |s.held| && s.rx.place[b] == Posted ==>
        s.rx.bufs[b].off !in s.held[b] && s.rx.bufs[b].page.count - s.rx.bufs[b].page.bias == |s.held[b]|)
  {
    hide Counters, Kept, Numbered, Polling.Inv, Room;
    InitInv(c);
    var s := Exec(Init(c), actions);
    InvInRange(s);
    if b < |s.rx.bufs| && s.rx.place[b] == Posted {
      assert BufOk(s.rx.chunks, Posted, s.rx.bufs[b]);
    }
  }
}
