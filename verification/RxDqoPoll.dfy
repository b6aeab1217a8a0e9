/** `gve_rx_poll_dqo` on the arrays: completions taken, buffers handed on, packets finished, buffers posted again. */
module RxDqoPoll {
  import opened Rings
  import opened RxDqoSpec
  import opened RxDqoRing
  import Runs = RxDqoRuns
  import Polling

  /** What comes with one round of the poll: how its allocations end, and what the device writes after it. */
  datatype Round = Round(env: Env, writes: seq<CompDesc>)

  predicate OfPoll(run: seq<Runs.Action>) {
    forall i :: 0 <= i < |run| ==> run[i].Take? || run[i].DevComplete?
  }

  lemma OfPollOn(run: seq<Runs.Action>, more: seq<Runs.Action>)
    requires OfPoll(run)
    ensures OfPoll(more) ==> OfPoll(run + more)
    ensures |more| == 1 && more[0].Take? ==> OfPoll(run + more)
  {
  }

  predicate OfPosting(run: seq<Runs.Action>) {
    forall i :: 0 <= i < |run| ==> run[i].PostBegin? || run[i].PostOne?
  }

  class DqoRx {
    const rx: RxRing
    const q: BufQueue
    const ring: Polling.PolledRing
    var ctx: Ctx
    var descs: seq<CompDesc>  // the completions written, by number

    // The state of the machine this ring is in.
    ghost var s: Runs.State

    ghost predicate Valid()
      reads this, rx, rx.next, rx.bufs, q, q.descs, ring, ring.slots
    {
      Sound() && s.left == 0
    }

    /** Also inside the posting loop. */
    ghost predicate Sound()
      reads this, rx, rx.next, rx.bufs, q, q.descs, ring, ring.slots
    {
      rx.Linked() && ring.Valid() && Runs.Inv(s) && Matches()
    }

    ghost predicate Matches()
      reads this, rx, rx.bufs, q, q.descs, ring
    {
      rx.State() == s.rx && q.State() == s.q && ring.s == s.compl && ctx == s.ctx && descs == s.descs
    }

    constructor (c: Runs.Cfg)
      requires Runs.Sane(c) && c.bufs > 0
      ensures Valid() && fresh({rx, rx.next, rx.bufs, q, q.descs, ring, ring.slots}) && s == Runs.Init(c)
    {
      rx := new RxRing(c.bufs, c.chunks, c.qpl, c.hdrBufs);
      q := new BufQueue(c.bufSlots, c.complSlots);
      ring := new Polling.PolledRing(Polling.GenBit, c.complSlots);
      ctx, descs := NoSkb, [];
      s := Runs.Init(c);
      new;
      Runs.InitInv(c);
    }

    lemma Facts()
      requires Sound()
      ensures Runs.InRange(s) && s.compl.cnt <= |s.descs| && |s.descs| == |s.compl.stream|
      ensures q.head < q.descs.Length && q.tail < q.descs.Length && rx.Valid()
      ensures RxInv(s.rx) && Polling.Inv(s.compl)
      ensures forall j :: 0 <= j < |s.descs| ==> s.compl.stream[j].data == j
    {
      hide RxInv, Links, Polling.Mark, Index, Runs.Kept, Room, Runs.Packets;
      Runs.InvInRange(s);
    }

    /** The device answers one of the buffers it was given. */
    method DeviceComplete(d: CompDesc)
      requires Valid()
      modifies `descs, `s, ring, ring.slots
      ensures Valid() && Runs.InRange(old(s)) && s == Runs.Step(old(s), Runs.DevComplete(d))
    {
      hide RxInv, Links, Polling.Inv, Runs.Inv, Index, Polling.Mark;
      Facts();
      Runs.StepKeepsInv(s, Runs.DevComplete(d));
      var more := ring.written < ring.posted;
      ring.DeviceWrite(Polling.Write(|descs|, false));
      if more {
        descs := descs + [d];
      }
      s := Runs.Step(s, Runs.DevComplete(d));
    }

    /** One round of the poll: the completion at the head is handled, and may finish the packet in hand. */
    method TakeNext(env: Env) returns (finished: bool)
      requires Valid() && s.compl.cnt < |s.descs|
      modifies `ctx, `s, rx, rx.next, rx.bufs, q, ring
      ensures Valid() && Runs.InRange(old(s)) && s == Runs.Step(old(s), Runs.Take(env))
      ensures s.compl.cnt == old(s).compl.cnt + 1
      ensures s.finished == old(s).finished + if finished then 1 else 0
    {
      hide RxInv, Links, Polling.Inv, Runs.Inv, Index, Complete, Verdict, Reclaimed, Polling.Consume, Room,
        RingDistance, NextCtx, Err, Runs.Step;
      Facts();
      Runs.StepKeepsInv(s, Runs.Take(env));
      Polling.ReadyMeansWritten(s.compl);
      TakenState(s, env);
      var d := ring.TakeOne();
      var err := rx.Receive(descs[d.data], ctx, env);
      q.Reclaim();
      finished := UpdateSkb(descs[d.data], env, err);
      s := Runs.Step(s, Runs.Take(env));
    }

    /** What becomes of the SKB in hand; a packet is finished when there is one and its last buffer came. */
    method UpdateSkb(d: CompDesc, env: Env, err: int) returns (finished: bool)
      modifies `ctx
      ensures ctx == NextCtx(d, old(ctx), env, err)
      ensures finished <==> err == 0 && d.endOfPacket
    {
      if err != 0 {
        ctx := NoSkb;
      } else {
        ctx := Continued(d, ctx, env);
      }
      if ctx.NoSkb? || !d.endOfPacket {
        return false;
      }
      ctx := NoSkb;
      return true;
    }

    method DeviceCompletes(ds: seq<CompDesc>) returns (ghost run: seq<Runs.Action>)
      requires Valid()
      modifies `descs, `s, ring, ring.slots
      ensures Valid() && Runs.Inv(old(s)) && s == Runs.Exec(old(s), run)
      ensures s.compl.cnt == old(s).compl.cnt && s.finished == old(s).finished && (ds == [] ==> s == old(s))
      ensures OfPoll(run)
    {
      hide Runs.Inv, Runs.Step, Links, Polling.Inv;
      run := [];
      for i := 0 to |ds|
        invariant Valid() && s == Runs.Exec(old(s), run)
        invariant s.compl.cnt == old(s).compl.cnt && s.finished == old(s).finished && (i == 0 ==> s == old(s))
        invariant OfPoll(run)
      {
        Facts();
        WriteKeepsCounts(s, ds[i]);
        Snoc(old(s), run, Runs.DevComplete(ds[i]));
        DeviceComplete(ds[i]);
        run := run + [Runs.DevComplete(ds[i])];
      }
    }

    static lemma WriteKeepsCounts(s: Runs.State, d: CompDesc)
      requires Runs.InRange(s)
      ensures var s' := Runs.Step(s, Runs.DevComplete(d));
        s'.compl.cnt == s.compl.cnt && s'.finished == s.finished
    {
      hide Index, Polling.Mark;
    }

    static lemma Snoc(s: Runs.State, run: seq<Runs.Action>, a: Runs.Action)
      requires Runs.Inv(s)
      ensures Runs.InRange(Runs.Exec(s, run)) && Runs.Exec(s, run + [a]) == Runs.Step(Runs.Exec(s, run), a)
    {
      hide Runs.Inv, Runs.Step;
      Runs.StepKeepsInv(Runs.Exec(s, run), a);
      assert (run + [a])[..|run|] == run;
    }

    /** The loop of `gve_rx_poll_dqo`. The device writes `first` before the first look, and more after each round. */
    method Poll(budget: nat, first: seq<CompDesc>, rounds: seq<Round>, env: Env)
      returns (work: nat, ghost run: seq<Runs.Action>)
      requires Valid()
      modifies `ctx, `descs, `s, rx, rx.next, rx.bufs, q, ring, ring.slots
      ensures Valid() && Runs.Inv(old(s)) && s == Runs.Exec(old(s), run)
      ensures work == s.finished - old(s).finished <= budget
      ensures s.compl.cnt < |s.descs| ==> work == budget
      ensures OfPoll(run)
    {
      hide Runs.Inv, Runs.Step, Links, Polling.Inv, RxInv, OfPoll, Runs.Exec;
      work := 0;
      var i := 0;
      run := DeviceCompletes(first);
      while work < budget
        invariant Valid() && s == Runs.Exec(old(s), run)
        invariant work == s.finished - old(s).finished <= budget && 0 <= i <= |rounds| && OfPoll(run)
        decreases |rounds| - i, |s.descs| - s.compl.cnt
      {
        Facts();
        var ready := ring.IsReady();
        if !ready {
          break;
        }
        var e := if i < |rounds| then rounds[i].env else env;
        Snoc(old(s), run, Runs.Take(e));
        var finished := TakeNext(e);
        OfPollOn(run, [Runs.Take(e)]);
        run := run + [Runs.Take(e)];
        if finished {
          work := work + 1;
        }
        if i < |rounds| {
          ghost var more := DeviceCompletes(rounds[i].writes);
          Append(old(s), run, more);
          OfPollOn(run, more);
          run := run + more;
          i := i + 1;
        }
      }
    }

    static lemma {:induction false} Append(s: Runs.State, a: seq<Runs.Action>, b: seq<Runs.Action>)
      requires Runs.Inv(s)
      ensures Runs.Exec(s, a + b) == Runs.Exec(Runs.Exec(s, a), b)
      decreases |b|
    {
      hide Runs.Inv, Runs.Step;
      if b == [] {
        assert a + b == a;
      } else {
        var front, last := b[..|b| - 1], b[|b| - 1];
        Append(s, a, front);
        assert (a + b)[..|a + b| - 1] == a + front;
      }
    }

    /** One round of the posting loop. */
    method PostNext(pageOk: bool) returns (posted: bool)
      requires Sound() && s.left > 0
      modifies `s, rx, rx.next, rx.bufs, q, q.descs, ring
      ensures Sound() && Runs.InRange(old(s)) && s == Runs.Step(old(s), Runs.PostOne(pageOk))
      ensures s.left == if posted then old(s).left - 1 else 0
      ensures Room(s.q) == Room(old(s).q) - if posted then 1 else 0
    {
      hide RxInv, Links, Polling.Inv, Runs.Inv, PostRound, Runs.Step, Room;
      Facts();
      Runs.StepKeepsInv(s, Runs.PostOne(pageOk));
      PostedState(s, pageOk);
      var b := PostOne(rx, q, pageOk);
      posted := b != -1;
      if posted {
        ring.GiveBuffer();
      }
      s := Runs.Step(s, Runs.PostOne(pageOk));
    }

    static lemma PostedState(s: Runs.State, pageOk: bool)
      requires Runs.Inv(s) && Runs.InRange(s) && s.left > 0
      ensures var (rx, q, b) := PostRound(s.rx, s.q, pageOk);
        var s' := Runs.Step(s, Runs.PostOne(pageOk));
        && s'.rx == rx && s'.q == q && s'.descs == s.descs && s'.ctx == s.ctx
        && s'.compl == s.compl.(posted := s.compl.posted + if b == -1 then 0 else 1)
        && s'.left == (if b == -1 then 0 else s.left - 1)
      ensures s.compl.posted < s.compl.cnt + s.compl.n
      ensures var (rx, q, b) := PostRound(s.rx, s.q, pageOk); Room(q) == Room(s.q) - if b == -1 then 0 else 1
    {
      hide RxInv, Polling.Inv, Runs.Kept, Runs.Numbered, Runs.Packets, PostRound, PostAll, Index, Room;
      Runs.PollingBounds(s.compl);
      Runs.RoomIsExact(s.q, s.compl);
      Runs.RoundIsPost(s, pageOk);
      Runs.PostKeepsTied(s, [pageOk]);
    }

    /**
     `gve_rx_post_buffers_dqo`. `pageOk[i]` is what a page allocation in round `i`
     would answer; there are none to be had after that.
     */
    method Post(pageOk: seq<bool>) returns (full: bool, ghost run: seq<Runs.Action>)
      requires Valid()
      modifies `s, rx, rx.next, rx.bufs, q, q.descs, ring
      ensures Valid() && Runs.Inv(old(s)) && s == Runs.Exec(old(s), run)
      ensures (full <==> Room(s.q) == 0) && OfPosting(run)
    {
      hide RxInv, Links, Polling.Inv, Runs.Inv, Runs.Step, Room;
      Facts();
      var avail := q.Available();
      run := [Runs.PostBegin];
      ghost var start := s;
      BeginState(start);
      s := Runs.Step(start, Runs.PostBegin);
      var i := 0;
      full := true;
      while i < avail && full
        invariant Sound() && s == Runs.Exec(old(s), run)
        invariant 0 <= i <= avail && s.left == (if full then avail - i else 0)
        invariant OfPosting(run)
        invariant if full then Room(s.q) == avail - i else Room(s.q) > 0
        decreases s.left, full
      {
        ghost var a := Runs.PostOne(if i < |pageOk| then pageOk[i] else false);
        Snoc(old(s), run, a);
        full := PostNext(if i < |pageOk| then pageOk[i] else false);
        run := run + [a];
        i := i + 1;
      }
    }

    static lemma BeginState(s: Runs.State)
      requires Runs.Inv(s) && Runs.InRange(s) && s.left == 0
      ensures Runs.Step(s, Runs.PostBegin) == s.(left := Room(s.q)) && Runs.Inv(s.(left := Room(s.q)))
      ensures Runs.Exec(s, [Runs.PostBegin]) == s.(left := Room(s.q))
    {
      hide RxInv, Polling.Inv, Room, Runs.Tied;
      Runs.TiedRoom(s);
      Snoc(s, [], Runs.PostBegin);
      assert [] + [Runs.PostBegin] == [Runs.PostBegin];
    }

    static lemma TakenState(s: Runs.State, env: Env)
      requires Runs.Inv(s) && Runs.InRange(s) && s.left == 0 && s.compl.cnt < |s.descs|
      ensures var d, s' := s.descs[s.compl.cnt], Runs.Step(s, Runs.Take(env));
        var err := Err(Verdict(s.rx, d, s.ctx, env));
        && s'.rx == Complete(s.rx, d, s.ctx, env) && s'.q == Reclaimed(s.q) && s'.compl == Polling.Consume(s.compl)
        && s'.left == 0 && s'.descs == s.descs && s'.ctx == NextCtx(d, s.ctx, env, err)
        && s'.finished == s.finished + (if err == 0 && d.endOfPacket then 1 else 0)
        && s'.compl.cnt == s.compl.cnt + 1
    {
      hide RxInv, Index, Complete, Verdict, Reclaimed, Polling.Mark, Room, Polling.NextWant, NextCtx;
      Polling.ReadyMeansWritten(s.compl);
      Runs.TakesInOrder(s);
    }
  }
}
