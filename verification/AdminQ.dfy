/**
 The admin queue: commands are put into a ring and executed by the device once
 the doorbell is rung. A batch is issued without waiting, flushed whenever the
 ring is full and once more at the end; its result is the first error.
 */
module AdminQ {
  import opened Arith
  import opened Words
  import opened Rings

  const UNSET: nat := 0x0
  const PASSED: nat := 0x1

  const EAGAIN: int := -11
  const ENOMEM: int := -12
  const EACCES: int := -13
  const EINVAL: int := -22
  const ETIME: int := -62
  const EOPNOTSUPP: int := -95

  /** `gve_adminq_parse_err` */
  function ParseErr(status: nat): (err: int)
    ensures err == 0 <==> status == PASSED
    ensures err <= 0
  {
    if status == PASSED then 0
    else if status == UNSET then EINVAL
    else if status == 0xFFFFFFF0 || status == 0xFFFFFFF2 || status == 0xFFFFFFF3 || status == 0xFFFFFFF5
         || status == 0xFFFFFFFD then EAGAIN
    else if status == 0xFFFFFFF4 then ETIME
    else if status == 0xFFFFFFFA || status == 0xFFFFFFFB then EACCES
    else if status == 0xFFFFFFFC then ENOMEM
    else if status == 0xFFFFFFFE then EOPNOTSUPP
    else EINVAL
  }

  /** Which statuses mean which error. */
  lemma ErrorsAreTold(status: nat)
    ensures ParseErr(status) == -11 <==> status in {0xFFFFFFF0, 0xFFFFFFF2, 0xFFFFFFF3, 0xFFFFFFF5, 0xFFFFFFFD}
    ensures ParseErr(status) == -62 <==> status == 0xFFFFFFF4
    ensures ParseErr(status) == -13 <==> status in {0xFFFFFFFA, 0xFFFFFFFB}
    ensures ParseErr(status) == -12 <==> status == 0xFFFFFFFC
    ensures ParseErr(status) == -95 <==> status == 0xFFFFFFFE
    ensures ParseErr(status) in {0, -11, -62, -13, -12, -95} || ParseErr(status) == -22
  {
  }

  /** The first error among commands `t` up to `h`, with `judge` the status the device gives each. */
  function FirstError(judge: nat -> nat, t: nat, h: nat): int
    decreases h - t
  {
    if t >= h then 0 else if ParseErr(judge(t)) != 0 then ParseErr(judge(t)) else FirstError(judge, t + 1, h)
  }

  /** What a flush of commands `t` up to `h` reports: the scan on 32-bit counters does not see past their wrap. */
  function Flush(judge: nat -> nat, t: nat, h: nat): int {
    if U32(t) < U32(h) then FirstError(judge, t, h) else 0
  }

  /** `n` commands from an empty ring of `slots`: flushed every time the ring is full. */
  function BatchResult(judge: nat -> nat, slots: nat, t: nat, n: nat): int
    requires slots >= 2
    decreases n
  {
    if n <= slots - 1 then Flush(judge, t, t + n)
    else
      var err := Flush(judge, t, t + slots - 1);
      if err != 0 then err else BatchResult(judge, slots, t + slots - 1, n - (slots - 1))
  }

  // ----- What a batch reports ------------------------------------------------------------------------

  /** The first error is 0 exactly when all commands passed, and else belongs to the first that did not. */
  lemma {:induction false} FirstErrorIsFirst(judge: nat -> nat, t: nat, h: nat)
    ensures FirstError(judge, t, h) == 0 <==> forall j {:trigger judge(j)} :: t <= j < h ==> judge(j) == PASSED
    ensures FirstError(judge, t, h) != 0 ==>
      exists k :: t <= k < h && FirstError(judge, t, h) == ParseErr(judge(k))
        && forall j {:trigger judge(j)} :: t <= j < k ==> judge(j) == PASSED
    decreases h - t
  {
    if t >= h {
    } else if ParseErr(judge(t)) != 0 {
      assert judge(t) != PASSED;
    } else {
      FirstErrorIsFirst(judge, t + 1, h);
    }
  }

  lemma {:induction false} FirstErrorSplit(judge: nat -> nat, t: nat, m: nat, h: nat)
    requires t <= m <= h
    ensures var err := FirstError(judge, t, m);
      FirstError(judge, t, h) == if err != 0 then err else FirstError(judge, m, h)
    decreases m - t
  {
    if t == m {
    } else {
      FirstErrorSplit(judge, t + 1, m, h);
    }
  }

  /** A flush sees its commands exactly when the counter does not wrap on the way. */
  lemma FlushSees(t: nat, h: nat)
    requires t <= h < t + WRAP
    ensures U32(t) < U32(h) <==> t < h && U32(t) + (h - t) < WRAP
  {
  }

  /** Without a wrap, a batch reports the first error of all its commands, however often it was flushed. */
  lemma {:induction false} BatchReportsFirstError(judge: nat -> nat, slots: nat, t: nat, n: nat)
    requires slots >= 2 && (n == 0 || U32(t) + n < WRAP)
    ensures BatchResult(judge, slots, t, n) == FirstError(judge, t, t + n)
    decreases n
  {
    hide FirstError, U32;
    if n <= slots - 1 {
      if n > 0 { FlushSees(t, t + n); } else { NothingToReport(judge, t); }
    } else {
      var m := t + slots - 1;
      FlushSees(t, m);
      StillBelow(t, slots - 1);
      BatchReportsFirstError(judge, slots, m, n - (slots - 1));
      FirstErrorSplit(judge, t, m, t + n);
    }
  }

  lemma StillBelow(t: nat, k: nat)
    requires U32(t) + k < WRAP
    ensures U32(t + k) == U32(t) + k
  {
  }

  lemma NothingToReport(judge: nat -> nat, t: nat)
    ensures FirstError(judge, t, t) == 0 && Flush(judge, t, t) == 0
  {
  }

  /** The last command before the counter wraps. */
  function AtWrap(t: nat): nat {
    t + (WRAP - 1 - U32(t))
  }

  /** A device that fails only that command. */
  function FailsAtWrap(t: nat): nat -> nat {
    j => if j == AtWrap(t) then UNSET else PASSED
  }

  lemma {:induction false} PassesBefore(t0: nat, t: nat, h: nat)
    requires AtWrap(t0) < t || h <= AtWrap(t0)
    ensures FirstError(FailsAtWrap(t0), t, h) == 0
    decreases h - t
  {
    if t >= h {
    } else {
      PassesBefore(t0, t + 1, h);
    }
  }

  /** The error on the last command before the wrap is in no window that is seen. */
  lemma FlushMissesWrap(t0: nat, t: nat, h: nat)
    requires t <= h < t + WRAP && AtWrap(t) == AtWrap(t0)
    ensures Flush(FailsAtWrap(t0), t, h) == 0
    ensures h <= AtWrap(t) ==> AtWrap(h) == AtWrap(t0)
  {
    FlushSees(t, h);
    if t < h && U32(t) + (h - t) < WRAP {
      PassesBefore(t0, t, h);
    }
    if h <= AtWrap(t) { StillBelow(t, h - t); }
  }

  lemma {:induction false} AllPassAfterWrap(t0: nat, slots: nat, t: nat, n: nat)
    requires 2 <= slots <= WRAP && t > AtWrap(t0)
    ensures BatchResult(FailsAtWrap(t0), slots, t, n) == 0
    decreases n
  {
    hide FirstError;
    if n <= slots - 1 {
      PassesBefore(t0, t, t + n);
    } else {
      PassesBefore(t0, t, t + slots - 1);
      AllPassAfterWrap(t0, slots, t + slots - 1, n - (slots - 1));
    }
  }

  lemma {:induction false} BatchMissesWrap(t0: nat, slots: nat, t: nat, n: nat)
    requires 2 <= slots <= WRAP && AtWrap(t) == AtWrap(t0)
    ensures BatchResult(FailsAtWrap(t0), slots, t, n) == 0
    decreases n
  {
    hide FirstError, Flush, AtWrap;
    if n <= slots - 1 {
      FlushMissesWrap(t0, t, t + n);
    } else {
      var m := t + slots - 1;
      FlushMissesWrap(t0, t, m);
      if m <= AtWrap(t) {
        BatchMissesWrap(t0, slots, m, n - (slots - 1));
      } else {
        AllPassAfterWrap(t0, slots, m, n - (slots - 1));
      }
    }
  }

  /**
   A batch reports the first error for every device exactly when it does not
   carry the 32-bit command counter to its wrap.
   */
  lemma BatchIsFaithfulExactly(slots: nat, t: nat, n: nat)
    requires 2 <= slots <= WRAP
    ensures (forall judge: nat -> nat :: BatchResult(judge, slots, t, n) == FirstError(judge, t, t + n))
       <==> n == 0 || U32(t) + n < WRAP
  {
    hide BatchResult, FirstError;
    if n == 0 || U32(t) + n < WRAP {
      forall judge: nat -> nat
        ensures BatchResult(judge, slots, t, n) == FirstError(judge, t, t + n)
      {
        BatchReportsFirstError(judge, slots, t, n);
      }
    } else {
      var judge := FailsAtWrap(t);
      BatchMissesWrap(t, slots, t, n);
      FirstErrorIsFirst(judge, t, t + n);
      assert judge(AtWrap(t)) == UNSET && t <= AtWrap(t) < t + n;
    }
  }

  // ----- The ring -----------------------------------------------------------------------------------------

  datatype Cmd = Cmd(body: nat, status: nat)

  /** Commands `t` up to `h` of `sent` are in their slots. */
  ghost predicate Queued(ring: seq<Cmd>, sent: seq<nat>, t: nat, h: nat) {
    |ring| > 0 && h <= |sent| && forall j :: t <= j < h ==> ring[Index(j, |ring|)].body == sent[j]
  }

  /** The device has left its verdict on commands `t` up to `h`. */
  ghost predicate Judged(ring: seq<Cmd>, judge: nat -> nat, t: nat, h: nat) {
    |ring| > 0 && forall j :: t <= j < h ==> ring[Index(j, |ring|)].status == judge(j)
  }

  lemma JudgeNext(ring: seq<Cmd>, sent: seq<nat>, judge: nat -> nat, t: nat, k: nat, h: nat)
    requires Queued(ring, sent, t, h) && Judged(ring, judge, t, k) && t <= k < h <= t + |ring|
    ensures var x := Index(k, |ring|);
      var ring' := ring[x := ring[x].(status := judge(k))];
      ring[x].body == sent[k] && Queued(ring', sent, t, h) && Judged(ring', judge, t, k + 1)
  {
    hide Index;
    var x := Index(k, |ring|);
    var ring' := ring[x := ring[x].(status := judge(k))];
    forall j | t <= j < k + 1
      ensures ring'[Index(j, |ring|)].status == judge(j)
    {
      if j < k { IndexApart(j, k, |ring|); }
    }
  }

  lemma QueueNext(ring: seq<Cmd>, sent: seq<nat>, t: nat, c: Cmd)
    requires Queued(ring, sent, t, |sent|) && t <= |sent| < t + |ring|
    ensures Queued(ring[Index(|sent|, |ring|) := c], sent + [c.body], t, |sent| + 1)
  {
    hide Index;
    forall j | t <= j < |sent| + 1
      ensures ring[Index(|sent|, |ring|) := c][Index(j, |ring|)].body == (sent + [c.body])[j]
    {
      if j < |sent| { IndexApart(j, |sent|, |ring|); }
    }
  }

  /** Counters less than a wrap apart are equal only if they are the same. */
  lemma SameCount(a: nat, b: nat)
    requires a <= b < a + WRAP
    ensures U32(a) == U32(b) <==> a == b
  {
  }

  /** The ring is full exactly when the slot behind the next one is the oldest. */
  lemma FullTest(t: nat, h: nat, slots: nat)
    requires 2 <= slots && t <= h <= t + slots - 1
    ensures Index(h + 1, slots) == Index(t, slots) <==> h == t + slots - 1
  {
    if h == t + slots - 1 {
      ModShift(t, 1, slots);
    } else {
      IndexApart(t, h + 1, slots);
    }
  }

  lemma BatchUnfolds(judge: nat -> nat, slots: nat, t: nat, n: nat)
    requires slots >= 2
    ensures n <= slots - 1 ==> BatchResult(judge, slots, t, n) == Flush(judge, t, t + n)
    ensures n > slots - 1 ==>
      var err := Flush(judge, t, t + slots - 1);
      BatchResult(judge, slots, t, n)
        == if err != 0 then err else BatchResult(judge, slots, t + slots - 1, n - (slots - 1))
  {
  }

  class AdminQueue {
    const ring: array<Cmd>
    const judge: nat -> nat  // the status the device will give each command
    var prod: nat            // adminq_prod_cnt, 32-bit
    var event: nat           // adminq_event_counter, 32-bit
    var executed: nat        // the device's own count

    ghost var sent: seq<nat>  // commands issued
    ghost var ran: seq<nat>   // commands the device has executed

    ghost predicate Valid()
      reads this, ring
    {
      && 2 <= ring.Length <= WRAP && WRAP % ring.Length == 0
      && prod == U32(|sent|) && event == U32(|ran|) && executed == |ran|
      && ran <= sent && |sent| - |ran| <= ring.Length - 1
      && Queued(ring[..], sent, |ran|, |sent|)
    }

    constructor (slots: nat, judge: nat -> nat)
      requires 2 <= slots <= WRAP && WRAP % slots == 0
      ensures Valid() && fresh(ring) && sent == ran == [] && ring.Length == slots && this.judge == judge
    {
      ring := new Cmd[slots](_ => Cmd(0, UNSET));
      this.judge := judge;
      prod, event, executed := 0, 0, 0;
      sent, ran := [], [];
    }

    /** The device, once the doorbell is rung: executes in order what is queued and leaves its verdicts. */
    method DeviceRun()
      requires Valid()
      modifies `event, `executed, `ran, ring
      ensures Valid() && ran == sent
      ensures Judged(ring[..], judge, |old(ran)|, |sent|)
    {
      hide U32, Index;
      ghost var t := |ran|;
      while event != prod
        invariant t <= executed <= |sent| && event == U32(executed) && ran == sent[..executed]
        invariant Queued(ring[..], sent, t, |sent|) && Judged(ring[..], judge, t, executed)
        decreases |sent| - executed
      {
        SameCount(executed, |sent|);
        ghost var was := ring[..];
        IndexOfU32(executed, ring.Length);
        JudgeNext(was, sent, judge, t, executed, |sent|);
        var x := Index(event, ring.Length);
        ring[x] := ring[x].(status := judge(executed));
        assert ring[..] == was[x := was[x].(status := judge(executed))];
        ran := ran + [sent[executed]];
        Advanced(executed, 1);
        event, executed := U32(event + 1), executed + 1;
      }
      SameCount(executed, |sent|);
    }

    /** The scan of the statuses between two values of the 32-bit counter. */
    method FirstFailure(tail: nat, head: nat, ghost t: nat, ghost h: nat) returns (err: int)
      requires Valid() && t <= h < t + WRAP && tail == U32(t) && head == U32(h)
      requires Judged(ring[..], judge, t, h)
      ensures err == Flush(judge, t, h)
    {
      hide U32, Index, Queued;
      FlushSees(t, h);
      if tail < head { StillBelow(t, h - t); }
      var i := tail;
      while i < head
        invariant tail <= i && (tail < head ==> i <= head)
        invariant tail < head ==> FirstError(judge, t, h) == FirstError(judge, t + (i - tail), h)
      {
        ghost var j := t + (i - tail);
        StillBelow(t, i - tail);
        IndexOfU32(j, ring.Length);
        var status := ring[Index(i, ring.Length)].status;
        assert status == judge(j);
        err := ParseErr(status);
        if err != 0 {
          return;
        }
        i := i + 1;
      }
      return 0;
    }

    /** `gve_adminq_kick_and_wait`, with a device that answers in time */
    method KickAndWait() returns (err: int)
      requires Valid()
      modifies `event, `executed, `ran, ring
      ensures Valid() && ran == sent
      ensures err == Flush(judge, |old(ran)|, |sent|)
    {
      var tail, head := event, prod;
      DeviceRun();
      err := FirstFailure(tail, head, |old(ran)|, |sent|);
    }

    /** `gve_adminq_issue_cmd`: the ring is flushed first when it is full; there is always room afterwards. */
    method IssueCmd(body: nat) returns (err: int)
      requires Valid()
      modifies `prod, `event, `executed, `sent, `ran, ring
      ensures Valid()
      ensures var full := |old(sent)| - |old(ran)| == ring.Length - 1;
        && err == (if full then Flush(judge, |old(ran)|, |old(sent)|) else 0)
        && ran == (if full then old(sent) else old(ran))
        && sent == (if err == 0 then old(sent) + [body] else old(sent))
    {
      hide U32, Index, Flush;
      Advanced(|sent|, 1);
      IndexOfU32(|sent| + 1, ring.Length);
      IndexOfU32(|ran|, ring.Length);
      FullTest(|ran|, |sent|, ring.Length);
      if Index(U32(prod + 1), ring.Length) == Index(event, ring.Length) {
        err := KickAndWait();
        if err != 0 {
          return;
        }
        IndexOfU32(|ran|, ring.Length);
        FullTest(|ran|, |sent|, ring.Length);
        if Index(U32(prod + 1), ring.Length) == Index(event, ring.Length) {
          assert false;
        }
      }
      IndexOfU32(|sent|, ring.Length);
      QueueNext(ring[..], sent, |ran|, Cmd(body, UNSET));
      ring[Index(prod, ring.Length)] := Cmd(body, UNSET);
      prod := U32(prod + 1);
      sent := sent + [body];
      err := 0;
    }

    /** The create and destroy batches: every command executed in order up to the first error that is seen. */
    method Batch(cmds: seq<nat>) returns (err: int)
      requires Valid() && ran == sent
      modifies `prod, `event, `executed, `sent, `ran, ring
      ensures Valid() && ran == sent && old(sent) <= sent <= old(sent) + cmds
      ensures err == BatchResult(judge, ring.Length, |old(sent)|, |cmds|)
      ensures err == 0 ==> sent == old(sent) + cmds
    {
      hide U32, Index, Flush, BatchResult, Queued;
      ghost var p, k := |sent|, |cmds|;
      for i := 0 to |cmds|
        invariant Valid() && sent == old(sent) + cmds[..i] && p <= |ran|
        invariant BatchResult(judge, ring.Length, p, k) == BatchResult(judge, ring.Length, |ran|, p + k - |ran|)
      {
        BatchUnfolds(judge, ring.Length, |ran|, p + k - |ran|);
        err := IssueCmd(cmds[i]);
        if err != 0 {
          return;
        }
        assert cmds[..i + 1] == cmds[..i] + [cmds[i]];
      }
      BatchUnfolds(judge, ring.Length, |ran|, p + k - |ran|);
      err := KickAndWait();
    }
  }
}
