/**
 Descriptor rings polled without a shared index. The device marks each
 descriptor it writes, with a sequence number from 1 to 7 or with a generation
 bit that flips each time round; the driver tells new descriptors from stale
 ones by the mark alone.
 */
module Polling {
  import opened Arith
  import opened Rings

  datatype Scheme = Seqno | GenBit

  /** `more`: the packet goes on in the next descriptor. */
  datatype Desc = Desc(mark: nat, data: nat, more: bool)

  /** What the device writes on its `j`-th descriptor. */
  function Mark(scheme: Scheme, n: nat, j: nat): nat
    requires n > 0
  {
    match scheme
    case Seqno => j % 7 + 1
    case GenBit => 1 - Lap(n, j) % 2
  }

  function Lap(n: nat, j: nat): nat
    requires n > 0
  {
    j / n
  }

  /** `gve_next_seqno` */
  function NextSeqno(q: nat): nat {
    if q + 1 == 8 then 1 else q + 1
  }

  /** The numbers go from 1 to 7 and round. */
  lemma SeqnosCycle(q: nat)
    requires 1 <= q <= 7
    ensures NextSeqno(q) == q % 7 + 1 && 1 <= NextSeqno(q) <= 7
  {
  }

  datatype State = State(
    scheme: Scheme, n: nat, slots: seq<Desc>,
    stream: seq<Desc>,      // everything the device has written
    posted: nat,            // buffers given to the device so far
    cnt: nat, head: nat, want: nat,
    got: seq<Desc>)         // everything the driver has taken

  predicate Sane(s: State) {
    |s.slots| == s.n > 0 && s.head < s.n
  }

  /** The driver's test on the slot at its head. */
  predicate Ready(s: State)
    requires Sane(s)
  {
    var m := s.slots[s.head].mark;
    if s.scheme == Seqno then m == s.want else m != s.want
  }

  function NextWant(scheme: Scheme, head': nat, want: nat): nat {
    if scheme == Seqno then NextSeqno(want)
    else if head' == 0 then (if want == 0 then 1 else 0) else want
  }

  function Consume(s: State): State
    requires Sane(s)
  {
    var head' := Index(s.head + 1, s.n);
    s.(got := s.got + [s.slots[s.head]], cnt := s.cnt + 1, head := head', want := NextWant(s.scheme, head', s.want))
  }

  datatype Action = DevWrite(data: nat, more: bool) | Poll | Post

  function Step(s: State, a: Action): State
    requires Sane(s)
  {
    match a
    case DevWrite(data, more) =>
      var j := |s.stream|;
      if j < s.posted then
        var d := Desc(Mark(s.scheme, s.n, j), data, more);
        s.(slots := s.slots[Index(j, s.n) := d], stream := s.stream + [d])
      else s
    case Poll => if Ready(s) then Consume(s) else s
    case Post => if s.posted < s.cnt + s.n then s.(posted := s.posted + 1) else s
  }

  /** Rings start zeroed; all buffers may be posted before the first poll. */
  function Init(scheme: Scheme, n: nat): State {
    State(scheme, n, seq(n, _ => Desc(0, 0, false)), [], 0, 0, 0, if scheme == Seqno then 1 else 0, [])
  }

  // ----- Marks ----------------------------------------------------------------------------------------

  function Pow2(k: nat): nat {
    if k == 0 then 1 else 2 * Pow2(k - 1)
  }

  /** Ring sizes are powers of two, and none of them is a multiple of seven. */
  lemma {:induction false} SevenNeverDivides(k: nat)
    ensures Pow2(k) % 7 != 0 && Pow2(k) > 0
  {
    if k == 0 {
    } else {
      SevenNeverDivides(k - 1);
      DoubleNotBySeven(Pow2(k - 1));
    }
  }

  lemma DoubleNotBySeven(x: nat)
    requires x % 7 != 0
    ensures (2 * x) % 7 != 0
  {
    assert 2 * x == 7 * (2 * (x / 7)) + 2 * (x % 7);
  }

  /** The driver's expectation, kept step by step, is the mark of the descriptor it waits for, or its opposite. */
  predicate WantsNext(s: State)
    requires s.n > 0
  {
    s.want == if s.scheme == Seqno then Mark(Seqno, s.n, s.cnt) else 1 - Mark(GenBit, s.n, s.cnt)
  }

  /** A mark differs from the one a lap before. */
  lemma MarksDiffer(scheme: Scheme, n: nat, j: nat)
    requires n > 0 && (scheme == Seqno ==> n % 7 != 0)
    ensures Mark(scheme, n, j + n) != Mark(scheme, n, j)
  {
    hide Lap;
    if scheme == Seqno {
      SeqnosDiffer(n, j);
    } else {
      NextLap(n, j);
      Parity(Lap(n, j));
    }
  }

  lemma SeqnosDiffer(n: nat, j: nat)
    requires n % 7 != 0
    ensures (j + n) % 7 != j % 7
  {
  }

  lemma NextLap(n: nat, j: nat)
    requires n > 0
    ensures Lap(n, j + n) == Lap(n, j) + 1
  {
    assert j + n == (j / n + 1) * n + j % n;
    DivModUnique(j + n, n, j / n + 1, j % n);
  }

  /** On the first lap no mark is like a blank slot to the driver. */
  lemma FirstLap(scheme: Scheme, n: nat, j: nat)
    requires n > 0 && j < n
    ensures Mark(scheme, n, j) != 0
  {
    ModIdem(j, n);
  }

  lemma WantNext(s: State)
    requires Sane(s) && WantsNext(s) && s.head == Index(s.cnt, s.n)
    ensures WantsNext(Consume(s)) && Consume(s).head == Index(s.cnt + 1, s.n)
  {
    hide Index, Lap, NextSeqno;
    IndexNext(s.cnt, s.n);
    if s.scheme == Seqno {
      SeqnoStep(s.cnt);
    } else {
      LapStep(s.n, s.cnt);
      Parity(Lap(s.n, s.cnt));
    }
  }

  lemma SeqnoStep(j: nat)
    ensures NextSeqno(j % 7 + 1) == (j + 1) % 7 + 1
  {
  }

  lemma Parity(x: nat)
    ensures (x + 1) % 2 == 1 - x % 2
  {
  }

  lemma LapStep(n: nat, j: nat)
    requires n > 0
    ensures Lap(n, j + 1) == if Index(j + 1, n) == 0 then Lap(n, j) + 1 else Lap(n, j)
  {
    assert j == j / n * n + j % n;
    if j % n == n - 1 {
      assert j + 1 == (j / n + 1) * n + 0;
      DivModUnique(j + 1, n, j / n + 1, 0);
    } else {
      DivModUnique(j + 1, n, j / n, j % n + 1);
    }
  }

  // ----- The invariant -----------------------------------------------------------------------------------

  /** The last lap of the stream is in the slots, and slots never written are blank. */
  ghost predicate Holds(s: State)
    requires Sane(s)
  {
    && (forall j :: 0 <= j < |s.stream| < j + s.n + 1 ==> s.slots[Index(j, s.n)] == s.stream[j])
    && (forall x :: |s.stream| <= x < s.n ==> s.slots[x].mark == 0)
  }

  ghost predicate Inv(s: State) {
    && Sane(s) && (s.scheme == Seqno ==> s.n % 7 != 0)
    && s.cnt <= |s.stream| <= s.posted <= s.cnt + s.n
    && s.head == Index(s.cnt, s.n) && WantsNext(s)
    && (forall j :: 0 <= j < |s.stream| ==> s.stream[j].mark == Mark(s.scheme, s.n, j))
    && Holds(s)
    && s.got == s.stream[..s.cnt]
  }

  /** The slot at the head passes the test exactly when the device has written the next descriptor. */
  lemma ReadyMeansWritten(s: State)
    requires Inv(s)
    ensures Ready(s) <==> s.cnt < |s.stream|
    ensures s.cnt < |s.stream| ==> s.slots[s.head] == s.stream[s.cnt]
  {
    hide Mark, Index;
    if s.cnt < |s.stream| {
      assert s.slots[Index(s.cnt, s.n)] == s.stream[s.cnt];
      MarkBounds(s.scheme, s.n, s.cnt);
    } else if s.cnt >= s.n {
      var old' := s.cnt - s.n;
      IndexBack(s.cnt, s.n);
      assert s.slots[Index(old', s.n)] == s.stream[old'];
      MarksDiffer(s.scheme, s.n, old');
      MarkBounds(s.scheme, s.n, old');
      MarkBounds(s.scheme, s.n, s.cnt);
    } else {
      IndexSelf(s.cnt, s.n);
      assert s.slots[s.cnt].mark == 0;
      FirstLap(s.scheme, s.n, s.cnt);
      MarkBounds(s.scheme, s.n, s.cnt);
    }
  }

  lemma MarkBounds(scheme: Scheme, n: nat, j: nat)
    requires n > 0
    ensures scheme == GenBit ==> 0 <= Mark(scheme, n, j) <= 1
  {
  }

  lemma IndexBack(x: nat, n: nat)
    requires n > 0 && x >= n
    ensures Index(x - n, n) == Index(x, n)
  {
    ModShift(x - n, 1, n);
  }

  lemma IndexSelf(x: nat, n: nat)
    requires x < n
    ensures Index(x, n) == x
  {
    ModIdem(x, n);
  }

  lemma PollKeepsInv(s: State)
    requires Inv(s)
    ensures Inv(Step(s, Poll))
  {
    hide Mark, Index, WantsNext, NextWant;
    ReadyMeansWritten(s);
    if Ready(s) {
      WantNext(s);
      assert s.stream[..s.cnt] + [s.stream[s.cnt]] == s.stream[..s.cnt + 1];
    }
  }

  lemma WriteKeepsInv(s: State, data: nat, more: bool)
    requires Inv(s)
    ensures Inv(Step(s, DevWrite(data, more)))
  {
    hide Mark, Index, WantsNext, Holds;
    var k, s' := |s.stream|, Step(s, DevWrite(data, more));
    if k < s.posted {
      WriteHolds(s, s', Desc(Mark(s.scheme, s.n, k), data, more));
      assert s'.stream[..s.cnt] == s.stream[..s.cnt];
      SameWant(s, s');
    }
  }

  lemma WriteHolds(s: State, s': State, d: Desc)
    requires Sane(s) && Holds(s)
    requires s' == s.(slots := s.slots[Index(|s.stream|, s.n) := d], stream := s.stream + [d])
    ensures Holds(s')
  {
    hide Index;
    var k := |s.stream|;
    forall j | 0 <= j < |s'.stream| < j + s.n + 1
      ensures s'.slots[Index(j, s.n)] == s'.stream[j]
    {
      if j < k {
        IndexApart(j, k, s.n);
        assert s.slots[Index(j, s.n)] == s.stream[j];
      }
    }
    if k < s.n { IndexSelf(k, s.n); }
  }

  lemma SameWant(s: State, s': State)
    requires s.n > 0 && WantsNext(s) && s'.scheme == s.scheme && s'.n == s.n && s'.cnt == s.cnt && s'.want == s.want
    ensures WantsNext(s')
  {
  }

  lemma StepKeepsInv(s: State, a: Action)
    requires Inv(s)
    ensures Inv(Step(s, a))
  {
    hide Mark, Index, Holds;
    match a
    case DevWrite(data, more) => WriteKeepsInv(s, data, more);
    case Poll => PollKeepsInv(s);
    case Post => PostKeepsInv(s);
  }

  lemma PostKeepsInv(s: State)
    requires Inv(s)
    ensures Inv(Step(s, Post))
  {
    hide Mark, Index;
  }

  /** Any number of buffers posted at once, as long as the ring has a slot for each completion. */
  lemma PostManyKeepsInv(s: State, k: nat)
    requires Inv(s) && s.posted + k <= s.cnt + s.n
    ensures Inv(s.(posted := s.posted + k))
  {
    hide Mark, Index;
  }

  ghost function Exec(s: State, actions: seq<Action>): (r: State)
    requires Inv(s)
    ensures Inv(r)
  {
    if actions == [] then s
    else
      var s' := Exec(s, actions[..|actions| - 1]);
      StepKeepsInv(s', actions[|actions| - 1]);
      Step(s', actions[|actions| - 1])
  }

  lemma InitInv(scheme: Scheme, n: nat)
    requires n > 0 && (scheme == Seqno ==> n % 7 != 0)
    ensures Inv(Init(scheme, n))
  {
    ModIdem(0, n);
  }

  /** On a ring of any power-of-two size, what the driver takes is the device's stream: no repeat, no gap. */
  lemma PollingFollowsTheStream(scheme: Scheme, k: nat, actions: seq<Action>)
    ensures Pow2(k) > 0 && Inv(Init(scheme, Pow2(k)))
    ensures var s := Exec(Init(scheme, Pow2(k)), actions);
      && s.cnt <= |s.stream| <= s.cnt + s.n
      && s.got == s.stream[..s.cnt]
      && (Ready(s) <==> s.cnt < |s.stream|)
  {
    SevenNeverDivides(k);
    InitInv(scheme, Pow2(k));
    ReadyMeansWritten(Exec(Init(scheme, Pow2(k)), actions));
  }

  // ----- The polling loops ----------------------------------------------------------------------------------

  /** What the device writes next, apart from the mark. */
  datatype Write = Write(data: nat, more: bool)

  /** `ctx->frag_cnt` after descriptors `ds`: 8 bits wide, and cleared by the end of a packet. */
  function FragCnt(ds: seq<Desc>): nat {
    if ds == [] then 0
    else if ds[|ds| - 1].more then (FragCnt(ds[..|ds| - 1]) + 1) % 256
    else 0
  }

  /** How many descriptors at the end of `ds` belong to a packet that goes on. */
  function Run(ds: seq<Desc>): nat {
    if ds == [] || !ds[|ds| - 1].more then 0 else Run(ds[..|ds| - 1]) + 1
  }

  /** The count says that a packet is in hand exactly when its fragments so far are not a multiple of 256. */
  lemma {:induction false} FragCntIsRun(ds: seq<Desc>)
    ensures FragCnt(ds) == Run(ds) % 256
    decreases |ds|
  {
    if ds == [] {
    } else {
      FragCntIsRun(ds[..|ds| - 1]);
      NextMod(Run(ds[..|ds| - 1]));
    }
  }

  /**
   The count tells a packet in hand from none, except when the packet in hand has
   a multiple of 256 fragments so far.
   */
  lemma CountTellsExactly(ds: seq<Desc>)
    ensures (FragCnt(ds) == 0 <==> Run(ds) == 0) <==> !(Run(ds) > 0 && Run(ds) % 256 == 0)
  {
    hide FragCnt, Run;
    FragCntIsRun(ds);
  }

  /** A packet that has not ended after 256 fragments looks finished. */
  lemma LongPacketLooksFinished(d: Desc)
    requires d.more
    ensures Run(seq(256, _ => d)) == 256 && FragCnt(seq(256, _ => d)) == 0
  {
    hide FragCnt, Run;
    RunOf(d, 256);
    FragCntIsRun(seq(256, _ => d));
  }

  lemma {:induction false} RunOf(d: Desc, n: nat)
    requires d.more
    ensures Run(seq(n, _ => d)) == n
  {
    if n == 0 {
    } else {
      RunOf(d, n - 1);
      assert seq(n, _ => d)[..n - 1] == seq(n - 1, _ => d);
    }
  }

  lemma NextMod(x: nat)
    ensures (x % 256 + 1) % 256 == (x + 1) % 256
  {
  }

  lemma StepKeepsDriver(s: State, w: Write)
    requires Sane(s)
    ensures var s' := Step(s, DevWrite(w.data, w.more));
      && s.stream <= s'.stream && s'.cnt == s.cnt && s'.scheme == s.scheme && s'.n == s.n && |s'.slots| == |s.slots|
      && s'.head == s.head && s'.want == s.want && s'.posted == s.posted
  {
    hide Mark, Index;
  }

  class PolledRing {
    const scheme: Scheme
    const slots: array<Desc>
    var head: nat
    var want: nat     // seqno, or cur_gen_bit
    var posted: nat   // buffers given to the device
    var written: nat  // descriptors the device has written

    // The state of the machine this ring is in.
    ghost var s: State

    ghost predicate Valid()
      reads this, slots
    {
      && scheme == s.scheme && slots[..] == s.slots && head == s.head && want == s.want
      && posted == s.posted && written == |s.stream|
      && Inv(s)
    }

    constructor (scheme: Scheme, n: nat)
      requires n > 0 && (scheme == Seqno ==> n % 7 != 0)
      ensures Valid() && fresh(slots) && s == Init(scheme, n)
    {
      this.scheme := scheme;
      slots := new Desc[n](_ => Desc(0, 0, false));
      head, want := 0, if scheme == Seqno then 1 else 0;
      posted, written := 0, 0;
      s := Init(scheme, n);
      new;
      InitInv(scheme, n);
      assert slots[..] == s.slots;
    }

    lemma Facts()
      requires Valid()
      ensures Sane(s) && slots.Length == s.n && head < slots.Length && s.cnt <= |s.stream|
    {
    }

    /** The device: one descriptor, if it has a buffer for it. */
    method DeviceWrite(w: Write)
      requires Valid()
      modifies `written, `s, slots
      ensures Valid() && Sane(old(s)) && s == Step(old(s), DevWrite(w.data, w.more))
    {
      hide Inv, Mark, Index;
      Facts();
      WriteKeepsInv(s, w.data, w.more);
      StepKeepsDriver(s, w);
      if written < posted {
        slots[Index(written, slots.Length)] := Desc(Mark(scheme, slots.Length, written), w.data, w.more);
        written := written + 1;
      }
      s := Step(s, DevWrite(w.data, w.more));
    }

    /** The device at work between two looks of the driver. */
    method DeviceWrites(ws: seq<Write>)
      requires Valid()
      modifies `written, `s, slots
      ensures Valid() && old(s).stream <= s.stream && s.cnt == old(s).cnt
      ensures ws == [] ==> s == old(s)
    {
      hide Inv, Step;
      for i := 0 to |ws|
        invariant Valid() && old(s).stream <= s.stream && s.cnt == old(s).cnt
        invariant i == 0 ==> s == old(s)
      {
        Facts();
        StepKeepsDriver(s, ws[i]);
        DeviceWrite(ws[i]);
      }
    }

    /** The driver posts one more buffer. */
    method GiveBuffer()
      requires Valid() && s.posted < s.cnt + s.n
      modifies `posted, `s
      ensures Valid() && s == old(s).(posted := old(s).posted + 1)
    {
      hide Inv;
      PostManyKeepsInv(s, 1);
      posted := posted + 1;
      s := s.(posted := s.posted + 1);
    }

    method IsReady() returns (ready: bool)
      requires Valid()
      ensures ready <==> s.cnt < |s.stream|
    {
      hide Inv;
      Facts();
      ReadyMeansWritten(s);
      var m := slots[head].mark;
      ready := if scheme == Seqno then m == want else m != want;
    }

    /** Take the descriptor at the head and move on. */
    method TakeOne() returns (d: Desc)
      requires Valid() && s.cnt < |s.stream|
      modifies `head, `want, `s
      ensures Valid() && Sane(old(s)) && s == Consume(old(s))
      ensures d == s.stream[old(s).cnt] && s.stream == old(s).stream && s.cnt == old(s).cnt + 1
    {
      hide Inv, NextSeqno;
      Facts();
      ReadyMeansWritten(s);
      PollKeepsInv(s);
      d := slots[head];
      head := Index(head + 1, slots.Length);
      if scheme == Seqno {
        want := NextSeqno(want);
      } else if head == 0 {
        want := if want == 0 then 1 else 0;
      }
      s := Consume(s);
    }

    /** One round of a polling loop: take a descriptor, and then the device may write more. */
    method TakeRound(ghost start: nat, taken: seq<Desc>, ws: seq<Write>) returns (taken': seq<Desc>, d: Desc)
      requires Valid() && s.cnt < |s.stream| && s.cnt == start + |taken| && taken == s.stream[start..s.cnt]
      modifies `head, `want, `written, `s, slots
      ensures Valid() && old(s).stream <= s.stream && s.cnt == old(s).cnt + 1 <= |s.stream|
      ensures taken' == taken + [d] == s.stream[start..s.cnt]
      ensures ws == [] ==> s.stream == old(s).stream
    {
      hide Inv, Consume;
      d := TakeOne();
      DeviceWrites(ws);
      Facts();
      taken' := taken + [d];
    }

    /**
     `gve_clean_rx_done`: over budget only while the count of fragments says that
     a packet is in hand, so it never leaves a packet of fewer than 256 fragments
     for the next call. `script` is what the device writes before the first look
     and after each round.
     */
    method CleanRxDone(budget: nat, script: seq<seq<Write>>) returns (taken: seq<Desc>)
      requires Valid()
      modifies `head, `want, `written, `s, slots
      ensures Valid() && old(s).stream <= s.stream && s.cnt == old(s).cnt + |taken| <= |s.stream|
      ensures taken == s.stream[old(s).cnt..s.cnt]
      ensures s.cnt < |s.stream| ==> |taken| >= budget && Run(taken) % 256 == 0
      ensures forall i :: budget <= i < |taken| ==> Run(taken[..i]) % 256 != 0
      ensures s.cnt < |s.stream| && Run(taken) < 256 ==> Run(taken) == 0
    {
      hide Inv, FragCnt, Run;
      ghost var start := s.cnt;
      var i, fragCnt: nat := 0, 0;
      taken := [];
      NoFrags();
      if |script| > 0 {
        DeviceWrites(script[0]);
        i := 1;
      }
      Facts();
      var ready := IsReady();
      while ready && (|taken| < budget || fragCnt != 0)
        invariant Valid() && old(s).stream <= s.stream && s.cnt == start + |taken| <= |s.stream|
        invariant ready <==> s.cnt < |s.stream|
        invariant taken == s.stream[start..s.cnt] && fragCnt == FragCnt(taken) && i <= |script|
        invariant forall j :: budget <= j < |taken| ==> FragCnt(taken[..j]) != 0
        decreases |script| - i, |s.stream| - s.cnt
      {
        ghost var before := taken;
        var d;
        taken, d := TakeRound(start, taken, if i < |script| then script[i] else []);
        NextFrag(before, d);
        fragCnt := if d.more then (fragCnt + 1) % 256 else 0;
        assert taken[..|before|] == before;
        forall j | budget <= j < |taken|
          ensures FragCnt(taken[..j]) != 0
        {
          if j < |before| { assert taken[..j] == before[..j]; }
        }
        if i < |script| {
          i := i + 1;
        }
        ready := IsReady();
      }
      FragCntIsRun(taken);
      forall j | budget <= j < |taken|
        ensures Run(taken[..j]) % 256 != 0
      {
        FragCntIsRun(taken[..j]);
      }
    }

    static lemma NoFrags()
      ensures FragCnt([]) == 0
    {
    }

    static lemma NextFrag(ds: seq<Desc>, d: Desc)
      ensures FragCnt(ds + [d]) == if d.more then (FragCnt(ds) + 1) % 256 else 0
    {
      assert (ds + [d])[..|ds|] == ds;
    }
  }
}
