/** Every run of sends and cleans keeps posted packets intact and the FIFO's books balanced. */
module TxFifoProofs {
  import opened Arith
  import opened Rings
  import opened Words
  import opened TxFifoSpec
  import opened TxFifoMath
  import opened TxFifoMemory

  // ----- The invariant ------------------------------------------------------------------------

  ghost predicate Accounts(s: State) {
    && Sane(s.cfg) && InBounds(s)
    && Aligned(s.cfg, s.pos, s.head)
    && s.available >= 0 && s.available % s.cfg.line == 0 && s.pending % s.cfg.line == 0
    && s.freed <= s.pos && s.available + s.pending == s.cfg.size - (s.pos - s.freed)
    && s.done <= s.req <= s.done + s.cfg.slots
    && (s.tx.Admitted? ==>
          && s.available > BytesRequired(s.cfg, s.head, s.tx.skb)
          && s.req + s.cfg.needed <= s.done + s.cfg.slots)
  }

  /** Packet `l` lies between what is freed and what is written, and is known to its slot. */
  ghost predicate Lies(s: State, l: Live)
    requires InBounds(s)
  {
    && s.freed <= l.start <= l.end <= s.pos && (l.end - l.start) % s.cfg.line == 0
    && s.done <= l.first && l.first + |l.descs| <= s.req && 0 < |l.descs|
    && var i := s.info[Index(l.first, s.cfg.slots)];
       i.Owner? && i.skb == l.skb && Space(i) == l.end - l.start
  }

  /** Where the packet behind packet `i` starts, or will start. */
  function NextStart(live: seq<Live>, i: nat, pos: nat): nat
    requires i < |live|
  {
    if i + 1 < |live| then live[i + 1].start else pos
  }

  /** The packets follow each other, in the FIFO without gaps. */
  ghost predicate InOrder(s: State) {
    && s.freed == (if s.live == [] then s.pos else s.live[0].start)
    && (forall i :: 0 <= i < |s.live| ==> s.live[i].end == NextStart(s.live, i, s.pos))
    && (forall i, j :: 0 <= i < j < |s.live| ==>
          s.live[i].end <= s.live[j].start && s.live[i].first + |s.live[i].descs| <= s.live[j].first)
  }

  ghost predicate Owned(s: State, x: nat) {
    exists i :: 0 <= i < |s.live| && s.cfg.slots > 0 && Index(s.live[i].first, s.cfg.slots) == x
  }

  ghost predicate Laid(s: State) {
    && InBounds(s) && InOrder(s)
    && (forall i :: 0 <= i < |s.live| ==> Lies(s, s.live[i]))
    && (forall x :: 0 <= x < s.cfg.slots && s.info[x].Owner? ==> Owned(s, x))
  }

  function Payload(c: Cfg, l: Live): seq<Iov>
    requires c.line > 0 && c.size > 0 && ValidSkb(l.skb)
  {
    Alloc(c, Slot(l.payAt, 0, c.size), |l.skb.data| - Hlen(l.skb)).iov
  }

  /** The packet's bytes are in the FIFO where its descriptors say. */
  ghost predicate Intact(c: Cfg, mem: seq<byte>, l: Live) {
    && c.line > 0 && c.size > 0 && |mem| == c.size && ValidSkb(l.skb)
    && l.start <= l.hdrAt && l.hdrAt + Hlen(l.skb) <= l.payAt && l.payAt + (|l.skb.data| - Hlen(l.skb)) <= l.end
    && Holds(mem, l.hdrAt, l.skb.data[..Hlen(l.skb)])
    && Holds(mem, l.payAt, l.skb.data[Hlen(l.skb)..])
    && Slot(l.hdrAt, 0, c.size) + Hlen(l.skb) <= c.size
    && Spells(Payload(c, l), l.payAt, |l.skb.data| - Hlen(l.skb), c.size)
    && l.descs == Descs(l.skb, Iov(Slot(l.hdrAt, 0, c.size), Hlen(l.skb), 0), Payload(c, l))
  }

  /** The ring holds the packet's descriptors. */
  ghost predicate Posted(desc: seq<Desc>, l: Live) {
    |desc| > 0 && forall i :: 0 <= i < |l.descs| ==> desc[Index(l.first + i, |desc|)] == l.descs[i]
  }

  ghost predicate Contents(s: State) {
    && InBounds(s)
    && (forall i :: 0 <= i < |s.live| ==> Intact(s.cfg, s.mem, s.live[i]))
    && (forall i :: 0 <= i < |s.live| ==> Posted(s.desc, s.live[i]))
  }

  /** All the space the slots have on record. */
  function Spaces(info: seq<Info>): seq<int> {
    seq(|info|, i requires 0 <= i < |info| => Space(info[i]))
  }

  ghost predicate Conserved(s: State) {
    s.available + s.pending + Sum(Spaces(s.info)) == s.cfg.size
  }

  // ----- Admission ------------------------------------------------------------------------------------

  /** The 32-bit counters give the exact number of free slots. */
  lemma AvailIsExact(slots: nat, req: nat, done: nat)
    requires slots < WRAP && done <= req <= done + slots
    ensures U32(slots - U32(U32(req) - U32(done))) == slots - (req - done)
  {
  }

  lemma CanTxMeans(s: State, bytes: nat)
    requires Accounts(s)
    ensures CanTx(s, bytes) <==> s.req + s.cfg.needed <= s.done + s.cfg.slots && s.available > bytes
  {
    hide U32, Fits, Aligned, BytesRequired, ValidSkb;
    AvailIsExact(s.cfg.slots, s.req, s.done);
  }

  lemma AdmitKeepsAccounts(s: State, p: Skb)
    requires Accounts(s)
    ensures Accounts(Step(s, Admit(p)))
  {
    hide Alloc, Align, Fits, Aligned, BytesRequired, CanTx, Hlen, ValidSkb;
    if s.tx == Idle && ValidSkb(p) && CanTx(s, BytesRequired(s.cfg, s.head, p)) {
      CanTxMeans(s, BytesRequired(s.cfg, s.head, p));
      AdmissionSuffices(s.cfg, s.pos, s.head, s.available, p);
    }
  }

  // ----- Sending ----------------------------------------------------------------------------------------

  /** What a send takes, in numbers. */
  lemma FillUses(s: State)
    requires Accounts(s) && s.tx.Admitted?
    ensures var (c, p) := (s.cfg, s.tx.skb);
      var h, g := HeaderGrant(c, s.head, p), PayloadGrant(c, s.head, p);
      && Hlen(p) + Pad(c, s.head, p) <= c.size
      && h.used == Pad(c, s.head, p) + Align(Hlen(p), c.line)
      && g.used == Align(|p.data| - Hlen(p), c.line)
      && h.used % c.line == 0 && g.used % c.line == 0
      && h.used + g.used <= s.available <= c.size
      && h.used + g.used == Space(Owner(p, h.iov + g.iov))
      && Aligned(c, s.pos + h.used, h.head) && Aligned(c, s.pos + h.used + g.used, g.head)
  {
    hide Align, Alloc, Aligned, Fits, SumSpace;
    var c, p := s.cfg, s.tx.skb;
    AdmissionSuffices(c, s.pos, s.head, s.available, p);
    HeaderUses(c, s.pos, s.head, p);
    HlenFacts(p);
    var h := HeaderGrant(c, s.head, p);
    AllocUses(c, s.pos + h.used, h.head, |p.data| - Hlen(p));
    AlignFacts(Hlen(p), c.line);
    AlignFacts(|p.data| - Hlen(p), c.line);
    SumSpaceAppend(h.iov, PayloadGrant(c, s.head, p).iov);
    PadAligned(c, s.pos, s.head, p);
    ModAddMultiples(Pad(c, s.head, p), Align(Hlen(p), c.line), c.line);
  }

  lemma PadAligned(c: Cfg, pos: nat, head: nat, p: Skb)
    requires Aligned(c, pos, head)
    ensures Pad(c, head, p) % c.line == 0
  {
    ModAddMultiples(c.size, head, c.line);
    ModIdem(0, c.line);
  }

  lemma FillKeepsAccounts(s: State)
    requires Accounts(s) && s.tx.Admitted?
    ensures Accounts(Fill(s))
  {
    hide Align, Alloc, Fits, Write, WriteAll, SumSpace, Space, BytesRequired, Index, Put;
    FillUses(s);
    var h, g := HeaderGrant(s.cfg, s.head, s.tx.skb), PayloadGrant(s.cfg, s.head, s.tx.skb);
    ModAddMultiples(h.used, g.used, s.cfg.line);
    ModAddMultiples(s.available, h.used + g.used, s.cfg.line);
  }

  lemma FillKeepsLaid(s: State)
    requires Accounts(s) && Laid(s) && s.tx.Admitted?
    ensures Accounts(Fill(s)) && Laid(Fill(s))
  {
    hide Align, Alloc, Fits, Write, WriteAll, SumSpace, Space, BytesRequired, Index, Put, Aligned, Laid, Hlen;
    FillKeepsAccounts(s);
    FillUses(s);
    var s' := Fill(s);
    var h, g := HeaderGrant(s.cfg, s.head, s.tx.skb), PayloadGrant(s.cfg, s.head, s.tx.skb);
    ModAddMultiples(h.used, g.used, s.cfg.line);
    PostKeepsLaid(s, s', s'.live[|s.live|], Owner(s.tx.skb, h.iov + g.iov));
  }

  /** A packet put behind the others, in a slot of its own. */
  lemma PostKeepsLaid(s: State, s': State, l: Live, i: Info)
    requires Laid(s) && InBounds(s') && s'.cfg == s.cfg && s'.live == s.live + [l]
    requires s'.info == s.info[Index(s.req, s.cfg.slots) := i] && s'.freed == s.freed && s'.done == s.done
    requires l.start == s.pos && l.end == s'.pos && l.first == s.req && s'.req == s.req + |l.descs|
    requires i.Owner? && i.skb == l.skb && Space(i) == l.end - l.start && (l.end - l.start) % s.cfg.line == 0
    requires 0 < |l.descs| && s.done <= s.req && s.req + |l.descs| <= s.done + s.cfg.slots && s.freed <= s.pos <= s'.pos
    ensures Laid(s')
  {
    hide Index, Space, Fits, InOrder;
    assert forall k :: 0 <= k < |s.live| ==> Lies(s, s.live[k]);
    FollowInOrder(s, s', l);
    forall k | 0 <= k < |s'.live|
      ensures Lies(s', s'.live[k])
    {
      if k < |s.live| {
        assert Lies(s, s.live[k]);
        IndexApart(s.live[k].first, s.req, s.cfg.slots);
      }
    }
    forall x | 0 <= x < s.cfg.slots && s'.info[x].Owner?
      ensures Owned(s', x)
    {
      if x == Index(s.req, s.cfg.slots) {
        assert s'.live[|s.live|].first == s.req;
      } else {
        assert Owned(s, x);
        var k :| 0 <= k < |s.live| && Index(s.live[k].first, s.cfg.slots) == x;
        assert s'.live[k] == s.live[k];
      }
    }
  }

  lemma FollowInOrder(s: State, s': State, l: Live)
    requires InOrder(s) && s'.live == s.live + [l] && s'.freed == s.freed && s'.pos == l.end
    requires l.start == s.pos && l.first == s.req
    requires forall i :: 0 <= i < |s.live| ==> s.live[i].end <= s.pos && s.live[i].first + |s.live[i].descs| <= s.req
    ensures InOrder(s')
  {
    forall i | 0 <= i < |s'.live|
      ensures s'.live[i].end == NextStart(s'.live, i, s'.pos)
    {
      if i < |s.live| {
        assert s'.live[i] == s.live[i];
        if i + 1 < |s.live| { assert s'.live[i + 1] == s.live[i + 1]; }
      }
    }
  }

  // ----- What a send writes ---------------------------------------------------------------------------------

  /** The new packet is in the FIFO, and the lap before it is untouched. */
  lemma FillWrites(s: State)
    requires Accounts(s) && s.tx.Admitted?
    ensures var s' := Fill(s);
      && Intact(s.cfg, s'.mem, s'.live[|s.live|])
      && (forall at: nat, data: seq<byte> {:trigger Holds(s'.mem, at, data)} ::
            Holds(s.mem, at, data) && s.freed <= at && at + |data| <= s.pos ==> Holds(s'.mem, at, data))
  {
    hide Align, Alloc, Aligned, Write, WriteAll, SumSpace, Space, BytesRequired, Index, Put, Slot;
    hide Holds, Untouched, Spells;
    var c, p, s' := s.cfg, s.tx.skb, Fill(s);
    var h, g := HeaderGrant(c, s.head, p), PayloadGrant(c, s.head, p);
    var hdr, l := h.iov[|h.iov| - 1], s'.live[|s.live|];
    FillUses(s);
    HlenFacts(p);
    AlignFacts(Hlen(p), c.line);
    AlignFacts(|p.data| - Hlen(p), c.line);
    HeaderIsContiguous(c, s.pos, s.head, p);
    SlotPlus(s.pos, Pad(c, s.head, p), c.size);
    AllocSpells(c, l.payAt, h.head, |p.data| - Hlen(p));
    HeadIs(c, l.payAt, h.head);
    FillMemory(s.mem, hdr, p, g.iov, l.hdrAt, l.payAt);
    forall at: nat, data: seq<byte> | Holds(s.mem, at, data) && s.freed <= at && at + |data| <= s.pos
      ensures Holds(s'.mem, at, data)
    {
      var mem1 := Write(s.mem, hdr.offset, p.data[..Hlen(p)]);
      HoldsFrame(s.mem, mem1, at, data, l.hdrAt, Hlen(p));
      HoldsFrame(mem1, s'.mem, at, data, l.payAt, |p.data| - Hlen(p));
    }
  }

  lemma SlotPlus(pos: nat, d: nat, size: nat)
    requires size > 0
    ensures Slot(pos, d, size) == Slot(pos + d, 0, size)
  {
  }

  lemma HeadIs(c: Cfg, pos: nat, head: nat)
    requires Aligned(c, pos, head)
    ensures head == Slot(pos, 0, c.size)
  {
  }

  lemma FillMemory(mem: seq<byte>, hdr: Iov, p: Skb, iov: seq<Iov>, hdrAt: nat, payAt: nat)
    requires |mem| > 0 && ValidSkb(p) && |iov| <= 2
    requires hdr.len == Hlen(p) && hdr.offset == Slot(hdrAt, 0, |mem|) && hdr.offset + hdr.len <= |mem|
    requires Spells(iov, payAt, |p.data| - Hlen(p), |mem|)
    requires hdrAt + Hlen(p) <= payAt && payAt + (|p.data| - Hlen(p)) <= hdrAt + |mem|
    ensures var mem1 := Write(mem, hdr.offset, p.data[..Hlen(p)]);
      var mem2 := WriteAll(mem1, iov, p.data[Hlen(p)..]);
      && Untouched(mem, mem1, hdrAt, Hlen(p)) && Untouched(mem1, mem2, payAt, |p.data| - Hlen(p))
      && Holds(mem2, hdrAt, p.data[..Hlen(p)]) && Holds(mem2, payAt, p.data[Hlen(p)..])
  {
    hide Slot, Holds, Untouched, Write, Hlen;
    HlenFacts(p);
    var h, r := p.data[..Hlen(p)], p.data[Hlen(p)..];
    OnePieceSpells(hdr, hdrAt, |mem|);
    var mem1 := Write(mem, hdr.offset, h);
    assert mem1 == WriteAll(mem, [hdr], h);
    WriteAllHolds(mem, [hdr], h, hdrAt);
    WriteAllUntouched(mem, [hdr], h, hdrAt);
    WriteAllHolds(mem1, iov, r, payAt);
    WriteAllUntouched(mem1, iov, r, payAt);
    HoldsFrame(mem1, WriteAll(mem1, iov, r), hdrAt, h, payAt, |r|);
  }

  lemma FillKeepsContents(s: State)
    requires Accounts(s) && Laid(s) && Contents(s) && s.tx.Admitted?
    ensures InBounds(Fill(s)) && Contents(Fill(s))
  {
    hide Align, Alloc, Aligned, Write, WriteAll, SumSpace, Space, BytesRequired, Index, Put, Slot, Intact, Posted, Fits;
    FillKeepsAccounts(s);
    FillWrites(s);
    var s' := Fill(s);
    forall i | 0 <= i < |s'.live|
      ensures Intact(s.cfg, s'.mem, s'.live[i]) && Posted(s'.desc, s'.live[i])
    {
      if i < |s.live| {
        assert Lies(s, s.live[i]) && s'.live[i] == s.live[i];
        OldStaysPosted(s, s.live[i]);
        OldStaysIntact(s, s', s.live[i]);
      } else {
        NewIsPosted(s);
      }
    }
  }

  lemma OldStaysIntact(s: State, s': State, l: Live)
    requires InBounds(s) && Intact(s.cfg, s.mem, l) && Lies(s, l) && |s'.mem| == |s.mem|
    requires forall at: nat, data: seq<byte> {:trigger Holds(s'.mem, at, data)} ::
      Holds(s.mem, at, data) && s.freed <= at && at + |data| <= s.pos ==> Holds(s'.mem, at, data)
    ensures Intact(s.cfg, s'.mem, l)
  {
    hide Alloc, Space, Slot, Holds, Spells, Fits;
    HlenFacts(l.skb);
  }

  lemma OldStaysPosted(s: State, l: Live)
    requires Accounts(s) && s.tx.Admitted? && Lies(s, l) && Posted(s.desc, l)
    ensures Posted(Fill(s).desc, l)
  {
    hide Align, Alloc, Aligned, Write, WriteAll, Space, BytesRequired, Index, Put, Slot, Fits;
    var ds := Fill(s).live[|s.live|].descs;
    forall i | 0 <= i < |l.descs|
      ensures Fill(s).desc[Index(l.first + i, |s.desc|)] == l.descs[i]
    {
      PutOld(s.desc, s.req, ds, l.first + i);
    }
  }

  lemma NewIsPosted(s: State)
    requires Accounts(s) && s.tx.Admitted?
    ensures Posted(Fill(s).desc, Fill(s).live[|s.live|])
  {
    hide Align, Alloc, Aligned, Write, WriteAll, Space, BytesRequired, Index, Put, Slot, Fits;
    var l := Fill(s).live[|s.live|];
    forall i | 0 <= i < |l.descs|
      ensures Fill(s).desc[Index(l.first + i, |s.desc|)] == l.descs[i]
    {
      PutNew(s.desc, s.req, l.descs, i);
    }
  }

  // ----- Cleaning ---------------------------------------------------------------------------------------

  /** The slot being cleaned belongs to the oldest packet, or to none. */
  lemma CleanedIsOldest(s: State)
    requires Accounts(s) && Laid(s) && s.done < s.req
    ensures var i := s.info[Index(s.done, s.cfg.slots)];
      && (i.Owner? ==> s.live != [] && s.live[0].first == s.done && Space(i) == s.live[0].end - s.live[0].start)
      && (i.NoSkb? ==> forall j :: 0 <= j < |s.live| ==> s.live[j].first > s.done)
  {
    hide Index, Space, Accounts, Fits, InOrder;
    RingFacts(s);
    OrderFacts(s);
    var x := Index(s.done, s.cfg.slots);
    if s.info[x].Owner? {
      assert Owned(s, x);
      var j :| 0 <= j < |s.live| && Index(s.live[j].first, s.cfg.slots) == x;
      assert Lies(s, s.live[j]) && Lies(s, s.live[0]);
      if s.live[j].first != s.done {
        IndexApart(s.done, s.live[j].first, s.cfg.slots);
      }
    } else {
      forall j | 0 <= j < |s.live|
        ensures s.live[j].first > s.done
      {
        assert Lies(s, s.live[j]);
      }
    }
  }

  lemma CleanKeepsAccounts(s: State)
    requires Accounts(s) && Laid(s) && s.done < s.req
    ensures Accounts(CleanOne(s))
  {
    hide Accounts, Laid, InOrder, Lies, Index, SumSpace, Fits;
    LaidBounds(s);
    CleanedSpace(s);
    CleanAccounts(s, CleanOne(s), Space(s.info[Index(s.done, s.cfg.slots)]));
  }

  lemma LaidBounds(s: State)
    requires Laid(s)
    ensures InBounds(s)
  {
  }

  /** What one slot gives back: whole cachelines, no more than is in use. */
  lemma CleanedSpace(s: State)
    requires Accounts(s) && Laid(s) && s.done < s.req
    ensures var space := Space(s.info[Index(s.done, s.cfg.slots)]);
      space % s.cfg.line == 0 && s.freed + space <= s.pos
  {
    hide Accounts, InOrder, Index, Fits;
    CleanedIsOldest(s);
    PosFacts(s);
    if s.info[Index(s.done, s.cfg.slots)].Owner? {
      assert Lies(s, s.live[0]);
    } else {
      ModIdem(0, s.cfg.line);
    }
  }

  lemma PosFacts(s: State)
    requires Accounts(s)
    ensures s.freed <= s.pos && s.cfg.line > 0
  {
  }

  lemma CleanAccounts(s: State, s': State, space: nat)
    requires Accounts(s) && s.done < s.req
    requires space % s.cfg.line == 0 && s.freed + space <= s.pos && |s'.info| == |s.info|
    requires s' == s.(done := s.done + 1, info := s'.info, pending := s.pending + space, freed := s.freed + space,
                      live := s'.live)
    ensures Accounts(s')
  {
    hide Sane, Aligned, Fits, BytesRequired, ValidSkb;
    PosFacts(s);
    ModAddMultiples(s.pending, space, s.cfg.line);
  }

  lemma CleanKeepsLaid(s: State)
    requires Accounts(s) && Laid(s) && s.done < s.req
    ensures Laid(CleanOne(s))
  {
    hide Index, Space, Aligned, Fits, BytesRequired, ValidSkb, Laid;
    CleanKeepsAccounts(s);
    CleanedIsOldest(s);
    if s.info[Index(s.done, s.cfg.slots)].Owner? {
      PopKeepsLaid(s);
    } else {
      LaidFrame(s, CleanOne(s));
    }
  }

  lemma PopKeepsLaid(s: State)
    requires Accounts(s) && Laid(s) && s.done < s.req && s.live != [] && s.live[0].first == s.done
    requires s.info[Index(s.done, s.cfg.slots)].Owner? && InBounds(CleanOne(s))
    ensures Laid(CleanOne(s))
  {
    hide Index, Space, Accounts, Fits, InOrder, Lies, Owned;
    var s' := CleanOne(s);
    assert Lies(s, s.live[0]);
    PopMovesFreed(s);
    PopInOrder(s, s');
    forall i | 0 <= i < |s'.live|
      ensures Lies(s', s'.live[i])
    {
      assert Lies(s, s.live[i + 1]);
      PopKeepsLies(s, i + 1);
    }
    forall y | 0 <= y < s.cfg.slots && s'.info[y].Owner?
      ensures Owned(s', y)
    {
      assert Owned(s, y);
      PopKeepsOwned(s, y);
    }
  }

  lemma PopMovesFreed(s: State)
    requires InBounds(s) && InOrder(s) && s.live != [] && Lies(s, s.live[0]) && s.live[0].first == s.done
    ensures CleanOne(s).freed == s.live[0].end
  {
    hide Index, Space, Fits;
  }

  lemma PopKeepsLies(s: State, i: nat)
    requires Accounts(s) && InBounds(s) && InOrder(s) && 0 < i < |s.live|
    requires Lies(s, s.live[0]) && s.live[0].first == s.done && Lies(s, s.live[i]) && InBounds(CleanOne(s))
    ensures Lies(CleanOne(s), s.live[i])
  {
    hide Index, Space, Accounts, Fits, InOrder;
    OrderFacts(s);
    RingFacts(s);
    IndexApart(s.done, s.live[i].first, s.cfg.slots);
  }

  lemma PopKeepsOwned(s: State, y: nat)
    requires InBounds(s) && y < s.cfg.slots && Owned(s, y) && s.live != [] && s.live[0].first == s.done
    requires InBounds(CleanOne(s)) && CleanOne(s).info[y].Owner?
    requires s.info[Index(s.done, s.cfg.slots)].Owner?
    ensures Owned(CleanOne(s), y)
  {
    hide Index, Space, Fits;
    var s' := CleanOne(s);
    var i :| 0 <= i < |s.live| && Index(s.live[i].first, s.cfg.slots) == y;
    assert i > 0;
    assert s'.live[i - 1] == s.live[i];
  }

  lemma RingFacts(s: State)
    requires Accounts(s)
    ensures s.req <= s.done + s.cfg.slots
  {
  }

  /** Steps that leave packets and slots alone. */
  lemma LaidFrame(s: State, s': State)
    requires Laid(s) && InBounds(s')
    requires s'.cfg == s.cfg && s'.info == s.info && s'.live == s.live
    requires s'.pos == s.pos && s'.freed == s.freed && s'.req == s.req
    requires forall i :: 0 <= i < |s.live| ==> s'.done <= s.live[i].first
    ensures Laid(s')
  {
    hide Index, Space, Fits, InOrder;
    SameOrder(s, s');
    forall i | 0 <= i < |s'.live|
      ensures Lies(s', s'.live[i])
    {
      assert Lies(s, s.live[i]);
    }
    forall x | 0 <= x < s.cfg.slots && s'.info[x].Owner?
      ensures Owned(s', x)
    {
      assert Owned(s, x);
      var i :| 0 <= i < |s.live| && Index(s.live[i].first, s.cfg.slots) == x;
      assert s'.live[i] == s.live[i];
    }
  }

  lemma OrderFacts(s: State)
    requires InOrder(s)
    ensures forall i :: 0 < i < |s.live| ==>
      s.live[0].end <= s.live[i].start && s.live[0].first + |s.live[0].descs| <= s.live[i].first
    ensures s.live != [] ==> s.live[0].start == s.freed
  {
  }

  lemma PopInOrder(s: State, s': State)
    requires InOrder(s) && s.live != [] && s'.live == s.live[1..] && s'.pos == s.pos && s'.freed == s.live[0].end
    ensures InOrder(s')
  {
    forall i | 0 <= i < |s'.live|
      ensures s'.live[i].end == NextStart(s'.live, i, s'.pos)
    {
      assert s'.live[i] == s.live[i + 1];
    }
  }

  lemma SameOrder(s: State, s': State)
    requires InOrder(s) && s'.live == s.live && s'.pos == s.pos && s'.freed == s.freed
    ensures InOrder(s')
  {
  }

  lemma CleanKeepsContents(s: State)
    requires Accounts(s) && Laid(s) && Contents(s) && s.done < s.req
    ensures Contents(CleanOne(s))
  {
    hide Index, Space, Aligned, Fits, BytesRequired, ValidSkb, Intact, Posted, InOrder;
    CleanedIsOldest(s);
    var s' := CleanOne(s);
    if s.info[Index(s.done, s.cfg.slots)].Owner? {
      assert forall i :: 0 <= i < |s'.live| ==> s'.live[i] == s.live[i + 1];
    }
  }

  // ----- Conservation -------------------------------------------------------------------------------------

  lemma SpacesUpdate(info: seq<Info>, x: nat, i: Info)
    requires x < |info|
    ensures Sum(Spaces(info[x := i])) == Sum(Spaces(info)) - Space(info[x]) + Space(i)
  {
    hide Space;
    assert Spaces(info[x := i]) == Spaces(info)[x := Space(i)];
    SumUpdate(Spaces(info), x, Space(i));
  }

  lemma NewSlotIsEmpty(s: State)
    requires Accounts(s) && Laid(s) && s.tx.Admitted?
    ensures s.info[Index(s.req, s.cfg.slots)].NoSkb?
  {
    hide Index, Space, Aligned, Fits, BytesRequired, ValidSkb, InOrder;
    var x := Index(s.req, s.cfg.slots);
    if s.info[x].Owner? {
      assert Owned(s, x);
      var i :| 0 <= i < |s.live| && Index(s.live[i].first, s.cfg.slots) == x;
      assert Lies(s, s.live[i]);
      IndexApart(s.live[i].first, s.req, s.cfg.slots);
    }
  }

  lemma FillConserves(s: State)
    requires Accounts(s) && Laid(s) && Conserved(s) && s.tx.Admitted?
    ensures Conserved(Fill(s))
  {
    hide Align, Alloc, Aligned, Fits, Write, WriteAll, SumSpace, BytesRequired, Index, Put, Laid, Spaces, Sum;
    NewSlotIsEmpty(s);
    FillUses(s);
    var h, g := HeaderGrant(s.cfg, s.head, s.tx.skb), PayloadGrant(s.cfg, s.head, s.tx.skb);
    SpacesUpdate(s.info, Index(s.req, s.cfg.slots), Owner(s.tx.skb, h.iov + g.iov));
  }

  lemma CleanConserves(s: State)
    requires InBounds(s) && Conserved(s)
    ensures Conserved(CleanOne(s))
  {
    hide Fits, Index, SumSpace, Spaces, Sum;
    SpacesUpdate(s.info, Index(s.done, s.cfg.slots), NoSkb);
  }

  // ----- Runs -------------------------------------------------------------------------------------------------

  ghost predicate Inv(s: State) {
    Accounts(s) && Laid(s) && Contents(s) && Conserved(s)
  }

  lemma FirstsAfterDone(s: State)
    requires Laid(s)
    ensures forall i :: 0 <= i < |s.live| ==> s.done <= s.live[i].first
  {
    hide Index, Space, Fits, InOrder;
    assert forall i :: 0 <= i < |s.live| ==> Lies(s, s.live[i]);
  }

  lemma AdmitKeepsRest(s: State, p: Skb)
    requires Inv(s) && InBounds(Step(s, Admit(p)))
    ensures var s' := Step(s, Admit(p)); Laid(s') && Contents(s') && Conserved(s')
  {
    hide Laid, Fits, BytesRequired, ValidSkb, Intact, Posted, Sum, CanTx, Aligned;
    FirstsAfterDone(s);
    LaidFrame(s, Step(s, Admit(p)));
  }

  lemma FreeKeepsInv(s: State)
    requires Inv(s)
    ensures Inv(Step(s, FreeFifo))
  {
    hide Laid, Fits, BytesRequired, ValidSkb, Intact, Posted, Sum, Aligned;
    FirstsAfterDone(s);
    LaidFrame(s, Step(s, FreeFifo));
    ModAddMultiples(s.available, s.pending, s.cfg.line);
    ModIdem(0, s.cfg.line);
  }

  lemma StepKeepsInv(s: State, a: Action)
    requires Inv(s)
    ensures InBounds(s) && Inv(Step(s, a)) && Step(s, a).cfg == s.cfg
  {
    hide Laid, Contents, Conserved, CanTx, Fits, BytesRequired, Aligned, Sane;
    match a
    case Admit(p) =>
      AdmitKeepsAccounts(s, p);
      AdmitKeepsRest(s, p);
    case Send =>
      if s.tx.Admitted? {
        FillKeepsLaid(s);
        FillKeepsContents(s);
        FillConserves(s);
      }
    case Clean =>
      if s.done < s.req {
        CleanKeepsAccounts(s);
        CleanKeepsLaid(s);
        CleanKeepsContents(s);
        CleanConserves(s);
      }
    case FreeFifo => FreeKeepsInv(s);
  }

  ghost function Exec(s: State, actions: seq<Action>): (r: State)
    requires Inv(s)
    ensures Inv(r) && r.cfg == s.cfg
  {
    if actions == [] then s
    else
      var s' := Exec(s, actions[..|actions| - 1]);
      StepKeepsInv(s', actions[|actions| - 1]);
      Step(s', actions[|actions| - 1])
  }

  lemma InitInv(c: Cfg, mem: seq<byte>, desc: seq<Desc>)
    requires Sane(c) && |mem| == c.size && |desc| == c.slots
    ensures Inv(Init(c, mem, desc))
  {
    var s := Init(c, mem, desc);
    ModIdem(0, c.line);
    ModIdem(0, c.size);
    SumOfZeros(Spaces(s.info));
  }

  /** The device's view: the first descriptor says how many belong to the packet. */
  function ReadPacket(s: State, first: nat): seq<byte>
    requires InBounds(s)
  {
    var d := s.desc[Index(first, s.cfg.slots)];
    if !d.PktDesc? then []
    else FetchAll(s.mem, seq(d.count, i requires i >= 0 => s.desc[Index(first + i, s.cfg.slots)]))
  }

  /** Header and payload pieces all fit the 16-bit length fields of their descriptors. */
  predicate Describable(c: Cfg, l: Live)
    requires c.line > 0 && c.size > 0 && ValidSkb(l.skb)
  {
    (l.skb.gso ==> l.skb.hdr <= MAX_U16) && Short(Payload(c, l))
  }

  /**
   Reading a packet not yet cleaned out of the FIFO gives its bytes exactly when
   its pieces fit their length fields, as those of any packet of up to 65535
   bytes do. The first descriptor holds the headers of a segmented packet, and the
   first 182 bytes of any other, or all of it.
   */
  lemma PostedPacketsReadBack(c: Cfg, mem: seq<byte>, desc: seq<Desc>, actions: seq<Action>, i: nat)
    requires Sane(c) && |mem| == c.size && |desc| == c.slots
    ensures Inv(Init(c, mem, desc))
    ensures var s := Exec(Init(c, mem, desc), actions);
      InBounds(s) && (i < |s.live| ==> ValidSkb(s.live[i].skb) && ReadBack(s, s.live[i]))
  {
    hide Accounts, Laid, Conserved, ReadBack;
    InitInv(c, mem, desc);
    var s := Exec(Init(c, mem, desc), actions);
    assert InBounds(s) by { BoundsOf(s); }
    if i < |s.live| {
      ReadsBack(s, s.live[i]);
    }
  }

  /** What the device sees of packet `l`. */
  ghost predicate ReadBack(s: State, l: Live)
    requires InBounds(s) && ValidSkb(l.skb)
  {
    var d := s.desc[Index(l.first, s.cfg.slots)];
    && (ReadPacket(s, l.first) == l.skb.data <==> Describable(s.cfg, l))
    && (|l.skb.data| <= MAX_U16 ==> Describable(s.cfg, l))
    && d.PktDesc? && d.count == |l.descs|
    && (l.skb.l4hash ==> s.desc[Index(l.first + 1, s.cfg.slots)].MtdDesc?)
    && d.len == U16(|l.skb.data|) && (d.len == |l.skb.data| <==> |l.skb.data| <= MAX_U16)
    && (l.skb.gso && l.skb.hdr <= 65535 ==> FirstHolds(s.mem, d, l.skb.data, l.skb.hdr))
    && (!l.skb.gso ==> FirstHolds(s.mem, d, l.skb.data, if |l.skb.data| < 182 then |l.skb.data| else 182))
  }

  /** The first descriptor is over the first `n` bytes of the packet, in one piece. */
  predicate FirstHolds(mem: seq<byte>, d: Desc, data: seq<byte>, n: nat) {
    d.PktDesc? && n <= |data| && d.segLen == n && Fetch(mem, d) == data[..n]
  }

  lemma BoundsOf(s: State)
    requires Contents(s)
    ensures InBounds(s)
  {
  }

  lemma ReadsBack(s: State, l: Live)
    requires InBounds(s) && Intact(s.cfg, s.mem, l) && Posted(s.desc, l)
    ensures ReadBack(s, l)
  {
    hide Alloc, Slot, Holds, Spells, Fits, FetchAll, SegDescs, Hlen, Index, Short, U16;
    HeaderLength(l.skb);
    var hdr := Iov(Slot(l.hdrAt, 0, s.cfg.size), Hlen(l.skb), 0);
    var iov := Payload(s.cfg, l);
    HlenFacts(l.skb);
    SpellsTotal(iov, l.payAt, |l.skb.data| - Hlen(l.skb), s.cfg.size);
    if Describable(s.cfg, l) {
      FetchPacket(s.mem, l.skb, hdr, iov, l.hdrAt, l.payAt);
    } else {
      FetchFallsShort(s.mem, l.skb, hdr, iov);
    }
    HeaderSlice(s.mem, l.skb, hdr.offset, l.hdrAt);
    U16Facts(Hlen(l.skb));
    U16Facts(|l.skb.data|);
    assert s.desc[Index(l.first + 0, |s.desc|)] == l.descs[0];
    if l.skb.l4hash {
      assert s.desc[Index(l.first + 1, |s.desc|)] == l.descs[1];
    }
    assert seq(|l.descs|, i requires i >= 0 => s.desc[Index(l.first + i, s.cfg.slots)]) == l.descs;
  }

  lemma HeaderLength(p: Skb)
    requires ValidSkb(p)
    ensures Hlen(p) == if p.gso then p.hdr else if |p.data| < 182 then |p.data| else 182
  {
  }

  lemma SpellsTotal(iov: seq<Iov>, pos: nat, bytes: nat, size: nat)
    requires size > 0 && |iov| <= 2 && Spells(iov, pos, bytes, size)
    ensures Total(iov) == bytes && (bytes <= MAX_U16 ==> Short(iov))
  {
    hide Slot;
  }

  /** On an empty FIFO of 256 KiB: a packet of 70000 bytes has a payload in one piece, too long for its field. */
  lemma LongPacketReadsShort(p: Skb, mem: seq<byte>, desc: seq<Desc>)
    requires |p.data| == 70000 && !p.gso && |mem| == 0x40000 && |desc| == 1024
    ensures Inv(Init(LongCfg(), mem, desc))
    ensures var s := Exec(Init(LongCfg(), mem, desc), [Admit(p), Send]);
      && InBounds(s) && |s.live| == 1 && s.live[0].skb == p
      && ReadPacket(s, s.live[0].first) != p.data
  {
    hide Inv, ReadPacket, Exec, Step;
    var c := LongCfg();
    var s0 := Init(c, mem, desc);
    InitInv(c, mem, desc);
    RunOfTwo(s0, Admit(p), Send);
    LongPacketIsSent(p, mem, desc);
    PostedPacketsReadBack(c, mem, desc, [Admit(p), Send], 0);
  }

  function LongCfg(): Cfg {
    Cfg(0x40000, 64, 1024, 21)
  }

  lemma RunOfTwo(s: State, a: Action, b: Action)
    requires Inv(s)
    ensures InBounds(s) && InBounds(Step(s, a)) && Exec(s, [a, b]) == Step(Step(s, a), b)
  {
    hide Inv, Step;
    StepKeepsInv(s, a);
    StepKeepsInv(Step(s, a), b);
    assert [a, b][..1] == [a] && [a][..0] == [];
    assert Exec(s, []) == s;
    assert Exec(s, [a]) == Step(s, a);
  }

  lemma LongPacketIsSent(p: Skb, mem: seq<byte>, desc: seq<Desc>)
    requires |p.data| == 70000 && !p.gso && |mem| == 0x40000 && |desc| == 1024
    requires InBounds(Init(LongCfg(), mem, desc)) && InBounds(Step(Init(LongCfg(), mem, desc), Admit(p)))
    ensures var s := Step(Step(Init(LongCfg(), mem, desc), Admit(p)), Send);
      && |s.live| == 1 && s.live[0].skb == p && s.cfg == LongCfg() && ValidSkb(p)
      && !Describable(s.cfg, s.live[0])
  {
    hide Alloc, WriteAll, Descs, CanTx, BytesRequired, Put, Slot;
    LongPacketIsAdmitted(p, mem, desc);
    LongPacketPieces(p);
    var l := Step(Step(Init(LongCfg(), mem, desc), Admit(p)), Send).live[0];
    assert l.payAt == 192;
    assert Payload(LongCfg(), l)[0].len > MAX_U16;
  }

  lemma LongPacketIsAdmitted(p: Skb, mem: seq<byte>, desc: seq<Desc>)
    requires |p.data| == 70000 && !p.gso && |mem| == 0x40000 && |desc| == 1024
    ensures ValidSkb(p) && CanTx(Init(LongCfg(), mem, desc), BytesRequired(LongCfg(), 0, p))
  {
  }

  /** The header ends within the third cacheline, and the payload follows in one piece. */
  lemma LongPacketPieces(p: Skb)
    requires |p.data| == 70000 && !p.gso
    ensures HeaderGrant(LongCfg(), 0, p).used == 192
    ensures Alloc(LongCfg(), Slot(192, 0, 0x40000), 70000 - Hlen(p)).iov == [Iov(192, 69818, 6)]
  {
  }

  /** A packet is admitted exactly when there are slots for any packet's descriptors and more than enough bytes. */
  lemma AdmitEffect(s: State, p: Skb)
    requires Inv(s) && s.tx == Idle && ValidSkb(p)
    ensures InBounds(s)
    ensures Step(s, Admit(p)).tx == Admitted(p)
      <==> s.req - s.done + s.cfg.needed <= s.cfg.slots && s.available > BytesRequired(s.cfg, s.head, p)
  {
    hide Laid, Contents, Conserved, CanTx, BytesRequired, Fits;
    CanTxMeans(s, BytesRequired(s.cfg, s.head, p));
  }

  // ----- What was sent ----------------------------------------------------------------------------------

  /** A packet handed to the ring, with the slot it starts at. */
  datatype Entry = Entry(first: nat, skb: Skb)

  /** The packets sent in a run: every one admitted, when it is filled in. */
  ghost function SentIn(s: State, actions: seq<Action>): seq<Entry>
    requires Inv(s)
  {
    if actions == [] then []
    else
      var (front, last) := (actions[..|actions| - 1], actions[|actions| - 1]);
      var r := Exec(s, front);
      SentIn(s, front) + if last.Send? && r.tx.Admitted? then [Entry(r.req, r.tx.skb)] else []
  }

  /** All but the first `k` packets sent are in the ring; the slots of those `k` are cleaned. */
  ghost predicate Logged(s: State, log: seq<Entry>, k: nat) {
    && |s.live| + k == |log|
    && (forall i :: 0 <= i < |s.live| ==> s.live[i].first == log[k + i].first && s.live[i].skb == log[k + i].skb)
    && (forall i :: 0 <= i < k ==> log[i].first < s.done)
  }

  lemma FillLogs(s: State, log: seq<Entry>, k: nat)
    requires InBounds(s) && s.tx.Admitted? && Logged(s, log, k)
    ensures Logged(Fill(s), log + [Entry(s.req, s.tx.skb)], k)
  {
    hide Alloc, WriteAll, Descs, Put, Hlen;
  }

  lemma CleanLogs(s: State, log: seq<Entry>, k: nat)
    requires Inv(s) && s.done < s.req && Logged(s, log, k)
    ensures InBounds(s)
    ensures Logged(CleanOne(s), log, if s.live != [] && s.live[0].first == s.done then k + 1 else k)
  {
    hide Contents, Conserved, Laid, Index, Space, Accounts, Logged;
    LaidBounds(s);
    CleanedIsOldest(s);
    if s.info[Index(s.done, s.cfg.slots)].NoSkb? {
      if s.live != [] {
        assert s.live[0].first > s.done;
      }
      LaterLogged(s, CleanOne(s), log, k);
    } else {
      PopLogged(s, CleanOne(s), log, k);
    }
  }

  lemma LaterLogged(s: State, s': State, log: seq<Entry>, k: nat)
    requires Logged(s, log, k) && s'.live == s.live && s'.done == s.done + 1
    ensures Logged(s', log, k)
  {
  }

  lemma PopLogged(s: State, s': State, log: seq<Entry>, k: nat)
    requires Logged(s, log, k) && s.live != [] && s.live[0].first == s.done
    requires s'.live == s.live[1..] && s'.done == s.done + 1
    ensures Logged(s', log, k + 1)
  {
    assert log[k].first == s.live[0].first;
  }

  /**
   Over every run the packets in the ring are the ones sent and not cleaned, in the
   order they were sent: the first `k` are gone, and their slots are cleaned; every
   other one is there, and its slots are not.
   */
  lemma {:induction false} SentPacketsAreThere(c: Cfg, mem: seq<byte>, desc: seq<Desc>, actions: seq<Action>)
    returns (k: nat)
    requires Sane(c) && |mem| == c.size && |desc| == c.slots
    ensures Inv(Init(c, mem, desc))
    ensures var s := Exec(Init(c, mem, desc), actions);
      && Logged(s, SentIn(Init(c, mem, desc), actions), k)
      && (forall i :: 0 <= i < |s.live| ==> s.done <= s.live[i].first)
    decreases |actions|
  {
    hide Inv, Step, Logged;
    var s0 := Init(c, mem, desc);
    InitInv(c, mem, desc);
    if actions == [] {
      k := 0;
      NothingLogged(s0);
    } else {
      var front, last := actions[..|actions| - 1], actions[|actions| - 1];
      k := SentPacketsAreThere(c, mem, desc, front);
      k := StepLogs(Exec(s0, front), SentIn(s0, front), k, last);
    }
    InvLaid(Exec(s0, actions));
    FirstsAfterDone(Exec(s0, actions));
  }

  lemma NothingLogged(s: State)
    requires s.live == []
    ensures Logged(s, [], 0)
  {
  }

  lemma InvLaid(s: State)
    requires Inv(s)
    ensures Laid(s)
  {
    hide Laid, Contents, Conserved, Accounts;
  }

  lemma StepLogs(s: State, log: seq<Entry>, k: nat, a: Action) returns (k': nat)
    requires Inv(s) && Logged(s, log, k)
    ensures InBounds(s)
    ensures Logged(Step(s, a), log + (if a.Send? && s.tx.Admitted? then [Entry(s.req, s.tx.skb)] else []), k')
  {
    hide Inv, Logged, Fill, CleanOne, CanTx, BytesRequired;
    StepKeepsInv(s, a);
    assert log + [] == log;
    k' := k;
    match a
    case Admit(p) => SameLogged(s, Step(s, a), log, k);
    case Send => if s.tx.Admitted? { FillLogs(s, log, k); }
    case Clean =>
      if s.done < s.req {
        CleanLogs(s, log, k);
        k' := if s.live != [] && s.live[0].first == s.done then k + 1 else k;
      }
    case FreeFifo => SameLogged(s, Step(s, a), log, k);
  }

  lemma SameLogged(s: State, s': State, log: seq<Entry>, k: nat)
    requires Logged(s, log, k) && s'.live == s.live && s'.done == s.done
    ensures Logged(s', log, k)
  {
  }

  /** The space available, being freed and on record always adds up, and is never overdrawn. */
  lemma FifoIsConserved(c: Cfg, mem: seq<byte>, desc: seq<Desc>, actions: seq<Action>)
    requires Sane(c) && |mem| == c.size && |desc| == c.slots
    ensures Inv(Init(c, mem, desc))
    ensures var s := Exec(Init(c, mem, desc), actions);
      && s.available >= 0
      && s.available + s.pending + Sum(Spaces(s.info)) == c.size
      && (s.done == s.req && s.pending == 0 ==> s.available == c.size)
      && s.done <= s.req <= s.done + c.slots
  {
    hide Contents, Spaces, Sum, Index, Fits, Aligned, BytesRequired;
    InitInv(c, mem, desc);
    var s := Exec(Init(c, mem, desc), actions);
    if s.live != [] {
      assert Lies(s, s.live[0]);
    }
  }
}
