/** What FIFO allocations mean in terms of an unbounded byte stream laid round the FIFO. */
module TxFifoMath {
  import opened Arith
  import opened Words
  import opened TxFifoSpec

  // ----- Alignment --------------------------------------------------------------------------

  lemma AlignFacts(x: nat, line: nat)
    requires line > 0
    ensures x <= Align(x, line) < x + line
    ensures Align(x, line) % line == 0
  {
    var q := (x + line - 1) / line;
    assert x + line - 1 == q * line + (x + line - 1) % line;
    DivModUnique(q * line, line, q, 0);
  }

  lemma ModAddMultiples(a: int, b: int, line: nat)
    requires line > 0 && a % line == 0 && b % line == 0
    ensures (a + b) % line == 0 && (a - b) % line == 0
  {
    assert a == a / line * line && b == b / line * line;
    DivModUnique(a + b, line, a / line + b / line, 0);
    DivModUnique(a - b, line, a / line - b / line, 0);
  }

  /** Multiples of a cacheline are that far apart. */
  lemma MultiplesApart(a: int, b: int, line: nat)
    requires line > 0 && a % line == 0 && b % line == 0 && a < b + line
    ensures a <= b
  {
    var d := a - b;
    ModAddMultiples(a, b, line);
    if d > 0 {
      ModIdem(d, line);
    }
  }

  lemma AlignLeast(x: nat, m: int, line: nat)
    requires line > 0 && m % line == 0 && x <= m
    ensures Align(x, line) <= m
  {
    AlignFacts(x, line);
    MultiplesApart(Align(x, line), m, line);
  }

  lemma AlignIs(x: nat, m: nat, line: nat)
    requires line > 0 && m % line == 0 && x <= m < x + line
    ensures Align(x, line) == m
  {
    AlignFacts(x, line);
    AlignLeast(x, m, line);
    MultiplesApart(m, Align(x, line), line);
  }

  lemma AlignShift(a: nat, x: nat, line: nat)
    requires line > 0 && a % line == 0
    ensures Align(a + x, line) == a + Align(x, line)
  {
    AlignFacts(x, line);
    ModAddMultiples(a, Align(x, line), line);
    AlignIs(a + x, a + Align(x, line), line);
  }

  lemma AlignBack(a: nat, x: nat, line: nat)
    requires line > 0 && a % line == 0 && a <= x
    ensures Align(x, line) == a + Align(x - a, line)
  {
    AlignShift(a, x - a, line);
  }

  // ----- Positions ----------------------------------------------------------------------------

  /** Advancing by at most one lap. */
  lemma Advance(pos: nat, d: nat, size: nat)
    requires size > 0 && d <= size
    ensures Slot(pos, d, size) == if pos % size + d < size then pos % size + d else pos % size + d - size
  {
    if d < size {
      ModAdd(pos, d, size);
    } else {
      ModShift(pos, 1, size);
    }
  }

  /** Positions less than a lap apart are different bytes. */
  lemma Apart(x: nat, y: nat, size: nat)
    requires size > 0 && x < y < x + size
    ensures x % size != y % size
  {
    SlotsDiffer(x, y, size);
  }

  // ----- One allocation ---------------------------------------------------------------------------

  /** The pieces spell out the next `bytes` positions of the stream. */
  ghost predicate Spells(iov: seq<Iov>, pos: nat, bytes: nat, size: nat)
    requires size > 0 && |iov| <= 2
  {
    && Total(iov) == bytes
    && (forall i :: 0 <= i < |iov| ==> iov[i].offset + iov[i].len <= size)
    && (|iov| >= 1 ==> forall k :: 0 <= k < iov[0].len ==> Slot(pos, k, size) == iov[0].offset + k)
    && (|iov| == 2 ==> forall k :: iov[0].len <= k < bytes ==> Slot(pos, k, size) == iov[1].offset + (k - iov[0].len))
  }

  ghost predicate Aligned(c: Cfg, pos: nat, head: nat) {
    Sane(c) && pos % c.line == 0 && head == pos % c.size && head % c.line == 0
  }

  lemma AllocSpells(c: Cfg, pos: nat, head: nat, bytes: nat)
    requires Aligned(c, pos, head) && bytes <= c.size
    ensures Spells(Alloc(c, head, bytes).iov, pos, bytes, c.size)
  {
    hide Align, Slot;
    var g := Alloc(c, head, bytes);
    forall k | 0 <= k < bytes
      ensures Slot(pos, k, c.size) == if head + k < c.size then head + k else head + k - c.size
    {
      Advance(pos, k, c.size);
    }
  }

  /** Rounding up commutes with going round. */
  lemma AlignedEnd(c: Cfg, head: nat, bytes: nat)
    requires Sane(c) && head % c.line == 0 && head < c.size && bytes <= c.size
    ensures Align(bytes, c.line) <= c.size
    ensures head + bytes > c.size ==>
      Align(head + bytes - c.size, c.line) == head + Align(bytes, c.line) - c.size
    ensures head + bytes <= c.size ==> Align(head + bytes, c.line) == head + Align(bytes, c.line) <= c.size
  {
    hide Align;
    AlignLeast(bytes, c.size, c.line);
    if head + bytes > c.size {
      ModAddMultiples(c.size, head, c.line);
      AlignBack(c.size - head, bytes, c.line);
    } else {
      AlignShift(head, bytes, c.line);
      AlignLeast(head + bytes, c.size, c.line);
    }
  }

  /** The head after an allocation is where the stream has got to. */
  lemma HeadMoves(c: Cfg, pos: nat, head: nat, used: nat, head': nat)
    requires Aligned(c, pos, head) && used <= c.size && used % c.line == 0
    requires head' == if head + used < c.size then head + used else head + used - c.size
    ensures Aligned(c, pos + used, head')
  {
    Advance(pos, used, c.size);
    ModAddMultiples(pos, used, c.line);
    ModAddMultiples(head, used, c.line);
    if head + used >= c.size {
      ModAddMultiples(head + used, c.size, c.line);
    }
  }

  /** An allocation takes the bytes rounded up to a cacheline, and the head goes on from there. */
  lemma AllocUses(c: Cfg, pos: nat, head: nat, bytes: nat)
    requires Aligned(c, pos, head) && bytes <= c.size
    ensures var g := Alloc(c, head, bytes);
      && g.used == Align(bytes, c.line) <= c.size && g.used == SumSpace(g.iov)
      && Aligned(c, pos + g.used, g.head)
  {
    hide Align, Aligned, SumSpace;
    AlignedFacts(c, pos, head);
    var g := Alloc(c, head, bytes);
    if bytes == 0 {
      AlignIs(0, 0, c.line);
      NoSpace();
    } else {
      AlignedEnd(c, head, bytes);
      AlignFacts(bytes, c.line);
      HeadMoves(c, pos, head, Align(bytes, c.line), g.head);
      SpaceOf(g.iov);
    }
  }

  lemma AlignedFacts(c: Cfg, pos: nat, head: nat)
    requires Aligned(c, pos, head)
    ensures Sane(c) && head % c.line == 0 && head < c.size && 0 % c.line == 0
  {
    ModIdem(0, c.line);
  }

  lemma NoSpace()
    ensures SumSpace([]) == 0
  {
  }

  lemma SpaceOf(iov: seq<Iov>)
    requires 1 <= |iov| <= 2
    ensures |iov| == 1 ==> SumSpace(iov) == iov[0].len + iov[0].padding
    ensures |iov| == 2 ==> SumSpace(iov) == iov[0].len + iov[0].padding + iov[1].len + iov[1].padding
  {
    assert SumSpace(iov[1..]) == if |iov| == 1 then 0 else iov[1].len + iov[1].padding + SumSpace(iov[1..][1..]);
  }

  lemma {:induction false} SumSpaceAppend(a: seq<Iov>, b: seq<Iov>)
    ensures SumSpace(a + b) == SumSpace(a) + SumSpace(b)
  {
    if a == [] {
      assert a + b == b;
    } else {
      SumSpaceAppend(a[1..], b);
      assert (a + b)[1..] == a[1..] + b;
    }
  }

  // ----- One packet -------------------------------------------------------------------------------

  function Pad(c: Cfg, head: nat, p: Skb): nat
    requires head <= c.size
  {
    PadAllocOneFrag(c.size, head, Hlen(p))
  }

  lemma HlenFacts(p: Skb)
    requires ValidSkb(p)
    ensures 0 < Hlen(p) <= |p.data|
  {
  }

  /**
   The header of a segmented packet, or the first 182 bytes of another, gets one
   piece, right after the padding; there is padding only if it would reach the end
   of the FIFO.
   */
  lemma HeaderIsContiguous(c: Cfg, pos: nat, head: nat, p: Skb)
    requires Aligned(c, pos, head) && ValidSkb(p) && Hlen(p) + Pad(c, head, p) <= c.size
    ensures var h, pad := HeaderGrant(c, head, p), Pad(c, head, p);
      && |h.iov| > 0
      && var hdr := h.iov[|h.iov| - 1];
         && hdr.offset == Slot(pos, pad, c.size) && hdr.len == Hlen(p) && hdr.offset + hdr.len <= c.size
         && hdr.len == (if p.gso then p.hdr else if |p.data| < 182 then |p.data| else 182)
         && pad == (if head + hdr.len < c.size then 0 else c.size - head)
         && (forall i :: 0 <= i < |h.iov| ==> h.iov[i].offset + h.iov[i].len <= c.size)
  {
    hide Align;
    HlenFacts(p);
    Advance(pos, Pad(c, head, p), c.size);
    ModIdem(0, c.size);
    AlignFacts(if head + Hlen(p) < c.size then head + Hlen(p) else Hlen(p), c.line);
  }

  /** The header allocation takes the padding and the header rounded up. */
  lemma HeaderUses(c: Cfg, pos: nat, head: nat, p: Skb)
    requires Aligned(c, pos, head) && ValidSkb(p) && Hlen(p) + Pad(c, head, p) <= c.size
    ensures var h := HeaderGrant(c, head, p);
      && h.used == Pad(c, head, p) + Align(Hlen(p), c.line)
      && h.used == SumSpace(h.iov)
      && Aligned(c, pos + h.used, h.head)
  {
    hide Align, Alloc;
    var pad := Pad(c, head, p);
    AllocUses(c, pos, head, Hlen(p) + pad);
    if pad > 0 { ModAddMultiples(c.size, head, c.line); } else { ModIdem(0, c.line); }
    AlignShift(pad, Hlen(p), c.line);
  }

  /**
   Admission is enough: with more than the required bytes available, and
   everything in whole cachelines, both allocations fit with their paddings. What
   it asks for is within a cacheline of what they use.
   */
  lemma AdmissionSuffices(c: Cfg, pos: nat, head: nat, available: int, p: Skb)
    requires Aligned(c, pos, head) && ValidSkb(p)
    requires available % c.line == 0 && available <= c.size
    requires available > BytesRequired(c, head, p)
    ensures Hlen(p) + Pad(c, head, p) <= c.size && Fits(c, head, p)
    ensures HeaderGrant(c, head, p).used + PayloadGrant(c, head, p).used <= available
    ensures var used := HeaderGrant(c, head, p).used + PayloadGrant(c, head, p).used;
      BytesRequired(c, head, p) <= used < BytesRequired(c, head, p) + c.line
  {
    hide Align, Alloc;
    var pad, rest := Pad(c, head, p), |p.data| - Hlen(p);
    HlenFacts(p);
    AlignFacts(Hlen(p), c.line);
    HeaderUses(c, pos, head, p);
    HeaderIsContiguous(c, pos, head, p);
    var h := HeaderGrant(c, head, p);
    AllocUses(c, pos + h.used, h.head, rest);
    AllocSpells(c, pos + h.used, h.head, rest);
    if pad > 0 { ModAddMultiples(c.size, head, c.line); } else { ModIdem(0, c.line); }
    ModAddMultiples(pad, Align(Hlen(p), c.line), c.line);
    ModAddMultiples(available, h.used, c.line);
    AlignLeast(rest, available - h.used, c.line);
    AlignFacts(rest, c.line);
  }

  // ----- Frames sent by XDP -----------------------------------------------------------------------

  /** `gve_tx_fill_xdp` pads only when less than a minimal packet's worth is left at the end. */
  function XdpPad(c: Cfg, head: nat, len: nat): nat
    requires head <= c.size
  {
    var pad := PadAllocOneFrag(c.size, head, len);
    if pad >= MIN_PKT_DESC_BYTES then 0 else pad
  }

  lemma XdpUses(c: Cfg, pos: nat, head: nat, len: nat)
    requires Aligned(c, pos, head) && XdpPad(c, head, len) + len <= c.size
    ensures Alloc(c, head, XdpPad(c, head, len) + len).used == XdpPad(c, head, len) + Align(len, c.line)
  {
    hide Align, Alloc;
    var pad := XdpPad(c, head, len);
    AllocUses(c, pos, head, pad + len);
    ModAddMultiples(c.size, head, c.line);
    ModIdem(0, c.line);
    AlignShift(pad, len, c.line);
  }

  /**
   The padding, if any, is a piece of its own and the frame follows in one piece;
   without padding the first piece of the frame is all of it or has at least the
   182 bytes the device asks for.
   */
  lemma XdpFirstPiece(c: Cfg, pos: nat, head: nat, len: nat)
    requires Aligned(c, pos, head) && len > 0 && XdpPad(c, head, len) + len <= c.size
    ensures var (pad, iov) := (XdpPad(c, head, len), Alloc(c, head, XdpPad(c, head, len) + len).iov);
      if pad > 0 then
        |iov| == 2 && iov[0].offset == head && iov[0].len == pad && iov[1].offset == 0 && iov[1].len == len
      else
        && |iov| > 0 && iov[0].offset == head
        && ((|iov| == 1 && iov[0].len == len) || (iov[0].len >= 182 && |iov| == 2 && iov[0].len + iov[1].len == len))
  {
    hide Align, U32, Aligned;
    FifoBounds(c, pos, head);
    SmallWord(c.size - head);
  }

  lemma FifoBounds(c: Cfg, pos: nat, head: nat)
    requires Aligned(c, pos, head)
    ensures head < c.size < 0x8000_0000 && c.line > 0
  {
  }

  lemma SmallWord(x: nat)
    requires x < 0x8000_0000
    ensures U32(x) == x
  {
  }

  /** `gve_xdp_xmit_one` asks for the frame and the largest padding: that is always enough. */
  lemma XdpAdmissionSuffices(c: Cfg, pos: nat, head: nat, available: int, len: nat)
    requires Aligned(c, pos, head) && available % c.line == 0 && available <= c.size
    requires available > len + MIN_PKT_DESC_BYTES - 1
    ensures XdpPad(c, head, len) + len <= c.size
    ensures Alloc(c, head, XdpPad(c, head, len) + len).used <= available
  {
    hide Align, Alloc;
    var pad := XdpPad(c, head, len);
    XdpUses(c, pos, head, len);
    ModAddMultiples(c.size, head, c.line);
    ModIdem(0, c.line);
    ModAddMultiples(available, pad, c.line);
    AlignLeast(len, available - pad, c.line);
  }

  /**
   The AF_XDP path asks for one page whatever the frame: enough exactly when
   frame and padding round up to no more than one cacheline over a page.
   */
  lemma PageThresholdSuffices(c: Cfg, pos: nat, head: nat, len: nat, page: nat)
    requires Aligned(c, pos, head) && XdpPad(c, head, len) + len <= c.size
    requires page % c.line == 0 && page + c.line <= c.size
    ensures (forall available :: available % c.line == 0 && page < available <= c.size ==>
               Alloc(c, head, XdpPad(c, head, len) + len).used <= available)
       <==> XdpPad(c, head, len) + Align(len, c.line) <= page + c.line
  {
    hide Align, Alloc;
    XdpUses(c, pos, head, len);
    var used := XdpPad(c, head, len) + Align(len, c.line);
    DivModUnique(c.line, c.line, 1, 0);
    ModAddMultiples(page, c.line, c.line);
    if used <= page + c.line {
      forall available | available % c.line == 0 && page < available <= c.size
        ensures used <= available
      {
        MultiplesApart(page + c.line, available, c.line);
      }
    } else {
      assert (page + c.line) % c.line == 0 && page < page + c.line <= c.size;
    }
  }

  /** A full-page frame 128 bytes before the end of the FIFO takes more than that. */
  lemma PageThresholdCanFallShort()
    ensures var c := Cfg(0x10000, 64, 1024, 21);
      && Sane(c) && Aligned(c, 0xff80, 0xff80)
      && 4160 % c.line == 0 && 4096 < 4160 <= c.size
      && Alloc(c, 0xff80, XdpPad(c, 0xff80, 4096) + 4096).used > 4160
  {
    assert Align(4096, 64) == 4096;
  }
}
