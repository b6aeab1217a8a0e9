/** Bytes in the FIFO, seen as a stream laid round it. */
module TxFifoMemory {
  import opened Arith
  import opened TxFifoSpec
  import opened TxFifoMath

  function Byte(mem: seq<byte>, x: nat): byte
    requires |mem| > 0
  {
    mem[Slot(x, 0, |mem|)]
  }

  /** The stream carries `data` from position `at` on. */
  ghost predicate Holds(mem: seq<byte>, at: nat, data: seq<byte>) {
    |mem| > 0 && forall k :: 0 <= k < |data| ==> Byte(mem, at + k) == data[k]
  }

  /** Only positions `at` up to `at + n` were written: the lap before them is as it was. */
  ghost predicate Untouched(mem: seq<byte>, mem': seq<byte>, at: nat, n: nat) {
    && |mem| == |mem'| > 0
    && forall x: nat {:trigger Byte(mem', x)} :: x < at && at + n <= x + |mem| ==> Byte(mem', x) == Byte(mem, x)
  }

  lemma HoldsFrame(mem: seq<byte>, mem': seq<byte>, at: nat, data: seq<byte>, pos: nat, n: nat)
    requires Holds(mem, at, data) && Untouched(mem, mem', pos, n)
    requires at + |data| <= pos && pos + n <= at + |mem|
    ensures Holds(mem', at, data)
  {
    hide Byte;
  }

  lemma ByteIs(mem: seq<byte>, pos: nat, k: nat)
    requires |mem| > 0
    ensures Byte(mem, pos + k) == mem[Slot(pos, k, |mem|)]
  {
  }

  lemma WriteAt(mem: seq<byte>, at: nat, data: seq<byte>, a: nat)
    requires at + |data| <= |mem| && a < |mem|
    ensures Write(mem, at, data)[a] == if at <= a < at + |data| then data[a - at] else mem[a]
  {
  }

  /** Which byte of the data a copy puts at address `a`. */
  lemma WriteAllAt(mem: seq<byte>, iov: seq<Iov>, data: seq<byte>, a: nat)
    requires |iov| <= 2 && (forall i :: 0 <= i < |iov| ==> iov[i].offset + iov[i].len <= |mem|)
    requires |data| == Total(iov) && a < |mem|
    ensures |iov| == 0 ==> WriteAll(mem, iov, data)[a] == mem[a]
    ensures |iov| == 1 ==>
      WriteAll(mem, iov, data)[a] ==
        if iov[0].offset <= a < iov[0].offset + iov[0].len then data[a - iov[0].offset] else mem[a]
    ensures |iov| == 2 ==>
      WriteAll(mem, iov, data)[a] ==
        if iov[1].offset <= a < iov[1].offset + iov[1].len then data[iov[0].len + (a - iov[1].offset)]
        else if iov[0].offset <= a < iov[0].offset + iov[0].len then data[a - iov[0].offset]
        else mem[a]
  {
    hide Write;
    if |iov| == 1 {
      WriteAt(mem, iov[0].offset, data, a);
    } else if |iov| == 2 {
      var m := Write(mem, iov[0].offset, data[..iov[0].len]);
      WriteAt(mem, iov[0].offset, data[..iov[0].len], a);
      WriteAt(m, iov[1].offset, data[iov[0].len..], a);
    }
  }

  /** Distinct offsets into one lap are distinct addresses. */
  lemma SlotApart(pos: nat, j: nat, k: nat, size: nat)
    requires size > 0 && j < size && k < size && j != k
    ensures Slot(pos, j, size) != Slot(pos, k, size)
  {
    if j < k { Apart(pos + j, pos + k, size); } else { Apart(pos + k, pos + j, size); }
  }

  /** Copying through pieces that spell out the stream puts the data into the stream. */
  lemma WriteAllHolds(mem: seq<byte>, iov: seq<Iov>, data: seq<byte>, pos: nat)
    requires |mem| > 0 && |iov| <= 2 && Spells(iov, pos, |data|, |mem|) && |data| <= |mem|
    ensures Holds(WriteAll(mem, iov, data), pos, data)
  {
    hide WriteAll, Slot;
    var r := WriteAll(mem, iov, data);
    forall k | 0 <= k < |data|
      ensures Byte(r, pos + k) == data[k]
    {
      ByteIs(r, pos, k);
      var a := Slot(pos, k, |mem|);
      WriteAllAt(mem, iov, data, a);
      if |iov| == 2 && k < iov[0].len && iov[1].offset <= a < iov[1].offset + iov[1].len {
        var j := iov[0].len + (a - iov[1].offset);
        assert Slot(pos, j, |mem|) == a;
        SlotApart(pos, j, k, |mem|);
      }
    }
  }

  lemma WriteAllUntouched(mem: seq<byte>, iov: seq<Iov>, data: seq<byte>, pos: nat)
    requires |mem| > 0 && |iov| <= 2 && Spells(iov, pos, |data|, |mem|) && |data| <= |mem|
    ensures Untouched(mem, WriteAll(mem, iov, data), pos, |data|)
  {
    hide WriteAll, Slot;
    var r := WriteAll(mem, iov, data);
    forall x: nat | x < pos && pos + |data| <= x + |mem|
      ensures Byte(r, x) == Byte(mem, x)
    {
      var a := Slot(x, 0, |mem|);
      WriteAllAt(mem, iov, data, a);
      if |iov| >= 1 && iov[0].offset <= a < iov[0].offset + iov[0].len {
        ApartSlots(x, pos + (a - iov[0].offset), pos, a - iov[0].offset, |mem|);
      } else if |iov| == 2 && iov[1].offset <= a < iov[1].offset + iov[1].len {
        var k := iov[0].len + (a - iov[1].offset);
        ApartSlots(x, pos + k, pos, k, |mem|);
      }
    }
  }

  lemma ApartSlots(x: nat, y: nat, pos: nat, k: nat, size: nat)
    requires size > 0 && y == pos + k && x < y < x + size
    ensures Slot(pos, k, size) != Slot(x, 0, size)
  {
    Apart(x, y, size);
  }

  /** A piece that does not wrap spells out its stretch of the stream. */
  lemma OnePieceSpells(hdr: Iov, at: nat, size: nat)
    requires size > 0 && hdr.offset == Slot(at, 0, size) && hdr.offset + hdr.len <= size
    ensures Spells([hdr], at, hdr.len, size)
  {
    hide Slot;
    forall k | 0 <= k < hdr.len
      ensures Slot(at, k, size) == hdr.offset + k
    {
      SlotAt(at, k, size);
    }
  }

  lemma SlotAt(at: nat, k: nat, size: nat)
    requires size > 0 && Slot(at, 0, size) + k < size
    ensures Slot(at, k, size) == Slot(at, 0, size) + k
  {
    Advance(at, k, size);
  }

  // ----- Reading back -----------------------------------------------------------------------------

  lemma {:induction false} FetchAppend(mem: seq<byte>, a: seq<Desc>, b: seq<Desc>)
    ensures FetchAll(mem, a + b) == FetchAll(mem, a) + FetchAll(mem, b)
  {
    hide Fetch;
    if a == [] {
      assert a + b == b;
    } else {
      FetchAppend(mem, a[1..], b);
      assert (a + b)[1..] == a[1..] + b;
    }
  }

  lemma FetchOne(mem: seq<byte>, d: Desc)
    ensures FetchAll(mem, [d]) == Fetch(mem, d)
  {
    assert [d][1..] == [];
    assert Fetch(mem, d) + [] == Fetch(mem, d);
  }

  /** The bytes of a piece are the stretch of data it spells. */
  lemma SliceIs(mem: seq<byte>, at: nat, data: seq<byte>, off: nat, lo: nat, hi: nat)
    requires Holds(mem, at, data) && lo <= hi <= |data| && off + (hi - lo) <= |mem|
    requires forall k :: lo <= k < hi ==> Slot(at, k, |mem|) == off + (k - lo)
    ensures mem[off..off + (hi - lo)] == data[lo..hi]
  {
    hide Slot;
    var n := hi - lo;
    forall i | 0 <= i < n
      ensures mem[off..off + n][i] == data[lo..hi][i]
    {
      assert Slot(at, lo + i, |mem|) == off + i;
      ByteIs(mem, at, lo + i);
    }
  }

  lemma FetchPair(mem: seq<byte>, d: Desc, e: Desc)
    ensures FetchAll(mem, [d, e]) == Fetch(mem, d) + Fetch(mem, e)
  {
    hide Fetch;
    assert [d, e] == [d] + [e];
    FetchAppend(mem, [d], [e]);
    FetchOne(mem, d);
    FetchOne(mem, e);
  }

  lemma FetchSeg(mem: seq<byte>, iov: Iov)
    requires iov.offset + iov.len <= |mem| && iov.len <= MAX_U16
    ensures Fetch(mem, SegDesc(iov.offset, U16(iov.len))) == mem[iov.offset..iov.offset + iov.len]
  {
  }

  /** Every piece fits a 16-bit length field. */
  predicate Short(iov: seq<Iov>) {
    forall i :: 0 <= i < |iov| ==> iov[i].len <= MAX_U16
  }

  lemma FetchSegs(mem: seq<byte>, iov: seq<Iov>, at: nat, data: seq<byte>)
    requires |mem| > 0 && |iov| <= 2 && Spells(iov, at, |data|, |mem|) && Holds(mem, at, data) && Short(iov)
    ensures FetchAll(mem, SegDescs(iov)) == data
  {
    hide Holds, Fetch, FetchAll, Spells, Short;
    if |iov| == 0 {
      NothingSpelled(iov, at, |data|, |mem|);
      FetchNone(mem);
      assert SegDescs(iov) == [] && data == [];
    } else if |iov| == 1 {
      FetchOneSeg(mem, iov, at, data);
    } else {
      FetchTwoSegs(mem, iov, at, data);
    }
  }

  lemma NothingSpelled(iov: seq<Iov>, pos: nat, bytes: nat, size: nat)
    requires size > 0 && |iov| == 0 && Spells(iov, pos, bytes, size)
    ensures bytes == 0
  {
  }

  lemma FetchOneSeg(mem: seq<byte>, iov: seq<Iov>, at: nat, data: seq<byte>)
    requires |mem| > 0 && |iov| == 1 && Spells(iov, at, |data|, |mem|) && Holds(mem, at, data) && Short(iov)
    ensures FetchAll(mem, SegDescs(iov)) == data
  {
    hide Slot, Holds, Fetch, FetchAll, U16;
    var d := SegDesc(iov[0].offset, U16(iov[0].len));
    assert SegDescs(iov) == [d];
    FetchOne(mem, d);
    FetchSeg(mem, iov[0]);
    SliceIs(mem, at, data, iov[0].offset, 0, |data|);
    assert data[0..|data|] == data;
  }

  lemma FetchTwoSegs(mem: seq<byte>, iov: seq<Iov>, at: nat, data: seq<byte>)
    requires |mem| > 0 && |iov| == 2 && Spells(iov, at, |data|, |mem|) && Holds(mem, at, data) && Short(iov)
    ensures FetchAll(mem, SegDescs(iov)) == data
  {
    hide Slot, Holds, Fetch, FetchAll, U16;
    var d, e := SegDesc(iov[0].offset, U16(iov[0].len)), SegDesc(iov[1].offset, U16(iov[1].len));
    assert SegDescs(iov) == [d, e];
    FetchPair(mem, d, e);
    FetchSeg(mem, iov[0]);
    FetchSeg(mem, iov[1]);
    SliceIs(mem, at, data, iov[0].offset, 0, iov[0].len);
    SliceIs(mem, at, data, iov[1].offset, iov[0].len, |data|);
    assert data[0..iov[0].len] + data[iov[0].len..|data|] == data;
  }

  lemma FetchNone(mem: seq<byte>)
    ensures FetchAll(mem, []) == [] && Fetch(mem, MtdDesc) == []
  {
  }

  /** What the device fetches for a packet's descriptors is the packet. */
  lemma FetchPacket(mem: seq<byte>, p: Skb, hdr: Iov, iov: seq<Iov>, hdrAt: nat, payAt: nat)
    requires |mem| > 0 && ValidSkb(p) && |iov| <= 2
    requires hdr.offset == Slot(hdrAt, 0, |mem|) && hdr.offset + Hlen(p) <= |mem|
    requires Spells(iov, payAt, |p.data| - Hlen(p), |mem|)
    requires Holds(mem, hdrAt, p.data[..Hlen(p)]) && Holds(mem, payAt, p.data[Hlen(p)..])
    requires Hlen(p) <= MAX_U16 && Short(iov)
    ensures FetchAll(mem, Descs(p, hdr, iov)) == p.data
  {
    hide Slot, Holds, Spells, SegDescs, FetchAll, Hlen, Short;
    HlenFacts(p);
    var ds := Descs(p, hdr, iov);
    FetchParts(mem, p, hdr, iov);
    FetchSegs(mem, iov, payAt, p.data[Hlen(p)..]);
    HeaderSlice(mem, p, hdr.offset, hdrAt);
    U16Facts(Hlen(p));
    assert Fetch(mem, ds[0]) == p.data[..Hlen(p)];
    assert p.data[..Hlen(p)] + p.data[Hlen(p)..] == p.data;
  }

  /** The first descriptor and the segments are all there is to fetch. */
  lemma FetchParts(mem: seq<byte>, p: Skb, hdr: Iov, iov: seq<Iov>)
    ensures var ds := Descs(p, hdr, iov);
      FetchAll(mem, ds) == Fetch(mem, ds[0]) + FetchAll(mem, SegDescs(iov))
  {
    hide SegDescs, FetchAll, Hlen;
    var ds := Descs(p, hdr, iov);
    var front := [ds[0]] + if p.l4hash then [MtdDesc] else [];
    assert ds == front + SegDescs(iov);
    FetchAppend(mem, front, SegDescs(iov));
    FetchNone(mem);
    if p.l4hash {
      assert front == [ds[0], MtdDesc];
      FetchPair(mem, ds[0], MtdDesc);
    } else {
      assert front == [ds[0]];
      FetchOne(mem, ds[0]);
    }
  }

  lemma U16Facts(x: nat)
    ensures U16(x) <= x && (x <= MAX_U16 <==> U16(x) == x)
  {
  }

  /** A piece too long for its length field is fetched short. */
  lemma FetchFallsShort(mem: seq<byte>, p: Skb, hdr: Iov, iov: seq<Iov>)
    requires ValidSkb(p) && |iov| <= 2 && Total(iov) == |p.data| - Hlen(p)
    requires Hlen(p) > MAX_U16 || !Short(iov)
    ensures |FetchAll(mem, Descs(p, hdr, iov))| < |p.data|
  {
    hide FetchAll, Hlen, U16;
    HlenFacts(p);
    FetchParts(mem, p, hdr, iov);
    U16Facts(Hlen(p));
    SegsFetched(mem, iov);
  }

  lemma SegsFetched(mem: seq<byte>, iov: seq<Iov>)
    requires |iov| <= 2
    ensures |FetchAll(mem, SegDescs(iov))| <= Total(iov)
    ensures !Short(iov) ==> |FetchAll(mem, SegDescs(iov))| < Total(iov)
  {
    hide FetchAll, U16;
    var ds := SegDescs(iov);
    if |iov| == 0 {
      FetchNone(mem);
      assert ds == [];
    } else if |iov| == 1 {
      assert ds == [ds[0]];
      FetchOne(mem, ds[0]);
      U16Facts(iov[0].len);
    } else {
      assert ds == [ds[0], ds[1]];
      FetchPair(mem, ds[0], ds[1]);
      U16Facts(iov[0].len);
      U16Facts(iov[1].len);
    }
  }

  lemma HeaderSlice(mem: seq<byte>, p: Skb, off: nat, at: nat)
    requires |mem| > 0 && ValidSkb(p) && off == Slot(at, 0, |mem|) && off + Hlen(p) <= |mem|
    requires Holds(mem, at, p.data[..Hlen(p)])
    ensures mem[off..off + Hlen(p)] == p.data[..Hlen(p)]
  {
    hide Slot, Holds;
    var h := p.data[..Hlen(p)];
    forall k | 0 <= k < |h|
      ensures Slot(at, k, |mem|) == off + k
    {
      SlotAt(at, k, |mem|);
    }
    SliceIs(mem, at, h, off, 0, |h|);
    assert h[0..|h|] == h;
  }
}
