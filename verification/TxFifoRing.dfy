/** The GQI transmit ring with its FIFO memory, descriptor ring and 32-bit counters. */
module TxFifoRing {
  import opened Rings
  import opened Words
  import opened TxFifoSpec
  import opened TxFifoMath
  import opened TxFifoProofs

  /** `k` slots cleaned in turn. */
  function CleanMany(s: State, k: nat): (r: State)
    requires InBounds(s)
    ensures InBounds(r)
  {
    if k == 0 then s else CleanOne(CleanMany(s, k - 1))
  }

  lemma BoundsOfInv(s: State)
    requires Inv(s)
    ensures InBounds(s)
  {
  }

  lemma WriteNext(mem: seq<byte>, at: nat, data: seq<byte>, k: nat)
    requires at + |data| <= |mem| && k < |data|
    ensures Write(mem, at, data[..k])[at + k := data[k]] == Write(mem, at, data[..k + 1])
  {
  }

  lemma WriteNothing(mem: seq<byte>, at: nat)
    requires at <= |mem|
    ensures Write(mem, at, []) == mem
  {
  }

  /** One more piece of the payload copied. */
  lemma WriteAllNext(mem: seq<byte>, iov: seq<Iov>, data: seq<byte>, i: nat)
    requires i < |iov| <= 2 && (forall j :: 0 <= j < |iov| ==> iov[j].offset + iov[j].len <= |mem|)
    requires Total(iov) == |data|
    ensures Total(iov[..i]) + iov[i].len == Total(iov[..i + 1]) <= |data|
    ensures WriteAll(mem, iov[..i + 1], data[..Total(iov[..i + 1])])
         == Write(WriteAll(mem, iov[..i], data[..Total(iov[..i])]), iov[i].offset,
                  data[Total(iov[..i])..Total(iov[..i]) + iov[i].len])
  {
    hide Write;
    assert iov[..0] == [] && iov[..1] == [iov[0]];
    if i == 0 {
      assert data[0..iov[0].len] == data[..iov[0].len];
    } else {
      assert iov[..2] == iov;
      assert data[..|data|] == data && data[iov[0].len..|data|] == data[iov[0].len..];
    }
  }

  class TxRing {
    const cfg: Cfg
    const mem: array<byte>
    const desc: array<Desc>
    const info: array<Info>
    var head: nat
    var available: int
    var req: nat   // 32-bit
    var done: nat  // 32-bit

    // The state of the machine this ring is in.
    ghost var s: State

    ghost predicate Valid()
      reads this, mem, desc, info
    {
      Represents() && s.pending == 0
    }

    ghost predicate Represents()
      reads this, mem, desc, info
    {
      && cfg == s.cfg && mem[..] == s.mem && desc[..] == s.desc && info[..] == s.info
      && head == s.head && available == s.available
      && req == U32(s.req) && done == U32(s.done)
      && Inv(s)
    }

    constructor (c: Cfg, blank: Desc)
      requires Sane(c)
      ensures Valid() && fresh(mem) && fresh(desc) && fresh(info)
      ensures cfg == c && s == Init(c, mem[..], desc[..])
    {
      cfg := c;
      mem := new byte[c.size];
      desc := new Desc[c.slots](_ => blank);
      info := new Info[c.slots](_ => NoSkb);
      head, available, req, done := 0, c.size, 0, 0;
      new;
      s := Init(c, mem[..], desc[..]);
      InitInv(c, mem[..], desc[..]);
      assert info[..] == s.info;
    }

    lemma Facts()
      requires Represents()
      ensures InBounds(s) && Sane(cfg)
      ensures mem.Length == cfg.size && desc.Length == info.Length == cfg.slots
      ensures Index(req, cfg.slots) == Index(s.req, cfg.slots)
      ensures Index(done, cfg.slots) == Index(s.done, cfg.slots)
    {
      IndexOfU32(s.req, cfg.slots);
      IndexOfU32(s.done, cfg.slots);
    }

    /** `gve_tx_alloc_fifo` */
    method AllocFifo(bytes: nat) returns (iov: seq<Iov>)
      requires cfg.line > 0
      modifies `head, `available
      ensures iov == Alloc(cfg, old(head), bytes).iov
      ensures head == Alloc(cfg, old(head), bytes).head
      ensures available == old(available) - Alloc(cfg, old(head), bytes).used
    {
      hide Align;
      if bytes == 0 {
        return [];
      }
      iov := [Iov(head, bytes, 0)];
      head := head + bytes;
      if head > cfg.size {
        var overflow := head - cfg.size;
        iov := [Iov(iov[0].offset, U32(iov[0].len - overflow), 0), Iov(0, overflow, 0)];
        head := overflow;
      }
      var aligned := Align(head, cfg.line);
      AlignFacts(head, cfg.line);
      var padding := aligned - head;
      iov := iov[|iov| - 1 := iov[|iov| - 1].(padding := padding)];
      available := available - (bytes + padding);
      head := aligned;
      if head == cfg.size {
        head := 0;
      }
    }

    /** `skb_copy_bits` into the FIFO */
    method CopyBits(at: nat, data: seq<byte>)
      requires at + |data| <= mem.Length
      modifies mem
      ensures mem[..] == Write(old(mem[..]), at, data)
    {
      hide Write;
      ghost var was := mem[..];
      WriteNothing(was, at);
      for k := 0 to |data|
        invariant mem[..] == Write(was, at, data[..k])
      {
        ghost var now := mem[..];
        mem[at + k] := data[k];
        assert mem[..] == now[at + k := data[k]];
        WriteNext(was, at, data, k);
      }
      assert data[..|data|] == data;
    }

    /** Descriptor `k` of a packet, in ring slot `req + k`. */
    method PutDesc(ghost ds: seq<Desc>, k: nat, d: Desc)
      requires 0 < desc.Length == cfg.slots && Sane(cfg) && k < |ds| && d == ds[k]
      requires req == U32(s.req)
      modifies desc
      ensures desc[..] == old(desc[..])[Index(s.req + k, cfg.slots) := ds[k]]
    {
      hide Sane;
      SaneFacts(cfg);
      IndexOfU32(s.req + k, cfg.slots);
      Advanced(s.req, k);
      desc[Index(U32(req + k), cfg.slots)] := d;
    }

    static lemma SaneFacts(c: Cfg)
      requires Sane(c)
      ensures c.slots > 0 && WRAP % c.slots == 0 && c.line > 0
    {
    }

    /** The segment descriptors and the copy of the payload. */
    method PutPayload(ghost was: seq<Desc>, ghost ds: seq<Desc>, front: nat, payload: seq<Iov>, data: seq<byte>)
      requires 0 < desc.Length == cfg.slots && Sane(cfg) && req == U32(s.req)
      requires |was| == desc.Length && front + |payload| == |ds| && ds[front..] == SegDescs(payload)
      requires desc[..] == Put(was, s.req, ds[..front])
      requires |payload| <= 2 && (forall i :: 0 <= i < |payload| ==> payload[i].offset + payload[i].len <= mem.Length)
      requires Total(payload) == |data|
      modifies mem, desc
      ensures desc[..] == Put(was, s.req, ds)
      ensures mem[..] == WriteAll(old(mem[..]), payload, data)
    {
      hide Sane, Index, Put, U32, WriteAll, Write;
      ghost var m0 := mem[..];
      var off := 0;
      WriteAllNone(m0, payload, data);
      for i := 0 to |payload|
        invariant off == Total(payload[..i]) <= |data|
        invariant desc[..] == Put(was, s.req, ds[..front + i])
        invariant mem[..] == WriteAll(m0, payload[..i], data[..off])
      {
        WriteAllNext(m0, payload, data, i);
        assert ds[front + i] == ds[front..][i];
        PutOne(was, s.req, ds, front + i);
        PutDesc(ds, front + i, SegDesc(payload[i].offset, U16(payload[i].len)));
        CopyBits(payload[i].offset, data[off..off + payload[i].len]);
        off := off + payload[i].len;
      }
      assert payload[..|payload|] == payload && data[..|data|] == data && ds[..front + |payload|] == ds;
    }

    static lemma WriteAllNone(mem: seq<byte>, iov: seq<Iov>, data: seq<byte>)
      requires |iov| <= 2
      ensures Total(iov[..0]) == 0 && WriteAll(mem, iov[..0], data[..0]) == mem
    {
    }

    /** Descriptors and copies of one packet, once its pieces are known. */
    method PutPacket(p: Skb, hdr: Iov, payload: seq<Iov>) returns (nsegs: nat)
      requires 0 < desc.Length == cfg.slots && Sane(cfg) && req == U32(s.req) && ValidSkb(p)
      requires |payload| <= 2 && (forall i :: 0 <= i < |payload| ==> payload[i].offset + payload[i].len <= mem.Length)
      requires Hlen(p) + Total(payload) == |p.data| && hdr.offset + Hlen(p) <= mem.Length
      modifies mem, desc
      ensures nsegs == |Descs(p, hdr, payload)|
      ensures desc[..] == Put(old(desc[..]), s.req, Descs(p, hdr, payload))
      ensures mem[..] == WriteAll(Write(old(mem[..]), hdr.offset, p.data[..Hlen(p)]), payload, p.data[Hlen(p)..])
    {
      hide Sane, Index, Put, U32, WriteAll, Write, Hlen, U16;
      ghost var was := desc[..];
      var mtd := if p.l4hash then 1 else 0;
      nsegs := 1 + mtd + |payload|;
      ghost var ds := Descs(p, hdr, payload);
      PutNone(was, s.req);
      assert ds[..0] == [];
      PutOne(was, s.req, ds, 0);
      PutDesc(ds, 0, PktDesc(nsegs, hdr.offset, U16(Hlen(p)), U16(|p.data|)));
      CopyBits(hdr.offset, p.data[..Hlen(p)]);
      if p.l4hash {
        PutOne(was, s.req, ds, 1);
        PutDesc(ds, 1, MtdDesc);
      }
      assert ds[1 + mtd..] == SegDescs(payload);
      PutPayload(was, ds, 1 + mtd, payload, p.data[Hlen(p)..]);
    }

    /** `gve_tx_add_skb_copy` and the move of `req` in `gve_tx` */
    method AddSkbCopy(p: Skb) returns (nsegs: nat)
      requires Valid() && s.tx == Admitted(p)
      modifies `head, `available, `req, `s, mem, desc, info
      ensures Valid() && InBounds(old(s)) && s == Fill(old(s))
      ensures s.req == old(s).req + nsegs
    {
      hide Inv, Alloc, Sane, Index, Put, U32, WriteAll, Write, Hlen, Descs, PadAllocOneFrag;
      Facts();
      SaneFacts(cfg);
      HlenFacts(p);
      var hlen := Hlen(p);
      var pad := PadAllocOneFrag(cfg.size, head, hlen);
      var header := AllocFifo(hlen + pad);
      var payload := AllocFifo(|p.data| - hlen);
      assert header == HeaderGrant(cfg, s.head, p).iov && payload == PayloadGrant(cfg, s.head, p).iov;
      nsegs := PutPacket(p, header[|header| - 1], payload);
      info[Index(req, cfg.slots)] := Owner(p, header + payload);
      req := U32(req + nsegs);
      Advanced(s.req, nsegs);
      SentFacts(s);
      s := Fill(s);
    }

    static lemma SentFacts(s: State)
      requires Inv(s) && s.tx.Admitted?
      ensures InBounds(s) && Inv(Fill(s))
    {
      StepKeepsInv(s, Send);
    }

    /** `gve_skb_fifo_bytes_required` and `gve_can_tx` */
    method MaybeStop(p: Skb) returns (ok: bool)
      requires Valid() && s.tx == Idle && ValidSkb(p)
      modifies `s
      ensures Valid() && InBounds(old(s)) && s == Step(old(s), Admit(p))
      ensures ok <==> s.tx == Admitted(p)
    {
      hide Inv, Align, U32, Hlen, PadAllocOneFrag, Sane, Index, Fits;
      Facts();
      SaneFacts(cfg);
      var hlen := Hlen(p);
      AlignFacts(hlen, cfg.line);
      var bytes := Align(hlen, cfg.line) - hlen + PadAllocOneFrag(cfg.size, head, hlen) + |p.data|;
      ok := U32(cfg.slots - U32(req - done)) >= cfg.needed && available > bytes;
      StepKeepsInv(s, Admit(p));
      s := Step(s, Admit(p));
    }

    /** `gve_clean_tx_done`: every slot passed over, and the space given back at the end. */
    method CleanTxDone(toDo: nat)
      requires Valid() && s.done + toDo <= s.req
      modifies `available, `done, `s, info
      ensures Valid() && InBounds(old(s))
      ensures s == Step(CleanMany(old(s), toDo), FreeFifo)
      ensures s.done == old(s).done + toDo && s.req == old(s).req && s.pending == 0
    {
      hide Inv, Sane, Index, U32, CleanMany, Space, CleanOne;
      Facts();
      ghost var s0 := s;
      var freed := 0;
      CleanNone(s0);
      for j := 0 to toDo
        invariant Represents() && s == CleanMany(s0, j) && s.done == s0.done + j && s.req == s0.req
        invariant s.pending == freed
      {
        Facts();
        CleanFacts(s);
        CleanNext(s0, j);
        var idx := Index(done, cfg.slots);
        if info[idx].Owner? {
          freed := freed + Space(info[idx]);
          info[idx] := NoSkb;
        }
        done := U32(done + 1);
        Advanced(s.done, 1);
        s := CleanOne(s);
      }
      StepKeepsInv(s, FreeFifo);
      available := available + freed;
      s := Step(s, FreeFifo);
    }

    static lemma CleanNone(s: State)
      requires InBounds(s)
      ensures CleanMany(s, 0) == s
    {
    }

    static lemma CleanNext(s: State, j: nat)
      requires InBounds(s)
      ensures CleanMany(s, j + 1) == CleanOne(CleanMany(s, j))
    {
    }

    static lemma CleanFacts(s: State)
      requires Inv(s) && s.done < s.req
      ensures InBounds(s) && Inv(CleanOne(s))
      ensures var s' := CleanOne(s);
        && s' == s.(done := s.done + 1, info := s'.info, pending := s'.pending, freed := s'.freed, live := s'.live)
        && var i := s.info[Index(s.done, s.cfg.slots)];
           && s'.pending == s.pending + Space(i)
           && s'.info == (if i.Owner? then s.info[Index(s.done, s.cfg.slots) := NoSkb] else s.info)
           && (i.NoSkb? ==> Space(i) == 0)
    {
      hide Inv, Index;
      BoundsOfInv(s);
      StepKeepsInv(s, Clean);
    }
  }
}
