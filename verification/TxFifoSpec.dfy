/**
 The transmit FIFO of the GQI format. Packets are copied into a registered
 segment used as a wrapping byte FIFO; descriptors point into it. The header is
 kept in one piece by padding to the end of the FIFO, and every allocation ends
 on a cacheline boundary.
 */
module TxFifoSpec {
  import opened Rings
  import opened Words

  type byte = x: int | 0 <= x < 256

  const MIN_PKT_DESC_BYTES: nat := 182

  /** Size of the FIFO and of a cacheline, slots in the ring, and slots asked for by admission. */
  datatype Cfg = Cfg(size: nat, line: nat, slots: nat, needed: nat)

  /** What the driver may rely on: whole cachelines, a power-of-two ring, room for any packet's descriptors. */
  ghost predicate Sane(c: Cfg) {
    && c.line > 0 && 0 < c.size < 0x8000_0000 && c.size % c.line == 0
    && c.slots > 0 && WRAP % c.slots == 0 && c.slots < WRAP
    && c.needed >= 4
  }

  datatype Skb = Skb(data: seq<byte>, gso: bool, hdr: nat, l4hash: bool)

  predicate ValidSkb(p: Skb) {
    0 < |p.data| && (p.gso ==> 0 < p.hdr <= |p.data|)
  }

  /** The header alone for a segmented packet, else the least the device asks for. */
  function Hlen(p: Skb): nat {
    if p.gso then p.hdr else if |p.data| < MIN_PKT_DESC_BYTES then |p.data| else MIN_PKT_DESC_BYTES
  }

  const MAX_U16: nat := 0xFFFF

  function U16(x: nat): nat {
    x % 0x1_0000
  }

  function Align(x: nat, line: nat): nat
    requires line > 0
  {
    (x + line - 1) / line * line
  }

  // ----- Allocation -------------------------------------------------------------------------

  datatype Iov = Iov(offset: nat, len: nat, padding: nat)

  function PadAllocOneFrag(size: nat, head: nat, bytes: nat): nat
    requires head <= size
  {
    if head + bytes < size then 0 else size - head
  }

  function BytesRequired(c: Cfg, head: nat, p: Skb): nat
    requires c.line > 0 && head <= c.size && ValidSkb(p)
  {
    Align(Hlen(p), c.line) - Hlen(p) + PadAllocOneFrag(c.size, head, Hlen(p)) + |p.data|
  }

  /** The pieces handed out, the new head, and how much the FIFO shrinks. */
  datatype Grant = Grant(iov: seq<Iov>, head: nat, used: nat)

  function Alloc(c: Cfg, head: nat, bytes: nat): (g: Grant)
    requires c.line > 0
    ensures |g.iov| <= 2
  {
    if bytes == 0 then Grant([], head, 0)
    else
      var wraps := head + bytes > c.size;
      var end := if wraps then head + bytes - c.size else head + bytes;
      var pad := Align(end, c.line) - end;
      Grant(if wraps then [Iov(head, U32(bytes - end), 0), Iov(0, end, pad)] else [Iov(head, bytes, pad)],
            if Align(end, c.line) == c.size then 0 else Align(end, c.line),
            bytes + pad)
  }

  // ----- Descriptors ------------------------------------------------------------------------

  /** Length fields are 16 bits wide. */
  datatype Desc = PktDesc(count: nat, addr: nat, segLen: nat, len: nat) | MtdDesc | SegDesc(addr: nat, segLen: nat)

  function SegDescs(iov: seq<Iov>): (d: seq<Desc>)
    ensures |d| == |iov|
  {
    seq(|iov|, i requires 0 <= i < |iov| => SegDesc(iov[i].offset, U16(iov[i].len)))
  }

  /** Everything one packet puts into the ring, from the pieces it was given. */
  function Descs(p: Skb, hdr: Iov, payload: seq<Iov>): (d: seq<Desc>)
    ensures |d| == 1 + (if p.l4hash then 1 else 0) + |payload|
  {
    [PktDesc(1 + (if p.l4hash then 1 else 0) + |payload|, hdr.offset, U16(Hlen(p)), U16(|p.data|))]
    + (if p.l4hash then [MtdDesc] else []) + SegDescs(payload)
  }

  // ----- Memory -----------------------------------------------------------------------------

  function Write(mem: seq<byte>, at: nat, data: seq<byte>): (r: seq<byte>)
    requires at + |data| <= |mem|
    ensures |r| == |mem|
  {
    mem[..at] + data + mem[at + |data|..]
  }

  /** The payload copied piece by piece, from `off` on. */
  function WriteAll(mem: seq<byte>, iov: seq<Iov>, data: seq<byte>): (r: seq<byte>)
    requires |iov| <= 2 && (forall i :: 0 <= i < |iov| ==> iov[i].offset + iov[i].len <= |mem|)
    requires |data| == Total(iov)
    ensures |r| == |mem|
  {
    if |iov| == 0 then mem
    else if |iov| == 1 then Write(mem, iov[0].offset, data)
    else Write(Write(mem, iov[0].offset, data[..iov[0].len]), iov[1].offset, data[iov[0].len..])
  }

  function Total(iov: seq<Iov>): nat
    requires |iov| <= 2
  {
    if |iov| == 0 then 0 else if |iov| == 1 then iov[0].len else iov[0].len + iov[1].len
  }

  /** What a device fetches for one descriptor. */
  function Fetch(mem: seq<byte>, d: Desc): seq<byte> {
    if d.MtdDesc? || d.addr + d.segLen > |mem| then [] else mem[d.addr..d.addr + d.segLen]
  }

  function FetchAll(mem: seq<byte>, ds: seq<Desc>): seq<byte> {
    if ds == [] then [] else Fetch(mem, ds[0]) + FetchAll(mem, ds[1..])
  }

  // ----- The machine --------------------------------------------------------------------------

  /** Per ring slot; only the slot of a packet's first descriptor is used. */
  datatype Info = NoSkb | Owner(skb: Skb, iov: seq<Iov>)

  function Space(i: Info): nat {
    if i.NoSkb? then 0 else SumSpace(i.iov)
  }

  function SumSpace(iov: seq<Iov>): nat {
    if iov == [] then 0 else iov[0].len + iov[0].padding + SumSpace(iov[1..])
  }

  datatype TxPc = Idle | Admitted(skb: Skb)

  /** A posted packet not yet cleaned: its first slot, its stretch of the FIFO, and what it put there. */
  datatype Live = Live(first: nat, start: nat, end: nat, hdrAt: nat, payAt: nat, skb: Skb, descs: seq<Desc>)

  datatype State = State(
    cfg: Cfg, mem: seq<byte>, head: nat, available: int,
    desc: seq<Desc>, info: seq<Info>, req: nat, done: nat,
    pending: nat,                        // cleaned, not yet given back
    tx: TxPc,
    pos: nat, freed: nat, live: seq<Live>) // logical positions and the packets between them

  predicate InBounds(s: State) {
    && s.cfg.line > 0 && s.cfg.size > 0 && s.cfg.slots > 0
    && |s.mem| == s.cfg.size && |s.desc| == |s.info| == s.cfg.slots
    && s.head < s.cfg.size
    && (s.tx.Admitted? ==> ValidSkb(s.tx.skb) && Fits(s.cfg, s.head, s.tx.skb))
  }

  /** Every piece lies inside the FIFO. */
  predicate Fits(c: Cfg, head: nat, p: Skb)
    requires c.line > 0 && head < c.size && ValidSkb(p)
  {
    var h := HeaderGrant(c, head, p);
    var g := PayloadGrant(c, head, p);
    && |h.iov| > 0
    && h.iov[|h.iov| - 1].len == Hlen(p)
    && (forall i :: 0 <= i < |h.iov| ==> h.iov[i].offset + h.iov[i].len <= c.size)
    && (forall i :: 0 <= i < |g.iov| ==> g.iov[i].offset + g.iov[i].len <= c.size)
    && Hlen(p) + Total(g.iov) == |p.data|
  }

  function HeaderGrant(c: Cfg, head: nat, p: Skb): Grant
    requires c.line > 0 && head < c.size
  {
    Alloc(c, head, Hlen(p) + PadAllocOneFrag(c.size, head, Hlen(p)))
  }

  function PayloadGrant(c: Cfg, head: nat, p: Skb): Grant
    requires c.line > 0 && head < c.size && ValidSkb(p)
  {
    Alloc(c, HeaderGrant(c, head, p).head, |p.data| - Hlen(p))
  }

  predicate CanTx(s: State, bytes: nat) {
    U32(s.cfg.slots - U32(U32(s.req) - U32(s.done))) >= s.cfg.needed && s.available > bytes
  }

  /** `gve_tx_add_skb_copy` and the move of `req` */
  function Fill(s: State): State
    requires InBounds(s) && s.tx.Admitted?
  {
    var (c, p) := (s.cfg, s.tx.skb);
    var h := HeaderGrant(c, s.head, p);
    var g := PayloadGrant(c, s.head, p);
    var hdr := h.iov[|h.iov| - 1];
    var ds := Descs(p, hdr, g.iov);
    var pad := PadAllocOneFrag(c.size, s.head, Hlen(p));
    s.(mem := WriteAll(Write(s.mem, hdr.offset, p.data[..Hlen(p)]), g.iov, p.data[Hlen(p)..]),
       head := g.head, available := s.available - h.used - g.used,
       desc := Put(s.desc, s.req, ds), req := s.req + |ds|,
       info := s.info[Index(s.req, c.slots) := Owner(p, h.iov + g.iov)],
       tx := Idle,
       pos := s.pos + h.used + g.used,
       live := s.live + [Live(s.req, s.pos, s.pos + h.used + g.used, s.pos + pad, s.pos + h.used, p, ds)])
  }

  /** One turn of the loop in `gve_clean_tx_done` */
  function CleanOne(s: State): State
    requires InBounds(s)
  {
    var i := s.info[Index(s.done, s.cfg.slots)];
    if i.NoSkb? then s.(done := s.done + 1)
    else
      s.(done := s.done + 1, info := s.info[Index(s.done, s.cfg.slots) := NoSkb], pending := s.pending + Space(i),
         freed := s.freed + Space(i), live := if s.live == [] then [] else s.live[1..])
  }

  datatype Action = Admit(skb: Skb) | Send | Clean | FreeFifo

  /** The sender checks and fills; the cleaner works through slots the device has done, then gives the space back. */
  function Step(s: State, a: Action): State
    requires InBounds(s)
  {
    match a
    case Admit(p) =>
      if s.tx == Idle && ValidSkb(p) && CanTx(s, BytesRequired(s.cfg, s.head, p)) then s.(tx := Admitted(p)) else s
    case Send => if s.tx.Admitted? then Fill(s) else s
    case Clean => if s.done < s.req then CleanOne(s) else s
    case FreeFifo => s.(available := s.available + s.pending, pending := 0)
  }

  function Init(c: Cfg, mem: seq<byte>, desc: seq<Desc>): State {
    State(c, mem, 0, c.size, desc, seq(c.slots, _ => NoSkb), 0, 0, 0, Idle, 0, 0, [])
  }
}
