/** How a packet is sent without bounce buffers, against what the device asks of a packet. */
module TxPlan {
  import opened TxDesc
  import Tso

  /** The payload behind a header of `hdr` bytes, buffer by buffer. */
  function Payload(bufs: seq<Buf>, hdr: nat): seq<nat>
    requires bufs != [] && hdr <= bufs[0].len
  {
    [bufs[0].len - hdr] + Sizes(bufs[1..])
  }

  function Sizes(bufs: seq<Buf>): seq<nat> {
    seq(|bufs|, i requires 0 <= i < |bufs| => bufs[i].len)
  }

  /** One buffer cannot be spread over too many. */
  lemma OneBufferIsSegmentable(size: nat, gso: nat)
    requires gso > 0
    ensures Tso.Segmentable([size], gso)
  {
    hide Tso.Touches;
    forall s: nat
      ensures !Tso.Overspread([size], gso, s)
    {
      assert Tso.Spread([size], gso, 0, s) == 0;
    }
  }

  /** No byte is lost or added, whatever becomes of the packet. */
  lemma PlanKeepsBytes(p: Skb, canTso: bool, at: nat)
    ensures Len(PlanDirect(p, canTso, at).bufs) == Len(Bufs(p))
  {
    var whole := Buf(at, Len(Bufs(p)));
    assert [whole][..0] == [] && Len([]) == 0;
  }

  /** A packet the device can take as it is goes out as it is, from its own buffers. */
  lemma PlanCopiesOnlyAtNeed(p: Skb, canTso: bool, at: nat)
    ensures (if p.gso then canTso else NumDescs(Bufs(p)) <= 10) ==> PlanDirect(p, canTso, at).bufs == Bufs(p)
  {
  }

  /**
   What is written meets the device's rules: no segment of a segmented packet is
   spread over more than nine buffers, given the verdict of the check; and a packet
   sent whole, within the device's limit, has at most ten data descriptors.
   */
  lemma PlanMeetsDevice(p: Skb, canTso: bool, at: nat, hdr: nat, gsoSize: nat)
    requires gsoSize > 0 && hdr <= p.linear.len
    requires canTso <==> Tso.WithinLimit(Payload(Bufs(p), hdr), gsoSize, 1 + |p.frags|)
    ensures var plan := PlanDirect(p, canTso, at);
      && (p.gso ==>
            plan.bufs != [] && hdr <= plan.bufs[0].len && Tso.Segmentable(Payload(plan.bufs, hdr), gsoSize))
      && (!p.gso && Len(Bufs(p)) <= MAX_UNSEGMENTED ==> NumDescs(plan.bufs) <= 10)
  {
    hide Tso.Segmentable, Tso.WithinLimit;
    var sizes := Payload(Bufs(p), hdr);
    assert Bufs(p)[1..] == p.frags && Bufs(p)[0] == p.linear;
    if p.gso && canTso {
      Tso.CheckMeansSegmentable(p.linear.len - hdr, Sizes(p.frags), gsoSize);
    } else {
      var whole := [Buf(at, Len(Bufs(p)))];
      NumDescsBounds(Bufs(p));
      assert Payload(whole, hdr) == [Len(Bufs(p)) - hdr];
      OneBufferIsSegmentable(Len(Bufs(p)) - hdr, gsoSize);
      WholeDescs(at, Len(Bufs(p)));
    }
  }
}
