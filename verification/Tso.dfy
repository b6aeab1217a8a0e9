/**
 The check whether the device can segment a packet: no segment of `gso` payload
 bytes may be spread over more than nine payload buffers. The driver decides it
 in one pass with a running remainder; here it is compared with the segments
 themselves.
 */
module Tso {
  import opened Arith
  import TxDesc

  const MAX_BUFS_PER_SEG: nat := TxDesc.MAX_DATA_DESCS - 1  // one is the header

  /** Payload position at which buffer `j` starts. */
  function At(sizes: seq<nat>, j: nat): nat
    requires j <= |sizes|
  {
    if j == 0 then 0 else At(sizes, j - 1) + sizes[j - 1]
  }

  /** Some byte of buffer `j` belongs to segment `s`. */
  ghost predicate Touches(sizes: seq<nat>, gso: nat, j: nat, s: nat)
    requires gso > 0 && j < |sizes|
  {
    exists x: nat :: At(sizes, j) <= x < At(sizes, j) + sizes[j] && x / gso == s
  }

  /** As the driver counts: an empty fragment is charged to the segment it stands in. */
  predicate Charged(sizes: seq<nat>, gso: nat, j: nat, s: nat)
    requires gso > 0 && j < |sizes|
  {
    var start := At(sizes, j);
    if sizes[j] > 0 then start / gso <= s <= (start + sizes[j] - 1) / gso else j > 0 && start / gso == s
  }

  /** How many of the first `k` buffers are charged to segment `s`. */
  function Charge(sizes: seq<nat>, gso: nat, k: nat, s: nat): nat
    requires gso > 0 && k <= |sizes|
  {
    if k == 0 then 0 else Charge(sizes, gso, k - 1, s) + if Charged(sizes, gso, k - 1, s) then 1 else 0
  }

  ghost predicate WithinLimit(sizes: seq<nat>, gso: nat, k: nat)
    requires gso > 0 && k <= |sizes|
  {
    forall s :: Charge(sizes, gso, k, s) <= MAX_BUFS_PER_SEG
  }

  // ----- Division -------------------------------------------------------------------------------

  lemma DivMonotone(x: nat, y: nat, g: nat)
    requires g > 0 && x <= y
    ensures x / g <= y / g
  {
    var r := x % g + (y - x);
    assert y == x / g * g + r && r == r / g * g + r % g;
    assert (x / g + r / g) * g == x / g * g + r / g * g;
    DivModUnique(y, g, x / g + r / g, r % g);
  }

  lemma SameSegment(base: nat, c: nat, g: nat)
    requires g > 0 && base % g == 0 && c < g
    ensures (base + c) / g == base / g && (base + c) % g == c
  {
    assert base + c == base / g * g + c;
    DivModUnique(base + c, g, base / g, c);
  }

  /** The last byte before `x` is in the segment of `x` exactly when `x` does not start one. */
  lemma LastByte(x: nat, g: nat)
    requires g > 0 && x > 0
    ensures (x - 1) / g >= x / g <==> x % g > 0
  {
    assert x == x / g * g + x % g;
    if x % g > 0 {
      DivModUnique(x - 1, g, x / g, x % g - 1);
    } else {
      assert x - 1 == (x / g - 1) * g + (g - 1);
      DivModUnique(x - 1, g, x / g - 1, g - 1);
    }
  }

  // ----- Where charges can fall --------------------------------------------------------------------

  lemma {:induction false} AtGrows(sizes: seq<nat>, j: nat, k: nat)
    requires j <= k <= |sizes|
    ensures At(sizes, j) <= At(sizes, k)
    decreases k
  {
    if j == k {
    } else {
      AtGrows(sizes, j, k - 1);
    }
  }

  /** A buffer is not charged beyond the segment its end lies in. */
  lemma ChargedUpTo(sizes: seq<nat>, gso: nat, j: nat, k: nat, s: nat)
    requires gso > 0 && j < k <= |sizes| && s > At(sizes, k) / gso
    ensures !Charged(sizes, gso, j, s)
  {
    AtGrows(sizes, j + 1, k);
    DivMonotone(At(sizes, j), At(sizes, k), gso);
    if sizes[j] > 0 { DivMonotone(At(sizes, j) + sizes[j] - 1, At(sizes, k), gso); }
  }

  lemma {:induction false} NoChargeAhead(sizes: seq<nat>, gso: nat, k: nat, limit: nat, s: nat)
    requires gso > 0 && k <= limit <= |sizes| && s > At(sizes, limit) / gso
    ensures Charge(sizes, gso, k, s) == 0
    decreases k
  {
    hide Charged;
    if k == 0 {
    } else {
      NoChargeAhead(sizes, gso, k - 1, limit, s);
      ChargedUpTo(sizes, gso, k - 1, limit, s);
    }
  }

  /** When buffer `k` ends in a later segment than it starts in, only its own spill is charged there. */
  lemma Spill(sizes: seq<nat>, gso: nat, k: nat)
    requires gso > 0 && k < |sizes| && At(sizes, k) / gso < At(sizes, k + 1) / gso
    ensures Charge(sizes, gso, k + 1, At(sizes, k + 1) / gso) == if At(sizes, k + 1) % gso > 0 then 1 else 0
  {
    var end := At(sizes, k + 1);
    NoChargeAhead(sizes, gso, k, k, end / gso);
    LastByte(end, gso);
  }

  /** A buffer is charged to the segment it starts in, and to none before. */
  lemma ChargedFromStart(sizes: seq<nat>, gso: nat, k: nat, s: nat)
    requires gso > 0 && 0 < k < |sizes|
    ensures s < At(sizes, k) / gso ==> !Charged(sizes, gso, k, s)
    ensures s == At(sizes, k) / gso ==> Charged(sizes, gso, k, s)
  {
    if sizes[k] > 0 { DivMonotone(At(sizes, k), At(sizes, k) + sizes[k] - 1, gso); }
  }

  lemma {:induction false} ChargeGrows(sizes: seq<nat>, gso: nat, j: nat, k: nat, s: nat)
    requires gso > 0 && j <= k <= |sizes|
    ensures Charge(sizes, gso, j, s) <= Charge(sizes, gso, k, s)
    decreases k
  {
    hide Charged;
    if j == k {
    } else {
      ChargeGrows(sizes, gso, j, k - 1, s);
    }
  }

  /** One more fragment keeps every segment within the limit if it does so in the segment it starts in. */
  lemma OneMore(sizes: seq<nat>, gso: nat, k: nat)
    requires gso > 0 && 0 < k < |sizes| && WithinLimit(sizes, gso, k)
    requires Charge(sizes, gso, k, At(sizes, k) / gso) + 1 <= MAX_BUFS_PER_SEG
    ensures WithinLimit(sizes, gso, k + 1)
  {
    hide Charged;
    var k' := k + 1;
    forall s: nat
      ensures Charge(sizes, gso, k', s) <= MAX_BUFS_PER_SEG
    {
      ChargedFromStart(sizes, gso, k, s);
      if s > At(sizes, k) / gso { NoChargeAhead(sizes, gso, k, k, s); }
    }
  }

  // ----- The one-pass check -----------------------------------------------------------------------------

  /**
   `gve_can_send_tso`: `linear` payload bytes behind the header, then the
   fragments. `sizes` is all of them.
   */
  method CanSendTso(linear: nat, frags: seq<nat>, gso: nat) returns (ok: bool)
    requires gso > 0
    ensures ok <==> WithinLimit([linear] + frags, gso, 1 + |frags|)
  {
    hide Running, WithinLimit;
    ghost var sizes := [linear] + frags;
    var size: nat := linear;
    var bufs := if size > 0 then 1 else 0;
    RunningFirst(sizes, gso);
    ghost var base: nat := 0;
    for i := 0 to |frags|
      invariant WithinLimit(sizes, gso, i + 1)
      invariant Running(sizes, gso, i + 1, base, size, bufs)
    {
      if size >= gso {
        RunningNormal(sizes, gso, i + 1, base, size, bufs);
        base := base + (size - size % gso);
        size := size % gso;
        bufs := if size > 0 then 1 else 0;
      }
      RunningNext(sizes, gso, i + 1, base, size, bufs);
      bufs := bufs + 1;
      if bufs > MAX_BUFS_PER_SEG {
        return false;
      }
      size := size + frags[i];
    }
    return true;
  }

  /**
   Before buffer `k`: the segment being filled starts at `base`, `size` bytes
   lie behind that, and `bufs` buffers are charged to it.
   */
  ghost predicate Running(sizes: seq<nat>, gso: nat, k: nat, base: nat, size: nat, bufs: int)
    requires gso > 0 && 0 < k <= |sizes|
  {
    && base % gso == 0 && base + size == At(sizes, k)
    && At(sizes, k - 1) / gso <= base / gso
    && Charge(sizes, gso, k, base / gso) == bufs
  }

  lemma RunningFirst(sizes: seq<nat>, gso: nat)
    requires gso > 0 && |sizes| > 0
    ensures WithinLimit(sizes, gso, 1) && Running(sizes, gso, 1, 0, sizes[0], if sizes[0] > 0 then 1 else 0)
  {
    hide Charge, At;
    FirstBuffer(sizes, gso);
  }

  lemma RunningNormal(sizes: seq<nat>, gso: nat, k: nat, base: nat, size: nat, bufs: int)
    requires gso > 0 && 0 < k <= |sizes| && Running(sizes, gso, k, base, size, bufs) && size >= gso
    ensures 0 <= size % gso < gso && base + (size - size % gso) >= 0
    ensures Running(sizes, gso, k, base + (size - size % gso), size % gso, if size % gso > 0 then 1 else 0)
  {
    hide Charge, At;
    Normalise(sizes, gso, k - 1, base, size);
    StartBefore(size, gso, size / gso);
    assert size == size / gso * gso + size % gso;
  }

  lemma RunningNext(sizes: seq<nat>, gso: nat, k: nat, base: nat, size: nat, bufs: int)
    requires gso > 0 && 0 < k < |sizes| && Running(sizes, gso, k, base, size, bufs) && size < gso
    ensures Running(sizes, gso, k + 1, base, size + sizes[k], bufs + 1)
    ensures bufs + 1 <= MAX_BUFS_PER_SEG && WithinLimit(sizes, gso, k) ==> WithinLimit(sizes, gso, k + 1)
    ensures bufs + 1 > MAX_BUFS_PER_SEG ==> !WithinLimit(sizes, gso, |sizes|)
  {
    hide Charge, At, WithinLimit;
    SameSegment(base, size, gso);
    AddOne(sizes, gso, k);
    if bufs + 1 <= MAX_BUFS_PER_SEG {
      if WithinLimit(sizes, gso, k) { OneMore(sizes, gso, k); }
    } else {
      OverLimit(sizes, gso, k + 1, base / gso);
    }
  }

  lemma OverLimit(sizes: seq<nat>, gso: nat, k: nat, s: nat)
    requires gso > 0 && k <= |sizes| && Charge(sizes, gso, k, s) > MAX_BUFS_PER_SEG
    ensures !WithinLimit(sizes, gso, |sizes|)
  {
    hide Charge;
    ChargeGrows(sizes, gso, k, |sizes|, s);
  }

  lemma FirstBuffer(sizes: seq<nat>, gso: nat)
    requires gso > 0 && |sizes| > 0
    ensures At(sizes, 0) == 0 && At(sizes, 1) == sizes[0] && 0 % gso == 0 && 0 / gso == 0
    ensures WithinLimit(sizes, gso, 1)
    ensures Charge(sizes, gso, 1, 0) == if sizes[0] > 0 then 1 else 0
  {
    ModIdem(0, gso);
    if sizes[0] > 0 { DivMonotone(0, sizes[0] - 1, gso); }
    assert forall s ::
      Charge(sizes, gso, 1, s) == Charge(sizes, gso, 0, s) + if Charged(sizes, gso, 0, s) then 1 else 0;
  }

  /** Dropping whole segments leaves the segment the last buffer ends in, and its spill. */
  lemma Normalise(sizes: seq<nat>, gso: nat, i: nat, base: nat, size: nat)
    requires gso > 0 && i < |sizes| && base % gso == 0 && base + size == At(sizes, i + 1) && size >= gso
    requires At(sizes, i) / gso <= base / gso
    ensures var base' := base + (size - size % gso);
      && base' % gso == 0 && base' + size % gso == At(sizes, i + 1) && At(sizes, i) / gso <= base' / gso
      && Charge(sizes, gso, i + 1, base' / gso) == if size % gso > 0 then 1 else 0
  {
    hide Charge, At;
    WholeSegments(base, size, gso);
    Spill(sizes, gso, i);
  }

  lemma WholeSegments(base: nat, size: nat, g: nat)
    requires g > 0 && base % g == 0 && size >= g
    ensures var base' := base + (size - size % g);
      && base' >= base && base' % g == 0 && base' / g > base / g
      && (base + size) / g == base' / g && (base + size) % g == size % g
  {
    var q, base' := size / g, base + (size - size % g);
    assert base == base / g * g && size == q * g + size % g;
    MulDistributes(base / g, -q, g);
    DivModUnique(base', g, base / g + q, 0);
    DivModUnique(base + size, g, base / g + q, size % g);
    DivMonotone(g, size, g);
    DivModUnique(g, g, 1, 0);
    StartBefore(size, g, q);
  }

  lemma AddOne(sizes: seq<nat>, gso: nat, k: nat)
    requires gso > 0 && 0 < k < |sizes|
    ensures At(sizes, k + 1) == At(sizes, k) + sizes[k]
    ensures Charge(sizes, gso, k + 1, At(sizes, k) / gso) == Charge(sizes, gso, k, At(sizes, k) / gso) + 1
  {
    ChargedFromStart(sizes, gso, k, At(sizes, k) / gso);
  }

  // ----- Segments and bytes ------------------------------------------------------------------------------

  /** How many of the first `k` buffers have bytes in segment `s`. */
  ghost function Spread(sizes: seq<nat>, gso: nat, k: nat, s: nat): nat
    requires gso > 0 && k <= |sizes|
  {
    if k == 0 then 0 else Spread(sizes, gso, k - 1, s) + if Touches(sizes, gso, k - 1, s) then 1 else 0
  }

  /** Segments from that of byte `lo` to that of byte `hi`. */
  predicate Between(lo: nat, hi: nat, gso: nat, s: nat)
    requires gso > 0
  {
    lo / gso <= s <= hi / gso
  }

  lemma ByteIsBetween(lo: nat, x: nat, hi: nat, gso: nat)
    requires gso > 0 && lo <= x <= hi
    ensures Between(lo, hi, gso, x / gso)
  {
    DivMonotone(lo, x, gso);
    DivMonotone(x, hi, gso);
  }

  lemma BetweenHasByte(lo: nat, hi: nat, gso: nat, s: nat) returns (x: nat)
    requires gso > 0 && lo <= hi && Between(lo, hi, gso, s)
    ensures lo <= x <= hi && x / gso == s
  {
    if s == lo / gso {
      return lo;
    }
    FirstOfSegment(lo, hi, gso, s);
    return s * gso;
  }

  lemma TouchesIsRange(sizes: seq<nat>, gso: nat, j: nat, s: nat)
    requires gso > 0 && j < |sizes|
    ensures Touches(sizes, gso, j, s) <==>
      sizes[j] > 0 && Between(At(sizes, j), At(sizes, j) + sizes[j] - 1, gso, s)
  {
    hide Between, At;
    var lo, n := At(sizes, j), sizes[j];
    if Touches(sizes, gso, j, s) {
      var x: nat :| lo <= x < lo + n && x / gso == s;
      ByteIsBetween(lo, x, lo + n - 1, gso);
    }
    if n > 0 && Between(lo, lo + n - 1, gso, s) {
      var x := BetweenHasByte(lo, lo + n - 1, gso, s);
    }
  }

  lemma FirstOfSegment(lo: nat, hi: nat, g: nat, s: nat)
    requires g > 0 && lo / g < s <= hi / g
    ensures lo <= s * g <= hi && s * g / g == s
  {
    DivModUnique(s * g, g, s, 0);
    StartAfter(lo, g, s);
    StartBefore(hi, g, s);
  }

  lemma StartAfter(x: nat, g: nat, s: nat)
    requires g > 0 && x / g < s
    ensures x <= s * g
  {
    assert x == x / g * g + x % g;
    MulMonotone(x / g + 1, s, g);
  }

  lemma StartBefore(x: nat, g: nat, s: nat)
    requires g > 0 && s <= x / g
    ensures s * g <= x
  {
    assert x == x / g * g + x % g;
    MulMonotone(s, x / g, g);
  }

  /** How many of the first `k` buffers are empty fragments standing in segment `s`. */
  function Empties(sizes: seq<nat>, gso: nat, k: nat, s: nat): nat
    requires gso > 0 && k <= |sizes|
  {
    if k == 0 then 0
    else Empties(sizes, gso, k - 1, s) + if k > 1 && sizes[k - 1] == 0 && At(sizes, k - 1) / gso == s then 1 else 0
  }

  /** The driver charges a segment for the buffers with bytes in it and for the empty ones standing in it. */
  lemma {:induction false} ChargeIsSpreadAndEmpties(sizes: seq<nat>, gso: nat, k: nat, s: nat)
    requires gso > 0 && k <= |sizes|
    ensures Charge(sizes, gso, k, s) == Spread(sizes, gso, k, s) + Empties(sizes, gso, k, s)
    decreases k
  {
    hide Touches;
    if k == 0 {
    } else {
      ChargeIsSpreadAndEmpties(sizes, gso, k - 1, s);
      TouchesIsRange(sizes, gso, k - 1, s);
    }
  }

  /** Too many buffers have bytes in segment `s`. */
  ghost predicate Overspread(sizes: seq<nat>, gso: nat, s: nat)
    requires gso > 0
  {
    Spread(sizes, gso, |sizes|, s) > 9
  }

  /** Together with the empty fragments, too many buffers stand in segment `s`. */
  ghost predicate Crowded(sizes: seq<nat>, gso: nat, s: nat)
    requires gso > 0
  {
    Spread(sizes, gso, |sizes|, s) + Empties(sizes, gso, |sizes|, s) > MAX_BUFS_PER_SEG
  }

  /** No segment is spread over more than nine buffers. */
  ghost predicate Segmentable(sizes: seq<nat>, gso: nat)
    requires gso > 0
  {
    forall s: nat :: !Overspread(sizes, gso, s)
  }

  lemma RefusedWhenCrowded(sizes: seq<nat>, gso: nat)
    requires gso > 0
    ensures WithinLimit(sizes, gso, |sizes|) <==> forall s: nat :: !Crowded(sizes, gso, s)
  {
    hide Charge, Spread, Empties;
    forall s: nat
      ensures Charge(sizes, gso, |sizes|, s) > MAX_BUFS_PER_SEG <==> Crowded(sizes, gso, s)
    {
      ChargeIsSpreadAndEmpties(sizes, gso, |sizes|, s);
    }
  }

  /**
   The driver's verdict is right on a packet exactly when some segment is spread
   over too many buffers, or none is crowded even with the empty fragments: a
   segmentable packet is refused exactly when empty fragments fill up a segment.
   */
  lemma VerdictIsRightExactly(sizes: seq<nat>, gso: nat)
    requires gso > 0
    ensures WithinLimit(sizes, gso, |sizes|) ==> Segmentable(sizes, gso)
    ensures (WithinLimit(sizes, gso, |sizes|) <==> Segmentable(sizes, gso))
       <==> (exists s: nat :: Overspread(sizes, gso, s)) || (forall s: nat :: !Crowded(sizes, gso, s))
    ensures (Segmentable(sizes, gso) && !WithinLimit(sizes, gso, |sizes|))
       <==> (Segmentable(sizes, gso) && exists s: nat :: !Overspread(sizes, gso, s) && Crowded(sizes, gso, s))
  {
    hide Spread, Empties, WithinLimit;
    RefusedWhenCrowded(sizes, gso);
    forall s: nat | Overspread(sizes, gso, s)
      ensures Crowded(sizes, gso, s)
    {
    }
  }

  lemma {:induction false} NoEmptiesNoCharge(sizes: seq<nat>, gso: nat, k: nat, s: nat)
    requires gso > 0 && k <= |sizes| && forall j :: 0 < j < k ==> sizes[j] > 0
    ensures Empties(sizes, gso, k, s) == 0
    decreases k
  {
    if k == 0 {
    } else {
      NoEmptiesNoCharge(sizes, gso, k - 1, s);
    }
  }

  /** A packet that passes is segmentable; without empty fragments, exactly the segmentable packets pass. */
  lemma CheckMeansSegmentable(linear: nat, frags: seq<nat>, gso: nat)
    requires gso > 0
    ensures var sizes := [linear] + frags;
      && (WithinLimit(sizes, gso, |sizes|) ==> Segmentable(sizes, gso))
      && ((forall i :: 0 <= i < |frags| ==> frags[i] > 0) ==>
            (WithinLimit(sizes, gso, |sizes|) <==> Segmentable(sizes, gso)))
  {
    hide Spread, Empties, WithinLimit;
    var sizes := [linear] + frags;
    VerdictIsRightExactly(sizes, gso);
    if forall i :: 0 <= i < |frags| ==> frags[i] > 0 {
      assert forall j :: 0 < j < |sizes| ==> sizes[j] == frags[j - 1];
      forall s: nat | Crowded(sizes, gso, s)
        ensures Overspread(sizes, gso, s)
      {
        NoEmptiesNoCharge(sizes, gso, |sizes|, s);
      }
    }
  }

  // ----- Empty fragments ------------------------------------------------------------------------------------

  function OneByteAndEmpties(n: nat): seq<nat> {
    [1] + seq(n, _ => 0)
  }

  lemma {:induction false} EmptiesChargeOnly(n: nat, k: nat, s: nat)
    requires k <= n + 1
    ensures Charge(OneByteAndEmpties(n), 100, k, 0) == k
    ensures Spread(OneByteAndEmpties(n), 100, k, s) <= 1
    ensures k > 0 ==> At(OneByteAndEmpties(n), k) == 1
    decreases k
  {
    hide Touches, Between;
    var sizes := OneByteAndEmpties(n);
    if k == 0 {
    } else {
      EmptiesChargeOnly(n, k - 1, s);
      TouchesIsRange(sizes, 100, k - 1, s);
    }
  }

  /** Nine empty fragments make the driver refuse a packet of a single payload byte. */
  lemma EmptyFragmentsCanFail()
    ensures var sizes := OneByteAndEmpties(9);
      Segmentable(sizes, 100) && !WithinLimit(sizes, 100, |sizes|)
  {
    hide Charge, Spread;
    var sizes := OneByteAndEmpties(9);
    forall s: nat
      ensures !Overspread(sizes, 100, s)
    {
      EmptiesChargeOnly(9, 10, s);
    }
    EmptiesChargeOnly(9, 10, 0);
    assert Charge(sizes, 100, |sizes|, 0) == 10;
  }
}
