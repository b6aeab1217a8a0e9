/** The driver's 32-bit counters. */
module Words {
  const WRAP: nat := 0x1_0000_0000

  function U32(x: int): nat {
    x % WRAP
  }

  /** The same bits read as a signed integer. */
  function Int32(x: nat): int {
    if x < 0x8000_0000 then x else x - WRAP
  }

  /** Counters that have wrapped still give the exact difference. */
  lemma Difference(a: nat, b: nat)
    requires 0 <= a - b < WRAP
    ensures U32(U32(a) - U32(b)) == a - b
  {
  }

  lemma Advanced(a: nat, k: nat)
    ensures U32(U32(a) + k) == U32(a + k)
  {
  }
}

/** Rings addressed by free-running counters. */
module Rings {
  import opened Arith
  import opened Words

  /** The slot of a counter: the counter masked. */
  function Index(x: nat, slots: nat): (i: nat)
    requires slots > 0
    ensures i < slots
  {
    x % slots
  }

  lemma IndexApart(x: nat, y: nat, slots: nat)
    requires slots > 0 && x < y < x + slots
    ensures Index(x, slots) != Index(y, slots)
  {
    SlotsDiffer(x, y, slots);
  }

  /** Where the ring size divides the range, a wrapped counter names the same slot. */
  lemma IndexOfU32(x: nat, slots: nat)
    requires slots > 0 && WRAP % slots == 0
    ensures Index(U32(x), slots) == Index(x, slots)
  {
    var q, m := x / WRAP, WRAP / slots;
    assert x == q * WRAP + x % WRAP && WRAP == m * slots;
    MulAssoc(q, m, slots);
    ModShift(x % WRAP, q * m, slots);
  }

  lemma MulAssoc(a: int, b: int, c: int)
    ensures a * (b * c) == (a * b) * c
  {
  }

  /** `ds` written into consecutive slots from counter `at` on. */
  function Put<T>(ring: seq<T>, at: nat, ds: seq<T>): (r: seq<T>)
    requires |ring| > 0
    ensures |r| == |ring|
    decreases |ds|
  {
    if ds == [] then ring else Put(ring, at, ds[..|ds| - 1])[Index(at + |ds| - 1, |ring|) := ds[|ds| - 1]]
  }

  lemma {:induction false} PutNew<T>(ring: seq<T>, at: nat, ds: seq<T>, i: nat)
    requires |ring| > 0 && i < |ds| <= |ring|
    ensures Put(ring, at, ds)[Index(at + i, |ring|)] == ds[i]
    decreases |ds|
  {
    hide Index;
    if i == |ds| - 1 {
    } else {
      PutNew(ring, at, ds[..|ds| - 1], i);
      IndexApart(at + i, at + |ds| - 1, |ring|);
    }
  }

  lemma {:induction false} PutOld<T>(ring: seq<T>, at: nat, ds: seq<T>, x: nat)
    requires |ring| > 0 && x < at && at + |ds| <= x + |ring|
    ensures Put(ring, at, ds)[Index(x, |ring|)] == ring[Index(x, |ring|)]
    decreases |ds|
  {
    hide Index;
    if ds == [] {
    } else {
      PutOld(ring, at, ds[..|ds| - 1], x);
      IndexApart(x, at + |ds| - 1, |ring|);
    }
  }

  lemma PutOne<T>(ring: seq<T>, at: nat, ds: seq<T>, k: nat)
    requires |ring| > 0 && k < |ds|
    ensures Put(ring, at, ds[..k])[Index(at + k, |ring|) := ds[k]] == Put(ring, at, ds[..k + 1])
  {
    hide Index;
    assert ds[..k + 1][..k] == ds[..k];
  }

  lemma PutNone<T>(ring: seq<T>, at: nat)
    requires |ring| > 0
    ensures Put(ring, at, []) == ring
  {
  }

  /** From index `y` on to index `x` round the ring: the difference masked. */
  function RingDistance(x: nat, y: nat, n: nat): int
    requires n > 0
  {
    (x % n - y % n) % n
  }

  lemma SubMod(a: int, c: int, n: int)
    requires n > 0
    ensures (a % n - c) % n == (a - c) % n
  {
    ModShift(a - c, -(a / n), n);
    MulDistributes(0, a / n, n);
    DivMod(a, n);
  }

  lemma SubOfMod(a: int, c: int, n: int)
    requires n > 0
    ensures (a - c % n) % n == (a - c) % n
  {
    ModShift(a - c, c / n, n);
    DivMod(c, n);
  }

  lemma DivMod(a: int, n: int)
    requires n > 0
    ensures a == a / n * n + a % n
  {
  }

  lemma ModAtMost(d: nat, n: nat)
    requires n > 0
    ensures 0 <= d % n <= d && d % n < n && (d < n ==> d % n == d)
  {
    if d < n {
      ModIdem(d, n);
    }
  }

  /** The distance the driver computes round the ring: exact when short, never too long. */
  lemma Distance(x: nat, y: nat, n: nat)
    requires n > 0 && y <= x
    ensures 0 <= RingDistance(x, y, n) <= x - y && RingDistance(x, y, n) < n
    ensures x - y < n ==> RingDistance(x, y, n) == x - y
  {
    SubMod(x, y % n, n);
    SubOfMod(x, y, n);
    ModAtMost(x - y, n);
  }

  /** Going `k` further round. */
  lemma DistanceGrows(x: nat, y: nat, k: nat, n: nat)
    requires n > 0 && RingDistance(x, y, n) + k < n
    ensures RingDistance(Index(x + k, n), y, n) == RingDistance(x, y, n) + k
  {
    var u := x % n - y % n;
    ModIdem(Index(x + k, n), n);
    SubMod(x + k, y % n, n);
    SubMod(x, y % n - k, n);
    RemainderBounds(u, n);
    ModAdd(u, k, n);
  }

  lemma RemainderBounds(u: int, n: int)
    requires n > 0
    ensures 0 <= u % n < n
  {
  }

  lemma IndexNext(x: nat, n: nat)
    requires n > 0
    ensures Index(Index(x, n) + 1, n) == Index(x + 1, n)
  {
    ModShift(Index(x, n) + 1, x / n, n);
    assert x + 1 == Index(x, n) + 1 + x / n * n;
  }

  lemma IndexPlus(x: nat, k: nat, n: nat)
    requires n > 0
    ensures Index(Index(x, n) + k, n) == Index(x + k, n)
  {
    ModShift(Index(x, n) + k, x / n, n);
    assert x + k == Index(x, n) + k + x / n * n;
  }

  lemma {:induction false} PutAt<T>(ring: seq<T>, at: nat, ds: seq<T>)
    requires |ring| > 0
    ensures Put(ring, Index(at, |ring|), ds) == Put(ring, at, ds)
    decreases |ds|
  {
    hide Index;
    if ds == [] {
    } else {
      PutAt(ring, at, ds[..|ds| - 1]);
      IndexPlus(at, |ds| - 1, |ring|);
    }
  }

  lemma {:induction false} PutAppend<T>(ring: seq<T>, at: nat, a: seq<T>, b: seq<T>)
    requires |ring| > 0
    ensures Put(Put(ring, at, a), at + |a|, b) == Put(ring, at, a + b)
    decreases |b|
  {
    hide Index;
    if b == [] {
      assert a + b == a;
    } else {
      var front := b[..|b| - 1];
      PutAppend(ring, at, a, front);
      assert (a + b)[..|a + b| - 1] == a + front;
    }
  }
}
