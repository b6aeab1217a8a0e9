/** Facts about division and remainder on rings of any size. */
module Arith {

  lemma MulAtLeast(k: int, n: int)
    requires n > 0 && k >= 1
    ensures k * n >= n
  {
  }

  lemma MulMonotone(a: int, b: int, n: int)
    requires a <= b && n > 0
    ensures a * n <= b * n
  {
    MulNonNegative(b - a, n);
    MulDistributes(b, a, n);
  }

  lemma MulNonNegative(a: int, n: int)
    requires a >= 0 && n > 0
    ensures a * n >= 0
  {
  }

  lemma MulDistributes(b: int, a: int, n: int)
    ensures (b - a) * n == b * n - a * n
  {
  }

  lemma DivModUnique(x: int, n: int, q: int, r: int)
    requires n > 0 && x == q * n + r && 0 <= r < n
    ensures x / n == q && x % n == r
  {
    var q', r' := x / n, x % n;
    assert x == q' * n + r';
    assert (q - q') * n == r' - r && (q' - q) * n == r - r';
    if q > q' {
      MulAtLeast(q - q', n);
    } else if q < q' {
      MulAtLeast(q' - q, n);
    }
  }

  /** Moving `d` further round a ring of `n`. */
  lemma ModAdd(x: int, d: int, n: int)
    requires 0 <= d < n
    ensures (x + d) % n == if x % n + d < n then x % n + d else x % n + d - n
  {
    var q, r := x / n, x % n;
    if r + d < n {
      DivModUnique(x + d, n, q, r + d);
    } else {
      assert (q + 1) * n == q * n + n;
      DivModUnique(x + d, n, q + 1, r + d - n);
    }
  }

  /** Positions less than one turn apart are different slots. */
  lemma SlotsDiffer(x: int, y: int, n: int)
    requires n > 0 && 0 < y - x < n
    ensures x % n != y % n
  {
    ModAdd(x, y - x, n);
  }

  lemma ModIdem(r: int, n: int)
    requires 0 <= r < n
    ensures r % n == r && r / n == 0
  {
    DivModUnique(r, n, 0, r);
  }

  /** Ring slot `i` steps on from `start`. */
  function Slot(start: nat, i: nat, n: nat): (slot: nat)
    requires n > 0
    ensures slot < n
  {
    (start + i) % n
  }

  lemma SlotStart(start: nat, n: nat)
    requires start < n
    ensures Slot(start, 0, n) == start
  {
    ModIdem(start, n);
  }

  lemma SlotShift(start: nat, i: nat, n: nat)
    requires n > 0
    ensures Slot(Slot(start, 1, n), i, n) == Slot(start, i + 1, n)
  {
    var x := start + 1;
    assert (x % n + i) - (x + i) == -(x / n) * n;
    ModShift(x + i, -(x / n), n);
  }

  lemma ModShift(x: int, k: int, n: int)
    requires n > 0
    ensures (x + k * n) % n == x % n
  {
    assert x + k * n == (x / n + k) * n + x % n;
    DivModUnique(x + k * n, n, x / n + k, x % n);
  }

  /** Once round the ring. */
  lemma SlotRound(start: nat, n: nat)
    requires start < n
    ensures Slot(Slot(start, 1, n), n - 1, n) == start
  {
    SlotShift(start, n - 1, n);
    ModShift(start, 1, n);
    ModIdem(start, n);
  }

  function Sum(w: seq<int>): int {
    if w == [] then 0 else Sum(w[..|w| - 1]) + w[|w| - 1]
  }

  lemma {:induction false} SumUpdate(w: seq<int>, i: nat, v: int)
    requires i < |w|
    ensures Sum(w[i := v]) == Sum(w) - w[i] + v
    decreases |w|
  {
    var last := |w| - 1;
    if i == last {
      assert w[i := v][..last] == w[..last];
    } else {
      SumUpdate(w[..last], i, v);
      assert w[i := v][..last] == w[..last][i := v];
    }
  }

  lemma {:induction false} SumOfZeros(w: seq<int>)
    requires forall i :: 0 <= i < |w| ==> w[i] == 0
    ensures Sum(w) == 0
    decreases |w|
  {
    if w == [] {
    } else {
      SumOfZeros(w[..|w| - 1]);
    }
  }
}
