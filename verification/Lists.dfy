/**
 Index-linked lists: the driver keeps its free, recycled, used, miss and
 timed-out lists as indices into an array, with -1 for "none". `Chain` ties
 such a list to the sequence of its members.
 */
module Lists {

  function First(l: seq<nat>): int {
    if |l| == 0 then -1 else l[0]
  }

  function Final(l: seq<nat>): int {
    if |l| == 0 then -1 else l[|l| - 1]
  }

  /** The link a member at position `i` must hold. */
  function After(l: seq<nat>, i: nat): int
    requires i < |l|
  {
    if i + 1 < |l| then l[i + 1] else -1
  }

  /** The back link a member at position `i` must hold. */
  function Before(l: seq<nat>, i: nat): int
    requires i < |l|
  {
    if i > 0 then l[i - 1] else -1
  }

  ghost predicate NoDup<T>(l: seq<T>) {
    forall i, j :: 0 <= i < j < |l| ==> l[i] != l[j]
  }

  /** Following `next` from `head` visits exactly `l` and then stops at -1. */
  ghost predicate Chain(next: seq<int>, head: int, l: seq<nat>) {
    && head == First(l)
    && (forall i :: 0 <= i < |l| ==> l[i] < |next|)
    && (forall i {:trigger next[l[i]]} :: 0 <= i < |l| ==> next[l[i]] == After(l, i))
  }

  /** `prev` runs through `l` backwards. */
  ghost predicate BackChain(prev: seq<int>, tail: int, l: seq<nat>) {
    && tail == Final(l)
    && (forall i :: 0 <= i < |l| ==> l[i] < |prev|)
    && (forall i {:trigger prev[l[i]]} :: 0 <= i < |l| ==> prev[l[i]] == Before(l, i))
  }

  /** A chain that ends at -1 cannot revisit a node. */
  lemma {:induction false} ChainIsAcyclic(next: seq<int>, head: int, l: seq<nat>)
    requires Chain(next, head, l)
    ensures NoDup(l)
  {
    forall i, j | 0 <= i < j < |l|
      ensures l[i] != l[j]
    {
      if l[i] == l[j] {
        SameNodeSameSuffix(next, head, l, i, j);
      }
    }
  }

  lemma {:induction false} SameNodeSameSuffix(next: seq<int>, head: int, l: seq<nat>, i: nat, j: nat)
    requires Chain(next, head, l)
    requires i < j < |l|
    ensures l[i] != l[j]
    decreases |l| - j
  {
    if l[i] == l[j] {
      assert next[l[i]] == After(l, i) && next[l[j]] == After(l, j);
      if j + 1 < |l| {
        SameNodeSameSuffix(next, head, l, i + 1, j + 1);
      }
    }
  }

  lemma ChainHead(next: seq<int>, head: int, l: seq<nat>)
    requires Chain(next, head, l)
    ensures |l| == 0 <==> head == -1
    ensures |l| > 0 ==> l[0] == head && l[0] < |next|
  {
  }

  /** The links determine the list. */
  lemma {:induction false} ChainIsUnique(next: seq<int>, head: int, l: seq<nat>, m: seq<nat>)
    requires Chain(next, head, l) && Chain(next, head, m)
    ensures l == m
    decreases |l|
  {
    hide Chain;
    ChainHead(next, head, l);
    ChainHead(next, head, m);
    if |l| == 0 {
    } else {
      ChainPop(next, head, l);
      ChainPop(next, head, m);
      ChainIsUnique(next, next[l[0]], l[1..], m[1..]);
      assert l == [l[0]] + l[1..] && m == [m[0]] + m[1..];
    }
  }

  lemma ChainFrame(next: seq<int>, head: int, l: seq<nat>, t: nat, v: int)
    requires Chain(next, head, l)
    requires t < |next| && t !in l
    ensures Chain(next[t := v], head, l)
  {
  }

  lemma ChainPush(next: seq<int>, head: int, l: seq<nat>, t: nat)
    requires Chain(next, head, l)
    requires t < |next| && t !in l
    ensures Chain(next[t := head], t, [t] + l)
  {
  }

  lemma ChainPop(next: seq<int>, head: int, l: seq<nat>)
    requires Chain(next, head, l)
    requires |l| > 0
    ensures Chain(next, next[l[0]], l[1..])
  {
    assert next[l[0]] == After(l, 0) == First(l[1..]);
    forall i | 0 <= i < |l[1..]|
      ensures l[1..][i] < |next| && next[l[1..][i]] == After(l[1..], i)
    {
      assert l[1..][i] == l[i + 1];
    }
  }

  lemma ChainAppend(next: seq<int>, head: int, l: seq<nat>, t: nat)
    requires Chain(next, head, l) && NoDup(l)
    requires t < |next| && t !in l && |l| > 0
    ensures Chain(next[t := -1][l[|l| - 1] := t], head, l + [t])
  {
  }

  // ----- Which list every node is on ---------------------------------------------------

  /** `l` holds exactly the nodes whose place is `p`, each once. */
  ghost predicate OnList<P>(place: seq<P>, l: seq<nat>, p: P) {
    && NoDup(l)
    && (forall i :: 0 <= i < |l| ==> l[i] < |place| && place[l[i]] == p)
    && (forall b :: 0 <= b < |place| && place[b] == p ==> b in l)
  }

  lemma OnListFrame<P>(place: seq<P>, l: seq<nat>, p: P, b: nat, q: P)
    requires OnList(place, l, p)
    requires b < |place| && place[b] != p && q != p
    ensures OnList(place[b := q], l, p)
  {
  }

  lemma OnListPop<P>(place: seq<P>, l: seq<nat>, p: P, q: P)
    requires OnList(place, l, p) && |l| > 0 && q != p
    ensures OnList(place[l[0] := q], l[1..], p)
  {
    forall b | 0 <= b < |place| && place[l[0] := q][b] == p
      ensures b in l[1..]
    {
      assert b in l;
    }
  }

  lemma OnListAppend<P>(place: seq<P>, l: seq<nat>, p: P, b: nat)
    requires OnList(place, l, p)
    requires b < |place| && place[b] != p
    ensures OnList(place[b := p], l + [b], p)
  {
    var m := l + [b];
    forall x | 0 <= x < |place| && place[b := p][x] == p
      ensures x in m
    {
      if x == b { assert m[|l|] == b; } else { assert x in l; }
    }
  }

  lemma OnListPrepend<P>(place: seq<P>, l: seq<nat>, p: P, b: nat)
    requires OnList(place, l, p)
    requires b < |place| && place[b] != p
    ensures OnList(place[b := p], [b] + l, p)
  {
    var m := [b] + l;
    forall x | 0 <= x < |place| && place[b := p][x] == p
      ensures x in m
    {
      if x == b { assert m[0] == b; } else { assert x in l; }
    }
  }

  lemma OnListRotate<P>(place: seq<P>, l: seq<nat>, p: P)
    requires OnList(place, l, p) && |l| > 0
    ensures OnList(place, l[1..] + [l[0]], p)
  {
    var m := l[1..] + [l[0]];
    forall b | 0 <= b < |place| && place[b] == p
      ensures b in m
    {
      var i :| 0 <= i < |l| && l[i] == b;
      if i == 0 { assert m[|l| - 1] == b; } else { assert m[i - 1] == b; }
    }
  }

  /** Everything at `p` goes to `q` at once. */
  function Moved<P(==)>(place: seq<P>, p: P, q: P): seq<P> {
    seq(|place|, i requires 0 <= i < |place| => if place[i] == p then q else place[i])
  }

  lemma OnListMoved<P>(place: seq<P>, l: seq<nat>, p: P, m: seq<nat>, q: P)
    requires OnList(place, l, p) && OnList(place, m, q) && p != q
    ensures OnList(Moved(place, p, q), l + m, q)
    ensures OnList(Moved(place, p, q), [], p)
  {
    var place', all := Moved(place, p, q), l + m;
    forall i, j | 0 <= i < j < |all|
      ensures all[i] != all[j]
    {
      assert place[all[i]] == if i < |l| then p else q;
      assert place[all[j]] == if j < |l| then p else q;
    }
    forall b | 0 <= b < |place| && place'[b] == q
      ensures b in all
    {
      assert b in l || b in m;
    }
  }

  lemma OnListMovedFrame<P>(place: seq<P>, l: seq<nat>, r: P, p: P, q: P)
    requires OnList(place, l, r) && r != p && r != q
    ensures OnList(Moved(place, p, q), l, r)
  {
  }

  /** `l` without its member at position `k`. */
  function Without(l: seq<nat>, k: nat): seq<nat>
    requires k < |l|
  {
    l[..k] + l[k + 1..]
  }

  lemma OnListRemove<P>(place: seq<P>, l: seq<nat>, p: P, k: nat, q: P)
    requires OnList(place, l, p) && k < |l| && q != p
    ensures OnList(place[l[k] := q], Without(l, k), p)
  {
    var m := Without(l, k);
    assert forall i :: 0 <= i < |m| ==> m[i] == if i < k then l[i] else l[i + 1];
    forall b | 0 <= b < |place| && place[l[k] := q][b] == p
      ensures b in m
    {
      var i :| 0 <= i < |l| && l[i] == b;
      assert m[if i < k then i else i - 1] == b;
    }
  }

  lemma WithoutLength(l: seq<nat>, k: nat)
    requires k < |l|
    ensures |Without(l, k)| == |l| - 1
  {
  }

  lemma WithoutAt(l: seq<nat>, k: nat, i: nat)
    requires k < |l| && i + 1 < |l|
    ensures |Without(l, k)| == |l| - 1
    ensures Without(l, k)[i] == if i < k then l[i] else l[i + 1]
  {
  }

  // ----- Doubly linked lists --------------------------------------------------------------

  lemma BackFrame(prev: seq<int>, tail: int, l: seq<nat>, t: nat, v: int)
    requires BackChain(prev, tail, l) && t < |prev| && t !in l
    ensures BackChain(prev[t := v], tail, l)
  {
  }

  lemma BackTail(prev: seq<int>, tail: int, l: seq<nat>)
    requires BackChain(prev, tail, l)
    ensures |l| == 0 <==> tail == -1
    ensures |l| > 0 ==> l[|l| - 1] == tail && tail < |prev|
  {
  }

  /** Forward links after appending `t` behind `tail`. */
  function AppendNext(next: seq<int>, tail: int, t: nat): seq<int>
    requires t < |next| && -1 <= tail < |next|
  {
    (if tail == -1 then next else next[tail := t])[t := -1]
  }

  lemma AppendForward(next: seq<int>, head: int, l: seq<nat>, t: nat)
    requires Chain(next, head, l) && NoDup(l) && t < |next| && t !in l
    ensures -1 <= Final(l) < |next|
    ensures Chain(AppendNext(next, Final(l), t), if Final(l) == -1 then t else head, l + [t])
  {
  }

  lemma AppendBackward(prev: seq<int>, tail: int, l: seq<nat>, t: nat)
    requires BackChain(prev, tail, l) && t < |prev| && t !in l
    ensures BackChain(prev[t := tail], t, l + [t])
  {
  }

  lemma AppendElsewhere(next: seq<int>, head: int, l: seq<nat>, tail: int, t: nat)
    requires Chain(next, head, l) && t < |next| && t !in l
    requires -1 <= tail < |next| && (tail >= 0 ==> tail !in l)
    ensures Chain(AppendNext(next, tail, t), head, l)
  {
  }

  /** Write `v` through link `i`, unless `i` is -1. */
  function WriteAt(a: seq<int>, i: int, v: int): seq<int>
    requires -1 <= i < |a|
  {
    if i == -1 then a else a[i := v]
  }

  lemma UnlinkForward(next: seq<int>, head: int, l: seq<nat>, k: nat)
    requires Chain(next, head, l) && NoDup(l) && k < |l|
    ensures -1 <= Before(l, k) < |next|
    ensures Chain(WriteAt(next, Before(l, k), After(l, k)),
                  if Before(l, k) == -1 then After(l, k) else head, Without(l, k))
  {
    hide Without;
    WithoutLength(l, k);
    var m, next' := Without(l, k), WriteAt(next, Before(l, k), After(l, k));
    forall i | 0 <= i < |m|
      ensures m[i] < |next'| && next'[m[i]] == After(m, i)
    {
      WithoutAt(l, k, i);
      if i + 1 < |m| { WithoutAt(l, k, i + 1); }
    }
    if |m| > 0 { WithoutAt(l, k, 0); }
  }

  lemma UnlinkBackward(prev: seq<int>, tail: int, l: seq<nat>, k: nat)
    requires BackChain(prev, tail, l) && NoDup(l) && k < |l|
    ensures -1 <= After(l, k) < |prev|
    ensures BackChain(WriteAt(prev, After(l, k), Before(l, k)),
                      if After(l, k) == -1 then Before(l, k) else tail, Without(l, k))
  {
    hide Without;
    WithoutLength(l, k);
    var m, prev' := Without(l, k), WriteAt(prev, After(l, k), Before(l, k));
    forall i | 0 <= i < |m|
      ensures m[i] < |prev'| && prev'[m[i]] == Before(m, i)
    {
      WithoutAt(l, k, i);
      if i > 0 { WithoutAt(l, k, i - 1); }
    }
    if |m| > 0 { WithoutAt(l, k, |m| - 1); }
  }
}
