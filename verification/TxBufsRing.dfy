/**
 The bounce buffer lists as the driver keeps them: `tx_qpl_buf_next` indices,
 two heads and three counters. Each operation is proved to take the steps of
 the state machine it stands for.
 */
module TxBufsRing {
  import opened Lists
  import opened Words
  import opened TxBufsSpec
  import opened TxBufsProofs

  /** The members of `l` are linked one to the next; the last link is not looked at. */
  ghost predicate Strung(next: seq<int>, l: seq<nat>) {
    && (forall i :: 0 <= i < |l| ==> l[i] < |next|)
    && (forall i {:trigger next[l[i]]} :: 0 <= i < |l| - 1 ==> next[l[i]] == l[i + 1])
  }

  ghost predicate Links(next: seq<int>, tx: int, compl: int, s: State) {
    && |next| == s.n && Placed(s)
    && Chain(next, tx, s.consumer)
    && Chain(next, compl, s.producer)
    && (s.compl.CStart? || s.compl.CLoaded? || s.compl.CLinked? ==>
          Strung(next, s.ids[s.compl.tag]) && s.ids[s.compl.tag] != [])
    && (s.compl.CLinked? ==> next[Final(s.ids[s.compl.tag])] == s.compl.seen)
  }

  lemma ListFacts(s: State, b: nat)
    requires Placed(s) && b < s.n
    ensures b in s.consumer <==> s.place[b] == Consumer
    ensures b in s.producer <==> s.place[b] == Producer
    ensures forall t :: 0 <= t < |s.ids| ==> (b in s.ids[t] <==> s.place[b] == Of(t))
  {
  }

  lemma LinkSteal(next: seq<int>, tx: int, compl: int, s: State)
    requires Links(next, tx, compl, s) && s.consumer == []
    ensures Links(next, compl, -1, Steal(s))
  {
    hide OnList;
    StealKeepsPlaced(s);
  }

  lemma LinkPop(next: seq<int>, tx: int, compl: int, s: State)
    requires Links(next, tx, compl, s) && s.tx.Filling? && s.consumer != []
    requires !Busy(s.compl, s.tx.tag)
    ensures tx == s.consumer[0] && tx < |next|
    ensures Links(next, next[tx], compl, Pop(s))
  {
    hide OnList, Strung;
    PopKeepsPlaced(s);
    ChainPop(next, tx, s.consumer);
  }

  /** Putting link `v` behind the last buffer of the chain being freed. */
  lemma LinkLast(next: seq<int>, tx: int, compl: int, s: State)
    requires Links(next, tx, compl, s) && s.compl.CLoaded?
    ensures 0 <= Final(s.ids[s.compl.tag]) < |next|
    ensures Links(next[Final(s.ids[s.compl.tag]) := s.compl.seen], tx, compl, Step(s, CLink))
  {
    hide OnList, Chain;
    var l := s.ids[s.compl.tag];
    var b := l[|l| - 1];
    ListFacts(s, b);
    ChainFrame(next, tx, s.consumer, b, s.compl.seen);
    ChainFrame(next, compl, s.producer, b, s.compl.seen);
    LastIsNew(s, s.compl.tag);
  }

  lemma LastIsNew(s: State, t: nat)
    requires Placed(s) && t < |s.ids| && s.ids[t] != []
    ensures forall i :: 0 <= i < |s.ids[t]| - 1 ==> s.ids[t][i] != Final(s.ids[t])
  {
    assert OnList(s.place, s.ids[t], Of(t));
  }

  /** A chain in front of a list whose head its last member points at. */
  lemma StrungPrepend(next: seq<int>, head: int, m: seq<nat>, l: seq<nat>)
    requires Chain(next, head, m) && Strung(next, l) && l != []
    requires next[Final(l)] == head
    ensures Chain(next, l[0], l + m)
  {
    var all := l + m;
    forall i | 0 <= i < |all|
      ensures all[i] < |next| && next[all[i]] == After(all, i)
    {
      if i < |l| - 1 {
        assert next[l[i]] == l[i + 1];
      } else if i >= |l| {
        assert all[i] == m[i - |l|] && next[m[i - |l|]] == After(m, i - |l|);
      }
    }
  }

  lemma LinkCas(next: seq<int>, tx: int, compl: int, s: State)
    requires Links(next, tx, compl, s) && s.compl.CLinked?
    ensures s.ids[s.compl.tag] != []
    ensures Links(next, tx, if compl == s.compl.seen then s.ids[s.compl.tag][0] else compl, Cas(s))
  {
    hide OnList;
    CasKeepsPlaced(s);
    if compl == s.compl.seen {
      StrungPrepend(next, compl, s.producer, s.ids[s.compl.tag]);
    }
  }

  lemma StealFacts(next: seq<int>, tx: int, compl: int, s: State)
    requires Links(next, tx, compl, s) && Inv(s)
    requires s.tx.Filling? && s.tx.off < s.tx.len && s.consumer == []
    ensures InBounds(s) && Links(next, compl, -1, Steal(s)) && Inv(Steal(s)) && Steal(s).consumer != []
    ensures Steal(s) == s.(consumer := s.producer, producer := [], place := Steal(s).place)
    ensures compl == First(s.producer)
  {
    hide OnList, Counted, Filled;
    LinkSteal(next, tx, compl, s);
    StepKeepsInv(s, TxSteal);
    assert Step(s, TxSteal) == Steal(s);
  }

  lemma PopFacts(next: seq<int>, tx: int, compl: int, s: State)
    requires Links(next, tx, compl, s) && Inv(s)
    requires s.tx.Filling? && s.tx.off < s.tx.len && s.consumer != []
    ensures InBounds(s) && 0 <= tx == s.consumer[0] && tx < |next|
    ensures Links(next, next[tx], compl, Pop(s)) && Inv(Pop(s))
    ensures var t, s' := s.tx.tag, Pop(s);
      && s'.ids == s.ids[t := s.ids[t] + [s.consumer[0]]] && s'.n == s.n
      && s'.alloc == U32(s.alloc + 1) && s'.cached == s.cached && s'.free == s.free
  {
    hide OnList, Counted, PromiseKept, Chain;
    LinkPop(next, tx, compl, s);
    StepKeepsInv(s, TxPop);
  }

  lemma MemberFacts(next: seq<int>, tx: int, compl: int, s: State, t: nat)
    requires Links(next, tx, compl, s) && t < |s.ids| && s.ids[t] != []
    ensures Chain(next, tx, s.consumer) && Chain(next, compl, s.producer)
    ensures forall i :: 0 <= i < |s.ids[t]| ==> s.ids[t][i] < |next|
    ensures forall i :: 0 <= i < |s.ids[t]| ==> s.ids[t][i] !in s.consumer && s.ids[t][i] !in s.producer
    ensures NoDup(s.ids[t])
    ensures Strung(next, s.ids[t][..1])
  {
    assert OnList(s.place, s.ids[t], Of(t));
    forall i | 0 <= i < |s.ids[t]|
      ensures s.ids[t][i] < |next| && s.ids[t][i] !in s.consumer && s.ids[t][i] !in s.producer
    {
      ListFacts(s, s.ids[t][i]);
    }
  }

  lemma StrungOn(next: seq<int>, l: seq<nat>, i: nat)
    requires 0 < i < |l| && NoDup(l) && (forall j :: 0 <= j < |l| ==> l[j] < |next|)
    requires Strung(next, l[..i])
    ensures Strung(next[l[i - 1] := l[i]], l[..i + 1])
  {
    var next', m := next[l[i - 1] := l[i]], l[..i + 1];
    forall j | 0 <= j < |m| - 1
      ensures next'[m[j]] == m[j + 1]
    {
      if j < i - 1 {
        assert l[..i][j] == l[j] && next[l[..i][j]] == l[..i][j + 1];
      }
    }
  }

  lemma BeginFacts(was: seq<int>, next: seq<int>, tx: int, compl: int, s: State, t: nat)
    requires Links(was, tx, compl, s) && Inv(s) && |was| == |next|
    requires s.compl.CIdle? && t < |s.ids| && s.posted[t]
    requires s.ids[t] == [] ==> next == was
    requires s.ids[t] != [] ==>
      Strung(next, s.ids[t]) && Chain(next, tx, s.consumer) && Chain(next, compl, s.producer)
    ensures InBounds(s) && Links(next, tx, compl, Step(s, Complete(t))) && Inv(Step(s, Complete(t)))
  {
    hide OnList, Counted, PromiseKept, Filled, Chain;
    StepKeepsInv(s, Complete(t));
  }

  lemma LinkFacts(next: seq<int>, tx: int, compl: int, s: State)
    requires Links(next, tx, compl, s) && Inv(s) && s.compl.CLoaded?
    ensures InBounds(s) && s.ids[s.compl.tag] != [] && 0 <= Final(s.ids[s.compl.tag]) < |next|
    ensures Links(next[Final(s.ids[s.compl.tag]) := s.compl.seen], tx, compl, Step(s, CLink))
    ensures Inv(Step(s, CLink))
  {
    hide OnList, Counted, PromiseKept, Filled, Chain;
    LinkLast(next, tx, compl, s);
    StepKeepsInv(s, CLink);
  }

  lemma CasFacts(next: seq<int>, tx: int, compl: int, s: State)
    requires Links(next, tx, compl, s) && Inv(s) && s.compl.CLinked?
    ensures InBounds(s) && s.ids[s.compl.tag] != [] && compl == First(s.producer)
    ensures Links(next, tx, if compl == s.compl.seen then s.ids[s.compl.tag][0] else compl, Step(s, CCas))
    ensures Inv(Step(s, CCas))
  {
    hide OnList, Counted, PromiseKept, Filled;
    LinkCas(next, tx, compl, s);
    StepKeepsInv(s, CCas);
  }

  class BufRing {
    const n: nat
    const next: array<int>        // tx_qpl_buf_next
    const bufs: array<seq<nat>>   // per pending packet: tx_qpl_buf_ids, up to num_bufs
    var txHead: int
    var complHead: int
    var alloc: nat
    var cached: nat
    var free: nat

    // The state of the machine this ring is in.
    ghost var s: State

    ghost predicate Valid()
      reads this, next, bufs
    {
      && n == s.n && bufs[..] == s.ids
      && alloc == s.alloc && cached == s.cached && free == s.free
      && Links(next[..], txHead, complHead, s)
      && Inv(s)
    }

    lemma Facts()
      requires Valid()
      ensures next.Length == n && InBounds(s) && bufs.Length == |s.ids|
      ensures txHead == First(s.consumer) && complHead == First(s.producer)
    {
    }

    /** `gve_tx_qpl_buf_init`: all buffers on the sender's list, in order. */
    constructor (n: nat, tags: nat)
      requires 0 < n < 0x8000
      ensures Valid() && fresh(next) && fresh(bufs)
      ensures s == Init(n, tags)
    {
      this.n := n;
      next := new int[n];
      bufs := new seq<nat>[tags](_ => []);
      txHead, complHead := 0, -1;
      alloc, cached, free := 0, 0, 0;
      s := Init(n, tags);
      new;
      for i := 0 to n - 1
        modifies next
        invariant forall j :: 0 <= j < i ==> next[j] == j + 1
      {
        next[i] := i + 1;
      }
      next[n - 1] := -1;
      InitInv(n, tags);
      assert Links(next[..], txHead, complHead, s);
    }

    /** `gve_has_free_tx_qpl_bufs` */
    method HasFree(len: nat) returns (ok: bool)
      requires Valid() && s.tx == TxIdle
      modifies `cached, `s
      ensures Valid() && s == Step(old(s), TxCheck(len))
      ensures ok <==> s.tx == Admitted(len)
    {
      hide Links, Inv, Pieces, U32;
      Facts();
      var count := Pieces(len);
      if count <= Int32(U32(n - U32(alloc - cached))) {
        ok := true;
      } else {
        cached := free;
        ok := count <= Int32(U32(n - U32(alloc - cached)));
      }
      s := Step(s, TxCheck(len));
      KeepsValid(old(s), TxCheck(len), next[..], txHead, complHead);
    }

    /** Steps that leave lists and links alone. */
    static lemma KeepsValid(s: State, a: Action, next: seq<int>, tx: int, compl: int)
      requires Links(next, tx, compl, s) && Inv(s)
      requires a.TxCheck? || a.TxAbandon? || a.TxBegin? || a.TxPost? || a.CLoad? || a.CCount?
      ensures InBounds(s) && Links(next, tx, compl, Step(s, a)) && Inv(Step(s, a))
    {
      hide OnList, Counted, PromiseKept, Filled, Chain, NumAvail, Pieces, U32;
      StepKeepsInv(s, a);
    }

    /** `gve_alloc_tx_qpl_buf` and the bookkeeping of its caller: in an admitted packet it cannot fail. */
    method AllocBuf(tag: nat) returns (index: int)
      requires Valid() && s.tx.Filling? && s.tx.tag == tag && s.tx.off < s.tx.len
      modifies `txHead, `complHead, `alloc, `s, bufs
      ensures Valid()
      ensures InBounds(old(s))
      ensures var s0 := if old(s).consumer == [] then Steal(old(s)) else old(s);
        && s0.consumer != [] && InBounds(s0) && s0.tx.Filling?
        && index == s0.consumer[0] && s == Pop(s0)
    {
      hide Links, Inv, Pop, Steal;
      Facts();
      index := txHead;
      ghost var s0 := s;
      if index == -1 {
        StealFacts(next[..], txHead, complHead, s);
        txHead, complHead := complHead, -1;
        index := txHead;
        s0 := Steal(s);
      }
      PopFacts(next[..], txHead, complHead, s0);
      txHead := next[index];
      bufs[tag] := bufs[tag] + [index];
      alloc := U32(alloc + 1);
      s := Pop(s0);
      assert bufs[..] == old(bufs[..])[tag := old(bufs[tag]) + [index]];
    }

    /** `gve_free_tx_qpl_bufs`, first part: string the packet's buffers together. */
    method BeginFree(tag: nat)
      requires Valid() && s.compl.CIdle? && tag < |s.ids| && s.posted[tag]
      modifies `s, next
      ensures Valid() && InBounds(old(s)) && s == Step(old(s), Complete(tag))
    {
      hide Links, Inv, OnList, Chain;
      Facts();
      var l := bufs[tag];
      if |l| > 0 {
        MemberFacts(next[..], txHead, complHead, s, tag);
        for i := 1 to |l|
          modifies next
          invariant Strung(next[..], l[..i])
          invariant Chain(next[..], txHead, s.consumer) && Chain(next[..], complHead, s.producer)
        {
          ghost var was := next[..];
          next[l[i - 1]] := l[i];
          assert next[..] == was[l[i - 1] := l[i] as int];
          ChainFrame(was, txHead, s.consumer, l[i - 1], l[i]);
          ChainFrame(was, complHead, s.producer, l[i - 1], l[i]);
          StrungOn(was, l, i);
        }
        assert l[..|l|] == l;
      }
      s := Step(s, Complete(tag));
      BeginFacts(old(next[..]), next[..], txHead, complHead, old(s), tag);
    }

    /** The compare-and-swap loop, one atomic operation at a time: read the head, */
    method PushLoad() returns (seen: int)
      requires Valid() && s.compl.CStart?
      modifies `s
      ensures Valid() && InBounds(old(s)) && s == Step(old(s), CLoad)
      ensures seen == s.compl.seen
    {
      hide Links, Inv;
      Facts();
      seen := complHead;
      s := Step(s, CLoad);
      KeepsValid(old(s), CLoad, next[..], txHead, complHead);
    }

    /** link the end of the chain to it, */
    method PushLink(tag: nat, seen: int)
      requires Valid() && s.compl == CLoaded(tag, seen)
      modifies `s, next
      ensures Valid() && InBounds(old(s)) && s == Step(old(s), CLink)
    {
      hide Links, Inv, OnList;
      Facts();
      LinkFacts(next[..], txHead, complHead, s);
      var last := bufs[tag][|bufs[tag]| - 1];
      next[last] := seen;
      s := Step(s, CLink);
      assert next[..] == old(next[..])[last := seen];
    }

    /** and swap the chain in if the head is still what it was. */
    method PushCas(tag: nat, seen: int) returns (done: bool)
      requires Valid() && s.compl == CLinked(tag, seen)
      modifies `complHead, `s, bufs
      ensures Valid() && InBounds(old(s)) && s == Step(old(s), CCas)
      ensures done <==> s.compl.CPushed?
      ensures done ==> s.compl.k == |old(s).ids[tag]|
    {
      hide Links, Inv, OnList;
      Facts();
      CasFacts(next[..], txHead, complHead, s);
      done := complHead == seen;
      if done {
        complHead := bufs[tag][0];
        bufs[tag] := [];
        assert bufs[..] == old(bufs[..])[tag := []];
      }
      s := Step(s, CCas);
    }

    /** The chain is on the list; only now is it counted as free. */
    method AddFree(k: nat)
      requires Valid() && s.compl.CPushed? && s.compl.k == k
      modifies `free, `s
      ensures Valid() && InBounds(old(s)) && s == Step(old(s), CCount)
    {
      hide Links, Inv;
      Facts();
      free := U32(free + k);
      s := Step(s, CCount);
      KeepsValid(old(s), CCount, next[..], txHead, complHead);
    }
  }
}
