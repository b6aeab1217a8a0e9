/**
 The page-count bias: the driver takes a large number of references on a page
 up front and hands them to SKBs by lowering `bias` instead of raising the
 page's count. `refs` is what the driver cannot see: the chunk (offset) of the
 page behind every reference an SKB still holds.
 */
module PageRefs {

  const INT_MAX: int := 0x7fff_ffff

  datatype PageRef = PageRef(count: int, bias: int, refs: multiset<nat>)

  /** A page as set up by the driver: it owns every reference. */
  function Fresh(): PageRef {
    PageRef(INT_MAX, INT_MAX, multiset{})
  }

  /** All the driver can observe: `page_count(page) - pagecnt_bias`. */
  function RefCnt(p: PageRef): int {
    p.count - p.bias
  }

  ghost predicate Inv(p: PageRef) {
    && RefCnt(p) == |p.refs|
    && 1 <= p.bias
    && p.count <= INT_MAX
  }

  /** An SKB fragment on chunk `c`: one reference moves from the driver to the SKB. */
  function AddFrag(p: PageRef, c: nat): PageRef {
    var refs := p.refs + multiset{c};
    if p.bias - 1 == 0 then
      PageRef(p.count + (INT_MAX - p.count), INT_MAX - p.count, refs)
    else
      PageRef(p.count, p.bias - 1, refs)
  }

  /** `gve_dec_pagecnt_bias` after a fragment on chunk `c`, when the stack does not run in between. */
  method DecPagecntBias(p: PageRef, c: nat) returns (q: PageRef)
    ensures q == AddFrag(p, c)
    ensures RefCnt(q) == RefCnt(p) + 1
  {
    q := p.(bias := p.bias - 1, refs := p.refs + multiset{c});
    if q.bias == 0 {
      var pagecount := q.count;
      q := q.(bias := INT_MAX - pagecount);
      q := q.(count := q.count + (INT_MAX - pagecount));
    }
  }

  /** The stack puts the page reference of one fragment on chunk `c`. */
  function Drop(p: PageRef, c: nat): PageRef {
    if c in p.refs then PageRef(p.count - 1, p.bias, p.refs - multiset{c}) else p
  }

  /**
   The stack takes one more reference on a chunk it already refers to, as when
   an SKB is split. The page count is an `int`, so there has to be room in it.
   */
  function GetRef(p: PageRef, c: nat): PageRef {
    if c in p.refs && p.count < INT_MAX then PageRef(p.count + 1, p.bias, p.refs + multiset{c}) else p
  }

  lemma DropRefs(p: PageRef, c: nat)
    ensures Drop(p, c).refs == p.refs - multiset{c}
  {
  }

  lemma TakeRefs(p: PageRef, c: nat)
    ensures GetRef(p, c).refs == if c in p.refs && p.count < INT_MAX then p.refs + multiset{c} else p.refs
  {
  }

  lemma GetRefKeepsInv(p: PageRef, c: nat)
    requires Inv(p)
    ensures Inv(GetRef(p, c))
    ensures forall x :: x in GetRef(p, c).refs <==> x in p.refs
  {
    assert |p.refs + multiset{c}| == |p.refs| + 1;
  }

  function AtLeastOne(x: nat): nat {
    if x == 0 then 1 else x
  }

  /** The references out on `chunks` chunks, and one kept back for every chunk nobody refers to. */
  function Claims(refs: multiset<nat>, chunks: nat): nat {
    if chunks == 0 then 0 else Claims(refs, chunks - 1) + AtLeastOne(refs[chunks - 1])
  }

  /** References on `chunks` chunks only, so few that the driver can still hand out every free chunk. */
  ghost predicate Covered(refs: multiset<nat>, chunks: nat) {
    (forall c :: c in refs ==> c < chunks) && Claims(refs, chunks) <= INT_MAX - 1
  }

  lemma {:induction false} ClaimsElsewhere(refs: multiset<nat>, refs': multiset<nat>, c: nat, chunks: nat)
    requires forall x :: x != c ==> refs'[x] == refs[x]
    ensures c >= chunks ==> Claims(refs', chunks) == Claims(refs, chunks)
    ensures c < chunks ==>
      Claims(refs', chunks) + AtLeastOne(refs[c]) == Claims(refs, chunks) + AtLeastOne(refs'[c])
    decreases chunks
  {
    hide AtLeastOne;
    if chunks == 0 {
    } else {
      ClaimsElsewhere(refs, refs', c, chunks - 1);
    }
  }

  lemma {:induction false} RefsWithinClaims(refs: multiset<nat>, chunks: nat)
    requires forall c :: c in refs ==> c < chunks
    ensures |refs| <= Claims(refs, chunks)
    decreases chunks
  {
    if chunks == 0 {
      assert refs == multiset{};
    } else {
      var rest := refs[chunks - 1 := 0];
      assert |refs| == |rest| + refs[chunks - 1];
      RefsWithinClaims(rest, chunks - 1);
      ClaimsElsewhere(rest, refs, chunks - 1, chunks - 1);
    }
  }

  /** A fragment on a free chunk uses what was kept back for it. */
  lemma FragKeepsCovered(refs: multiset<nat>, chunks: nat, c: nat)
    requires Covered(refs, chunks) && c < chunks && c !in refs
    ensures |refs| < INT_MAX - 1 && Covered(refs + multiset{c}, chunks)
  {
    hide Claims;
    ClaimsElsewhere(refs, refs + multiset{c}, c, chunks);
    RefsWithinClaims(refs + multiset{c}, chunks);
    assert |refs + multiset{c}| == |refs| + 1;
  }

  lemma DropKeepsCovered(p: PageRef, chunks: nat, c: nat)
    requires Covered(p.refs, chunks)
    ensures Covered(Drop(p, c).refs, chunks)
  {
    hide Claims;
    ClaimsElsewhere(p.refs, Drop(p, c).refs, c, chunks);
  }

  lemma GetRefKeepsCovered(p: PageRef, chunks: nat, c: nat)
    requires Covered(p.refs, chunks) && Claims(p.refs, chunks) < INT_MAX - 1
    ensures Covered(GetRef(p, c).refs, chunks)
  {
    hide Claims;
    ClaimsElsewhere(p.refs, GetRef(p, c).refs, c, chunks);
  }

  lemma {:induction false} NoRefsCovered(chunks: nat)
    ensures Claims(multiset{}, chunks) == chunks
  {
    if chunks == 0 {
    } else {
      NoRefsCovered(chunks - 1);
    }
  }

  /**
   The bias trick survives a new fragment except when the refill finds the
   whole `int` range already handed out, which is when all references but the
   driver's last are out.
   */
  lemma AddFragKeepsInvExactly(p: PageRef, c: nat)
    requires Inv(p)
    ensures Inv(AddFrag(p, c)) <==> !(p.bias == 1 && p.count == INT_MAX)
    ensures Inv(AddFrag(p, c)) <==> |p.refs| < INT_MAX - 1
    ensures RefCnt(AddFrag(p, c)) == RefCnt(p) + 1
  {
    assert |p.refs + multiset{c}| == |p.refs| + 1;
  }

  /** With every reference but one handed out and none dropped, the next fragment has nothing to refill from. */
  lemma LastReferenceCannotBeRefilled(c: nat)
    ensures var p := PageRef(INT_MAX, 1, multiset{}[0 := INT_MAX - 1]);
      Inv(p) && !Inv(AddFrag(p, c)) && AddFrag(p, c).bias == 0
  {
    var p := PageRef(INT_MAX, 1, multiset{}[0 := INT_MAX - 1]);
    assert |p.refs| == INT_MAX - 1;
    AddFragKeepsInvExactly(p, c);
  }

  lemma DropKeepsInv(p: PageRef, c: nat)
    requires Inv(p)
    ensures Inv(Drop(p, c))
    ensures c in p.refs ==> RefCnt(Drop(p, c)) == RefCnt(p) - 1
  {
    if c in p.refs {
      assert p.refs == (p.refs - multiset{c}) + multiset{c};
    }
  }
}

/** The refill of the bias, one memory access at a time, with the stack running beside it. */
module PageRefill {
  import opened PageRefs

  /** Where the driver is inside the decrement of the bias. */
  datatype Pc =
    | Idle
    | Zeroed               // bias has reached 0, the page count is not read yet
    | Counted(seen: int)   // page count read into a local
    | Rebiased(seen: int)  // bias rewritten, the page count not raised yet

  /** `held` are references of the SKB the driver is still building. */
  datatype Window = Window(page: PageRef, pc: Pc, held: multiset<nat>)

  datatype Action =
    | Begin(c: nat)    // add a fragment, lower the bias
    | ReadCount
    | WriteBias
    | RaiseCount
    | StackDrop(c: nat)
    | StackTake(c: nat)
    | HandOver         // the finished SKB goes to the stack

  /** The page count has room for one more reference, also once a refill under way is finished. */
  predicate RoomFor(w: Window) {
    match w.pc
    case Idle => w.page.count < INT_MAX
    case Zeroed => w.page.count < INT_MAX - 1
    case Counted(seen) => w.page.count < seen
    case Rebiased(seen) => w.page.count < seen
  }

  function Step(w: Window, a: Action): Window {
    match a
    case Begin(c) =>
      if w.pc.Idle? && |w.page.refs| < INT_MAX - 1 then
        var page := PageRef(w.page.count, w.page.bias - 1, w.page.refs + multiset{c});
        Window(page, if page.bias == 0 then Zeroed else Idle, w.held + multiset{c})
      else w
    case ReadCount =>
      if w.pc.Zeroed? then w.(pc := Counted(w.page.count)) else w
    case WriteBias =>
      if w.pc.Counted? then
        Window(w.page.(bias := INT_MAX - w.pc.seen), Rebiased(w.pc.seen), w.held)
      else w
    case RaiseCount =>
      if w.pc.Rebiased? then
        Window(w.page.(count := w.page.count + (INT_MAX - w.pc.seen)), Idle, w.held)
      else w
    case StackDrop(c) =>
      if c in w.page.refs - w.held then w.(page := Drop(w.page, c)) else w
    case StackTake(c) =>
      if c in w.page.refs - w.held && RoomFor(w) then
        w.(page := w.page.(count := w.page.count + 1, refs := w.page.refs + multiset{c}))
      else w
    case HandOver =>
      if w.pc.Idle? then w.(held := multiset{}) else w
  }

  function Exec(w: Window, actions: seq<Action>): Window
    decreases |actions|
  {
    if actions == [] then w
    else Step(Exec(w, actions[..|actions| - 1]), actions[|actions| - 1])
  }

  ghost predicate WindowInv(w: Window) {
    && w.held <= w.page.refs
    && match w.pc
       case Idle => Inv(w.page)
       case Zeroed =>
         w.page.bias == 0 && 1 <= |w.held| && w.page.count == |w.page.refs| < INT_MAX
       case Counted(seen) =>
         w.page.bias == 0 && 1 <= |w.held| && w.page.count == |w.page.refs| <= seen < INT_MAX
       case Rebiased(seen) =>
         && w.page.bias == INT_MAX - seen
         && 1 <= |w.held| && w.page.count == |w.page.refs| <= seen < INT_MAX
  }

  lemma SubsetSize(a: multiset<nat>, b: multiset<nat>)
    requires a <= b
    ensures |a| <= |b|
  {
    assert b == a + (b - a);
  }

  lemma BeginKeepsWindowInv(w: Window, c: nat)
    requires WindowInv(w)
    ensures WindowInv(Step(w, Begin(c)))
  {
    assert |w.page.refs + multiset{c}| == |w.page.refs| + 1;
    assert |w.held + multiset{c}| == |w.held| + 1;
  }

  lemma DropKeepsWindowInv(w: Window, c: nat)
    requires WindowInv(w)
    ensures WindowInv(Step(w, StackDrop(c)))
  {
    if c in w.page.refs - w.held {
      assert w.page.refs == (w.page.refs - multiset{c}) + multiset{c};
      assert w.held <= w.page.refs - multiset{c};
    }
  }

  lemma TakeKeepsWindowInv(w: Window, c: nat)
    requires WindowInv(w)
    ensures WindowInv(Step(w, StackTake(c)))
  {
    assert |w.page.refs + multiset{c}| == |w.page.refs| + 1;
  }

  lemma StepKeepsWindowInv(w: Window, a: Action)
    requires WindowInv(w)
    ensures WindowInv(Step(w, a))
  {
    match a
    case Begin(c) => BeginKeepsWindowInv(w, c);
    case StackDrop(c) => DropKeepsWindowInv(w, c);
    case StackTake(c) => TakeKeepsWindowInv(w, c);
    case _ =>
  }

  /**
   In every reachable state the page is alive; whenever the driver is between
   two operations, what it computes is the number of outstanding references,
   and the count is not below the bias.
   */
  lemma {:induction false} BiasTrickIsSound(actions: seq<Action>)
    ensures var w := Exec(Window(Fresh(), Idle, multiset{}), actions);
      && WindowInv(w)
      && w.page.count >= 1
      && (w.pc.Idle? ==> RefCnt(w.page) == |w.page.refs| && w.page.count >= w.page.bias >= 1)
  {
    var start := Window(Fresh(), Idle, multiset{});
    if actions == [] {
    } else {
      BiasTrickIsSound(actions[..|actions| - 1]);
      StepKeepsWindowInv(Exec(start, actions[..|actions| - 1]), actions[|actions| - 1]);
    }
    var w := Exec(start, actions);
    SubsetSize(w.held, w.page.refs);
  }

  /**
   The page the rest of the driver may reason about: the decrement takes effect
   at once when no refill is needed, and otherwise when the count is read.
   */
  function View(w: Window, c: nat): PageRef {
    match w.pc
    case Idle => w.page
    case Zeroed => PageRef(w.page.count, 1, w.page.refs - multiset{c})
    case Counted(seen) => PageRef(w.page.count + (INT_MAX - seen), INT_MAX - seen, w.page.refs)
    case Rebiased(seen) => PageRef(w.page.count + (INT_MAX - seen), INT_MAX - seen, w.page.refs)
  }

  lemma BeginTakesEffect(w: Window, c: nat)
    requires WindowInv(w) && |w.page.refs| < INT_MAX - 1 && w.pc.Idle?
    ensures View(Step(w, Begin(c)), c) == if w.page.bias == 1 then w.page else AddFrag(w.page, c)
  {
    assert w.page.refs + multiset{c} - multiset{c} == w.page.refs;
  }

  lemma ReadTakesEffect(w: Window, c: nat)
    requires WindowInv(w) && w.pc.Zeroed? && c in w.held
    ensures View(Step(w, ReadCount), c) == AddFrag(View(w, c), c)
  {
    assert w.page.refs == (w.page.refs - multiset{c}) + multiset{c};
  }

  /**
   The interleaved refill refines the atomic one. Seen through `View`, adding a
   fragment on chunk `c` happens exactly once: at `Begin`, or at `ReadCount`
   when the bias ran out.
   */
  lemma RefillTakesEffectOnce(w: Window, c: nat)
    requires WindowInv(w) && |w.page.refs| < INT_MAX - 1
    ensures w.pc.Idle? ==>
      View(Step(w, Begin(c)), c) == if w.page.bias == 1 then w.page else AddFrag(w.page, c)
    ensures w.pc.Zeroed? && c in w.held ==>
      View(Step(w, ReadCount), c) == AddFrag(View(w, c), c)
    ensures View(Step(w, WriteBias), c) == View(w, c)
    ensures View(Step(w, RaiseCount), c) == View(w, c)
  {
    hide AddFrag;
    if w.pc.Idle? {
      BeginTakesEffect(w, c);
    } else if w.pc.Zeroed? && c in w.held {
      ReadTakesEffect(w, c);
    }
  }

  /** Anywhere in the refill, a reference put by the stack is one atomic drop. */
  lemma DropDuringRefillIsAtomic(w: Window, c: nat, d: nat)
    requires WindowInv(w) && d in w.page.refs - w.held
    requires w.pc.Zeroed? ==> c in w.held
    ensures View(Step(w, StackDrop(d)), c) == Drop(View(w, c), d)
  {
    if c in w.held {
      DropsCommute(w.page.refs, w.held, c, d);
    }
  }

  /** So is a reference the stack takes again. */
  lemma TakeDuringRefillIsAtomic(w: Window, c: nat, d: nat)
    requires WindowInv(w) && d in w.page.refs - w.held && RoomFor(w)
    requires w.pc.Zeroed? ==> c in w.held
    ensures View(Step(w, StackTake(d)), c) == GetRef(View(w, c), d)
  {
    if w.pc.Zeroed? {
      DropsCommute(w.page.refs, w.held, c, d);
      assert w.page.refs + multiset{d} - multiset{c} == w.page.refs - multiset{c} + multiset{d};
    }
  }

  lemma DropsCommute(refs: multiset<nat>, held: multiset<nat>, c: nat, d: nat)
    requires c in held && d in refs - held
    ensures d in refs - multiset{c}
    ensures refs - multiset{d} - multiset{c} == refs - multiset{c} - multiset{d}
  {
  }
}
