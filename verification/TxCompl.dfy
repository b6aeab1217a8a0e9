/**
 Why the DQO transmit completion ring is never overrun. Its `n` slots are shared
 by packet completions, at most two for every tag, and descriptor completions,
 one for every report event; the number of tags and the spacing of report
 events are chosen so that all of them always fit.
 */
module TxCompl {
  import opened Arith
  import opened Rings
  import opened TxDesc

  const RE_INTERVAL: nat := 32   // GVE_TX_MIN_RE_INTERVAL
  const S16_MAX: nat := 0x7fff

  /** `num_pending_packets` for rings of `n` slots */
  function NumTags(n: nat): nat {
    var t := (n - n / RE_INTERVAL) / 2;
    if t < S16_MAX then t else S16_MAX
  }

  /** As many tags as there is room for two completions each, beside one for every 32 slots. */
  lemma TagsFillTheRing(n: nat)
    ensures 2 * NumTags(n) + n / 32 <= n && NumTags(n) <= 32767
    ensures NumTags(n) < 32767 ==> 2 * (NumTags(n) + 1) + n / 32 > n
  {
  }

  datatype Kind = Data | Miss | Reinject

  datatype Completion = Pkt(kind: Kind, tag: nat) | Head(h: nat)

  /** What the driver expects for a tag, and what the device still has to say about it. */
  datatype Driver = Free | PendingData | PendingReinject | TimedOut
  datatype Device = Quiet | Posted | Missed

  /** Ring positions count up without wrapping; the driver keeps them modulo `n`. */
  datatype State = State(
    n: nat, tail: nat, head: nat, hwHead: nat, lastRe: nat, // head: the sender's copy of hwHead
    events: seq<nat>,     // report events not acknowledged yet
    sent: nat,            // how many of them the device has completed
    driver: seq<Driver>, device: seq<Device>,
    ring: seq<Completion>) // written by the device, not read yet

  // ----- Sending ------------------------------------------------------------------------------

  /** The event asked for on the last of the descriptors up to `tail`, if it is far enough from the one before. */
  function Mark(s: State): State
    requires s.n > 0 && s.tail > 0
  {
    var last := s.tail - 1;
    if RingDistance(last, s.lastRe, s.n) >= RE_INTERVAL
    then s.(events := s.events + [last], lastRe := last)
    else s
  }

  // ----- The machine ----------------------------------------------------------------------------

  datatype Action =
    | Send(tag: nat, count: nat)  // a packet of `count` descriptors
    | ReadHead                    // the sender refreshes its head
    | DevPkt(tag: nat) | DevMiss(tag: nat) | DevReinject(tag: nat) | DevHead
    | Read                        // the driver takes the next completion
    | Expire(tag: nat)            // a missed packet has waited too long
    | Dealloc(tag: nat)           // a timed-out tag is given up

  predicate InBounds(s: State) {
    && s.n > 0 && |s.driver| == |s.device|
    && s.sent <= |s.events|
  }

  function Names(ring: seq<Completion>, t: nat): seq<Kind> {
    if ring == [] then []
    else
      var rest := Names(ring[..|ring| - 1], t);
      var c := ring[|ring| - 1];
      if c.Pkt? && c.tag == t then rest + [c.kind] else rest
  }

  function Say(s: State, kind: Kind, t: nat, d: Device): State
    requires t < |s.device|
  {
    s.(device := s.device[t := d], ring := s.ring + [Pkt(kind, t)])
  }

  function Hear(s: State, kind: Kind, t: nat): State
    requires |s.driver| == |s.device|
  {
    if t >= |s.driver| then s
    else
      match (kind, s.driver[t])
      case (Data, PendingData) => s.(driver := s.driver[t := Free])
      case (Miss, PendingData) => s.(driver := s.driver[t := PendingReinject])
      case (Reinject, PendingReinject) => s.(driver := s.driver[t := Free])
      case (Reinject, TimedOut) => s.(driver := s.driver[t := Free])
      case _ => s
  }

  /** The next completion; a descriptor completion moves the head to just behind its event. */
  function Take(s: State): State
    requires |s.driver| == |s.device| && s.ring != []
  {
    var s' := s.(ring := s.ring[1..]);
    match s.ring[0]
    case Pkt(kind, t) => Hear(s', kind, t)
    case Head(h) =>
      s'.(hwHead := h, events := if s.events == [] then [] else s.events[1..],
          sent := if s.sent == 0 then 0 else s.sent - 1)
  }

  function Step(s: State, a: Action): State
    requires InBounds(s)
  {
    match a
    case Send(t, count) =>
      if t < |s.driver| && s.driver[t] == Free && count > 0 && NumAvail(s.n, s.tail, s.head) >= count + KEEP_FREE
      then Mark(s.(tail := s.tail + count, driver := s.driver[t := PendingData], device := s.device[t := Posted]))
      else s
    case ReadHead => s.(head := s.hwHead)
    case DevPkt(t) => if t < |s.device| && s.device[t] == Posted then Say(s, Data, t, Quiet) else s
    case DevMiss(t) => if t < |s.device| && s.device[t] == Posted then Say(s, Miss, t, Missed) else s
    case DevReinject(t) => if t < |s.device| && s.device[t] == Missed then Say(s, Reinject, t, Quiet) else s
    case DevHead =>
      if s.sent < |s.events| then s.(sent := s.sent + 1, ring := s.ring + [Head(s.events[s.sent] + 1)]) else s
    case Read => if s.ring == [] then s else Take(s)
    case Expire(t) =>
      if t < |s.driver| && s.driver[t] == PendingReinject then s.(driver := s.driver[t := TimedOut]) else s
    case Dealloc(t) =>
      // the device has nothing more to say about the tag, now or later
      if t < |s.driver| && s.driver[t] == TimedOut && Names(s.ring, t) == []
      then s.(driver := s.driver[t := Free], device := s.device[t := Quiet])
      else s
  }

  function Init(n: nat, tags: nat): State {
    State(n, 0, 0, 0, 0, [], 0, seq(tags, _ => Free), seq(tags, _ => Quiet), [])
  }

  // ----- What each tag may have outstanding ---------------------------------------------------------

  /** The unread completions of a tag, given where its driver and device stand. */
  predicate Script(drv: Driver, dev: Device, unread: seq<Kind>) {
    match drv
    case Free => dev == Quiet && unread == []
    case PendingData =>
      match dev {
        case Posted => unread == []
        case Missed => unread == [Miss]
        case Quiet => unread == [Data] || unread == [Miss, Reinject]
      }
    case _ => if dev == Missed then unread == [] else dev == Quiet && unread == [Reinject]
  }

  ghost predicate Tags(s: State) {
    && |s.driver| == |s.device|
    && (forall t :: 0 <= t < |s.driver| ==> Script(s.driver[t], s.device[t], Names(s.ring, t)))
    && (forall i :: 0 <= i < |s.ring| && s.ring[i].Pkt? ==> s.ring[i].tag < |s.driver|)
  }

  lemma NamesPush(ring: seq<Completion>, c: Completion, t: nat)
    ensures Names(ring + [c], t) == if c.Pkt? && c.tag == t then Names(ring, t) + [c.kind] else Names(ring, t)
  {
    assert (ring + [c])[..|ring|] == ring;
  }

  lemma {:induction false} NamesPop(ring: seq<Completion>, t: nat)
    requires ring != []
    ensures var c := ring[0];
      Names(ring, t) == if c.Pkt? && c.tag == t then [c.kind] + Names(ring[1..], t) else Names(ring[1..], t)
    decreases |ring|
  {
    var last := ring[|ring| - 1];
    if |ring| == 1 {
      assert ring[..0] == [] && ring[1..] == [];
      assert Names([], t) == [];
    } else {
      var front := ring[..|ring| - 1];
      NamesPop(front, t);
      assert ring[1..] == front[1..] + [last];
      NamesPush(front[1..], last, t);
    }
  }

  lemma SayKeepsTags(s: State, kind: Kind, t: nat, d: Device)
    requires Tags(s) && t < |s.device|
    requires Script(s.driver[t], d, Names(s.ring, t) + [kind])
    ensures Tags(Say(s, kind, t, d))
  {
    hide Script, Names;
    var s' := Say(s, kind, t, d);
    forall u | 0 <= u < |s.driver|
      ensures Script(s'.driver[u], s'.device[u], Names(s'.ring, u))
    {
      NamesPush(s.ring, Pkt(kind, t), u);
    }
  }

  lemma TakeKeepsTags(s: State)
    requires Tags(s) && s.ring != []
    ensures Tags(Take(s))
  {
    hide Names;
    var s', c := Take(s), s.ring[0];
    forall u | 0 <= u < |s.driver|
      ensures Script(s'.driver[u], s'.device[u], Names(s'.ring, u))
    {
      assert Script(s.driver[u], s.device[u], Names(s.ring, u));
      NamesPop(s.ring, u);
      if c.Pkt? && c.tag == u {
        assert Names(s.ring, u)[1..] == Names(s'.ring, u);
        assert Names(s.ring, u)[0] == c.kind;
      }
    }
  }

  lemma StepKeepsTags(s: State, a: Action)
    requires InBounds(s) && Tags(s)
    ensures Tags(Step(s, a))
  {
    hide Names;
    match a
    case DevPkt(t) =>
      if t < |s.device| && s.device[t] == Posted {
        assert Script(s.driver[t], s.device[t], Names(s.ring, t));
        SayKeepsTags(s, Data, t, Quiet);
      }
    case DevMiss(t) =>
      if t < |s.device| && s.device[t] == Posted {
        assert Script(s.driver[t], s.device[t], Names(s.ring, t));
        SayKeepsTags(s, Miss, t, Missed);
      }
    case DevReinject(t) =>
      if t < |s.device| && s.device[t] == Missed {
        assert Script(s.driver[t], s.device[t], Names(s.ring, t));
        SayKeepsTags(s, Reinject, t, Quiet);
      }
    case DevHead =>
      if s.sent < |s.events| {
        forall u | 0 <= u < |s.driver|
          ensures Names(Step(s, a).ring, u) == Names(s.ring, u)
        {
          NamesPush(s.ring, Head(s.events[s.sent] + 1), u);
        }
      }
    case Read =>
      if s.ring != [] { TakeKeepsTags(s); }
    case _ =>
  }

  // ----- Report events -----------------------------------------------------------------------------

  /** The descriptor completions in the ring, in order. */
  function Heads(ring: seq<Completion>): seq<nat> {
    if ring == [] then []
    else
      var rest := Heads(ring[..|ring| - 1]);
      var c := ring[|ring| - 1];
      if c.Head? then rest + [c.h] else rest
  }

  lemma HeadsPush(ring: seq<Completion>, c: Completion)
    ensures Heads(ring + [c]) == if c.Head? then Heads(ring) + [c.h] else Heads(ring)
  {
    assert (ring + [c])[..|ring|] == ring;
  }

  lemma {:induction false} HeadsPop(ring: seq<Completion>)
    requires ring != []
    ensures Heads(ring) == if ring[0].Head? then [ring[0].h] + Heads(ring[1..]) else Heads(ring[1..])
    decreases |ring|
  {
    var last := ring[|ring| - 1];
    if |ring| == 1 {
      assert ring[..0] == [] && ring[1..] == [];
      assert Heads([]) == [];
    } else {
      var front := ring[..|ring| - 1];
      HeadsPop(front);
      assert ring[1..] == front[1..] + [last];
      HeadsPush(front[1..], last);
    }
  }

  ghost predicate Spaced(events: seq<nat>) {
    forall i, j :: 0 <= i < j < |events| ==> events[j] - events[i] >= RE_INTERVAL * (j - i)
  }

  ghost predicate Window(s: State) {
    && s.head <= s.hwHead <= s.tail && s.lastRe <= s.tail
    && (s.tail == s.head || s.tail - s.head <= s.n - 1 - KEEP_FREE)
  }

  ghost predicate Events(s: State) {
    && InBounds(s) && Window(s)
    && Spaced(s.events)
    && (forall i :: 0 <= i < |s.events| ==> s.hwHead <= s.events[i] < s.tail)
    && (s.events != [] ==> s.events[|s.events| - 1] == s.lastRe)
    && (s.n < RE_INTERVAL ==> s.events == [])
    && |Heads(s.ring)| == s.sent
    && (forall i :: 0 <= i < s.sent ==> Heads(s.ring)[i] == s.events[i] + 1)
  }

  lemma SendKeepsEvents(s: State, t: nat, count: nat)
    requires Events(s)
    ensures Events(Step(s, Send(t, count)))
  {
    hide Heads, NumAvail, Mark;
    AvailIsExact(s);
    if t < |s.driver| && s.driver[t] == Free && count > 0 && NumAvail(s.n, s.tail, s.head) >= count + KEEP_FREE {
      var m := s.(tail := s.tail + count, driver := s.driver[t := PendingData], device := s.device[t := Posted]);
      assert Events(m);
      MarkKeepsEvents(m);
    }
  }

  lemma AvailIsExact(s: State)
    requires InBounds(s) && Window(s)
    ensures NumAvail(s.n, s.tail, s.head) == s.n - 1 - (s.tail - s.head)
  {
    Distance(s.tail, s.head, s.n);
  }

  lemma SpacedAppend(events: seq<nat>, e: nat)
    requires Spaced(events) && (events != [] ==> e - events[|events| - 1] >= RE_INTERVAL)
    ensures Spaced(events + [e])
  {
    var all := events + [e];
    forall i, j | 0 <= i < j < |all|
      ensures all[j] - all[i] >= RE_INTERVAL * (j - i)
    {
      if j == |events| && i < j - 1 {
        assert events[j - 1] - events[i] >= RE_INTERVAL * (j - 1 - i);
      }
    }
  }

  lemma SpacedTail(events: seq<nat>)
    requires Spaced(events) && events != []
    ensures Spaced(events[1..])
    ensures forall i :: 0 <= i < |events[1..]| ==> events[1..][i] >= events[0] + RE_INTERVAL
  {
    forall i | 0 <= i < |events[1..]|
      ensures events[1..][i] >= events[0] + RE_INTERVAL
    {
      assert events[i + 1] - events[0] >= RE_INTERVAL * (i + 1);
    }
  }

  lemma MarkKeepsEvents(s: State)
    requires Events(s) && s.tail > 0 && s.hwHead < s.tail && s.lastRe < s.tail
    ensures Events(Mark(s))
  {
    hide Heads, Spaced, RingDistance;
    var last := s.tail - 1;
    Distance(last, s.lastRe, s.n);
    if RingDistance(last, s.lastRe, s.n) >= RE_INTERVAL {
      SpacedAppend(s.events, last);
    }
  }

  lemma TakeKeepsEvents(s: State)
    requires Events(s) && s.ring != []
    ensures Events(Take(s))
  {
    hide Heads, Spaced;
    HeadsPop(s.ring);
    if s.ring[0].Head? {
      TakeHead(s, Heads(s.ring), Heads(s.ring[1..]));
    }
  }

  /** The oldest event is acknowledged; those behind it are ahead of the new head. */
  lemma TakeHead(s: State, heads: seq<nat>, rest: seq<nat>)
    requires Events(s) && s.ring != [] && s.ring[0].Head?
    requires heads == Heads(s.ring) && rest == Heads(s.ring[1..]) && heads == [s.ring[0].h] + rest
    ensures Events(Take(s))
  {
    hide Heads, Spaced;
    var s' := Take(s);
    assert s.sent > 0 && heads[0] == s.ring[0].h == s.events[0] + 1;
    SpacedTail(s.events);
    forall i | 0 <= i < s'.sent
      ensures rest[i] == s'.events[i] + 1
    {
      assert rest[i] == heads[i + 1] && s'.events[i] == s.events[i + 1];
    }
  }

  lemma StepKeepsEvents(s: State, a: Action)
    requires Events(s)
    ensures Events(Step(s, a))
  {
    hide Heads, Names, Spaced, Mark, NumAvail;
    match a
    case Send(t, count) => SendKeepsEvents(s, t, count);
    case Read =>
      if s.ring != [] { TakeKeepsEvents(s); }
    case DevHead =>
      if s.sent < |s.events| { HeadsPush(s.ring, Head(s.events[s.sent] + 1)); }
    case DevPkt(t) => HeadsPush(s.ring, Pkt(Data, t));
    case DevMiss(t) => HeadsPush(s.ring, Pkt(Miss, t));
    case DevReinject(t) => HeadsPush(s.ring, Pkt(Reinject, t));
    case _ =>
  }

  /** Events 32 apart in a window shorter than the ring: no more than one for every 32 slots. */
  lemma FewEvents(s: State)
    requires Events(s) && (s.n % RE_INTERVAL == 0 || s.n < RE_INTERVAL)
    ensures |s.events| <= s.n / RE_INTERVAL
  {
    hide Heads;
    if |s.events| > 1 {
      assert s.events[|s.events| - 1] - s.events[0] >= RE_INTERVAL * (|s.events| - 1);
    }
  }

  // ----- Counting ------------------------------------------------------------------------------------

  function Shares(ring: seq<Completion>, tags: nat): seq<int> {
    seq(tags, t requires 0 <= t => |Names(ring, t)|)
  }

  /** Every completion in the ring belongs to one tag or to an event. */
  lemma {:induction false} RingIsShared(ring: seq<Completion>, tags: nat)
    requires forall i :: 0 <= i < |ring| && ring[i].Pkt? ==> ring[i].tag < tags
    ensures |ring| == |Heads(ring)| + Sum(Shares(ring, tags))
  {
    hide Sum;
    if ring == [] {
      NoShares(tags);
    } else {
      var front, c := ring[..|ring| - 1], ring[|ring| - 1];
      RingIsShared(front, tags);
      assert ring == front + [c];
      if c.Pkt? {
        var t := c.tag;
        assert Shares(ring, tags) == Shares(front, tags)[t := |Names(front, t)| + 1];
        SumUpdate(Shares(front, tags), t, |Names(front, t)| + 1);
      } else {
        assert Shares(ring, tags) == Shares(front, tags);
      }
    }
  }

  lemma NoShares(tags: nat)
    ensures Sum(Shares([], tags)) == 0
  {
    SumOfZeros(Shares([], tags));
  }

  lemma {:induction false} SumAtMost(w: seq<int>, m: nat)
    requires forall i :: 0 <= i < |w| ==> w[i] <= m
    ensures Sum(w) <= m * |w|
  {
    if w == [] {
    } else {
      SumAtMost(w[..|w| - 1], m);
      assert m * |w| == m * (|w| - 1) + m;
    }
  }

  // ----- Runs ------------------------------------------------------------------------------------------

  ghost predicate Inv(s: State) {
    Tags(s) && Events(s)
  }

  ghost function Exec(s: State, actions: seq<Action>): (r: State)
    requires Inv(s)
    ensures Inv(r) && r.n == s.n && |r.driver| == |s.driver|
  {
    if actions == [] then s
    else
      var s' := Exec(s, actions[..|actions| - 1]);
      StepKeeps(s', actions[|actions| - 1]);
      Step(s', actions[|actions| - 1])
  }

  lemma StepKeeps(s: State, a: Action)
    requires Inv(s)
    ensures Inv(Step(s, a)) && Step(s, a).n == s.n && |Step(s, a).driver| == |s.driver|
  {
    hide Tags;
    StepKeepsEvents(s, a);
    StepKeepsTags(s, a);
  }

  lemma InitInv(n: nat, tags: nat)
    requires n > 0
    ensures Inv(Init(n, tags))
  {
  }

  /** Whatever the device does, what it has written and the driver has not read fits in the ring. */
  lemma CompletionRingIsNeverOverrun(n: nat, actions: seq<Action>)
    requires n > 0 && (n % RE_INTERVAL == 0 || n < RE_INTERVAL)
    ensures Inv(Init(n, NumTags(n)))
    ensures |Exec(Init(n, NumTags(n)), actions).ring| <= n
  {
    InitInv(n, NumTags(n));
    var s := Exec(Init(n, NumTags(n)), actions);
    FitsInRing(s);
  }

  lemma FitsInRing(s: State)
    requires Inv(s) && |s.driver| == NumTags(s.n) && (s.n % RE_INTERVAL == 0 || s.n < RE_INTERVAL)
    ensures |s.ring| <= s.n
  {
    hide Names, Heads, Sum;
    FewEvents(s);
    RingIsShared(s.ring, |s.driver|);
    var w := Shares(s.ring, |s.driver|);
    forall t | 0 <= t < |w|
      ensures w[t] <= 2
    {
      assert Script(s.driver[t], s.device[t], Names(s.ring, t));
    }
    SumAtMost(w, 2);
  }

  /** A packet with a free tag and room for it is sent, and no other is. */
  lemma SendEffect(s: State, t: nat, count: nat)
    requires Events(s) && t < |s.driver|
    ensures var s' := Step(s, Send(t, count));
      if s.driver[t] == Free && count > 0 && s.tail - s.head + count + 5 <= s.n then
        s'.tail == s.tail + count && s'.driver == s.driver[t := PendingData] && s'.device == s.device[t := Posted]
      else s' == s
  {
    hide Heads, NumAvail, RingDistance, Spaced;
    AvailIsExact(s);
  }

  // ----- Events keep up with the tail ----------------------------------------------------------------------

  /** The last event asked for is within an interval of the tail, and the device cannot be past it. */
  predicate KeepsUp(s: State) {
    && s.hwHead <= s.lastRe + 1 && s.tail - s.lastRe <= RE_INTERVAL
    && (s.events == [] ==> s.hwHead == s.lastRe + 1 || s.lastRe == 0)
  }

  lemma SendKeepsUp(s: State, t: nat, count: nat)
    requires Events(s) && KeepsUp(s)
    ensures KeepsUp(Step(s, Send(t, count)))
  {
    hide Heads, NumAvail, RingDistance, Spaced;
    AvailIsExact(s);
    if t < |s.driver| && s.driver[t] == Free && count > 0 && NumAvail(s.n, s.tail, s.head) >= count + KEEP_FREE {
      Distance(s.tail + count - 1, s.lastRe, s.n);
    }
  }

  lemma StepKeepsUp(s: State, a: Action)
    requires Events(s) && KeepsUp(s)
    ensures KeepsUp(Step(s, a))
  {
    hide Spaced, NumAvail, Names;
    match a
    case Send(t, count) => SendKeepsUp(s, t, count);
    case Read => if s.ring != [] { HeadsPop(s.ring); FirstEvent(s); }
    case _ =>
  }

  lemma FirstEvent(s: State)
    requires Spaced(s.events) && (s.events != [] ==> s.events[|s.events| - 1] == s.lastRe)
    ensures s.events != [] ==> s.events[0] <= s.lastRe
  {
  }

  /**
   Over every run an event is asked for in time: at most 31 descriptors lie behind
   the last one. So when all events are answered and read, and the sender has
   looked, no more than 33 slots are not free.
   */
  lemma {:induction false} EventsKeepUp(n: nat, actions: seq<Action>)
    requires n > 0
    ensures Inv(Init(n, NumTags(n)))
    ensures var s := Exec(Init(n, NumTags(n)), actions);
      && KeepsUp(s) && s.tail - s.lastRe <= 32
      && (s.events == [] && s.head == s.hwHead ==> NumAvail(n, s.tail, s.head) >= n - 33)
    decreases |actions|
  {
    hide NumAvail, NumTags, Step, Inv;
    InitInv(n, NumTags(n));
    var s0 := Init(n, NumTags(n));
    var s := Exec(s0, actions);
    if actions == [] {
    } else {
      var front := actions[..|actions| - 1];
      EventsKeepUp(n, front);
      InvEvents(Exec(s0, front));
      StepKeepsUp(Exec(s0, front), actions[|actions| - 1]);
    }
    InvEvents(s);
    AvailIsExact(s);
  }

  lemma InvEvents(s: State)
    requires Inv(s)
    ensures Events(s) && InBounds(s) && Window(s)
  {
    hide Tags;
  }
}
