/**
 Stopping and waking a DQO transmit queue. The sender stops the queue when it
 finds too little room and then looks once more; the poller frees what
 completions give back and then wakes the queue if it finds it stopped. One
 step is one access to what the two share.
 */
module StopWake {

  /** Free ring slots, free tags and free bounce buffers, as published by the poller. */
  datatype Room = Room(slots: int, tags: int, bufs: int)

  datatype Need = Need(slots: nat, bufs: nat)

  predicate Enough(r: Room, need: Need) {
    r.tags > 0 && r.slots >= need.slots && r.bufs >= need.bufs
  }

  /** The three looks: as is, with a fresh head, and after stopping. */
  datatype Look = First | Second | Last

  datatype Tx =
    | TxIdle
    | Tags(look: Look) | Slots(look: Look) | Bufs(look: Look) // the conjuncts of the check, in order
    | ReadHead(look: Look)
    | Stopping
    | Starting
    | Sending

  datatype Poller =
    | PollIdle
    | Cleaning(num: nat, busy: bool)  // busy: inside a completion
    | Scanning(num: nat)              // the timeout lists
    | Testing(num: nat)
    | Waking

  datatype State = State(
    stopped: bool, room: Room,
    seen: int,              // slots free by the sender's copy of the head
    need: Need, tx: Tx, poll: Poller,
    cleaned: nat,           // completions taken or acted on since the queue was stopped
    atStop: Room,           // the room there was then
    late: Room)             // what timeouts have freed since then

  datatype Action =
    | Xmit(need: Need) | TxStep
    | PollBegin | TakeCompletion | Free(slots: nat, tags: nat, bufs: nat) | CompletionDone | CleanEnd
    | TimeoutFree(tags: nat, bufs: nat) | ScanEnd | TestStopped | Wake

  function NoRoom(): Room {
    Room(0, 0, 0)
  }

  predicate NonNegative(r: Room) {
    r.slots >= 0 && r.tags >= 0 && r.bufs >= 0
  }

  function Add(r: Room, more: Room): Room {
    Room(r.slots + more.slots, r.tags + more.tags, r.bufs + more.bufs)
  }

  /** What the sender does when a conjunct fails. */
  function Fail(look: Look): Tx {
    match look
    case First => ReadHead(Second)
    case Second => Stopping
    case Last => TxIdle   // busy: the queue stays stopped
  }

  function Pass(look: Look): Tx {
    if look == Last then Starting else Sending
  }

  function StepTx(s: State): State {
    match s.tx
    case TxIdle => s
    case Tags(l) => s.(tx := if s.room.tags > 0 then Slots(l) else Fail(l))
    case Slots(l) => s.(tx := if s.seen >= s.need.slots then Bufs(l) else Fail(l))
    case Bufs(l) => s.(tx := if s.room.bufs >= s.need.bufs then Pass(l) else Fail(l))
    case ReadHead(l) => s.(seen := s.room.slots, tx := Tags(l))
    case Stopping => s.(stopped := true, cleaned := 0, atStop := s.room, late := NoRoom(), tx := ReadHead(Last))
    case Starting => s.(stopped := false, tx := Sending)
    case Sending =>
      s.(room := Room(s.room.slots - s.need.slots, s.room.tags - 1, s.room.bufs - s.need.bufs),
         seen := s.seen - s.need.slots, tx := TxIdle)
  }

  function Step(s: State, a: Action): State {
    match a
    case Xmit(need) => if s.tx == TxIdle && !s.stopped then s.(need := need, tx := Tags(First)) else s
    case TxStep => StepTx(s)
    case PollBegin => if s.poll == PollIdle then s.(poll := Cleaning(0, false)) else s
    case TakeCompletion =>
      if s.poll.Cleaning? && !s.poll.busy then s.(poll := s.poll.(busy := true), cleaned := s.cleaned + 1) else s
    case Free(slots, tags, bufs) =>
      if s.poll.Cleaning? && s.poll.busy
      then s.(room := Add(s.room, Room(slots, tags, bufs)), cleaned := s.cleaned + 1)
      else s
    case CompletionDone =>
      if s.poll.Cleaning? && s.poll.busy then s.(poll := Cleaning(s.poll.num + 1, false)) else s
    case CleanEnd => if s.poll.Cleaning? && !s.poll.busy then s.(poll := Scanning(s.poll.num)) else s
    case TimeoutFree(tags, bufs) =>
      if s.poll.Scanning?
      then s.(room := Add(s.room, Room(0, tags, bufs)), late := Add(s.late, Room(0, tags, bufs)))
      else s
    case ScanEnd => if s.poll.Scanning? then s.(poll := Testing(s.poll.num)) else s
    case TestStopped =>
      if s.poll.Testing? then s.(poll := if s.stopped && s.poll.num > 0 then Waking else PollIdle) else s
    case Wake => if s.poll == Waking then s.(stopped := false, poll := PollIdle) else s
  }

  function Exec(s: State, actions: seq<Action>): State
    decreases |actions|
  {
    if actions == [] then s else Step(Exec(s, actions[..|actions| - 1]), actions[|actions| - 1])
  }

  function Init(room: Room): State {
    State(false, room, room.slots, Need(0, 0), TxIdle, PollIdle, 0, room, NoRoom())
  }

  // ----- The invariant --------------------------------------------------------------------------------

  /** The poll in progress will find that it cleaned something. */
  predicate WillWake(p: Poller) {
    match p
    case PollIdle => false
    case Cleaning(num, busy) => num > 0 || busy
    case Scanning(num) => num > 0
    case Testing(num) => num > 0
    case Waking => true
  }

  /** The queue is stopped and nothing was freed since. */
  predicate Still(s: State) {
    s.stopped && s.cleaned == 0 && s.late == NoRoom()
  }

  predicate LastLook(tx: Tx) {
    tx == ReadHead(Last) || tx == Tags(Last) || tx == Slots(Last) || tx == Bufs(Last) || tx == Starting
  }

  /** What the conjuncts already passed have established, and the poller cannot undo. */
  predicate Passed(s: State) {
    match s.tx
    case Slots(_) => s.room.tags > 0
    case Bufs(_) => s.room.tags > 0 && s.seen >= s.need.slots
    case Starting => Enough(s.room, s.need) && s.seen >= s.need.slots
    case Sending => Enough(s.room, s.need) && s.seen >= s.need.slots
    case _ => true
  }

  ghost predicate Inv(s: State) {
    && NonNegative(s.room) && NonNegative(s.late) && 0 <= s.seen <= s.room.slots
    && Passed(s)
    // anything cleaned while stopped is followed by a wake
    && (s.stopped && s.cleaned > 0 ==> WillWake(s.poll))
    && (s.stopped ==> LastLook(s.tx) || s.tx == TxIdle)
    && (s.stopped && s.cleaned == 0 ==> s.room == Add(s.atStop, s.late))
    // the last look is at what is there
    && (Still(s) && (s.tx == Tags(Last) || s.tx == Slots(Last) || s.tx == Bufs(Last)) ==> s.seen == s.room.slots)
    && (Still(s) && s.tx == TxIdle ==> !Enough(s.room, s.need))
  }

  lemma TxKeepsInv(s: State)
    requires Inv(s)
    ensures Inv(StepTx(s))
  {
    assert Add(s.room, NoRoom()) == s.room;
  }

  lemma StepKeepsInv(s: State, a: Action)
    requires Inv(s)
    ensures Inv(Step(s, a))
  {
    if a.TxStep? { TxKeepsInv(s); }
  }

  lemma {:induction false} RunKeepsInv(s: State, actions: seq<Action>)
    requires Inv(s)
    ensures Inv(Exec(s, actions))
    decreases |actions|
  {
    if actions == [] {
    } else {
      RunKeepsInv(s, actions[..|actions| - 1]);
      StepKeepsInv(Exec(s, actions[..|actions| - 1]), actions[|actions| - 1]);
    }
  }

  // ----- No lost wakeup ---------------------------------------------------------------------------------

  /**
   Whenever the queue is stopped and the poller is idle, it has taken no
   completion since the queue was stopped. If the sender is idle too, the room
   is what there was at the stop and what timeouts have freed since; without
   such timeouts it is too little for the packet.
   */
  lemma NoLostWakeup(room: Room, actions: seq<Action>)
    requires NonNegative(room)
    ensures var s := Exec(Init(room), actions);
      && (s.stopped && s.poll == PollIdle ==> s.cleaned == 0)
      && (s.stopped && s.poll == PollIdle && s.tx == TxIdle ==>
            && s.room == Add(s.atStop, s.late)
            && (s.late == NoRoom() ==> !Enough(s.room, s.need)))
  {
    RunKeepsInv(Init(room), actions);
  }

  /** No check is overtaken: when a packet is sent there is room for it, and no count ever goes below zero. */
  lemma SendsOnlyWithRoom(room: Room, actions: seq<Action>)
    requires NonNegative(room)
    ensures var s := Exec(Init(room), actions);
      && NonNegative(s.room) && 0 <= s.seen <= s.room.slots
      && (s.tx == Sending ==>
            s.room.tags > 0 && s.room.slots >= s.seen >= s.need.slots && s.room.bufs >= s.need.bufs)
  {
    RunKeepsInv(Init(room), actions);
  }

  /** Steps of the sender until it is idle again, with nobody in between. */
  function Rank(tx: Tx): nat {
    match tx
    case TxIdle => 0
    case Sending => 1
    case Starting => 2
    case Bufs(l) => RankOf(l)
    case Slots(l) => RankOf(l) + 1
    case Tags(l) => RankOf(l) + 2
    case ReadHead(l) => RankOf(l) + 3
    case Stopping => 7
  }

  function RankOf(l: Look): nat {
    match l
    case First => 15
    case Second => 8
    case Last => 3
  }

  function Alone(s: State): State
    decreases Rank(s.tx)
  {
    if s.tx == TxIdle then s else Alone(StepTx(s))
  }

  /** One look at the room, conjunct by conjunct. */
  lemma LookEffect(s: State, l: Look)
    requires s.tx == Tags(l)
    ensures var passed := s.room.tags > 0 && s.seen >= s.need.slots && s.room.bufs >= s.need.bufs;
      Alone(s) == Alone(s.(tx := if passed then Pass(l) else Fail(l)))
  {
    var s1 := StepTx(s);
    assert Alone(s) == Alone(s1);
    if s1.tx == Slots(l) {
      var s2 := StepTx(s1);
      assert Alone(s1) == Alone(s2);
      if s2.tx == Bufs(l) {
        assert Alone(s2) == Alone(StepTx(s2));
      }
    }
  }

  /** A packet there is room for takes it and goes out; without room the queue stops and nothing is taken. */
  lemma XmitEffect(s: State, need: Need)
    requires Inv(s) && s.tx == TxIdle && !s.stopped
    ensures var r := Alone(Step(s, Xmit(need)));
      var fits := s.room.tags > 0 && s.room.slots >= need.slots && s.room.bufs >= need.bufs;
      && r.tx == TxIdle && r.stopped == !fits
      && r.room == if fits then Room(s.room.slots - need.slots, s.room.tags - 1, s.room.bufs - need.bufs) else s.room
  {
    hide Alone;
    var s1 := Step(s, Xmit(need));
    LookEffect(s1, First);
    var s2 := s1.(tx := ReadHead(Second));
    var s3 := StepTx(s2);
    AloneStep(s2);
    LookEffect(s3, Second);
    var s4 := s3.(tx := Stopping);
    AloneStep(s4);
    AloneStep(StepTx(s4));
    LookEffect(StepTx(StepTx(s4)), Last);
    SendsAlone(s1.(tx := Sending));
    SendsAlone(s3.(tx := Sending));
    AloneIdle(StepTx(StepTx(s4)).(tx := TxIdle));
  }

  lemma AloneStep(s: State)
    requires s.tx != TxIdle
    ensures Alone(s) == Alone(StepTx(s))
  {
    hide StepTx;
  }

  lemma AloneIdle(s: State)
    requires s.tx == TxIdle
    ensures Alone(s) == s
  {
  }

  lemma SendsAlone(s: State)
    requires s.tx == Sending
    ensures Alone(s) == StepTx(s)
  {
    AloneStep(s);
    AloneIdle(StepTx(s));
  }

  /** A poll that takes a completion gives its room back and starts a stopped queue. */
  lemma PollEffect(s: State, slots: nat, tags: nat, bufs: nat)
    requires s.poll == PollIdle
    ensures var r := Exec(s, WorkingPoll(slots, tags, bufs));
      !r.stopped && r.poll == PollIdle && r.room == Add(s.room, Room(slots, tags, bufs))
  {
    hide Exec, Add;
    Run8(s, WorkingPoll(slots, tags, bufs));
  }

  function WorkingPoll(slots: nat, tags: nat, bufs: nat): seq<Action> {
    [PollBegin, TakeCompletion, Free(slots, tags, bufs), CompletionDone, CleanEnd, ScanEnd, TestStopped, Wake]
  }

  /** A poll that cleans nothing but times out a packet frees its room without waking the queue. */
  lemma TimeoutsDoNotWake()
    ensures exists actions :: var s := Exec(Init(Room(10, 1, 0)), actions);
      s.stopped && s.poll == PollIdle && s.tx == TxIdle && Enough(s.room, s.need)
  {
    hide Exec, Step;
    var s0 := Init(Room(10, 1, 0));
    var sent := LooksTwice();
    var looked := LooksAgain();
    var polled := TimesOut();
    ExecAppend(s0, sent, looked);
    ExecAppend(s0, sent + looked, polled);
    assert Exec(s0, sent + looked + polled) == Blocked(true, 1).(late := Room(0, 0, 1));
  }

  /** The sender at its stop, with or without the flag set, with `bufs` buffers free. */
  function Blocked(stopped: bool, bufs: nat): State {
    State(stopped, Room(10, 1, bufs), 10, Need(1, 1), if stopped then TxIdle else Stopping, PollIdle, 0,
          Room(10, 1, 0), NoRoom())
  }

  lemma LooksTwice() returns (a: seq<Action>)
    ensures Exec(Init(Room(10, 1, 0)), a) == Blocked(false, 0)
  {
    hide Exec;
    a := [Xmit(Need(1, 1)), TxStep, TxStep, TxStep, TxStep, TxStep, TxStep, TxStep];
    Run8(Init(Room(10, 1, 0)), a);
  }

  lemma LooksAgain() returns (a: seq<Action>)
    ensures Exec(Blocked(false, 0), a) == Blocked(true, 0)
  {
    hide Exec;
    a := [TxStep, TxStep, TxStep, TxStep, TxStep];
    Run5(Blocked(false, 0), a);
  }

  lemma TimesOut() returns (a: seq<Action>)
    ensures Exec(Blocked(true, 0), a) == Blocked(true, 1).(late := Room(0, 0, 1))
  {
    hide Exec, Step;
    a := QuietPoll();
    PollFreesQuietly(Blocked(true, 0));
  }

  function QuietPoll(): seq<Action> {
    [PollBegin, CleanEnd, TimeoutFree(0, 1), ScanEnd, TestStopped]
  }

  lemma PollFreesQuietly(s: State)
    requires s.poll == PollIdle
    ensures Exec(s, QuietPoll()) == s.(room := Add(s.room, Room(0, 0, 1)), late := Add(s.late, Room(0, 0, 1)))
  {
    hide Exec, Add;
    Run5(s, QuietPoll());
  }

  lemma {:induction false} ExecAppend(s: State, a: seq<Action>, b: seq<Action>)
    ensures Exec(s, a + b) == Exec(Exec(s, a), b)
    decreases |b|
  {
    if b == [] {
      assert a + b == a;
    } else {
      ExecAppend(s, a, b[..|b| - 1]);
      assert (a + b)[..|a + b| - 1] == a + b[..|b| - 1];
    }
  }

  lemma Run5(s: State, a: seq<Action>)
    requires |a| == 5
    ensures Exec(s, a) == Step(Step(Step(Step(Step(s, a[0]), a[1]), a[2]), a[3]), a[4])
  {
    hide Step;
    assert a[..4][..3] == a[..3] && a[..3][..2] == a[..2] && a[..2][..1] == a[..1] && a[..1][..0] == [];
    assert Exec(s, a[..1]) == Step(s, a[0]);
    assert Exec(s, a[..2]) == Step(Exec(s, a[..1]), a[1]);
    assert Exec(s, a[..3]) == Step(Exec(s, a[..2]), a[2]);
    assert Exec(s, a[..4]) == Step(Exec(s, a[..3]), a[3]);
  }

  lemma Run8(s: State, a: seq<Action>)
    requires |a| == 8
    ensures var r := Step(Step(Step(s, a[0]), a[1]), a[2]);
      Exec(s, a) == Step(Step(Step(Step(Step(r, a[3]), a[4]), a[5]), a[6]), a[7])
  {
    hide Step;
    assert a == a[..3] + a[3..];
    ExecAppend(s, a[..3], a[3..]);
    assert a[..3][..2] == a[..2] && a[..2][..1] == a[..1] && a[..1][..0] == [];
    assert Exec(s, a[..1]) == Step(s, a[0]);
    assert Exec(s, a[..2]) == Step(Exec(s, a[..1]), a[1]);
    assert Exec(s, a[..3]) == Step(Exec(s, a[..2]), a[2]);
    Run5(Exec(s, a[..3]), a[3..]);
  }
}
