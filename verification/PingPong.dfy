/**
 The latency benchmark: a sender and a receiver bounce one message, count the bounces,
 and then synchronise their shutdown with an `AllDone` exchange.

 Each participant has a main thread (`MainPc`) and an I/O thread that runs one callback
 at a time.  The callback that sets the promise and then `allSent` takes two atomic
 steps, because the main thread may go on in between (`leaving`).

 What the middleware must provide is written in `Published`, `Linked` and the two queues:
 messages between two participants arrive in order, and a publisher keeps its last
 message (history depth 1) for a subscriber that is connected later.  It does so only while
 the publisher's participant exists: when `main` returns, the participant is destroyed, no
 connection is made any more, and of the messages under way only those that have already
 left its sending queue arrive (`SenderExit(kept)`, `ReceiverExit`).
 */
module PingPong {

  import opened Arith

  datatype Msg = Data | AllDone

  datatype MainPc =
    | MCreatePub | MCreateSub | MInitial | MWaitAllSent | MCreateDonePub | MPublishDone | MCreateDoneSub
    | MWaitSync | MFinished

  function Position(pc: MainPc): nat
    ensures Position(pc) <= 8
  {
    match pc
    case MCreatePub => 0 case MCreateSub => 1 case MInitial => 2 case MWaitAllSent => 3 case MCreateDonePub => 4
    case MPublishDone => 5 case MCreateDoneSub => 6 case MWaitSync => 7 case MFinished => 8
  }

  function NextPc(pc: MainPc): MainPc {
    match pc
    case MCreatePub => MCreateSub case MCreateSub => MInitial case MInitial => MWaitAllSent
    case MWaitAllSent => MCreateDonePub case MCreateDonePub => MPublishDone case MPublishDone => MCreateDoneSub
    case MCreateDoneSub => MWaitSync case MWaitSync => MFinished case MFinished => MFinished
  }

  datatype Topic = Topic(
    hasPub: bool, hasSub: bool,
    linked: bool,       // publisher and subscriber have discovered each other
    history: bool,      // the publisher holds a last message
    published: nat, forwarded: nat)

  datatype Side = Side(
    pc: MainPc,
    sendCount: nat,     // uint32_t
    allSent: bool,
    leaving: bool,      // the callback has set the promise but not yet `allSent`
    allSentSets: nat,   // set_value calls on allSentPromise
    syncSets: nat,      // set_value calls on syncParticipants
    received: nat)      // measurement callbacks

  datatype State = State(
    snd: Side, rcv: Side,
    roundtrips: nat,    // |measuredRoundtrips|
    ignored: nat,       // pings that found `allSent` true
    ping: Topic, pong: Topic, doneS: Topic, doneR: Topic,
    toRcv: seq<Msg>, toSnd: seq<Msg>,
    sndGone: bool, rcvGone: bool)   // the participant has been destroyed

  datatype Step =
    | SenderMain | ReceiverMain | ToReceiver | ToSender | SenderLeaves | ReceiverLeaves
    | LinkPing | LinkPong | LinkDoneS | LinkDoneR
    | SenderExit(kept: nat)     // how many of the messages under way have left the sending queue
    | ReceiverExit

  function Initial(): State {
    var t := Topic(false, false, false, false, 0, 0);
    var side := Side(MCreatePub, 0, false, false, 0, 0, 0);
    State(side, side, 0, 0, t, t, t, t, [], [], false, false)
  }

  function Published(t: Topic): Topic {
    t.(history := true, published := t.published + 1, forwarded := t.forwarded + if t.linked then 1 else 0)
  }

  function Sent(t: Topic, queue: seq<Msg>, msg: Msg): seq<Msg> {
    if t.linked then queue + [msg] else queue
  }

  function Linked(t: Topic): Topic {
    t.(linked := true, forwarded := t.forwarded + if t.history then 1 else 0)
  }

  function Replayed(t: Topic, queue: seq<Msg>, msg: Msg): seq<Msg> {
    if t.history then queue + [msg] else queue
  }

  predicate CanLink(t: Topic) { t.hasPub && t.hasSub && !t.linked }

  /** `messageCount + 1` in 32-bit arithmetic. */
  function Threshold(n: nat): nat { (n + 1) % UINT32 }

  /** The counting part of the measurement callback, up to and including `set_value`. */
  function Counted(n: nat, side: Side): Side {
    var count := (side.sendCount + 1) % UINT32;
    var last := count >= Threshold(n);
    side.(sendCount := count, received := side.received + 1, leaving := last,
          allSentSets := side.allSentSets + if last then 1 else 0)
  }

  function SenderMainApply(s: State): State {
    var next := s.(snd := s.snd.(pc := NextPc(s.snd.pc)));
    match s.snd.pc
    case MCreatePub => next.(ping := s.ping.(hasPub := true))
    case MCreateSub => next.(pong := s.pong.(hasSub := true))
    case MInitial => next.(ping := Published(s.ping), toRcv := Sent(s.ping, s.toRcv, Data))
    case MCreateDonePub => next.(doneS := s.doneS.(hasPub := true))
    case MCreateDoneSub => next.(doneR := s.doneR.(hasSub := true))
    case _ => next
  }

  function ReceiverMainApply(s: State): State {
    var next := s.(rcv := s.rcv.(pc := NextPc(s.rcv.pc)));
    match s.rcv.pc
    case MCreatePub => next.(pong := s.pong.(hasPub := true))
    case MCreateSub => next.(ping := s.ping.(hasSub := true))
    case MCreateDonePub => next.(doneR := s.doneR.(hasPub := true))
    case MPublishDone => next.(doneR := Published(s.doneR), toSnd := Sent(s.doneR, s.toSnd, AllDone))
    case MCreateDoneSub => next.(doneS := s.doneS.(hasSub := true))
    case _ => next
  }

  function ReceiverCallback(n: nat, s: State): State
    requires s.toRcv != []
  {
    var rest := s.(toRcv := s.toRcv[1..]);
    if s.toRcv[0] == AllDone then
      rest.(rcv := s.rcv.(syncSets := s.rcv.syncSets + 1))
    else if s.rcv.allSent then
      rest.(rcv := s.rcv.(received := s.rcv.received + 1), ignored := s.ignored + 1)
    else
      rest.(rcv := Counted(n, s.rcv), pong := Published(s.pong), toSnd := Sent(s.pong, s.toSnd, Data))
  }

  function SenderCallback(n: nat, s: State): State
    requires s.toSnd != []
  {
    var rest := s.(toSnd := s.toSnd[1..]);
    if s.toSnd[0] == AllDone then
      rest.(snd := s.snd.(syncSets := s.snd.syncSets + 1),
            doneS := Published(s.doneS), toRcv := Sent(s.doneS, s.toRcv, AllDone))
    else if s.snd.allSent then
      rest.(snd := s.snd.(received := s.snd.received + 1))
    else
      rest.(snd := Counted(n, s.snd),
            roundtrips := s.roundtrips + if s.snd.sendCount == 0 then 0 else 1,
            ping := Published(s.ping), toRcv := Sent(s.ping, s.toRcv, Data))
  }

  predicate MainCanMove(side: Side) {
    && (side.pc == MWaitAllSent ==> side.allSentSets > 0)
    && (side.pc == MWaitSync ==> side.syncSets > 0)
    && side.pc != MFinished
  }

  predicate BothThere(s: State) { !s.sndGone && !s.rcvGone }

  predicate Enabled(s: State, step: Step) {
    match step
    case SenderMain => MainCanMove(s.snd)
    case ReceiverMain => MainCanMove(s.rcv)
    case ToReceiver => s.toRcv != [] && !s.rcv.leaving && !s.rcvGone
    case ToSender => s.toSnd != [] && !s.snd.leaving && !s.sndGone
    case SenderLeaves => s.snd.leaving
    case ReceiverLeaves => s.rcv.leaving
    case LinkPing => CanLink(s.ping) && BothThere(s)
    case LinkPong => CanLink(s.pong) && BothThere(s)
    case LinkDoneS => CanLink(s.doneS) && BothThere(s)
    case LinkDoneR => CanLink(s.doneR) && BothThere(s)
    case SenderExit(_) => s.snd.pc == MFinished && !s.sndGone
    case ReceiverExit => s.rcv.pc == MFinished && !s.rcvGone
  }

  /** A step that is not enabled leaves the state alone. */
  function Apply(n: nat, s: State, step: Step): State {
    if !Enabled(s, step) then s else
    match step
    case SenderMain => SenderMainApply(s)
    case ReceiverMain => ReceiverMainApply(s)
    case ToReceiver => ReceiverCallback(n, s)
    case ToSender => SenderCallback(n, s)
    case SenderLeaves => s.(snd := s.snd.(leaving := false, allSent := true))
    case ReceiverLeaves => s.(rcv := s.rcv.(leaving := false, allSent := true))
    case LinkPing => s.(ping := Linked(s.ping), toRcv := Replayed(s.ping, s.toRcv, Data))
    case LinkPong => s.(pong := Linked(s.pong), toSnd := Replayed(s.pong, s.toSnd, Data))
    case LinkDoneS => s.(doneS := Linked(s.doneS), toRcv := Replayed(s.doneS, s.toRcv, AllDone))
    case LinkDoneR => s.(doneR := Linked(s.doneR), toSnd := Replayed(s.doneR, s.toSnd, AllDone))
    case SenderExit(kept) => s.(sndGone := true, toRcv := s.toRcv[..Min(kept, |s.toRcv|)], toSnd := [])
    case ReceiverExit => s.(rcvGone := true, toRcv := [], toSnd := [])
  }

  /** The state after a schedule; its last element acts last. */
  function Run(n: nat, run: seq<Step>): State {
    if run == [] then Initial() else Apply(n, Run(n, run[..|run| - 1]), run[|run| - 1])
  }

  /** Every element of the schedule is enabled when its turn comes. */
  ghost predicate Legal(n: nat, run: seq<Step>) {
    forall i :: 0 <= i < |run| ==> Enabled(Run(n, run[..i]), run[i])
  }

  // ----- the inductive invariant -----

  /** The number of bounces after which a participant stops counting. */
  function Goal(n: nat): nat { if Threshold(n) == 0 then 1 else Threshold(n) }

  predicate Past(side: Side, pc: MainPc) { Position(side.pc) > Position(pc) }

  ghost predicate SideOk(g: nat, side: Side) {
    && side.sendCount <= g
    && (side.sendCount == g <==> side.allSent || side.leaving)
    && !(side.allSent && side.leaving)
    && side.allSentSets == Bit(side.sendCount == g)
    && side.syncSets <= 1
    && (Past(side, MWaitAllSent) ==> side.sendCount == g)
    && (Past(side, MWaitSync) ==> side.syncSets == 1)
  }

  /** Nothing is lost: what was not forwarded is the one message kept for a late subscriber. */
  ghost predicate TopicOk(t: Topic, hasPub: bool, hasSub: bool) {
    && t.hasPub == hasPub && t.hasSub == hasSub
    && (t.linked ==> t.hasPub && t.hasSub)
    && (t.history <==> t.published > 0)
    && (t.history ==> t.hasPub)
    && (t.linked ==> t.forwarded == t.published)
    && (!t.linked ==> t.forwarded == 0 && t.published <= 1)
  }

  function Queue(data: int, allDone: int): seq<Msg> {
    (if data == 1 then [Data] else []) + (if allDone == 1 then [AllDone] else [])
  }

  /** `cut`: the end of the queue may have been lost. */
  ghost predicate QueueOk(queue: seq<Msg>, data: int, allDone: int, cut: bool) {
    && 0 <= data <= 1 && 0 <= allDone <= 1
    && (if cut then queue <= Queue(data, allDone) else queue == Queue(data, allDone))
  }

  ghost predicate Topics(s: State) {
    && TopicOk(s.ping, Past(s.snd, MCreatePub), Past(s.rcv, MCreateSub))
    && TopicOk(s.pong, Past(s.rcv, MCreatePub), Past(s.snd, MCreateSub))
    && TopicOk(s.doneS, Past(s.snd, MCreateDonePub), Past(s.rcv, MCreateDoneSub))
    && TopicOk(s.doneR, Past(s.rcv, MCreateDonePub), Past(s.snd, MCreateDoneSub))
  }

  ghost predicate Counts(g: nat, s: State) {
    && s.roundtrips == (if s.snd.sendCount == 0 then 0 else s.snd.sendCount - 1)
    && s.snd.received == s.snd.sendCount
    && s.rcv.received == s.rcv.sendCount + s.ignored
    && s.ping.published == Bit(Past(s.snd, MInitial)) + s.snd.sendCount
    && s.pong.published == s.rcv.sendCount
    && s.doneS.published == s.snd.syncSets
    && s.doneR.published == Bit(Past(s.rcv, MPublishDone))
    && s.snd.sendCount <= s.rcv.sendCount
    && s.rcv.sendCount + s.ignored <= s.snd.sendCount + Bit(Past(s.snd, MInitial))
    && s.ignored <= Bit(Past(s.snd, MInitial))
    && (s.ignored == 1 ==> s.snd.sendCount == g == s.rcv.sendCount)
    && (s.rcv.syncSets == 1 ==> s.ignored == 1)
  }

  ghost predicate Queues(s: State) {
    && QueueOk(s.toRcv, s.ping.forwarded - s.rcv.received, s.doneS.forwarded - s.rcv.syncSets, s.sndGone)
    && QueueOk(s.toSnd, s.pong.forwarded - s.snd.received, s.doneR.forwarded - s.snd.syncSets, false)
  }

  ghost predicate Exits(s: State) {
    && (s.sndGone ==> s.snd.pc == MFinished)
    && (s.rcvGone ==> s.rcv.pc == MFinished)
    && (s.ignored == 1 ==> s.rcv.allSent)
    && (s.snd.syncSets == 1 ==> s.snd.allSent)
  }

  ghost predicate Inv(g: nat, s: State) {
    SideOk(g, s.snd) && SideOk(g, s.rcv) && Topics(s) && Counts(g, s) && Queues(s) && Exits(s)
  }

  lemma {:induction false} InitialInv(n: nat)
    ensures Inv(Goal(n), Initial())
  {
  }

  /** A main thread that moves passes its own point in the code and no other. */
  lemma {:induction false} MovesPast(side: Side)
    requires side.pc != MFinished
    ensures forall pc :: Past(side.(pc := NextPc(side.pc)), pc) <==> Past(side, pc) || pc == side.pc
  {
  }

  /** Nothing is published, counted or taken off a queue. */
  ghost predicate SameFlow(s: State, t: State) {
    && t.toRcv == s.toRcv && t.toSnd == s.toSnd && t.roundtrips == s.roundtrips && t.ignored == s.ignored
    && t.sndGone == s.sndGone && t.rcvGone == s.rcvGone
    && SameCount(s.ping, t.ping) && SameCount(s.pong, t.pong)
    && SameCount(s.doneS, t.doneS) && SameCount(s.doneR, t.doneR)
  }

  predicate SameCount(a: Topic, b: Topic) { a.published == b.published && a.forwarded == b.forwarded }

  lemma {:induction false} SenderMovesTopics(n: nat, s: State)
    requires Inv(Goal(n), s) && Enabled(s, SenderMain) && s.snd.pc != MInitial
    ensures Topics(SenderMainApply(s))
  {
    MovesPast(s.snd);
    hide Goal, SideOk, Queues, Exits, Past, NextPc;
  }

  lemma {:induction false} SenderMovesOnly(s: State)
    requires s.snd.pc != MInitial
    ensures var t := SenderMainApply(s);
            t.snd == s.snd.(pc := NextPc(s.snd.pc)) && t.rcv == s.rcv && SameFlow(s, t)
  {
    hide NextPc;
  }

  lemma {:induction false} SenderMovesKeepsInv(n: nat, s: State)
    requires Inv(Goal(n), s) && Enabled(s, SenderMain) && s.snd.pc != MInitial
    ensures Inv(Goal(n), SenderMainApply(s))
  {
    SenderMovesTopics(n, s);
    SenderMovesOnly(s);
    MovesPast(s.snd);
    hide Goal, Queue, Topics, Past, NextPc, SenderMainApply;
  }

  /** The sender publishes its first ping. */
  lemma {:induction false} SenderPublishesKeepsInv(n: nat, s: State)
    requires Inv(Goal(n), s) && Enabled(s, SenderMain) && s.snd.pc == MInitial
    ensures Inv(Goal(n), SenderMainApply(s))
  {
    MovesPast(s.snd);
    hide Goal, Past, NextPc;
  }

  lemma {:induction false} SenderMainKeepsInv(n: nat, s: State)
    requires Inv(Goal(n), s) && Enabled(s, SenderMain)
    ensures Inv(Goal(n), SenderMainApply(s))
  {
    hide Inv, SenderMainApply;
    if s.snd.pc == MInitial { SenderPublishesKeepsInv(n, s); } else { SenderMovesKeepsInv(n, s); }
  }

  lemma {:induction false} ReceiverMovesTopics(n: nat, s: State)
    requires Inv(Goal(n), s) && Enabled(s, ReceiverMain) && s.rcv.pc != MPublishDone
    ensures Topics(ReceiverMainApply(s))
  {
    MovesPast(s.rcv);
    hide Goal, SideOk, Queues, Exits, Past, NextPc;
  }

  lemma {:induction false} ReceiverMovesOnly(s: State)
    requires s.rcv.pc != MPublishDone
    ensures var t := ReceiverMainApply(s);
            t.rcv == s.rcv.(pc := NextPc(s.rcv.pc)) && t.snd == s.snd && SameFlow(s, t)
  {
    hide NextPc;
  }

  lemma {:induction false} ReceiverMovesKeepsInv(n: nat, s: State)
    requires Inv(Goal(n), s) && Enabled(s, ReceiverMain) && s.rcv.pc != MPublishDone
    ensures Inv(Goal(n), ReceiverMainApply(s))
  {
    ReceiverMovesTopics(n, s);
    ReceiverMovesOnly(s);
    MovesPast(s.rcv);
    hide Goal, Queue, Topics, Past, NextPc, ReceiverMainApply;
    assert Counts(Goal(n), ReceiverMainApply(s)) && Queues(ReceiverMainApply(s));
  }

  /** The receiver publishes its `AllDone`. */
  lemma {:induction false} ReceiverPublishesKeepsInv(n: nat, s: State)
    requires Inv(Goal(n), s) && Enabled(s, ReceiverMain) && s.rcv.pc == MPublishDone
    ensures Inv(Goal(n), ReceiverMainApply(s))
  {
    MovesPast(s.rcv);
    hide Goal, Past, NextPc;
  }

  lemma {:induction false} ReceiverMainKeepsInv(n: nat, s: State)
    requires Inv(Goal(n), s) && Enabled(s, ReceiverMain)
    ensures Inv(Goal(n), ReceiverMainApply(s))
  {
    hide Inv, ReceiverMainApply;
    if s.rcv.pc == MPublishDone { ReceiverPublishesKeepsInv(n, s); } else { ReceiverMovesKeepsInv(n, s); }
  }

  lemma {:induction false} PingKeepsInv(n: nat, s: State)
    requires Inv(Goal(n), s) && Enabled(s, ToReceiver) && s.toRcv[0] == Data
    ensures Inv(Goal(n), ReceiverCallback(n, s))
  {
    if s.rcv.allSent { TrailingKeepsInv(n, s); } else { BounceKeepsInv(n, s); }
  }

  lemma {:induction false} TrailingKeepsInv(n: nat, s: State)
    requires Inv(Goal(n), s) && Enabled(s, ToReceiver) && s.toRcv[0] == Data && s.rcv.allSent
    ensures Inv(Goal(n), ReceiverCallback(n, s))
  {
    hide Counted, Goal;
  }

  lemma {:induction false} BounceKeepsInv(n: nat, s: State)
    requires Inv(Goal(n), s) && Enabled(s, ToReceiver) && s.toRcv[0] == Data && !s.rcv.allSent
    ensures Inv(Goal(n), ReceiverCallback(n, s))
  {
    CallbacksCount(n, s);
  }

  lemma {:induction false} AllDoneKeepsInv(n: nat, s: State)
    requires Inv(Goal(n), s) && Enabled(s, ToReceiver) && s.toRcv[0] == AllDone
    ensures Inv(Goal(n), ReceiverCallback(n, s))
  {
  }

  lemma {:induction false} SenderKeepsInv(n: nat, s: State)
    requires Inv(Goal(n), s) && Enabled(s, ToSender)
    ensures Inv(Goal(n), SenderCallback(n, s))
  {
    if s.toSnd[0] == Data { PongKeepsInv(n, s); } else { SenderDoneKeepsInv(n, s); }
  }

  lemma {:induction false} PongKeepsInv(n: nat, s: State)
    requires Inv(Goal(n), s) && Enabled(s, ToSender) && s.toSnd[0] == Data
    ensures Inv(Goal(n), SenderCallback(n, s))
  {
    PongKeepsQueues(n, s);
    PongKeepsCounts(n, s);
    hide Goal, SideOk, Counts, Queues, Counted;
  }

  lemma {:induction false} PongKeepsQueues(n: nat, s: State)
    requires Inv(Goal(n), s) && Enabled(s, ToSender) && s.toSnd[0] == Data
    ensures Queues(SenderCallback(n, s))
  {
    hide Goal, Exits;
    CallbacksCount(n, s);
    hide Counted;
  }

  lemma {:induction false} PongKeepsCounts(n: nat, s: State)
    requires Inv(Goal(n), s) && Enabled(s, ToSender) && s.toSnd[0] == Data
    ensures var t := SenderCallback(n, s); SideOk(Goal(n), t.snd) && Counts(Goal(n), t)
  {
    CallbacksCount(n, s);
  }

  lemma {:induction false} SenderDoneKeepsInv(n: nat, s: State)
    requires Inv(Goal(n), s) && Enabled(s, ToSender) && s.toSnd[0] == AllDone
    ensures Inv(Goal(n), SenderCallback(n, s))
  {
  }

  lemma {:induction false} LinkKeepsInv(n: nat, s: State, step: Step)
    requires Inv(Goal(n), s) && Enabled(s, step)
            && (step.LinkPing? || step.LinkPong? || step.LinkDoneS? || step.LinkDoneR?)
    ensures Inv(Goal(n), Apply(n, s, step))
  {
    hide Goal, Inv;
    if step.LinkPing? || step.LinkPong? { MeasuringLinkKeepsInv(n, s, step); } else { DoneLinkKeepsInv(n, s, step); }
  }

  lemma {:induction false} MeasuringLinkKeepsInv(n: nat, s: State, step: Step)
    requires Inv(Goal(n), s) && Enabled(s, step) && (step.LinkPing? || step.LinkPong?)
    ensures Inv(Goal(n), Apply(n, s, step))
  {
    assert Goal(n) > 0;
    hide Goal;
  }

  lemma {:induction false} DoneLinkKeepsInv(n: nat, s: State, step: Step)
    requires Inv(Goal(n), s) && Enabled(s, step) && (step.LinkDoneS? || step.LinkDoneR?)
    ensures Inv(Goal(n), Apply(n, s, step))
  {
    hide Goal;
  }

  lemma {:induction false} SenderLeavesKeepsInv(n: nat, s: State)
    requires Inv(Goal(n), s) && Enabled(s, SenderLeaves)
    ensures Inv(Goal(n), Apply(n, s, SenderLeaves))
  {
    hide Goal, Queue, Position;
  }

  lemma {:induction false} ReceiverLeavesKeepsInv(n: nat, s: State)
    requires Inv(Goal(n), s) && Enabled(s, ReceiverLeaves)
    ensures Inv(Goal(n), Apply(n, s, ReceiverLeaves))
  {
    hide Goal, Queue, Position;
  }

  lemma {:induction false} SenderExitKeepsInv(n: nat, s: State, kept: nat)
    requires Inv(Goal(n), s) && Enabled(s, SenderExit(kept))
    ensures Inv(Goal(n), Apply(n, s, SenderExit(kept)))
  {
    hide Goal;
  }

  lemma {:induction false} ReceiverExitKeepsInv(n: nat, s: State)
    requires Inv(Goal(n), s) && Enabled(s, ReceiverExit)
    ensures Inv(Goal(n), Apply(n, s, ReceiverExit))
  {
    hide Goal;
  }

  lemma {:induction false} StepKeepsInv(n: nat, s: State, step: Step)
    requires Inv(Goal(n), s)
    ensures Inv(Goal(n), Apply(n, s, step))
  {
    hide Inv, SenderMainApply, ReceiverMainApply, ReceiverCallback, SenderCallback;
    if Enabled(s, step) {
      match step
      case SenderMain => SenderMainKeepsInv(n, s);
      case ReceiverMain => ReceiverMainKeepsInv(n, s);
      case ToReceiver => if s.toRcv[0] == Data { PingKeepsInv(n, s); } else { AllDoneKeepsInv(n, s); }
      case ToSender => SenderKeepsInv(n, s);
      case SenderLeaves => SenderLeavesKeepsInv(n, s);
      case ReceiverLeaves => ReceiverLeavesKeepsInv(n, s);
      case SenderExit(kept) => SenderExitKeepsInv(n, s, kept);
      case ReceiverExit => ReceiverExitKeepsInv(n, s);
      case _ => LinkKeepsInv(n, s, step);
    }
  }

  lemma {:induction false} Reachable(n: nat, run: seq<Step>)
    ensures Inv(Goal(n), Run(n, run))
  {
    hide Inv, Apply;
    if run == [] {
      InitialInv(n);
    } else {
      var before := run[..|run| - 1];
      Reachable(n, before);
      StepKeepsInv(n, Run(n, before), run[|run| - 1]);
    }
  }

  // ----- what holds in every reachable state -----

  /** Published, but its measurement callback has not run: in a history, or in a queue. */
  function Undelivered(s: State): int {
    s.ping.published - s.rcv.received + s.pong.published - s.snd.received
  }

  /**
   At most one measurement message is ever undelivered, so history depth 1 loses none:
   a publisher never replaces a message it has not forwarded.  Each promise is set at most
   once, and no counter wraps.
   */
  lemma {:induction false} OneMessageInFlight(n: nat, run: seq<Step>)
    ensures var s := Run(n, run);
            && 0 <= Undelivered(s) <= 1
            && (forall t :: t in [s.ping, s.pong, s.doneS, s.doneR]
                  ==> t.published - t.forwarded == if t.history && !t.linked then 1 else 0)
            && s.snd.allSentSets <= 1 && s.rcv.allSentSets <= 1 && s.snd.syncSets <= 1 && s.rcv.syncSets <= 1
            && s.snd.sendCount <= s.rcv.sendCount <= s.snd.sendCount + 1 <= Goal(n) + 1 <= 0x1_0000_0000
  {
    hide Run;
    Reachable(n, run);
  }

  /**
   The receiver's `AllDone` callback runs only after the sender has measured everything
   and the trailing ping has arrived and been ignored; in particular no measurement
   message is under way, and no connection is missing, when the receiver leaves.
   */
  lemma {:induction false} SynchronisedShutdown(n: nat, run: seq<Step>)
    ensures var s := Run(n, run);
            && (s.rcv.syncSets > 0 ==> s.snd.sendCount == Goal(n) && s.ignored == 1 && Undelivered(s) == 0)
            && (s.rcv.pc == MFinished ==> s.rcv.syncSets == 1 && s.snd.syncSets == 1 && s.toRcv == [] && s.toSnd == [])
            && (s.snd.pc == MFinished ==> s.rcv.sendCount == Goal(n) && s.doneS.published == 1)
  {
    hide Run;
    Reachable(n, run);
  }

  // ----- how a run can end -----

  ghost predicate Stuck(s: State) { forall step :: !Enabled(s, step) }

  /** The measurement is complete, and the sender's participant is gone. */
  predicate Measured(n: nat, s: State) {
    && s.snd.pc == MFinished && s.sndGone && !s.rcv.leaving && !s.snd.leaving
    && s.ping.published == Goal(n) + 1 && s.pong.published == Goal(n) && s.roundtrips == Goal(n) - 1
    && s.toRcv == [] && s.toSnd == []
    && s.snd.allSentSets == 1 && s.rcv.allSentSets == 1 && s.snd.syncSets == 1
  }

  predicate Finished(n: nat, s: State) {
    Measured(n, s) && s.rcv.pc == MFinished && s.rcvGone && s.ignored == 1 && s.rcv.syncSets == 1
  }

  /** The receiver waits for an `AllDone` that nobody holds any more. */
  predicate LeftBehind(n: nat, s: State) {
    Measured(n, s) && s.rcv.pc == MWaitSync && s.rcv.syncSets == 0
  }

  /** With nothing to deliver, everything sent over a connection has been received. */
  lemma {:induction false} NothingUnderWay(g: nat, s: State)
    requires Inv(g, s) && !s.snd.leaving && !s.rcv.leaving && !Enabled(s, ToReceiver) && !Enabled(s, ToSender)
    ensures s.toRcv == [] && s.toSnd == []
    ensures !s.sndGone ==> s.ping.forwarded == s.rcv.received && s.doneS.forwarded == s.rcv.syncSets
    ensures s.pong.forwarded == s.snd.received && s.doneR.forwarded == s.snd.syncSets
  {
    assert s.rcvGone ==> s.rcv.syncSets == 1;
    assert s.sndGone ==> s.snd.syncSets == 1;
  }

  /** A participant whose main thread cannot move has finished, or waits for what has not come yet. */
  lemma {:induction false} MainWaits(side: Side)
    requires !MainCanMove(side)
    ensures || side.pc == MFinished
            || (side.pc == MWaitAllSent && side.allSentSets == 0)
            || (side.pc == MWaitSync && side.syncSets == 0)
  {
  }

  predicate Idle(s: State) {
    && !MainCanMove(s.snd) && !MainCanMove(s.rcv) && !s.snd.leaving && !s.rcv.leaving && !s.sndGone
    && s.pong.forwarded == s.snd.received && s.doneR.forwarded == s.snd.syncSets
    && s.ping.forwarded == s.rcv.received && s.doneS.forwarded == s.rcv.syncSets
    && (!s.rcvGone ==> !CanLink(s.ping) && !CanLink(s.pong) && !CanLink(s.doneS) && !CanLink(s.doneR))
  }

  /** The bounces do not stop before the goal. */
  lemma {:induction false} MeasuringIsOver(g: nat, s: State)
    requires g > 0 && Inv(g, s) && Idle(s)
    ensures s.snd.allSentSets == 1 && s.rcv.allSentSets == 1
  {
    MainWaits(s.snd);
    MainWaits(s.rcv);
    hide MainCanMove, Queues;
  }

  /** Nor does the sender wait for ever: it leaves. */
  lemma {:induction false} SenderIsOver(g: nat, s: State)
    requires g > 0 && Inv(g, s) && Idle(s)
    ensures s.snd.pc == MFinished
  {
    MeasuringIsOver(g, s);
    MainWaits(s.snd);
    MainWaits(s.rcv);
    hide MainCanMove, Queues, Counts;
  }

  lemma {:induction false} StuckMeans(s: State)
    requires Stuck(s)
    ensures !MainCanMove(s.snd) && !MainCanMove(s.rcv) && !s.snd.leaving && !s.rcv.leaving
    ensures !Enabled(s, ToReceiver) && !Enabled(s, ToSender) && (s.snd.pc == MFinished ==> s.sndGone)
    ensures BothThere(s) ==> !CanLink(s.ping) && !CanLink(s.pong) && !CanLink(s.doneS) && !CanLink(s.doneR)
  {
    hide MainCanMove, CanLink;
    assert !Enabled(s, SenderMain) && !Enabled(s, ReceiverMain) && !Enabled(s, SenderLeaves);
    assert !Enabled(s, ReceiverLeaves) && !Enabled(s, SenderExit(0));
    assert !Enabled(s, LinkPing) && !Enabled(s, LinkPong) && !Enabled(s, LinkDoneS) && !Enabled(s, LinkDoneR);
  }

  lemma {:induction false} StuckQuiet(n: nat, s: State)
    requires Inv(Goal(n), s) && Stuck(s)
    ensures s.sndGone && !s.rcv.leaving && !s.snd.leaving && s.toRcv == [] && s.toSnd == []
  {
    StuckMeans(s);
    hide Inv, Stuck, MainCanMove, CanLink, Enabled;
    NothingUnderWay(Goal(n), s);
    if !s.sndGone { SenderIsOver(Goal(n), s); }
  }

  lemma {:induction false} StuckEnds(n: nat, s: State)
    requires Inv(Goal(n), s) && Stuck(s)
    ensures Finished(n, s) || LeftBehind(n, s)
  {
    StuckQuiet(n, s);
    assert !Enabled(s, ReceiverMain) && !Enabled(s, ReceiverExit);
    hide Stuck;
  }

  /**
   The sender always measures everything and leaves; a state in which nothing can move is
   the finished one, or the one in which the receiver has been left behind.
   */
  lemma {:induction false} Progress(n: nat, run: seq<Step>)
    ensures var s := Run(n, run); Stuck(s) <==> Finished(n, s) || LeftBehind(n, s)
  {
    Reachable(n, run);
    hide Run, Inv;
    if Stuck(Run(n, run)) { StuckEnds(n, Run(n, run)); }
  }

  /** The sender's `AllDone` has arrived or will arrive. */
  ghost predicate Released(s: State) { s.rcv.syncSets == 1 || AllDone in s.toRcv }

  lemma {:induction false} ExitReleases(n: nat, s: State, kept: nat)
    requires Inv(Goal(n), s) && Enabled(s, SenderExit(kept))
    ensures Released(Apply(n, s, SenderExit(kept))) <==> s.doneS.linked && kept >= |s.toRcv|
  {
    var after := s.toRcv[..Min(kept, |s.toRcv|)];
    if kept >= |s.toRcv| {
      assert after == s.toRcv;
      assert s.doneS.forwarded - s.rcv.syncSets == 1 ==> s.toRcv[|s.toRcv| - 1] == AllDone;
    }
  }

  lemma {:induction false} ReleasedStays(n: nat, s: State, step: Step)
    requires Inv(Goal(n), s) && s.sndGone
    ensures Apply(n, s, step).sndGone && (Released(Apply(n, s, step)) <==> Released(s))
  {
    if Enabled(s, step) {
      match step
      case ToReceiver =>
        ReceptionReleases(n, s);
      case ReceiverExit =>
        assert s.toRcv == [];
      case _ =>
        hide Inv;
    }
  }

  lemma {:induction false} ReceptionReleases(n: nat, s: State)
    requires Inv(Goal(n), s) && s.sndGone && Enabled(s, ToReceiver)
    ensures ReceiverCallback(n, s).sndGone && (Released(ReceiverCallback(n, s)) <==> Released(s))
  {
    assert s.toRcv == [s.toRcv[0]] + s.toRcv[1..];
    assert s.rcv.syncSets == 0;
    hide Inv, Counted;
  }

  lemma {:induction false} ReleasedSince(n: nat, run: seq<Step>, i: nat)
    requires i < |run| && run[i].SenderExit? && Enabled(Run(n, run[..i]), run[i])
    ensures var before := Run(n, run[..i]);
            && Run(n, run).sndGone
            && (Released(Run(n, run)) <==> before.doneS.linked && run[i].kept >= |before.toRcv|)
  {
    hide Inv, Apply, Enabled;
    var head := run[..|run| - 1];
    Reachable(n, head);
    if i == |head| {
      ExitReleases(n, Run(n, head), run[i].kept);
      ExitGoes(n, Run(n, head), run[i]);
    } else {
      assert head[..i] == run[..i] && head[i] == run[i];
      ReleasedSince(n, head, i);
      ReleasedStays(n, Run(n, head), run[|head|]);
    }
  }

  lemma {:induction false} ExitGoes(n: nat, s: State, step: Step)
    requires Enabled(s, step)
    ensures Apply(n, s, step).sndGone <==> s.sndGone || step.SenderExit?
  {
  }

  /** Every stuck run contains the step by which the sender left. */
  lemma {:induction false} SenderLeft(n: nat, run: seq<Step>) returns (i: nat)
    requires Run(n, run).sndGone
    ensures i < |run| && run[i].SenderExit? && Enabled(Run(n, run[..i]), run[i])
  {
    hide Enabled;
    var head := run[..|run| - 1];
    if Run(n, head).sndGone {
      i := SenderLeft(n, head);
      assert head[..i] == run[..i];
    } else {
      i := |head|;
      if Enabled(Run(n, head), run[i]) { ExitGoes(n, Run(n, head), run[i]); }
    }
  }

  /**
   The receiver finishes if and only if its `AllDone` subscriber was connected before the
   sender left, and nothing under way was still in the sender's queue; otherwise it waits
   for good.
   */
  lemma {:induction false} ReceiverFinishes(n: nat, run: seq<Step>, i: nat)
    requires Stuck(Run(n, run))
    requires i < |run| && run[i].SenderExit? && Enabled(Run(n, run[..i]), run[i])
    ensures var before := Run(n, run[..i]); var inTime := before.doneS.linked && run[i].kept >= |before.toRcv|;
            && (Finished(n, Run(n, run)) <==> inTime)
            && (LeftBehind(n, Run(n, run)) <==> !inTime)
  {
    hide Run, Enabled, Stuck, Goal;
    Progress(n, run);
    ReleasedSince(n, run, i);
  }

  // ----- termination -----

  /** What is left of one participant's own path. */
  function Ahead(side: Side): int { 2 * (8 - Position(side.pc)) + Bit(side.leaving) + 2 * (1 - side.syncSets) }

  function Links(s: State): int {
    2 * (Bit(!s.ping.linked) + Bit(!s.pong.linked) + Bit(!s.doneS.linked) + Bit(!s.doneR.linked))
  }

  function Rank(n: nat, s: State): int {
    Ahead(s.snd) + Ahead(s.rcv) + Links(s)
    + 3 * (Goal(n) - s.snd.sendCount) + 3 * (Goal(n) - s.rcv.sendCount)
    + |s.toRcv| + |s.toSnd| + Bit(!s.sndGone) + Bit(!s.rcvGone)
  }

  lemma {:induction false} NextPosition(pc: MainPc)
    ensures pc != MFinished ==> Position(NextPc(pc)) == Position(pc) + 1
  {
  }

  lemma {:induction false} OneAhead(side: Side)
    ensures side.pc != MFinished ==> Ahead(side.(pc := NextPc(side.pc))) == Ahead(side) - 2
  {
    NextPosition(side.pc);
    hide Position, NextPc, Bit;
  }

  predicate SameLinks(s: State, t: State) {
    && t.ping.linked == s.ping.linked && t.pong.linked == s.pong.linked
    && t.doneS.linked == s.doneS.linked && t.doneR.linked == s.doneR.linked
  }

  lemma {:induction false} SenderMainEffect(s: State)
    requires Enabled(s, SenderMain)
    ensures var t := SenderMainApply(s);
            && t.snd == s.snd.(pc := NextPc(s.snd.pc)) && t.rcv == s.rcv && t.toSnd == s.toSnd
            && t.sndGone == s.sndGone && t.rcvGone == s.rcvGone
            && |t.toRcv| <= |s.toRcv| + 1 && SameLinks(s, t)
  {
    PublishAddsOne(s.ping, s.toRcv, Data);
    hide NextPc, Published, Sent;
  }

  lemma {:induction false} SenderMainRankFalls(n: nat, s: State)
    requires Enabled(s, SenderMain)
    ensures Rank(n, SenderMainApply(s)) < Rank(n, s)
  {
    SenderMainEffect(s);
    OneAhead(s.snd);
    hide SenderMainApply, Ahead, Goal, NextPc, Enabled;
  }

  lemma {:induction false} ReceiverMainEffect(s: State)
    requires Enabled(s, ReceiverMain)
    ensures var t := ReceiverMainApply(s);
            && t.rcv == s.rcv.(pc := NextPc(s.rcv.pc)) && t.snd == s.snd && t.toRcv == s.toRcv
            && t.sndGone == s.sndGone && t.rcvGone == s.rcvGone
            && |t.toSnd| <= |s.toSnd| + 1 && SameLinks(s, t)
  {
    PublishAddsOne(s.doneR, s.toSnd, AllDone);
    hide NextPc, Published, Sent;
  }

  lemma {:induction false} ReceiverMainRankFalls(n: nat, s: State)
    requires Enabled(s, ReceiverMain)
    ensures Rank(n, ReceiverMainApply(s)) < Rank(n, s)
  {
    ReceiverMainEffect(s);
    OneAhead(s.rcv);
    hide ReceiverMainApply, Ahead, Goal, NextPc, Enabled;
  }

  /** A callback counts at most once more: it neither wraps nor passes the goal. */
  lemma {:induction false} CallbacksCount(n: nat, s: State)
    requires Inv(Goal(n), s)
    ensures s.toRcv != [] && s.toRcv[0] == Data && !s.rcv.allSent && !s.rcv.leaving
            ==> Counted(n, s.rcv).sendCount == s.rcv.sendCount + 1
    ensures s.toSnd != [] && s.toSnd[0] == Data && !s.snd.leaving
            ==> !s.snd.allSent && Counted(n, s.snd).sendCount == s.snd.sendCount + 1
  {
    hide Position;
  }

  lemma {:induction false} ReceiverDoneRankFalls(n: nat, s: State)
    requires s.toRcv != [] && s.toRcv[0] == AllDone
    ensures Rank(n, ReceiverCallback(n, s)) < Rank(n, s)
  {
    hide Position, Goal, Threshold, Counted;
  }

  lemma {:induction false} ReceiverPingRankFalls(n: nat, s: State)
    requires Enabled(s, ToReceiver) && s.toRcv[0] == Data
    requires !s.rcv.allSent ==> Counted(n, s.rcv).sendCount == s.rcv.sendCount + 1
    ensures Rank(n, ReceiverCallback(n, s)) < Rank(n, s)
  {
    hide Position, Goal, Threshold;
  }

  lemma {:induction false} ReceiverCallbackRankFalls(n: nat, s: State)
    requires Inv(Goal(n), s) && Enabled(s, ToReceiver)
    ensures Rank(n, ReceiverCallback(n, s)) < Rank(n, s)
  {
    CallbacksCount(n, s);
    hide Inv, Rank, ReceiverCallback, Counted;
    if s.toRcv[0] == Data { ReceiverPingRankFalls(n, s); } else { ReceiverDoneRankFalls(n, s); }
  }

  lemma {:induction false} SenderDoneRankFalls(n: nat, s: State)
    requires s.toSnd != [] && s.toSnd[0] == AllDone
    ensures Rank(n, SenderCallback(n, s)) < Rank(n, s)
  {
    PublishAddsOne(s.doneS, s.toRcv, AllDone);
    hide Position, Goal, Threshold, Counted, Published, Sent;
  }

  lemma {:induction false} SenderPongRankFalls(n: nat, s: State)
    requires Enabled(s, ToSender) && s.toSnd[0] == Data
    requires !s.snd.allSent && Counted(n, s.snd).sendCount == s.snd.sendCount + 1
    ensures Rank(n, SenderCallback(n, s)) < Rank(n, s)
  {
    PublishAddsOne(s.ping, s.toRcv, Data);
    hide Position, Goal, Threshold, Published, Sent;
  }

  lemma {:induction false} PublishAddsOne(t: Topic, queue: seq<Msg>, msg: Msg)
    ensures |Sent(t, queue, msg)| <= |queue| + 1 && Published(t).linked == t.linked
  {
  }

  lemma {:induction false} SenderCallbackRankFalls(n: nat, s: State)
    requires Inv(Goal(n), s) && Enabled(s, ToSender)
    ensures Rank(n, SenderCallback(n, s)) < Rank(n, s)
  {
    CallbacksCount(n, s);
    hide Inv, Rank, SenderCallback, Counted;
    if s.toSnd[0] == Data { SenderPongRankFalls(n, s); } else { SenderDoneRankFalls(n, s); }
  }

  lemma {:induction false} OtherRankFalls(n: nat, s: State, step: Step)
    requires Enabled(s, step) && !step.SenderMain? && !step.ReceiverMain? && !step.ToReceiver? && !step.ToSender?
    ensures Rank(n, Apply(n, s, step)) < Rank(n, s)
  {
    hide Goal, Position;
  }

  lemma {:induction false} RankFalls(n: nat, s: State, step: Step)
    requires Inv(Goal(n), s) && Enabled(s, step)
    ensures Rank(n, Apply(n, s, step)) < Rank(n, s)
  {
    hide Inv, Rank, SenderMainApply, ReceiverMainApply, ReceiverCallback, SenderCallback;
    match step
    case SenderMain => SenderMainRankFalls(n, s);
    case ReceiverMain => ReceiverMainRankFalls(n, s);
    case ToReceiver => ReceiverCallbackRankFalls(n, s);
    case ToSender => SenderCallbackRankFalls(n, s);
    case _ => OtherRankFalls(n, s, step);
  }

  lemma {:induction false} RankIsNatural(n: nat, s: State)
    requires Inv(Goal(n), s)
    ensures 0 <= Rank(n, s)
  {
  }

  lemma {:induction false} RankBound(n: nat, run: seq<Step>)
    requires Legal(n, run)
    ensures |run| + Rank(n, Run(n, run)) <= 6 * Goal(n) + 46
  {
    hide Inv, Apply;
    if run != [] {
      hide Rank;
      var before := run[..|run| - 1];
      assert forall i :: 0 <= i < |before| ==> before[..i] == run[..i];
      RankBound(n, before);
      Reachable(n, before);
      RankFalls(n, Run(n, before), run[|run| - 1]);
    }
  }

  /** Every run is finite, so with `Progress` every run can only end finished. */
  lemma {:induction false} RunsAreBounded(n: nat, run: seq<Step>)
    requires Legal(n, run)
    ensures |run| <= 6 * Goal(n) + 46
  {
    hide Inv, Rank, Run;
    RankBound(n, run);
    Reachable(n, run);
    RankIsNatural(n, Run(n, run));
  }

  // ----- the message count -----

  predicate Validate(messageCount: nat, messageSizeInBytes: nat) {
    messageCount >= 1 && messageSizeInBytes >= 1
  }

  /**
   Every stuck run of a valid configuration has `n + 2` pings, `n + 1` pongs and `n` round
   trips exactly when `n + 1` does not wrap; for the largest 32-bit count the threshold
   wraps to zero and nothing is measured.
   */
  lemma {:induction false} RoundTrips(n: nat, size: nat, run: seq<Step>)
    requires n < 0x1_0000_0000 && Validate(n, size) && Stuck(Run(n, run))
    ensures var s := Run(n, run);
            && (n < 0x1_0000_0000 - 1 <==> s.roundtrips == n)
            && (n < 0x1_0000_0000 - 1 <==> s.roundtrips >= 1)
            && (n < 0x1_0000_0000 - 1 ==> s.ping.published == n + 2 && s.pong.published == n + 1)
            && (n == 0x1_0000_0000 - 1 ==> s.roundtrips == 0 && s.ping.published == 2 && s.pong.published == 1)
  {
    hide Run, Stuck;
    Progress(n, run);
    if n < UINT32 - 1 {
      assert Threshold(n) == n + 1;
    } else {
      assert Threshold(n) == 0;
    }
  }

  // ----- both ends occur, for every message count -----

  ghost predicate Reaches(n: nat, s: State) {
    exists run :: Run(n, run) == s
  }

  lemma {:induction false} Go(n: nat, s: State, step: Step) returns (next: State)
    requires Reaches(n, s)
    ensures next == Apply(n, s, step) && Reaches(n, next)
  {
    hide Apply;
    var run :| Run(n, run) == s;
    assert (run + [step])[..|run|] == run;
    next := Run(n, run + [step]);
  }

  function Waiting(j: nat): Side { Side(MWaitAllSent, j, false, false, 0, 0, j) }

  function Exchanged(count: nat): Topic { Topic(true, true, true, count > 0, count, count) }

  const NO_TOPIC: Topic := Topic(false, false, false, false, 0, 0)

  /** `j` bounces are over and the next ping is under way. */
  function Bouncing(j: nat): State {
    State(Waiting(j), Waiting(j), if j == 0 then 0 else j - 1, 0, Exchanged(j + 1), Exchanged(j), NO_TOPIC, NO_TOPIC,
          [Data], [], false, false)
  }

  /** All publishers and subscribers of the measurement exist, none is connected. */
  function Created(): State {
    var side, topic := Side(MInitial, 0, false, false, 0, 0, 0), Topic(true, true, false, false, 0, 0);
    State(side, side, 0, 0, topic, topic, NO_TOPIC, NO_TOPIC, [], [], false, false)
  }

  lemma {:induction false} CreatedReached(n: nat)
    ensures Reaches(n, Created())
  {
    assert Run(n, []) == Initial();
    var s := Go(n, Initial(), SenderMain);
    s := Go(n, s, SenderMain);
    s := Go(n, s, ReceiverMain);
    s := Go(n, s, ReceiverMain);
    assert s == Created();
  }

  lemma {:induction false} SetUp(n: nat)
    ensures Reaches(n, Bouncing(0))
  {
    CreatedReached(n);
    var s := Go(n, Created(), ReceiverMain);
    s := Go(n, s, LinkPing);
    s := Go(n, s, LinkPong);
    s := Go(n, s, SenderMain);
    assert s == Bouncing(0);
  }

  lemma {:induction false} CountsUp(n: nat, side: Side)
    requires side.sendCount < Goal(n)
    ensures var last := side.sendCount + 1 == Goal(n);
            Counted(n, side) == side.(sendCount := side.sendCount + 1, received := side.received + 1, leaving := last,
                                      allSentSets := side.allSentSets + if last then 1 else 0)
  {
  }

  lemma {:induction false} BouncingReached(n: nat, j: nat)
    requires j < Goal(n)
    ensures Reaches(n, Bouncing(j))
  {
    if j == 0 {
      SetUp(n);
    } else {
      BouncingReached(n, j - 1);
      hide Goal, Counted;
      CountsUp(n, Waiting(j - 1));
      var s := Go(n, Bouncing(j - 1), ToReceiver);
      s := Go(n, s, ToSender);
      assert s == Bouncing(j);
    }
  }

  /** All bounces are over, the trailing ping has been ignored, and nobody has synchronised. */
  function Bounced(n: nat): State {
    var g := Goal(n);
    var side := Side(MWaitAllSent, g, true, false, 1, 0, g);
    State(side, side.(received := g + 1), g - 1, 1, Exchanged(g + 1), Exchanged(g), NO_TOPIC, NO_TOPIC,
          [], [], false, false)
  }

  lemma {:induction false} BouncedReached(n: nat)
    ensures Reaches(n, Bounced(n))
  {
    var j := Goal(n) - 1;
    BouncingReached(n, j);
    CountsUp(n, Waiting(j));
    hide Goal, Counted;
    var s := Go(n, Bouncing(j), ToReceiver);
    s := Go(n, s, ReceiverLeaves);
    s := Go(n, s, ToSender);
    s := Go(n, s, SenderLeaves);
    s := Go(n, s, ToReceiver);
    assert s == Bounced(n);
  }

  /** The sender has answered and is done; the receiver has yet to subscribe to `AllDone`. */
  function Parting(n: nat): State {
    var s := Bounced(n);
    s.(snd := s.snd.(pc := MFinished, syncSets := 1), rcv := s.rcv.(pc := MCreateDoneSub),
       doneS := Topic(true, false, false, true, 1, 0), doneR := Exchanged(1))
  }

  /** The sender waits for `AllDone`; the receiver is about to go on. */
  function Asking(n: nat): State {
    var s := Bounced(n);
    s.(snd := s.snd.(pc := MWaitSync), doneS := Topic(true, false, false, false, 0, 0),
       doneR := Topic(false, true, false, false, 0, 0))
  }

  lemma {:induction false} AskingReached(n: nat)
    ensures Reaches(n, Asking(n))
  {
    BouncedReached(n);
    hide Goal;
    var s := Go(n, Bounced(n), SenderMain);
    s := Go(n, s, SenderMain);
    s := Go(n, s, SenderMain);
    s := Go(n, s, SenderMain);
    assert s == Asking(n);
  }

  /** The receiver has published its `AllDone`; the sender has yet to receive it. */
  function Asked(n: nat): State {
    var s := Asking(n);
    s.(rcv := s.rcv.(pc := MCreateDoneSub), doneR := Topic(true, true, true, true, 1, 1), toSnd := [AllDone])
  }

  lemma {:induction false} AskedReached(n: nat)
    ensures Reaches(n, Asked(n))
  {
    AskingReached(n);
    hide Goal;
    var s := Go(n, Asking(n), ReceiverMain);
    s := Go(n, s, ReceiverMain);
    s := Go(n, s, LinkDoneR);
    s := Go(n, s, ReceiverMain);
    assert s == Asked(n);
  }

  lemma {:induction false} PartingReached(n: nat)
    ensures Reaches(n, Parting(n))
  {
    AskedReached(n);
    hide Goal;
    var s := Go(n, Asked(n), ToSender);
    s := Go(n, s, SenderMain);
    assert s == Parting(n);
  }

  /** The receiver subscribes only after the sender has left: it waits for good. */
  lemma {:induction false} ReceiverLeftBehind(n: nat)
    ensures exists run :: LeftBehind(n, Run(n, run))
  {
    PartingReached(n);
    hide Run, Goal;
    var s := Go(n, Parting(n), SenderExit(0));
    s := Go(n, s, ReceiverMain);
  }

  /** The receiver is connected, but `AllDone` is still in the sender's queue when it leaves. */
  lemma {:induction false} AllDoneLost(n: nat)
    ensures exists run :: LeftBehind(n, Run(n, run)) && Run(n, run).doneS.linked
  {
    PartingReached(n);
    hide Run, Goal;
    var s := Go(n, Parting(n), ReceiverMain);
    s := Go(n, s, LinkDoneS);
    s := Go(n, s, SenderExit(0));
  }

  lemma {:induction false} BothFinish(n: nat)
    ensures exists run :: Finished(n, Run(n, run))
  {
    PartingReached(n);
    hide Run, Goal;
    var s := Go(n, Parting(n), ReceiverMain);
    s := Go(n, s, LinkDoneS);
    s := Go(n, s, SenderExit(1));
    s := Go(n, s, ToReceiver);
    s := Go(n, s, ReceiverMain);
    s := Go(n, s, ReceiverExit);
  }
}
