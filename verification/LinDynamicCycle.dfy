/**
 The two nodes of the dynamic LIN demo: the master's acknowledgement-driven schedule, its
 controller, and the slave that answers frame 34 and wakes the bus ten milliseconds after
 it was put to sleep.

 The master answers the headers of frames 16 to 19 itself, so their acknowledgement comes
 from within the task that sends them; that of frame 34 comes with the slave's response,
 and the go-to-sleep command is acknowledged before the controller sleeps.  While it
 sleeps, the step handler does not even note the time.

 Times are in milliseconds, one step each.  As the virtual time synchronisation provides
 (see `TimeSync`), a participant steps at `t` only when its peer's next step is not before
 `t` and everything the peer sent before announcing that step has been delivered.
 */
module LinDynamicCycle {
  import opened LinTimer
  import opened LinDemo
  import D = LinDemoDynamic

  const DELAYS: seq<int> := [5, 5, 5, 5, 5, 5]
  const FRAME_34: nat := 4
  const GO_TO_SLEEP: nat := 5
  const WAKEUP_DELAY: nat := 10

  datatype Status = Operational | Asleep

  /** Tasks 0 to 4 are the frames 16, 17, 18, 19 and 34; task 5 is the go-to-sleep command. */
  datatype Entry = Entry(time: int, task: nat)

  /** What is under way, with the sender's step: the peer must have it before any later step. */
  datatype ToSlave = Header(stamp: int) | Sleep(stamp: int)

  datatype ToMaster = Response(stamp: int) | Pulse(stamp: int)

  datatype State = State(
    masterNext: nat, slaveNext: nat,
    sched: Sched, master: Status,
    slave: Status, slaveTimer: TimerState, slaveNow: int,
    toSlave: seq<ToSlave>, toMaster: seq<ToMaster>,
    log: seq<Entry>,
    headers: nat, sleeps: nat,      // received by the slave
    answers: nat, pulses: nat)      // received by the master

  datatype Step = MasterStep | SlaveStep | DeliverToSlave | DeliverToMaster

  function Initial(): State {
    State(0, 0, Reset(DELAYS), Operational, Operational, Cleared(), 0, [], [], [], 0, 0, 0, 0)
  }

  predicate Enabled(s: State, step: Step) {
    match step
    case MasterStep => s.masterNext <= s.slaveNext && forall m :: m in s.toMaster ==> s.masterNext <= m.stamp
    case SlaveStep => s.slaveNext <= s.masterNext && forall m :: m in s.toSlave ==> s.slaveNext <= m.stamp
    case DeliverToSlave => s.toSlave != []
    case DeliverToMaster => s.toMaster != []
  }

  predicate Proper(s: State) { s.sched.nextTask < |DELAYS| && LinTimer.Proper(s.sched.timer) }

  function MasterApply(s: State): (after: State)
    requires Proper(s)
    ensures Proper(after)
  {
    var t := s.masterNext;
    if s.master.Asleep? then s.(masterNext := t + 1) else
    var stepped := s.(masterNext := t + 1, sched := D.Stepped(s.sched, t));
    if !Due(s.sched.timer, t) then stepped else
    var task := s.sched.timer.action.value;
    var logged := stepped.(log := s.log + [Entry(t, task)]);
    if task == FRAME_34 then logged.(toSlave := s.toSlave + [Header(t)])
    else if task == GO_TO_SLEEP then
      logged.(toSlave := s.toSlave + [Sleep(t)], sched := ScheduleNext(DELAYS, logged.sched), master := Asleep)
    else logged.(sched := ScheduleNext(DELAYS, logged.sched))
  }

  function SlaveApply(s: State): State {
    var t := s.slaveNext;
    var stepped := s.(slaveNext := t + 1, slaveNow := t);
    if !Due(s.slaveTimer, t) then stepped
    else stepped.(slaveTimer := Cleared(), toMaster := s.toMaster + [Pulse(t)], slave := Operational)
  }

  function SlaveReceives(s: State): State
    requires s.toSlave != []
  {
    var rest := s.(toSlave := s.toSlave[1..]);
    match s.toSlave[0]
    case Header(_) => rest.(headers := s.headers + 1, toMaster := s.toMaster + [Response(s.slaveNext)])
    case Sleep(_) => rest.(sleeps := s.sleeps + 1, slaveTimer := Armed(s.slaveNow + WAKEUP_DELAY, 0), slave := Asleep)
  }

  function MasterReceives(s: State): (after: State)
    requires s.toMaster != [] && Proper(s)
    ensures Proper(after)
  {
    var next := s.(toMaster := s.toMaster[1..], sched := ScheduleNext(DELAYS, s.sched));
    match s.toMaster[0]
    case Response(_) => next.(answers := s.answers + 1)
    case Pulse(_) => next.(pulses := s.pulses + 1, master := Operational)
  }

  /** A step that is not enabled leaves the state alone. */
  function Apply(s: State, step: Step): (after: State)
    requires Proper(s)
    ensures Proper(after)
  {
    if !Enabled(s, step) then s else
    match step
    case MasterStep => MasterApply(s)
    case SlaveStep => SlaveApply(s)
    case DeliverToSlave => SlaveReceives(s)
    case DeliverToMaster => MasterReceives(s)
  }

  /** The state after a schedule; its last element acts last. */
  function Run(run: seq<Step>): (s: State)
    ensures Proper(s)
  {
    if run == [] then Initial() else Apply(Run(run[..|run| - 1]), run[|run| - 1])
  }

  // ----- the inductive invariant -----

  function Following(task: nat): nat { if task == GO_TO_SLEEP then 1 else task + 1 }

  function AfterNext(task: nat): nat { if task == GO_TO_SLEEP then 0 else task + 1 }

  /** From one task to the next: the slave's answer and its wakeup leave some play. */
  predicate Gap(task: nat, gap: int) {
    if task == GO_TO_SLEEP then 9 <= gap <= 11
    else if task == FRAME_34 then 5 <= gap <= 6
    else gap == 5
  }

  ghost predicate LogOk(log: seq<Entry>) {
    && (log != [] ==> log[0] == Entry(5, 0))
    && (forall k :: 0 <= k < |log| ==> log[k].task <= GO_TO_SLEEP && log[k].time > 0)
    && (forall k :: 0 < k < |log| ==>
          log[k].task == Following(log[k - 1].task) && Gap(log[k - 1].task, log[k].time - log[k - 1].time))
  }

  ghost predicate InStep(s: State) {
    && s.masterNext <= s.slaveNext + 1 && s.slaveNext <= s.masterNext + 1
    && s.slaveNow == if s.slaveNext == 0 then 0 else s.slaveNext - 1
  }

  ghost predicate Quiet(s: State) {
    && s.master.Operational? && s.slave.Operational? && s.slaveTimer == Cleared() && s.toSlave == [] && s.toMaster == []
  }

  /** The next task is armed. */
  ghost predicate Ready(s: State) {
    && Quiet(s)
    && if s.log == [] then s.sched.timer == Armed(5, 0) && s.sched.nextTask == 1 && s.masterNext <= 5 else
       var last := s.log[|s.log| - 1];
       && s.sched.timer.active
       && s.sched.timer == Armed(s.sched.timer.timeOut, Following(last.task))
       && s.sched.nextTask == AfterNext(Following(last.task))
       && (if last.task == GO_TO_SLEEP then
             s.sched.timer.timeOut == last.time + 5 && last.time + 9 <= s.masterNext <= last.time + 11
           else
             && Gap(last.task, s.sched.timer.timeOut - last.time)
             && last.time < s.masterNext <= s.sched.timer.timeOut)
  }

  /** Frame 34 has been sent and not been acknowledged. */
  ghost predicate Answering(s: State)
    requires s.log != []
  {
    var last := s.log[|s.log| - 1];
    && last.task == FRAME_34 && s.master.Operational? && s.slave.Operational? && s.slaveTimer == Cleared()
    && s.sched == Sched(Cleared(), 5, s.masterNext - 1)
    && last.time < s.masterNext <= last.time + 2
    && (|| (s.toSlave == [Header(last.time)] && s.toMaster == [] && s.slaveNext <= last.time + 1)
        || (s.toSlave == [] && |s.toMaster| == 1 && s.toMaster[0].Response?
            && last.time <= s.toMaster[0].stamp <= last.time + 1 && s.masterNext <= s.toMaster[0].stamp + 1))
  }

  ghost predicate Sleeping(s: State)
    requires s.log != []
  {
    var last := s.log[|s.log| - 1];
    && last.task == GO_TO_SLEEP && s.master.Asleep? && last.time < s.masterNext
    && s.sched == Sched(Armed(last.time + 5, 0), 1, last.time)
    && (|| SleepUnderWay(s, last.time) || BothAsleep(s, last.time) || PulseUnderWay(s, last.time))
  }

  ghost predicate SleepUnderWay(s: State, at: int) {
    && s.slave.Operational? && s.slaveTimer == Cleared() && s.toSlave == [Sleep(at)] && s.toMaster == []
    && at <= s.slaveNext <= at + 1
  }

  ghost predicate BothAsleep(s: State, at: int) {
    && s.slave.Asleep? && s.toSlave == [] && s.toMaster == []
    && (s.slaveTimer == Armed(at + 9, 0) || s.slaveTimer == Armed(at + 10, 0))
    && s.slaveNext <= s.slaveTimer.timeOut
  }

  ghost predicate PulseUnderWay(s: State, at: int) {
    && s.slave.Operational? && s.slaveTimer == Cleared() && s.toSlave == []
    && |s.toMaster| == 1 && s.toMaster[0].Pulse? && at + 9 <= s.toMaster[0].stamp <= at + 10
    && s.toMaster[0].stamp <= s.masterNext <= s.toMaster[0].stamp + 1
  }

  ghost predicate Inv(s: State) {
    && LogOk(s.log) && InStep(s)
    && (Ready(s) || (s.log != [] && (Answering(s) || Sleeping(s))))
  }

  lemma {:induction false} InitialInv()
    ensures Inv(Initial())
  {
    assert Reset(DELAYS) == Sched(Armed(5, 0), 1, 0);
  }

  lemma {:induction false} LogGrows(log: seq<Entry>, next: Entry)
    requires LogOk(log)
    requires if log == [] then next == Entry(5, 0) else
             && next.task == Following(log[|log| - 1].task) && next.task <= GO_TO_SLEEP
             && Gap(log[|log| - 1].task, next.time - log[|log| - 1].time)
    ensures LogOk(log + [next])
  {
  }

  lemma {:induction false} DueKeepsInv(s: State)
    requires Proper(s) && Inv(s) && Enabled(s, MasterStep) && Ready(s) && Due(s.sched.timer, s.masterNext)
    ensures Inv(MasterApply(s))
  {
    var task := s.sched.timer.action.value;
    LogGrows(s.log, Entry(s.masterNext, task));
    var now := MasterApply(s);
    hide LogOk;
    assert now.log == s.log + [Entry(s.masterNext, task)];
  }

  lemma {:induction false} IdleKeepsInv(s: State)
    requires Proper(s) && Inv(s) && Enabled(s, MasterStep) && !(Ready(s) && Due(s.sched.timer, s.masterNext))
    ensures Inv(MasterApply(s))
  {
    assert s.toMaster != [] ==> s.toMaster[0] in s.toMaster;
    hide LogOk;
  }

  lemma {:induction false} SlaveKeepsInv(s: State)
    requires Inv(s) && Enabled(s, SlaveStep)
    ensures Inv(SlaveApply(s))
  {
    assert s.toSlave != [] ==> s.toSlave[0] in s.toSlave;
    hide LogOk;
  }

  lemma {:induction false} SlaveReceptionKeepsInv(s: State)
    requires Inv(s) && s.toSlave != []
    ensures Inv(SlaveReceives(s))
  {
    assert s.log != [] ==> s.log[|s.log| - 1].time > 0;
    hide LogOk;
  }

  lemma {:induction false} MasterReceptionKeepsInv(s: State)
    requires Proper(s) && Inv(s) && s.toMaster != []
    ensures Inv(MasterReceives(s))
  {
    hide LogOk;
  }

  lemma {:induction false} StepKeepsInv(s: State, step: Step)
    requires Proper(s) && Inv(s)
    ensures Inv(Apply(s, step))
  {
    hide Inv, MasterApply, SlaveApply, SlaveReceives, MasterReceives, Ready, Due;
    if Enabled(s, step) {
      match step
      case MasterStep =>
        if Ready(s) && Due(s.sched.timer, s.masterNext) { DueKeepsInv(s); } else { IdleKeepsInv(s); }
      case SlaveStep => SlaveKeepsInv(s);
      case DeliverToSlave => SlaveReceptionKeepsInv(s);
      case DeliverToMaster => MasterReceptionKeepsInv(s);
    }
  }

  lemma {:induction false} Reachable(run: seq<Step>)
    ensures Inv(Run(run))
  {
    hide Inv, Apply;
    if run == [] {
      InitialInv();
    } else {
      Reachable(run[..|run| - 1]);
      StepKeepsInv(Run(run[..|run| - 1]), run[|run| - 1]);
    }
  }

  // ----- the main results -----

  /** The first round starts with frame 16, every later one with frame 17. */
  function TaskAt(k: nat): nat { if k == 0 then 0 else 1 + (k - 1) % 5 }

  lemma {:induction false} TaskOf(log: seq<Entry>, k: nat)
    requires LogOk(log) && k < |log|
    ensures log[k].task == TaskAt(k)
  {
    if k > 0 {
      TaskOf(log, k - 1);
    }
  }

  /**
   In every reachable state the tasks so far are frames 16, 17, 18, 19, 34 and the command,
   then over and over 17, 18, 19, 34 and the command: frame 16 is sent once and never
   again.  The time from one task to the next is within the stated gap, and no task is
   overdue; the slave's timer is armed exactly while it sleeps.
   */
  lemma {:induction false} EveryCycle(run: seq<Step>)
    ensures var s := Run(run);
            && (forall k :: 0 <= k < |s.log| ==> s.log[k].task == TaskAt(k))
            && (forall k :: 0 < k < |s.log| ==> s.log[k].task != 0)
            && (forall k :: 0 < k < |s.log| ==> Gap(s.log[k - 1].task, s.log[k].time - s.log[k - 1].time))
            && (if s.log == [] then s.masterNext <= 5 else
                var last := s.log[|s.log| - 1];
                s.masterNext <= last.time + if last.task == 5 then 11 else if last.task == 4 then 6 else 5)
            && (s.slaveTimer.active <==> s.slave.Asleep?)
  {
    Reachable(run);
    hide Run;
    var s := Run(run);
    forall k | 0 <= k < |s.log| ensures s.log[k].task == TaskAt(k) && (k > 0 ==> s.log[k].task != 0) {
      TaskOf(s.log, k);
    }
  }

  /** From one go-to-sleep command to the next there are five tasks and 29 to 32 milliseconds. */
  lemma {:induction false} CycleLength(run: seq<Step>, k: nat)
    requires k + 5 < |Run(run).log| && Run(run).log[k].task == GO_TO_SLEEP
    ensures var log := Run(run).log; log[k + 5].task == GO_TO_SLEEP && 29 <= log[k + 5].time - log[k].time <= 32
  {
    Reachable(run);
    hide Run;
    var log := Run(run).log;
    assert log[k + 1].task == 1 && log[k + 2].task == 2 && log[k + 3].task == 3 && log[k + 4].task == 4;
  }

  // ----- nothing is lost -----

  function Count(log: seq<Entry>, task: nat): nat {
    if log == [] then 0 else Count(log[..|log| - 1], task) + if log[|log| - 1].task == task then 1 else 0
  }

  /** At most one message is under way in either direction. */
  ghost predicate Balanced(s: State) {
    && Count(s.log, 4) == s.headers + (if s.toSlave != [] && s.toSlave[0].Header? then 1 else 0)
    && Count(s.log, 5) == s.sleeps + (if s.toSlave != [] && s.toSlave[0].Sleep? then 1 else 0)
    && s.headers == s.answers + (if s.toMaster != [] && s.toMaster[0].Response? then 1 else 0)
    && s.sleeps == s.pulses + (if s.toMaster != [] && s.toMaster[0].Pulse? then 1 else 0)
                   + (if s.slave.Asleep? then 1 else 0)
  }

  lemma {:induction false} AtMostOne(s: State)
    requires Inv(s)
    ensures |s.toSlave| + |s.toMaster| <= 1
    ensures Due(s.sched.timer, s.masterNext) && s.master.Operational? ==> s.toSlave == []
    ensures s.slaveTimer.active ==> s.slave.Asleep? && s.toMaster == []
    ensures s.toSlave != [] ==> s.slave.Operational?
  {
    hide LogOk;
  }

  lemma {:induction false} CountOne(log: seq<Entry>, e: Entry, task: nat)
    ensures Count(log + [e], task) == Count(log, task) + if e.task == task then 1 else 0
  {
    assert (log + [e])[..|log|] == log;
  }

  /** What the master's step puts on its way. */
  function Sent(s: State): seq<ToSlave>
    requires Proper(s)
  {
    if s.master.Asleep? || !Due(s.sched.timer, s.masterNext) then []
    else if s.sched.timer.action.value == 4 then [Header(s.masterNext)]
    else if s.sched.timer.action.value == 5 then [Sleep(s.masterNext)] else []
  }

  lemma {:induction false} MasterEffect(s: State)
    requires Proper(s)
    ensures var t := MasterApply(s);
            && t.toSlave == s.toSlave + Sent(s) && t.toMaster == s.toMaster && t.slave == s.slave
            && t.headers == s.headers && t.sleeps == s.sleeps && t.answers == s.answers && t.pulses == s.pulses
            && t.log == if s.master.Asleep? || !Due(s.sched.timer, s.masterNext) then s.log
                        else s.log + [Entry(s.masterNext, s.sched.timer.action.value)]
  {
    hide ScheduleNext, D.Stepped;
  }

  /** What a step of the master has to keep: what it logs is what it sends. */
  ghost predicate SentAsLogged(s: State, t: State) {
    && t.toMaster == s.toMaster && t.slave == s.slave
    && t.headers == s.headers && t.sleeps == s.sleeps && t.answers == s.answers && t.pulses == s.pulses
    && (|| (t.log == s.log && t.toSlave == s.toSlave)
        || (s.toSlave == []
            && Count(t.log, 4) == Count(s.log, 4) + (if t.toSlave != [] && t.toSlave[0].Header? then 1 else 0)
            && Count(t.log, 5) == Count(s.log, 5) + (if t.toSlave != [] && t.toSlave[0].Sleep? then 1 else 0)))
  }

  lemma {:induction false} StillBalanced(s: State, t: State)
    requires Balanced(s) && SentAsLogged(s, t)
    ensures Balanced(t)
  {
    hide Count;
  }

  lemma {:induction false} MasterSendsAsLogged(s: State)
    requires Proper(s)
    requires Due(s.sched.timer, s.masterNext) && s.master.Operational? ==> s.toSlave == []
    ensures SentAsLogged(s, MasterApply(s))
  {
    MasterEffect(s);
    hide MasterApply, Count, Due;
    if s.master.Asleep? || !Due(s.sched.timer, s.masterNext) {
      assert s.toSlave + Sent(s) == s.toSlave;
    } else {
      NotDue(s.sched.timer, s.masterNext);
      var e := Entry(s.masterNext, s.sched.timer.action.value);
      CountOne(s.log, e, 4);
      CountOne(s.log, e, 5);
      assert s.toSlave + Sent(s) == Sent(s);
    }
  }

  lemma {:induction false} MasterBalances(s: State)
    requires Proper(s) && Inv(s) && Balanced(s)
    ensures Balanced(MasterApply(s))
  {
    hide Inv, Balanced, MasterApply, Due, SentAsLogged;
    AtMostOne(s);
    MasterSendsAsLogged(s);
    StillBalanced(s, MasterApply(s));
  }

  lemma {:induction false} NotDue(t: TimerState, now: int)
    ensures !t.active ==> !Due(t, now)
  {
  }

  lemma {:induction false} SlaveBalances(s: State)
    requires Inv(s) && Balanced(s)
    ensures Balanced(SlaveApply(s))
  {
    AtMostOne(s);
    NotDue(s.slaveTimer, s.slaveNext);
    hide Inv, Due, Count;
  }

  lemma {:induction false} SlaveReceptionBalances(s: State)
    requires Inv(s) && Balanced(s) && s.toSlave != []
    ensures Balanced(SlaveReceives(s))
  {
    AtMostOne(s);
    hide Inv, Count;
  }

  lemma {:induction false} MasterReceptionBalances(s: State)
    requires Proper(s) && Inv(s) && Balanced(s) && s.toMaster != []
    ensures Balanced(MasterReceives(s))
  {
    AtMostOne(s);
    hide Inv, Count, ScheduleNext;
  }

  lemma {:induction false} StepBalances(s: State, step: Step)
    requires Proper(s) && Inv(s) && Balanced(s)
    ensures Balanced(Apply(s, step))
  {
    hide Inv, Balanced, MasterApply, SlaveApply, SlaveReceives, MasterReceives;
    if Enabled(s, step) {
      match step
      case MasterStep => MasterBalances(s);
      case SlaveStep => SlaveBalances(s);
      case DeliverToSlave => SlaveReceptionBalances(s);
      case DeliverToMaster => MasterReceptionBalances(s);
    }
  }

  /**
   Every frame 34 is one header for the slave and one answer to it, every go-to-sleep
   command puts the slave to sleep once, and every sleep ends with one pulse; at most one
   of these is still under way.
   */
  lemma {:induction false} NothingLost(run: seq<Step>)
    ensures var s := Run(run);
            && Count(s.log, 4) - 1 <= s.headers <= Count(s.log, 4) && s.headers - 1 <= s.answers <= s.headers
            && Count(s.log, 5) - 1 <= s.sleeps <= Count(s.log, 5) && s.sleeps - 1 <= s.pulses <= s.sleeps
            && (s.toSlave == [] ==> s.headers == Count(s.log, 4) && s.sleeps == Count(s.log, 5))
            && (s.toSlave == [] && s.toMaster == [] && s.slave.Operational? ==>
                  s.answers == s.headers && s.pulses == s.sleeps)
  {
    BalancedRun(run);
    Reachable(run);
    AtMostOne(Run(run));
    hide Run, Count, Inv;
  }

  lemma {:induction false} BalancedRun(run: seq<Step>)
    ensures Balanced(Run(run))
  {
    if run != [] {
      hide Inv, Apply, Balanced;
      BalancedRun(run[..|run| - 1]);
      Reachable(run[..|run| - 1]);
      StepBalances(Run(run[..|run| - 1]), run[|run| - 1]);
    }
  }

  lemma {:induction false} RunStep(run: seq<Step>, step: Step)
    ensures Run(run + [step]) == Apply(Run(run), step)
  {
    assert (run + [step])[..|run|] == run;
  }

  lemma {:induction false} ReceptionsKeepTime(s: State)
    requires Proper(s) && Inv(s)
    ensures s.toSlave != [] ==>
              var t := Apply(s, DeliverToSlave);
              t.toSlave == [] && t.masterNext == s.masterNext && t.slaveNext == s.slaveNext
    ensures s.toSlave == [] && s.toMaster != [] ==>
              var t := Apply(s, DeliverToMaster);
              && t.toSlave == [] && t.toMaster == []
              && t.masterNext == s.masterNext && t.slaveNext == s.slaveNext
  {
    hide LogOk;
  }

  lemma {:induction false} Delivered(run: seq<Step>) returns (longer: seq<Step>)
    ensures run <= longer && Run(longer).toSlave == [] && Run(longer).toMaster == []
    ensures Run(longer).masterNext == Run(run).masterNext && Run(longer).slaveNext == Run(run).slaveNext
  {
    hide Run, Inv, Apply;
    longer := run;
    Reachable(run);
    ReceptionsKeepTime(Run(run));
    if Run(run).toSlave != [] {
      RunStep(run, DeliverToSlave);
      longer := run + [DeliverToSlave];
    }
    Reachable(longer);
    ReceptionsKeepTime(Run(longer));
    if Run(longer).toMaster != [] {
      RunStep(longer, DeliverToMaster);
      longer := longer + [DeliverToMaster];
    }
  }

  /** Virtual time never stops: every run can be continued until the master has made its next step. */
  lemma {:induction false} TimeAdvances(run: seq<Step>) returns (longer: seq<Step>)
    ensures run <= longer && Run(longer).masterNext == Run(run).masterNext + 1
  {
    hide Run, Inv, Apply;
    longer := Delivered(run);
    if Run(longer).masterNext > Run(longer).slaveNext {
      longer := SlaveCatchesUp(longer);
    }
    MasterSteps(Run(longer));
    RunStep(longer, MasterStep);
    longer := longer + [MasterStep];
  }

  lemma {:induction false} MasterSteps(s: State)
    requires Proper(s) && s.masterNext <= s.slaveNext && s.toMaster == []
    ensures Apply(s, MasterStep).masterNext == s.masterNext + 1
  {
  }

  lemma {:induction false} SlaveSteps(s: State)
    requires Proper(s) && Inv(s) && s.slaveNext < s.masterNext && s.toSlave == []
    ensures var t := Apply(s, SlaveStep); t.masterNext == s.masterNext == t.slaveNext
  {
    assert InStep(s);
    hide Inv;
  }

  lemma {:induction false} SlaveCatchesUp(run: seq<Step>) returns (longer: seq<Step>)
    requires Run(run).toSlave == [] && Run(run).slaveNext < Run(run).masterNext
    ensures run <= longer && Run(longer).toMaster == []
    ensures Run(longer).masterNext == Run(run).masterNext == Run(longer).slaveNext
  {
    hide Run, Inv, Apply;
    Reachable(run);
    SlaveSteps(Run(run));
    RunStep(run, SlaveStep);
    longer := Delivered(run + [SlaveStep]);
  }

  /** Every element of the schedule is enabled when its turn comes. */
  ghost predicate Legal(run: seq<Step>) {
    forall i :: 0 <= i < |run| ==> Enabled(Run(run[..i]), run[i])
  }

  /** A header counts twice, because its delivery puts a response on its way. */
  function UnderWay(s: State): nat { 2 * |s.toSlave| + |s.toMaster| }

  function Time(s: State): nat { s.masterNext + s.slaveNext }

  /** A step in time puts at most one message on its way; a header that arrives is replaced by its response. */
  lemma {:induction false} StepTakesTime(s: State, step: Step)
    requires Proper(s) && Enabled(s, step)
    ensures var after := Apply(s, step);
            1 + UnderWay(after) - UnderWay(s) <= 3 * (Time(after) - Time(s))
  {
  }

  lemma {:induction false} TimeIsTaken(run: seq<Step>)
    requires Legal(run)
    ensures |run| + UnderWay(Run(run)) <= 3 * Time(Run(run))
  {
    hide Apply;
    if run != [] {
      var before := run[..|run| - 1];
      assert forall i :: 0 <= i < |before| ==> before[..i] == run[..i];
      TimeIsTaken(before);
      StepTakesTime(Run(before), run[|run| - 1]);
    }
  }

  /** Nor can anything go on for ever without it: a run of enabled steps takes both participants on. */
  lemma {:induction false} NobodyStarves(run: seq<Step>)
    requires Legal(run)
    ensures |run| <= 6 * Run(run).masterNext + 3 && |run| <= 6 * Run(run).slaveNext + 3
  {
    hide Run;
    Reachable(run);
    TimeIsTaken(run);
  }
}
