/**
 The LIN demo's two nodes: the master's schedule ends with a go-to-sleep command, the
 slave wakes the bus fifteen milliseconds later, and the master drops a frame that is due
 while its controller sleeps.

 Times are in milliseconds, one step each.  As the virtual time synchronisation provides
 (see `TimeSync`), a participant steps at `t` only when its peer's next step is not before
 `t` and everything the peer sent before `t` has been delivered; a delivery may be earlier.
 */
module LinSleepWake {
  import opened LinTimer
  import opened LinDemo

  const DELAYS: seq<int> := [10, 20, 10, 10, 10, 10]
  const GO_TO_SLEEP: nat := 5
  const WAKEUP_DELAY: nat := 15
  const CYCLE: nat := 70

  datatype Status = Operational | Asleep

  /** Tasks 0 to 4 are the frames 16, 17, 18, 19 and 34; task 5 is the go-to-sleep command. */
  datatype Entry = Entry(time: int, task: nat, sent: bool)

  datatype State = State(
    masterNext: nat, slaveNext: nat,
    sched: Sched, master: Status,
    slave: Status, slaveTimer: TimerState, slaveNow: int,
    toSlave: seq<int>,      // go-to-sleep frames under way, with their stamps
    toMaster: seq<int>,     // wakeup pulses under way
    log: seq<Entry>)

  datatype Step = MasterStep | SlaveStep | DeliverSleep | DeliverWakeup

  function Initial(): State {
    State(0, 0, Reset(DELAYS), Operational, Operational, Cleared(), 0, [], [], [])
  }

  predicate Enabled(s: State, step: Step) {
    match step
    case MasterStep => s.masterNext <= s.slaveNext && forall w :: w in s.toMaster ==> s.masterNext <= w
    case SlaveStep => s.slaveNext <= s.masterNext && forall g :: g in s.toSlave ==> s.slaveNext <= g
    case DeliverSleep => s.toSlave != []
    case DeliverWakeup => s.toMaster != []
  }

  predicate Proper(s: State) { s.sched.nextTask < |DELAYS| && LinTimer.Proper(s.sched.timer) }

  function MasterApply(s: State): State
    requires Proper(s)
  {
    var t := s.masterNext;
    var stepped := s.(masterNext := t + 1, sched := Executed(DELAYS, s.sched, t));
    if !Due(s.sched.timer, t) then stepped else
    var task := s.sched.timer.action.value;
    if task == GO_TO_SLEEP then
      stepped.(toSlave := s.toSlave + [t], master := Asleep, log := s.log + [Entry(t, task, true)])
    else
      stepped.(log := s.log + [Entry(t, task, s.master == Operational)])
  }

  function SlaveApply(s: State): State {
    var t := s.slaveNext;
    var stepped := s.(slaveNext := t + 1, slaveNow := t);
    if !Due(s.slaveTimer, t) then stepped
    else stepped.(slaveTimer := Cleared(), toMaster := s.toMaster + [t], slave := Operational)
  }

  /** A step that is not enabled leaves the state alone. */
  function Apply(s: State, step: Step): (after: State)
    requires Proper(s)
    ensures Proper(after)
  {
    if !Enabled(s, step) then s else
    match step
    case MasterStep => MasterApply(s)
    case SlaveStep => SlaveApply(s)
    case DeliverSleep =>
      s.(toSlave := s.toSlave[1..], slaveTimer := Armed(s.slaveNow + WAKEUP_DELAY, 0), slave := Asleep)
    case DeliverWakeup => s.(toMaster := s.toMaster[1..], master := Operational)
  }

  /** The state after a schedule; its last element acts last. */
  function Run(run: seq<Step>): (s: State)
    ensures Proper(s)
  {
    if run == [] then Initial() else Apply(Run(run[..|run| - 1]), run[|run| - 1])
  }

  // ----- the timetable -----

  function Offset(task: nat): nat {
    if task == 0 then 10 else 20 + 10 * task
  }

  /** When the `k`-th task of the master runs. */
  function Timetable(k: nat): nat { CYCLE * (k / 6) + Offset(k % 6) }

  /** What the master does there: only frame 16 is dropped, in every cycle but the first. */
  function Planned(k: nat): Entry { Entry(Timetable(k), k % 6, k < 6 || k % 6 != 0) }

  lemma {:induction false} TimetableIsCyclicSum(k: nat)
    ensures Timetable(k) == CyclicSum(DELAYS, k + 1)
  {
    assert Turn(6, k) == k % 6;
    if k == 0 {
      assert CyclicSum(DELAYS, 0) == 0;
    } else {
      TimetableIsCyclicSum(k - 1);
    }
  }

  // ----- the inductive invariant -----

  /** The time of the last go-to-sleep command, a multiple of the cycle; 0 before the first. */
  function LastSleep(s: State): nat { CYCLE * (|s.log| / 6) }

  ghost predicate OnSchedule(s: State) {
    var c := |s.log|;
    && s.sched.timer == Armed(Timetable(c), c % 6)
    && s.sched.nextTask == (c + 1) % 6
    && s.sched.now == (if s.masterNext == 0 then 0 else s.masterNext - 1)
    && s.masterNext <= Timetable(c)
    && (c > 0 ==> Timetable(c - 1) < s.masterNext)
    && forall k :: 0 <= k < c ==> s.log[k] == Planned(k)
  }

  ghost predicate InStep(s: State) {
    && s.masterNext <= s.slaveNext + 1 && s.slaveNext <= s.masterNext + 1
    && s.slaveNow == if s.slaveNext == 0 then 0 else s.slaveNext - 1
  }

  ghost predicate BothAwake(s: State) {
    && s.master == Operational && s.slave == Operational && s.slaveTimer == Cleared()
    && s.toSlave == [] && s.toMaster == []
    && (LastSleep(s) > 0 ==> s.masterNext >= LastSleep(s) + 14)
  }

  ghost predicate SleepUnderWay(s: State) {
    && s.master == Asleep && s.slave == Operational && s.slaveTimer == Cleared()
    && s.toSlave == [LastSleep(s)] && s.toMaster == []
    && LastSleep(s) <= s.slaveNext <= LastSleep(s) + 1
  }

  ghost predicate BothAsleep(s: State) {
    && s.master == Asleep && s.slave == Asleep && s.toSlave == [] && s.toMaster == []
    && (s.slaveTimer == Armed(LastSleep(s) + 14, 0) || s.slaveTimer == Armed(LastSleep(s) + 15, 0))
    && s.slaveNext <= s.slaveTimer.timeOut
  }

  ghost predicate PulseUnderWay(s: State) {
    && s.master == Asleep && s.slave == Operational && s.slaveTimer == Cleared() && s.toSlave == []
    && |s.toMaster| == 1 && LastSleep(s) + 14 <= s.toMaster[0] <= LastSleep(s) + 15
    && s.toMaster[0] <= s.masterNext <= s.toMaster[0] + 1
  }

  ghost predicate Inv(s: State) {
    && OnSchedule(s) && InStep(s)
    && (|| BothAwake(s)
        || (LastSleep(s) > 0 && (SleepUnderWay(s) || BothAsleep(s) || PulseUnderWay(s))))
  }

  lemma {:induction false} InitialInv(s: State)
    requires s == Initial()
    ensures Inv(s)
  {
    assert s.sched == Sched(Armed(10, 0), 1, 0);
  }

  lemma {:induction false} NextOnTimetable(c: nat)
    ensures Timetable(c + 1) == Timetable(c) + DELAYS[(c + 1) % 6]
    ensures c % 6 == GO_TO_SLEEP ==> Timetable(c) == CYCLE * ((c + 1) / 6)
  {
  }

  /** Whatever the phase, a frame that is due finds the controller as planned. */
  lemma {:induction false} DueAsPlanned(s: State)
    requires Inv(s) && Due(s.sched.timer, s.masterNext)
    ensures var c := |s.log|;
            && s.masterNext == Timetable(c)
            && (c % 6 != GO_TO_SLEEP ==> ((s.master == Operational) <==> Planned(c).sent))
            && (c % 6 == GO_TO_SLEEP ==> BothAwake(s))
  {
  }

  lemma {:induction false} NotDueKeepsInv(s: State)
    requires Proper(s) && Inv(s) && Enabled(s, MasterStep) && !Due(s.sched.timer, s.masterNext)
    ensures Inv(MasterApply(s))
  {
    assert s.toMaster != [] ==> s.toMaster[0] in s.toMaster;
    hide Timetable, Planned;
  }

  lemma {:induction false} DueLogged(s: State)
    requires Proper(s) && Inv(s) && Due(s.sched.timer, s.masterNext)
    ensures MasterApply(s).log == s.log + [Planned(|s.log|)]
  {
    DueAsPlanned(s);
    hide Timetable, Planned, BothAsleep, PulseUnderWay;
  }

  lemma {:induction false} DueSchedule(s: State, c: nat, time: int)
    requires Proper(s) && s.sched.timer == Armed(time, c % 6) && s.sched.nextTask == (c + 1) % 6 && s.masterNext == time
    ensures MasterApply(s).masterNext == s.masterNext + 1
    ensures MasterApply(s).sched == Sched(Armed(time + DELAYS[(c + 1) % 6], (c + 1) % 6), (c + 2) % 6, time)
  {
  }

  lemma {:induction false} DueOnSchedule(s: State)
    requires Proper(s) && Inv(s) && Due(s.sched.timer, s.masterNext)
    ensures OnSchedule(MasterApply(s))
  {
    var c := |s.log|;
    NextOnTimetable(c);
    DueAsPlanned(s);
    DueLogged(s);
    DueSchedule(s, c, Timetable(c));
    hide MasterApply, DELAYS, Timetable, Planned, BothAwake, SleepUnderWay, BothAsleep, PulseUnderWay;
  }

  lemma {:induction false} DueKeepsInv(s: State)
    requires Proper(s) && Inv(s) && Enabled(s, MasterStep) && Due(s.sched.timer, s.masterNext)
    ensures Inv(MasterApply(s))
  {
    NextOnTimetable(|s.log|);
    DueOnSchedule(s);
    DueAsPlanned(s);
    hide OnSchedule, Planned;
  }

  lemma {:induction false} SlaveKeepsInv(s: State)
    requires Inv(s) && Enabled(s, SlaveStep)
    ensures Inv(SlaveApply(s))
  {
    assert s.toSlave != [] ==> s.toSlave[0] in s.toSlave;
  }

  lemma {:induction false} DeliveryKeepsInv(s: State, step: Step)
    requires Proper(s) && Inv(s) && (step == DeliverSleep || step == DeliverWakeup)
    ensures Inv(Apply(s, step))
  {
  }

  lemma {:induction false} StepKeepsInv(s: State, step: Step)
    requires Proper(s) && Inv(s)
    ensures Inv(Apply(s, step))
  {
    hide Inv, MasterApply, SlaveApply;
    if Enabled(s, step) {
      match step
      case MasterStep => if Due(s.sched.timer, s.masterNext) { DueKeepsInv(s); } else { NotDueKeepsInv(s); }
      case SlaveStep => SlaveKeepsInv(s);
      case _ => DeliveryKeepsInv(s, step);
    }
  }

  lemma {:induction false} Reachable(run: seq<Step>)
    ensures Inv(Run(run))
  {
    hide Inv, Apply;
    if run == [] {
      InitialInv(Initial());
    } else {
      var before := run[..|run| - 1];
      Reachable(before);
      StepKeepsInv(Run(before), run[|run| - 1]);
    }
  }

  /**
   In every reachable state, after any number of cycles: the `k`-th task ran at the `k`-th
   cyclic sum of the delays; it sent its frame unless it is frame 16 of a cycle other than
   the first; and the slave's timer is armed exactly between its reception of the
   go-to-sleep command and its wakeup pulse.
   */
  lemma {:induction false} EveryCycle(run: seq<Step>, k: nat)
    ensures var s := Run(run);
            && (k < |s.log| <==> CyclicSum(DELAYS, k + 1) < s.masterNext)
            && (k < |s.log| ==> s.log[k] == Entry(CyclicSum(DELAYS, k + 1), k % 6, k < 6 || k % 6 != 0))
            && (s.slaveTimer.active <==> s.slave == Asleep)
            && |s.toSlave| + |s.toMaster| <= 1
  {
    hide Run;
    Reachable(run);
    var s := Run(run);
    TimetableIsCyclicSum(k);
    if k < |s.log| {
      TimetableIncreases(k, |s.log| - 1);
    } else {
      TimetableIncreases(|s.log|, k);
    }
  }

  lemma {:induction false} TimetableIncreases(i: nat, j: nat)
    requires i <= j
    ensures Timetable(i) <= Timetable(j)
  {
    if i < j {
      TimetableIncreases(i, j - 1);
      NextOnTimetable(j - 1);
      hide Timetable;
    }
  }

  /** The master sleeps at most 16 ms, from each go-to-sleep command until the pulse arrives. */
  lemma {:induction false} SleepIsShort(run: seq<Step>)
    ensures var s := Run(run);
            s.master == Asleep ==> LastSleep(s) > 0 && LastSleep(s) < s.masterNext <= LastSleep(s) + 16
  {
    hide Run;
    Reachable(run);
  }

  lemma {:induction false} RunStep(run: seq<Step>, step: Step)
    ensures Run(run + [step]) == Apply(Run(run), step)
  {
    assert (run + [step])[..|run|] == run;
  }

  /** Virtual time never stops: every run can be continued until the master has made its next step. */
  lemma {:induction false} TimeAdvances(run: seq<Step>) returns (longer: seq<Step>)
    ensures run <= longer && Run(longer).masterNext == Run(run).masterNext + 1
  {
    longer := Delivered(run);
    if Run(longer).masterNext > Run(longer).slaveNext {
      longer := SlaveCatchesUp(longer);
    }
    Reachable(longer);
    var s := Run(longer);
    RunStep(longer, MasterStep);
    longer := longer + [MasterStep];
    hide Run, Inv;
    MasterSteps(s);
  }

  lemma {:induction false} MasterSteps(s: State)
    requires Proper(s) && Enabled(s, MasterStep)
    ensures Apply(s, MasterStep).masterNext == s.masterNext + 1
  {
  }

  /** At most one message is ever under way. */
  lemma {:induction false} Delivered(run: seq<Step>) returns (longer: seq<Step>)
    ensures run <= longer && Run(longer).toSlave == [] && Run(longer).toMaster == []
    ensures Run(longer).masterNext == Run(run).masterNext && Run(longer).slaveNext == Run(run).slaveNext
  {
    hide Run;
    Reachable(run);
    longer := run;
    if Run(run).toSlave != [] {
      RunStep(run, DeliverSleep);
      longer := run + [DeliverSleep];
    } else if Run(run).toMaster != [] {
      RunStep(run, DeliverWakeup);
      longer := run + [DeliverWakeup];
    }
  }

  lemma {:induction false} SlaveCatchesUp(run: seq<Step>) returns (longer: seq<Step>)
    requires Run(run).toSlave == [] && Run(run).masterNext > Run(run).slaveNext
    ensures run <= longer && Run(longer).toMaster == []
    ensures Run(longer).masterNext == Run(run).masterNext <= Run(longer).slaveNext
  {
    RunStep(run, SlaveStep);
    Reachable(run);
    longer := Delivered(run + [SlaveStep]);
    hide Run;
  }

  /** Every element of the schedule is enabled when its turn comes. */
  ghost predicate Legal(run: seq<Step>) {
    forall i :: 0 <= i < |run| ==> Enabled(Run(run[..i]), run[i])
  }

  function UnderWay(s: State): nat { |s.toSlave| + |s.toMaster| }

  function Time(s: State): nat { s.masterNext + s.slaveNext }

  /** A step in time puts at most one message on its way, and a delivery takes one off. */
  lemma {:induction false} StepTakesTime(s: State, step: Step)
    requires Proper(s) && Enabled(s, step)
    ensures var after := Apply(s, step);
            1 + UnderWay(after) - UnderWay(s) <= 2 * (Time(after) - Time(s))
  {
  }

  lemma {:induction false} TimeIsTaken(run: seq<Step>)
    requires Legal(run)
    ensures |run| + UnderWay(Run(run)) <= 2 * Time(Run(run))
  {
    hide Apply;
    if run != [] {
      var before := run[..|run| - 1];
      assert forall i :: 0 <= i < |before| ==> before[..i] == run[..i];
      TimeIsTaken(before);
      StepTakesTime(Run(before), run[|run| - 1]);
    }
  }

  /** Nor can anything go on for ever without it: a run of enabled steps takes both participants on. */
  lemma {:induction false} NobodyStarves(run: seq<Step>)
    requires Legal(run)
    ensures |run| <= 4 * Run(run).masterNext + 2 && |run| <= 4 * Run(run).slaveNext + 2
  {
    hide Run;
    Reachable(run);
    TimeIsTaken(run);
  }
}
