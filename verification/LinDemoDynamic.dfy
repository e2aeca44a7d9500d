/**
 The acknowledgement-driven LIN schedule: running a task does not arm the next one; every
 frame-status or wakeup callback does, whether or not the armed task has run, and possibly
 from within the running task.
 */
module LinDemoDynamic {
  import opened LinTimer
  import opened Wrappers
  import opened LinDemo

  /** The step handler's part: time moves on and the timer may fire. */
  function Stepped(s: Sched, now: int): Sched {
    s.(now := now, timer := if Due(s.timer, now) then Cleared() else s.timer)
  }

  class AckSchedule {
    const tasks: seq<int>
    const timer: Timer
    var nextTask: nat
    var now: int

    ghost predicate Valid()
      reads this, timer
    {
      nextTask < |tasks| && Proper(timer.State())
    }

    ghost function State(): Sched
      reads this, timer
    {
      Sched(timer.State(), nextTask, now)
    }

    constructor (tasks: seq<int>)
      requires tasks != []
      ensures Valid() && fresh(timer) && this.tasks == tasks
      ensures State() == Reset(tasks)
    {
      this.tasks := tasks;
      timer := new Timer();
      nextTask := 0;
      now := 0;
      new;
      ScheduleNextTask();
    }

    method ScheduleNextTask()
      requires Valid()
      modifies this, timer
      ensures Valid() && State() == ScheduleNext(tasks, old(State()))
    {
      var current := nextTask;
      nextTask := nextTask + 1;
      if nextTask == |tasks| {
        nextTask := 0;
      }
      timer.Set(now + tasks[current], current);
    }

    /** `ran` is the action the caller now runs; its callbacks may call `ScheduleNextTask`. */
    method ExecuteTask(now: int) returns (ran: Option<nat>)
      requires Valid()
      modifies this, timer
      ensures Valid() && State() == Stepped(old(State()), now)
      ensures ran == if Due(old(timer.State()), now) then old(timer.State()).action else None
    {
      this.now := now;
      ran := timer.ExecuteAction(now);
    }
  }

  // ----- histories of steps and acknowledgements -----

  /** `Ack` is any call of `ScheduleNextTask`: a frame status, a wakeup, or a re-entrant one. */
  datatype Event = Step(now: int) | Ack

  /** The `instance`-th arming (from 0) of the timer was executed. */
  datatype Executed = Executed(instance: nat, task: nat, time: int)

  datatype Progress = Progress(sched: Sched, calls: nat, log: seq<Executed>)

  function After(delays: seq<int>, events: seq<Event>): (p: Progress)
    requires delays != []
    ensures p.sched.nextTask < |delays| && Proper(p.sched.timer) && p.calls > 0
  {
    if events == [] then Progress(Reset(delays), 1, []) else
    var p := After(delays, events[..|events| - 1]);
    match events[|events| - 1]
    case Ack => p.(sched := ScheduleNext(delays, p.sched), calls := p.calls + 1)
    case Step(now) =>
      var log := if !Due(p.sched.timer, now) then p.log
                 else p.log + [Executed(p.calls - 1, p.sched.timer.action.value, now)];
      p.(sched := Stepped(p.sched, now), log := log)
  }

  // ----- what the history alone says -----

  /** `ScheduleNextTask` calls so far, with the one made by `Reset`. */
  function Calls(events: seq<Event>): (calls: nat)
    ensures calls > 0
  {
    if events == [] then 1 else Calls(events[..|events| - 1]) + if events[|events| - 1].Ack? then 1 else 0
  }

  function NowAt(events: seq<Event>): int {
    if events == [] then 0
    else if events[|events| - 1].Step? then events[|events| - 1].now
    else NowAt(events[..|events| - 1])
  }

  /** The time of the last step before the last `ScheduleNextTask` call. */
  function ArmedAt(events: seq<Event>): int {
    if events == [] then 0
    else if events[|events| - 1].Ack? then NowAt(events[..|events| - 1])
    else ArmedAt(events[..|events| - 1])
  }

  function Deadline(delays: seq<int>, events: seq<Event>): int
    requires delays != []
  {
    ArmedAt(events) + delays[Turn(|delays|, Calls(events) - 1)]
  }

  /** Event `i` is a step that meets instance `j`'s deadline while `j` is the last one armed. */
  ghost predicate ServedAt(delays: seq<int>, events: seq<Event>, j: nat, i: int)
    requires delays != []
  {
    && 0 <= i < |events| && events[i].Step?
    && Calls(events[..i]) == j + 1
    && Deadline(delays, events[..i]) <= events[i].now
  }

  ghost predicate Served(delays: seq<int>, events: seq<Event>, j: nat)
    requires delays != []
  {
    exists i :: ServedAt(delays, events, j, i)
  }

  ghost predicate FirstServedAt(delays: seq<int>, events: seq<Event>, j: nat, i: int)
    requires delays != []
  {
    ServedAt(delays, events, j, i) && forall e :: ServedAt(delays, events, j, e) ==> i <= e
  }

  /** The armed task is always the one of the last `ScheduleNextTask` call. */
  lemma {:induction false} LastArmed(delays: seq<int>, events: seq<Event>)
    requires delays != []
    ensures var p := After(delays, events);
            && p.calls == Calls(events)
            && p.sched.now == NowAt(events)
            && p.sched.nextTask == Turn(|delays|, p.calls)
            && (p.sched.timer == Cleared()
                || p.sched.timer == Armed(Deadline(delays, events), Turn(|delays|, p.calls - 1)))
  {
    hide Turn;
    NextTurn(|delays|, 0);
    if events != [] {
      var before := events[..|events| - 1];
      LastArmed(delays, before);
      NextTurn(|delays|, Calls(before));
    }
  }

  lemma {:induction false} ServedPrefix(delays: seq<int>, events: seq<Event>, j: nat, i: int)
    requires delays != [] && events != [] && i < |events| - 1
    ensures ServedAt(delays, events, j, i) <==> ServedAt(delays, events[..|events| - 1], j, i)
  {
    if 0 <= i {
      assert events[..|events| - 1][..i] == events[..i];
    }
  }

  lemma {:induction false} ServedByLast(delays: seq<int>, events: seq<Event>, j: nat)
    requires delays != [] && events != []
    ensures var before, last := events[..|events| - 1], events[|events| - 1];
            ServedAt(delays, events, j, |before|)
            <==> last.Step? && Calls(before) == j + 1 && Deadline(delays, before) <= last.now
  {
  }

  /** One more event serves an instance for the first time, or changes nothing for it. */
  lemma {:induction false} FirstServedStep(delays: seq<int>, events: seq<Event>, j: nat, i: int)
    requires delays != [] && events != []
    ensures var before, last := events[..|events| - 1], events[|events| - 1];
            FirstServedAt(delays, events, j, i) <==>
            || FirstServedAt(delays, before, j, i)
            || (i == |before| && !Served(delays, before, j)
                && last.Step? && Calls(before) == j + 1 && Deadline(delays, before) <= last.now)
  {
    hide Deadline, Calls;
    var before := events[..|events| - 1];
    ServedByLast(delays, events, j);
    forall e | e < |before| ensures ServedAt(delays, events, j, e) <==> ServedAt(delays, before, j, e) {
      ServedPrefix(delays, events, j, e);
    }
  }

  /** An instance that was served has been served for a first time. */
  lemma {:induction false} FirstExists(delays: seq<int>, events: seq<Event>, j: nat, i: int) returns (first: int)
    requires delays != [] && ServedAt(delays, events, j, i)
    ensures FirstServedAt(delays, events, j, first)
    decreases i
  {
    if e :| e < i && ServedAt(delays, events, j, e) {
      first := FirstExists(delays, events, j, e);
    } else {
      first := i;
    }
  }

  ghost predicate Explained(delays: seq<int>, events: seq<Event>, r: Executed)
    requires delays != []
  {
    && r.task == Turn(|delays|, r.instance)
    && exists i :: FirstServedAt(delays, events, r.instance, i) && events[i].now == r.time
  }

  ghost predicate InOrder(log: seq<Executed>, bound: int) {
    && (forall a, b :: 0 <= a < b < |log| ==> log[a].instance < log[b].instance)
    && (forall a :: 0 <= a < |log| ==> log[a].instance < bound)
  }

  /** The timer is idle exactly when the last armed instance has run. */
  lemma {:induction false} Log(delays: seq<int>, events: seq<Event>)
    requires delays != []
    ensures var p := After(delays, events);
            && InOrder(p.log, p.calls)
            && (forall r :: r in p.log <==> Explained(delays, events, r))
            && (p.sched.timer.active <==> !Served(delays, events, p.calls - 1))
  {
    hide Turn, Deadline;
    var p := After(delays, events);
    if events == [] {
      assert forall r :: !Explained(delays, events, r);
      assert !Served(delays, events, 0);
    } else {
      hide InOrder, Explained, Served, Calls;
      var before := events[..|events| - 1];
      var q := After(delays, before);
      Log(delays, before);
      LastArmed(delays, before);
      forall r: Executed ensures r in p.log <==> Explained(delays, events, r) {
        LogStep(delays, events, r);
      }
      ServedLast(delays, events);
      forall a | 0 <= a < |q.log| ensures Explained(delays, before, q.log[a]) {
        assert q.log[a] in q.log;
      }
      OrderStep(delays, events);
    }
  }

  lemma {:induction false} OrderStep(delays: seq<int>, events: seq<Event>)
    requires delays != [] && events != []
    requires var q := After(delays, events[..|events| - 1]);
             && InOrder(q.log, q.calls)
             && (forall a :: 0 <= a < |q.log| ==> Explained(delays, events[..|events| - 1], q.log[a]))
             && (q.sched.timer.active <==> !Served(delays, events[..|events| - 1], q.calls - 1))
    ensures InOrder(After(delays, events).log, After(delays, events).calls)
  {
    hide Turn, Deadline, Calls, ServedAt;
    var before := events[..|events| - 1];
    var q := After(delays, before);
    LastArmed(delays, before);
    if q.sched.timer.active {
      forall a | 0 <= a < |q.log| ensures q.log[a].instance != q.calls - 1 {
        assert Explained(delays, before, q.log[a]);
      }
    }
  }

  lemma {:induction false} NotBeforeArmed(delays: seq<int>, events: seq<Event>, j: nat, i: int)
    requires delays != [] && ServedAt(delays, events, j, i)
    ensures j < Calls(events)
  {
    CallsGrow(events, i);
  }

  lemma {:induction false} CallsGrow(events: seq<Event>, i: int)
    requires 0 <= i <= |events|
    ensures Calls(events[..i]) <= Calls(events)
  {
    if i == |events| {
      assert events[..i] == events;
    } else {
      assert events[..|events| - 1][..i] == events[..i];
      CallsGrow(events[..|events| - 1], i);
    }
  }

  lemma {:induction false} ServedLast(delays: seq<int>, events: seq<Event>)
    requires delays != [] && events != []
    requires var q := After(delays, events[..|events| - 1]);
             q.sched.timer.active <==> !Served(delays, events[..|events| - 1], q.calls - 1)
    ensures var p := After(delays, events); p.sched.timer.active <==> !Served(delays, events, p.calls - 1)
  {
    hide Turn, Deadline;
    var before, last := events[..|events| - 1], events[|events| - 1];
    LastArmed(delays, before);
    LastArmed(delays, events);
    var j := Calls(events) - 1;
    ServedByLast(delays, events, j);
    forall e | e < |before| ensures ServedAt(delays, events, j, e) <==> ServedAt(delays, before, j, e) {
      ServedPrefix(delays, events, j, e);
    }
    if last.Ack? {
      forall i | ServedAt(delays, before, j, i) ensures false {
        NotBeforeArmed(delays, before, j, i);
      }
    }
  }

  lemma {:induction false} FirstServedInRange(delays: seq<int>, events: seq<Event>, j: nat, i: int)
    requires delays != [] && FirstServedAt(delays, events, j, i)
    ensures 0 <= i < |events|
  {
  }

  lemma {:induction false} LogStep(delays: seq<int>, events: seq<Event>, r: Executed)
    requires delays != [] && events != []
    requires var q := After(delays, events[..|events| - 1]);
             && (r in q.log <==> Explained(delays, events[..|events| - 1], r))
             && (q.sched.timer.active <==> !Served(delays, events[..|events| - 1], q.calls - 1))
    ensures r in After(delays, events).log <==> Explained(delays, events, r)
  {
    hide Turn, Deadline, Calls, Served, ServedAt, FirstServedAt;
    var before, last := events[..|events| - 1], events[|events| - 1];
    LastArmed(delays, before);
    forall i ensures FirstServedAt(delays, events, r.instance, i) <==>
                     || FirstServedAt(delays, before, r.instance, i)
                     || (i == |before| && !Served(delays, before, r.instance)
                         && last.Step? && Calls(before) == r.instance + 1 && Deadline(delays, before) <= last.now)
    {
      FirstServedStep(delays, events, r.instance, i);
    }
    forall i | FirstServedAt(delays, before, r.instance, i) ensures 0 <= i < |before| && events[i] == before[i] {
      FirstServedInRange(delays, before, r.instance, i);
    }
  }

  /**
   Skip characterisation, for every history of steps, acknowledgements and wakeups: an
   armed instance runs if and only if some step meets its deadline before the next
   `ScheduleNextTask` call.  It then runs once, in the first such step, as the task of its
   turn, and executed instances are in the order they were armed.
   */
  lemma {:induction false} RunsIffServed(delays: seq<int>, events: seq<Event>, j: nat)
    requires delays != []
    ensures var log := After(delays, events).log;
            && ((exists r :: r in log && r.instance == j) <==> Served(delays, events, j))
            && InOrder(log, Calls(events))
            && forall r :: r in log <==> Explained(delays, events, r)
  {
    hide After, Deadline, Turn;
    Log(delays, events);
    LastArmed(delays, events);
    if Served(delays, events, j) {
      var i :| ServedAt(delays, events, j, i);
      var first := FirstExists(delays, events, j, i);
      assert Explained(delays, events, Executed(j, Turn(|delays|, j), events[first].now));
    }
  }

  /** Two `ScheduleNextTask` calls with no step between them: the first one's task never runs. */
  lemma {:induction false} BackToBackSkips(delays: seq<int>, events: seq<Event>, a: nat)
    requires delays != [] && a + 1 < |events| && events[a].Ack? && events[a + 1].Ack?
    ensures forall r :: r in After(delays, events).log ==> r.instance != Calls(events[..a])
  {
    hide After, Deadline, Turn;
    var j := Calls(events[..a]);
    RunsIffServed(delays, events, j);
    assert events[..a + 1][..a] == events[..a] && events[..a + 2][..a + 1] == events[..a + 1];
    if Served(delays, events, j) {
      var i :| ServedAt(delays, events, j, i);
      if i <= a {
        assert events[..a][..i] == events[..i];
        CallsGrow(events[..a], i);
      } else {
        assert events[..i][..a + 2] == events[..a + 2];
        CallsGrow(events[..i], a + 2);
      }
    }
  }
}
