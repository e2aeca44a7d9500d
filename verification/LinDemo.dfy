/**
 The self-advancing LIN schedule: a task that has run arms the next one, round robin.
 */
module LinDemo {
  import opened Arith
  import opened LinTimer
  import opened Wrappers

  datatype Sched = Sched(timer: TimerState, nextTask: nat, now: int)

  datatype Execution = Execution(time: int, task: nat)

  function ScheduleNext(delays: seq<int>, s: Sched): Sched
    requires s.nextTask < |delays|
  {
    var current := s.nextTask;
    s.(nextTask := if current + 1 == |delays| then 0 else current + 1,
       timer := Armed(s.now + delays[current], current))
  }

  function Reset(delays: seq<int>): (s: Sched)
    requires delays != []
    ensures s.nextTask < |delays| && Proper(s.timer)
  {
    ScheduleNext(delays, Sched(Cleared(), 0, 0))
  }

  function Executed(delays: seq<int>, s: Sched, now: int): (next: Sched)
    requires s.nextTask < |delays| && Proper(s.timer)
    ensures next.nextTask < |delays| && Proper(next.timer)
  {
    var t := s.(now := now);
    if Due(s.timer, now) then ScheduleNext(delays, t.(timer := Cleared())) else t
  }

  class Schedule {
    const tasks: seq<int>
    const timer: Timer
    var nextTask: nat
    var now: int

    ghost predicate Valid()
      reads this, timer
    {
      nextTask < |tasks| && Proper(timer.State())
    }

    ghost function State(): Sched
      reads this, timer
    {
      Sched(timer.State(), nextTask, now)
    }

    constructor (tasks: seq<int>)
      requires tasks != []
      ensures Valid() && fresh(timer) && this.tasks == tasks
      ensures State() == Reset(tasks)
    {
      this.tasks := tasks;
      timer := new Timer();
      nextTask := 0;
      now := 0;
      new;
      ScheduleNextTask();
    }

    method ScheduleNextTask()
      requires Valid()
      modifies this, timer
      ensures Valid() && State() == ScheduleNext(tasks, old(State()))
    {
      var current := nextTask;
      nextTask := nextTask + 1;
      if nextTask == |tasks| {
        nextTask := 0;
      }
      timer.Set(now + tasks[current], current);
    }

    /** `ran` is the task that was executed, if one was due. */
    method ExecuteTask(now: int) returns (ran: Option<nat>)
      requires Valid()
      modifies this, timer
      ensures Valid() && State() == Executed(tasks, old(State()), now)
      ensures ran == if Due(old(timer.State()), now) then old(timer.State()).action else None
    {
      this.now := now;
      ran := timer.ExecuteAction(now);
      if ran.Some? {
        ScheduleNextTask();
      }
    }
  }

  // ----- runs -----

  /** The task of the `k`-th turn of `n` tasks. */
  function Turn(n: nat, k: nat): (task: nat)
    requires n > 0
    ensures task < n
  {
    k % n
  }

  lemma {:induction false} NextTurn(n: nat, k: nat)
    requires n > 0
    ensures Turn(n, 0) == 0 && Turn(n, k + 1) == if Turn(n, k) + 1 == n then 0 else Turn(n, k) + 1
  {
    NextIndex(k, n);
  }

  /** The schedule and its executions after a step handler was called at each of `times`. */
  function After(delays: seq<int>, times: seq<int>): (r: (Sched, seq<Execution>))
    requires delays != []
    ensures r.0.nextTask < |delays| && Proper(r.0.timer)
  {
    if times == [] then (Reset(delays), []) else
    var (s, log) := After(delays, times[..|times| - 1]);
    var now := times[|times| - 1];
    (Executed(delays, s, now), if Due(s.timer, now) then log + [Execution(now, s.timer.action.value)] else log)
  }

  function CyclicSum(delays: seq<int>, count: nat): int
    requires delays != []
  {
    if count == 0 then 0 else CyclicSum(delays, count - 1) + delays[Turn(|delays|, count - 1)]
  }

  function LastTime(log: seq<Execution>): int {
    if log == [] then 0 else log[|log| - 1].time
  }

  /** Between two executions the timer waits for the next task, counted from the last one. */
  lemma {:induction false} Waiting(delays: seq<int>, times: seq<int>)
    requires delays != []
    ensures var (s, log) := After(delays, times);
            && s.timer == Armed(LastTime(log) + delays[Turn(|delays|, |log|)], Turn(|delays|, |log|))
            && s.nextTask == Turn(|delays|, |log| + 1)
            && s.now == if times == [] then 0 else times[|times| - 1]
  {
    hide Turn;
    if times == [] {
      NextTurn(|delays|, 0);
    } else {
      var before := times[..|times| - 1];
      Waiting(delays, before);
      NextTurn(|delays|, |After(delays, before).1| + 1);
    }
  }

  /**
   For any step times whatever: tasks run in cyclic order, and the `k`-th execution is
   never earlier than the sum of the first `k + 1` cyclic delays.
   */
  lemma {:induction false} NeverEarly(delays: seq<int>, times: seq<int>, k: nat)
    requires delays != [] && k < |After(delays, times).1|
    ensures var e := After(delays, times).1[k]; e.task == Turn(|delays|, k) && e.time >= CyclicSum(delays, k + 1)
  {
    hide Turn;
    var before := times[..|times| - 1];
    var (s, log) := After(delays, before);
    if k < |log| {
      NeverEarly(delays, before, k);
    } else {
      Waiting(delays, before);
      if k > 0 {
        NeverEarly(delays, before, k - 1);
      }
    }
  }

  // ----- step times 0, h, 2h, ... -----

  function Max(a: int, b: int): int { if a < b then b else a }

  /** The number of the step in which the `k`-th execution takes place. */
  function Tick(delays: seq<int>, h: int, k: nat): int
    requires delays != [] && h > 0
  {
    if k == 0 then Max(0, Ceil(delays[0], h)) else Tick(delays, h, k - 1) + Max(1, Ceil(delays[Turn(|delays|, k)], h))
  }

  function Steps(h: int, m: nat): (times: seq<int>)
    ensures |times| == m
  {
    if m == 0 then [] else Steps(h, m - 1) + [At(h, m - 1)]
  }

  function Planned(delays: seq<int>, h: int, k: nat): Execution
    requires delays != [] && h > 0
  {
    Execution(At(h, Tick(delays, h, k)), Turn(|delays|, k))
  }

  ghost predicate AsPlanned(delays: seq<int>, h: int, m: nat, log: seq<Execution>)
    requires delays != [] && h > 0
  {
    && (forall k :: 0 <= k < |log| ==> log[k] == Planned(delays, h, k))
    && (|log| > 0 ==> Tick(delays, h, |log| - 1) < m)
    && m <= Tick(delays, h, |log|)
  }

  lemma {:induction false} NothingPlanned(delays: seq<int>, h: int)
    requires delays != [] && h > 0
    ensures After(delays, []).1 == [] && AsPlanned(delays, h, 0, [])
  {
    hide Ceil, At, Turn;
  }

  lemma {:induction false} AfterStep(delays: seq<int>, times: seq<int>, now: int)
    requires delays != []
    ensures var (s, log) := After(delays, times);
            After(delays, times + [now]).1 ==
            if Due(s.timer, now) then log + [Execution(now, s.timer.action.value)] else log
  {
    assert (times + [now])[..|times|] == times;
    hide Due, Executed;
  }

  /** The executions of the first `m` periodic steps are those whose tick is below `m`. */
  lemma {:induction false} Periodic(delays: seq<int>, h: int, m: nat)
    requires delays != [] && h > 0
    ensures AsPlanned(delays, h, m, After(delays, Steps(h, m)).1)
  {
    hide Ceil, At, Turn, Due, AsPlanned, After;
    if m == 0 {
      NothingPlanned(delays, h);
    } else {
      var before := Steps(h, m - 1);
      AfterStep(delays, before, At(h, m - 1));
      Periodic(delays, h, m - 1);
      Waiting(delays, before);
      PlannedStep(delays, h, m - 1, After(delays, before).0, After(delays, before).1);
    }
  }

  /** The waiting task is due in step `m`, the earliest it can be, exactly at its tick. */
  lemma {:induction false} DueAtTick(delays: seq<int>, h: int, m: nat, log: seq<Execution>)
    requires delays != [] && h > 0 && AsPlanned(delays, h, m, log)
    ensures LastTime(log) + delays[Turn(|delays|, |log|)] <= At(h, m) <==> Tick(delays, h, |log|) == m
  {
    hide At, Ceil, Turn;
    NextTurn(|delays|, 0);
    AtNext(h, 0);
    var c := |log|;
    if c > 0 {
      assert log[c - 1] == Planned(delays, h, c - 1);
    }
    hide AsPlanned, Planned;
    DueTick(delays[Turn(|delays|, c)], h, if c == 0 then 0 else Tick(delays, h, c - 1), m);
  }

  lemma {:induction false} PlannedStep(delays: seq<int>, h: int, m: nat, s: Sched, log: seq<Execution>)
    requires delays != [] && h > 0 && AsPlanned(delays, h, m, log)
    requires s.timer == Armed(LastTime(log) + delays[Turn(|delays|, |log|)], Turn(|delays|, |log|))
    ensures AsPlanned(delays, h, m + 1,
                      if Due(s.timer, At(h, m)) then log + [Execution(At(h, m), Turn(|delays|, |log|))] else log)
  {
    DueAtTick(delays, h, m, log);
    TicksIncrease(delays, h, |log|, |log| + 1);
    hide At, Tick, Turn;
    if Due(s.timer, At(h, m)) {
      var after := log + [Planned(delays, h, |log|)];
      assert forall k :: 0 <= k < |log| ==> after[k] == log[k];
      assert AsPlanned(delays, h, m + 1, after);
    } else {
      assert AsPlanned(delays, h, m + 1, log);
    }
  }

  lemma {:induction false} DueTick(d: int, h: int, base: int, m: int)
    requires h > 0
    ensures At(h, base) + d <= At(h, m) <==> base + Ceil(d, h) <= m
  {
    CeilIsLeast(d, h, m - base);
    Distribute(m, base, h);
  }

  lemma {:induction false} TicksIncrease(delays: seq<int>, h: int, i: nat, j: nat)
    requires delays != [] && h > 0 && i < j
    ensures Tick(delays, h, i) < Tick(delays, h, j)
  {
    if i < j - 1 {
      TicksIncrease(delays, h, i, j - 1);
    }
  }

  /**
   Closed form: the `k`-th execution happens among the first `m` steps exactly when its
   tick is below `m`, at that tick's time, and it runs task `k` modulo the task count.
   */
  lemma {:induction false} ExecutionTimes(delays: seq<int>, h: int, m: nat, k: nat)
    requires delays != [] && h > 0
    ensures var log := After(delays, Steps(h, m)).1;
            && (k < |log| <==> Tick(delays, h, k) < m)
            && (k < |log| ==> log[k] == Planned(delays, h, k))
  {
    Periodic(delays, h, m);
    var c := |After(delays, Steps(h, m)).1|;
    if k < c - 1 {
      TicksIncrease(delays, h, k, c - 1);
    } else if c < k {
      TicksIncrease(delays, h, c, k);
    }
  }

  lemma {:induction false} ExactCeil(d: int, h: int)
    requires h > 0 && d > 0 && d % h == 0
    ensures Ceil(d, h) >= 1 && At(h, Ceil(d, h)) == d
  {
    var q := d / h;
    CeilIsLeast(d, h, q);
    CeilIsLeast(d, h, q - 1);
    Distribute(q, 1, h);
    Monotone(q, 0, h);
  }

  /** When every delay is a positive multiple of the step, the lower bound is the exact time. */
  lemma {:induction false} ExactTimes(delays: seq<int>, h: int, k: nat)
    requires delays != [] && h > 0
    requires forall i :: 0 <= i < |delays| ==> delays[i] > 0 && delays[i] % h == 0
    ensures At(h, Tick(delays, h, k)) == CyclicSum(delays, k + 1)
  {
    hide Turn, Ceil, At;
    NextTurn(|delays|, 0);
    var d := delays[Turn(|delays|, k)];
    ExactCeil(d, h);
    if k == 0 {
      assert CyclicSum(delays, 0) == 0;
      AtDistributes(h, 0, Ceil(d, h));
    } else {
      ExactTimes(delays, h, k - 1);
      AtDistributes(h, Tick(delays, h, k - 1), Ceil(d, h));
    }
  }
}
