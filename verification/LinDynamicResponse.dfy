/**
 The optionally cyclic LIN schedule: acknowledgement-driven, and stopping at the end of
 its list until `SetCyclic(true)` makes it wrap around.
 */
module LinDynamicResponse {
  import opened Arith
  import opened LinTimer
  import opened Wrappers
  import opened LinDemo
  import D = LinDemoDynamic

  datatype Optional = Optional(sched: Sched, cyclic: bool, log: seq<Execution>)

  function ScheduleNextOptional(delays: seq<int>, s: Sched, cyclic: bool): (next: Sched)
    requires s.nextTask <= |delays|
    ensures next.nextTask <= |delays|
  {
    if s.nextTask == |delays| then s else
    var current := s.nextTask;
    s.(nextTask := if cyclic && current + 1 == |delays| then 0 else current + 1,
       timer := Armed(s.now + delays[current], current))
  }

  class Schedule {
    const tasks: seq<int>
    const timer: Timer
    var nextTask: nat
    var now: int
    var isCyclic: bool

    ghost predicate Valid()
      reads this, timer
    {
      nextTask <= |tasks| && Proper(timer.State())
    }

    ghost function State(): Sched
      reads this, timer
    {
      Sched(timer.State(), nextTask, now)
    }

    /** The list may be empty here: `ScheduleNextTask` looks before it moves on. */
    constructor (tasks: seq<int>)
      ensures Valid() && fresh(timer) && this.tasks == tasks && !isCyclic
      ensures State() == ScheduleNextOptional(tasks, Sched(Cleared(), 0, 0), false)
    {
      this.tasks := tasks;
      timer := new Timer();
      nextTask := 0;
      now := 0;
      isCyclic := false;
      new;
      ScheduleNextTask();
    }

    method SetCyclic(enabled: bool)
      requires Valid()
      modifies this`isCyclic
      ensures Valid() && isCyclic == enabled && State() == old(State())
    {
      isCyclic := enabled;
    }

    method ScheduleNextTask()
      requires Valid()
      modifies this, timer
      ensures Valid() && isCyclic == old(isCyclic)
      ensures State() == ScheduleNextOptional(tasks, old(State()), isCyclic)
    {
      if nextTask == |tasks| {
        return;
      }
      var current := nextTask;
      nextTask := nextTask + 1;
      if isCyclic && nextTask == |tasks| {
        nextTask := 0;
      }
      timer.Set(now + tasks[current], current);
    }

    method ExecuteTask(now: int) returns (ran: Option<nat>)
      requires Valid()
      modifies this, timer
      ensures Valid() && isCyclic == old(isCyclic) && State() == D.Stepped(old(State()), now)
      ensures ran == if Due(old(timer.State()), now) then old(timer.State()).action else None
    {
      this.now := now;
      ran := timer.ExecuteAction(now);
    }
  }

  // ----- histories -----

  function Apply(delays: seq<int>, o: Optional, event: D.Event): (next: Optional)
    requires o.sched.nextTask <= |delays| && Proper(o.sched.timer)
    ensures next.sched.nextTask <= |delays| && Proper(next.sched.timer)
  {
    match event
    case Ack => o.(sched := ScheduleNextOptional(delays, o.sched, o.cyclic))
    case Step(now) =>
      var log := if Due(o.sched.timer, now) then o.log + [Execution(now, o.sched.timer.action.value)] else o.log;
      o.(sched := D.Stepped(o.sched, now), log := log)
  }

  /** The schedule after `events`, none of which switches the mode. */
  function AfterFrom(delays: seq<int>, o: Optional, events: seq<D.Event>): (after: Optional)
    requires o.sched.nextTask <= |delays| && Proper(o.sched.timer)
    ensures after.sched.nextTask <= |delays| && Proper(after.sched.timer)
  {
    if events == [] then o else Apply(delays, AfterFrom(delays, o, events[..|events| - 1]), events[|events| - 1])
  }

  function Start(delays: seq<int>): (o: Optional)
    ensures o.sched.nextTask <= |delays| && Proper(o.sched.timer)
  {
    Optional(ScheduleNextOptional(delays, Sched(Cleared(), 0, 0), false), false, [])
  }

  /**
   Not cyclic: tasks run in list order and each at most once, and the index stops at the
   end of the list.
   */
  lemma {:induction false} OneRound(delays: seq<int>, events: seq<D.Event>)
    ensures var o := AfterFrom(delays, Start(delays), events);
            && !o.cyclic
            && o.sched.nextTask == Min(D.Calls(events), |delays|)
            && (forall a, b :: 0 <= a < b < |o.log| ==> o.log[a].task < o.log[b].task)
            && (forall a :: 0 <= a < |o.log| ==> o.log[a].task < o.sched.nextTask)
            && (o.sched.timer.active ==>
                  && o.sched.timer.action.value == o.sched.nextTask - 1
                  && forall a :: 0 <= a < |o.log| ==> o.log[a].task < o.sched.nextTask - 1)
  {
    if events != [] {
      OneRound(delays, events[..|events| - 1]);
    }
  }

  datatype Move = SetTo(flag: bool) | Do(event: D.Event)

  function AfterMoves(delays: seq<int>, o: Optional, moves: seq<Move>): (after: Optional)
    requires o.sched.nextTask <= |delays| && Proper(o.sched.timer)
    ensures after.sched.nextTask <= |delays| && Proper(after.sched.timer)
  {
    if moves == [] then o else
    var before := AfterMoves(delays, o, moves[..|moves| - 1]);
    match moves[|moves| - 1]
    case SetTo(flag) => before.(cyclic := flag)
    case Do(event) => Apply(delays, before, event)
  }

  /**
   Once the index is at the end, `SetCyclic` comes too late, however often: nothing is armed
   again, and the only task that can still run is the one that is armed.
   */
  lemma {:induction false} TooLate(delays: seq<int>, o: Optional, moves: seq<Move>)
    requires o.sched.nextTask == |delays| && Proper(o.sched.timer)
    ensures var after := AfterMoves(delays, o, moves);
            && after.sched.nextTask == |delays|
            && (|| (after.sched.timer == o.sched.timer && after.log == o.log)
                || (&& after.sched.timer == Cleared() && o.sched.timer.active
                    && |after.log| == |o.log| + 1 && after.log[..|o.log|] == o.log
                    && after.log[|o.log|].task == o.sched.timer.action.value
                    && after.log[|o.log|].time >= o.sched.timer.timeOut))
  {
    if moves != [] {
      TooLate(delays, o, moves[..|moves| - 1]);
    }
  }

  predicate SameLog(log: seq<Execution>, reference: seq<D.Executed>) {
    |log| == |reference|
    && forall a :: 0 <= a < |log| ==> log[a] == Execution(reference[a].time, reference[a].task)
  }

  lemma {:induction false} SameBeforeEnd(delays: seq<int>, events: seq<D.Event>)
    requires D.Calls(events) < |delays|
    ensures var o, p := AfterFrom(delays, Start(delays), events), D.After(delays, events);
            o.sched == p.sched && SameLog(o.log, p.log) && o.sched.nextTask < |delays|
  {
    hide Turn;
    if events != [] {
      SameBeforeEnd(delays, events[..|events| - 1]);
      OneRound(delays, events);
    }
  }

  lemma {:induction false} SameWhenCyclic(delays: seq<int>, first: seq<D.Event>, second: seq<D.Event>)
    requires D.Calls(first) < |delays|
    ensures var o := AfterFrom(delays, AfterFrom(delays, Start(delays), first).(cyclic := true), second);
            var p := D.After(delays, first + second);
            o.cyclic && o.sched == p.sched && SameLog(o.log, p.log)
  {
    if second == [] {
      assert first + second == first;
      SameBeforeEnd(delays, first);
    } else {
      var before := second[..|second| - 1];
      SameWhenCyclic(delays, first, before);
      assert (first + second)[..|first + second| - 1] == first + before;
    }
  }

  /** After the history `first`, `SetCyclic(true)` and the history `second`, both variants have run the same tasks. */
  ghost predicate SameRuns(delays: seq<int>, first: seq<D.Event>, second: seq<D.Event>)
    requires delays != []
  {
    SameLog(AfterFrom(delays, AfterFrom(delays, Start(delays), first).(cyclic := true), second).log,
            D.After(delays, first + second).log)
  }

  /** One more event for both variants. */
  lemma {:induction false} OneMore(delays: seq<int>, o: Optional, first: seq<D.Event>, second: seq<D.Event>,
                                   event: D.Event)
    requires delays != [] && o.sched.nextTask <= |delays| && Proper(o.sched.timer)
    ensures AfterFrom(delays, o, second + [event]) == Apply(delays, AfterFrom(delays, o, second), event)
    ensures D.After(delays, first + (second + [event])) == D.After(delays, (first + second) + [event])
    ensures ((first + second) + [event])[..|first + second|] == first + second
  {
    assert (second + [event])[..|second|] == second;
    assert first + (second + [event]) == (first + second) + [event];
  }

  lemma {:induction false} StepSettles(delays: seq<int>, o: Optional, events: seq<D.Event>, now: int)
    requires delays != [] && o.sched.nextTask <= |delays| && Proper(o.sched.timer)
    requires now >= o.sched.timer.timeOut || !o.sched.timer.active
    requires now >= D.After(delays, events).sched.timer.timeOut || !D.After(delays, events).sched.timer.active
    ensures !Apply(delays, o, D.Step(now)).sched.timer.active
    ensures !D.After(delays, events + [D.Step(now)]).sched.timer.active
  {
    assert (events + [D.Step(now)])[..|events|] == events;
  }

  /**
   With the index at the end: let everything that is armed run, acknowledge once, and let a
   step pass.  Only the always-cyclic schedule runs another task.
   */
  lemma {:induction false} Differs(delays: seq<int>, first: seq<D.Event>) returns (second: seq<D.Event>)
    requires delays != [] && D.Calls(first) >= |delays|
    ensures !SameRuns(delays, first, second)
  {
    OneRound(delays, first);
    var o := AfterFrom(delays, Start(delays), first).(cyclic := true);
    assert first + [] == first;
    var p := D.After(delays, first);
    second := [];
    if |o.log| == |p.log| {
      var late := Latest(o.sched.timer, p.sched.timer);
      OneMore(delays, o, first, [], D.Step(late));
      StepSettles(delays, o, first, late);
      var o1, p1 := Apply(delays, o, D.Step(late)), D.After(delays, first + [D.Step(late)]);
      second := [] + [D.Step(late)];
      if |o1.log| == |p1.log| {
        OneMore(delays, o, first, second, D.Ack);
        second := second + [D.Ack];
        var p2 := D.After(delays, first + second);
        OneMore(delays, o, first, second, D.Step(p2.sched.timer.timeOut));
        second := second + [D.Step(p2.sched.timer.timeOut)];
        assert |D.After(delays, first + second).log| == |p1.log| + 1;
        assert |AfterFrom(delays, o, second).log| == |o1.log|;
      }
    }
  }

  function Latest(a: TimerState, b: TimerState): int { if a.timeOut < b.timeOut then b.timeOut else a.timeOut }

  /**
   Variant equivalence: with `SetCyclic(true)` after the history `first`, the optional
   schedule runs the same tasks at the same times as the always-cyclic one, whatever
   follows, if and only if fewer calls than tasks had been made, so that the index was not
   yet at the end; then their states are equal, too.
   */
  lemma {:induction false} CyclicEquivalence(delays: seq<int>, first: seq<D.Event>)
    requires delays != []
    ensures (forall second :: SameRuns(delays, first, second)) <==> D.Calls(first) < |delays|
    ensures D.Calls(first) < |delays| ==> forall second ::
              AfterFrom(delays, AfterFrom(delays, Start(delays), first).(cyclic := true), second).sched
              == D.After(delays, first + second).sched
  {
    if D.Calls(first) < |delays| {
      forall second
        ensures SameRuns(delays, first, second)
        ensures AfterFrom(delays, AfterFrom(delays, Start(delays), first).(cyclic := true), second).sched
                == D.After(delays, first + second).sched
      {
        SameWhenCyclic(delays, first, second);
      }
    } else {
      var second := Differs(delays, first);
    }
  }
}
