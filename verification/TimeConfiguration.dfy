/**
 The bookkeeping behind the virtual time synchronisation: the participant's own current
 and next step, and the last next step that every other participant has announced.
 Participants are numbered.
 */
module TimeConfiguration {

  /** A NextSimTask: times and durations in nanoseconds. */
  datatype Task = Task(timePoint: int, duration: int)

  const UNKNOWN: Task := Task(-1, 0)

  datatype Conf = Conf(current: Task, next: Task, others: map<nat, Task>, hoppedOn: bool)

  /** A participant that is already known keeps its last announcement. */
  function Added(c: Conf, other: nat): Conf {
    if other in c.others then c else c.(others := c.others[other := UNKNOWN])
  }

  function Received(c: Conf, from: nat, task: Task): Conf {
    if from in c.others then c.(others := c.others[from := task]) else c
  }

  function Advanced(c: Conf): Conf {
    c.(current := c.next, next := c.next.(timePoint := c.next.timePoint + c.next.duration))
  }

  predicate OtherLower(c: Conf) {
    exists j :: j in c.others && c.others[j].timePoint < c.next.timePoint
  }

  /** The others that have already gone beyond their first step. */
  predicate Ahead(c: Conf, j: nat) {
    j in c.others && c.others[j].duration < c.others[j].timePoint
  }

  predicate HopsOn(c: Conf) {
    !c.hoppedOn && c.current.timePoint == -1 && exists j :: j in c.others && Ahead(c, j)
  }

  /** The outcome of the hop-on test; see `HopOn` for what it means on steps and periods. */
  ghost predicate HoppedOn(c: Conf, after: Conf, hopped: bool) {
    && (hopped <==> HopsOn(c))
    && (!hopped ==> after == c)
    && (hopped ==>
          && after == c.(hoppedOn := true, next := c.next.(timePoint := after.next.timePoint))
          && (exists j :: j in c.others && Ahead(c, j) && c.others[j].timePoint == after.next.timePoint)
          && (forall j :: j in c.others && Ahead(c, j) ==> after.next.timePoint <= c.others[j].timePoint))
  }

  class Configuration {
    var current: Task
    var next: Task
    var others: map<nat, Task>
    var hoppedOn: bool

    ghost function State(): Conf
      reads this
    {
      Conf(current, next, others, hoppedOn)
    }

    constructor ()
      ensures State() == Conf(UNKNOWN, Task(0, 1_000_000), map[], false)
    {
      current, next, others, hoppedOn := UNKNOWN, Task(0, 1_000_000), map[], false;
    }

    method SetStepDuration(duration: int)
      modifies this
      ensures State() == old(State()).(next := old(next).(duration := duration))
    {
      next := next.(duration := duration);
    }

    method AddSynchronizedParticipant(other: nat)
      modifies this
      ensures State() == Added(old(State()), other)
    {
      if other in others {
        return;
      }
      others := others[other := UNKNOWN];
    }

    method OnReceiveNextSimStep(from: nat, task: Task)
      modifies this
      ensures State() == Received(old(State()), from, task)
    {
      if from !in others {
        return;
      }
      others := others[from := task];
    }

    method AdvanceTimeStep()
      modifies this
      ensures State() == Advanced(old(State()))
    {
      current := next;
      next := next.(timePoint := current.timePoint + current.duration);
    }

    method OtherParticipantHasLowerTimepoint() returns (lower: bool)
      ensures lower <==> OtherLower(State())
    {
      var rest := others.Keys;
      while rest != {}
        invariant rest <= others.Keys
        invariant forall j :: j in others && j !in rest ==> next.timePoint <= others[j].timePoint
        decreases |rest|
      {
        var j :| j in rest;
        if next.timePoint > others[j].timePoint {
          return true;
        }
        rest := rest - {j};
      }
      lower := false;
    }

    /** On a hop-on the participant starts at the least time point of those ahead of it. */
    method HandleHopOn() returns (hopped: bool)
      modifies this
      ensures HoppedOn(old(State()), State(), hopped)
    {
      if hoppedOn || current.timePoint != -1 {
        return false;
      }
      var minimal := -1;
      var found := false;
      ghost var least: nat := 0;
      var rest := others.Keys;
      while rest != {}
        invariant rest <= others.Keys
        invariant found <==> exists j :: j in others && j !in rest && others[j].duration < others[j].timePoint
        invariant found ==> least in others && others[least].duration < others[least].timePoint == minimal
        invariant forall j :: j in others && j !in rest && others[j].duration < others[j].timePoint
                    ==> minimal <= others[j].timePoint
        decreases |rest|
      {
        var j :| j in rest;
        if others[j].timePoint > others[j].duration {
          if !found || others[j].timePoint < minimal {
            minimal := others[j].timePoint;
            least := j;
          }
          found := true;
        }
        rest := rest - {j};
      }
      if found {
        hoppedOn := true;
        next := next.(timePoint := minimal);
        assert Ahead(old(State()), least) && others[least].timePoint == minimal;
      }
      assert found ==> exists j :: j in others && Ahead(old(State()), j);
      assert (exists j :: j in others && Ahead(old(State()), j)) ==> found;
      return found;
    }
  }
}
