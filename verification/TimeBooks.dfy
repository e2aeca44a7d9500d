/**
 The bookkeeping of `TimeConfiguration` over any sequence of calls: who is known, what is
 known of everybody, and where the own time is.
 */
module TimeBooks {
  import opened TimeConfiguration

  datatype Event = Add(other: nat) | Receive(from: nat, task: Task) | SetDuration(duration: int) | Advance

  function Handled(c: Conf, event: Event): Conf {
    match event
    case Add(other) => Added(c, other)
    case Receive(from, task) => Received(c, from, task)
    case SetDuration(duration) => c.(next := c.next.(duration := duration))
    case Advance => Advanced(c)
  }

  /** The configuration after these calls on a new one. */
  function After(events: seq<Event>): Conf {
    if events == [] then Conf(Task(-1, 0), Task(0, 1_000_000), map[], false)
    else Handled(After(events[..|events| - 1]), events[|events| - 1])
  }

  /** The last announcement of `j` since it was added; the unset time if there is none. */
  function LastHeard(events: seq<Event>, j: nat): Task {
    if events == [] then Task(-1, 0) else
    var before, last := events[..|events| - 1], events[|events| - 1];
    if last.Receive? && last.from == j && Add(j) in before then last.task else LastHeard(before, j)
  }

  /** The step duration set last. */
  function Duration(events: seq<Event>): int {
    if events == [] then 1_000_000 else
    var last := events[|events| - 1];
    if last.SetDuration? then last.duration else Duration(events[..|events| - 1])
  }

  /** The sum of the durations at all advances. */
  function Elapsed(events: seq<Event>): int {
    if events == [] then 0 else
    var before := events[..|events| - 1];
    Elapsed(before) + if events[|events| - 1].Advance? then Duration(before) else 0
  }

  /** The calls before the last advance. */
  function BeforeAdvance(events: seq<Event>): seq<Event>
    requires Advance in events
  {
    var before := events[..|events| - 1];
    assert events == before + [events[|events| - 1]];
    if events[|events| - 1].Advance? then before else BeforeAdvance(before)
  }

  lemma {:induction false} Unheard(events: seq<Event>, j: nat)
    requires Add(j) !in events
    ensures LastHeard(events, j) == Task(-1, 0)
  {
    if events != [] {
      var before := events[..|events| - 1];
      assert Add(j) in before ==> Add(j) in events;
      Unheard(before, j);
    }
  }

  lemma {:induction false} Kept(events: seq<Event>)
    ensures forall j: nat :: j in After(events).others <==> Add(j) in events
    ensures forall j: nat :: j in After(events).others ==> After(events).others[j] == LastHeard(events, j)
  {
    if events != [] {
      var before, last := events[..|events| - 1], events[|events| - 1];
      Kept(before);
      assert events == before + [last];
      forall j: nat ensures Add(j) in events <==> Add(j) in before || last == Add(j) {
      }
      forall j: nat | Add(j) !in before ensures LastHeard(before, j) == Task(-1, 0) {
        Unheard(before, j);
      }
    }
  }

  lemma {:induction false} OwnTime(events: seq<Event>)
    ensures After(events).next == Task(Elapsed(events), Duration(events))
    ensures After(events).current ==
            if Advance in events then var at := BeforeAdvance(events); Task(Elapsed(at), Duration(at)) else Task(-1, 0)
    ensures !After(events).hoppedOn
  {
    if events != [] {
      var before, last := events[..|events| - 1], events[|events| - 1];
      OwnTime(before);
      assert events == before + [last];
    }
  }

  /**
   After any calls: exactly the added participants are known, each with its last
   announcement since then and the unset time before; announcements of others are ignored;
   the next step is at the sum of the durations of the steps made, with the duration set
   last, and the current one is what was the next before the last advance.
   */
  lemma {:induction false} Books(events: seq<Event>)
    ensures var c := After(events);
            && (forall j: nat :: j in c.others <==> Add(j) in events)
            && (forall j: nat :: j in c.others ==> c.others[j] == LastHeard(events, j))
            && c.next == Task(Elapsed(events), Duration(events))
            && c.current == if Advance in events then var at := BeforeAdvance(events); Task(Elapsed(at), Duration(at))
                            else Task(-1, 0)
  {
    Kept(events);
    OwnTime(events);
    hide After, Elapsed, Duration, BeforeAdvance, LastHeard;
  }
}
