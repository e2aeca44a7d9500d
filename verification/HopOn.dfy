/**
 A participant that joins a running simulation: when it hops on, at which time its first
 step is, and where that is among the steps of the others.

 The network is that of `TimeSync`.  Once a running participant has discovered the late
 one it repeats its announcement, and takes no further step before the late one has
 announced its own; what the late one knows of each is therefore the announcement of some
 state of the run, and of the last one once everybody has been heard.
 */
module HopOn {
  import opened Arith
  import opened TimeConfiguration
  import opened Periods
  import opened TimeSync

  /** What the late participant knows of another one: the announcement after `steps` steps, if any. */
  datatype Peer = Silent | Announced(steps: nat, period: int)

  function TaskOf(peer: Peer): Task {
    match peer
    case Silent => Task(-1, 0)
    case Announced(steps, period) => Task(steps * period, period)
  }

  /** Nothing has been executed, and the announcements of `peers` have been received. */
  ghost predicate Joining(c: Conf, peers: map<nat, Peer>) {
    && !c.hoppedOn && c.current.timePoint == -1
    && c.others.Keys == peers.Keys
    && forall j :: j in peers ==> c.others[j] == TaskOf(peers[j]) && (peers[j].Announced? ==> peers[j].period > 0)
  }

  /** It has made at least two steps. */
  predicate Running(peers: map<nat, Peer>, j: nat) {
    j in peers && peers[j].Announced? && peers[j].steps >= 2
  }

  lemma {:induction false} BeyondIff(steps: nat, p: int)
    requires p > 0
    ensures p < steps * p <==> steps >= 2
  {
    Monotone(steps, 1, p);
  }

  lemma {:induction false} AheadIff(c: Conf, peers: map<nat, Peer>, j: nat)
    requires Joining(c, peers) && j in peers
    ensures Ahead(c, j) <==> Running(peers, j)
    ensures Running(peers, j) ==> c.others[j].timePoint == peers[j].steps * peers[j].period
  {
    if peers[j].Announced? { BeyondIff(peers[j].steps, peers[j].period); }
  }

  /**
   A participant that has not made a step hops on if and only if one of the others has
   announced a step after its second; it then starts at the least time that any of these
   has announced, and otherwise keeps its own.
   */
  lemma {:induction false} LateStart(c: Conf, peers: map<nat, Peer>, after: Conf, hopped: bool)
    requires Joining(c, peers) && HoppedOn(c, after, hopped)
    ensures hopped <==> exists j :: Running(peers, j)
    ensures hopped ==> exists j :: Running(peers, j) && after.next.timePoint == peers[j].steps * peers[j].period
    ensures hopped ==> forall j :: Running(peers, j) ==> after.next.timePoint <= peers[j].steps * peers[j].period
    ensures after == c.(hoppedOn := hopped, next := c.next.(timePoint := after.next.timePoint))
    ensures !hopped ==> after.next.timePoint == c.next.timePoint
  {
    forall j | j in peers
      ensures Ahead(c, j) <==> Running(peers, j)
      ensures Running(peers, j) ==> c.others[j].timePoint == peers[j].steps * peers[j].period
    {
      AheadIff(c, peers, j);
    }
    hide Ahead, Running;
    assert forall j :: Running(peers, j) ==> j in peers by { NoOthers(peers); }
    if hopped {
      var j :| j in c.others && Ahead(c, j) && c.others[j].timePoint == after.next.timePoint;
      assert Running(peers, j);
    }
    if j :| Running(peers, j) { assert j in c.others && Ahead(c, j); }
  }

  lemma {:induction false} NoOthers(peers: map<nat, Peer>)
    ensures forall j :: Running(peers, j) ==> j in peers
  {
  }

  /** Neither a second hop-on nor one after the first step. */
  lemma {:induction false} HopsOnOnce(c: Conf, after: Conf, hopped: bool)
    requires HoppedOn(c, after, hopped) && (c.hoppedOn || c.current.timePoint != -1)
    ensures !hopped && after == c
  {
  }

  /** The first step of an autonomous participant: the hop-on test, and then the advance. */
  method FirstStep(conf: Configuration, ghost peers: map<nat, Peer>) returns (hopped: bool)
    requires Joining(conf.State(), peers)
    modifies conf
    ensures hopped <==> exists j :: Running(peers, j)
    ensures hopped ==> exists j :: Running(peers, j) && conf.current.timePoint == peers[j].steps * peers[j].period
    ensures hopped ==> forall j :: Running(peers, j) ==> conf.current.timePoint <= peers[j].steps * peers[j].period
    ensures !hopped ==> conf.current == old(conf.next)
    ensures conf.next.timePoint == conf.current.timePoint + conf.current.duration
    ensures conf.current.duration == conf.next.duration == old(conf.next.duration)
  {
    ghost var was := conf.State();
    hopped := conf.HandleHopOn();
    LateStart(was, peers, conf.State(), hopped);
    hide Running, HoppedOn, Joining;
    conf.AdvanceTimeStep();
  }

  // ----- in the network -----

  /** What participant `i` has announced last. */
  function LastAnnounced(part: Part): Task { if part.started then part.conf.next else UNKNOWN }

  ghost predicate Heard(g: Config, run: seq<Step>, heard: seq<nat>)
    requires Proper(g)
  {
    |heard| == |g.periods| && forall i :: 0 <= i < |heard| ==> heard[i] <= |run|
  }

  /** The state in which participant `i` was heard last. */
  ghost function HeardOf(g: Config, run: seq<Step>, heard: seq<nat>, i: nat): Part
    requires Proper(g) && Heard(g, run, heard) && i < |heard|
  {
    Run(g, run[..heard[i]]).parts[i]
  }

  /** A late participant that has heard participant `i` last after `heard[i]` events. */
  ghost predicate Late(g: Config, run: seq<Step>, heard: seq<nat>, c: Conf)
    requires Proper(g) && Heard(g, run, heard)
  {
    && !c.hoppedOn && c.current.timePoint == -1 && c.next.timePoint == 0
    && (forall i: nat :: i in c.others <==> i < |heard|)
    && forall i: nat :: i < |heard| ==> c.others[i] == LastAnnounced(HeardOf(g, run, heard, i))
  }

  function PeerOf(part: Part, p: int): Peer { if part.started then Announced(part.steps, p) else Silent }

  ghost function Peers(g: Config, run: seq<Step>, heard: seq<nat>): map<nat, Peer>
    requires Proper(g) && Heard(g, run, heard)
  {
    map i: nat | 0 <= i < |heard| :: PeerOf(HeardOf(g, run, heard, i), g.periods[i])
  }

  /** The announcements of a run are those of so many steps. */
  lemma {:induction false} AnnouncementIs(g: Config, run: seq<Step>, i: nat)
    requires Proper(g) && i < |g.periods|
    ensures var part := Run(g, run).parts[i];
            && TaskOf(PeerOf(part, g.periods[i])) == LastAnnounced(part)
            && (part.steps > 0 ==> part.started)
  {
    hide Run;
    Reachable(g, run);
    assert PartOk(g, Run(g, run), i);
  }

  lemma {:induction false} LateIsJoining(g: Config, run: seq<Step>, heard: seq<nat>, c: Conf)
    requires Proper(g) && Heard(g, run, heard) && Late(g, run, heard, c)
    ensures Joining(c, Peers(g, run, heard))
    ensures forall i: nat :: Running(Peers(g, run, heard), i) <==> i < |heard| && HeardOf(g, run, heard, i).steps >= 2
  {
    hide Run, TaskOf;
    var peers := Peers(g, run, heard);
    forall i: nat | i < |heard|
      ensures TaskOf(peers[i]) == c.others[i] && (HeardOf(g, run, heard, i).steps >= 2 ==> peers[i].Announced?)
    {
      AnnouncementIs(g, run[..heard[i]], i);
    }
    assert forall i: nat :: i in c.others <==> i in peers;
    assert c.others.Keys == peers.Keys;
  }

  /**
   In every run, whatever has been heard of it: the late participant hops on exactly if it
   has heard of a participant's second step, and then starts at the least next time of
   those; else at 0.
   */
  lemma {:induction false} LateInNetwork(g: Config, run: seq<Step>, heard: seq<nat>, c: Conf, after: Conf, hopped: bool)
    requires Proper(g) && Heard(g, run, heard) && Late(g, run, heard, c) && HoppedOn(c, after, hopped)
    ensures hopped <==> exists i: nat :: i < |heard| && HeardOf(g, run, heard, i).steps >= 2
    ensures hopped ==> exists i: nat :: i < |heard| && HeardOf(g, run, heard, i).steps >= 2
                         && after.next.timePoint == At(g.periods[i], HeardOf(g, run, heard, i).steps)
    ensures hopped ==> forall i: nat :: i < |heard| && HeardOf(g, run, heard, i).steps >= 2
                         ==> after.next.timePoint <= At(g.periods[i], HeardOf(g, run, heard, i).steps)
    ensures !hopped ==> after.next.timePoint == 0
  {
    LateIsJoining(g, run, heard, c);
    var peers := Peers(g, run, heard);
    LateStart(c, peers, after, hopped);
    forall i: nat | Running(peers, i)
      ensures peers[i].steps * peers[i].period == At(g.periods[i], HeardOf(g, run, heard, i).steps)
    {
    }
    hide HeardOf, Late, HoppedOn, At, Joining, Running;
    if hopped {
      var i: nat :| Running(peers, i) && after.next.timePoint == peers[i].steps * peers[i].period;
      assert i < |heard| && HeardOf(g, run, heard, i).steps >= 2;
    }
  }

  // ----- when everybody has been heard -----

  /** The late participant knows the last announcement of everyone. */
  ghost predicate UpToDate(g: Config, run: seq<Step>, c: Conf)
    requires Proper(g)
  {
    && !c.hoppedOn && c.current.timePoint == -1 && c.next.timePoint == 0
    && (forall i: nat :: i in c.others <==> i < |g.periods|)
    && forall i: nat :: i < |g.periods| ==> c.others[i] == LastAnnounced(Run(g, run).parts[i])
  }

  lemma {:induction false} UpToDateIsLate(g: Config, run: seq<Step>, c: Conf, heard: seq<nat>)
    requires Proper(g) && UpToDate(g, run, c) && heard == seq(|g.periods|, _ => |run|)
    ensures Heard(g, run, heard) && Late(g, run, heard, c)
    ensures forall i: nat :: i < |heard| ==> HeardOf(g, run, heard, i) == Run(g, run).parts[i]
  {
    assert run[..|run|] == run;
    hide Run;
  }

  /** No participant has announced a step beyond the time of another's next one. */
  lemma {:induction false} CurrentBelowNext(g: Config, run: seq<Step>, i: nat, j: nat)
    requires Proper(g) && i < |g.periods| && j < |g.periods|
    requires Run(g, run).parts[i].steps > 0
    ensures At(g.periods[i], Run(g, run).parts[i].steps - 1) <= At(g.periods[j], Run(g, run).parts[j].steps)
    ensures Run(g, run).parts[j].started
  {
    hide Run, At;
    Reachable(g, run);
    var net := Run(g, run);
    assert PartOk(g, net, i) && PartOk(g, net, j);
    AtNext(g.periods[i], net.parts[i].steps - 1);
    AtNext(g.periods[i], 0);
    AtMonotone(g.periods[i], 0, net.parts[i].steps - 1);
    if i != j {
      assert PairOk(g, net, j, i);
      KnownBound(g, net, j, i);
    }
  }

  /** The late participant's first step is never before a step that somebody has already made. */
  lemma {:induction false} NeverInThePast(g: Config, run: seq<Step>, c: Conf, after: Conf, hopped: bool, i: nat)
    requires Proper(g) && UpToDate(g, run, c) && HoppedOn(c, after, hopped)
    requires i < |g.periods| && Run(g, run).parts[i].steps > 0
    ensures At(g.periods[i], Run(g, run).parts[i].steps - 1) <= after.next.timePoint
  {
    hide Run, At, UpToDate, HoppedOn;
    var heard := seq(|g.periods|, _ => |run|);
    UpToDateIsLate(g, run, c, heard);
    LateInNetwork(g, run, heard, c, after, hopped);
    hide Late, HeardOf;
    var net := Run(g, run);
    if hopped {
      var j: nat :| j < |heard| && HeardOf(g, run, heard, j).steps >= 2
                    && after.next.timePoint == At(g.periods[j], HeardOf(g, run, heard, j).steps);
      CurrentBelowNext(g, run, i, j);
    } else {
      assert HeardOf(g, run, heard, i) == net.parts[i];
      assert net.parts[i].steps == 1;
      AtNext(g.periods[i], 0);
    }
  }

  /** Some participant is still to make a step before the late one's first. */
  ghost predicate Overtaken(g: Config, run: seq<Step>, start: int, i: nat)
    requires Proper(g)
  {
    i < |g.periods| && At(g.periods[i], Run(g, run).parts[i].steps) < start
  }

  /**
   It may be after a step that somebody is still to make: exactly if some participant has
   made one step only, and its period is less than the time at which the late one starts.
   */
  lemma {:induction false} OvertakesIff(g: Config, run: seq<Step>, c: Conf, after: Conf, hopped: bool)
    requires Proper(g) && UpToDate(g, run, c) && HoppedOn(c, after, hopped)
    ensures (exists i :: Overtaken(g, run, after.next.timePoint, i)) <==>
            hopped && exists i: nat :: i < |g.periods| && Run(g, run).parts[i].steps == 1
                                       && g.periods[i] < after.next.timePoint
  {
    hide Run, At, UpToDate, HoppedOn;
    var heard := seq(|g.periods|, _ => |run|);
    UpToDateIsLate(g, run, c, heard);
    LateInNetwork(g, run, heard, c, after, hopped);
    hide Late;
    var net, start := Run(g, run), after.next.timePoint;
    forall i: nat | i < |g.periods|
      ensures Overtaken(g, run, start, i) <==> hopped && net.parts[i].steps == 1 && g.periods[i] < start
    {
      assert HeardOf(g, run, heard, i) == net.parts[i];
      AtNext(g.periods[i], 0);
      AtMonotone(g.periods[i], 0, net.parts[i].steps);
      if hopped {
        var j: nat :| j < |heard| && HeardOf(g, run, heard, j).steps >= 2
                      && start == At(g.periods[j], HeardOf(g, run, heard, j).steps);
        assert HeardOf(g, run, heard, j) == net.parts[j];
        CurrentBelowNext(g, run, j, i);
        if net.parts[i].steps == 0 { SecondStepWaits(g.periods[j], net.parts[j].steps); }
      }
    }
  }

  lemma {:induction false} SecondStepWaits(p: int, steps: nat)
    requires p > 0 && steps >= 2
    ensures At(p, steps - 1) > 0
  {
    AtNext(p, 0);
    AtMonotone(p, 1, steps - 1);
  }

  // ----- it happens with any two participants -----

  ghost predicate Two(g: Config) { Proper(g) && |g.periods| == 2 }

  lemma {:induction false} RunStep(g: Config, run: seq<Step>, step: Step)
    requires Proper(g)
    ensures Run(g, run + [step]) == Apply(g, Run(g, run), step)
  {
    assert (run + [step])[..|run|] == run;
    hide Apply;
  }

  /** A delivery takes one item off its channel, and moves nobody. */
  lemma {:induction false} DeliveryMovesNobody(g: Config, net: Net, from: nat, to: nat)
    requires Shaped(g, net) && Enabled(net, Deliver(from, to))
    ensures var after := Apply(g, net, Deliver(from, to));
            && after.chan == net.chan[(from, to) := net.chan[(from, to)][1..]]
            && |after.parts| == |net.parts|
            && forall i :: 0 <= i < |net.parts| ==>
                 after.parts[i].started == net.parts[i].started && after.parts[i].steps == net.parts[i].steps
  {
    hide AfterMessage;
  }

  ghost predicate SameMoves(a: Net, b: Net) {
    && |a.parts| == |b.parts|
    && forall i :: 0 <= i < |a.parts| ==>
         a.parts[i].started == b.parts[i].started && a.parts[i].steps == b.parts[i].steps
  }

  function Load(net: Net): nat
    requires (0, 1) in net.chan && (1, 0) in net.chan
  {
    |net.chan[(0, 1)]| + |net.chan[(1, 0)]|
  }

  lemma {:induction false} Drained(g: Config, run: seq<Step>) returns (longer: seq<Step>)
    requires Two(g)
    ensures SameMoves(Run(g, longer), Run(g, run)) && Load(Run(g, longer)) == 0
    decreases Load(Run(g, run))
  {
    hide Run, Apply;
    longer := run;
    var net := Run(g, run);
    if Load(net) > 0 {
      var from := if net.chan[(0, 1)] != [] then 0 else 1;
      RunStep(g, run, Deliver(from, 1 - from));
      DeliveryMovesNobody(g, net, from, 1 - from);
      longer := Drained(g, run + [Deliver(from, 1 - from)]);
    }
  }

  /** With nothing under way, a participant knows the other's last announcement. */
  lemma {:induction false} KnowsTheOther(g: Config, run: seq<Step>, i: nat)
    requires Two(g) && i < 2 && Load(Run(g, run)) == 0 && Run(g, run).parts[1 - i].started
    ensures var net := Run(g, run);
            && net.parts[i].conf.others[1 - i].timePoint == At(g.periods[1 - i], net.parts[1 - i].steps)
            && forall j :: j in net.parts[i].conf.others ==> j == 1 - i
  {
    hide Run, At;
    Reachable(g, run);
    var net := Run(g, run);
    assert PartOk(g, net, i) && PartOk(g, net, 1 - i) && PairOk(g, net, 1 - i, i);
    assert net.chan[(1 - i, i)] == [];
  }

  /** A started participant whose next step is not later than the other's can make it. */
  lemma {:induction false} CanStep(g: Config, run: seq<Step>, i: nat) returns (longer: seq<Step>)
    requires Two(g) && i < 2 && Run(g, run).parts[0].started && Run(g, run).parts[1].started
    requires At(g.periods[i], Run(g, run).parts[i].steps) <= At(g.periods[1 - i], Run(g, run).parts[1 - i].steps)
    ensures Run(g, longer).parts[0].started && Run(g, longer).parts[1].started
    ensures Run(g, longer).parts[i].steps == Run(g, run).parts[i].steps + 1
    ensures Run(g, longer).parts[1 - i].steps == Run(g, run).parts[1 - i].steps
  {
    hide Run, At, Apply;
    longer := Drained(g, run);
    KnowsTheOther(g, longer, i);
    MayStep(g, longer, i);
    RunStep(g, longer, TakeStep(i));
    Reachable(g, longer);
    StepEffect(g, Run(g, longer), i);
    longer := longer + [TakeStep(i)];
  }

  lemma {:induction false} MayStep(g: Config, run: seq<Step>, i: nat)
    requires Proper(g) && i < |g.periods| && Run(g, run).parts[i].started
    requires forall j :: j in Run(g, run).parts[i].conf.others ==>
               At(g.periods[i], Run(g, run).parts[i].steps) <= Run(g, run).parts[i].conf.others[j].timePoint
    ensures Enabled(Run(g, run), TakeStep(i))
  {
    hide Run, At;
    Reachable(g, run);
    assert PartOk(g, Run(g, run), i);
  }

  lemma {:induction false} BothStarted(g: Config) returns (run: seq<Step>)
    requires Two(g)
    ensures var net := Run(g, run);
            net.parts[0].started && net.parts[1].started && net.parts[0].steps == 0 == net.parts[1].steps
  {
    assert Run(g, []) == Initial(g);
    RunStep(g, [], Start(0));
    RunStep(g, [Start(0)], Start(1));
    assert [] + [Start(0)] == [Start(0)];
    run := [Start(0)] + [Start(1)];
    hide Run;
    StartMoves(g, Initial(g), 0);
    StartMoves(g, Run(g, [Start(0)]), 1);
  }

  lemma {:induction false} StartMoves(g: Config, net: Net, i: nat)
    requires Shaped(g, net) && i < |net.parts| && !net.parts[i].started
    ensures var after := Apply(g, net, Start(i));
            && |after.parts| == |net.parts| && after.parts[i].started && after.parts[i].steps == net.parts[i].steps
            && forall j :: 0 <= j < |net.parts| && j != i ==> after.parts[j] == net.parts[j]
  {
  }

  /** One participant makes one step, the other one all that it may before it has to wait. */
  lemma {:induction false} OneFarAhead(g: Config, slow: nat, k: nat) returns (run: seq<Step>)
    requires Two(g) && slow < 2 && k >= 1 && At(g.periods[1 - slow], k - 1) <= g.periods[slow]
    ensures var net := Run(g, run);
            && net.parts[0].started && net.parts[1].started
            && net.parts[slow].steps == 1 && net.parts[1 - slow].steps == k
  {
    hide Run, At;
    var p, q := g.periods[slow], g.periods[1 - slow];
    AtNext(p, 0);
    AtNext(q, 0);
    if k == 1 {
      run := BothStarted(g);
      run := CanStep(g, run, slow);
      run := CanStep(g, run, 1 - slow);
    } else {
      AtMonotone(q, k - 2, k - 1);
      run := OneFarAhead(g, slow, k - 1);
      run := CanStep(g, run, 1 - slow);
    }
  }

  /** For any two periods there is a run in which a late participant, knowing everything, overtakes one of the two. */
  lemma {:induction false} MayOvertake(g: Config, c: Conf) returns (run: seq<Step>, late: Conf, after: Conf, slow: nat)
    requires Two(g) && !c.hoppedOn && c.current == UNKNOWN && c.next.timePoint == 0
    ensures UpToDate(g, run, late) && late == c.(others := late.others) && HoppedOn(late, after, true)
    ensures Overtaken(g, run, after.next.timePoint, slow)
  {
    hide At;
    slow := if g.periods[0] >= g.periods[1] then 0 else 1;
    var p, q := g.periods[slow], g.periods[1 - slow];
    var k := p / q + 1;
    JustBeyond(p, q);
    run := OneFarAhead(g, slow, k);
    late, after := Joins(g, run, c, slow, k);
  }

  lemma {:induction false} Joins(g: Config, run: seq<Step>, c: Conf, slow: nat, k: nat)
      returns (late: Conf, after: Conf)
    requires Two(g) && slow < 2 && !c.hoppedOn && c.current == UNKNOWN && c.next.timePoint == 0
    requires k >= 2 && g.periods[slow] < At(g.periods[1 - slow], k)
    requires var net := Run(g, run);
             && net.parts[0].started && net.parts[1].started
             && net.parts[slow].steps == 1 && net.parts[1 - slow].steps == k
    ensures UpToDate(g, run, late) && late == c.(others := late.others) && HoppedOn(late, after, true)
    ensures Overtaken(g, run, after.next.timePoint, slow)
  {
    hide Run, At;
    var p, q := g.periods[slow], g.periods[1 - slow];
    AnnouncedAt(g, run, slow);
    AnnouncedAt(g, run, 1 - slow);
    AtNext(p, 0);
    late := c.(others := map i: nat | i < 2 :: LastAnnounced(Run(g, run).parts[i]));
    after := late.(hoppedOn := true, next := late.next.(timePoint := At(q, k)));
    TwiceBeyond(q, k);
    assert late.others[slow] == Task(p, p) && late.others[1 - slow] == Task(At(q, k), q);
    hide Two;
    OneIsAhead(late, after, slow, p, At(q, k), q);
  }

  lemma {:induction false} AnnouncedAt(g: Config, run: seq<Step>, i: nat)
    requires Proper(g) && i < |g.periods| && Run(g, run).parts[i].started
    ensures LastAnnounced(Run(g, run).parts[i]) == Task(At(g.periods[i], Run(g, run).parts[i].steps), g.periods[i])
  {
    hide Run, At;
    Reachable(g, run);
    assert PartOk(g, Run(g, run), i);
  }

  lemma {:induction false} OneIsAhead(late: Conf, after: Conf, slow: nat, p: int, time: int, q: int)
    requires !late.hoppedOn && late.current == UNKNOWN && slow < 2
    requires (forall j: nat :: j in late.others <==> j < 2)
    requires late.others[slow] == Task(p, p) && late.others[1 - slow] == Task(time, q) && q < time
    requires after == late.(hoppedOn := true, next := late.next.(timePoint := time))
    ensures HoppedOn(late, after, true)
  {
    assert Ahead(late, 1 - slow) && !Ahead(late, slow);
  }

  lemma {:induction false} TwiceBeyond(q: int, k: nat)
    requires q > 0 && k >= 2
    ensures q < At(q, k)
  {
    AtNext(q, 0);
    AtNext(q, 1);
    AtMonotone(q, 2, k);
  }

  lemma {:induction false} JustBeyond(p: int, q: int)
    requires p >= q > 0
    ensures var k := p / q + 1; k >= 2 && At(q, k - 1) <= p < At(q, k)
  {
    var k := p / q;
    assert p == k * q + p % q;
    Monotone(k + 1, 1, q);
    Distribute(k, 1, q);
  }
}
