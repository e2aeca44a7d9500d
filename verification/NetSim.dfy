/**
 The network-simulation tests: participants send requests to a simulated network, which
 acknowledges each one to its sender and broadcasts it to every controller it has been
 told about, and everybody counts handler calls in 32-bit counters.

 A participant sends frame by frame inside its step handler; each request, each
 provision of a controller and each delivery is a step of its own, in any order.  The
 channel to a controller is a queue.  With `Can` traffic every controller requests a
 fixed number of frames in each of the first steps; with `Wakeup` traffic (FlexRay) it
 issues one wakeup command in the first step.
 */
module NetSim {

  import opened Arith

  // A wake-up symbol (`Symbol`) calls the symbol handler and the wakeup handler.
  datatype Event = FrameTransmit | Frame | PocStatus | CycleStart | Symbol | SymbolTransmit

  datatype Traffic = Can | Wakeup

  // controllers, _numFramesPerSimStep, _numSimSteps
  datatype Config = Config(n: nat, frames: nat, steps: nat, traffic: Traffic)

  /** What the handler asks for in step `k`. */
  function PerStep(cfg: Config, k: nat): nat {
    match cfg.traffic
    case Can => if k < cfg.steps then cfg.frames else 0
    case Wakeup => if k == 0 then 1 else 0
  }

  /** The value of a 32-bit counter after `k` increments. */
  function Counter(k: nat): nat { k % UINT32 }

  lemma {:induction false} CounterSmall(k: nat)
    requires k < UINT32
    ensures Counter(k) == k
  {
  }

  lemma {:induction false} CounterNext(k: nat)
    ensures (Counter(k) + 1) % UINT32 == Counter(k + 1)
  {
  }

  /** The send loop of one step. */
  method SendCanFrames(now: nat, until: nat, framesPerStep: nat, sendCount: nat) returns (sent: nat, count: nat)
    requires sendCount < UINT32
    ensures sent == PerStep(Config(0, framesPerStep, until, Can), now)
    ensures count == Counter(sendCount + sent)
  {
    sent, count := 0, sendCount;
    CounterSmall(sendCount);
    if now < until {
      hide Counter;
      for i := 0 to framesPerStep
        invariant sent == i && count == Counter(sendCount + i)
      {
        CounterNext(sendCount + i);
        count := (count + 1) % UINT32;
        sent := sent + 1;
      }
    }
  }

  /** What the network puts on the channel of one controller when it handles a request. */
  function Produced(traffic: Traffic, sender: bool, listed: bool): seq<Event> {
    match traffic
    case Can => (if sender then [FrameTransmit] else []) + (if listed then [Frame] else [])
    case Wakeup => (if listed then [PocStatus, CycleStart, Symbol] else []) + (if sender then [SymbolTransmit] else [])
  }

  class SimulatedNetwork {
    const traffic: Traffic
    var descriptors: seq<nat>
    var provideCalls: nat
    var requestCalls: nat

    constructor (traffic: Traffic)
      ensures this.traffic == traffic && descriptors == [] && provideCalls == requestCalls == 0
    {
      this.traffic, descriptors, provideCalls, requestCalls := traffic, [], 0, 0;
    }

    method ProvideSimulatedController(descriptor: nat)
      modifies this
      ensures descriptors == old(descriptors) + [descriptor]
      ensures provideCalls == (old(provideCalls) + 1) % UINT32 && requestCalls == old(requestCalls)
    {
      provideCalls := (provideCalls + 1) % UINT32;
      descriptors := descriptors + [descriptor];
    }

    /** The events produced, each with its receivers, in order. */
    method OnRequest(controller: nat) returns (events: seq<(Event, seq<nat>)>)
      modifies this
      ensures descriptors == old(descriptors) && provideCalls == old(provideCalls)
      ensures requestCalls == (old(requestCalls) + 1) % UINT32
      ensures forall c :: Received(events, c) == Produced(traffic, c == controller, c in descriptors)
    {
      requestCalls := (requestCalls + 1) % UINT32;
      if traffic.Can? {
        events := [(FrameTransmit, [controller]), (Frame, descriptors)];
      } else {
        events := [(PocStatus, descriptors), (CycleStart, descriptors), (Symbol, descriptors),
                   (SymbolTransmit, [controller])];
      }
      forall c ensures Received(events, c) == Produced(traffic, c == controller, c in descriptors) {
        BroadcastReceived(traffic, controller, descriptors, events, c);
      }
    }
  }

  lemma {:induction false} BroadcastReceived(traffic: Traffic, controller: nat, all: seq<nat>,
                                             events: seq<(Event, seq<nat>)>, c: nat)
    requires traffic.Can? ==> events == [(FrameTransmit, [controller]), (Frame, all)]
    requires traffic.Wakeup?
             ==> events == [(PocStatus, all), (CycleStart, all), (Symbol, all), (SymbolTransmit, [controller])]
    ensures Received(events, c) == Produced(traffic, c == controller, c in all)
  {
    ReceivedNone(c);
    hide Received;
    if traffic.Can? {
      ReceivedCons((FrameTransmit, [controller]), [(Frame, all)], c);
      ReceivedCons((Frame, all), [], c);
      assert [(FrameTransmit, [controller])] + [(Frame, all)] == events;
      assert [(Frame, all)] + [] == [(Frame, all)];
    } else {
      ReceivedCons((PocStatus, all), [(CycleStart, all), (Symbol, all), (SymbolTransmit, [controller])], c);
      ReceivedCons((CycleStart, all), [(Symbol, all), (SymbolTransmit, [controller])], c);
      ReceivedCons((Symbol, all), [(SymbolTransmit, [controller])], c);
      ReceivedCons((SymbolTransmit, [controller]), [], c);
      assert [(PocStatus, all)] + [(CycleStart, all), (Symbol, all), (SymbolTransmit, [controller])] == events;
      assert [(Symbol, all)] + [(SymbolTransmit, [controller])] == [(Symbol, all), (SymbolTransmit, [controller])];
      assert [(SymbolTransmit, [controller])] + [] == [(SymbolTransmit, [controller])];
      assert [(CycleStart, all)] + [(Symbol, all), (SymbolTransmit, [controller])]
          == [(CycleStart, all), (Symbol, all), (SymbolTransmit, [controller])];
    }
  }

  lemma {:induction false} ReceivedNone(c: nat)
    ensures Received([], c) == []
  {
  }

  /** The events that name `c` among their receivers. */
  function Received(events: seq<(Event, seq<nat>)>, c: nat): seq<Event> {
    if events == [] then [] else
    (if c in events[0].1 then [events[0].0] else []) + Received(events[1..], c)
  }

  lemma {:induction false} ReceivedCons(event: (Event, seq<nat>), rest: seq<(Event, seq<nat>)>, c: nat)
    ensures Received([event] + rest, c) == (if c in event.1 then [event.0] else []) + Received(rest, c)
  {
    assert ([event] + rest)[1..] == rest;
  }

  // ----- the whole network -----

  datatype Node = Node(
    step: nat, frame: nat,          // the simulation step, and the frames sent in it
    sent: nat, waiting: nat,        // requests sent, and those not handled yet
    handled: nat,
    channel: seq<Event>, got: multiset<Event>,      // events under way, and handler calls
    missed: nat)                    // broadcasts made before this controller was provided

  datatype State = State(nodes: seq<Node>, descriptors: seq<nat>)

  datatype Step = Provide(i: nat) | Handler(i: nat) | Handle(i: nat) | Deliver(i: nat)

  const NEW: Node := Node(0, 0, 0, 0, 0, [], multiset{}, 0)

  function Initial(cfg: Config): State { State(seq(cfg.n, _ => NEW), []) }

  /** The step in which the network simulator stops the simulation. */
  function StopAt(cfg: Config): nat { cfg.steps + 1 }

  predicate Enabled(cfg: Config, s: State, step: Step) {
    && step.i < |s.nodes|
    && match step
       case Provide(i) => i !in s.descriptors
       case Handler(i) => s.nodes[i].step <= StopAt(cfg)
       case Handle(i) => s.nodes[i].waiting > 0 && i in s.descriptors
       case Deliver(i) => s.nodes[i].channel != []
  }

  /** One pass of the send loop, or the end of the handler. */
  function HandlerApply(cfg: Config, node: Node): Node {
    if node.frame < PerStep(cfg, node.step)
    then node.(frame := node.frame + 1, sent := node.sent + 1, waiting := node.waiting + 1)
    else node.(step := node.step + 1, frame := 0)
  }

  function HandleApply(traffic: Traffic, node: Node, sender: bool, listed: bool): Node
    requires sender ==> node.waiting > 0
  {
    node.(waiting := if sender then node.waiting - 1 else node.waiting,
          handled := if sender then node.handled + 1 else node.handled,
          channel := node.channel + Produced(traffic, sender, listed),
          missed := if listed then node.missed else node.missed + 1)
  }

  function DeliverApply(node: Node): Node
    requires node.channel != []
  {
    node.(channel := node.channel[1..], got := node.got + multiset{node.channel[0]})
  }

  /** A step that is not enabled leaves the state alone. */
  function Apply(cfg: Config, s: State, step: Step): State {
    if !Enabled(cfg, s, step) then s else
    match step
    case Provide(i) => s.(descriptors := s.descriptors + [i])
    case Handler(i) => s.(nodes := s.nodes[i := HandlerApply(cfg, s.nodes[i])])
    case Deliver(i) => s.(nodes := s.nodes[i := DeliverApply(s.nodes[i])])
    case Handle(i) =>
      s.(nodes := seq(|s.nodes|, j requires 0 <= j < |s.nodes| =>
        HandleApply(cfg.traffic, s.nodes[j], j == i, j in s.descriptors)))
  }

  function Run(cfg: Config, run: seq<Step>): State {
    if run == [] then Initial(cfg) else Apply(cfg, Run(cfg, run[..|run| - 1]), run[|run| - 1])
  }

  // ----- sums -----

  function Sum(s: seq<nat>): nat {
    if s == [] then 0 else Sum(s[..|s| - 1]) + s[|s| - 1]
  }

  lemma {:induction false} SumUpdate(s: seq<nat>, i: nat, x: nat)
    requires i < |s|
    ensures Sum(s[i := x]) == Sum(s) - s[i] + x
  {
    var t := s[i := x];
    if i == |s| - 1 {
      assert t[..|s| - 1] == s[..|s| - 1];
    } else {
      SumUpdate(s[..|s| - 1], i, x);
      assert t[..|s| - 1] == s[..|s| - 1][i := x];
    }
  }

  lemma {:induction false} SumOfEqual(s: seq<nat>, c: nat)
    requires forall i :: 0 <= i < |s| ==> s[i] == c
    ensures Sum(s) == |s| * c
  {
    if s != [] {
      SumOfEqual(s[..|s| - 1], c);
      assert |s| * c == (|s| - 1) * c + c;
    }
  }

  /** If `a[i] + b[i]` is always `c`, the sums add up to `|a| * c`. */
  lemma {:induction false} SumOfComplements(a: seq<nat>, b: seq<nat>, c: nat)
    requires |a| == |b| && forall i :: 0 <= i < |a| ==> a[i] + b[i] == c
    ensures Sum(a) + Sum(b) == |a| * c
  {
    if a != [] {
      SumOfComplements(a[..|a| - 1], b[..|b| - 1], c);
      assert |a| * c == (|a| - 1) * c + c;
    }
  }

  lemma {:induction false} SumIsZero(s: seq<nat>)
    ensures Sum(s) == 0 <==> forall i :: 0 <= i < |s| ==> s[i] == 0
  {
    if s != [] {
      var front := s[..|s| - 1];
      SumIsZero(front);
      assert forall i :: 0 <= i < |front| ==> front[i] == s[i];
      if Sum(s) == 0 {
        forall i | 0 <= i < |s| ensures s[i] == 0 {
          if i < |front| { assert front[i] == 0; }
        }
      }
    }
  }

  lemma {:induction false} SumGrows(s: seq<nat>, t: seq<nat>, c: nat)
    requires |s| == |t| && forall i :: 0 <= i < |s| ==> t[i] <= s[i] + c
    ensures Sum(t) <= Sum(s) + |s| * c
  {
    if s != [] {
      SumGrows(s[..|s| - 1], t[..|t| - 1], c);
      assert |s| * c == (|s| - 1) * c + c;
    }
  }

  function Handled(s: State): seq<nat> { seq(|s.nodes|, i requires 0 <= i < |s.nodes| => s.nodes[i].handled) }

  function Missed(s: State): seq<nat> { seq(|s.nodes|, i requires 0 <= i < |s.nodes| => s.nodes[i].missed) }

  function Got(s: State, e: Event): seq<nat> { seq(|s.nodes|, i requires 0 <= i < |s.nodes| => s.nodes[i].got[e]) }

  /** Requests handled so far, and handler calls for one kind of event. */
  function Requests(s: State): nat { Sum(Handled(s)) }

  function Calls(s: State, e: Event): nat { Sum(Got(s, e)) }

  // ----- the inductive invariant -----

  function Answer(traffic: Traffic): Event { if traffic.Can? then FrameTransmit else SymbolTransmit }

  predicate Broadcast(traffic: Traffic, e: Event) {
    if traffic.Can? then e == Frame else e == PocStatus || e == CycleStart || e == Symbol
  }

  /** Requests made in the steps before step `k`. */
  function Before(cfg: Config, k: nat): nat {
    if k == 0 then 0 else Before(cfg, k - 1) + PerStep(cfg, k - 1)
  }

  /** Every answer and every broadcast that is due is under way or has arrived. */
  ghost predicate Conserved(traffic: Traffic, node: Node, requests: nat) {
    forall e :: multiset(node.channel)[e] + node.got[e] ==
      if e == Answer(traffic) then node.handled
      else if Broadcast(traffic, e) then requests - node.missed else 0
  }

  ghost predicate NodeInv(cfg: Config, node: Node, requests: nat) {
    && node.step <= StopAt(cfg) + 1 && node.frame <= PerStep(cfg, node.step)
    && node.sent == Before(cfg, node.step) + node.frame
    && node.sent == node.waiting + node.handled
    && node.missed <= requests
    && Conserved(cfg.traffic, node, requests)
  }

  ghost predicate Inv(cfg: Config, s: State) {
    && |s.nodes| == cfg.n
    && (forall i :: 0 <= i < cfg.n ==> NodeInv(cfg, s.nodes[i], Requests(s)))
  }

  predicate AllListed(s: State) { forall i :: 0 <= i < |s.nodes| ==> i in s.descriptors }

  lemma {:induction false} HandlerKeepsNodeInv(cfg: Config, node: Node, requests: nat)
    requires NodeInv(cfg, node, requests) && node.step <= StopAt(cfg)
    ensures NodeInv(cfg, HandlerApply(cfg, node), requests)
  {
    hide PerStep;
  }

  lemma {:induction false} DeliverKeepsNodeInv(cfg: Config, node: Node, requests: nat)
    requires NodeInv(cfg, node, requests) && node.channel != []
    ensures NodeInv(cfg, DeliverApply(node), requests)
  {
    hide PerStep, Before, Answer, Broadcast;
    assert node.channel == [node.channel[0]] + node.channel[1..];
    var now := DeliverApply(node);
    forall e ensures multiset(now.channel)[e] + now.got[e] == multiset(node.channel)[e] + node.got[e] {
    }
  }

  lemma {:induction false} ProducedOf(traffic: Traffic, sender: bool, listed: bool, e: Event)
    ensures multiset(Produced(traffic, sender, listed))[e] ==
            if e == Answer(traffic) then if sender then 1 else 0
            else if Broadcast(traffic, e) && listed then 1 else 0
  {
  }

  lemma {:induction false} HandleConserves(traffic: Traffic, node: Node, requests: nat, sender: bool, listed: bool)
    requires Conserved(traffic, node, requests) && node.missed <= requests && (sender ==> node.waiting > 0)
    ensures Conserved(traffic, HandleApply(traffic, node, sender, listed), requests + 1)
  {
    hide Answer, Broadcast, Produced;
    var now := HandleApply(traffic, node, sender, listed);
    var added := Produced(traffic, sender, listed);
    forall e ensures multiset(now.channel)[e] + now.got[e] ==
      if e == Answer(traffic) then now.handled else if Broadcast(traffic, e) then requests + 1 - now.missed else 0
    {
      ProducedOf(traffic, sender, listed, e);
      assert multiset(node.channel + added)[e] == multiset(node.channel)[e] + multiset(added)[e];
    }
  }

  lemma {:induction false} HandleKeepsNodeInv(cfg: Config, node: Node, requests: nat, sender: bool, listed: bool)
    requires NodeInv(cfg, node, requests) && (sender ==> node.waiting > 0)
    ensures NodeInv(cfg, HandleApply(cfg.traffic, node, sender, listed), requests + 1)
  {
    HandleConserves(cfg.traffic, node, requests, sender, listed);
    hide PerStep, Before, Produced, Conserved;
  }

  // ----- whole states -----

  lemma {:induction false} OneNodeKeepsInv(cfg: Config, s: State, i: nat, node: Node)
    requires Inv(cfg, s) && i < cfg.n && NodeInv(cfg, node, Requests(s)) && node.handled == s.nodes[i].handled
    ensures Inv(cfg, s.(nodes := s.nodes[i := node]))
  {
    hide NodeInv;
    assert Handled(s.(nodes := s.nodes[i := node])) == Handled(s);
  }

  lemma {:induction false} SumChange(a: seq<nat>, b: seq<nat>, i: nat)
    requires |a| == |b| && i < |a|
    requires forall j :: 0 <= j < |a| && j != i ==> b[j] == a[j]
    ensures Sum(b) == Sum(a) - a[i] + b[i]
  {
    hide Sum;
    assert b == a[i := b[i]];
    SumUpdate(a, i, b[i]);
  }

  lemma {:induction false} SumSame(a: seq<nat>, b: seq<nat>)
    requires |a| == |b| && forall j :: 0 <= j < |a| ==> b[j] == a[j]
    ensures Sum(b) == Sum(a)
  {
    assert a == b;
  }

  lemma {:induction false} HandledNode(cfg: Config, s: State, i: nat, j: nat)
    requires i < |s.nodes| && Enabled(cfg, s, Handle(i)) && j < |s.nodes|
    ensures var t := Apply(cfg, s, Handle(i));
            |t.nodes| == |s.nodes| && t.nodes[j].handled == s.nodes[j].handled + if j == i then 1 else 0
  {
    hide Produced;
  }

  lemma {:induction false} HandleAddsOne(cfg: Config, s: State, i: nat)
    requires i < |s.nodes| && Enabled(cfg, s, Handle(i))
    ensures Requests(Apply(cfg, s, Handle(i))) == Requests(s) + 1
  {
    var t := Apply(cfg, s, Handle(i));
    HandledNode(cfg, s, i, i);
    hide Apply, Enabled, Sum;
    forall j | 0 <= j < |s.nodes| ensures t.nodes[j].handled == s.nodes[j].handled + if j == i then 1 else 0 {
      HandledNode(cfg, s, i, j);
    }
    SumChange(Handled(s), Handled(t), i);
  }

  lemma {:induction false} StepKeepsInv(cfg: Config, s: State, step: Step)
    requires Inv(cfg, s)
    ensures Inv(cfg, Apply(cfg, s, step))
  {
    hide NodeInv, Sum, HandlerApply, DeliverApply, HandleApply, Requests;
    if Enabled(cfg, s, step) {
      match step
      case Provide(i) =>
        SameNodes(s, Apply(cfg, s, step));
      case Handler(i) =>
        HandlerKeeps(cfg, s.nodes[i], Requests(s));
        OneNodeKeepsInv(cfg, s, i, HandlerApply(cfg, s.nodes[i]));
      case Deliver(i) =>
        DeliverKeeps(cfg, s.nodes[i], Requests(s));
        OneNodeKeepsInv(cfg, s, i, DeliverApply(s.nodes[i]));
      case Handle(i) =>
        HandleAddsOne(cfg, s, i);
        forall j | 0 <= j < cfg.n ensures NodeInv(cfg, Apply(cfg, s, step).nodes[j], Requests(s) + 1) {
          HandleKeepsNodeInv(cfg, s.nodes[j], Requests(s), j == i, j in s.descriptors);
        }
    }
  }

  lemma {:induction false} SameNodes(s: State, t: State)
    requires s.nodes == t.nodes
    ensures Requests(s) == Requests(t)
  {
    assert Handled(s) == Handled(t);
  }

  lemma {:induction false} HandlerKeeps(cfg: Config, node: Node, requests: nat)
    requires NodeInv(cfg, node, requests) && node.step <= StopAt(cfg)
    ensures NodeInv(cfg, HandlerApply(cfg, node), requests) && HandlerApply(cfg, node).handled == node.handled
  {
    HandlerKeepsNodeInv(cfg, node, requests);
    hide NodeInv, PerStep;
  }

  lemma {:induction false} DeliverKeeps(cfg: Config, node: Node, requests: nat)
    requires NodeInv(cfg, node, requests) && node.channel != []
    ensures NodeInv(cfg, DeliverApply(node), requests) && DeliverApply(node).handled == node.handled
  {
    DeliverKeepsNodeInv(cfg, node, requests);
    hide NodeInv;
  }

  lemma {:induction false} InitialInv(cfg: Config)
    ensures Inv(cfg, Initial(cfg))
  {
    var s := Initial(cfg);
    SumOfEqual(Handled(s), 0);
    assert NodeInv(cfg, NEW, 0) by {
      assert forall e :: multiset(NEW.channel)[e] + NEW.got[e] == 0;
    }
  }

  lemma {:induction false} Reachable(cfg: Config, run: seq<Step>)
    ensures Inv(cfg, Run(cfg, run))
  {
    hide Inv, Apply, Initial;
    if run == [] {
      InitialInv(cfg);
    } else {
      Reachable(cfg, run[..|run| - 1]);
      StepKeepsInv(cfg, Run(cfg, run[..|run| - 1]), run[|run| - 1]);
    }
  }

  // ----- the main results -----

  ghost predicate Quiescent(cfg: Config, s: State) { forall step :: !Enabled(cfg, s, step) }

  /** The number of requests one controller makes. */
  function Quota(cfg: Config): nat { if cfg.traffic.Can? then cfg.frames * cfg.steps else 1 }

  lemma {:induction false} BeforeIsQuota(cfg: Config, k: nat)
    ensures cfg.traffic.Can? ==> Before(cfg, k) == cfg.frames * if k < cfg.steps then k else cfg.steps
    ensures cfg.traffic.Wakeup? ==> Before(cfg, k) == if k == 0 then 0 else 1
  {
    if k > 0 {
      BeforeIsQuota(cfg, k - 1);
      if cfg.traffic.Can? && k <= cfg.steps {
        assert cfg.frames * (k - 1) + cfg.frames == cfg.frames * k;
      }
    }
  }

  ghost predicate Settled(cfg: Config, node: Node, requests: nat) {
    && node.sent == node.handled == Quota(cfg) && node.missed <= requests && node.step == cfg.steps + 2
    && forall e :: node.got[e] ==
         if e == Answer(cfg.traffic) then Quota(cfg)
         else if Broadcast(cfg.traffic, e) then requests - node.missed else 0
  }

  lemma {:induction false} QuietNode(cfg: Config, s: State, i: nat)
    requires Inv(cfg, s) && Quiescent(cfg, s) && i < cfg.n
    ensures Settled(cfg, s.nodes[i], Requests(s))
  {
    var node := s.nodes[i];
    assert NodeInv(cfg, node, Requests(s));
    assert !Enabled(cfg, s, Provide(i)) && !Enabled(cfg, s, Handler(i)) && !Enabled(cfg, s, Handle(i));
    assert !Enabled(cfg, s, Deliver(i));
    BeforeIsQuota(cfg, node.step);
    hide Requests, Answer, Broadcast, Before;
    assert node.channel == [];
    assert node.frame == 0;
  }

  /** Broadcasts that found some controller not provided yet. */
  function AllMissed(s: State): nat { Sum(Missed(s)) }

  /**
   Conservation, for every number of controllers and every interleaving.  When nothing can
   move any more, each participant has made all steps up to the second after the last with
   requests, and each controller has had all its requests handled and answered; broadcast
   events arrived `n * n * quota` times in all, less one for every controller that was
   provided too late for a broadcast.
   */
  lemma {:induction false} Totals(cfg: Config, run: seq<Step>)
    requires Quiescent(cfg, Run(cfg, run))
    ensures var s := Run(cfg, run);
            && |s.nodes| == cfg.n
            && (forall i :: 0 <= i < cfg.n ==> s.nodes[i].sent == s.nodes[i].got[Answer(cfg.traffic)] == Quota(cfg))
            && (forall i :: 0 <= i < cfg.n ==> s.nodes[i].step == cfg.steps + 2)
            && Requests(s) == cfg.n * Quota(cfg)
            && Calls(s, Answer(cfg.traffic)) == cfg.n * Quota(cfg)
            && forall e :: Broadcast(cfg.traffic, e) ==> Calls(s, e) + AllMissed(s) == cfg.n * (cfg.n * Quota(cfg))
  {
    var s := Run(cfg, run);
    Reachable(cfg, run);
    hide Run, Quiescent, Inv, Sum, Broadcast, Answer, Quota;
    assert |s.nodes| == cfg.n by { InvLength(cfg, s); }
    forall i | 0 <= i < cfg.n ensures Settled(cfg, s.nodes[i], Requests(s)) { QuietNode(cfg, s, i); }
    SumOfEqual(Handled(s), Quota(cfg));
    SumOfEqual(Got(s, Answer(cfg.traffic)), Quota(cfg));
    forall e | Broadcast(cfg.traffic, e) ensures Calls(s, e) + AllMissed(s) == cfg.n * (cfg.n * Quota(cfg)) {
      NotBoth(cfg.traffic, e);
      SumOfComplements(Got(s, e), Missed(s), Requests(s));
    }
  }

  lemma {:induction false} InvLength(cfg: Config, s: State)
    requires Inv(cfg, s)
    ensures |s.nodes| == cfg.n
  {
  }

  lemma {:induction false} NotBoth(traffic: Traffic, e: Event)
    requires Broadcast(traffic, e)
    ensures e != Answer(traffic)
  {
  }

  /** Whenever the network handles a request, every controller has been provided. */
  ghost predicate ProvidedInTime(cfg: Config, run: seq<Step>) {
    forall k :: 0 <= k < |run| && run[k].Handle? && Enabled(cfg, Run(cfg, run[..k]), run[k])
                ==> AllListed(Run(cfg, run[..k]))
  }

  ghost predicate NoneMissed(s: State) { forall i :: 0 <= i < |s.nodes| ==> s.nodes[i].missed == 0 }

  /** A broadcast is missed if and only if some request is handled before every controller is provided. */
  lemma {:induction false} ProvidedFirst(cfg: Config, run: seq<Step>)
    ensures AllMissed(Run(cfg, run)) == 0 <==> ProvidedInTime(cfg, run)
    ensures NoneMissed(Run(cfg, run)) <==> ProvidedInTime(cfg, run)
  {
    hide Enabled, Apply, AllListed;
    if run != [] {
      var head, step := run[..|run| - 1], run[|run| - 1];
      assert forall k :: 0 <= k < |head| ==> head[..k] == run[..k] && head[k] == run[k];
      ProvidedFirst(cfg, head);
      MissedStep(cfg, Run(cfg, head), step);
      var inTime := step.Handle? && Enabled(cfg, Run(cfg, head), step) ==> AllListed(Run(cfg, head));
      assert ProvidedInTime(cfg, run) <==> ProvidedInTime(cfg, head) && inTime;
    }
    NoneMissedSum(Run(cfg, run));
  }

  lemma {:induction false} NoneMissedSum(s: State)
    ensures AllMissed(s) == 0 <==> NoneMissed(s)
  {
    SumIsZero(Missed(s));
    assert forall i :: 0 <= i < |s.nodes| ==> Missed(s)[i] == s.nodes[i].missed;
  }

  lemma {:induction false} MissedStep(cfg: Config, s: State, step: Step)
    ensures NoneMissed(Apply(cfg, s, step)) <==>
            NoneMissed(s) && (step.Handle? && Enabled(cfg, s, step) ==> AllListed(s))
  {
    hide Produced;
    var t := Apply(cfg, s, step);
    assert |t.nodes| == |s.nodes|;
    if step.Handle? && Enabled(cfg, s, step) {
      forall j | 0 <= j < |s.nodes|
        ensures t.nodes[j].missed == s.nodes[j].missed + if j in s.descriptors then 0 else 1
      {
      }
    } else {
      forall j | 0 <= j < |s.nodes| ensures t.nodes[j].missed == s.nodes[j].missed {
      }
    }
  }

  /**
   The final expectation on a broadcast counter holds exactly when the total fits 32 bits
   and every controller was provided before the network handled its first request.
   */
  lemma {:induction false} BroadcastCheck(cfg: Config, run: seq<Step>, e: Event)
    requires Quiescent(cfg, Run(cfg, run)) && Broadcast(cfg.traffic, e)
    ensures var total := cfg.n * (cfg.n * Quota(cfg));
            Counter(Calls(Run(cfg, run), e)) == total <==> total < 0x1_0000_0000 && ProvidedInTime(cfg, run)
  {
    Totals(cfg, run);
    ProvidedFirst(cfg, run);
    var s, total := Run(cfg, run), cfg.n * (cfg.n * Quota(cfg));
    hide Run, Quiescent, Calls, AllMissed, Broadcast, ProvidedInTime, NoneMissed;
    CounterIs(Calls(s, e), AllMissed(s), total);
  }

  lemma {:induction false} CounterIs(calls: nat, missed: nat, total: nat)
    requires calls + missed == total
    ensures Counter(calls) == total <==> total < UINT32 && missed == 0
  {
    if calls >= UINT32 { assert Counter(calls) < UINT32; }
  }

  /** The final expectations on the request and answer counters. */
  lemma {:induction false} AnswerCheck(cfg: Config, run: seq<Step>)
    requires Quiescent(cfg, Run(cfg, run))
    ensures var s, total := Run(cfg, run), cfg.n * Quota(cfg);
            && (Counter(Requests(s)) == total <==> total < 0x1_0000_0000)
            && (Counter(Calls(s, Answer(cfg.traffic))) == total <==> total < 0x1_0000_0000)
  {
    Totals(cfg, run);
    CounterIs(cfg.n * Quota(cfg), 0, cfg.n * Quota(cfg));
  }

  // ----- every run ends -----

  function Steps(cfg: Config, s: State): seq<nat> {
    seq(|s.nodes|, i requires 0 <= i < |s.nodes| => StepsLeft(cfg, s.nodes[i]))
  }

  /** Passes of the handler that are still to come. */
  function StepsLeft(cfg: Config, node: Node): nat {
    var ahead := StopAt(cfg) + 1 + Before(cfg, StopAt(cfg) + 1) - (node.step + node.sent);
    if ahead < 0 then 0 else ahead
  }

  function Waiting(s: State): seq<nat> { seq(|s.nodes|, i requires 0 <= i < |s.nodes| => s.nodes[i].waiting) }

  function Queued(s: State): seq<nat> { seq(|s.nodes|, i requires 0 <= i < |s.nodes| => |s.nodes[i].channel|) }

  function Unlisted(s: State): seq<nat> {
    seq(|s.nodes|, i requires 0 <= i < |s.nodes| => if i in s.descriptors then 0 else 1)
  }

  /** A handled request puts at most four events on each channel. */
  function Weight(n: nat): nat { 4 * n + 1 }

  function Weighed(n: nat, steps: nat, waiting: nat, queued: nat, unlisted: nat): nat {
    (Weight(n) + 1) * steps + Weight(n) * waiting + queued + unlisted
  }

  function Rank(cfg: Config, s: State): nat {
    Weighed(cfg.n, Sum(Steps(cfg, s)), Sum(Waiting(s)), Sum(Queued(s)), Sum(Unlisted(s)))
  }

  lemma {:induction false} BeforeGrows(cfg: Config, j: nat, k: nat)
    requires j <= k
    ensures Before(cfg, j) <= Before(cfg, k)
  {
    hide PerStep;
    if j < k { BeforeGrows(cfg, j, k - 1); }
  }

  lemma {:induction false} OnePass(cfg: Config, node: Node, requests: nat)
    requires NodeInv(cfg, node, requests) && node.step <= StopAt(cfg)
    ensures StepsLeft(cfg, node) == StepsLeft(cfg, HandlerApply(cfg, node)) + 1
    ensures HandlerApply(cfg, node).waiting <= node.waiting + 1 && HandlerApply(cfg, node).channel == node.channel
  {
    hide PerStep;
    BeforeGrows(cfg, node.step + 1, StopAt(cfg) + 1);
  }

  lemma {:induction false} Weighs(n: nat, a: nat, b: nat, c: nat, d: nat, a': nat, b': nat, c': nat, d': nat)
    requires || (a' == a - 1 && b' <= b + 1 && c' == c && d' == d)
             || (a' == a && b' == b - 1 && c' <= c + n * 4 && d' == d)
             || (a' == a && b' == b && c' == c - 1 && d' == d)
             || (a' == a && b' == b && c' == c && d' == d - 1)
    ensures Weighed(n, a', b', c', d') < Weighed(n, a, b, c, d)
  {
    var h := Weight(n);
    if a' == a - 1 {
      assert (h + 1) * a' == (h + 1) * a - (h + 1);
      assert h * b' <= h * (b + 1) by { Grows(h, b', b + 1); }
      assert h * (b + 1) == h * b + h;
    } else if b' == b - 1 {
      assert h * b' == h * b - h;
    }
  }

  lemma {:induction false} Grows(h: nat, x: nat, y: nat)
    requires x <= y
    ensures h * x <= h * y
  {
    assert h * y == h * x + h * (y - x);
  }

  lemma {:induction false} HandlerSums(cfg: Config, s: State, t: State, i: nat)
    requires Inv(cfg, s) && Enabled(cfg, s, Handler(i)) && t == Apply(cfg, s, Handler(i))
    ensures Sum(Steps(cfg, t)) == Sum(Steps(cfg, s)) - 1 && Sum(Waiting(t)) <= Sum(Waiting(s)) + 1
    ensures Sum(Queued(t)) == Sum(Queued(s)) && Sum(Unlisted(t)) == Sum(Unlisted(s))
  {
    HandlerNodes(cfg, s, t, i);
    Lengths(cfg, s);
    Lengths(cfg, t);
    hide HandlerApply, Apply, Enabled, Inv, Sum, StepsLeft, Steps, Waiting, Queued, Unlisted;
    SumChange(Steps(cfg, s), Steps(cfg, t), i);
    SumChange(Waiting(s), Waiting(t), i);
    SumSame(Queued(s), Queued(t));
    SumSame(Unlisted(s), Unlisted(t));
  }

  lemma {:induction false} HandlerNodes(cfg: Config, s: State, t: State, i: nat)
    requires Inv(cfg, s) && Enabled(cfg, s, Handler(i)) && t == Apply(cfg, s, Handler(i))
    ensures i < |s.nodes| == |t.nodes| && Steps(cfg, t)[i] + 1 == Steps(cfg, s)[i]
    ensures Waiting(t)[i] <= Waiting(s)[i] + 1
    ensures forall j :: 0 <= j < |s.nodes| && j != i
                        ==> Steps(cfg, t)[j] == Steps(cfg, s)[j] && Waiting(t)[j] == Waiting(s)[j]
    ensures forall j :: 0 <= j < |s.nodes| ==> Queued(t)[j] == Queued(s)[j] && Unlisted(t)[j] == Unlisted(s)[j]
  {
    OnePass(cfg, s.nodes[i], Requests(s));
    assert t.nodes == s.nodes[i := HandlerApply(cfg, s.nodes[i])] && t.descriptors == s.descriptors;
    hide HandlerApply, Apply, Enabled, Inv, StepsLeft;
  }

  lemma {:induction false} HandlerRank(cfg: Config, s: State, i: nat)
    requires Inv(cfg, s) && Enabled(cfg, s, Handler(i))
    ensures Rank(cfg, Apply(cfg, s, Handler(i))) < Rank(cfg, s)
  {
    var t := Apply(cfg, s, Handler(i));
    HandlerSums(cfg, s, t, i);
    hide Apply, Enabled, Inv, Sum, Weighed, StepsLeft, Waiting, Queued, Unlisted, Steps;
    Weighs(cfg.n, Sum(Steps(cfg, s)), Sum(Waiting(s)), Sum(Queued(s)), Sum(Unlisted(s)),
           Sum(Steps(cfg, t)), Sum(Waiting(t)), Sum(Queued(t)), Sum(Unlisted(t)));
  }

  lemma {:induction false} DeliverSums(cfg: Config, s: State, t: State, i: nat)
    requires Enabled(cfg, s, Deliver(i)) && t == Apply(cfg, s, Deliver(i))
    ensures Sum(Steps(cfg, t)) == Sum(Steps(cfg, s)) && Sum(Waiting(t)) == Sum(Waiting(s))
    ensures Sum(Queued(t)) == Sum(Queued(s)) - 1 && Sum(Unlisted(t)) == Sum(Unlisted(s))
  {
    assert t.nodes == s.nodes[i := DeliverApply(s.nodes[i])] && t.descriptors == s.descriptors;
    hide Apply, Enabled, Sum;
    SumChange(Queued(s), Queued(t), i);
    SumSame(Steps(cfg, s), Steps(cfg, t));
    SumSame(Waiting(s), Waiting(t));
    SumSame(Unlisted(s), Unlisted(t));
  }

  lemma {:induction false} DeliverRank(cfg: Config, s: State, i: nat)
    requires Inv(cfg, s) && Enabled(cfg, s, Deliver(i))
    ensures Rank(cfg, Apply(cfg, s, Deliver(i))) < Rank(cfg, s)
  {
    var t := Apply(cfg, s, Deliver(i));
    DeliverSums(cfg, s, t, i);
    hide Apply, Enabled, Inv, Sum, Weighed, StepsLeft, Waiting, Queued, Unlisted, Steps;
    Weighs(cfg.n, Sum(Steps(cfg, s)), Sum(Waiting(s)), Sum(Queued(s)), Sum(Unlisted(s)),
           Sum(Steps(cfg, t)), Sum(Waiting(t)), Sum(Queued(t)), Sum(Unlisted(t)));
  }

  lemma {:induction false} ProvideSums(cfg: Config, s: State, t: State, i: nat)
    requires Enabled(cfg, s, Provide(i)) && t == Apply(cfg, s, Provide(i))
    ensures Sum(Steps(cfg, t)) == Sum(Steps(cfg, s)) && Sum(Waiting(t)) == Sum(Waiting(s))
    ensures Sum(Queued(t)) == Sum(Queued(s)) && Sum(Unlisted(t)) == Sum(Unlisted(s)) - 1
  {
    assert t.nodes == s.nodes && t.descriptors == s.descriptors + [i] && i !in s.descriptors && i < |s.nodes|;
    hide Apply, Enabled, Sum;
    SumChange(Unlisted(s), Unlisted(t), i);
    SumSame(Steps(cfg, s), Steps(cfg, t));
    SumSame(Waiting(s), Waiting(t));
    SumSame(Queued(s), Queued(t));
  }

  lemma {:induction false} ProvideRank(cfg: Config, s: State, i: nat)
    requires Inv(cfg, s) && Enabled(cfg, s, Provide(i))
    ensures Rank(cfg, Apply(cfg, s, Provide(i))) < Rank(cfg, s)
  {
    var t := Apply(cfg, s, Provide(i));
    ProvideSums(cfg, s, t, i);
    hide Apply, Enabled, Inv, Sum, Weighed, StepsLeft, Waiting, Queued, Unlisted, Steps;
    Weighs(cfg.n, Sum(Steps(cfg, s)), Sum(Waiting(s)), Sum(Queued(s)), Sum(Unlisted(s)),
           Sum(Steps(cfg, t)), Sum(Waiting(t)), Sum(Queued(t)), Sum(Unlisted(t)));
  }

  lemma {:induction false} HandleNode(cfg: Config, s: State, i: nat, j: nat)
    requires i < |s.nodes| && Enabled(cfg, s, Handle(i)) && j < |s.nodes|
    ensures var t := Apply(cfg, s, Handle(i));
            && |t.nodes| == |s.nodes| && t.descriptors == s.descriptors
            && t.nodes[j].waiting == s.nodes[j].waiting - (if j == i then 1 else 0)
            && StepsLeft(cfg, t.nodes[j]) == StepsLeft(cfg, s.nodes[j])
            && |t.nodes[j].channel| <= |s.nodes[j].channel| + 4
  {
  }

  lemma {:induction false} HandleNodes(cfg: Config, s: State, t: State, i: nat)
    requires i < |s.nodes| && Enabled(cfg, s, Handle(i)) && t == Apply(cfg, s, Handle(i))
    ensures |t.nodes| == |s.nodes| && t.descriptors == s.descriptors
    ensures forall j :: 0 <= j < |s.nodes| ==> Waiting(t)[j] == Waiting(s)[j] - (if j == i then 1 else 0)
    ensures forall j :: 0 <= j < |s.nodes| ==> Queued(t)[j] <= Queued(s)[j] + 4
    ensures forall j :: 0 <= j < |s.nodes| ==> Steps(cfg, t)[j] == Steps(cfg, s)[j] && Unlisted(t)[j] == Unlisted(s)[j]
  {
    HandleNode(cfg, s, i, i);
    hide Apply, Enabled, StepsLeft;
    forall j | 0 <= j < |s.nodes|
      ensures t.nodes[j].waiting == s.nodes[j].waiting - (if j == i then 1 else 0)
      ensures StepsLeft(cfg, t.nodes[j]) == StepsLeft(cfg, s.nodes[j])
      ensures |t.nodes[j].channel| <= |s.nodes[j].channel| + 4
    {
      HandleNode(cfg, s, i, j);
    }
  }

  lemma {:induction false} HandleSums(cfg: Config, s: State, t: State, i: nat)
    requires i < |s.nodes| && Enabled(cfg, s, Handle(i)) && t == Apply(cfg, s, Handle(i))
    ensures Sum(Waiting(t)) == Sum(Waiting(s)) - 1 && Sum(Queued(t)) <= Sum(Queued(s)) + |s.nodes| * 4
    ensures Sum(Steps(cfg, t)) == Sum(Steps(cfg, s)) && Sum(Unlisted(t)) == Sum(Unlisted(s))
  {
    HandleNodes(cfg, s, t, i);
    Lengths(cfg, s);
    Lengths(cfg, t);
    hide Apply, Enabled, Sum, Waiting, Queued, Steps, Unlisted;
    SumChange(Waiting(s), Waiting(t), i);
    SumGrows(Queued(s), Queued(t), 4);
    SumSame(Steps(cfg, s), Steps(cfg, t));
    SumSame(Unlisted(s), Unlisted(t));
  }

  lemma {:induction false} Lengths(cfg: Config, s: State)
    ensures |Waiting(s)| == |Queued(s)| == |Steps(cfg, s)| == |Unlisted(s)| == |s.nodes|
  {
  }

  lemma {:induction false} HandleRank(cfg: Config, s: State, i: nat)
    requires Inv(cfg, s) && Enabled(cfg, s, Handle(i))
    ensures Rank(cfg, Apply(cfg, s, Handle(i))) < Rank(cfg, s)
  {
    var t := Apply(cfg, s, Handle(i));
    assert |s.nodes| == cfg.n;
    HandleSums(cfg, s, t, i);
    hide Apply, Enabled, Inv, Sum, Weighed, StepsLeft, Waiting, Queued, Unlisted, Steps;
    Weighs(cfg.n, Sum(Steps(cfg, s)), Sum(Waiting(s)), Sum(Queued(s)), Sum(Unlisted(s)),
           Sum(Steps(cfg, t)), Sum(Waiting(t)), Sum(Queued(t)), Sum(Unlisted(t)));
  }

  lemma {:induction false} RankFalls(cfg: Config, s: State, step: Step)
    requires Inv(cfg, s) && Enabled(cfg, s, step)
    ensures Rank(cfg, Apply(cfg, s, step)) < Rank(cfg, s)
  {
    hide Rank, Apply, Inv, Enabled;
    match step
    case Provide(i) => ProvideRank(cfg, s, i);
    case Handler(i) => HandlerRank(cfg, s, i);
    case Handle(i) => HandleRank(cfg, s, i);
    case Deliver(i) => DeliverRank(cfg, s, i);
  }

  /** Every element of the schedule is enabled when its turn comes. */
  ghost predicate Legal(cfg: Config, run: seq<Step>) {
    forall i :: 0 <= i < |run| ==> Enabled(cfg, Run(cfg, run[..i]), run[i])
  }

  lemma {:induction false} RunsAreBounded(cfg: Config, run: seq<Step>)
    requires Legal(cfg, run)
    ensures |run| + Rank(cfg, Run(cfg, run)) <= Rank(cfg, Initial(cfg))
  {
    hide Rank, Apply, Inv, Enabled, Initial;
    if run != [] {
      var head, step := run[..|run| - 1], run[|run| - 1];
      assert forall i :: 0 <= i < |head| ==> head[..i] == run[..i] && head[i] == run[i];
      RunsAreBounded(cfg, head);
      Reachable(cfg, head);
      var s := Run(cfg, head);
      assert Enabled(cfg, s, step) by { assert head == run[..|run| - 1]; }
      RankFalls(cfg, s, step);
    }
  }

  // ----- a broadcast can be missed -----

  lemma {:induction false} RunStep(cfg: Config, run: seq<Step>, step: Step)
    ensures Run(cfg, run + [step]) == Apply(cfg, Run(cfg, run), step)
  {
    assert (run + [step])[..|run|] == run;
  }

  /** Every run can be continued until nothing can move. */
  lemma {:induction false} Complete(cfg: Config, run: seq<Step>) returns (longer: seq<Step>)
    ensures run <= longer && Quiescent(cfg, Run(cfg, longer))
    decreases Rank(cfg, Run(cfg, run))
  {
    hide Run, Rank, Apply, Inv, Enabled;
    longer := run;
    if step :| Enabled(cfg, Run(cfg, run), step) {
      Reachable(cfg, run);
      RankFalls(cfg, Run(cfg, run), step);
      RunStep(cfg, run, step);
      longer := Complete(cfg, run + [step]);
    }
  }

  lemma {:induction false} StaysLate(cfg: Config, run: seq<Step>, longer: seq<Step>)
    requires run <= longer && !ProvidedInTime(cfg, run)
    ensures !ProvidedInTime(cfg, longer)
  {
    hide Run, Enabled, AllListed;
    var k :| 0 <= k < |run| && run[k].Handle? && Enabled(cfg, Run(cfg, run[..k]), run[k])
             && !AllListed(Run(cfg, run[..k]));
    assert longer[k] == run[k] && longer[..k] == run[..k];
  }

  /** The first controller is provided and has a request handled before the second one is provided. */
  lemma {:induction false} FirstAlone(cfg: Config)
    requires cfg.n >= 2 && Quota(cfg) > 0
    ensures !ProvidedInTime(cfg, [Provide(0), Handler(0), Handle(0)])
  {
    assert PerStep(cfg, 0) > 0;
    var run := [Provide(0), Handler(0), Handle(0)];
    RunStep(cfg, [], Provide(0));
    RunStep(cfg, [Provide(0)], Handler(0));
    assert [] + [Provide(0)] == [Provide(0)] && [Provide(0)] + [Handler(0)] == run[..2];
    var s := Run(cfg, run[..2]);
    assert s.descriptors == [0] && s.nodes[0].waiting == 1;
    assert !AllListed(s) by { assert 1 !in s.descriptors; }
    assert Enabled(cfg, s, run[2]) && run[2].Handle?;
  }

  /** Nobody sends before it has something to send. */
  lemma {:induction false} NothingToSend(cfg: Config, node: Node, requests: nat)
    requires NodeInv(cfg, node, requests) && node.waiting > 0
    ensures Quota(cfg) > 0
  {
    BeforeIsQuota(cfg, node.step);
    BeforeIsQuota(cfg, node.step + 1);
    hide Conserved;
    assert Before(cfg, node.step + 1) == Before(cfg, node.step) + PerStep(cfg, node.step) > 0;
  }

  /** Broadcasts are missed in some complete run exactly if there are two controllers, and requests. */
  lemma {:induction false} SomeMissed(cfg: Config)
    ensures (exists run :: Quiescent(cfg, Run(cfg, run)) && !ProvidedInTime(cfg, run))
            <==> cfg.n >= 2 && Quota(cfg) > 0
  {
    if cfg.n >= 2 && Quota(cfg) > 0 {
      hide Run, Quiescent, ProvidedInTime, Quota;
      FirstAlone(cfg);
      var first := [Provide(0), Handler(0), Handle(0)];
      var run := Complete(cfg, first);
      StaysLate(cfg, first, run);
    } else {
      forall run ensures ProvidedInTime(cfg, run) { InTime(cfg, run); }
    }
  }

  lemma {:induction false} InTime(cfg: Config, run: seq<Step>)
    requires cfg.n < 2 || Quota(cfg) == 0
    ensures ProvidedInTime(cfg, run)
  {
    hide Run, Quota, NodeInv;
    forall k | 0 <= k < |run| && run[k].Handle? && Enabled(cfg, Run(cfg, run[..k]), run[k])
      ensures AllListed(Run(cfg, run[..k]))
    {
      var s, i := Run(cfg, run[..k]), run[k].i;
      Reachable(cfg, run[..k]);
      assert NodeInv(cfg, s.nodes[i], Requests(s));
      NothingToSend(cfg, s.nodes[i], Requests(s));
    }
  }
}
