/**
 Participants that advance their virtual time with `TimeConfiguration`: number 0 is the
 subscriber of the periodic tests, numbers 1, 2, ... are the publishers, with arbitrary
 positive periods.  Two participants are joined by a reliable channel in each direction
 that carries step announcements and messages in the order they were sent.

 A participant looks at the others' announced times only when it receives an announcement
 or after it has requested its next step (`pending`).  It then takes a step if no other has
 announced a lower time, and otherwise waits for another occasion (`Check`).  Nothing else
 restricts the order of starts, steps and deliveries.
 */
module TimeSync {
  import opened Arith
  import opened TimeConfiguration
  import opened Periods
  import M = MessageText
  import opened Wrappers

  datatype Item = Announce(task: Task) | Data(message: Message)

  datatype Config = Config(periods: seq<int>, numMessages: nat)

  predicate Proper(g: Config) { g.periods != [] && forall i :: 0 <= i < |g.periods| ==> g.periods[i] > 0 }

  datatype Part = Part(
    conf: Conf,
    started: bool,
    lastSent: int,          // _lastSentNextSimTask
    aborted: bool,          // a coordinated participant that hops on aborts
    pending: bool,          // ProcessSimulationTimeUpdate is due
    steps: nat,             // step handler invocations
    messageIndex: nat)      // a publisher's _messageIndex

  datatype Net = Net(parts: seq<Part>, sub: Reception, chan: map<(nat, nat), seq<Item>>)

  datatype Step = Start(i: nat) | TakeStep(i: nat) | Check(i: nat) | Deliver(from: nat, to: nat)

  predicate Distinct(i: nat, j: nat) { i != j }

  function Initial(g: Config): (net: Net)
    requires Proper(g)
  {
    var n := |g.periods|;
    Net(seq(n, i requires 0 <= i < n => Part(
          Conf(UNKNOWN, Task(0, g.periods[i]), map j: nat | 0 <= j < n && Distinct(i, j) :: UNKNOWN, false),
          false, -1, false, false, 0, 0)),
        Reception(0, seq(n - 1, _ => 0), 0, 0),
        map i: nat, j: nat | 0 <= i < n && 0 <= j < n && Distinct(i, j) :: (i, j) := [])
  }

  ghost predicate Shaped(g: Config, net: Net) {
    && Proper(g) && |net.parts| == |g.periods| && |net.sub.received| + 1 == |g.periods|
    && forall i, j :: 0 <= i < |net.parts| && 0 <= j < |net.parts| && i != j
                      ==> (i, j) in net.chan && j in net.parts[i].conf.others
  }

  predicate MayLook(part: Part) { part.started && part.pending && !part.aborted }

  predicate Enabled(net: Net, step: Step) {
    match step
    case Start(i) => i < |net.parts| && !net.parts[i].started
    case TakeStep(i) => i < |net.parts| && MayLook(net.parts[i]) && !OtherLower(net.parts[i].conf)
    case Check(i) => i < |net.parts| && MayLook(net.parts[i]) && OtherLower(net.parts[i].conf)
    case Deliver(from, to) => (from, to) in net.chan && net.chan[(from, to)] != []
                              && from < |net.parts| && to < |net.parts| && from != to
  }

  function Broadcast(chan: map<(nat, nat), seq<Item>>, from: nat, item: Item): map<(nat, nat), seq<Item>> {
    map p | p in chan :: if p.0 == from then chan[p] + [item] else chan[p]
  }

  /** `RequestNextStep`: announce the next step, but never the same one twice, and look again later. */
  function Requested(g: Config, net: Net, i: nat): (after: Net)
    requires Shaped(g, net) && i < |net.parts|
    ensures Shaped(g, after)
  {
    var part := net.parts[i];
    if part.lastSent == part.conf.next.timePoint then net.(parts := net.parts[i := part.(pending := true)])
    else net.(parts := net.parts[i := part.(lastSent := part.conf.next.timePoint, pending := true)],
              chan := Broadcast(net.chan, i, Announce(part.conf.next)))
  }

  /** The step handlers of `Periods`. */
  function Handled(g: Config, net: Net, i: nat, now: int): (after: Net)
    requires Shaped(g, net) && i < |net.parts|
    ensures Shaped(g, after)
  {
    var part := net.parts[i];
    if i == 0 then net.(sub := AfterStep(net.sub, g.periods[0], now)) else
    var failures := net.sub.failures + if OnPeriod(now, g.periods[i]) then 0 else 1;
    match Publication(part.messageIndex, g.numMessages, g.periods[i], now)
    case None => net.(sub := net.sub.(failures := failures))
    case Some(message) =>
      net.(parts := net.parts[i := part.(messageIndex := part.messageIndex + 1)],
           chan := net.chan[(i, 0) := net.chan[(i, 0)] + [Data(message)]])
  }

  function StepTaken(g: Config, net: Net, i: nat): (after: Net)
    requires Shaped(g, net) && i < |net.parts|
    ensures Shaped(g, after)
  {
    var part := net.parts[i];
    if HopsOn(part.conf) then net.(parts := net.parts[i := part.(aborted := true, pending := false)])
    else
      var conf := Advanced(part.conf);
      var advanced := net.(parts := net.parts[i := part.(conf := conf, steps := part.steps + 1)]);
      Requested(g, Handled(g, advanced, i, conf.current.timePoint), i)
  }

  function Delivered(g: Config, net: Net, from: nat, to: nat): (after: Net)
    requires Shaped(g, net) && Enabled(net, Deliver(from, to))
    ensures Shaped(g, after)
  {
    var queue := net.chan[(from, to)];
    var rest := net.(chan := net.chan[(from, to) := queue[1..]]);
    match queue[0]
    case Announce(task) =>
      var part := net.parts[to];
      rest.(parts := net.parts[to := part.(conf := TimeConfiguration.Received(part.conf, from, task),
                                           pending := part.pending || part.started)])
    case Data(message) =>
      if to != 0 || from == 0 then rest
      else rest.(sub := AfterMessage(net.sub, g.periods, from - 1, g.numMessages, message))
  }

  /** A step that is not enabled leaves the state alone. */
  function Apply(g: Config, net: Net, step: Step): (after: Net)
    requires Shaped(g, net)
    ensures Shaped(g, after)
  {
    if !Enabled(net, step) then net else
    match step
    case Start(i) => Requested(g, net.(parts := net.parts[i := net.parts[i].(started := true)]), i)
    case TakeStep(i) => StepTaken(g, net, i)
    case Check(i) => net.(parts := net.parts[i := net.parts[i].(pending := false)])
    case Deliver(from, to) => Delivered(g, net, from, to)
  }

  /** The state after a schedule; its last element acts last. */
  function Run(g: Config, run: seq<Step>): (net: Net)
    requires Proper(g)
    ensures Shaped(g, net)
  {
    if run == [] then Initial(g) else Apply(g, Run(g, run[..|run| - 1]), run[|run| - 1])
  }

  // ----- what a channel holds -----

  function Following(known: int, p: int): int { if known == -1 then 0 else known + p }

  /**
   Reading `queue` takes the receiver from the announced time `known` and the message
   number `index` to `lastKnown` and `lastIndex`.  Announcements follow each other by the
   period, and a message carries the time announced last.
   */
  ghost predicate Flow(queue: seq<Item>, known: int, index: nat, p: int, carries: bool, lastKnown: int,
                       lastIndex: nat) {
    if queue == [] then known == lastKnown && index == lastIndex else
    match queue[0]
    case Announce(task) =>
      task == Task(Following(known, p), p) && Flow(queue[1..], task.timePoint, index, p, carries, lastKnown, lastIndex)
    case Data(message) =>
      && carries && known >= 0 && known == At(p, index) && message == Message(known, index)
      && Flow(queue[1..], known, index + 1, p, carries, lastKnown, lastIndex)
  }

  lemma {:induction false} FlowAnnounce(queue: seq<Item>, known: int, index: nat, p: int, carries: bool,
                                        last: int, lastIndex: nat)
    requires Flow(queue, known, index, p, carries, last, lastIndex)
    ensures Flow(queue + [Announce(Task(Following(last, p), p))], known, index, p, carries,
                 Following(last, p), lastIndex)
  {
    hide At;
    var after := queue + [Announce(Task(Following(last, p), p))];
    if queue == [] {
      assert after[1..] == [];
    } else {
      assert after[1..] == queue[1..] + [Announce(Task(Following(last, p), p))];
      match queue[0]
      case Announce(task) => FlowAnnounce(queue[1..], task.timePoint, index, p, carries, last, lastIndex);
      case Data(message) => FlowAnnounce(queue[1..], known, index + 1, p, carries, last, lastIndex);
    }
  }

  lemma {:induction false} FlowData(queue: seq<Item>, known: int, index: nat, p: int, carries: bool, last: int,
                                    lastIndex: nat)
    requires Flow(queue, known, index, p, carries, last, lastIndex)
    requires carries && last >= 0 && last == At(p, lastIndex)
    ensures Flow(queue + [Data(Message(last, lastIndex))], known, index, p, carries, last, lastIndex + 1)
  {
    hide At;
    var after := queue + [Data(Message(last, lastIndex))];
    if queue == [] {
      assert after[1..] == [];
    } else {
      assert after[1..] == queue[1..] + [Data(Message(last, lastIndex))];
      match queue[0]
      case Announce(task) => FlowData(queue[1..], task.timePoint, index, p, carries, last, lastIndex);
      case Data(message) => FlowData(queue[1..], known, index + 1, p, carries, last, lastIndex);
    }
  }

  lemma {:induction false} FlowBounds(queue: seq<Item>, known: int, index: nat, p: int, carries: bool,
                                      last: int, lastIndex: nat)
    requires Flow(queue, known, index, p, carries, last, lastIndex) && p > 0 && known >= -1
    ensures known <= last && index <= lastIndex
  {
    hide At;
    if queue != [] {
      match queue[0]
      case Announce(task) => FlowBounds(queue[1..], task.timePoint, index, p, carries, last, lastIndex);
      case Data(message) => FlowBounds(queue[1..], known, index + 1, p, carries, last, lastIndex);
    }
  }

  // ----- the inductive invariant -----

  function Announced(part: Part): int { if part.started then part.conf.next.timePoint else -1 }

  ghost predicate PartOk(g: Config, net: Net, i: nat)
    requires Shaped(g, net) && i < |net.parts|
  {
    var part, p := net.parts[i], g.periods[i];
    && part.conf.next == Task(At(p, part.steps), p)
    && part.conf.current == (if part.steps == 0 then UNKNOWN else Task(At(p, part.steps - 1), p))
    && !part.conf.hoppedOn && !part.aborted && (part.steps > 0 ==> part.started)
    && part.lastSent == Announced(part)
    && (part.started && !part.pending ==> OtherLower(part.conf))
    && part.messageIndex == (if i == 0 then 0 else Min(part.steps, g.numMessages))
    && forall j :: j in part.conf.others ==> j < |net.parts| && j != i
  }

  predicate Carries(from: nat, to: nat) { to == 0 && from > 0 }

  ghost predicate PairOk(g: Config, net: Net, from: nat, to: nat)
    requires Shaped(g, net) && from < |net.parts| && to < |net.parts| && from != to
  {
    var o, part, p := net.parts[to].conf.others[from], net.parts[from], g.periods[from];
    && Flow(net.chan[(from, to)], o.timePoint, if Carries(from, to) then net.sub.received[from - 1] else 0, p,
            Carries(from, to), Announced(part), if Carries(from, to) then part.messageIndex else 0)
    && (o == UNKNOWN || (o.duration == p && o.timePoint >= 0))
    && (net.parts[to].steps > 0 ==> net.parts[to].conf.current.timePoint <= o.timePoint)
  }

  ghost predicate SubOk(g: Config, net: Net)
    requires Shaped(g, net)
  {
    && net.sub.currentTime == (if net.parts[0].steps == 0 then 0 else net.parts[0].conf.current.timePoint)
    && net.sub.failures == 0
    && net.sub.stops == Hits(Total(net.sub.received), g.numMessages * |net.sub.received|)
  }

  ghost predicate Inv(g: Config, net: Net) {
    && Shaped(g, net)
    && (forall i :: 0 <= i < |net.parts| ==> PartOk(g, net, i))
    && (forall i, j :: 0 <= i < |net.parts| && 0 <= j < |net.parts| && i != j ==> PairOk(g, net, i, j))
    && SubOk(g, net)
  }

  lemma {:induction false} InitialInv(g: Config)
    requires Proper(g)
    ensures Inv(g, Initial(g))
  {
    var net := Initial(g);
    ZeroTotal(|net.sub.received|);
    forall i | 0 <= i < |net.parts| ensures PartOk(g, net, i) {
      AtNext(g.periods[i], 0);
    }
    hide At;
    forall i, j | 0 <= i < |net.parts| && 0 <= j < |net.parts| && i != j ensures PairOk(g, net, i, j) {
    }
  }

  lemma {:induction false} ZeroTotal(n: nat)
    ensures Total(seq(n, _ => 0)) == 0
  {
    if n > 0 {
      var zeros := seq(n, _ => 0);
      assert zeros[..n - 1] == seq(n - 1, _ => 0);
      ZeroTotal(n - 1);
    }
  }

  // ----- what one event does to the whole network -----

  /** The message for `k`, if any, of a step that participant `i` takes at `now`. */
  function Messages(g: Config, index: nat, i: nat, k: nat, now: int): seq<Item> {
    if Carries(i, k) && index < g.numMessages then [Data(Message(now, index))] else []
  }

  /** What participant `i` puts on its channel to `k` when it takes its next step. */
  function Outgoing(g: Config, part: Part, i: nat, k: nat): seq<Item> {
    var t := part.conf.next;
    Messages(g, part.messageIndex, i, k, t.timePoint) + [Announce(t.(timePoint := t.timePoint + t.duration))]
  }

  ghost predicate Appended(net: Net, after: Net, i: nat, k: nat, items: seq<Item>) {
    (i, k) in net.chan && (i, k) in after.chan && after.chan[(i, k)] == net.chan[(i, k)] + items
  }

  ghost predicate OthersSame(net: Net, after: Net, i: nat)
  {
    && |after.parts| == |net.parts|
    && (forall k :: 0 <= k < |net.parts| && k != i ==> after.parts[k] == net.parts[k])
    && (forall p :: p in net.chan && p.0 != i ==> p in after.chan && after.chan[p] == net.chan[p])
  }

  lemma {:induction false} StartEffect(g: Config, net: Net, i: nat)
    requires Inv(g, net) && Enabled(net, Start(i))
    ensures var after := Apply(g, net, Start(i));
            && OthersSame(net, after, i) && after.sub == net.sub
            && after.parts[i] == net.parts[i].(started := true, lastSent := 0, pending := true)
            && forall k :: 0 <= k < |net.parts| && k != i
                 ==> Appended(net, after, i, k, [Announce(Task(0, g.periods[i]))])
  {
    assert PartOk(g, net, i);
    AtNext(g.periods[i], 0);
    hide At;
  }

  lemma {:induction false} NoHopOn(g: Config, net: Net, i: nat)
    requires Inv(g, net) && i < |net.parts|
    ensures !HopsOn(net.parts[i].conf)
  {
    hide At;
    assert PartOk(g, net, i);
    var conf := net.parts[i].conf;
    if net.parts[i].steps == 0 {
      AtNext(g.periods[i], 0);
      forall j | j in conf.others ensures !Ahead(conf, j) {
        NotAhead(g, net, i, j);
      }
    } else {
      AtMonotone(g.periods[i], 0, net.parts[i].steps - 1);
      AtNext(g.periods[i], 0);
    }
  }

  /** No channel can carry its receiver beyond what the sender has announced. */
  lemma {:induction false} KnownBound(g: Config, net: Net, from: nat, to: nat)
    requires Inv(g, net) && from < |net.parts| && to < |net.parts| && from != to
    ensures net.parts[to].conf.others[from].timePoint <= Announced(net.parts[from])
  {
    hide At, Flow;
    assert PairOk(g, net, from, to);
    FlowBounds(net.chan[(from, to)], net.parts[to].conf.others[from].timePoint,
               if Carries(from, to) then net.sub.received[from - 1] else 0, g.periods[from], Carries(from, to),
               Announced(net.parts[from]), if Carries(from, to) then net.parts[from].messageIndex else 0);
  }

  /** Before its first step, a participant knows of none that has gone beyond its own first step. */
  lemma {:induction false} NotAhead(g: Config, net: Net, i: nat, j: nat)
    requires Inv(g, net) && i < |net.parts| && net.parts[i].steps == 0 && j in net.parts[i].conf.others
    ensures !Ahead(net.parts[i].conf, j)
  {
    hide At, Flow;
    assert PartOk(g, net, i) && PartOk(g, net, j) && PairOk(g, net, j, i) && PairOk(g, net, i, j);
    KnownBound(g, net, j, i);
    KnownBound(g, net, i, j);
    AtNext(g.periods[i], 0);
    AtNext(g.periods[j], 0);
    AtNext(g.periods[j], 1);
    var steps := net.parts[j].steps;
    AtMonotone(g.periods[j], steps, 1);
    if steps > 1 {
      AtMonotone(g.periods[j], 1, steps - 1);
    }
  }

  /** The handler's part of a step: at most one message, and no failed assertion. */
  lemma {:induction false} HandlerEffect(g: Config, net: Net, i: nat, now: int)
    requires Shaped(g, net) && i < |net.parts| && OnPeriod(now, g.periods[i])
    ensures var after, part := Handled(g, net, i, now), net.parts[i];
            && OthersSame(net, after, i)
            && after.sub == (if i == 0 then net.sub.(currentTime := now) else net.sub)
            && after.parts[i] == part.(messageIndex := part.messageIndex
                                                       + if i > 0 && part.messageIndex < g.numMessages then 1 else 0)
            && forall k :: 0 <= k < |net.parts| && k != i ==>
                 Appended(net, after, i, k, Messages(g, part.messageIndex, i, k, now))
  {
    var after, part := Handled(g, net, i, now), net.parts[i];
    hide OnPeriod;
    forall k | 0 <= k < |net.parts| && k != i
      ensures Appended(net, after, i, k, Messages(g, part.messageIndex, i, k, now))
    {
      assert (i, k) in net.chan;
      assert net.chan[(i, k)] + [] == net.chan[(i, k)];
      assert k != 0 ==> (i, k) != (i, 0);
    }
  }

  lemma {:induction false} RequestEffect(g: Config, net: Net, i: nat)
    requires Shaped(g, net) && i < |net.parts| && net.parts[i].lastSent != net.parts[i].conf.next.timePoint
    ensures var after, next := Requested(g, net, i), net.parts[i].conf.next;
            && OthersSame(net, after, i) && after.sub == net.sub
            && after.parts[i] == net.parts[i].(lastSent := next.timePoint, pending := true)
            && forall k :: (i, k) in net.chan ==> Appended(net, after, i, k, [Announce(next)])
  {
  }

  /** Everything a step of participant `i` changes. */
  ghost predicate Effect(g: Config, net: Net, after: Net, i: nat)
    requires i < |net.parts|
  {
    var part := net.parts[i];
    && OthersSame(net, after, i)
    && after.sub == (if i == 0 then net.sub.(currentTime := part.conf.next.timePoint) else net.sub)
    && after.parts[i] == part.(conf := Advanced(part.conf), steps := part.steps + 1, pending := true,
                               lastSent := part.conf.next.timePoint + part.conf.next.duration,
                               messageIndex := NextIndexOf(g, part, i))
    && forall k :: 0 <= k < |net.parts| && k != i ==> Appended(net, after, i, k, Outgoing(g, part, i, k))
  }

  function NextIndexOf(g: Config, part: Part, i: nat): nat {
    part.messageIndex + if i > 0 && part.messageIndex < g.numMessages then 1 else 0
  }

  /** The network after `AdvanceTimeStep`, before the handler runs. */
  function WithAdvanced(net: Net, i: nat): Net
    requires i < |net.parts|
  {
    var part := net.parts[i];
    net.(parts := net.parts[i := part.(conf := Advanced(part.conf), steps := part.steps + 1)])
  }

  lemma {:induction false} StepIs(g: Config, net: Net, i: nat)
    requires Inv(g, net) && Enabled(net, TakeStep(i))
    ensures Shaped(g, WithAdvanced(net, i))
    ensures Apply(g, net, TakeStep(i)) ==
            Requested(g, Handled(g, WithAdvanced(net, i), i, net.parts[i].conf.next.timePoint), i)
    ensures OnPeriod(net.parts[i].conf.next.timePoint, g.periods[i]) && net.parts[i].conf.next.duration > 0
    ensures net.parts[i].lastSent == net.parts[i].conf.next.timePoint
  {
    hide At, Flow, HopsOn, OtherLower, Handled, Requested, Broadcast;
    assert PartOk(g, net, i);
    NoHopOn(g, net, i);
    AtDivides(g.periods[i], net.parts[i].steps);
  }

  lemma {:induction false} AppendedTwice(net: Net, mid: Net, after: Net, i: nat, k: nat, x: seq<Item>, y: seq<Item>)
    requires Appended(net, mid, i, k, x) && Appended(mid, after, i, k, y)
    ensures Appended(net, after, i, k, x + y)
  {
  }

  lemma {:induction false} HandlerParts(g: Config, net: Net, i: nat, now: int)
    requires Shaped(g, net) && i < |net.parts| && OnPeriod(now, g.periods[i])
    ensures var after, part := Handled(g, net, i, now), net.parts[i];
            && Shaped(g, after) && OthersSame(net, after, i) && |after.parts| == |net.parts|
            && after.sub == (if i == 0 then net.sub.(currentTime := now) else net.sub)
            && after.parts[i] == part.(messageIndex := NextIndexOf(g, part, i))
  {
    HandlerEffect(g, net, i, now);
    hide OnPeriod, Handled, Messages, Appended;
  }

  lemma {:induction false} RequestParts(g: Config, net: Net, i: nat)
    requires Shaped(g, net) && i < |net.parts| && net.parts[i].lastSent != net.parts[i].conf.next.timePoint
    ensures var after, next := Requested(g, net, i), net.parts[i].conf.next;
            && OthersSame(net, after, i) && |after.parts| == |net.parts| && after.sub == net.sub
            && after.parts[i] == net.parts[i].(lastSent := next.timePoint, pending := true)
  {
    RequestEffect(g, net, i);
    hide Requested, Appended;
  }

  lemma {:induction false} AdvancedFacts(net: Net, i: nat)
    requires i < |net.parts|
    ensures var after, part := WithAdvanced(net, i), net.parts[i];
            && |after.parts| == |net.parts| && after.chan == net.chan && after.sub == net.sub
            && after.parts[i] == part.(conf := Advanced(part.conf), steps := part.steps + 1)
            && Advanced(part.conf).next == NextTask(part)
            && NextTask(part).timePoint == part.conf.next.timePoint + part.conf.next.duration
  {
  }

  function NextTask(part: Part): Task {
    part.conf.next.(timePoint := part.conf.next.timePoint + part.conf.next.duration)
  }

  lemma {:induction false} PartsCompose(g: Config, part: Part, i: nat, advanced: Part, handled: Part, after: Part)
    requires advanced == part.(conf := Advanced(part.conf), steps := part.steps + 1)
    requires handled == advanced.(messageIndex := NextIndexOf(g, advanced, i))
    requires after == handled.(lastSent := handled.conf.next.timePoint, pending := true)
    ensures after == part.(conf := Advanced(part.conf), steps := part.steps + 1, pending := true,
                           lastSent := part.conf.next.timePoint + part.conf.next.duration,
                           messageIndex := NextIndexOf(g, part, i))
  {
  }

  lemma {:induction false} StepParts(g: Config, net: Net, i: nat)
    requires Inv(g, net) && Enabled(net, TakeStep(i))
    ensures var after, part := Apply(g, net, TakeStep(i)), net.parts[i];
            && |after.parts| == |net.parts|
            && after.sub == (if i == 0 then net.sub.(currentTime := part.conf.next.timePoint) else net.sub)
            && after.parts[i] == part.(conf := Advanced(part.conf), steps := part.steps + 1, pending := true,
                                       lastSent := part.conf.next.timePoint + part.conf.next.duration,
                                       messageIndex := NextIndexOf(g, part, i))
  {
    StepIs(g, net, i);
    assert i < |net.parts|;
    hide Inv, Apply, Enabled, Handled, Requested, OnPeriod, OthersSame, Shaped, WithAdvanced, Advanced, NextTask,
        NextIndexOf;
    var now, advanced := net.parts[i].conf.next.timePoint, WithAdvanced(net, i);
    AdvancedFacts(net, i);
    HandlerParts(g, advanced, i, now);
    var handled := Handled(g, advanced, i, now);
    RequestParts(g, handled, i);
    PartsCompose(g, net.parts[i], i, advanced.parts[i], handled.parts[i], Requested(g, handled, i).parts[i]);
  }

  lemma {:induction false} StepOthers(g: Config, net: Net, i: nat)
    requires Inv(g, net) && Enabled(net, TakeStep(i))
    ensures OthersSame(net, Apply(g, net, TakeStep(i)), i)
  {
    StepIs(g, net, i);
    assert i < |net.parts|;
    hide Inv, Apply, Enabled, Handled, Requested, OnPeriod, OthersSame, Shaped, WithAdvanced, Advanced, NextTask,
        NextIndexOf;
    var now, advanced := net.parts[i].conf.next.timePoint, WithAdvanced(net, i);
    AdvancedFacts(net, i);
    HandlerParts(g, advanced, i, now);
    var handled := Handled(g, advanced, i, now);
    RequestParts(g, handled, i);
    AdvancedOthers(net, i);
    OthersTwice(net, advanced, handled, i);
    OthersTwice(net, handled, Requested(g, handled, i), i);
  }

  lemma {:induction false} AdvancedOthers(net: Net, i: nat)
    requires i < |net.parts|
    ensures OthersSame(net, WithAdvanced(net, i), i)
  {
  }

  lemma {:induction false} OthersTwice(net: Net, mid: Net, after: Net, i: nat)
    requires OthersSame(net, mid, i) && OthersSame(mid, after, i)
    ensures OthersSame(net, after, i)
  {
  }

  lemma {:induction false} HandlerChannel(g: Config, net: Net, i: nat, k: nat, now: int)
    requires Shaped(g, net) && i < |net.parts| && OnPeriod(now, g.periods[i]) && k < |net.parts| && k != i
    ensures var after := Handled(g, net, i, now);
            && Shaped(g, after) && i < |after.parts| && after.parts[i].conf == net.parts[i].conf
            && after.parts[i].lastSent == net.parts[i].lastSent
            && Appended(net, after, i, k, Messages(g, net.parts[i].messageIndex, i, k, now))
  {
    HandlerEffect(g, net, i, now);
    hide OnPeriod, Handled, Messages, Appended, OthersSame;
  }

  lemma {:induction false} RequestChannel(g: Config, net: Net, i: nat, k: nat)
    requires Shaped(g, net) && i < |net.parts| && net.parts[i].lastSent != net.parts[i].conf.next.timePoint
    requires (i, k) in net.chan
    ensures Appended(net, Requested(g, net, i), i, k, [Announce(net.parts[i].conf.next)])
  {
    RequestEffect(g, net, i);
  }

  lemma {:induction false} OutgoingIs(g: Config, part: Part, i: nat, k: nat)
    ensures Outgoing(g, part, i, k) ==
            Messages(g, part.messageIndex, i, k, part.conf.next.timePoint) + [Announce(NextTask(part))]
  {
  }

  lemma {:induction false} StepChannel(g: Config, net: Net, i: nat, k: nat)
    requires Inv(g, net) && Enabled(net, TakeStep(i)) && k < |net.parts| && k != i
    ensures Appended(net, Apply(g, net, TakeStep(i)), i, k, Outgoing(g, net.parts[i], i, k))
  {
    StepIs(g, net, i);
    assert i < |net.parts|;
    hide Inv, Apply, Enabled, Handled, Requested, Messages, OnPeriod, Shaped, Appended, WithAdvanced, Advanced,
        Outgoing, NextTask;
    var part, advanced := net.parts[i], WithAdvanced(net, i);
    AdvancedFacts(net, i);
    OutgoingIs(g, part, i, k);
    var messages := Messages(g, part.messageIndex, i, k, part.conf.next.timePoint);
    HandlerChannel(g, advanced, i, k, part.conf.next.timePoint);
    var handled := Handled(g, advanced, i, part.conf.next.timePoint);
    SameChannels(net, advanced, handled, i, k, messages);
    InChannels(net, handled, i, k, messages);
    RequestChannel(g, handled, i, k);
    AppendedTwice(net, handled, Requested(g, handled, i), i, k, messages, [Announce(NextTask(part))]);
  }

  lemma {:induction false} InChannels(net: Net, after: Net, i: nat, k: nat, x: seq<Item>)
    requires Appended(net, after, i, k, x)
    ensures (i, k) in after.chan
  {
  }

  lemma {:induction false} StepEffect(g: Config, net: Net, i: nat)
    requires Inv(g, net) && Enabled(net, TakeStep(i))
    ensures Effect(g, net, Apply(g, net, TakeStep(i)), i)
  {
    StepParts(g, net, i);
    StepOthers(g, net, i);
    assert i < |net.parts|;
    StepChannels(g, net, i);
    hide Inv, Apply, Enabled, Appended, OthersSame, Outgoing, Advanced, NextIndexOf, OtherLower, Shaped;
  }

  lemma {:induction false} StepChannels(g: Config, net: Net, i: nat)
    requires Inv(g, net) && Enabled(net, TakeStep(i))
    ensures forall k :: 0 <= k < |net.parts| && k != i ==>
              Appended(net, Apply(g, net, TakeStep(i)), i, k, Outgoing(g, net.parts[i], i, k))
  {
    assert i < |net.parts|;
    hide Inv, Apply, Enabled, Appended, Outgoing, Shaped;
    forall k | 0 <= k < |net.parts| && k != i
      ensures Appended(net, Apply(g, net, TakeStep(i)), i, k, Outgoing(g, net.parts[i], i, k))
    {
      StepChannel(g, net, i, k);
    }
  }

  lemma {:induction false} SameChannels(net: Net, advanced: Net, after: Net, i: nat, k: nat, x: seq<Item>)
    requires net.chan == advanced.chan && Appended(advanced, after, i, k, x)
    ensures Appended(net, after, i, k, x)
  {
  }

  // ----- preservation -----

  lemma {:induction false} StartKeepsInv(g: Config, net: Net, i: nat)
    requires Inv(g, net) && Enabled(net, Start(i))
    ensures Inv(g, Apply(g, net, Start(i)))
  {
    hide At, Flow;
    StartEffect(g, net, i);
    var after := Apply(g, net, Start(i));
    hide Apply;
    AtNext(g.periods[i], 0);
    forall k | 0 <= k < |net.parts| ensures PartOk(g, after, k) {
      assert PartOk(g, net, k);
    }
    forall from, to | 0 <= from < |net.parts| && 0 <= to < |net.parts| && from != to
      ensures PairOk(g, after, from, to)
    {
      assert PairOk(g, net, from, to);
      if from == i {
        assert PartOk(g, net, from);
        assert Appended(net, after, i, to, [Announce(Task(0, g.periods[i]))]);
        FlowAnnounce(net.chan[(from, to)], net.parts[to].conf.others[from].timePoint,
                     if Carries(from, to) then net.sub.received[from - 1] else 0, g.periods[from], Carries(from, to),
                     -1, if Carries(from, to) then net.parts[from].messageIndex else 0);
      }
    }
  }

  lemma {:induction false} OutgoingFlow(g: Config, part: Part, i: nat, k: nat, queue: seq<Item>, known: int, index: nat)
    requires var p, c := part.conf.next.duration, Carries(i, k);
             && p > 0 && part.conf.next.timePoint == At(p, part.steps)
             && (c ==> part.messageIndex == Min(part.steps, g.numMessages))
             && Flow(queue, known, index, p, c, part.conf.next.timePoint, if c then part.messageIndex else 0)
    ensures var p, c := part.conf.next.duration, Carries(i, k);
            Flow(queue + Outgoing(g, part, i, k), known, index, p, c, part.conf.next.timePoint + p,
                 if c then NextIndexOf(g, part, i) else 0)
  {
    hide At, Flow;
    var p, c, t := part.conf.next.duration, Carries(i, k), part.conf.next.timePoint;
    AtMonotone(p, 0, part.steps);
    AtNext(p, 0);
    var announce := Announce(Task(t + p, p));
    if c && part.messageIndex < g.numMessages {
      var data := Data(Message(t, part.messageIndex));
      FlowData(queue, known, index, p, c, t, part.messageIndex);
      FlowAnnounce(queue + [data], known, index, p, c, t, part.messageIndex + 1);
      assert queue + [data] + [announce] == queue + Outgoing(g, part, i, k);
    } else {
      FlowAnnounce(queue, known, index, p, c, t, if c then part.messageIndex else 0);
      assert [] + [announce] == [announce];
    }
  }

  lemma {:induction false} SenderPair(g: Config, net: Net, after: Net, i: nat, to: nat)
    requires Inv(g, net) && Enabled(net, TakeStep(i)) && Shaped(g, after) && Effect(g, net, after, i)
    requires to < |net.parts| && to != i
    ensures PairOk(g, after, i, to)
  {
    hide At, Flow, NextIndexOf, Outgoing;
    assert PairOk(g, net, i, to) && PartOk(g, net, i);
    hide Inv, PartOk;
    var known := net.parts[to].conf.others[i].timePoint;
    OutgoingFlow(g, net.parts[i], i, to, net.chan[(i, to)], known,
                 if Carries(i, to) then net.sub.received[i - 1] else 0);
    assert Appended(net, after, i, to, Outgoing(g, net.parts[i], i, to));
  }

  lemma {:induction false} ReceiverPair(g: Config, net: Net, after: Net, i: nat, from: nat)
    requires Inv(g, net) && Enabled(net, TakeStep(i)) && Shaped(g, after) && Effect(g, net, after, i)
    requires from < |net.parts| && from != i
    ensures PairOk(g, after, from, i)
  {
    hide At, Flow;
    assert PairOk(g, net, from, i);
    assert (from, i) in net.chan;
  }

  lemma {:induction false} OtherPair(g: Config, net: Net, after: Net, i: nat, from: nat, to: nat)
    requires Inv(g, net) && Shaped(g, after) && i < |net.parts| && Effect(g, net, after, i)
    requires from < |net.parts| && to < |net.parts| && from != to && from != i && to != i
    ensures PairOk(g, after, from, to)
  {
    hide At, Flow;
    assert PairOk(g, net, from, to);
    assert (from, to) in net.chan;
  }

  lemma {:induction false} StepKeepsPart(g: Config, net: Net, after: Net, i: nat)
    requires Inv(g, net) && Enabled(net, TakeStep(i)) && Shaped(g, after) && Effect(g, net, after, i)
    ensures PartOk(g, after, i)
  {
    hide At, Flow;
    assert PartOk(g, net, i);
    hide Inv;
    AtNext(g.periods[i], net.parts[i].steps);
  }

  lemma {:induction false} StepKeepsSub(g: Config, net: Net, after: Net, i: nat)
    requires Inv(g, net) && Enabled(net, TakeStep(i)) && Shaped(g, after) && Effect(g, net, after, i)
    ensures SubOk(g, after)
  {
    hide At, Flow, Hits, Total;
    assert PartOk(g, net, 0);
  }

  lemma {:induction false} TakeStepKeepsInv(g: Config, net: Net, i: nat)
    requires Inv(g, net) && Enabled(net, TakeStep(i))
    ensures Inv(g, Apply(g, net, TakeStep(i)))
  {
    var after := Apply(g, net, TakeStep(i));
    StepEffect(g, net, i);
    hide Apply, PartOk, PairOk, SubOk;
    StepKeepsPart(g, net, after, i);
    StepKeepsSub(g, net, after, i);
    forall k | 0 <= k < |net.parts| ensures PartOk(g, after, k) {
      if k != i {
        OtherPart(g, net, after, k);
      }
    }
    forall from, to | 0 <= from < |net.parts| && 0 <= to < |net.parts| && from != to
      ensures PairOk(g, after, from, to)
    {
      if from == i {
        SenderPair(g, net, after, i, to);
      } else if to == i {
        ReceiverPair(g, net, after, i, from);
      } else {
        OtherPair(g, net, after, i, from, to);
      }
    }
  }

  lemma {:induction false} OtherPart(g: Config, net: Net, after: Net, k: nat)
    requires Inv(g, net) && Shaped(g, after) && k < |net.parts| == |after.parts| && after.parts[k] == net.parts[k]
    ensures PartOk(g, after, k)
  {
    hide At;
    assert PartOk(g, net, k);
  }

  // ----- deliveries -----

  lemma {:induction false} AnnouncementPair(g: Config, net: Net, from: nat, to: nat, a: nat, b: nat)
    requires Inv(g, net) && Enabled(net, Deliver(from, to)) && net.chan[(from, to)][0].Announce?
    requires a < |net.parts| && b < |net.parts| && a != b
    ensures PairOk(g, Delivered(g, net, from, to), a, b)
  {
    hide At, OtherLower;
    assert PairOk(g, net, from, to) && PairOk(g, net, a, b) && (a, b) in net.chan;
    hide Inv, PartOk;
  }

  lemma {:induction false} AnnouncementKeepsInv(g: Config, net: Net, from: nat, to: nat)
    requires Inv(g, net) && Enabled(net, Deliver(from, to)) && net.chan[(from, to)][0].Announce?
    ensures Inv(g, Delivered(g, net, from, to))
  {
    hide At, Flow;
    var after := Delivered(g, net, from, to);
    assert PairOk(g, net, from, to) && PartOk(g, net, to);
    forall k | 0 <= k < |net.parts| ensures PartOk(g, after, k) {
      assert PartOk(g, net, k);
    }
    hide PairOk, PartOk;
    forall a, b | 0 <= a < |net.parts| && 0 <= b < |net.parts| && a != b ensures PairOk(g, after, a, b) {
      AnnouncementPair(g, net, from, to, a, b);
    }
  }

  /**
   The heart of the matter: a message that the subscriber receives was sent no earlier than
   the subscriber's last step and no later than one subscriber period after it.
   */
  lemma {:induction false} Window(g: Config, net: Net, from: nat)
    requires Inv(g, net) && 0 < from < |net.parts| && net.chan[(from, 0)] != [] && net.chan[(from, 0)][0].Data?
    ensures var m := net.chan[(from, 0)][0].message;
            && net.sub.currentTime <= m.sentTime <= net.sub.currentTime + g.periods[0]
            && m.index == net.sub.received[from - 1]
            && m.sentTime == At(g.periods[from], m.index)
            && m.index < net.parts[from].messageIndex
  {
    var part, o := net.parts[from], net.parts[0].conf.others[from];
    var queue, index := net.chan[(from, 0)], net.sub.received[from - 1];
    assert PairOk(g, net, from, 0) && PairOk(g, net, 0, from) && PartOk(g, net, 0) && PartOk(g, net, from);
    hide At;
    FlowBounds(queue[1..], o.timePoint, index + 1, g.periods[from], true, Announced(part), part.messageIndex);
    hide Flow;
    AtMonotone(g.periods[from], index, part.steps - 1);
    KnownBound(g, net, 0, from);
    AtNext(g.periods[0], 0);
    AtNext(g.periods[0], net.parts[0].steps - 1);
  }

  lemma {:induction false} MessageAccepted(g: Config, net: Net, from: nat)
    requires Inv(g, net) && 0 < from < |net.parts| && net.chan[(from, 0)] != [] && net.chan[(from, 0)][0].Data?
    ensures Accepted(net.sub, g.periods, from - 1, net.chan[(from, 0)][0].message)
  {
    Window(g, net, from);
    AtDivides(g.periods[from], net.sub.received[from - 1]);
    hide At, Inv;
  }

  lemma {:induction false} MessageKeepsInv(g: Config, net: Net, from: nat, to: nat)
    requires Inv(g, net) && Enabled(net, Deliver(from, to)) && net.chan[(from, to)][0].Data?
    ensures Inv(g, Delivered(g, net, from, to))
  {
    hide At, Accepted;
    assert PairOk(g, net, from, to);
    assert to == 0 && from > 0;
    MessageAccepted(g, net, from);
    var after := Delivered(g, net, from, to);
    assert after.sub == Counted(net.sub, from - 1, g.numMessages) && after.parts == net.parts;
    StopsAreHits(net.sub, from - 1, g.numMessages);
    hide Hits, Total, Expected, Flow;
    forall k | 0 <= k < |net.parts| ensures PartOk(g, after, k) {
      assert PartOk(g, net, k);
    }
    hide PairOk, PartOk, Delivered;
    forall a, b | 0 <= a < |net.parts| && 0 <= b < |net.parts| && a != b ensures PairOk(g, after, a, b) {
      MessagePair(g, net, from, a, b);
    }
  }

  lemma {:induction false} MessagePair(g: Config, net: Net, from: nat, a: nat, b: nat)
    requires Inv(g, net) && Enabled(net, Deliver(from, 0)) && net.chan[(from, 0)][0].Data?
    requires a < |net.parts| && b < |net.parts| && a != b
    requires from > 0 && Accepted(net.sub, g.periods, from - 1, net.chan[(from, 0)][0].message)
    ensures PairOk(g, Delivered(g, net, from, 0), a, b)
  {
    hide At, Accepted, PartOk, Expected, Hits, Total, SubOk;
    assert PairOk(g, net, a, b) && (a, b) in net.chan && (from, 0) in net.chan;
    hide Inv, Shaped;
    if (a, b) != (from, 0) { hide Flow; }
  }

  lemma {:induction false} CheckKeepsInv(g: Config, net: Net, i: nat)
    requires Inv(g, net) && Enabled(net, Check(i))
    ensures Inv(g, Apply(g, net, Check(i)))
  {
    hide At, Flow;
    var after := Apply(g, net, Check(i));
    forall k | 0 <= k < |net.parts| ensures PartOk(g, after, k) {
      assert PartOk(g, net, k);
    }
    forall a, b | 0 <= a < |net.parts| && 0 <= b < |net.parts| && a != b ensures PairOk(g, after, a, b) {
      assert PairOk(g, net, a, b);
    }
  }

  lemma {:induction false} ApplyKeepsInv(g: Config, net: Net, step: Step)
    requires Inv(g, net)
    ensures Inv(g, Apply(g, net, step))
  {
    hide Inv, StepTaken, Delivered, Requested;
    if Enabled(net, step) {
      match step
      case Start(i) => StartKeepsInv(g, net, i);
      case TakeStep(i) => TakeStepKeepsInv(g, net, i);
      case Check(i) => CheckKeepsInv(g, net, i);
      case Deliver(from, to) =>
        if net.chan[(from, to)][0].Data? {
          MessageKeepsInv(g, net, from, to);
        } else {
          AnnouncementKeepsInv(g, net, from, to);
        }
    }
  }

  lemma {:induction false} Reachable(g: Config, run: seq<Step>)
    requires Proper(g)
    ensures Inv(g, Run(g, run))
  {
    hide Inv, Apply;
    if run == [] {
      InitialInv(g);
    } else {
      var before := run[..|run| - 1];
      Reachable(g, before);
      ApplyKeepsInv(g, Run(g, before), run[|run| - 1]);
    }
  }

  // ----- results over every run -----

  /**
   Whichever message the subscriber receives next, its stamp lies in the closed window from
   the subscriber's last step to one period later, its index is the next one, and its stamp
   is that index times the publisher's period; with equal periods the stamp is the last step
   or the one after it.  So no assertion of either test ever fails.
   */
  lemma {:induction false} EveryMessageInWindow(g: Config, run: seq<Step>, from: nat)
    requires Proper(g) && Enabled(Run(g, run), Deliver(from, 0)) && Run(g, run).chan[(from, 0)][0].Data?
    ensures from > 0
    ensures var net := Run(g, run);
            var m, now, period := net.chan[(from, 0)][0].message, net.sub.currentTime, g.periods[0];
            && now <= m.sentTime <= now + period
            && m.index == net.sub.received[from - 1] && m.sentTime == At(g.periods[from], m.index)
            && (g.periods[from] == period ==> m.sentTime == now || m.sentTime == now + period)
            && Accepted(net.sub, g.periods, from - 1, m)
  {
    hide Run;
    Reachable(g, run);
    var net := Run(g, run);
    assert PairOk(g, net, from, 0) && PartOk(g, net, 0);
    hide At, Accepted;
    Window(g, net, from);
    MessageAccepted(g, net, from);
    var p, steps, index := g.periods[0], net.parts[0].steps, net.sub.received[from - 1];
    hide Inv, Flow, PairOk;
    var tick := if steps == 0 then 0 else steps - 1;
    AtNext(p, 0);
    AtNext(p, tick);
    AtMonotone(p, tick, index);
    AtMonotone(p, index, tick + 1);
  }

  /**
   On the wire a message is text.  What the subscriber reads from it is the message that
   the publisher sent, as long as its time stamp fits 64 bits.
   */
  lemma {:induction false} EveryMessageReadBack(g: Config, run: seq<Step>, from: nat)
    requires Proper(g) && Enabled(Run(g, run), Deliver(from, 0)) && Run(g, run).chan[(from, 0)][0].Data?
    requires g.numMessages < 0x1_0000_0000 && Run(g, run).chan[(from, 0)][0].message.sentTime < M.INT63
    ensures var m := Run(g, run).chan[(from, 0)][0].message;
            M.Parse(M.Print(m.sentTime, m.index)) == Some(M.Message("TestMessage", m.sentTime, m.index))
  {
    hide Run;
    Reachable(g, run);
    NothingFails(g, run);
    EveryMessageInWindow(g, run, from);
    var net := Run(g, run);
    var m := net.chan[(from, 0)][0].message;
    hide At, Accepted;
    Window(g, net, from);
    hide Inv, Flow;
    AtNext(g.periods[from], 0);
    AtMonotone(g.periods[from], 0, m.index);
    M.RoundTrip(m.sentTime, m.index);
  }

  lemma {:induction false} NothingFails(g: Config, run: seq<Step>)
    requires Proper(g)
    ensures var net := Run(g, run);
            && net.sub.failures == 0
            && (forall i :: 0 <= i < |net.parts| ==> !net.parts[i].aborted && !net.parts[i].conf.hoppedOn)
            && (forall i :: 0 < i < |net.parts| ==>
                  net.sub.received[i - 1] <= net.parts[i].messageIndex == Min(net.parts[i].steps, g.numMessages))
  {
    hide Run, At, Flow;
    Reachable(g, run);
    var net := Run(g, run);
    forall i | 0 <= i < |net.parts|
      ensures !net.parts[i].aborted && !net.parts[i].conf.hoppedOn
      ensures i > 0 ==> net.sub.received[i - 1] <= net.parts[i].messageIndex == Min(net.parts[i].steps, g.numMessages)
    {
      assert PartOk(g, net, i);
      if i > 0 {
        assert PairOk(g, net, i, 0);
        FlowBounds(net.chan[(i, 0)], net.parts[0].conf.others[i].timePoint, net.sub.received[i - 1], g.periods[i], true,
                   Announced(net.parts[i]), net.parts[i].messageIndex);
      }
    }
  }

  /** An announcement never goes back in time, and two steps of two participants never drift apart. */
  lemma {:induction false} Chronology(g: Config, run: seq<Step>, i: nat, j: nat)
    requires Proper(g) && i < |g.periods| && j < |g.periods| && i != j
    ensures var net := Run(g, run);
            net.chan[(i, j)] != [] && net.chan[(i, j)][0].Announce?
            ==> net.parts[j].conf.others[i].timePoint < net.chan[(i, j)][0].task.timePoint
    ensures var net := Run(g, run);
            net.parts[i].conf.current.timePoint <= net.parts[j].conf.current.timePoint + g.periods[j]
  {
    hide Run, At;
    Reachable(g, run);
    var net := Run(g, run);
    assert PairOk(g, net, i, j) && PairOk(g, net, j, i) && PartOk(g, net, i) && PartOk(g, net, j);
    hide Flow;
    KnownBound(g, net, j, i);
    AtNext(g.periods[j], 0);
    AtNext(g.periods[j], net.parts[j].steps - 1);
  }

  /**
   `Stop`, once every message of every publisher has been received: requested exactly once
   if and only if there are between one and 2^32 messages, and then not before the last.
   */
  lemma {:induction false} StopOnce(g: Config, run: seq<Step>)
    requires Proper(g)
    ensures var sub := Run(g, run).sub;
            (forall p :: 0 <= p < |sub.received| ==> sub.received[p] == g.numMessages)
            ==> (sub.stops == 1 <==> 1 <= g.numMessages * |sub.received| <= 0x1_0000_0000)
    ensures var sub := Run(g, run).sub;
            (exists p :: 0 <= p < |sub.received| && sub.received[p] != g.numMessages)
            ==> (g.numMessages * |sub.received| <= 0x1_0000_0000 ==> sub.stops == 0)
  {
    hide Run, PartOk, PairOk;
    Reachable(g, run);
    NothingFails(g, run);
    var net := Run(g, run);
    var counters := net.sub.received;
    var goal := g.numMessages * |counters|;
    forall p | 0 <= p < |counters| ensures counters[p] <= g.numMessages {
      assert net.sub.received[p + 1 - 1] <= net.parts[p + 1].messageIndex;
    }
    TotalBound(counters, g.numMessages);
    StopExactlyOnce(goal);
    if Total(counters) < goal <= UINT32 {
      NoEarlyStop(Total(counters), goal);
    }
  }

  /** A participant whose announced time is least. */
  lemma {:induction false} Least(net: Net, n: nat) returns (least: nat)
    requires 0 < n <= |net.parts|
    ensures least < n
    ensures forall k :: 0 <= k < n ==>
              net.parts[least].conf.next.timePoint <= net.parts[k].conf.next.timePoint
  {
    least := 0;
    if n > 1 {
      least := Least(net, n - 1);
      if net.parts[n - 1].conf.next.timePoint < net.parts[least].conf.next.timePoint {
        least := n - 1;
      }
    }
  }

  /**
   The participants never block one another, whatever their periods, although each looks
   only on an occasion: there is always one that can start, an item that can be delivered,
   or one with an occasion to look that then takes its step.
   */
  lemma {:induction false} Progress(g: Config, run: seq<Step>)
    requires Proper(g)
    ensures exists step :: Enabled(Run(g, run), step) && !step.Check?
  {
    hide Run, At;
    Reachable(g, run);
    var net := Run(g, run);
    if i: nat :| i < |net.parts| && !net.parts[i].started {
      assert Enabled(net, Start(i)) && !Start(i).Check?;
    } else if i: nat, j: nat :| i < |net.parts| && j < |net.parts| && i != j && net.chan[(i, j)] != [] {
      assert Enabled(net, Deliver(i, j)) && !Deliver(i, j).Check?;
    } else {
      var least := Least(net, |net.parts|);
      assert PartOk(g, net, least);
      forall j | j in net.parts[least].conf.others
        ensures net.parts[least].conf.next.timePoint <= net.parts[least].conf.others[j].timePoint
      {
        assert PairOk(g, net, j, least);
      }
      assert !OtherLower(net.parts[least].conf);
      assert Enabled(net, TakeStep(least)) && !TakeStep(least).Check?;
    }
  }
}
