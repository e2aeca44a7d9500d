/**
 The FlexRay demo node: what it tells its controller in each simulation step and in each
 status or wakeup callback.

 `React` is the specification; `FlexrayNode` is the node itself.  Commands to the
 controller are returned in the order in which they are given.  Times are in nanoseconds.
 */
module Flexray {

  import opened Arith

  const MS: nat := 1_000_000
  const UINT16: nat := 0x1_0000

  datatype Poc = DefaultConfig | Config | Ready | Startup | Wakeup | NormalActive | NormalPassive | Halt

  datatype Bus = Ignore | PerformWakeup | WaitForWakeup | WakeupDone

  datatype Channel = NoChannel | A | B | AB

  datatype Command =
    | Configure | SendWakeup | AllowColdstart | RunBus
    | UpdateTx(index: nat, message: nat) | ReconfigureTx(index: nat, channel: Channel)

  datatype Node = Node(
    poc: Poc, bus: Bus, configured: bool, startupDelay: nat,
    buffers: seq<Channel>,
    messages: nat)      // msgNumber + 1

  datatype Input = Step(now: nat) | Status(state: Poc) | WakeupEvent

  datatype Reaction = Reaction(node: Node, commands: seq<Command>)

  function Swap(c: Channel): Channel {
    match c
    case A => B
    case B => A
    case _ => c
  }

  function Swapped(buffers: seq<Channel>): (r: seq<Channel>)
    ensures |r| == |buffers|
  {
    seq(|buffers|, i requires 0 <= i < |buffers| => Swap(buffers[i]))
  }

  lemma {:induction false} SwappedAll(was: seq<Channel>, now: seq<Channel>)
    requires |now| == |was| && forall k :: 0 <= k < |was| ==> now[k] == Swap(was[k])
    ensures now == Swapped(was)
  {
  }

  /** The buffers that change are announced one by one. */
  function Announced(buffers: seq<Channel>): seq<Command> {
    if buffers == [] then [] else
    var last := |buffers| - 1;
    Announced(buffers[..last]) + if buffers[last] in {A, B} then [ReconfigureTx(last, Swap(buffers[last]))] else []
  }

  lemma {:induction false} AnnouncedNext(buffers: seq<Channel>, i: nat)
    requires i < |buffers|
    ensures Announced(buffers[..i + 1]) ==
            Announced(buffers[..i]) + if buffers[i] in {A, B} then [ReconfigureTx(i, Swap(buffers[i]))] else []
  {
    assert buffers[..i + 1][..i] == buffers[..i];
  }

  /** The increment of the 16-bit loop counter. */
  function Next16(idx: nat): (r: nat)
    ensures idx + 1 < UINT16 ==> r == idx + 1
  {
    (idx + 1) % UINT16
  }

  function PocReady(bus: Bus): seq<Command> {
    match bus
    case PerformWakeup => [SendWakeup]
    case WakeupDone => [AllowColdstart, RunBus]
    case _ => []
  }

  function ReconfigureAt(startupDelay: nat): nat { 100 * MS + startupDelay / MS * MS }

  /** The buffer that message `k` goes to. */
  function BufferOf(k: nat, buffers: nat): nat
    requires buffers > 0
  {
    k % buffers % UINT16
  }

  /** A step that returns: the swap does so only for fewer than 65536 buffers, see `SwapLoopEnds`. */
  function Act(n: Node, now: nat): Reaction {
    if now < n.startupDelay then Reaction(n, []) else
    match n.poc
    case DefaultConfig => Reaction(n.(configured := true), (if n.configured then [] else [Configure]) + PocReady(n.bus))
    case Ready => Reaction(n, PocReady(n.bus))
    case NormalActive =>
      if now == ReconfigureAt(n.startupDelay) then Reaction(n.(buffers := Swapped(n.buffers)), Announced(n.buffers))
      else if n.buffers == [] then Reaction(n, [])
      else Reaction(n.(messages := n.messages + 1), [UpdateTx(BufferOf(n.messages, |n.buffers|), n.messages)])
    case _ => Reaction(n, [])
  }

  function React(n: Node, input: Input): Reaction {
    match input
    case Step(now) => Act(n, now)
    case Status(state) =>
      Reaction(n.(poc := state, bus := if n.poc.Wakeup? && state.Ready? then WakeupDone else n.bus), [])
    case WakeupEvent => Reaction(n, [AllowColdstart, RunBus])
  }

  class FlexrayNode {
    var poc: Poc            // oldPocStatus.state
    var bus: Bus            // busState
    var configured: bool    // _configureCalled
    var startupDelay: nat
    var buffers: seq<Channel>
    var messages: nat

    ghost function State(): Node
      reads this
    {
      Node(poc, bus, configured, startupDelay, buffers, messages)
    }

    constructor (buffers: seq<Channel>)
      ensures State() == Node(DefaultConfig, Ignore, false, 0, buffers, 0)
    {
      poc, bus, configured, startupDelay, this.buffers, messages := DefaultConfig, Ignore, false, 0, buffers, 0;
    }

    method Init() returns (commands: seq<Command>)
      modifies this
      ensures State() == old(State()).(configured := true)
      ensures commands == if old(configured) then [] else [Configure]
    {
      if configured {
        return [];
      }
      commands := [Configure];
      configured := true;
    }

    /** The loop counter has 16 bits; see `SwapLoopEnds` for longer lists. */
    method ReconfigureTxBuffers() returns (commands: seq<Command>)
      requires |buffers| < UINT16
      modifies this
      ensures State() == old(State()).(buffers := Swapped(old(buffers)))
      ensures commands == Announced(old(buffers))
      ensures forall k :: 0 <= k < |buffers| ==> (buffers[k] == B <==> old(buffers)[k] == A)
      ensures forall k :: 0 <= k < |buffers| ==> (buffers[k] == A <==> old(buffers)[k] == B)
    {
      commands := [];
      var idx := 0;
      ghost var was := buffers;
      assert Announced(was[..0]) == [];
      hide Announced, Swapped;
      while idx < |buffers|
        invariant idx <= |buffers| == |was|
        invariant forall k :: 0 <= k < idx ==> buffers[k] == Swap(was[k])
        invariant forall k :: idx <= k < |was| ==> buffers[k] == was[k]
        invariant commands == Announced(was[..idx])
        invariant State() == old(State()).(buffers := buffers)
      {
        AnnouncedNext(was, idx);
        if buffers[idx] == A {
          buffers := buffers[idx := B];
          commands := commands + [ReconfigureTx(idx, B)];
        } else if buffers[idx] == B {
          buffers := buffers[idx := A];
          commands := commands + [ReconfigureTx(idx, A)];
        }
        idx := Next16(idx);
      }
      assert was[..|was|] == was;
      SwappedAll(was, buffers);
      hide Swap;
      forall k | 0 <= k < |was|
        ensures (buffers[k] == B <==> was[k] == A) && (buffers[k] == A <==> was[k] == B)
      {
        SwapsAB(was, k);
      }
    }

    method DoAction(now: nat) returns (commands: seq<Command>)
      requires now == ReconfigureAt(startupDelay) && poc.NormalActive? ==> |buffers| < UINT16
      modifies this
      ensures Reaction(State(), commands) == React(old(State()), Step(now))
    {
      commands := [];
      if now < startupDelay {
        return;
      }
      match poc
      case DefaultConfig =>
        commands := Init();
        var more := PocReadyAction();
        commands := commands + more;
      case Ready =>
        commands := PocReadyAction();
      case NormalActive =>
        if now == 100 * MS + startupDelay / MS * MS {
          commands := ReconfigureTxBuffers();
        } else if buffers != [] {
          commands := [UpdateTx(messages % |buffers| % UINT16, messages)];
          messages := messages + 1;
        }
      case _ =>
    }

    method PocReadyAction() returns (commands: seq<Command>)
      ensures commands == PocReady(bus)
    {
      commands := [];
      if bus == PerformWakeup {
        commands := [SendWakeup];
      } else if bus == WakeupDone {
        commands := [AllowColdstart, RunBus];
      }
    }

    method PocStatusHandler(state: Poc)
      modifies this
      ensures Reaction(State(), []) == React(old(State()), Status(state))
    {
      if poc == Wakeup && state == Ready {
        bus := WakeupDone;
      }
      poc := state;
    }

    method WakeupHandler() returns (commands: seq<Command>)
      ensures Reaction(State(), commands) == React(State(), WakeupEvent)
    {
      commands := [AllowColdstart, RunBus];
    }
  }

  // ----- whole histories -----

  /** The node as `main` sets it up. */
  predicate Initial(n: Node) {
    n.poc.DefaultConfig? && n.bus.PerformWakeup? && !n.configured && n.messages == 0
  }

  function Final(n: Node, inputs: seq<Input>): Node {
    if inputs == [] then n else React(Final(n, inputs[..|inputs| - 1]), inputs[|inputs| - 1]).node
  }

  /** Every command given, in order. */
  function Log(n: Node, inputs: seq<Input>): seq<Command> {
    if inputs == [] then [] else
    var head := inputs[..|inputs| - 1];
    Log(n, head) + React(Final(n, head), inputs[|inputs| - 1]).commands
  }

  /** The initial state followed by every reported one. */
  function Statuses(inputs: seq<Input>): (r: seq<Poc>)
    ensures r != []
  {
    if inputs == [] then [DefaultConfig] else
    var last := inputs[|inputs| - 1];
    Statuses(inputs[..|inputs| - 1]) + if last.Status? then [last.state] else []
  }

  ghost predicate WakeupFinished(statuses: seq<Poc>) {
    exists k :: 0 < k < |statuses| && statuses[k - 1].Wakeup? && statuses[k].Ready?
  }

  lemma {:induction false} BusFollowsStatuses(n: Node, inputs: seq<Input>)
    requires Initial(n)
    ensures var f, st := Final(n, inputs), Statuses(inputs);
            && f.poc == st[|st| - 1]
            && f.bus == (if WakeupFinished(st) then WakeupDone else PerformWakeup)
            && f.startupDelay == n.startupDelay && |f.buffers| == |n.buffers|
  {
    if inputs != [] {
      var head, last := inputs[..|inputs| - 1], inputs[|inputs| - 1];
      BusFollowsStatuses(n, head);
      var was, st := Statuses(head), Statuses(inputs);
      if !last.Status? {
        assert st == was;
      } else {
        if WakeupFinished(was) {
          var k :| 0 < k < |was| && was[k - 1].Wakeup? && was[k].Ready?;
          assert st[k - 1].Wakeup? && st[k].Ready?;
        }
        if WakeupFinished(st) && !WakeupFinished(was) {
          var k :| 0 < k < |st| && st[k - 1].Wakeup? && st[k].Ready?;
          assert k == |st| - 1;
        }
        if was[|was| - 1].Wakeup? && last.state.Ready? {
          assert st[|st| - 2].Wakeup? && st[|st| - 1].Ready?;
        }
      }
    }
  }

  /**
   After every history: a simulation step starts the bus exactly when a Wakeup-to-Ready
   transition has been reported and the node is in a configurable state; before the
   transition it asks for a wakeup instead.
   */
  lemma {:induction false} StepStartsBus(n: Node, inputs: seq<Input>, now: nat)
    requires Initial(n)
    ensures var f := Final(n, inputs); var commands := React(f, Step(now)).commands;
            var acts := now >= n.startupDelay && (f.poc.DefaultConfig? || f.poc.Ready?);
            && (RunBus in commands <==> acts && WakeupFinished(Statuses(inputs)))
            && (SendWakeup in commands <==> acts && !WakeupFinished(Statuses(inputs)))
  {
    BusFollowsStatuses(n, inputs);
    var f := Final(n, inputs);
    hide Final, Statuses, WakeupFinished, Swapped;
    NoOthers(f.buffers);
  }

  lemma {:induction false} NoOthers(buffers: seq<Channel>)
    ensures forall k :: 0 <= k < |Announced(buffers)| ==> Announced(buffers)[k].ReconfigureTx?
    ensures forall k :: 0 <= k < |Announced(buffers)| ==> Announced(buffers)[k].index < |buffers|
  {
    if buffers != [] {
      NoOthers(buffers[..|buffers| - 1]);
    }
  }

  lemma {:induction false} ReactRuns(f: Node, input: Input, k: nat)
    requires k < |React(f, input).commands| && React(f, input).commands[k].RunBus?
    ensures k > 0 && React(f, input).commands[k - 1].AllowColdstart?
  {
    hide Swapped, Announced;
    NoOthers(f.buffers);
  }

  /** Every start of the bus, whoever asked for it, directly follows its cold-start permission. */
  lemma {:induction false} RunFollowsColdstart(n: Node, inputs: seq<Input>, k: nat)
    requires k < |Log(n, inputs)| && Log(n, inputs)[k].RunBus?
    ensures k > 0 && Log(n, inputs)[k - 1].AllowColdstart?
  {
    hide React, Final;
    var head, last := inputs[..|inputs| - 1], inputs[|inputs| - 1];
    var was := Log(n, head);
    if k < |was| {
      RunFollowsColdstart(n, head, k);
    } else {
      ReactRuns(Final(n, head), last, k - |was|);
    }
  }

  function Count(log: seq<Command>, c: Command): nat { multiset(log)[c] }

  lemma {:induction false} CountAppend(a: seq<Command>, b: seq<Command>, c: Command)
    ensures Count(a + b, c) == Count(a, c) + Count(b, c)
  {
  }

  /** Some step acted on the initial state. */
  ghost predicate SomeFirst(n: Node, inputs: seq<Input>) {
    exists k :: 0 <= k < |inputs| && ActsInDefault(n, inputs, k)
  }

  lemma {:induction false} SomeFirstStep(n: Node, inputs: seq<Input>)
    requires inputs != []
    ensures SomeFirst(n, inputs) <==> SomeFirst(n, inputs[..|inputs| - 1]) || ActsInDefault(n, inputs, |inputs| - 1)
  {
    hide Final;
    var head := inputs[..|inputs| - 1];
    forall k | 0 <= k < |head| ensures ActsInDefault(n, head, k) == ActsInDefault(n, inputs, k) {
      assert head[..k] == inputs[..k];
    }
    if SomeFirst(n, head) {
      var k :| 0 <= k < |head| && ActsInDefault(n, head, k);
      assert ActsInDefault(n, inputs, k);
    }
    if SomeFirst(n, inputs) {
      var k :| 0 <= k < |inputs| && ActsInDefault(n, inputs, k);
      assert k < |head| ==> ActsInDefault(n, head, k);
    }
  }

  /** The controller is configured at most once: when a step after the delay finds the initial state. */
  lemma {:induction false} ConfiguredOnce(n: Node, inputs: seq<Input>)
    requires Initial(n)
    ensures Count(Log(n, inputs), Configure) == (if Final(n, inputs).configured then 1 else 0)
    ensures Final(n, inputs).configured <==> SomeFirst(n, inputs)
  {
    if inputs != [] {
      var head, last := inputs[..|inputs| - 1], inputs[|inputs| - 1];
      ConfiguredOnce(n, head);
      SomeFirstStep(n, inputs);
      BusFollowsStatuses(n, head);
      hide React, Count, SomeFirst;
      CountAppend(Log(n, head), React(Final(n, head), last).commands, Configure);
      ReactConfigures(Final(n, head), last);
    }
  }

  ghost predicate ActsInDefault(n: Node, inputs: seq<Input>, k: nat)
    requires k < |inputs|
  {
    inputs[k].Step? && inputs[k].now >= n.startupDelay && Final(n, inputs[..k]).poc.DefaultConfig?
  }

  lemma {:induction false} ReactConfigures(f: Node, input: Input)
    ensures var r := React(f, input);
            var first := input.Step? && input.now >= f.startupDelay && f.poc.DefaultConfig?;
            && r.node.configured == (f.configured || first)
            && Count(r.commands, Configure) == if first && !f.configured then 1 else 0
  {
    hide Swapped;
    NoOthers(f.buffers);
    var commands := React(f, input).commands;
    if Configure !in commands {
      assert Count(commands, Configure) == 0;
    }
  }

  // ----- the transmit buffers -----

  function UsesIn(log: seq<Command>, b: nat): nat {
    if log == [] then 0 else
    var last := log[|log| - 1];
    UsesIn(log[..|log| - 1], b) + if last.UpdateTx? && last.index == b then 1 else 0
  }

  lemma {:induction false} UsesAppend(a: seq<Command>, c: seq<Command>, b: nat)
    ensures UsesIn(a + c, b) == UsesIn(a, b) + UsesIn(c, b)
  {
    if c == [] {
      assert a + c == a;
    } else {
      UsesAppend(a, c[..|c| - 1], b);
      assert (a + c)[..|a + c| - 1] == a + c[..|c| - 1];
    }
  }

  /** Messages below `m` whose number is `b` modulo `n`. */
  function UsesBelow(m: nat, n: nat, b: nat): nat
    requires n > 0
  {
    if m == 0 then 0 else UsesBelow(m - 1, n, b) + if BufferOf(m - 1, n) == b then 1 else 0
  }

  lemma {:induction false} ReactUses(f: Node, input: Input, b: nat)
    requires f.buffers != []
    ensures var r := React(f, input);
            UsesBelow(f.messages, |f.buffers|, b) + UsesIn(r.commands, b) == UsesBelow(r.node.messages, |f.buffers|, b)
  {
    hide React, Sends, BufferOf, UsesBelow;
    if Sends(f, input) {
      SendReacts(f, input);
      OneUse(React(f, input).commands, b);
      NextUse(f.messages, |f.buffers|, b);
    } else {
      OthersReact(f, input);
      NoUses(React(f, input).commands, b);
    }
  }

  predicate Sends(f: Node, input: Input) {
    && input.Step? && input.now >= f.startupDelay && f.poc.NormalActive? && f.buffers != []
    && input.now != ReconfigureAt(f.startupDelay)
  }

  lemma {:induction false} SendReacts(f: Node, input: Input)
    requires Sends(f, input)
    ensures React(f, input) ==
            Reaction(f.(messages := f.messages + 1), [UpdateTx(BufferOf(f.messages, |f.buffers|), f.messages)])
  {
    hide ReconfigureAt, BufferOf;
  }

  lemma {:induction false} OthersReact(f: Node, input: Input)
    requires !Sends(f, input)
    ensures var r := React(f, input);
            && r.node.messages == f.messages
            && forall k :: 0 <= k < |r.commands| ==> !r.commands[k].UpdateTx?
  {
    NoOthers(f.buffers);
    hide Announced, Swapped, BufferOf, ReconfigureAt;
  }

  lemma {:induction false} OneUse(log: seq<Command>, b: nat)
    requires |log| == 1 && log[0].UpdateTx?
    ensures UsesIn(log, b) == if log[0].index == b then 1 else 0
  {
    assert UsesIn(log[..0], b) == 0;
  }

  lemma {:induction false} NextUse(m: nat, n: nat, b: nat)
    requires n > 0
    ensures UsesBelow(m + 1, n, b) == UsesBelow(m, n, b) + if BufferOf(m, n) == b then 1 else 0
  {
    hide BufferOf;
  }

  lemma {:induction false} NoUses(log: seq<Command>, b: nat)
    requires forall k :: 0 <= k < |log| ==> !log[k].UpdateTx?
    ensures UsesIn(log, b) == 0
  {
    if log != [] { NoUses(log[..|log| - 1], b); }
  }

  /** After every history, the commands logged for buffer `b` are those of the messages that go to `b`. */
  lemma {:induction false} UsesLogged(n: Node, inputs: seq<Input>, b: nat)
    requires Initial(n) && n.buffers != []
    ensures UsesIn(Log(n, inputs), b) == UsesBelow(Final(n, inputs).messages, |n.buffers|, b)
  {
    if inputs != [] {
      var head, last := inputs[..|inputs| - 1], inputs[|inputs| - 1];
      UsesLogged(n, head, b);
      BusFollowsStatuses(n, head);
      hide React, UsesBelow, UsesIn;
      UsesAppend(Log(n, head), React(Final(n, head), last).commands, b);
      ReactUses(Final(n, head), last, b);
    }
  }

  lemma {:induction false} UsesClosedForm(m: nat, n: nat, b: nat)
    requires b < n <= UINT16
    ensures UsesBelow(m, n, b) == (m + n - 1 - b) / n
  {
    if m == 0 {
      assert (n - 1 - b) / n == 0;
    } else {
      UsesClosedForm(m - 1, n, b);
      NextQuotient(m - 1, n, b);
    }
  }

  lemma {:induction false} NextQuotient(m: nat, n: nat, b: nat)
    requires b < n <= UINT16
    ensures (m + n - b) / n == (m + n - 1 - b) / n + if BufferOf(m, n) == b then 1 else 0
  {
    assert m == (m / n) * n + m % n;
    QuotientSteps(m / n, m % n, n, b);
    assert BufferOf(m, n) == m % n;
  }

  lemma {:induction false} QuotientSteps(q: nat, r: nat, n: nat, b: nat)
    requires r < n && b < n
    ensures (q * n + r + n - b) / n == (q * n + r + n - 1 - b) / n + if r == b then 1 else 0
  {
    var x := q * n + r + n - b;
    assert (q + 1) * n == q * n + n;
    if r < b {
      Division(x, n, q, r + n - b);
      Division(x - 1, n, q, r + n - 1 - b);
    } else if r == b {
      Division(x, n, q + 1, 0);
      Division(x - 1, n, q, n - 1);
    } else {
      Division(x, n, q + 1, r - b);
      Division(x - 1, n, q + 1, r - 1 - b);
    }
  }

  /** The use counts of two buffers never differ by more than one, the earlier one leading. */
  ghost predicate Even(n: Node, inputs: seq<Input>) {
    forall b: nat, c: nat :: b < c < |n.buffers| ==> UsedEvenly(Log(n, inputs), b, c)
  }

  predicate UsedEvenly(log: seq<Command>, b: nat, c: nat) {
    UsesIn(log, c) <= UsesIn(log, b) <= UsesIn(log, c) + 1
  }

  lemma {:induction false} EvenPair(n: Node, inputs: seq<Input>, b: nat, c: nat)
    requires Initial(n) && b < c < |n.buffers| <= UINT16
    ensures UsedEvenly(Log(n, inputs), b, c)
  {
    var m, size := Final(n, inputs).messages, |n.buffers|;
    UsesLogged(n, inputs, b);
    UsesLogged(n, inputs, c);
    UsesClosedForm(m, size, b);
    UsesClosedForm(m, size, c);
    hide UsesIn, UsesBelow, Log, Final;
    var x, y := m + size - 1 - b, m + size - 1 - c;
    CloseQuotients(y, x, size);
  }

  /** The node becomes active and makes `m` steps, all after the time of the swap. */
  function Active(n: Node, m: nat): (inputs: seq<Input>)
    ensures |inputs| == m + 1 && inputs[0] == Status(NormalActive)
    ensures forall k :: 1 <= k <= m ==> inputs[k] == Step(ReconfigureAt(n.startupDelay) + k)
  {
    if m == 0 then [Status(NormalActive)] else Active(n, m - 1) + [Step(ReconfigureAt(n.startupDelay) + m)]
  }

  lemma {:induction false} ActiveSends(n: Node, m: nat)
    requires Initial(n) && n.buffers != []
    ensures Final(n, Active(n, m)) == n.(poc := NormalActive, messages := m)
  {
    hide ReconfigureAt, Final;
    if m == 0 {
      BecomesActive(n);
    } else {
      hide React;
      var before, now := Active(n, m - 1), ReconfigureAt(n.startupDelay) + m;
      assert Active(n, m) == before + [Step(now)];
      hide Active;
      ActiveSends(n, m - 1);
      FinalAppend(n, before, Step(now));
      SendsOne(n.(poc := NormalActive, messages := m - 1), now);
    }
  }

  lemma {:induction false} BecomesActive(n: Node)
    requires Initial(n)
    ensures Final(n, [Status(NormalActive)]) == n.(poc := NormalActive)
  {
    assert [] + [Status(NormalActive)] == [Status(NormalActive)];
    FinalAppend(n, [], Status(NormalActive));
  }

  lemma {:induction false} FinalAppend(n: Node, inputs: seq<Input>, input: Input)
    ensures Final(n, inputs + [input]) == React(Final(n, inputs), input).node
  {
    assert (inputs + [input])[..|inputs|] == inputs;
    hide React;
  }

  lemma {:induction false} SendsOne(f: Node, now: nat)
    requires f.poc.NormalActive? && f.buffers != [] && now > ReconfigureAt(f.startupDelay)
    ensures React(f, Step(now)).node == f.(messages := f.messages + 1)
  {
    DelayBeforeSwap(f.startupDelay);
    hide ReconfigureAt, BufferOf;
  }

  lemma {:induction false} ActiveNeverSwaps(n: Node, m: nat)
    ensures Increasing(Active(n, m)) && !SomeSwap(n, Active(n, m))
  {
    hide Final, ReconfigureAt;
    DelayBeforeSwap(n.startupDelay);
  }

  lemma {:induction false} UsesGrow(j: nat, m: nat, n: nat, b: nat)
    requires j <= m && n > 0
    ensures UsesBelow(j, n, b) <= UsesBelow(m, n, b)
  {
    hide BufferOf;
    if j < m { UsesGrow(j, m - 1, n, b); }
  }

  lemma {:induction false} NeverUsed(m: nat, n: nat, b: nat)
    requires n > 0 && b >= UINT16
    ensures UsesBelow(m, n, b) == 0
  {
    if m > 0 { NeverUsed(m - 1, n, b); }
  }

  /** With more buffers the 16-bit index comes back to buffer 0 while buffer 65536 is never used. */
  lemma {:induction false} UnevenHistory(n: Node) returns (inputs: seq<Input>)
    requires Initial(n) && |n.buffers| > 65536
    ensures Increasing(inputs) && !SomeSwap(n, inputs) && !Even(n, inputs)
    ensures UsesIn(Log(n, inputs), 0) >= 2 && UsesIn(Log(n, inputs), 65536) == 0
  {
    var m, size := UINT16 + 1, |n.buffers|;
    inputs := Active(n, m);
    ActiveNeverSwaps(n, m);
    ActiveSends(n, m);
    hide UsesIn, UsesBelow, Log, Active, SomeSwap, Increasing, Final;
    UsesLogged(n, inputs, 0);
    UsesLogged(n, inputs, UINT16);
    NeverUsed(m, size, UINT16);
    UsesGrow(1, m - 1, size, 0);
    FirstAndLast(m, size);
    assert !UsedEvenly(Log(n, inputs), 0, UINT16);
  }

  lemma {:induction false} FirstAndLast(m: nat, n: nat)
    requires m == UINT16 + 1 <= n
    ensures UsesBelow(1, n, 0) == 1 && UsesBelow(m, n, 0) == UsesBelow(m - 1, n, 0) + 1
  {
    Division(0, n, 0, 0);
    Division(UINT16, n, 0, UINT16);
    assert UsesBelow(0, n, 0) == 0;
    assert BufferOf(0, n) == 0 && BufferOf(m - 1, n) == 0;
  }

  /** Round robin works in every history exactly if the buffers can be numbered with 16 bits. */
  lemma {:induction false} BuffersUsedEvenly(n: Node)
    requires Initial(n) && n.buffers != []
    ensures (forall inputs :: Even(n, inputs)) <==> |n.buffers| <= 65536
  {
    hide UsedEvenly, Initial;
    if |n.buffers| <= UINT16 {
      forall inputs ensures Even(n, inputs) {
        forall b: nat, c: nat | b < c < |n.buffers| ensures UsedEvenly(Log(n, inputs), b, c) {
          EvenPair(n, inputs, b, c);
        }
      }
    } else {
      var inputs := UnevenHistory(n);
    }
  }

  lemma {:induction false} CloseQuotients(y: nat, x: nat, n: nat)
    requires n > 0 && y <= x < y + n
    ensures y / n <= x / n <= y / n + 1
  {
    var q, r := y / n, y % n;
    assert y == q * n + r;
    if r + (x - y) < n {
      Division(x, n, q, r + (x - y));
    } else {
      Division(x, n, q + 1, r + (x - y) - n);
    }
  }

  lemma {:induction false} IndicesInRange(n: Node, inputs: seq<Input>, k: nat)
    requires Initial(n) && k < |Log(n, inputs)| && (Log(n, inputs)[k].UpdateTx? || Log(n, inputs)[k].ReconfigureTx?)
    ensures Log(n, inputs)[k].index < |n.buffers|
  {
    hide React;
    var head, last := inputs[..|inputs| - 1], inputs[|inputs| - 1];
    var was, f := Log(n, head), Final(n, head);
    if k < |was| {
      IndicesInRange(n, head, k);
    } else {
      BusFollowsStatuses(n, head);
      hide Final, Log, Statuses, WakeupFinished;
      ReactIndices(f, last, k - |was|);
    }
  }

  lemma {:induction false} ReactIndices(f: Node, input: Input, k: nat)
    requires k < |React(f, input).commands|
    requires React(f, input).commands[k].UpdateTx? || React(f, input).commands[k].ReconfigureTx?
    ensures React(f, input).commands[k].index < |f.buffers|
  {
    NoOthers(f.buffers);
    hide Announced, Swapped;
  }

  // ----- the channel swap -----

  /** A becomes B, B becomes A, and nothing else changes. */
  lemma {:induction false} SwapsAB(buffers: seq<Channel>, k: nat)
    requires k < |buffers|
    ensures |Swapped(buffers)| == |buffers|
    ensures Swapped(buffers)[k] == B <==> buffers[k] == A
    ensures Swapped(buffers)[k] == A <==> buffers[k] == B
    ensures buffers[k] != A && buffers[k] != B ==> Swapped(buffers)[k] == buffers[k]
  {
  }

  /** Announced are exactly the buffers that change, each once, with their new channel, in order. */
  lemma {:induction false} AnnouncesChanges(buffers: seq<Channel>)
    ensures forall k: nat, c :: ReconfigureTx(k, c) in Announced(buffers)
                                <==> k < |buffers| && ((buffers[k] == A && c == B) || (buffers[k] == B && c == A))
    ensures forall i, j :: 0 <= i < j < |Announced(buffers)| ==>
              && Announced(buffers)[i].ReconfigureTx? && Announced(buffers)[j].ReconfigureTx?
              && Announced(buffers)[i].index < Announced(buffers)[j].index
  {
    NoOthers(buffers);
    if buffers != [] {
      var front, last := buffers[..|buffers| - 1], |buffers| - 1;
      AnnouncesChanges(front);
      NoOthers(front);
      var more := if buffers[last] in {A, B} then [ReconfigureTx(last, Swap(buffers[last]))] else [];
      assert Announced(buffers) == Announced(front) + more;
      hide Announced;
    }
  }

  lemma {:induction false} SwapTwice(buffers: seq<Channel>)
    ensures Swapped(Swapped(buffers)) == buffers
  {
    forall i | 0 <= i < |buffers| ensures Swapped(Swapped(buffers))[i] == buffers[i] {
      assert Swapped(buffers)[i] == Swap(buffers[i]);
    }
  }

  /** The loop counter after `k` passes. */
  function LoopCounter(k: nat): nat { if k == 0 then 0 else Next16(LoopCounter(k - 1)) }

  /** The swap loop comes to an end exactly when the list has fewer than 65536 entries. */
  lemma {:induction false} SwapLoopEnds(size: nat)
    ensures (exists k :: LoopCounter(k) >= size) <==> size < 65536
  {
    if size < UINT16 {
      CountsUp(size);
    } else {
      forall k ensures LoopCounter(k) < size { StaysBelow(k); }
    }
  }

  lemma {:induction false} CountsUp(k: nat)
    requires k < UINT16
    ensures LoopCounter(k) == k
  {
    if k > 0 { CountsUp(k - 1); }
  }

  lemma {:induction false} StaysBelow(k: nat)
    ensures LoopCounter(k) < UINT16
  {
  }

  predicate Increasing(inputs: seq<Input>) {
    forall i, j :: 0 <= i < j < |inputs| && inputs[i].Step? && inputs[j].Step? ==> inputs[i].now < inputs[j].now
  }

  ghost predicate SwapsAt(n: Node, inputs: seq<Input>, k: nat)
    requires k < |inputs|
  {
    && inputs[k] == Step(100_000_000 + n.startupDelay - n.startupDelay % 1_000_000)
    && Final(n, inputs[..k]).poc.NormalActive?
  }

  ghost predicate SomeSwap(n: Node, inputs: seq<Input>) {
    exists k :: 0 <= k < |inputs| && SwapsAt(n, inputs, k)
  }

  lemma {:induction false} SomeSwapStep(n: Node, inputs: seq<Input>)
    requires inputs != []
    ensures SomeSwap(n, inputs) <==> SomeSwap(n, inputs[..|inputs| - 1]) || SwapsAt(n, inputs, |inputs| - 1)
  {
    hide Final, ReconfigureAt;
    var head := inputs[..|inputs| - 1];
    forall k | 0 <= k < |head| ensures SwapsAt(n, head, k) == SwapsAt(n, inputs, k) {
      assert head[..k] == inputs[..k];
    }
    if SomeSwap(n, head) {
      var k :| 0 <= k < |head| && SwapsAt(n, head, k);
      assert SwapsAt(n, inputs, k);
    }
    if SomeSwap(n, inputs) {
      var k :| 0 <= k < |inputs| && SwapsAt(n, inputs, k);
      assert k < |head| ==> SwapsAt(n, head, k);
    }
  }

  lemma {:induction false} DelayBeforeSwap(delay: nat)
    ensures delay < ReconfigureAt(delay) == 100_000_000 + delay - delay % 1_000_000
  {
  }

  /**
   With increasing step times the channels are swapped at most once, in an active step
   100 ms after the delay; with 65536 or more buffers that step would be the last.
   */
  lemma {:induction false} SwappedAtMostOnce(n: Node, inputs: seq<Input>)
    requires Initial(n) && Increasing(inputs)
    ensures Final(n, inputs).buffers == if SomeSwap(n, inputs) then Swapped(n.buffers) else n.buffers
  {
    if inputs != [] {
      var head, last := inputs[..|inputs| - 1], inputs[|inputs| - 1];
      SwappedAtMostOnce(n, head);
      SomeSwapStep(n, inputs);
      BusFollowsStatuses(n, head);
      DelayBeforeSwap(n.startupDelay);
      hide ReconfigureAt, Swapped, Statuses, WakeupFinished, Announced, BufferOf, PocReady;
      forall k | 0 <= k < |head| ensures !(head[k].Step? && last.Step? && head[k].now == last.now) {
        assert head[k] == inputs[k];
      }
    }
  }
}
