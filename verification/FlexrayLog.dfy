/**
 What the FlexRay node tells its controller over a whole history, as a function of the
 events alone: how often each command is given, which messages are sent in which order,
 and what follows the configuration.
 */
module FlexrayLog {
  import opened Flexray

  /** The state reported last. */
  function Reported(inputs: seq<Input>): Poc {
    var st := Statuses(inputs);
    st[|st| - 1]
  }

  function Wakeups(inputs: seq<Input>): nat {
    if inputs == [] then 0 else
    Wakeups(inputs[..|inputs| - 1]) + if inputs[|inputs| - 1].WakeupEvent? then 1 else 0
  }

  /** A step, not before the startup delay, that finds a configurable state. */
  predicate Configurable(n: Node, before: seq<Input>, input: Input) {
    && input.Step? && input.now >= n.startupDelay
    && (Reported(before) == DefaultConfig || Reported(before) == Ready)
  }

  /** The configurable steps after the Wakeup-to-Ready transition was reported. */
  ghost function Starts(n: Node, inputs: seq<Input>): nat {
    if inputs == [] then 0 else
    var before := inputs[..|inputs| - 1];
    Starts(n, before)
    + if Configurable(n, before, inputs[|inputs| - 1]) && WakeupFinished(Statuses(before)) then 1 else 0
  }

  /** The configurable steps before it. */
  ghost function Attempts(n: Node, inputs: seq<Input>): nat {
    if inputs == [] then 0 else
    var before := inputs[..|inputs| - 1];
    Attempts(n, before)
    + if Configurable(n, before, inputs[|inputs| - 1]) && !WakeupFinished(Statuses(before)) then 1 else 0
  }

  /** An active step that is not the one of the channel swap. */
  predicate Sending(n: Node, before: seq<Input>, input: Input) {
    && n.buffers != [] && input.Step? && input.now >= n.startupDelay && Reported(before) == NormalActive
    && input.now != 100_000_000 + n.startupDelay - n.startupDelay % 1_000_000
  }

  function Sendings(n: Node, inputs: seq<Input>): nat {
    if inputs == [] then 0 else
    var before := inputs[..|inputs| - 1];
    Sendings(n, before) + if Sending(n, before, inputs[|inputs| - 1]) then 1 else 0
  }

  lemma {:induction false} LogStep(n: Node, inputs: seq<Input>)
    requires inputs != []
    ensures var before := inputs[..|inputs| - 1];
            Log(n, inputs) == Log(n, before) + React(Final(n, before), inputs[|inputs| - 1]).commands
  {
    hide React, Final;
  }

  // ----- starting the bus -----

  predicate Here(f: Node, input: Input) {
    input.Step? && input.now >= f.startupDelay && (f.poc == DefaultConfig || f.poc == Ready)
  }

  lemma {:induction false} ReadyCommands(f: Node, input: Input)
    requires Here(f, input)
    ensures React(f, input).commands ==
            (if f.poc == DefaultConfig && !f.configured then [Configure] else []) + PocReady(f.bus)
  {
    hide PocReady;
  }

  lemma {:induction false} OtherCommands(f: Node, input: Input)
    requires !Here(f, input) && !input.WakeupEvent?
    ensures var commands := React(f, input).commands;
            RunBus !in commands && AllowColdstart !in commands && SendWakeup !in commands
  {
    NoOthers(f.buffers);
    hide Announced, Swapped, BufferOf, ReconfigureAt, PocReady;
  }

  lemma {:induction false} CountsOfReady(first: bool, bus: Bus)
    requires bus == WakeupDone || bus == PerformWakeup
    ensures var commands := (if first then [Configure] else []) + PocReady(bus);
            && Count(commands, RunBus) == Count(commands, AllowColdstart) == (if bus == WakeupDone then 1 else 0)
            && Count(commands, SendWakeup) == if bus == PerformWakeup then 1 else 0
  {
  }

  lemma {:induction false} StartingCommands(f: Node, input: Input)
    requires f.bus == WakeupDone || f.bus == PerformWakeup
    ensures var commands := React(f, input).commands;
            var started := if input.WakeupEvent? || (Here(f, input) && f.bus == WakeupDone) then 1 else 0;
            && Count(commands, RunBus) == Count(commands, AllowColdstart) == started
            && Count(commands, SendWakeup) == if Here(f, input) && f.bus == PerformWakeup then 1 else 0
  {
    if Here(f, input) {
      ReadyCommands(f, input);
      CountsOfReady(f.poc == DefaultConfig && !f.configured, f.bus);
      hide React, PocReady, Count;
    } else if input.WakeupEvent? {
      assert React(f, input).commands == [AllowColdstart, RunBus];
    } else {
      OtherCommands(f, input);
      hide React;
    }
  }

  lemma {:induction false} HereIff(n: Node, before: seq<Input>, input: Input)
    requires Initial(n)
    ensures var f := Final(n, before);
            && (Here(f, input) <==> Configurable(n, before, input))
            && f.bus == if WakeupFinished(Statuses(before)) then WakeupDone else PerformWakeup
  {
    BusFollowsStatuses(n, before);
    hide Final, Statuses, WakeupFinished;
  }

  lemma {:induction false} NextCounts(n: Node, inputs: seq<Input>)
    requires inputs != []
    ensures var before, last := inputs[..|inputs| - 1], inputs[|inputs| - 1];
            var here, done := Configurable(n, before, last), WakeupFinished(Statuses(before));
            && Wakeups(inputs) == Wakeups(before) + (if last.WakeupEvent? then 1 else 0)
            && Starts(n, inputs) == Starts(n, before) + (if here && done then 1 else 0)
            && Attempts(n, inputs) == Attempts(n, before) + (if here && !done then 1 else 0)
            && (here ==> last.Step?)
  {
    hide Statuses, WakeupFinished;
  }

  /**
   The bus is started, each time with a cold-start permission, once for every wakeup event
   and once for every configurable step after the Wakeup-to-Ready transition; a wakeup is
   asked for once in every configurable step before it.
   */
  lemma {:induction false} CommandsCounted(n: Node, inputs: seq<Input>)
    requires Initial(n)
    ensures Count(Log(n, inputs), RunBus) == Count(Log(n, inputs), AllowColdstart)
            == Wakeups(inputs) + Starts(n, inputs)
    ensures Count(Log(n, inputs), SendWakeup) == Attempts(n, inputs)
  {
    if inputs != [] {
      var before, last := inputs[..|inputs| - 1], inputs[|inputs| - 1];
      CommandsCounted(n, before);
      LogStep(n, inputs);
      var f := Final(n, before);
      HereIff(n, before, last);
      NextCounts(n, inputs);
      hide Final, Log, React, Count, Statuses, WakeupFinished, Configurable, Here, Wakeups, Starts, Attempts, Initial;
      StartingCommands(f, last);
      CountAppend(Log(n, before), React(f, last).commands, RunBus);
      CountAppend(Log(n, before), React(f, last).commands, AllowColdstart);
      CountAppend(Log(n, before), React(f, last).commands, SendWakeup);
    }
  }

  // ----- the messages -----

  function UpdatesOf(log: seq<Command>): seq<Command> {
    if log == [] then [] else
    UpdatesOf(log[..|log| - 1]) + if log[|log| - 1].UpdateTx? then [log[|log| - 1]] else []
  }

  lemma {:induction false} UpdatesAppend(a: seq<Command>, b: seq<Command>)
    ensures UpdatesOf(a + b) == UpdatesOf(a) + UpdatesOf(b)
  {
    if b == [] {
      assert a + b == a;
    } else {
      UpdatesAppend(a, b[..|b| - 1]);
      assert (a + b)[..|a + b| - 1] == a + b[..|b| - 1];
    }
  }

  lemma {:induction false} NoUpdates(log: seq<Command>)
    requires forall k :: 0 <= k < |log| ==> !log[k].UpdateTx?
    ensures UpdatesOf(log) == []
  {
    if log != [] { NoUpdates(log[..|log| - 1]); }
  }

  /** Message `m` goes to buffer `m` modulo the number of buffers, cut to 16 bits. */
  function Numbered(count: nat, buffers: nat): (r: seq<Command>)
    requires buffers > 0
    ensures |r| == count && forall m :: 0 <= m < count ==> r[m] == UpdateTx(m % buffers % 65536, m)
  {
    seq(count, m requires 0 <= m < count => UpdateTx(m % buffers % 65536, m))
  }

  lemma {:induction false} NextNumbered(count: nat, buffers: nat)
    requires buffers > 0
    ensures Numbered(count + 1, buffers) == Numbered(count, buffers) + [UpdateTx(BufferOf(count, buffers), count)]
  {
  }

  lemma {:induction false} SendsIffSending(n: Node, before: seq<Input>, input: Input)
    requires Initial(n)
    ensures Sends(Final(n, before), input) <==> Sending(n, before, input)
    ensures |Final(n, before).buffers| == |n.buffers|
  {
    BusFollowsStatuses(n, before);
    DelayBeforeSwap(n.startupDelay);
    hide Final, Statuses, WakeupFinished, ReconfigureAt;
  }

  /** The messages in the log are numbered 0, 1, 2, ..., one for every sending step, and take turns on the buffers. */
  lemma {:induction false} MessagesNumbered(n: Node, inputs: seq<Input>)
    requires Initial(n) && n.buffers != []
    ensures Final(n, inputs).messages == Sendings(n, inputs)
    ensures UpdatesOf(Log(n, inputs)) == Numbered(Sendings(n, inputs), |n.buffers|)
  {
    if inputs != [] {
      var before, last := inputs[..|inputs| - 1], inputs[|inputs| - 1];
      MessagesNumbered(n, before);
      SendsIffSending(n, before, last);
      LogStep(n, inputs);
      var f := Final(n, before);
      assert Final(n, inputs) == React(f, last).node;
      hide Final, Log, React, Sending, Sends, Numbered, UpdatesOf, BufferOf;
      UpdatesAppend(Log(n, before), React(f, last).commands);
      NextNumbered(f.messages, |n.buffers|);
      if Sending(n, before, last) {
        SendReacts(f, last);
        OneUpdate(UpdateTx(BufferOf(f.messages, |n.buffers|), f.messages));
      } else {
        OthersReact(f, last);
        NoUpdates(React(f, last).commands);
      }
    }
  }

  lemma {:induction false} OneUpdate(c: Command)
    requires c.UpdateTx?
    ensures UpdatesOf([c]) == [c]
  {
    assert [c][..0] == [];
  }

  // ----- the configuration comes first -----

  lemma {:induction false} ConfiguresFirst(f: Node, input: Input, k: nat)
    requires f.bus == WakeupDone || f.bus == PerformWakeup
    requires k < |React(f, input).commands| && React(f, input).commands[k] == Configure
    ensures k == 0 && 1 < |React(f, input).commands|
    ensures React(f, input).commands[1] == if f.bus == WakeupDone then AllowColdstart else SendWakeup
  {
    NoOthers(f.buffers);
    hide Announced, Swapped, BufferOf, ReconfigureAt;
  }

  /** The step that configures the controller goes on at once to ask for a wakeup or to start the bus. */
  lemma {:induction false} ConfigureThenStart(n: Node, inputs: seq<Input>, k: nat)
    requires Initial(n) && k < |Log(n, inputs)| && Log(n, inputs)[k] == Configure
    ensures k + 1 < |Log(n, inputs)|
    ensures Log(n, inputs)[k + 1] == AllowColdstart || Log(n, inputs)[k + 1] == SendWakeup
  {
    var before, last := inputs[..|inputs| - 1], inputs[|inputs| - 1];
    LogStep(n, inputs);
    BusFollowsStatuses(n, before);
    hide React, Final, Log, Statuses, WakeupFinished;
    var was := Log(n, before);
    if k < |was| {
      ConfigureThenStart(n, before, k);
    } else {
      ConfiguresFirst(Final(n, before), last, k - |was|);
    }
  }
}
