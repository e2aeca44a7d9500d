/**
 The bookkeeping of the remote-procedure-call tests: client and server counters, the
 promises their participants wait for, and one client calling one replying server over
 ordered request and result channels.

 A participant's main thread makes the calls and waits; its I/O thread runs the handlers
 one at a time.  The main thread sends a call before it counts it, and handlers may run
 in between, so `Send` and `Count` are two steps.
 */
module Rpc {

  import opened Arith
  import M = Matching

  type Bytes = M.Bytes

  const INCREMENT: nat := 100     // rpcFuncIncrement

  /** What the server makes of the argument data, and what the client expects back. */
  function Incremented(data: Bytes): (r: Bytes)
    ensures |r| == |data|
  {
    seq(|data|, i requires 0 <= i < |data| => (data[i] + INCREMENT) % 256)
  }

  method IncrementInPlace(data: array<nat>)
    modifies data
    ensures data[..] == Incremented(old(data[..]))
  {
    for i := 0 to data.Length
      invariant forall k :: 0 <= k < i ==> data[k] == (old(data[k]) + INCREMENT) % 256
      invariant forall k :: i <= k < data.Length ==> data[k] == old(data[k])
    {
      data[i] := (data[i] + INCREMENT) % 256;
    }
  }

  lemma {:induction false} LowByte(k: nat)
    ensures (k + INCREMENT) % UINT32 % 256 == (k % 256 + INCREMENT) % 256
  {
    var q := (k + INCREMENT) / UINT32;
    assert k + INCREMENT == q * UINT32 + (k + INCREMENT) % UINT32;
    assert UINT32 == 0x100_0000 * 256;
    var low := (k + INCREMENT) % UINT32;
    assert k + INCREMENT == (q * 0x100_0000) * 256 + low;
    ShiftedLowByte(low, q * 0x100_0000);
    assert k == (k / 256) * 256 + k % 256;
    ShiftedLowByte(k % 256 + INCREMENT, k / 256);
  }

  lemma {:induction false} ShiftedLowByte(a: nat, q: nat)
    ensures (q * 256 + a) % 256 == a % 256
  {
    if q > 0 {
      ShiftedLowByte(a, q - 1);
      var b := (q - 1) * 256 + a;
      assert q * 256 + a == b + 256;
      assert (b + 256) % 256 == b % 256;
    }
  }

  /** Byte wrap-around and 32-bit wrap-around of the counter agree. */
  lemma {:induction false} ReplyIsExpected(size: nat, k: nat)
    ensures Incremented(M.Payload(size, k)) == M.Payload(size, (k + INCREMENT) % UINT32)
  {
    LowByte(k);
    var reply, expected := Incremented(M.Payload(size, k)), M.Payload(size, (k + INCREMENT) % UINT32);
    forall i | 0 <= i < size ensures reply[i] == expected[i] {
      assert M.Payload(size, k)[i] == k % 256;
    }
  }

  // ----- the client's counters -----

  datatype Client = Client(
    increasing: bool, size: nat, numCalls: nat, numCallsToReturn: nat, numCallsToTimeout: nat,
    expected: seq<Bytes>,
    callCounter: nat, allCalled: bool,
    returned: nat, timedOut: nat, allCallsReturned: bool,
    failures: nat)      // EXPECT failures

  /** A 32-bit increment and the 32-bit comparison of two sums. */
  function Next(counter: nat): nat { (counter + 1) % UINT32 }

  predicate SumReaches(a: nat, b: nat, c: nat, d: nat) { (a + b) % UINT32 >= (c + d) % UINT32 }

  function CountCall(c: Client): Client {
    var counter := Next(c.callCounter);
    c.(callCounter := counter, allCalled := c.allCalled || counter >= c.numCalls)
  }

  /** The data that the next call hands to the middleware. */
  function SentBy(c: Client): seq<Bytes> { if c.allCalled then [] else [M.Payload(c.size, c.callCounter)] }

  function Called(c: Client): Client { if c.allCalled then c else CountCall(c) }

  predicate AllBack(c: Client, returned: nat, timedOut: nat) {
    SumReaches(returned, timedOut, c.numCallsToReturn, c.numCallsToTimeout)
  }

  predicate ReturnMatches(c: Client, data: Bytes) {
    if c.increasing then data == M.Payload(c.size, (c.returned + INCREMENT) % UINT32) else data in c.expected
  }

  function OnReturn(c: Client, data: Bytes): Client {
    var returned := Next(c.returned);
    c.(expected := if c.increasing then c.expected else M.Erased(c.expected, data),
       failures := c.failures + if ReturnMatches(c, data) then 0 else 1,
       returned := returned, allCallsReturned := c.allCallsReturned || AllBack(c, returned, c.timedOut))
  }

  function OnTimeout(c: Client): Client {
    var timedOut := Next(c.timedOut);
    c.(timedOut := timedOut, allCallsReturned := c.allCallsReturned || AllBack(c, c.returned, timedOut))
  }

  class ClientState {
    const increasing: bool
    const size: nat
    const numCalls: nat
    const numCallsToReturn: nat
    const numCallsToTimeout: nat
    var expected: seq<Bytes>
    var callCounter: nat
    var allCalled: bool
    var returned: nat
    var timedOut: nat
    var allCallsReturned: bool
    var failures: nat

    ghost function View(): Client
      reads this
    {
      Client(increasing, size, numCalls, numCallsToReturn, numCallsToTimeout, expected,
             callCounter, allCalled, returned, timedOut, allCallsReturned, failures)
    }

    constructor (increasing: bool, size: nat, numCalls: nat, toReturn: nat, toTimeout: nat, expected: seq<Bytes>)
      ensures View() == Client(increasing, size, numCalls, toReturn, toTimeout, expected, 0, false, 0, 0, false, 0)
    {
      this.increasing, this.size, this.numCalls := increasing, size, numCalls;
      numCallsToReturn, numCallsToTimeout, this.expected := toReturn, toTimeout, expected;
      callCounter, allCalled, returned, timedOut, allCallsReturned, failures := 0, false, 0, 0, false, 0;
    }

    /** The data handed to the middleware, if any. */
    method Call() returns (sent: seq<Bytes>)
      modifies this
      ensures sent == SentBy(old(View())) && View() == Called(old(View()))
    {
      sent := [];
      if !allCalled {
        sent := [M.Payload(size, callCounter)];
        callCounter := Next(callCounter);
        if callCounter >= numCalls {
          allCalled := true;
        }
      }
    }

    method OnCallReturned(data: Bytes)
      modifies this
      ensures View() == OnReturn(old(View()), data)
    {
      hide M.IndexOf, M.Payload, Next, SumReaches;
      if increasing {
        if data != M.Payload(size, (returned + INCREMENT) % UINT32) {
          failures := failures + 1;
        }
      } else if data in expected {
        var i := M.IndexOf(expected, data);
        expected := expected[..i] + expected[i + 1..];
      } else {
        failures := failures + 1;
      }
      returned := Next(returned);
      if SumReaches(returned, timedOut, numCallsToReturn, numCallsToTimeout) {
        allCallsReturned := true;
      }
    }

    method OnCallTimeout()
      modifies this
      ensures View() == OnTimeout(old(View()))
    {
      hide Next, SumReaches;
      timedOut := Next(timedOut);
      if SumReaches(returned, timedOut, numCallsToReturn, numCallsToTimeout) {
        allCallsReturned := true;
      }
    }
  }

  // ----- the call loop over several clients -----

  /** The number of calls a client makes before it stops: at least one. */
  function Goal(n: nat): nat { if n == 0 then 1 else n }

  predicate Fresh(c: Client) { c.callCounter == 0 && !c.allCalled && c.numCalls < UINT32 }

  function Calls(c: Client, k: nat): Client {
    c.(callCounter := k, allCalled := k >= Goal(c.numCalls))
  }

  lemma {:induction false} OneMoreCall(c: Client, k: nat)
    requires Fresh(c) && k < Goal(c.numCalls)
    ensures CountCall(Calls(c, k)) == Calls(c, k + 1)
  {
  }

  ghost predicate Least(numCalls: seq<nat>, k: nat) {
    && (exists i :: 0 <= i < |numCalls| && Goal(numCalls[i]) == k)
    && forall i :: 0 <= i < |numCalls| ==> k <= Goal(numCalls[i])
  }

  ghost function Views(clients: seq<ClientState>): (views: seq<Client>)
    reads clients
    ensures |views| == |clients| && forall i :: 0 <= i < |clients| ==> views[i] == clients[i].View()
  {
    seq(|clients|, i requires 0 <= i < |clients| reads clients => clients[i].View())
  }

  ghost function NumCalls(views: seq<Client>): seq<nat> {
    seq(|views|, i requires 0 <= i < |views| => views[i].numCalls)
  }

  ghost predicate AllFresh(views: seq<Client>) {
    forall i :: 0 <= i < |views| ==> Fresh(views[i])
  }

  /** Every client has made `k` of its calls. */
  ghost predicate Advanced(clients: seq<ClientState>, was: seq<Client>, k: nat)
    reads clients
  {
    |was| == |clients| && forall i :: 0 <= i < |clients| ==> clients[i].View() == Calls(was[i], k)
  }

  ghost predicate StillCalling(was: seq<Client>, k: nat) {
    forall i :: 0 <= i < |was| ==> Fresh(was[i]) && k < Goal(was[i].numCalls)
  }

  ghost predicate NoneBeyond(was: seq<Client>, k: nat) {
    AllFresh(was) && forall i :: 0 <= i < |was| ==> k <= Goal(was[i].numCalls)
  }

  ghost predicate SomeDone(was: seq<Client>, k: nat) {
    exists i :: 0 <= i < |was| && k >= Goal(was[i].numCalls)
  }

  ghost predicate Distinct(clients: seq<ClientState>) {
    forall i, j :: 0 <= i < j < |clients| ==> clients[i] != clients[j]
  }

  method CallRound(clients: seq<ClientState>, ghost was: seq<Client>, ghost k: nat)
    requires Distinct(clients) && Advanced(clients, was, k) && StillCalling(was, k)
    modifies clients
    ensures Advanced(clients, was, k + 1)
  {
    hide M.Payload, CountCall;
    for n := 0 to |clients|
      invariant forall i :: 0 <= i < n ==> clients[i].View() == Calls(was[i], k + 1)
      invariant forall i :: n <= i < |clients| ==> clients[i].View() == Calls(was[i], k)
    {
      OneMoreCall(was[n], k);
      var _ := clients[n].Call();
    }
  }

  method AnyAllCalled(clients: seq<ClientState>, ghost was: seq<Client>, ghost k: nat) returns (any: bool)
    requires Advanced(clients, was, k)
    ensures any <==> SomeDone(was, k)
  {
    any := false;
    for n := 0 to |clients|
      invariant any <==> exists i :: 0 <= i < n && k >= Goal(was[i].numCalls)
    {
      assert clients[n].View().allCalled == clients[n].allCalled;
      any := any || clients[n].allCalled;
    }
  }

  /**
   The unsynchronised call loop goes round while no client has finished, so every client
   makes as many calls as the one with the fewest.
   */
  method CallLoop(clients: seq<ClientState>) returns (rounds: nat)
    requires Distinct(clients) && AllFresh(Views(clients))
    modifies clients
    ensures if clients == [] then rounds == 0 else Least(NumCalls(old(Views(clients))), rounds)
    ensures Advanced(clients, old(Views(clients)), rounds)
  {
    rounds := 0;
    ghost var was := Views(clients);
    Unstarted(clients, was);
    if clients != [] {
      ghost var most := Goal(was[0].numCalls);
      hide M.Payload, CountCall, Distinct, Advanced, Fresh, Views, NoneBeyond, SomeDone, StillCalling, Least, AllFresh;
      var any := AnyAllCalled(clients, was, 0);
      while !any
        invariant Advanced(clients, was, rounds) && NoneBeyond(was, rounds) && any == SomeDone(was, rounds)
        invariant !any ==> rounds < most
        decreases most - rounds, !any
      {
        RoundOver(was, rounds);
        CallRound(clients, was, rounds);
        rounds := rounds + 1;
        any := AnyAllCalled(clients, was, rounds);
        if !any { StillGoing(was, rounds); }
      }
      LoopOver(was, rounds);
    }
  }

  lemma {:induction false} RoundOver(was: seq<Client>, k: nat)
    requires NoneBeyond(was, k) && !SomeDone(was, k)
    ensures StillCalling(was, k) && NoneBeyond(was, k + 1)
  {
  }

  lemma {:induction false} StillGoing(was: seq<Client>, k: nat)
    requires !SomeDone(was, k) && was != []
    ensures k < Goal(was[0].numCalls)
  {
  }

  lemma {:induction false} LoopOver(was: seq<Client>, k: nat)
    requires NoneBeyond(was, k) && SomeDone(was, k)
    ensures Least(NumCalls(was), k)
  {
    var i :| 0 <= i < |was| && k >= Goal(was[i].numCalls);
    assert NumCalls(was)[i] == was[i].numCalls;
  }

  lemma {:induction false} Unstarted(clients: seq<ClientState>, was: seq<Client>)
    requires was == Views(clients) && AllFresh(was)
    ensures Advanced(clients, was, 0) && NoneBeyond(was, 0)
  {
    forall i | 0 <= i < |clients| ensures clients[i].View() == Calls(was[i], 0) {
      assert was[i] == clients[i].View() && Fresh(was[i]);
    }
  }

  /** So the final count of every client is right only if all of them were to make the same number, at least one. */
  lemma {:induction false} AllCountsRight(numCalls: seq<nat>, rounds: nat)
    requires numCalls != [] && Least(numCalls, rounds)
    ensures (forall i :: 0 <= i < |numCalls| ==> numCalls[i] == rounds)
       <==> (numCalls[0] >= 1 && forall i :: 0 <= i < |numCalls| ==> numCalls[i] == numCalls[0])
  {
    var i :| 0 <= i < |numCalls| && Goal(numCalls[i]) == rounds;
    if forall i :: 0 <= i < |numCalls| ==> numCalls[i] == rounds {
      assert numCalls[0] == rounds == numCalls[i];
    }
  }

  // ----- promises -----

  /**
   `PrepareAllReceivedPromise` runs once per server, and sets the promise each time if no
   server expects a call; setting a promise twice throws.
   */
  method PrepareServers(required: seq<nat>) returns (sets: nat, threw: bool)
    ensures threw <==> |required| >= 2 && forall i :: 0 <= i < |required| ==> required[i] == 0
    ensures !threw ==> (sets == 1 <==> |required| == 1 && required[0] == 0) && sets <= 1
  {
    sets, threw := 0, false;
    var none := true;
    for i := 0 to |required|
      invariant none <==> forall k :: 0 <= k < i ==> required[k] == 0
    {
      none := none && required[i] == 0;
    }
    for i := 0 to |required|
      invariant sets == if none && i > 0 then 1 else 0
      invariant threw <==> none && i >= 2
    {
      if none {
        if sets == 1 {
          threw := true;
        } else {
          sets := 1;
        }
      }
    }
  }

  // ----- one client, one replying server -----

  datatype Config = Config(size: nat, calls: nat, receive: nat, toReturn: nat)

  predicate Valid(cfg: Config) { cfg.calls < UINT32 && cfg.receive < UINT32 && cfg.toReturn < UINT32 }

  datatype ClientPc = Calling | Counting | Awaiting | ClientDone

  datatype State = State(
    pc: ClientPc, client: Client,
    allCalledSets: nat,
    allReturned: bool, returnedSets: nat,       // of the client's participant
    server: M.Reception, serverDone: bool,
    allReceived: bool, receivedSets: nat,       // of the server's participant
    requests: seq<Bytes>, results: seq<Bytes>,
    sent: nat, handled: nat, delivered: nat,    // calls sent, handled by the server, returned to the client
    clientCounts: nat, serverCounts: nat)       // failures of the final counter checks

  datatype Step = ClientMain | ServerMain | ServerHandler | ClientHandler

  function Initial(cfg: Config): State {
    var none := cfg.receive == 0;       // PrepareAllReceivedPromise
    State(Calling, Client(true, cfg.size, cfg.calls, cfg.toReturn, 0, [], 0, false, 0, 0, false, 0), 0, false, 0,
          M.Reception(true, cfg.size, cfg.receive, [], 0, false, 0), false, none, Bit(none),
          [], [], 0, 0, 0, 0, 0)
  }

  predicate Enabled(s: State, step: Step) {
    match step
    case ClientMain => s.pc.Calling? || s.pc.Counting? || (s.pc.Awaiting? && s.returnedSets > 0)
    case ServerMain => !s.serverDone && s.receivedSets > 0
    case ServerHandler => s.requests != []
    case ClientHandler => s.results != []
  }

  function ClientMainApply(s: State): State {
    match s.pc
    case Calling =>
      if s.client.allCalled then s.(pc := Awaiting, allCalledSets := s.allCalledSets + 1)
      else s.(pc := Counting, sent := s.sent + 1,
              requests := s.requests + [M.Payload(s.client.size, s.client.callCounter)])
    case Counting => s.(pc := Calling, client := CountCall(s.client))
    case Awaiting =>
      s.(pc := ClientDone, clientCounts := Bit(s.client.callCounter != s.client.numCalls)
                                         + Bit(s.client.returned != s.client.numCallsToReturn)
                                         + Bit(s.client.timedOut != s.client.numCallsToTimeout))
    case ClientDone => s
  }

  function ServerHandlerApply(s: State): State
    requires s.requests != []
  {
    var server := M.OnData(s.server, s.requests[0]);
    var fire := !s.allReceived && server.allReceived;
    s.(requests := s.requests[1..], results := s.results + [Incremented(s.requests[0])],
       server := server, allReceived := s.allReceived || fire, receivedSets := s.receivedSets + Bit(fire),
       handled := s.handled + 1)
  }

  function ClientHandlerApply(s: State): State
    requires s.results != []
  {
    var client := if s.client.allCallsReturned then s.client else OnReturn(s.client, s.results[0]);
    var fire := !s.allReturned && client.allCallsReturned;
    s.(results := s.results[1..], client := client,
       allReturned := s.allReturned || fire, returnedSets := s.returnedSets + Bit(fire),
       delivered := s.delivered + 1)
  }

  /** A step that is not enabled leaves the state alone. */
  function Apply(s: State, step: Step): State {
    if !Enabled(s, step) then s else
    match step
    case ClientMain => ClientMainApply(s)
    case ServerMain => s.(serverDone := true, serverCounts := Bit(s.server.counter != s.server.required))
    case ServerHandler => ServerHandlerApply(s)
    case ClientHandler => ClientHandlerApply(s)
  }

  function Run(cfg: Config, run: seq<Step>): State {
    if run == [] then Initial(cfg) else Apply(Run(cfg, run[..|run| - 1]), run[|run| - 1])
  }

  /** Every element of the schedule is enabled when its turn comes. */
  ghost predicate Legal(cfg: Config, run: seq<Step>) {
    forall i :: 0 <= i < |run| ==> Enabled(Run(cfg, run[..i]), run[i])
  }

  // ----- the inductive invariant -----

  function Request(cfg: Config, k: nat): Bytes { M.Payload(cfg.size, k) }

  function Reply(cfg: Config, k: nat): Bytes { M.Payload(cfg.size, (k + INCREMENT) % UINT32) }

  function Counted(s: State): nat { if s.pc.Counting? && s.sent > 0 then s.sent - 1 else s.sent }

  ghost predicate Channels(cfg: Config, s: State) {
    && s.sent == s.handled + |s.requests|
    && s.handled == s.delivered + |s.results|
    && (forall i :: 0 <= i < |s.requests| ==> s.requests[i] == Request(cfg, s.handled + i))
    && (forall i :: 0 <= i < |s.results| ==> s.results[i] == Reply(cfg, s.delivered + i))
  }

  ghost predicate ClientInv(cfg: Config, s: State) {
    && s.sent <= Goal(cfg.calls)
    && s.client == Client(true, cfg.size, cfg.calls, cfg.toReturn, 0, [],
                          Counted(s), Counted(s) >= Goal(cfg.calls),
                          Min(s.delivered, Goal(cfg.toReturn)), 0, s.delivered >= Goal(cfg.toReturn), 0)
    && (s.pc.Awaiting? || s.pc.ClientDone? ==> s.sent == Goal(cfg.calls))
    && s.allCalledSets == Bit(s.pc.Awaiting? || s.pc.ClientDone?)
    && s.allReturned == (s.delivered >= Goal(cfg.toReturn)) && s.returnedSets == Bit(s.allReturned)
    && (s.pc.ClientDone? ==> s.allReturned)
    && s.clientCounts == (if s.pc.ClientDone? then Bit(cfg.calls == 0) + Bit(cfg.toReturn == 0) else 0)
    && (s.pc.Counting? ==> s.sent > 0)
  }

  ghost predicate ServerInv(cfg: Config, s: State) {
    && s.server == M.Reception(true, cfg.size, cfg.receive, [], Min(s.handled, Goal(cfg.receive)),
                               s.handled >= Goal(cfg.receive), 0)
    && s.allReceived == (cfg.receive == 0 || s.handled >= cfg.receive) && s.receivedSets == Bit(s.allReceived)
    && (s.serverDone ==> s.allReceived)
    && (cfg.receive >= 1 ==> s.serverCounts == 0)
  }

  ghost predicate Inv(cfg: Config, s: State) { Channels(cfg, s) && ClientInv(cfg, s) && ServerInv(cfg, s) }

  lemma {:induction false} SendKeepsInv(cfg: Config, s: State)
    requires Valid(cfg) && Inv(cfg, s) && s.pc.Calling? && !s.client.allCalled
    ensures Inv(cfg, ClientMainApply(s))
  {
    hide M.Payload, Reply;
    var now := ClientMainApply(s);
    assert now.requests == s.requests + [Request(cfg, s.sent)];
    assert ServerInv(cfg, now);
    assert ClientInv(cfg, now);
  }

  lemma {:induction false} ClientMainKeepsInv(cfg: Config, s: State)
    requires Valid(cfg) && Inv(cfg, s) && Enabled(s, ClientMain) && (s.pc.Calling? ==> s.client.allCalled)
    ensures Inv(cfg, ClientMainApply(s))
  {
    hide M.Payload, Request, Reply;
    var now := ClientMainApply(s);
    assert Channels(cfg, now);
    assert ServerInv(cfg, now);
  }

  lemma {:induction false} ServerHandlerKeepsInv(cfg: Config, s: State)
    requires Valid(cfg) && Inv(cfg, s) && s.requests != []
    ensures Inv(cfg, ServerHandlerApply(s))
  {
    ServerHandlerKeepsChannels(cfg, s);
    ServerHandlerKeepsServer(cfg, s);
    hide M.Payload, Incremented, M.OnData, Channels, ServerInv, Request, Reply;
  }

  lemma {:induction false} ServerHandlerKeepsChannels(cfg: Config, s: State)
    requires Valid(cfg) && Inv(cfg, s) && s.requests != []
    ensures Channels(cfg, ServerHandlerApply(s))
  {
    hide ClientInv, ServerInv;
    assert s.requests[0] == Request(cfg, s.handled);
    ReplyIsExpected(cfg.size, s.handled);
    hide M.Payload, Incremented, M.OnData;
  }

  lemma {:induction false} ServerHandlerKeepsServer(cfg: Config, s: State)
    requires Valid(cfg) && Inv(cfg, s) && s.requests != []
    ensures ServerInv(cfg, ServerHandlerApply(s))
  {
    assert s.requests[0] == Request(cfg, s.handled);
    hide M.Payload, Incremented;
  }

  lemma {:induction false} GoodReturn(c: Client, data: Bytes)
    requires c.increasing && !c.allCallsReturned && c.timedOut == c.numCallsToTimeout == 0
    requires c.returned + 1 < UINT32 && c.numCallsToReturn < UINT32
    requires data == M.Payload(c.size, (c.returned + INCREMENT) % UINT32)
    ensures OnReturn(c, data) ==
            c.(returned := c.returned + 1, allCallsReturned := c.returned + 1 >= c.numCallsToReturn)
  {
    hide M.Payload;
  }

  lemma {:induction false} ClientHandlerKeepsInv(cfg: Config, s: State)
    requires Valid(cfg) && Inv(cfg, s) && s.results != []
    ensures Inv(cfg, ClientHandlerApply(s))
  {
    assert s.results[0] == Reply(cfg, s.delivered);
    if !s.client.allCallsReturned { GoodReturn(s.client, s.results[0]); }
    hide M.Payload, Request, M.OnData, OnReturn;
    var now := ClientHandlerApply(s);
    assert Channels(cfg, now);
    assert ClientInv(cfg, now);
  }

  lemma {:induction false} ServerMainKeepsInv(cfg: Config, s: State)
    requires Inv(cfg, s) && Enabled(s, ServerMain)
    ensures Inv(cfg, Apply(s, ServerMain))
  {
    hide M.Payload, Request, Reply;
  }

  lemma {:induction false} StepKeepsInv(cfg: Config, s: State, step: Step)
    requires Valid(cfg) && Inv(cfg, s)
    ensures Inv(cfg, Apply(s, step))
  {
    hide Inv, Valid, ClientMainApply, ServerHandlerApply, ClientHandlerApply;
    if Enabled(s, step) {
      match step
      case ClientMain =>
        if s.pc.Calling? && !s.client.allCalled { SendKeepsInv(cfg, s); } else { ClientMainKeepsInv(cfg, s); }
      case ServerHandler => ServerHandlerKeepsInv(cfg, s);
      case ClientHandler => ClientHandlerKeepsInv(cfg, s);
      case ServerMain => ServerMainKeepsInv(cfg, s);
    }
  }

  lemma {:induction false} InitialInv(cfg: Config)
    ensures Inv(cfg, Initial(cfg))
  {
  }

  lemma {:induction false} Reachable(cfg: Config, run: seq<Step>)
    requires Valid(cfg)
    ensures Inv(cfg, Run(cfg, run))
  {
    hide Inv, Apply, Initial, Valid;
    if run == [] {
      InitialInv(cfg);
    } else {
      Reachable(cfg, run[..|run| - 1]);
      StepKeepsInv(cfg, Run(cfg, run[..|run| - 1]), run[|run| - 1]);
    }
  }

  // ----- the main results -----

  /** In every reachable state no data expectation has failed and no promise was set twice. */
  lemma {:induction false} Safety(cfg: Config, run: seq<Step>)
    requires Valid(cfg)
    ensures var s := Run(cfg, run);
            && s.client.failures == 0 && s.server.failures == 0
            && s.allCalledSets <= 1 && s.returnedSets <= 1 && s.receivedSets <= 1
            && s.client.returned <= s.delivered <= s.handled <= s.sent <= Goal(cfg.calls)
  {
    Reachable(cfg, run);
  }

  ghost predicate Quiescent(s: State) { forall step :: !Enabled(s, step) }

  /** Both threads finished and nothing at all was reported. */
  predicate Passed(s: State) {
    && s.pc.ClientDone? && s.serverDone
    && s.client.failures == 0 && s.server.failures == 0 && s.clientCounts == 0 && s.serverCounts == 0
  }

  /**
   When nothing can move any more every call was sent, handled and returned.  The test
   then passes exactly when the two expected counts lie between one and the number of
   calls; a larger count leaves its waiter waiting.
   */
  lemma {:induction false} Outcome(cfg: Config, run: seq<Step>)
    requires Valid(cfg) && Quiescent(Run(cfg, run))
    ensures var s := Run(cfg, run);
            && s.client.callCounter == s.sent == s.handled == s.delivered == Goal(cfg.calls)
            && s.server.counter == Min(Goal(cfg.calls), Goal(cfg.receive))
            && s.client.returned == Min(Goal(cfg.calls), Goal(cfg.toReturn))
            && (s.pc.ClientDone? <==> Goal(cfg.toReturn) <= Goal(cfg.calls))
            && (s.serverDone <==> cfg.receive <= Goal(cfg.calls))
            && (cfg.receive >= 1 ==> (Passed(s) <==> 1 <= cfg.toReturn <= cfg.calls && cfg.receive <= cfg.calls))
            && (cfg.receive == 0 ==> (Passed(s) <==> 1 <= cfg.toReturn <= cfg.calls && s.serverCounts == 0))
  {
    Reachable(cfg, run);
    var s := Run(cfg, run);
    assert !Enabled(s, ClientMain) && !Enabled(s, ServerMain) && !Enabled(s, ServerHandler);
    assert !Enabled(s, ClientHandler);
    hide M.Payload, Request, Reply, Run;
  }

  /**
   A server that expects no call checks its counter as soon as its thread gets there, and
   passes if and only if no call has been handled by then.
   */
  lemma {:induction false} IdleServer(cfg: Config, run: seq<Step>, i: nat)
    requires Valid(cfg) && cfg.receive == 0
    requires i < |run| && run[i].ServerMain? && Enabled(Run(cfg, run[..i]), run[i])
    ensures Run(cfg, run).serverDone
    ensures Run(cfg, run).serverCounts == 0 <==> Run(cfg, run[..i]).handled == 0
  {
    hide Apply, Enabled, Inv;
    var head := run[..|run| - 1];
    Reachable(cfg, head);
    if i == |head| {
      ServerChecks(cfg, Run(cfg, head));
    } else {
      assert head[..i] == run[..i] && head[i] == run[i];
      IdleServer(cfg, head, i);
      ServerChecksOnce(Run(cfg, head), run[|head|]);
    }
  }

  lemma {:induction false} ServerChecks(cfg: Config, s: State)
    requires Inv(cfg, s) && cfg.receive == 0 && Enabled(s, ServerMain)
    ensures Apply(s, ServerMain).serverDone && (Apply(s, ServerMain).serverCounts == 0 <==> s.handled == 0)
  {
  }

  lemma {:induction false} ServerChecksOnce(s: State, step: Step)
    requires s.serverDone
    ensures Apply(s, step).serverDone && Apply(s, step).serverCounts == s.serverCounts
  {
  }

  /** Every run in which the server has finished contains its check. */
  lemma {:induction false} ServerChecked(cfg: Config, run: seq<Step>) returns (i: nat)
    requires Run(cfg, run).serverDone
    ensures i < |run| && run[i].ServerMain? && Enabled(Run(cfg, run[..i]), run[i])
  {
    var head := run[..|run| - 1];
    if Run(cfg, head).serverDone {
      hide Apply, Enabled;
      i := ServerChecked(cfg, head);
      assert head[..i] == run[..i];
    } else {
      i := |head|;
    }
  }

  /** So without an expected call the outcome depends on a race, and on nothing else. */
  lemma {:induction false} OutcomeWithoutCalls(cfg: Config, run: seq<Step>, i: nat)
    requires Valid(cfg) && cfg.receive == 0 && Quiescent(Run(cfg, run))
    requires i < |run| && run[i].ServerMain? && Enabled(Run(cfg, run[..i]), run[i])
    ensures Passed(Run(cfg, run)) <==> 1 <= cfg.toReturn <= cfg.calls && Run(cfg, run[..i]).handled == 0
  {
    hide Run, Quiescent, Enabled;
    IdleServer(cfg, run, i);
    Outcome(cfg, run);
  }

  /** The tests' own setting: all three counts equal and positive, past 256 too. */
  lemma {:induction false} EndToEnd(size: nat, n: nat, run: seq<Step>)
    requires 1 <= n < UINT32 && Quiescent(Run(Config(size, n, n, n), run))
    ensures var s := Run(Config(size, n, n, n), run);
            Passed(s) && s.client.callCounter == s.server.counter == s.client.returned == n
  {
    hide Run, Quiescent;
    Outcome(Config(size, n, n, n), run);
  }

  // ----- every run ends -----

  function Ahead(pc: ClientPc): nat {
    match pc
    case Calling => 2 case Counting => 2 case Awaiting => 1 case ClientDone => 0
  }

  function Rank(cfg: Config, s: State): int {
    4 * (Goal(cfg.calls) - s.sent) + Bit(s.pc.Counting?) + 2 * |s.requests| + |s.results|
    + Ahead(s.pc)
    + Bit(!s.serverDone)
  }

  lemma {:induction false} RankDecreases(cfg: Config, s: State, step: Step)
    requires Inv(cfg, s) && Enabled(s, step)
    ensures 0 <= Rank(cfg, Apply(s, step)) < Rank(cfg, s)
  {
    hide M.Payload, M.OnData, OnReturn, CountCall, Incremented, Request, Reply;
  }

  lemma {:induction false} RunsAreBounded(cfg: Config, run: seq<Step>)
    requires Valid(cfg) && Legal(cfg, run)
    ensures |run| + Rank(cfg, Run(cfg, run)) <= 4 * Goal(cfg.calls) + 3 && Rank(cfg, Run(cfg, run)) >= 0
  {
    hide Apply, Inv, Enabled;
    if run != [] {
      var head := run[..|run| - 1];
      assert forall i :: 0 <= i < |head| ==> head[..i] == run[..i] && head[i] == run[i];
      RunsAreBounded(cfg, head);
      Reachable(cfg, head);
      assert Enabled(Run(cfg, run[..|run| - 1]), run[|run| - 1]);
      hide Rank, Run;
      RankDecreases(cfg, Run(cfg, head), run[|run| - 1]);
    }
  }
}
