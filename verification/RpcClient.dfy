/**
 The laws of one RPC client's counters: what it sends over any number of calls, and what
 any sequence of returned and timed-out calls leaves in its counters and its list of
 expected data.
 */
module RpcClient {
  import opened Arith
  import M = Matching
  import opened Rpc

  // ----- the calls -----

  /** The client after `k` invocations of `Call`, and what it has sent. */
  function CallLog(c: Client, k: nat): (Client, seq<Bytes>) {
    if k == 0 then (c, []) else
    var (was, log) := CallLog(c, k - 1);
    (Called(was), log + SentBy(was))
  }

  /** Every byte of call `i` is the low byte of `i`. */
  ghost predicate CallData(data: Bytes, size: nat, i: nat) {
    |data| == size && forall b :: 0 <= b < size ==> data[b] == i % 256
  }

  /** A fresh client makes its calls, at least one, and then no more. */
  lemma {:induction false} CallsSent(c: Client, k: nat)
    requires Rpc.Fresh(c)
    ensures var (now, log) := CallLog(c, k); var made := Min(k, if c.numCalls == 0 then 1 else c.numCalls);
            && |log| == made && (forall i :: 0 <= i < made ==> CallData(log[i], c.size, i))
            && now == c.(callCounter := made, allCalled := made > 0 && made >= c.numCalls)
  {
    if k > 0 {
      CallsSent(c, k - 1);
      var (was, log) := CallLog(c, k - 1);
      if !was.allCalled {
        OneMoreCall(c, k - 1);
        assert CallData(M.Payload(c.size, k - 1), c.size, k - 1);
      }
      hide M.Payload, CountCall, CallData;
    }
  }

  // ----- the returns and timeouts -----

  datatype Event = Return(data: Bytes) | Timeout

  function Reacted(c: Client, e: Event): Client {
    match e
    case Return(data) => OnReturn(c, data)
    case Timeout => OnTimeout(c)
  }

  function After(c: Client, events: seq<Event>): Client {
    if events == [] then c else Reacted(After(c, events[..|events| - 1]), events[|events| - 1])
  }

  /** The data that came back, in order. */
  function Returns(events: seq<Event>): seq<Bytes> {
    if events == [] then [] else
    var last := events[|events| - 1];
    Returns(events[..|events| - 1]) + if last.Return? then [last.data] else []
  }

  function Timeouts(events: seq<Event>): nat {
    if events == [] then 0 else Timeouts(events[..|events| - 1]) + if events[|events| - 1].Timeout? then 1 else 0
  }

  predicate Fresh(c: Client) { c.returned == 0 && c.timedOut == 0 && !c.allCallsReturned && c.failures == 0 }

  lemma {:induction false} EachCounts(events: seq<Event>)
    ensures |Returns(events)| + Timeouts(events) == |events|
  {
    if events != [] { EachCounts(events[..|events| - 1]); }
  }

  lemma {:induction false} SumMod(a: nat, b: nat)
    ensures (a % UINT32 + b % UINT32) % UINT32 == (a + b) % UINT32
  {
    var q, r := a / UINT32 + b / UINT32, a % UINT32 + b % UINT32;
    assert a + b == q * UINT32 + r;
    if r < UINT32 {
      Division(a + b, UINT32, q, r);
    } else {
      Division(a + b, UINT32, q + 1, r - UINT32);
      Division(r, UINT32, 1, r - UINT32);
    }
  }

  lemma {:induction false} NextMod(k: nat)
    ensures Next(k % UINT32) == (k + 1) % UINT32
  {
    SumMod(k, 1);
  }

  /** Some number of events was enough, with both sums computed in 32 bits. */
  ghost predicate Enough(c: Client, count: nat) {
    exists k :: 1 <= k <= count && k % 0x1_0000_0000 >= (c.numCallsToReturn + c.numCallsToTimeout) % 0x1_0000_0000
  }

  /** The client after `r` returns and `t` timeouts. */
  ghost predicate Counting(c: Client, now: Client, r: nat, t: nat) {
    && now.returned == r % UINT32 && now.timedOut == t % UINT32
    && (now.allCallsReturned <==> Enough(c, r + t))
    && now.(expected := c.expected, failures := 0, returned := 0, timedOut := 0, allCallsReturned := false) == c
  }

  lemma {:induction false} OneMoreBack(c: Client, r: nat, t: nat)
    ensures SumReaches(r % UINT32, t % UINT32, c.numCallsToReturn, c.numCallsToTimeout) <==>
            (r + t) % UINT32 >= (c.numCallsToReturn + c.numCallsToTimeout) % UINT32
    ensures r + t > 0 ==> (Enough(c, r + t) <==>
              || Enough(c, r + t - 1)
              || (r + t) % UINT32 >= (c.numCallsToReturn + c.numCallsToTimeout) % UINT32)
  {
    SumMod(r, t);
  }

  lemma {:induction false} ReturnCounts(c: Client, now: Client, data: Bytes, r: nat, t: nat)
    requires Counting(c, now, r, t)
    ensures Counting(c, OnReturn(now, data), r + 1, t)
  {
    NextMod(r);
    OneMoreBack(c, r + 1, t);
    hide ReturnMatches, M.Erased, Next, SumReaches, Enough;
  }

  lemma {:induction false} TimeoutCounts(c: Client, now: Client, r: nat, t: nat)
    requires Counting(c, now, r, t)
    ensures Counting(c, OnTimeout(now), r, t + 1)
  {
    NextMod(t);
    OneMoreBack(c, r, t + 1);
    hide Next, SumReaches, Enough;
  }

  lemma {:induction false} CountingEvents(c: Client, events: seq<Event>)
    requires Fresh(c)
    ensures Counting(c, After(c, events), |Returns(events)|, Timeouts(events))
  {
    hide Counting, OnReturn, OnTimeout;
    if events == [] {
      FreshCounts(c);
    } else {
      var before, last := events[..|events| - 1], events[|events| - 1];
      CountingEvents(c, before);
      match last
      case Return(data) => ReturnCounts(c, After(c, before), data, |Returns(before)|, Timeouts(before));
      case Timeout => TimeoutCounts(c, After(c, before), |Returns(before)|, Timeouts(before));
    }
  }

  lemma {:induction false} FreshCounts(c: Client)
    requires Fresh(c)
    ensures Counting(c, c, 0, 0)
  {
  }

  /** After any events: the counters count, modulo 2^32, and the flag is set by the first event that is enough. */
  lemma {:induction false} EventsCounted(c: Client, events: seq<Event>)
    requires Fresh(c)
    ensures var now := After(c, events);
            && now.timedOut == Timeouts(events) % 0x1_0000_0000
            && now.returned == |Returns(events)| % 0x1_0000_0000
            && (now.allCallsReturned <==> Enough(c, |events|))
            && now.(expected := c.expected, failures := 0, returned := 0, timedOut := 0, allCallsReturned := false) == c
  {
    CountingEvents(c, events);
    EachCounts(events);
    hide After, Returns, Timeouts, Enough;
  }

  /** Below the wrap-around, all calls are back exactly after as many events as calls, and after at least one. */
  lemma {:induction false} AllBackIff(c: Client, events: seq<Event>)
    requires Fresh(c) && |events| < 0x1_0000_0000 && c.numCallsToReturn + c.numCallsToTimeout < 0x1_0000_0000
    ensures After(c, events).allCallsReturned <==>
            |events| >= 1 && |events| >= c.numCallsToReturn + c.numCallsToTimeout
  {
    EventsCounted(c, events);
    hide After;
    if |events| >= 1 && |events| >= c.numCallsToReturn + c.numCallsToTimeout {
      assert |events| % UINT32 == |events|;
      assert Enough(c, |events|);
    }
  }

  /** Unordered matching is multiset subtraction here, too; timeouts take nothing off. */
  lemma {:induction false} ReturnsSubtract(c: Client, events: seq<Event>)
    requires Fresh(c) && !c.increasing
    ensures var now := After(c, events);
            && multiset(now.expected) == multiset(c.expected) - multiset(Returns(events))
            && now.failures == |multiset(Returns(events)) - multiset(c.expected)|
  {
    hide OnReturn, OnTimeout;
    if events != [] {
      var before, last := events[..|events| - 1], events[|events| - 1];
      ReturnsSubtract(c, before);
      CountingEvents(c, before);
      var was := After(c, before);
      assert !was.increasing;
      match last
      case Return(data) => OneSubtracted(was, data, multiset(c.expected), Returns(before));
      case Timeout => TimeoutKeeps(was);
    }
  }

  lemma {:induction false} TimeoutKeeps(c: Client)
    ensures OnTimeout(c).expected == c.expected && OnTimeout(c).failures == c.failures
  {
    hide AllBack, Next;
  }

  lemma {:induction false} OneSubtracted(was: Client, data: Bytes, e: multiset<Bytes>, back: seq<Bytes>)
    requires !was.increasing && multiset(was.expected) == e - multiset(back)
    requires was.failures == |multiset(back) - e|
    ensures multiset(OnReturn(was, data).expected) == e - multiset(back + [data])
    ensures OnReturn(was, data).failures == |multiset(back + [data]) - e|
  {
    hide M.Erased, AllBack, Next;
    var r := multiset(back);
    M.ErasedOnce(was.expected, data);
    M.OneMore(e, r, data);
    assert multiset(back + [data]) == r + multiset{data};
    assert |r - e + multiset{data}| == |r - e| + 1;
    assert data in was.expected <==> data in e - r;
  }

  /** Every byte of the `k`-th return is the low byte of `k + 100`. */
  predicate ReturnData(data: Bytes, size: nat, k: nat) {
    |data| == size && forall b :: 0 <= b < size ==> data[b] == (k + 100) % 256
  }

  /** How many of the returns do not carry what is expected in their place. */
  function Wrong(back: seq<Bytes>, size: nat): nat {
    if back == [] then 0 else
    var k := |back| - 1;
    Wrong(back[..k], size) + if ReturnData(back[k], size, k) then 0 else 1
  }

  lemma {:induction false} ExpectedByte(k: nat)
    ensures (k % UINT32 + INCREMENT) % UINT32 % 256 == (k + 100) % 256
  {
    assert INCREMENT % UINT32 == INCREMENT == 100;
    SumMod(k, 100);
    LowByte(k);
    var q, r := k / 256, k % 256;
    assert k + 100 == q * 256 + (r + 100);
    ShiftedLowByte(r + 100, q);
  }

  lemma {:induction false} ExpectedBytes(data: Bytes, size: nat, k: nat)
    ensures data == M.Payload(size, (k % UINT32 + INCREMENT) % UINT32) <==> ReturnData(data, size, k)
  {
    ExpectedByte(k);
    PayloadBytes(data, size, (k % UINT32 + INCREMENT) % UINT32);
  }

  lemma {:induction false} PayloadBytes(data: Bytes, size: nat, value: nat)
    ensures data == M.Payload(size, value) <==> |data| == size && forall b :: 0 <= b < size ==> data[b] == value % 256
  {
  }

  lemma {:induction false} WrongAppend(back: seq<Bytes>, data: Bytes, size: nat)
    ensures Wrong(back + [data], size) == Wrong(back, size) + if ReturnData(data, size, |back|) then 0 else 1
  {
    assert (back + [data])[..|back|] == back;
    hide ReturnData;
  }

  lemma {:induction false} OneChecked(was: Client, data: Bytes, k: nat)
    requires was.increasing && was.returned == k % UINT32
    ensures OnReturn(was, data).expected == was.expected
    ensures OnReturn(was, data).failures == was.failures + if ReturnData(data, was.size, k) then 0 else 1
  {
    ExpectedBytes(data, was.size, k);
    hide M.Payload, AllBack, ReturnData, Next;
  }

  /** With increasing data the failures are the returns that carry something else than the bytes for their place. */
  lemma {:induction false} WrongCounted(c: Client, events: seq<Event>)
    requires Fresh(c) && c.increasing
    ensures After(c, events).failures == Wrong(Returns(events), c.size) && After(c, events).expected == c.expected
  {
    hide OnReturn, OnTimeout, ReturnData;
    if events != [] {
      var before, last := events[..|events| - 1], events[|events| - 1];
      WrongCounted(c, before);
      CountingEvents(c, before);
      var was, back := After(c, before), Returns(before);
      assert was.increasing && was.size == c.size && was.returned == |back| % UINT32;
      match last
      case Return(data) =>
        OneChecked(was, data, |back|);
        assert Returns(events) == back + [data];
        WrongAppend(back, data, c.size);
      case Timeout =>
        TimeoutKeeps(was);
        assert Returns(events) == back;
    }
  }
}
