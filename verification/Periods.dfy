/**
 The publishers and the subscriber of the two periodic tests.  A message carries the
 sender's time and a running index; the subscriber checks both and requests `Stop` when
 the 32-bit sum of its counters equals the 32-bit product of the expected numbers.
 */
module Periods {
  import opened Arith
  import opened Wrappers

  datatype Message = Message(sentTime: int, index: nat)

  /** `received` are the message counters per publisher; `failures` counts failed assertions. */
  datatype Reception = Reception(currentTime: int, received: seq<nat>, failures: nat, stops: nat)

  function Total(counters: seq<nat>): nat {
    if counters == [] then 0 else Total(counters[..|counters| - 1]) + counters[|counters| - 1]
  }

  predicate Accepted(r: Reception, periods: seq<int>, publisher: nat, m: Message)
    requires publisher < |r.received| && |periods| == |r.received| + 1 && periods[publisher + 1] > 0
  {
    && r.currentTime - periods[0] <= m.sentTime <= r.currentTime + periods[0]
    && (m.index > 0 ==> m.sentTime / m.index == periods[publisher + 1])
    && m.index == r.received[publisher]
  }

  function Expected(numMessages: nat, publisherCount: nat): nat { numMessages * publisherCount % UINT32 }

  function Counted(r: Reception, publisher: nat, numMessages: nat): (after: Reception)
    requires publisher < |r.received|
    ensures |after.received| == |r.received|
  {
    var received := r.received[publisher := r.received[publisher] + 1];
    var stop := Total(received) % UINT32 == Expected(numMessages, |received|);
    r.(received := received, stops := r.stops + if stop then 1 else 0)
  }

  /** A failed assertion leaves the callback at once. */
  function AfterMessage(r: Reception, periods: seq<int>, publisher: nat, numMessages: nat,
                        m: Message): (after: Reception)
    requires publisher < |r.received| && |periods| == |r.received| + 1 && periods[publisher + 1] > 0
    ensures |after.received| == |r.received|
  {
    if !Accepted(r, periods, publisher, m) then r.(failures := r.failures + 1) else Counted(r, publisher, numMessages)
  }

  /** Both step handlers assert that the time is a multiple of the period. */
  predicate OnPeriod(now: int, period: int) { period > 0 && now % period == 0 }

  /** What a publisher sends in its step, while messages are left; a failed assertion ends the handler. */
  function Publication(index: nat, numMessages: nat, period: int, now: int): Option<Message> {
    if OnPeriod(now, period) && index < numMessages then Some(Message(now, index)) else None
  }

  /** The subscriber notes the time before it asserts. */
  function AfterStep(r: Reception, period: int, now: int): Reception {
    r.(currentTime := now, failures := r.failures + if OnPeriod(now, period) then 0 else 1)
  }

  class Publisher {
    const period: int
    const numMessages: nat
    var messageIndex: nat
    var failures: nat

    constructor (period: int, numMessages: nat)
      requires period > 0
      ensures this.period == period && this.numMessages == numMessages && messageIndex == failures == 0
    {
      this.period, this.numMessages := period, numMessages;
      messageIndex, failures := 0, 0;
    }

    method SimulationStep(now: int) returns (published: Option<Message>)
      requires period > 0
      modifies this
      ensures published == Publication(old(messageIndex), numMessages, period, now)
      ensures messageIndex == old(messageIndex) + if published.Some? then 1 else 0
      ensures failures == old(failures) + if OnPeriod(now, period) then 0 else 1
    {
      published := None;
      if now % period != 0 {
        failures := failures + 1;
        return;
      }
      if messageIndex < numMessages {
        published := Some(Message(now, messageIndex));
        messageIndex := messageIndex + 1;
      }
    }
  }

  class Subscriber {
    const periods: seq<int>
    const numMessages: nat
    var currentTime: int
    var messageIndexes: array<nat>
    var failures: nat
    var stops: nat

    ghost predicate Valid()
      reads this, messageIndexes
    {
      |periods| == messageIndexes.Length + 1 && forall i :: 0 <= i < |periods| ==> periods[i] > 0
    }

    ghost function State(): Reception
      reads this, messageIndexes
    {
      Reception(currentTime, messageIndexes[..], failures, stops)
    }

    constructor (periods: seq<int>, numMessages: nat)
      requires periods != [] && forall i :: 0 <= i < |periods| ==> periods[i] > 0
      ensures Valid() && fresh(messageIndexes) && this.periods == periods && this.numMessages == numMessages
      ensures State() == Reception(0, seq(|periods| - 1, _ => 0), 0, 0)
    {
      this.periods := periods;
      this.numMessages := numMessages;
      messageIndexes := new nat[|periods| - 1](_ => 0);
      currentTime, failures, stops := 0, 0, 0;
    }

    method SimulationStep(now: int)
      requires Valid()
      modifies this
      ensures Valid() && messageIndexes == old(messageIndexes)
      ensures State() == AfterStep(old(State()), periods[0], now)
    {
      currentTime := now;
      if now % periods[0] != 0 {
        failures := failures + 1;
      }
    }

    method ReceiveMessage(publisher: nat, m: Message)
      requires Valid() && publisher < messageIndexes.Length
      modifies this, messageIndexes
      ensures Valid() && messageIndexes == old(messageIndexes)
      ensures State() == AfterMessage(old(State()), periods, publisher, numMessages, m)
    {
      assert Accepted(State(), periods, publisher, m) <==>
             && currentTime - periods[0] <= m.sentTime <= currentTime + periods[0]
             && (m.index > 0 ==> m.sentTime / m.index == periods[publisher + 1])
             && m.index == messageIndexes[publisher];
      if !(currentTime - periods[0] <= m.sentTime && m.sentTime <= currentTime + periods[0]) {
        failures := failures + 1;
        return;
      }
      if m.index > 0 && m.sentTime / m.index != periods[publisher + 1] {
        failures := failures + 1;
        return;
      }
      if m.index != messageIndexes[publisher] {
        failures := failures + 1;
        return;
      }
      hide Accepted, Expected, Total;
      messageIndexes[publisher] := messageIndexes[publisher] + 1;
      var sumOfIndexes := SumOfIndexes();
      if sumOfIndexes == Expected(numMessages, messageIndexes.Length) {
        stops := stops + 1;
      }
    }

    /** A 32-bit sum: every addition wraps. */
    method SumOfIndexes() returns (sum: nat)
      ensures sum == Total(messageIndexes[..]) % UINT32
    {
      sum := 0;
      for i := 0 to messageIndexes.Length
        invariant sum == Total(messageIndexes[..i]) % UINT32
      {
        assert messageIndexes[..i + 1][..i] == messageIndexes[..i];
        sum := (sum + messageIndexes[i]) % UINT32;
      }
      assert messageIndexes[..messageIndexes.Length] == messageIndexes[..];
    }
  }

  // ----- how often Stop is requested -----

  lemma {:induction false} TotalAfter(counters: seq<nat>, i: nat)
    requires i < |counters|
    ensures Total(counters[i := counters[i] + 1]) == Total(counters) + 1
  {
    var after := counters[i := counters[i] + 1];
    if i == |counters| - 1 {
      assert after[..i] == counters[..i];
    } else {
      var before := counters[..|counters| - 1];
      assert after[..|after| - 1] == before[i := before[i] + 1];
      TotalAfter(before, i);
    }
  }

  /** Counters that stay at or below `each` add up to the product exactly when all are there. */
  lemma {:induction false} TotalBound(counters: seq<nat>, each: nat)
    requires forall i :: 0 <= i < |counters| ==> counters[i] <= each
    ensures Total(counters) <= each * |counters|
    ensures Total(counters) == each * |counters| <==> forall i :: 0 <= i < |counters| ==> counters[i] == each
  {
    TotalBoundAt(counters, each);
    hide Total;
  }

  lemma {:induction false} TotalBoundAt(counters: seq<nat>, each: nat)
    requires forall i :: 0 <= i < |counters| ==> counters[i] <= each
    ensures Total(counters) <= At(each, |counters|)
    ensures Total(counters) == At(each, |counters|) <==> forall i :: 0 <= i < |counters| ==> counters[i] == each
  {
    AtNext(each, |counters| - 1);
    hide At;
    if counters != [] {
      var before := counters[..|counters| - 1];
      assert forall i :: 0 <= i < |before| ==> before[i] == counters[i];
      TotalBoundAt(before, each);
      OneMoreCounter(counters, each, Total(before), At(each, |before|));
    }
  }

  lemma {:induction false} OneMoreCounter(counters: seq<nat>, each: nat, sum: nat, bound: int)
    requires counters != [] && counters[|counters| - 1] <= each
    requires var before := counters[..|counters| - 1];
             && sum == Total(before) <= bound
             && (sum == bound <==> forall i :: 0 <= i < |before| ==> before[i] == each)
    ensures Total(counters) <= bound + each
    ensures Total(counters) == bound + each <==> forall i :: 0 <= i < |counters| ==> counters[i] == each
  {
    var before := counters[..|counters| - 1];
    assert counters == before + [counters[|counters| - 1]];
  }

  /** The sums `1..total` whose low 32 bits equal those of `goal`. */
  function Hits(total: nat, goal: nat): nat {
    if total == 0 then 0 else Hits(total - 1, goal) + if total % UINT32 == goal % UINT32 then 1 else 0
  }

  /** Every accepted message counts, so the requests are the sums that hit the product. */
  lemma {:induction false} StopsAreHits(r: Reception, publisher: nat, numMessages: nat)
    requires publisher < |r.received| && r.stops == Hits(Total(r.received), numMessages * |r.received|)
    ensures var after := Counted(r, publisher, numMessages);
            && Total(after.received) == Total(r.received) + 1
            && after.stops == Hits(Total(after.received), numMessages * |after.received|)
  {
    TotalAfter(r.received, publisher);
  }

  lemma {:induction false} HitsClosedForm(total: nat, goal: nat)
    ensures var low := goal % UINT32;
            Hits(total, goal) == (total - low) / UINT32 + if low == 0 then 0 else 1
  {
    var low := goal % UINT32;
    if total > 0 {
      HitsClosedForm(total - 1, goal);
      var q, r := (total - low) / UINT32, (total - low) % UINT32;
      if r == 0 {
        Division(total, UINT32, q, low);
        Division(total - 1 - low, UINT32, q - 1, UINT32 - 1);
      } else {
        Division(total - 1 - low, UINT32, q, r - 1);
        if total % UINT32 == low {
          Division(total - low, UINT32, total / UINT32, 0);
        }
      }
    } else {
      Division(-low, UINT32, if low == 0 then 0 else -1, if low == 0 then 0 else UINT32 - low);
    }
  }

  /**
   When all messages have been received, `Stop` has been requested exactly once if and only
   if there were any and their number is at most 2^32.
   */
  lemma {:induction false} StopExactlyOnce(goal: nat)
    ensures Hits(goal, goal) == 1 <==> 1 <= goal <= 0x1_0000_0000
  {
    HitsClosedForm(goal, goal);
    var q, low := goal / UINT32, goal % UINT32;
    Division(goal - low, UINT32, q, 0);
  }

  /** Below that bound it is not requested before the last message. */
  lemma {:induction false} NoEarlyStop(total: nat, goal: nat)
    requires total < goal <= 0x1_0000_0000
    ensures Hits(total, goal) == 0
  {
    HitsClosedForm(total, goal);
    if goal < UINT32 {
      Division(total - goal, UINT32, -1, total - goal + UINT32);
    }
  }
}
