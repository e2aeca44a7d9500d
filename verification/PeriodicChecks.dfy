/**
 What the assertions of the periodic tests catch: the publisher's and the subscriber's
 handlers for any sequence of steps and messages, whether or not the virtual time
 synchronisation would allow it.
 */
module PeriodicChecks {
  import opened Arith
  import opened Periods
  import opened Wrappers

  // ----- the publisher -----

  /** The step times that are multiples of the period. */
  function OnTimes(times: seq<int>, period: int): seq<int>
    requires period > 0
  {
    if times == [] then [] else
    var now := times[|times| - 1];
    OnTimes(times[..|times| - 1], period) + if now % period == 0 then [now] else []
  }

  /** What the publisher has sent, and its failures, after steps at these times. */
  function Published(numMessages: nat, period: int, times: seq<int>): (seq<Message>, nat) {
    if times == [] then ([], 0) else
    var now := times[|times| - 1];
    var (sent, failures) := Published(numMessages, period, times[..|times| - 1]);
    (sent + match Publication(|sent|, numMessages, period, now) case None => [] case Some(message) => [message],
     failures + if OnPeriod(now, period) then 0 else 1)
  }

  /** The messages are the first steps on the period, numbered from 0; every other step is a failure. */
  lemma {:induction false} PublishedIs(numMessages: nat, period: int, times: seq<int>)
    requires period > 0
    ensures var (sent, failures) := Published(numMessages, period, times);
            var onTimes := OnTimes(times, period);
            && |sent| == Min(numMessages, |onTimes|)
            && (forall k :: 0 <= k < |sent| ==> sent[k] == Message(onTimes[k], k))
            && failures == |times| - |onTimes|
  {
    if times != [] {
      PublishedIs(numMessages, period, times[..|times| - 1]);
    }
  }

  // ----- the subscriber -----

  datatype Event = Tick(now: int) | Arrival(publisher: nat, message: Message)

  ghost predicate Known(periods: seq<int>, events: seq<Event>) {
    && periods != [] && (forall i :: 0 <= i < |periods| ==> periods[i] > 0)
    && forall k :: 0 <= k < |events| && events[k].Arrival? ==> events[k].publisher + 1 < |periods|
  }

  function Handled(r: Reception, periods: seq<int>, numMessages: nat, event: Event): (after: Reception)
    requires |periods| == |r.received| + 1
    requires event.Arrival? ==> event.publisher < |r.received| && periods[event.publisher + 1] > 0
    ensures |after.received| == |r.received|
  {
    match event
    case Tick(now) => AfterStep(r, periods[0], now)
    case Arrival(publisher, message) => AfterMessage(r, periods, publisher, numMessages, message)
  }

  ghost function After(periods: seq<int>, numMessages: nat, events: seq<Event>): (r: Reception)
    requires Known(periods, events)
    ensures |r.received| + 1 == |periods|
  {
    if events == [] then Reception(0, seq(|periods| - 1, _ => 0), 0, 0)
    else Handled(After(periods, numMessages, events[..|events| - 1]), periods, numMessages, events[|events| - 1])
  }

  /** The time of the last step. */
  function Now(events: seq<Event>): int {
    if events == [] then 0 else
    match events[|events| - 1]
    case Tick(now) => now
    case Arrival(_, _) => Now(events[..|events| - 1])
  }

  /** `event` comes after `before`: the step is off the period, or the message is out of its window, place or period. */
  predicate Violates(periods: seq<int>, before: seq<Event>, event: Event)
    requires periods != [] && periods[0] > 0 && (event.Arrival? ==> event.publisher + 1 < |periods|)
    decreases |before|, 1
  {
    match event
    case Tick(now) => now % periods[0] != 0
    case Arrival(publisher, m) =>
      || m.sentTime < Now(before) - periods[0] || m.sentTime > Now(before) + periods[0]
      || m.index != Counts(periods, before, publisher)
      || (m.index > 0 && !(periods[publisher + 1] * m.index <= m.sentTime < (periods[publisher + 1] + 1) * m.index))
  }

  /** The messages of one publisher that were in order. */
  function Counts(periods: seq<int>, events: seq<Event>, publisher: nat): nat
    requires periods != [] && periods[0] > 0 && publisher + 1 < |periods|
    decreases |events|, 0
  {
    if events == [] then 0 else
    var before, last := events[..|events| - 1], events[|events| - 1];
    Counts(periods, before, publisher)
    + if last.Arrival? && last.publisher == publisher && !Violates(periods, before, last) then 1 else 0
  }

  ghost function Violations(periods: seq<int>, events: seq<Event>): nat
    requires Known(periods, events)
  {
    if events == [] then 0 else
    var before, last := events[..|events| - 1], events[|events| - 1];
    Violations(periods, before) + if Violates(periods, before, last) then 1 else 0
  }

  lemma {:induction false} QuotientIs(time: int, index: nat, period: int)
    requires index > 0
    ensures time / index == period <==> period * index <= time < (period + 1) * index
  {
    var q, r := time / index, time % index;
    assert time == q * index + r;
    Distribute(q, 1, index);
    Distribute(period, 1, index);
    Monotone(q + 1, period, index);
    Monotone(period + 1, q, index);
  }

  lemma {:induction false} AcceptedIff(r: Reception, periods: seq<int>, publisher: nat, m: Message)
    requires publisher < |r.received| && |periods| == |r.received| + 1 && periods[publisher + 1] > 0
    ensures Accepted(r, periods, publisher, m) <==>
            && r.currentTime - periods[0] <= m.sentTime <= r.currentTime + periods[0]
            && m.index == r.received[publisher]
            && (m.index > 0 ==>
                  periods[publisher + 1] * m.index <= m.sentTime < (periods[publisher + 1] + 1) * m.index)
  {
    if m.index > 0 { QuotientIs(m.sentTime, m.index, periods[publisher + 1]); }
  }

  ghost predicate Matches(r: Reception, periods: seq<int>, events: seq<Event>)
    requires Known(periods, events)
  {
    && |r.received| + 1 == |periods| && r.currentTime == Now(events) && r.failures == Violations(periods, events)
    && forall p :: 0 <= p < |r.received| ==> r.received[p] == Counts(periods, events, p)
  }

  lemma {:induction false} MatchesNext(r: Reception, periods: seq<int>, numMessages: nat, before: seq<Event>,
                                       last: Event)
    requires Known(periods, before + [last]) && Known(periods, before) && Matches(r, periods, before)
    requires last.Arrival? ==> last.publisher + 1 < |periods|
    ensures Matches(Handled(r, periods, numMessages, last), periods, before + [last])
  {
    OneMoreEvent(periods, before, last);
    if last.Arrival? {
      ArrivalCounted(r, periods, numMessages, before, last);
    } else {
      TickViolates(periods, before, last);
    }
    hide Counts, Violations, Violates, AfterMessage;
  }

  lemma {:induction false} TickViolates(periods: seq<int>, before: seq<Event>, last: Event)
    requires periods != [] && periods[0] > 0 && last.Tick?
    ensures Violates(periods, before, last) <==> last.now % periods[0] != 0
  {
  }

  lemma {:induction false} OneMoreEvent(periods: seq<int>, before: seq<Event>, last: Event)
    requires Known(periods, before + [last]) && Known(periods, before)
    requires last.Arrival? ==> last.publisher + 1 < |periods|
    ensures var events, bad := before + [last], Violates(periods, before, last);
            && Violations(periods, events) == Violations(periods, before) + (if bad then 1 else 0)
            && Now(events) == (if last.Tick? then last.now else Now(before))
            && forall p: nat :: p + 1 < |periods| ==>
                 var here := last.Arrival? && last.publisher == p && !bad;
                 Counts(periods, events, p) == Counts(periods, before, p) + if here then 1 else 0
  {
    hide Violates;
    var events := before + [last];
    assert events[..|events| - 1] == before && events[|events| - 1] == last;
  }

  lemma {:induction false} ArrivalCounted(r: Reception, periods: seq<int>, numMessages: nat, before: seq<Event>,
                                          last: Event)
    requires Known(periods, before) && Matches(r, periods, before) && last.Arrival? && last.publisher + 1 < |periods|
    ensures var after, p := AfterMessage(r, periods, last.publisher, numMessages, last.message), last.publisher;
            var bad := Violates(periods, before, last);
            && after.currentTime == r.currentTime && after.failures == r.failures + (if bad then 1 else 0)
            && after.received == if bad then r.received else r.received[p := r.received[p] + 1]
  {
    AcceptedIff(r, periods, last.publisher, last.message);
    assert Violates(periods, before, last) <==> !Accepted(r, periods, last.publisher, last.message);
    hide Accepted, Total, Expected, Violates;
  }

  /**
   Whatever steps and messages the subscriber sees: each step off its period and each
   message out of its window, place or period is a failure and is not counted; nothing
   else is.
   */
  lemma {:induction false} FailuresAreViolations(periods: seq<int>, numMessages: nat, events: seq<Event>)
    requires Known(periods, events)
    ensures var r := After(periods, numMessages, events);
            && r.currentTime == Now(events) && r.failures == Violations(periods, events)
            && forall p :: 0 <= p < |r.received| ==> r.received[p] == Counts(periods, events, p)
  {
    MatchesAfter(periods, numMessages, events);
    hide After, Now, Violations, Counts;
  }

  lemma {:induction false} MatchesAfter(periods: seq<int>, numMessages: nat, events: seq<Event>)
    requires Known(periods, events)
    ensures Matches(After(periods, numMessages, events), periods, events)
  {
    if events != [] {
      var before, last := events[..|events| - 1], events[|events| - 1];
      MatchesAfter(periods, numMessages, before);
      assert before + [last] == events;
      hide Handled, Matches;
      MatchesNext(After(periods, numMessages, before), periods, numMessages, before, last);
    }
  }
}
