/**
 The reception check of the publish/subscribe tests (the RPC tests use the same one):
 either the `k`-th message must carry the byte `k` throughout, or each message must be
 found in, and is then erased from, a list of expected messages.
 */
module Matching {

  import opened Arith

  type Bytes = seq<nat>

  /** `size` copies of the low byte of `value`. */
  function Payload(size: nat, value: nat): (data: Bytes)
    ensures |data| == size
  {
    seq(size, _ => value % 256)
  }

  function IndexOf(list: seq<Bytes>, data: Bytes): (i: nat)
    requires data in list
    ensures i < |list| && list[i] == data && data !in list[..i]
  {
    if list[0] == data then 0 else 1 + IndexOf(list[1..], data)
  }

  /** Erase the first occurrence, if there is one. */
  function Erased(list: seq<Bytes>, data: Bytes): seq<Bytes> {
    if data in list then var i := IndexOf(list, data); list[..i] + list[i + 1..] else list
  }

  lemma {:induction false} ErasedOnce(list: seq<Bytes>, data: Bytes)
    ensures multiset(Erased(list, data)) == multiset(list) - multiset{data}
  {
    if data in list {
      var i := IndexOf(list, data);
      assert list == list[..i] + [data] + list[i + 1..];
    }
  }

  datatype Reception = Reception(
    increasing: bool, size: nat, required: nat,     // expectIncreasingData, messageSizeInBytes, numMsgToReceive
    expected: seq<Bytes>,
    counter: nat, allReceived: bool,
    failures: nat)                                  // EXPECT failures

  predicate Matches(r: Reception, data: Bytes) {
    if r.increasing then data == Payload(r.size, r.counter) else data in r.expected
  }

  function OnData(r: Reception, data: Bytes): Reception {
    if r.allReceived then r else
    var counter := (r.counter + 1) % UINT32;
    r.(expected := if r.increasing then r.expected else Erased(r.expected, data),
       failures := r.failures + if Matches(r, data) then 0 else 1,
       counter := counter, allReceived := counter >= r.required)
  }

  class Subscriber {
    const increasing: bool
    const size: nat
    const required: nat
    var expected: seq<Bytes>
    var counter: nat
    var allReceived: bool
    var failures: nat

    ghost function State(): Reception
      reads this
    {
      Reception(increasing, size, required, expected, counter, allReceived, failures)
    }

    constructor Increasing(size: nat, required: nat)
      ensures State() == Reception(true, size, required, [], 0, false, 0)
    {
      increasing, this.size, this.required := true, size, required;
      expected, counter, allReceived, failures := [], 0, false, 0;
    }

    constructor Unordered(size: nat, required: nat, expected: seq<Bytes>)
      ensures State() == Reception(false, size, required, expected, 0, false, 0)
    {
      increasing, this.size, this.required := false, size, required;
      this.expected, counter, allReceived, failures := expected, 0, false, 0;
    }

    method OnDataReception(data: Bytes)
      modifies this
      ensures State() == OnData(old(State()), data)
    {
      hide IndexOf, Payload;
      if !allReceived {
        if increasing {
          if data != Payload(size, counter) {
            failures := failures + 1;
          }
        } else if data in expected {
          var i := IndexOf(expected, data);
          expected := expected[..i] + expected[i + 1..];
        } else {
          failures := failures + 1;
        }
        counter := (counter + 1) % UINT32;
        if counter >= required {
          allReceived := true;
        }
      }
    }
  }

  // ----- any order of arrival -----

  function Start(size: nat, required: nat, expected: seq<Bytes>): Reception {
    Reception(false, size, required, expected, 0, false, 0)
  }

  function After(r: Reception, arrivals: seq<Bytes>): Reception {
    if arrivals == [] then r else OnData(After(r, arrivals[..|arrivals| - 1]), arrivals[|arrivals| - 1])
  }

  /** The arrivals that count: those up to the required number, but never none. */
  function Counted(required: nat, arrivals: seq<Bytes>): seq<Bytes> {
    arrivals[..Min(|arrivals|, if required == 0 then 1 else required)]
  }

  /** Taking one more element off what is left of `e` after `was` has been taken off. */
  lemma {:induction false} OneMore<T>(e: multiset<T>, was: multiset<T>, x: T)
    ensures e - (was + multiset{x}) == e - was - multiset{x}
    ensures x in e - was ==> was + multiset{x} - e == was - e
    ensures x !in e - was ==> was + multiset{x} - e == was - e + multiset{x}
  {
    assert e - (was + multiset{x}) == e - was - multiset{x};
  }

  ghost predicate Subtracted(r: Reception, expected: seq<Bytes>, counted: seq<Bytes>) {
    && !r.increasing
    && r.counter == |counted| && (r.allReceived <==> |counted| > 0 && |counted| >= r.required)
    && multiset(r.expected) == multiset(expected) - multiset(counted)
    && r.failures == |multiset(counted) - multiset(expected)|
  }

  lemma {:induction false} OnDataUnordered(r: Reception, data: Bytes)
    requires !r.increasing && !r.allReceived && r.counter + 1 < UINT32
    ensures var now := OnData(r, data);
            && !now.increasing && now.required == r.required
            && now.counter == r.counter + 1 && (now.allReceived <==> r.counter + 1 >= r.required)
            && multiset(now.expected) == multiset(r.expected) - multiset{data}
            && now.failures == r.failures + if data in multiset(r.expected) then 0 else 1
  {
    hide Erased;
    ErasedOnce(r.expected, data);
  }

  lemma {:induction false} SubtractionStep(r: Reception, expected: seq<Bytes>, counted: seq<Bytes>, data: Bytes)
    requires Subtracted(r, expected, counted) && !r.allReceived && |counted| + 1 < UINT32
    ensures Subtracted(OnData(r, data), expected, counted + [data])
  {
    OnDataUnordered(r, data);
    hide OnData;
    var e, was := multiset(expected), multiset(counted);
    OneMore(e, was, data);
    assert multiset(counted + [data]) == was + multiset{data};
    assert |was - e + multiset{data}| == |was - e| + 1;
  }

  lemma {:induction false} CountedStep(required: nat, before: seq<Bytes>, data: Bytes)
    ensures var was := Counted(required, before);
            Counted(required, before + [data]) == if |was| > 0 && |was| >= required then was else was + [data]
  {
    var limit := if required == 0 then 1 else required;
    if |before| < limit {
      assert before[..|before|] == before;
      assert (before + [data])[..|before| + 1] == before + [data];
    } else {
      assert (before + [data])[..limit] == before[..limit];
    }
  }

  lemma {:induction false} AfterStep(r: Reception, before: seq<Bytes>, data: Bytes)
    ensures After(r, before + [data]) == OnData(After(r, before), data)
  {
    hide OnData;
    assert (before + [data])[..|before|] == before;
  }

  lemma {:induction false} Subtraction(size: nat, required: nat, expected: seq<Bytes>, arrivals: seq<Bytes>)
    requires required < 0x1_0000_0000
    ensures After(Start(size, required, expected), arrivals).required == required
    ensures Subtracted(After(Start(size, required, expected), arrivals), expected, Counted(required, arrivals))
  {
    hide OnData, IndexOf, Erased, Payload, Matches;
    if arrivals == [] {
      assert Counted(required, arrivals) == [];
    } else {
      var before, data := arrivals[..|arrivals| - 1], arrivals[|arrivals| - 1];
      Subtraction(size, required, expected, before);
      SubtractionOneMore(size, required, expected, before, data);
      assert arrivals == before + [data];
    }
  }

  lemma {:induction false} SubtractionOneMore(size: nat, required: nat, expected: seq<Bytes>,
                                              before: seq<Bytes>, data: Bytes)
    requires required < UINT32
    requires After(Start(size, required, expected), before).required == required
    requires Subtracted(After(Start(size, required, expected), before), expected, Counted(required, before))
    ensures After(Start(size, required, expected), before + [data]).required == required
    ensures Subtracted(After(Start(size, required, expected), before + [data]), expected,
                       Counted(required, before + [data]))
  {
    hide OnData, IndexOf, Erased, Payload, Matches, After, Counted, Start;
    var r, was := After(Start(size, required, expected), before), Counted(required, before);
    AfterStep(Start(size, required, expected), before, data);
    CountedStep(required, before, data);
    if r.allReceived {
      Finished(r, data);
    } else {
      OnDataUnordered(r, data);
      assert |was| + 1 < UINT32 || |was| == 0 || required > |was|;
      SubtractionStep(r, expected, was, data);
    }
  }

  lemma {:induction false} Finished(r: Reception, data: Bytes)
    requires r.allReceived
    ensures OnData(r, data) == r
  {
  }

  lemma {:induction false} Leftovers<T>(e: multiset<T>, counted: multiset<T>)
    ensures |counted - e| == 0 <==> counted <= e
    ensures e - counted == multiset{} <==> e <= counted
    ensures counted <= e && |counted| >= |e| ==> e <= counted
  {
    if |counted - e| == 0 {
      assert counted - e == multiset{};
      forall x ensures counted[x] <= e[x] {
        assert (counted - e)[x] == 0;
      }
    }
    if counted <= e {
      assert counted - e == multiset{};
      assert e == (e - counted) + counted;
    }
    if e - counted == multiset{} {
      forall x ensures e[x] <= counted[x] {
        assert (e - counted)[x] == 0;
      }
    }
  }

  /**
   Unordered matching is multiset subtraction: whatever the order of arrival, every check
   succeeds if and only if the counted arrivals form a sub-multiset of the expected list,
   and what is left is the difference; when as many were expected as required and all the
   checks succeeded, finishing leaves nothing.
   */
  lemma {:induction false} MatchingIsSubtraction(size: nat, required: nat, expected: seq<Bytes>, arrivals: seq<Bytes>)
    requires required < 0x1_0000_0000
    ensures var r, counted := After(Start(size, required, expected), arrivals), Counted(required, arrivals);
            && (r.failures == 0 <==> multiset(counted) <= multiset(expected))
            && multiset(r.expected) == multiset(expected) - multiset(counted)
            && (r.expected == [] <==> multiset(expected) <= multiset(counted))
            && (r.allReceived && r.failures == 0 && |expected| == required ==> r.expected == [])
  {
    hide After, Start, Counted;
    Subtraction(size, required, expected, arrivals);
    var r, counted := After(Start(size, required, expected), arrivals), Counted(required, arrivals);
    Leftovers(multiset(expected), multiset(counted));
    assert r.expected == [] <==> multiset(r.expected) == multiset{} by {
      assert |r.expected| == |multiset(r.expected)|;
    }
  }

  /** So the order of arrival does not matter. */
  lemma {:induction false} OrderDoesNotMatter(size: nat, required: nat, expected: seq<Bytes>, a: seq<Bytes>,
                                              b: seq<Bytes>)
    requires required < UINT32 && multiset(Counted(required, a)) == multiset(Counted(required, b))
    ensures var r, s := After(Start(size, required, expected), a), After(Start(size, required, expected), b);
            r.failures == s.failures && multiset(r.expected) == multiset(s.expected)
  {
    Subtraction(size, required, expected, a);
    Subtraction(size, required, expected, b);
  }

  // ----- increasing data -----

  /** Every byte of arrival `k` is the low byte of `k`. */
  predicate InPlace(data: Bytes, size: nat, k: nat) {
    |data| == size && forall b :: 0 <= b < size ==> data[b] == k % 256
  }

  /** How many arrivals do not carry what is expected in their place. */
  function Misplaced(arrivals: seq<Bytes>, size: nat): nat {
    if arrivals == [] then 0 else
    var k := |arrivals| - 1;
    Misplaced(arrivals[..k], size) + if InPlace(arrivals[k], size, k) then 0 else 1
  }

  lemma {:induction false} MisplacedAppend(arrivals: seq<Bytes>, data: Bytes, size: nat)
    ensures Misplaced(arrivals + [data], size) ==
            Misplaced(arrivals, size) + if InPlace(data, size, |arrivals|) then 0 else 1
  {
    assert (arrivals + [data])[..|arrivals|] == arrivals;
    hide InPlace;
  }

  lemma {:induction false} PayloadInPlace(data: Bytes, size: nat, k: nat)
    ensures data == Payload(size, k) <==> InPlace(data, size, k)
  {
  }

  ghost predicate InOrder(r: Reception, size: nat, required: nat, counted: seq<Bytes>) {
    && r.increasing && r.size == size && r.required == required && r.counter == |counted|
    && (r.allReceived <==> |counted| > 0 && |counted| >= required)
    && r.failures == Misplaced(counted, size)
  }

  lemma {:induction false} OneInOrder(r: Reception, size: nat, required: nat, counted: seq<Bytes>, data: Bytes)
    requires InOrder(r, size, required, counted) && !r.allReceived && |counted| + 1 < UINT32
    ensures InOrder(OnData(r, data), size, required, counted + [data])
  {
    PayloadInPlace(data, size, |counted|);
    MisplacedAppend(counted, data, size);
    hide Payload, InPlace, Misplaced, Erased;
  }

  /**
   With increasing data, whatever arrives: the failures are the counted arrivals that carry
   something else than the bytes for their place.
   */
  lemma {:induction false} IncreasingCheck(size: nat, required: nat, arrivals: seq<Bytes>)
    requires required < 0x1_0000_0000
    ensures var r, counted := After(Reception(true, size, required, [], 0, false, 0), arrivals),
                              Counted(required, arrivals);
            && r.counter == |counted| && (r.allReceived <==> |counted| > 0 && |counted| >= required)
            && r.failures == Misplaced(counted, size)
  {
    InOrderAfter(size, required, arrivals);
    hide After, Counted;
  }

  lemma {:induction false} InOrderAfter(size: nat, required: nat, arrivals: seq<Bytes>)
    requires required < UINT32
    ensures InOrder(After(Reception(true, size, required, [], 0, false, 0), arrivals), size, required,
                    Counted(required, arrivals))
  {
    hide OnData;
    if arrivals == [] {
      assert Counted(required, arrivals) == [];
    } else {
      var before, data := arrivals[..|arrivals| - 1], arrivals[|arrivals| - 1];
      InOrderAfter(size, required, before);
      CountedStep(required, before, data);
      assert arrivals == before + [data];
      var r, was := After(Reception(true, size, required, [], 0, false, 0), before), Counted(required, before);
      hide After, Counted, Misplaced;
      AfterStep(Reception(true, size, required, [], 0, false, 0), before, data);
      if r.allReceived { Finished(r, data); } else { OneInOrder(r, size, required, was, data); }
    }
  }
}
