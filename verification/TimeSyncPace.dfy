/**
 How fast the participants of `TimeSync` must go on.  `Progress` says that something can
 always move; here every event is paid for by a start or a step, so that no run can go on
 for ever with deliveries and looks alone, and, as nobody runs far ahead of another, none
 in which some participant stands still.
 */
module TimeSyncPace {
  import opened Arith
  import opened TimeConfiguration
  import opened Periods
  import opened TimeSync

  /** Every element of the schedule is enabled when its turn comes. */
  ghost predicate Legal(g: Config, run: seq<Step>)
    requires Proper(g)
  {
    forall i :: 0 <= i < |run| ==> Enabled(Run(g, run[..i]), run[i])
  }

  /** The starts and steps of one participant. */
  function Moves(part: Part): nat { Bit(part.started) + part.steps }

  /** A start or step puts at most two items on each of its channels and gives one occasion to look. */
  function Price(n: nat): nat { 4 * n + 2 }

  /** Items on the channels from `i` to the first `n` participants. */
  function UnderWay(net: Net, i: nat, n: nat): nat {
    if n == 0 then 0 else
    UnderWay(net, i, n - 1) + if n - 1 != i && (i, n - 1) in net.chan then |net.chan[(i, n - 1)]| else 0
  }

  /** What participant `i` has paid for and not yet used: an item costs its delivery and a look. */
  function Credit(net: Net, i: nat): int
    requires i < |net.parts|
  {
    Price(|net.parts|) * Moves(net.parts[i]) - 2 * UnderWay(net, i, |net.parts|) - Bit(net.parts[i].pending)
  }

  function TotalCredit(net: Net, k: nat): int
    requires k <= |net.parts|
  {
    if k == 0 then 0 else TotalCredit(net, k - 1) + Credit(net, k - 1)
  }

  /** The least by which a step changes the credit of participant `i`. */
  function Gain(step: Step, i: nat): int {
    match step
    case Deliver(from, to) => if i == from then 2 else if i == to then -1 else 0
    case _ => if i == step.i then 1 else 0
  }

  function TotalGain(step: Step, k: nat): int {
    if k == 0 then 0 else TotalGain(step, k - 1) + Gain(step, k - 1)
  }

  lemma {:induction false} OneInAll(net: Net, step: Step, k: nat)
    requires Enabled(net, step)
    ensures TotalGain(step, k) ==
            match step
            case Deliver(from, to) => (if from < k then 2 else 0) - (if to < k then 1 else 0)
            case _ => if step.i < k then 1 else 0
  {
    if k > 0 { OneInAll(net, step, k - 1); }
  }

  // ----- what is under way -----

  lemma {:induction false} UnderWayGrows(net: Net, after: Net, i: nat, n: nat)
    requires forall k :: 0 <= k < n && k != i
               ==> (i, k) in net.chan && (i, k) in after.chan && |after.chan[(i, k)]| <= |net.chan[(i, k)]| + 2
    ensures UnderWay(after, i, n) <= UnderWay(net, i, n) + 2 * n
  {
    if n > 0 { UnderWayGrows(net, after, i, n - 1); }
  }

  /** One item less on the channel to `to`; with `to` out of range nothing changes. */
  lemma {:induction false} UnderWayFalls(net: Net, after: Net, i: nat, to: nat, n: nat)
    requires to != i && (i, to) in net.chan && (i, to) in after.chan
    requires |after.chan[(i, to)]| == |net.chan[(i, to)]| - 1
    requires forall k :: 0 <= k < n && k != i && k != to
               ==> (i, k) in net.chan && (i, k) in after.chan && after.chan[(i, k)] == net.chan[(i, k)]
    ensures UnderWay(after, i, n) == UnderWay(net, i, n) - if to < n then 1 else 0
  {
    if n > 0 { UnderWayFalls(net, after, i, to, n - 1); }
  }

  lemma {:induction false} UnderWaySame(net: Net, after: Net, i: nat, n: nat)
    requires forall k :: 0 <= k < n && k != i
               ==> (i, k) in net.chan && (i, k) in after.chan && after.chan[(i, k)] == net.chan[(i, k)]
    ensures UnderWay(after, i, n) == UnderWay(net, i, n)
  {
    if n > 0 { UnderWaySame(net, after, i, n - 1); }
  }

  // ----- every event is paid for -----

  ghost predicate Paid(net: Net, after: Net, step: Step) {
    && |after.parts| == |net.parts|
    && forall i :: 0 <= i < |net.parts| ==> Credit(after, i) >= Credit(net, i) + Gain(step, i)
  }

  /** A participant that others do not touch keeps its credit. */
  lemma {:induction false} Untouched(g: Config, net: Net, after: Net, i: nat, j: nat)
    requires Shaped(g, net) && OthersSame(net, after, i) && j < |net.parts| && j != i
    ensures |after.parts| == |net.parts| && Credit(after, j) == Credit(net, j)
  {
    UnderWaySame(net, after, j, |net.parts|);
    hide Price;
  }

  lemma {:induction false} MovePays(net: Net, after: Net, i: nat)
    requires i < |net.parts| == |after.parts| && Moves(after.parts[i]) == Moves(net.parts[i]) + 1
    requires UnderWay(after, i, |net.parts|) <= UnderWay(net, i, |net.parts|) + 2 * |net.parts|
    ensures Credit(after, i) >= Credit(net, i) + 1
  {
    var price, moves := Price(|net.parts|), Moves(net.parts[i]);
    assert price * (moves + 1) == price * moves + price;
  }

  lemma {:induction false} StartPaid(g: Config, net: Net, i: nat)
    requires Inv(g, net) && Enabled(net, Start(i))
    ensures Paid(net, Apply(g, net, Start(i)), Start(i))
  {
    StartEffect(g, net, i);
    assert PartOk(g, net, i);
    var after := Apply(g, net, Start(i));
    hide Apply, Inv, PartOk, Credit;
    forall k | 0 <= k < |net.parts| && k != i
      ensures (i, k) in net.chan && (i, k) in after.chan && |after.chan[(i, k)]| <= |net.chan[(i, k)]| + 2
    {
      assert Appended(net, after, i, k, [Announce(Task(0, g.periods[i]))]);
    }
    UnderWayGrows(net, after, i, |net.parts|);
    MovePays(net, after, i);
    forall j | 0 <= j < |net.parts| && j != i ensures Credit(after, j) == Credit(net, j) {
      Untouched(g, net, after, i, j);
    }
  }

  lemma {:induction false} StepPaid(g: Config, net: Net, i: nat)
    requires Inv(g, net) && Enabled(net, TakeStep(i))
    ensures Paid(net, Apply(g, net, TakeStep(i)), TakeStep(i))
  {
    StepEffect(g, net, i);
    var after := Apply(g, net, TakeStep(i));
    assert Shaped(g, net);
    hide Apply, Inv, Credit, Advanced, NextIndexOf;
    forall k | 0 <= k < |net.parts| && k != i
      ensures (i, k) in net.chan && (i, k) in after.chan && |after.chan[(i, k)]| <= |net.chan[(i, k)]| + 2
    {
      assert Appended(net, after, i, k, Outgoing(g, net.parts[i], i, k));
    }
    UnderWayGrows(net, after, i, |net.parts|);
    MovePays(net, after, i);
    forall j | 0 <= j < |net.parts| && j != i ensures Credit(after, j) == Credit(net, j) {
      Untouched(g, net, after, i, j);
    }
  }

  lemma {:induction false} CheckPaid(g: Config, net: Net, i: nat)
    requires Shaped(g, net) && Enabled(net, Check(i))
    ensures Paid(net, Apply(g, net, Check(i)), Check(i))
  {
    hide OtherLower;
    var after := Apply(g, net, Check(i));
    forall j | 0 <= j < |net.parts| ensures UnderWay(after, j, |net.parts|) == UnderWay(net, j, |net.parts|) {
      UnderWaySame(net, after, j, |net.parts|);
    }
    hide UnderWay, Price;
  }

  /** What a delivery changes, whatever the item. */
  lemma {:induction false} DeliveryEffect(g: Config, net: Net, from: nat, to: nat)
    requires Shaped(g, net) && Enabled(net, Deliver(from, to))
    ensures var after := Apply(g, net, Deliver(from, to));
            && after.chan == net.chan[(from, to) := net.chan[(from, to)][1..]]
            && |after.parts| == |net.parts|
            && (forall j :: 0 <= j < |net.parts| ==> Moves(after.parts[j]) == Moves(net.parts[j]))
            && (forall j :: 0 <= j < |net.parts| && j != to ==> after.parts[j] == net.parts[j])
  {
    hide AfterMessage;
  }

  lemma {:induction false} DeliveryPaid(g: Config, net: Net, from: nat, to: nat)
    requires Shaped(g, net) && Enabled(net, Deliver(from, to))
    ensures Paid(net, Apply(g, net, Deliver(from, to)), Deliver(from, to))
  {
    DeliveryEffect(g, net, from, to);
    var after, n := Apply(g, net, Deliver(from, to)), |net.parts|;
    hide Apply;
    UnderWayFalls(net, after, from, to, n);
    forall j | 0 <= j < n && j != from ensures UnderWay(after, j, n) == UnderWay(net, j, n) {
      UnderWaySame(net, after, j, n);
    }
    hide UnderWay, Price, Moves;
  }

  lemma {:induction false} EventPaid(g: Config, net: Net, step: Step)
    requires Inv(g, net) && Enabled(net, step)
    ensures Paid(net, Apply(g, net, step), step)
  {
    hide Apply, Paid, Enabled;
    match step
    case Start(i) => StartPaid(g, net, i);
    case TakeStep(i) => StepPaid(g, net, i);
    case Check(i) => CheckPaid(g, net, i);
    case Deliver(from, to) => DeliveryPaid(g, net, from, to);
  }

  lemma {:induction false} CreditGrows(net: Net, after: Net, step: Step, k: nat)
    requires Paid(net, after, step) && k <= |net.parts|
    ensures TotalCredit(after, k) >= TotalCredit(net, k) + TotalGain(step, k)
  {
    hide Credit, Gain;
    if k > 0 { CreditGrows(net, after, step, k - 1); }
  }

  lemma {:induction false} NothingUnderWay(g: Config, i: nat, n: nat)
    requires Proper(g)
    ensures UnderWay(Initial(g), i, n) == 0
  {
    hide Initial;
    if n > 0 {
      NothingUnderWay(g, i, n - 1);
      EmptyAtFirst(g, i, n - 1);
    }
  }

  lemma {:induction false} EmptyAtFirst(g: Config, i: nat, k: nat)
    requires Proper(g)
    ensures (i, k) in Initial(g).chan ==> Initial(g).chan[(i, k)] == []
  {
  }

  lemma {:induction false} NoMoves(g: Config, i: nat)
    requires Proper(g) && i < |g.periods|
    ensures Moves(Initial(g).parts[i]) == 0 && !Initial(g).parts[i].pending
  {
  }

  lemma {:induction false} NoCredit(net: Net, k: nat)
    requires k <= |net.parts|
    requires forall i :: 0 <= i < k ==>
               Moves(net.parts[i]) == 0 && !net.parts[i].pending && UnderWay(net, i, |net.parts|) == 0
    ensures TotalCredit(net, k) == 0
  {
    hide Moves, UnderWay;
    if k > 0 { NoCredit(net, k - 1); }
  }

  lemma {:induction false} InitialCredit(g: Config)
    requires Proper(g)
    ensures TotalCredit(Initial(g), |g.periods|) == 0
  {
    var net := Initial(g);
    assert |net.parts| == |g.periods|;
    hide Initial, Moves, UnderWay, TotalCredit;
    forall i | 0 <= i < |net.parts|
      ensures Moves(net.parts[i]) == 0 && !net.parts[i].pending && UnderWay(net, i, |net.parts|) == 0
    {
      NoMoves(g, i);
      NothingUnderWay(g, i, |g.periods|);
    }
    NoCredit(net, |net.parts|);
  }

  /** A run is no longer than what its starts and steps pay for. */
  lemma {:induction false} RunIsPaid(g: Config, run: seq<Step>)
    requires Proper(g) && Legal(g, run)
    ensures |run| <= TotalCredit(Run(g, run), |g.periods|)
  {
    hide Apply, Inv, TotalCredit, Paid;
    if run == [] {
      InitialCredit(g);
    } else {
      var before, step := run[..|run| - 1], run[|run| - 1];
      assert forall i :: 0 <= i < |before| ==> before[..i] == run[..i];
      RunIsPaid(g, before);
      Reachable(g, before);
      var net := Run(g, before);
      EventPaid(g, net, step);
      CreditGrows(net, Apply(g, net, step), step, |g.periods|);
      OneInAll(net, step, |g.periods|);
    }
  }

  // ----- nobody stands still -----

  /** Whoever moves, the time of every other participant bounds its steps. */
  lemma {:induction false} MovesBound(g: Config, run: seq<Step>, i: nat, j: nat)
    requires Proper(g) && i < |g.periods| && j < |g.periods|
    ensures Moves(Run(g, run).parts[i]) <= 2 + At(g.periods[j], Run(g, run).parts[j].steps)
  {
    hide Run, At;
    Reachable(g, run);
    var net := Run(g, run);
    assert PartOk(g, net, i) && PartOk(g, net, j);
    StepsBelowTime(g.periods[j], net.parts[j].steps);
    if i != j && net.parts[i].steps > 0 {
      assert PairOk(g, net, j, i);
      KnownBound(g, net, j, i);
      StepsBelowTime(g.periods[i], net.parts[i].steps - 1);
    }
  }

  lemma {:induction false} StepsBelowTime(p: int, steps: nat)
    requires p > 0
    ensures steps <= At(p, steps)
  {
    hide At;
    AtNext(p, 0);
    if steps > 0 {
      StepsBelowTime(p, steps - 1);
      AtNext(p, steps - 1);
    }
  }

  lemma {:induction false} CreditBound(net: Net, k: nat, most: nat)
    requires k <= |net.parts| && forall i :: 0 <= i < k ==> Moves(net.parts[i]) <= most
    ensures TotalCredit(net, k) <= Budget(k, |net.parts|, most)
  {
    hide Moves, Price, Budget, Credit;
    NextBudget(k, |net.parts|, most);
    if k > 0 {
      CreditBound(net, k - 1, most);
      CreditOfOne(net, k - 1, most);
    }
  }

  /** What `k` participants of `n` can pay for with `most` starts and steps each. */
  function Budget(k: nat, n: nat, most: nat): nat { k * (Price(n) * most) }

  lemma {:induction false} NextBudget(k: nat, n: nat, most: nat)
    ensures if k == 0 then Budget(k, n, most) == 0 else Budget(k, n, most) == Budget(k - 1, n, most) + Price(n) * most
  {
    hide Price;
    if k > 0 { Distribute(k - 1, 1, Price(n) * most); }
  }

  lemma {:induction false} CreditOfOne(net: Net, i: nat, most: nat)
    requires i < |net.parts| && Moves(net.parts[i]) <= most
    ensures Credit(net, i) <= Price(|net.parts|) * most
  {
    hide Moves, UnderWay;
    Monotone(Moves(net.parts[i]), most, Price(|net.parts|));
    hide Price;
  }

  /**
   Virtual time goes on for everybody: in every run of enabled events, in any order, the
   length of the run is bounded by the next time of each single participant, so that time
   grows without bound, whoever is slow.
   */
  lemma {:induction false} NobodyStarves(g: Config, run: seq<Step>, j: nat)
    requires Proper(g) && Legal(g, run) && j < |g.periods|
    ensures var n, part := |g.periods|, Run(g, run).parts[j];
            part.conf.next.timePoint >= 0 && |run| <= Budget(n, n, 2 + part.conf.next.timePoint)
  {
    hide *;
    RunIsPaid(g, run);
    NextTime(g, run, j);
    CreditIsBounded(g, run, j);
  }

  lemma {:induction false} CreditIsBounded(g: Config, run: seq<Step>, j: nat)
    requires Proper(g) && j < |g.periods| && Run(g, run).parts[j].conf.next.timePoint >= 0
    ensures var n, part := |g.periods|, Run(g, run).parts[j];
            TotalCredit(Run(g, run), n) <= Budget(n, n, 2 + part.conf.next.timePoint)
  {
    hide Run, At, TotalCredit, Moves, Budget;
    NextTime(g, run, j);
    var net := Run(g, run);
    var most: nat := 2 + net.parts[j].conf.next.timePoint;
    forall i | 0 <= i < |net.parts| ensures Moves(net.parts[i]) <= most {
      MovesBound(g, run, i, j);
    }
    CreditBound(net, |net.parts|, most);
  }

  lemma {:induction false} NextTime(g: Config, run: seq<Step>, j: nat)
    requires Proper(g) && j < |g.periods|
    ensures var part := Run(g, run).parts[j]; part.conf.next.timePoint == At(g.periods[j], part.steps) >= 0
  {
    hide Run, At;
    Reachable(g, run);
    assert PartOk(g, Run(g, run), j);
    hide Inv;
    StepsBelowTime(g.periods[j], Run(g, run).parts[j].steps);
  }
}
