/**
 A LIN master that sends a header and waits for the response, and a slave that answers
 in the simulation step exactly two milliseconds after the header's time stamp.  The
 slave has no "no header" state: it resets the stamp to zero.

 Times are in milliseconds, one step each.  A participant steps at `t` only when its
 peer's next step is not before `t`; a header must reach the slave before the slave's
 step two milliseconds later; a response may take any time.
 */
module DeferredResponse {

  const DELAY: nat := 2

  datatype State = State(
    masterNext: nat, slaveNext: nat,    // the next step of either participant
    waiting: bool,                      // State::WaitingForResponse
    headerReceived: nat,
    sent: seq<nat>, responses: seq<nat>,
    toSlave: seq<nat>, toMaster: seq<nat>,  // headers and responses under way, with their stamps
    stops: nat)

  datatype Step = MasterStep | SlaveStep | DeliverHeader | DeliverResponse

  function Initial(): State { State(0, 0, false, 0, [], [], [], [], 0) }

  predicate Enabled(s: State, step: Step) {
    match step
    case MasterStep => s.masterNext <= s.slaveNext
    case SlaveStep => s.slaveNext <= s.masterNext && forall h :: h in s.toSlave ==> s.slaveNext < h + DELAY
    case DeliverHeader => s.toSlave != []
    case DeliverResponse => s.toMaster != []
  }

  function MasterApply(s: State): State {
    var t := s.masterNext;
    if s.waiting then s.(masterNext := t + 1)
    else s.(masterNext := t + 1, waiting := true, sent := s.sent + [t], toSlave := s.toSlave + [t])
  }

  function SlaveApply(max: nat, s: State): State {
    var t := s.slaveNext;
    if t != s.headerReceived + DELAY then s.(slaveNext := t + 1)
    else
      var responses := s.responses + [t];
      s.(slaveNext := t + 1, headerReceived := 0, responses := responses, toMaster := s.toMaster + [t],
         stops := s.stops + if |responses| == max then 1 else 0)
  }

  /** A step that is not enabled leaves the state alone. */
  function Apply(max: nat, s: State, step: Step): State {
    if !Enabled(s, step) then s else
    match step
    case MasterStep => MasterApply(s)
    case SlaveStep => SlaveApply(max, s)
    case DeliverHeader => s.(headerReceived := s.toSlave[0], toSlave := s.toSlave[1..])
    case DeliverResponse => s.(waiting := false, toMaster := s.toMaster[1..])
  }

  /** The state after a schedule; its last element acts last. */
  function Run(max: nat, run: seq<Step>): State {
    if run == [] then Initial() else Apply(max, Run(max, run[..|run| - 1]), run[|run| - 1])
  }

  // ----- the inductive invariant -----

  ghost predicate Paired(s: State) {
    && |s.responses| <= |s.sent| <= |s.responses| + 1
    && (forall i :: 0 <= i < |s.responses| ==> s.responses[i] == s.sent[i] + DELAY)
    && (forall i :: 0 < i < |s.sent| ==> s.responses[i - 1] <= s.sent[i])
    && (s.responses != [] ==> s.responses[|s.responses| - 1] < s.slaveNext)
    && (s.sent != [] ==> s.sent[0] == 0)
    && (s.sent == [] <==> s.masterNext == 0)
  }

  /** A header is unanswered: it is under way, or the slave holds its stamp. */
  ghost predicate Open(s: State)
    requires s.sent != []
  {
    var h := s.sent[|s.sent| - 1];
    && s.waiting && s.toMaster == []
    && h <= s.slaveNext <= h + DELAY
    && h < s.masterNext
    && (|| (s.toSlave == [h] && s.headerReceived == 0)
        || (s.toSlave == [] && s.headerReceived == h))
  }

  /** Every header is answered; the reset stamp cannot fire again. */
  ghost predicate Closed(s: State) {
    && s.toSlave == [] && s.headerReceived == 0
    && (s.waiting <==> |s.toMaster| == 1) && |s.toMaster| <= 1
    && (s.responses != [] ==> s.responses[|s.responses| - 1] <= s.masterNext)
    && (s.responses == [] ==> !s.waiting)
  }

  ghost predicate Inv(max: nat, s: State) {
    && s.slaveNext <= s.masterNext + 1 && s.masterNext <= s.slaveNext + 1
    && Paired(s)
    && (if |s.sent| == |s.responses| then Closed(s) else Open(s))
    && s.stops == if 1 <= max <= |s.responses| then 1 else 0
  }

  lemma {:induction false} MasterKeepsInv(max: nat, s: State)
    requires Inv(max, s) && Enabled(s, MasterStep)
    ensures Inv(max, MasterApply(s))
  {
    if !s.waiting { SendingKeepsInv(max, s); }
  }

  lemma {:induction false} SendingKeepsInv(max: nat, s: State)
    requires Inv(max, s) && Enabled(s, MasterStep) && !s.waiting
    ensures Inv(max, MasterApply(s))
  {
    if s.responses != [] {
      assert s.responses[|s.responses| - 1] == s.sent[|s.responses| - 1] + DELAY;
    }
    var now := MasterApply(s);
    assert Paired(now);
    assert Open(now);
  }

  predicate Answers(s: State) { s.slaveNext == s.headerReceived + DELAY }

  lemma {:induction false} HeaderInTime(s: State)
    requires Enabled(s, SlaveStep)
    ensures s.toSlave == [] || s.slaveNext < s.toSlave[0] + DELAY
  {
    assert s.toSlave == [] || s.toSlave[0] in s.toSlave;
  }

  lemma {:induction false} AnswerKeepsInv(max: nat, s: State)
    requires Inv(max, s) && Enabled(s, SlaveStep) && Answers(s)
    ensures Inv(max, SlaveApply(max, s))
  {
    HeaderInTime(s);
    if s.responses != [] {
      assert s.responses[|s.responses| - 1] == s.sent[|s.responses| - 1] + DELAY;
    }
    var now := SlaveApply(max, s);
    assert Open(s);
    assert Paired(now);
    assert Closed(now);
  }

  lemma {:induction false} IdleKeepsInv(max: nat, s: State)
    requires Inv(max, s) && Enabled(s, SlaveStep) && !Answers(s)
    ensures Inv(max, SlaveApply(max, s))
  {
    HeaderInTime(s);
    var now := SlaveApply(max, s);
    assert now == s.(slaveNext := s.slaveNext + 1);
    assert Paired(now);
    hide Paired, SlaveApply;
    if |s.sent| == |s.responses| {
      assert Closed(now);
    } else {
      assert Open(now);
    }
  }

  lemma {:induction false} SlaveKeepsInv(max: nat, s: State)
    requires Inv(max, s) && Enabled(s, SlaveStep)
    ensures Inv(max, SlaveApply(max, s))
  {
    hide Inv, SlaveApply;
    if Answers(s) { AnswerKeepsInv(max, s); } else { IdleKeepsInv(max, s); }
  }

  lemma {:induction false} HeaderKeepsInv(max: nat, s: State)
    requires Inv(max, s) && s.toSlave != []
    ensures Inv(max, Apply(max, s, DeliverHeader))
  {
    var now := Apply(max, s, DeliverHeader);
    assert now == s.(headerReceived := s.toSlave[0], toSlave := s.toSlave[1..]);
    hide Apply;
    PairedStays(s, now);
    hide Paired;
    assert Open(s);
    assert Open(now);
  }

  lemma {:induction false} PairedStays(s: State, now: State)
    requires Paired(s) && now.sent == s.sent && now.responses == s.responses
    requires now.masterNext == s.masterNext && now.slaveNext == s.slaveNext
    ensures Paired(now)
  {
  }

  lemma {:induction false} ResponseKeepsInv(max: nat, s: State)
    requires Inv(max, s) && s.toMaster != []
    ensures Inv(max, Apply(max, s, DeliverResponse))
  {
    var now := Apply(max, s, DeliverResponse);
    assert Closed(s);
    assert Closed(now);
  }

  lemma {:induction false} StepKeepsInv(max: nat, s: State, step: Step)
    requires Inv(max, s)
    ensures Inv(max, Apply(max, s, step))
  {
    hide Inv, MasterApply, SlaveApply;
    if Enabled(s, step) {
      match step
      case MasterStep => MasterKeepsInv(max, s);
      case SlaveStep => SlaveKeepsInv(max, s);
      case DeliverHeader => HeaderKeepsInv(max, s);
      case DeliverResponse => ResponseKeepsInv(max, s);
    }
  }

  lemma {:induction false} Reachable(max: nat, run: seq<Step>)
    ensures Inv(max, Run(max, run))
  {
    if run != [] {
      hide Inv, Apply;
      var before := run[..|run| - 1];
      Reachable(max, before);
      StepKeepsInv(max, Run(max, before), run[|run| - 1]);
    }
  }

  /**
   In every reachable state headers and responses alternate, the `i`-th response is exactly
   two milliseconds after the `i`-th header although zero doubles as "no header", headers
   are at least two milliseconds apart, and `Stop` has been requested exactly once as soon
   as there were `max` responses.  No header is left unanswered: the response is there as
   soon as the slave has made the step two milliseconds later.
   */
  lemma {:induction false} Alternation(max: nat, run: seq<Step>)
    ensures var s := Run(max, run);
            && |s.responses| <= |s.sent| <= |s.responses| + 1
            && (forall i :: 0 <= i < |s.responses| ==> s.responses[i] == s.sent[i] + 2)
            && (forall i :: 0 < i < |s.sent| ==> s.sent[i] >= s.sent[i - 1] + 2)
            && (forall i :: 0 <= i < |s.sent| ==> (i < |s.responses| <==> s.slaveNext > s.sent[i] + 2))
            && (max > 0 ==> s.stops == if |s.responses| >= max then 1 else 0)
  {
    hide Run;
    Reachable(max, run);
    var s := Run(max, run);
    forall i | 0 < i < |s.sent| ensures s.sent[i] >= s.sent[i - 1] + DELAY {
      assert s.responses[i - 1] == s.sent[i - 1] + DELAY;
    }
    forall i | 0 <= i < |s.sent| ensures i < |s.responses| <==> s.slaveNext > s.sent[i] + DELAY {
      Prompt(max, s, i);
    }
  }

  lemma {:induction false} Prompt(max: nat, s: State, i: nat)
    requires Inv(max, s) && i < |s.sent|
    ensures i < |s.responses| <==> s.slaveNext > s.sent[i] + DELAY
  {
    if i < |s.responses| {
      ResponsesIncrease(s, i, |s.responses| - 1);
      assert s.responses[i] == s.sent[i] + DELAY;
    } else {
      assert Open(s);
    }
  }

  lemma {:induction false} ResponsesIncrease(s: State, i: nat, j: nat)
    requires Paired(s) && i <= j < |s.responses|
    ensures s.responses[i] <= s.responses[j]
  {
    if i < j {
      ResponsesIncrease(s, i, j - 1);
      assert s.responses[j - 1] <= s.sent[j] && s.responses[j] == s.sent[j] + DELAY;
    }
  }

  lemma {:induction false} RunStep(max: nat, run: seq<Step>, step: Step)
    ensures Run(max, run + [step]) == Apply(max, Run(max, run), step)
  {
    assert (run + [step])[..|run|] == run;
  }

  /** Virtual time never stops: every run can be continued until the master has made its next step. */
  lemma {:induction false} TimeAdvances(max: nat, run: seq<Step>) returns (longer: seq<Step>)
    ensures run <= longer && Run(max, longer).masterNext == Run(max, run).masterNext + 1
  {
    hide Run;
    Reachable(max, run);
    longer := run;
    if Run(max, run).toSlave != [] {
      RunStep(max, longer, DeliverHeader);
      longer := longer + [DeliverHeader];
    }
    var s := Run(max, longer);
    assert s.toSlave == [];
    if s.masterNext > s.slaveNext {
      RunStep(max, longer, SlaveStep);
      longer := longer + [SlaveStep];
    }
    RunStep(max, longer, MasterStep);
    longer := longer + [MasterStep];
  }

  /** Every element of the schedule is enabled when its turn comes. */
  ghost predicate Legal(max: nat, run: seq<Step>) {
    forall i :: 0 <= i < |run| ==> Enabled(Run(max, run[..i]), run[i])
  }

  function Time(s: State): nat { s.masterNext + s.slaveNext }

  /** A step in time puts at most one message on its way, and a delivery takes one off. */
  lemma {:induction false} StepTakesTime(max: nat, s: State, step: Step)
    requires Enabled(s, step)
    ensures var after := Apply(max, s, step);
            1 + |after.toSlave| + |after.toMaster| - |s.toSlave| - |s.toMaster| <= 2 * (Time(after) - Time(s))
  {
  }

  lemma {:induction false} TimeIsTaken(max: nat, run: seq<Step>)
    requires Legal(max, run)
    ensures var s := Run(max, run); |run| + |s.toSlave| + |s.toMaster| <= 2 * Time(s)
  {
    hide Apply;
    if run != [] {
      var before := run[..|run| - 1];
      assert forall i :: 0 <= i < |before| ==> before[..i] == run[..i];
      TimeIsTaken(max, before);
      StepTakesTime(max, Run(max, before), run[|run| - 1]);
    }
  }

  /** Nor can anything go on for ever without it: a run of enabled steps takes both participants on. */
  lemma {:induction false} NobodyStarves(max: nat, run: seq<Step>)
    requires Legal(max, run)
    ensures |run| <= 4 * Run(max, run).masterNext + 2 && |run| <= 4 * Run(max, run).slaveNext + 2
  {
    hide Run;
    Reachable(max, run);
    TimeIsTaken(max, run);
  }

  // ----- which headers are answered -----

  function SlaveSteps(max: nat, s: State, steps: nat): State
    decreases steps
  {
    if steps == 0 then s else SlaveSteps(max, SlaveApply(max, s), steps - 1)
  }

  lemma {:induction false} LateHeaderIsLost(max: nat, s: State, steps: nat)
    requires s.headerReceived + DELAY < s.slaveNext
    ensures SlaveSteps(max, s, steps).responses == s.responses
    decreases steps
  {
    if steps > 0 {
      LateHeaderIsLost(max, SlaveApply(max, s), steps - 1);
    }
  }

  lemma {:induction false} HeldHeaderIsAnswered(max: nat, s: State, steps: nat)
    requires s.slaveNext <= s.headerReceived + DELAY
    ensures SlaveSteps(max, s, steps).responses ==
            if s.headerReceived + DELAY < s.slaveNext + steps then s.responses + [s.headerReceived + DELAY]
            else s.responses
    decreases steps
  {
    if steps > 0 {
      if s.slaveNext == s.headerReceived + DELAY {
        LateHeaderIsLost(max, SlaveApply(max, s), steps - 1);
      } else {
        HeldHeaderIsAnswered(max, SlaveApply(max, s), steps - 1);
      }
    }
  }

  /**
   Why the delivery rule matters: a header stamped `h` is answered, once and at `h + 2`, if
   and only if it reaches the slave before the slave's step at `h + 2`, whatever the state.
   */
  lemma {:induction false} AnsweredIffInTime(max: nat, s: State, steps: nat)
    requires s.toSlave != []
    ensures var due, held := s.toSlave[0] + 2, Apply(max, s, DeliverHeader);
            SlaveSteps(max, held, steps).responses ==
            if s.slaveNext <= due < s.slaveNext + steps then s.responses + [due] else s.responses
  {
    var held := Apply(max, s, DeliverHeader);
    if s.slaveNext <= s.toSlave[0] + DELAY {
      HeldHeaderIsAnswered(max, held, steps);
    } else {
      LateHeaderIsLost(max, held, steps);
    }
  }
}
