/**
 The sibling of the lockstep handshake under wall-clock coupling: one flag, `doStep`,
 and a shutdown that races.  The handler sets `done` before it takes the mutex, so the
 completer may or may not complete the last step.  The last step is step `k`.
 */
module WallClock {

  import opened Arith

  datatype HandlerPc = HIdle | HFinal | HSetDone | HLock | HSet | HNotify | HUnlock

  datatype CompleterPc =
    | CTest | CLock | CWait | CAsleep | CClear | CComplete | CRecheck | CUnlock | CReturn | CExited

  datatype MainPc = MRun | MDone | MNotify | MJoin | MFinished

  datatype Owner = Free | ByHandler | ByCompleter

  datatype State = State(
    doStep: bool, done: bool, stop: bool,
    owner: Owner,
    h: HandlerPc, c: CompleterPc, m: MainPc,
    now: int,           // the handler's argument, in step sizes
    executing: bool,    // the library's _isExecutingSimStep
    deferred: nat,      // CompleteSimulationStep calls the I/O thread has not run yet
    calls: nat, completions: nat)

  datatype Step = HandlerMove | CompleterMove | MainMove | StartHandler | RunDeferred | SpuriousCompleter

  function Initial(): State {
    State(false, false, false, Free, HIdle, CTest, MRun, 0, false, 0, 0, 0)
  }

  function WakeCompleter(s: State): State {
    if s.c == CAsleep then s.(c := CLock) else s
  }

  function HandlerApply(k: nat, s: State): State {
    match s.h
    case HIdle => s
    case HFinal => if s.now == k then s.(stop := true, h := HSetDone) else s.(h := HLock)
    case HSetDone => s.(done := true, h := HLock)
    case HLock => s.(owner := ByHandler, h := HSet)
    case HSet => s.(doStep := true, h := HNotify)
    case HNotify => WakeCompleter(s).(h := HUnlock)
    case HUnlock => s.(owner := Free, h := HIdle)
  }

  function CompleterApply(s: State): State {
    match s.c
    case CTest => s.(c := if s.done then CExited else CLock)
    case CLock => s.(owner := ByCompleter, c := CWait)
    case CWait => if s.doStep then s.(c := CClear) else s.(owner := Free, c := CAsleep)
    case CAsleep => s
    case CClear => s.(doStep := false, c := CComplete)
    case CComplete => s.(completions := s.completions + 1, deferred := s.deferred + 1, c := CRecheck)
    case CRecheck => s.(c := if s.done then CReturn else CUnlock)
    case CUnlock => s.(owner := Free, c := CTest)
    case CReturn => s.(owner := Free, c := CExited)
    case CExited => s
  }

  function MainApply(s: State): State {
    match s.m
    case MRun => s.(m := MDone)
    case MDone => s.(done := true, m := MNotify)
    case MNotify => WakeCompleter(s).(m := MJoin)
    case MJoin => s.(m := MFinished)
    case MFinished => s
  }

  predicate Enabled(s: State, step: Step) {
    match step
    case HandlerMove => s.h != HIdle && (s.h == HLock ==> s.owner == Free)
    case CompleterMove => s.c != CExited && s.c != CAsleep && (s.c == CLock ==> s.owner == Free)
    case MainMove => (s.m == MRun ==> s.stop && s.h == HIdle) && (s.m == MJoin ==> s.c == CExited) && s.m != MFinished
    case StartHandler => s.h == HIdle && !s.executing && !s.stop
    case RunDeferred => s.h == HIdle && s.deferred > 0
    case SpuriousCompleter => s.c == CAsleep
  }

  /** A step that is not enabled leaves the state alone. */
  function Apply(k: nat, s: State, step: Step): State {
    if !Enabled(s, step) then s else
    match step
    case HandlerMove => HandlerApply(k, s)
    case CompleterMove => CompleterApply(s)
    case MainMove => MainApply(s)
    case StartHandler => s.(executing := true, now := s.calls, calls := s.calls + 1, h := HFinal)
    case RunDeferred => s.(deferred := s.deferred - 1, executing := false)
    case SpuriousCompleter => WakeCompleter(s)
  }

  /** The state after a schedule; its last element acts last. */
  function Run(k: nat, run: seq<Step>): State {
    if run == [] then Initial() else Apply(k, Run(k, run[..|run| - 1]), run[|run| - 1])
  }

  // ----- the inductive invariant -----

  function Sets(s: State): int { s.calls - Bit(s.h == HFinal || s.h == HSetDone || s.h == HLock || s.h == HSet) }

  function Clears(s: State): int { s.completions + Bit(s.c == CComplete) }

  ghost predicate Locking(s: State) {
    && (s.owner == ByHandler <==> s.h == HSet || s.h == HNotify || s.h == HUnlock)
    && (s.owner == ByCompleter <==>
        s.c == CWait || s.c == CClear || s.c == CComplete || s.c == CRecheck || s.c == CUnlock || s.c == CReturn)
  }

  ghost predicate Counting(k: nat, s: State) {
    && Clears(s) <= Sets(s) <= Clears(s) + 1
    && (s.doStep <==> Sets(s) == Clears(s) + 1)
    && s.calls == s.completions - s.deferred + Bit(s.executing)
    && s.deferred <= 1 && s.calls <= k + 1
    && (s.h != HIdle ==> s.executing && s.calls > 0)
    && (s.calls > 0 ==> s.now == s.calls - 1)
  }

  ghost predicate Stopping(k: nat, s: State) {
    && (s.stop <==> s.calls == k + 1 && s.h != HFinal)
    && (s.h == HSetDone ==> s.calls == k + 1)
    && (s.done <==> s.stop && s.h != HSetDone)
    && (s.m != MRun ==> s.stop && s.h == HIdle)
    && (s.m == MFinished ==> s.c == CExited)
  }

  ghost predicate Knowing(k: nat, s: State) {
    && (s.c == CClear ==> s.doStep)
    && (s.c == CAsleep ==> !s.doStep || s.h == HNotify)
    && (s.c == CReturn || s.c == CExited ==> s.done)
    && (Clears(s) == k + 1 ==> s.c == CComplete || s.c == CRecheck || s.c == CReturn || s.c == CExited)
  }

  ghost predicate Inv(k: nat, s: State) {
    Locking(s) && Counting(k, s) && Stopping(k, s) && Knowing(k, s)
  }

  lemma {:induction false} InitialInv(k: nat, s: State)
    requires s.calls == 0 == s.completions && s.deferred == 0 && !s.doStep && !s.executing && !s.stop && !s.done
    requires s.owner == Free && s.h == HIdle && s.c == CTest && s.m == MRun
    ensures Inv(k, s)
  {
  }

  lemma {:induction false} HandlerKeepsInv(k: nat, s: State)
    requires Inv(k, s) && Enabled(s, HandlerMove)
    ensures Inv(k, HandlerApply(k, s))
  {
    match s.h
    case HFinal => case HSetDone => case HLock => case HSet => case HNotify => case HUnlock =>
  }

  lemma {:induction false} CompleterKeepsInv(k: nat, s: State)
    requires Inv(k, s) && Enabled(s, CompleterMove)
    ensures Inv(k, CompleterApply(s))
  {
    match s.c
    case CTest => case CLock => case CWait => case CClear => case CComplete =>
    case CRecheck => case CUnlock => case CReturn =>
  }

  lemma {:induction false} StepKeepsInv(k: nat, s: State, step: Step)
    requires Inv(k, s)
    ensures Inv(k, Apply(k, s, step))
  {
    if Enabled(s, step) {
      match step
      case HandlerMove => HandlerKeepsInv(k, s);
      case CompleterMove => CompleterKeepsInv(k, s);
      case _ =>
    }
  }

  lemma {:induction false} Reachable(k: nat, run: seq<Step>)
    ensures Inv(k, Run(k, run))
  {
    hide Inv, Apply;
    if run == [] {
      InitialInv(k, Initial());
    } else {
      var before := run[..|run| - 1];
      Reachable(k, before);
      StepKeepsInv(k, Run(k, before), run[|run| - 1]);
    }
  }

  predicate Finished(k: nat, s: State) {
    && s.calls == k + 1 && (s.completions == k || s.completions == k + 1)
    && (s.doStep <==> s.completions == k)
    && s.h == HIdle && s.c == CExited && s.m == MFinished && s.owner == Free && s.deferred == 0
  }

  /**
   In every reachable state, unless the run is over some thread can move without the help
   of a spurious wake-up: the unguarded write of `done` and the wait that tests only
   `doStep` never leave the completer asleep for good.  At the end there were `k + 1`
   handler calls, and the flag is left set exactly when the completer skipped the last one.
   */
  lemma {:induction false} Progress(k: nat, run: seq<Step>)
    ensures Finished(k, Run(k, run)) <==> forall step :: Enabled(Run(k, run), step) ==> step == SpuriousCompleter
  {
    hide Run;
    Reachable(k, run);
    var s := Run(k, run);
    if !Finished(k, s) {
      var step :=
        if s.h != HIdle && (s.h == HLock ==> s.owner == Free) then HandlerMove
        else if s.c != CExited && s.c != CAsleep && (s.c == CLock ==> s.owner == Free) then CompleterMove
        else if s.deferred > 0 then RunDeferred
        else if !s.executing && !s.stop then StartHandler
        else MainMove;
      assert Enabled(s, step) && step != SpuriousCompleter;
    }
  }

  /** Each `CompleteSimulationStep` answers its own handler call: it never runs ahead. */
  lemma {:induction false} OneCompletionPerCall(k: nat, run: seq<Step>)
    ensures var s := Run(k, run); s.completions <= s.calls <= s.completions + 1 && s.calls <= k + 1
  {
    hide Run;
    Reachable(k, run);
  }

  // ----- when the last step is completed -----

  /** The completer is past its test of `done`, and not yet past the wait for the flag. */
  predicate Inside(s: State) { s.c == CLock || s.c == CWait || s.c == CAsleep }

  predicate WillComplete(k: nat, s: State) {
    Inside(s) || s.c == CClear || s.c == CComplete || s.completions == k + 1
  }

  lemma {:induction false} DoneSets(k: nat, s: State)
    requires Inv(k, s) && s.h == HSetDone
    ensures HandlerApply(k, s).done && s.completions == k
    ensures WillComplete(k, HandlerApply(k, s)) <==> Inside(s)
  {
  }

  lemma {:induction false} CompletionDecided(k: nat, s: State, step: Step)
    requires Inv(k, s) && s.done
    ensures Apply(k, s, step).done && (WillComplete(k, Apply(k, s, step)) <==> WillComplete(k, s))
  {
    if Enabled(s, step) {
      match step
      case CompleterMove => match s.c { case _ => }
      case HandlerMove => match s.h { case _ => }
      case _ =>
    }
  }

  lemma {:induction false} DecidedSince(k: nat, run: seq<Step>, i: nat)
    requires i < |run| && run[i] == HandlerMove && Run(k, run[..i]).h == HSetDone
    ensures Run(k, run).done && (WillComplete(k, Run(k, run)) <==> Inside(Run(k, run[..i])))
  {
    hide Inv, Apply, WillComplete, Inside;
    var head := run[..|run| - 1];
    Reachable(k, head);
    if i == |head| {
      DoneSets(k, Run(k, head));
      MoveOfDone(k, Run(k, head));
    } else {
      assert head[..i] == run[..i] && head[i] == run[i];
      DecidedSince(k, head, i);
      CompletionDecided(k, Run(k, head), run[|head|]);
    }
  }

  lemma {:induction false} MoveOfDone(k: nat, s: State)
    requires s.h == HSetDone
    ensures Apply(k, s, HandlerMove) == HandlerApply(k, s)
  {
  }

  /** Every finished run contains the handler's move that sets `done`. */
  lemma {:induction false} DoneWasSet(k: nat, run: seq<Step>) returns (i: nat)
    requires Run(k, run).done
    ensures i < |run| && run[i] == HandlerMove && Run(k, run[..i]).h == HSetDone
  {
    hide Inv;
    var head := run[..|run| - 1];
    if Run(k, head).done {
      i := DoneWasSet(k, head);
      assert head[..i] == run[..i];
    } else {
      i := |head|;
      Reachable(k, head);
      OnlyHandlerSetsDone(k, Run(k, head), run[i]);
    }
  }

  lemma {:induction false} OnlyHandlerSetsDone(k: nat, s: State, step: Step)
    requires Inv(k, s) && !s.done && Apply(k, s, step).done
    ensures step == HandlerMove && s.h == HSetDone
  {
  }

  /**
   The last step is completed if and only if, when the handler set `done`, the completer
   was past its test of `done` and had not yet got past its wait.
   */
  lemma {:induction false} LastStepIff(k: nat, run: seq<Step>, i: nat)
    requires Finished(k, Run(k, run))
    requires i < |run| && run[i] == HandlerMove && Run(k, run[..i]).h == HSetDone
    ensures Run(k, run).completions == k + 1 <==> Inside(Run(k, run[..i]))
    ensures Run(k, run).completions == k <==> !Inside(Run(k, run[..i]))
  {
    hide Run, Inv;
    DecidedSince(k, run, i);
  }

  // ----- every run is finite -----

  /** Every element of the schedule is enabled when its turn comes. */
  ghost predicate Legal(k: nat, run: seq<Step>) {
    forall i :: 0 <= i < |run| ==> Enabled(Run(k, run[..i]), run[i])
  }

  function SpuriousCount(run: seq<Step>): nat {
    if run == [] then 0 else SpuriousCount(run[..|run| - 1]) + (if run[|run| - 1] == SpuriousCompleter then 1 else 0)
  }

  function HandlerRank(h: HandlerPc): nat {
    match h
    case HFinal => 9 case HSetDone => 8 case HLock => 7 case HSet => 6 case HNotify => 5 case HUnlock => 1
    case HIdle => 0
  }

  function CompleterRank(c: CompleterPc): nat {
    match c
    case CRecheck => 9 case CUnlock => 8 case CTest => 7 case CLock => 6 case CWait => 5 case CAsleep => 4
    case CClear => 3 case CComplete => 2 case CReturn => 1 case CExited => 0
  }

  function MainRank(m: MainPc): nat {
    match m
    case MRun => 8 case MDone => 7 case MNotify => 6 case MJoin => 1 case MFinished => 0
  }

  function Rank(k: nat, s: State): int {
    10 * (k + 1 - s.calls) + HandlerRank(s.h) + 9 * (k + 1 - s.completions) + CompleterRank(s.c) + s.deferred
    + MainRank(s.m)
  }

  lemma {:induction false} RankFalls(k: nat, s: State, step: Step)
    requires Inv(k, s) && Enabled(s, step)
    ensures Rank(k, Apply(k, s, step)) <= Rank(k, s) + if step == SpuriousCompleter then 2 else -1
  {
    match step
    case HandlerMove => match s.h { case _ => }
    case CompleterMove => match s.c { case _ => }
    case _ =>
  }

  lemma {:induction false} RankIsNatural(k: nat, s: State)
    requires Inv(k, s)
    ensures 0 <= Rank(k, s)
  {
  }

  lemma {:induction false} RankBound(k: nat, run: seq<Step>)
    requires Legal(k, run)
    ensures |run| + Rank(k, Run(k, run)) <= 19 * k + 34 + 3 * SpuriousCount(run)
  {
    hide Inv, Apply;
    if run != [] {
      hide Rank;
      var before, last := run[..|run| - 1], run[|run| - 1];
      assert forall i :: 0 <= i < |before| ==> before[..i] == run[..i];
      RankBound(k, before);
      Reachable(k, before);
      RankFalls(k, Run(k, before), last);
    }
  }

  /** The length of a run is linear in `k` and in its number of spurious wake-ups. */
  lemma {:induction false} RunsAreBounded(k: nat, run: seq<Step>)
    requires Legal(k, run)
    ensures |run| <= 19 * k + 34 + 3 * SpuriousCount(run)
  {
    hide Inv, Rank, Run;
    RankBound(k, run);
    Reachable(k, run);
    RankIsNatural(k, Run(k, run));
  }

  // ----- the race is real: both final counts occur, for every `k` -----

  ghost predicate Reaches(k: nat, s: State) {
    exists run :: Run(k, run) == s
  }

  lemma {:induction false} Go(k: nat, s: State, step: Step) returns (next: State)
    requires Reaches(k, s)
    ensures next == Apply(k, s, step) && Reaches(k, next)
  {
    hide Apply;
    var run :| Run(k, run) == s;
    assert (run + [step])[..|run|] == run;
    next := Run(k, run + [step]);
  }

  /** `j` steps are over and the completer is about to test `done`. */
  function Quiet(j: nat): State {
    State(false, false, false, Free, HIdle, CTest, MRun, if j == 0 then 0 else j - 1, false, 0, j, j)
  }

  /** One handler call while the completer stands still outside the mutex. */
  lemma {:induction false} HandlerCall(k: nat, s: State) returns (after: State)
    requires Reaches(k, s) && s.h == HIdle && !s.executing && !s.stop && !s.done && s.owner == Free && s.calls <= k
    requires s.c == CTest || s.c == CLock
    ensures Reaches(k, after)
    ensures var last := s.calls == k;
            after == s.(executing := true, now := s.calls, calls := s.calls + 1,
                        doStep := true, stop := last, done := last)
  {
    after := HandlerEnters(k, s);
    assert after.h == HLock && after.owner == Free;
    after := Go(k, after, HandlerMove);
    after := Go(k, after, HandlerMove);
    after := Go(k, after, HandlerMove);
    after := Go(k, after, HandlerMove);
  }

  lemma {:induction false} HandlerEnters(k: nat, s: State) returns (after: State)
    requires Reaches(k, s) && s.h == HIdle && !s.executing && !s.stop && !s.done && s.calls <= k
    ensures Reaches(k, after)
    ensures var last := s.calls == k;
            after == s.(executing := true, now := s.calls, calls := s.calls + 1, h := HLock, stop := last, done := last)
  {
    after := Go(k, s, StartHandler);
    after := Go(k, after, HandlerMove);
    if s.calls == k {
      after := Go(k, after, HandlerMove);
    }
  }

  lemma {:induction false} Completion(k: nat, s: State) returns (after: State)
    requires Reaches(k, s) && s.c == CLock && s.owner == Free && s.doStep && s.h == HIdle && s.deferred == 0
    ensures Reaches(k, after)
    ensures after == s.(doStep := false, completions := s.completions + 1, executing := false,
                        c := CRecheck, owner := ByCompleter)
  {
    hide HandlerApply, MainApply;
    after := Go(k, s, CompleterMove);
    after := Go(k, after, CompleterMove);
    assert after == s.(c := CClear, owner := ByCompleter);
    after := Go(k, after, CompleterMove);
    after := Go(k, after, CompleterMove);
    after := Go(k, after, RunDeferred);
  }

  lemma {:induction false} QuietReached(k: nat, j: nat)
    requires j <= k
    ensures Reaches(k, Quiet(j))
  {
    if j == 0 {
      assert Run(k, []) == Initial();
    } else {
      QuietReached(k, j - 1);
      var s := HandlerCall(k, Quiet(j - 1));
      s := Go(k, s, CompleterMove);
      s := Completion(k, s);
      s := Go(k, s, CompleterMove);
      s := Go(k, s, CompleterMove);
    }
  }

  lemma {:induction false} Shutdown(k: nat, s: State) returns (after: State)
    requires Reaches(k, s) && s.h == HIdle && s.stop && s.done && s.m == MRun && s.c == CExited
    ensures Reaches(k, after) && after == s.(m := MFinished)
  {
    after := Go(k, s, MainMove);
    after := Go(k, after, MainMove);
    after := Go(k, after, MainMove);
    after := Go(k, after, MainMove);
  }

  /** Not inside: the completer sees `done` first, and the last step is not completed. */
  lemma {:induction false} LastStepSkipped(k: nat)
    ensures exists run :: Finished(k, Run(k, run)) && Run(k, run).completions == k
  {
    hide Run;
    QuietReached(k, k);
    var s := HandlerCall(k, Quiet(k));
    s := Go(k, s, CompleterMove);
    s := Shutdown(k, s);
  }

  /** Inside: the completer can only go on to wait for the flag, and completes the last step too. */
  lemma {:induction false} LastStepCompleted(k: nat)
    ensures exists run :: Finished(k, Run(k, run)) && Run(k, run).completions == k + 1
  {
    hide Run;
    QuietReached(k, k);
    var s := Go(k, Quiet(k), CompleterMove);
    s := HandlerCall(k, s);
    s := Completion(k, s);
    s := Go(k, s, CompleterMove);
    s := Go(k, s, CompleterMove);
    s := Shutdown(k, s);
  }
}
