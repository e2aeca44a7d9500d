/**
 The lockstep handshake between an asynchronous simulation step handler and a user
 thread (the "completer"), generalised from ten steps to any number `k`: the
 expected time is reached in step `k`.

 Every read or write of shared state in the two lambdas is one atomic step, so a run
 is an arbitrary interleaving of the handler, the completer, the main thread and the
 library's I/O thread.  A condition-variable wait may also return spuriously.  The
 library enters only through `StartHandler` and `RunDeferred`, which follow the
 `_isExecutingSimStep` guard of its asynchronous step policy.
 */
module Lockstep {

  import opened Arith

  datatype HandlerPc =
    | HIdle | HStamp | HActivate | HTestDone | HLock | HWait | HAsleep
    | HBump | HFinal | HSetDone | HNotify | HUnlock

  datatype CompleterPc =
    | CTestDone | CTestTime | CLock | CWait | CAsleep | CRecheck | CCheck | CMismatch
    | CRelease | CComplete | CBump | CNotify | CUnlock | CReturn | CExited

  datatype MainPc = MRun | MDone | MNotify | MJoin | MFinished

  datatype Owner = Free | ByHandler | ByCompleter

  datatype State = State(
    syncTime: int,      // syncTimeNs, in periods
    active: int,        // numActiveSimtasks
    counter: int,       // cvCounter
    done: bool,
    stop: bool,         // Stop() was called on the lifecycle service
    owner: Owner,       // who holds the mutex
    h: HandlerPc,
    c: CompleterPc,
    m: MainPc,
    now: int,           // the handler's argument, in periods
    executing: bool,    // the library's _isExecutingSimStep
    deferred: nat,      // CompleteSimulationStep calls the I/O thread has not run yet
    calls: nat,         // handler invocations
    completions: nat)   // CompleteSimulationStep invocations

  datatype Step =
    | HandlerMove | CompleterMove | MainMove | StartHandler | RunDeferred
    | SpuriousHandler | SpuriousCompleter

  function Initial(): State {
    State(0, 0, 0, false, false, Free, HIdle, CTestDone, MRun, 0, false, 0, 0, 0)
  }

  predicate Even(x: int) { x % 2 == 0 }

  function HandlerApply(k: nat, s: State): State {
    match s.h
    case HIdle => s
    case HStamp => s.(syncTime := s.now, h := HActivate)
    case HActivate => s.(active := s.active + 1, h := HTestDone)
    case HTestDone => s.(h := if s.done then HIdle else HLock)
    case HLock => s.(owner := ByHandler, h := HWait)
    case HWait => if Even(s.counter) then s.(h := HBump) else s.(owner := Free, h := HAsleep)
    case HAsleep => s
    case HBump => s.(counter := s.counter + 1, h := HFinal)
    case HFinal => if s.now == k then s.(stop := true, h := HSetDone) else s.(h := HNotify)
    case HSetDone => s.(done := true, h := HNotify)
    case HNotify => WakeCompleter(s).(h := HUnlock)
    case HUnlock => s.(owner := Free, h := HIdle)
  }

  function CompleterApply(k: nat, s: State): State {
    match s.c
    case CTestDone => s.(c := if s.done then CExited else CTestTime)
    case CTestTime => s.(c := if s.syncTime < k then CLock else CExited)
    case CLock => s.(owner := ByCompleter, c := CWait)
    case CWait => if Even(s.counter) then s.(owner := Free, c := CAsleep) else s.(c := CRecheck)
    case CAsleep => s
    case CRecheck => s.(c := if s.done then CReturn else CCheck)
    case CCheck => s.(c := if s.active != 1 then CMismatch else CRelease)
    case CMismatch => if s.active != 0 then s.(c := CReturn) else s.(done := true, c := CRelease)
    case CRelease => s.(active := s.active - 1, c := CComplete)
    case CComplete => s.(completions := s.completions + 1, deferred := s.deferred + 1, c := CBump)
    case CBump => s.(counter := s.counter + 1, c := CNotify)
    case CNotify => WakeHandler(s).(c := CUnlock)
    case CUnlock => s.(owner := Free, c := CTestDone)
    case CReturn => s.(owner := Free, c := CExited)
    case CExited => s
  }

  function MainApply(s: State): State {
    match s.m
    case MRun => s.(m := MDone)
    case MDone => s.(done := true, m := MNotify)
    case MNotify => WakeHandler(WakeCompleter(s)).(m := MJoin)
    case MJoin => s.(m := MFinished)
    case MFinished => s
  }

  /** A notified sleeper leaves the wait queue and contends for the mutex again. */
  function WakeCompleter(s: State): State {
    if s.c == CAsleep then s.(c := CLock) else s
  }

  function WakeHandler(s: State): State {
    if s.h == HAsleep then s.(h := HLock) else s
  }

  predicate Enabled(s: State, step: Step) {
    match step
    case HandlerMove => s.h != HIdle && s.h != HAsleep && (s.h == HLock ==> s.owner == Free)
    case CompleterMove => s.c != CExited && s.c != CAsleep && (s.c == CLock ==> s.owner == Free)
    case MainMove =>
      // Run() returns once the stopped participant's handler has returned; join() needs the exit
      && (s.m == MRun ==> s.stop && s.h == HIdle)
      && (s.m == MJoin ==> s.c == CExited)
      && s.m != MFinished
    case StartHandler => s.h == HIdle && !s.executing && !s.stop
    case RunDeferred => s.h == HIdle && s.deferred > 0
    case SpuriousHandler => s.h == HAsleep
    case SpuriousCompleter => s.c == CAsleep
  }

  /** A step that is not enabled leaves the state alone. */
  function Apply(k: nat, s: State, step: Step): State {
    if !Enabled(s, step) then s else
    match step
    case HandlerMove => HandlerApply(k, s)
    case CompleterMove => CompleterApply(k, s)
    case MainMove => MainApply(s)
    case StartHandler => s.(executing := true, now := s.calls, calls := s.calls + 1, h := HStamp)
    case RunDeferred => s.(deferred := s.deferred - 1, executing := false)
    case SpuriousHandler => WakeHandler(s)
    case SpuriousCompleter => WakeCompleter(s)
  }

  predicate Spurious(step: Step) { step.SpuriousHandler? || step.SpuriousCompleter? }

  /** The state after a schedule; its last element acts last. */
  function Run(k: nat, run: seq<Step>): State {
    if run == [] then Initial() else Apply(k, Run(k, run[..|run| - 1]), run[|run| - 1])
  }

  /** Every element of the schedule is enabled when its turn comes. */
  ghost predicate Legal(k: nat, run: seq<Step>) {
    forall i :: 0 <= i < |run| ==> Enabled(Run(k, run[..i]), run[i])
  }

  // ----- the inductive invariant -----

  predicate HandlerLocked(h: HandlerPc) {
    h == HWait || h == HBump || h == HFinal || h == HSetDone || h == HNotify || h == HUnlock
  }

  predicate CompleterLocked(c: CompleterPc) {
    c == CWait || c == CRecheck || c == CCheck || c == CMismatch || c == CRelease || c == CComplete
    || c == CBump || c == CNotify || c == CUnlock || c == CReturn
  }

  /** The running call has not yet incremented the counter. */
  predicate BeforeBump(h: HandlerPc) {
    h == HStamp || h == HActivate || h == HTestDone || h == HLock || h == HWait || h == HAsleep || h == HBump
  }

  function HandlerBumps(s: State): int { s.calls - Bit(BeforeBump(s.h)) }

  function CompleterBumps(s: State): int { s.completions - Bit(s.c == CBump) }

  ghost predicate Locking(s: State) {
    && (s.owner == ByHandler <==> HandlerLocked(s.h))
    && (s.owner == ByCompleter <==> CompleterLocked(s.c))
  }

  ghost predicate Counting(k: nat, s: State) {
    && s.counter == HandlerBumps(s) + CompleterBumps(s)
    && 0 <= CompleterBumps(s) <= HandlerBumps(s) <= CompleterBumps(s) + 1
    && s.active == s.calls - Bit(s.h == HStamp || s.h == HActivate) - s.completions - Bit(s.c == CComplete)
    && s.calls == s.completions - s.deferred + Bit(s.executing)
    && s.deferred <= 1 && s.calls <= k + 1 && s.completions <= k
    && (s.h != HIdle ==> s.executing && s.calls > 0)
    && (s.calls > 0 ==> s.now == s.calls - 1)
    && (s.h == HStamp ==> s.syncTime == if s.calls == 1 then 0 else s.calls - 2)
    && (s.h != HStamp ==> s.syncTime == if s.calls == 0 then 0 else s.calls - 1)
  }

  ghost predicate Stopping(k: nat, s: State) {
    && (s.stop <==> s.calls == k + 1 && (s.h == HSetDone || s.h == HNotify || s.h == HUnlock || s.h == HIdle))
    && (s.h == HSetDone ==> s.calls == k + 1)
    && (s.done <==> s.stop && s.h != HSetDone)
    && (s.m != MRun ==> s.stop && s.h == HIdle)
    && (s.m == MFinished ==> s.c == CExited)
  }

  /** What each program point knows; `HAsleep` and `CMismatch` are never reached. */
  ghost predicate Knowing(k: nat, s: State) {
    && s.h != HAsleep && s.c != CMismatch
    && (s.c == CRecheck || s.c == CCheck || s.c == CRelease || s.c == CComplete || s.c == CBump || s.c == CReturn
        ==> HandlerBumps(s) != CompleterBumps(s))
    && (s.c == CCheck || s.c == CRelease || s.c == CComplete ==> !s.done)
    && (s.c == CAsleep ==> HandlerBumps(s) == CompleterBumps(s) || s.h == HFinal || s.h == HSetDone || s.h == HNotify)
    && (s.c == CReturn ==> s.done)
    && (s.c == CExited ==> s.completions == k)
  }

  ghost predicate Inv(k: nat, s: State) {
    Locking(s) && Counting(k, s) && Stopping(k, s) && Knowing(k, s)
  }

  lemma {:induction false} Parity(k: nat, s: State)
    requires Inv(k, s)
    ensures Even(s.counter) <==> HandlerBumps(s) == CompleterBumps(s)
  {
    var b := CompleterBumps(s);
    assert s.counter == 2 * b || s.counter == 2 * b + 1;
  }

  predicate Entering(h: HandlerPc) { h == HStamp || h == HActivate || h == HTestDone || h == HLock || h == HWait }

  lemma {:induction false} EnteringKeepsInv(k: nat, s: State)
    requires Inv(k, s) && Enabled(s, HandlerMove) && Entering(s.h)
    ensures Inv(k, HandlerApply(k, s))
  {
    Parity(k, s);
    match s.h
    case HStamp => case HActivate => case HTestDone => case HLock => case HWait =>
  }

  lemma {:induction false} LeavingKeepsInv(k: nat, s: State)
    requires Inv(k, s) && Enabled(s, HandlerMove) && !Entering(s.h)
    ensures Inv(k, HandlerApply(k, s))
  {
    hide Inv, HandlerApply;
    if s.h == HNotify || s.h == HUnlock { NotifyingKeepsInv(k, s); } else { BumpingKeepsInv(k, s); }
  }

  lemma {:induction false} BumpingKeepsInv(k: nat, s: State)
    requires Inv(k, s) && (s.h == HBump || s.h == HFinal || s.h == HSetDone)
    ensures Inv(k, HandlerApply(k, s))
  {
    hide Even;
  }

  lemma {:induction false} NotifyingKeepsInv(k: nat, s: State)
    requires Inv(k, s) && (s.h == HNotify || s.h == HUnlock)
    ensures Inv(k, HandlerApply(k, s))
  {
    hide Even;
  }

  predicate Waiting(c: CompleterPc) { c == CTestDone || c == CTestTime || c == CLock || c == CWait }

  lemma {:induction false} WaitingKeepsInv(k: nat, s: State)
    requires Inv(k, s) && Enabled(s, CompleterMove) && Waiting(s.c)
    ensures Inv(k, CompleterApply(k, s))
  {
    Parity(k, s);
    match s.c
    case CTestDone => case CTestTime => case CLock => case CWait =>
  }

  predicate Completing(c: CompleterPc) { c == CRecheck || c == CCheck || c == CRelease || c == CComplete }

  lemma {:induction false} CompletingKeepsInv(k: nat, s: State)
    requires Inv(k, s) && Enabled(s, CompleterMove) && Completing(s.c)
    ensures Inv(k, CompleterApply(k, s))
  {
    match s.c
    case CRecheck => case CCheck => case CRelease => case CComplete =>
  }

  lemma {:induction false} ReleasingKeepsInv(k: nat, s: State)
    requires Inv(k, s) && Enabled(s, CompleterMove) && !Waiting(s.c) && !Completing(s.c)
    ensures Inv(k, CompleterApply(k, s))
  {
    match s.c
    case CBump => case CNotify => case CUnlock => case CReturn =>
  }

  lemma {:induction false} CompleterKeepsInv(k: nat, s: State)
    requires Inv(k, s) && Enabled(s, CompleterMove)
    ensures Inv(k, CompleterApply(k, s))
  {
    hide Inv, CompleterApply;
    if Waiting(s.c) {
      WaitingKeepsInv(k, s);
    } else if Completing(s.c) {
      CompletingKeepsInv(k, s);
    } else {
      ReleasingKeepsInv(k, s);
    }
  }

  lemma {:induction false} MainKeepsInv(k: nat, s: State)
    requires Inv(k, s) && Enabled(s, MainMove)
    ensures Inv(k, MainApply(s))
  {
    hide Even;
  }

  /** The library's own moves: starting a step, and running a deferred completion. */
  lemma {:induction false} LibraryKeepsInv(k: nat, s: State, step: Step)
    requires Inv(k, s) && Enabled(s, step) && !step.HandlerMove? && !step.CompleterMove? && !step.MainMove?
    ensures Inv(k, Apply(k, s, step))
  {
    hide Even;
  }

  lemma {:induction false} StepKeepsInv(k: nat, s: State, step: Step)
    requires Inv(k, s)
    ensures Inv(k, Apply(k, s, step))
  {
    hide Inv, HandlerApply, CompleterApply, MainApply;
    if Enabled(s, step) {
      match step
      case HandlerMove => if Entering(s.h) { EnteringKeepsInv(k, s); } else { LeavingKeepsInv(k, s); }
      case CompleterMove => CompleterKeepsInv(k, s);
      case MainMove => MainKeepsInv(k, s);
      case _ => LibraryKeepsInv(k, s, step);
    }
  }

  lemma {:induction false} InitialInv(k: nat, s: State)
    requires s.calls == 0 == s.completions && s.deferred == 0 && s.active == 0 && s.counter == 0 && s.syncTime == 0
    requires s.owner == Free && s.h == HIdle && s.c == CTestDone && s.m == MRun && !s.executing && !s.stop && !s.done
    ensures Inv(k, s)
  {
  }

  lemma {:induction false} Reachable(k: nat, run: seq<Step>)
    ensures Inv(k, Run(k, run))
  {
    hide Inv, Apply;
    if run == [] {
      InitialInv(k, Initial());
    } else {
      var before := run[..|run| - 1];
      Reachable(k, before);
      StepKeepsInv(k, Run(k, before), run[|run| - 1]);
    }
  }

  /**
   Safety, in every reachable state of every interleaving: at most one step is active,
   the completer never finds another number of active steps, the handler's wait for an
   even counter never blocks, and the counter never exceeds `2 * k + 1`.
   */
  lemma {:induction false} Safety(k: nat, run: seq<Step>)
    ensures var s := Run(k, run);
            && 0 <= s.active <= 1
            && s.c != CMismatch
            && s.h != HAsleep && (s.h == HWait ==> Even(s.counter))
            && 0 <= s.counter <= 2 * k + 1
            && s.completions <= s.calls <= s.completions + 1 <= k + 1
  {
    Reachable(k, run);
    Parity(k, Run(k, run));
  }

  // ----- progress -----

  function HandlerRank(h: HandlerPc): nat {
    match h
    case HStamp => 17 case HActivate => 16 case HTestDone => 15 case HLock => 14 case HWait => 13
    case HAsleep => 12 case HBump => 11 case HFinal => 10 case HSetDone => 9 case HNotify => 8
    case HUnlock => 1 case HIdle => 0
  }

  function CompleterRank(c: CompleterPc): nat {
    match c
    case CBump => 14 case CNotify => 13 case CUnlock => 12 case CTestDone => 11 case CTestTime => 10
    case CLock => 9 case CWait => 8 case CAsleep => 7 case CRecheck => 6 case CCheck => 5 case CMismatch => 4
    case CRelease => 3 case CComplete => 2 case CReturn => 1 case CExited => 0
  }

  function MainRank(m: MainPc): nat {
    match m
    case MRun => 8 case MDone => 7 case MNotify => 6 case MJoin => 1 case MFinished => 0
  }

  function Rank(k: nat, s: State): int {
    18 * (k + 1 - s.calls) + HandlerRank(s.h) + 14 * (k - s.completions) + CompleterRank(s.c) + s.deferred
    + MainRank(s.m)
  }

  lemma {:induction false} RankIsNatural(k: nat, s: State)
    requires Inv(k, s)
    ensures 0 <= Rank(k, s)
  {
  }

  lemma {:induction false} CompleterRankFalls(k: nat, s: State)
    requires Inv(k, s) && Enabled(s, CompleterMove)
    ensures Rank(k, CompleterApply(k, s)) < Rank(k, s)
  {
    match s.c
    case CTestDone => case CTestTime => case CLock => case CWait => case CRecheck => case CCheck =>
    case CRelease => case CComplete => case CBump => case CNotify => case CUnlock => case CReturn =>
  }

  lemma {:induction false} HandlerRankFalls(k: nat, s: State)
    requires Inv(k, s) && Enabled(s, HandlerMove)
    ensures Rank(k, HandlerApply(k, s)) < Rank(k, s)
  {
    if s.h == HWait { Parity(k, s); }
    assert s.h == HWait ==> Even(s.counter);
    hide Inv, Even;
    if Entering(s.h) { EnteringRankFalls(k, s); } else { LeavingRankFalls(k, s); }
  }

  lemma {:induction false} EnteringRankFalls(k: nat, s: State)
    requires Entering(s.h) && (s.h == HWait ==> Even(s.counter))
    ensures Rank(k, HandlerApply(k, s)) < Rank(k, s)
  {
    hide Even, CompleterRank, MainRank;
  }

  lemma {:induction false} LeavingRankFalls(k: nat, s: State)
    requires Enabled(s, HandlerMove) && !Entering(s.h)
    ensures Rank(k, HandlerApply(k, s)) < Rank(k, s)
  {
    hide Even, MainRank;
  }

  lemma {:induction false} RankFalls(k: nat, s: State, step: Step)
    requires Inv(k, s) && Enabled(s, step)
    ensures Rank(k, Apply(k, s, step)) <= Rank(k, s) + if Spurious(step) then 2 else -1
  {
    hide HandlerApply, CompleterApply, Inv;
    match step
    case CompleterMove => CompleterRankFalls(k, s);
    case HandlerMove => HandlerRankFalls(k, s);
    case _ =>
  }

  function SpuriousCount(run: seq<Step>): nat {
    if run == [] then 0 else SpuriousCount(run[..|run| - 1]) + (if Spurious(run[|run| - 1]) then 1 else 0)
  }

  lemma {:induction false} RankBound(k: nat, run: seq<Step>)
    requires Legal(k, run)
    ensures |run| + Rank(k, Run(k, run)) <= 32 * k + 37 + 3 * SpuriousCount(run)
  {
    hide Inv, Apply, Rank;
    if run == [] {
      assert Rank(k, Initial()) == 32 * k + 37 by { InitialRank(k); }
    } else {
      var before, last := run[..|run| - 1], run[|run| - 1];
      assert forall i :: 0 <= i < |before| ==> before[..i] == run[..i];
      RankBound(k, before);
      Reachable(k, before);
      RankFalls(k, Run(k, before), last);
    }
  }

  lemma {:induction false} InitialRank(k: nat)
    ensures Rank(k, Initial()) == 32 * k + 37
  {
  }

  /** Every run is finite: its length is linear in `k` and in its number of spurious wake-ups. */
  lemma {:induction false} RunsAreBounded(k: nat, run: seq<Step>)
    requires Legal(k, run)
    ensures |run| <= 32 * k + 37 + 3 * SpuriousCount(run)
  {
    hide Inv, Rank, Run;
    RankBound(k, run);
    Reachable(k, run);
    RankIsNatural(k, Run(k, run));
  }

  predicate Finished(k: nat, s: State) {
    && s.calls == k + 1 && s.completions == k && s.counter == 2 * k + 1
    && s.h == HIdle && s.c == CExited && s.m == MFinished && s.owner == Free && s.deferred == 0
  }

  /**
   No reachable state is stuck and no sleeper is forgotten: unless the run is over, with
   `k + 1` handler calls, `k` completions and both threads gone, some thread can move
   without the help of a spurious wake-up.
   */
  lemma {:induction false} Progress(k: nat, run: seq<Step>)
    ensures Finished(k, Run(k, run)) <==> forall step :: Enabled(Run(k, run), step) ==> Spurious(step)
  {
    Reachable(k, run);
    var s := Run(k, run);
    if !Finished(k, s) {
      ghost var step :=
        if s.h != HIdle && (s.h == HLock ==> s.owner == Free) then HandlerMove
        else if s.c != CExited && s.c != CAsleep && (s.c == CLock ==> s.owner == Free) then CompleterMove
        else if s.deferred > 0 then RunDeferred
        else if !s.executing && !s.stop then StartHandler
        else MainMove;
      assert Enabled(s, step) && !Spurious(step);
    }
  }
}
