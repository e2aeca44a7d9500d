/**
 The re-entrant one-shot timer of the LIN nodes.  A callback is an action identifier:
 `ExecuteAction` clears the timer before it hands the action to its caller, so whatever
 the action does to the timer happens afterwards and stays.
 */
module LinTimer {

  import opened Wrappers

  /** The largest representable duration, in nanoseconds. */
  const MAX_TIME: int := 0x7FFF_FFFF_FFFF_FFFF

  datatype TimerState = TimerState(active: bool, timeOut: int, action: Option<nat>)

  function Cleared(): TimerState { TimerState(false, MAX_TIME, None) }

  function Armed(timeOut: int, action: nat): TimerState { TimerState(true, timeOut, Some(action)) }

  predicate Due(t: TimerState, now: int) { t.active && t.timeOut <= now }

  /** Either cleared or armed: an active timer always holds an action. */
  predicate Proper(t: TimerState) { if t.active then t.action.Some? else t == Cleared() }

  class Timer {
    var isActive: bool
    var timeOut: int
    var action: Option<nat>

    function State(): TimerState
      reads this
    {
      TimerState(isActive, timeOut, action)
    }

    constructor ()
      ensures State() == Cleared()
    {
      isActive, timeOut, action := false, MAX_TIME, None;
    }

    method Set(timeOut: int, action: nat)
      modifies this
      ensures State() == Armed(timeOut, action)
    {
      isActive := true;
      this.timeOut := timeOut;
      this.action := Some(action);
    }

    method Clear()
      modifies this
      ensures State() == Cleared()
    {
      isActive := false;
      timeOut := MAX_TIME;
      action := None;
    }

    /** Fires at most once: a second call at any later time does nothing until `Set`. */
    method ExecuteAction(now: int) returns (fired: Option<nat>)
      requires Proper(State())
      modifies this
      ensures Proper(State())
      ensures fired == if Due(old(State()), now) then old(State()).action else None
      ensures State() == if Due(old(State()), now) then Cleared() else old(State())
      ensures fired.Some? <==> Due(old(State()), now)
    {
      if !isActive || now < timeOut {
        return None;
      }
      fired := action;
      Clear();
    }
  }
}
