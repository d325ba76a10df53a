/**
 * The platform's property animator, seen only through the state the card
 * reads and writes: the reversed flag, the completion fraction, whether it
 * is running, and the completion handlers registered on it.
 */
module Animation {

  /** The two completion closures the card registers. */
  datatype Completion = ExpandDone | CollapseDone

  /** The position at which an animation finished. */
  datatype Position = End | Start | Current

  /** A value snapshot of an animator. */
  datatype AnimatorState = AnimatorState(
    isReversed: bool,
    fractionComplete: real,
    isRunning: bool,
    pending: seq<Completion>)

  class PropertyAnimator {
    var isReversed: bool
    var fractionComplete: real
    var isRunning: bool
    var pending: seq<Completion>

    ghost function View(): AnimatorState
      reads this
    {
      AnimatorState(isReversed, fractionComplete, isRunning, pending)
    }

    /** A fresh animator: forward, at fraction 0, inactive, no handlers. */
    constructor ()
      ensures View() == AnimatorState(false, 0.0, false, [])
    {
      isReversed := false;
      fractionComplete := 0.0;
      isRunning := false;
      pending := [];
    }

    /** `addCompletion`: the handler runs after the handlers already registered. */
    method AddCompletion(h: Completion)
      modifies this
      ensures View() == old(View()).(pending := old(pending) + [h])
    {
      pending := pending + [h];
    }

    method StartAnimation()
      modifies this
      ensures View() == old(View()).(isRunning := true)
    {
      isRunning := true;
    }

    method PauseAnimation()
      modifies this
      ensures View() == old(View()).(isRunning := false)
    {
      isRunning := false;
    }

    /** `continueAnimation(withTimingParameters: nil, durationFactor: 0)`. */
    method ContinueAnimation()
      modifies this
      ensures View() == old(View()).(isRunning := true)
    {
      isRunning := true;
    }

    /**
     * The animation finished (at whatever position): the animator stops and
     * hands back the handlers registered so far, in registration order,
     * discarding them.
     */
    method Finish() returns (handlers: seq<Completion>)
      modifies this
      ensures handlers == old(pending)
      ensures View() == old(View()).(isRunning := false, pending := [])
    {
      handlers := pending;
      pending := [];
      isRunning := false;
    }
  }
}
