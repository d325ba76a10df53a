/**
 * The card cell: the fields it updates in place, its single shared animator,
 * and the operations that change them.  Each operation of the cell is proved
 * to move the cell's snapshot exactly as the matching function of CardSpec
 * says, and to keep the invariant CardSpec.ValidCard.  `Complete`, one
 * completion closure, is the exception: it is stated on the flags through
 * CardSpec.Handle and is called only from `AnimationFinished`.
 */
module CityCell {
  import opened Wrappers
  import opened CardState
  import opened Animation
  import opened CardSpec

  class CityCollectionViewCell {
    var state: State
    var index: Option<int>
    var hasCollection: bool
    var frame: Frame
    var initialFrame: Option<Frame>
    var animationProgress: real
    var scrollEnabled: bool       // the collection view's `isScrollEnabled`
    var selectionEnabled: bool    // the collection view's `allowsSelection`
    var neighbours: map<int, real>
    const animator: PropertyAnimator
    const popupOffset: real

    ghost function Model(): Card
      reads this, animator
    {
      Card(state, index, hasCollection, frame, initialFrame, animationProgress,
           scrollEnabled, selectionEnabled, neighbours, animator.View())
    }

    ghost predicate Valid()
      reads this, animator
    {
      popupOffset > 0.0 && ValidCard(Model())
    }

    /** A collapsed, unconfigured cell; `popupOffset` is half the screen height. */
    constructor (screenHeight: real, frame: Frame, neighbours: map<int, real>)
      requires screenHeight > 0.0
      ensures Valid() && fresh(animator)
      ensures Model() == Initial(frame, neighbours)
      ensures popupOffset == screenHeight / 2.0
    {
      state := Collapsed;
      index := None;
      hasCollection := false;
      this.frame := frame;
      initialFrame := None;
      animationProgress := 0.0;
      scrollEnabled := true;
      selectionEnabled := true;
      this.neighbours := neighbours;
      animator := new PropertyAnimator();
      popupOffset := screenHeight / 2.0;
    }

    method Configure(i: int)
      requires Valid()
      modifies this
      ensures Valid()
      ensures Model() == CardSpec.Configure(old(Model()), i)
    {
      hasCollection := true;
      index := Some(i);
    }

    method Toggle(ctr: Container)
      requires Valid()
      modifies this, animator
      ensures Valid()
      ensures Model() == CardSpec.Toggle(old(Model()), ctr).card
    {
      ToggleNeverTraps(Model(), ctr);
      match state
      case Collapsed =>
        Expand(ctr);
      case Expanded =>
        var ok := Collapse();
        assert ok;
    }

    method Expand(ctr: Container)
      requires Valid()
      modifies this, animator
      ensures Valid()
      ensures Model() == CardSpec.Expand(old(Model()), ctr)
    {
      if !hasCollection || index.None? {
        return;
      }
      var i := index.value;
      // the animation block
      initialFrame := Some(frame);
      frame := ExpandedFrame(ctr);
      if i - 1 in neighbours {
        neighbours := neighbours[i - 1 := neighbours[i - 1] - NeighbourShift];
      }
      if i + 1 in neighbours {
        neighbours := neighbours[i + 1 := neighbours[i + 1] + NeighbourShift];
      }
      animator.AddCompletion(ExpandDone);
      animator.StartAnimation();
    }

    /** Returns false where the source force-unwraps an unset `initialFrame`. */
    method Collapse() returns (ok: bool)
      requires Valid()
      modifies this, animator
      ensures Valid()
      ensures CardSpec.Collapse(old(Model())) == if ok then Continue(Model()) else Trap
      ensures !ok ==> Model() == old(Model())
    {
      ok := true;
      if !hasCollection || index.None? {
        return;
      }
      if initialFrame.None? {
        ok := false;
        return;
      }
      var i := index.value;
      // the animation block
      frame := initialFrame.value;
      if i - 1 in neighbours {
        neighbours := neighbours[i - 1 := neighbours[i - 1] + NeighbourShift];
      }
      if i + 1 in neighbours {
        neighbours := neighbours[i + 1 := neighbours[i + 1] - NeighbourShift];
      }
      animator.AddCompletion(CollapseDone);
      animator.StartAnimation();
    }

    /**
     * One completion closure, invoked by the animator with the finishing
     * position.  Called only from `AnimationFinished`, which clears the
     * pending list first; on its own it need not keep `Valid()`.
     */
    method Complete(h: Completion, p: Position)
      modifies this
      ensures Flags(state, scrollEnabled, selectionEnabled)
           == Handle(h, p, hasCollection, old(Flags(state, scrollEnabled, selectionEnabled)))
      ensures index == old(index) && hasCollection == old(hasCollection) && frame == old(frame)
      ensures initialFrame == old(initialFrame) && animationProgress == old(animationProgress)
      ensures neighbours == old(neighbours)
    {
      if p == End {
        state := Change(state);
        match h
        case ExpandDone =>
          if hasCollection {
            scrollEnabled := false;
            selectionEnabled := false;
          }
        case CollapseDone =>
          scrollEnabled := true;
          selectionEnabled := true;
      }
    }

    /** The animator finished at `p` and runs every registered closure in order. */
    method AnimationFinished(p: Position)
      requires Valid()
      modifies this, animator
      ensures Valid()
      ensures Model() == Finish(old(Model()), p)
    {
      FinishKeepsValid(Model(), p);
      var handlers := animator.Finish();
      var k := 0;
      while k < |handlers|
        invariant 0 <= k <= |handlers|
        invariant RunAll(handlers[k..], p, hasCollection, FlagsOf(Model()))
               == RunAll(handlers, p, old(hasCollection), FlagsOf(old(Model())))
        invariant Model() == old(Model()).(state := state, scrollEnabled := scrollEnabled,
                                          selectionEnabled := selectionEnabled,
                                          animator := old(animator.View()).(pending := [], isRunning := false))
      {
        assert handlers[k..][1..] == handlers[k + 1..];
        Complete(handlers[k], p);
        k := k + 1;
      }
    }

    /** `popupViewPanned`, with the recogniser's phase and readings as input. */
    method PopupViewPanned(e: PanEvent, ctr: Container)
      requires Valid()
      modifies this, animator
      ensures Valid()
      ensures Model() == Pan(old(Model()), e, ctr, popupOffset).card
    {
      PanNeverTraps(Model(), e, ctr, popupOffset);
      match e
      case Began =>
        Toggle(ctr);
        animationProgress := animator.fractionComplete;
        animator.PauseAnimation();
      case Changed(ty) =>
        var fraction := -ty / popupOffset;
        if state == Expanded {
          fraction := -fraction;
        }
        if animator.isReversed {
          fraction := -fraction;
        }
        animator.fractionComplete := fraction + animationProgress;
      case Ended(vy) =>
        var shouldComplete := vy > 0.0;
        if vy == 0.0 {
          animator.ContinueAnimation();
          return;
        }
        match state {
          case Expanded =>
            if !shouldComplete && !animator.isReversed {
              animator.isReversed := !animator.isReversed;
            }
            if shouldComplete && animator.isReversed {
              animator.isReversed := !animator.isReversed;
            }
          case Collapsed =>
            if shouldComplete && !animator.isReversed {
              animator.isReversed := !animator.isReversed;
            }
            if !shouldComplete && animator.isReversed {
              animator.isReversed := !animator.isReversed;
            }
        }
        animator.ContinueAnimation();
      case OtherPhase =>
    }
  }
}
