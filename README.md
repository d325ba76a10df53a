# Card cell expand/collapse state machine

A model of the card cell of UIViewPropertyAnimatorDemo (`CityCollectionViewCell`).
The cell has a two-valued logical state, `expanded` or `collapsed`, and one shared
property animator. It grows to fill the screen, or shrinks back, either when
`toggle` is called (a tap forwarded by the list controller, or the close button)
or while a pan gesture drives it. The logical state changes only inside the
completion closures, and only when the animation finishes at its end position.
While a card is expanded, its two visible neighbours are pushed 50 points aside
and the collection view's scrolling and selection are switched off.

Layout:

- `wrappers.dfy` (`Wrappers`): `Option`.
- `card_state.dfy` (`CardState`): `State`, `Change`, and `Flip`, which applies `Change` n times.
- `animation.dfy` (`Animation`): the platform animator, seen through the fields the
  cell reads and writes: `isReversed`, `fractionComplete`, `isRunning` and the
  pending completion closures (`ExpandDone`, `CollapseDone`). It is modelled as a class.
- `gesture.dfy` (`Gesture`): the pure rules of the pan gesture. These are the
  vertical-dominance filter, the scrub-fraction sign rule and the release table.
- `card_spec.dfy` (`CardSpec`): a value snapshot `Card` of the cell and its
  animator. Each operation is a function from the old snapshot to the new one
  (`Expand`, `Collapse`, `Toggle`, `Finish`, `Pan`, `Configure`). The lemmas here
  state the properties.
- `city_cell.dfy` (`CityCell`): the cell class. It has the fields the source updates
  in place and the animator as a `const` object it owns. Each operation of the cell
  (`Configure`, `Toggle`, `Expand`, `Collapse`, `AnimationFinished`,
  `PopupViewPanned`) is proved to move `Model()` exactly as the matching `CardSpec`
  function does, and to keep `Valid()`. `Complete` is the exception. It runs one
  completion closure, it is stated on the flags through `CardSpec.Handle`, and it is
  called only from inside `AnimationFinished`.

Readings that come from the platform are method parameters:

- the pan phase;
- `translation.y` and `velocity.y`;
- the collection view's `contentOffset.x`, width and height (`Container`);
- the position at which an animation finished;
- the screen height.

The centres of the visible neighbours are a map from item index to centre x. A key
that is absent stands for a neighbour that `cellForItem` would not return.

Modelling decisions:

- The effects of an animation block are applied when `expand` or `collapse` registers
  it. These effects are the `initialFrame` capture, the new frame and the neighbour
  offsets. The platform runs the block by the time `startAnimation` returns.
- The force-unwrap of `initialFrame` in `collapse` (line 145) is modelled as the
  failure outcome `Trap`.
  - `CollapseBeforeExpandTraps` shows that a direct call to `collapse` before any
    expand does reach it.
  - `ToggleNeverTraps` and `PanNeverTraps` prove that `toggle` and the pan handler
    never reach it. The reason is the invariant `ValidCard`: until a frame has been
    captured, the card is collapsed and nothing is pending.
- The expand closure reaches the collection view through an optional chain
  (lines 123-124). It therefore sets the two flags only when a collection view is
  bound. The collapse closure uses the collection view it captured. The model keeps
  this difference.
- `DoubleToggleBeforeCompletion` states an as-written behaviour. Suppose `toggle`
  runs twice before the first animation ends, for example from a second tap or from
  a pan that begins mid-flight. Both calls dispatch to `expand`, because the state
  has not changed yet, so two closures are registered. Both flip the state at
  `.end`, which leaves the card logically collapsed while it is laid out expanded.
- `gestureRecognizerShouldBegin` reads the velocity of the cell's own pan
  recogniser, not the recogniser it is passed. `ShouldBegin` takes that velocity
  as its argument.

## Model

| member | source | states |
|---|---|---|
| `CardState.Change` | UIViewPropertyAnimatorDemo/Cell/CityCollectionViewCell.swift:16-24 | the result is the other state, never the same one |
| `CardState.ChangeInvolutive` | UIViewPropertyAnimatorDemo/Cell/CityCollectionViewCell.swift:12-24 | `change` is an involution with no fixed point |
| `CardState.FlipParity` | UIViewPropertyAnimatorDemo/Cell/CityCollectionViewCell.swift:16-24 | n successive changes give back the state when n is even and the other state when n is odd |
| `Gesture.ShouldBegin` | UIViewPropertyAnimatorDemo/Cell/CityCollectionViewCell.swift:231-233 | the pan begins if and only if vx² < vy², that is, the vertical speed strictly dominates; an accepted pan has a nonzero vertical speed |
| `Gesture.HorizontalRejected` | UIViewPropertyAnimatorDemo/Cell/CityCollectionViewCell.swift:231-233 | ties and horizontal-dominant velocities are rejected |
| `Gesture.ShouldBeginIgnoresSigns` | UIViewPropertyAnimatorDemo/Cell/CityCollectionViewCell.swift:232 | the decision does not depend on the direction of either component |
| `Gesture.ScrubFraction` | UIViewPropertyAnimatorDemo/Cell/CityCollectionViewCell.swift:179-187 | the two conditional negations cancel: the fraction is -ty/offset when "expanded" and "reversed" agree and ty/offset otherwise; it is positive exactly for a drag in the corresponding direction |
| `Gesture.ReleaseReversed` | UIViewPropertyAnimatorDemo/Cell/CityCollectionViewCell.swift:201-217 | whatever the old flag was, the table leaves `isReversed == shouldComplete` when collapsed and `isReversed == !shouldComplete` when expanded |
| `Gesture.ReleaseIdempotent` | UIViewPropertyAnimatorDemo/Cell/CityCollectionViewCell.swift:201-217 | applying the release table twice is the same as applying it once |
| `Gesture.EndedReversed` | UIViewPropertyAnimatorDemo/Cell/CityCollectionViewCell.swift:193-217 | zero vertical velocity keeps the flag; a downward release reverses exactly when collapsed, an upward one exactly when expanded |
| `CardSpec.Configure` | UIViewPropertyAnimatorDemo/Cell/CityCollectionViewCell.swift:77-78 | reference function, no `ensures`: binds the collection view and the index; `CityCell.CityCollectionViewCell.Configure` is proved to follow it |
| `CardSpec.Spread` | UIViewPropertyAnimatorDemo/Cell/CityCollectionViewCell.swift:108-114 | reference function, no `ensures`: the expand block's offsets, -50 at index-1 and +50 at index+1 through `ShiftCentre`; its effect is stated by `ExpandMovesNeighbours` |
| `CardSpec.Gather` | UIViewPropertyAnimatorDemo/Cell/CityCollectionViewCell.swift:147-153 | reference function, no `ensures`: the collapse block's offsets, +50 at index-1 and -50 at index+1; its effect is stated by `CollapseMovesNeighbours` and `GatherUndoesSpread` |
| `CardSpec.Expand` | UIViewPropertyAnimatorDemo/Cell/CityCollectionViewCell.swift:97-134 | reference function, no `ensures`: the guard, then the frame capture, the full-screen frame, the neighbour offsets, the expand closure and the start; `CityCell.CityCollectionViewCell.Expand` is proved to follow it |
| `CardSpec.Collapse` | UIViewPropertyAnimatorDemo/Cell/CityCollectionViewCell.swift:136-169 | reference function, no `ensures`: the guard, `Trap` at the force-unwrap, otherwise the restored frame, the opposite offsets, the collapse closure and the start; `CityCell.CityCollectionViewCell.Collapse` is proved to follow it |
| `CardSpec.Toggle` | UIViewPropertyAnimatorDemo/Cell/CityCollectionViewCell.swift:87-95 | reference function, no `ensures`: `Expand` when collapsed, `Collapse` when expanded; `CityCell.CityCollectionViewCell.Toggle` is proved to follow it |
| `CardSpec.RunAll` | UIViewPropertyAnimatorDemo/Cell/CityCollectionViewCell.swift:119-166 | reference function, no `ensures`: the pending closures run in registration order through `Handle`; its effect is stated by `RunAllElsewhere` and `RunAllAtEnd`, and the loop of `CityCell.CityCollectionViewCell.AnimationFinished` is proved to follow it |
| `CardSpec.Finish` | UIViewPropertyAnimatorDemo/Cell/CityCollectionViewCell.swift:119-166 | reference function, no `ensures`: `RunAll` on the pending closures, then the animator stops empty; `CityCell.CityCollectionViewCell.AnimationFinished` is proved to follow it |
| `CardSpec.Pan` | UIViewPropertyAnimatorDemo/Cell/CityCollectionViewCell.swift:171-224 | reference function, no `ensures`: the `.began`, `.changed` and `.ended` branches and the default; `CityCell.CityCollectionViewCell.PopupViewPanned` is proved to follow it |
| `CardSpec.ShiftCentre` | UIViewPropertyAnimatorDemo/Cell/CityCollectionViewCell.swift:108-110 | only the visible neighbour at the given index moves, by the given offset; the set of visible neighbours and all other centres are unchanged |
| `CardSpec.Handle` | UIViewPropertyAnimatorDemo/Cell/CityCollectionViewCell.swift:119-166 | at `.end` a closure flips the state once; the expand closure clears both flags when a collection view is bound, and the collapse closure sets both; at any other position nothing changes |
| `CardSpec.UnconfiguredIsNoOp` | UIViewPropertyAnimatorDemo/Cell/CityCollectionViewCell.swift:98 | without a collection view or an index, `expand`, `collapse` (line 137) and `toggle` change nothing and register no closure |
| `CardSpec.ToggleDispatch` | UIViewPropertyAnimatorDemo/Cell/CityCollectionViewCell.swift:87-95 | `toggle` is `expand` exactly when collapsed and `collapse` exactly when expanded, and it registers the matching closure |
| `CardSpec.ExpandMovesNeighbours` | UIViewPropertyAnimatorDemo/Cell/CityCollectionViewCell.swift:108-114 | expand moves the visible neighbour at index-1 by -50 and the one at index+1 by +50; all other centres and the visible set are unchanged |
| `CardSpec.CollapseMovesNeighbours` | UIViewPropertyAnimatorDemo/Cell/CityCollectionViewCell.swift:147-153 | collapse moves them by +50 and -50 respectively; all other centres and the visible set are unchanged |
| `CardSpec.GatherUndoesSpread` | UIViewPropertyAnimatorDemo/Cell/CityCollectionViewCell.swift:147-153 | the collapse offsets exactly undo the expand offsets for every neighbour map |
| `CardSpec.ExpandThenCollapse` | UIViewPropertyAnimatorDemo/Cell/CityCollectionViewCell.swift:97-169 | collapse after expand does not trap; it restores the frame captured by expand and every neighbour centre, and leaves both closures pending in order |
| `CardSpec.RunAllElsewhere` | UIViewPropertyAnimatorDemo/Cell/CityCollectionViewCell.swift:126-127 | closures run at a position other than `.end` leave state and flags untouched, however many are pending |
| `CardSpec.RunAllAtEnd` | UIViewPropertyAnimatorDemo/Cell/CityCollectionViewCell.swift:119-130 | at `.end` each pending closure flips the state once, so the state is flipped as many times as closures were pending; if the last closure is a collapse closure, scrolling and selection end enabled; if it is an expand closure and a collection view is bound, they end disabled |
| `CardSpec.InterruptedKeepsState` | UIViewPropertyAnimatorDemo/Cell/CityCollectionViewCell.swift:157-166 | an animation that finishes short of `.end` changes neither the state nor the flags; only the animator stops and drops its closures |
| `CardSpec.ExpandCommits` | UIViewPropertyAnimatorDemo/Cell/CityCollectionViewCell.swift:119-125 | a single pending expand closure finishing at `.end` flips the state and disables scrolling and selection |
| `CardSpec.CollapseCommits` | UIViewPropertyAnimatorDemo/Cell/CityCollectionViewCell.swift:157-162 | a single pending collapse closure finishing at `.end` flips the state and enables scrolling and selection |
| `CardSpec.FullCycle` | UIViewPropertyAnimatorDemo/Cell/CityCollectionViewCell.swift:87-169 | tap, finish, tap, finish on an idle card goes collapsed, then expanded with the collection locked, then collapsed with it unlocked; the frame and all neighbour centres end where they started |
| `CardSpec.DoubleToggleBeforeCompletion` | UIViewPropertyAnimatorDemo/Cell/CityCollectionViewCell.swift:87-130 | two toggles before completion register two expand closures and capture the expanded frame as the frame to return to; finishing at `.end` leaves the card collapsed with scrolling disabled |
| `CardSpec.CollapseBeforeExpandTraps` | UIViewPropertyAnimatorDemo/Cell/CityCollectionViewCell.swift:145 | a configured `collapse` with no captured frame reaches the force-unwrap |
| `CardSpec.InitialValid` | UIViewPropertyAnimatorDemo/Cell/CityCollectionViewCell.swift:45-47 | a new cell satisfies the invariant: no frame captured means collapsed, with nothing pending |
| `CardSpec.ConfigureKeepsValid` | UIViewPropertyAnimatorDemo/Cell/CityCollectionViewCell.swift:77-78 | `configure` preserves the invariant |
| `CardSpec.ExpandKeepsValid` | UIViewPropertyAnimatorDemo/Cell/CityCollectionViewCell.swift:97-134 | `expand` preserves the invariant: it captures a frame whenever it registers a closure |
| `CardSpec.CollapseKeepsValid` | UIViewPropertyAnimatorDemo/Cell/CityCollectionViewCell.swift:136-169 | a `collapse` that does not trap preserves the invariant |
| `CardSpec.ToggleNeverTraps` | UIViewPropertyAnimatorDemo/Cell/CityCollectionViewCell.swift:87-95 | from any snapshot satisfying the invariant, `toggle` never reaches the force-unwrap of line 145, and its result satisfies the invariant |
| `CardSpec.FinishKeepsValid` | UIViewPropertyAnimatorDemo/Cell/CityCollectionViewCell.swift:119-166 | running the pending closures at any position preserves the invariant |
| `CardSpec.PanNeverTraps` | UIViewPropertyAnimatorDemo/Cell/CityCollectionViewCell.swift:171-224 | from any snapshot satisfying the invariant, no pan phase reaches the force-unwrap, and each result satisfies the invariant |
| `CardSpec.BeganCapturesProgress` | UIViewPropertyAnimatorDemo/Cell/CityCollectionViewCell.swift:173-176 | `.began` runs `toggle`, records the animator's fraction as the scrub origin, pauses the animator and leaves the logical state unchanged |
| `CardSpec.ChangedScrubs` | UIViewPropertyAnimatorDemo/Cell/CityCollectionViewCell.swift:178-190 | `.changed` changes only `fractionComplete`, to the origin plus ±ty/offset with the sign given by the two flips |
| `CardSpec.EndedResumes` | UIViewPropertyAnimatorDemo/Cell/CityCollectionViewCell.swift:192-219 | `.ended` resumes the animator and changes only `isReversed`: kept at zero velocity, otherwise set by state and release direction; never the state; a second identical release changes nothing |
| `Animation.PropertyAnimator.constructor` | UIViewPropertyAnimatorDemo/Cell/CityCollectionViewCell.swift:50-55 | a fresh animator runs forward from fraction 0, is inactive and has no closures |
| `Animation.PropertyAnimator.AddCompletion` | UIViewPropertyAnimatorDemo/Cell/CityCollectionViewCell.swift:119 | appends the closure after those already registered and changes nothing else |
| `Animation.PropertyAnimator.StartAnimation` | UIViewPropertyAnimatorDemo/Cell/CityCollectionViewCell.swift:132 | the animator runs; nothing else changes |
| `Animation.PropertyAnimator.PauseAnimation` | UIViewPropertyAnimatorDemo/Cell/CityCollectionViewCell.swift:176 | the animator stops running; nothing else changes |
| `Animation.PropertyAnimator.ContinueAnimation` | UIViewPropertyAnimatorDemo/Cell/CityCollectionViewCell.swift:219 | the animator runs again with its direction and fraction kept |
| `Animation.PropertyAnimator.Finish` | UIViewPropertyAnimatorDemo/Cell/CityCollectionViewCell.swift:119-130 | the animator stops and hands back the registered closures in order, keeping none |
| `CityCell.CityCollectionViewCell.constructor` | UIViewPropertyAnimatorDemo/Cell/CityCollectionViewCell.swift:39-65 | a collapsed, unconfigured cell with no captured frame, progress 0, collection unlocked, a fresh animator, and `popupOffset` equal to half the screen height |
| `CityCell.CityCollectionViewCell.Configure` | UIViewPropertyAnimatorDemo/Cell/CityCollectionViewCell.swift:77-78 | binds the collection view and the index; nothing else changes |
| `CityCell.CityCollectionViewCell.Toggle` | UIViewPropertyAnimatorDemo/Cell/CityCollectionViewCell.swift:87-95 | the new state is `CardSpec.Toggle` of the old, which never traps from a valid cell |
| `CityCell.CityCollectionViewCell.Expand` | UIViewPropertyAnimatorDemo/Cell/CityCollectionViewCell.swift:97-134 | captures the frame, takes the full-screen frame, shifts the visible neighbours, registers the expand closure and starts the animator, or does nothing when unconfigured |
| `CityCell.CityCollectionViewCell.Collapse` | UIViewPropertyAnimatorDemo/Cell/CityCollectionViewCell.swift:136-169 | restores the captured frame, shifts the neighbours back, registers the collapse closure and starts; reports failure and changes nothing where the force-unwrap would fail |
| `CityCell.CityCollectionViewCell.Complete` | UIViewPropertyAnimatorDemo/Cell/CityCollectionViewCell.swift:119-166 | one completion closure: state and flags become `CardSpec.Handle` of the old ones; every other field is unchanged |
| `CityCell.CityCollectionViewCell.AnimationFinished` | UIViewPropertyAnimatorDemo/Cell/CityCollectionViewCell.swift:119-166 | runs the pending closures in order and empties the animator's list; the new snapshot is `CardSpec.Finish` of the old |
| `CityCell.CityCollectionViewCell.PopupViewPanned` | UIViewPropertyAnimatorDemo/Cell/CityCollectionViewCell.swift:171-224 | each phase moves the snapshot as `CardSpec.Pan` says, and keeps the invariant |

## Left out

- `ViewController.swift`: the data source and delegate only count items, dequeue and configure cells, and forward a selection to `toggle`. That forwarding is the `Toggle` method.
- The label text and image bound by `configure` (lines 73-75), and the alpha and corner-radius changes in the animation blocks: display side effects.
- The timing curve, the 0.3 s duration, `layoutIfNeeded` and time-based interpolation: the animator's own progress over time is not modelled. `fractionComplete` changes only when the cell sets it, and completion positions are inputs.
- `Animation.PropertyAnimator.Finish` keeps `isReversed` and `fractionComplete` unchanged. This is a choice about platform behaviour that the source does not show.
- What the platform does to animated properties when an animation finishes at `.start`: the model keeps the values the animation block assigned. Take a reversed pan that finishes at `.start`. The model keeps the expanded frame and the spread neighbours, where the platform would restore them. The next `expand` then captures the expanded frame, and the neighbours are pushed aside a second time. `ExpandThenCollapse` and `FullCycle` restore the frame and the neighbours only on the path that finishes at `.end`.
- Any clamping of `fractionComplete` to [0, 1]: the platform's behaviour is not visible in the source, so none is asserted.
- Gesture delivery, `translation(in:)`, `velocity(in:)` and the collection view's geometry: these are parameters.
- The `print` calls in the default branches: output only.
- Arithmetic is on `real`; the source's `CGFloat` rounding is not modelled.
- The neighbour cells and the `isScrollEnabled` and `allowsSelection` flags belong to the shared collection view. The model keeps them in the cell that changes them, so changes made by other cells, or neighbour moves caused by scrolling, are not modelled.
