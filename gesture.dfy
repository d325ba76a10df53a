/**
 * The pure decision rules of the card's pan gesture: which pans it accepts,
 * how a vertical drag becomes a completion fraction, and how the release
 * velocity sets the animator's direction.
 */
module Gesture {
  import opened CardState

  datatype Velocity = Velocity(x: real, y: real)

  function Abs(r: real): (a: real)
    ensures a >= 0.0 && (a == r || a == -r)
  {
    if r < 0.0 then -r else r
  }

  /**
   * `gestureRecognizerShouldBegin`: the pan may begin only when its vertical
   * speed strictly exceeds its horizontal speed.  Stated here against the
   * squared components, which avoids the absolute values altogether.
   */
  function ShouldBegin(v: Velocity): (b: bool)
    ensures b <==> v.x * v.x < v.y * v.y
    ensures b ==> v.y != 0.0
  {
    SquareMonotone(Abs(v.x), Abs(v.y));
    Abs(v.y) > Abs(v.x)
  }

  lemma SquareMonotone(a: real, b: real)
    requires a >= 0.0 && b >= 0.0
    ensures a < b <==> a * a < b * b
  {
    if a < b {
      var d := b - a;
      assert d > 0.0;
      assert b * b == a * a + (a + b) * d;
      assert (a + b) * d > 0.0;
    } else {
      assert b * b <= b * a;
      assert b * a <= a * a;
    }
  }

  /** Ties and horizontal-dominant velocities never start the gesture. */
  lemma HorizontalRejected(v: Velocity)
    requires v.y * v.y <= v.x * v.x
    ensures !ShouldBegin(v)
  {
  }

  /** The filter ignores the direction of either component. */
  lemma ShouldBeginIgnoresSigns(v: Velocity)
    ensures ShouldBegin(Velocity(-v.x, v.y)) == ShouldBegin(v)
    ensures ShouldBegin(Velocity(v.x, -v.y)) == ShouldBegin(v)
  {
  }

  /**
   * The scrub fraction of the `.changed` branch: the upward drag normalised
   * by `popupOffset`, negated once when the card is expanded and once more
   * when the animator runs reversed.  The two negations cancel, so the sign
   * depends only on whether exactly one of them applies.
   */
  function ScrubFraction(translationY: real, popupOffset: real, s: State, isReversed: bool): (f: real)
    requires popupOffset > 0.0
    ensures f == if (s == Expanded) == isReversed then -translationY / popupOffset
                 else translationY / popupOffset
    ensures (s == Expanded) == isReversed ==> (f > 0.0 <==> translationY < 0.0)
    ensures (s == Expanded) != isReversed ==> (f > 0.0 <==> translationY > 0.0)
  {
    var fraction := -translationY / popupOffset;
    var oriented := if s == Expanded then -fraction else fraction;
    if isReversed then -oriented else oriented
  }

  /**
   * The table of the `.ended` branch for a nonzero vertical velocity, as
   * written: two conditional flips per state.  Whatever the flag was, the
   * animator ends up reversed exactly when the release contradicts the
   * direction the card is animating toward: a downward release
   * (`shouldComplete`) cancels an expand and completes a collapse.
   */
  function ReleaseReversed(s: State, isReversed: bool, shouldComplete: bool): (r: bool)
    ensures r == if s == Collapsed then shouldComplete else !shouldComplete
  {
    match s
    case Expanded =>
      var r1 := if !shouldComplete && !isReversed then !isReversed else isReversed;
      if shouldComplete && r1 then !r1 else r1
    case Collapsed =>
      var r1 := if shouldComplete && !isReversed then !isReversed else isReversed;
      if !shouldComplete && r1 then !r1 else r1
  }

  /** Applying the release table a second time changes nothing. */
  lemma ReleaseIdempotent(s: State, isReversed: bool, shouldComplete: bool)
    ensures ReleaseReversed(s, ReleaseReversed(s, isReversed, shouldComplete), shouldComplete)
         == ReleaseReversed(s, isReversed, shouldComplete)
  {
  }

  /**
   * The reversed flag after the `.ended` branch: unchanged for a zero
   * vertical velocity, otherwise the release table with
   * `shouldComplete = velocityY > 0`.
   */
  function EndedReversed(s: State, isReversed: bool, velocityY: real): (r: bool)
    ensures velocityY == 0.0 ==> r == isReversed
    ensures velocityY > 0.0 ==> r == (s == Collapsed)
    ensures velocityY < 0.0 ==> r == (s == Expanded)
  {
    if velocityY == 0.0 then isReversed else ReleaseReversed(s, isReversed, velocityY > 0.0)
  }
}
