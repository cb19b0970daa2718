/** The decision engine of the swipe-card component: how the release velocity is
    normalised for the exit fling, and how the final drag displacement is
    classified into a committed swipe direction or a cancel. */
module Decision {

  /** Beyond this horizontal displacement a release commits left or right. */
  const HorizontalThreshold: real := 100.0
  /** Beyond this vertical displacement a release commits up or down. */
  const VerticalThreshold: real := 5000.0
  /** Bounds of the speed handed to the exit animation. */
  const MinExitSpeed: real := 5.0
  const MaxExitSpeed: real := 8.0

  datatype Direction = Right | Left | Up | Down

  datatype Outcome = Commit(dir: Direction) | Cancel

  function Abs(x: real): real {
    if x < 0.0 then -x else x
  }

  /** `clamp(s, 5, 8)`: the value, or the nearer bound when it lies outside. */
  function ClampSpeed(s: real): real {
    if s < MinExitSpeed then MinExitSpeed
    else if s > MaxExitSpeed then MaxExitSpeed
    else s
  }

  /** The velocity the release handler passes to the exit animation: the
      horizontal release velocity with its magnitude forced into [5, 8] and its
      sign kept; a velocity of exactly 0 takes the positive branch. */
  function NormalizeVelocity(vx: real): (v: real)
    ensures MinExitSpeed <= Abs(v) <= MaxExitSpeed
    ensures v > 0.0 <==> vx >= 0.0
    ensures v < 0.0 <==> vx < 0.0
    ensures MinExitSpeed <= Abs(vx) <= MaxExitSpeed ==> v == vx
    ensures Abs(vx) < MinExitSpeed ==> Abs(v) == MinExitSpeed
    ensures Abs(vx) > MaxExitSpeed ==> Abs(v) == MaxExitSpeed
  {
    if vx >= 0.0 then ClampSpeed(vx)
    else -ClampSpeed(-vx)
  }

  /** Classification of the flattened displacement at release: the horizontal
      test comes first, then the vertical one, otherwise the gesture is a cancel. */
  function Classify(x: real, y: real): (o: Outcome)
    ensures o == Commit(Right) <==> x > HorizontalThreshold
    ensures o == Commit(Left) <==> x < -HorizontalThreshold
    ensures o == Commit(Down) <==> Abs(x) <= HorizontalThreshold && y > VerticalThreshold
    ensures o == Commit(Up) <==> Abs(x) <= HorizontalThreshold && y < -VerticalThreshold
    ensures o == Cancel <==> Abs(x) <= HorizontalThreshold && Abs(y) <= VerticalThreshold
  {
    if Abs(x) > HorizontalThreshold then
      if x > 0.0 then Commit(Right) else Commit(Left)
    else if Abs(y) > VerticalThreshold then
      if y > 0.0 then Commit(Down) else Commit(Up)
    else
      Cancel
  }

  /** A horizontal commit does not depend on the vertical displacement at all,
      however far past the vertical threshold it is. */
  lemma HorizontalTakesPriority(x: real, y1: real, y2: real)
    requires Abs(x) > HorizontalThreshold
    ensures Classify(x, y1) == Classify(x, y2)
    ensures Classify(x, y1).Commit? && Classify(x, y1).dir in {Right, Left}
  {
  }
}
