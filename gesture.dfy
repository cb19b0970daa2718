/** The gesture tracker: the offset/flatten bookkeeping the component performs on
    its animated drag position so that successive drags compose. Each axis of the
    animated position holds a raw value (written by every move event) and an
    offset (captured when a drag starts); the position it reports is their sum. */
module Gesture {

  datatype Axis = Axis(value: real, offset: real)

  /** The two-dimensional drag position. */
  datatype Pan = Pan(x: Axis, y: Axis)

  const Origin: Pan := Pan(Axis(0.0, 0.0), Axis(0.0, 0.0))

  /** The displacement an axis reports: raw value plus offset. */
  function Position(a: Axis): real {
    a.value + a.offset
  }

  /** The animated value's `setValue`: replaces the raw value, keeps the offset. */
  function SetValue(a: Axis, v: real): Axis {
    a.(value := v)
  }

  /** The animated value's `setOffset`: replaces the offset, keeps the raw value. */
  function SetOffset(a: Axis, o: real): Axis {
    a.(offset := o)
  }

  /** Drag start on one axis: the current raw value becomes the offset and the
      raw value restarts from zero. */
  function Capture(a: Axis): Axis {
    SetValue(SetOffset(a, a.value), 0.0)
  }

  /** Release on one axis (`flattenOffset`): the offset is folded into the raw
      value. */
  function Flatten(a: Axis): Axis {
    Axis(a.value + a.offset, 0.0)
  }

  /** A drag start zeroes the raw value and reports the old raw value as the
      position; when there was no offset, the reported position does not move. */
  lemma CaptureKeepsRawValue(a: Axis)
    ensures Capture(a).value == 0.0
    ensures Position(Capture(a)) == a.value
    ensures a.offset == 0.0 ==> Position(Capture(a)) == Position(a)
  {
  }

  /** A release leaves no offset and a raw value equal to the whole displacement
      the axis reported, so classification reads the true displacement. */
  lemma FlattenKeepsPosition(a: Axis)
    ensures Flatten(a).offset == 0.0
    ensures Flatten(a).value == Position(a)
    ensures Position(Flatten(a)) == Position(a)
  {
  }

  /** A complete drag (start, move by d, release) leaves the raw value at the old
      raw value plus d and the offset at zero; when the axis starts without an
      offset, the reported position has moved by exactly d. */
  lemma DragComposes(a: Axis, d: real)
    ensures Flatten(SetValue(Capture(a), d)) == Axis(a.value + d, 0.0)
    ensures a.offset == 0.0 ==> Position(Flatten(SetValue(Capture(a), d))) == Position(a) + d
  {
  }
}
