# Swipe cards: a verified model of the swipe decision and card advance

This project models the core of the `SwipeCards` React Native component in
`SwipeCards.js`. The component is a stack of cards with one card showing. The
user drags the card. On release the drag is either committed or cancelled:

- a committed drag throws the card off screen in one of four directions, and
  the next card is shown once the exit animation has finished;
- a cancelled drag springs the card back to the centre.

The model has four modules:

- `Decision` (`decision.dfy`) is pure. It has the two thresholds (100
  horizontally, 5000 vertically) and the clamp of the release velocity into
  [5, 8] with its sign kept. It classifies the final displacement as
  `Commit(Right | Left | Up | Down)` or `Cancel`, testing horizontally first.
- `Gesture` (`gesture.dfy`) is pure. It holds the offset/flatten bookkeeping of
  the animated drag position (`Animated.ValueXY`). Each axis has a raw value and
  an offset:
  - a drag start (grant) moves the raw value into the offset and zeroes the raw value;
  - a move writes the raw value;
  - a release folds the offset back into the raw value.
- `Deck` (`deck.dfy`) is pure. It covers:
  - the current card, as `Option` (None is the no-more-cards state);
  - JavaScript `indexOf` (first occurrence, -1 when absent);
  - advancing to the next card, with wrap-around when `loop` is set;
  - the reset on new props;
  - the choice between the card view and the no-more-cards view;
  - lemmas about several advances in a row.
- `Component` (`component.dfy`) holds the class `SwipeCards`. Its fields are
  what the component updates in place:
  - `props`: the deck, `loop`, and whether `cardRemoved` is registered;
  - `card`: the current card;
  - `pan`: the drag position;
  - `enter`: the entrance scale;
  - `events`: a log of every outgoing call, in order.

  The methods are the component's handlers:
  - the constructor, `DidMount` and `GoToNextCard`;
  - the pan responder's grant, move and release;
  - `ExitCompleted` (`_resetState`), run when the exit fling finishes;
  - `ReceiveProps` (`componentWillReceiveProps`).

  Each method states its whole new state. `Release` is proved against the pure
  function `ReleaseEffects`, which gives the calls a release makes.

The module also has five client methods that run the component through
end-to-end drags. They show the handler calls, the removal index, the card
shown afterwards and the no-more-cards view.

The events stand for these calls:

- `Handled(Right, c)` is `handleRight(c)`, and the same for Left, Up and Down;
- `Removed(i)` is `cardRemoved(i)`;
- `ExitStarted(v, vy)` asks the animation library for the decay fling;
- `ReturnToCenter` asks for the spring back to {0, 0};
- `EntranceStarted` asks for the entrance spring.

The library itself is outside the model. When an animation finishes, its
completion is an explicit method call: `ExitCompleted` for the fling and
`ReturnCompleted` for the spring back.

Positions and velocities are `real`. JavaScript's `null` card and the
`undefined` read from an empty deck are both `None`. A missing `cards` prop is
modelled as the empty deck. That matches the code where it checks for the
prop (the constructor and the props update), but not where it does not (see
"## Left out").

In two places the code does not do what one would expect, and the model
follows the code:

- One would expect the current card to always be none or a member of the last
  deck supplied. The code instead keeps the old card when new props carry an
  empty deck, and the new empty deck does not contain it. `ReceiveProps` therefore
  restores `CardInDeck` only for a non-empty deck. `ExitCompleted` and the
  constructor always establish it.
- One would expect a drag start to zero the position. The code copies only
  the raw value (`pan.x._value`) into the offset and drops any earlier offset.
  `Capture` does the same. `DragComposes` states the exact result, and states
  the "moves by exactly d" property only when the offset starts at 0.

The lookup by first occurrence has a consequence worth knowing. In a deck with
a repeated card, advancing from the later copy goes back to the card after the
earlier copy. `RepeatHidesLaterCards` proves this for the deck [a, b, a, c]
with a, b and c distinct: starting from a or b, the card c is never shown.
This is the code's behaviour, and the model keeps it.

## Model

| member | source | states |
|---|---|---|
| Decision.NormalizeVelocity | SwipeCards.js:130-136 | the exit velocity has magnitude in [5, 8]; it is positive exactly when vx >= 0 (so 0 counts as positive) and negative exactly when vx < 0; a vx whose magnitude is already in [5, 8] is kept; a slower one becomes ±5 and a faster one ±8 |
| Decision.Classify | SwipeCards.js:138-164 | Right iff x > 100 and Left iff x < -100, whatever y is. Down iff abs(x) <= 100 and y > 5000; Up iff abs(x) <= 100 and y < -5000. Cancel iff abs(x) <= 100 and abs(y) <= 5000 |
| Decision.HorizontalTakesPriority | SwipeCards.js:138-150 | once abs(x) > 100 the outcome is a left/right commit and does not depend on y at all |
| Gesture.CaptureKeepsRawValue | SwipeCards.js:119-122 | after a drag start the raw value is 0 and the reported position equals the old raw value; with no previous offset, the reported position does not move |
| Gesture.FlattenKeepsPosition | SwipeCards.js:128-129 | after a release the offset is 0 and the raw value equals the position the axis reported before, which is what classification then reads |
| Gesture.DragComposes | SwipeCards.js:119-129 | a drag start, a move by d and a release leave the raw value at old raw value + d with offset 0; from offset 0 the reported position has moved by exactly d |
| Deck.IndexOf | SwipeCards.js:65 | the result is -1 exactly when there is no card or the card is not in the deck; otherwise it is an index holding the card, and no earlier index holds it (first occurrence) |
| Deck.FirstCard | SwipeCards.js:57-61 | the initial card is none exactly when the deck is empty (or absent), and is the deck's first card otherwise |
| Deck.NextCard | SwipeCards.js:64-77 | the next card is cards[i+1] when i+1 is inside the deck (i the first index of the current card); past the end it is cards[0] when looping and none otherwise; a card that is none or not in the deck advances to cards[0]; the result is none exactly when the deck is empty or the last card is passed without loop; any card returned is in the deck |
| Deck.CardAfterProps | SwipeCards.js:104-110 | a non-empty new deck makes its first card current; an empty or absent one leaves the current card unchanged |
| Deck.PropsUpdateIdempotent | SwipeCards.js:104-110 | applying the same props update twice gives the same card as applying it once; a non-empty update gives the same card whatever was current before |
| Deck.Render | SwipeCards.js:209-215 | the no-more-cards view is chosen exactly when there is no current card; otherwise the current card is rendered |
| Deck.IndexOfDistinct | SwipeCards.js:65 | in a deck without repeats, every card's index is its own position |
| Deck.AdvanceCompose | SwipeCards.js:64-77 | k + m advances equal k advances followed by m advances |
| Deck.AdvanceWalk | SwipeCards.js:64-77 | in a deck without repeats, k advances from position i show position i + k while that is inside the deck |
| Deck.DeckRunsOut | SwipeCards.js:64-77 | without loop, a deck of n distinct cards shows cards[k] after k < n commits from the first card, and no card after exactly n |
| Deck.LoopReturns | SwipeCards.js:64-77 | with loop, n advances in a deck of n distinct cards lead back to the card they started from |
| Deck.RepeatHidesLaterCards | SwipeCards.js:64-77 | in the deck [a, b, a, c], starting from a or b, no number of advances ever shows c, looping or not |
| Component.ReleaseEffects | SwipeCards.js:138-164 | a cancel makes exactly one call, the return to centre, and no handler or removal call. A commit first calls the direction handler with the current card, then cardRemoved(indexOf(card)) exactly when it is registered, and last starts the exit with the normalised velocity and the raw vy. When the card is in the deck, the removal index is its position there |
| Component.SwipeCards.constructor | SwipeCards.js:54-62 | the component starts with the deck's first card (or none), the position at the origin, entrance scale 1 and no calls made |
| Component.SwipeCards.DidMount | SwipeCards.js:79-81 | mounting starts the entrance spring and changes nothing else |
| Component.SwipeCards.StartEntrance | SwipeCards.js:83-88 | requests the entrance spring |
| Component.SwipeCards.StartExit | SwipeCards.js:90-95 | requests the exit decay with the given velocities |
| Component.SwipeCards.StartReturnToCenter | SwipeCards.js:97-102 | requests the spring back to the origin |
| Component.SwipeCards.Grant | SwipeCards.js:119-122 | each axis's raw value becomes its offset and the raw value becomes 0; nothing but the position changes |
| Component.SwipeCards.Move | SwipeCards.js:124-126 | each axis's raw value becomes the gesture's displacement; offsets are kept |
| Component.SwipeCards.Release | SwipeCards.js:128-165 | the position is flattened first; the calls appended are those of ReleaseEffects on the flattened displacement; the card, the props and the entrance scale do not change (advancing waits for exit completion); while the card belongs to the deck, a logged removal index is a valid position (never -1) |
| Component.SwipeCards.ReturnCompleted | SwipeCards.js:97-102 | once the spring back has settled, both raw values are 0 |
| Component.SwipeCards.GoToNextCard | SwipeCards.js:64-77 | the card becomes NextCard of the current card in the current deck, and afterwards belongs to the deck (or is none) |
| Component.SwipeCards.ExitCompleted | SwipeCards.js:169-175 | the entrance scale becomes 0.7, both raw values become 0, the card advances by NextCard, then the entrance spring is requested; the card afterwards belongs to the deck or is none |
| Component.SwipeCards.ReceiveProps | SwipeCards.js:104-110 | the props are replaced, and the card becomes CardAfterProps of the old card; after a non-empty deck the card belongs to it |
| Component.SwipeRightFirstOfThree | SwipeCards.js:128-175 | with deck [c1, c2, c3], no loop and cardRemoved registered, a 150 drag to the right calls handleRight(c1), cardRemoved(0) and the exit at speed 5; c1 stays current until the exit completes, after which c2 is current |
| Component.SwipeLeftSingleLooping | SwipeCards.js:128-175 | with deck [c1] and loop, a -150 drag released at vx = -12 calls handleLeft(c1) and the exit at -8, and after the exit c1 is current again |
| Component.SwipeLastCard | SwipeCards.js:128-175 | with deck [c1, c2] and no loop, committing c1 and then c2 calls handleRight for each in turn; afterwards there is no card and the no-more-cards view is chosen |
| Component.SmallDragCancels | SwipeCards.js:128-164 | a (50, 10) drag calls only the return to centre: no handler and no cardRemoved. The card is unchanged, and once the spring settles the position is the origin |
| Component.TwoShortDragsAddUp | SwipeCards.js:119-138 | two 70-unit drags, each below the threshold, the second grabbed again before the spring back has moved the card, compose to a raw value of 140; the second release commits right |

## Left out

- Spring and decay physics are not modelled: friction 4 and the configurable entrance friction, deceleration 0.6, and the positions an animation passes through. The model records that an animation was requested, and its completion is an explicit method (`ExitCompleted`, `ReturnCompleted`). The entrance spring toward 1 has no completion method, so `enter` stays at 0.7 after an exit.
- The `interpolate` mappings are floating-point work done by the animation library: rotation, card opacity, and yup/nope overlay opacity.
- The yup/nope overlays, `renderYup`/`renderNope`, styles, `Dimensions`, propTypes and defaultProps are rendering and configuration. `Defaults.js` is not part of this model. `Render` gives the same no-more-cards view whether or not a custom `renderNoMoreCards` is passed.
- The pan responder's capture predicates and event wiring are library plumbing. The handlers `Grant`, `Move` and `Release` require a current card, because the responder is attached only to the rendered card view.
- A drag may start while an animation is running, but the model keeps the position the animation started from: the code's grant reads wherever the spring or fling has carried the card by then. `setValue` also stops the animation, and a stopped exit still runs `_resetState`; the model does not capture that. `ExitCompleted` and `ReturnCompleted` may be called at any time, as the library would call them.
- Release, GoToNextCard and ExitCompleted do not model the code throwing when a props update has dropped the `cards` prop while a card is shown. The props update keeps the card, and the code then calls `this.props.cards.indexOf` on an absent deck, which throws a TypeError. With `cardRemoved` registered the release stops before the exit starts. Otherwise `_resetState` stops after setting the scale to 0.7 and the position to 0, so the card stays and no entrance starts. The model instead logs `Removed(-1)`, moves to no card and logs the entrance.
- The deck is treated as a value. If the caller changes its array in place, for example from `handleRight` or `cardRemoved` before the `indexOf` of the removal call or of the advance, the model cannot show it.
- The `await` in `_resetState` and React's batching of `setState` are treated as sequential, immediate steps.
- `indexOf` compares by strict identity. The model compares cards with Dafny equality, so two equal values stand for the same object.
- `NaN` positions and velocities are not modelled: every real is comparable, and the velocity is always assigned.
- The direction handlers are called without a check, so a missing one throws in the code. The model assumes all four are supplied.
- A falsy card value (0, "", false) would make the code render the no-more-cards view. The model treats every card as present.
- The `clamp` package is not part of this model. `ClampSpeed` returns the nearer bound for values outside [5, 8] and the value otherwise.
