/** The swipe-card component itself: its props, its state (current card, drag
    position, entrance scale) and its handlers, with every callback it makes
    (direction handlers, card-removed notification, animation requests) recorded
    in order in an event log. */
module Component {
  import opened Decision
  import opened Gesture
  import opened Deck

  /** The props the component reads: the deck, whether it loops, and whether a
      `cardRemoved` callback is registered. */
  datatype Props<C> = Props(cards: seq<C>, loop: bool, cardRemoved: bool)

  /** One outgoing call. `Handled(Right, c)` is `handleRight(c)` and likewise for
      the other directions; `Removed(i)` is `cardRemoved(i)`; the other three are
      requests to the animation library (exit fling, spring back to the centre,
      entrance spring). */
  datatype Event<C> =
    | Handled(dir: Direction, card: C)
    | Removed(index: int)
    | ExitStarted(vx: real, vy: real)
    | ReturnToCenter
    | EntranceStarted

  /** The calls a release makes, given the flattened displacement (x, y), the
      release velocity (vx, vy), the current card and the props. */
  function ReleaseEffects<C(==)>(x: real, y: real, vx: real, vy: real, card: C, props: Props<C>): (r: seq<Event<C>>)
    ensures Classify(x, y) == Cancel <==> r == [ReturnToCenter]
    ensures Classify(x, y).Commit? ==>
      && |r| == (if props.cardRemoved then 3 else 2)
      && r[0] == Handled(Classify(x, y).dir, card)
      && (props.cardRemoved ==> r[1] == Removed(IndexOf(props.cards, Some(card))))
      && r[|r| - 1] == ExitStarted(NormalizeVelocity(vx), vy)
    ensures forall e :: e in r && e.ExitStarted? ==>
      MinExitSpeed <= Abs(e.vx) <= MaxExitSpeed && (e.vx > 0.0 <==> vx >= 0.0) && e.vy == vy
    ensures forall e :: e in r && e.Handled? ==> e.card == card
    ensures card in props.cards ==>
      forall e :: e in r && e.Removed? ==> 0 <= e.index < |props.cards| && props.cards[e.index] == card
  {
    match Classify(x, y)
    case Cancel => [ReturnToCenter]
    case Commit(dir) =>
      [Handled(dir, card)]
      + (if props.cardRemoved then [Removed(IndexOf(props.cards, Some(card)))] else [])
      + [ExitStarted(NormalizeVelocity(vx), vy)]
  }

  class SwipeCards<C(==)> {
    var props: Props<C>
    var card: Option<C>
    var pan: Pan
    var enter: real
    var events: seq<Event<C>>

    /** The current card, if any, belongs to the current deck. */
    ghost predicate CardInDeck()
      reads this
    {
      card.Some? ==> card.value in props.cards
    }

    constructor (p: Props<C>)
      ensures props == p && card == FirstCard(p.cards)
      ensures pan == Origin && enter == 1.0 && events == []
      ensures CardInDeck()
    {
      props := p;
      pan := Origin;
      enter := 1.0;
      card := FirstCard(p.cards);
      events := [];
    }

    /** After mounting, the entrance spring starts. */
    method DidMount()
      modifies this`events
      ensures events == old(events) + [EntranceStarted]
    {
      StartEntrance();
    }

    method StartEntrance()
      modifies this`events
      ensures events == old(events) + [EntranceStarted]
    {
      events := events + [EntranceStarted];
    }

    method StartExit(velocity: real, vy: real)
      modifies this`events
      ensures events == old(events) + [ExitStarted(velocity, vy)]
    {
      events := events + [ExitStarted(velocity, vy)];
    }

    method StartReturnToCenter()
      modifies this`events
      ensures events == old(events) + [ReturnToCenter]
    {
      events := events + [ReturnToCenter];
    }

    /** A drag starts: each axis keeps its position as offset and restarts from 0.
        The gesture handlers exist only while a card is rendered. */
    method Grant()
      requires card.Some?
      modifies this`pan
      ensures pan == Pan(Capture(old(pan).x), Capture(old(pan).y))
      ensures pan.x.value == 0.0 && pan.y.value == 0.0
    {
      pan := Pan(SetOffset(pan.x, pan.x.value), SetOffset(pan.y, pan.y.value));
      pan := Pan(SetValue(pan.x, 0.0), SetValue(pan.y, 0.0));
    }

    /** A move event writes the gesture's displacement since the drag began. */
    method Move(dx: real, dy: real)
      requires card.Some?
      modifies this`pan
      ensures pan == Pan(SetValue(old(pan).x, dx), SetValue(old(pan).y, dy))
    {
      pan := Pan(SetValue(pan.x, dx), SetValue(pan.y, dy));
    }

    /** The drag ends: flatten the position, then classify it and make the calls
        of the outcome. The card does not change here: only exit completion
        advances it. While the card belongs to the deck, a removal call carries
        the card's own position in the deck. */
    method Release(vx: real, vy: real)
      requires card.Some?
      modifies this`pan, this`events
      ensures pan == Pan(Flatten(old(pan).x), Flatten(old(pan).y))
      ensures events == old(events) + ReleaseEffects(pan.x.value, pan.y.value, vx, vy, card.value, props)
      ensures CardInDeck() ==>
        forall e :: e in events[|old(events)|..] && e.Removed? ==> 0 <= e.index < |props.cards|
    {
      pan := Pan(Flatten(pan.x), Flatten(pan.y));
      var velocity := NormalizeVelocity(vx);
      var c := card.value;
      if Abs(pan.x.value) > HorizontalThreshold {
        if pan.x.value > 0.0 {
          events := events + [Handled(Right, c)];
        } else {
          events := events + [Handled(Left, c)];
        }
        if props.cardRemoved {
          events := events + [Removed(IndexOf(props.cards, card))];
        }
        StartExit(velocity, vy);
      } else if Abs(pan.y.value) > VerticalThreshold {
        if pan.y.value > 0.0 {
          events := events + [Handled(Down, c)];
        } else {
          events := events + [Handled(Up, c)];
        }
        if props.cardRemoved {
          events := events + [Removed(IndexOf(props.cards, card))];
        }
        StartExit(velocity, vy);
      } else {
        StartReturnToCenter();
      }
    }

    /** The spring back to the centre has settled at {0, 0}. */
    method ReturnCompleted()
      modifies this`pan
      ensures pan == Pan(SetValue(old(pan).x, 0.0), SetValue(old(pan).y, 0.0))
    {
      pan := Pan(SetValue(pan.x, 0.0), SetValue(pan.y, 0.0));
    }

    /** Advance the current card after a commit. */
    method GoToNextCard()
      modifies this`card
      ensures card == NextCard(props.cards, old(card), props.loop)
      ensures CardInDeck()
    {
      var currentCardIdx := IndexOf(props.cards, card);
      var newIdx := currentCardIdx + 1;
      if newIdx > |props.cards| - 1 {
        card := if props.loop then FirstCard(props.cards) else None;
      } else {
        card := Some(props.cards[newIdx]);
      }
    }

    /** The exit fling has finished: shrink the entrance scale to 0.7, put the
        position back to 0, advance to the next card and start its entrance. */
    method ExitCompleted()
      modifies this`enter, this`pan, this`card, this`events
      ensures enter == 0.7
      ensures pan == Pan(SetValue(old(pan).x, 0.0), SetValue(old(pan).y, 0.0))
      ensures card == NextCard(props.cards, old(card), props.loop)
      ensures events == old(events) + [EntranceStarted]
      ensures CardInDeck()
    {
      enter := 0.7;
      pan := Pan(SetValue(pan.x, 0.0), SetValue(pan.y, 0.0));
      GoToNextCard();
      StartEntrance();
    }

    /** New props arrive: a non-empty deck resets the card to its first element. */
    method ReceiveProps(next: Props<C>)
      modifies this`props, this`card
      ensures props == next
      ensures card == CardAfterProps(old(card), next.cards)
      ensures |next.cards| > 0 ==> CardInDeck()
    {
      if |next.cards| > 0 {
        card := Some(next.cards[0]);
      }
      props := next;
    }
  }

  /** A three-card deck without looping: dragging the first card 150 to the
      right calls handleRight(c1) and cardRemoved(0), starts the exit at the
      minimum speed, keeps c1 current until the exit completes, and then shows c2. */
  method SwipeRightFirstOfThree<C(==)>(c1: C, c2: C, c3: C)
    returns (afterRelease: Option<C>, card: Option<C>, events: seq<Event<C>>)
    ensures afterRelease == Some(c1) && card == Some(c2)
    ensures events == [Handled(Right, c1), Removed(0), ExitStarted(5.0, 0.0), EntranceStarted]
  {
    var deck := [c1, c2, c3];
    assert IndexOf(deck, Some(c1)) == 0;
    assert NextCard(deck, Some(c1), false) == Some(c2);
    var s := new SwipeCards(Props(deck, false, true));
    s.Grant();
    s.Move(150.0, 0.0);
    s.Release(0.0, 0.0);
    ghost var released := s.events;
    assert released == [Handled(Right, c1), Removed(0), ExitStarted(5.0, 0.0)];
    afterRelease := s.card;
    s.ExitCompleted();
    assert s.events == released + [EntranceStarted];
    card, events := s.card, s.events;
  }

  /** A one-card looping deck: dragging the card 150 to the left calls
      handleLeft(c1), flings it at the maximum speed, and after the exit shows
      c1 again. */
  method SwipeLeftSingleLooping<C(==)>(c1: C) returns (card: Option<C>, events: seq<Event<C>>)
    ensures card == Some(c1)
    ensures events == [Handled(Left, c1), ExitStarted(-8.0, 1.0), EntranceStarted]
  {
    var s := new SwipeCards(Props([c1], true, false));
    s.Grant();
    s.Move(-150.0, 30.0);
    s.Release(-12.0, 1.0);
    ghost var released := s.events;
    assert released == [Handled(Left, c1), ExitStarted(-8.0, 1.0)];
    s.ExitCompleted();
    assert s.events == released + [EntranceStarted];
    card, events := s.card, s.events;
  }

  /** A two-card deck without looping: after the first commit, committing c2
      calls handleRight(c2) and leaves no card, so the no-more-cards view is shown. */
  method SwipeLastCard<C(==)>(c1: C, c2: C) returns (card: Option<C>, screen: Screen<C>, events: seq<Event<C>>)
    requires c1 != c2
    ensures card == None && screen == NoMoreCardsView
    ensures events == [Handled(Right, c1), ExitStarted(5.0, 0.0), EntranceStarted,
                       Handled(Right, c2), ExitStarted(6.5, 0.0), EntranceStarted]
  {
    var deck := [c1, c2];
    assert IndexOf(deck, Some(c1)) == 0;
    assert NextCard(deck, Some(c1), false) == Some(c2);
    assert IndexOf(deck, Some(c2)) == 1;
    assert NextCard(deck, Some(c2), false) == None;
    var s := new SwipeCards(Props(deck, false, false));
    s.Grant();
    s.Move(130.0, 0.0);
    s.Release(0.0, 0.0);
    ghost var first := s.events;
    assert first == [Handled(Right, c1), ExitStarted(5.0, 0.0)];
    s.ExitCompleted();
    assert s.card == Some(c2);
    ghost var second := s.events;
    assert second == first + [EntranceStarted];
    s.Grant();
    s.Move(120.0, 0.0);
    s.Release(6.5, 0.0);
    ghost var third := s.events;
    assert third == second + [Handled(Right, c2), ExitStarted(6.5, 0.0)];
    s.ExitCompleted();
    assert s.events == third + [EntranceStarted];
    card, screen, events := s.card, Render(s.card), s.events;
  }

  /** A drag of (50, 10) stays below both thresholds: no handler and no removal
      call, only the spring back, the card unchanged, and once the spring has
      settled the position is back at the origin. */
  method SmallDragCancels<C(==)>(c1: C, c2: C) returns (card: Option<C>, pan: Pan, events: seq<Event<C>>)
    ensures card == Some(c1) && pan == Origin
    ensures events == [ReturnToCenter]
  {
    var s := new SwipeCards(Props([c1, c2], false, true));
    s.Grant();
    s.Move(50.0, 10.0);
    s.Release(3.0, 0.0);
    s.ReturnCompleted();
    card, pan, events := s.card, s.pan, s.events;
  }

  /** Two short drags compose when the card is grabbed again before the spring
      back has moved it: the second drag starts where the first stopped, and
      together they pass the horizontal threshold. */
  method TwoShortDragsAddUp<C(==)>(c1: C) returns (x: real, second: seq<Event<C>>)
    ensures x == 140.0
    ensures second == [Handled(Right, c1), ExitStarted(5.0, 0.0)]
  {
    var s := new SwipeCards(Props([c1], false, false));
    s.Grant();
    s.Move(70.0, 0.0);
    s.Release(0.0, 0.0);
    s.Grant();
    s.Move(70.0, 0.0);
    s.Release(0.0, 0.0);
    x, second := s.pan.x.value, s.events[1..];
  }
}
