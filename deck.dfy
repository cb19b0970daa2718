/** The card index manager: which card of the caller's deck is current, how a
    commit advances it (by looking the card up by identity), how a new deck
    resets it, and which view is rendered for it. */
module Deck {

  /** The current card, or None for the "no more cards" state (JavaScript's
      null, and the undefined read from an empty deck). */
  datatype Option<T> = None | Some(value: T)

  /** What the component renders: the current card, or the no-more-cards view. */
  datatype Screen<C> = CardView(card: C) | NoMoreCardsView

  ghost predicate Distinct<C>(cards: seq<C>) {
    forall i, j :: 0 <= i < j < |cards| ==> cards[i] != cards[j]
  }

  /** `cards.indexOf(card)`: the first index holding the card, or -1 when the
      card is absent (no card is ever found for None). */
  function IndexOf<C(==)>(cards: seq<C>, card: Option<C>): (i: int)
    ensures -1 <= i < |cards|
    ensures i == -1 <==> card.None? || card.value !in cards
    ensures 0 <= i ==> card.Some? && cards[i] == card.value
    ensures 0 <= i ==> forall j :: 0 <= j < i ==> cards[j] != card.value
    decreases |cards|
  {
    if card.None? || |cards| == 0 then -1
    else if cards[0] == card.value then 0
    else
      var k := IndexOf(cards[1..], card);
      if k == -1 then -1 else k + 1
  }

  /** `cards[0]`, read as None when the deck is empty. The card a new component
      starts with, and the card a looping deck wraps around to. */
  function FirstCard<C>(cards: seq<C>): (r: Option<C>)
    ensures r == None <==> cards == []
    ensures r.Some? ==> r.value == cards[0]
  {
    if |cards| > 0 then Some(cards[0]) else None
  }

  /** The card after the current one: the element after the current card's
      first index; past the end, the first card when looping and None otherwise. */
  function NextCard<C(==)>(cards: seq<C>, card: Option<C>, loop: bool): (r: Option<C>)
    ensures r.Some? ==> r.value in cards
    ensures IndexOf(cards, card) + 1 < |cards| ==> r == Some(cards[IndexOf(cards, card) + 1])
    ensures IndexOf(cards, card) == |cards| - 1 ==> r == (if loop then FirstCard(cards) else None)
    ensures card.None? || card.value !in cards ==> r == FirstCard(cards)
    ensures r == None <==> cards == [] || (!loop && IndexOf(cards, card) == |cards| - 1)
  {
    var newIdx := IndexOf(cards, card) + 1;
    if newIdx > |cards| - 1 then
      (if loop then FirstCard(cards) else None)
    else
      Some(cards[newIdx])
  }

  /** The card after a props update: a non-empty new deck restarts at its first
      card, whatever was current; an empty one leaves the card alone. */
  function CardAfterProps<C>(card: Option<C>, newCards: seq<C>): (r: Option<C>)
    ensures |newCards| > 0 ==> r == Some(newCards[0])
    ensures |newCards| == 0 ==> r == card
  {
    if |newCards| > 0 then Some(newCards[0]) else card
  }

  /** The render branch: the card view when there is a card, the no-more-cards
      view otherwise. */
  function Render<C>(card: Option<C>): (s: Screen<C>)
    ensures s == NoMoreCardsView <==> card == None
    ensures card.Some? ==> s == CardView(card.value)
  {
    match card
    case Some(c) => CardView(c)
    case None => NoMoreCardsView
  }

  /** The card after k successive commits, each advancing once. */
  function Advance<C(==)>(cards: seq<C>, card: Option<C>, loop: bool, k: nat): Option<C>
    decreases k
  {
    if k == 0 then card else Advance(cards, NextCard(cards, card, loop), loop, k - 1)
  }

  /** Applying the same props update twice is the same as applying it once, and a
      non-empty update forgets which card was current. */
  lemma PropsUpdateIdempotent<C>(card: Option<C>, other: Option<C>, newCards: seq<C>)
    ensures CardAfterProps(CardAfterProps(card, newCards), newCards) == CardAfterProps(card, newCards)
    ensures |newCards| > 0 ==> CardAfterProps(card, newCards) == CardAfterProps(other, newCards)
  {
  }

  /** In a deck without repeats, every card is found at its own position. */
  lemma IndexOfDistinct<C>(cards: seq<C>, i: int)
    requires Distinct(cards) && 0 <= i < |cards|
    ensures IndexOf(cards, Some(cards[i])) == i
  {
  }

  /** k + m commits are k commits followed by m commits. */
  lemma {:induction false} AdvanceCompose<C>(cards: seq<C>, card: Option<C>, loop: bool, k: nat, m: nat)
    ensures Advance(cards, card, loop, k + m) == Advance(cards, Advance(cards, card, loop, k), loop, m)
    decreases k
  {
    if k > 0 {
      AdvanceCompose(cards, NextCard(cards, card, loop), loop, k - 1, m);
    }
  }

  /** In a deck without repeats, k commits from the card at position i show the
      card at position i + k, as long as that is still inside the deck. */
  lemma {:induction false} AdvanceWalk<C>(cards: seq<C>, loop: bool, i: nat, k: nat)
    requires Distinct(cards) && i + k < |cards|
    ensures Advance(cards, Some(cards[i]), loop, k) == Some(cards[i + k])
    decreases k
  {
    if k > 0 {
      IndexOfDistinct(cards, i);
      AdvanceWalk(cards, loop, i + 1, k - 1);
    }
  }

  /** Without looping, a deck without repeats is exhausted after exactly as many
      commits as it has cards: every earlier commit shows the next card. */
  lemma DeckRunsOut<C>(cards: seq<C>, k: nat)
    requires Distinct(cards) && |cards| > 0 && k <= |cards|
    ensures k < |cards| ==> Advance(cards, Some(cards[0]), false, k) == Some(cards[k])
    ensures k == |cards| ==> Advance(cards, Some(cards[0]), false, k) == None
  {
    var n := |cards|;
    if k < n {
      AdvanceWalk(cards, false, 0, k);
    } else {
      var last := Advance(cards, Some(cards[0]), false, n - 1);
      assert last == Some(cards[n - 1]) by {
        AdvanceWalk(cards, false, 0, n - 1);
      }
      assert NextCard(cards, last, false) == None by {
        IndexOfDistinct(cards, n - 1);
      }
      assert Advance(cards, Some(cards[0]), false, (n - 1) + 1) == Advance(cards, last, false, 1) by {
        AdvanceCompose(cards, Some(cards[0]), false, n - 1, 1);
      }
    }
  }

  /** With looping, a deck without repeats cycles: from any card, as many commits
      as there are cards lead back to that same card. */
  lemma LoopReturns<C>(cards: seq<C>, i: nat)
    requires Distinct(cards) && i < |cards|
    ensures Advance(cards, Some(cards[i]), true, |cards|) == Some(cards[i])
  {
    var n := |cards|;
    var toLast := n - 1 - i;
    var last := Advance(cards, Some(cards[i]), true, toLast);
    assert last == Some(cards[n - 1]) by {
      AdvanceWalk(cards, true, i, toLast);
    }
    assert Advance(cards, last, true, 1 + i) == Some(cards[i]) by {
      assert NextCard(cards, last, true) == Some(cards[0]) by {
        IndexOfDistinct(cards, n - 1);
      }
      AdvanceWalk(cards, true, 0, i);
    }
    assert Advance(cards, Some(cards[i]), true, toLast + (1 + i)) == Advance(cards, last, true, 1 + i) by {
      AdvanceCompose(cards, Some(cards[i]), true, toLast, 1 + i);
    }
  }

  /** Because the current card is looked up by its first occurrence, a repeated
      card sends the deck back to the earlier copy: in [a, b, a, c], starting
      from a or b, the card c is never reached, looping or not. */
  lemma {:induction false} RepeatHidesLaterCards<C>(a: C, b: C, c: C, start: Option<C>, loop: bool, k: nat)
    requires a != b && c != a && c != b
    requires start == Some(a) || start == Some(b)
    ensures Advance([a, b, a, c], start, loop, k) != Some(c)
    decreases k
  {
    if k > 0 {
      var next := NextCard([a, b, a, c], start, loop);
      assert IndexOf([a, b, a, c], Some(a)) == 0;
      assert IndexOf([a, b, a, c], Some(b)) == 1;
      assert next == Some(a) || next == Some(b);
      RepeatHidesLaterCards(a, b, c, next, loop, k - 1);
    }
  }
}
