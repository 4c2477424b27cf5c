/**
 * `Deck` of rust/game_core/src/lib.rs: a vector of cards used as a stack (the
 * top is the last element) together with the generator that shuffles it.
 */
module Decks {
  import opened Wrappers
  import opened Cards

  class Deck {
    /** `cards: Vec<Card>`; `draw` pops from the end. */
    var cards: seq<Card>
    /** The values the generator seeded in `Deck::new` yields, in order. */
    const stream: Rng
    /** How many values of `stream` have been consumed so far. */
    var rngPos: nat

    /** `Deck::new(seed)`, with `stream` the generator that `seed` selects. */
    constructor (stream: Rng)
      ensures cards == FreshDeck()
      ensures this.stream == stream && rngPos == 0
    {
      var built: seq<Card> := [];
      for value := 1 to 13
        invariant built == CardsUpTo(value - 1)
      {
        for k := 0 to value
          invariant built == CardsUpTo(value - 1) + Copies(value, k)
        {
          CopiesSnoc(value, k);
          built := built + [value];
        }
      }
      FreshDeckFrom(built);
      cards := built + [0];
      this.stream := stream;
      rngPos := 0;
    }

    /** `Deck::len`. */
    function Len(): nat
      reads this
    {
      |cards|
    }

    /**
     * `Deck::shuffle`: Fisher-Yates in place, consuming one generator value
     * per position from the last down to 1.
     */
    method Shuffle()
      modifies this
      ensures cards == Shuffled(old(cards), stream, old(rngPos))
      ensures multiset(cards) == multiset(old(cards)) && |cards| == |old(cards)|
      ensures rngPos == old(rngPos) + ShuffleDraws(|old(cards)|)
    {
      ShuffledPermutes(cards, stream, rngPos);
      if |cards| <= 1 {
        return;
      }
      var i := |cards| - 1;
      while i > 0
        invariant 0 <= i < |cards| == |old(cards)|
        invariant rngPos == old(rngPos) + (|cards| - 1 - i)
        invariant ShuffleDown(cards, stream, rngPos, i) == Shuffled(old(cards), stream, old(rngPos))
      {
        cards := ShuffleStep(cards, stream, rngPos, i);
        rngPos := rngPos + 1;
        i := i - 1;
      }
    }

    /** `Deck::draw`: pop the last card, `None` when the deck is empty. */
    method Draw() returns (card: Option<Card>)
      modifies this
      ensures old(cards) == [] ==> card == None && unchanged(this)
      ensures old(cards) != [] ==> card == Some(old(cards)[|old(cards)| - 1])
                                   && cards == old(cards)[..|old(cards)| - 1]
      ensures rngPos == old(rngPos)
    {
      if cards == [] {
        return None;
      }
      card := Some(cards[|cards| - 1]);
      cards := cards[..|cards| - 1];
    }
  }

  /** Popping the top card loses no card: the rest and the top make up the deck. */
  lemma PopConserves(cards: seq<Card>)
    requires |cards| > 0
    ensures multiset(cards) == multiset(cards[..|cards| - 1]) + multiset{cards[|cards| - 1]}
  {
    assert cards == cards[..|cards| - 1] + [cards[|cards| - 1]];
  }
}
