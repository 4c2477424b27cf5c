/**
 * Cards and the canonical deck of rust/game_core/src/lib.rs: a card is a
 * one-field struct around a `u8`, and `Deck::new` lays out value v, v times,
 * for v = 1..12, followed by a single 0.  The Fisher-Yates pass of
 * `Deck::shuffle` is specified here as a function of the card sequence and of
 * the stream of `u32` values the generator yields.
 */
module Cards {

  /** `Card { value: u8 }`: the struct has no other field, so a card is its value. */
  type Card = v: int | 0 <= v < 0x100

  /** A value returned by `RngCore::next_u32`. */
  type U32 = x: int | 0 <= x < 0x1_0000_0000

  /**
   * The ChaCha8 generator is not modelled: a generator is the infinite stream
   * of `u32` values it would produce, indexed from 0.
   */
  type Rng = nat -> U32

  /** The highest card value `Deck::new` creates. */
  const MaxValue: Card := 12

  /** Number of cards in a fresh deck: 1 + 2 + ... + 12, plus the single 0. */
  const DeckSize: nat := 79

  /** `k` copies of value `v`, as the inner loop of `Deck::new` pushes them. */
  function Copies(v: Card, k: nat): seq<Card>
  {
    seq(k, _ => v)
  }

  /** The cards pushed by the outer loop of `Deck::new` for values 1..m. */
  function CardsUpTo(m: nat): seq<Card>
    requires m <= 12
  {
    if m == 0 then [] else CardsUpTo(m - 1) + Copies(m, m)
  }

  /** The cards pushed by `Deck::new`, in order: values 1..12, then the single 0. */
  function BuiltDeck(): seq<Card>
  {
    CardsUpTo(12) + [0]
  }

  /**
   * The card sequence of a freshly built deck, position by position.  It is
   * `BuiltDeck()` (lemma `FreshDeckIsBuilt`); written as a comprehension so
   * that proofs mentioning it do not unfold the whole construction.
   */
  function FreshDeck(): (d: seq<Card>)
    ensures |d| == DeckSize
  {
    seq(DeckSize, i requires 0 <= i < DeckSize => BuiltDeck()[i])
  }

  lemma FreshDeckIsBuilt()
    ensures FreshDeck() == BuiltDeck()
  {
  }

  /** The loops of `Deck::new` end with the fresh deck once the 0 is pushed. */
  lemma FreshDeckFrom(upTo: seq<Card>)
    requires upTo == CardsUpTo(12)
    ensures upTo + [0] == FreshDeck()
  {
    FreshDeckIsBuilt();
  }

  /** How many copies of `v` a fresh deck holds. */
  function FreshCount(v: Card): nat
  {
    if 1 <= v <= MaxValue then v else if v == 0 then 1 else 0
  }

  /** One more push of the inner loop appends one more copy. */
  lemma CopiesSnoc(v: Card, k: nat)
    ensures Copies(v, k + 1) == Copies(v, k) + [v]
  {
  }

  lemma {:induction false} CopiesCount(v: Card, k: nat, w: Card)
    ensures multiset(Copies(v, k))[w] == if w == v then k else 0
  {
    if k > 0 {
      CopiesCount(v, k - 1, w);
      CopiesSnoc(v, k - 1);
    }
  }

  lemma {:induction false} CardsUpToCount(m: nat, w: Card)
    requires m <= 12
    ensures multiset(CardsUpTo(m))[w] == if 1 <= w <= m then w else 0
  {
    if m > 0 {
      CardsUpToCount(m - 1, w);
      CopiesCount(m, m, w);
      var lower, top := CardsUpTo(m - 1), Copies(m, m);
      assert multiset(lower + top) == multiset(lower) + multiset(top);
    }
  }

  /** The count of one value in a fresh deck. */
  lemma FreshDeckCount(w: Card)
    ensures multiset(FreshDeck())[w] == FreshCount(w)
  {
    FreshDeckIsBuilt();
    CardsUpToCount(12, w);
    var lower := CardsUpTo(12);
    assert multiset(lower + [0]) == multiset(lower) + multiset{0};
  }

  /** Deck composition: 79 cards, value v exactly v times for 1..12, one 0, nothing else. */
  lemma FreshDeckComposition()
    ensures |FreshDeck()| == DeckSize
    ensures forall w: Card :: multiset(FreshDeck())[w] == FreshCount(w)
  {
    forall w: Card ensures multiset(FreshDeck())[w] == FreshCount(w) {
      FreshDeckCount(w);
    }
  }

  /** Every card of a fresh deck is in 0..12. */
  lemma FreshDeckValues(c: Card)
    requires c in multiset(FreshDeck())
    ensures c <= MaxValue
  {
    FreshDeckCount(c);
  }

  /** `Vec::swap(i, j)`. */
  function Swap(s: seq<Card>, i: nat, j: nat): (r: seq<Card>)
    requires i < |s| && j < |s|
    ensures |r| == |s| && r[i] == s[j] && r[j] == s[i]
    ensures forall k :: 0 <= k < |s| && k != i && k != j ==> r[k] == s[k]
  {
    s[i := s[j]][j := s[i]]
  }

  /** Swapping two positions keeps the same cards. */
  lemma SwapPermutes(s: seq<Card>, i: nat, j: nat)
    requires i < |s| && j < |s|
    ensures multiset(Swap(s, i, j)) == multiset(s)
  {
  }

  /** `j = (rng.next_u32() as usize) % (i + 1)`: never beyond `i`, whatever `r` is. */
  function SwapIndex(r: U32, i: nat): (j: nat)
    ensures j <= i
  {
    r % (i + 1)
  }

  /**
   * One iteration of the Fisher-Yates loop with loop variable `i`, after the
   * generator has yielded `pos` values: swap position i with `rng(pos) % (i + 1)`.
   */
  function ShuffleStep(s: seq<Card>, rng: Rng, pos: nat, i: nat): (r: seq<Card>)
    requires 0 < i < |s|
    ensures |r| == |s|
  {
    Swap(s, i, SwapIndex(rng(pos), i))
  }

  /** The iterations that remain when the loop variable is `i`: i, i - 1, ..., 1. */
  function ShuffleDown(s: seq<Card>, rng: Rng, pos: nat, i: nat): (r: seq<Card>)
    requires i < |s|
    ensures |r| == |s|
    decreases i
  {
    if i == 0 then s
    else ShuffleDown(ShuffleStep(s, rng, pos, i), rng, pos + 1, i - 1)
  }

  /** Number of generator values one shuffle of `n` cards consumes. */
  function ShuffleDraws(n: nat): nat
  {
    if n <= 1 then 0 else n - 1
  }

  /** The whole pass `for i in (1..len).rev()`, starting at generator position `pos`. */
  function Shuffled(s: seq<Card>, rng: Rng, pos: nat): (r: seq<Card>)
    ensures |r| == |s|
  {
    if |s| <= 1 then s else ShuffleDown(s, rng, pos, |s| - 1)
  }

  lemma {:induction false} ShuffleDownPermutes(s: seq<Card>, rng: Rng, pos: nat, i: nat)
    requires i < |s|
    ensures multiset(ShuffleDown(s, rng, pos, i)) == multiset(s)
    decreases i
  {
    if i > 0 {
      SwapPermutes(s, i, SwapIndex(rng(pos), i));
      ShuffleDownPermutes(ShuffleStep(s, rng, pos, i), rng, pos + 1, i - 1);
    }
  }

  /**
   * Shuffling permutes the deck, whatever values the generator yields: the
   * length and the multiset of cards are unchanged.
   */
  lemma ShuffledPermutes(s: seq<Card>, rng: Rng, pos: nat)
    ensures |Shuffled(s, rng, pos)| == |s|
    ensures multiset(Shuffled(s, rng, pos)) == multiset(s)
  {
    if |s| > 1 {
      ShuffleDownPermutes(s, rng, pos, |s| - 1);
    }
  }
}
