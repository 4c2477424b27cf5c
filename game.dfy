/**
 * Players, the round state, scoring and the `GameState` round machine of
 * rust/game_core/src/lib.rs.
 */
module Game {
  import opened Wrappers
  import opened Cards
  import opened Hands
  import opened Decks

  /** `Player`; stored by value in `GameState.players`. */
  datatype Player = Player(id: string, name: string, hand: Hand, score: nat, hasStayed: bool)
  {
    /** `Player::draw_card`: the card joins the hand, nothing else changes. */
    function DrawCard(card: Card): (p: Player)
      ensures p.hand.cards == hand.cards + [card]
      ensures p.hand.TotalValue() == hand.TotalValue() + card
      ensures p.id == id && p.name == name && p.score == score && p.hasStayed == hasStayed
    {
      this.(hand := hand.AddCard(card))
    }

    /** `Player::stay`. */
    function Stay(): (p: Player)
      ensures p.hasStayed
      ensures p.id == id && p.name == name && p.hand == hand && p.score == score
    {
      this.(hasStayed := true)
    }

    /** `Player::reset_for_round`: empty hand, flag cleared, identity and score kept. */
    function ResetForRound(): (p: Player)
      ensures p.hand.cards == [] && !p.hasStayed
      ensures p.id == id && p.name == name && p.score == score
    {
      this.(hand := Hand([]), hasStayed := false)
    }
  }

  /** `Player::new`. */
  function NewPlayer(id: string, name: string): (p: Player)
    ensures p.id == id && p.name == name
    ensures p.hand.cards == [] && p.score == 0 && !p.hasStayed
  {
    Player(id, name, Hand([]), 0, false)
  }

  /** `RoundState`. */
  datatype RoundState = RoundState(roundNumber: nat, currentPlayerIndex: nat, isFinished: bool)

  /** `RoundState::new`: round 1, first seat, not finished. */
  const FirstRound := RoundState(1, 0, false)

  /**
   * One card drawn by a player in `player_draw`: the card joins the hand and
   * the player stays automatically when the new total is above 21.
   */
  function AfterDraw(p: Player, card: Card): Player
  {
    var q := p.DrawCard(card);
    if q.hand.IsBust() then q.Stay() else q
  }

  /** A player who had not stayed has stayed after drawing exactly when the hand went bust. */
  lemma AfterDrawStays(p: Player, card: Card)
    requires !p.hasStayed
    ensures AfterDraw(p, card).hasStayed <==> p.hand.TotalValue() + card > 21
    ensures AfterDraw(p, card).hand.cards == p.hand.cards + [card]
    ensures AfterDraw(p, card).score == p.score && AfterDraw(p, card).id == p.id
  {
  }

  /**
   * The bound on a hand that the round machine keeps: a player still drawing
   * holds at most 24 (two dealt cards of at most 12, or a total that did not
   * bust), and no hand exceeds 24 + 12, so the `u8` total never overflows.
   */
  predicate HandBounded(p: Player)
  {
    p.hand.TotalValue() <= 36 && (!p.hasStayed ==> p.hand.TotalValue() <= 24)
  }

  predicate AllBounded(ps: seq<Player>)
  {
    forall i :: 0 <= i < |ps| ==> HandBounded(ps[i])
  }

  /** Drawing a card of at most 12 keeps the hand bound. */
  lemma AfterDrawBounded(p: Player, card: Card)
    requires HandBounded(p) && !p.hasStayed && card <= MaxValue
    ensures HandBounded(AfterDraw(p, card))
  {
  }

  /** All the cards held in hands. */
  function HandCards(ps: seq<Player>): multiset<Card>
  {
    if |ps| == 0 then multiset{} else HandCards(ps[..|ps| - 1]) + multiset(ps[|ps| - 1].hand.cards)
  }

  /** The number of cards held in hands. */
  function HandSizes(ps: seq<Player>): nat
  {
    if |ps| == 0 then 0 else HandSizes(ps[..|ps| - 1]) + |ps[|ps| - 1].hand.cards|
  }

  lemma HandCardsAppend(ps: seq<Player>, p: Player)
    ensures HandCards(ps + [p]) == HandCards(ps) + multiset(p.hand.cards)
  {
    assert (ps + [p])[..|ps|] == ps;
  }

  /** Replacing one player changes the hand cards by that player's hand only. */
  lemma {:induction false} HandCardsUpdate(ps: seq<Player>, i: nat, p: Player)
    requires i < |ps|
    ensures HandCards(ps[i := p]) + multiset(ps[i].hand.cards) == HandCards(ps) + multiset(p.hand.cards)
  {
    var n := |ps|;
    if i < n - 1 {
      assert ps[i := p][..n - 1] == ps[..n - 1][i := p];
      assert ps[i := p][n - 1] == ps[n - 1];
      HandCardsUpdate(ps[..n - 1], i, p);
      var a, l := HandCards(ps[..n - 1]), multiset(ps[n - 1].hand.cards);
      var a', mi, mp := HandCards(ps[..n - 1][i := p]), multiset(ps[i].hand.cards), multiset(p.hand.cards);
      assert a' + mi == a + mp;
      assert HandCards(ps[i := p]) == a' + l;
      assert HandCards(ps) == a + l;
      assert a' + l + mi == a + l + mp by {
        assert a' + l + mi == (a' + mi) + l;
        assert a + l + mp == (a + mp) + l;
      }
    } else {
      assert ps[i := p][..n - 1] == ps[..n - 1];
    }
  }

  /** When every hand is empty no card is held. */
  lemma {:induction false} HandCardsEmpty(ps: seq<Player>)
    requires forall i :: 0 <= i < |ps| ==> ps[i].hand.cards == []
    ensures HandCards(ps) == multiset{} && HandSizes(ps) == 0
  {
    if |ps| > 0 {
      HandCardsEmpty(ps[..|ps| - 1]);
    }
  }

  lemma {:induction false} HandCardsSize(ps: seq<Player>)
    ensures |HandCards(ps)| == HandSizes(ps)
  {
    if |ps| > 0 {
      HandCardsSize(ps[..|ps| - 1]);
    }
  }

  /**
   * Conservation of cards: the deck and the hands together hold exactly the
   * cards of a fresh deck.
   */
  predicate Conserved(deckCards: seq<Card>, ps: seq<Player>)
  {
    forall w: Card :: multiset(deckCards)[w] + HandCards(ps)[w] == FreshCount(w)
  }

  /** Under conservation, the deck and the hands hold 79 cards together. */
  lemma ConservedCount(deckCards: seq<Card>, ps: seq<Player>)
    requires Conserved(deckCards, ps)
    ensures |deckCards| + HandSizes(ps) == DeckSize
  {
    FreshDeckComposition();
    forall w: Card
      ensures (multiset(deckCards) + HandCards(ps))[w] == multiset(FreshDeck())[w]
    {
    }
    assert multiset(deckCards) + HandCards(ps) == multiset(FreshDeck());
    HandCardsSize(ps);
  }

  /** Under conservation every card in the deck or in a hand is in 0..12. */
  lemma ConservedValues(deckCards: seq<Card>, ps: seq<Player>, c: Card)
    requires Conserved(deckCards, ps)
    requires c in multiset(deckCards) || c in HandCards(ps)
    ensures c <= MaxValue
  {
  }

  /** A fresh deck with no cards in hands is conserved. */
  lemma FreshDeckConserved(ps: seq<Player>)
    requires forall i :: 0 <= i < |ps| ==> ps[i].hand.cards == []
    ensures Conserved(FreshDeck(), ps)
  {
    HandCardsEmpty(ps);
    FreshDeckComposition();
  }

  /** Replacing a player by one with the same hand keeps conservation. */
  lemma ConservedSameHand(deckCards: seq<Card>, ps: seq<Player>, i: nat, p: Player)
    requires Conserved(deckCards, ps) && i < |ps| && p.hand == ps[i].hand
    ensures Conserved(deckCards, ps[i := p])
  {
    HandCardsUpdate(ps, i, p);
    forall w: Card
      ensures HandCards(ps[i := p])[w] == HandCards(ps)[w]
    {
      assert (HandCards(ps[i := p]) + multiset(ps[i].hand.cards))[w] == (HandCards(ps) + multiset(p.hand.cards))[w];
    }
  }

  /** Moving the top card of the deck into one hand keeps conservation. */
  lemma ConservedMoveTop(deckCards: seq<Card>, ps: seq<Player>, i: nat, p: Player)
    requires Conserved(deckCards, ps) && i < |ps| && |deckCards| > 0
    requires p.hand.cards == ps[i].hand.cards + [deckCards[|deckCards| - 1]]
    ensures Conserved(deckCards[..|deckCards| - 1], ps[i := p])
  {
    forall w: Card
      ensures multiset(deckCards[..|deckCards| - 1])[w] + HandCards(ps[i := p])[w] == FreshCount(w)
    {
      MoveTopCount(deckCards, ps, i, p, w);
    }
  }

  /** Players whose hands and flags are unchanged keep conservation and the hand bound. */
  lemma {:induction false} SameHands(deckCards: seq<Card>, ps: seq<Player>, qs: seq<Player>)
    requires |ps| == |qs|
    requires forall i :: 0 <= i < |ps| ==> qs[i].hand == ps[i].hand && qs[i].hasStayed == ps[i].hasStayed
    ensures HandCards(qs) == HandCards(ps)
    ensures Conserved(deckCards, ps) ==> Conserved(deckCards, qs)
    ensures AllBounded(ps) ==> AllBounded(qs)
  {
    if |ps| > 0 {
      SameHands(deckCards, ps[..|ps| - 1], qs[..|qs| - 1]);
    }
  }

  /** Replacing a player by a bounded one keeps every hand bounded. */
  lemma AllBoundedUpdate(ps: seq<Player>, i: nat, p: Player)
    requires AllBounded(ps) && i < |ps| && HandBounded(p)
    ensures AllBounded(ps[i := p])
  {
  }

  /** A draw by a seat that has not stayed keeps the cards conserved and the hands bounded. */
  lemma DrawConserves(deckCards: seq<Card>, ps: seq<Player>, i: nat)
    requires Conserved(deckCards, ps) && AllBounded(ps)
    requires i < |ps| && |deckCards| > 0 && !ps[i].hasStayed
    ensures var p := AfterDraw(ps[i], deckCards[|deckCards| - 1]);
      Conserved(deckCards[..|deckCards| - 1], ps[i := p]) && AllBounded(ps[i := p])
  {
    var top := deckCards[|deckCards| - 1];
    ConservedValues(deckCards, ps, top);
    AfterDrawBounded(ps[i], top);
    ConservedMoveTop(deckCards, ps, i, AfterDraw(ps[i], top));
    AllBoundedUpdate(ps, i, AfterDraw(ps[i], top));
  }

  /**
   * The cards the initial deal of `start_round` gives to seat `i` of `n`
   * after `steps` draws from the shuffled deck `d`: draw number `t` takes
   * the card at position |d|-1-t and goes to seat `t % n`, for two passes.
   */
  function DealtUpTo(d: seq<Card>, n: nat, i: nat, steps: nat): seq<Card>
  {
    (if i < steps && i < |d| then [d[|d| - 1 - i]] else [])
    + (if n + i < steps && n + i < |d| then [d[|d| - 1 - (n + i)]] else [])
  }

  /** The hand of seat `i` after the whole two-pass deal. */
  function Dealt(d: seq<Card>, n: nat, i: nat): seq<Card>
  {
    DealtUpTo(d, n, i, 2 * n)
  }

  /** Each seat is dealt two cards when the deck holds at least two per seat. */
  lemma DealtTwo(d: seq<Card>, n: nat, i: nat)
    requires i < n && 2 * n <= |d|
    ensures |Dealt(d, n, i)| == 2
  {
  }

  /** With at most 39 seats a fresh deck deals two cards to everyone. */
  lemma DealtTwoFromFreshDeck(d: seq<Card>, n: nat, i: nat)
    requires |d| == DeckSize && i < n <= 39
    ensures |Dealt(d, n, i)| == 2
    ensures Dealt(d, n, i) == [d[|d| - 1 - i], d[|d| - 1 - (n + i)]]
  {
  }

  /** The smaller of two numbers. */
  function Min(a: nat, b: nat): nat
  {
    if a <= b then a else b
  }

  /** Every player has stayed (`players.iter().all(|p| p.has_stayed)`). */
  predicate AllStayed(ps: seq<Player>)
  {
    forall i :: 0 <= i < |ps| ==> ps[i].hasStayed
  }

  /**
   * The round score of `compute_scores`: 21 for a Flip7 hand (even when it
   * is bust), the total for a hand that is not bust, 0 otherwise.
   */
  function RoundScore(h: Hand): (s: nat)
    ensures s <= 21
  {
    if h.HasFlip7() then 21
    else if !h.IsBust() then h.TotalValue()
    else 0
  }

  /** A Flip7 bonus never lowers the score of a hand that is not bust. */
  lemma RoundScoreAtLeastTotal(h: Hand)
    requires !h.IsBust()
    ensures RoundScore(h) >= h.TotalValue()
  {
  }

  /** A bust hand scores only through Flip7. */
  lemma RoundScoreOfBust(h: Hand)
    requires h.IsBust()
    ensures RoundScore(h) > 0 <==> SomeSubsequenceSums(h.cards, 7)
  {
    HasFlip7Spec(h);
  }

  /** The round score does not depend on the order of the cards. */
  lemma RoundScoreOrderIndependent(h1: Hand, h2: Hand)
    requires multiset(h1.cards) == multiset(h2.cards)
    ensures RoundScore(h1) == RoundScore(h2)
  {
    HasFlip7OrderIndependent(h1, h2);
    TotalOrderIndependent(h1, h2);
  }

  /** The scoring test: [7] scores 21, [10, 5] scores 15; a bust hand with 3 + 4 still scores 21. */
  lemma SourceTestScores()
    ensures RoundScore(Hand([7])) == 21
    ensures RoundScore(Hand([10, 5])) == 15
    ensures RoundScore(Hand([12, 12, 3, 4])) == 21
  {
    HasFlip7Spec(Hand([7]));
    assert Sum(Picked([7], [true])) == 7;
    TenFiveMissesSeven();
    HasFlip7Spec(Hand([12, 12, 3, 4]));
    assert Sum(Picked([12, 12, 3, 4], [false, false, true, true])) == 7;
  }

  /** No sub-hand of [10, 5] sums to 7. */
  lemma TenFiveMissesSeven()
    ensures !Hand([10, 5]).HasFlip7()
  {
    HasFlip7Spec(Hand([10, 5]));
    forall mask: seq<bool> | |mask| == 2
      ensures Sum(Picked([10, 5], mask)) != 7
    {
      PickedSum([10, 5], mask);
      PickedSum([5], mask[1..]);
    }
  }

  /**
   * The map `compute_scores` returns: each player's id mapped to the round
   * score, inserted in seat order, so a later seat with the same id wins.
   */
  function ScoreMap(ps: seq<Player>): (m: map<string, nat>)
  {
    if |ps| == 0 then map[]
    else ScoreMap(ps[..|ps| - 1])[ps[|ps| - 1].id := RoundScore(ps[|ps| - 1].hand)]
  }

  /** The score map has one key per player id, and every round score is at most 21. */
  lemma {:induction false} ScoreMapKeys(ps: seq<Player>)
    ensures ScoreMap(ps).Keys == set i | 0 <= i < |ps| :: ps[i].id
    ensures forall id | id in ScoreMap(ps) :: ScoreMap(ps)[id] <= 21
  {
    if |ps| > 0 {
      ScoreMapKeys(ps[..|ps| - 1]);
      assert (set i | 0 <= i < |ps| :: ps[i].id) == (set i | 0 <= i < |ps| - 1 :: ps[i].id) + {ps[|ps| - 1].id};
    }
  }

  /** Ids are pairwise distinct. */
  predicate DistinctIds(ps: seq<Player>)
  {
    forall i, j :: 0 <= i < j < |ps| ==> ps[i].id != ps[j].id
  }

  /** With distinct ids, each id maps to its own player's round score. */
  lemma {:induction false} ScoreMapDistinct(ps: seq<Player>, i: nat)
    requires DistinctIds(ps) && i < |ps|
    ensures ps[i].id in ScoreMap(ps) && ScoreMap(ps)[ps[i].id] == RoundScore(ps[i].hand)
  {
    var n := |ps|;
    var init := ps[..n - 1];
    assert ScoreMap(ps) == ScoreMap(init)[ps[n - 1].id := RoundScore(ps[n - 1].hand)];
    if i < n - 1 {
      assert init[i] == ps[i];
      assert DistinctIds(init);
      ScoreMapDistinct(init, i);
      assert ps[i].id != ps[n - 1].id;
    }
  }

  /** `Iterator::find` on the ids: the first seat with the id. */
  function FindPlayer(ps: seq<Player>, id: string): (r: Option<nat>)
    ensures r.Some? ==> r.value < |ps| && ps[r.value].id == id
                        && forall k :: 0 <= k < r.value ==> ps[k].id != id
    ensures r.None? ==> forall k :: 0 <= k < |ps| ==> ps[k].id != id
  {
    if |ps| == 0 then None
    else if ps[0].id == id then Some(0)
    else match FindPlayer(ps[1..], id)
      case None => None
      case Some(k) => Some(k + 1)
  }

  /** The same seats with the same ids, whatever happened to hands and scores. */
  predicate SameSeats(before: seq<Player>, after: seq<Player>)
  {
    |after| == |before| && forall i :: 0 <= i < |before| ==> after[i].id == before[i].id
  }

  /** Every player of `after` is the same player of `before` with the hand's round score added. */
  predicate ScoresAdded(before: seq<Player>, after: seq<Player>)
  {
    |after| == |before|
    && forall i :: 0 <= i < |before| ==>
         after[i] == before[i].(score := before[i].score + RoundScore(before[i].hand))
  }

  /** The turn pointer is a seat index, or 0 while there are no players. */
  predicate IndexInRange(idx: nat, n: nat)
  {
    if n == 0 then idx == 0 else idx < n
  }

  /** `GameState`: the seated players, the deck and the round state. */
  class GameState {
    var players: seq<Player>
    var deck: Deck
    var roundState: RoundState
    /** The random stream each `u64` seed selects (ChaCha8 is not modelled). */
    const generator: nat -> Rng

    /** What the round methods need to index the current player. */
    ghost predicate Valid()
      reads this
    {
      IndexInRange(roundState.currentPlayerIndex, |players|)
    }

    /** The game invariant: `Valid`, conservation of cards and the hand bound. */
    ghost predicate Consistent()
      reads this, deck
    {
      Valid() && Conserved(deck.cards, players) && AllBounded(players)
    }

    /** `GameState::new_with_seed`; `GameState::new` is this with seed 42. */
    constructor NewWithSeed(seed: nat, generator: nat -> Rng)
      ensures players == [] && roundState == FirstRound
      ensures fresh(deck) && deck.cards == FreshDeck() && deck.stream == generator(seed) && deck.rngPos == 0
      ensures this.generator == generator
      ensures Consistent()
    {
      this.generator := generator;
      players := [];
      deck := new Deck(generator(seed));
      roundState := FirstRound;
      new;
      FreshDeckConserved([]);
    }

    /** `GameState::add_player`: a new player with an empty hand joins the last seat. */
    method AddPlayer(id: string, name: string)
      modifies this
      ensures players == old(players) + [NewPlayer(id, name)]
      ensures deck == old(deck) && roundState == old(roundState)
      ensures old(Valid()) ==> Valid()
      ensures old(Consistent()) ==> Consistent()
    {
      var p := NewPlayer(id, name);
      HandCardsAppend(players, p);
      players := players + [p];
    }

    /**
     * `GameState::start_round`: refused without players; otherwise every
     * player is reset, a fresh deck seeded with 42 + round number is
     * shuffled and two cards are dealt round-robin from its top.
     */
    method StartRound() returns (r: Result<Unit, string>)
      modifies this
      ensures |old(players)| == 0 ==> r == Err("No players added") && unchanged(this)
      ensures |old(players)| > 0 ==>
        var n := |players|;
        var d := Shuffled(FreshDeck(), generator(42 + old(roundState.roundNumber)), 0);
        && r == Ok(Unit)
        && n == |old(players)|
        && fresh(deck) && deck.cards == d[..|d| - Min(2 * n, |d|)]
        && deck.stream == generator(42 + old(roundState.roundNumber)) && deck.rngPos == ShuffleDraws(|d|)
        && (forall i :: 0 <= i < n ==>
              players[i] == old(players)[i].ResetForRound().(hand := Hand(Dealt(d, n, i))))
        && roundState == old(roundState).(currentPlayerIndex := 0, isFinished := false)
        && Consistent()
    {
      if |players| == 0 {
        return Err("No players added");
      }
      var n := |players|;
      ResetPlayers();
      ghost var reset := players;

      var newDeck := new Deck(generator(42 + roundState.roundNumber));
      newDeck.Shuffle();
      deck := newDeck;
      ghost var d := deck.cards;

      DealStart(d, n, reset);
      DealInitialCards(d, reset);
      roundState := roundState.(currentPlayerIndex := 0, isFinished := false);
      DealFinish(d, n, deck.cards, players, reset);
      r := Ok(Unit);
    }

    /** The first loop of `start_round`: `reset_for_round` on every player. */
    method ResetPlayers()
      modifies this
      ensures |players| == |old(players)|
      ensures forall k :: 0 <= k < |players| ==> players[k] == old(players)[k].ResetForRound()
      ensures deck == old(deck) && roundState == old(roundState)
    {
      for i := 0 to |players|
        invariant |players| == |old(players)|
        invariant forall k :: 0 <= k < i ==> players[k] == old(players)[k].ResetForRound()
        invariant forall k :: i <= k < |players| ==> players[k] == old(players)[k]
        invariant deck == old(deck) && roundState == old(roundState)
      {
        players := players[i := players[i].ResetForRound()];
      }
    }

    /**
     * The initial deal of `start_round`: two passes over the seats, each
     * seat in order drawing the top card while the deck has one.
     */
    method DealInitialCards(ghost d: seq<Card>, ghost reset: seq<Player>)
      requires DealInvariant(d, |players|, 0, deck.cards, players, reset)
      modifies this, deck
      ensures deck == old(deck) && deck.rngPos == old(deck.rngPos) && roundState == old(roundState)
      ensures DealInvariant(d, |players|, 2 * |players|, deck.cards, players, reset)
    {
      var n := |players|;
      ghost var steps := 0;
      for pass := 0 to 2
        invariant |players| == n && steps == (if pass == 0 then 0 else if pass == 1 then n else 2 * n)
        invariant DealInvariant(d, n, steps, deck.cards, players, reset)
        invariant deck == old(deck) && deck.rngPos == old(deck.rngPos) && roundState == old(roundState)
      {
        DealPass(d, steps, reset);
        steps := steps + n;
      }
    }

    /** One pass of the initial deal: every seat in order draws once. */
    method DealPass(ghost d: seq<Card>, ghost start: nat, ghost reset: seq<Player>)
      requires start == 0 || start == |players|
      requires DealInvariant(d, |players|, start, deck.cards, players, reset)
      modifies this, deck
      ensures deck == old(deck) && deck.rngPos == old(deck.rngPos)
      ensures roundState == old(roundState) && |players| == old(|players|)
      ensures DealInvariant(d, |players|, start + |players|, deck.cards, players, reset)
    {
      var n := |players|;
      ghost var steps := start;
      for j := 0 to n
        invariant |players| == n && steps == start + j
        invariant DealInvariant(d, n, steps, deck.cards, players, reset)
        invariant deck == old(deck) && deck.rngPos == old(deck.rngPos) && roundState == old(roundState)
      {
        DealTo(j, d, steps, reset);
        steps := steps + 1;
      }
    }

    /** One draw of the initial deal: seat `j` takes the top card, if any. */
    method DealTo(j: nat, ghost d: seq<Card>, ghost steps: nat, ghost reset: seq<Player>)
      requires j < |players| && (steps == j || steps == |players| + j)
      requires DealInvariant(d, |players|, steps, deck.cards, players, reset)
      modifies this, deck
      ensures deck == old(deck) && deck.rngPos == old(deck.rngPos)
      ensures roundState == old(roundState) && |players| == old(|players|)
      ensures DealInvariant(d, |players|, steps + 1, deck.cards, players, reset)
    {
      DealStep(d, |players|, j, steps, deck.cards, players, reset);
      var card := deck.Draw();
      if card.Some? {
        players := players[j := players[j].DrawCard(card.value)];
      }
    }

    /**
     * `GameState::advance_turn`: the pointer moves to the next seat (stayed
     * players are not skipped) and the round finishes once everyone stayed.
     */
    method AdvanceTurn()
      requires |players| > 0
      modifies this
      ensures players == old(players) && deck == old(deck)
      ensures roundState == old(roundState).(
        currentPlayerIndex := (old(roundState.currentPlayerIndex) + 1) % |players|,
        isFinished := old(roundState.isFinished) || AllStayed(players))
      ensures roundState.currentPlayerIndex < |players|
    {
      roundState := roundState.(currentPlayerIndex := (roundState.currentPlayerIndex + 1) % |players|);
      if AllStayed(players) {
        roundState := roundState.(isFinished := true);
      }
    }

    /**
     * `GameState::player_draw`: refused, with nothing changed, when the
     * round is finished, when `playerId` is not the current player's id,
     * when that player has stayed, or when the deck is empty (checked in
     * that order); otherwise the top card goes to the current player, who
     * stays automatically on a total above 21, and the turn advances.
     */
    method PlayerDraw(playerId: string) returns (r: Result<Unit, string>)
      requires Valid()
      requires roundState.isFinished || |players| > 0
      modifies this, deck
      ensures deck == old(deck) && deck.rngPos == old(deck.rngPos) && Valid()
      ensures SameSeats(old(players), players)
      ensures old(roundState.isFinished) ==> r == Err("Round is finished") && unchanged(this, deck)
      ensures !old(roundState.isFinished) ==>
        var idx := old(roundState.currentPlayerIndex);
        var cur := old(players)[idx];
        var top := |old(deck.cards)|;
        if cur.id != playerId then r == Err("Not your turn") && unchanged(this, deck)
        else if cur.hasStayed then r == Err("Player has already stayed") && unchanged(this, deck)
        else if top == 0 then r == Err("Deck is empty") && unchanged(this, deck)
        else
          && r == Ok(Unit)
          && deck.cards == old(deck.cards)[..top - 1]
          && players == old(players)[idx := AfterDraw(cur, old(deck.cards)[top - 1])]
          && roundState == old(roundState).(currentPlayerIndex := (idx + 1) % |players|,
                                           isFinished := AllStayed(players))
      ensures old(Consistent()) ==> Consistent()
    {
      if roundState.isFinished {
        return Err("Round is finished");
      }
      ghost var wasConsistent := Consistent();
      var idx := roundState.currentPlayerIndex;
      var current := players[idx];
      if current.id != playerId {
        return Err("Not your turn");
      }
      if current.hasStayed {
        return Err("Player has already stayed");
      }
      var card := deck.Draw();
      if card.None? {
        return Err("Deck is empty");
      }
      current := current.DrawCard(card.value);
      if current.hand.IsBust() {
        current := current.Stay();
      }
      assert current == AfterDraw(players[idx], card.value);
      if wasConsistent {
        DrawConserves(old(deck.cards), players, idx);
      }
      players := players[idx := current];
      AdvanceTurn();
      r := Ok(Unit);
    }

    /**
     * `GameState::player_stay`: refused, with nothing changed, when the
     * round is finished or `playerId` is not the current player's id (a
     * player who already stayed may stay again); otherwise the current
     * player stays and the turn advances.
     */
    method PlayerStay(playerId: string) returns (r: Result<Unit, string>)
      requires Valid()
      requires roundState.isFinished || |players| > 0
      modifies this
      ensures deck == old(deck) && Valid()
      ensures SameSeats(old(players), players)
      ensures old(roundState.isFinished) ==> r == Err("Round is finished") && unchanged(this)
      ensures !old(roundState.isFinished) ==>
        var idx := old(roundState.currentPlayerIndex);
        var cur := old(players)[idx];
        if cur.id != playerId then r == Err("Not your turn") && unchanged(this)
        else
          && r == Ok(Unit)
          && players == old(players)[idx := cur.Stay()]
          && roundState == old(roundState).(currentPlayerIndex := (idx + 1) % |players|,
                                           isFinished := AllStayed(players))
      ensures old(Consistent()) ==> Consistent()
    {
      if roundState.isFinished {
        return Err("Round is finished");
      }
      var idx := roundState.currentPlayerIndex;
      if players[idx].id != playerId {
        return Err("Not your turn");
      }
      if Consistent() {
        ConservedSameHand(deck.cards, players, idx, players[idx].Stay());
        AllBoundedUpdate(players, idx, players[idx].Stay());
      }
      players := players[idx := players[idx].Stay()];
      AdvanceTurn();
      r := Ok(Unit);
    }

    /**
     * `GameState::compute_scores`: every player's cumulative score grows by
     * the round score of the hand, the round number grows by one, and the
     * returned map sends each id to its round score.
     */
    method ComputeScores() returns (scores: map<string, nat>)
      modifies this
      ensures scores == ScoreMap(old(players))
      ensures SameSeats(old(players), players)
      ensures ScoresAdded(old(players), players)
      ensures roundState == old(roundState).(roundNumber := old(roundState.roundNumber) + 1)
      ensures deck == old(deck)
      ensures old(Consistent()) ==> Consistent()
    {
      scores := map[];
      for i := 0 to |players|
        invariant |players| == |old(players)|
        invariant forall k :: 0 <= k < i ==>
          players[k] == old(players)[k].(score := old(players)[k].score + RoundScore(old(players)[k].hand))
        invariant forall k :: i <= k < |players| ==> players[k] == old(players)[k]
        invariant scores == ScoreMap(old(players)[..i])
        invariant roundState == old(roundState) && deck == old(deck)
      {
        var player := players[i];
        var roundScore := RoundScore(player.hand);
        assert old(players)[..i + 1][..i] == old(players)[..i];
        players := players[i := player.(score := player.score + roundScore)];
        scores := scores[player.id := roundScore];
      }
      assert old(players)[..|players|] == old(players);
      SameHands(deck.cards, old(players), players);
      roundState := roundState.(roundNumber := roundState.roundNumber + 1);
    }

    /** `GameState::is_flip7`: the Flip7 test of the first player with the id. */
    function IsFlip7(playerId: string): (r: Result<bool, string>)
      reads this
      ensures r.Err? <==> forall k :: 0 <= k < |players| ==> players[k].id != playerId
      ensures r.Err? ==> r.error == "Player not found"
      ensures r.Ok? ==> exists k :: 0 <= k < |players| && players[k].id == playerId
                          && (forall m :: 0 <= m < k ==> players[m].id != playerId)
                          && r.value == players[k].hand.HasFlip7()
    {
      match FindPlayer(players, playerId)
      case None => Err("Player not found")
      case Some(k) => Ok(players[k].hand.HasFlip7())
    }
  }

  /**
   * The state of the initial deal after `steps` draws from the shuffled deck
   * `d` to `n` seats whose players were `reset`: the deck is what the draws
   * left, every hand holds what was dealt to its seat, and no card was lost.
   */
  ghost predicate DealInvariant(d: seq<Card>, n: nat, steps: nat, deckCards: seq<Card>, ps: seq<Player>, reset: seq<Player>)
  {
    && |ps| == n == |reset|
    && deckCards == d[..|d| - Min(steps, |d|)]
    && (forall k {:trigger DealtUpTo(d, n, k, steps)} :: 0 <= k < n ==> ps[k] == reset[k].(hand := Hand(DealtUpTo(d, n, k, steps))))
    && (forall w: Card {:trigger multiset(deckCards)[w]} :: multiset(deckCards)[w] + HandCards(ps)[w] == multiset(d)[w])
  }

  lemma DealStart(d: seq<Card>, n: nat, reset: seq<Player>)
    requires |reset| == n
    requires forall k :: 0 <= k < n ==> reset[k].hand.cards == []
    ensures DealInvariant(d, n, 0, d, reset, reset)
  {
    HandCardsEmpty(reset);
    assert d[..|d|] == d;
    forall k | 0 <= k < n
      ensures reset[k] == reset[k].(hand := Hand(DealtUpTo(d, n, k, 0)))
    {
      assert reset[k].hand == Hand([]);
    }
  }

  /** Draw number `steps`, the `j`-th of its pass, adds the card at |d|-1-steps to seat `j` only. */
  lemma DealtUpToStep(d: seq<Card>, n: nat, k: nat, j: nat, steps: nat)
    requires k < n && j < n && (steps == j || steps == n + j)
    ensures DealtUpTo(d, n, k, steps + 1) ==
      if k == j && steps < |d| then DealtUpTo(d, n, k, steps) + [d[|d| - 1 - steps]]
      else DealtUpTo(d, n, k, steps)
  {
  }

  /** Draw number `steps` goes to seat `j` and takes the top card, if any. */
  lemma DealStep(d: seq<Card>, n: nat, j: nat, steps: nat, deckCards: seq<Card>, ps: seq<Player>, reset: seq<Player>)
    requires j < n && (steps == j || steps == n + j)
    requires DealInvariant(d, n, steps, deckCards, ps, reset)
    ensures steps < |d| ==>
      && |deckCards| > 0 && deckCards[|deckCards| - 1] == d[|d| - 1 - steps]
      && DealInvariant(d, n, steps + 1, deckCards[..|deckCards| - 1],
                       ps[j := ps[j].DrawCard(deckCards[|deckCards| - 1])], reset)
    ensures steps >= |d| ==> deckCards == [] && DealInvariant(d, n, steps + 1, deckCards, ps, reset)
  {
    DealStepHands(d, n, j, steps, ps, reset);
    if steps < |d| {
      DealTake(d, n, j, steps, deckCards, ps, reset);
    } else {
      assert deckCards == [];
    }
  }

  /** A draw from a deck that still has cards moves its top card to seat `j`. */
  lemma DealTake(d: seq<Card>, n: nat, j: nat, steps: nat, deckCards: seq<Card>, ps: seq<Player>, reset: seq<Player>)
    requires j < n && steps < |d|
    requires DealInvariant(d, n, steps, deckCards, ps, reset)
    requires forall k :: 0 <= k < n ==>
      ps[j := ps[j].DrawCard(d[|d| - 1 - steps])][k] == reset[k].(hand := Hand(DealtUpTo(d, n, k, steps + 1)))
    ensures |deckCards| > 0 && deckCards[|deckCards| - 1] == d[|d| - 1 - steps]
    ensures DealInvariant(d, n, steps + 1, deckCards[..|deckCards| - 1],
                          ps[j := ps[j].DrawCard(deckCards[|deckCards| - 1])], reset)
  {
    var top: Card := deckCards[|deckCards| - 1];
    var rest: seq<Card> := deckCards[..|deckCards| - 1];
    var ps' := ps[j := ps[j].DrawCard(top)];
    assert top == d[|d| - 1 - steps];
    assert rest == d[..|d| - Min(steps + 1, |d|)];
    forall w: Card
      ensures multiset(rest)[w] + HandCards(ps')[w] == multiset(d)[w]
    {
      MoveTopCount(deckCards, ps, j, ps[j].DrawCard(top), w);
    }
  }

  /** The hands after draw number `steps`: seat `j` gains the card at |d|-1-steps, if any. */
  lemma DealStepHands(d: seq<Card>, n: nat, j: nat, steps: nat, ps: seq<Player>, reset: seq<Player>)
    requires j < n && (steps == j || steps == n + j)
    requires |ps| == n == |reset|
    requires forall k :: 0 <= k < n ==> ps[k] == reset[k].(hand := Hand(DealtUpTo(d, n, k, steps)))
    ensures steps < |d| ==> forall k :: 0 <= k < n ==>
      ps[j := ps[j].DrawCard(d[|d| - 1 - steps])][k] == reset[k].(hand := Hand(DealtUpTo(d, n, k, steps + 1)))
    ensures steps >= |d| ==> forall k :: 0 <= k < n ==>
      ps[k] == reset[k].(hand := Hand(DealtUpTo(d, n, k, steps + 1)))
  {
    forall k | 0 <= k < n {
      DealtUpToStep(d, n, k, j, steps);
    }
  }

  /** Moving the top card of the deck into one hand keeps the count of value `w`. */
  lemma MoveTopCount(deckCards: seq<Card>, ps: seq<Player>, j: nat, p: Player, w: Card)
    requires j < |ps| && |deckCards| > 0
    requires p.hand.cards == ps[j].hand.cards + [deckCards[|deckCards| - 1]]
    ensures multiset(deckCards[..|deckCards| - 1])[w] + HandCards(ps[j := p])[w]
            == multiset(deckCards)[w] + HandCards(ps)[w]
  {
    var top: Card := deckCards[|deckCards| - 1];
    var rest: seq<Card> := deckCards[..|deckCards| - 1];
    assert deckCards == rest + [top];
    assert multiset(deckCards) == multiset(rest) + multiset{top};
    assert multiset(p.hand.cards) == multiset(ps[j].hand.cards) + multiset{top};
    HandCardsUpdate(ps, j, p);
    assert (HandCards(ps[j := p]) + multiset(ps[j].hand.cards))[w] == (HandCards(ps) + multiset(p.hand.cards))[w];
  }

  /**
   * After the whole deal from a shuffled fresh deck the cards are conserved
   * and every player holds at most two cards of at most 12, so at most 24.
   */
  lemma DealFinish(d: seq<Card>, n: nat, deckCards: seq<Card>, ps: seq<Player>, reset: seq<Player>)
    requires multiset(d) == multiset(FreshDeck())
    requires DealInvariant(d, n, 2 * n, deckCards, ps, reset)
    requires forall k :: 0 <= k < n ==> !reset[k].hasStayed
    ensures Conserved(deckCards, ps) && AllBounded(ps)
  {
    forall k | 0 <= k < n
      ensures HandBounded(ps[k])
    {
      var h := DealtUpTo(d, n, k, 2 * n);
      assert ps[k] == reset[k].(hand := Hand(h));
      forall x | 0 <= x < |h|
        ensures h[x] <= MaxValue
      {
        assert h[x] in multiset(d);
        FreshDeckValues(h[x]);
      }
      assert |h| <= 2;
      if |h| == 1 {
        assert Sum(h) == h[0] + Sum(h[1..]);
      } else if |h| == 2 {
        assert Sum(h) == h[0] + Sum(h[1..]);
        assert Sum(h[1..]) == h[1] + Sum(h[2..]);
      }
      assert ps[k].hand.TotalValue() == Sum(h) <= 24;
    }
    FreshDeckComposition();
  }
}
