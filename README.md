# Flip7 rules engine and command-line driver, in Dafny

This project models the Rust implementation of the card game Flip7:

- The rules engine `game_core` (rust/game_core/src/lib.rs):
  - the 79-card deck, its Fisher-Yates shuffle and the draw from its top;
  - hand arithmetic: the total, the bust test and the "Flip7" subset-sum test;
  - the players;
  - the round state machine of `GameState`: `start_round`, `player_draw`, `player_stay`, `advance_turn`;
  - scoring (`compute_scores`, `is_flip7`).
- The command-line tool (rust/cli/src/main.rs):
  - the player-count check of `new`;
  - the seat-index checks of `draw` and `stay`;
  - the `simulate` loop, which cuts a script into lines, trims them, skips blanks and comments, splits them into tokens, classifies each line and dispatches it.

Modules, one per file:

| file | module | contents |
|---|---|---|
| wrappers.dfy | `Wrappers` | `Option`, `Result` and `Unit` |
| cards.dfy | `Cards` | `Card`, the fresh deck's layout and counts, and the shuffle as a function of the card sequence and the random stream |
| deck.dfy | `Decks` | `class Deck` (`new`, `shuffle`, `draw`, `len`) |
| hand.dfy | `Hands` | `Hand`, `Sum`, the recursive `can_sum_to_target`, and its reference definition `Reachable` (take or skip each card) |
| game.dfy | `Game` | `Player`, `RoundState`, `class GameState`, card conservation, the initial deal and scoring |
| decimal.dfy | `Decimal` | `usize::to_string` and `str::parse` for `usize` / `u64` |
| script.dfy | `Script` | `str::lines`, `trim`, `split_whitespace`, and the classification of a script line |
| cli.dfy | `Cli` | the `handle_*` functions over `class Session`, which stands for the saved game file |

Code that mutates state is modelled as classes with `modifies` clauses:

- `GameState` and `Deck` are classes.
- The Rust `Vec`s they own become `seq` fields that the methods reassign.
- The loops of `Deck::new`, `Deck::shuffle`, `start_round` and `compute_scores` are Dafny loops with invariants.
- `Player`, `Hand` and `RoundState` are values stored in those fields; Rust owns them by value, so there is no aliasing.
- The pure parts are functions, with lemmas relating them to reference definitions: hand arithmetic, subset-sum, and line classification.

Behaviour of the code that the model makes explicit:

- **The seed has no effect.** `new --seed` only seeds the deck created in `GameState::new_with_seed`. `start_round` discards that deck and builds one seeded with `42 + round_number`. So `Session.HandleNew` states the dealt cards in terms of the stream for seed 43, whatever seed was given.
- **`player_stay` does not check `has_stayed`**, so a stayed player may stay again. `player_draw` refuses them.
- **Only `handle_stay` computes scores.** When an automatic stay on bust inside `handle_draw` finishes the round, `handle_draw` does not score it.
- **`advance_turn` does not skip players who have stayed.** A finished round stays finished: nothing in the tool starts round 2.
- **Seat ids.** The tool names seat `i` by `i.to_string()` and looks players up by that text. `Cli.SeatLookup` proves that the id passed for index `p` belongs to the current player exactly when `p` is the turn index.

## Model

| member | source | states |
|---|---|---|
| Cards.SwapIndex | rust/game_core/src/lib.rs:51 | the swap index `r % (i + 1)` is at most `i` for every generator value `r`, so `swap` is always in bounds |
| Cards.Swap | rust/game_core/src/lib.rs:52 | `Vec::swap(i, j)`: positions i and j exchange their cards, every other position and the length are kept |
| Cards.SwapPermutes | rust/game_core/src/lib.rs:52 | `Vec::swap` keeps the multiset of cards |
| Cards.ShuffleDown | rust/game_core/src/lib.rs:50-53 | the loop iterations from loop variable i down to 1 keep the length; `ShuffleDownPermutes` proves they permute the cards |
| Cards.Shuffled | rust/game_core/src/lib.rs:46-54 | the whole `(1..len).rev()` pass keeps the length; `ShuffledPermutes` proves it a permutation |
| Cards.ShuffleDownPermutes | rust/game_core/src/lib.rs:50-53 | every tail of the Fisher-Yates loop, from any loop index and generator position, permutes the cards |
| Cards.ShuffledPermutes | rust/game_core/src/lib.rs:46-54 | the whole shuffle keeps the length and the multiset of cards, whatever the random stream |
| Cards.FreshDeckCount | rust/game_core/src/lib.rs:32-39 | a fresh deck holds value w exactly w times for 1..12, once for 0, never otherwise |
| Cards.FreshDeckComposition | rust/game_core/src/lib.rs:335-353 | the deck-count test: 79 cards, value v v times for v in 1..12, and a single 0 |
| Cards.FreshDeckValues | rust/game_core/src/lib.rs:32-39 | every card of a fresh deck is at most 12 |
| Cards.CardsUpToCount | rust/game_core/src/lib.rs:32-36 | after the outer loop has run up to value m, each value 1..m appears exactly that many times |
| Decks.Deck.constructor | rust/game_core/src/lib.rs:28-44 | the nested push loops build the fresh deck; the stream is the seed's and nothing has been consumed |
| Decks.Deck.Shuffle | rust/game_core/src/lib.rs:46-54 | the in-place loop leaves the cards equal to the specified Fisher-Yates result; it is a permutation and consumes one generator value per position from the last down to 1 |
| Decks.Deck.Draw | rust/game_core/src/lib.rs:56-58 | an empty deck gives `None` and is unchanged; otherwise the last card is returned and removed |
| Decks.Deck.Len | rust/game_core/src/lib.rs:64-66 | `len` is the number of cards; it is a definition with no contract of its own |
| Decks.PopConserves | rust/game_core/src/lib.rs:56-58 | popping loses no card: the rest plus the popped card is the old deck |
| Hands.Sum | rust/game_core/src/lib.rs:83-85 | `iter().sum()` of the card values; a definition with no contract of its own, whose properties `Hands.SumPermutation`, `Hands.Hand.AddCard` and `Hands.ReachableBounds` state |
| Hands.Hand.TotalValue | rust/game_core/src/lib.rs:83-85 | the sum of the hand's cards; a definition with no contract of its own, its order independence is `Hands.TotalOrderIndependent` |
| Hands.Hand.IsBust | rust/game_core/src/lib.rs:87-89 | the total is above 21; a definition with no contract of its own, stated on the unit-test hands by `Hands.SourceTestHands` |
| Hands.Hand.HasFlip7 | rust/game_core/src/lib.rs:91-97 | `has_flip7` holds exactly when some sub-collection of the hand reaches 7, and then the total is at least 7 |
| Hands.Hand.AddCard | rust/game_core/src/lib.rs:79-81 | the card is appended and the total grows by its value |
| Hands.SumPermutation | rust/game_core/src/lib.rs:83-85 | the total does not depend on the order of the cards |
| Hands.TotalOrderIndependent | rust/game_core/src/lib.rs:83-89 | the total and the bust test of two hands with the same cards agree |
| Hands.CanSumToTarget | rust/game_core/src/lib.rs:99-119 | the recursive search with its early returns answers exactly whether some sub-collection reaches the target |
| Hands.ScanFrom | rust/game_core/src/lib.rs:107-118 | the enumerate loop from position i succeeds exactly when some sub-collection of the cards from i on reaches the target |
| Hands.ReachableIffSubsequence | rust/game_core/src/lib.rs:99-119 | the take-or-skip definition of reachable holds exactly when some subsequence sums to the target |
| Hands.ReachableBounds | rust/game_core/src/lib.rs:103-105 | a reachable target lies between 0 and the total, so the pruning `target > sum` loses nothing |
| Hands.ReachablePermutation | rust/game_core/src/lib.rs:99-119 | whether a target is reachable does not depend on card order |
| Hands.ReachableAppend | rust/game_core/src/lib.rs:79-81 | a target reachable before a card is added stays reachable after it |
| Hands.HasFlip7Spec | rust/game_core/src/lib.rs:91-97 | `has_flip7` holds exactly when some subsequence of the hand sums to 7 |
| Hands.HasFlip7OrderIndependent | rust/game_core/src/lib.rs:91-97 | `has_flip7` does not depend on the order of the cards |
| Hands.HasFlip7Monotone | rust/game_core/src/lib.rs:79-97 | adding a card never turns `has_flip7` from true to false |
| Hands.SourceTestHands | rust/game_core/src/lib.rs:356-395 | the unit-test hands: [7], [3, 4] and [1, 2, 4] are Flip7 and [5, 6] is not; 10 + 12 is bust and 10 + 11 is not |
| Game.NewPlayer | rust/game_core/src/lib.rs:132-140 | a new player has the given id and name, an empty hand, score 0 and has not stayed |
| Game.Player.DrawCard | rust/game_core/src/lib.rs:142-144 | the card joins the hand and its value the total; id, name, score and flag are kept |
| Game.Player.Stay | rust/game_core/src/lib.rs:146-148 | the player has stayed and nothing else changes |
| Game.Player.ResetForRound | rust/game_core/src/lib.rs:150-153 | empty hand, flag cleared, id, name and cumulative score kept |
| Game.AfterDraw | rust/game_core/src/lib.rs:247-253 | the drawn card joins the hand and the player stays when the new total is above 21; a definition with no contract of its own, whose properties `Game.AfterDrawStays` and `Game.AfterDrawBounded` state |
| Game.AfterDrawStays | rust/game_core/src/lib.rs:247-253 | a player who draws stays automatically exactly when the new total exceeds 21; the card is appended and the score kept |
| Game.AfterDrawBounded | rust/game_core/src/lib.rs:247-253 | a draw keeps the hand bound: at most 24 while still drawing and at most 36 in all, so the `u8` total never overflows |
| Game.ConservedCount | rust/game_core/src/lib.rs:204-262 | when cards are conserved, the deck length plus the hand sizes is 79 |
| Game.ConservedValues | rust/game_core/src/lib.rs:247-248 | when cards are conserved, every card in the deck or in a hand is at most 12 |
| Game.FreshDeckConserved | rust/game_core/src/lib.rs:190-197 | a fresh deck with empty hands is conserved |
| Game.ConservedSameHand | rust/game_core/src/lib.rs:274 | changing a player but not their hand keeps conservation |
| Game.ConservedMoveTop | rust/game_core/src/lib.rs:247-248 | moving the deck's last card into one hand keeps conservation |
| Game.DrawConserves | rust/game_core/src/lib.rs:247-253 | a successful draw with its automatic stay keeps conservation and the hand bound |
| Game.SameHands | rust/game_core/src/lib.rs:305 | players whose hands and flags are unchanged hold the same cards and keep conservation and the bound |
| Game.DealtTwo | rust/game_core/src/lib.rs:219-225 | each seat is dealt two cards when the deck holds two per seat |
| Game.DealtTwoFromFreshDeck | rust/game_core/src/lib.rs:415-424 | from a 79-card deck, each of up to 39 seats gets the cards at positions i and n + i from the top, so the game-flow test's two players hold 2 cards each |
| Game.DealStart | rust/game_core/src/lib.rs:210-216 | after the reset and the new deck, nothing has been dealt and the cards are the shuffled deck |
| Game.DealStep | rust/game_core/src/lib.rs:220-224 | the deal's next draw takes the top card, if any, for the seat whose turn it is in the pass |
| Game.DealFinish | rust/game_core/src/lib.rs:204-231 | after the two passes from a shuffled fresh deck, cards are conserved and every hand is bounded |
| Game.RoundScore | rust/game_core/src/lib.rs:294-303 | a round score is never above 21 |
| Game.RoundScoreAtLeastTotal | rust/game_core/src/lib.rs:296-302 | a hand that is not bust scores at least its total |
| Game.RoundScoreOfBust | rust/game_core/src/lib.rs:296-303 | a bust hand scores exactly when some sub-collection sums to 7 |
| Game.RoundScoreOrderIndependent | rust/game_core/src/lib.rs:294-303 | the round score does not depend on the order of the cards |
| Game.SourceTestScores | rust/game_core/src/lib.rs:398-412 | the scoring test: [7] scores 21 and [10, 5] scores 15; also a bust hand with 3 + 4 still scores 21 |
| Game.AllStayed | rust/game_core/src/lib.rs:285 | `players.iter().all(\|p\| p.has_stayed)`; a predicate with no contract of its own, used by `Game.GameState.AdvanceTurn` |
| Game.ScoreMap | rust/game_core/src/lib.rs:290-310 | the map inserted in seat order, each id to its round score; a definition with no contract of its own, whose keys and values `Game.ScoreMapKeys` and `Game.ScoreMapDistinct` state |
| Game.ScoreMapKeys | rust/game_core/src/lib.rs:290-310 | the returned map has exactly the players' ids as keys, each with a value at most 21 |
| Game.ScoreMapDistinct | rust/game_core/src/lib.rs:306 | with distinct ids, each id maps to its own player's round score |
| Game.FindPlayer | rust/game_core/src/lib.rs:314-316 | `find` gives the first seat with the id, or none when no seat has it |
| Game.GameState.NewWithSeed | rust/game_core/src/lib.rs:190-197 | `new_with_seed`: no players, round 1 at seat 0 not finished, a fresh deck on the seed's stream; the game invariant holds |
| Game.GameState.AddPlayer | rust/game_core/src/lib.rs:199-202 | a new player joins the last seat and nothing else changes; validity and conservation are kept |
| Game.GameState.StartRound | rust/game_core/src/lib.rs:204-231 | refused with "No players added" and no change without players; otherwise each player is reset, with score kept, and dealt two passes from the top of a fresh deck shuffled with seed 42 + round number; the deck is what remains, on that seed's stream with exactly the shuffle's values consumed, the turn is seat 0, the round is open, and cards are conserved |
| Game.GameState.ResetPlayers | rust/game_core/src/lib.rs:210-212 | every player is reset for the round, in place |
| Game.GameState.DealInitialCards | rust/game_core/src/lib.rs:219-225 | the two passes of the deal keep the deal invariant from no draws to 2n draws |
| Game.GameState.DealPass | rust/game_core/src/lib.rs:220-224 | one pass deals once to each seat in order |
| Game.GameState.DealTo | rust/game_core/src/lib.rs:221-223 | one seat draws the top card if the deck has one |
| Game.GameState.AdvanceTurn | rust/game_core/src/lib.rs:280-288 | the pointer moves to the next seat modulo the seat count and stays in range; the round finishes once everyone stayed; players and deck are unchanged |
| Game.GameState.PlayerDraw | rust/game_core/src/lib.rs:233-262 | refused in order (round finished, not your turn, already stayed, deck empty), each time with nothing changed; otherwise the deck's last card goes to the current player, who stays on a total above 21, and the turn advances; the invariant is kept |
| Game.GameState.PlayerStay | rust/game_core/src/lib.rs:264-278 | refused when the round is finished or it is not the player's turn, with nothing changed; otherwise the current player stays and the turn advances, with no check of `has_stayed` |
| Game.GameState.ComputeScores | rust/game_core/src/lib.rs:290-311 | every player's score grows by their round score; the map is the one inserted in seat order; the round number increases by 1, so it is not idempotent; seats, deck and conservation are kept |
| Game.GameState.IsFlip7 | rust/game_core/src/lib.rs:313-319 | "Player not found" exactly when no seat has the id; otherwise the Flip7 test of the first seat with it |
| Decimal.ToDecimal | rust/cli/src/main.rs:95 | `to_string` gives non-empty decimal digits of the value, without a leading zero |
| Decimal.ParseUnsigned | rust/cli/src/main.rs:199 | a successful unsigned `parse` never exceeds the type's maximum |
| Decimal.ParseToDecimal | rust/cli/src/main.rs:199-219 | `parse` reads back what `to_string` wrote, with or without a `+`, and refuses values above the type's maximum |
| Decimal.ParseUnsignedSpec | rust/cli/src/main.rs:199-219 | a successful parse means a digit string of that value, possibly after one `+` |
| Decimal.ParseRejectsMinus | rust/cli/src/main.rs:199-219 | a leading `-` is refused by the unsigned parse |
| Decimal.LeadingZero | rust/cli/src/main.rs:199-219 | a `0` in front of a digit string keeps it a digit string and does not change its value |
| Decimal.ParseLeadingZero | rust/cli/src/main.rs:199-219 | `parse` gives the same result, value or error, for a text without a leading `+` and for that text with a `0` in front |
| Decimal.ToDecimalInjective | rust/cli/src/main.rs:117 | distinct indices have distinct id strings |
| Script.Lines | rust/cli/src/main.rs:181 | `str::lines`; a definition with no contract of its own, whose properties `Script.LinesSplitAt` and `Script.LinesOfTerminated` state |
| Script.LineEnd | rust/cli/src/main.rs:181 | the first line feed, or the end of the text |
| Script.LinesOfTerminated | rust/cli/src/main.rs:181 | `lines` gives back lines that were each ended by `\n` or by `\r\n` |
| Script.LinesSplitAt | rust/cli/src/main.rs:181 | the text up to the first line feed, with a `\r` before it removed, is the first line |
| Script.Trim | rust/cli/src/main.rs:182 | `trim`; a definition with no contract of its own, characterised by `Script.TrimSpec`, `Script.TrimEmptyIff` and `Script.TrimUnchanged` |
| Script.TrimSpec | rust/cli/src/main.rs:182 | `trim` gives the stretch between a whitespace prefix and a whitespace suffix, neither starting nor ending with whitespace |
| Script.TrimEmptyIff | rust/cli/src/main.rs:182-185 | a trimmed line is empty exactly when the line was all whitespace |
| Script.TrimUnchanged | rust/cli/src/main.rs:182 | text with no whitespace at either end is left unchanged |
| Script.SplitWhitespace | rust/cli/src/main.rs:191 | the tokens are non-empty and contain no whitespace; which tokens they are is stated by `Script.SplitSpaced` |
| Script.SplitEmptyIff | rust/cli/src/main.rs:191-194 | there are no tokens exactly when the text is all whitespace |
| Script.SplitJoined | rust/cli/src/main.rs:191 | splitting tokens joined by single spaces gives the tokens back |
| Script.SplitSkipsRun | rust/cli/src/main.rs:191 | a run of whitespace in front of a text adds no token |
| Script.SplitHeadRun | rust/cli/src/main.rs:191 | a token followed by whitespace or by the end of the text is the first token, and splitting goes on after it |
| Script.SplitSpaced | rust/cli/src/main.rs:191 | tokens separated by any non-empty runs of whitespace, with optional whitespace before the first and after the last, split back to exactly those tokens, e.g. `"draw\t  0"` |
| Script.ClassifyTokens | rust/cli/src/main.rs:196-227 | the dispatch on the first token; a definition with no contract of its own, whose cases `Script.NewDefaults`, `Script.NewArgumentErrors`, `Script.PlayerArgumentErrors`, `Script.UnknownCommand`, `Script.ExtraTokensIgnored`, `Script.RejectNamesLine` and `Script.ClassifyWords` state |
| Script.ClassifyLine | rust/cli/src/main.rs:182-228 | trim, skip blanks and comments, split and dispatch; a definition with no contract of its own, whose cases `Script.ClassifySkipIff` and `Script.ClassifyWritten` state |
| Script.ClassifyAll | rust/cli/src/main.rs:181 | one action per line of the script |
| Script.ClassifyAllAt | rust/cli/src/main.rs:181-229 | line k is classified as line k, with its line number counted from 0 |
| Script.ClassifySkipIff | rust/cli/src/main.rs:182-194 | a line is skipped exactly when it is blank after trimming or starts with `#`; the empty-token check never fires |
| Script.RejectNamesLine | rust/cli/src/main.rs:196-227 | every rejection of a line ends with " on line " and the 1-based line number |
| Script.NewDefaults | rust/cli/src/main.rs:197-205 | `new` without arguments starts 2 players with seed 42; with a count only, the seed defaults to 42 |
| Script.NewArgumentErrors | rust/cli/src/main.rs:197-205 | `new` with a count that does not parse as `usize` fails with "Invalid player count on line N"; with a count that parses and a seed that does not parse as `u64`, with "Invalid seed on line N", whatever follows |
| Script.UnknownCommand | rust/cli/src/main.rs:224-226 | any first token other than `new`, `draw`, `stay` and `state` fails with "Unknown command '<token>' on line N" |
| Script.ExtraTokensIgnored | rust/cli/src/main.rs:196-227 | extra tokens never change how a line is classified: after the third for any command, after the second for `draw` and `stay`, after the first for `state`, which is always `Run(ShowState)` |
| Script.PlayerArgumentErrors | rust/cli/src/main.rs:206-221 | `draw` or `stay` without an argument gives "Missing player argument", and with an unparsable one gives "Invalid player ID" |
| Script.ClassifyWords | rust/cli/src/main.rs:196-224 | the tokens a command is written with are classified as that command |
| Script.ClassifyWritten | rust/cli/src/main.rs:181-224 | a command written on a line of its own is read back as that command |
| Cli.CheckPlayerCount | rust/cli/src/main.rs:84-89 | a count is accepted exactly when it is between 1 and 8, with the source's two messages for the two refusals |
| Cli.NoSuchPlayer | rust/cli/src/main.rs:114 | the text "Player p does not exist. Valid players: 0-(n-1)"; a definition with no contract of its own, required of a refused index by `Cli.Session.HandleDraw` and `Cli.Session.HandleStay` |
| Cli.Seats | rust/cli/src/main.rs:94-96 | n seats, seat i being player "i" named "Player i" |
| Cli.SeatLookup | rust/cli/src/main.rs:117-118 | the id passed for index p is the id of seat idx exactly when p = idx, so seat ids are distinct |
| Cli.SeatIdsParse | rust/cli/src/main.rs:156-157 | the `parse().unwrap()` of each score key never fails and gives back the seat's index |
| Cli.RanExtend | rust/cli/src/main.rs:181-228 | a run whose lines all succeeded, extended by the next line with the effect its action has on the game file, is a run that ends with that line's result |
| Cli.RanStep | rust/cli/src/main.rs:181-228 | the next line of a successful run extends it, and a failing line ends the run as `ErrorAt` says |
| Cli.RanAccepted | rust/cli/src/main.rs:196-227 | no line of a run that went on past it was rejected |
| Cli.SeatPlayers | rust/cli/src/main.rs:94-96 | the seating loop seats exactly `Seats(n)` and keeps the game invariant |
| Cli.DrawTurn | rust/cli/src/main.rs:117-118 | the game's draw for the seat's id, its refusals prefixed with "Draw failed: ", as `DrawOutcome` states |
| Cli.StayTurn | rust/cli/src/main.rs:145-161 | the game's stay, its refusals prefixed with "Stay failed: ", and the scoring when the stay finished the round, as `StayOutcome` states |
| Cli.StaySeat | rust/cli/src/main.rs:145-146 | the game's stay for the id of seat `player`: refused unless the round is open and it is that seat's turn, otherwise that seat stays |
| Cli.StayAccepted | rust/cli/src/main.rs:146-161 | an accepted stay, followed by scoring exactly when it finished the round, is the successful outcome of `handle_stay` |
| Cli.ScoreIfFinished | rust/cli/src/main.rs:153-161 | scores are computed exactly when the round is finished; otherwise the game is unchanged |
| Cli.Session.constructor | rust/cli/src/main.rs:234-237 | before `new` there is no saved game |
| Cli.Session.HandleNew | rust/cli/src/main.rs:83-108 | as `NewOutcome` states: a bad count is refused before any game exists, and the saved game is kept; otherwise the new saved game has players "0".."n-1" dealt from the deck shuffled for round 1 (the seed argument is unused), in round 1 at seat 0 |
| Cli.Session.HandleDraw | rust/cli/src/main.rs:110-136 | as `DrawCommand` states: refused without a saved game, then for an index past the last seat with "Player p does not exist. Valid players: 0-(n-1)" and no change; otherwise the draw as `DrawOutcome` states, with the deck object and its generator position kept |
| Cli.Session.HandleStay | rust/cli/src/main.rs:138-164 | as `StayCommand` states: the same refusals as a draw; otherwise the stay, then scoring exactly when the round finished, as `StayOutcome` states, with the deck kept |
| Cli.Session.HandleState | rust/cli/src/main.rs:166-171 | refused with "No game state found" exactly when no game has been saved; the saved game is not changed |
| Cli.Session.Dispatch | rust/cli/src/main.rs:196-224 | each command has its handler's outcome on the saved game, as `CommandOutcome` states: `new` as `NewOutcome`, `draw` as `DrawCommand`, `stay` as `StayCommand` for the scores it computed, `state` as `StateCommand`; the game invariant is kept |
| Cli.Session.RunLine | rust/cli/src/main.rs:182-228 | as `LineEffect` states: a skipped line succeeds and a rejected line fails with its message, both with the saved game object, its fields and its deck unchanged; a command line has its handler's outcome, as for `Dispatch` |
| Cli.Session.Step | rust/cli/src/main.rs:185-228 | one iteration of the loop: the line is run, the trace grows by the game file it leaves, and a failing line ends the run as `ErrorAt` says |
| Cli.Session.Simulate | rust/cli/src/main.rs:173-232 | as `Ran` states: the trace of game files runs from the saved game before to the one after, and each line up to `stop` took it from one file to the next with the effect `LineEffect` gives, every handler before `stop` returning Ok; success means every line was processed, an error is the result of line `stop`, rejected or failed in its handler; no line before `stop` was rejected; `ran` is exactly the commands dispatched, so nothing after the error is executed |

## Left out

- The ChaCha8 generator is not modelled. A seed selects an abstract stream of `u32` values (`generator: nat -> Rng`), so the shuffle is proved a permutation for every stream, not for ChaCha8's particular order.
- Persistence is not modelled:
  - the serde `to_json` / `from_json` and the file `game_state.json`;
  - the generator field, which is skipped on save and reseeded with 42 on load;
  - `load_game_state` and `save_game_state` with their I/O errors.

  The saved game is the `Session.saved` field. Saving and loading are taken to round-trip, which holds because the reloaded deck's generator is never used before `start_round` replaces the deck. A hand-edited state file, with fewer or more than 1..8 seats or other ids, is outside `Session.Valid`.
- Integer widths:
  - `u8` totals: the sums are mathematical integers. `Game.AfterDrawBounded` and `Game.DealFinish` show that hands reached in play total at most 36.
  - The `u8` `sum` in the pruning of `can_sum_to_target` is also a mathematical integer.
  - The `u32` score is unbounded (`nat`).
  - `u64` `42 + round_number` is computed without wrap-around.
  - The `u32` `round_number` (lib.rs:158) is an unbounded `nat`, so its `+= 1` in `compute_scores` (lib.rs:309) never wraps. The tool reaches at most round 2, because nothing starts a second round.
  - `usize` is taken as 64 bits.
- Panics:
  - `player_draw` / `player_stay` with no players index an empty vector, which panics. The model's precondition is `roundState.isFinished || |players| > 0`.
  - `game.players.len() - 1` in the refusal of `handle_draw` / `handle_stay` underflows for a game without players. Such a game cannot be saved by the tool, so `Cli.NoSuchPlayer` requires at least one seat.
- `GameState::new` (lib.rs:181-188) is `new_with_seed(42)`, so it is covered by `Game.GameState.NewWithSeed`. `RoundState::new`, `Hand::new` and `Card::new` are constants or constructors of values.
- `Deck::is_empty` is not modelled; nothing in the core uses it.
- `Hands.Sum`, `Hands.Hand.TotalValue`, `Hands.Hand.IsBust`, `Decks.Deck.Len`, `Game.AfterDraw`, `Game.AllStayed`, `Game.ScoreMap`, `Script.Lines`, `Script.Trim`, `Script.ClassifyTokens`, `Script.ClassifyLine` and `Cli.NoSuchPlayer` are definitions without contracts of their own; the lemmas named in their rows state their properties.
- Command-line input and output are not modelled:
  - clap argument parsing and `main`'s dispatch;
  - `println!` / `eprintln!`, including the "Executing:" line and the per-player printouts of `handle_draw` / `handle_stay`;
  - `process::exit`;
  - the JSON text of `state`.
- `simulate`'s "Script file not found" and read errors are not modelled; the script is given as its text. The text is a sequence of characters, and `lines` is modelled on characters rather than UTF-8 bytes.
- `Cli.Session.Dispatch` and `Cli.Session.Simulate` state a `stay` command's effect for the scores it computed, without naming them: `handle_stay` prints the scores, and the script run drops them.
- rust/net/src/lib.rs (an async server), rust/game_core/src/ffi_test.rs (tests of C entry points) and rust/game_core/src/main.rs (a printing demo) are not part of this model.
