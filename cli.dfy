/**
 * The command-line tool of rust/cli/src/main.rs: the argument checks of
 * `new`, `draw` and `stay`, and the `simulate` loop that runs a script line
 * by line. The saved game file is modelled as a field holding the game, or
 * null when no game has been saved.
 */
module Cli {
  import opened Wrappers
  import opened Cards
  import opened Hands
  import opened Game
  import opened Decimal
  import opened Script

  const MaxPlayers: nat := 8
  const DrawFailed := "Draw failed: "
  const StayFailed := "Stay failed: "
  const NoGameState := "No game state found. Run 'cargo run -- new' to start a new game."

  /** The player-count check of `handle_new`: `None` when the count is accepted. */
  function CheckPlayerCount(players: nat): (r: Option<string>)
    ensures r.None? <==> 1 <= players <= MaxPlayers
    ensures players < 1 ==> r == Some("Number of players must be at least 1")
    ensures players > MaxPlayers ==> r == Some("Number of players cannot exceed 8")
  {
    if players < 1 then Some("Number of players must be at least 1")
    else if players > MaxPlayers then Some("Number of players cannot exceed 8")
    else None
  }

  /** The error of `handle_draw` / `handle_stay` for an index past the last seat. */
  function NoSuchPlayer(player: nat, count: nat): string
    requires count > 0
  {
    "Player " + ToDecimal(player) + " does not exist. Valid players: 0-" + ToDecimal(count - 1)
  }

  /** The player `handle_new` seats at index `i`. */
  function Seat(i: nat): (p: Player)
    ensures p.id == ToDecimal(i) && p.hand.cards == [] && p.score == 0 && !p.hasStayed
  {
    NewPlayer(ToDecimal(i), "Player " + ToDecimal(i))
  }

  /** The players of a new game of `n` seats, before the deal. */
  function Seats(n: nat): (ps: seq<Player>)
    ensures |ps| == n && forall i :: 0 <= i < n ==> ps[i] == Seat(i)
  {
    if n == 0 then [] else Seats(n - 1) + [Seat(n - 1)]
  }

  /** Seat `i` is named by the decimal text of `i`. */
  predicate SeatIds(ps: seq<Player>)
  {
    forall i :: 0 <= i < |ps| ==> ps[i].id == ToDecimal(i)
  }

  /**
   * With seats named by their indices, the id the tool passes for index
   * `player` is the id of seat `idx` exactly when the two are equal, so ids
   * are distinct.
   */
  lemma SeatLookup(ps: seq<Player>, idx: nat, player: nat)
    requires SeatIds(ps) && idx < |ps|
    ensures ps[idx].id == ToDecimal(player) <==> idx == player
    ensures DistinctIds(ps)
  {
  }

  /**
   * The `id.parse().unwrap()` on each key of the score map never fails: every
   * seat's id reads back as the seat's index.
   */
  lemma SeatIdsParse(ps: seq<Player>)
    requires SeatIds(ps) && |ps| <= UsizeMax
    ensures forall i :: 0 <= i < |ps| ==> ParseUnsigned(ps[i].id, UsizeMax) == Some(i)
  {
    forall i | 0 <= i < |ps|
      ensures ParseUnsigned(ps[i].id, UsizeMax) == Some(i)
    {
      assert i <= UsizeMax;
      ParseToDecimal(i, UsizeMax);
    }
  }

  /** The commands that the first `stop` line actions ask for, in order. */
  function CommandsOf(actions: seq<LineAction>, stop: nat): (cs: seq<Command>)
    requires stop <= |actions|
    ensures |cs| <= stop
  {
    if stop == 0 then []
    else
      var earlier := CommandsOf(actions, stop - 1);
      match actions[stop - 1]
      case Run(c) => earlier + [c]
      case _ => earlier
  }

  /**
   * How a run that failed at line `stop` ended: the line itself was
   * rejected with `message`, or its command was dispatched last and failed.
   */
  predicate ErrorAt(actions: seq<LineAction>, stop: nat, message: string, ran: seq<Command>)
    requires stop < |actions|
  {
    match actions[stop]
    case Reject(m) => message == m && ran == CommandsOf(actions, stop)
    case Run(c) => ran == CommandsOf(actions, stop) + [c]
    case Skip => false
  }

  /** The seating loop of `handle_new`: `n` players join in seat order. */
  method SeatPlayers(game: GameState, n: nat)
    requires game.players == [] && game.Consistent()
    modifies game
    ensures game.players == Seats(n) && game.Consistent()
    ensures game.deck == old(game.deck) && game.roundState == old(game.roundState)
  {
    for i := 0 to n
      invariant game.players == Seats(i)
      invariant game.deck == old(game.deck) && game.roundState == old(game.roundState)
      invariant game.Consistent()
    {
      game.AddPlayer(ToDecimal(i), "Player " + ToDecimal(i));
    }
  }

  /**
   * What `handle_draw` does for a seat index `player` of the table `ps`
   * with round state `rs` and deck `deck`: the refusals of the game's draw,
   * prefixed with "Draw failed: ", each leaving everything as it was, and
   * otherwise the top card moved to the current seat, which must be
   * `player`, and the turn advanced.
   */
  predicate DrawOutcome(ps: seq<Player>, rs: RoundState, deck: seq<Card>, player: nat, r: Result<Unit, string>,
                        ps': seq<Player>, rs': RoundState, deck': seq<Card>)
    requires rs.currentPlayerIndex < |ps|
  {
    var idx := rs.currentPlayerIndex;
    var cur := ps[idx];
    var top := |deck|;
    var same := ps' == ps && rs' == rs && deck' == deck;
    if rs.isFinished then r == Err(DrawFailed + "Round is finished") && same
    else if idx != player then r == Err(DrawFailed + "Not your turn") && same
    else if cur.hasStayed then r == Err(DrawFailed + "Player has already stayed") && same
    else if top == 0 then r == Err(DrawFailed + "Deck is empty") && same
    else
      && r == Ok(Unit)
      && deck' == deck[..top - 1]
      && ps' == ps[idx := AfterDraw(cur, deck[top - 1])]
      && rs' == rs.(currentPlayerIndex := (idx + 1) % |ps|, isFinished := AllStayed(ps'))
  }

  /**
   * What `handle_stay` does for a seat index `player`: the refusals of the
   * game's stay, prefixed with "Stay failed: ", each leaving everything as
   * it was; otherwise the current seat, which must be `player`, stays and
   * the turn advances, and when that finished the round the scores are
   * computed and returned.
   */
  predicate StayOutcome(ps: seq<Player>, rs: RoundState, player: nat, r: Result<Unit, string>,
                        scores: Option<map<string, nat>>, ps': seq<Player>, rs': RoundState)
    requires rs.currentPlayerIndex < |ps|
  {
    var idx := rs.currentPlayerIndex;
    var stayed := ps[idx := ps[idx].Stay()];
    var next := (idx + 1) % |ps|;
    if rs.isFinished then r == Err(StayFailed + "Round is finished") && scores == None && ps' == ps && rs' == rs
    else if idx != player then r == Err(StayFailed + "Not your turn") && scores == None && ps' == ps && rs' == rs
    else if !AllStayed(stayed) then
      r == Ok(Unit) && scores == None && ps' == stayed && rs' == rs.(currentPlayerIndex := next)
    else
      && r == Ok(Unit) && scores == Some(ScoreMap(stayed))
      && ScoresAdded(stayed, ps')
      && rs' == rs.(currentPlayerIndex := next, isFinished := true, roundNumber := rs.roundNumber + 1)
  }

  /** The saved game file: absent, or the players, round state and deck cards of the saved game. */
  datatype GameFile = NoFile | Stored(players: seq<Player>, roundState: RoundState, deck: seq<Card>)

  /**
   * What `handle_new` does to the game file: a bad player count is refused
   * and the file kept; otherwise it holds `players` seats named by their
   * indices, each dealt its two cards from the deck shuffled for round 1,
   * the rest of that deck, and the first round's state.
   */
  predicate NewOutcome(players: nat, generator: nat -> Rng, r: Result<Unit, string>, before: GameFile, after: GameFile)
  {
    var check := CheckPlayerCount(players);
    if check.Some? then r == Err(check.value) && after == before
    else
      var d := Shuffled(FreshDeck(), generator(42 + FirstRound.roundNumber), 0);
      && r == Ok(Unit)
      && after.Stored?
      && |after.players| == players
      && (forall i :: 0 <= i < players ==> after.players[i] == Seat(i).(hand := Hand(Dealt(d, players, i))))
      && after.deck == d[..|d| - Min(2 * players, |d|)]
      && after.roundState == FirstRound
  }

  /**
   * What `handle_draw` does to the game file: refused with the file kept
   * when there is no game or no seat `player`, and otherwise `DrawOutcome`.
   */
  predicate DrawCommand(player: nat, r: Result<Unit, string>, before: GameFile, after: GameFile)
  {
    if before.NoFile? then r == Err(NoGameState) && after == before
    else if player >= |before.players| then
      |before.players| > 0 && r == Err(NoSuchPlayer(player, |before.players|)) && after == before
    else
      && before.roundState.currentPlayerIndex < |before.players|
      && after.Stored?
      && DrawOutcome(before.players, before.roundState, before.deck, player, r,
                     after.players, after.roundState, after.deck)
  }

  /**
   * What `handle_stay` does to the game file: the same refusals as
   * `DrawCommand`, and otherwise `StayOutcome` with the deck kept.
   */
  predicate StayCommand(player: nat, r: Result<Unit, string>, scores: Option<map<string, nat>>,
                        before: GameFile, after: GameFile)
  {
    if before.NoFile? then r == Err(NoGameState) && scores == None && after == before
    else if player >= |before.players| then
      |before.players| > 0 && r == Err(NoSuchPlayer(player, |before.players|)) && scores == None && after == before
    else
      && before.roundState.currentPlayerIndex < |before.players|
      && after.Stored?
      && after.deck == before.deck
      && StayOutcome(before.players, before.roundState, player, r, scores, after.players, after.roundState)
  }

  /** What `handle_state` does: refused exactly when there is no game, and the file is kept. */
  predicate StateCommand(r: Result<Unit, string>, before: GameFile, after: GameFile)
  {
    (r.Err? <==> before.NoFile?) && (r.Err? ==> r.error == NoGameState) && after == before
  }

  /** What a script command does to the game file: its handler's outcome (the stay's scores are printed, not kept). */
  ghost predicate CommandOutcome(c: Command, generator: nat -> Rng, r: Result<Unit, string>, before: GameFile, after: GameFile)
  {
    match c
    case NewGame(players, _) => NewOutcome(players, generator, r, before, after)
    case DrawFor(p) => DrawCommand(p, r, before, after)
    case StayFor(p) => exists scores :: StayCommand(p, r, scores, before, after)
    case ShowState => StateCommand(r, before, after)
  }

  /** What one script line does: a skipped or rejected line keeps the file, a command does what its handler does. */
  ghost predicate LineEffect(action: LineAction, generator: nat -> Rng, r: Result<Unit, string>, before: GameFile, after: GameFile)
  {
    match action
    case Skip => r == Ok(Unit) && after == before
    case Reject(m) => r == Err(m) && after == before
    case Run(c) => CommandOutcome(c, generator, r, before, after)
  }

  /**
   * A run of the first `|trace| - 1` lines: line `k` takes the game file
   * from `trace[k]` to `trace[k + 1]`, every line before the last of them
   * succeeded, and the last returned `last`.
   */
  ghost predicate Ran(actions: seq<LineAction>, generator: nat -> Rng, trace: seq<GameFile>, last: Result<Unit, string>)
  {
    && 1 <= |trace| <= |actions| + 1
    && forall k :: 0 <= k < |trace| - 1 ==>
         LineEffect(actions[k], generator, if k == |trace| - 2 then last else Ok(Unit), trace[k], trace[k + 1])
  }

  /** A run of successful lines is extended by the next line and the file it leaves. */
  lemma RanExtend(actions: seq<LineAction>, generator: nat -> Rng, trace: seq<GameFile>,
                  r: Result<Unit, string>, next: GameFile)
    requires Ran(actions, generator, trace, Ok(Unit)) && |trace| <= |actions|
    ensures LineEffect(actions[|trace| - 1], generator, r, trace[|trace| - 1], next) ==>
      && Ran(actions, generator, trace + [next], r)
      && (r.Ok? ==> Ran(actions, generator, trace + [next], Ok(Unit)))
  {
    var n := |trace|;
    if LineEffect(actions[n - 1], generator, r, trace[n - 1], next) {
      var t := trace + [next];
      forall k | 0 <= k < n
        ensures LineEffect(actions[k], generator, if k == n - 1 then r else Ok(Unit), t[k], t[k + 1])
      {
        assert t[k] == trace[k];
        if k < n - 1 {
          assert t[k + 1] == trace[k + 1];
        }
      }
      if r.Ok? {
        var u: Unit := r.value;
        assert u == Unit;
      }
    }
  }

  /** Every line of a run that went on to the next one was accepted, not rejected. */
  lemma RanAccepted(actions: seq<LineAction>, generator: nat -> Rng, trace: seq<GameFile>,
                    last: Result<Unit, string>, stop: nat)
    requires Ran(actions, generator, trace, last)
    requires stop < |trace| && (stop == |trace| - 1 ==> last.Ok?)
    ensures forall k :: 0 <= k < stop ==> !actions[k].Reject?
  {
    forall k | 0 <= k < stop
      ensures !actions[k].Reject?
    {
      assert LineEffect(actions[k], generator, if k == |trace| - 2 then last else Ok(Unit), trace[k], trace[k + 1]);
    }
  }

  /** The next line of a run: the run grows by the file it leaves, and ends as `ErrorAt` says if the line failed. */
  lemma RanStep(actions: seq<LineAction>, generator: nat -> Rng, trace: seq<GameFile>,
                r: Result<Unit, string>, next: GameFile)
    requires Ran(actions, generator, trace, Ok(Unit)) && |trace| <= |actions|
    ensures LineEffect(actions[|trace| - 1], generator, r, trace[|trace| - 1], next) ==>
      && Ran(actions, generator, trace + [next], r)
      && (r.Ok? ==> Ran(actions, generator, trace + [next], Ok(Unit)))
      && (r.Err? ==> ErrorAt(actions, |trace| - 1, r.error, CommandsOf(actions, |trace|)))
  {
    var k := |trace| - 1;
    if LineEffect(actions[k], generator, r, trace[k], next) {
      RanExtend(actions, generator, trace, r, next);
    }
  }

  /** The game action of `handle_draw` once `player` is known to be a seat. */
  method DrawTurn(game: GameState, player: nat) returns (r: Result<Unit, string>)
    requires game.Consistent() && player < |game.players|
    requires var idx := game.roundState.currentPlayerIndex;
      game.players[idx].id == ToDecimal(player) <==> idx == player
    modifies game, game.deck
    ensures game.Consistent() && SameSeats(old(game.players), game.players)
    ensures game.deck == old(game.deck) && game.deck.rngPos == old(game.deck.rngPos)
    ensures DrawOutcome(old(game.players), old(game.roundState), old(game.deck.cards), player, r,
                        game.players, game.roundState, game.deck.cards)
  {
    var drawn := game.PlayerDraw(ToDecimal(player));
    match drawn
    case Err(e) =>
      r := Err(DrawFailed + e);
    case Ok(_) =>
      r := Ok(Unit);
  }

  /** The game action of `handle_stay` once `player` is known to be a seat. */
  method StayTurn(game: GameState, player: nat) returns (r: Result<Unit, string>, scores: Option<map<string, nat>>)
    requires game.Consistent() && player < |game.players|
    requires var idx := game.roundState.currentPlayerIndex;
      game.players[idx].id == ToDecimal(player) <==> idx == player
    modifies game
    ensures game.Consistent() && SameSeats(old(game.players), game.players)
    ensures game.deck == old(game.deck)
    ensures StayOutcome(old(game.players), old(game.roundState), player, r, scores,
                        game.players, game.roundState)
  {
    ghost var ps, rs := game.players, game.roundState;
    var result := StaySeat(game, player);
    if result.Err? {
      r, scores := Err(StayFailed + result.error), None;
      StayRefused(ps, rs, player, result.error, game.players, game.roundState);
      return;
    }
    ghost var midPs, midRs := game.players, game.roundState;
    scores := ScoreIfFinished(game);
    r := Ok(Unit);
    StayAccepted(ps, rs, player, midPs, midRs, scores, game.players, game.roundState);
  }

  /** The game's stay for seat `player`, whose id is the decimal form of its index. */
  method StaySeat(game: GameState, player: nat) returns (r: Result<Unit, string>)
    requires game.Consistent() && player < |game.players|
    requires var idx := game.roundState.currentPlayerIndex;
      game.players[idx].id == ToDecimal(player) <==> idx == player
    modifies game
    ensures game.Consistent() && SameSeats(old(game.players), game.players)
    ensures game.deck == old(game.deck)
    ensures var idx := old(game.roundState.currentPlayerIndex);
      if old(game.roundState.isFinished) || idx != player then
        && r.Err?
        && r.error == (if old(game.roundState.isFinished) then "Round is finished" else "Not your turn")
        && game.players == old(game.players) && game.roundState == old(game.roundState)
      else
        && r == Ok(Unit)
        && game.players == old(game.players)[idx := old(game.players)[idx].Stay()]
        && game.roundState == old(game.roundState).(currentPlayerIndex := (idx + 1) % |game.players|,
                                                   isFinished := AllStayed(game.players))
  {
    r := game.PlayerStay(ToDecimal(player));
  }

  /** The refusals of the game's stay become the refusals of `handle_stay`. */
  lemma StayRefused(ps: seq<Player>, rs: RoundState, player: nat, error: string, ps': seq<Player>, rs': RoundState)
    requires rs.currentPlayerIndex < |ps|
    requires rs.isFinished ==> error == "Round is finished"
    requires !rs.isFinished ==> rs.currentPlayerIndex != player && error == "Not your turn"
    requires ps' == ps && rs' == rs
    ensures StayOutcome(ps, rs, player, Err(StayFailed + error), None, ps', rs')
  {
  }

  /** A stay by the current seat, followed by scoring when it finished the round. */
  lemma StayAccepted(ps: seq<Player>, rs: RoundState, player: nat, midPs: seq<Player>, midRs: RoundState,
                     scores: Option<map<string, nat>>, ps': seq<Player>, rs': RoundState)
    requires player == rs.currentPlayerIndex < |ps| && !rs.isFinished
    requires midPs == ps[player := ps[player].Stay()]
    requires midRs == rs.(currentPlayerIndex := (player + 1) % |midPs|, isFinished := AllStayed(midPs))
    requires !midRs.isFinished ==> scores == None && ps' == midPs && rs' == midRs
    requires midRs.isFinished ==>
      && scores == Some(ScoreMap(midPs))
      && ScoresAdded(midPs, ps')
      && rs' == midRs.(roundNumber := midRs.roundNumber + 1)
    ensures StayOutcome(ps, rs, player, Ok(Unit), scores, ps', rs')
  {
  }

  /** The end of `handle_stay`: the scores are computed once the round is finished. */
  method ScoreIfFinished(game: GameState) returns (scores: Option<map<string, nat>>)
    requires game.Consistent()
    modifies game
    ensures game.Consistent() && SameSeats(old(game.players), game.players)
    ensures game.deck == old(game.deck)
    ensures !old(game.roundState.isFinished) ==> scores == None && unchanged(game)
    ensures old(game.roundState.isFinished) ==>
      && scores == Some(ScoreMap(old(game.players)))
      && ScoresAdded(old(game.players), game.players)
      && game.roundState == old(game.roundState).(roundNumber := old(game.roundState.roundNumber) + 1)
  {
    scores := None;
    if game.roundState.isFinished {
      var s := game.ComputeScores();
      scores := Some(s);
    }
  }

  /** The tool's view of the saved game: the game, or null while none is saved. */
  class Session {
    var saved: GameState?
    /** The random stream for each seed, handed to every game the session creates. */
    const generator: nat -> Rng

    /** A saved game always comes from `new`: 1 to 8 seats named "0".."n-1", consistent. */
    ghost predicate Valid()
      reads this, saved, if saved == null then {} else {saved.deck}
    {
      saved != null ==>
        && 1 <= |saved.players| <= MaxPlayers
        && SeatIds(saved.players)
        && saved.Consistent()
    }

    /** The contents of the game file. */
    ghost function FileContents(): GameFile
      reads this, saved, if saved == null then {} else {saved.deck}
    {
      if saved == null then NoFile else Stored(saved.players, saved.roundState, saved.deck.cards)
    }

    constructor (generator: nat -> Rng)
      ensures saved == null && this.generator == generator
      ensures Valid()
    {
      saved := null;
      this.generator := generator;
    }

    /**
     * `handle_new`: a bad player count is refused before any game exists;
     * otherwise a game is created, players "0".."n-1" are seated, the first
     * round is started and the game replaces the saved one. The round's deck
     * is reseeded with 42 + 1, so the `seed` argument has no effect on it.
     */
    method HandleNew(players: nat, seed: nat) returns (r: Result<Unit, string>)
      requires Valid()
      modifies this
      ensures Valid()
      ensures NewOutcome(players, generator, r, old(FileContents()), FileContents())
      ensures CheckPlayerCount(players).Some? ==> saved == old(saved)
      ensures CheckPlayerCount(players).None? ==> saved != null && fresh(saved) && fresh(saved.deck)
    {
      var check := CheckPlayerCount(players);
      if check.Some? {
        return Err(check.value);
      }
      var game := new GameState.NewWithSeed(seed, generator);
      SeatPlayers(game, players);
      var started := game.StartRound();
      match started
      case Err(e) =>
        r := Err("Failed to start round: " + e);
      case Ok(_) =>
        saved := game;
        r := Ok(Unit);
    }

    /**
     * `handle_draw`: refused without a saved game, then for an index past
     * the last seat, before any game action; otherwise the draw of the game
     * is made for the seat's id, its refusals prefixed with "Draw failed: ".
     * Since seat `i` is named "i", the draw is for the current player
     * exactly when `player` is the turn index.
     */
    method HandleDraw(player: nat) returns (r: Result<Unit, string>)
      requires Valid()
      modifies if saved == null then {} else {saved, saved.deck}
      ensures saved == old(saved) && Valid()
      ensures saved != null ==> saved.deck == old(saved.deck) && saved.deck.rngPos == old(saved.deck.rngPos)
      ensures saved != null && player >= |old(saved.players)| ==> unchanged(saved, old(saved.deck))
      ensures DrawCommand(player, r, old(FileContents()), FileContents())
    {
      if saved == null {
        return Err(NoGameState);
      }
      var game := saved;
      if player >= |game.players| {
        return Err(NoSuchPlayer(player, |game.players|));
      }
      SeatLookup(game.players, game.roundState.currentPlayerIndex, player);
      r := DrawTurn(game, player);
    }

    /**
     * `handle_stay`: the same refusals as `handle_draw`, prefixed with
     * "Stay failed: "; after a successful stay that ends the round, the
     * scores are computed, and the map printed is returned in `scores`.
     */
    method HandleStay(player: nat) returns (r: Result<Unit, string>, scores: Option<map<string, nat>>)
      requires Valid()
      modifies if saved == null then {} else {saved}
      ensures saved == old(saved) && Valid()
      ensures saved != null ==> saved.deck == old(saved.deck)
      ensures saved != null && player >= |old(saved.players)| ==> unchanged(saved)
      ensures StayCommand(player, r, scores, old(FileContents()), FileContents())
    {
      scores := None;
      if saved == null {
        return Err(NoGameState), None;
      }
      var game := saved;
      if player >= |game.players| {
        return Err(NoSuchPlayer(player, |game.players|)), None;
      }
      SeatLookup(game.players, game.roundState.currentPlayerIndex, player);
      r, scores := StayTurn(game, player);
    }

    /** `handle_state`: refused without a saved game (the JSON output is not modelled). */
    method HandleState() returns (r: Result<Unit, string>)
      ensures r.Err? <==> saved == null
      ensures StateCommand(r, FileContents(), FileContents())
    {
      if saved == null {
        return Err(NoGameState);
      }
      return Ok(Unit);
    }

    /** The handler a script command is dispatched to; the stay's scores are printed, not kept. */
    method Dispatch(c: Command) returns (r: Result<Unit, string>)
      requires Valid()
      modifies this, if saved == null then {} else {saved, saved.deck}
      ensures Valid()
      ensures saved != null ==> (saved == old(saved) && saved.deck == old(saved.deck))
                                || (fresh(saved) && fresh(saved.deck))
      ensures CommandOutcome(c, generator, r, old(FileContents()), FileContents())
    {
      match c
      case NewGame(players, seed) =>
        r := HandleNew(players, seed);
      case DrawFor(p) =>
        r := HandleDraw(p);
      case StayFor(p) =>
        var scores;
        r, scores := HandleStay(p);
      case ShowState =>
        r := HandleState();
    }

    /**
     * One line of a script: skipped, or rejected with its own error, with
     * the saved game left alone; or its command dispatched, whose error
     * ends the run.
     */
    method RunLine(lines: seq<string>, lineNum: nat) returns (r: Result<Unit, string>)
      requires Valid() && lineNum < |lines|
      modifies this, if saved == null then {} else {saved, saved.deck}
      ensures Valid()
      ensures saved != null ==> (saved == old(saved) && saved.deck == old(saved.deck))
                                || (fresh(saved) && fresh(saved.deck))
      ensures !ClassifyAll(lines)[lineNum].Run? ==>
        saved == old(saved) && (saved != null ==> unchanged(saved, saved.deck))
      ensures LineEffect(ClassifyAll(lines)[lineNum], generator, r, old(FileContents()), FileContents())
    {
      ClassifyAllAt(lines, lineNum);
      match ClassifyLine(lines[lineNum], lineNum) {
        case Skip =>
          r := Ok(Unit);
        case Reject(m) =>
          r := Err(m);
        case Run(c) =>
          r := Dispatch(c);
      }
    }

    /**
     * Line `k` of a run whose earlier lines all succeeded: the line is run,
     * and the trace grows by the game file it leaves.
     */
    method Step(lines: seq<string>, k: nat, ghost trace: seq<GameFile>)
      returns (r: Result<Unit, string>, ghost trace': seq<GameFile>)
      requires Valid() && k < |lines|
      requires |trace| == k + 1 && trace[k] == FileContents()
      requires Ran(ClassifyAll(lines), generator, trace, Ok(Unit))
      modifies this, if saved == null then {} else {saved, saved.deck}
      ensures Valid()
      ensures saved != null ==> (saved == old(saved) && saved.deck == old(saved.deck))
                                || (fresh(saved) && fresh(saved.deck))
      ensures trace' == trace + [FileContents()]
      ensures Ran(ClassifyAll(lines), generator, trace', r)
      ensures r.Ok? ==> Ran(ClassifyAll(lines), generator, trace', Ok(Unit))
      ensures r.Err? ==> ErrorAt(ClassifyAll(lines), k, r.error, CommandsOf(ClassifyAll(lines), k + 1))
    {
      r := RunLine(lines, k);
      RanStep(ClassifyAll(lines), generator, trace, r, FileContents());
      trace' := trace + [FileContents()];
    }

    /**
     * `handle_simulate` on the text of a script: the lines are classified
     * in order and each has the effect `LineEffect` gives it, from the game
     * file `trace[k]` to `trace[k + 1]`. Every line before `stop` succeeded;
     * the run ends Ok after the last line, or with the error of line `stop`,
     * rejected or failed in its handler, and no later line is executed:
     * `ran` lists every command dispatched.
     */
    method Simulate(script: string) returns (r: Result<Unit, string>, ghost stop: nat, ghost ran: seq<Command>,
                                             ghost trace: seq<GameFile>)
      requires Valid()
      modifies this, if saved == null then {} else {saved, saved.deck}
      ensures Valid()
      ensures var actions := ClassifyAll(Lines(script));
        && Ran(actions, generator, trace, r)
        && stop <= |actions| && trace[0] == old(FileContents()) && trace[|trace| - 1] == FileContents()
        && (forall k :: 0 <= k < stop ==> !actions[k].Reject?)
        && (r.Ok? ==> stop == |actions| && |trace| == stop + 1 && ran == CommandsOf(actions, stop))
        && (r.Err? ==> stop < |actions| && |trace| == stop + 2 && ErrorAt(actions, stop, r.error, ran))
    {
      var lines := Lines(script);
      ghost var actions := ClassifyAll(lines);
      ran := [];
      trace := [FileContents()];
      var k := 0;
      while k < |lines|
        invariant k <= |lines|
        invariant Valid()
        invariant |trace| == k + 1 && trace[0] == old(FileContents()) && trace[k] == FileContents()
        invariant Ran(actions, generator, trace, Ok(Unit))
        invariant ran == CommandsOf(actions, k)
        invariant saved != null ==> (saved == old(saved) && saved.deck == old(saved.deck))
                                    || (fresh(saved) && fresh(saved.deck))
      {
        var outcome;
        outcome, trace := Step(lines, k, trace);
        ran := CommandsOf(actions, k + 1);
        if outcome.Err? {
          RanAccepted(actions, generator, trace, outcome, k);
          return outcome, k, ran, trace;
        }
        k := k + 1;
      }
      RanAccepted(actions, generator, trace, Ok(Unit), k);
      return Ok(Unit), k, ran, trace;
    }
  }
}
