/** `GameGateway.handleMove` and `handleAiTurns` (src/game/game.gateway.ts):
    a player's move is routed through `processMove`; when it is accepted the
    new state is broadcast and, while the seat on move belongs to an AI
    player, the AI provider is asked for a move, the move is submitted under
    that player's own socket, and each accepted move is broadcast in turn.

    The provider's answers are a finite script: call `k` answers
    `replies[k]`, and a call past the end of the script answers nothing. */
module Cascade {
  import opened Common
  import opened Lobby
  import opened Turns
  import opened Match

  datatype Move = Move(y: int, x: int)

  /** One accepted AI move: who played it, what was played, the index of
      the slot it was played at, and the board it produced. */
  datatype Step = Step(player: Player, move: Move, slot: nat, board: Board)

  /** Why the cascade ended. */
  datatype Stop =
    | HumanOnMove    // the seat on move holds a human
    | NoTeamOnMove   // no team has the colour on move
    | SeatThrows     // the seat on move is empty: reading it throws a TypeError
    | NoMove         // the provider answered nothing
    | MoveRejected   // the engine refused the provider's move

  datatype Run = Run(steps: seq<Step>, calls: nat, stop: Stop, index: nat, board: Board)

  /** Whether the cascade ended after asking the provider once more. */
  predicate AskedLast(stop: Stop) {
    stop == NoMove || stop == MoveRejected
  }

  /** What the lookup of the gateway and of `processMove` gives for each
      slot of the cycle, under the reading `v` of the colour comparison. A
      match's teams and cycle never change, so neither does this table. */
  function SlotSeats(v: Variant, teams: seq<MatchTeam>, cycle: seq<Slot>): (r: seq<Lookup>)
    ensures |r| == |cycle|
  {
    if cycle == [] then []
    else SlotSeats(v, teams, cycle[..|cycle| - 1]) + [SeatFor(v, teams, cycle[|cycle| - 1])]
  }

  /** Turn index `i` always finds entry `i` of the table: the lookup of
      slot `i` of the cycle. */
  lemma {:induction false} SlotSeatsAt(v: Variant, teams: seq<MatchTeam>, cycle: seq<Slot>, i: nat)
    requires i < |cycle|
    ensures SlotSeats(v, teams, cycle)[i] == SeatFor(v, teams, cycle[i])
  {
    if i < |cycle| - 1 {
      var init := cycle[..|cycle| - 1];
      SlotSeatsAt(v, teams, init, i);
      assert init[i] == cycle[i];
    }
  }

  /** The cascade from turn index `index` and board `board`, where `seats`
      resolves each slot index and `replies` are the provider's remaining
      answers. The AI's move goes through `processMove` under the seated
      player's own socket, so only the engine can refuse it (see
      `CascadeStepIsAccepted`). */
  function Cascade(seats: seq<Lookup>, index: nat, board: Board,
                   replies: seq<Option<Move>>, oracle: (Board, Coord) -> Option<Board>): Run
    requires |seats| == 4 && index < 4
    decreases |replies|
  {
    match seats[index]
    case NoTeam => Run([], 0, NoTeamOnMove, index, board)
    case EmptySeat => Run([], 0, SeatThrows, index, board)
    case Seated(p) =>
      if !p.isAi then Run([], 0, HumanOnMove, index, board)
      else if replies == [] || replies[0].None? then Run([], 1, NoMove, index, board)
      else
        var m := replies[0].value;
        match oracle(board, Coord(m.y, m.x))
        case Some(b) =>
          var rest := Cascade(seats, IndexAfter(index, 1), b, replies[1..], oracle);
          Run([Step(p, m, index, b)] + rest.steps, rest.calls + 1, rest.stop, rest.index, rest.board)
        case None => Run([], 1, MoveRejected, index, board)
  }

  /** The cascade ends at once unless an AI player is on move, the
      provider answers and the engine takes the answer. */
  lemma CascadeStops(seats: seq<Lookup>, index: nat, board: Board,
                     replies: seq<Option<Move>>, oracle: (Board, Coord) -> Option<Board>)
    requires |seats| == 4 && index < 4
    requires !(seats[index].Seated? && seats[index].player.isAi && replies != [] && replies[0].Some?
               && oracle(board, Coord(replies[0].value.y, replies[0].value.x)).Some?)
    ensures var r := Cascade(seats, index, board, replies, oracle);
      && r.steps == [] && r.index == index && r.board == board
      && r.calls == (if seats[index].Seated? && seats[index].player.isAi then 1 else 0)
      && (r.stop == SeatThrows <==> seats[index] == EmptySeat)
  {
  }

  /** Otherwise the accepted answer is the first step and the cascade goes
      on from the next slot with the new board. */
  lemma CascadeGoesOn(seats: seq<Lookup>, index: nat, board: Board,
                      replies: seq<Option<Move>>, oracle: (Board, Coord) -> Option<Board>, b: Board)
    requires |seats| == 4 && index < 4
    requires seats[index].Seated? && seats[index].player.isAi && replies != [] && replies[0].Some?
    requires oracle(board, Coord(replies[0].value.y, replies[0].value.x)) == Some(b)
    ensures Cascade(seats, index, board, replies, oracle)
         == After([Step(seats[index].player, replies[0].value, index, b)],
                  Cascade(seats, IndexAfter(index, 1), b, replies[1..], oracle))
  {
  }

  /** What the cascade adds up to: at most one step per answer, one
      provider call per step plus one for the call that ended it, the turn
      advanced once per step, the last step's board, and a stop reason that
      holds of the state the cascade ends in. */
  lemma {:induction false} CascadeShape(seats: seq<Lookup>, index: nat, board: Board,
                                        replies: seq<Option<Move>>, oracle: (Board, Coord) -> Option<Board>)
    requires |seats| == 4 && index < 4
    ensures var r := Cascade(seats, index, board, replies, oracle);
      && |r.steps| <= |replies|
      && r.calls == |r.steps| + (if AskedLast(r.stop) then 1 else 0)
      && r.index == IndexAfter(index, |r.steps|)
      && (r.steps == [] ==> r.board == board)
      && (r.steps != [] ==> r.board == r.steps[|r.steps| - 1].board)
    ensures var r := Cascade(seats, index, board, replies, oracle);
      var seat := seats[r.index];
      && (r.stop == NoTeamOnMove <==> seat == NoTeam)
      && (r.stop == SeatThrows <==> seat == EmptySeat)
      && (r.stop == HumanOnMove <==> seat.Seated? && !seat.player.isAi)
      && (AskedLast(r.stop) <==> seat.Seated? && seat.player.isAi)
    ensures var r := Cascade(seats, index, board, replies, oracle);
      && (r.stop == NoMove ==> |r.steps| == |replies| || replies[|r.steps|].None?)
      && (r.stop == MoveRejected ==>
            && |r.steps| < |replies| && replies[|r.steps|].Some?
            && oracle(r.board, Coord(replies[|r.steps|].value.y, replies[|r.steps|].value.x)).None?)
    decreases |replies|
  {
    var seat := seats[index];
    if seat.Seated? && seat.player.isAi && replies != [] && replies[0].Some? {
      var m := replies[0].value;
      if oracle(board, Coord(m.y, m.x)).Some? {
        var next := IndexAfter(index, 1);
        var rest := Cascade(seats, next, oracle(board, Coord(m.y, m.x)).value, replies[1..], oracle);
        CascadeShape(seats, next, oracle(board, Coord(m.y, m.x)).value, replies[1..], oracle);
        IndexAfterShift(index, |rest.steps|);
      }
    }
  }

  /** When a human is on move the provider is never asked. */
  lemma HumanOnMoveAsksNothing(seats: seq<Lookup>, index: nat, board: Board,
                               replies: seq<Option<Move>>, oracle: (Board, Coord) -> Option<Board>)
    requires |seats| == 4 && index < 4
    requires seats[index].Seated? && !seats[index].player.isAi
    ensures Cascade(seats, index, board, replies, oracle).calls == 0
    ensures Cascade(seats, index, board, replies, oracle).steps == []
  {
  }

  /** Step `k` of the cascade is the `k`-th answer of the provider, played
      at the `k`-th slot after the start by the AI player seated there and
      accepted by the engine on the board the previous step left. */
  lemma {:induction false} CascadeStep(seats: seq<Lookup>, index: nat, board: Board,
                                       replies: seq<Option<Move>>, oracle: (Board, Coord) -> Option<Board>, k: nat)
    requires |seats| == 4 && index < 4
    requires k < |Cascade(seats, index, board, replies, oracle).steps|
    ensures var steps := Cascade(seats, index, board, replies, oracle).steps;
      var st := steps[k];
      var before := if k == 0 then board else steps[k - 1].board;
      && st.slot == IndexAfter(index, k)
      && seats[st.slot] == Seated(st.player) && st.player.isAi
      && k < |replies| && replies[k] == Some(st.move)
      && oracle(before, Coord(st.move.y, st.move.x)) == Some(st.board)
    decreases k
  {
    var r := Cascade(seats, index, board, replies, oracle);
    var p := seats[index].player;
    var m := replies[0].value;
    var b := oracle(board, Coord(m.y, m.x)).value;
    var next := IndexAfter(index, 1);
    var rest := Cascade(seats, next, b, replies[1..], oracle);
    assert r.steps == [Step(p, m, index, b)] + rest.steps;
    if k > 0 {
      CascadeStep(seats, next, b, replies[1..], oracle, k - 1);
      IndexAfterShift(index, k - 1);
      if k > 1 {
        assert r.steps[k - 1] == rest.steps[k - 2];
      }
    }
  }

  /** Every step of a match's cascade is a move `processMove` accepts when
      it is submitted under the AI player's own socket: the seat check passes
      and the engine takes the move. */
  lemma CascadeStepIsAccepted(v: Variant, teams: seq<MatchTeam>, cycle: seq<Slot>, index: nat, board: Board,
                              replies: seq<Option<Move>>, oracle: (Board, Coord) -> Option<Board>, k: nat)
    requires |cycle| == 4 && index < 4
    requires k < |Cascade(SlotSeats(v, teams, cycle), index, board, replies, oracle).steps|
    ensures var steps := Cascade(SlotSeats(v, teams, cycle), index, board, replies, oracle).steps;
      var st := steps[k];
      var before := if k == 0 then board else steps[k - 1].board;
      && st.slot < 4
      && MoveVerdict(v, teams, cycle[st.slot], before, st.player.socketId, Coord(st.move.y, st.move.x), oracle)
         == Accepted(st.board)
  {
    var seats := SlotSeats(v, teams, cycle);
    CascadeStep(seats, index, board, replies, oracle, k);
    var st := Cascade(seats, index, board, replies, oracle).steps[k];
    SlotSeatsAt(v, teams, cycle, st.slot);
  }

  /** As written, the lookup never finds a team (the uppercase team colours
      never equal the lowercase slot colours), so the cascade of a match
      stops at once: no AI move, no provider call, nothing changed. */
  lemma AsWrittenCascadeIdle(teams: seq<MatchTeam>, cycle: seq<Slot>, index: nat, board: Board,
                             replies: seq<Option<Move>>, oracle: (Board, Coord) -> Option<Board>)
    requires UpperStones(teams) && |cycle| == 4 && LowerSlots(cycle) && index < 4
    ensures Cascade(SlotSeats(AsWritten, teams, cycle), index, board, replies, oracle)
         == Run([], 0, NoTeamOnMove, index, board)
  {
    StrictLookupFindsNoTeam(teams, cycle[index]);
    SlotSeatsAt(AsWritten, teams, cycle, index);
  }

  /** A seat held by a human ends the cascade within one round of the
      cycle: at most three AI moves are played in a row, however long the
      provider keeps answering. */
  lemma HumanSeatBoundsCascade(seats: seq<Lookup>, index: nat, board: Board,
                               replies: seq<Option<Move>>, oracle: (Board, Coord) -> Option<Board>, j: nat)
    requires |seats| == 4 && index < 4 && j < 4
    requires seats[j].Seated? && !seats[j].player.isAi
    ensures |Cascade(seats, index, board, replies, oracle).steps| <= 3
  {
    var steps := Cascade(seats, index, board, replies, oracle).steps;
    if |steps| > 3 {
      // the human's slot is met within the first four steps
      var k: nat := if index <= j then j - index else j + 4 - index;
      IndexAfterIsModular(index, k);
      CascadeStep(seats, index, board, replies, oracle, k);
      assert false;
    }
  }

  /** Sent to the match's room after each accepted move. */
  datatype Event = GameUpdate(room: string, game: SerializedGame)

  /** The update broadcast after `step`: the match shows the step's board
      and the slot following the step's slot. */
  function StepUpdate(g: GameInstance, step: Step, toJson: Board -> Json): Event
    requires |g.turnManager.cycle| == 4
  {
    GameUpdate(g.id, g.SnapshotWith(toJson(step.board), g.turnManager.cycle[(step.slot + 1) % 4]))
  }

  /** The updates the cascade's steps broadcast, one per step, in order. */
  function StepUpdates(g: GameInstance, steps: seq<Step>, toJson: Board -> Json): seq<Event>
    requires |g.turnManager.cycle| == 4
  {
    if steps == [] then []
    else StepUpdates(g, steps[..|steps| - 1], toJson) + [StepUpdate(g, steps[|steps| - 1], toJson)]
  }

  lemma StepUpdatesSnoc(g: GameInstance, steps: seq<Step>, step: Step, toJson: Board -> Json)
    requires |g.turnManager.cycle| == 4
    ensures StepUpdates(g, steps + [step], toJson) == StepUpdates(g, steps, toJson) + [StepUpdate(g, step, toJson)]
  {
    assert (steps + [step])[..|steps|] == steps;
  }

  /** Update `k` shows step `k`'s board and the slot after step `k`'s slot. */
  lemma {:induction false} StepUpdatesAt(g: GameInstance, steps: seq<Step>, toJson: Board -> Json)
    requires |g.turnManager.cycle| == 4
    ensures |StepUpdates(g, steps, toJson)| == |steps|
    ensures forall k :: 0 <= k < |steps| ==>
      StepUpdates(g, steps, toJson)[k]
        == GameUpdate(g.id, g.SnapshotWith(toJson(steps[k].board), g.turnManager.cycle[(steps[k].slot + 1) % 4]))
  {
    if steps != [] {
      var init := steps[..|steps| - 1];
      StepUpdatesAt(g, init, toJson);
      var es := StepUpdates(g, steps, toJson);
      assert es == StepUpdates(g, init, toJson) + [StepUpdate(g, steps[|steps| - 1], toJson)];
      forall k | 0 <= k < |steps|
        ensures es[k] == StepUpdate(g, steps[k], toJson)
      {
        if k < |init| {
          assert steps[k] == init[k];
        }
      }
    }
  }

  /** Once a step is played, the serialized match is the step's update. */
  lemma SerializedStep(g: GameInstance, step: Step, toJson: Board -> Json)
    requires g.turnManager.Valid() && step.board == g.gameData
    requires g.turnManager.index == (step.slot + 1) % 4
    ensures GameUpdate(g.id, SerializeGame(g, toJson)) == StepUpdate(g, step, toJson)
  {
  }

  /** `steps` followed by the run `r`. */
  function After(steps: seq<Step>, r: Run): Run {
    Run(steps + r.steps, |steps| + r.calls, r.stop, r.index, r.board)
  }

  lemma AfterAfter(s: seq<Step>, t: seq<Step>, r: Run)
    ensures After(s, After(t, r)) == After(s + t, r)
  {
  }

  class GameGateway {
    const gameService: GameService
    var log: seq<Event>

    constructor (gameService: GameService)
      ensures this.gameService == gameService && log == []
    {
      this.gameService := gameService;
      log := [];
    }

    /** The cascade's call of `processMove` for the AI player seated at the
        slot on move, under that player's own socket: the seat check passes,
        so only the engine can refuse the move. */
    method SubmitAiMove(game: GameInstance, player: Player, m: Move,
                        oracle: (Board, Coord) -> Option<Board>) returns (next: Result<Option<GameInstance>>)
      requires gameService.Valid()
      requires game.id in gameService.games && gameService.games[game.id] == game
      requires SlotSeats(gameService.variant, game.teams, game.turnManager.cycle)[game.turnManager.index] == Seated(player)
      modifies game, game.turnManager
      ensures gameService.Valid()
      ensures var b := oracle(old(game.gameData), Coord(m.y, m.x));
        && next == (if b.Some? then Success(Some(game)) else Success(None))
        && (b.Some? ==> game.gameData == b.value && game.turnManager.index == IndexAfter(old(game.turnManager.index), 1))
        && (b.None? ==> game.gameData == old(game.gameData) && game.turnManager.index == old(game.turnManager.index))
    {
      SlotSeatsAt(gameService.variant, game.teams, game.turnManager.cycle, game.turnManager.index);
      next := gameService.ProcessMove(game.id, player.socketId, m.y, m.x, oracle);
    }

    /** The lookup of the seat on move that `handleAiTurns` makes. */
    method SeatToPlay(game: GameInstance) returns (seat: Lookup)
      requires game.turnManager.Valid()
      ensures seat == SlotSeats(gameService.variant, game.teams, game.turnManager.cycle)[game.turnManager.index]
    {
      seat := SeatFor(gameService.variant, game.teams, game.CurrentTurn());
      SlotSeatsAt(gameService.variant, game.teams, game.turnManager.cycle, game.turnManager.index);
    }

    /** One pass of the loop of `handleAiTurns`, with the provider's
        answers `replies[calls..]` still to come. Either the loop goes on
        after one accepted AI move `step`, broadcast once, or it stops where
        the cascade from this state stops. */
    method AiTurn(game: GameInstance, replies: seq<Option<Move>>, calls: nat,
                  oracle: (Board, Coord) -> Option<Board>, toJson: Board -> Json)
      returns (calls': nat, thrown: bool, more: bool, ghost step: Step)
      requires gameService.Valid()
      requires game.id in gameService.games && gameService.games[game.id] == game
      requires calls <= |replies|
      modifies this, game, game.turnManager
      ensures gameService.Valid() && game.turnManager.Valid()
      ensures var seats := SlotSeats(gameService.variant, game.teams, game.turnManager.cycle);
        var r := Cascade(seats, old(game.turnManager.index), old(game.gameData), replies[calls..], oracle);
        if more then
          && calls' == calls + 1 <= |replies| && !thrown
          && r == After([step], Cascade(seats, game.turnManager.index, game.gameData, replies[calls'..], oracle))
          && log == old(log) + [StepUpdate(game, step, toJson)]
        else
          && r.steps == [] && calls' == calls + r.calls && thrown == (r.stop == SeatThrows)
          && game.gameData == r.board && game.turnManager.index == r.index
          && log == old(log)
    {
      ghost var seats := SlotSeats(gameService.variant, game.teams, game.turnManager.cycle);
      ghost var index, board := game.turnManager.index, game.gameData;
      calls', thrown, more, step := calls, false, false, Step(Player(0, "", "", Desktop, false, Red, false), Move(0, 0), 0, board);
      // a missing team ends the loop quietly, an empty seat throws, a human
      // ends it; only an AI player's turn asks the provider
      var seat := SeatToPlay(game);
      thrown := seat.EmptySeat?;
      var asks := seat.Seated? && seat.player.isAi;
      calls' := if asks then calls + 1 else calls;
      if asks && calls < |replies| && replies[calls].Some? {
        var m := replies[calls].value;
        var next := SubmitAiMove(game, seat.player, m, oracle);
        more := next.Success? && next.value.Some?;
        if more {
          step := Step(seat.player, m, index, game.gameData);
          CascadeGoesOn(seats, index, board, replies[calls..], oracle, game.gameData);
          assert replies[calls..][1..] == replies[calls'..];
          IndexAfterOne(index);
          SerializedStep(game, step, toJson);
          log := log + [GameUpdate(game.id, SerializeGame(game, toJson))];
        }
      }
      if !more {
        CascadeStops(seats, index, board, replies[calls..], oracle);
      }
    }

    /** `handleAiTurns`: the loop plays out `Cascade`. `calls` counts the
        provider's invocations and `thrown` is set when the loop stops on a
        seat that holds no player. */
    method HandleAiTurns(game: GameInstance, replies: seq<Option<Move>>,
                         oracle: (Board, Coord) -> Option<Board>, toJson: Board -> Json) returns (calls: nat, thrown: bool)
      requires gameService.Valid()
      requires game.id in gameService.games && gameService.games[game.id] == game
      modifies this, game, game.turnManager
      ensures gameService.Valid()
      ensures var r := Cascade(SlotSeats(gameService.variant, game.teams, game.turnManager.cycle), old(game.turnManager.index),
                               old(game.gameData), replies, oracle);
        && calls == r.calls
        && thrown == (r.stop == SeatThrows)
        && game.gameData == r.board && game.turnManager.index == r.index
        && log == old(log) + StepUpdates(game, r.steps, toJson)
    {
      ghost var seats := SlotSeats(gameService.variant, game.teams, game.turnManager.cycle);
      ghost var run0 := Cascade(seats, game.turnManager.index, game.gameData, replies, oracle);
      ghost var done: seq<Step> := [];
      calls, thrown := 0, false;
      while true
        invariant gameService.Valid() && game.id in gameService.games && gameService.games[game.id] == game
        invariant calls == |done| <= |replies|
        invariant run0 == After(done, Cascade(seats, game.turnManager.index, game.gameData, replies[calls..], oracle))
        invariant log == old(log) + StepUpdates(game, done, toJson)
        decreases |replies| - calls
      {
        ghost var rest := Cascade(seats, game.turnManager.index, game.gameData, replies[calls..], oracle);
        var calls', more;
        ghost var step;
        calls', thrown, more, step := AiTurn(game, replies, calls, oracle, toJson);
        if !more {
          // the run stops where it stands, having asked once more exactly
          // when the stop reason says so
          assert rest.steps == [] && done + rest.steps == done;
          calls := calls';
          break;
        }
        AfterAfter(done, [step], Cascade(seats, game.turnManager.index, game.gameData, replies[calls'..], oracle));
        StepUpdatesSnoc(game, done, step, toJson);
        done := done + [step];
        calls := calls';
      }
    }

    /** `handleMove`: nothing is broadcast and the provider is not asked
        unless the move is accepted; an accepted move is broadcast once and
        then the cascade runs from the new state. */
    method HandleMove(gameId: string, socketId: string, y: int, x: int, replies: seq<Option<Move>>,
                      oracle: (Board, Coord) -> Option<Board>, toJson: Board -> Json) returns (calls: nat, thrown: bool)
      requires gameService.Valid()
      modifies this
      modifies if gameId in gameService.games then {gameService.games[gameId], gameService.games[gameId].turnManager} else {}
      ensures gameService.Valid()
      ensures gameId !in gameService.games ==> thrown && calls == 0 && log == old(log)
      ensures gameId in gameService.games ==>
        var g := gameService.games[gameId];
        match MoveVerdict(gameService.variant, g.teams, old(g.turnManager.currentTurn), old(g.gameData), socketId, Coord(y, x), oracle)
        case Rejected =>
          !thrown && calls == 0 && log == old(log)
          && g.gameData == old(g.gameData) && g.turnManager.index == old(g.turnManager.index)
        case SeatFault =>
          thrown && calls == 0 && log == old(log)
          && g.gameData == old(g.gameData) && g.turnManager.index == old(g.turnManager.index)
        case Accepted(b) =>
          var start := IndexAfter(old(g.turnManager.index), 1);
          var r := Cascade(SlotSeats(gameService.variant, g.teams, g.turnManager.cycle), start, b, replies, oracle);
          && calls == r.calls && thrown == (r.stop == SeatThrows)
          && g.gameData == r.board && g.turnManager.index == r.index
          && log == old(log) + [GameUpdate(gameId, g.SnapshotWith(toJson(b), g.turnManager.cycle[start]))]
                    + StepUpdates(g, r.steps, toJson)
      ensures gameService.variant == AsWritten && gameId in gameService.games ==>
        var g := gameService.games[gameId];
        && !thrown && calls == 0 && log == old(log)
        && g.gameData == old(g.gameData) && g.turnManager.index == old(g.turnManager.index)
    {
      calls, thrown := 0, false;
      var updated := gameService.ProcessMove(gameId, socketId, y, x, oracle);
      if updated.Failure? {
        thrown := true;
        return;
      }
      if updated.value.None? {
        return;
      }
      var g := updated.value.value;
      calls, thrown := Announce(g, replies, oracle, toJson);
    }

    /** The accepted branch of `handleMove`: the updated match is broadcast
        once, then the cascade runs from its new state. */
    method Announce(g: GameInstance, replies: seq<Option<Move>>,
                    oracle: (Board, Coord) -> Option<Board>, toJson: Board -> Json) returns (calls: nat, thrown: bool)
      requires gameService.Valid()
      requires g.id in gameService.games && gameService.games[g.id] == g
      modifies this, g, g.turnManager
      ensures gameService.Valid()
      ensures var r := Cascade(SlotSeats(gameService.variant, g.teams, g.turnManager.cycle), old(g.turnManager.index),
                               old(g.gameData), replies, oracle);
        && calls == r.calls && thrown == (r.stop == SeatThrows)
        && g.gameData == r.board && g.turnManager.index == r.index
        && log == old(log) + [GameUpdate(g.id, g.SnapshotWith(toJson(old(g.gameData)), g.turnManager.cycle[old(g.turnManager.index)]))]
                  + StepUpdates(g, r.steps, toJson)
    {
      assert SerializeGame(g, toJson) == g.SnapshotWith(toJson(g.gameData), g.turnManager.cycle[g.turnManager.index]);
      log := log + [GameUpdate(g.id, SerializeGame(g, toJson))];
      calls, thrown := HandleAiTurns(g, replies, oracle, toJson);
    }
  }
}
