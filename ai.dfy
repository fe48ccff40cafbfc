/** Core/AI/AI.cs: the computer player. It keeps the board it searches and
    the `stateToMoves` table, which maps the hash of a board the search
    reached to the moves that reached it; every search adds to that table and
    `GetBestMove` reads the chosen moves back from it.

    Each method is proved against the function of the same search in the
    `Search` and `Strategy` modules: on success it returns what the function
    returns and leaves the table (and the board) as the function says. A
    fault ends the method with that fault; the state it leaves is not
    specified. */
module AIPlayer {

  import opened Wrappers
  import opened Checkers
  import opened Boards
  import opened Seqs
  import opened MoveGen
  import opened BoardHash
  import opened Evaluation
  import opened Search
  import opened Strategy

  /** What `Recurse` leaves in `uniqueStates` and `currentCallStates`, the
      board it was given as it stands afterwards, and whether it collected
      that board itself. */
  datatype Recursed = Recursed(states: seq<Board>, added: set<string>, board: Board, collectedSelf: bool)

  /** `uniqueStates.Any(state => HashBoardState(state) == stateHash)`. */
  method AnyHashes(states: seq<Board>, stateHash: string) returns (found: bool)
    ensures found <==> stateHash in Hashes(states)
  {
    for i := 0 to |states|
      invariant forall k :: 0 <= k < i ==> Hash(states[k]) != stateHash
    {
      var h := HashBoardState(states[i]);
      if h == stateHash {
        assert states[i] in states;
        return true;
      }
    }
    return false;
  }

  class AI {
    const aiColor: Color
    var board: Board
    var stateToMoves: Table

    constructor (aiColor: Color, board: Board)
      ensures this.aiColor == aiColor && this.board == board && stateToMoves == map[]
    {
      this.aiColor := aiColor;
      this.board := board;
      stateToMoves := map[];
    }

    method GetBestMove(diceValues: seq<int>, depth: nat, fuel: nat) returns (r: Outcome<seq<Move>>)
      modifies this
      ensures var spec := BestMove(old(stateToMoves), old(board), aiColor, diceValues, depth, fuel);
        && (spec.Failed? ==> r == Failed(spec.fault))
        && (spec.Done? ==> r == Done(spec.value.moves) && stateToMoves == spec.value.table && board == spec.value.board)
    {
      hide Unique, MiniMax, Moves, Hash, Retrieve;
      ghost var table0, board0 := stateToMoves, board;
      var u := GenerateUniqueStates(board, aiColor, diceValues, fuel);
      if u.Failed? {
        return Failed(u.fault);
      }
      var (uniqueStates, searched, rootReturned) := u.value;
      board := searched;
      ghost var found := Unique(table0, board0, aiColor, diceValues, fuel).value;
      var bestScore := IntMin;
      var bestMoveSequence: seq<Move> := [];
      ghost var scored: seq<Candidate> := [];
      for i := 0 to |uniqueStates|
        invariant Pick(scored) == Candidate(bestScore, bestMoveSequence)
        invariant Candidates(stateToMoves, uniqueStates[i..], board, rootReturned, aiColor, depth, scored, fuel)
               == Candidates(found.table, found.states, found.board, found.rootReturned, aiColor, depth, [], fuel)
      {
        assert uniqueStates[i..][1..] == uniqueStates[i + 1..];
        var state := uniqueStates[i];
        var e := ExpectMiniMax(state, depth, false, aiColor, fuel);
        if e.Failed? {
          return Failed(e.fault);
        }
        var (score, state') := e.value;
        if rootReturned {
          board := state';
        }
        ghost var c := Candidate(score, Retrieve(stateToMoves, state'));
        assert (scored + [c])[..|scored|] == scored;
        scored := scored + [c];
        if score > bestScore {
          bestScore := score;
          bestMoveSequence := RetrieveMoveSequence(state');
        }
      }
      return Done(bestMoveSequence);
    }

    method ExpectMiniMax(b: Board, depth: nat, maximizingPlayer: bool, currentPlayer: Color, fuel: nat)
      returns (r: Outcome<(int, Board)>)
      modifies this`stateToMoves
      decreases depth, 2
      ensures var spec := MiniMax(old(stateToMoves), b, depth, maximizingPlayer, currentPlayer, fuel);
        && (spec.Failed? ==> r == Failed(spec.fault))
        && (spec.Done? ==> r == Done((spec.value.value, spec.value.board)) && stateToMoves == spec.value.table)
    {
      hide Unique, OverStates, Expand, Branches, Moves, Hash, Evaluate, SimulateMove, AllOutcomes;
      if depth == 0 {
        var score := EvaluateBoard(currentPlayer, b);
        return Done((score, b));
      }
      var bestValue := if maximizingPlayer then IntMin else IntMax;
      var possibleDiceOutcomes := GenerateAllDiceOutcomes();
      var current := b;
      ghost var values: seq<int> := [];
      for i := 0 to |possibleDiceOutcomes|
        invariant bestValue == Fold(maximizingPlayer, Initial(maximizingPlayer), values)
        invariant OverOutcomes(stateToMoves, current, depth, maximizingPlayer, currentPlayer, possibleDiceOutcomes[i..], values, fuel)
               == OverOutcomes(old(stateToMoves), b, depth, maximizingPlayer, currentPlayer, AllOutcomes(), [], fuel)
      {
        assert possibleDiceOutcomes[i..][1..] == possibleDiceOutcomes[i + 1..];
        var u := GenerateUniqueStates(current, currentPlayer, possibleDiceOutcomes[i], fuel);
        if u.Failed? {
          return Failed(u.fault);
        }
        var (possibleStates, searched, rootReturned) := u.value;
        var g, vs := ScoreStates(possibleStates, depth - 1, !maximizingPlayer, Opponent(currentPlayer),
                             maximizingPlayer, bestValue, values, searched, fuel);
        if g.Failed? {
          return Failed(g.fault);
        }
        var (best, last) := g.value;
        bestValue, values := best, vs;
        current := if rootReturned then last else searched;
      }
      return Done((bestValue, current));
    }

    /** The inner `foreach` of `ExpectMiniMax` over the states of one outcome:
        each state searched one level deeper, its value folded into the
        running best of the level above. */
    method ScoreStates(states: seq<Board>, depth: nat, maximizingPlayer: bool, currentPlayer: Color,
                       parentMaximizing: bool, bestValue: int, ghost values: seq<int>, last: Board, fuel: nat)
      returns (r: Outcome<(int, Board)>, ghost values': seq<int>)
      requires bestValue == Fold(parentMaximizing, Initial(parentMaximizing), values)
      modifies this`stateToMoves
      decreases depth + 1, 0
      ensures var spec := OverStates(old(stateToMoves), states, depth, maximizingPlayer, currentPlayer, values, last, fuel);
        && (spec.Failed? ==> r == Failed(spec.fault))
        && (spec.Done? ==>
              r.Done? && values' == spec.value.values && r.value.1 == spec.value.board &&
              r.value.0 == Fold(parentMaximizing, Initial(parentMaximizing), values') &&
              stateToMoves == spec.value.table)
    {
      hide MiniMax, OverOutcomes, Unique, Expand, Branches, Moves, Hash, Evaluate, SimulateMove;
      var best, latest := bestValue, last;
      ghost var vs := values;
      for i := 0 to |states|
        invariant best == Fold(parentMaximizing, Initial(parentMaximizing), vs)
        invariant OverStates(stateToMoves, states[i..], depth, maximizingPlayer, currentPlayer, vs, latest, fuel)
               == OverStates(old(stateToMoves), states, depth, maximizingPlayer, currentPlayer, values, last, fuel)
      {
        assert states[i..][1..] == states[i + 1..];
        var e := ExpectMiniMax(states[i], depth, maximizingPlayer, currentPlayer, fuel);
        if e.Failed? {
          return Failed(e.fault), vs;
        }
        var (value, state') := e.value;
        assert (vs + [value])[..|vs|] == vs;
        vs := vs + [value];
        best := if parentMaximizing then (if best >= value then best else value)
                else (if best <= value then best else value);
        latest := state';
      }
      return Done((best, latest)), vs;
    }

    method RetrieveMoveSequence(b: Board) returns (r: seq<Move>)
      ensures r == Retrieve(stateToMoves, b)
    {
      var stateHash := HashBoardState(b);
      if stateHash in stateToMoves {
        return stateToMoves[stateHash];
      }
      return [];
    }

    /** Returns the states, the searched board afterwards, and whether the
        list holds that board itself. */
    method GenerateUniqueStates(b: Board, currentPlayer: Color, diceValues: seq<int>, fuel: nat)
      returns (r: Outcome<(seq<Board>, Board, bool)>)
      modifies this`stateToMoves
      ensures var spec := Unique(old(stateToMoves), b, currentPlayer, diceValues, fuel);
        && (spec.Failed? ==> r == Failed(spec.fault))
        && (spec.Done? ==>
              r == Done((spec.value.states, spec.value.board, spec.value.rootReturned)) &&
              stateToMoves == spec.value.table)
    {
      hide Expand, Branches, Moves, Hash, Hashes, SimulateMove;
      var rec := Recurse(b, currentPlayer, diceValues, [], [], {}, fuel);
      if rec.Failed? {
        return Failed(rec.fault);
      }
      var uniqueStates, currentCallStates := rec.value.states, rec.value.added;
      ghost var table := stateToMoves;
      var rest := currentCallStates;
      while rest != {}
        invariant rest <= currentCallStates
        invariant stateToMoves == table - ((currentCallStates - rest) - Hashes(uniqueStates))
        decreases rest
      {
        var stateHash :| stateHash in rest;
        var found := AnyHashes(uniqueStates, stateHash);
        if !found {
          stateToMoves := stateToMoves - {stateHash};
        }
        rest := rest - {stateHash};
      }
      return Done((uniqueStates, rec.value.board, rec.value.collectedSelf));
    }

    /** The local function `Recurse` of `GenerateUniqueStates`, with the
        lists it shares with its caller passed in and handed back. */
    method Recurse(currentBoard: Board, currentPlayer: Color, remainingDice: seq<int>, currentMoves: seq<Move>,
                   uniqueStates: seq<Board>, currentCallStates: set<string>, fuel: nat)
      returns (r: Outcome<Recursed>)
      modifies this`stateToMoves
      decreases fuel, 0
      ensures var spec := Expand(Frame(old(stateToMoves), uniqueStates, currentCallStates), currentBoard,
                                 currentPlayer, remainingDice, currentMoves, fuel);
        && (spec.Failed? ==> r == Failed(spec.fault))
        && (spec.Done? ==>
              r.Done? && stateToMoves == spec.value.0.table &&
              r.value.states == spec.value.0.states && r.value.added == spec.value.0.added &&
              r.value.board == spec.value.1 &&
              (r.value.collectedSelf <==>
                 Moves(currentBoard, currentPlayer, remainingDice) == [] && Hash(currentBoard) in old(stateToMoves)))
    {
      hide Branches, Moves, Hash, SimulateMove, RemoveFirst;
      if fuel == 0 {
        return Failed(OutOfFuel);
      }
      var moves := GenerateMoves(currentBoard, currentPlayer, remainingDice);
      if |moves| == 0 {
        var stateHash := HashBoardState(currentBoard);
        if stateHash in stateToMoves {
          stateToMoves := stateToMoves[stateHash := currentMoves];
          return Done(Recursed(uniqueStates + [currentBoard], currentCallStates + {stateHash}, currentBoard, true));
        }
        return Done(Recursed(uniqueStates, currentCallStates, currentBoard, false));
      }
      r := RecurseMoves(currentBoard, currentPlayer, remainingDice, currentMoves, moves, uniqueStates, currentCallStates, fuel - 1);
    }

    /** The `foreach` of `Recurse` over the moves it generated. */
    method RecurseMoves(currentBoard: Board, currentPlayer: Color, remainingDice: seq<int>, currentMoves: seq<Move>,
                        moves: seq<Move>, uniqueStates: seq<Board>, currentCallStates: set<string>, fuel: nat)
      returns (r: Outcome<Recursed>)
      modifies this`stateToMoves
      decreases fuel, 1
      ensures var spec := Branches(Frame(old(stateToMoves), uniqueStates, currentCallStates), currentBoard,
                                   currentPlayer, remainingDice, currentMoves, moves, fuel);
        && (spec.Failed? ==> r == Failed(spec.fault))
        && (spec.Done? ==>
              r == Done(Recursed(spec.value.0.states, spec.value.0.added, spec.value.1, false)) &&
              stateToMoves == spec.value.0.table)
    {
      hide Moves, Hash;
      var states, added, current := uniqueStates, currentCallStates, currentBoard;
      for i := 0 to |moves|
        invariant Branches(Frame(stateToMoves, states, added), current, currentPlayer, remainingDice, currentMoves, moves[i..], fuel)
               == Branches(Frame(old(stateToMoves), uniqueStates, currentCallStates), currentBoard,
                           currentPlayer, remainingDice, currentMoves, moves, fuel)
      {
        assert moves[i..][1..] == moves[i + 1..];
        var move := moves[i];
        var sim := SimulateMove(current, currentPlayer, move);
        if sim.Failed? {
          return Failed(sim.fault);
        }
        var simulatedBoard;
        current, simulatedBoard := sim.value.0, sim.value.1;
        var newDiceValues := RemoveFirst(remainingDice, UsedDie(move));
        var newMoves := currentMoves + [move];
        var stateHash := HashBoardState(simulatedBoard);
        if stateHash !in stateToMoves {
          stateToMoves := stateToMoves[stateHash := newMoves];
          added := added + {stateHash};
          var sub := Recurse(simulatedBoard, currentPlayer, newDiceValues, newMoves, states, added, fuel);
          if sub.Failed? {
            return Failed(sub.fault);
          }
          states, added := sub.value.states, sub.value.added;
        }
      }
      return Done(Recursed(states, added, current, false));
    }
  }
}
