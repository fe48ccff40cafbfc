/** Core/AI/AI.cs `ExpectMiniMax` and `GetBestMove`, as functions on values.

    `ExpectMiniMax` takes, over all 21 distinct rolls and over every state
    the player reaches with each, the maximum (or minimum) of the children's
    values, starting from `int.MinValue` (or `int.MaxValue`); no roll is
    weighted by its probability. The `stateToMoves` table is shared by every
    search on the way, and a board handed to a search loses the bar checkers
    its entries pop. When a search returns the very board it was given, the
    child search on that state works on the same object, so what it pops is
    gone from the board for the rolls after it. */
module Strategy {

  import opened Wrappers
  import opened Checkers
  import opened Boards
  import opened MoveGen
  import opened BoardHash
  import opened Evaluation
  import opened Search

  /** `int.MinValue` and `int.MaxValue`. */
  const IntMin: int := -0x8000_0000
  const IntMax: int := 0x7fff_ffff

  function Initial(maximizing: bool): int
  {
    if maximizing then IntMin else IntMax
  }

  /** `Math.Max` when maximizing, `Math.Min` otherwise. */
  function Combine(maximizing: bool, best: int, value: int): int
  {
    if maximizing then (if best >= value then best else value)
    else (if best <= value then best else value)
  }

  /** The running best after each value in turn. */
  function Fold(maximizing: bool, init: int, values: seq<int>): int
  {
    if values == [] then init
    else Combine(maximizing, Fold(maximizing, init, values[..|values| - 1]), values[|values| - 1])
  }

  datatype Scored = Scored(value: int, table: Table, board: Board)

  /** The children's values gathered so far, the table, and a board. */
  datatype Gathered = Gathered(values: seq<int>, table: Table, board: Board)

  /** `ExpectMiniMax(board, depth, maximizingPlayer, currentPlayer)`: the value,
      the table afterwards, and the board afterwards. */
  function MiniMax(table: Table, b: Board, depth: nat, maximizing: bool, player: Color, fuel: nat): Outcome<Scored>
    decreases depth, 2
  {
    if depth == 0 then Done(Scored(Evaluate(b, player), table, b))
    else
      var r := OverOutcomes(table, b, depth, maximizing, player, AllOutcomes(), [], fuel);
      if r.Failed? then Failed(r.fault)
      else Done(Scored(Fold(maximizing, Initial(maximizing), r.value.values), r.value.table, r.value.board))
  }

  /** The loop over the dice outcomes, from `outcomes[0]` on; `values` holds
      the children's values so far. */
  function OverOutcomes(table: Table, b: Board, depth: nat, maximizing: bool, player: Color,
                        outcomes: seq<seq<int>>, values: seq<int>, fuel: nat): Outcome<Gathered>
    requires depth > 0
    decreases depth, 1, |outcomes|
  {
    if outcomes == [] then Done(Gathered(values, table, b))
    else
      var u := Unique(table, b, player, outcomes[0], fuel);
      if u.Failed? then Failed(u.fault)
      else
        var g := OverStates(u.value.table, u.value.states, depth - 1, !maximizing, Opponent(player), values, u.value.board, fuel);
        if g.Failed? then g
        else
          var b' := if u.value.rootReturned then g.value.board else u.value.board;
          OverOutcomes(g.value.table, b', depth, maximizing, player, outcomes[1..], g.value.values, fuel)
  }

  /** The loop over the states of one outcome, each searched one level
      deeper; the board is that of the last state searched, `last` if none. */
  function OverStates(table: Table, states: seq<Board>, depth: nat, maximizing: bool, player: Color,
                      values: seq<int>, last: Board, fuel: nat): Outcome<Gathered>
    decreases depth + 1, 0, |states|
  {
    if states == [] then Done(Gathered(values, table, last))
    else
      var r := MiniMax(table, states[0], depth, maximizing, player, fuel);
      if r.Failed? then Failed(r.fault)
      else OverStates(r.value.table, states[1..], depth, maximizing, player, values + [r.value.value], r.value.board, fuel)
  }

  /** A score and the moves recorded for its state. */
  datatype Candidate = Candidate(score: int, moves: seq<Move>)

  /** The loop of `GetBestMove`: each state scored by `ExpectMiniMax(state,
      depth, false, aiPlayer)`, with the moves recorded for it right after. */
  function Candidates(table: Table, states: seq<Board>, root: Board, rootReturned: bool, ai: Color,
                      depth: nat, scored: seq<Candidate>, fuel: nat): Outcome<(seq<Candidate>, Table, Board)>
    decreases |states|
  {
    if states == [] then Done((scored, table, root))
    else
      var r := MiniMax(table, states[0], depth, false, ai, fuel);
      if r.Failed? then Failed(r.fault)
      else
        var sc := r.value;
        Candidates(sc.table, states[1..], if rootReturned then sc.board else root, rootReturned, ai, depth,
                   scored + [Candidate(sc.value, Retrieve(sc.table, sc.board))], fuel)
  }

  /** `score > bestScore` replaces the best, starting from `int.MinValue` and
      no moves. */
  function Pick(scored: seq<Candidate>): Candidate
  {
    if scored == [] then Candidate(IntMin, [])
    else
      var best := Pick(scored[..|scored| - 1]);
      var c := scored[|scored| - 1];
      if c.score > best.score then c else best
  }

  datatype Choice = Choice(moves: seq<Move>, table: Table, board: Board)

  /** `GetBestMove(diceValues, depth)`: the chosen moves, the table and the
      AI's board afterwards. */
  function BestMove(table: Table, b: Board, ai: Color, dice: seq<int>, depth: nat, fuel: nat): Outcome<Choice>
  {
    var u := Unique(table, b, ai, dice, fuel);
    if u.Failed? then Failed(u.fault)
    else
      var c := Candidates(u.value.table, u.value.states, u.value.board, u.value.rootReturned, ai, depth, [], fuel);
      if c.Failed? then Failed(c.fault)
      else Done(Choice(Pick(c.value.0).moves, c.value.1, c.value.2))
  }

  // ----- properties -----

  /** The running best bounds every value from the side it optimises, and is
      one of the values or the starting value. */
  lemma {:induction false} FoldBounds(maximizing: bool, init: int, values: seq<int>)
    ensures var r := Fold(maximizing, init, values);
      && (maximizing ==> r >= init && forall v :: v in values ==> r >= v)
      && (!maximizing ==> r <= init && forall v :: v in values ==> r <= v)
      && (r == init || r in values)
  {
    if values != [] {
      var front := values[..|values| - 1];
      FoldBounds(maximizing, init, front);
      assert values == front + [values[|values| - 1]];
    }
  }

  /** The value `ExpectMiniMax` returns: the evaluation at depth 0; otherwise
      the best of the children's values for the side to move, or the starting
      sentinel when no roll reaches any state. */
  lemma MiniMaxValue(table: Table, b: Board, depth: nat, maximizing: bool, player: Color, fuel: nat)
    requires MiniMax(table, b, depth, maximizing, player, fuel).Done?
    ensures var r := MiniMax(table, b, depth, maximizing, player, fuel).value;
      && (depth == 0 ==> r.value == Evaluate(b, player))
      && (depth > 0 ==>
            var vs := OverOutcomes(table, b, depth, maximizing, player, AllOutcomes(), [], fuel).value.values;
            && (maximizing ==> forall v :: v in vs ==> r.value >= v)
            && (!maximizing ==> forall v :: v in vs ==> r.value <= v)
            && (r.value == Initial(maximizing) || r.value in vs))
  {
    if depth > 0 {
      var vs := OverOutcomes(table, b, depth, maximizing, player, AllOutcomes(), [], fuel).value.values;
      FoldBounds(maximizing, Initial(maximizing), vs);
    }
  }

  /** `GetBestMove` returns the moves recorded for the first state with the
      highest score, when that score is above `int.MinValue`, and no moves
      otherwise. */
  lemma {:induction false} PickFirstBest(scored: seq<Candidate>)
    ensures var r := Pick(scored);
      || (r == Candidate(IntMin, []) && forall j :: 0 <= j < |scored| ==> scored[j].score <= IntMin)
      || exists k :: 0 <= k < |scored| && r == scored[k] && r.score > IntMin
           && (forall j :: 0 <= j < |scored| ==> scored[j].score <= r.score)
           && (forall j :: 0 <= j < k ==> scored[j].score < r.score)
  {
    if scored != [] {
      var front := scored[..|scored| - 1];
      var c := scored[|scored| - 1];
      PickFirstBest(front);
      var best := Pick(front);
      if c.score > best.score {
        var k := |scored| - 1;
        assert forall j :: 0 <= j < k ==> scored[j] == front[j];
      } else if best == Candidate(IntMin, []) && forall j :: 0 <= j < |front| ==> front[j].score <= IntMin {
        assert forall j :: 0 <= j < |front| ==> scored[j] == front[j];
      } else {
        var k :| 0 <= k < |front| && best == front[k] && best.score > IntMin
          && (forall j :: 0 <= j < |front| ==> front[j].score <= best.score)
          && (forall j :: 0 <= j < k ==> front[j].score < best.score);
        assert forall j :: 0 <= j < |front| ==> scored[j] == front[j];
        assert scored[k] == best;
      }
    }
  }

  lemma BestMoveIsFirstBest(table: Table, b: Board, ai: Color, dice: seq<int>, depth: nat, fuel: nat)
    requires BestMove(table, b, ai, dice, depth, fuel).Done?
    ensures var u := Unique(table, b, ai, dice, fuel).value;
      var scored := Candidates(u.table, u.states, u.board, u.rootReturned, ai, depth, [], fuel).value.0;
      var r := BestMove(table, b, ai, dice, depth, fuel).value;
      || (r.moves == [] && forall j :: 0 <= j < |scored| ==> scored[j].score <= IntMin)
      || exists k :: 0 <= k < |scored| && r.moves == scored[k].moves && scored[k].score > IntMin
           && (forall j :: 0 <= j < |scored| ==> scored[j].score <= scored[k].score)
           && (forall j :: 0 <= j < k ==> scored[j].score < scored[k].score)
  {
    hide Unique, Candidates, Pick;
    var u := Unique(table, b, ai, dice, fuel).value;
    var scored := Candidates(u.table, u.states, u.board, u.rootReturned, ai, depth, [], fuel).value.0;
    PickFirstBest(scored);
    var p := Pick(scored);
    assert BestMove(table, b, ai, dice, depth, fuel).value.moves == p.moves;
    if p != Candidate(IntMin, []) || exists j :: 0 <= j < |scored| && scored[j].score > IntMin {
      var k :| 0 <= k < |scored| && p == scored[k] && p.score > IntMin
        && (forall j :: 0 <= j < |scored| ==> scored[j].score <= p.score)
        && (forall j :: 0 <= j < k ==> scored[j].score < p.score);
      assert p.moves == scored[k].moves;
    }
  }

  /** Searching never loses a recorded key, never changes the points of the
      board it is given, and only pops checkers off its bars. */
  lemma {:induction false} MiniMaxKeeps(table: Table, b: Board, depth: nat, maximizing: bool, player: Color, fuel: nat)
    requires MiniMax(table, b, depth, maximizing, player, fuel).Done?
    ensures var r := MiniMax(table, b, depth, maximizing, player, fuel).value;
      table.Keys <= r.table.Keys && Shrinks(b, r.board)
    decreases depth, 2
  {
    if depth > 0 {
      OverOutcomesKeep(table, b, depth, maximizing, player, AllOutcomes(), [], fuel);
    }
  }

  lemma {:induction false} OverOutcomesKeep(table: Table, b: Board, depth: nat, maximizing: bool, player: Color,
                                            outcomes: seq<seq<int>>, values: seq<int>, fuel: nat)
    requires depth > 0
    requires OverOutcomes(table, b, depth, maximizing, player, outcomes, values, fuel).Done?
    ensures var g := OverOutcomes(table, b, depth, maximizing, player, outcomes, values, fuel).value;
      table.Keys <= g.table.Keys && Shrinks(b, g.board)
    decreases depth, 1, |outcomes|
  {
    hide Unique, MiniMax;
    if outcomes != [] {
      var u := Unique(table, b, player, outcomes[0], fuel).value;
      UniqueKeys(table, b, player, outcomes[0], fuel);
      UniqueBoard(table, b, player, outcomes[0], fuel);
      var g := OverStates(u.table, u.states, depth - 1, !maximizing, Opponent(player), values, u.board, fuel).value;
      OverStatesKeep(u.table, u.states, depth - 1, !maximizing, Opponent(player), values, u.board, fuel);
      var b' := if u.rootReturned then g.board else u.board;
      assert Shrinks(b, b');
      OverOutcomesKeep(g.table, b', depth, maximizing, player, outcomes[1..], g.values, fuel);
      ShrinksTrans(b, b', OverOutcomes(g.table, b', depth, maximizing, player, outcomes[1..], g.values, fuel).value.board);
    }
  }

  lemma {:induction false} OverStatesKeep(table: Table, states: seq<Board>, depth: nat, maximizing: bool, player: Color,
                                          values: seq<int>, last: Board, fuel: nat)
    requires OverStates(table, states, depth, maximizing, player, values, last, fuel).Done?
    ensures var g := OverStates(table, states, depth, maximizing, player, values, last, fuel).value;
      && table.Keys <= g.table.Keys
      && (states == [] ==> g.board == last)
      && (states != [] ==> Shrinks(states[|states| - 1], g.board))
      && |g.values| == |values| + |states| && g.values[..|values|] == values
    decreases depth + 1, 0, |states|
  {
    hide MiniMax;
    if states != [] {
      var r := MiniMax(table, states[0], depth, maximizing, player, fuel).value;
      MiniMaxKeeps(table, states[0], depth, maximizing, player, fuel);
      OverStatesKeep(r.table, states[1..], depth, maximizing, player, values + [r.value], r.board, fuel);
      var g := OverStates(r.table, states[1..], depth, maximizing, player, values + [r.value], r.board, fuel).value;
      assert g.values[..|values|] == (g.values[..|values| + 1])[..|values|];
    }
  }

  lemma {:induction false} CandidatesKeep(table: Table, states: seq<Board>, root: Board, rootReturned: bool, ai: Color,
                                          depth: nat, scored: seq<Candidate>, fuel: nat)
    requires rootReturned ==> states == [] || states == [root]
    requires Candidates(table, states, root, rootReturned, ai, depth, scored, fuel).Done?
    ensures var c := Candidates(table, states, root, rootReturned, ai, depth, scored, fuel).value;
      && table.Keys <= c.1.Keys && Shrinks(root, c.2)
      && |c.0| == |scored| + |states|
    decreases |states|
  {
    hide MiniMax;
    if states != [] {
      var r := MiniMax(table, states[0], depth, false, ai, fuel).value;
      MiniMaxKeeps(table, states[0], depth, false, ai, fuel);
      var root' := if rootReturned then r.board else root;
      var scored' := scored + [Candidate(r.value, Retrieve(r.table, r.board))];
      CandidatesKeep(r.table, states[1..], root', rootReturned, ai, depth, scored', fuel);
      var c := Candidates(r.table, states[1..], root', rootReturned, ai, depth, scored', fuel).value;
      ShrinksTrans(root, root', c.2);
    }
  }

  /** `GetBestMove` scores every state the search returns, keeps every key
      recorded before it, leaves the points of the AI's board as they were
      and only pops checkers off the board's bars. */
  lemma BestMoveKeeps(table: Table, b: Board, ai: Color, dice: seq<int>, depth: nat, fuel: nat)
    requires BestMove(table, b, ai, dice, depth, fuel).Done?
    ensures var u := Unique(table, b, ai, dice, fuel).value;
      var r := BestMove(table, b, ai, dice, depth, fuel).value;
      && |Candidates(u.table, u.states, u.board, u.rootReturned, ai, depth, [], fuel).value.0| == |u.states|
      && table.Keys <= r.table.Keys && Shrinks(b, r.board)
  {
    var u := Unique(table, b, ai, dice, fuel).value;
    UniqueKeys(table, b, ai, dice, fuel);
    UniqueBoard(table, b, ai, dice, fuel);
    CandidatesKeep(u.table, u.states, u.board, u.rootReturned, ai, depth, [], fuel);
    var c := Candidates(u.table, u.states, u.board, u.rootReturned, ai, depth, [], fuel).value;
    ShrinksTrans(b, u.board, c.2);
  }

  /** One step of the scoring loop at depth 0. */
  lemma CandidatesStep(table: Table, states: seq<Board>, root: Board, rootReturned: bool, ai: Color,
                       scored: seq<Candidate>, fuel: nat)
    ensures states == [] ==> Candidates(table, states, root, rootReturned, ai, 0, scored, fuel) == Done((scored, table, root))
    ensures states != [] ==>
      Candidates(table, states, root, rootReturned, ai, 0, scored, fuel)
        == Candidates(table, states[1..], if rootReturned then states[0] else root, rootReturned, ai, 0,
                      scored + [Candidate(Evaluate(states[0], ai), Retrieve(table, states[0]))], fuel)
  {
    hide Evaluate, Retrieve;
    if states != [] {
      assert MiniMax(table, states[0], 0, false, ai, fuel) == Done(Scored(Evaluate(states[0], ai), table, states[0]));
    }
  }

  /** Searched to depth 0, each state is scored by its evaluation for the AI
      and paired with the moves the table records for it; the table is left
      as it was. */
  lemma {:induction false} CandidatesDepthZero(table: Table, states: seq<Board>, root: Board, rootReturned: bool, ai: Color,
                                               scored: seq<Candidate>, fuel: nat)
    requires Candidates(table, states, root, rootReturned, ai, 0, scored, fuel).Done?
    ensures var c := Candidates(table, states, root, rootReturned, ai, 0, scored, fuel).value;
      && c.1 == table && |c.0| == |scored| + |states| && c.0[..|scored|] == scored
      && forall i :: 0 <= i < |states| ==>
           c.0[|scored| + i] == Candidate(Evaluate(states[i], ai), Retrieve(table, states[i]))
    decreases |states|
  {
    hide Candidates, MiniMax, Evaluate, Retrieve;
    CandidatesStep(table, states, root, rootReturned, ai, scored, fuel);
    if states != [] {
      var root' := if rootReturned then states[0] else root;
      var scored' := scored + [Candidate(Evaluate(states[0], ai), Retrieve(table, states[0]))];
      CandidatesDepthZero(table, states[1..], root', rootReturned, ai, scored', fuel);
      var c := Candidates(table, states[1..], root', rootReturned, ai, 0, scored', fuel).value;
      assert c.0[..|scored|] == c.0[..|scored'|][..|scored|];
      forall i | 0 <= i < |states|
        ensures c.0[|scored| + i] == Candidate(Evaluate(states[i], ai), Retrieve(table, states[i]))
      {
        if i == 0 {
          assert c.0[|scored|] == c.0[..|scored'|][|scored|];
        } else {
          var k := i - 1;
          assert states[i] == states[1..][k];
          assert |scored| + i == |scored'| + k;
        }
      }
    }
  }

  /** The candidate `Pick` keeps, for candidates given as scores and moves
      side by side. */
  lemma PickAmong(scored: seq<Candidate>, scores: seq<int>, paths: seq<seq<Move>>)
    requires |scored| == |scores| == |paths|
    requires forall i :: 0 <= i < |scored| ==> scored[i] == Candidate(scores[i], paths[i])
    ensures || (Pick(scored).moves == [] && forall k :: 0 <= k < |scores| ==> scores[k] <= IntMin)
            || exists k :: 0 <= k < |scores| && scores[k] > IntMin && Pick(scored).moves == paths[k]
                 && forall j :: 0 <= j < |scores| ==> scores[j] <= scores[k]
  {
    PickFirstBest(scored);
  }

  /** The moves of a highest score, in terms of the states scored. */
  lemma ChosenReaches(b: Board, ai: Color, dice: seq<int>, u: Found, moves: seq<Move>,
                      scores: seq<int>, paths: seq<seq<Move>>)
    requires |scores| == |paths| == |u.states|
    requires forall i :: 0 <= i < |u.states| ==> scores[i] == Evaluate(u.states[i], ai)
    requires forall i :: 0 <= i < |u.states| ==> paths[i] == Retrieve(u.table, u.states[i])
    requires forall x :: x in u.states ==>
      Hash(x) in u.table && exists y :: SamePoints(y, x) && Leads(b, ai, dice, u.table[Hash(x)], y)
    requires || (moves == [] && forall k :: 0 <= k < |scores| ==> scores[k] <= IntMin)
             || exists k :: 0 <= k < |scores| && scores[k] > IntMin && moves == paths[k]
                  && forall j :: 0 <= j < |scores| ==> scores[j] <= scores[k]
    ensures || (moves == [] && forall k :: 0 <= k < |u.states| ==> Evaluate(u.states[k], ai) <= IntMin)
            || exists k :: 0 <= k < |u.states| && Evaluate(u.states[k], ai) > IntMin
                 && (forall j :: 0 <= j < |u.states| ==> Evaluate(u.states[j], ai) <= Evaluate(u.states[k], ai))
                 && exists y :: SamePoints(y, u.states[k]) && Leads(b, ai, dice, moves, y)
  {
    hide Leads, Evaluate, Hash, SamePoints, PipCount;
    if !(moves == [] && forall k :: 0 <= k < |scores| ==> scores[k] <= IntMin) {
      var k :| 0 <= k < |scores| && scores[k] > IntMin && moves == paths[k]
                 && forall j :: 0 <= j < |scores| ==> scores[j] <= scores[k];
      var x := u.states[k];
      assert x in u.states;
      var y :| SamePoints(y, x) && Leads(b, ai, dice, u.table[Hash(x)], y);
      assert Leads(b, ai, dice, moves, y);
    }
  }

  /** Searched to depth 0, `GetBestMove` returns no moves when no state
      scores above `int.MinValue`, and otherwise moves that lead from the
      AI's board, with the rolled dice, to a board laid out as a state with
      the highest evaluation. */
  lemma BestMoveReaches(table: Table, b: Board, ai: Color, dice: seq<int>, fuel: nat)
    requires BestMove(table, b, ai, dice, 0, fuel).Done?
    ensures var u := Unique(table, b, ai, dice, fuel).value;
      var r := BestMove(table, b, ai, dice, 0, fuel).value;
      || (r.moves == [] && forall k :: 0 <= k < |u.states| ==> Evaluate(u.states[k], ai) <= IntMin)
      || exists k :: 0 <= k < |u.states| && Evaluate(u.states[k], ai) > IntMin
           && (forall j :: 0 <= j < |u.states| ==> Evaluate(u.states[j], ai) <= Evaluate(u.states[k], ai))
           && exists y :: SamePoints(y, u.states[k]) && Leads(b, ai, dice, r.moves, y)
  {
    hide Unique, Candidates, Pick, Leads, Evaluate, Retrieve, Hash, SamePoints, PipCount;
    var u := Unique(table, b, ai, dice, fuel).value;
    var c := Candidates(u.table, u.states, u.board, u.rootReturned, ai, 0, [], fuel);
    var moves := BestMove(table, b, ai, dice, 0, fuel).value.moves;
    assert c.Done? && moves == Pick(c.value.0).moves;
    var scored := c.value.0;
    var scores := seq(|u.states|, i requires 0 <= i < |u.states| => Evaluate(u.states[i], ai));
    var paths := seq(|u.states|, i requires 0 <= i < |u.states| => Retrieve(u.table, u.states[i]));
    CandidatesDepthZero(u.table, u.states, u.board, u.rootReturned, ai, [], fuel);
    assert forall i :: 0 <= i < |scored| ==> scored[i] == Candidate(scores[i], paths[i]) by {
      forall i | 0 <= i < |scored| ensures scored[i] == Candidate(scores[i], paths[i]) {
        assert scored[0 + i] == scored[i];
      }
    }
    PickAmong(scored, scores, paths);
    UniqueRecords(table, b, ai, dice, fuel);
    ChosenReaches(b, ai, dice, u, moves, scores, paths);
  }
}
