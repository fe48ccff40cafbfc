/** Core/AI/AI.cs, the move layer of the search: the 21 dice outcomes, the
    atomic moves `GenerateMoves` lists, the die a move consumes, and
    `SimulateMove` on board values. */
module MoveGen {

  import opened Wrappers
  import opened Checkers
  import opened Points
  import opened Boards
  import opened Rules
  import opened Seqs

  /** A `(From, To)` tuple: `From` 0 is the bar, `To` -1 is off the board. */
  datatype Move = Move(from: int, to: int)

  // ----- GenerateAllDiceOutcomes -----

  /** The dice values of the outcome `(i, j)`: four equal values for a
      double, the two values otherwise. */
  function RollValues(i: int, j: int): seq<int>
  {
    if i == j then [i, i, i, i] else [i, j]
  }

  /** The outcomes the two nested loops produce from `(i, j)` on: the rest of
      row `i` (`j` to 6), then the rows `i + 1` to 6, each from its diagonal. */
  function OutcomesFrom(i: int, j: int): seq<seq<int>>
    requires 1 <= i <= 7 && i <= j <= 7
    decreases 7 - i, 7 - j
  {
    if i == 7 then []
    else if j == 7 then OutcomesFrom(i + 1, i + 1)
    else [RollValues(i, j)] + OutcomesFrom(i, j + 1)
  }

  /** Every outcome of two dice, in the loops' order. */
  function AllOutcomes(): seq<seq<int>>
  {
    OutcomesFrom(1, 1)
  }

  /** One step of `OutcomesFrom`, for proofs that keep its body hidden. */
  lemma OutcomesFromStep(i: int, j: int)
    requires 1 <= i <= 7 && i <= j <= 7
    ensures i == 7 ==> OutcomesFrom(i, j) == []
    ensures i < 7 && j == 7 ==> OutcomesFrom(i, j) == OutcomesFrom(i + 1, i + 1)
    ensures i < 7 && j < 7 ==> OutcomesFrom(i, j) == [RollValues(i, j)] + OutcomesFrom(i, j + 1)
  {
  }

  method GenerateAllDiceOutcomes() returns (outcomes: seq<seq<int>>)
    ensures outcomes == AllOutcomes()
  {
    hide OutcomesFrom;
    outcomes := [];
    for i := 1 to 7
      invariant outcomes + OutcomesFrom(i, i) == AllOutcomes()
    {
      for j := i to 7
        invariant outcomes + OutcomesFrom(i, j) == AllOutcomes()
      {
        OutcomesFromStep(i, j);
        if i == j {
          outcomes := outcomes + [[i, i, i, i]];
        } else {
          outcomes := outcomes + [[i, j]];
        }
      }
      OutcomesFromStep(i, 7);
    }
    OutcomesFromStep(7, 7);
  }

  /** 1 + 2 + ... + n. */
  function Triangle(n: nat): nat
  {
    if n == 0 then 0 else n + Triangle(n - 1)
  }

  lemma {:induction false} OutcomesFromCount(i: int, j: int)
    requires 1 <= i <= 7 && i <= j <= 7
    ensures |OutcomesFrom(i, j)| == if i == 7 then 0 else (7 - j) + Triangle(6 - i)
    decreases 7 - i, 7 - j
  {
    if i == 7 {
    } else if j == 7 {
      OutcomesFromCount(i + 1, i + 1);
    } else {
      OutcomesFromCount(i, j + 1);
    }
  }

  lemma {:induction false} OutcomesFromMembers(i: int, j: int, o: seq<int>)
    requires 1 <= i <= 7 && i <= j <= 7
    ensures o in OutcomesFrom(i, j) <==>
      exists a, c :: ((a == i && j <= c) || i < a <= c) && c <= 6 && o == RollValues(a, c)
    decreases 7 - i, 7 - j
  {
    hide RollValues;
    if i == 7 {
    } else if j == 7 {
      OutcomesFromMembers(i + 1, i + 1, o);
      if o in OutcomesFrom(i, j) {
        var a, c :| ((a == i + 1 && i + 1 <= c) || i + 1 < a <= c) && c <= 6 && o == RollValues(a, c);
        assert ((a == i && j <= c) || i < a <= c) && c <= 6 && o == RollValues(a, c);
      }
    } else {
      OutcomesFromMembers(i, j + 1, o);
      assert OutcomesFrom(i, j) == [RollValues(i, j)] + OutcomesFrom(i, j + 1);
      if o in OutcomesFrom(i, j) {
        if o == RollValues(i, j) {
          assert ((i == i && j <= j) || i < i <= j) && j <= 6 && o == RollValues(i, j);
        } else {
          var a, c :| ((a == i && j + 1 <= c) || i < a <= c) && c <= 6 && o == RollValues(a, c);
          assert ((a == i && j <= c) || i < a <= c) && c <= 6 && o == RollValues(a, c);
        }
      } else {
        forall a, c | ((a == i && j <= c) || i < a <= c) && c <= 6
          ensures o != RollValues(a, c)
        {
          if a == i && c == j {
          } else {
            assert !(((a == i && j + 1 <= c) || i < a <= c) && c <= 6 && o == RollValues(a, c));
          }
        }
      }
    }
  }

  /** `GenerateAllDiceOutcomes` lists 21 outcomes: every double once, as four
      equal values, and every pair of different values once, smaller first. */
  lemma AllOutcomesSpec()
    ensures |AllOutcomes()| == 21
    ensures forall a :: RollValues(a, a) == [a, a, a, a]
    ensures forall o :: o in AllOutcomes() <==>
      (exists a :: 1 <= a <= 6 && o == RollValues(a, a)) ||
      (exists a, c :: 1 <= a < c <= 6 && o == RollValues(a, c))
  {
    OutcomesFromCount(1, 1);
    assert Triangle(5) == 15;
    forall o
      ensures o in AllOutcomes() <==>
        (exists a :: 1 <= a <= 6 && o == RollValues(a, a)) ||
        (exists a, c :: 1 <= a < c <= 6 && o == RollValues(a, c))
    {
      OutcomesFromMembers(1, 1, o);
      if o in AllOutcomes() {
        var a, c :| ((a == 1 && 1 <= c) || 1 < a <= c) && c <= 6 && o == RollValues(a, c);
        if a == c {
          assert 1 <= a <= 6 && o == RollValues(a, a);
        } else {
          assert 1 <= a < c <= 6 && o == RollValues(a, c);
        }
      } else {
        forall a | 1 <= a <= 6
          ensures o != RollValues(a, a)
        {
          assert !(((a == 1 && 1 <= a) || 1 < a <= a) && a <= 6 && o == RollValues(a, a));
        }
        forall a, c | 1 <= a < c <= 6
          ensures o != RollValues(a, c)
        {
          assert !(((a == 1 && 1 <= c) || 1 < a <= c) && c <= 6 && o == RollValues(a, c));
        }
      }
    }
  }

  // ----- RemoveUsedDie -----

  /** The value `Recurse` removes from the remaining dice after a move:
      `Math.Abs(From - To)`. */
  function UsedDie(m: Move): nat
  {
    if m.from >= m.to then m.from - m.to else m.to - m.from
  }

  /** `RemoveUsedDie` is `List.Remove` on a copy: when the value occurs, its
      first occurrence is dropped and everything before and after it stays in
      order; otherwise the copy equals the input. */
  lemma RemoveUsedDie(dice: seq<int>, v: int)
    ensures v !in dice ==> RemoveFirst(dice, v) == dice
    ensures v in dice ==> exists k ::
      && 0 <= k < |dice| && dice[k] == v && v !in dice[..k]
      && RemoveFirst(dice, v) == dice[..k] + dice[k + 1..]
  {
    if v in dice {
      var k := FirstIndex(dice, v);
      assert dice == dice[..k] + [v] + dice[k + 1..];
      RemoveFirstSplit(dice[..k], v, dice[k + 1..]);
    }
  }

  // ----- GenerateMoves -----

  /** The first point of the quadrant a player enters into. */
  function EntryBase(player: Color): int
  {
    if player == White then 1 else 19
  }

  /** The entry moves of one die over the first `n` points of the entry
      quadrant, in increasing order. */
  function EntryMoves(b: Board, player: Color, die: int, n: nat): seq<Move>
    requires n <= 6
  {
    if n == 0 then []
    else
      var to := EntryBase(player) + n - 1;
      EntryMoves(b, player, die, n - 1) + (if IsValidBarMove(b, player, to, die) then [Move(0, to)] else [])
  }

  /** The bar branch over the first `k` dice values. */
  function BarMoves(b: Board, player: Color, dice: seq<int>, k: nat): seq<Move>
    requires k <= |dice|
  {
    if k == 0 then [] else BarMoves(b, player, dice, k - 1) + EntryMoves(b, player, dice[k - 1], 6)
  }

  /** The point a die leads to from `i`: forward for White, backward for
      Black. */
  function Target(player: Color, i: int, die: int): int
  {
    if player == White then i + die else i - die
  }

  /** What one die adds for an owned point `i`: the step, if `GameUtils`
      accepts it, then a bear-off, if `CanBearOffFromIndex` accepts it for the
      whole list of dice. */
  function DieMoves(b: Board, player: Color, i: int, die: int, dice: seq<int>): seq<Move>
  {
    (if IsMoveValid(b, player, i, Target(player, i, die), die) then [Move(i, Target(player, i, die))] else [])
    + (if CanBearOffFromIndex(b, player, i, dice) then [Move(i, -1)] else [])
  }

  /** The moves of point `i` for the first `k` dice values. */
  function PointMoves(b: Board, player: Color, i: int, dice: seq<int>, k: nat): seq<Move>
    requires k <= |dice|
  {
    if k == 0 then [] else PointMoves(b, player, i, dice, k - 1) + DieMoves(b, player, i, dice[k - 1], dice)
  }

  /** The board branch over points 1 to `n`. */
  function BoardMoves(b: Board, player: Color, dice: seq<int>, n: nat): seq<Move>
    requires n <= 24
  {
    if n == 0 then []
    else
      BoardMoves(b, player, dice, n - 1)
      + (if StackOwner(Stack(b, n)) == Some(player) then PointMoves(b, player, n, dice, |dice|) else [])
  }

  /** The moves `GenerateMoves` lists, in its order. */
  function Moves(b: Board, player: Color, dice: seq<int>): seq<Move>
  {
    if Bar(b, player) != [] then BarMoves(b, player, dice, |dice|) else BoardMoves(b, player, dice, 24)
  }

  method GenerateMoves(b: Board, player: Color, dice: seq<int>) returns (moves: seq<Move>)
    ensures moves == Moves(b, player, dice)
  {
    hide IsMoveValid, CanBearOffFromIndex, IsValidBarMove;
    if |Bar(b, player)| > 0 {
      moves := GenerateEntries(b, player, dice);
      return;
    }
    moves := [];
    for i := 1 to 25
      invariant moves == BoardMoves(b, player, dice, i - 1)
    {
      if StackOwner(Stack(b, i)) == Some(player) {
        var pointMoves := GeneratePointMoves(b, player, i, dice);
        moves := moves + pointMoves;
      }
    }
  }

  /** The body of the point loop of `GenerateMoves` for an owned point `i`:
      for each die, the step in the player's direction if valid, then the
      bear-off if allowed. */
  method GeneratePointMoves(b: Board, player: Color, i: int, dice: seq<int>) returns (moves: seq<Move>)
    ensures moves == PointMoves(b, player, i, dice, |dice|)
  {
    hide IsMoveValid, CanBearOffFromIndex;
    moves := [];
    for k := 0 to |dice|
      invariant moves == PointMoves(b, player, i, dice, k)
    {
      ghost var before := moves;
      var die := dice[k];
      var forwardIndex := i + die;
      var backwardIndex := i - die;
      if player == White {
        if IsMoveValid(b, player, i, forwardIndex, die) {
          moves := moves + [Move(i, forwardIndex)];
        }
      } else {
        if IsMoveValid(b, player, i, backwardIndex, die) {
          moves := moves + [Move(i, backwardIndex)];
        }
      }
      if CanBearOffFromIndex(b, player, i, dice) {
        moves := moves + [Move(i, -1)];
      }
      assert moves == before + DieMoves(b, player, i, die, dice);
    }
  }

  /** The bar branch of `GenerateMoves`: for each die, each point of the
      entry quadrant in increasing order that `IsValidBarMove` accepts. */
  method GenerateEntries(b: Board, player: Color, dice: seq<int>) returns (moves: seq<Move>)
    ensures moves == BarMoves(b, player, dice, |dice|)
  {
    hide IsValidBarMove;
    moves := [];
    for k := 0 to |dice|
      invariant moves == BarMoves(b, player, dice, k)
    {
      var lo := if player == White then 1 else 19;
      for to := lo to lo + 6
        invariant moves == BarMoves(b, player, dice, k) + EntryMoves(b, player, dice[k], to - lo)
      {
        if IsValidBarMove(b, player, to, dice[k]) {
          moves := moves + [Move(0, to)];
        }
      }
    }
  }

  lemma {:induction false} EntryMovesMembers(b: Board, player: Color, die: int, n: nat, m: Move)
    requires n <= 6
    ensures m in EntryMoves(b, player, die, n) <==>
      m.from == 0 && EntryBase(player) <= m.to < EntryBase(player) + n && IsValidBarMove(b, player, m.to, die)
  {
    if n > 0 {
      EntryMovesMembers(b, player, die, n - 1, m);
    }
  }

  /** A valid entry lands in the entry quadrant. */
  lemma EntryInQuadrant(b: Board, player: Color, to: int, die: int)
    requires IsValidBarMove(b, player, to, die)
    ensures EntryBase(player) <= to < EntryBase(player) + 6
  {
  }

  /** With an empty bar, a valid step lands on a point. */
  lemma StepOnBoard(b: Board, player: Color, from: int, to: int, die: int)
    requires Bar(b, player) == [] && IsMoveValid(b, player, from, to, die)
    ensures OnBoard(to)
  {
  }

  /** A bear-off needs some die value. */
  lemma BearOffNeedsDice(b: Board, player: Color, i: int, dice: seq<int>)
    requires CanBearOffFromIndex(b, player, i, dice)
    ensures dice != []
  {
  }

  lemma {:induction false} BarMovesMembers(b: Board, player: Color, dice: seq<int>, k: nat, m: Move)
    requires k <= |dice|
    ensures m in BarMoves(b, player, dice, k) <==>
      m.from == 0 && exists d :: d in dice[..k] && IsValidBarMove(b, player, m.to, d)
  {
    hide IsValidBarMove;
    if k > 0 {
      BarMovesMembers(b, player, dice, k - 1, m);
      EntryMovesMembers(b, player, dice[k - 1], 6, m);
      assert dice[..k] == dice[..k - 1] + [dice[k - 1]];
      if m.from == 0 && IsValidBarMove(b, player, m.to, dice[k - 1]) {
        EntryInQuadrant(b, player, m.to, dice[k - 1]);
      }
    }
  }

  /** With a checker on the bar, `GenerateMoves` lists exactly the entries
      from index 0 that `GameUtils.IsValidBarMove` accepts for some die, and
      each lands in the entry quadrant (White 1-6, Black 19-24). */
  lemma MovesOnBar(b: Board, player: Color, dice: seq<int>, m: Move)
    requires Bar(b, player) != []
    ensures m in Moves(b, player, dice) <==>
      m.from == 0 && exists d :: d in dice && IsValidBarMove(b, player, m.to, d)
    ensures m in Moves(b, player, dice) ==>
      if player == White then 1 <= m.to <= 6 else 19 <= m.to <= 24
  {
    BarMovesMembers(b, player, dice, |dice|, m);
    assert dice[..|dice|] == dice;
  }

  /** The two kinds of move an owned point `i` yields: a valid step by some
      die, or a bear-off. */
  predicate PointMove(b: Board, player: Color, dice: seq<int>, m: Move)
  {
    || (exists d :: d in dice && m.to == Target(player, m.from, d) && IsMoveValid(b, player, m.from, m.to, d))
    || (m.to == -1 && CanBearOffFromIndex(b, player, m.from, dice))
  }

  lemma DieMovesMembers(b: Board, player: Color, i: int, die: int, dice: seq<int>, m: Move)
    ensures m in DieMoves(b, player, i, die, dice) <==>
      m.from == i && (
        || (m.to == Target(player, i, die) && IsMoveValid(b, player, i, m.to, die))
        || (m.to == -1 && CanBearOffFromIndex(b, player, i, dice)))
  {
    hide IsMoveValid, CanBearOffFromIndex;
  }

  lemma {:induction false} PointMovesMembers(b: Board, player: Color, i: int, dice: seq<int>, k: nat, m: Move)
    requires k <= |dice|
    ensures m in PointMoves(b, player, i, dice, k) <==>
      m.from == i && (
        || (exists d :: d in dice[..k] && m.to == Target(player, i, d) && IsMoveValid(b, player, i, m.to, d))
        || (k > 0 && m.to == -1 && CanBearOffFromIndex(b, player, i, dice)))
  {
    hide IsMoveValid, CanBearOffFromIndex, DieMoves;
    if k > 0 {
      var d0 := dice[k - 1];
      var prev := PointMoves(b, player, i, dice, k - 1);
      var dm := DieMoves(b, player, i, d0, dice);
      PointMovesMembers(b, player, i, dice, k - 1, m);
      DieMovesMembers(b, player, i, d0, dice, m);
      assert PointMoves(b, player, i, dice, k) == prev + dm;
      assert dice[..k] == dice[..k - 1] + [d0];
      if m.from == i && m.to == Target(player, i, d0) && IsMoveValid(b, player, i, m.to, d0) {
        assert d0 in dice[..k];
      }
      if exists d :: d in dice[..k - 1] && m.to == Target(player, i, d) && IsMoveValid(b, player, i, m.to, d) {
        var d :| d in dice[..k - 1] && m.to == Target(player, i, d) && IsMoveValid(b, player, i, m.to, d);
        assert d in dice[..k];
      }
      if exists d :: d in dice[..k] && m.to == Target(player, i, d) && IsMoveValid(b, player, i, m.to, d) {
        var d :| d in dice[..k] && m.to == Target(player, i, d) && IsMoveValid(b, player, i, m.to, d);
        assert d == d0 || d in dice[..k - 1];
      }
    }
  }

  /** The moves of an owned point for all the dice are its point moves. */
  lemma PointMovesAll(b: Board, player: Color, i: int, dice: seq<int>, m: Move)
    ensures m in PointMoves(b, player, i, dice, |dice|) <==> m.from == i && PointMove(b, player, dice, m)
  {
    hide IsMoveValid, CanBearOffFromIndex;
    PointMovesMembers(b, player, i, dice, |dice|, m);
    assert dice[..|dice|] == dice;
    if m.to == -1 && CanBearOffFromIndex(b, player, i, dice) {
      BearOffNeedsDice(b, player, i, dice);
    }
  }

  lemma {:induction false} BoardMovesMembers(b: Board, player: Color, dice: seq<int>, n: nat, m: Move)
    requires n <= 24
    ensures m in BoardMoves(b, player, dice, n) <==>
      1 <= m.from <= n && StackOwner(Stack(b, m.from)) == Some(player) && PointMove(b, player, dice, m)
  {
    hide IsMoveValid, CanBearOffFromIndex, PointMove, PointMoves;
    if n > 0 {
      var prev := BoardMoves(b, player, dice, n - 1);
      var here := if StackOwner(Stack(b, n)) == Some(player) then PointMoves(b, player, n, dice, |dice|) else [];
      assert BoardMoves(b, player, dice, n) == prev + here;
      BoardMovesMembers(b, player, dice, n - 1, m);
      PointMovesAll(b, player, n, dice, m);
    }
  }

  /** With an empty bar, `GenerateMoves` lists exactly the moves from an
      owned point that are either a `GameUtils`-valid step by a die in the
      player's direction or a bear-off `CanBearOffFromIndex` allows. */
  lemma MovesOffBar(b: Board, player: Color, dice: seq<int>, m: Move)
    requires Bar(b, player) == []
    ensures m in Moves(b, player, dice) <==>
      OnBoard(m.from) && StackOwner(Stack(b, m.from)) == Some(player) && PointMove(b, player, dice, m)
  {
    BoardMovesMembers(b, player, dice, 24, m);
  }

  /** Number of occurrences of `m` in `s`. */
  function Occurrences(s: seq<Move>, m: Move): nat
  {
    multiset(s)[m]
  }

  lemma DieMovesBearOff(b: Board, player: Color, i: int, die: int, dice: seq<int>)
    requires Bar(b, player) == [] && CanBearOffFromIndex(b, player, i, dice)
    ensures multiset(DieMoves(b, player, i, die, dice))[Move(i, -1)] == 1
  {
    hide IsMoveValid, CanBearOffFromIndex;
    var t := Target(player, i, die);
    if IsMoveValid(b, player, i, t, die) {
      StepOnBoard(b, player, i, t, die);
      assert DieMoves(b, player, i, die, dice) == [Move(i, t), Move(i, -1)];
    } else {
      assert DieMoves(b, player, i, die, dice) == [Move(i, -1)];
    }
  }

  lemma {:induction false} PointMovesBearOffs(b: Board, player: Color, i: int, dice: seq<int>, k: nat)
    requires k <= |dice| && Bar(b, player) == [] && CanBearOffFromIndex(b, player, i, dice)
    ensures Occurrences(PointMoves(b, player, i, dice, k), Move(i, -1)) == k
  {
    hide IsMoveValid, CanBearOffFromIndex, DieMoves;
    if k > 0 {
      PointMovesBearOffs(b, player, i, dice, k - 1);
      var dm := DieMoves(b, player, i, dice[k - 1], dice);
      DieMovesBearOff(b, player, i, dice[k - 1], dice);
      var prev := PointMoves(b, player, i, dice, k - 1);
      assert PointMoves(b, player, i, dice, k) == prev + dm;
      assert multiset(prev + dm) == multiset(prev) + multiset(dm);
    }
  }

  lemma {:induction false} BoardMovesBearOffs(b: Board, player: Color, dice: seq<int>, i: int, n: nat)
    requires n <= 24 && OnBoard(i) && Bar(b, player) == []
    requires StackOwner(Stack(b, i)) == Some(player) && CanBearOffFromIndex(b, player, i, dice)
    ensures Occurrences(BoardMoves(b, player, dice, n), Move(i, -1)) == if i <= n then |dice| else 0
  {
    hide IsMoveValid, CanBearOffFromIndex, PointMoves;
    if n > 0 {
      var m := Move(i, -1);
      BoardMovesBearOffs(b, player, dice, i, n - 1);
      var prev := BoardMoves(b, player, dice, n - 1);
      var here := if StackOwner(Stack(b, n)) == Some(player) then PointMoves(b, player, n, dice, |dice|) else [];
      assert BoardMoves(b, player, dice, n) == prev + here;
      assert multiset(prev + here)[m] == multiset(prev)[m] + multiset(here)[m];
      if n == i {
        PointMovesBearOffs(b, player, i, dice, |dice|);
      } else if StackOwner(Stack(b, n)) == Some(player) {
        PointMovesMembers(b, player, n, dice, |dice|, m);
        assert m !in here;
      }
    }
  }

  /** A bear-off is listed once per die value, duplicates included. */
  lemma BearOffPerDie(b: Board, player: Color, dice: seq<int>, i: int)
    requires OnBoard(i) && Bar(b, player) == []
    requires StackOwner(Stack(b, i)) == Some(player) && CanBearOffFromIndex(b, player, i, dice)
    ensures Occurrences(Moves(b, player, dice), Move(i, -1)) == |dice|
  {
    BoardMovesBearOffs(b, player, dice, i, 24);
  }

  /** The die a generated move consumes, `|From - To|`, is the die itself
      for White's entries and for every step; Black's entries (to 19..24) and
      White's bear-offs (`From + 1`, at least 20) consume a value no die
      shows; Black's bear-offs consume `From + 1`. */
  lemma UsedDieOfMove(b: Board, player: Color, dice: seq<int>, m: Move)
    requires m in Moves(b, player, dice)
    ensures Bar(b, player) != [] ==> m.from == 0 && (player == White ==> m.to in dice && UsedDie(m) == m.to)
    ensures Bar(b, player) != [] && player == Black ==> UsedDie(m) >= 19
    ensures Bar(b, player) == [] && m.to == -1 ==> UsedDie(m) == m.from + 1
    ensures Bar(b, player) == [] && m.to == -1 && player == White ==> UsedDie(m) >= 20
    ensures Bar(b, player) == [] && m.to != -1 ==> exists d :: d in dice && UsedDie(m) == d
  {
    if Bar(b, player) != [] {
      MovesOnBar(b, player, dice, m);
    } else {
      MovesOffBar(b, player, dice, m);
      if m.to == -1 {
        if player == White {
          assert m.from in Home(White);
        }
      } else {
        var d :| d in dice && m.to == Target(player, m.from, d) && IsMoveValid(b, player, m.from, m.to, d);
        assert UsedDie(m) == d by {
          MoveDirection(b, player, m.from, m.to, d);
        }
      }
    }
  }

  /** The die an entry to `to` is played with: the one whose entry point is
      `to` (`to` for White, `25 - to` for Black). */
  function EntryDie(player: Color, to: int): int
  {
    if player == White then to else 25 - to
  }

  /** With the entry die in place of `|From - To|`, every generated entry
      consumes one of the rolled dice, so the dice left shrink by one. */
  lemma EntryUsesDie(b: Board, player: Color, dice: seq<int>, m: Move)
    requires Bar(b, player) != [] && m in Moves(b, player, dice)
    ensures EntryDie(player, m.to) in dice && EntryPoint(player, EntryDie(player, m.to)) == m.to
    ensures |RemoveFirst(dice, EntryDie(player, m.to))| == |dice| - 1
  {
    MovesOnBar(b, player, dice, m);
    var d :| d in dice && IsValidBarMove(b, player, m.to, d);
    assert EntryDie(player, m.to) == d;
    RemoveUsedDie(dice, d);
  }

  // ----- SimulateMove -----

  /** A step on the copy: the source's top checker is lifted; a blot on the
      destination is lifted, given position 0 and pushed on its own colour's
      bar; then the checker takes position `to` and is pushed there. */
  function SimulateStep(b: Board, player: Color, from: int, to: int): Board
    requires OnBoard(from) && OnBoard(to) && Stack(b, from) != []
  {
    var s := Stack(b, from);
    var b1 := WithStack(b, from, s[..|s| - 1]);
    var t := Stack(b1, to);
    var b2 :=
      if StackIsBlot(t, player) then
        WithBar(WithStack(b1, to, []), t[0].color, Bar(b1, t[0].color) + [t[0].WithPosition(SearchHitPosition)])
      else b1;
    WithStack(b2, to, Stack(b2, to) + [s[|s| - 1].WithPosition(to)])
  }

  /** `SimulateMove(board, player, src, dst)` on values: the searched board
      afterwards, then the copy with the move made. An entry pops the
      searched board's bar and pushes that checker on the copy's point, whose
      bar keeps it; no blot is hit on entry. A bear-off pops the copy's point
      (nothing, if it is empty). An index outside the points, or a checker
      popped from an empty bar or point and then dereferenced, is a crash. */
  function SimulateMove(b: Board, player: Color, m: Move): Outcome<(Board, Board)>
  {
    if m.from == 0 then
      var s := Bar(b, player);
      if s == [] || !OnBoard(m.to) then Failed(Crash)
      else
        Done((WithBar(b, player, s[..|s| - 1]), WithStack(b, m.to, Stack(b, m.to) + [s[|s| - 1].WithPosition(m.to)])))
    else if m.to == -1 then
      if !OnBoard(m.from) then Failed(Crash)
      else
        var s := Stack(b, m.from);
        Done((b, if s == [] then b else WithStack(b, m.from, s[..|s| - 1])))
    else if !OnBoard(m.from) || !OnBoard(m.to) || Stack(b, m.from) == [] then Failed(Crash)
    else Done((b, SimulateStep(b, player, m.from, m.to)))
  }

  /** Simulating never changes the points of the searched board, and changes
      its bar only on an entry. */
  lemma SimulateKeepsSearchedPoints(b: Board, player: Color, m: Move)
    requires SimulateMove(b, player, m).Done?
    ensures SimulateMove(b, player, m).value.0.points == b.points
    ensures m.from != 0 ==> SimulateMove(b, player, m).value.0 == b
  {
  }

  /** An entry as written: the searched board loses its top bar checker,
      while the copy keeps it on its bar and gains a copy of it on the
      point, so the copy holds one checker more than the board it came from. */
  lemma SimulateEntryDuplicates(b: Board, player: Color, to: int)
    requires Bar(b, player) != [] && OnBoard(to)
    ensures var s := Bar(b, player);
      var r := SimulateMove(b, player, Move(0, to));
      && r.Done?
      && Contents(r.value.0) == Contents(b) - multiset{s[|s| - 1]}
      && Contents(r.value.1) == Contents(b) + multiset{s[|s| - 1].WithPosition(to)}
      && Bar(r.value.1, player) == s
      && Count(r.value.1) == Count(b) + 1
  {
    var s := Bar(b, player);
    PopBarContents(b, player);
    PushContents(b, to, s[|s| - 1].WithPosition(to));
  }

  /** A simulated bear-off from a non-empty point removes that point's top
      checker from the copy. */
  lemma SimulateBearOffRemoves(b: Board, player: Color, from: int)
    requires OnBoard(from) && Stack(b, from) != []
    ensures var s := Stack(b, from);
      var r := SimulateMove(b, player, Move(from, -1));
      && r.Done?
      && Contents(r.value.1) == Contents(b) - multiset{s[|s| - 1]}
      && Count(r.value.1) == Count(b) - 1
  {
    PopContents(b, from);
  }

  /** A simulated step keeps every checker: the mover reappears at `to`, and
      a hit blot reappears at position 0 on its own bar. */
  lemma {:induction false} SimulateStepContents(b: Board, player: Color, from: int, to: int)
    requires OnBoard(from) && OnBoard(to) && Stack(b, from) != []
    ensures var s := Stack(b, from);
      var c := s[|s| - 1];
      var t := Stack(WithStack(b, from, s[..|s| - 1]), to);
      var r := SimulateStep(b, player, from, to);
      && (!StackIsBlot(t, player) ==> Contents(r) == Contents(b) - multiset{c} + multiset{c.WithPosition(to)})
      && (StackIsBlot(t, player) ==>
            Contents(r) == Contents(b) - multiset{c} - multiset{t[0]} + multiset{t[0].WithPosition(SearchHitPosition)} + multiset{c.WithPosition(to)})
      && Count(r) == Count(b)
  {
    hide Contents, Flatten;
    var s := Stack(b, from);
    var c := s[|s| - 1];
    var c' := c.WithPosition(to);
    var b1 := WithStack(b, from, s[..|s| - 1]);
    PopContents(b, from);
    assert Contents(b1) == Contents(b) - multiset{c} && c in Contents(b);
    var t := Stack(b1, to);
    var r := SimulateStep(b, player, from, to);
    if StackIsBlot(t, player) {
      var h := t[0];
      var h' := h.WithPosition(SearchHitPosition);
      var bh := WithStack(b1, to, []);
      assert t == [h];
      WithStackContents(b1, to, []);
      InStack(b1, to, h);
      assert Contents(bh) == Contents(b1) - multiset{h};
      var b2 := WithBar(bh, h.color, Bar(bh, h.color) + [h']);
      BarPushContents(bh, h.color, h');
      assert Stack(b2, to) == [];
      assert r == WithStack(b2, to, Stack(b2, to) + [c']);
      PushContents(b2, to, c');
      assert Contents(r) == Contents(b) - multiset{c} - multiset{h} + multiset{h'} + multiset{c'};
      assert h in Contents(b) - multiset{c};
    } else {
      assert r == WithStack(b1, to, Stack(b1, to) + [c']);
      PushContents(b1, to, c');
    }
  }

  lemma InStack(b: Board, i: int, x: Checker)
    requires OnBoard(i) && x in Stack(b, i)
    ensures x in Contents(b)
  {
    WithStackContents(b, i, []);
  }
}
