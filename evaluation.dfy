/** Core/AI/AI.cs `EvaluateBoard`: the score of a board from one player's side.
    Each checker on a point counts its point's distance for its colour
    (`25 - index` for White, `index` for Black), each checker on a bar counts
    25, and the score is the player's total minus the opponent's.

    With White moving towards index 24 and Black towards index 1, that total
    is the distance a colour still has to travel, so the score grows as the
    player falls behind: a step forward, a hit and a bear-off all lower it,
    and the lemmas below state by how much. */
module Evaluation {

  import opened Checkers
  import opened Points
  import opened Boards
  import opened Rules
  import opened MoveGen

  /** The distance a checker of colour `c` on point `i` counts. */
  function Distance(c: Color, i: int): int
  {
    if c == White then 25 - i else i
  }

  /** The checkers of colour `c` in `s`, each counting `d`, added up in stack
      order. */
  function StackDistance(s: seq<Checker>, c: Color, d: int): int
  {
    if s == [] then 0
    else StackDistance(s[..|s| - 1], c, d) + (if s[|s| - 1].color == c then d else 0)
  }

  /** The distances of colour `c` on points 1 to `n`. */
  function PointsDistance(points: seq<seq<Checker>>, c: Color, n: nat): int
    requires n <= |points|
  {
    if n == 0 then 0
    else PointsDistance(points, c, n - 1) + StackDistance(points[n - 1], c, Distance(c, n))
  }

  /** `whiteDistance` or `blackDistance`: the points, then 25 per checker on
      the colour's bar. */
  function PipCount(b: Board, c: Color): int
  {
    PointsDistance(b.points, c, 24) + |Bar(b, c)| * 25
  }

  function Evaluate(b: Board, player: Color): int
  {
    if player == White then PipCount(b, White) - PipCount(b, Black)
    else PipCount(b, Black) - PipCount(b, White)
  }

  /** The two nested loops over the points and their checkers, for one colour. */
  method SumDistance(b: Board, c: Color) returns (distance: int)
    ensures distance == PointsDistance(b.points, c, 24)
  {
    distance := 0;
    for i := 1 to 25
      invariant distance == PointsDistance(b.points, c, i - 1)
    {
      var checkers := Stack(b, i);
      for j := 0 to |checkers|
        invariant distance == PointsDistance(b.points, c, i - 1) + StackDistance(checkers[..j], c, Distance(c, i))
      {
        assert checkers[..j + 1][..j] == checkers[..j];
        if checkers[j].color == c {
          distance := distance + Distance(c, i);
        }
      }
      assert checkers[..|checkers|] == checkers;
    }
  }

  method EvaluateBoard(currentPlayer: Color, b: Board) returns (score: int)
    ensures score == Evaluate(b, currentPlayer)
    ensures score == -Evaluate(b, Opponent(currentPlayer))
  {
    var whiteDistance := SumDistance(b, White);
    whiteDistance := whiteDistance + |b.whiteBar| * 25;
    var blackDistance := SumDistance(b, Black);
    blackDistance := blackDistance + |b.blackBar| * 25;
    if currentPlayer == White {
      return whiteDistance - blackDistance;
    }
    return blackDistance - whiteDistance;
  }

  // ----- how one change of the board moves the score -----

  lemma {:induction false} StackDistancePush(s: seq<Checker>, x: Checker, c: Color, d: int)
    ensures StackDistance(s + [x], c, d) == StackDistance(s, c, d) + (if x.color == c then d else 0)
  {
    assert (s + [x])[..|s|] == s;
  }

  /** Replacing the stack of point `k + 1` changes the sum by that point's
      difference alone. */
  lemma {:induction false} PointsDistanceUpdate(points: seq<seq<Checker>>, k: nat, s: seq<Checker>, c: Color, n: nat)
    requires k < |points| && n <= |points|
    ensures PointsDistance(points[k := s], c, n) == PointsDistance(points, c, n) +
      (if k < n then StackDistance(s, c, Distance(c, k + 1)) - StackDistance(points[k], c, Distance(c, k + 1)) else 0)
  {
    if n > 0 {
      PointsDistanceUpdate(points, k, s, c, n - 1);
    }
  }

  /** Replacing the stack of point `i` changes a colour's count by that
      point's difference alone; the bars do not enter. */
  lemma PipCountWithStack(b: Board, i: int, s: seq<Checker>, c: Color)
    requires OnBoard(i)
    ensures PipCount(WithStack(b, i, s), c) == PipCount(b, c) +
      StackDistance(s, c, Distance(c, i)) - StackDistance(Stack(b, i), c, Distance(c, i))
  {
    PointsDistanceUpdate(b.points, i - 1, s, c, 24);
  }

  /** A colour's count is 0 exactly when none of its checkers is on a point
      or on its bar. */
  lemma {:induction false} StackDistanceZero(s: seq<Checker>, c: Color, d: int)
    requires d > 0
    ensures StackDistance(s, c, d) >= 0
    ensures StackDistance(s, c, d) == 0 <==> forall x :: x in s ==> x.color != c
  {
    if s != [] {
      StackDistanceZero(s[..|s| - 1], c, d);
      assert s == s[..|s| - 1] + [s[|s| - 1]];
    }
  }

  lemma {:induction false} PointsDistanceZero(points: seq<seq<Checker>>, c: Color, n: nat)
    requires n <= |points| <= 24
    ensures PointsDistance(points, c, n) >= 0
    ensures PointsDistance(points, c, n) == 0 <==>
      forall k, x :: 0 <= k < n && x in points[k] ==> x.color != c
  {
    if n > 0 {
      PointsDistanceZero(points, c, n - 1);
      StackDistanceZero(points[n - 1], c, Distance(c, n));
    }
  }

  lemma PipCountZero(b: Board, c: Color)
    ensures PipCount(b, c) >= 0
    ensures PipCount(b, c) == 0 <==>
      Bar(b, c) == [] && forall i, x :: OnBoard(i) && x in Stack(b, i) ==> x.color != c
  {
    PointsDistanceZero(b.points, c, 24);
    if PipCount(b, c) == 0 {
      forall i, x | OnBoard(i) && x in Stack(b, i)
        ensures x.color != c
      {
        assert x in b.points[i - 1];
      }
    }
    if Bar(b, c) == [] && forall i, x :: OnBoard(i) && x in Stack(b, i) ==> x.color != c {
      forall k, x | 0 <= k < 24 && x in b.points[k]
        ensures x.color != c
      {
        assert x in Stack(b, k + 1);
      }
    }
  }

  /** The searched step from `from` to `to` of a checker of `player`: the
      player's count changes by the distance travelled, and a hit blot of the
      opponent goes from its point's distance to the bar's 25. */
  lemma {:induction false} SimulateStepScore(b: Board, player: Color, from: int, to: int)
    requires OnBoard(from) && OnBoard(to) && from != to
    requires Stack(b, from) != [] && Stack(b, from)[|Stack(b, from)| - 1].color == player
    ensures var t := Stack(b, to);
      Evaluate(SimulateStep(b, player, from, to), player) ==
        Evaluate(b, player) - (Distance(player, from) - Distance(player, to))
        - (if StackIsBlot(t, player) then 25 - Distance(Opponent(player), to) else 0)
  {
    var opp := Opponent(player);
    var s := Stack(b, from);
    var x := s[|s| - 1];
    var b1 := WithStack(b, from, s[..|s| - 1]);
    assert s == s[..|s| - 1] + [x];
    StackDistancePush(s[..|s| - 1], x, player, Distance(player, from));
    StackDistancePush(s[..|s| - 1], x, opp, Distance(opp, from));
    PipCountWithStack(b, from, s[..|s| - 1], player);
    PipCountWithStack(b, from, s[..|s| - 1], opp);
    var t := Stack(b1, to);
    assert t == Stack(b, to);
    var moved := x.WithPosition(to);
    if StackIsBlot(t, player) {
      var y := t[0];
      assert y.color == opp;
      var b0 := WithStack(b1, to, []);
      var b2 := WithBar(b0, opp, Bar(b1, opp) + [y.WithPosition(SearchHitPosition)]);
      assert t == [] + [y];
      StackDistancePush([], y, player, Distance(player, to));
      StackDistancePush([], y, opp, Distance(opp, to));
      PipCountWithStack(b1, to, [], player);
      PipCountWithStack(b1, to, [], opp);
      assert Stack(b2, to) == [];
      StackDistancePush([], moved, player, Distance(player, to));
      StackDistancePush([], moved, opp, Distance(opp, to));
      PipCountWithStack(b2, to, [moved], player);
      PipCountWithStack(b2, to, [moved], opp);
      assert SimulateStep(b, player, from, to) == WithStack(b2, to, [] + [moved]);
    } else {
      StackDistancePush(t, moved, player, Distance(player, to));
      StackDistancePush(t, moved, opp, Distance(opp, to));
      PipCountWithStack(b1, to, t + [moved], player);
      PipCountWithStack(b1, to, t + [moved], opp);
    }
  }

  /** A valid step by die `die` lowers the mover's score by `die`, and a hit
      lowers it further by the distance the hit checker had left. */
  lemma ValidStepLowersScore(b: Board, player: Color, from: int, to: int, die: int)
    requires Bar(b, player) == [] && die >= 0 && IsMoveValid(b, player, from, to, die)
    requires Stack(b, from)[|Stack(b, from)| - 1].color == player
    ensures var t := Stack(b, to);
      Evaluate(SimulateStep(b, player, from, to), player) ==
        Evaluate(b, player) - die - (if StackIsBlot(t, player) then 25 - Distance(Opponent(player), to) else 0)
    ensures Evaluate(SimulateStep(b, player, from, to), player) < Evaluate(b, player)
  {
    MoveDirection(b, player, from, to, die);
    SimulateStepScore(b, player, from, to);
  }

  /** Bearing a checker of `player` off the copy lowers the mover's score by
      the distance that checker had left. */
  lemma SimulateBearOffScore(b: Board, player: Color, from: int)
    requires OnBoard(from) && Stack(b, from) != []
    requires Stack(b, from)[|Stack(b, from)| - 1].color == player
    ensures SimulateMove(b, player, Move(from, -1)).Done?
    ensures Evaluate(SimulateMove(b, player, Move(from, -1)).value.1, player) ==
      Evaluate(b, player) - Distance(player, from)
  {
    var s := Stack(b, from);
    assert s == s[..|s| - 1] + [s[|s| - 1]];
    StackDistancePush(s[..|s| - 1], s[|s| - 1], player, Distance(player, from));
    StackDistancePush(s[..|s| - 1], s[|s| - 1], Opponent(player), Distance(Opponent(player), from));
    PipCountWithStack(b, from, s[..|s| - 1], player);
    PipCountWithStack(b, from, s[..|s| - 1], Opponent(player));
  }

  /** An entry as simulated keeps the checker on the copy's bar and adds it
      on the point too, so the copy scores higher than the board it came
      from by the point's distance. */
  lemma SimulateEntryScore(b: Board, player: Color, to: int)
    requires OnBoard(to) && Bar(b, player) != []
    requires Bar(b, player)[|Bar(b, player)| - 1].color == player
    ensures SimulateMove(b, player, Move(0, to)).Done?
    ensures Evaluate(SimulateMove(b, player, Move(0, to)).value.1, player) ==
      Evaluate(b, player) + Distance(player, to)
  {
    var s := Bar(b, player);
    var x := s[|s| - 1].WithPosition(to);
    StackDistancePush(Stack(b, to), x, player, Distance(player, to));
    StackDistancePush(Stack(b, to), x, Opponent(player), Distance(Opponent(player), to));
    PipCountWithStack(b, to, Stack(b, to) + [x], player);
    PipCountWithStack(b, to, Stack(b, to) + [x], Opponent(player));
  }
}
