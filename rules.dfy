/** Core/GameUtils.cs: the stateless rules, as predicates over a board value,
    the player's colour and the dice values. */
module Rules {

  import opened Wrappers
  import opened Checkers
  import opened Points
  import opened Boards

  /** The home quadrant: White bears off from 19..24, Black from 1..6. */
  function Home(player: Color): (r: seq<int>)
    ensures |r| == 6 && forall i :: i in r <==> if player == White then 19 <= i <= 24 else 1 <= i <= 6
  {
    if player == White then [19, 20, 21, 22, 23, 24] else [1, 2, 3, 4, 5, 6]
  }

  /** `IsValidBarMove`: the entry point lies in the opponent's home quadrant
      and matches the die (White enters on point `die`, Black on `25 - die`),
      and it is the player's own, empty, or a blot. */
  predicate IsValidBarMove(b: Board, player: Color, to: int, die: int)
  {
    && (if player == White then 1 <= to <= 6 && to == die else 19 <= to <= 24 && to == 25 - die)
    && var s := Stack(b, to);
       StackOwner(s) == Some(player) || StackOwner(s) == None || StackIsBlot(s, player)
  }

  /** The entry point of a die for a player. */
  function EntryPoint(player: Color, die: int): int
  {
    if player == White then die else 25 - die
  }

  /** Bar re-entry in words: a die of 1..6, its entry point, and that point
      not held by two or more opposing checkers. */
  lemma IsValidBarMoveIff(b: Board, player: Color, to: int, die: int)
    ensures IsValidBarMove(b, player, to, die) <==>
      1 <= die <= 6 && to == EntryPoint(player, die) && Open(Stack(b, to), player)
  {
    if 1 <= die <= 6 && to == EntryPoint(player, die) {
      var s := Stack(b, to);
      if s != [] && s[0].color != player {
        assert s[0].color == Opponent(player);
      }
    }
  }

  /** `GameUtils.IsMoveValid`: with checkers on the bar only an entry from
      index 0 is allowed; otherwise White must move up, Black down, and the
      board's own check decides. */
  predicate IsMoveValid(b: Board, player: Color, from: int, to: int, die: int)
  {
    if Bar(b, player) != [] then from == 0 && IsValidBarMove(b, player, to, die)
    else if player == White && to <= from then false
    else if player == Black && to >= from then false
    else Boards.MoveAllowed(b, player, from, to, die)
  }

  /** Bar priority: while the player has a checker on the bar, a valid move
      starts at index 0 and is a valid entry, and every valid entry is a valid
      move. */
  lemma BarPriority(b: Board, player: Color, from: int, to: int, die: int)
    requires Bar(b, player) != []
    ensures IsMoveValid(b, player, from, to, die) <==> from == 0 && IsValidBarMove(b, player, to, die)
    ensures IsMoveValid(b, player, from, to, die) ==> if player == White then 1 <= to <= 6 else 19 <= to <= 24
  {
  }

  /** With an empty bar a valid move starts on an own point, lands on an open
      point, and goes exactly `die` points in the player's direction. */
  lemma {:induction false} MoveDirection(b: Board, player: Color, from: int, to: int, die: int)
    requires Bar(b, player) == [] && die >= 0
    ensures IsMoveValid(b, player, from, to, die) <==>
      && OnBoard(from) && OnBoard(to)
      && StackOwner(Stack(b, from)) == Some(player)
      && Open(Stack(b, to), player)
      && to == (if player == White then from + die else from - die)
      && from != to
  {
    MoveAllowedIff(b, player, from, to, die);
  }

  /** The player has a checker on a point farther from home than `src`:
      a lower index for White, a higher one for Black. */
  predicate FartherOwn(b: Board, player: Color, src: int)
  {
    exists i :: 1 <= i <= 24 && (if player == White then i < src else i > src)
      && StackOwner(Stack(b, i)) == Some(player)
  }

  /** The die bears a checker off `src` exactly. */
  predicate Exact(player: Color, src: int, die: int)
  {
    if player == White then src == 24 - die + 1 else src == die
  }

  /** The die is larger than the distance from `src` to off. */
  predicate Over(player: Color, src: int, die: int)
  {
    if player == White then src > 25 - die else src < die
  }

  /** The first loop of `CanBearOffFromIndex`: some die matches exactly. */
  function ExactLoop(player: Color, src: int, dice: seq<int>): (r: bool)
  {
    if dice == [] then false
    else if Exact(player, src, dice[0]) then true
    else ExactLoop(player, src, dice[1..])
  }

  /** The second loop of `CanBearOffFromIndex`: for each die it first scans
      every point for a farther own checker (and gives up if it finds one),
      then accepts a die larger than the distance. */
  function OverageLoop(b: Board, player: Color, src: int, dice: seq<int>): (r: bool)
  {
    if dice == [] then false
    else if FartherOwn(b, player, src) then false
    else if Over(player, src, dice[0]) && src in Home(player) then true
    else OverageLoop(b, player, src, dice[1..])
  }

  lemma {:induction false} ExactLoopIff(player: Color, src: int, dice: seq<int>)
    ensures ExactLoop(player, src, dice) <==> exists d :: d in dice && Exact(player, src, d)
  {
    if dice != [] {
      ExactLoopIff(player, src, dice[1..]);
      assert forall d :: d in dice <==> d == dice[0] || d in dice[1..];
    }
  }

  /** The overage rule: true exactly when no own checker lies farther from
      home, `src` is a home point, and some die exceeds the distance; false
      on an empty dice list. */
  lemma {:induction false} OverageLoopIff(b: Board, player: Color, src: int, dice: seq<int>)
    ensures OverageLoop(b, player, src, dice) <==>
      !FartherOwn(b, player, src) && src in Home(player) && exists d :: d in dice && Over(player, src, d)
  {
    if dice != [] {
      OverageLoopIff(b, player, src, dice[1..]);
      assert forall d :: d in dice <==> d == dice[0] || d in dice[1..];
    }
  }

  /** `CanBearOffFromIndex` after its `CanBearOff` guard (GameUtils.cs
      61-120, and the whole of `Game.CanBearOffFromIndex`): a non-empty home
      point, then an exact die, then the overage rule. */
  predicate BearOffFromIndex(b: Board, player: Color, src: int, dice: seq<int>)
  {
    && src in Home(player)
    && Stack(b, src) != []
    && (ExactLoop(player, src, dice) || OverageLoop(b, player, src, dice))
  }

  /** Every own-coloured checker standing on a point has a home position. */
  predicate AllOwnInHome(b: Board, player: Color)
  {
    forall i, c :: 1 <= i <= 24 && c in Stack(b, i) && c.color == player ==> c.position in Home(player)
  }

  /** `GameUtils.CanBearOff`: all own checkers on points are home and some die
      is non-zero. The bar is not consulted. */
  predicate CanBearOff(b: Board, player: Color, dice: seq<int>)
  {
    AllOwnInHome(b, player) && exists v :: v in dice && v != 0
  }

  /** `GameUtils.CanBearOffFromIndex`. */
  predicate CanBearOffFromIndex(b: Board, player: Color, src: int, dice: seq<int>)
  {
    CanBearOff(b, player, dice) && BearOffFromIndex(b, player, src, dice)
  }

  /** The bear-off test after its `CanBearOff` guard, in words: a non-empty
      home point, and either an exact die or (no farther own checker and a
      larger die). */
  lemma BearOffFromIndexIff(b: Board, player: Color, src: int, dice: seq<int>)
    ensures BearOffFromIndex(b, player, src, dice) <==>
      && src in Home(player) && Stack(b, src) != []
      && ((exists d :: d in dice && Exact(player, src, d))
          || (!FartherOwn(b, player, src) && exists d :: d in dice && Over(player, src, d)))
  {
    ExactLoopIff(player, src, dice);
    OverageLoopIff(b, player, src, dice);
  }

  /** Bear-off eligibility in words: the bear-off guards, and either an exact
      die or (no farther own checker and a larger die). */
  lemma CanBearOffFromIndexIff(b: Board, player: Color, src: int, dice: seq<int>)
    ensures CanBearOffFromIndex(b, player, src, dice) <==>
      && CanBearOff(b, player, dice)
      && src in Home(player) && Stack(b, src) != []
      && ((exists d :: d in dice && Exact(player, src, d))
          || (!FartherOwn(b, player, src) && exists d :: d in dice && Over(player, src, d)))
  {
    BearOffFromIndexIff(b, player, src, dice);
  }

  /** Whenever a checker may be borne off, some die is at least the distance
      to off; that is the die `BearOffChecker` spends. */
  lemma BearOffHasDie(b: Board, player: Color, src: int, dice: seq<int>)
    requires BearOffFromIndex(b, player, src, dice)
    ensures exists d :: d in dice && d >= (if player == White then 25 - src else src)
  {
    ExactLoopIff(player, src, dice);
    OverageLoopIff(b, player, src, dice);
  }

  /** A Black checker alone in the home board on point 2 can be borne off
      with a 6 (the overage rule). */
  lemma OverageExample()
    ensures var b := WithStack(EmptyBoard, 2, [Checker(Black, 2)]);
      CanBearOffFromIndex(b, Black, 2, [6, 0])
  {
    var b := WithStack(EmptyBoard, 2, [Checker(Black, 2)]);
    forall i, c | 1 <= i <= 24 && c in Stack(b, i) && c.color == Black
      ensures c.position in Home(Black)
    {
      assert i == 2;
    }
    assert !FartherOwn(b, Black, 2) by {
      forall i | 1 <= i <= 24 && i > 2
        ensures StackOwner(Stack(b, i)) != Some(Black)
      {
        assert Stack(b, i) == [];
      }
    }
    assert 6 in [6, 0];
    CanBearOffFromIndexIff(b, Black, 2, [6, 0]);
  }
}
