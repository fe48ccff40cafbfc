/** The queries of Core/Game.cs over a board value, the current player's
    colour, its list of checkers and the dice values; the `Game` class reads
    its state and applies them. */
module GameRules {

  import opened Wrappers
  import opened Checkers
  import opened Points
  import opened Players
  import opened Seqs
  import opened Boards
  import opened GameStates
  import opened Openings
  import Rules

  /** `Game.IsValidBarMove`: the entry point matches the die in the
      opponent's home quadrant, and it is not owned by the opponent or it is
      a blot. */
  predicate BarMoveAllowed(b: Board, player: Color, to: int, die: int)
  {
    && (if player == White then 1 <= to <= 6 && to == die else 19 <= to <= 24 && to == 25 - die)
    && var s := Stack(b, to);
       StackOwner(s) != Some(Opponent(player)) || StackIsBlot(s, player)
  }

  /** The game's entry test and the stateless one accept the same entries. */
  lemma BarMoveAllowedIff(b: Board, player: Color, to: int, die: int)
    ensures BarMoveAllowed(b, player, to, die) <==> Rules.IsValidBarMove(b, player, to, die)
  {
    if BarMoveAllowed(b, player, to, die) || Rules.IsValidBarMove(b, player, to, die) {
      var s := Stack(b, to);
      if s != [] {
        assert s[0].color == player || s[0].color == Opponent(player);
      }
    }
  }

  /** `Game.IsMoveValid` as Game.cs writes it: while the bar holds a checker
      only the entry is checked, whatever `from` is. */
  predicate IsMoveValidAsWritten(b: Board, player: Color, from: int, to: int, die: int)
  {
    if Bar(b, player) != [] then BarMoveAllowed(b, player, to, die)
    else if player == White && to <= from then false
    else if player == Black && to >= from then false
    else Boards.MoveAllowed(b, player, from, to, die)
  }

  /** With a checker on the bar, the game's own check accepts a move from
      point 10, which holds a Black checker, as a White move: `MakeMove(10, 3)`
      would then move the opponent's checker. The stateless check refuses it. */
  lemma IsMoveValidAsWrittenIgnoresSource()
    ensures var b := WithStack(WithBar(EmptyBoard, White, [Checker(White, HitPosition)]), 10, [Checker(Black, 10)]);
      && IsMoveValidAsWritten(b, White, 10, 3, 3)
      && StackOwner(Stack(b, 10)) == Some(Black)
      && !Rules.IsMoveValid(b, White, 10, 3, 3)
  {
  }

  /** `MakeMove(10, 3)` as written, for White with a checker on the bar, a
      Black checker on point 10 and a White checker on point 3, with 3 and 5
      showing: the die 3 is found, and the board's move then stacks the Black
      checker on the White point, so the board is no longer well formed. */
  lemma MakeMoveAsWrittenMovesOpponent()
    ensures var b := WithStack(WithStack(WithBar(EmptyBoard, White, [Checker(White, HitPosition)]), 10, [Checker(Black, 10)]), 3, [Checker(White, 3)]);
      && WellFormed(b)
      && FirstMoveDie(b, White, 10, 3, [3, 5]) == Some(3)
      && !WellFormed(Move(b, White, Black, 10, 3))
  {
    var b := WithStack(WithStack(WithBar(EmptyBoard, White, [Checker(White, HitPosition)]), 10, [Checker(Black, 10)]), 3, [Checker(White, 3)]);
    assert BarMoveAllowed(b, White, 3, 3);
    var r := Move(b, White, Black, 10, 3);
    var b1 := WithStack(b, 10, []);
    assert Stack(b1, 3) == [Checker(White, 3)];
    assert Stack(r, 3) == [Checker(White, 3), Checker(Black, 3)];
    assert Checker(Black, 3) in Stack(r, 3);
  }

  /** The corrected check is the written one plus "a move while on the bar
      starts at index 0". */
  lemma IsMoveValidCorrected(b: Board, player: Color, from: int, to: int, die: int)
    ensures Rules.IsMoveValid(b, player, from, to, die) <==>
      IsMoveValidAsWritten(b, player, from, to, die) && (Bar(b, player) != [] ==> from == 0)
  {
    BarMoveAllowedIff(b, player, to, die);
  }

  /** The die `MakeMove` spends on an entry from the bar: the first value, in
      `GetDiceValues` order, that allows it. */
  function FirstEntryDie(b: Board, player: Color, to: int, dice: seq<int>): (r: Option<int>)
    ensures r == None <==> forall d :: d in dice ==> !BarMoveAllowed(b, player, to, d)
    ensures r != None ==> r.value in dice && BarMoveAllowed(b, player, to, r.value)
  {
    if dice == [] then None
    else if BarMoveAllowed(b, player, to, dice[0]) then Some(dice[0])
    else
      assert forall d :: d in dice ==> d == dice[0] || d in dice[1..];
      FirstEntryDie(b, player, to, dice[1..])
  }

  /** The die chosen is the first in dice order that works: no earlier value
      works. */
  lemma {:induction false} FirstEntryDieIsFirst(b: Board, player: Color, to: int, dice: seq<int>)
    requires FirstEntryDie(b, player, to, dice) != None
    ensures exists k :: 0 <= k < |dice| && dice[k] == FirstEntryDie(b, player, to, dice).value
                        && forall j :: 0 <= j < k ==> !BarMoveAllowed(b, player, to, dice[j])
  {
    if !BarMoveAllowed(b, player, to, dice[0]) {
      var rest := dice[1..];
      FirstEntryDieIsFirst(b, player, to, rest);
      var k :| 0 <= k < |rest| && rest[k] == FirstEntryDie(b, player, to, rest).value
               && forall j :: 0 <= j < k ==> !BarMoveAllowed(b, player, to, rest[j]);
      assert dice[k + 1] == rest[k];
      assert forall j :: 1 <= j < k + 1 ==> dice[j] == rest[j - 1];
      assert forall j :: 0 <= j < k + 1 ==> !BarMoveAllowed(b, player, to, dice[j]);
    }
  }


  /** The die `MakeMove` spends on a move from `from` other than 0: the
      first value, in `GetDiceValues` order, for which the game's
      `IsMoveValid` (as written) holds. */
  function FirstMoveDie(b: Board, player: Color, from: int, to: int, dice: seq<int>): (r: Option<int>)
    ensures r == None <==> forall d :: d in dice ==> !IsMoveValidAsWritten(b, player, from, to, d)
    ensures r != None ==> r.value in dice && IsMoveValidAsWritten(b, player, from, to, r.value)
  {
    if dice == [] then None
    else if IsMoveValidAsWritten(b, player, from, to, dice[0]) then Some(dice[0])
    else
      assert forall d :: d in dice ==> d == dice[0] || d in dice[1..];
      FirstMoveDie(b, player, from, to, dice[1..])
  }

  /** The die chosen is the first in dice order that works: no earlier value
      works. */
  lemma {:induction false} FirstMoveDieIsFirst(b: Board, player: Color, from: int, to: int, dice: seq<int>)
    requires FirstMoveDie(b, player, from, to, dice) != None
    ensures exists k :: 0 <= k < |dice| && dice[k] == FirstMoveDie(b, player, from, to, dice).value
                        && forall j :: 0 <= j < k ==> !IsMoveValidAsWritten(b, player, from, to, dice[j])
  {
    if !IsMoveValidAsWritten(b, player, from, to, dice[0]) {
      var rest := dice[1..];
      FirstMoveDieIsFirst(b, player, from, to, rest);
      var k :| 0 <= k < |rest| && rest[k] == FirstMoveDie(b, player, from, to, rest).value
               && forall j :: 0 <= j < k ==> !IsMoveValidAsWritten(b, player, from, to, rest[j]);
      assert dice[k + 1] == rest[k];
      assert forall j :: 1 <= j < k + 1 ==> dice[j] == rest[j - 1];
      assert forall j :: 0 <= j < k + 1 ==> !IsMoveValidAsWritten(b, player, from, to, dice[j]);
    }
  }

  /** While the bar holds a checker, `MakeMove(from, to)` with any `from`
      other than 0 picks the die the entry on `to` would pick; with the bar
      empty it picks the die of the corrected check. */
  lemma {:induction false} FirstMoveDieBar(b: Board, player: Color, from: int, to: int, dice: seq<int>)
    ensures Bar(b, player) != [] ==> FirstMoveDie(b, player, from, to, dice) == FirstEntryDie(b, player, to, dice)
    ensures Bar(b, player) == [] ==> (FirstMoveDie(b, player, from, to, dice) == None <==>
                                      forall d :: d in dice ==> !Rules.IsMoveValid(b, player, from, to, d))
    decreases |dice|
  {
    if dice != [] {
      FirstMoveDieBar(b, player, from, to, dice[1..]);
    }
    forall d | d in dice
      ensures Bar(b, player) == [] ==> (IsMoveValidAsWritten(b, player, from, to, d) <==> Rules.IsMoveValid(b, player, from, to, d))
    {
      IsMoveValidCorrected(b, player, from, to, d);
    }
  }

  /** A die that allows an entry is a die value of 1..6 and the entry lands on
      an open point of the board. */
  lemma EntryDie(b: Board, player: Color, to: int, die: int)
    requires BarMoveAllowed(b, player, to, die)
    ensures 1 <= die <= 6 && OnBoard(to) && Open(Stack(b, to), player)
  {
    BarMoveAllowedIff(b, player, to, die);
    Rules.IsValidBarMoveIff(b, player, to, die);
  }

  /** A die that makes the game's check pass for a move from `from` other
      than 0: while the bar holds a checker, the die enters on `to` (whatever
      `from` is); otherwise it is not 0 and the move goes from an own point to
      a different, open point. */
  lemma MoveDie(b: Board, player: Color, from: int, to: int, die: int)
    requires from != 0 && IsMoveValidAsWritten(b, player, from, to, die)
    ensures Bar(b, player) != [] ==> BarMoveAllowed(b, player, to, die) && 1 <= die <= 6 && OnBoard(to) && Open(Stack(b, to), player)
    ensures Bar(b, player) == [] ==>
      && die != 0 && OnBoard(from) && OnBoard(to) && from != to
      && StackOwner(Stack(b, from)) == Some(player) && Open(Stack(b, to), player)
  {
    if Bar(b, player) != [] {
      EntryDie(b, player, to, die);
    } else {
      OpenIff(Stack(b, to), player);
    }
  }

  /** The points `to` in `lo .. lo + n - 1`, in increasing order, that a bar
      entry with `die` may reach: one inner loop of `GetAvailableEndPoints`. */
  function EntryScan(b: Board, player: Color, die: int, lo: int, n: nat): seq<int>
  {
    if n == 0 then []
    else EntryScan(b, player, die, lo, n - 1) + (if BarMoveAllowed(b, player, lo + n - 1, die) then [lo + n - 1] else [])
  }

  /** The scan collects exactly the allowed entry points of its range. */
  lemma {:induction false} EntryScanMembers(b: Board, player: Color, die: int, lo: int, n: nat, x: int)
    ensures x in EntryScan(b, player, die, lo, n) <==> lo <= x < lo + n && BarMoveAllowed(b, player, x, die)
  {
    if n > 0 {
      EntryScanMembers(b, player, die, lo, n - 1, x);
    }
  }

  /** The end points one die contributes for the start index `s`. */
  function EndPointsOf(b: Board, player: Color, s: int, die: int): seq<int>
  {
    if s == 0 then
      if player == White then EntryScan(b, player, die, 1, 6) else EntryScan(b, player, die, 19, 6)
    else
      (if IsMoveValidAsWritten(b, player, s, s + die, die) then [s + die] else [])
      + (if IsMoveValidAsWritten(b, player, s, s - die, die) then [s - die] else [])
  }

  /** `GetAvailableEndPoints(s)`: each die's end points in dice order; an
      empty list when `s` is a point the player does not own. */
  function EndPoints(b: Board, player: Color, s: int, dice: seq<int>): seq<int>
    requires 0 <= s <= 24
  {
    if s != 0 && StackOwner(Stack(b, s)) != Some(player) then []
    else if dice == [] then []
    else EndPoints(b, player, s, dice[..|dice| - 1]) + EndPointsOf(b, player, s, dice[|dice| - 1])
  }

  /** Extending the dice prefix by one die appends that die's end points. */
  lemma EndPointsStep(b: Board, player: Color, s: int, dice: seq<int>, i: nat)
    requires 0 <= s <= 24 && i < |dice|
    requires s == 0 || StackOwner(Stack(b, s)) == Some(player)
    ensures EndPoints(b, player, s, dice[..i + 1]) == EndPoints(b, player, s, dice[..i]) + EndPointsOf(b, player, s, dice[i])
  {
    assert dice[..i + 1][..i] == dice[..i];
  }

  /** Where a move the game's check accepts goes: with the bar empty,
      `die` points up or down; while the bar holds a checker, to the entry
      point of the die, whatever `from` is. */
  lemma MoveTarget(b: Board, player: Color, from: int, to: int, die: int)
    requires IsMoveValidAsWritten(b, player, from, to, die)
    ensures Bar(b, player) == [] ==> to == from + die || to == from - die
    ensures Bar(b, player) != [] ==> to == Rules.EntryPoint(player, die)
  {
    if Bar(b, player) != [] {
      BarMoveAllowedIff(b, player, to, die);
      Rules.IsValidBarMoveIff(b, player, to, die);
    }
  }

  /** One die's end points from a point: the point `die` up and the point
      `die` down, each when the game's check accepts it. */
  lemma EndPointsOfPoint(b: Board, player: Color, s: int, die: int, x: int)
    requires 1 <= s <= 24
    ensures x in EndPointsOf(b, player, s, die) <==>
      (x == s + die || x == s - die) && IsMoveValidAsWritten(b, player, s, x, die)
  {
  }

  /** From a point, the end points are the points `d` up or down, for a die
      `d`, that the game's check accepts, and only from an own point. */
  lemma {:induction false} EndPointsFromPoint(b: Board, player: Color, s: int, dice: seq<int>, x: int)
    requires 1 <= s <= 24
    ensures x in EndPoints(b, player, s, dice) <==>
      && StackOwner(Stack(b, s)) == Some(player)
      && exists d :: d in dice && (x == s + d || x == s - d) && IsMoveValidAsWritten(b, player, s, x, d)
    decreases |dice|
  {
    if StackOwner(Stack(b, s)) == Some(player) && dice != [] {
      var init := dice[..|dice| - 1];
      var last := dice[|dice| - 1];
      EndPointsFromPoint(b, player, s, init, x);
      assert dice == init + [last];
      assert forall d :: d in dice <==> d in init || d == last;
      EndPointsOfPoint(b, player, s, last, x);
    }
  }

  /** With the bar empty, the end points from a point are exactly the
      destinations `MakeMove(s, x)` accepts with some die. */
  lemma EndPointsOffBar(b: Board, player: Color, s: int, dice: seq<int>, x: int)
    requires 1 <= s <= 24 && Bar(b, player) == []
    ensures x in EndPoints(b, player, s, dice) <==> exists d :: d in dice && Rules.IsMoveValid(b, player, s, x, d)
  {
    EndPointsFromPoint(b, player, s, dice, x);
    if exists d :: d in dice && Rules.IsMoveValid(b, player, s, x, d) {
      var d :| d in dice && Rules.IsMoveValid(b, player, s, x, d);
      IsMoveValidCorrected(b, player, s, x, d);
      MoveDie(b, player, s, x, d);
      MoveTarget(b, player, s, x, d);
    }
    if x in EndPoints(b, player, s, dice) {
      var d :| d in dice && (x == s + d || x == s - d) && IsMoveValidAsWritten(b, player, s, x, d);
      IsMoveValidCorrected(b, player, s, x, d);
    }
  }

  /** With a White checker on the bar, a White point at 2 and a 1 to play,
      `GetAvailableEndPoints(2)` offers point 1: the entry test alone decides,
      and the end point lies behind White's direction of play. */
  lemma EndPointsOnBarExample()
    ensures var b := WithStack(WithBar(EmptyBoard, White, [Checker(White, HitPosition)]), 2, [Checker(White, 2)]);
      && EndPoints(b, White, 2, [1]) == [1]
      && !Rules.IsMoveValid(b, White, 2, 1, 1)
  {
    var b := WithStack(WithBar(EmptyBoard, White, [Checker(White, HitPosition)]), 2, [Checker(White, 2)]);
    assert [1][..0] == [];
    assert BarMoveAllowed(b, White, 1, 1);
    assert EntryScan(b, White, 1, 1, 1) == [1];
    assert EntryScan(b, White, 1, 1, 2) == [1];
    assert EntryScan(b, White, 1, 1, 3) == [1];
    assert EntryScan(b, White, 1, 1, 4) == [1];
    assert EntryScan(b, White, 1, 1, 5) == [1];
    assert EndPointsOf(b, White, 2, 1) == [] + [1];
  }

  /** From the bar, the end points are exactly the entry points `MakeMove(0,
      x)` accepts with some die. */
  lemma {:induction false} EndPointsFromBar(b: Board, player: Color, dice: seq<int>, x: int)
    ensures x in EndPoints(b, player, 0, dice) <==> exists d :: d in dice && BarMoveAllowed(b, player, x, d)
    decreases |dice|
  {
    if dice != [] {
      var init := dice[..|dice| - 1];
      var last := dice[|dice| - 1];
      EndPointsFromBar(b, player, init, x);
      assert dice == init + [last];
      assert forall d :: d in dice <==> d in init || d == last;
      EntryScanMembers(b, player, last, if player == White then 1 else 19, 6, x);
    }
  }

  /** `Game.CanBearOff`: at the first non-zero die, whether every checker in
      the player's list has a home position; false when all dice are 0. */
  function CanBearOffScan(list: seq<Checker>, player: Color, dice: seq<int>): (r: bool)
  {
    if dice == [] then false
    else if dice[0] != 0 then AllInHome(list, Rules.Home(player))
    else CanBearOffScan(list, player, dice[1..])
  }

  /** Reading positions from the player's list, the game's bear-off test is
      the stateless one together with an empty bar: a checker on the bar has
      position -1, which is not a home position. */
  lemma {:induction false} CanBearOffAgrees(b: Board, white: seq<Checker>, black: seq<Checker>, player: Color, dice: seq<int>)
    requires Synced(b, white, black)
    ensures CanBearOffScan(if player == White then white else black, player, dice) <==>
      Rules.CanBearOff(b, player, dice) && Bar(b, player) == []
  {
    var list := if player == White then white else black;
    CanBearOffScanIff(list, player, dice);
    assert OfColor(list, player);
    if AllInHome(list, Rules.Home(player)) {
      forall i, c | 1 <= i <= 24 && c in Stack(b, i) && c.color == player
        ensures c.position in Rules.Home(player)
      {
        InFlatten(b.points, i - 1, c);
        assert c in Contents(b);
        InOwnList(Contents(b), white, black, c);
      }
      if Bar(b, player) != [] {
        var c := Bar(b, player)[0];
        assert c in Contents(b);
        assert BarWellFormed(Bar(b, player), player);
        InOwnList(Contents(b), white, black, c);
        assert false;
      }
    }
    if Rules.AllOwnInHome(b, player) && Bar(b, player) == [] {
      forall c | c in list
        ensures c.position in Rules.Home(player)
      {
        ListPositions(b, white, black, c);
        if c.position == HitPosition {
          assert c in Bar(b, player);
        }
      }
    }
  }

  lemma {:induction false} CanBearOffScanIff(list: seq<Checker>, player: Color, dice: seq<int>)
    ensures CanBearOffScan(list, player, dice) <==>
      (exists v :: v in dice && v != 0) && AllInHome(list, Rules.Home(player))
  {
    if dice != [] {
      CanBearOffScanIff(list, player, dice[1..]);
      assert dice[0] in dice;
      assert forall v :: v in dice <==> v == dice[0] || v in dice[1..];
    }
  }

  /** The smallest die strictly above `t` (LINQ's
      `Where(d > t).OrderBy(d).FirstOrDefault()`), if any. */
  function MinAbove(dice: seq<int>, t: int): (r: Option<int>)
    ensures r == None <==> forall d :: d in dice ==> d <= t
    ensures r != None ==> r.value in dice && r.value > t && forall d :: d in dice && d > t ==> r.value <= d
  {
    if dice == [] then None
    else
      var rest := MinAbove(dice[1..], t);
      assert dice[0] in dice;
      assert forall d :: d in dice <==> d == dice[0] || d in dice[1..];
      if dice[0] > t && (rest == None || dice[0] <= rest.value) then Some(dice[0])
      else rest
  }

  /** The die `BearOffChecker` spends to bear off from a point at distance
      `target`: the exact die, otherwise the smallest larger one, otherwise 0. */
  function BearOffDie(dice: seq<int>, target: int): int
  {
    var exact := if target in dice then target else 0;
    if exact != 0 then exact
    else match MinAbove(dice, target) case None => 0 case Some(v) => v
  }

  /** The distance from point `src` to off. */
  function Distance(player: Color, src: int): int
  {
    if player == White then 25 - src else src
  }

  /** Whenever the bear-off test passes, the die chosen is a showing die that
      covers the distance: the exact die when there is one, otherwise the
      smallest larger die. In particular it is positive, so the bear-off
      never ends with a removed checker and no die used. */
  lemma {:induction false} BearOffDieChoice(b: Board, player: Color, src: int, dice: seq<int>)
    requires OnBoard(src) && Rules.BearOffFromIndex(b, player, src, dice)
    ensures var t := Distance(player, src);
      var d := BearOffDie(dice, t);
      && d in dice && d >= t >= 1
      && (t in dice ==> d == t)
      && (t !in dice ==> forall e :: e in dice && e > t ==> d <= e)
  {
    Rules.BearOffHasDie(b, player, src, dice);
  }

  /** Whether an own point can move a checker by `die` in either direction
      (the test of the last loop of `HasAvailableMoves`). */
  predicate MovesBy(b: Board, player: Color, i: int, die: int)
  {
    IsMoveValidAsWritten(b, player, i, i + die, die) || IsMoveValidAsWritten(b, player, i, i - die, die)
  }

  /** `HasAvailableMoves`: an entry when the bar holds a checker; otherwise a
      bear-off (when `CanBearOff` passes) or a move from an own point. */
  ghost predicate HasMoves(b: Board, player: Color, list: seq<Checker>, dice: seq<int>)
  {
    if Bar(b, player) != [] then
      exists d, to :: d in dice && BarMoveAllowed(b, player, to, d)
    else
      || (CanBearOffScan(list, player, dice)
          && exists i :: 1 <= i <= 24 && StackOwner(Stack(b, i)) == Some(player) && Rules.BearOffFromIndex(b, player, i, dice))
      || exists i, d :: 1 <= i <= 24 && d in dice && StackOwner(Stack(b, i)) == Some(player) && MovesBy(b, player, i, d)
  }

  /** With a checker on the bar, `HasAvailableMoves` holds exactly when
      `MakeMove(0, to)` would succeed for some `to`, and so exactly when
      `MakeMove(from, to)` would find a die for some `from` other than 0. */
  lemma {:induction false} HasMovesOnBar(b: Board, player: Color, list: seq<Checker>, dice: seq<int>)
    requires Bar(b, player) != []
    ensures HasMoves(b, player, list, dice) <==> exists to :: FirstEntryDie(b, player, to, dice) != None
    ensures HasMoves(b, player, list, dice) <==> exists from, to :: from != 0 && FirstMoveDie(b, player, from, to, dice) != None
  {
    if exists d, to :: d in dice && BarMoveAllowed(b, player, to, d) {
      var d, to :| d in dice && BarMoveAllowed(b, player, to, d);
      assert FirstEntryDie(b, player, to, dice) != None;
      FirstMoveDieBar(b, player, 1, to, dice);
    }
    if exists from, to :: from != 0 && FirstMoveDie(b, player, from, to, dice) != None {
      var from, to :| from != 0 && FirstMoveDie(b, player, from, to, dice) != None;
      FirstMoveDieBar(b, player, from, to, dice);
    }
  }

  /** With the bar empty (the only case in which `HasAvailableMoves` reaches
      its last loop), some own point moves by some die exactly when
      `MakeMove(from, to)` would succeed for some point `from` and some `to`. */
  lemma {:induction false} MovesIff(b: Board, player: Color, dice: seq<int>)
    requires Bar(b, player) == []
    ensures (exists i, d :: 1 <= i <= 24 && d in dice && StackOwner(Stack(b, i)) == Some(player) && MovesBy(b, player, i, d))
        <==> exists from, to :: from != 0 && FirstMoveDie(b, player, from, to, dice) != None
  {
    if exists i, d :: 1 <= i <= 24 && d in dice && StackOwner(Stack(b, i)) == Some(player) && MovesBy(b, player, i, d) {
      var i, d :| 1 <= i <= 24 && d in dice && StackOwner(Stack(b, i)) == Some(player) && MovesBy(b, player, i, d);
      var to := if IsMoveValidAsWritten(b, player, i, i + d, d) then i + d else i - d;
      assert FirstMoveDie(b, player, i, to, dice) != None;
    }
    if exists from, to :: from != 0 && FirstMoveDie(b, player, from, to, dice) != None {
      var from, to :| from != 0 && FirstMoveDie(b, player, from, to, dice) != None;
      MovesFromDie(b, player, from, to, dice);
    }
  }

  /** A die `MakeMove(from, to)` would spend for `from` other than 0: with
      the bar empty, it moves an own point; while the bar holds a checker, it
      enters on `to`. */
  lemma MovesFromDie(b: Board, player: Color, from: int, to: int, dice: seq<int>)
    requires from != 0 && FirstMoveDie(b, player, from, to, dice) != None
    ensures Bar(b, player) == [] ==>
      exists i, d :: 1 <= i <= 24 && d in dice && StackOwner(Stack(b, i)) == Some(player) && MovesBy(b, player, i, d)
    ensures Bar(b, player) != [] ==> exists d :: d in dice && BarMoveAllowed(b, player, to, d)
  {
    var d := FirstMoveDie(b, player, from, to, dice).value;
    MoveDie(b, player, from, to, d);
    MoveTarget(b, player, from, to, d);
    if Bar(b, player) == [] {
      assert MovesBy(b, player, from, d);
    }
  }

  /** With an empty bar, `HasAvailableMoves` holds exactly when (as far as
      `CanBearOff` lets it look) `BearOffChecker` would succeed for some own
      point, or `MakeMove(from, to)` would succeed for some point `from`. */
  lemma {:induction false} HasMovesOffBar(b: Board, player: Color, list: seq<Checker>, dice: seq<int>)
    requires Bar(b, player) == []
    ensures HasMoves(b, player, list, dice) <==>
      || (CanBearOffScan(list, player, dice)
          && exists i :: 1 <= i <= 24 && StackOwner(Stack(b, i)) == Some(player) && Rules.BearOffFromIndex(b, player, i, dice))
      || exists from, to :: from != 0 && FirstMoveDie(b, player, from, to, dice) != None
  {
    MovesIff(b, player, dice);
  }
}
