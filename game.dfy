/** Core/Game.cs: the stateful coordinator. It owns the two players, the
    board and the dice, and runs the opening set-up, moves, bear-offs and the
    turn order. Its queries are the value-level ones of `GameRules`, applied
    to the current state. */
module Games {

  import opened Wrappers
  import opened Checkers
  import opened Points
  import opened Players
  import opened Seqs
  import opened DiceModel
  import opened Boards
  import opened GameStates
  import opened GameRules
  import opened Openings
  import Rules

  class Game {
    /** `Players[0]` (White) and `Players[1]` (Black). */
    const white: Player
    const black: Player
    var currentPlayer: Player
    var currentPlayerIndex: int
    const dice: Dice
    const board: GameBoard
    var isGameOver: bool

    /** The shape the queries rely on: the players have their colours,
        `CurrentPlayer` is `Players[currentPlayerIndex]`, and the point
        objects hold the board value. */
    ghost predicate Ready()
      reads this, board, board.Repr
    {
      && white.color == White && black.color == Black
      && (currentPlayerIndex == 0 || currentPlayerIndex == 1)
      && currentPlayer == (if currentPlayerIndex == 0 then white else black)
      && board.Valid()
    }

    /** What every reachable state satisfies: `Ready`; the board is well
        formed and the players' lists are its checkers split by colour; each
        player's checkers in play and borne off number fifteen; the dice are
        in a state the dice produce. */
    ghost predicate Valid()
      reads this, white, black, dice, board, board.Repr
    {
      && Ready()
      && Synced(board.model, white.checkers, black.checkers)
      && |white.checkers| + |white.bearOff| == 15
      && |black.checkers| + |black.bearOff| == 15
      && Inv(dice.Model())
    }

    lemma ValidIsReady()
      requires Valid()
      ensures Ready()
    {
    }

    constructor ()
      ensures Valid()
      ensures forall i :: OnBoard(i) ==> Stack(board.model, i) == OpeningStack(i)
      ensures board.model.whiteBar == [] && board.model.blackBar == []
      ensures white.checkers == OpeningList(White) && black.checkers == OpeningList(Black)
      ensures white.bearOff == [] && black.bearOff == []
      ensures currentPlayer == white && !isGameOver
      ensures dice.Model() == DiceState(0, 0, false, 0)
    {
      white := new Player(White);
      black := new Player(Black);
      board := new GameBoard();
      dice := new Dice();
      currentPlayerIndex := 0;
      currentPlayer := white;
      isGameOver := false;
      new;
      InitializeCheckers();
    }

    /** The eight `AddCheckersToPoint` calls of `OpeningPlacements`, on an
        empty board and empty lists: the result is the opening position,
        fifteen checkers a side, with the lists in step with the board. */
    method InitializeCheckers()
      requires board.Valid() && IsEmpty(board.model)
      requires white.color == White && black.color == Black
      requires white.checkers == [] && black.checkers == []
      modifies board, board.Repr, white, black
      ensures board.Valid() && Synced(board.model, white.checkers, black.checkers)
      ensures forall i :: OnBoard(i) ==> Stack(board.model, i) == OpeningStack(i)
      ensures board.model.whiteBar == [] && board.model.blackBar == []
      ensures white.checkers == OpeningList(White) && black.checkers == OpeningList(Black)
      ensures |white.checkers| == 15 && |black.checkers| == 15
      ensures white.bearOff == old(white.bearOff) && black.bearOff == old(black.bearOff)
    {
      AddCheckersToPoint(white, 1, 2);
      AddCheckersToPoint(white, 12, 5);
      AddCheckersToPoint(white, 17, 3);
      AddCheckersToPoint(white, 19, 5);
      AddCheckersToPoint(black, 24, 2);
      AddCheckersToPoint(black, 13, 5);
      AddCheckersToPoint(black, 8, 3);
      AddCheckersToPoint(black, 6, 5);
      OpeningFacts(old(board.model), board.model, white.checkers, black.checkers);
    }

    /** Adds `count` new checkers of the player's colour, at position
        `pointIndex`, to the player's list and to the point. */
    method AddCheckersToPoint(player: Player, pointIndex: int, count: nat)
      requires board.Valid() && OnBoard(pointIndex)
      requires white.color == White && black.color == Black && (player == white || player == black)
      modifies board, board.Repr, player
      ensures board.Valid()
      ensures board.model == AddCopies(old(board.model), player.color, pointIndex, count)
      ensures white.checkers == if player == white then old(white.checkers) + Copies(Checker(White, pointIndex), count) else old(white.checkers)
      ensures black.checkers == if player == black then old(black.checkers) + Copies(Checker(Black, pointIndex), count) else old(black.checkers)
      ensures white.bearOff == old(white.bearOff) && black.bearOff == old(black.bearOff)
    {
      var point := board.points[pointIndex - 1];
      for i := 0 to count
        modifies point, player
        invariant point.checkers == old(point.checkers) + Copies(Checker(player.color, pointIndex), i)
        invariant player.checkers == old(player.checkers) + Copies(Checker(player.color, pointIndex), i)
        invariant player.bearOff == old(player.bearOff)
      {
        var checker := Checker(player.color, pointIndex);
        player.AddChecker(checker);
        point.AddChecker(checker);
      }
      board.model := WithStack(board.model, pointIndex, point.checkers);
    }

    /** `RollDice`: the two values drawn at random are parameters. */
    method RollDice(v1: int, v2: int)
      requires Valid() && 1 <= v1 <= 6 && 1 <= v2 <= 6
      modifies dice
      ensures Valid() && dice.Model() == Rolled(v1, v2)
      ensures dice.GetDiceValues() == if v1 == v2 then [v1, v1, v1, v1] else [v1, v2]
    {
      dice.Roll(v1, v2);
      RollValues(v1, v2);
    }

    /** `GetOpponent`: the player whose turn it is not. */
    function GetOpponent(): (r: Player)
      requires Ready()
      reads this, white, black, board, board.Repr
      ensures (r == white || r == black) && r != currentPlayer && r.color == Opponent(currentPlayer.color)
    {
      if currentPlayerIndex == 0 then black else white
    }

    /** `IsMoveValid` as Game.cs writes it: while the bar holds a checker
        only the entry on `toIndex` is checked, whatever `fromIndex` is; with
        the bar empty it is the stateless test of `Rules`. */
    function IsMoveValid(fromIndex: int, toIndex: int, diceValue: int): (r: bool)
      requires Ready()
      reads this, white, black, board, board.Repr
      ensures r == IsMoveValidAsWritten(board.model, currentPlayer.color, fromIndex, toIndex, diceValue)
      ensures Bar(board.model, currentPlayer.color) == [] ==> (r <==> Rules.IsMoveValid(board.model, currentPlayer.color, fromIndex, toIndex, diceValue))
    {
      var color := currentPlayer.color;
      IsMoveValidCorrected(board.model, color, fromIndex, toIndex, diceValue);
      if board.GetBar(color) != [] then IsValidBarMove(toIndex, diceValue)
      else if color == White && toIndex <= fromIndex then false
      else if color == Black && toIndex >= fromIndex then false
      else board.IsMoveValid(currentPlayer, fromIndex, toIndex, diceValue)
    }

    /** `IsValidBarMove`: the entry point of the die in the opponent's home
        quadrant, not held by two or more opposing checkers. */
    function IsValidBarMove(toIndex: int, diceValue: int): (r: bool)
      requires Ready()
      reads this, white, black, board, board.Repr
      ensures r == BarMoveAllowed(board.model, currentPlayer.color, toIndex, diceValue)
      ensures r <==> 1 <= diceValue <= 6 && toIndex == Rules.EntryPoint(currentPlayer.color, diceValue)
                     && Open(Stack(board.model, toIndex), currentPlayer.color)
    {
      BarMoveAllowedIff(board.model, currentPlayer.color, toIndex, diceValue);
      Rules.IsValidBarMoveIff(board.model, currentPlayer.color, toIndex, diceValue);
      if currentPlayer.color == White && (toIndex < 1 || toIndex > 6) then false
      else if currentPlayer.color == White && toIndex != diceValue then false
      else if currentPlayer.color == Black && (toIndex < 19 || toIndex > 24) then false
      else if currentPlayer.color == Black && toIndex != 25 - diceValue then false
      else
        var toPoint := board.points[toIndex - 1];
        toPoint.Owner() != Some(GetOpponent().color) || toPoint.IsBlot(currentPlayer.color)
    }

    /** `CanBearOff`: at the first non-zero die, whether every checker in the
        player's list stands in the home quadrant. Because a checker on the bar
        has position -1, this is the stateless test together with an empty
        bar. */
    method CanBearOff() returns (r: bool)
      requires Valid()
      ensures r == CanBearOffScan(currentPlayer.checkers, currentPlayer.color, dice.GetDiceValues())
      ensures r <==> Rules.CanBearOff(board.model, currentPlayer.color, dice.GetDiceValues())
                     && Bar(board.model, currentPlayer.color) == []
    {
      var home := Rules.Home(currentPlayer.color);
      var vals := dice.GetDiceValues();
      CanBearOffAgrees(board.model, white.checkers, black.checkers, currentPlayer.color, vals);
      for i := 0 to |vals|
        invariant CanBearOffScan(currentPlayer.checkers, currentPlayer.color, vals[i..])
               == CanBearOffScan(currentPlayer.checkers, currentPlayer.color, vals)
      {
        assert vals[i..][1..] == vals[i + 1..];
        if vals[i] != 0 {
          return currentPlayer.AllCheckersInHome(home);
        }
      }
      assert vals[|vals|..] == [];
      return false;
    }

    /** `CanBearOffFromIndex`: a non-empty home point, then the exact-die
        loop, then the overage loop, which rescans the points for a farther
        own checker for each die. */
    method CanBearOffFromIndex(srcIndex: int) returns (r: bool)
      requires Ready()
      ensures r == Rules.BearOffFromIndex(board.model, currentPlayer.color, srcIndex, dice.GetDiceValues())
    {
      var color := currentPlayer.color;
      var home := Rules.Home(color);
      if srcIndex !in home {
        return false;
      }
      if |board.points[srcIndex - 1].checkers| == 0 {
        return false;
      }
      var vals := dice.GetDiceValues();
      for i := 0 to |vals|
        invariant Rules.ExactLoop(color, srcIndex, vals[i..]) == Rules.ExactLoop(color, srcIndex, vals)
      {
        assert vals[i..][1..] == vals[i + 1..];
        if color == White && srcIndex == 24 - vals[i] + 1 {
          return true;
        }
        if color == Black && srcIndex == vals[i] {
          return true;
        }
      }
      assert vals[|vals|..] == [];
      for i := 0 to |vals|
        invariant Rules.OverageLoop(board.model, color, srcIndex, vals[i..])
               == Rules.OverageLoop(board.model, color, srcIndex, vals)
      {
        assert vals[i..][1..] == vals[i + 1..];
        var targetIndex := if color == White then 25 - vals[i] else vals[i];
        var farther := FartherOwnScan(srcIndex);
        if farther {
          return false;
        }
        if color == Black && srcIndex < targetIndex && srcIndex in home {
          return true;
        }
        if color == White && srcIndex > targetIndex && srcIndex in home {
          return true;
        }
      }
      assert vals[|vals|..] == [];
      return false;
    }

    /** `MakeMove(from, to)`: from index 0, the first die (in `GetDiceValues`
        order) that allows the entry on `to` re-enters the top checker of the
        bar; otherwise the first die for which `IsMoveValid` holds is handed
        to `MoveChecker` and spent. With no such die nothing changes and the
        result is false. While the bar holds a checker that die is the
        entry's whatever `from` is: a `from` off the points moves nothing, an
        own point sends its top checker to the entry point, an opposing point
        sends the opponent's checker there (the one case that can break the
        board's invariant), and an empty point throws after the blot on `to`
        has been hit. */
    method MakeMove(fromIndex: int, toIndex: int) returns (r: Outcome<bool>)
      requires Valid()
      requires fromIndex == 0 && FirstEntryDie(board.model, currentPlayer.color, toIndex, dice.GetDiceValues()) != None
               ==> Bar(board.model, currentPlayer.color) != []
      modifies board, board.Repr, white, black, dice
      ensures Ready()
      ensures var b := old(board.model);
        var p := currentPlayer.color;
        var die := if fromIndex == 0 then FirstEntryDie(b, p, toIndex, old(dice.GetDiceValues()))
                   else FirstMoveDie(b, p, fromIndex, toIndex, old(dice.GetDiceValues()));
        && (r == Done(false) <==> die == None)
        && (r == Failed(Crash) <==> die != None && fromIndex != 0 && OnBoard(fromIndex) && OnBoard(toIndex) && Stack(b, fromIndex) == [])
        && (r.Failed? ==> r.fault == Crash && Bar(b, p) != [])
        && (r != Done(true) ==> dice.Model() == old(dice.Model()))
        && (r == Done(false) ==> && board.model == b
                                 && white.checkers == old(white.checkers) && black.checkers == old(black.checkers))
        && (r == Done(true) ==> && dice.Model() == Use(old(dice.Model()), die.value)
                                && multiset(NonZero(dice.GetDiceValues())) == multiset(NonZero(old(dice.GetDiceValues()))) - multiset{die.value})
      ensures r == Failed(Crash) ==>
        var ws := HitWrites(old(board.model), currentPlayer.color, toIndex);
        && board.model == Hit(old(board.model), currentPlayer.color, Opponent(currentPlayer.color), toIndex)
        && white.checkers == Written(old(white.checkers), White, ws)
        && black.checkers == Written(old(black.checkers), Black, ws)
      ensures r == Done(true) && fromIndex == 0 ==>
        var ws := EnterWrites(old(board.model), currentPlayer.color, toIndex);
        && board.model == Enter(old(board.model), currentPlayer.color, toIndex)
        && white.checkers == Written(old(white.checkers), White, ws)
        && black.checkers == Written(old(black.checkers), Black, ws)
      ensures r == Done(true) && fromIndex != 0 ==>
        var ws := MoveWrites(old(board.model), currentPlayer.color, fromIndex, toIndex);
        && board.model == Move(old(board.model), currentPlayer.color, Opponent(currentPlayer.color), fromIndex, toIndex)
        && white.checkers == Written(old(white.checkers), White, ws)
        && black.checkers == Written(old(black.checkers), Black, ws)
      ensures || fromIndex == 0 || Bar(old(board.model), currentPlayer.color) == [] || !OnBoard(fromIndex)
              || StackOwner(Stack(old(board.model), fromIndex)) != Some(Opponent(currentPlayer.color))
              ==> Valid()
      ensures white.bearOff == old(white.bearOff) && black.bearOff == old(black.bearOff)
    {
      hide Valid, Ready, Synced, Inv, NonZero, Written, Enter, EnterWrites, Move, MoveWrites, Hit, HitWrites, Use, Contents, WellFormed, FirstEntryDie, FirstMoveDie, BarMoveAllowed, IsMoveValidAsWritten, board.Valid;
      ValidIsReady();
      var vals := dice.GetDiceValues();
      if fromIndex == 0 {
        var die := EntryDieOf(toIndex, vals);
        if die == None {
          return Done(false);
        }
        EnterWith(toIndex, die.value);
        ValidIsReady();
        return Done(true);
      }
      var die := MoveDieOf(fromIndex, toIndex, vals);
      if die == None {
        return Done(false);
      }
      r := MoveWith(fromIndex, toIndex, die.value);
    }

    /** The dice loop of `MakeMove`'s bar branch: the first die for which
        `IsValidBarMove(toIndex, die)` holds. */
    method EntryDieOf(toIndex: int, vals: seq<int>) returns (r: Option<int>)
      requires Valid()
      ensures r == FirstEntryDie(board.model, currentPlayer.color, toIndex, vals)
    {
      for i := 0 to |vals|
        invariant FirstEntryDie(board.model, currentPlayer.color, toIndex, vals[i..])
               == FirstEntryDie(board.model, currentPlayer.color, toIndex, vals)
      {
        assert vals[i..][1..] == vals[i + 1..];
        if IsValidBarMove(toIndex, vals[i]) {
          return Some(vals[i]);
        }
      }
      assert vals[|vals|..] == [];
      return None;
    }

    /** The dice loop of `MakeMove`'s other branch: the first die for which
        `IsMoveValid(fromIndex, toIndex, die)` holds. */
    method MoveDieOf(fromIndex: int, toIndex: int, vals: seq<int>) returns (r: Option<int>)
      requires Valid()
      ensures r == FirstMoveDie(board.model, currentPlayer.color, fromIndex, toIndex, vals)
    {
      for i := 0 to |vals|
        invariant FirstMoveDie(board.model, currentPlayer.color, fromIndex, toIndex, vals[i..])
               == FirstMoveDie(board.model, currentPlayer.color, fromIndex, toIndex, vals)
      {
        assert vals[i..][1..] == vals[i + 1..];
        if IsMoveValid(fromIndex, toIndex, vals[i]) {
          return Some(vals[i]);
        }
      }
      assert vals[|vals|..] == [];
      return None;
    }

    /** `Dice.UseDie(v)` for a showing non-zero value `v`: the dice stay in a
        state the dice produce and exactly one showing `v` is spent. */
    method DiceUsed(v: int)
      requires Inv(dice.Model()) && v != 0 && v in dice.GetDiceValues()
      modifies dice
      ensures Inv(dice.Model()) && dice.Model() == Use(old(dice.Model()), v)
      ensures multiset(NonZero(dice.GetDiceValues())) == multiset(NonZero(old(dice.GetDiceValues()))) - multiset{v}
    {
      UseKeepsInv(dice.Model(), v);
      UseConsumesOne(dice.Model(), v);
      dice.UseDie(v);
    }

    /** `MakeMove`'s bar branch once `die` allows the entry on `toIndex`:
        the board re-enters the top checker of the bar (hitting a blot there)
        and the die is spent. */
    method EnterWith(toIndex: int, die: int)
      requires Valid() && Bar(board.model, currentPlayer.color) != []
      requires BarMoveAllowed(board.model, currentPlayer.color, toIndex, die) && die in dice.GetDiceValues()
      modifies board, board.Repr, white, black, dice
      ensures Valid()
      ensures var ws := EnterWrites(old(board.model), currentPlayer.color, toIndex);
        && board.model == Enter(old(board.model), currentPlayer.color, toIndex)
        && white.checkers == Written(old(white.checkers), White, ws)
        && black.checkers == Written(old(black.checkers), Black, ws)
      ensures white.bearOff == old(white.bearOff) && black.bearOff == old(black.bearOff)
      ensures dice.Model() == Use(old(dice.Model()), die)
      ensures multiset(NonZero(dice.GetDiceValues())) == multiset(NonZero(old(dice.GetDiceValues()))) - multiset{die}
    {
      hide Synced, Inv, NonZero, Written, Enter, EnterWrites, Use, Contents, WellFormed;
      ghost var b := board.model;
      ghost var p := currentPlayer.color;
      ghost var ws := EnterWrites(b, p, toIndex);
      EntryDie(b, p, toIndex, die);
      EnterKeepsSynced(b, white.checkers, black.checkers, p, toIndex);
      WrittenLength(white.checkers, White, ws);
      WrittenLength(black.checkers, Black, ws);
      DiceUsed(die);
      board.EnterChecker(currentPlayer, GetOpponent(), toIndex);
    }

    /** `MakeMove`'s other branch once `die` passes `IsMoveValid`: the board's
        `MoveChecker` moves the top checker of `fromIndex` to `toIndex`
        (hitting a blot there) and the die is spent; from an empty point it
        throws after the hit, before the die is spent. */
    method MoveWith(fromIndex: int, toIndex: int, die: int) returns (r: Outcome<bool>)
      requires Valid() && fromIndex != 0
      requires IsMoveValidAsWritten(board.model, currentPlayer.color, fromIndex, toIndex, die) && die in dice.GetDiceValues()
      modifies board, board.Repr, white, black, dice
      ensures Ready()
      ensures r == Failed(Crash) <==> OnBoard(fromIndex) && OnBoard(toIndex) && Stack(old(board.model), fromIndex) == []
      ensures r == Done(true) || r == Failed(Crash)
      ensures r == Failed(Crash) ==>
        var ws := HitWrites(old(board.model), currentPlayer.color, toIndex);
        && Bar(old(board.model), currentPlayer.color) != []
        && board.model == Hit(old(board.model), currentPlayer.color, Opponent(currentPlayer.color), toIndex)
        && white.checkers == Written(old(white.checkers), White, ws)
        && black.checkers == Written(old(black.checkers), Black, ws)
        && dice.Model() == old(dice.Model())
      ensures r == Done(true) ==>
        var ws := MoveWrites(old(board.model), currentPlayer.color, fromIndex, toIndex);
        && board.model == Move(old(board.model), currentPlayer.color, Opponent(currentPlayer.color), fromIndex, toIndex)
        && white.checkers == Written(old(white.checkers), White, ws)
        && black.checkers == Written(old(black.checkers), Black, ws)
        && dice.Model() == Use(old(dice.Model()), die)
        && multiset(NonZero(dice.GetDiceValues())) == multiset(NonZero(old(dice.GetDiceValues()))) - multiset{die}
      ensures || Bar(old(board.model), currentPlayer.color) == [] || !OnBoard(fromIndex)
              || StackOwner(Stack(old(board.model), fromIndex)) != Some(Opponent(currentPlayer.color))
              ==> Valid()
      ensures white.bearOff == old(white.bearOff) && black.bearOff == old(black.bearOff)
    {
      hide Synced, Inv, NonZero, Written, Move, MoveWrites, Hit, HitWrites, Use, Contents, WellFormed;
      ghost var b := board.model;
      ghost var p := currentPlayer.color;
      MoveDie(b, p, fromIndex, toIndex, die);
      ghost var keeps := Bar(b, p) == [] || !OnBoard(fromIndex) || StackOwner(Stack(b, fromIndex)) != Some(Opponent(p));
      if !OnBoard(fromIndex) {
        MoveOffBoardKeepsAll(b, white.checkers, black.checkers, p, fromIndex, toIndex);
      } else if Stack(b, fromIndex) == [] {
        HitKeepsSynced(b, white.checkers, black.checkers, p, toIndex);
        WrittenLength(white.checkers, White, HitWrites(b, p, toIndex));
        WrittenLength(black.checkers, Black, HitWrites(b, p, toIndex));
      } else if StackOwner(Stack(b, fromIndex)) == Some(p) {
        if fromIndex == toIndex {
          MoveToSelfKeepsAll(b, white.checkers, black.checkers, p, fromIndex);
        } else {
          MoveKeepsSynced(b, white.checkers, black.checkers, p, fromIndex, toIndex);
          WrittenLength(white.checkers, White, MoveWrites(b, p, fromIndex, toIndex));
          WrittenLength(black.checkers, Black, MoveWrites(b, p, fromIndex, toIndex));
        }
      }
      var thrown := board.MoveChecker(currentPlayer, GetOpponent(), fromIndex, toIndex);
      if thrown {
        return Failed(Crash);
      }
      DiceUsed(die);
      return Done(true);
    }

    /** `BearOffChecker(fromIndex)`: the point is read before any check of the
        index, so an index off the points throws. Otherwise, when the point is
        the current player's and `CanBearOffFromIndex` passes, its top checker
        leaves the point and the player's list for the borne-off list, and the
        die covering the distance to off (the exact die, else the smallest
        larger one) is spent. */
    method BearOffChecker(fromIndex: int) returns (r: Outcome<bool>)
      requires Valid()
      modifies board, board.Repr, currentPlayer, dice
      ensures Valid()
      ensures r == Failed(Crash) <==> !OnBoard(fromIndex)
      ensures r.Failed? ==> r.fault == Crash
      ensures r == Done(true) <==> (&& OnBoard(fromIndex)
                                    && StackOwner(Stack(old(board.model), fromIndex)) == Some(currentPlayer.color)
                                    && Rules.BearOffFromIndex(old(board.model), currentPlayer.color, fromIndex, old(dice.GetDiceValues())))
      ensures r != Done(true) ==> && board.model == old(board.model) && dice.Model() == old(dice.Model())
                                  && currentPlayer.checkers == old(currentPlayer.checkers)
                                  && currentPlayer.bearOff == old(currentPlayer.bearOff)
      ensures r == Done(true) ==>
        var s := Stack(old(board.model), fromIndex);
        var die := BearOffDie(old(dice.GetDiceValues()), Distance(currentPlayer.color, fromIndex));
        && board.model == WithStack(old(board.model), fromIndex, s[..|s| - 1])
        && currentPlayer.checkers == RemoveFirst(old(currentPlayer.checkers), s[|s| - 1])
        && currentPlayer.bearOff == old(currentPlayer.bearOff) + [s[|s| - 1]]
        && dice.Model() == Use(old(dice.Model()), die)
        && multiset(NonZero(dice.GetDiceValues())) == multiset(NonZero(old(dice.GetDiceValues()))) - multiset{die}
    {
      hide Synced, Inv, NonZero, Use, Contents, WellFormed, Rules.BearOffFromIndex, BearOffDie;
      if fromIndex < 1 || fromIndex > 24 {
        return Failed(Crash);
      }
      var color := currentPlayer.color;
      var point := board.points[fromIndex - 1];
      if point.Owner() != Some(color) {
        return Done(false);
      }
      var canBearOff := CanBearOffFromIndex(fromIndex);
      if !canBearOff {
        return Done(false);
      }
      BearOffTop(fromIndex);
      return Done(true);
    }

    /** `BearOffChecker` once its tests pass: the top checker goes to the
        borne-off list and the die covering the distance is spent. */
    method BearOffTop(fromIndex: int)
      requires Valid() && OnBoard(fromIndex) && StackOwner(Stack(board.model, fromIndex)) == Some(currentPlayer.color)
      requires Rules.BearOffFromIndex(board.model, currentPlayer.color, fromIndex, dice.GetDiceValues())
      modifies board, board.Repr, currentPlayer, dice
      ensures Valid()
      ensures var s := Stack(old(board.model), fromIndex);
        var die := BearOffDie(old(dice.GetDiceValues()), Distance(currentPlayer.color, fromIndex));
        && board.model == WithStack(old(board.model), fromIndex, s[..|s| - 1])
        && currentPlayer.checkers == RemoveFirst(old(currentPlayer.checkers), s[|s| - 1])
        && currentPlayer.bearOff == old(currentPlayer.bearOff) + [s[|s| - 1]]
        && dice.Model() == Use(old(dice.Model()), die)
        && multiset(NonZero(dice.GetDiceValues())) == multiset(NonZero(old(dice.GetDiceValues()))) - multiset{die}
    {
      hide Synced, Inv, NonZero, Use, Contents, WellFormed, Rules.BearOffFromIndex, board.Valid;
      var color := currentPlayer.color;
      var checker := RemoveToBorneOff(fromIndex);
      var diceValues := dice.GetDiceValues();
      BearOffDieChoice(old(board.model), color, fromIndex, diceValues);
      var targetDie := if color == White then 25 - fromIndex else fromIndex;
      var dieToUse := BearOffDie(diceValues, targetDie);
      if dieToUse <= 0 {
        // The bear-off test passed, so a die covers the distance.
        assert false;
      }
      DiceUsed(dieToUse);
    }

    /** The first half of a bear-off: the top checker of an own point leaves
        the point and the current player's list for its borne-off list. */
    method RemoveToBorneOff(fromIndex: int) returns (c: Checker)
      requires Valid() && OnBoard(fromIndex) && StackOwner(Stack(board.model, fromIndex)) == Some(currentPlayer.color)
      modifies board, board.Repr, currentPlayer
      ensures Valid()
      ensures var s := Stack(old(board.model), fromIndex);
        && c == s[|s| - 1]
        && board.model == WithStack(old(board.model), fromIndex, s[..|s| - 1])
        && currentPlayer.checkers == RemoveFirst(old(currentPlayer.checkers), c)
        && currentPlayer.bearOff == old(currentPlayer.bearOff) + [c]
      ensures dice.Model() == old(dice.Model())
    {
      hide Synced, Inv, NonZero, Use, Contents, WellFormed;
      BearOffKeepsSynced(board.model, white.checkers, black.checkers, currentPlayer.color, fromIndex);
      var point := board.points[fromIndex - 1];
      var checker := point.RemoveChecker();
      board.model := WithStack(board.model, fromIndex, point.checkers);
      currentPlayer.BearOffChecker(checker.value);
      c := checker.value;
    }

    /** `CheckForWinner`: the game is over once the current player has borne
        off fifteen checkers, that is, once none of its checkers is left on
        the points or its bar (the announcement is console output). */
    method CheckForWinner()
      requires Valid()
      modifies this
      ensures Valid()
      ensures currentPlayer == old(currentPlayer) && currentPlayerIndex == old(currentPlayerIndex)
      ensures isGameOver == (old(isGameOver) || |currentPlayer.bearOff| == 15)
      ensures isGameOver == (old(isGameOver) || forall c :: c in Contents(board.model) ==> c.color != currentPlayer.color)
    {
      AllBorneOff(board.model, white.checkers, black.checkers, currentPlayer.color, |currentPlayer.bearOff|);
      if |currentPlayer.bearOff| == 15 {
        isGameOver := true;
      }
    }

    /** `EndTurn`: unless the game is over (before or after `CheckForWinner`),
        both dice values are zeroed and the turn passes to the opponent. */
    method EndTurn()
      requires Valid()
      modifies this, dice
      ensures Valid()
      ensures isGameOver == (old(isGameOver) || |old(currentPlayer).bearOff| == 15)
      ensures isGameOver ==> && currentPlayer == old(currentPlayer) && currentPlayerIndex == old(currentPlayerIndex)
                             && dice.Model() == old(dice.Model())
      ensures !isGameOver ==> && currentPlayer == old(GetOpponent()) && currentPlayerIndex == 1 - old(currentPlayerIndex)
                              && dice.Model() == old(dice.Model()).(value1 := 0, value2 := 0)
                              && !dice.HasMovesLeft()
    {
      hide Synced, NonZero, Use, Contents, WellFormed;
      if !isGameOver {
        CheckForWinner();
        if !isGameOver {
          dice.value1 := 0;
          dice.value2 := 0;
          MovesLeftIffValueShowing(dice.Model());
          SwitchTurn();
        }
      }
    }

    /** `SwitchTurn`: the index flips between 0 and 1 and `CurrentPlayer`
        follows it, so the two players trade places. */
    method SwitchTurn()
      requires Ready()
      modifies this
      ensures Ready()
      ensures currentPlayerIndex == 1 - old(currentPlayerIndex)
      ensures currentPlayer == old(GetOpponent()) && GetOpponent() == old(currentPlayer)
      ensures isGameOver == old(isGameOver)
    {
      currentPlayerIndex := if currentPlayerIndex == 0 then 1 else 0;
      currentPlayer := if currentPlayerIndex == 0 then white else black;
    }

    /** `HasAvailableMoves`: with a checker on the bar, whether some die
        enters; otherwise whether some own point can bear off (when
        `CanBearOff` passes) or move by some die in either direction. */
    method HasAvailableMoves() returns (r: bool)
      requires Valid()
      ensures r == HasMoves(board.model, currentPlayer.color, currentPlayer.checkers, dice.GetDiceValues())
    {
      if board.GetBar(currentPlayer.color) != [] {
        r := CanEnter();
        return;
      }
      var canBearOff := CanBearOff();
      if canBearOff {
        var bearOff := CanBearOffSomewhere();
        if bearOff {
          return true;
        }
      }
      r := CanMoveSomewhere();
    }

    /** The bar loop of `HasAvailableMoves`: whether some die enters. */
    method CanEnter() returns (r: bool)
      requires Ready()
      ensures r == exists d, to :: d in dice.GetDiceValues() && BarMoveAllowed(board.model, currentPlayer.color, to, d)
    {
      var vals := dice.GetDiceValues();
      ghost var b := board.model;
      ghost var p := currentPlayer.color;
      for i := 0 to |vals|
        invariant forall j, to :: 0 <= j < i ==> !BarMoveAllowed(b, p, to, vals[j])
      {
        var enters := CanEnterWith(vals[i]);
        if enters {
          assert vals[i] in vals;
          return true;
        }
      }
      return false;
    }

    /** The bear-off loop of `HasAvailableMoves`: whether some own point
        passes `CanBearOffFromIndex`. */
    method CanBearOffSomewhere() returns (r: bool)
      requires Ready()
      ensures r == exists i :: 1 <= i <= 24 && StackOwner(Stack(board.model, i)) == Some(currentPlayer.color)
                                && Rules.BearOffFromIndex(board.model, currentPlayer.color, i, dice.GetDiceValues())
    {
      ghost var b := board.model;
      ghost var p := currentPlayer.color;
      for k := 0 to 24
        invariant forall i :: 1 <= i <= k && StackOwner(Stack(b, i)) == Some(p) ==> !Rules.BearOffFromIndex(b, p, i, dice.GetDiceValues())
      {
        var point := board.points[k];
        if point.Owner() == Some(currentPlayer.color) {
          var ok := CanBearOffFromIndex(point.index);
          if ok {
            return true;
          }
        }
      }
      return false;
    }

    /** The last loop of `HasAvailableMoves`: whether some own point moves
        a checker by some die. */
    method CanMoveSomewhere() returns (r: bool)
      requires Ready()
      ensures r == exists i, d :: 1 <= i <= 24 && d in dice.GetDiceValues() && StackOwner(Stack(board.model, i)) == Some(currentPlayer.color)
                                   && MovesBy(board.model, currentPlayer.color, i, d)
    {
      ghost var b := board.model;
      ghost var p := currentPlayer.color;
      for k := 0 to 24
        invariant forall i, d :: 1 <= i <= k && d in dice.GetDiceValues() && StackOwner(Stack(b, i)) == Some(p) ==> !MovesBy(b, p, i, d)
      {
        var point := board.points[k];
        if point.Owner() == Some(currentPlayer.color) {
          var moves := CanMoveFrom(point.index);
          if moves {
            return true;
          }
        }
      }
      return false;
    }

    /** One die of the bar loop of `HasAvailableMoves`: the scan of 1..6,
        which only White's test passes, then of 19..24, which only Black's
        passes. */
    method CanEnterWith(diceValue: int) returns (r: bool)
      requires Ready()
      ensures r == exists to :: BarMoveAllowed(board.model, currentPlayer.color, to, diceValue)
    {
      for toIndex := 1 to 7
        invariant forall t :: 1 <= t < toIndex && currentPlayer.color == White
                    ==> !BarMoveAllowed(board.model, currentPlayer.color, t, diceValue)
      {
        if currentPlayer.color == White && IsValidBarMove(toIndex, diceValue) {
          return true;
        }
      }
      for toIndex := 19 to 25
        invariant forall t :: 19 <= t < toIndex && currentPlayer.color == Black
                    ==> !BarMoveAllowed(board.model, currentPlayer.color, t, diceValue)
      {
        if currentPlayer.color == Black && IsValidBarMove(toIndex, diceValue) {
          return true;
        }
      }
      return false;
    }

    /** One point of the last loop of `HasAvailableMoves`: whether some die
        moves a checker from `startIndex` forward or backward. */
    method CanMoveFrom(startIndex: int) returns (r: bool)
      requires Ready()
      ensures r == exists d :: d in dice.GetDiceValues() && MovesBy(board.model, currentPlayer.color, startIndex, d)
    {
      var vals := dice.GetDiceValues();
      ghost var b := board.model;
      ghost var p := currentPlayer.color;
      for j := 0 to |vals|
        invariant forall k :: 0 <= k < j ==> !MovesBy(b, p, startIndex, vals[k])
      {
        var forwardIndex := startIndex + vals[j];
        var backwardIndex := startIndex - vals[j];
        var f := IsMoveValid(startIndex, forwardIndex, vals[j]);
        var g := IsMoveValid(startIndex, backwardIndex, vals[j]);
        assert f || g <==> MovesBy(b, p, startIndex, vals[j]);
        if f || g {
          return true;
        }
      }
      return false;
    }

    /** `GetAvailableEndPoints(startIndex)`: for index 0 the entry points of
        each die, otherwise (on an own point) the points each die reaches
        forward or backward that `IsMoveValid` accepts, in dice order. A
        start index other than 0 is read from the points array first, so one
        off the points throws. */
    method GetAvailableEndPoints(startIndex: int) returns (r: Outcome<seq<int>>)
      requires Ready()
      ensures r.Failed? <==> !(0 <= startIndex <= 24)
      ensures r.Failed? ==> r.fault == Crash
      ensures r.Done? ==> r.value == EndPoints(board.model, currentPlayer.color, startIndex, dice.GetDiceValues())
    {
      if startIndex < 0 || startIndex > 24 {
        return Failed(Crash);
      }
      var points := [];
      if startIndex != 0 {
        var startPoint := board.points[startIndex - 1];
        if startPoint.Owner() != Some(currentPlayer.color) {
          return Done(points);
        }
      }
      var vals := dice.GetDiceValues();
      for i := 0 to |vals|
        invariant points == EndPoints(board.model, currentPlayer.color, startIndex, vals[..i])
      {
        EndPointsStep(board.model, currentPlayer.color, startIndex, vals, i);
        var ends := DieEndPoints(startIndex, vals[i]);
        points := points + ends;
      }
      assert vals[..|vals|] == vals;
      return Done(points);
    }

    /** The body of `GetAvailableEndPoints`'s loop over the dice: from the
        bar, the entry points of the die (scanning 1..6 for White, 19..24 for
        Black); from a point, the point `diceValue` up and the point
        `diceValue` down, each when the move is valid. */
    method DieEndPoints(startIndex: int, diceValue: int) returns (r: seq<int>)
      requires Ready()
      ensures r == EndPointsOf(board.model, currentPlayer.color, startIndex, diceValue)
    {
      r := [];
      if startIndex == 0 {
        var lo := if currentPlayer.color == White then 1 else 19;
        for toIndex := lo to lo + 6
          invariant r == EntryScan(board.model, currentPlayer.color, diceValue, lo, toIndex - lo)
        {
          if IsValidBarMove(toIndex, diceValue) {
            r := r + [toIndex];
          }
        }
      } else {
        var forwardIndex := startIndex + diceValue;
        var backwardIndex := startIndex - diceValue;
        if IsMoveValid(startIndex, forwardIndex, diceValue) {
          r := r + [forwardIndex];
        }
        if IsMoveValid(startIndex, backwardIndex, diceValue) {
          r := r + [backwardIndex];
        }
      }
    }

    /** The innermost loop of `CanBearOffFromIndex`: whether a point farther
        from home than `srcIndex` holds a checker of the current player. */
    method FartherOwnScan(srcIndex: int) returns (r: bool)
      requires Ready()
      ensures r == Rules.FartherOwn(board.model, currentPlayer.color, srcIndex)
    {
      var color := currentPlayer.color;
      for k := 0 to 24
        invariant forall j :: 1 <= j <= k && (if color == White then j < srcIndex else j > srcIndex)
                    ==> StackOwner(Stack(board.model, j)) != Some(color)
      {
        var point := board.points[k];
        if (color == White && point.index < srcIndex) || (color == Black && point.index > srcIndex) {
          if point.Owner() == Some(color) && |point.checkers| > 0 {
            assert StackOwner(Stack(board.model, k + 1)) == Some(color);
            return true;
          }
        }
      }
      return false;
    }
  }
}
