# Backgammon core, modelled in Dafny

A model of the rules engine and the computer player of a two-player
backgammon program (`Core/` and `Core/AI/AI.cs`, written in C#).

The board has 24 points numbered 1 to 24. White moves from low to high
indices and bears off from 19..24. Black moves from high to low and bears off
from 1..6. Each colour has a bar for hit checkers.

The modules:

- **The data layer is imperative, as in the source.**
  - `Points.Point`, `Players.Player`, `DiceModel.Dice`, `Boards.GameBoard` and `Games.Game` are classes whose methods update their fields.
  - Each class is proved against a value model: `Points.Push`/`Pop`, the `Board` value, `DiceModel.DiceState` and `Use`.
  - Checkers are values. A write to a checker's `Position` is applied both to the board and to the list of the player who owns it (`Players.Written`). `GameStates.Synced` states that the lists and the board agree.
- **The rules are predicates on the board value.**
  - `Rules` is `GameUtils`.
  - `GameRules` holds the game's own checks and the loops of `Game` as functions.
  - The `Game` class uses its own move check as written (`GameRules.IsMoveValidAsWritten`), whose bar branch ignores `from`. A move from an empty point then throws in the board's `MoveChecker`, modelled as `Failed(Crash)`.
  - `Openings` is the starting layout.
- **The computer player is a class `AIPlayer.AI`.** Its `stateToMoves` table is a field that persists between searches, as in the source.
  - Each of its methods is proved against a function on values:
    - `Search.Expand`/`Branches`/`Unique` for the depth-first search over dice orders;
    - `Strategy.MiniMax`/`OverOutcomes`/`OverStates` for `ExpectMiniMax`;
    - `Strategy.Candidates`/`Pick`/`BestMove` for `GetBestMove`.
  - The properties are lemmas about those functions.
  - `MoveGen` lists the moves and simulates them, `BoardHash` builds the board hash and `Evaluation` computes the pip-count score.
- **An operation can end without a result.** An operation that would dereference a missing checker or step outside the points ends in `Failed(Crash)`. Recursion that the source bounds only by the call stack is cut off by a fuel parameter and ends in `Failed(OutOfFuel)`.

The search is modelled as written, defects included:

- A bar entry in `SimulateMove` pops the checker from the bar of the board being searched, not from the clone's. The clone keeps the checker on its bar and also receives it on the point.
- An entry never hits a blot.
- A move consumes the die `|From - To|`. For a bear-off that is `from + 1`, and for a Black entry it is at least 19. With the clone keeping its bar checker, a Black entry can then repeat without end (`Search.BlackEntryNeverReturns`).
- The table is never cleared.
- `ExpectMiniMax` weighs no probabilities.
- `EvaluateBoard` rewards the player's own remaining distance. A forward step, a hit or a bear-off all lower the mover's score (`Evaluation.ValidStepLowersScore`, `Evaluation.SimulateBearOffScore`).

## Model

| member | source | states |
|---|---|---|
| Checkers.WithPosition | Core/Checker.cs:6-7 | assigning `Position` stores the new value and keeps the colour; assigning the old value back restores the checker |
| Checkers.Opponent | Core/AI/AI.cs:330-335 | the opponent of a colour is the other colour |
| Seqs.FirstIndex | Core/AI/AI.cs:263-264 | the position of the first occurrence of a present element |
| Seqs.RemoveFirst | Core/Player.cs:15-18 | `List.Remove`: a present element loses exactly one copy, an absent one leaves the list unchanged |
| Seqs.RemoveFirstSplit | Core/AI/AI.cs:263-264 | removal takes out the first occurrence and keeps everything before and after it in order |
| Seqs.ReplaceFirst | Core/Checker.cs:6 | writing through the first occurrence of a checker replaces that one element and no other |
| Seqs.ReplaceFirstSame | Core/Checker.cs:6 | writing a checker's own value back leaves the list as it was |
| Points.StackOwner | Core/Point.cs:33 | `Owner` is none exactly for an empty point, otherwise the colour of the bottom checker |
| Points.Push | Core/Point.cs:15-18 | `AddChecker` appends one checker at the top and keeps every earlier checker |
| Points.Pop | Core/Point.cs:21-30 | `RemoveChecker` returns nothing on an empty point and leaves it empty; otherwise it returns the top checker, and pushing it back gives the original stack |
| Points.PushPop | Core/Point.cs:15-30 | removing right after adding returns the added checker and the original stack |
| Points.BlotOwner | Core/Point.cs:36-39 | `IsBlot(c)` holds iff the point holds exactly one checker and is owned by the other colour |
| Points.Point.constructor | Core/Point.cs:8-12 | a new point has its index and no checkers |
| Points.Point.AddChecker | Core/Point.cs:15-18 | the point's stack becomes `Push` of the old stack |
| Points.Point.RemoveChecker | Core/Point.cs:21-30 | the result and the new stack are `Pop` of the old stack |
| Players.AllInHome | Core/Player.cs:27-37 | true iff every checker's position is one of the home indices; true for an empty list |
| Players.WrittenLength | Core/Checker.cs:6 | writing positions through shared checkers never changes the length of a player's list |
| Players.SetPosition | Core/Checker.cs:6 | a position write reaches the list of whichever player holds the checker; borne-off lists stay unchanged |
| Players.Player.constructor | Core/Player.cs:8-12 | a new player has its colour and no checkers |
| Players.Player.AddChecker | Core/Player.cs:21-24 | appends exactly one checker |
| Players.Player.BearOffChecker | Core/Player.cs:15-18 | removes the first occurrence of the checker and records it in the borne-off list that `Game` counts; an absent checker changes nothing |
| Players.Player.Relocate | Core/Checker.cs:6 | the first occurrence of the checker takes the new position; nothing else changes |
| DiceModel.Repeat | Core/Dice.cs:30-33 | `n` copies of one value |
| DiceModel.RollValues | Core/Dice.cs:18-25 | after a roll of two values in 1..6, `IsDouble` holds iff they are equal, the usage count is 0, and the values are four copies for a double and the pair otherwise |
| DiceModel.UseKeepsInv | Core/Dice.cs:38-57 | `UseDie` keeps the dice invariant: the usage count stays within 0..4 and agrees with the values shown |
| DiceModel.UseConsumesOne | Core/Dice.cs:38-57 | using a value that is showing removes exactly one copy of it from the non-zero values |
| DiceModel.UseDoubleConsumesOne | Core/Dice.cs:40-47 | on a double, each use removes one copy of the value |
| DiceModel.UsePairConsumesOne | Core/Dice.cs:49-56 | on a non-double, using `Value1` zeroes it alone and using `Value2` zeroes it alone |
| DiceModel.UseAbsentValue | Core/Dice.cs:38-57 | using a value that is not showing changes no non-zero value |
| DiceModel.MovesLeftIffValueShowing | Backgammon.Tests/DiceTests.cs:130-141 | `HasMovesLeft` holds iff some value is still showing |
| DiceModel.UseBoth | Backgammon.Tests/DiceTests.cs:144-158 | after a non-double roll, using both values leaves both at 0 and no moves left |
| DiceModel.FourUsesOfDouble | Core/Dice.cs:40-47 | on a double, one use counts one, and the fourth use zeroes both dice and leaves no values |
| DiceModel.Dice.constructor | Core/Dice.cs:12-15 | a new dice object shows 0 and 0 and does not roll |
| DiceModel.Dice.Roll | Core/Dice.cs:18-25 | the dice become the rolled state of the two drawn values |
| DiceModel.Dice.UseDie | Core/Dice.cs:38-57 | the dice become `Use` of the old state and the value |
| Boards.WithStack | Core/Point.cs:15-30 | replacing one point's stack leaves every other point and both bars unchanged |
| Boards.WithBar | Core/AI/AI.cs:297 | replacing one colour's bar leaves the other bar and every point unchanged |
| Boards.PopContents | Core/Point.cs:21-30 | popping a point removes exactly its top checker from the board's checkers |
| Boards.PopBarContents | Core/AI/AI.cs:297 | popping a bar removes exactly its top checker from the board's checkers |
| Boards.PushContents | Core/Point.cs:15-18 | pushing on a point adds exactly that checker to the board's checkers |
| Boards.BarPushContents | Core/AI/AI.cs:317 | pushing on a bar adds exactly that checker to the board's checkers |
| Boards.LandContents | Core/GameBoard.cs:31-41 | landing adds the mover at its new position, and on a blot swaps the blot for its copy at -1 |
| Boards.PopKeepsWellFormed | Core/GameBoard.cs:25-29 | taking the top checker off a point keeps the board well formed |
| Boards.AppendKeepsWellFormed | Core/Game.cs:46-54 | adding checkers of the owner's colour at the point's index keeps the board well formed |
| Boards.LandWellFormed | Core/GameBoard.cs:31-41 | landing on an open point, with a hit blot sent to the opponent's bar, keeps the board well formed |
| Boards.MoveAllowedIff | Core/GameBoard.cs:45-59 | `IsMoveValid` holds iff both indices are on the board, the source is the player's, the destination is empty, the player's own or a blot, and the indices differ by the die in either direction |
| Boards.OpenIff | Core/GameBoard.cs:57 | a destination is open iff it is empty, owned by the player or a blot |
| Boards.LandEffect | Core/GameBoard.cs:31-41 | landing on a blot sends the blot, at position -1, to the hit bar and leaves only the mover on the point; otherwise the mover is pushed; nothing else changes |
| Boards.MoveOffBoard | Core/GameBoard.cs:20-23 | a move with an index outside 1..24 changes nothing and writes no position |
| Boards.MovePlain | Core/GameBoard.cs:25-41 | a move onto a non-blot pops the source, pushes the checker at its new position on the destination, and changes nothing else |
| Boards.MoveHit | Core/GameBoard.cs:32-41 | a move onto a blot pops the source, puts the blot at -1 on the chosen bar, leaves only the mover on the destination, and changes nothing else |
| Boards.MoveContents | Core/GameBoard.cs:18-42 | a move keeps the multiset of checkers except for the moved and hit checkers, whose positions are rewritten |
| Boards.MoveKeepsCount | Core/GameBoard.cs:18-42 | a move never changes the number of checkers on the points and bars |
| Boards.MoveKeepsWellFormed | Core/GameBoard.cs:18-42 | an allowed move that sends the hit blot to the opponent's bar keeps every point single-coloured at its own position and every bar of its own colour |
| Boards.EnterContents | Core/Game.cs:215-227 | an entry takes the top bar checker to the point at its new position, and a hit blot to the opponent's bar at -1 |
| Boards.EnterKeepsWellFormed | Core/Game.cs:209-229 | an entry onto an open point keeps the board well formed |
| Boards.MoveAsWrittenMisplacesHit | Core/GameBoard.cs:36 | the three-argument move puts a hit Black blot on White's bar, which breaks well-formedness |
| Boards.MoveAsWritten | Core/GameBoard.cs:18-42 | the three-argument `MoveChecker` as written, with the hit blot on the mover's bar; `MoveAsWrittenMisplacesHit` shows where that goes wrong |
| Boards.MoveToSelf | Core/GameBoard.cs:25-41 | moving the top checker of an own point onto the same point leaves the board as it was, with one position write of that point |
| Boards.HitContents | Core/Game.cs:239 | a hit on `to` moves one opposing blot from the point to a bar and keeps every other checker |
| Boards.HitKeepsWellFormed | Core/Game.cs:239 | a hit on `to` that sends the blot to the opponent's bar keeps the board well formed |
| Boards.GameBoard.constructor | Core/GameBoard.cs:7-15 | a new board has 24 point objects, point `i` with index `i`, all empty, and empty bars |
| Boards.GameBoard.AddToBar | Core/AI/AI.cs:317 | pushes a checker on the bar of a colour and changes nothing else |
| Boards.GameBoard.RemoveFromBar | Core/AI/AI.cs:297 | pops and returns the top checker of a colour's bar and changes nothing else |
| Boards.GameBoard.HitBlot | Core/Game.cs:218-225 | the blot leaves its point for the opponent's bar at position -1, and both players' lists see the write |
| Boards.GameBoard.PlaceChecker | Core/Game.cs:226-227 | pushes the checker at its new position and writes that position into the lists |
| Boards.GameBoard.MoveChecker | Core/Game.cs:239 | the four-argument `MoveChecker`, as `MakeMove` calls it, also on an empty `from`: it reports the throw exactly when `from` and `to` are points and `from` is empty, after sending a blot on `to` to the opponent's bar (`Hit`, with its position write); otherwise the board becomes `Move`, with the hit blot on the opponent's bar, and both lists receive the same position writes |
| Boards.GameBoard.EnterChecker | Core/Game.cs:215-227 | a bar entry: the board becomes `Enter` and both lists receive its position writes |
| Boards.GameBoard.IsMoveValid | Core/GameBoard.cs:45-59 | read off the point objects, equals `MoveAllowed` on the board value |
| Rules.Home | Core/GameUtils.cs:125 | the home quadrant is 19..24 for White and 1..6 for Black |
| Rules.IsValidBarMove | Core/GameUtils.cs:27-56 | bar re-entry; `IsValidBarMoveIff` states it in words |
| Rules.IsMoveValid | Core/GameUtils.cs:5-25 | the stateless move check; `BarPriority` and `MoveDirection` state its two guards |
| Rules.CanBearOff | Core/GameUtils.cs:123-146 | every own checker on a point stands at a home position and some die is non-zero, the bar not consulted; `GameRules.CanBearOffAgrees` ties the game's scan to it |
| Rules.CanBearOffFromIndex | Core/GameUtils.cs:58-121 | `CanBearOffFromIndexIff` and `BearOffFromIndexIff` state it |
| Rules.IsValidBarMoveIff | Core/GameUtils.cs:27-56 | an entry is valid iff the die is 1..6, the point is the die's entry point (`die` for White, `25 - die` for Black), and it does not hold two or more opponent checkers |
| Rules.BarPriority | Core/GameUtils.cs:7-12 | with checkers on the bar, a move is valid iff it starts from 0 and is a valid entry, landing in the entry quadrant |
| Rules.MoveDirection | Core/GameUtils.cs:15-24 | with an empty bar, a move is valid iff it starts from an own point and lands on an open point exactly `die` ahead (up for White, down for Black) |
| Rules.ExactLoopIff | Core/GameUtils.cs:77-87 | the first loop of `CanBearOffFromIndex` holds iff some die bears off exactly |
| Rules.OverageLoopIff | Core/GameUtils.cs:89-120 | the overage loop holds iff no own checker lies farther from off, the point is in the home quadrant and some die exceeds the distance; false on no dice |
| Rules.BearOffFromIndexIff | Core/GameUtils.cs:58-121 | bearing off from a point needs a home point that holds checkers, and then an exact die or an overage |
| Rules.CanBearOffFromIndexIff | Core/GameUtils.cs:58-74 | `CanBearOffFromIndex` is false unless `CanBearOff` holds, the point is home and not empty, and a die then qualifies |
| Rules.BearOffHasDie | Core/GameUtils.cs:58-121 | whenever bearing off passes, some die is at least the distance to off |
| Rules.OverageExample | Core/GameUtils.cs:89-120 | a lone Black checker on point 2 bears off with a 6 |
| GameRules.BarMoveAllowedIff | Core/Game.cs:256-291 | the game's entry check accepts the same entries as the stateless one |
| GameRules.IsMoveValidAsWritten | Core/Game.cs:60-78 | `Game.IsMoveValid` as written; specified by `IsMoveValidAsWrittenIgnoresSource`, `MoveDie`, `MoveTarget` and `Games.Game.IsMoveValid` |
| GameRules.MakeMoveAsWrittenMovesOpponent | Core/Game.cs:235-239 | White on the bar, a Black checker on 10, White on 3, dice 3 and 5: the die 3 is found for `MakeMove(10, 3)` and the move leaves a board that is not well formed |
| GameRules.IsMoveValidAsWrittenIgnoresSource | Core/Game.cs:60-66 | with a checker on the bar, the game's `IsMoveValid` accepts a move from an opponent's point |
| GameRules.IsMoveValidCorrected | Core/Game.cs:60-78 | the game's check, with a move from a point refused while the bar is occupied, is exactly the stateless `IsMoveValid` |
| GameRules.FirstEntryDie | Core/Game.cs:211-214 | the die an entry uses is one showing that allows the entry; there is none iff no showing die allows it |
| GameRules.FirstEntryDieIsFirst | Core/Game.cs:211-214 | that die is the first in `GetDiceValues` order that allows the entry |
| GameRules.FirstMoveDie | Core/Game.cs:235-238 | the die `MakeMove` finds with the game's own check as written: one showing that passes it; there is none iff no showing die does |
| GameRules.FirstMoveDieIsFirst | Core/Game.cs:235-238 | that die is the first in `GetDiceValues` order that passes the check as written |
| GameRules.FirstMoveDieBar | Core/Game.cs:63-66 | with the bar occupied the die found is the first that allows entering `to`; with it empty there is none iff no showing die passes the stateless check |
| GameRules.EntryDie | Core/Game.cs:256-291 | an allowed entry uses a die in 1..6 and lands on an open point |
| GameRules.MoveDie | Core/Game.cs:60-78 | a move from a point that the check as written accepts uses a die of 1..6 and lands on an open point; with the bar occupied that point is the die's entry point, whatever `from` holds; with the bar empty it goes from an own point by the die in the player's direction |
| GameRules.EntryScanMembers | Core/Game.cs:154-173 | the entry scan collects exactly the allowed entry points of its range |
| GameRules.EndPointsStep | Core/Game.cs:185-199 | each die appends its own end points in turn |
| GameRules.MoveTarget | Core/Game.cs:63-77 | a move the check as written accepts ends `die` points up or down from `from` when the bar is empty, and on the die's entry point when it is not |
| GameRules.EndPointsOfPoint | Core/Game.cs:187-198 | one die's end points from a point are exactly `from + die` and `from - die` when the check as written accepts them |
| GameRules.EndPointsFromPoint | Core/Game.cs:176-199 | the end points of an own start point are exactly the destinations `from ± d` that pass the check as written with some showing die `d` |
| GameRules.EndPointsOffBar | Core/Game.cs:176-199 | with the bar empty, the end points of an own point are exactly the destinations the stateless `IsMoveValid` accepts with some die |
| GameRules.EndPointsOnBarExample | Core/Game.cs:184-200 | White on the bar and on point 2, die 1: the end points of point 2 are [1], a move the stateless check refuses |
| GameRules.EndPointsFromBar | Core/Game.cs:148-175 | the end points from the bar are exactly the points some die allows entering |
| GameRules.CanBearOffAgrees | Core/Game.cs:293-302 | on lists in step with the board, the game's `CanBearOff` equals the stateless `CanBearOff` with an empty bar |
| GameRules.CanBearOffScanIff | Core/Game.cs:293-302 | the game's `CanBearOff` holds iff some die is non-zero and every checker of the player's list has a home position |
| GameRules.MinAbove | Core/Game.cs:392 | the smallest showing die strictly above the distance, or none |
| GameRules.BearOffDieChoice | Core/Game.cs:384-405 | bearing off spends the exact-distance die when it shows, otherwise the smallest larger die, and such a die exists |
| GameRules.HasMovesOnBar | Core/Game.cs:84-106 | with checkers on the bar, moves are available iff some die allows entering some point, iff the check as written lets some move from a point find a die |
| GameRules.MovesIff | Core/Game.cs:121-139 | with the bar empty, the only case the last loop is reached: some own point moves by some die iff some move from a point has a die to use |
| GameRules.MovesFromDie | Core/Game.cs:235-238 | a move from a point that `MakeMove` would accept with the bar empty comes from an own point that can move; with the bar occupied it ends on an entry some die allows |
| GameRules.HasMovesOffBar | Core/Game.cs:108-141 | with an empty bar, moves are available iff a bear-off passes from some own point, or some move from a point has a die |
| Openings.Copies | Core/Game.cs:48-53 | `n` copies of one checker |
| Openings.AddCopies | Core/Game.cs:46-54 | adding checkers to a point pushes `count` copies at that position and leaves the bars alone |
| Openings.Place | Core/Game.cs:30-43 | the opening calls never touch the bars |
| Openings.PlaceStack | Core/Game.cs:30-43 | each point receives exactly the checkers the calls aimed at it |
| Openings.OpeningLayout | Core/Game.cs:30-43 | from an empty board, the opening puts 2@1, 5@12, 3@17, 5@19 for White and 2@24, 5@13, 3@8, 5@6 for Black, with empty bars and the lists in step |
| Openings.OpeningCounts | Core/Game.cs:30-43 | each player starts with fifteen checkers |
| Openings.OpeningFacts | Core/Game.cs:30-43 | the board and lists the eight calls build are the opening layout, in step, fifteen checkers a side |
| GameStates.MoveKeepsSynced | Core/Game.cs:239 | a move keeps the players' lists in step with the board |
| GameStates.MoveToSelfKeepsAll | Core/Game.cs:239 | a move from an own point onto itself changes neither the board nor the lists |
| GameStates.MoveOffBoardKeepsAll | Core/GameBoard.cs:20-23 | a move with `from` or `to` off the points changes neither the board nor the lists |
| GameStates.HitKeepsSynced | Core/Game.cs:239 | the hit before a throw keeps the lists in agreement with the board |
| GameStates.EnterKeepsSynced | Core/Game.cs:215-227 | an entry keeps the lists in step with the board |
| GameStates.BearOffKeepsSynced | Core/Game.cs:378-379 | bearing off the top checker keeps the lists in step once it leaves its owner's list |
| GameStates.ListPositions | Core/Player.cs:27-37 | a checker in a list in step with the board is on the bar when its position is -1 and on the point its position names otherwise |
| GameStates.AllBorneOff | Core/Game.cs:417-424 | fifteen borne off is the same as no checker of that colour left on the board |
| GameStates.AddKeepsSynced | Core/Game.cs:46-54 | adding checkers of one colour to a point and to that colour's list keeps them in step |
| GameStates.EmptySynced | Core/Game.cs:12-27 | an empty board and empty lists are in step |
| Games.Game.constructor | Core/Game.cs:12-27 | a new game is in the opening layout, fifteen checkers a side in step with the board, White to move, not over, and the dice not rolled |
| Games.Game.InitializeCheckers | Core/Game.cs:30-43 | from an empty board and empty lists, builds the opening layout with the lists in step |
| Games.Game.AddCheckersToPoint | Core/Game.cs:46-54 | pushes `count` checkers of the player's colour on the point and appends the same to that player's list only |
| Games.Game.RollDice | Core/Game.cs:55-58 | the dice become the rolled state; the values are four copies for a double and the pair otherwise |
| Games.Game.GetOpponent | Core/Game.cs:251-254 | the opponent is the other player and has the other colour |
| Games.Game.ValidIsReady | Core/Game.cs:12-27 | a valid game is ready to play |
| Games.Game.IsMoveValid | Core/Game.cs:60-78 | equals the game's check as written (`GameRules.IsMoveValidAsWritten`); with the bar empty it agrees with the stateless `IsMoveValid` |
| Games.Game.IsValidBarMove | Core/Game.cs:256-291 | an entry is valid iff the die is 1..6, the point is its entry point and the point is open |
| Games.Game.CanBearOff | Core/Game.cs:293-302 | equals the scan over the player's list, and the stateless `CanBearOff` with an empty bar |
| Games.Game.CanBearOffFromIndex | Core/Game.cs:304-370 | equals the stateless bear-off check for the current player |
| Games.Game.MakeMove | Core/Game.cs:205-247 | returns false, changing nothing, iff no showing die passes the check; returns true after the entry or move with exactly the first such die used; ends with `Failed(Crash)`, after the hit on `to`, exactly when a move from an empty point gets through, which needs an occupied bar; the game stays valid unless the as-written check lets the mover move an opponent's checker |
| Games.Game.EntryDieOf | Core/Game.cs:211-214 | the entry loop finds the first allowing die |
| Games.Game.MoveDieOf | Core/Game.cs:235-238 | the move loop finds the first die that passes the check as written |
| Games.Game.DiceUsed | Core/Game.cs:228 | using a showing die removes exactly one copy of it from the values still showing |
| Games.Game.EnterWith | Core/Game.cs:215-229 | an entry with a found die: the board becomes `Enter`, both lists take its writes, nothing is borne off, and that die is used |
| Games.Game.MoveWith | Core/Game.cs:239-241 | a move with a found die: ends with `Failed(Crash)` iff `from` is an empty point (the bar then being occupied), after the hit and with the dice unchanged; otherwise the board becomes `Move` with the opponent's bar for the hit, both lists take its writes, and that die is used |
| Games.Game.BearOffChecker | Core/Game.cs:373-414 | ends with `Failed(Crash)` iff `fromIndex` is not a point; succeeds iff the point is the player's and bearing off passes, then the top checker leaves the board and the list and the chosen die is used; otherwise nothing changes |
| Games.Game.BearOffTop | Core/Game.cs:378-411 | the top checker leaves the point and the player's list for the borne-off list, and the die `BearOffDie` chooses is used |
| Games.Game.RemoveToBorneOff | Core/Game.cs:378-379 | returns the top checker of the point, which leaves the board and the player's list for the borne-off list; the dice stay as they were |
| Games.Game.CheckForWinner | Core/Game.cs:417-424 | the game is over once fifteen checkers are borne off, which means none is left on the board |
| Games.Game.EndTurn | Core/Game.cs:426-438 | unless the game is over, zeroes both dice and passes the turn; a won game keeps its winner current and changes nothing else |
| Games.Game.SwitchTurn | Core/Game.cs:440-444 | passes the turn to the other player; switching twice restores the current player |
| Games.Game.HasAvailableMoves | Core/Game.cs:80-142 | equals the availability predicate over bar, bear-off and point moves |
| Games.Game.CanEnter | Core/Game.cs:84-106 | some die allows entering some point |
| Games.Game.CanBearOffSomewhere | Core/Game.cs:109-118 | some own point passes the bear-off check |
| Games.Game.CanMoveSomewhere | Core/Game.cs:121-139 | some own point moves by some die |
| Games.Game.CanEnterWith | Core/Game.cs:87-103 | one die allows entering some point |
| Games.Game.CanMoveFrom | Core/Game.cs:125-137 | one point moves by some die |
| Games.Game.GetAvailableEndPoints | Core/Game.cs:144-203 | ends with `Failed(Crash)` iff `startIndex` is outside 0..24; otherwise the end points, in the source's order, computed with the check as written in both the loop and its condition |
| Games.Game.DieEndPoints | Core/Game.cs:185-199 | one die's end points from a start index, with the check as written |
| Games.Game.FartherOwnScan | Core/Game.cs:346-356 | whether an own checker lies farther from off than the point |
| MoveGen.GenerateAllDiceOutcomes | Core/AI/AI.cs:336-357 | lists every outcome of two dice in the loops' order |
| MoveGen.AllOutcomesSpec | Core/AI/AI.cs:336-357 | there are 21 outcomes: the six doubles as four equal values and the fifteen pairs `i < j` |
| MoveGen.OutcomesFromStep | Core/AI/AI.cs:340-355 | each turn of the inner loop emits one outcome, and the end of the inner loop starts the next outer value |
| MoveGen.OutcomesFromCount | Core/AI/AI.cs:340-355 | the loops from a given pair of values emit a triangular number of outcomes |
| MoveGen.OutcomesFromMembers | Core/AI/AI.cs:340-355 | the loops from a given pair of values emit exactly the rolls of pairs `a <= c` at or after it |
| MoveGen.RemoveUsedDie | Core/AI/AI.cs:261-266 | removes exactly the first occurrence of the value when present, otherwise returns the same values |
| MoveGen.GenerateMoves | Core/AI/AI.cs:136-204 | produces the moves `Moves` lists, in the source's order |
| MoveGen.GeneratePointMoves | Core/AI/AI.cs:174-200 | the moves of one point, die by die |
| MoveGen.GenerateEntries | Core/AI/AI.cs:141-167 | the entries, die by die |
| MoveGen.EntryMovesMembers | Core/AI/AI.cs:145-164 | the scan over the entry quadrant for one die lists exactly its valid entries from 0 |
| MoveGen.BarMovesMembers | Core/AI/AI.cs:141-167 | the bar branch lists exactly the entries some scanned die allows |
| MoveGen.EntryInQuadrant | Core/AI/AI.cs:141-167 | a valid entry lands in the entry quadrant |
| MoveGen.MovesOnBar | Core/AI/AI.cs:141-167 | with checkers on the bar, the moves are exactly the entries some die allows, from 0 into 1..6 for White and 19..24 for Black |
| MoveGen.DieMovesMembers | Core/AI/AI.cs:176-199 | one die contributes the valid step and, when bearing off passes, a bear-off |
| MoveGen.PointMovesMembers | Core/AI/AI.cs:174-200 | the moves of one point are exactly its valid steps by a scanned die, and a bear-off once a die was scanned |
| MoveGen.PointMovesAll | Core/AI/AI.cs:174-200 | over all dice, a point's moves are exactly the point moves that start there |
| MoveGen.BoardMovesMembers | Core/AI/AI.cs:170-203 | the scan of the first points lists exactly the point moves from own points among them |
| MoveGen.StepOnBoard | Core/AI/AI.cs:180-193 | with an empty bar, a valid step lands on a point |
| MoveGen.BearOffNeedsDice | Core/AI/AI.cs:195-199 | a bear-off is only listed when some die value exists |
| MoveGen.MovesOffBar | Core/AI/AI.cs:170-203 | with an empty bar, every move starts at an own point and is a valid directed step by a die or a bear-off that passes |
| MoveGen.BearOffPerDie | Core/AI/AI.cs:195-199 | a bear-off is listed once per die value, duplicates included |
| MoveGen.UsedDieOfMove | Core/AI/AI.cs:229 | the die a move consumes: the entry point for White, at least 19 for a Black entry, `from + 1` for a bear-off, a showing die for a step |
| MoveGen.Moves | Core/AI/AI.cs:136-204 | the generated moves; `MovesOnBar` and `MovesOffBar` state exactly which, and `GenerateMoves` computes them |
| MoveGen.EntryDie | Core/AI/AI.cs:229 | the die an entry is played with, which `|From - To|` misses for Black |
| MoveGen.EntryUsesDie | Core/AI/AI.cs:229 | with the entry die, every generated entry consumes one rolled die, so the dice left shrink by one |
| MoveGen.SimulateKeepsSearchedPoints | Core/AI/AI.cs:283-325 | simulating never changes the searched board's points, and only an entry changes it at all |
| MoveGen.SimulateEntryDuplicates | Core/AI/AI.cs:295-300 | an entry pops the searched board's bar, while the copy keeps the checker on its bar and also gains it on the point |
| MoveGen.SimulateBearOffRemoves | Core/AI/AI.cs:301-305 | a bear-off takes the top checker off the copy |
| MoveGen.SimulateStepContents | Core/AI/AI.cs:306-322 | a step moves the top checker, and a hit blot goes to the bar at position 0, keeping the count |
| MoveGen.SimulateMove | Core/AI/AI.cs:283-325 | the searched board afterwards and the copy; `SimulateKeepsSearchedPoints`, `SimulateEntryDuplicates`, `SimulateBearOffRemoves` and `SimulateStepContents` state both |
| BoardHash.DecimalRoundTrip | Core/AI/AI.cs:277 | an index or count written in decimal reads back as the same number |
| BoardHash.DecimalInjective | Core/AI/AI.cs:277 | different numbers have different decimal forms |
| BoardHash.HashBoardState | Core/AI/AI.cs:269-281 | returns the hash: `index:count:colour` of each non-empty point in index order, joined with `|` |
| BoardHash.JoinInjective | Core/AI/AI.cs:280 | joining separator-free parts is injective |
| BoardHash.ComponentInjective | Core/AI/AI.cs:277 | a component determines its index, count and colour |
| BoardHash.ComponentsDetermine | Core/AI/AI.cs:272-279 | the component list determines the count and owner of every point |
| BoardHash.HashIffSamePoints | Core/AI/AI.cs:269-281 | two boards hash equal iff every point has the same number of checkers and the same owner |
| BoardHash.HashIgnoresBars | Core/AI/AI.cs:269-281 | the hash ignores the bars |
| BoardHash.Hash | Core/AI/AI.cs:269-281 | `HashBoardState`; `HashIffSamePoints` states that two boards share it iff every point holds as many checkers of the same owner |
| Evaluation.SumDistance | Core/AI/AI.cs:96-107 | the nested loops add up each checker's distance for one colour |
| Evaluation.PipCount | Core/AI/AI.cs:96-107 | the pip count of a colour; `PipCountWithStack` and `PipCountZero` state it |
| Evaluation.Evaluate | Core/AI/AI.cs:93-133 | `EvaluateBoard`; `SimulateStepScore`, `ValidStepLowersScore`, `SimulateBearOffScore` and `SimulateEntryScore` state how moves change it |
| Evaluation.EvaluateBoard | Core/AI/AI.cs:93-133 | own distance minus the opponent's (25 per bar checker); the score of one side is minus the other's |
| Evaluation.PipCountWithStack | Core/AI/AI.cs:96-107 | changing one point changes a colour's total by that point's difference alone |
| Evaluation.PipCountZero | Core/AI/AI.cs:93-133 | a colour's total is never negative, and is 0 iff none of its checkers is on a point or its bar |
| Evaluation.SimulateStepScore | Core/AI/AI.cs:306-322 | a searched step changes the mover's score by the distance travelled, and a hit by the blot's remaining distance up to 25 |
| Evaluation.ValidStepLowersScore | Core/AI/AI.cs:93-133 | a valid step by a die lowers the mover's score by the die, and a hit lowers it further, so it always drops |
| Evaluation.SimulateBearOffScore | Core/AI/AI.cs:301-305 | a searched bear-off lowers the mover's score by the checker's remaining distance |
| Evaluation.SimulateEntryScore | Core/AI/AI.cs:295-300 | a searched entry raises the copy's score by the entry point's distance, because the copy keeps the checker on its bar |
| Search.Retrieve | Core/AI/AI.cs:78-90 | the moves recorded for the board's hash, or none; `UniqueRecords` and `BestMoveReaches` state what those moves are |
| Search.Expand | Core/AI/AI.cs:211-224 | `Recurse`; `ExpandSettles`, `ExpandAddsFresh`, `ExpandKeeps`, `ExpandFresh`, `ExpandShrinks` and `ExpandRecords` state it |
| Search.Branches | Core/AI/AI.cs:226-240 | the loop over the moves; its lemmas mirror those of `Expand` |
| Search.Cleanup | Core/AI/AI.cs:246-252 | the closing loop; `UniqueKeys` and `UniqueSpec` state which keys stay |
| Search.Unique | Core/AI/AI.cs:206-255 | `GenerateUniqueStates`; `UniqueSpec`, `UniqueRecords`, `UniqueBoard` and `UniqueKeys` state it |
| Search.ExpandSettles | Core/AI/AI.cs:211-224 | every state a search collects has no move left for part of its dice |
| Search.ExpandAddsFresh | Core/AI/AI.cs:234-238 | a search adds a key only when it was absent, and records it as added |
| Search.ExpandKeeps | Core/AI/AI.cs:217-238 | every key whose hash is not that of a collected state keeps its moves |
| Search.ExpandFresh | Core/AI/AI.cs:214-240 | below a board with moves, every collected state was not a key before; a board without moves is collected iff its hash was a key |
| Search.ExpandShrinks | Core/AI/AI.cs:226-240 | the search changes the board it was given only by popping its bar, never the opponent's |
| Search.UniqueBoard | Core/AI/AI.cs:206-255 | the searched board only loses bar checkers of the mover, and a returned root is the only state |
| Search.UniqueSpec | Core/AI/AI.cs:206-255 | the states have distinct hashes, each settled and recorded; old keys stay; new keys are hashes of states; unreached keys keep their moves; the states are fresh below a board with moves |
| Search.UniqueKeys | Core/AI/AI.cs:246-252 | the cleanup never removes a key recorded before the search |
| Search.LeftSnoc | Core/AI/AI.cs:229 | the dice left after one more move lose the value that move consumes |
| Search.LeadsSnoc | Core/AI/AI.cs:226-238 | a move sequence that leads to a board, extended by a move generated there and simulated on it, leads to the copy |
| Search.ExpandRecords | Core/AI/AI.cs:211-238 | `Recurse` keeps every key it adds recorded with moves that lead from the searched board, with the dice, to a board with that key, and adds the key of every state it collects |
| Search.BranchesRecords | Core/AI/AI.cs:226-240 | the same for the loop over the moves of a board |
| Search.UniqueRecords | Core/AI/AI.cs:206-255 | for every state collected, the table holds its key, and the moves recorded there lead from the searched board, with the dice, to a board with the same checkers count and owner on every point |
| Search.PiledMoves | Core/AI/AI.cs:141-167 | Black on the bar, only Black checkers on 24, a 1 to play: the only move is the entry on 24 |
| Search.PiledEntry | Core/AI/AI.cs:228-229 | that entry leaves the copy with its bar, one more checker on 24 and the 1 still to play |
| Search.PiledStep | Core/AI/AI.cs:226-238 | on such a board a failure of the child's search, under a new key, is the failure of `Recurse` |
| Search.BlackEntryNeverSettles | Core/AI/AI.cs:211-240 | `Recurse` on such a board fails for every fuel |
| Search.BlackEntryNeverReturns | Core/AI/AI.cs:206-243 | `GenerateUniqueStates` for Black with one checker on the bar of an empty board and a 1 to play fails for every fuel |
| Strategy.FoldBounds | Core/AI/AI.cs:53-72 | the running best bounds every value from the optimised side and is one of them or the start value |
| Strategy.MiniMaxValue | Core/AI/AI.cs:43-76 | at depth 0 the value is `EvaluateBoard`; above it is the max or min of the children, or `int.MinValue`/`int.MaxValue` without children |
| Strategy.PickFirstBest | Core/AI/AI.cs:24-38 | the choice is the first candidate with the strictly greatest score above `int.MinValue`, or no moves |
| Strategy.BestMoveIsFirstBest | Core/AI/AI.cs:18-41 | `GetBestMove` returns the moves of the first best-scored state, or none |
| Strategy.MiniMaxKeeps | Core/AI/AI.cs:43-76 | a search keeps every key and only pops bars of the board it was given |
| Strategy.OverOutcomesKeep | Core/AI/AI.cs:56-73 | the loop over dice outcomes keeps every key and only pops bars of its board |
| Strategy.OverStatesKeep | Core/AI/AI.cs:60-72 | the loop over states keeps every key, gathers one value per state after the earlier ones, and its last board comes from the last state |
| Strategy.CandidatesKeep | Core/AI/AI.cs:27-38 | one candidate per state, keys kept, and the root board only loses bar checkers |
| Strategy.BestMoveKeeps | Core/AI/AI.cs:18-41 | one score per unique state, every key kept, and the AI's board only loses bar checkers |
| Strategy.MiniMax | Core/AI/AI.cs:43-76 | `ExpectMiniMax`; `MiniMaxValue` and `MiniMaxKeeps` state it |
| Strategy.Candidates | Core/AI/AI.cs:27-38 | the scoring loop of `GetBestMove`; `CandidatesKeep` and `CandidatesDepthZero` state it |
| Strategy.Pick | Core/AI/AI.cs:24-38 | the running best; `PickFirstBest` states it |
| Strategy.BestMove | Core/AI/AI.cs:18-41 | `GetBestMove`; `BestMoveIsFirstBest`, `BestMoveKeeps` and `BestMoveReaches` state it |
| Strategy.CandidatesDepthZero | Core/AI/AI.cs:27-38 | searched to depth 0, each state is scored by its evaluation and paired with the moves recorded for it, and the table is unchanged |
| Strategy.CandidatesStep | Core/AI/AI.cs:27-38 | one turn of the scoring loop at depth 0: the state is scored by its evaluation and paired with its recorded moves; with no states left the loop ends with what it has |
| Strategy.PickAmong | Core/AI/AI.cs:24-38 | the candidate kept, for scores and moves given side by side: no moves when none scores above `int.MinValue`, otherwise the moves of a highest score |
| Strategy.ChosenReaches | Core/AI/AI.cs:18-41 | the moves of a highest score, restated over the states scored, lead to a board laid out as that state |
| Strategy.BestMoveReaches | Core/AI/AI.cs:18-41 | searched to depth 0, `GetBestMove` returns moves that lead from the AI's board, with the rolled dice, to a board laid out as a highest-scoring state, or no moves when none scores above `int.MinValue` |
| AIPlayer.AnyHashes | Core/AI/AI.cs:248 | whether some collected state has the hash |
| AIPlayer.AI.constructor | Core/AI/AI.cs:10-16 | a new player has its colour and board and an empty table |
| AIPlayer.AI.GetBestMove | Core/AI/AI.cs:18-41 | returns the moves `BestMove` chooses and leaves the table and board as it says, or ends with its fault |
| AIPlayer.AI.ExpectMiniMax | Core/AI/AI.cs:43-76 | returns `MiniMax`'s value and board and leaves the table as it says, or ends with its fault |
| AIPlayer.AI.ScoreStates | Core/AI/AI.cs:60-72 | folds the states' values into the running best, as `OverStates` gathers them |
| AIPlayer.AI.RetrieveMoveSequence | Core/AI/AI.cs:78-90 | returns `Search.Retrieve` of the table; for a state the last search collected, moves that lead from the searched board to a board with that state's layout (`Search.UniqueRecords`) |
| AIPlayer.AI.GenerateUniqueStates | Core/AI/AI.cs:206-255 | returns `Unique`'s states, board and root flag, with the table after the cleanup, or ends with its fault |
| AIPlayer.AI.Recurse | Core/AI/AI.cs:211-241 | changes the table, states and added hashes as `Expand` does; collects the board itself iff it has no moves and its hash was a key |
| AIPlayer.AI.RecurseMoves | Core/AI/AI.cs:226-240 | the loop over the moves changes the table, states and added hashes as `Branches` does |

## Left out

- Console output (`Core/AI/AI.cs:49`, `Core/Game.cs:422`) is not modelled.
- Randomness is not modelled: `Dice.Roll` and `Game.RollDice` take the two drawn values as parameters in 1..6.
- Checkers are values, not shared objects.
  - A position write is applied to the board and to both players' lists by value.
  - `Player.BearOffChecker` removes the first equal checker rather than the same object.
  - Sharing of checker objects between the boards the search clones (`Core/AI/AI.cs:297-299`) is not modelled beyond what it does to the searched board's bar.
- Members used by callers but absent from the shown `GameBoard.cs` and `Player.cs` are specified from their use sites. These are `GetBar`, `AddToBar`, `RemoveFromBar`, the four-argument `MoveChecker`, `Player.Bar`, `HitChecker`, `ReEnterFromBar`, `BearOff` and `Dice.HasMovesLeft`. `GameBoard.Clone` and `Player.Clone` are not part of this model: boards are copied as values.
- The computer player's `_players` array and the players it clones are not modelled. The search works on the colour, and `GetOpponent` is `Checkers.Opponent`.
- The computer player searches its own board value, not the `GameBoard` object it shares with the game.
- A search that the source ends with an exception (a null checker, an index outside the points) is modelled as `Failed(Crash)`. One that the source bounds only by its call stack is modelled as `Failed(OutOfFuel)` once the fuel parameter runs out. What the fields hold after such a failure is not specified.
- GameRules.MovesIff: requires an empty bar. `HasAvailableMoves` returns from its bar branch (Core/Game.cs:84-106) and reaches the loop over the points only with the bar empty.
- Strategy.BestMoveReaches: proved for a search of depth 0 only. Deeper searches share the `stateToMoves` table with the states they score and may overwrite its entries, so the model does not state what the returned moves lead to after them.
- Search.UniqueRecords: the moves recorded for a state lead to a board with the same key, not to that board itself; the hash ignores the bars and the checkers' positions.
- C# 32-bit arithmetic is not modelled. `int.MinValue` and `int.MaxValue` appear as constants, and all scores stay far inside that range.
- Players.Player.BearOffChecker: the shown `Core/Player.cs` only removes the checker. `Core/Game.cs:419` reads a `BearOff` list that it does not declare, so the model keeps each removed checker in `bearOff`.
- Games.Game.MakeMove: requires that the bar is not empty when an entry from 0 would be accepted. `ReEnterFromBar` is not part of the shown code, so its behaviour on an empty bar is unknown.

## Findings

| source | as written | input that shows it | evidently intended | confidence | as-written member | corrected member |
|---|---|---|---|---|---|---|
| Core/Game.cs:63-66 | while the current player has a checker on the bar, `IsMoveValid(from, to, die)` checks only the entry and ignores `from` | White on the bar, a Black checker on point 10, White on 3, dice 3 and 5: `IsMoveValid(10, 3, 3)` is true, so `MakeMove(10, 3)` moves the opponent's checker onto White's point | a move from a point is refused while the bar is occupied, as `GameUtils.IsMoveValid` does at Core/GameUtils.cs:7-12 | not executed | GameRules.MakeMoveAsWrittenMovesOpponent | GameRules.IsMoveValidCorrected |
| Core/GameBoard.cs:36 | the three-argument `MoveChecker` hands a hit blot to `player.HitChecker`, the mover | White moves 1 to 4 by 3 onto a Black blot on 4: the blot lands on White's bar | the blot goes to the opponent's bar, as `MakeMove` does for entries (Core/Game.cs:223-224) and Backgammon.Tests/GameBoardTests.cs:92 expects | not executed | Boards.MoveAsWrittenMisplacesHit | Boards.MoveKeepsWellFormed |
| Core/AI/AI.cs:229 | `Recurse` removes `Math.Abs(From - To)` from the remaining dice, which for Black's entry to point 19..24 is a value no die shows, and the simulated board keeps the checker on the bar (Core/AI/AI.cs:297) | Black with one checker on the bar of an empty board and a 1 to play: the entry on 24 leaves the 1 to play and the checker on the bar, so the same entry follows on every child and the recursion ends only with the call stack | an entry consumes the die whose entry point it reaches (`25 - To` for Black) | not executed | Search.BlackEntryNeverReturns | MoveGen.EntryUsesDie |
