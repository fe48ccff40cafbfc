/** Core/GameBoard.cs: the 24 points and, per colour, a bar stack.

    `Board` is the value of a game board: stack i-1 of `points` is point i, and
    the two bars are stacks too. The rules and the search work on this value;
    the `GameBoard` class below holds the 24 `Point` objects the game mutates
    and keeps their value in the ghost field `model`. */
module Boards {

  import opened Wrappers
  import opened Checkers
  import opened Points
  import opened Players
  import opened Seqs

  datatype BoardState = BoardState(points: seq<seq<Checker>>, whiteBar: seq<Checker>, blackBar: seq<Checker>)

  type Board = b: BoardState | |b.points| == 24 witness BoardState(seq(24, _ => []), [], [])

  /** The board `new GameBoard()` builds: 24 empty points, empty bars. */
  const EmptyBoard: Board := BoardState(seq(24, _ => []), [], [])

  /** No checker on any point or bar. */
  predicate IsEmpty(b: Board)
  {
    b.whiteBar == [] && b.blackBar == [] && forall i :: 1 <= i <= 24 ==> Stack(b, i) == []
  }

  predicate OnBoard(i: int)
  {
    1 <= i <= 24
  }

  function Stack(b: Board, i: int): seq<Checker>
    requires OnBoard(i)
  {
    b.points[i - 1]
  }

  function WithStack(b: Board, i: int, s: seq<Checker>): (r: Board)
    requires OnBoard(i)
    ensures Stack(r, i) == s && r.whiteBar == b.whiteBar && r.blackBar == b.blackBar
    ensures forall j :: OnBoard(j) && j != i ==> Stack(r, j) == Stack(b, j)
  {
    b.(points := b.points[i - 1 := s])
  }

  /** `GetBar(c)`: the bar stack of colour `c`. */
  function Bar(b: Board, c: Color): seq<Checker>
  {
    if c == White then b.whiteBar else b.blackBar
  }

  function WithBar(b: Board, c: Color, s: seq<Checker>): (r: Board)
    ensures Bar(r, c) == s && Bar(r, Opponent(c)) == Bar(b, Opponent(c)) && r.points == b.points
  {
    if c == White then b.(whiteBar := s) else b.(blackBar := s)
  }

  /** Every checker on the board or on a bar. */
  function Contents(b: Board): multiset<Checker>
  {
    multiset(Flatten(b.points)) + multiset(b.whiteBar) + multiset(b.blackBar)
  }

  /** Number of checkers on the board and the bars. */
  function Count(b: Board): nat
  {
    |Contents(b)|
  }

  /** `GameBoard.IsMoveValid`: both indices on the board, the source owned by
      the player, the destination empty, the player's own or a blot, and the
      destination `die` points away in either direction. */
  predicate MoveAllowed(b: Board, player: Color, from: int, to: int, die: int)
  {
    && OnBoard(from) && OnBoard(to)
    && StackOwner(Stack(b, from)) == Some(player)
    && (StackOwner(Stack(b, to)) == None || StackOwner(Stack(b, to)) == Some(player) || StackIsBlot(Stack(b, to), player))
    && (to == from + die || to == from - die)
  }

  /** A destination is open to `player` unless the other colour holds it with
      two or more checkers. */
  predicate Open(s: seq<Checker>, player: Color)
  {
    !(|s| >= 2 && StackOwner(s) == Some(Opponent(player)))
  }

  /** `MoveAllowed` in words: on the board, own source, open destination, and
      exactly `die` points apart. */
  lemma {:induction false} MoveAllowedIff(b: Board, player: Color, from: int, to: int, die: int)
    requires die >= 0
    ensures MoveAllowed(b, player, from, to, die) <==>
      && OnBoard(from) && OnBoard(to)
      && StackOwner(Stack(b, from)) == Some(player)
      && Open(Stack(b, to), player)
      && (if to >= from then to - from else from - to) == die
  {
    if OnBoard(from) && OnBoard(to) {
      OpenIff(Stack(b, to), player);
    }
  }

  /** The destination test of `IsMoveValid` (empty, own, or a blot) is
      `Open`. */
  lemma OpenIff(s: seq<Checker>, player: Color)
    ensures (StackOwner(s) == None || StackOwner(s) == Some(player) || StackIsBlot(s, player)) <==> Open(s, player)
  {
    if s != [] && s[0].color != player {
      assert s[0].color == Opponent(player);
    }
  }

  /** The hit of `MoveChecker` (and of a bar entry in `MakeMove`): a blot
      of the other colour on `to` is removed, given position -1 and pushed on
      the bar of `hitBar`; any other point `to` is left alone. */
  function Hit(b: Board, mover: Color, hitBar: Color, to: int): Board
    requires OnBoard(to)
  {
    var t := Stack(b, to);
    if StackIsBlot(t, mover) then
      WithBar(WithStack(b, to, []), hitBar, Bar(b, hitBar) + [t[0].WithPosition(HitPosition)])
    else b
  }

  /** The position write `Hit` makes: the hit checker's, if any. */
  function HitWrites(b: Board, mover: Color, to: int): seq<(Checker, int)>
    requires OnBoard(to)
  {
    var t := Stack(b, to);
    if StackIsBlot(t, mover) then [(t[0], HitPosition)] else []
  }

  /** The second half of `MoveChecker` (and of a bar entry in `MakeMove`),
      once checker `c` has been lifted: the hit, then `c` takes position `to`
      and is pushed on `to`. */
  function Land(b: Board, mover: Color, hitBar: Color, c: Checker, to: int): Board
    requires OnBoard(to)
  {
    var b2 := Hit(b, mover, hitBar, to);
    WithStack(b2, to, Stack(b2, to) + [c.WithPosition(to)])
  }

  /** The position writes `Land` makes, in order: the hit checker (if any),
      then the landing checker. */
  function LandWrites(b: Board, mover: Color, c: Checker, to: int): seq<(Checker, int)>
    requires OnBoard(to)
  {
    HitWrites(b, mover, to) + [(c, to)]
  }

  /** `Land` described point by point: only `to` and the bar of `hitBar`
      change; after a hit `to` holds only the landing checker. */
  lemma {:induction false} LandEffect(b: Board, mover: Color, hitBar: Color, c: Checker, to: int)
    requires OnBoard(to)
    ensures var r := Land(b, mover, hitBar, c, to);
      var t := Stack(b, to);
      && (forall j :: OnBoard(j) && j != to ==> Stack(r, j) == Stack(b, j))
      && Bar(r, Opponent(hitBar)) == Bar(b, Opponent(hitBar))
      && (StackIsBlot(t, mover) ==>
            && Stack(r, to) == [c.WithPosition(to)]
            && Bar(r, hitBar) == Bar(b, hitBar) + [t[0].WithPosition(HitPosition)])
      && (!StackIsBlot(t, mover) ==>
            && Stack(r, to) == t + [c.WithPosition(to)]
            && Bar(r, hitBar) == Bar(b, hitBar))
  {
  }

  /** The model of `MoveChecker` with the hit checker handed to the bar of
      `hitBar`: pop the source's top checker and land it on `to`. Indices off
      the board change nothing; a move from an empty point dereferences null
      in the source, so the source must hold a checker. */
  function MoveCheckerTo(b: Board, mover: Color, hitBar: Color, from: int, to: int): (r: Board)
    requires OnBoard(from) && OnBoard(to) ==> Stack(b, from) != []
  {
    if !OnBoard(from) || !OnBoard(to) then b
    else
      var s := Stack(b, from);
      Land(WithStack(b, from, s[..|s| - 1]), mover, hitBar, s[|s| - 1], to)
  }

  /** `MoveChecker(mover, opponent, from, to)`, the four-argument form the game
      calls: a hit checker goes to the opponent's bar. */
  function Move(b: Board, mover: Color, opponent: Color, from: int, to: int): Board
    requires OnBoard(from) && OnBoard(to) ==> Stack(b, from) != []
  {
    MoveCheckerTo(b, mover, opponent, from, to)
  }

  /** `MoveChecker(player, from, to)` as GameBoard.cs writes it: the hit checker
      is handed to `player`, the mover. */
  function MoveAsWritten(b: Board, mover: Color, from: int, to: int): Board
    requires OnBoard(from) && OnBoard(to) ==> Stack(b, from) != []
  {
    MoveCheckerTo(b, mover, mover, from, to)
  }

  /** The position writes of `MoveCheckerTo`. */
  function MoveWrites(b: Board, mover: Color, from: int, to: int): seq<(Checker, int)>
    requires OnBoard(from) && OnBoard(to) ==> Stack(b, from) != []
  {
    if !OnBoard(from) || !OnBoard(to) then []
    else
      var s := Stack(b, from);
      LandWrites(WithStack(b, from, s[..|s| - 1]), mover, s[|s| - 1], to)
  }

  /** A move off the board changes nothing. */
  lemma MoveOffBoard(b: Board, mover: Color, hitBar: Color, from: int, to: int)
    requires !OnBoard(from) || !OnBoard(to)
    ensures MoveCheckerTo(b, mover, hitBar, from, to) == b && MoveWrites(b, mover, from, to) == []
  {
  }

  /** A move that hits nothing pops the source's top checker, stores the
      destination in its position and pushes it on the destination; every
      other point and both bars are unchanged. */
  lemma {:induction false} MovePlain(b: Board, mover: Color, hitBar: Color, from: int, to: int)
    requires OnBoard(from) && OnBoard(to) && from != to && Stack(b, from) != []
    requires !StackIsBlot(Stack(b, to), mover)
    ensures var r := MoveCheckerTo(b, mover, hitBar, from, to);
      var s := Stack(b, from);
      && Stack(r, from) == s[..|s| - 1]
      && Stack(r, to) == Stack(b, to) + [s[|s| - 1].WithPosition(to)]
      && r.whiteBar == b.whiteBar && r.blackBar == b.blackBar
      && forall j :: OnBoard(j) && j != from && j != to ==> Stack(r, j) == Stack(b, j)
  {
    var s := Stack(b, from);
    LandEffect(WithStack(b, from, s[..|s| - 1]), mover, hitBar, s[|s| - 1], to);
    assert Bar(b, hitBar) == Bar(WithStack(b, from, s[..|s| - 1]), hitBar);
  }

  /** A move onto a blot leaves only the mover's checker on the destination
      and puts the hit checker, at position -1, on top of the bar of `hitBar`. */
  lemma {:induction false} MoveHit(b: Board, mover: Color, hitBar: Color, from: int, to: int)
    requires OnBoard(from) && OnBoard(to) && from != to && Stack(b, from) != []
    requires StackIsBlot(Stack(b, to), mover)
    ensures var r := MoveCheckerTo(b, mover, hitBar, from, to);
      var s := Stack(b, from);
      && Stack(r, from) == s[..|s| - 1]
      && Stack(r, to) == [s[|s| - 1].WithPosition(to)]
      && Bar(r, hitBar) == Bar(b, hitBar) + [Stack(b, to)[0].WithPosition(HitPosition)]
      && Bar(r, Opponent(hitBar)) == Bar(b, Opponent(hitBar))
      && forall j :: OnBoard(j) && j != from && j != to ==> Stack(r, j) == Stack(b, j)
  {
    var s := Stack(b, from);
    LandEffect(WithStack(b, from, s[..|s| - 1]), mover, hitBar, s[|s| - 1], to);
  }

  lemma WithStackContents(b: Board, i: int, s: seq<Checker>)
    requires OnBoard(i)
    ensures multiset(Stack(b, i)) <= Contents(b)
    ensures Contents(WithStack(b, i, s)) == Contents(b) - multiset(Stack(b, i)) + multiset(s)
  {
    FlattenUpdate(b.points, i - 1, s);
    InnerInFlatten(b.points, i - 1);
  }

  /** Popping a point removes its top checker from the contents. */
  lemma PopContents(b: Board, i: int)
    requires OnBoard(i) && Stack(b, i) != []
    ensures var s := Stack(b, i);
      && s[|s| - 1] in Contents(b)
      && Contents(WithStack(b, i, s[..|s| - 1])) == Contents(b) - multiset{s[|s| - 1]}
  {
    var s := Stack(b, i);
    assert s == s[..|s| - 1] + [s[|s| - 1]];
    WithStackContents(b, i, s[..|s| - 1]);
  }

  /** Popping a bar removes its top checker from the contents. */
  lemma PopBarContents(b: Board, p: Color)
    requires Bar(b, p) != []
    ensures var s := Bar(b, p);
      && s[|s| - 1] in Contents(b)
      && Contents(WithBar(b, p, s[..|s| - 1])) == Contents(b) - multiset{s[|s| - 1]}
  {
    var s := Bar(b, p);
    assert s == s[..|s| - 1] + [s[|s| - 1]];
  }

  /** Pushing on a point adds the checker to the contents. */
  lemma PushContents(b: Board, i: int, x: Checker)
    requires OnBoard(i)
    ensures Contents(WithStack(b, i, Stack(b, i) + [x])) == Contents(b) + multiset{x}
  {
    WithStackContents(b, i, Stack(b, i) + [x]);
  }

  /** Pushing on a bar adds the checker to the contents. */
  lemma BarPushContents(b: Board, c: Color, x: Checker)
    ensures Contents(WithBar(b, c, Bar(b, c) + [x])) == Contents(b) + multiset{x}
  {
  }

  /** Landing adds the landing checker at its new position and, after a hit,
      replaces the blot by its copy at position -1. */
  lemma {:induction false} LandContents(b: Board, mover: Color, hitBar: Color, c: Checker, to: int)
    requires OnBoard(to)
    ensures var t := Stack(b, to);
      var r := Land(b, mover, hitBar, c, to);
      && (!StackIsBlot(t, mover) ==> Contents(r) == Contents(b) + multiset{c.WithPosition(to)})
      && (StackIsBlot(t, mover) ==>
            && t[0] in Contents(b)
            && Contents(r) == Contents(b) - multiset{t[0]} + multiset{t[0].WithPosition(HitPosition)} + multiset{c.WithPosition(to)})
  {
    var t := Stack(b, to);
    if StackIsBlot(t, mover) {
      var h := t[0];
      var bh := WithStack(b, to, []);
      assert Contents(bh) == Contents(b) - multiset{h} && h in Contents(b) by {
        assert t == [h];
        WithStackContents(b, to, []);
      }
      var b2 := WithBar(bh, hitBar, Bar(bh, hitBar) + [h.WithPosition(HitPosition)]);
      BarPushContents(bh, hitBar, h.WithPosition(HitPosition));
      PushContents(b2, to, c.WithPosition(to));
    } else {
      PushContents(b, to, c.WithPosition(to));
    }
  }

  /** The bar entry of `Game.MakeMove`: the top checker of the player's bar
      lands on `to`, a blot there going to the opponent's bar. */
  function Enter(b: Board, player: Color, to: int): Board
    requires OnBoard(to) && Bar(b, player) != []
  {
    var s := Bar(b, player);
    Land(WithBar(b, player, s[..|s| - 1]), player, Opponent(player), s[|s| - 1], to)
  }

  /** The position writes of `Enter`. */
  function EnterWrites(b: Board, player: Color, to: int): seq<(Checker, int)>
    requires OnBoard(to) && Bar(b, player) != []
  {
    var s := Bar(b, player);
    LandWrites(WithBar(b, player, s[..|s| - 1]), player, s[|s| - 1], to)
  }

  /** A bar entry takes the entering checker out of the contents and puts it
      back on `to`; a hit checker is replaced by its copy at position -1. */
  lemma {:induction false} EnterContents(b: Board, player: Color, to: int)
    requires OnBoard(to) && Bar(b, player) != []
    ensures var s := Bar(b, player);
      var c := s[|s| - 1];
      var t := Stack(b, to);
      var r := Enter(b, player, to);
      && c in Contents(b)
      && (!StackIsBlot(t, player) ==> Contents(r) == Contents(b) - multiset{c} + multiset{c.WithPosition(to)})
      && (StackIsBlot(t, player) ==>
            && t[0] in Contents(b) - multiset{c}
            && Contents(r) == Contents(b) - multiset{c} - multiset{t[0]} + multiset{t[0].WithPosition(HitPosition)} + multiset{c.WithPosition(to)})
  {
    var s := Bar(b, player);
    PopBarContents(b, player);
    LandContents(WithBar(b, player, s[..|s| - 1]), player, Opponent(player), s[|s| - 1], to);
  }

  /** A point's stack holds checkers of one colour whose position is `i`. */
  ghost predicate StackWellFormed(s: seq<Checker>, i: int)
  {
    forall c :: c in s ==> c.color == s[0].color && c.position == i
  }

  /** A bar of colour `col` holds checkers of that colour at position -1. */
  ghost predicate BarWellFormed(s: seq<Checker>, col: Color)
  {
    forall c :: c in s ==> c.color == col && c.position == HitPosition
  }

  /** Every point holds checkers of one colour whose position is the point's
      index, and every checker on a bar has the bar's colour and position -1. */
  ghost predicate WellFormed(b: Board)
  {
    && (forall i :: OnBoard(i) ==> StackWellFormed(Stack(b, i), i))
    && BarWellFormed(b.whiteBar, White)
    && BarWellFormed(b.blackBar, Black)
  }

  lemma PopWellFormed(s: seq<Checker>, i: int)
    requires StackWellFormed(s, i) && s != []
    ensures StackWellFormed(s[..|s| - 1], i)
  {
    if |s| > 1 {
      assert s[0] in s;
    }
  }

  /** Popping a point keeps the board well formed. */
  lemma {:induction false} PopKeepsWellFormed(b: Board, i: int)
    requires WellFormed(b) && OnBoard(i) && Stack(b, i) != []
    ensures var s := Stack(b, i); WellFormed(WithStack(b, i, s[..|s| - 1]))
  {
    PopWellFormed(Stack(b, i), i);
  }

  /** Pushing a checker of the stack's colour (or on an empty stack) with the
      point's index keeps the stack well formed. */
  lemma PushWellFormed(s: seq<Checker>, i: int, c: Checker)
    requires StackWellFormed(s, i) && c.position == i
    requires s == [] || s[0].color == c.color
    ensures StackWellFormed(s + [c], i)
  {
  }

  /** Appending checkers of the point's colour, each with the point's index,
      keeps the board well formed. */
  lemma {:induction false} AppendKeepsWellFormed(b: Board, i: int, added: seq<Checker>, col: Color)
    requires WellFormed(b) && OnBoard(i)
    requires forall x :: x in added ==> x == Checker(col, i)
    requires Stack(b, i) == [] || Stack(b, i)[0].color == col
    ensures WellFormed(WithStack(b, i, Stack(b, i) + added))
  {
    var s := Stack(b, i);
    assert StackWellFormed(s, i);
    forall x | x in s + added
      ensures x.color == (s + added)[0].color && x.position == i
    {
      if s != [] {
        assert s[0] in s;
      } else {
        assert (s + added)[0] in added;
      }
    }
  }

  /** Landing a checker of the mover's colour on a point open to the mover,
      hitting to the opponent's bar, keeps the board well formed. */
  lemma {:induction false} LandWellFormed(b: Board, mover: Color, c: Checker, to: int)
    requires WellFormed(b) && OnBoard(to) && c.color == mover && Open(Stack(b, to), mover)
    ensures WellFormed(Land(b, mover, Opponent(mover), c, to))
  {
    var t := Stack(b, to);
    var r := Land(b, mover, Opponent(mover), c, to);
    LandEffect(b, mover, Opponent(mover), c, to);
    if StackIsBlot(t, mover) {
      assert t[0] in t;
      assert t[0].color == Opponent(mover);
      PushWellFormed([], to, c.WithPosition(to));
      assert Stack(r, to) == [] + [c.WithPosition(to)];
    } else {
      assert t != [] ==> t[0].color == mover by {
        if t != [] {
          assert t[0] in t;
          assert StackWellFormed(t, to);
        }
      }
      PushWellFormed(t, to, c.WithPosition(to));
    }
    assert r.whiteBar == Bar(r, White) && r.blackBar == Bar(r, Black);
  }

  /** A move from an own point to an open point, hitting to the opponent's
      bar, keeps the board well formed. */
  lemma {:induction false} MoveKeepsWellFormed(b: Board, mover: Color, from: int, to: int)
    requires WellFormed(b)
    requires OnBoard(from) && OnBoard(to) && from != to
    requires StackOwner(Stack(b, from)) == Some(mover) && Open(Stack(b, to), mover)
    ensures WellFormed(Move(b, mover, Opponent(mover), from, to))
  {
    var s := Stack(b, from);
    var c := s[|s| - 1];
    assert c.color == mover by {
      assert c in s;
    }
    PopWellFormed(s, from);
    var b1 := WithStack(b, from, s[..|s| - 1]);
    assert WellFormed(b1);
    LandWellFormed(b1, mover, c, to);
  }

  /** A move on the board takes the moved checker out of the contents and
      puts it back at its new position; a hit checker is replaced by its copy
      at position -1. */
  lemma {:induction false} MoveContents(b: Board, mover: Color, hitBar: Color, from: int, to: int)
    requires OnBoard(from) && OnBoard(to) && Stack(b, from) != []
    ensures var s := Stack(b, from);
      var c := s[|s| - 1];
      var b1 := WithStack(b, from, s[..|s| - 1]);
      var t := Stack(b1, to);
      var r := MoveCheckerTo(b, mover, hitBar, from, to);
      && c in Contents(b)
      && (!StackIsBlot(t, mover) ==> Contents(r) == Contents(b) - multiset{c} + multiset{c.WithPosition(to)})
      && (StackIsBlot(t, mover) ==>
            && t[0] in Contents(b) - multiset{c}
            && Contents(r) == Contents(b) - multiset{c} - multiset{t[0]} + multiset{t[0].WithPosition(HitPosition)} + multiset{c.WithPosition(to)})
  {
    var s := Stack(b, from);
    PopContents(b, from);
    LandContents(WithStack(b, from, s[..|s| - 1]), mover, hitBar, s[|s| - 1], to);
  }

  /** A bar entry onto an open point keeps the board well formed. */
  lemma {:induction false} EnterKeepsWellFormed(b: Board, player: Color, to: int)
    requires WellFormed(b) && OnBoard(to) && Bar(b, player) != [] && Open(Stack(b, to), player)
    ensures WellFormed(Enter(b, player, to))
  {
    var s := Bar(b, player);
    var c := s[|s| - 1];
    assert c in s;
    var b1 := WithBar(b, player, s[..|s| - 1]);
    assert forall x :: x in s[..|s| - 1] ==> x in s;
    assert b1.whiteBar == Bar(b1, White) && b1.blackBar == Bar(b1, Black);
    assert WellFormed(b1);
    LandWellFormed(b1, player, c, to);
  }

  /** Any move keeps the number of checkers on the board and bars. */
  lemma {:induction false} MoveKeepsCount(b: Board, mover: Color, hitBar: Color, from: int, to: int)
    requires OnBoard(from) && OnBoard(to) ==> Stack(b, from) != []
    ensures Count(MoveCheckerTo(b, mover, hitBar, from, to)) == Count(b)
  {
    if OnBoard(from) && OnBoard(to) {
      MoveContents(b, mover, hitBar, from, to);
    }
  }

  /** A move from an own point onto itself lifts the top checker and puts
      it back: the board is unchanged and the only write stores the position
      the checker already has. */
  lemma {:induction false} MoveToSelf(b: Board, mover: Color, hitBar: Color, i: int)
    requires WellFormed(b) && OnBoard(i) && StackOwner(Stack(b, i)) == Some(mover)
    ensures var s := Stack(b, i);
      && MoveCheckerTo(b, mover, hitBar, i, i) == b
      && MoveWrites(b, mover, i, i) == [(s[|s| - 1], i)]
      && s[|s| - 1].position == i
  {
    var s := Stack(b, i);
    var c := s[|s| - 1];
    assert c in s;
    var b1 := WithStack(b, i, s[..|s| - 1]);
    assert !StackIsBlot(Stack(b1, i), mover) by {
      if |s| == 2 {
        assert Stack(b1, i)[0] == s[0];
      }
    }
    assert s[..|s| - 1] + [c.WithPosition(i)] == s;
    assert b.points[i - 1 := s[..|s| - 1]][i - 1 := s] == b.points;
  }

  /** A hit takes the blot out of the contents and puts its copy at
      position -1 back; without a blot nothing changes. */
  lemma {:induction false} HitContents(b: Board, mover: Color, hitBar: Color, to: int)
    requires OnBoard(to)
    ensures var t := Stack(b, to);
      var r := Hit(b, mover, hitBar, to);
      && (!StackIsBlot(t, mover) ==> r == b)
      && (StackIsBlot(t, mover) ==>
            && t[0] in Contents(b)
            && Contents(r) == Contents(b) - multiset{t[0]} + multiset{t[0].WithPosition(HitPosition)})
  {
    hide Contents;
    var t := Stack(b, to);
    if StackIsBlot(t, mover) {
      var h := t[0];
      var bh := WithStack(b, to, []);
      assert t == [h];
      WithStackContents(b, to, []);
      assert multiset(t) == multiset{h};
      assert Contents(bh) == Contents(b) - multiset{h};
      BarPushContents(bh, hitBar, h.WithPosition(HitPosition));
      assert Hit(b, mover, hitBar, to) == WithBar(bh, hitBar, Bar(bh, hitBar) + [h.WithPosition(HitPosition)]);
    }
  }

  /** A hit to the bar of the blot's own colour keeps the board well formed. */
  lemma {:induction false} HitKeepsWellFormed(b: Board, mover: Color, to: int)
    requires WellFormed(b) && OnBoard(to)
    ensures WellFormed(Hit(b, mover, Opponent(mover), to))
  {
    var t := Stack(b, to);
    if StackIsBlot(t, mover) {
      assert t[0] in t;
      assert t[0].color == Opponent(mover);
      var r := Hit(b, mover, Opponent(mover), to);
      assert r.whiteBar == Bar(r, White) && r.blackBar == Bar(r, Black);
    }
  }

  /** The three-argument `MoveChecker` of GameBoard.cs puts the hit checker
      on the mover's own bar: White hitting a black blot leaves a black
      checker on the white bar, and the board is no longer well formed. */
  lemma MoveAsWrittenMisplacesHit()
    ensures var b := WithStack(WithStack(EmptyBoard, 1, [Checker(White, 1)]), 4, [Checker(Black, 4)]);
      && WellFormed(b)
      && MoveAllowed(b, White, 1, 4, 3)
      && MoveAsWritten(b, White, 1, 4).whiteBar == [Checker(Black, HitPosition)]
      && !WellFormed(MoveAsWritten(b, White, 1, 4))
  {
    var b := WithStack(WithStack(EmptyBoard, 1, [Checker(White, 1)]), 4, [Checker(Black, 4)]);
    MoveHit(b, White, White, 1, 4);
    assert Checker(Black, HitPosition) in MoveAsWritten(b, White, 1, 4).whiteBar;
  }

  class GameBoard {
    /** `Points`: the array is filled once by the constructor and never
        written again, so it is a constant sequence of point objects. */
    const points: seq<Point>
    var whiteBar: seq<Checker>
    var blackBar: seq<Checker>
    /** The 24 point objects. */
    ghost const Repr: set<Point>
    /** The board as a value (what `Clone` copies). */
    ghost var model: Board

    /** Point i is `points[i - 1]`, and `model` is what the points and the
        bars hold. */
    ghost predicate Valid()
      reads this, Repr
    {
      && |points| == 24
      && (forall i :: 0 <= i < 24 ==> points[i] in Repr && points[i].index == i + 1 && points[i].checkers == model.points[i])
      && whiteBar == model.whiteBar && blackBar == model.blackBar
    }

    constructor ()
      ensures Valid() && IsEmpty(model)
      ensures fresh(Repr)
    {
      var ps: seq<Point> := [];
      for i := 0 to 24
        invariant |ps| == i
        invariant forall k :: 0 <= k < i ==> fresh(ps[k]) && ps[k].index == k + 1 && ps[k].checkers == []
      {
        var p := new Point(i + 1);
        ps := ps + [p];
      }
      points := ps;
      whiteBar, blackBar := [], [];
      Repr := set k | 0 <= k < 24 :: ps[k];
      model := BoardState(seq(24, _ => []), [], []);
    }

    function GetBar(c: Color): seq<Checker>
      reads this
    {
      if c == White then whiteBar else blackBar
    }

    /** The search's `AddToBar(checker)`, and `HitChecker` of the player whose
        colour is `c`: push on the bar of `c`. */
    method AddToBar(c: Color, checker: Checker)
      requires Valid()
      modifies this
      ensures Valid() && model == WithBar(old(model), c, Bar(old(model), c) + [checker])
    {
      if c == White {
        whiteBar := whiteBar + [checker];
      } else {
        blackBar := blackBar + [checker];
      }
      model := WithBar(model, c, Bar(model, c) + [checker]);
    }

    /** `RemoveFromBar(c)` / `ReEnterFromBar`: pop the bar of `c`. */
    method RemoveFromBar(c: Color) returns (checker: Checker)
      requires Valid() && Bar(model, c) != []
      modifies this
      ensures Valid()
      ensures var s := Bar(old(model), c);
        checker == s[|s| - 1] && model == WithBar(old(model), c, s[..|s| - 1])
    {
      if c == White {
        checker := whiteBar[|whiteBar| - 1];
        whiteBar := whiteBar[..|whiteBar| - 1];
      } else {
        checker := blackBar[|blackBar| - 1];
        blackBar := blackBar[..|blackBar| - 1];
      }
      model := WithBar(model, c, Bar(model, c)[..|Bar(model, c)| - 1]);
    }

    /** The hit inside `MoveChecker`: the blot on point `i` leaves the point,
        its position becomes -1 (seen through its owner's list) and it is
        pushed on the opponent's bar. */
    method HitBlot(i: int, mover: Player, opponent: Player)
      requires Valid() && OnBoard(i) && mover.color != opponent.color
      requires StackIsBlot(Stack(model, i), mover.color)
      modifies this, points[i - 1], mover, opponent
      ensures Valid()
      ensures var b := old(model);
        var h := Stack(b, i)[0];
        model == WithBar(WithStack(b, i, []), opponent.color, Bar(b, opponent.color) + [h.WithPosition(HitPosition)])
      ensures var h := Stack(old(model), i)[0];
        && mover.checkers == Written(old(mover.checkers), mover.color, [(h, HitPosition)])
        && opponent.checkers == Written(old(opponent.checkers), opponent.color, [(h, HitPosition)])
      ensures mover.bearOff == old(mover.bearOff) && opponent.bearOff == old(opponent.bearOff)
    {
      var hit := points[i - 1].RemoveChecker();
      model := WithStack(model, i, points[i - 1].checkers);
      SetPosition(hit.value, HitPosition, mover, opponent);
      AddToBar(opponent.color, hit.value.WithPosition(HitPosition));
    }

    /** The end of `MoveChecker`: `c` takes position `i` (seen through its
        owner's list) and is pushed on point `i`. */
    method PlaceChecker(i: int, c: Checker, mover: Player, opponent: Player)
      requires Valid() && OnBoard(i) && mover.color != opponent.color
      modifies this, points[i - 1], mover, opponent
      ensures Valid()
      ensures model == WithStack(old(model), i, Stack(old(model), i) + [c.WithPosition(i)])
      ensures mover.checkers == Written(old(mover.checkers), mover.color, [(c, i)])
      ensures opponent.checkers == Written(old(opponent.checkers), opponent.color, [(c, i)])
      ensures mover.bearOff == old(mover.bearOff) && opponent.bearOff == old(opponent.bearOff)
    {
      points[i - 1].AddChecker(c.WithPosition(i));
      model := WithStack(model, i, points[i - 1].checkers);
      SetPosition(c, i, mover, opponent);
    }

    /** `MoveChecker(mover, opponent, from, to)`: indices off the board change
        nothing; otherwise the source's top checker moves to `to`, a blot
        there goes to the opponent's bar, and each position write is seen
        through the list of the player owning the checker. From an empty
        point `RemoveChecker` yields null: the hit still happens, then
        writing the null checker's position throws (`thrown`). */
    method MoveChecker(mover: Player, opponent: Player, from: int, to: int) returns (thrown: bool)
      requires Valid() && mover.color != opponent.color
      modifies this, Repr, mover, opponent
      ensures Valid()
      ensures thrown <==> OnBoard(from) && OnBoard(to) && Stack(old(model), from) == []
      ensures thrown ==>
        var ws := HitWrites(old(model), mover.color, to);
        && model == Hit(old(model), mover.color, opponent.color, to)
        && mover.checkers == Written(old(mover.checkers), mover.color, ws)
        && opponent.checkers == Written(old(opponent.checkers), opponent.color, ws)
      ensures !thrown ==>
        var ws := MoveWrites(old(model), mover.color, from, to);
        && model == Move(old(model), mover.color, opponent.color, from, to)
        && mover.checkers == Written(old(mover.checkers), mover.color, ws)
        && opponent.checkers == Written(old(opponent.checkers), opponent.color, ws)
      ensures mover.bearOff == old(mover.bearOff) && opponent.bearOff == old(opponent.bearOff)
    {
      if from < 1 || from > 24 || to < 1 || to > 24 {
        return false;
      }
      ghost var b := model;
      ghost var s := Stack(b, from);
      var fromPoint := points[from - 1];
      var toPoint := points[to - 1];
      var checker := fromPoint.RemoveChecker();
      if checker != None {
        model := WithStack(model, from, fromPoint.checkers);
        assert model == WithStack(b, from, s[..|s| - 1]);
      }
      if toPoint.IsBlot(mover.color) {
        HitBlot(to, mover, opponent);
      }
      if checker == None {
        return true;
      }
      PlaceChecker(to, checker.value, mover, opponent);
      return false;
    }

    /** The bar entry of `Game.MakeMove`: `ReEnterFromBar` pops the mover's
        bar, a blot on `to` goes to the opponent's bar at position -1, and
        the entering checker lands on `to`. */
    method EnterChecker(mover: Player, opponent: Player, to: int)
      requires Valid() && mover.color != opponent.color && OnBoard(to) && Bar(model, mover.color) != []
      modifies this, Repr, mover, opponent
      ensures Valid()
      ensures model == Enter(old(model), mover.color, to)
      ensures mover.checkers == Written(old(mover.checkers), mover.color, EnterWrites(old(model), mover.color, to))
      ensures opponent.checkers == Written(old(opponent.checkers), opponent.color, EnterWrites(old(model), mover.color, to))
      ensures mover.bearOff == old(mover.bearOff) && opponent.bearOff == old(opponent.bearOff)
    {
      ghost var b := model;
      var toPoint := points[to - 1];
      var checker := RemoveFromBar(mover.color);
      if toPoint.IsBlot(mover.color) {
        HitBlot(to, mover, opponent);
      }
      PlaceChecker(to, checker, mover, opponent);
    }

    /** `IsMoveValid(player, from, to, die)`, read off the point objects. */
    function IsMoveValid(player: Player, from: int, to: int, die: int): (r: bool)
      requires Valid()
      reads this, Repr
      ensures r == MoveAllowed(model, player.color, from, to, die)
    {
      if from < 1 || from > 24 || to < 1 || to > 24 then false
      else
        var fromPoint := points[from - 1];
        var toPoint := points[to - 1];
        && fromPoint.Owner() == Some(player.color)
        && (toPoint.Owner() == None || toPoint.Owner() == Some(player.color) || toPoint.IsBlot(player.color))
        && (to == from + die || to == from - die)
    }
  }
}
