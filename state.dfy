/** The link between the board and the players' lists. In the C# program a
    player's `Checkers` list and the board's points hold the same checker
    objects; with checkers as values, the game keeps the two views in step:
    the white and black lists together hold exactly the checkers on the
    points and the bars, each list holds only its own colour, and the board
    is well formed. Each operation of the game keeps this. */
module GameStates {

  import opened Wrappers
  import opened Checkers
  import opened Points
  import opened Players
  import opened Seqs
  import opened Boards

  ghost predicate OfColor(s: seq<Checker>, col: Color)
  {
    forall c :: c in s ==> c.color == col
  }

  /** `m` is split by colour into `white` and `black`. */
  ghost predicate Split(m: multiset<Checker>, white: seq<Checker>, black: seq<Checker>)
  {
    OfColor(white, White) && OfColor(black, Black) && multiset(white) + multiset(black) == m
  }

  /** The players' lists are the board's checkers split by colour, and the
      board is well formed. */
  ghost predicate Synced(b: Board, white: seq<Checker>, black: seq<Checker>)
  {
    WellFormed(b) && Split(Contents(b), white, black)
  }

  /** A list of one colour: the list that `c` belongs to holds it. */
  lemma InOwnList(m: multiset<Checker>, white: seq<Checker>, black: seq<Checker>, c: Checker)
    requires Split(m, white, black) && c in m
    ensures c.color == White ==> c in white
    ensures c.color == Black ==> c in black
  {
    assert c in multiset(white) || c in multiset(black);
  }

  lemma WrittenOne(s: seq<Checker>, col: Color, c: Checker, pos: int)
    ensures Written(s, col, [(c, pos)]) == if c.color == col then ReplaceFirst(s, c, c.WithPosition(pos)) else s
  {
    assert [(c, pos)][1..] == [];
  }

  /** Replacing an element of a one-colour list by one of the same colour
      keeps the list of one colour. */
  lemma ReplaceKeepsColor(s: seq<Checker>, col: Color, x: Checker, y: Checker)
    requires OfColor(s, col) && y.color == col
    ensures OfColor(ReplaceFirst(s, x, y), col)
  {
    var r := ReplaceFirst(s, x, y);
    forall z | z in r
      ensures z.color == col
    {
      assert z in multiset(r);
    }
  }

  /** Removing an element keeps a list of one colour. */
  lemma RemoveKeepsColor(s: seq<Checker>, col: Color, x: Checker)
    requires OfColor(s, col)
    ensures OfColor(RemoveFirst(s, x), col)
  {
    var r := RemoveFirst(s, x);
    forall z | z in r
      ensures z.color == col
    {
      assert z in multiset(r);
    }
  }

  /** Relocating an element of `a` shows in the sum with `b`. */
  lemma ReplaceSum(a: seq<Checker>, b: seq<Checker>, x: Checker, y: Checker)
    requires x in a
    ensures multiset(ReplaceFirst(a, x, y)) + multiset(b) == multiset(a) + multiset(b) - multiset{x} + multiset{y}
  {
  }

  /** One position write on a checker of `m`: its copy in the list of its
      colour is relocated, and the split follows. */
  lemma {:induction false} WriteKeepsSplit(m: multiset<Checker>, white: seq<Checker>, black: seq<Checker>, c: Checker, pos: int)
    requires Split(m, white, black) && c in m
    ensures Split(m - multiset{c} + multiset{c.WithPosition(pos)},
                  Written(white, White, [(c, pos)]), Written(black, Black, [(c, pos)]))
  {
    InOwnList(m, white, black, c);
    var c' := c.WithPosition(pos);
    WrittenOne(white, White, c, pos);
    WrittenOne(black, Black, c, pos);
    if c.color == White {
      ReplaceKeepsColor(white, White, c, c');
      ReplaceSum(white, black, c, c');
    } else {
      ReplaceKeepsColor(black, Black, c, c');
      ReplaceSum(black, white, c, c');
    }
  }

  /** Two writes in a row are the writes one after the other. */
  lemma WrittenTwo(s: seq<Checker>, col: Color, w1: (Checker, int), w2: (Checker, int))
    ensures Written(s, col, [w1, w2]) == Written(Written(s, col, [w1]), col, [w2])
  {
    assert [w1, w2][1..] == [w2];
  }

  /** Multiset bookkeeping of a hit followed by a landing. */
  lemma HitThenLandCount(m: multiset<Checker>, c: Checker, h: Checker, h': Checker, c': Checker)
    requires c in m && h in m - multiset{c}
    ensures h in m && c in m - multiset{h} + multiset{h'}
    ensures m - multiset{h} + multiset{h'} - multiset{c} + multiset{c'}
         == m - multiset{c} - multiset{h} + multiset{h'} + multiset{c'}
  {
    if c == h {
      assert m[c] >= 2;
    }
  }

  /** The writes of a landing without a hit keep the split in step with
      `LandContents`. */
  lemma {:induction false} LandKeepsSplit(m: multiset<Checker>, white: seq<Checker>, black: seq<Checker>, c: Checker, to: int)
    requires Split(m, white, black) && c in m
    ensures Split(m - multiset{c} + multiset{c.WithPosition(to)},
                  Written(white, White, [] + [(c, to)]), Written(black, Black, [] + [(c, to)]))
  {
    WriteKeepsSplit(m, white, black, c, to);
    assert [] + [(c, to)] == [(c, to)];
  }

  /** The writes of a landing on a blot keep the split in step with
      `LandContents`. */
  lemma {:induction false} HitKeepsSplit(m: multiset<Checker>, white: seq<Checker>, black: seq<Checker>, c: Checker, h: Checker, to: int)
    requires Split(m, white, black) && c in m && h in m - multiset{c}
    ensures var ws := [(h, HitPosition)] + [(c, to)];
      Split(m - multiset{c} - multiset{h} + multiset{h.WithPosition(HitPosition)} + multiset{c.WithPosition(to)},
            Written(white, White, ws), Written(black, Black, ws))
  {
    var h' := h.WithPosition(HitPosition);
    HitThenLandCount(m, c, h, h', c.WithPosition(to));
    WriteKeepsSplit(m, white, black, h, HitPosition);
    var m1 := m - multiset{h} + multiset{h'};
    var w1 := Written(white, White, [(h, HitPosition)]);
    var k1 := Written(black, Black, [(h, HitPosition)]);
    WriteKeepsSplit(m1, w1, k1, c, to);
    WrittenTwo(white, White, (h, HitPosition), (c, to));
    WrittenTwo(black, Black, (h, HitPosition), (c, to));
    assert [(h, HitPosition)] + [(c, to)] == [(h, HitPosition), (c, to)];
  }

  /** A legal move (own source, open destination) keeps the lists in step
      with the board. */
  lemma {:induction false} MoveKeepsSynced(b: Board, white: seq<Checker>, black: seq<Checker>, mover: Color, from: int, to: int)
    requires Synced(b, white, black)
    requires OnBoard(from) && OnBoard(to) && from != to
    requires StackOwner(Stack(b, from)) == Some(mover) && Open(Stack(b, to), mover)
    ensures var ws := MoveWrites(b, mover, from, to);
      Synced(Move(b, mover, Opponent(mover), from, to), Written(white, White, ws), Written(black, Black, ws))
  {
    MoveKeepsWellFormed(b, mover, from, to);
    MoveContents(b, mover, Opponent(mover), from, to);
    var s := Stack(b, from);
    var b1 := WithStack(b, from, s[..|s| - 1]);
    var t := Stack(b1, to);
    if StackIsBlot(t, mover) {
      HitKeepsSplit(Contents(b), white, black, s[|s| - 1], t[0], to);
    } else {
      LandKeepsSplit(Contents(b), white, black, s[|s| - 1], to);
    }
  }

  /** A move from an own point onto itself changes neither the board nor the
      lists. */
  lemma {:induction false} MoveToSelfKeepsAll(b: Board, white: seq<Checker>, black: seq<Checker>, mover: Color, i: int)
    requires Synced(b, white, black) && OnBoard(i) && StackOwner(Stack(b, i)) == Some(mover)
    ensures var ws := MoveWrites(b, mover, i, i);
      && Move(b, mover, Opponent(mover), i, i) == b
      && Written(white, White, ws) == white && Written(black, Black, ws) == black
  {
    MoveToSelf(b, mover, Opponent(mover), i);
    var s := Stack(b, i);
    var c := s[|s| - 1];
    WrittenOne(white, White, c, i);
    WrittenOne(black, Black, c, i);
    assert c.WithPosition(i) == c;
    ReplaceFirstSame(white, c);
    ReplaceFirstSame(black, c);
  }

  /** A move with an index off the points changes neither the board nor the
      lists. */
  lemma MoveOffBoardKeepsAll(b: Board, white: seq<Checker>, black: seq<Checker>, mover: Color, from: int, to: int)
    requires !OnBoard(from) || !OnBoard(to)
    ensures var ws := MoveWrites(b, mover, from, to);
      && Move(b, mover, Opponent(mover), from, to) == b
      && Written(white, White, ws) == white && Written(black, Black, ws) == black
  {
    MoveOffBoard(b, mover, Opponent(mover), from, to);
  }

  /** The hit alone, as when `MoveChecker` lifts nothing from an empty point,
      keeps the lists in step with the board. */
  lemma {:induction false} HitKeepsSynced(b: Board, white: seq<Checker>, black: seq<Checker>, mover: Color, to: int)
    requires Synced(b, white, black) && OnBoard(to)
    ensures var ws := HitWrites(b, mover, to);
      Synced(Hit(b, mover, Opponent(mover), to), Written(white, White, ws), Written(black, Black, ws))
  {
    HitKeepsWellFormed(b, mover, to);
    HitContents(b, mover, Opponent(mover), to);
    var t := Stack(b, to);
    if StackIsBlot(t, mover) {
      WriteKeepsSplit(Contents(b), white, black, t[0], HitPosition);
    } else {
      assert HitWrites(b, mover, to) == [];
    }
  }

  /** A bar entry onto an open point keeps the lists in step with the board. */
  lemma {:induction false} EnterKeepsSynced(b: Board, white: seq<Checker>, black: seq<Checker>, player: Color, to: int)
    requires Synced(b, white, black)
    requires OnBoard(to) && Bar(b, player) != [] && Open(Stack(b, to), player)
    ensures var ws := EnterWrites(b, player, to);
      Synced(Enter(b, player, to), Written(white, White, ws), Written(black, Black, ws))
  {
    EnterKeepsWellFormed(b, player, to);
    EnterContents(b, player, to);
    var s := Bar(b, player);
    var t := Stack(b, to);
    assert Stack(WithBar(b, player, s[..|s| - 1]), to) == t;
    if StackIsBlot(t, player) {
      HitKeepsSplit(Contents(b), white, black, s[|s| - 1], t[0], to);
    } else {
      LandKeepsSplit(Contents(b), white, black, s[|s| - 1], to);
    }
  }

  /** Removing a checker of `m` from the list of its colour follows the
      split. */
  lemma {:induction false} RemoveKeepsSplit(m: multiset<Checker>, white: seq<Checker>, black: seq<Checker>, c: Checker)
    requires Split(m, white, black) && c in m
    ensures c.color == White ==> c in white && Split(m - multiset{c}, RemoveFirst(white, c), black)
    ensures c.color == Black ==> c in black && Split(m - multiset{c}, white, RemoveFirst(black, c))
  {
    InOwnList(m, white, black, c);
    if c.color == White {
      RemoveKeepsColor(white, White, c);
    } else {
      RemoveKeepsColor(black, Black, c);
    }
  }

  /** Bearing off the top checker of an own point removes it from the board
      and from its owner's list. */
  lemma {:induction false} BearOffKeepsSynced(b: Board, white: seq<Checker>, black: seq<Checker>, player: Color, i: int)
    requires Synced(b, white, black)
    requires OnBoard(i) && StackOwner(Stack(b, i)) == Some(player)
    ensures var s := Stack(b, i);
      var c := s[|s| - 1];
      && c.color == player
      && (player == White ==> c in white && Synced(WithStack(b, i, s[..|s| - 1]), RemoveFirst(white, c), black))
      && (player == Black ==> c in black && Synced(WithStack(b, i, s[..|s| - 1]), white, RemoveFirst(black, c)))
  {
    var s := Stack(b, i);
    var c := s[|s| - 1];
    assert c in s && StackWellFormed(s, i);
    PopContents(b, i);
    PopKeepsWellFormed(b, i);
    RemoveKeepsSplit(Contents(b), white, black, c);
  }

  /** In a synced state every checker in a player's list stands at its own
      point or, at position -1, on its bar. */
  lemma {:induction false} ListPositions(b: Board, white: seq<Checker>, black: seq<Checker>, c: Checker)
    requires Synced(b, white, black) && (c in white || c in black)
    ensures c in Contents(b)
    ensures c.position == HitPosition ==> c in Bar(b, c.color)
    ensures c.position != HitPosition ==> OnBoard(c.position) && c in Stack(b, c.position)
  {
    assert c in multiset(white) + multiset(black);
    assert c in multiset(Flatten(b.points)) || c in b.whiteBar || c in b.blackBar;
    if c in multiset(Flatten(b.points)) {
      var k := FlattenIndex(b.points, c);
      assert c in Stack(b, k + 1);
      assert StackWellFormed(Stack(b, k + 1), k + 1);
    }
  }

  /** The inner sequence that holds an element of the flattening. */
  lemma {:induction false} FlattenIndex(ss: seq<seq<Checker>>, x: Checker) returns (k: nat)
    requires x in Flatten(ss)
    ensures k < |ss| && x in ss[k]
  {
    if x in ss[0] {
      k := 0;
    } else {
      var j := FlattenIndex(ss[1..], x);
      k := j + 1;
    }
  }

  lemma {:induction false} FlattenEmpty(ss: seq<seq<Checker>>)
    requires forall k :: 0 <= k < |ss| ==> ss[k] == []
    ensures Flatten(ss) == []
  {
    if ss != [] {
      FlattenEmpty(ss[1..]);
    }
  }

  /** The empty board and empty lists are in step. */
  lemma EmptySynced(b: Board)
    requires IsEmpty(b)
    ensures Synced(b, [], [])
  {
    assert forall k :: 0 <= k < 24 ==> b.points[k] == Stack(b, k + 1);
    FlattenEmpty(b.points);
  }

  /** Putting `n` new checkers of one colour, each with position `i`, on a
      point that is empty or already of that colour, and appending them to
      that colour's list, keeps the lists in step with the board. */
  lemma {:induction false} AddKeepsSynced(b: Board, white: seq<Checker>, black: seq<Checker>, i: int, added: seq<Checker>, col: Color)
    requires Synced(b, white, black) && OnBoard(i)
    requires forall x :: x in added ==> x == Checker(col, i)
    requires Stack(b, i) == [] || Stack(b, i)[0].color == col
    ensures Synced(WithStack(b, i, Stack(b, i) + added),
                   if col == White then white + added else white,
                   if col == Black then black + added else black)
  {
    var s := Stack(b, i);
    AppendKeepsWellFormed(b, i, added, col);
    WithStackContents(b, i, s + added);
    assert multiset(s + added) == multiset(s) + multiset(added);
    assert OfColor(added, col);
    AddKeepsSplit(Contents(b), white, black, added, col);
  }

  /** New checkers of one colour join the list of that colour. */
  lemma AddKeepsSplit(m: multiset<Checker>, white: seq<Checker>, black: seq<Checker>, added: seq<Checker>, col: Color)
    requires Split(m, white, black) && OfColor(added, col)
    ensures Split(m + multiset(added),
                  if col == White then white + added else white,
                  if col == Black then black + added else black)
  {
    if col == White {
      assert multiset(white + added) == multiset(white) + multiset(added);
    } else {
      assert multiset(black + added) == multiset(black) + multiset(added);
    }
  }

  /** A player whose list and borne-off list hold fifteen checkers in all
      has borne off fifteen exactly when none of its checkers is left on the
      points or the bar. */
  lemma {:induction false} AllBorneOff(b: Board, white: seq<Checker>, black: seq<Checker>, player: Color, borne: nat)
    requires Synced(b, white, black)
    requires |if player == White then white else black| + borne == 15
    ensures borne == 15 <==> forall c :: c in Contents(b) ==> c.color != player
  {
    var list := if player == White then white else black;
    if borne != 15 {
      var c := list[0];
      assert c in multiset(white) + multiset(black);
      assert c in Contents(b) && c.color == player;
    } else {
      forall c | c in Contents(b)
        ensures c.color != player
      {
        InOwnList(Contents(b), white, black, c);
      }
    }
  }
}
