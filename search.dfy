/** Core/AI/AI.cs `GenerateUniqueStates` and its local `Recurse`, as functions
    on values: the depth-first search over one player's move sequences for
    one set of dice, the states it collects, and what it records in the
    `stateToMoves` table, which lives on from one search to the next.

    A board reached by a move is followed only when its hash is not yet a key
    of the table, and it is recorded with the moves that reached it before it
    is followed; a board without moves is collected only when its hash is a
    key. The moves of a board are generated once, and the entries among them
    pop that board's bar one after the other. A step of the recursion that
    the call stack of the program could not hold is `OutOfFuel`. */
module Search {

  import opened Wrappers
  import opened Checkers
  import opened Boards
  import opened Seqs
  import opened Points
  import Rules
  import opened MoveGen
  import opened BoardHash

  type Table = map<string, seq<Move>>

  /** The state a search threads: the table, the states collected so far
      (`uniqueStates`) and the hashes this search added (`currentCallStates`). */
  datatype Frame = Frame(table: Table, states: seq<Board>, added: set<string>)

  /** `Recurse(currentBoard, remainingDice, currentMoves)`: the frame after it
      and the board it was given, as it stands after the entries made from it. */
  function Expand(f: Frame, b: Board, player: Color, dice: seq<int>, path: seq<Move>, fuel: nat): Outcome<(Frame, Board)>
    decreases fuel, 0
  {
    if fuel == 0 then Failed(OutOfFuel)
    else
      var moves := Moves(b, player, dice);
      if moves == [] then
        var h := Hash(b);
        if h in f.table then Done((Frame(f.table[h := path], f.states + [b], f.added + {h}), b))
        else Done((f, b))
      else Branches(f, b, player, dice, path, moves, fuel - 1)
  }

  /** The `foreach` over the generated moves, from move `moves[0]` on. */
  function Branches(f: Frame, b: Board, player: Color, dice: seq<int>, path: seq<Move>, moves: seq<Move>, fuel: nat): Outcome<(Frame, Board)>
    decreases fuel, 1, |moves|
  {
    if moves == [] then Done((f, b))
    else
      var m := moves[0];
      var sim := SimulateMove(b, player, m);
      if sim.Failed? then Failed(sim.fault)
      else
        var (b', child) := sim.value;
        var h := Hash(child);
        if h in f.table then Branches(f, b', player, dice, path, moves[1..], fuel)
        else
          var f1 := Frame(f.table[h := path + [m]], f.states, f.added + {h});
          var r := Expand(f1, child, player, RemoveFirst(dice, UsedDie(m)), path + [m], fuel);
          if r.Failed? then r
          else Branches(r.value.0, b', player, dice, path, moves[1..], fuel)
  }

  function Hashes(states: seq<Board>): set<string>
  {
    set x | x in states :: Hash(x)
  }

  /** The closing loop: every hash this search added that is not the hash of
      a collected state leaves the table. */
  function Cleanup(table: Table, added: set<string>, states: seq<Board>): Table
  {
    table - (added - Hashes(states))
  }

  /** The result of `GenerateUniqueStates`: the table afterwards, the states,
      the searched board afterwards, and whether the list holds that board
      object itself (a board without moves whose hash was already a key). */
  datatype Found = Found(table: Table, states: seq<Board>, board: Board, rootReturned: bool)

  function Unique(table: Table, b: Board, player: Color, dice: seq<int>, fuel: nat): Outcome<Found>
  {
    var r := Expand(Frame(table, [], {}), b, player, dice, [], fuel);
    if r.Failed? then Failed(r.fault)
    else
      var (f, b') := r.value;
      Done(Found(Cleanup(f.table, f.added, f.states), f.states, b', Moves(b, player, dice) == [] && Hash(b) in table))
  }

  /** `RetrieveMoveSequence`: the moves recorded for the board's hash, or none. */
  function Retrieve(table: Table, b: Board): (r: seq<Move>)
    ensures Hash(b) in table ==> r == table[Hash(b)]
    ensures Hash(b) !in table ==> r == []
  {
    var h := Hash(b);
    if h in table then table[h] else []
  }

  // ----- what a search does to its frame -----

  /** The states collected between two frames. */
  function New(f: Frame, f': Frame): seq<Board>
    requires |f.states| <= |f'.states|
  {
    f'.states[|f.states|..]
  }

  /** The frame only grows: collected states stay, keys stay, added hashes
      stay; a new key is an added hash; a new state's hash is a key. */
  ghost predicate Extends(f: Frame, f': Frame)
  {
    && |f.states| <= |f'.states| && f'.states[..|f.states|] == f.states
    && f.table.Keys <= f'.table.Keys
    && f.added <= f'.added
    && f'.table.Keys <= f.table.Keys + f'.added
    && forall x :: x in New(f, f') ==> Hash(x) in f'.table
  }

  lemma ExtendsTrans(f: Frame, f1: Frame, f2: Frame)
    requires Extends(f, f1) && Extends(f1, f2)
    ensures Extends(f, f2)
    ensures New(f, f2) == New(f, f1) + New(f1, f2)
  {
    assert f2.states[..|f.states|] == f1.states[..|f.states|];
    assert New(f, f2) == New(f, f1) + New(f1, f2);
  }

  lemma {:induction false} ExpandExtends(f: Frame, b: Board, player: Color, dice: seq<int>, path: seq<Move>, fuel: nat)
    requires Expand(f, b, player, dice, path, fuel).Done?
    ensures Extends(f, Expand(f, b, player, dice, path, fuel).value.0)
    decreases fuel, 0
  {
    hide Moves, Hash, SimulateMove, RemoveFirst;
    var moves := Moves(b, player, dice);
    if moves != [] {
      BranchesExtends(f, b, player, dice, path, moves, fuel - 1);
    } else {
      var f' := Expand(f, b, player, dice, path, fuel).value.0;
      if f' != f {
        assert New(f, f') == [b];
      }
    }
  }

  lemma {:induction false} BranchesExtends(f: Frame, b: Board, player: Color, dice: seq<int>, path: seq<Move>, moves: seq<Move>, fuel: nat)
    requires Branches(f, b, player, dice, path, moves, fuel).Done?
    ensures Extends(f, Branches(f, b, player, dice, path, moves, fuel).value.0)
    decreases fuel, 1, |moves|
  {
    hide Moves, Hash, SimulateMove, RemoveFirst;
    if moves == [] {
      assert New(f, f) == [];
    } else {
      var m := moves[0];
      var (b', child) := SimulateMove(b, player, m).value;
      var h := Hash(child);
      if h in f.table {
        BranchesExtends(f, b', player, dice, path, moves[1..], fuel);
      } else {
        var f1 := Frame(f.table[h := path + [m]], f.states, f.added + {h});
        var dice' := RemoveFirst(dice, UsedDie(m));
        assert New(f, f1) == [];
        ExpandExtends(f1, child, player, dice', path + [m], fuel);
        var f2 := Expand(f1, child, player, dice', path + [m], fuel).value.0;
        BranchesExtends(f2, b', player, dice, path, moves[1..], fuel);
        ExtendsTrans(f, f1, f2);
        ExtendsTrans(f, f2, Branches(f2, b', player, dice, path, moves[1..], fuel).value.0);
      }
    }
  }

  /** `x` has no move left for some of the dice `dice` left over. */
  ghost predicate Settled(x: Board, player: Color, dice: seq<int>)
  {
    exists d: seq<int> :: multiset(d) <= multiset(dice) && Moves(x, player, d) == []
  }

  lemma SettledWeaken(x: Board, player: Color, d: seq<int>, dice: seq<int>)
    requires Settled(x, player, d) && multiset(d) <= multiset(dice)
    ensures Settled(x, player, dice)
  {
    var e: seq<int> :| multiset(e) <= multiset(d) && Moves(x, player, e) == [];
    assert multiset(e) <= multiset(dice);
  }

  lemma RemoveFirstSub(dice: seq<int>, v: int)
    ensures multiset(RemoveFirst(dice, v)) <= multiset(dice)
  {
  }

  /** Every state a search collects has no move left for part of its dice. */
  lemma {:induction false} ExpandSettles(f: Frame, b: Board, player: Color, dice: seq<int>, path: seq<Move>, fuel: nat)
    requires Expand(f, b, player, dice, path, fuel).Done?
    ensures var f' := Expand(f, b, player, dice, path, fuel).value.0;
      Extends(f, f') && forall x :: x in New(f, f') ==> Settled(x, player, dice)
    decreases fuel, 0
  {
    hide Moves, Hash, SimulateMove, RemoveFirst;
    ExpandExtends(f, b, player, dice, path, fuel);
    var moves := Moves(b, player, dice);
    if moves != [] {
      BranchesSettle(f, b, player, dice, path, moves, fuel - 1);
    } else {
      var f' := Expand(f, b, player, dice, path, fuel).value.0;
      if f' != f {
        assert New(f, f') == [b];
        assert multiset(dice) <= multiset(dice);
      }
    }
  }

  lemma {:induction false} BranchesSettle(f: Frame, b: Board, player: Color, dice: seq<int>, path: seq<Move>, moves: seq<Move>, fuel: nat)
    requires Branches(f, b, player, dice, path, moves, fuel).Done?
    ensures var f' := Branches(f, b, player, dice, path, moves, fuel).value.0;
      Extends(f, f') && forall x :: x in New(f, f') ==> Settled(x, player, dice)
    decreases fuel, 1, |moves|
  {
    hide Moves, Hash, Settled, SimulateMove, RemoveFirst;
    BranchesExtends(f, b, player, dice, path, moves, fuel);
    if moves == [] {
      assert New(f, f) == [];
    } else {
      var m := moves[0];
      var (b', child) := SimulateMove(b, player, m).value;
      var h := Hash(child);
      if h in f.table {
        BranchesSettle(f, b', player, dice, path, moves[1..], fuel);
      } else {
        var f1 := Frame(f.table[h := path + [m]], f.states, f.added + {h});
        var dice' := RemoveFirst(dice, UsedDie(m));
        ExpandSettles(f1, child, player, dice', path + [m], fuel);
        var f2 := Expand(f1, child, player, dice', path + [m], fuel).value.0;
        BranchesSettle(f2, b', player, dice, path, moves[1..], fuel);
        var f3 := Branches(f2, b', player, dice, path, moves[1..], fuel).value.0;
        assert New(f, f1) == [];
        ExtendsTrans(f, f1, f2);
        ExtendsTrans(f, f2, f3);
        RemoveFirstSub(dice, UsedDie(m));
        forall x | x in New(f1, f2)
          ensures Settled(x, player, dice)
        {
          SettledWeaken(x, player, dice', dice);
        }
      }
    }
  }

  /** A hash the search adds was not a key before, or is the hash of a state
      it collected. */
  ghost predicate AddsFresh(f: Frame, f': Frame)
    requires |f.states| <= |f'.states|
  {
    forall h :: h in f'.added - f.added ==> h !in f.table || h in Hashes(New(f, f'))
  }

  lemma {:induction false} ExpandAddsFresh(f: Frame, b: Board, player: Color, dice: seq<int>, path: seq<Move>, fuel: nat)
    requires Expand(f, b, player, dice, path, fuel).Done?
    ensures var f' := Expand(f, b, player, dice, path, fuel).value.0;
      Extends(f, f') && AddsFresh(f, f')
    decreases fuel, 0
  {
    hide Moves, Hash, SimulateMove, RemoveFirst;
    ExpandExtends(f, b, player, dice, path, fuel);
    var moves := Moves(b, player, dice);
    if moves != [] {
      BranchesAddFresh(f, b, player, dice, path, moves, fuel - 1);
    } else {
      var f' := Expand(f, b, player, dice, path, fuel).value.0;
      if f' != f {
        assert New(f, f') == [b];
      }
    }
  }

  lemma {:induction false} BranchesAddFresh(f: Frame, b: Board, player: Color, dice: seq<int>, path: seq<Move>, moves: seq<Move>, fuel: nat)
    requires Branches(f, b, player, dice, path, moves, fuel).Done?
    ensures var f' := Branches(f, b, player, dice, path, moves, fuel).value.0;
      Extends(f, f') && AddsFresh(f, f')
    decreases fuel, 1, |moves|
  {
    hide Moves, Hash, SimulateMove, RemoveFirst;
    BranchesExtends(f, b, player, dice, path, moves, fuel);
    if moves == [] {
      assert New(f, f) == [];
    } else {
      var m := moves[0];
      var (b', child) := SimulateMove(b, player, m).value;
      var h := Hash(child);
      if h in f.table {
        BranchesAddFresh(f, b', player, dice, path, moves[1..], fuel);
      } else {
        var f1 := Frame(f.table[h := path + [m]], f.states, f.added + {h});
        var dice' := RemoveFirst(dice, UsedDie(m));
        ExpandAddsFresh(f1, child, player, dice', path + [m], fuel);
        var f2 := Expand(f1, child, player, dice', path + [m], fuel).value.0;
        BranchesAddFresh(f2, b', player, dice, path, moves[1..], fuel);
        var f3 := Branches(f2, b', player, dice, path, moves[1..], fuel).value.0;
        assert New(f, f1) == [];
        ExtendsTrans(f, f1, f2);
        ExtendsTrans(f, f2, f3);
        assert Hashes(New(f1, f2)) <= Hashes(New(f, f3));
        assert Hashes(New(f2, f3)) <= Hashes(New(f, f3));
      }
    }
  }

  /** Every key whose hash is not that of a collected state keeps its moves. */
  ghost predicate Keeps(f: Frame, f': Frame)
    requires |f.states| <= |f'.states|
  {
    forall k :: k in f.table && k !in Hashes(New(f, f')) ==> k in f'.table && f'.table[k] == f.table[k]
  }

  lemma KeepsTrans(f: Frame, f1: Frame, f2: Frame)
    requires Extends(f, f1) && Extends(f1, f2) && Keeps(f, f1) && Keeps(f1, f2)
    ensures Keeps(f, f2)
  {
    ExtendsTrans(f, f1, f2);
    assert Hashes(New(f, f1)) <= Hashes(New(f, f2));
    assert Hashes(New(f1, f2)) <= Hashes(New(f, f2));
  }

  lemma {:induction false} ExpandKeeps(f: Frame, b: Board, player: Color, dice: seq<int>, path: seq<Move>, fuel: nat)
    requires Expand(f, b, player, dice, path, fuel).Done?
    ensures var f' := Expand(f, b, player, dice, path, fuel).value.0;
      Extends(f, f') && Keeps(f, f')
    decreases fuel, 0
  {
    hide Moves, Hash, SimulateMove, RemoveFirst;
    ExpandExtends(f, b, player, dice, path, fuel);
    var moves := Moves(b, player, dice);
    if moves != [] {
      BranchesKeep(f, b, player, dice, path, moves, fuel - 1);
    } else {
      var f' := Expand(f, b, player, dice, path, fuel).value.0;
      if f' != f {
        assert New(f, f') == [b];
        assert Hash(b) in Hashes(New(f, f'));
      }
    }
  }

  lemma {:induction false} BranchesKeep(f: Frame, b: Board, player: Color, dice: seq<int>, path: seq<Move>, moves: seq<Move>, fuel: nat)
    requires Branches(f, b, player, dice, path, moves, fuel).Done?
    ensures var f' := Branches(f, b, player, dice, path, moves, fuel).value.0;
      Extends(f, f') && Keeps(f, f')
    decreases fuel, 1, |moves|
  {
    hide Moves, Hash, SimulateMove, RemoveFirst;
    BranchesExtends(f, b, player, dice, path, moves, fuel);
    if moves == [] {
      KeepsRefl(f);
    } else {
      var m := moves[0];
      var (b', child) := SimulateMove(b, player, m).value;
      var h := Hash(child);
      if h in f.table {
        BranchesKeep(f, b', player, dice, path, moves[1..], fuel);
      } else {
        var f1 := Frame(f.table[h := path + [m]], f.states, f.added + {h});
        var dice' := RemoveFirst(dice, UsedDie(m));
        ExpandKeeps(f1, child, player, dice', path + [m], fuel);
        var f2 := Expand(f1, child, player, dice', path + [m], fuel).value.0;
        BranchesKeep(f2, b', player, dice, path, moves[1..], fuel);
        var f3 := Branches(f2, b', player, dice, path, moves[1..], fuel).value.0;
        assert New(f, f1) == [];
        ExtendsTrans(f, f1, f2);
        InsertKeeps(f, f1, h, path + [m]);
        KeepsTrans(f, f1, f2);
        KeepsTrans(f, f2, f3);
      }
    }
  }

  lemma KeepsRefl(f: Frame)
    ensures Keeps(f, f)
  {
    assert New(f, f) == [];
  }

  lemma InsertKeeps(f: Frame, f1: Frame, h: string, p: seq<Move>)
    requires h !in f.table && f1 == Frame(f.table[h := p], f.states, f.added + {h})
    ensures Keeps(f, f1)
  {
  }

  /** No two boards of `s` share a hash. */
  ghost predicate DistinctHashes(s: seq<Board>)
  {
    forall i, j :: 0 <= i < j < |s| ==> Hash(s[i]) != Hash(s[j])
  }

  lemma DistinctConcat(a: seq<Board>, c: seq<Board>)
    requires DistinctHashes(a) && DistinctHashes(c)
    requires forall x, y :: x in a && y in c ==> Hash(x) != Hash(y)
    ensures DistinctHashes(a + c)
  {
    var s := a + c;
    forall i, j | 0 <= i < j < |s|
      ensures Hash(s[i]) != Hash(s[j])
    {
      if j < |a| {
        assert s[i] == a[i] && s[j] == a[j];
      } else if i >= |a| {
        assert s[i] == c[i - |a|] && s[j] == c[j - |a|];
      } else {
        assert s[i] in a && s[j] in c;
      }
    }
  }

  /** The states collected below a board that has moves are new: no two share
      a hash, and none had its hash among the keys before. */
  ghost predicate FreshStates(f: Frame, f': Frame)
    requires |f.states| <= |f'.states|
  {
    DistinctHashes(New(f, f')) && forall x :: x in New(f, f') ==> Hash(x) !in f.table
  }

  lemma FreshTrans(f: Frame, f1: Frame, f2: Frame)
    requires Extends(f, f1) && Extends(f1, f2)
    requires FreshStates(f, f1) && FreshStates(f1, f2)
    ensures FreshStates(f, f2)
  {
    ExtendsTrans(f, f1, f2);
    forall x, y | x in New(f, f1) && y in New(f1, f2)
      ensures Hash(x) != Hash(y)
    {
    }
    DistinctConcat(New(f, f1), New(f1, f2));
  }

  /** The states collected below a child that was not a key are fresh. */
  lemma ChildFresh(f: Frame, f1: Frame, f2: Frame, child: Board)
    requires Hash(child) !in f.table && f1.states == f.states && f.table.Keys <= f1.table.Keys
    requires Extends(f1, f2)
    requires FreshStates(f1, f2) || New(f1, f2) == [child] || New(f1, f2) == []
    ensures FreshStates(f, f2)
  {
    assert New(f, f2) == New(f1, f2);
  }

  lemma {:induction false} ExpandFresh(f: Frame, b: Board, player: Color, dice: seq<int>, path: seq<Move>, fuel: nat)
    requires Expand(f, b, player, dice, path, fuel).Done?
    ensures var f' := Expand(f, b, player, dice, path, fuel).value.0;
      && Extends(f, f')
      && (Moves(b, player, dice) != [] ==> FreshStates(f, f'))
      && (Moves(b, player, dice) == [] ==> New(f, f') == (if Hash(b) in f.table then [b] else []))
    decreases fuel, 0
  {
    hide Moves, Hash, SimulateMove, RemoveFirst;
    ExpandExtends(f, b, player, dice, path, fuel);
    var moves := Moves(b, player, dice);
    if moves != [] {
      BranchesFresh(f, b, player, dice, path, moves, fuel - 1);
    } else {
      var f' := Expand(f, b, player, dice, path, fuel).value.0;
      if Hash(b) in f.table {
        assert New(f, f') == [b];
      } else {
        assert New(f, f') == [];
      }
    }
  }

  lemma {:induction false} BranchesFresh(f: Frame, b: Board, player: Color, dice: seq<int>, path: seq<Move>, moves: seq<Move>, fuel: nat)
    requires Branches(f, b, player, dice, path, moves, fuel).Done?
    ensures var f' := Branches(f, b, player, dice, path, moves, fuel).value.0;
      Extends(f, f') && FreshStates(f, f')
    decreases fuel, 1, |moves|
  {
    hide Moves, Hash, SimulateMove, RemoveFirst;
    BranchesExtends(f, b, player, dice, path, moves, fuel);
    if moves == [] {
      assert New(f, f) == [];
    } else {
      var m := moves[0];
      var (b', child) := SimulateMove(b, player, m).value;
      var h := Hash(child);
      if h in f.table {
        BranchesFresh(f, b', player, dice, path, moves[1..], fuel);
      } else {
        var f1 := Frame(f.table[h := path + [m]], f.states, f.added + {h});
        var dice' := RemoveFirst(dice, UsedDie(m));
        ExpandFresh(f1, child, player, dice', path + [m], fuel);
        var f2 := Expand(f1, child, player, dice', path + [m], fuel).value.0;
        BranchesFresh(f2, b', player, dice, path, moves[1..], fuel);
        var f3 := Branches(f2, b', player, dice, path, moves[1..], fuel).value.0;
        assert New(f, f1) == [];
        ExtendsTrans(f, f1, f2);
        ExtendsTrans(f, f2, f3);
        ChildFresh(f, f1, f2, child);
        FreshTrans(f, f2, f3);
      }
    }
  }

  /** `b'` is `b` with checkers popped off its bars: the same points, and
      each bar a prefix of what it was. */
  predicate Shrinks(b: Board, b': Board)
  {
    && b'.points == b.points
    && |b'.whiteBar| <= |b.whiteBar| && b'.whiteBar == b.whiteBar[..|b'.whiteBar|]
    && |b'.blackBar| <= |b.blackBar| && b'.blackBar == b.blackBar[..|b'.blackBar|]
  }

  lemma ShrinksTrans(b0: Board, b1: Board, b2: Board)
    requires Shrinks(b0, b1) && Shrinks(b1, b2)
    ensures Shrinks(b0, b2)
  {
  }

  /** Simulating a move changes the searched board only by an entry's pop
      off the mover's bar. */
  lemma SimulateShrinks(b: Board, player: Color, m: Move)
    requires SimulateMove(b, player, m).Done?
    ensures var b' := SimulateMove(b, player, m).value.0;
      Shrinks(b, b') && Bar(b', Opponent(player)) == Bar(b, Opponent(player))
  {
  }

  lemma {:induction false} ExpandShrinks(f: Frame, b: Board, player: Color, dice: seq<int>, path: seq<Move>, fuel: nat)
    requires Expand(f, b, player, dice, path, fuel).Done?
    ensures var b' := Expand(f, b, player, dice, path, fuel).value.1;
      Shrinks(b, b') && Bar(b', Opponent(player)) == Bar(b, Opponent(player))
      && (Moves(b, player, dice) == [] ==> b' == b)
    decreases fuel, 0
  {
    hide Moves, Hash, SimulateMove, RemoveFirst;
    var moves := Moves(b, player, dice);
    if moves != [] {
      BranchesShrink(f, b, player, dice, path, moves, fuel - 1);
    }
  }

  lemma {:induction false} BranchesShrink(f: Frame, b: Board, player: Color, dice: seq<int>, path: seq<Move>, moves: seq<Move>, fuel: nat)
    requires Branches(f, b, player, dice, path, moves, fuel).Done?
    ensures var b' := Branches(f, b, player, dice, path, moves, fuel).value.1;
      Shrinks(b, b') && Bar(b', Opponent(player)) == Bar(b, Opponent(player))
    decreases fuel, 1, |moves|
  {
    hide Moves, Hash, RemoveFirst;
    if moves != [] {
      var m := moves[0];
      var (b', child) := SimulateMove(b, player, m).value;
      SimulateShrinks(b, player, m);
      var h := Hash(child);
      var f2 := f;
      if h !in f.table {
        var f1 := Frame(f.table[h := path + [m]], f.states, f.added + {h});
        f2 := Expand(f1, child, player, RemoveFirst(dice, UsedDie(m)), path + [m], fuel).value.0;
      }
      BranchesShrink(f2, b', player, dice, path, moves[1..], fuel);
      ShrinksTrans(b, b', Branches(f2, b', player, dice, path, moves[1..], fuel).value.1);
    }
  }

  /** A search leaves the points of the board it is given as they were and
      pops only the mover's bar; when it returns that board itself, the
      board has no move, is unchanged and is the only state. */
  lemma UniqueBoard(table: Table, b: Board, player: Color, dice: seq<int>, fuel: nat)
    requires Unique(table, b, player, dice, fuel).Done?
    ensures var u := Unique(table, b, player, dice, fuel).value;
      && Shrinks(b, u.board) && Bar(u.board, Opponent(player)) == Bar(b, Opponent(player))
      && (u.rootReturned ==> u.board == b && u.states == [b])
  {
    ExpandShrinks(Frame(table, [], {}), b, player, dice, [], fuel);
    UniqueSpec(table, b, player, dice, fuel);
  }

  /** What `GenerateUniqueStates` promises its callers: the collected
      states have distinct hashes and each has no move left for part of the
      dice; their hashes are keys afterwards and so are all keys before; every
      new key is the hash of a collected state, and every other key keeps its
      moves; when the board has moves,
      only boards whose hash was not a key are collected, and when it has
      none, the list is that board or empty. */
  lemma UniqueSpec(table: Table, b: Board, player: Color, dice: seq<int>, fuel: nat)
    requires Unique(table, b, player, dice, fuel).Done?
    ensures var u := Unique(table, b, player, dice, fuel).value;
      && DistinctHashes(u.states)
      && (forall x :: x in u.states ==> Settled(x, player, dice) && Hash(x) in u.table)
      && table.Keys <= u.table.Keys
      && u.table.Keys <= table.Keys + Hashes(u.states)
      && (forall k :: k in table && k !in Hashes(u.states) ==> u.table[k] == table[k])
      && (Moves(b, player, dice) != [] ==> forall x :: x in u.states ==> Hash(x) !in table)
      && (Moves(b, player, dice) == [] ==> u.states == (if Hash(b) in table then [b] else []))
  {
    var f0 := Frame(table, [], {});
    var (f, b') := Expand(f0, b, player, dice, [], fuel).value;
    ExpandSettles(f0, b, player, dice, [], fuel);
    ExpandAddsFresh(f0, b, player, dice, [], fuel);
    ExpandFresh(f0, b, player, dice, [], fuel);
    ExpandKeeps(f0, b, player, dice, [], fuel);
    assert New(f0, f) == f.states;
    if Moves(b, player, dice) == [] {
      assert DistinctHashes(f.states);
    }
  }

  /** A search keeps every key recorded before it. */
  lemma UniqueKeys(table: Table, b: Board, player: Color, dice: seq<int>, fuel: nat)
    requires Unique(table, b, player, dice, fuel).Done?
    ensures table.Keys <= Unique(table, b, player, dice, fuel).value.table.Keys
  {
    UniqueSpec(table, b, player, dice, fuel);
  }

  // ----- the moves recorded for a board -----

  /** The dice left after the moves `path`: each move removes the value it
      consumes, as `RemoveUsedDie` does. */
  function Left(dice: seq<int>, path: seq<Move>): seq<int>
    decreases |path|
  {
    if path == [] then dice else Left(RemoveFirst(dice, UsedDie(path[0])), path[1..])
  }

  lemma {:induction false} LeftSnoc(dice: seq<int>, path: seq<Move>, m: Move)
    ensures Left(dice, path + [m]) == RemoveFirst(Left(dice, path), UsedDie(m))
    decreases |path|
  {
    if path == [] {
      assert [m][1..] == [];
    } else {
      assert (path + [m])[1..] == path[1..] + [m];
      LeftSnoc(RemoveFirst(dice, UsedDie(path[0])), path[1..], m);
    }
  }

  /** `b0` is `b` with checkers popped off the player's bar: what the entries
      tried earlier at the same level of the search leave of a board. */
  predicate Popped(b: Board, b0: Board, player: Color)
  {
    Shrinks(b, b0) && Bar(b0, Opponent(player)) == Bar(b, Opponent(player))
  }

  /** Playing `path` from `b`, with `dice` to play, leads to `x`: each move is
      one `GenerateMoves` lists for the board reached so far and the dice
      left, it is simulated on that board (or on it with checkers popped off
      the player's bar by entries tried before it), and the copy
      `SimulateMove` returns is the next board. */
  ghost predicate Leads(b: Board, player: Color, dice: seq<int>, path: seq<Move>, x: Board)
    decreases |path|
  {
    if path == [] then x == b
    else
      && path[0] in Moves(b, player, dice)
      && exists b0 :: Popped(b, b0, player) && SimulateMove(b0, player, path[0]).Done?
                   && Leads(SimulateMove(b0, player, path[0]).value.1, player, RemoveFirst(dice, UsedDie(path[0])), path[1..], x)
  }

  /** A path that leads to `n`, followed by a move listed for `n` and
      simulated on `n` or on what the earlier entries left of it. */
  lemma {:induction false} LeadsSnoc(b: Board, player: Color, dice: seq<int>, path: seq<Move>, n: Board, b0: Board, m: Move)
    requires Leads(b, player, dice, path, n)
    requires m in Moves(n, player, Left(dice, path))
    requires Popped(n, b0, player) && SimulateMove(b0, player, m).Done?
    ensures Leads(b, player, dice, path + [m], SimulateMove(b0, player, m).value.1)
    decreases |path|
  {
    var x := SimulateMove(b0, player, m).value.1;
    if path == [] {
      assert [m][1..] == [];
      assert Leads(x, player, RemoveFirst(dice, UsedDie(m)), [], x);
      assert [] + [m] == [m];
    } else {
      var d1 := RemoveFirst(dice, UsedDie(path[0]));
      var b1 :| Popped(b, b1, player) && SimulateMove(b1, player, path[0]).Done?
                && Leads(SimulateMove(b1, player, path[0]).value.1, player, d1, path[1..], n);
      var c := SimulateMove(b1, player, path[0]).value.1;
      LeadsSnoc(c, player, d1, path[1..], n, b0, m);
      assert (path + [m])[1..] == path[1..] + [m];
      assert (path + [m])[0] == path[0];
    }
  }

  /** Every hash of `keys` is a key of `t` whose moves lead from `root`, with
      `dice` to play, to a board with that hash. */
  ghost predicate Recorded(t: Table, keys: set<string>, root: Board, player: Color, dice: seq<int>)
  {
    forall h :: h in keys ==> h in t && exists y :: Hash(y) == h && Leads(root, player, dice, t[h], y)
  }

  lemma {:induction false} ExpandRecords(f: Frame, b: Board, player: Color, dice: seq<int>, path: seq<Move>, fuel: nat,
                                         root: Board, dice0: seq<int>)
    requires Expand(f, b, player, dice, path, fuel).Done?
    requires Recorded(f.table, f.added, root, player, dice0)
    requires Leads(root, player, dice0, path, b) && dice == Left(dice0, path)
    ensures var f' := Expand(f, b, player, dice, path, fuel).value.0;
      && Extends(f, f') && Recorded(f'.table, f'.added, root, player, dice0)
      && forall x :: x in New(f, f') ==> Hash(x) in f'.added
    decreases fuel, 0
  {
    hide Moves, Hash, SimulateMove, RemoveFirst, Leads;
    ExpandExtends(f, b, player, dice, path, fuel);
    var moves := Moves(b, player, dice);
    if moves != [] {
      BranchesRecords(f, b, player, dice, path, moves, fuel - 1, root, dice0, b);
    } else {
      var f' := Expand(f, b, player, dice, path, fuel).value.0;
      var h := Hash(b);
      if h in f.table {
        assert New(f, f') == [b];
        forall k | k in f'.added
          ensures k in f'.table && exists y :: Hash(y) == k && Leads(root, player, dice0, f'.table[k], y)
        {
          if k == h {
            assert Hash(b) == k && Leads(root, player, dice0, f'.table[k], b);
          } else {
            assert k in f.added;
          }
        }
      } else {
        assert New(f, f') == [];
      }
    }
  }

  lemma {:induction false} BranchesRecords(f: Frame, b: Board, player: Color, dice: seq<int>, path: seq<Move>, moves: seq<Move>,
                                           fuel: nat, root: Board, dice0: seq<int>, n: Board)
    requires Branches(f, b, player, dice, path, moves, fuel).Done?
    requires Recorded(f.table, f.added, root, player, dice0)
    requires Leads(root, player, dice0, path, n) && dice == Left(dice0, path)
    requires Popped(n, b, player)
    requires forall m :: m in moves ==> m in Moves(n, player, dice)
    ensures var f' := Branches(f, b, player, dice, path, moves, fuel).value.0;
      && Extends(f, f') && Recorded(f'.table, f'.added, root, player, dice0)
      && forall x :: x in New(f, f') ==> Hash(x) in f'.added
    decreases fuel, 1, |moves|
  {
    hide Moves, Hash, SimulateMove, RemoveFirst, Leads, Left;
    BranchesExtends(f, b, player, dice, path, moves, fuel);
    if moves == [] {
      assert New(f, f) == [];
    } else {
      var m := moves[0];
      var (b', child) := SimulateMove(b, player, m).value;
      SimulateShrinks(b, player, m);
      ShrinksTrans(n, b, b');
      assert forall m' :: m' in moves[1..] ==> m' in moves;
      var h := Hash(child);
      if h in f.table {
        BranchesRecords(f, b', player, dice, path, moves[1..], fuel, root, dice0, n);
      } else {
        var f1 := Frame(f.table[h := path + [m]], f.states, f.added + {h});
        var dice' := RemoveFirst(dice, UsedDie(m));
        LeadsSnoc(root, player, dice0, path, n, b, m);
        LeftSnoc(dice0, path, m);
        forall k | k in f1.added
          ensures k in f1.table && exists y :: Hash(y) == k && Leads(root, player, dice0, f1.table[k], y)
        {
          if k == h {
            assert Hash(child) == k && Leads(root, player, dice0, f1.table[k], child);
          } else {
            assert k in f.added;
          }
        }
        ExpandRecords(f1, child, player, dice', path + [m], fuel, root, dice0);
        var f2 := Expand(f1, child, player, dice', path + [m], fuel).value.0;
        BranchesRecords(f2, b', player, dice, path, moves[1..], fuel, root, dice0, n);
        var f3 := Branches(f2, b', player, dice, path, moves[1..], fuel).value.0;
        assert New(f, f1) == [];
        ExtendsTrans(f, f1, f2);
        ExtendsTrans(f, f2, f3);
      }
    }
  }

  /** The moves `RetrieveMoveSequence` finds for each state a search
      collects lead from the searched board, with the dice, to a board laid
      out as that state (the same checkers count and owner on every point,
      so the same key). */
  lemma UniqueRecords(table: Table, b: Board, player: Color, dice: seq<int>, fuel: nat)
    requires Unique(table, b, player, dice, fuel).Done?
    ensures var u := Unique(table, b, player, dice, fuel).value;
      forall x :: x in u.states ==>
        && Hash(x) in u.table && Retrieve(u.table, x) == u.table[Hash(x)]
        && exists y :: SamePoints(y, x) && Leads(b, player, dice, u.table[Hash(x)], y)
  {
    var f0 := Frame(table, [], {});
    assert Leads(b, player, dice, [], b);
    ExpandRecords(f0, b, player, dice, [], fuel, b, dice);
    var f := Expand(f0, b, player, dice, [], fuel).value.0;
    var u := Unique(table, b, player, dice, fuel).value;
    assert New(f0, f) == f.states;
    forall x | x in u.states
      ensures Hash(x) in u.table && exists y :: SamePoints(y, x) && Leads(b, player, dice, u.table[Hash(x)], y)
    {
      var h := Hash(x);
      assert h in Hashes(f.states);
      assert h in f.added && h in f.table;
      assert u.table[h] == f.table[h];
      var y :| Hash(y) == h && Leads(b, player, dice, f.table[h], y);
      HashIffSamePoints(y, x);
    }
  }

  // ----- a Black entry never consumes its die -----

  /** Black has a checker on the bar, and every checker on the points is a
      Black one on point 24. */
  predicate Piled(b: Board)
  {
    && Bar(b, Black) != [] && (forall c :: c in Bar(b, Black) ==> c.color == Black)
    && (forall i :: 1 <= i < 24 ==> Stack(b, i) == [])
    && forall c :: c in Stack(b, 24) ==> c.color == Black
  }

  /** On such a board Black, with a 1 to play, has one move: entering on 24. */
  lemma PiledMoves(b: Board)
    requires Piled(b)
    ensures Moves(b, Black, [1]) == [Move(0, 24)]
  {
    forall m | true ensures m !in EntryMoves(b, Black, 1, 5) {
      EntryMovesMembers(b, Black, 1, 5, m);
    }
    assert EntryMoves(b, Black, 1, 5) == [] by {
      if EntryMoves(b, Black, 1, 5) != [] {
        assert EntryMoves(b, Black, 1, 5)[0] in EntryMoves(b, Black, 1, 5);
      }
    }
    assert Rules.IsValidBarMove(b, Black, 24, 1);
    assert BarMoves(b, Black, [1], 1) == EntryMoves(b, Black, 1, 6);
  }

  /** The entry leaves the child with the bar it had, one more checker on 24,
      and the 1 still to play. */
  lemma PiledEntry(b: Board)
    requires Piled(b)
    ensures var sim := SimulateMove(b, Black, Move(0, 24));
      && sim.Done? && Piled(sim.value.1)
      && |Stack(sim.value.1, 24)| == |Stack(b, 24)| + 1
      && RemoveFirst([1], UsedDie(Move(0, 24))) == [1]
  {
    var s := Bar(b, Black);
    assert s[|s| - 1] in s;
  }

  /** One step of `Recurse` on such a board: when the child's hash is new,
      a failure of the child's search is the failure of the step. */
  lemma PiledStep(f: Frame, b: Board, path: seq<Move>, fuel: nat)
    requires Piled(b) && fuel > 0
    requires Hash(SimulateMove(b, Black, Move(0, 24)).value.1) !in f.table
    ensures var child := SimulateMove(b, Black, Move(0, 24)).value.1;
      var h := Hash(child);
      var r := Expand(Frame(f.table[h := path + [Move(0, 24)]], f.states, f.added + {h}), child, Black, [1],
                      path + [Move(0, 24)], fuel - 1);
      r.Failed? ==> Expand(f, b, Black, [1], path, fuel) == r
  {
    hide Hash, SimulateMove, Moves;
    PiledMoves(b);
    PiledEntry(b);
    assert [Move(0, 24)][1..] == [];
  }

  /** `Recurse` on a board where Black has a checker on the bar and only
      Black checkers on 24, with a 1 to play: the entry on 24 removes the
      value 24 from the dice, which holds none, and the simulated board keeps
      the checker on the bar, so every child has the same single move and a
      new hash. The recursion never reaches a board without moves, and every
      fuel runs out. */
  lemma {:induction false} BlackEntryNeverSettles(f: Frame, b: Board, path: seq<Move>, fuel: nat)
    requires Piled(b)
    requires forall x :: Piled(x) && |Stack(x, 24)| > |Stack(b, 24)| ==> Hash(x) !in f.table
    ensures Expand(f, b, Black, [1], path, fuel) == Failed(OutOfFuel)
    decreases fuel
  {
    if fuel > 0 {
      hide Expand, Branches, Moves;
      PiledEntry(b);
      var m := Move(0, 24);
      var child := SimulateMove(b, Black, m).value.1;
      var h := Hash(child);
      var f1 := Frame(f.table[h := path + [m]], f.states, f.added + {h});
      forall x | Piled(x) && |Stack(x, 24)| > |Stack(child, 24)|
        ensures Hash(x) !in f1.table
      {
        HashIffSamePoints(x, child);
        assert !SamePoints(x, child) by {
          assert |Stack(x, 24)| != |Stack(child, 24)|;
        }
      }
      BlackEntryNeverSettles(f1, child, path + [m], fuel - 1);
      var r := Expand(f1, child, Black, [1], path + [m], fuel - 1);
      assert r == Failed(OutOfFuel);
      PiledStep(f, b, path, fuel);
      assert Expand(f, b, Black, [1], path, fuel) == r;
    }
  }

  /** `GenerateUniqueStates` for Black with one checker on the bar, an
      otherwise empty board and a 1 to play never returns. */
  lemma BlackEntryNeverReturns(table: Table, fuel: nat)
    requires forall x :: Piled(x) ==> Hash(x) !in table
    ensures Unique(table, EmptyBoard.(blackBar := [Checker(Black, HitPosition)]), Black, [1], fuel) == Failed(OutOfFuel)
  {
    var b := EmptyBoard.(blackBar := [Checker(Black, HitPosition)]);
    assert forall i :: OnBoard(i) ==> Stack(b, i) == [];
    BlackEntryNeverSettles(Frame(table, [], {}), b, [], fuel);
  }
}
