/** The opening position of Core/Game.cs: `InitializeCheckers` makes eight
    `AddCheckersToPoint(player, point, count)` calls, each pushing `count` new
    checkers of the player's colour, positioned on `point`, onto that point
    and appending them to the player's list. The calls are a list of
    placements here, so that what they do is stated once, by induction. */
module Openings {

  import opened Checkers
  import opened Boards
  import opened GameStates

  /** `n` copies of one checker. */
  function Copies(c: Checker, n: nat): (r: seq<Checker>)
    ensures |r| == n && forall x :: x in r ==> x == c
  {
    if n == 0 then [] else Copies(c, n - 1) + [c]
  }

  /** One `AddCheckersToPoint` call. */
  datatype Placement = Placement(color: Color, point: int, count: nat)

  /** The calls `InitializeCheckers` makes, in order: White 2 on 1, 5 on 12,
      3 on 17, 5 on 19; Black 2 on 24, 5 on 13, 3 on 8, 5 on 6. */
  const OpeningPlacements: seq<Placement> := [
    Placement(White, 1, 2), Placement(White, 12, 5), Placement(White, 17, 3), Placement(White, 19, 5),
    Placement(Black, 24, 2), Placement(Black, 13, 5), Placement(Black, 8, 3), Placement(Black, 6, 5)]

  predicate AllOnBoard(ps: seq<Placement>)
  {
    forall k :: 0 <= k < |ps| ==> OnBoard(ps[k].point)
  }

  /** One call on the board value: `n` checkers of colour `col`, each at
      position `i`, pushed onto point `i`. */
  function AddCopies(b: Board, col: Color, i: int, n: nat): (r: Board)
    requires OnBoard(i)
    ensures Stack(r, i) == Stack(b, i) + Copies(Checker(col, i), n)
    ensures r.whiteBar == b.whiteBar && r.blackBar == b.blackBar
  {
    WithStack(b, i, Stack(b, i) + Copies(Checker(col, i), n))
  }

  /** The board after the calls `ps`, in order, starting from `b`. */
  function Place(b: Board, ps: seq<Placement>): (r: Board)
    ensures r.whiteBar == b.whiteBar && r.blackBar == b.blackBar
  {
    if ps == [] then b
    else
      var p := ps[|ps| - 1];
      if OnBoard(p.point) then AddCopies(Place(b, ps[..|ps| - 1]), p.color, p.point, p.count) else Place(b, ps[..|ps| - 1])
  }

  /** The list of colour `col` after the calls `ps`, starting from `list`. */
  function Placed(list: seq<Checker>, col: Color, ps: seq<Placement>): seq<Checker>
  {
    if ps == [] then list
    else
      var p := ps[|ps| - 1];
      var before := Placed(list, col, ps[..|ps| - 1]);
      if p.color == col then before + Copies(Checker(col, p.point), p.count) else before
  }

  /** What the calls `ps` push onto point `i`, bottom first. */
  function Pile(ps: seq<Placement>, i: int): seq<Checker>
  {
    if ps == [] then []
    else
      var p := ps[|ps| - 1];
      Pile(ps[..|ps| - 1], i) + if p.point == i then Copies(Checker(p.color, i), p.count) else []
  }

  /** One more call on the board, after the calls `ps`. */
  lemma PlaceSnoc(b: Board, ps: seq<Placement>, p: Placement)
    requires OnBoard(p.point)
    ensures Place(b, ps + [p]) == AddCopies(Place(b, ps), p.color, p.point, p.count)
  {
    assert (ps + [p])[..|ps|] == ps;
  }

  /** One more call on a list, after the calls `ps`. */
  lemma PlacedSnoc(list: seq<Checker>, col: Color, ps: seq<Placement>, p: Placement)
    ensures Placed(list, col, ps + [p])
         == if p.color == col then Placed(list, col, ps) + Copies(Checker(col, p.point), p.count) else Placed(list, col, ps)
  {
    assert (ps + [p])[..|ps|] == ps;
  }

  lemma PlaceEight(b: Board, p0: Placement, p1: Placement, p2: Placement, p3: Placement,
                    p4: Placement, p5: Placement, p6: Placement, p7: Placement)
    requires OnBoard(p0.point) && OnBoard(p1.point) && OnBoard(p2.point) && OnBoard(p3.point)
    requires OnBoard(p4.point) && OnBoard(p5.point) && OnBoard(p6.point) && OnBoard(p7.point)
    ensures Place(b, [p0, p1, p2, p3, p4, p5, p6, p7])
         == AddCopies(AddCopies(AddCopies(AddCopies(AddCopies(AddCopies(AddCopies(AddCopies(b,
              p0.color, p0.point, p0.count), p1.color, p1.point, p1.count),
              p2.color, p2.point, p2.count), p3.color, p3.point, p3.count),
              p4.color, p4.point, p4.count), p5.color, p5.point, p5.count),
              p6.color, p6.point, p6.count), p7.color, p7.point, p7.count)
  {
    var d0: seq<Placement> := [];
    PlaceSnoc(b, d0, p0);
    var d1 := d0 + [p0];
    PlaceSnoc(b, d1, p1);
    var d2 := d1 + [p1];
    PlaceSnoc(b, d2, p2);
    var d3 := d2 + [p2];
    PlaceSnoc(b, d3, p3);
    var d4 := d3 + [p3];
    PlaceSnoc(b, d4, p4);
    var d5 := d4 + [p4];
    PlaceSnoc(b, d5, p5);
    var d6 := d5 + [p5];
    PlaceSnoc(b, d6, p6);
    var d7 := d6 + [p6];
    PlaceSnoc(b, d7, p7);
    var d8 := d7 + [p7];
    assert d8 == [p0, p1, p2, p3, p4, p5, p6, p7];
  }

  /** The opening calls on a board, one by one. */
  lemma OpeningBoardSteps(b: Board)
    ensures AllOnBoard(OpeningPlacements)
    ensures Place(b, OpeningPlacements)
         == AddCopies(AddCopies(AddCopies(AddCopies(AddCopies(AddCopies(AddCopies(AddCopies(b,
              White, 1, 2), White, 12, 5), White, 17, 3), White, 19, 5),
              Black, 24, 2), Black, 13, 5), Black, 8, 3), Black, 6, 5)
  {
    PlaceEight(b, Placement(White, 1, 2), Placement(White, 12, 5), Placement(White, 17, 3), Placement(White, 19, 5),
      Placement(Black, 24, 2), Placement(Black, 13, 5), Placement(Black, 8, 3), Placement(Black, 6, 5));
  }

  /** The opening calls on White's list, one by one. */
  lemma OpeningWhiteSteps(w: seq<Checker>)
    ensures Placed(w, White, OpeningPlacements)
         == w + Copies(Checker(White, 1), 2) + Copies(Checker(White, 12), 5) + Copies(Checker(White, 17), 3) + Copies(Checker(White, 19), 5)
  {
    var d0: seq<Placement> := [];
    PlacedSnoc(w, White, d0, Placement(White, 1, 2));
    var d1 := d0 + [Placement(White, 1, 2)];
    PlacedSnoc(w, White, d1, Placement(White, 12, 5));
    var d2 := d1 + [Placement(White, 12, 5)];
    PlacedSnoc(w, White, d2, Placement(White, 17, 3));
    var d3 := d2 + [Placement(White, 17, 3)];
    PlacedSnoc(w, White, d3, Placement(White, 19, 5));
    var d4 := d3 + [Placement(White, 19, 5)];
    PlacedSnoc(w, White, d4, Placement(Black, 24, 2));
    var d5 := d4 + [Placement(Black, 24, 2)];
    PlacedSnoc(w, White, d5, Placement(Black, 13, 5));
    var d6 := d5 + [Placement(Black, 13, 5)];
    PlacedSnoc(w, White, d6, Placement(Black, 8, 3));
    var d7 := d6 + [Placement(Black, 8, 3)];
    PlacedSnoc(w, White, d7, Placement(Black, 6, 5));
    var d8 := d7 + [Placement(Black, 6, 5)];
    assert d8 == OpeningPlacements;
  }

  /** The opening calls on Black's list, one by one. */
  lemma OpeningBlackSteps(k: seq<Checker>)
    ensures Placed(k, Black, OpeningPlacements)
         == k + Copies(Checker(Black, 24), 2) + Copies(Checker(Black, 13), 5) + Copies(Checker(Black, 8), 3) + Copies(Checker(Black, 6), 5)
  {
    var d0: seq<Placement> := [];
    PlacedSnoc(k, Black, d0, Placement(White, 1, 2));
    var d1 := d0 + [Placement(White, 1, 2)];
    PlacedSnoc(k, Black, d1, Placement(White, 12, 5));
    var d2 := d1 + [Placement(White, 12, 5)];
    PlacedSnoc(k, Black, d2, Placement(White, 17, 3));
    var d3 := d2 + [Placement(White, 17, 3)];
    PlacedSnoc(k, Black, d3, Placement(White, 19, 5));
    var d4 := d3 + [Placement(White, 19, 5)];
    PlacedSnoc(k, Black, d4, Placement(Black, 24, 2));
    var d5 := d4 + [Placement(Black, 24, 2)];
    PlacedSnoc(k, Black, d5, Placement(Black, 13, 5));
    var d6 := d5 + [Placement(Black, 13, 5)];
    PlacedSnoc(k, Black, d6, Placement(Black, 8, 3));
    var d7 := d6 + [Placement(Black, 8, 3)];
    PlacedSnoc(k, Black, d7, Placement(Black, 6, 5));
    var d8 := d7 + [Placement(Black, 6, 5)];
    assert d8 == OpeningPlacements;
  }

  /** Each point ends up with what it held, then what the calls pushed on
      it. */
  lemma {:induction false} PlaceStack(b: Board, ps: seq<Placement>, i: int)
    requires AllOnBoard(ps) && OnBoard(i)
    ensures Stack(Place(b, ps), i) == Stack(b, i) + Pile(ps, i)
  {
    if ps != [] {
      var init := ps[..|ps| - 1];
      assert AllOnBoard(init);
      PlaceStack(b, init, i);
    }
  }

  /** Calls aimed at other points push nothing onto `i`. */
  lemma {:induction false} PileElsewhere(ps: seq<Placement>, i: int)
    requires forall k :: 0 <= k < |ps| ==> ps[k].point != i
    ensures Pile(ps, i) == []
  {
    if ps != [] {
      PileElsewhere(ps[..|ps| - 1], i);
    }
  }

  /** Calls aimed at distinct empty points keep the players' lists in step
      with the board: each new checker joins the list of its colour. */
  lemma {:induction false} PlaceSynced(b: Board, white: seq<Checker>, black: seq<Checker>, ps: seq<Placement>)
    requires Synced(b, white, black) && AllOnBoard(ps)
    requires forall k :: 0 <= k < |ps| ==> Stack(b, ps[k].point) == []
    requires forall k, l :: 0 <= k < l < |ps| ==> ps[k].point != ps[l].point
    ensures Synced(Place(b, ps), Placed(white, White, ps), Placed(black, Black, ps))
  {
    if ps != [] {
      var init := ps[..|ps| - 1];
      var p := ps[|ps| - 1];
      assert AllOnBoard(init);
      PlaceSynced(b, white, black, init);
      PlaceStack(b, init, p.point);
      PileElsewhere(init, p.point);
      AddKeepsSynced(Place(b, init), Placed(white, White, init), Placed(black, Black, init),
                     p.point, Copies(Checker(p.color, p.point), p.count), p.color);
    }
  }

  /** The stack the opening leaves on point `i`. */
  function OpeningStack(i: int): seq<Checker>
  {
    Pile(OpeningPlacements, i)
  }

  /** The list the opening gives the player of colour `c`, in the order the
      checkers were added. */
  function OpeningList(c: Color): seq<Checker>
  {
    Placed([], c, OpeningPlacements)
  }

  /** On an empty board the opening leaves `OpeningStack(i)` on every point,
      nothing on the bars, and the lists in step with the board. */
  lemma OpeningLayout(b: Board)
    requires IsEmpty(b)
    ensures forall i :: OnBoard(i) ==> Stack(Place(b, OpeningPlacements), i) == OpeningStack(i)
    ensures Place(b, OpeningPlacements).whiteBar == [] && Place(b, OpeningPlacements).blackBar == []
    ensures Synced(Place(b, OpeningPlacements), OpeningList(White), OpeningList(Black))
  {
    forall i | OnBoard(i)
      ensures Stack(Place(b, OpeningPlacements), i) == OpeningStack(i)
    {
      PlaceStack(b, OpeningPlacements, i);
      assert Stack(b, i) == [];
    }
    EmptySynced(b);
    PlaceSynced(b, [], [], OpeningPlacements);
  }

  /** Each player starts with fifteen checkers. */
  lemma OpeningCounts(c: Color)
    ensures |OpeningList(c)| == 15
  {
    OpeningWhiteSteps([]);
    OpeningBlackSteps([]);
  }

  /** The eight calls, written out, on an empty board and empty lists leave
      the opening position with the lists in step and fifteen checkers a
      side. */
  lemma OpeningFacts(b: Board, after: Board, w: seq<Checker>, k: seq<Checker>)
    requires IsEmpty(b)
    requires after == AddCopies(AddCopies(AddCopies(AddCopies(AddCopies(AddCopies(AddCopies(AddCopies(b,
              White, 1, 2), White, 12, 5), White, 17, 3), White, 19, 5),
              Black, 24, 2), Black, 13, 5), Black, 8, 3), Black, 6, 5)
    requires w == [] + Copies(Checker(White, 1), 2) + Copies(Checker(White, 12), 5) + Copies(Checker(White, 17), 3) + Copies(Checker(White, 19), 5)
    requires k == [] + Copies(Checker(Black, 24), 2) + Copies(Checker(Black, 13), 5) + Copies(Checker(Black, 8), 3) + Copies(Checker(Black, 6), 5)
    ensures Synced(after, w, k)
    ensures forall i :: OnBoard(i) ==> Stack(after, i) == OpeningStack(i)
    ensures after.whiteBar == [] && after.blackBar == []
    ensures w == OpeningList(White) && k == OpeningList(Black)
    ensures |w| == 15 && |k| == 15
  {
    OpeningBoardSteps(b);
    OpeningWhiteSteps([]);
    OpeningBlackSteps([]);
    OpeningLayout(b);
    OpeningCounts(White);
    OpeningCounts(Black);
  }
}
