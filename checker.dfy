/** Core/Checker.cs: a checker is its colour and its position. Position 1..24
    is a point, -1 or 0 is the bar (both values are written by the engine), and
    a borne-off checker is simply no longer on the board. */
module Checkers {

  datatype Color = White | Black

  function Opponent(c: Color): (r: Color)
    ensures r != c
  {
    if c == White then Black else White
  }

  /** The enum's `ToString`, used by the search's board hash. */
  function ColorName(c: Color): string
  {
    if c == White then "White" else "Black"
  }

  /** Position written on a checker hit by the game (GameBoard.MoveChecker and
      Game.MakeMove) ... */
  const HitPosition: int := -1
  /** ... and by the search (AI.SimulateMove). */
  const SearchHitPosition: int := 0

  datatype Checker = Checker(color: Color, position: int)
  {
    /** Assigning `Position`: the new value is stored and the colour kept. */
    function WithPosition(p: int): (r: Checker)
      ensures r.position == p && r.color == color
      ensures r.(position := position) == this
    {
      this.(position := p)
    }
  }
}
