/** Core/Player.cs: a player is a colour and the list of its checkers still in
    play; `BearOff` is the list of checkers it has borne off.

    In the C# program the list holds the very checker objects that sit on the
    points, so a write to a checker's `Position` is seen through both. Checkers
    are values here, and such a write is applied to the player's copy with
    `Relocate`; the game keeps the two views equal (Games.Game.Valid). */
module Players {

  import opened Checkers
  import opened Seqs

  /** `AllCheckersInHome`: scans the checkers in order and stops at the first
      whose position is not one of `home`. */
  function AllInHome(s: seq<Checker>, home: seq<int>): (r: bool)
    ensures r <==> forall c :: c in s ==> c.position in home
  {
    if s == [] then true
    else if s[0].position !in home then false
    else AllInHome(s[1..], home)
  }

  /** A player's list after a series of position writes `(checker, position)`:
      each write whose checker has the list's colour replaces that checker's
      first occurrence by its relocated copy. */
  function Written(s: seq<Checker>, color: Color, ws: seq<(Checker, int)>): seq<Checker>
    decreases |ws|
  {
    if ws == [] then s
    else
      var (c, pos) := ws[0];
      Written(if c.color == color then ReplaceFirst(s, c, c.WithPosition(pos)) else s, color, ws[1..])
  }

  /** Position writes never change the length of a list. */
  lemma {:induction false} WrittenLength(s: seq<Checker>, color: Color, ws: seq<(Checker, int)>)
    ensures |Written(s, color, ws)| == |s|
    decreases |ws|
  {
    if ws != [] {
      var (c, pos) := ws[0];
      WrittenLength(if c.color == color then ReplaceFirst(s, c, c.WithPosition(pos)) else s, color, ws[1..]);
      if c in s {
        assert |ReplaceFirst(s, c, c.WithPosition(pos))| == |s[FirstIndex(s, c) := c.WithPosition(pos)]|;
      }
    }
  }

  /** `c.Position = pos` on a checker shared between the board and the list
      of the one of `p` and `q` whose colour it has. */
  method SetPosition(c: Checker, pos: int, p: Player, q: Player)
    requires p.color != q.color
    modifies p, q
    ensures p.checkers == Written(old(p.checkers), p.color, [(c, pos)])
    ensures q.checkers == Written(old(q.checkers), q.color, [(c, pos)])
    ensures p.bearOff == old(p.bearOff) && q.bearOff == old(q.bearOff)
  {
    if c.color == p.color {
      p.Relocate(c, pos);
    } else {
      q.Relocate(c, pos);
    }
  }

  class Player {
    const color: Color
    var checkers: seq<Checker>
    var bearOff: seq<Checker>

    constructor (color: Color)
      ensures this.color == color && checkers == [] && bearOff == []
    {
      this.color := color;
      checkers := [];
      bearOff := [];
    }

    method AddChecker(c: Checker)
      modifies this
      ensures checkers == old(checkers) + [c] && bearOff == old(bearOff)
    {
      checkers := checkers + [c];
    }

    /** Removes the first occurrence of `c` from the checkers in play and
        records it as borne off; does nothing when `c` is not in play. */
    method BearOffChecker(c: Checker)
      modifies this
      ensures checkers == RemoveFirst(old(checkers), c)
      ensures bearOff == if c in old(checkers) then old(bearOff) + [c] else old(bearOff)
    {
      if c in checkers {
        bearOff := bearOff + [c];
      }
      checkers := RemoveFirst(checkers, c);
    }

    /** The player's side of `c.Position = pos` on a checker it shares with
        the board. */
    method Relocate(c: Checker, pos: int)
      modifies this
      ensures checkers == ReplaceFirst(old(checkers), c, c.WithPosition(pos))
      ensures bearOff == old(bearOff)
    {
      checkers := ReplaceFirst(checkers, c, c.WithPosition(pos));
    }

    predicate AllCheckersInHome(home: seq<int>)
      reads this
    {
      AllInHome(checkers, home)
    }
  }
}
