/** Core/Point.cs: a point is a last-in first-out stack of checkers. The
    stack operations and queries are defined once on the stack value, and the
    `Point` class applies them to its `checkers` field. */
module Points {

  import opened Wrappers
  import opened Checkers

  /** `Owner`: the colour of the bottom checker, `null` for an empty point. */
  function StackOwner(s: seq<Checker>): (r: Option<Color>)
    ensures r == None <==> s == []
    ensures r != None ==> r.value == s[0].color
  {
    if |s| > 0 then Some(s[0].color) else None
  }

  /** `IsBlot(c)`: exactly one checker, not of colour `c`. */
  predicate StackIsBlot(s: seq<Checker>, c: Color)
  {
    |s| == 1 && s[0].color != c
  }

  /** `AddChecker` on the stack value. */
  function Push(s: seq<Checker>, c: Checker): (r: seq<Checker>)
    ensures |r| == |s| + 1 && r[|s|] == c && r[..|s|] == s
  {
    s + [c]
  }

  /** `RemoveChecker` on the stack value: the last-added checker and the rest,
      or `null` and the unchanged (empty) stack. */
  function Pop(s: seq<Checker>): (r: (Option<Checker>, seq<Checker>))
    ensures s == [] ==> r == (None, [])
    ensures s != [] ==> r.0 == Some(s[|s| - 1]) && |r.1| == |s| - 1 && s == Push(r.1, r.0.value)
  {
    if |s| > 0 then (Some(s[|s| - 1]), s[..|s| - 1]) else (None, s)
  }

  /** Pushing a checker and popping it again gives the checker back and leaves
      the stack as it was. */
  lemma PushPop(s: seq<Checker>, c: Checker)
    ensures Pop(Push(s, c)) == (Some(c), s)
  {
  }

  /** A blot for `c` is owned by the other colour. */
  lemma {:induction false} BlotOwner(s: seq<Checker>, c: Color)
    ensures StackIsBlot(s, c) <==> |s| == 1 && StackOwner(s) == Some(Opponent(c))
  {
  }

  class Point {
    const index: int
    var checkers: seq<Checker>

    constructor (index: int)
      ensures this.index == index && checkers == []
    {
      this.index := index;
      checkers := [];
    }

    method AddChecker(c: Checker)
      modifies this
      ensures checkers == Push(old(checkers), c)
    {
      checkers := checkers + [c];
    }

    method RemoveChecker() returns (r: Option<Checker>)
      modifies this
      ensures (r, checkers) == Pop(old(checkers))
    {
      if |checkers| > 0 {
        r := Some(checkers[|checkers| - 1]);
        checkers := checkers[..|checkers| - 1];
      } else {
        r := None;
      }
    }

    function Owner(): Option<Color>
      reads this
    {
      StackOwner(checkers)
    }

    predicate IsBlot(c: Color)
      reads this
    {
      StackIsBlot(checkers, c)
    }
  }
}
