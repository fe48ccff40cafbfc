/** Core/Dice.cs: two die values, a doubles flag and the number of times a
    double has been used. The random draw of `Roll` is a pair of parameters. */
module DiceModel {

  import opened Seqs

  datatype DiceState = DiceState(value1: int, value2: int, isDouble: bool, usage: nat)

  /** State right after `Roll` drew `v1` and `v2`. */
  function Rolled(v1: int, v2: int): DiceState
  {
    DiceState(v1, v2, v1 == v2, 0)
  }

  function Repeat(v: int, n: nat): (r: seq<int>)
    ensures |r| == n && forall i :: 0 <= i < n ==> r[i] == v
  {
    if n == 0 then [] else Repeat(v, n - 1) + [v]
  }

  /** `GetDiceValues`: for a double, four copies of `Value1` with the used ones
      skipped; otherwise both values, zeros included. */
  function Values(d: DiceState): seq<int>
  {
    if d.isDouble then Repeat(d.value1, if d.usage >= 4 then 0 else 4 - d.usage)
    else [d.value1, d.value2]
  }

  /** `UseDie(v)`. */
  function Use(d: DiceState, v: int): DiceState
  {
    if d.isDouble && v == d.value1 then
      var u := d.usage + 1;
      if u >= 4 then DiceState(0, 0, d.isDouble, u) else d.(usage := u)
    else if d.value1 == v then d.(value1 := 0)
    else if d.value2 == v then d.(value2 := 0)
    else d
  }

  /** `HasMovesLeft` (called by the tests): some die still shows a value. */
  predicate MovesLeft(d: DiceState)
  {
    d.value1 != 0 || d.value2 != 0
  }

  function NonZero(s: seq<int>): seq<int>
  {
    if s == [] then [] else (if s[0] != 0 then [s[0]] else []) + NonZero(s[1..])
  }

  /** What every state produced by the game satisfies: a double shows one value
      twice and is zeroed once used four times; a non-double never shows the
      same non-zero value twice. */
  ghost predicate Inv(d: DiceState)
  {
    && 0 <= d.value1 <= 6 && 0 <= d.value2 <= 6
    && (d.isDouble ==> d.value1 == d.value2 && (d.usage >= 4 ==> d.value1 == 0))
    && (!d.isDouble ==> d.value1 != d.value2 || d.value1 == 0)
  }

  /** A roll of two dice values satisfies the invariant and yields two values,
      or four for a double. */
  lemma RollValues(v1: int, v2: int)
    requires 1 <= v1 <= 6 && 1 <= v2 <= 6
    ensures Inv(Rolled(v1, v2))
    ensures Rolled(v1, v2).isDouble <==> v1 == v2
    ensures Values(Rolled(v1, v2)) == if v1 == v2 then [v1, v1, v1, v1] else [v1, v2]
  {
    if v1 == v2 {
      assert Repeat(v1, 4) == [v1, v1, v1, v1];
    }
  }

  lemma UseKeepsInv(d: DiceState, v: int)
    requires Inv(d)
    ensures Inv(Use(d, v))
  {
  }

  /** Every use of a value that is showing consumes exactly one copy of it,
      double or not. */
  lemma UseConsumesOne(d: DiceState, v: int)
    requires Inv(d) && v != 0 && v in Values(d)
    ensures multiset(NonZero(Values(Use(d, v)))) == multiset(NonZero(Values(d))) - multiset{v}
  {
    if d.isDouble {
      UseDoubleConsumesOne(d, v);
    } else {
      UsePairConsumesOne(d, v);
    }
  }

  lemma {:induction false} UseDoubleConsumesOne(d: DiceState, v: int)
    requires Inv(d) && d.isDouble && v != 0 && v in Values(d)
    ensures multiset(NonZero(Values(Use(d, v)))) == multiset(NonZero(Values(d))) - multiset{v}
  {
    var n := if d.usage >= 4 then 0 else 4 - d.usage;
    assert v == d.value1;
    assert Values(Use(d, v)) == Repeat(v, n - 1);
    RepeatNonZero(v, n);
    RepeatNonZero(v, n - 1);
  }

  lemma {:induction false} UsePairConsumesOne(d: DiceState, v: int)
    requires Inv(d) && !d.isDouble && v != 0 && v in Values(d)
    ensures multiset(NonZero(Values(Use(d, v)))) == multiset(NonZero(Values(d))) - multiset{v}
  {
    NonZeroPair(d.value1, d.value2);
    NonZeroPair(Use(d, v).value1, Use(d, v).value2);
  }

  /** Using a value that is not showing changes no non-zero value. */
  lemma {:induction false} UseAbsentValue(d: DiceState, v: int)
    requires Inv(d) && v !in NonZero(Values(d))
    ensures NonZero(Values(Use(d, v))) == NonZero(Values(d))
  {
    if d.isDouble {
      if v == d.value1 {
        var n := if d.usage >= 4 then 0 else 4 - d.usage;
        var n' := if Use(d, v).usage >= 4 then 0 else 4 - Use(d, v).usage;
        RepeatNonZero(0, n);
        RepeatNonZero(0, n');
      } else {
        assert Use(d, v) == d;
      }
    } else {
      NonZeroPair(d.value1, d.value2);
      NonZeroPair(Use(d, v).value1, Use(d, v).value2);
    }
  }

  lemma {:induction false} RepeatNonZero(v: int, n: nat)
    ensures NonZero(Repeat(v, n)) == if v == 0 then [] else Repeat(v, n)
  {
    if n > 0 {
      RepeatNonZero(v, n - 1);
      NonZeroAppend(Repeat(v, n - 1), [v]);
    }
  }

  lemma {:induction false} NonZeroAppend(a: seq<int>, b: seq<int>)
    ensures NonZero(a + b) == NonZero(a) + NonZero(b)
  {
    if a == [] {
      assert a + b == b;
    } else {
      var h := if a[0] != 0 then [a[0]] else [];
      assert (a + b)[0] == a[0] && (a + b)[1..] == a[1..] + b;
      calc {
        NonZero(a + b);
        h + NonZero(a[1..] + b);
        { NonZeroAppend(a[1..], b); }
        h + (NonZero(a[1..]) + NonZero(b));
        (h + NonZero(a[1..])) + NonZero(b);
      }
    }
  }

  lemma NonZeroPair(x: int, y: int)
    ensures NonZero([x, y]) == (if x != 0 then [x] else []) + (if y != 0 then [y] else [])
  {
    assert [x, y][1..] == [y];
    assert [y][1..] == [];
    assert NonZero([y]) == (if y != 0 then [y] else []) + NonZero([]);
  }

  /** `HasMovesLeft` holds exactly when some value is still showing. */
  lemma {:induction false} MovesLeftIffValueShowing(d: DiceState)
    requires Inv(d)
    ensures MovesLeft(d) <==> NonZero(Values(d)) != []
  {
    if d.isDouble {
      var n := if d.usage >= 4 then 0 else 4 - d.usage;
      RepeatNonZero(d.value1, n);
      if d.value1 != 0 {
        assert d.usage < 4 && n > 0;
        assert d.value1 in Repeat(d.value1, n);
      }
    } else {
      NonZeroPair(d.value1, d.value2);
    }
  }

  /** Using both values of a non-double roll, first one then the other,
      leaves both dice at 0. */
  lemma UseBoth(v1: int, v2: int)
    requires 1 <= v1 <= 6 && 1 <= v2 <= 6 && v1 != v2
    ensures var d := Use(Use(Rolled(v1, v2), v1), v2); d.value1 == 0 && d.value2 == 0 && !MovesLeft(d)
  {
  }

  /** On a double, each use counts one and the fourth zeroes both dice. */
  lemma FourUsesOfDouble(v: int)
    requires 1 <= v <= 6
    ensures Use(Rolled(v, v), v).usage == 1 && Use(Rolled(v, v), v).value1 == v
    ensures var d := Use(Use(Use(Use(Rolled(v, v), v), v), v), v);
      d.value1 == 0 && d.value2 == 0 && Values(d) == []
  {
  }

  class Dice {
    var value1: int
    var value2: int
    var isDouble: bool
    var doubleUsageCount: nat

    function Model(): DiceState
      reads this
    {
      DiceState(value1, value2, isDouble, doubleUsageCount)
    }

    /** The constructor does not roll: both values are 0. */
    constructor ()
      ensures Model() == DiceState(0, 0, false, 0)
    {
      value1, value2, isDouble, doubleUsageCount := 0, 0, false, 0;
    }

    method Roll(v1: int, v2: int)
      requires 1 <= v1 <= 6 && 1 <= v2 <= 6
      modifies this
      ensures Model() == Rolled(v1, v2)
    {
      value1 := v1;
      value2 := v2;
      isDouble := value1 == value2;
      doubleUsageCount := 0;
    }

    function GetDiceValues(): seq<int>
      reads this
    {
      Values(Model())
    }

    method UseDie(v: int)
      modifies this
      ensures Model() == Use(old(Model()), v)
    {
      if isDouble && v == value1 {
        doubleUsageCount := doubleUsageCount + 1;
        if doubleUsageCount >= 4 {
          value1 := 0;
          value2 := 0;
        }
      } else if value1 == v {
        value1 := 0;
      } else if value2 == v {
        value2 := 0;
      }
    }

    predicate HasMovesLeft()
      reads this
    {
      MovesLeft(Model())
    }
  }
}
