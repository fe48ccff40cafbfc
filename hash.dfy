/** Core/AI/AI.cs `HashBoardState`: the string key under which the search
    records a board. It lists `index:count:colour` for every non-empty point,
    in increasing index order, joined by `|`; bars and checker positions do
    not enter it. */
module BoardHash {

  import opened Wrappers
  import opened Checkers
  import opened Points
  import opened Boards
  import opened Seqs

  /** The character of a decimal digit. */
  function DigitChar(d: int): char
    requires 0 <= d <= 9
  {
    "0123456789"[d]
  }

  /** `int.ToString()` of a non-negative number: its decimal digits, most
      significant first, without leading zeros. */
  function Decimal(n: nat): string
  {
    if n < 10 then [DigitChar(n)] else Decimal(n / 10) + [DigitChar(n % 10)]
  }

  /** Reads decimal digits back, most significant first. */
  function ParseDecimal(s: string): int
  {
    if s == [] then 0 else ParseDecimal(s[..|s| - 1]) * 10 + (s[|s| - 1] as int - '0' as int)
  }

  predicate IsDigit(c: char)
  {
    '0' <= c <= '9'
  }

  lemma {:induction false} DecimalRoundTrip(n: nat)
    ensures ParseDecimal(Decimal(n)) == n
    ensures Decimal(n) != [] && forall k :: 0 <= k < |Decimal(n)| ==> IsDigit(Decimal(n)[k])
  {
    if n >= 10 {
      DecimalRoundTrip(n / 10);
      var s := Decimal(n);
      assert s[..|s| - 1] == Decimal(n / 10);
    }
  }

  /** Different numbers print differently. */
  lemma DecimalInjective(m: nat, n: nat)
    requires Decimal(m) == Decimal(n)
    ensures m == n
  {
    DecimalRoundTrip(m);
    DecimalRoundTrip(n);
  }

  /** One component: `$"{point.Index}:{checkers.Count}:{checkers[0].Color}"`. */
  function Component(index: nat, count: nat, c: Color): string
  {
    Decimal(index) + ":" + Decimal(count) + ":" + ColorName(c)
  }

  /** `string.Join` with a one-character separator. */
  function Join(parts: seq<string>, sep: char): string
  {
    if parts == [] then ""
    else if |parts| == 1 then parts[0]
    else parts[0] + [sep] + Join(parts[1..], sep)
  }

  /** The components of points 1 to `n` that hold a checker. */
  function Components(b: Board, n: nat): seq<string>
    requires n <= 24
  {
    if n == 0 then []
    else
      var s := Stack(b, n);
      Components(b, n - 1) + (if s != [] then [Component(n, |s|, s[0].color)] else [])
  }

  function Hash(b: Board): string
  {
    Join(Components(b, 24), '|')
  }

  method HashBoardState(b: Board) returns (h: string)
    ensures h == Hash(b)
  {
    var hashComponents: seq<string> := [];
    for i := 1 to 25
      invariant hashComponents == Components(b, i - 1)
    {
      var checkers := Stack(b, i);
      if |checkers| > 0 {
        hashComponents := hashComponents + [Decimal(i) + ":" + Decimal(|checkers|) + ":" + ColorName(checkers[0].color)];
      }
    }
    h := Join(hashComponents, '|');
  }

  /** Every point holds as many checkers, owned by the same colour, on both
      boards. */
  predicate SamePoints(b1: Board, b2: Board)
  {
    forall i :: 1 <= i <= 24 ==>
      |Stack(b1, i)| == |Stack(b2, i)| && StackOwner(Stack(b1, i)) == StackOwner(Stack(b2, i))
  }

  // ----- injectivity of the encoding -----

  /** The first separator of `x + [sep] + y` follows `x` when `x` holds none. */
  lemma FirstSeparator(x: string, y: string, sep: char)
    requires sep !in x
    ensures FirstIndex(x + [sep] + y, sep) == |x|
  {
    var s := x + [sep] + y;
    var i := FirstIndex(s, sep);
    assert forall k :: 0 <= k < |x| ==> s[k] == x[k];
    assert forall k :: 0 <= k < i ==> s[..i][k] == s[k];
    assert s[|x|] == sep;
  }

  /** Splitting at the first separator: when neither prefix holds the
      separator, the prefixes and the rests agree. */
  lemma SplitAtSeparator(x: string, y: string, x': string, y': string, sep: char)
    requires sep !in x && sep !in x'
    requires x + [sep] + y == x' + [sep] + y'
    ensures x == x' && y == y'
  {
    var s := x + [sep] + y;
    FirstSeparator(x, y, sep);
    FirstSeparator(x', y', sep);
    assert x == s[..|x|];
    assert x' == (x' + [sep] + y')[..|x'|];
    assert y == s[|x| + 1..];
    assert y' == (x' + [sep] + y')[|x'| + 1..];
  }

  lemma DigitsHaveNoSeparator(n: nat, sep: char)
    requires !IsDigit(sep)
    ensures sep !in Decimal(n)
  {
    DecimalRoundTrip(n);
  }

  /** The parts of a join are non-empty and free of the separator. */
  predicate Separable(parts: seq<string>, sep: char)
  {
    forall k :: 0 <= k < |parts| ==> parts[k] != [] && sep !in parts[k]
  }

  lemma {:induction false} JoinHasSeparator(parts: seq<string>, sep: char)
    requires |parts| >= 2
    ensures sep in Join(parts, sep)
  {
    assert Join(parts, sep)[|parts[0]|] == sep;
  }

  lemma {:induction false} JoinEmpty(parts: seq<string>, sep: char)
    requires Separable(parts, sep) && Join(parts, sep) == []
    ensures parts == []
  {
    if |parts| >= 2 {
      JoinHasSeparator(parts, sep);
    }
  }

  /** `string.Join` loses nothing when no part is empty or holds the
      separator. */
  lemma {:induction false} JoinInjective(p1: seq<string>, p2: seq<string>, sep: char)
    requires Separable(p1, sep) && Separable(p2, sep)
    requires Join(p1, sep) == Join(p2, sep)
    ensures p1 == p2
    decreases |p1|
  {
    if p1 == [] {
      JoinEmpty(p2, sep);
    } else if p2 == [] {
      JoinEmpty(p1, sep);
    } else if |p1| == 1 && |p2| == 1 {
    } else if |p1| == 1 {
      JoinHasSeparator(p2, sep);
    } else if |p2| == 1 {
      JoinHasSeparator(p1, sep);
    } else {
      assert p1[0] in p1 && p2[0] in p2;
      SplitAtSeparator(p1[0], Join(p1[1..], sep), p2[0], Join(p2[1..], sep), sep);
      JoinInjective(p1[1..], p2[1..], sep);
      assert p1 == [p1[0]] + p1[1..] && p2 == [p2[0]] + p2[1..];
    }
  }

  lemma ColorNameInjective(c1: Color, c2: Color)
    requires ColorName(c1) == ColorName(c2)
    ensures c1 == c2
  {
  }

  /** A component determines its index, its count and its colour. */
  lemma ComponentInjective(i1: nat, n1: nat, c1: Color, i2: nat, n2: nat, c2: Color)
    requires Component(i1, n1, c1) == Component(i2, n2, c2)
    ensures i1 == i2 && n1 == n2 && c1 == c2
  {
    hide Decimal;
    var r1 := Decimal(n1) + ":" + ColorName(c1);
    var r2 := Decimal(n2) + ":" + ColorName(c2);
    assert Component(i1, n1, c1) == Decimal(i1) + [':'] + r1;
    assert Component(i2, n2, c2) == Decimal(i2) + [':'] + r2;
    DigitsHaveNoSeparator(i1, ':');
    DigitsHaveNoSeparator(i2, ':');
    SplitAtSeparator(Decimal(i1), r1, Decimal(i2), r2, ':');
    DecimalInjective(i1, i2);
    DigitsHaveNoSeparator(n1, ':');
    DigitsHaveNoSeparator(n2, ':');
    assert r1 == Decimal(n1) + [':'] + ColorName(c1);
    assert r2 == Decimal(n2) + [':'] + ColorName(c2);
    SplitAtSeparator(Decimal(n1), ColorName(c1), Decimal(n2), ColorName(c2), ':');
    DecimalInjective(n1, n2);
    ColorNameInjective(c1, c2);
  }

  lemma ComponentSeparable(i: nat, n: nat, c: Color)
    ensures Component(i, n, c) != [] && '|' !in Component(i, n, c)
  {
    DigitsHaveNoSeparator(i, '|');
    DigitsHaveNoSeparator(n, '|');
  }

  /** Every component of points 1 to `n` names a point in that range. */
  lemma {:induction false} ComponentsShape(b: Board, n: nat)
    requires n <= 24
    ensures Separable(Components(b, n), '|')
    ensures forall k :: 0 <= k < |Components(b, n)| ==>
      exists i: nat, m: nat, c :: 1 <= i <= n && Components(b, n)[k] == Component(i, m, c)
  {
    hide Component;
    if n > 0 {
      ComponentsShape(b, n - 1);
      var s := Stack(b, n);
      if s != [] {
        ComponentSeparable(n, |s|, s[0].color);
        var all := Components(b, n);
        assert all == Components(b, n - 1) + [Component(n, |s|, s[0].color)];
        forall k | 0 <= k < |all|
          ensures exists i: nat, m: nat, c :: 1 <= i <= n && all[k] == Component(i, m, c)
        {
          if k == |all| - 1 {
            assert all[k] == Component(n, |s|, s[0].color);
          } else {
            assert all[k] == Components(b, n - 1)[k];
          }
        }
      }
    }
  }

  lemma {:induction false} ComponentsDetermine(b1: Board, b2: Board, n: nat)
    requires n <= 24 && Components(b1, n) == Components(b2, n)
    ensures forall i :: 1 <= i <= n ==>
      |Stack(b1, i)| == |Stack(b2, i)| && StackOwner(Stack(b1, i)) == StackOwner(Stack(b2, i))
  {
    hide Component;
    if n > 0 {
      var s1, s2 := Stack(b1, n), Stack(b2, n);
      var p1, p2 := Components(b1, n - 1), Components(b2, n - 1);
      ComponentsShape(b1, n - 1);
      ComponentsShape(b2, n - 1);
      if s1 != [] && s2 != [] {
        assert p1 + [Component(n, |s1|, s1[0].color)] == p2 + [Component(n, |s2|, s2[0].color)];
        assert Component(n, |s1|, s1[0].color) == Component(n, |s2|, s2[0].color) by {
          var q := p1 + [Component(n, |s1|, s1[0].color)];
          assert q[|q| - 1] == Component(n, |s1|, s1[0].color);
        }
        ComponentInjective(n, |s1|, s1[0].color, n, |s2|, s2[0].color);
        assert p1 == p2 by {
          var q1 := p1 + [Component(n, |s1|, s1[0].color)];
          var q2 := p2 + [Component(n, |s2|, s2[0].color)];
          assert p1 == q1[..|q1| - 1] && p2 == q2[..|q2| - 1];
        }
      } else if s1 != [] {
        var q := p1 + [Component(n, |s1|, s1[0].color)];
        assert q == p2;
        var k := |q| - 1;
        var i: nat, m: nat, c :| 1 <= i <= n - 1 && p2[k] == Component(i, m, c);
        ComponentInjective(i, m, c, n, |s1|, s1[0].color);
      } else if s2 != [] {
        var q := p2 + [Component(n, |s2|, s2[0].color)];
        assert q == p1;
        var k := |q| - 1;
        var i: nat, m: nat, c :| 1 <= i <= n - 1 && p1[k] == Component(i, m, c);
        ComponentInjective(i, m, c, n, |s2|, s2[0].color);
      } else {
        assert p1 == Components(b1, n) && p2 == Components(b2, n);
      }
      ComponentsDetermine(b1, b2, n - 1);
    }
  }

  lemma {:induction false} ComponentsOfSamePoints(b1: Board, b2: Board, n: nat)
    requires n <= 24 && SamePoints(b1, b2)
    ensures Components(b1, n) == Components(b2, n)
  {
    if n > 0 {
      ComponentsOfSamePoints(b1, b2, n - 1);
      var s1, s2 := Stack(b1, n), Stack(b2, n);
      assert |s1| == |s2| && StackOwner(s1) == StackOwner(s2);
    }
  }

  /** Two boards hash alike exactly when every point holds as many checkers
      of the same owner on both: bars and checker positions are ignored, and
      no two different layouts share a key. */
  lemma HashIffSamePoints(b1: Board, b2: Board)
    ensures Hash(b1) == Hash(b2) <==> SamePoints(b1, b2)
  {
    if SamePoints(b1, b2) {
      ComponentsOfSamePoints(b1, b2, 24);
    }
    if Hash(b1) == Hash(b2) {
      ComponentsShape(b1, 24);
      ComponentsShape(b2, 24);
      JoinInjective(Components(b1, 24), Components(b2, 24), '|');
      ComponentsDetermine(b1, b2, 24);
    }
  }

  /** In particular a board's key does not depend on its bars. */
  lemma HashIgnoresBars(b: Board, c: Color, s: seq<Checker>)
    ensures Hash(WithBar(b, c, s)) == Hash(b)
  {
    HashIffSamePoints(WithBar(b, c, s), b);
  }
}
