/** Sequence helpers shared by the lists of the model: `List.Remove` (remove the
    first equal element), replacing the first equal element, and flattening the
    24 point stacks into one sequence. */
module Seqs {

  /** Index of the first occurrence of `x` in `s`. */
  function FirstIndex<T(==)>(s: seq<T>, x: T): (i: nat)
    requires x in s
    ensures i < |s| && s[i] == x && x !in s[..i]
  {
    if s[0] == x then 0
    else
      var j := FirstIndex(s[1..], x);
      assert s[..j + 1] == [s[0]] + s[1..][..j];
      j + 1
  }

  /** `List.Remove(x)`: drops the first element equal to `x`; no change when
      there is none. */
  function RemoveFirst<T(==)>(s: seq<T>, x: T): (r: seq<T>)
    ensures x !in s ==> r == s
    ensures x in s ==> |r| == |s| - 1 && multiset(r) == multiset(s) - multiset{x}
  {
    if s == [] then []
    else if s[0] == x then
      assert s == [x] + s[1..];
      s[1..]
    else
      var t := RemoveFirst(s[1..], x);
      assert s == [s[0]] + s[1..];
      assert x in s ==> x in s[1..];
      [s[0]] + t
  }

  /** The element `RemoveFirst` drops is the first occurrence: whatever
      precedes it and whatever follows it stay, in order. */
  lemma {:induction false} RemoveFirstSplit<T>(a: seq<T>, x: T, b: seq<T>)
    requires x !in a
    ensures RemoveFirst(a + [x] + b, x) == a + b
  {
    var s := a + [x] + b;
    if a == [] {
      assert s == [x] + b;
    } else {
      var s' := a[1..] + [x] + b;
      assert s == [a[0]] + s';
      assert a[0] != x by {
        assert a[0] in a;
      }
      calc {
        RemoveFirst(s, x);
        [a[0]] + RemoveFirst(s', x);
        { RemoveFirstSplit(a[1..], x, b); }
        [a[0]] + (a[1..] + b);
        { assert a == [a[0]] + a[1..]; }
        a + b;
      }
    }
  }

  /** Replaces the first element equal to `x` by `y`; no change when there is
      none. It is how the model writes a field of an object that a list shares
      with the board. */
  function ReplaceFirst<T(==)>(s: seq<T>, x: T, y: T): (r: seq<T>)
    ensures x !in s ==> r == s
    ensures x in s ==> r == s[FirstIndex(s, x) := y]
    ensures x in s ==> multiset(r) == multiset(s) - multiset{x} + multiset{y}
  {
    if s == [] then []
    else if s[0] == x then [y] + s[1..]
    else
      var t := ReplaceFirst(s[1..], x, y);
      assert s == [s[0]] + s[1..];
      assert x in s ==> FirstIndex(s, x) == FirstIndex(s[1..], x) + 1 && x in s[1..];
      [s[0]] + t
  }

  /** Replacing an element by itself changes nothing. */
  lemma ReplaceFirstSame<T>(s: seq<T>, x: T)
    ensures ReplaceFirst(s, x, x) == s
  {
    if x in s {
      assert s[FirstIndex(s, x) := x] == s;
    }
  }

  /** Concatenation of a sequence of sequences, in order. */
  function Flatten<T>(ss: seq<seq<T>>): seq<T>
  {
    if ss == [] then [] else ss[0] + Flatten(ss[1..])
  }

  /** Replacing one inner sequence replaces its elements in the flattening. */
  lemma {:induction false} FlattenUpdate<T>(ss: seq<seq<T>>, k: nat, t: seq<T>)
    requires k < |ss|
    ensures multiset(Flatten(ss[k := t])) == multiset(Flatten(ss)) - multiset(ss[k]) + multiset(t)
  {
    if k == 0 {
      assert ss[k := t][1..] == ss[1..];
    } else {
      FlattenUpdate(ss[1..], k - 1, t);
      assert ss[k := t][1..] == ss[1..][k - 1 := t];
      assert ss[k := t][0] == ss[0];
      InnerInFlatten(ss[1..], k - 1);
    }
  }

  /** The elements of an inner sequence are a sub-multiset of the flattening. */
  lemma {:induction false} InnerInFlatten<T>(ss: seq<seq<T>>, k: nat)
    requires k < |ss|
    ensures multiset(ss[k]) <= multiset(Flatten(ss))
  {
    if k > 0 {
      InnerInFlatten(ss[1..], k - 1);
    }
  }

  /** Every element of an inner sequence is an element of the flattening. */
  lemma {:induction false} InFlatten<T>(ss: seq<seq<T>>, k: nat, x: T)
    requires k < |ss| && x in ss[k]
    ensures x in Flatten(ss)
  {
    if k > 0 {
      InFlatten(ss[1..], k - 1, x);
    }
  }
}
