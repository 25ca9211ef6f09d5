/**
 Operations on Python lists used by the planner: `pop(i)`, the in-place
 tuple swap of two neighbours behind the move buttons, and removing a key
 from the ordered key list of a dictionary.
 */
module Sequences {

  /** No value occurs twice (the keys of a dictionary, in order). */
  predicate Distinct<T(==)>(s: seq<T>)
  {
    forall i, j :: 0 <= i < j < |s| ==> s[i] != s[j]
  }

  /** `s.pop(i)`: the element at `i` is dropped and the later ones shift down by one. */
  function RemoveAt<T>(s: seq<T>, i: nat): (r: seq<T>)
    requires i < |s|
    ensures |r| == |s| - 1
    ensures forall k :: 0 <= k < i ==> r[k] == s[k]
    ensures forall k :: i <= k < |r| ==> r[k] == s[k + 1]
    ensures multiset(r) == multiset(s) - multiset{s[i]}
  {
    assert s == s[..i] + [s[i]] + s[i + 1..];
    s[..i] + s[i + 1..]
  }

  /** `s[i], s[j] = s[j], s[i]`. */
  function Swap<T>(s: seq<T>, i: nat, j: nat): (r: seq<T>)
    requires i < |s| && j < |s|
    ensures |r| == |s| && r[i] == s[j] && r[j] == s[i]
    ensures forall k :: 0 <= k < |s| && k != i && k != j ==> r[k] == s[k]
    ensures multiset(r) == multiset(s)
  {
    s[i := s[j]][j := s[i]]
  }

  /** The "move up" button on entry `idx`: swap it with its predecessor, unless it is first. */
  function MoveUp<T>(s: seq<T>, idx: nat): (r: seq<T>)
    requires idx < |s|
    ensures |r| == |s| && multiset(r) == multiset(s)
    ensures idx == 0 ==> r == s
    ensures idx > 0 ==> r[idx - 1] == s[idx] && r[idx] == s[idx - 1]
    ensures forall k :: 0 <= k < |s| && k != idx && k + 1 != idx ==> r[k] == s[k]
  {
    if idx > 0 then Swap(s, idx - 1, idx) else s
  }

  /** The "move down" button on entry `idx`: swap it with its successor, unless it is last. */
  function MoveDown<T>(s: seq<T>, idx: nat): (r: seq<T>)
    requires idx < |s|
    ensures |r| == |s| && multiset(r) == multiset(s)
    ensures idx == |s| - 1 ==> r == s
    ensures idx < |s| - 1 ==> r[idx] == s[idx + 1] && r[idx + 1] == s[idx]
    ensures forall k :: 0 <= k < |s| && k != idx && k != idx + 1 ==> r[k] == s[k]
  {
    if idx < |s| - 1 then Swap(s, idx, idx + 1) else s
  }

  /** Moving an entry up and then moving it (now one place higher) down restores the list. */
  lemma MoveUpThenDown<T>(s: seq<T>, idx: nat)
    requires 0 < idx < |s|
    ensures MoveDown(MoveUp(s, idx), idx - 1) == s
  {
    var r := MoveDown(MoveUp(s, idx), idx - 1);
    assert forall k :: 0 <= k < |s| ==> r[k] == s[k];
  }

  /** Moving an entry down and then moving it (now one place lower) up restores the list. */
  lemma MoveDownThenUp<T>(s: seq<T>, idx: nat)
    requires idx < |s| - 1
    ensures MoveUp(MoveDown(s, idx), idx + 1) == s
  {
    var r := MoveUp(MoveDown(s, idx), idx + 1);
    assert forall k :: 0 <= k < |s| ==> r[k] == s[k];
  }

  /** A swap keeps the set of elements and keeps a list of distinct keys distinct. */
  lemma SwapKeepsKeys<T>(s: seq<T>, i: nat, j: nat)
    requires i < |s| && j < |s|
    ensures forall x :: x in Swap(s, i, j) <==> x in s
    ensures Distinct(s) ==> Distinct(Swap(s, i, j))
  {
    var r := Swap(s, i, j);
    forall x
      ensures x in r <==> x in s
    {
      assert x in r <==> x in multiset(r);
      assert x in s <==> x in multiset(s);
    }
    if Distinct(s) {
      forall a, b | 0 <= a < b < |r|
        ensures r[a] != r[b]
      {
        var a' := if a == i then j else if a == j then i else a;
        var b' := if b == i then j else if b == j then i else b;
        assert r[a] == s[a'] && r[b] == s[b'];
      }
    }
  }

  /** The tail of a list of distinct keys is distinct and does not hold its head. */
  lemma DistinctTail<T>(s: seq<T>)
    requires |s| > 0 && Distinct(s)
    ensures Distinct(s[1..]) && s[0] !in s[1..]
  {
    var t := s[1..];
    forall a, b | 0 <= a < b < |t| ensures t[a] != t[b] { assert t[a] == s[a + 1] && t[b] == s[b + 1]; }
    forall k | 0 <= k < |t| ensures t[k] != s[0] { assert t[k] == s[k + 1]; }
  }

  /** A key put in front of distinct keys that do not hold it keeps them distinct. */
  lemma DistinctCons<T>(x: T, s: seq<T>)
    requires Distinct(s) && x !in s
    ensures Distinct([x] + s)
  {
    var r := [x] + s;
    forall a, b | 0 <= a < b < |r| ensures r[a] != r[b] {
      assert r[b] == s[b - 1];
      if a > 0 { assert r[a] == s[a - 1]; }
    }
  }

  /**
   The key sequence of a dictionary after `d.pop(x)`: the keys other than
   `x`, in the order they had.
   */
  function Without<T(==)>(s: seq<T>, x: T): (r: seq<T>)
    ensures |r| <= |s|
    ensures x !in s ==> r == s
  {
    if s == [] then []
    else if s[0] == x then Without(s[1..], x)
    else [s[0]] + Without(s[1..], x)
  }

  /** After `pop(x)` exactly the other keys remain, and distinct keys stay distinct. */
  lemma {:induction false} WithoutKeys<T>(s: seq<T>, x: T)
    ensures forall y :: y in Without(s, x) <==> y in s && y != x
    ensures Distinct(s) ==> Distinct(Without(s, x))
  {
    if s != [] {
      var rest := Without(s[1..], x);
      WithoutKeys(s[1..], x);
      assert forall y :: y in s <==> y == s[0] || y in s[1..];
      if s[0] != x {
        assert Without(s, x) == [s[0]] + rest;
        if Distinct(s) {
          DistinctTail(s);
          DistinctCons(s[0], rest);
        }
      } else if Distinct(s) {
        DistinctTail(s);
      }
    }
  }

  /** For distinct keys, removing the key `x == s[i]` is exactly `s.pop(i)`. */
  lemma {:induction false} WithoutIsRemoveAt<T>(s: seq<T>, i: nat)
    requires i < |s| && Distinct(s)
    ensures Without(s, s[i]) == s[..i] + s[i + 1..]
  {
    var x := s[i];
    var t := s[1..];
    DistinctTail(s);
    if i == 0 {
      assert Without(t, x) == t;
    } else {
      assert s[0] != x;
      assert t[i - 1] == x;
      WithoutIsRemoveAt(t, i - 1);
      assert s[..i] == [s[0]] + t[..i - 1];
      assert s[i + 1..] == t[i..];
    }
  }
}
