/** Removing the first occurrence of an element from a list. */
module Sequences {
  function Without<T(==)>(list: seq<T>, x: T): (r: seq<T>)
    ensures forall y :: y in r ==> y in list
    ensures forall y :: y in list && y != x ==> y in r
  {
    if list == [] then [] else if list[0] == x then list[1..] else [list[0]] + Without(list[1..], x)
  }

  // When the first occurrence is at place i, or there is none.
  lemma {:induction false} WithoutAt<T>(list: seq<T>, x: T, i: nat)
    requires i <= |list| && x !in list[..i] && (i < |list| ==> list[i] == x)
    ensures Without(list, x) == if i < |list| then list[..i] + list[i + 1..] else list
    decreases i
  {
    if i > 0 {
      assert list[0] == list[..i][0];
      var rest := list[1..];
      assert list[..i] == [list[0]] + rest[..i - 1];
      WithoutAt(rest, x, i - 1);
      if i < |list| {
        assert list[i + 1..] == rest[i..];
      }
    }
  }
}
