/** Small value types shared by the whole model. */
module Basics {

  datatype Option<+T> = None | Some(value: T)

  datatype Result<+T, +E> = Ok(value: T) | Err(error: E)

  function Max(a: int, b: int): int { if a >= b then a else b }

  function Min(a: int, b: int): int { if a <= b then a else b }

  /** Python truthiness of an optional string: absent and empty both count as missing. */
  predicate Present(s: Option<string>) {
    s.Some? && s.value != ""
  }

  predicate NoDuplicates<T(==)>(s: seq<T>) {
    forall i, j :: 0 <= i < j < |s| ==> s[i] != s[j]
  }

  function Elements<T>(s: seq<T>): set<T> {
    set x | x in s
  }

  /** A sequence without repeats has as many positions as it has members. */
  lemma {:induction false} CountElements<T>(s: seq<T>)
    requires NoDuplicates(s)
    ensures |Elements(s)| == |s|
  {
    if s == [] {
    } else {
      var rest := s[..|s| - 1];
      var last := s[|s| - 1];
      CountElements(rest);
      assert last !in Elements(rest);
      assert Elements(s) == Elements(rest) + {last};
    }
  }

  lemma {:induction false} SmallestMember(s: set<int>) returns (i: int)
    requires exists j :: j in s
    ensures i in s && forall j <- s :: i <= j
    decreases |s|
  {
    i :| i in s;
    var rest := s - {i};
    assert forall j <- s :: j == i || j in rest;
    if exists j :: j in rest {
      var r := SmallestMember(rest);
      i := Min(i, r);
    }
  }

  lemma {:induction false} SizeWithin(s: set<int>, low: int, n: nat)
    requires forall j <- s :: low <= j < low + n
    ensures |s| <= n
  {
    if n > 0 {
      var rest := s - {low + n - 1};
      SizeWithin(rest, low, n - 1);
      assert s <= rest + {low + n - 1};
    } else {
      assert forall j :: j !in s;
      assert s == {};
    }
  }
}
