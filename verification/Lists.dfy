/** Facts about lists that several modules share. */
module Lists {

  /** The list without any occurrence of `x`. */
  function Without<T(==)>(s: seq<T>, x: T): (r: seq<T>)
    ensures |r| <= |s|
  {
    if s == [] then []
    else if s[|s| - 1] == x then Without(s[..|s| - 1], x)
    else Without(s[..|s| - 1], x) + [s[|s| - 1]]
  }

  ghost predicate Distinct<T>(s: seq<T>) {
    forall i, j :: 0 <= i < j < |s| ==> s[i] != s[j]
  }

  lemma Regroup<T>(a: seq<T>, b: seq<T>, c: seq<T>)
    ensures a + b + c == a + (b + c)
  {
  }

  lemma WithoutAppend<T>(s: seq<T>, x: T, y: T)
    ensures Without(s + [y], x) == if x == y then Without(s, x) else Without(s, x) + [y]
  {
    assert (s + [y])[..|s|] == s;
  }

  lemma {:induction false} WithoutMembers<T>(s: seq<T>, x: T)
    ensures forall y :: y in Without(s, x) <==> y in s && y != x
    ensures x !in s ==> Without(s, x) == s
  {
    if s == [] {
      assert Without(s, x) == [];
    } else {
      assert s == s[..|s| - 1] + [s[|s| - 1]];
      WithoutMembers(s[..|s| - 1], x);
    }
  }

  lemma {:induction false} WithoutDistinct<T>(s: seq<T>, x: T)
    requires Distinct(s)
    ensures Distinct(Without(s, x))
    ensures x in s ==> |Without(s, x)| == |s| - 1
  {
    if s == [] {
      assert Without(s, x) == [];
    } else {
      var u, last := s[..|s| - 1], s[|s| - 1];
      assert s == u + [last] && last !in u;
      WithoutMembers(u, x);
      WithoutDistinct(u, x);
    }
  }

  lemma {:induction false} WithoutCommutes<T>(s: seq<T>, x: T, y: T)
    ensures Without(Without(s, x), y) == Without(Without(s, y), x)
  {
    if s == [] {
      assert Without(s, x) == Without(s, y) == [];
    } else {
      WithoutCommutes(s[..|s| - 1], x, y);
      WithoutCommutesStep(s[..|s| - 1], s[|s| - 1], x, y);
      assert s[..|s| - 1] + [s[|s| - 1]] == s;
    }
  }

  lemma WithoutCommutesStep<T>(u: seq<T>, z: T, x: T, y: T)
    requires Without(Without(u, x), y) == Without(Without(u, y), x)
    ensures Without(Without(u + [z], x), y) == Without(Without(u + [z], y), x)
  {
    WithoutAppend(u, x, z);
    WithoutAppend(u, y, z);
    WithoutAppend(Without(u, x), y, z);
    WithoutAppend(Without(u, y), x, z);
  }
}
