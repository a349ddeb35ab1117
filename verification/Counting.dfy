/** Counting occurrences, for step systems whose tokens move between places. */
module Counting {

  function Count<T(==)>(s: seq<T>, x: T): nat {
    if s == [] then 0 else (if s[0] == x then 1 else 0) + Count(s[1..], x)
  }

  lemma {:induction false} CountAppend<T>(s: seq<T>, last: T, x: T)
    ensures Count(s + [last], x) == Count(s, x) + if last == x then 1 else 0
    decreases |s|
  {
    if s == [] {
    } else {
      assert (s + [last])[1..] == s[1..] + [last];
      CountAppend(s[1..], last, x);
    }
  }

  lemma {:induction false} CountPositive<T>(s: seq<T>, x: T)
    ensures Count(s, x) > 0 <==> x in s
    decreases |s|
  {
    if s == [] {
    } else {
      assert s == [s[0]] + s[1..];
      CountPositive(s[1..], x);
    }
  }

  /** The total weight of a list. */
  function Sum<T>(weight: T -> int, s: seq<T>): int {
    if s == [] then 0 else weight(s[0]) + Sum(weight, s[1..])
  }

  lemma {:induction false} SumUpdate<T>(weight: T -> int, s: seq<T>, i: nat, x: T)
    requires i < |s|
    ensures Sum(weight, s[i := x]) == Sum(weight, s) - weight(s[i]) + weight(x)
    decreases |s|
  {
    if i > 0 {
      assert s[i := x][1..] == s[1..][i - 1 := x];
      SumUpdate(weight, s[1..], i - 1, x);
    } else {
      assert s[i := x][1..] == s[1..];
    }
  }

  /** Non-negative weights: one element weighs no more than the list. */
  lemma {:induction false} SumAtLeast<T>(weight: T -> int, s: seq<T>, i: nat)
    requires i < |s| && forall j :: 0 <= j < |s| ==> weight(s[j]) >= 0
    ensures Sum(weight, s) >= weight(s[i])
    decreases |s|
  {
    if i > 0 {
      SumAtLeast(weight, s[1..], i - 1);
    } else {
      SumNonNegative(weight, s[1..]);
    }
  }

  lemma {:induction false} SumNonNegative<T>(weight: T -> int, s: seq<T>)
    requires forall j :: 0 <= j < |s| ==> weight(s[j]) >= 0
    ensures Sum(weight, s) >= 0
    decreases |s|
  {
    if s == [] {
    } else {
      SumNonNegative(weight, s[1..]);
    }
  }

  lemma {:induction false} SumUniform<T>(weight: T -> int, s: seq<T>, w: int)
    requires forall j :: 0 <= j < |s| ==> weight(s[j]) == w
    ensures Sum(weight, s) == w * |s|
    decreases |s|
  {
    if s == [] {
    } else {
      SumUniform(weight, s[1..], w);
      assert w * |s| == w * |s[1..]| + w;
    }
  }

  lemma {:induction false} SumAppend<T>(weight: T -> int, s: seq<T>, x: T)
    ensures Sum(weight, s + [x]) == Sum(weight, s) + weight(x)
    decreases |s|
  {
    if s == [] {
      assert s + [x] == [x] && [x][1..] == [];
    } else {
      assert (s + [x])[1..] == s[1..] + [x];
      SumAppend(weight, s[1..], x);
    }
  }

  lemma {:induction false} SumBound<T>(weight: T -> int, s: seq<T>)
    requires forall j :: 0 <= j < |s| ==> weight(s[j]) <= 1
    ensures Sum(weight, s) <= |s|
    decreases |s|
  {
    if s == [] {
    } else {
      SumBound(weight, s[1..]);
    }
  }
}
