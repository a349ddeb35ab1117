/** String operations of the Rust standard library that several modules share:
    first-occurrence search, splitting at a separator, and trimming.
    A byte is modelled as a `char`, so a byte string is a `string`. */
module Text {
  import opened Wrappers

  /** `p` occurs in `s` at position `i`. */
  predicate At(s: string, p: string, i: int) {
    0 <= i && i + |p| <= |s| && s[i..i + |p|] == p
  }

  ghost predicate Contains(s: string, p: string) {
    exists i :: At(s, p, i)
  }

  /** The first position at or after `from` where `p` occurs. */
  function FindFrom(s: string, p: string, from: nat): (r: Option<nat>)
    ensures r.Some? ==> from <= r.value && At(s, p, r.value) && forall j :: from <= j < r.value ==> !At(s, p, j)
    ensures r.None? ==> forall j :: from <= j ==> !At(s, p, j)
    decreases |s| - from
  {
    if from + |p| > |s| then None
    else if At(s, p, from) then Some(from)
    else FindFrom(s, p, from + 1)
  }

  function Find(s: string, p: string): (r: Option<nat>)
    ensures r.Some? ==> At(s, p, r.value) && forall j :: 0 <= j < r.value ==> !At(s, p, j)
    ensures r.None? ==> !Contains(s, p)
  {
    FindFrom(s, p, 0)
  }

  /** The first occurrence is determined by what `Find` promises. */
  lemma FindIs(s: string, p: string, k: nat)
    requires At(s, p, k) && forall j :: 0 <= j < k ==> !At(s, p, j)
    ensures Find(s, p) == Some(k)
  {
    if Find(s, p).None? {
      assert Contains(s, p);
    }
  }

  /** If no character of `a` starts `sep`, the first `sep` in `a + sep + b` is right after `a`. */
  lemma FindAfter(a: string, sep: string, b: string)
    requires sep != "" && sep[0] !in a
    ensures Find(a + sep + b, sep) == Some(|a|)
  {
    var s := a + sep + b;
    assert s[|a|..|a| + |sep|] == sep;
    forall j | 0 <= j < |a|
      ensures !At(s, sep, j)
    {
      assert s[j..j + |sep|][0] == a[j];
    }
    FindIs(s, sep, |a|);
  }

  /** `str::split`: the pieces between the non-overlapping occurrences of `sep`. */
  function SplitOn(s: string, sep: string): (r: seq<string>)
    requires sep != ""
    ensures r != []
    decreases |s|
  {
    match Find(s, sep)
    case None => [s]
    case Some(k) => [s[..k]] + SplitOn(s[k + |sep|..], sep)
  }

  lemma SplitOnLast(a: string, sep: string)
    requires sep != "" && sep[0] !in a
    ensures SplitOn(a, sep) == [a]
  {
    forall j | 0 <= j && j + |sep| <= |a|
      ensures !At(a, sep, j)
    {
      assert a[j..j + |sep|][0] == a[j];
    }
  }

  lemma SplitOnCons(a: string, sep: string, b: string)
    requires sep != "" && sep[0] !in a
    ensures SplitOn(a + sep + b, sep) == [a] + SplitOn(b, sep)
  {
    FindAfter(a, sep, b);
    var s := a + sep + b;
    assert s[..|a|] == a;
    assert s[|a| + |sep|..] == b;
  }

  predicate StartsWith(s: string, p: string) {
    p <= s
  }

  predicate EndsWith(s: string, p: string) {
    |p| <= |s| && s[|s| - |p|..] == p
  }

  /** `str::trim_end_matches` with a string pattern: every trailing copy of `p` goes. */
  function TrimEnd(s: string, p: string): (r: string)
    requires p != ""
    ensures r <= s && !EndsWith(r, p)
    decreases |s|
  {
    if EndsWith(s, p) then TrimEnd(s[..|s| - |p|], p) else s
  }

  /** ASCII white space, as `str::trim` sees it. */
  predicate IsSpace(c: char) {
    c == ' ' || '\t' <= c <= '\r'
  }

  function TrimLeft(s: string, drop: char -> bool): (r: string)
    ensures r == "" || !drop(r[0])
    decreases |s|
  {
    if s != "" && drop(s[0]) then TrimLeft(s[1..], drop) else s
  }

  function TrimRight(s: string, drop: char -> bool): (r: string)
    ensures r <= s && (r == "" || !drop(r[|r| - 1]))
    decreases |s|
  {
    if s != "" && drop(s[|s| - 1]) then TrimRight(s[..|s| - 1], drop) else s
  }

  function TrimBoth(s: string, drop: char -> bool): (r: string) {
    TrimRight(TrimLeft(s, drop), drop)
  }

  function Trim(s: string): (r: string) {
    TrimBoth(s, IsSpace)
  }

  function LowerChar(c: char): (r: char) {
    if 'A' <= c <= 'Z' then c - 'A' + 'a' else c
  }

  function ToLower(s: string): (r: string)
    ensures |r| == |s| && forall i :: 0 <= i < |s| ==> r[i] == LowerChar(s[i])
  {
    seq(|s|, i requires 0 <= i < |s| => LowerChar(s[i]))
  }

  // ----- What trimming and splitting leave out -----

  ghost predicate AllOf(s: string, drop: char -> bool) { forall i :: 0 <= i < |s| ==> drop(s[i]) }

  lemma {:induction false} TrimLeftIs(s: string, drop: char -> bool) returns (a: string)
    ensures s == a + TrimLeft(s, drop) && AllOf(a, drop)
    decreases |s|
  {
    if s != "" && drop(s[0]) {
      a := TrimLeftIs(s[1..], drop);
      a := [s[0]] + a;
    } else {
      a := "";
    }
  }

  lemma {:induction false} TrimRightIs(s: string, drop: char -> bool) returns (b: string)
    ensures s == TrimRight(s, drop) + b && AllOf(b, drop)
    decreases |s|
  {
    if s != "" && drop(s[|s| - 1]) {
      b := TrimRightIs(s[..|s| - 1], drop);
      b := b + [s[|s| - 1]];
    } else {
      b := "";
    }
  }

  /** `r` is `s` without the characters to drop at its two ends. */
  ghost predicate IsTrimmed(s: string, drop: char -> bool, r: string) {
    && (r == "" || (!drop(r[0]) && !drop(r[|r| - 1])))
    && exists a: string, b: string :: s == a + r + b && AllOf(a, drop) && AllOf(b, drop)
  }

  lemma TrimBothIs(s: string, drop: char -> bool)
    ensures IsTrimmed(s, drop, TrimBoth(s, drop))
  {
    var l := TrimLeft(s, drop);
    var a := TrimLeftIs(s, drop);
    var b := TrimRightIs(l, drop);
    assert s == a + TrimRight(l, drop) + b;
  }

  lemma TrimPlain(s: string, drop: char -> bool)
    requires s == "" || (!drop(s[0]) && !drop(s[|s| - 1]))
    ensures TrimBoth(s, drop) == s
  {
  }

  /** `n` copies of `p`. */
  function Copies(p: string, n: nat): string { if n == 0 then "" else Copies(p, n - 1) + p }

  lemma {:induction false} TrimEndIs(s: string, p: string) returns (n: nat)
    requires p != ""
    ensures s == TrimEnd(s, p) + Copies(p, n)
    decreases |s|
  {
    if EndsWith(s, p) {
      n := TrimEndIs(s[..|s| - |p|], p);
      n := n + 1;
      assert s == s[..|s| - |p|] + p;
    } else {
      n := 0;
    }
  }

  /** The pieces with `sep` between them. */
  function JoinWith(pieces: seq<string>, sep: string): string
    requires pieces != []
  {
    if |pieces| == 1 then pieces[0] else pieces[0] + sep + JoinWith(pieces[1..], sep)
  }

  lemma {:induction false} SplitOnIs(s: string, sep: string)
    requires sep != ""
    ensures JoinWith(SplitOn(s, sep), sep) == s
    ensures forall p :: p in SplitOn(s, sep) ==> !Contains(p, sep)
    decreases |s|
  {
    match Find(s, sep) {
      case None =>
      case Some(k) =>
        var first, rest := s[..k], s[k + |sep|..];
        SplitOnIs(rest, sep);
        assert ([first] + SplitOn(rest, sep))[1..] == SplitOn(rest, sep);
        assert s == first + sep + rest;
        forall i
          ensures !At(first, sep, i)
        {
          if 0 <= i && i + |sep| <= k {
            assert first[i..i + |sep|] == s[i..i + |sep|];
            assert !At(s, sep, i);
          }
        }
    }
  }
}
