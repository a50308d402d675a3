/** Sums over sequences of participants, and how one participant's step changes them. */
module Folds {
  function Sum<T>(s: seq<T>, f: T -> int): (r: int)
  {
    if s == [] then 0 else f(s[0]) + Sum(s[1..], f)
  }

  lemma {:induction false} SumUpdate<T>(s: seq<T>, f: T -> int, i: nat, v: T)
    requires i < |s|
    ensures Sum(s[i := v], f) == Sum(s, f) - f(s[i]) + f(v)
  {
    var t := s[i := v];
    if i == 0 {
      assert t[1..] == s[1..];
    } else {
      assert t[1..] == s[1..][i - 1 := v];
      SumUpdate(s[1..], f, i - 1, v);
    }
  }

  /** A pointwise rise of at most `c` raises the sum by at most `c` per element. */
  lemma {:induction false} SumRise<T>(s: seq<T>, t: seq<T>, f: T -> int, c: int)
    requires |s| == |t|
    requires forall k :: 0 <= k < |s| ==> f(t[k]) <= f(s[k]) + c
    ensures Sum(t, f) <= Sum(s, f) + c * |s|
  {
    if s != [] {
      SumRise(s[1..], t[1..], f, c);
      assert c * |s| == c * |s[1..]| + c;
    }
  }

  /** A pointwise rise that is strict at `j` raises the sum strictly. */
  lemma {:induction false} SumStrictRise<T>(s: seq<T>, t: seq<T>, f: T -> int, j: nat)
    requires |s| == |t| && j < |s|
    requires forall k :: 0 <= k < |s| ==> f(s[k]) <= f(t[k])
    requires f(s[j]) < f(t[j])
    ensures Sum(s, f) < Sum(t, f)
  {
    if j == 0 {
      SumRise(t[1..], s[1..], f, 0);
    } else {
      SumStrictRise(s[1..], t[1..], f, j - 1);
    }
  }

  lemma {:induction false} SumNonNegative<T>(s: seq<T>, f: T -> int)
    requires forall k :: 0 <= k < |s| ==> 0 <= f(s[k])
    ensures 0 <= Sum(s, f)
  {
    if s != [] {
      SumNonNegative(s[1..], f);
    }
  }

  /** With non-negative terms, each single term is at most the sum. */
  lemma {:induction false} SumAtLeast<T>(s: seq<T>, f: T -> int, i: nat)
    requires i < |s|
    requires forall k :: 0 <= k < |s| ==> 0 <= f(s[k])
    ensures f(s[i]) <= Sum(s, f)
  {
    if i == 0 {
      SumNonNegative(s[1..], f);
    } else {
      SumAtLeast(s[1..], f, i - 1);
    }
  }

  /** With non-negative terms, two distinct terms together are at most the sum. */
  lemma {:induction false} SumAtLeastTwo<T>(s: seq<T>, f: T -> int, i: nat, j: nat)
    requires i < j < |s|
    requires forall k :: 0 <= k < |s| ==> 0 <= f(s[k])
    ensures f(s[i]) + f(s[j]) <= Sum(s, f)
  {
    if i == 0 {
      SumAtLeast(s[1..], f, j - 1);
    } else {
      SumAtLeastTwo(s[1..], f, i - 1, j - 1);
    }
  }

  /** A positive sum has a positive term. */
  lemma {:induction false} SumPositiveWitness<T>(s: seq<T>, f: T -> int) returns (i: nat)
    requires 0 < Sum(s, f)
    ensures i < |s| && 0 < f(s[i])
  {
    if 0 < f(s[0]) {
      i := 0;
    } else {
      var j := SumPositiveWitness(s[1..], f);
      i := j + 1;
    }
  }

  lemma {:induction false} SumConstant<T>(s: seq<T>, f: T -> int, c: int)
    requires forall k :: 0 <= k < |s| ==> f(s[k]) == c
    ensures Sum(s, f) == c * |s|
  {
    if s != [] {
      SumConstant(s[1..], f, c);
      assert c * |s| == c * |s[1..]| + c;
    }
  }

  /** Terms bounded by `c` that sum to `c` each are all equal to `c`. */
  lemma {:induction false} SumFull<T>(s: seq<T>, f: T -> int, c: int, i: nat)
    requires i < |s|
    requires forall k :: 0 <= k < |s| ==> f(s[k]) <= c
    requires Sum(s, f) == c * |s|
    ensures f(s[i]) == c
  {
    var rest := s[1..];
    assert c * |s| == c * |rest| + c;
    assert Sum(rest, f) <= c * |rest| by { SumAtMost(rest, f, c); }
    if i != 0 {
      SumFull(rest, f, c, i - 1);
    }
  }

  lemma {:induction false} SumAtMost<T>(s: seq<T>, f: T -> int, c: int)
    requires forall k :: 0 <= k < |s| ==> f(s[k]) <= c
    ensures Sum(s, f) <= c * |s|
  {
    if s != [] {
      SumAtMost(s[1..], f, c);
      assert c * |s| == c * |s[1..]| + c;
    }
  }

  /** Equal terms at every index give equal sums, whatever the element types. */
  lemma {:induction false} SumSame<T, U>(s: seq<T>, f: T -> int, t: seq<U>, g: U -> int)
    requires |s| == |t|
    requires forall k :: 0 <= k < |s| ==> f(s[k]) == g(t[k])
    ensures Sum(s, f) == Sum(t, g)
  {
    if s != [] {
      SumSame(s[1..], f, t[1..], g);
    }
  }
}
