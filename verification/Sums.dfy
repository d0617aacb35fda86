/** Finite sums over sequences, the bookkeeping tool of every conservation argument here. */
module Sums {
  import opened Arithmetic

  /** The sum of integer weights over a sequence. */
  ghost function Sum<T>(s: seq<T>, f: T -> int): int {
    if s == [] then 0 else f(s[0]) + Sum(s[1..], f)
  }

  /** The sum of real weights over a sequence. */
  ghost function Total<T>(s: seq<T>, f: T -> real): real {
    if s == [] then 0.0 else f(s[0]) + Total(s[1..], f)
  }

  lemma {:induction false} SumAppend<T>(s: seq<T>, x: T, f: T -> int)
    ensures Sum(s + [x], f) == Sum(s, f) + f(x)
  {
    if s == [] {
      assert s + [x] == [x];
    } else {
      assert (s + [x])[1..] == s[1..] + [x];
      SumAppend(s[1..], x, f);
    }
  }

  lemma {:induction false} SumUpdate<T>(s: seq<T>, i: nat, x: T, f: T -> int)
    requires i < |s|
    ensures Sum(s[i := x], f) == Sum(s, f) - f(s[i]) + f(x)
  {
    if i == 0 {
      assert s[i := x][1..] == s[1..];
    } else {
      assert s[i := x][1..] == s[1..][i - 1 := x];
      SumUpdate(s[1..], i - 1, x, f);
    }
  }

  /** Sequences with pointwise equal weights have equal sums. */
  lemma {:induction false} SumPointwise<T>(s: seq<T>, t: seq<T>, f: T -> int)
    requires |s| == |t|
    requires forall i :: 0 <= i < |s| ==> f(s[i]) == f(t[i])
    ensures Sum(s, f) == Sum(t, f)
  {
    if s != [] {
      SumPointwise(s[1..], t[1..], f);
    }
  }

  /** A pointwise bound with slack `d` per element bounds the sum. */
  lemma {:induction false} SumBound<T>(s: seq<T>, t: seq<T>, f: T -> int, g: T -> int, d: nat)
    requires |s| == |t|
    requires forall i :: 0 <= i < |s| ==> f(s[i]) <= g(t[i]) + d
    ensures Sum(s, f) <= Sum(t, g) + |s| * d
  {
    if s != [] {
      SumBound(s[1..], t[1..], f, g, d);
      TimesPred(|s|, d);
    }
  }

  lemma {:induction false} SumZero<T>(s: seq<T>, f: T -> int)
    requires forall i :: 0 <= i < |s| ==> f(s[i]) == 0
    ensures Sum(s, f) == 0
  {
    if s != [] {
      SumZero(s[1..], f);
    }
  }

  /** Nonnegative weights: every element is at most the sum. */
  lemma {:induction false} SumAtLeast<T>(s: seq<T>, f: T -> int, i: nat)
    requires i < |s|
    requires forall k :: 0 <= k < |s| ==> f(s[k]) >= 0
    ensures Sum(s, f) >= f(s[i]) >= 0
  {
    SumNonnegative(s[1..], f);
    if i > 0 {
      SumAtLeast(s[1..], f, i - 1);
    }
  }

  lemma {:induction false} SumNonnegative<T>(s: seq<T>, f: T -> int)
    requires forall k :: 0 <= k < |s| ==> f(s[k]) >= 0
    ensures Sum(s, f) >= 0
  {
    if s != [] {
      SumNonnegative(s[1..], f);
    }
  }

  /** A positive sum has a positive element. */
  lemma {:induction false} SumWitness<T>(s: seq<T>, f: T -> int) returns (i: nat)
    requires Sum(s, f) > 0
    ensures i < |s| && f(s[i]) > 0
  {
    if f(s[0]) > 0 {
      i := 0;
    } else {
      i := SumWitness(s[1..], f);
      i := i + 1;
    }
  }

  lemma {:induction false} TotalAppend<T>(s: seq<T>, x: T, f: T -> real)
    ensures Total(s + [x], f) == Total(s, f) + f(x)
  {
    if s == [] {
      assert s + [x] == [x];
    } else {
      assert (s + [x])[1..] == s[1..] + [x];
      TotalAppend(s[1..], x, f);
    }
  }

  lemma {:induction false} TotalUpdate<T>(s: seq<T>, i: nat, x: T, f: T -> real)
    requires i < |s|
    ensures Total(s[i := x], f) == Total(s, f) - f(s[i]) + f(x)
  {
    if i == 0 {
      assert s[i := x][1..] == s[1..];
    } else {
      assert s[i := x][1..] == s[1..][i - 1 := x];
      TotalUpdate(s[1..], i - 1, x, f);
    }
  }

  lemma {:induction false} TotalPointwise<T>(s: seq<T>, t: seq<T>, f: T -> real)
    requires |s| == |t|
    requires forall i :: 0 <= i < |s| ==> f(s[i]) == f(t[i])
    ensures Total(s, f) == Total(t, f)
  {
    if s != [] {
      TotalPointwise(s[1..], t[1..], f);
    }
  }

  lemma {:induction false} TotalZero<T>(s: seq<T>, f: T -> real)
    requires forall i :: 0 <= i < |s| ==> f(s[i]) == 0.0
    ensures Total(s, f) == 0.0
  {
    if s != [] {
      TotalZero(s[1..], f);
    }
  }
}
