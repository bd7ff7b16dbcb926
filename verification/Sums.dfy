/** Sums of a weight over a sequence: barrier arrivals, bytes still to move, ranks. */
module Sums {

  ghost function SumBy<T>(f: T -> nat, xs: seq<T>): nat {
    if |xs| == 0 then 0 else f(xs[0]) + SumBy(f, xs[1..])
  }

  lemma {:induction false} SumByUpdate<T>(f: T -> nat, xs: seq<T>, i: nat, x: T)
    requires i < |xs|
    ensures SumBy(f, xs[i := x]) + f(xs[i]) == SumBy(f, xs) + f(x)
  {
    if i == 0 {
      assert xs[0 := x][1..] == xs[1..];
    } else {
      assert xs[i := x][1..] == xs[1..][i - 1 := x];
      SumByUpdate(f, xs[1..], i - 1, x);
    }
  }

  /** Weights of at most `c` each add up to at most `c` per element, and reach that only if all are `c`. */
  lemma {:induction false} SumByAtMost<T>(f: T -> nat, xs: seq<T>, c: nat)
    requires forall i :: 0 <= i < |xs| ==> f(xs[i]) <= c
    ensures SumBy(f, xs) <= c * |xs|
    ensures SumBy(f, xs) == c * |xs| <==> forall i :: 0 <= i < |xs| ==> f(xs[i]) == c
  {
    if |xs| > 0 {
      var ys := xs[1..];
      forall i | 0 <= i < |ys| ensures f(ys[i]) <= c { assert ys[i] == xs[i + 1]; }
      SumByAtMost(f, ys, c);
      assert c * |xs| == c + c * |ys|;
      if SumBy(f, xs) == c * |xs| {
        forall i | 0 <= i < |xs| ensures f(xs[i]) == c {
          if i > 0 { assert xs[i] == ys[i - 1]; }
        }
      }
      if forall i :: 0 <= i < |xs| ==> f(xs[i]) == c {
        forall i | 0 <= i < |ys| ensures f(ys[i]) == c { assert ys[i] == xs[i + 1]; }
      }
    }
  }

  lemma {:induction false} SumByZero<T>(f: T -> nat, xs: seq<T>)
    requires forall i :: 0 <= i < |xs| ==> f(xs[i]) == 0
    ensures SumBy(f, xs) == 0
  {
    SumByAtMost(f, xs, 0);
  }

  /** Pointwise smaller weights have a smaller sum. */
  lemma {:induction false} SumByPointwise<T>(f: T -> nat, xs: seq<T>, ys: seq<T>)
    requires |xs| == |ys|
    requires forall i :: 0 <= i < |xs| ==> f(xs[i]) <= f(ys[i])
    ensures SumBy(f, xs) <= SumBy(f, ys)
    ensures (exists i :: 0 <= i < |xs| && f(xs[i]) < f(ys[i])) ==> SumBy(f, xs) < SumBy(f, ys)
  {
    if |xs| > 0 {
      var xt, yt := xs[1..], ys[1..];
      forall i | 0 <= i < |xt| ensures f(xt[i]) <= f(yt[i]) {
        assert xt[i] == xs[i + 1] && yt[i] == ys[i + 1];
      }
      SumByPointwise(f, xt, yt);
      if i :| 0 <= i < |xs| && f(xs[i]) < f(ys[i]) {
        if i > 0 {
          assert xt[i - 1] == xs[i] && yt[i - 1] == ys[i];
        }
      }
    }
  }
}
