/** Vocabulary shared by every module: optional values and exact real arithmetic. */
module Common {

  datatype Option<+T> = None | Some(value: T)

  function Max(a: real, b: real): real {
    if a >= b then a else b
  }

  function Min(a: real, b: real): real {
    if a <= b then a else b
  }

  function Abs(a: real): real {
    if a < 0.0 then -a else a
  }

  function MaxInt(a: int, b: int): int {
    if a >= b then a else b
  }

  function MinInt(a: int, b: int): int {
    if a <= b then a else b
  }

  // Sum of a real-valued weight over a sequence.
  function SumBy<T>(xs: seq<T>, w: T -> real): real {
    if xs == [] then 0.0 else w(xs[0]) + SumBy(xs[1..], w)
  }

  lemma {:induction false} SumByAppend<T>(xs: seq<T>, ys: seq<T>, w: T -> real)
    ensures SumBy(xs + ys, w) == SumBy(xs, w) + SumBy(ys, w)
  {
    if xs == [] {
      assert xs + ys == ys;
    } else {
      assert (xs + ys)[1..] == xs[1..] + ys;
      SumByAppend(xs[1..], ys, w);
    }
  }

  lemma {:induction false} SumByUpdate<T>(xs: seq<T>, i: nat, x: T, w: T -> real)
    requires i < |xs|
    ensures SumBy(xs[i := x], w) == SumBy(xs, w) - w(xs[i]) + w(x)
  {
    if i == 0 {
      assert xs[i := x][1..] == xs[1..];
    } else {
      assert xs[i := x][1..] == xs[1..][i - 1 := x];
      SumByUpdate(xs[1..], i - 1, x, w);
    }
  }

  // ----- monotonicity of real multiplication, one fact per lemma -----

  lemma MulMono(a: real, b: real, c: real)
    requires a <= b && 0.0 <= c
    ensures a * c <= b * c
  {
    assert 0.0 <= (b - a) * c;
  }

  lemma MulStrict(a: real, b: real, c: real)
    requires a < b && 0.0 < c
    ensures a * c < b * c
  {
    assert 0.0 < (b - a) * c;
  }

  lemma ScaleMono(a: real, b: real, c: real)
    requires b <= c && 0.0 <= a
    ensures a * b <= a * c
  {
    MulMono(b, c, a);
  }

  lemma MulNonNeg(a: real, b: real)
    requires 0.0 <= a && 0.0 <= b
    ensures 0.0 <= a * b
  {
  }

  lemma MulPos(a: real, b: real)
    requires 0.0 < a && 0.0 < b
    ensures 0.0 < a * b
  {
  }
}
