/** Implied volatility by bisection over an abstract pricing function
    (scripts/fetch_polygon_history.py). */
module ImpliedVol {
  import opened Common

  const LOW: real := 0.01
  const HIGH: real := 5.0
  const FALLBACK: real := 0.20
  const TOLERANCE: real := 0.0001
  const HALVINGS: nat := 60

  // Width of the bracket after n halvings.
  function Width(n: nat): real {
    if n == 0 then HIGH - LOW else Width(n - 1) / 2.0
  }

  ghost predicate Increasing(price: real -> real) {
    forall a, b :: LOW <= a < b <= HIGH ==> price(a) < price(b)
  }

  // iv is the middle of a final bracket that the target price splits (or whose end is the end of the range).
  ghost predicate Brackets(price: real -> real, mid: real, iv: real) {
    var half := Width(16) / 2.0;
    && 0.01 <= iv - half && iv + half <= 5.0
    && (iv - half == 0.01 || price(iv - half) <= mid)
    && (iv + half == 5.0 || mid < price(iv + half))
  }

  // Sixteen halvings are needed, and enough.
  lemma SixteenHalvings()
    ensures Width(16) < TOLERANCE <= Width(15) && TOLERANCE == 0.0001
  {
    assert Width(4) == (HIGH - LOW) / 16.0;
    assert Width(8) == (HIGH - LOW) / 256.0;
    assert Width(12) == (HIGH - LOW) / 4096.0;
    assert Width(15) == (HIGH - LOW) / 32768.0;
    assert Width(16) == (HIGH - LOW) / 65536.0;
  }

  lemma {:induction false} WidthShrinks(m: nat, n: nat)
    requires m <= n
    ensures 0.0 < Width(n) <= Width(m)
  {
    if m < n {
      WidthShrinks(m, n - 1);
    } else if n > 0 {
      WidthShrinks(n - 1, n - 1);
    }
  }

  // MAIN RESULT. The loop always stops by width, after sixteen halvings; its answer is the middle of a
  // bracket narrower than the tolerance that the target price splits (or the end of the range it lies beyond).
  method ImpliedVolatility(mid: real, spot: real, strike: real, years: real, price: real -> real)
    returns (iv: real, halvings: nat)
    ensures mid <= 0.0 || years <= 0.0 || spot <= 0.0 || strike <= 0.0 ==> iv == 0.2 && halvings == 0
    ensures !(mid <= 0.0 || years <= 0.0 || spot <= 0.0 || strike <= 0.0) ==>
              halvings == 16 && Brackets(price, mid, iv)
  {
    if mid <= 0.0 || years <= 0.0 || spot <= 0.0 || strike <= 0.0 {
      return FALLBACK, 0;
    }
    SixteenHalvings();
    var lo, hi := LOW, HIGH;
    halvings := 0;
    while halvings < HALVINGS
      invariant halvings <= 15
      invariant LOW <= lo && hi <= HIGH && hi - lo == Width(halvings)
      invariant lo == LOW || price(lo) <= mid
      invariant hi == HIGH || mid < price(hi)
    {
      var m := (lo + hi) / 2.0;
      WidthShrinks(halvings, halvings);
      if price(m) > mid {
        hi := m;
      } else {
        lo := m;
      }
      halvings := halvings + 1;
      if halvings <= 15 {
        WidthShrinks(halvings, 15);
      }
      if hi - lo < TOLERANCE {
        break;
      }
    }
    iv := (lo + hi) / 2.0;
  }

  // Under an increasing price the answer is within half the tolerance of any solution, and of the end of
  // the range when the target price lies beyond it.
  lemma AnswerIsClose(price: real -> real, mid: real, iv: real, sigma: real)
    requires Increasing(price) && LOW <= sigma <= HIGH && Brackets(price, mid, iv)
    requires price(sigma) == mid || (sigma == LOW && mid < price(LOW)) || (sigma == HIGH && price(HIGH) <= mid)
    ensures Abs(iv - sigma) < 0.00005
  {
    SixteenHalvings();
    var half := Width(16) / 2.0;
    var lo, hi := iv - half, iv + half;
    assert sigma < lo ==> price(sigma) < price(lo);
    assert hi < sigma ==> price(hi) < price(sigma);
  }
}
