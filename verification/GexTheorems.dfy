/** What the GEX detector's output means. */
module GexTheorems {
  import opened Common
  import opened Schemas
  import opened GexDetectors

  // ----- the sort sorts -----

  ghost predicate SortedBy(xs: seq<Strike>, key: Strike -> real) {
    forall i, j :: 0 <= i < j < |xs| ==> key(xs[i]) <= key(xs[j])
  }

  lemma {:induction false} InsertKeeps(x: Strike, xs: seq<Strike>, key: Strike -> real)
    ensures multiset(Insert(x, xs, key)) == multiset(xs) + multiset{x}
  {
    if xs != [] && !(key(x) <= key(xs[0])) {
      InsertKeeps(x, xs[1..], key);
      assert xs == [xs[0]] + xs[1..];
    }
  }

  lemma {:induction false} InsertSums(x: Strike, xs: seq<Strike>, key: Strike -> real, w: Strike -> real)
    ensures SumBy(Insert(x, xs, key), w) == SumBy(xs, w) + w(x)
  {
    if xs == [] {
    } else if key(x) <= key(xs[0]) {
      assert ([x] + xs)[1..] == xs;
    } else {
      var rest := Insert(x, xs[1..], key);
      InsertSums(x, xs[1..], key, w);
      assert ([xs[0]] + rest)[1..] == rest;
    }
  }

  lemma InsertMembers(x: Strike, xs: seq<Strike>, key: Strike -> real, j: nat)
    requires j < |Insert(x, xs, key)|
    ensures Insert(x, xs, key)[j] == x || Insert(x, xs, key)[j] in xs
  {
    InsertKeeps(x, xs, key);
    assert Insert(x, xs, key)[j] in multiset(Insert(x, xs, key));
  }

  lemma {:induction false} InsertSorts(x: Strike, xs: seq<Strike>, key: Strike -> real)
    requires SortedBy(xs, key)
    ensures SortedBy(Insert(x, xs, key), key)
  {
    if xs != [] && !(key(x) <= key(xs[0])) {
      var rest := Insert(x, xs[1..], key);
      InsertSorts(x, xs[1..], key);
      forall j | 0 <= j < |rest|
        ensures key(xs[0]) <= key(rest[j])
      {
        InsertMembers(x, xs[1..], key, j);
      }
    }
  }

  // Same strikes, in order.
  lemma {:induction false} SortSorts(xs: seq<Strike>, key: Strike -> real)
    ensures SortedBy(SortBy(xs, key), key) && multiset(SortBy(xs, key)) == multiset(xs)
  {
    if xs != [] {
      SortSorts(xs[1..], key);
      InsertSorts(xs[0], SortBy(xs[1..], key), key);
      InsertKeeps(xs[0], SortBy(xs[1..], key), key);
      assert xs == [xs[0]] + xs[1..];
    }
  }

  lemma {:induction false} SortKeepsSums(xs: seq<Strike>, key: Strike -> real, w: Strike -> real)
    ensures SumBy(SortBy(xs, key), w) == SumBy(xs, w)
  {
    if xs != [] {
      SortKeepsSums(xs[1..], key, w);
      InsertSums(xs[0], SortBy(xs[1..], key), key, w);
    }
  }

  // ----- the flip point -----

  // Net GEX is on one side of zero at strike i and on the other side, or zero, at a later one.
  ghost predicate ChangesSign(xs: seq<Strike>) {
    exists i, j :: 0 <= i < j < |xs| && Crosses(xs[i], xs[j])
  }

  ghost predicate FirstCrossing(xs: seq<Strike>, i: nat) {
    i + 1 < |xs| && Crosses(xs[i], xs[i + 1]) && forall k :: 0 <= k < i ==> !Crosses(xs[k], xs[k + 1])
  }

  lemma DivBounds(a: real, b: real)
    requires 0.0 <= a <= b && 0.0 < b
    ensures 0.0 <= a / b <= 1.0
  {
    var q := a / b;
    assert q * b == a;
    if q > 1.0 { MulPos(q - 1.0, b); }
    if q < 0.0 { MulPos(-q, b); }
  }

  lemma FractionInUnit(n: real, d: real)
    requires 0.0 < n <= d || d <= n < 0.0
    ensures 0.0 <= n / d <= 1.0
  {
    if 0.0 < n {
      DivBounds(n, d);
    } else {
      DivBounds(-n, -d);
      assert n / d == (-n) / (-d);
    }
  }

  lemma InterpolatedBetween(a: Strike, b: Strike)
    requires Crosses(a, b) && a.price <= b.price
    ensures a.net - b.net != 0.0 && a.price <= Interpolated(a, b) <= b.price
  {
    var t := a.net / (a.net - b.net);
    FractionInUnit(a.net, a.net - b.net);
    MulNonNeg(t, b.price - a.price);
    MulMono(t, 1.0, b.price - a.price);
  }

  // A sign change somewhere forces one between neighbours.
  lemma {:induction false} SignChangeHasNeighbours(xs: seq<Strike>, i: nat, j: nat)
    requires i < j < |xs| && Crosses(xs[i], xs[j])
    ensures exists k: nat :: k + 1 < |xs| && Crosses(xs[k], xs[k + 1])
    decreases j - i
  {
    if j == i + 1 {
      assert Crosses(xs[i], xs[i + 1]);
    } else if Crosses(xs[i], xs[i + 1]) {
    } else {
      SignChangeHasNeighbours(xs, i + 1, j);
    }
  }

  lemma {:induction false} FlipOfFirstCrossing(xs: seq<Strike>, i: nat)
    requires FirstCrossing(xs, i) && SortedBy(xs, PriceOf)
    ensures xs[i].net - xs[i + 1].net != 0.0
    ensures FindFlip(xs) == Some(Interpolated(xs[i], xs[i + 1]))
  {
    if i > 0 {
      assert !Crosses(xs[0], xs[1]);
      assert forall k :: 0 <= k < |xs| - 1 ==> xs[1..][k] == xs[k + 1];
      FlipOfFirstCrossing(xs[1..], i - 1);
    }
  }

  lemma {:induction false} NoCrossingNoFlip(xs: seq<Strike>)
    requires forall k: nat :: k + 1 < |xs| ==> !Crosses(xs[k], xs[k + 1])
    ensures FindFlip(xs).None?
  {
    if |xs| >= 2 {
      var rest := xs[1..];
      assert !Crosses(xs[0], xs[1]);
      forall k: nat | k + 1 < |rest|
        ensures !Crosses(rest[k], rest[k + 1])
      {
        var j := k + 1;
        assert rest[k] == xs[j] && rest[k + 1] == xs[j + 1];
      }
      NoCrossingNoFlip(rest);
    }
  }

  lemma FirstOf(xs: seq<Strike>, k: nat) returns (i: nat)
    requires k + 1 < |xs| && Crosses(xs[k], xs[k + 1])
    ensures FirstCrossing(xs, i)
  {
    i := 0;
    while !Crosses(xs[i], xs[i + 1])
      invariant i <= k && forall j :: 0 <= j < i ==> !Crosses(xs[j], xs[j + 1])
      decreases k - i
    {
      i := i + 1;
    }
  }

  // MAIN RESULT (a discrete intermediate value theorem). A flip point exists exactly when net GEX
  // changes sign along the ladder, and it lies between the prices of the first neighbours where it does.
  lemma FlipPointIff(data: seq<Strike>)
    ensures var xs := SortBy(data, PriceOf);
            && (FindFlip(xs).Some? <==> ChangesSign(xs))
            && (FindFlip(xs).Some? ==>
                  exists i: nat :: FirstCrossing(xs, i) && xs[i].price <= FindFlip(xs).value <= xs[i + 1].price)
  {
    var xs := SortBy(data, PriceOf);
    SortSorts(data, PriceOf);
    if k: nat :| k + 1 < |xs| && Crosses(xs[k], xs[k + 1]) {
      var i := FirstOf(xs, k);
      FlipOfFirstCrossing(xs, i);
      assert PriceOf(xs[i]) <= PriceOf(xs[i + 1]);
      InterpolatedBetween(xs[i], xs[i + 1]);
    } else {
      NoCrossingNoFlip(xs);
      if ChangesSign(xs) {
        var i, j :| 0 <= i < j < |xs| && Crosses(xs[i], xs[j]);
        SignChangeHasNeighbours(xs, i, j);
        assert false;
      }
    }
  }

  // ----- walls -----

  predicate CallSide(s: Strike, spot: real) {
    s.price > spot && s.net > 0.0
  }

  predicate PutSide(s: Strike, spot: real) {
    s.price < spot && s.net < 0.0
  }

  // The call wall is a strike above spot with positive net GEX that no other such strike exceeds;
  // it is missing exactly when there is no such strike.
  lemma {:induction false} CallWallIsHighest(xs: seq<Strike>, spot: real)
    ensures match BestCall(xs, spot)
            case None => forall s :: s in xs ==> !CallSide(s, spot)
            case Some(w) => w in xs && CallSide(w, spot) && forall s :: s in xs && CallSide(s, spot) ==> s.net <= w.net
  {
    if xs != [] {
      CallWallIsHighest(xs[1..], spot);
      assert forall s :: s in xs ==> s == xs[0] || s in xs[1..];
    }
  }

  // The put wall mirrors it: the most negative strike below spot.
  lemma {:induction false} PutWallIsLowest(xs: seq<Strike>, spot: real)
    ensures match BestPut(xs, spot)
            case None => forall s :: s in xs ==> !PutSide(s, spot)
            case Some(w) => w in xs && PutSide(w, spot) && forall s :: s in xs && PutSide(s, spot) ==> w.net <= s.net
  {
    if xs != [] {
      PutWallIsLowest(xs[1..], spot);
      assert forall s :: s in xs ==> s == xs[0] || s in xs[1..];
    }
  }

  // MAIN RESULT. A target is above spot for a call and below spot for a put, and without a trade there
  // is none.
  lemma TargetOnTheRightSide(p: Params, data: seq<Strike>, spot: real)
    requires spot > 0.0
    ensures var d := Detect(p, data, spot);
            && (d.direction.NoTrade? ==> d.target.None?)
            && (d.direction.GoCall? && d.target.Some? ==> d.target.value > spot)
            && (d.direction.GoPut? && d.target.Some? ==> d.target.value < spot)
            && (d.direction.GoPut? ==> d.regime.Negative? && d.flip.Some? && spot < d.flip.value)
  {
    CallWallIsHighest(SortBy(data, PriceOf), spot);
    PutWallIsLowest(SortBy(data, PriceOf), spot);
  }

  // ----- confidence -----

  lemma {:induction false} SumsBounded(xs: seq<Strike>)
    ensures Abs(SumBy(xs, NetOf)) <= SumBy(xs, SizeOf)
    ensures 0.0 <= SumBy(xs, SizeOf)
  {
    if xs != [] {
      SumsBounded(xs[1..]);
    }
  }

  lemma AbsDiv(a: real, b: real)
    requires 0.0 < b
    ensures Abs(a / b) == Abs(a) / b
  {
    var q := a / b;
    assert q * b == a;
    assert (-a) / b == -q;
    if a >= 0.0 {
      if q < 0.0 { MulPos(-q, b); }
    } else {
      if q >= 0.0 { MulNonNeg(q, b); }
    }
  }

  lemma Top3Bounded(xs: seq<Strike>)
    ensures 0.0 <= SumBy(Top3(xs), SizeOf) <= SumBy(xs, SizeOf)
  {
    var sorted := SortBy(xs, SmallnessOf);
    SortKeepsSums(xs, SmallnessOf, SizeOf);
    SumsBounded(Top3(xs));
    if |sorted| > 3 {
      assert sorted == sorted[..3] + sorted[3..];
      SumByAppend(sorted[..3], sorted[3..], SizeOf);
      SumsBounded(sorted[3..]);
    }
  }

  // MAIN RESULT. Structure confidence is always between 0 and 1.
  lemma ConfidenceInUnit(p: Params, data: seq<Strike>, spot: real)
    requires spot > 0.0
    ensures 0.0 <= Detect(p, data, spot).confidence <= 1.0
  {
    var xs := SortBy(data, PriceOf);
    SumsBounded(xs);
    if xs != [] && SumBy(xs, SizeOf) != 0.0 {
      var total := SumBy(xs, SizeOf);
      Top3Bounded(xs);
      DivBounds(SumBy(Top3(xs), SizeOf), total);
      AbsDiv(SumBy(xs, NetOf), total);
      DivBounds(Abs(SumBy(xs, NetOf)), total);
    }
  }

  lemma RatioSign(a: real, b: real)
    requires 0.0 < b
    ensures (a / b > 0.0 ==> a > 0.0) && (a / b < 0.0 ==> a < 0.0)
  {
    var q := a / b;
    assert q * b == a;
    if q > 0.0 { MulPos(q, b); }
    if q < 0.0 { MulPos(-q, b); }
  }

  lemma DirectionOfRegime(regime: Regime, spot: real, flip: Option<real>, c: Option<Wall>, p: Option<Wall>)
    ensures var r := ResolveDirection(regime, spot, flip, c, p);
            && (regime.Positive? ==> r.direction.GoCall? && r.setupType.Pin?)
            && (regime.Negative? ==> r.setupType.Momentum? && !r.direction.NoTrade?)
            && (regime.Mixed? <==> r.direction.NoTrade?)
  {
  }

  // A regime carries the sign of total net GEX, and any trade has at least the confidence asked for.
  lemma RegimeMatchesSign(p: Params, data: seq<Strike>, spot: real)
    requires spot > 0.0 && p.negative < 0.0 < p.positive
    ensures var d, net := Detect(p, data, spot), SumBy(data, NetOf);
            && (d.regime.Positive? ==> net > 0.0 && d.direction.GoCall? && d.setupType.Pin?)
            && (d.regime.Negative? ==> net < 0.0 && d.setupType.Momentum?)
            && (d.regime.Mixed? <==> d.direction.NoTrade?)
            && (!d.regime.Mixed? ==> d.confidence >= p.minConfidence)
  {
    var xs := SortBy(data, PriceOf);
    SortKeepsSums(data, PriceOf, NetOf);
    SumsBounded(xs);
    if SumBy(xs, SizeOf) != 0.0 {
      RatioSign(SumBy(xs, NetOf), SumBy(xs, SizeOf));
      var d := Detect(p, data, spot);
      DirectionOfRegime(d.regime, spot, d.flip, d.callWall, d.putWall);
    }
  }

  // ----- scaling -----

  function Times(a: real, k: real): real {
    a * k
  }

  function ScaledStrike(s: Strike, k: real): Strike {
    Strike(s.price, Times(s.net, k))
  }

  function ScaledAll(xs: seq<Strike>, k: real): (ys: seq<Strike>)
    ensures |ys| == |xs|
  {
    if xs == [] then [] else [ScaledStrike(xs[0], k)] + ScaledAll(xs[1..], k)
  }

  lemma TimesOrder(a: real, b: real, k: real)
    requires k > 0.0
    ensures a < b <==> Times(a, k) < Times(b, k)
  {
    assert Times(a, k) == a * k && Times(b, k) == b * k;
    if a < b {
      MulStrict(a, b, k);
    } else {
      MulMono(b, a, k);
    }
  }

  lemma TimesSign(a: real, k: real)
    requires k > 0.0
    ensures (a > 0.0 <==> Times(a, k) > 0.0) && (a < 0.0 <==> Times(a, k) < 0.0)
    ensures Abs(Times(a, k)) == Times(Abs(a), k)
  {
    TimesOrder(0.0, a, k);
    TimesOrder(a, 0.0, k);
  }

  lemma TimesSum(a: real, b: real, k: real)
    ensures Times(a + b, k) == Times(a, k) + Times(b, k)
    ensures Times(a - b, k) == Times(a, k) - Times(b, k)
  {
  }

  lemma SmallnessScaled(a: Strike, b: Strike, k: real)
    requires k > 0.0
    ensures SmallnessOf(a) <= SmallnessOf(b) <==> SmallnessOf(ScaledStrike(a, k)) <= SmallnessOf(ScaledStrike(b, k))
  {
    TimesSign(a.net, k);
    TimesSign(b.net, k);
    TimesOrder(Abs(a.net), Abs(b.net), k);
  }

  // A key that orders scaled strikes as it orders the originals.
  ghost predicate Respects(key: Strike -> real, k: real) {
    forall a, b {:trigger ScaledStrike(a, k), ScaledStrike(b, k)} ::
      key(a) <= key(b) <==> key(ScaledStrike(a, k)) <= key(ScaledStrike(b, k))
  }

  lemma {:induction false} ScaledInsert(x: Strike, xs: seq<Strike>, key: Strike -> real, k: real)
    requires Respects(key, k)
    ensures Insert(ScaledStrike(x, k), ScaledAll(xs, k), key) == ScaledAll(Insert(x, xs, key), k)
  {
    if xs != [] {
      var ys := ScaledAll(xs, k);
      assert ys[0] == ScaledStrike(xs[0], k) && ys[1..] == ScaledAll(xs[1..], k);
      if key(x) <= key(xs[0]) {
        assert ([x] + xs)[1..] == xs;
      } else {
        var rest := Insert(x, xs[1..], key);
        ScaledInsert(x, xs[1..], key, k);
        assert ([xs[0]] + rest)[1..] == rest;
      }
    }
  }

  lemma {:induction false} ScaledSort(xs: seq<Strike>, key: Strike -> real, k: real)
    requires Respects(key, k)
    ensures SortBy(ScaledAll(xs, k), key) == ScaledAll(SortBy(xs, key), k)
  {
    if xs != [] {
      ScaledSort(xs[1..], key, k);
      assert ScaledAll(xs, k)[1..] == ScaledAll(xs[1..], k);
      ScaledInsert(xs[0], SortBy(xs[1..], key), key, k);
    }
  }

  lemma {:induction false} ScaledSum(xs: seq<Strike>, w: Strike -> real, k: real)
    requires forall s :: w(ScaledStrike(s, k)) == Times(w(s), k)
    ensures SumBy(ScaledAll(xs, k), w) == Times(SumBy(xs, w), k)
  {
    if xs != [] {
      ScaledSum(xs[1..], w, k);
      assert ScaledAll(xs, k)[1..] == ScaledAll(xs[1..], k);
      TimesSum(w(xs[0]), SumBy(xs[1..], w), k);
    }
  }

  lemma ScaledSums(xs: seq<Strike>, k: real)
    requires k > 0.0
    ensures SumBy(ScaledAll(xs, k), NetOf) == Times(SumBy(xs, NetOf), k)
    ensures SumBy(ScaledAll(xs, k), SizeOf) == Times(SumBy(xs, SizeOf), k)
  {
    forall s ensures SizeOf(ScaledStrike(s, k)) == Times(SizeOf(s), k) {
      TimesSign(s.net, k);
    }
    ScaledSum(xs, NetOf, k);
    ScaledSum(xs, SizeOf, k);
  }

  lemma DivScaled(a: real, b: real, k: real)
    requires b != 0.0 && k > 0.0
    ensures Times(b, k) != 0.0 && Times(a, k) / Times(b, k) == a / b
  {
    TimesSign(b, k);
    var q := a / b;
    assert q * b == a;
    assert q * (b * k) == a * k;
  }

  lemma InterpolatedScaled(a: Strike, b: Strike, k: real)
    requires k > 0.0 && a.net - b.net != 0.0
    ensures ScaledStrike(a, k).net - ScaledStrike(b, k).net == Times(a.net - b.net, k) != 0.0
    ensures Interpolated(ScaledStrike(a, k), ScaledStrike(b, k)) == Interpolated(a, b)
  {
    TimesSum(a.net, b.net, k);
    DivScaled(a.net, a.net - b.net, k);
  }

  lemma {:induction false} ScaledFlip(xs: seq<Strike>, k: real)
    requires k > 0.0
    ensures FindFlip(ScaledAll(xs, k)) == FindFlip(xs)
  {
    if |xs| >= 2 {
      var a, b := xs[0], xs[1];
      var ys := ScaledAll(xs, k);
      TimesSign(a.net, k);
      TimesSign(b.net, k);
      ScaledFlip(xs[1..], k);
      assert ys[1..] == ScaledAll(xs[1..], k) && ys[0] == ScaledStrike(a, k) && ys[1] == ScaledStrike(b, k);
      if Crosses(a, b) {
        InterpolatedScaled(a, b, k);
      }
    }
  }

  function ScaledChoice(s: Option<Strike>, k: real): Option<Strike> {
    match s case None => None case Some(x) => Some(ScaledStrike(x, k))
  }

  lemma {:induction false} ScaledWalls(xs: seq<Strike>, spot: real, k: real)
    requires k > 0.0
    ensures BestCall(ScaledAll(xs, k), spot) == ScaledChoice(BestCall(xs, spot), k)
    ensures BestPut(ScaledAll(xs, k), spot) == ScaledChoice(BestPut(xs, spot), k)
  {
    if xs != [] {
      var rest, s := xs[1..], xs[0];
      ScaledWalls(rest, spot, k);
      assert ScaledAll(xs, k)[1..] == ScaledAll(rest, k);
      TimesSign(s.net, k);
      if BestCall(rest, spot).Some? { TimesOrder(s.net, BestCall(rest, spot).value.net, k); }
      if BestPut(rest, spot).Some? { TimesOrder(BestPut(rest, spot).value.net, s.net, k); }
    }
  }

  lemma SmallnessRespects(k: real)
    requires k > 0.0
    ensures Respects(SmallnessOf, k)
  {
    forall a: Strike, b: Strike
      ensures SmallnessOf(a) <= SmallnessOf(b) <==> SmallnessOf(ScaledStrike(a, k)) <= SmallnessOf(ScaledStrike(b, k))
    {
      SmallnessScaled(a, b, k);
    }
  }

  lemma ScaledTop3(xs: seq<Strike>, k: real)
    requires k > 0.0
    ensures Top3(ScaledAll(xs, k)) == ScaledAll(Top3(xs), k)
  {
    SmallnessRespects(k);
    ScaledSort(xs, SmallnessOf, k);
    var sorted := SortBy(xs, SmallnessOf);
    if |sorted| > 3 {
      ScaledPrefix(sorted, 3, k);
    }
  }

  lemma {:induction false} ScaledPrefix(xs: seq<Strike>, n: nat, k: real)
    requires n <= |xs|
    ensures ScaledAll(xs, k)[..n] == ScaledAll(xs[..n], k)
  {
    if n > 0 {
      ScaledPrefix(xs[1..], n - 1, k);
      assert xs[..n][1..] == xs[1..][..n - 1];
      assert ScaledAll(xs, k)[..n] == [ScaledStrike(xs[0], k)] + ScaledAll(xs[1..], k)[..n - 1];
    }
  }

  lemma ScaledRatios(xs: seq<Strike>, k: real)
    requires k > 0.0 && SumBy(xs, SizeOf) != 0.0
    ensures SumBy(ScaledAll(xs, k), SizeOf) != 0.0
    ensures Ratio(ScaledAll(xs, k)) == Ratio(xs) && Confidence(ScaledAll(xs, k)) == Confidence(xs)
  {
    ScaledSums(xs, k);
    ScaledTop3(xs, k);
    ScaledSums(Top3(xs), k);
    DivScaled(SumBy(xs, NetOf), SumBy(xs, SizeOf), k);
    DivScaled(SumBy(Top3(xs), SizeOf), SumBy(xs, SizeOf), k);
  }

  // The features of a scaled ladder, once it is sorted.
  lemma ScaledFeatures(xs: seq<Strike>, spot: real, k: real)
    requires spot > 0.0 && k > 0.0
    ensures FindFlip(ScaledAll(xs, k)) == FindFlip(xs)
    ensures StrikeOf(WallAt(BestCall(ScaledAll(xs, k), spot), spot)) == StrikeOf(WallAt(BestCall(xs, spot), spot))
    ensures StrikeOf(WallAt(BestPut(ScaledAll(xs, k), spot), spot)) == StrikeOf(WallAt(BestPut(xs, spot), spot))
  {
    ScaledFlip(xs, k);
    ScaledWalls(xs, spot, k);
  }

  lemma DirectionByStrikes(
    regime: Regime, spot: real, flip: Option<real>, c: Option<Wall>, c': Option<Wall>, p: Option<Wall>,
        p': Option<Wall>)
    requires StrikeOf(c) == StrikeOf(c') && StrikeOf(p) == StrikeOf(p')
    ensures ResolveDirection(regime, spot, flip, c, p) == ResolveDirection(regime, spot, flip, c', p')
  {
  }

  // MAIN RESULT. Scaling all GEX by a positive factor changes nothing but the walls' recorded GEX.
  lemma DetectIsScaleFree(p: Params, data: seq<Strike>, spot: real, k: real)
    requires spot > 0.0 && k > 0.0
    ensures var a, b := Detect(p, data, spot), Detect(p, ScaledAll(data, k), spot);
            && b == a.(callWall := b.callWall, putWall := b.putWall)
            && StrikeOf(b.callWall) == StrikeOf(a.callWall) && StrikeOf(b.putWall) == StrikeOf(a.putWall)
  {
    var xs := SortBy(data, PriceOf);
    ScaledSort(data, PriceOf, k);
    var ys := ScaledAll(xs, k);
    assert SortBy(ScaledAll(data, k), PriceOf) == ys;
    if SumBy(xs, SizeOf) == 0.0 {
      ScaledSums(xs, k);
    } else {
      ScaledRatios(xs, k);
      ScaledFeatures(xs, spot, k);
      DirectionByStrikes(
        RegimeFor(p, Confidence(xs), Ratio(xs)), spot, FindFlip(xs),
        WallAt(BestCall(xs, spot), spot), WallAt(BestCall(ys, spot), spot),
        WallAt(BestPut(xs, spot), spot), WallAt(BestPut(ys, spot), spot));
    }
  }
}
