/** What a detected setup says about the strikes it was detected from (src/trader/gex/detector.py). */
module GexMeaning {
  import opened Common
  import opened Schemas
  import opened GexDetectors
  import opened GexTheorems

  function Magnitude(s: Strike): real {
    if s.net >= 0.0 then s.net else -s.net
  }

  function Signed(s: Strike): real {
    s.net
  }

  function Gross(xs: seq<Strike>): real {
    SumBy(xs, Magnitude)
  }

  function Net(xs: seq<Strike>): real {
    SumBy(xs, Signed)
  }

  lemma {:induction false} SumsAre(xs: seq<Strike>)
    ensures SumBy(xs, SizeOf) == Gross(xs) && SumBy(xs, NetOf) == Net(xs)
  {
    if xs != [] {
      SumsAre(xs[1..]);
    }
  }

  lemma SortedSums(data: seq<Strike>)
    ensures var xs := SortBy(data, PriceOf);
            && SumBy(xs, SizeOf) == Gross(data) >= 0.0 && SumBy(xs, NetOf) == Net(data)
            && (xs == [] ==> Gross(data) == 0.0)
  {
    SortKeepsSums(data, PriceOf, SizeOf);
    SortKeepsSums(data, PriceOf, NetOf);
    SumsAre(data);
    SumsBounded(data);
  }

  // ----- confidence and regime -----

  // `top` holds up to three of the strikes, none of the others is larger, and nothing is lost.
  ghost predicate LargestThree(data: seq<Strike>, top: seq<Strike>, rest: seq<Strike>) {
    && multiset(top) + multiset(rest) == multiset(data)
    && |top| <= 3 && (rest != [] ==> |top| == 3)
    && forall i, j :: 0 <= i < |top| && 0 <= j < |rest| ==> Magnitude(rest[j]) <= Magnitude(top[i])
  }

  lemma TopOfSorted(data: seq<Strike>) returns (rest: seq<Strike>)
    ensures LargestThree(data, Top3(SortBy(data, PriceOf)), rest)
  {
    var xs := SortBy(data, PriceOf);
    var sorted := SortBy(xs, SmallnessOf);
    SortSorts(data, PriceOf);
    SortSorts(xs, SmallnessOf);
    rest := if |sorted| > 3 then sorted[3..] else [];
    assert sorted == Top3(xs) + rest;
    forall i, j | 0 <= i < |Top3(xs)| && 0 <= j < |rest|
      ensures Magnitude(rest[j]) <= Magnitude(Top3(xs)[i])
    {
      assert rest[j] == sorted[3 + j] && Top3(xs)[i] == sorted[i];
      assert SmallnessOf(sorted[i]) <= SmallnessOf(sorted[3 + j]);
    }
  }

  function Portion(share: real, whole: real): real {
    share * whole
  }

  lemma QuotientTimes(a: real, b: real)
    requires b != 0.0
    ensures Portion(a / b, b) == a
  {
  }

  // The smaller of two shares of one whole.
  lemma SmallerShare(a: real, b: real, whole: real)
    requires whole > 0.0
    ensures Portion(Min(a / whole, b / whole), whole) == Min(a, b)
  {
    QuotientTimes(a, whole);
    QuotientTimes(b, whole);
    if a / whole <= b / whole {
      MulMono(a / whole, b / whole, whole);
    } else {
      MulMono(b / whole, a / whole, whole);
    }
  }

  lemma ShareAtLeast(a: real, whole: real, share: real)
    requires whole > 0.0
    ensures a / whole >= share <==> a >= Portion(share, whole)
    ensures a / whole <= share <==> a <= Portion(share, whole)
  {
    var q := a / whole;
    assert q * whole == a;
    if q > share {
      MulStrict(share, q, whole);
    } else if q < share {
      MulStrict(q, share, whole);
    }
  }

  lemma RegimeOfShares(p: Params, confidence: real, net: real, gross: real)
    requires gross > 0.0
    ensures var regime := RegimeFor(p, confidence, net / gross);
            && (regime.Positive? <==> confidence >= p.minConfidence && net >= Portion(p.positive, gross))
            && (regime.Negative? <==>
                confidence >= p.minConfidence && net < Portion(p.positive, gross) && net <= Portion(p.negative, gross))
  {
    ShareAtLeast(net, gross, p.positive);
    ShareAtLeast(net, gross, p.negative);
  }

  lemma ConfidenceOfShares(xs: seq<Strike>)
    requires SumBy(xs, SizeOf) > 0.0
    ensures Portion(Confidence(xs), SumBy(xs, SizeOf)) == Min(SumBy(Top3(xs), SizeOf), Abs(SumBy(xs, NetOf)))
  {
    AbsDiv(SumBy(xs, NetOf), SumBy(xs, SizeOf));
    SmallerShare(SumBy(Top3(xs), SizeOf), Abs(SumBy(xs, NetOf)), SumBy(xs, SizeOf));
  }

  // MAIN RESULT. Confidence is the smaller of two shares of gross GEX, that of the three largest strikes and that
  // of the net; the regime is the side on which the net passes its threshold, if there is confidence enough.
  lemma RegimeMeans(p: Params, data: seq<Strike>, spot: real) returns (top: seq<Strike>, rest: seq<Strike>)
    requires spot > 0.0 && Gross(data) != 0.0
    ensures LargestThree(data, top, rest)
    ensures var d, net, gross := Detect(p, data, spot), Net(data), Gross(data);
            && d.spot == spot && gross > 0.0
            && Portion(d.confidence, gross) == Min(Gross(top), if net >= 0.0 then net else -net)
            && (d.regime.Positive? <==> d.confidence >= p.minConfidence && net >= Portion(p.positive, gross))
            && (d.regime.Negative? <==>
                d.confidence >= p.minConfidence
                && net < Portion(p.positive, gross) && net <= Portion(p.negative, gross))
  {
    var xs := SortBy(data, PriceOf);
    SortedSums(data);
    top := Top3(xs);
    rest := TopOfSorted(data);
    SumsAre(top);
    ConfidenceOfShares(xs);
    RegimeOfShares(p, Confidence(xs), Net(data), Gross(data));
    DetectedShares(p, data, spot);
  }

  lemma DetectedShares(p: Params, data: seq<Strike>, spot: real)
    requires spot > 0.0 && Gross(data) != 0.0
    ensures var d, xs := Detect(p, data, spot), SortBy(data, PriceOf);
            && SumBy(xs, SizeOf) != 0.0
            && d.spot == spot && d.confidence == Confidence(xs)
            && d.regime == RegimeFor(p, Confidence(xs), Net(data) / Gross(data))
  {
    SortedSums(data);
  }

  // Without any GEX there is nothing to say.
  lemma NothingDetected(p: Params, data: seq<Strike>, spot: real)
    requires spot > 0.0 && Gross(data) == 0.0
    ensures Detect(p, data, spot) == Setup(spot, Mixed, None, None, None, None, NoTrade, NoSetup, 0.0)
  {
    SortedSums(data);
  }

  // ----- direction and target -----

  // MAIN RESULT. A negative regime with spot below the flip point goes to a put, aiming at the put wall; any other
  // positive or negative regime goes to a call, aiming at the call wall; a mixed one does not trade.
  lemma DirectionMeans(p: Params, data: seq<Strike>, spot: real)
    requires spot > 0.0
    ensures var d := Detect(p, data, spot);
            var below := d.flip.Some? && spot < d.flip.value;
            && (d.direction.GoPut? <==> d.regime.Negative? && below)
            && (d.direction.GoCall? <==> d.regime.Positive? || (d.regime.Negative? && !below))
            && (d.setupType.Pin? <==> d.regime.Positive?) && (d.setupType.Momentum? <==> d.regime.Negative?)
            && match d.direction
               case NoTrade => d.target.None?
               case GoCall => AimsAt(d.target, d.callWall)
               case GoPut => AimsAt(d.target, d.putWall)
  {
  }

  predicate AimsAt(target: Option<real>, wall: Option<Wall>) {
    if wall.None? then target.None? else target == Some(wall.value.strike)
  }

  // ----- walls -----

  lemma {:induction false} FirstOfEqualWalls(xs: seq<Strike>, spot: real)
    requires SortedBy(xs, PriceOf)
    ensures BestCall(xs, spot).Some? ==>
              forall s :: s in xs && CallSide(s, spot) && s.net == BestCall(xs, spot).value.net ==>
                BestCall(xs, spot).value.price <= s.price
    ensures BestPut(xs, spot).Some? ==>
              forall s :: s in xs && PutSide(s, spot) && s.net == BestPut(xs, spot).value.net ==>
                BestPut(xs, spot).value.price <= s.price
  {
    if xs != [] {
      var rest := xs[1..];
      assert forall k :: 0 <= k < |rest| ==> rest[k] == xs[k + 1];
      FirstOfEqualWalls(rest, spot);
      CallWallIsHighest(rest, spot);
      PutWallIsLowest(rest, spot);
      forall s | s in xs ensures PriceOf(xs[0]) <= PriceOf(s) {
        var k :| 0 <= k < |xs| && xs[k] == s;
      }
      assert forall s :: s in xs ==> s == xs[0] || s in rest;
    }
  }

  // The wall is one of these strikes with the largest magnitude among them, the lowest of equal ones, and its
  // distance is a share of spot; it is missing when there is none.
  ghost predicate IsWall(wall: Option<Wall>, side: set<Strike>, spot: real) {
    match wall
    case None => side == {}
    case Some(w) =>
      && (exists s :: s in side && s.price == w.strike && s.net == w.netGex)
      && (forall s :: s in side ==> Magnitude(s) <= (if w.netGex >= 0.0 then w.netGex else -w.netGex))
      && (forall s :: s in side && s.net == w.netGex ==> w.strike <= s.price)
      && Portion(w.distance, spot) == if w.strike >= spot then w.strike - spot else spot - w.strike
  }

  function LongAbove(data: seq<Strike>, spot: real): set<Strike> {
    set s | s in data && s.price > spot && s.net > 0.0
  }

  function ShortBelow(data: seq<Strike>, spot: real): set<Strike> {
    set s | s in data && s.price < spot && s.net < 0.0
  }

  lemma SortedMembers(data: seq<Strike>)
    ensures forall s :: s in SortBy(data, PriceOf) <==> s in data
  {
    SortSorts(data, PriceOf);
    assert forall s :: s in data <==> s in multiset(data);
    assert forall s :: s in SortBy(data, PriceOf) <==> s in multiset(SortBy(data, PriceOf));
  }

  lemma CallWallMeans(data: seq<Strike>, spot: real)
    requires spot > 0.0
    ensures IsWall(WallAt(BestCall(SortBy(data, PriceOf), spot), spot), LongAbove(data, spot), spot)
  {
    var xs := SortBy(data, PriceOf);
    SortSorts(data, PriceOf);
    SortedMembers(data);
    CallWallIsHighest(xs, spot);
    FirstOfEqualWalls(xs, spot);
    WallShare(BestCall(xs, spot), spot);
    var best := BestCall(xs, spot);
    assert best.Some? ==> best.value in LongAbove(data, spot);
  }

  lemma PutWallMeans(data: seq<Strike>, spot: real)
    requires spot > 0.0
    ensures IsWall(WallAt(BestPut(SortBy(data, PriceOf), spot), spot), ShortBelow(data, spot), spot)
  {
    var xs := SortBy(data, PriceOf);
    SortSorts(data, PriceOf);
    SortedMembers(data);
    PutWallIsLowest(xs, spot);
    FirstOfEqualWalls(xs, spot);
    WallShare(BestPut(xs, spot), spot);
    var best := BestPut(xs, spot);
    assert best.Some? ==> best.value in ShortBelow(data, spot);
  }

  // MAIN RESULT. Call and put wall are the strikes of largest positive net GEX above spot and of largest negative
  // net GEX below it.
  lemma WallsMean(p: Params, data: seq<Strike>, spot: real)
    requires spot > 0.0
    ensures IsWall(Detect(p, data, spot).callWall, LongAbove(data, spot), spot)
    ensures IsWall(Detect(p, data, spot).putWall, ShortBelow(data, spot), spot)
  {
    SortedSums(data);
    if Gross(data) == 0.0 {
      NothingDetected(p, data, spot);
      NoGexAnywhere(data);
    } else {
      CallWallMeans(data, spot);
      PutWallMeans(data, spot);
    }
  }

  lemma WallShare(s: Option<Strike>, spot: real)
    requires spot > 0.0
    ensures WallAt(s, spot).Some? ==> Portion(WallAt(s, spot).value.distance, spot) == Abs(s.value.price - spot)
  {
    if s.Some? {
      QuotientTimes(Abs(s.value.price - spot), spot);
    }
  }

  lemma {:induction false} NoGexAnywhere(xs: seq<Strike>)
    requires Gross(xs) == 0.0
    ensures forall s :: s in xs ==> s.net == 0.0
  {
    if xs != [] {
      SumsAre(xs[1..]);
      SumsBounded(xs[1..]);
      NoGexAnywhere(xs[1..]);
      assert forall s :: s in xs ==> s == xs[0] || s in xs[1..];
    }
  }

  // ----- the flip point -----

  // Net GEX is on one side of zero at the lower strike, and at zero or on the other side at the higher one.
  predicate Flips(a: Strike, b: Strike) {
    if a.net > 0.0 then b.net <= 0.0 else a.net < 0.0 && b.net >= 0.0
  }

  ghost predicate FirstFlip(xs: seq<Strike>, i: nat) {
    i + 1 < |xs| && Flips(xs[i], xs[i + 1]) && forall k: nat :: k < i ==> !Flips(xs[k], xs[k + 1])
  }

  // MAIN RESULT. The flip point is where the straight line through the first such neighbours is zero.
  lemma {:induction false} FlipMeans(p: Params, data: seq<Strike>, spot: real)
    requires spot > 0.0 && Gross(data) != 0.0
    ensures var flip, xs := Detect(p, data, spot).flip, SortBy(data, PriceOf);
            if flip.None? then forall i: nat :: !FirstFlip(xs, i)
            else exists i: nat :: FirstFlip(xs, i) && ZeroAt(xs[i], xs[i + 1], flip.value)
  {
    var xs := SortBy(data, PriceOf);
    SortSorts(data, PriceOf);
    SortedSums(data);
    assert forall a, b :: Flips(a, b) <==> Crosses(a, b);
    if k: nat :| k + 1 < |xs| && Crosses(xs[k], xs[k + 1]) {
      var i := FirstOf(xs, k);
      FlipOfFirstCrossing(xs, i);
      LineIsZero(xs[i], xs[i + 1]);
      assert FirstFlip(xs, i);
    } else {
      NoCrossingNoFlip(xs);
    }
  }

  // The line from a to b passes through zero at price x.
  predicate ZeroAt(a: Strike, b: Strike, x: real) {
    (x - a.price) * (a.net - b.net) == a.net * (b.price - a.price)
  }

  lemma LineIsZero(a: Strike, b: Strike)
    requires a.net - b.net != 0.0
    ensures ZeroAt(a, b, Interpolated(a, b))
  {
    var t, width := a.net / (a.net - b.net), b.price - a.price;
    QuotientTimes(a.net, a.net - b.net);
    assert Interpolated(a, b) - a.price == t * width;
    assert t * width * (a.net - b.net) == t * (a.net - b.net) * width;
  }
}
