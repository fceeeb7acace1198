/** The prediction-derivation pipeline behind the dashboard's
    "Update Prediction": look the points up, drop the ones below the
    confidence threshold, and optionally scale each surviving price by
    the weather of the day at the same position. */
module Derivation {
  import opened Wrappers
  import opened Subsequences
  import opened MockData

  // ---------------------------------------------------------------------------
  // Confidence filter
  // ---------------------------------------------------------------------------

  /** The points whose confidence reaches the threshold (inclusive), in
      their original order. */
  function FilterByConfidence(s: seq<PricePoint>, threshold: real): (r: seq<PricePoint>)
    ensures |r| <= |s|
  {
    if s == [] then []
    else if s[0].confidence >= threshold then [s[0]] + FilterByConfidence(s[1..], threshold)
    else FilterByConfidence(s[1..], threshold)
  }

  /** A point survives exactly when it is in the input and its confidence
      is at least the threshold; a point equal to the threshold is kept. */
  lemma {:induction false} FilterKeepsExactly(s: seq<PricePoint>, threshold: real)
    ensures forall p :: p in FilterByConfidence(s, threshold) <==> p in s && p.confidence >= threshold
  {
    if s != [] {
      FilterKeepsExactly(s[1..], threshold);
      assert s == [s[0]] + s[1..];
    }
  }

  /** Filtering only deletes points; it never reorders them. */
  lemma {:induction false} FilterIsSubsequence(s: seq<PricePoint>, threshold: real)
    ensures IsSubsequence(FilterByConfidence(s, threshold), s)
  {
    if s != [] {
      var rest := FilterByConfidence(s[1..], threshold);
      FilterIsSubsequence(s[1..], threshold);
      if s[0].confidence >= threshold {
        assert ([s[0]] + rest)[1..] == rest;
      } else if rest != [] {
        FilterKeepsExactly(s[1..], threshold);
        assert rest[0] in rest;
      }
    }
  }

  /** Every surviving point occurs as often as in the input; every dropped
      one does not occur at all. */
  lemma {:induction false} FilterMultiplicities(s: seq<PricePoint>, threshold: real)
    ensures forall p :: multiset(FilterByConfidence(s, threshold))[p]
                        == if p.confidence >= threshold then multiset(s)[p] else 0
  {
    if s != [] {
      FilterMultiplicities(s[1..], threshold);
      assert s == [s[0]] + s[1..];
    }
  }

  /** The two properties above determine the filter's output: any
      subsequence of the input with those multiplicities is that output. */
  lemma {:induction false} FilterUnique(s: seq<PricePoint>, threshold: real, r: seq<PricePoint>)
    requires IsSubsequence(r, s)
    requires forall p :: multiset(r)[p] == if p.confidence >= threshold then multiset(s)[p] else 0
    ensures r == FilterByConfidence(s, threshold)
  {
    if s == [] {
      assert multiset(r) == multiset{};
    } else {
      var x := s[0];
      assert s == [x] + s[1..];
      if x.confidence >= threshold {
        assert multiset(r)[x] > 0;
        assert r != [];
        assert r == [r[0]] + r[1..];
        if r[0] != x {
          SubsequenceBounds(r, s[1..]);
          assert false;
        }
        forall p
          ensures multiset(r[1..])[p] == if p.confidence >= threshold then multiset(s[1..])[p] else 0
        {
          assert multiset(r)[p] == multiset{x}[p] + multiset(r[1..])[p];
          assert multiset(s)[p] == multiset{x}[p] + multiset(s[1..])[p];
        }
        FilterUnique(s[1..], threshold, r[1..]);
      } else {
        assert x !in r by { assert multiset(r)[x] == 0; }
        assert IsSubsequence(r, s[1..]);
        forall p
          ensures multiset(r)[p] == if p.confidence >= threshold then multiset(s[1..])[p] else 0
        {
          assert multiset(s)[p] == multiset{x}[p] + multiset(s[1..])[p];
        }
        FilterUnique(s[1..], threshold, r);
      }
    }
  }

  /** The filter returns its input unchanged exactly when every point
      reaches the threshold. */
  lemma {:induction false} FilterAllPass(s: seq<PricePoint>, threshold: real)
    ensures FilterByConfidence(s, threshold) == s
            <==> forall i :: 0 <= i < |s| ==> s[i].confidence >= threshold
  {
    if forall i :: 0 <= i < |s| ==> s[i].confidence >= threshold {
      if s != [] {
        FilterAllPass(s[1..], threshold);
        assert forall i :: 0 <= i < |s[1..]| ==> s[1..][i].confidence >= threshold by {
          forall i | 0 <= i < |s[1..]| ensures s[1..][i].confidence >= threshold {
            assert s[1..][i] == s[i + 1];
          }
        }
        assert s == [s[0]] + s[1..];
      }
    } else {
      var i :| 0 <= i < |s| && s[i].confidence < threshold;
      FilterKeepsExactly(s, threshold);
      assert s[i] in s;
    }
  }

  /** Filtering at a lower threshold first and then at a higher one is the
      same as filtering at the higher one. */
  lemma {:induction false} FilterTwice(s: seq<PricePoint>, lower: real, higher: real)
    requires lower <= higher
    ensures FilterByConfidence(FilterByConfidence(s, lower), higher) == FilterByConfidence(s, higher)
  {
    if s != [] {
      FilterTwice(s[1..], lower, higher);
      if s[0].confidence >= lower {
        assert ([s[0]] + FilterByConfidence(s[1..], lower))[1..] == FilterByConfidence(s[1..], lower);
      }
    }
  }

  /** Raising the threshold never yields more points: the output for the
      higher threshold is a subsequence of the output for the lower one. */
  lemma FilterMonotone(s: seq<PricePoint>, lower: real, higher: real)
    requires lower <= higher
    ensures IsSubsequence(FilterByConfidence(s, higher), FilterByConfidence(s, lower))
    ensures |FilterByConfidence(s, higher)| <= |FilterByConfidence(s, lower)|
  {
    FilterTwice(s, lower, higher);
    FilterIsSubsequence(FilterByConfidence(s, lower), higher);
  }

  // ---------------------------------------------------------------------------
  // Weather adjustment
  // ---------------------------------------------------------------------------

  /** The multiplier for one day: one percent per degree above 22 degrees
      Celsius plus one per mille per millimetre of rain. */
  function AdjustmentFactor(temperature: real, rainfall: real): real
  {
    1.0 + (temperature - 22.0) / 100.0 + rainfall / 1000.0
  }

  /** The weather series has a reading for each of the first `n` positions. */
  predicate Covers(w: WeatherSeries, n: nat)
  {
    n <= |w.temperature| && n <= |w.rainfall|
  }

  /** Adjusts `s`, whose first point sits at position `start` of the series. */
  function AdjustFrom(s: seq<PricePoint>, w: WeatherSeries, start: nat): (r: seq<PricePoint>)
    requires Covers(w, start + |s|)
    ensures |r| == |s|
    decreases |s|
  {
    if s == [] then []
    else
      [s[0].(price := s[0].price * AdjustmentFactor(w.temperature[start], w.rainfall[start]))]
      + AdjustFrom(s[1..], w, start + 1)
  }

  lemma {:induction false} AdjustFromAt(s: seq<PricePoint>, w: WeatherSeries, start: nat)
    requires Covers(w, start + |s|)
    ensures forall i :: 0 <= i < |s| ==>
              AdjustFrom(s, w, start)[i]
              == s[i].(price := s[i].price * AdjustmentFactor(w.temperature[start + i], w.rainfall[start + i]))
    decreases |s|
  {
    if s != [] {
      AdjustFromAt(s[1..], w, start + 1);
      forall i | 1 <= i < |s|
        ensures AdjustFrom(s, w, start)[i] == AdjustFrom(s[1..], w, start + 1)[i - 1]
      {
      }
    }
  }

  /** The weather step: the point at position `i` keeps its date and
      confidence and has its price scaled by the factor of day `i`. */
  function WeatherAdjust(s: seq<PricePoint>, w: WeatherSeries): (r: seq<PricePoint>)
    requires Covers(w, |s|)
    ensures |r| == |s|
    ensures forall i :: 0 <= i < |s| ==>
              && r[i].date == s[i].date
              && r[i].confidence == s[i].confidence
              && r[i].price == s[i].price * AdjustmentFactor(w.temperature[i], w.rainfall[i])
  {
    AdjustFromAt(s, w, 0);
    AdjustFrom(s, w, 0)
  }

  // ---------------------------------------------------------------------------
  // The whole derivation
  // ---------------------------------------------------------------------------

  /** Filter, then adjust when the weather switch is on. With weather on,
      the series must reach as far as the filtered sequence. */
  function DeriveFrom(points: seq<PricePoint>, threshold: real, weatherImpact: bool, w: WeatherSeries)
    : (r: seq<PricePoint>)
    requires weatherImpact ==> Covers(w, |FilterByConfidence(points, threshold)|)
    ensures |r| == |FilterByConfidence(points, threshold)| <= |points|
    ensures !weatherImpact ==> r == FilterByConfidence(points, threshold)
    ensures forall i :: 0 <= i < |r| ==>
              && r[i].date == FilterByConfidence(points, threshold)[i].date
              && r[i].confidence == FilterByConfidence(points, threshold)[i].confidence
    ensures weatherImpact ==> forall i :: 0 <= i < |r| ==>
              r[i].price == FilterByConfidence(points, threshold)[i].price
                            * AdjustmentFactor(w.temperature[i], w.rainfall[i])
  {
    var filtered := FilterByConfidence(points, threshold);
    if weatherImpact then WeatherAdjust(filtered, w) else filtered
  }

  /** Every derived point, adjusted or not, reaches the threshold. */
  lemma DerivedPointsReachThreshold(points: seq<PricePoint>, threshold: real, weatherImpact: bool, w: WeatherSeries)
    requires weatherImpact ==> Covers(w, |FilterByConfidence(points, threshold)|)
    ensures forall i :: 0 <= i < |DeriveFrom(points, threshold, weatherImpact, w)| ==>
              DeriveFrom(points, threshold, weatherImpact, w)[i].confidence >= threshold
  {
    var filtered := FilterByConfidence(points, threshold);
    FilterKeepsExactly(points, threshold);
    assert forall i :: 0 <= i < |filtered| ==> filtered[i] in filtered;
  }

  /** What one run of the dashboard's prediction handler produces. */
  datatype Outcome =
    | NotRequested                      // crop or timeframe is empty: nothing runs
    | LookupFailed                      // no data for the pair: the handler throws
    | Derived(points: seq<PricePoint>)  // the points handed to the chart

  /** The handler over the shipped data. The shipped timeframes hold at most
      seven points, so the seven-day weather series always covers them. */
  function HandlePrediction(crop: string, timeframe: string, threshold: real, weatherImpact: bool)
    : (r: Outcome)
    ensures r.NotRequested? <==> crop == "" || timeframe == ""
    ensures r.LookupFailed? <==> crop != "" && timeframe != "" && Lookup(crop, timeframe).None?
    ensures r.Derived? <==> crop == "wheat" && timeframe in {"1week", "1month", "3months"}
    ensures r.Derived? ==>
              && Lookup(crop, timeframe).Some?
              && r.points == DeriveFrom(Lookup(crop, timeframe).value, threshold, weatherImpact, MockWeather)
  {
    if crop == "" || timeframe == "" then NotRequested
    else
      match Lookup(crop, timeframe)
      case None => LookupFailed
      case Some(points) => Derived(DeriveFrom(points, threshold, weatherImpact, MockWeather))
  }

  /** For every populated timeframe and every threshold, the filtered
      sequence fits inside the weather series. */
  lemma ShippedDataFitsWeather(timeframe: string, threshold: real)
    requires Lookup("wheat", timeframe).Some?
    ensures |FilterByConfidence(Lookup("wheat", timeframe).value, threshold)| <= 7
    ensures Covers(MockWeather, |FilterByConfidence(Lookup("wheat", timeframe).value, threshold)|)
  {
  }

  /** Raising the threshold, all else equal, never shows more points. */
  lemma HandlePredictionMonotone(crop: string, timeframe: string, lower: real, higher: real, weatherImpact: bool)
    requires lower <= higher
    ensures HandlePrediction(crop, timeframe, higher, weatherImpact).Derived?
            == HandlePrediction(crop, timeframe, lower, weatherImpact).Derived?
    ensures HandlePrediction(crop, timeframe, higher, weatherImpact).Derived? ==>
              |HandlePrediction(crop, timeframe, higher, weatherImpact).points|
              <= |HandlePrediction(crop, timeframe, lower, weatherImpact).points|
  {
    if HandlePrediction(crop, timeframe, higher, weatherImpact).Derived? {
      FilterMonotone(Lookup(crop, timeframe).value, lower, higher);
    }
  }
}
