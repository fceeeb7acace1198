/** The derivation on the shipped wheat data, worked out point by point. */
module Scenarios {
  import opened MockData
  import opened Derivation

  /** At the default threshold 0.8 every one-week point survives and, with
      the weather switch off, no price changes. */
  lemma Wheat1WeekDefaultThreshold()
    ensures HandlePrediction("wheat", "1week", 0.8, false) == Derived(Wheat1Week)
    ensures |Wheat1Week| == 7
  {
  }

  /** At threshold 0.94 only the first and the third point survive; the
      third, whose confidence equals the threshold, is kept. */
  lemma Wheat1WeekThreshold094()
    ensures HandlePrediction("wheat", "1week", 0.94, false)
            == Derived([PricePoint("2024-03-01", 220.0, 0.95), PricePoint("2024-03-03", 223.0, 0.94)])
  {
  }

  /** All seven one-week points at threshold 0.8 with the weather switch on:
      220 * 0.98 = 215.6 on day 0, 225 * 1.005 = 226.125 on day 1, and so on. */
  lemma Wheat1WeekWeather()
    ensures HandlePrediction("wheat", "1week", 0.8, true) == Derived([
      PricePoint("2024-03-01", 215.6, 0.95),
      PricePoint("2024-03-02", 226.125, 0.93),
      PricePoint("2024-03-03", 223.0, 0.94),
      PricePoint("2024-03-04", 230.736, 0.92),
      PricePoint("2024-03-05", 236.9, 0.91),
      PricePoint("2024-03-06", 231.54, 0.93),
      PricePoint("2024-03-07", 235.48, 0.9)])
  {
  }

  /** Weather is matched by position after filtering, not by date: the
      2024-03-03 point is scaled by day 2's weather at threshold 0.8 but by
      day 1's at threshold 0.94. */
  lemma WeatherFollowsPosition()
    ensures HandlePrediction("wheat", "1week", 0.94, true)
            == Derived([PricePoint("2024-03-01", 215.6, 0.95), PricePoint("2024-03-03", 224.115, 0.94)])
  {
  }

  /** Crops without data make the lookup fail rather than show an empty chart. */
  lemma UnpopulatedCropsFail()
    ensures HandlePrediction("corn", "1week", 0.8, false) == LookupFailed
    ensures HandlePrediction("soybeans", "3months", 0.8, true) == LookupFailed
    ensures HandlePrediction("rice", "1week", 0.8, false) == LookupFailed
    ensures HandlePrediction("wheat", "1year", 0.8, false) == LookupFailed
  {
  }
}
