/** The static reference data of the dashboard: price predictions per crop
    and timeframe, and the weather series used to perturb them. */
module MockData {
  import opened Wrappers

  /** One predicted price on one calendar day, with the model's certainty.
      Prices and confidences are exact reals. */
  datatype PricePoint = PricePoint(date: string, price: real, confidence: real)

  /** Daily forecast readings, indexed by day offset (index 0 is day 0). */
  datatype WeatherSeries = WeatherSeries(temperature: seq<real>, rainfall: seq<real>)

  const Wheat1Week: seq<PricePoint> := [
    PricePoint("2024-03-01", 220.0, 0.95),
    PricePoint("2024-03-02", 225.0, 0.93),
    PricePoint("2024-03-03", 223.0, 0.94),
    PricePoint("2024-03-04", 228.0, 0.92),
    PricePoint("2024-03-05", 230.0, 0.91),
    PricePoint("2024-03-06", 227.0, 0.93),
    PricePoint("2024-03-07", 232.0, 0.9)
  ]

  const Wheat1Month: seq<PricePoint> := [
    PricePoint("2024-03-01", 220.0, 0.95),
    PricePoint("2024-03-08", 225.0, 0.92),
    PricePoint("2024-03-15", 230.0, 0.9),
    PricePoint("2024-03-22", 228.0, 0.88),
    PricePoint("2024-03-29", 235.0, 0.85)
  ]

  const Wheat3Months: seq<PricePoint> := [
    PricePoint("2024-03-01", 220.0, 0.95),
    PricePoint("2024-04-01", 228.0, 0.85),
    PricePoint("2024-05-01", 235.0, 0.8),
    PricePoint("2024-06-01", 240.0, 0.75)
  ]

  /** Crop, then timeframe, to the predicted points. Only wheat is populated. */
  const MockPredictions: map<string, map<string, seq<PricePoint>>> :=
    map["wheat" := map["1week" := Wheat1Week, "1month" := Wheat1Month, "3months" := Wheat3Months]]

  /** Temperature in degrees Celsius and rainfall in millimetres, seven days. */
  const MockWeather: WeatherSeries := WeatherSeries(
    [20.0, 22.0, 21.0, 23.0, 25.0, 24.0, 22.0],
    [0.0, 5.0, 10.0, 2.0, 0.0, 0.0, 15.0])

  /** The two-level key lookup; None where the dashboard's lookup has
      nothing to index (every crop but wheat, every unknown timeframe). */
  function Lookup(crop: string, timeframe: string): (r: Option<seq<PricePoint>>)
    ensures r.Some? <==> crop == "wheat" && timeframe in {"1week", "1month", "3months"}
    ensures r == Some(Wheat1Week) <==> crop == "wheat" && timeframe == "1week"
    ensures r == Some(Wheat1Month) <==> crop == "wheat" && timeframe == "1month"
    ensures r == Some(Wheat3Months) <==> crop == "wheat" && timeframe == "3months"
    ensures r.Some? ==> |r.value| <= |MockWeather.temperature| && |r.value| <= |MockWeather.rainfall|
  {
    if crop in MockPredictions && timeframe in MockPredictions[crop]
    then Some(MockPredictions[crop][timeframe])
    else None
  }
}
