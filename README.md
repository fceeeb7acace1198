# AgriPredict price-prediction derivation, modelled in Dafny

The AgriPredict dashboard (`src/app/page.tsx`) shows mock commodity-price
"predictions". Its only logic beyond rendering is the prediction handler
`handlePrediction`. The handler looks up one crop and timeframe in a static
table of `{date, price, confidence}` points. It keeps the points whose
confidence reaches the threshold set on a slider. When the "Include Weather
Impact" switch is on, it scales each surviving price by a factor taken from
a static seven-day weather series, matched by position. This project models
that pipeline as pure functions and proves its properties.

- `mock_data.dfy` (module `MockData`): the `PricePoint` and `WeatherSeries`
  datatypes, the wheat table, the weather series and the two-level `Lookup`.
- `derivation.dfy` (module `Derivation`): the confidence filter, the weather
  adjustment, `DeriveFrom` (filter then adjust) and `HandlePrediction` (the
  handler over the shipped data), with their lemmas.
- `scenarios.dfy` (module `Scenarios`): the handler on the shipped data,
  worked out point by point.
- `subsequences.dfy` (module `Subsequences`) and `wrappers.dfy` (module
  `Wrappers`): an order-preserving subsequence relation and `Option`.

Prices, confidences and weather readings are `real`, so the weather formula
is exact. The proofs cover exact arithmetic, not the rounding of JavaScript
numbers: the handler computes 215.6 as the nearest double to
`220 * 0.98`.

One handler run has three outcomes (the datatype `Derivation.Outcome`):
- `NotRequested`: the crop or the timeframe is the empty string. The guard
  `if (selectedCrop && selectedTimeframe)` then skips everything.
- `LookupFailed`: there is no data for the pair. The source indexes
  `undefined` or calls `filter` on `undefined`, which throws inside the timer
  callback, so the chart data is not updated. Keys that JavaScript would find
  on the object prototype (`"constructor"`, say) reach the same throw, so
  treating them as absent is exact.
- `Derived(points)`: the points handed to the chart.

For a pair with no data, the handler (src/app/page.tsx:129-137) reads
`undefined` and calls `.filter` on it, which throws inside the timer
callback. The model therefore returns `LookupFailed`, and the chart keeps
its old data. `Scenarios.UnpopulatedCropsFail` shows this for corn,
soybeans, an unknown crop and an unknown timeframe.

The weather series is indexed by post-filter position. An index past its end
would read `undefined` and give `NaN` in the source. `WeatherAdjust` and
`DeriveFrom` therefore require the series to cover the filtered sequence.
`HandlePrediction` needs no such precondition: every shipped timeframe holds
at most seven points, as `Lookup` states, and the series holds seven days.
Because matching is positional, raising the threshold also changes the
factor applied to the points that remain (`Scenarios.WeatherFollowsPosition`).

## Model

| member | source | states |
|---|---|---|
| `MockData.Lookup` | src/app/page.tsx:47-73 | data exists exactly for wheat with `1week`, `1month` or `3months`; each of those pairs returns its own table; every table fits the seven-day weather series |
| `Derivation.FilterByConfidence` | src/app/page.tsx:135-137 | the filter never returns more points than it is given |
| `Derivation.FilterKeepsExactly` | src/app/page.tsx:135-137 | a point is in the output exactly when it is in the input with confidence `>=` the threshold, so a point at the threshold is kept |
| `Derivation.FilterIsSubsequence` | src/app/page.tsx:135-137 | the output is a subsequence of the input: points are only dropped, never reordered |
| `Derivation.FilterMultiplicities` | src/app/page.tsx:135-137 | each kept point occurs as often as in the input; each dropped point does not occur |
| `Derivation.FilterUnique` | src/app/page.tsx:135-137 | any subsequence of the input with those multiplicities equals the filter output, so the two properties above fully specify the filter |
| `Derivation.FilterAllPass` | src/app/page.tsx:135-137 | the output equals the input if and only if every point reaches the threshold |
| `Derivation.FilterTwice` | src/app/page.tsx:135-137 | filtering at a lower threshold and then at a higher one equals filtering at the higher one |
| `Derivation.FilterMonotone` | src/app/page.tsx:135-137 | for `lower <= higher`, the output at `higher` is a subsequence of the output at `lower` and no longer |
| `Derivation.WeatherAdjust` | src/app/page.tsx:141-148 | length is preserved; the point at position `i` keeps its date and confidence; its price becomes `price * (1 + (temperature[i] - 22)/100 + rainfall[i]/1000)` |
| `Derivation.AdjustFromAt` | src/app/page.tsx:141-148 | the recursive adjustment gives each point the weather factor of its own position in the series |
| `Derivation.DeriveFrom` | src/app/page.tsx:135-149 | with the switch off the output is exactly the filtered sequence; with it on, it has the same length, dates and confidences, and each price is scaled by its position's factor |
| `Derivation.DerivedPointsReachThreshold` | src/app/page.tsx:135-148 | every derived point, adjusted or not, has confidence at least the threshold |
| `Derivation.HandlePrediction` | src/app/page.tsx:125-154 | an empty crop or timeframe runs nothing; a pair without data fails the lookup; a derivation happens exactly for the populated wheat pairs, and its points are `DeriveFrom` of the looked-up table with the shipped weather |
| `Derivation.ShippedDataFitsWeather` | src/app/page.tsx:49-69 | for every populated timeframe and threshold the filtered length is at most 7, so weather indexing stays in bounds |
| `Derivation.HandlePredictionMonotone` | src/app/page.tsx:129-148 | for the same crop, timeframe and switch, raising the threshold does not change whether data is derived and never yields more points |
| `Scenarios.Wheat1WeekDefaultThreshold` | src/app/page.tsx:49-57 | at threshold 0.8 with weather off, wheat/1week shows all seven points with unchanged prices |
| `Scenarios.Wheat1WeekThreshold094` | src/app/page.tsx:50-56 | at threshold 0.94, wheat/1week shows exactly (2024-03-01, 220, 0.95) then (2024-03-03, 223, 0.94) |
| `Scenarios.Wheat1WeekWeather` | src/app/page.tsx:76-78 | at threshold 0.8 with weather on, the seven prices are 215.6, 226.125, 223, 230.736, 236.9, 231.54 and 235.48, with confidences unchanged |
| `Scenarios.WeatherFollowsPosition` | src/app/page.tsx:141-147 | at threshold 0.94 with weather on, the 2024-03-03 point gets day 1's factor (224.115), not day 2's |
| `Scenarios.UnpopulatedCropsFail` | src/app/page.tsx:72 | corn, soybeans, an unknown crop and an unknown wheat timeframe fail the lookup |

## Left out

- React state and effects (`useState`, `useEffect` and its dependency list, `setPredictionData`): UI framework behaviour. The model returns the points that would be stored.
- The one-second `setTimeout` and the race in which a stale result overwrites a newer one: asynchrony and timing fall outside a sequential model.
- All rendering: JSX, Recharts, the Select/Slider/Switch controls, the empty-chart placeholder and the `Label` helper.
- The news list: static data that is only displayed.
- Humidity: only displayed; it plays no part in the adjustment, so `WeatherSeries` has no humidity field.
- IEEE-754 rounding of the weather formula: the model computes over exact reals.
- Corn and soybean data: the source has none, only a placeholder comment, so those lookups fail.
- `NaN` from an out-of-range weather index: excluded by the precondition of `WeatherAdjust` and `DeriveFrom`. It cannot arise with the shipped data.
- Determinism and non-mutation of the inputs: every Dafny function here is pure, so both hold by construction and have no lemma.
