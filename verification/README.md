# Sunset's Mount Summon — a verified model of the draw engine and its reports

The simulator draws items from a weighted catalog in gachas of 11 draws. After
each gacha it reports the gacha's draws and per-grade tally, the cumulative
tally so far, and a list of every Epic or Legendary draw tagged with its gacha.
This project models that logic in Dafny as pure functions over immutable
values, and proves what the code promises about it.

- `Catalog` (`catalog.dfy`): the `Item` record (grade, name, normalised weight
  as an exact `real`). It also holds the running-sum fold that computes
  `totalWeight`, and the "bands" each item occupies on the roulette wheel
  (`BandStart`/`BandEnd` are the weight before an item and up to and including it).
- `Draw` (`draw.dfy`): `weightedRandomChoice` as a walk over the catalog that
  subtracts weights from a running remainder, and `gachaSimulation` as one walk
  per supplied random value. The value `Math.random()` would have returned is
  a parameter `u`. The walk starts from `u * totalWeight`.
- `Tally` (`tally.dfy`): the `reduce` that builds a grade→count map, compared
  with a reference per-grade `Count` and with the sum of all counts.
- `Batches` (`batches.dfy`): JavaScript `slice` with its clamping, the 11-draw
  window of each gacha, the cumulative prefix `[0, endIndex)`, and how the
  windows tile that prefix.
- `Report` (`report.dfy`): the Epic/Legendary listing with its
  `floor(index / 11) + 1` tags, `getColorByGrade`, the data of one gacha's
  report, and a whole session's draws.
- `Scenarios` (`scenarios.dfy`): concrete draws on an 80%/20% catalog, the
  upper-boundary case, and a two-gacha listing.
- `Wrappers` (`wrappers.dfy`): `Option`, used for JavaScript's `undefined`.

The model follows the code:

- If the walk runs off the end of the catalog, the code returns `undefined`.
  There is no fallback to the last item, so the model returns `None`.
  `Scenarios.NoFallbackAtUpperBoundary` shows this on a 50/50 catalog at the
  top of the sampling interval.
- The code does not reject a catalog whose weights sum to zero. With
  non-negative weights, every draw from such a catalog is `undefined`, and
  `Draw.ChoiceUndefinedOutOfRange` proves this. With negative weights a draw
  from such a catalog can still return an item.

## Model

| member | source | states |
|---|---|---|
| Catalog.FoldWeights | index.js:23 | The `reduce` callback adds the weights to the accumulator in catalog order, so the result is the accumulator plus the sum of all weights. |
| Catalog.TotalWeight | index.js:23 | `totalWeight` is the sum of every item's weight. It is non-negative when the weights are, and 0 for an empty catalog. |
| Catalog.BandWidth | index.js:25-30 | Each item takes up a band exactly as wide as its weight. Each band starts where the previous band ends. |
| Catalog.LastBandEndsAtTotal | index.js:23-25 | The last item's band ends at `totalWeight`. |
| Draw.Walk | index.js:25-31 | A result of the loop is always an element of the catalog. |
| Draw.WalkFindsFirstCrossing | index.js:24-30 | If `i` is the first index whose cumulative weight `w0 + … + wi` is strictly above the starting value, the loop returns the item at `i`. |
| Draw.WalkSomeIsFirstCrossing | index.js:25-30 | Conversely, whenever the loop returns an item, a first such index exists and the returned item is the one at that index. |
| Draw.WalkNoneIffNoCrossing | index.js:25-31 | The loop returns `undefined` exactly when no cumulative weight is above the starting value. Both directions are proved. |
| Draw.WeightedRandomChoice | index.js:22-31 | A draw, when defined, returns a catalog item. |
| Draw.ChoiceDefinedInRange | index.js:22-31 | With a positive total and `0 <= u < 1`, the draw always returns an item, whatever the signs of the individual weights. |
| Draw.ChoiceUndefinedOutOfRange | index.js:23-31 | With non-negative weights, a zero total (including the empty catalog) or `u >= 1` gives `undefined`. |
| Draw.FirstCrossingIsBand | index.js:25-30 | For non-negative weights and a starting value of at least 0, the walk stops at index `i` exactly when the value lies in band `i`, `[start, end)`. |
| Draw.ChoiceSelectsBand | index.js:24-30 | The walk stops at index `i` exactly when `u` is in `[start/total, end/total)`, and it then returns the item at `i`. That interval's width is the item's weight divided by the total. |
| Draw.ChosenItemLiesInBand | index.js:22-31 | In a catalog without repeated items, the draw returns item `i` exactly when `u` is in `[start/total, end/total)`. So for `u` uniform in `[0, 1)` item `i` is drawn with probability weight/total. |
| Draw.GachaSimulation | index.js:13-20 | The simulation makes one draw per random value. Result `i` is the draw for the `i`-th value, in order. |
| Draw.SimulationDefined | index.js:13-19 | With a positive total weight and every random value in `[0, 1)`, every simulated draw is a catalog item. |
| Draw.Drawn | index.js:86-88 | The results can be reported exactly when no draw is `undefined`. When they can, the items are the draws in the same order. |
| Tally.Bump | index.js:94 | One fold step raises the count of one grade by one. No other grade changes, and the sum of counts grows by one. |
| Tally.TallyFrom | index.js:93-96 | Folding a slice into a tally adds each grade's occurrence count to it. The sum of counts grows by the slice length. |
| Tally.GradeCounts | index.js:104-107 | In the tally, a grade is a key exactly when it occurs in the slice, and its value is its number of occurrences. The counts add up to the slice length. An empty slice gives `{}`. |
| Tally.TallyOfAppend | index.js:93-107 | The tally of two slices joined together is the per-grade sum of their two tallies. |
| Batches.BatchWindow | index.js:78-80 | When the results are long enough, gacha `g`'s window is the 11 draws `g*11 … g*11+10`. Any draw at index `p` with `g*11 <= p < g*11+11` sits in the window at offset `p - g*11`. |
| Batches.ReportedPrefix | index.js:104 | The cumulative slice is a prefix of the results. It is exactly `results[..endIndex]` when enough draws exist. |
| Batches.WindowOfIndex | index.js:123 | Index `p` lies in gacha `g`'s window exactly when `p / 11 == g`. So the windows are disjoint and together cover every index. |
| Batches.PrefixIsWindows | index.js:78-80 | The cumulative slice up to gacha `k` is the slice up to gacha `k-1` followed by gacha `k`'s window. |
| Batches.CumulativeTallyIsSumOfBatches | index.js:93-107 | The cumulative tally after gacha `k` equals the per-grade sum of the tallies of gachas `0..k`. |
| Report.HighPositions | index.js:120-121 | The positions of the Epic and Legendary draws in a slice are listed in ascending order, each exactly once. |
| Report.HighPositionsUnique | index.js:120-121 | Any ascending list of exactly the Epic/Legendary positions equals `HighPositions`. |
| Report.ListingOf | index.js:120-124 | The `forEach` lists one row per Epic/Legendary position, in order. The row at position `p` carries that item and the tag `p / 11 + 1`. |
| Report.HighGradeListing | index.js:120-125 | The listing after gacha `g` holds exactly the Epic/Legendary draws of the cumulative prefix, in order. Each carries tag `p / 11 + 1` with `1 <= tag <= g + 1`. |
| Report.ListingTagLocatesDraw | index.js:123 | A row's tag names the gacha whose 11-draw window contains that draw, and the draw sits in that window at the matching offset. |
| Report.ColorByGrade | index.js:33-47 | Uncommon→green, Rare→blue, Epic→magenta, Legendary→yellow. White is returned exactly for Common and every unrecognised grade. |
| Report.ReportFor | index.js:78-123 | One gacha's report is labelled `gachaIndex + 1` and shows exactly that gacha's window. Its counts give each grade's number of occurrences in the window and sum to the draws shown. The cumulative counts give each grade's occurrences in the prefix `[0, endIndex)`, equal the sum of the per-gacha tallies, and add up to `Total draws: endIndex` once all draws exist. The listing is the Epic/Legendary listing of the prefix. |
| Report.Summon | index.js:64-65 | A session makes `numGachas * 11` draws, all catalog items, draw `i` being the draw for `randoms[i]`. It is `None` exactly when some draw is `undefined`, and it is defined whenever the total weight is positive and every random value is in `[0, 1)`. |
| Report.SessionReport | index.js:64-80 | In a session with all draws defined, gacha `g`'s report shows the 11 draws made with random values `g*11 … g*11+10`, in order, and its cumulative counts add up to the draws so far. |
| Scenarios.TwoBandTotal | index.js:23 | The 80%/20% catalog's weights total 1. |
| Scenarios.TwoBandDraws | index.js:22-31 | On the 80%/20% catalog, every value below 0.8 gives the Common item, every value in `[0.8, 1)` the Legendary item, and every value of 1 or more `undefined`. |
| Scenarios.TwoBandSimulation | index.js:13-20 | Drawing with 0.1 then 0.9 yields the Common item, then the Legendary item. |
| Scenarios.TwoBandTally | index.js:93-96 | One Common and one Legendary draw tally to `{Common: 1, Legendary: 1}`. |
| Scenarios.NoFallbackAtUpperBoundary | index.js:25-31 | On a 50/50 catalog, `u = 1` gives `undefined`. The last item is not returned. |
| Scenarios.EpicDrawsTaggedByGacha | index.js:120-123 | In 22 draws whose only Epic draws are at positions 3 and 15, the listing is those two draws, in order, tagged gacha 1 and gacha 2. |

## Left out

- Reading `data.json` and `JSON.parse` (index.js:6): file I/O. The catalog is a parameter.
- Converting the percentage strings with `parseFloat(…) / 100` (index.js:9-11): string parsing of floating-point numbers. Weights are taken already normalised.
- `Math.random()` (index.js:24): the value it would return is the parameter `u`, or the sequence `randoms` with one value per draw.
- IEEE-754 rounding: weights and the walk's remainder are exact reals. Rounding in the sum or the subtraction could make a draw with `u < 1` run off the end. That case is not modelled; with exact arithmetic it cannot happen (`Draw.ChoiceDefinedInRange`).
- Draw.WeightedRandomChoice: does not model floating-point rounding in `totalWeight` or in the remainder, because weights are exact reals.
- The `readline` prompt and the `parseInt` check that rejects non-numbers and counts `<= 0` (index.js:50-62): user I/O. `Report.Summon` takes `numGachas` as a natural number.
- `console.clear`, `console.log`, `padEnd` and the `colors` library (index.js:75-126): presentation. `Report.ReportFor` gives the data each report prints. `Report.ColorByGrade` gives the colour name, not the styled string.
- The `setTimeout` recursion that emits the reports one after another (index.js:68-72, 129-133): timing and scheduling. Each step is `Report.ReportFor` for one `gachaIndex`.
- The JavaScript object behind the tally is modelled as a `map<string, nat>`. The order in which `Object.keys` returns keys is not modelled, since it only affects the print order.
- Tally.GradeCounts: assumes grades are not names inherited from `Object.prototype`. For a grade such as `toString`, `counts[grade] || 0` reads the inherited function and the source stores a string instead of a count. For the grade `__proto__` the assignment is ignored and the grade is lost from the tally, so the counts no longer sum to the slice length. The model counts every grade string as an ordinary key.
- Report.Summon: a session with any `undefined` draw yields `None` as a whole. The source instead prints the complete reports of the earlier gachas. In the report of the gacha that holds the `undefined` draw, it prints the table rows before that draw and then throws a `TypeError` at index.js:87. Those partial reports are not modelled; `Report.ReportFor` gives each complete report when all draws are defined.
