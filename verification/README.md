# Weather-ranked destinations, modelled in Dafny

Two small scripts read a weather provider's 3-hourly forecast list and turn it
into an e-mailed text report.

- **summerplans** scores each location of a catalog against the user's
  preferences:
  - the mean temperature and mean rain of the first five samples
    (`getWeatherForecast`);
  - temperature points from an if/elif ladder, plus a 4-point rain bonus
    (`calculate_score`);
  - the rain threshold chosen from the user's option number.

  It then sorts the locations by score, best first, and numbers the first ten.
  Each gets three report lines: the rank and name, the rounded temperature, and
  a rain label.
- **SkiSeason** renders the first five samples of each ski area as five-line
  text blocks (`formatWeatherForecast`). It joins the blocks with blank lines
  and concatenates one section per area.

The model is purely functional. It has six modules:

- `Forecast`: samples, the five-sample window, and the two averages.
- `Scoring`: the score and the rain threshold.
- `Ranking`: scoring the catalog, the stable descending sort, ranking, and the
  report text. The report loop is also modelled as written, as a method.
- `SkiFormat`: sample blocks, their join, area sections, and the report loop
  as written.
- `Text` and `Wrappers`: string helpers (join, split, first word, integer
  text) and `Option`/`Result`.

Temperatures and rain are exact `real`s. Python's `str` of a float is the
parameter `show: real -> string`. The forecast request is a parameter `fetch`
that returns the sample list.

## Model

| member | source | states |
|---|---|---|
| Forecast.Take | SkiSeason/SkiSeason.py:42 | `list[:5]` keeps the first five samples, or all when fewer; element by element a prefix of the input |
| Forecast.RainOf | summerplans/summerplansyur.py:60-61 | a sample with a rain object holding "3h" contributes exactly that amount; one without a rain object, or whose rain object lacks "3h", contributes 0 mm |
| Forecast.Summarize | summerplans/summerplansyur.py:63-64 | the rain average is never negative, and it is positive exactly when the rain total of the window is positive |
| Forecast.SummarizeLoop | summerplans/summerplansyur.py:56-66 | the two-accumulator loop over `data["list"][:5]` returns exactly the averages of `Summarize` |
| Forecast.SummarizeIgnoresTail | summerplans/summerplansyur.py:58 | samples after the fifth never change either average |
| Forecast.SummarizeEmpty | summerplans/summerplansyur.py:56-66 | an empty forecast gives averages 0 and 0, not an error |
| Forecast.SummarizeSingle | summerplans/summerplansyur.py:63-64 | the divisor stays 5 with fewer samples: one sample contributes a fifth of its temperature and rain |
| Forecast.SummarizeFullWindow | summerplans/summerplansyur.py:56-64 | with at least five samples, the averages are the arithmetic means of the first five temperatures and rain amounts, with rain 0 unless its total is positive |
| Forecast.TotalsAreSums | summerplans/summerplansyur.py:56-61 | the running totals accumulated sample by sample equal the sums added up from the head |
| Forecast.SummarizeMeans | summerplans/summerplansyur.py:56-64 | for any number of samples, the temperature average is the sum over the first five divided by a fixed 5, and the rain average is that sum over 5 when positive, else 0 |
| Forecast.SummarizeDry | summerplans/summerplansyur.py:60-64 | a window in which no sample reports a "3h" amount averages to no rain |
| Scoring.TempPoints | summerplans/summerplansyur.py:71-85 | temperature points lie between 0 and 6 |
| Scoring.TempPointsIsTable | summerplans/summerplansyur.py:74-85 | the if/elif ladder equals a first-match lookup in the table (≤1 → 6, ≤2 → 5, ≤3 → 4, ≤5 → 3, ≤7 → 2, ≤10 → 1, else 0) |
| Scoring.TempPointsAtLeast | summerplans/summerplansyur.py:74-85 | at least k points are earned exactly when the deviation is within the bound of the row worth k |
| Scoring.TempPointsAntitone | summerplans/summerplansyur.py:74-85 | a larger deviation never earns more points |
| Scoring.RainBonus | summerplans/summerplansyur.py:88-90 | the rain bonus is 0 or 4 |
| Scoring.Score | summerplans/summerplansyur.py:70-92 | every score lies between 0 and 10 |
| Scoring.ScoreAntitone | summerplans/summerplansyur.py:70-92 | with the rain inputs fixed, a temperature further from the wished one never scores higher |
| Scoring.ScoreIgnoresPreference | summerplans/summerplansyur.py:70-92 | the rain preference number passed to `calculate_score` never changes the score |
| Scoring.ScoreRainBonus | summerplans/summerplansyur.py:87-90 | a threshold adds exactly 4 over having none when the average rain does not exceed it, else nothing |
| Scoring.ScoreBoundaries | summerplans/summerplansyur.py:74-90 | the rungs are inclusive (1 → 6, just over 1 → 5, 10 → 1, just over 10 → 0); worked scores 7, 10 and 3 |
| Scoring.ThresholdFor | summerplans/summerplansyur.py:111-116 | a threshold exists exactly for options 1 and 2 and equals the option in mm; any other number means rain does not matter |
| Scoring.ThresholdLeniency | summerplans/summerplansyur.py:111-116 | option 2 never scores lower than option 1, which never scores lower than "doesn't matter" |
| Scoring.NoThresholdNoBonus | summerplans/summerplansyur.py:88-90 | without a threshold the score is the temperature points alone, at most 6 |
| Ranking.ScoreLocation | summerplans/summerplansyur.py:122-124 | the scored item keeps the location name, scores between 0 and 10 and has a non-negative rain average |
| Ranking.ScoreCatalog | summerplans/summerplansyur.py:121-124 | one scored item per catalog location, in catalog order |
| Ranking.SortByScore | summerplans/summerplansyur.py:127 | the sort is a permutation of the scored items (same multiset) and descending by score |
| Ranking.SortStable | summerplans/summerplansyur.py:127 | items with equal scores keep their catalog order |
| Ranking.StableSortUnique | summerplans/summerplansyur.py:127 | any two descending, stable permutations of the same list are equal |
| Ranking.SortIsSortedReverse | summerplans/summerplansyur.py:127 | every descending, stable permutation of the scored items is exactly the sort's result, as Python's stable `sorted(..., reverse=True)` guarantees |
| Ranking.SortDistinct | summerplans/summerplansyur.py:120-127 | distinct area names stay distinct after sorting |
| Ranking.SortThree | summerplans/summerplansyur.py:127 | three items scored second above first above third sort as second, first, third |
| Ranking.ThreeLocationExample | summerplans/summerplansyur.py:70-127 | means 10/15/20 °C and 0/1/3 mm, wanting 15 °C and at most 2 mm, score 7, 10 and 3 and sort second, first, third |
| Ranking.SummerReport | summerplans/summerplansyur.py:119-156 | an empty catalog gives an empty report |
| Ranking.SummerReportParagraphs | summerplans/summerplansyur.py:119-156 | the whole report is, for the first min(10, n) items of the stable descending sort of the scored catalog, the paragraph of the entry numbered i+1, concatenated in rank order |
| Ranking.ReportParagraphs | summerplans/summerplansyur.py:132-156 | the report of a sorted list is the paragraphs of its first min(10, n) items numbered from 1, in order |
| Ranking.Rank | summerplans/summerplansyur.py:132-156 | min(10, n) entries, entry i numbered i+1 and holding the i-th sorted item |
| Ranking.LabelMonotone | summerplans/summerplansyur.py:142-147 | for non-negative averages, more rain never yields a milder label |
| Ranking.LabelOf | summerplans/summerplansyur.py:142-147 | the heavy label is chosen exactly for averages below 0 or from 2 up |
| Ranking.LabelIntervals | summerplans/summerplansyur.py:142-147 | for every average: dry exactly at 0, light exactly strictly between 0 and 2, heavy exactly below 0 or from 2 up |
| Ranking.LabelBoundaries | summerplans/summerplansyur.py:142-147 | worked examples at the edges: 0 is dry, 0.001 and 1.999 are light, 2 and -0.5 are heavy |
| Ranking.RoundHalfEven | summerplans/summerplansyur.py:138 | `round` yields an integer within one half of the value, and the even one on a tie |
| Ranking.RoundHalfEvenUnique | summerplans/summerplansyur.py:138 | those two properties determine the rounded value |
| Ranking.EntryText | summerplans/summerplansyur.py:135-147 | an entry starts with "<rank>. <area> Forecast:" and a newline, and ends with a newline |
| Ranking.EntryTextLines | summerplans/summerplansyur.py:135-147 | an entry splits at newlines into the rank line, the temperature line and the rain line, in that order |
| Ranking.ReportTextAppend | summerplans/summerplansyur.py:149 | the report of a longer entry list extends the report of its prefix |
| Ranking.RenderReport | summerplans/summerplansyur.py:132-156 | the rank-counter loop, with its break once the rank passes 10, produces the paragraphs of the ranked entries concatenated in rank order |
| Ranking.ReportIsHeadOfSort | summerplans/summerplansyur.py:127-156 | the report lists min(10, n) entries ranked 1, 2, 3, … without gaps, and they are the head of the sorted list |
| Ranking.ReportFromCatalog | summerplans/summerplansyur.py:127-156 | every reported entry comes from the scored catalog, and scores never rise down the report |
| Ranking.ReportKeepsBest | summerplans/summerplansyur.py:127-156 | no catalog item left out of the report outscores an item kept in it |
| Ranking.ReportStable | summerplans/summerplansyur.py:127-156 | within each score, the reported areas are the first ones of the catalog with that score, in catalog order |
| Ranking.ReportDistinct | summerplans/summerplansyur.py:120-156 | no area appears twice in the report when the catalog names are distinct |
| SkiFormat.PrecipitationOf | SkiSeason/SkiSeason.py:53 | the precipitation is the integer 0 without a rain object, the "3h" amount with one, and a KeyError when that key is missing |
| SkiFormat.FormatSample | SkiSeason/SkiSeason.py:48-56 | a sample formats exactly when its timestamp holds a word, it has a weather entry, and any rain object has "3h"; a blank timestamp raises before a missing weather entry, which raises before a rain object without "3h" |
| SkiFormat.PrecipitationAgreesWithRain | SkiSeason/SkiSeason.py:53 | where the ski script reads a precipitation field, it is the same amount of rain the summer script reads from the sample |
| SkiFormat.Block | SkiSeason/SkiSeason.py:56 | a block starts with "Date: " and the date |
| SkiFormat.FormatSampleFields | SkiSeason/SkiSeason.py:49-56 | the block's fields are the timestamp's first word wherever it starts, the temperature, the first description, the wind speed and the "3h" amount or 0 |
| SkiFormat.FormatSampleLeadingSpace | SkiSeason/SkiSeason.py:49 | worked example: the timestamp " 2024-01-15 12:00:00", with a leading space, gives the date "2024-01-15" |
| SkiFormat.BlockLinesRoundTrip | SkiSeason/SkiSeason.py:56 | a block splits at newlines back into its five lines, Date to Precipitation, when no field holds a line break |
| SkiFormat.FormatForecast | SkiSeason/SkiSeason.py:45-58 | the forecast formats exactly when every sample does; an empty forecast is the empty text |
| SkiFormat.FormatForecastFirstError | SkiSeason/SkiSeason.py:48-56 | a failing forecast raises the error of the first sample that fails, all earlier ones succeeding |
| SkiFormat.FormatForecastIsJoin | SkiSeason/SkiSeason.py:58 | a formatted forecast is the sample blocks, one per sample in order, joined by "\n\n" |
| SkiFormat.FormatForecastBlockAt | SkiSeason/SkiSeason.py:56-58 | the block of sample i sits in the text right after the blocks and separators of samples 0..i-1 |
| SkiFormat.FormatForecastAppend | SkiSeason/SkiSeason.py:58 | formatting two runs of samples joins their texts with one blank line |
| SkiFormat.AreaText | SkiSeason/SkiSeason.py:70 | a section is the area name, " Forecast:" and a blank line, the formatted blocks, then a blank line: the blocks are recovered between the header and the trailer |
| SkiFormat.AreaSection | SkiSeason/SkiSeason.py:69-70 | an area's section exists exactly when its first five samples format; it is then the section text around those samples' formatted blocks, and otherwise carries the error of the first sample that fails |
| SkiFormat.SkiReport | SkiSeason/SkiSeason.py:66-71 | the report succeeds exactly when every area's section formats; no areas give the empty text |
| SkiFormat.SkiReportLoop | SkiSeason/SkiSeason.py:66-71 | the `forecasts_text +=` loop, ending at the first exception, computes the report fold |
| SkiFormat.SkiReportIsSections | SkiSeason/SkiSeason.py:66-71 | when every area formats, the report is the sections concatenated in catalog order |
| Text.Join | SkiSeason/SkiSeason.py:58 | joining nothing gives the empty text; the length is the parts plus the separators between them; the first part leads |
| Text.JoinAppend | SkiSeason/SkiSeason.py:58 | joining two non-empty runs of parts puts one separator between their joins |
| Text.JoinPartAt | SkiSeason/SkiSeason.py:58 | every part occurs in the joined text at the offset of the parts and separators before it |
| Text.SplitJoin | SkiSeason/SkiSeason.py:56 | splitting a join at its separator gives back the parts, when no part holds the separator |
| Text.FirstWord | SkiSeason/SkiSeason.py:49 | `split()[0]` raises exactly on all-whitespace text; otherwise the result is a maximal whitespace-free run preceded only by whitespace |
| Text.FirstWordOf | SkiSeason/SkiSeason.py:49 | conversely, any word that sits first in the text is what `split()[0]` returns |
| Text.ConcatResultsPrefixError | SkiSeason/SkiSeason.py:68-71 | once a prefix of the loop raises, the whole loop raises the same error |
| Text.ConcatResultsSucceeds | SkiSeason/SkiSeason.py:68-71 | the loop finishes without an exception exactly when no step raises |
| Text.ConcatResultsOk | SkiSeason/SkiSeason.py:67-71 | when no step raises, the accumulated text is the pieces concatenated in order |
| Text.ConcatAppend | summerplans/summerplansyur.py:149 | accumulating two runs of pieces concatenates their texts |
| Text.IntToStrShape | summerplans/summerplansyur.py:135-138 | an integer's text is an optional minus sign and digits without a leading zero, and has no line break |
| Text.IntToStrRoundTrip | summerplans/summerplansyur.py:135-138 | reading an integer's text back gives the integer |
| Wrappers.MapAll | SkiSeason/SkiSeason.py:47-58 | collecting per-element results succeeds exactly when every element does, giving one result per element in order |
| Wrappers.MapAllFirstError | SkiSeason/SkiSeason.py:48-56 | a failed collection reports the first element that fails |
| Wrappers.MapAllAppend | SkiSeason/SkiSeason.py:47-58 | collecting a concatenation concatenates the collections |

## Left out

- HTTP and JSON are not modelled: the request and decoding lines
  (summerplans/summerplansyur.py:51-53, SkiSeason/SkiSeason.py:39-41). A
  forecast is the parameter `fetch`, which returns the sample list.
- Reading a sample's `main` or `wind` object cannot fail in the model.
  `Sample` carries `temp` and `windSpeed` directly, so a KeyError there is not
  modelled.
- A missing `dt_txt` key (SkiSeason/SkiSeason.py:49) is not modelled.
  `Sample.dtText` is always present, so that KeyError cannot arise; only the
  IndexError of a timestamp without a word is modelled.
- A first weather entry without a `description` key (SkiSeason/SkiSeason.py:51)
  is not modelled. `descriptions` holds the texts themselves, so only the
  IndexError of an empty weather list is modelled.
- JSON integers and floats are not told apart. A wind speed or rain amount
  sent as the integer 3 prints as "3" through `str(int)`, but as "3.0" when
  sent as a float (SkiSeason/SkiSeason.py:56). The model turns both into the
  same `real` before `show` sees it. Only the script's own integer default 0
  for a missing rain object is kept apart, as `NotReported` printing "0".
- `send_email` is not modelled: OAuth token files, the Gmail API, MIME and
  base64 are foreign I/O.
- Environment and console are not modelled: `load_dotenv`, `os.getenv`,
  `input`, `print` and the unused `color` class. The wished-for temperature
  and the preference number are plain parameters. A `float(...)`/`int(...)`
  parse failure of the input is not modelled.
- The module-level `average_temp` and `average_rain` are left out. Locals
  shadow them and nothing mutates them.
- Floating point is not modelled: arithmetic is on exact reals, so IEEE
  rounding at the thresholds (1, 2, 3, 5, 7, 10 °C; 0 and 2 mm) is not
  represented. Python's float-to-text is the opaque parameter `show`.
  - `RoundHalfEven` is exact on reals. The float's binary value can differ
    from the decimal shown, so a tie in the model may not be a tie in Python.
- The code is followed where it does not reject bad input:
  - An empty or short forecast is not an error: the divisor stays 5.
  - A rain preference other than 1 or 2 simply means "no threshold"; it is not
    rejected.
  - A negative average rain would be labelled heavy. The aggregation never
    produces one (`Forecast.Summarize` ensures it is non-negative).
- The dictionary `ski_areas_with_scores` is modelled as a sequence in catalog
  order. Python dicts keep insertion order, and the catalog keys are distinct,
  so no entry is overwritten. `Ranking.ReportDistinct` assumes distinct names.
