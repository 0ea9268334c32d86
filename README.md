# Company endpoint helpers, modelled in Dafny

This project models the helper layer of a small Flask service that serves company
and market data from a financial-data provider and derives descriptive statistics
from price histories. The helpers are all in `app/utils.py`. The model covers:

- **Symbol normalisation** (`normalize_symbol`): Python's `strip()` and `upper()` on the ticker. `None` and `""` are rejected.
- **Date-range resolution** (`parse_iso_date`, `build_date_range`): dates are day ordinals, "now" is a parameter, and ISO parsing is an opaque partial function.
- **Payload normalisation** (`normalize_history_payload`), in five steps:
  - building a data frame from a list of JSON objects;
  - the loop that fills `column_map` from `strip().lower()` of each header;
  - the rename and the required Date/Close check;
  - the conversion of the Date column;
  - the sort by date.
- **Officer listing** (`extract_company_officers`): the filter loop that keeps officers with a truthy name or title, in order.
- **Record shape** (`historical_records_from_dataframe`): one record per row, with NaN prices as 0.0 and a NaN volume as 0.
- **Insight rules** (`generate_insights_from_history`): percent change, trend classification, volatility profile, recommendation, average volume, and the 20-row moving average.

Python floats are modelled as `Float = NaN | Fin(real)`. Every ordering comparison and `==` with NaN is false, and NaN is truthy, exactly as in Python.

Modules: `Wrappers` (Option, Result), `Floats`, `Text` (strip, upper, lower), `Symbols`,
`DateRanges`, `Payload`, `Officers`, `Records`, `Insights`.

Some of what the code does may be unexpected; the model follows the code:

- A whitespace-only symbol is not rejected. It normalises to `""` (`Symbols.BlankSymbolIsAccepted`).
- The empty-payload error fires whenever the frame is empty. That is also the case for a payload of objects with no keys (`Payload.EmptyFrameExactly`).
- With no start, an end within 180 days of 0001-01-01 makes the default start overflow. The OverflowError is not a ValueError, so the history route does not turn it into a 400 response. The model reports it as its own error (`DateRanges.EarliestEndOverflows`).
- The sort by date is pandas' default quicksort. The model promises sorted order and a permutation, not stability.
- `x or 0.0` leaves a NaN average return or volatility as NaN, because NaN is truthy.
  - So the insight rules take them as `Float` values that may be NaN.
  - A NaN volatility is profiled "low". A NaN return always gives the neutral recommendation.

## Model

| member | source | states |
|---|---|---|
| Symbols.NormalizeSymbol | flask-company-endpoint-project-coding-essentials-for-agents/app/utils.py:15-19 | fails exactly on a missing or empty symbol; otherwise returns the upper-cased stripped text, which has no surrounding whitespace and no lower-case ASCII letter |
| Symbols.BlankSymbolIsAccepted | flask-company-endpoint-project-coding-essentials-for-agents/app/utils.py:16-19 | a non-empty all-whitespace symbol is accepted and normalises to the empty string |
| Symbols.NormalizeSymbolIdempotent | flask-company-endpoint-project-coding-essentials-for-agents/app/utils.py:19 | normalising a non-empty normalised symbol again returns it unchanged |
| Symbols.NormalizeSymbolPadded | flask-company-endpoint-project-coding-essentials-for-agents/app/utils.py:19 | whitespace around a ticker is dropped and only the ticker is upper-cased |
| Symbols.NormalizeSymbolExample | flask-company-endpoint-project-coding-essentials-for-agents/app/utils.py:15-19 | "  aapl " normalises to "AAPL" |
| Text.TrimStartKeepsSuffix | flask-company-endpoint-project-coding-essentials-for-agents/app/utils.py:19 | lstrip keeps a suffix that does not start with whitespace and drops only whitespace |
| Text.TrimEndKeepsPrefix | flask-company-endpoint-project-coding-essentials-for-agents/app/utils.py:19 | rstrip keeps a prefix that does not end in whitespace and drops only whitespace |
| Text.Strip | flask-company-endpoint-project-coding-essentials-for-agents/app/utils.py:19 | strip never lengthens its input (what it keeps is stated by the lemmas below) |
| Text.StripIsStripped | flask-company-endpoint-project-coding-essentials-for-agents/app/utils.py:19 | the result of strip has no whitespace at either end |
| Text.StripPadded | flask-company-endpoint-project-coding-essentials-for-agents/app/utils.py:96 | stripping whitespace padding around a stripped non-empty core gives the core back |
| Text.StripFixedPoint | flask-company-endpoint-project-coding-essentials-for-agents/app/utils.py:96 | strip leaves a string unchanged exactly when it has no surrounding whitespace |
| Text.StripEmpty | flask-company-endpoint-project-coding-essentials-for-agents/app/utils.py:16-19 | strip gives the empty string exactly when the input is all whitespace |
| Text.CaseKeepsStripped | flask-company-endpoint-project-coding-essentials-for-agents/app/utils.py:19 | changing case keeps a stripped string stripped |
| Text.UpperIdempotent | flask-company-endpoint-project-coding-essentials-for-agents/app/utils.py:19 | upper-casing twice is upper-casing once |
| Text.UpperHasNoLower | flask-company-endpoint-project-coding-essentials-for-agents/app/utils.py:19 | an upper-cased string has no lower-case ASCII letter |
| DateRanges.BuildDateRange | flask-company-endpoint-project-coding-essentials-for-agents/app/utils.py:29-45 | on success start <= end; the end is the parsed end or now; the start is the parsed start or end minus the window; an unparseable provided end is reported; every invalid-date error names a provided, unparseable string; the overflow error happens exactly when there is no start, the end resolves and end minus the window falls outside 0001-01-01 to 9999-12-31 |
| DateRanges.BuildDefaultDateRange | flask-company-endpoint-project-coding-essentials-for-agents/app/utils.py:29-40 | with no start the default window spans exactly 180 days |
| DateRanges.BothDatesGiven | flask-company-endpoint-project-coding-essentials-for-agents/app/utils.py:32-45 | two parseable, ordered dates give exactly the parsed pair |
| DateRanges.InvalidRangeExactly | flask-company-endpoint-project-coding-essentials-for-agents/app/utils.py:37-43 | the out-of-order error happens exactly when both ends resolve, a default start does not overflow, and the start is after the end |
| DateRanges.DefaultStartNeverInverted | flask-company-endpoint-project-coding-essentials-for-agents/app/utils.py:37-43 | with no start and a non-negative window the range is never out of order; once the end resolves it succeeds exactly when the default start is a calendar day |
| DateRanges.EndOnlyDefaultsStart | flask-company-endpoint-project-coding-essentials-for-agents/app/utils.py:30-40 | with only an end, the range is the 180 days ending there, or an overflow when that start precedes 0001-01-01 |
| DateRanges.EarliestEndOverflows | flask-company-endpoint-project-coding-essentials-for-agents/app/utils.py:30-40 | an end of 0001-01-01 with no start overflows instead of giving a range |
| Floats.Truncate | flask-company-endpoint-project-coding-essentials-for-agents/app/utils.py:82 | int() of a float truncates toward zero |
| Payload.Lookup | flask-company-endpoint-project-coding-essentials-for-agents/app/utils.py:90 | a key an object lacks gives a missing cell; otherwise the cell holds that key's value |
| Payload.ToFrame | flask-company-endpoint-project-coding-essentials-for-agents/app/utils.py:90 | the columns are distinct and are exactly the keys that occur; one row per object; each cell is the object's value for its column |
| Payload.EmptyFrameExactly | flask-company-endpoint-project-coding-essentials-for-agents/app/utils.py:90-92 | the frame is empty exactly when no object has a key |
| Payload.BuildColumnMap | flask-company-endpoint-project-coding-essentials-for-agents/app/utils.py:94-108 | the map holds exactly the headers whose normalised form is an alias, each mapped to the alias's canonical column |
| Payload.CanonicalColumn | flask-company-endpoint-project-coding-essentials-for-agents/app/utils.py:96-108 | a header becomes a canonical column or stays as it is, and a header whose strip().lower() is an alias always becomes a canonical column |
| Payload.CanonicalMatchesItself | flask-company-endpoint-project-coding-essentials-for-agents/app/utils.py:97-108 | each canonical name normalises to its own alias |
| Payload.CanonicalColumnExactly | flask-company-endpoint-project-coding-essentials-for-agents/app/utils.py:94-110 | a header is renamed to a canonical column exactly when its strip().lower() is an alias of it |
| Payload.CanonicalColumnIdempotent | flask-company-endpoint-project-coding-essentials-for-agents/app/utils.py:94-110 | renaming a renamed header changes nothing |
| Payload.Rename | flask-company-endpoint-project-coding-essentials-for-agents/app/utils.py:110 | a header in the map takes its mapped name, any other header keeps its own, and every resulting name is an original header or a map value; one name per header, in order |
| Payload.CloseHeaderExact | flask-company-endpoint-project-coding-essentials-for-agents/app/utils.py:105-106 | "Close" names the Close column |
| Payload.CloseHeaderPadded | flask-company-endpoint-project-coding-essentials-for-agents/app/utils.py:96-106 | "close " names the Close column |
| Payload.CloseHeaderUpper | flask-company-endpoint-project-coding-essentials-for-agents/app/utils.py:96-106 | "CLOSE" names the Close column |
| Payload.RenameByColumnMap | flask-company-endpoint-project-coding-essentials-for-agents/app/utils.py:110 | renaming through the built map gives every header its canonical column |
| Payload.RenamedHasColumn | flask-company-endpoint-project-coding-essentials-for-agents/app/utils.py:94-111 | a canonical column is present after the rename exactly when some key is one of its aliases |
| Payload.RenamedHasDate | flask-company-endpoint-project-coding-essentials-for-agents/app/utils.py:111 | a Date column exists exactly when some key normalises to "date" |
| Payload.RenamedHasClose | flask-company-endpoint-project-coding-essentials-for-agents/app/utils.py:111 | a Close column exists exactly when some key normalises to "close" |
| Payload.DateColumnUnique | flask-company-endpoint-project-coding-essentials-for-agents/app/utils.py:97-98 | with a single date header, exactly one column is named Date |
| Payload.ToTimestamp | flask-company-endpoint-project-coding-essentials-for-agents/app/utils.py:114 | a date cell becomes a timestamp exactly when it is present and the column-wide conversion gives it an instant, holding that instant; a missing cell and a cell converted to NaT both become NaT |
| Payload.ConvertedRows | flask-company-endpoint-project-coding-essentials-for-agents/app/utils.py:114 | one converted row per payload row, each as wide as the frame; every cell outside the Date column is the frame's cell, and the Date cell is the frame's cell converted |
| Payload.InsertByDate | flask-company-endpoint-project-coding-essentials-for-agents/app/utils.py:115 | inserting into a date-sorted sequence keeps it sorted and adds exactly that row |
| Payload.SortByDate | flask-company-endpoint-project-coding-essentials-for-agents/app/utils.py:115 | the result is sorted by date, with NaT last, and is a permutation of the input |
| Payload.DateLeTotal | flask-company-endpoint-project-coding-essentials-for-agents/app/utils.py:115 | any two date cells are ordered one way or the other |
| Payload.NaTSortsLast | flask-company-endpoint-project-coding-essentials-for-agents/app/utils.py:114-115 | in date order every row whose date is NaT comes after every row with a timestamp |
| Payload.NormalizeHistoryPayload | flask-company-endpoint-project-coding-essentials-for-agents/app/utils.py:89-116 | each error happens exactly when its condition holds (empty frame, no date or close header, a date cell that makes the column-wide `to_datetime` raise, while blank or NaT dates are accepted); on success the columns are the renamed headers, Date and Close are present, and the rows are the converted rows, permuted and sorted by date |
| Officers.KeptOfficersSound | flask-company-endpoint-project-coding-essentials-for-agents/app/utils.py:122-132 | every entry of the listing has a truthy name or title and is the summary of a listed officer |
| Officers.KeptOfficersComplete | flask-company-endpoint-project-coding-essentials-for-agents/app/utils.py:122-132 | every officer with a truthy name or title has its summary in the listing |
| Officers.KeptOfficersAppend | flask-company-endpoint-project-coding-essentials-for-agents/app/utils.py:122-132 | the listing of a concatenation is the concatenation of the listings, so input order is kept |
| Officers.KeptOfficersAllListed | flask-company-endpoint-project-coding-essentials-for-agents/app/utils.py:125-132 | when every officer is listed, the listing is their summaries one for one |
| Officers.KeptOfficers | flask-company-endpoint-project-coding-essentials-for-agents/app/utils.py:122-132 | the listing has at most one entry per officer (its contents are stated by the Sound, Complete and Append lemmas) |
| Officers.ExtractCompanyOfficers | flask-company-endpoint-project-coding-essentials-for-agents/app/utils.py:119-134 | an absent list gives []; otherwise the loop's result is the listing of the officers |
| Records.ToRecord | flask-company-endpoint-project-coding-essentials-for-agents/app/utils.py:77-83 | keeps the date and each defined open, high, low and close price; a NaN price or volume becomes 0; a defined volume is truncated toward zero |
| Records.HistoricalRecordsFromFrame | flask-company-endpoint-project-coding-essentials-for-agents/app/utils.py:72-86 | one record per row, in row order, each the row's record |
| Records.RecordsKeepDateOrder | flask-company-endpoint-project-coding-essentials-for-agents/app/utils.py:74-77 | the records are in date order exactly when the rows are |
| Insights.Mean | flask-company-endpoint-project-coding-essentials-for-agents/app/utils.py:170-171 | the mean is NaN exactly when no value is defined |
| Insights.DefinedCountZero | flask-company-endpoint-project-coding-essentials-for-agents/app/utils.py:170-171 | no value is counted exactly when every value is NaN |
| Insights.MeanWithin | flask-company-endpoint-project-coding-essentials-for-agents/app/utils.py:170-171 | a defined mean lies within any bounds of the values it averages |
| Insights.LastN | flask-company-endpoint-project-coding-essentials-for-agents/app/utils.py:171 | tail(n) keeps the last min(n, length) values |
| Insights.MovingAverage | flask-company-endpoint-project-coding-essentials-for-agents/app/utils.py:171 | with at most 20 closes the moving average is the mean of all of them; with more, the mean of the last 20 |
| Insights.MovingAverageUndefined | flask-company-endpoint-project-coding-essentials-for-agents/app/utils.py:171 | the moving average is NaN exactly when each of the last 20 closes is NaN |
| Insights.MovingAverageUsesLastTwenty | flask-company-endpoint-project-coding-essentials-for-agents/app/utils.py:171 | with at least 20 rows, only the last 20 closes matter |
| Insights.MovingAverageWithin | flask-company-endpoint-project-coding-essentials-for-agents/app/utils.py:171 | the moving average lies within any bounds of the closes |
| Insights.ClassifyTrend | flask-company-endpoint-project-coding-essentials-for-agents/app/utils.py:158-168 | fewer than 2 valid rows give slope 0.0; otherwise the fitted slope is reported; upward iff slope > 0.01, downward iff slope < -0.01, flat otherwise |
| Insights.Profile | flask-company-endpoint-project-coding-essentials-for-agents/app/utils.py:179-183 | high iff volatility > 0.03; moderate iff in (0.015, 0.03]; low otherwise, NaN included |
| Insights.ProfileMonotone | flask-company-endpoint-project-coding-essentials-for-agents/app/utils.py:179-183 | a larger volatility never gets a lower profile |
| Insights.Recommendation | flask-company-endpoint-project-coding-essentials-for-agents/app/utils.py:173-177 | bullish iff upward with a return >= 0; bearish iff downward with a return <= 0; neutral otherwise |
| Insights.PercentChange | flask-company-endpoint-project-coding-essentials-for-agents/app/utils.py:154-156 | a zero first close gives 0; a NaN first close falls back to the latest close, giving 0; otherwise (latest - first) / first * 100; a NaN latest close gives NaN |
| Insights.PercentChangeSign | flask-company-endpoint-project-coding-essentials-for-agents/app/utils.py:156 | from a positive first close, the change is positive iff the price rose, and zero iff it did not move |
| Insights.ValidVolumesOfOne | flask-company-endpoint-project-coding-essentials-for-agents/app/utils.py:158 | a row keeps its volume exactly when its close is defined |
| Insights.ValidVolumesAppend | flask-company-endpoint-project-coding-essentials-for-agents/app/utils.py:158 | dropping rows without a close distributes over concatenation, so the kept volumes stay in row order |
| Insights.AverageVolumeAsWritten | flask-company-endpoint-project-coding-essentials-for-agents/app/utils.py:170 | int() of the mean raises exactly when there is a Volume column but no defined volume among valid rows |
| Insights.AverageVolumeRaisesWithoutValidClose | flask-company-endpoint-project-coding-essentials-for-agents/app/utils.py:158-170 | a history whose closes are all missing makes the average volume raise |
| Insights.AverageVolume | flask-company-endpoint-project-coding-essentials-for-agents/app/utils.py:170 | present exactly when there is a Volume column with a defined volume among valid rows; agrees with the code wherever the code does not raise |
| Insights.AverageVolumeWithin | flask-company-endpoint-project-coding-essentials-for-agents/app/utils.py:170 | with non-negative volumes in [lo, hi], the average volume lies in (lo - 1, hi] |
| Insights.GenerateInsights | flask-company-endpoint-project-coding-essentials-for-agents/app/utils.py:137-201 | the date range runs from the first row to the last; the latest close is the last row's close; upward or downward needs two valid closes and a slope past the threshold; fewer than 2 valid closes give flat and slope 0; upward iff at least two valid closes and a fitted slope above 0.01, downward iff at least two and below -0.01; with two or more valid closes the reported slope is the fitted slope; bullish iff upward with a defined return >= 0, bearish iff downward with a defined return <= 0, neutral otherwise (the recommendation is that of the report's trend and return); the profile follows the volatility; the percent change, average volume and moving average are those of the first and last closes, the valid volumes and the last 20 closes |
| Insights.ConstantSeriesInsights | flask-company-endpoint-project-coding-essentials-for-agents/app/utils.py:148-183 | identical closes with slope 0 and volatility 0 give no change, a flat trend, a low profile, the neutral recommendation, and a moving average equal to the close |
| Insights.TwoPointExample | flask-company-endpoint-project-coding-essentials-for-agents/app/utils.py:154-156 | two closes 100 and 110 give a 10 percent change |

## Left out

- `routes.py` and `__init__.py` are not part of this model. They cover Flask request parsing, JSON responses, mapping errors to HTTP status codes, and the app factory.
- `download_historical_data` is a network call to the provider. Its one-day extension of the end date is only an argument passed to that call.
- `datetime.utcnow()` is replaced by a `now` parameter.
- `datetime.fromisoformat` and `pd.to_datetime` are opaque parsers supplied by the caller; ISO 8601 is not re-specified. The `to_datetime` stand-in sees the whole Date column, so a cell's outcome may depend on the other cells (as with the one format pandas infers from the first value), and gives each cell an instant (time of day included), NaT (as for blank or "NaT" text) or an error.
- DateRanges.BuildDateRange: dates are whole days. A time of day is not modelled, so a start of "2024-01-01T12:00" with an end of "2024-01-01", which the code rejects as out of order, is not represented.
- DateRanges.BuildDateRange: the parser and `now` are taken to give calendar days (0001-01-01 to 9999-12-31), as `fromisoformat` and `utcnow()` do; only the default start is checked for overflow.
- DateRanges.BuildDateRange: time zones are not modelled. A zone-aware date compared with a naive one (for example a zone-aware start with no end, against the naive `utcnow()`) raises TypeError in the code, which the history route does not catch; the model has no such outcome.
- Floats: the JSON decoder accepts `Infinity` and `-Infinity`; infinite prices and volumes are not modelled.
- Payload: a JSON `true` or `false` as a cell value is not modelled.
- Payload.Lookup: a record is a sequence of fields and is assumed to have distinct keys, as a decoded JSON object has; with a repeated key the model takes the first.
- `np.polyfit`, `Series.std` and `pct_change().mean()` are floating-point numerics. The fitted slope, the volatility and the average return are inputs to the insight rules.
- Every `round(..., n)`, `strftime` and `isoformat` call is left out. Dates stay as day ordinals and values are unrounded reals.
- Text.Upper: maps ASCII letters only; Python's full Unicode case mapping of symbols is not modelled.
- Symbols.NormalizeSymbol: upper-cases ASCII letters only, so a symbol such as "é" keeps its lower-case non-ASCII letters, where Python's `upper()` would map them.
- Text.Lower: maps ASCII letters only. For header matching this is exact: the only non-ASCII character that Python lower-cases to an ASCII letter is KELVIN SIGN, which becomes 'k', and no alias contains a 'k'.
- Payload.NormalizeHistoryPayload: requires at most one header that normalises to "date". With two such headers pandas' rename yields duplicate Date columns, and that behaviour is not modelled.
- Payload.NormalizeHistoryPayload: two headers renamed to the same other canonical column (for example "high" and "high_price") become duplicate columns in pandas. The model keeps both columns without describing pandas' handling of duplicates.
- Payload.NormalizeHistoryPayload: rows with equal timestamps may come out in any relative order, because the sort is not stable.
- Payload: a JSON value is a number, text or missing. Nested lists and objects as values are not modelled.
- Insights.GenerateInsights: takes the history as rows already in date order. The re-sort and the promotion of a Date index to a column (lines 139-146) are not repeated, and NaT dates are not modelled there.
- Insights.GenerateInsights: takes the closes and volumes as floats, so the `astype(float)` conversion of the frame's cells is not modelled.
- Insights.GenerateInsights: uses the corrected average volume (see Findings), not the raising one.
- Officers.ExtractCompanyOfficers: `companyOfficers` is absent, None or a list of dictionaries. A falsy value of another type, or an officer that is not a dictionary, is not modelled.
- Symbols.NormalizeSymbol: the symbol is a string or None. Other Python values are not modelled.

## Findings

| source | as written | input that shows it | evidently intended | confidence | as-written member | corrected member |
|---|---|---|---|---|---|---|
| flask-company-endpoint-project-coding-essentials-for-agents/app/utils.py:170 | `int(valid_data["Volume"].mean())` is evaluated whenever a Volume column exists. When no row has a close, the mean is NaN and `int()` raises ValueError. The insights route does not catch this error. | the analysis payload `[{"date": "2024-01-01", "close": null, "volume": 5}]` | no average volume (None), as for a history without a Volume column | medium, not executed | Insights.AverageVolumeAsWritten, Insights.AverageVolumeRaisesWithoutValidClose | Insights.AverageVolume |
