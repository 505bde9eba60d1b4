# AgroYield forecast core, modelled in Dafny

This project models the two prediction engines of the AgroYield backend (`backend/api.py`):

- **Historical forecast** (`generate_yield_forecast`). It loads the crop's yield table and selects the row whose `Регион` label is exactly the requested region. It then searches the 32 ARIMA orders (p in 0..3, d in 0..1, q in 0..3) for the smallest in-sample mean absolute error. The first order in enumeration order wins ties. It refits that order, forecasts two periods, and appends `2025`/`2026` and the two forecasts to the period labels and yields.
- **Refined prediction** (`get_refined_yield`, `transform_russian_to_english`, `catboost_predict`). It refuses at once when no regression model is loaded. Otherwise it builds the parameter dictionary, maps the Russian region, soil, crop and weather tokens to English with a fail-open lookup, and rewrites the two flags to `Yes`/`No`. It then assembles the nine-column feature frame with its six categorical columns and scores it with the model. The response echoes the request's untransformed fields.

Modules, one per component:

- `Wrappers`: Option and Result.
- `Dataset`: the series loader. The CSV directory is a map from crop name to table.
- `OrderSearch`: the grid and the reference "first minimum" function `FirstArgmin`. `SearchOrder` is the triple loop, proved equal to that function.
- `Forecast`: the forecast pipeline as one method.
- `Vocabulary`: the four translation tables and the normalizer.
- `Refined`: feature assembly and the refined-prediction request.

Foreign numerics are parameters:

- ARIMA fit, in-sample predict and mean absolute error are one `Scorer` oracle. It returns `None` when the fit raises.
- The refit-and-forecast step is a `Refitter` oracle.
- The CatBoost model is a `Model` record whose `predict` may fail. The model loaded at startup is an `Option<Model>` passed in.

Two behaviours of the code are easy to misread:

- The `Регион` column is accepted at any position. The series and the period labels are always taken from the columns after the first, though. `Dataset.RegionColumnNotFirst` proves that the model's loading then always fails. The source fails too, unless the label is text spelling a number (see the `Dataset.ToFloats` line under "## Left out").
- A region with no matching row is raised as a `ValueError`, not the "not found" error used for a missing crop file. Only the crop file's absence is a `FileNotFound`.
- Before that `ValueError` is raised, the case-insensitive partial match of line 129 runs. Its result only feeds a log line, but it raises by itself when the region column holds no text (pandas has no `.str` accessor for it). The model returns `LabelColumnNotText` for that case.

## Model

| member | source | states |
|---|---|---|
| `Dataset.ColumnIndex` | backend/api.py:115-118 | the region column is found exactly when the header has it; the index returned is its first occurrence |
| `Dataset.SelectRows` | backend/api.py:124 | the selected rows are exactly the table rows whose label cell equals the region as text; the first one selected is the earliest matching row |
| `Dataset.ToFloats` | backend/api.py:143 | conversion fails exactly when some cell is text; otherwise every cell is the number at the same position |
| `Dataset.LoadSeries` | backend/api.py:102-143 | missing crop table gives FileNotFound; missing region column gives RegionColumnMissing with the columns; with no exact match, a text label column gives RegionNotFound listing every row's region cell and a label column of numbers gives LabelColumnNotText; when the earliest exact-match row minus its first cell is all numbers the result is Success with the headers after the first column and those numbers, and otherwise it is NotNumeric with those cells |
| `Dataset.ColumnCells` | backend/api.py:132 | the listed labels are the region-column cells of every row, in row order |
| `Dataset.NumericLabelsRejected` | backend/api.py:127-134 | for a sample table whose region codes are numbers, loading fails with LabelColumnNotText, not RegionNotFound |
| `Dataset.RegionColumnNotFirst` | backend/api.py:115-143 | when the region column is not the first column, loading never succeeds and fails past the column check |
| `Dataset.ExactLabelSelected` | backend/api.py:124-143 | for a sample table, the exact label selects its row and yields the headers after the label column with that row's numbers |
| `Dataset.NearLabelsRejected` | backend/api.py:102-134 | for the same sample, a label differing in letter case or only a prefix of the stored one gives RegionNotFound; an unknown crop gives FileNotFound |
| `OrderSearch.Grid` | backend/api.py:151-153 | the candidate list has 32 entries |
| `OrderSearch.GridEnumeration` | backend/api.py:151-153 | the grid holds every order with p <= 3, d <= 1, q <= 3 and nothing else, strictly increasing in p-outer, d-middle, q-inner order (so each once) |
| `OrderSearch.LexBeforeIsIndexOrder` | backend/api.py:151-153 | for grid orders, being visited earlier by the nested loops is the same as having a smaller position |
| `OrderSearch.FirstArgminSnoc` | backend/api.py:154-161 | scanning candidates left to right, replacing the incumbent only on a strictly smaller score, computes the first-minimum reference |
| `OrderSearch.FirstArgminNoneIff` | backend/api.py:148-170 | the search result is empty exactly when no candidate fits |
| `OrderSearch.FirstArgminIsFirstMinimum` | backend/api.py:154-161 | a found selection is a fitting candidate carrying its own score, no worse than any fitting candidate and strictly better than every fitting candidate before it |
| `OrderSearch.FirstMinimumUnique` | backend/api.py:159-161 | at most one position satisfies the first-minimum property, so the result is determined by the scores |
| `OrderSearch.GridSearchResult` | backend/api.py:148-170 | over the grid: no result exactly when no grid order fits; otherwise the order is in the grid, fits with the reported MAE, is minimal among fitting orders and strictly better than every fitting order visited before it |
| `OrderSearch.SearchOrder` | backend/api.py:148-161 | the triple loop's `(best_order, best_mae)` equals the first-minimum reference over the grid, and the scorer is consulted on exactly the grid orders in grid order |
| `Forecast.GenerateYieldForecast` | backend/api.py:97-196 | load failures propagate, and LoadFailed occurs only when loading fails; a missing crop is FileNotFound; once the series loads, the result is Success whenever an order fits, the refit succeeds and both forecasts are long enough; NoOrderFits exactly when no grid order fits; ForecastFailed only when the refit raises or a forecast is too short; on success the order and MAE are the search result, the labels and yields are the historical ones followed by `2025`, `2026` and the one-step and two-step forecasts, n + 2 entries each |
| `Vocabulary.Transform` | backend/api.py:329-355 | each of region, soil type, crop and weather becomes its table's token when known and stays unchanged otherwise; both flags become exactly `Yes` or `No`, `Yes` iff set; rainfall, temperature and days are unchanged |
| `Vocabulary.TablesSeparated` | backend/api.py:60-89 | no English token of any of the four tables is itself a Russian key of that table |
| `Vocabulary.CanonicalIffKnown` | backend/api.py:336-349 | for a token that is not already canonical, the lookup yields a canonical token exactly when the token is a known key |
| `Vocabulary.NormalizeIdempotent` | backend/api.py:336-349 | looking a token up twice gives the same as once, for tables whose tokens are not keys |
| `Vocabulary.TransformFixesCanonical` | backend/api.py:329-355 | normalizing an already normalized dictionary (flags given again as booleans) reproduces it |
| `Vocabulary.TransformExample` | backend/api.py:60-89 | Север, глинистая, Пшеница озимая, солнечно, true, false become North, Clay, Wheat, Sunny, Yes, No; unknown tokens pass through unchanged |
| `Refined.BuildPool` | backend/api.py:372-387 | the frame has the nine feature columns in the training order, the pool flags exactly the six categorical columns, each flagged name is a column, and a column is flagged exactly when its value is a string |
| `Refined.ParamsOf` | backend/api.py:417-427 | the request's crop name lands under `crop` and every other field is copied unchanged |
| `Refined.BuildPoolDescribes` | backend/api.py:372-387 | the assembled pool has the feature columns in training order, the six categorical ones flagged, and each transformed field under its own column name |
| `Refined.DescribedPoolUnique` | backend/api.py:372-387 | two pools that both describe the same transformed parameters are equal, so the model's input is determined by them |
| `Refined.CatboostPredict` | backend/api.py:357-391 | the prediction is the model's answer on a pool describing the transformed parameters (unique by `Refined.DescribedPoolUnique`) |
| `Refined.ColumnValueAt` | backend/api.py:372-382 | a lookup by column name finds the first column of that name |
| `Refined.FeatureColumnsDistinct` | backend/api.py:372-382 | the nine feature names are pairwise distinct |
| `Refined.FeatureLookup` | backend/api.py:372-382 | in a frame with the feature columns, each feature is found by name at its own position |
| `Refined.PoolLocationColumns` | backend/api.py:373-375 | Region, Soil_Type and Crop hold the transformed region, soil type and crop |
| `Refined.PoolWeatherColumns` | backend/api.py:376-380 | Rainfall_mm, Temperature_Celsius and Weather_Condition hold the transformed rainfall, temperature and weather |
| `Refined.PoolPracticeColumns` | backend/api.py:378-381 | Fertilizer_Used, Irrigation_Used and Days_to_Harvest hold the transformed flags and days |
| `Refined.GetRefinedYield` | backend/api.py:400-462 | with no model the result is ModelNotLoaded whatever the request; otherwise it fails exactly when the model fails on the pool built from the normalized request, and on success returns that prediction with the request's own crop, region, field area and base yield |
| `Refined.ModelSeesNormalizedRequest` | backend/api.py:417-451 | the model's categorical features are the request's tokens after fail-open lookup, Fertilizer_Used and Irrigation_Used are `Yes` iff the flags are set, and the numeric features are the request's own |
| `Refined.RefinedRequestExample` | backend/api.py:411-460 | for the Russian sample request the model scores North, Clay, Wheat, Sunny, Yes, No, while the response keeps Пшеница озимая and Север; with no model it is ModelNotLoaded |

## Left out

- ARIMA fitting, in-sample `predict()`, `mean_absolute_error` and `forecast()` are foreign floating-point numerics. They are the `Scorer` and `Refitter` oracles. Scores and yields are exact reals.
- OrderSearch.SearchOrder: an order whose MAE is NaN or infinite is folded into the scorer's `None`. The source's `mae < best_mae` against `np.inf` never selects such an order, so the selected result is the same. The source does not distinguish the two cases.
- Forecast.GenerateYieldForecast: that the one-step forecast equals the first value of the two-step forecast is a library guarantee. It is not assumed. It appears only as the hypothesis `StepConsistent` of one conclusion.
- CatBoost `Pool` construction internals, `predict` and model loading at startup (lines 26-32) are foreign inference. The loaded model is an `Option<Model>` handle, and `predict` returns one value or fails.
- Refined.GetRefinedYield: the source checks for the model before it builds any parameters. A pure function cannot show that order of steps. The model shows instead that with no model the result is ModelNotLoaded for every request and the model is never consulted.
- CSV reading, `os.path.exists`, `os.listdir` and path construction (lines 99-112) are file I/O. The data directory is a map from crop name to table, and an absent key is FileNotFound. Pandas guarantees tables are rectangular, and the model requires it.
- Dataset.ToFloats: a text cell is always rejected, although numpy would parse text spelling a number. Pandas' NaN for empty cells and its renaming of duplicate column names are not modelled.
- The raw row cells of lines 180-182 are modelled by the converted series, which is the same row's numeric values.
- Dataset.LoadSeries: `str.contains` at line 129 reads the region as a regular expression. For a region that is not a valid pattern, such as `Север(`, the source raises a regex error there and lists no regions. The model returns RegionNotFound instead, because Python's regular-expression syntax is not modelled. The non-text label column, which also makes line 129 raise, is modelled.
- Chart rendering, colours and base64 encoding (lines 198-256), and all logging, are presentation and I/O.
- FastAPI routes, HTTP status mapping (404/500), CORS, `/api/health`, `/api/debug/regions`, the `/api/refined-prediction` alias, the `status` field of responses and the uvicorn entry point are request plumbing.
- `src/types/crops.ts` holds two TypeScript interfaces with no behaviour.
