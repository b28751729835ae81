# Toolkit SbN CAF — a Dafny model of the prioritisation core

The Toolkit SbN CAF is a desktop application that helps watershed planners choose and rank
Nature-based Solutions (SbN) for a basin. The user delineates a watershed on a map, rates the
implementation barriers, the water-security challenges and the other challenges, and chooses a cost
option. The application then scores the 21 SbN, ranks them, and writes per-SbN sheets and a PDF
report. This project models the decision logic of that application in Dafny and proves properties
of the model. It covers the following parts:

- **Priority scoring** (module `SbnPrioritization`). Evaluations are summed against weight matrices;
  barrier values are first masked by their group's enabled flag. Each score column is normalised by
  its maximum. Priority is (Barriers + WS + Other) × Idoneidad, and the SbN are ranked or disabled.
- **Cost processing** (`CostProcessor`, `SbnSheetsGenerator`): country-factor cost scaling,
  first-match inclusive cost categories with their defaults, the (category, old value) → new value
  recategorisation of the challenge weights, and the min/max categorisation of the sheets generator.
- **Raster rules, with the I/O abstracted away** (`NormalizeRasterSbn`, `AreaCalculator`, `Utm`,
  `ProcessingPackage`, `DelimitacionCuenca`):
  - min–max normalisation with its degenerate cases;
  - five-bin area counts and UTM/EPSG codes;
  - break classification, dtype and nodata selection, and nearest-cell snapping;
  - an LRU tile cache, the D8 upstream catchment search and buffered clip windows.
- **Windows and state machines** (`WatershedDelimitationFolium`, `DashboardWindow`, `BarriersWindow`,
  `ChallengeWindows`, `SbnWindow`, `SbnPrioritizationConfigDialog`, `WindowManager`):
  - challenge values and the DF → WS/OC expansion;
  - the bounded 1–100 importance counters;
  - barrier groups forcing the value 1 when disabled;
  - the six-step workflow enablement;
  - SbN selection and ordering;
  - the window registry.
- **Utilities** (`LanguageManager`, `CacheManager`, `ScreenAdapter`, `ProjectManager`,
  `TransformBarriersCsv`, `CleanProjectBarriers`, `Precache`, `ReportPdf`, `ReportGenerator`):
  - dotted-key translation with Spanish fallback;
  - cache eviction by access time;
  - screen clamps;
  - the project template and its merge;
  - barrier-code parsing and cleaning;
  - the tile grid for precaching;
  - the report's text splitting, table rows, grouping and page layout.

Shared helpers sit in `Wrappers` (Option/Result), `PyNum` (Python's `int()`, `round()`, digit and
hex formatting) and `Sorting` (a stable sort by a total preorder, plus string order).

Modelling conventions:
- Pandas tables are sequences of records.
- Rasters are 2-D grids of optional values; a masked or NaN cell is `None`.
- Floats are `real`.
- Python dicts are item sequences in which the last write wins.
- Files, dialogs and libraries become parameters.
- Where a component changes state in place (the windows, the managers, the tile cache, the report
  pipeline), it is a Dafny `class` whose methods state the whole new state.

## Model

| member | source | states |
|---|---|---|
| SbnPrioritization.ValuesUpTo | src/utils/sbn_prioritization.py:159-169 | the value dictionary has exactly the evaluation's codes as keys |
| SbnPrioritization.LastRowWins | src/utils/sbn_prioritization.py:159-169 | a code repeated in the evaluation takes the (filtered) value of its last row, as `dict(zip(..))` does |
| SbnPrioritization.ValueVector | src/utils/sbn_prioritization.py:177-181 | one value per weight column in column order, 0 for a code missing from the evaluation |
| SbnPrioritization.CalculateScores | src/utils/sbn_prioritization.py:150-202 | the method's result is the specified score map: empty for an evaluation with neither 2 nor 4 columns; otherwise exactly one score per weight-matrix ID, equal to the weighted sum of that ID's last row over the value vector |
| SbnPrioritization.Scores | src/utils/sbn_prioritization.py:150-202 | empty for an unknown shape; otherwise keyed by exactly the weight-matrix IDs, each holding the weighted sum of its last row over the value vector |
| SbnPrioritization.DisabledGroupsDoNotScore | src/utils/sbn_prioritization.py:153-162 | changing the values of barriers whose group flag is 0 changes no score |
| SbnPrioritization.AbsentCodeIgnored | src/utils/sbn_prioritization.py:177-190 | the weight of a column whose code is absent from the evaluation does not affect the score |
| SbnPrioritization.NormalizedColumnRange | src/utils/sbn_prioritization.py:267-276 | with a positive column maximum every value is at most 1, the maximum becomes 1 and non-negative scores stay non-negative; otherwise the whole column is 0 |
| SbnPrioritization.Priority | src/utils/sbn_prioritization.py:279 | Idoneidad 0 forces priority 0; Idoneidad 1 gives Barriers + WS + Other |
| SbnPrioritization.WithScores | src/utils/sbn_prioritization.py:231-234 | only the rows whose ID has a score change, and only in the updated column; all other rows are kept |
| SbnPrioritization.Rescored | src/utils/sbn_prioritization.py:267-279 | a row keeps its ID and Idoneidad, takes the new scores and gets Prioridad = (Barriers + WS + Other) × Idoneidad |
| SbnPrioritization.NormalizedRows | src/utils/sbn_prioritization.py:246-286 | every SbN_Prioritization row keeps ID and Idoneidad, takes the normalised columns of SbN_Weights and the recomputed priority; Idoneidad 0 gives priority 0 |
| SbnPrioritization.ProjectScores.constructor | src/utils/sbn_prioritization.py:289-321 | the two project files start row-aligned |
| SbnPrioritization.ProjectScores.NormalizeAndSave | src/utils/sbn_prioritization.py:246-286 | SbN_Weights is unchanged and SbN_Prioritization becomes its normalisation |
| SbnPrioritization.ProjectScores.UpdateColumn | src/utils/sbn_prioritization.py:205-244 | the raw scores go into one column of SbN_Weights, then SbN_Prioritization is renormalised from it |
| SbnPrioritization.ProjectScores.UpdateIfScored | src/utils/sbn_prioritization.py:323-357 | an empty score map leaves both files untouched; otherwise the column update and renormalisation happen |
| SbnPrioritization.AdjustedMatrixGivesNoScores | src/utils/sbn_prioritization.py:63-89 | when the cost-adjusted file exists, the file is used both as the evaluation and as the weights, its column count is neither 2 nor 4, so no score is ever produced |
| SbnPrioritization.ChallengeScores | src/utils/sbn_prioritization.py:63-89 | corrected rule: the user's evaluation scored against the adjusted weights when they exist, else against the workbook sheet; keyed by the IDs of the weights used |
| SbnPrioritization.AdjustedMatrixScoresEvaluation | src/utils/sbn_prioritization.py:63-89 | with a 2-column evaluation and a non-empty adjusted matrix the corrected rule yields scores |
| SbnPrioritization.PositivesExactly | src/utils/sbn_prioritization.py:437-438 | the enabled part is exactly the rows with positive priority |
| SbnPrioritization.ZerosExactly | src/utils/sbn_prioritization.py:447 | the disabled part is exactly the IDs of rows with priority 0 |
| SbnPrioritization.RankedRules | src/utils/sbn_prioritization.py:439-445 | ranked entries carry ranks 1..k, are enabled and positive, in descending priority |
| SbnPrioritization.RankedThenDisabledOrdered | src/utils/sbn_prioritization.py:455-461 | ranked entries followed by the unranked ones are already in the final sort order |
| SbnPrioritization.PriorityTableRules | src/utils/sbn_prioritization.py:423-471 | the output lists the positive rows first with ranks 1..k in descending priority (a permutation of them), then the zero rows as disabled and unranked, and is sorted by (rank is None, rank) |
| SbnPrioritization.GetSbnPriorities | src/utils/sbn_prioritization.py:423-471 | the loop-built result equals the specified priority table |
| SbnPrioritization.AppendRanked | src/utils/sbn_prioritization.py:446-452 | the first loop yields the specified ranked entries, rank k + 1 for the k-th highest positive score |
| SbnPrioritization.AppendDisabled | src/utils/sbn_prioritization.py:455-462 | the second loop appends one unranked, disabled entry with value 0 per SbN scored 0, after the ranked ones |
| SbnPrioritization.ScoreRows | src/utils/sbn_prioritization.py:193-196 | the result loop writes, row by row, each row's score under its ID |
| SbnPrioritization.ScoresUpTo | src/utils/sbn_prioritization.py:193-196 | after n rows the keys are exactly the IDs of those rows |
| SbnPrioritization.LastScoreKept | src/utils/sbn_prioritization.py:193-196 | a row's score survives every later row with a different ID |
| SbnPrioritization.LastScoresKept | src/utils/sbn_prioritization.py:193-196 | every ID ends up holding the score of its last row |
| CostProcessor.ToNumeric | src/core/cost_processor.py:103 | a cell coerces to a number exactly when it is numeric, keeping its value |
| CostProcessor.CellToInt | src/core/cost_processor.py:318-320 | `int()` succeeds exactly on numeric cells and truncates non-negative values |
| CostProcessor.FirstFactorRow | src/core/cost_processor.py:84 | the first FactorCost row whose code equals the country code, and none before it matches; None when no row matches |
| CostProcessor.AdjustedCosts | src/core/cost_processor.py:67-117 | without a country code the Cost sheet is written unchanged; it fails exactly when the country's first factor row holds text; otherwise it keeps the columns and the row count |
| CostProcessor.AdjustmentTouchesOnlyCostColumns | src/core/cost_processor.py:97-105 | columns other than Cost_Mean_Inv, Cost_Mean_M and Cost_Mean_Total are kept; those three are coerced to numbers and scaled by the country factor; with an unknown country they are only coerced |
| CostProcessor.OptionColumns | src/core/cost_processor.py:144-155 | 'investment' and 'maintenance' select their column triples; every other option selects the Total triple |
| CostProcessor.FirstMatch | src/core/cost_processor.py:214-222 | the index of the first range row with numeric bounds and min ≤ v ≤ max, none earlier; None when no row matches |
| CostProcessor.MaxCategoria | src/core/cost_processor.py:225 | the largest numeric Categoria, which occurs in the table; None when no Categoria is numeric |
| CostProcessor.FindCategory | src/core/cost_processor.py:196-225 | the scanning method returns the specified category |
| CostProcessor.CategoryFallbacks | src/core/cost_processor.py:214-225 | a value no range holds gets the maximum Categoria; a value some range holds gets the first such range's category |
| CostProcessor.CategoryInRange | src/core/cost_processor.py:214-225 | with every Categoria in 1..5 every category returned is in 1..5 |
| CostProcessor.CategoryColumn | src/core/cost_processor.py:163-174 | one category per cost row: 1 for a NaN cost, `_find_category` otherwise; failure exactly when some lookup raises |
| CostProcessor.CostCatFile.Keys | src/core/cost_processor.py:251-256 | the keys are the ID column when present, otherwise 1..n |
| CostProcessor.Zipped | src/core/cost_processor.py:253-256 | the dictionary has exactly the zipped keys |
| CostProcessor.ZippedLastWins | src/core/cost_processor.py:253-256 | a repeated key takes its last value |
| CostProcessor.CostCategoryMap | src/core/cost_processor.py:251-256 | the keys of `cost_cat_dict` are exactly the key column |
| CostProcessor.IndexKeysGiveRowCategory | src/core/cost_processor.py:256 | without an ID column, SbN k (from 1) maps to the k-th category |
| CostProcessor.LookupUpTo | src/core/cost_processor.py:311-326 | `matrix_dict` has exactly the keys of the usable Matrix_CostEfe rows |
| CostProcessor.LaterRowWins | src/core/cost_processor.py:322 | a later usable row with the same key overwrites an earlier one |
| CostProcessor.LookupValuesFromRows | src/core/cost_processor.py:311-326 | every value of the lookup is the new category of some usable row with that key |
| CostProcessor.BuildLookup | src/core/cost_processor.py:311-326 | the loop builds the specified lookup |
| CostProcessor.CategoryForId | src/core/cost_processor.py:341 | found exactly when the ID is present in `cost_cat_dict`, with its value |
| CostProcessor.Recategorized | src/core/cost_processor.py:337-359 | a cell changes only when the SbN has a cost category, the cell is numeric and (category, int(value)) is in the table, and then it takes the table's value |
| CostProcessor.ChangedCellsComeFromTheTable | src/core/cost_processor.py:352-354 | every changed cell holds the new category of some usable table row |
| CostProcessor.RecategorizedGrid | src/core/cost_processor.py:332-354 | the adjusted sheet has the same shape |
| CostProcessor.ApplyCostMatrix | src/core/cost_processor.py:332-354 | the in-place loop keeps columns 0 and 1 and rewrites each other cell to its recategorised value |
| CostProcessor.AdjustChallengeSheet | src/core/cost_processor.py:295-361 | copying, rewriting and returning gives the specified adjusted sheet |
| CostProcessor.CostsOf | src/core/cost_processor.py:160 | the cost column is read exactly when it exists, coerced to numbers row by row |
| CostProcessor.IdsOf | src/core/cost_processor.py:252 | the ID column is present exactly when the sheet has one, one entry per row |
| CostProcessor.CostPipeline.CalculateAdjustedCosts | src/core/cost_processor.py:57-117 | success exactly when the adjustment succeeds; then Cost.csv holds it, otherwise it is untouched; the other files are untouched |
| CostProcessor.CostPipeline.CategorizeCosts | src/core/cost_processor.py:119-194 | a missing Cost.csv is computed first; success exactly when Cost.csv then exists, holds the option's cost column and every number in it finds a category; on success Cost_Cat.csv holds the IDs and one category per SbN |
| CostProcessor.CostPipeline.RecategorizeChallenges | src/core/cost_processor.py:227-293 | a missing Cost_Cat.csv is computed first; on success the water-security weights are recategorised and the other challenges copied unchanged |
| CostProcessor.CostPipeline.ProcessAll | src/core/cost_processor.py:363-378 | all three steps run whatever the earlier ones returned; the result is True exactly when the adjustment succeeds and the adjusted costs categorise, and then the recategorised and copied matrices are written |
| CostProcessor.AdjustedRectangular | src/core/cost_processor.py:97-108 | the adjusted sheet stays rectangular |
| CostProcessor.CostPipeline.constructor | src/core/cost_processor.py:21-40 | a pipeline keeps its country code and starts with none of its four output tables written |
| CostProcessor.CountryFactor | src/core/cost_processor.py:83-93 | a country without a factor row gets factor 1.0; otherwise the first matching row's factor: a number as that number, a blank cell as NaN, and text fails as float() does |
| CostProcessor.KnownCountryScalesCosts | src/core/cost_processor.py:89-105 | with a known country whose factor is a number, each cost cell becomes its number times that factor, and a non-numeric cell becomes NaN |
| SbnSheetsGenerator.LabelTableLanguages | src/reports/sbn_sheets_generator.py:23-27 | a label table exists exactly for 'es', 'en' and 'pt', keyed by categories 1..5 |
| SbnSheetsGenerator.CategoryLabelCases | src/reports/sbn_sheets_generator.py:135-136 | an unknown language raises; a category outside 1..5 gives 'N/A', one inside gives a real label |
| SbnSheetsGenerator.LabelsDistinct | src/reports/sbn_sheets_generator.py:23-27 | the five labels of a language are pairwise distinct |
| SbnSheetsGenerator.MinMaxColumns | src/reports/sbn_sheets_generator.py:98-112 | 'investment' and 'maintenance' select their four columns; every other option selects the Total columns |
| SbnSheetsGenerator.CostColumnsUsed | src/reports/sbn_sheets_generator.py:115-120 | the option's pair when both columns exist; otherwise both ends read Cost_Mean_Inv, or the third column |
| SbnSheetsGenerator.SheetCategory | src/reports/sbn_sheets_generator.py:159-192 | NaN gives 1; otherwise the first inclusive range, else the top category |
| SbnSheetsGenerator.EntryForCategories | src/reports/sbn_sheets_generator.py:127-143 | the entry holds the categories of the row's min and max cost and their labels |
| SbnSheetsGenerator.FallbackCategoriesCoincide | src/reports/sbn_sheets_generator.py:115-120 | when both ends fall back to one column, the min and max categories and labels coincide |
| SbnSheetsGenerator.CellValue | src/reports/sbn_sheets_generator.py:127-128 | a cost cell reads as its number; a missing column or a non-numeric cell reads as NaN |
| SbnSheetsGenerator.CategorizerFor | src/reports/sbn_sheets_generator.py:98-136 | the range columns are the option's; a label table is present exactly for a known language |
| SbnSheetsGenerator.MapUpToKeys | src/reports/sbn_sheets_generator.py:123-143 | on success every cost row has an ID and the map gets exactly one key per ID, on top of the keys it held |
| SbnSheetsGenerator.CategorizeRows | src/reports/sbn_sheets_generator.py:123-143 | the loop over the cost rows yields exactly the specified map, or the exception of the first row that raises |
| SbnSheetsGenerator.CategorizeRow | src/reports/sbn_sheets_generator.py:123-143 | one row reads its ID, then stores its entry under it; an exception there is the loop's final result |
| SbnSheetsGenerator.MapUpToStopsAt | src/reports/sbn_sheets_generator.py:123-143 | once a row raises, the rows after it change nothing |
| SbnSheetsGenerator.LastRowEntry | src/reports/sbn_sheets_generator.py:138-143 | each ID holds the entry of its last cost row |
| SbnSheetsGenerator.FindSelectorCell | src/reports/sbn_sheets_generator.py:332-344 | the first of B2..E2 holding a non-zero number, none before it holding one; whenever some candidate holds one, the cell returned does; B2 when none does |
| SbnSheetsGenerator.FindCostRow | src/reports/sbn_sheets_generator.py:360-373 | the first row in 10..50 whose L and M cells are both empty or 'N/A'; 20 when there is none |
| SbnSheetsGenerator.SbnList | src/reports/sbn_sheets_generator.py:215-223 | the list exists exactly when every non-empty ID converts with `int`; it then holds `int(ID)` of every non-empty ID, in row order |
| SbnSheetsGenerator.PresentIds | src/reports/sbn_sheets_generator.py:215 | `notna()` keeps exactly the non-empty IDs, in order |
| SbnSheetsGenerator.IdValue | src/reports/sbn_sheets_generator.py:221 | `int(ID)` truncates a number, parses text as a decimal integer and fails on an empty cell |
| SbnSheetsGenerator.SheetsGenerator.StoreEntries | src/reports/sbn_sheets_generator.py:123-143 | the row loop returns True with exactly the specified map, or the first row's exception with the rows stored before it |
| SbnSheetsGenerator.SheetsGenerator.LoadCostData | src/reports/sbn_sheets_generator.py:62-86 | success exactly when both sheets can be read; a readable Cost sheet is loaded even when Categorias_Costos then fails, and the category table changes only on success |
| SbnSheetsGenerator.SheetsGenerator.CategorizeCostsMinMax | src/reports/sbn_sheets_generator.py:88-157 | without a loaded Cost sheet it raises; with one it returns True exactly when the cost columns exist and no row raises, and the map then holds every cost row's entry under its ID; after a raising row it keeps the rows stored before it |
| SbnSheetsGenerator.ProcessAllAsWritten | src/reports/sbn_sheets_generator.py:384-386 | as written, a failed load still runs the categorisation, which raises on the missing sheet |
| SbnSheetsGenerator.LoadFailureRaises | src/reports/sbn_sheets_generator.py:384-386 | a fresh generator given an unreadable workbook makes `process_all` raise instead of returning False |
| SbnSheetsGenerator.ProcessAll | src/reports/sbn_sheets_generator.py:375-398 | intended: a failed load returns False with the map untouched; after a load it returns a flag exactly when the categorisation gets through, and True exactly when loading, categorising and sheet generation all succeed |
| SbnSheetsGenerator.SheetsGenerator.constructor | src/reports/sbn_sheets_generator.py:29-45 | a generator keeps its language and financial option and starts with no data loaded |
| NormalizeRasterSbn.BlockSize | src/core/normalize_raster_sbn.py:97 | the block side is min(256, height, width): at most each and equal to one of them, positive for a non-empty raster |
| NormalizeRasterSbn.WindowExtent | src/core/normalize_raster_sbn.py:106-107 | a window never passes the raster's edge, never exceeds the block side and is non-empty inside the raster |
| NormalizeRasterSbn.WindowOf | src/core/normalize_raster_sbn.py:103-110 | the windows tile each axis: every position lies in exactly one window |
| NormalizeRasterSbn.WindowRange | src/core/normalize_raster_sbn.py:110-118 | a window's extremes bound its valid cells and are absent exactly when it has none |
| NormalizeRasterSbn.GlobalRange | src/core/normalize_raster_sbn.py:100-118 | the global minimum and maximum are taken over unmasked cells only, and are absent exactly when no cell is valid |
| NormalizeRasterSbn.WriteByWindows | src/core/normalize_raster_sbn.py:159-173 | writing window by window sets every cell of the new band to the rule applied to its source cell |
| NormalizeRasterSbn.WriteWindow | src/core/normalize_raster_sbn.py:173 | writing one window changes only that window's cells |
| NormalizeRasterSbn.ScaledRange | src/core/normalize_raster_sbn.py:170 | a value in [min, max] scales into [0, 1], min to 0 and max to 1 |
| NormalizeRasterSbn.CompressionConfig | src/core/normalize_raster_sbn.py:338-356 | float types get ZSTD level 9 with predictor 3; all others LZW with predictor 2 |
| NormalizeRasterSbn.OutputProfile | src/core/normalize_raster_sbn.py:135-152 | integer types become float32 with ZSTD; nodata is always −9999 and tiling is off |
| NormalizeRasterSbn.NormalizeSingleRaster | src/core/normalize_raster_sbn.py:82-179 | an empty raster raises; no valid cell writes 0 (masked −9999) and returns (0, False); a constant raster writes 0.5 and returns (max, True); otherwise (v − min)/(max − min) with masked cells −9999, returning (max, True) |
| NormalizeRasterSbn.RasterList | src/core/normalize_raster_sbn.py:61-79 | a list is taken as given, a file alone, a directory gives exactly its files with a raster suffix (case-insensitive), anything else nothing |
| NormalizeRasterSbn.SuffixExamples | src/core/normalize_raster_sbn.py:76-77 | '.TIF' and '.vrt' count as rasters; 'x.tif.aux.xml' and '.tif' do not |
| NormalizeRasterSbn.NormalizeRaster | src/core/normalize_raster_sbn.py:10-58 | no raster gives the empty result; a list of one distinct path gives the info of its last outcome directly; a list with two distinct paths gives exactly the info by path, recorded in order |
| NormalizeRasterSbn.RecordAll | src/core/normalize_raster_sbn.py:36-53 | the loop records every outcome under its path in order, a failure as (0.0, False), and notes whether all paths coincide |
| NormalizeRasterSbn.InfoMapKeys | src/core/normalize_raster_sbn.py:36-53 | the recorded paths are exactly the listed paths |
| NormalizeRasterSbn.InfoMapLastWins | src/core/normalize_raster_sbn.py:42-49 | a repeated path keeps the info of its last outcome |
| NormalizeRasterSbn.ByPathReport | src/core/normalize_raster_sbn.py:55-58 | a report by path has exactly the listed paths as keys, each with the info of its last outcome |
| NormalizeRasterSbn.WriteConstant | src/core/normalize_raster_sbn.py:246-309 | every valid cell gets the constant and every masked cell −9999 |
| NormalizeRasterSbn.WriteScaled | src/core/normalize_raster_sbn.py:155-175 | every cell gets its min-max scaled value (masked ones −9999), and the raster is not constant |
| Utm.UtmZone | src/core/DelimitacionCuenca.py:22 | for a longitude in [−180, 180) the zone is in 1..60, and its 6° band holds the longitude |
| Utm.Hemisphere | src/core/DelimitacionCuenca.py:23 | 'N' exactly for latitudes ≥ 0, otherwise 'S' |
| Utm.GetUtmZone | src/core/ProcessingPackage.py:193-195 | the pair of the zone number and the hemisphere letter |
| Utm.UtmEpsgDecodes | src/core/ProcessingPackage.py:3150-3154 | the code is 32600 + zone in the north and 32700 + zone in the south, and its last two digits give back the zone |
| AreaCalculator.DetectUtmZone | src/core/area_calculator.py:29-41 | 'EPSG:326' plus the two-digit zone of the centre when the centre latitude is ≥ 0, 'EPSG:327' plus it otherwise |
| AreaCalculator.EpsgSpellsZone | src/core/area_calculator.py:33-39 | the code is ten characters, starts with EPSG:326 exactly in the north, and its last two digits spell the zone |
| AreaCalculator.BinOf | src/core/area_calculator.py:99-103 | a value gets a range exactly when it lies in [0, 1]: [0.2k, 0.2(k+1)) for the first four, the closed [0.8, 1.0] for the last |
| AreaCalculator.RangesPartition | src/core/area_calculator.py:99-103 | the five ranges are pairwise disjoint and cover exactly [0, 1] |
| AreaCalculator.CountIn | src/core/area_calculator.py:99-103 | a range's count never exceeds the number of values |
| AreaCalculator.CountsAddUp | src/core/area_calculator.py:94-103 | the five counts add up to the valid values in [0, 1]; values outside [0, 1] are counted nowhere |
| AreaCalculator.RangeArea | src/core/area_calculator.py:97-110 | the area of a range is its count times the pixel area; with no valid data it stays 0.0 |
| AreaCalculator.SbnAreas | src/core/area_calculator.py:85-112 | the dictionary has exactly the five range keys, each holding its range's area |
| AreaCalculator.AreaRow | src/core/area_calculator.py:153-157 | a row holds the code and five areas in range order, 0.0 for a missing range |
| AreaCalculator.SaveAreasCsv | src/core/area_calculator.py:115-158 | the fixed header, then one row per code in sorted code order, each code's row exactly once |
| AreaCalculator.WriteRows | src/core/area_calculator.py:153-158 | the loop writes one row per sorted code, in order |
| AreaCalculator.FirstDigitRun | src/core/area_calculator.py:210 | a digit run is found exactly when the code contains a digit |
| AreaCalculator.DigitPrefix | src/core/area_calculator.py:210 | the leading digits of a string, stopped at the first non-digit |
| AreaCalculator.FirstDigitRunExample | src/core/area_calculator.py:210 | 'SbN_01' gives ID 1 and 'SbN_21' gives ID 21 |
| AreaCalculator.CompiledColumns | src/core/area_calculator.py:235-238 | the compiled columns start with Code |
| AreaCalculator.MatchingCostRows | src/core/area_calculator.py:229 | exactly the cost rows whose first-column value equals the ID, in order |
| AreaCalculator.JoinedRow | src/core/area_calculator.py:229-238 | a compiled row has every compiled column and keeps the area row's cells |
| AreaCalculator.MergedRowsOf | src/core/area_calculator.py:229 | an area row gives at least one merged row, the first keeping its cells |
| AreaCalculator.JoinedRows | src/core/area_calculator.py:229 | one merged row per matching cost row, each with every compiled column and the area row's cells |
| AreaCalculator.ConcatPrefix | src/core/area_calculator.py:229 | the blocks before block k make a prefix of the merge |
| AreaCalculator.ConcatBlockStart | src/core/area_calculator.py:229 | a block's first row sits right after the rows of the blocks before it |
| AreaCalculator.ConcatStartsIncrease | src/core/area_calculator.py:229 | with non-empty blocks, a later block starts strictly later |
| AreaCalculator.ConcatAll | src/core/area_calculator.py:229 | a property of every row of every block holds for every merged row |
| AreaCalculator.ConcatLength | src/core/area_calculator.py:229 | with non-empty blocks the merge has at least one row per block |
| AreaCalculator.MergeBlocks | src/core/area_calculator.py:210-229 | the blocks exist exactly when every Code has a digit run; block k is area row k's merged rows |
| AreaCalculator.LeftMerge | src/core/area_calculator.py:210-229 | the merge exists exactly when every Code has a digit run |
| AreaCalculator.LeftMergeRows | src/core/area_calculator.py:229 | the merge keeps at least one row per area row, each with exactly the compiled columns |
| AreaCalculator.LeftMergeInAreaOrder | src/core/area_calculator.py:229 | a later area row's block starts later in the merge, so area-row order is kept |
| AreaCalculator.LeftMergeKeepsAreaRows | src/core/area_calculator.py:229 | each area row opens its block of the merge with its cells unchanged |
| AreaCalculator.DisclaimerRow | src/core/area_calculator.py:253-260 | a disclaimer row is padded with '' to every compiled column |
| AreaCalculator.DisclaimerTail | src/core/area_calculator.py:240-263 | eight rows over the compiled columns, row j carrying disclaimer line j in the first column |
| AreaCalculator.CompiledTable | src/core/area_calculator.py:229-263 | the table exists exactly when every Code has a digit run, and its columns are the given ones |
| AreaCalculator.CompileAreaAndCosts | src/core/area_calculator.py:163-280 | a missing Area.csv or Cost.csv gives False; an empty Cost.csv header gives False; otherwise success exactly when every Code has a digit run, with the compiled columns, and the table is the merge followed by the disclaimer rows |
| AreaCalculator.CompiledIsRectangular | src/core/area_calculator.py:229-263 | every compiled row has exactly the compiled columns, and there are at least as many rows as area rows plus the 8 disclaimer rows |
| AreaCalculator.CompiledEndsWithDisclaimer | src/core/area_calculator.py:240-263 | the last 8 rows carry the disclaimer lines, in order, in the first column |
| AreaCalculator.CompiledKeepsAreaRows | src/core/area_calculator.py:229-263 | every Area.csv row opens its block of the compiled table, before the disclaimer, with its Code and area cells unchanged |
| DelimitacionCuenca.FlowOffset | src/core/DelimitacionCuenca.py:53 | a code has a flow direction exactly when it is one of the eight D8 codes; the step is one of the eight non-zero offsets |
| DelimitacionCuenca.UpstreamNeighborsPointBack | src/core/DelimitacionCuenca.py:53-63 | eight entries, each need code a D8 code pointing from that neighbour back to the centre, with the eight offsets distinct |
| DelimitacionCuenca.Next | src/core/DelimitacionCuenca.py:216-221 | a cell drains somewhere exactly when its code is a D8 code |
| DelimitacionCuenca.NeedCodeMeansDrainsInto | src/core/DelimitacionCuenca.py:221-224 | a neighbour has its offset's need code exactly when it drains into the centre cell |
| DelimitacionCuenca.DrainingCellIsNeighbor | src/core/DelimitacionCuenca.py:197-224 | any cell draining into a cell is one of its eight upstream neighbours, with that offset's need code |
| DelimitacionCuenca.TileCache.constructor | src/core/DelimitacionCuenca.py:67-76 | tile sides are max(block side or preferred, 512), or the preferred block when the block shape cannot be read; the LRU starts empty |
| DelimitacionCuenca.TileCache.TileIndex | src/core/DelimitacionCuenca.py:78-83 | row = tr·tile_h + lr with 0 ≤ lr < tile_h, and the same for columns |
| DelimitacionCuenca.TileCache.InsideTileReads | src/core/DelimitacionCuenca.py:85-93 | the tile of every cell inside the raster can be read and contains that cell |
| DelimitacionCuenca.TileCache.Get | src/core/DelimitacionCuenca.py:95-107 | returns the tile; a hit moves its key to most recent; a failed read changes nothing; a miss appends the key and drops the least recent one beyond the limit |
| DelimitacionCuenca.Bounded | src/core/DelimitacionCuenca.py:105-106 | the oldest key is dropped only when the cache outgrows its limit |
| DelimitacionCuenca.HitReordersOnly | src/core/DelimitacionCuenca.py:97-100 | after a hit the same keys are cached, without duplicates, with the key most recent |
| DelimitacionCuenca.MissKeepsBound | src/core/DelimitacionCuenca.py:104-106 | after a miss at most the limit of keys remain, without duplicates, and the new key is the most recent |
| DelimitacionCuenca.ClosedHoldsBasin | src/core/DelimitacionCuenca.py:190-227 | a set holding the seed and closed under draining neighbours holds every cell draining to the seed |
| DelimitacionCuenca.ScanNeighbors | src/core/DelimitacionCuenca.py:197-227 | after the eight-neighbour pass every inside neighbour that drains into the cell is in the basin and queued |
| DelimitacionCuenca.BoxStep | src/core/DelimitacionCuenca.py:192-195 | widening the box to the dequeued cell keeps it tight over the cells dequeued so far |
| DelimitacionCuenca.DelineateBasin | src/core/DelimitacionCuenca.py:162-258 | corrected search: fails exactly when the seed is outside; the basin is exactly the cells draining to the seed, with a tight bounding box |
| DelimitacionCuenca.ScanNeighborsAsWritten | src/core/DelimitacionCuenca.py:213-227 | as written, a neighbour with a D8 code that drains elsewhere is marked visited as well |
| DelimitacionCuenca.DelineateBasinAsWritten | src/core/DelimitacionCuenca.py:162-258 | as written every returned cell drains to the seed, but a neighbour of the seed rejected from one side is never joined from another |
| DelimitacionCuenca.AsWrittenBasinMissesCell | src/core/DelimitacionCuenca.py:213-227 | on a 2×2 raster the as-written search leaves out a cell that drains to the seed in two steps |
| DelimitacionCuenca.CorrectedBasinHoldsCell | src/core/DelimitacionCuenca.py:213-227 | the corrected search includes that cell |
| DelimitacionCuenca.BasinMask | src/core/DelimitacionCuenca.py:232-256 | the mask is (max_r − min_r + 1) × (max_c − min_c + 1), holds only 0 and 1, and is 1 exactly at basin cells |
| DelimitacionCuenca.ClipWindow | src/core/DelimitacionCuenca.py:357-361 | 0 ≤ rmin_b ≤ rmin < rmax < rmax_b ≤ H (and the same for columns), with the five-cell buffer wherever it fits |
| DelimitacionCuenca.BufferedMask | src/core/DelimitacionCuenca.py:388-393 | the buffered mask has the clip window's size |
| DelimitacionCuenca.BufferedMaskMarksBasin | src/core/DelimitacionCuenca.py:388-393 | the mask pasted at offset (rmin − rmin_b, cmin − cmin_b) is 1 exactly at the window's basin cells |
| DelimitacionCuenca.ScanRow | src/core/DelimitacionCuenca.py:140-148 | scanning a row keeps the first strictly nearer network cell |
| DelimitacionCuenca.NearestInWindow | src/core/DelimitacionCuenca.py:137-148 | the network cell of the window nearest the outlet (first in scan order on ties), or none when the window holds none |
| DelimitacionCuenca.SearchWindow | src/core/DelimitacionCuenca.py:131-135 | the window stays inside the raster and holds every cell within the radius of the outlet |
| DelimitacionCuenca.RadiiAsWritten | src/core/DelimitacionCuenca.py:129-154 | the radii tried are 256, 512, … as long as they are at most max(H, W) and max_expand |
| DelimitacionCuenca.RadiiCorrected | src/core/DelimitacionCuenca.py:129-154 | corrected radii stay within max_expand and stop after the first one reaching max(H, W) |
| DelimitacionCuenca.SearchRadii | src/core/DelimitacionCuenca.py:129-159 | the outlet snaps to the nearest network cell of the first window holding one, else stays put; the value is its accumulated area |
| DelimitacionCuenca.SnapToNetworkAsWritten | src/core/DelimitacionCuenca.py:121-159 | the as-written search over the as-written radii |
| DelimitacionCuenca.SnapToNetwork | src/core/DelimitacionCuenca.py:121-159 | the corrected search over the corrected radii |
| DelimitacionCuenca.SmallRasterNeverSearched | src/core/DelimitacionCuenca.py:130 | as written, a raster under 256 cells on both sides is never searched |
| DelimitacionCuenca.WideWindowCovers | src/core/DelimitacionCuenca.py:131-135 | a window whose radius reaches max(H, W) covers the whole raster |
| DelimitacionCuenca.CorrectedReachesCover | src/core/DelimitacionCuenca.py:129-154 | with max_expand a power-of-two multiple of 256 at least max(H, W), the corrected radii end on a covering window |
| DelimitacionCuenca.CorrectedSnapFindsNetwork | src/core/DelimitacionCuenca.py:121-159 | with the default max_expand the corrected search lands on the network whenever the raster has a network cell |
| DelimitacionCuenca.AsWrittenSnapStaysPut | src/core/DelimitacionCuenca.py:129-159 | on a 1×2 raster the as-written search keeps the outlet off the network though its neighbour is on it |
| DelimitacionCuenca.CorrectedSnapMoves | src/core/DelimitacionCuenca.py:129-159 | the corrected search moves that outlet onto the network |
| DelimitacionCuenca.SearchStep | src/core/DelimitacionCuenca.py:190-227 | one dequeue keeps the search invariants, closes one more queued cell, widens the box to it, and either visits a new cell or leaves the queue as it was |
| DelimitacionCuenca.VisitNeighbor | src/core/DelimitacionCuenca.py:197-227 | corrected neighbour check: an unvisited inside neighbour that drains into the cell joins the basin and the queue, one with no D8 code is only marked visited, anything else changes nothing |
| DelimitacionCuenca.VisitNeighborAsWritten | src/core/DelimitacionCuenca.py:213-227 | as written, every unvisited inside neighbour is marked visited, and only one that drains into the cell joins the basin and the queue |
| ProcessingPackage.NetworkMask | src/core/ProcessingPackage.py:354 | the channel mask has the shape of the accumulation grid |
| ProcessingPackage.DrainageNetwork | src/core/ProcessingPackage.py:354-361 | ValueError exactly when no cell's area exceeds the threshold (strictly); otherwise the mask marks exactly those cells |
| ProcessingPackage.FirstWith | src/core/ProcessingPackage.py:396-400 | the first index where the predicate holds, none before it; none when it holds nowhere |
| ProcessingPackage.LastWith | src/core/ProcessingPackage.py:396-401 | the last index where the predicate holds, none after it; none when it holds nowhere |
| ProcessingPackage.WatershedClip | src/core/ProcessingPackage.py:396-403 | an empty watershed raises; otherwise the clip window is [max(0, min − 5), min(size, max + 6)) on each axis and holds every watershed cell |
| ProcessingPackage.NearestInTile | src/core/ProcessingPackage.py:621-630 | the mask cell of a tile nearest the point, first in scan order on ties |
| ProcessingPackage.MergeTile | src/core/ProcessingPackage.py:631-633 | replacing the running best only when strictly closer keeps the best over the tiles scanned so far |
| ProcessingPackage.SnapToMask | src/core/ProcessingPackage.py:608-634 | the point stays put exactly when the mask is empty; otherwise it moves to the corner coordinates (xmin + col·dx, ymax − row·|dy|) of a mask cell nearest to it |
| ProcessingPackage.NetworkHasChannel | src/core/ProcessingPackage.py:354-369 | a network the drainage step returned holds a channel cell, so the snap always moves onto it |
| ProcessingPackage.CentreAddsOne | src/core/ProcessingPackage.py:2244-2248 | counting the centre adds exactly one at every target pixel |
| ProcessingPackage.SelectionMask | src/core/ProcessingPackage.py:2297 | a pixel is selected exactly when it is a target pixel whose uint8-stored neighbour count reaches the minimum; a minimum above 255 selects nothing; the selection lies inside the targets |
| ProcessingPackage.SelectWithNeighbors | src/core/ProcessingPackage.py:2181-2300 | an even or too-small kernel or a negative minimum fails the assertions, as does a raster without target pixels; otherwise the selection mask and its counts |
| ProcessingPackage.TargetMask | src/core/ProcessingPackage.py:2233 | exactly the valid pixels equal to the target value |
| ProcessingPackage.SelectionShrinksWithMinimum | src/core/ProcessingPackage.py:2297 | a larger neighbour minimum never selects more pixels |
| ProcessingPackage.ZeroMinimumKeepsTargets | src/core/ProcessingPackage.py:2297 | with a minimum of 0 every target pixel is selected |
| ProcessingPackage.TargetResolution | src/core/ProcessingPackage.py:1378-1420 | a reference raster's absolute pixel size wins; otherwise no resolution gives none, a number a square pixel and a pair (x, y); any other argument or a non-positive size raises |
| ProcessingPackage.MostCommon | src/core/ProcessingPackage.py:1651 | a most frequent value, first in order among equally frequent ones |
| ProcessingPackage.DefaultNodata | src/core/ProcessingPackage.py:1655-1669 | 255 for Byte, 65535 for UInt16, −32768 for Int16, 4294967295 for UInt32, −2147483648 for Int32, −9999.0 otherwise |
| ProcessingPackage.ChooseNodata | src/core/ProcessingPackage.py:1645-1669 | the most common declared NoData when some source declares one; otherwise the safe value of the most common source type |
| ProcessingPackage.OptimalDataType | src/core/ProcessingPackage.py:1767-1797 | the first of Byte / Int16 (−128..127) / UInt16 / Int16 / UInt32 / Int32 / Float32 whose range holds the data range together with NoData |
| ProcessingPackage.TypeChainNarrowest | src/core/ProcessingPackage.py:1767-1797 | the chosen type is no wider than any integer type that holds the range |
| ProcessingPackage.Linspace6 | src/core/ProcessingPackage.py:2897 | six breaks from the minimum to the maximum, non-decreasing |
| ProcessingPackage.ClassBreaks | src/core/ProcessingPackage.py:2885-2930 | a custom list must have exactly six values and an unknown method raises; otherwise six breaks, the custom list unchanged |
| ProcessingPackage.CategoryUpTo | src/core/ProcessingPackage.py:2971-2976 | after the first n classes the category is the last class that matched, or 0 |
| ProcessingPackage.CategoriesPartition | src/core/ProcessingPackage.py:2969-2976 | with ordered breaks, category 0 exactly outside [b0, b5], and category k exactly on class k, the first class closed on both ends |
| ProcessingPackage.ClassifyPixels | src/core/ProcessingPackage.py:2969-2976 | the loop writes one category per pixel, equal to the specified category |
| ProcessingPackage.ValidPixels | src/core/ProcessingPackage.py:2950-2955 | exactly the defined pixels different from NoData |
| ProcessingPackage.CategoryCounts | src/core/ProcessingPackage.py:2988-2998 | five rows, categories 1..5 with their pixel counts, 0 for an absent category |
| ProcessingPackage.CountsCoverClassified | src/core/ProcessingPackage.py:2982-2998 | the five counts add up to the pixels outside category 0 |
| ProcessingPackage.ClassifyContinuousRaster | src/core/ProcessingPackage.py:2885-2998 | break errors propagate; no valid pixel raises; otherwise the counts of the classified pixels |
| ProcessingPackage.SumBounds | src/core/ProcessingPackage.py:3098-3101 | a sum of n values within [lo, hi] lies within [n·lo, n·hi] |
| ProcessingPackage.PolygonStat | src/core/ProcessingPackage.py:3072-3111 | no pixel gives 0 for 'sum' and NaN otherwise; count, sum, minimum and maximum as named; the mean is the sum over the count (between the extremes); the standard deviation is that of the population variance about the mean; an unsupported statistic gives NaN |
| ProcessingPackage.PolygonPixelStats | src/core/ProcessingPackage.py:3038-3123 | one result per polygon, in order, each the polygon's statistic |
| ProcessingPackage.WatershedBox | src/core/ProcessingPackage.py:396-401 | the box is absent exactly for an empty watershed; otherwise it lies in the raster, holds every watershed cell, and each of its four edges touches a watershed cell |
| ProcessingPackage.SnapTileRow | src/core/ProcessingPackage.py:617-633 | after one row of tiles the best cell is the nearest mask cell of the rows above and of that row, and the point is its centre (or stays put without one) |
| ProcessingPackage.SnapTile | src/core/ProcessingPackage.py:619-633 | one tile extends the scanned part of the row by up to one tile width and keeps the best cell the nearest of everything scanned |
| ProcessingPackage.ClassPass | src/core/ProcessingPackage.py:2969-2976 | one pass gives the pixels of class i category i + 1 and leaves the others as they were |
| ProcessingPackage.ResolutionFromArg | src/core/ProcessingPackage.py:1404-1420 | no argument gives no resolution; a number gives a square pixel, a pair its two sides; any other argument, a list of another length or a non-positive side raises |
| ProcessingPackage.PairResolution | src/core/ProcessingPackage.py:1409-1420 | a list or tuple is accepted exactly when it holds two positive values, which become the pixel sides |
| ProcessingPackage.JenksBreaks | src/core/ProcessingPackage.py:2899-2913 | six breaks: the sample minimum, the midpoints of consecutive sorted centres, and the sample maximum |
| ProcessingPackage.StdDevBreaks | src/core/ProcessingPackage.py:2915-2926 | six breaks from the sample minimum to its maximum, every one clipped between them |
| ProcessingPackage.StoredCount | src/core/ProcessingPackage.py:2262-2267 | the convolved count is stored in uint8: always below 256, and equal to the true neighbour count whenever that is below 256 |
| ProcessingPackage.ConstantPixelsHaveNoSpread | src/core/ProcessingPackage.py:3072-3111 | pixels all of one value have that value as mean and zero variance |
| WatershedDelimitationFolium.ValueToCategory | src/windows/watershed_delimitation_folium.py:1138-1159 | the category is one of the five keys, and each key is returned exactly when the value lies in its band of width 20 (the last one open above) |
| WatershedDelimitationFolium.CategoryMonotone | src/windows/watershed_delimitation_folium.py:1150-1159 | a larger value never falls in a lower category |
| WatershedDelimitationFolium.CategoryWeight | src/windows/watershed_delimitation_folium.py:1203-1205 | every raster category weighs between 10 and 90 |
| WatershedDelimitationFolium.ChallengeValue | src/windows/watershed_delimitation_folium.py:1304 | the weighted mean is undefined (NaN) exactly when the count table is empty, and otherwise lies in [10, 90] |
| WatershedDelimitationFolium.Cut | src/windows/watershed_delimitation_folium.py:1208-1212 | no label exactly for NaN, a negative value, or 0 under right-closed bins; a label is one of 10..90, 10 exactly up to the first edge, 90 exactly above the last |
| WatershedDelimitationFolium.CutMonotone | src/windows/watershed_delimitation_folium.py:1229 | with increasing edges, a larger load never gets a lower label |
| WatershedDelimitationFolium.LoadPerArea | src/windows/watershed_delimitation_folium.py:1225 | the load times area·100 is the basin's pixel sum; a missing sum stays missing |
| WatershedDelimitationFolium.DfValue | src/windows/watershed_delimitation_folium.py:1314-1318 | 50 when the raster is missing; an error exactly when the table is empty; otherwise in [10, 90] |
| WatershedDelimitationFolium.LoadLabel | src/windows/watershed_delimitation_folium.py:1249-1278 | 50 when the raster is missing; an error exactly when the cut has no label; otherwise a label |
| WatershedDelimitationFolium.WsValue | src/windows/watershed_delimitation_folium.py:1215-1318 | WS03 is the sediment load label, failing also when its raster's classification raises; WS04 is the larger of the nitrogen and phosphorus labels and fails exactly when either label or either classification fails; WS01/WS02 come from their count tables |
| WatershedDelimitationFolium.CalculateDefaultWaterSecurity | src/windows/watershed_delimitation_folium.py:1161-1355 | skipped exactly when an input or the area is missing; failed exactly when some WS value fails; when saved, four rows WS01..WS04 with each value, and flood risk and water stress the categories of WS01 and WS02 |
| WatershedDelimitationFolium.ZeroLoadFailsAsWritten | src/windows/watershed_delimitation_folium.py:1208-1229 | with right-closed bins starting at 0, a basin with zero sediment load fails and nothing is saved |
| WatershedDelimitationFolium.ZeroLoadGetsLowestLabel | src/windows/watershed_delimitation_folium.py:1208-1229 | with the lowest bin closed at 0, the same basin is saved with WS03 = 10 |
| WatershedDelimitationFolium.ExpandOcAt | src/windows/watershed_delimitation_folium.py:1420-1432 | code j of group g is written at position SizeBefore(g)+j, with the group's value |
| WatershedDelimitationFolium.GroupOf | src/windows/watershed_delimitation_folium.py:1406-1416 | the group an OC number belongs to is one of the nine and holds that number |
| WatershedDelimitationFolium.OcGroupsInOrder | src/windows/watershed_delimitation_folium.py:1406-1416 | the DF-to-OC mapping lists OC01..OC25 in order, 25 codes in all, group after group |
| WatershedDelimitationFolium.OcRowsInOrder | src/windows/watershed_delimitation_folium.py:1406-1432 | the D_O rows are OC01..OC25 in order, and OCn carries the value of the DF its group comes from |
| WatershedDelimitationFolium.BuildOcRows | src/windows/watershed_delimitation_folium.py:1418-1432 | the nested loop produces the group-by-group expansion of the mapping |
| WatershedDelimitationFolium.CalculateDefaultOtherChallenges | src/windows/watershed_delimitation_folium.py:1357-1446 | skipped exactly when an input is missing; failed exactly when some DF value fails; when saved, 25 rows OCn with the value of DF in its group |
| WatershedDelimitationFolium.SbnId | src/windows/watershed_delimitation_folium.py:934 | an ID is parsed only from a non-empty run of digits after the first underscore, and is its decimal value |
| WatershedDelimitationFolium.SbnIdExamples | src/windows/watershed_delimitation_folium.py:933-934 | SbN_01 gives 1 and SbN_21 gives 21 |
| WatershedDelimitationFolium.Suitability | src/windows/watershed_delimitation_folium.py:936-944 | the suitability is 1 exactly when normalisation found data, else 0 |
| WatershedDelimitationFolium.SetItemLookup | src/windows/watershed_delimitation_folium.py:937 | a dictionary assignment keeps keys distinct, sets that key and changes no other |
| WatershedDelimitationFolium.Entry | src/windows/watershed_delimitation_folium.py:926-944 | an entry exists exactly for an SbN raster whose mosaic was built and whose ID parses, and holds that ID and its suitability |
| WatershedDelimitationFolium.CollectSuitability | src/windows/watershed_delimitation_folium.py:900-950 | the dictionary has distinct keys and for every ID holds the entry of the last raster with that ID |
| WatershedDelimitationFolium.UpdateSbnSuitability | src/windows/watershed_delimitation_folium.py:1460-1474 | the row order and IDs are kept; a row whose ID has an item takes its value, other rows are unchanged |
| WatershedDelimitationFolium.AcceptCoordinates | src/windows/watershed_delimitation_folium.py:1859-1872 | accepted exactly when both entries parse and lie in [-90, 90] and [-180, 180], returning them |
| WatershedDelimitationFolium.DelineationWindow.OnCoordinatesSelected | src/windows/watershed_delimitation_folium.py:302-323 | the point is recorded, delineation is enabled, and the previous basin and save button are cleared |
| WatershedDelimitationFolium.AverageFlow | src/windows/watershed_delimitation_folium.py:1090-1095 | the flow times the seconds of a year is the yearly volume awy/1000 · area·10⁶, and is non-negative for non-negative inputs |
| WatershedDelimitationFolium.DelineationWindow.constructor | src/windows/watershed_delimitation_folium.py:18-24 | the window starts with no point, no basin, and delineation and saving disabled |
| WatershedDelimitationFolium.GroupPosition | src/windows/watershed_delimitation_folium.py:1406-1432 | code j of a group sits at the group's start plus j in the flat code list |
| WatershedDelimitationFolium.ClassifiedLoad | src/windows/watershed_delimitation_folium.py:1224-1240 | a missing raster gives 50; an existing one fails exactly when its load label fails or the classification of the raster that follows raises; otherwise the load label |
| DashboardWindow.InitialSteps | src/windows/dashboard_window.py:65-72 | the six steps start not completed and without data, and only the first is enabled |
| DashboardWindow.FirstIncomplete | src/windows/dashboard_window.py:699-711 | every step before the returned position is completed, and the step at it (if any) is not |
| DashboardWindow.ResequenceSequenced | src/windows/dashboard_window.py:689-713 | resequencing changes only the enabled flags, keeps the steps well formed, leaves them sequenced (completed steps and the first pending one enabled, later ones disabled) and is idempotent |
| DashboardWindow.SameCompletionSameFirst | src/windows/dashboard_window.py:699-711 | two step lists with the same completion flags have the same first pending step |
| DashboardWindow.SequencedShape | src/windows/dashboard_window.py:699-711 | in a sequenced list, a pending step after a pending step is disabled, and a pending enabled step has only completed steps before it |
| DashboardWindow.InitialSequenced | src/windows/dashboard_window.py:65-72 | the initial steps are already sequenced and their first pending step is the first step |
| DashboardWindow.StepIndex | src/windows/dashboard_window.py:1384 | a step ID is found exactly when it is one of the six, at its position |
| DashboardWindow.ProgressOf | src/windows/dashboard_window.py:1417-1423 | the saved progress has one entry per step holding its ID, completion and data |
| DashboardWindow.LastSaved | src/windows/dashboard_window.py:649-655 | the saved entry used for a step is one of the saved entries and carries that step's ID |
| DashboardWindow.RestoreFromLastSaved | src/windows/dashboard_window.py:649-655 | restoring keeps each step's ID, order and enabled flag; a step without a saved entry is unchanged; otherwise it takes the saved completion (default false) and data (default none) |
| DashboardWindow.Fixed2Digits | src/windows/dashboard_window.py:886-887 | a float is shown as digits, a point and two digits whose value is the number rounded half-even to hundredths |
| DashboardWindow.TechnicalFieldText | src/windows/dashboard_window.py:871-894 | "not available" exactly for None, the empty string or the empty list; a translation exactly for a category key; floats with two decimals, integers and other strings as text |
| DashboardWindow.Dashboard.UpdateButtonsSequence | src/windows/dashboard_window.py:689-713 | on a live window, the steps become their resequenced form; on a destroyed one nothing changes |
| DashboardWindow.Dashboard.UpdateWorkflowStep | src/windows/dashboard_window.py:1375-1388 | an unknown step or destroyed window changes nothing; otherwise the step takes the new completion and data and the list is resequenced |
| DashboardWindow.Dashboard.ResetWorkflowOnNewDelineation | src/windows/dashboard_window.py:1390-1433 | on a live window all steps return to their initial state, and with a project the progress written is the completion and data of the reset steps |
| DashboardWindow.Dashboard.RestoreProgress | src/windows/dashboard_window.py:630-668 | the steps are the saved progress restored onto the current steps, then resequenced on a live window |
| DashboardWindow.Dashboard.OnSbnOpened | src/windows/dashboard_window.py:1117 | opening the SbN window enables the report step and changes nothing else |
| DashboardWindow.Dashboard.OnSbnClosed | src/windows/dashboard_window.py:1136-1144 | closing it marks the SbN step completed and, with a project on a live window, resequences the steps; with a project the whole step list is then written as the saved progress |
| DashboardWindow.ReportAfterSbn | src/windows/dashboard_window.py:1136-1142 | after the SbN step is completed, the report step is enabled exactly when it was completed or every step before SbN was |
| DashboardWindow.Dashboard.constructor | src/windows/dashboard_window.py:25-75 | a dashboard starts live, without a project or saved progress, with the six initial steps |
| DashboardWindow.ApplySavedAt | src/windows/dashboard_window.py:649-655 | one saved entry keeps every step's ID, order and enabled flag, leaves other steps alone and sets its own step's completion (default false) and data |
| DashboardWindow.Dashboard.SaveProject | src/windows/dashboard_window.py:1205-1213 | with project data the progress written is the whole current step list; without it nothing is written; the steps are unchanged |
| DashboardWindow.SavedForm | src/windows/dashboard_window.py:649-655 | either written form reads back as one entry per step with its ID, completion and data |
| DashboardWindow.LastSavedIsLast | src/windows/dashboard_window.py:649-655 | an entry that no later entry shares its ID with is the one used for that step |
| DashboardWindow.WrittenProgressRestores | src/windows/dashboard_window.py:630-668 | loading what either save path wrote gives every step back its completion and data |
| BarriersWindow.GroupIndex | src/windows/barriers_window.py:90-96 | a group code is found exactly when it is one of GB01..GB05, at its position |
| BarriersWindow.ToBarrier | src/windows/barriers_window.py:105-112 | an accepted row becomes a barrier with a non-empty code and description and the neutral default value 1 |
| BarriersWindow.GroupBarriersMembers | src/windows/barriers_window.py:98-112 | a group's barriers are exactly the accepted rows with that group code |
| BarriersWindow.LoadCatalog | src/windows/barriers_window.py:68-114 | the catalogue has the five groups, each holding exactly its accepted rows in file order |
| BarriersWindow.BarriersState.constructor | src/windows/barriers_window.py:14-64 | before its interface is built, the window holds the loaded catalogue, every group enabled, no values and no previous data; building the interface then loads the saved evaluation, as BarriersWindow.BarriersState.LoadPrevious |
| BarriersWindow.BarriersState.LoadPrevious | src/windows/barriers_window.py:163-186 | an existing Barriers.csv is loaded as by BarriersWindow.BarriersState.Load; without one, the default file is written and that file is loaded; when it cannot be written nothing changes |
| BarriersWindow.DefaultRowsNeutral | src/windows/barriers_window.py:119-161 | the default file lists the catalogue barriers group after group, and every one of its rows has value 1 and group flag 1 |
| BarriersWindow.NeutralRowsLoad | src/windows/barriers_window.py:203-208 | loading rows that all carry 1 stores 1 for every code they list and adds no other value |
| BarriersWindow.EnabledRowsLoad | src/windows/barriers_window.py:210-220 | loading rows whose group flags are all on leaves every group on |
| BarriersWindow.DefaultFileLoad | src/windows/barriers_window.py:163-229 | a window opened on a project without Barriers.csv ends with every group on, every catalogue barrier stored at 1 and no other value stored |
| BarriersWindow.BarriersState.OnGroupToggle | src/windows/barriers_window.py:374-381 | the group's state is set; disabling it also sets every barrier of that group to the neutral value and leaves the other values unchanged |
| BarriersWindow.BarriersState.OnBarrierValueChange | src/windows/barriers_window.py:383-386 | the barrier's value is set and nothing else changes |
| BarriersWindow.BarriersState.Save | src/windows/barriers_window.py:409-437 | the rows written are the group-by-group listing of every barrier with its value (default 1), forced to 1 in a disabled group, its group and the group's flag |
| BarriersWindow.SaveRowAt | src/windows/barriers_window.py:421-437 | barrier k of group g is written at position CountBefore(g)+k with its group, flag and (forced) value |
| BarriersWindow.SaveRowsForced | src/windows/barriers_window.py:424-435 | every saved flag is 0 or 1, a disabled group's rows carry the neutral value, and every group written is one of the five |
| BarriersWindow.BarriersState.Load | src/windows/barriers_window.py:163-229 | when every value parses: previous data is marked, values are written row by row (last row wins, truncated) and each known group takes its last row's flag; when a value does not parse: the rows before it are written, the groups and the previous-data flag stay as they were |
| BarriersWindow.LoadValuesUnique | src/windows/barriers_window.py:203-207 | a code written once is loaded with its truncated value |
| BarriersWindow.LoadStatesLast | src/windows/barriers_window.py:210-219 | a group's loaded state is the flag of its last row |
| BarriersWindow.SavedCodeUnique | src/windows/barriers_window.py:421-437 | with distinct codes in the catalogue, each saved barrier code appears in exactly one row |
| BarriersWindow.SavedGroupLast | src/windows/barriers_window.py:421-437 | the last saved row of a non-empty group carries its flag, and no later row belongs to it |
| BarriersWindow.SaveLoadRoundTrip | src/windows/barriers_window.py:163-229 | loading what was saved gives every barrier its (forced) value and every non-empty group its state back |
| BarriersWindow.ValueLabel | src/windows/barriers_window.py:388-397 | the values -1..3 get their five labels in order, any other value the neutral label |
| BarriersWindow.BarrierItem.constructor | src/windows/barriers_window.py:686-748 | an item starts with its code and its group's switch; building it ends in set_enabled of that switch, so an enabled item keeps the value it is given and reports nothing, while a disabled item starts at 1 and reports (code, 1) to the window |
| BarriersWindow.BarrierItem.SetEnabled | src/windows/barriers_window.py:842-856 | the flag is set; disabling also resets the value to 1 and reports (code, 1) to the window; enabling keeps the value and reports nothing |
| BarriersWindow.StripHashes | src/windows/barriers_window.py:813 | the result is a suffix of the input that does not start with '#' |
| BarriersWindow.FormatParse | src/windows/barriers_window.py:810-832 | a colour formatted from channels in -15..255 parses back to those channels |
| BarriersWindow.ChannelBounds | src/windows/barriers_window.py:818-820 | for a factor in [0, 1] lightening moves a channel up to at most 255; darkening moves a non-negative channel down to at least 0 and a negative one up to at most 0; factor 1 changes nothing |
| BarriersWindow.LightenDarkenParse | src/windows/barriers_window.py:810-832 | lightening or darkening a well-formed colour by a factor in [0, 1] gives a well-formed colour |
| BarriersWindow.SaveLoadValue | src/windows/barriers_window.py:201-206 | saving then loading gives each barrier of an enabled group its value and each barrier of a disabled group the neutral value |
| BarriersWindow.SaveLoadState | src/windows/barriers_window.py:209-219 | saving then loading restores every non-empty group's enabled flag |
| BarriersWindow.ReadValues | src/windows/barriers_window.py:201-206 | the value loop fails exactly when some row does not parse, having written the values of exactly the rows before the first such row |
| BarriersWindow.FirstUnparsed | src/windows/barriers_window.py:204 | none exactly when every value parses; otherwise a row whose value does not parse with every earlier one parsing |
| BarriersWindow.ReadBack | src/windows/barriers_window.py:421-437 | rows written by a save read back with every value parsing, as the same rows |
| BarriersWindow.Parsed | src/windows/barriers_window.py:201-206 | one numeric row per read row, with the same code, value, group and flag |
| BarriersWindow.PyStrip | src/windows/barriers_window.py:816 | stripping whitespace leaves no whitespace at either end and keeps some text whenever a non-whitespace character was there |
| BarriersWindow.StripShort | src/windows/barriers_window.py:816 | for texts of at most two characters: all-whitespace strips to empty, one padding character is removed from either side, and two non-whitespace characters are kept |
| BarriersWindow.HexChannel | src/windows/barriers_window.py:816 | a two-character slice parses to a value in -15..255: two hex digits as a byte, a sign and a digit as a signed digit, a digit padded with whitespace as that digit; all-whitespace does not parse |
| BarriersWindow.ParseColor | src/windows/barriers_window.py:812-816 | every channel that parses lies in -15..255 |
| BarriersWindow.Hex02Channel | src/windows/barriers_window.py:821 | a channel in -15..255 formatted with 02x is two characters that parse back to it, a negative one as a sign and a digit |
| ChallengeWindows.OtherChallengeCodes | src/windows/other_challenges_window.py:50-53 | there are 25 codes and the i-th is "OC" followed by i+1 zero-filled to two digits |
| ChallengeWindows.Pad2Value | src/windows/other_challenges_window.py:53 | zero-filling to two places gives digits whose value is the number |
| ChallengeWindows.OtherChallengeCodesShape | src/windows/other_challenges_window.py:50-53 | the 25 codes are distinct, run from OC01 to OC25 and are four characters long |
| ChallengeWindows.WaterSecurityCodesDistinct | src/windows/water_security_window.py:29-54 | the four water-security codes WS01..WS04 are distinct |
| ChallengeWindows.ImportanceLevel | src/windows/water_security_window.py:204-217 | each level is returned exactly for its band of 20 within 1..100, and "medium" also for any value outside 1..100 |
| ChallengeWindows.LevelMonotone | src/windows/other_challenges_window.py:194-207 | within 1..100, a larger value never gets a lower level |
| ChallengeWindows.LevelBand | src/windows/water_security_window.py:204-217 | within 1..100, the level's rank is (v − 1) div 20 |
| ChallengeWindows.ChallengeRow.constructor | src/windows/water_security_window.py:432-444 | a row starts with its code and default value, shown in its entry |
| ChallengeWindows.ChallengeRow.OnEntryChange | src/windows/water_security_window.py:533-548 | an entry that parses to 1..100 becomes the value and is reported; anything else restores the previous value in the entry and reports nothing; the value stays in range |
| ChallengeWindows.ChallengeRow.Increment | src/windows/water_security_window.py:550-557 | below 100 the value goes up by one, is shown and reported; at 100 nothing changes |
| ChallengeWindows.ChallengeRow.Decrement | src/windows/other_challenges_window.py:537-544 | above 1 the value goes down by one, is shown and reported; at 1 nothing changes |
| ChallengeWindows.ChallengeRow.ShowLoadedValue | src/windows/water_security_window.py:291-305 | a loaded value becomes the row's value and its entry text |
| ChallengeWindows.Get | src/windows/water_security_window.py:317-318 | a code's stored value, or the default 50 when it has none |
| ChallengeWindows.SaveRows | src/windows/water_security_window.py:314-324 | one row per challenge, in order, carrying its code |
| ChallengeWindows.ParsedPrefix | src/windows/water_security_window.py:275-279 | the loop stops at the first row whose value does not parse; every row before it parses |
| ChallengeWindows.LoadPrefixUntouched | src/windows/water_security_window.py:275-279 | a code not read before the failing row keeps its previous value |
| ChallengeWindows.LoadPrefixLastWins | src/windows/water_security_window.py:275-279 | a code read before the failing row takes the truncated value of its last row |
| ChallengeWindows.SaveLoadRoundTrip | src/windows/other_challenges_window.py:297-314 | loading what was saved parses every row and gives every challenge its saved value (default 50) |
| ChallengeWindows.ChallengeWindow.constructor | src/windows/water_security_window.py:13-69 | before its interface is built, a window holds its codes, no values and no previous data; building the interface then loads the saved evaluation, as ChallengeWindows.ChallengeWindow.LoadPrevious |
| ChallengeWindows.ChallengeWindow.OnChallengeValueChange | src/windows/water_security_window.py:199-202 | the reported value is stored for that code and nothing else changes |
| ChallengeWindows.ChallengeWindow.LoadPrevious | src/windows/water_security_window.py:229-289 | without a file nothing changes; otherwise the rows before the first failing one are loaded, and previous data is marked only when every row parsed |
| ChallengeWindows.ChallengeWindow.Save | src/windows/water_security_window.py:307-324 | the rows written are one per challenge with its stored value or the default |
| LanguageManager.Split | src/core/language_manager.py:81 | a key splits into at least one piece, and no piece holds a dot |
| LanguageManager.JoinSplit | src/core/language_manager.py:81 | joining the pieces with dots gives the key back |
| LanguageManager.SplitJoin | src/core/language_manager.py:81 | splitting dot-free pieces joined with dots gives the pieces back |
| LanguageManager.Find | src/core/language_manager.py:86-87 | a key is found in a JSON object exactly when one of its entries has that key, and the value found is that of the last such entry, as a parsed JSON object keeps the last of repeated keys |
| LanguageManager.ResolveNest | src/core/language_manager.py:84-88 | following a path through the table holding one entry at that path reaches the entry |
| LanguageManager.TranslateFound | src/core/language_manager.py:81-104 | a dotted key whose path ends on a text in the current language's table gives that text |
| LanguageManager.TranslateNotText | src/core/language_manager.py:104 | a path that ends on an object or another non-text value gives "[key]", whatever the fallback |
| LanguageManager.TranslateMissing | src/core/language_manager.py:89-102 | when neither the current table nor (for a non-Spanish manager) the Spanish table has a text at the path, the caller's fallback or "[key]" is returned |
| LanguageManager.FallbackSkippedAsWritten | src/core/language_manager.py:80-102 | when the global language is English but the manager's own copy is still Spanish, a key only Spanish has is shown as "[title]" instead of its Spanish text |
| LanguageManager.FallbackToSpanish | src/core/language_manager.py:89-99 | with the language checked before falling back being the same as the table's, a key missing in a non-Spanish table gives the Spanish text |
| LanguageManager.FallbackToSpanishExample | src/core/language_manager.py:89-99 | with the corrected check, the same English lookup gives "Hola" |
| LanguageManager.RemoveFirst | src/core/language_manager.py:113-114 | removal drops one element when the callback is there and nothing otherwise, keeping every other callback |
| LanguageManager.RemoveFirstDistinct | src/core/language_manager.py:111-114 | in a list without duplicates, the callback is gone after removal and no duplicates appear |
| LanguageManager.Raising | src/core/language_manager.py:116-122 | the failing callbacks are exactly the subscribers whose call raises |
| LanguageManager.Manager.constructor | src/core/language_manager.py:25-37 | both the manager's language and the global start from the global, with the loaded tables and no subscribers |
| LanguageManager.Manager.Get | src/core/language_manager.py:75-104 | the text is the dotted-key lookup in the global language's table, with the Spanish fallback decided by the manager's own language |
| LanguageManager.Manager.SetLanguage | src/core/language_manager.py:63-73 | an unsupported code raises ValueError and changes nothing; the current language changes nothing and notifies nobody; a new one sets both languages and notifies every subscriber, reporting those that raise |
| LanguageManager.Manager.NotifySubscribers | src/core/language_manager.py:116-122 | every subscriber is called in order, and the failing ones are reported without stopping the loop |
| LanguageManager.Manager.Subscribe | src/core/language_manager.py:106-109 | a callback is appended unless already subscribed, so the list stays free of duplicates |
| LanguageManager.Manager.Unsubscribe | src/core/language_manager.py:111-114 | the first occurrence of the callback is removed, and from a duplicate-free list it is gone |
| LanguageManager.Manager.SetCurrentGlobalLanguage | src/core/language_manager.py:143-146 | the global changes without validation or notification, and the manager's own language does not |
| LanguageManager.RaisingAppend | src/core/language_manager.py:118-122 | the failures after one more callback are the earlier failures plus that callback if it raises |
| CacheManager.Manager.constructor | src/utils/cache_manager.py:14-23 | the limit and the target are the megabyte arguments times 1024·1024 |
| CacheManager.Manager.GetCacheSize | src/utils/cache_manager.py:25-39 | the total is the sum of the file sizes and the count the number of files |
| CacheManager.Manager.GetAllCacheFiles | src/utils/cache_manager.py:41-58 | the listing keeps exactly the files whose access time and size can be read, in walk order |
| CacheManager.Manager.CleanupCache | src/utils/cache_manager.py:60-93 | below the limit nothing is deleted; otherwise only the listed files, sorted by access time, are swept against the size of all files, deleting removable ones until the total is at most the target; unlisted files always remain |
| CacheManager.Manager.CheckAndCleanup | src/utils/cache_manager.py:109-121 | strictly above the limit the listed files are swept and the unlisted ones remain; the returned sizes describe the remaining files in megabytes |
| CacheManager.SweepAccounts | src/utils/cache_manager.py:77-86 | the sweep splits the files into deleted and kept, a permutation that preserves the total size and count |
| CacheManager.SweepDeletesRemovable | src/utils/cache_manager.py:81-86 | only removable files are deleted, and a file that cannot be removed is kept |
| CacheManager.SweepReachesTarget | src/utils/cache_manager.py:77-79 | after the sweep the total is at most the target, unless no removable file is left |
| CacheManager.SweepStopsAtTarget | src/utils/cache_manager.py:77-79 | before each deletion the running total was still above the target |
| CacheManager.SweepOldestFirst | src/utils/cache_manager.py:69-79 | every deleted file was accessed no later than any removable file that was kept |
| CacheManager.Listed | src/utils/cache_manager.py:48-53 | a file is listed exactly when it was walked and its access time and size can be read |
| CacheManager.Unlisted | src/utils/cache_manager.py:48-53 | the skipped files are exactly the walked files whose access time or size cannot be read |
| CacheManager.ListedSplit | src/utils/cache_manager.py:25-58 | the listed and skipped files together have the size and count `get_cache_size` measures |
| CacheManager.CleanupShrinks | src/utils/cache_manager.py:60-93 | cleaning shrinks the cache by exactly what it deleted, reaches the target unless no removable listed file is left, deletes oldest first, and never deletes a file whose access time cannot be read |
| CacheManager.TotalSizePermutation | src/utils/cache_manager.py:71 | sorting the files does not change their total size |
| CacheManager.SweepLoop | src/utils/cache_manager.py:73-85 | the deletion loop keeps, deletes and counts exactly what the specified sweep does, stopping once the remaining total is at most the target |
| ScreenAdapter.WindowSide | src/utils/screen_adapter.py:86-99 | the side is at least the minimum; above it, it is at most the desired size, the screen share and any truthy limit, and equals one of them |
| ScreenAdapter.ZeroLimitIsNoLimit | src/utils/screen_adapter.py:91-92 | a limit of 0 is falsy and acts as no limit |
| ScreenAdapter.WindowSideFits | src/utils/screen_adapter.py:86-99 | a desired size between the minimum and every cap is returned unchanged |
| ScreenAdapter.WindowSideMonotone | src/utils/screen_adapter.py:86-99 | a larger desired size never gives a smaller side |
| ScreenAdapter.WindowDimensions | src/utils/screen_adapter.py:60-101 | width and height are each computed as one side from their own screen size, share and limits |
| ScreenAdapter.PanelWidth | src/utils/screen_adapter.py:122-131 | the width is at least the minimum, at most the maximum when the bounds are ordered, and the parent share whenever that lies between them |
| ScreenAdapter.PanelIgnoresDesired | src/utils/screen_adapter.py:103-131 | the desired width has no effect on the panel width |
| ScreenAdapter.Multiplier | src/utils/screen_adapter.py:154-165 | the multiplier is 1.2, 1.1, 1.0 or 0.9 exactly in the four screen-width bands |
| ScreenAdapter.ButtonWidthExact | src/utils/screen_adapter.py:144-167 | the button width is the base width times the band's tenths, truncated |
| ScreenAdapter.ButtonWidthMonotone | src/utils/screen_adapter.py:154-167 | a wider screen never gives a narrower button |
| ScreenAdapter.ButtonWidthExamples | src/utils/screen_adapter.py:144-167 | normal on 1920 is 144, small on 1600 is 110, wide on 1280 is 180, and an unknown type on 1366 is 120 |
| ScreenAdapter.ScreenCategory | src/utils/screen_adapter.py:194-201 | small exactly for a small screen, xlarge exactly from 2560×1440, medium exactly for a non-small screen under 1600 wide or 900 high |
| ScreenAdapter.CategoryMonotone | src/utils/screen_adapter.py:187-201 | a screen at least as large in both sides never gets a lower category |
| ScreenAdapter.LargeScreenCategory | src/utils/screen_adapter.py:176-201 | a large screen (from 1920×1080) is categorised large or xlarge |
| ProjectManager.Find | src/utils/project_manager.py:134 | a key is found exactly when some entry has it, and with distinct keys the value found is that entry's |
| ProjectManager.PutFind | src/utils/project_manager.py:100 | after a dictionary assignment, the key holds the new value and every other key is unchanged |
| ProjectManager.UpdateFind | src/utils/project_manager.py:144 | after dict.update, a key holds the new value where the update has it and the old value elsewhere |
| ProjectManager.StepOfEntry | src/utils/project_manager.py:60-65 | a template workflow entry reads as a step not completed, without data, with its order and enabled flag |
| ProjectManager.TemplateWorkflow | src/utils/project_manager.py:59-66 | the template's workflow progress lists the six dashboard steps in order, each equal to the dashboard's initial step |
| ProjectManager.ValidateProjectSections | src/utils/project_manager.py:131-134 | a project is valid exactly when it has the four sections project_info, files, watershed_data and sbn_analysis |
| ProjectManager.TemplateIsValid | src/utils/project_manager.py:10-67 | the template holds the four required sections, so it is a valid project |
| ProjectManager.TemplateKeysDistinct | src/utils/project_manager.py:10-67 | the template never repeats a top-level section |
| ProjectManager.UpdateSectionMissing | src/utils/project_manager.py:142 | a missing section is not added |
| ProjectManager.UpdateSectionMerges | src/utils/project_manager.py:143-144 | when both are dictionaries the section is merged, the new data winning |
| ProjectManager.UpdateSectionReplaces | src/utils/project_manager.py:145-146 | otherwise the section is replaced by the data |
| ProjectManager.UpdateSectionOthers | src/utils/project_manager.py:141-146 | no other section changes |
| ProjectManager.TouchSetsDate | src/utils/project_manager.py:146-148 | touching sets project_info.last_modified to today and keeps the other fields of project_info |
| ProjectManager.TouchKeepsSections | src/utils/project_manager.py:148 | touching neither adds nor removes a section |
| ProjectManager.WithFolderSets | src/utils/project_manager.py:97-100 | the files section (created when missing) holds the folder as project_folder, and no other section changes |
| ProjectManager.AfterLastSep | src/utils/project_manager.py:93 | the position after the last separator: no separator follows it and one precedes it unless it is the start |
| ProjectManager.DirnameOfJsonPath | src/utils/project_manager.py:136-138 | the folder of the project.json path of a folder is that folder |
| ProjectManager.Project.constructor | src/utils/project_manager.py:140-149 | a project holds its data |
| ProjectManager.Project.UpdateProjectData | src/utils/project_manager.py:140-149 | the data becomes the section update touched with today's date; without project_info the update stays and a KeyError is returned |
| ProjectManager.LoadProject | src/utils/project_manager.py:83-107 | a missing or unparsable file or a non-object gives None; otherwise the data with project_folder set to the file's folder and, when project_info allows it, the date touched by the save |
| TransformBarriersCsv.CodeKindsDisjoint | src/utils/transform_barriers_csv.py:25-37 | no code is both a subcategory (last character a digit) and a barrier (last character a letter), and a code ending in neither is neither |
| TransformBarriersCsv.EmptyCodeIsBarrier | src/utils/transform_barriers_csv.py:25-37 | a missing code reads as "nan", which ends in a letter and counts as a barrier |
| TransformBarriersCsv.SubcategoryMapKeys | src/utils/transform_barriers_csv.py:23-28 | the subcategory map's keys are exactly the codes of the rows that end in a digit |
| TransformBarriersCsv.SubcategoryMapLastWins | src/utils/transform_barriers_csv.py:24-28 | a subcategory code maps to the description of its last row |
| TransformBarriersCsv.CollectSubcategories | src/utils/transform_barriers_csv.py:23-28 | the loop builds exactly the subcategory map |
| TransformBarriersCsv.LastDigitEnd | src/utils/transform_barriers_csv.py:40-47 | the position just after the code's last digit, with no digit after it |
| TransformBarriersCsv.RunEnd | src/utils/transform_barriers_csv.py:44-46 | the inner while loop stops at the end of the digit run that starts at i |
| TransformBarriersCsv.LastRunEnd | src/utils/transform_barriers_csv.py:41-47 | the run through the last digit ends just after it |
| TransformBarriersCsv.ExtractPrefix | src/utils/transform_barriers_csv.py:40-47 | the nested loop leaves the code up to its last digit as the subcategory prefix, or "" without digits |
| TransformBarriersCsv.SubcategoryPrefix | src/utils/transform_barriers_csv.py:40-47 | the prefix is the code up to and including its last digit, with no digit after it |
| TransformBarriersCsv.PrefixExamples | src/utils/transform_barriers_csv.py:38-47 | GB0101b gives GB0101, A1b2c gives A1b2, and nan gives "" |
| TransformBarriersCsv.SubcategoryOf | src/utils/transform_barriers_csv.py:50 | the description of the prefix's subcategory, "" when there is none |
| TransformBarriersCsv.BarrierRowsAppend | src/utils/transform_barriers_csv.py:33-58 | the barrier rows of two parts are those of each in order |
| TransformBarriersCsv.BarrierRowsFrom | src/utils/transform_barriers_csv.py:37-58 | every output row is a barrier built from some input row |
| TransformBarriersCsv.BarrierRowsComplete | src/utils/transform_barriers_csv.py:37-58 | every barrier in the input yields its output row |
| TransformBarriersCsv.CollectBarriers | src/utils/transform_barriers_csv.py:33-58 | the loop builds exactly the barrier rows, in input order |
| TransformBarriersCsv.EnglishHeaderAsWritten | src/utils/transform_barriers_csv.py:66-73 | the English catalogue's path contains "es" (in "locales" and in "Barries"), so it gets the Spanish header |
| TransformBarriersCsv.SubcategoryHeaderByLanguage | src/utils/transform_barriers_csv.py:65-73 | the corrected choice gives "Subcategory" exactly for a file ending in _en.csv |
| TransformBarriersCsv.HeaderByLanguageFiles | src/utils/transform_barriers_csv.py:65-73 | with the corrected choice the Spanish and Portuguese files keep "Subcategoria" and the English one gets "Subcategory" |
| TransformBarriersCsv.NewFileNameOfStem | src/utils/transform_barriers_csv.py:79 | a dot-free stem with .csv is written to stem_new.csv |
| TransformBarriersCsv.CatalogueNewFileName | src/utils/transform_barriers_csv.py:78-79 | each catalogue is written beside itself with _new before .csv |
| TransformBarriersCsv.TransformFile | src/utils/transform_barriers_csv.py:11-81 | a file without barriers fails (the header assignment raises); otherwise it writes the barrier rows to the new name with the original headers and the subcategory header third |
| TransformBarriersCsv.ScanRun | src/utils/transform_barriers_csv.py:44-46 | the inner loop stops at the end of the digit run that starts at i |
| CleanProjectBarriers.CleanRows | src/utils/clean_project_barriers.py:26 | the kept rows are no more than the input and each ends its first cell in a letter |
| CleanProjectBarriers.RemovedRows | src/utils/clean_project_barriers.py:45 | every removed row's first cell does not end in a letter |
| CleanProjectBarriers.CleanRowsMembers | src/utils/clean_project_barriers.py:26 | a row is kept exactly when it is in the input and its first cell ends in a letter |
| CleanProjectBarriers.CleanRowsCount | src/utils/clean_project_barriers.py:28-29 | kept and removed rows add up to the input |
| CleanProjectBarriers.CleanRowsAppend | src/utils/clean_project_barriers.py:26 | filtering two parts keeps the kept rows of each in order |
| CleanProjectBarriers.CleanRowsAllKept | src/utils/clean_project_barriers.py:26 | a table of barrier rows only is unchanged |
| CleanProjectBarriers.CleanRowsIdempotent | src/utils/clean_project_barriers.py:26 | cleaning a cleaned table changes nothing |
| CleanProjectBarriers.EmptyFirstCellKept | src/utils/clean_project_barriers.py:26 | an empty first cell reads as "nan" and is kept |
| CleanProjectBarriers.BackupPathOfStem | src/utils/clean_project_barriers.py:35 | a dot-free stem with .csv backs up to stem_backup.csv, a different file |
| CleanProjectBarriers.Run | src/utils/clean_project_barriers.py:9-50 | without an argument or with an unreadable file, exit code 1 and nothing written; otherwise exit 0 after writing the backup and then the cleaned table |
| CleanProjectBarriers.FinalContents | src/utils/clean_project_barriers.py:36-40 | a file has contents after the writes exactly when one of them wrote it |
| CleanProjectBarriers.RunKeepsBackup | src/utils/clean_project_barriers.py:35-40 | for a .csv file the backup holds the original table and the file the cleaned one |
| CleanProjectBarriers.BackupLostAsWritten | src/utils/clean_project_barriers.py:35-40 | for a .CSV file the backup path is the file itself, so the original table is lost |
| CleanProjectBarriers.SafeBackupPath | src/utils/clean_project_barriers.py:35 | the corrected backup path never equals the file, and agrees with the original where that differs |
| CleanProjectBarriers.RunSafe | src/utils/clean_project_barriers.py:9-50 | the corrected script fails as the original does without an argument or table |
| CleanProjectBarriers.RunSafeKeepsBackup | src/utils/clean_project_barriers.py:35-40 | with the corrected path, every file name keeps its original table in a distinct backup and gets the cleaned one |
| CleanProjectBarriers.SafeBackupPathAgrees | src/utils/clean_project_barriers.py:35 | for a .csv file the corrected path is the original one |
| WindowManager.Open | src/core/window_manager.py:14-21 | a registered name returns its window unchanged; a new name gets the next identity, registered under it |
| WindowManager.OpenTwice | src/core/window_manager.py:14-21 | opening the same name twice is the same as opening it once |
| WindowManager.OpenNewIsFresh | src/core/window_manager.py:19-21 | a newly opened window is none of the registered ones, and the registry stays well issued |
| WindowManager.Close | src/core/window_manager.py:23-26 | closing removes the name and nothing else; an unknown name changes nothing |
| WindowManager.CloseUndoesOpen | src/core/window_manager.py:14-26 | closing a name just opened restores the registered windows |
| WindowManager.ReopenAfterClose | src/core/window_manager.py:14-26 | reopening a closed name creates a new window, not the destroyed one |
| WindowManager.UpdateStep | src/core/window_manager.py:49-58 | without a main window with workflow steps nothing changes; otherwise the step becomes exactly {completed, data}, the other steps unchanged |
| WindowManager.UpdateStepDropsOtherFields | src/core/window_manager.py:52-55 | the step's other fields, such as order and enabled, are dropped |
| WindowManager.UpdateStepLastWins | src/core/window_manager.py:49-55 | updating a step twice is the same as the second update alone |
| WindowManager.Manager.constructor | src/core/window_manager.py:6-9 | a manager starts with no windows, no main window and empty project data |
| WindowManager.Manager.SetMainWindow | src/core/window_manager.py:11-12 | the main window is set and nothing else changes |
| WindowManager.Manager.OpenWindow | src/core/window_manager.py:14-21 | the registry becomes the result of Open, and nothing else changes |
| WindowManager.Manager.CloseWindow | src/core/window_manager.py:23-26 | the registry becomes the result of Close, and a registered window is destroyed |
| WindowManager.Manager.CloseAllWindows | src/core/window_manager.py:28-31 | every registered window is destroyed and the registry is emptied |
| WindowManager.Manager.SetProjectData | src/core/window_manager.py:33-34 | the project data is replaced and nothing else changes |
| WindowManager.Manager.GetProjectData | src/core/window_manager.py:36-37 | the current project data is returned |
| WindowManager.Manager.UpdateProjectData | src/core/window_manager.py:39-40 | one key of the project data is set and nothing else changes |
| WindowManager.Manager.NavigateTo | src/core/window_manager.py:42-47 | with a main window every registered window is withdrawn; then the window is opened as by OpenWindow |
| WindowManager.Manager.UpdateWorkflowStep | src/core/window_manager.py:49-58 | the main window's steps become UpdateStep's result, and its UI is refreshed once when it has steps and a refresh method |
| Precache.Linspace | src/utils/precache.py:23-25 | n = 0 raises ZeroDivisionError; negative n gives [b]; otherwise n+1 points from a to b, the i-th being a + i·step |
| Precache.LinspaceSteps | src/utils/precache.py:24-25 | consecutive points are one step apart |
| Precache.LinspaceSorted | src/utils/precache.py:23-25 | for a ≤ b the points are non-decreasing |
| Precache.LinspaceCovers | src/utils/precache.py:23-25 | every x in [a, b] lies between two consecutive points |
| Precache.RowJobs | src/utils/precache.py:34-38 | one request per cell j of column i, with the cell's bounds |
| Precache.Jobs | src/utils/precache.py:30-38 | there are (zoom levels)·grid² requests, none for an empty zoom range |
| Precache.JobsContain | src/utils/precache.py:32-38 | every cell of every zoom level is requested |
| Precache.JobsOnlyCells | src/utils/precache.py:32-38 | every request is a cell of the grid at a zoom level in range |
| Precache.CellsCoverBox | src/utils/precache.py:20-38 | every point of the box lies in a cell requested at each zoom level |
| Precache.Failed | src/utils/precache.py:39-46 | the failed requests are requests whose download raised |
| Precache.FailedComplete | src/utils/precache.py:45-46 | every request whose download raised is reported |
| Precache.RequestColumn | src/utils/precache.py:34-47 | the inner loop issues the column's requests and reports exactly the failed ones |
| Precache.RequestZoom | src/utils/precache.py:33-47 | the middle loop issues the zoom level's requests and reports exactly the failed ones |
| Precache.PrecacheRegion | src/utils/precache.py:5-50 | a zero grid raises; otherwise total_jobs is (zmax − zmin + 1)·grid², the counter equals the requests issued, which are exactly the grid cells at each zoom level, and errors are the failed ones |
| SbnWindow.AllSbn | src/windows/sbn_window.py:37-59 | the 21 solutions with IDs 1..21 in order, each with its icon |
| SbnWindow.FilterSelected | src/windows/sbn_window.py:64-66 | the filtered list keeps exactly the solutions whose ID was selected and is no longer than the list |
| SbnWindow.ShownSbn | src/windows/sbn_window.py:62-70 | without a configuration, or with an empty one, all 21 are shown; otherwise exactly the selected ones |
| SbnWindow.ShownOrdered | src/windows/sbn_window.py:62-70 | the shown solutions are in increasing ID order |
| SbnWindow.SortKeyAsWritten | src/windows/sbn_window.py:254-260 | the key's first part is true exactly when the rank lookup finds none; its second part is None exactly for an entry stored without a rank |
| SbnWindow.ClashIsDisabledAndMissing | src/windows/sbn_window.py:254-260 | comparing two keys raises only between an entry stored with no rank and a solution without an entry |
| SbnWindow.SortRaisesAsWritten | src/windows/sbn_window.py:254-260 | with SbN 5 stored with no rank and SbN 6 without an entry, the sort raises TypeError |
| SbnWindow.KeyLeTotalPreorder | src/windows/sbn_window.py:254-260 | the corrected key order is a total preorder |
| SbnWindow.SortShown | src/windows/sbn_window.py:254-260 | the corrected sort is a permutation of the shown solutions |
| SbnWindow.SortShownOrder | src/windows/sbn_window.py:254-260 | ranked solutions come before unranked ones, and positive ranks in increasing order |
| SbnWindow.SortShownAgrees | src/windows/sbn_window.py:254-260 | when no pair of keys clashes and every rank is a positive priority as the priority table stores it, the original sort succeeds and gives the corrected order |
| SbnWindow.CheckboxTextOf | src/windows/sbn_window.py:275-284 | the text carries the name and icon, and the rank exactly for an enabled entry with a non-zero rank |
| SbnWindow.CheckboxStateOf | src/windows/sbn_window.py:299-322 | a disabled entry is greyed out and marked not suitable; otherwise the box is enabled exactly when a raster is found; a box carries a mark exactly when it is disabled |
| SbnWindow.DisabledWinsOverRaster | src/windows/sbn_window.py:299-310 | a disabled entry stays disabled even when its raster exists |
| SbnWindow.LegacyMatches | src/windows/sbn_window.py:347-351 | the legacy matches are exactly the files of the pattern SbN_{id}_*.tif |
| SbnWindow.LegacyPrefixShape | src/windows/sbn_window.py:348 | the legacy prefix is SbN_ followed by the ID's decimal digits and an underscore |
| SbnWindow.LegacyPatternsDisjoint | src/windows/sbn_window.py:348 | a file name matches the legacy pattern of at most one ID |
| SbnWindow.NewFormatIsNotLegacy | src/windows/sbn_window.py:341-348 | a new-format name SbN_{id}.tif never matches a legacy pattern |
| SbnWindow.FindSbnRaster | src/windows/sbn_window.py:326-354 | none without a project or a 03-SbN folder; the new-format file when it exists; otherwise a legacy file exactly when one matches |
| SbnWindow.Selected | src/windows/sbn_window.py:465 | the selection is exactly the IDs of the checked boxes |
| SbnWindow.BoxIndex | src/windows/sbn_window.py:357 | a box is found exactly when one has that ID, at its position |
| SbnWindow.Panel.constructor | src/windows/sbn_window.py:12-90 | a panel starts with its boxes, no loaded rasters and no saved selection |
| SbnWindow.Panel.LoadSbnRaster | src/windows/sbn_window.py:367-406 | without a raster nothing changes; a raster the viewer accepts is recorded as loaded; a refused one unchecks its box |
| SbnWindow.Panel.UnloadSbnRaster | src/windows/sbn_window.py:408-420 | a loaded raster the viewer removes is forgotten; otherwise nothing changes |
| SbnWindow.Panel.Click | src/windows/sbn_window.py:355-364 | an unknown or disabled box changes nothing; otherwise the box is flipped, and with a map a newly checked box loads its raster (a refused load unchecks it again, no raster leaves it checked and nothing loaded) and a newly unchecked one unloads its raster when the viewer removes it; without a map no raster is loaded or unloaded |
| SbnWindow.Panel.SaveSelection | src/windows/sbn_window.py:463-479 | the selection saved and returned is the checked IDs, and the boxes and rasters are unchanged |
| SbnWindow.BoxIndexKeepsIds | src/windows/sbn_window.py:357-364 | ticking or unticking a box does not move any ID |
| SbnWindow.WrittenKeyLeIsNotGreater | src/windows/sbn_window.py:254-260 | wherever Python's < is defined on two keys as written, the written key order says 'not greater' |
| SbnWindow.WrittenKeyTotalPreorder | src/windows/sbn_window.py:254-260 | the order of the keys as written is a total preorder |
| SbnWindow.SortAsWrittenOrdered | src/windows/sbn_window.py:254-260 | when no pair of keys clashes the original sort succeeds, and no later solution's key is less than an earlier one's |
| SbnWindow.Toggled | src/windows/sbn_window.py:355-357 | a click flips the one box's checked flag, keeping its ID and enabled flag, and leaves every other box as it was |
| SbnPrioritizationConfigDialog.FirstMatch | src/windows/sbn_prioritization_config_dialog.py:88-90 | the first row whose ID matches, with no match before it; none when no row matches |
| SbnPrioritizationConfigDialog.AllAvailable | src/windows/sbn_prioritization_config_dialog.py:60-64 | every one of the 21 solutions, and only those, is available |
| SbnPrioritizationConfigDialog.Availability | src/windows/sbn_prioritization_config_dialog.py:53-104 | the availability covers exactly the IDs 1..21 |
| SbnPrioritizationConfigDialog.AvailabilityDefaults | src/windows/sbn_prioritization_config_dialog.py:60-104 | without project data, folder or file, or when reading raises, every solution is available |
| SbnPrioritizationConfigDialog.AvailabilityFromRow | src/windows/sbn_prioritization_config_dialog.py:88-92 | with an Idoneidad column, a solution is available exactly when the first row with its ID holds 1 |
| SbnPrioritizationConfigDialog.FirstMatchIsFirst | src/windows/sbn_prioritization_config_dialog.py:89-91 | the first matching row is the one whose value is read |
| SbnPrioritizationConfigDialog.AvailabilityMissingRow | src/windows/sbn_prioritization_config_dialog.py:93-95 | a solution missing from the file is available |
| SbnPrioritizationConfigDialog.NoIdoneidadColumnAllAvailable | src/windows/sbn_prioritization_config_dialog.py:88-104 | a file without the Idoneidad column leaves every solution available |
| SbnPrioritizationConfigDialog.LoadAvailability | src/windows/sbn_prioritization_config_dialog.py:53-104 | the loop builds exactly the availability described above |
| SbnPrioritizationConfigDialog.SelectedUpTo | src/windows/sbn_prioritization_config_dialog.py:290-296 | the selection is exactly the checked IDs among 1..n, in increasing order |
| SbnPrioritizationConfigDialog.OptionKey | src/windows/sbn_prioritization_config_dialog.py:298-309 | the key is one of the three; each label gives its key, a later equal label winning in the dictionary; an unknown text gives investment_and_maintenance |
| SbnPrioritizationConfigDialog.OptionKeyOfLabel | src/windows/sbn_prioritization_config_dialog.py:298-309 | with distinct labels, every key's label maps back to it |
| SbnPrioritizationConfigDialog.DefaultOptionKey | src/windows/sbn_prioritization_config_dialog.py:298-309 | the default option text maps to investment_and_maintenance |
| SbnPrioritizationConfigDialog.Dialog.constructor | src/windows/sbn_prioritization_config_dialog.py:17-51 | the dialog starts with the loaded availability, each solution checked and enabled exactly when available, the default option and no result |
| SbnPrioritizationConfigDialog.Dialog.BuildBoxes | src/windows/sbn_prioritization_config_dialog.py:222-247 | a box for each of the 21 IDs, checked exactly when available |
| SbnPrioritizationConfigDialog.Dialog.Click | src/windows/sbn_prioritization_config_dialog.py:235-243 | an enabled box toggles; a disabled one does not change |
| SbnPrioritizationConfigDialog.Dialog.ChooseOption | src/windows/sbn_prioritization_config_dialog.py:298-309 | the chosen text becomes the option and nothing else changes |
| SbnPrioritizationConfigDialog.Dialog.SelectAll | src/windows/sbn_prioritization_config_dialog.py:279-283 | every available box becomes checked and the others keep their state |
| SbnPrioritizationConfigDialog.Dialog.DeselectAll | src/windows/sbn_prioritization_config_dialog.py:285-288 | every box becomes unchecked |
| SbnPrioritizationConfigDialog.Dialog.SelectedIds | src/windows/sbn_prioritization_config_dialog.py:290-296 | the selected IDs are exactly the checked ones, in order, and each is available |
| SbnPrioritizationConfigDialog.Dialog.Next | src/windows/sbn_prioritization_config_dialog.py:311-333 | with nothing checked a warning is shown and the dialog stays; otherwise the result is the option key and the checked IDs and the dialog closes |
| SbnPrioritizationConfigDialog.Dialog.Cancel | src/windows/sbn_prioritization_config_dialog.py:335-338 | the result is cleared and the dialog closes, nothing else changing |
| SbnPrioritizationConfigDialog.SelectAllSkipsUnavailable | src/windows/sbn_prioritization_config_dialog.py:279-296 | after select all, a solution is selected exactly when it is available |
| ReportPdf.SetStyle | src/reports/report_generator.py:91-107 | a known style name gives its style, any other name the paragraph style; the lead returned is the style's |
| ReportPdf.UnknownStyleIsParagraph | src/reports/report_generator.py:103-107 | an unknown name gets the 9-point black paragraph style and lead 5 |
| ReportPdf.Split | src/reports/report_generator.py:158 | str.split() gives non-empty words without whitespace, and no words exactly for a blank text |
| ReportPdf.WrapKeepsWords | src/reports/report_generator.py:157-173 | the wrapped lines, joined with spaces, hold the text's words in order |
| ReportPdf.WrapLinesFit | src/reports/report_generator.py:160-166 | every line fits the width unless it is a single word too long for it, and no line is empty or holds a newline |
| ReportPdf.WrapHasNoNewline | src/reports/report_generator.py:170-172 | no wrapped line holds a newline |
| ReportPdf.WrapBlank | src/reports/report_generator.py:173 | a blank text wraps to a single empty line |
| ReportPdf.WrapFoldInv | src/reports/report_generator.py:159-168 | the greedy loop keeps its invariant over all the words |
| ReportPdf.SplitText | src/reports/report_generator.py:150-173 | the line-breaking loop computes the wrapped lines |
| ReportPdf.LineCount | src/reports/report_generator.py:206-207 | a cell takes at least one line |
| ReportPdf.CellLines | src/reports/report_generator.py:203-207 | one line count per cell, each the cell's count in its column |
| ReportPdf.SeqMax | src/reports/report_generator.py:208 | the maximum bounds every element and is one of them |
| ReportPdf.FirstCells | src/reports/report_generator.py:204 | row[:ncol] is the first min(ncol, row length) cells |
| ReportPdf.RowHeightIsTallestCell | src/reports/report_generator.py:202-208 | a row's height is a positive multiple of 4, at least 4 lines per cell, and equal to the tallest cell's |
| ReportPdf.TableRowHeights | src/reports/report_generator.py:201-226 | the heights are computed exactly when every row has a cell (max of nothing raises), and are the rows' heights |
| ReportPdf.RowHeightOf | src/reports/report_generator.py:202-208 | a row's height is computed exactly when it has a cell |
| ReportPdf.TableLayout | src/reports/report_generator.py:175-226 | no headers or widths draw nothing; mismatching widths or alignments raise ValueError, as does an empty row; a drawn table has matching columns and one height per row |
| ReportGenerator.Pairs | src/reports/report_generator.py:291-294 | reading fails exactly when some row's ID or order does not parse; every pair kept has a positive order |
| ReportGenerator.PairsMembers | src/reports/report_generator.py:291-294 | the pairs are exactly the (ID, order) of the rows with a positive order |
| ReportGenerator.ByOrderTotalPreorder | src/reports/report_generator.py:296 | ordering by the order column is a total preorder |
| ReportGenerator.Ids | src/reports/report_generator.py:297 | the selection lists the pairs' IDs in order |
| ReportGenerator.OrderMap | src/reports/report_generator.py:298 | the order map's keys are exactly the pairs' IDs, each mapped to the order of one of its pairs |
| ReportGenerator.LoadPrioritization | src/reports/report_generator.py:289-305 | no file or a failing read gives an empty selection and map; otherwise one selected ID per pair |
| ReportGenerator.SelectionByOrder | src/reports/report_generator.py:291-297 | the selection is the pairs sorted by non-decreasing order, a permutation of them |
| ReportGenerator.OrdersMatchSelection | src/reports/report_generator.py:297-298 | every selected ID has an order, every ordered ID is selected, and every order is positive |
| ReportGenerator.NoOrderColumnSelectsNothing | src/reports/report_generator.py:292-294 | without an order column every order defaults to 0 and nothing is selected |
| ReportGenerator.FullLocation | src/reports/report_generator.py:439-450 | country and location give "country (location)", either alone gives itself, and neither gives the "not specified" text |
| ReportGenerator.FullLocationParts | src/reports/report_generator.py:444-445 | the combined form starts with the country, holds the location and ends with ')'; a non-empty fallback is never empty |
| ReportGenerator.PairRowsKeepPairs | src/reports/report_generator.py:391-397 | every row has two cells holding the pair's key and value |
| ReportGenerator.PairListToRows | src/reports/report_generator.py:391-397 | the loop builds one two-cell row per pair, None becoming "" |
| ReportGenerator.BarriersFullMembers | src/reports/report_generator.py:583-597 | the joined barriers are exactly the records whose Status reads 1 and whose code has a translation, each with that translation's group, subcategory and description and its value as str() shows it ("None" for an empty cell) |
| ReportGenerator.Joined | src/reports/report_generator.py:583-597 | a shown barrier takes its group, subcategory and description from its translation and its value as `str(Value)`: "None" for an empty cell, "" for a missing column |
| ReportGenerator.CollectBarriers | src/reports/report_generator.py:583-597 | the loop builds exactly those joined barriers, in order |
| ReportGenerator.ByGroupTotalPreorder | src/reports/report_generator.py:604 | ordering by (group, subcategory) is a total preorder |
| ReportGenerator.BarrierSectionSorted | src/reports/report_generator.py:604 | the sorted barriers are a permutation of the joined ones, in (group, subcategory) order |
| ReportGenerator.RenderRows | src/reports/report_generator.py:618-682 | each drawn row breaks the page exactly when its estimated height plus 10 does not fit, shows the group only when it changes (or after a break), the subcategory only when either changes, and the value's text |
| ReportGenerator.PageBreakRepeatsHeadings | src/reports/report_generator.py:634-642 | the first row after a page break shows its group and subcategory again |
| ReportGenerator.RowsStayOnPage | src/reports/report_generator.py:632-638 | when every row fits on an empty page, every row ends above the bottom margin |
| ReportGenerator.RenderBarriers | src/reports/report_generator.py:618-682 | the drawing loop computes the rows, the final y and the last group and subcategory |
| ReportGenerator.BarrierSection | src/reports/report_generator.py:579-682 | "not available" exactly when the data or the translations are empty or no barrier survives the join; otherwise the rows of the sorted barriers |
| ReportGenerator.SheetsUpTo | src/reports/report_generator.py:1069-1074 | the sheets are exactly the existing SbN_i.pdf for i in 1..21, in increasing i |
| ReportGenerator.Stem | src/reports/report_generator.py:1083 | the stem is a prefix of the file name |
| ReportGenerator.TotalNameDiffers | src/reports/report_generator.py:1083-1084 | the total PDF never overwrites the report |
| ReportGenerator.TotalNameOfPdf | src/reports/report_generator.py:1082-1084 | a report stem.pdf gives stem_Total.pdf |
| ReportGenerator.Concatenate | src/reports/report_generator.py:1044-1120 | a merge happens exactly when the report and the folder exist, some sheet exists and the PDF I/O succeeds; it writes the total name from the report followed by every sheet in order |
| ReportGenerator.SheetsNumericOrder | src/reports/report_generator.py:1069-1074 | sheet 9 is merged before sheet 10, in numeric rather than name order |
| ReportGenerator.IdsMatchOrders | src/reports/report_generator.py:294-295 | the IDs of the loaded pairs are exactly the keys of the order map built from them |
| ReportGenerator.OrdersPositive | src/reports/report_generator.py:291-295 | pairs kept only when their order is positive, once reordered, give an order map whose every order is positive |
| ReportGenerator.DrawRow | src/reports/report_generator.py:621-682 | one pass of the drawing loop moves the rendering state exactly as the specified step does |
| ReportGenerator.FieldText | src/reports/report_generator.py:587-590 | str(row.get(key, default)): a missing column gives the default, an empty (None) cell gives "None", any other cell its text |

## Left out

- File, raster, Excel, CSV, JSON and PDF input and output. Each read is an input value and each write is a returned value. Exceptions raised by the libraries become an explicit failure value (rasterio, GDAL, pandas, openpyxl, fpdf2, pypdf, folium and contextily are not part of this model).
- The Tk/Folium user interface: widgets, colours, fonts, fonts' sizes, tooltips, message boxes, `lift`/`withdraw`, zoom and map-viewer calls. Only the state these views keep and the decisions they make are modelled. A message box or viewer exception is modelled as a failure value.
- Printing and logging, including the progress messages of precaching and the contextily downloads. The tiles that fail to download are given as a set.
- Floating point: IEEE rounding, float32 rasters and the formatting of binary floats; values are exact reals. `StdOf` takes the variance, because no square root is available.
- Excel text cells are treated as values that `int()`/`float()` cannot convert. Numeric strings in cells are not parsed.
- Except in BarriersWindow.HexChannel, Python `int()` on strings is modelled as strip, optional sign and ASCII digits. The extras are left out: underscores, Unicode digits, Unicode whitespace, and `\x1c`–`\x1f` for `str.split`. `str.isdigit`/`isalpha` are ASCII only.
- `bool()` of NaN and other truthiness corner cases of NumPy values are not modelled.
- Sampling and the decision rules are modelled. The random sampling and the NumPy/KMeans statistics used by the classification are inputs (`SampleStats`). A `ValueError` for an empty sample is not modelled.
- CostProcessor.FindCategory: a range row missing one of its range columns is treated as not matching, where pandas raises `KeyError`.
- CostProcessor.CostPipeline.CategorizeCosts: a missing cost column is modelled as a False result rather than a `KeyError` caught further up. The `float(value)` failure branch of `_find_category` cannot be reached after `to_numeric` and is not modelled.
- SbnPrioritization.CalculateScores: only the matrix-shape failure is modelled. Any other exception caught in `_calculate_scores` is not.
- The two input files of a score (evaluation and weights) are assumed to be row-aligned rectangles. A missing Barriers, WS or Other column is not modelled.
- Sorting.SortBy is a stable sort, whereas pandas' default quicksort is not. Ties in priority and (group, subcategory) are therefore ordered deterministically in the model.
- SbnPrioritization.GetSbnPriorities: the SbN IDs of SbN_Prioritization are taken as distinct. With a repeated ID the source's dictionary keeps the first position and the last values, and that case is not modelled.
- SbnWindow.SortShownAgrees: stated for tables whose ranks are positive or missing, as `get_sbn_priorities` writes them. A hand-written rank of 0 sorts differently in the source and is not covered.
- SbnWindow.SortShown: the contract states a permutation ordered by the key. Stability is not stated.
- NormalizeRasterSbn: the directory walk order and path joins of `_get_raster_list` are not modelled. The raster list is given as an input.
- ProcessingPackage.SnapToMask: stated weaker than the source. It proves that the chosen cell is at minimal distance, but not which minimal cell NumPy's `argmin` picks on a tie.
- ProcessingPackage: `WarpedVRT` reprojection, uint32 scaling, `isclose` nodata filtering and the translate step in map coordinates are not modelled. A polygon's pixels are given as an input.
- ProcessingPackage.TargetResolution does not check that the reference resolution is positive, as the source does not.
- DelimitacionCuenca: the map coordinates of the snapped outlet and the raster window reads are not modelled. The accumulation grid is in memory.
- LanguageManager: the nested dictionaries of a translation file are values, so their aliasing when merged is not modelled.
- The callbacks that windows call (on_complete, on_close and similar) are parameters. Their own effects and re-entrancy are not modelled.
- CacheManager: the file walk and the timestamps are inputs; whether a file's access time and size can be read is its `listed` flag, and whether its removal succeeds its `removable` flag. A file that vanishes between the size walk and the listing walk is not modelled. A cache exactly at its size limit is left alone by both entry points, as in the source.
- ScreenAdapter: tkinter's screen detection and DPI scaling are inputs.
- ProjectManager: `os.path.normpath` and UNC paths are not modelled. Paths are compared as strings.
- ChallengeWindows: the search for the saved CSV file name is not modelled; the found table is an input. The CSV column-count rename on load is not modelled either.
- BarriersWindow.BarriersState.Load: a value that does not parse (NaN or text) stops the load after the rows before it, as the exception leaves the earlier values written. Other read failures (missing columns, an unreadable file) are not modelled. The group state of an empty group is not restored.
- BarriersWindow.BarriersState.LoadPrevious: whether the project folder exists and whether the default file can be written are one input, `writable`; the file system itself is not modelled.
- BarriersWindow.BarrierItem: the items are not linked to the window state; the report an item makes while it is built (its `initialNotice`) or on `SetEnabled` is returned, and delivering it is BarriersWindow.BarriersState.OnBarrierValueChange.
- BarriersWindow.HexChannel: `int(t, 16)` also accepts the non-ASCII digits that Python maps to values; slices holding them are treated as not parsing.
- DashboardWindow.Dashboard.SaveProject: the step list is stored as a copy, where the source stores the same dictionary object. The write to project.json, its message boxes and the update of `current_project_path` are not modelled.
- `winfo_exists` is modelled as a field that the window's close sets.
- TransformBarriersCsv: the `ValueError` of the 4-column rename is not modelled. A first cell `""` cannot come from `read_csv` and is not considered. `to_csv` write failures are not modelled.
- WindowManager: keyword arguments forwarded to the window class are not modelled.
- SbnWindow.FindSbnRaster: glob matching is case-sensitive, unlike on Windows, and the order of the glob results is an input.
- ReportGenerator.Concatenate: the sheet files found by glob are an input; case-insensitive matching on Windows is not modelled.
- SbnWindow and SbnPrioritizationConfigDialog: `_update_texts`, language changes, the subtitle, and the checkbox texts and colours are not modelled. Neither are `_load_watershed_boundary` and `_zoom_to_all_rasters` (map rendering) or the `_is_dark_color` luminance.
- ReportPdf.SplitText: models only the greedy fallback of `_split_text`; fpdf2's `multi_cell(split_only=True)` line breaking is not modelled.
- ReportPdf.CellLines: the line breaking `_split_text` performs is the `split` parameter, here and in ReportPdf.RowHeight and ReportPdf.TableLayout. Font state, drawing and automatic page breaks are left out.
- ReportGenerator: merging the per-SbN PDFs is a success flag (`pdfOk`). The `load_data` JSON parsing is not modelled.
- ReportGenerator: these sections are not modelled: water security, other challenges, the SbN table, taxonomy, indicators, and the `data_pairs` defaults. The modelled sections are location, prioritisation and barriers, and the page assembly.
- ReportGenerator.Joined: a catalogue row too short to hold its group, subcategory or description gives None there in the source, as `csv.DictReader` fills missing cells with None. The model shows such a text as "", and the sort and drawing of None are not modelled.
- WatershedDelimitationFolium: failures of `extract_pixel_counts` for DF1 and DF2 are not modelled. Their count tables are inputs.
- ReportGenerator.LoadPrioritization: a short CSV row's missing `order` cell is read as 0. Python's `int(None)` would raise there.

## Findings

| source | as written | input that shows it | evidently intended | confidence | as-written member | corrected member |
|---|---|---|---|---|---|---|
| src/utils/sbn_prioritization.py:63-89 | when the cost-adjusted weight file exists it replaces the evaluation as well as the weights; its column count is then neither that of a barrier nor of a challenge table, so the scores are always empty | any project with a cost-adjusted water-security (or other-challenge) file of ID, SbN and three or more challenge columns | the user's evaluation scored against the adjusted weights | not executed | SbnPrioritization.AdjustedMatrixGivesNoScores | SbnPrioritization.ChallengeScores |
| src/windows/sbn_window.py:254-260 | the sort key puts rank `None` for a stored but disabled SbN and 9999 for an SbN missing from the table, and Python cannot compare `None` with `int` | SbN 5 stored disabled with no rank, SbN 6 absent from the priorities | disabled and missing SbN sort last without an exception | not executed | SbnWindow.SortRaisesAsWritten | SbnWindow.SortShown |
| src/reports/sbn_sheets_generator.py:384-386 | `process_all` runs the categorisation even when loading failed, and the categorisation dereferences the unloaded sheet | a fresh generator given an unreadable workbook | return False when loading fails | not executed | SbnSheetsGenerator.ProcessAllAsWritten | SbnSheetsGenerator.ProcessAll |
| src/core/DelimitacionCuenca.py:213-227 | a neighbour is marked visited before its flow direction is checked, so a cell rejected from one side is never joined from the side it drains into | 2×2 raster [[0,16],[64,16]] with the seed at (0,0): cell (1,1) drains into (1,0) and then into the seed, but is left out | every cell that drains to the seed is in the basin | not executed | DelimitacionCuenca.AsWrittenBasinMissesCell | DelimitacionCuenca.CorrectedBasinHoldsCell |
| src/core/DelimitacionCuenca.py:129-130 | the radius loop starts at 256 and stops once the radius exceeds max(H, W), so a raster smaller than 256 on both sides is never searched | 1×2 accumulation raster [[0,5]], outlet (0,0), threshold 1 | the outlet moves to the nearest network cell on small rasters too | not executed | DelimitacionCuenca.AsWrittenSnapStaysPut | DelimitacionCuenca.CorrectedSnapMoves |
| src/windows/watershed_delimitation_folium.py:1208-1229 | `pd.cut` with right-closed bins starting at 0 gives NaN for a load of exactly 0; `int(NaN)` raises and the whole water-security table is not written | a basin whose sediment sum is 0 | a zero load falls in the lowest class (`include_lowest`) | not executed | WatershedDelimitationFolium.ZeroLoadFailsAsWritten | WatershedDelimitationFolium.ZeroLoadGetsLowestLabel |
| src/core/language_manager.py:80-102 | the fallback checks the manager's own language copy, which `set_current_global_language` does not update, so a key missing in English skips the Spanish text | global language 'en', manager copy 'es', key "title" present only in Spanish | the Spanish text is shown | not executed | LanguageManager.FallbackSkippedAsWritten | LanguageManager.FallbackToSpanish |
| src/utils/transform_barriers_csv.py:66-73 | the header is chosen by `'es' in path`, which every catalogue path satisfies ("locales", "Barries") | src/locales/Barries_en.csv | the English catalogue gets "Subcategory" | not executed | TransformBarriersCsv.EnglishHeaderAsWritten | TransformBarriersCsv.SubcategoryHeaderByLanguage |
| src/utils/clean_project_barriers.py:35-40 | the backup path replaces ".csv" only in lower case, so for any other extension the backup is the file itself and is then overwritten by the cleaned table | a path ending in ".CSV" | the backup keeps the original table | not executed | CleanProjectBarriers.BackupLostAsWritten | CleanProjectBarriers.RunSafeKeepsBackup |
