# Uganda imports dashboard — a Dafny model of its data core

The dashboard loads a dataset of Ugandan import declarations, derives six
per-shipment features, predicts a unit price for one declaration entered on a
form, and draws analytical reports over the dataset. This project models the
data side of that, and proves properties of it:

- **The data loader** (`utils/data_loader.py`). `load_data` changes the frame it
  reads in place. It adds six columns, in order:
  - value density;
  - tax load;
  - import duration;
  - FOB per kg;
  - freight per kg;
  - insurance per kg.

  `preprocess_data` drops five unused columns and ignores names that are
  absent. The module also holds the two feature lists the column transformer
  is built over.
- **The predictor page** (`app/pages/predictions.py`). It:
  - splits the `YYYYMM` input;
  - computes the same derived features;
  - builds the one-row record with its three fixed defaults (AIR, USD, CIF);
  - selects the columns the fitted preprocessor expects;
  - ends with either a price or the catch-all error branch.
- **The reports page** (`app/pages/reports.py`). It provides:
  - the year-range filter and its slider bounds;
  - the top ten items by CIF value;
  - the per-country total;
  - the `Period` label and the trend per period;
  - the per-country tax percentage and its descending sort;
  - the month-name categorical and the year-by-month table;
  - the yearly aggregate.

## How the model is built

- **Module `Frames`.** A data frame is a list of distinct column names and a
  sequence of rows. Each row maps column names to tagged cells: an integer, a
  real, a string, or a categorical (a code into an ordered category list).
  `df[name] = values` is the function `AssignColumn`. Where the source changes a
  frame in place, the model uses the class `Frames.Frame`. Its method
  `SetColumn` is specified by `AssignColumn`.
- **Module `Text`.** `str` of an integer, `str.zfill`, and Python's string order.
- **Module `Groups`.** `groupby` with sorted keys, with the sum of a column per
  group. It also has a stable descending sort and `nlargest` built on that sort.
- **Module `DataLoader`.** The six derivations are a function `Derive` on
  tables. The method `DeriveFeatures` applies them to a `Frame`, one assignment
  after another, as the source does, and is proved equal to `Derive`.
- **Module `Predictions`.** The page as pure functions. The fitted preprocessor
  and the regressor are function parameters that may fail (`None`).
- **Module `Reports`.** Each chart's data is a function of the filtered rows.
  The page's in-place column assignments at line 93 and at lines 187-194 are
  the methods `AddPeriod` and `AddMonthName`. The one at line 172 is modelled
  on values (see `Reports.TaxImpact` under "Left out").

Floats are modelled as exact reals. A float quotient whose divisor can be zero
is modelled explicitly, through the datatype `Reports.Percent`.

Every per-kg feature is `x / (Gross_Mass_kg + 1e-6)`, as
`utils/data_loader.py` computes it at lines 14-19.

## Model

| member | source | states |
|---|---|---|
| Frames.WithName | utils/data_loader.py:14-19 | assigning a column keeps an existing column in place and appends a new one; names stay distinct and the old list is a prefix |
| Frames.AssignColumn | app/pages/reports.py:93 | `df[name] = values`: row i gets values[i] under name, every other cell is kept, the row count is kept, a well-formed frame stays well formed |
| Frames.AssignTwice | app/pages/reports.py:187-194 | assigning the same column twice leaves exactly the second assignment |
| Frames.Filter | app/pages/reports.py:35 | a boolean-mask selection keeps exactly the rows satisfying the mask and never grows |
| Frames.FilterAppend | app/pages/reports.py:35 | the selection distributes over concatenation, so kept rows keep their order |
| Frames.FilterAll | app/pages/reports.py:35 | a mask true on every row keeps the whole frame |
| Frames.FilterNone | app/pages/reports.py:72 | a mask true on no row keeps nothing |
| Frames.ColumnSum | app/pages/reports.py:74 | `df[col].sum()`; its meaning is stated by ColumnSumAppend, GroupSumsTotal and FilterSumsAgree |
| Frames.Frame.SetColumn | app/pages/reports.py:93 | `df[name] = values` in place: the frame stays valid and its new contents are `AssignColumn` of the old |
| Frames.ColumnSumAppend | app/pages/reports.py:74 | the column sum of two concatenated selections is the sum of their sums |
| Text.IntToString | app/pages/reports.py:93 | `str(i)`: nonempty, a leading minus exactly for a negative number, otherwise all digits, and digits after the minus |
| Text.IntToStringInjective | app/pages/reports.py:93 | distinct integers have distinct decimal strings |
| Text.NatToString | app/pages/reports.py:93 | `str(n)`: nonempty, all digits, no leading zero, one digit exactly below 10 |
| Text.ParseNatToString | app/pages/reports.py:93 | reading the digits of `str(n)` back gives n |
| Text.NatToStringInjective | app/pages/reports.py:93 | distinct numbers have distinct decimal strings |
| Text.ZFill | app/pages/reports.py:93 | `zfill(width)`: length max(len, width), a string already that long unchanged, zeros inserted after a leading sign, the original digits kept at the end |
| Text.ZerosPrefixValue | app/pages/reports.py:93 | zeros in front of a digit string keep it a digit string with the same value |
| Text.ZFillValue | app/pages/reports.py:93 | zero padding keeps a digit string a digit string with the same value |
| Text.LexTotal | app/pages/reports.py:98 | string order is total and asymmetric: two strings differ exactly when one is below the other |
| Text.LexTransitive | app/pages/reports.py:98 | string order is transitive |
| Groups.KeyOrder | app/pages/reports.py:40 | the order of group keys is a strict total order |
| Groups.ConsIncreasing | app/pages/reports.py:40 | a key below every key of a sorted list can go in front of it, the list staying sorted |
| Groups.AboveHead | app/pages/reports.py:40 | the head of a sorted list is below every key of its tail together with any larger key |
| Groups.Insert | app/pages/reports.py:40 | adding a key to a sorted list of distinct keys keeps it sorted and adds exactly that key |
| Groups.GroupKeys | app/pages/reports.py:40 | the keys of `groupby`: strictly increasing, and exactly the distinct values of the key column |
| Groups.Group | app/pages/reports.py:72 | a group holds exactly the rows with that key |
| Groups.GroupNonEmpty | app/pages/reports.py:208 | the group of a present key is not empty |
| Groups.GroupSumsMeaning | app/pages/reports.py:40 | `groupby(key)[col].sum()`: one entry per distinct key and only those, in strictly increasing key order, each the sum over exactly that key's rows |
| Groups.GroupSums | app/pages/reports.py:40 | `groupby(key)[col].sum()`; its meaning is stated by GroupSumsMeaning, GroupSumsDistinctKeys and GroupSumsTotal |
| Groups.GroupSumsDistinctKeys | app/pages/reports.py:40 | no key appears twice among the group sums |
| Groups.GroupSumsCount | app/pages/reports.py:40 | there are as many group sums as distinct keys |
| Groups.IncreasingCount | app/pages/reports.py:40 | a sorted list of distinct keys is as long as its set of keys |
| Groups.SumOverKeysSnoc | app/pages/reports.py:40 | a new row adds its value to the sum over distinct listed keys exactly once |
| Groups.SumOverKeysTotal | app/pages/reports.py:40 | summing the group sums over keys covering every row gives the column total |
| Groups.GroupSumsTotal | app/pages/reports.py:208-209 | the group sums add up to the column total: the groups partition the rows |
| Groups.FilterSumSnoc | app/pages/reports.py:74 | appending a row adds its value to a selection's sum exactly when the mask keeps it |
| Groups.FilterSumsAgree | app/pages/reports.py:74 | selections that agree row by row on the mask and the column have the same sum |
| Groups.InsertDescending | app/pages/reports.py:175 | inserting into a descending list keeps it descending and adds exactly that element |
| Groups.SortDescending | app/pages/reports.py:175 | the descending sort is a permutation of its input and is non-increasing in rank |
| Groups.NLargestSplit | app/pages/reports.py:40 | `nlargest(n)` and the entries it drops are together the sorted input, counted with multiplicity |
| Groups.NLargest | app/pages/reports.py:40 | `nlargest(n)`; its meaning is stated by NLargestMeaning, NLargestLeftOut and NLargestDistinctKeys |
| Groups.DistinctMultiset | app/pages/reports.py:40 | a list has no duplicate exactly when each element occurs at most once in its multiset |
| Groups.NLargestDistinctKeys | app/pages/reports.py:40 | `nlargest(n)` of entries with distinct keys has distinct keys |
| Groups.NLargestMeaning | app/pages/reports.py:40 | `nlargest(n)` has min(n, size) entries, all from the input, largest value first |
| Groups.RestBelowTop | app/pages/reports.py:40 | every entry `nlargest(n)` drops has a value no larger than every entry it keeps |
| Groups.LeftOutInRest | app/pages/reports.py:40 | an input entry that `nlargest(n)` does not keep is among the dropped ones |
| Groups.NLargestLeftOut | app/pages/reports.py:40 | no entry dropped by `nlargest(n)` has a larger value than an entry kept |
| DataLoader.PerKgTotal | utils/data_loader.py:14 | for a mass at or above zero the divisor mass + 1e-6 is positive and the ratio times the divisor is the amount |
| DataLoader.StepRowKeepsRaw | utils/data_loader.py:14-19 | writing one derived column keeps every raw input cell, so later derivations compute the same values |
| DataLoader.DerivedColumnsOrder | utils/data_loader.py:14-19 | the frame's existing columns keep their order at the front |
| DataLoader.DerivedColumnsNames | utils/data_loader.py:14-19 | the columns after loading are the original ones plus the six feature names, nothing else |
| DataLoader.DerivedColumnsDistinct | utils/data_loader.py:14-19 | no column name is duplicated |
| DataLoader.DerivedColumnsPresent | utils/data_loader.py:14-19 | a frame that already has the six columns keeps its column list |
| DataLoader.DerivedRow | utils/data_loader.py:14-19 | deriving keeps a row raw, with the same inputs to every formula |
| DataLoader.NamesAreFeatureNames | utils/data_loader.py:14-19 | the six features and the six column names correspond one to one |
| DataLoader.DerivedRowMeaning | utils/data_loader.py:14-19 | a loaded row has exactly its raw cells plus the six features, each equal to its formula (CIF/(mass+1e-6), rate × CIF, year + month/12, FOB, freight and insurance per kg); other cells are unchanged |
| DataLoader.Derive | utils/data_loader.py:14-19 | the six derivations on a table; its meaning is stated by DeriveMeaning and DerivedRowMeaning |
| DataLoader.DeriveMeaning | utils/data_loader.py:14-19 | loading keeps the row count, makes every row its derived row, keeps the existing columns in order and adds the six names |
| DataLoader.DeriveWellFormed | utils/data_loader.py:14-19 | a well-formed frame stays well formed after loading |
| DataLoader.RatiosSumToDensity | utils/data_loader.py:14-19 | when CIF = FOB + freight + insurance, the three per-kg ratios add up to the value density |
| DataLoader.DerivedRowFixpoint | utils/data_loader.py:14-19 | a row that already carries its own features is left unchanged |
| DataLoader.DeriveIdempotent | utils/data_loader.py:14-19 | deriving a second time changes nothing |
| DataLoader.DerivedRowIdempotent | utils/data_loader.py:14-19 | one row derived twice is the row derived once |
| DataLoader.DerivedRowsIdempotent | utils/data_loader.py:14-19 | the rows derived twice are the rows derived once |
| DataLoader.AssignFeature | utils/data_loader.py:14-19 | one statement `df[name] = formula` in place: the frame stays valid, the column list gains the name, every row gains its value |
| DataLoader.DeriveFeatures | utils/data_loader.py:9-21 | the six in-place assignments leave exactly the frame `Derive` describes |
| DataLoader.LoadData | utils/data_loader.py:9-21 | `load_data()` returns a fresh valid frame equal to the derived CSV contents |
| DataLoader.Without | utils/data_loader.py:39-42 | the column list without the dropped names: exactly the other names, in order |
| DataLoader.DropMeaning | utils/data_loader.py:39-42 | dropping keeps the frame well formed, removes exactly the present named columns, keeps every other cell, and leaves a frame with none of the names unchanged (it never fails) |
| DataLoader.PreprocessData | utils/data_loader.py:33-42 | `preprocess_data` ignores its argument and returns the loaded frame without the five unused columns |
| DataLoader.SchemaListsWellFormed | utils/data_loader.py:45-57 | 14 numeric and 8 categorical features, no duplicates, no name in both lists |
| DataLoader.DerivedFeaturesAreNumericFeatures | utils/data_loader.py:14-19 | every derived feature is one of the numeric features |
| Predictions.TaxRate | app/pages/predictions.py:33 | the rate is the entered percentage over 100, within [0, 1] for a percentage within [0, 100] |
| Predictions.SplitYearMonth | app/pages/predictions.py:41-42 | `year_month // 100` and `% 100`: year × 100 + month is the input and month is in 0..99 |
| Predictions.SplitJoin | app/pages/predictions.py:41-42 | a year and a two-digit month joined as YYYYMM split back into themselves |
| Predictions.SplitBounds | app/pages/predictions.py:34-42 | within the widget's range the year is 2023..2030 and the month only 0..99 |
| Predictions.MonthNotValidated | app/pages/predictions.py:34-42 | inputs 202313 and 202400 give months 13 and 0: nothing checks the month |
| Predictions.ImportDurationCollides | app/pages/predictions.py:43 | two different inputs (202313 and 202401) give the same import duration |
| Predictions.DurationOf | app/pages/predictions.py:43 | `year + month / 12`; ImportDurationCollides shows two inputs it does not tell apart |
| Predictions.Record | app/pages/predictions.py:51-76 | the one-row record; its meaning is stated by RecordKeys, RecordMatchesLoader and DefaultsAreFixed |
| Predictions.InputData | app/pages/predictions.py:51-76 | `input_data` has one row |
| Predictions.RecordColumnsDistinct | app/pages/predictions.py:51-76 | the record literal names 24 distinct columns |
| Predictions.RecordKeys | app/pages/predictions.py:51-76 | the record's keys are exactly the literal's names |
| Predictions.InputDataWellFormed | app/pages/predictions.py:51-76 | `input_data` is a well-formed frame |
| Predictions.FeatureNamesInRecord | app/pages/predictions.py:70-75 | the six derived names are among the record's columns |
| Predictions.DefaultsAreFixed | app/pages/predictions.py:65-67 | whatever is entered, transport, currency and valuation are AIR, USD and CIF |
| Predictions.RecordMatchesLoader | app/pages/predictions.py:43-48 | the record's derived cells are exactly what `load_data`'s formulas compute from its raw cells |
| Predictions.InputDataIsDerived | app/pages/predictions.py:41-76 | running the loader's derivation over `input_data` changes nothing |
| Predictions.DivisorsPositive | app/pages/predictions.py:29 | every per-kg divisor is positive for the masses the widget allows |
| Predictions.Missing | app/pages/predictions.py:79 | exactly the expected names the frame lacks |
| Predictions.SelectColumns | app/pages/predictions.py:79 | `input_data[names]` fails exactly when a name is absent, reporting the absent names; otherwise it has exactly the columns `names`, in order, and every row's values restricted to them |
| Predictions.SelectColumnsMeaning | app/pages/predictions.py:79 | selecting distinct present names succeeds and gives a well-formed frame with the same cells |
| Predictions.PredictPrice | app/pages/predictions.py:38-91 | the error branch always shows the preprocessor's expected columns |
| Predictions.MissingColumnFails | app/pages/predictions.py:79-91 | an expected column the record lacks always ends in the error branch, showing the record's 24 columns, whatever the model would do |
| Predictions.CoveredSchemaPredicts | app/pages/predictions.py:79-91 | when the record has every expected column, the preprocessor sees exactly them with the record's values; the price is the model's first output; any failure shows the expected columns |
| Predictions.RecordCoversSchema | app/pages/predictions.py:51-79 | the record holds every name of the two feature lists of utils/data_loader.py:45-57, and only Year and Month are extra |
| Predictions.DefaultFormRecord | app/pages/predictions.py:27-34 | the form's defaults give CIF 1300, rate 0.18, tax load 234, year 2024, month 1 |
| Reports.YearFilter | app/pages/reports.py:35 | keeps exactly the rows whose year is within the selected range |
| Reports.YearFilterOrder | app/pages/reports.py:35 | the filter keeps the rows' order |
| Reports.YearBounds | app/pages/reports.py:25-26 | the slider's bounds: none for an empty frame, else a minimum and a maximum year that rows have and that bound every row's year |
| Reports.DefaultRangeKeepsAll | app/pages/reports.py:25-35 | with the slider at its default range every row is kept |
| Reports.TopItems | app/pages/reports.py:40 | the ten largest per-item CIF totals; its meaning is stated by TopItemsMeaning, TopItemsTotals and TopItemsLeftOut |
| Reports.TopItemsMeaning | app/pages/reports.py:40 | the top chart has min(10, number of items) entries, largest total first, and no item twice |
| Reports.TopItemsTotals | app/pages/reports.py:40 | each entry shown is a present item with its CIF total over exactly its rows |
| Reports.TopItemsLeftOut | app/pages/reports.py:40 | no item left out has a larger total than an item shown |
| Reports.CountryTotal | app/pages/reports.py:72-74 | the CIF sum of one country's rows; its meaning is stated by CountryTotalMeaning |
| Reports.CountryTotalMeaning | app/pages/reports.py:72-74 | the country metric is that country's entry of the per-country sums, and 0 for a country no row has |
| Reports.PeriodLabel | app/pages/reports.py:93 | the label `str(year) + '-' + str(month).zfill(2)`; its meaning is stated by PeriodLabelShape and PeriodLabelInjective |
| Reports.PeriodLabelShape | app/pages/reports.py:93 | for any integers, a period label is `str(year)`, a dash, and the month part: for a month at or above zero at least two digits whose value is the month, for a negative month a minus sign and its digits |
| Reports.DashSplit | app/pages/reports.py:93 | a join of a digit run, a dash and a rest splits back uniquely |
| Reports.YearPartSplit | app/pages/reports.py:93 | `str(year)`, a dash and a rest determine the year and the rest |
| Reports.MonthPartSign | app/pages/reports.py:93 | the zero-padded month part has two characters or more and starts with a minus sign exactly for a negative month |
| Reports.MonthPartInjective | app/pages/reports.py:93 | different integer months give different zero-padded month parts |
| Reports.PeriodLabelInjective | app/pages/reports.py:93 | different (year, month) pairs of any integers get different period labels |
| Reports.PeriodColumn | app/pages/reports.py:93 | one label per row |
| Reports.AddPeriod | app/pages/reports.py:93 | `df['Period'] = ...` in place: the frame stays valid and gains each row's period label |
| Reports.PeriodTrend | app/pages/reports.py:98 | the CIF sums per period label; its meaning is stated by PeriodTrendMeaning |
| Reports.PeriodTrendMeaning | app/pages/reports.py:93-98 | for any integer years and months, after the Period column is added, the trend's group of a period label holds exactly the rows of that year and month |
| Reports.TaxChart | app/pages/reports.py:175 | the per-country rows sorted by descending percentage; its meaning is stated by TaxChartMeaning |
| Reports.TaxChartMeaning | app/pages/reports.py:175 | the chart holds every country's row once; finite percentages descend; +inf first, -inf after the finite ones, NaN last |
| Reports.TaxImpact | app/pages/reports.py:167-172 | the per-country tax and CIF sums with their percentage; its meaning is stated by TaxImpactMeaning and TaxPercentBounds |
| Reports.PercentOrder | app/pages/reports.py:175 | in rows of non-increasing percentage rank, finite values descend, +inf comes first, -inf after the finite ones and NaN last |
| Reports.TaxImpactMeaning | app/pages/reports.py:167-172 | one row per country and only those, in key order, each with the tax-load and CIF sums over exactly its rows and their float percentage |
| Reports.RowTaxWithinCif | app/pages/reports.py:167-172 | a row taxed at a rate in [0, 1] of a nonnegative CIF has tax between 0 and CIF |
| Reports.TaxWithinCif | app/pages/reports.py:167-169 | where every row's tax lies between 0 and its CIF, so do the sums |
| Reports.PercentageBounds | app/pages/reports.py:172 | the percentage of a tax within [0, CIF] is within [0, 100], or NaN for 0 / 0 |
| Reports.TaxPercentBounds | app/pages/reports.py:167-172 | with every rate in [0, 1] and every CIF nonnegative, each country's percentage is within [0, 100] or NaN |
| Reports.LoadedRowsTaxedAtRate | app/pages/reports.py:167-172 | the loaded frame meets that hypothesis wherever its raw rates and CIF values do |
| Reports.DerivedRowTaxedAtRate | utils/data_loader.py:15 | a loaded row's tax load is its rate times its CIF value |
| Reports.CategoryCode | app/pages/reports.py:194 | a categorical code is the first position of the value among the categories, or -1 exactly when it is not one |
| Reports.CodeOfCategory | app/pages/reports.py:194 | among distinct categories each one's code is its position |
| Reports.MonthCodes | app/pages/reports.py:187-194 | exactly months 1..12 have a name; the name is entry m - 1 of the month order, and its code is m - 1 |
| Reports.MonthName | app/pages/reports.py:187 | the calendar name of a month number, none outside 1..12; its meaning is stated by MonthCodes and MonthNameInOrder |
| Reports.MonthNameInOrder | app/pages/reports.py:187-193 | the calendar name of month m is entry m - 1 of the month order |
| Reports.CalendarNotAlphabetical | app/pages/reports.py:190-194 | August sorts before February as a string, but gets the later code |
| Reports.MonthNames | app/pages/reports.py:187 | the month names exist exactly when every month is within 1..12 |
| Reports.NamesThenCategories | app/pages/reports.py:187-194 | naming the months, then reading the names as categories, gives each month the code m - 1 |
| Reports.AddMonthName | app/pages/reports.py:187-194 | in place: with all months in 1..12 the frame gains Month_Name with codes m - 1; otherwise it fails and the frame is unchanged |
| Reports.MonthlyTable | app/pages/reports.py:196 | twelve entries per listed year |
| Reports.MonthlyTableAt | app/pages/reports.py:196 | position 12j + c holds month c of the j-th year with its total |
| Reports.MonthlyTrend | app/pages/reports.py:196 | the year-by-month CIF table; its meaning is stated by MonthlyTrendEntries, MonthlyTrendTotals, MonthlyTrendOrder and MonthlyChartTotals |
| Reports.MonthlyTrendCovers | app/pages/reports.py:196 | every year present appears with each of the twelve months and that month's total |
| Reports.MonthlyTrendEntries | app/pages/reports.py:196 | twelve entries per year present and nothing else, every month a category of the calendar order |
| Reports.MonthlyTrendTotals | app/pages/reports.py:196 | each total sums exactly the rows of its year and month (0 when there are none) |
| Reports.MonthlyTrendOrder | app/pages/reports.py:196 | years increase and, within a year, months follow the calendar |
| Reports.MonthTotalByNumber | app/pages/reports.py:187-196 | after AddMonthName's assignment, the total for a year and month code c is the CIF sum of the rows of that year whose Month is c + 1 |
| Reports.MonthlySlotByNumber | app/pages/reports.py:196 | such a total, placed at position 12j + c of the table, is a chart point summing the rows whose Month is c + 1 |
| Reports.MonthlyEntryByNumber | app/pages/reports.py:187-196 | every position of the table built over the named frame is such a chart point |
| Reports.MonthlyTableByNumber | app/pages/reports.py:187-196 | the same for every position at once |
| Reports.MonthlyChartTotals | app/pages/reports.py:187-196 | each point of the monthly chart drawn from the frame AddMonthName leaves is the CIF total of the rows of its year whose Month is its month code plus one |
| Reports.YearlyAggregate | app/pages/reports.py:208-212 | the per-year summary; its meaning is stated by YearlyAggregateKeys, YearlyAggregateTotals and YearlyAggregateRows |
| Reports.YearlyTable | app/pages/reports.py:208-212 | one summary per listed year |
| Reports.YearlyAggregateKeys | app/pages/reports.py:208-212 | one row per distinct year and only those, in increasing order |
| Reports.YearlyTableKeys | app/pages/reports.py:208-212 | the j-th summary is for the j-th listed year |
| Reports.YearlyAggregateTotals | app/pages/reports.py:208-212 | the CIF and tax-load columns equal the per-year group sums, and the CIF totals add up to the frame's total |
| Reports.YearlyAggregateRows | app/pages/reports.py:208-212 | each summary row is the aggregate of its own year's rows |
| Reports.YearOfMeaning | app/pages/reports.py:208-212 | a year's CIF and tax totals are sums over exactly its rows; its mean unit price times the (nonzero) row count is their unit-price sum |

## Left out

- The Streamlit interface is not modelled: page layout, widgets, plotly figures, caching decorators and the formatted text of metrics and messages. The form's values are a parameter (`Predictions.Form`), and so is the year range chosen on the slider.
- Reading the CSV file is not modelled: its contents are a parameter of `DataLoader.LoadData`.
- `load_model`, and the fitted preprocessor's transform and the regressor's predict, are foreign code. They are function parameters that may fail.
- The `ColumnTransformer` and `StandardScaler`/`OneHotEncoder` set-up is not modelled. Only its two feature lists are.
- The predictor page's option lists, read from the data at lines 11-14, are not modelled: they only fill the select boxes. The transport list is never used, since the record always carries AIR (`Predictions.DefaultsAreFixed`).
- Floats are modelled as exact reals, so rounding is not modelled. The single divisor value reals cannot take, a gross mass of exactly -1e-6, is excluded by a precondition.
- The tax percentage's float division by a zero CIF sum is modelled (+inf, -inf, NaN). No other NaN is: missing cells, NaN keys and pandas' NaN-skipping means are not modelled.
- Groups.SortDescending: `sort_values` uses an unstable sort by default. The model's sort is stable, so the order among equal percentages is one possible order, not the only one.
- Groups.NLargest: the order among ties follows the stable sort. Everything proved about it holds for any tie order.
- Reports.TaxImpact: the in-place assignment of the Tax_Percentage column to `tax_impact` is modelled as a value (a `TaxRow` per country).
- Reports.MonthlyTrend: it assumes pandas' `observed=False` default for a categorical key, so every year has all twelve months.
- Groups.KeyLess: a key column mixing integers and strings, which Python would refuse to sort, is given an arbitrary fixed order.
- Exceptions are modelled only as the failing branch (`Result`, `Option`, or `ok = false`). Their message text is not. The ValueError that the constructor `datetime(2000, x, 1)` at line 187 raises for a month outside 1..12 is such a case.
- The statistics table of the top-items chart (`describe`) is not modelled. Neither are the metrics on average tax load and most common transport mode (lines 75-76), or the treemap, scatter, sunburst, transport-summary, histogram and figure-drawing parts of the page.
- DataLoader.LoadData: a CSV that lacks one of the eight raw columns, or holds a non-number in one, makes lines 14-19 raise KeyError or TypeError. The precondition `RawTable` excludes such a CSV, so that failure is not modelled. The same holds for DataLoader.DeriveFeatures and DataLoader.PreprocessData.
- Predictions.RecordCoversSchema: the columns the fitted preprocessor expects (`feature_names_in_`) come from the saved model file, which is not part of this model. The model takes them to be the two feature lists of utils/data_loader.py:45-57, numeric first; that is an assumption.
- `int(df['Year'].min())` applied to an empty frame raises. The model returns `None`.
