# pandas-visual-analysis, core model

This project is a Dafny model of the non-graphical core of pandas-visual-analysis. That library draws linked plots of a pandas DataFrame in a Jupyter notebook. The model covers six parts:

- **The data source** (`DataSources`, data_source.dfy). It holds the frame, the set of brushed (selected) row positions that all plots share, the selection mode (standard, additive, subtractive) and a lazily rebuilt cache of the brushed rows.
- **The column store** (`Columns`, column_store.dfy).
  - It splits the frame's columns into numerical, time and categorical names, with or without a user override.
  - It keeps wrap-around cursors over the three lists.
  - It has three "prefer" cursors that drain one list after another and then start over.
- **The colour parser and list comparison** (`Util`, util.dfy).
- **The argument validators** (`Validation`, validation.dfy).
- **The widget class registry** (`Registry`, registry.dfy).
- **The multi-select helper** (`MultiSelect`, multi_select.dfy). It is a list of checkboxes with a search field and select-all / deselect-all buttons, plus the threshold rule that decides when a widget shows one.

Code that works on values is written as functions:

- hex parsing;
- the validators;
- the column partition;
- the cursor step functions;
- the search filter and sort.

Code that updates objects in place is written as classes with `modifies` clauses:

- `DataSources.DataSource`;
- `Columns.ColumnIterator` and `Columns.ColumnStore`;
- `Registry.WidgetClassRegistry`;
- `MultiSelect.MultiSelectWidget` (its checkboxes are an `array<bool>`);
- `MultiSelect.HasMultiSelect`.

Each method is tied by its `ensures` clauses to the pure function that specifies it. The properties are then proved on those functions.

Conventions used throughout:

- A Python exception is a `Result` or `Outcome` carrying the exception class (`Results`, results.dfy).
- The blinker signal is a ghost log of the selections sent.
- pandas' dtype selection is replaced by an abstract `Kind` per column.
- `str.lower` is ASCII lower-casing.
- Orders that Python leaves to set hashing are fixed. `list(set(...))` becomes first-occurrence column order (`Seqs.Dedup`). `iloc[list(set)]` reads the ids in increasing order. The contracts state only what holds for every order.

Three places where the model follows the code rather than the docstrings:

- `hex_to_rgb` strips every leading `#`, so it accepts more than the documented `#XXXXXX`. See "## Findings". `validate_color` is modelled on the parser as written (`Util.HexToRgbAsWritten`), so it passes `##abcde` as the code does; `Util.HexToRgb` is the corrected parser, and `Validation.ValidateColorStrings` states exactly where the two differ.
- Without an override a time-delta column is in both the numerical and the time list, because numpy counts `timedelta64` as a number. See "## Findings". `Columns.Classify`, and so the `ColumnStore`, keeps the lists as the code builds them; `Columns.InferIntended` is the corrected partition, and `Columns.InferAgreesWithoutDurations` states exactly where the two differ.
- `reset_selection` and the constructor share one `indices` set. Python sets are never mutated in place here, so sharing is the same as copying.

## Model

| member | source | states |
|---|---|---|
| Seqs.Without | src/pandas_visual_analysis/widgets/helpers/multi_select.py:131-133 | the result holds the elements other than `x`, keeps a duplicate-free list duplicate-free, and is the list itself when `x` is absent |
| Seqs.WithoutCounts | src/pandas_visual_analysis/widgets/helpers/multi_select.py:131-133 | every other element keeps its number of occurrences and `x` has none |
| Seqs.WithoutInOrder | src/pandas_visual_analysis/widgets/helpers/multi_select.py:131-133 | the result is the elements that differ from `x`, in their original order |
| Seqs.Dedup | src/pandas_visual_analysis/utils/column_store.py:64-71 | `list(set(s))`: the same elements, each once |
| Util.ParseHex | src/pandas_visual_analysis/utils/util.py:15-18 | `int(t, 16)` succeeds exactly on non-empty strings of hex digits, and then its value is the number the digits denote, below 16^len; otherwise ValueError |
| Util.HexToRgb | src/pandas_visual_analysis/utils/util.py:5-19 | the intended parser: Ok exactly for `#` followed by six hex digits, every failure a ValueError, each component in 0..255 |
| Util.HexToRgbOk | src/pandas_visual_analysis/utils/util.py:19 | an accepted string gives the values of its three digit pairs |
| Util.RgbHexRoundTrip | src/pandas_visual_analysis/utils/util.py:5-19 | parsing the `#rrggbb` spelling of any colour gives that colour back |
| Util.HexToRgbCanonical | src/pandas_visual_analysis/utils/util.py:5-19 | a parsed colour prints back as the lower-case spelling of the input, so parsing loses nothing but case |
| Util.HexToRgbIgnoresCase | src/pandas_visual_analysis/utils/util.py:16-19 | upper- and lower-case spellings parse to the same colour |
| Util.HexToRgbWhite | src/pandas_visual_analysis/utils/util.py:5-19 | `#ffffff` is (255, 255, 255) |
| Util.HexToRgbMixedCase | src/pandas_visual_analysis/utils/util.py:5-19 | `#F245E1` is (242, 69, 225) |
| Util.HexToRgbRejects | src/pandas_visual_analysis/utils/util.py:12-18 | `#ff3X45`, `ffffff` and `asdfefasdffe` raise ValueError |
| Util.LStripHash | src/pandas_visual_analysis/utils/util.py:14 | `lstrip('#')`: the result is a suffix not starting with `#`, and everything removed was `#` |
| Util.LStripHashSkips | src/pandas_visual_analysis/utils/util.py:14 | a run of `#` before a string not starting with `#` is removed whole |
| Util.HexToRgbAsWritten | src/pandas_visual_analysis/utils/util.py:5-19 | the parser as written: anything but seven characters starting with `#` is refused; it is Ok exactly when what `lstrip` leaves is five or six hex digits, and then every component is in 0..255; every failure a ValueError |
| Util.HexToRgbAsWrittenValues | src/pandas_visual_analysis/utils/util.py:14-19 | an accepted colour holds the values of the slices `[0:2]`, `[2:4]` and `[4:6]` of the stripped string |
| Util.ParseStripped | src/pandas_visual_analysis/utils/util.py:15-19 | the steps after `lstrip`: Ok exactly for five or six hex digits, each component the value of its slice and in 0..255; otherwise ValueError |
| Util.StrippedPairs | src/pandas_visual_analysis/utils/util.py:19 | with fewer than five digits a later slice is empty or short and fails; with five or six each slice parses to its value, below 256 |
| Util.StripDoubleHash | src/pandas_visual_analysis/utils/util.py:14 | `lstrip('#')` turns `##abcde` into `abcde` |
| Util.ParseDoubleHashPieces | src/pandas_visual_analysis/utils/util.py:16-19 | the slices of `abcde` parse as 171, 205 and 14 |
| Util.DoubleHashAccepted | src/pandas_visual_analysis/utils/util.py:12-19 | the code as written accepts `##abcde` as (171, 205, 14); the intended parser rejects it |
| Util.AsWrittenAgreesOnSingleHash | src/pandas_visual_analysis/utils/util.py:12-19 | when the second character is not `#`, the code as written and the intended parser agree on every input |
| Util.CounterIsMultiset | src/pandas_visual_analysis/utils/util.py:33 | `Counter(s)` maps each element to its number of occurrences |
| Util.CounterEqualIffMultiset | src/pandas_visual_analysis/utils/util.py:33 | two Counters are equal exactly when the lists are equal as multisets |
| Util.CompareLists | src/pandas_visual_analysis/utils/util.py:22-33 | true exactly when both arguments are lists with equal multisets |
| Util.CompareListsProperties | src/pandas_visual_analysis/utils/util.py:22-33 | on all lists, the empty one included, it is reflexive, symmetric and transitive; a non-list on either side makes it false |
| Util.CompareListsOrderAndCount | src/pandas_visual_analysis/utils/util.py:22-33 | swapping two entries keeps a list equal to itself; one more copy of an entry makes it unequal |
| Util.CompareListsExamples | src/pandas_visual_analysis/utils/util.py:22-33 | the documented cases: a duplicate count or element differs, or a non-list is given |
| Validation.AllPositive | src/pandas_visual_analysis/utils/validation.py:45 | `all(x > 0 for x in hs)` |
| Validation.ValidateRowHeight | src/pandas_visual_analysis/utils/validation.py:24-46 | one height passes iff it is not negative; a list passes iff it has one entry per layout row and all entries are positive; every failure is a ValueError |
| Validation.ComponentsInRange | src/pandas_visual_analysis/utils/validation.py:77-84 | passes iff the first three components are in 0..255 |
| Validation.ValidateHexString | src/pandas_visual_analysis/utils/validation.py:69-84 | the string branch: passes iff `hex_to_rgb` as written accepts the string, else ValueError |
| Validation.ValidateColor | src/pandas_visual_analysis/utils/validation.py:68-84 | a string passes iff `hex_to_rgb` as written accepts it, since in the model, where hex numbers carry no sign, a parsed colour always passes the range check; a tuple passes iff it has three components in 0..255; other types are a TypeError; every other failure is a ValueError |
| Validation.ValidateColorStrings | src/pandas_visual_analysis/utils/validation.py:68-84 | a string passes iff the intended parser accepts it or it is `##` followed by five hex digits |
| Validation.ValidateColorDoubleHash | src/pandas_visual_analysis/utils/validation.py:68-70 | `##abcde` passes, because `hex_to_rgb` as written accepts it |
| Validation.ValidateSeed | src/pandas_visual_analysis/utils/validation.py:87-97 | None or an integer in 0..2**32 - 1 passes; anything else is a ValueError |
| Validation.ValidationExamples | src/pandas_visual_analysis/utils/validation.py:24-97 | the boundary cases: height -10 and 0, and the largest seed and the one after it |
| Validation.ValidateColorExamples | src/pandas_visual_analysis/utils/validation.py:71-84 | a two-component tuple and tuples with 500 fail; (12, 12, 12) passes |
| Validation.ValidateHexExamples | src/pandas_visual_analysis/utils/validation.py:68-84 | `#asdfasdfa` fails and `#ffffff` passes |
| Registry.RegisteredName | src/pandas_visual_analysis/widgets/registry.py:54-58 | Ok iff the name ends in `Widget`, and the key plus `Widget` is the name; otherwise ValueError |
| Registry.RegisteredNameOfSuffixed | src/pandas_visual_analysis/widgets/registry.py:58 | `XWidget` is filed as `X` |
| Registry.WidgetClassRegistry.constructor | src/pandas_visual_analysis/widgets/registry.py:7-8 | an empty registry |
| Registry.WidgetClassRegistry.WidgetSet | src/pandas_visual_analysis/widgets/registry.py:10-16 | the set of the list's elements, which is exactly the names `has_widget` accepts |
| Registry.WidgetClassRegistry.WidgetList | src/pandas_visual_analysis/widgets/registry.py:18-24 | the keys, each once, in insertion order |
| Registry.WidgetClassRegistry.HasWidget | src/pandas_visual_analysis/widgets/registry.py:26-33 | true iff the name is a key |
| Registry.WidgetClassRegistry.GetWidgetClass | src/pandas_visual_analysis/widgets/registry.py:35-43 | Ok with the registered class iff the name is a key, else KeyError |
| Registry.WidgetClassRegistry.Add | src/pandas_visual_analysis/widgets/registry.py:45-59 | a ValueError unless the name ends in `Widget`, and then nothing changes; otherwise the stripped key maps to the class, no other key changes, and a new key is appended to the order |
| Registry.RegisterWidget | src/pandas_visual_analysis/widgets/registry.py:62-70 | adds the class as `add` does and returns it unchanged |
| Registry.RegistryScenario | src/pandas_visual_analysis/widgets/registry.py:45-70 | registering `Test1Widget` then `Test2Widget` lists `Test1`, `Test2` with their classes; LookupScenario then finds both by short name and refuses a class without the suffix, as tests/test_widget_registry.py:17-74 does |
| Columns.OfKinds | src/pandas_visual_analysis/utils/column_store.py:73-85 | `select_dtypes(...)`: the names of the columns whose kind the query picks, no more of them than columns, none for a query that picks no kind |
| Columns.OfKindsInColumnOrder | src/pandas_visual_analysis/utils/column_store.py:73-85 | those names in column order |
| Columns.OfKindsAppend | src/pandas_visual_analysis/utils/column_store.py:73-85 | a query on two frames side by side gives the two answers side by side |
| Columns.Classify | src/pandas_visual_analysis/utils/column_store.py:38-90 | a non-list override is a TypeError; without one, numerical names exactly the number and time-delta columns, time exactly the datetime and time-delta columns, categorical the rest, each in column order; an override is accepted iff it names only existing columns and every text column, and then time holds the datetime and time-delta columns outside it and numerical the rest, each without duplicates |
| Columns.PartitionCovers | src/pandas_visual_analysis/utils/column_store.py:38-90 | an accepted partition lists every column and nothing else |
| Columns.PartitionDisjoint | src/pandas_visual_analysis/utils/column_store.py:38-90 | categorical shares no name with the other two lists; with an override numerical and time share none either; without one (and with distinct column names) they share exactly the time-delta columns |
| Columns.InferOverlap | src/pandas_visual_analysis/utils/column_store.py:72-85 | with distinct names, the number and time queries meet in the time-delta columns, and neither meets the categorical query |
| Columns.KindsCount | src/pandas_visual_analysis/utils/column_store.py:72-85 | three queries that cover every kind, the third apart from the other two, list each column once, and once more each column both of the first two pick |
| Columns.InferIsPermutation | src/pandas_visual_analysis/utils/column_store.py:72-98 | without an override, `numerical + time + categorical` (the preferred-numerical list) holds every column once and every time-delta column a second time |
| Columns.InferIntended | src/pandas_visual_analysis/utils/column_store.py:72-85 | the corrected partition: numerical holds only the number columns; time and categorical are as the code builds them |
| Columns.InferIntendedPartitions | src/pandas_visual_analysis/utils/column_store.py:30-36 | the corrected lists are a rearrangement of the columns and, with distinct names, pairwise disjoint |
| Columns.InferAgreesWithoutDurations | src/pandas_visual_analysis/utils/column_store.py:72-85 | the code's and the corrected lists agree iff the frame has no time-delta column; the code's numerical list is longer by one name per time delta |
| Columns.DurationCountedTwice | src/pandas_visual_analysis/utils/column_store.py:78-85 | the test frame with a time-delta column `f` lists `f` as numerical and as time; the corrected partition lists it as time only |
| Columns.ClassifyInferExample | src/pandas_visual_analysis/utils/column_store.py:72-85 | the test frame splits into `[a, c]`, `[d]`, `[b, e]` |
| Columns.ClassifyGivenExample | src/pandas_visual_analysis/utils/column_store.py:41-71 | an override naming the two text columns and a numeric one is accepted |
| Columns.ClassifyPromotesTime | src/pandas_visual_analysis/utils/column_store.py:59-66 | an override naming the timestamp column leaves no time columns |
| Columns.ClassifyRejectsUnknown | src/pandas_visual_analysis/utils/column_store.py:41-46 | an unknown name is a ValueError; a non-list is a TypeError |
| Columns.ClassifyRejectsMissingText | src/pandas_visual_analysis/utils/column_store.py:48-58 | an override without the text columns is a ValueError |
| Columns.ClassifyRejectsHalfText | src/pandas_visual_analysis/utils/column_store.py:48-58 | an override with only one of the two text columns is a ValueError |
| Columns.NextOf | src/pandas_visual_analysis/utils/column_store.py:18-24 | on an empty list, ZeroDivisionError and the index is unchanged; otherwise a value and an index in 1..len; below the end, the element at the index and the index plus one |
| Columns.IterRun | src/pandas_visual_analysis/utils/column_store.py:18-24 | k calls give k values; on an empty list each is a ZeroDivisionError and the index stays; within one lap they are the next k entries in order and the index moves by k |
| Columns.IterRunDrains | src/pandas_visual_analysis/utils/column_store.py:18-24 | from any index, the rest of the lap reads the rest of the list in order and stops at the end |
| Columns.IterWraps | src/pandas_visual_analysis/utils/column_store.py:18-24 | at the end, the next call reads the first element again |
| Columns.IterLap | src/pandas_visual_analysis/utils/column_store.py:18-24 | every lap of len calls, the first or any later one, reads the whole list in order |
| Columns.IteratorExample | src/pandas_visual_analysis/utils/column_store.py:18-24 | over `["1", "2"]` the calls give 1, 2, 1; IteratorScenario does the same on a ColumnIterator, also after `iter`, as tests/utils/test_column_store.py:13-29 does |
| Columns.PreferStep | src/pandas_visual_analysis/utils/column_store.py:163-186 | the cursors stay in bounds; it fails only at the restart with an empty first list, with ZeroDivisionError and all cursors reset |
| Columns.PreferRun | src/pandas_visual_analysis/utils/column_store.py:163-186 | k calls give k values and keep the cursors in bounds |
| Columns.PreferRunSplit | src/pandas_visual_analysis/utils/column_store.py:163-186 | a run of a + b calls is a run of a followed by a run of b |
| Columns.DrainFirst | src/pandas_visual_analysis/utils/column_store.py:176-177 | while the first cursor has names left, only it is read |
| Columns.DrainSecond | src/pandas_visual_analysis/utils/column_store.py:178-179 | once the first is spent, the second is read to its end |
| Columns.DrainThird | src/pandas_visual_analysis/utils/column_store.py:180-181 | then the third is read to its end |
| Columns.DrainRest | src/pandas_visual_analysis/utils/column_store.py:178-181 | the second list, then the third |
| Columns.DrainAll | src/pandas_visual_analysis/utils/column_store.py:176-181 | the rest of the first list, then the second, then the third |
| Columns.PreferLapFromFresh | src/pandas_visual_analysis/utils/column_store.py:163-186 | from fresh cursors one lap yields the three lists in preference order; the next call restarts with the first list's head, or fails when that list is empty |
| Columns.PreferLapAfterRestart | src/pandas_visual_analysis/utils/column_store.py:182-186 | every later lap yields every name once, rotated by one, and leaves the cursors as it found them |
| Columns.PreferNumericalExample | src/pandas_visual_analysis/utils/column_store.py:130-139 | on the test frame, a, c, d, b, e, then a again |
| Columns.PreferOnEmptyFirstFails | src/pandas_visual_analysis/utils/column_store.py:182-186 | with no numerical columns the first lap reads the others, and the restart then raises ZeroDivisionError |
| Columns.ColumnIterator.constructor | src/pandas_visual_analysis/utils/column_store.py:10-12 | the list, at index 0 |
| Columns.ColumnIterator.Iter | src/pandas_visual_analysis/utils/column_store.py:14-16 | rewinds to 0 and returns itself |
| Columns.ColumnIterator.Next | src/pandas_visual_analysis/utils/column_store.py:18-24 | returns the value and sets the index that `NextOf` gives |
| Columns.ColumnIterator.Len | src/pandas_visual_analysis/utils/column_store.py:26-27 | the list's length |
| Columns.ColumnStore.constructor | src/pandas_visual_analysis/utils/column_store.py:92-104 | the partition's lists; three fresh separate cursors at 0; the three concatenated prefer lists |
| Columns.ColumnStore.NextNumerical | src/pandas_visual_analysis/utils/column_store.py:106-112 | one `NextOf` step of the numerical cursor |
| Columns.ColumnStore.NextCategorical | src/pandas_visual_analysis/utils/column_store.py:114-120 | one `NextOf` step of the categorical cursor |
| Columns.ColumnStore.NextTime | src/pandas_visual_analysis/utils/column_store.py:122-128 | one `NextOf` step of the time cursor |
| Columns.ColumnStore.NextPreferNumerical | src/pandas_visual_analysis/utils/column_store.py:130-139 | one `PreferStep` over numerical, time, categorical, on the shared cursors |
| Columns.ColumnStore.NextPreferCategorical | src/pandas_visual_analysis/utils/column_store.py:141-150 | one `PreferStep` over categorical, time, numerical |
| Columns.ColumnStore.NextPreferTime | src/pandas_visual_analysis/utils/column_store.py:152-161 | one `PreferStep` over time, numerical, categorical |
| Columns.ColumnStore.NextPrefer | src/pandas_visual_analysis/utils/column_store.py:163-186 | on three distinct iterators: the value and new indices of `PreferStep` |
| DataSources.Range | src/pandas_visual_analysis/data_source.py:83 | `set(range(n))` holds exactly 0..n-1 |
| DataSources.Combine | src/pandas_visual_analysis/data_source.py:145-150 | standard replaces the selection with the ids, additive adds them, subtractive removes them |
| DataSources.CombineStaysInRange | src/pandas_visual_analysis/data_source.py:138-152 | a subtractive brush keeps the selection inside the frame; the other modes do so iff every id is a row position |
| DataSources.AddThenSubtract | src/pandas_visual_analysis/data_source.py:145-150 | adding and then subtracting ids leaves the selection without them; the other way round, with them |
| DataSources.Position | src/pandas_visual_analysis/data_source.py:163 | `iloc`'s reading of an id: a non-negative id is itself, and any id in -n..n-1 reads a row |
| DataSources.CoherentLength | src/pandas_visual_analysis/data_source.py:162-165 | a cache built from the selection holds one row per selected id |
| DataSources.Pick | src/pandas_visual_analysis/data_source.py:66-71 | the sample's row k is the frame's row `picks[k]` |
| DataSources.SampleRows | src/pandas_visual_analysis/data_source.py:66-71 | `df.sample(n)`: n rows of the frame, taken from n distinct positions |
| DataSources.ReadRows | src/pandas_visual_analysis/data_source.py:163 | `iloc[list(s), :]`: one row per id of `s`, each the row at that position |
| DataSources.DataSource.constructor | src/pandas_visual_analysis/data_source.py:72-98 | the state after the checks: every row selected, standard mode, cache stale, nothing sent |
| DataSources.DataSource.Create | src/pandas_visual_analysis/data_source.py:49-98 | the checks in order (seed, sample count, partition, at least two columns), each failing with its error; on success the initial state with an n-row sample, and a fresh valid column store holding the same three lists with its cursors at 0 |
| DataSources.DataSource.BrushedIndices | src/pandas_visual_analysis/data_source.py:130-136 | the current selection |
| DataSources.DataSource.Len | src/pandas_visual_analysis/data_source.py:115-128 | the number of rows |
| DataSources.DataSource.Indices | src/pandas_visual_analysis/data_source.py:167-173 | exactly the positions 0..len-1 |
| DataSources.DataSource.Data | src/pandas_visual_analysis/data_source.py:175-181 | the sampled frame, of length `len` |
| DataSources.DataSource.NotifyIndicesChanged | src/pandas_visual_analysis/data_source.py:100-104 | marks the cache stale and records one notification carrying the current selection |
| DataSources.DataSource.ResetSelection | src/pandas_visual_analysis/data_source.py:106-113 | selects every row whatever the mode, then notifies |
| DataSources.DataSource.SetBrushedIndices | src/pandas_visual_analysis/data_source.py:138-152 | stores `Combine` of the mode, the old selection and the ids, then notifies |
| DataSources.DataSource.SetSelectionType | src/pandas_visual_analysis/data_source.py:54 | changes the mode and nothing else; nothing is sent |
| DataSources.DataSource.BrushedData | src/pandas_visual_analysis/data_source.py:154-165 | a fresh cache is returned untouched; a stale one is rebuilt with one row per selected id, or IndexError when an id is outside the frame, with nothing changed |
| DataSources.BrushSequenceExample | src/pandas_visual_analysis/data_source.py:145-150 | standard {1, 2}, additive {3}, subtractive {1} give {2, 3} |
| DataSources.SelectionScenario | src/pandas_visual_analysis/data_source.py:138-152 | the three brushes in turn leave {2, 3} selected and the cache stale; BrushedDataScenario then reads those two rows, and a reset selects every row, as tests/test_data_source.py:79-117 does |
| MultiSelect.SelectionOf | src/pandas_visual_analysis/widgets/helpers/multi_select.py:44-46 | a given selection as it is; none becomes the first min(len, 5) options |
| MultiSelect.Marks | src/pandas_visual_analysis/widgets/helpers/multi_select.py:54-63 | one checkbox per option, checked iff the option is in the selection |
| MultiSelect.CheckedNames | src/pandas_visual_analysis/widgets/helpers/multi_select.py:94-96 | the names of exactly the checked options, without duplicates when the options have none |
| MultiSelect.CheckedNamesInOrder | src/pandas_visual_analysis/widgets/helpers/multi_select.py:94-96 | the names of the checked options, in option order |
| MultiSelect.InitialSelected | src/pandas_visual_analysis/widgets/helpers/multi_select.py:54-63 | the initial `selected_options` holds exactly the options that are in the selection |
| MultiSelect.CheckedPrefix | src/pandas_visual_analysis/widgets/helpers/multi_select.py:94-96 | when the first k boxes are the checked ones, the list is the first k options in order |
| MultiSelect.PrefixSelection | src/pandas_visual_analysis/widgets/helpers/multi_select.py:44-63 | selecting a prefix of distinct options yields that prefix, in option order |
| MultiSelect.DefaultSelection | src/pandas_visual_analysis/widgets/helpers/multi_select.py:44-46 | without a selection, distinct options start with the first five, or all of them when there are fewer |
| MultiSelect.DefaultSelectsSomething | src/pandas_visual_analysis/widgets/helpers/multi_select.py:44-46 | a non-empty list never starts with nothing selected |
| MultiSelect.CheckChange | src/pandas_visual_analysis/widgets/helpers/multi_select.py:127-133 | checking appends a name only if it is absent; unchecking removes every occurrence and keeps the other names in order, each as often as before; no duplicates are introduced |
| MultiSelect.WithoutAppended | src/pandas_visual_analysis/widgets/helpers/multi_select.py:131-133 | removing a freshly appended name restores the list |
| MultiSelect.WithoutOneLess | src/pandas_visual_analysis/widgets/helpers/multi_select.py:131-133 | on a duplicate-free list, removing a present name shortens it by one |
| MultiSelect.CheckThenUncheck | src/pandas_visual_analysis/widgets/helpers/multi_select.py:127-133 | checking an unselected name and unchecking it again is a round trip; checking adds one |
| MultiSelect.UncheckRemovesOne | src/pandas_visual_analysis/widgets/helpers/multi_select.py:130-133 | unchecking a selected name of a duplicate-free list removes exactly it |
| MultiSelect.ToggleKeepsSync | src/pandas_visual_analysis/widgets/helpers/multi_select.py:113-133 | a box toggled with the observer running keeps the selection equal to the checked options, each once |
| MultiSelect.CheckedNamesAll | src/pandas_visual_analysis/widgets/helpers/multi_select.py:158-163 | with every box checked, the checked names are the options |
| MultiSelect.CheckedNamesNone | src/pandas_visual_analysis/widgets/helpers/multi_select.py:165-170 | with no box checked, there are none |
| MultiSelect.ContainsMeansOccurs | src/pandas_visual_analysis/widgets/helpers/multi_select.py:149 | `p in t` on strings holds iff `p` occurs in `t` at some position |
| MultiSelect.ContainsChar | src/pandas_visual_analysis/widgets/helpers/multi_select.py:149 | a one-character search matches iff the text holds that character |
| Seqs.Positions | src/pandas_visual_analysis/widgets/helpers/multi_select.py:144 | every option widget, in order |
| Seqs.PositionsIncreasing | src/pandas_visual_analysis/widgets/helpers/multi_select.py:144 | the positions increase and are exactly the positions below n |
| MultiSelect.Matching | src/pandas_visual_analysis/widgets/helpers/multi_select.py:146-152 | exactly the positions whose option matches, in their original order |
| Seqs.WithValue | src/pandas_visual_analysis/widgets/helpers/multi_select.py:151-155 | exactly the positions with the given checkbox value, in their original order |
| MultiSelect.CheckedFirstPermutes | src/pandas_visual_analysis/widgets/helpers/multi_select.py:151-155 | the sort only rearranges: the same positions, each as often |
| MultiSelect.CheckedFirstInRange | src/pandas_visual_analysis/widgets/helpers/multi_select.py:151-155 | the sorted positions are checkbox positions |
| MultiSelect.CheckedFirstOrder | src/pandas_visual_analysis/widgets/helpers/multi_select.py:151-155 | `sorted(key=value, reverse=True)`: checked before unchecked, original order within each group (stable) |
| MultiSelect.CheckedBeforeUnchecked | src/pandas_visual_analysis/widgets/helpers/multi_select.py:151-155 | no unchecked position comes before a checked one |
| MultiSelect.CheckedFirstStable | src/pandas_visual_analysis/widgets/helpers/multi_select.py:151-155 | two positions with the same checkbox value keep their order |
| MultiSelect.EmptySearchShowsAll | src/pandas_visual_analysis/widgets/helpers/multi_select.py:141-144 | an empty search shows every option in order |
| MultiSelect.SearchShowsMatches | src/pandas_visual_analysis/widgets/helpers/multi_select.py:139-156 | any other search shows exactly the matching options, each once, checked first, stable |
| MultiSelect.VisibleCount | src/pandas_visual_analysis/widgets/helpers/multi_select.py:139-156 | a search shows as many options as it matches |
| MultiSelect.MatchesDigitThree | src/pandas_visual_analysis/widgets/helpers/multi_select.py:149 | the search `3` matches exactly the options holding a 3 |
| MultiSelect.SampleOptionsFacts | tests/widgets/helpers/test_multi_select.py:6-8 | the tests' twenty options are distinct and lack `some Option` |
| MultiSelect.SampleOptionsWithThree | tests/widgets/helpers/test_multi_select.py:6-8 | only `Option3` and `Option13` hold a 3 |
| MultiSelect.SampleMatchesThree | tests/widgets/helpers/test_multi_select.py:38-42 | the search `3` matches positions 3 and 13 |
| MultiSelect.TwoHitsShowTwo | src/pandas_visual_analysis/widgets/helpers/multi_select.py:139-156 | a search matching exactly two options shows two |
| MultiSelect.SearchThreeShowsTwo | tests/widgets/helpers/test_multi_select.py:38-42 | `3` over Option0..19 shows two options |
| MultiSelect.PrefixWithin | src/pandas_visual_analysis/widgets/helpers/multi_select.py:48-49 | a prefix of the options is a subset of them |
| MultiSelect.MultiSelectWidget.constructor | src/pandas_visual_analysis/widgets/helpers/multi_select.py:51-117 | boxes checked per the selection, the checked options selected, every option shown, flag on |
| MultiSelect.MultiSelectWidget.Create | src/pandas_visual_analysis/widgets/helpers/multi_select.py:35-117 | ValueError iff the selection (default: the first five) is not a subset of the options; otherwise the initial state, in sync with the boxes when the options are distinct; CreateScenario and SampleScenarios run the constructor cases of tests/widgets/helpers/test_multi_select.py:12-23 |
| MultiSelect.MultiSelectWidget.OnCheckboxChange | src/pandas_visual_analysis/widgets/helpers/multi_select.py:122-137 | with the flag off nothing changes; otherwise `CheckChange` of the old selection |
| MultiSelect.MultiSelectWidget.SetCheckbox | src/pandas_visual_analysis/widgets/helpers/multi_select.py:113-114 | sets one box; the observer runs only on a change; a click with the flag on keeps the selection in sync; CheckboxScenario checks a sixth box and clears the first, as tests/widgets/helpers/test_multi_select.py:25-37 does |
| MultiSelect.MultiSelectWidget.OnSelectAll | src/pandas_visual_analysis/widgets/helpers/multi_select.py:158-163 | every box checked, every option selected, flag back on, in sync for distinct options |
| MultiSelect.MultiSelectWidget.OnDeselectAll | src/pandas_visual_analysis/widgets/helpers/multi_select.py:165-170 | every box cleared, nothing selected, flag back on |
| MultiSelect.MultiSelectWidget.OnTextChange | src/pandas_visual_analysis/widgets/helpers/multi_select.py:139-156 | shows `Visible` of the options, boxes and search; the selection is untouched; SearchAndBulkScenario runs the search and select-all / deselect-all cases of tests/widgets/helpers/test_multi_select.py:39-57 |
| MultiSelect.HasMultiSelect.constructor | src/pandas_visual_analysis/widgets/helpers/multi_select.py:8-27 | a multi-select iff there are more columns than the threshold, starting from the first `threshold` columns; otherwise every column is selected |
| MultiSelect.ThresholdSelection | src/pandas_visual_analysis/widgets/helpers/multi_select.py:12-23 | with distinct columns the multi-select starts with exactly `columns[0:threshold]` |

## Left out

- The file loaders `read`, `read_csv`, `read_tsv` and `read_json`, and the context-manager methods: these are pandas and file I/O.
- The fractional `sample` (`df.sample(frac=...)`): floating point. An integer sample is an arbitrary choice of that many distinct rows. The seed's effect on which rows are chosen is randomness and is not modelled; only the seed's range check is.
- `validate_data`, `validate_data_frame`, `validate_data_source`, `validate_sample` and the `isinstance` TypeErrors inside the other validators: these disappear under Dafny's typing. This includes `hex_to_rgb` on a non-string and a row-height list holding non-integers.
- `validate_alpha`: a floating-point range check.
- Python's `int(t, 16)` leniency (signs, whitespace, underscores, a `0x` prefix): a hex number is a non-empty run of hex digits.
- Validation.ValidateColor: with signs left out, its range check never refuses a parsed string. In Python `#-12345` parses to (-1, 35, 69), and the range check at validation.py:77-84 raises ValueError for it; the model instead refuses it in the parser, also with ValueError.
- The blinker `Signal`, `subscribe` and receivers: one notification is a ghost log entry holding the selection at send time.
- pandas `select_dtypes`: each column carries an abstract `Kind`: a number, a datetime or time-zoned datetime, a time delta, or anything else. The query `"number"` picks numbers and time deltas (numpy's `timedelta64` is a signed integer type); the time query picks datetimes and time deltas; the exclusion query picks the rest. No other dtype detail is modelled.
- The cast at data_source.py:79-80: its result is discarded, so it changes nothing.
- The `prefer_numerical`, `prefer_categorical` and `prefer_time` ColumnIterators: the constructor builds them as lists, but nothing reads them. `next_prefer_*` uses the three shared cursors, as modelled.
- Column order under an override, and row order in `iloc[list(set)]`: `list(set(...))` follows set hashing in Python. The model picks first-occurrence column order and increasing id order, and the contracts state only sets, counts and absence of duplicates there. Without an override the three lists are in column order, and the contracts say so.
- `str.lower` beyond ASCII: lower-casing is ASCII only.
- The threshold `int(15 * relative_size)`: floating point. HasMultiSelect takes the resulting non-negative integer.
- `show_multi_select`, `multi_select_toggle`, `build`, `max_height`, the layouts and the `"%d of %d selected"` label text: these are ipywidgets rendering. The label's count is `|selectedOptions|`.
- Plotting widgets, layout, `VisualAnalysis`, the debounce timer, the `Singleton` metaclass and `Config`: these are the graphical and orchestration layers. The registry is modelled as an explicit object instead of a process-wide singleton.
- Columns.ClassifyGivenExample: states only that the override is accepted, not the resulting lists.
- MultiSelect.InitialSelected: states which options are selected. Their order is stated only for a prefix selection (PrefixSelection, DefaultSelection).
- MultiSelect.MultiSelectWidget.OnCheckboxChange: the test calls it directly, without setting the box, so it cannot promise agreement with the boxes. SetCheckbox is the path that does.

## Findings

| source | as written | input that shows it | evidently intended | confidence | as-written member | corrected member |
|---|---|---|---|---|---|---|
| src/pandas_visual_analysis/utils/util.py:14 | `lstrip('#')` strips every leading `#`, so a second `#` passes the guard and the rest is read as five digits | `"##abcde"` gives (171, 205, 14) | only `#` followed by exactly six hex digits is a colour, as the docstring says | not executed | Util.DoubleHashAccepted | Util.HexToRgb |
| src/pandas_visual_analysis/utils/column_store.py:83-85 | without an override numerical is `select_dtypes(include=["number"])`, which also picks time-delta columns, so they are numerical and time at once and the preferred cursors read them twice per lap | a frame `a` int, `b` text, `c` float, `d` datetime, `e` bool, `f` timedelta gives numerical `[a, c, f]` and time `[d, f]` | every column in exactly one list, a time delta as time, as the class docstring's "different column types" and the override branch do | medium, not executed | Columns.DurationCountedTwice | Columns.InferIntendedPartitions |
