# Table filter engine of the NATS admin client

This project models the data grid of an administrative dashboard for NATS
accounts. The grid shows a collection of issued tokens as a searchable,
date-filterable table whose columns can be switched on and off. The model
covers four things:

- The table's filter state: the search text, the searched field
  (`dropdownItem`), the per-field date ranges and the active column labels.
  It also covers the setters that replace that state: `onChangeInput`,
  `onChangeDropdown`, `onChangeDate`, `onToggleColumn` and `resetFilters`.
- The views derived from that state. `filterData` keeps a sorted row only
  when the text predicate holds and every date range accepts the row.
  `columns` lists the map keys whose label is active. The grid gets
  `activeColumns.length - 1` flexible tracks plus one `auto` track. The
  filter bar gets its search items (`searchByItems`), its date-range items and
  its column-toggler items.
- The default table configuration: header labels, column types and the
  search and date-range fields.
- The unique-id generator behind `getId`.

Files, one module each:

- `js.dfy` (`Js`): the JavaScript semantics the engine relies on. A number may
  be NaN, and every comparison with NaN is false. A plain object keeps its
  key order. It also models `trim` (the full ECMAScript white-space and
  line-terminator set), `toLowerCase` and `includes`.
- `seqs.dfy` (`Seqs`): order-preserving `filter` and its laws.
- `table.dfy` (`Table`): `Table.tsx`. The view functions take the state as a
  `FilterState` value. `TableModel` is the component's state as a class whose
  methods are the setters.
- `table_defaults.dfy` (`TableDefaults`): `tables.ts`.
- `id.dfy` (`Id`): `id.ts`. The generator closure is an `IdGenerator` object,
  and one `Next` call is one loop iteration: `yield ++id`.

Inputs the engine receives from code outside this model are parameters:

- The rows, already sorted by the sort hook, are any `seq<Record>`.
- `SecondsToMs(item[key])` is a parameter `secondsToMs` from the optional row
  value to a number. No property of it is assumed, except where a lemma
  names one as a precondition.
- `new Date(str).getTime()` is a parameter `parseDate`.

The model follows what the code does. Four of its consequences are easy to miss:

- The doc comment of `getId` disagrees with the code in two places. It
  shows a first id of 0, but the counter starts at 0 and is
  pre-incremented, so the first id is 1 (`Id.FirstIds`). And the
  uniqueness promised at id.ts:2 and id.ts:10 holds only below 2^53: the
  counter is a double, and from there on the id repeats
  (`Id.IdRepeatsAtLimit`).
- An empty search does not match every row. The search stays scoped to
  `dropdownItem`, so rows that lack that field are dropped. After a reset,
  or on mount, rows that lack `name` are hidden
  (`Table.InitialStateKeepsRowsWithName`).
- The grid template counts active labels, while the header counts visible
  keys. If two keys of the column map share a label, toggling that label off
  and on again leaves it active once, and the grid gets one track fewer
  than the header has cells (`Table.RepeatedLabelsBreakGrid`). The grid
  lines up only when the labels are distinct (`Table.GridMatchesAfterToggles`),
  as they are in the default configuration (`TableDefaults.DefaultLabelsDistinct`).
- `dropdownItem` is tested for truthiness. An empty-string field key
  therefore switches the text filter off, just as `null` does.

## Model

| member | source | states |
|---|---|---|
| `Table.TableModel.constructor` | client/src/components/Table/Table.tsx:66-69 | On mount the state is the empty search on `"name"`, no date ranges, and every label of the column map active. |
| `Table.TableModel.OnChangeInput` | client/src/components/Table/Table.tsx:93-96 | Only the search text changes, to the given value. |
| `Table.TableModel.OnChangeDropdown` | client/src/components/Table/Table.tsx:101-104 | Only the searched field changes, to the given key or `null`. |
| `Table.TableModel.OnChangeDate` | client/src/components/Table/Table.tsx:109-112 | `date[name]` becomes the given range. Every other key keeps its range and no other key appears or disappears. Nothing else in the state changes. |
| `Table.TableModel.OnToggleColumn` | client/src/components/Table/Table.tsx:117-120 | A present label loses all its occurrences. Every copy of every other label stays, in order, so the multiset is the old one with that label's count set to zero. An absent label is appended at the end. Nothing else changes. |
| `Table.TableModel.ResetFilters` | client/src/components/Table/Table.tsx:81-86 | All four state variables are back to their mount values. The configuration cannot change, and the class does not hold the rows or the sort state. |
| `Table.FilterDataIsSubsequence` | client/src/components/Table/Table.tsx:130-131 | `filterData` returns a subsequence of the sorted rows: nothing is added and nothing is reordered. |
| `Table.FilterDataMembership` | client/src/components/Table/Table.tsx:131-156 | A row survives if and only if it is a sorted row, passes the text predicate, and every key of `date` accepts its time. |
| `Table.FilterDataConcat` | client/src/components/Table/Table.tsx:131 | Filtering distributes over concatenation, so survivors keep their relative sorted order. |
| `Table.FilterDataKeepsAllWithoutFilters` | client/src/components/Table/Table.tsx:132-133 | With a falsy `dropdownItem` and no date range, every sorted row is kept, in order. |
| `Table.TextMatchesIsInfix` | client/src/components/Table/Table.tsx:132 | With a truthy field key, a row passes if and only if its value is a string whose trimmed, lower-cased form contains the trimmed, lower-cased search at some position. |
| `Table.MissingSearchFieldDropsRow` | client/src/components/Table/Table.tsx:132 | A row lacking the searched field is dropped, whatever the search text and the date ranges. |
| `Table.BlankSearchKeepsRowsWithField` | client/src/components/Table/Table.tsx:132 | If the search trims to nothing, exactly the rows that have a string at the searched field pass. |
| `Table.TextMatchesIgnoresSearchCase` | client/src/components/Table/Table.tsx:132 | Lower-casing the search text never changes the text verdict. |
| `Table.TextMatchesIgnoresValueCase` | client/src/components/Table/Table.tsx:132 | Two rows whose values at the searched field differ only by lower-casing get the same text verdict. |
| `Table.DateMatchesIsOpenInterval` | client/src/components/Table/Table.tsx:134-153 | The four-branch check equals membership in the open interval between the bounds that are present. An empty bound string is an absent bound. |
| `Table.DateMatchesCases` | client/src/components/Table/Table.tsx:141-153 | No bounds: kept. Only `from`: kept if and only if `from < time`. Only `to`: kept if and only if `time < to`. Both: kept if and only if `from < time < to`. |
| `Table.DateEndpointsExcluded` | client/src/components/Table/Table.tsx:146-153 | A time equal to either bound is excluded. |
| `Table.NaNFailsBoundedRange` | client/src/components/Table/Table.tsx:136-153 | A NaN time, or a bound that parses to NaN, fails every range that has a bound. |
| `Table.MissingDateFieldDropsRow` | client/src/components/Table/Table.tsx:133-155 | If `SecondsToMs(undefined)` is NaN, a row lacking a field that has a bounded range is dropped. |
| `Table.OpenIntervalExample` | client/src/components/Table/Table.tsx:153 | With `from` 100 and `to` 300, the times 100 and 300 are excluded and 200 is included. |
| `Table.FilterDataSingle` | client/src/components/Table/Table.tsx:131 | A one-row input survives if and only if that row passes the row filter. |
| `Table.FilterDataDropDropKeep` | client/src/components/Table/Table.tsx:131 | Of three rows where only the last passes, the filter returns exactly that last row. |
| `Table.ExampleFirstRowDropped` | client/src/components/Table/Table.tsx:132-146 | Searching `"a"` in `name` with an `iat` range starting at 150: the row `{name: "a", iat: 100}` matches the search but is dropped, because 100 is not after 150. |
| `Table.ExampleSecondRowDropped` | client/src/components/Table/Table.tsx:132 | With the same filter, `{name: "b", iat: 200}` is dropped because `"b"` does not include `"a"`, whatever its date. |
| `Table.ExampleThirdRowKept` | client/src/components/Table/Table.tsx:132-146 | With the same filter, `{name: "ab", iat: 300}` passes both the search and the range. |
| `Table.FilterAndCompositionExample` | client/src/components/Table/Table.tsx:130-157 | Search and date range compose by AND: of the three rows above, in that order, `filterData` returns only `{name: "ab", iat: 300}`. |
| `Table.TextMatchesField` | client/src/components/Table/Table.tsx:132 | With a truthy field key and a string value at it, the text verdict is `includes` on the trimmed, lower-cased value and search. |
| `Table.TextMatchesLowerWords` | client/src/components/Table/Table.tsx:132 | When the value and the search are lower-case ASCII letters only, the text verdict is plain `includes` on them. |
| `Table.NormalizeLowerWord` | client/src/components/Table/Table.tsx:132 | A word of lower-case ASCII letters is unchanged by `trim().toLowerCase()`. |
| `Table.TrimWithoutWhiteSpace` | client/src/components/Table/Table.tsx:132 | A string without white space is unchanged by `trim()`. |
| `Table.Normalize` | client/src/components/Table/Table.tsx:132 | `trim().toLowerCase()`. Stated by `Js.TrimLowerIgnoresCase`, `Table.NormalizeLowerWord` and `Table.TextMatchesIsInfix`. |
| `Table.TextOf` | client/src/components/Table/Table.tsx:132 | `item[dropdownItem]` when it is a string, otherwise absent. Stated by `Table.BlankSearchKeepsRowsWithField` (the rows whose field holds a string) and `Table.TextMatchesIsInfix`. |
| `Js.Less` | client/src/components/Table/Table.tsx:146-153 | `<` on numbers, false whenever either side is NaN. Stated by `Table.NaNFailsBoundedRange`, `Table.DateEndpointsExcluded` and `Table.DateMatchesCases`. |
| `Js.Field` | client/src/components/Table/Table.tsx:139 | `item[key]`, absent (`undefined`) for a missing key. Stated by `Table.MissingDateFieldDropsRow`. |
| `Js.Get` | client/src/components/Table/Table.tsx:126 | `columnMapNames[key]`, `undefined` for a key not in the map. Stated by `Table.SearchByItems`, `Table.DateRangeItems` and `TableDefaults.ConsistentConfigLabelsItems`. |
| `Js.Values` | client/src/components/Table/Table.tsx:69 | `Object.values`: one value per key, in key order, each the value stored under that key. Also used at lines 85 and 189. |
| `Seqs.Filter` | client/src/components/Table/Table.tsx:131 | `Array.prototype.filter`: at most as many elements as the input, each one kept by the predicate. Also used at lines 118 and 161. |
| `Seqs.FilterMembership` | client/src/components/Table/Table.tsx:131 | An element is in the result if and only if it is in the input and the predicate keeps it. |
| `Seqs.FilterIsSubsequence` | client/src/components/Table/Table.tsx:131 | The result is a subsequence of the input: nothing is added or reordered. |
| `Seqs.FilterConcat` | client/src/components/Table/Table.tsx:131 | Filtering a concatenation is the concatenation of the filtered parts. |
| `Seqs.FilterRemovesAllCopies` | client/src/components/Table/Table.tsx:118 | Filtering with `k !== key` removes every copy of `key` and keeps every copy of everything else, as a multiset. |
| `Seqs.FilterKeepsAll` | client/src/components/Table/Table.tsx:131 | When the predicate keeps every element, the result is the input. |
| `Seqs.FilterCongruent` | client/src/components/Table/Table.tsx:161 | Two predicates that agree on every element give the same result. |
| `Seqs.FilterNoDups` | client/src/components/Table/Table.tsx:118 | Filtering a list without repeats gives a list without repeats. |
| `Id.IdAfter` | client/src/utils/id.ts:5-6 | The value of `id` after n calls: n below 2^53, then 2^53. Stated by `Id.IdsIssuedAt` and by `Id.IdGenerator.Next`, whose invariant keeps the counter equal to it. |
| `Table.InitialStateKeepsRowsWithName` | client/src/components/Table/Table.tsx:66-68 | In the mount or reset state, a row survives if and only if it has a string `name`. |
| `Table.SearchByItems` | client/src/components/Table/Table.tsx:125-128 | One item per `searchBy` key, in order. Each item pairs the key with its label, or `undefined` for a key not in the map. There are no items when `searchBy` is absent. |
| `Table.DateRangeItems` | client/src/components/Table/Table.tsx:183 | One item per `dateRange` key, in order, with its label or `undefined`. There are no items when `dateRange` is absent. |
| `Table.ToggleColumnEffect` | client/src/components/Table/Table.tsx:118 | Toggling a present label removes every copy of it. The rest form an in-order subsequence that keeps every copy of every other label, as a multiset equality. Toggling an absent label yields the old list plus that label. |
| `Table.ToggleTwiceAbsent` | client/src/components/Table/Table.tsx:118 | Toggling an absent label twice gives back the original list exactly. |
| `Table.ToggleTwiceSameLabels` | client/src/components/Table/Table.tsx:118 | Toggling any label twice leaves the same set of active labels. |
| `Table.ToggleColumnNoDups` | client/src/components/Table/Table.tsx:118 | Toggling never makes a label active twice. |
| `Table.ColumnsMembership` | client/src/components/Table/Table.tsx:161 | A key is a visible column if and only if it is a key of the column map and its label is active. |
| `Table.ColumnsInKeyOrder` | client/src/components/Table/Table.tsx:161 | The visible columns follow the column map's key order and repeat no key. |
| `Table.ColumnsIgnoreActiveOrder` | client/src/components/Table/Table.tsx:161 | The visible columns depend only on which labels are active, not on their order or repetition. |
| `Table.ColumnsToggleRoundTrip` | client/src/components/Table/Table.tsx:118-161 | Toggling a label twice restores the visible columns and their order. |
| `Table.InitialColumnsAreAllKeys` | client/src/components/Table/Table.tsx:69-161 | With every label active, as on mount, the visible columns are all keys, in map order. |
| `Table.GridMatchesColumns` | client/src/components/Table/Table.tsx:198 | Assume distinct labels, no repeated active label, and only labels of the map active. Then the flexible tracks plus the one `auto` track equal the number of header cells rendered. |
| `Table.GridMatchesAfterToggles` | client/src/components/Table/Table.tsx:187-198 | Assume the map's labels are distinct. Start from the mount or reset state and toggle any run of labels the column toggler offers. Then the flexible tracks plus the `auto` track equal the number of header cells. |
| `Table.ToggleKeepsActiveLabelsOfMap` | client/src/components/Table/Table.tsx:118 | Toggling a label of the map keeps the active labels distinct and all labels of the map. |
| `Table.ToggleAllKeepsActiveLabelsOfMap` | client/src/components/Table/Table.tsx:118 | Any run of toggles of map labels keeps the active labels distinct and all labels of the map. |
| `Table.DefaultPropsShowNothing` | client/src/components/Table/Table.tsx:38-61 | With the default props there is no column, no search item and no date-range item. The grid template asks for -1 flexible tracks. |
| `Table.InitialTableConfig` | client/src/components/Table/Table.tsx:38-41 | The default `tableConfig`: an empty column map and no column types. Stated by `Table.DefaultPropsShowNothing`. |
| `Table.EmptyFiltersConfig` | client/src/components/Table/Table.tsx:61 | The default `filtersConfig`, `{}`: no search fields, no date fields, no toggler flag. Stated by `Table.DefaultPropsShowNothing`. |
| `Table.RepeatedLabelsBreakGrid` | client/src/components/Table/Table.tsx:118-198 | For the map `{a: "L", b: "L"}`, the mount state activates `"L"` twice. Toggling `"L"` off and on leaves it active once. The grid then has one track, but both keys are visible columns, so the header has two cells. |
| `Table.InitialState` | client/src/components/Table/Table.tsx:66-69 | The mount state, which `resetFilters` (lines 81-86) restores. Its contract is stated by `Table.TableModel.constructor`, `Table.TableModel.ResetFilters`, `Table.InitialColumnsAreAllKeys` and `Table.InitialStateKeepsRowsWithName`. |
| `Table.FilterData` | client/src/components/Table/Table.tsx:130-157 | No more rows than the input, and each one passes the row filter. Membership, order and concatenation are stated by `Table.FilterDataMembership`, `Table.FilterDataIsSubsequence` and `Table.FilterDataConcat`. |
| `Table.RowPasses` | client/src/components/Table/Table.tsx:131-155 | The text predicate and every date range of `date`. Stated as an if-and-only-if by `Table.FilterDataMembership`. |
| `Table.TextMatches` | client/src/components/Table/Table.tsx:132 | The search predicate. Its meaning is stated by `Table.TextMatchesIsInfix`, `Table.MissingSearchFieldDropsRow` and `Table.BlankSearchKeepsRowsWithField`. |
| `Table.Bound` | client/src/components/Table/Table.tsx:136-137 | An empty bound string is no bound; any other string is parsed. Used by `Table.DateMatchesCases`, which states each case. |
| `Table.DateMatches` | client/src/components/Table/Table.tsx:141-153 | The four-branch date check. `Table.DateMatchesIsOpenInterval` proves it equal to the open interval. |
| `Table.Columns` | client/src/components/Table/Table.tsx:161 | At most as many keys as the map. Each key is a map key whose label is active. Order and exact membership are stated by `Table.ColumnsInKeyOrder` and `Table.ColumnsMembership`. |
| `Table.ToggleColumn` | client/src/components/Table/Table.tsx:118 | The toggled label is active afterwards if and only if it was not active before. The full effect is stated by `Table.ToggleColumnEffect`. |
| `Table.FlexibleTracks` | client/src/components/Table/Table.tsx:198 | The `1fr` count of the grid template. `Table.GridMatchesColumns` and `Table.GridMatchesAfterToggles` relate it to the visible columns. |
| `Js.Trim` | client/src/components/Table/Table.tsx:132 | `trim` returns a contiguous piece of its input with only white space around it and none at either end. |
| `Js.TrimStart` | client/src/components/Table/Table.tsx:132 | The longest suffix not starting with white space; everything dropped is white space. |
| `Js.TrimEnd` | client/src/components/Table/Table.tsx:132 | The longest prefix not ending with white space; everything dropped is white space. |
| `Js.ToLower` | client/src/components/Table/Table.tsx:132 | The result has the same length and no upper-case ASCII letter. Each character is kept or replaced by its lower-case letter. |
| `Js.IncludesIsInfix` | client/src/components/Table/Table.tsx:132 | `includes` holds if and only if the needle occurs at some position of the string. |
| `Js.Includes` | client/src/components/Table/Table.tsx:132 | `String.prototype.includes`, tried position by position. `Js.IncludesIsInfix` proves it equal to "occurs at some position". |
| `Js.TrimLowerIgnoresCase` | client/src/components/Table/Table.tsx:132 | `trim` then `toLowerCase` gives the same result whether or not the input was lower-cased first. |
| `TableDefaults.DefaultHeaderMap` | client/src/utils/views/tables.ts:4-10 | The header map, key to label, in declaration order. Stated by `TableDefaults.HeaderMapAndTypesSameKeys`, `TableDefaults.DefaultLabels` and `TableDefaults.DefaultLabelsDistinct`. |
| `TableDefaults.DefaultColumnDataTypes` | client/src/utils/views/tables.ts:12-18 | The column types, key to type. Stated by `TableDefaults.HeaderMapAndTypesSameKeys`, `TableDefaults.FilterFieldsTyped` and `TableDefaults.ActionsColumnIsLast`. |
| `TableDefaults.DefaultTableConfig` | client/src/utils/views/tables.ts:20-23 | The two objects above. Stated by `TableDefaults.DefaultsConsistent`. |
| `TableDefaults.DefaultFiltersConfig` | client/src/utils/views/tables.ts:25-29 | The search fields `name`, `sub` and `iss`, the date field `iat`, and the toggler switched on. Stated by `TableDefaults.FilterFieldsTyped` and `TableDefaults.DefaultSearchFieldOffered`. |
| `TableDefaults.DefaultLabels` | client/src/utils/views/tables.ts:4-10 | The labels in key order are Name, Issuer ID, Subject, Issued and the empty label. |
| `TableDefaults.HeaderMapAndTypesSameKeys` | client/src/utils/views/tables.ts:4-18 | The header map and the column types have the same keys, `name`, `iss`, `sub`, `iat` and `""`, in the same order. |
| `TableDefaults.FilterFieldsTyped` | client/src/utils/views/tables.ts:12-29 | Each search field (`name`, `sub`, `iss`) is a header-map key typed TEXT. The only date-range field, `iat`, is typed NUMBER. |
| `TableDefaults.ActionsColumnIsLast` | client/src/utils/views/tables.ts:9-17 | `""` is the only NONE column and is last in header order. |
| `TableDefaults.DefaultsConsistent` | client/src/utils/views/tables.ts:20-29 | The default table configuration uses exactly the default header map and column types. Together with the default filter configuration, it is consistent. |
| `TableDefaults.ConsistentConfigLabelsItems` | client/src/components/Table/Table.tsx:125-183 | Under a consistent configuration, every search item and every date-range item has a label. |
| `TableDefaults.DefaultSearchFieldOffered` | client/src/utils/views/tables.ts:26 | The table's default search field `"name"` is one of the offered search fields. The dropdown offers Name, Subject and Issuer ID, in that order. |
| `TableDefaults.DefaultLabelsDistinct` | client/src/utils/views/tables.ts:4-10 | The five display labels are distinct. |
| `TableDefaults.DefaultTableOnMount` | client/src/utils/views/tables.ts:4-10 | On mount the default table shows its five columns in header order. Its four flexible tracks plus the `auto` track match them, and the `auto` track falls on the unlabeled actions column. |
| `Id.IdsIssuedAt` | client/src/utils/id.ts:4-7 | The i-th call hands out i + 1, so the first id is 1. This holds up to the call that reaches 2^53; every later call hands out 2^53. |
| `Id.IdsIssuedIncreasing` | client/src/utils/id.ts:6 | The ids handed out are positive and never decrease. Up to the call that reaches 2^53 they strictly increase, so none of them repeats. |
| `Id.IdGenerator.constructor` | client/src/utils/id.ts:4-5 | The counter starts at 0 with nothing handed out. |
| `Id.IdGenerator.Next` | client/src/utils/id.ts:6-19 | Each call yields `++id` and records it. Below 2^53 that is the previous counter plus 1, larger than every earlier id. At 2^53 the counter stays put and the id repeats. The value is always positive and at least every earlier id. A value is always produced. |
| `Id.FirstIds` | client/src/utils/id.ts:14-19 | The first three calls return 1, 2 and 3. |
| `Id.PlusOne` | client/src/utils/id.ts:6 | `++id` on the counter as a double. The result is positive and at most 2^53. It differs from `id` if and only if `id` is below 2^53. |
| `Id.IdRepeatsAtLimit` | client/src/utils/id.ts:6 | The call after the counter reaches 2^53 hands out 2^53 again. |
| `Id.IdsIssued` | client/src/utils/id.ts:5-6 | The ids handed out by the first n calls. Stated by `Id.IdsIssuedAt` and `Id.IdsIssuedIncreasing`. |

## Left out

- The sort hook (`changeSort`, `sortTypeOf`, `sortOrderOf`, `isSortable`). Its source is not part of this model, so the sorted rows are an arbitrary input sequence.
- `SecondsToMs`. Its source is not part of this model, so it is a parameter with no assumed property.
- `new Date(str)`. This locale-dependent parsing is a parameter returning a millisecond number or NaN. Numbers are whole; fractional milliseconds and infinities are not modelled.
- `Js.ToLower`: only the ASCII letters A–Z are lower-cased. JavaScript's `toLowerCase` applies the full Unicode case mapping.
- `Js.Trim`: the Unicode space separators are the fixed list of Unicode 15. A future Unicode version could add to it.
- A row value that is a number at the searched field makes `.trim()` throw a TypeError in the source. The model treats it like an absent field and drops the row. Booleans, `null` and nested objects as row values are not modelled.
- The column map is a well-formed object: distinct keys in insertion order. JavaScript's reordering of integer-like keys is not modelled; none of the configured keys is integer-like.
- The table configuration is fixed for the life of a `TableModel`. A re-render with a different `tableConfig` prop is not modelled.
- `Id.IdGenerator.Next`: the counter is a double, so from 2^53 on it stops growing and the id repeats. The model states this (`Id.IdRepeatsAtLimit`). Uniqueness is promised only below 2^53, a count of calls no page reaches.
- `getId` is a module-level singleton in the source. Here it is the `Next` method of an explicit `IdGenerator` object, because Dafny has no module-level mutable state. The per-cell keys that `getId` provides for rendering are left out.
- React rendering (`Head`, `Cell`, the loading skeletons, the CSS strings), `useCallback`/`useMemo` memoisation, `classNames`, and the `AppContext` dark flag. These are presentation only.
- `Input.tsx`, `SearchInput.tsx`, `Select.tsx`, `JWTModal.tsx`, `SecretModal.tsx`, `ButtonSourceCode.tsx` and `index.tsx`. These are presentation and wiring with no filtering logic.
