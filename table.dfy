/** The filter and column-projection engine of the table component: its
    filter state and the setters that replace it, the rows that survive the
    text and date-range filters, the visible column keys, the search-field
    and date-range items offered to the filter bar, and the grid geometry. */
module Table {
  import opened Js
  import opened Seqs

  /** The column kinds of the sort hook's `columns` enumeration. */
  datatype ColumnType = TEXT | NUMBER | NONE

  /** `TableConfigType`: per field key its column type and its display label. */
  datatype TableConfig = TableConfig(columnTypes: JsObject<ColumnType>, columnMapNames: JsObject<string>)

  /** `FiltersConfigType`: every member may be absent. */
  datatype FiltersConfig = FiltersConfig(
    searchBy: Option<seq<string>>,
    dateRange: Option<seq<string>>,
    columnToggler: Option<bool>)

  /** The `tableConfig` used when the caller passes none: no columns at all. */
  const InitialTableConfig: TableConfig := TableConfig(ObjectMap([], map[]), ObjectMap([], map[]))

  /** The `filtersConfig` used when the caller passes none: `{}`. */
  const EmptyFiltersConfig: FiltersConfig := FiltersConfig(None, None, None)

  /** One entry of the `date` state: the `[from, to]` strings of a date picker;
      the empty string means "no bound". */
  datatype DateRange = DateRange(from: string, to: string)

  /** The four pieces of filter state the component owns. `dropdownItem` is
      the key of the field searched (`null` is `None`). */
  datatype FilterState = FilterState(
    search: string,
    dropdownItem: Option<string>,
    date: map<string, DateRange>,
    activeColumns: seq<string>)

  /** The state on mount and after a reset: empty search on `"name"`, no date
      ranges, every label of the column map visible. */
  function InitialState(columnMapNames: JsObject<string>): FilterState {
    FilterState("", Some("name"), map[], Values(columnMapNames))
  }

  // ----- Text predicate -----

  /** The string value of `row[key]`; `None` when it is absent (or not a string). */
  function TextOf(row: Record, key: string): Option<string> {
    if key in row && row[key].Str? then Some(row[key].s) else None
  }

  /** `s.trim().toLowerCase()`. */
  function Normalize(s: string): string {
    ToLower(Trim(s))
  }

  /** The search part of the row filter. A `dropdownItem` that is `null` or the
      empty string is falsy, so the predicate holds; otherwise the row's value
      at that key must be present and, normalised, include the normalised
      search text. */
  predicate TextMatches(f: FilterState, row: Record) {
    match f.dropdownItem
    case None => true
    case Some(key) =>
      key == "" ||
      match TextOf(row, key)
      case None => false
      case Some(v) => Includes(Normalize(v), Normalize(f.search))
  }

  // ----- Date-range predicate -----

  /** A bound of a date picker: absent for the empty string, otherwise the
      millisecond time `parseDate` gives (`new Date(str).getTime()`). */
  function Bound(str: string, parseDate: string -> JsNumber): Option<JsNumber> {
    if str == "" then None else Some(parseDate(str))
  }

  /** The check one date range makes on a row's time, branch by branch. */
  predicate DateMatches(range: DateRange, time: JsNumber, parseDate: string -> JsNumber) {
    var from := Bound(range.from, parseDate);
    var to := Bound(range.to, parseDate);
    if from.None? && to.None? then true
    else if from.Some? && to.None? then Less(from.value, time)
    else if from.None? && to.Some? then Less(time, to.value)
    else Less(from.value, time) && Less(time, to.value)
  }

  /** Reference reading of a date range: the open interval between the
      bounds that are present. */
  predicate InOpenInterval(from: Option<JsNumber>, to: Option<JsNumber>, time: JsNumber) {
    (from.None? || Less(from.value, time)) && (to.None? || Less(time, to.value))
  }

  // ----- Row filter -----

  /** A row survives when the text predicate holds and every date range in
      the state accepts the row's time at that key. `secondsToMs` stands for
      `SecondsToMs(row[key])`. */
  predicate RowPasses(f: FilterState, row: Record, parseDate: string -> JsNumber,
                      secondsToMs: Option<Value> -> JsNumber) {
    TextMatches(f, row) &&
    forall key | key in f.date :: DateMatches(f.date[key], secondsToMs(Field(row, key)), parseDate)
  }

  /** `filterData()`: the sorted rows that survive, in their sorted order. */
  function FilterData(f: FilterState, sortData: seq<Record>, parseDate: string -> JsNumber,
                      secondsToMs: Option<Value> -> JsNumber): (r: seq<Record>)
    ensures |r| <= |sortData|
    ensures forall i :: 0 <= i < |r| ==> RowPasses(f, r[i], parseDate, secondsToMs)
  {
    Filter(sortData, row => RowPasses(f, row, parseDate, secondsToMs))
  }

  // ----- Column projection -----

  /** `columns`: the keys of the column map whose label is active, in key order. */
  function Columns(columnMapNames: JsObject<string>, activeColumns: seq<string>): (r: seq<string>)
    ensures |r| <= |columnMapNames.keys|
    ensures forall i :: 0 <= i < |r| ==> r[i] in columnMapNames.entries && columnMapNames.entries[r[i]] in activeColumns
  {
    Filter(columnMapNames.keys, k => k in columnMapNames.entries && columnMapNames.entries[k] in activeColumns)
  }

  /** `onToggleColumn`'s update: drop every occurrence of a present label,
      append an absent one. */
  function ToggleColumn(prev: seq<string>, key: string): (r: seq<string>)
    ensures key in r <==> key !in prev
  {
    if key in prev then Filter(prev, k => k != key) else prev + [key]
  }

  /** The `1fr` tracks of `repeat(activeColumns.length - 1, 1fr) auto`; the one
      `auto` track after them is fixed. */
  function FlexibleTracks(activeColumns: seq<string>): int {
    |activeColumns| - 1
  }

  // ----- Items offered to the filter bar -----

  /** An entry of the search-field dropdown: a key and its label (`None` when
      the key is not in the column map). */
  datatype SearchItem = SearchItem(id: string, value: Option<string>)

  /** `searchByItems`: one item per `searchBy` key, in order; none when
      `searchBy` is absent. */
  function SearchByItems(filtersConfig: FiltersConfig, columnMapNames: JsObject<string>): (r: seq<SearchItem>)
    ensures filtersConfig.searchBy.None? ==> r == []
    ensures filtersConfig.searchBy.Some? ==>
      |r| == |filtersConfig.searchBy.value| &&
      forall i :: 0 <= i < |r| ==>
        r[i].id == filtersConfig.searchBy.value[i] && r[i].value == Get(columnMapNames, r[i].id)
  {
    match filtersConfig.searchBy
    case None => []
    case Some(keys) => seq(|keys|, i requires 0 <= i < |keys| => SearchItem(keys[i], Get(columnMapNames, keys[i])))
  }

  /** An entry of the date-range controls: a key and its label. */
  datatype DateRangeItem = DateRangeItem(key: string, name: Option<string>)

  /** The date-range items: one per `dateRange` key, in order; none when
      `dateRange` is absent. */
  function DateRangeItems(filtersConfig: FiltersConfig, columnMapNames: JsObject<string>): (r: seq<DateRangeItem>)
    ensures filtersConfig.dateRange.None? ==> r == []
    ensures filtersConfig.dateRange.Some? ==>
      |r| == |filtersConfig.dateRange.value| &&
      forall i :: 0 <= i < |r| ==>
        r[i].key == filtersConfig.dateRange.value[i] && r[i].name == Get(columnMapNames, r[i].key)
  {
    match filtersConfig.dateRange
    case None => []
    case Some(keys) => seq(|keys|, i requires 0 <= i < |keys| => DateRangeItem(keys[i], Get(columnMapNames, keys[i])))
  }

  // ----- Properties of the row filter -----

  /** `filterData` places no row that is not in `sortData` and reorders
      nothing: its result is a subsequence of the sorted rows. */
  lemma FilterDataIsSubsequence(f: FilterState, sortData: seq<Record>, parseDate: string -> JsNumber,
                                secondsToMs: Option<Value> -> JsNumber)
    ensures IsSubsequence(FilterData(f, sortData, parseDate, secondsToMs), sortData)
  {
    FilterIsSubsequence(sortData, row => RowPasses(f, row, parseDate, secondsToMs));
  }

  /** A row is in the result exactly when it is a sorted row that passes
      both the text predicate and every date range. */
  lemma FilterDataMembership(f: FilterState, sortData: seq<Record>, parseDate: string -> JsNumber,
                             secondsToMs: Option<Value> -> JsNumber, row: Record)
    ensures row in FilterData(f, sortData, parseDate, secondsToMs) <==>
      row in sortData && TextMatches(f, row) &&
      forall key | key in f.date :: DateMatches(f.date[key], secondsToMs(Field(row, key)), parseDate)
  {
    FilterMembership(sortData, r => RowPasses(f, r, parseDate, secondsToMs), row);
  }

  /** Filtering splits over concatenation: the surviving rows of the first
      part all come before those of the second part. */
  lemma FilterDataConcat(f: FilterState, a: seq<Record>, b: seq<Record>, parseDate: string -> JsNumber,
                         secondsToMs: Option<Value> -> JsNumber)
    ensures FilterData(f, a + b, parseDate, secondsToMs) ==
            FilterData(f, a, parseDate, secondsToMs) + FilterData(f, b, parseDate, secondsToMs)
  {
    FilterConcat(a, b, row => RowPasses(f, row, parseDate, secondsToMs));
  }

  /** Without a date range and with a falsy `dropdownItem` nothing is filtered. */
  lemma FilterDataKeepsAllWithoutFilters(f: FilterState, sortData: seq<Record>, parseDate: string -> JsNumber,
                                         secondsToMs: Option<Value> -> JsNumber)
    requires f.dropdownItem == None || f.dropdownItem == Some("")
    requires f.date == map[]
    ensures FilterData(f, sortData, parseDate, secondsToMs) == sortData
  {
    FilterKeepsAll(sortData, row => RowPasses(f, row, parseDate, secondsToMs));
  }

  // ----- Properties of the text predicate -----

  /** With a truthy `dropdownItem` a row passes the text predicate exactly
      when its value there is a string whose normalised form contains the
      normalised search text somewhere. */
  lemma TextMatchesIsInfix(f: FilterState, row: Record)
    requires f.dropdownItem.Some? && f.dropdownItem.value != ""
    ensures TextMatches(f, row) <==>
      TextOf(row, f.dropdownItem.value).Some? &&
      IsInfix(Normalize(TextOf(row, f.dropdownItem.value).value), Normalize(f.search))
  {
    var t := TextOf(row, f.dropdownItem.value);
    if t.Some? {
      IncludesIsInfix(Normalize(t.value), Normalize(f.search));
    }
  }

  /** A row lacking the searched field is dropped, whatever the search text
      and the date ranges. */
  lemma MissingSearchFieldDropsRow(f: FilterState, row: Record, parseDate: string -> JsNumber,
                                   secondsToMs: Option<Value> -> JsNumber)
    requires f.dropdownItem.Some? && f.dropdownItem.value != ""
    requires f.dropdownItem.value !in row
    ensures !RowPasses(f, row, parseDate, secondsToMs)
  {
  }

  /** A search text that trims to nothing keeps exactly the rows that have
      a string at the searched field. */
  lemma BlankSearchKeepsRowsWithField(f: FilterState, row: Record)
    requires f.dropdownItem.Some? && f.dropdownItem.value != ""
    requires Trim(f.search) == ""
    ensures TextMatches(f, row) <==> TextOf(row, f.dropdownItem.value).Some?
  {
    var t := TextOf(row, f.dropdownItem.value);
    if t.Some? {
      IncludesEmpty(Normalize(t.value));
    }
  }

  /** The search ignores the ASCII case of the search text: lower-casing it
      changes no verdict. */
  lemma TextMatchesIgnoresSearchCase(f: FilterState, row: Record)
    ensures TextMatches(f.(search := ToLower(f.search)), row) == TextMatches(f, row)
  {
    TrimLowerIgnoresCase(f.search);
  }

  /** The search ignores the ASCII case of the row's value: two rows whose
      values at the searched field differ only by lower-casing get the same
      verdict. */
  lemma TextMatchesIgnoresValueCase(f: FilterState, lowered: Record, row: Record, v: string)
    requires f.dropdownItem.Some?
    requires TextOf(lowered, f.dropdownItem.value) == Some(ToLower(v))
    requires TextOf(row, f.dropdownItem.value) == Some(v)
    ensures TextMatches(f, lowered) == TextMatches(f, row)
  {
    TrimLowerIgnoresCase(v);
  }

  // ----- Properties of the date predicate -----

  /** The branch-by-branch check is the open interval between the bounds
      that are present; with no bound every time passes. */
  lemma DateMatchesIsOpenInterval(range: DateRange, time: JsNumber, parseDate: string -> JsNumber)
    ensures DateMatches(range, time, parseDate) <==>
      InOpenInterval(Bound(range.from, parseDate), Bound(range.to, parseDate), time)
  {
  }

  /** Both endpoints are excluded: a time equal to a bound never passes. */
  lemma DateEndpointsExcluded(range: DateRange, time: JsNumber, parseDate: string -> JsNumber)
    requires Bound(range.from, parseDate) == Some(time) || Bound(range.to, parseDate) == Some(time)
    ensures !DateMatches(range, time, parseDate)
  {
  }

  /** The three single-bound and double-bound cases, each an if-and-only-if. */
  lemma DateMatchesCases(range: DateRange, t: int, parseDate: string -> JsNumber)
    ensures range.from == "" && range.to == "" ==> DateMatches(range, Finite(t), parseDate)
    ensures range.from != "" && range.to == "" ==>
      (DateMatches(range, Finite(t), parseDate) <==>
       parseDate(range.from).Finite? && parseDate(range.from).n < t)
    ensures range.from == "" && range.to != "" ==>
      (DateMatches(range, Finite(t), parseDate) <==>
       parseDate(range.to).Finite? && t < parseDate(range.to).n)
    ensures range.from != "" && range.to != "" ==>
      (DateMatches(range, Finite(t), parseDate) <==>
       parseDate(range.from).Finite? && parseDate(range.to).Finite? &&
       parseDate(range.from).n < t < parseDate(range.to).n)
  {
  }

  /** A time that is NaN (for instance `SecondsToMs` of an absent field) fails
      every range that has a bound, and so does any time against a bound
      that parsed to NaN (an invalid date). */
  lemma NaNFailsBoundedRange(range: DateRange, time: JsNumber, parseDate: string -> JsNumber)
    requires range.from != "" || range.to != ""
    requires time == NaN ||
             (range.from != "" && parseDate(range.from) == NaN) ||
             (range.to != "" && parseDate(range.to) == NaN)
    ensures !DateMatches(range, time, parseDate)
  {
  }

  /** A row lacking a field that carries a bounded range is dropped, when
      the time of an absent field is NaN. */
  lemma MissingDateFieldDropsRow(f: FilterState, row: Record, key: string, parseDate: string -> JsNumber,
                                 secondsToMs: Option<Value> -> JsNumber)
    requires key in f.date && (f.date[key].from != "" || f.date[key].to != "")
    requires key !in row && secondsToMs(None) == NaN
    ensures !RowPasses(f, row, parseDate, secondsToMs)
  {
    NaNFailsBoundedRange(f.date[key], secondsToMs(Field(row, key)), parseDate);
  }

  /** With `from = 100` and `to = 300` the times 100 and 300 are excluded
      and 200 is included. */
  lemma OpenIntervalExample(parseDate: string -> JsNumber)
    requires parseDate("100") == Finite(100) && parseDate("300") == Finite(300)
    ensures !DateMatches(DateRange("100", "300"), Finite(100), parseDate)
    ensures !DateMatches(DateRange("100", "300"), Finite(300), parseDate)
    ensures DateMatches(DateRange("100", "300"), Finite(200), parseDate)
  {
  }

  /** A string with no white space in it is its own `trim`. */
  lemma TrimWithoutWhiteSpace(s: string)
    requires forall i :: 0 <= i < |s| ==> !IsWhiteSpace(s[i])
    ensures Trim(s) == s
  {
    var r := Trim(s);
    var start :| TrimmedPiece(s, r, start);
    assert |s| == 0 || !IsWhiteSpace(s[0]);
    assert start == 0;
    assert |s| == 0 || !IsWhiteSpace(s[|s| - 1]);
    assert start + |r| == |s|;
    assert s[0..|s|] == s;
  }

  /** A word of lower-case ASCII letters is its own normal form. */
  lemma NormalizeLowerWord(s: string)
    requires forall i :: 0 <= i < |s| ==> 'a' <= s[i] <= 'z'
    ensures Normalize(s) == s
  {
    forall i | 0 <= i < |s| ensures !IsWhiteSpace(s[i]) {
      assert s[i] !in WhiteSpace;
    }
    TrimWithoutWhiteSpace(s);
    assert ToLower(s) == s;
  }

  /** When a search field is chosen and the row holds a string there, the
      text verdict is `includes` on the normal forms. */
  lemma TextMatchesField(f: FilterState, row: Record, v: string)
    requires f.dropdownItem.Some? && f.dropdownItem.value != ""
    requires TextOf(row, f.dropdownItem.value) == Some(v)
    ensures TextMatches(f, row) == Includes(Normalize(v), Normalize(f.search))
  {
  }

  /** For a value and a search made of lower-case ASCII letters, the text
      verdict is plain `includes`. */
  lemma TextMatchesLowerWords(f: FilterState, row: Record, v: string)
    requires f.dropdownItem.Some? && f.dropdownItem.value != ""
    requires TextOf(row, f.dropdownItem.value) == Some(v)
    requires forall i :: 0 <= i < |v| ==> 'a' <= v[i] <= 'z'
    requires forall i :: 0 <= i < |f.search| ==> 'a' <= f.search[i] <= 'z'
    ensures TextMatches(f, row) == Includes(v, f.search)
  {
    NormalizeLowerWord(v);
    NormalizeLowerWord(f.search);
    var nv, ns := Normalize(v), Normalize(f.search);
    assert nv == v && ns == f.search;
    TextMatchesField(f, row, v);
  }

  /** `"a"` and `"ab"` include `"a"`; `"b"` does not. */
  lemma ExampleIncludes()
    ensures Includes("a", "a") && Includes("ab", "a") && !Includes("b", "a")
  {
    assert "a"[0] != "b"[0];
  }

  /** A single row survives exactly when it passes the row filter. */
  lemma FilterDataSingle(f: FilterState, row: Record, parseDate: string -> JsNumber,
                         secondsToMs: Option<Value> -> JsNumber)
    ensures FilterData(f, [row], parseDate, secondsToMs) ==
            if RowPasses(f, row, parseDate, secondsToMs) then [row] else []
  {
    assert [row][1..] == [];
  }

  /** Of three rows, the filter keeps exactly the one that passes. */
  lemma FilterDataDropDropKeep(f: FilterState, r1: Record, r2: Record, r3: Record,
                               parseDate: string -> JsNumber, secondsToMs: Option<Value> -> JsNumber)
    requires !RowPasses(f, r1, parseDate, secondsToMs) && !RowPasses(f, r2, parseDate, secondsToMs)
    requires RowPasses(f, r3, parseDate, secondsToMs)
    ensures FilterData(f, [r1, r2, r3], parseDate, secondsToMs) == [r3]
  {
    var keep := row => RowPasses(f, row, parseDate, secondsToMs);
    var rows := [r1, r2, r3];
    assert rows[1..] == [r2, r3] && [r2, r3][1..] == [r3] && [r3][1..] == [];
    assert Filter([r3], keep) == [r3];
    assert Filter([r2, r3], keep) == [r3];
    assert Filter(rows, keep) == [r3];
  }

  /** A row of the worked example below: `{name, iat}` with a string name and
      a numeric `iat`. */
  predicate ExampleRow(row: Record, name: string, iat: int) {
    "name" in row && row["name"] == Str(name) && "iat" in row && row["iat"] == Num(iat)
  }

  /** The filter state of the worked example: search `"a"` in `name`, and an
      `iat` range that starts at 150 and has no end. */
  predicate ExampleState(f: FilterState) {
    f.search == "a" && f.dropdownItem == Some("name") && f.date == map["iat" := DateRange("150", "")]
  }

  /** `{name: "a", iat: 100}` matches the search but lies before the range. */
  lemma ExampleFirstRowDropped(f: FilterState, row: Record, parseDate: string -> JsNumber,
                               secondsToMs: Option<Value> -> JsNumber)
    requires ExampleState(f) && ExampleRow(row, "a", 100)
    requires parseDate("150") == Finite(150)
    requires secondsToMs(Some(Num(100))) == Finite(100)
    ensures TextMatches(f, row)
    ensures !RowPasses(f, row, parseDate, secondsToMs)
  {
    ExampleIncludes();
    TextMatchesLowerWords(f, row, "a");
    assert Field(row, "iat") == Some(Num(100));
    assert !DateMatches(f.date["iat"], secondsToMs(Field(row, "iat")), parseDate);
  }

  /** `{name: "b", iat: 200}` fails the search, whatever its date. */
  lemma ExampleSecondRowDropped(f: FilterState, row: Record, parseDate: string -> JsNumber,
                                secondsToMs: Option<Value> -> JsNumber)
    requires ExampleState(f) && ExampleRow(row, "b", 200)
    ensures !RowPasses(f, row, parseDate, secondsToMs)
  {
    ExampleIncludes();
    TextMatchesLowerWords(f, row, "b");
  }

  /** `{name: "ab", iat: 300}` matches the search and lies inside the range. */
  lemma ExampleThirdRowKept(f: FilterState, row: Record, parseDate: string -> JsNumber,
                            secondsToMs: Option<Value> -> JsNumber)
    requires ExampleState(f) && ExampleRow(row, "ab", 300)
    requires parseDate("150") == Finite(150)
    requires secondsToMs(Some(Num(300))) == Finite(300)
    ensures RowPasses(f, row, parseDate, secondsToMs)
  {
    ExampleIncludes();
    TextMatchesLowerWords(f, row, "ab");
    assert Field(row, "iat") == Some(Num(300));
    assert DateMatches(f.date["iat"], secondsToMs(Field(row, "iat")), parseDate);
  }

  /** Search and date range compose by AND: of the rows `{name: "a", iat: 100}`,
      `{name: "b", iat: 200}` and `{name: "ab", iat: 300}`, searching `"a"` in
      `name` with an `iat` range starting at 150 keeps only the third. */
  lemma FilterAndCompositionExample(f: FilterState, r1: Record, r2: Record, r3: Record,
                                    parseDate: string -> JsNumber, secondsToMs: Option<Value> -> JsNumber)
    requires ExampleState(f)
    requires ExampleRow(r1, "a", 100) && ExampleRow(r2, "b", 200) && ExampleRow(r3, "ab", 300)
    requires parseDate("150") == Finite(150)
    requires secondsToMs(Some(Num(100))) == Finite(100)
    requires secondsToMs(Some(Num(300))) == Finite(300)
    ensures FilterData(f, [r1, r2, r3], parseDate, secondsToMs) == [r3]
  {
    ExampleFirstRowDropped(f, r1, parseDate, secondsToMs);
    ExampleSecondRowDropped(f, r2, parseDate, secondsToMs);
    ExampleThirdRowKept(f, r3, parseDate, secondsToMs);
    FilterDataDropDropKeep(f, r1, r2, r3, parseDate, secondsToMs);
  }

  /** After mount or reset, the filter keeps exactly the rows that have a
      string `name`: the search is empty but still scoped to `"name"`. */
  lemma InitialStateKeepsRowsWithName(columnMapNames: JsObject<string>, row: Record,
                                      parseDate: string -> JsNumber, secondsToMs: Option<Value> -> JsNumber)
    ensures RowPasses(InitialState(columnMapNames), row, parseDate, secondsToMs) <==> TextOf(row, "name").Some?
  {
    var f := InitialState(columnMapNames);
    assert Trim("") == "";
    BlankSearchKeepsRowsWithField(f, row);
  }

  // ----- Properties of toggling -----

  /** Toggling a present label removes every occurrence of it and keeps the
      rest in order; toggling an absent one appends it. */
  lemma ToggleColumnEffect(prev: seq<string>, key: string)
    ensures key in prev ==>
      key !in ToggleColumn(prev, key) &&
      IsSubsequence(ToggleColumn(prev, key), prev) &&
      forall x :: x in ToggleColumn(prev, key) <==> x in prev && x != key
    ensures key in prev ==> multiset(ToggleColumn(prev, key)) == multiset(prev)[key := 0]
    ensures key !in prev ==> ToggleColumn(prev, key) == prev + [key]
  {
    if key in prev {
      FilterRemovesAllCopies(prev, k => k != key, key);
      FilterIsSubsequence(prev, k => k != key);
      forall x ensures x in ToggleColumn(prev, key) <==> x in prev && x != key {
        FilterMembership(prev, k => k != key, x);
      }
    }
  }

  /** Toggling an absent label twice gives back the original list. */
  lemma ToggleTwiceAbsent(prev: seq<string>, key: string)
    requires key !in prev
    ensures ToggleColumn(ToggleColumn(prev, key), key) == prev
  {
    var once := prev + [key];
    assert key in once;
    FilterConcat(prev, [key], k => k != key);
    FilterKeepsAll(prev, k => k != key);
  }

  /** Toggling any label twice leaves the same labels active (a present
      label ends up once, at the end). */
  lemma ToggleTwiceSameLabels(prev: seq<string>, key: string)
    ensures forall x :: x in ToggleColumn(ToggleColumn(prev, key), key) <==> x in prev
  {
    if key in prev {
      ToggleColumnEffect(prev, key);
      var once := ToggleColumn(prev, key);
      ToggleColumnEffect(once, key);
    } else {
      ToggleTwiceAbsent(prev, key);
    }
  }

  /** Toggling never makes a label active twice. */
  lemma ToggleColumnNoDups(prev: seq<string>, key: string)
    requires NoDups(prev)
    ensures NoDups(ToggleColumn(prev, key))
  {
    if key in prev {
      FilterNoDups(prev, k => k != key);
    }
  }

  // ----- Properties of the column projection -----

  /** A key is a visible column exactly when it is in the column map and its
      label is active. */
  lemma ColumnsMembership(columnMapNames: JsObject<string>, activeColumns: seq<string>, k: string)
    ensures k in Columns(columnMapNames, activeColumns) <==>
      k in columnMapNames.keys && columnMapNames.entries[k] in activeColumns
  {
    FilterMembership(columnMapNames.keys,
      k => k in columnMapNames.entries && columnMapNames.entries[k] in activeColumns, k);
  }

  /** The visible columns follow the column map's key order and repeat no key. */
  lemma ColumnsInKeyOrder(columnMapNames: JsObject<string>, activeColumns: seq<string>)
    ensures IsSubsequence(Columns(columnMapNames, activeColumns), columnMapNames.keys)
    ensures NoDups(Columns(columnMapNames, activeColumns))
  {
    var keep := k => k in columnMapNames.entries && columnMapNames.entries[k] in activeColumns;
    FilterIsSubsequence(columnMapNames.keys, keep);
    FilterNoDups(columnMapNames.keys, keep);
  }

  /** The visible columns depend only on which labels are active, not on
      their order or repetition in `activeColumns`. */
  lemma ColumnsIgnoreActiveOrder(columnMapNames: JsObject<string>, a: seq<string>, b: seq<string>)
    requires forall x :: x in a <==> x in b
    ensures Columns(columnMapNames, a) == Columns(columnMapNames, b)
  {
    FilterCongruent(columnMapNames.keys,
      k => k in columnMapNames.entries && columnMapNames.entries[k] in a,
      k => k in columnMapNames.entries && columnMapNames.entries[k] in b);
  }

  /** A column toggled off and on again (or on and off) shows the same
      columns, in the same order, as before. */
  lemma ColumnsToggleRoundTrip(columnMapNames: JsObject<string>, activeColumns: seq<string>, key: string)
    ensures Columns(columnMapNames, ToggleColumn(ToggleColumn(activeColumns, key), key)) ==
            Columns(columnMapNames, activeColumns)
  {
    ToggleTwiceSameLabels(activeColumns, key);
    ColumnsIgnoreActiveOrder(columnMapNames, ToggleColumn(ToggleColumn(activeColumns, key), key), activeColumns);
  }

  /** On mount (every label active) every key of the column map is a visible
      column, in key order. */
  lemma InitialColumnsAreAllKeys(columnMapNames: JsObject<string>)
    ensures Columns(columnMapNames, InitialState(columnMapNames).activeColumns) == columnMapNames.keys
  {
    var values := Values(columnMapNames);
    forall i | 0 <= i < |columnMapNames.keys|
      ensures columnMapNames.keys[i] in columnMapNames.entries &&
              columnMapNames.entries[columnMapNames.keys[i]] in values
    {
      assert values[i] == columnMapNames.entries[columnMapNames.keys[i]];
    }
    FilterKeepsAll(columnMapNames.keys, k => k in columnMapNames.entries && columnMapNames.entries[k] in values);
  }

  /** The labels of some keys of the column map, in the keys' order. */
  function LabelsOf(columnMapNames: JsObject<string>, keys: seq<string>): (r: seq<string>)
    requires forall k | k in keys :: k in columnMapNames.entries
    ensures |r| == |keys|
  {
    seq(|keys|, i requires 0 <= i < |keys| => columnMapNames.entries[keys[i]])
  }

  /** Distinct keys of a column map with distinct labels have distinct labels. */
  lemma LabelsOfNoDups(columnMapNames: JsObject<string>, keys: seq<string>)
    requires forall k | k in keys :: k in columnMapNames.entries
    requires NoDups(keys) && NoDups(Values(columnMapNames))
    ensures NoDups(LabelsOf(columnMapNames, keys))
  {
    var labels := LabelsOf(columnMapNames, keys);
    var all, values := columnMapNames.keys, Values(columnMapNames);
    forall i, j | 0 <= i < j < |labels| ensures labels[i] != labels[j] {
      assert keys[i] in keys && keys[j] in keys;
      var p :| 0 <= p < |all| && all[p] == keys[i];
      var q :| 0 <= q < |all| && all[q] == keys[j];
      assert values[p] == labels[i] && values[q] == labels[j];
    }
  }

  /** The labels of the visible columns are exactly the active labels, when
      every active label belongs to the column map. */
  lemma ColumnLabelsAreActive(columnMapNames: JsObject<string>, activeColumns: seq<string>)
    requires forall x :: x in activeColumns ==> x in Values(columnMapNames)
    ensures forall k | k in Columns(columnMapNames, activeColumns) :: k in columnMapNames.entries
    ensures forall x :: x in LabelsOf(columnMapNames, Columns(columnMapNames, activeColumns)) <==> x in activeColumns
  {
    var cols := Columns(columnMapNames, activeColumns);
    var values, keys := Values(columnMapNames), columnMapNames.keys;
    forall k | k in cols ensures k in columnMapNames.entries && columnMapNames.entries[k] in activeColumns {
      ColumnsMembership(columnMapNames, activeColumns, k);
    }
    var labels := LabelsOf(columnMapNames, cols);
    forall j | 0 <= j < |labels| ensures labels[j] in activeColumns {
      assert cols[j] in cols;
    }
    forall x | x in activeColumns ensures x in labels {
      var p :| 0 <= p < |values| && values[p] == x;
      ColumnsMembership(columnMapNames, activeColumns, keys[p]);
      var j :| 0 <= j < |cols| && cols[j] == keys[p];
      assert labels[j] == x;
    }
  }

  /** When labels are distinct, no label is active twice and every active
      label belongs to the column map, the grid has one track per visible
      column: the flexible tracks plus the one `auto` track. */
  lemma GridMatchesColumns(columnMapNames: JsObject<string>, activeColumns: seq<string>)
    requires NoDups(Values(columnMapNames))
    requires NoDups(activeColumns)
    requires forall x :: x in activeColumns ==> x in Values(columnMapNames)
    ensures FlexibleTracks(activeColumns) + 1 == |Columns(columnMapNames, activeColumns)|
  {
    var cols := Columns(columnMapNames, activeColumns);
    ColumnsInKeyOrder(columnMapNames, activeColumns);
    ColumnLabelsAreActive(columnMapNames, activeColumns);
    LabelsOfNoDups(columnMapNames, cols);
    SameElementsSameLength(LabelsOf(columnMapNames, cols), activeColumns);
  }

  /** With the default props (no `tableConfig`, `filtersConfig` `{}`) the
      table shows no column, offers no search or date-range item, and asks
      for `repeat(-1, 1fr) auto`: a negative flexible-track count. */
  lemma DefaultPropsShowNothing()
    ensures InitialState(InitialTableConfig.columnMapNames).activeColumns == []
    ensures Columns(InitialTableConfig.columnMapNames, []) == []
    ensures FlexibleTracks(InitialState(InitialTableConfig.columnMapNames).activeColumns) == -1
    ensures SearchByItems(EmptyFiltersConfig, InitialTableConfig.columnMapNames) == []
    ensures DateRangeItems(EmptyFiltersConfig, InitialTableConfig.columnMapNames) == []
  {
  }

  /** The active labels after toggling `labels` one by one, as a run of
      `onToggleColumn` calls does. */
  function ToggleAll(activeColumns: seq<string>, labels: seq<string>): seq<string>
    decreases |labels|
  {
    if labels == [] then activeColumns else ToggleAll(ToggleColumn(activeColumns, labels[0]), labels[1..])
  }

  /** No label is active twice and every active label is a label of the map. */
  predicate ActiveLabelsOfMap(columnMapNames: JsObject<string>, activeColumns: seq<string>) {
    NoDups(activeColumns) && forall x :: x in activeColumns ==> x in Values(columnMapNames)
  }

  /** Toggling a label of the map keeps the active labels distinct labels of the map. */
  lemma ToggleKeepsActiveLabelsOfMap(columnMapNames: JsObject<string>, activeColumns: seq<string>, key: string)
    requires ActiveLabelsOfMap(columnMapNames, activeColumns)
    requires key in Values(columnMapNames)
    ensures ActiveLabelsOfMap(columnMapNames, ToggleColumn(activeColumns, key))
  {
    ToggleColumnNoDups(activeColumns, key);
    ToggleColumnEffect(activeColumns, key);
  }

  /** A run of toggles of map labels keeps the active labels distinct labels of the map. */
  lemma {:induction false} ToggleAllKeepsActiveLabelsOfMap(columnMapNames: JsObject<string>,
                                                           activeColumns: seq<string>, labels: seq<string>)
    requires ActiveLabelsOfMap(columnMapNames, activeColumns)
    requires forall x :: x in labels ==> x in Values(columnMapNames)
    ensures ActiveLabelsOfMap(columnMapNames, ToggleAll(activeColumns, labels))
    decreases |labels|
  {
    if labels != [] {
      assert labels[0] in labels;
      ToggleKeepsActiveLabelsOfMap(columnMapNames, activeColumns, labels[0]);
      forall x | x in labels[1..] ensures x in Values(columnMapNames) {
        assert x in labels;
      }
      ToggleAllKeepsActiveLabelsOfMap(columnMapNames, ToggleColumn(activeColumns, labels[0]), labels[1..]);
    }
  }

  /** With distinct labels, after mount (or reset) and any run of toggles
      of labels offered by the column toggler, the grid has one track per
      visible column: the flexible tracks plus the one `auto` track. */
  lemma GridMatchesAfterToggles(columnMapNames: JsObject<string>, labels: seq<string>)
    requires NoDups(Values(columnMapNames))
    requires forall x :: x in labels ==> x in Values(columnMapNames)
    ensures var active := ToggleAll(InitialState(columnMapNames).activeColumns, labels);
      FlexibleTracks(active) + 1 == |Columns(columnMapNames, active)|
  {
    var initial := InitialState(columnMapNames).activeColumns;
    assert ActiveLabelsOfMap(columnMapNames, initial);
    ToggleAllKeepsActiveLabelsOfMap(columnMapNames, initial, labels);
    GridMatchesColumns(columnMapNames, ToggleAll(initial, labels));
  }

  /** The grid needs distinct labels: for the map `{a: "L", b: "L"}`, toggling
      `"L"` off and on again leaves one active label, so the template has one
      track while the header still renders two cells. */
  lemma RepeatedLabelsBreakGrid(columnMapNames: JsObject<string>)
    requires columnMapNames.keys == ["a", "b"]
    requires columnMapNames.entries == map["a" := "L", "b" := "L"]
    ensures InitialState(columnMapNames).activeColumns == ["L", "L"]
    ensures ToggleAll(["L", "L"], ["L", "L"]) == ["L"]
    ensures FlexibleTracks(["L"]) + 1 == 1
    ensures Columns(columnMapNames, ["L"]) == ["a", "b"]
  {
    var values := Values(columnMapNames);
    assert values[0] == "L" && values[1] == "L";
    assert values == ["L", "L"];
    assert ToggleColumn(["L", "L"], "L") == [] by {
      assert ["L", "L"][1..] == ["L"] && ["L"][1..] == [];
    }
    assert ToggleAll([], ["L"]) == ["L"] by {
      assert ["L", "L"][1..] == ["L"] && ["L"][1..] == [];
    }
    var keep := k => k in columnMapNames.entries && columnMapNames.entries[k] in ["L"];
    assert ["a", "b"][1..] == ["b"] && ["b"][1..] == [];
    assert Filter(["b"], keep) == ["b"];
    assert Filter(["a", "b"], keep) == ["a", "b"];
  }

  // ----- The component's state -----

  /** The table's filter state. The configuration is fixed for the lifetime
      of the object; the four state variables are replaced by the setters. */
  class TableModel {
    const tableConfig: TableConfig
    const filtersConfig: FiltersConfig
    var search: string
    var dropdownItem: Option<string>
    var date: map<string, DateRange>
    var activeColumns: seq<string>

    /** The current state as a value. */
    function State(): FilterState
      reads this
    {
      FilterState(search, dropdownItem, date, activeColumns)
    }

    /** Mounting: the `useState` initial values. */
    constructor (tableConfig: TableConfig, filtersConfig: FiltersConfig)
      ensures this.tableConfig == tableConfig && this.filtersConfig == filtersConfig
      ensures State() == InitialState(tableConfig.columnMapNames)
    {
      this.tableConfig := tableConfig;
      this.filtersConfig := filtersConfig;
      search := "";
      dropdownItem := Some("name");
      date := map[];
      activeColumns := Values(tableConfig.columnMapNames);
    }

    /** `onChangeInput`: the search text becomes the input's value. */
    method OnChangeInput(value: string)
      modifies this
      ensures State() == old(State()).(search := value)
    {
      search := value;
    }

    /** `onChangeDropdown`: the searched field becomes `value`. */
    method OnChangeDropdown(value: Option<string>)
      modifies this
      ensures State() == old(State()).(dropdownItem := value)
    {
      dropdownItem := value;
    }

    /** `onChangeDate(name)(range)`: the range of `name` becomes `range`; every
      other key keeps its range, and no key is added or dropped besides `name`. */
    method OnChangeDate(name: string, range: DateRange)
      modifies this
      ensures State() == old(State()).(date := old(date)[name := range])
      ensures name in date && date[name] == range
      ensures forall k :: k != name ==> (k in date <==> k in old(date))
      ensures forall k :: k != name && k in date ==> date[k] == old(date)[k]
    {
      date := date[name := range];
    }

    /** `onToggleColumn(key)`, where `key` is a display label. */
    method OnToggleColumn(key: string)
      modifies this
      ensures State() == old(State()).(activeColumns := ToggleColumn(old(activeColumns), key))
      ensures key in old(activeColumns) ==>
        key !in activeColumns && IsSubsequence(activeColumns, old(activeColumns)) &&
        multiset(activeColumns) == multiset(old(activeColumns))[key := 0]
      ensures key !in old(activeColumns) ==> activeColumns == old(activeColumns) + [key]
    {
      activeColumns := ToggleColumn(activeColumns, key);
      if key in old(activeColumns) {
        FilterMembership(old(activeColumns), k => k != key, key);
        FilterIsSubsequence(old(activeColumns), k => k != key);
        FilterRemovesAllCopies(old(activeColumns), k => k != key, key);
      }
    }

    /** `resetFilters`: all four state variables go back to their mount values;
      the configuration (and the data, which the object does not hold) is not touched. */
    method ResetFilters()
      modifies this
      ensures State() == InitialState(tableConfig.columnMapNames)
    {
      search := "";
      dropdownItem := Some("name");
      date := map[];
      activeColumns := Values(tableConfig.columnMapNames);
    }
  }
}
