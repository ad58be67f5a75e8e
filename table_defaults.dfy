/** The default table configuration: display labels and column types of the
    token tables (`name`, `iss`, `sub`, `iat` and an unlabeled actions
    column), and the default search and date-range fields. */
module TableDefaults {
  import opened Js
  import opened Seqs
  import opened Table

  /** `defaultHeaderMap`: field key to display label, in display order. */
  const DefaultHeaderMap: JsObject<string> :=
    ObjectMap(["name", "iss", "sub", "iat", ""],
              map["name" := "Name", "iss" := "Issuer ID", "sub" := "Subject", "iat" := "Issued", "" := ""])

  /** `defaultColumnDataTypes`: field key to column type. */
  const DefaultColumnDataTypes: JsObject<ColumnType> :=
    ObjectMap(["name", "iss", "sub", "iat", ""],
              map["name" := TEXT, "iss" := TEXT, "sub" := TEXT, "iat" := NUMBER, "" := NONE])

  /** `defaultTableConfig`. */
  const DefaultTableConfig: TableConfig := TableConfig(DefaultColumnDataTypes, DefaultHeaderMap)

  /** `defaultFiltersConfig`. */
  const DefaultFiltersConfig: FiltersConfig := FiltersConfig(Some(["name", "sub", "iss"]), Some(["iat"]), Some(true))

  /** A table and filter configuration fit together: types and labels are
      given for the same keys, every search field is a labelled TEXT column
      and every date-range field a labelled NUMBER column. */
  predicate ConsistentConfig(tableConfig: TableConfig, filtersConfig: FiltersConfig) {
    var labels := tableConfig.columnMapNames;
    var types := tableConfig.columnTypes;
    (forall k | k in types.entries :: k in labels.entries) &&
    (forall k | k in labels.entries :: k in types.entries) &&
    (filtersConfig.searchBy.Some? ==>
      forall k | k in filtersConfig.searchBy.value :: k in labels.entries && Get(types, k) == Some(TEXT)) &&
    (filtersConfig.dateRange.Some? ==>
      forall k | k in filtersConfig.dateRange.value :: k in labels.entries && Get(types, k) == Some(NUMBER))
  }

  /** Under a consistent configuration every search item and every
      date-range item carries a label (none reads `undefined`). */
  lemma ConsistentConfigLabelsItems(tableConfig: TableConfig, filtersConfig: FiltersConfig)
    requires ConsistentConfig(tableConfig, filtersConfig)
    ensures forall item | item in SearchByItems(filtersConfig, tableConfig.columnMapNames) :: item.value.Some?
    ensures forall item | item in DateRangeItems(filtersConfig, tableConfig.columnMapNames) :: item.name.Some?
  {
    var search := SearchByItems(filtersConfig, tableConfig.columnMapNames);
    forall item | item in search ensures item.value.Some? {
      var i :| 0 <= i < |search| && search[i] == item;
      assert filtersConfig.searchBy.value[i] in filtersConfig.searchBy.value;
    }
    var dates := DateRangeItems(filtersConfig, tableConfig.columnMapNames);
    forall item | item in dates ensures item.name.Some? {
      var i :| 0 <= i < |dates| && dates[i] == item;
      assert filtersConfig.dateRange.value[i] in filtersConfig.dateRange.value;
    }
  }

  /** The default configuration is consistent, and the default table
      configuration is made of the default header map and column types. */
  lemma DefaultsConsistent()
    ensures ConsistentConfig(DefaultTableConfig, DefaultFiltersConfig)
    ensures DefaultTableConfig.columnMapNames == DefaultHeaderMap
    ensures DefaultTableConfig.columnTypes == DefaultColumnDataTypes
  {
    var labels, types := DefaultHeaderMap.entries, DefaultColumnDataTypes.entries;
    assert labels.Keys == types.Keys by {
      HeaderMapAndTypesSameKeys();
    }
    forall k | k in DefaultFiltersConfig.searchBy.value
      ensures k in labels && Get(DefaultColumnDataTypes, k) == Some(TEXT)
    {
      FilterFieldsTyped();
    }
    forall k | k in DefaultFiltersConfig.dateRange.value
      ensures k in labels && Get(DefaultColumnDataTypes, k) == Some(NUMBER)
    {
      assert k == "iat";
    }
  }

  /** The header map and the column types have the same keys, in the same order. */
  lemma HeaderMapAndTypesSameKeys()
    ensures DefaultHeaderMap.keys == DefaultColumnDataTypes.keys == ["name", "iss", "sub", "iat", ""]
    ensures DefaultHeaderMap.entries.Keys == DefaultColumnDataTypes.entries.Keys == {"name", "iss", "sub", "iat", ""}
  {
  }

  /** Each search field is a column of the header map and is typed TEXT;
      the only date-range field, `iat`, is typed NUMBER. */
  lemma FilterFieldsTyped()
    ensures forall k | k in DefaultFiltersConfig.searchBy.value ::
      k in DefaultHeaderMap.entries && DefaultColumnDataTypes.entries[k] == TEXT
    ensures DefaultFiltersConfig.dateRange == Some(["iat"]) && DefaultColumnDataTypes.entries["iat"] == NUMBER
  {
    forall k | k in DefaultFiltersConfig.searchBy.value
      ensures k in DefaultHeaderMap.entries && DefaultColumnDataTypes.entries[k] == TEXT
    {
      assert k == "name" || k == "sub" || k == "iss";
    }
  }

  /** The unlabeled key `""` is the only NONE column and comes last. */
  lemma ActionsColumnIsLast()
    ensures forall k | k in DefaultColumnDataTypes.entries :: DefaultColumnDataTypes.entries[k] == NONE <==> k == ""
    ensures DefaultHeaderMap.keys[|DefaultHeaderMap.keys| - 1] == ""
  {
  }

  /** The table's default search field `"name"` is one of the offered
      search fields, and the dropdown offers exactly the three labelled
      fields, in order. */
  lemma DefaultSearchFieldOffered()
    ensures InitialState(DefaultHeaderMap).dropdownItem.value in DefaultFiltersConfig.searchBy.value
    ensures SearchByItems(DefaultFiltersConfig, DefaultHeaderMap) ==
      [SearchItem("name", Some("Name")), SearchItem("sub", Some("Subject")), SearchItem("iss", Some("Issuer ID"))]
  {
  }

  /** The display labels of the header map, in key order. */
  lemma DefaultLabels()
    ensures Values(DefaultHeaderMap) == ["Name", "Issuer ID", "Subject", "Issued", ""]
  {
    var v := Values(DefaultHeaderMap);
    assert v[0] == "Name" && v[1] == "Issuer ID" && v[2] == "Subject" && v[3] == "Issued" && v[4] == "";
  }

  /** The display labels of the header map are distinct: no two have the
      same length. */
  lemma DefaultLabelsDistinct()
    ensures NoDups(Values(DefaultHeaderMap))
  {
    DefaultLabels();
    var v := Values(DefaultHeaderMap);
    assert |v[0]| == 4 && |v[1]| == 9 && |v[2]| == 7 && |v[3]| == 6 && |v[4]| == 0;
    forall i, j | 0 <= i < j < |v| ensures v[i] != v[j] {
      assert |v[i]| != |v[j]|;
    }
  }

  /** On mount the default table shows all five columns, in header order; the
      grid has four flexible tracks, so that with the `auto` track there is
      one track per column and the `auto` one falls on the unlabeled actions
      column. */
  lemma DefaultTableOnMount()
    ensures Columns(DefaultHeaderMap, InitialState(DefaultHeaderMap).activeColumns) == DefaultHeaderMap.keys
    ensures FlexibleTracks(InitialState(DefaultHeaderMap).activeColumns) + 1 == |DefaultHeaderMap.keys| == 5
  {
    InitialColumnsAreAllKeys(DefaultHeaderMap);
  }
}
