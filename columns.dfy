/** What the feature table's `render` derives from the layer schemas: the
    table columns, the column heads offered as autocomplete keys, and the
    cell values offered as autocomplete values. */
module Columns {
  import opened Common
  import opened Sequences
  import opened Query

  /** One `key: type` pair of a layer schema (`FeatureStore.getSchema`), in key order. */
  datatype SchemaEntry = SchemaEntry(key: string, kind: string)

  type Schema = seq<SchemaEntry>

  /** A layer of the map as `render` sees it. */
  datatype LayerEntry = LayerEntry(id: Option<string>, isVector: bool, schema: Schema)

  datatype Renderer = SelectionCheckbox | LinkCell | AccessorCell

  datatype Column = Column(id: string, header: string, renderer: Renderer)

  /** The first column of every table: the selection check box. */
  const Selector := Column("selector", "", SelectionCheckbox)

  /** The keys the preview view of the current table shows. */
  const PreviewKeys: seq<string> :=
    ["status", "metadata_type", "name", "map_type", "production_site", "availability", "product_link"]

  /** The keys the focus view of the older table shows. */
  const FocusKeys: seq<string> :=
    ["status_id", "metadata_type", "name_of_aoi", "planned_map_type", "planned_satellite_data"]

  function SchemaColumn(e: SchemaEntry): Column {
    if e.kind == "link" then Column(e.key, e.key, LinkCell) else Column(e.key, e.key, AccessorCell)
  }

  /** One column per schema key, in key order. */
  function SchemaColumns(schema: Schema): seq<Column> {
    if schema == [] then []
    else SchemaColumns(schema[..|schema| - 1]) + [SchemaColumn(schema[|schema| - 1])]
  }

  /** One accessor column per schema key that is on the whitelist. */
  function WhitelistColumns(schema: Schema, whitelist: seq<string>): seq<Column> {
    if schema == [] then []
    else
      var e := schema[|schema| - 1];
      WhitelistColumns(schema[..|schema| - 1], whitelist)
        + (if e.key in whitelist then [Column(e.key, e.key, AccessorCell)] else [])
  }

  /** Preview columns of the current table: the whitelisted keys of every layer
      whose id equals the current layer's id, after the schema validator has
      filled in default properties (`fillDefaults`, external). */
  function PreviewColumns(layers: seq<LayerEntry>, currentId: Option<string>, fillDefaults: Schema -> Schema): seq<Column> {
    if layers == [] then []
    else
      var l := layers[|layers| - 1];
      PreviewColumns(layers[..|layers| - 1], currentId, fillDefaults)
        + (if l.id == currentId then WhitelistColumns(fillDefaults(l.schema), PreviewKeys) else [])
  }

  /** Focus columns of the older table: the whitelisted keys of every vector layer. */
  function FocusColumns(layers: seq<LayerEntry>): seq<Column> {
    if layers == [] then []
    else
      var l := layers[|layers| - 1];
      FocusColumns(layers[..|layers| - 1])
        + (if l.isVector then WhitelistColumns(l.schema, FocusKeys) else [])
  }

  function CurrentColumns(toggled: bool, schema: Schema, layers: seq<LayerEntry>, currentId: Option<string>,
                          fillDefaults: Schema -> Schema): seq<Column> {
    [Selector] + (if !toggled then SchemaColumns(schema) else PreviewColumns(layers, currentId, fillDefaults))
  }

  function LegacyColumns(toggled: bool, schema: Schema, layers: seq<LayerEntry>): seq<Column> {
    [Selector] + (if !toggled then SchemaColumns(schema) else FocusColumns(layers))
  }

  // ---------------------------------------------------------------------------
  // Properties of the column lists

  lemma {:induction false} SchemaColumnsAt(schema: Schema)
    ensures |SchemaColumns(schema)| == |schema|
    ensures forall k :: 0 <= k < |schema| ==> SchemaColumns(schema)[k] == SchemaColumn(schema[k])
  {
    if schema != [] {
      var prefix := schema[..|schema| - 1];
      SchemaColumnsAt(prefix);
      assert forall k :: 0 <= k < |prefix| ==> prefix[k] == schema[k];
    }
  }

  /** A column of a whitelist view is an accessor column for a whitelisted key of
      the schema, and every whitelisted key of the schema has one. */
  lemma {:induction false} WhitelistColumnsMembership(schema: Schema, whitelist: seq<string>, c: Column)
    ensures c in WhitelistColumns(schema, whitelist) <==>
      c.renderer == AccessorCell && c.header == c.id && c.id in whitelist
      && exists k :: 0 <= k < |schema| && schema[k].key == c.id
  {
    if schema != [] {
      var prefix := schema[..|schema| - 1];
      WhitelistColumnsMembership(prefix, whitelist, c);
      if exists k :: 0 <= k < |schema| && schema[k].key == c.id {
        var k :| 0 <= k < |schema| && schema[k].key == c.id;
        if k < |prefix| {
          assert prefix[k].key == c.id;
        }
      }
      if exists k :: 0 <= k < |prefix| && prefix[k].key == c.id {
        var k :| 0 <= k < |prefix| && prefix[k].key == c.id;
        assert schema[k].key == c.id;
      }
    }
  }

  lemma {:induction false} PreviewColumnsMembership(layers: seq<LayerEntry>, currentId: Option<string>,
                                                    fillDefaults: Schema -> Schema, c: Column)
    ensures c in PreviewColumns(layers, currentId, fillDefaults) <==>
      exists i :: 0 <= i < |layers| && layers[i].id == currentId
        && c in WhitelistColumns(fillDefaults(layers[i].schema), PreviewKeys)
  {
    if layers != [] {
      var prefix := layers[..|layers| - 1];
      PreviewColumnsMembership(prefix, currentId, fillDefaults, c);
      if exists i :: 0 <= i < |prefix| && prefix[i].id == currentId
          && c in WhitelistColumns(fillDefaults(prefix[i].schema), PreviewKeys) {
        var i :| 0 <= i < |prefix| && prefix[i].id == currentId
          && c in WhitelistColumns(fillDefaults(prefix[i].schema), PreviewKeys);
        assert layers[i] == prefix[i];
      }
      if exists i :: 0 <= i < |layers| && layers[i].id == currentId
          && c in WhitelistColumns(fillDefaults(layers[i].schema), PreviewKeys) {
        var i :| 0 <= i < |layers| && layers[i].id == currentId
          && c in WhitelistColumns(fillDefaults(layers[i].schema), PreviewKeys);
        if i < |prefix| {
          assert layers[i] == prefix[i];
        }
      }
    }
  }

  lemma {:induction false} FocusColumnsMembership(layers: seq<LayerEntry>, c: Column)
    ensures c in FocusColumns(layers) <==>
      exists i :: 0 <= i < |layers| && layers[i].isVector && c in WhitelistColumns(layers[i].schema, FocusKeys)
  {
    if layers != [] {
      var prefix := layers[..|layers| - 1];
      FocusColumnsMembership(prefix, c);
      if exists i :: 0 <= i < |prefix| && prefix[i].isVector && c in WhitelistColumns(prefix[i].schema, FocusKeys) {
        var i :| 0 <= i < |prefix| && prefix[i].isVector && c in WhitelistColumns(prefix[i].schema, FocusKeys);
        assert layers[i] == prefix[i];
      }
      if exists i :: 0 <= i < |layers| && layers[i].isVector && c in WhitelistColumns(layers[i].schema, FocusKeys) {
        var i :| 0 <= i < |layers| && layers[i].isVector && c in WhitelistColumns(layers[i].schema, FocusKeys);
        if i < |prefix| {
          assert layers[i] == prefix[i];
        }
      }
    }
  }

  /** Outside preview mode: the selector, then one column per schema key in key
      order, with a link cell exactly for the keys typed 'link'. */
  lemma SchemaViewShape(schema: Schema, layers: seq<LayerEntry>, currentId: Option<string>, fillDefaults: Schema -> Schema)
    ensures var cols := CurrentColumns(false, schema, layers, currentId, fillDefaults);
      |cols| == |schema| + 1 && cols[0] == Selector
      && forall k :: 0 <= k < |schema| ==>
        cols[k + 1].id == schema[k].key && (cols[k + 1].renderer == LinkCell <==> schema[k].kind == "link")
  {
    SchemaColumnsAt(schema);
  }

  /** In preview mode the selector is followed by accessor columns for the seven
      whitelisted keys only: exactly the whitelisted keys that the current
      layer's filled-in schema has. */
  lemma PreviewViewShape(schema: Schema, layers: seq<LayerEntry>, currentId: Option<string>,
                         fillDefaults: Schema -> Schema, c: Column)
    ensures var cols := CurrentColumns(true, schema, layers, currentId, fillDefaults);
      cols[0] == Selector
      && (c in cols[1..] <==>
        c.renderer == AccessorCell && c.header == c.id && c.id in PreviewKeys
        && (exists i :: 0 <= i < |layers| && layers[i].id == currentId
                           && exists k :: 0 <= k < |fillDefaults(layers[i].schema)| && fillDefaults(layers[i].schema)[k].key == c.id))
  {
    var cols := CurrentColumns(true, schema, layers, currentId, fillDefaults);
    assert cols[1..] == PreviewColumns(layers, currentId, fillDefaults);
    PreviewColumnsMembership(layers, currentId, fillDefaults, c);
    forall i | 0 <= i < |layers|
      ensures c in WhitelistColumns(fillDefaults(layers[i].schema), PreviewKeys) <==>
        c.renderer == AccessorCell && c.header == c.id && c.id in PreviewKeys
        && exists k :: 0 <= k < |fillDefaults(layers[i].schema)| && fillDefaults(layers[i].schema)[k].key == c.id
    {
      WhitelistColumnsMembership(fillDefaults(layers[i].schema), PreviewKeys, c);
    }
  }

  /** In focus mode the older table shows the selector followed by accessor
      columns for the five whitelisted keys of the vector layers only. */
  lemma FocusViewShape(schema: Schema, layers: seq<LayerEntry>, c: Column)
    ensures var cols := LegacyColumns(true, schema, layers);
      cols[0] == Selector
      && (c in cols[1..] <==>
        c.renderer == AccessorCell && c.header == c.id && c.id in FocusKeys
        && (exists i :: 0 <= i < |layers| && layers[i].isVector
                           && exists k :: 0 <= k < |layers[i].schema| && layers[i].schema[k].key == c.id))
  {
    var cols := LegacyColumns(true, schema, layers);
    assert cols[1..] == FocusColumns(layers);
    FocusColumnsMembership(layers, c);
    forall i | 0 <= i < |layers|
      ensures c in WhitelistColumns(layers[i].schema, FocusKeys) <==>
        c.renderer == AccessorCell && c.header == c.id && c.id in FocusKeys
        && exists k :: 0 <= k < |layers[i].schema| && layers[i].schema[k].key == c.id
    {
      WhitelistColumnsMembership(layers[i].schema, FocusKeys, c);
    }
  }

  // ---------------------------------------------------------------------------
  // The push loops of render

  method AppendSchemaColumns(columns: seq<Column>, schema: Schema) returns (r: seq<Column>)
    ensures r == columns + SchemaColumns(schema)
  {
    r := columns;
    var i := 0;
    while i < |schema|
      invariant 0 <= i <= |schema|
      invariant r == columns + SchemaColumns(schema[..i])
    {
      var e := schema[i];
      if e.kind == "link" {
        r := r + [Column(e.key, e.key, LinkCell)];
      } else {
        r := r + [Column(e.key, e.key, AccessorCell)];
      }
      assert schema[..i + 1][..i] == schema[..i];
      i := i + 1;
    }
    assert schema[..i] == schema;
  }

  method AppendWhitelistColumns(columns: seq<Column>, schema: Schema, whitelist: seq<string>) returns (r: seq<Column>)
    ensures r == columns + WhitelistColumns(schema, whitelist)
  {
    r := columns;
    var i := 0;
    while i < |schema|
      invariant 0 <= i <= |schema|
      invariant r == columns + WhitelistColumns(schema[..i], whitelist)
    {
      var key := schema[i].key;
      if key in whitelist {
        r := r + [Column(key, key, AccessorCell)];
      }
      assert schema[..i + 1][..i] == schema[..i];
      i := i + 1;
    }
    assert schema[..i] == schema;
  }

  /** The columns of the current table. */
  method BuildCurrentColumns(toggled: bool, schema: Schema, layers: seq<LayerEntry>, currentId: Option<string>,
                             fillDefaults: Schema -> Schema) returns (columns: seq<Column>)
    ensures columns == CurrentColumns(toggled, schema, layers, currentId, fillDefaults)
  {
    columns := [Selector];
    if !toggled {
      columns := AppendSchemaColumns(columns, schema);
    } else {
      var i := 0;
      while i < |layers|
        invariant 0 <= i <= |layers|
        invariant columns == [Selector] + PreviewColumns(layers[..i], currentId, fillDefaults)
      {
        if layers[i].id == currentId {
          columns := AppendWhitelistColumns(columns, fillDefaults(layers[i].schema), PreviewKeys);
        }
        assert layers[..i + 1][..i] == layers[..i];
        i := i + 1;
      }
      assert layers[..i] == layers;
    }
  }

  /** The columns of the older table. */
  method BuildLegacyColumns(toggled: bool, schema: Schema, layers: seq<LayerEntry>) returns (columns: seq<Column>)
    ensures columns == LegacyColumns(toggled, schema, layers)
  {
    columns := [Selector];
    if !toggled {
      columns := AppendSchemaColumns(columns, schema);
    } else {
      var i := 0;
      while i < |layers|
        invariant 0 <= i <= |layers|
        invariant columns == [Selector] + FocusColumns(layers[..i])
      {
        if layers[i].isVector {
          columns := AppendWhitelistColumns(columns, layers[i].schema, FocusKeys);
        }
        assert layers[..i + 1][..i] == layers[..i];
        i := i + 1;
      }
      assert layers[..i] == layers;
    }
  }

  // ---------------------------------------------------------------------------
  // Column heads (autocomplete keys)

  function ColumnIds(columns: seq<Column>): seq<string> {
    if columns == [] then [] else ColumnIds(columns[..|columns| - 1]) + [columns[|columns| - 1].id]
  }

  function SchemaKeys(schema: Schema): seq<string> {
    if schema == [] then [] else SchemaKeys(schema[..|schema| - 1]) + [schema[|schema| - 1].key]
  }

  function VectorSchemaKeys(layers: seq<LayerEntry>): seq<string> {
    if layers == [] then []
    else
      var l := layers[|layers| - 1];
      VectorSchemaKeys(layers[..|layers| - 1]) + (if l.isVector then SchemaKeys(l.schema) else [])
  }

  /** `colHeads`: the ids of the table's columns, or in all-layers mode every
      schema key of every vector layer. */
  function ColumnHeads(columns: seq<Column>, filterAllActive: bool, layers: seq<LayerEntry>): seq<string> {
    if !filterAllActive then ColumnIds(columns) else VectorSchemaKeys(layers)
  }

  method BuildColumnHeads(columns: seq<Column>, filterAllActive: bool, layers: seq<LayerEntry>) returns (heads: seq<string>)
    ensures heads == ColumnHeads(columns, filterAllActive, layers)
  {
    heads := [];
    if !filterAllActive {
      var i := 0;
      while i < |columns|
        invariant 0 <= i <= |columns|
        invariant heads == ColumnIds(columns[..i])
      {
        heads := heads + [columns[i].id];
        assert columns[..i + 1][..i] == columns[..i];
        i := i + 1;
      }
      assert columns[..i] == columns;
    } else {
      var i := 0;
      while i < |layers|
        invariant 0 <= i <= |layers|
        invariant heads == VectorSchemaKeys(layers[..i])
      {
        if layers[i].isVector {
          var schema := layers[i].schema;
          var j := 0;
          while j < |schema|
            invariant 0 <= j <= |schema|
            invariant heads == VectorSchemaKeys(layers[..i]) + SchemaKeys(schema[..j])
          {
            heads := heads + [schema[j].key];
            assert schema[..j + 1][..j] == schema[..j];
            j := j + 1;
          }
          assert schema[..j] == schema;
        }
        assert layers[..i + 1][..i] == layers[..i];
        i := i + 1;
      }
      assert layers[..i] == layers;
    }
  }

  /** `uniqueCols`: the column heads without repetitions, in order of first occurrence. */
  function AutocompleteKeys(heads: seq<string>): (keys: seq<string>)
    ensures NoDuplicates(keys)
    ensures forall i :: 0 <= i < |keys| ==> keys[i] in heads
    ensures forall i :: 0 <= i < |heads| ==> heads[i] in keys
  {
    Dedupe(heads)
  }

  lemma AutocompleteKeysOrder(heads: seq<string>)
    ensures IsSubsequence(AutocompleteKeys(heads), heads)
  {
    DedupeIsSubsequence(heads);
  }

  /** The column ids are the columns' ids, position by position. */
  lemma {:induction false} ColumnIdsAt(columns: seq<Column>)
    ensures |ColumnIds(columns)| == |columns|
    ensures forall k :: 0 <= k < |columns| ==> ColumnIds(columns)[k] == columns[k].id
  {
    if columns != [] {
      var prefix := columns[..|columns| - 1];
      ColumnIdsAt(prefix);
      assert forall k :: 0 <= k < |prefix| ==> prefix[k] == columns[k];
    }
  }

  /** Outside all-layers mode the key list starts with 'selector'. */
  lemma SelectorKeyFirst(columns: seq<Column>, layers: seq<LayerEntry>)
    requires columns != [] && columns[0] == Selector
    ensures AutocompleteKeys(ColumnHeads(columns, false, layers))[0] == "selector"
  {
    var heads := ColumnHeads(columns, false, layers);
    ColumnIdsAt(columns);
    DedupeIsSubsequence(heads);
    DedupeIndicesEmbed(heads);
    DedupeFirst(heads);
  }

  lemma {:induction false} DedupeFirst<T>(s: seq<T>)
    requires s != []
    ensures Dedupe(s) != [] && Dedupe(s)[0] == s[0]
  {
    if |s| > 1 {
      var prefix := s[..|s| - 1];
      DedupeFirst(prefix);
      assert prefix[0] == s[0];
    }
  }

  // ---------------------------------------------------------------------------
  // Which rows the table shows

  /** Where `render` takes the table's rows from: the store's filtered list,
      the features of every layer, the current vector layer's features, or
      the loaded page of a remote layer. */
  datatype DataSource = StoreFilter | EveryLayer | LayerFeatures | LoadedPage

  function DataSourceOf(filtered: bool, selectedOnly: bool, filterAllActive: bool, filterActive: bool,
                        layerIsVector: bool): DataSource {
    if filtered || selectedOnly then StoreFilter
    else if filterAllActive && !filterActive then EveryLayer
    else if layerIsVector then LayerFeatures
    else LoadedPage
  }

  /** The features of every layer are listed exactly while the all-layers box
      is ticked and no query result is active (and the store is not
      filtering); a remote layer is paged exactly when none of the other
      sources applies. */
  lemma DataSourceCases(filtered: bool, selectedOnly: bool, filterAllActive: bool, filterActive: bool, layerIsVector: bool)
    ensures var s := DataSourceOf(filtered, selectedOnly, filterAllActive, filterActive, layerIsVector);
      (s == StoreFilter <==> filtered || selectedOnly)
      && (s == EveryLayer <==> !filtered && !selectedOnly && filterAllActive && !filterActive)
      && (s == LoadedPage <==> !filtered && !selectedOnly && !(filterAllActive && !filterActive) && !layerIsVector)
  {
  }

  // ---------------------------------------------------------------------------
  // Cell values (autocomplete values)

  /** `row.get(key)`: the value, or `undefined` when the feature lacks the key. */
  type Cell = Option<string>

  function CellOf(r: Row, key: string): Cell
    requires r.Feature?
  {
    if key in r.props then Some(r.props[key]) else None
  }

  predicate AllPresent(rows: seq<Row>) {
    forall i :: 0 <= i < |rows| ==> rows[i].Feature?
  }

  function ColumnCells(rows: seq<Row>, key: string): (cells: seq<Cell>)
    requires AllPresent(rows)
    ensures |cells| == |rows|
  {
    if rows == [] then []
    else ColumnCells(rows[..|rows| - 1], key) + [CellOf(rows[|rows| - 1], key)]
  }

  /** `cellsArray`: nothing until a key is typed, then the key's value in each
      row of the table (or of all layers in all-layers mode). */
  function CellValues(searchText: string, filterAllActive: bool, data: seq<Row>, dataAll: seq<Row>): seq<Cell>
    requires AllPresent(data) && AllPresent(dataAll)
  {
    if searchText == "" then []
    else if !filterAllActive then ColumnCells(data, searchText)
    else ColumnCells(dataAll, searchText)
  }

  method BuildCellValues(searchText: string, filterAllActive: bool, data: seq<Row>, dataAll: seq<Row>)
    returns (cells: seq<Cell>)
    requires AllPresent(data) && AllPresent(dataAll)
    ensures cells == CellValues(searchText, filterAllActive, data, dataAll)
  {
    cells := [];
    if searchText != "" {
      var rows := if !filterAllActive then data else dataAll;
      var i := 0;
      while i < |rows|
        invariant 0 <= i <= |rows|
        invariant cells == ColumnCells(rows[..i], searchText)
      {
        cells := cells + [CellOf(rows[i], searchText)];
        assert rows[..i + 1][..i] == rows[..i];
        i := i + 1;
      }
      assert rows[..i] == rows;
    }
  }

  lemma {:induction false} ColumnCellsAt(rows: seq<Row>, key: string)
    requires AllPresent(rows)
    ensures forall k :: 0 <= k < |rows| ==> ColumnCells(rows, key)[k] == CellOf(rows[k], key)
  {
    if rows != [] {
      var prefix := rows[..|rows| - 1];
      ColumnCellsAt(prefix, key);
      assert forall k :: 0 <= k < |prefix| ==> prefix[k] == rows[k];
    }
  }

  // ---------------------------------------------------------------------------
  // The order of Array.prototype.sort without a comparator: strings by their
  // UTF-16 code units, `undefined` after every string.

  /** The UTF-16 code units of a character: the character itself below
      U+10000, else its surrogate pair. */
  function CodeUnits(c: char): seq<int> {
    if (c as int) < 0x10000 then [c as int]
    else [0xD800 + (c as int - 0x10000) / 0x400, 0xDC00 + (c as int - 0x10000) % 0x400]
  }

  /** The code point that one or two code units stand for. */
  function CodePoint(u: seq<int>): int
    requires |u| > 0
  {
    if |u| == 1 then u[0] else 0x10000 + (u[0] - 0xD800) * 0x400 + (u[1] - 0xDC00)
  }

  /** Decoding a character's code units gives the character back, and the
      first unit alone tells whether a second one follows (a high surrogate). */
  lemma CodeUnitsRoundTrip(c: char)
    ensures var u := CodeUnits(c);
      (|u| == 1 || |u| == 2) && CodePoint(u) == c as int
      && (|u| == 2 <==> 0xD800 <= u[0] < 0xDC00)
  {
  }

  /** A string as JavaScript stores it. */
  function Utf16(s: string): seq<int> {
    if s == [] then [] else CodeUnits(s[0]) + Utf16(s[1..])
  }

  /** Two strings with the same code units are the same string. */
  lemma {:induction false} Utf16Injective(x: string, y: string)
    requires Utf16(x) == Utf16(y)
    ensures x == y
    decreases |x|
  {
    if x == [] {
      assert Utf16(y) == [];
    } else {
      assert y != [];
      var ux, uy := CodeUnits(x[0]), CodeUnits(y[0]);
      CodeUnitsRoundTrip(x[0]);
      CodeUnitsRoundTrip(y[0]);
      assert ux[0] == Utf16(x)[0] == Utf16(y)[0] == uy[0];
      assert |ux| == |uy|;
      assert ux == Utf16(x)[..|ux|] == Utf16(y)[..|uy|] == uy;
      assert Utf16(x[1..]) == Utf16(x)[|ux|..] == Utf16(y)[|uy|..] == Utf16(y[1..]);
      Utf16Injective(x[1..], y[1..]);
      assert x == [x[0]] + x[1..] && y == [y[0]] + y[1..];
    }
  }

  /** Lexicographic order of code-unit sequences. */
  predicate UnitsLe(x: seq<int>, y: seq<int>)
    decreases |x|
  {
    |x| == 0 || (|y| > 0 && (x[0] < y[0] || (x[0] == y[0] && UnitsLe(x[1..], y[1..]))))
  }

  /** The default sort's comparison of two strings. */
  predicate LexLe(x: string, y: string) {
    UnitsLe(Utf16(x), Utf16(y))
  }

  predicate CellLe(a: Cell, b: Cell) {
    match a
    case None => b.None?
    case Some(x) => b.None? || LexLe(x, b.value)
  }

  /** The order is by code unit, not by code point: a character above U+FFFF
      sorts before U+FF01, whose single unit exceeds the high surrogate. */
  lemma SurrogatePairSortsFirst()
    ensures LexLe("\U{1F600}", "\U{FF01}") && !LexLe("\U{FF01}", "\U{1F600}")
  {
    assert Utf16("\U{1F600}") == [0xD83D, 0xDE00];
    assert Utf16("\U{FF01}") == [0xFF01];
  }

  lemma {:induction false} UnitsLeTotal(x: seq<int>, y: seq<int>)
    ensures UnitsLe(x, y) || UnitsLe(y, x)
    decreases |x|
  {
    if |x| > 0 && |y| > 0 && x[0] == y[0] {
      UnitsLeTotal(x[1..], y[1..]);
    }
  }

  lemma {:induction false} UnitsLeTransitive(x: seq<int>, y: seq<int>, z: seq<int>)
    requires UnitsLe(x, y) && UnitsLe(y, z)
    ensures UnitsLe(x, z)
    decreases |x|
  {
    if |x| > 0 && x[0] == y[0] && y[0] == z[0] {
      UnitsLeTransitive(x[1..], y[1..], z[1..]);
    }
  }

  lemma {:induction false} UnitsLeAntisymmetric(x: seq<int>, y: seq<int>)
    requires UnitsLe(x, y) && UnitsLe(y, x)
    ensures x == y
    decreases |x|
  {
    if |x| > 0 {
      UnitsLeAntisymmetric(x[1..], y[1..]);
      assert x == [x[0]] + x[1..] && y == [y[0]] + y[1..];
    }
  }

  lemma LexLeTotal(x: string, y: string)
    ensures LexLe(x, y) || LexLe(y, x)
  {
    UnitsLeTotal(Utf16(x), Utf16(y));
  }

  lemma LexLeTransitive(x: string, y: string, z: string)
    requires LexLe(x, y) && LexLe(y, z)
    ensures LexLe(x, z)
  {
    UnitsLeTransitive(Utf16(x), Utf16(y), Utf16(z));
  }

  lemma LexLeAntisymmetric(x: string, y: string)
    requires LexLe(x, y) && LexLe(y, x)
    ensures x == y
  {
    UnitsLeAntisymmetric(Utf16(x), Utf16(y));
    Utf16Injective(x, y);
  }

  lemma CellLeTotal(a: Cell, b: Cell)
    ensures CellLe(a, b) || CellLe(b, a)
  {
    if a.Some? && b.Some? {
      LexLeTotal(a.value, b.value);
    }
  }

  lemma CellLeTransitive(a: Cell, b: Cell, c: Cell)
    requires CellLe(a, b) && CellLe(b, c)
    ensures CellLe(a, c)
  {
    if a.Some? && b.Some? && c.Some? {
      LexLeTransitive(a.value, b.value, c.value);
    }
  }

  lemma CellLeAntisymmetric(a: Cell, b: Cell)
    requires CellLe(a, b) && CellLe(b, a)
    ensures a == b
  {
    if a.Some? && b.Some? {
      LexLeAntisymmetric(a.value, b.value);
    }
  }

  predicate Sorted(s: seq<Cell>) {
    forall i, j :: 0 <= i < j < |s| ==> CellLe(s[i], s[j])
  }

  function Insert(x: Cell, s: seq<Cell>): seq<Cell> {
    if s == [] then [x]
    else if CellLe(x, s[0]) then [x] + s
    else [s[0]] + Insert(x, s[1..])
  }

  function Sort(s: seq<Cell>): seq<Cell> {
    if s == [] then [] else Insert(s[0], Sort(s[1..]))
  }

  lemma {:induction false} InsertPermutes(x: Cell, s: seq<Cell>)
    ensures multiset(Insert(x, s)) == multiset(s) + multiset{x}
  {
    if s != [] && !CellLe(x, s[0]) {
      InsertPermutes(x, s[1..]);
      assert s == [s[0]] + s[1..];
    }
  }

  lemma {:induction false} InsertSorted(x: Cell, s: seq<Cell>)
    requires Sorted(s)
    ensures Sorted(Insert(x, s))
  {
    if s != [] {
      if CellLe(x, s[0]) {
        forall j | 0 < j < |s| + 1
          ensures CellLe(x, ([x] + s)[j])
        {
          if j > 1 {
            CellLeTransitive(x, s[0], s[j - 1]);
          }
        }
      } else {
        CellLeTotal(x, s[0]);
        InsertSorted(x, s[1..]);
        InsertPermutes(x, s[1..]);
        var r := Insert(x, s[1..]);
        forall j | 0 <= j < |r|
          ensures CellLe(s[0], r[j])
        {
          assert r[j] in multiset(r);
          assert r[j] == x || r[j] in multiset(s[1..]);
          if r[j] != x {
            var k :| 0 <= k < |s[1..]| && s[1..][k] == r[j];
            assert s[k + 1] == r[j];
          }
        }
      }
    }
  }

  lemma {:induction false} SortSpec(s: seq<Cell>)
    ensures Sorted(Sort(s))
    ensures multiset(Sort(s)) == multiset(s)
  {
    if s != [] {
      SortSpec(s[1..]);
      InsertSorted(s[0], Sort(s[1..]));
      InsertPermutes(s[0], Sort(s[1..]));
      assert s == [s[0]] + s[1..];
    }
  }

  lemma {:induction false} InsertDistinct(x: Cell, s: seq<Cell>)
    requires NoDuplicates(s) && x !in s
    ensures NoDuplicates(Insert(x, s))
  {
    if s != [] && !CellLe(x, s[0]) {
      var tail := s[1..];
      assert NoDuplicates(tail);
      InsertDistinct(x, tail);
      InsertPermutes(x, tail);
      assert s[0] !in multiset(Insert(x, tail));
    }
  }

  lemma {:induction false} SortDistinct(s: seq<Cell>)
    requires NoDuplicates(s)
    ensures NoDuplicates(Sort(s))
  {
    if s != [] {
      var tail := s[1..];
      assert NoDuplicates(tail);
      SortDistinct(tail);
      SortSpec(tail);
      assert s[0] !in multiset(Sort(tail));
      InsertDistinct(s[0], Sort(tail));
    }
  }

  /** `uniqueCells`: `[...new Set(cellsArray)].sort()`. */
  function AutocompleteValues(cells: seq<Cell>): seq<Cell> {
    Sort(Dedupe(cells))
  }

  /** The value list is strictly ascending (sorted, no value twice) and holds
      exactly the values of the cells. */
  lemma AutocompleteValuesSpec(cells: seq<Cell>)
    ensures var r := AutocompleteValues(cells);
      Sorted(r) && NoDuplicates(r)
      && (forall i :: 0 <= i < |r| ==> r[i] in cells)
      && (forall i :: 0 <= i < |cells| ==> cells[i] in r)
  {
    var d := Dedupe(cells);
    var r := Sort(d);
    SortSpec(d);
    SortDistinct(d);
    forall i | 0 <= i < |r| ensures r[i] in cells {
      assert r[i] in multiset(r);
    }
    forall i | 0 <= i < |cells| ensures cells[i] in r {
      assert cells[i] in d;
      assert cells[i] in multiset(d);
    }
  }
}
