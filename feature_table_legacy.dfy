/** The older feature table (`FeatureTableTab` with hidden rows and the
    skip/unskip experiments): a free-text query over the current layer, a
    free-text query over the features of every layer that shows its result
    as one temporary layer, and the export of that result as a new layer.

    As in the current table, React's `setState` is an update of the `state`
    record in program order. */
module FeatureTableLegacy {
  import opened Common
  import opened Query
  import opened MapLayers
  import opened TableView

  /** The keys of the older table's React state that its query and display
      handlers read and write. */
  datatype LegacyUi = LegacyUi(
    toggled: bool, filteredRows: seq<Row>, hideRows: seq<Row>, filterByExpression: string,
    queryFilter: Option<Props -> bool>, ids: nat, error: bool, errorOpen: bool, msg: Option<Message>,
    display: Display)

  /** Everything the older table keeps between events: the `_selectedOnly`,
      `_filtered` and `_filteredRows` members, the calls made to the feature
      store, the `selectedOnly` flag of every clear request, the map's layer
      list and the React state. */
  datatype LegacyState = LegacyState(
    selectedOnly: bool, filtered: bool, cachedRows: seq<Row>, storeCalls: seq<StoreCall>,
    clearRequests: seq<bool>, mapLayers: seq<MapLayer>, ui: LegacyUi)

  /** The React state the constructor sets up. */
  const InitialUi := LegacyUi(false, [], [], "", None, 0, false, false, None, LegacyInitial)

  /** While a query predicate is stored for the export, the shown rows are the
      ones it accepts and the hidden rows the ones it refuses. */
  ghost predicate Consistent(u: LegacyUi) {
    u.queryFilter.Some? ==>
      && (forall i :: 0 <= i < |u.filteredRows| ==> Matches(u.queryFilter.value, u.filteredRows[i]))
      && (forall i :: 0 <= i < |u.hideRows| ==> Misses(u.queryFilter.value, u.hideRows[i]))
  }

  // ---------------------------------------------------------------------------
  // What the handlers do, as functions of the state before them

  /** The rows a filter run keeps: every candidate for an empty expression,
      else the candidates the parsed predicate accepts, none when the parser
      rejects the expression. */
  function Selected(expression: string, parse: Parser, rows: seq<Row>): seq<Row> {
    if expression == "" then rows else Kept(ParseQuery(parse, expression), rows)
  }

  /** Whether a filter run keeps the row `r`. */
  predicate Admits(expression: string, parse: Parser, r: Row) {
    expression == "" || (ParseQuery(parse, expression).Accepted? && Matches(ParseQuery(parse, expression).test, r))
  }

  /** The error dialog once the parser has answered. The single-layer filter
      wraps the parser's message in the table's error text (`formatted`), the
      all-layers filter shows it as it is. */
  function Reported(u: LegacyUi, parsed: ParseResult, formatted: bool): LegacyUi {
    if parsed.Rejected? then
      u.(errorOpen := true, error := true, msg := Some(if formatted then FilterError(parsed.message) else Raw(parsed.message)))
    else u.(errorOpen := false, error := false)
  }

  /** The close of every filter run: `_filtered` records whether the run
      kept fewer rows than it was given, `_filteredRows` keeps them, and the
      store's filter is set to them. */
  function Settled(s: LegacyState, rows: seq<Row>, kept: seq<Row>): LegacyState {
    s.(filtered := |rows| != |kept|, cachedRows := kept, storeCalls := s.storeCalls + [SetFilter(kept)])
  }

  /** `_filterByText`: the query over the current layer's rows (its selection
      when "selected only" is on). */
  function AfterSingleFilter(s: LegacyState, expression: string, parse: Parser, current: LayerState): LegacyState {
    var rows := SingleLayerRows(s.selectedOnly, current);
    var p := if expression == "" then s else s.(ui := Reported(s.ui, ParseQuery(parse, expression), true));
    Settled(p, rows, Selected(expression, parse, rows))
  }

  /** The start of `_filterAllByText`: every vector layer is shown, the result
      layer of an earlier query is removed, and the expression is recorded
      for the title of a later export. */
  function AllPrepared(s: LegacyState, expression: string): LegacyState {
    s.(mapLayers := Sweep(s.mapLayers, ById, true, true), ui := s.ui.(filterByExpression := expression))
  }

  /** The temporary layer that shows the result of the all-layers query. */
  function ResultLayer(rows: seq<Row>): MapLayer {
    MapLayer(LegacyTempId, FilteredFeaturesTitle, rows, true, true)
  }

  /** An accepted all-layers query: the focus view is switched on, the
      predicate is kept for the export, the candidates are split into shown
      and hidden rows, every vector layer is hidden and the result layer is
      added on top. */
  function ShownAll(p: LegacyState, test: Props -> bool, rows: seq<Row>): LegacyState {
    var shown := Matching(rows, test);
    p.(mapLayers := Sweep(p.mapLayers, ById, false, false) + [ResultLayer(shown)],
       ui := p.ui.(toggled := true, queryFilter := Some(test), filteredRows := shown, hideRows := NotMatching(rows, test)))
  }

  /** `_filterAllByText`, over the features of every layer in the feature store. */
  function AfterAllFilter(s: LegacyState, expression: string, parse: Parser, store: seq<LayerState>): LegacyState {
    var p := AllPrepared(s, expression);
    var rows := AllLayerRows(store);
    var q :=
      if expression == "" then p.(ui := p.ui.(toggled := false))
      else
        var parsed := ParseQuery(parse, expression);
        var r := p.(ui := Reported(p.ui, parsed, false));
        if parsed.Accepted? then ShownAll(r, parsed.test, rows) else r;
    Settled(q, rows, Selected(expression, parse, rows))
  }

  /** The layer an export adds: numbered `n`, titled with the expression. */
  function ExportLayer(n: nat, expression: string, features: seq<Row>): MapLayer {
    MapLayer(NatToString(n), ExportTitle(n, expression), features, true, true)
  }

  /** `_createNewLayerFromQuery`: with a stored predicate, every vector layer
      is hidden, the layer number is increased, the shown rows reduced by the
      export schema (`normalize`, external) are added as a new layer, and
      the focus view and the predicate are reset; without one nothing happens. */
  function Exported(s: LegacyState, normalize: seq<Row> -> seq<Row>): LegacyState {
    if s.ui.queryFilter.None? then s
    else
      var n := s.ui.ids + 1;
      s.(mapLayers := Sweep(s.mapLayers, ById, false, false) + [ExportLayer(n, s.ui.filterByExpression, normalize(s.ui.filteredRows))],
         ui := s.ui.(ids := n, toggled := false, queryFilter := None))
  }

  // ---------------------------------------------------------------------------
  // Properties of the handlers

  /** A filter run keeps exactly the admitted rows, so it keeps all of them
      exactly when every row is admitted. */
  lemma SelectedMeaning(expression: string, parse: Parser, rows: seq<Row>)
    ensures |Selected(expression, parse, rows)| == |rows| <==> forall i :: 0 <= i < |rows| ==> Admits(expression, parse, rows[i])
    ensures forall x :: x in Selected(expression, parse, rows) <==> x in rows && Admits(expression, parse, x)
  {
    if expression != "" {
      var parsed := ParseQuery(parse, expression);
      if parsed.Accepted? {
        MatchingKeepsAll(rows, parsed.test);
        forall x ensures x in Matching(rows, parsed.test) <==> x in rows && Matches(parsed.test, x) {
          MatchingMembership(rows, parsed.test, x);
        }
      } else if rows != [] {
        assert !Admits(expression, parse, rows[0]);
      }
    }
  }

  /** The single-layer query: `_filtered` holds exactly when some candidate is
      not admitted, the store's filter is set to the admitted candidates, and
      the map, the stored predicate and the shown and hidden rows are left
      alone. */
  lemma SingleFilterStore(s: LegacyState, expression: string, parse: Parser, current: LayerState)
    ensures var t := AfterSingleFilter(s, expression, parse, current);
      var rows := SingleLayerRows(s.selectedOnly, current);
      && (t.filtered <==> exists i :: 0 <= i < |rows| && !Admits(expression, parse, rows[i]))
      && (forall x :: x in t.cachedRows <==> x in rows && Admits(expression, parse, x))
      && t.storeCalls == s.storeCalls + [SetFilter(t.cachedRows)]
      && t.mapLayers == s.mapLayers && t.selectedOnly == s.selectedOnly
      && t.ui.(error := s.ui.error, errorOpen := s.ui.errorOpen, msg := s.ui.msg) == s.ui
  {
    SelectedMeaning(expression, parse, SingleLayerRows(s.selectedOnly, current));
  }

  /** The single-layer query's error dialog: an empty expression leaves it as
      it was; a rejected expression opens it with the parser's message in the
      table's error text and sets the store's filter to no row at all; an
      accepted one closes it. */
  lemma SingleFilterDialog(s: LegacyState, expression: string, parse: Parser, current: LayerState)
    ensures var t := AfterSingleFilter(s, expression, parse, current);
      var parsed := ParseQuery(parse, expression);
      && (expression == "" ==> t.ui == s.ui && t.cachedRows == SingleLayerRows(s.selectedOnly, current) && !t.filtered)
      && (expression != "" && parsed.Rejected? ==>
            t.ui.error && t.ui.errorOpen && t.ui.msg == Some(FilterError(parsed.message))
            && t.storeCalls == s.storeCalls + [SetFilter([])])
      && (expression != "" && parsed.Accepted? ==> !t.ui.error && !t.ui.errorOpen && t.ui.msg == s.ui.msg)
  {
  }

  /** The rows the all-layers query hides are the rows a negated predicate matches. */
  function Negated(test: Props -> bool): Props -> bool {
    p => !test(p)
  }

  lemma {:induction false} NotMatchingNegates(rows: seq<Row>, test: Props -> bool)
    ensures NotMatching(rows, test) == Matching(rows, Negated(test))
  {
    if rows != [] {
      NotMatchingNegates(rows[..|rows| - 1], test);
      var last := rows[|rows| - 1];
      assert Misses(test, last) == Matches(Negated(test), last);
    }
  }

  /** An accepted all-layers query: the candidates' non-hole rows are split,
      each as often as it occurs, into the shown rows (those the predicate
      accepts) and the hidden rows, both in candidate order; the store's
      filter is set to the shown rows; and on the map the result layer is the
      only visible vector layer and the only one with the result layer's id. */
  lemma AllFilterAccepted(s: LegacyState, expression: string, parse: Parser, store: seq<LayerState>)
    requires expression != "" && ParseQuery(parse, expression).Accepted?
    ensures var t := AfterAllFilter(s, expression, parse, store);
      var rows := AllLayerRows(store);
      var test := ParseQuery(parse, expression).test;
      && t.ui.toggled && t.ui.queryFilter == Some(test) && !t.ui.error && !t.ui.errorOpen
      && t.ui.filterByExpression == expression
      && multiset(t.ui.filteredRows) + multiset(t.ui.hideRows) == multiset(Present(rows))
      && (forall x :: x in t.ui.filteredRows <==> x in rows && Matches(test, x))
      && Sequences.IsSubsequence(t.ui.filteredRows, rows) && Sequences.IsSubsequence(t.ui.hideRows, rows)
      && t.cachedRows == t.ui.filteredRows && t.storeCalls == s.storeCalls + [SetFilter(t.ui.filteredRows)]
      && t.mapLayers[|t.mapLayers| - 1] == ResultLayer(t.ui.filteredRows)
      && forall i :: 0 <= i < |t.mapLayers| - 1 && t.mapLayers[i].isVector ==>
           !t.mapLayers[i].visible && t.mapLayers[i].id != LegacyTempId
  {
    var rows := AllLayerRows(store);
    var test := ParseQuery(parse, expression).test;
    PartitionCovers(rows, test);
    MatchingIsSubsequence(rows, test);
    NotMatchingNegates(rows, test);
    MatchingIsSubsequence(rows, Negated(test));
    forall x ensures x in Matching(rows, test) <==> x in rows && Matches(test, x) {
      MatchingMembership(rows, test, x);
    }
    ResultLayerAlone(s.mapLayers, ById, ResultLayer(Matching(rows, test)));
  }

  /** A rejected all-layers query opens the dialog with the parser's own
      message and sets the store's filter to no row, but keeps the predicate,
      the shown rows and the hidden rows of the last accepted query, while the
      recorded expression is the rejected one. The map is left with every
      vector layer visible and no result layer. */
  lemma AllFilterRejected(s: LegacyState, expression: string, parse: Parser, store: seq<LayerState>)
    requires expression != "" && ParseQuery(parse, expression).Rejected?
    ensures var t := AfterAllFilter(s, expression, parse, store);
      && t.ui.error && t.ui.errorOpen && t.ui.msg == Some(Raw(ParseQuery(parse, expression).message))
      && t.ui.queryFilter == s.ui.queryFilter && t.ui.filteredRows == s.ui.filteredRows
      && t.ui.hideRows == s.ui.hideRows && t.ui.toggled == s.ui.toggled
      && t.ui.filterByExpression == expression
      && t.cachedRows == [] && t.storeCalls == s.storeCalls + [SetFilter([])]
      && (t.filtered <==> AllLayerRows(store) != [])
      && forall i :: 0 <= i < |t.mapLayers| && t.mapLayers[i].isVector ==>
           t.mapLayers[i].visible && t.mapLayers[i].id != LegacyTempId
  {
    SweepEffect(s.mapLayers, ById, true, true);
  }

  /** An empty expression turns the focus view off, shows every vector layer
      without a result layer, and sets the store's filter to all candidates;
      the stored predicate is left as it was. */
  lemma AllFilterCleared(s: LegacyState, parse: Parser, store: seq<LayerState>)
    ensures var t := AfterAllFilter(s, "", parse, store);
      && !t.ui.toggled && t.ui.queryFilter == s.ui.queryFilter && t.ui.filterByExpression == ""
      && !t.filtered && t.cachedRows == AllLayerRows(store)
      && t.storeCalls == s.storeCalls + [SetFilter(AllLayerRows(store))]
      && forall i :: 0 <= i < |t.mapLayers| && t.mapLayers[i].isVector ==>
           t.mapLayers[i].visible && t.mapLayers[i].id != LegacyTempId
  {
    SweepEffect(s.mapLayers, ById, true, true);
  }

  /** Every handler keeps the stored predicate in agreement with the shown and
      hidden rows. */
  lemma AfterSingleFilterConsistent(s: LegacyState, expression: string, parse: Parser, current: LayerState)
    requires Consistent(s.ui)
    ensures Consistent(AfterSingleFilter(s, expression, parse, current).ui)
  {
  }

  lemma AfterAllFilterConsistent(s: LegacyState, expression: string, parse: Parser, store: seq<LayerState>)
    requires Consistent(s.ui)
    ensures Consistent(AfterAllFilter(s, expression, parse, store).ui)
  {
  }

  lemma ExportedConsistent(s: LegacyState, normalize: seq<Row> -> seq<Row>)
    requires Consistent(s.ui)
    ensures Consistent(Exported(s, normalize).ui)
  {
  }

  /** The export works once per query: it drops the predicate, so a second
      click changes nothing. */
  lemma ExportOnce(s: LegacyState, normalize: seq<Row> -> seq<Row>)
    ensures Exported(Exported(s, normalize), normalize) == Exported(s, normalize)
    ensures Exported(s, normalize) != s <==> s.ui.queryFilter.Some?
  {
    if s.ui.queryFilter.Some? {
      assert Exported(s, normalize).ui.ids != s.ui.ids;
    }
  }

  /** Exporting right after an accepted all-layers query adds, as layer
      `ids + 1` titled with the query, the matching rows of every layer
      reduced by the export schema; the result layer stays on the map,
      hidden. */
  lemma ExportAfterQuery(s: LegacyState, expression: string, parse: Parser, store: seq<LayerState>,
                         normalize: seq<Row> -> seq<Row>)
    requires expression != "" && ParseQuery(parse, expression).Accepted?
    ensures var t := AfterAllFilter(s, expression, parse, store);
      var x := Exported(t, normalize);
      var rows := Matching(AllLayerRows(store), ParseQuery(parse, expression).test);
      && x.ui.ids == s.ui.ids + 1 && x.ui.queryFilter.None? && !x.ui.toggled
      && x.mapLayers[|x.mapLayers| - 1] == ExportLayer(s.ui.ids + 1, expression, normalize(rows))
      && ResultLayer(rows).(visible := false) in x.mapLayers
  {
    var t := AfterAllFilter(s, expression, parse, store);
    var rows := Matching(AllLayerRows(store), ParseQuery(parse, expression).test);
    SweepKeepsPositions(t.mapLayers, ById, false);
    var k := |t.mapLayers| - 1;
    assert t.mapLayers[k] == ResultLayer(rows);
    assert Exported(t, normalize).mapLayers[k] == ResultLayer(rows).(visible := false);
  }

  /** After a rejected all-layers query that followed an accepted one, the
      export still adds the earlier query's rows, but titles them with the
      rejected expression. */
  lemma ExportAfterRejected(s: LegacyState, expression: string, parse: Parser, store: seq<LayerState>,
                            normalize: seq<Row> -> seq<Row>)
    requires s.ui.queryFilter.Some?
    requires expression != "" && ParseQuery(parse, expression).Rejected?
    ensures var x := Exported(AfterAllFilter(s, expression, parse, store), normalize);
      x.mapLayers[|x.mapLayers| - 1] == ExportLayer(s.ui.ids + 1, expression, normalize(s.ui.filteredRows))
  {
    AllFilterRejected(s, expression, parse, store);
  }

  // ---------------------------------------------------------------------------
  // The component

  class FeatureTableTab {
    var selectedOnly: bool
    var filtered: bool
    var cachedRows: seq<Row>
    var storeCalls: seq<StoreCall>
    var clearRequests: seq<bool>
    var mapLayers: seq<MapLayer>
    var state: LegacyUi

    ghost function State(): LegacyState
      reads this
    {
      LegacyState(selectedOnly, filtered, cachedRows, storeCalls, clearRequests, mapLayers, state)
    }

    ghost predicate Valid()
      reads this
    {
      Consistent(state)
    }

    constructor(layers: seq<MapLayer>)
      ensures Valid()
      ensures State() == LegacyState(false, false, [], [], [], layers, InitialUi)
    {
      selectedOnly := false;
      filtered := false;
      cachedRows := [];
      storeCalls := [];
      clearRequests := [];
      mapLayers := layers;
      state := InitialUi;
    }

    /** `_filter`: the "selected only" box, followed by `_updateStoreFilter`. */
    method Filter(checked: bool)
      requires Valid()
      modifies this
      ensures Valid()
      ensures State() == old(State()).(selectedOnly := checked,
                                       storeCalls := old(storeCalls) + [StoreFilterCall(old(filtered), checked, old(cachedRows))])
    {
      selectedOnly := checked;
      UpdateStoreFilter();
    }

    /** `_updateStoreFilter`: re-applies the last query's rows when it dropped
      some, else the selection or the original features. */
    method UpdateStoreFilter()
      modifies this
      ensures State() == old(State()).(storeCalls := old(storeCalls) + [StoreFilterCall(old(filtered), old(selectedOnly), old(cachedRows))])
    {
      var call := if !filtered then (if selectedOnly then SetSelectedAsFilter else RestoreOriginalFeatures)
                  else SetFilter(cachedRows);
      storeCalls := storeCalls + [call];
    }

    /** `_clearSelected`: asks the selection to be cleared, with the current
      "selected only" flag, when something is selected. */
    method ClearSelected(selected: seq<Row>)
      requires Valid()
      modifies this
      ensures Valid()
      ensures State() == old(State()).(clearRequests := old(clearRequests) + if |selected| > 0 then [old(selectedOnly)] else [])
    {
      if |selected| > 0 {
        clearRequests := clearRequests + [selectedOnly];
      }
    }

    /** The parse and the push loop of a filter run, on values only. */
    static method ParseAndMatch(parse: Parser, expression: string, rows: seq<Row>) returns (parsed: ParseResult, kept: seq<Row>)
      ensures parsed == ParseQuery(parse, expression)
      ensures kept == Kept(parsed, rows)
    {
      parsed := parse(Unquote(expression));
      kept := [];
      if parsed.Accepted? {
        kept := FilterRows(rows, parsed.test);
      }
    }

    /** The dialog writes made once the parser has answered. */
    method Report(parsed: ParseResult, formatted: bool)
      modifies this
      ensures State() == old(State()).(ui := Reported(old(State()).ui, parsed, formatted))
    {
      if parsed.Rejected? {
        state := state.(errorOpen := true, error := true,
                        msg := Some(if formatted then FilterError(parsed.message) else Raw(parsed.message)));
      } else {
        state := state.(errorOpen := false, error := false);
      }
    }

    /** The last three statements of both filter handlers. */
    method Settle(rows: seq<Row>, kept: seq<Row>)
      modifies this
      ensures State() == Settled(old(State()), rows, kept)
    {
      filtered := |rows| != |kept|;
      cachedRows := kept;
      storeCalls := storeCalls + [SetFilter(kept)];
    }

    /** `_filterByText`. */
    method FilterByText(expression: string, parse: Parser, current: LayerState)
      requires Valid()
      modifies this
      ensures Valid()
      ensures State() == AfterSingleFilter(old(State()), expression, parse, current)
    {
      ghost var s := State();
      var rows := if selectedOnly then current.selected else current.features;
      var kept := rows;
      if expression != "" {
        var parsed;
        parsed, kept := ParseAndMatch(parse, expression, rows);
        Report(parsed, true);
      }
      Settle(rows, kept);
      AfterSingleFilterConsistent(s, expression, parse, current);
    }

    /** The sweep over the map's layers and the recording of the expression
      that open `_filterAllByText`. */
    method PrepareAll(expression: string)
      modifies this
      ensures State() == AllPrepared(old(State()), expression)
    {
      mapLayers := SweepLayers(mapLayers, ById, true, true);
      state := state.(filterByExpression := expression);
    }

    /** The writes of an accepted all-layers query. */
    method ShowAll(test: Props -> bool, rows: seq<Row>, shown: seq<Row>, hidden: seq<Row>)
      requires shown == Matching(rows, test) && hidden == NotMatching(rows, test)
      modifies this
      ensures State() == ShownAll(old(State()), test, rows)
    {
      var layers := SweepLayers(mapLayers, ById, false, false);
      mapLayers := layers + [ResultLayer(shown)];
      state := state.(toggled := true, queryFilter := Some(test), filteredRows := shown, hideRows := hidden);
    }

    /** The focus view switched off by an empty all-layers expression. */
    method LeaveFocus()
      modifies this
      ensures State() == old(State()).(ui := old(State()).ui.(toggled := false))
    {
      state := state.(toggled := false);
    }

    /** `_filterAllByText`; `store` is the feature store once every vector
      layer of the map has been added to it. */
    method FilterAllByText(expression: string, parse: Parser, store: seq<LayerState>)
      requires Valid()
      modifies this
      ensures Valid()
      ensures State() == AfterAllFilter(old(State()), expression, parse, store)
    {
      ghost var s := State();
      PrepareAll(expression);
      var rows := CollectAllLayerRows(store);
      var kept := rows;
      if expression != "" {
        var parsed := parse(Unquote(expression));
        Report(parsed, false);
        if parsed.Accepted? {
          var hidden;
          kept, hidden := PartitionRows(rows, parsed.test);
          ShowAll(parsed.test, rows, kept, hidden);
        } else {
          kept := [];
        }
      } else {
        LeaveFocus();
      }
      Settle(rows, kept);
      AfterAllFilterConsistent(s, expression, parse, store);
    }

    /** `_createNewLayerFromQuery`. */
    method CreateNewLayerFromQuery(normalize: seq<Row> -> seq<Row>)
      requires Valid()
      modifies this
      ensures Valid()
      ensures State() == Exported(old(State()), normalize)
    {
      if state.queryFilter.Some? {
        var layers := SweepLayers(mapLayers, ById, false, false);
        var n := state.ids + 1;
        var features := normalize(state.filteredRows);
        mapLayers := layers + [ExportLayer(n, state.filterByExpression, features)];
        state := state.(ids := n, toggled := false, queryFilter := None);
      }
    }

    /** `handleToggle`: switches the focus view on or off. */
    method HandleToggle()
      requires Valid()
      modifies this
      ensures Valid()
      ensures State() == old(State()).(ui := old(state).(toggled := !old(state.toggled)))
    {
      state := state.(toggled := !state.toggled);
    }

    /** `_handleRequestClose`: the error snackbar is dismissed; the error flag
        and the message stay. */
    method HandleRequestClose()
      requires Valid()
      modifies this
      ensures Valid()
      ensures State() == old(State()).(ui := old(state).(errorOpen := false))
    {
      state := state.(errorOpen := false);
    }

    /** `tablefullscreentoggle`. */
    method TableFullscreenToggle()
      requires Valid()
      modifies this
      ensures Valid()
      ensures State() == old(State()).(ui := old(state).(display := Toggle(old(state.display))))
    {
      state := state.(display := Toggle(state.display));
    }
  }
}
