/** The current feature table (`FeatureTableTab`): the query built from a key,
    an operator and a value, its result shown as a temporary layer on the
    map, the export of that result as a new layer, and the paging and
    display handlers.

    React's `setState` is modelled as an update of the `state` record in
    program order; every handler ends with the state its last write leaves. */
module FeatureTable {
  import opened Common
  import opened Query
  import opened MapLayers
  import opened TableView

  /** How one run of the query ends. */
  datatype FilterOutcome = Incomplete | NoResults | Found(rows: seq<Row>, test: Props -> bool)

  /** The decision `_filterByText` takes: an incomplete input stops it; else
      the assembled expression (single quotes turned into double ones) is
      parsed, and the matching rows, if any, are the result. A rejected
      expression leaves no rows and so ends as "no results". */
  function Outcome(key: string, operator: string, value: string, parse: Parser, rows: seq<Row>): FilterOutcome {
    if !Complete(key, operator, value) then Incomplete
    else
      var parsed := ParseQuery(parse, Expression(key, operator, value));
      var kept := Kept(parsed, rows);
      if kept == [] then NoResults else Found(kept, parsed.test)
  }

  /** The three endings, each characterised in both directions. */
  lemma OutcomeCases(key: string, operator: string, value: string, parse: Parser, rows: seq<Row>)
    ensures var o := Outcome(key, operator, value, parse, rows);
      var parsed := ParseQuery(parse, Expression(key, operator, value));
      (o == Incomplete <==> !Complete(key, operator, value))
      && (o == NoResults <==>
            Complete(key, operator, value)
            && (parsed.Rejected? || forall i :: 0 <= i < |rows| ==> !Matches(parsed.test, rows[i])))
      && (o.Found? <==>
            Complete(key, operator, value) && parsed.Accepted?
            && exists i :: 0 <= i < |rows| && Matches(parsed.test, rows[i]))
      && (o.Found? ==> o.rows == Matching(rows, parsed.test) && o.rows != [] && o.test == parsed.test)
  {
    var parsed := ParseQuery(parse, Expression(key, operator, value));
    if parsed.Accepted? {
      MatchingEmpty(rows, parsed.test);
    }
  }

  /** The rows of a found result are the matching rows of the candidates, in
      their order, each one a feature the predicate accepts. */
  lemma FoundRows(key: string, operator: string, value: string, parse: Parser, rows: seq<Row>)
    requires Outcome(key, operator, value, parse, rows).Found?
    ensures var kept := Outcome(key, operator, value, parse, rows).rows;
      var test := ParseQuery(parse, Expression(key, operator, value)).test;
      kept != [] && Sequences.IsSubsequence(kept, rows)
      && forall x :: x in kept <==> x in rows && Matches(test, x)
  {
    var test := ParseQuery(parse, Expression(key, operator, value)).test;
    MatchingIsSubsequence(rows, test);
    forall x ensures x in Matching(rows, test) <==> x in rows && Matches(test, x) {
      MatchingMembership(rows, test, x);
    }
  }

  /** The keys of the component's React state (`this.state`) that the query,
      paging and display handlers read and write. */
  datatype UiState = UiState(
    searchText: string, operator: string, searchText2: string, menuValue: nat, filterAllActive: bool,
    filterActive: bool, toggled: bool, filterByExpression: string, filteredRows: seq<Row>,
    featuresFromAllLayers: seq<Row>, queryFilter: Option<Props -> bool>, ids: nat,
    error: bool, errorOpen: bool, msg: Option<Message>, infoFilterOpen: bool, infoFilterInProgress: bool,
    page: Option<nat>, pageSize: nat, pages: PageTotal, loading: bool, display: Display)

  /** Everything the table keeps between events: the `_counter`,
      `_selectedOnly` and `_layer` members, the store calls made so far, the
      map's layer list and the React state. */
  datatype TableState = TableState(
    counter: nat, selectedOnly: bool, layer: Option<LayerRef>, listeners: seq<Option<string>>,
    storeCalls: seq<StoreCall>, mapLayers: seq<MapLayer>, ui: UiState)

  /** The React state the constructor sets up. */
  function InitialUi(pageSize: nat): UiState {
    UiState("", "", "", 1, false,
      false, false, "", [], [], None, 0,
      false, false, None, false, false,
      None, pageSize, Unknown, false, CurrentInitial)
  }

  /** An active query result is the result of the inputs on display: they are
      complete, the expression is theirs, and every kept row is a feature that
      the stored predicate accepts. */
  ghost predicate Consistent(u: UiState) {
    u.filterActive ==>
      && Complete(u.searchText, u.operator, u.searchText2)
      && u.filterByExpression == Expression(u.searchText, u.operator, u.searchText2)
      && u.queryFilter.Some?
      && u.filteredRows != []
      && forall i :: 0 <= i < |u.filteredRows| ==> Matches(u.queryFilter.value, u.filteredRows[i])
  }

  /** The React state a query run that cannot show a result leaves. */
  function Unfound(u: UiState, message: Message): UiState {
    u.(infoFilterOpen := false, infoFilterInProgress := false, errorOpen := true, error := true,
       msg := Some(message), filterActive := false)
  }

  /** The state `_filterByText` reaches before it looks at the rows: the
      earlier temporary layers are gone, every vector layer is shown again
      and, with the all-layers box ticked, every layer's rows are collected. */
  ghost function Swept(s: TableState, store: seq<LayerState>): TableState {
    s.(mapLayers := Sweep(s.mapLayers, ByTitle, true, true),
       ui := s.ui.(featuresFromAllLayers :=
                     if s.ui.filterAllActive then AllLayerRows(store) else s.ui.featuresFromAllLayers))
  }

  /** The expression on record once a query run has looked at the inputs:
      a complete input's own expression, else the earlier one. */
  function RecordedExpression(u: UiState): string {
    if Complete(u.searchText, u.operator, u.searchText2)
    then Expression(u.searchText, u.operator, u.searchText2) else u.filterByExpression
  }

  /** The state a query run reaches before its ending is decided. */
  function Recorded(s: TableState): TableState {
    s.(ui := s.ui.(filterByExpression := RecordedExpression(s.ui)))
  }

  /** An incomplete input leaves the recorded expression as it was. */
  lemma RecordedIncomplete(s: TableState)
    requires !Complete(s.ui.searchText, s.ui.operator, s.ui.searchText2)
    ensures Recorded(s) == s
  {
  }

  /** The ending a query run from state `s` comes to on the rows `rows`. */
  function OutcomeOf(s: TableState, parse: Parser, rows: seq<Row>): FilterOutcome {
    Outcome(s.ui.searchText, s.ui.operator, s.ui.searchText2, parse, rows)
  }

  /** How a query run ends, from the prepared state `p`: a found result is
      shown alone on the map, as a new temporary layer that the table
      switches to and whose rows the outcome's predicate accepts; otherwise the
      message says why there is none. */
  function Concluded(p: TableState, o: FilterOutcome): TableState {
    match o
    case Incomplete => p.(ui := Unfound(p.ui, IncompleteNotice))
    case NoResults => p.(ui := Unfound(p.ui, NoResultsNotice).(toggled := false))
    case Found(kept, test) =>
      var n := p.counter + 1;
      p.(counter := n,
         mapLayers := Sweep(p.mapLayers, ByTitle, false, false)
                      + [MapLayer(TempId(n), FilteredFeaturesTitle, kept, true, true)],
         layer := Some(LayerRef(Some(TempId(n)), None)), listeners := p.listeners + [Some(TempId(n))],
         ui := p.ui.(
           filteredRows := kept, queryFilter := Some(test),
           filterActive := true, infoFilterOpen := true, infoFilterInProgress := true,
           error := false, errorOpen := false,
           toggled := p.ui.filterAllActive || p.ui.toggled))
  }

  /** Every ending overwrites the error flags and the message that the
      parse step sets, except that a found result keeps the message. */
  lemma ConcludedForgetsMessages(p: TableState, q: TableState, o: FilterOutcome, e: bool, m: Option<Message>)
    requires q == p.(ui := p.ui.(error := e, errorOpen := e, msg := m))
    requires o.Found? ==> !e && m == p.ui.msg
    ensures Concluded(q, o) == Concluded(p, o)
  {
  }

  /** The state a run of `_filterByText` leaves, from the state `s` it starts in. */
  ghost function AfterFilter(s: TableState, parse: Parser, store: seq<LayerState>, current: LayerState): TableState {
    var rows := CandidateRows(s.ui.filterAllActive, s.selectedOnly, store, current);
    Concluded(Recorded(Swept(s, store)), OutcomeOf(s, parse, rows))
  }

  /** A query run always leaves a consistent state, whatever state it starts in. */
  lemma AfterFilterConsistent(s: TableState, parse: Parser, store: seq<LayerState>, current: LayerState)
    ensures Consistent(AfterFilter(s, parse, store, current).ui)
  {
    var rows := CandidateRows(s.ui.filterAllActive, s.selectedOnly, store, current);
    OutcomeCases(s.ui.searchText, s.ui.operator, s.ui.searchText2, parse, rows);
  }

  /** A query run leaves an active result exactly when it found rows, and
      then the map shows that result alone; otherwise the message says why
      and every vector layer is shown, none of them a temporary one. */
  lemma AfterFilterShowsResult(s: TableState, parse: Parser, store: seq<LayerState>, current: LayerState)
    ensures var rows := CandidateRows(s.ui.filterAllActive, s.selectedOnly, store, current);
      var o := Outcome(s.ui.searchText, s.ui.operator, s.ui.searchText2, parse, rows);
      var t := AfterFilter(s, parse, store, current);
      (t.ui.filterActive <==> o.Found?)
      && (t.ui.filterActive ==>
            t.counter == s.counter + 1 && t.ui.filteredRows == o.rows
            && t.mapLayers[|t.mapLayers| - 1] == MapLayer(TempId(t.counter), FilteredFeaturesTitle, o.rows, true, true)
            && forall i :: 0 <= i < |t.mapLayers| - 1 && t.mapLayers[i].isVector ==>
                 !t.mapLayers[i].visible && t.mapLayers[i].title != FilteredFeaturesTitle)
      && (!t.ui.filterActive ==>
            t.counter == s.counter && t.ui.error && t.ui.errorOpen
            && t.ui.msg == Some(if o == Incomplete then IncompleteNotice else NoResultsNotice)
            && forall i :: 0 <= i < |t.mapLayers| && t.mapLayers[i].isVector ==>
                 t.mapLayers[i].visible && t.mapLayers[i].title != FilteredFeaturesTitle)
  {
    var rows := CandidateRows(s.ui.filterAllActive, s.selectedOnly, store, current);
    var o := Outcome(s.ui.searchText, s.ui.operator, s.ui.searchText2, parse, rows);
    var p := Recorded(Swept(s, store));
    assert p.counter == s.counter && p.mapLayers == Sweep(s.mapLayers, ByTitle, true, true);
    assert AfterFilter(s, parse, store, current) == Concluded(p, o);
    ConcludedShows(p, o);
    if o.Found? {
      FoundResultShownAlone(s.mapLayers, s.counter + 1, o.rows);
    } else {
      SweepEffect(s.mapLayers, ByTitle, true, true);
    }
  }

  /** What each ending does to the counter, the map and the messages. */
  lemma ConcludedShows(p: TableState, o: FilterOutcome)
    ensures var t := Concluded(p, o);
      (t.ui.filterActive <==> o.Found?)
      && (o.Found? ==>
            t.counter == p.counter + 1 && t.ui.filteredRows == o.rows
            && t.mapLayers == Sweep(p.mapLayers, ByTitle, false, false)
                              + [MapLayer(TempId(t.counter), FilteredFeaturesTitle, o.rows, true, true)])
      && (!o.Found? ==>
            t.counter == p.counter && t.mapLayers == p.mapLayers && t.ui.error && t.ui.errorOpen
            && t.ui.msg == Some(if o == Incomplete then IncompleteNotice else NoResultsNotice))
  {
  }

  // ---------------------------------------------------------------------------
  // The feature-count listeners of `_setLayer`

  /** The listeners left once every listener of `target` has fired. */
  function Unlisten(ids: seq<Option<string>>, target: Option<string>): seq<Option<string>> {
    if ids == [] then []
    else Unlisten(ids[..|ids| - 1], target) + (if ids[|ids| - 1] == target then [] else [ids[|ids| - 1]])
  }

  lemma {:induction false} UnlistenMembership(ids: seq<Option<string>>, target: Option<string>, x: Option<string>)
    ensures x in Unlisten(ids, target) <==> x in ids && x != target
  {
    if ids != [] {
      UnlistenMembership(ids[..|ids| - 1], target, x);
      assert ids == ids[..|ids| - 1] + [ids[|ids| - 1]];
    }
  }

  /** `_setLayer`: the table shows `l`, and a layer whose feature count is
      not known yet (0 or unset) gets a one-time listener for it. */
  function LayerSet(s: TableState, l: Option<LayerRef>): TableState {
    s.(layer := l, listeners := s.listeners + if l.Some? && CountUnknown(l.value.numberOfFeatures) then [l.value.id] else [])
  }

  /** The count of layer `target` becomes `n`. Its listeners fire once and are
      gone; a listener sets the page count from the count of the layer the
      table shows when it fires, not of the layer it was registered on. With
      no layer shown, the listener throws before it writes. */
  function CountChanged(s: TableState, target: Option<string>, n: nat): TableState {
    var layer := if s.layer.Some? && s.layer.value.id == target then Some(s.layer.value.(numberOfFeatures := Some(n))) else s.layer;
    var t := s.(layer := layer, listeners := Unlisten(s.listeners, target));
    if target in s.listeners && layer.Some? then t.(ui := t.ui.(pages := CountPages(layer.value.numberOfFeatures, t.ui.pageSize)))
    else t
  }

  /** A count event consumes exactly the listeners of its layer. It sets the
      page count if and only if that layer held a listener and a layer is
      shown, and then from the shown layer's count: `NaN` while that count is
      unset, the new count when the shown layer is the one that fired.
      Nothing else changes. */
  lemma CountEventEffect(s: TableState, target: Option<string>, n: nat)
    ensures var t := CountChanged(s, target, n);
      (forall x :: x in t.listeners <==> x in s.listeners && x != target)
      && (target !in s.listeners || s.layer.None? ==> t.ui == s.ui)
      && (target in s.listeners && s.layer.Some? ==>
            t.ui == s.ui.(pages := CountPages(t.layer.value.numberOfFeatures, s.ui.pageSize)))
      && (target in s.listeners && s.layer.Some? && t.layer.value.numberOfFeatures.None? ==> t.ui.pages == NotANumber)
      && (target in s.listeners && s.layer.Some? && t.layer.value.numberOfFeatures.Some? ==>
            t.ui.pages == CeilDiv(t.layer.value.numberOfFeatures.value, s.ui.pageSize))
      && (target in s.listeners && s.layer.Some? && s.layer.value.id == target ==> t.ui.pages == CeilDiv(n, s.ui.pageSize))
      && (s.layer.Some? && s.layer.value.id == target ==> t.layer == Some(s.layer.value.(numberOfFeatures := Some(n))))
      && (s.layer.None? || s.layer.value.id != target ==> t.layer == s.layer)
      && t.counter == s.counter && t.mapLayers == s.mapLayers && t.storeCalls == s.storeCalls
  {
    forall x ensures x in Unlisten(s.listeners, target) <==> x in s.listeners && x != target {
      UnlistenMembership(s.listeners, target, x);
    }
  }

  /** A listener stays with the layer it was registered on: after switching
      from a layer `a` of unknown count to a layer `b` of known count, a count
      event of `b` leaves the page count alone, while one of `a` sets it from
      `b`'s count. */
  lemma ListenerStaysWithItsLayer(s: TableState, a: LayerRef, b: LayerRef, n: nat)
    requires a.id != b.id && b.id !in s.listeners
    requires CountUnknown(a.numberOfFeatures) && b.numberOfFeatures.Some? && b.numberOfFeatures.value > 0
    ensures var t := LayerSet(LayerSet(s, Some(a)), Some(b));
      CountChanged(t, b.id, n).ui == t.ui
      && CountChanged(t, a.id, n).ui == t.ui.(pages := CeilDiv(b.numberOfFeatures.value, t.ui.pageSize))
  {
    var t := LayerSet(LayerSet(s, Some(a)), Some(b));
    assert t.listeners == s.listeners + [a.id];
  }

  /** When the table has moved on to a layer whose count is unset, a count
      event of the layer it left reads that unset count: the page count
      becomes `NaN`. */
  lemma StaleListenerGivesNaN(s: TableState, a: LayerRef, b: LayerRef, n: nat)
    requires a.id != b.id && CountUnknown(a.numberOfFeatures) && b.numberOfFeatures.None?
    ensures var t := LayerSet(LayerSet(s, Some(a)), Some(b));
      CountChanged(t, a.id, n).ui.pages == NotANumber
      && b.id in CountChanged(t, a.id, n).listeners
  {
    var t := LayerSet(LayerSet(s, Some(a)), Some(b));
    assert t.listeners == s.listeners + [a.id] + [b.id];
    UnlistenMembership(t.listeners, a.id, b.id);
  }

  /** The temporary layer of a found result has no feature count, so a late
      count event of the layer shown before the query sets the page count to
      `NaN`. */
  lemma FoundResultMakesListenerNaN(s: TableState, a: LayerRef, kept: seq<Row>, test: Props -> bool, n: nat)
    requires CountUnknown(a.numberOfFeatures) && a.id != Some(TempId(s.counter + 1))
    ensures var t := Concluded(LayerSet(s, Some(a)), Found(kept, test));
      CountChanged(t, a.id, n).ui.pages == NotANumber
  {
    var p := LayerSet(s, Some(a));
    assert a.id in p.listeners;
  }

  class FeatureTableTab {
    /** `_counter`: how many temporary result layers have been created. */
    var counter: nat
    var selectedOnly: bool
    /** `_layer`: the layer the table shows. */
    var layer: Option<LayerRef>
    /** The ids of the layers that hold a `change:numberOfFeatures` listener
        not fired yet, one entry per listener. */
    var listeners: seq<Option<string>>
    /** The calls `_updateStoreFilter` has made on FeatureStore, oldest first. */
    var storeCalls: seq<StoreCall>
    /** The map's flat layer list. */
    var mapLayers: seq<MapLayer>
    /** `this.state`; every `setState` is an update of this record. */
    var state: UiState

    ghost function State(): TableState
      reads this
    {
      TableState(counter, selectedOnly, layer, listeners, storeCalls, mapLayers, state)
    }

    ghost predicate Valid()
      reads this
    {
      Consistent(state)
    }

    constructor(initialPageSize: nat, layers: seq<MapLayer>)
      ensures Valid()
      ensures State() == TableState(0, false, None, [], [], layers, InitialUi(initialPageSize))
    {
      counter := 0;
      selectedOnly := false;
      layer := None;
      listeners := [];
      storeCalls := [];
      mapLayers := layers;
      state := InitialUi(initialPageSize);
    }

    /** The end of a query run that found rows, after the accepted
        expression has cleared the error: every vector layer is hidden and a
        new temporary layer holding the rows becomes the table's layer. */
    method ShowFound(kept: seq<Row>, test: Props -> bool)
      requires kept != [] && !state.error && !state.errorOpen
      modifies this
      ensures State() == Concluded(old(State()), Found(kept, test))
    {
      mapLayers := SweepLayers(mapLayers, ByTitle, false, false);
      counter := counter + 1;
      var temp := MapLayer(TempId(counter), FilteredFeaturesTitle, kept, true, true);
      mapLayers := mapLayers + [temp];
      layer := Some(LayerRef(Some(temp.id), None));
      listeners := listeners + [Some(temp.id)];
      state := state.(filteredRows := kept, infoFilterOpen := true, infoFilterInProgress := true);
      state := state.(queryFilter := Some(test), filterActive := true);
      if state.filterAllActive {
        state := state.(toggled := true);
      }
    }

    /** The end of a query run that shows no result; a run that got as far
        as the rows also switches the preview columns off. */
    method ShowNoResult(o: FilterOutcome)
      requires !o.Found?
      modifies this
      ensures State() == Concluded(old(State()), o)
    {
      state := Unfound(state, if o == Incomplete then IncompleteNotice else NoResultsNotice);
      if o == NoResults {
        state := state.(toggled := false);
      }
    }

    /** The end of a query run, whichever way it comes out. */
    method ShowOutcome(o: FilterOutcome)
      requires o.Found? ==> o.rows != [] && !state.error && !state.errorOpen
      modifies this
      ensures State() == Concluded(old(State()), o)
    {
      if o.Found? {
        ShowFound(o.rows, o.test);
      } else {
        ShowNoResult(o);
      }
    }

    /** The first part of `_filterByText`: the sweep over the map's layers
        and the choice of the rows the query runs over. */
    method PrepareRows(store: seq<LayerState>, current: LayerState) returns (rows: seq<Row>)
      modifies this
      ensures rows == CandidateRows(old(state.filterAllActive), old(selectedOnly), store, current)
      ensures State() == Swept(old(State()), store)
    {
      mapLayers := SweepLayers(mapLayers, ByTitle, true, true);
      if state.filterAllActive {
        rows := CollectAllLayerRows(store);
        state := state.(featuresFromAllLayers := rows);
      } else {
        rows := if selectedOnly then current.selected else current.features;
      }
    }

    /** The parse step of `_filterByText`: the expression of a complete
        input, single quotes turned into double ones, is handed to the
        parser, an accepted predicate is run over the rows, and the rows it
        keeps decide the ending. */
    static method ParseAndFilter(parse: Parser, key: string, operator: string, value: string, rows: seq<Row>)
      returns (parsed: ParseResult, ending: FilterOutcome)
      requires Complete(key, operator, value)
      ensures parsed == ParseQuery(parse, Expression(key, operator, value))
      ensures ending == Outcome(key, operator, value, parse, rows)
      ensures ending.Found? ==> parsed.Accepted? && ending.rows != []
    {
      parsed := parse(Unquote(Expression(key, operator, value)));
      var kept: seq<Row> := [];
      if parsed.Accepted? {
        kept := FilterRows(rows, parsed.test);
      }
      ending := if |kept| > 0 then Found(kept, parsed.test) else NoResults;
    }

    /** The `setState` calls of the parse step, batched by React: the
        expression of a complete input is recorded, and the error flags and
        message say whether the parser rejected it. */
    method RecordParse(expression: string, rejected: bool, m: Option<Message>)
      requires Complete(state.searchText, state.operator, state.searchText2)
      requires expression == Expression(state.searchText, state.operator, state.searchText2)
      modifies this
      ensures State() == Recorded(old(State())).(ui := Recorded(old(State())).ui.(error := rejected, errorOpen := rejected, msg := m))
    {
      state := state.(filterByExpression := expression, errorOpen := rejected, error := rejected, msg := m);
    }

    /** `_filterByText` on a complete input: the assembled expression is
        parsed and run over `rows`, and the run ends with the rows found or
        with "no results". */
    method RunExpression(parse: Parser, rows: seq<Row>)
      requires Complete(state.searchText, state.operator, state.searchText2)
      modifies this
      ensures State() == Concluded(Recorded(old(State())), OutcomeOf(old(State()), parse, rows))
    {
      ghost var s := State();
      var parsed, ending := ParseAndFilter(parse, state.searchText, state.operator, state.searchText2, rows);
      var rejected := parsed.Rejected?;
      var m := if rejected then Some(FilterError(parsed.message)) else state.msg;
      RecordParse(Expression(state.searchText, state.operator, state.searchText2), rejected, m);
      ConcludedForgetsMessages(Recorded(s), State(), ending, rejected, m);
      ShowOutcome(ending);
    }

    /** The second part of `_filterByText`: an incomplete input ends the run
        at once; a complete one is run as an expression. */
    method RunQuery(parse: Parser, rows: seq<Row>)
      modifies this
      ensures State() == Concluded(Recorded(old(State())), OutcomeOf(old(State()), parse, rows))
    {
      if state.searchText != "" && state.operator != "" && state.searchText2 != "" {
        RunExpression(parse, rows);
      } else {
        RecordedIncomplete(State());
        ShowOutcome(Incomplete);
      }
    }

    /** `_filterByText`. `parse` is FilterService; `store` is
        `FeatureStore.getState()` and `current` its entry for the current layer. */
    method FilterByText(parse: Parser, store: seq<LayerState>, current: LayerState)
      modifies this
      ensures Valid()
      ensures State() == AfterFilter(old(State()), parse, store, current)
    {
      ghost var s := State();
      var rows := PrepareRows(store, current);
      RunQuery(parse, rows);
      AfterFilterConsistent(s, parse, store, current);
    }

    /** `handleUpdateInput`: a new key, then a query run. */
    method HandleUpdateInput(text: string, parse: Parser, store: seq<LayerState>, current: LayerState)
      modifies this
      ensures Valid()
      ensures State() == AfterFilter(old(State()).(ui := old(state).(searchText := text)), parse, store, current)
    {
      state := state.(searchText := text);
      FilterByText(parse, store, current);
    }

    /** `handleUpdateInput2`: a new value, then a query run. */
    method HandleUpdateInput2(text: string, parse: Parser, store: seq<LayerState>, current: LayerState)
      modifies this
      ensures Valid()
      ensures State() == AfterFilter(old(State()).(ui := old(state).(searchText2 := text)), parse, store, current)
    {
      state := state.(searchText2 := text);
      FilterByText(parse, store, current);
    }

    /** `handleChange`: a new operator from the menu (its item's text), then a query run. */
    method HandleChange(value: nat, operatorText: string, parse: Parser, store: seq<LayerState>, current: LayerState)
      modifies this
      ensures Valid()
      ensures State() == AfterFilter(old(State()).(ui := old(state).(menuValue := value, operator := operatorText)),
                                     parse, store, current)
    {
      state := state.(menuValue := value, operator := operatorText);
      FilterByText(parse, store, current);
    }

    /** `_clearSelected`: empties key and value and resets the menu; the query
        run that follows always ends as incomplete and shows every layer again. */
    method ClearSelected(parse: Parser, store: seq<LayerState>, current: LayerState)
      modifies this
      ensures Valid()
      ensures State() == AfterFilter(old(State()).(ui := old(state).(searchText2 := "", searchText := "", menuValue := 1)),
                                     parse, store, current)
      ensures !state.filterActive && state.msg == Some(IncompleteNotice)
      ensures mapLayers == Sweep(old(mapLayers), ByTitle, true, true)
    {
      state := state.(searchText2 := "", searchText := "", menuValue := 1);
      FilterByText(parse, store, current);
    }

    /** `_createNewLayerFromQuery`: with an active result, removes the
        temporary layer, hides every other vector layer and adds the result,
        reduced by the export schema (`normalize`, external), as layer number
        `ids + 1`; without one, reports the incomplete expression. */
    method CreateNewLayerFromQuery(normalize: seq<Row> -> seq<Row>)
      requires Valid()
      modifies this
      ensures Valid()
      ensures old(state.filterActive) ==>
        var n := old(state.ids) + 1;
        State() == old(State()).(
          mapLayers := Sweep(old(mapLayers), ByTitle, true, false)
                       + [MapLayer(NatToString(n), ExportTitle(n, old(state.filterByExpression)),
                                   normalize(old(state.filteredRows)), true, true)],
          ui := old(state).(ids := n))
      ensures !old(state.filterActive) ==>
        State() == old(State()).(ui := old(state).(errorOpen := true, error := true, msg := Some(IncompleteNotice)))
    {
      if state.filterActive {
        mapLayers := SweepLayers(mapLayers, ByTitle, true, false);
        state := state.(ids := state.ids + 1);
        var features := normalize(state.filteredRows);
        var exported := MapLayer(NatToString(state.ids), ExportTitle(state.ids, state.filterByExpression), features, true, true);
        mapLayers := mapLayers + [exported];
      } else {
        state := state.(errorOpen := true, error := true, msg := Some(IncompleteNotice));
      }
    }

    /** `handleToggle`: switches the preview columns on or off. */
    method HandleToggle()
      requires Valid()
      modifies this
      ensures Valid()
      ensures State() == old(State()).(ui := old(state).(toggled := !old(state.toggled)))
    {
      state := state.(toggled := !state.toggled);
    }

    /** `handleCheck`: ticks or unticks the all-layers box and switches the
        preview columns with it (both read the state before the handler). */
    method HandleCheck()
      requires Valid()
      modifies this
      ensures Valid()
      ensures State() == old(State()).(ui := old(state).(filterAllActive := !old(state.filterAllActive),
                                                         toggled := !old(state.toggled)))
    {
      state := state.(filterAllActive := !state.filterAllActive, toggled := !state.toggled);
    }

    /** `_handleRequestClose`: the error snackbar is dismissed; the error flag
        and the message stay. */
    method HandleRequestClose()
      requires Valid()
      modifies this
      ensures Valid()
      ensures State() == old(State()).(ui := old(state).(errorOpen := false))
    {
      state := state.(errorOpen := false);
    }

    /** `tablefullscreentoggle`. */
    method TableFullscreenToggle()
      requires Valid()
      modifies this
      ensures Valid()
      ensures State() == old(State()).(ui := old(state).(display := Toggle(old(state.display))))
    {
      state := state.(display := Toggle(state.display));
    }

    /** `_filter`: the "selected only" box. `_filtered` is never set in this
        version of the table, so the store is always told to show the
        selection or to restore every feature, never a query result. */
    method Filter(checked: bool)
      requires Valid()
      modifies this
      ensures Valid()
      ensures State() == old(State()).(selectedOnly := checked,
                                       storeCalls := old(storeCalls) + [StoreFilterCall(false, checked, [])])
      ensures storeCalls[|storeCalls| - 1] == (if checked then SetSelectedAsFilter else RestoreOriginalFeatures)
    {
      selectedOnly := checked;
      storeCalls := storeCalls + [StoreFilterCall(false, selectedOnly, [])];
    }

    /** `_setLayer` (and `_onLayerSelectChange`, which calls it). */
    method SetLayer(l: Option<LayerRef>)
      requires Valid()
      modifies this
      ensures Valid()
      ensures State() == LayerSet(old(State()), l)
    {
      layer := l;
      if l.Some? && CountUnknown(l.value.numberOfFeatures) {
        listeners := listeners + [l.value.id];
      }
    }

    /** A `change:numberOfFeatures` event of the layer `target`, whose count
        becomes `n`. */
    method NumberOfFeaturesChanged(target: Option<string>, n: nat)
      requires Valid()
      modifies this
      ensures Valid()
      ensures State() == CountChanged(old(State()), target, n)
    {
      var fires := target in listeners;
      listeners := Unlisten(listeners, target);
      if layer.Some? && layer.value.id == target {
        layer := Some(layer.value.(numberOfFeatures := Some(n)));
      }
      if fires && layer.Some? {
        state := state.(pages := CountPages(layer.value.numberOfFeatures, state.pageSize));
      }
    }

    /** A page request that succeeds: the table is marked loading while the
        request is out, then shows the page, and the page count follows from
        the layer's feature count. */
    method PageLoaded(tablePage: nat, tablePageSize: nat)
      requires Valid() && layer.Some?
      modifies this
      ensures Valid()
      ensures State() == old(State()).(ui := old(state).(page := Some(tablePage), pageSize := tablePageSize, loading := false,
                                                         pages := LoadedPages(old(layer).value.numberOfFeatures, tablePageSize)))
    {
      var u := state.(loading := true);
      u := u.(page := Some(tablePage), pageSize := tablePageSize,
              pages := LoadedPages(layer.value.numberOfFeatures, tablePageSize));
      state := u.(loading := false);
    }

    /** A page request that fails: the table is marked loading while the
        request is out, then the error dialog shows why. */
    method LoadFailed(message: string, status: nat, statusText: string)
      requires Valid()
      modifies this
      ensures Valid()
      ensures State() == old(State()).(ui := old(state).(error := true, errorOpen := true, loading := false,
                                                         msg := Some(LoadError(LoadFailureDetail(message, status, statusText)))))
    {
      var u := state.(loading := true);
      u := u.(error := true, errorOpen := true, msg := Some(LoadError(LoadFailureDetail(message, status, statusText))));
      state := u.(loading := false);
    }

    /** `_onTableChange`: without a layer nothing happens; otherwise the page
        starting at row `tablePage * tablePageSize` is requested and the load's
        outcome is recorded. Returns the requested start row. */
    method OnTableChange(tablePage: nat, tablePageSize: nat, outcome: LoadOutcome) returns (start: Option<nat>)
      requires Valid()
      modifies this
      ensures Valid()
      ensures old(layer).None? ==> start == None && State() == old(State())
      ensures old(layer).Some? ==> start == Some(FirstRow(tablePage, tablePageSize))
      ensures old(layer).Some? && outcome.Loaded? ==>
        State() == old(State()).(ui := old(state).(page := Some(tablePage), pageSize := tablePageSize, loading := false,
                                                   pages := LoadedPages(old(layer).value.numberOfFeatures, tablePageSize)))
      ensures old(layer).Some? && outcome.Failed? ==>
        State() == old(State()).(ui := old(state).(error := true, errorOpen := true, loading := false,
          msg := Some(LoadError(LoadFailureDetail(outcome.message, outcome.status, outcome.statusText)))))
    {
      if layer.None? {
        return None;
      }
      start := Some(FirstRow(tablePage, tablePageSize));
      match outcome {
        case Loaded =>
          PageLoaded(tablePage, tablePageSize);
        case Failed(message, status, statusText) =>
          LoadFailed(message, status, statusText);
      }
    }
  }

  /** Two successive found results are shown as temporary layers with
      different ids. */
  lemma TempLayersDistinct(a: nat, b: nat)
    requires a < b
    ensures TempId(a) != TempId(b)
  {
    TempIdInjective(a, b);
  }

  /** After a found result the map shows exactly one vector layer: the new
      temporary layer holding the result. Every earlier vector layer is
      hidden and none of them is a temporary layer any more. */
  lemma FoundResultShownAlone(layers: seq<MapLayer>, counter: nat, kept: seq<Row>)
    ensures var m := Sweep(Sweep(layers, ByTitle, true, true), ByTitle, false, false)
                     + [MapLayer(TempId(counter), FilteredFeaturesTitle, kept, true, true)];
      m[|m| - 1].visible && m[|m| - 1].features == kept
      && forall i :: 0 <= i < |m| - 1 && m[i].isVector ==> !m[i].visible && m[i].title != FilteredFeaturesTitle
  {
    ResultLayerAlone(layers, ByTitle, MapLayer(TempId(counter), FilteredFeaturesTitle, kept, true, true));
  }

  /** After an export the temporary layer is gone and the exported layer is
      the only visible vector layer; layers that are not vector layers stay. */
  lemma ExportShownAlone(layers: seq<MapLayer>, exported: MapLayer)
    requires exported.isVector && exported.visible
    ensures var m := Sweep(layers, ByTitle, true, false) + [exported];
      (forall i :: 0 <= i < |m| - 1 && m[i].isVector ==> !m[i].visible && m[i].title != FilteredFeaturesTitle)
      && forall i :: 0 <= i < |layers| && !layers[i].isVector ==> layers[i] in m
  {
    SweepEffect(layers, ByTitle, true, false);
  }
}
