# Feature table and upload tab of the map application

This project models three React components of the map application's web client:

- **`FeatureTableTab`**: the attribute table of the map's vector layers. A user builds a query from a key, an operator and a value. The rows the query accepts are shown on the map as a temporary layer. That result can be exported as a new layer. The table also handles its paging, its column views and its fullscreen toggle.
- **The older variant of `FeatureTableTab`**: it has a free-text query over the current layer and a second query over every layer. The second query splits the rows into shown and hidden ones. It has its own export.
- **`AddLayerValidateTab`**: a dropped file or a URL is converted where needed. It is read into a new map layer, or it is checked against the GeoJSON map schema, and the complaints about the first feature's properties are listed.

Each component is a `class`:

- Its `state` field holds the React state.
- Further fields hold its instance members (`_counter`, `_selectedOnly`, `_layer`, `_text`, …), the calls made on the feature store, the map's layer list and the uploads sent to the conversion endpoint.
- Each handler is a `method`. It is proved against a specification function of the state it starts from (`State() == AfterFilter(old(State()), …)`), and lemmas state what those functions mean.
- React's `setState` is treated as an in-order write: the last write of a handler wins, as with React's batching inside an event handler.

External services become parameters:

- The filter-expression parser (FilterService) is a function from text to a rejection message or a predicate over feature properties.
- The OpenLayers format readers are a function from reader and text to a failure, an unknown projection or a feature count.
- The JSON schema validator (Ajv) is a function from text to "does not parse" or a verdict with its complaints.
- The feature store's contents are passed as a list of layers with their features and selection.

Modules:

| module | file | what |
|---|---|---|
| `Common` | common.dfy | `Option`, decimal text of numbers, ASCII lower-casing |
| `Sequences` | sequences.dfy | subsequences, removal of duplicates (`[...new Set(s)]`) |
| `Query` | query.dfy | rows, the query expression, filtering and partition, store-filter dispatch, page arithmetic, temporary ids and export titles |
| `MapLayers` | maplayers.dfy | the sweep over the map's flat layer list (show or hide vector layers, drop the temporary result) |
| `TableView` | view.dfy | the fullscreen/compact display toggle |
| `Columns` | columns.dfy | the table's columns in the schema, preview and focus views, the autocomplete keys and values, the data source of the rows |
| `FeatureTable` | feature_table.dfy | the current `FeatureTableTab` |
| `FeatureTableLegacy` | feature_table_legacy.dfy | the older `FeatureTableTab` |
| `AddLayer` | upload.dfy | `AddLayerValidateTab` |

The field `toggled` of both tables' React state stands for the state key `Toggled`, which the source spells with a capital letter throughout.

## Model

| member | source | states |
|---|---|---|
| Query.ExpressionShape | mapapp/js/components/FeatureTableTab.jsx:465-467 | The assembled expression `key + operator + '"' + value + '"'` has the three parts in order, is never empty and ends in a quote, so the guard `filterByAuto !== ''` always holds |
| Query.Unquote | mapapp/js/components/FeatureTableTab.jsx:469 | Replacing `'` by `"` keeps the length, leaves no single quote, and changes exactly the single quotes |
| Query.UnquoteIdempotent | mapapp/js/components/FeatureTableTab.jsx:469 | Replacing the quotes twice gives the same text as replacing them once |
| Query.Matching | mapapp/js/components/FeatureTableTab.jsx:483-497 | The kept rows are no more than the candidates, and each is a candidate feature that the predicate accepts |
| Query.NotMatching | mapapp/js/components/FeatureTableTab-withhiderowsandskipunskipfeature.jsx:539-553 | The hidden rows are no more than the candidates, and each is a candidate feature that the predicate rejects |
| Query.MatchingEmpty | mapapp/js/components/FeatureTableTab.jsx:483-502 | No row is kept if and only if the predicate accepts no candidate |
| Query.MatchingCount | mapapp/js/components/FeatureTableTab.jsx:483-497 | A row occurs among the kept rows as often as among the candidates when accepted, and never otherwise |
| Query.MatchingMembership | mapapp/js/components/FeatureTableTab.jsx:483-497 | A row is kept if and only if it is a candidate and accepted |
| Query.MatchingEmbedding | mapapp/js/components/FeatureTableTab.jsx:483-497 | The kept rows are the candidates at exactly the accepted positions, in order |
| Query.MatchingIsSubsequence | mapapp/js/components/FeatureTableTab.jsx:483-497 | The kept rows keep the candidates' order |
| Query.PartitionCovers | mapapp/js/components/FeatureTableTab-withhiderowsandskipunskipfeature.jsx:539-553 | Shown and hidden rows together are, as a multiset, exactly the candidates that are features |
| Query.MatchingKeepsAll | mapapp/js/components/FeatureTableTab-withhiderowsandskipunskipfeature.jsx:604 | Every row is kept if and only if the predicate accepts every candidate |
| Query.FilterRows | mapapp/js/components/FeatureTableTab.jsx:483-497 | The loop over the candidates keeps exactly `Matching` of them |
| Query.PartitionRows | mapapp/js/components/FeatureTableTab-withhiderowsandskipunskipfeature.jsx:539-553 | The loop splits the candidates into exactly the accepted and the rejected features |
| Query.AllLayerRowsCount | mapapp/js/components/FeatureTableTab.jsx:431-438 | Collecting every layer's features gives as many rows as the layers hold features |
| Query.CollectAllLayerRows | mapapp/js/components/FeatureTableTab.jsx:431-438 | The loop over the store's layers appends their features in store order |
| Query.StoreFilterCall | mapapp/js/components/FeatureTableTab.jsx:378-389 | A filtered table sets the store filter to its rows; otherwise the selection is shown or every feature restored, as the "selected only" box says |
| Query.ListedCases | mapapp/js/components/FeatureTableTab.jsx:375-377 | A layer is offered in the layer selector if and only if it has a title and is a vector layer or has WFS information |
| Query.CeilDivIsLeast | mapapp/js/components/FeatureTableTab.jsx:313 | With a positive page size, `Math.ceil(n / size)` is the least page count that holds every feature |
| Query.CountPages | mapapp/js/components/FeatureTableTab.jsx:313 | `Math.ceil(count / size)` is `NaN` exactly when the count is unset or it is 0/0, and a page count when a count is set and the size is positive |
| Query.LoadedPages | mapapp/js/components/FeatureTableTab.jsx:644 | The page count is `undefined` exactly when the layer's feature count is 0 or unset |
| Query.LoadedPagesIsLeast | mapapp/js/components/FeatureTableTab.jsx:644 | With features and a positive page size, the count is the least number of pages holding them all |
| Query.LoadFailureDetail | mapapp/js/components/FeatureTableTab.jsx:647-651 | The load error names the loader's message, or else the HTTP status digits followed by a space and the status text |
| Query.PageOfRow | mapapp/js/components/FeatureTableTab.jsx:640 | Each feature index falls on exactly one page below the page count, between `page * pageSize` and the next page's start |
| Query.TempIdInjective | mapapp/js/components/FeatureTableTab.jsx:410-412 | Two temporary layer ids are equal exactly when their counters are |
| Query.ExportTitleNamesId | mapapp/js/components/FeatureTableTab.jsx:717 | The layer number can be read back from an export title, whatever the expression |
| Query.ExportTitlesDistinct | mapapp/js/components/FeatureTableTab.jsx:697-717 | Exports with different numbers get different titles |
| MapLayers.SweepLayers | mapapp/js/components/FeatureTableTab.jsx:417-427 | The loop over the flat layers produces exactly `Sweep` of them |
| MapLayers.SweepMembership | mapapp/js/components/FeatureTableTab.jsx:417-427 | A layer is on the map after the sweep if and only if it is a restyled layer from before that was not dropped |
| MapLayers.SweepEffect | mapapp/js/components/FeatureTableTab.jsx:417-427 | After the sweep, every vector layer has the requested visibility, no dropped temporary layer remains, and every non-vector layer is kept |
| MapLayers.SweepKeepsPositions | mapapp/js/components/FeatureTableTab.jsx:510-516 | A sweep that drops nothing keeps every layer at its position, restyled |
| MapLayers.ResultLayerAlone | mapapp/js/components/FeatureTableTab-withhiderowsandskipunskipfeature.jsx:559-581 | After showing a result layer, it is the last layer and every other vector layer is hidden and not temporary |
| TableView.ToggleTwice | mapapp/js/components/FeatureTableTab.jsx:790-801 | Pressing the fullscreen button twice returns to the starting layout |
| Columns.WhitelistColumnsMembership | mapapp/js/components/FeatureTableTab.jsx:1045-1057 | A whitelist column exists if and only if its key is whitelisted and in the layer's schema, shown as a plain accessor column |
| Columns.SchemaColumnsAt | mapapp/js/components/FeatureTableTab.jsx:984-1005 | The schema view has one column per schema entry, in order, with a link cell exactly for `link` entries |
| Columns.PreviewColumnsMembership | mapapp/js/components/FeatureTableTab.jsx:1006-1060 | The preview view shows exactly the whitelisted keys of the current layer's schema |
| Columns.FocusColumnsMembership | mapapp/js/components/FeatureTableTab-withhiderowsandskipunskipfeature.jsx:793-816 | The focus view shows exactly the whitelisted keys of every vector layer's schema |
| Columns.SchemaViewShape | mapapp/js/components/FeatureTableTab.jsx:954-1005 | Untoggled, the columns are the selector followed by one column per schema entry |
| Columns.PreviewViewShape | mapapp/js/components/FeatureTableTab.jsx:1006-1060 | Toggled, the columns are the selector followed by exactly the preview columns of the current layer |
| Columns.FocusViewShape | mapapp/js/components/FeatureTableTab-withhiderowsandskipunskipfeature.jsx:761-816 | In the older table, toggled, the columns are the selector followed by exactly the focus columns of every vector layer |
| Columns.AppendSchemaColumns | mapapp/js/components/FeatureTableTab.jsx:984-1005 | The loop appends exactly the schema columns |
| Columns.AppendWhitelistColumns | mapapp/js/components/FeatureTableTab.jsx:1045-1057 | The loop appends exactly the whitelisted columns |
| Columns.BuildCurrentColumns | mapapp/js/components/FeatureTableTab.jsx:954-1060 | The current table's column list is `CurrentColumns` |
| Columns.BuildLegacyColumns | mapapp/js/components/FeatureTableTab-withhiderowsandskipunskipfeature.jsx:761-816 | The older table's column list is `LegacyColumns` |
| Columns.BuildColumnHeads | mapapp/js/components/FeatureTableTab.jsx:1131-1150 | The column heads are the column ids, followed with the all-layers box ticked by every vector layer's schema keys |
| Columns.AutocompleteKeys | mapapp/js/components/FeatureTableTab.jsx:1259 | The key list has no duplicates and holds exactly the column heads |
| Columns.AutocompleteKeysOrder | mapapp/js/components/FeatureTableTab.jsx:1259 | The key list keeps the heads' first-occurrence order |
| Columns.SelectorKeyFirst | mapapp/js/components/FeatureTableTab.jsx:1131-1136 | Without the all-layers box, the selector column's key is the first key offered |
| Columns.DataSourceCases | mapapp/js/components/FeatureTableTab.jsx:1159-1183 | The rows come from the store filter, from every layer, from the layer's features or from the loaded page, in that order of precedence, each in exactly the stated case |
| Columns.ColumnCells | mapapp/js/components/FeatureTableTab.jsx:1185-1190 | One cell per row |
| Columns.ColumnCellsAt | mapapp/js/components/FeatureTableTab.jsx:1185-1190 | The cell at each position is that row's value of the selected key |
| Columns.BuildCellValues | mapapp/js/components/FeatureTableTab.jsx:1185-1200 | The loops collect the selected key's values of the shown rows, or of every layer's rows with the all-layers box ticked |
| Columns.SortSpec | mapapp/js/components/FeatureTableTab.jsx:1260 | The default sort returns a permutation of its input, sorted by the strings' UTF-16 code units |
| Columns.CodeUnitsRoundTrip | mapapp/js/components/FeatureTableTab.jsx:1260 | A character is one UTF-16 code unit or a surrogate pair, and decodes back to itself |
| Columns.Utf16Injective | mapapp/js/components/FeatureTableTab.jsx:1260 | Different strings have different UTF-16 encodings |
| Columns.SurrogatePairSortsFirst | mapapp/js/components/FeatureTableTab.jsx:1260 | A character above U+FFFF sorts before U+FF01, as its high surrogate is smaller |
| Columns.LexLeTotal | mapapp/js/components/FeatureTableTab.jsx:1260 | Any two strings are comparable in the code-unit order |
| Columns.LexLeTransitive | mapapp/js/components/FeatureTableTab.jsx:1260 | The code-unit order is transitive |
| Columns.LexLeAntisymmetric | mapapp/js/components/FeatureTableTab.jsx:1260 | Strings each ordered before the other are equal |
| Columns.AutocompleteValuesSpec | mapapp/js/components/FeatureTableTab.jsx:1260 | The value list is strictly ascending in UTF-16 code-unit order and holds exactly the collected cell values |
| FeatureTable.OutcomeCases | mapapp/js/components/FeatureTableTab.jsx:464-609 | A query run stops on incomplete input; it shows "no results" if and only if the expression is rejected or accepts no candidate; it finds rows if and only if some candidate is accepted, and those rows are the accepted candidates |
| FeatureTable.FoundRows | mapapp/js/components/FeatureTableTab.jsx:483-502 | A found result is a non-empty subsequence of the candidates holding exactly the accepted ones |
| FeatureTable.RecordedIncomplete | mapapp/js/components/FeatureTableTab.jsx:464-466 | Incomplete input leaves the recorded expression unchanged |
| FeatureTable.ConcludedForgetsMessages | mapapp/js/components/FeatureTableTab.jsx:470-482 | The error flags and message of the parse step are overwritten by every ending; a parse error's message is lost to "no results" |
| FeatureTable.AfterFilterConsistent | mapapp/js/components/FeatureTableTab.jsx:413-610 | After any query run, an active result has complete inputs, their expression, a stored predicate, and rows the predicate accepts |
| FeatureTable.AfterFilterShowsResult | mapapp/js/components/FeatureTableTab.jsx:413-610 | A result is active if and only if rows were found; then the counter advances and the new temporary layer is the only visible vector layer; otherwise the message says why and every vector layer is visible with no temporary one left |
| FeatureTable.ConcludedShows | mapapp/js/components/FeatureTableTab.jsx:502-609 | What each ending does to the counter, the layer list and the messages |
| FeatureTable.FeatureTableTab.constructor | mapapp/js/components/FeatureTableTab.jsx:222-278 | The initial state: no layer, counter 0, empty inputs, menu item 1, the configured page size |
| FeatureTable.FeatureTableTab.ShowFound | mapapp/js/components/FeatureTableTab.jsx:502-564 | The found ending: other vector layers hidden, a new temporary layer added and selected, the result and predicate stored |
| FeatureTable.FeatureTableTab.ShowNoResult | mapapp/js/components/FeatureTableTab.jsx:565-609 | The no-result endings: error shown with "no results" or "incomplete", no active result |
| FeatureTable.FeatureTableTab.ShowOutcome | mapapp/js/components/FeatureTableTab.jsx:502-609 | Either ending, as `Concluded` |
| FeatureTable.FeatureTableTab.PrepareRows | mapapp/js/components/FeatureTableTab.jsx:417-449 | Earlier result layers are removed, vector layers shown, and the candidates are every layer's rows or the current layer's (selected) rows |
| FeatureTable.FeatureTableTab.ParseAndFilter | mapapp/js/components/FeatureTableTab.jsx:464-498 | The parse of the unquoted expression and the rows it keeps, as `Outcome` |
| FeatureTable.FeatureTableTab.RecordParse | mapapp/js/components/FeatureTableTab.jsx:465-482 | The expression is recorded and the error flags and message of the parse are set |
| FeatureTable.FeatureTableTab.RunExpression | mapapp/js/components/FeatureTableTab.jsx:464-589 | A complete input ends as `Concluded` of its outcome |
| FeatureTable.FeatureTableTab.RunQuery | mapapp/js/components/FeatureTableTab.jsx:464-609 | Any input ends as `Concluded` of its outcome |
| FeatureTable.FeatureTableTab.FilterByText | mapapp/js/components/FeatureTableTab.jsx:413-610 | `_filterByText` leaves `AfterFilter` of the state it starts in, and a consistent state |
| FeatureTable.FeatureTableTab.HandleUpdateInput | mapapp/js/components/FeatureTableTab.jsx:803-810 | A new key, then a query run |
| FeatureTable.FeatureTableTab.HandleUpdateInput2 | mapapp/js/components/FeatureTableTab.jsx:823-830 | A new value, then a query run |
| FeatureTable.FeatureTableTab.HandleChange | mapapp/js/components/FeatureTableTab.jsx:835-843 | A new operator and menu item, then a query run |
| FeatureTable.FeatureTableTab.ClearSelected | mapapp/js/components/FeatureTableTab.jsx:390-392 | Key and value are emptied and the menu reset; the query run ends as "incomplete", with no active result |
| FeatureTable.FeatureTableTab.CreateNewLayerFromQuery | mapapp/js/components/FeatureTableTab.jsx:670-786 | With an active result, the temporary layer is removed, the other vector layers hidden, and the normalized rows added as layer `ids + 1` titled with the expression; otherwise only the "incomplete" error |
| FeatureTable.FeatureTableTab.HandleToggle | mapapp/js/components/FeatureTableTab.jsx:787-789 | The preview view is switched, nothing else changes |
| FeatureTable.FeatureTableTab.HandleCheck | mapapp/js/components/FeatureTableTab.jsx:845-855 | The all-layers box and the preview view are both switched |
| FeatureTable.FeatureTableTab.TableFullscreenToggle | mapapp/js/components/FeatureTableTab.jsx:790-801 | The display is toggled between compact and fullscreen |
| FeatureTable.FeatureTableTab.HandleRequestClose | mapapp/js/components/FeatureTableTab.jsx:611-616 | The error snackbar is closed, nothing else changes |
| FeatureTable.FeatureTableTab.Filter | mapapp/js/components/FeatureTableTab.jsx:371-374 | The "selected only" flag is set and the store shows the selection or restores every feature |
| FeatureTable.FeatureTableTab.SetLayer | mapapp/js/components/FeatureTableTab.jsx:306-322 | The table shows the layer, and a layer of unknown feature count gets a one-time count listener of its own |
| FeatureTable.FeatureTableTab.NumberOfFeaturesChanged | mapapp/js/components/FeatureTableTab.jsx:310-315 | A count event of a layer consumes that layer's listeners and, if it had one, sets the page count from the feature count of the layer shown then (`NaN` if that count is unset) |
| FeatureTable.UnlistenMembership | mapapp/js/components/FeatureTableTab.jsx:310-313 | Firing removes exactly the listeners of the layer that fired |
| FeatureTable.CountEventEffect | mapapp/js/components/FeatureTableTab.jsx:306-318 | A count event changes the page count only when its layer held a listener and a layer is shown; it is then `NaN` if the shown layer's count is unset, and `ceil(count / size)` otherwise; the shown layer's count changes only if it is the layer that fired; nothing else changes |
| FeatureTable.StaleListenerGivesNaN | mapapp/js/components/FeatureTableTab.jsx:306-318 | After switching from an uncounted layer to one whose count is unset, the old layer's event sets the pages to `NaN` and the new layer's listener stays |
| FeatureTable.FoundResultMakesListenerNaN | mapapp/js/components/FeatureTableTab.jsx:306-318 | A found result's temporary layer has no count, so a late count event of the layer shown before sets the pages to `NaN` |
| FeatureTable.ListenerStaysWithItsLayer | mapapp/js/components/FeatureTableTab.jsx:306-318 | After switching from an uncounted layer to a counted one, an event of the new layer changes no page count, while the old layer's event sets the pages from the new layer's count |
| FeatureTable.FeatureTableTab.PageLoaded | mapapp/js/components/FeatureTableTab.jsx:641-646 | A loaded page records page, page size and page count and stops loading |
| FeatureTable.FeatureTableTab.LoadFailed | mapapp/js/components/FeatureTableTab.jsx:647-653 | A failed load shows the error with its detail and stops loading |
| FeatureTable.FeatureTableTab.OnTableChange | mapapp/js/components/FeatureTableTab.jsx:633-655 | Without a layer nothing happens; otherwise the page starting at `page * pageSize` is requested and its outcome recorded |
| FeatureTable.TempLayersDistinct | mapapp/js/components/FeatureTableTab.jsx:518-520 | Successive result layers get different ids |
| FeatureTable.FoundResultShownAlone | mapapp/js/components/FeatureTableTab.jsx:510-531 | After a found result the new temporary layer is the only visible vector layer |
| FeatureTable.ExportShownAlone | mapapp/js/components/FeatureTableTab.jsx:685-722 | After an export no temporary layer remains and the exported layer is the only visible vector layer |
| FeatureTableLegacy.SelectedMeaning | mapapp/js/components/FeatureTableTab-withhiderowsandskipunskipfeature.jsx:390-427 | A single-layer query keeps every row if and only if the expression is empty or accepts every row, and keeps a row only if the expression accepts it |
| FeatureTableLegacy.SingleFilterStore | mapapp/js/components/FeatureTableTab-withhiderowsandskipunskipfeature.jsx:420-428 | The table is marked filtered if and only if some row is not kept; the store filter is set to the kept rows; nothing else changes |
| FeatureTableLegacy.SingleFilterDialog | mapapp/js/components/FeatureTableTab-withhiderowsandskipunskipfeature.jsx:390-428 | An empty expression leaves the dialog alone and keeps every row; a rejected one opens the error with the parser's message in the table's error text and sets the store filter to no rows; an accepted one closes the error |
| FeatureTableLegacy.NotMatchingNegates | mapapp/js/components/FeatureTableTab-withhiderowsandskipunskipfeature.jsx:549-551 | The hidden rows are the rows the negated predicate keeps |
| FeatureTableLegacy.AllFilterAccepted | mapapp/js/components/FeatureTableTab-withhiderowsandskipunskipfeature.jsx:531-584 | An accepted all-layers query shows the focus view, stores the predicate, partitions every layer's rows into shown and hidden, and leaves the result layer as the only visible vector layer |
| FeatureTableLegacy.AllFilterRejected | mapapp/js/components/FeatureTableTab-withhiderowsandskipunskipfeature.jsx:520-530 | A rejected all-layers query shows the parser's message, keeps the earlier predicate and rows, sets the store filter to no rows, and shows every vector layer |
| FeatureTableLegacy.AllFilterCleared | mapapp/js/components/FeatureTableTab-withhiderowsandskipunskipfeature.jsx:585-606 | An empty all-layers query switches the focus view off and sets the store filter to every row, unfiltered |
| FeatureTableLegacy.AfterSingleFilterConsistent | mapapp/js/components/FeatureTableTab-withhiderowsandskipunskipfeature.jsx:390-429 | A single-layer query keeps a stored predicate consistent with the shown and hidden rows |
| FeatureTableLegacy.AfterAllFilterConsistent | mapapp/js/components/FeatureTableTab-withhiderowsandskipunskipfeature.jsx:486-632 | An all-layers query keeps the stored predicate consistent with the shown and hidden rows |
| FeatureTableLegacy.ExportedConsistent | mapapp/js/components/FeatureTableTab-withhiderowsandskipunskipfeature.jsx:635-723 | An export keeps the state consistent |
| FeatureTableLegacy.ExportOnce | mapapp/js/components/FeatureTableTab-withhiderowsandskipunskipfeature.jsx:635-723 | An export changes the state if and only if a predicate is stored, and a second export changes nothing |
| FeatureTableLegacy.ExportAfterQuery | mapapp/js/components/FeatureTableTab-withhiderowsandskipunskipfeature.jsx:635-723 | After an accepted query, the export adds layer `ids + 1` last, holding the normalized shown rows, and the result layer stays on the map hidden |
| FeatureTableLegacy.ExportAfterRejected | mapapp/js/components/FeatureTableTab-withhiderowsandskipunskipfeature.jsx:502-530 | After an accepted query and then a rejected one, the export titles the earlier rows with the rejected expression |
| FeatureTableLegacy.FeatureTableTab.constructor | mapapp/js/components/FeatureTableTab-withhiderowsandskipunskipfeature.jsx:218-264 | The initial state |
| FeatureTableLegacy.FeatureTableTab.Filter | mapapp/js/components/FeatureTableTab-withhiderowsandskipunskipfeature.jsx:348-351 | The "selected only" flag is set and the store re-applies the last query's rows when that query dropped some, else shows the selection or every feature |
| FeatureTableLegacy.FeatureTableTab.UpdateStoreFilter | mapapp/js/components/FeatureTableTab-withhiderowsandskipunskipfeature.jsx:355-366 | One store call, as `StoreFilterCall` of the filtered and "selected only" flags |
| FeatureTableLegacy.FeatureTableTab.ClearSelected | mapapp/js/components/FeatureTableTab-withhiderowsandskipunskipfeature.jsx:367-372 | A request to clear the selection, with the "selected only" flag, is made exactly when some row is selected |
| FeatureTableLegacy.FeatureTableTab.ParseAndMatch | mapapp/js/components/FeatureTableTab-withhiderowsandskipunskipfeature.jsx:398-419 | The parse of the unquoted expression and the rows it keeps |
| FeatureTableLegacy.FeatureTableTab.Report | mapapp/js/components/FeatureTableTab-withhiderowsandskipunskipfeature.jsx:400-411 | The error flags and message after a parse, as `Reported` |
| FeatureTableLegacy.FeatureTableTab.Settle | mapapp/js/components/FeatureTableTab-withhiderowsandskipunskipfeature.jsx:420-428 | The filtered flag, the kept rows and the store filter, as `Settled` |
| FeatureTableLegacy.FeatureTableTab.FilterByText | mapapp/js/components/FeatureTableTab-withhiderowsandskipunskipfeature.jsx:390-429 | `_filterByText` leaves `AfterSingleFilter` of the starting state, and a consistent state |
| FeatureTableLegacy.FeatureTableTab.PrepareAll | mapapp/js/components/FeatureTableTab-withhiderowsandskipunskipfeature.jsx:489-502 | The earlier result layer is removed, vector layers shown, and the expression recorded |
| FeatureTableLegacy.FeatureTableTab.ShowAll | mapapp/js/components/FeatureTableTab-withhiderowsandskipunskipfeature.jsx:531-584 | The accepted ending: focus view, stored predicate, shown and hidden rows, the result layer alone |
| FeatureTableLegacy.FeatureTableTab.LeaveFocus | mapapp/js/components/FeatureTableTab-withhiderowsandskipunskipfeature.jsx:585-588 | The focus view is switched off |
| FeatureTableLegacy.FeatureTableTab.FilterAllByText | mapapp/js/components/FeatureTableTab-withhiderowsandskipunskipfeature.jsx:486-632 | `_filterAllByText` leaves `AfterAllFilter` of the starting state, and a consistent state |
| FeatureTableLegacy.FeatureTableTab.CreateNewLayerFromQuery | mapapp/js/components/FeatureTableTab-withhiderowsandskipunskipfeature.jsx:635-723 | The export, as `Exported`, and a consistent state |
| FeatureTableLegacy.FeatureTableTab.HandleToggle | mapapp/js/components/FeatureTableTab-withhiderowsandskipunskipfeature.jsx:724-727 | The focus view is switched, nothing else changes |
| FeatureTableLegacy.FeatureTableTab.HandleRequestClose | mapapp/js/components/FeatureTableTab-withhiderowsandskipunskipfeature.jsx:430-434 | The error snackbar is closed, nothing else changes |
| FeatureTableLegacy.FeatureTableTab.TableFullscreenToggle | mapapp/js/components/FeatureTableTab-withhiderowsandskipunskipfeature.jsx:728-740 | The display is toggled between compact and fullscreen |
| AddLayer.LastSegmentShape | mapapp/js/components/AddLayerValidateTab.jsx:221-222 | `name.split('.').pop()` is the longest suffix of the name without a '.', preceded by a '.' when shorter than the name |
| AddLayer.LastSegmentOfPlain | mapapp/js/components/AddLayerValidateTab.jsx:221-222 | A name without '.' is its own last segment |
| AddLayer.ExtensionShape | mapapp/js/components/AddLayerValidateTab.jsx:221-222 | An extension has no '.', and taking the extension of an extension changes nothing |
| AddLayer.LastSegmentAfterDot | mapapp/js/components/AddLayerValidateTab.jsx:350 | Whatever follows the last '.' is the extension's source |
| AddLayer.FormatsCases | mapapp/js/components/AddLayerValidateTab.jsx:179-184 | Exactly `geojson`, `json`, `kml` and `gpx` find a reader, the first two the same one; `constructor` and `__proto__` hit inherited members |
| AddLayer.AddLayerIdInjective | mapapp/js/components/AddLayerValidateTab.jsx:203-205 | Two layer ids are equal exactly when their counters are |
| AddLayer.UploadIdsDistinct | mapapp/js/components/AddLayerValidateTab.jsx:239-262 | The layers added so far all have different ids |
| AddLayer.ReadAddsLayer | mapapp/js/components/AddLayerValidateTab.jsx:206-288 | A read adds a layer if and only if there are a text and a file name, a reader for the extension and at least one feature; the layer gets the next id and the file name as title, and the dialog closes |
| AddLayer.ReadUnsupportedProjection | mapapp/js/components/AddLayerValidateTab.jsx:232-236 | A text whose projection is unknown shows "Unsupported projection", forgets the file name and adds no layer |
| AddLayer.ConversionIgnoresName | mapapp/js/components/AddLayerValidateTab.jsx:215-227 | After a conversion the file name plays no part in the choice of reader, and the conversion flag is cleared |
| AddLayer.AfterReadNumbered | mapapp/js/components/AddLayerValidateTab.jsx:239-262 | Every read keeps the added layers numbered 1, 2, … up to the counter |
| AddLayer.DeliveredNumbered | mapapp/js/components/AddLayerValidateTab.jsx:239-285 | Every reader answer keeps the numbering |
| AddLayer.DropRequests | mapapp/js/components/AddLayerValidateTab.jsx:338-371 | A drop of anything but one file changes nothing; one file sends a conversion request if and only if it is not JSON or GeoJSON, with a suffix '.' plus the extension; earlier requests stay |
| AddLayer.UrlExtensionAfterConversion | mapapp/js/components/AddLayerValidateTab.jsx:303-326 | A converted non-JSON URL is read as `georss`, and the `isJson` suffix is sent exactly for JSON URLs |
| AddLayer.PropertyErrorsExact | mapapp/js/components/AddLayerValidateTab.jsx:393-402 | The collected messages are exactly those of the complaints at the first feature's properties, in order |
| AddLayer.PropertyErrorsMembership | mapapp/js/components/AddLayerValidateTab.jsx:393-402 | A message is collected if and only if some complaint at the first feature's properties carries it |
| AddLayer.ValidateOutcome | mapapp/js/components/AddLayerValidateTab.jsx:372-406 | Without a name, a text or a parse, nothing changes; otherwise the dialog opens with "Valid!" and the earlier complaints, or with "Invalid …" and exactly the property complaints; no layer is added |
| AddLayer.AddLayerValidateTab.constructor | mapapp/js/components/AddLayerValidateTab.jsx:152-178 | The initial state: dialog closed, no file, counter 0 |
| AddLayer.AddLayerValidateTab.ShowDialog | mapapp/js/components/AddLayerValidateTab.jsx:188-190 | The upload dialog opens, nothing else changes |
| AddLayer.AddLayerValidateTab.CloseDialog | mapapp/js/components/AddLayerValidateTab.jsx:191-193 | The upload dialog closes, the progress bar stops, and the file name and validation result are cleared |
| AddLayer.AddLayerValidateTab.HandleOpen | mapapp/js/components/AddLayerValidateTab.jsx:194-196 | The validation dialog opens, nothing else changes |
| AddLayer.AddLayerValidateTab.HandleClose | mapapp/js/components/AddLayerValidateTab.jsx:197-199 | The validation dialog closes, nothing else changes |
| AddLayer.AddLayerValidateTab.HandleRequestClose | mapapp/js/components/AddLayerValidateTab.jsx:413-417 | The error snackbar is closed, nothing else changes |
| AddLayer.AddLayerValidateTab.ReadFile | mapapp/js/components/AddLayerValidateTab.jsx:200-202 | The file's text is kept for the read |
| AddLayer.AddLayerValidateTab.ReadVectorFile | mapapp/js/components/AddLayerValidateTab.jsx:206-210 | The progress bar starts and the URL conversion mark is cleared |
| AddLayer.AddLayerValidateTab.Deliver | mapapp/js/components/AddLayerValidateTab.jsx:228-285 | The state after the reader's answer, as `Delivered` |
| AddLayer.AddLayerValidateTab.ReadDeferred | mapapp/js/components/AddLayerValidateTab.jsx:211-288 | The deferred read leaves `AfterRead` of the state it starts in, and the numbering |
| AddLayer.AddLayerValidateTab.OnDrop | mapapp/js/components/AddLayerValidateTab.jsx:338-371 | `_onDrop` leaves `AfterDrop` of the state it starts in |
| AddLayer.AddLayerValidateTab.FileConverted | mapapp/js/components/AddLayerValidateTab.jsx:362-364 | The conversion response is stored and marked as converted |
| AddLayer.AddLayerValidateTab.UrlUpload | mapapp/js/components/AddLayerValidateTab.jsx:289-292 | The URL input is stored |
| AddLayer.AddLayerValidateTab.UrlGetConvert | mapapp/js/components/AddLayerValidateTab.jsx:303-326 | Without a URL nothing happens; otherwise one conversion request with the URL and its suffix |
| AddLayer.AddLayerValidateTab.UrlConverted | mapapp/js/components/AddLayerValidateTab.jsx:311-325 | The response is stored as converted, under the URL or the URL plus `.georss` |
| AddLayer.AddLayerValidateTab.CollectPropertyErrors | mapapp/js/components/AddLayerValidateTab.jsx:393-402 | The loop collects exactly `PropertyErrors` |
| AddLayer.AddLayerValidateTab.OnDropValidate | mapapp/js/components/AddLayerValidateTab.jsx:372-406 | `onDropValidate` leaves `AfterValidate` of the state it starts in |

## Left out

- Rendering: the React component tree, the Material UI widgets, styles, icons, tooltips and message formatting. Messages are a datatype with the source's wording where the logic depends on it.
- The window resize listener, the debouncing of inputs, and the mount and unmount hooks. They do not take part in the query or upload logic.
- `_zoomSelected`: it computes extents in floating point and moves the map view. The map view is not modelled.
- The feature store's internals (`addLayer`, `removeLayer`, `getFeaturesPerPage`, `loadFeatures`). The store's contents are a parameter, `loadFeatures` is an outcome parameter of `OnTableChange`, and the calls that change the store filter are logged.
- The FilterService grammar, the OpenLayers readers and projections, and Ajv with its JSON schema. Each is a parameter.
- The legacy table's `_setLayer`, `_onLayerSelectChange` and `_onTableChange`: they have the same code as the current table's, which is modelled.
- The legacy table's `_generateId` is never called. Its result layer always has the fixed id `sdk-layer-filterResults`.
- The commented-out "skip/unskip" code of the legacy table.
- `enforceSpecs`, `clearQueryEvent` and the colour-picker handlers of the upload tab: they do not touch the query or upload state.
- `setActive`, `_handleRequestCloseActive` and `_onSelect`: they set a flag only the rendering reads, or forward to the selection store.
- The server-side conversion endpoint, the routing and the build configuration are not part of this model.
- Asynchronous completions are separate methods that the environment calls later. These are the superagent responses, the `FileReader` load and the `setTimeout` of the read: `FileConverted`, `UrlConverted`, `ReadFile`, `ReadDeferred`, and `PageLoaded`/`LoadFailed` inside `OnTableChange`. Interleavings among them are not modelled.
- The TypeErrors the source throws mean the handler stops before any write. This covers a missing file name in `onDropValidate`, a missing URL in `_urlGetConvert` and text that is not JSON for the validator. The model leaves the state unchanged in these cases.
- `Columns.CellValues` and `Columns.BuildCellValues` require every listed row to be present. The source throws a TypeError at `data[i].get` when a row is missing; that error path is not modelled.
- `Common.Lower`: it lower-cases ASCII letters only. `String.prototype.toLowerCase` also folds other letters, and some of them become ASCII letters: U+212A KELVIN SIGN becomes 'k'. A file named `a.\u212AML` therefore gets the KML reader in the source but no reader in the model.
- Layers are told apart by their `id`. A count listener belongs to the layer id it was attached for; two layer objects with the same id are the same layer here.
- Feature property values are text. JavaScript's default sort compares values by their string form, which for text is the text itself. Numbers and other values are not modelled.

Behaviours of the code that the model keeps as written:

- A parse error's message in the current table is overwritten by the "no results" message.
- `_filtered` is never assigned in the current table, so its store filter is never a query result.
- The legacy single-layer query sets the store filter to no rows when the expression is rejected.
- The legacy all-layers query keeps the earlier predicate and rows when an expression is rejected. A later export therefore titles those rows with the rejected expression.
- The legacy result layer is added even when nothing matches, and it stays on the map, hidden, after an export.
- After "Valid!" the earlier complaints stay in the validation dialog.
- The upload progress bar keeps running when the format is unknown, when there is no text, or when no feature is read.
