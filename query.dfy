/** The decision logic of the feature-table query pipeline that both versions
    of the feature table share: rows and their selection by a filter predicate,
    assembly of the comparison expression, the dispatch to the feature store,
    the page arithmetic and the ids and titles of the layers a query creates.

    The expression parser and evaluator (FilterService) is external: a `Parser`
    maps an expression either to a rejection (the exception it throws) or to a
    predicate over a feature's properties. */
module Query {
  import opened Common
  import opened Sequences

  /** A feature's property bag (`feature.getProperties()`). */
  type Props = map<string, string>

  /** One entry of a feature array: a feature, or a hole (`null`/`undefined`),
      which every filter loop skips with `if (row)`. `uid` stands for the
      feature object's identity. */
  datatype Row = Missing | Feature(uid: nat, props: Props)

  datatype ParseResult = Rejected(message: string) | Accepted(test: Props -> bool)

  type Parser = string -> ParseResult

  /** What FeatureStore holds for one layer: all its features and the selected ones. */
  datatype LayerState = LayerState(features: seq<Row>, selected: seq<Row>)

  // ---------------------------------------------------------------------------
  // Expression assembly

  /** The three inputs of the current table are all filled in. */
  predicate Complete(key: string, operator: string, value: string) {
    key != "" && operator != "" && value != ""
  }

  /** `key + operator + '"' + value + '"'`. */
  function Expression(key: string, operator: string, value: string): string {
    key + operator + "\"" + value + "\""
  }

  /** The assembled expression is never empty and ends in the closing quote of
      the value, so the `filterByAuto !== ''` guard that follows it always holds. */
  lemma ExpressionShape(key: string, operator: string, value: string)
    ensures var e := Expression(key, operator, value);
      |e| == |key| + |operator| + |value| + 2 && e != "" && e[|e| - 1] == '"'
      && e[..|key|] == key && e[|key|..|key| + |operator|] == operator
      && e[|key| + |operator| + 1..|e| - 1] == value
  {
  }

  /** `s.replace(/'/g, '"')`. */
  function Unquote(s: string): (r: string)
    ensures |r| == |s| && '\'' !in r
    ensures forall i :: 0 <= i < |s| && s[i] != '\'' ==> r[i] == s[i]
    ensures forall i :: 0 <= i < |s| && s[i] == '\'' ==> r[i] == '"'
  {
    if s == [] then []
    else [if s[0] == '\'' then '"' else s[0]] + Unquote(s[1..])
  }

  /** What FilterService makes of an expression the current table
      assembled: it is given the text with single quotes turned into double
      ones. */
  function ParseQuery(parse: Parser, expression: string): ParseResult {
    parse(Unquote(expression))
  }

  /** Replacing single quotes twice is the same as once. */
  lemma UnquoteIdempotent(s: string)
    ensures Unquote(Unquote(s)) == Unquote(s)
  {
    var u := Unquote(s);
    assert '\'' !in u;
    var uu := Unquote(u);
    assert forall i :: 0 <= i < |u| ==> uu[i] == u[i];
  }

  // ---------------------------------------------------------------------------
  // Selection of rows

  predicate Matches(test: Props -> bool, r: Row) {
    r.Feature? && test(r.props)
  }

  predicate Misses(test: Props -> bool, r: Row) {
    r.Feature? && !test(r.props)
  }

  /** The rows a filter loop pushes into `filteredRows`: the non-hole rows whose
      properties satisfy the predicate, in input order. */
  function Matching(rows: seq<Row>, test: Props -> bool): (r: seq<Row>)
    ensures |r| <= |rows|
    ensures forall i :: 0 <= i < |r| ==> r[i] in rows && Matches(test, r[i])
  {
    if rows == [] then []
    else
      var prefix := rows[..|rows| - 1];
      var last := rows[|rows| - 1];
      assert forall x :: x in prefix ==> x in rows;
      Matching(prefix, test) + (if Matches(test, last) then [last] else [])
  }

  /** The rows the all-layers filter of the older table pushes into `hideRows`. */
  function NotMatching(rows: seq<Row>, test: Props -> bool): (r: seq<Row>)
    ensures |r| <= |rows|
    ensures forall i :: 0 <= i < |r| ==> r[i] in rows && Misses(test, r[i])
  {
    if rows == [] then []
    else
      var prefix := rows[..|rows| - 1];
      var last := rows[|rows| - 1];
      assert forall x :: x in prefix ==> x in rows;
      NotMatching(prefix, test) + (if Misses(test, last) then [last] else [])
  }

  /** The rows that are not holes. */
  function Present(rows: seq<Row>): seq<Row> {
    if rows == [] then []
    else Present(rows[..|rows| - 1]) + (if rows[|rows| - 1].Feature? then [rows[|rows| - 1]] else [])
  }

  /** The result of a filter run: no row when the parser rejected the expression. */
  function Kept(outcome: ParseResult, rows: seq<Row>): seq<Row> {
    if outcome.Accepted? then Matching(rows, outcome.test) else []
  }

  lemma SplitLast<T>(s: seq<T>)
    requires s != []
    ensures s == s[..|s| - 1] + [s[|s| - 1]]
  {
  }

  /** A filter keeps no row exactly when no row matches. */
  lemma MatchingEmpty(rows: seq<Row>, test: Props -> bool)
    ensures Matching(rows, test) == [] <==> forall i :: 0 <= i < |rows| ==> !Matches(test, rows[i])
  {
    if Matching(rows, test) != [] {
      MatchingMembership(rows, test, Matching(rows, test)[0]);
    }
    if exists i :: 0 <= i < |rows| && Matches(test, rows[i]) {
      var i :| 0 <= i < |rows| && Matches(test, rows[i]);
      MatchingMembership(rows, test, rows[i]);
    }
  }

  /** A row occurs in the result exactly as often as in the input when it
      matches, and not at all otherwise. */
  lemma {:induction false} MatchingCount(rows: seq<Row>, test: Props -> bool, x: Row)
    ensures multiset(Matching(rows, test))[x] == if Matches(test, x) then multiset(rows)[x] else 0
  {
    if rows != [] {
      var prefix := rows[..|rows| - 1];
      SplitLast(rows);
      MatchingCount(prefix, test, x);
      assert multiset(rows) == multiset(prefix) + multiset{rows[|rows| - 1]};
    }
  }

  lemma MatchingMembership(rows: seq<Row>, test: Props -> bool, x: Row)
    ensures x in Matching(rows, test) <==> x in rows && Matches(test, x)
  {
    MatchingCount(rows, test, x);
    assert x in Matching(rows, test) <==> multiset(Matching(rows, test))[x] > 0;
    assert x in rows <==> multiset(rows)[x] > 0;
  }

  /** The positions of the matching rows, in increasing order. */
  ghost function MatchIndices(rows: seq<Row>, test: Props -> bool): seq<nat> {
    if rows == [] then []
    else MatchIndices(rows[..|rows| - 1], test) + (if Matches(test, rows[|rows| - 1]) then [|rows| - 1] else [])
  }

  /** The result is the input with exactly the non-matching positions dropped. */
  lemma {:induction false} MatchingEmbedding(rows: seq<Row>, test: Props -> bool)
    ensures Embeds(Matching(rows, test), rows, MatchIndices(rows, test))
    ensures forall i :: 0 <= i < |rows| ==> (i in MatchIndices(rows, test) <==> Matches(test, rows[i]))
  {
    if rows != [] {
      var prefix := rows[..|rows| - 1];
      MatchingEmbedding(prefix, test);
      var idx := MatchIndices(prefix, test);
      forall k | 0 <= k < |idx|
        ensures idx[k] < |rows| - 1 && Matching(prefix, test)[k] == rows[idx[k]]
      {
        assert rows[idx[k]] == prefix[idx[k]];
      }
      forall i | 0 <= i < |rows| - 1
        ensures i in MatchIndices(rows, test) <==> Matches(test, rows[i])
      {
        assert rows[i] == prefix[i];
      }
    }
  }

  lemma MatchingIsSubsequence(rows: seq<Row>, test: Props -> bool)
    ensures IsSubsequence(Matching(rows, test), rows)
  {
    MatchingEmbedding(rows, test);
  }

  /** Every non-hole row lands in exactly one of the two parts, as often as it occurs. */
  lemma {:induction false} PartitionCovers(rows: seq<Row>, test: Props -> bool)
    ensures multiset(Matching(rows, test)) + multiset(NotMatching(rows, test)) == multiset(Present(rows))
  {
    if rows != [] {
      PartitionCovers(rows[..|rows| - 1], test);
    }
  }

  /** The filter keeps every row exactly when every row is present and matches;
      so `rows.length !== filteredRows.length` says that some row was dropped. */
  lemma {:induction false} MatchingKeepsAll(rows: seq<Row>, test: Props -> bool)
    ensures |Matching(rows, test)| == |rows| <==> forall i :: 0 <= i < |rows| ==> Matches(test, rows[i])
  {
    if rows != [] {
      var prefix := rows[..|rows| - 1];
      MatchingKeepsAll(prefix, test);
      assert forall i :: 0 <= i < |prefix| ==> prefix[i] == rows[i];
    }
  }

  /** The push loop shared by every filter handler. */
  method FilterRows(rows: seq<Row>, test: Props -> bool) returns (kept: seq<Row>)
    ensures kept == Matching(rows, test)
  {
    kept := [];
    var i := 0;
    while i < |rows|
      invariant 0 <= i <= |rows|
      invariant kept == Matching(rows[..i], test)
    {
      var row := rows[i];
      if row.Feature? {
        if test(row.props) {
          kept := kept + [row];
        }
      }
      assert rows[..i + 1][..i] == rows[..i];
      i := i + 1;
    }
    assert rows[..i] == rows;
  }

  /** The loop of the older table's all-layers filter: matching rows are
      shown, the other non-hole rows are hidden. */
  method PartitionRows(rows: seq<Row>, test: Props -> bool) returns (shown: seq<Row>, hidden: seq<Row>)
    ensures shown == Matching(rows, test) && hidden == NotMatching(rows, test)
  {
    shown, hidden := [], [];
    var i := 0;
    while i < |rows|
      invariant 0 <= i <= |rows|
      invariant shown == Matching(rows[..i], test)
      invariant hidden == NotMatching(rows[..i], test)
    {
      var row := rows[i];
      if row.Feature? {
        if test(row.props) {
          shown := shown + [row];
        } else {
          hidden := hidden + [row];
        }
      }
      assert rows[..i + 1][..i] == rows[..i];
      i := i + 1;
    }
    assert rows[..i] == rows;
  }

  // ---------------------------------------------------------------------------
  // Candidate rows

  /** The features of every layer in FeatureStore, concatenated in key order. */
  function AllLayerRows(store: seq<LayerState>): seq<Row> {
    if store == [] then []
    else AllLayerRows(store[..|store| - 1]) + store[|store| - 1].features
  }

  function FeatureCount(store: seq<LayerState>): nat {
    if store == [] then 0
    else FeatureCount(store[..|store| - 1]) + |store[|store| - 1].features|
  }

  lemma {:induction false} AllLayerRowsCount(store: seq<LayerState>)
    ensures |AllLayerRows(store)| == FeatureCount(store)
  {
    if store != [] {
      AllLayerRowsCount(store[..|store| - 1]);
    }
  }

  /** The nested push loop over `Object.keys(FeatureStore.getState())`. */
  method CollectAllLayerRows(store: seq<LayerState>) returns (rows: seq<Row>)
    ensures rows == AllLayerRows(store)
    ensures |rows| == FeatureCount(store)
  {
    rows := [];
    var k := 0;
    while k < |store|
      invariant 0 <= k <= |store|
      invariant rows == AllLayerRows(store[..k])
    {
      var temp := store[k].features;
      var i := 0;
      while i < |temp|
        invariant 0 <= i <= |temp|
        invariant rows == AllLayerRows(store[..k]) + temp[..i]
      {
        rows := rows + [temp[i]];
        assert temp[..i + 1] == temp[..i] + [temp[i]];
        i := i + 1;
      }
      assert temp[..i] == temp;
      assert store[..k + 1][..k] == store[..k];
      k := k + 1;
    }
    assert store[..k] == store;
    AllLayerRowsCount(store);
  }

  /** The rows of the current layer: the selection when "selected only" is on. */
  function SingleLayerRows(selectedOnly: bool, current: LayerState): seq<Row> {
    if selectedOnly then current.selected else current.features
  }

  /** The rows a query of the current table runs over: every layer's features
      when the all-layers box is ticked, else the current layer's rows. */
  function CandidateRows(filterAllActive: bool, selectedOnly: bool, store: seq<LayerState>, current: LayerState): seq<Row> {
    if filterAllActive then AllLayerRows(store) else SingleLayerRows(selectedOnly, current)
  }

  // ---------------------------------------------------------------------------
  // Dispatch to the feature store (`_updateStoreFilter`)

  datatype StoreCall = SetSelectedAsFilter | RestoreOriginalFeatures | SetFilter(rows: seq<Row>)

  function StoreFilterCall(filtered: bool, selectedOnly: bool, filteredRows: seq<Row>): (c: StoreCall)
    ensures c.SetFilter? <==> filtered
    ensures c == SetSelectedAsFilter <==> !filtered && selectedOnly
    ensures c == RestoreOriginalFeatures <==> !filtered && !selectedOnly
    ensures c.SetFilter? ==> c.rows == filteredRows
  {
    if !filtered then
      (if selectedOnly then SetSelectedAsFilter else RestoreOriginalFeatures)
    else SetFilter(filteredRows)
  }

  // ---------------------------------------------------------------------------
  // Which layers the layer selector lists (`_filterLayerList`)

  /** A JavaScript attribute slot: never set (`undefined`), set to `null`, or set to a value. */
  datatype Slot = Unset | Null | Value(text: string)

  datatype LayerDesc = LayerDesc(title: Slot, isVector: bool, wfsInfo: Slot)

  /** `title !== null && (vector || wfsInfo !== undefined)`: a layer with no
      title at all still passes, one whose title is explicitly `null` does not. */
  predicate Listed(l: LayerDesc) {
    l.title != Null && (l.isVector || l.wfsInfo != Unset)
  }

  lemma ListedCases(l: LayerDesc)
    ensures l.title == Null ==> !Listed(l)
    ensures !l.isVector && l.wfsInfo == Unset ==> !Listed(l)
    ensures l.title != Null && l.isVector ==> Listed(l)
    ensures l.title != Null && l.wfsInfo != Unset ==> Listed(l)
  {
  }

  // ---------------------------------------------------------------------------
  // Page arithmetic

  /** The values the table's `pages` takes: `Unknown` is the constructor's
      `-1` before any page has loaded, `Undefined` is the `undefined` a page
      load writes for a layer without a feature count, and `Pages`, `Infinite`
      and `NotANumber` are the values of `Math.ceil(n / size)`. */
  datatype PageTotal = Unknown | Undefined | Pages(count: nat) | Infinite | NotANumber

  function CeilDiv(n: nat, size: nat): PageTotal {
    if size == 0 then (if n == 0 then NotANumber else Infinite)
    else Pages((n + size - 1) / size)
  }

  /** With a positive page size the page count is the least number of pages
      that holds every feature. */
  lemma CeilDivIsLeast(n: nat, size: nat)
    requires size > 0
    ensures CeilDiv(n, size).Pages?
    ensures CeilDiv(n, size).count * size >= n
    ensures CeilDiv(n, size).count > 0 ==> (CeilDiv(n, size).count - 1) * size < n
  {
    var c := (n + size - 1) / size;
    assert c * size <= n + size - 1 < (c + 1) * size;
  }

  /** A layer's `numberOfFeatures`: `None` while the property is unset. */
  type LayerCount = Option<nat>

  /** `!layer.get('numberOfFeatures')`: the count is unset or 0. */
  predicate CountUnknown(c: LayerCount) {
    c == None || c == Some(0)
  }

  /** `Math.ceil(count / size)` where the count may be unset: `undefined / size`
      is `NaN`, as is `0 / 0`. */
  function CountPages(count: LayerCount, size: nat): (p: PageTotal)
    ensures p == NotANumber <==> count == None || (count == Some(0) && size == 0)
    ensures count.Some? && size > 0 ==> p.Pages?
  {
    if count.None? then NotANumber else CeilDiv(count.value, size)
  }

  /** `pages` after a page has loaded: the page count when the layer knows its
      `numberOfFeatures`, `undefined` when that is 0 or unset. */
  function LoadedPages(numberOfFeatures: LayerCount, pageSize: nat): (p: PageTotal)
    ensures p == Undefined <==> CountUnknown(numberOfFeatures)
  {
    if CountUnknown(numberOfFeatures) then Undefined else CeilDiv(numberOfFeatures.value, pageSize)
  }

  /** With a known feature count and a positive page size, the loaded page
      count is the least number of pages that holds every feature. */
  lemma LoadedPagesIsLeast(numberOfFeatures: nat, pageSize: nat)
    requires pageSize > 0 && numberOfFeatures > 0
    ensures var p := LoadedPages(Some(numberOfFeatures), pageSize);
      p.Pages? && p.count * pageSize >= numberOfFeatures && (p.count - 1) * pageSize < numberOfFeatures
  {
    CeilDivIsLeast(numberOfFeatures, pageSize);
  }

  /** What a failed page load reports: the message when there is one, else
      `status + ' ' + statusText`. */
  function LoadFailureDetail(message: string, status: nat, statusText: string): (d: string)
    ensures message != "" ==> d == message
    ensures message == "" ==> LeadingDigits(d) == NatToString(status) && d[|NatToString(status)|..] == " " + statusText
  {
    if message != "" then message
    else
      var digits := NatToString(status);
      NatToStringDigits(status);
      LeadingDigitsOfNumber(digits, " " + statusText);
      assert digits + " " + statusText == digits + (" " + statusText);
      assert (digits + (" " + statusText))[|digits|..] == " " + statusText;
      digits + " " + statusText
  }

  /** How `FeatureStore.loadFeatures` ends: the success callback, or the
      failure callback with its message and the request's status. */
  datatype LoadOutcome = Loaded | Failed(message: string, status: nat, statusText: string)

  /** The first row that a page starts with (`state.page * state.pageSize`). */
  function FirstRow(page: nat, pageSize: nat): nat {
    page * pageSize
  }

  /** Every feature index falls on exactly one page below the page count. */
  lemma PageOfRow(n: nat, size: nat, i: nat)
    requires size > 0 && i < n
    ensures CeilDiv(n, size).Pages?
    ensures i / size < CeilDiv(n, size).count
    ensures FirstRow(i / size, size) <= i < FirstRow(i / size, size) + size
  {
    CeilDivIsLeast(n, size);
    var c := CeilDiv(n, size).count;
    var p := i / size;
    assert p * size <= i < n <= c * size;
    assert (c - p) * size > 0;
  }

  // ---------------------------------------------------------------------------
  // Messages, ids and titles

  const IncompleteMessage := "error code: filter expression incomplete"
  const NoResultsMessage := "error code: filter expression incorrect (no results)"
  const FilteredFeaturesTitle := "filteredFeatures"

  function FilterErrorMessage(detail: string): string {
    "There was an error filtering your features. (" + detail + ")"
  }

  function LoadErrorMessage(detail: string): string {
    "There was an error loading your features. (" + detail + ")"
  }

  /** What the table's snackbar shows (`state.msg`): one of the two fixed
      notices of a query run, the `errormsg` or `loaderrormsg` template
      around a detail, or a parser's own message as it is. */
  datatype Message = IncompleteNotice | NoResultsNotice | FilterError(detail: string)
                   | LoadError(detail: string) | Raw(text: string)

  /** The text a message renders to. */
  function MessageText(m: Message): string {
    match m
    case IncompleteNotice => IncompleteMessage
    case NoResultsNotice => NoResultsMessage
    case FilterError(detail) => FilterErrorMessage(detail)
    case LoadError(detail) => LoadErrorMessage(detail)
    case Raw(text) => text
  }

  const TempPrefix := "temp-"

  /** `_generateId()` of the current table: the id of the N-th temporary layer. */
  function TempId(n: nat): string {
    TempPrefix + NatToString(n)
  }

  lemma TempIdInjective(a: nat, b: nat)
    ensures TempId(a) == TempId(b) <==> a == b
  {
    PrefixedIdInjective(TempPrefix, a, b);
  }

  const TitlePrefix := "New Layer ("

  /** The title of the N-th exported layer. */
  function ExportTitle(ids: nat, expression: string): string {
    TitlePrefix + NatToString(ids) + ") from Query (" + expression + ")"
  }

  /** The layer number can be read back from an export title, whatever the expression. */
  lemma ExportTitleNamesId(ids: nat, expression: string)
    ensures var t := ExportTitle(ids, expression);
      |t| > |TitlePrefix| && t[..|TitlePrefix|] == TitlePrefix
      && ParseDecimal(LeadingDigits(t[|TitlePrefix|..])) == ids
  {
    var t := ExportTitle(ids, expression);
    var rest := ") from Query (" + expression + ")";
    assert t == TitlePrefix + (NatToString(ids) + rest);
    assert t[|TitlePrefix|..] == NatToString(ids) + rest;
    NatToStringDigits(ids);
    LeadingDigitsOfNumber(NatToString(ids), rest);
    ParseNatToString(ids);
  }

  /** Exports with different numbers get different titles. */
  lemma ExportTitlesDistinct(a: nat, b: nat, e1: string, e2: string)
    requires a != b
    ensures ExportTitle(a, e1) != ExportTitle(b, e2)
  {
    ExportTitleNamesId(a, e1);
    ExportTitleNamesId(b, e2);
  }

  /** The table's current layer: its id and its `numberOfFeatures`. */
  datatype LayerRef = LayerRef(id: Option<string>, numberOfFeatures: LayerCount)
}
