/** The upload tab (`AddLayerValidateTab`): a dropped file or a URL is
    converted when its extension asks for it, read into a new vector layer
    through the format table, or checked against the GeoJSON schema with the
    validator's complaints about the first feature's properties collected.

    Reading files, the conversion server and the schema validator are not
    modelled: what they answer is a parameter of the handler that receives
    it. As in the feature tables, `setState` is an update of the `state`
    record in program order. */
module AddLayer {
  import opened Common
  import opened Sequences

  // ---------------------------------------------------------------------------
  // File names and the format table

  /** `name.split('.').pop()`: the text after the last '.', or the whole
      name when it has none. */
  function LastSegment(name: string): string {
    if name == [] then []
    else if name[|name| - 1] == '.' then []
    else LastSegment(name[..|name| - 1]) + [name[|name| - 1]]
  }

  /** The segment is the longest suffix of the name without a '.': it ends
      the name, holds no '.', and is the whole name or follows a '.'. */
  lemma {:induction false} LastSegmentShape(name: string)
    ensures var r := LastSegment(name);
      |r| <= |name| && r == name[|name| - |r|..] && '.' !in r
      && (|r| < |name| ==> name[|name| - |r| - 1] == '.')
  {
    if name != [] && name[|name| - 1] != '.' {
      var prefix := name[..|name| - 1];
      LastSegmentShape(prefix);
      var p := LastSegment(prefix);
      assert name[|name| - |p| - 1..] == prefix[|prefix| - |p|..] + [name[|name| - 1]];
      if |p| < |prefix| {
        assert name[|name| - |p| - 2] == prefix[|prefix| - |p| - 1];
      }
    }
  }

  /** The lower-cased extension the handlers dispatch on. */
  function Extension(name: string): string {
    Lower(LastSegment(name))
  }

  lemma {:induction false} LastSegmentOfPlain(name: string)
    requires '.' !in name
    ensures LastSegment(name) == name
  {
    if name != [] {
      LastSegmentOfPlain(name[..|name| - 1]);
    }
  }

  /** An extension has no '.', and taking the extension of an extension
      changes nothing. */
  lemma ExtensionShape(name: string)
    ensures '.' !in Extension(name)
    ensures Extension(Extension(name)) == Extension(name)
  {
    var last := LastSegment(name);
    LastSegmentShape(name);
    LowerKeepsNonLetter(last, '.');
    LastSegmentOfPlain(Lower(last));
    LowerIdempotent(last);
  }

  /** Whatever follows the last '.' is the extension's source. */
  lemma {:induction false} LastSegmentAfterDot(head: string, tail: string)
    requires '.' !in tail
    ensures LastSegment(head + "." + tail) == tail
    decreases |tail|
  {
    var s := head + "." + tail;
    if tail == [] {
      assert s[|s| - 1] == '.';
    } else {
      assert s[..|s| - 1] == head + "." + tail[..|tail| - 1];
      LastSegmentAfterDot(head, tail[..|tail| - 1]);
      assert tail == tail[..|tail| - 1] + [tail[|tail| - 1]];
    }
  }

  /** The readers OpenLayers offers for the supported formats. */
  datatype Reader = GeoJsonReader | KmlReader | GpxReader

  /** What `formats[ext]` yields. The table is a plain object, so the two
      lower-case names of members inherited from `Object.prototype` find
      something that is not a reader. */
  datatype FormatLookup = Known(reader: Reader) | Inherited | Absent

  function Formats(ext: string): FormatLookup {
    if ext == "geojson" || ext == "json" then Known(GeoJsonReader)
    else if ext == "kml" then Known(KmlReader)
    else if ext == "gpx" then Known(GpxReader)
    else if ext == "constructor" || ext == "__proto__" then Inherited
    else Absent
  }

  /** Only the four listed extensions find a reader; JSON and GeoJSON share one. */
  lemma FormatsCases(ext: string)
    ensures Formats(ext).Known? <==> ext in ["geojson", "json", "kml", "gpx"]
    ensures Formats(ext) == Known(GeoJsonReader) <==> ext == "geojson" || ext == "json"
    ensures Formats(ext).Inherited? <==> ext == "constructor" || ext == "__proto__"
  {
  }

  /** Extensions that the handlers take as GeoJSON already, with no conversion. */
  predicate IsJson(ext: string) {
    ext == "geojson" || ext == "json"
  }

  const IdPrefix := "sdk-addlayer-"

  /** `_generateId`. */
  function AddLayerId(counter: nat): string {
    IdPrefix + NatToString(counter)
  }

  lemma AddLayerIdInjective(a: nat, b: nat)
    ensures AddLayerId(a) == AddLayerId(b) <==> a == b
  {
    PrefixedIdInjective(IdPrefix, a, b);
  }

  // ---------------------------------------------------------------------------
  // State

  /** What a reader makes of a text: an exception with its message, a text
      whose projection it cannot tell, or a number of features. */
  datatype ReadResult = ReadFailed(message: string) | UnknownProjection | Features(count: nat)

  type FeatureReader = (Reader, string) -> ReadResult

  /** The snackbar message of a failed read. `NotAReader` stands for the
      `TypeError` raised when an inherited member is called as a reader. */
  datatype UploadMessage = UnsupportedProjection | ReadError(text: string) | NotAReader

  /** One complaint of the schema validator. */
  datatype SchemaError = SchemaError(dataPath: string, message: string)

  /** The validator's answer to a text: it does not parse as JSON, or it is
      valid, or it is not and here are the complaints. */
  datatype Verdict = Unparseable | Checked(valid: bool, errors: seq<SchemaError>)

  /** A request sent to the conversion endpoint `/upload/`. */
  datatype Request = ConvertFile(fileName: string, suffix: string) | ConvertUrl(url: string, suffix: string)

  /** The keys of the tab's React state that the upload handlers use. */
  datatype UploadUi = UploadUi(
    open: bool, error: bool, errorOpen: bool, msg: Option<UploadMessage>, fileName: Option<string>,
    fileContent: string, conversion: bool, conversionActive: bool, urlinput: Option<string>,
    validateErrors: seq<string>, validateMsg: string, showProgress: bool, validationDialog: bool)

  /** A layer the tab has added to the map. */
  datatype AddedLayer = AddedLayer(id: string, title: string, featureCount: nat)

  /** Everything the tab keeps between events: `_counter`, `_text`, the layers
      it added, the conversion requests it sent and the React state. */
  datatype UploadState = UploadState(
    counter: nat, text: Option<string>, uploads: seq<AddedLayer>, requests: seq<Request>, ui: UploadUi)

  const InitialUi := UploadUi(false, false, false, None, None, "", false, false, None, [], "", false, false)

  /** The layers added so far are numbered 1, 2, … up to `_counter`. */
  ghost predicate Numbered(s: UploadState) {
    |s.uploads| == s.counter && forall i :: 0 <= i < |s.uploads| ==> s.uploads[i].id == AddLayerId(i + 1)
  }

  /** The numbering makes every added layer's id unique. */
  lemma UploadIdsDistinct(s: UploadState)
    requires Numbered(s)
    ensures forall i, j :: 0 <= i < j < |s.uploads| ==> s.uploads[i].id != s.uploads[j].id
  {
    forall i, j | 0 <= i < j < |s.uploads|
      ensures s.uploads[i].id != s.uploads[j].id
    {
      AddLayerIdInjective(i + 1, j + 1);
    }
  }

  // ---------------------------------------------------------------------------
  // Reading a file into a layer

  /** A JavaScript value that is neither undefined nor empty. */
  predicate Truthy(t: Option<string>) {
    t.Some? && t.value != ""
  }

  /** `_closeDialog`. */
  function Closed(u: UploadUi): UploadUi {
    u.(conversionActive := false, fileName := None, showProgress := false, open := false,
       validateErrors := [], validateMsg := "")
  }

  /** The catch path of a read: the progress bar stops, the snackbar shows
      the message and the file name is forgotten. */
  function Failed(u: UploadUi, m: UploadMessage): UploadUi {
    u.(showProgress := false, error := true, fileName := None, errorOpen := true, msg := Some(m))
  }

  /** The text the deferred read works on: the converted content after a
      conversion, else the file's own text. */
  function ReadText(s: UploadState): Option<string> {
    if s.ui.conversion then Some(s.ui.fileContent) else s.text
  }

  /** The extension the deferred read dispatches on: 'geojson' after a
      conversion, whatever the file is called. */
  function ReadExtension(s: UploadState): string
    requires s.ui.fileName.Some?
  {
    if s.ui.conversion then "geojson" else Extension(s.ui.fileName.value)
  }

  /** The first part of `_readVectorFile`: the progress bar starts. */
  function ReadStarted(s: UploadState): UploadState {
    s.(ui := s.ui.(showProgress := true, conversionActive := false))
  }

  /** The state after a reader's answer, `u` being the React state once the
      conversion flag is cleared. A read with features adds a layer with the
      next id, titled with the file name, and closes the dialog. */
  function Delivered(s: UploadState, u: UploadUi, r: ReadResult): UploadState
    requires s.ui.fileName.Some?
  {
    match r
    case ReadFailed(m) => s.(ui := Failed(u, ReadError(m)))
    case UnknownProjection => s.(ui := Failed(u, UnsupportedProjection))
    case Features(n) =>
      if n == 0 then s.(ui := u)
      else
        var c := s.counter + 1;
        s.(counter := c, uploads := s.uploads + [AddedLayer(AddLayerId(c), s.ui.fileName.value, n)], ui := Closed(u))
  }

  /** The deferred part of `_readVectorFile`. */
  function AfterRead(s: UploadState, read: FeatureReader): UploadState {
    var text := ReadText(s);
    if !(Truthy(text) && Truthy(s.ui.fileName)) then s
    else
      var u := s.ui.(conversion := false);
      match Formats(ReadExtension(s))
      case Absent => s.(ui := u)
      case Inherited => s.(ui := Failed(u, NotAReader))
      case Known(reader) => Delivered(s, u, read(reader, text.value))
  }

  /** A read adds a layer exactly when there is a text and a file name, the
      extension finds a reader and the reader finds at least one feature; the
      layer gets the next id and the file name as title, and the dialog is
      closed. Otherwise no layer is added. */
  lemma ReadAddsLayer(s: UploadState, read: FeatureReader)
    ensures var t := AfterRead(s, read);
      var text := ReadText(s);
      var added := Truthy(text) && Truthy(s.ui.fileName) && Formats(ReadExtension(s)).Known?
                   && read(Formats(ReadExtension(s)).reader, text.value).Features?
                   && read(Formats(ReadExtension(s)).reader, text.value).count > 0;
      && (added ==>
            t.counter == s.counter + 1
            && t.uploads == s.uploads + [AddedLayer(AddLayerId(s.counter + 1), s.ui.fileName.value,
                                                    read(Formats(ReadExtension(s)).reader, text.value).count)]
            && t.ui.fileName.None? && !t.ui.showProgress && !t.ui.open && t.ui.validateErrors == []
            && t.ui.validateMsg == "")
      && (!added ==> t.counter == s.counter && t.uploads == s.uploads)
      && t.requests == s.requests && t.text == s.text
  {
  }

  /** A text whose projection the reader cannot tell shows 'Unsupported
      projection', forgets the file name and adds no layer. */
  lemma ReadUnsupportedProjection(s: UploadState, read: FeatureReader)
    requires Truthy(ReadText(s)) && Truthy(s.ui.fileName) && Formats(ReadExtension(s)).Known?
    requires read(Formats(ReadExtension(s)).reader, ReadText(s).value) == UnknownProjection
    ensures var t := AfterRead(s, read);
      t.ui.error && t.ui.errorOpen && t.ui.msg == Some(UnsupportedProjection)
      && t.ui.fileName.None? && !t.ui.showProgress && t.uploads == s.uploads && !t.ui.conversion
  {
  }

  /** After a conversion the file name plays no part in the choice of reader:
      two names lead to the same layers, and the conversion flag is cleared. */
  lemma ConversionIgnoresName(s: UploadState, read: FeatureReader, a: string, b: string)
    requires s.ui.conversion && s.ui.fileContent != "" && a != "" && b != ""
    ensures var ta := AfterRead(s.(ui := s.ui.(fileName := Some(a))), read);
      var tb := AfterRead(s.(ui := s.ui.(fileName := Some(b))), read);
      ta.counter == tb.counter && |ta.uploads| == |tb.uploads| && ta.ui.msg == tb.ui.msg
      && !ta.ui.conversion && !tb.ui.conversion
  {
  }

  /** Every read keeps the numbering of the added layers. */
  lemma AfterReadNumbered(s: UploadState, read: FeatureReader)
    requires Numbered(s)
    ensures Numbered(AfterRead(s, read))
  {
    var text := ReadText(s);
    if Truthy(text) && Truthy(s.ui.fileName) {
      var lookup := Formats(ReadExtension(s));
      if lookup.Known? {
        DeliveredNumbered(s, s.ui.(conversion := false), read(lookup.reader, text.value));
      }
    }
  }

  lemma DeliveredNumbered(s: UploadState, u: UploadUi, r: ReadResult)
    requires Numbered(s) && s.ui.fileName.Some?
    ensures Numbered(Delivered(s, u, r))
  {
    if r.Features? && r.count > 0 {
      var t := Delivered(s, u, r);
      forall i | 0 <= i < |t.uploads|
        ensures t.uploads[i].id == AddLayerId(i + 1)
      {
        if i < |s.uploads| {
          assert t.uploads[i] == s.uploads[i];
        }
      }
    }
  }

  // ---------------------------------------------------------------------------
  // Dropped files and URLs

  /** `_onDrop`: a single file's name is recorded and, unless it is JSON
      already, the file is sent for conversion with its extension as suffix. */
  function AfterDrop(s: UploadState, files: seq<string>): UploadState {
    if |files| != 1 then s
    else
      var ext := Extension(files[0]);
      s.(ui := s.ui.(fileName := Some(files[0])),
         requests := s.requests + if IsJson(ext) then [] else [ConvertFile(files[0], "." + ext)])
  }

  lemma DropRequests(s: UploadState, files: seq<string>)
    ensures var t := AfterDrop(s, files);
      && (|files| != 1 ==> t == s)
      && (|t.requests| == |s.requests| + 1 <==> |files| == 1 && !IsJson(Extension(files[0])))
      && (|t.requests| == |s.requests| + 1 ==>
            t.requests[|s.requests|] == ConvertFile(files[0], "." + Extension(files[0]))
            && '.' !in t.requests[|s.requests|].suffix[1..])
      && t.requests[..|s.requests|] == s.requests
  {
    if |files| == 1 {
      var ext := Extension(files[0]);
      ExtensionShape(files[0]);
      assert ("." + ext)[1..] == ext;
    }
  }

  /** The suffix `_urlGetConvert` sends for a URL's extension. */
  function UrlSuffix(ext: string): string {
    if ext == "json" then "isJson" else ".georss"
  }

  /** The file name the conversion response records: the URL itself for a
      JSON URL, else the URL with '.georss' appended (JavaScript's `+` turns
      a null URL into the text "null"). */
  function UrlFileName(isJson: bool, urlinput: Option<string>): Option<string> {
    if isJson then urlinput
    else Some((if urlinput.Some? then urlinput.value else "null") + ".georss")
  }

  /** A URL that is not JSON comes back with a file name whose extension is
      'georss', so the later steps take it for a GeoRSS file. */
  lemma UrlExtensionAfterConversion(url: string)
    ensures Extension(UrlFileName(false, Some(url)).value) == "georss"
    ensures UrlSuffix(Extension(url)) == "isJson" <==> Extension(url) == "json"
  {
    LastSegmentAfterDot(url, "georss");
    assert url + ".georss" == url + "." + "georss";
    assert Lower("georss") == "georss";
  }

  // ---------------------------------------------------------------------------
  // Validation

  const PropertiesPath := ".features[0].properties"
  const ValidMessage := "Valid!"
  const InvalidMessage := "Invalid according to the specification: "

  /** The messages of the complaints about the first feature's `properties`
      member, in the validator's order. */
  function PropertyErrors(errors: seq<SchemaError>): seq<string> {
    if errors == [] then []
    else
      var e := errors[|errors| - 1];
      PropertyErrors(errors[..|errors| - 1]) + if e.dataPath == PropertiesPath then [e.message] else []
  }

  /** The positions of those complaints. */
  ghost function PropertyIndices(errors: seq<SchemaError>): seq<nat> {
    if errors == [] then []
    else
      PropertyIndices(errors[..|errors| - 1]) + if errors[|errors| - 1].dataPath == PropertiesPath then [|errors| - 1] else []
  }

  /** The collected messages are exactly those of the complaints at
      `PropertiesPath`, each at its position and in order. */
  lemma {:induction false} PropertyErrorsExact(errors: seq<SchemaError>)
    ensures var idx := PropertyIndices(errors);
      var r := PropertyErrors(errors);
      |idx| == |r|
      && (forall k :: 0 <= k < |idx| ==> idx[k] < |errors| && errors[idx[k]].dataPath == PropertiesPath
                                          && r[k] == errors[idx[k]].message)
      && (forall k, l :: 0 <= k < l < |idx| ==> idx[k] < idx[l])
      && (forall i :: 0 <= i < |errors| && errors[i].dataPath == PropertiesPath ==> i in idx)
  {
    if errors != [] {
      var prefix := errors[..|errors| - 1];
      PropertyErrorsExact(prefix);
      var idx := PropertyIndices(prefix);
      forall k | 0 <= k < |idx|
        ensures errors[idx[k]] == prefix[idx[k]]
      {
      }
      forall i | 0 <= i < |errors| - 1
        ensures errors[i] == prefix[i]
      {
      }
    }
  }

  /** A message is collected exactly when some complaint at `PropertiesPath`
      carries it. */
  lemma PropertyErrorsMembership(errors: seq<SchemaError>, m: string)
    ensures m in PropertyErrors(errors) <==>
      exists i :: 0 <= i < |errors| && errors[i].dataPath == PropertiesPath && errors[i].message == m
  {
    PropertyErrorsExact(errors);
    var idx := PropertyIndices(errors);
    var r := PropertyErrors(errors);
    if m in r {
      var k :| 0 <= k < |r| && r[k] == m;
      assert errors[idx[k]].message == m;
    }
    if exists i :: 0 <= i < |errors| && errors[i].dataPath == PropertiesPath && errors[i].message == m {
      var i :| 0 <= i < |errors| && errors[i].dataPath == PropertiesPath && errors[i].message == m;
      assert i in idx;
      var k :| 0 <= k < |idx| && idx[k] == i;
      assert r[k] == m;
    }
  }

  /** The text `onDropValidate` checks: the converted content when the file
      name is not JSON, else the file's own text. */
  function ValidationText(s: UploadState): Option<string>
    requires s.ui.fileName.Some?
  {
    if IsJson(Extension(s.ui.fileName.value)) then s.text else Some(s.ui.fileContent)
  }

  /** `onDropValidate`. Without a file name, without a text, or with a text
      that is not JSON the handler throws before any write. A valid text
      gives 'Valid!' and leaves the earlier complaints in place; an invalid
      one gives the complaints about the first feature's properties. The
      dialog opens in both cases. */
  function AfterValidate(s: UploadState, check: string -> Verdict): UploadState {
    if s.ui.fileName.None? || ValidationText(s).None? then s
    else
      match check(ValidationText(s).value)
      case Unparseable => s
      case Checked(valid, errors) =>
        if valid then s.(ui := s.ui.(validateMsg := ValidMessage, validationDialog := true))
        else s.(ui := s.ui.(validateMsg := InvalidMessage, validateErrors := PropertyErrors(errors), validationDialog := true))
  }

  lemma ValidateOutcome(s: UploadState, check: string -> Verdict)
    ensures var t := AfterValidate(s, check);
      var ran := s.ui.fileName.Some? && ValidationText(s).Some? && check(ValidationText(s).value).Checked?;
      && (!ran ==> t == s)
      && (ran ==> t.ui.validationDialog)
      && (ran && check(ValidationText(s).value).valid ==>
            t.ui.validateMsg == ValidMessage && t.ui.validateErrors == s.ui.validateErrors)
      && (ran && !check(ValidationText(s).value).valid ==>
            t.ui.validateMsg == InvalidMessage
            && forall m :: m in t.ui.validateErrors <==>
                 exists i :: 0 <= i < |check(ValidationText(s).value).errors|
                   && check(ValidationText(s).value).errors[i].dataPath == PropertiesPath
                   && check(ValidationText(s).value).errors[i].message == m)
      && t.uploads == s.uploads && t.counter == s.counter
  {
    if s.ui.fileName.Some? && ValidationText(s).Some? && check(ValidationText(s).value).Checked? {
      var errors := check(ValidationText(s).value).errors;
      forall m ensures m in PropertyErrors(errors) <==>
        exists i :: 0 <= i < |errors| && errors[i].dataPath == PropertiesPath && errors[i].message == m
      {
        PropertyErrorsMembership(errors, m);
      }
    }
  }

  // ---------------------------------------------------------------------------
  // The component

  class AddLayerValidateTab {
    var counter: nat
    var text: Option<string>
    var uploads: seq<AddedLayer>
    var requests: seq<Request>
    var state: UploadUi

    ghost function State(): UploadState
      reads this
    {
      UploadState(counter, text, uploads, requests, state)
    }

    ghost predicate Valid()
      reads this
    {
      Numbered(State())
    }

    constructor()
      ensures Valid()
      ensures State() == UploadState(0, None, [], [], InitialUi)
    {
      counter := 0;
      text := None;
      uploads := [];
      requests := [];
      state := InitialUi;
    }

    /** `_showDialog`. */
    method ShowDialog()
      requires Valid()
      modifies this
      ensures Valid()
      ensures State() == old(State()).(ui := old(state).(open := true))
    {
      state := state.(open := true);
    }

    /** `_closeDialog`. */
    method CloseDialog()
      requires Valid()
      modifies this
      ensures Valid()
      ensures State() == old(State()).(ui := Closed(old(state)))
      ensures state.fileName.None? && state.validateErrors == [] && state.validateMsg == ""
    {
      state := state.(conversionActive := false, fileName := None, showProgress := false, open := false,
                      validateErrors := [], validateMsg := "");
    }

    /** `handleOpen` and `handleClose`: the validation dialog. */
    method HandleOpen()
      requires Valid()
      modifies this
      ensures Valid()
      ensures State() == old(State()).(ui := old(state).(validationDialog := true))
    {
      state := state.(validationDialog := true);
    }

    method HandleClose()
      requires Valid()
      modifies this
      ensures Valid()
      ensures State() == old(State()).(ui := old(state).(validationDialog := false))
    {
      state := state.(validationDialog := false);
    }

    /** `_handleRequestClose`: the snackbar closes. */
    method HandleRequestClose()
      requires Valid()
      modifies this
      ensures Valid()
      ensures State() == old(State()).(ui := old(state).(errorOpen := false))
    {
      state := state.(errorOpen := false);
    }

    /** `_readFile`, called when the browser has read a dropped file. */
    method ReadFile(content: string)
      requires Valid()
      modifies this
      ensures Valid()
      ensures State() == old(State()).(text := Some(content))
    {
      text := Some(content);
    }

    /** `_readVectorFile`, up to the deferred read. */
    method ReadVectorFile()
      requires Valid()
      modifies this
      ensures Valid()
      ensures State() == ReadStarted(old(State()))
    {
      state := state.(showProgress := true, conversionActive := false);
    }

    /** The reader's answer handled, for a state with a file name. */
    method Deliver(u: UploadUi, r: ReadResult)
      requires Valid() && state.fileName.Some?
      modifies this
      ensures Valid()
      ensures State() == Delivered(old(State()), u, r)
    {
      match r {
        case ReadFailed(m) =>
          state := Failed(u, ReadError(m));
        case UnknownProjection =>
          state := Failed(u, UnsupportedProjection);
        case Features(n) =>
          if n == 0 {
            state := u;
          } else {
            var title := state.fileName.value;
            counter := counter + 1;
            uploads := uploads + [AddedLayer(AddLayerId(counter), title, n)];
            state := Closed(u);
          }
      }
    }

    /** The deferred part of `_readVectorFile`; `read` is what OpenLayers'
      reader makes of the text. */
    method ReadDeferred(read: FeatureReader)
      requires Valid()
      modifies this
      ensures Valid()
      ensures State() == AfterRead(old(State()), read)
    {
      var content := if state.conversion then Some(state.fileContent) else text;
      if Truthy(content) && Truthy(state.fileName) {
        var ext := if state.conversion then "geojson" else Extension(state.fileName.value);
        var u := state.(conversion := false);
        match Formats(ext) {
          case Absent =>
            state := u;
          case Inherited =>
            state := Failed(u, NotAReader);
          case Known(reader) =>
            Deliver(u, read(reader, content.value));
        }
      }
    }

    /** `_onDrop`; the file's text arrives later through `ReadFile`. */
    method OnDrop(files: seq<string>)
      requires Valid()
      modifies this
      ensures Valid()
      ensures State() == AfterDrop(old(State()), files)
    {
      if |files| == 1 {
        var name := files[0];
        var ext := Extension(name);
        state := state.(fileName := Some(name));
        if !IsJson(ext) {
          requests := requests + [ConvertFile(name, "." + ext)];
        }
      }
    }

    /** The conversion server's answer to a dropped file. */
    method FileConverted(content: string)
      requires Valid()
      modifies this
      ensures Valid()
      ensures State() == old(State()).(ui := old(state).(conversion := true, fileContent := content))
    {
      state := state.(conversion := true, fileContent := content);
    }

    /** `_urlUpload`: the URL field's value. */
    method UrlUpload(value: string)
      requires Valid()
      modifies this
      ensures Valid()
      ensures State() == old(State()).(ui := old(state).(urlinput := Some(value)))
    {
      state := state.(urlinput := Some(value));
    }

    /** `_urlGetConvert`: sends the URL for conversion, with 'isJson' for a
      JSON URL and '.georss' otherwise. Without a URL it throws before any
      request. */
    method UrlGetConvert()
      requires Valid()
      modifies this
      ensures Valid()
      ensures old(state.urlinput).None? ==> State() == old(State())
      ensures old(state.urlinput).Some? ==>
        var url := old(state.urlinput).value;
        State() == old(State()).(requests := old(requests) + [ConvertUrl(url, UrlSuffix(Extension(url)))])
    {
      if state.urlinput.Some? {
        var url := state.urlinput.value;
        var suffix := if Extension(url) == "json" then "isJson" else ".georss";
        requests := requests + [ConvertUrl(url, suffix)];
      }
    }

    /** The conversion server's answer to a URL, `isJson` telling which of the
      two requests it answers. */
    method UrlConverted(isJson: bool, content: string)
      requires Valid()
      modifies this
      ensures Valid()
      ensures State() == old(State()).(ui := old(state).(conversionActive := true, conversion := true, fileContent := content,
                                                        fileName := UrlFileName(isJson, old(state.urlinput))))
    {
      var name := if isJson then state.urlinput
                  else Some((if state.urlinput.Some? then state.urlinput.value else "null") + ".georss");
      state := state.(conversionActive := true, conversion := true, fileContent := content, fileName := name);
    }

    /** The loop of `onDropValidate` that keeps the complaints about the first
      feature's properties. */
    static method CollectPropertyErrors(errors: seq<SchemaError>) returns (messages: seq<string>)
      ensures messages == PropertyErrors(errors)
    {
      messages := [];
      var i := 0;
      while i < |errors|
        invariant 0 <= i <= |errors|
        invariant messages == PropertyErrors(errors[..i])
      {
        if errors[i].dataPath == PropertiesPath {
          messages := messages + [errors[i].message];
        }
        assert errors[..i + 1][..i] == errors[..i];
        i := i + 1;
      }
      assert errors[..i] == errors;
    }

    /** `onDropValidate`; `check` is the JSON parse and the schema validator. */
    method OnDropValidate(check: string -> Verdict)
      requires Valid()
      modifies this
      ensures Valid()
      ensures State() == AfterValidate(old(State()), check)
    {
      if state.fileName.Some? {
        var content := if IsJson(Extension(state.fileName.value)) then text else Some(state.fileContent);
        if content.Some? {
          var verdict := check(content.value);
          match verdict {
            case Unparseable =>
            case Checked(valid, errors) =>
              if valid {
                state := state.(validateMsg := ValidMessage, validationDialog := true);
              } else {
                var messages := CollectPropertyErrors(errors);
                state := state.(validateMsg := InvalidMessage, validateErrors := messages, validationDialog := true);
              }
          }
        }
      }
    }
  }
}
