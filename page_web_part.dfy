/**
 * PageWebPart, a client-side web part (canvas control type 3): its state, the pure step
 * functions that say what each operation does to that state, and the class whose methods
 * perform those operations field by field and are proved to agree with the step functions.
 *
 * The fields are grouped by the operation that assigns them, so that each step function
 * takes and returns only the group it changes. An operation that throws part way leaves
 * the assignments made before the throw in place; a step therefore returns the new state
 * together with the exception, if any.
 */
module PageWebParts {
  import opened Wrappers
  import opened Text
  import opened Json
  import opened Dom
  import opened Canvas
  import opened PageHtml

  /** The fields SetPropertiesJson assigns; dataVersion belongs to the CanvasControl base. */
  datatype JsonState = JsonState(
    propertiesJson: NString,
    properties: Json,
    dataVersion: NString,
    serverProcessedContent: Json,
    dynamicDataPaths: Json,
    dynamicDataValues: Json)

  /** The fields Import assigns besides those: the web part's identity and description. */
  datatype Descriptor = Descriptor(webPartId: NString, title: NString, description: NString, supportsFullBleed: bool)

  /** The fields ToHtml assigns besides the data version. */
  datatype RenderState = RenderState(
    canvasDataVersion: NString, jsonControlData: NString, jsonWebPartData: NString, webPartPreviewImage: string)

  /** The fields FromHtml assigns besides the groups above: what the markup says about the control. */
  datatype MarkupState = MarkupState(
    controlType: int, spControlData: Option<ControlData>, isHeaderControl: bool,
    webPartData: NString, htmlPropertiesData: NString, htmlProperties: NString)

  /** The fields the modelled operations only read: where the control is and how it is persisted. */
  datatype Placement = Placement(
    canvasControlData: string, instanceId: string, section: Option<CanvasSection>, column: Option<CanvasColumn>,
    usingSpControlDataOnly: bool)

  /** Every field a PageWebPart reads or writes. */
  datatype WebPartFields = WebPartFields(
    json: JsonState, descriptor: Descriptor, render: RenderState, markup: MarkupState, placement: Placement)

  /** A page component from the list of available components: its id and its JSON manifest. */
  datatype PageComponent = PageComponent(id: NString, manifest: NString)

  /**
   * The IPageComponent the page-component constructor is given: null, a PageComponent, or an
   * implementation of another type, which `as PageComponent` turns into null.
   */
  datatype ComponentArgument = NoComponent | AsPageComponent(component: PageComponent) | OtherComponent

  /** What Import calls: Guid parsing and "D" formatting, the JSON parser, raw JSON text. */
  datatype Importer = Importer(guidText: NString -> Result<string, Error>, parse: string -> Result<Json, Error>, rawText: Json -> string)

  /** What ToHtml calls: the serializer and Page.IdToDefaultWebPart. */
  datatype Renderer = Renderer(writer: Writer, kindOf: NString -> DefaultWebPart)

  /**
   * What FromHtml calls: the deserializer of WebPartControlData (null for the JSON literal
   * null), WebUtility.HtmlDecode, the JSON parser, raw JSON text.
   */
  datatype Reader = Reader(
    readControlData: string -> Result<Option<ControlData>, Error>,
    htmlDecode: string -> string,
    parse: string -> Result<Json, Error>,
    rawText: Json -> string)

  const EmptyObject: Json := JObject([])

  // ---------------------------------------------------------------------------------------
  // SetPropertiesJson

  /** The JSON group after SetPropertiesJson, and the exception it ended with. */
  datatype JsonStep = JsonStep(state: JsonState, error: Option<Error>)

  /** A member found by TryGetProperty replaces the current value; a missing one keeps it. */
  function Override(current: Json, found: Option<Json>): Json {
    if found.Some? then found.value else current
  }

  /** GetString(...).Trim('"') of a data version: GetString throws on a non-string, Trim on null. */
  function TrimmedVersion(v: Json): Result<string, Error> {
    match GetString(v)
    case Failure(e) => Failure(e)
    case Success(None) => Failure(NullReference)
    case Success(Some(s)) => Success(Trim(s, '"'))
  }

  /**
   * The members read out of `source` (the webPartData wrapper, or the whole object when it
   * has none): properties, then dataVersion with its surrounding '"' trimmed, then the
   * server-processed content and the dynamic data. `wholeAsDefault` makes the whole object
   * the properties when it has no `properties` member. TryGetProperty on a non-object throws.
   */
  function ReadMembers(j: JsonState, source: Json, wholeAsDefault: bool): JsonStep {
    if !source.JObject? then JsonStep(j, Some(InvalidOperation))
    else
      var ms := source.members;
      var p := Lookup(ms, "properties");
      var j1 := if p.Some? then j.(properties := p.value) else if wholeAsDefault then j.(properties := source) else j;
      var dv := Lookup(ms, "dataVersion");
      var version: Result<NString, Error> :=
        if dv.None? then Success(j1.dataVersion)
        else match TrimmedVersion(dv.value)
          case Failure(e) => Failure(e)
          case Success(v) => Success(Some(v));
      if version.Failure? then JsonStep(j1, Some(version.error))
      else
        JsonStep(j1.(dataVersion := version.value,
                     serverProcessedContent := Override(j1.serverProcessedContent, Lookup(ms, "serverProcessedContent")),
                     dynamicDataPaths := Override(j1.dynamicDataPaths, Lookup(ms, "dynamicDataPaths")),
                     dynamicDataValues := Override(j1.dynamicDataValues, Lookup(ms, "dynamicDataValues"))), None)
  }

  /**
   * What ReadMembers reads: the properties (or the whole object, or nothing); a data version
   * only from a string, which is kept trimmed; the server-processed content and the dynamic
   * data from their members, each kept when missing. Only a data version that is not a
   * string makes it throw, once the source is an object.
   */
  lemma ReadMembersReads(j: JsonState, source: Json, wholeAsDefault: bool)
    ensures !source.JObject? ==> ReadMembers(j, source, wholeAsDefault) == JsonStep(j, Some(InvalidOperation))
    ensures ReadMembers(j, source, wholeAsDefault).state.propertiesJson == j.propertiesJson
    ensures source.JObject? ==>
              var p := Lookup(source.members, "properties");
              ReadMembers(j, source, wholeAsDefault).state.properties ==
                (if p.Some? then p.value else if wholeAsDefault then source else j.properties)
    ensures var r := ReadMembers(j, source, wholeAsDefault);
            source.JObject? && r.error.None? ==>
              var ms := source.members;
              r.state.serverProcessedContent == Override(j.serverProcessedContent, Lookup(ms, "serverProcessedContent")) &&
              r.state.dynamicDataPaths == Override(j.dynamicDataPaths, Lookup(ms, "dynamicDataPaths")) &&
              r.state.dynamicDataValues == Override(j.dynamicDataValues, Lookup(ms, "dynamicDataValues")) &&
              (Lookup(ms, "dataVersion").None? ==> r.state.dataVersion == j.dataVersion) &&
              (Lookup(ms, "dataVersion").Some? ==>
                 Lookup(ms, "dataVersion").value.JString? &&
                 r.state.dataVersion == Some(Trim(Lookup(ms, "dataVersion").value.s, '"')))
    ensures var r := ReadMembers(j, source, wholeAsDefault);
            source.JObject? && r.error.Some? ==>
              Lookup(source.members, "dataVersion").Some? && !Lookup(source.members, "dataVersion").value.JString?
    ensures var r := ReadMembers(j, source, wholeAsDefault);
            r.error.None? && r.state.dataVersion != j.dataVersion ==>
              r.state.dataVersion.Some? && var v := r.state.dataVersion.value;
              v == [] || (v[0] != '"' && v[|v| - 1] != '"')
  {
    if source.JObject? {
      var dv := Lookup(source.members, "dataVersion");
      if dv.Some? && dv.value.JString? {
        TrimCuts(dv.value.s, '"');
      }
    }
  }

  /**
   * SetPropertiesJson: a JSON null changes nothing. Otherwise the text of the JSON is kept,
   * and the members come from inside a `webPartData` member when there is one, the
   * top-level members being ignored; from the top level otherwise, where an object without
   * `properties` is itself the properties.
   */
  function SetPropertiesJsonStep(j: JsonState, parsed: Json, rawText: Json -> string): JsonStep {
    if parsed == JNull then JsonStep(j, None)
    else
      var j1 := j.(propertiesJson := Some(ToText(parsed, rawText)));
      match TryGetProperty(parsed, "webPartData")
      case Failure(e) => JsonStep(j1, Some(e))
      case Success(Some(w)) => ReadMembers(j1, w, false)
      case Success(None) => ReadMembers(j1, parsed, true)
  }

  /**
   * SetPropertiesJson keeps the JSON's text, reads a `webPartData` wrapper in preference to
   * the top level, throws on anything but an object or null, and leaves a data version
   * that it changed without a surrounding '"'.
   */
  lemma SetPropertiesJsonReads(j: JsonState, parsed: Json, rawText: Json -> string)
    ensures parsed == JNull ==> SetPropertiesJsonStep(j, parsed, rawText) == JsonStep(j, None)
    ensures parsed != JNull && !parsed.JObject? ==>
              SetPropertiesJsonStep(j, parsed, rawText) ==
              JsonStep(j.(propertiesJson := Some(ToText(parsed, rawText))), Some(InvalidOperation))
    ensures parsed.JObject? ==> SetPropertiesJsonStep(j, parsed, rawText).state.propertiesJson == Some(ToText(parsed, rawText))
    ensures var r := SetPropertiesJsonStep(j, parsed, rawText);
            parsed.JObject? && Lookup(parsed.members, "webPartData").Some? ==>
              var w := Lookup(parsed.members, "webPartData").value;
              (w.JObject? ==> r.state.properties == Override(j.properties, Lookup(w.members, "properties")) &&
                              (r.error.None? ==>
                                 r.state.serverProcessedContent == Override(j.serverProcessedContent, Lookup(w.members, "serverProcessedContent")))) &&
              (!w.JObject? ==> r.error == Some(InvalidOperation))
    ensures var r := SetPropertiesJsonStep(j, parsed, rawText);
            parsed.JObject? && Lookup(parsed.members, "webPartData").None? ==>
              r.state.properties == Override(parsed, Lookup(parsed.members, "properties")) &&
              (r.error.None? ==>
                 r.state.serverProcessedContent == Override(j.serverProcessedContent, Lookup(parsed.members, "serverProcessedContent")))
    ensures var r := SetPropertiesJsonStep(j, parsed, rawText);
            r.error.None? && r.state.dataVersion != j.dataVersion ==>
              r.state.dataVersion.Some? && var v := r.state.dataVersion.value;
              v == [] || (v[0] != '"' && v[|v| - 1] != '"')
  {
    if parsed.JObject? {
      var j1 := j.(propertiesJson := Some(ToText(parsed, rawText)));
      var w := Lookup(parsed.members, "webPartData");
      if w.Some? {
        ReadMembersReads(j1, w.value, false);
      } else {
        ReadMembersReads(j1, parsed, true);
      }
    }
  }

  /** The empty object SetPropertiesJson is given by the constructor becomes the properties, and nothing else changes. */
  lemma SetPropertiesJsonEmptyObject(j: JsonState, rawText: Json -> string)
    ensures SetPropertiesJsonStep(j, EmptyObject, rawText) ==
            JsonStep(j.(propertiesJson := Some(rawText(EmptyObject)), properties := EmptyObject), None)
  {
  }

  /**
   * When both a `webPartData` wrapper and top-level members are present, the wrapper's
   * properties, data version and server-processed content are the ones kept.
   */
  lemma WebPartDataWins(j: JsonState, top: seq<Member>, inner: seq<Member>, p: Json, v: string, spc: Json, rawText: Json -> string)
    requires Lookup(top, "webPartData") == Some(JObject(inner))
    requires Lookup(inner, "properties") == Some(p)
    requires Lookup(inner, "dataVersion") == Some(JString(v))
    requires Lookup(inner, "serverProcessedContent") == Some(spc)
    ensures var r := SetPropertiesJsonStep(j, JObject(top), rawText);
            r.error == None && r.state.properties == p && r.state.dataVersion == Some(Trim(v, '"')) &&
            r.state.serverProcessedContent == spc
  {
  }

  /** A data version written as a quoted string inside the JSON string is unquoted. */
  lemma DataVersionUnquoted(j: JsonState, ms: seq<Member>, v: string, rawText: Json -> string)
    requires Lookup(ms, "webPartData").None?
    requires Lookup(ms, "dataVersion") == Some(JString("\"" + v + "\""))
    requires v == [] || (v[0] != '"' && v[|v| - 1] != '"')
    ensures SetPropertiesJsonStep(j, JObject(ms), rawText).state.dataVersion == Some(v)
  {
    TrimWrapped(v, '"');
    assert [('"')] + v + [('"')] == "\"" + v + "\"";
  }

  // ---------------------------------------------------------------------------------------
  // Construction

  /**
   * The state the parameterless constructor leaves: the base control's data version and
   * placement, control type 3, empty title, description, web-part data and html properties,
   * no full bleed, not a header control, no preview image, and the properties, the
   * server-processed content and the dynamic data all an empty object, the properties also
   * as their text.
   */
  function Initial(base: CanvasControlState, rawText: Json -> string): WebPartFields {
    WebPartFields(
      JsonState(Some(rawText(EmptyObject)), EmptyObject, base.dataVersion, EmptyObject, EmptyObject, EmptyObject),
      Descriptor(None, Some(""), Some(""), false),
      RenderState(base.canvasDataVersion, base.jsonControlData, None, ""),
      MarkupState(3, None, false, Some(""), Some(""), Some("")),
      Placement(base.canvasControlData, base.instanceId, base.section, base.column, false))
  }

  // ---------------------------------------------------------------------------------------
  // Import

  /** The descriptor and JSON groups after a step that assigns both, and the exception it ended with. */
  datatype Configured = Configured(descriptor: Descriptor, json: JsonState, error: Option<Error>)

  /** preconfiguredEntries.First() of a manifest. */
  function FirstEntry(manifest: Json): Result<Json, Error> {
    match GetProperty(manifest, "preconfiguredEntries")
    case Failure(e) => Failure(e)
    case Success(entries) =>
      match EnumerateArray(entries)
      case Failure(e) => Failure(e)
      case Success(items) => First(items)
  }

  /** The first preconfigured entry's title.default. */
  function EntryTitle(manifest: Json): Result<NString, Error> {
    match FirstEntry(manifest)
    case Failure(e) => Failure(e)
    case Success(entry) =>
      match GetProperty(entry, "title")
      case Failure(e) => Failure(e)
      case Success(title) =>
        match GetProperty(title, "default")
        case Failure(e) => Failure(e)
        case Success(d) => GetString(d)
  }

  /** The first preconfigured entry's properties. */
  function EntryProperties(manifest: Json): Result<Json, Error> {
    match FirstEntry(manifest)
    case Failure(e) => Failure(e)
    case Success(entry) => GetProperty(entry, "properties")
  }

  /** The supportsFullBleed flag of a manifest: false when missing. */
  function FullBleedOf(manifest: Json): Result<bool, Error> {
    match TryGetProperty(manifest, "supportsFullBleed")
    case Failure(e) => Failure(e)
    case Success(None) => Success(false)
    case Success(Some(v)) => GetBoolean(v)
  }

  /** The manifest Import parses; a missing manifest throws. */
  function ManifestOf(component: PageComponent, env: Importer): Result<Json, Error> {
    if component.manifest.None? then Failure(ArgumentNull) else env.parse(component.manifest.value)
  }

  /**
   * Import: the web part id, then the manifest's title (as Title and as Description), its
   * full-bleed flag and its first entry's properties; a given updater then rewrites the
   * private propertiesJson field.
   */
  function ImportStep(d: Descriptor, j: JsonState, component: PageComponent, updater: Option<NString -> NString>, env: Importer): Configured {
    match env.guidText(component.id)
    case Failure(e) => Configured(d, j, Some(e))
    case Success(id) =>
      var d1 := d.(webPartId := Some(id));
      match ManifestOf(component, env)
      case Failure(e) => Configured(d1, j, Some(e))
      case Success(m) =>
        match EntryTitle(m)
        case Failure(e) => Configured(d1, j, Some(e))
        case Success(title) =>
          var d2 := d1.(title := title, description := title);
          match FullBleedOf(m)
          case Failure(e) => Configured(d2, j, Some(e))
          case Success(fullBleed) =>
            var d3 := d2.(supportsFullBleed := fullBleed);
            match EntryProperties(m)
            case Failure(e) => Configured(d3, j, Some(e))
            case Success(props) =>
              var s := SetPropertiesJsonStep(j, props, env.rawText);
              if s.error.Some? then Configured(d3, s.state, s.error)
              else if updater.Some? then Configured(d3, s.state.(propertiesJson := updater.value(s.state.propertiesJson)), None)
              else Configured(d3, s.state, None)
  }

  /**
   * A successful Import sets the web part id to the component id as a "D"-formatted GUID,
   * Title and Description both to the first preconfigured entry's title.default, full bleed
   * from the manifest, and the JSON group as SetPropertiesJson leaves it for the entry's
   * properties; an id that is not a GUID throws before anything changes.
   */
  lemma ImportReads(d: Descriptor, j: JsonState, component: PageComponent, updater: Option<NString -> NString>, env: Importer)
    ensures env.guidText(component.id).Failure? ==>
              ImportStep(d, j, component, updater, env) == Configured(d, j, Some(env.guidText(component.id).error))
    ensures var r := ImportStep(d, j, component, updater, env);
            r.error.None? ==>
              env.guidText(component.id).Success? && r.descriptor.webPartId == Some(env.guidText(component.id).value) &&
              ManifestOf(component, env).Success? &&
              var m := ManifestOf(component, env).value;
              Success(r.descriptor.title) == EntryTitle(m) && r.descriptor.description == r.descriptor.title &&
              Success(r.descriptor.supportsFullBleed) == FullBleedOf(m) &&
              EntryProperties(m).Success? &&
              var s := SetPropertiesJsonStep(j, EntryProperties(m).value, env.rawText);
              s.error.None? &&
              r.json == s.state.(propertiesJson := if updater.Some? then updater.value(s.state.propertiesJson) else s.state.propertiesJson)
  {
  }

  /**
   * The page-component constructor: a missing component throws ArgumentNullException, one of
   * another type reaches Import as null and throws at its id, otherwise the new web part is
   * imported from it; an exception from Import leaves no web part.
   */
  function FromComponentStep(base: CanvasControlState, component: ComponentArgument, env: Importer): Result<WebPartFields, Error> {
    match component
    case NoComponent => Failure(ArgumentNull)
    case OtherComponent => Failure(NullReference)
    case AsPageComponent(c) =>
      var f := Initial(base, env.rawText);
      var s := ImportStep(f.descriptor, f.json, c, None, env);
      if s.error.Some? then Failure(s.error.value) else Success(f.(descriptor := s.descriptor, json := s.json))
  }

  /**
   * The updater handed to Import changes only the private propertiesJson field, which
   * nothing reads: the properties, and so the PropertiesJson text, are the same whatever
   * the updater does.
   */
  lemma ImportIgnoresUpdater(d: Descriptor, j: JsonState, component: PageComponent, u: NString -> NString, env: Importer)
    ensures var a := ImportStep(d, j, component, Some(u), env);
            var b := ImportStep(d, j, component, None, env);
            a.error == b.error && a.descriptor == b.descriptor &&
            a.json.(propertiesJson := b.json.propertiesJson) == b.json &&
            ToText(a.json.properties, env.rawText) == ToText(b.json.properties, env.rawText)
  {
  }

  /**
   * Import as its documentation describes it: the updater's result is assigned through the
   * public PropertiesJson setter, which parses the text (a null text throws) and hands the
   * parsed JSON to SetPropertiesJson, so the updated text becomes the web part's properties.
   */
  function ImportIntendedStep(d: Descriptor, j: JsonState, component: PageComponent, updater: Option<NString -> NString>, env: Importer): Configured {
    var r := ImportStep(d, j, component, None, env);
    if r.error.Some? || updater.None? then r
    else
      var text := updater.value(r.json.propertiesJson);
      if text.None? then Configured(r.descriptor, r.json, Some(ArgumentNull))
      else
        match env.parse(text.value)
        case Failure(e) => Configured(r.descriptor, r.json, Some(e))
        case Success(parsed) =>
          var s := SetPropertiesJsonStep(r.json, parsed, env.rawText);
          Configured(r.descriptor, s.state, s.error)
  }

  /**
   * Without an updater the intended Import is Import as written. With one, an updated text
   * that parses to an object without a `webPartData` wrapper becomes the properties (its
   * `properties` member, or the whole object) and the kept properties text; a null text throws.
   */
  lemma ImportIntendedAppliesUpdater(d: Descriptor, j: JsonState, component: PageComponent, updater: Option<NString -> NString>, env: Importer)
    ensures updater.None? ==> ImportIntendedStep(d, j, component, updater, env) == ImportStep(d, j, component, None, env)
    ensures var r0 := ImportStep(d, j, component, None, env);
            var r := ImportIntendedStep(d, j, component, updater, env);
            r0.error.None? && updater.Some? && updater.value(r0.json.propertiesJson).None? ==>
              r == Configured(r0.descriptor, r0.json, Some(ArgumentNull))
    ensures var r0 := ImportStep(d, j, component, None, env);
            var r := ImportIntendedStep(d, j, component, updater, env);
            r0.error.None? && updater.Some? && updater.value(r0.json.propertiesJson).Some? &&
            env.parse(updater.value(r0.json.propertiesJson).value).Success? ==>
              var parsed := env.parse(updater.value(r0.json.propertiesJson).value).value;
              parsed.JObject? && Lookup(parsed.members, "webPartData").None? ==>
                r.descriptor == r0.descriptor &&
                r.json.properties == Override(parsed, Lookup(parsed.members, "properties")) &&
                r.json.propertiesJson == Some(ToText(parsed, env.rawText))
  {
    var r0 := ImportStep(d, j, component, None, env);
    if r0.error.None? && updater.Some? {
      var text := updater.value(r0.json.propertiesJson);
      if text.Some? && env.parse(text.value).Success? {
        SetPropertiesJsonReads(r0.json, env.parse(text.value).value, env.rawText);
      }
    }
  }

  /**
   * Import as written and as intended disagree on every updater whose text names properties
   * other than those of the manifest: as written the updater never reaches the properties.
   */
  lemma ImportUpdaterDiscrepancy(d: Descriptor, j: JsonState, component: PageComponent, u: NString -> NString, env: Importer, ms: seq<Member>)
    requires ImportStep(d, j, component, None, env).error.None?
    requires var t := u(ImportStep(d, j, component, None, env).json.propertiesJson);
             t.Some? && env.parse(t.value) == Success(JObject(ms))
    requires Lookup(ms, "webPartData").None?
    requires Override(JObject(ms), Lookup(ms, "properties")) != ImportStep(d, j, component, None, env).json.properties
    ensures ImportStep(d, j, component, Some(u), env).json.properties != ImportIntendedStep(d, j, component, Some(u), env).json.properties
  {
    ImportIgnoresUpdater(d, j, component, u, env);
    ImportIntendedAppliesUpdater(d, j, component, Some(u), env);
  }

  // ---------------------------------------------------------------------------------------
  // ToHtml

  /** The fields ToHtml assigns, and the markup it returns or the exception it throws. */
  datatype Rendered = Rendered(dataVersion: NString, render: RenderState, html: Result<string, Error>)

  /** The fields the JSON part of ToHtml assigns for a web part, and the exception it ended with. */
  datatype Serialized = Serialized(dataVersion: NString, render: RenderState, error: Option<Error>)

  /**
   * The markup ToHtml builds once the JSON is ready: the single control-data div for a
   * control persisted through its control data only and for a header control, otherwise
   * the nested web-part divs around the rendered html properties.
   */
  function Markup(f: WebPartFields, rawText: Json -> string): Result<string, Error> {
    var p := f.placement;
    var dv := f.json.dataVersion;
    if p.usingSpControlDataOnly || f.markup.isHeaderControl then
      Success(ControlOnlyHtml(p.canvasControlData, dv, Str(f.render.jsonControlData)))
    else
      match HtmlPropertiesMarkup(f.json.serverProcessedContent, rawText)
      case Failure(e) => Failure(e)
      case Success(props) =>
        Success(WebPartHtml(p.canvasControlData, dv, Str(f.render.jsonControlData), f.markup.webPartData,
                            Str(f.render.jsonWebPartData), f.descriptor.webPartId, f.markup.htmlProperties, props))
  }

  /** The WebPartData record serialised for a web part, its JSON members still placeholders. */
  function WebPartDataRecord(cd: ControlData, d: Descriptor, j: JsonState): WebPartData {
    WebPartData(cd.webPartId, cd.id, d.title, d.description, j.dataVersion,
                PropertiesPlaceholder, DynamicDataPathsPlaceholder, DynamicDataValuesPlaceholder, ServerProcessedContentPlaceholder)
  }

  /** The HeaderControlData record serialised for a header control. */
  function HeaderDataRecord(f: WebPartFields): HeaderControlData {
    HeaderControlData(f.descriptor.webPartId, f.placement.instanceId, f.descriptor.title, f.descriptor.description,
                      f.json.dataVersion, PropertiesPlaceholder, ServerProcessedContentPlaceholder)
  }

  /** The web-part JSON of ToHtml: the serialised record with the four JSON members put in. */
  function WebPartJson(cd: ControlData, d: Descriptor, j: JsonState, env: Renderer): string {
    var rawText := env.writer.rawText;
    FillWebPartData(env.writer.webPartData(WebPartDataRecord(cd, d, j)),
                    ToText(j.properties, rawText), ToText(j.serverProcessedContent, rawText),
                    ToText(j.dynamicDataPaths, rawText), ToText(j.dynamicDataValues, rawText))
  }

  /**
   * The control-data JSON of ToHtml; a control persisted through its control data only
   * carries the web-part JSON inside it, in place of its placeholder.
   */
  function ControlJson(cd: ControlData, webPartJson: string, usingSpControlDataOnly: bool, env: Renderer): string {
    if usingSpControlDataOnly then Replace(env.writer.controlData(cd), Quoted(WebPartDataPlaceholder), webPartJson)
    else env.writer.controlData(cd)
  }

  /**
   * The JSON part of ToHtml for a web part: the placement checks and the control data, the
   * data-version upgrade, the preview image, then the two JSON texts.
   */
  function WebPartToJson(f: WebPartFields, controlIndex: ControlIndex, env: Renderer): Serialized {
    var p := f.placement;
    var d := f.descriptor;
    match ControlDataFor(f.markup.controlType, p.instanceId, d.webPartId, p.section, p.column,
                         d.supportsFullBleed, controlIndex, p.usingSpControlDataOnly)
    case Failure(e) => Serialized(f.json.dataVersion, f.render, Some(e))
    case Success(cd) =>
      var dv := UpgradeDataVersion(f.json.dataVersion, env.kindOf(cd.webPartId));
      match PreviewImageAfter(f.json.serverProcessedContent, f.render.webPartPreviewImage, env.writer.rawText)
      case Failure(e) => Serialized(dv, f.render, Some(e))
      case Success(image) =>
        var webPartJson := WebPartJson(cd, d, f.json.(dataVersion := dv), env);
        Serialized(dv, RenderState(f.render.canvasDataVersion, Some(ControlJson(cd, webPartJson, p.usingSpControlDataOnly, env)),
                                   Some(webPartJson), image), None)
  }

  /** The JSON part of ToHtml for a header control: no placement check, no upgrade, no preview image. */
  function HeaderToJson(f: WebPartFields, env: Renderer): RenderState {
    var rawText := env.writer.rawText;
    var json := FillHeaderData(env.writer.headerData(HeaderDataRecord(f)),
                               ToText(f.json.properties, rawText), ToText(f.json.serverProcessedContent, rawText));
    f.render.(canvasDataVersion := f.json.dataVersion, jsonWebPartData := Some(json), jsonControlData := Some(json))
  }

  /** The JSON part of ToHtml, for a header control or for a web part. */
  function ToHtmlJson(f: WebPartFields, controlIndex: ControlIndex, env: Renderer): Serialized {
    if f.markup.isHeaderControl then Serialized(f.json.dataVersion, HeaderToJson(f, env), None)
    else WebPartToJson(f, controlIndex, env)
  }

  /** The fields once the JSON part of ToHtml has assigned them. */
  function AfterJson(f: WebPartFields, s: Serialized): WebPartFields {
    f.(json := f.json.(dataVersion := s.dataVersion), render := s.render)
  }

  /** ToHtml: the JSON part, then the markup built from the fields as it leaves them. */
  function ToHtmlStep(f: WebPartFields, controlIndex: ControlIndex, env: Renderer): Rendered {
    var s := ToHtmlJson(f, controlIndex, env);
    Rendered(s.dataVersion, s.render,
             if s.error.Some? then Failure(s.error.value) else Markup(AfterJson(f, s), env.writer.rawText))
  }

  /**
   * The JSON part of ToHtml refuses a web part in a one-column full-width section that does
   * not support full bleed before anything changes, and never refuses a header control; a
   * header control's control data is its web-part JSON and its canvas data version its data
   * version; a web part's data version is upgraded for its kind and its preview image chosen
   * as the image sources say.
   */
  lemma ToHtmlSerializes(f: WebPartFields, controlIndex: ControlIndex, env: Renderer)
    ensures var s := ToHtmlJson(f, controlIndex, env);
            !f.markup.isHeaderControl && f.placement.section.Some? &&
            f.placement.section.value.template == OneColumnFullWidth && !f.descriptor.supportsFullBleed ==>
              s.error == Some(ControlNotAllowedInFullWidthSection) && s.dataVersion == f.json.dataVersion && s.render == f.render
    ensures var s := ToHtmlJson(f, controlIndex, env);
            f.markup.isHeaderControl ==>
              s.error.None? && s.dataVersion == f.json.dataVersion && s.render.canvasDataVersion == f.json.dataVersion &&
              s.render.jsonControlData.Some? && s.render.jsonControlData == s.render.jsonWebPartData &&
              s.render.webPartPreviewImage == f.render.webPartPreviewImage
    ensures var s := ToHtmlJson(f, controlIndex, env);
            !f.markup.isHeaderControl && s.error.None? ==>
              s.dataVersion == UpgradeDataVersion(f.json.dataVersion, env.kindOf(f.descriptor.webPartId)) &&
              s.render.canvasDataVersion == f.render.canvasDataVersion &&
              s.render.jsonControlData.Some? && s.render.jsonWebPartData.Some? &&
              PreviewImageAfter(f.json.serverProcessedContent, f.render.webPartPreviewImage, env.writer.rawText) ==
                Success(s.render.webPartPreviewImage)
  {
  }

  /**
   * The markup of ToHtml: the single control-data div for a control persisted through its
   * control data only and for a header control, the nested web-part divs around the html
   * properties otherwise; it carries the data version and the JSON the JSON part left.
   */
  lemma ToHtmlMarkup(f: WebPartFields, controlIndex: ControlIndex, env: Renderer)
    ensures var r := ToHtmlStep(f, controlIndex, env);
            r.html.Success? && (f.placement.usingSpControlDataOnly || f.markup.isHeaderControl) ==>
              r.html.value == ControlOnlyHtml(f.placement.canvasControlData, r.dataVersion, Str(r.render.jsonControlData))
    ensures var r := ToHtmlStep(f, controlIndex, env);
            r.html.Success? && !f.placement.usingSpControlDataOnly && !f.markup.isHeaderControl ==>
              HtmlPropertiesMarkup(f.json.serverProcessedContent, env.writer.rawText).Success? &&
              r.html.value == WebPartHtml(f.placement.canvasControlData, r.dataVersion, Str(r.render.jsonControlData),
                                          f.markup.webPartData, Str(r.render.jsonWebPartData), f.descriptor.webPartId,
                                          f.markup.htmlProperties,
                                          HtmlPropertiesMarkup(f.json.serverProcessedContent, env.writer.rawText).value)
    ensures f.markup.isHeaderControl ==> ToHtmlStep(f, controlIndex, env).html.Success?
  {
  }

  // ---------------------------------------------------------------------------------------
  // FromHtml

  /** The groups FromHtml assigns, and the exception it ended with. */
  datatype Restored = Restored(markup: MarkupState, descriptor: Descriptor, json: JsonState, error: Option<Error>)

  /** A title or description: GetString of the member, "" when the member is missing. */
  function StringOr(found: Option<Json>): Result<NString, Error> {
    if found.None? then Success(Some("")) else GetString(found.value)
  }

  /** The html-properties div of a web-part div: the first div below it with that attribute. */
  function HtmlPropertiesDiv(wpDiv: Element): Option<Element> {
    FirstWithAttribute(Descendants(wpDiv), WebPartHtmlPropertiesAttribute)
  }

  /** The groups the end of FromHtml assigns, and the exception it ended with. */
  datatype Identified = Identified(markup: MarkupState, descriptor: Descriptor, error: Option<Error>)

  /**
   * The end of FromHtml: the web part id, a missing `id` throwing; then for a web part its
   * html-properties div, which must be there.
   */
  function ReadIdAndHtmlProperties(m: MarkupState, d: Descriptor, ms: seq<Member>, wpDiv: Option<Element>): Identified {
    var id: Result<NString, Error> := if Lookup(ms, "id").None? then Failure(KeyNotFound) else GetString(Lookup(ms, "id").value);
    if id.Failure? then Identified(m, d, Some(id.error))
    else
      var d1 := d.(webPartId := id.value);
      if wpDiv.None? then Identified(m, d1, None)
      else
        match HtmlPropertiesDiv(wpDiv.value)
        case None => Identified(m, d1, Some(NullReference))
        case Some(h) =>
          Identified(m.(htmlPropertiesData := Some(h.innerHtml), htmlProperties := GetAttribute(h, WebPartHtmlPropertiesAttribute)),
                     d1, None)
  }

  /** What the web-part JSON and the html-properties div say, read back by FromHtml. */
  predicate IdAndHtmlPropertiesRead(m: MarkupState, d: Descriptor, ms: seq<Member>, wpDiv: Option<Element>)
  {
    Lookup(ms, "id").Some? && Success(d.webPartId) == GetString(Lookup(ms, "id").value) &&
    (wpDiv.Some? ==>
       HtmlPropertiesDiv(wpDiv.value).Some? &&
       m.htmlPropertiesData == Some(HtmlPropertiesDiv(wpDiv.value).value.innerHtml) &&
       m.htmlProperties == Some(HtmlPropertiesDiv(wpDiv.value).value.attributes[WebPartHtmlPropertiesAttribute]))
  }

  /**
   * The end of FromHtml changes only the web part id and the html properties; it succeeds
   * exactly when the id is there as a string or null and, for a web part, the html-properties
   * div is there, and then the fields hold what they say.
   */
  lemma ReadIdAndHtmlPropertiesReads(m: MarkupState, d: Descriptor, ms: seq<Member>, wpDiv: Option<Element>)
    ensures var r := ReadIdAndHtmlProperties(m, d, ms, wpDiv);
            r.markup.controlType == m.controlType && r.markup.spControlData == m.spControlData &&
            r.markup.isHeaderControl == m.isHeaderControl && r.markup.webPartData == m.webPartData &&
            r.descriptor.title == d.title && r.descriptor.description == d.description &&
            r.descriptor.supportsFullBleed == d.supportsFullBleed
    ensures var r := ReadIdAndHtmlProperties(m, d, ms, wpDiv);
            r.error.None? <==>
              Lookup(ms, "id").Some? && GetString(Lookup(ms, "id").value).Success? &&
              (wpDiv.Some? ==> HtmlPropertiesDiv(wpDiv.value).Some?)
    ensures var r := ReadIdAndHtmlProperties(m, d, ms, wpDiv);
            r.error.None? ==> IdAndHtmlPropertiesRead(r.markup, r.descriptor, ms, wpDiv)
    ensures wpDiv.None? ==> ReadIdAndHtmlProperties(m, d, ms, wpDiv).markup == m
  {
  }

  /** The data version (not trimmed here), then the full-bleed flag from properties.isFullWidth. */
  function ReadVersionAndFullBleed(d: Descriptor, j: JsonState, ms: seq<Member>, props: Json): Configured {
    var dv := Lookup(ms, "dataVersion");
    var version: Result<NString, Error> := if dv.None? then Success(j.dataVersion) else GetString(dv.value);
    if version.Failure? then Configured(d, j, Some(version.error))
    else
      var j1 := j.(dataVersion := version.value);
      match TryGetProperty(props, "isFullWidth")
      case Failure(e) => Configured(d, j1, Some(e))
      case Success(None) => Configured(d, j1, None)
      case Success(Some(v)) =>
        match GetBoolean(v)
        case Failure(e) => Configured(d, j1, Some(e))
        case Success(b) => Configured(d.(supportsFullBleed := b), j1, None)
  }

  /**
   * The data version is read from the web-part JSON as it stands (a string or null, kept
   * when missing), and full bleed from the properties' isFullWidth (a boolean, kept when
   * missing); nothing else changes.
   */
  lemma ReadVersionAndFullBleedReads(d: Descriptor, j: JsonState, ms: seq<Member>, props: Json)
    ensures var r := ReadVersionAndFullBleed(d, j, ms, props);
            r.descriptor.webPartId == d.webPartId && r.descriptor.title == d.title && r.descriptor.description == d.description &&
            r.json.propertiesJson == j.propertiesJson && r.json.properties == j.properties &&
            r.json.serverProcessedContent == j.serverProcessedContent &&
            r.json.dynamicDataPaths == j.dynamicDataPaths && r.json.dynamicDataValues == j.dynamicDataValues
    ensures var r := ReadVersionAndFullBleed(d, j, ms, props);
            r.error.None? ==>
              (Lookup(ms, "dataVersion").None? ==> r.json.dataVersion == j.dataVersion) &&
              (Lookup(ms, "dataVersion").Some? ==> Success(r.json.dataVersion) == GetString(Lookup(ms, "dataVersion").value)) &&
              props.JObject? &&
              (Lookup(props.members, "isFullWidth").None? ==> r.descriptor.supportsFullBleed == d.supportsFullBleed) &&
              (Lookup(props.members, "isFullWidth").Some? ==>
                 Success(r.descriptor.supportsFullBleed) == GetBoolean(Lookup(props.members, "isFullWidth").value))
    ensures !props.JObject? ==> ReadVersionAndFullBleed(d, j, ms, props).error.Some?
  {
  }

  /**
   * The part of FromHtml after the properties are set: data version and full bleed, the
   * server-processed content and dynamic data, each kept when missing, then the id and the
   * html properties.
   */
  function ReadAfterProperties(m: MarkupState, d: Descriptor, j: JsonState, ms: seq<Member>, props: Json, wpDiv: Option<Element>): Restored {
    var c := ReadVersionAndFullBleed(d, j, ms, props);
    if c.error.Some? then Restored(m, c.descriptor, c.json, c.error)
    else
      var rest := ReadIdAndHtmlProperties(m, c.descriptor, ms, wpDiv);
      Restored(rest.markup, rest.descriptor, DynamicDataRead(c.json, ms), rest.error)
  }

  /** serverProcessedContent, dynamicDataPaths and dynamicDataValues, each replaced where the JSON gives it. */
  function DynamicDataRead(j: JsonState, ms: seq<Member>): JsonState {
    j.(serverProcessedContent := Override(j.serverProcessedContent, Lookup(ms, "serverProcessedContent")),
       dynamicDataPaths := Override(j.dynamicDataPaths, Lookup(ms, "dynamicDataPaths")),
       dynamicDataValues := Override(j.dynamicDataValues, Lookup(ms, "dynamicDataValues")))
  }

  /** The facts FromHtml establishes from a web-part JSON `ms` once it is done with it. */
  predicate WebPartJsonRead(r: Restored, m: MarkupState, j: JsonState, ms: seq<Member>, wpDiv: Option<Element>)
  {
    r.json.serverProcessedContent == Override(j.serverProcessedContent, Lookup(ms, "serverProcessedContent")) &&
    r.json.dynamicDataPaths == Override(j.dynamicDataPaths, Lookup(ms, "dynamicDataPaths")) &&
    r.json.dynamicDataValues == Override(j.dynamicDataValues, Lookup(ms, "dynamicDataValues")) &&
    (Lookup(ms, "dataVersion").Some? ==> Success(r.json.dataVersion) == GetString(Lookup(ms, "dataVersion").value)) &&
    IdAndHtmlPropertiesRead(r.markup, r.descriptor, ms, wpDiv) &&
    (wpDiv.None? ==> r.markup == m)
  }

  /** After the properties, FromHtml keeps title, description and properties and reads the rest. */
  lemma ReadAfterPropertiesReads(m: MarkupState, d: Descriptor, j: JsonState, ms: seq<Member>, props: Json, wpDiv: Option<Element>)
    ensures var r := ReadAfterProperties(m, d, j, ms, props, wpDiv);
            r.markup.controlType == m.controlType && r.markup.spControlData == m.spControlData &&
            r.markup.isHeaderControl == m.isHeaderControl && r.markup.webPartData == m.webPartData &&
            r.descriptor.title == d.title && r.descriptor.description == d.description &&
            r.json.propertiesJson == j.propertiesJson && r.json.properties == j.properties
    ensures var r := ReadAfterProperties(m, d, j, ms, props, wpDiv);
            r.error.None? ==> WebPartJsonRead(r, m, j, ms, wpDiv)
  {
    ReadVersionAndFullBleedReads(d, j, ms, props);
    var c := ReadVersionAndFullBleed(d, j, ms, props);
    ReadIdAndHtmlPropertiesReads(m, c.descriptor, ms, wpDiv);
  }

  /** The properties member, parsed again from its text and handed to SetPropertiesJson, then the rest. */
  function ReadProperties(m: MarkupState, d: Descriptor, j: JsonState, ms: seq<Member>, wpDiv: Option<Element>, env: Reader): Restored {
    match Lookup(ms, "properties")
    case None => Restored(m, d, j, Some(KeyNotFound))
    case Some(props) =>
      match env.parse(ToText(props, env.rawText))
      case Failure(e) => Restored(m, d, j, Some(e))
      case Success(reparsed) =>
        var s := SetPropertiesJsonStep(j, reparsed, env.rawText);
        if s.error.Some? then Restored(m, d, s.state, s.error)
        else ReadAfterProperties(m, d, s.state, ms, props, wpDiv)
  }

  /**
   * A web-part JSON without `properties` throws; otherwise the properties are those
   * SetPropertiesJson reads from the text of that member, parsed again.
   */
  lemma ReadPropertiesReads(m: MarkupState, d: Descriptor, j: JsonState, ms: seq<Member>, wpDiv: Option<Element>, env: Reader)
    ensures Lookup(ms, "properties").None? ==> ReadProperties(m, d, j, ms, wpDiv, env) == Restored(m, d, j, Some(KeyNotFound))
    ensures var r := ReadProperties(m, d, j, ms, wpDiv, env);
            r.markup.controlType == m.controlType && r.markup.spControlData == m.spControlData &&
            r.markup.isHeaderControl == m.isHeaderControl && r.markup.webPartData == m.webPartData &&
            r.descriptor.title == d.title && r.descriptor.description == d.description
    ensures var r := ReadProperties(m, d, j, ms, wpDiv, env);
            r.error.None? ==>
              Lookup(ms, "properties").Some? &&
              var reparsed := env.parse(ToText(Lookup(ms, "properties").value, env.rawText));
              reparsed.Success? &&
              var s := SetPropertiesJsonStep(j, reparsed.value, env.rawText);
              s.error.None? && r.json.properties == s.state.properties && r.json.propertiesJson == s.state.propertiesJson &&
              WebPartJsonRead(r, m, s.state, ms, wpDiv)
  {
    var p := Lookup(ms, "properties");
    if p.Some? {
      var reparsed := env.parse(ToText(p.value, env.rawText));
      if reparsed.Success? {
        var s := SetPropertiesJsonStep(j, reparsed.value, env.rawText);
        ReadAfterPropertiesReads(m, d, s.state, ms, p.value, wpDiv);
      }
    }
  }

  /**
   * The part of FromHtml that reads the decoded web-part JSON: title and description, "" when
   * missing, then the properties and the rest.
   */
  function ReadWebPartJson(m: MarkupState, d: Descriptor, j: JsonState, root: Json, wpDiv: Option<Element>, env: Reader): Restored {
    if !root.JObject? then Restored(m, d, j, Some(InvalidOperation))
    else
      var ms := root.members;
      match StringOr(Lookup(ms, "title"))
      case Failure(e) => Restored(m, d, j, Some(e))
      case Success(title) =>
        var d1 := d.(title := title);
        match StringOr(Lookup(ms, "description"))
        case Failure(e) => Restored(m, d1, j, Some(e))
        case Success(description) => ReadProperties(m, d1.(description := description), j, ms, wpDiv, env)
  }

  /**
   * A decoded web-part JSON that is not an object throws before anything changes; once read,
   * the title and description are its members ("" when missing) and the rest is read as above.
   */
  lemma ReadWebPartJsonReads(m: MarkupState, d: Descriptor, j: JsonState, root: Json, wpDiv: Option<Element>, env: Reader)
    ensures !root.JObject? ==> ReadWebPartJson(m, d, j, root, wpDiv, env) == Restored(m, d, j, Some(InvalidOperation))
    ensures var r := ReadWebPartJson(m, d, j, root, wpDiv, env);
            r.markup.controlType == m.controlType && r.markup.spControlData == m.spControlData &&
            r.markup.isHeaderControl == m.isHeaderControl && r.markup.webPartData == m.webPartData
    ensures var r := ReadWebPartJson(m, d, j, root, wpDiv, env);
            r.error.None? ==>
              root.JObject? &&
              Success(r.descriptor.title) == StringOr(Lookup(root.members, "title")) &&
              Success(r.descriptor.description) == StringOr(Lookup(root.members, "description")) &&
              Lookup(root.members, "properties").Some? &&
              (Lookup(root.members, "dataVersion").Some? ==>
                 Success(r.json.dataVersion) == GetString(Lookup(root.members, "dataVersion").value)) &&
              IdAndHtmlPropertiesRead(r.markup, r.descriptor, root.members, wpDiv) &&
              (wpDiv.None? ==> r.markup == m)
  {
    if root.JObject? {
      var ms := root.members;
      var t := StringOr(Lookup(ms, "title"));
      var ds := StringOr(Lookup(ms, "description"));
      if t.Success? && ds.Success? {
        ReadPropertiesReads(m, d.(title := t.value, description := ds.value), j, ms, wpDiv, env);
      }
    }
  }

  /** The web-part div FromHtml looks for: the first div below the element with web-part data. */
  function WebPartDiv(element: Element): Option<Element> {
    FirstWithAttribute(Descendants(element), WebPartDataAttribute)
  }

  /**
   * FromHtml (after the base class has read the element): a non-empty web-part data-version
   * attribute sets the data version; the control-data attribute is deserialised and gives the
   * control type; without a web-part div the control is a header control and its JSON is the
   * decoded control data, otherwise the JSON is the decoded web-part data of that div.
   */
  function FromHtmlStep(m: MarkupState, d: Descriptor, j: JsonState, element: Element, env: Reader): Restored {
    var version := GetAttribute(element, WebPartDataVersionAttribute);
    var j1 := if !IsNullOrEmpty(version) then j.(dataVersion := version) else j;
    var controlData := GetAttribute(element, ControlDataAttribute);
    if controlData.None? then Restored(m, d, j1, Some(ArgumentNull))
    else ReadControl(m, d, j1, element, controlData.value, env)
  }

  /**
   * FromHtml from the control-data attribute on: the control data, the web-part div or its
   * absence (a header control), and the web-part JSON that div or the control data holds.
   */
  function ReadControl(m: MarkupState, d: Descriptor, j: JsonState, element: Element, controlData: string, env: Reader): Restored {
    match env.readControlData(controlData)
    case Failure(e) => Restored(m, d, j, Some(e))
    case Success(cd) =>
      var m1 := m.(spControlData := cd);
      if cd.None? then Restored(m1, d, j, Some(NullReference))
      else
        var m2 := m1.(controlType := cd.value.controlType);
        var wpDiv := WebPartDiv(element);
        var m3 := if wpDiv.None? then m2.(isHeaderControl := true)
                  else m2.(webPartData := GetAttribute(wpDiv.value, WebPartAttribute));
        var decoded := if wpDiv.None? then env.htmlDecode(controlData)
                       else env.htmlDecode(wpDiv.value.attributes[WebPartDataAttribute]);
        match env.parse(decoded)
        case Failure(e) => Restored(m3, d, j, Some(e))
        case Success(root) => ReadWebPartJson(m3, d, j, root, wpDiv, env)
  }

  /**
   * FromHtml throws without a control-data attribute; when it succeeds the control data
   * and control type are the deserialised control data's, a control without a web-part div
   * is a header control whose JSON is its decoded control data, and a web part's JSON is the
   * decoded web-part data of its div and its html properties those of the div below.
   */
  lemma FromHtmlRestores(m: MarkupState, d: Descriptor, j: JsonState, element: Element, env: Reader)
    ensures GetAttribute(element, ControlDataAttribute).None? ==> FromHtmlStep(m, d, j, element, env).error == Some(ArgumentNull)
    ensures var r := FromHtmlStep(m, d, j, element, env);
            r.error.None? ==>
              GetAttribute(element, ControlDataAttribute).Some? &&
              var cd := env.readControlData(GetAttribute(element, ControlDataAttribute).value);
              cd.Success? && cd.value.Some? && r.markup.spControlData == cd.value &&
              r.markup.controlType == cd.value.value.controlType
    ensures var r := FromHtmlStep(m, d, j, element, env);
            r.error.None? && WebPartDiv(element).None? ==>
              r.markup.isHeaderControl && r.markup.webPartData == m.webPartData &&
              r.markup.htmlProperties == m.htmlProperties && r.markup.htmlPropertiesData == m.htmlPropertiesData &&
              var root := env.parse(env.htmlDecode(GetAttribute(element, ControlDataAttribute).value));
              root.Success? && root.value.JObject? &&
              Success(r.descriptor.title) == StringOr(Lookup(root.value.members, "title")) &&
              Success(r.descriptor.description) == StringOr(Lookup(root.value.members, "description"))
    ensures var r := FromHtmlStep(m, d, j, element, env);
            r.error.None? && WebPartDiv(element).Some? ==>
              r.markup.isHeaderControl == m.isHeaderControl &&
              r.markup.webPartData == GetAttribute(WebPartDiv(element).value, WebPartAttribute) &&
              var root := env.parse(env.htmlDecode(WebPartDiv(element).value.attributes[WebPartDataAttribute]));
              root.Success? && root.value.JObject? &&
              Success(r.descriptor.title) == StringOr(Lookup(root.value.members, "title")) &&
              Success(r.descriptor.description) == StringOr(Lookup(root.value.members, "description")) &&
              IdAndHtmlPropertiesRead(r.markup, r.descriptor, root.value.members, WebPartDiv(element))
  {
    var version := GetAttribute(element, WebPartDataVersionAttribute);
    var j1 := if !IsNullOrEmpty(version) then j.(dataVersion := version) else j;
    var controlData := GetAttribute(element, ControlDataAttribute);
    if controlData.Some? {
      var cd := env.readControlData(controlData.value);
      if cd.Success? && cd.value.Some? {
        var m2 := m.(spControlData := cd.value, controlType := cd.value.value.controlType);
        var wpDiv := WebPartDiv(element);
        var m3 := if wpDiv.None? then m2.(isHeaderControl := true)
                  else m2.(webPartData := GetAttribute(wpDiv.value, WebPartAttribute));
        var decoded := if wpDiv.None? then env.htmlDecode(controlData.value)
                       else env.htmlDecode(wpDiv.value.attributes[WebPartDataAttribute]);
        var root := env.parse(decoded);
        if root.Success? {
          ReadWebPartJsonReads(m3, d, j1, root.value, wpDiv, env);
        }
      }
    }
  }

  /** A header control's JSON without title or description reads both as "". */
  lemma FromHtmlMissingTitle(m: MarkupState, d: Descriptor, j: JsonState, element: Element, env: Reader, ms: seq<Member>)
    requires GetAttribute(element, ControlDataAttribute).Some?
    requires WebPartDiv(element).None?
    requires env.parse(env.htmlDecode(GetAttribute(element, ControlDataAttribute).value)) == Success(JObject(ms))
    requires forall i :: 0 <= i < |ms| ==> ms[i].name != "title" && ms[i].name != "description"
    ensures var r := FromHtmlStep(m, d, j, element, env);
            r.error.None? ==> r.descriptor.title == Some("") && r.descriptor.description == Some("") && r.markup.isHeaderControl
  {
    LookupMissing(ms, "title");
    LookupMissing(ms, "description");
    FromHtmlRestores(m, d, j, element, env);
  }

  // Loops of ToHtml and RenderHtmlProperties

  /** A rendering appended to what the builder already holds. */
  function AppendTo(html: string, r: Result<string, Error>): Result<string, Error> {
    match r
    case Failure(e) => Failure(e)
    case Success(s) => Success(html + s)
  }

  /** Once the first `j` members fail to render, so do the first `k`, with the same error. */
  lemma {:induction false} MembersMarkupFailureSticks(render: Member -> Result<string, Error>, ms: seq<Member>, j: nat, k: nat)
    requires j <= k <= |ms|
    requires MembersMarkup(render, ms, j).Failure?
    ensures MembersMarkup(render, ms, k) == MembersMarkup(render, ms, j)
    decreases k - j
  {
    if j < k {
      MembersMarkupFailureSticks(render, ms, j, k - 1);
    }
  }

  /**
   * The preview-image loop of ToHtml: the first image source whose text is not empty gives
   * the image, lower-cased, and ends the loop.
   */
  method SelectPreviewImage(sources: seq<Member>, current: string, rawText: Json -> string) returns (image: string)
    ensures image == PreviewFrom(sources, current, rawText)
  {
    image := current;
    var i := 0;
    while i < |sources|
      invariant 0 <= i <= |sources|
      invariant image == current
      invariant PreviewFrom(sources[i..], current, rawText) == PreviewFrom(sources, current, rawText)
    {
      var text := ToText(sources[i].value, rawText);
      if text != "" {
        image := ToLower(text);
        assert sources[i..][0] == sources[i];
        break;
      }
      assert sources[i..][1..] == sources[i + 1..];
      i := i + 1;
    }
  }

  /**
   * The preview image ToHtml keeps: the one the imageSources of the server-processed content
   * give, or the current one; a non-object content or image-source list throws.
   */
  method PreviewImage(serverProcessedContent: Json, current: string, rawText: Json -> string) returns (r: Result<string, Error>)
    ensures r == PreviewImageAfter(serverProcessedContent, current, rawText)
  {
    var found := TryGetProperty(serverProcessedContent, "imageSources");
    if found.Failure? {
      return Failure(found.error);
    }
    if found.value.None? {
      return Success(current);
    }
    var sources := EnumerateObject(found.value.value);
    if sources.Failure? {
      return Failure(sources.error);
    }
    var image := SelectPreviewImage(sources.value, current, rawText);
    return Success(image);
  }

  /** One foreach of RenderHtmlProperties: the markup of every member appended in order. */
  method AppendMembers(render: Member -> Result<string, Error>, ms: seq<Member>, html: string) returns (r: Result<string, Error>)
    ensures r == AppendTo(html, MembersMarkup(render, ms, |ms|))
  {
    var out := html;
    var i := 0;
    while i < |ms|
      invariant 0 <= i <= |ms|
      invariant MembersMarkup(render, ms, i).Success?
      invariant out == html + MembersMarkup(render, ms, i).value
    {
      var m := render(ms[i]);
      if m.Failure? {
        MembersMarkupFailureSticks(render, ms, i + 1, |ms|);
        return Failure(m.error);
      }
      assert html + (MembersMarkup(render, ms, i).value + m.value) == out + m.value;
      out := out + m.value;
      i := i + 1;
    }
    return Success(out);
  }

  // ---------------------------------------------------------------------------------------
  // The class

  class PageWebPart {
    var propertiesJson: NString
    var properties: Json
    var dataVersion: NString
    var serverProcessedContent: Json
    var dynamicDataPaths: Json
    var dynamicDataValues: Json

    var webPartId: NString
    var title: NString
    var description: NString
    var supportsFullBleed: bool

    var canvasDataVersion: NString
    var jsonControlData: NString
    var jsonWebPartData: NString
    var webPartPreviewImage: string

    var controlType: int
    var spControlData: Option<ControlData>
    var isHeaderControl: bool
    var webPartData: NString
    var htmlPropertiesData: NString
    var htmlProperties: NString

    var canvasControlData: string
    var instanceId: string
    var section: Option<CanvasSection>
    var column: Option<CanvasColumn>
    var usingSpControlDataOnly: bool

    function JsonFields(): JsonState
      reads this`propertiesJson, this`properties, this`dataVersion, this`serverProcessedContent,
            this`dynamicDataPaths, this`dynamicDataValues
    {
      JsonState(propertiesJson, properties, dataVersion, serverProcessedContent, dynamicDataPaths, dynamicDataValues)
    }

    function DescriptorFields(): Descriptor
      reads this`webPartId, this`title, this`description, this`supportsFullBleed
    {
      Descriptor(webPartId, title, description, supportsFullBleed)
    }

    function RenderFields(): RenderState
      reads this`canvasDataVersion, this`jsonControlData, this`jsonWebPartData, this`webPartPreviewImage
    {
      RenderState(canvasDataVersion, jsonControlData, jsonWebPartData, webPartPreviewImage)
    }

    function MarkupFields(): MarkupState
      reads this`controlType, this`spControlData, this`isHeaderControl, this`webPartData,
            this`htmlPropertiesData, this`htmlProperties
    {
      MarkupState(controlType, spControlData, isHeaderControl, webPartData, htmlPropertiesData, htmlProperties)
    }

    function PlacementFields(): Placement
      reads this`canvasControlData, this`instanceId, this`section, this`column, this`usingSpControlDataOnly
    {
      Placement(canvasControlData, instanceId, section, column, usingSpControlDataOnly)
    }

    /** The value of every field. */
    function Snapshot(): WebPartFields
      reads this
    {
      WebPartFields(JsonFields(), DescriptorFields(), RenderFields(), MarkupFields(), PlacementFields())
    }


    /**
     * The parameterless constructor, on top of the base control's state. The preview image,
     * the persistence flag, the dynamic data and the server-processed content that it assigns
     * again after SetPropertiesJson are given those values beforehand here, which
     * SetPropertiesJson of an empty object leaves in place.
     */
    constructor (base: CanvasControlState, rawText: Json -> string)
      ensures Snapshot() == Initial(base, rawText)
    {
      propertiesJson, properties, dataVersion := None, EmptyObject, base.dataVersion;
      serverProcessedContent, dynamicDataPaths, dynamicDataValues := EmptyObject, EmptyObject, EmptyObject;
      webPartId, title, description, supportsFullBleed := None, Some(""), Some(""), false;
      canvasDataVersion, jsonControlData, jsonWebPartData, webPartPreviewImage := base.canvasDataVersion, base.jsonControlData, None, "";
      controlType, spControlData, isHeaderControl := 3, None, false;
      webPartData, htmlPropertiesData, htmlProperties := Some(""), Some(""), Some("");
      canvasControlData, instanceId, section, column := base.canvasControlData, base.instanceId, base.section, base.column;
      usingSpControlDataOnly := false;
      new;
      SetEmptyProperties(rawText);
    }

    /**
     * The constructor from a page component: a missing component throws, then Import runs on
     * what the parameterless constructor built. The ensures states the two groups Import
     * assigns; the other fields are outside Import's modifies clause.
     */
    static method FromComponent(base: CanvasControlState, component: ComponentArgument, env: Importer)
      returns (r: Result<PageWebPart, Error>)
      ensures var s := FromComponentStep(base, component, env);
              (r.Failure? <==> s.Failure?) && (r.Failure? ==> r.error == s.error) &&
              (r.Success? ==>
                 fresh(r.value) && r.value.DescriptorFields() == s.value.descriptor && r.value.JsonFields() == s.value.json)
    {
      var w := new PageWebPart(base, env.rawText);
      if component.NoComponent? {
        return Failure(ArgumentNull);
      }
      if component.OtherComponent? {
        return Failure(NullReference);
      }
      var err := w.Import(component.component, None, env);
      if err.Some? {
        return Failure(err.value);
      }
      return Success(w);
    }

    /** The constructor's SetPropertiesJson of an empty object. */
    method SetEmptyProperties(rawText: Json -> string)
      modifies this`propertiesJson, this`properties, this`dataVersion, this`serverProcessedContent,
               this`dynamicDataPaths, this`dynamicDataValues
      ensures JsonFields() == old(JsonFields()).(propertiesJson := Some(rawText(EmptyObject)), properties := EmptyObject)
    {
      SetPropertiesJsonEmptyObject(JsonFields(), rawText);
      var _ := SetPropertiesJson(EmptyObject, rawText);
    }

    /** SetPropertiesJson */
    method SetPropertiesJson(parsed: Json, rawText: Json -> string) returns (err: Option<Error>)
      modifies this`propertiesJson, this`properties, this`dataVersion, this`serverProcessedContent,
               this`dynamicDataPaths, this`dynamicDataValues
      ensures var r := SetPropertiesJsonStep(old(JsonFields()), parsed, rawText);
              JsonFields() == r.state && err == r.error
    {
      if parsed == JNull {
        return None;
      }
      propertiesJson := Some(ToText(parsed, rawText));
      var wrapper := TryGetProperty(parsed, "webPartData");
      if wrapper.Failure? {
        return Some(wrapper.error);
      }
      if wrapper.value.Some? {
        err := ReadMembersFrom(wrapper.value.value, false);
      } else {
        err := ReadMembersFrom(parsed, true);
      }
    }

    /** The member reads SetPropertiesJson makes from the wrapper or from the top level. */
    method ReadMembersFrom(source: Json, wholeAsDefault: bool) returns (err: Option<Error>)
      modifies this`properties, this`dataVersion, this`serverProcessedContent, this`dynamicDataPaths, this`dynamicDataValues
      ensures var r := ReadMembers(old(JsonFields()), source, wholeAsDefault);
              JsonFields() == r.state && err == r.error
    {
      if !source.JObject? {
        return Some(InvalidOperation);
      }
      var p := TryGetProperty(source, "properties").value;
      if p.Some? {
        properties := p.value;
      } else if wholeAsDefault {
        properties := source;
      }
      var dv := TryGetProperty(source, "dataVersion").value;
      if dv.Some? {
        var v := GetString(dv.value);
        if v.Failure? {
          return Some(v.error);
        }
        if v.value.None? {
          return Some(NullReference);
        }
        dataVersion := Some(Trim(v.value.value, '"'));
      }
      var spc := TryGetProperty(source, "serverProcessedContent").value;
      if spc.Some? {
        serverProcessedContent := spc.value;
      }
      var paths := TryGetProperty(source, "dynamicDataPaths").value;
      if paths.Some? {
        dynamicDataPaths := paths.value;
      }
      var values := TryGetProperty(source, "dynamicDataValues").value;
      if values.Some? {
        dynamicDataValues := values.value;
      }
      return None;
    }

    /** Import */
    method Import(component: PageComponent, updater: Option<NString -> NString>, env: Importer) returns (err: Option<Error>)
      modifies this`propertiesJson, this`properties, this`dataVersion, this`serverProcessedContent,
               this`dynamicDataPaths, this`dynamicDataValues,
               this`webPartId, this`title, this`description, this`supportsFullBleed
      ensures var r := ImportStep(old(DescriptorFields()), old(JsonFields()), component, updater, env);
              DescriptorFields() == r.descriptor && JsonFields() == r.json && err == r.error
    {
      var id := env.guidText(component.id);
      if id.Failure? {
        return Some(id.error);
      }
      webPartId := Some(id.value);
      var parsed := ManifestOf(component, env);
      if parsed.Failure? {
        return Some(parsed.error);
      }
      var manifest := parsed.value;
      var t := EntryTitle(manifest);
      if t.Failure? {
        return Some(t.error);
      }
      title := t.value;
      description := EntryTitle(manifest).value;
      var fullBleed := TryGetProperty(manifest, "supportsFullBleed");
      if fullBleed.value.Some? {
        var b := GetBoolean(fullBleed.value.value);
        if b.Failure? {
          return Some(b.error);
        }
        supportsFullBleed := b.value;
      } else {
        supportsFullBleed := false;
      }
      var props := EntryProperties(manifest);
      if props.Failure? {
        return Some(props.error);
      }
      err := SetPropertiesJson(props.value, env.rawText);
      if err.None? && updater.Some? {
        propertiesJson := updater.value(propertiesJson);
      }
    }

    /** ToHtml: the JSON of a header control or of a web part, then the markup of the fields as they are then. */
    method ToHtml(controlIndex: ControlIndex, env: Renderer) returns (html: Result<string, Error>)
      modifies this`dataVersion, this`canvasDataVersion, this`jsonControlData, this`jsonWebPartData, this`webPartPreviewImage
      ensures var s := ToHtmlJson(old(Snapshot()), controlIndex, env);
              dataVersion == s.dataVersion && RenderFields() == s.render &&
              html == if s.error.Some? then Failure(s.error.value) else Markup(Snapshot(), env.writer.rawText)
    {
      if isHeaderControl {
        RenderHeaderJson(env);
      } else {
        var err := RenderWebPartJson(controlIndex, env);
        if err.Some? {
          return Failure(err.value);
        }
      }
      html := RenderMarkup(env.writer.rawText);
    }

    /** The header-control branch of ToHtml. */
    method RenderHeaderJson(env: Renderer)
      modifies this`canvasDataVersion, this`jsonControlData, this`jsonWebPartData
      ensures RenderFields() == HeaderToJson(old(Snapshot()), env)
    {
      var rawText := env.writer.rawText;
      var json := FillHeaderData(env.writer.headerData(HeaderDataRecord(Snapshot())),
                                 ToText(properties, rawText), ToText(serverProcessedContent, rawText));
      canvasDataVersion := dataVersion;
      jsonWebPartData := Some(json);
      jsonControlData := Some(json);
    }

    /**
     * The web-part branch of ToHtml, up to the markup. The upgraded data version, the preview
     * image and the two JSON texts are computed first and assigned together; nothing reads
     * the fields in between, so the fields end as the source's assignments in turn leave them.
     */
    method RenderWebPartJson(controlIndex: ControlIndex, env: Renderer) returns (err: Option<Error>)
      modifies this`dataVersion, this`jsonControlData, this`jsonWebPartData, this`webPartPreviewImage
      ensures var s := WebPartToJson(old(Snapshot()), controlIndex, env);
              dataVersion == s.dataVersion && RenderFields() == s.render && err == s.error
    {
      var rawText := env.writer.rawText;
      var cd := ControlDataFor(controlType, instanceId, webPartId, section, column, supportsFullBleed,
                               controlIndex, usingSpControlDataOnly);
      if cd.Failure? {
        return Some(cd.error);
      }
      var dv := UpgradeDataVersion(dataVersion, env.kindOf(cd.value.webPartId));
      var image := PreviewImage(serverProcessedContent, webPartPreviewImage, rawText);
      if image.Failure? {
        dataVersion := dv;
        return Some(image.error);
      }
      var webPartJson := WebPartJson(cd.value, DescriptorFields(), JsonFields().(dataVersion := dv), env);
      dataVersion, webPartPreviewImage, jsonWebPartData, jsonControlData :=
        dv, image.value, Some(webPartJson), Some(ControlJson(cd.value, webPartJson, usingSpControlDataOnly, env));
      return None;
    }

    /** The markup at the end of ToHtml, built from the fields as they are by then. */
    method RenderMarkup(rawText: Json -> string) returns (r: Result<string, Error>)
      ensures r == Markup(Snapshot(), rawText)
    {
      if usingSpControlDataOnly || isHeaderControl {
        return Success(ControlOnlyHtml(canvasControlData, dataVersion, Str(jsonControlData)));
      }
      var prefix := WebPartHtmlPrefix(canvasControlData, dataVersion, Str(jsonControlData), webPartData,
                                      Str(jsonWebPartData), webPartId, htmlProperties);
      r := RenderHtmlProperties(prefix, rawText);
      if r.Success? {
        r := Success(r.value + "</div>" + "</div>" + "</div>");
      }
    }

    /**
     * RenderHtmlProperties: the html-properties markup appended to the builder's contents,
     * one block per kind of server-processed content.
     */
    method RenderHtmlProperties(html: string, rawText: Json -> string) returns (r: Result<string, Error>)
      ensures r == AppendTo(html, HtmlPropertiesMarkup(serverProcessedContent, rawText))
    {
      var spc := serverProcessedContent;
      var texts := KindMarkup(SearchablePlainText, spc, rawText);
      var images := KindMarkup(ImageSource, spc, rawText);
      var links := KindMarkup(Link, spc, rawText);
      var strings := KindMarkup(HtmlString, spc, rawText);
      AppendAndThen(html, texts, AndThen(images, AndThen(links, strings)));
      r := AppendKind(SearchablePlainText, spc, html, rawText);
      if r.Failure? {
        return;
      }
      AppendAndThen(r.value, images, AndThen(links, strings));
      r := AppendKind(ImageSource, spc, r.value, rawText);
      if r.Failure? {
        return;
      }
      AppendAndThen(r.value, links, strings);
      r := AppendKind(Link, spc, r.value, rawText);
      if r.Failure? {
        return;
      }
      r := AppendKind(HtmlString, spc, r.value, rawText);
    }

    /** FromHtml */
    method FromHtml(element: Element, env: Reader) returns (err: Option<Error>)
      modifies this`propertiesJson, this`properties, this`dataVersion, this`serverProcessedContent,
               this`dynamicDataPaths, this`dynamicDataValues,
               this`webPartId, this`title, this`description, this`supportsFullBleed,
               this`controlType, this`spControlData, this`isHeaderControl, this`webPartData,
               this`htmlPropertiesData, this`htmlProperties
      ensures var r := FromHtmlStep(old(MarkupFields()), old(DescriptorFields()), old(JsonFields()), element, env);
              MarkupFields() == r.markup && DescriptorFields() == r.descriptor && JsonFields() == r.json && err == r.error
    {
      var version := GetAttribute(element, WebPartDataVersionAttribute);
      if !IsNullOrEmpty(version) {
        dataVersion := version;
      }
      var controlData := GetAttribute(element, ControlDataAttribute);
      if controlData.None? {
        return Some(ArgumentNull);
      }
      err := ReadControlFrom(element, controlData.value, env);
    }

    /** FromHtml from the control-data attribute on. */
    method ReadControlFrom(element: Element, controlData: string, env: Reader) returns (err: Option<Error>)
      modifies this`propertiesJson, this`properties, this`dataVersion, this`serverProcessedContent,
               this`dynamicDataPaths, this`dynamicDataValues,
               this`webPartId, this`title, this`description, this`supportsFullBleed,
               this`controlType, this`spControlData, this`isHeaderControl, this`webPartData,
               this`htmlPropertiesData, this`htmlProperties
      ensures var r := ReadControl(old(MarkupFields()), old(DescriptorFields()), old(JsonFields()), element, controlData, env);
              MarkupFields() == r.markup && DescriptorFields() == r.descriptor && JsonFields() == r.json && err == r.error
    {
      var cd := env.readControlData(controlData);
      if cd.Failure? {
        return Some(cd.error);
      }
      spControlData := cd.value;
      if cd.value.None? {
        return Some(NullReference);
      }
      controlType := cd.value.value.controlType;
      var wpDiv := WebPartDiv(element);
      var decoded;
      if wpDiv.None? {
        decoded := env.htmlDecode(controlData);
        isHeaderControl := true;
      } else {
        webPartData := GetAttribute(wpDiv.value, WebPartAttribute);
        decoded := env.htmlDecode(wpDiv.value.attributes[WebPartDataAttribute]);
      }
      var root := env.parse(decoded);
      if root.Failure? {
        return Some(root.error);
      }
      err := ReadWebPartJsonFrom(root.value, wpDiv, env);
    }

    /** The part of FromHtml that reads the decoded web-part JSON. */
    method ReadWebPartJsonFrom(root: Json, wpDiv: Option<Element>, env: Reader) returns (err: Option<Error>)
      modifies this`propertiesJson, this`properties, this`dataVersion, this`serverProcessedContent,
               this`dynamicDataPaths, this`dynamicDataValues,
               this`webPartId, this`title, this`description, this`supportsFullBleed,
               this`htmlPropertiesData, this`htmlProperties
      ensures var r := ReadWebPartJson(old(MarkupFields()), old(DescriptorFields()), old(JsonFields()), root, wpDiv, env);
              MarkupFields() == r.markup && DescriptorFields() == r.descriptor && JsonFields() == r.json && err == r.error
    {
      if !root.JObject? {
        return Some(InvalidOperation);
      }
      var t := StringOr(Lookup(root.members, "title"));
      if t.Failure? {
        return Some(t.error);
      }
      title := t.value;
      var d := StringOr(Lookup(root.members, "description"));
      if d.Failure? {
        return Some(d.error);
      }
      description := d.value;
      err := ReadPropertiesFrom(root.members, wpDiv, env);
    }

    /** The properties of the web-part JSON, then the rest of it. */
    method ReadPropertiesFrom(ms: seq<Member>, wpDiv: Option<Element>, env: Reader) returns (err: Option<Error>)
      modifies this`propertiesJson, this`properties, this`dataVersion, this`serverProcessedContent,
               this`dynamicDataPaths, this`dynamicDataValues,
               this`webPartId, this`supportsFullBleed, this`htmlPropertiesData, this`htmlProperties
      ensures var r := ReadProperties(old(MarkupFields()), old(DescriptorFields()), old(JsonFields()), ms, wpDiv, env);
              MarkupFields() == r.markup && DescriptorFields() == r.descriptor && JsonFields() == r.json && err == r.error
    {
      var props := Lookup(ms, "properties");
      if props.None? {
        return Some(KeyNotFound);
      }
      var reparsed := env.parse(ToText(props.value, env.rawText));
      if reparsed.Failure? {
        return Some(reparsed.error);
      }
      err := SetPropertiesJson(reparsed.value, env.rawText);
      if err.Some? {
        return;
      }
      err := ReadAfterPropertiesFrom(ms, props.value, wpDiv);
    }

    /** The part of FromHtml after the properties are set. */
    method ReadAfterPropertiesFrom(ms: seq<Member>, props: Json, wpDiv: Option<Element>) returns (err: Option<Error>)
      modifies this`dataVersion, this`serverProcessedContent, this`dynamicDataPaths, this`dynamicDataValues,
               this`webPartId, this`supportsFullBleed, this`htmlPropertiesData, this`htmlProperties
      ensures var r := ReadAfterProperties(old(MarkupFields()), old(DescriptorFields()), old(JsonFields()), ms, props, wpDiv);
              MarkupFields() == r.markup && DescriptorFields() == r.descriptor && JsonFields() == r.json && err == r.error
    {
      err := ReadVersionAndFullBleedFrom(ms, props);
      if err.Some? {
        return;
      }
      ReadDynamicDataFrom(ms);
      err := ReadIdAndHtmlPropertiesFrom(ms, wpDiv);
    }

    /** The server-processed content and the dynamic data of the web-part JSON. */
    method ReadDynamicDataFrom(ms: seq<Member>)
      modifies this`serverProcessedContent, this`dynamicDataPaths, this`dynamicDataValues
      ensures JsonFields() == DynamicDataRead(old(JsonFields()), ms)
    {
      serverProcessedContent := Override(serverProcessedContent, Lookup(ms, "serverProcessedContent"));
      dynamicDataPaths := Override(dynamicDataPaths, Lookup(ms, "dynamicDataPaths"));
      dynamicDataValues := Override(dynamicDataValues, Lookup(ms, "dynamicDataValues"));
    }

    /** The data version and the full-bleed flag of the web-part JSON. */
    method ReadVersionAndFullBleedFrom(ms: seq<Member>, props: Json) returns (err: Option<Error>)
      modifies this`dataVersion, this`supportsFullBleed
      ensures var r := ReadVersionAndFullBleed(old(DescriptorFields()), old(JsonFields()), ms, props);
              DescriptorFields() == r.descriptor && JsonFields() == r.json && err == r.error
    {
      var dv := Lookup(ms, "dataVersion");
      if dv.Some? {
        var v := GetString(dv.value);
        if v.Failure? {
          return Some(v.error);
        }
        dataVersion := v.value;
      }
      var isFullWidth := TryGetProperty(props, "isFullWidth");
      if isFullWidth.Failure? {
        return Some(isFullWidth.error);
      }
      if isFullWidth.value.Some? {
        var b := GetBoolean(isFullWidth.value.value);
        if b.Failure? {
          return Some(b.error);
        }
        supportsFullBleed := b.value;
      }
      return None;
    }

    /** The web part id, then for a web part the html-properties div. */
    method ReadIdAndHtmlPropertiesFrom(ms: seq<Member>, wpDiv: Option<Element>) returns (err: Option<Error>)
      modifies this`webPartId, this`htmlPropertiesData, this`htmlProperties
      ensures var r := ReadIdAndHtmlProperties(old(MarkupFields()), old(DescriptorFields()), ms, wpDiv);
              MarkupFields() == r.markup && DescriptorFields() == r.descriptor && err == r.error
    {
      var id := Lookup(ms, "id");
      if id.None? {
        return Some(KeyNotFound);
      }
      var s := GetString(id.value);
      if s.Failure? {
        return Some(s.error);
      }
      webPartId := s.value;
      if wpDiv.Some? {
        var h := HtmlPropertiesDiv(wpDiv.value);
        if h.None? {
          return Some(NullReference);
        }
        htmlPropertiesData := Some(h.value.innerHtml);
        htmlProperties := GetAttribute(h.value, WebPartHtmlPropertiesAttribute);
      }
      return None;
    }
  }

  /** Appending two renderings one after the other is appending the first, then the second. */
  lemma AppendAndThen(html: string, a: Result<string, Error>, b: Result<string, Error>)
    ensures AppendTo(html, AndThen(a, b)) ==
            match AppendTo(html, a)
            case Failure(e) => Failure(e)
            case Success(h) => AppendTo(h, b)
  {
    if a.Success? && b.Success? {
      assert html + (a.value + b.value) == (html + a.value) + b.value;
    }
  }

  /**
   * One block of RenderHtmlProperties: look the kind's member up and, when it is there (and,
   * for links, not null), append the markup of each of its members.
   */
  method AppendKind(kind: PropertyKind, serverProcessedContent: Json, html: string, rawText: Json -> string)
    returns (r: Result<string, Error>)
    ensures r == AppendTo(html, KindMarkup(kind, serverProcessedContent, rawText))
  {
    var found := TryGetProperty(serverProcessedContent, KindKey(kind));
    if found.Failure? {
      return Failure(found.error);
    }
    if found.value.None? || (kind == Link && found.value.value == JNull) {
      assert html + "" == html;
      return Success(html);
    }
    var ms := EnumerateObject(found.value.value);
    if ms.Failure? {
      return Failure(ms.error);
    }
    r := AppendMembers(MemberRendering(kind, rawText), ms.value, html);
  }
}
