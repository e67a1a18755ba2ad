/**
 * The pure parts of PageWebPart's rendering: the control-data records handed to the JSON
 * serializer, the rules that fill them in, attribute escaping, and the canvas markup.
 */
module PageHtml {
  import opened Wrappers
  import opened Text
  import opened Json
  import opened Canvas

  const WebPartAttribute: string := "data-sp-webpart"
  const WebPartDataVersionAttribute: string := "data-sp-webpartdataversion"
  const WebPartDataAttribute: string := "data-sp-webpartdata"
  const WebPartComponentIdAttribute: string := "data-sp-componentid"
  const WebPartHtmlPropertiesAttribute: string := "data-sp-htmlproperties"

  // ---------------------------------------------------------------------------------------
  // The records ToHtml serialises

  /** CanvasControlPosition */
  datatype Position = Position(zoneIndex: int, sectionIndex: int, sectionFactor: int, layoutIndex: int, controlIndex: ControlIndex)

  /** SectionEmphasis */
  datatype Emphasis = Emphasis(zoneEmphasis: int)

  /**
   * WebPartControlData; `webPartData` is the extra member of WebPartControlDataOnly and is
   * None for a plain WebPartControlData.
   */
  datatype ControlData = ControlData(
    controlType: int,
    id: string,
    webPartId: NString,
    position: Position,
    emphasis: Emphasis,
    webPartData: NString)

  /** WebPartData, with its four JSON members still holding placeholder strings. */
  datatype WebPartData = WebPartData(
    id: NString, instanceId: string, title: NString, description: NString, dataVersion: NString,
    properties: string, dynamicDataPaths: string, dynamicDataValues: string, serverProcessedContent: string)

  /** HeaderControlData, with its two JSON members still holding placeholder strings. */
  datatype HeaderControlData = HeaderControlData(
    id: NString, instanceId: string, title: NString, description: NString, dataVersion: NString,
    properties: string, serverProcessedContent: string)

  /** JsonSerializer.Serialize for the three records, and JsonElement.GetRawText. */
  datatype Writer = Writer(
    controlData: ControlData -> string,
    webPartData: WebPartData -> string,
    headerData: HeaderControlData -> string,
    rawText: Json -> string)

  const PropertiesPlaceholder: string := "jsonPropsToReplacePnPRules"
  const DynamicDataPathsPlaceholder: string := "jsonDynamicDataPathsToReplacePnPRules"
  const DynamicDataValuesPlaceholder: string := "jsonDynamicDataValuesToReplacePnPRules"
  const ServerProcessedContentPlaceholder: string := "jsonServerProcessedContentToReplacePnPRules"
  const WebPartDataPlaceholder: string := "jsonWebPartDataToReplacePnPRules"

  /** A placeholder as the serializer writes it: a JSON string, quotes included. */
  function Quoted(s: string): (q: string)
    ensures |q| == |s| + 2
  {
    "\"" + s + "\""
  }

  // ---------------------------------------------------------------------------------------
  // Placement and position

  /**
   * The section factor written for a control: 12 in the first column of a one-column
   * vertical section, the column's own factor otherwise. First() of a section without
   * columns throws.
   */
  function SectionFactor(section: CanvasSection, column: CanvasColumn): (r: Result<int, Error>)
    ensures section.template != OneColumnVerticalSection ==> r == Success(column.columnFactor)
    ensures section.template == OneColumnVerticalSection && section.columns == [] ==> r == Failure(InvalidOperation)
    ensures section.template == OneColumnVerticalSection && section.columns != [] ==>
              r == Success(if section.columns[0] == column then 12 else column.columnFactor)
  {
    if section.template == OneColumnVerticalSection then
      if section.columns == [] then Failure(InvalidOperation)
      else if section.columns[0] == column then Success(12)
      else Success(column.columnFactor)
    else Success(column.columnFactor)
  }

  /** The zone emphasis: the column's vertical-section emphasis when it has one, else the section's. */
  function ZoneEmphasis(section: CanvasSection, column: CanvasColumn): (r: int)
    ensures column.verticalSectionEmphasis.Some? ==> r == column.verticalSectionEmphasis.value
    ensures column.verticalSectionEmphasis.None? ==> r == section.zoneEmphasis
  {
    column.verticalSectionEmphasis.GetOr(section.zoneEmphasis)
  }

  /**
   * The checks and the control-data record of a web part that is not a header control,
   * in the order ToHtml meets them: a missing section, a full-width section for a part that
   * does not support full bleed, a missing column, a vertical section without columns.
   */
  function ControlDataFor(
    controlType: int, instanceId: string, webPartId: NString,
    section: Option<CanvasSection>, column: Option<CanvasColumn>,
    supportsFullBleed: bool, controlIndex: ControlIndex, spControlDataOnly: bool): (r: Result<ControlData, Error>)
    ensures section.Some? && section.value.template == OneColumnFullWidth && !supportsFullBleed ==>
              r == Failure(ControlNotAllowedInFullWidthSection)
    ensures r == Failure(ControlNotAllowedInFullWidthSection) ==>
              section.Some? && section.value.template == OneColumnFullWidth && !supportsFullBleed
    ensures r.Success? ==>
              section.Some? && column.Some? && r.value.webPartId == webPartId &&
              r.value.id == instanceId && r.value.controlType == controlType &&
              r.value.position.zoneIndex == section.value.order &&
              r.value.position.sectionIndex == column.value.order &&
              r.value.position.layoutIndex == column.value.layoutIndex &&
              r.value.position.controlIndex == controlIndex &&
              Success(r.value.position.sectionFactor) == SectionFactor(section.value, column.value) &&
              r.value.emphasis.zoneEmphasis == ZoneEmphasis(section.value, column.value) &&
              r.value.webPartData == (if spControlDataOnly then Some(WebPartDataPlaceholder) else None)
  {
    if section.None? then Failure(NullReference)
    else if section.value.template == OneColumnFullWidth && !supportsFullBleed then
      Failure(ControlNotAllowedInFullWidthSection)
    else if column.None? then Failure(NullReference)
    else
      match SectionFactor(section.value, column.value)
      case Failure(e) => Failure(e)
      case Success(factor) =>
        Success(ControlData(
          controlType, instanceId, webPartId,
          Position(section.value.order, column.value.order, factor, column.value.layoutIndex, controlIndex),
          Emphasis(ZoneEmphasis(section.value, column.value)),
          if spControlDataOnly then Some(WebPartDataPlaceholder) else None))
  }

  // ---------------------------------------------------------------------------------------
  // Data version

  /** The version a web part kind is written with when the control still carries "1.0". */
  function LatestDataVersion(kind: DefaultWebPart): Option<string> {
    match kind
    case Image => Some("1.9")
    case ImageGallery => Some("1.8")
    case People => Some("1.3")
    case DocumentEmbed => Some("1.2")
    case ContentRollup => Some("2.5")
    case QuickLinks => Some("2.2")
    case OtherWebPart => None
  }

  /** ToHtml's upgrade: only a data version of exactly "1.0" is replaced, by the kind's version. */
  function UpgradeDataVersion(version: NString, kind: DefaultWebPart): (r: NString)
    ensures version != Some("1.0") ==> r == version
    ensures version == Some("1.0") && LatestDataVersion(kind).None? ==> r == version
    ensures version == Some("1.0") && LatestDataVersion(kind).Some? ==> r == LatestDataVersion(kind)
  {
    if version == Some("1.0") && LatestDataVersion(kind).Some? then LatestDataVersion(kind) else version
  }

  /** The upgrade table, entry by entry. */
  lemma UpgradeTable()
    ensures UpgradeDataVersion(Some("1.0"), Image) == Some("1.9")
    ensures UpgradeDataVersion(Some("1.0"), ImageGallery) == Some("1.8")
    ensures UpgradeDataVersion(Some("1.0"), People) == Some("1.3")
    ensures UpgradeDataVersion(Some("1.0"), DocumentEmbed) == Some("1.2")
    ensures UpgradeDataVersion(Some("1.0"), ContentRollup) == Some("2.5")
    ensures UpgradeDataVersion(Some("1.0"), QuickLinks) == Some("2.2")
    ensures UpgradeDataVersion(Some("1.0"), OtherWebPart) == Some("1.0")
  {
  }

  /** Rendering twice upgrades no further than rendering once: no table entry is "1.0". */
  lemma UpgradeIdempotent(version: NString, kind: DefaultWebPart)
    ensures UpgradeDataVersion(UpgradeDataVersion(version, kind), kind) == UpgradeDataVersion(version, kind)
  {
  }

  // ---------------------------------------------------------------------------------------
  // Preview image

  /**
   * The preview image after scanning image sources: the lower-cased text of the first
   * source whose text is not empty; the current image when every source is empty.
   */
  function PreviewFrom(sources: seq<Member>, current: string, rawText: Json -> string): string
  {
    if sources == [] then current
    else if ToText(sources[0].value, rawText) != "" then ToLower(ToText(sources[0].value, rawText))
    else PreviewFrom(sources[1..], current, rawText)
  }

  /** PreviewFrom keeps `current` when every source is empty. */
  lemma {:induction false} PreviewFromAllEmpty(sources: seq<Member>, current: string, rawText: Json -> string)
    requires forall i :: 0 <= i < |sources| ==> ToText(sources[i].value, rawText) == ""
    ensures PreviewFrom(sources, current, rawText) == current
    decreases |sources|
  {
    if sources != [] {
      assert ToText(sources[0].value, rawText) == "";
      assert forall k :: 0 <= k < |sources[1..]| ==> sources[1..][k] == sources[k + 1];
      PreviewFromAllEmpty(sources[1..], current, rawText);
    }
  }

  /** PreviewFrom picks the lower-cased text of the first source that is not empty. */
  lemma {:induction false} PreviewFromFirst(sources: seq<Member>, current: string, rawText: Json -> string, i: nat)
    requires i < |sources| && ToText(sources[i].value, rawText) != ""
    requires forall k :: 0 <= k < i ==> ToText(sources[k].value, rawText) == ""
    ensures PreviewFrom(sources, current, rawText) == ToLower(ToText(sources[i].value, rawText))
    decreases i
  {
    if i > 0 {
      assert ToText(sources[0].value, rawText) == "";
      assert forall k :: 0 <= k < |sources[1..]| ==> sources[1..][k] == sources[k + 1];
      PreviewFromFirst(sources[1..], current, rawText, i - 1);
    }
  }

  /**
   * The preview image ToHtml leaves: unchanged when the server-processed content has no
   * imageSources member; throws when that content or its imageSources is not an object.
   */
  function PreviewImageAfter(serverProcessedContent: Json, current: string, rawText: Json -> string): Result<string, Error> {
    match TryGetProperty(serverProcessedContent, "imageSources")
    case Failure(e) => Failure(e)
    case Success(None) => Success(current)
    case Success(Some(sources)) =>
      match EnumerateObject(sources)
      case Failure(e) => Failure(e)
      case Success(ms) => Success(PreviewFrom(ms, current, rawText))
  }

  // ---------------------------------------------------------------------------------------
  // Placeholder replacement

  /** The web-part data JSON: the serialised record with its four placeholders replaced by JSON text. */
  function FillWebPartData(serialized: string, properties: string, serverProcessedContent: string,
                           dynamicDataPaths: string, dynamicDataValues: string): string
  {
    var a := Replace(serialized, Quoted(PropertiesPlaceholder), properties);
    var b := Replace(a, Quoted(ServerProcessedContentPlaceholder), serverProcessedContent);
    var c := Replace(b, Quoted(DynamicDataPathsPlaceholder), dynamicDataPaths);
    Replace(c, Quoted(DynamicDataValuesPlaceholder), dynamicDataValues)
  }

  /** The header-control JSON: the serialised record with its two placeholders replaced. */
  function FillHeaderData(serialized: string, properties: string, serverProcessedContent: string): string {
    var a := Replace(serialized, Quoted(PropertiesPlaceholder), properties);
    Replace(a, Quoted(ServerProcessedContentPlaceholder), serverProcessedContent)
  }

  /**
   * A placeholder written once, with no other occurrence of it, is replaced by the JSON text
   * and nothing around it changes.
   */
  lemma ReplaceSinglePlaceholder(a: string, b: string, placeholder: string, json: string)
    requires |placeholder| > 0
    requires forall i :: 0 <= i < |a| ==> !OccursAt(a + placeholder + b, placeholder, i)
    requires forall i :: !OccursAt(b, placeholder, i)
    ensures Replace(a + placeholder + b, placeholder, json) == a + json + b
  {
    ReplaceFirst(a, b, placeholder, json);
    ReplaceAbsent(b, placeholder, json);
  }

  // ---------------------------------------------------------------------------------------
  // Attribute escaping

  /** The control-data attribute value: every '"' becomes &quot;. */
  function EscapeControlData(json: string): (r: string)
    ensures '"' !in r
    ensures forall c :: c != '"' && c != '&' && c != 'q' && c != 'u' && c != 'o' && c != 't' && c != ';' ==>
              (c in r <==> c in json)
  {
    ReplaceCharRemoves(json, '"', "&quot;");
    EscapedCharsOf(json, false);
    Replace(json, "\"", "&quot;")
  }

  /** The web-part-data attribute value: every '"', '<' and '>' becomes &quot;, &lt; and &gt;. */
  function EscapeWebPartData(json: string): (r: string)
    ensures '"' !in r && '<' !in r && '>' !in r
  {
    var a := Replace(json, "\"", "&quot;");
    var b := Replace(a, "<", "&lt;");
    ReplaceCharRemoves(json, '"', "&quot;");
    ReplaceCharKeepsOut(a, '<', '"', "&lt;");
    ReplaceCharRemoves(a, '<', "&lt;");
    ReplaceCharKeepsOut(b, '>', '"', "&gt;");
    ReplaceCharKeepsOut(b, '>', '<', "&gt;");
    ReplaceCharRemoves(b, '>', "&gt;");
    Replace(b, ">", "&gt;")
  }

  /** The named character reference a single character is written as (reference definition). */
  function EscapeChar(c: char, full: bool): string {
    if c == '"' then "&quot;"
    else if full && c == '<' then "&lt;"
    else if full && c == '>' then "&gt;"
    else [c]
  }

  /** Escaping character by character; `full` adds '<' and '>' to '"'. */
  function EscapeEach(s: string, full: bool): string {
    if s == [] then [] else EscapeChar(s[0], full) + EscapeEach(s[1..], full)
  }

  lemma EscapeEachConcat(a: string, b: string, full: bool)
    ensures EscapeEach(a + b, full) == EscapeEach(a, full) + EscapeEach(b, full)
  {
    if a != [] {
      assert (a + b)[1..] == a[1..] + b;
      EscapeEachConcat(a[1..], b, full);
    } else {
      assert a + b == b;
    }
  }

  /** The characters of an escaped text other than those of the references come from the input. */
  lemma {:induction false} EscapedCharsOf(json: string, full: bool)
    ensures forall c :: c != '"' && c != '&' && c != 'q' && c != 'u' && c != 'o' && c != 't' && c != ';' ==>
              (c in Replace(json, "\"", "&quot;") <==> c in json)
    decreases |json|
  {
    if json != [] {
      assert json == [json[0]] + json[1..];
      ReplaceCharCons(json[0], json[1..], '"', "&quot;");
      EscapedCharsOf(json[1..], full);
    }
  }

  /** The control-data escaping is the character-by-character one. */
  lemma {:induction false} EscapeControlDataPerChar(s: string)
    ensures EscapeControlData(s) == EscapeEach(s, false)
    decreases |s|
  {
    if s != [] {
      assert s == [s[0]] + s[1..];
      ReplaceCharCons(s[0], s[1..], '"', "&quot;");
      EscapeControlDataPerChar(s[1..]);
    }
  }

  /** One character through the three replacements of the web-part-data escaping. */
  lemma EscapeWebPartDataChar(x: char)
    ensures EscapeWebPartData([x]) == EscapeChar(x, true)
  {
    ReplaceCharSingle(x, '"', "&quot;");
    var a := Replace([x], "\"", "&quot;");
    if x == '"' {
      ReplaceCharAbsent(a, '<', "&lt;");
      ReplaceCharAbsent(a, '>', "&gt;");
    } else {
      ReplaceCharSingle(x, '<', "&lt;");
      var b := Replace(a, "<", "&lt;");
      if x == '<' {
        ReplaceCharAbsent(b, '>', "&gt;");
      } else {
        ReplaceCharSingle(x, '>', "&gt;");
      }
    }
  }

  /** The web-part-data escaping distributes over concatenation. */
  lemma EscapeWebPartDataConcat(s: string, t: string)
    ensures EscapeWebPartData(s + t) == EscapeWebPartData(s) + EscapeWebPartData(t)
  {
    ReplaceCharConcat(s, t, '"', "&quot;");
    var a1 := Replace(s, "\"", "&quot;");
    var a2 := Replace(t, "\"", "&quot;");
    ReplaceCharConcat(a1, a2, '<', "&lt;");
    var b1 := Replace(a1, "<", "&lt;");
    var b2 := Replace(a2, "<", "&lt;");
    ReplaceCharConcat(b1, b2, '>', "&gt;");
  }

  /** The web-part-data escaping is the character-by-character one. */
  lemma {:induction false} EscapeWebPartDataPerChar(s: string)
    ensures EscapeWebPartData(s) == EscapeEach(s, true)
    decreases |s|
  {
    if s != [] {
      assert s == [s[0]] + s[1..];
      EscapeWebPartDataConcat([s[0]], s[1..]);
      EscapeWebPartDataChar(s[0]);
      EscapeWebPartDataPerChar(s[1..]);
    }
  }

  /** WebUtility.HtmlDecode restricted to the references `&quot;`, `&lt;`, `&gt;` and `&amp;`. */
  function DecodeReferences(s: string): string
    decreases |s|
  {
    if s == [] then []
    else if |s| >= 6 && s[..6] == "&quot;" then "\"" + DecodeReferences(s[6..])
    else if |s| >= 4 && s[..4] == "&lt;" then "<" + DecodeReferences(s[4..])
    else if |s| >= 4 && s[..4] == "&gt;" then ">" + DecodeReferences(s[4..])
    else if |s| >= 5 && s[..5] == "&amp;" then "&" + DecodeReferences(s[5..])
    else [s[0]] + DecodeReferences(s[1..])
  }

  /** A character other than '&' decodes to itself. */
  lemma DecodePlain(s: string)
    requires s != [] && s[0] != '&'
    ensures DecodeReferences(s) == [s[0]] + DecodeReferences(s[1..])
  {
    if |s| >= 6 { assert s[..6][0] == s[0]; }
    if |s| >= 5 { assert s[..5][0] == s[0]; }
    if |s| >= 4 { assert s[..4][0] == s[0]; }
  }

  /** A reference at the front decodes to its character. */
  lemma DecodeReference(ref: string, c: char, rest: string)
    requires (ref == "&quot;" && c == '"') || (ref == "&lt;" && c == '<') || (ref == "&gt;" && c == '>') ||
             (ref == "&amp;" && c == '&')
    ensures DecodeReferences(ref + rest) == [c] + DecodeReferences(rest)
  {
    var s := ref + rest;
    assert s[..|ref|] == ref;
    assert s[|ref|..] == rest;
    if ref != "&quot;" && |s| >= 6 {
      assert s[..6][1] == ref[1];
    }
    if (ref == "&gt;" || ref == "&amp;") && |s| >= 4 {
      assert s[..4][1] == ref[1];
    }
  }

  /** Decoding one escaped character in front of more text. */
  lemma DecodeEscapedChar(x: char, full: bool, rest: string)
    requires x != '&'
    ensures DecodeReferences(EscapeChar(x, full) + rest) == [x] + DecodeReferences(rest)
  {
    if x == '"' {
      DecodeReference("&quot;", x, rest);
    } else if full && x == '<' {
      DecodeReference("&lt;", x, rest);
    } else if full && x == '>' {
      DecodeReference("&gt;", x, rest);
    } else {
      var s := [x] + rest;
      DecodePlain(s);
      assert s[1..] == rest;
    }
  }

  /** Escaping and decoding give the JSON back when the JSON has no '&' of its own. */
  lemma {:induction false} DecodeEscapeEach(s: string, full: bool)
    requires '&' !in s
    ensures DecodeReferences(EscapeEach(s, full)) == s
    decreases |s|
  {
    if s != [] {
      DecodeEscapedChar(s[0], full, EscapeEach(s[1..], full));
      DecodeEscapeEach(s[1..], full);
      assert [s[0]] + s[1..] == s;
    }
  }

  /** The two attribute escapings are undone by decoding the references, for JSON without '&'. */
  lemma EscapeRoundTrip(json: string)
    requires '&' !in json
    ensures DecodeReferences(EscapeControlData(json)) == json
    ensures DecodeReferences(EscapeWebPartData(json)) == json
  {
    EscapeControlDataPerChar(json);
    EscapeWebPartDataPerChar(json);
    DecodeEscapeEach(json, false);
    DecodeEscapeEach(json, true);
  }

  /**
   * Neither escaping writes a '&' of the JSON as a reference, so JSON text that already looks
   * like a reference does not survive decoding: a JSON string holding `&lt;` comes back as `<`.
   */
  lemma EscapeLosesReferenceText()
    ensures EscapeControlData("&lt;") == "&lt;" && DecodeReferences(EscapeControlData("&lt;")) == "<"
    ensures EscapeWebPartData("&lt;") == "&lt;" && DecodeReferences(EscapeWebPartData("&lt;")) == "<"
  {
    var s := "&lt;";
    assert '"' !in s && '<' !in s && '>' !in s by {
      forall i | 0 <= i < |s| ensures s[i] != '"' && s[i] != '<' && s[i] != '>' {
        assert s[i] in "&lt;";
      }
    }
    ReplaceCharAbsent(s, '"', "&quot;");
    ReplaceCharAbsent(s, '<', "&lt;");
    ReplaceCharAbsent(s, '>', "&gt;");
    DecodeReference(s, '<', "");
    assert s + "" == s;
  }

  /** The intended reference for one character: '&' is written as `&amp;` as well. */
  function EscapeCharIntended(c: char, full: bool): string {
    if c == '&' then "&amp;" else EscapeChar(c, full)
  }

  /** The intended escaping, character by character; `full` adds '<' and '>' to '"' and '&'. */
  function EscapeIntended(s: string, full: bool): string {
    if s == [] then [] else EscapeCharIntended(s[0], full) + EscapeIntended(s[1..], full)
  }

  /** With '&' escaped too, decoding the references gives back every JSON text. */
  lemma {:induction false} EscapeIntendedRoundTrip(s: string, full: bool)
    ensures DecodeReferences(EscapeIntended(s, full)) == s
    decreases |s|
  {
    if s != [] {
      var rest := EscapeIntended(s[1..], full);
      if s[0] == '&' {
        DecodeReference("&amp;", '&', rest);
      } else {
        DecodeEscapedChar(s[0], full, rest);
      }
      EscapeIntendedRoundTrip(s[1..], full);
      assert [s[0]] + s[1..] == s;
    }
  }

  /**
   * The corrected escaping is undone by one decoding only: a second decoding, after the one
   * that reading the attribute already performs, turns the JSON text `&lt;` into `<` again.
   */
  lemma EscapeIntendedDecodedTwice(full: bool)
    ensures DecodeReferences(EscapeIntended("&lt;", full)) == "&lt;"
    ensures DecodeReferences(DecodeReferences(EscapeIntended("&lt;", full))) == "<"
  {
    EscapeIntendedRoundTrip("&lt;", full);
    DecodeReference("&lt;", '<', "");
    assert "&lt;" + "" == "&lt;";
  }

  /** On JSON without '&' the intended escaping is the one the source applies. */
  lemma {:induction false} EscapeIntendedAgrees(s: string, full: bool)
    requires '&' !in s
    ensures EscapeIntended(s, full) == EscapeEach(s, full)
    decreases |s|
  {
    if s != [] {
      EscapeIntendedAgrees(s[1..], full);
    }
  }

  // ---------------------------------------------------------------------------------------
  // Markup

  /** `name="` */
  function AttributeStart(name: string): string {
    name + "=\""
  }

  /** The opening canvas-control div up to the value of its control-data attribute. */
  function CanvasControlPrefix(canvasControlData: string, dataVersion: NString): string {
    "<div " + AttributeStart(CanvasControlAttribute) + canvasControlData + "\" " +
    AttributeStart(CanvasDataVersionAttribute) + Str(dataVersion) + "\" " +
    AttributeStart(ControlDataAttribute)
  }

  /** The opening canvas-control div. */
  function CanvasControlOpen(canvasControlData: string, dataVersion: NString, jsonControlData: string): string {
    CanvasControlPrefix(canvasControlData, dataVersion) + EscapeControlData(jsonControlData) + "\">"
  }

  /** The opening web-part div up to the value of its web-part-data attribute. */
  function WebPartPrefix(webPartData: NString, dataVersion: NString): string {
    "<div " + AttributeStart(WebPartAttribute) + Str(webPartData) + "\" " +
    AttributeStart(WebPartDataVersionAttribute) + Str(dataVersion) + "\" " +
    AttributeStart(WebPartDataAttribute)
  }

  /** The opening web-part div. */
  function WebPartOpen(webPartData: NString, dataVersion: NString, jsonWebPartData: string): string {
    WebPartPrefix(webPartData, dataVersion) + EscapeWebPartData(jsonWebPartData) + "\">"
  }

  /** The opening component-id div. */
  const ComponentIdOpen: string := "<div " + AttributeStart(WebPartComponentIdAttribute) + "\">"

  /** The component-id div, holding exactly the web part id. */
  function ComponentIdDiv(webPartId: NString): string {
    ComponentIdOpen + Str(webPartId) + "</div>"
  }

  /** The opening html-properties div. */
  function HtmlPropertiesOpen(htmlProperties: NString): string {
    "<div " + AttributeStart(WebPartHtmlPropertiesAttribute) + Str(htmlProperties) + "\">"
  }

  /** The markup of a control persisted through its control data only, and of a header control. */
  function ControlOnlyHtml(canvasControlData: string, dataVersion: NString, jsonControlData: string): string {
    CanvasControlOpen(canvasControlData, dataVersion, jsonControlData) + "</div>"
  }

  /** Everything of the full web-part markup that comes before the rendered html properties. */
  function WebPartHtmlPrefix(canvasControlData: string, dataVersion: NString, jsonControlData: string,
                             webPartData: NString, jsonWebPartData: string, webPartId: NString,
                             htmlProperties: NString): string
  {
    CanvasControlOpen(canvasControlData, dataVersion, jsonControlData) +
    WebPartOpen(webPartData, dataVersion, jsonWebPartData) +
    ComponentIdDiv(webPartId) +
    HtmlPropertiesOpen(htmlProperties)
  }

  /** The full web-part markup around the rendered html properties, closing the three divs. */
  function WebPartHtml(canvasControlData: string, dataVersion: NString, jsonControlData: string,
                       webPartData: NString, jsonWebPartData: string, webPartId: NString,
                       htmlProperties: NString, renderedProperties: string): string
  {
    WebPartHtmlPrefix(canvasControlData, dataVersion, jsonControlData, webPartData, jsonWebPartData, webPartId, htmlProperties) +
    renderedProperties + "</div>" + "</div>" + "</div>"
  }

  /**
   * Reading the control-data attribute back out of the markup, up to its closing quote, gives
   * the escaped JSON, and for JSON without '&' decoding that gives the JSON itself.
   */
  lemma ControlDataAttributeReadsBack(canvasControlData: string, dataVersion: NString, json: string, rest: string)
    ensures var html := CanvasControlOpen(canvasControlData, dataVersion, json) + rest;
            var k := |CanvasControlPrefix(canvasControlData, dataVersion)|;
            k <= |html| && UntilQuote(html[k..]) == EscapeControlData(json) &&
            ('&' !in json ==> DecodeReferences(UntilQuote(html[k..])) == json)
  {
    var html := CanvasControlOpen(canvasControlData, dataVersion, json) + rest;
    var k := |CanvasControlPrefix(canvasControlData, dataVersion)|;
    assert html[k..] == EscapeControlData(json) + "\"" + (">" + rest);
    UntilQuoteReadsValue(EscapeControlData(json), ">" + rest);
    if '&' !in json {
      EscapeRoundTrip(json);
    }
  }

  /**
   * Reading the web-part-data attribute back out of the markup, up to its closing quote, gives
   * the escaped JSON, and for JSON without '&' decoding that gives the JSON itself.
   */
  lemma WebPartDataAttributeReadsBack(webPartData: NString, dataVersion: NString, json: string, rest: string)
    ensures var html := WebPartOpen(webPartData, dataVersion, json) + rest;
            var k := |WebPartPrefix(webPartData, dataVersion)|;
            k <= |html| && UntilQuote(html[k..]) == EscapeWebPartData(json) &&
            ('&' !in json ==> DecodeReferences(UntilQuote(html[k..])) == json)
  {
    var html := WebPartOpen(webPartData, dataVersion, json) + rest;
    var k := |WebPartPrefix(webPartData, dataVersion)|;
    assert html[k..] == EscapeWebPartData(json) + "\"" + (">" + rest);
    UntilQuoteReadsValue(EscapeWebPartData(json), ">" + rest);
    if '&' !in json {
      EscapeRoundTrip(json);
    }
  }

  /**
   * The full markup opens with the canvas-control div and the web-part div, followed by the
   * component-id div, which holds exactly the web part id.
   */
  lemma ComponentIdDivHoldsId(canvasControlData: string, dataVersion: NString, jsonControlData: string,
                              webPartData: NString, jsonWebPartData: string, webPartId: NString,
                              htmlProperties: NString, renderedProperties: string)
    ensures var html := WebPartHtml(canvasControlData, dataVersion, jsonControlData, webPartData, jsonWebPartData,
                                    webPartId, htmlProperties, renderedProperties);
            var open := CanvasControlOpen(canvasControlData, dataVersion, jsonControlData) +
                        WebPartOpen(webPartData, dataVersion, jsonWebPartData) + ComponentIdOpen;
            var n := |open| + |Str(webPartId)| + 6;
            n <= |html| && html[..n] == open + Str(webPartId) + "</div>"
  {
    var open := CanvasControlOpen(canvasControlData, dataVersion, jsonControlData) +
                WebPartOpen(webPartData, dataVersion, jsonWebPartData) + ComponentIdOpen;
    var front := CanvasControlOpen(canvasControlData, dataVersion, jsonControlData) +
                 WebPartOpen(webPartData, dataVersion, jsonWebPartData) + ComponentIdDiv(webPartId);
    assert front == open + Str(webPartId) + "</div>";
    var n := |front|;
    var h := HtmlPropertiesOpen(htmlProperties);
    TakeAppend(front, h, n);
    TakeAppend(front + h, renderedProperties, n);
    TakeAppend(front + h + renderedProperties, "</div>", n);
    TakeAppend(front + h + renderedProperties + "</div>", "</div>", n);
    TakeAppend(front + h + renderedProperties + "</div>" + "</div>", "</div>", n);
    assert front[..n] == front;
  }

  /** A prefix of a concatenation that ends within its first part is a prefix of that part. */
  lemma TakeAppend(x: string, y: string, n: nat)
    requires n <= |x|
    ensures (x + y)[..n] == x[..n]
  {
  }

  // ---------------------------------------------------------------------------------------
  // Html properties

  /** The four kinds of server-processed content rendered as html properties. */
  datatype PropertyKind = SearchablePlainText | ImageSource | Link | HtmlString

  /** The member of the server-processed content each kind is read from. */
  function KindKey(kind: PropertyKind): string {
    match kind
    case SearchablePlainText => "searchablePlainTexts"
    case ImageSource => "imageSources"
    case Link => "links"
    case HtmlString => "htmlStrings"
  }

  /** The markup of one member of a kind; GetString of a value that is not a string throws. */
  function MemberMarkup(kind: PropertyKind, m: Member, rawText: Json -> string): Result<string, Error> {
    match kind
    case SearchablePlainText =>
      (match GetString(m.value)
       case Failure(e) => Failure(e)
       case Success(text) =>
         Success("<div data-sp-prop-name=\"" + m.name + "\" data-sp-searchableplaintext=\"true\">" + Str(text) + "</div>"))
    case ImageSource =>
      if ToText(m.value, rawText) != "" then
        match GetString(m.value)
        case Failure(e) => Failure(e)
        case Success(src) => Success("<img data-sp-prop-name=\"" + m.name + "\" src=\"" + Str(src) + "\"></img>")
      else Success("<img data-sp-prop-name=\"" + m.name + "\"></img>")
    case Link =>
      (match GetString(m.value)
       case Failure(e) => Failure(e)
       case Success(href) => Success("<a data-sp-prop-name=\"" + m.name + "\" href=\"" + Str(href) + "\"></a>"))
    case HtmlString =>
      (match GetString(m.value)
       case Failure(e) => Failure(e)
       case Success(html) => Success("<div data-sp-prop-name=\"" + m.name + "\">" + Str(html) + "</div>"))
  }

  /** The body of the loop over a kind's members: the markup of one member. */
  function MemberRendering(kind: PropertyKind, rawText: Json -> string): Member -> Result<string, Error> {
    m => MemberMarkup(kind, m, rawText)
  }

  /** The markup of the first `n` members in order; the first member that throws ends the rendering. */
  function MembersMarkup(render: Member -> Result<string, Error>, ms: seq<Member>, n: nat): Result<string, Error>
    requires n <= |ms|
  {
    if n == 0 then Success("")
    else match MembersMarkup(render, ms, n - 1)
      case Failure(e) => Failure(e)
      case Success(front) =>
        match render(ms[n - 1])
        case Failure(e) => Failure(e)
        case Success(last) => Success(front + last)
  }

  /** The markup of one kind: nothing when its member is missing (or, for links, null). */
  function KindMarkup(kind: PropertyKind, serverProcessedContent: Json, rawText: Json -> string): Result<string, Error> {
    match TryGetProperty(serverProcessedContent, KindKey(kind))
    case Failure(e) => Failure(e)
    case Success(None) => Success("")
    case Success(Some(v)) =>
      if kind == Link && v == JNull then Success("")
      else match EnumerateObject(v)
        case Failure(e) => Failure(e)
        case Success(ms) => MembersMarkup(MemberRendering(kind, rawText), ms, |ms|)
  }

  /** Two renderings one after the other: the first failure wins. */
  function AndThen(a: Result<string, Error>, b: Result<string, Error>): Result<string, Error> {
    match a
    case Failure(e) => Failure(e)
    case Success(x) =>
      match b
      case Failure(e) => Failure(e)
      case Success(y) => Success(x + y)
  }

  /** RenderHtmlProperties: searchable texts, image sources, links and html strings, in that order. */
  function HtmlPropertiesMarkup(serverProcessedContent: Json, rawText: Json -> string): Result<string, Error> {
    AndThen(KindMarkup(SearchablePlainText, serverProcessedContent, rawText),
    AndThen(KindMarkup(ImageSource, serverProcessedContent, rawText),
    AndThen(KindMarkup(Link, serverProcessedContent, rawText),
            KindMarkup(HtmlString, serverProcessedContent, rawText))))
  }

  /** An image source with empty text is written without a src attribute; otherwise its text is the src. */
  lemma ImageSourceMarkup(name: string, value: Json, rawText: Json -> string)
    ensures ToText(value, rawText) == "" ==>
              MemberMarkup(ImageSource, Member(name, value), rawText) == Success("<img data-sp-prop-name=\"" + name + "\"></img>")
    ensures value.JString? && value.s != "" ==>
              MemberMarkup(ImageSource, Member(name, value), rawText) ==
              Success("<img data-sp-prop-name=\"" + name + "\" src=\"" + value.s + "\"></img>")
  {
  }

  /** Server-processed content without any of the four members renders nothing. */
  lemma NoHtmlPropertiesWithoutContent(ms: seq<Member>, rawText: Json -> string)
    requires forall i :: 0 <= i < |ms| ==> ms[i].name !in {"searchablePlainTexts", "imageSources", "links", "htmlStrings"}
    ensures HtmlPropertiesMarkup(JObject(ms), rawText) == Success("")
  {
    LookupMissing(ms, KindKey(SearchablePlainText));
    LookupMissing(ms, KindKey(ImageSource));
    LookupMissing(ms, KindKey(Link));
    LookupMissing(ms, KindKey(HtmlString));
    assert Lookup(ms, KindKey(SearchablePlainText)) == None;
    assert Lookup(ms, KindKey(ImageSource)) == None;
    assert Lookup(ms, KindKey(Link)) == None;
    assert Lookup(ms, KindKey(HtmlString)) == None;
    assert KindMarkup(SearchablePlainText, JObject(ms), rawText) == Success("");
    assert KindMarkup(ImageSource, JObject(ms), rawText) == Success("");
    assert KindMarkup(Link, JObject(ms), rawText) == Success("");
    assert KindMarkup(HtmlString, JObject(ms), rawText) == Success("");
    assert "" + "" == "";
  }
}
