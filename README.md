# PnP Core SDK: client-side web parts and file requests, modelled in Dafny

This project models two parts of the PnP Core SDK for SharePoint:

- **`PageWebPart`**, the client-side web part of a modern page. It turns a web part into the canvas HTML fragment SharePoint stores (`ToHtml`, `RenderHtmlProperties`). It reads a web part back from a parsed element (`FromHtml`). It also normalises a properties JSON object into its fields (`SetPropertiesJson`, `Import`, the constructors). The source changes its object's fields step by step, so the model is the class `PageWebParts.PageWebPart`:
  - It has the same fields, `modifies` frames per field and loops with invariants.
  - Each method is proved equal to a pure step function over a snapshot of those fields.
  - The properties of each operation are proved as lemmas about that step function.
  - An operation that throws part way leaves its earlier assignments in place. The step functions return the new state together with the exception.
- **`File`**, the REST requests a SharePoint file sends for publish, unpublish, check-out, undo check-out, check-in, approve, recycle, copy and move. The source builds these requests by string interpolation and routing, so the model is pure functions (module `Files`). It also covers the classifier of "file does not exist" errors and the handling of a recycle response.

What the source calls but does not define is passed in as function-typed parameters (the `Importer`, `Renderer`, `Reader`, `FileContext` and `RecycleReader` records):

- `JsonSerializer` and `JsonDocument.Parse`;
- `JsonElement.GetRawText`;
- `WebUtility.HtmlDecode` and `WebUtility.UrlEncode`;
- GUID parsing and formatting;
- `Page.IdToDefaultWebPart`;
- `UrlUtility.IsSameSite` and `UrlUtility.EnsureAbsoluteUrl`;
- the entity URI.

The modules are:

| module | file | contents |
|---|---|---|
| `Wrappers` | `wrappers.dfy` | `Option`, `Result`, nullable strings, the exceptions |
| `Text` | `text.dfy` | `string.Replace`, `ToLower`, `Trim(char)`, decimal rendering |
| `Json` | `json.dfy` | `JsonElement` as a tree; member lookup keeps the last duplicate, as System.Text.Json does |
| `Dom` | `dom.dfy` | the parsed element: attributes and nested divs |
| `Canvas` | `canvas.dfy` | sections, columns, default web-part kinds, the base control's state |
| `PageHtml` | `page_html.dfy` | the serialised records, placement rules, data-version table, escaping, markup |
| `PageWebParts` | `page_web_part.dfy` | the web part's state, its step functions and the class |
| `Files` | `file.dfy` | the file requests |

Source paths below are relative to the repository root.

## Model

| member | source | states |
|---|---|---|
| PageWebParts.PageWebPart.constructor | src/sdk/PnP.Core/Model/SharePoint/Pages/Internal/PageWebPart.cs:31-46 | The new web part is control type 3. Its web-part data, html properties, title, description and preview image are "". It does not support full bleed. Its properties are the empty object `{}`, its dynamic data and server-processed content are `{}`, and it is not persisted through its control data only. |
| PageWebParts.PageWebPart.SetEmptyProperties | src/sdk/PnP.Core/Model/SharePoint/Pages/Internal/PageWebPart.cs:40 | SetPropertiesJson of `{}` makes the text of `{}` the properties JSON and `{}` the properties; no other field of the JSON group changes. |
| PageWebParts.SetPropertiesJsonEmptyObject | src/sdk/PnP.Core/Model/SharePoint/Pages/Internal/PageWebPart.cs:512-579 | For any prior state, SetPropertiesJson of the empty object changes only the properties and their text, and it does not throw. |
| PageWebParts.PageWebPart.FromComponent | src/sdk/PnP.Core/Model/SharePoint/Pages/Internal/PageWebPart.cs:52-59 | A null component throws ArgumentNullException. A component of another IPageComponent type becomes null at the `as PageComponent` cast, and Import throws NullReferenceException at its id. For a PageComponent, Import runs on a freshly constructed web part. It fails exactly when Import fails, with the same exception, and on success the identity and JSON groups are what Import leaves. |
| PageWebParts.PageWebPart.SetPropertiesJson | src/sdk/PnP.Core/Model/SharePoint/Pages/Internal/PageWebPart.cs:512-579 | The six JSON fields and the exception are exactly those of the step function SetPropertiesJsonStep for the fields before the call. |
| PageWebParts.SetPropertiesJsonReads | src/sdk/PnP.Core/Model/SharePoint/Pages/Internal/PageWebPart.cs:512-579 | JSON null is a no-op. Anything else that is not an object records its text and throws. For an object: the text is kept; with a `webPartData` member the properties and server-processed content come from inside it, and a non-object wrapper throws; without the wrapper the properties are the `properties` member or else the whole object. A data version that changed has no surrounding `"`. |
| PageWebParts.PageWebPart.ReadMembersFrom | src/sdk/PnP.Core/Model/SharePoint/Pages/Internal/PageWebPart.cs:521-577 | The member reads of either branch leave the fields and the exception that ReadMembers states. |
| PageWebParts.ReadMembersReads | src/sdk/PnP.Core/Model/SharePoint/Pages/Internal/PageWebPart.cs:521-577 | A non-object source throws and changes nothing. Otherwise the properties are the `properties` member (else the whole object in the top-level branch, else unchanged). The server-processed content, dynamic data paths and dynamic data values are each overridden by their member when it is present. The data version is the member's string with `"` trimmed on both sides; a non-string data version throws. |
| PageWebParts.WebPartDataWins | src/sdk/PnP.Core/Model/SharePoint/Pages/Internal/PageWebPart.cs:521-536 | When the wrapper and top-level members are both present, the properties, data version and server-processed content come from the wrapper. |
| PageWebParts.DataVersionUnquoted | src/sdk/PnP.Core/Model/SharePoint/Pages/Internal/PageWebPart.cs:559-562 | A data version written as `"…"` inside the JSON string is stored without its quotes. |
| PageWebParts.PageWebPart.Import | src/sdk/PnP.Core/Model/SharePoint/Pages/Internal/PageWebPart.cs:175-202 | The identity fields, the JSON fields and the exception are those of ImportStep, including the partial updates before an exception. |
| PageWebParts.ImportReads | src/sdk/PnP.Core/Model/SharePoint/Pages/Internal/PageWebPart.cs:175-202 | An id that is not a GUID throws before anything changes. On success: the web part id is the "D" text of the GUID. Title and Description are both the first preconfigured entry's `title.default`. Full bleed is the manifest's `supportsFullBleed`, false when missing. The JSON group is what SetPropertiesJson makes of the entry's `properties`, with the updater applied to the private properties text. |
| PageWebParts.ImportIgnoresUpdater | src/sdk/PnP.Core/Model/SharePoint/Pages/Internal/PageWebPart.cs:198-201 | The updater changes only the private properties text, which nothing reads. The exception, the identity fields, every other JSON field and the public PropertiesJson text are the same with or without it. |
| PageWebParts.ImportIntendedAppliesUpdater | src/sdk/PnP.Core/Model/SharePoint/Pages/Internal/PageWebPart.cs:174-201 | Import as documented (the updater result is assigned through the PropertiesJson setter): without an updater it is Import as written. A null updated text throws ArgumentNullException. An updated text that parses to an object without a `webPartData` wrapper becomes the properties (its `properties` member, or the whole object) and the kept text; the identity fields are unchanged. |
| PageWebParts.ImportUpdaterDiscrepancy | src/sdk/PnP.Core/Model/SharePoint/Pages/Internal/PageWebPart.cs:198-201 | Whenever the updated text names properties other than those from the manifest, Import as written and as documented end with different properties. |
| PageWebParts.PageWebPart.ToHtml | src/sdk/PnP.Core/Model/SharePoint/Pages/Internal/PageWebPart.cs:209-354 | The data version and the render fields end as ToHtmlJson says for the fields before the call. The result is that step's exception, or the markup of the fields as they are afterwards. |
| PageWebParts.ToHtmlSerializes | src/sdk/PnP.Core/Model/SharePoint/Pages/Internal/PageWebPart.cs:211-333 | A non-header web part in a one-column full-width section without full-bleed support throws ControlNotAllowedInFullWidthSection before any field changes; a header control never throws. A header control's control data is its web-part JSON and its canvas data version is its data version. A web part's data version is upgraded for its kind, and its preview image is the one the image sources select. |
| PageWebParts.ToHtmlMarkup | src/sdk/PnP.Core/Model/SharePoint/Pages/Internal/PageWebPart.cs:335-354 | In control-data-only mode or for a header control, the markup is the single control-data div. Otherwise it is the nested canvas-control, web-part, component-id and html-properties divs around the html-properties markup, which is then known to succeed. A header control's markup always succeeds. |
| PageWebParts.PageWebPart.RenderHeaderJson | src/sdk/PnP.Core/Model/SharePoint/Pages/Internal/PageWebPart.cs:326-333 | The render fields end as HeaderToJson says: the canvas data version, and the header JSON with its two placeholders replaced, used as both web-part and control data. |
| PageWebParts.PageWebPart.RenderWebPartJson | src/sdk/PnP.Core/Model/SharePoint/Pages/Internal/PageWebPart.cs:211-324 | The data version, the render fields and the exception end as WebPartToJson says for the fields before the call. |
| PageWebParts.PageWebPart.RenderMarkup | src/sdk/PnP.Core/Model/SharePoint/Pages/Internal/PageWebPart.cs:335-354 | The result is the markup function of the current fields; no field changes. |
| PageWebParts.PageWebPart.RenderHtmlProperties | src/sdk/PnP.Core/Model/SharePoint/Pages/Internal/PageWebPart.cs:361-406 | The result is the builder's contents followed by the html-properties markup of the server-processed content: searchable texts, then image sources, then links, then html strings. The first member that throws ends the rendering. |
| PageWebParts.AppendKind | src/sdk/PnP.Core/Model/SharePoint/Pages/Internal/PageWebPart.cs:365-405 | One block of RenderHtmlProperties: the kind's member is looked up and, when present and (for links) not null, the markup of each of its members is appended in order. |
| PageWebParts.AppendMembers | src/sdk/PnP.Core/Model/SharePoint/Pages/Internal/PageWebPart.cs:367-372 | The foreach over a kind's members appends each member's markup in document order and stops at the first exception; the loop invariant ties it to MembersMarkup. |
| PageWebParts.MembersMarkupFailureSticks | src/sdk/PnP.Core/Model/SharePoint/Pages/Internal/PageWebPart.cs:367-372 | Once a prefix of the members fails to render, every longer prefix fails with the same exception. |
| PageWebParts.SelectPreviewImage | src/sdk/PnP.Core/Model/SharePoint/Pages/Internal/PageWebPart.cs:293-300 | The foreach with `break` returns PreviewFrom: the lower-cased text of the first non-empty image source, or the current image. |
| PageWebParts.PreviewImage | src/sdk/PnP.Core/Model/SharePoint/Pages/Internal/PageWebPart.cs:291-301 | The preview image ToHtml keeps is PreviewImageAfter: unchanged without `imageSources`, selected from it otherwise; a content or source list that is not an object throws. |
| PageHtml.PreviewFromFirst | src/sdk/PnP.Core/Model/SharePoint/Pages/Internal/PageWebPart.cs:293-300 | When source i is the first whose text is not empty, the image is that text lower-cased. |
| PageHtml.PreviewFromAllEmpty | src/sdk/PnP.Core/Model/SharePoint/Pages/Internal/PageWebPart.cs:293-300 | When every source's text is empty, the current image is kept. |
| PageHtml.ControlDataFor | src/sdk/PnP.Core/Model/SharePoint/Pages/Internal/PageWebPart.cs:211-256 | The full-width check fails exactly when a one-column full-width section holds a part without full-bleed support. On success the control data carries the control type, instance id and web part id. Its position is the section order, column order, layout index and control index, with the section factor and the zone emphasis as below. The web-part-data placeholder is present exactly in control-data-only mode. |
| PageHtml.SectionFactor | src/sdk/PnP.Core/Model/SharePoint/Pages/Internal/PageWebPart.cs:236-251 | The lookup itself, stated case by case; ControlDataFor builds on it. The factor is 12 for the first column of a one-column vertical section and the column's own factor otherwise; `First()` on a vertical section without columns throws. |
| PageHtml.ZoneEmphasis | src/sdk/PnP.Core/Model/SharePoint/Pages/Internal/PageWebPart.cs:253-256 | The lookup itself, stated case by case; ControlDataFor builds on it. The emphasis is the column's vertical-section emphasis when it has one, else the section's zone emphasis. |
| PageHtml.UpgradeDataVersion | src/sdk/PnP.Core/Model/SharePoint/Pages/Internal/PageWebPart.cs:262-288 | The lookup itself, stated case by case; UpgradeIdempotent and ToHtmlSerializes build on it. Only a data version of exactly "1.0" changes, and then only for a kind with a table entry. |
| PageHtml.UpgradeTable | src/sdk/PnP.Core/Model/SharePoint/Pages/Internal/PageWebPart.cs:262-288 | The table: Image 1.9, ImageGallery 1.8, People 1.3, DocumentEmbed 1.2, ContentRollup 2.5, QuickLinks 2.2; other kinds keep 1.0. |
| PageHtml.UpgradeIdempotent | src/sdk/PnP.Core/Model/SharePoint/Pages/Internal/PageWebPart.cs:262-288 | Rendering twice upgrades no further than rendering once. |
| PageHtml.ReplaceSinglePlaceholder | src/sdk/PnP.Core/Model/SharePoint/Pages/Internal/PageWebPart.cs:308-323 | A quoted placeholder that occurs once in the serialised record is replaced by the JSON text, and the text around it is unchanged. |
| PageHtml.EscapeControlData | src/sdk/PnP.Core/Model/SharePoint/Pages/Internal/PageWebPart.cs:339 | The control-data attribute value contains no `"`. Every character other than those of `&quot;` occurs in it exactly when it occurs in the JSON. |
| PageHtml.EscapeWebPartData | src/sdk/PnP.Core/Model/SharePoint/Pages/Internal/PageWebPart.cs:344 | The web-part-data attribute value contains no `"`, `<` or `>`. |
| PageHtml.EscapeRoundTrip | src/sdk/PnP.Core/Model/SharePoint/Pages/Internal/PageWebPart.cs:339-344 | Decoding the named character references (`&quot;`, `&lt;`, `&gt;` and `&amp;`) gives back the JSON from both escapings, when the JSON has no `&` of its own. |
| PageHtml.EscapeLosesReferenceText | src/sdk/PnP.Core/Model/SharePoint/Pages/Internal/PageWebPart.cs:339-344 | Neither escaping writes the JSON's own `&`: the JSON text `&lt;` is left as it is and decodes to `<`. |
| PageHtml.EscapeIntendedRoundTrip | src/sdk/PnP.Core/Model/SharePoint/Pages/Internal/PageWebPart.cs:339-344 | With `&` also written as `&amp;`, one decoding gives back every JSON text, with or without `&`. |
| PageHtml.EscapeIntendedDecodedTwice | src/sdk/PnP.Core/Model/SharePoint/Pages/Internal/PageWebPart.cs:427-445 | With the corrected escaping, a second decoding after the first turns the JSON text `&lt;` into `<`, so the corrected escaping needs a single decoding. |
| PageHtml.EscapeIntendedAgrees | src/sdk/PnP.Core/Model/SharePoint/Pages/Internal/PageWebPart.cs:339-344 | On JSON without `&` the corrected escaping is the one the source applies, so the markup the model renders is unchanged there. |
| PageHtml.ControlDataAttributeReadsBack | src/sdk/PnP.Core/Model/SharePoint/Pages/Internal/PageWebPart.cs:339 | Scanning the markup from the control-data attribute to its closing quote gives the escaped JSON, and decoding that gives the JSON itself when it has no `&`. |
| PageHtml.WebPartDataAttributeReadsBack | src/sdk/PnP.Core/Model/SharePoint/Pages/Internal/PageWebPart.cs:344 | The same for the web-part-data attribute. |
| PageHtml.ComponentIdDivHoldsId | src/sdk/PnP.Core/Model/SharePoint/Pages/Internal/PageWebPart.cs:342-346 | The full markup opens with the canvas-control div and the web-part div, followed by the component-id div, which contains exactly the web part id. |
| PageHtml.ImageSourceMarkup | src/sdk/PnP.Core/Model/SharePoint/Pages/Internal/PageWebPart.cs:375-386 | An image source with empty text is written without `src`; a non-empty string is written as the `src`. |
| PageHtml.NoHtmlPropertiesWithoutContent | src/sdk/PnP.Core/Model/SharePoint/Pages/Internal/PageWebPart.cs:363-406 | Server-processed content without any of the four members renders nothing. |
| PageWebParts.PageWebPart.FromHtml | src/sdk/PnP.Core/Model/SharePoint/Pages/Internal/PageWebPart.cs:416-510 | The markup, identity and JSON groups and the exception end as FromHtmlStep says for the fields before the call. |
| PageWebParts.PageWebPart.ReadControlFrom | src/sdk/PnP.Core/Model/SharePoint/Pages/Internal/PageWebPart.cs:427-510 | From the control-data attribute on, the fields and the exception end as ReadControl says. |
| PageWebParts.FromHtmlRestores | src/sdk/PnP.Core/Model/SharePoint/Pages/Internal/PageWebPart.cs:416-510 | Without a control-data attribute FromHtml throws. On success the control data and control type are the deserialised control data's. Without a web-part-data div the control is a header control whose title and description come from its decoded control data. Otherwise the web-part data, title, description, id and html properties come from the div's decoded JSON and the html-properties div inside it. |
| PageWebParts.FromHtmlMissingTitle | src/sdk/PnP.Core/Model/SharePoint/Pages/Internal/PageWebPart.cs:434-466 | A header control whose JSON has no title and no description reads both as "", and IsHeaderControl is set. |
| PageWebParts.PageWebPart.ReadWebPartJsonFrom | src/sdk/PnP.Core/Model/SharePoint/Pages/Internal/PageWebPart.cs:448-510 | The part reading the decoded JSON ends as ReadWebPartJson says. |
| PageWebParts.ReadWebPartJsonReads | src/sdk/PnP.Core/Model/SharePoint/Pages/Internal/PageWebPart.cs:448-510 | Decoded JSON that is not an object throws before anything changes. On success the title and description are its members ("" when missing), `properties` is present, the data version is its string, and the id and html properties are read. |
| PageWebParts.PageWebPart.ReadPropertiesFrom | src/sdk/PnP.Core/Model/SharePoint/Pages/Internal/PageWebPart.cs:468-510 | The properties and the rest of the JSON are read as ReadProperties says. |
| PageWebParts.ReadPropertiesReads | src/sdk/PnP.Core/Model/SharePoint/Pages/Internal/PageWebPart.cs:468-469 | A missing `properties` throws KeyNotFound and changes nothing. Otherwise the properties are what the PropertiesJson setter (SetPropertiesJson of the member's text, parsed again) makes of them. |
| PageWebParts.PageWebPart.ReadAfterPropertiesFrom | src/sdk/PnP.Core/Model/SharePoint/Pages/Internal/PageWebPart.cs:471-510 | The rest of FromHtml ends as ReadAfterProperties says. |
| PageWebParts.ReadAfterPropertiesReads | src/sdk/PnP.Core/Model/SharePoint/Pages/Internal/PageWebPart.cs:471-510 | After the properties, the title, description, properties and markup fields are kept, and on success the data version, full bleed, dynamic data, id and html properties are read. |
| PageWebParts.PageWebPart.ReadDynamicDataFrom | src/sdk/PnP.Core/Model/SharePoint/Pages/Internal/PageWebPart.cs:487-500 | The server-processed content and the dynamic data paths and values are each replaced by their member when it is present. |
| PageWebParts.PageWebPart.ReadVersionAndFullBleedFrom | src/sdk/PnP.Core/Model/SharePoint/Pages/Internal/PageWebPart.cs:471-485 | The data version and the full-bleed flag end as ReadVersionAndFullBleed says. |
| PageWebParts.ReadVersionAndFullBleedReads | src/sdk/PnP.Core/Model/SharePoint/Pages/Internal/PageWebPart.cs:471-485 | The data version is the JSON's `dataVersion` (kept when missing). Full bleed is the properties' `isFullWidth` (kept when missing). Nothing else changes. |
| PageWebParts.PageWebPart.ReadIdAndHtmlPropertiesFrom | src/sdk/PnP.Core/Model/SharePoint/Pages/Internal/PageWebPart.cs:502-510 | The id and html-properties fields end as ReadIdAndHtmlProperties says. |
| PageWebParts.ReadIdAndHtmlPropertiesReads | src/sdk/PnP.Core/Model/SharePoint/Pages/Internal/PageWebPart.cs:502-510 | Only the web part id and the html properties change. This succeeds exactly when `id` is a string or null and, for a web part, the html-properties div exists; without a web-part div the markup fields are unchanged. |
| Dom.FirstWithAttributeMissing | src/sdk/PnP.Core/Model/SharePoint/Pages/Internal/PageWebPart.cs:430 | The search for a div carrying an attribute finds nothing exactly when no div carries it. |
| Dom.FirstWithAttributeFindsFirst | src/sdk/PnP.Core/Model/SharePoint/Pages/Internal/PageWebPart.cs:430 | What the search finds is the first div in document order that carries the attribute. |
| Dom.FoundWhenNested | src/sdk/PnP.Core/Model/SharePoint/Pages/Internal/PageWebPart.cs:430 | A div directly nested in the element that carries the attribute makes the search succeed. |
| Json.LookupMissing | src/sdk/PnP.Core/Model/SharePoint/Pages/Internal/PageWebPart.cs:521 | TryGetProperty fails exactly when no member has the name. |
| Json.LookupFindsLast | src/sdk/PnP.Core/Model/SharePoint/Pages/Internal/PageWebPart.cs:521 | TryGetProperty finds a member with the name that no later member shares. |
| Json.First | src/sdk/PnP.Core/Model/SharePoint/Pages/Internal/PageWebPart.cs:183 | The definition of `First()` as a contract, used by the manifest reads. `First()` succeeds exactly on a non-empty sequence and gives its first item. |
| Text.TrimCuts | src/sdk/PnP.Core/Model/SharePoint/Pages/Internal/PageWebPart.cs:530 | `Trim('"')` leaves a contiguous part of the string that neither starts nor ends with `"`, and all it removes is `"`. |
| Text.TrimIdempotent | src/sdk/PnP.Core/Model/SharePoint/Pages/Internal/PageWebPart.cs:561 | Trimming twice is trimming once. |
| Text.ToLowerMaps | src/sdk/PnP.Core/Model/SharePoint/Pages/Internal/PageWebPart.cs:297 | Lower-casing maps each character on its own and leaves no upper-case ASCII letter. |
| Text.ParseNatToString | src/sdk/PnP.Core/Model/SharePoint/Core/Internal/File.cs:580 | The decimal text of a non-negative integer reads back as that integer. |
| Files.ActionSuffixReadsBack | src/sdk/PnP.Core/Model/SharePoint/Core/Internal/File.cs:153-414 | Every action suffix (publish, unpublish, checkout, undoCheckout, checkin, approve, recycle) reads back, by an independent reader of method name and arguments, as its action, comment and check-in type; a null comment reads back as "". |
| Files.ActionRequestIdentifies | src/sdk/PnP.Core/Model/SharePoint/Core/Internal/File.cs:153-414 | Two actions send the same request exactly when they are the same action up to a null comment. |
| Files.NullCommentRendersEmpty | src/sdk/PnP.Core/Model/SharePoint/Core/Internal/File.cs:153 | A null comment sends the same request as "". |
| Files.ActionRequestExtendsEntity | src/sdk/PnP.Core/Model/SharePoint/Core/Internal/File.cs:237 | Every action request is the entity URI followed by `/`. |
| Files.CheckinTypeDigit | src/sdk/PnP.Core/Model/SharePoint/Core/Internal/File.cs:319-322 | The check-in type is embedded as one digit, its integer value, which names the type back. |
| Files.CheckinArgsRead | src/sdk/PnP.Core/Model/SharePoint/Core/Internal/File.cs:322 | The check-in arguments read back as the comment and the check-in type. |
| Files.BoolTextIdentifies | src/sdk/PnP.Core/Model/SharePoint/Core/Internal/File.cs:487 | The lower-case `true`/`false` texts identify the boolean. |
| Files.EscapeEncodedRemoves | src/sdk/PnP.Core/Model/SharePoint/Core/Internal/File.cs:486 | After the post-processing, the encoded destination contains neither `+` nor `/`. |
| Files.EscapeEncodedSpace | src/sdk/PnP.Core/Model/SharePoint/Core/Internal/File.cs:486 | Each `+` (a space, as UrlEncode writes it) becomes `%20`, and the text around it is escaped on its own. |
| Files.ReplaceKeepsPercentEncoded | src/sdk/PnP.Core/Model/SharePoint/Core/Internal/File.cs:486 | Replacing a character that is neither `%` nor a hex digit by percent-encoded text keeps a text percent-encoded. |
| Files.EscapeEncodedPercentEncoded | src/sdk/PnP.Core/Model/SharePoint/Core/Internal/File.cs:579 | When UrlEncode's output is percent-encoded (section 2.1 of RFC 3986: every `%` begins `%` HEXDIG HEXDIG), so is the escaped destination. |
| Files.CopyToSameSiteRequest | src/sdk/PnP.Core/Model/SharePoint/Core/Internal/File.cs:482-489 | A same-site copy calls `copyTo` on the entity with the escaped destination (no `+`, no `/`) and a lower-case `boverwrite`, and sends no body. |
| Files.CopyToCrossSiteRequest | src/sdk/PnP.Core/Model/SharePoint/Core/Internal/File.cs:527-539 | A cross-site copy calls `SP.MoveCopyUtil.CopyFileByPath` with the overwrite flag. Its body holds both absolute paths and the caller's options unchanged, or without options `KeepBoth == !overwrite` and the other two flags false. |
| Files.MoveToSameSiteRequest | src/sdk/PnP.Core/Model/SharePoint/Core/Internal/File.cs:575-583 | A same-site move calls `moveTo` with the escaped destination and the flags as a decimal number that reads back as the flags, and sends no body. |
| Files.MoveToCrossSiteRequest | src/sdk/PnP.Core/Model/SharePoint/Core/Internal/File.cs:620-633 | A cross-site move calls `SP.MoveCopyUtil.MoveFileByPath`, overwriting exactly when the Overwrite flag bit is set. Without options, KeepBoth holds exactly when that bit is clear; the caller's options are used unchanged. |
| Files.CrossSiteDefaultUnused | src/sdk/PnP.Core/Model/SharePoint/Core/Internal/File.cs:491-498 | The router always hands the cross-site helper an options object, so the helper's own default (KeepBoth true) never applies. |
| Files.RecycleReadsId | src/sdk/PnP.Core/Model/SharePoint/Core/Internal/File.cs:431-444 | For any non-empty response whose document is an object with a `d` object that has a `Recycle` member, wherever they sit among the other members, the result is that value's GUID. |
| Files.RecycleWithoutD | src/sdk/PnP.Core/Model/SharePoint/Core/Internal/File.cs:434 | An object response with no member `d` yields the empty GUID. |
| Files.RecycleWithoutRecycle | src/sdk/PnP.Core/Model/SharePoint/Core/Internal/File.cs:436 | A `d` object, wherever it sits in the document, with no member `Recycle` yields the empty GUID. |
| Files.RecycleNotAnObject | src/sdk/PnP.Core/Model/SharePoint/Core/Internal/File.cs:431-437 | A parse failure is passed on. A document that is not an object, or a `d` that is not an object, throws InvalidOperationException. |
| Files.RecycleEmptyResponse | src/sdk/PnP.Core/Model/SharePoint/Core/Internal/File.cs:423-428 | A null or empty response yields the empty GUID without parsing. |
| Files.FileDoesNotExistCode | src/sdk/PnP.Core/Model/SharePoint/Core/Internal/File.cs:764-775 | The classifier is true exactly for HTTP 404 with server error code -2130575338. For a 32-bit code, that is the bit pattern 0x81020016. |
| Files.ApproveSyncSendsCheckin | src/sdk/PnP.Core/Model/SharePoint/Core/Internal/File.cs:372-375 | The synchronous Approve as written sends a minor check-in with the comment, never the approval. |
| Files.ApproveSyncApproves | src/sdk/PnP.Core/Model/SharePoint/Core/Internal/File.cs:362-370 | The corrected synchronous Approve sends the entity URI followed by an approval carrying the comment. |
| Files.CopyToSyncDropsOptions | src/sdk/PnP.Core/Model/SharePoint/Core/Internal/File.cs:547-550 | Across sites, the synchronous CopyTo as written sends the default options: asked to bypass shared locks, it does not. |
| Files.CopyToSyncSendsOptions | src/sdk/PnP.Core/Model/SharePoint/Core/Internal/File.cs:541-545 | The corrected synchronous CopyTo sends the caller's options across sites. |

## Left out

- PageWebParts.PageWebPart.FromComponent: the ensures states only the identity and JSON groups that Import assigns. The other fields keep the parameterless constructor's values, which this contract does not restate.
- PageWebParts.PageWebPart.Import: models the code as written, where the updater result goes only to the private text. The documented behaviour is ImportIntendedStep (see Findings); FromComponent passes no updater, so both agree there.
- PageHtml.EscapeControlData, PageHtml.EscapeWebPartData: model the escaping as written, and the markup functions use it. The corrected escaping EscapeIntended (see Findings) agrees with it on JSON without `&`.
- PageHtml.EscapeIntendedRoundTrip: an Element's attribute values stand for the text the HTML parser has already decoded, and the parser's own decoding of references is not modelled. The round trip is through that one decoding; the model's FromHtml applies `htmlDecode` as the source does.
- CanvasControl's own FromHtml (the base call at the start of PageWebPart.FromHtml) is not part of this model. The base class is not among the modelled files; its state is the `CanvasControlState` record.
- RenderHtmlProperties' else branch, which appends HtmlPropertiesData when ServerProcessedContent is the default JsonElement, is not modelled. Every constructor assigns a parsed value, and every later assignment comes from a member, so the default value cannot occur.
- ToLower is modelled on ASCII letters only. Culture-specific and non-ASCII case mappings are not modelled.
- The JSON serialisers, the parser, raw JSON text, HtmlDecode, WebUtility.UrlEncode, GUID parsing and formatting, Page.IdToDefaultWebPart, UrlUtility.IsSameSite, UrlUtility.EnsureAbsoluteUrl and the entity URI are parameters. The exact text they produce is not modelled.
- The float `controlIndex` is carried through opaquely by its bit pattern; no arithmetic on it is modelled.
- Column equality in the vertical-section check is modelled as value equality of the column record, not reference equality.
- AngleSharp's traversal is modelled as a tree of divs with attributes. A div nested in a non-div element is treated as a child.
- Property getters that only return a field (Title, PropertiesJson and the others) are not separate members. PropertiesJson's getter is the raw text of Properties.
- The parameterless constructor assigns the preview image, the persistence flag, the dynamic data and the server-processed content once more after SetPropertiesJson. The model assigns those values before the call instead; SetPropertiesJson of `{}` leaves them in place, so the end state is the same.
- RenderWebPartJson computes the upgraded data version, the preview image and the two JSON texts first and assigns them together. Nothing reads those fields in between, so the end state is the same as the source's assignments one by one.
- The CheckinType and MoveOperations enumerations are declared outside File and are not part of this model. Their values are SharePoint's SP.CheckinType (minor 0, major 1, overwrite 2) and SP.MoveOperations (Overwrite is bit 0).
- A null destination URL for copy or move is not modelled; the destination is a string.
- Sending requests and batching are not modelled: RawRequestAsync, RawRequestBatchAsync, the batch variants, and the task plumbing of the synchronous wrappers. Each operation's request is modelled once. The batch recycle's default result is the same empty GUID.
- GetContentAsync and GetContentBytesAsync (streams over HTTP) are not modelled.
- Syntex classification (ClassifyAndExtract and its API call) is not modelled.

## Findings

| source | as written | input that shows it | evidently intended | confidence | as-written member | corrected member |
|---|---|---|---|---|---|---|
| src/sdk/PnP.Core/Model/SharePoint/Core/Internal/File.cs:372-375 | The synchronous `Approve(comment)` calls `CheckinAsync(comment)`. | Any comment `c`: the request is `{uri}/checkin(comment='c',checkintype=0)` instead of `{uri}/approve(comment='c')`. | Call `ApproveAsync(comment)`, as the asynchronous and batch forms do. | not executed | Files.ApproveSyncAsWritten, Files.ApproveSyncSendsCheckin | Files.ApproveSync, Files.ApproveSyncApproves |
| src/sdk/PnP.Core/Model/SharePoint/Core/Internal/File.cs:547-550 | The synchronous `CopyTo(destinationUrl, overwrite, options)` calls `CopyToAsync(destinationUrl, overwrite)` and drops `options`. | A cross-site destination, overwrite false, options with ShouldBypassSharedLocks true: the body carries the default options (KeepBoth true, ShouldBypassSharedLocks false). | Pass `options` on, as MoveTo does. | not executed | Files.CopyToSyncAsWritten, Files.CopyToSyncDropsOptions | Files.CopyToSync, Files.CopyToSyncSendsOptions |
| src/sdk/PnP.Core/Model/SharePoint/Pages/Internal/PageWebPart.cs:198-201 | Import stores the updater's result in the private `propertiesJson` field, which nothing reads; the PropertiesJson getter returns the text of Properties. | An updater returning `{"properties":{"a":1}}` for a manifest whose entry has other properties: the properties stay those of the manifest. | Assign the result through the PropertiesJson setter, so that it is parsed and read by SetPropertiesJson, as the parameter's documentation (line 174) says. | not executed | PageWebParts.ImportStep, PageWebParts.ImportIgnoresUpdater, PageWebParts.ImportUpdaterDiscrepancy | PageWebParts.ImportIntendedStep, PageWebParts.ImportIntendedAppliesUpdater |
| src/sdk/PnP.Core/Model/SharePoint/Pages/Internal/PageWebPart.cs:339-344 | The attribute escapings replace `"`, `<` and `>` but not `&`, while FromHtml decodes every reference (lines 437 and 445). | A JSON string holding `&lt;` is written unchanged and read back as `<`. | Write `&` as `&amp;` first, and decode the attribute once: reading the attribute already decodes its references (the control data is deserialised from it at line 427 without HtmlDecode), so the HtmlDecode at lines 437 and 445 goes. | not executed | PageHtml.EscapeControlData, PageHtml.EscapeWebPartData, PageHtml.EscapeLosesReferenceText | PageHtml.EscapeIntended, PageHtml.EscapeIntendedRoundTrip, PageHtml.EscapeIntendedDecodedTwice |
