/**
 * The requests File builds for its operations and the two pieces of response handling it
 * does itself, as pure functions. Sending a request (RawRequestAsync, RawRequestBatchAsync)
 * is not modelled: the asynchronous, synchronous and batch forms of an operation all build
 * the same request, so each request is one function here. What the requests depend on
 * outside File (the entity URI, UrlUtility, WebUtility.UrlEncode, the JSON serialiser and
 * parser, Guid parsing) is passed in.
 */
module Files {
  import opened Wrappers
  import opened Text
  import opened Json

  // ---------------------------------------------------------------------------------------
  // Action requests

  /**
   * CheckinType, numbered as SharePoint's SP.CheckinType enumeration (the C# enumeration is
   * declared outside File and is not part of this model).
   */
  datatype CheckinType = MinorCheckIn | MajorCheckIn | OverwriteCheckIn

  /** (int)checkinType */
  function CheckinTypeValue(t: CheckinType): nat {
    match t
    case MinorCheckIn => 0
    case MajorCheckIn => 1
    case OverwriteCheckIn => 2
  }

  /** The check-in type a digit names, if any. */
  function CheckinTypeOf(d: char): Option<CheckinType> {
    if d == '0' then Some(MinorCheckIn)
    else if d == '1' then Some(MajorCheckIn)
    else if d == '2' then Some(OverwriteCheckIn)
    else None
  }

  /** The check-in type Checkin and CheckinAsync use when none is given. */
  const DefaultCheckinType: CheckinType := MinorCheckIn

  /** The operations whose request is the entity URI followed by a fixed suffix. */
  datatype FileAction =
    | Publish(comment: NString)
    | Unpublish(comment: NString)
    | Checkout
    | UndoCheckout
    | Checkin(comment: NString, checkinType: CheckinType)
    | Approve(comment: NString)
    | Recycle

  /** The name of the REST method an action calls. */
  function Verb(a: FileAction): string {
    match a
    case Publish(_) => "publish"
    case Unpublish(_) => "unpublish"
    case Checkout => "checkout"
    case UndoCheckout => "undoCheckout"
    case Checkin(_, _) => "checkin"
    case Approve(_) => "approve"
    case Recycle => "recycle"
  }

  /** `(comment='…')`, where `comment ?? string.Empty` renders a null comment as "". */
  function CommentArgs(comment: NString): string {
    "(comment='" + Str(comment) + "')"
  }

  /** `(comment='…',checkintype=n)` with the check-in type as its integer value. */
  function CheckinArgs(comment: NString, t: CheckinType): string {
    "(comment='" + (Str(comment) + "',checkintype=" + NatToString(CheckinTypeValue(t))) + ")"
  }

  /** The argument list of an action's REST method; checkout, undoCheckout and recycle take none. */
  function Args(a: FileAction): string {
    match a
    case Publish(c) => CommentArgs(c)
    case Unpublish(c) => CommentArgs(c)
    case Checkout => ""
    case UndoCheckout => ""
    case Checkin(c, t) => CheckinArgs(c, t)
    case Approve(c) => CommentArgs(c)
    case Recycle => ""
  }

  /** What follows the entity URI in an action's request. */
  function ActionSuffix(a: FileAction): string {
    "/" + (Verb(a) + Args(a))
  }

  /** The request URL of an action: `{SharePointUri}/{method}{arguments}`. */
  function ActionRequest(entityUri: string, a: FileAction): string {
    entityUri + ActionSuffix(a)
  }

  /** The action with a null comment replaced by "", which the request cannot tell apart. */
  function Normalize(a: FileAction): FileAction {
    match a
    case Publish(c) => Publish(Some(Str(c)))
    case Unpublish(c) => Unpublish(Some(Str(c)))
    case Checkin(c, t) => Checkin(Some(Str(c)), t)
    case Approve(c) => Approve(Some(Str(c)))
    case _ => a
  }

  /** The text of `s` before its first `c`; all of `s` when `c` does not occur. */
  function Before(s: string, c: char): (t: string)
    ensures |t| <= |s|
  {
    if s == [] || s[0] == c then [] else [s[0]] + Before(s[1..], c)
  }

  /** Before stops exactly at the first `c`. */
  lemma {:induction false} BeforeSplits(x: string, rest: string, c: char)
    requires c !in x && (rest == [] || rest[0] == c)
    ensures Before(x + rest, c) == x
    decreases |x|
  {
    if x == [] {
      assert x + rest == rest;
    } else {
      assert (x + rest)[0] == x[0];
      assert (x + rest)[1..] == x[1..] + rest;
      BeforeSplits(x[1..], rest, c);
    }
  }

  /** The middle of `s` when it starts with `pre` and ends with `post` (the two not overlapping). */
  function Enclosed(s: string, pre: string, post: string): Option<string> {
    if |pre| + |post| <= |s| && s[..|pre|] == pre && s[|s| - |post|..] == post
    then Some(s[|pre|..|s| - |post|])
    else None
  }

  lemma EnclosedWraps(pre: string, x: string, post: string)
    ensures Enclosed(pre + x + post, pre, post) == Some(x)
  {
    var s := pre + x + post;
    assert s[..|pre|] == pre;
    assert s[|s| - |post|..] == post;
    assert s[|pre|..|s| - |post|] == x;
  }

  /** The comment of a `(comment='…')` argument list. */
  function ParseCommentArgs(args: string): Option<string> {
    Enclosed(args, "(comment='", "')")
  }

  /** The comment and check-in type of a `(comment='…',checkintype=n)` argument list, n one digit. */
  function ParseCheckinArgs(args: string): Option<FileAction> {
    match Enclosed(args, "(comment='", ")")
    case None => None
    case Some(inner) =>
      var n := |inner|;
      if n < 15 || inner[n - 15..n - 1] != "',checkintype=" then None
      else
        match CheckinTypeOf(inner[n - 1])
        case None => None
        case Some(t) => Some(Checkin(Some(inner[..n - 15]), t))
  }

  /**
   * A reader of action suffixes: the method name up to the first '(' and its arguments. It
   * is the reference against which the requests are shown to identify their action.
   */
  function ParseAction(suffix: string): Option<FileAction> {
    if suffix == [] || suffix[0] != '/' then None
    else
      var verb := Before(suffix[1..], '(');
      var args := suffix[1 + |verb|..];
      if verb == "checkout" then (if args == [] then Some(Checkout) else None)
      else if verb == "undoCheckout" then (if args == [] then Some(UndoCheckout) else None)
      else if verb == "recycle" then (if args == [] then Some(Recycle) else None)
      else if verb == "checkin" then ParseCheckinArgs(args)
      else
        match ParseCommentArgs(args)
        case None => None
        case Some(c) =>
          if verb == "publish" then Some(Publish(Some(c)))
          else if verb == "unpublish" then Some(Unpublish(Some(c)))
          else if verb == "approve" then Some(Approve(Some(c)))
          else None
  }

  lemma VerbHasNoParenthesis(a: FileAction)
    ensures '(' !in Verb(a)
  {
    var v := Verb(a);
    forall i | 0 <= i < |v| ensures v[i] != '(' {
      assert 'A' <= v[i] <= 'z';
    }
  }

  /** The suffix splits into the method name and the argument list. */
  lemma SuffixSplits(a: FileAction)
    ensures var s := ActionSuffix(a);
            Before(s[1..], '(') == Verb(a) && s[1 + |Verb(a)|..] == Args(a)
  {
    var s := ActionSuffix(a);
    VerbHasNoParenthesis(a);
    assert Args(a) == [] || Args(a)[0] == '(';
    BeforeSplits(Verb(a), Args(a), '(');
  }

  /**
   * A check-in type is rendered as one digit, which names the type back and reads back as
   * the integer value.
   */
  lemma CheckinTypeDigit(t: CheckinType) returns (d: char)
    ensures NatToString(CheckinTypeValue(t)) == [d] && CheckinTypeOf(d) == Some(t)
    ensures ParseNat([d]) == CheckinTypeValue(t)
  {
    d := DigitChar(CheckinTypeValue(t));
    ParseNatToString(CheckinTypeValue(t));
  }

  /** A check-in argument list reads back as the comment and the check-in type. */
  lemma CheckinArgsRead(c: NString, t: CheckinType)
    ensures ParseCheckinArgs(CheckinArgs(c, t)) == Some(Checkin(Some(Str(c)), t))
  {
    var d := CheckinTypeDigit(t);
    EnclosedWraps("(comment='", Str(c) + "',checkintype=" + [d], ")");
    CheckinTailSplits(Str(c), d);
  }

  lemma CheckinTailSplits(x: string, d: char)
    ensures var inner := x + "',checkintype=" + [d];
            var n := |inner|;
            n >= 15 && inner[n - 15..n - 1] == "',checkintype=" && inner[..n - 15] == x && inner[n - 1] == d
  {
    var inner := x + "',checkintype=" + [d];
    assert inner[|x|..|x| + 14] == "',checkintype=";
  }

  /**
   * Every action request is read back as its action, the comment and the check-in type
   * included; a null comment reads back as "".
   */
  lemma ActionSuffixReadsBack(a: FileAction)
    ensures ParseAction(ActionSuffix(a)) == Some(Normalize(a))
  {
    if a.Publish? || a.Unpublish? || a.Approve? {
      CommentActionReadsBack(a);
    } else {
      SuffixSplits(a);
      if a.Checkin? {
        CheckinArgsRead(a.comment, a.checkinType);
      }
    }
  }

  /** The reading back of an action whose argument list is a comment alone. */
  lemma CommentActionReadsBack(a: FileAction)
    requires a.Publish? || a.Unpublish? || a.Approve?
    ensures ParseAction(ActionSuffix(a)) == Some(Normalize(a))
  {
    SuffixSplits(a);
    var c := a.comment;
    assert Args(a) == CommentArgs(c);
    EnclosedWraps("(comment='", Str(c), "')");
  }

  /**
   * Two actions send the same request exactly when they are the same action up to a null
   * comment: the request names the method, the comment and the check-in type.
   */
  lemma ActionRequestIdentifies(entityUri: string, a: FileAction, b: FileAction)
    ensures ActionRequest(entityUri, a) == ActionRequest(entityUri, b) <==> Normalize(a) == Normalize(b)
  {
    if ActionRequest(entityUri, a) == ActionRequest(entityUri, b) {
      var n := |entityUri|;
      assert ActionRequest(entityUri, a)[n..] == ActionSuffix(a);
      assert ActionRequest(entityUri, b)[n..] == ActionSuffix(b);
      ActionSuffixReadsBack(a);
      ActionSuffixReadsBack(b);
    }
    if Normalize(a) == Normalize(b) {
      NullCommentRendersEmpty(entityUri, a);
      NullCommentRendersEmpty(entityUri, b);
    }
  }

  /** A null comment sends the same request as the empty comment. */
  lemma NullCommentRendersEmpty(entityUri: string, a: FileAction)
    ensures ActionRequest(entityUri, a) == ActionRequest(entityUri, Normalize(a))
  {
  }

  /** Every action request starts with the entity URI and a '/'. */
  lemma ActionRequestExtendsEntity(entityUri: string, a: FileAction)
    ensures var r := ActionRequest(entityUri, a);
            |entityUri| < |r| && r[..|entityUri|] == entityUri && r[|entityUri|] == '/'
  {
    var r := ActionRequest(entityUri, a);
    assert r[..|entityUri|] == entityUri;
    assert r[|entityUri|] == ActionSuffix(a)[0];
  }

  // ---------------------------------------------------------------------------------------
  // Copy and move

  /** The MoveCopyOptions the MoveCopyUtil body carries. */
  datatype MoveCopyOptions = MoveCopyOptions(keepBoth: bool, resetAuthorAndCreatedOnCopy: bool, shouldBypassSharedLocks: bool)

  /** `new MoveCopyOptions() { KeepBoth = keepBoth }`: the other two flags keep their default, false. */
  function KeepBothOptions(keepBoth: bool): MoveCopyOptions {
    MoveCopyOptions(keepBoth, false, false)
  }

  /** The parameters serialised into the MoveCopyUtil body: absolute destination and source paths, options. */
  datatype MoveCopyParameters = MoveCopyParameters(destPath: string, srcPath: string, options: MoveCopyOptions)

  /** An ApiCall of type SPORest: its request URL and its body, present only for MoveCopyUtil calls. */
  datatype ApiCall = ApiCall(request: string, body: NString)

  /**
   * What the copy and move requests depend on besides their arguments: the entity URI, the
   * file's server-relative URL, UrlUtility.IsSameSite and UrlUtility.EnsureAbsoluteUrl
   * (both against PnPContext.Uri), WebUtility.UrlEncode and the JSON serialiser of the body.
   */
  datatype FileContext = FileContext(
    entityUri: string,
    serverRelativeUrl: string,
    isSameSite: string -> bool,
    ensureAbsoluteUrl: string -> string,
    urlEncode: string -> string,
    serialize: MoveCopyParameters -> string)

  /** bool.ToString().ToLower() */
  function BoolText(b: bool): string {
    if b then "true" else "false"
  }

  /** The lower-case texts of the two booleans differ, so the text gives the boolean back. */
  lemma BoolTextIdentifies(a: bool, b: bool)
    ensures BoolText(a) == BoolText(b) <==> a == b
  {
    if a != b {
      assert |BoolText(true)| != |BoolText(false)|;
    }
  }

  /**
   * The post-processing of WebUtility.UrlEncode's output in the same-site requests: the '+'
   * it writes for a space becomes "%20", and any '/' becomes "%2F".
   */
  function EscapeEncoded(encoded: string): string {
    Replace(Replace(encoded, "+", "%20"), "/", "%2F")
  }

  /** The escaped destination contains neither '+' nor '/'. */
  lemma EscapeEncodedRemoves(encoded: string)
    ensures '+' !in EscapeEncoded(encoded) && '/' !in EscapeEncoded(encoded)
  {
    ReplaceCharRemoves(encoded, '+', "%20");
    ReplaceCharKeepsOut(Replace(encoded, "+", "%20"), '/', '+', "%2F");
    ReplaceCharRemoves(Replace(encoded, "+", "%20"), '/', "%2F");
  }

  /** A '+' between two parts becomes "%20" and the parts are escaped on their own. */
  lemma EscapeEncodedSpace(a: string, b: string)
    ensures EscapeEncoded(a + "+" + b) == EscapeEncoded(a) + "%20" + EscapeEncoded(b)
  {
    ReplaceCharConcat(a + "+", b, '+', "%20");
    ReplaceCharConcat(a, "+", '+', "%20");
    ReplaceCharSingle('+', '+', "%20");
    var ra, rb := Replace(a, "+", "%20"), Replace(b, "+", "%20");
    assert Replace(a + "+" + b, "+", "%20") == ra + "%20" + rb;
    ReplaceCharConcat(ra + "%20", rb, '/', "%2F");
    ReplaceCharConcat(ra, "%20", '/', "%2F");
    ReplaceCharAbsent("%20", '/', "%2F");
  }

  /** HEXDIG of RFC 3986: a decimal digit or a letter A to F in either case. */
  predicate IsHexDigit(c: char) {
    '0' <= c <= '9' || 'A' <= c <= 'F' || 'a' <= c <= 'f'
  }

  /**
   * Section 2.1 of RFC 3986: every '%' begins a percent-encoded octet, "%" HEXDIG HEXDIG.
   */
  predicate PercentEncoded(s: string) {
    forall i :: 0 <= i < |s| && s[i] == '%' ==> i + 2 < |s| && IsHexDigit(s[i + 1]) && IsHexDigit(s[i + 2])
  }

  lemma PercentEncodedConcat(a: string, b: string)
    requires PercentEncoded(a) && PercentEncoded(b)
    ensures PercentEncoded(a + b)
  {
    var s := a + b;
    forall i | 0 <= i < |s| && s[i] == '%'
      ensures i + 2 < |s| && IsHexDigit(s[i + 1]) && IsHexDigit(s[i + 2])
    {
      if i < |a| {
        assert a[i] == '%';
      } else {
        assert b[i - |a|] == '%';
      }
    }
  }

  /**
   * Replacing a character that is neither '%' nor a hex digit by percent-encoded text keeps
   * a string percent-encoded.
   */
  lemma {:induction false} ReplaceKeepsPercentEncoded(s: string, c: char, r: string)
    requires PercentEncoded(s) && PercentEncoded(r) && c != '%' && !IsHexDigit(c)
    ensures PercentEncoded(Replace(s, [c], r))
    decreases |s|
  {
    if s != [] {
      var k := if s[0] == '%' then 3 else 1;
      assert s[0] == '%' ==> IsHexDigit(s[1]) && IsHexDigit(s[2]);
      var head, tail := s[..k], s[k..];
      assert s == head + tail;
      assert PercentEncoded(tail) by {
        forall i | 0 <= i < |tail| && tail[i] == '%'
          ensures i + 2 < |tail| && IsHexDigit(tail[i + 1]) && IsHexDigit(tail[i + 2])
        {
          assert s[i + k] == '%';
        }
      }
      ReplaceKeepsPercentEncoded(tail, c, r);
      ReplaceCharConcat(head, tail, c, r);
      if k == 3 {
        assert c !in head;
        ReplaceCharAbsent(head, c, r);
      } else {
        ReplaceCharSingle(s[0], c, r);
        assert head == [s[0]];
      }
      PercentEncodedConcat(Replace(head, [c], r), Replace(tail, [c], r));
    }
  }

  /**
   * The escaped destination stays percent-encoded when the encoder's output is (section 2.1
   * of RFC 3986), with each space written as "%20".
   */
  lemma EscapeEncodedPercentEncoded(encoded: string)
    requires PercentEncoded(encoded)
    ensures PercentEncoded(EscapeEncoded(encoded))
  {
    assert PercentEncoded("%20") by {
      assert "%20"[1] == '2' && "%20"[2] == '0';
    }
    assert PercentEncoded("%2F") by {
      assert "%2F"[1] == '2' && "%2F"[2] == 'F';
    }
    ReplaceKeepsPercentEncoded(encoded, '+', "%20");
    ReplaceKeepsPercentEncoded(Replace(encoded, "+", "%20"), '/', "%2F");
  }

  /** The MoveCopyUtil parameters; a missing options object defaults to KeepBoth. */
  function CrossSiteParameters(ctx: FileContext, destinationUrl: string, options: Option<MoveCopyOptions>): MoveCopyParameters {
    MoveCopyParameters(ctx.ensureAbsoluteUrl(destinationUrl), ctx.ensureAbsoluteUrl(ctx.serverRelativeUrl),
                       options.GetOr(KeepBothOptions(true)))
  }

  /** GetCopyToSameSiteApiCall */
  function CopyToSameSite(ctx: FileContext, destinationUrl: string, overwrite: bool): ApiCall {
    ApiCall(ctx.entityUri + "/copyTo(strnewurl='" + EscapeEncoded(ctx.urlEncode(destinationUrl)) +
            "', boverwrite=" + BoolText(overwrite) + ")", None)
  }

  /** GetCopyToCrossSiteApiCall */
  function CopyToCrossSite(ctx: FileContext, destinationUrl: string, overwrite: bool, options: Option<MoveCopyOptions>): ApiCall {
    ApiCall("_api/SP.MoveCopyUtil.CopyFileByPath(overwrite=@a1)?@a1=" + BoolText(overwrite),
            Some(ctx.serialize(CrossSiteParameters(ctx, destinationUrl, options))))
  }

  /** GetCopyToApiCall: a missing options object defaults to KeepBoth = !overwrite before the cross-site call. */
  function CopyToCall(ctx: FileContext, destinationUrl: string, overwrite: bool, options: Option<MoveCopyOptions>): ApiCall {
    if ctx.isSameSite(destinationUrl) then CopyToSameSite(ctx, destinationUrl, overwrite)
    else CopyToCrossSite(ctx, destinationUrl, overwrite, Some(options.GetOr(KeepBothOptions(!overwrite))))
  }

  /** `HasFlag(MoveOperations.Overwrite)`, the Overwrite flag being bit 0 of SP.MoveOperations. */
  function HasOverwrite(moveOperations: nat): bool {
    moveOperations % 2 == 1
  }

  /** GetMoveToSameSiteApiCall: the flags are sent as their integer value. */
  function MoveToSameSite(ctx: FileContext, destinationUrl: string, moveOperations: nat): ApiCall {
    ApiCall(ctx.entityUri + "/moveTo(newurl='" + EscapeEncoded(ctx.urlEncode(destinationUrl)) +
            "', flags=" + NatToString(moveOperations) + ")", None)
  }

  /** GetMoveToCrossSiteApiCall */
  function MoveToCrossSite(ctx: FileContext, destinationUrl: string, overwrite: bool, options: Option<MoveCopyOptions>): ApiCall {
    ApiCall("_api/SP.MoveCopyUtil.MoveFileByPath(overwrite=@a1)?@a1=" + BoolText(overwrite),
            Some(ctx.serialize(CrossSiteParameters(ctx, destinationUrl, options))))
  }

  /** GetMoveToApiCall: across sites, overwrite is the Overwrite flag and defaults KeepBoth to its negation. */
  function MoveToCall(ctx: FileContext, destinationUrl: string, moveOperations: nat, options: Option<MoveCopyOptions>): ApiCall {
    if ctx.isSameSite(destinationUrl) then MoveToSameSite(ctx, destinationUrl, moveOperations)
    else
      var overwrite := HasOverwrite(moveOperations);
      MoveToCrossSite(ctx, destinationUrl, overwrite, Some(options.GetOr(KeepBothOptions(!overwrite))))
  }

  /**
   * A same-site copy calls copyTo on the entity with the escaped destination and the
   * lower-case overwrite flag, and sends no body.
   */
  lemma CopyToSameSiteRequest(ctx: FileContext, destinationUrl: string, overwrite: bool, options: Option<MoveCopyOptions>)
    requires ctx.isSameSite(destinationUrl)
    ensures var call := CopyToCall(ctx, destinationUrl, overwrite, options);
            var e := EscapeEncoded(ctx.urlEncode(destinationUrl));
            call.body.None? &&
            call.request == ctx.entityUri + "/copyTo(strnewurl='" + e + "', boverwrite=" + BoolText(overwrite) + ")" &&
            '+' !in e && '/' !in e
  {
    EscapeEncodedRemoves(ctx.urlEncode(destinationUrl));
  }

  /**
   * A copy to another site calls MoveCopyUtil.CopyFileByPath with the overwrite flag and a
   * body with both absolute paths and the options: the caller's, unchanged, or, when none
   * are given, KeepBoth exactly when not overwriting.
   */
  lemma CopyToCrossSiteRequest(ctx: FileContext, destinationUrl: string, overwrite: bool, options: Option<MoveCopyOptions>)
    requires !ctx.isSameSite(destinationUrl)
    ensures var call := CopyToCall(ctx, destinationUrl, overwrite, options);
            var sent := if options.Some? then options.value else KeepBothOptions(!overwrite);
            call.request == "_api/SP.MoveCopyUtil.CopyFileByPath(overwrite=@a1)?@a1=" + BoolText(overwrite) &&
            call.body == Some(ctx.serialize(MoveCopyParameters(ctx.ensureAbsoluteUrl(destinationUrl),
                                                               ctx.ensureAbsoluteUrl(ctx.serverRelativeUrl), sent))) &&
            (options.None? ==> sent.keepBoth == !overwrite && !sent.resetAuthorAndCreatedOnCopy && !sent.shouldBypassSharedLocks)
  {
  }

  /**
   * A same-site move calls moveTo on the entity with the escaped destination and the flags
   * as a decimal number that reads back as the flags; it sends no body.
   */
  lemma MoveToSameSiteRequest(ctx: FileContext, destinationUrl: string, moveOperations: nat, options: Option<MoveCopyOptions>)
    requires ctx.isSameSite(destinationUrl)
    ensures var call := MoveToCall(ctx, destinationUrl, moveOperations, options);
            var e := EscapeEncoded(ctx.urlEncode(destinationUrl));
            var flags := NatToString(moveOperations);
            call.body.None? &&
            call.request == ctx.entityUri + "/moveTo(newurl='" + e + "', flags=" + flags + ")" &&
            '+' !in e && '/' !in e && ParseNat(flags) == moveOperations
  {
    EscapeEncodedRemoves(ctx.urlEncode(destinationUrl));
    ParseNatToString(moveOperations);
  }

  /**
   * A move to another site calls MoveCopyUtil.MoveFileByPath, overwriting exactly when the
   * Overwrite flag is set; without options the body keeps both files exactly when it is not.
   */
  lemma MoveToCrossSiteRequest(ctx: FileContext, destinationUrl: string, moveOperations: nat, options: Option<MoveCopyOptions>)
    requires !ctx.isSameSite(destinationUrl)
    ensures var call := MoveToCall(ctx, destinationUrl, moveOperations, options);
            var overwrite := moveOperations % 2 == 1;
            var sent := if options.Some? then options.value else KeepBothOptions(!overwrite);
            call.request == "_api/SP.MoveCopyUtil.MoveFileByPath(overwrite=@a1)?@a1=" + BoolText(overwrite) &&
            call.body == Some(ctx.serialize(MoveCopyParameters(ctx.ensureAbsoluteUrl(destinationUrl),
                                                               ctx.ensureAbsoluteUrl(ctx.serverRelativeUrl), sent))) &&
            (options.None? ==> sent.keepBoth == (moveOperations % 2 == 0))
  {
  }

  /**
   * The routers always hand the cross-site helpers an options object, so the helpers' own
   * default (KeepBoth whatever the overwrite flag) never applies.
   */
  lemma CrossSiteDefaultUnused(ctx: FileContext, destinationUrl: string, overwrite: bool)
    requires !ctx.isSameSite(destinationUrl)
    ensures CopyToCall(ctx, destinationUrl, overwrite, None) ==
            CopyToCrossSite(ctx, destinationUrl, overwrite, Some(KeepBothOptions(!overwrite)))
  {
  }

  // ---------------------------------------------------------------------------------------
  // Recycle

  /** Guid.Empty in its "D" format. */
  const EmptyGuid: string := "00000000-0000-0000-0000-000000000000"

  /** What the recycle response handling calls: the JSON parser and JsonElement.GetGuid ("D" text). */
  datatype RecycleReader = RecycleReader(parse: string -> Result<Json, Error>, getGuid: Json -> Result<string, Error>)

  /**
   * ProcessRecycleResponse: the recycle-bin item id at d.Recycle, or the empty GUID when
   * either member is missing; a document or a `d` that is not an object throws.
   */
  function ProcessRecycleResponse(json: string, reader: RecycleReader): Result<string, Error> {
    match reader.parse(json)
    case Failure(e) => Failure(e)
    case Success(document) =>
      match TryGetProperty(document, "d")
      case Failure(e) => Failure(e)
      case Success(None) => Success(EmptyGuid)
      case Success(Some(root)) =>
        match TryGetProperty(root, "Recycle")
        case Failure(e) => Failure(e)
        case Success(None) => Success(EmptyGuid)
        case Success(Some(id)) => reader.getGuid(id)
  }

  /** RecycleAsync after the request: an empty or missing response means the empty GUID. */
  function RecycleResult(responseJson: NString, reader: RecycleReader): Result<string, Error> {
    if IsNullOrEmpty(responseJson) then Success(EmptyGuid) else ProcessRecycleResponse(responseJson.value, reader)
  }

  /** A response whose `d` object has a member `Recycle` yields that value's GUID. */
  lemma RecycleReadsId(json: string, reader: RecycleReader, top: seq<Member>, inner: seq<Member>, id: Json)
    requires json != "" && reader.parse(json) == Success(JObject(top))
    requires Lookup(top, "d") == Some(JObject(inner)) && Lookup(inner, "Recycle") == Some(id)
    ensures RecycleResult(Some(json), reader) == reader.getGuid(id)
  {
  }

  /** An object response with no member `d` yields the empty GUID. */
  lemma RecycleWithoutD(json: string, reader: RecycleReader, top: seq<Member>)
    requires reader.parse(json) == Success(JObject(top))
    requires forall i :: 0 <= i < |top| ==> top[i].name != "d"
    ensures RecycleResult(Some(json), reader) == Success(EmptyGuid)
  {
    LookupMissing(top, "d");
  }

  /** A `d` object with no member `Recycle` yields the empty GUID. */
  lemma RecycleWithoutRecycle(json: string, reader: RecycleReader, top: seq<Member>, inner: seq<Member>)
    requires reader.parse(json) == Success(JObject(top)) && Lookup(top, "d") == Some(JObject(inner))
    requires forall i :: 0 <= i < |inner| ==> inner[i].name != "Recycle"
    ensures RecycleResult(Some(json), reader) == Success(EmptyGuid)
  {
    LookupMissing(inner, "Recycle");
  }

  /**
   * A parsed document that is not an object, or a `d` that is not an object, throws
   * InvalidOperationException; a parse failure is passed on unchanged.
   */
  lemma RecycleNotAnObject(json: string, reader: RecycleReader)
    requires json != ""
    ensures reader.parse(json).Failure? ==> RecycleResult(Some(json), reader) == Failure(reader.parse(json).error)
    ensures reader.parse(json).Success? && !reader.parse(json).value.JObject? ==>
      RecycleResult(Some(json), reader) == Failure(InvalidOperation)
    ensures var p := reader.parse(json);
            (p.Success? && p.value.JObject? && Lookup(p.value.members, "d").Some? &&
             !Lookup(p.value.members, "d").value.JObject?) ==>
      RecycleResult(Some(json), reader) == Failure(InvalidOperation)
  {
  }

  /** The empty GUID is returned without parsing when the response has no JSON at all. */
  lemma RecycleEmptyResponse(reader: RecycleReader)
    ensures RecycleResult(None, reader) == Success(EmptyGuid) && RecycleResult(Some(""), reader) == Success(EmptyGuid)
  {
  }

  // ---------------------------------------------------------------------------------------
  // Errors

  /** The parts of a SharePointRestError the classifier reads, both C# ints. */
  datatype SharePointRestError = SharePointRestError(httpResponseCode: int, serverErrorCode: int)

  predicate IsInt32(x: int) {
    -0x8000_0000 <= x < 0x8000_0000
  }

  /** ErrorIndicatesFileDoesNotExists */
  predicate ErrorIndicatesFileDoesNotExists(error: SharePointRestError) {
    error.httpResponseCode == 404 && error.serverErrorCode == -2130575338
  }

  /** The two's-complement bit pattern of a 32-bit int, as an unsigned value. */
  function UInt32Bits(x: int): (u: int)
    requires IsInt32(x)
    ensures 0 <= u < 0x1_0000_0000
  {
    if x < 0 then x + 0x1_0000_0000 else x
  }

  /**
   * A C# int error code means "file does not exist" with a 404 exactly when its bit pattern
   * is 0x81020016, the form in which SharePoint reports the code.
   */
  lemma FileDoesNotExistCode(error: SharePointRestError)
    requires IsInt32(error.serverErrorCode)
    ensures ErrorIndicatesFileDoesNotExists(error) <==>
            error.httpResponseCode == 404 && UInt32Bits(error.serverErrorCode) == 0x8102_0016
  {
  }

  // ---------------------------------------------------------------------------------------
  // The synchronous wrappers

  /** Approve(comment) as written: it calls CheckinAsync(comment) with the default check-in type. */
  function ApproveSyncAsWritten(entityUri: string, comment: NString): string {
    ActionRequest(entityUri, Checkin(comment, DefaultCheckinType))
  }

  /** The synchronous Approve as written sends a minor check-in and never the approval ApproveAsync sends. */
  lemma ApproveSyncSendsCheckin(entityUri: string, comment: NString)
    ensures ApproveSyncAsWritten(entityUri, comment) != ActionRequest(entityUri, Approve(comment))
    ensures ParseAction(ApproveSyncAsWritten(entityUri, comment)[|entityUri|..]) == Some(Checkin(Some(Str(comment)), MinorCheckIn))
  {
    ActionRequestIdentifies(entityUri, Checkin(comment, DefaultCheckinType), Approve(comment));
    assert ApproveSyncAsWritten(entityUri, comment)[|entityUri|..] == ActionSuffix(Checkin(comment, DefaultCheckinType));
    ActionSuffixReadsBack(Checkin(comment, DefaultCheckinType));
  }

  /** Approve(comment) as ApproveAsync does it. */
  function ApproveSync(entityUri: string, comment: NString): string {
    ActionRequest(entityUri, Approve(comment))
  }

  /** The corrected synchronous Approve sends an approval with the comment. */
  lemma ApproveSyncApproves(entityUri: string, comment: NString)
    ensures var r := ApproveSync(entityUri, comment);
            |entityUri| <= |r| && r[..|entityUri|] == entityUri &&
            ParseAction(r[|entityUri|..]) == Some(Approve(Some(Str(comment))))
  {
    var r := ApproveSync(entityUri, comment);
    assert r[..|entityUri|] == entityUri;
    assert r[|entityUri|..] == ActionSuffix(Approve(comment));
    ActionSuffixReadsBack(Approve(comment));
  }

  /** CopyTo(destinationUrl, overwrite, options) as written: it calls CopyToAsync without the options. */
  function CopyToSyncAsWritten(ctx: FileContext, destinationUrl: string, overwrite: bool, options: Option<MoveCopyOptions>): ApiCall {
    CopyToCall(ctx, destinationUrl, overwrite, None)
  }

  /** A serialiser that shows whether the shared locks are bypassed. */
  function LockSerializer(p: MoveCopyParameters): string {
    if p.options.shouldBypassSharedLocks then "bypass" else "keep"
  }

  /**
   * Across sites, the synchronous CopyTo as written sends the default options instead of the
   * caller's: asked to bypass shared locks, it does not.
   */
  lemma CopyToSyncDropsOptions(destinationUrl: string)
    ensures var ctx := FileContext("", "", _ => false, u => u, u => u, LockSerializer);
            var options := Some(MoveCopyOptions(true, false, true));
            CopyToSyncAsWritten(ctx, destinationUrl, false, options).body == Some("keep") &&
            CopyToCall(ctx, destinationUrl, false, options).body == Some("bypass")
  {
  }

  /** CopyTo(destinationUrl, overwrite, options) forwarding the options, as the other variants do. */
  function CopyToSync(ctx: FileContext, destinationUrl: string, overwrite: bool, options: Option<MoveCopyOptions>): ApiCall {
    CopyToCall(ctx, destinationUrl, overwrite, options)
  }

  /** The corrected synchronous CopyTo sends the caller's options across sites. */
  lemma CopyToSyncSendsOptions(ctx: FileContext, destinationUrl: string, overwrite: bool, o: MoveCopyOptions)
    requires !ctx.isSameSite(destinationUrl)
    ensures CopyToSync(ctx, destinationUrl, overwrite, Some(o)).body ==
            Some(ctx.serialize(MoveCopyParameters(ctx.ensureAbsoluteUrl(destinationUrl),
                                                  ctx.ensureAbsoluteUrl(ctx.serverRelativeUrl), o)))
  {
  }
}
