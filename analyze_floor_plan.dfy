/**
 * `POST /api/analyze-floor-plan`: validate the uploaded image, answer with
 * a stub when no API key is configured, otherwise pass the AI service's
 * text reply through `JSON.parse` and return the parsed value unchanged.
 * `JSON.parse` is the parameter `parse` (`None` where it throws); the AI
 * service is `claude`, keyed by the image's media type.
 */
module FloorPlanRoute {
  import opened Wrappers
  import opened Json
  import opened Http
  import opened Text

  const NoImageMessage := "No image provided"
  const NotConfiguredNote := "AI analyser not configured (missing ANTHROPIC_API_KEY). Placeholder result for testing."
  const EmptyResponseMessage := "Empty response from Claude API"
  const ParseFailureMessage := "Failed to parse Claude API response"
  const ServiceFallbackMessage := "Error communicating with Claude API"
  const HandlerFallbackMessage := "An error occurred while analyzing the floor plan"
  /** How many characters of an unparseable reply are echoed back. */
  const PreviewLength := 100

  function InvalidTypeMessage(): string {
    "Invalid file type. Supported formats are: " + Join(SupportedImageTypes, ", ")
  }

  /** The stub result `{ rooms: [], totalArea: 0, notes }`. */
  function StubBody(): Json {
    JObj(map["rooms" := JArr([]), "totalArea" := JNum(0.0), "notes" := JStr(NotConfiguredNote)])
  }

  /** `image.type`: the declared type of a file, `undefined` for a text field. */
  function DeclaredType(f: FormField): Option<string> {
    if f.FileValue? then Some(f.file.mimeType) else None
  }

  /** The image passes both checks: present, and of one of the four supported types. */
  predicate AcceptedImage(f: FormField) {
    Present(f) && DeclaredType(f).Some? && DeclaredType(f).value in SupportedImageTypes
  }

  /**
   * `message.content[0].type === 'text' ? message.content[0].text : ''`:
   * `None` when the call threw or when there is no first block (reading
   * `.type` of undefined throws).
   */
  function ResponseText(reply: SdkOutcome): Option<string> {
    if reply.SdkMessage? && |reply.content| > 0 then
      Some(if reply.content[0].TextBlock? then reply.content[0].text else "")
    else None
  }

  /** The body sent back when the reply text does not parse. */
  function ParseFailureBody(text: string): Json {
    JObj(map["error" := JStr(ParseFailureMessage), "rawResponsePreview" := JStr(Substring(text, 0, PreviewLength))])
  }

  /** The inner `try`: the service call and the handling of its reply. */
  function ServiceResponse(reply: SdkOutcome, parse: string -> Option<Json>): (r: HttpResponse)
    ensures r.status == 200 || r.status == 500
    ensures r.status == 200 <==>
      ResponseText(reply).Some? && ResponseText(reply).value != "" && parse(ResponseText(reply).value).Some?
    ensures r.status == 200 ==> r.body == parse(ResponseText(reply).value).value
    ensures r.status == 500 ==> Lookup(r.body, "error").Some? && Lookup(r.body, "error").value.JStr?
    ensures ResponseText(reply) == Some("") ==> r == HttpResponse(500, ErrorBody(EmptyResponseMessage))
  {
    match reply
    case SdkError(cause) =>
      HttpResponse(500, ErrorBody(MessageOf(cause, ServiceFallbackMessage)))
    case SdkMessage(content) =>
      if |content| == 0 then
        HttpResponse(500, ErrorBody(MessageOf(ErrorInstance(PropertyReadError("undefined", "type")), ServiceFallbackMessage)))
      else
        var text := if content[0].TextBlock? then content[0].text else "";
        if text == "" then HttpResponse(500, ErrorBody(EmptyResponseMessage))
        else
          match parse(text)
          case Some(v) => HttpResponse(200, v)
          case None => HttpResponse(500, ParseFailureBody(text))
  }

  /** The handler (`POST`). */
  function AnalyzeFloorPlan(request: RequestBody, apiKey: Option<string>,
                            claude: string -> SdkOutcome, parse: string -> Option<Json>): (r: HttpResponse)
    ensures r.status == 200 || r.status == 400 || r.status == 500
    ensures r.status == 400 <==> request.FormData? && !AcceptedImage(request.image)
    ensures r.status == 200 ==> request.FormData? && AcceptedImage(request.image)
    ensures request.FormData? && AcceptedImage(request.image) && !KeySet(apiKey)
      ==> r == HttpResponse(200, StubBody())
    ensures request.FormData? && AcceptedImage(request.image) && KeySet(apiKey)
      ==> r == ServiceResponse(claude(request.image.file.mimeType), parse)
    ensures r.status != 200 ==> Lookup(r.body, "error").Some? && Lookup(r.body, "error").value.JStr?
  {
    match request
    case MalformedForm(cause) =>
      HttpResponse(500, ErrorBody(MessageOf(cause, HandlerFallbackMessage)))
    case FormData(image) =>
      if !Present(image) then HttpResponse(400, ErrorBody(NoImageMessage))
      else if !(DeclaredType(image).Some? && DeclaredType(image).value in SupportedImageTypes) then
        HttpResponse(400, ErrorBody(InvalidTypeMessage()))
      else if !KeySet(apiKey) then HttpResponse(200, StubBody())
      else ServiceResponse(claude(image.file.mimeType), parse)
  }

  /** A missing image is reported before its type is looked at, whatever the key. */
  lemma MissingImageFirst(image: FormField, apiKey: Option<string>,
                          claude: string -> SdkOutcome, parse: string -> Option<Json>)
    requires !Present(image)
    ensures AnalyzeFloorPlan(FormData(image), apiKey, claude, parse) == HttpResponse(400, ErrorBody("No image provided"))
  {
  }

  /** Any other type (a text field included) is refused with the list of the four types. */
  lemma UnsupportedTypeListed(image: FormField, apiKey: Option<string>,
                              claude: string -> SdkOutcome, parse: string -> Option<Json>)
    requires Present(image) && !AcceptedImage(image)
    ensures AnalyzeFloorPlan(FormData(image), apiKey, claude, parse)
         == HttpResponse(400, ErrorBody("Invalid file type. Supported formats are: "
                                        + "image/jpeg, image/png, image/gif, image/webp"))
  {
    SupportedTypesListed();
  }

  /** `text/plain` is refused. */
  lemma PlainTextRefused(name: string, apiKey: Option<string>,
                         claude: string -> SdkOutcome, parse: string -> Option<Json>)
    ensures AnalyzeFloorPlan(FormData(FileValue(UploadFile(name, "text/plain"))), apiKey, claude, parse).status == 400
  {
    assert "text/plain" !in SupportedImageTypes;
  }

  /** A reply that parses is returned unchanged with status 200, even a `{"error": ...}` object. */
  lemma ParsedReplyPassesThrough(text: string, v: Json, parse: string -> Option<Json>)
    requires text != "" && parse(text) == Some(v)
    ensures ServiceResponse(SdkMessage([TextBlock(text)]), parse) == HttpResponse(200, v)
  {
  }

  /**
   * A reply that does not parse gives 500 with a preview: the first
   * `min(100, |text|)` characters of the text.
   */
  lemma UnparseablePreview(content: seq<Block>, parse: string -> Option<Json>)
    requires |content| > 0 && content[0].TextBlock? && content[0].text != ""
    requires parse(content[0].text).None?
    ensures var text := content[0].text;
      var r := ServiceResponse(SdkMessage(content), parse);
      && r.status == 500
      && Lookup(r.body, "error") == Some(JStr("Failed to parse Claude API response"))
      && Lookup(r.body, "rawResponsePreview").Some? && Lookup(r.body, "rawResponsePreview").value.JStr?
      && var preview := Lookup(r.body, "rawResponsePreview").value.s;
         |preview| == (if |text| < 100 then |text| else 100) && preview == text[..|preview|]
  {
    SubstringFromZero(content[0].text, PreviewLength);
  }

  /** A first block that is not text reads as empty text. */
  lemma NonTextFirstBlockIsEmpty(kind: string, rest: seq<Block>, parse: string -> Option<Json>)
    ensures ServiceResponse(SdkMessage([OtherBlock(kind)] + rest), parse)
         == HttpResponse(500, ErrorBody("Empty response from Claude API"))
  {
  }

  /** A failed call forwards its message when it is an `Error`, a fixed text otherwise. */
  lemma ServiceErrorMessage(cause: Thrown, parse: string -> Option<Json>)
    ensures ServiceResponse(SdkError(cause), parse)
         == HttpResponse(500, ErrorBody(if cause.ErrorInstance? then cause.message else "Error communicating with Claude API"))
  {
  }
}
