/**
 * What the endpoints and forms exchange with the outside: the multipart
 * request, the AI service's reply, the HTTP response and the outcome of a
 * browser `fetch`. Everything here is an input to the model.
 */
module Http {
  import opened Wrappers
  import opened Json
  import opened Text

  /** A value thrown in JavaScript: an `Error` instance or anything else. */
  datatype Thrown = ErrorInstance(message: string) | OtherValue

  /** `err instanceof Error ? err.message : fallback` */
  function MessageOf(t: Thrown, fallback: string): (m: string)
    ensures t.OtherValue? ==> m == fallback
    ensures t.ErrorInstance? ==> m == t.message
  {
    match t
    case ErrorInstance(message) => message
    case OtherValue => fallback
  }

  /** V8's message for reading a property of `null` or `undefined`. */
  function PropertyReadError(base: string, key: string): string {
    "Cannot read properties of " + base + " (reading '" + key + "')"
  }

  /** A file picked in the browser: its name and declared MIME type. */
  datatype UploadFile = UploadFile(name: string, mimeType: string)

  /** `formData.get("image")`: absent, a plain text field, or a file. */
  datatype FormField = Absent | TextValue(text: string) | FileValue(file: UploadFile)

  /** The request body: either `request.formData()` throws, or it yields the `image` field. */
  datatype RequestBody = MalformedForm(cause: Thrown) | FormData(image: FormField)

  /** `!image` fails: the field is present and not an empty string. */
  predicate Present(f: FormField) {
    f.FileValue? || (f.TextValue? && f.text != "")
  }

  /** `if (!apiKey)` fails: the key is set and not empty. */
  predicate KeySet(apiKey: Option<string>) {
    apiKey.Some? && apiKey.value != ""
  }

  /** One block of the AI service's reply content. */
  datatype Block = TextBlock(text: string) | OtherBlock(kind: string)

  /** `anthropic.messages.create(...)`: it throws, or yields the content blocks. */
  datatype SdkOutcome = SdkError(cause: Thrown) | SdkMessage(content: seq<Block>)

  /** A response as `NextResponse.json(body, { status })` builds it. */
  datatype HttpResponse = HttpResponse(status: nat, body: Json)

  /** `response.ok` */
  predicate Ok(status: int) {
    200 <= status <= 299
  }

  /** `await response.json()`: the body parses, or it throws. */
  datatype BodyRead = Parsed(data: Json) | BodyError(cause: Thrown)

  /** `await fetch(...)` in a form: it throws, or a response arrives. */
  datatype FetchOutcome = FetchFailed(cause: Thrown) | Received(status: int, body: BodyRead)

  /** The four image types the floor-plan endpoint and form accept. */
  const SupportedImageTypes: seq<string> := ["image/jpeg", "image/png", "image/gif", "image/webp"]

  /** `SUPPORTED_IMAGE_TYPES.join(', ')` */
  lemma SupportedTypesListed()
    ensures Join(SupportedImageTypes, ", ") == "image/jpeg, image/png, image/gif, image/webp"
  {
    var s := SupportedImageTypes;
    assert s[1..][1..][1..] == ["image/webp"];
  }
}
