/**
 * `POST /api/analyze-chattels`: the image is sent to the AI service, the
 * first JSON-looking substring of its text reply is parsed, and only
 * well-formed chattel items (name, replacement cost, confidence) are kept.
 * `JSON.parse` is the parameter `parse` (`None` where it throws); the AI
 * service is `claude`, keyed by the media type declared for the image.
 */
module ChattelRoute {
  import opened Wrappers
  import opened Json
  import opened Http

  const NoImageMessage := "No image provided"
  const FailureMessage := "Failed to analyze image"
  const NotConfiguredNote := "AI analyser not configured (missing ANTHROPIC_API_KEY). Placeholder result for testing."

  // ---------------------------------------------------------------------
  // Well-formed items

  /** `isChattelItem`: a record whose `name` is a string and whose `replacementCost` and `confidence` are numbers. */
  predicate IsChattelItem(v: Json) {
    IsRecord(v) &&
    match (Lookup(v, "name"), Lookup(v, "replacementCost"), Lookup(v, "confidence"))
    case (Some(JStr(_)), Some(JNum(_)), Some(JNum(_))) => true
    case _ => false
  }

  /** An item is exactly a non-null, non-array object with the three typed fields. */
  lemma ChattelItemIff(v: Json)
    ensures IsChattelItem(v) <==>
      v.JObj? && "name" in v.fields && v.fields["name"].JStr?
      && "replacementCost" in v.fields && v.fields["replacementCost"].JNum?
      && "confidence" in v.fields && v.fields["confidence"].JNum?
  {
  }

  /** Fields other than the three do not matter. */
  lemma ExtraFieldsIgnored(m: map<string, Json>, key: string, x: Json)
    requires key != "name" && key != "replacementCost" && key != "confidence"
    ensures IsChattelItem(JObj(m[key := x])) == IsChattelItem(JObj(m))
  {
  }

  /** `values.filter(isChattelItem)` */
  function KeepItems(vs: seq<Json>): (r: seq<Json>)
    ensures |r| <= |vs|
    ensures forall k :: 0 <= k < |r| ==> IsChattelItem(r[k])
    decreases |vs|
  {
    if vs == [] then []
    else (if IsChattelItem(vs[0]) then [vs[0]] else []) + KeepItems(vs[1..])
  }

  /** A value is kept exactly when it is in the list and well formed. */
  lemma {:induction false} KeepItemsMembers(vs: seq<Json>, x: Json)
    ensures x in KeepItems(vs) <==> x in vs && IsChattelItem(x)
    decreases |vs|
  {
    if vs != [] {
      KeepItemsMembers(vs[1..], x);
      assert vs == [vs[0]] + vs[1..];
    }
  }

  /** `xs` is `ys` with some elements left out, the rest in their order. */
  predicate IsSubsequence(xs: seq<Json>, ys: seq<Json>)
    decreases |ys|
  {
    if ys == [] then xs == []
    else (xs != [] && xs[0] == ys[0] && IsSubsequence(xs[1..], ys[1..])) || IsSubsequence(xs, ys[1..])
  }

  /** The filter keeps the original order. */
  lemma {:induction false} KeepItemsIsSubsequence(vs: seq<Json>)
    ensures IsSubsequence(KeepItems(vs), vs)
    decreases |vs|
  {
    if vs != [] {
      KeepItemsIsSubsequence(vs[1..]);
      var r := KeepItems(vs);
      if IsChattelItem(vs[0]) {
        assert r == [vs[0]] + KeepItems(vs[1..]);
        assert r[0] == vs[0] && r[1..] == KeepItems(vs[1..]);
      } else {
        assert r == KeepItems(vs[1..]);
      }
    }
  }

  /** Filtering a concatenation filters each part: order is kept across the whole list. */
  lemma {:induction false} KeepItemsAppend(a: seq<Json>, b: seq<Json>)
    ensures KeepItems(a + b) == KeepItems(a) + KeepItems(b)
    decreases |a|
  {
    if a == [] {
      assert a + b == b;
    } else {
      assert (a + b)[0] == a[0];
      assert (a + b)[1..] == a[1..] + b;
      KeepItemsAppend(a[1..], b);
      var head := if IsChattelItem(a[0]) then [a[0]] else [];
      assert KeepItems(a + b) == head + KeepItems(a[1..] + b);
      assert KeepItems(a) == head + KeepItems(a[1..]);
      assert head + (KeepItems(a[1..]) + KeepItems(b)) == (head + KeepItems(a[1..])) + KeepItems(b);
    }
  }

  /** Nothing is dropped exactly when every element is well formed. */
  lemma {:induction false} KeepItemsIdentity(vs: seq<Json>)
    ensures KeepItems(vs) == vs <==> forall k :: 0 <= k < |vs| ==> IsChattelItem(vs[k])
    decreases |vs|
  {
    if vs != [] {
      KeepItemsIdentity(vs[1..]);
      if !IsChattelItem(vs[0]) {
        assert |KeepItems(vs)| < |vs|;
      } else {
        assert forall k :: 1 <= k < |vs| ==> vs[k] == vs[1..][k - 1];
      }
    }
  }

  /**
   * The shape select at the end of the handler: a parsed array is
   * filtered; an object with an array `items` has its `items` filtered;
   * anything else gives no items.
   */
  function SelectItems(parsed: Json): (items: seq<Json>)
    ensures forall k :: 0 <= k < |items| ==> IsChattelItem(items[k])
    ensures parsed.JArr? ==> items == KeepItems(parsed.elems)
    ensures parsed.JObj? && "items" in parsed.fields && parsed.fields["items"].JArr?
      ==> items == KeepItems(parsed.fields["items"].elems)
    ensures !parsed.JArr? && !(parsed.JObj? && "items" in parsed.fields && parsed.fields["items"].JArr?)
      ==> items == []
  {
    if parsed.JArr? then KeepItems(parsed.elems)
    else if IsRecord(parsed) then
      match Lookup(parsed, "items")
      case Some(JArr(es)) => KeepItems(es)
      case _ => []
    else []
  }

  /** The sofa example: the entry without the three fields is dropped. */
  lemma SofaExample()
    ensures var sofa := JObj(map["name" := JStr("Sofa"), "replacementCost" := JNum(500.0), "confidence" := JNum(0.9)]);
      SelectItems(JArr([sofa, JObj(map["bad" := JStr("entry")])])) == [sofa]
  {
    var sofa := JObj(map["name" := JStr("Sofa"), "replacementCost" := JNum(500.0), "confidence" := JNum(0.9)]);
    var bad := JObj(map["bad" := JStr("entry")]);
    assert IsChattelItem(sofa);
    assert !IsChattelItem(bad);
    assert [sofa, bad][1..] == [bad];
  }

  // ---------------------------------------------------------------------
  // Extraction: `text.match(/\{[\s\S]*\}|\[[\s\S]*\]/)`

  /** The strings the pattern accepts: `{` anything `}`, or `[` anything `]`. */
  predicate InPattern(s: string) {
    |s| >= 2 && ((s[0] == '{' && s[|s| - 1] == '}') || (s[0] == '[' && s[|s| - 1] == ']'))
  }

  /** `text[i..j]` is a string the pattern accepts. */
  predicate MatchesAt(text: string, i: int, j: int) {
    0 <= i < j <= |text| && InPattern(text[i..j])
  }

  lemma MatchesAtChars(text: string, i: int, j: int)
    requires 0 <= i < j <= |text|
    ensures MatchesAt(text, i, j) <==>
      j - i >= 2 && ((text[i] == '{' && text[j - 1] == '}') || (text[i] == '[' && text[j - 1] == ']'))
  {
    var s := text[i..j];
    assert |s| == j - i;
    assert |s| >= 1 ==> s[0] == text[i] && s[|s| - 1] == text[j - 1];
  }

  /** The index of the last `c` in `text`. */
  function LastIndexOf(text: string, c: char): (r: Option<nat>)
    ensures r.Some? ==> (r.value < |text| && text[r.value] == c
      && forall k :: r.value < k < |text| ==> text[k] != c)
    ensures r.None? ==> forall k :: 0 <= k < |text| ==> text[k] != c
    decreases |text|
  {
    if text == [] then None
    else if text[|text| - 1] == c then Some(|text| - 1)
    else LastIndexOf(text[..|text| - 1], c)
  }

  /**
   * The regular expression's search from index `from` on: at each start,
   * the object alternative, then the array alternative, each greedy up to
   * the last closer of the text; otherwise the next start.
   */
  function MatchFrom(text: string, from: nat): (r: Option<(nat, nat)>)
    requires from <= |text|
    ensures r.None? ==> forall i, j :: from <= i ==> !MatchesAt(text, i, j)
    ensures r.Some? ==> (from <= r.value.0 && MatchesAt(text, r.value.0, r.value.1)
      && (forall i, j :: from <= i < r.value.0 ==> !MatchesAt(text, i, j))
      && (forall j :: r.value.1 < j ==> !MatchesAt(text, r.value.0, j)))
    decreases |text| - from
  {
    if from == |text| then None
    else
      var lastBrace := LastIndexOf(text, '}');
      var lastBracket := LastIndexOf(text, ']');
      if text[from] == '{' && lastBrace.Some? && lastBrace.value > from then
        MatchesAtChars(text, from, lastBrace.value + 1);
        assert forall j :: lastBrace.value + 1 < j ==> !MatchesAt(text, from, j) by {
          forall j | lastBrace.value + 1 < j ensures !MatchesAt(text, from, j) {
            if j <= |text| { MatchesAtChars(text, from, j); }
          }
        }
        Some((from, lastBrace.value + 1))
      else if text[from] == '[' && lastBracket.Some? && lastBracket.value > from then
        MatchesAtChars(text, from, lastBracket.value + 1);
        assert forall j :: lastBracket.value + 1 < j ==> !MatchesAt(text, from, j) by {
          forall j | lastBracket.value + 1 < j ensures !MatchesAt(text, from, j) {
            if j <= |text| { MatchesAtChars(text, from, j); }
          }
        }
        Some((from, lastBracket.value + 1))
      else
        assert forall j :: !MatchesAt(text, from, j) by {
          forall j ensures !MatchesAt(text, from, j) {
            if from < j <= |text| { MatchesAtChars(text, from, j); }
          }
        }
        MatchFrom(text, from + 1)
  }

  /**
   * The span of the first match: the leftmost start at which the pattern
   * matches at all, and there the longest match, which ends at the last
   * occurrence of the closer in the whole text. `None` when nothing matches.
   */
  function FirstMatch(text: string): (r: Option<(nat, nat)>)
    ensures r.None? <==> forall i, j :: !MatchesAt(text, i, j)
    ensures r.Some? ==> (MatchesAt(text, r.value.0, r.value.1)
      && (forall i, j :: i < r.value.0 ==> !MatchesAt(text, i, j))
      && (forall j :: r.value.1 < j ==> !MatchesAt(text, r.value.0, j)))
    ensures r.Some? ==> forall k :: r.value.1 <= k < |text| ==> text[k] != text[r.value.1 - 1]
  {
    var r := MatchFrom(text, 0);
    if r.Some? then
      LongestEndsAtLastCloser(text, r.value.0, r.value.1);
      r
    else r
  }

  /** A longest match ends at the last occurrence of its closer. */
  lemma LongestEndsAtLastCloser(text: string, i: nat, j: nat)
    requires MatchesAt(text, i, j) && forall j' :: j < j' ==> !MatchesAt(text, i, j')
    ensures forall k :: j <= k < |text| ==> text[k] != text[j - 1]
  {
    forall k | j <= k < |text| ensures text[k] != text[j - 1] {
      MatchesAtChars(text, i, j);
      MatchesAtChars(text, i, k + 1);
    }
  }

  /** `match[0]`: the matched substring. */
  function ExtractJson(text: string): (m: Option<string>)
    ensures m.None? <==> forall i, j :: !MatchesAt(text, i, j)
    ensures m.Some? ==> InPattern(m.value)
    ensures m.Some? ==> exists i: nat, j: nat :: (
      && MatchesAt(text, i, j) && m.value == text[i..j]
      && (forall i', j' :: i' < i ==> !MatchesAt(text, i', j'))
      && (forall j' :: j < j' ==> !MatchesAt(text, i, j')))
  {
    match FirstMatch(text)
    case None => None
    case Some((i, j)) => Some(text[i..j])
  }

  /** Greedy: two objects in one reply are taken together, with the text between them. */
  lemma GreedyAcrossObjects()
    ensures ExtractJson("a{1}b{2}") == Some("{1}b{2}")
  {
    var t := "a{1}b{2}";
    MatchesAtChars(t, 1, 8);
    assert MatchesAt(t, 1, 8);
    assert !MatchesAt(t, 0, 8) by { MatchesAtChars(t, 0, 8); }
    forall j ensures !MatchesAt(t, 0, j) {
      if 0 < j <= |t| { MatchesAtChars(t, 0, j); }
    }
    assert t[1..8] == "{1}b{2}";
  }

  /** Leftmost wins over alternation order: an array holding objects is taken whole. */
  lemma LeftmostOpenerWins()
    ensures ExtractJson("[{}]") == Some("[{}]")
  {
    var t := "[{}]";
    MatchesAtChars(t, 0, 4);
    assert t[0..4] == t;
  }

  // ---------------------------------------------------------------------
  // The handler

  /** `image.type || "image/jpeg"`: only the empty type is replaced. */
  function DeclaredMediaType(mimeType: string): (m: string)
    ensures mimeType == "" ==> m == "image/jpeg"
    ensures mimeType != "" ==> m == mimeType
  {
    if mimeType == "" then "image/jpeg" else mimeType
  }

  /** The text of the reply's first block, when the reply has one and it is a text block. */
  function FirstText(reply: SdkOutcome): Option<string> {
    if reply.SdkMessage? && |reply.content| > 0 && reply.content[0].TextBlock?
    then Some(reply.content[0].text) else None
  }

  /** The AI service is called: a file was sent and the key is set. */
  predicate ReachesService(request: RequestBody, apiKey: Option<string>) {
    request.FormData? && request.image.FileValue? && KeySet(apiKey)
  }

  function ItemsBody(items: seq<Json>): Json {
    JObj(map["items" := JArr(items)])
  }

  function StubBody(): Json {
    JObj(map["items" := JArr([]), "notes" := JStr(NotConfiguredNote)])
  }

  /** A body whose `items` is a list of well-formed items. */
  predicate HasWellFormedItems(body: Json) {
    match Lookup(body, "items")
    case Some(JArr(es)) => forall k :: 0 <= k < |es| ==> IsChattelItem(es[k])
    case _ => false
  }

  method AnalyzeChattels(request: RequestBody, apiKey: Option<string>,
                         claude: string -> SdkOutcome, parse: string -> Option<Json>)
    returns (response: HttpResponse)
    ensures response.status == 200 || response.status == 400 || response.status == 500
    ensures response.status == 200 ==> HasWellFormedItems(response.body)
    ensures response.status == 500 ==> response.body == ErrorBody(FailureMessage)
    ensures response.status == 400 <==> request.FormData? && !Present(request.image)
    ensures response.status == 400 ==> response.body == ErrorBody(NoImageMessage)
    ensures request.MalformedForm? ==> response.status == 500
    ensures request.FormData? && Present(request.image) && !KeySet(apiKey)
      ==> response == HttpResponse(200, StubBody())
    ensures request.FormData? && request.image.TextValue? && Present(request.image) && KeySet(apiKey)
      ==> response.status == 500
    ensures ReachesService(request, apiKey) ==>
      var reply := claude(DeclaredMediaType(request.image.file.mimeType));
      match FirstText(reply)
      case None => response.status == 500
      case Some(text) =>
        match ExtractJson(text)
        case None => response == HttpResponse(200, ItemsBody([]))
        case Some(m) =>
          match parse(m)
          case None => response.status == 500
          case Some(v) => response == HttpResponse(200, ItemsBody(SelectItems(v)))
  {
    var failure := HttpResponse(500, ErrorBody(FailureMessage));
    if request.MalformedForm? {
      return failure;
    }
    var image := request.image;
    if !Present(image) {
      return HttpResponse(400, ErrorBody(NoImageMessage));
    }
    if !KeySet(apiKey) {
      return HttpResponse(200, StubBody());
    }
    if !image.FileValue? {
      // a text field has no `arrayBuffer`: the call throws a TypeError
      return failure;
    }
    var reply := claude(DeclaredMediaType(image.file.mimeType));
    if reply.SdkError? || |reply.content| == 0 {
      // the call threw, or `message.content[0].type` read a property of undefined
      return failure;
    }
    var first := reply.content[0];
    if !first.TextBlock? {
      return failure;
    }
    var items: seq<Json> := [];
    var found := ExtractJson(first.text);
    if found.Some? {
      var parsed := parse(found.value);
      if parsed.None? {
        return failure;
      }
      var v := parsed.value;
      if v.JArr? {
        items := KeepItems(v.elems);
      } else if IsRecord(v) {
        var maybeItems := Lookup(v, "items");
        if maybeItems.Some? && maybeItems.value.JArr? {
          items := KeepItems(maybeItems.value.elems);
        }
      }
    }
    return HttpResponse(200, ItemsBody(items));
  }
}
