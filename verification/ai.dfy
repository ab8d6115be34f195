/** The AI client: the request sent to the hosted text model and the
    post-processing of its reply (code-fence stripping, JSON parsing, image
    URL injection and the bilingual fallback). The network call itself is
    not modelled: its outcome is an input. The JSON parser is a parameter,
    a partial function from text to a JSON value. */
module Ai {
  import opened Optional
  import opened Strings
  import opened Js
  import UriEncoding
  import Decimal

  /** The options passed by callers. The declared type admits only 'ar' and
      'en' and a number, but the exercise and quiz routes pass request
      fields through unchecked, so either may be absent. */
  datatype PromptOptions = PromptOptions(language: Option<string>, age: Option<int>)

  /** The chat request: its system and user messages. The model name
      ("mistral") and JSON mode are fixed. */
  datatype AiRequest = AiRequest(system: string, user: string)

  /** What the network call produced: a failure before any status, or a
      status flag (`response.ok`) and the body text. */
  datatype AiReply = NetworkFailure | Reply(ok: bool, body: string)

  /** The request made and the value returned to the caller. */
  datatype AiCall = AiCall(request: AiRequest, result: Json)

  /** A JSON parser: the parsed value, or None where `JSON.parse` throws. */
  type Parser = string -> Option<Json>

  const DefaultSystemPrompt: string :=
    "\n" +
    "You are a friendly AI tutor for children aged 5–13, bilingual (Arabic & English).\n" +
    "You must explain school lessons with detailed text, practical examples, and matching images.\n" +
    "Always return output in JSON format:\n" +
    "{\n" +
    "  \"text\": \"Detailed explanation for the lesson. Use clear language and include 2-3 fun examples to help understanding. (Maximum 200 words)\",\n" +
    "  \"images\": [\n" +
    "    {\n" +
    "      \"prompt\": \"Description of matching cartoon/educational image\"\n" +
    "    }\n" +
    "  ]\n" +
    "}\n" +
    "Rules:\n" +
    "- Simple, age-appropriate language but thorough content.\n" +
    "- Include specific examples (e.g., \"Imagine if you have 10 apples...\").\n" +
    "- At least 2 image prompts for detailed lessons.\n" +
    "- Tone: Friendly, encouraging, and highly educational.\n"

  const ExercisePromptHead: string :=
    "\n" +
    "    You are an educational assistant. Generate 3 challenging and fun exercises for children based on the provided lesson.\n" +
    "    Always return output in JSON format:\n" +
    "    {\n" +
    "      \"exercises\": [\n" +
    "        {\n" +
    "          \"question\": \"Clear exercise instruction or question\",\n" +
    "          \"difficulty\": \"easy/medium/hard\"\n" +
    "        }\n" +
    "      ]\n" +
    "    }\n"

  const QuizPromptHead: string :=
    "\n" +
    "    You are an educational assistant. Create a 3-question multiple choice quiz for children based on the provided lesson.\n" +
    "    Always return output in JSON format:\n" +
    "    {\n" +
    "      \"questions\": [\n" +
    "        {\n" +
    "          \"question\": \"Fun quiz question\",\n" +
    "          \"options\": [\"Option 1\", \"Option 2\", \"Option 3\"],\n" +
    "          \"correctAnswer\": \"The exact same text as the correct option\"\n" +
    "        }\n" +
    "      ]\n" +
    "    }\n"

  const ExerciseTaskLabel := "Generate exercises for: "
  const QuizTaskLabel := "Create a quiz for: "

  const FallbackEnglish := "Oops, something went wrong."
  const FallbackArabic := "عذراً، حدث خطأ ما."

  const ImageEndpoint := "https://" + "image." + "pollinations.ai" + "/prompt/"
  const ImageStyle := "cartoon style educational illustration for kids, "
  const ImageQuery := "?" + "width=1024" + "&height=1024" + "&nologo=true"

  const JsonFence := "```json"

  /** A template-literal interpolation `${v}` of a value that may be absent. */
  function ShowString(v: Option<string>): string {
    match v
    case Some(s) => s
    case None => "undefined"
  }

  function ShowInt(v: Option<int>): string {
    match v
    case Some(n) => Decimal.IntToDecimal(n)
    case None => "undefined"
  }

  /** `systemPrompt || SYSTEM_PROMPT`: a non-empty override wins. */
  function SystemMessage(systemPrompt: Option<string>): (r: string)
    ensures r != ""
    ensures systemPrompt.Some? && systemPrompt.value != "" ==> r == systemPrompt.value
    ensures systemPrompt.None? || systemPrompt == Some("") ==> r == DefaultSystemPrompt
  {
    match systemPrompt
    case Some(s) => if s != "" then s else DefaultSystemPrompt
    case None => DefaultSystemPrompt
  }

  const TaskLine := "\n    Task: "

  /** The user message: the task, the age and the language on separate
      lines. */
  function UserMessage(content: string, options: PromptOptions): (r: string)
    ensures OccursAt(r, content, |TaskLine|)
    ensures IsPrefix(TaskLine + content, r)
    ensures r[|TaskLine| + |content|..]
      == "\n    Age: " + ShowInt(options.age) + "\n    Language: " + ShowString(options.language) + "\n  "
  {
    var tail := "\n    Age: " + ShowInt(options.age) + "\n    Language: " + ShowString(options.language) + "\n  ";
    var r := TaskLine + content + tail;
    assert r[|TaskLine|..|TaskLine| + |content|] == content;
    assert r[..|TaskLine + content|] == TaskLine + content;
    assert r[|TaskLine| + |content|..] == tail;
    r
  }

  function BuildRequest(content: string, options: PromptOptions, systemPrompt: Option<string>): AiRequest {
    AiRequest(SystemMessage(systemPrompt), UserMessage(content, options))
  }

  /** The cleaning of the reply text: trim it, and when it contains a fence
      delete every "```json", then every "```", and trim again. */
  function Clean(text: string): (r: string)
    ensures !Contains(r, Fence)
    ensures IsTrimmed(r)
    ensures !Contains(Trim(text), Fence) ==> r == Trim(text)
  {
    var t := Trim(text);
    if Contains(t, Fence) then
      var stripped := RemoveAll(RemoveAll(t, JsonFence), Fence);
      RemoveFenceLeavesNone(RemoveAll(t, JsonFence));
      TrimKeepsAbsence(stripped, Fence);
      Trim(stripped)
    else t
  }

  /** Cleaning a cleaned text changes nothing. */
  lemma CleanIdempotent(text: string)
    ensures Clean(Clean(text)) == Clean(text)
  {
    TrimFixesTrimmed(Clean(text));
  }

  predicate NoBacktick(s: string) {
    forall i :: 0 <= i < |s| ==> s[i] != '`'
  }

  lemma NoBacktickConcat(a: string, b: string)
    requires NoBacktick(a) && NoBacktick(b)
    ensures NoBacktick(a + b)
  {
    forall i | 0 <= i < |a + b|
      ensures (a + b)[i] != '`'
    {
      if i < |a| {
        assert (a + b)[i] == a[i];
      } else {
        assert (a + b)[i] == b[i - |a|];
      }
    }
  }

  /** The second pass deletes both markers around a backtick-free text. */
  lemma RemoveFencesAround(inner: string)
    requires NoBacktick(inner)
    ensures var w := inner + Fence; RemoveAll(w, Fence) == inner
    ensures var w := Fence + inner + Fence; RemoveAll(w, Fence) == inner
  {
    RemoveAllSkipsPrefix(inner, Fence, Fence);
    assert RemoveAll(Fence, Fence) == RemoveAll(Fence[3..], Fence);
    assert Fence[3..] == "";
    var w := Fence + inner + Fence;
    assert IsPrefix(Fence, w);
    assert w[3..] == inner + Fence;
  }

  /** A text that does not spell "json" after its opening fence keeps that
      fence through the first pass. */
  lemma UntaggedFenceSurvivesFirstPass(inner: string)
    requires NoBacktick(inner) && |inner| >= 1 && inner[0] == '\n'
    ensures var w := Fence + inner + Fence; RemoveAll(w, JsonFence) == w
  {
    FirstPassKeepsClosing(inner);
    FirstPassKeepsOpening(inner + Fence);
    assert Fence + inner + Fence == Fence + (inner + Fence);
  }

  /** Without a tag, the first pass leaves the text and the closing marker
      alone. */
  lemma FirstPassKeepsClosing(inner: string)
    requires NoBacktick(inner)
    ensures RemoveAll(inner + Fence, JsonFence) == inner + Fence
  {
    ShortLacks(Fence, JsonFence);
    RemoveAllAbsent(Fence, JsonFence);
    RemoveAllSkipsPrefix(inner, Fence, JsonFence);
  }

  /** An untagged opening marker, followed by a line break, survives the
      first pass. */
  lemma FirstPassKeepsOpening(rest: string)
    requires |rest| >= 1 && rest[0] == '\n'
    requires RemoveAll(rest, JsonFence) == rest
    ensures RemoveAll(Fence + rest, JsonFence) == Fence + rest
  {
    var w2 := ['`'] + rest;
    NotJsonFenceAt(w2, 1);
    RemoveAllKeepsHead('`', rest, JsonFence);
    var w1 := ['`'] + w2;
    NotJsonFenceAt(w1, 2);
    RemoveAllKeepsHead('`', w2, JsonFence);
    var w0 := ['`'] + w1;
    NotJsonFenceAt(w0, 3);
    RemoveAllKeepsHead('`', w1, JsonFence);
    assert w0 == Fence + rest;
  }

  /** A line break within the first seven characters rules out a tagged
      fence at the start. */
  lemma NotJsonFenceAt(w: string, k: nat)
    requires k < 4 && k < |w| && w[k] == '\n'
    ensures !IsPrefix(JsonFence, w)
  {
    if |JsonFence| <= |w| {
      assert w[..|JsonFence|][k] != JsonFence[k];
    }
  }

  /** With the `json` tag, the first pass deletes exactly the opening
      marker. */
  lemma TaggedFenceFirstPass(inner: string)
    requires NoBacktick(inner)
    ensures var w := JsonFence + inner + Fence; RemoveAll(w, JsonFence) == inner + Fence
  {
    var w := JsonFence + inner + Fence;
    ShortLacks(Fence, JsonFence);
    RemoveAllAbsent(Fence, JsonFence);
    RemoveAllSkipsPrefix(inner, Fence, JsonFence);
    assert IsPrefix(JsonFence, w);
    assert w[|JsonFence|..] == inner + Fence;
  }

  /** The fenced branch of the cleaning, for a text that is already
      trimmed. */
  lemma CleanFenced(t: string)
    requires IsTrimmed(t) && Contains(t, Fence)
    ensures Clean(t) == Trim(RemoveAll(RemoveAll(t, JsonFence), Fence))
  {
    TrimFixesTrimmed(t);
  }

  /** The opening marker of a fenced block, with or without the tag. */
  function OpenFence(tagged: bool): string {
    if tagged then JsonFence else Fence
  }

  /** Both deletion passes reduce a fenced block to the text between the
      markers. */
  lemma BothPassesUnwrap(inner: string, tagged: bool)
    requires NoBacktick(inner) && |inner| >= 1 && inner[0] == '\n'
    ensures var w := OpenFence(tagged) + inner + Fence;
      RemoveAll(RemoveAll(w, JsonFence), Fence) == inner
  {
    RemoveFencesAround(inner);
    if tagged {
      TaggedFenceFirstPass(inner);
    } else {
      UntaggedFenceSurvivesFirstPass(inner);
    }
  }

  /** A fenced block is trimmed and contains a fence. */
  lemma WrappedIsFenced(inner: string, tagged: bool)
    ensures var w := OpenFence(tagged) + inner + Fence;
      IsTrimmed(w) && Contains(w, Fence)
  {
    var w := OpenFence(tagged) + inner + Fence;
    assert w[0] == '`' && w[|w| - 1] == '`';
    assert w[..3] == Fence;
    assert OccursAt(w, Fence, 0);
  }

  /** A trimmed JSON text wrapped in a fenced Markdown block, with or
      without the `json` tag, cleans to the JSON text itself. */
  lemma CleanUnwrapsFence(j: string, tagged: bool)
    requires NoBacktick(j) && IsTrimmed(j)
    ensures Clean(OpenFence(tagged) + ("\n" + j + "\n") + Fence) == j
  {
    var inner := "\n" + j + "\n";
    LineFramed(j);
    NewlinePadding(j);
    CleanOfFenced(inner, tagged);
  }

  lemma NewlinePadding(j: string)
    requires IsTrimmed(j)
    ensures Trim("\n" + j + "\n") == j
  {
    TrimPadding("\n", j, "\n");
  }

  /** A backtick-free text between two line breaks is backtick-free and
      starts with a line break. */
  lemma LineFramed(j: string)
    requires NoBacktick(j)
    ensures var inner := "\n" + j + "\n"; NoBacktick(inner) && |inner| >= 1 && inner[0] == '\n'
  {
    NoBacktickConcat("\n", j);
    NoBacktickConcat("\n" + j, "\n");
  }

  /** Cleaning a fenced block gives the trimmed text between the markers. */
  lemma CleanOfFenced(inner: string, tagged: bool)
    requires NoBacktick(inner) && |inner| >= 1 && inner[0] == '\n'
    ensures Clean(OpenFence(tagged) + inner + Fence) == Trim(inner)
  {
    var w := OpenFence(tagged) + inner + Fence;
    WrappedIsFenced(inner, tagged);
    CleanFenced(w);
    BothPassesUnwrap(inner, tagged);
  }

  /** A text without backticks contains no fence. */
  lemma NoBacktickNoFence(s: string)
    requires NoBacktick(s)
    ensures !Contains(s, Fence)
  {
    forall i: nat | i <= |s|
      ensures !OccursAt(s, Fence, i)
    {
      if i + 3 <= |s| {
        assert s[i..i + 3][0] == s[i];
      }
    }
  }

  /** The image URL for a prompt: the endpoint, then the encoded styled
      prompt as a single path segment, then the fixed size and no-logo
      query. */
  function ImageUrl(prompt: string): (url: string)
    ensures IsPrefix(ImageEndpoint, url)
    ensures |url| >= |ImageEndpoint| + |ImageQuery|
    ensures url[|url| - |ImageQuery|..] == ImageQuery
  {
    var url := ImageEndpoint + UriEncoding.Encode(ImageStyle + prompt) + ImageQuery;
    assert url[..|ImageEndpoint|] == ImageEndpoint;
    assert url[|url| - |ImageQuery|..] == ImageQuery;
    url
  }

  /** Decoding the path segment of an image URL gives back the styled
      prompt. */
  lemma ImageUrlCarriesPrompt(prompt: string)
    ensures var url := ImageUrl(prompt);
      UriEncoding.Decode(url[|ImageEndpoint|..|url| - |ImageQuery|]) == Some(ImageStyle + prompt)
  {
    var e := UriEncoding.Encode(ImageStyle + prompt);
    UriEncoding.DecodeEncode(ImageStyle + prompt);
    var url := ImageEndpoint + e + ImageQuery;
    assert url[|ImageEndpoint|..|url| - |ImageQuery|] == e;
  }

  /** Different prompts give different URLs. */
  lemma ImageUrlInjective(a: string, b: string)
    requires ImageUrl(a) == ImageUrl(b)
    ensures a == b
  {
    ImageUrlCarriesPrompt(a);
    ImageUrlCarriesPrompt(b);
    assert (ImageStyle + a)[|ImageStyle|..] == a;
    assert (ImageStyle + b)[|ImageStyle|..] == b;
  }

  predicate NoQuestionMark(s: string) {
    forall i :: 0 <= i < |s| ==> s[i] != '?'
  }

  lemma EncodedHasNoQuestionMark(s: string)
    ensures NoQuestionMark(UriEncoding.Encode(s))
  {
    var e := UriEncoding.Encode(s);
    forall i | 0 <= i < |e|
      ensures e[i] != '?'
    {
      assert UriEncoding.IsEncodedChar(e[i]);
    }
  }

  lemma SingleQuestionMark(a: string, b: string, c: string)
    requires NoQuestionMark(a) && NoQuestionMark(b)
    requires |c| > 0 && NoQuestionMark(c[1..])
    ensures var s := a + b + c;
      forall i :: 0 <= i < |s| && s[i] == '?' ==> i == |a| + |b|
  {
    var s := a + b + c;
    forall i | 0 <= i < |s| && i != |a| + |b|
      ensures s[i] != '?'
    {
      if i < |a| {
        assert s[i] == a[i];
      } else if i < |a| + |b| {
        assert s[i] == b[i - |a|];
      } else {
        assert s[i] == c[1..][i - |a| - |b| - 1];
      }
    }
  }

  lemma NoQuestionMarkJoin(a: string, b: string)
    requires NoQuestionMark(a) && NoQuestionMark(b)
    ensures NoQuestionMark(a + b)
  {
    forall i | 0 <= i < |a + b|
      ensures (a + b)[i] != '?'
    {
      if i >= |a| {
        assert (a + b)[i] == b[i - |a|];
      }
    }
  }

  lemma EndpointHasNoQuestionMark()
    ensures NoQuestionMark(ImageEndpoint)
  {
    var a, b, c, d := "https://", "image.", "pollinations.ai", "/prompt/";
    assert NoQuestionMark(a) && NoQuestionMark(b) && NoQuestionMark(c) && NoQuestionMark(d);
    NoQuestionMarkJoin(a, b);
    NoQuestionMarkJoin(a + b, c);
    NoQuestionMarkJoin(a + b + c, d);
  }

  lemma QueryHasOneQuestionMark()
    ensures |ImageQuery| > 0 && NoQuestionMark(ImageQuery[1..])
  {
    var a, b, c := "width=1024", "&height=1024", "&nologo=true";
    assert NoQuestionMark(a) && NoQuestionMark(b) && NoQuestionMark(c);
    NoQuestionMarkJoin(a, b);
    NoQuestionMarkJoin(a + b, c);
    assert ImageQuery == "?" + (a + b + c);
  }

  /** The only `?` of an image URL opens the fixed query, so no prompt can
      alter the query parameters. */
  lemma ImageUrlQueryIsFixed(prompt: string)
    ensures var url := ImageUrl(prompt);
      forall i :: 0 <= i < |url| && url[i] == '?' ==> i == |url| - |ImageQuery|
  {
    var e := UriEncoding.Encode(ImageStyle + prompt);
    EncodedHasNoQuestionMark(ImageStyle + prompt);
    EndpointHasNoQuestionMark();
    QueryHasOneQuestionMark();
    SingleQuestionMark(ImageEndpoint, e, ImageQuery);
  }

  /** `generateEducationalImage(topic)`. */
  function GenerateEducationalImage(topic: string): (url: string)
    ensures url == ImageUrl(topic)
  {
    ImageUrl(topic)
  }

  /** Building the URL of an image throws: the image is `null`, whose
      prompt cannot be read, or its prompt is a value whose conversion to
      text throws. */
  predicate RewriteThrows(img: Json) {
    img.JNull? || (img.JObj? && "prompt" in img.fields && Unprintable(img.fields["prompt"]))
  }

  /** The text an image's `prompt` property reads as inside the URL
      template: the prompt itself when it is a string, "undefined" when it
      is missing. */
  function PromptText(img: Json): (r: string)
    requires !RewriteThrows(img)
    ensures img.JObj? && "prompt" in img.fields && img.fields["prompt"].JStr? ==> r == img.fields["prompt"].s
    ensures !(img.JObj? && "prompt" in img.fields) ==> r == "undefined"
  {
    ToText(Member(Some(img), "prompt").value)
  }

  /** `{...img, url}` for one image: every property of the image, plus the
      URL built from its prompt (replacing any `url` it had). */
  function WithUrl(img: Json): (r: Json)
    requires !RewriteThrows(img)
    ensures r.JObj?
    ensures r.fields.Keys == Spread(img).Keys + {"url"}
    ensures forall k :: k in Spread(img) && k != "url" ==> r.fields[k] == Spread(img)[k]
    ensures r.fields["url"] == JStr(ImageUrl(PromptText(img)))
  {
    JObj(Spread(img)["url" := JStr(ImageUrl(PromptText(img)))])
  }

  /** Building the URL of some image throws. */
  predicate SomeThrows(items: seq<Json>) {
    exists i :: 0 <= i < |items| && RewriteThrows(items[i])
  }

  /** `xs` is `items` with every image given its URL. */
  predicate Injected(items: seq<Json>, xs: seq<Json>) {
    |xs| == |items| && forall i :: 0 <= i < |items| ==> !RewriteThrows(items[i]) && xs[i] == WithUrl(items[i])
  }

  lemma SomeThrowsCons(items: seq<Json>)
    requires |items| > 0
    ensures SomeThrows(items) <==> RewriteThrows(items[0]) || SomeThrows(items[1..])
  {
    if SomeThrows(items[1..]) {
      var i :| 0 <= i < |items[1..]| && RewriteThrows(items[1..][i]);
      assert RewriteThrows(items[i + 1]);
    }
  }

  lemma InjectedCons(items: seq<Json>, rest: seq<Json>)
    requires |items| > 0 && !RewriteThrows(items[0]) && Injected(items[1..], rest)
    ensures Injected(items, [WithUrl(items[0])] + rest)
  {
    var xs := [WithUrl(items[0])] + rest;
    forall i | 0 < i < |items|
      ensures !RewriteThrows(items[i]) && xs[i] == WithUrl(items[i])
    {
      assert items[i] == items[1..][i - 1] && xs[i] == rest[i - 1];
    }
  }

  /** `images.map(img => ({...img, url}))`: None where building the URL of
      an image throws. */
  function InjectAll(items: seq<Json>): (r: Option<seq<Json>>)
    ensures r.None? <==> SomeThrows(items)
    ensures r.Some? ==> Injected(items, r.value)
  {
    if |items| == 0 then Some([])
    else
      SomeThrowsCons(items);
      if RewriteThrows(items[0]) then None
      else
        match InjectAll(items[1..])
        case None => None
        case Some(rest) =>
          InjectedCons(items, rest);
          Some([WithUrl(items[0])] + rest)
  }

  /** The `images` property of a parsed reply, when reading it does not
      throw. */
  function ImagesOf(data: Json): Option<Json>
    requires !data.JNull?
  {
    Member(Some(data), "images").value
  }

  /** The image rewriting of a parsed reply. None where it throws: reading
      `images` of `null`, calling `map` on a truthy non-array, or building
      the URL of an image that is `null` or whose prompt cannot be
      converted to text. */
  function InjectImages(data: Json): (r: Option<Json>)
    ensures data.JNull? ==> r.None?
    ensures r.Some? ==> !r.value.JNull?
    ensures !data.JNull? && !Truthy(ImagesOf(data)) ==> r == Some(data)
    ensures !data.JNull? && Truthy(ImagesOf(data)) && !ImagesOf(data).value.JArr? ==> r.None?
    ensures !data.JNull? && ImagesOf(data).Some? && ImagesOf(data).value.JArr? ==>
      var items := ImagesOf(data).value.items;
      && (r.Some? <==> forall i :: 0 <= i < |items| ==> !RewriteThrows(items[i]))
      && (r.Some? ==>
        && data.JObj? && r.value.JObj?
        && r.value.fields.Keys == data.fields.Keys
        && (forall k :: k in data.fields && k != "images" ==> r.value.fields[k] == data.fields[k])
        && r.value.fields["images"].JArr?
        && |r.value.fields["images"].items| == |items|
        && (forall i :: 0 <= i < |items| ==> r.value.fields["images"].items[i] == WithUrl(items[i])))
  {
    match Member(Some(data), "images")
    case Throws => None
    case Got(images) =>
      if !Truthy(images) then Some(data)
      else
        match images.value
        case JArr(items) =>
          (match InjectAll(items)
           case None => None
           case Some(xs) => Some(JObj(data.fields["images" := JArr(xs)])))
        case _ => None
  }

  function FallbackText(language: Option<string>): (r: string)
    ensures r == FallbackArabic <==> language == Some("ar")
    ensures r == FallbackEnglish <==> language != Some("ar")
  {
    assert FallbackArabic[0] != FallbackEnglish[0];
    if language == Some("ar") then FallbackArabic else FallbackEnglish
  }

  /** The value returned on any failure: an apology in the caller's
      language and no images. */
  function Fallback(language: Option<string>): (r: Json)
    ensures r.JObj? && r.fields.Keys == {"text", "images"}
    ensures r.fields["text"] == JStr(FallbackText(language))
    ensures r.fields["images"] == JArr([])
  {
    JObj(map["text" := JStr(FallbackText(language)), "images" := JArr([])])
  }

  /** The handling of the reply: a failed call, a non-OK status, a cleaned
      body that does not parse, or an image rewriting that throws all give
      the fallback; otherwise the parsed value with its images rewritten.
      Nothing escapes as an exception. */
  function Interpret(reply: AiReply, language: Option<string>, parse: Parser): (r: Json)
    ensures !r.JNull?
    ensures reply.NetworkFailure? ==> r == Fallback(language)
    ensures reply.Reply? && !reply.ok ==> r == Fallback(language)
    ensures reply.Reply? && reply.ok && parse(Clean(reply.body)).None? ==> r == Fallback(language)
    ensures reply.Reply? && reply.ok && parse(Clean(reply.body)).Some? ==>
      var data := parse(Clean(reply.body)).value;
      r == (if InjectImages(data).Some? then InjectImages(data).value else Fallback(language))
  {
    match reply
    case NetworkFailure => Fallback(language)
    case Reply(ok, body) =>
      if !ok then Fallback(language)
      else
        match parse(Clean(body))
        case None => Fallback(language)
        case Some(data) =>
          match InjectImages(data)
          case None => Fallback(language)
          case Some(d) => d
  }

  /** `explainLesson(content, options, systemPrompt)`. */
  function ExplainLesson(content: string, options: PromptOptions, systemPrompt: Option<string>,
                         reply: AiReply, parse: Parser): (call: AiCall)
    ensures call.request.system == SystemMessage(systemPrompt)
    ensures OccursAt(call.request.user, content, |TaskLine|)
    ensures IsPrefix(TaskLine + content, call.request.user)
    ensures call.request.user == UserMessage(content, options)
    ensures call.result == Interpret(reply, options.language, parse)
  {
    AiCall(BuildRequest(content, options, systemPrompt), Interpret(reply, options.language, parse))
  }

  /** The exercise system prompt, with the options interpolated. */
  function ExerciseSystemPrompt(options: PromptOptions): (r: string)
    ensures IsPrefix(ExercisePromptHead, r)
    ensures r[|ExercisePromptHead|..]
      == "    Language: " + ShowString(options.language) + "\n    Age: " + ShowInt(options.age) + "\n  "
  {
    var tail := "    Language: " + ShowString(options.language) + "\n    Age: " + ShowInt(options.age) + "\n  ";
    var r := ExercisePromptHead + tail;
    assert r[..|ExercisePromptHead|] == ExercisePromptHead;
    assert r[|ExercisePromptHead|..] == tail;
    r
  }

  /** The quiz system prompt, with the options interpolated. */
  function QuizSystemPrompt(options: PromptOptions): (r: string)
    ensures IsPrefix(QuizPromptHead, r)
    ensures r[|QuizPromptHead|..]
      == "    Language: " + ShowString(options.language) + "\n    Age: " + ShowInt(options.age) + "\n  "
  {
    var tail := "    Language: " + ShowString(options.language) + "\n    Age: " + ShowInt(options.age) + "\n  ";
    var r := QuizPromptHead + tail;
    assert r[..|QuizPromptHead|] == QuizPromptHead;
    assert r[|QuizPromptHead|..] == tail;
    r
  }

  lemma LabelledPrefix(tag: string, text: string, user: string)
    requires IsPrefix(TaskLine + (tag + text), user)
    ensures IsPrefix(TaskLine + tag + text, user)
  {
    assert TaskLine + (tag + text) == TaskLine + tag + text;
  }

  /** `generateExercises(lessonContent, options)`: an explanation call with the
      exercise system prompt and the labelled content. */
  function GenerateExercises(lessonContent: Option<string>, options: PromptOptions,
                             reply: AiReply, parse: Parser): (call: AiCall)
    ensures call.request.system == ExerciseSystemPrompt(options)
    ensures IsPrefix(TaskLine + ExerciseTaskLabel + ShowString(lessonContent), call.request.user)
    ensures call.request.user == UserMessage(ExerciseTaskLabel + ShowString(lessonContent), options)
    ensures call.result == Interpret(reply, options.language, parse)
  {
    var content := ExerciseTaskLabel + ShowString(lessonContent);
    var call := ExplainLesson(content, options, Some(ExerciseSystemPrompt(options)), reply, parse);
    LabelledPrefix(ExerciseTaskLabel, ShowString(lessonContent), call.request.user);
    call
  }

  /** `generateQuiz(lessonContent, options)`: an explanation call with the quiz
      system prompt and the labelled content. */
  function GenerateQuiz(lessonContent: Option<string>, options: PromptOptions,
                        reply: AiReply, parse: Parser): (call: AiCall)
    ensures call.request.system == QuizSystemPrompt(options)
    ensures IsPrefix(TaskLine + QuizTaskLabel + ShowString(lessonContent), call.request.user)
    ensures call.request.user == UserMessage(QuizTaskLabel + ShowString(lessonContent), options)
    ensures call.result == Interpret(reply, options.language, parse)
  {
    var content := QuizTaskLabel + ShowString(lessonContent);
    var call := ExplainLesson(content, options, Some(QuizSystemPrompt(options)), reply, parse);
    LabelledPrefix(QuizTaskLabel, ShowString(lessonContent), call.request.user);
    call
  }

  /** A reply whose body is a fenced block around a trimmed JSON text is
      handled exactly as the bare JSON text would be. */
  lemma FencedReplyReadsAsPlain(j: string, tagged: bool, language: Option<string>, parse: Parser)
    requires NoBacktick(j) && IsTrimmed(j)
    ensures var body := OpenFence(tagged) + ("\n" + j + "\n") + Fence;
      Interpret(Reply(true, body), language, parse) == Interpret(Reply(true, j), language, parse)
  {
    var body := OpenFence(tagged) + ("\n" + j + "\n") + Fence;
    CleanUnwrapsFence(j, tagged);
    CleanKeepsPlain(j);
    SameCleanSameReading(body, j, language, parse);
  }

  /** A trimmed text without backticks is left as it is by the cleaning. */
  lemma CleanKeepsPlain(j: string)
    requires NoBacktick(j) && IsTrimmed(j)
    ensures Clean(j) == j
  {
    NoBacktickNoFence(j);
    TrimFixesTrimmed(j);
  }

  /** Two OK replies whose bodies clean to the same text are handled
      alike. */
  lemma SameCleanSameReading(a: string, b: string, language: Option<string>, parse: Parser)
    requires Clean(a) == Clean(b)
    ensures Interpret(Reply(true, a), language, parse) == Interpret(Reply(true, b), language, parse)
  {
  }

  /** `generateEducationalImage(t)` is the URL the rewriting attaches to an
      image whose prompt is `t`. */
  lemma EducationalImageMatchesInjection(t: string)
    ensures WithUrl(JObj(map["prompt" := JStr(t)])).fields["url"] == JStr(GenerateEducationalImage(t))
  {
  }

  /** An image list holding an image whose URL cannot be built makes the
      whole explanation fall back to the apology. */
  lemma ThrowingImageGivesFallback(body: string, language: Option<string>, parse: Parser,
                                    fields: map<string, Json>, items: seq<Json>, i: nat)
    requires parse(Clean(body)) == Some(JObj(fields))
    requires "images" in fields && fields["images"] == JArr(items)
    requires i < |items| && RewriteThrows(items[i])
    ensures Interpret(Reply(true, body), language, parse) == Fallback(language)
  {
    ThrowingImageFailsRewrite(JObj(fields), i);
  }

  lemma ThrowingImageFailsRewrite(data: Json, i: nat)
    requires data.JObj? && "images" in data.fields && data.fields["images"].JArr?
    requires i < |data.fields["images"].items| && RewriteThrows(data.fields["images"].items[i])
    ensures InjectImages(data).None?
  {
    var items := data.fields["images"].items;
    assert ImagesOf(data) == Some(JArr(items));
    assert SomeThrows(items);
  }

  /** A prompt that is an object with its own `toString` property, or an
      array holding one, cannot be converted to text; any other object
      prompt can. */
  lemma OwnToStringPromptThrows(other: map<string, Json>)
    requires "toString" !in other
    ensures var bad := JObj(map["toString" := JStr("x")]);
      && RewriteThrows(JObj(map["prompt" := bad]))
      && RewriteThrows(JObj(map["prompt" := JArr([JStr("a"), bad])]))
      && !RewriteThrows(JObj(map["prompt" := JObj(other)]))
  {
    var bad := JObj(map["toString" := JStr("x")]);
    assert JArr([JStr("a"), bad]).items[1] == bad;
  }

  /** An image carrying the URL of its prompt. */
  predicate HasImageUrl(img: Json) {
    img.JObj? && "url" in img.fields && img.fields["url"].JStr?
    && IsPrefix(ImageEndpoint, img.fields["url"].s)
  }

  /** Every image list a successful rewriting leaves holds images with URLs:
      either the list was rewritten, or the value was left alone because its
      `images` was falsy, hence no list. */
  lemma InjectedImagesCarryUrls(data: Json)
    requires InjectImages(data).Some?
    ensures var r := InjectImages(data).value;
      r.JObj? && "images" in r.fields && r.fields["images"].JArr? ==>
        forall i :: 0 <= i < |r.fields["images"].items| ==> HasImageUrl(r.fields["images"].items[i])
  {
    var r := InjectImages(data).value;
    if Truthy(ImagesOf(data)) {
      assert ImagesOf(data).value.JArr?;
      var items := ImagesOf(data).value.items;
      forall i | 0 <= i < |items|
        ensures HasImageUrl(r.fields["images"].items[i])
      {
        assert r.fields["images"].items[i] == WithUrl(items[i]);
      }
    } else {
      assert r == data;
      assert data.JObj? && "images" in data.fields ==> ImagesOf(data) == Some(data.fields["images"]);
    }
  }

  /** Every image list the explanation returns holds images that carry the
      URL of their prompt. */
  lemma ExplainedImagesCarryUrls(reply: AiReply, language: Option<string>, parse: Parser)
    ensures var r := Interpret(reply, language, parse);
      r.JObj? && "images" in r.fields && r.fields["images"].JArr? ==>
        forall i :: 0 <= i < |r.fields["images"].items| ==> HasImageUrl(r.fields["images"].items[i])
  {
    if reply.Reply? && reply.ok && parse(Clean(reply.body)).Some? {
      var data := parse(Clean(reply.body)).value;
      if InjectImages(data).Some? {
        InjectedImagesCarryUrls(data);
      }
    }
  }
}
