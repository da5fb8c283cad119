/** The request handler of the first deployment: given a Reddit post URL in the
    request body, it generates a comment for that post and answers with an HTTP
    status that says how it went. */
module RequestHandler {
  import opened Common
  import opened PyStr
  import opened PyJson
  import opened Prompt
  import opened Cloud

  /** `max_new_tokens` 64, `top_p` 0.9, `temperature` 0.6, `stop` `["</s>"]`. */
  const LlamaParams := GenParams(64, 9, 6, Some(["</s>"]))
  const PostUrlKey := "post_url"
  const JsonHeaders := map["Content-Type" := "application/json"]

  /** The `body` entry of the event: absent (read as `'{}'`), or present, with what
      `json.loads` makes of it: a value, or the exception it raises. */
  datatype EventBody = NoBody | Body(parsed: Result<JsonValue, Exception>)

  /** The dictionary the handler returns. The success answer has no headers. */
  datatype HttpResponse = HttpResponse(statusCode: int, headers: map<string, string>, body: string)

  /** `json.loads(event.get('body', '{}'))` */
  function LoadBody(b: EventBody): (r: Result<JsonValue, Exception>)
    ensures b.NoBody? ==> r == Ok(JObject(map[]))
  {
    match b
    case NoBody => Ok(JObject(map[]))
    case Body(p) => p
  }

  /** `post_url.split('/')[-3]`: the third `/`-separated field from the end. */
  function PostIdFromUrl(url: string): (r: Result<string, Exception>)
    ensures r.Ok? <==> Count(url, '/') >= 2
    ensures r.Ok? ==> '/' !in r.value && IsSubstring(r.value, url)
    ensures r.Err? ==> r.error == IndexError(ListIndexOutOfRange)
  {
    var fields := Split(url, '/');
    match PyIndex(fields, -3)
    case None => Err(IndexError(ListIndexOutOfRange))
    case Some(id) =>
      FieldIsSubstring(url, '/', |fields| - 3);
      Ok(id)
  }

  /** `body['post_url']`, which must be a string for `split` to exist. */
  function PostUrl(body: JsonValue): (r: Result<string, Exception>)
    ensures r.Ok? <==> body.JObject? && PostUrlKey in body.fields && body.fields[PostUrlKey].JString?
    ensures body.JObject? && PostUrlKey !in body.fields ==> r == Err(MissingKey(PostUrlKey))
  {
    match Subscript(body, PostUrlKey)
    case Err(e) => Err(e)
    case Ok(v) =>
      if v.JString? then Ok(v.s)
      else Err(AttributeError("'" + TypeName(v) + "' object has no attribute 'split'"))
  }

  /** The image context of the post: from the image for an image URL, three empty
      fields otherwise. */
  function ImageContext(svc: Services, sub: Submission): (s: Step<ImageInfo>)
    ensures !IsImageUrl(sub.url) ==> s == Step([], Ok(ImageInfo("", "", "")))
    ensures IsImageUrl(sub.url) ==> s.calls != [] && s.calls[0] == Download(sub.url, TempFilename(sub.id, sub.url).value)
    ensures |s.calls| <= 5
  {
    if IsImageUrl(sub.url) then Enrich(svc, sub) else Step([], Ok(ImageInfo("", "", "")))
  }

  /** Everything inside the handler's `try`, up to the generated text. */
  function Attempt(client: Result<(), Exception>, body: EventBody, svc: Services): (s: Step<string>)
    ensures client.Err? ==> s == Step([], Err(client.error))
    ensures s.calls != [] ==> s.calls[0].FetchSubmission?
    ensures s.result.Ok? ==> |s.calls| >= 2 && Last(s.calls).Generate? && Last(s.calls).params == LlamaParams
  {
    if client.Err? then Step([], Err(client.error))
    else
      match LoadBody(body)
      case Err(e) => Step([], Err(e))
      case Ok(v) =>
        match PostUrl(v)
        case Err(e) => Step([], Err(e))
        case Ok(url) =>
          match PostIdFromUrl(url)
          case Err(e) => Step([], Err(e))
          case Ok(postId) =>
            var f := [FetchSubmission(postId)];
            match svc.submission(postId)
            case Err(e) => Step(f, Err(e))
            case Ok(sub) =>
              var c := Comment(svc, sub);
              assert (f + c.calls)[0] == f[0] && Last(f + c.calls) == Last(c.calls);
              Step(f + c.calls, c.result)
  }

  /** The rest of the `try` once the submission is fetched: its image context, the
      prompt, and the generation. */
  function Comment(svc: Services, sub: Submission): (s: Step<string>)
    ensures s.calls != []
    ensures s.result.Ok? ==> Last(s.calls).Generate? && Last(s.calls).params == LlamaParams
  {
    var img := ImageContext(svc, sub);
    match img.result
    case Err(e) => Step(img.calls, Err(e))
    case Ok(info) =>
      var prompt := AssemblePrompt(sub.title, sub.selftext, info.caption, info.celebrities, info.texts);
      var g := LlamaResponse(svc, LlmEndpoint, prompt, LlamaParams);
      Step(img.calls + g.calls, g.result)
  }

  /** The two `except` clauses: a KeyError is a client error, anything else a server error. */
  function ErrorResponse(e: Exception): (r: HttpResponse)
    ensures r.statusCode == (if e.KeyError? then 400 else 500)
    ensures r.headers == JsonHeaders && r.body == DumpsErrorObject(Str(e))
  {
    HttpResponse(if e.KeyError? then 400 else 500, JsonHeaders, DumpsErrorObject(Str(e)))
  }

  /** `lambda_handler(event, context)`: the calls made and the answer. */
  function LambdaHandler(client: Result<(), Exception>, body: EventBody, svc: Services): (r: (seq<Call>, HttpResponse))
    ensures var a := Attempt(client, body, svc).result;
      && r.0 == Attempt(client, body, svc).calls
      && (r.1.statusCode == 200 <==> a.Ok?)
      && (r.1.statusCode == 400 <==> a.Err? && a.error.KeyError?)
      && (r.1.statusCode == 200 || r.1.statusCode == 400 || r.1.statusCode == 500)
  {
    var a := Attempt(client, body, svc);
    match a.result
    case Ok(text) => (a.calls, HttpResponse(200, map[], Dumps(text)))
    case Err(e) => (a.calls, ErrorResponse(e))
  }

  // ---------------------------------------------------------------------------
  // Lemmas

  lemma {:induction false} FieldIsSubstring(s: string, sep: char, i: int)
    requires 0 <= i < |Split(s, sep)|
    ensures IsSubstring(Split(s, sep)[i], s)
    decreases |s|
  {
    var parts := Split(s, sep);
    if s == [] {
    } else if s[0] == sep {
      if i > 0 {
        assert parts[i] == Split(s[1..], sep)[i - 1];
        FieldIsSubstring(s[1..], sep, i - 1);
      }
    } else {
      var rest := Split(s[1..], sep);
      if i == 0 {
        var f := parts[0];
        FirstFieldIsPrefix(s, sep);
        assert s[..|f|] == f;
      } else {
        assert parts[i] == rest[i];
        FieldIsSubstring(s[1..], sep, i);
      }
    }
  }

  /** The status code says how the attempt ended: 200 with the JSON-quoted text,
      400 for any KeyError, 500 for every other exception. */
  lemma StatusMapping(client: Result<(), Exception>, body: EventBody, svc: Services)
    ensures var a := Attempt(client, body, svc);
      var r := LambdaHandler(client, body, svc).1;
      (r.statusCode == 200 <==> a.result.Ok?)
      && (r.statusCode == 400 <==> a.result.Err? && a.result.error.KeyError?)
      && (r.statusCode == 500 <==> a.result.Err? && !a.result.error.KeyError?)
      && (a.result.Ok? ==> r.body == Dumps(a.result.value) && r.headers == map[])
      && (a.result.Err? ==> r.body == DumpsErrorObject(Str(a.result.error)) && r.headers == JsonHeaders)
  {
  }

  /** A request without `post_url` (or without a body at all) is answered 400 with
      `{"error": "'post_url'"}` before any call to Reddit. */
  lemma MissingPostUrl(body: EventBody, fields: map<string, JsonValue>, svc: Services)
    requires body == NoBody || body == Body(Ok(JObject(fields)))
    requires PostUrlKey !in fields
    ensures Attempt(Ok(()), body, svc) == Step([], Err(MissingKey(PostUrlKey)))
    ensures LambdaHandler(Ok(()), body, svc) == ([], HttpResponse(400, JsonHeaders, "{\"error\": \"'post_url'\"}"))
  {
    assert Attempt(Ok(()), body, svc) == Step([], Err(MissingKey(PostUrlKey)));
    assert LambdaHandler(Ok(()), body, svc) == ([], ErrorResponse(MissingKey(PostUrlKey)));
    MissingPostUrlResponse();
  }

  lemma MissingPostUrlResponse()
    ensures ErrorResponse(MissingKey(PostUrlKey)) == HttpResponse(400, JsonHeaders, "{\"error\": \"'post_url'\"}")
  {
    assert IsPlain("post_url");
    MissingKeyResponse(PostUrlKey);
    assert "{\"error\": \"'" + "post_url" + "'\"}" == "{\"error\": \"'post_url'\"}";
  }

  /** The answer to a missing key is 400 with the key quoted twice, by `str` and by JSON. */
  lemma MissingKeyResponse(k: string)
    requires IsPlain(k)
    ensures ErrorResponse(MissingKey(k)) == HttpResponse(400, JsonHeaders, "{\"error\": \"'" + k + "'\"}")
  {
    var q := "'" + k + "'";
    assert IsPlain(q) by {
      assert forall i :: 0 < i < |q| - 1 ==> q[i] == k[i - 1];
    }
    DumpsPlain(q);
    calc {
      DumpsErrorObject(q);
      "{\"error\": " + ("\"" + q + "\"") + "}";
      "{\"error\": \"'" + k + "'\"}";
    }
  }

  /** A URL with fewer than two `/` raises IndexError, which is not a KeyError: 500. */
  lemma ShortUrl(url: string, svc: Services)
    requires Count(url, '/') < 2
    ensures Attempt(Ok(()), Body(Ok(JObject(map[PostUrlKey := JString(url)]))), svc) == Step([], Err(IndexError(ListIndexOutOfRange)))
    ensures LambdaHandler(Ok(()), Body(Ok(JObject(map[PostUrlKey := JString(url)]))), svc).1.statusCode == 500
  {
    var v := JObject(map[PostUrlKey := JString(url)]);
    assert PostUrl(v) == Ok(url);
    assert PostIdFromUrl(url) == Err(IndexError(ListIndexOutOfRange));
  }

  /** A generation endpoint that answers with a JSON object makes `result[0]` a
      KeyError, so that server-side failure is answered as a client error, 400. */
  lemma ObjectResultIsClientError(body: EventBody, svc: Services, url: string, postId: string, sub: Submission, fields: map<string, JsonValue>)
    requires LoadBody(body) == Ok(JObject(map[PostUrlKey := JString(url)]))
    requires PostIdFromUrl(url) == Ok(postId)
    requires svc.submission(postId) == Ok(sub) && !IsImageUrl(sub.url)
    requires svc.generate(LlmEndpoint, AssemblePrompt(sub.title, sub.selftext, "", "", ""), LlamaParams) == Ok(JObject(fields))
    ensures LambdaHandler(Ok(()), body, svc).1 == HttpResponse(400, JsonHeaders, DumpsErrorObject("0"))
  {
    var prompt := AssemblePrompt(sub.title, sub.selftext, "", "", "");
    assert ImageContext(svc, sub) == Step([], Ok(ImageInfo("", "", "")));
    assert LlamaResponse(svc, LlmEndpoint, prompt, LlamaParams).result == Err(KeyError("0"));
    assert Attempt(Ok(()), body, svc).result == Err(KeyError("0"));
  }

  /** A post whose URL is not an image is answered from its text alone: one call to
      fetch it, one generation call with the empty image context, nothing else. */
  lemma NonImagePost(body: EventBody, svc: Services, url: string, postId: string, sub: Submission)
    requires LoadBody(body) == Ok(JObject(map[PostUrlKey := JString(url)]))
    requires PostIdFromUrl(url) == Ok(postId)
    requires svc.submission(postId) == Ok(sub) && !IsImageUrl(sub.url)
    ensures var prompt := InitializePrompt(sub.title, sub.selftext) + "- Description:\n-Text:\n-Celebrities:\n\n" + ResponseMarker;
      Attempt(Ok(()), body, svc).calls == [FetchSubmission(postId), Generate(LlmEndpoint, prompt, LlamaParams)]
  {
    EmptyImageContext();
    var prompt := AssemblePrompt(sub.title, sub.selftext, "", "", "");
    assert ImageContext(svc, sub) == Step([], Ok(ImageInfo("", "", "")));
  }

  /** An image post is fetched, enriched, and answered with exactly one generation
      call with the fixed parameters and the prompt built from the post and the image. */
  lemma ImagePostCalls(body: EventBody, svc: Services, url: string, postId: string, sub: Submission)
    requires LoadBody(body) == Ok(JObject(map[PostUrlKey := JString(url)]))
    requires PostIdFromUrl(url) == Ok(postId)
    requires svc.submission(postId) == Ok(sub) && IsImageUrl(sub.url)
    requires Enrich(svc, sub).result.Ok?
    ensures var info := Enrich(svc, sub).result.value;
      var prompt := AssemblePrompt(sub.title, sub.selftext, info.caption, info.celebrities, info.texts);
      Attempt(Ok(()), body, svc).calls
        == [FetchSubmission(postId)] + EnrichCalls(sub, TempFilename(sub.id, sub.url).value) + [Generate(LlmEndpoint, prompt, LlamaParams)]
  {
    EnrichTrace(svc, sub);
  }

  /** A post URL with a trailing slash yields the id; so does one of the form
      `.../comments/<id>/<slug>/`. Without the trailing slash the field two before
      the slug is taken instead, which is `comments` for a Reddit URL. */
  lemma PostIdOfRedditUrl(base: string, seg: string, id: string, slug: string)
    requires '/' !in seg && '/' !in id && '/' !in slug
    ensures PostIdFromUrl(base + "/" + id + "/" + slug + "/") == Ok(id)
    ensures PostIdFromUrl(base + "/" + seg + "/" + id + "/" + slug) == Ok(seg)
  {
    LastThreeFields(base, id, slug, "");
    assert base + "/" + id + "/" + slug + "/" == base + "/" + id + "/" + slug + "/" + "";
    LastThreeFields(base, seg, id, slug);
  }

  /** The fields of `base/x/y/z` end with `x`, `y`, `z`, so `x` is the third from the end. */
  lemma LastThreeFields(base: string, x: string, y: string, z: string)
    requires '/' !in x && '/' !in y && '/' !in z
    ensures PostIdFromUrl(base + "/" + x + "/" + y + "/" + z) == Ok(x)
  {
    var t := x + ['/'] + (y + ['/'] + z);
    calc {
      base + "/" + x + "/" + y + "/" + z;
      base + "/" + x + "/" + (y + ['/'] + z);
      base + "/" + t;
      base + ['/'] + t;
    }
    SplitConcat(base, '/', t);
    SplitConcat(x, '/', y + ['/'] + z);
    SplitConcat(y, '/', z);
    SplitWithoutSeparator(x, '/');
    SplitWithoutSeparator(y, '/');
    SplitWithoutSeparator(z, '/');
    var fields := Split(base, '/') + [x, y, z];
    assert Split(base + "/" + x + "/" + y + "/" + z, '/') == fields;
    assert fields[|fields| - 3] == x;
  }

  /** A URL of exactly three fields, `x/y/z`, yields its first field. */
  lemma ThreeFieldUrl(x: string, y: string, z: string)
    requires '/' !in x && '/' !in y && '/' !in z
    ensures PostIdFromUrl(x + "/" + y + "/" + z) == Ok(x)
  {
    assert x + "/" + y + "/" + z == x + ['/'] + (y + ['/'] + z);
    SplitConcat(x, '/', y + ['/'] + z);
    SplitConcat(y, '/', z);
    SplitWithoutSeparator(x, '/');
    SplitWithoutSeparator(y, '/');
    SplitWithoutSeparator(z, '/');
    assert Split(x + "/" + y + "/" + z, '/') == [x, y, z];
  }
}
