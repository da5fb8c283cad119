/** The helpers the Reddit handlers share: the image test, the temporary file
    name, the S3 object key, the Rekognition joins and the reading of the
    generation result, plus the external services as deterministic functions
    whose calls are recorded in a trace. */
module Cloud {
  import opened Common
  import opened PyStr
  import opened PyJson

  const BucketName := "sagemaker-us-east-1-513033806411"
  const BlipEndpoint := "huggingface-pytorch-inference-2024-03-08-16-01-37-935"
  const LlmEndpoint := "huggingface-pytorch-tgi-inference-2024-03-08-17-46-49-268"
  /** The text prompt sent with every image to the captioning endpoint. */
  const CaptionText := "An image of "
  const TmpDir := "/tmp"
  const TmpFilePrefix := "image_"
  const KeyPrefix := "reddit/funny/inference/posts/"
  const GeneratedTextKey := "generated_text"
  const NoResponse := "No response generated"

  /** A Reddit submission as the handlers read it. */
  datatype Submission = Submission(id: string, title: string, selftext: string, url: string)

  /** The generation parameters; `top_p` and `temperature` are kept in tenths
      (0.9 is 9) and are never computed with. `stop` is `None` when the key is absent. */
  datatype GenParams = GenParams(maxNewTokens: nat, topPTenths: nat, temperatureTenths: nat, stop: Option<seq<string>>)

  /** One call to an external service, with the arguments that identify it. */
  datatype Call =
    | FetchSubmission(postId: string)
    | Download(url: string, path: string)
    | Upload(path: string, bucket: string, key: string)
    | Caption(endpoint: string, imageUrl: string, text: string)
    | RecognizeCelebrities(bucket: string, key: string)
    | DetectText(bucket: string, key: string)
    | Generate(endpoint: string, prompt: string, params: GenParams)
    | Reply(submissionId: string, comment: seq<int>)

  /** The external services. Each is a fixed function of its arguments; an `Err`
      is the exception the call raises (a failed request, a missing response key,
      a body that is not UTF-8). */
  datatype Services = Services(
    submission: string -> Result<Submission, Exception>,
    download: (string, string) -> Result<(), Exception>,
    upload: (string, string, string) -> Result<(), Exception>,
    caption: (string, string, string) -> Result<string, Exception>,
    celebrities: (string, string) -> Result<seq<string>, Exception>,
    texts: (string, string) -> Result<seq<string>, Exception>,
    generate: (string, string, GenParams) -> Result<JsonValue, Exception>,
    reply: (string, seq<int>) -> Result<(), Exception>)

  /** The calls a piece of work made, and how it ended. */
  datatype Step<T> = Step(calls: seq<Call>, result: Result<T, Exception>)

  /** The three fields of the image context. */
  datatype ImageInfo = ImageInfo(caption: string, celebrities: string, texts: string)

  // ---------------------------------------------------------------------------
  // Pure helpers

  /** `url.endswith(('.jpg', '.png', '.jpeg'))`; the test is case-sensitive. */
  predicate IsImageUrl(url: string)
    ensures IsImageUrl(url) ==> |url| >= 4 && (url[|url| - 4] == '.' || (|url| >= 5 && url[|url| - 5] == '.'))
  {
    EndsWith(url, ".jpg") || EndsWith(url, ".png") || EndsWith(url, ".jpeg")
  }

  /** `f"/tmp/image_{image_id}{image_url.split('.')[1]}"`: the second `.`-separated
      field of the URL, not its extension; an IndexError when the URL has no `.`. */
  function TempFilename(id: string, url: string): (r: Result<string, Exception>)
    ensures r.Ok? <==> '.' in url
    ensures r.Err? ==> r.error == IndexError(ListIndexOutOfRange)
  {
    var fields := Split(url, '.');
    CountIn(url, '.');
    if |fields| >= 2 then Ok(TmpDir + "/" + TmpFilePrefix + id + fields[1])
    else Err(IndexError(ListIndexOutOfRange))
  }

  /** `f"reddit/funny/inference/posts/{os.path.basename(image_path)}"`. */
  function ObjectKey(path: string): (k: string)
    ensures |k| >= |KeyPrefix| && k[..|KeyPrefix|] == KeyPrefix
    ensures '/' !in k[|KeyPrefix|..] && EndsWith(path, k[|KeyPrefix|..])
  {
    var name := Basename(path);
    assert (KeyPrefix + name)[|KeyPrefix|..] == name;
    KeyPrefix + name
  }

  /** The two joins of `get_celebrity_text`: names with `", "`, detected texts with `" "`. */
  function JoinRecognition(names: seq<string>, texts: seq<string>): (r: (string, string))
    ensures names == [] ==> r.0 == ""
    ensures texts == [] ==> r.1 == ""
    ensures |names| == 1 ==> r.0 == names[0]
    ensures |texts| == 1 ==> r.1 == texts[0]
  {
    (Join(", ", names), Join(" ", texts))
  }

  /** `result[0].get("generated_text", "No response generated")` on the parsed
      endpoint response. */
  function SelectGenerated(v: JsonValue): (r: Result<JsonValue, Exception>)
    ensures r.Ok? <==> v.JArray? && |v.items| > 0 && v.items[0].JObject?
    ensures r.Ok? ==> r.value == (if GeneratedTextKey in v.items[0].fields then v.items[0].fields[GeneratedTextKey] else JString(NoResponse))
    ensures v.JArray? && |v.items| == 0 ==> r == Err(IndexError(ListIndexOutOfRange))
    ensures v.JObject? ==> r == Err(KeyError("0"))
  {
    match v
    case JArray(items) =>
      if |items| == 0 then Err(IndexError(ListIndexOutOfRange))
      else Get(items[0], GeneratedTextKey, JString(NoResponse))
    case JObject(_) => Err(KeyError("0"))
    case JString(s) =>
      if s == "" then Err(IndexError("string index out of range"))
      else Get(JString([s[0]]), GeneratedTextKey, JString(NoResponse))
    case _ => Err(TypeError("'" + TypeName(v) + "' object is not subscriptable"))
  }

  /** The generated comment as a string. */
  function GeneratedText(v: JsonValue): (r: Result<string, Exception>)
    ensures r.Ok? <==> v.JString?
  {
    if v.JString? then Ok(v.s) else Err(TypeError("generated text is not a string"))
  }

  // ---------------------------------------------------------------------------
  // Service-calling helpers

  /** `download_image` followed by `upload_image_to_s3`, `generate_image_caption`
      and `get_celebrity_text`, stopping at the first exception. */
  function Enrich(svc: Services, sub: Submission): (r: Step<ImageInfo>)
    ensures r.calls == [] <==> '.' !in sub.url
    ensures r.calls != [] ==> r.calls[0] == Download(sub.url, TempFilename(sub.id, sub.url).value)
    ensures |r.calls| <= 5 && (r.result.Ok? ==> |r.calls| == 5)
  {
    match TempFilename(sub.id, sub.url)
    case Err(e) => Step([], Err(e))
    case Ok(path) =>
      var key := ObjectKey(path);
      var d := [Download(sub.url, path)];
      match svc.download(sub.url, path)
      case Err(e) => Step(d, Err(e))
      case Ok(_) =>
        var u := d + [Upload(path, BucketName, key)];
        match svc.upload(path, BucketName, key)
        case Err(e) => Step(u, Err(e))
        case Ok(_) =>
          var c := u + [Caption(BlipEndpoint, sub.url, CaptionText)];
          match svc.caption(BlipEndpoint, sub.url, CaptionText)
          case Err(e) => Step(c, Err(e))
          case Ok(caption) =>
            var rc := c + [RecognizeCelebrities(BucketName, key)];
            match svc.celebrities(BucketName, key)
            case Err(e) => Step(rc, Err(e))
            case Ok(names) =>
              var rt := rc + [DetectText(BucketName, key)];
              match svc.texts(BucketName, key)
              case Err(e) => Step(rt, Err(e))
              case Ok(texts) =>
                var j := JoinRecognition(names, texts);
                Step(rt, Ok(ImageInfo(caption, j.0, j.1)))
  }

  /** The full call sequence of a successful enrichment of `sub`. */
  function EnrichCalls(sub: Submission, path: string): seq<Call>
  {
    var key := ObjectKey(path);
    [Download(sub.url, path), Upload(path, BucketName, key), Caption(BlipEndpoint, sub.url, CaptionText),
     RecognizeCelebrities(BucketName, key), DetectText(BucketName, key)]
  }

  /** `get_llama_response(endpoint, prompt, params)` of the two deployed handlers. */
  function LlamaResponse(svc: Services, endpoint: string, prompt: string, params: GenParams): (s: Step<string>)
    ensures s.calls == [Generate(endpoint, prompt, params)]
  {
    var g := [Generate(endpoint, prompt, params)];
    match svc.generate(endpoint, prompt, params)
    case Err(e) => Step(g, Err(e))
    case Ok(v) =>
      match SelectGenerated(v)
      case Err(e) => Step(g, Err(e))
      case Ok(t) => Step(g, GeneratedText(t))
  }

  // ---------------------------------------------------------------------------
  // Lemmas

  lemma {:induction false} CountIn(s: string, c: char)
    ensures Count(s, c) > 0 <==> c in s
    decreases |s|
  {
    if s != [] {
      CountIn(s[1..], c);
      assert s == [s[0]] + s[1..];
    }
  }

  /** The image test is a plain suffix test: upper-case extensions are not images. */
  lemma ImageUrlIsCaseSensitive(name: string)
    ensures IsImageUrl(name + ".jpg") && IsImageUrl(name + ".jpeg") && IsImageUrl(name + ".png")
    ensures !IsImageUrl(name + ".JPG") && !IsImageUrl(name + ".gif")
  {
    var n := |name|;
    assert (name + ".jpg")[n..] == ".jpg";
    assert (name + ".jpeg")[n..] == ".jpeg";
    assert (name + ".png")[n..] == ".png";
    assert (name + ".JPG")[n + 3] == 'G';
    assert (name + ".gif")[n + 3] == 'f';
  }

  /** An image URL always has a temporary file name. */
  lemma ImageUrlHasFilename(id: string, url: string)
    requires IsImageUrl(url)
    ensures TempFilename(id, url).Ok?
  {
    var n := |url|;
    if EndsWith(url, ".jpeg") {
      assert url[n - 5] == ".jpeg"[0];
    } else {
      assert url[n - 4] == '.';
    }
  }

  /** Splitting at the first separator: the first field, then the fields of the rest. */
  lemma SplitAtFirst(s: string, sep: char)
    requires sep in s
    ensures var f0 := Split(s, sep)[0];
      |f0| < |s| && s == f0 + [sep] + s[|f0| + 1..] && sep !in f0
      && Split(s, sep) == [f0] + Split(s[|f0| + 1..], sep)
  {
    var f0 := Split(s, sep)[0];
    FirstFieldIsPrefix(s, sep);
    var rest := s[|f0| + 1..];
    assert s == f0 + [sep] + rest;
    SplitConcat(f0, sep, rest);
    SplitWithoutSeparator(f0, sep);
  }

  /** The file name ends with the text between the first and the second `.` of the
      URL (or between the first `.` and the end when there is only one). */
  lemma TempFilenameField(id: string, url: string)
    requires '.' in url
    ensures var f0 := Split(url, '.')[0];
      |f0| < |url| && '.' !in f0 &&
      var rest := url[|f0| + 1..];
      var f1 := Split(rest, '.')[0];
      url == f0 + "." + rest
      && TempFilename(id, url) == Ok(TmpDir + "/" + TmpFilePrefix + id + f1)
      && |f1| <= |rest| && rest[..|f1|] == f1 && (|f1| < |rest| ==> rest[|f1|] == '.') && '.' !in f1
  {
    var f0 := Split(url, '.')[0];
    SplitAtFirst(url, '.');
    var rest := url[|f0| + 1..];
    FirstFieldIsPrefix(rest, '.');
  }

  /** With a `/`-free id and field, the object key is the temporary file's own name. */
  lemma ObjectKeyOfTempFile(id: string, field: string)
    requires '/' !in id && '/' !in field
    ensures ObjectKey(TmpDir + "/" + TmpFilePrefix + id + field) == KeyPrefix + TmpFilePrefix + id + field
  {
    var name := TmpFilePrefix + id + field;
    assert '/' !in name by {
      assert forall i :: 0 <= i < |TmpFilePrefix| ==> TmpFilePrefix[i] != '/';
      assert forall i :: 0 <= i < |name| ==> name[i] == (if i < |TmpFilePrefix| then TmpFilePrefix[i] else if i < |TmpFilePrefix| + |id| then id[i - |TmpFilePrefix|] else field[i - |TmpFilePrefix| - |id|]);
    }
    BasenameAfterSlash(TmpDir, name);
    assert TmpDir + "/" + TmpFilePrefix + id + field == TmpDir + ['/'] + name;
  }

  lemma BasenameAfterSlash(dir: string, name: string)
    requires '/' !in name
    ensures Basename(dir + ['/'] + name) == name
  {
    SplitConcat(dir, '/', name);
    SplitWithoutSeparator(name, '/');
  }

  /** The detected texts can be read back by splitting on spaces when none holds a space. */
  lemma DetectedTextsRoundTrip(names: seq<string>, texts: seq<string>)
    requires |texts| >= 1 && forall i :: 0 <= i < |texts| ==> ' ' !in texts[i]
    ensures Split(JoinRecognition(names, texts).1, ' ') == texts
  {
    SplitJoin(texts, ' ');
  }

  /** Each join keeps the order of its inputs: more names or texts only extend it. */
  lemma JoinRecognitionOrder(names: seq<string>, more: seq<string>, texts: seq<string>, moreTexts: seq<string>)
    requires |names| > 0 && |more| > 0 && |texts| > 0 && |moreTexts| > 0
    ensures JoinRecognition(names + more, texts + moreTexts).0 == JoinRecognition(names, texts).0 + ", " + JoinRecognition(more, moreTexts).0
    ensures JoinRecognition(names + more, texts + moreTexts).1 == JoinRecognition(names, texts).1 + " " + JoinRecognition(more, moreTexts).1
  {
    JoinAppend(", ", names, more);
    JoinAppend(" ", texts, moreTexts);
  }

  /** Enrichment calls the services in a fixed order and stops at the first
      failure; Rekognition reads the very object that was uploaded. */
  lemma EnrichTrace(svc: Services, sub: Submission)
    ensures var s := Enrich(svc, sub);
      match TempFilename(sub.id, sub.url)
      case Err(e) => s == Step([], Err(e))
      case Ok(path) =>
        var all := EnrichCalls(sub, path);
        (s.result.Ok? ==> s.calls == all) && (s.result.Err? ==> 1 <= |s.calls| <= 5 && s.calls == all[..|s.calls|])
  {
  }

  /** A successful enrichment joins what Rekognition returned for the uploaded key. */
  lemma EnrichResult(svc: Services, sub: Submission)
    requires Enrich(svc, sub).result.Ok?
    ensures var path := TempFilename(sub.id, sub.url).value;
      var key := ObjectKey(path);
      svc.caption(BlipEndpoint, sub.url, CaptionText).Ok?
      && svc.celebrities(BucketName, key).Ok? && svc.texts(BucketName, key).Ok?
      && Enrich(svc, sub).result.value == ImageInfo(svc.caption(BlipEndpoint, sub.url, CaptionText).value,
           Join(", ", svc.celebrities(BucketName, key).value), Join(" ", svc.texts(BucketName, key).value))
  {
  }

  /** The generated text is the first element's `generated_text`, or the default
      when that key is absent. */
  lemma LlamaResponseText(svc: Services, endpoint: string, prompt: string, params: GenParams, fields: map<string, JsonValue>, rest: seq<JsonValue>)
    requires svc.generate(endpoint, prompt, params) == Ok(JArray([JObject(fields)] + rest))
    ensures GeneratedTextKey !in fields ==> LlamaResponse(svc, endpoint, prompt, params).result == Ok(NoResponse)
    ensures GeneratedTextKey in fields && fields[GeneratedTextKey].JString?
            ==> LlamaResponse(svc, endpoint, prompt, params).result == Ok(fields[GeneratedTextKey].s)
  {
  }
}
