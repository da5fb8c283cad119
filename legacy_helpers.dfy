/** The helpers of the earlier request handler: a temporary file named after the
    URL's last four characters, captioning from the uploaded S3 object, and
    generation, each with its own fallback text. The module-level `s3` client
    these helpers use is never bound there. */
module LegacyHelpers {
  import opened Common
  import opened PyStr
  import opened PyJson
  import opened Cloud

  /** `max_new_tokens` 64, `top_p` 0.9, `temperature` 0.6, and no `stop` key. */
  const LlamaParams := GenParams(64, 9, 6, None)
  const CaptionKey := "caption"
  const CaptionFallback := "Error generating caption"
  const ResponseFallback := "Error generating response"
  /** What Python says when the name `s3` is looked up but was never bound. */
  const S3Unbound := "name 's3' is not defined"

  /** The S3 client, if the name `s3` were bound. */
  datatype S3Client = S3Client(
    getObject: (string, string) -> Result<seq<Byte>, Exception>,
    uploadFile: (string, string, string) -> Result<(), Exception>)

  /** The SageMaker runtime: the captioning endpoint fed raw image bytes, and the
      generation endpoint. Each answers with the parsed response body. */
  datatype Runtime = Runtime(
    captionImage: (string, seq<Byte>) -> Result<JsonValue, Exception>,
    generate: (string, string, GenParams) -> Result<JsonValue, Exception>)

  /** Calls made by these helpers. */
  datatype LegacyCall =
    | Retrieve(url: string, path: string)
    | UploadFile(path: string, bucket: string, key: string)
    | GetObject(bucket: string, key: string)
    | CaptionImage(endpoint: string, image: seq<Byte>)
    | InvokeLlama(endpoint: string, prompt: string, params: GenParams)

  /** `f"/tmp/image_{image_id}{image_url[-4:]}"` */
  function TempFilename(id: string, url: string): (r: string)
    ensures |r| == |TmpDir + "/" + TmpFilePrefix + id| + |TakeLast(url, 4)|
    ensures r[..|TmpDir + "/" + TmpFilePrefix + id|] == TmpDir + "/" + TmpFilePrefix + id
    ensures EndsWith(r, TakeLast(url, 4))
  {
    var p := TmpDir + "/" + TmpFilePrefix + id;
    var t := TakeLast(url, 4);
    assert (p + t)[|p + t| - |t|..] == t;
    p + t
  }

  /** `download_image(image_id, image_url)`: the URL is fetched into the temporary file. */
  function DownloadImage(retrieve: (string, string) -> Result<(), Exception>, id: string, url: string): (r: (seq<LegacyCall>, Result<string, Exception>))
    ensures r.0 == [Retrieve(url, TempFilename(id, url))]
    ensures r.1.Ok? <==> retrieve(url, TempFilename(id, url)).Ok?
    ensures r.1.Ok? ==> r.1.value == TempFilename(id, url)
  {
    var path := TempFilename(id, url);
    match retrieve(url, path)
    case Err(e) => ([Retrieve(url, path)], Err(e))
    case Ok(_) => ([Retrieve(url, path)], Ok(path))
  }

  /** `upload_image_to_s3(bucket_name, image_path)`: the key is built, then the
      upload goes through `s3`, which raises NameError when unbound. */
  function UploadImage(s3: Option<S3Client>, bucket: string, path: string): (r: (seq<LegacyCall>, Result<string, Exception>))
    ensures s3.None? ==> r == ([], Err(NameError(S3Unbound)))
    ensures r.1.Ok? ==> r.1.value == ObjectKey(path) && r.0 == [UploadFile(path, bucket, ObjectKey(path))]
  {
    var key := ObjectKey(path);
    match s3
    case None => ([], Err(NameError(S3Unbound)))
    case Some(client) =>
      var calls := [UploadFile(path, bucket, key)];
      match client.uploadFile(path, bucket, key)
      case Err(e) => (calls, Err(e))
      case Ok(_) => (calls, Ok(key))
  }

  /** `generate_caption_from_s3(bucket_name, object_key, endpoint_name)`: the
      `caption` entry of the endpoint's answer, or the fallback text when any step
      raises. */
  function CaptionFromS3(s3: Option<S3Client>, runtime: Runtime, bucket: string, key: string, endpoint: string): (r: (seq<LegacyCall>, JsonValue))
    ensures s3.None? ==> r == ([], JString(CaptionFallback))
  {
    match s3
    case None => ([], JString(CaptionFallback))
    case Some(client) =>
      var g := [GetObject(bucket, key)];
      match client.getObject(bucket, key)
      case Err(_) => (g, JString(CaptionFallback))
      case Ok(image) =>
        var calls := g + [CaptionImage(endpoint, image)];
        match runtime.captionImage(endpoint, image)
        case Err(_) => (calls, JString(CaptionFallback))
        case Ok(result) =>
          match Subscript(result, CaptionKey)
          case Err(_) => (calls, JString(CaptionFallback))
          case Ok(caption) => (calls, caption)
  }

  /** `get_llama_response(endpoint_name, text_input)`: `result.get("generated_text",
      "No response generated")` on the endpoint's answer, or the fallback text when
      the call fails or the answer is not a dictionary. */
  function LlamaResponse(runtime: Runtime, endpoint: string, prompt: string): (r: (seq<LegacyCall>, JsonValue))
    ensures r.0 == [InvokeLlama(endpoint, prompt, LlamaParams)]
  {
    var calls := [InvokeLlama(endpoint, prompt, LlamaParams)];
    match runtime.generate(endpoint, prompt, LlamaParams)
    case Err(_) => (calls, JString(ResponseFallback))
    case Ok(result) =>
      match Get(result, GeneratedTextKey, JString(NoResponse))
      case Err(_) => (calls, JString(ResponseFallback))
      case Ok(text) => (calls, text)
  }

  // ---------------------------------------------------------------------------
  // Lemmas

  /** The last four characters keep the extension of a `.jpg` or `.png` URL but
      drop the dot of a `.jpeg` one. */
  lemma TempFilenameSuffix(id: string, url: string)
    ensures EndsWith(url, ".jpg") ==> EndsWith(TempFilename(id, url), ".jpg")
    ensures EndsWith(url, ".png") ==> EndsWith(TempFilename(id, url), ".png")
    ensures EndsWith(url, ".jpeg") ==> EndsWith(TempFilename(id, url), "jpeg")
  {
    var r := TempFilename(id, url);
    var t := TakeLast(url, 4);
    if EndsWith(url, ".jpeg") {
      assert t == url[|url| - 4..];
      assert url[|url| - 4..] == ".jpeg"[1..];
    }
  }

  /** With `s3` unbound, captioning never reaches a service and always answers
      with the fallback text, and uploading always raises NameError. */
  lemma UnboundS3(runtime: Runtime, bucket: string, key: string, endpoint: string, path: string)
    ensures CaptionFromS3(None, runtime, bucket, key, endpoint) == ([], JString(CaptionFallback))
    ensures UploadImage(None, bucket, path).1 == Err(NameError(S3Unbound))
  {
  }

  /** Captioning answers with the `caption` entry exactly when every step succeeds and
      the answer is a dictionary holding it; otherwise with the fallback text. */
  lemma CaptionOutcome(client: S3Client, runtime: Runtime, bucket: string, key: string, endpoint: string)
    ensures var r := CaptionFromS3(Some(client), runtime, bucket, key, endpoint).1;
      var image := client.getObject(bucket, key);
      var answer := if image.Ok? then runtime.captionImage(endpoint, image.value) else Err(ServiceError(""));
      if image.Ok? && answer.Ok? && answer.value.JObject? && CaptionKey in answer.value.fields
      then r == answer.value.fields[CaptionKey]
      else r == JString(CaptionFallback)
  {
  }

  /** Generation answers a dictionary with its `generated_text` entry or the default,
      and anything else, a list included, with the fallback text. */
  lemma LlamaOutcome(runtime: Runtime, endpoint: string, prompt: string)
    ensures var r := LlamaResponse(runtime, endpoint, prompt).1;
      var answer := runtime.generate(endpoint, prompt, LlamaParams);
      if answer.Ok? && answer.value.JObject?
      then r == (if GeneratedTextKey in answer.value.fields then answer.value.fields[GeneratedTextKey] else JString(NoResponse))
      else r == JString(ResponseFallback)
  {
  }
}
