/** The captioning endpoint's `predict_fn`: it validates the request payload,
    fetches the image, and captions it conditionally on a prompt text when one is
    given. The image fetch and the model are collaborators. */
module CaptionEndpoint {
  import opened Common
  import opened PyJson

  const InputsKey := "inputs"
  const ImgUrlKey := "img_url"
  const TextKey := "text"
  const MaxNewTokensKey := "max_new_tokens"
  const SkipSpecialTokensKey := "skip_special_tokens"
  /** The single key of the answer, written with a space. */
  const GeneratedTextKey := "generated text"
  const DefaultMaxNewTokens := 20

  const FormatHint := " It should be formatted as {'inputs' : {'img_url' : '<URL>', 'text': '<Text>' }}"
  const MissingInputs := "Dictionary is missing 'inputs' key." + FormatHint
  const MissingImgUrl := "Dictionary is missing 'img_url' key." + FormatHint

  /** The validated payload, with the defaults filled in. */
  datatype Request = Request(imgUrl: JsonValue, text: JsonValue, maxNewTokens: JsonValue, skipSpecialTokens: JsonValue)

  /** Conditional captioning continues the given text; unconditional has none. */
  datatype Mode = Conditional(prompt: JsonValue) | Unconditional

  /** The model: fetching the image at a URL and captioning it. */
  datatype Model = Model(
    fetch: JsonValue -> Result<Image, Exception>,
    caption: (Image, Mode, JsonValue, JsonValue) -> Result<string, Exception>)

  type Image = seq<int>

  datatype ModelCall = FetchImage(url: JsonValue) | Generate(mode: Mode, maxNewTokens: JsonValue, skipSpecialTokens: JsonValue)

  /** Lines 22-34: `'inputs' in data`, then `inputs.get(...)` for the four entries,
      raising ValueError when `inputs` or a non-None `img_url` is missing. */
  function ParseRequest(data: JsonValue): (r: Result<Request, Exception>)
    ensures r.Ok? <==>
      data.JObject? && InputsKey in data.fields && data.fields[InputsKey].JObject?
      && ImgUrlKey in data.fields[InputsKey].fields && data.fields[InputsKey].fields[ImgUrlKey] != JNull
    ensures data.JObject? && InputsKey !in data.fields ==> r == Err(ValueError(MissingInputs))
    ensures data.JObject? && InputsKey in data.fields && data.fields[InputsKey].JObject?
      && (ImgUrlKey !in data.fields[InputsKey].fields || data.fields[InputsKey].fields[ImgUrlKey] == JNull)
      ==> r == Err(ValueError(MissingImgUrl))
    ensures r.Ok? ==> var inputs := data.fields[InputsKey].fields;
      && r.value.imgUrl == inputs[ImgUrlKey]
      && r.value.text == (if TextKey in inputs then inputs[TextKey] else JNull)
      && r.value.maxNewTokens == (if MaxNewTokensKey in inputs then inputs[MaxNewTokensKey] else JNumber(DefaultMaxNewTokens))
      && r.value.skipSpecialTokens == (if SkipSpecialTokensKey in inputs then inputs[SkipSpecialTokensKey] else JBool(true))
  {
    match Contains(data, InputsKey)
    case Err(e) => Err(e)
    case Ok(present) =>
      if !present then Err(ValueError(MissingInputs))
      else
        match Subscript(data, InputsKey)
        case Err(e) => Err(e)
        case Ok(inputs) =>
          match Get(inputs, ImgUrlKey, JNull)
          case Err(e) => Err(e)
          case Ok(url) =>
            match inputs
            case JObject(fields) =>
              var text := if TextKey in fields then fields[TextKey] else JNull;
              var tokens := if MaxNewTokensKey in fields then fields[MaxNewTokensKey] else JNumber(DefaultMaxNewTokens);
              var skip := if SkipSpecialTokensKey in fields then fields[SkipSpecialTokensKey] else JBool(true);
              if url == JNull then Err(ValueError(MissingImgUrl))
              else Ok(Request(url, text, tokens, skip))
  }

  /** Line 40: `if text:` */
  function SelectMode(text: JsonValue): (m: Mode)
    ensures m.Conditional? <==> Truthy(text)
    ensures m.Conditional? ==> m.prompt == text
  {
    if Truthy(text) then Conditional(text) else Unconditional
  }

  /** `predict_fn(data, model_and_processor)`: the calls made and the answer. */
  function PredictFn(data: JsonValue, model: Model): (r: (seq<ModelCall>, Result<JsonValue, Exception>))
    ensures |r.0| <= 2
    ensures r.0 != [] ==> ParseRequest(data).Ok? && r.0[0] == FetchImage(ParseRequest(data).value.imgUrl)
    ensures r.1.Ok? ==> |r.0| == 2 && r.1.value.JObject? && r.1.value.fields.Keys == {GeneratedTextKey}
  {
    match ParseRequest(data)
    case Err(e) => ([], Err(e))
    case Ok(req) =>
      var f := [FetchImage(req.imgUrl)];
      match model.fetch(req.imgUrl)
      case Err(e) => (f, Err(e))
      case Ok(image) =>
        var mode := SelectMode(req.text);
        var calls := f + [Generate(mode, req.maxNewTokens, req.skipSpecialTokens)];
        match model.caption(image, mode, req.maxNewTokens, req.skipSpecialTokens)
        case Err(e) => (calls, Err(e))
        case Ok(caption) => (calls, Ok(JObject(map[GeneratedTextKey := JString(caption)])))
  }

  // ---------------------------------------------------------------------------
  // Lemmas

  /** Validation comes first: a payload it rejects raises before the model is
      touched, with the same exception whatever the model is. */
  lemma ValidationBeforeFetch(data: JsonValue, m1: Model, m2: Model)
    requires ParseRequest(data).Err?
    ensures PredictFn(data, m1) == PredictFn(data, m2) == ([], Err(ParseRequest(data).error))
  {
  }

  /** A valid payload fetches its `img_url` once and generates once, in the mode
      its `text` selects, with the (defaulted) token options; a success is a one-key
      dictionary under `generated text`. */
  lemma PredictOutcome(data: JsonValue, model: Model)
    requires ParseRequest(data).Ok?
    ensures var req := ParseRequest(data).value;
      var r := PredictFn(data, model);
      && (model.fetch(req.imgUrl).Err? ==> r == ([FetchImage(req.imgUrl)], Err(model.fetch(req.imgUrl).error)))
      && (model.fetch(req.imgUrl).Ok? ==>
            var c := model.caption(model.fetch(req.imgUrl).value, SelectMode(req.text), req.maxNewTokens, req.skipSpecialTokens);
            && r.0 == [FetchImage(req.imgUrl), Generate(SelectMode(req.text), req.maxNewTokens, req.skipSpecialTokens)]
            && (r.1.Ok? <==> c.Ok?)
            && (c.Ok? ==> r.1 == Ok(JObject(map[GeneratedTextKey := JString(c.value)]))))
  {
  }

  /** A payload with only an image URL is captioned unconditionally with 20 new
      tokens and special tokens skipped. */
  lemma Defaults(url: JsonValue)
    requires url != JNull
    ensures ParseRequest(JObject(map[InputsKey := JObject(map[ImgUrlKey := url])])) == Ok(Request(url, JNull, JNumber(20), JBool(true)))
    ensures SelectMode(JNull) == Unconditional
  {
  }

  /** An empty prompt text, like a missing one, selects unconditional captioning;
      any non-empty one is passed on. */
  lemma TextSelectsMode(s: string)
    ensures SelectMode(JString(s)) == if s == "" then Unconditional else Conditional(JString(s))
  {
  }

  /** A payload that is not a dictionary: a list or a string is searched for
      `inputs` and, if it is there, indexed with a string, a TypeError; any other
      value cannot be searched at all, also a TypeError. */
  lemma NonDictPayload(data: JsonValue)
    requires !data.JObject?
    ensures var r := ParseRequest(data);
      r.Err? && (r.error.TypeError? || r.error == ValueError(MissingInputs))
  {
  }
}
