# LaughGen-AI in Dafny

LaughGen-AI is a Reddit bot that writes funny top-level comments on r/funny
posts. It builds a prompt from the post's title and body, adds an image context
when the post links an image, and sends the prompt to a hosted Llama 2 endpoint.
The image context holds a BLIP caption, the celebrities Rekognition recognises,
and the text Rekognition detects. This project models the core of the bot's
AWS Lambda functions and proves properties of that model:

- **Scheduled bot** (`deployment_phase_ii/lambda_function.py`, modules
  `Scheduled`, `Prompt`, `Cloud`, `PyJson`). The handler walks the hour's top
  posts and skips any id already in the `processed-reddit-submissions` table.
  Otherwise it marks the id, then skips posts that are not images. For an image
  post it enriches the image and generates a comment. The comment is JSON-quoted
  and passed through the `unicode_escape` decoding; the result is printed and
  then posted as a reply. The first exception ends the whole run. The ledger (the
  `processed-reddit-submissions` table) is a class whose method updates its set
  of ids in place. The handler is a method whose loop is proved against a
  recursive specification of the run.
- **Request handler** (`deployment_phase_i/lambda_function.py`, module
  `RequestHandler`). It reads a post URL from the request body, takes the third
  `/`-field from the end as the post id, and generates a comment. The answer is
  HTTP 200 with the JSON-quoted comment, 400 for any `KeyError`, or 500 for any
  other exception.
- **Earlier helpers** (`deployment_phase_i/lambda.py`, module `LegacyHelpers`):
  - the temporary file named after the URL's last four characters;
  - an upload and a caption-from-S3 step through an `s3` name that the module
    never binds;
  - generation with its own parameters and fallback texts.
- **Captioning endpoint** (`deployment_phase_i/code/inference.py`, module
  `CaptionEndpoint`). `predict_fn` validates the payload and fills in defaults.
  It then picks conditional or unconditional captioning and answers `{'generated
  text': ...}`.
- **Recognition backfill** (`data_enrichment_and_preparation/lambda_function.py`,
  module `RecognitionBackfill`). For each queued S3 key it extracts the
  submission id. It then stores the celebrity and text lists on that item of the
  `funny-reddit-posts` table, a class over a map updated in place.

Modelling choices:

- Every external service is a function-valued field of a datatype, returning
  `Ok(value)` or `Err(exception)`. These services are Reddit, S3, the SageMaker
  endpoints, Rekognition and `urlretrieve`. The DynamoDB tables are the
  exception: each is a class whose reads and writes always succeed.
- Each service call is recorded as an event in a trace, so ordering and "nothing
  else is called" can be stated.
- Python exceptions are an `Exception` datatype carrying what `str(e)` prints.
- The floats `0.9` and `0.6` are written as tenths.
- JSON values are a datatype with integral numbers.
- `json.dumps` of a string is modelled with full `ensure_ascii` escaping.
- `decode('unicode_escape')` is modelled over the UTF-8 bytes, with its octal,
  `\x`, `\u` and `\U` escapes.
- The scheduled bot's `print(generated_comment)` writes to a standard output
  that encodes UTF-8 strictly, as the Lambda runtime's does: a lone surrogate
  raises UnicodeEncodeError.

Behaviour the proofs bring out (as written in the source, not corrected):

- In the scheduled bot, the retry test `json.dumps(r) == "[removed]"` can never
  hold: a dumped string starts with `"` (`PyJson.DumpsIsNeverRemoved`).
- The decoded comment is the generated text as UTF-16 code units, quotes
  included (`PyJson.DecodeDumps`), so an astral character such as an emoji
  becomes two lone surrogates. The `print` before the reply then raises
  UnicodeEncodeError and the run ends without a reply
  (`Scheduled.AstralTextIsNotPosted`). A text in the Basic Multilingual Plane is
  posted as its own characters in quotes (`Scheduled.ProcessNewReply`). The
  temporary file name uses the URL's second `.`-field, not
  the extension (`Cloud.TempFilenameField`). The post id of a URL without a
  trailing slash is its third field from the end, which is `comments` for a
  Reddit URL (`RequestHandler.PostIdOfRedditUrl`).
- A generation answer that is a JSON object makes `result[0]` raise `KeyError`,
  so the request handler answers that server-side failure with 400
  (`RequestHandler.ObjectResultIsClientError`).
- `format_image_context` puts the detected texts before the celebrities, under
  labels in a different style (`- Description:`, `-Text:`, `-Celebrities:`).

## Model

| member | source | states |
|---|---|---|
| PyStr.Split | deployment_phase_ii/lambda_function.py:181 | `str.split` on one char: one more field than separators, no field holds the separator |
| PyStr.JoinSplit | deployment_phase_ii/lambda_function.py:234 | joining the fields of a split with the separator gives the string back |
| PyStr.SplitJoin | deployment_phase_ii/lambda_function.py:241 | splitting a join of separator-free strings gives the strings back |
| PyStr.SplitConcat | deployment_phase_ii/lambda_function.py:181 | a split of `a + sep + b` is the split of `a` followed by the split of `b` |
| PyStr.FirstFieldIsPrefix | deployment_phase_ii/lambda_function.py:181 | the first field is a prefix, followed by the separator unless it is the whole string |
| PyStr.LastFieldIsSuffix | data_enrichment_and_preparation/lambda_function.py:46 | `split(sep)[-1]` is a suffix of the string, preceded by the separator unless it is the whole string |
| PyStr.PyIndex | deployment_phase_i/lambda_function.py:27 | Python indexing with negative indices: defined exactly for `-len <= i < len`, counting from the end when negative |
| PyStr.TakeLast | deployment_phase_i/lambda.py:144 | `s[-n:]`: the last `n` characters, all of a shorter string, and all of `s` for `n = 0` |
| PyStr.JoinEnds | deployment_phase_ii/lambda_function.py:234 | `sep.join(parts)`: `""` for no parts; starts with the first part, then `sep` when there are more, and ends with the last part |
| PyStr.Basename | deployment_phase_ii/lambda_function.py:189 | `os.path.basename`: a `/`-free suffix of the path, the path itself when it has no `/` |
| PyJson.Subscript | deployment_phase_i/lambda_function.py:24 | `v[k]`: the entry for a present key, `KeyError('k')` for a missing one, TypeError on a non-dict |
| PyJson.Get | deployment_phase_ii/lambda_function.py:270 | `v.get(k, d)`: the entry or the default on a dict, AttributeError on anything else |
| PyJson.Contains | deployment_phase_i/code/inference.py:23 | `k in v`: key test, element test or substring test, TypeError on a scalar |
| PyJson.Dumps | deployment_phase_ii/lambda_function.py:82 | `json.dumps` of a string is ASCII and starts and ends with `"` |
| PyJson.EscapeString | deployment_phase_ii/lambda_function.py:82 | with `ensure_ascii`, the escaped text between the quotes is pure ASCII |
| PyJson.DumpsErrorObject | deployment_phase_i/lambda_function.py:78 | `json.dumps({'error': m})` is a text that opens with `{` and closes with `}` |
| PyJson.EscapeChar | deployment_phase_ii/lambda_function.py:82 | a character is kept as itself exactly when it is printable ASCII other than `"` and `\` |
| PyJson.DumpsIsNeverRemoved | deployment_phase_ii/lambda_function.py:76-79 | no string dumps to `[removed]`, so the retry is unreachable |
| PyJson.DecodeDumps | deployment_phase_ii/lambda_function.py:82 | decoding the dumped comment gives `"`, the comment's UTF-16 code units, and `"` |
| PyJson.DecodeEscapedString | deployment_phase_ii/lambda_function.py:92-95 | the `unicode_escape` decoding undoes the escaping of every character, whatever follows |
| PyJson.DumpsPlain | deployment_phase_i/lambda_function.py:78 | a string of printable ASCII without quotes or backslashes dumps to itself in quotes |
| PyJson.DecodePlainAscii | deployment_phase_ii/lambda_function.py:94 | ASCII text without backslashes decodes to its own code points |
| PyJson.Utf16UnitsOfBmp | deployment_phase_ii/lambda_function.py:82 | a comment without astral characters comes back as its own code points |
| PyJson.DecodeUnicodeStrings | deployment_phase_ii/lambda_function.py:92-95 | a successful decoding is a sequence of code points no greater than U+10FFFF |
| PyJson.DecodeHighBytes | deployment_phase_ii/lambda_function.py:94 | bytes from 0x80 up are never part of an escape, and each decodes to the character of the same number |
| PyJson.DecodeMangles | deployment_phase_ii/lambda_function.py:94 | every character from U+0080 up comes back as its two to four UTF-8 bytes read as Latin-1, never as itself |
| PyJson.EncodeStrictFails | deployment_phase_ii/lambda_function.py:85 | the strict UTF-8 encoding fails exactly on a sequence holding a surrogate |
| PyJson.EncodeStrictOfText | deployment_phase_ii/lambda_function.py:85 | the characters of any text encode, to the text's UTF-8 bytes |
| PyJson.SurrogatesIffAstral | deployment_phase_ii/lambda_function.py:82 | a text's UTF-16 units hold a surrogate exactly when the text has a character above U+FFFF |
| PyJson.QuotedUnits | deployment_phase_ii/lambda_function.py:82-85 | the decoded JSON form holds a surrogate exactly for a text outside the Basic Multilingual Plane, and is otherwise the text's code points in quotes |
| Prompt.PostSection | deployment_phase_ii/lambda_function.py:152 | the title comes first; it is all of the section exactly when the body is empty; otherwise a blank line and the body follow |
| Prompt.FormatImageContext | deployment_phase_ii/lambda_function.py:165-169 | the description label and caption open the context, the celebrities label and names then two newlines close it, and nothing else is added |
| Prompt.AssemblePrompt | deployment_phase_ii/lambda_function.py:61-64 | removing the response marker leaves the initial prompt plus the context, and the post section can be read back from the initial prompt |
| Prompt.InitializePrompt | deployment_phase_ii/lambda_function.py:150-162 | the prompt is the fixed header, the post section, and the `### Image Context:` heading, in that order |
| Prompt.FinalizePrompt | deployment_phase_ii/lambda_function.py:172-176 | the final prompt is the base, then the context, then `### Response:\n` |
| Prompt.ExtractPost | deployment_phase_ii/lambda_function.py:150-162 | what it extracts, framed by the header and the heading, is the prompt again |
| Prompt.ExtractPostOfInitializePrompt | deployment_phase_ii/lambda_function.py:152-160 | the post section can be recovered from the initial prompt |
| Prompt.StripFinalizePrompt | deployment_phase_ii/lambda_function.py:174 | removing the response marker recovers base plus context |
| Prompt.PostSectionLines | deployment_phase_ii/lambda_function.py:152 | the post section's lines are the title's lines, then an empty line and the body's lines when the body is non-empty |
| Prompt.InitializePromptLines | deployment_phase_ii/lambda_function.py:154-160 | the prompt's lines are the four header lines, the post's lines, an empty line, the heading line, and an empty last field |
| Prompt.HeaderIsLines | deployment_phase_ii/lambda_function.py:154-157 | the header is its four lines joined by newlines, plus a newline |
| Prompt.ImageContextLines | deployment_phase_ii/lambda_function.py:167 | with newline-free fields, the context is the description line, the text line, the celebrities line, and two empty fields |
| Prompt.ParseFormatImageContext | deployment_phase_ii/lambda_function.py:165-169 | with newline-free fields, the caption, celebrities and texts can be read back from the context |
| Prompt.EmptyImageContext | deployment_phase_i/lambda_function.py:55-59 | a post without an image gets the three bare labels |
| Prompt.PostSectionAmbiguity | deployment_phase_ii/lambda_function.py:152 | a title `a` with body `b` and a title `a\n\nb` with no body give the same prompt |
| Prompt.AssemblePromptShape | deployment_phase_ii/lambda_function.py:41-64 | the prompt sent is header, post, heading, context and marker, and stripping the marker leaves the initial prompt plus the context |
| Prompt.AssemblePromptLines | deployment_phase_ii/lambda_function.py:61-64 | the lines of the prompt before the marker, with newline-free image fields |
| Prompt.TitleOnlyPromptLines | deployment_phase_i/lambda_function.py:129-155 | a title-only post: header lines, the title, an empty line, the heading, the three labelled lines |
| Cloud.TempFilename | deployment_phase_ii/lambda_function.py:181 | a file name exists exactly when the URL has a `.`; otherwise `IndexError('list index out of range')` |
| Cloud.TempFilenameField | deployment_phase_ii/lambda_function.py:181 | the file name is `/tmp/image_` + id + the URL's second `.`-field, which is not the extension |
| Cloud.IsImageUrl | deployment_phase_ii/lambda_function.py:44 | an image URL has a `.` four or five characters from its end |
| Cloud.Enrich | deployment_phase_ii/lambda_function.py:46-54 | no call for a URL without a `.`; otherwise the first call is the download to the temporary file; at most five calls, all five on success |
| Cloud.ImageUrlIsCaseSensitive | deployment_phase_ii/lambda_function.py:44 | `.jpg`, `.jpeg`, `.png` are images; `.JPG` and `.gif` are not |
| Cloud.ImageUrlHasFilename | deployment_phase_ii/lambda_function.py:44-47 | every image URL has a temporary file name |
| Cloud.ObjectKey | deployment_phase_ii/lambda_function.py:189 | the key is the fixed prefix and a `/`-free suffix of the path |
| Cloud.ObjectKeyOfTempFile | deployment_phase_ii/lambda_function.py:181-190 | the key of a temporary file is prefix + `image_` + id + field |
| Cloud.BasenameAfterSlash | deployment_phase_ii/lambda_function.py:189 | the basename of `dir/name` is `name` |
| Cloud.JoinRecognition | deployment_phase_ii/lambda_function.py:233-241 | no names give `""`, and one name gives itself |
| Cloud.DetectedTextsRoundTrip | deployment_phase_ii/lambda_function.py:240-241 | space-free detected texts can be split back out of the joined string |
| Cloud.JoinRecognitionOrder | deployment_phase_ii/lambda_function.py:233-241 | joining keeps response order: the join of two parts is the joins with the separator between |
| Cloud.SelectGenerated | deployment_phase_ii/lambda_function.py:270 | `result[0].get(...)`: success exactly for a non-empty list with a dict first; IndexError for `[]`, `KeyError(0)` for a dict |
| Cloud.GeneratedText | deployment_phase_ii/lambda_function.py:74 | only a string answer is used as the comment |
| Cloud.LlamaResponse | deployment_phase_ii/lambda_function.py:246-270 | exactly one generation call, with the given endpoint, prompt and parameters |
| Cloud.LlamaResponseText | deployment_phase_ii/lambda_function.py:267-270 | a list with a dict first gives its `generated_text`, or `No response generated` |
| Cloud.EnrichTrace | deployment_phase_ii/lambda_function.py:46-54 | enrichment calls download, upload, caption, celebrities and texts in that order, and stops at the first failure |
| Cloud.EnrichResult | deployment_phase_ii/lambda_function.py:53-54 | a successful enrichment holds the caption and the `, `-joined names and the space-joined texts |
| Scheduled.CheckAndMark | deployment_phase_ii/lambda_function.py:98-110 | new exactly when the id is absent; afterwards the ledger holds it, and is unchanged when it was there |
| Scheduled.SubmissionLedger.CheckAndProcess | deployment_phase_ii/lambda_function.py:98-110 | the method answers and updates the table as `CheckAndMark` says |
| Scheduled.CheckTwice | deployment_phase_ii/lambda_function.py:98-110 | checking an id twice answers true then false, and adds only that id |
| Scheduled.PrintComment | deployment_phase_ii/lambda_function.py:85 | `print` succeeds exactly when the comment holds no surrogate; its failure is a UnicodeEncodeError |
| Scheduled.GenerateWithRetry | deployment_phase_ii/lambda_function.py:73-79 | one or two generations for the prompt, the first with the fixed parameters, the second at temperature 0.6 |
| Scheduled.Respond | deployment_phase_ii/lambda_function.py:73-86 | it starts with the generation call for the prompt, and a success ends with a reply to this id |
| Scheduled.ProcessNew | deployment_phase_ii/lambda_function.py:41-86 | a non-image post makes no call and succeeds; an image post starts with the download |
| Scheduled.Run | deployment_phase_ii/lambda_function.py:25-89 | the ledger never loses an id |
| Scheduled.Handler | deployment_phase_ii/lambda_function.py:12-89 | a client failure ends the run before any call; a run without exception had a client and a listing; the ledger never loses an id |
| Scheduled.RespondToPost | deployment_phase_ii/lambda_function.py:66-86 | the imperative generate, retry, decode, print and reply step computes the trace and outcome that `Respond` specifies |
| Scheduled.ProcessSubmission | deployment_phase_ii/lambda_function.py:41-86 | one unprocessed submission: the trace and outcome that `ProcessNew` specifies |
| Scheduled.LambdaHandler | deployment_phase_ii/lambda_function.py:12-89 | the loop leaves the ledger and returns the trace and error of the run specification `Handler` |
| Scheduled.RespondCalls | deployment_phase_ii/lambda_function.py:74-86 | one generation with the fixed parameters, at most one reply, to this id |
| Scheduled.ProcessNewCalls | deployment_phase_ii/lambda_function.py:43-86 | per submission: at most one generation, to the LLM endpoint with 128 tokens, 0.9, 0.9 and `</s>`, and at most one reply, to that id |
| Scheduled.RespondOk | deployment_phase_ii/lambda_function.py:73-86 | a successful response is one generation with the fixed parameters and a reply of the text's characters in quotes, and the text is in the Basic Multilingual Plane |
| Scheduled.ProcessNewReply | deployment_phase_ii/lambda_function.py:47-86 | a successful image post: its text is in the Basic Multilingual Plane, and the calls are the enrichment, one generation, and a reply of the text's characters in quotes |
| Scheduled.AstralTextIsNotPosted | deployment_phase_ii/lambda_function.py:82-89 | a generated text with a character above U+FFFF ends with UnicodeEncodeError after the enrichment and one generation, with no reply |
| Scheduled.RunLedger | deployment_phase_ii/lambda_function.py:25-31 | the ledger only grows, by listing ids only; a run without error marks every id, and the first id is always marked |
| Scheduled.SkipProcessed | deployment_phase_ii/lambda_function.py:28-31 | an already-processed submission is skipped with no call |
| Scheduled.SkipNonImage | deployment_phase_ii/lambda_function.py:44-58 | a non-image post is marked processed and otherwise skipped |
| Scheduled.FailedSubmissionIsNotRetried | deployment_phase_ii/lambda_function.py:28-31 | a failing submission ends the run, stays marked, and is skipped next time |
| Scheduled.AbortEndsLoop | deployment_phase_ii/lambda_function.py:88-89 | once a submission raises, later submissions change nothing |
| Scheduled.RunReplies | deployment_phase_ii/lambda_function.py:25-86 | replies go only to ids not processed before, now marked, each at most once; every generation uses the fixed parameters |
| RequestHandler.LoadBody | deployment_phase_i/lambda_function.py:23 | a missing body reads as `{}` |
| RequestHandler.PostIdFromUrl | deployment_phase_i/lambda_function.py:27 | an id exists exactly when the URL has two or more `/`; it is `/`-free and occurs in the URL; IndexError otherwise |
| RequestHandler.PostUrl | deployment_phase_i/lambda_function.py:24 | the URL is read exactly when the body is a dict with a string `post_url`; missing gives `KeyError('post_url')` |
| RequestHandler.ImageContext | deployment_phase_i/lambda_function.py:43-56 | a non-image post gets three empty fields and no call; an image post starts with the download; at most five calls |
| RequestHandler.Attempt | deployment_phase_i/lambda_function.py:12-65 | a client failure makes no call; the first call is the submission fetch; a success ends with a generation with 64 tokens, 0.9, 0.6 and `</s>` |
| RequestHandler.Comment | deployment_phase_i/lambda_function.py:43-65 | at least one call is made, and a success ends with a generation with the handler's parameters |
| RequestHandler.LambdaHandler | deployment_phase_i/lambda_function.py:10-89 | the calls are those of the attempt; 200 exactly on success, 400 exactly for KeyError, and 500 otherwise |
| RequestHandler.ErrorResponse | deployment_phase_i/lambda_function.py:73-89 | 400 for KeyError, else 500, with the JSON content type and `{"error": str(e)}` |
| RequestHandler.StatusMapping | deployment_phase_i/lambda_function.py:65-89 | 200 exactly on success, with the dumped comment and no headers; 400 exactly for KeyError, 500 exactly for other exceptions |
| RequestHandler.MissingPostUrl | deployment_phase_i/lambda_function.py:23-24 | no `post_url` answers 400 with `{"error": "'post_url'"}` and no call |
| RequestHandler.ShortUrl | deployment_phase_i/lambda_function.py:27 | a URL with fewer than two `/` is an IndexError, answered 500 |
| RequestHandler.ObjectResultIsClientError | deployment_phase_i/lambda_function.py:254 | a dict answer from the LLM is answered 400 with `{"error": "0"}` |
| RequestHandler.NonImagePost | deployment_phase_i/lambda_function.py:55-65 | a non-image post: one fetch and one generation with the empty-label prompt |
| RequestHandler.ImagePostCalls | deployment_phase_i/lambda_function.py:43-65 | an image post: fetch, the five enrichment calls, one generation |
| RequestHandler.PostIdOfRedditUrl | deployment_phase_i/lambda_function.py:27 | with a trailing slash the id is taken; without it, the field two before the slug |
| RequestHandler.LastThreeFields | deployment_phase_i/lambda_function.py:27 | the id of `base/x/y/z` with `/`-free `x`, `y`, `z` is `x` |
| RequestHandler.ThreeFieldUrl | deployment_phase_i/lambda_function.py:27 | a URL with exactly two `/`, `x/y/z`, gives `x` |
| LegacyHelpers.TempFilename | deployment_phase_i/lambda.py:144 | `/tmp/image_` + id, followed by the URL's last four characters |
| LegacyHelpers.TempFilenameSuffix | deployment_phase_i/lambda.py:144 | `.jpg` and `.png` are kept; `.jpeg` becomes `jpeg` |
| LegacyHelpers.DownloadImage | deployment_phase_i/lambda.py:142-147 | one retrieval to the temporary path, which is returned when it succeeds |
| LegacyHelpers.UploadImage | deployment_phase_i/lambda.py:150-153 | the shared key on success; with `s3` unbound, NameError and no call |
| LegacyHelpers.CaptionFromS3 | deployment_phase_i/lambda.py:156-188 | with `s3` unbound, no call and the caption fallback text |
| LegacyHelpers.UnboundS3 | deployment_phase_i/lambda.py:152-188 | if the helpers were loaded on their own, captioning would always fall back and uploading would always raise NameError |
| LegacyHelpers.CaptionOutcome | deployment_phase_i/lambda.py:163-188 | the `caption` entry exactly when fetch, invocation and lookup succeed; the fallback text otherwise |
| LegacyHelpers.LlamaResponse | deployment_phase_i/lambda.py:213-246 | exactly one generation call, 64 tokens, 0.9, 0.6 and no stop |
| LegacyHelpers.LlamaOutcome | deployment_phase_i/lambda.py:236-246 | a dict answer gives `generated_text` or the default; a list or a failure gives `Error generating response` |
| CaptionEndpoint.ParseRequest | deployment_phase_i/code/inference.py:22-34 | valid exactly for a dict with a dict `inputs` holding a non-None `img_url`; the two ValueErrors with their messages; defaults 20 and True |
| CaptionEndpoint.SelectMode | deployment_phase_i/code/inference.py:40-48 | conditional exactly when `text` is truthy, with that text |
| CaptionEndpoint.PredictFn | deployment_phase_i/code/inference.py:14-50 | at most two calls; any call means the payload was valid and the first is the fetch of its `img_url`; a success made both calls and is a one-key dict under `generated text` |
| CaptionEndpoint.ValidationBeforeFetch | deployment_phase_i/code/inference.py:22-37 | a rejected payload makes no call, and raises the same whatever the model |
| CaptionEndpoint.PredictOutcome | deployment_phase_i/code/inference.py:37-50 | one fetch, then one generation in the selected mode; the answer is the one-key dict `generated text` |
| CaptionEndpoint.Defaults | deployment_phase_i/code/inference.py:26-29 | a bare `img_url` gets no text, 20 tokens, special tokens skipped, unconditional mode |
| CaptionEndpoint.TextSelectsMode | deployment_phase_i/code/inference.py:40 | an empty text is unconditional, a non-empty one conditional |
| CaptionEndpoint.NonDictPayload | deployment_phase_i/code/inference.py:23-24 | a non-dict payload always raises, with TypeError or the missing-`inputs` ValueError |
| RecognitionBackfill.ExtractSubmissionId | data_enrichment_and_preparation/lambda_function.py:44-48 | the id holds neither `/` nor `.` |
| RecognitionBackfill.ExtractSubmissionIdShape | data_enrichment_and_preparation/lambda_function.py:46-47 | the id is a prefix of the last segment, which is a suffix of the key; no `/` uses the whole key; no `.` keeps the segment |
| RecognitionBackfill.ExtractFromPath | data_enrichment_and_preparation/lambda_function.py:13 | `dir/<id>.<ext>` and `<id>.<ext>` give `<id>`, however many dots follow |
| RecognitionBackfill.ExtractExample | data_enrichment_and_preparation/lambda_function.py:13 | `reddit/funny/posts/16ok566.jpg` gives `16ok566` |
| RecognitionBackfill.ExtractTwoDots | data_enrichment_and_preparation/lambda_function.py:47 | `a.b.jpg` gives `a` |
| RecognitionBackfill.Records | data_enrichment_and_preparation/lambda_function.py:12 | a list of records is iterated as is; a missing `Records` is `KeyError('Records')` |
| RecognitionBackfill.ObjectKey | data_enrichment_and_preparation/lambda_function.py:13 | the key is the string `body`; missing is `KeyError('body')` |
| RecognitionBackfill.RecordUpdate | data_enrichment_and_preparation/lambda_function.py:13-29 | an update is keyed by the extracted id and holds both recognition lists as returned |
| RecognitionBackfill.Updated | data_enrichment_and_preparation/lambda_function.py:32-40 | the table's ids afterwards are the old ones plus the update's |
| RecognitionBackfill.Run | data_enrichment_and_preparation/lambda_function.py:12-40 | no more updates than records |
| RecognitionBackfill.Handler | data_enrichment_and_preparation/lambda_function.py:11-42 | without a record list the handler raises before any update; a run without exception had one |
| RecognitionBackfill.PostsTable.UpdateRecognition | data_enrichment_and_preparation/lambda_function.py:32-40 | the table becomes `Updated`: the item's two attributes set, created with its key when new |
| RecognitionBackfill.LambdaHandler | data_enrichment_and_preparation/lambda_function.py:11-42 | the loop leaves the table and returns the updates and error of the specification `Handler` |
| RecognitionBackfill.UpdatedItems | data_enrichment_and_preparation/lambda_function.py:32-40 | only that item changes, and in it only the two lists; a new item holds exactly the key and the two lists |
| RecognitionBackfill.RunUpdates | data_enrichment_and_preparation/lambda_function.py:12-40 | one update per record, in record order, up to the record that raised |
| RecognitionBackfill.RunKeys | data_enrichment_and_preparation/lambda_function.py:32-33 | the table's ids afterwards are the old ones plus the updated ones |
| RecognitionBackfill.RunUntouched | data_enrichment_and_preparation/lambda_function.py:32-40 | items no update names are unchanged |
| RecognitionBackfill.RunLastUpdate | data_enrichment_and_preparation/lambda_function.py:34-38 | an id's last update decides its two stored lists |
| RecognitionBackfill.MissingBodyStops | data_enrichment_and_preparation/lambda_function.py:12-13 | a record without `body` raises `KeyError('body')` after exactly the updates before it |

The helpers shared by the deployments are modelled once:

- `initialize_prompt`, `format_image_context` and `finalize_prompt` are the same
  in `deployment_phase_i/lambda_function.py:129-155` and
  `deployment_phase_i/lambda.py:113-139`. Those copies use the `Prompt` members
  above.
- `get_celebrity_text` (`deployment_phase_i/lambda_function.py:203-222` and
  `deployment_phase_i/lambda.py:191-210`) is `Cloud.JoinRecognition` and the
  recognition steps of `Cloud.Enrich`.
- The phase I `download_image` and `upload_image_to_s3`
  (`deployment_phase_i/lambda_function.py:158-170`) are `Cloud.TempFilename` and
  `Cloud.ObjectKey`.
- The phase I `get_llama_response` (`deployment_phase_i/lambda_function.py:225-254`)
  is `Cloud.LlamaResponse`, with `RequestHandler.LlamaParams`.

## Left out

- AWS, Reddit and the network. Every external call except those to the DynamoDB
  tables is a deterministic function parameter: one call returns one result,
  and nothing can time out or be retried behind the scenes.
- Scheduled.CheckAndMark: `get_item` and `put_item` on the ledger always
  succeed here. A DynamoDB failure in either, which would raise into the
  handler's `except`, is not modelled; the same holds for
  Scheduled.SubmissionLedger.CheckAndProcess.
- Scheduled.RunLedger: "the first id is always marked" holds because the
  ledger's reads and writes cannot fail in this model; a DynamoDB error in the
  check would end the run with the id unmarked.
- Secrets Manager and the client setup (`get_secret`, `initialize_reddit_client`).
  Whether setup succeeds is a single `Ok`/`Err` parameter of each handler.
- The `lambda_handler` of `deployment_phase_i/lambda.py` is not part of this
  model: as it stands it is not valid Python. Only its helpers are modelled.
- The models themselves (BLIP, Llama 2, Rekognition, BLIP's image loading in
  `model_fn`). Their outputs are parameters.
- The hour's top listing is taken as fetched all at once. A failure while
  paging is the listing's `Err`, so a failure in the middle of paging is not
  modelled.
- Check-then-put on the ledger is atomic here. Two concurrent runs could both
  see an id as new; that race is not modelled.
- `print` calls and logging, other than the scheduled bot's print of the
  comment. The informational prints cannot fail on their texts, and the prints
  in `except` clauses come after the outcome is already fixed.
- Scheduled.PrintComment: the UnicodeEncodeError message is shortened, without
  the character and its position.
- Cloud.GeneratedText: a non-string `generated_text` (a number, a list) is a
  TypeError here. The source would `json.dumps` it and reply with its JSON text.
- PyJson.DecodeUnicodeStrings: `\N{name}` escapes are an error here, because the
  Unicode name database is not modelled.
- Exception messages are the ones Python 3 prints for the cases the proofs use.
  Messages of other Python exceptions are not pinned down.
- Floats `0.9` and `0.6` are tenths. They are only passed on and never computed
  with.
- `max_new_tokens` and `skip_special_tokens` in the captioning endpoint are
  passed on as JSON values, unchecked, as the source does. Image decoding
  failures are the fetch collaborator's `Err`.
- RecognitionBackfill.Records: an event whose `Records` is a non-empty
  dictionary is a TypeError here, because iterating its keys gives strings. The
  dictionary's key order is not modelled.
- `update_item` failures in the backfill are not modelled. The table update
  always succeeds.
