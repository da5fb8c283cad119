/** The scheduled handler of the second deployment: every new submission of the
    last hour is marked in the ledger of processed ids, and each image post gets
    a generated comment as a reply. */
module Scheduled {
  import opened Common
  import opened PyStr
  import opened PyJson
  import opened Prompt
  import opened Cloud

  /** `max_new_tokens` 128, `top_p` 0.9, `temperature` 0.9, `stop` `["</s>"]`. */
  const LlamaParams := GenParams(128, 9, 9, Some(["</s>"]))
  /** The temperature of the retry, 0.6. */
  const RetryTemperatureTenths: nat := 6
  /** The response that would trigger the retry. */
  const Removed := "[removed]"

  // ---------------------------------------------------------------------------
  // The ledger of processed submissions

  /** `check_and_process_submission` on the set of ids in the table: whether the id
      was new, and the table afterwards. */
  function CheckAndMark(processed: set<string>, id: string): (r: (bool, set<string>))
    ensures r.0 <==> id !in processed
    ensures r.1 == processed + {id}
    ensures !r.0 ==> r.1 == processed
  {
    if id in processed then (false, processed) else (true, processed + {id})
  }

  /** The `processed-reddit-submissions` table, as the set of ids it holds. */
  class SubmissionLedger {
    var processed: set<string>

    constructor(initial: set<string>)
      ensures processed == initial
    {
      processed := initial;
    }

    /** `check_and_process_submission(id)`: false and no write when the id is
        already present; otherwise the id is written and the answer is true. */
    method CheckAndProcess(id: string) returns (isNew: bool)
      modifies this
      ensures isNew <==> id !in old(processed)
      ensures processed == old(processed) + {id}
      ensures (isNew, processed) == CheckAndMark(old(processed), id)
    {
      if id in processed {
        return false;
      }
      processed := processed + {id};
      return true;
    }
  }

  // ---------------------------------------------------------------------------
  // One submission

  /** `get_llama_response` with the fixed parameters, and the retry at temperature
      0.6 when the JSON form of the answer is `[removed]`. */
  function GenerateWithRetry(svc: Services, prompt: string): (s: Step<string>)
    ensures 1 <= |s.calls| <= 2 && s.calls[0] == Generate(LlmEndpoint, prompt, LlamaParams)
    ensures |s.calls| == 2 ==> s.calls[1] == Generate(LlmEndpoint, prompt, LlamaParams.(temperatureTenths := RetryTemperatureTenths))
  {
    var g := LlamaResponse(svc, LlmEndpoint, prompt, LlamaParams);
    if g.result.Ok? && Dumps(g.result.value) == Removed then
      var again := LlamaResponse(svc, LlmEndpoint, prompt, LlamaParams.(temperatureTenths := RetryTemperatureTenths));
      Step(g.calls + again.calls, again.result)
    else g
  }

  /** `print(generated_comment)`: the runtime's standard output encodes to UTF-8
      strictly, so a comment holding a surrogate raises UnicodeEncodeError. */
  function PrintComment(comment: seq<int>): (r: Result<(), Exception>)
    requires IsCodePoints(comment)
    ensures r.Ok? <==> !HasSurrogate(comment)
    ensures r.Err? ==> r.error.UnicodeEncodeError?
  {
    EncodeStrictFails(comment);
    match EncodeUtf8Strict(comment)
    case Err(x) => Err(x)
    case Ok(_) => Ok(())
  }

  /** Generation for the final prompt, the `unicode_escape` decoding of the
      JSON-quoted text, the print, and the reply. */
  function Respond(svc: Services, id: string, prompt: string): (s: Step<()>)
    ensures s.calls != [] && s.calls[0] == Generate(LlmEndpoint, prompt, LlamaParams)
    ensures s.result.Ok? ==> Last(s.calls).Reply? && Last(s.calls).submissionId == id
  {
    var g := GenerateWithRetry(svc, prompt);
    match g.result
    case Err(x) => Step(g.calls, Err(x))
    case Ok(text) =>
      match DecodeUnicodeStrings(Dumps(text))
      case Err(msg) => Step(g.calls, Err(UnicodeDecodeError(msg)))
      case Ok(comment) =>
        match PrintComment(comment)
        case Err(x) => Step(g.calls, Err(x))
        case Ok(_) =>
          var calls := g.calls + [Reply(id, comment)];
          match svc.reply(id, comment)
          case Err(x) => Step(calls, Err(x))
          case Ok(_) => Step(calls, Ok(()))
  }

  /** The work the handler does for a submission whose id was new: nothing for a
      non-image URL; otherwise enrichment, then the response built from the post
      and the image context. */
  function ProcessNew(svc: Services, sub: Submission): (s: Step<()>)
    ensures !IsImageUrl(sub.url) ==> s == Step([], Ok(()))
    ensures IsImageUrl(sub.url) ==> s.calls != [] && s.calls[0] == Download(sub.url, TempFilename(sub.id, sub.url).value)
  {
    if !IsImageUrl(sub.url) then Step([], Ok(()))
    else
      var e := Enrich(svc, sub);
      match e.result
      case Err(x) => Step(e.calls, Err(x))
      case Ok(info) =>
        var prompt := FinalizePrompt(InitializePrompt(sub.title, sub.selftext),
                                     FormatImageContext(info.caption, info.celebrities, info.texts));
        var r := Respond(svc, sub.id, prompt);
        Step(e.calls + r.calls, r.result)
  }

  /** The body of the loop for a new id, as the handler runs it. */
  method ProcessSubmission(svc: Services, sub: Submission) returns (calls: seq<Call>, result: Result<(), Exception>)
    ensures Step(calls, result) == ProcessNew(svc, sub)
  {
    var prompt := InitializePrompt(sub.title, sub.selftext);
    if !IsImageUrl(sub.url) {
      return [], Ok(());
    }
    var e := Enrich(svc, sub);
    if e.result.Err? {
      return e.calls, Err(e.result.error);
    }
    var info := e.result.value;
    var context := FormatImageContext(info.caption, info.celebrities, info.texts);
    var finalPrompt := FinalizePrompt(prompt, context);
    var more;
    more, result := RespondToPost(svc, sub.id, finalPrompt);
    calls := e.calls + more;
  }

  /** Generation, the retry with the temperature lowered in the parameter record,
      decoding, the print and the reply. */
  method RespondToPost(svc: Services, id: string, prompt: string) returns (calls: seq<Call>, result: Result<(), Exception>)
    ensures Step(calls, result) == Respond(svc, id, prompt)
  {
    var params := LlamaParams;
    var g := LlamaResponse(svc, LlmEndpoint, prompt, params);
    calls := g.calls;
    var text;
    match g.result {
      case Err(x) => return calls, Err(x);
      case Ok(t) => text := t;
    }
    if Dumps(text) == Removed {
      params := params.(temperatureTenths := RetryTemperatureTenths);
      g := LlamaResponse(svc, LlmEndpoint, prompt, params);
      calls := calls + g.calls;
      match g.result {
        case Err(x) => return calls, Err(x);
        case Ok(t) => text := t;
      }
    }
    var decoded := DecodeUnicodeStrings(Dumps(text));
    if decoded.Err? {
      return calls, Err(UnicodeDecodeError(decoded.error));
    }
    var comment := decoded.value;
    var printed := PrintComment(comment);
    if printed.Err? {
      return calls, Err(printed.error);
    }
    calls := calls + [Reply(id, comment)];
    var r := svc.reply(id, comment);
    if r.Err? {
      return calls, Err(r.error);
    }
    return calls, Ok(());
  }

  // ---------------------------------------------------------------------------
  // The loop

  /** The ledger after a run, the calls made, and the exception that ended it, if any. */
  datatype RunResult = RunResult(ledger: set<string>, calls: seq<Call>, error: Option<Exception>)

  /** The `for` loop over the listing inside the handler's `try`: the first
      exception ends the loop. */
  function Run(processed: set<string>, subs: seq<Submission>, svc: Services): (r: RunResult)
    ensures processed <= r.ledger
    decreases |subs|
  {
    if subs == [] then RunResult(processed, [], None)
    else
      var check := CheckAndMark(processed, subs[0].id);
      if !check.0 then Run(check.1, subs[1..], svc)
      else
        var s := ProcessNew(svc, subs[0]);
        if s.result.Err? then RunResult(check.1, s.calls, Some(s.result.error))
        else
          var rest := Run(check.1, subs[1..], svc);
          RunResult(rest.ledger, s.calls + rest.calls, rest.error)
  }

  /** `lambda_handler`: the Reddit client, then the listing of the hour's top posts,
      then the loop; every exception is caught and printed. */
  function Handler(processed: set<string>, client: Result<(), Exception>, listing: Result<seq<Submission>, Exception>, svc: Services): (r: RunResult)
    ensures client.Err? ==> r == RunResult(processed, [], Some(client.error))
    ensures r.error.None? ==> client.Ok? && listing.Ok?
    ensures processed <= r.ledger
  {
    if client.Err? then RunResult(processed, [], Some(client.error))
    else if listing.Err? then RunResult(processed, [], Some(listing.error))
    else Run(processed, listing.value, svc)
  }

  method LambdaHandler(ledger: SubmissionLedger, client: Result<(), Exception>, listing: Result<seq<Submission>, Exception>, svc: Services)
    returns (calls: seq<Call>, error: Option<Exception>)
    modifies ledger
    ensures Handler(old(ledger.processed), client, listing, svc) == RunResult(ledger.processed, calls, error)
  {
    calls := [];
    if client.Err? {
      return calls, Some(client.error);
    }
    if listing.Err? {
      return calls, Some(listing.error);
    }
    var subs := listing.value;
    ghost var start := ledger.processed;
    var i := 0;
    while i < |subs|
      invariant 0 <= i <= |subs|
      invariant var r := Run(ledger.processed, subs[i..], svc);
        Run(start, subs, svc) == RunResult(r.ledger, calls + r.calls, r.error)
    {
      var sub := subs[i];
      assert subs[i..][1..] == subs[i + 1..];
      var isNew := ledger.CheckAndProcess(sub.id);
      if isNew {
        var stepCalls, result := ProcessSubmission(svc, sub);
        calls := calls + stepCalls;
        if result.Err? {
          return calls, Some(result.error);
        }
      }
      i := i + 1;
    }
    return calls, None;
  }

  // ---------------------------------------------------------------------------
  // Lemmas about one submission

  /** Two checks of the same id in a row: true then false, and the ledger gains
      exactly that id. */
  lemma CheckTwice(processed: set<string>, id: string)
    requires id !in processed
    ensures var first := CheckAndMark(processed, id);
      var second := CheckAndMark(first.1, id);
      first.0 && !second.0 && second.1 == processed + {id}
      && forall other :: other != id ==> (other in second.1 <==> other in processed)
  {
  }

  /** The ids of the replies among `calls`, in order. */
  function ReplyIds(calls: seq<Call>): seq<string>
  {
    if calls == [] then []
    else (if calls[0].Reply? then [calls[0].submissionId] else []) + ReplyIds(calls[1..])
  }

  /** The generation calls among `calls`, in order. */
  function Generations(calls: seq<Call>): seq<Call>
    ensures forall i :: 0 <= i < |Generations(calls)| ==> Generations(calls)[i].Generate? && Generations(calls)[i] in calls
  {
    if calls == [] then []
    else (if calls[0].Generate? then [calls[0]] else []) + Generations(calls[1..])
  }

  lemma {:induction false} ReplyIdsAppend(a: seq<Call>, b: seq<Call>)
    ensures ReplyIds(a + b) == ReplyIds(a) + ReplyIds(b)
    decreases |a|
  {
    if a == [] {
      assert a + b == b;
    } else {
      assert (a + b)[0] == a[0];
      assert (a + b)[1..] == a[1..] + b;
      ReplyIdsAppend(a[1..], b);
    }
  }

  lemma {:induction false} GenerationsAppend(a: seq<Call>, b: seq<Call>)
    ensures Generations(a + b) == Generations(a) + Generations(b)
    decreases |a|
  {
    if a == [] {
      assert a + b == b;
    } else {
      assert (a + b)[0] == a[0];
      assert (a + b)[1..] == a[1..] + b;
      GenerationsAppend(a[1..], b);
    }
  }

  lemma EnrichHasNoReplyOrGeneration(svc: Services, sub: Submission)
    ensures ReplyIds(Enrich(svc, sub).calls) == [] && Generations(Enrich(svc, sub).calls) == []
  {
    EnrichTrace(svc, sub);
    var calls := Enrich(svc, sub).calls;
    if calls != [] {
      var path := TempFilename(sub.id, sub.url).value;
      var all := EnrichCalls(sub, path);
      assert forall k :: 0 <= k < |calls| ==> !calls[k].Reply? && !calls[k].Generate?;
      NoReplyNoGeneration(calls);
    }
  }

  lemma {:induction false} NoReplyNoGeneration(calls: seq<Call>)
    requires forall k :: 0 <= k < |calls| ==> !calls[k].Reply? && !calls[k].Generate?
    ensures ReplyIds(calls) == [] && Generations(calls) == []
    decreases |calls|
  {
    if calls != [] {
      NoReplyNoGeneration(calls[1..]);
    }
  }

  /** The retry never fires: the response step makes exactly one generation call,
      with the fixed parameters, and at most one reply, to the given id. */
  lemma RespondCalls(svc: Services, id: string, prompt: string)
    ensures var s := Respond(svc, id, prompt);
      (ReplyIds(s.calls) == [] || ReplyIds(s.calls) == [id])
      && Generations(s.calls) == [Generate(LlmEndpoint, prompt, LlamaParams)]
  {
    var g := GenerateWithRetry(svc, prompt);
    GenerateOnce(svc, prompt);
    if g.result.Ok? {
      var dec := DecodeUnicodeStrings(Dumps(g.result.value));
      if dec.Ok? {
        var r := [Reply(id, dec.value)];
        assert r[1..] == [];
        GenerationsAppend(g.calls, r);
        ReplyIdsAppend(g.calls, r);
      }
    }
  }

  /** Generation with retry is a single generation call with the fixed parameters. */
  lemma GenerateOnce(svc: Services, prompt: string)
    ensures var g := GenerateWithRetry(svc, prompt);
      g == LlamaResponse(svc, LlmEndpoint, prompt, LlamaParams)
      && Generations(g.calls) == [Generate(LlmEndpoint, prompt, LlamaParams)]
      && ReplyIds(g.calls) == []
  {
    var g := LlamaResponse(svc, LlmEndpoint, prompt, LlamaParams);
    if g.result.Ok? {
      DumpsIsNeverRemoved(g.result.value);
    }
    assert g.calls[1..] == [];
  }

  /** A new image submission gets at most one generation call, with the fixed
      parameters, and at most one reply, to its own id. */
  lemma ProcessNewCalls(svc: Services, sub: Submission)
    ensures var s := ProcessNew(svc, sub);
      (ReplyIds(s.calls) == [] || ReplyIds(s.calls) == [sub.id])
      && (forall c :: c in Generations(s.calls) ==> c.params == LlamaParams && c.endpoint == LlmEndpoint)
      && |Generations(s.calls)| <= 1
  {
    if IsImageUrl(sub.url) {
      var e := Enrich(svc, sub);
      EnrichHasNoReplyOrGeneration(svc, sub);
      if e.result.Ok? {
        var info := e.result.value;
        var prompt := FinalizePrompt(InitializePrompt(sub.title, sub.selftext), FormatImageContext(info.caption, info.celebrities, info.texts));
        RespondCalls(svc, sub.id, prompt);
        EnrichThenRespond(e.calls, Respond(svc, sub.id, prompt).calls, sub.id, prompt);
      }
    }
  }

  lemma EnrichThenRespond(e: seq<Call>, r: seq<Call>, id: string, prompt: string)
    requires ReplyIds(e) == [] && Generations(e) == []
    requires (ReplyIds(r) == [] || ReplyIds(r) == [id]) && Generations(r) == [Generate(LlmEndpoint, prompt, LlamaParams)]
    ensures (ReplyIds(e + r) == [] || ReplyIds(e + r) == [id])
      && (forall c :: c in Generations(e + r) ==> c.params == LlamaParams && c.endpoint == LlmEndpoint)
      && |Generations(e + r)| <= 1
  {
    GenerationsAppend(e, r);
    ReplyIdsAppend(e, r);
  }

  /** What a successful new image submission replies: the generated text for the
      prompt built from the post and its image, JSON-quoted and decoded back, so a
      comment `hi` is posted as `"hi"`, quotes included. The print before the reply
      only succeeds for text inside the Basic Multilingual Plane, whose UTF-16 units
      are its code points. */
  lemma ProcessNewReply(svc: Services, sub: Submission)
    requires IsImageUrl(sub.url) && ProcessNew(svc, sub).result.Ok?
    ensures var info := Enrich(svc, sub).result.value;
      var prompt := AssemblePrompt(sub.title, sub.selftext, info.caption, info.celebrities, info.texts);
      var text := LlamaResponse(svc, LlmEndpoint, prompt, LlamaParams).result.value;
      && IsBmp(text)
      && ProcessNew(svc, sub).calls
        == Enrich(svc, sub).calls + [Generate(LlmEndpoint, prompt, LlamaParams), Reply(sub.id, [0x22] + CodePoints(text) + [0x22])]
  {
    var info := Enrich(svc, sub).result.value;
    var prompt := AssemblePrompt(sub.title, sub.selftext, info.caption, info.celebrities, info.texts);
    RespondOk(svc, sub.id, prompt);
  }

  lemma RespondOk(svc: Services, id: string, prompt: string)
    requires Respond(svc, id, prompt).result.Ok?
    ensures var text := LlamaResponse(svc, LlmEndpoint, prompt, LlamaParams).result.value;
      && IsBmp(text)
      && Respond(svc, id, prompt).calls == [Generate(LlmEndpoint, prompt, LlamaParams), Reply(id, [0x22] + CodePoints(text) + [0x22])]
  {
    var text := LlamaResponse(svc, LlmEndpoint, prompt, LlamaParams).result.value;
    DumpsIsNeverRemoved(text);
    DecodeDumps(text);
    QuotedUnits(text);
  }

  /** A generated text with a character outside the Basic Multilingual Plane, an
      emoji say, is never posted: its JSON form escapes it as a surrogate pair, the
      decoding leaves two lone surrogates, and the print raises UnicodeEncodeError
      before the reply. */
  lemma AstralTextIsNotPosted(svc: Services, sub: Submission)
    requires IsImageUrl(sub.url) && Enrich(svc, sub).result.Ok?
    requires var info := Enrich(svc, sub).result.value;
      var g := LlamaResponse(svc, LlmEndpoint, AssemblePrompt(sub.title, sub.selftext, info.caption, info.celebrities, info.texts), LlamaParams);
      g.result.Ok? && !IsBmp(g.result.value)
    ensures ProcessNew(svc, sub).result.Err? && ProcessNew(svc, sub).result.error.UnicodeEncodeError?
    ensures var info := Enrich(svc, sub).result.value;
      var prompt := AssemblePrompt(sub.title, sub.selftext, info.caption, info.celebrities, info.texts);
      ProcessNew(svc, sub).calls == Enrich(svc, sub).calls + [Generate(LlmEndpoint, prompt, LlamaParams)]
  {
    var info := Enrich(svc, sub).result.value;
    var prompt := AssemblePrompt(sub.title, sub.selftext, info.caption, info.celebrities, info.texts);
    var text := LlamaResponse(svc, LlmEndpoint, prompt, LlamaParams).result.value;
    DumpsIsNeverRemoved(text);
    DecodeDumps(text);
    QuotedUnits(text);
  }

  // ---------------------------------------------------------------------------
  // Lemmas about the loop

  /** The ids of a sequence of submissions. */
  function Ids(subs: seq<Submission>): set<string>
  {
    set i | 0 <= i < |subs| :: subs[i].id
  }

  lemma IdsCons(subs: seq<Submission>)
    requires subs != []
    ensures Ids(subs) == {subs[0].id} + Ids(subs[1..])
  {
    assert forall i :: 0 < i < |subs| ==> subs[i] == subs[1..][i - 1];
    assert forall j :: 0 <= j < |subs| - 1 ==> subs[1..][j] == subs[j + 1];
  }

  /** The loop only adds ids: every id it reached is marked, even when its
      processing failed, and a run without exception marks them all. */
  lemma {:induction false} RunLedger(processed: set<string>, subs: seq<Submission>, svc: Services)
    ensures processed <= Run(processed, subs, svc).ledger <= processed + Ids(subs)
    ensures Run(processed, subs, svc).error.None? ==> Run(processed, subs, svc).ledger == processed + Ids(subs)
    ensures subs != [] ==> subs[0].id in Run(processed, subs, svc).ledger
    decreases |subs|
  {
    if subs != [] {
      IdsCons(subs);
      var check := CheckAndMark(processed, subs[0].id);
      RunLedger(check.1, subs[1..], svc);
    }
  }

  /** An id already in the ledger is skipped before any work: no call is made for it. */
  lemma SkipProcessed(processed: set<string>, sub: Submission, rest: seq<Submission>, svc: Services)
    requires sub.id in processed
    ensures Run(processed, [sub] + rest, svc) == Run(processed, rest, svc)
  {
    assert ([sub] + rest)[1..] == rest;
  }

  /** A new id with a non-image URL is marked and then skipped without any call. */
  lemma SkipNonImage(processed: set<string>, sub: Submission, rest: seq<Submission>, svc: Services)
    requires sub.id !in processed && !IsImageUrl(sub.url)
    ensures Run(processed, [sub] + rest, svc) == Run(processed + {sub.id}, rest, svc)
  {
    assert ([sub] + rest)[1..] == rest;
  }

  /** A submission whose processing fails stays marked, so a later run never retries it. */
  lemma FailedSubmissionIsNotRetried(processed: set<string>, sub: Submission, rest: seq<Submission>, later: seq<Submission>, svc: Services)
    requires sub.id !in processed && ProcessNew(svc, sub).result.Err?
    ensures Run(processed, [sub] + rest, svc) == RunResult(processed + {sub.id}, ProcessNew(svc, sub).calls, Some(ProcessNew(svc, sub).result.error))
    ensures Run(processed + {sub.id}, [sub] + later, svc) == Run(processed + {sub.id}, later, svc)
  {
    assert ([sub] + rest)[1..] == rest;
    SkipProcessed(processed + {sub.id}, sub, later, svc);
  }

  /** An exception ends the loop: the submissions after it make no difference. */
  lemma {:induction false} AbortEndsLoop(processed: set<string>, subs: seq<Submission>, more: seq<Submission>, svc: Services)
    requires Run(processed, subs, svc).error.Some?
    ensures Run(processed, subs + more, svc) == Run(processed, subs, svc)
    decreases |subs|
  {
    assert subs != [];
    assert (subs + more)[1..] == subs[1..] + more;
    assert (subs + more)[0] == subs[0];
    var check := CheckAndMark(processed, subs[0].id);
    if !check.0 || ProcessNew(svc, subs[0]).result.Ok? {
      AbortEndsLoop(check.1, subs[1..], more, svc);
    }
  }

  /** Replies go at most once to each id and never to an id already in the ledger;
      every generation call uses the fixed parameters. */
  lemma {:induction false} RunReplies(processed: set<string>, subs: seq<Submission>, svc: Services)
    ensures var r := Run(processed, subs, svc);
      var ids := ReplyIds(r.calls);
      (forall i :: 0 <= i < |ids| ==> ids[i] !in processed && ids[i] in r.ledger)
      && (forall i, j :: 0 <= i < j < |ids| ==> ids[i] != ids[j])
      && (forall c :: c in Generations(r.calls) ==> c.params == LlamaParams)
    decreases |subs|
  {
    if subs != [] {
      var check := CheckAndMark(processed, subs[0].id);
      RunReplies(check.1, subs[1..], svc);
      if check.0 {
        var s := ProcessNew(svc, subs[0]);
        ProcessNewCalls(svc, subs[0]);
        if s.result.Ok? {
          RunRepliesAfterNew(processed, subs, svc);
        } else {
          assert Run(processed, subs, svc) == RunResult(check.1, s.calls, Some(s.result.error));
          assert |ReplyIds(s.calls)| <= 1;
        }
      } else {
        assert Run(processed, subs, svc) == Run(check.1, subs[1..], svc);
      }
    }
  }

  /** The step of `RunReplies` for a new submission processed without error, given
      the claim for the rest of the listing. */
  lemma RunRepliesAfterNew(processed: set<string>, subs: seq<Submission>, svc: Services)
    requires subs != [] && subs[0].id !in processed && ProcessNew(svc, subs[0]).result.Ok?
    requires var r := Run(processed + {subs[0].id}, subs[1..], svc);
      var ids := ReplyIds(r.calls);
      (forall i :: 0 <= i < |ids| ==> ids[i] !in processed + {subs[0].id} && ids[i] in r.ledger)
      && (forall i, j :: 0 <= i < j < |ids| ==> ids[i] != ids[j])
      && (forall c :: c in Generations(r.calls) ==> c.params == LlamaParams)
    ensures var r := Run(processed, subs, svc);
      var ids := ReplyIds(r.calls);
      (forall i :: 0 <= i < |ids| ==> ids[i] !in processed && ids[i] in r.ledger)
      && (forall i, j :: 0 <= i < j < |ids| ==> ids[i] != ids[j])
      && (forall c :: c in Generations(r.calls) ==> c.params == LlamaParams)
  {
    var marked := processed + {subs[0].id};
    ProcessNewCalls(svc, subs[0]);
    RunLedger(marked, subs[1..], svc);
    RunAfterNew(processed, subs, svc);
    RepliesCombine(processed, subs[0].id, ProcessNew(svc, subs[0]).calls, Run(marked, subs[1..], svc));
  }

  /** The claim of `RunReplies` for the calls of one new submission followed by a run
      of the rest from the ledger that marks it. */
  lemma RepliesCombine(processed: set<string>, id: string, first: seq<Call>, rest: RunResult)
    requires id !in processed && processed + {id} <= rest.ledger
    requires (ReplyIds(first) == [] || ReplyIds(first) == [id])
    requires forall c :: c in Generations(first) ==> c.params == LlamaParams
    requires var ids := ReplyIds(rest.calls);
      (forall i :: 0 <= i < |ids| ==> ids[i] !in processed + {id} && ids[i] in rest.ledger)
      && (forall i, j :: 0 <= i < j < |ids| ==> ids[i] != ids[j])
      && (forall c :: c in Generations(rest.calls) ==> c.params == LlamaParams)
    ensures var ids := ReplyIds(first + rest.calls);
      (forall i :: 0 <= i < |ids| ==> ids[i] !in processed && ids[i] in rest.ledger)
      && (forall i, j :: 0 <= i < j < |ids| ==> ids[i] != ids[j])
      && (forall c :: c in Generations(first + rest.calls) ==> c.params == LlamaParams)
  {
    ReplyIdsAppend(first, rest.calls);
    GenerationsAppend(first, rest.calls);
    var restIds := ReplyIds(rest.calls);
    if ReplyIds(first) == [id] {
      DistinctCons(id, restIds);
    } else {
      assert ReplyIds(first) + restIds == restIds;
    }
  }

  /** `Run` on a listing whose first id is new and processed without error. */
  lemma RunAfterNew(processed: set<string>, subs: seq<Submission>, svc: Services)
    requires subs != [] && subs[0].id !in processed && ProcessNew(svc, subs[0]).result.Ok?
    ensures var rest := Run(processed + {subs[0].id}, subs[1..], svc);
      Run(processed, subs, svc) == RunResult(rest.ledger, ProcessNew(svc, subs[0]).calls + rest.calls, rest.error)
  {
  }

  /** Putting in front of distinct strings one that is not among them keeps them distinct. */
  lemma DistinctCons(x: string, xs: seq<string>)
    requires forall i :: 0 <= i < |xs| ==> xs[i] != x
    requires forall i, j :: 0 <= i < j < |xs| ==> xs[i] != xs[j]
    ensures forall i, j :: 0 <= i < j < |[x] + xs| ==> ([x] + xs)[i] != ([x] + xs)[j]
  {
    var ys := [x] + xs;
    forall i, j | 0 <= i < j < |ys| ensures ys[i] != ys[j] {
      assert ys[j] == xs[j - 1];
      if i > 0 {
        assert ys[i] == xs[i - 1];
      }
    }
  }
}
