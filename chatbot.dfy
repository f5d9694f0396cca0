/** helpdesk_faiss_chatbot.py: configuration, top-1 retrieval over the ticket
    corpus, the context cut, the command-line prompt, the call to the Ollama
    generate endpoint and the interactive loop. The embedding model, the FAISS
    index and the HTTP transport are not modelled: what they answer for one
    question is given as data (`Calls`), each answer possibly an exception. */
module Chatbot {
  import opened Python
  import opened PromptTemplate

  /** Characters of ticket text fed to the model. */
  const ContextLimit: int := 2000
  const OllamaModel: string := "llama3"
  const GenerateUrl: string := "http://localhost:11434/api/generate"

  /** `indices` from FAISS `search`: one row of neighbour ids per query vector. */
  type Neighbours = seq<seq<int>>

  /** The JSON body posted to the generate endpoint. */
  datatype GenerateRequest = GenerateRequest(url: string, model: string, prompt: string, stream: bool)

  /** What `response.json()` gives: not JSON at all, a JSON object, or some
      other JSON value (array, string, number, null) that cannot be indexed
      by a key. The messages are the ones the runtime raises with. */
  datatype Body =
    | Undecodable(decodeMessage: string)
    | JsonObject(fields: map<string, PyValue>)
    | JsonNonObject(typeErrorMessage: string)

  datatype HttpResponse = HttpResponse(status: int, text: string, json: Body)

  /** What the collaborators answer while one question is handled:
      `neighbours` is the outcome of `model.encode([query])` followed by
      `index.search(..., TOP_K)` (either may raise), `posted` the outcome of
      `requests.post` to the generate endpoint. The corpus, the `actionbody`
      column of the ticket table, is passed separately. */
  datatype Calls = Calls(neighbours: Result<Neighbours, Exception>, posted: Result<HttpResponse, Exception>)

  // ---------------------------------------------------------------------------
  // Retrieval
  // ---------------------------------------------------------------------------

  /** `df.iloc[i]`: positional row access, negative positions counting from
      the end; anything else raises IndexError. */
  function ILoc(corpus: seq<string>, i: int): (r: Result<string, Exception>)
    ensures r.Ok? <==> -|corpus| <= i < |corpus|
    ensures r.Ok? ==> r.value == corpus[if i < 0 then |corpus| + i else i]
    ensures r.Err? ==> r.error.kind == IndexError
  {
    if 0 <= i < |corpus| then Ok(corpus[i])
    else if -|corpus| <= i < 0 then Ok(corpus[|corpus| + i])
    else Err(Exception(IndexError, "single positional indexer is out-of-bounds"))
  }

  /** `indices[0][0]` followed by the row lookup: only the nearest neighbour
      of the first query row is used. */
  function TopHit(corpus: seq<string>, ids: Neighbours): (r: Result<string, Exception>)
    ensures r.Ok? ==> |ids| > 0 && |ids[0]| > 0 && r.value in corpus
    ensures |ids| > 0 && |ids[0]| > 0 ==> r == ILoc(corpus, ids[0][0])
    ensures |ids| == 0 || |ids[0]| == 0 ==> r.Err? && r.error.kind == IndexError
  {
    if |ids| == 0 || |ids[0]| == 0 then Err(Exception(IndexError, "index 0 is out of bounds for axis 0 with size 0"))
    else ILoc(corpus, ids[0][0])
  }

  /** Encode and search (given as `neighbours`), then look up the best
      neighbour's ticket text; the first failure is what comes back. */
  function FetchBest(corpus: seq<string>, neighbours: Result<Neighbours, Exception>): (r: Result<string, Exception>)
    ensures neighbours.Err? ==> r == Err(neighbours.error)
    ensures r.Ok? ==> r.value in corpus
  {
    match neighbours
    case Err(e) => Err(e)
    case Ok(ids) => TopHit(corpus, ids)
  }

  /** Which ticket is retrieved depends only on the top-1 id: two searches
      that agree on `indices[0][0]` retrieve the same text, whatever the other
      neighbours are. */
  lemma TopHitOnlyFirst(corpus: seq<string>, ids1: Neighbours, ids2: Neighbours)
    requires |ids1| > 0 && |ids1[0]| > 0 && |ids2| > 0 && |ids2[0]| > 0
    requires ids1[0][0] == ids2[0][0]
    ensures TopHit(corpus, ids1) == TopHit(corpus, ids2)
  {
  }

  /** `if len(best_text) > LLM_CONTEXT_LIMIT: best_text = best_text[:LLM_CONTEXT_LIMIT]`. */
  function TruncateContext(text: string, limit: int): (r: string)
    ensures r <= text
    ensures 0 <= limit < |text| ==> |r| == limit
    ensures |text| <= limit ==> r == text
  {
    if |text| > limit then SlicePrefix(text, limit) else text
  }

  // ---------------------------------------------------------------------------
  // The command-line prompt
  // ---------------------------------------------------------------------------

  const CliTemplate: Template := Template(
    "\nYou are an expert IT helpdesk agent.\n\nThe following is a historical helpdesk ticket conversation:\n---\n",
    "\"\n\nBased on the above, summarize the issue and resolution, then write a helpful and friendly support reply for the user.\n")

  // ---------------------------------------------------------------------------
  // generate_llama_response
  // ---------------------------------------------------------------------------

  /** The request `generate_llama_response` posts: the configured model, the
      prompt, and streaming switched off. */
  function RequestFor(prompt: string): (r: GenerateRequest)
    ensures r.prompt == prompt && !r.stream
  {
    GenerateRequest(GenerateUrl, OllamaModel, prompt, false)
  }

  const ErrorPrefix: string := "Ollama API error: "

  /** The RuntimeError message for a non-200 reply. */
  function ErrorMessage(status: int, text: string): string {
    ErrorPrefix + Decimal(status) + " - " + text
  }

  /** Reads the status code and the body text back out of an error message. */
  function ParseErrorMessage(m: string): Option<(int, string)> {
    if |m| < |ErrorPrefix| || m[..|ErrorPrefix|] != ErrorPrefix then None
    else
      var rest := m[|ErrorPrefix|..];
      var k := DigitPrefixLength(rest);
      if k == 0 || |rest| < k + 3 || rest[k..k + 3] != " - " then None
      else Some((DigitsValue(rest[..k]), rest[k + 3..]))
  }

  /** The error message carries both the status code and the body text. */
  lemma {:induction false} ErrorMessageRoundTrip(status: int, text: string)
    requires status >= 0
    ensures ParseErrorMessage(ErrorMessage(status, text)) == Some((status, text))
  {
    var d := NatDecimal(status);
    NatDecimalRoundTrip(status);
    var m := ErrorMessage(status, text);
    assert m == ErrorPrefix + (d + " - " + text);
    var rest := m[|ErrorPrefix|..];
    assert rest == d + " - " + text;
    DigitPrefixOf(d, " - " + text);
    assert rest[..|d|] == d;
    assert rest[|d|..|d| + 3] == " - ";
    assert rest[|d| + 3..] == text;
  }

  lemma {:induction false} DigitPrefixOf(d: string, s: string)
    requires forall k :: 0 <= k < |d| ==> IsDigit(d[k])
    requires s != [] && !IsDigit(s[0])
    ensures DigitPrefixLength(d + s) == |d|
    decreases |d|
  {
    if d != [] {
      assert (d + s)[1..] == d[1..] + s;
      DigitPrefixOf(d[1..], s);
    } else {
      assert d + s == s;
    }
  }

  /** What `generate_llama_response` does with the HTTP reply: on 200,
      `response.json()["response"].strip()`, raising whatever that raises;
      on any other status a RuntimeError naming status and body. */
  function DecodeReply(resp: HttpResponse): (r: Result<string, Exception>)
    ensures r.Ok? <==> resp.status == 200 && resp.json.JsonObject? &&
                       "response" in resp.json.fields && resp.json.fields["response"].PyStr?
    ensures r.Ok? ==> r.value == Strip(resp.json.fields["response"].s)
    ensures resp.status != 200 ==> r == Err(Exception(RuntimeError, ErrorMessage(resp.status, resp.text)))
  {
    if resp.status == 200 then
      match resp.json
      case Undecodable(m) => Err(Exception(ValueError, m))
      case JsonNonObject(m) => Err(Exception(TypeError, m))
      case JsonObject(fields) =>
        if "response" !in fields then Err(Exception(KeyError, "'response'"))
        else
          match fields["response"]
          case PyStr(s) => Ok(Strip(s))
          case PyNone => Err(Exception(AttributeError, "'NoneType' object has no attribute 'strip'"))
          case PyOther(_, tn) => Err(Exception(AttributeError, "'" + tn + "' object has no attribute 'strip'"))
    else
      Err(Exception(RuntimeError, ErrorMessage(resp.status, resp.text)))
  }

  /** `generate_llama_response(prompt)` once the request `RequestFor(prompt)`
      has been posted with outcome `posted`: a failed POST raises as it is. */
  function GenerateLlamaResponse(posted: Result<HttpResponse, Exception>): Result<string, Exception> {
    match posted
    case Err(e) => Err(e)
    case Ok(resp) => DecodeReply(resp)
  }

  /** A reply exists only for status 200, and it has no surrounding whitespace. */
  lemma ReplyOnlyOn200(resp: HttpResponse)
    ensures DecodeReply(resp).Ok? ==> resp.status == 200
    ensures DecodeReply(resp).Ok? ==> Strip(DecodeReply(resp).value) == DecodeReply(resp).value
  {
    if DecodeReply(resp).Ok? {
      StripIdempotent(resp.json.fields["response"].s);
    }
  }

  /** Any other status raises a RuntimeError from which the status code and
      the body text can both be read back; no reply is returned. */
  lemma NonOkStatusRaises(resp: HttpResponse)
    requires resp.status != 200 && resp.status >= 0
    ensures DecodeReply(resp).Err? && DecodeReply(resp).error.kind == RuntimeError
    ensures ParseErrorMessage(DecodeReply(resp).error.message) == Some((resp.status, resp.text))
  {
    ErrorMessageRoundTrip(resp.status, resp.text);
  }

  // ---------------------------------------------------------------------------
  // search_helpdesk
  // ---------------------------------------------------------------------------

  /** What one question produces: the request posted and the reply printed. */
  datatype Turn = Turn(query: string, request: GenerateRequest, reply: string)

  /** A question that raised: the exception, and the request that had been
      posted before it was raised, if any. */
  datatype Crash = Crash(error: Exception, request: Option<GenerateRequest>)

  /** `search_helpdesk(query)`: retrieval and generation failures are not
      caught here and reach the caller. The prompt is posted before the
      status is looked at, so a generation failure still carries it. */
  function SearchHelpdesk(corpus: seq<string>, query: string, io: Calls): Result<Turn, Crash> {
    match FetchBest(corpus, io.neighbours)
    case Err(e) => Err(Crash(e, None))
    case Ok(best) =>
      var request := RequestFor(Render(CliTemplate, TruncateContext(best, ContextLimit), query));
      match GenerateLlamaResponse(io.posted)
      case Err(e) => Err(Crash(e, Some(request)))
      case Ok(reply) => Ok(Turn(query, request, reply))
  }

  /** The request a question posted, whether it was then answered or not. */
  function Posted(r: Result<Turn, Crash>): Option<GenerateRequest> {
    match r
    case Ok(t) => Some(t.request)
    case Err(c) => c.request
  }

  /** A retrieval failure propagates out of search_helpdesk unchanged, and
      nothing is posted. */
  lemma SearchHelpdeskPropagatesRetrievalFailure(corpus: seq<string>, query: string, io: Calls, e: Exception)
    requires FetchBest(corpus, io.neighbours) == Err(e)
    ensures SearchHelpdesk(corpus, query, io) == Err(Crash(e, None))
  {
  }

  /** Once retrieval succeeds the prompt is posted; the turn is answered
      exactly when generation returns a reply, and that reply is the one
      printed; otherwise the generation failure (a failed POST, a non-200
      status or a malformed body) propagates unchanged. */
  lemma SearchHelpdeskGeneration(corpus: seq<string>, query: string, io: Calls)
    requires FetchBest(corpus, io.neighbours).Ok?
    ensures var r := SearchHelpdesk(corpus, query, io); var g := GenerateLlamaResponse(io.posted);
      Posted(r).Some? && (r.Ok? <==> g.Ok?) &&
      (r.Ok? ==> r.value.query == query && r.value.reply == g.value) &&
      (r.Err? ==> r.error.error == g.error)
  {
  }

  /** The request posted carries, between its `---` lines, the first at most
      2000 characters of the retrieved ticket (all of it when it is no
      longer) and then the question verbatim in quotes; both can be read back
      from it when the ticket text does not contain the separator. Streaming
      is switched off. */
  lemma {:induction false} SearchHelpdeskPrompt(corpus: seq<string>, query: string, io: Calls)
    requires FetchBest(corpus, io.neighbours).Ok?
    ensures Posted(SearchHelpdesk(corpus, query, io)).Some?
    ensures var best := FetchBest(corpus, io.neighbours).value;
      var req := Posted(SearchHelpdesk(corpus, query, io)).value;
      var ctx := TruncateContext(best, ContextLimit);
      ctx <= best && |ctx| <= ContextLimit && (|best| <= ContextLimit ==> ctx == best) &&
      req.prompt == Render(CliTemplate, ctx, query) && !req.stream &&
      (!Contains(best, Separator) ==> Parse(CliTemplate, req.prompt) == Some((ctx, query)))
  {
    var best := FetchBest(corpus, io.neighbours).value;
    var ctx := TruncateContext(best, ContextLimit);
    if !Contains(best, Separator) {
      NoSeparatorInPrefix(best, ctx);
      ParseRender(CliTemplate, ctx, query);
    }
  }

  /** A prefix of a text without the separator has none either. */
  lemma NoSeparatorInPrefix(s: string, p: string)
    requires p <= s && !Contains(s, Separator)
    ensures !Contains(p, Separator)
  {
    if Contains(p, Separator) {
      var j :| 0 <= j <= |p| && OccursAt(p, Separator, j);
      assert s[j..j + |Separator|] == p[j..j + |Separator|];
      assert OccursAt(s, Separator, j);
    }
  }

  // ---------------------------------------------------------------------------
  // The command-line loop
  // ---------------------------------------------------------------------------

  /** `user_query.lower() == "exit"`. */
  predicate IsExit(line: string) {
    Lower(line) == "exit"
  }

  /** The loop stops on exactly the four-letter word exit in any letter case. */
  lemma ExitIff(line: string)
    ensures IsExit(line) <==>
      |line| == 4 && line[0] in "eE" && line[1] in "xX" && line[2] in "iI" && line[3] in "tT"
  {
    if |line| == 4 {
      var l := Lower(line);
      assert l == [l[0], l[1], l[2], l[3]];
    }
  }

  /** Why the loop ended: `exit` was typed, input ran out (input() raises
      EOFError), or search_helpdesk raised. */
  datatype CliStop = ExitTyped | InputExhausted | Crashed(crash: Crash)

  datatype CliRun = CliRun(turns: seq<Turn>, stop: CliStop)

  /** One line typed at the prompt, with what the collaborators answer if it
      is handled as a question. */
  datatype InputLine = InputLine(text: string, io: Calls)

  /** The loop over a given sequence of input lines. */
  function CliSession(corpus: seq<string>, inputs: seq<InputLine>): CliRun
    decreases |inputs|
  {
    if inputs == [] then CliRun([], InputExhausted)
    else if IsExit(inputs[0].text) then CliRun([], ExitTyped)
    else
      match SearchHelpdesk(corpus, inputs[0].text, inputs[0].io)
      case Err(e) => CliRun([], Crashed(e))
      case Ok(t) =>
        var rest := CliSession(corpus, inputs[1..]);
        CliRun([t] + rest.turns, rest.stop)
  }

  /** One step of the session from line `i` on. */
  lemma CliSessionStep(corpus: seq<string>, inputs: seq<InputLine>, i: nat)
    requires i < |inputs|
    ensures var here := CliSession(corpus, inputs[i..]);
      var r := SearchHelpdesk(corpus, inputs[i].text, inputs[i].io);
      var next := CliSession(corpus, inputs[i + 1..]);
      (IsExit(inputs[i].text) ==> here == CliRun([], ExitTyped)) &&
      (!IsExit(inputs[i].text) && r.Err? ==> here == CliRun([], Crashed(r.error))) &&
      (!IsExit(inputs[i].text) && r.Ok? ==> here == CliRun([r.value] + next.turns, next.stop))
  {
    assert inputs[i..][0] == inputs[i];
    assert inputs[i..][1..] == inputs[i + 1..];
  }

  /** The `while True` loop: read a line, stop on exit, otherwise answer it. */
  method RunCli(corpus: seq<string>, inputs: seq<InputLine>) returns (run: CliRun)
    ensures run == CliSession(corpus, inputs)
  {
    var turns: seq<Turn> := [];
    var i := 0;
    assert inputs[0..] == inputs;
    while true
      invariant 0 <= i <= |inputs|
      invariant CliSession(corpus, inputs) ==
        CliRun(turns + CliSession(corpus, inputs[i..]).turns, CliSession(corpus, inputs[i..]).stop)
      decreases |inputs| - i
    {
      if i == |inputs| {
        assert inputs[i..] == [];
        return CliRun(turns, InputExhausted);
      }
      var line := inputs[i];
      CliSessionStep(corpus, inputs, i);
      if IsExit(line.text) {
        return CliRun(turns, ExitTyped);
      }
      var r := SearchHelpdesk(corpus, line.text, line.io);
      if r.Err? {
        return CliRun(turns, Crashed(r.error));
      }
      turns := turns + [r.value];
      i := i + 1;
    }
  }

  /** Every line before the stop is answered in order by its own
      search_helpdesk call, none of them is an exit line, the loop stops at an
      exit line exactly when it says so, and a crash is the failure of the
      first unanswered line. */
  lemma {:induction false} CliSessionAnswersUntilExit(corpus: seq<string>, inputs: seq<InputLine>)
    ensures var run := CliSession(corpus, inputs);
      |run.turns| <= |inputs| &&
      (forall k :: 0 <= k < |run.turns| ==> run.turns[k].query == inputs[k].text && !IsExit(inputs[k].text)) &&
      (run.stop == ExitTyped <==> |run.turns| < |inputs| && IsExit(inputs[|run.turns|].text)) &&
      (run.stop == InputExhausted <==> |run.turns| == |inputs|)
    ensures var run := CliSession(corpus, inputs);
      forall k :: 0 <= k < |run.turns| ==> SearchHelpdesk(corpus, inputs[k].text, inputs[k].io) == Ok(run.turns[k])
    ensures var run := CliSession(corpus, inputs);
      run.stop.Crashed? ==>
        |run.turns| < |inputs| && !IsExit(inputs[|run.turns|].text) &&
        SearchHelpdesk(corpus, inputs[|run.turns|].text, inputs[|run.turns|].io) == Err(run.stop.crash)
    decreases |inputs|
  {
    if inputs != [] && !IsExit(inputs[0].text) && SearchHelpdesk(corpus, inputs[0].text, inputs[0].io).Ok? {
      CliSessionAnswersUntilExit(corpus, inputs[1..]);
      var rest := CliSession(corpus, inputs[1..]);
      var run := CliSession(corpus, inputs);
      assert run.turns == [SearchHelpdesk(corpus, inputs[0].text, inputs[0].io).value] + rest.turns;
      forall k | 0 < k < |run.turns|
        ensures run.turns[k].query == inputs[k].text && !IsExit(inputs[k].text)
        ensures SearchHelpdesk(corpus, inputs[k].text, inputs[k].io) == Ok(run.turns[k])
      {
        assert run.turns[k] == rest.turns[k - 1] && inputs[1..][k - 1] == inputs[k];
      }
      assert inputs[1..][|rest.turns|..] == inputs[|run.turns|..];
      if run.stop.Crashed? {
        assert inputs[1..][|rest.turns|] == inputs[|run.turns|];
      }
    }
  }
}
