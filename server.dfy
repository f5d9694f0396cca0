/** server.py: the HTTP service around the helpdesk pipeline. Retrieval
    failures degrade to an empty history, the prompt is a fixed template, and
    /chat replays the finished reply as 24-character lines. */
module Server {
  import opened Python
  import opened PromptTemplate
  import Chatbot

  // ---------------------------------------------------------------------------
  // retrieve_history
  // ---------------------------------------------------------------------------

  /** The ticket text retrieval finds, or "" when any step raises. */
  function HistoryOrEmpty(corpus: seq<string>, neighbours: Result<Chatbot.Neighbours, Exception>): (h: string)
    ensures Chatbot.FetchBest(corpus, neighbours).Err? ==> h == ""
    ensures Chatbot.FetchBest(corpus, neighbours).Ok? ==> h == Chatbot.FetchBest(corpus, neighbours).value
  {
    match Chatbot.FetchBest(corpus, neighbours)
    case Ok(t) => t
    case Err(_) => ""
  }

  /** `retrieve_history(query)` with LLM_CONTEXT_LIMIT = `limit`: never raises,
      cuts a non-empty history to `history[:limit]` when the limit is truthy. */
  function RetrieveHistory(corpus: seq<string>, neighbours: Result<Chatbot.Neighbours, Exception>, limit: int): (h: string)
    ensures h <= HistoryOrEmpty(corpus, neighbours)
    ensures Chatbot.FetchBest(corpus, neighbours).Err? ==> h == ""
    ensures limit > 0 ==> |h| <= limit
    ensures limit > 0 && |HistoryOrEmpty(corpus, neighbours)| > limit ==> |h| == limit
    ensures limit == 0 || |HistoryOrEmpty(corpus, neighbours)| <= limit ==> h == HistoryOrEmpty(corpus, neighbours)
  {
    var history := HistoryOrEmpty(corpus, neighbours);
    if history != "" && limit != 0 then SlicePrefix(history, limit) else history
  }

  /** For a positive limit, the server's cut and the command-line cut agree. */
  lemma RetrieveHistoryMatchesCliCut(corpus: seq<string>, neighbours: Result<Chatbot.Neighbours, Exception>, limit: int)
    requires limit > 0
    ensures RetrieveHistory(corpus, neighbours, limit) == Chatbot.TruncateContext(HistoryOrEmpty(corpus, neighbours), limit)
  {
  }

  /** They part ways on a zero limit: the server keeps the whole text (0 is
      falsy), the command-line cut `text[:0]` keeps nothing. */
  lemma ZeroLimitDiffers(corpus: seq<string>, neighbours: Result<Chatbot.Neighbours, Exception>)
    ensures RetrieveHistory(corpus, neighbours, 0) == HistoryOrEmpty(corpus, neighbours)
    ensures Chatbot.TruncateContext(HistoryOrEmpty(corpus, neighbours), 0) == ""
  {
  }

  // ---------------------------------------------------------------------------
  // build_prompt
  // ---------------------------------------------------------------------------

  const RoleLine: string := "You are an expert IT helpdesk agent.\n"

  const Instructions: string :=
    "Based on the above, summarize the issue and resolution (if " +
    "applicable), then write a helpful and friendly support reply " +
    "for the user. If the history is not directly relevant, still " +
    "provide a best-effort, step-by-step IT troubleshooting " +
    "answer.\n"

  /** The line above and below the history. */
  const RuleLine: string := "---\n"

  /** What the separator ends with: the question's introduction and its
      opening quote. */
  const AskLine: string := "A user now asks: \""

  const ServerTemplate: Template := Template(
    RoleLine + "\nThe following is a historical helpdesk ticket conversation:\n" + RuleLine,
    "\"\n\n" + Instructions)

  /** `build_prompt(history, user_msg)`. */
  function BuildPrompt(history: string, userMsg: string): string {
    Render(ServerTemplate, history, userMsg)
  }

  /** The fixed text around the history and the question: the head opens
      with the role line and ends in a `---` line, the separator closes the
      history with a second `---` line and opens `A user now asks: "`, and
      the tail closes the quote before the instructions. */
  lemma ServerTemplateShape()
    ensures |RoleLine| <= |ServerTemplate.head| && ServerTemplate.head[..|RoleLine|] == RoleLine
    ensures |RuleLine| <= |ServerTemplate.head| && ServerTemplate.head[|ServerTemplate.head| - |RuleLine|..] == RuleLine
    ensures |RuleLine| + 1 <= |Separator| && Separator[..|RuleLine| + 1] == "\n" + RuleLine
    ensures |AskLine| <= |Separator| && Separator[|Separator| - |AskLine|..] == AskLine
    ensures |Instructions| < |ServerTemplate.tail| && ServerTemplate.tail[0] == '"'
    ensures ServerTemplate.tail[|ServerTemplate.tail| - |Instructions|..] == Instructions
  {
    var intro := RoleLine + "\nThe following is a historical helpdesk ticket conversation:\n";
    assert ServerTemplate.head == intro + RuleLine;
    assert ServerTemplate.head[..|RoleLine|] == intro[..|RoleLine|];
  }

  /** A rendered prompt opens with whatever its head opens with. */
  lemma {:induction false} TemplateOpening(t: Template, history: string, userMsg: string, role: string)
    requires |role| <= |t.head| && t.head[..|role|] == role
    ensures Render(t, history, userMsg)[..|role|] == role
  {
    var p := Render(t, history, userMsg);
    RenderEmbedsVerbatim(t, history, userMsg);
    assert p[..|role|] == p[..|t.head|][..|role|];
  }

  /** The history stands between the `rule` line that ends the head and the
      line break and `rule` that open the separator. */
  lemma {:induction false} TemplateHistory(t: Template, history: string, userMsg: string, rule: string)
    requires |rule| <= |t.head| && t.head[|t.head| - |rule|..] == rule
    requires |rule| + 1 <= |Separator| && Separator[..|rule| + 1] == "\n" + rule
    ensures var p := Render(t, history, userMsg); var a := |t.head|;
      p[a - |rule|..a] == rule && p[a..a + |history|] == history &&
      p[a + |history|..a + |history| + |rule| + 1] == "\n" + rule
  {
    var p := Render(t, history, userMsg);
    var a := |t.head|;
    RenderEmbedsVerbatim(t, history, userMsg);
    assert p[a - |rule|..a] == p[..a][a - |rule|..];
    assert p[a + |history|..a + |history| + |rule| + 1] == p[a + |history|..a + |history| + |Separator|][..|rule| + 1];
  }

  /** The question stands between `ask`, which ends the separator, and the
      quote that opens the tail; the tail's last `instr` characters close the
      prompt. */
  lemma {:induction false} TemplateQuestion(t: Template, history: string, userMsg: string, ask: string, instr: string)
    requires |ask| <= |Separator| && Separator[|Separator| - |ask|..] == ask
    requires |instr| < |t.tail| && t.tail[0] == '"' && t.tail[|t.tail| - |instr|..] == instr
    ensures var p := Render(t, history, userMsg); var b := |t.head| + |history| + |Separator|;
      p[b - |ask|..b] == ask && p[b..b + |userMsg|] == userMsg && p[b + |userMsg|] == '"' &&
      p[|p| - |instr|..] == instr
  {
    var p := Render(t, history, userMsg);
    var a := |t.head| + |history|;
    var b := a + |Separator|;
    RenderEmbedsVerbatim(t, history, userMsg);
    assert p[b - |ask|..b] == p[a..b][|Separator| - |ask|..];
    assert p[b + |userMsg|] == p[b + |userMsg|..][0];
    assert p[|p| - |instr|..] == p[b + |userMsg|..][|t.tail| - |instr|..];
  }

  /** The prompt opens with the role line. */
  lemma BuildPromptOpening(history: string, userMsg: string)
    ensures BuildPrompt(history, userMsg)[..|RoleLine|] == RoleLine
  {
    ServerTemplateShape();
    TemplateOpening(ServerTemplate, history, userMsg, RoleLine);
  }

  /** The history stands alone between a `---` line before it and a `---`
      line after it. */
  lemma BuildPromptHistory(history: string, userMsg: string)
    ensures var p := BuildPrompt(history, userMsg); var a := |ServerTemplate.head|;
      p[a - |RuleLine|..a] == RuleLine && p[a..a + |history|] == history &&
      p[a + |history|..a + |history| + |RuleLine| + 1] == "\n" + RuleLine
  {
    ServerTemplateShape();
    TemplateHistory(ServerTemplate, history, userMsg, RuleLine);
  }

  /** The question follows `A user now asks: ` inside double quotes. */
  lemma BuildPromptQuestion(history: string, userMsg: string)
    ensures var p := BuildPrompt(history, userMsg); var b := |ServerTemplate.head| + |history| + |Separator|;
      p[b - |AskLine|..b] == AskLine && p[b..b + |userMsg|] == userMsg && p[b + |userMsg|] == '"'
  {
    ServerTemplateShape();
    TemplateQuestion(ServerTemplate, history, userMsg, AskLine, Instructions);
  }

  /** The instructions close the prompt. */
  lemma BuildPromptClosing(history: string, userMsg: string)
    ensures var p := BuildPrompt(history, userMsg); p[|p| - |Instructions|..] == Instructions
  {
    var p := BuildPrompt(history, userMsg);
    var t := ServerTemplate.tail;
    RenderEmbedsVerbatim(ServerTemplate, history, userMsg);
    assert t == "\"\n\n" + Instructions;
    assert p[|p| - |Instructions|..] == p[|p| - |t|..][3..];
  }

  /** History and question can be read back from the prompt whenever the
      history does not contain the separator. */
  lemma BuildPromptParses(history: string, userMsg: string)
    requires !Contains(history, Separator)
    ensures Parse(ServerTemplate, BuildPrompt(history, userMsg)) == Some((history, userMsg))
  {
    ParseRender(ServerTemplate, history, userMsg);
  }

  // ---------------------------------------------------------------------------
  // chunk_text and stream_from_full_text
  // ---------------------------------------------------------------------------

  /** The pieces `s[i:i+n]` for i in range(0, len(s), n), for n > 0. */
  function Chunks(s: string, n: int): seq<string>
    requires n > 0
    decreases |s|
  {
    if s == [] then []
    else if |s| <= n then [s]
    else [s[..n]] + Chunks(s[n..], n)
  }

  function Concat(pieces: seq<string>): string {
    if pieces == [] then [] else pieces[0] + Concat(pieces[1..])
  }

  /** The pieces put back together are the original string. */
  lemma {:induction false} ChunksConcat(s: string, n: int)
    requires n > 0
    ensures Concat(Chunks(s, n)) == s
    decreases |s|
  {
    if |s| > n {
      ChunksConcat(s[n..], n);
      assert s[..n] + s[n..] == s;
    }
  }

  /** Every piece holds 1 to n characters, all but the last exactly n, and
      there are ceil(|s| / n) of them: none for the empty string. */
  lemma {:induction false} ChunksShape(s: string, n: int)
    requires n > 0
    ensures var c := Chunks(s, n);
      (c == [] <==> s == []) &&
      (forall k :: 0 <= k < |c| ==> 1 <= |c[k]| <= n) &&
      (forall k :: 0 <= k < |c| - 1 ==> |c[k]| == n) &&
      (s != [] ==> (|c| - 1) * n < |s| <= |c| * n)
    decreases |s|
  {
    var c := Chunks(s, n);
    if |s| > n {
      ChunksShape(s[n..], n);
      var rest := Chunks(s[n..], n);
      assert c == [s[..n]] + rest;
      forall k | 0 < k < |c| ensures c[k] == rest[k - 1] { }
      MulSucc(|rest|, n);
    }
  }

  lemma MulSucc(m: int, n: int)
    ensures (m + 1) * n == m * n + n
  {
  }

  /** Unfolding Chunks at an offset: the piece at i, then the rest. */
  lemma ChunksAt(s: string, i: int, n: int)
    requires n > 0 && 0 <= i < |s|
    ensures var e := if i + n < |s| then i + n else |s|;
      Chunks(s[i..], n) == [s[i..e]] + Chunks(s[e..], n)
  {
    if i + n < |s| {
      assert s[i..][..n] == s[i..i + n];
      assert s[i..][n..] == s[i + n..];
    } else {
      assert s[i..] != [] && s[i..|s|] == s[i..];
      assert s[|s|..] == [];
    }
  }

  /** `chunk_text(s, n)`, drained: range() refuses a zero step, a negative
      step gives no pieces. */
  method ChunkText(s: string, n: int) returns (r: Result<seq<string>, Exception>)
    ensures n == 0 ==> r == Err(Exception(ValueError, "range() arg 3 must not be zero"))
    ensures n < 0 ==> r == Ok([])
    ensures n > 0 ==> r == Ok(Chunks(s, n))
  {
    if n == 0 {
      return Err(Exception(ValueError, "range() arg 3 must not be zero"));
    }
    if n < 0 {
      return Ok([]);
    }
    var pieces: seq<string> := [];
    var i := 0;
    while i < |s|
      invariant 0 <= i
      invariant i < |s| ==> pieces + Chunks(s[i..], n) == Chunks(s, n)
      invariant i >= |s| ==> pieces == Chunks(s, n)
      decreases |s| - i
    {
      var e := if i + n < |s| then i + n else |s|;
      ChunksAt(s, i, n);
      pieces := pieces + [s[i..e]];
      if e == |s| {
        assert Chunks(s[e..], n) == [];
      }
      i := i + n;
    }
    assert s[0..] == s;
    return Ok(pieces);
  }

  /** Each piece followed by one newline. */
  function WithNewlines(pieces: seq<string>): (lines: seq<string>)
    ensures |lines| == |pieces|
    ensures forall k :: 0 <= k < |pieces| ==> lines[k] == pieces[k] + "\n"
  {
    seq(|pieces|, k requires 0 <= k < |pieces| => pieces[k] + "\n")
  }

  /** Each line without its final character. */
  function DropNewlines(lines: seq<string>): seq<string>
    requires forall k :: 0 <= k < |lines| ==> lines[k] != []
  {
    seq(|lines|, k requires 0 <= k < |lines| => lines[k][..|lines[k]| - 1])
  }

  /** What stream_from_full_text(s) yields. */
  function StreamLines(s: string): seq<string> {
    WithNewlines(Chunks(s, 24))
  }

  /** `stream_from_full_text(s)`, drained. */
  method StreamFromFullText(s: string) returns (lines: seq<string>)
    ensures lines == StreamLines(s)
  {
    var r := ChunkText(s, 24);
    var pieces := r.value;
    lines := [];
    for k := 0 to |pieces|
      invariant |lines| == k
      invariant forall j :: 0 <= j < k ==> lines[j] == pieces[j] + "\n"
    {
      lines := lines + [pieces[k] + "\n"];
    }
  }

  /** Every line is one 24-character piece (the last may be shorter) plus a
      newline, and dropping the newlines and joining gives the text back. */
  lemma StreamLinesRoundTrip(s: string)
    ensures var lines := StreamLines(s);
      (forall k :: 0 <= k < |lines| ==> |lines[k]| >= 2 && lines[k][|lines[k]| - 1] == '\n' && |lines[k]| <= 25) &&
      Concat(DropNewlines(lines)) == s
  {
    var pieces := Chunks(s, 24);
    ChunksShape(s, 24);
    ChunksConcat(s, 24);
    var lines := StreamLines(s);
    assert DropNewlines(lines) == pieces by {
      forall k | 0 <= k < |pieces| ensures DropNewlines(lines)[k] == pieces[k] {
        assert lines[k][..|lines[k]| - 1] == pieces[k];
      }
    }
  }

  // ---------------------------------------------------------------------------
  // The routes
  // ---------------------------------------------------------------------------

  /** An HTTPException (or the framework's 500 for an uncaught exception). */
  datatype HttpError = HttpError(status: int, detail: string)

  /** Retrieval and prompt for an accepted, stripped message. */
  function PromptFor(corpus: seq<string>, neighbours: Result<Chatbot.Neighbours, Exception>, userMsg: string): string {
    BuildPrompt(RetrieveHistory(corpus, neighbours, Chatbot.ContextLimit), userMsg)
  }

  /** What a route posts to the model server, if anything, and what it
      answers. */
  datatype Handled<+T> = Handled(request: Option<Chatbot.GenerateRequest>, response: Result<T, HttpError>)

  /** POST /query with body {"message": message}. */
  function PostQuery(corpus: seq<string>, io: Chatbot.Calls, message: string): Handled<string> {
    var userMsg := Strip(message);
    if userMsg == "" then Handled(None, Err(HttpError(400, "Missing 'message'")))
    else
      var request := Chatbot.RequestFor(PromptFor(corpus, io.neighbours, userMsg));
      match Chatbot.GenerateLlamaResponse(io.posted)
      case Ok(reply) => Handled(Some(request), Ok(reply))
      case Err(e) => Handled(Some(request), Err(HttpError(500, "LLM error: " + e.message)))
  }

  /** A blank message is refused with 400 and nothing is posted, whatever the
      collaborators would answer; any other message is posted and never
      refused with 400. */
  lemma PostQueryValidation(corpus: seq<string>, io: Chatbot.Calls, message: string)
    ensures AllSpace(message) ==>
      PostQuery(corpus, io, message) == Handled(None, Err(HttpError(400, "Missing 'message'")))
    ensures !AllSpace(message) ==>
      (PostQuery(corpus, io, message).request.Some? &&
       !(PostQuery(corpus, io, message).response.Err? && PostQuery(corpus, io, message).response.error.status == 400))
  {
    StripEmptyIff(message);
  }

  /** An accepted message is posted as the prompt built for the stripped
      message, the reply is passed on, and a failed generation becomes a 500
      carrying str(e). */
  lemma PostQueryAnswer(corpus: seq<string>, io: Chatbot.Calls, message: string)
    requires !AllSpace(message)
    ensures var q := PostQuery(corpus, io, message);
      var gen := Chatbot.GenerateLlamaResponse(io.posted);
      q.request == Some(Chatbot.RequestFor(PromptFor(corpus, io.neighbours, Strip(message)))) &&
      (gen.Ok? ==> q.response == Ok(gen.value)) &&
      (gen.Err? ==> q.response == Err(HttpError(500, "LLM error: " + gen.error.message)))
  {
    StripEmptyIff(message);
  }

  /** The parsed body of POST /chat. */
  datatype ChatBody = NotJson | JsonObject(fields: map<string, PyValue>) | JsonNonObject

  /** `(data.get("query") or data.get("message") or "").strip()`, then the
      emptiness test. A chosen value that is not a string raises
      AttributeError, which the framework turns into a 500. */
  function SelectChatMessage(fields: map<string, PyValue>): Result<string, HttpError> {
    match Or(Or(Get(fields, "query"), Get(fields, "message")), PyStr(""))
    case PyStr(s) =>
      var userMsg := Strip(s);
      if userMsg == "" then Err(HttpError(400, "Missing 'query' or 'message'")) else Ok(userMsg)
    case _ => Err(HttpError(500, "Internal Server Error"))
  }

  /** "query" wins whenever it is a non-empty string, even a blank one;
      "message" is read only when "query" is missing or falsy; a truthy
      value that is not a string has no `strip` and ends in 500; with both
      missing or falsy the request is refused with 400. */
  lemma {:induction false} ChatFieldSelection(fields: map<string, PyValue>)
    ensures "query" in fields && fields["query"].PyStr? && fields["query"].s != "" ==>
      SelectChatMessage(fields) ==
        (if AllSpace(fields["query"].s) then Err(HttpError(400, "Missing 'query' or 'message'"))
         else Ok(Strip(fields["query"].s)))
    ensures !Truthy(Get(fields, "query")) && "message" in fields && fields["message"].PyStr? ==>
      SelectChatMessage(fields) ==
        (if AllSpace(fields["message"].s) then Err(HttpError(400, "Missing 'query' or 'message'"))
         else Ok(Strip(fields["message"].s)))
    ensures !Truthy(Get(fields, "query")) && !Truthy(Get(fields, "message")) ==>
      SelectChatMessage(fields) == Err(HttpError(400, "Missing 'query' or 'message'"))
    ensures Truthy(Get(fields, "query")) && !Get(fields, "query").PyStr? ==>
      SelectChatMessage(fields) == Err(HttpError(500, "Internal Server Error"))
    ensures !Truthy(Get(fields, "query")) && Truthy(Get(fields, "message")) && !Get(fields, "message").PyStr? ==>
      SelectChatMessage(fields) == Err(HttpError(500, "Internal Server Error"))
  {
    if "query" in fields && fields["query"].PyStr? {
      StripEmptyIff(fields["query"].s);
    }
    if "message" in fields && fields["message"].PyStr? {
      StripEmptyIff(fields["message"].s);
    }
    assert AllSpace("");
  }

  /** An accepted message is stripped and not blank. */
  lemma SelectChatMessageAccepted(fields: map<string, PyValue>)
    requires SelectChatMessage(fields).Ok?
    ensures var m := SelectChatMessage(fields).value; m != "" && Strip(m) == m
  {
    var s := Or(Or(Get(fields, "query"), Get(fields, "message")), PyStr("")).s;
    StripIdempotent(s);
  }

  /** What the /chat stream delivers: its lines, and whether it ends
      normally or by an exception escaping the generator. */
  datatype StreamEnd = Closed | Raised(error: Exception)

  datatype Stream = Stream(lines: seq<string>, end: StreamEnd)

  /** The final line reporting a generation failure. */
  function ErrorLine(e: Exception): string {
    "[Backend error] " + e.message + "\n"
  }

  /** `streamer()` over the outcome of generate_llama_response. */
  function Streamer(gen: Result<string, Exception>): Stream {
    match gen
    case Ok(text) => Stream(StreamLines(text), Closed)
    case Err(e) =>
      if e.kind == TypeError then Stream([], Raised(e))
      else Stream([ErrorLine(e)], Closed)
  }

  /** A reply is streamed whole, in order, as newline-terminated lines. */
  lemma StreamerReply(text: string)
    ensures var out := Streamer(Ok(text));
      out.end == Closed &&
      (forall k :: 0 <= k < |out.lines| ==> |out.lines[k]| >= 1 && out.lines[k][|out.lines[k]| - 1] == '\n') &&
      Concat(DropNewlines(out.lines)) == text
  {
    StreamLinesRoundTrip(text);
  }

  /** A failure other than TypeError is reported by exactly one final line
      `[Backend error] <str(e)>` and the stream then closes normally; a
      TypeError escapes with nothing sent. */
  lemma StreamerFailure(e: Exception)
    ensures e.kind != TypeError ==>
      Streamer(Err(e)) == Stream(["[Backend error] " + e.message + "\n"], Closed)
    ensures e.kind == TypeError ==> Streamer(Err(e)) == Stream([], Raised(e))
  {
  }

  /** POST /chat. */
  function PostChat(corpus: seq<string>, io: Chatbot.Calls, body: ChatBody): Handled<Stream> {
    match body
    case NotJson => Handled(None, Err(HttpError(400, "Invalid JSON body")))
    case JsonNonObject => Handled(None, Err(HttpError(500, "Internal Server Error")))
    case JsonObject(fields) =>
      match SelectChatMessage(fields)
      case Err(e) => Handled(None, Err(e))
      case Ok(userMsg) =>
        Handled(Some(Chatbot.RequestFor(PromptFor(corpus, io.neighbours, userMsg))),
                Ok(Streamer(Chatbot.GenerateLlamaResponse(io.posted))))
  }

  /** A message is posted exactly when the body is a JSON object whose
      selected field is accepted, as the prompt built for that message, and
      the stream is the streamer's output for the generation's outcome; a
      refused message is refused before retrieval, so the answer does not
      depend on the collaborators at all. */
  lemma PostChatOutcome(corpus: seq<string>, io: Chatbot.Calls, body: ChatBody)
    ensures var sel := if body.JsonObject? then SelectChatMessage(body.fields) else Err(HttpError(0, ""));
      var c := PostChat(corpus, io, body);
      (c.request.Some? <==> sel.Ok?) &&
      (sel.Ok? ==> c.request == Some(Chatbot.RequestFor(PromptFor(corpus, io.neighbours, sel.value))) &&
                   c.response == Ok(Streamer(Chatbot.GenerateLlamaResponse(io.posted)))) &&
      (body.JsonObject? && sel.Err? ==> c.response == Err(sel.error))
  {
  }

  /** A blank "query" shadows a usable "message": the request is refused. */
  lemma BlankQueryShadowsMessage(corpus: seq<string>, io: Chatbot.Calls)
    ensures PostChat(corpus, io, JsonObject(map["query" := PyStr("  "), "message" := PyStr("printer jam")])) ==
      Handled(None, Err(HttpError(400, "Missing 'query' or 'message'")))
  {
    var fields := map["query" := PyStr("  "), "message" := PyStr("printer jam")];
    assert AllSpace("  ");
    ChatFieldSelection(fields);
  }
}
