# IT helpdesk assistant: retrieval, prompt and reply pipeline

A Dafny model of the two Python modules of a small IT-helpdesk assistant. Each
question is answered the same way. The assistant finds the most similar
historical support ticket in a fixed corpus. It cuts that ticket's text to a
character budget and renders it, with the question, into a fixed prompt
template. It posts the prompt to a locally hosted Ollama model server and
passes the reply on.

- `helpdesk_faiss_chatbot.py` is the command-line assistant. It holds the
  configuration (`TOP_K = 3`, `LLM_CONTEXT_LIMIT = 2000`, model `llama3`),
  `generate_llama_response`, `search_helpdesk` and the interactive loop that
  stops on `exit`.
- `server.py` is the HTTP service. It holds `retrieve_history` (a retrieval
  failure degrades to an empty history), `build_prompt`, the chunking helpers
  used to replay a finished reply as 24-character lines, `POST /query` and
  `POST /chat` with its streamer.

Modules:

- `python.dfy` (`Python`): the Python built-ins the code relies on, stated
  over Dafny strings. These are exceptions as values, `str.isspace` and
  `str.strip`, ASCII `str.lower`, `str(int)`, the slice `s[:k]`, truthiness,
  `or` and `dict.get`.
- `prompt_template.dfy` (`PromptTemplate`): the shape both prompt f-strings
  share. `Render` is `head + history + separator + question + tail`, and
  `Parse` is its inverse.
- `chatbot.dfy` (`Chatbot`): `helpdesk_faiss_chatbot.py`.
- `server.dfy` (`Server`): `server.py`.

The embedding model, the FAISS index and the HTTP transport are not modelled.
What they answer while one question is handled is given as data
(`Chatbot.Calls`), and each answer may be an exception. `neighbours` is the
outcome of encoding plus search. `posted` is the outcome of the POST to the
generate endpoint. The ticket corpus, the `actionbody` column, is a
`seq<string>`. Every route and every command-line turn also return the request
they post, so the prompt actually sent can be checked. This includes a turn
that raises after the POST (`Chatbot.Crash`), because the prompt is posted
before the status is looked at.

## Model

| member | source | states |
|---|---|---|
| Python.Or | server.py:160 | `a or b` is `a` when `a` is truthy and `b` otherwise |
| Python.Get | server.py:160 | `dict.get` gives the stored value, or None for a missing key |
| Python.Strip | server.py:132 | `str.strip()` is the slice of the input that starts after its leading whitespace; every character outside it is whitespace, and it neither starts nor ends with whitespace |
| Python.StripEmptyIff | server.py:132-134 | a string strips to "" exactly when it is all whitespace |
| Python.StripIdempotent | helpdesk_faiss_chatbot.py:38 | stripping an already stripped string changes nothing |
| Python.Lower | helpdesk_faiss_chatbot.py:77 | `str.lower()` keeps the length and lower-cases each ASCII capital |
| Python.NatDecimalRoundTrip | helpdesk_faiss_chatbot.py:40 | `str(n)` for n >= 0 is a non-empty digit string that reads back as n |
| Python.SlicePrefix | server.py:76 | `s[:k]` is a prefix of `s` of length min(k, len) for k >= 0, or len + k clamped at 0 for k < 0 |
| PromptTemplate.ParseRender | helpdesk_faiss_chatbot.py:54-65 | the ticket text and the question can both be read back from a rendered prompt when the ticket text does not contain the separator |
| PromptTemplate.RenderInjective | server.py:80-91 | different (history, question) pairs give different prompts under the same condition |
| PromptTemplate.RenderEmbedsVerbatim | server.py:80-91 | the history sits verbatim right after the head, and the question verbatim right after the separator and before the tail |
| Chatbot.ILoc | helpdesk_faiss_chatbot.py:48 | `df.iloc[i]` succeeds exactly for -len <= i < len and counts negative positions from the end; otherwise it raises IndexError |
| Chatbot.TopHit | helpdesk_faiss_chatbot.py:47-48 | the retrieved text is the row at `indices[0][0]` and belongs to the corpus; an empty result raises IndexError |
| Chatbot.FetchBest | helpdesk_faiss_chatbot.py:44-48 | a failure of encode or search propagates unchanged, and a retrieved text always belongs to the corpus |
| Chatbot.TopHitOnlyFirst | helpdesk_faiss_chatbot.py:45-48 | two searches that agree on the nearest id retrieve the same ticket, whatever the other TOP_K - 1 neighbours are |
| Chatbot.TruncateContext | helpdesk_faiss_chatbot.py:50-51 | the context is a prefix of the ticket text: the text itself when it fits the limit, otherwise exactly `limit` characters |
| Chatbot.RequestFor | helpdesk_faiss_chatbot.py:29-36 | the posted body carries the prompt unchanged and has streaming switched off |
| Chatbot.DecodeReply | helpdesk_faiss_chatbot.py:37-40 | `GenerateLlamaResponse` passes a failed POST through and otherwise decodes the reply with `DecodeReply`: a reply exists exactly when the status is 200 and the JSON body is an object with a string `response`, and it is that string stripped; any other status raises RuntimeError with `Ollama API error: <status> - <body>` |
| Chatbot.ReplyOnlyOn200 | helpdesk_faiss_chatbot.py:37-38 | a reply is only returned for status 200 and carries no surrounding whitespace |
| Chatbot.NonOkStatusRaises | helpdesk_faiss_chatbot.py:39-40 | a non-200 status always raises RuntimeError, and both the status and the body text can be read back from its message |
| Chatbot.ErrorMessageRoundTrip | helpdesk_faiss_chatbot.py:40 | the status code and the body text can be parsed back out of the RuntimeError message |
| Chatbot.SearchHelpdeskPropagatesRetrievalFailure | helpdesk_faiss_chatbot.py:43-48 | in `SearchHelpdesk` (`search_helpdesk`), a retrieval failure is not caught: it propagates unchanged and nothing is posted |
| Chatbot.SearchHelpdeskGeneration | helpdesk_faiss_chatbot.py:43-67 | once retrieval succeeds, `SearchHelpdesk` posts the prompt whether or not generation then fails; the turn is answered exactly when `GenerateLlamaResponse` returns a reply, and it carries that reply; a failed POST, a non-200 status or a malformed body propagates unchanged |
| Chatbot.SearchHelpdeskPrompt | helpdesk_faiss_chatbot.py:50-67 | once retrieval succeeds, `SearchHelpdesk` posts the command-line template rendered with the first at most 2000 characters of the retrieved ticket (all of it when shorter) and the question, whether generation then succeeds or fails; streaming is off; both pieces read back from the prompt when the ticket has no separator |
| Chatbot.ExitIff | helpdesk_faiss_chatbot.py:77-78 | `IsExit` (`user_query.lower() == "exit"`) holds exactly for the four letters e, x, i, t in any letter case |
| Chatbot.RunCli | helpdesk_faiss_chatbot.py:75-79 | the `while True` loop produces exactly the session that the recursive definition `CliSession` describes, including the stop and the crash it ends on |
| Chatbot.CliSessionAnswersUntilExit | helpdesk_faiss_chatbot.py:75-79 | in `CliSession`, every line before the stop is not an exit line and is answered in order, each turn being that line's own `SearchHelpdesk` result; a crash is the `SearchHelpdesk` failure of the first unanswered line, which is not an exit line; the loop stops at an exit line exactly when the next unanswered line is one, and it runs out of input exactly when every line was answered |
| Server.HistoryOrEmpty | server.py:63-73 | any retrieval failure becomes the empty history; otherwise the history is the retrieved text |
| Server.RetrieveHistory | server.py:61-77 | the history is a prefix of the retrieved text, "" on failure, at most `limit` characters for a positive limit (exactly `limit` when the text is longer), and uncut when the limit is 0 or the text fits |
| Server.RetrieveHistoryMatchesCliCut | server.py:75-76 | for a positive limit the server's cut equals the command-line cut |
| Server.ZeroLimitDiffers | server.py:75-76 | with a zero limit the server keeps the whole text (0 is falsy) while the command-line cut keeps nothing |
| Server.ServerTemplateShape | server.py:81-91 | the head opens with the role line and ends in `---`, the separator opens with a `---` line and ends in `A user now asks: "`, and the tail closes the quote before the instructions |
| Server.BuildPromptOpening | server.py:81 | `BuildPrompt` (`build_prompt`) opens with the role line `You are an expert IT helpdesk agent.` |
| Server.BuildPromptHistory | server.py:83-86 | in `BuildPrompt` the history stands verbatim right after a `---` line and is followed by a line break and a second `---` line |
| Server.BuildPromptQuestion | server.py:88 | in `BuildPrompt` the message follows `A user now asks: "` verbatim and is closed by a double quote |
| Server.BuildPromptClosing | server.py:90-91 | `BuildPrompt` ends with the instructions paragraph and its final line break |
| Server.BuildPromptParses | server.py:80-91 | history and message can be read back from `BuildPrompt`'s result when the history has no separator |
| Server.ChunksConcat | server.py:98-101 | the chunks of `Chunks(s, n)`, joined together, give the original string back |
| Server.ChunksShape | server.py:98-101 | each chunk of `Chunks(s, n)` holds 1 to n characters and all but the last exactly n, so there are ceil(len / n) of them and none for "" |
| Server.ChunkText | server.py:98-101 | the loop yields exactly `Chunks(s, n)` for n > 0, nothing for n < 0, and raises ValueError for n == 0 as `range` does |
| Server.StreamFromFullText | server.py:103-108 | the loop yields each 24-character chunk followed by a newline, in order |
| Server.StreamLinesRoundTrip | server.py:103-108 | every streamed line is 1 to 24 characters plus one newline, and dropping the newlines and joining gives the text back |
| Server.PostQueryValidation | server.py:132-134 | in `PostQuery` (`POST /query`), a blank message gets 400 `Missing 'message'` and nothing is posted; any other message is posted and never gets 400 |
| Server.PostQueryAnswer | server.py:136-145 | in `PostQuery`, an accepted message posts the prompt built from the stripped message and the history retrieved for it; the reply is returned, and a generation failure becomes 500 `LLM error: <str(e)>` |
| Server.ChatFieldSelection | server.py:160-162 | `SelectChatMessage` picks the message of `POST /chat`: a non-empty string `query` is used even when blank; a truthy `query` that is not a string fails with 500 and `message` is not read; `message` is read only when `query` is missing or falsy, and a truthy `message` that is not a string (e.g. `{"message": 5}`) also fails with 500; with both missing or falsy the request gets 400 |
| Server.SelectChatMessageAccepted | server.py:160-162 | a message `SelectChatMessage` accepts is non-empty and already stripped |
| Server.BlankQueryShadowsMessage | server.py:160-162 | `SelectChatMessage` refuses `{"query": "  ", "message": "printer jam"}` with 400 |
| Server.PostChatOutcome | server.py:155-188 | in `PostChat` (`POST /chat`), a prompt is posted exactly when the body is a JSON object whose selected message is accepted; the stream is the streamer's output for the generation's outcome; a refused message is refused before retrieval |
| Server.StreamerReply | server.py:172-176 | `Streamer` (the route's `streamer()`) streams a reply whole and in order as newline-terminated lines, and the stream closes normally |
| Server.StreamerFailure | server.py:177-186 | in `Streamer`, a TypeError escapes with nothing sent; any other failure is reported as one final line `[Backend error] <str(e)>`, and the stream then closes normally |

## Left out

- Loading the CSV, the sentence-transformer model and the FAISS index, and the index search itself. Their outcome for a question is an input (`Calls.neighbours`); which ticket is "most similar" is not modelled.
- The HTTP transport to Ollama. Its outcome is an input (`Calls.posted`); the model records the request that would be posted.
- `print` and `input` in the command-line assistant, `logging`, and the optional `asyncio.sleep` delay in `stream_from_full_text` (`delay_sec` is 0 on every call). None of them changes what is returned or streamed.
- The FastAPI plumbing: CORS settings, the `/` and `/health` routes, and `StreamingResponse` framing. A `/query` body without a string `message` is rejected by pydantic validation (422) before the handler runs, so the model starts from a string message.
- `str(...)` around a corpus value in `retrieve_history`: the corpus is modelled as strings. A non-string cell (for example a missing value read as NaN) is not modelled.
- Python.Lower: only ASCII letters are lower-cased. No other character lower-cases to one of the ASCII letters e, x, i, t alone, so the exit test is unaffected.
- Concurrency between requests and client disconnects during a stream.
- Token-by-token generation: both modules call the backend with `"stream": False` and wait for the whole reply, and `/chat` then replays that finished reply as 24-character lines. The model follows that behaviour.
