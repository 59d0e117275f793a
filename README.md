# Chat-With-PDF: chunker, prompt assembly and session state machine

A Dafny model of the logic that is the repository's own in a small
retrieval-augmented chat service over uploaded PDFs:

- `rag.py`: `chunk_text`, the fixed-window chunker with overlap (an imperative
  cursor loop, modelled as the method `Rag.ChunkText` proved against the
  recursive specification `Rag.Chunking`); the parallel-column record batch of
  `ingest_pdf`; the `"\n\n"` join of retrieved texts in `retrieve_context`; the
  fixed prompt template of `Chatbot.chat`; and the in-band `"Error: "` string
  that replaces a generation failure.
- `main.py`: the module-level `user_sessions` map, modelled as the class
  `App.SessionServer` with a `map<string, Session>` field, and the handlers that
  drive it: the OAuth callback, `get_current_user`, `/upload` and `/chat`. The
  answers of the identity provider, the ingestion pipeline and the chatbot are
  parameters; the external calls a handler makes (token request, userinfo
  request, temporary file created and removed, ingestion, chatbot) are appended
  to the field `effects`, so guard order and "nothing was called" are stated.

Files: `wrappers.dfy` (Option, Result), `py.dfy` (the Python built-ins the code
relies on: `min`, `str` slicing with negative indices, `str.strip`, `str.join`,
falsy optional strings, call outcomes), `rag.dfy` (module `Rag`), `app.dfy`
(module `App`).

Points about the code worth stating:
- the chunk count is `ceil(n / (chunk_size - overlap))`: a 450-character text
  gives two chunks with the defaults, the second inside the first
  (`Rag.DefaultsOn450Chars`);
- the last window always runs to the end of the text, so with the defaults a
  1200-character text ends in `text[800:1200]`, a chunk of 400 characters, not
  200 (`Rag.DefaultsOn1200Chars`);
- `chunk_text` has no configuration check and raises nothing: a non-positive
  step loops forever on a non-empty text (`Rag.NonPositiveStepNeverStops`), so
  `Rag.ChunkText` requires `overlap < chunkSize` for a non-empty text;
- in `Chatbot.chat` only the generation call is inside the `try`: a failure of
  embedding or search propagates (`Rag.Chat`);
- the blank-message check is done by the `/chat` handler, after the document
  check.

## Model

| member | source | states |
|---|---|---|
| `Py.Min` | rag.py:62 | `min(a, b)` is one of its arguments and no larger than either |
| `Py.SliceIndex` | rag.py:63 | a slice index is normalised as Python does: an in-range index is kept, a negative one counts from the end (0 if still negative), one past the end becomes the length |
| `Py.Slice` | rag.py:63 | `text[start:end]` is the plain subsequence when `0 <= start <= end <= len`, and empty when `0 <= end <= start` |
| `Py.TrimStart` | main.py:126 | `lstrip()` removes a prefix made only of white space and leaves a suffix that is empty or starts with a non-space; empty exactly when the string is all white space |
| `Py.TrimEnd` | main.py:126 | `rstrip()` removes a suffix made only of white space and leaves a prefix that is empty or ends with a non-space; empty exactly when the string is all white space |
| `Py.StripEmptyIffAllSpace` | main.py:126 | `not message.strip()` holds exactly when every character is white space in the sense of `str.isspace` |
| `Py.JoinPartAt` | rag.py:92 | `sep.join(parts)` holds every part verbatim at its offset, and the last part ends the string |
| `Py.JoinSeparatorAt` | rag.py:92 | between each part and the next, `sep.join(parts)` holds exactly `sep`, and the next part's offset is past it |
| `Rag.ChunkText` | rag.py:58-65 | the cursor loop returns exactly the chunk list of the specification `Chunking`, its cursor after `k` appends being `CursorAfter(step, k)`; it terminates whenever the text is empty or `overlap < chunk_size` |
| `Rag.ChunksFromAt` | rag.py:61-64 | chunk `i` emitted from cursor `start` is the window starting `i` steps later, which lies inside the text |
| `Rag.ChunksFromCount` | rag.py:61-64 | the number of chunks from cursor `start` is the least `k` with `start + k*step >= len(text)` |
| `Rag.ChunkCount` | rag.py:59-64 | the number of chunks is `ceil(len(text) / (chunk_size - overlap))`; the empty text, and only it, gives no chunk |
| `Rag.ChunkAt` | rag.py:60-64 | chunk `i` is exactly `text[i*step : min(i*step + chunk_size, len(text))]`, non-empty and at most `chunk_size` long |
| `Rag.LastChunkReachesEnd` | rag.py:61-64 | with `0 <= overlap < chunk_size` the last chunk ends at the end of the text |
| `Rag.ChunksFromOverlap` | rag.py:62-64 | from any cursor, the part of chunk `i` past `step` equals the prefix of chunk `i+1` of the same length |
| `Rag.ChunksOverlap` | rag.py:62-64 | consecutive chunks agree on their overlap: `chunk[i][step:]` is the prefix of `chunk[i+1]` of that length |
| `Rag.StitchFrom` | rag.py:61-64 | from any cursor inside the text, the chunks cut to their first `min(step, len)` characters concatenate to the rest of the text |
| `Rag.ChunkingReconstructs` | rag.py:62-64 | lossless: the first `min(step, len(chunk))` characters of every chunk, concatenated, give back the text |
| `Rag.DefaultsOn1200Chars` | rag.py:18-19 | with 500/100 a 1200-character text gives 3 chunks `[0:500]`, `[400:900]`, `[800:1200]` (lengths 500, 500, 400) |
| `Rag.DefaultsOn450Chars` | rag.py:18-19 | with 500/100 a 450-character text gives 2 chunks, the whole text and `[400:450]` which lies inside the first; `ceil((n - overlap)/step)` would say 1 |
| `Rag.CursorAdvances` | rag.py:61-64 | with a positive step the cursor after `k` turns is `k*step` and strictly increases every turn |
| `Rag.NonPositiveStepNeverStops` | rag.py:61-64 | with `overlap >= chunk_size` and a non-empty text the loop condition `start < len(text)` holds after every number of turns |
| `Rag.BuildRecordBatch` | rag.py:73-77 | the id, vector, text and source-file columns all have one entry per chunk; the text column is the chunk list in order; row `k` has the `k`-th uuid, the embedding of chunk `k` and the shared base name |
| `Rag.IngestBatchFaithful` | rag.py:67-77 | with the defaults the batch has `ceil(len(text)/400)` rows, every text non-empty and at most 500 characters (within the 2048 of the text field), one source name, and the texts give back the document |
| `Rag.ContextOfNoHits` | rag.py:92 | no hits give the empty context |
| `Rag.ContextKeepsHitOrder` | rag.py:92 | the context holds each hit text verbatim in result order, `"\n\n"` between neighbours, and the last hit ends it |
| `Rag.Prompt` | rag.py:105-109 | the prompt is the fixed instruction, then `"Context:\n"`, the context, `"\n\nUser: "` and the message, each recoverable at its own offset |
| `Rag.ReplyText` | rag.py:110-114 | a generated text is returned verbatim; a generation exception becomes `"Error: "` followed by the exception text |
| `Rag.InBandErrorIsAmbiguous` | rag.py:112-114 | an answer that starts with `"Error: "` and a failure give the same string |
| `Rag.Chat` | rag.py:103-114 | a retrieval failure propagates; once retrieval succeeds the turn never raises and returns the generated text or the in-band error string for the prompt built from the joined hits |
| `App.SessionServer.constructor` | main.py:27 | the server starts with no session and no external call, so also with no document name stored |
| `App.SessionServer.StateOf` | main.py:94-98 | a cookie is Anonymous exactly when absent or unknown (so an empty cookie always is, since only truthy tokens are stored); otherwise Authenticated, with a document exactly when `file_name` is truthy; while no stored session names a document, no cookie has one |
| `App.SessionServer.CurrentUser` | main.py:94-98 | 401 `Not logged in or session expired` exactly when the cookie is absent or not a stored token; otherwise the stored session |
| `App.SessionServer.Callback` | main.py:51-82 | missing code, missing access token and missing email each give 400 in that order and store nothing; success stores `{email, file_name: None}` under the token, replacing any earlier entry, touching no other token and removing none; if no session named a document before, none does after |
| `App.SessionServer.Upload` | main.py:101-115 | 401 before anything else; a content type other than `application/pdf` gives 400 before any temp file or ingestion; otherwise temp file, ingestion and removal happen in that order on both paths, `file_name` is set only when ingestion returns, and an ingestion exception gives 500 with its text and no session change |
| `App.SessionServer.UploadAsWritten` | main.py:108-115 | with the three-argument call of the two-parameter `ingest_pdf`, every authenticated PDF upload gives 500 with the `TypeError` text, the temp file is still removed, and no session changes, so no session ever gains a document |
| `App.SessionServer.Chat` | main.py:121-129 | 401, then 400 `No file uploaded yet.` when `file_name` is falsy, then 400 `Empty message` for a blank message; the chatbot is called, once, exactly when all three pass; no session changes and the session invariant is kept |
| `App.SessionServer.ChatAsWritten` | main.py:121-129 | with the two-argument call of the one-parameter `Chatbot.chat`, the same guards apply and every chat that passes them gives a bare 500; while no stored session names a document, every logged-in chat is refused with `No file uploaded yet.` |
| `App.AsWrittenUploadNeverEnablesChat` | main.py:108-113 | log in, upload a PDF as written, chat: the chat is refused with `No file uploaded yet.` |
| `App.LoginAndUpload` | main.py:79-113 | with the intended call site, login then a PDF upload whose ingestion returns leaves one session holding the file name, after exactly the calls token, userinfo, temp file, ingest, removal |
| `App.UploadThenChatReachesChatbot` | main.py:79-129 | with the intended call sites, log in, upload and chat with any non-blank message make exactly the external calls token, userinfo, temp file, ingest, removal, chatbot, and return the chatbot's answer |
| `App.ReloginForgetsDocument` | main.py:79-82 | a second login with the same token replaces the session, so chat is refused again for want of a document |
| `App.BlankMessageNeverReachesChatbot` | main.py:126-128 | a whitespace-only message is refused with 400 and the chatbot is not called |

## Left out

- PDF text extraction (`read_pdf`, PyMuPDF): a foreign library; the model starts from the extracted text.
- The embedding model, `uuid4`, the vector-store connection, schema, index, insert, flush and search: external; uuids, embeddings and search hits enter as parameters.
- Gemini configuration, including the missing-API-key error of `Chatbot.__init__`, and `generate_content`: an external service; its outcome is the parameter `generate`.
- OAuth HTTP requests, JSON decoding, redirect URL of `/auth/login`, cookies' attributes, FastAPI routing, request validation (422), templates and static files: framework and network plumbing. A token-exchange answer that is not JSON, or a network error, raises and is not modelled.
- Temporary-file copy and deletion are modelled only as the `TempFileCreated` and `TempFileRemoved` entries of `effects`.
- `os.path.basename(file_path)`: a library call. It names the temporary file, not the uploaded one; `Rag.BuildRecordBatch` takes the base name as a parameter.
- static/app.js: browser UI with no logic of its own to model.
- Concurrent requests on `user_sessions`: handlers are modelled as sequential. Sessions are plain values; each callback creates a new dictionary, so no two tokens share one.
- `App.SessionServer.Upload`: treats what ingestion does as an opaque outcome; it does not connect the outcome to `Rag.ChunkText` or `Rag.BuildRecordBatch`.
- `App.SessionServer.Chat`: treats the chatbot's answer as an opaque outcome rather than `Rag.Chat`, since the called signature does not exist in rag.py.
- `Rag.BuildRecordBatch`: does not state that the uuids are distinct; that is probabilistic.
- `Rag.Chat`: the search is external, so the ranking and the top-3 limit are not modelled; the hits are an input sequence.
- Falsy values: `code`, `access_token`, `email` and `file_name` are modelled as optional strings; other falsy JSON values (0, false, empty list) are not distinguished from a missing one.
- The 2048-character and 512-character field limits are not enforced by the model; `Rag.IngestBatchFaithful` shows the default chunks stay within the first.

## Findings

| source | as written | input that shows it | evidently intended | confidence | as-written member | corrected member |
|---|---|---|---|---|---|---|
| main.py:109 | `ingest_pdf(temp_path, collection, file.filename)` calls a function declared with two parameters (rag.py:67); the `TypeError` is caught and returned as 500, and `file_name` is never set | any logged-in upload with content type `application/pdf`; then every logged-in chat is refused with `No file uploaded yet.`: the constructor, `Callback` and `UploadAsWritten` keep `NoDocuments`, under which `ChatAsWritten` gives that 400 (`App.AsWrittenUploadNeverEnablesChat` shows one trace) | ingest the file, store its chunks under the uploaded file name and remember that name in the session | high, not executed | `App.SessionServer.UploadAsWritten` | `App.SessionServer.Upload` |
| main.py:128 | `chatbot.chat(request.message, file_name)` passes two arguments to `Chatbot.chat(self, user_message)` (rag.py:103); the `TypeError` is not caught and the client gets a bare 500 | a logged-in chat with a remembered document and a non-blank message | call the chatbot with the message (scoped to the document) and return its answer | high, not executed | `App.SessionServer.ChatAsWritten` | `App.SessionServer.Chat` |
