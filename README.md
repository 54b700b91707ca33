# A verified model of a PDF question-answering chat

The system is a chat over uploaded PDF documents. A Flask server splits each page
of a PDF into overlapping windows for a vector index. Its chat route answers a
question as a newline-delimited JSON stream: one `sources` record, then one
`token` record per piece of the language model's answer, or an `error` record.
It also keeps each chat's memory in a database. The React client has three
parts:

- the chat pane, which resolves the selected document to a chat, posts
  questions and folds the streamed records into the assistant's reply;
- the message bubble, which turns page citations into buttons;
- the upload panel.

Modules, one per source file or concern:

| module | models |
|---|---|
| `Text`, `Textwrap`, `Json` | Python and JavaScript string operations, `textwrap.dedent`, `json.dumps` and JavaScript property lookup and truthiness |
| `PdfParser` | `chunk_pages` (app/server/pdf_parser.py) |
| `Llm` | `_truncate_tokens`, `_format_prompt`, `_get_working_model` (app/server/llm.py) |
| `Rag` | `run_agent` (app/server/rag.py) |
| `Models` | the memories and chats tables and their queries (app/server/models.py), as a `Store` class |
| `Server` | `chat_route` and its `generate` stream (app/server/app.py) |
| `Framing` | the client's line framing of the stream |
| `ChatArea` | the chat pane (frontend/app/components/chat-area.tsx), as a `ChatSession` class |
| `ChatMessage` | the message bubble (frontend/app/components/chat-message.tsx) |
| `FileUploadZone` | the upload panel (frontend/app/components/file-upload-zone.tsx), as an `UploadZone` class |
| `Protocol` | the end-to-end property: what the server writes, framed and read by the client, gives the reply the server meant |

Everything outside the program becomes a parameter:

- the semantic search hits, the web search outcome, the model listing and the
  model's generated pieces;
- the client's HTTP answers (`Backend`, `Reply`);
- `JSON.parse` (a `parse` function);
- the two ids `crypto.randomUUID` generates;
- whether each upload succeeds.

The database is the `Models.Store` object, with its row sequences and id
counters. The methods say which statements are sent, in order.

## Model

| member | source | states |
|---|---|---|
| PdfParser.ChunkPages | app/server/pdf_parser.py:23-44 | the loop over pages returns exactly `AllChunks`, the pages' chunks one page after another |
| PdfParser.ChunkPage | app/server/pdf_parser.py:27-43 | the body for one page returns exactly that page's chunks: the empty-page placeholder, or its windows |
| PdfParser.NextStartAdvances | app/server/pdf_parser.py:34-41 | when the window does not reach the end, the next window starts after this one's start and no later than its end, so the scan terminates |
| PdfParser.WindowsSound | app/server/pdf_parser.py:33-39 | every kept chunk is the stripped, non-blank text of a window `[start, end)` of its page, at most `chunkSize` long, with the page's number |
| PdfParser.WindowsStartAfter | app/server/pdf_parser.py:33-41 | every chunk from a scan that begins at `start` starts at or after `start` |
| PdfParser.WindowsOrdered | app/server/pdf_parser.py:33-43 | the kept chunks' windows start at strictly increasing positions |
| PdfParser.WindowsCover | app/server/pdf_parser.py:33-43 | every non-whitespace character of the page lies inside the window of some kept chunk |
| PdfParser.WindowsBlank | app/server/pdf_parser.py:35-36 | a page made only of whitespace gives no chunk |
| PdfParser.PageChunksSound | app/server/pdf_parser.py:27-38 | an empty or missing text gives only the chunk `("", page, 0, 0)`; every other chunk is a stripped, non-blank window of the page |
| PdfParser.PageChunksOrdered | app/server/pdf_parser.py:28-43 | a page's chunks start at strictly increasing positions |
| PdfParser.PageChunksCover | app/server/pdf_parser.py:33-43 | no non-whitespace character of a page is lost |
| PdfParser.BlankPageNoChunks | app/server/pdf_parser.py:30-36 | a non-empty page made only of whitespace gives no chunk, not even the placeholder |
| PdfParser.AllChunksFromPages | app/server/pdf_parser.py:26-38 | every chunk of a run belongs to one of the pages and carries that page's number |
| Llm.TruncateTokens | app/server/llm.py:21-23 | a missing or empty text gives ""; otherwise the result is a prefix of the text, at most `maxChars` long, the whole text when that fits, and exactly `maxChars` long when it does not |
| Llm.TruncateIdempotent | app/server/llm.py:21-23 | truncating twice is truncating once |
| Llm.CollectBlocks | app/server/llm.py:57-63 | the loop builds exactly the `[Page p]:` blocks of the chunks that have text, in order |
| Llm.CollectWebLines | app/server/llm.py:69-74 | the loop builds exactly the numbered `[Web j]` lines, one per hit |
| Llm.FormatPrompt | app/server/llm.py:52-96 | the method returns exactly the prompt function: the dedented instructions, a blank line, then the user block truncated to 20000 characters |
| Llm.PromptKeepsSystemText | app/server/llm.py:77-85 | every prompt starts with the instructions followed by a blank line, and the rest is at most 20000 characters |
| Llm.OnlyFirstChunksCount | app/server/llm.py:53-58 | chunks after the first ten never change the prompt |
| Llm.NoTextNoBlocks | app/server/llm.py:61-63 | chunks without text give no block |
| Llm.NoTextContext | app/server/llm.py:65 | the context is `[No relevant PDF text found]` when no considered chunk has text |
| Llm.BlocksOfTexts | app/server/llm.py:57-63 | when every chunk has text, there is one block per chunk, in order |
| Llm.WebSnippet | app/server/llm.py:73 | a web snippet in the prompt never holds a line feed |
| Llm.WebBlockGate | app/server/llm.py:67-68 | the web block is non-empty exactly when the lower-cased mode is `hybrid` and there are web hits |
| Llm.WebLinesNumbered | app/server/llm.py:70-74 | the web lines are numbered from 1, one per hit, in order |
| Llm.TemplateIndentKept | app/server/llm.py:87-94 | when the document context or the web block is present, a line of it starts flush left, so `dedent` removes no margin: the template keeps its four-blank indentation and only its whitespace-only lines are emptied |
| Llm.UserBlockKept | app/server/llm.py:87-94 | a line of the template that starts flush left makes `dedent` only empty the whitespace-only lines |
| Llm.ContextFlush | app/server/llm.py:63-65 | a non-empty context has a line that starts flush left |
| Llm.WebBlockFlush | app/server/llm.py:75 | a non-empty web block has a line that starts flush left |
| Llm.GetWorkingModel | app/server/llm.py:98-114 | no key gives no model; a failed listing gives `gemini-pro`; otherwise the first available name that contains the first priority any available name contains, else the first available name, else `gemini-pro` |
| Llm.ChosenUnique | app/server/llm.py:106-108 | the priority choice is unique: one priority and one name |
| Rag.Snippet | app/server/rag.py:24-29 | a snippet is the first `min(200, n)` characters of the stripped text with line feeds made spaces, `n` being that text's length, so it holds no line feed |
| Rag.PageOf | app/server/rag.py:25-28 | the page is present exactly when the chunk's metadata carries one |
| Rag.PdfSources | app/server/rag.py:22-30 | one source per retrieved chunk |
| Rag.PdfSourcesAt | app/server/rag.py:23-30 | the k-th source is the k-th chunk's page and snippet |
| Rag.RunAgent | app/server/rag.py:6-45 | the web search runs exactly in hybrid mode; a failed search gives no hits; the answer is generated from the retrieved chunks, the hits and the lower-cased mode; the PDF sources are one per chunk |
| Rag.CollectPdfSources | app/server/rag.py:22-30 | the loop builds exactly the PDF sources |
| Rag.LoweredModeSameGate | app/server/rag.py:11-36 | lower-casing the mode before generating does not change the hybrid test |
| Rag.PromptCitesReturnedWeb | app/server/rag.py:32-44 | the prompt has a web block exactly when web sources are returned to the client |
| Models.Matching | app/server/models.py:103 | the selected memories belong to the user and the chat and come from the table |
| Models.MatchingComplete | app/server/models.py:103 | every memory of the user and chat is selected |
| Models.MatchingIncreasing | app/server/models.py:103 | the selection keeps increasing ids |
| Models.RecentMemories | app/server/models.py:99-108 | at most `limit` rows, all of the user and chat; fewer only when that is all there is |
| Models.RecentAscending | app/server/models.py:103-108 | the recent memories come out oldest first |
| Models.RecentAreNewest | app/server/models.py:103 | no memory of the chat left out is newer than one returned |
| Models.ChatsForUser | app/server/models.py:81-87 | the listed chats are the user's and come from the table |
| Models.ChatsForUserNewestFirst | app/server/models.py:84 | every chat of the user is listed, newest first |
| Models.Store.AddMemory | app/server/models.py:89-97 | appends one memory row with the next id; nothing else changes |
| Models.Store.CreateChat | app/server/models.py:69-79 | appends one chat row with a fresh id and returns that id; nothing else changes |
| Models.AddedMemoryIsRecent | app/server/models.py:89-108 | a memory just added is the last of its chat's recent memories |
| Models.CreatedChatListedFirst | app/server/models.py:69-87 | a chat just created is listed first for its user |
| Server.IngestedName | app/server/tasks.py:23 | an upload is indexed under the user's prefix followed by the filename |
| Server.CollectionName | app/server/app.py:304-306 | the searched collection carries the user's prefix: the name as given when it has it, prefixed otherwise |
| Server.CollectionNameIdempotent | app/server/app.py:304-306 | prefixing is idempotent |
| Server.CollectionNameFindsIngested | app/server/app.py:304-306 | both the bare filename and the prefixed collection name reach the collection the upload was indexed under |
| Server.FindCollection | app/server/app.py:282-283 | the first collection of the user with that filename, or none when there is none |
| Server.LatestChat | app/server/app.py:287-288 | the newest chat of the collection, or none when it has none |
| Server.OwnedChatKept | app/server/app.py:276-279 | a chat id the user owns is kept, with nothing looked up or created |
| Server.ForeignChatDiscarded | app/server/app.py:276-279 | a chat id the user does not own is treated as no chat id |
| Server.ResolvedChatOfCollection | app/server/app.py:281-297 | without a usable chat id, the chat is the collection's newest, or a new one when it has none, or none when the collection is unknown |
| Server.InsertOnlyOnCreate | app/server/app.py:290-298 | exactly one insert when a chat is created, none otherwise |
| Server.ResolveChat | app/server/app.py:275-298 | sends the ownership check, the collection lookup and the latest-chat lookup in order; inserts a chat named after the document only when the collection exists and has none |
| Server.ChatRoute | app/server/app.py:259-312 | no session gives 401 and a missing document gives 400, both before any statement; otherwise the chat is resolved, the user's question is saved when there is a chat, and the stream starts on the prefixed collection |
| Server.PdfList | app/server/rag.py:26-30 | one JSON object per PDF source |
| Server.WebList | app/server/web_search.py:30-35 | one JSON object per web hit |
| Server.TokenRecords | app/server/app.py:324-326 | one token record per generated piece, in order |
| Server.Frames | app/server/app.py:321-338 | one `json.dumps(record) + "\n"` frame per record |
| Server.Generate | app/server/app.py:314-338 | writes the sources frame, one token frame per piece and an error frame on failure; saves the full answer as the assistant's memory only when the answer completed and there is a chat |
| Server.EmitTokens | app/server/app.py:323-326 | the loop writes one token frame per piece and accumulates the full answer |
| Server.StreamShape | app/server/app.py:321-338 | the stream is the sources record, then the token records, then at most one error record |
| Server.FrameIsOneLine | app/server/app.py:321-338 | every frame is one line, ended by its only line feed |
| Json.Dumps | app/server/app.py:321 | `json.dumps` writes printable ASCII and never a line feed |
| Json.Get | frontend/app/components/chat-area.tsx:142-160 | a property read finds a field of the object with that key |
| Json.LastField | frontend/app/components/chat-area.tsx:142-160 | the last field with the key, or none when no field has it |
| Json.JsString | frontend/app/components/chat-area.tsx:143-161 | a string value is converted to itself |
| Framing.Feed | frontend/app/components/chat-area.tsx:133-135 | one read gives the complete lines and the buffer, which together are the split of the buffered text, and none of which holds a line feed |
| Framing.FeedAllIsChunkingInvariant | frontend/app/components/chat-area.tsx:128-135 | however the text is cut into reads, the lines parsed are the complete lines of the whole text and the buffer left is its unterminated fragment |
| Framing.FeedExtends | frontend/app/components/chat-area.tsx:133-135 | feeding one more read extends the complete lines of the text read so far |
| Framing.SameTextSameLines | frontend/app/components/chat-area.tsx:128-135 | two cuttings of the same text deliver the same lines |
| Framing.TerminatedFramesBack | frontend/app/components/chat-area.tsx:133-137 | a text of line-feed-terminated lines frames back into exactly those lines, leaving an empty buffer |
| ChatArea.HistoryMessages | frontend/app/components/chat-area.tsx:60-64 | one message `hist-k` per stored entry, with its role and content |
| ChatArea.FirstIndex | frontend/app/components/chat-area.tsx:54-69 | `find` gives the first match, or none when nothing matches |
| ChatArea.Resolve | frontend/app/components/chat-area.tsx:42-85 | no document gives the welcome notice and no chat id; otherwise the chats are listed first; a failed listing leaves an empty log; a chat named after the document gives its history or the welcome-back notice; otherwise a chat is created only for the document's collection; the chat id changes only to the found or created chat |
| ChatArea.ResolveAfterCreateReuses | frontend/app/components/chat-area.tsx:54-76 | once the created chat is listed, resolving the document again creates nothing |
| ChatArea.ChatSession.Initialize | frontend/app/components/chat-area.tsx:42-85 | the log, the chat id and the calls are those the resolution gives; with a document selected loading is off at the end, and without one it is left as it was and `showSuggestions` holds, but the suggestion panel is not drawn, since it needs a selected document |
| ChatArea.ContentSetOnlyOnReply | frontend/app/components/chat-area.tsx:144-146 | with fresh ids, setting the reply's content changes only the reply |
| ChatArea.SourcesSetOnlyOnReply | frontend/app/components/chat-area.tsx:156-158 | with fresh ids, setting the reply's sources changes only the reply |
| ChatArea.ContentAppendedOnlyOnReply | frontend/app/components/chat-area.tsx:172-174 | with fresh ids, the failure note is appended to the reply only |
| ChatArea.EventsAppend | frontend/app/components/chat-area.tsx:137-166 | decoding two batches of lines is decoding their concatenation |
| ChatArea.ApplyAllAppend | frontend/app/components/chat-area.tsx:128-167 | handling two batches of records one after the other is handling their concatenation |
| ChatArea.FoldText | frontend/app/components/chat-area.tsx:142-161 | the accumulator is every token payload and error note, in arrival order |
| ChatArea.FoldContent | frontend/app/components/chat-area.tsx:142-161 | the visible content is the accumulator as it stood at the last token record, each content update applied when it is issued; an error note after the last token therefore does not show |
| ChatArea.FoldSources | frontend/app/components/chat-area.tsx:147-158 | the reply's sources are the labels of the last sources record |
| ChatArea.FoldChatId | frontend/app/components/chat-area.tsx:159 | a chat id from the stream is adopted only when none was known at send time, and then the last truthy one |
| ChatArea.Kept | frontend/app/components/chat-area.tsx:138-165 | the records left after dropping skipped lines hold no skip |
| ChatArea.SkipsAreInert | frontend/app/components/chat-area.tsx:138-165 | blank, unparsable and throwing lines leave the reply as it would be without them |
| ChatArea.OutcomeIgnoresChunking | frontend/app/components/chat-area.tsx:128-167 | two bodies with the same text leave the same reply |
| ChatArea.ChatSession.Send | frontend/app/components/chat-area.tsx:87-180 | a blank text or a reply in progress is ignored; otherwise the request carries the query, the chat id, the document and the mode; the log gains the question and the reply as `Outcome` states; loading ends and the controller is cleared |
| ChatArea.ChatSession.Exchange | frontend/app/components/chat-area.tsx:105-167 | the failure is that of a rejected fetch, 401, a missing body or a rejected read; the reply is what the complete lines of the body build |
| ChatArea.ChatSession.ReadBody | frontend/app/components/chat-area.tsx:122-167 | the read loop leaves the reply as the complete lines of the concatenated reads build it |
| ChatArea.ChatSession.ReadChunk | frontend/app/components/chat-area.tsx:129-166 | one read extends the text read so far and handles exactly the lines it completes |
| ChatArea.ChatSession.HandleLines | frontend/app/components/chat-area.tsx:137-166 | the inner loop applies the records of the lines in order |
| ChatArea.ChatSession.HandleRecord | frontend/app/components/chat-area.tsx:138-165 | one record updates the accumulator, the reply and the chat id as the fold states |
| ChatArea.ChatSession.StopGeneration | frontend/app/components/chat-area.tsx:187-192 | a reply in progress is aborted and the spinner stops; with no reply nothing changes |
| ChatArea.ChatSession.ClearConversation | frontend/app/components/chat-area.tsx:194-196 | the log becomes the single cleared notice, so `showSuggestions` holds and the suggestion panel is drawn exactly when a document is selected; nothing else changes |
| ChatMessage.ReplyThinkingUntilText | frontend/app/components/chat-message.tsx:20 | the reply shows the thinking dots exactly as long as the token records up to the last one have brought no text |
| ChatMessage.MatchAt | frontend/app/components/chat-message.tsx:23 | a citation match has digits and is no longer than the text |
| ChatMessage.MatchDigits | frontend/app/components/chat-message.tsx:23 | the captured page number is all digits |
| ChatMessage.MatchNeedsCitation | frontend/app/components/chat-message.tsx:23 | a match needs a `Page` or `p.` keyword followed by a digit |
| ChatMessage.LinkifyUnchanged | frontend/app/components/chat-message.tsx:22-25 | a text with no citation is displayed unchanged |
| ChatMessage.CitationLinked | frontend/app/components/chat-message.tsx:22-25 | a citation, with its optional bracket, `PDF` word, spaces and closing bracket, becomes `[Page n](#page=n)` and the scan goes on after it |
| ChatMessage.CitationMatch | frontend/app/components/chat-message.tsx:23 | the pattern matches an opening, a `PDF` word with its blanks, a keyword, spaces and digits, each part but the keyword and digits optional, and takes a closing bracket after them |
| ChatMessage.PageLinkRoundTrip | frontend/app/components/chat-message.tsx:24-61 | the link a citation becomes is read back as a page button for the same page number, on unbounded integers |
| ChatMessage.Displayed | frontend/app/components/chat-message.tsx:87 | a user's text is shown as written; an assistant's text with no citation too |
| ChatMessage.SourceChips | frontend/app/components/chat-message.tsx:94-100 | the chips show exactly for a finished assistant reply with sources, and are those sources |
| FileUploadZone.Pdfs | frontend/app/components/file-upload-zone.tsx:34-46 | the filter keeps only PDFs and never adds any |
| FileUploadZone.PdfsSelects | frontend/app/components/file-upload-zone.tsx:34-46 | a file is kept exactly when it is a PDF from the selection |
| FileUploadZone.PdfsAppend | frontend/app/components/file-upload-zone.tsx:34-46 | filtering two selections is filtering their concatenation |
| FileUploadZone.PdfsKeepsPdfs | frontend/app/components/file-upload-zone.tsx:34-46 | a selection of PDFs is kept whole |
| FileUploadZone.UploadZone.HandleDrop | frontend/app/components/file-upload-zone.tsx:30-42 | a drop with no PDF only sets the error; otherwise its PDFs are appended and the error is cleared |
| FileUploadZone.UploadZone.HandleFileInput | frontend/app/components/file-upload-zone.tsx:44-49 | the picked PDFs are appended; nothing else changes |
| FileUploadZone.UploadZone.RemoveFile | frontend/app/components/file-upload-zone.tsx:51-53 | the file at the index is removed; an index out of range changes nothing |
| FileUploadZone.UploadZone.HandleUpload | frontend/app/components/file-upload-zone.tsx:55-75 | files go up in order and the run stops at the first failure, keeping the list and setting the error; when all succeed, the list empties and the panel closes |
| FileUploadZone.FirstFailure | frontend/app/components/file-upload-zone.tsx:61-63 | the index of the first failing upload, every earlier one succeeding |
| FileUploadZone.ButtonLabel | frontend/app/components/file-upload-zone.tsx:137 | `Uploading...` while uploading; otherwise `Upload `, then the decimal digits of the count, then ` file` right after them, with a final `s` exactly when the count is not 1 |
| FileUploadZone.ButtonLabelNamesCount | frontend/app/components/file-upload-zone.tsx:137 | two different counts never give the same label |
| Textwrap.CommonPrefix | app/server/llm.py:77-87 | the longest common prefix of two lines |
| Textwrap.MarginIsLongestCommonIndent | app/server/llm.py:77-87 | the margin `dedent` strips is the longest indentation common to the lines that are not blank |
| Textwrap.FlushCharKeepsIndent | app/server/llm.py:87-94 | a line starting flush left leaves no margin, so `dedent` only blanks whitespace-only lines |
| ChatArea.Labels | frontend/app/components/chat-area.tsx:148-154 | the `Page p` / `Web: title` labels of a truthy list, no labels for a falsy one, and a throw (the line is skipped) for a list that is not an array or holds null; FoldSources and Protocol.SourcesMeaning prove what they give |
| ChatArea.Interpret | frontend/app/components/chat-area.tsx:140-162 | what one parsed record does: a token, a sources record with its chat id, an error note, or nothing; Protocol.TokenMeaning, SourcesMeaning and ErrorMeaning prove its reading of the server's records |
| ChatArea.DecodeLine | frontend/app/components/chat-area.tsx:138-165 | a blank or unparsable line is skipped, any other is interpreted; SkipsAreInert proves skipped lines change nothing |
| ChatArea.Apply | frontend/app/components/chat-area.tsx:142-162 | one record's effect on the accumulator, the reply and the chat id; FoldText, FoldContent, FoldSources and FoldChatId prove what a whole stream builds |
| ChatArea.Annotate | frontend/app/components/chat-area.tsx:169-175 | any failure but an abort appends `\n[message]`, or `\n[Connection Failed]` for an empty message; Send proves it is applied to the reply only |
| ChatArea.FailureOf | frontend/app/components/chat-area.tsx:105-129 | the error caught: a rejected fetch, 401, a missing body or a rejected read; Exchange proves the method raises exactly it |
| ChatArea.Received | frontend/app/components/chat-area.tsx:122-167 | what the records of the body's complete lines build; ReadBody and OutcomeIgnoresChunking prove the read loop gives it whatever the chunking |
| ChatArea.Outcome | frontend/app/components/chat-area.tsx:105-175 | the reply `handleSend` leaves: the records' result, then the failure note; Send and Protocol.RoundTrip prove what it is |
| ChatMessage.Linkify | frontend/app/components/chat-message.tsx:22-25 | the global, case-insensitive replacement of each citation by `[Page n](#page=n)`; LinkifyUnchanged and CitationLinked prove its effect |
| ChatMessage.ParseInt | frontend/app/components/chat-message.tsx:61 | `parseInt` on the text after `=`: optional blanks and sign, then the longest digit run, or hexadecimal after `0x`; DigitsParse proves it reads a digit string as its value |
| ChatMessage.AnchorFor | frontend/app/components/chat-message.tsx:59-78 | an href starting with `#page=` becomes a page button, any other a plain link; PageLinkRoundTrip proves what a citation link becomes |
| Server.Resolve | app/server/app.py:275-298 | the chat-id decision of the lookups; OwnedChatKept, ForeignChatDiscarded, ResolvedChatOfCollection and InsertOnlyOnCreate prove its cases |
| Server.Records | app/server/app.py:314-338 | the records `generate` writes; StreamShape proves their shape and Protocol.InterpretRecords their meaning to the client |
| Llm.Context | app/server/llm.py:57-65 | the page blocks joined by blank lines, or the no-text notice; NoTextContext and BlocksOfTexts prove its cases |
| Llm.WebBlock | app/server/llm.py:67-75 | the web block; WebBlockGate proves when it is present and WebLinesNumbered what it lists |
| Llm.Prompt | app/server/llm.py:52-96 | the whole prompt; FormatPrompt computes it, and PromptKeepsSystemText and OnlyFirstChunksCount prove its properties |
| Textwrap.Dedent | app/server/llm.py:77-94 | `textwrap.dedent`: whitespace-only lines emptied, then the longest common indentation of the other lines removed; MarginIsLongestCommonIndent and FlushCharKeepsIndent prove what it removes |
| Framing.CompleteLines | frontend/app/components/chat-area.tsx:134-135 | the pieces of the split before the last; FeedAllIsChunkingInvariant proves they are what the read loop parses |
| Framing.Remainder | frontend/app/components/chat-area.tsx:135 | the last piece of the split, kept as the buffer; FeedAllIsChunkingInvariant proves it is the buffer the loop ends with |
| Json.Truthy | frontend/app/components/chat-area.tsx:149-159 | JavaScript truthiness of a parsed value; FoldChatId proves its use in the chat-id test |
| Json.ValueString | frontend/app/components/chat-area.tsx:143-161 | JavaScript's string conversion of a parsed value; JsString proves it is the identity on strings |
| Protocol.FramesText | app/server/app.py:321-338 | the server's frames are one terminated line per record |
| Protocol.DecodeRecords | frontend/app/components/chat-area.tsx:137-165 | when `parse` reads each dumped record back, the client's records mean what the server's records mean |
| Protocol.InterpretRecords | app/server/app.py:314-338 | the client reads the server's records as the sources, then each token, then the error note |
| Protocol.RoundTrip | app/server/app.py:314-338 | whatever reads the stream is cut into, a failed agent leaves only the error note; otherwise, with each content update applied when it is issued, the reply's content is the whole answer, its sources are `Page p` and `Web: title` labels, and the chat id the server chose is adopted only when the client had none |

## Left out

- `extract_text_from_pdf` (PyMuPDF and Tesseract OCR): the pages are an input of `chunk_pages`.
- PdfParser.ChunkPages: requires `overlap < chunkSize`. With `overlap >= chunkSize` the source loops forever on any page longer than one window. The requires also excludes such sizes on runs whose pages are all no longer than one window, which the source handles with any overlap. `overlap` is a `nat`, so a negative overlap is left out; the source accepts one and then skips characters between windows. The only caller passes 1000 and 200.
- `lower()` is modelled as ASCII lower-casing.
- The chat request's `mode` is always a string. The default `"discrete"` of `data.get("mode", "discrete")` for an absent key, and the exception `.lower()` raises on a non-string value, are not modelled (app/server/app.py line 268).
- Llm.PageLabel: a chunk's page is present or absent. A `page` key present with a null value is folded into the absent case, so the model writes `[Page ?]` where the source writes `[Page None]`. The parser always stores an integer page.
- The semantic search, the web search, the query rewrite and the language model are oracles. Their results are parameters.
- The `date` field of a web hit is not modelled. The client never reads it.
- A Python exception while resolving a chat is not modelled. Neither are a failing `get_conn`, a swallowed `add_memory` exception, or a missing `query` as a crash path.
- `ORDER BY created_at` is modelled as insertion order, which is id order.
- Server.FindCollection: takes the first matching collection row. The lookup has no `ORDER BY`, and nothing makes `(user_id, filename)` unique, so with duplicate rows the database may return any of them.
- A page stored as `null` shows as `Page null` in the labels. On the client this is `JsString`'s conversion.
- JSON numbers are integers only. No record of the protocol carries any other kind, and `JSON.parse` is a parameter.
- `TextDecoder`: the reads arrive already decoded to text.
- Server.Generate: the stream is modelled as read to its end. A client that stops reading, through `stopGeneration` or by leaving the page, makes the server close the generator at a pending `yield` (app/server/app.py line 326). The `GeneratorExit` this raises is not caught by `except Exception`, so the source then saves no assistant memory and writes no error record. The model does save the memory and has no input for a closed stream.
- ChatArea.FoldContent and Protocol.RoundTrip: `setMessages` updaters are modelled as applied when they are called. React may run a queued updater later, when `currentText` already holds the error note of a later line from the same read, and then that note shows.
- ChatMessage.ParseInt and ChatMessage.PageLinkRoundTrip: `parseInt` is modelled as returning the exact integer. JavaScript returns a double, so a page number above 2^53 is rounded and a long enough digit run reads as `Infinity`.
- Rendering, scrolling, Markdown layout, the suggestion clicks and anything the other components do are not modelled.
- ChatArea.ChatSession.Send: the abort of a reply in progress is a failure named `AbortError` in the reply's outcome. The timing of `stopGeneration` during the reads is not modelled.
- The other Flask routes are not part of this model: auth, the collections routes, and the listing, history and deletion of chats. `Models.HistoryLimit` only records the limit of 50 that the history route passes.
