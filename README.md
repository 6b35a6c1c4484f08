# AI Knowledge Assistant — a Dafny model of the document and question pipeline

AI Knowledge Assistant is a FastAPI backend. Signed-in users upload `.txt` and `.pdf` files.
In the background, each file is reduced to text, split into chunks and indexed in a ChromaDB
collection. Users can then ask questions: the chunks nearest to the question are retrieved and
handed to an LLM (Anthropic, OpenAI, or a built-in mock), which writes the answer. Every
question and answer is kept in a per-user chat history.

This project models that core in Dafny, one module per source file:

| module | source file | form |
|---|---|---|
| `DocumentModel` | `backend/app/models/document.py` | datatypes and functions |
| `ChatSchemas` | `backend/app/schemas/chat.py` | datatypes and the request check |
| `DocumentProcessor` | `backend/app/services/document_processor.py` | functions; the PDF page loop is a method |
| `VectorStore` | `backend/app/services/vector_store.py` | class `VectorStoreService` over the collection |
| `LlmService` | `backend/app/services/llm_service.py` | class `LlmServiceState` plus the pure answer logic |
| `Documents` | `backend/app/api/routes/documents.py` | class `DocumentStore`: the `documents` table, the upload directory, the background-task queue |
| `Chat` | `backend/app/api/routes/chat.py` | class `ChatStore`: the `chat_messages` table |

Three support modules sit beside these:
- `Common`: `Option`/`Result`, and the Python string behaviour the code relies on (`str.strip`, ASCII `lower`, `join`, slicing, decimal rendering of integers and parsing back).
- `Ordering`: the newest-first table scans behind `ORDER BY created_at DESC`, and the filtered deletes.
- `Config`: the defaults of `backend/app/core/config.py`.

The ChromaDB collection is a map from chunk id to record (text, vector, metadata). Nearest-neighbour
ranking is a parameter. The model applies the `where={"user_id": ...}` filter and the
`n_results` cap on top of that ranking. A database table is a map from integer primary key to row. The next key is one more than the largest key in the table, the way SQLite assigns a rowid when the key is declared without AUTOINCREMENT, so deleting the newest row frees its id for the next insert. The
documents store also records its commits, so the two-stage status update of the background
task (`processing`, then `completed` or `failed`) is visible.

Main properties proved:
- **Chunk ids:** the chunk id `doc_<id>_chunk_<i>` parses back to `(id, i)`, so one document's ids are distinct. Adding `n` chunks adds exactly `n` records, all tagged with the document and the user.
- **Search:** search returns only the asking user's records, never more than requested, and nothing on any fault.
- **Routes:** upload, processing, listing, lookup, deletion and reprocessing keep a table invariant (`embedding_count == chunk_count`; pending rows have no counts, error or processing time; completed rows have a processing time and at least one chunk; failed rows have an error message).
- **Background task:** processing ends every document it finds in `completed` or `failed`. A completed document's chunks are in the index under its id and its owner.
- **Listings:** listings and the chat history are the owner's rows, newest first, each exactly once, and pages of the history concatenate.
- **Answers:** the answer (mock, LLM or error) follows the provider choice and the search results, and the mock answer quotes the question and the context.

## Model

| member | source | states |
|---|---|---|
| `DocumentModel.StatusValueRoundTrip` | backend/app/models/document.py:14-19 | each status's string value names that status back, and no other string does |
| `DocumentModel.NewDocument` | backend/app/models/document.py:22-49 | a fresh row has the column defaults: pending, both counts 0, no preview, error or processing time, `created_at` now; it satisfies the table invariant |
| `DocumentModel.ToDict` | backend/app/models/document.py:55-68 | `to_dict` reports the uploaded name and the status value; the preview is the stored preview's first 200 characters (all of it when shorter) and is absent when missing or empty; every other field is copied |
| `ChatSchemas.ParseAskRequest` | backend/app/schemas/chat.py:15-17 | a question is accepted exactly when it has 1 to 2000 characters; otherwise there is a 422 error |
| `Common.StripShape` | backend/app/services/document_processor.py:101-102 | `strip()` gives the empty string exactly for whitespace-only text; otherwise the result starts and ends with non-whitespace |
| `Common.StripIdempotent` | backend/app/services/document_processor.py:70-74 | stripping stripped text changes nothing |
| `Common.LowerIdempotent` | backend/app/services/document_processor.py:121 | lower-casing twice equals lower-casing once |
| `Common.JoinLength` | backend/app/services/llm_service.py:139 | the joined text is the parts plus one separator between each pair of neighbours |
| `Common.JoinEmpty` | backend/app/services/document_processor.py:87 | joining non-empty parts is empty exactly when there are no parts, and starts with the first part |
| `Common.Take` | backend/app/services/llm_service.py:117 | `s[:n]` is the prefix of length `min(n, len(s))` |
| `Common.IntToStringRoundTrip` | backend/app/services/vector_store.py:112 | an integer's decimal rendering parses back to it |
| `Common.ParseNatToString` | backend/app/services/vector_store.py:112 | a natural number's decimal rendering parses back to it |
| `Common.IntToStringInjective` | backend/app/services/vector_store.py:112 | distinct integers render differently |
| `DocumentProcessor.LastIndexOfFacts` | backend/app/services/document_processor.py:40 | the index found holds the character and no later index does |
| `DocumentProcessor.FinalComponentShape` | backend/app/services/document_processor.py:40 | a path's final component holds no slash and is never `.` |
| `DocumentProcessor.SuffixShape` | backend/app/services/document_processor.py:40 | a suffix is empty, or a dot and a non-empty tail with no dot or slash |
| `DocumentProcessor.SuffixOfPlainName` | backend/app/services/document_processor.py:40 | `stem.ext` has suffix `.ext` |
| `DocumentProcessor.NoSuffixForDotFile` | backend/app/services/document_processor.py:40 | a name whose only dot is its first character has no suffix |
| `DocumentProcessor.ValidateFile` | backend/app/services/document_processor.py:113-130 | accepted exactly when the lower-cased extension is allowed and the size is at most 10 MB; the type is checked before the size, and each rejection carries its message |
| `DocumentProcessor.AcceptsAllowedType` | backend/app/services/document_processor.py:113-130 | `stem.ext` with an allowed extension, in any case, is accepted up to and including the size limit |
| `DocumentProcessor.RejectsOtherType` | backend/app/services/document_processor.py:121-123 | any other extension is refused by type at every size, naming the lower-cased extension |
| `DocumentProcessor.RejectsOversized` | backend/app/services/document_processor.py:126-128 | an allowed type over the limit is refused by size |
| `DocumentProcessor.KnownTypes` | backend/app/core/config.py:47 | `txt` and `PDF` are allowed extensions; `docx` is not |
| `DocumentProcessor.ContentPreview` | backend/app/services/document_processor.py:107-111 | text up to the limit is returned whole; longer text is its first `max_length` characters plus `...` |
| `DocumentProcessor.SplitText` | backend/app/services/document_processor.py:91-105 | blank text gives no chunks and never reaches the splitter; other text is the splitter's output |
| `DocumentProcessor.TxtText` | backend/app/services/document_processor.py:70-74 | a present file yields its decoded content stripped; a missing file yields the "No such file" error |
| `DocumentProcessor.PageTexts` | backend/app/services/document_processor.py:82-85 | only non-empty page texts are kept, in page order |
| `DocumentProcessor.PageTextsFilter` | backend/app/services/document_processor.py:82-85 | the texts of two runs of pages are the texts of the first run followed by those of the second; one page contributes its text exactly when it was extracted and is non-empty |
| `DocumentProcessor.PageTextsMembers` | backend/app/services/document_processor.py:82-85 | a text is kept exactly when it is non-empty and some page extracted to it |
| `DocumentProcessor.PdfTextShape` | backend/app/services/document_processor.py:76-89 | extraction fails exactly when some page fails, reporting the first failing page; otherwise the result is the non-empty page texts (`PageTexts`) joined by blank lines and stripped |
| `DocumentProcessor.FirstPageErrorShape` | backend/app/services/document_processor.py:81-89 | no error exactly when every page succeeds; otherwise the error is the earliest failing page's |
| `DocumentProcessor.ExtractTextFromPdf` | backend/app/services/document_processor.py:76-89 | the page loop computes `PdfText`, stopping at the first failing page |
| `DocumentProcessor.ExtractedText` | backend/app/services/document_processor.py:50-68 | dispatch on the lower-cased type: `.txt` and `.pdf` read the stored file, other types raise "Unsupported file type"; a PDF failure is wrapped in its message; successful text is already stripped |
| `DocumentProcessor.ExtractText` | backend/app/services/document_processor.py:50-89 | the method computes `ExtractedText` |
| `DocumentProcessor.SaveFile` | backend/app/services/document_processor.py:32-48 | the stored name is the uuid hex followed by the lower-cased suffix; the content is written at `./uploads/<name>` and no other path changes |
| `DocumentProcessor.ExtensionShape` | backend/app/services/document_processor.py:40 | a file extension is already lower-case, and is empty or a dot plus a plain tail |
| `DocumentProcessor.StoredNameKeepsType` | backend/app/services/document_processor.py:40-41 | the stored name has the same extension as the uploaded name |
| `DocumentProcessor.DeleteFile` | backend/app/services/document_processor.py:132-139 | the file is gone afterwards, success is reported, and no other path changes |
| `DocumentProcessor.DeleteAfterSave` | backend/app/services/document_processor.py:32-48 | deleting a file just saved restores the disk, minus that path |
| `VectorStore.ChunkIdRoundTrip` | backend/app/services/vector_store.py:112 | `doc_<id>_chunk_<i>` parses back to `(id, i)` |
| `VectorStore.ChunkIdInjective` | backend/app/services/vector_store.py:112 | equal chunk ids have equal document ids and indices |
| `VectorStore.ChunkIdsSize` | backend/app/services/vector_store.py:112 | a document's first `n` chunk ids are `n` distinct strings |
| `VectorStore.MockVectorShape` | backend/app/services/vector_store.py:67-78 | the mock embedding has 1536 entries, repeats the 32 digest bytes in order (each 0 to 255), and two texts get the same vector exactly when their digests agree |
| `VectorStore.NewRecords` | backend/app/services/vector_store.py:112-122 | the new records sit under exactly the chunk ids, each with its chunk text, vector and metadata |
| `VectorStore.AddRecords` | backend/app/services/vector_store.py:125-130 | adding keeps every existing record and adds one per chunk id not yet present |
| `VectorStore.AddedCounts` | backend/app/services/vector_store.py:125-133 | adding `n` new chunks grows the collection and the user's count by exactly `n` |
| `VectorStore.DeleteAfterAdd` | backend/app/services/vector_store.py:198-221 | deleting a document just added restores the collection |
| `VectorStore.WithoutDocument` | backend/app/services/vector_store.py:198-221 | deletion removes exactly the records whose metadata names the document |
| `VectorStore.RequestedCount` | backend/app/services/vector_store.py:165-167 | `min(n_results, count)` when the collection is non-empty, 1 when it is empty |
| `VectorStore.OwnerHits` | backend/app/services/vector_store.py:170-175 | only ranked records that exist and belong to the user remain, in ranking order |
| `VectorStore.OwnerHitsFilter` | backend/app/services/vector_store.py:170-175 | the filter keeps order: the hits of two rankings in sequence are the hits of the first followed by those of the second, and one ranked id is kept exactly when its record exists and is the user's |
| `VectorStore.QueryHits` | backend/app/services/vector_store.py:170-175 | at most `n` hits, all of them the user's records |
| `VectorStore.SearchResultsAreOwnersRecords` | backend/app/services/vector_store.py:139-196 | every result is one of the user's stored records, with its text and metadata; there are never more than requested, and none on an embedding error, a collection fault or `n_results <= 0` |
| `VectorStore.AddOutcome` | backend/app/services/vector_store.py:80-137 | no chunks gives 0 and no change; success returns the chunk count and adds the records; an embedding or collection failure raises and changes nothing |
| `VectorStore.AddOutcomeStoresEveryChunk` | backend/app/services/vector_store.py:106-133 | after a successful add, every chunk is stored under its id with the document, name, user and index in its metadata; old records are untouched and both counts grow by the chunk count |
| `VectorStore.VectorStoreService.constructor` | backend/app/services/vector_store.py:24-29 | a new service is not yet initialised and sees the persisted collection |
| `VectorStore.VectorStoreService.EnsureInitialized` | backend/app/services/vector_store.py:31-65 | initialisation happens once and leaves the collection unchanged |
| `VectorStore.VectorStoreService.GetMockEmbedding` | backend/app/services/vector_store.py:67-78 | the vector built from the text's SHA-256 digest |
| `VectorStore.VectorStoreService.EmbedChunks` | backend/app/services/vector_store.py:106-109 | OpenAI embeddings when a key is configured, mock embeddings otherwise |
| `VectorStore.VectorStoreService.AddDocuments` | backend/app/services/vector_store.py:80-137 | the new collection and the result are `AddOutcome` of the old collection |
| `VectorStore.VectorStoreService.SearchCollection` | backend/app/services/vector_store.py:160-196 | the results are `SearchOutcome` on the current collection |
| `VectorStore.VectorStoreService.Search` | backend/app/services/vector_store.py:139-196 | search initialises the service, leaves the collection unchanged and returns `SearchOutcome` |
| `VectorStore.VectorStoreService.DeleteDocument` | backend/app/services/vector_store.py:198-225 | true exactly when there is no fault; the document's records are then gone, and on a fault nothing changes |
| `VectorStore.VectorStoreService.GetDocumentCount` | backend/app/services/vector_store.py:227-238 | the number of the user's records, or 0 on a fault |
| `VectorStore.VectorStoreService.GetTotalCount` | backend/app/services/vector_store.py:240-247 | the collection size, or 0 on a fault |
| `VectorStore.VectorStoreService.Reset` | backend/app/services/vector_store.py:249-262 | empties the collection, or reports the fault and changes nothing |
| `LlmService.ChooseProvider` | backend/app/services/llm_service.py:51-104 | mock exactly when neither key is set; a provider is only chosen with its key; the preferred provider wins when its key is set; otherwise Anthropic when its key is set, then OpenAI |
| `LlmService.Configure` | backend/app/services/llm_service.py:46-106 | a client exists exactly for a real provider, with that provider's model and token limit; the mock model is named `mock` |
| `LlmService.KeyMeansRealModel` | backend/app/services/llm_service.py:51-104 | with any key set, a real client and a non-mock model are used |
| `LlmService.DefaultPreference` | backend/app/services/llm_service.py:51-104 | under the default settings, Anthropic is preferred whenever its key is set |
| `LlmService.Percent` | backend/app/services/llm_service.py:136 | `{score:.2%}` renders digits, a point, two decimals and `%` |
| `LlmService.Blocks` | backend/app/services/llm_service.py:128-137 | one block per result, numbered from 1 in result order |
| `LlmService.ContextShape` | backend/app/services/llm_service.py:124-139 | the context is empty exactly when there are no results, starts with the first block, and is never blank otherwise |
| `LlmService.ContextLength` | backend/app/services/llm_service.py:139 | the context is the blocks separated by `\n\n---\n\n` |
| `LlmService.TemplateSlots` | backend/app/services/llm_service.py:114-122 | a filled template holds each interpolated value at its offset |
| `LlmService.MockTemplateQuotes` | backend/app/services/llm_service.py:114-122 | the mock template quotes the question and the context at fixed offsets |
| `LlmService.MockResponse` | backend/app/services/llm_service.py:108-122 | blank context gives the no-information text exactly; otherwise the template over the first 50 characters of the question and the first 500 of the context |
| `LlmService.MockResponseQuotes` | backend/app/services/llm_service.py:108-122 | with context, the mock answer is not the no-information text and quotes the truncated question and context |
| `LlmService.ToSource` | backend/app/services/llm_service.py:186-194 | a source has the first 500 characters of the chunk, its document name or `Unknown`, its chunk index or 0, and its score |
| `LlmService.Sources` | backend/app/services/llm_service.py:186-194 | one source per result, in order |
| `LlmService.AnswerOutcome` | backend/app/services/llm_service.py:141-214 | the response echoes the question and the elapsed time, and carries all the sources or none |
| `LlmService.AnswerOutcomeCases` | backend/app/services/llm_service.py:170-214 | no client: the mock answer with all sources; generation fails: the error answer with no sources; generation succeeds: its text with all sources |
| `LlmService.MockAnswerWithoutDocuments` | backend/app/services/llm_service.py:108-111 | a user with no indexed chunks gets the no-information answer and no sources from the mock |
| `LlmService.LlmServiceState.constructor` | backend/app/services/llm_service.py:39-44 | a new service has no client, provider or model yet |
| `LlmService.LlmServiceState.EnsureInitialized` | backend/app/services/llm_service.py:46-106 | initialisation installs `Configure(settings)` once; later calls change nothing |
| `LlmService.LlmServiceState.FormatContext` | backend/app/services/llm_service.py:124-139 | the numbered blocks joined by separators (`ContextOf`) |
| `LlmService.LlmServiceState.BuildSources` | backend/app/services/llm_service.py:186-194 | the loop yields `ToSource` of each result, in order |
| `LlmService.LlmServiceState.Respond` | backend/app/services/llm_service.py:170-214 | the response is `AnswerOutcome` of the search results |
| `LlmService.LlmServiceState.AnswerQuestion` | backend/app/services/llm_service.py:141-214 | searches the user's chunks without changing the index, and answers with `AnswerOutcome` |
| `LlmService.LlmServiceState.HealthCheck` | backend/app/services/llm_service.py:216-225 | the LLM is reported available exactly when a key is set, with the chosen provider, model and embedding model |
| `Chat.OwnerIds` | backend/app/api/routes/chat.py:81-86 | exactly the ids of the user's messages |
| `Chat.Page` | backend/app/api/routes/chat.py:89-96 | `OFFSET`/`LIMIT`: at most `limit` items, starting at `offset` |
| `Chat.PagesConcatenate` | backend/app/api/routes/chat.py:89-96 | a page of `a` items followed by the next page of `b` is the page of `a + b` |
| `Chat.HistoryItem` | backend/app/schemas/chat.py:28-38 | a history item copies the message; sources appear only when stored and non-empty |
| `Chat.HistoryItems` | backend/app/api/routes/chat.py:99-113 | one item per listed id, in order |
| `Chat.HistoryRejection` | backend/app/api/routes/chat.py:69-70 | a query is accepted exactly when `1 <= limit <= 100` and `offset >= 0`; otherwise 422 |
| `Chat.DefaultsAreAccepted` | backend/app/api/routes/chat.py:69-70 | an omitted limit is 50 and an omitted offset 0, and omitting either never causes a 422: a query is refused exactly when a given limit is outside `1..100` or a given offset is negative |
| `Chat.EmptyHistory` | backend/app/api/routes/chat.py:81-113 | a user without messages gets an empty page |
| `Chat.AskedQuestionHeadsHistory` | backend/app/api/routes/chat.py:89-96 | the newest message heads the first page |
| `Chat.WithoutUser` | backend/app/api/routes/chat.py:121-135 | clearing removes exactly the user's messages |
| `Chat.ClearIsScoped` | backend/app/api/routes/chat.py:121-135 | after clearing, the user has no messages, other users keep theirs, and the count removed is the user's count |
| `Chat.ChatStore.constructor` | backend/app/api/routes/chat.py:20-64 | the history starts empty |
| `Chat.ChatStore.Ask` | backend/app/api/routes/chat.py:20-64 | an invalid question is refused with no change; otherwise the answer is `AnswerOutcome` of the user's top 5 chunks, stored as one new row (sources `None` when empty); the index is never changed, and a refusal changes nothing at all |
| `Chat.ChatStore.Record` | backend/app/api/routes/chat.py:43-50 | exactly one new row with a fresh id holds the question, the answer, the sources or `None`, the time and the user |
| `Chat.ChatStore.History` | backend/app/api/routes/chat.py:67-118 | omitted parameters take their defaults (50, 0); a bad limit or offset is refused; otherwise the total is the user's count and the page lists the user's messages newest first, each exactly once |
| `Chat.ChatStore.ClearHistory` | backend/app/api/routes/chat.py:121-135 | removes exactly the user's messages and reports how many; the next id becomes one more than the largest remaining id |
| `Chat.ChatStore.DeleteMessage` | backend/app/api/routes/chat.py:138-161 | succeeds exactly when the message exists and is the user's, removing only it, and the next id becomes one more than the largest remaining id; otherwise 404 and no change |
| `Ordering.InsertNewestFirst` | backend/app/api/routes/documents.py:196-201 | insertion adds exactly one element |
| `Ordering.InsertKeepsOrder` | backend/app/api/routes/documents.py:196-201 | inserting into a newest-first sequence keeps it newest first |
| `Ordering.NewestComesFirst` | backend/app/api/routes/chat.py:89-96 | in a newest-first sequence, the strictly newest element is first |
| `Ordering.SelectedOrderMembers` | backend/app/api/routes/documents.py:196-201 | a permutation of the selected ids lists each selected row once |
| `Ordering.SelectNewestFirst` | backend/app/api/routes/documents.py:196-201 | the scan returns the selected ids, each once, newest first |
| `Ordering.Unselected` | backend/app/api/routes/chat.py:127-133 | exactly the rows not selected, unchanged |
| `Ordering.DeleteSelected` | backend/app/api/routes/chat.py:127-133 | the delete loop keeps exactly the unselected rows and counts those removed |
| `Ordering.NextRowId` | backend/app/models/document.py:27 | the id SQLite gives the next row: every id is below it, and it is 1 for an empty table and one more than the largest id otherwise |
| `Ordering.NextRowIdUnique` | backend/app/models/chat.py:18 | a table has exactly one next row id |
| `Ordering.NewestIdReused` | backend/app/models/document.py:27 | once the row with the largest id is deleted, the next row gets an id no larger than it, so ids are reused |
| `Documents.ToResponseAsWritten` | backend/app/api/routes/documents.py:166 | the response as written names the stored file |
| `Documents.ToResponse` | backend/app/models/document.py:55-68 | the response names the uploaded file, as `to_dict` does, and copies every other field |
| `Documents.WellKeyedUpdate` | backend/app/models/document.py:22-49 | replacing a row by a consistent row keeps the table invariant |
| `Documents.OwnerDocIds` | backend/app/api/routes/documents.py:196-201 | exactly the ids of the user's documents |
| `Documents.IntakeOfAccepts` | backend/app/api/routes/documents.py:127-140 | a file is admitted exactly when it validates and its save succeeds; the extension is then allowed and the size within the limit |
| `Documents.Admit` | backend/app/api/routes/documents.py:143-164 | a row is created exactly for an accepted file, with the next id |
| `Documents.AdmitShape` | backend/app/api/routes/documents.py:138-164 | the new row is pending, owned by the user, named after the upload, stored at the saved path, and satisfies the invariant; the queued task names it |
| `Documents.Admissions` | backend/app/api/routes/documents.py:121-171 | accepted files receive consecutive ids |
| `Documents.AdmittedRows` | backend/app/api/routes/documents.py:121-171 | one pending, consistent row per accepted file, with a task for each |
| `Documents.InstallAddsRows` | backend/app/api/routes/documents.py:143-154 | existing rows are kept and the new rows appear under their new ids |
| `Documents.UploadOutcome` | backend/app/api/routes/documents.py:173-179 | `total_uploaded` is the number of files, which equals `successful` plus `failed`; one response per stored row |
| `Documents.UploadAllowedFile` | backend/tests/test_documents.py:20-34 | one allowed file gives one success, a pending document named as uploaded |
| `Documents.UploadOtherFile` | backend/app/api/routes/documents.py:128-135 | a file of another type counts as failed and stores nothing |
| `Documents.ResponseNamesStoredFile` | backend/app/api/routes/documents.py:166 | as written, the response names the uuid file, not the upload |
| `Documents.MarkFailed` | backend/app/api/routes/documents.py:84-94 | a failure sets the status to failed and records the message |
| `Documents.PipelineOutcome` | backend/app/api/routes/documents.py:49-94 | processing ends completed or failed, and a failure leaves the index unchanged |
| `Documents.PipelineOutcomeShape` | backend/app/api/routes/documents.py:49-94 | each failure (extraction, blank text, no chunks, indexing) has its message; completion records the chunk count, preview and time and adds the chunks; identity fields and the invariant are kept |
| `Documents.CompletedDocumentIsIndexed` | backend/app/api/routes/documents.py:58-81 | after completion, each of the document's chunks is indexed under its id and owner, and the user's count grew by the chunk count |
| `Documents.ResetForReprocessing` | backend/app/api/routes/documents.py:298-302 | a reset row is pending with 0 counts and no error or time, and keeps every other field: id, owner, stored and uploaded names, path, type, size, creation time and preview |
| `Documents.Listing` | backend/app/api/routes/documents.py:182-212 | one response per id with summed chunk and embedding totals |
| `Documents.ListRows` | backend/app/api/routes/documents.py:195-212 | the summing loop computes `Listing` |
| `Documents.TotalsAgree` | backend/app/api/routes/documents.py:204-205 | in a consistent table, the embedding total equals the chunk total and is non-negative |
| `Documents.EmptyListing` | backend/app/api/routes/documents.py:182-212 | a user without documents gets an empty listing with zero totals |
| `Documents.DocumentStore.constructor` | backend/app/api/routes/documents.py:97-179 | the table, disk, queue and commit log start empty |
| `Documents.DocumentStore.UploadOne` | backend/app/api/routes/documents.py:121-171 | one loop pass stores the row, file and task of an accepted file and leaves everything unchanged for a rejected one |
| `Documents.DocumentStore.Upload` | backend/app/api/routes/documents.py:97-179 | no files gives 400 and no change; otherwise the accepted files become rows, files and tasks with consecutive ids, and the reply counts both kinds |
| `Documents.DocumentStore.Finish` | backend/app/api/routes/documents.py:49-94 | the document and the index become `PipelineOutcome` |
| `Documents.DocumentStore.ProcessDocument` | backend/app/api/routes/documents.py:24-94 | missing document: no change; otherwise commit `processing`, then `PipelineOutcome` of the stored text, ending completed or failed |
| `Documents.DocumentStore.ProcessNext` | backend/app/api/routes/documents.py:24-94 | the first queued task runs, only its document changes, and it ends completed or failed |
| `Documents.DocumentStore.RunQueue` | backend/app/api/routes/documents.py:24-94 | draining the queue ends every queued document that still exists completed or failed, without changing ownership |
| `Documents.DocumentStore.ListDocuments` | backend/app/api/routes/documents.py:182-212 | the user's documents, each once, newest first, with totals |
| `Documents.DocumentStore.GetDocument` | backend/app/api/routes/documents.py:215-236 | found exactly when the document is the user's; otherwise 404 |
| `Documents.DocumentStore.DeleteDocument` | backend/app/api/routes/documents.py:239-269 | for the owner: the chunks (when ChromaDB does not fail), the file and the row are removed, and the next id becomes one more than the largest remaining id; otherwise 404 and no change |
| `Documents.DocumentStore.Reprocess` | backend/app/api/routes/documents.py:272-314 | for the owner: the chunks are removed, the row is reset to pending and a task is queued; otherwise 404 and no change |

## Left out

- Floating point: scores are integers in units of 1e-4 (the `round(similarity, 4)` the code applies), `processing_time` is an integer number of milliseconds, and `1 - distance` is computed by the ranking parameter.
- External components are parameters:
  - ChromaDB's nearest-neighbour ranking;
  - the OpenAI embedding client and SHA-256;
  - the LangChain text splitter (chunk size 1000, overlap 200);
  - `PdfReader` and UTF-8 decoding;
  - the LLM clients;
  - `uuid4` and the clock.
- Nothing is assumed about what those components compute.
- The LLM `temperature` and the prompt transport; only the system prompt text and the outcome are modelled.
- Faults of ChromaDB are explicit `chromaFault` parameters. Database commit failures, file-system errors other than a missing file, and the generic 500 path of `ask_question` are not modelled.
- Concurrency: `async` calls and FastAPI background tasks run one at a time, in queue order, when `RunQueue` or `ProcessNext` is called.
- `ProcessDocument` applies the final commit (`completed` or `failed`) in one step after extraction; the partial state between the vector add and the commit is not visible.
- `DocumentProcessor.DeleteFile`: always reports success, because `os.remove` failures (the `False` branch) are file-system errors the model does not have.
- `VectorStore.VectorStoreService.Reset`: atomic; a fault after `delete_collection` but before the re-creation is not modelled.
- `VectorStore.VectorStoreService.DeleteDocument`: a failed vector delete still lets the document routes remove the row, as the routes ignore the result.
- `Common.Lower`: lower-cases ASCII letters only; Unicode case mapping is left out.
- Rows with a NULL `created_at` and their position in `ORDER BY created_at DESC` are not modelled; every row the routes create has one.
- The `created_at` field of chunk metadata, logging, and `Document.__repr__` are left out.
- `DocumentModel.Consistent`: does not require a failed row to have a processing time, because the failure branches of the background task (backend/app/api/routes/documents.py:51-55, 61-64 and 84-94) set the status and the error message but not `processed_at`.
- `DocumentModel.Consistent`: does not require a completed row to have no error message, because the completion at backend/app/api/routes/documents.py:75-79 does not clear `error_message`: when a document is queued twice and its first task fails, the second task can complete it with the first task's error still set.
- `DocumentModel.Consistent`: requires zero counts only of pending rows. A processing row can carry counts: when a document is reprocessed while its first task is still queued, that task completes it, and the second task then sets it back to processing (backend/app/api/routes/documents.py:45) without resetting the counts.
- `Documents.CompletedDocumentIsIndexed`: requires that the index holds no chunk of the document beforehand. Ids are reused, and a deletion whose vector delete failed leaves the old chunks under that id, so a later document with the same id can share the index with stale chunks the model does not account for.
- Authentication (`get_current_user`) is a `userId` parameter; `backend/app/api/routes/upload.py`, `health.py` and the user model are not part of this model.

## Findings

| source | as written | input that shows it | evidently intended | confidence | as-written member | corrected member |
|---|---|---|---|---|---|---|
| backend/app/api/routes/documents.py:166 (also :208, :236) | `DocumentResponse.model_validate(document)` reads the row's `filename`, the stored `<uuid hex>.<ext>` name | uploading `test.txt` returns a document whose `filename` is `<hex>.txt`, which differs from `test.txt` | the name the user uploaded, as `to_dict` (backend/app/models/document.py:59) and backend/tests/test_documents.py:34 have it | not executed | `Documents.ToResponseAsWritten` (counterexample `Documents.ResponseNamesStoredFile`) | `Documents.ToResponse` (used by upload, list and get; `Documents.UploadAllowedFile`) |
