/** The document routes (backend/app/api/routes/documents.py): upload, the background
    processing task, and the owner-scoped list, get, delete and reprocess operations, over
    the `documents` table, the files saved on disk and the vector index. */
module Documents {
  import opened Common
  import Config
  import opened Ordering
  import opened DocumentModel
  import opened DocumentProcessor
  import opened VectorStore

  const BadRequest: nat := 400
  const NotFound: nat := 404

  const NoTextMessage: string := "No text content could be extracted from the file"
  const SplitFailedMessage: string := "Failed to split document into chunks"
  const NoFilesMessage: string := "No files provided"
  const DocumentNotFound: string := "Document not found"

  /** The arguments of one scheduled `process_document_background` call. */
  datatype Task = Task(documentId: int, filePath: string, fileType: string, userId: int, documentName: string)

  /** An uploaded file: its client-side name and its bytes (`await file.read()`). */
  datatype UploadFile = UploadFile(filename: string, content: seq<Byte>)

  /** `DocumentResponse`. */
  datatype DocumentResponse = DocumentResponse(
    id: int,
    filename: string,
    fileType: string,
    fileSize: int,
    status: string,
    chunkCount: int,
    embeddingCount: int,
    contentPreview: Option<string>,
    createdAt: Option<Timestamp>,
    processedAt: Option<Timestamp>,
    errorMessage: Option<string>)

  datatype DocumentListResponse = DocumentListResponse(
    documents: seq<DocumentResponse>,
    total: nat,
    totalChunks: int,
    totalEmbeddings: int)

  datatype UploadResponse = UploadResponse(
    message: string,
    documents: seq<DocumentResponse>,
    totalUploaded: nat,
    successful: nat,
    failed: nat)

  // ---------------------------------------------------------------------------
  // Responses

  /** `DocumentResponse.model_validate(document)` as it reads the row, field by field: the
      `filename` attribute is the stored unique name. */
  function ToResponseAsWritten(d: Document): (r: DocumentResponse)
    ensures r.filename == d.filename
    ensures ParseStatus(r.status) == Some(d.status)
  {
    StatusValueRoundTrip(d.status, StatusValue(d.status));
    DocumentResponse(d.id, d.filename, d.fileType, d.fileSize, StatusValue(d.status), d.chunkCount,
                     d.embeddingCount, d.contentPreview, d.createdAt, d.processedAt, d.errorMessage)
  }

  /** The response a client is shown for a document: the name it uploaded (as `to_dict`
      and the upload test have it), the status as its string value, and the row's other
      columns unchanged. */
  function ToResponse(d: Document): (r: DocumentResponse)
    ensures r.id == d.id && r.filename == d.originalFilename
    ensures r.filename == ToDict(d).filename && r.status == ToDict(d).status
    ensures ParseStatus(r.status) == Some(d.status)
    ensures r.fileType == d.fileType && r.fileSize == d.fileSize
    ensures r.chunkCount == d.chunkCount && r.embeddingCount == d.embeddingCount
    ensures r.contentPreview == d.contentPreview && r.errorMessage == d.errorMessage
    ensures r.createdAt == d.createdAt && r.processedAt == d.processedAt
  {
    ToResponseAsWritten(d).(filename := d.originalFilename)
  }

  // ---------------------------------------------------------------------------
  // The documents table

  /** Every row is stored under its own id, a positive number below the next id to assign,
      and is consistent; the next id is one more than the largest id, as SQLite assigns it
      (`IsNextRowId`). */
  predicate WellKeyed(docs: map<int, Document>, nextId: int)
  {
    && nextId >= 1
    && (nextId == 1 || nextId - 1 in docs)
    && forall k :: k in docs ==> docs[k].id == k && 1 <= k < nextId && Consistent(docs[k])
  }

  /** Replacing an existing row by a consistent row with the same id keeps the table well keyed. */
  lemma WellKeyedUpdate(docs: map<int, Document>, nextId: int, id: int, d: Document)
    requires WellKeyed(docs, nextId) && id in docs && d.id == id && Consistent(d)
    ensures WellKeyed(docs[id := d], nextId)
  {
  }

  /** The filter `Document.user_id == userId`. */
  function OwnedBy(userId: int): Document -> bool
  {
    (d: Document) => d.userId == userId
  }

  /** The filter `Document.id == documentId, Document.user_id == userId` finds a row. */
  predicate Owns(docs: map<int, Document>, userId: int, documentId: int)
  {
    documentId in docs && docs[documentId].userId == userId
  }

  /** The ids of `userId`'s documents. */
  function OwnerDocIds(docs: map<int, Document>, userId: int): (r: set<int>)
    ensures forall id :: id in r <==> Owns(docs, userId, id)
  {
    Selected(docs, OwnedBy(userId))
  }

  /** The sort key of `ORDER BY created_at DESC`; an unset time sorts last. */
  function CreatedAtKey(d: Document): int
  {
    if d.createdAt.Some? then d.createdAt.value else -1
  }

  function CreatedKey(docs: map<int, Document>): (key: int -> int)
    ensures forall id :: id in docs ==> key(id) == CreatedAtKey(docs[id])
  {
    KeyOf(docs, CreatedAtKey)
  }

  // ---------------------------------------------------------------------------
  // upload_documents

  /** What the upload loop makes of one file before touching the table: a file that fails
      validation, or whose save raised, is counted as failed; an accepted file is known by
      its lower-cased extension and the `uuid4().hex` its stored name was drawn from. */
  datatype Intake = Rejected | Accepted(file: UploadFile, fileExt: string, hex: string)

  /** The filtering part of one iteration of the upload loop, given what saving the file
      gives (the drawn hex id, or the error raised while writing). The condition is the
      verdict of `validate_file` (see `IntakeOfAccepts`). */
  function IntakeOf(file: UploadFile, saved: Result<string, string>): Intake
  {
    if FileExtension(file.filename) in Config.AllowedExtensions && |file.content| <= Config.MaxFileSize then
      match saved
      case Failure(_) => Rejected
      case Success(hex) => Accepted(file, FileExtension(file.filename), hex)
    else Rejected
  }

  /** A file is accepted exactly when it passes validation and its save succeeds; it is
      then known by its own extension and the drawn id. */
  lemma IntakeOfAccepts(file: UploadFile, saved: Result<string, string>)
    ensures var t := IntakeOf(file, saved);
            && (t.Accepted? <==> ValidateFile(file.filename, |file.content|).0 && saved.Success?)
            && (t.Accepted? ==>
                  && t.file == file && t.hex == saved.value && t.fileExt == FileExtension(file.filename)
                  && t.fileExt in Config.AllowedExtensions && |file.content| <= Config.MaxFileSize)
  {
  }

  /** `intakes` is what the upload loop makes of `files`, one by one. */
  predicate ClassifiedAs(files: seq<UploadFile>, saved: seq<Result<string, string>>, intakes: seq<Intake>)
  {
    && |saved| == |files| && |intakes| == |files|
    && forall k {:trigger IntakeOf(files[k], saved[k])} :: 0 <= k < |files| ==> intakes[k] == IntakeOf(files[k], saved[k])
  }

  /** Every list of files has its classification. */
  lemma Classify(files: seq<UploadFile>, saved: seq<Result<string, string>>)
    returns (intakes: seq<Intake>)
    requires |saved| == |files|
    ensures ClassifiedAs(files, saved, intakes)
  {
    intakes := seq(|files|, k requires 0 <= k < |files| => IntakeOf(files[k], saved[k]));
  }

  /** A file the upload accepted: the row it created, the task it scheduled and the bytes
      it wrote. */
  datatype Admission = Admission(doc: Document, task: Task, content: seq<Byte>)

  /** The rest of the iteration: an accepted file becomes a row under the id `id`, and a
      task for it. */
  function Admit(t: Intake, id: int, userId: int, now: Timestamp): (a: Option<Admission>)
    ensures a.Some? <==> t.Accepted?
    ensures a.Some? ==> a.value.doc.id == id
  {
    match t
    case Rejected => None
    case Accepted(file, fileExt, hex) =>
      var uniqueFilename := hex + fileExt;
      var filePath := StoredPath(uniqueFilename);
      var d := NewDocument(id, uniqueFilename, file.filename, filePath, fileExt, |file.content|, userId, now);
      Some(Admission(d, Task(id, filePath, fileExt, userId, file.filename), file.content))
  }

  /** An accepted file's row is pending, owned by the caller, carries the uploaded name,
      size and type, and names the stored file (the drawn id followed by the type, under
      the upload directory), which is also what its task will read. */
  lemma AdmitShape(t: Intake, id: int, userId: int, now: Timestamp)
    requires t.Accepted?
    ensures var a := Admit(t, id, userId, now).value;
            var d := a.doc;
            && d.id == id && d.userId == userId && d.originalFilename == t.file.filename
            && d.fileSize == |t.file.content| && d.fileType == t.fileExt
            && d.status == Pending && d.createdAt == Some(now) && Consistent(d)
            && d.filename == t.hex + d.fileType && d.filePath == StoredPath(d.filename)
            && a.task == Task(id, d.filePath, d.fileType, userId, t.file.filename)
            && a.content == t.file.content
  {
  }

  /** The files admitted by one upload, taking ids from `firstId` in order. */
  function Admissions(intakes: seq<Intake>, firstId: int, userId: int, now: Timestamp): (r: seq<Admission>)
    ensures |r| <= |intakes|
    ensures forall k :: 0 <= k < |r| ==> r[k].doc.id == firstId + k
  {
    if intakes == [] then []
    else
      var n := |intakes| - 1;
      var front := Admissions(intakes[..n], firstId, userId, now);
      match Admit(intakes[n], firstId + |front|, userId, now)
      case None => front
      case Some(a) => front + [a]
  }

  /** The number of accepted files. */
  function AcceptedCount(intakes: seq<Intake>): (n: nat)
    ensures n <= |intakes|
  {
    if intakes == [] then 0
    else AcceptedCount(intakes[..|intakes| - 1]) + (if intakes[|intakes| - 1].Accepted? then 1 else 0)
  }

  /** Every accepted file, and no other, is admitted; each admitted row is a new pending row
      of the caller, and its task names that row's id, stored file, type and uploaded name. */
  lemma {:induction false} AdmittedRows(intakes: seq<Intake>, firstId: int, userId: int, now: Timestamp)
    ensures var r := Admissions(intakes, firstId, userId, now);
            && |r| == AcceptedCount(intakes)
            && forall k :: 0 <= k < |r| ==>
                 && r[k].doc.userId == userId && r[k].doc.status == Pending && Consistent(r[k].doc)
                 && r[k].doc.createdAt == Some(now)
                 && r[k].task == Task(r[k].doc.id, r[k].doc.filePath, r[k].doc.fileType, userId,
                                      r[k].doc.originalFilename)
  {
    if intakes != [] {
      var n := |intakes| - 1;
      AdmittedRows(intakes[..n], firstId, userId, now);
    }
  }

  function Responses(adm: seq<Admission>): (r: seq<DocumentResponse>)
    ensures |r| == |adm|
    ensures forall k :: 0 <= k < |adm| ==> r[k] == ToResponse(adm[k].doc)
  {
    if adm == [] then [] else Responses(adm[..|adm| - 1]) + [ToResponse(adm[|adm| - 1].doc)]
  }

  function Tasks(adm: seq<Admission>): (r: seq<Task>)
    ensures |r| == |adm|
    ensures forall k :: 0 <= k < |adm| ==> r[k] == adm[k].task
  {
    if adm == [] then [] else Tasks(adm[..|adm| - 1]) + [adm[|adm| - 1].task]
  }

  /** The table after the admitted rows are inserted. */
  function Install(docs: map<int, Document>, adm: seq<Admission>): map<int, Document>
  {
    if adm == [] then docs
    else Install(docs, adm[..|adm| - 1])[adm[|adm| - 1].doc.id := adm[|adm| - 1].doc]
  }

  /** The disk after the admitted files are written. */
  function SaveAll(disk: Disk, adm: seq<Admission>): Disk
  {
    if adm == [] then disk
    else SaveAll(disk, adm[..|adm| - 1])[adm[|adm| - 1].doc.filePath := adm[|adm| - 1].content]
  }

  /** What one more admission adds to the upload's effects. */
  lemma AdmissionSnoc(docs: map<int, Document>, disk: Disk, queue: seq<Task>, adm: seq<Admission>, a: Admission)
    ensures queue + Tasks(adm + [a]) == queue + Tasks(adm) + [a.task]
    ensures Responses(adm + [a]) == Responses(adm) + [ToResponse(a.doc)]
    ensures Install(docs, adm + [a]) == Install(docs, adm)[a.doc.id := a.doc]
    ensures SaveAll(disk, adm + [a]) == SaveAll(disk, adm)[a.doc.filePath := a.content]
  {
    assert (adm + [a])[..|adm|] == adm;
  }

  /** The admissions of one file more: the next file's admission, if any, under the id
      after those already drawn. */
  lemma AdmissionsSnoc(intakes: seq<Intake>, i: nat, firstId: int, userId: int, now: Timestamp,
                       front: seq<Admission>, a: Option<Admission>)
    requires i < |intakes| && front == Admissions(intakes[..i], firstId, userId, now)
    requires a == Admit(intakes[i], firstId + |front|, userId, now)
    ensures a.None? ==> Admissions(intakes[..i + 1], firstId, userId, now) == front
    ensures a.Some? ==> Admissions(intakes[..i + 1], firstId, userId, now) == front + [a.value]
  {
    assert intakes[..i + 1][..i] == intakes[..i];
  }

  /** Inserting rows with fresh consecutive ids keeps every existing row, adds each admitted
      row under its id, and nothing else. */
  lemma {:induction false} InstallAddsRows(docs: map<int, Document>, adm: seq<Admission>, firstId: int)
    requires forall k :: k in docs ==> k < firstId
    requires forall k :: 0 <= k < |adm| ==> adm[k].doc.id == firstId + k
    ensures var r := Install(docs, adm);
            && (forall k :: k in docs ==> k in r && r[k] == docs[k])
            && (forall j :: 0 <= j < |adm| ==> adm[j].doc.id in r && r[adm[j].doc.id] == adm[j].doc)
            && (forall k :: k in r ==> k in docs || firstId <= k < firstId + |adm|)
  {
    if adm != [] {
      var n := |adm| - 1;
      InstallAddsRows(docs, adm[..n], firstId);
    }
  }

  function UploadMessage(successful: nat, failed: nat): string
  {
    "Upload completed: " + NatToString(successful) + " successful, " + NatToString(failed) + " failed"
  }

  /** The upload's reply: every file counted once, as successful or failed, one response per
      admitted file in upload order. */
  function UploadOutcome(files: seq<UploadFile>, adm: seq<Admission>): (r: UploadResponse)
    requires |adm| <= |files|
    ensures r.totalUploaded == |files| == r.successful + r.failed
    ensures r.successful == |adm| == |r.documents|
    ensures forall k :: 0 <= k < |adm| ==> r.documents[k] == ToResponse(adm[k].doc)
    ensures r.message == UploadMessage(r.successful, r.failed)
  {
    UploadResponse(UploadMessage(|adm|, |files| - |adm|), Responses(adm), |files|, |adm|, |files| - |adm|)
  }

  /** Uploading one `stem.ext` of an allowed type within the size limit (`test.txt`) admits
      it, and the response names it by `stem.ext`, as pending. */
  lemma UploadAllowedFile(stem: string, ext: string, content: seq<Byte>, hex: string, firstId: int,
                          userId: int, now: Timestamp)
    requires PlainStem(stem) && PlainExt(ext)
    requires "." + Lower(ext) in Config.AllowedExtensions && |content| <= Config.MaxFileSize
    ensures var files := [UploadFile(stem + "." + ext, content)];
            var r := UploadOutcome(files, Admissions([IntakeOf(files[0], Success(hex))], firstId, userId, now));
            && r.successful == 1 && r.failed == 0 && |r.documents| == 1
            && r.documents[0].filename == stem + "." + ext && r.documents[0].status == "pending"
  {
    var files := [UploadFile(stem + "." + ext, content)];
    AcceptsAllowedType(stem, ext, |content|);
    IntakeOfAccepts(files[0], Success(hex));
    var intakes := [IntakeOf(files[0], Success(hex))];
    assert intakes[..0] == [];
  }

  /** Uploading one `stem.ext` of any other type (`test.docx`) admits nothing. */
  lemma UploadOtherFile(stem: string, ext: string, content: seq<Byte>, saved: Result<string, string>,
                        firstId: int, userId: int, now: Timestamp)
    requires PlainStem(stem) && PlainExt(ext) && "." + Lower(ext) !in Config.AllowedExtensions
    ensures var files := [UploadFile(stem + "." + ext, content)];
            var r := UploadOutcome(files, Admissions([IntakeOf(files[0], saved)], firstId, userId, now));
            r.successful == 0 && r.failed == 1 && r.documents == []
  {
    var files := [UploadFile(stem + "." + ext, content)];
    RejectsOtherType(stem, ext, |content|);
    IntakeOfAccepts(files[0], saved);
    var intakes := [IntakeOf(files[0], saved)];
    assert intakes[..0] == [];
  }

  /** The response built as written names an accepted `stem.ext` upload by its stored
      name `<hex>.<ext>`, which differs from `stem.ext` whenever the drawn hex id and the stem
      differ in length (for `test.txt`: 32 characters against 4). */
  lemma ResponseNamesStoredFile(stem: string, ext: string, content: seq<Byte>, hex: string, id: int,
                                userId: int, now: Timestamp)
    requires PlainStem(stem) && PlainExt(ext)
    requires "." + Lower(ext) in Config.AllowedExtensions && |content| <= Config.MaxFileSize
    requires |hex| != |stem|
    ensures var a := Admit(IntakeOf(UploadFile(stem + "." + ext, content), Success(hex)), id, userId, now);
            && a.Some?
            && ToResponseAsWritten(a.value.doc).filename == hex + "." + Lower(ext)
            && ToResponseAsWritten(a.value.doc).filename != stem + "." + ext
            && ToResponse(a.value.doc).filename == stem + "." + ext
  {
    AcceptsAllowedType(stem, ext, |content|);
    ExtensionOfPlainName(stem, ext);
    IntakeOfAccepts(UploadFile(stem + "." + ext, content), Success(hex));
  }

  // ---------------------------------------------------------------------------
  // process_document_background

  function MarkFailed(d: Document, e: string): (r: Document)
    ensures r.status == Failed && r.errorMessage == Some(e)
  {
    d.(status := Failed, errorMessage := Some(e))
  }

  /** The row and the vector index after `process_document_background` for the row `d`
      (already marked as processing), given the extracted text (or the error raised while
      extracting), the splitter, the stored records `c`, the embedding function and an
      optional ChromaDB fault. The row ends completed or failed; a failure leaves the index
      as it was. */
  function PipelineOutcome(d: Document, extracted: Result<string, string>, splitter: Splitter,
                           c: Collection, embed: seq<string> -> Result<seq<Vector>, string>,
                           documentName: string, userId: int, chromaFault: Option<string>,
                           now: Timestamp): (r: (Document, Collection))
    ensures r.0.status == Completed || r.0.status == Failed
    ensures r.0.status == Failed ==> r.1 == c
  {
    match extracted
    case Failure(e) => (MarkFailed(d, e), c)
    case Success(text) =>
      if Strip(text) == "" then (MarkFailed(d, NoTextMessage), c)
      else
        var chunks := SplitText(splitter, text);
        if chunks == [] then (MarkFailed(d, SplitFailedMessage), c)
        else
          var (added, c') := AddOutcome(c, chunks, embed(chunks), d.id, documentName, userId, chromaFault);
          match added
          case Failure(e) => (MarkFailed(d, e), c)
          case Success(n) =>
            (d.(status := Completed, chunkCount := |chunks|, embeddingCount := n,
                contentPreview := Some(ContentPreview(text, DefaultPreviewLength)), processedAt := Some(now)),
             c')
  }

  /** What processing does to a row: it keeps the row's identity, file and owner and its
      consistency. Whitespace-only text, an empty chunk list and any error raised on the way
      each fail the row with their message, keeping its counts, preview and processing time
      and writing nothing to the index. Completion sets `chunk_count` to the number of chunks
      and `embedding_count` to what `add_documents` returned (the same number), the preview
      of the text and the processing time, after the chunks' records are added. */
  lemma PipelineOutcomeShape(d: Document, extracted: Result<string, string>, splitter: Splitter,
                             c: Collection, embed: seq<string> -> Result<seq<Vector>, string>,
                             documentName: string, userId: int, chromaFault: Option<string>,
                             now: Timestamp)
    ensures var r := PipelineOutcome(d, extracted, splitter, c, embed, documentName, userId, chromaFault, now);
            && r.0.id == d.id && r.0.filename == d.filename && r.0.originalFilename == d.originalFilename
            && r.0.filePath == d.filePath && r.0.fileType == d.fileType && r.0.fileSize == d.fileSize
            && r.0.createdAt == d.createdAt && r.0.userId == d.userId
            && (Consistent(d) ==> Consistent(r.0))
            && (r.0.status == Failed ==>
                  && r.0.chunkCount == d.chunkCount && r.0.embeddingCount == d.embeddingCount
                  && r.0.contentPreview == d.contentPreview && r.0.processedAt == d.processedAt)
            && (extracted.Failure? ==> r.0.status == Failed && r.0.errorMessage == Some(extracted.error))
            && (extracted.Success? && IsBlank(extracted.value) ==>
                  r.0.status == Failed && r.0.errorMessage == Some(NoTextMessage))
            && (extracted.Success? && !IsBlank(extracted.value) && SplitText(splitter, extracted.value) == [] ==>
                  r.0.status == Failed && r.0.errorMessage == Some(SplitFailedMessage))
            && (r.0.status == Completed ==>
                  var text := extracted.value;
                  var chunks := SplitText(splitter, text);
                  && extracted.Success? && !IsBlank(text) && chunks != []
                  && embed(chunks).Success? && |embed(chunks).value| == |chunks| && chromaFault.None?
                  && r.0.chunkCount == |chunks| && r.0.embeddingCount == |chunks|
                  && r.0.contentPreview == Some(ContentPreview(text, DefaultPreviewLength))
                  && r.0.processedAt == Some(now) && r.0.errorMessage == d.errorMessage
                  && r.1 == AddRecords(c, chunks, embed(chunks).value, d.id, documentName, userId))
  {
    if extracted.Success? {
      StripShape(extracted.value);
    }
  }

  /** Processing that completes a document with no records in the index yet leaves one
      record per chunk there, each carrying the document's id and owner, and the owner's
      record count grows by the document's `chunk_count`. */
  lemma CompletedDocumentIsIndexed(d: Document, extracted: Result<string, string>, splitter: Splitter,
                                   c: Collection, embed: seq<string> -> Result<seq<Vector>, string>,
                                   documentName: string, userId: int, chromaFault: Option<string>,
                                   now: Timestamp)
    requires forall i: nat :: ChunkId(d.id, i) !in c
    requires PipelineOutcome(d, extracted, splitter, c, embed, documentName, userId, chromaFault, now).0.status == Completed
    ensures var (d', c') := PipelineOutcome(d, extracted, splitter, c, embed, documentName, userId, chromaFault, now);
            && (forall i :: 0 <= i < d'.chunkCount ==>
                  ChunkId(d.id, i) in c' && OfDocument(c'[ChunkId(d.id, i)], d.id)
                  && OfUser(c'[ChunkId(d.id, i)], userId))
            && UserCount(c', userId) == UserCount(c, userId) + d'.chunkCount
  {
    PipelineOutcomeShape(d, extracted, splitter, c, embed, documentName, userId, chromaFault, now);
    var text := extracted.value;
    var chunks := SplitText(splitter, text);
    AddOutcomeStoresEveryChunk(c, chunks, embed(chunks), d.id, documentName, userId, chromaFault);
  }

  /** `reprocess_document`'s reset of a row: pending again, no counts, no error, no
      processing time; the preview is kept. */
  function ResetForReprocessing(d: Document): (r: Document)
    ensures r.status == Pending && r.chunkCount == 0 && r.embeddingCount == 0
    ensures r.errorMessage == None && r.processedAt == None && r.contentPreview == d.contentPreview
    ensures r.id == d.id && r.userId == d.userId && r.filePath == d.filePath && r.fileType == d.fileType
    ensures r.originalFilename == d.originalFilename && r.createdAt == d.createdAt
    ensures r.filename == d.filename && r.fileSize == d.fileSize
    ensures Consistent(r)
  {
    d.(status := Pending, chunkCount := 0, embeddingCount := 0, errorMessage := None, processedAt := None)
  }

  function DeletedMessage(name: string): string
  {
    "Document '" + name + "' deleted successfully"
  }

  function ReprocessMessage(name: string): string
  {
    "Document '" + name + "' queued for reprocessing"
  }

  /** `sum(doc.chunk_count for doc in documents)` over the listed ids. */
  function ChunkTotal(docs: map<int, Document>, ids: seq<int>): int
    requires forall k :: 0 <= k < |ids| ==> ids[k] in docs
  {
    if ids == [] then 0 else ChunkTotal(docs, ids[..|ids| - 1]) + docs[ids[|ids| - 1]].chunkCount
  }

  function EmbeddingTotal(docs: map<int, Document>, ids: seq<int>): int
    requires forall k :: 0 <= k < |ids| ==> ids[k] in docs
  {
    if ids == [] then 0 else EmbeddingTotal(docs, ids[..|ids| - 1]) + docs[ids[|ids| - 1]].embeddingCount
  }

  /** The listing of the rows `ids`, in that order. */
  function Listing(docs: map<int, Document>, ids: seq<int>): (r: DocumentListResponse)
    requires forall k :: 0 <= k < |ids| ==> ids[k] in docs
    ensures r.total == |ids| == |r.documents|
    ensures forall k :: 0 <= k < |ids| ==> r.documents[k] == ToResponse(docs[ids[k]])
    ensures r.totalChunks == ChunkTotal(docs, ids) && r.totalEmbeddings == EmbeddingTotal(docs, ids)
  {
    DocumentListResponse(seq(|ids|, k requires 0 <= k < |ids| => ToResponse(docs[ids[k]])), |ids|,
                         ChunkTotal(docs, ids), EmbeddingTotal(docs, ids))
  }

  /** Builds the listing of `ids` with one pass that converts each row and adds up its
      counts. */
  method ListRows(docs: map<int, Document>, ids: seq<int>) returns (r: DocumentListResponse)
    requires forall k :: 0 <= k < |ids| ==> ids[k] in docs
    ensures r == Listing(docs, ids)
  {
    var documents: seq<DocumentResponse> := [];
    var totalChunks := 0;
    var totalEmbeddings := 0;
    for i := 0 to |ids|
      invariant |documents| == i
      invariant forall k :: 0 <= k < i ==> documents[k] == ToResponse(docs[ids[k]])
      invariant totalChunks == ChunkTotal(docs, ids[..i])
      invariant totalEmbeddings == EmbeddingTotal(docs, ids[..i])
    {
      assert ids[..i + 1][..i] == ids[..i];
      var d := docs[ids[i]];
      documents := documents + [ToResponse(d)];
      totalChunks := totalChunks + d.chunkCount;
      totalEmbeddings := totalEmbeddings + d.embeddingCount;
    }
    assert ids[..|ids|] == ids;
    r := DocumentListResponse(documents, |ids|, totalChunks, totalEmbeddings);
  }

  /** Over consistent rows the two totals agree and are never negative. */
  lemma {:induction false} TotalsAgree(docs: map<int, Document>, ids: seq<int>, nextId: int)
    requires WellKeyed(docs, nextId)
    requires forall k :: 0 <= k < |ids| ==> ids[k] in docs
    ensures EmbeddingTotal(docs, ids) == ChunkTotal(docs, ids) >= 0
  {
    if ids != [] {
      TotalsAgree(docs, ids[..|ids| - 1], nextId);
      var last := ids[|ids| - 1];
      assert last in docs;
      assert docs[last].id == last;
      assert Consistent(docs[last]);
    }
  }

  /** The documents table, the saved files, the pending background tasks and the vector
      index. `commits` records the status each commit of the background task wrote. */
  class DocumentStore {
    const vectors: VectorStoreService
    const decoders: Decoders
    const splitter: Splitter

    var docs: map<int, Document>
    var nextId: int
    var disk: Disk
    var queue: seq<Task>
    ghost var commits: seq<(int, Status)>

    constructor (vectors: VectorStoreService, decoders: Decoders, splitter: Splitter)
      requires vectors.Valid()
      ensures this.vectors == vectors && this.decoders == decoders && this.splitter == splitter
      ensures docs == map[] && disk == map[] && queue == [] && commits == []
      ensures Valid()
    {
      this.vectors := vectors;
      this.decoders := decoders;
      this.splitter := splitter;
      docs := map[];
      nextId := 1;
      disk := map[];
      queue := [];
      commits := [];
    }

    predicate Valid()
      reads this, vectors
    {
      vectors.Valid() && WellKeyed(docs, nextId)
    }

    /** One iteration of the upload loop: a file that fails validation, or whose save
        raised, changes nothing; an accepted file is written under its stored name, its row
        inserted under the next id and its processing task queued. */
    method UploadOne(files: seq<UploadFile>, outcomes: seq<Result<string, string>>, i: int,
                     ghost intakes: seq<Intake>, userId: int, now: Timestamp)
      returns (response: Option<DocumentResponse>, ghost a: Option<Admission>)
      requires Valid() && ClassifiedAs(files, outcomes, intakes) && 0 <= i < |files|
      modifies this
      ensures Valid()
      ensures a == Admit(intakes[i], old(nextId), userId, now)
      ensures a.None? ==> response.None? && unchanged(this)
      ensures a.Some? ==>
                && response == Some(ToResponse(a.value.doc))
                && docs == old(docs)[a.value.doc.id := a.value.doc]
                && disk == old(disk)[a.value.doc.filePath := a.value.content]
                && queue == old(queue) + [a.value.task] && nextId == old(nextId) + 1
                && commits == old(commits)
    {
      var file, saved := files[i], outcomes[i];
      ghost var t := IntakeOf(file, saved);
      assert t == intakes[i];
      IntakeOfAccepts(file, saved);
      var (valid, _) := ValidateFile(file.filename, |file.content|);
      if !valid || saved.Failure? {
        return None, None;
      }
      var fileExt := FileExtension(file.filename);
      var (uniqueFilename, filePath, written) := SaveFile(disk, file.content, saved.value, file.filename);
      assert uniqueFilename == t.hex + t.fileExt;
      disk := written;
      var document := NewDocument(nextId, uniqueFilename, file.filename, filePath, fileExt,
                                  |file.content|, userId, now);
      docs := docs[nextId := document];
      var task := Task(nextId, filePath, fileExt, userId, file.filename);
      queue := queue + [task];
      nextId := nextId + 1;
      response := Some(ToResponse(document));
      a := Some(Admission(document, task, file.content));
    }

    /** `upload_documents(files)`, given for each file what saving it gives. An empty list is
        refused with 400 and changes nothing. Otherwise the accepted files are written to
        disk, inserted as pending rows under fresh ids and queued for processing; the reply
        counts every file once. */
    method Upload(userId: int, files: seq<UploadFile>, saved: seq<Result<string, string>>, now: Timestamp)
      returns (r: Result<UploadResponse, HttpError>, ghost intakes: seq<Intake>)
      requires Valid() && |saved| == |files|
      modifies this
      ensures Valid()
      ensures files == [] ==> r == Failure(HttpError(BadRequest, NoFilesMessage)) && unchanged(this)
      ensures ClassifiedAs(files, saved, intakes)
      ensures files != [] ==>
                var adm := Admissions(intakes, old(nextId), userId, now);
                && r == Success(UploadOutcome(files, adm))
                && docs == Install(old(docs), adm)
                && disk == SaveAll(old(disk), adm)
                && queue == old(queue) + Tasks(adm)
                && nextId == old(nextId) + |adm|
                && commits == old(commits)
    {
      intakes := Classify(files, saved);
      if files == [] {
        return Failure(HttpError(BadRequest, NoFilesMessage)), intakes;
      }
      ghost var docs0, disk0, queue0, firstId := docs, disk, queue, nextId;
      var documents: seq<DocumentResponse> := [];
      var successful: nat := 0;
      var failed: nat := 0;
      ghost var admitted: seq<Admission> := [];
      assert intakes[..0] == [];
      for i := 0 to |files|
        invariant Valid()
        invariant admitted == Admissions(intakes[..i], firstId, userId, now)
        invariant successful == |admitted| && failed == i - |admitted|
        invariant documents == Responses(admitted)
        invariant nextId == firstId + |admitted|
        invariant docs == Install(docs0, admitted)
        invariant disk == SaveAll(disk0, admitted)
        invariant queue == queue0 + Tasks(admitted)
        invariant commits == old(commits)
      {
        var response;
        ghost var a;
        response, a := UploadOne(files, saved, i, intakes, userId, now);
        AdmissionsSnoc(intakes, i, firstId, userId, now, admitted, a);
        if response.None? {
          failed := failed + 1;
        } else {
          AdmissionSnoc(docs0, disk0, queue0, admitted, a.value);
          documents := documents + [response.value];
          admitted := admitted + [a.value];
          successful := successful + 1;
        }
      }
      assert intakes[..|files|] == intakes;
      r := Success(UploadResponse(UploadMessage(successful, failed), documents, |files|, successful, failed));
    }

    /** The stages of `process_document_background` after the row `d` is marked as
        processing: split the extracted text, add the chunks to the index, and give the
        row's final state. */
    method Finish(d: Document, extracted: Result<string, string>, documentName: string, userId: int,
                  now: Timestamp, chromaFault: Option<string>) returns (d': Document)
      requires vectors.Valid()
      modifies vectors
      ensures vectors.Valid()
      ensures (d', vectors.Contents()) ==
                PipelineOutcome(d, extracted, splitter, old(vectors.Contents()), vectors.EmbedAll,
                                documentName, userId, chromaFault, now)
      ensures d'.id == d.id && d'.userId == d.userId && (Consistent(d) ==> Consistent(d'))
    {
      PipelineOutcomeShape(d, extracted, splitter, vectors.Contents(), vectors.EmbedAll,
                           documentName, userId, chromaFault, now);
      if extracted.Failure? {
        return MarkFailed(d, extracted.error);
      }
      var text := extracted.value;
      if Strip(text) == "" {
        return MarkFailed(d, NoTextMessage);
      }
      var chunks := SplitText(splitter, text);
      if chunks == [] {
        return MarkFailed(d, SplitFailedMessage);
      }
      var added := vectors.AddDocuments(chunks, d.id, documentName, userId, chromaFault);
      if added.Failure? {
        return MarkFailed(d, added.error);
      }
      d' := d.(status := Completed, chunkCount := |chunks|, embeddingCount := added.value,
               contentPreview := Some(ContentPreview(text, DefaultPreviewLength)), processedAt := Some(now));
    }

    /** `process_document_background(task)`. A task whose row no longer exists changes
        nothing. Otherwise the row is committed as processing first, then as completed or
        failed, as `PipelineOutcome` says for the text extracted from the saved file; the
        index changes only when processing completes. */
    method ProcessDocument(task: Task, now: Timestamp, chromaFault: Option<string>)
      requires Valid()
      modifies this, vectors
      ensures Valid()
      ensures task.documentId !in old(docs) ==> unchanged(this) && unchanged(vectors)
      ensures task.documentId in old(docs) ==>
                var id := task.documentId;
                var (d', c') := PipelineOutcome(old(docs)[id].(status := Processing),
                                                ExtractedText(decoders, disk, task.filePath, task.fileType),
                                                splitter, old(vectors.Contents()), vectors.EmbedAll,
                                                task.documentName, task.userId, chromaFault, now);
                && docs == old(docs)[id := d']
                && vectors.Contents() == c'
                && commits == old(commits) + [(id, Processing), (id, d'.status)]
      ensures task.documentId in old(docs) ==>
                var d' := docs[task.documentId];
                d'.userId == old(docs)[task.documentId].userId && (d'.status == Completed || d'.status == Failed)
      ensures disk == old(disk) && queue == old(queue) && nextId == old(nextId)
    {
      var id := task.documentId;
      if id !in docs {
        return;
      }
      // The processing row is committed before the text is read; nothing reads the table
      // in between, so both writes are applied once the outcome is known.
      var processing := docs[id].(status := Processing);
      var extracted := ExtractText(decoders, disk, task.filePath, task.fileType);
      var d' := Finish(processing, extracted, task.documentName, task.userId, now, chromaFault);
      WellKeyedUpdate(docs, nextId, id, d');
      docs := docs[id := d'];
      commits := commits + [(id, Processing), (id, d'.status)];
    }

    /** Runs the first scheduled task: only the row it names changes, and that row, when it
        still exists, ends completed or failed. */
    method ProcessNext(now: Timestamp, chromaFault: Option<string>)
      requires Valid() && queue != []
      modifies this, vectors
      ensures Valid() && queue == old(queue)[1..]
      ensures docs.Keys == old(docs).Keys && nextId == old(nextId) && disk == old(disk)
      ensures forall k :: k in docs ==> docs[k].userId == old(docs)[k].userId
      ensures forall k :: k in docs && k != old(queue)[0].documentId ==> docs[k] == old(docs)[k]
      ensures old(queue)[0].documentId in docs ==>
                docs[old(queue)[0].documentId].status == Completed ||
                docs[old(queue)[0].documentId].status == Failed
    {
      var task := queue[0];
      queue := queue[1..];
      ProcessDocument(task, now, chromaFault);
    }

    /** Runs the scheduled tasks one after another until none is left. Afterwards every
        row a task named (and that still exists) is completed or failed. */
    method RunQueue(now: Timestamp, chromaFault: Option<string>)
      requires Valid()
      modifies this, vectors
      ensures Valid() && queue == []
      ensures docs.Keys == old(docs).Keys && nextId == old(nextId) && disk == old(disk)
      ensures forall k :: k in docs ==> docs[k].userId == old(docs)[k].userId
      ensures forall t :: t in old(queue) && t.documentId in docs ==>
                docs[t.documentId].status == Completed || docs[t.documentId].status == Failed
    {
      ghost var pending := queue;
      ghost var done := 0;
      while queue != []
        invariant Valid()
        invariant 0 <= done <= |pending| && queue == pending[done..]
        invariant docs.Keys == old(docs).Keys && nextId == old(nextId) && disk == old(disk)
        invariant forall k :: k in docs ==> docs[k].userId == old(docs)[k].userId
        invariant forall t :: t in pending[..done] && t.documentId in docs ==>
                    docs[t.documentId].status == Completed || docs[t.documentId].status == Failed
        decreases |queue|
      {
        assert pending[..done + 1] == pending[..done] + [queue[0]];
        ProcessNext(now, chromaFault);
        done := done + 1;
      }
      assert pending[..done] == pending;
    }

    /** `list_documents()`: the caller's documents newest first (`order`, ties in any order),
        how many there are, and the sums of their chunk and embedding counts. */
    method ListDocuments(userId: int) returns (r: DocumentListResponse, ghost order: seq<int>)
      requires Valid()
      ensures multiset(order) == multiset(OwnerDocIds(docs, userId))
      ensures NewestFirst(CreatedKey(docs), order)
      ensures forall k :: 0 <= k < |order| ==> Owns(docs, userId, order[k])
      ensures r.total == |OwnerDocIds(docs, userId)|
      ensures r == Listing(docs, order)
    {
      var sorted := SelectNewestFirst(docs, OwnedBy(userId), CreatedAtKey, nextId);
      SelectedOrderMembers(docs, OwnedBy(userId), sorted);
      r := ListRows(docs, sorted);
      order := sorted;
    }

    /** `get_document(document_id)`: 404 unless the caller owns the row. */
    method GetDocument(userId: int, documentId: int) returns (r: Result<DocumentResponse, HttpError>)
      requires Valid()
      ensures r.Success? <==> Owns(docs, userId, documentId)
      ensures r.Success? ==> r.value == ToResponse(docs[documentId])
      ensures r.Failure? ==> r.error == HttpError(NotFound, DocumentNotFound)
    {
      if !Owns(docs, userId, documentId) {
        return Failure(HttpError(NotFound, DocumentNotFound));
      }
      r := Success(ToResponse(docs[documentId]));
    }

    /** `delete_document(document_id)`: 404 unless the caller owns the row; otherwise the
        document's records are removed from the index (when ChromaDB does not fail), its
        file from disk and its row from the table. */
    method DeleteDocument(userId: int, documentId: int, chromaFault: Option<string>)
      returns (r: Result<string, HttpError>)
      requires Valid()
      modifies this, vectors
      ensures Valid()
      ensures r.Success? <==> Owns(old(docs), userId, documentId)
      ensures r.Failure? ==>
                r.error == HttpError(NotFound, DocumentNotFound) && unchanged(this) && unchanged(vectors)
      ensures r.Success? ==>
                var d := old(docs)[documentId];
                && r.value == DeletedMessage(d.originalFilename)
                && docs == old(docs) - {documentId}
                && disk == DeleteFile(old(disk), d.filePath).0
                && vectors.Contents() ==
                     (if chromaFault.None? then WithoutDocument(old(vectors.Contents()), documentId)
                      else old(vectors.Contents()))
                && queue == old(queue) && nextId == NextRowId(docs, old(nextId)) && commits == old(commits)
    {
      if !Owns(docs, userId, documentId) {
        return Failure(HttpError(NotFound, DocumentNotFound));
      }
      var d := docs[documentId];
      var _ := vectors.DeleteDocument(documentId, chromaFault);
      var (remaining, _) := DeleteFile(disk, d.filePath);
      disk := remaining;
      docs := docs - {documentId};
      nextId := NextRowId(docs, nextId);
      r := Success(DeletedMessage(d.originalFilename));
    }

    /** `reprocess_document(document_id)`: 404 unless the caller owns the row; otherwise the
        document's records are removed from the index (when ChromaDB does not fail), the row
        is reset to pending and a processing task is queued for its saved file. */
    method Reprocess(userId: int, documentId: int, chromaFault: Option<string>)
      returns (r: Result<string, HttpError>)
      requires Valid()
      modifies this, vectors
      ensures Valid()
      ensures r.Success? <==> Owns(old(docs), userId, documentId)
      ensures r.Failure? ==>
                r.error == HttpError(NotFound, DocumentNotFound) && unchanged(this) && unchanged(vectors)
      ensures r.Success? ==>
                var d := old(docs)[documentId];
                && r.value == ReprocessMessage(d.originalFilename)
                && docs == old(docs)[documentId := ResetForReprocessing(d)]
                && queue == old(queue) + [Task(documentId, d.filePath, d.fileType, userId, d.originalFilename)]
                && vectors.Contents() ==
                     (if chromaFault.None? then WithoutDocument(old(vectors.Contents()), documentId)
                      else old(vectors.Contents()))
                && disk == old(disk) && nextId == old(nextId) && commits == old(commits)
    {
      if !Owns(docs, userId, documentId) {
        return Failure(HttpError(NotFound, DocumentNotFound));
      }
      var d := docs[documentId];
      var _ := vectors.DeleteDocument(documentId, chromaFault);
      docs := docs[documentId := ResetForReprocessing(d)];
      queue := queue + [Task(documentId, d.filePath, d.fileType, userId, d.originalFilename)];
      r := Success(ReprocessMessage(d.originalFilename));
    }
  }

  /** A user without documents gets an empty listing with zero totals. */
  lemma EmptyListing(docs: map<int, Document>, userId: int, order: seq<int>)
    requires OwnerDocIds(docs, userId) == {}
    requires multiset(order) == multiset(OwnerDocIds(docs, userId))
    ensures order == [] && ChunkTotal(docs, order) == 0 && EmbeddingTotal(docs, order) == 0
  {
    SelectedOrderMembers(docs, OwnedBy(userId), order);
  }
}
