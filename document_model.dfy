/** The `Document` table row and its processing status (backend/app/models/document.py). */
module DocumentModel {
  import opened Common

  datatype Status = Pending | Processing | Completed | Failed

  /** `DocumentStatus.value`. */
  function StatusValue(s: Status): string
  {
    match s
    case Pending => "pending"
    case Processing => "processing"
    case Completed => "completed"
    case Failed => "failed"
  }

  /** `DocumentStatus(v)`: the member whose value is `v`, if any. */
  function ParseStatus(v: string): Option<Status>
  {
    if v == "pending" then Some(Pending)
    else if v == "processing" then Some(Processing)
    else if v == "completed" then Some(Completed)
    else if v == "failed" then Some(Failed)
    else None
  }

  /** Every status has its own value and the value names it back: the four values are
      exactly the strings the enum accepts. */
  lemma StatusValueRoundTrip(s: Status, v: string)
    ensures ParseStatus(StatusValue(s)) == Some(s)
    ensures ParseStatus(v) == Some(s) <==> v == StatusValue(s)
  {
  }

  /** One row of the `documents` table. `createdAt` and `processedAt` are nullable columns. */
  datatype Document = Document(
    id: int,
    filename: string,
    originalFilename: string,
    filePath: string,
    fileType: string,
    fileSize: int,
    status: Status,
    chunkCount: int,
    embeddingCount: int,
    contentPreview: Option<string>,
    errorMessage: Option<string>,
    createdAt: Option<Timestamp>,
    processedAt: Option<Timestamp>,
    userId: int)

  /** What every row satisfies whichever way it was reached: created by an upload, then
      processed, failed, reprocessed or processed again. */
  predicate Consistent(d: Document)
  {
    && 0 <= d.chunkCount
    && d.embeddingCount == d.chunkCount
    && (d.status == Pending ==> d.chunkCount == 0 && d.errorMessage == None && d.processedAt == None)
    && (d.status == Completed ==> d.processedAt.Some? && d.chunkCount >= 1)
    && (d.status == Failed ==> d.errorMessage.Some?)
  }

  /** A row as `Document(...)` creates it when only the upload fields are given: the column
      defaults apply (status pending, both counts 0, no preview, error or processing time). */
  function NewDocument(id: int, filename: string, originalFilename: string, filePath: string,
                       fileType: string, fileSize: int, userId: int, now: Timestamp): (d: Document)
    ensures d.id == id && d.userId == userId && d.originalFilename == originalFilename
    ensures d.status == Pending && d.chunkCount == 0 && d.embeddingCount == 0
    ensures d.contentPreview == None && d.errorMessage == None && d.processedAt == None
    ensures d.createdAt == Some(now)
    ensures Consistent(d)
  {
    Document(id, filename, originalFilename, filePath, fileType, fileSize, Pending, 0, 0,
             None, None, Some(now), None, userId)
  }

  /** The dictionary `to_dict` returns. */
  datatype DocumentDict = DocumentDict(
    id: int,
    filename: string,
    fileType: string,
    fileSize: int,
    status: string,
    chunkCount: int,
    embeddingCount: int,
    contentPreview: Option<string>,
    createdAt: Option<Timestamp>,
    processedAt: Option<Timestamp>,
    errorMessage: Option<string>)

  const DictPreviewLength: nat := 200

  /** `Document.to_dict()`. */
  function ToDict(d: Document): (r: DocumentDict)
    ensures r.id == d.id && r.filename == d.originalFilename
    ensures ParseStatus(r.status) == Some(d.status)
    ensures r.contentPreview.None? <==> d.contentPreview.None? || d.contentPreview.value == ""
    ensures r.contentPreview.Some? ==>
              && |r.contentPreview.value| <= DictPreviewLength
              && r.contentPreview.value ==
                   (if |d.contentPreview.value| <= DictPreviewLength then d.contentPreview.value
                    else d.contentPreview.value[..DictPreviewLength])
    ensures r.processedAt == d.processedAt && r.createdAt == d.createdAt
    ensures r.fileType == d.fileType && r.fileSize == d.fileSize && r.errorMessage == d.errorMessage
    ensures r.chunkCount == d.chunkCount && r.embeddingCount == d.embeddingCount
  {
    StatusValueRoundTrip(d.status, StatusValue(d.status));
    var preview := match d.contentPreview
      case Some(p) => if p != "" then Some(Take(p, DictPreviewLength)) else None
      case None => None;
    DocumentDict(d.id, d.originalFilename, d.fileType, d.fileSize, StatusValue(d.status),
                 d.chunkCount, d.embeddingCount, preview, d.createdAt, d.processedAt, d.errorMessage)
  }
}
