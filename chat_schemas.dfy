/** Request and response shapes of the question-answering API (backend/app/schemas/chat.py). */
module ChatSchemas {
  import opened Common

  /** A cited search result. `relevanceScore` is the similarity rounded to four decimals,
      kept as an integer number of ten-thousandths. */
  datatype SourceDocument = SourceDocument(
    content: string,
    documentName: string,
    chunkIndex: int,
    relevanceScore: int)

  const MinQuestionLength: nat := 1
  const MaxQuestionLength: nat := 2000
  const UnprocessableEntity: nat := 422

  datatype AskRequest = AskRequest(question: string)

  /** Pydantic's validation of the request body: `question` must have between 1 and 2000
      characters, otherwise the request is answered with 422. */
  function ParseAskRequest(question: string): (r: Result<AskRequest, HttpError>)
    ensures r.Success? <==> MinQuestionLength <= |question| <= MaxQuestionLength
    ensures r.Success? ==> r.value.question == question
    ensures r.Failure? ==> r.error.status == UnprocessableEntity
    ensures question == "" ==> r.Failure?
  {
    if |question| < MinQuestionLength then
      Failure(HttpError(UnprocessableEntity, "String should have at least 1 character"))
    else if |question| > MaxQuestionLength then
      Failure(HttpError(UnprocessableEntity, "String should have at most 2000 characters"))
    else Success(AskRequest(question))
  }

  /** `processingTime` is the elapsed time rounded to milliseconds, as an integer. */
  datatype AskResponse = AskResponse(
    answer: string,
    sources: seq<SourceDocument>,
    processingTime: int,
    question: string)

  datatype ChatHistoryItem = ChatHistoryItem(
    id: int,
    question: string,
    answer: string,
    sources: Option<seq<SourceDocument>>,
    processingTime: Option<int>,
    createdAt: Option<Timestamp>)

  datatype ChatHistoryResponse = ChatHistoryResponse(messages: seq<ChatHistoryItem>, total: nat)
}
