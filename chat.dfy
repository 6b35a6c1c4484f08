/** The question-answering routes (backend/app/api/routes/chat.py) over the chat history
    table (backend/app/models/chat.py), held as a map from message id to message. */
module Chat {
  import opened Common
  import opened ChatSchemas
  import opened Ordering
  import opened VectorStore
  import opened LlmService

  /** A stored chat message. `processingTime` is in milliseconds, `createdAt` the clock
      reading at insertion. */
  datatype ChatMessage = ChatMessage(
    id: int,
    question: string,
    answer: string,
    sources: Option<seq<SourceDocument>>,
    processingTime: Option<int>,
    createdAt: Timestamp,
    userId: int)

  type Messages = map<int, ChatMessage>

  const NotFound: nat := 404
  /** `n_sources` as `ask_question` passes it. */
  const AskSources: int := 5
  const MinHistoryLimit: int := 1
  const MaxHistoryLimit: int := 100
  /** `Query(50, ...)` and `Query(0, ...)`: the values of omitted history parameters. */
  const DefaultHistoryLimit: int := 50
  const DefaultHistoryOffset: int := 0

  /** The filter `ChatHistory.user_id == userId`. */
  function OwnedBy(userId: int): ChatMessage -> bool
  {
    (m: ChatMessage) => m.userId == userId
  }

  /** The ids of `userId`'s messages. */
  function OwnerIds(ms: Messages, userId: int): (r: set<int>)
    ensures forall id :: id in r <==> id in ms && ms[id].userId == userId
  {
    Selected(ms, OwnedBy(userId))
  }

  /** The sort key of `ORDER BY created_at DESC`, read through the message id. */
  function CreatedKey(ms: Messages): (key: int -> int)
    ensures forall id :: id in ms ==> key(id) == ms[id].createdAt
  {
    KeyOf(ms, (m: ChatMessage) => m.createdAt as int)
  }

  /** `.offset(offset).limit(limit)`: the elements from position `offset`, at most `limit`
      of them. */
  function Page<T>(s: seq<T>, offset: nat, limit: nat): (r: seq<T>)
    ensures |r| == if offset >= |s| then 0 else if |s| - offset < limit then |s| - offset else limit
    ensures forall k :: 0 <= k < |r| ==> r[k] == s[offset + k]
  {
    if offset >= |s| then [] else Take(s[offset..], limit)
  }

  /** Reading a page and then the next one reads the two together. */
  lemma PagesConcatenate<T>(s: seq<T>, offset: nat, a: nat, b: nat)
    ensures Page(s, offset, a) + Page(s, offset + a, b) == Page(s, offset, a + b)
  {
    var l := Page(s, offset, a) + Page(s, offset + a, b);
    var r := Page(s, offset, a + b);
    assert |l| == |r|;
    forall k | 0 <= k < |r| ensures l[k] == r[k] {
      if k < |Page(s, offset, a)| {
      } else {
        assert l[k] == Page(s, offset + a, b)[k - |Page(s, offset, a)|];
      }
    }
  }

  /** One history entry; an empty or absent source list reads as `None`. */
  function HistoryItem(m: ChatMessage): (r: ChatHistoryItem)
    ensures r.id == m.id && r.question == m.question && r.answer == m.answer
    ensures r.sources.Some? <==> m.sources.Some? && m.sources.value != []
    ensures r.sources.Some? ==> r.sources == m.sources
    ensures r.processingTime == m.processingTime && r.createdAt == Some(m.createdAt)
  {
    ChatHistoryItem(m.id, m.question, m.answer,
                    if m.sources.Some? && m.sources.value != [] then m.sources else None,
                    m.processingTime, Some(m.createdAt))
  }

  function HistoryItems(ms: Messages, ids: seq<int>): (r: seq<ChatHistoryItem>)
    requires forall k :: 0 <= k < |ids| ==> ids[k] in ms
    ensures |r| == |ids|
    ensures forall k :: 0 <= k < |ids| ==> r[k] == HistoryItem(ms[ids[k]])
  {
    seq(|ids|, k requires 0 <= k < |ids| => HistoryItem(ms[ids[k]]))
  }

  /** The request-parameter validation of `get_chat_history`: `1 <= limit <= 100`,
      `offset >= 0`. */
  function HistoryRejection(limit: int, offset: int): (r: Option<HttpError>)
    ensures r.None? <==> MinHistoryLimit <= limit <= MaxHistoryLimit && offset >= 0
    ensures r.Some? ==> r.value.status == UnprocessableEntity
  {
    if limit < MinHistoryLimit then Some(HttpError(UnprocessableEntity, "Input should be greater than or equal to 1"))
    else if limit > MaxHistoryLimit then Some(HttpError(UnprocessableEntity, "Input should be less than or equal to 100"))
    else if offset < 0 then Some(HttpError(UnprocessableEntity, "Input should be greater than or equal to 0"))
    else None
  }

  /** The history query parameters as FastAPI fills them in: a given value is used as it is,
      an omitted one takes its default. */
  function HistoryParams(limit: Option<int>, offset: Option<int>): (r: (int, int))
  {
    (if limit.Some? then limit.value else DefaultHistoryLimit,
     if offset.Some? then offset.value else DefaultHistoryOffset)
  }

  /** Omitting a parameter never causes a rejection: a request is refused only for a given
      limit outside `1..100` or a given negative offset, and a request with neither is
      accepted. */
  lemma DefaultsAreAccepted(limit: Option<int>, offset: Option<int>)
    ensures var (l, o) := HistoryParams(limit, offset);
            && (HistoryRejection(l, o).Some? <==>
                  (limit.Some? && !(MinHistoryLimit <= limit.value <= MaxHistoryLimit))
                  || (offset.Some? && offset.value < 0))
            && (limit.None? ==> l == DefaultHistoryLimit)
            && (offset.None? ==> o == DefaultHistoryOffset)
  {
  }

  /** A user without messages sees an empty history whatever its page. */
  lemma EmptyHistory(ms: Messages, userId: int, order: seq<int>, offset: nat, limit: nat)
    requires OwnerIds(ms, userId) == {}
    requires multiset(order) == multiset(OwnerIds(ms, userId))
    ensures order == [] && Page(order, offset, limit) == []
  {
    SelectedOrderMembers(ms, OwnedBy(userId), order);
  }

  /** The message just asked, being newer than every other message of the table, heads its
      owner's history: it is the first entry of the first page. */
  lemma AskedQuestionHeadsHistory(ms: Messages, userId: int, id: int, order: seq<int>, limit: nat)
    requires id in ms && ms[id].userId == userId
    requires forall k :: k in ms && k != id ==> ms[k].createdAt < ms[id].createdAt
    requires multiset(order) == multiset(OwnerIds(ms, userId))
    requires NewestFirst(CreatedKey(ms), order)
    requires limit >= 1
    ensures Page(order, 0, limit) != [] && Page(order, 0, limit)[0] == id
  {
    SelectedOrderMembers(ms, OwnedBy(userId), order);
    assert id in OwnerIds(ms, userId);
    var key := CreatedKey(ms);
    forall k | 0 <= k < |order| && order[k] != id ensures key(order[k]) < key(id) {
      assert order[k] in ms;
    }
    NewestComesFirst(key, order, id);
  }

  /** The table without `userId`'s messages. */
  function WithoutUser(ms: Messages, userId: int): (r: Messages)
    ensures r.Keys == ms.Keys - OwnerIds(ms, userId)
    ensures forall k :: k in r ==> r[k] == ms[k]
  {
    Unselected(ms, OwnedBy(userId))
  }

  /** Clearing is scoped: the user has nothing left, every other user keeps exactly their
      messages, and the table shrinks by the number cleared. */
  lemma ClearIsScoped(ms: Messages, userId: int, other: int)
    ensures OwnerIds(WithoutUser(ms, userId), userId) == {}
    ensures other != userId ==> OwnerIds(WithoutUser(ms, userId), other) == OwnerIds(ms, other)
    ensures |WithoutUser(ms, userId)| + |OwnerIds(ms, userId)| == |ms|
  {
    var r := WithoutUser(ms, userId);
    assert r.Keys + OwnerIds(ms, userId) == ms.Keys;
    assert r.Keys * OwnerIds(ms, userId) == {};
  }

  function ClearedMessage(n: nat): string
  {
    "Cleared " + NatToString(n) + " messages from chat history"
  }

  /** The message table and the counter that assigns the next primary key. */
  class ChatStore {
    const llm: LlmServiceState
    var messages: Messages
    var nextId: int

    constructor (llm: LlmServiceState)
      requires llm.Valid()
      ensures this.llm == llm && messages == map[] && Valid()
    {
      this.llm := llm;
      messages := map[];
      nextId := 1;
    }

    /** Every message is stored under its own id, and the next id to assign is one more
        than the largest id, as SQLite assigns it. */
    predicate Valid()
      reads this, llm, llm.vectors
    {
      && llm.Valid()
      && IsNextRowId(messages, nextId)
      && (forall k :: k in messages ==> messages[k].id == k)
    }

    /** `ask_question`: the body is validated first (422); the answer is then stored with the
        caller as owner, and returned. The stored source list is absent when no source was
        found. */
    method Ask(userId: int, question: string, now: Timestamp, chromaFault: Option<string>, elapsed: int)
      returns (r: Result<AskResponse, HttpError>)
      requires Valid()
      modifies this, llm, llm.vectors
      ensures Valid()
      ensures r.Failure? <==> ParseAskRequest(question).Failure?
      ensures llm.vectors.Contents() == old(llm.vectors.Contents())
      ensures r.Failure? ==>
                r.error == ParseAskRequest(question).error && unchanged(this) && unchanged(llm, llm.vectors)
      ensures r.Success? ==>
                && r.value == AnswerOutcome(llm.client, llm.generate, question,
                                            SearchOutcome(llm.vectors.Contents(), llm.vectors.QueryVector(question),
                                                          llm.vectors.ranking, userId, AskSources, chromaFault),
                                            elapsed)
                && old(nextId) !in old(messages)
                && messages == old(messages)[old(nextId) :=
                     ChatMessage(old(nextId), question, r.value.answer,
                                 if r.value.sources == [] then None else Some(r.value.sources),
                                 Some(r.value.processingTime), now, userId)]
    {
      var request := ParseAskRequest(question);
      if request.Failure? {
        return Failure(request.error);
      }
      var result := llm.AnswerQuestion(request.value.question, userId, AskSources, chromaFault, elapsed);
      Record(question, result, now, userId);
      r := Success(AskResponse(result.answer, result.sources, result.processingTime, result.question));
    }

    /** The row `ask_question` commits: the answer under the next id, owned by the caller,
        with no source list when there were no sources. */
    method Record(question: string, result: AskResponse, now: Timestamp, userId: int)
      requires Valid()
      modifies this
      ensures Valid() && nextId == old(nextId) + 1 && old(nextId) !in old(messages)
      ensures messages == old(messages)[old(nextId) :=
                ChatMessage(old(nextId), question, result.answer,
                            if result.sources == [] then None else Some(result.sources),
                            Some(result.processingTime), now, userId)]
    {
      var stored := if result.sources == [] then None else Some(result.sources);
      var id := nextId;
      messages := messages[id := ChatMessage(id, question, result.answer, stored,
                                             Some(result.processingTime), now, userId)];
      nextId := nextId + 1;
    }

    /** `get_chat_history(limit, offset)`: `total` counts the caller's messages; the entries
        are the caller's messages newest first (`order`, ties in any order), from position
        `offset`, at most `limit` of them. */
    method History(userId: int, limitParam: Option<int>, offsetParam: Option<int>)
      returns (r: Result<ChatHistoryResponse, HttpError>, ghost order: seq<int>)
      requires Valid()
      ensures var (limit, offset) := HistoryParams(limitParam, offsetParam);
              && (r.Failure? <==> HistoryRejection(limit, offset).Some?)
              && (r.Failure? ==> r.error == HistoryRejection(limit, offset).value)
              && (r.Success? ==>
                    && r.value.total == |OwnerIds(messages, userId)|
                    && multiset(order) == multiset(OwnerIds(messages, userId))
                    && NewestFirst(CreatedKey(messages), order)
                    && (forall k :: 0 <= k < |order| ==> order[k] in messages)
                    && r.value.messages == HistoryItems(messages, Page(order, offset, limit)))
    {
      order := [];
      var (limit, offset) := HistoryParams(limitParam, offsetParam);
      var rejection := HistoryRejection(limit, offset);
      if rejection.Some? {
        return Failure(rejection.value), order;
      }
      var total := |OwnerIds(messages, userId)|;
      var sorted := SelectNewestFirst(messages, OwnedBy(userId), (m: ChatMessage) => m.createdAt as int, nextId);
      SelectedOrderMembers(messages, OwnedBy(userId), sorted);
      var page := Page(sorted, offset, limit);
      var items: seq<ChatHistoryItem> := [];
      for i := 0 to |page|
        invariant |items| == i
        invariant forall k :: 0 <= k < i ==> items[k] == HistoryItem(messages[page[k]])
      {
        var msg := messages[page[i]];
        var sources: Option<seq<SourceDocument>> := None;
        if msg.sources.Some? && msg.sources.value != [] {
          sources := msg.sources;
        }
        items := items + [ChatHistoryItem(msg.id, msg.question, msg.answer, sources,
                                          msg.processingTime, Some(msg.createdAt))];
      }
      order := sorted;
      r := Success(ChatHistoryResponse(items, total));
    }

    /** `clear_chat_history`: deletes the caller's messages one by one and reports how many. */
    method ClearHistory(userId: int) returns (removed: nat, message: string)
      requires Valid()
      modifies this
      ensures Valid()
      ensures removed == |OwnerIds(old(messages), userId)|
      ensures messages == WithoutUser(old(messages), userId)
      ensures message == ClearedMessage(removed)
      ensures nextId == NextRowId(messages, old(nextId))
    {
      var kept;
      kept, removed := DeleteSelected(messages, OwnedBy(userId), nextId);
      messages := kept;
      nextId := NextRowId(messages, nextId);
      message := ClearedMessage(removed);
    }

    /** `delete_chat_message(message_id)`: 404 unless the message exists and belongs to the
        caller; otherwise that message alone is removed. */
    method DeleteMessage(userId: int, messageId: int) returns (r: Result<string, HttpError>)
      requires Valid()
      modifies this
      ensures Valid()
      ensures r.Success? <==> messageId in old(messages) && old(messages)[messageId].userId == userId
      ensures r.Failure? ==>
                r.error == HttpError(NotFound, "Message not found") && messages == old(messages)
                && nextId == old(nextId)
      ensures r.Success? ==>
                && r.value == "Chat message deleted successfully" && messages == old(messages) - {messageId}
                && nextId == NextRowId(messages, old(nextId))
    {
      if !(messageId in messages && messages[messageId].userId == userId) {
        return Failure(HttpError(NotFound, "Message not found"));
      }
      messages := messages - {messageId};
      nextId := NextRowId(messages, nextId);
      r := Success("Chat message deleted successfully");
    }
  }
}
