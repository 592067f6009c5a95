/** The chat service: the checks on a user's message in front of the chat
    handler, and the shape of the answer it returns. */
module ChatService {
  import opened Wrappers
  import opened Text
  import opened Repository
  import opened ChatHandling

  /** The longest message accepted, in characters. */
  const MaxMessageLength := 1000

  /** The answer to a chat request. */
  datatype ChatResponse = ChatResponse(response: string, status: string, sourcesUsed: bool, sources: seq<Source>)

  /** Why `process_chat` refuses `message` before reaching the handler, if
      it does: a message that is empty or all whitespace, or one of more
      than 1000 characters. A message of exactly 1000 characters that is
      not blank passes. */
  function MessageRejection(message: string): (e: Option<Error>)
    ensures e.None? <==> !IsBlank(message) && |message| <= MaxMessageLength
    ensures IsBlank(message) ==> e == Some(ValueError("Message cannot be empty"))
    ensures !IsBlank(message) && |message| > MaxMessageLength ==>
      e == Some(ValueError("Message too long (max 1000 characters)"))
  {
    if IsBlank(message) then Some(ValueError("Message cannot be empty"))
    else if |message| > MaxMessageLength then Some(ValueError("Message too long (max 1000 characters)"))
    else None
  }

  /** `process_chat` around the handler's result `handled`: a refused
      message gives its error whatever the handler would have done (the
      handler is not reached); otherwise the handler's error is passed on,
      or its reply, flag and sources are returned with status "success". */
  function ProcessChatSpec(message: string, handled: Result<ChatResult>): (r: Result<ChatResponse>)
    ensures MessageRejection(message).Some? ==> r == Err(MessageRejection(message).value)
    ensures MessageRejection(message).None? ==> (r.Ok? <==> handled.Ok?)
    ensures MessageRejection(message).None? && handled.Err? ==> r.error == handled.error
    ensures r.Ok? ==>
      handled.Ok? && r.value.status == "success" &&
      r.value.response == handled.value.response && r.value.sourcesUsed == handled.value.sourcesUsed &&
      r.value.sources == handled.value.sources
  {
    match MessageRejection(message)
    case Some(e) => Err(e)
    case None =>
      match handled
      case Err(e) => Err(e)
      case Ok(c) => Ok(ChatResponse(c.response, "success", c.sourcesUsed, c.sources))
  }

  /** The service object, delegating to one chat handler. */
  class ChatService {
    const handler: ChatHandler

    constructor (handler: ChatHandler)
      ensures this.handler == handler
    {
      this.handler := handler;
    }

    /** `process_chat`: a refused message never reaches the handler; an
        accepted one is answered by it, and the answer shaped. */
    method ProcessChat(message: string, documentId: Option<string>, interviewMode: bool)
      returns (r: Result<ChatResponse>, ghost handled: Result<ChatResult>, ghost stage1: seq<Match>,
               ghost order: seq<string>, ghost perDoc: seq<seq<Match>>, ghost results: seq<Match>)
      ensures r == ProcessChatSpec(message, handled)
      ensures MessageRejection(message).None? ==>
        handler.ChatOutcome(handler.repo.index, handler.repo.similarity, message, documentId, interviewMode,
                            handled, stage1, order, perDoc, results)
    {
      handled, stage1, order, perDoc, results := Err(ValueError("")), [], [], [], [];
      var rejection := MessageRejection(message);
      if rejection.Some? {
        return Err(rejection.value), handled, stage1, order, perDoc, results;
      }
      var answered;
      answered, stage1, order, perDoc, results := handler.HandleChat(message, documentId, interviewMode);
      handled := answered;
      if answered.Err? {
        return Err(answered.error), handled, stage1, order, perDoc, results;
      }
      var c := answered.value;
      r := Ok(ChatResponse(c.response, "success", c.sourcesUsed, c.sources));
    }
  }
}
