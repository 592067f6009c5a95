/** The chat-completion service (`backend/utils/llm_service.py`): the system
    prompt, the message lists sent to the model and the context block built
    from search results. The completion endpoint is the function `complete`
    the service is built with: given the model, the messages, the token
    limit and the temperature it answers with the reply text or with the
    error it raised. */
module Llm {
  import opened Wrappers
  import opened Text
  import opened Repository
  import opened Ranking

  /** One chat message, `{"role": …, "content": …}`. */
  datatype Message = Message(role: string, content: string)

  datatype LLMService = LLMService(
    model: string,
    maxTokens: int,
    temperature: real,
    complete: (string, seq<Message>, int, real) -> Result<string>)

  /** `__init__`: an empty API key is refused. */
  function NewLLMService(apiKey: string, model: string, maxTokens: int, temperature: real,
                         complete: (string, seq<Message>, int, real) -> Result<string>): (r: Result<LLMService>)
    ensures r.Err? <==> apiKey == ""
    ensures r.Err? ==> r.error == ValueError("OpenAI API key is required")
    ensures r.Ok? ==> r.value.model == model && r.value.maxTokens == maxTokens && r.value.temperature == temperature
  {
    if apiKey == "" then Err(ValueError("OpenAI API key is required"))
    else Ok(LLMService(model, maxTokens, temperature, complete))
  }

  const BasePrompt :=
    "You are an AI assistant helping with interview questions.\n"
    + "You represent the candidate and answer questions as they would answer them.\n"
    + "\n"
    + "Guidelines:\n"
    + "- Be conversational and natural\n"
    + "- Keep responses concise (2-3 sentences unless more detail is requested)\n"
    + "- Be professional but authentic\n"
    + "- Use first person (\"I\", \"my\", \"me\")\n"
    + "- If you don't have specific information, respond naturally without making up details"

  const BackgroundHeader := "\n\nCANDIDATE BACKGROUND:\n"

  const BackgroundFooter :=
    "\n\nUse the background information above to answer questions about the candidate.\n"
    + "Base your answers on this information, speaking as the candidate."

  /** `_build_system_prompt`: the base prompt alone when there is no context
      or it is empty; otherwise the context set verbatim between the
      background header and footer after the base prompt. */
  function BuildSystemPrompt(context: Option<string>): (p: string)
    ensures context.None? || context.value == "" ==> p == BasePrompt
    ensures context.Some? && context.value != "" ==>
      BasePrompt + BackgroundHeader <= p && |BasePrompt + BackgroundHeader| + |context.value| <= |p| &&
      p[|BasePrompt + BackgroundHeader|..|BasePrompt + BackgroundHeader| + |context.value|] == context.value
  {
    if context.Some? && context.value != "" then
      var p := BasePrompt + BackgroundHeader + context.value + BackgroundFooter;
      assert p[|BasePrompt + BackgroundHeader|..|BasePrompt + BackgroundHeader| + |context.value|] == context.value;
      p
    else BasePrompt
  }

  /** Reads the background context back out of a system prompt. */
  function PromptContext(p: string): (c: Option<string>)
    ensures c.Some? ==> c.value != ""
  {
    var head := BasePrompt + BackgroundHeader;
    if |head| + |BackgroundFooter| < |p| && head <= p && p[|p| - |BackgroundFooter|..] == BackgroundFooter then
      Some(p[|head|..|p| - |BackgroundFooter|])
    else None
  }

  /** The context a prompt was built with is exactly what can be read back
      from it, and a prompt built without one carries none. */
  lemma PromptContextRoundTrip(context: Option<string>)
    ensures PromptContext(BuildSystemPrompt(context)) ==
      if context.Some? && context.value != "" then context else None
  {
    var head := BasePrompt + BackgroundHeader;
    if context.Some? && context.value != "" {
      var p := BuildSystemPrompt(context);
      assert p == head + context.value + BackgroundFooter;
      assert p[|p| - |BackgroundFooter|..] == BackgroundFooter;
      assert p[|head|..|p| - |BackgroundFooter|] == context.value;
    } else {
      assert |BuildSystemPrompt(context)| < |head|;
    }
  }

  /** `generate_response`: the system prompt and the user's message; the
      reply is stripped; a failure comes out as a generic error. */
  function GenerateResponse(llm: LLMService, userMessage: string, context: Option<string>): (r: Result<string>)
    ensures var answer := llm.complete(llm.model, [Message("system", BuildSystemPrompt(context)), Message("user", userMessage)],
                                       llm.maxTokens, llm.temperature);
      (r.Ok? <==> answer.Ok?) &&
      (r.Ok? ==> r.value == Strip(answer.value) && IsStripped(r.value)) &&
      (r.Err? ==> r.error.GenericError? && "Failed to generate response: " <= r.error.message)
  {
    var messages := [Message("system", BuildSystemPrompt(context)), Message("user", userMessage)];
    match llm.complete(llm.model, messages, llm.maxTokens, llm.temperature)
    case Err(e) => Err(GenericError("Failed to generate response: " + e.message))
    case Ok(content) => Ok(Strip(content))
  }

  /** `chat_history[-10:]`: the last ten entries, or all of them. */
  function RecentHistory(history: seq<Message>): (h: seq<Message>)
    ensures |h| == Min(10, |history|)
    ensures h == history[|history| - |h|..]
  {
    PySlice(history, -10, |history|)
  }

  /** The list `generate_with_chat_history` sends: the system prompt, the
      recent history, the user's message. */
  function HistoryMessages(systemPrompt: string, history: seq<Message>, userMessage: string): seq<Message> {
    [Message("system", systemPrompt)] + RecentHistory(history) + [Message("user", userMessage)]
  }

  /** The list holds at most twelve messages: the system message first, the
      user's message last, and in between the last entries of the history,
      at most ten, in their original order. */
  lemma HistoryMessagesShape(systemPrompt: string, history: seq<Message>, userMessage: string)
    ensures var m := HistoryMessages(systemPrompt, history, userMessage);
      var k := Min(10, |history|);
      |m| == k + 2 <= 12 && m[0] == Message("system", systemPrompt) && m[|m| - 1] == Message("user", userMessage) &&
      m[1..|m| - 1] == history[|history| - k..]
  {
    var m := HistoryMessages(systemPrompt, history, userMessage);
    assert m[1..|m| - 1] == RecentHistory(history);
  }

  /** The loop of `generate_with_chat_history` that builds the message list. */
  method BuildHistoryMessages(systemPrompt: string, history: seq<Message>, userMessage: string) returns (messages: seq<Message>)
    ensures messages == HistoryMessages(systemPrompt, history, userMessage)
  {
    messages := [Message("system", systemPrompt)];
    var recent := RecentHistory(history);
    for i := 0 to |recent|
      invariant messages == [Message("system", systemPrompt)] + recent[..i]
    {
      messages := messages + [Message(recent[i].role, recent[i].content)];
      assert recent[..i + 1] == recent[..i] + [recent[i]];
    }
    assert recent[..|recent|] == recent;
    messages := messages + [Message("user", userMessage)];
  }

  /** `generate_with_chat_history`: the reply to the message list above,
      stripped; a failure comes out as a generic error. */
  method GenerateWithChatHistory(llm: LLMService, userMessage: string, history: seq<Message>,
                                 context: Option<string>) returns (r: Result<string>)
    ensures var answer := llm.complete(llm.model, HistoryMessages(BuildSystemPrompt(context), history, userMessage),
                                       llm.maxTokens, llm.temperature);
      (r.Ok? <==> answer.Ok?) &&
      (r.Ok? ==> r.value == Strip(answer.value) && IsStripped(r.value)) &&
      (r.Err? ==> r.error.GenericError? && "Failed to generate response with history: " <= r.error.message)
  {
    var systemPrompt := BuildSystemPrompt(context);
    var messages := BuildHistoryMessages(systemPrompt, history, userMessage);
    var answer := llm.complete(llm.model, messages, llm.maxTokens, llm.temperature);
    if answer.Err? {
      return Err(GenericError("Failed to generate response with history: " + answer.error.message));
    }
    return Ok(Strip(answer.value));
  }

  /** The stripped texts of the results that are not blank, in order. */
  function Kept(ms: seq<Match>): (parts: seq<string>)
    ensures |parts| <= |ms|
    ensures forall i :: 0 <= i < |parts| ==> parts[i] != [] && IsStripped(parts[i])
  {
    if ms == [] then []
    else
      var t := Strip(ms[|ms| - 1].text);
      Kept(ms[..|ms| - 1]) + (if t == [] then [] else [t])
  }

  /** The five best results, best first, ties in their original order. */
  function TopFive(ms: seq<Match>): (top: seq<Match>)
    ensures |top| == Min(5, |ms|)
  {
    var sorted := SortByScore(ms);
    sorted[..Min(5, |sorted|)]
  }

  /** A prefix of a descending list is part of it, and nothing after the
      prefix scores above an element of the prefix. */
  lemma PrefixKeepsBest(sorted: seq<Match>, n: nat)
    requires SortedDesc(sorted) && n <= |sorted|
    ensures multiset(sorted[..n]) <= multiset(sorted)
    ensures forall x, i :: x in multiset(sorted) - multiset(sorted[..n]) && 0 <= i < n ==>
      x.score <= sorted[..n][i].score
  {
    var top, rest := sorted[..n], sorted[n..];
    assert sorted == top + rest;
    assert multiset(sorted) == multiset(top) + multiset(rest);
    forall x, i | x in multiset(sorted) - multiset(top) && 0 <= i < n
      ensures x.score <= top[i].score
    {
      assert x in multiset(rest);
      var k :| 0 <= k < |rest| && rest[k] == x;
      assert sorted[n + k] == x;
    }
  }

  /** The five best results are at most five, best first, and drawn from
      the results without repetition; no result left out scores above a
      kept one. */
  lemma TopFiveFrom(ms: seq<Match>)
    ensures |TopFive(ms)| <= 5 && SortedDesc(TopFive(ms))
    ensures forall i :: 0 <= i < |TopFive(ms)| ==> TopFive(ms)[i] in ms
    ensures multiset(TopFive(ms)) <= multiset(ms)
    ensures forall x, i :: x in multiset(ms) - multiset(TopFive(ms)) && 0 <= i < |TopFive(ms)| ==>
      x.score <= TopFive(ms)[i].score
  {
    SortByScoreCorrect(ms);
    var sorted := SortByScore(ms);
    var top := TopFive(ms);
    PrefixKeepsBest(sorted, |top|);
    assert top == sorted[..|top|];
    forall i | 0 <= i < |top|
      ensures top[i] in ms
    {
      assert top[i] in multiset(sorted);
    }
  }

  /** The context block: the non-blank stripped texts of the five best
      results, joined by blank lines. `format_context` and the chat
      handler's `_format_context` both compute this. */
  function ContextText(ms: seq<Match>): string {
    Join(Kept(TopFive(ms)), "\n\n")
  }

  /** The result kept text `k` was taken from. */
  lemma {:induction false} KeptIndex(ms: seq<Match>, k: nat) returns (j: nat)
    requires k < |Kept(ms)|
    ensures j < |ms| && Kept(ms)[k] == Strip(ms[j].text)
    decreases |ms|
  {
    var init := ms[..|ms| - 1];
    var t := Strip(ms[|ms| - 1].text);
    assert Kept(ms) == Kept(init) + (if t == [] then [] else [t]);
    if k < |Kept(init)| {
      j := KeptIndex(init, k);
      assert init[j] == ms[j];
    } else {
      j := |ms| - 1;
    }
  }

  /** Every kept text is the stripped text of one of the results. */
  lemma {:induction false} KeptFrom(ms: seq<Match>)
    ensures forall i :: 0 <= i < |Kept(ms)| ==> exists j :: 0 <= j < |ms| && Kept(ms)[i] == Strip(ms[j].text)
  {
    var kept := Kept(ms);
    forall i | 0 <= i < |kept|
      ensures exists j :: 0 <= j < |ms| && kept[i] == Strip(ms[j].text)
    {
      var j := KeptIndex(ms, i);
    }
  }

  /** When no result is blank, every one of them is kept. */
  lemma {:induction false} KeptAll(ms: seq<Match>)
    requires forall j :: 0 <= j < |ms| ==> Strip(ms[j].text) != []
    ensures |Kept(ms)| == |ms|
    ensures forall j :: 0 <= j < |ms| ==> Kept(ms)[j] == Strip(ms[j].text)
    decreases |ms|
  {
    if ms != [] {
      var init := ms[..|ms| - 1];
      var t := Strip(ms[|ms| - 1].text);
      assert forall j :: 0 <= j < |init| ==> init[j] == ms[j];
      KeptAll(init);
      var kept := Kept(ms);
      assert kept == Kept(init) + [t];
      forall j | 0 <= j < |ms|
        ensures kept[j] == Strip(ms[j].text)
      {
        if j < |init| {
          assert kept[j] == Kept(init)[j];
        }
      }
    }
  }

  /** The context block has at most five parts, each a non-blank stripped
      text of one of the five best results; with no results it is empty. */
  lemma ContextTextParts(ms: seq<Match>)
    ensures var parts := Kept(TopFive(ms));
      ContextText(ms) == Join(parts, "\n\n") && |parts| <= 5 &&
      (forall i :: 0 <= i < |parts| ==>
         (parts[i] != [] && IsStripped(parts[i]) &&
          exists j :: 0 <= j < |TopFive(ms)| && parts[i] == Strip(TopFive(ms)[j].text)))
    ensures ms == [] ==> ContextText(ms) == ""
  {
    KeptFrom(TopFive(ms));
  }

  /** `format_context`: sorts, then keeps the non-blank texts of the first
      five results in a loop, and joins them. */
  method FormatContext(results: seq<Match>) returns (context: string)
    ensures context == ContextText(results)
  {
    if |results| == 0 {
      return "";
    }
    var sorted := SortByScore(results);
    var top := sorted[..Min(5, |sorted|)];
    var parts: seq<string> := [];
    for i := 0 to |top|
      invariant parts == Kept(top[..i])
    {
      var text := Strip(top[i].text);
      assert top[..i + 1][..i] == top[..i];
      if text != [] {
        parts := parts + [text];
      }
    }
    assert top[..|top|] == top;
    context := Join(parts, "\n\n");
  }
}
