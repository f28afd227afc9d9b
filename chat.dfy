/** `AiChatServiceImpl.chat`: moderate the input, find the user, resolve or
    open a conversation, store the child's message, ask the model, moderate
    and store the reply. The moderation model and the chat model are
    oracles; the method is one transaction, so a failure after a save rolls
    the stores back. */
module Chat {
  import opened Wrappers
  import opened Exceptions
  import opened Users

  datatype ChatMessageRequest = ChatMessageRequest(message: string, contextId: Option<nat>, tone: string)

  datatype ChatMessageResponse = ChatMessageResponse(
    reply: string, model: string, latencyMs: int, tokensUsed: int, contextId: nat)

  /** A stored conversation; ids stand in for the generated UUIDs. */
  datatype ChatContext = ChatContext(id: nat, username: string)

  datatype ChatMessage = ChatMessage(contextId: nat, role: string, content: string)

  /** What the chat model answers: the text of its first generation, its
      token usage and its model name, each possibly absent. */
  datatype ModelResponse = ModelResponse(text: Option<string>, totalTokens: Option<int>, model: Option<string>)

  /** The moderation oracle: one flag per result, or `None` when the call fails. */
  type Moderator = string -> Option<seq<bool>>

  /** The chat-model oracle on (system text, user text): a possibly absent
      response, or `Err` when the client throws. */
  type ChatModel = (string, string) -> Result<Option<ModelResponse>, string>

  /** The observable steps of one call, in the order they happen. */
  datatype Step =
    | Moderate(text: string)
    | FindUser(username: string)
    | FindContext(id: nat)
    | SaveContext(context: ChatContext)
    | SaveMessage(saved: ChatMessage)
    | CallModel(system: string, user: string)

  const USER := "USER"
  const ASSISTANT := "ASSISTANT"
  const UNSAFE_INPUT := "User input flagged as unsafe"
  const USER_NOT_FOUND := "User not found"
  const CONTEXT_NOT_FOUND := "Context not found"
  const LLM_RATE_LIMITED := "LLM rate-limited"
  const MODERATION_UNAVAILABLE := "Moderation service unavailable"
  const FALLBACK_REPLY := "Oops, that topic's a bit tricky. Let's chat about something else fun!"
  const FALLBACK_PROMPT := "You are KidsGPT, keep replies friendly."
  const DEFAULT_MODEL := "gpt-4o-mini"

  const LEAD_IN := "Let's explore this: "

  /** The three prompt templates, each with one `%s` for the message. */
  const TEMPLATES: seq<string> := [
    "%s" + " Can you think of another example?",
    LEAD_IN + "%s" + " What else comes to mind?",
    "%s" + " What do you think about it?"]

  /** `String.format(template, arg)` for a template whose only format
      specifier is one `%s`: the first `%s` is replaced by `arg`. */
  function FormatOne(template: string, arg: string): string {
    if |template| < 2 then template
    else if template[..2] == "%s" then arg + template[2..]
    else [template[0]] + FormatOne(template[1..], arg)
  }

  /** Text before the specifier is copied, the argument is inserted whole,
      and the rest follows. */
  lemma {:induction false} FormatSplit(pre: string, post: string, arg: string)
    requires '%' !in pre
    ensures FormatOne(pre + "%s" + post, arg) == pre + arg + post
  {
    var t := pre + "%s" + post;
    if pre == [] {
      assert t[..2] == "%s" && t[2..] == post;
    } else {
      assert t[..2] != "%s" by { assert t[0] == pre[0] != '%'; }
      assert t[1..] == pre[1..] + "%s" + post;
      FormatSplit(pre[1..], post, arg);
      assert [t[0]] + (pre[1..] + arg + post) == pre + arg + post;
    }
  }

  /** Each template puts the child's message, unchanged, between a fixed
      lead-in and a fixed follow-up question. */
  lemma DecoratedContainsMessage(pick: nat, message: string)
    requires pick < |TEMPLATES|
    ensures var pre := if pick == 1 then LEAD_IN else "";
            var d := FormatOne(TEMPLATES[pick], message);
            && |pre| + |message| <= |d|
            && d[..|pre|] == pre && d[|pre|..|pre| + |message|] == message
  {
    var pre := if pick == 1 then LEAD_IN else "";
    var post := if pick == 0 then " Can you think of another example?"
                else if pick == 1 then " What else comes to mind?"
                else " What do you think about it?";
    assert '%' !in pre;
    assert TEMPLATES[pick] == pre + "%s" + post;
    FormatSplit(pre, post, message);
    var d := pre + message + post;
    assert d[..|pre|] == pre;
    assert d[|pre|..|pre| + |message|] == message;
  }

  /** `validateSafety`: safe when no moderation result is flagged; a failing
      moderation call becomes `ModerationServiceException`. */
  function ValidateSafety(text: string, moderate: Moderator): (r: Result<bool, ApiException>)
    ensures r.Err? <==> moderate(text).None?
    ensures r.Err? ==> r.error == Unexpected(MODERATION_UNAVAILABLE)
    ensures r == Ok(true) <==> moderate(text).Some? && forall i :: 0 <= i < |moderate(text).value| ==> !moderate(text).value[i]
  {
    match moderate(text)
    case None => Err(Unexpected(MODERATION_UNAVAILABLE))
    case Some(flags) => Ok(forall i :: 0 <= i < |flags| ==> !flags[i])
  }

  /** `loadSystemPrompt`: the age sentence followed by the prompt resource,
      or by the built-in fallback when the resource cannot be read. */
  function SystemPrompt(ageText: string, resource: Option<string>): string {
    AgeSentence(ageText) + (if resource.Some? then resource.value else FALLBACK_PROMPT)
  }

  /** The prompt opens with the age sentence and continues with the resource's
      text, or with the fallback when the resource could not be read. */
  lemma SystemPromptParts(ageText: string, resource: Option<string>)
    ensures var p, lead := SystemPrompt(ageText, resource), AgeSentence(ageText);
            && |lead| <= |p| && p[..|lead|] == lead
            && p[|lead|..] == (if resource.Some? then resource.value else FALLBACK_PROMPT)
    ensures resource.None? ==> SystemPrompt(ageText, resource)[|AgeSentence(ageText)|..] == "You are KidsGPT, keep replies friendly."
  {
  }

  function AgeSentence(ageText: string): string {
    "You are talking to a " + ageText + "-year-old child. "
  }

  function ReplyText(resp: Option<ModelResponse>): string {
    if resp.Some? && resp.value.text.Some? then resp.value.text.value else ""
  }

  function TokensUsed(resp: Option<ModelResponse>): int {
    if resp.Some? && resp.value.totalTokens.Some? then resp.value.totalTokens.value else 0
  }

  function ModelUsed(resp: Option<ModelResponse>): string {
    if resp.Some? && resp.value.model.Some? then resp.value.model.value else DEFAULT_MODEL
  }

  /** `contextRepository.findById(id)`. */
  function FindContextById(contexts: seq<ChatContext>, id: nat): (r: Option<ChatContext>)
    ensures r.Some? ==> r.value in contexts && r.value.id == id
    ensures r.None? <==> forall i :: 0 <= i < |contexts| ==> contexts[i].id != id
  {
    if contexts == [] then None
    else if contexts[0].id == id then Some(contexts[0])
    else FindContextById(contexts[1..], id)
  }

  /** The effect of one call: its result, its steps and the committed stores. */
  datatype ChatRun = ChatRun(
    result: Result<ChatMessageResponse, ApiException>,
    steps: seq<Step>,
    contexts: seq<ChatContext>,
    messages: seq<ChatMessage>,
    nextContextId: nat)

  /** The call once the context is known: everything from the child's
      message on. `committed` are the stores a failure rolls back to. */
  function Converse(committed: seq<ChatContext>, messages: seq<ChatMessage>, afterOpen: seq<ChatContext>,
                    nextId: nat, context: ChatContext, steps: seq<Step>, message: string, pick: nat,
                    ageText: string, resource: Option<string>, moderate: Moderator,
                    model: ChatModel, latency: int): ChatRun
    requires pick < |TEMPLATES|
  {
    var userMsg := ChatMessage(context.id, USER, message);
    var system := SystemPrompt(ageText, resource);
    var decorated := FormatOne(TEMPLATES[pick], message);
    var called := steps + [SaveMessage(userMsg), CallModel(system, decorated)];
    match model(system, decorated)
    case Err(_) => ChatRun(Err(RateLimit(LLM_RATE_LIMITED)), called, committed, messages, nextId)
    case Ok(resp) =>
      var text := ReplyText(resp);
      var checked := called + [Moderate(text)];
      match ValidateSafety(text, moderate)
      case Err(e) => ChatRun(Err(e), checked, committed, messages, nextId)
      case Ok(safe) =>
        var reply := if safe then text else FALLBACK_REPLY;
        var botMsg := ChatMessage(context.id, ASSISTANT, reply);
        ChatRun(Ok(ChatMessageResponse(reply, ModelUsed(resp), latency, TokensUsed(resp), context.id)),
                checked + [SaveMessage(botMsg)], afterOpen, messages + [userMsg, botMsg], nextId)
  }

  /** How far the checks before the child's message get: refused with an
      error, or opened on a context with the context store and the counter
      as they then are. */
  datatype Opening =
    | Refused(error: ApiException, steps: seq<Step>)
    | Opened(steps: seq<Step>, context: ChatContext, afterOpen: seq<ChatContext>, nextId: nat)

  /** The input check, the user lookup and `resolveContext`: an existing
      context by id, or a new one owned by the principal. */
  function Prepare(users: seq<UserRecord>, contexts: seq<ChatContext>, nextId: nat,
                   request: ChatMessageRequest, principal: string, moderate: Moderator): (o: Opening)
    ensures 1 <= |o.steps| <= 3 && o.steps[0] == Moderate(request.message)
    ensures forall k :: 0 <= k < |o.steps| ==> o.steps[k].Moderate? || o.steps[k].FindUser? || o.steps[k].FindContext? || o.steps[k].SaveContext?
    ensures o.Opened? <==> ReachesModel(users, contexts, request, principal, moderate)
    ensures o.Opened? ==> |o.steps| == 3 && o.steps[1] == FindUser(principal)
    ensures o.Opened? && request.contextId.None? ==>
              && o.context == ChatContext(nextId, principal) && o.steps[2] == SaveContext(o.context)
              && o.afterOpen == contexts + [o.context] && o.nextId == nextId + 1
    ensures o.Opened? && request.contextId.Some? ==>
              && o.context == FindContextById(contexts, request.contextId.value).value
              && o.steps[2] == FindContext(request.contextId.value)
              && o.afterOpen == contexts && o.nextId == nextId
  {
    var m := request.message;
    match ValidateSafety(m, moderate)
    case Err(e) => Refused(e, [Moderate(m)])
    case Ok(safe) =>
      if !safe then Refused(IllegalArgument(UNSAFE_INPUT), [Moderate(m)])
      else if FindBy(users, Username, principal).None? then
        Refused(IllegalArgument(USER_NOT_FOUND), [Moderate(m), FindUser(principal)])
      else if request.contextId.Some? then
        var id := request.contextId.value;
        var found := FindContextById(contexts, id);
        if found.None? then Refused(IllegalArgument(CONTEXT_NOT_FOUND), [Moderate(m), FindUser(principal), FindContext(id)])
        else Opened([Moderate(m), FindUser(principal), FindContext(id)], found.value, contexts, nextId)
      else
        var created := ChatContext(nextId, principal);
        Opened([Moderate(m), FindUser(principal), SaveContext(created)], created, contexts + [created], nextId + 1)
  }

  /** What `chat` does to a user table, the two chat stores and the id
      counter. */
  function Run(users: seq<UserRecord>, contexts: seq<ChatContext>, messages: seq<ChatMessage>,
               nextId: nat, request: ChatMessageRequest, principal: string, pick: nat,
               ageText: string, resource: Option<string>, moderate: Moderator,
               model: ChatModel, latency: int): ChatRun
    requires pick < |TEMPLATES|
  {
    match Prepare(users, contexts, nextId, request, principal, moderate)
    case Refused(e, steps) => ChatRun(Err(e), steps, contexts, messages, nextId)
    case Opened(steps, context, afterOpen, next) =>
      Converse(contexts, messages, afterOpen, next, context, steps, request.message, pick, ageText, resource,
               moderate, model, latency)
  }

  /** Context ids are below the counter, so a new id is never taken. */
  ghost predicate IdsBelow(contexts: seq<ChatContext>, nextId: nat) {
    forall i :: 0 <= i < |contexts| ==> contexts[i].id < nextId
  }

  class AiChatServiceImpl {
    const userRepository: UserRepository
    /** The `system-prompt.txt` resource, or `None` when it cannot be read. */
    const systemPrompt: Option<string>
    var contexts: seq<ChatContext>
    var messages: seq<ChatMessage>
    var nextContextId: nat

    ghost predicate Valid()
      reads this
    {
      IdsBelow(contexts, nextContextId)
    }

    constructor (userRepository: UserRepository, systemPrompt: Option<string>)
      ensures Valid() && contexts == [] && messages == []
      ensures this.userRepository == userRepository && this.systemPrompt == systemPrompt
    {
      this.userRepository := userRepository;
      this.systemPrompt := systemPrompt;
      contexts, messages, nextContextId := [], [], 0;
    }

    /** `contextRepository.save` of a new context. */
    method OpenContext(username: string) returns (c: ChatContext)
      requires Valid()
      modifies this
      ensures Valid() && messages == old(messages)
      ensures c == ChatContext(old(nextContextId), username) && c !in old(contexts)
      ensures contexts == old(contexts) + [c] && nextContextId == old(nextContextId) + 1
    {
      c := ChatContext(nextContextId, username);
      contexts := contexts + [c];
      nextContextId := nextContextId + 1;
    }

    /** `messageRepository.save`. */
    method StoreMessage(msg: ChatMessage)
      modifies this
      ensures messages == old(messages) + [msg]
      ensures contexts == old(contexts) && nextContextId == old(nextContextId)
    {
      messages := messages + [msg];
    }

    /** `resolveContext`: the stored context with the given id, or a new
        one owned by the user when no id is given. */
    method ResolveContext(contextId: Option<nat>, username: string)
      returns (r: Result<ChatContext, ApiException>, ghost step: Step)
      requires Valid()
      modifies this
      ensures Valid() && messages == old(messages)
      ensures contextId.Some? ==>
                var found := FindContextById(old(contexts), contextId.value);
                && step == FindContext(contextId.value)
                && contexts == old(contexts) && nextContextId == old(nextContextId)
                && (found.Some? ==> r == Ok(found.value))
                && (found.None? ==> r == Err(IllegalArgument(CONTEXT_NOT_FOUND)))
      ensures contextId.None? ==>
                && r == Ok(ChatContext(old(nextContextId), username)) && step == SaveContext(r.value)
                && contexts == old(contexts) + [r.value] && nextContextId == old(nextContextId) + 1
    {
      if contextId.Some? {
        step := FindContext(contextId.value);
        var found := FindContextById(contexts, contextId.value);
        if found.None? {
          return Err(IllegalArgument(CONTEXT_NOT_FOUND)), step;
        }
        return Ok(found.value), step;
      }
      var c := OpenContext(username);
      return Ok(c), SaveContext(c);
    }

    /** `chat(request, principal)`; `pick` is the random template index,
        `ageText` the user's age as text and `latency` the measured time. */
    method Chat(request: ChatMessageRequest, principal: string, pick: nat, ageText: string,
                moderate: Moderator, model: ChatModel, latency: int)
      returns (r: Result<ChatMessageResponse, ApiException>, ghost steps: seq<Step>)
      requires Valid() && pick < |TEMPLATES|
      modifies this
      ensures Valid()
      ensures var run := old(Run(userRepository.rows, contexts, messages, nextContextId, request, principal,
                                 pick, ageText, systemPrompt, moderate, model, latency));
              && r == run.result && steps == run.steps
              && contexts == run.contexts && messages == run.messages && nextContextId == run.nextContextId
    {
      var m := request.message;
      var inputCheck := ValidateSafety(m, moderate);
      if inputCheck.Err? {
        return Err(inputCheck.error), [Moderate(m)];
      }
      if !inputCheck.value {
        return Err(IllegalArgument(UNSAFE_INPUT)), [Moderate(m)];
      }
      if FindBy(userRepository.rows, Username, principal).None? {
        return Err(IllegalArgument(USER_NOT_FOUND)), [Moderate(m), FindUser(principal)];
      }
      var committedContexts := contexts;
      var resolved, step := ResolveContext(request.contextId, principal);
      steps := [Moderate(m), FindUser(principal), step];
      if resolved.Err? {
        return Err(resolved.error), steps;
      }
      var context := resolved.value;
      r, steps := Answer(committedContexts, context, steps, m, pick, ageText, moderate, model, latency);
    }

    /** The rest of `chat` once the context is known: save the child's
        message, call the model, check and save the reply; a failure puts
        the stores back to `committed` and the messages as they were. */
    method Answer(committed: seq<ChatContext>, context: ChatContext, ghost prefix: seq<Step>, m: string, pick: nat,
                  ageText: string, moderate: Moderator, model: ChatModel, latency: int)
      returns (r: Result<ChatMessageResponse, ApiException>, ghost steps: seq<Step>)
      requires Valid() && IdsBelow(committed, nextContextId) && pick < |TEMPLATES|
      modifies this
      ensures Valid()
      ensures var run := old(Converse(committed, messages, contexts, nextContextId, context, prefix, m, pick,
                                      ageText, systemPrompt, moderate, model, latency));
              && r == run.result && steps == run.steps
              && contexts == run.contexts && messages == run.messages && nextContextId == run.nextContextId
    {
      var committedMessages := messages;
      var userMsg := ChatMessage(context.id, USER, m);
      StoreMessage(userMsg);
      var decorated := FormatOne(TEMPLATES[pick], m);
      var system := SystemPrompt(ageText, systemPrompt);
      steps := prefix + [SaveMessage(userMsg), CallModel(system, decorated)];
      var answer := model(system, decorated);
      if answer.Err? {
        contexts, messages := committed, committedMessages;
        return Err(RateLimit(LLM_RATE_LIMITED)), steps;
      }
      var text := ReplyText(answer.value);
      steps := steps + [Moderate(text)];
      var replyCheck := ValidateSafety(text, moderate);
      if replyCheck.Err? {
        contexts, messages := committed, committedMessages;
        return Err(replyCheck.error), steps;
      }
      var reply := if replyCheck.value then text else FALLBACK_REPLY;
      var botMsg := ChatMessage(context.id, ASSISTANT, reply);
      StoreMessage(botMsg);
      steps := steps + [SaveMessage(botMsg)];
      r := Ok(ChatMessageResponse(reply, ModelUsed(answer.value), latency, TokensUsed(answer.value), context.id));
    }
  }

  /** Flagged input is refused before the user lookup and before anything
      is stored. */
  lemma FlaggedInputStopsFirst(users: seq<UserRecord>, contexts: seq<ChatContext>, messages: seq<ChatMessage>,
                               nextId: nat, request: ChatMessageRequest, principal: string, pick: nat,
                               ageText: string, resource: Option<string>, moderate: Moderator,
                               model: ChatModel, latency: int)
    requires pick < |TEMPLATES|
    requires moderate(request.message).Some?
    requires exists i :: 0 <= i < |moderate(request.message).value| && moderate(request.message).value[i]
    ensures var run := Run(users, contexts, messages, nextId, request, principal, pick, ageText, resource, moderate, model, latency);
            && run.result == Err(IllegalArgument(UNSAFE_INPUT))
            && run.steps == [Moderate(request.message)]
            && run.contexts == contexts && run.messages == messages
  {
  }

  /** The call gets as far as the model: safe input, a known user and a
      resolvable context. */
  predicate ReachesModel(users: seq<UserRecord>, contexts: seq<ChatContext>, request: ChatMessageRequest,
                         principal: string, moderate: Moderator) {
    && ValidateSafety(request.message, moderate) == Ok(true)
    && FindBy(users, Username, principal).Some?
    && (request.contextId.Some? ==> FindContextById(contexts, request.contextId.value).Some?)
  }

  /** Past context resolution: the child's message is saved, then the
      model is called, and no later step calls it again. */
  lemma ConverseShape(committed: seq<ChatContext>, messages: seq<ChatMessage>, afterOpen: seq<ChatContext>,
                      nextId: nat, context: ChatContext, steps: seq<Step>, message: string, pick: nat,
                      ageText: string, resource: Option<string>, moderate: Moderator,
                      model: ChatModel, latency: int)
    requires pick < |TEMPLATES|
    ensures var run := Converse(committed, messages, afterOpen, nextId, context, steps, message, pick,
                                ageText, resource, moderate, model, latency);
            var system := SystemPrompt(ageText, resource);
            var decorated := FormatOne(TEMPLATES[pick], message);
            && |steps| + 2 <= |run.steps| && run.steps[..|steps|] == steps
            && run.steps[|steps|] == SaveMessage(ChatMessage(context.id, USER, message))
            && run.steps[|steps| + 1] == CallModel(system, decorated)
            && (forall k :: |steps| + 1 < k < |run.steps| ==> !run.steps[k].CallModel?)
  {
  }

  /** Past context resolution, a failing model call ends the call with the
      rate-limit error, and any failure restores the committed stores. */
  lemma ConverseRollback(committed: seq<ChatContext>, messages: seq<ChatMessage>, afterOpen: seq<ChatContext>,
                         nextId: nat, context: ChatContext, steps: seq<Step>, message: string, pick: nat,
                         ageText: string, resource: Option<string>, moderate: Moderator,
                         model: ChatModel, latency: int)
    requires pick < |TEMPLATES|
    ensures var run := Converse(committed, messages, afterOpen, nextId, context, steps, message, pick,
                                ageText, resource, moderate, model, latency);
            && (model(SystemPrompt(ageText, resource), FormatOne(TEMPLATES[pick], message)).Err? ==>
                  && run.result == Err(RateLimit(LLM_RATE_LIMITED)) && |run.steps| == |steps| + 2)
            && (run.result.Err? ==> run.contexts == committed && run.messages == messages)
  {
  }

  /** The model is called once at most, and only as the fifth step. */
  lemma ModelCalledOnce(users: seq<UserRecord>, contexts: seq<ChatContext>, messages: seq<ChatMessage>,
                        nextId: nat, request: ChatMessageRequest, principal: string, pick: nat,
                        ageText: string, resource: Option<string>, moderate: Moderator,
                        model: ChatModel, latency: int)
    requires pick < |TEMPLATES|
    ensures var run := Run(users, contexts, messages, nextId, request, principal, pick, ageText, resource, moderate, model, latency);
            forall k :: 0 <= k < |run.steps| && run.steps[k].CallModel? ==> k == 4
  {
    var o := Prepare(users, contexts, nextId, request, principal, moderate);
    if o.Opened? {
      ConverseShape(contexts, messages, o.afterOpen, o.nextId, o.context, o.steps, request.message, pick,
                    ageText, resource, moderate, model, latency);
      var run := Run(users, contexts, messages, nextId, request, principal, pick, ageText, resource, moderate, model, latency);
      forall k | 0 <= k < 3
        ensures !run.steps[k].CallModel?
      {
        assert run.steps[k] == run.steps[..3][k];
      }
    }
  }

  /** The child's own text is stored as the USER message right before the
      model is called, and the model gets the decorated text. */
  lemma UserMessageBeforeModel(users: seq<UserRecord>, contexts: seq<ChatContext>, messages: seq<ChatMessage>,
                               nextId: nat, request: ChatMessageRequest, principal: string, pick: nat,
                               ageText: string, resource: Option<string>, moderate: Moderator,
                               model: ChatModel, latency: int)
    requires pick < |TEMPLATES|
    requires ReachesModel(users, contexts, request, principal, moderate)
    ensures var run := Run(users, contexts, messages, nextId, request, principal, pick, ageText, resource, moderate, model, latency);
            && 5 <= |run.steps|
            && run.steps[3].SaveMessage? && run.steps[3].saved.role == USER && run.steps[3].saved.content == request.message
            && run.steps[4] == CallModel(SystemPrompt(ageText, resource), FormatOne(TEMPLATES[pick], request.message))
  {
    var o := Prepare(users, contexts, nextId, request, principal, moderate);
    ConverseShape(contexts, messages, o.afterOpen, o.nextId, o.context, o.steps, request.message, pick,
                  ageText, resource, moderate, model, latency);
  }

  /** A failing model call becomes a rate-limit error after the model step,
      and leaves both stores as they were: no assistant message, and the
      child's message and any new context rolled back. */
  lemma ModelFailureRollsBack(users: seq<UserRecord>, contexts: seq<ChatContext>, messages: seq<ChatMessage>,
                              nextId: nat, request: ChatMessageRequest, principal: string, pick: nat,
                              ageText: string, resource: Option<string>, moderate: Moderator,
                              model: ChatModel, latency: int)
    requires pick < |TEMPLATES|
    requires model(SystemPrompt(ageText, resource), FormatOne(TEMPLATES[pick], request.message)).Err?
    ensures var run := Run(users, contexts, messages, nextId, request, principal, pick, ageText, resource, moderate, model, latency);
            && run.result.Err? && run.contexts == contexts && run.messages == messages
            && (ReachesModel(users, contexts, request, principal, moderate) ==>
                  run.result == Err(RateLimit(LLM_RATE_LIMITED)) && |run.steps| == 5)
  {
    var o := Prepare(users, contexts, nextId, request, principal, moderate);
    if o.Opened? {
      ConverseRollback(contexts, messages, o.afterOpen, o.nextId, o.context, o.steps, request.message, pick,
                    ageText, resource, moderate, model, latency);
    }
  }

  /** On success exactly two messages are appended, the child's text and
      the reply; the reply is either text the moderator passed or the fixed
      fallback, and the response carries the same reply. */
  lemma SuccessStoresConversation(users: seq<UserRecord>, contexts: seq<ChatContext>, messages: seq<ChatMessage>,
                                  nextId: nat, request: ChatMessageRequest, principal: string, pick: nat,
                                  ageText: string, resource: Option<string>, moderate: Moderator,
                                  model: ChatModel, latency: int)
    requires pick < |TEMPLATES|
    requires Run(users, contexts, messages, nextId, request, principal, pick, ageText, resource, moderate, model, latency).result.Ok?
    ensures var run := Run(users, contexts, messages, nextId, request, principal, pick, ageText, resource, moderate, model, latency);
            var reply := run.result.value.reply;
            && FindBy(users, Username, principal).Some?
            && run.messages == messages + [ChatMessage(run.result.value.contextId, USER, request.message),
                                           ChatMessage(run.result.value.contextId, ASSISTANT, reply)]
            && (reply == FALLBACK_REPLY || ValidateSafety(reply, moderate) == Ok(true))
  {
  }

  /** Reply sanitisation: once the checks pass and the model answers, a reply
      the moderator flags is replaced by the fixed fallback, a reply it passes
      is the model's own text, and a failing moderation call is the answer. */
  lemma ReplySanitised(users: seq<UserRecord>, contexts: seq<ChatContext>, messages: seq<ChatMessage>,
                       nextId: nat, request: ChatMessageRequest, principal: string, pick: nat,
                       ageText: string, resource: Option<string>, moderate: Moderator,
                       model: ChatModel, latency: int)
    requires pick < |TEMPLATES|
    requires ReachesModel(users, contexts, request, principal, moderate)
    requires model(SystemPrompt(ageText, resource), FormatOne(TEMPLATES[pick], request.message)).Ok?
    ensures var run := Run(users, contexts, messages, nextId, request, principal, pick, ageText, resource, moderate, model, latency);
            var text := ReplyText(model(SystemPrompt(ageText, resource), FormatOne(TEMPLATES[pick], request.message)).value);
            && (ValidateSafety(text, moderate) == Ok(false) ==> run.result.Ok? && run.result.value.reply == FALLBACK_REPLY)
            && (ValidateSafety(text, moderate) == Ok(true) ==> run.result.Ok? && run.result.value.reply == text)
            && (ValidateSafety(text, moderate).Err? ==> run.result == Err(Unexpected(MODERATION_UNAVAILABLE)))
  {
    var o := Prepare(users, contexts, nextId, request, principal, moderate);
    assert o.Opened?;
  }

  /** Without a context id a new context owned by the principal is opened
      under the next id; with one, the stored context is reused. */
  lemma ContextResolution(users: seq<UserRecord>, contexts: seq<ChatContext>, messages: seq<ChatMessage>,
                          nextId: nat, request: ChatMessageRequest, principal: string, pick: nat,
                          ageText: string, resource: Option<string>, moderate: Moderator,
                          model: ChatModel, latency: int)
    requires pick < |TEMPLATES|
    requires Run(users, contexts, messages, nextId, request, principal, pick, ageText, resource, moderate, model, latency).result.Ok?
    ensures var run := Run(users, contexts, messages, nextId, request, principal, pick, ageText, resource, moderate, model, latency);
            && (request.contextId.None? ==>
                  run.result.value.contextId == nextId && run.contexts == contexts + [ChatContext(nextId, principal)])
            && (request.contextId.Some? ==>
                  run.result.value.contextId == request.contextId.value && run.contexts == contexts)
  {
  }

  /** A missing model response still answers: empty reply text (which then
      goes through moderation), no tokens and the default model name. */
  lemma AbsentResponseDefaults(users: seq<UserRecord>, contexts: seq<ChatContext>, messages: seq<ChatMessage>,
                               nextId: nat, request: ChatMessageRequest, principal: string, pick: nat,
                               ageText: string, resource: Option<string>, moderate: Moderator,
                               model: ChatModel, latency: int)
    requires pick < |TEMPLATES|
    requires model(SystemPrompt(ageText, resource), FormatOne(TEMPLATES[pick], request.message)) == Ok(None)
    requires ValidateSafety("", moderate) == Ok(true)
    requires Run(users, contexts, messages, nextId, request, principal, pick, ageText, resource, moderate, model, latency).result.Ok?
    ensures var r := Run(users, contexts, messages, nextId, request, principal, pick, ageText, resource, moderate, model, latency).result.value;
            r.reply == "" && r.tokensUsed == 0 && r.model == DEFAULT_MODEL
  {
  }

  /** An unknown user or conversation is refused before anything is stored. */
  lemma UnknownUserOrContextRefused(users: seq<UserRecord>, contexts: seq<ChatContext>, messages: seq<ChatMessage>,
                                    nextId: nat, request: ChatMessageRequest, principal: string, pick: nat,
                                    ageText: string, resource: Option<string>, moderate: Moderator,
                                    model: ChatModel, latency: int)
    requires pick < |TEMPLATES|
    requires ValidateSafety(request.message, moderate) == Ok(true)
    ensures var run := Run(users, contexts, messages, nextId, request, principal, pick, ageText, resource, moderate, model, latency);
            && (FindBy(users, Username, principal).None? ==>
                  run.result == Err(IllegalArgument(USER_NOT_FOUND)) && run.messages == messages)
            && (FindBy(users, Username, principal).Some? && request.contextId.Some?
                && (forall i :: 0 <= i < |contexts| ==> contexts[i].id != request.contextId.value) ==>
                  run.result == Err(IllegalArgument(CONTEXT_NOT_FOUND)) && run.messages == messages
                  && run.contexts == contexts)
  {
  }
}
