/**
 * The client half of the chat protocol (the `Chatbot` component): the
 * message list, the input field and the conversation context, reset when a
 * recipe is shown and updated by each sent message. The network call is an
 * abstract outcome: a failure, or the parsed response body.
 */
module ChatbotClient {
  import opened Text
  import opened Records
  import opened ChatService

  datatype Sender = User | Bot

  datatype ChatMessage = ChatMessage(sender: Sender, text: string)

  /** The body posted to the chat endpoint. */
  datatype ChatRequest = ChatRequest(message: string, responseLanguage: string, context: ConversationContext)

  /** What the fetch gave: it threw, or it returned a body with a reply and perhaps a context. */
  datatype FetchOutcome = Failed | Responded(reply: string, context: Option<ConversationContext>)

  const ConnectionErrorReply: string := "Sorry, I have trouble connecting to the server."

  /**
   * The context set when a recipe is shown: its title and instructions
   * (absent while they are undefined) and step 0; nutrition is not sent.
   */
  function InitialContext(title: Option<string>, instructions: Option<string>): ConversationContext {
    ConversationContext(title, instructions, None, Some(0))
  }

  /** The bot's message for an outcome. */
  function BotReply(outcome: FetchOutcome): string {
    match outcome
    case Failed => ConnectionErrorReply
    case Responded(reply, _) => reply
  }

  /** The context after a turn: replaced only by a context the response carries. */
  function ContextAfter(c: ConversationContext, outcome: FetchOutcome): (next: ConversationContext)
    ensures next != c ==> outcome.Responded? && outcome.context == Some(next)
  {
    if outcome.Responded? && outcome.context.Some? then outcome.context.value else c
  }

  /** A message can be sent when the trimmed input is not empty and there is a context. */
  predicate CanSend(userInput: string, context: Option<ConversationContext>) {
    Strip(userInput) != "" && context.Some?
  }

  class Chatbot {
    var messages: seq<ChatMessage>
    var userInput: string
    var context: Option<ConversationContext>

    constructor ()
      ensures messages == [] && userInput == "" && context == None
    {
      messages := [];
      userInput := "";
      context := None;
    }

    /** The effect run when the component shows a recipe: one welcome message and a fresh context. */
    method OnRecipeChange(title: Option<string>, instructions: Option<string>, welcome: string)
      modifies this
      ensures messages == [ChatMessage(Bot, welcome)]
      ensures context == Some(InitialContext(title, instructions))
      ensures userInput == old(userInput)
    {
      messages := [ChatMessage(Bot, welcome)];
      context := Some(InitialContext(title, instructions));
    }

    /** Typing into the input field: the field holds exactly what was typed. */
    method SetUserInput(text: string)
      modifies this
      ensures userInput == text && messages == old(messages) && context == old(context)
    {
      userInput := text;
    }

    /**
     * `handleSendMessage`: nothing happens for a blank input or without a
     * context. Otherwise the user's message is appended, the input as typed
     * is sent with the current context, the input is cleared, the bot's
     * reply (or the connection error) is appended, and the context is
     * replaced only when the response carries one. Returns what was sent.
     */
    method HandleSendMessage(language: string, outcome: FetchOutcome) returns (sent: Option<ChatRequest>)
      modifies this
      ensures !CanSend(old(userInput), old(context)) ==>
        sent == None && messages == old(messages) && userInput == old(userInput) && context == old(context)
      ensures CanSend(old(userInput), old(context)) ==>
        && sent == Some(ChatRequest(old(userInput), language, old(context).value))
        && messages == old(messages) + [ChatMessage(User, old(userInput)), ChatMessage(Bot, BotReply(outcome))]
        && userInput == ""
        && context == Some(ContextAfter(old(context).value, outcome))
    {
      if Strip(userInput) == "" || context.None? {
        return None;
      }
      messages := messages + [ChatMessage(User, userInput)];
      var messageToSend := userInput;
      userInput := "";
      sent := Some(ChatRequest(messageToSend, language, context.value));
      match outcome {
        case Failed =>
          messages := messages + [ChatMessage(Bot, ConnectionErrorReply)];
        case Responded(reply, next) =>
          messages := messages + [ChatMessage(Bot, reply)];
          if next.Some? {
            context := next;
          }
      }
    }
  }

  /** The server's answer to a request, as the client receives it. */
  function Served(request: ChatRequest, completion: CompletionOutcome): (o: FetchOutcome)
    ensures o.Responded?
    ensures o.context.Some? <==> HasRecipe(request.context) && GetGeminiResponse(completion).status == SourceSuccess
  {
    var r := ChatEndpoint(UserInput(request.message, request.responseLanguage, request.context), completion);
    Responded(r.reply, r.context)
  }

  /**
   * A turn the server could not complete leaves the client's context, and
   * so its current step, as it was.
   */
  lemma FailedTurnKeepsStep(request: ChatRequest, completion: CompletionOutcome)
    requires GetGeminiResponse(completion).status != SourceSuccess
    ensures ContextAfter(request.context, Served(request, completion)) == request.context
  {
  }

  /**
   * A completed turn moves the client to the step the server navigated to,
   * keeping the recipe title and instructions.
   */
  lemma CompletedTurnMovesStep(request: ChatRequest, completion: CompletionOutcome)
    requires HasRecipe(request.context) && GetGeminiResponse(completion).status == SourceSuccess
    ensures var c := ContextAfter(request.context, Served(request, completion));
      var step := if request.context.currentStep.Some? then request.context.currentStep.value else 0;
      && c.recipeTitle == request.context.recipeTitle
      && c.instructions == request.context.instructions
      && c.currentStep == Some(Navigate(Normalized(request.message), step))
  {
  }

  /**
   * The first message about a shown recipe with a title and instructions
   * passes the server's guard and navigates from step 0; without either,
   * the server refuses with `error_no_context` and the context stays.
   */
  lemma FirstTurnFromStepZero(title: Option<string>, instructions: Option<string>, message: string,
                              language: string, completion: CompletionOutcome)
    ensures var request := ChatRequest(message, language, InitialContext(title, instructions));
      var r := ChatEndpoint(UserInput(message, language, request.context), completion);
      && (Present(title) && Present(instructions) ==>
            Request(UserInput(message, language, request.context)).value.currentStep == Navigate(Normalized(message), 0))
      && (!(Present(title) && Present(instructions)) ==>
            r.source == SourceNoContext && ContextAfter(request.context, Served(request, completion)) == request.context)
  {
  }
}
