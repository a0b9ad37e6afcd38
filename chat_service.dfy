/**
 * One turn of the step-by-step cooking chat (`chat_endpoint`) and the
 * classification of a completion call (`get_gemini_response`).
 *
 * A turn normalises the user's message (stripped, lower-cased), refuses to
 * go on without a recipe context, moves the current step by the first rule
 * that matches the message, asks the completion service for that step and
 * answers with the reply and a new context on success, or with a fixed
 * apology and no context otherwise. The completion service is an abstract
 * outcome; the rendered prompt is represented by the values it carries.
 */
module ChatService {
  import opened Text
  import opened Records

  const SourceSuccess: string := "success"
  const SourceUnavailable: string := "error_gemini_unavailable"
  const SourceEmptyResponse: string := "error_gemini_empty_response"
  const SourceApiCall: string := "error_gemini_api_call"
  const SourceNoContext: string := "error_no_context"
  const SourceStepByStep: string := "rag_step_by_step"

  const NoContextReply: string := "Sorry, I don't have a recipe context. Please select a recipe first."
  const FetchFailedReply: string := "I'm sorry, I had trouble fetching that step."

  /**
   * The conversation context sent by the client. A field is `None` when the
   * key is absent (or the whole context is missing or empty).
   */
  datatype ConversationContext = ConversationContext(
    recipeTitle: Option<string>,
    instructions: Option<string>,
    nutrition: Option<string>,
    currentStep: Option<int>)

  datatype UserInput = UserInput(message: string, responseLanguage: string, context: ConversationContext)

  datatype ChatResponse = ChatResponse(reply: string, source: string, context: Option<ConversationContext>)

  /** The values the prompt for the completion service is rendered from. */
  datatype StepRequest = StepRequest(
    recipeTitle: string,
    instructions: string,
    nutrition: string,
    currentStep: int,
    responseLanguage: string)

  /** What the completion call did: no model configured, the call raised, or it returned these text parts. */
  datatype CompletionOutcome = Unavailable | Raised | Returned(parts: seq<string>)

  /** The pair `(response_text, status)`. */
  datatype Completion = Completion(text: Option<string>, status: string)

  // ---------------------------------------------------------------------
  // Completion classifier
  // ---------------------------------------------------------------------

  /** The stripped concatenation of the returned parts. */
  function ResponseText(parts: seq<string>): string {
    Strip(Join("", parts))
  }

  /**
   * `get_gemini_response`: a total classification of the outcome. Text is
   * returned exactly when the status is "success", and then it is the
   * non-empty stripped concatenation of the parts.
   */
  function GetGeminiResponse(outcome: CompletionOutcome): (r: Completion)
    ensures r.status == SourceSuccess <==> r.text.Some?
    ensures r.text.Some? ==> outcome.Returned? && r.text.value == ResponseText(outcome.parts) && r.text.value != ""
    ensures r.status == SourceUnavailable <==> outcome.Unavailable?
    ensures r.status == SourceApiCall <==> outcome.Raised?
    ensures r.status == SourceEmptyResponse <==> outcome.Returned? && ResponseText(outcome.parts) == ""
    ensures outcome.Returned? && ResponseText(outcome.parts) != "" ==> r.status == SourceSuccess
  {
    match outcome
    case Unavailable => Completion(None, SourceUnavailable)
    case Raised => Completion(None, SourceApiCall)
    case Returned(parts) =>
      if parts != [] && ResponseText(parts) != "" then Completion(Some(ResponseText(parts)), SourceSuccess)
      else Completion(None, SourceEmptyResponse)
  }

  /** An empty list of parts is classified like blank text: `"".join([])` strips to "". */
  lemma NoPartsIsEmptyResponse()
    ensures GetGeminiResponse(Returned([])).status == SourceEmptyResponse
  {
  }

  // ---------------------------------------------------------------------
  // Numbers in the message
  // ---------------------------------------------------------------------

  predicate AllDigits(d: string) {
    forall i :: 0 <= i < |d| ==> IsDigit(d[i])
  }

  /** `any(char.isdigit() for char in s)` */
  predicate HasDigit(s: string) {
    exists i :: 0 <= i < |s| && IsDigit(s[i])
  }

  /** The position of the first digit of `s`, or `|s|` when there is none. */
  function FirstDigitPos(s: string): (p: nat)
    ensures p <= |s|
    ensures forall j :: 0 <= j < p ==> !IsDigit(s[j])
    ensures p < |s| ==> IsDigit(s[p])
  {
    if s == [] || IsDigit(s[0]) then 0 else 1 + FirstDigitPos(s[1..])
  }

  /** The longest prefix of `s` made of digits. */
  function LeadingDigits(s: string): (r: string)
    ensures |r| <= |s| && r == s[..|r|]
    ensures AllDigits(r)
    ensures |r| < |s| ==> !IsDigit(s[|r|])
  {
    if s != [] && IsDigit(s[0]) then [s[0]] + LeadingDigits(s[1..]) else []
  }

  /** `re.findall(r'\d+', s)[0]`, or "" when there is no match. */
  function FirstNumber(s: string): (r: string)
    ensures AllDigits(r)
    ensures r != [] <==> HasDigit(s)
  {
    var p := FirstDigitPos(s);
    LeadingDigits(s[p..])
  }

  /** `int(d)` for a string of decimal digits. */
  function Decimal(d: string): (n: nat)
    requires AllDigits(d)
    ensures n == 0 <==> forall i :: 0 <= i < |d| ==> d[i] == '0'
  {
    if d == [] then 0 else Decimal(d[..|d| - 1]) * 10 + (d[|d| - 1] as int - '0' as int)
  }

  /** Leading zeros do not change the value: "step 007" asks for step 7. */
  lemma {:induction false} LeadingZeroIgnored(d: string)
    requires AllDigits(d)
    ensures Decimal("0" + d) == Decimal(d)
  {
    if d != [] {
      var n := |d| - 1;
      assert ("0" + d)[..|"0" + d| - 1] == "0" + d[..n];
      LeadingZeroIgnored(d[..n]);
    }
  }

  // ---------------------------------------------------------------------
  // Step navigation
  // ---------------------------------------------------------------------

  /** The message as the rules see it: `message.strip().lower()`. */
  function Normalized(message: string): (m: string)
    ensures |m| <= |message|
    ensures forall i :: 0 <= i < |m| ==> !('A' <= m[i] <= 'Z')
    ensures m == [] || (!IsSpace(m[0]) && !IsSpace(m[|m| - 1]))
  {
    StripEnds(message);
    Lower(Strip(message))
  }

  /**
   * The new current step for a normalised message: the first matching rule
   * wins. With Unicode digits, a character could pass `isdigit` without
   * starting a `\d+` run and the step would stay as it was; with the ASCII
   * classes used here a digit always starts a run. A message with
   * "what's next" also contains "next", so the first rule needs only the
   * shorter keyword.
   */
  function Navigate(m: string, step: int): (r: int)
    ensures Contains(m, "next") ==> r == step + 1
    ensures step >= 0 ==> r >= 0
    ensures step >= 0 && !HasDigit(m) ==> r >= 1
    ensures (HasDigit(m) && !Contains(m, "next") && !Contains(m, "previous") && !Contains(m, "go back")
             && !Contains(m, "start") && !Contains(m, "first step")) ==> r == Decimal(FirstNumber(m))
  {
    WhatsNextHasNext(m);
    if Contains(m, "next") || Contains(m, "what's next") then step + 1
    else if Contains(m, "previous") || Contains(m, "go back") then Max(1, step - 1)
    else if Contains(m, "start") || Contains(m, "first step") then 1
    else if HasDigit(m) then
      var run := FirstNumber(m);
      if run != [] then Decimal(run) else step
    else Max(1, step)
  }

  function Max(a: int, b: int): int {
    if a < b then b else a
  }

  /** "what's next" is caught by the test for "next", so the second keyword of the first rule is never needed. */
  lemma WhatsNextHasNext(m: string)
    ensures Contains(m, "what's next") ==> Contains(m, "next")
  {
    if Contains(m, "what's next") {
      assert "what's next" == "what's " + "next";
      ContainsSuffix(m, "what's ", "next");
    }
  }

  /**
   * The three rules after "next": "previous" or "go back" steps back but not
   * below 1, "start" or "first step" goes to 1, and a message with no
   * keyword and no digit holds the step, raised to 1 if it was below.
   */
  lemma NavigateRules(m: string, step: int)
    ensures (!Contains(m, "next") && (Contains(m, "previous") || Contains(m, "go back"))) ==>
      Navigate(m, step) == Max(1, step - 1)
    ensures (!Contains(m, "next") && !Contains(m, "previous") && !Contains(m, "go back")
             && (Contains(m, "start") || Contains(m, "first step"))) ==> Navigate(m, step) == 1
    ensures (!Contains(m, "next") && !Contains(m, "previous") && !Contains(m, "go back")
             && !Contains(m, "start") && !Contains(m, "first step") && !HasDigit(m)) ==> Navigate(m, step) == Max(1, step)
  {
    WhatsNextHasNext(m);
  }

  /** From step 1 on, "previous" undoes "next". */
  lemma PreviousUndoesNext(step: int)
    requires step >= 1
    ensures Navigate("previous", Navigate("next", step)) == step
  {
    ContainsAt("next", "next", 0);
    Absent("previous", "next", 2);
    ContainsAt("previous", "previous", 0);
    NavigateRules("previous", step + 1);
  }

  /**
   * The number taken from a message is its first run of digits: nothing
   * before the run is a digit and the run is not followed by one.
   */
  lemma FirstNumberIsFirstRun(m: string)
    requires HasDigit(m)
    ensures exists p, q ::
      && 0 <= p < q <= |m|
      && FirstNumber(m) == m[p..q]
      && (forall j :: 0 <= j < p ==> !IsDigit(m[j]))
      && (q < |m| ==> !IsDigit(m[q]))
  {
    var p := FirstDigitPos(m);
    var run := FirstNumber(m);
    var q := p + |run|;
    assert m[p..][..|run|] == m[p..q];
    assert q < |m| ==> m[q] == m[p..][|run|];
  }

  /** Characters that occur neither in "step " nor among the digits. */
  lemma NotInStepMessage(d: string, c: char)
    requires AllDigits(d) && !IsDigit(c) && c !in "step "
    ensures c !in "step " + d
  {
  }

  /** A keyword whose k-th character is not in the message is not contained in it. */
  lemma Absent(m: string, keyword: string, k: nat)
    requires k < |keyword| && keyword[k] !in m
    ensures !Contains(m, keyword)
  {
    if Contains(m, keyword) {
      ContainsChars(m, keyword, k);
    }
  }

  /** "step " followed by digits contains none of the keywords of the earlier rules. */
  lemma StepMessageHasNoKeyword(d: string)
    requires AllDigits(d)
    ensures var m := "step " + d;
      && !Contains(m, "next") && !Contains(m, "what's next")
      && !Contains(m, "previous") && !Contains(m, "go back")
      && !Contains(m, "start") && !Contains(m, "first step")
  {
    var m := "step " + d;
    NotInStepMessage(d, 'n');
    Absent(m, "next", 0);
    NotInStepMessage(d, 'w');
    Absent(m, "what's next", 0);
    NotInStepMessage(d, 'r');
    Absent(m, "previous", 1);
    NotInStepMessage(d, 'g');
    Absent(m, "go back", 0);
    NotInStepMessage(d, 'a');
    Absent(m, "start", 2);
    NotInStepMessage(d, 'f');
    Absent(m, "first step", 0);
  }

  /** The number in "step " followed by digits is those digits. */
  lemma StepMessageNumber(d: string)
    requires d != [] && AllDigits(d)
    ensures FirstNumber("step " + d) == d
  {
    var m := "step " + d;
    assert IsDigit(m[5]);
    var p := FirstDigitPos(m);
    assert p == 5;
    assert m[5..] == d;
    var run := LeadingDigits(d);
    assert |run| == |d|;
  }

  /** "step 12" navigates to step 12 and "step 0" to step 0, whatever the current step: numbers have no floor. */
  lemma StepNumberNavigates(d: string, step: int)
    requires d != [] && AllDigits(d)
    ensures Navigate("step " + d, step) == Decimal(d)
  {
    StepMessageHasNoKeyword(d);
    StepMessageNumber(d);
    assert ("step " + d)[5] == d[0];
  }

  // ---------------------------------------------------------------------
  // One chat turn
  // ---------------------------------------------------------------------

  /** A context value is usable when it is present and not empty. */
  predicate Present(v: Option<string>) {
    v.Some? && v.value != ""
  }

  /** The context has what a turn needs: a recipe title and instructions. */
  predicate HasRecipe(c: ConversationContext) {
    Present(c.recipeTitle) && Present(c.instructions)
  }

  /**
   * The request for the completion service, or `None` when the context
   * lacks a title or instructions (the service is then not called and no
   * step is computed). Nutrition defaults to "" and the step to 0.
   */
  function Request(input: UserInput): (req: Option<StepRequest>)
    ensures req.Some? <==> HasRecipe(input.context)
    ensures req.Some? ==>
      req.value.recipeTitle == input.context.recipeTitle.value && req.value.instructions == input.context.instructions.value
  {
    var c := input.context;
    if !HasRecipe(c) then None
    else
      var step := if c.currentStep.Some? then c.currentStep.value else 0;
      Some(StepRequest(c.recipeTitle.value, c.instructions.value,
                       if c.nutrition.Some? then c.nutrition.value else "",
                       Navigate(Normalized(input.message), step),
                       Strip(input.responseLanguage)))
  }

  /** The context handed back after a successful turn. */
  function NextContext(req: StepRequest): (c: ConversationContext)
    ensures req.recipeTitle != "" && req.instructions != "" ==> HasRecipe(c)
    ensures c.currentStep == Some(req.currentStep) && c.nutrition.Some?
  {
    ConversationContext(Some(req.recipeTitle), Some(req.instructions), Some(req.nutrition), Some(req.currentStep))
  }

  /**
   * `chat_endpoint`: the outcome is that of the completion call made for
   * `Request(input)`, and is ignored when there is no request.
   */
  function ChatEndpoint(input: UserInput, outcome: CompletionOutcome): (r: ChatResponse)
    ensures r.source == SourceNoContext <==> !HasRecipe(input.context)
    ensures r.context.Some? <==> HasRecipe(input.context) && GetGeminiResponse(outcome).status == SourceSuccess
    ensures r.source == SourceStepByStep <==> r.context.Some?
  {
    match Request(input)
    case None => ChatResponse(NoContextReply, SourceNoContext, None)
    case Some(req) =>
      var completion := GetGeminiResponse(outcome);
      if completion.status == SourceSuccess && completion.text.Some? && completion.text.value != "" then
        ChatResponse(completion.text.value, SourceStepByStep, Some(NextContext(req)))
      else
        ChatResponse(FetchFailedReply, completion.status, None)
  }

  /**
   * Without a title or instructions the turn answers with the fixed apology,
   * whatever the completion service would have said.
   */
  lemma NoContextIgnoresOutcome(input: UserInput, o1: CompletionOutcome, o2: CompletionOutcome)
    requires !HasRecipe(input.context)
    ensures ChatEndpoint(input, o1) == ChatEndpoint(input, o2) == ChatResponse(NoContextReply, SourceNoContext, None)
  {
  }

  /**
   * The context round-trip: a successful turn hands back the same title,
   * instructions and nutrition with the new step, and the next turn made
   * with that context passes the guard and starts from that step.
   */
  lemma ContextRoundTrip(input: UserInput, outcome: CompletionOutcome, next: string)
    requires ChatEndpoint(input, outcome).context.Some?
    ensures var c := ChatEndpoint(input, outcome).context.value;
      var req := Request(input).value;
      && c.recipeTitle == input.context.recipeTitle
      && c.instructions == input.context.instructions
      && c.nutrition == Some(if input.context.nutrition.Some? then input.context.nutrition.value else "")
      && c.currentStep == Some(req.currentStep)
      && req.currentStep == Navigate(Normalized(input.message), if input.context.currentStep.Some? then input.context.currentStep.value else 0)
      && var again := Request(UserInput(next, input.responseLanguage, c));
        again.Some? && again.value.currentStep == Navigate(Normalized(next), req.currentStep)
  {
  }

  /** A failed completion answers with the apology, the status as source and no context. */
  lemma FailedTurnHasNoContext(input: UserInput, outcome: CompletionOutcome)
    requires HasRecipe(input.context)
    requires GetGeminiResponse(outcome).status != SourceSuccess
    ensures ChatEndpoint(input, outcome) == ChatResponse(FetchFailedReply, GetGeminiResponse(outcome).status, None)
  {
  }

  /** The successful reply is the stripped text of the completion. */
  lemma SuccessfulReply(input: UserInput, parts: seq<string>)
    requires HasRecipe(input.context) && ResponseText(parts) != ""
    ensures ChatEndpoint(input, Returned(parts)).reply == ResponseText(parts)
    ensures ChatEndpoint(input, Returned(parts)).source == SourceStepByStep
  {
    assert parts != [];
  }
}
