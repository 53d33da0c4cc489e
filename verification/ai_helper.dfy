/** The recipe-suggestion fallback chain: Groq first, Hugging Face second, a fixed
    message when neither answers. The two provider calls are not modelled; what they
    can report back is a parameter, and only how the helper classifies that report as a
    success or a failure is modelled. */
module AiHelper {
  import opened Wrappers
  import opened Models

  // ------------------------------------------------ fixed texts

  const EmptyInputMessage: string := "Please provide at least one ingredient or dish name."

  const NotConfiguredMessage: string :=
    "\U{1F6A8} AI API Key Not Configured!\n\nTo use AI recipe suggestions:\n\n"
    + "1. Get Free Groq API Key (Recommended):\n   - Visit: https://console.groq.com/\n"
    + "   - Sign up (free, no credit card needed)\n   - Copy your API key\n   \n"
    + "2. Or Get Hugging Face Token:\n   - Visit: https://huggingface.co/settings/tokens\n"
    + "   - Create a new token\n   \n"
    + "3. Add to .env file:\n   GROQ_API_KEY=your_key_here\n   OR\n   HF_API_KEY=your_token_here\n   \n"
    + "4. Restart the server\n\nNeed help? See QUICK_START.md or AI_INTEGRATION_GUIDE.md"

  const UnavailableMessage: string :=
    "\U{26A0}\U{FE0F} AI services are temporarily unavailable. Please try again in a moment."

  /** What the Hugging Face branch answers when the first list item has no `generated_text`. */
  const HfDefaultText: string := "Could not generate suggestion."

  /** An environment variable counts as configured when it is set and non-empty. */
  predicate KeySet(key: Option<string>) {
    key.Some? && |key.value| > 0
  }

  // ------------------------------------------------ provider attempts

  /** What the Groq client call can do: raise (network, authentication, an empty `choices`
      list, ...) or hand back the content of the first choice. */
  datatype GroqCall = GroqRaised | GroqReturned(content: string)

  /** `_get_groq_suggestion`: no result when the client library could not be imported or
      the call raised; otherwise the content, echoing the inputs. */
  function GroqAttempt(ingredients: seq<string>, libraryLoaded: bool, call: GroqCall): (r: Option<AiResponse>)
    ensures r.Some? <==> libraryLoaded && call.GroqReturned?
    ensures r.Some? ==> r.value.suggestion == call.content && r.value.ingredientsUsed == ingredients
  {
    if !libraryLoaded then None
    else match call
      case GroqRaised => None
      case GroqReturned(content) => Some(AiResponse(content, ingredients))
  }

  /** One element of a decoded JSON list: an object, whose `generated_text` key may be
      missing, or something else (calling `.get` on it raises). */
  datatype HfItem = Record(generatedText: Option<string>) | NotRecord

  /** The body of a Hugging Face answer: a JSON list, some other JSON value, or not JSON. */
  datatype HfPayload = JsonList(items: seq<HfItem>) | OtherJson | Unparsable

  /** What the HTTP request can do: raise (timeout, connection error) or answer. */
  datatype HfCall = HfRaised | HfResponse(status: int, payload: HfPayload)

  /** The answers `_get_huggingface_suggestion` accepts: status 200 with a non-empty JSON
      list whose first element is an object. */
  predicate HfUsable(call: HfCall) {
    && call.HfResponse?
    && call.status == 200
    && call.payload.JsonList?
    && |call.payload.items| > 0
    && call.payload.items[0].Record?
  }

  /** `_get_huggingface_suggestion`: every other answer, and every exception, is a failure. */
  function HfAttempt(ingredients: seq<string>, call: HfCall): (r: Option<AiResponse>)
    ensures r.Some? <==> HfUsable(call)
    ensures r.Some? ==> r.value.ingredientsUsed == ingredients
    ensures r.Some? ==> r.value.suggestion == call.payload.items[0].generatedText.GetOr(HfDefaultText)
  {
    match call
    case HfRaised => None
    case HfResponse(status, payload) =>
      if status != 200 then None
      else match payload
        case JsonList(items) =>
          if |items| == 0 then None
          else (match items[0]
            case Record(text) => Some(AiResponse(text.GetOr(HfDefaultText), ingredients))
            case NotRecord => None)
        case OtherJson => None
        case Unparsable => None
  }

  // ------------------------------------------------ the decision

  /** `get_ai_recipe_suggestion` over the two configuration flags and the two attempt
      outcomes; an outcome is consulted only when its provider is configured. */
  function Decide(ingredients: seq<string>, groqConfigured: bool, hfConfigured: bool,
                  groq: Option<AiResponse>, hf: Option<AiResponse>): (r: AiResponse)
    ensures |ingredients| == 0 ==> r == AiResponse(EmptyInputMessage, [])
    ensures |ingredients| > 0 && !groqConfigured && !hfConfigured ==>
              r == AiResponse(NotConfiguredMessage, ingredients)
    ensures |ingredients| > 0 && groqConfigured && groq.Some? ==> r == groq.value
    ensures |ingredients| > 0 && (!groqConfigured || groq.None?) && hfConfigured && hf.Some? ==> r == hf.value
    ensures |ingredients| > 0 && (groqConfigured || hfConfigured)
            && (!groqConfigured || groq.None?) && (!hfConfigured || hf.None?) ==>
              r == AiResponse(UnavailableMessage, ingredients)
  {
    if |ingredients| == 0 then AiResponse(EmptyInputMessage, [])
    else if !groqConfigured && !hfConfigured then AiResponse(NotConfiguredMessage, ingredients)
    else if groqConfigured && groq.Some? then groq.value
    else if hfConfigured && hf.Some? then hf.value
    else AiResponse(UnavailableMessage, ingredients)
  }

  /** An attempt that only counts when its provider is configured. */
  function Gate(configured: bool, outcome: Option<AiResponse>): Option<AiResponse> {
    if configured then outcome else None
  }

  /** The first successful attempt of an ordered list of providers. */
  function FirstSuccess(attempts: seq<Option<AiResponse>>): (r: Option<AiResponse>)
    ensures r.None? <==> forall i :: 0 <= i < |attempts| ==> attempts[i].None?
    ensures r.Some? ==> exists i :: 0 <= i < |attempts| && attempts[i] == r
                                   && forall j :: 0 <= j < i ==> attempts[j].None?
  {
    if |attempts| == 0 then None
    else if attempts[0].Some? then attempts[0]
    else
      var rest := FirstSuccess(attempts[1..]);
      assert forall i :: 0 < i < |attempts| ==> attempts[i] == attempts[1..][i - 1];
      if rest.Some? then
        var i :| 0 <= i < |attempts[1..]| && attempts[1..][i] == rest
                 && forall j :: 0 <= j < i ==> attempts[1..][j].None?;
        assert attempts[i + 1] == rest;
        rest
      else rest
  }

  /** Once some provider is configured, the decision is the first success of the chain
      Groq, Hugging Face, and the unavailable message when the chain has none. */
  lemma DecideIsFallbackChain(ingredients: seq<string>, groqConfigured: bool, hfConfigured: bool,
                              groq: Option<AiResponse>, hf: Option<AiResponse>)
    requires |ingredients| > 0 && (groqConfigured || hfConfigured)
    ensures Decide(ingredients, groqConfigured, hfConfigured, groq, hf)
            == FirstSuccess([Gate(groqConfigured, groq), Gate(hfConfigured, hf)])
                 .GetOr(AiResponse(UnavailableMessage, ingredients))
  {
    var chain := [Gate(groqConfigured, groq), Gate(hfConfigured, hf)];
    assert chain[1..] == [Gate(hfConfigured, hf)];
    assert chain[1..][1..] == [];
  }

  // ------------------------------------------------ the helper with its environment

  /** The module-level configuration: both API keys as read from the environment, and
      whether the Groq client library could be imported. */
  datatype Environment = Environment(groqApiKey: Option<string>, hfApiKey: Option<string>, groqLibraryLoaded: bool)

  /** `get_ai_recipe_suggestion(ingredients)`, with the provider calls' behaviour given. */
  function GetAiRecipeSuggestion(ingredients: seq<string>, env: Environment, groqCall: GroqCall, hfCall: HfCall): (r: AiResponse)
    ensures |ingredients| == 0 ==> r == AiResponse(EmptyInputMessage, [])
    ensures |ingredients| > 0 ==> r.ingredientsUsed == ingredients
    ensures |ingredients| > 0 && !KeySet(env.groqApiKey) && !KeySet(env.hfApiKey) ==>
              r.suggestion == NotConfiguredMessage
  {
    Decide(ingredients, KeySet(env.groqApiKey), KeySet(env.hfApiKey),
           GroqAttempt(ingredients, env.groqLibraryLoaded, groqCall), HfAttempt(ingredients, hfCall))
  }

  /** The texts an answer can carry: the three fixed messages, Groq's content, or the
      Hugging Face text (or its default). No other text, and no exception, comes out. */
  predicate AllowedText(text: string, groqCall: GroqCall, hfCall: HfCall) {
    || text == EmptyInputMessage
    || text == NotConfiguredMessage
    || text == UnavailableMessage
    || (groqCall.GroqReturned? && text == groqCall.content)
    || (HfUsable(hfCall) && text == hfCall.payload.items[0].generatedText.GetOr(HfDefaultText))
  }

  lemma OnlyAllowedTexts(ingredients: seq<string>, env: Environment, groqCall: GroqCall, hfCall: HfCall)
    ensures AllowedText(GetAiRecipeSuggestion(ingredients, env, groqCall, hfCall).suggestion, groqCall, hfCall)
  {
  }

  /** A configured Groq that answers wins, whatever Hugging Face would have done. */
  lemma GroqAnswerWins(ingredients: seq<string>, env: Environment, content: string, hf1: HfCall, hf2: HfCall)
    requires |ingredients| > 0 && KeySet(env.groqApiKey) && env.groqLibraryLoaded
    ensures GetAiRecipeSuggestion(ingredients, env, GroqReturned(content), hf1) == AiResponse(content, ingredients)
    ensures GetAiRecipeSuggestion(ingredients, env, GroqReturned(content), hf1)
            == GetAiRecipeSuggestion(ingredients, env, GroqReturned(content), hf2)
  {
  }

  /** Groq is never consulted when its key is unset. */
  lemma UnsetGroqNotConsulted(ingredients: seq<string>, env: Environment, g1: GroqCall, g2: GroqCall, hfCall: HfCall)
    requires !KeySet(env.groqApiKey)
    ensures GetAiRecipeSuggestion(ingredients, env, g1, hfCall) == GetAiRecipeSuggestion(ingredients, env, g2, hfCall)
  {
  }

  /** Hugging Face is never consulted when its key is unset. */
  lemma UnsetHfNotConsulted(ingredients: seq<string>, env: Environment, groqCall: GroqCall, h1: HfCall, h2: HfCall)
    requires !KeySet(env.hfApiKey)
    ensures GetAiRecipeSuggestion(ingredients, env, groqCall, h1) == GetAiRecipeSuggestion(ingredients, env, groqCall, h2)
  {
  }

  /** With Groq unconfigured or failing, a usable Hugging Face answer is returned. */
  lemma HfFallback(ingredients: seq<string>, env: Environment, groqCall: GroqCall, hfCall: HfCall)
    requires |ingredients| > 0 && KeySet(env.hfApiKey) && HfUsable(hfCall)
    requires !KeySet(env.groqApiKey) || !env.groqLibraryLoaded || groqCall.GroqRaised?
    ensures GetAiRecipeSuggestion(ingredients, env, groqCall, hfCall)
            == AiResponse(hfCall.payload.items[0].generatedText.GetOr(HfDefaultText), ingredients)
  {
  }

  /** When every configured provider fails, the unavailable message comes back with the inputs. */
  lemma AllProvidersFail(ingredients: seq<string>, env: Environment, groqCall: GroqCall, hfCall: HfCall)
    requires |ingredients| > 0 && (KeySet(env.groqApiKey) || KeySet(env.hfApiKey))
    requires !KeySet(env.groqApiKey) || !env.groqLibraryLoaded || groqCall.GroqRaised?
    requires !KeySet(env.hfApiKey) || !HfUsable(hfCall)
    ensures GetAiRecipeSuggestion(ingredients, env, groqCall, hfCall) == AiResponse(UnavailableMessage, ingredients)
  {
  }

  /** A missing Groq library makes a configured Groq key behave as an unset one, as long
      as the Hugging Face key is set (without it the two differ: unavailable versus not
      configured). */
  lemma MissingLibraryLikeNoKey(ingredients: seq<string>, env: Environment, groqCall: GroqCall, hfCall: HfCall)
    requires !env.groqLibraryLoaded && KeySet(env.hfApiKey)
    ensures GetAiRecipeSuggestion(ingredients, env, groqCall, hfCall)
            == GetAiRecipeSuggestion(ingredients, env.(groqApiKey := None), groqCall, hfCall)
  {
  }

  /** The difference: with only a Groq key set and the library missing, the answer is the
      unavailable message, not the configuration help. */
  lemma MissingLibraryWithoutHf(ingredients: seq<string>, env: Environment, groqCall: GroqCall, hfCall: HfCall)
    requires |ingredients| > 0 && KeySet(env.groqApiKey) && !env.groqLibraryLoaded && !KeySet(env.hfApiKey)
    ensures GetAiRecipeSuggestion(ingredients, env, groqCall, hfCall).suggestion == UnavailableMessage
    ensures GetAiRecipeSuggestion(ingredients, env.(groqApiKey := None), groqCall, hfCall).suggestion == NotConfiguredMessage
  {
  }
}
