/** The two suggestion endpoints: `GET /api/ai/suggest?ingredients=a, b` splits the query
    at commas and strips each piece; `POST /api/ai/suggest` takes the list as it is and
    refuses an empty one. Both hand the list to the fallback chain. */
module Suggest {
  import opened Text
  import opened Models
  import opened AiHelper

  /** `[ing.strip() for ing in ingredients.split(",")]`. */
  function ParseIngredients(query: string): (tokens: seq<string>)
    ensures |tokens| == CountChar(query, ',') + 1
    ensures forall k :: 0 <= k < |tokens| ==> ',' !in tokens[k]
    ensures forall k :: 0 <= k < |tokens| ==>
              tokens[k] == [] || (!IsSpace(tokens[k][0]) && !IsSpace(tokens[k][|tokens[k]| - 1]))
    ensures |tokens| == |Split(query, ',')|
    ensures forall k :: 0 <= k < |tokens| ==> tokens[k] == Strip(Split(query, ',')[k])
  {
    var parts := Split(query, ',');
    SplitCount(query, ',');
    var tokens := seq(|parts|, k requires 0 <= k < |parts| => Strip(parts[k]));
    StrippedPiecesClean(parts, tokens);
    tokens
  }

  /** Stripping comma-free pieces gives comma-free tokens with no whitespace at either end. */
  lemma StrippedPiecesClean(parts: seq<string>, tokens: seq<string>)
    requires forall k :: 0 <= k < |parts| ==> ',' !in parts[k]
    requires |tokens| == |parts| && forall k :: 0 <= k < |parts| ==> tokens[k] == Strip(parts[k])
    ensures forall k :: 0 <= k < |tokens| ==> ',' !in tokens[k]
    ensures forall k :: 0 <= k < |tokens| ==>
              tokens[k] == [] || (!IsSpace(tokens[k][0]) && !IsSpace(tokens[k][|tokens[k]| - 1]))
  {
    forall k | 0 <= k < |parts|
      ensures ',' !in tokens[k]
      ensures tokens[k] == [] || (!IsSpace(tokens[k][0]) && !IsSpace(tokens[k][|tokens[k]| - 1]))
    {
      StripEnds(parts[k]);
      StripKeepsOut(parts[k], ',');
    }
  }

  /** Stripping cannot bring in a character the string did not have. */
  lemma StripKeepsOut(s: string, c: char)
    requires c !in s
    ensures c !in Strip(s)
  {
    var i, j := StripBounds(s);
    assert forall k :: 0 <= k < j - i ==> s[i..j][k] == s[i + k];
  }

  /** A list of comma-free tokens without surrounding whitespace survives being written as a
      comma-separated query and parsed back. */
  lemma {:induction false} ParseJoined(tokens: seq<string>)
    requires |tokens| >= 1
    requires forall k :: 0 <= k < |tokens| ==> ',' !in tokens[k] && Strip(tokens[k]) == tokens[k]
    ensures ParseIngredients(Join(tokens, ',')) == tokens
  {
    SplitJoin(tokens, ',');
  }

  /** Whitespace around the commas makes no difference to the parsed list: padding each
      clean token with whitespace on either side before joining still parses back to the
      tokens. */
  lemma ParseIgnoresPadding(tokens: seq<string>, pre: seq<string>, post: seq<string>)
    requires |tokens| >= 1 && |pre| == |tokens| && |post| == |tokens|
    requires forall k :: 0 <= k < |tokens| ==> ',' !in tokens[k] && Strip(tokens[k]) == tokens[k]
    requires forall k, i :: 0 <= k < |pre| && 0 <= i < |pre[k]| ==> IsSpace(pre[k][i])
    requires forall k, i :: 0 <= k < |post| && 0 <= i < |post[k]| ==> IsSpace(post[k][i])
    ensures ParseIngredients(Join(seq(|tokens|, k requires 0 <= k < |tokens| => pre[k] + tokens[k] + post[k]), ','))
            == tokens
  {
    var padded := seq(|tokens|, k requires 0 <= k < |tokens| => pre[k] + tokens[k] + post[k]);
    PaddedPiecesClean(tokens, pre, post, padded);
    SplitJoin(padded, ',');
    var r := ParseIngredients(Join(padded, ','));
    assert |r| == |tokens|;
    assert forall k :: 0 <= k < |r| ==> r[k] == tokens[k];
  }

  /** Each padded token is comma-free and strips back to the token. */
  lemma PaddedPiecesClean(tokens: seq<string>, pre: seq<string>, post: seq<string>, padded: seq<string>)
    requires |pre| == |tokens| && |post| == |tokens|
    requires forall k :: 0 <= k < |tokens| ==> ',' !in tokens[k] && Strip(tokens[k]) == tokens[k]
    requires forall k, i :: 0 <= k < |pre| && 0 <= i < |pre[k]| ==> IsSpace(pre[k][i])
    requires forall k, i :: 0 <= k < |post| && 0 <= i < |post[k]| ==> IsSpace(post[k][i])
    requires |padded| == |tokens| && forall k :: 0 <= k < |tokens| ==> padded[k] == pre[k] + tokens[k] + post[k]
    ensures forall k :: 0 <= k < |padded| ==> ',' !in padded[k] && Strip(padded[k]) == tokens[k]
  {
    forall k | 0 <= k < |padded| ensures ',' !in padded[k] && Strip(padded[k]) == tokens[k] {
      var w, t, v := pre[k], tokens[k], post[k];
      assert forall i :: 0 <= i < |w| ==> IsSpace(w[i]);
      assert forall i :: 0 <= i < |v| ==> IsSpace(v[i]);
      StripEnds(t);
      PaddedTokenClean(w, t, v);
    }
  }

  /** One token padded with whitespace is comma-free and strips back to the token. */
  lemma PaddedTokenClean(pre: string, t: string, post: string)
    requires ',' !in t && (t == [] || (!IsSpace(t[0]) && !IsSpace(t[|t| - 1])))
    requires forall i :: 0 <= i < |pre| ==> IsSpace(pre[i])
    requires forall i :: 0 <= i < |post| ==> IsSpace(post[i])
    ensures ',' !in pre + t + post && Strip(pre + t + post) == t
  {
    assert !IsSpace(',');
    assert ',' !in pre;
    assert ',' !in post;
    StripPadded(pre, t, post);
  }

  /** What an endpoint answers: the suggestion, or a refusal before the helper runs. */
  datatype Outcome =
    | Answered(response: AiResponse)
    | QueryTooShort                    // the query parameter failed `min_length=1`
    | BadRequest(detail: string)       // HTTP 400 with this detail

  const NoIngredientsDetail: string := "At least one ingredient is required"

  /** `GET /api/ai/suggest`. */
  function SuggestGet(query: string, env: Environment, groqCall: GroqCall, hfCall: HfCall): (r: Outcome)
    ensures r.QueryTooShort? <==> |query| == 0
    ensures r.Answered? ==> r.response.ingredientsUsed == ParseIngredients(query)
    ensures r.Answered? ==> r.response.suggestion != EmptyInputMessage || EmptyInputMessageFromProvider(groqCall, hfCall)
  {
    if |query| == 0 then QueryTooShort
    else
      var tokens := ParseIngredients(query);
      Answered(GetAiRecipeSuggestion(tokens, env, groqCall, hfCall))
  }

  /** A provider that itself answered with the empty-input text; only then can that text
      reach a GET caller, since a split never yields an empty list. */
  predicate EmptyInputMessageFromProvider(groqCall: GroqCall, hfCall: HfCall) {
    || (groqCall.GroqReturned? && groqCall.content == EmptyInputMessage)
    || (HfUsable(hfCall) && hfCall.payload.items[0].generatedText.GetOr(HfDefaultText) == EmptyInputMessage)
  }

  /** `POST /api/ai/suggest`. */
  function SuggestPost(ingredients: seq<string>, env: Environment, groqCall: GroqCall, hfCall: HfCall): (r: Outcome)
    ensures r.BadRequest? <==> |ingredients| == 0
    ensures r.BadRequest? ==> r.detail == NoIngredientsDetail
    ensures r.Answered? ==> r.response.ingredientsUsed == ingredients
    ensures !r.QueryTooShort?
  {
    if |ingredients| == 0 then BadRequest(NoIngredientsDetail)
    else Answered(GetAiRecipeSuggestion(ingredients, env, groqCall, hfCall))
  }

  /** Posting the parsed list of a non-empty query answers exactly as the GET would. */
  lemma GetIsPostOfParsed(query: string, env: Environment, groqCall: GroqCall, hfCall: HfCall)
    requires |query| > 0
    ensures SuggestGet(query, env, groqCall, hfCall) == SuggestPost(ParseIngredients(query), env, groqCall, hfCall)
  {
  }
}
