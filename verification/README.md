# Smart Recipe Explorer — a Dafny model of the recipe store and the suggestion chain

Smart Recipe Explorer is a small web service. It keeps recipes in an in-memory list and
answers queries over them: get, add, update, delete, search by cuisine, by ingredient,
by time, a combined "advanced" search, and statistics. It also asks a language-model
provider for a recipe suggestion. Groq is tried first and Hugging Face second, and a
fixed message comes back when neither answers.

This project models that core as pure functions over immutable values:

- `wrappers.dfy` (`Wrappers`): `Option` and `Reply` (`Found(value)` or `NotFound`).
  `NotFound` is the 404 outcome of the handlers.
- `text.dfy` (`Text`): the Python string operations the handlers use.
  - `str.lower()` on ASCII letters.
  - The substring test `a in b`, with a proof that the left-to-right scan answers exactly
    "some offset starts a copy".
  - `str.strip()`, using the 29 characters `str.isspace()` accepts.
  - `str.split(sep)` and `sep.join`, with both round trips.
- `seqs.dfy` (`Seqs`): list comprehensions as `Filter`, "ordered subsequence" as a
  predicate, and `set(s)` as `Elements`.
- `models.dfy` (`Models`): the `Recipe`, `RecipeResponse`, `SearchFilters` and `AIResponse`
  records. The field constraints are the predicate `Valid`.
- `store.dfy` (`Store`): the recipe handlers of `app/main.py`.
  - The store is a `seq<Recipe>`. Every changing operation returns the new store together
    with its reply.
  - Every search is one shared `Search` over a list of filter steps (`Criterion`).
  - `NarrowIsConjunction` proves that applying the steps one after another is the same as
    one filter by their conjunction.
- `seed.dfy` (`Seed`): the five-recipe seed catalog of `app/recipes.py`, with concrete facts
  proved about it.
- `ai_helper.dfy` (`AiHelper`): `get_ai_recipe_suggestion` as a decision function, `Decide`.
  - It takes two "configured" flags and the outcomes of the two provider attempts.
  - When the ingredient list is non-empty and at least one key is set, a reference fallback
    chain, `FirstSuccess`, is proved equal to it. Otherwise it answers with the please-provide
    message or the configuration help, which the chain never produces.
  - Each provider's response is classified over an abstract description of what the call
    did (raised, or returned some content / some status and payload).
- `suggest.dfy` (`Suggest`): the two suggestion endpoints.
  - GET splits the query at commas and strips each piece.
  - POST refuses an empty list.

The Python code wraps the two quirks the handlers rely on; both are modelled as written:

- **Time filters.** `r.prep_time and r.prep_time <= bound` treats an unset time and a time
  of 0 alike: both are excluded whenever the bound is given (`WithinBound`).
- **Advanced-search filters.** A filter that is falsy is skipped. An empty cuisine, an
  empty ingredient or a prep-time bound of 0 all mean "no filter" (`CuisineFilterOn`,
  `IngredientFilterOn`, `PrepFilterOn`).

## Model

| member | source | states |
|---|---|---|
| Text.ContainsIsSubstring | app/main.py:102 | The scan used for `needle in hay` is true exactly when some offset of `hay` starts a copy of `needle` |
| Text.LowerIdempotent | app/main.py:92 | Lower-casing an already lower-cased string changes nothing, so a query given in lower case compares like any other spelling |
| Text.Split | app/main.py:150 | `s.split(",")` always yields at least one piece, and no piece contains the separator |
| Text.SplitCount | app/main.py:150 | `s.split(",")` has exactly one more piece than `s` has commas |
| Text.JoinSplit | app/main.py:150 | Joining the pieces of a split with the separator gives back the original string |
| Text.SplitJoin | app/main.py:150 | Splitting a join of separator-free pieces gives back exactly those pieces |
| Text.StripSpec | app/main.py:150 | `strip()` keeps a contiguous middle part, removes only whitespace on either side, and leaves no whitespace at either end |
| Text.StripIdempotent | app/main.py:150 | Stripping a stripped string changes nothing |
| Seqs.Filter | app/main.py:85 | A list comprehension keeps, in order, only items satisfying its condition and every such item: an ordered subsequence, empty iff nothing qualifies, as long as the input iff everything does |
| Seqs.FilterCounts | app/main.py:85 | A list comprehension keeps each qualifying item exactly as many times as the input holds it, and no other item |
| Seqs.FilterFuse | app/main.py:111-117 | Two filter passes in a row keep the same items as one pass with the conjunction of the conditions |
| Seqs.Elements | app/main.py:181 | `set(s)` holds every element of `s` and nothing else |
| Seqs.ElementsBound | app/main.py:181 | `len(set(s)) <= len(s)` |
| Seqs.ElementsConcat | app/main.py:174-176 | The distinct elements of a concatenation are the union of those of its parts |
| Models.NewRecipe | app/models.py:4-12 | A recipe given only its required fields has no id, 4 servings and no prep or cook time; it is valid iff the name has 1..200 characters, there is an ingredient, the instructions have at least 10 characters and the cuisine is non-empty |
| Models.AsResponse | app/models.py:27-28 | A recipe can be returned as a response exactly when its id is set |
| Models.ResponseRoundTrip | app/models.py:27-28 | A response and the stored recipe it comes from determine each other |
| Store.IndexOf | app/main.py:70 | `next(i for i, r in enumerate(db) if r.id == id)`: absent iff no entry has the id, otherwise the first position carrying it |
| Store.Get | app/main.py:50-56 | NotFound iff no entry has the id; otherwise a stored recipe with that id, the first such one |
| Store.GetUnique | app/main.py:53 | When ids are distinct, get returns the one entry carrying the id |
| Store.MaxId | app/main.py:62 | `max(ids, default=0)`: at least every id, attained by some entry, 0 for an empty store |
| Store.Create | app/main.py:58-65 | The new recipe is appended at the end with an id above every existing one (1 in an empty store, otherwise one more than an existing id); its other fields are those submitted; distinct ids stay distinct and validity is kept |
| Store.CreateThenGet | app/main.py:62-65 | After a create, a get on the new id returns the new recipe |
| Store.Update | app/main.py:67-76 | NotFound iff the id is absent, and then the store is unchanged; otherwise the first entry with the id is replaced by the input with its id forced to the path id, nothing else changes, and distinct ids stay distinct |
| Store.Delete | app/main.py:78-86 | NotFound iff the id is absent, and then the store is unchanged; otherwise the new store is an ordered subsequence keeping every entry with another id, as often as the store held it, and none with this one; a following get on the id is NotFound, and distinct ids stay distinct |
| Store.SubsequenceKeepsInvariant | app/main.py:85 | Removing entries never breaks "ids assigned and pairwise distinct" |
| Store.NarrowIsConjunction | app/main.py:127-139 | Applying the filter steps one after another keeps exactly the entries meeting all of them, in store order |
| Store.Search | app/main.py:119-122 | A search's result is an ordered subsequence of the store holding every entry that meets all its steps, as many times as the store holds it, and no other; it is NotFound iff no entry meets them |
| Store.SearchWithoutSteps | app/main.py:111 | With no filter step a search returns the whole store |
| Store.SearchByCuisine | app/main.py:89-95 | Exactly the recipes whose lower-cased cuisine equals the lower-cased query, in store order and with their multiplicity; NotFound iff there are none |
| Store.CuisineSearchIgnoresCase | app/main.py:92 | Two queries with the same lower-case form give the same answer |
| Store.CuisineSearchLowered | app/main.py:92 | Searching for a cuisine and for its lower-case form gives the same answer |
| Store.SearchByIngredient | app/main.py:97-106 | Exactly the recipes with some ingredient containing the query, ignoring case, in store order and with their multiplicity; NotFound iff there are none |
| Store.IngredientMatchMeaning | app/main.py:102 | A recipe matches an ingredient query iff the lower-cased query is a substring of one of its lower-cased ingredients |
| Store.ListedIngredientMatches | app/main.py:102 | A recipe listing the query itself as an ingredient matches it |
| Store.EmptyIngredientMatchesAny | app/main.py:102 | An empty query, were it let through, would match every recipe with at least one ingredient, since `"" in s` holds for every string |
| Store.TimeStepsMeaning | app/main.py:113-117 | The by-time filter steps keep a recipe iff each given bound is met by a set, non-zero time |
| Store.SearchByTime | app/main.py:108-122 | Exactly the recipes meeting every given bound, in store order and with their multiplicity; NotFound iff there are none; with no bound, the whole store |
| Store.TimeBoundsRespected | app/main.py:113-117 | Every result of a time search has each bounded time set, non-zero and within its bound |
| Store.AdvancedStepsMeaning | app/main.py:129-139 | The advanced-search steps keep a recipe iff it meets every filter that is switched on |
| Store.AdvancedSearch | app/main.py:124-144 | Exactly the recipes meeting the switched-on filters, in store order and with their multiplicity; NotFound iff there are none; with every filter off (unset, empty or 0), the whole store |
| Store.AdvancedDefaultsKeepAll | app/models.py:34-37 | A request body with every field left at its default (unset) returns the whole store, NotFound only when it is empty |
| Store.AdvancedCuisineOnly | app/main.py:129-130 | With only a non-empty cuisine filter, the advanced search answers as the by-cuisine search |
| Store.AdvancedZeroPrepIsNoFilter | app/main.py:138-139 | A prep-time bound of 0 switches the advanced filter off, while the by-time search with bound 0 keeps only negative prep times |
| Store.AllIngredients | app/main.py:174-176 | The `extend` loop collects every ingredient of every recipe and nothing else |
| Store.Cuisines | app/main.py:173 | The cuisine set is no larger than the store |
| Store.CuisinesAreStored | app/main.py:173 | The cuisine set holds exactly the cuisines of the stored recipes: every stored cuisine is in it and nothing else is |
| Store.PrepTimeSumAppend | app/main.py:182 | Adding a recipe adds its prep time (0 when unset) to the prep-time sum |
| Store.GetStats | app/main.py:170-183 | `total_recipes` is the store length, `cuisines` is the set of stored cuisines, `total_unique_ingredients` is the number of distinct ingredient strings and at most the number of ingredients listed |
| Store.UniqueIngredientsCounted | app/main.py:174-181 | `set(all_ingredients)` is the set of strings that appear as an ingredient of some recipe |
| Seed.CatalogShape | app/recipes.py:3-54 | The seed holds five recipes with ids 1 to 5 in order, ids assigned and pairwise distinct |
| Seed.CatalogValid | app/recipes.py:4-53 | Every seed recipe meets the field constraints |
| Seed.FirstCreateGetsSix | app/recipes.py:45 | The largest seed id is 5, so the first recipe added to the seed gets id 6 |
| Seed.CatalogStats | app/recipes.py:3-54 | The seed's statistics report five recipes and the five distinct cuisines Asian, Italian, Indian, American and Mexican |
| Seed.CatalogUniqueIngredients | app/recipes.py:7-47 | The seed lists 25 ingredients of which 23 are distinct ("garlic" and "cream" appear twice) |
| Seed.CatalogPrepTimeSum | app/recipes.py:11-51 | The seed's prep times add up to 85 minutes |
| Seed.ExcludesMeansAbsent | app/main.py:102 | An ingredient lacking, in both cases, a letter of the query (or split so that neither part can hold it) does not contain the query |
| Seed.NoMatchAmongFive | app/main.py:102 | A recipe none of whose five ingredients can contain the query does not match it |
| Seed.SeedRiceSearch | app/recipes.py:7 | Searching the seed for the ingredient "rice" finds Veg Fried Rice alone |
| Seed.SeedGarlicSearch | app/recipes.py:7-17 | Searching the seed for "garlic" finds Veg Fried Rice and Pasta Alfredo, in that order |
| Seed.SeedCreamSearch | app/recipes.py:17-27 | Searching the seed for "cream" finds Pasta Alfredo and Chicken Tikka Masala, in that order |
| Seed.SeedAsianSearch | app/recipes.py:9 | Searching the seed for the cuisine "Asian" finds Veg Fried Rice alone |
| Seed.SeedLowerAsianSearch | app/recipes.py:9 | Searching the seed for "asian" gives the same single result |
| Seed.SeedCookSearch | app/recipes.py:42 | A cook-time bound of 25 finds Veg Fried Rice and Pasta Alfredo; Caesar Salad's cook time of 0 counts as unset |
| Seed.CaesarSaladNeverFoundByCook | app/recipes.py:42 | No cook-time bound ever returns Caesar Salad |
| AiHelper.GroqAttempt | app/ai_helper.py:81-145 | The Groq attempt yields a result iff the client library was imported and the call returned; the result carries the returned content and echoes the inputs |
| AiHelper.HfAttempt | app/ai_helper.py:147-176 | The Hugging Face attempt yields a result iff the status is 200 and the payload is a non-empty JSON list whose first item is an object; the text is its `generated_text`, or "Could not generate suggestion." when that key is missing, and the inputs are echoed |
| AiHelper.Decide | app/ai_helper.py:20-79 | Empty input gives the please-provide message with nothing echoed; no key gives the configuration help; a configured Groq success wins; otherwise a configured Hugging Face success; otherwise the unavailable message with the inputs |
| AiHelper.FirstSuccess | app/ai_helper.py:63-73 | The first successful attempt of an ordered provider list: none iff every attempt failed, otherwise a success preceded only by failures |
| AiHelper.DecideIsFallbackChain | app/ai_helper.py:63-79 | For a non-empty ingredient list with at least one key set, the decision is the first success of the Groq, Hugging Face chain, falling back to the unavailable message |
| AiHelper.GetAiRecipeSuggestion | app/ai_helper.py:20-79 | For non-empty input every outcome echoes the input list; empty input gives the please-provide message; with neither key set the configuration help comes back |
| AiHelper.OnlyAllowedTexts | app/ai_helper.py:30-79 | The suggestion text is one of the three fixed messages, Groq's content or the Hugging Face text; no provider failure escapes |
| AiHelper.GroqAnswerWins | app/ai_helper.py:64-67 | With Groq configured and answering, its content is returned whatever Hugging Face would do |
| AiHelper.UnsetGroqNotConsulted | app/ai_helper.py:64 | With the Groq key unset, what Groq would do has no effect |
| AiHelper.UnsetHfNotConsulted | app/ai_helper.py:70 | With the Hugging Face key unset, what Hugging Face would do has no effect |
| AiHelper.HfFallback | app/ai_helper.py:69-73 | With Groq unconfigured or failing and a usable Hugging Face answer, that answer is returned with the inputs |
| AiHelper.AllProvidersFail | app/ai_helper.py:75-79 | When every configured provider fails, the unavailable message comes back with the inputs |
| AiHelper.MissingLibraryLikeNoKey | app/ai_helper.py:84-86 | A missing Groq library makes a set Groq key behave as an unset one, provided the Hugging Face key is set |
| AiHelper.MissingLibraryWithoutHf | app/ai_helper.py:84-86 | With only the Groq key set and the library missing the answer is the unavailable message, whereas with no key at all it is the configuration help |
| Suggest.ParseIngredients | app/main.py:150 | The GET query becomes one token per comma-separated piece, token k being piece k stripped: one more token than commas, each comma-free, with no whitespace at either end |
| Suggest.StripKeepsOut | app/main.py:150 | Stripping never introduces a character the piece did not have |
| Suggest.ParseJoined | app/main.py:150 | Comma-free, already stripped tokens written as a comma-separated query parse back to the same list |
| Suggest.ParseIgnoresPadding | app/main.py:150 | Clean tokens padded with any whitespace on either side, joined with commas, parse back to exactly the clean tokens |
| Text.StripPadded | app/main.py:150 | Stripping a string with no whitespace at either end, padded with whitespace on both sides, gives the string back |
| Suggest.SuggestGet | app/main.py:147-155 | An empty query is refused; otherwise the answer echoes the parsed tokens and is never the please-provide message unless a provider itself answered with that text |
| Suggest.SuggestPost | app/main.py:157-167 | An empty list is refused with "At least one ingredient is required"; otherwise the answer echoes the list |
| Suggest.GetIsPostOfParsed | app/main.py:147-167 | For a non-empty query, the GET answers as a POST of the parsed token list |

## Left out

- Web plumbing is not modelled: application setup, CORS, static files, the HTML page,
  `get_all_recipes` (it returns the list unchanged) and `health_check`. HTTP status codes
  and error details become the `NotFound`, `QueryTooShort` and `BadRequest` outcomes.
- Request validation happens in the framework before a handler runs. `Valid` states the
  recipe constraints; the handlers are modelled from the point where validation has passed.
  The contracts show that validity is kept.
- Store.SearchByCuisine: the `min_length=1` check on the query is not modelled. Likewise
  Store.SearchByIngredient: the functions accept any string, including an empty one, which
  would match every recipe that has an ingredient (`Store.EmptyIngredientMatchesAny`).
- Store.Create: requires every stored recipe to have an id. In the source, `max()` over an
  unset id raises. No handler can produce such a store: the seed has ids, Create, Update and
  Delete keep `Invariant`, and `CatalogShape` proves it for the seed.
- Store.Delete: replies with the deleted id instead of the formatted confirmation message.
- Store.GetStats: `avg_prep_time` uses floating-point division, so only its integer
  numerator (`prepTimeSum`) and the count are modelled. The cuisine list is modelled as a
  set, because the order of `list(set(...))` is unspecified.
- The store is a module-global list that `add_recipe` and `update_recipe` change in place
  and `delete_recipe` rebinds. It is modelled as a value threaded through the operations, so
  concurrent requests are out of scope.
- `str.lower()` is modelled for ASCII letters only. Full Unicode case mapping is left out.
- AiHelper.GroqAttempt: the provider calls, prompts, API URL, timeout, environment loading
  and log prints are not modelled. A call is represented only by what it did: raised, or
  returned a string.
  - A Groq content of `None`, or a Hugging Face `generated_text` that is present but not a
    string, would make the response record fail validation. These cases are not modelled.
- Python truthiness of a non-empty result dictionary (`if result:`) is always true, so an
  attempt's success is modelled as `Some`.
