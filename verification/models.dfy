/** The request and response records of the service, with the field constraints the
    validation layer enforces stated as predicates. */
module Models {
  import opened Wrappers

  /** A recipe as submitted and as stored. `id` is absent on submission and assigned by the store. */
  datatype Recipe = Recipe(
    id: Option<int>,
    name: string,
    ingredients: seq<string>,
    instructions: string,
    cuisine: string,
    servings: Option<int>,
    prepTime: Option<int>,   // minutes
    cookTime: Option<int>)   // minutes

  const MaxNameLength := 200
  const MinInstructionsLength := 10
  const DefaultServings := 4

  /** The field constraints a `Recipe` must meet to be accepted. */
  predicate Valid(r: Recipe) {
    && 1 <= |r.name| <= MaxNameLength
    && |r.ingredients| >= 1
    && |r.instructions| >= MinInstructionsLength
    && |r.cuisine| >= 1
  }

  /** A recipe built from its required fields only: every optional field takes its default. */
  function NewRecipe(name: string, ingredients: seq<string>, instructions: string, cuisine: string): (r: Recipe)
    ensures r.id.None? && r.prepTime.None? && r.cookTime.None?
    ensures r.servings == Some(DefaultServings)
    ensures r.name == name && r.ingredients == ingredients
    ensures r.instructions == instructions && r.cuisine == cuisine
    ensures Valid(r) <==> 1 <= |name| <= 200 && |ingredients| >= 1 && |instructions| >= 10 && |cuisine| >= 1
  {
    Recipe(None, name, ingredients, instructions, cuisine, Some(DefaultServings), None, None)
  }

  /** The response shape of a recipe: the same fields, but `id` is a required integer. */
  datatype RecipeResponse = RecipeResponse(
    id: int,
    name: string,
    ingredients: seq<string>,
    instructions: string,
    cuisine: string,
    servings: Option<int>,
    prepTime: Option<int>,
    cookTime: Option<int>)

  /** Serialising a recipe through the response shape: rejected when it has no id. */
  function AsResponse(r: Recipe): (resp: Option<RecipeResponse>)
    ensures resp.Some? <==> r.id.Some?
  {
    match r.id
    case None => None
    case Some(i) => Some(RecipeResponse(i, r.name, r.ingredients, r.instructions, r.cuisine,
                                        r.servings, r.prepTime, r.cookTime))
  }

  /** The recipe a response describes. */
  function FromResponse(resp: RecipeResponse): (r: Recipe)
    ensures r.id == Some(resp.id)
  {
    Recipe(Some(resp.id), resp.name, resp.ingredients, resp.instructions, resp.cuisine,
           resp.servings, resp.prepTime, resp.cookTime)
  }

  /** A response and the stored recipe it was serialised from determine each other. */
  lemma ResponseRoundTrip(r: Recipe, resp: RecipeResponse)
    ensures AsResponse(FromResponse(resp)) == Some(resp)
    ensures AsResponse(r) == Some(resp) <==> FromResponse(resp) == r
  {
  }

  /** Filters of the advanced search; every field is optional and unset by default. */
  datatype SearchFilters = SearchFilters(
    cuisine: Option<string>,
    ingredient: Option<string>,
    prepTimeMax: Option<int>)

  const NoFilters := SearchFilters(None, None, None)

  /** A suggestion and the list of inputs it was produced from. */
  datatype AiResponse = AiResponse(suggestion: string, ingredientsUsed: seq<string>)
}
