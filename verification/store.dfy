/** The in-memory recipe store and the handlers that read and change it. The store is a
    value: every changing operation returns the new store alongside its reply. */
module Store {
  import opened Wrappers
  import opened Text
  import opened Seqs
  import opened Models

  type Store = seq<Recipe>

  /** Some entry of `store` carries `id`. */
  predicate Present(store: Store, id: int) {
    exists i :: 0 <= i < |store| && store[i].id == Some(id)
  }

  /** Every stored recipe has been given an id. */
  predicate IdsAssigned(store: Store) {
    forall i :: 0 <= i < |store| ==> store[i].id.Some?
  }

  /** No two entries share an id. */
  predicate UniqueIds(store: Store) {
    forall i, j :: 0 <= i < j < |store| ==> store[i].id != store[j].id
  }

  /** The invariant every operation keeps: ids assigned and pairwise distinct. */
  predicate Invariant(store: Store) {
    IdsAssigned(store) && UniqueIds(store)
  }

  /** Position of the first entry carrying `id`, if any. */
  function IndexOf(store: Store, id: int): (k: Option<nat>)
    ensures k.None? <==> !Present(store, id)
    ensures k.Some? ==> k.value < |store| && store[k.value].id == Some(id)
    ensures k.Some? ==> forall j :: 0 <= j < k.value ==> store[j].id != Some(id)
    decreases |store|
  {
    if |store| == 0 then None
    else if store[0].id == Some(id) then Some(0)
    else
      assert forall i :: 0 < i < |store| ==> store[i] == store[1..][i - 1];
      match IndexOf(store[1..], id)
      case None => None
      case Some(k) => Some(k + 1)
  }

  // ---------------------------------------------------------------- get

  /** `GET /api/recipes/{id}`: the first entry carrying `id`, or NotFound. */
  function Get(store: Store, id: int): (r: Reply<Recipe>)
    ensures r.NotFound? <==> !Present(store, id)
    ensures r.Found? ==> r.value in store && r.value.id == Some(id)
    ensures r.Found? ==> forall j :: 0 <= j < |store| && store[j] != r.value ==>
                                       store[j].id == Some(id) ==> exists k :: 0 <= k < j && store[k] == r.value
  {
    match IndexOf(store, id)
    case None => NotFound
    case Some(k) => Found(store[k])
  }

  /** With distinct ids, Get returns THE entry carrying the id. */
  lemma GetUnique(store: Store, id: int, i: int)
    requires UniqueIds(store)
    requires 0 <= i < |store| && store[i].id == Some(id)
    ensures Get(store, id) == Found(store[i])
  {
  }

  // ---------------------------------------------------------------- create

  /** The largest id in a non-empty store, 0 for an empty one (`max(ids, default=0)`). */
  function MaxId(store: Store): (m: int)
    requires IdsAssigned(store)
    ensures forall i :: 0 <= i < |store| ==> store[i].id.value <= m
    ensures |store| == 0 ==> m == 0
    ensures |store| > 0 ==> exists i :: 0 <= i < |store| && store[i].id.value == m
    decreases |store|
  {
    if |store| == 0 then 0
    else if |store| == 1 then store[0].id.value
    else
      assert forall i :: 0 < i < |store| ==> store[i] == store[1..][i - 1];
      var rest := MaxId(store[1..]);
      if store[0].id.value >= rest then store[0].id.value else rest
  }

  /** `POST /api/recipes`: the input gets id `max + 1` and is appended at the end.
      Returns the new store and the stored recipe. */
  function Create(store: Store, recipe: Recipe): (res: (Store, Recipe))
    requires IdsAssigned(store)
    ensures var (s, r) := res;
      && s == store + [r]
      && r.id.Some?
      && (forall i :: 0 <= i < |store| ==> store[i].id.value < r.id.value)
      && (|store| == 0 ==> r.id == Some(1))
      && (|store| > 0 ==> exists i :: 0 <= i < |store| && r.id.value == store[i].id.value + 1)
      && r == recipe.(id := r.id)
      && (Invariant(store) ==> Invariant(s))
      && (Valid(recipe) ==> Valid(r))
  {
    var r := recipe.(id := Some(MaxId(store) + 1));
    (store + [r], r)
  }

  /** After a create, a get on the new id finds the new recipe. */
  lemma CreateThenGet(store: Store, recipe: Recipe)
    requires IdsAssigned(store)
    ensures var (s, r) := Create(store, recipe);
      Get(s, r.id.value) == Found(r)
  {
    var (s, r) := Create(store, recipe);
    assert s[|store|] == r;
    assert IndexOf(s, r.id.value) == Some(|store|);
  }

  // ---------------------------------------------------------------- update

  /** `PUT /api/recipes/{id}`: replaces the first entry carrying `id` by the input with its id
      forced to `id`. Returns the new store and the reply. */
  function Update(store: Store, id: int, recipe: Recipe): (res: (Store, Reply<Recipe>))
    ensures var (s, reply) := res;
      && (reply.NotFound? <==> !Present(store, id))
      && (reply.NotFound? ==> s == store)
      && (reply.Found? ==> reply.value == recipe.(id := Some(id)))
      && (reply.Found? ==> exists k :: 0 <= k < |store| && store[k].id == Some(id)
                                       && (forall j :: 0 <= j < k ==> store[j].id != Some(id))
                                       && s == store[k := reply.value])
      && |s| == |store|
      && (Invariant(store) ==> Invariant(s))
      && (reply.Found? && Valid(recipe) ==> Valid(reply.value))
  {
    match IndexOf(store, id)
    case None => (store, NotFound)
    case Some(k) =>
      var r := recipe.(id := Some(id));
      (store[k := r], Found(r))
  }

  // ---------------------------------------------------------------- delete

  /** `DELETE /api/recipes/{id}`: removes every entry carrying `id`. The reply carries the
      deleted id in place of the confirmation message. */
  function Delete(store: Store, id: int): (res: (Store, Reply<int>))
    ensures var (s, reply) := res;
      && (reply.NotFound? <==> !Present(store, id))
      && (reply.NotFound? ==> s == store)
      && (reply.Found? ==> reply.value == id)
      && IsSubsequence(s, store)
      && (forall i :: 0 <= i < |s| ==> s[i].id != Some(id))
      && (forall i :: 0 <= i < |store| && store[i].id != Some(id) ==> store[i] in s)
      && (forall x :: multiset(s)[x] == (if x.id != Some(id) then multiset(store)[x] else 0))
      && Get(s, id).NotFound?
      && (Invariant(store) ==> Invariant(s))
  {
    if !Present(store, id) then
      SubsequenceReflexive(store);
      AbsentNotCounted(store, id);
      (store, NotFound)
    else
      var s := Filter(store, (r: Recipe) => r.id != Some(id));
      SubsequenceKeepsInvariant(s, store);
      FilterCounts(store, (r: Recipe) => r.id != Some(id));
      (s, Found(id))
  }

  /** A store without `id` holds no recipe carrying it. */
  lemma AbsentNotCounted(store: Store, id: int)
    requires !Present(store, id)
    ensures forall x: Recipe :: x.id == Some(id) ==> multiset(store)[x] == 0
  {
    forall x: Recipe | x.id == Some(id) ensures multiset(store)[x] == 0 {
      assert x !in store;
    }
  }

  /** Deleting entries never breaks the store invariant. */
  lemma {:induction false} SubsequenceKeepsInvariant(a: Store, b: Store)
    requires IsSubsequence(a, b)
    ensures Invariant(b) ==> Invariant(a)
    decreases |b|
  {
    SubsequenceMembers(a, b);
    if |a| > 0 && Invariant(b) {
      assert forall i :: 0 < i < |b| ==> b[i] == b[1..][i - 1];
      assert Invariant(b[1..]);
      if a[0] == b[0] && IsSubsequence(a[1..], b[1..]) {
        SubsequenceKeepsInvariant(a[1..], b[1..]);
        SubsequenceMembers(a[1..], b[1..]);
        forall i, j | 0 <= i < j < |a|
          ensures a[i].id != a[j].id
        {
          if i == 0 {
            assert a[j] == a[1..][j - 1];
            assert a[j] in b[1..];
            var m :| 0 <= m < |b[1..]| && b[1..][m] == a[j];
            assert b[m + 1] == a[j];
          } else {
            assert a[i] == a[1..][i - 1] && a[j] == a[1..][j - 1];
          }
        }
      } else {
        SubsequenceKeepsInvariant(a, b[1..]);
      }
    }
  }

  // ---------------------------------------------------------------- searches

  /** A result list, or NotFound when it is empty. */
  function NonEmpty(results: seq<Recipe>): (r: Reply<seq<Recipe>>)
    ensures r.NotFound? <==> |results| == 0
    ensures r.Found? ==> r.value == results
  {
    if |results| == 0 then NotFound else Found(results)
  }

  /** Case-insensitive equality of the recipe's cuisine with the query. */
  predicate CuisineMatches(r: Recipe, cuisine: string) {
    Lower(r.cuisine) == Lower(cuisine)
  }

  /** Some ingredient of the recipe contains the query, ignoring case. */
  predicate IngredientMatches(r: Recipe, ingredient: string) {
    exists k :: 0 <= k < |r.ingredients| && Contains(Lower(r.ingredients[k]), Lower(ingredient))
  }

  /** Python's `t and t <= bound` on an optional time: unset and zero are both falsy. */
  predicate WithinBound(t: Option<int>, bound: int) {
    t.Some? && t.value != 0 && t.value <= bound
  }

  /** One filter step of a search handler. */
  datatype Criterion =
    | CuisineIs(cuisine: string)
    | HasIngredient(ingredient: string)
    | PrepAtMost(maxPrep: int)
    | CookAtMost(maxCook: int)

  predicate Meets(r: Recipe, c: Criterion) {
    match c
    case CuisineIs(cuisine) => CuisineMatches(r, cuisine)
    case HasIngredient(ingredient) => IngredientMatches(r, ingredient)
    case PrepAtMost(bound) => WithinBound(r.prepTime, bound)
    case CookAtMost(bound) => WithinBound(r.cookTime, bound)
  }

  predicate MeetsAll(r: Recipe, cs: seq<Criterion>) {
    forall k :: 0 <= k < |cs| ==> Meets(r, cs[k])
  }

  lemma MeetsOne(r: Recipe, c: Criterion)
    ensures MeetsAll(r, [c]) <==> Meets(r, c)
  {
    assert [c][0] == c;
  }

  lemma MeetsAllConcat(r: Recipe, a: seq<Criterion>, b: seq<Criterion>)
    ensures MeetsAll(r, a + b) <==> MeetsAll(r, a) && MeetsAll(r, b)
  {
    assert forall k :: 0 <= k < |a| ==> (a + b)[k] == a[k];
    assert forall k :: 0 <= k < |b| ==> (a + b)[|a| + k] == b[k];
  }

  function Test(c: Criterion): Recipe -> bool {
    (x: Recipe) => Meets(x, c)
  }

  function TestAll(cs: seq<Criterion>): Recipe -> bool {
    (x: Recipe) => MeetsAll(x, cs)
  }

  /** One filter step: `[r for r in results if <criterion>]`. */
  function Select(store: Store, c: Criterion): seq<Recipe> {
    Filter(store, Test(c))
  }

  /** The filter steps applied one after the other, as the handlers do. */
  function Narrow(store: Store, cs: seq<Criterion>): seq<Recipe>
    decreases |cs|
  {
    if |cs| == 0 then store else Narrow(Select(store, cs[0]), cs[1..])
  }

  /** Applying the steps in turn keeps exactly the entries meeting all of them, in store order. */
  lemma {:induction false} NarrowIsConjunction(store: Store, cs: seq<Criterion>)
    ensures Narrow(store, cs) == Filter(store, TestAll(cs))
    decreases |cs|
  {
    if |cs| == 0 {
      FilterAll(store, TestAll(cs));
    } else {
      NarrowIsConjunction(Select(store, cs[0]), cs[1..]);
      forall i | 0 <= i < |store|
        ensures TestAll(cs)(store[i]) == (Test(cs[0])(store[i]) && TestAll(cs[1..])(store[i]))
      {
        assert forall k :: 0 < k < |cs| ==> cs[k] == cs[1..][k - 1];
      }
      FilterFuse(store, Test(cs[0]), TestAll(cs[1..]), TestAll(cs));
    }
  }

  /** What a search handler returns for a list of filter steps. */
  function Search(store: Store, cs: seq<Criterion>): (r: Reply<seq<Recipe>>)
    ensures r.NotFound? <==> forall i :: 0 <= i < |store| ==> !MeetsAll(store[i], cs)
    ensures r.Found? ==> IsSubsequence(r.value, store)
    ensures r.Found? ==> forall i :: 0 <= i < |r.value| ==> MeetsAll(r.value[i], cs)
    ensures r.Found? ==> forall i :: 0 <= i < |store| && MeetsAll(store[i], cs) ==> store[i] in r.value
    ensures r.Found? ==> forall x :: multiset(r.value)[x] == (if MeetsAll(x, cs) then multiset(store)[x] else 0)
  {
    NarrowIsConjunction(store, cs);
    FilterCounts(store, TestAll(cs));
    NonEmpty(Narrow(store, cs))
  }

  /** A search whose steps amount to the condition `q` answers with the entries meeting `q`,
      each as many times as the store holds it. */
  lemma SearchAs(store: Store, cs: seq<Criterion>, q: Recipe -> bool)
    requires forall x :: MeetsAll(x, cs) == q(x)
    ensures var r := Search(store, cs);
      && (r.NotFound? <==> forall i :: 0 <= i < |store| ==> !q(store[i]))
      && (r.Found? ==> IsSubsequence(r.value, store))
      && (r.Found? ==> forall i :: 0 <= i < |r.value| ==> q(r.value[i]))
      && (r.Found? ==> forall i :: 0 <= i < |store| && q(store[i]) ==> store[i] in r.value)
      && (r.Found? ==> forall x :: multiset(r.value)[x] == (if q(x) then multiset(store)[x] else 0))
  {
  }

  /** With no filter step, a search returns the whole store (NotFound only when it is empty). */
  lemma SearchWithoutSteps(store: Store)
    ensures Search(store, []) == NonEmpty(store)
  {
  }

  /** `GET /api/recipes/search/by-cuisine`. */
  function SearchByCuisine(store: Store, cuisine: string): (r: Reply<seq<Recipe>>)
    ensures r.NotFound? <==> forall i :: 0 <= i < |store| ==> !CuisineMatches(store[i], cuisine)
    ensures r.Found? ==> IsSubsequence(r.value, store)
    ensures r.Found? ==> forall i :: 0 <= i < |r.value| ==> CuisineMatches(r.value[i], cuisine)
    ensures r.Found? ==> forall i :: 0 <= i < |store| && CuisineMatches(store[i], cuisine) ==> store[i] in r.value
    ensures r.Found? ==> forall x :: multiset(r.value)[x] == (if CuisineMatches(x, cuisine) then multiset(store)[x] else 0)
  {
    var r := Search(store, [CuisineIs(cuisine)]);
    forall x { MeetsOne(x, CuisineIs(cuisine)); }
    SearchAs(store, [CuisineIs(cuisine)], x => CuisineMatches(x, cuisine));
    r
  }

  /** Queries that lower-case to the same string give the same answer. */
  lemma {:induction false} CuisineSearchIgnoresCase(store: Store, cuisine: string, other: string)
    requires Lower(other) == Lower(cuisine)
    ensures SearchByCuisine(store, other) == SearchByCuisine(store, cuisine)
  {
    forall x ensures MeetsAll(x, [CuisineIs(cuisine)]) == MeetsAll(x, [CuisineIs(other)]) {
      MeetsOne(x, CuisineIs(cuisine));
      MeetsOne(x, CuisineIs(other));
    }
    NarrowIsConjunction(store, [CuisineIs(cuisine)]);
    NarrowIsConjunction(store, [CuisineIs(other)]);
    FilterCongruent(store, TestAll([CuisineIs(cuisine)]), TestAll([CuisineIs(other)]));
  }

  /** In particular a query and its lower-cased form give the same answer. */
  lemma CuisineSearchLowered(store: Store, cuisine: string)
    ensures SearchByCuisine(store, Lower(cuisine)) == SearchByCuisine(store, cuisine)
  {
    LowerIdempotent(cuisine);
    CuisineSearchIgnoresCase(store, cuisine, Lower(cuisine));
  }

  /** `GET /api/recipes/search/by-ingredient`. */
  function SearchByIngredient(store: Store, ingredient: string): (r: Reply<seq<Recipe>>)
    ensures r.NotFound? <==> forall i :: 0 <= i < |store| ==> !IngredientMatches(store[i], ingredient)
    ensures r.Found? ==> IsSubsequence(r.value, store)
    ensures r.Found? ==> forall i :: 0 <= i < |r.value| ==> IngredientMatches(r.value[i], ingredient)
    ensures r.Found? ==> forall i :: 0 <= i < |store| && IngredientMatches(store[i], ingredient) ==> store[i] in r.value
    ensures r.Found? ==> forall x :: multiset(r.value)[x] == (if IngredientMatches(x, ingredient) then multiset(store)[x] else 0)
  {
    var r := Search(store, [HasIngredient(ingredient)]);
    forall x { MeetsOne(x, HasIngredient(ingredient)); }
    SearchAs(store, [HasIngredient(ingredient)], x => IngredientMatches(x, ingredient));
    r
  }

  /** A recipe matches an ingredient query exactly when the lower-cased query occurs
      inside one of its lower-cased ingredients. */
  lemma IngredientMatchMeaning(r: Recipe, ingredient: string)
    ensures IngredientMatches(r, ingredient) <==>
            exists k :: 0 <= k < |r.ingredients| && IsSubstring(Lower(ingredient), Lower(r.ingredients[k]))
  {
    forall k | 0 <= k < |r.ingredients| {
      ContainsIsSubstring(Lower(r.ingredients[k]), Lower(ingredient));
    }
  }

  /** An empty query, which the `min_length=1` check would refuse, matches every recipe
      that has an ingredient. */
  lemma EmptyIngredientMatchesAny(r: Recipe)
    requires |r.ingredients| > 0
    ensures IngredientMatches(r, "")
  {
    EmptyIsEverywhere(Lower(r.ingredients[0]));
    assert Lower("") == "";
  }

  /** A recipe that lists the query itself among its ingredients matches it. */
  lemma ListedIngredientMatches(r: Recipe, ingredient: string)
    requires ingredient in r.ingredients
    ensures IngredientMatches(r, ingredient)
  {
    var k :| 0 <= k < |r.ingredients| && r.ingredients[k] == ingredient;
    assert Contains(Lower(r.ingredients[k]), Lower(ingredient));
  }

  /** The filter steps of the by-time handler: a prep bound first, then a cook bound. */
  function TimeSteps(maxPrep: Option<int>, maxCook: Option<int>): seq<Criterion> {
    (if maxPrep.Some? then [PrepAtMost(maxPrep.value)] else [])
    + (if maxCook.Some? then [CookAtMost(maxCook.value)] else [])
  }

  /** The time condition of the by-time search, for whichever bounds are given. */
  predicate TimeMatches(r: Recipe, maxPrep: Option<int>, maxCook: Option<int>) {
    && (maxPrep.Some? ==> WithinBound(r.prepTime, maxPrep.value))
    && (maxCook.Some? ==> WithinBound(r.cookTime, maxCook.value))
  }

  lemma TimeStepsMeaning(r: Recipe, maxPrep: Option<int>, maxCook: Option<int>)
    ensures MeetsAll(r, TimeSteps(maxPrep, maxCook)) <==> TimeMatches(r, maxPrep, maxCook)
  {
    var a := if maxPrep.Some? then [PrepAtMost(maxPrep.value)] else [];
    var b := if maxCook.Some? then [CookAtMost(maxCook.value)] else [];
    MeetsAllConcat(r, a, b);
    if maxPrep.Some? { MeetsOne(r, PrepAtMost(maxPrep.value)); }
    if maxCook.Some? { MeetsOne(r, CookAtMost(maxCook.value)); }
  }

  /** `GET /api/recipes/search/by-time`. */
  function SearchByTime(store: Store, maxPrep: Option<int>, maxCook: Option<int>): (r: Reply<seq<Recipe>>)
    ensures r.NotFound? <==> forall i :: 0 <= i < |store| ==> !TimeMatches(store[i], maxPrep, maxCook)
    ensures r.Found? ==> IsSubsequence(r.value, store)
    ensures r.Found? ==> forall i :: 0 <= i < |r.value| ==> TimeMatches(r.value[i], maxPrep, maxCook)
    ensures r.Found? ==> forall i :: 0 <= i < |store| && TimeMatches(store[i], maxPrep, maxCook) ==> store[i] in r.value
    ensures r.Found? ==> forall x :: multiset(r.value)[x] == (if TimeMatches(x, maxPrep, maxCook) then multiset(store)[x] else 0)
    ensures maxPrep.None? && maxCook.None? ==> r == NonEmpty(store)
  {
    var r := Search(store, TimeSteps(maxPrep, maxCook));
    forall x { TimeStepsMeaning(x, maxPrep, maxCook); }
    SearchAs(store, TimeSteps(maxPrep, maxCook), x => TimeMatches(x, maxPrep, maxCook));
    r
  }

  /** With a bound given, every result has that time set, nonzero and within the bound; a recipe
      whose time is unset or zero is therefore never returned. */
  lemma TimeBoundsRespected(store: Store, maxPrep: Option<int>, maxCook: Option<int>)
    ensures var r := SearchByTime(store, maxPrep, maxCook);
      r.Found? ==> forall i :: 0 <= i < |r.value| ==>
        && (maxPrep.Some? ==> r.value[i].prepTime.Some? && r.value[i].prepTime.value != 0
                              && r.value[i].prepTime.value <= maxPrep.value)
        && (maxCook.Some? ==> r.value[i].cookTime.Some? && r.value[i].cookTime.value != 0
                              && r.value[i].cookTime.value <= maxCook.value)
  {
  }

  // ---------------------------------------------------------------- advanced search

  /** Python truthiness of each filter: unset, empty string and 0 all switch a filter off. */
  predicate CuisineFilterOn(f: SearchFilters) { f.cuisine.Some? && f.cuisine.value != "" }
  predicate IngredientFilterOn(f: SearchFilters) { f.ingredient.Some? && f.ingredient.value != "" }
  predicate PrepFilterOn(f: SearchFilters) { f.prepTimeMax.Some? && f.prepTimeMax.value != 0 }

  /** The conjunction of the filters that are switched on. */
  predicate AdvancedMatches(r: Recipe, f: SearchFilters) {
    && (CuisineFilterOn(f) ==> CuisineMatches(r, f.cuisine.value))
    && (IngredientFilterOn(f) ==> IngredientMatches(r, f.ingredient.value))
    && (PrepFilterOn(f) ==> WithinBound(r.prepTime, f.prepTimeMax.value))
  }

  /** The filter steps of the advanced-search handler: cuisine, then ingredient, then prep time. */
  function AdvancedSteps(f: SearchFilters): seq<Criterion> {
    (if CuisineFilterOn(f) then [CuisineIs(f.cuisine.value)] else [])
    + (if IngredientFilterOn(f) then [HasIngredient(f.ingredient.value)] else [])
    + (if PrepFilterOn(f) then [PrepAtMost(f.prepTimeMax.value)] else [])
  }

  lemma AdvancedStepsMeaning(r: Recipe, f: SearchFilters)
    ensures MeetsAll(r, AdvancedSteps(f)) <==> AdvancedMatches(r, f)
  {
    var a := if CuisineFilterOn(f) then [CuisineIs(f.cuisine.value)] else [];
    var b := if IngredientFilterOn(f) then [HasIngredient(f.ingredient.value)] else [];
    var c := if PrepFilterOn(f) then [PrepAtMost(f.prepTimeMax.value)] else [];
    MeetsAllConcat(r, a + b, c);
    MeetsAllConcat(r, a, b);
    if CuisineFilterOn(f) { MeetsOne(r, CuisineIs(f.cuisine.value)); }
    if IngredientFilterOn(f) { MeetsOne(r, HasIngredient(f.ingredient.value)); }
    if PrepFilterOn(f) { MeetsOne(r, PrepAtMost(f.prepTimeMax.value)); }
  }

  /** `POST /api/recipes/advanced-search`. */
  function AdvancedSearch(store: Store, f: SearchFilters): (r: Reply<seq<Recipe>>)
    ensures r.NotFound? <==> forall i :: 0 <= i < |store| ==> !AdvancedMatches(store[i], f)
    ensures r.Found? ==> IsSubsequence(r.value, store)
    ensures r.Found? ==> forall i :: 0 <= i < |r.value| ==> AdvancedMatches(r.value[i], f)
    ensures r.Found? ==> forall i :: 0 <= i < |store| && AdvancedMatches(store[i], f) ==> store[i] in r.value
    ensures r.Found? ==> forall x :: multiset(r.value)[x] == (if AdvancedMatches(x, f) then multiset(store)[x] else 0)
    ensures !CuisineFilterOn(f) && !IngredientFilterOn(f) && !PrepFilterOn(f) ==> r == NonEmpty(store)
  {
    var r := Search(store, AdvancedSteps(f));
    forall x { AdvancedStepsMeaning(x, f); }
    SearchAs(store, AdvancedSteps(f), x => AdvancedMatches(x, f));
    r
  }

  /** With only a non-empty cuisine filter, the advanced search is the by-cuisine search. */
  lemma AdvancedCuisineOnly(store: Store, cuisine: string)
    requires cuisine != ""
    ensures AdvancedSearch(store, SearchFilters(Some(cuisine), None, None)) == SearchByCuisine(store, cuisine)
  {
    assert AdvancedSteps(SearchFilters(Some(cuisine), None, None)) == [CuisineIs(cuisine)];
  }

  /** A request body that sets no field uses the defaults, and then every recipe comes back. */
  lemma AdvancedDefaultsKeepAll(store: Store)
    ensures AdvancedSearch(store, NoFilters) == NonEmpty(store)
    ensures AdvancedSearch(store, NoFilters).Found? ==> AdvancedSearch(store, NoFilters).value == store
  {
  }

  /** A zero prep-time bound is no filter in the advanced search, while the by-time search
      with the same bound keeps only recipes with a negative prep time. */
  lemma AdvancedZeroPrepIsNoFilter(store: Store)
    ensures AdvancedSearch(store, SearchFilters(None, None, Some(0))) == NonEmpty(store)
    ensures var r := SearchByTime(store, Some(0), None);
      r.Found? ==> forall i :: 0 <= i < |r.value| ==> r.value[i].prepTime.value < 0
  {
  }

  // ---------------------------------------------------------------- stats

  /** The integer parts of `GET /api/stats`. */
  datatype Stats = Stats(totalRecipes: nat, cuisines: set<string>, totalUniqueIngredients: nat, prepTimeSum: int)

  /** Every ingredient of every recipe, in store order (the `extend` loop). */
  function AllIngredients(store: Store): (all: seq<string>)
    ensures forall i, k :: 0 <= i < |store| && 0 <= k < |store[i].ingredients| ==> store[i].ingredients[k] in all
    ensures forall x :: x in all ==> exists i :: 0 <= i < |store| && x in store[i].ingredients
    decreases |store|
  {
    if |store| == 0 then []
    else
      assert forall i :: 0 < i < |store| ==> store[i] == store[1..][i - 1];
      store[0].ingredients + AllIngredients(store[1..])
  }

  /** The distinct ingredient strings of the store, compared exactly (no case folding). */
  ghost function IngredientSet(store: Store): set<string> {
    set i, k | 0 <= i < |store| && 0 <= k < |store[i].ingredients| :: store[i].ingredients[k]
  }

  /** The distinct cuisine values, compared exactly (no case folding). */
  function Cuisines(store: Store): (cs: set<string>)
    ensures |cs| <= |store|
    decreases |store|
  {
    if |store| == 0 then {}
    else
      var rest := Cuisines(store[1..]);
      assert |{store[0].cuisine} + rest| <= 1 + |rest|;
      {store[0].cuisine} + rest
  }

  /** The cuisine set holds exactly the cuisines of the stored recipes. */
  lemma {:induction false} CuisinesAreStored(store: Store)
    ensures forall c :: c in Cuisines(store) <==> exists i :: 0 <= i < |store| && store[i].cuisine == c
    decreases |store|
  {
    if |store| > 0 {
      CuisinesAreStored(store[1..]);
      assert forall i :: 0 < i < |store| ==> store[i] == store[1..][i - 1];
      forall c | c in Cuisines(store) ensures exists i :: 0 <= i < |store| && store[i].cuisine == c {
        if c != store[0].cuisine {
          assert c in Cuisines(store[1..]);
          var i :| 0 <= i < |store[1..]| && store[1..][i].cuisine == c;
          assert store[i + 1].cuisine == c;
        }
      }
    }
  }

  /** Sum of the prep times, an unset time counting as 0. */
  function PrepTimeSum(store: Store): (total: int)
    ensures (forall i :: 0 <= i < |store| ==> store[i].prepTime.GetOr(0) >= 0) ==> total >= 0
    decreases |store|
  {
    if |store| == 0 then 0
    else
      assert forall i :: 0 < i < |store| ==> store[i] == store[1..][i - 1];
      store[0].prepTime.GetOr(0) + PrepTimeSum(store[1..])
  }

  /** Appending a recipe adds its prep time (0 when unset) to the sum. */
  lemma {:induction false} PrepTimeSumAppend(store: Store, r: Recipe)
    ensures PrepTimeSum(store + [r]) == PrepTimeSum(store) + r.prepTime.GetOr(0)
    decreases |store|
  {
    if |store| > 0 {
      assert (store + [r])[1..] == store[1..] + [r];
      PrepTimeSumAppend(store[1..], r);
    } else {
      assert (store + [r])[1..] == [];
    }
  }

  /** The integer parts of `GET /api/stats`. */
  function GetStats(store: Store): (st: Stats)
    ensures st.totalRecipes == |store|
    ensures forall c :: c in st.cuisines <==> exists i :: 0 <= i < |store| && store[i].cuisine == c
    ensures st.totalUniqueIngredients == |IngredientSet(store)|
    ensures st.totalUniqueIngredients <= |AllIngredients(store)|
  {
    var all := AllIngredients(store);
    ElementsBound(all);
    UniqueIngredientsCounted(store);
    CuisinesAreStored(store);
    Stats(|store|, Cuisines(store), |Elements(all)|, PrepTimeSum(store))
  }

  /** `set(all_ingredients)` is the set of ingredient strings appearing in some recipe. */
  lemma UniqueIngredientsCounted(store: Store)
    ensures Elements(AllIngredients(store)) == IngredientSet(store)
  {
    var all := AllIngredients(store);
    forall x | x in Elements(all) ensures x in IngredientSet(store) {
      var i :| 0 <= i < |store| && x in store[i].ingredients;
      var k :| 0 <= k < |store[i].ingredients| && store[i].ingredients[k] == x;
    }
    forall x | x in IngredientSet(store) ensures x in Elements(all) {
      var i, k :| 0 <= i < |store| && 0 <= k < |store[i].ingredients| && store[i].ingredients[k] == x;
      var j :| 0 <= j < |all| && all[j] == x;
    }
  }
}
