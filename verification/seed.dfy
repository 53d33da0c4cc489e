/** The catalog the service starts with, and facts about it. */
module Seed {
  import opened Wrappers
  import opened Text
  import opened Seqs
  import opened Models
  import opened Store

  const VegFriedRice := Recipe(
    Some(1), "Veg Fried Rice",
    ["rice", "vegetables", "soy sauce", "egg", "garlic"],
    "Heat oil in a wok, stir fry vegetables until cooked, add rice and soy sauce, mix well.",
    "Asian", Some(4), Some(15), Some(20))

  const PastaAlfredo := Recipe(
    Some(2), "Pasta Alfredo",
    ["pasta", "cream", "cheese", "butter", "garlic"],
    "Cook pasta, prepare sauce with cream and cheese, mix together and serve hot.",
    "Italian", Some(4), Some(10), Some(25))

  const ChickenTikkaMasala := Recipe(
    Some(3), "Chicken Tikka Masala",
    ["chicken", "yogurt", "tomato sauce", "cream", "spices"],
    "Marinate chicken in yogurt and spices, grill, then simmer in tomato cream sauce.",
    "Indian", Some(4), Some(30), Some(40))

  const CaesarSalad := Recipe(
    Some(4), "Caesar Salad",
    ["lettuce", "croutons", "parmesan cheese", "caesar dressing", "lemon"],
    "Toss lettuce with dressing, add croutons and parmesan cheese, serve fresh.",
    "American", Some(2), Some(10), Some(0))

  const TacosAlPastor := Recipe(
    Some(5), "Tacos Al Pastor",
    ["pork", "pineapple", "tortillas", "onion", "cilantro"],
    "Season and cook pork with pineapple, serve in tortillas with fresh cilantro and onion.",
    "Mexican", Some(4), Some(20), Some(30))

  /** The initial store. */
  const Catalog: Store := [VegFriedRice, PastaAlfredo, ChickenTikkaMasala, CaesarSalad, TacosAlPastor]

  /** Five entries with ids 1 to 5 in order, satisfying the store invariant. */
  lemma CatalogShape()
    ensures |Catalog| == 5
    ensures forall i :: 0 <= i < |Catalog| ==> Catalog[i].id == Some(i + 1)
    ensures Invariant(Catalog)
  {
  }

  /** Every seed entry meets the field constraints. */
  lemma CatalogValid()
    ensures forall i :: 0 <= i < |Catalog| ==> Valid(Catalog[i])
  {
  }

  /** The first create on the seed store assigns id 6. */
  lemma FirstCreateGetsSix(recipe: Recipe)
    ensures Create(Catalog, recipe).1.id == Some(6)
  {
    CatalogShape();
    var m := MaxId(Catalog);
    assert Catalog[4].id.value <= m;
    var i :| 0 <= i < |Catalog| && Catalog[i].id.value == m;
  }

  // ------------------------------------------------ five-entry stores, in general

  /** An entry, kept or dropped by a filter step. */
  function Hit(x: Recipe, c: Criterion): seq<Recipe> {
    if Meets(x, c) then [x] else []
  }

  lemma SelectCons(x: Recipe, s: Store, cr: Criterion)
    ensures Select([x] + s, cr) == Hit(x, cr) + Select(s, cr)
  {
    FilterCons(x, s, Test(cr));
  }

  lemma SelectOfTwo(d: Recipe, e: Recipe, cr: Criterion)
    ensures Select([d, e], cr) == Hit(d, cr) + Hit(e, cr)
  {
    SelectCons(e, [], cr);
    assert [e] == [e] + [];
    SelectCons(d, [e], cr);
    assert [d, e] == [d] + [e];
  }

  lemma SelectOfThree(c: Recipe, d: Recipe, e: Recipe, cr: Criterion)
    ensures Select([c, d, e], cr) == Hit(c, cr) + (Hit(d, cr) + Hit(e, cr))
  {
    SelectOfTwo(d, e, cr);
    SelectCons(c, [d, e], cr);
    assert [c, d, e] == [c] + [d, e];
  }

  lemma SelectOfFour(b: Recipe, c: Recipe, d: Recipe, e: Recipe, cr: Criterion)
    ensures Select([b, c, d, e], cr) == Hit(b, cr) + (Hit(c, cr) + (Hit(d, cr) + Hit(e, cr)))
  {
    SelectOfThree(c, d, e, cr);
    SelectCons(b, [c, d, e], cr);
    assert [b, c, d, e] == [b] + [c, d, e];
  }

  /** A single filter step over a five-entry store keeps the matching entries in order. */
  lemma SelectOfFive(a: Recipe, b: Recipe, c: Recipe, d: Recipe, e: Recipe, cr: Criterion)
    ensures Select([a, b, c, d, e], cr) == Hit(a, cr) + (Hit(b, cr) + (Hit(c, cr) + (Hit(d, cr) + Hit(e, cr))))
  {
    SelectOfFour(b, c, d, e, cr);
    SelectCons(a, [b, c, d, e], cr);
    assert [a, b, c, d, e] == [a] + [b, c, d, e];
  }

  /** A one-step search is the single filter step, NotFound when nothing is kept. */
  lemma SearchOneStep(store: Store, cr: Criterion)
    ensures Search(store, [cr]) == NonEmpty(Select(store, cr))
  {
    assert [cr][1..] == [];
    assert Narrow(store, [cr]) == Narrow(Select(store, cr), []);
  }

  /** A one-step search whose filter step keeps something finds exactly what it keeps. */
  lemma FoundSelected(store: Store, cr: Criterion, hits: seq<Recipe>)
    requires Select(store, cr) == hits && |hits| > 0
    ensures Search(store, [cr]) == Found(hits)
  {
    SearchOneStep(store, cr);
  }

  /** Over a five-entry store, a one-step search in which only the first entry meets the
      criterion finds exactly that entry. */
  lemma FoundFirstOfFive(a: Recipe, b: Recipe, c: Recipe, d: Recipe, e: Recipe, cr: Criterion)
    requires Meets(a, cr) && !Meets(b, cr) && !Meets(c, cr) && !Meets(d, cr) && !Meets(e, cr)
    ensures Search([a, b, c, d, e], [cr]) == Found([a])
  {
    SelectOfFive(a, b, c, d, e, cr);
    assert Hit(a, cr) == [a];
    assert Hit(b, cr) == [];
    assert Hit(c, cr) == [];
    assert Hit(d, cr) == [];
    assert Hit(e, cr) == [];
    assert Select([a, b, c, d, e], cr) == [a];
    FoundSelected([a, b, c, d, e], cr, [a]);
  }

  /** The same when exactly the first two entries meet it. */
  lemma FoundFirstTwoOfFive(a: Recipe, b: Recipe, c: Recipe, d: Recipe, e: Recipe, cr: Criterion)
    requires Meets(a, cr) && Meets(b, cr) && !Meets(c, cr) && !Meets(d, cr) && !Meets(e, cr)
    ensures Search([a, b, c, d, e], [cr]) == Found([a, b])
  {
    SelectOfFive(a, b, c, d, e, cr);
    assert Hit(a, cr) == [a];
    assert Hit(b, cr) == [b];
    assert Hit(c, cr) == [];
    assert Hit(d, cr) == [];
    assert Hit(e, cr) == [];
    assert Select([a, b, c, d, e], cr) == [a, b];
    FoundSelected([a, b, c, d, e], cr, [a, b]);
  }

  /** The same when exactly the second and third entries meet it. */
  lemma FoundSecondThirdOfFive(a: Recipe, b: Recipe, c: Recipe, d: Recipe, e: Recipe, cr: Criterion)
    requires !Meets(a, cr) && Meets(b, cr) && Meets(c, cr) && !Meets(d, cr) && !Meets(e, cr)
    ensures Search([a, b, c, d, e], [cr]) == Found([b, c])
  {
    SelectOfFive(a, b, c, d, e, cr);
    assert Hit(a, cr) == [];
    assert Hit(b, cr) == [b];
    assert Hit(c, cr) == [c];
    assert Hit(d, cr) == [];
    assert Hit(e, cr) == [];
    assert Select([a, b, c, d, e], cr) == [b, c];
    FoundSelected([a, b, c, d, e], cr, [b, c]);
  }

  lemma CuisinesCons(r: Recipe, s: Store)
    ensures Cuisines([r] + s) == {r.cuisine} + Cuisines(s)
  {
    assert ([r] + s)[1..] == s;
  }

  lemma CuisinesOfTwo(d: Recipe, e: Recipe)
    ensures Cuisines([d, e]) == {d.cuisine} + {e.cuisine}
  {
    CuisinesCons(e, []);
    assert [e] == [e] + [];
    CuisinesCons(d, [e]);
    assert [d, e] == [d] + [e];
  }

  lemma CuisinesOfThree(c: Recipe, d: Recipe, e: Recipe)
    ensures Cuisines([c, d, e]) == {c.cuisine} + ({d.cuisine} + {e.cuisine})
  {
    CuisinesOfTwo(d, e);
    CuisinesCons(c, [d, e]);
    assert [c, d, e] == [c] + [d, e];
  }

  lemma CuisinesOfFour(b: Recipe, c: Recipe, d: Recipe, e: Recipe)
    ensures Cuisines([b, c, d, e]) == {b.cuisine} + ({c.cuisine} + ({d.cuisine} + {e.cuisine}))
  {
    CuisinesOfThree(c, d, e);
    CuisinesCons(b, [c, d, e]);
    assert [b, c, d, e] == [b] + [c, d, e];
  }

  lemma CuisinesOfFive(a: Recipe, b: Recipe, c: Recipe, d: Recipe, e: Recipe)
    ensures Cuisines([a, b, c, d, e]) == {a.cuisine} + ({b.cuisine} + ({c.cuisine} + ({d.cuisine} + {e.cuisine})))
  {
    CuisinesOfFour(b, c, d, e);
    CuisinesCons(a, [b, c, d, e]);
    assert [a, b, c, d, e] == [a] + [b, c, d, e];
  }

  lemma AllIngredientsCons(r: Recipe, s: Store)
    ensures AllIngredients([r] + s) == r.ingredients + AllIngredients(s)
  {
    assert ([r] + s)[1..] == s;
  }

  lemma AllIngredientsOfTwo(d: Recipe, e: Recipe)
    ensures AllIngredients([d, e]) == d.ingredients + e.ingredients
  {
    AllIngredientsCons(e, []);
    assert [e] == [e] + [];
    AllIngredientsCons(d, [e]);
    assert [d, e] == [d] + [e];
  }

  lemma AllIngredientsOfThree(c: Recipe, d: Recipe, e: Recipe)
    ensures AllIngredients([c, d, e]) == c.ingredients + (d.ingredients + e.ingredients)
  {
    AllIngredientsOfTwo(d, e);
    AllIngredientsCons(c, [d, e]);
    assert [c, d, e] == [c] + [d, e];
  }

  lemma AllIngredientsOfFour(b: Recipe, c: Recipe, d: Recipe, e: Recipe)
    ensures AllIngredients([b, c, d, e]) == b.ingredients + (c.ingredients + (d.ingredients + e.ingredients))
  {
    AllIngredientsOfThree(c, d, e);
    AllIngredientsCons(b, [c, d, e]);
    assert [b, c, d, e] == [b] + [c, d, e];
  }

  lemma AllIngredientsOfFive(a: Recipe, b: Recipe, c: Recipe, d: Recipe, e: Recipe)
    ensures AllIngredients([a, b, c, d, e])
            == a.ingredients + (b.ingredients + (c.ingredients + (d.ingredients + e.ingredients)))
  {
    AllIngredientsOfFour(b, c, d, e);
    AllIngredientsCons(a, [b, c, d, e]);
    assert [a, b, c, d, e] == [a] + [b, c, d, e];
  }

  // ------------------------------------------------ facts about the seed

  const SeedCuisines: set<string> := {"Asian", "Italian", "Indian", "American", "Mexican"}

  lemma SeedCuisinesNested()
    ensures {"Asian"} + ({"Italian"} + ({"Indian"} + ({"American"} + {"Mexican"}))) == SeedCuisines
  {
  }

  lemma CatalogCuisines()
    ensures Cuisines(Catalog) == SeedCuisines
  {
    CuisinesOfFive(VegFriedRice, PastaAlfredo, ChickenTikkaMasala, CaesarSalad, TacosAlPastor);
    SeedCuisinesNested();
  }

  lemma SeedCuisinesCount()
    ensures |SeedCuisines| == 5
  {
  }

  lemma CatalogTotal()
    ensures GetStats(Catalog).totalRecipes == 5
  {
  }

  /** Five recipes and five distinct cuisines in the statistics. */
  lemma CatalogStats()
    ensures GetStats(Catalog).totalRecipes == 5
    ensures GetStats(Catalog).cuisines == SeedCuisines
    ensures |SeedCuisines| == 5
  {
    CatalogTotal();
    CatalogCuisines();
    SeedCuisinesCount();
  }

  lemma PrepTimeSumCons(r: Recipe, s: Store)
    ensures PrepTimeSum([r] + s) == r.prepTime.GetOr(0) + PrepTimeSum(s)
  {
    assert ([r] + s)[1..] == s;
  }

  function PrepOf(r: Recipe): int {
    r.prepTime.GetOr(0)
  }

  lemma PrepTimeSumOfTwo(d: Recipe, e: Recipe)
    ensures PrepTimeSum([d, e]) == PrepOf(d) + PrepOf(e)
  {
    PrepTimeSumCons(e, []);
    assert [e] == [e] + [];
    PrepTimeSumCons(d, [e]);
    assert [d, e] == [d] + [e];
  }

  lemma PrepTimeSumOfThree(c: Recipe, d: Recipe, e: Recipe)
    ensures PrepTimeSum([c, d, e]) == PrepOf(c) + (PrepOf(d) + PrepOf(e))
  {
    PrepTimeSumOfTwo(d, e);
    PrepTimeSumCons(c, [d, e]);
    assert [c, d, e] == [c] + [d, e];
  }

  lemma PrepTimeSumOfFour(b: Recipe, c: Recipe, d: Recipe, e: Recipe)
    ensures PrepTimeSum([b, c, d, e]) == PrepOf(b) + (PrepOf(c) + (PrepOf(d) + PrepOf(e)))
  {
    PrepTimeSumOfThree(c, d, e);
    PrepTimeSumCons(b, [c, d, e]);
    assert [b, c, d, e] == [b] + [c, d, e];
  }

  lemma PrepTimeSumOfFive(a: Recipe, b: Recipe, c: Recipe, d: Recipe, e: Recipe)
    ensures PrepTimeSum([a, b, c, d, e]) == PrepOf(a) + (PrepOf(b) + (PrepOf(c) + (PrepOf(d) + PrepOf(e))))
  {
    PrepTimeSumOfFour(b, c, d, e);
    PrepTimeSumCons(a, [b, c, d, e]);
    assert [a, b, c, d, e] == [a] + [b, c, d, e];
  }

  /** The prep times of the seed add up to 85 minutes (an average of 17 over five recipes). */
  lemma CatalogPrepTimeSum()
    ensures GetStats(Catalog).prepTimeSum == 85
  {
    PrepTimeSumOfFive(VegFriedRice, PastaAlfredo, ChickenTikkaMasala, CaesarSalad, TacosAlPastor);
  }

  // ------------------------------------------------ ruling out an ingredient match

  /** A lower-case letter of the query that an ingredient holds in neither case. */
  predicate Lacks(ingredient: string, q: string, c: char) {
    'a' <= c <= 'z' && c in q && c !in ingredient && (c as int - 32) as char !in ingredient
  }

  /** Why an ingredient cannot contain the query: it lacks one of the query's letters, or, split
      at `m`, the part an occurrence starting before `m` could reach lacks one letter and the
      part from `m` on lacks another. */
  datatype Witness = Missing(c: char) | SplitAt(m: nat, left: char, right: char)

  predicate Excludes(ingredient: string, q: string, w: Witness) {
    match w
    case Missing(c) => Lacks(ingredient, q, c)
    case SplitAt(m, cl, cr) =>
      1 <= |q| && m <= |ingredient| &&
      Lacks(ingredient[..if m + |q| - 1 <= |ingredient| then m + |q| - 1 else |ingredient|], q, cl) &&
      Lacks(ingredient[m..], q, cr)
  }

  lemma ExcludesMeansAbsent(ingredient: string, q: string, w: Witness)
    requires Excludes(ingredient, q, w)
    ensures !Contains(Lower(ingredient), Lower(q))
  {
    match w
    case Missing(c) =>
      LowerNotContainsMissingChar(ingredient, q, c);
    case SplitAt(m, cl, cr) =>
      var end := if m + |q| - 1 <= |ingredient| then m + |q| - 1 else |ingredient|;
      ContainsSplit(Lower(ingredient), Lower(q), m);
      assert Lower(ingredient)[..end] == Lower(ingredient[..end]);
      assert Lower(ingredient)[m..] == Lower(ingredient[m..]);
      LowerNotContainsMissingChar(ingredient[..end], q, cl);
      LowerNotContainsMissingChar(ingredient[m..], q, cr);
  }

  /** A five-ingredient recipe each of whose ingredients is excluded by a witness does not
      match the query. */
  lemma NoMatchAmongFive(r: Recipe, q: string, a: string, b: string, c: string, d: string, e: string,
                         wa: Witness, wb: Witness, wc: Witness, wd: Witness, we: Witness)
    requires r.ingredients == [a, b, c, d, e]
    requires Excludes(a, q, wa) && Excludes(b, q, wb) && Excludes(c, q, wc)
    requires Excludes(d, q, wd) && Excludes(e, q, we)
    ensures !IngredientMatches(r, q)
  {
    ExcludesMeansAbsent(a, q, wa);
    ExcludesMeansAbsent(b, q, wb);
    ExcludesMeansAbsent(c, q, wc);
    ExcludesMeansAbsent(d, q, wd);
    ExcludesMeansAbsent(e, q, we);
  }

  // ------------------------------------------------ ingredient search on the seed

  lemma PastaAlfredoExcludesRice()
    ensures Excludes("pasta", "rice", Missing('r')) && Excludes("cream", "rice", Missing('i'))
    ensures Excludes("cheese", "rice", Missing('r')) && Excludes("butter", "rice", Missing('i'))
    ensures Excludes("garlic", "rice", Missing('e'))
  {
  }

  lemma NoRiceInPastaAlfredo()
    ensures !IngredientMatches(PastaAlfredo, "rice")
  {
    PastaAlfredoExcludesRice();
    NoMatchAmongFive(PastaAlfredo, "rice", "pasta", "cream", "cheese", "butter", "garlic",
      Missing('r'), Missing('i'), Missing('r'), Missing('i'), Missing('e'));
  }

  lemma ChickenTikkaMasalaExcludesRice()
    ensures Excludes("chicken", "rice", Missing('r')) && Excludes("yogurt", "rice", Missing('i'))
    ensures Excludes("tomato sauce", "rice", Missing('r')) && Excludes("cream", "rice", Missing('i'))
    ensures Excludes("spices", "rice", Missing('r'))
  {
  }

  lemma NoRiceInChickenTikkaMasala()
    ensures !IngredientMatches(ChickenTikkaMasala, "rice")
  {
    ChickenTikkaMasalaExcludesRice();
    NoMatchAmongFive(ChickenTikkaMasala, "rice", "chicken", "yogurt", "tomato sauce", "cream", "spices",
      Missing('r'), Missing('i'), Missing('r'), Missing('i'), Missing('r'));
  }

  lemma CaesarSaladExcludesRice()
    ensures Excludes("lettuce", "rice", Missing('r')) && Excludes("croutons", "rice", Missing('i'))
    ensures Excludes("parmesan cheese", "rice", Missing('i')) && Excludes("lemon", "rice", Missing('r'))
  {
  }

  lemma CaesarDressingExcludesRice()
    ensures Excludes("caesar dressing", "rice", SplitAt(7, 'i', 'c'))
  {
    assert "caesar dressing"[..10] == "caesar dre";
    assert "caesar dressing"[7..] == "dressing";
  }

  lemma NoRiceInCaesarSalad()
    ensures !IngredientMatches(CaesarSalad, "rice")
  {
    CaesarSaladExcludesRice();
    CaesarDressingExcludesRice();
    NoMatchAmongFive(CaesarSalad, "rice", "lettuce", "croutons", "parmesan cheese", "caesar dressing", "lemon",
      Missing('r'), Missing('i'), Missing('i'), SplitAt(7, 'i', 'c'), Missing('r'));
  }

  lemma TacosAlPastorExcludesRice()
    ensures Excludes("pork", "rice", Missing('i')) && Excludes("pineapple", "rice", Missing('r'))
    ensures Excludes("tortillas", "rice", Missing('c')) && Excludes("onion", "rice", Missing('r'))
    ensures Excludes("cilantro", "rice", Missing('e'))
  {
  }

  lemma NoRiceInTacosAlPastor()
    ensures !IngredientMatches(TacosAlPastor, "rice")
  {
    TacosAlPastorExcludesRice();
    NoMatchAmongFive(TacosAlPastor, "rice", "pork", "pineapple", "tortillas", "onion", "cilantro",
      Missing('i'), Missing('r'), Missing('c'), Missing('r'), Missing('e'));
  }

  /** Searching the seed for "rice" finds VegFriedRice. */
  lemma SeedRiceSearch()
    ensures SearchByIngredient(Catalog, "rice") == Found([VegFriedRice])
  {
    var cr := HasIngredient("rice");
    ListedIngredientMatches(VegFriedRice, "rice");
    NoRiceInPastaAlfredo();
    NoRiceInChickenTikkaMasala();
    NoRiceInCaesarSalad();
    NoRiceInTacosAlPastor();
    FoundFirstOfFive(VegFriedRice, PastaAlfredo, ChickenTikkaMasala, CaesarSalad, TacosAlPastor, cr);
  }

  lemma ChickenTikkaMasalaExcludesGarlic()
    ensures Excludes("chicken", "garlic", Missing('g')) && Excludes("yogurt", "garlic", Missing('a'))
    ensures Excludes("tomato sauce", "garlic", Missing('g')) && Excludes("cream", "garlic", Missing('g'))
    ensures Excludes("spices", "garlic", Missing('g'))
  {
  }

  lemma NoGarlicInChickenTikkaMasala()
    ensures !IngredientMatches(ChickenTikkaMasala, "garlic")
  {
    ChickenTikkaMasalaExcludesGarlic();
    NoMatchAmongFive(ChickenTikkaMasala, "garlic", "chicken", "yogurt", "tomato sauce", "cream", "spices",
      Missing('g'), Missing('a'), Missing('g'), Missing('g'), Missing('g'));
  }

  lemma CaesarSaladExcludesGarlic()
    ensures Excludes("lettuce", "garlic", Missing('g')) && Excludes("croutons", "garlic", Missing('g'))
    ensures Excludes("parmesan cheese", "garlic", Missing('g')) && Excludes("caesar dressing", "garlic", Missing('l'))
    ensures Excludes("lemon", "garlic", Missing('g'))
  {
  }

  lemma NoGarlicInCaesarSalad()
    ensures !IngredientMatches(CaesarSalad, "garlic")
  {
    CaesarSaladExcludesGarlic();
    NoMatchAmongFive(CaesarSalad, "garlic", "lettuce", "croutons", "parmesan cheese", "caesar dressing", "lemon",
      Missing('g'), Missing('g'), Missing('g'), Missing('l'), Missing('g'));
  }

  lemma TacosAlPastorExcludesGarlic()
    ensures Excludes("pork", "garlic", Missing('g')) && Excludes("pineapple", "garlic", Missing('g'))
    ensures Excludes("tortillas", "garlic", Missing('g')) && Excludes("onion", "garlic", Missing('g'))
    ensures Excludes("cilantro", "garlic", Missing('g'))
  {
  }

  lemma NoGarlicInTacosAlPastor()
    ensures !IngredientMatches(TacosAlPastor, "garlic")
  {
    TacosAlPastorExcludesGarlic();
    NoMatchAmongFive(TacosAlPastor, "garlic", "pork", "pineapple", "tortillas", "onion", "cilantro",
      Missing('g'), Missing('g'), Missing('g'), Missing('g'), Missing('g'));
  }

  /** Searching the seed for "garlic" finds VegFriedRice and PastaAlfredo. */
  lemma SeedGarlicSearch()
    ensures SearchByIngredient(Catalog, "garlic") == Found([VegFriedRice, PastaAlfredo])
  {
    var cr := HasIngredient("garlic");
    ListedIngredientMatches(VegFriedRice, "garlic");
    ListedIngredientMatches(PastaAlfredo, "garlic");
    NoGarlicInChickenTikkaMasala();
    NoGarlicInCaesarSalad();
    NoGarlicInTacosAlPastor();
    FoundFirstTwoOfFive(VegFriedRice, PastaAlfredo, ChickenTikkaMasala, CaesarSalad, TacosAlPastor, cr);
  }

  lemma VegFriedRiceExcludesCream()
    ensures Excludes("rice", "cream", Missing('a')) && Excludes("vegetables", "cream", Missing('c'))
    ensures Excludes("soy sauce", "cream", Missing('r')) && Excludes("egg", "cream", Missing('c'))
    ensures Excludes("garlic", "cream", Missing('e'))
  {
  }

  lemma NoCreamInVegFriedRice()
    ensures !IngredientMatches(VegFriedRice, "cream")
  {
    VegFriedRiceExcludesCream();
    NoMatchAmongFive(VegFriedRice, "cream", "rice", "vegetables", "soy sauce", "egg", "garlic",
      Missing('a'), Missing('c'), Missing('r'), Missing('c'), Missing('e'));
  }

  lemma CaesarSaladExcludesCream()
    ensures Excludes("lettuce", "cream", Missing('r')) && Excludes("croutons", "cream", Missing('e'))
    ensures Excludes("caesar dressing", "cream", Missing('m')) && Excludes("lemon", "cream", Missing('c'))
  {
  }

  lemma ParmesanCheeseExcludesCream()
    ensures Excludes("parmesan cheese", "cream", SplitAt(5, 'c', 'r'))
  {
    assert "parmesan cheese"[..9] == "parmesan ";
    assert "parmesan cheese"[5..] == "san cheese";
  }

  lemma NoCreamInCaesarSalad()
    ensures !IngredientMatches(CaesarSalad, "cream")
  {
    CaesarSaladExcludesCream();
    ParmesanCheeseExcludesCream();
    NoMatchAmongFive(CaesarSalad, "cream", "lettuce", "croutons", "parmesan cheese", "caesar dressing", "lemon",
      Missing('r'), Missing('e'), SplitAt(5, 'c', 'r'), Missing('m'), Missing('c'));
  }

  lemma TacosAlPastorExcludesCream()
    ensures Excludes("pork", "cream", Missing('c')) && Excludes("pineapple", "cream", Missing('c'))
    ensures Excludes("tortillas", "cream", Missing('c')) && Excludes("onion", "cream", Missing('c'))
    ensures Excludes("cilantro", "cream", Missing('e'))
  {
  }

  lemma NoCreamInTacosAlPastor()
    ensures !IngredientMatches(TacosAlPastor, "cream")
  {
    TacosAlPastorExcludesCream();
    NoMatchAmongFive(TacosAlPastor, "cream", "pork", "pineapple", "tortillas", "onion", "cilantro",
      Missing('c'), Missing('c'), Missing('c'), Missing('c'), Missing('e'));
  }

  /** Searching the seed for "cream" finds PastaAlfredo and ChickenTikkaMasala. */
  lemma SeedCreamSearch()
    ensures SearchByIngredient(Catalog, "cream") == Found([PastaAlfredo, ChickenTikkaMasala])
  {
    var cr := HasIngredient("cream");
    NoCreamInVegFriedRice();
    ListedIngredientMatches(PastaAlfredo, "cream");
    ListedIngredientMatches(ChickenTikkaMasala, "cream");
    NoCreamInCaesarSalad();
    NoCreamInTacosAlPastor();
    FoundSecondThirdOfFive(VegFriedRice, PastaAlfredo, ChickenTikkaMasala, CaesarSalad, TacosAlPastor, cr);
  }

  // ------------------------------------------------ cuisine and time search on the seed

  /** Searching the seed for the cuisine "Asian" finds the fried rice alone. */
  lemma SeedAsianSearch()
    ensures SearchByCuisine(Catalog, "Asian") == Found([VegFriedRice])
  {
    FoundFirstOfFive(VegFriedRice, PastaAlfredo, ChickenTikkaMasala, CaesarSalad, TacosAlPastor, CuisineIs("Asian"));
  }

  /** So does the lower-case query. */
  lemma SeedLowerAsianSearch()
    ensures SearchByCuisine(Catalog, "asian") == Found([VegFriedRice])
  {
    assert Lower("asian") == Lower("Asian");
    CuisineSearchIgnoresCase(Catalog, "Asian", "asian");
    SeedAsianSearch();
  }

  /** A cook-time bound of 25 minutes finds the fried rice and the pasta, but not the salad,
      whose cook time of 0 counts as unset. */
  lemma SeedCookSearch()
    ensures SearchByTime(Catalog, None, Some(25)) == Found([VegFriedRice, PastaAlfredo])
  {
    assert TimeSteps(None, Some(25)) == [CookAtMost(25)];
    FoundFirstTwoOfFive(VegFriedRice, PastaAlfredo, ChickenTikkaMasala, CaesarSalad, TacosAlPastor, CookAtMost(25));
  }

  /** No cook-time bound ever returns the salad. */
  lemma CaesarSaladNeverFoundByCook(maxPrep: Option<int>, bound: int)
    ensures var r := SearchByTime(Catalog, maxPrep, Some(bound));
            r.Found? ==> CaesarSalad !in r.value
  {
  }

  // ------------------------------------------------ distinct ingredients of the seed

  /** The distinct ingredients of a five-entry store are the union of each entry's. */
  lemma IngredientSetOfFive(a: Recipe, b: Recipe, c: Recipe, d: Recipe, e: Recipe)
    ensures IngredientSet([a, b, c, d, e])
            == Elements(a.ingredients) + (Elements(b.ingredients) + (Elements(c.ingredients)
               + (Elements(d.ingredients) + Elements(e.ingredients))))
  {
    AllIngredientsOfFive(a, b, c, d, e);
    UniqueIngredientsCounted([a, b, c, d, e]);
    ElementsConcat(d.ingredients, e.ingredients);
    ElementsConcat(c.ingredients, d.ingredients + e.ingredients);
    ElementsConcat(b.ingredients, c.ingredients + (d.ingredients + e.ingredients));
    ElementsConcat(a.ingredients, b.ingredients + (c.ingredients + (d.ingredients + e.ingredients)));
  }

  lemma VegFriedRiceIngredientSet()
    ensures Elements(VegFriedRice.ingredients) == {"rice", "vegetables", "soy sauce", "egg", "garlic"}
  {
  }

  lemma PastaAlfredoIngredientSet()
    ensures Elements(PastaAlfredo.ingredients) == {"pasta", "cream", "cheese", "butter", "garlic"}
  {
  }

  lemma ChickenTikkaMasalaIngredientSet()
    ensures Elements(ChickenTikkaMasala.ingredients) == {"chicken", "yogurt", "tomato sauce", "cream", "spices"}
  {
  }

  lemma CaesarSaladIngredientSet()
    ensures Elements(CaesarSalad.ingredients) == {"lettuce", "croutons", "parmesan cheese", "caesar dressing", "lemon"}
  {
  }

  lemma TacosAlPastorIngredientSet()
    ensures Elements(TacosAlPastor.ingredients) == {"pork", "pineapple", "tortillas", "onion", "cilantro"}
  {
  }

  /** The distinct seed ingredients, split by length: at most six characters, and more. */
  const ShortIngredients: set<string> := {"egg", "rice", "pork", "pasta", "cream", "lemon", "onion",
    "cheese", "butter", "garlic", "yogurt", "spices"}
  const LongIngredients: set<string> := {"chicken", "lettuce", "croutons", "cilantro", "soy sauce",
    "pineapple", "tortillas", "vegetables", "tomato sauce", "parmesan cheese", "caesar dressing"}

  /** "garlic" and "cream" are shared, so the five recipes' sets merge into the two groups. */
  lemma SeedIngredientUnion()
    ensures {"rice", "vegetables", "soy sauce", "egg", "garlic"} + ({"pasta", "cream", "cheese", "butter", "garlic"}
            + ({"chicken", "yogurt", "tomato sauce", "cream", "spices"}
            + ({"lettuce", "croutons", "parmesan cheese", "caesar dressing", "lemon"}
            + {"pork", "pineapple", "tortillas", "onion", "cilantro"})))
            == ShortIngredients + LongIngredients
  {
  }

  lemma ShortIngredientsCount()
    ensures |ShortIngredients| == 12
  {
  }

  lemma LongIngredientsCount()
    ensures |LongIngredients| == 11
  {
  }

  lemma IngredientGroupsDisjoint()
    ensures ShortIngredients * LongIngredients == {}
  {
    forall x | x in ShortIngredients ensures |x| <= 6 {}
    forall x | x in LongIngredients ensures |x| >= 7 {}
  }

  /** The seed lists 25 ingredients, of which 23 are distinct. */
  lemma CatalogUniqueIngredients()
    ensures IngredientSet(Catalog) == ShortIngredients + LongIngredients
    ensures GetStats(Catalog).totalUniqueIngredients == 23
    ensures |AllIngredients(Catalog)| == 25
  {
    IngredientSetOfFive(VegFriedRice, PastaAlfredo, ChickenTikkaMasala, CaesarSalad, TacosAlPastor);
    AllIngredientsOfFive(VegFriedRice, PastaAlfredo, ChickenTikkaMasala, CaesarSalad, TacosAlPastor);
    VegFriedRiceIngredientSet();
    PastaAlfredoIngredientSet();
    ChickenTikkaMasalaIngredientSet();
    CaesarSaladIngredientSet();
    TacosAlPastorIngredientSet();
    SeedIngredientUnion();
    ShortIngredientsCount();
    LongIngredientsCount();
    IngredientGroupsDisjoint();
  }
}
