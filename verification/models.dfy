/**
 * The tables of the foodgram app (backend/foodgram/models.py) as values, the
 * constraints the schema declares as one consistency predicate, and the
 * __str__ methods.
 */
module Models {
  import opened Wrappers
  import opened Text

  type UserId = nat
  /** Ingredients and tags are identified by their position in their table. */
  type IngredientId = nat
  type TagId = nat
  type RecipeId = nat

  /** request.user: an account or Django's AnonymousUser. */
  datatype Requester = Anonymous | Authenticated(id: UserId)

  datatype Account = Account(
    username: string, email: string, firstName: string, lastName: string,
    avatar: Option<string>)

  datatype Ingredient = Ingredient(name: string, measurementUnit: string)

  datatype Tag = Tag(name: string, slug: string)

  datatype Recipe = Recipe(
    name: string, text: string, cookingTime: int, image: string,
    author: UserId, tags: set<TagId>)

  /** A row of the recipe/ingredient junction table with its quantity. */
  datatype IngredientAmount = IngredientAmount(recipe: RecipeId, ingredient: IngredientId, amount: int)

  /** The whole database at one moment. */
  datatype Db = Db(
    users: set<UserId>,
    ingredients: seq<Ingredient>,
    tags: seq<Tag>,
    recipes: map<RecipeId, Recipe>,
    nextRecipeId: nat,
    amounts: seq<IngredientAmount>,
    favorites: set<(UserId, RecipeId)>,
    carts: set<(UserId, RecipeId)>,
    subscriptions: set<(UserId, UserId)>)

  /** The rows of one recipe, in table order. */
  function RowsOf(amounts: seq<IngredientAmount>, recipe: RecipeId): seq<IngredientAmount> {
    if amounts == [] then []
    else (if amounts[0].recipe == recipe then [amounts[0]] else []) + RowsOf(amounts[1..], recipe)
  }

  /** The table with every row of one recipe deleted. */
  function WithoutRecipe(amounts: seq<IngredientAmount>, recipe: RecipeId): seq<IngredientAmount> {
    if amounts == [] then []
    else (if amounts[0].recipe != recipe then [amounts[0]] else []) + WithoutRecipe(amounts[1..], recipe)
  }

  /** UniqueConstraint(fields=['recipe', 'ingredient']). */
  ghost predicate UniqueAmountKeys(amounts: seq<IngredientAmount>) {
    forall i, j :: 0 <= i < j < |amounts| ==>
      (amounts[i].recipe, amounts[i].ingredient) != (amounts[j].recipe, amounts[j].ingredient)
  }

  ghost predicate UniqueIngredientNames(ingredients: seq<Ingredient>) {
    forall i, j :: 0 <= i < j < |ingredients| ==> ingredients[i].name != ingredients[j].name
  }

  ghost predicate UniqueTagNamesAndSlugs(tags: seq<Tag>) {
    forall i, j :: 0 <= i < j < |tags| ==> tags[i].name != tags[j].name && tags[i].slug != tags[j].slug
  }

  /** A recipe row: an id below the counter, a valid cooking time, a known author, known tags, ingredients. */
  ghost predicate RecipeOk(db: Db, id: RecipeId, minCookingTime: int)
    requires id in db.recipes
  {
    && id < db.nextRecipeId
    && db.recipes[id].cookingTime >= minCookingTime
    && db.recipes[id].cookingTime >= 0
    && db.recipes[id].author in db.users
    && db.recipes[id].tags != {}
    && (forall t :: t in db.recipes[id].tags ==> t < |db.tags|)
    && RowsOf(db.amounts, id) != []
  }

  /** A junction row: both foreign keys resolve and the amount is valid. */
  ghost predicate AmountOk(db: Db, a: IngredientAmount, minAmount: int) {
    && a.recipe in db.recipes
    && a.ingredient < |db.ingredients|
    && a.amount >= minAmount
    && a.amount >= 0
  }

  /** Favorites, carts and subscriptions reference existing rows. */
  ghost predicate RelationsOk(db: Db) {
    && (forall p :: p in db.favorites ==> p.0 in db.users && p.1 in db.recipes)
    && (forall p :: p in db.carts ==> p.0 in db.users && p.1 in db.recipes)
    && (forall p :: p in db.subscriptions ==> p.0 in db.users && p.1 in db.users)
  }

  /**
   * Every constraint of the schema: unique keys, the minimum validators on
   * amount and cooking_time (PositiveIntegerField also forbids negatives),
   * every foreign key pointing at an existing row (what CASCADE keeps true),
   * plus the shape the recipe serializer guarantees: at least one tag and one
   * ingredient row per recipe.
   */
  ghost predicate Consistent(db: Db, minAmount: int, minCookingTime: int) {
    && UniqueIngredientNames(db.ingredients)
    && UniqueTagNamesAndSlugs(db.tags)
    && (forall id :: id in db.recipes ==> RecipeOk(db, id, minCookingTime))
    && (forall i :: 0 <= i < |db.amounts| ==> AmountOk(db, db.amounts[i], minAmount))
    && UniqueAmountKeys(db.amounts)
    && RelationsOk(db)
  }

  /** name[:STR_LENGTH] */
  function Truncate(s: string, strLength: nat): string {
    if |s| <= strLength then s else s[..strLength]
  }

  function IngredientStr(ingredient: Ingredient, strLength: nat): (r: string)
    ensures |r| <= strLength && r <= ingredient.name
    ensures |ingredient.name| <= strLength ==> r == ingredient.name
    ensures |ingredient.name| > strLength ==> |r| == strLength
  {
    Truncate(ingredient.name, strLength)
  }

  function TagStr(tag: Tag, strLength: nat): (r: string)
    ensures |r| <= strLength && r <= tag.name
    ensures |r| == if |tag.name| < strLength then |tag.name| else strLength
  {
    Truncate(tag.name, strLength)
  }

  function RecipeStr(recipe: Recipe, strLength: nat): (r: string)
    ensures r <= recipe.name
    ensures |recipe.name| > strLength ==> |r| == strLength
    ensures |recipe.name| <= strLength ==> r == recipe.name
  {
    Truncate(recipe.name, strLength)
  }

  // ---- Facts about the junction-table helpers ----

  lemma {:induction false} RowsOfConcat(a: seq<IngredientAmount>, b: seq<IngredientAmount>, recipe: RecipeId)
    ensures RowsOf(a + b, recipe) == RowsOf(a, recipe) + RowsOf(b, recipe)
  {
    if a == [] {
      assert a + b == b;
    } else {
      var head := if a[0].recipe == recipe then [a[0]] else [];
      assert (a + b)[0] == a[0] && (a + b)[1..] == a[1..] + b;
      assert RowsOf(a + b, recipe) == head + RowsOf(a[1..] + b, recipe);
      RowsOfConcat(a[1..], b, recipe);
      assert head + (RowsOf(a[1..], recipe) + RowsOf(b, recipe)) == (head + RowsOf(a[1..], recipe)) + RowsOf(b, recipe);
    }
  }

  lemma {:induction false} WithoutRecipeConcat(a: seq<IngredientAmount>, b: seq<IngredientAmount>, recipe: RecipeId)
    ensures WithoutRecipe(a + b, recipe) == WithoutRecipe(a, recipe) + WithoutRecipe(b, recipe)
  {
    if a == [] {
      assert a + b == b;
    } else {
      assert (a + b)[1..] == a[1..] + b;
      WithoutRecipeConcat(a[1..], b, recipe);
    }
  }

  /** A row is among the rows of its recipe exactly when it is in the table. */
  lemma {:induction false} RowsOfMembers(amounts: seq<IngredientAmount>, recipe: RecipeId)
    ensures forall x :: x in RowsOf(amounts, recipe) <==> x in amounts && x.recipe == recipe
  {
    if amounts != [] {
      RowsOfMembers(amounts[1..], recipe);
      assert amounts == [amounts[0]] + amounts[1..];
    }
  }

  /** Deleting one recipe's rows keeps every other row, in order, and nothing of that recipe. */
  lemma {:induction false} WithoutRecipeRows(amounts: seq<IngredientAmount>, recipe: RecipeId, other: RecipeId)
    ensures RowsOf(WithoutRecipe(amounts, recipe), recipe) == []
    ensures other != recipe ==> RowsOf(WithoutRecipe(amounts, recipe), other) == RowsOf(amounts, other)
  {
    if amounts != [] {
      var head := if amounts[0].recipe != recipe then [amounts[0]] else [];
      WithoutRecipeRows(amounts[1..], recipe, other);
      RowsOfConcat(head, WithoutRecipe(amounts[1..], recipe), recipe);
      RowsOfConcat(head, WithoutRecipe(amounts[1..], recipe), other);
    }
  }

  /** The rows left after deleting a recipe's rows are exactly the rows of the other recipes. */
  lemma {:induction false} WithoutRecipeMembers(amounts: seq<IngredientAmount>, recipe: RecipeId)
    ensures forall x :: x in WithoutRecipe(amounts, recipe) <==> x in amounts && x.recipe != recipe
    ensures |WithoutRecipe(amounts, recipe)| <= |amounts|
  {
    if amounts != [] {
      WithoutRecipeMembers(amounts[1..], recipe);
      assert amounts == [amounts[0]] + amounts[1..];
    }
  }

  lemma UniqueAmountKeysTail(amounts: seq<IngredientAmount>)
    requires amounts != [] && UniqueAmountKeys(amounts)
    ensures UniqueAmountKeys(amounts[1..])
  {
    forall i, j | 0 <= i < j < |amounts[1..]|
      ensures (amounts[1..][i].recipe, amounts[1..][i].ingredient) != (amounts[1..][j].recipe, amounts[1..][j].ingredient)
    {
      assert amounts[1..][i] == amounts[i + 1] && amounts[1..][j] == amounts[j + 1];
    }
  }

  /** Deleting rows keeps the junction keys unique. */
  lemma {:induction false} WithoutRecipeUnique(amounts: seq<IngredientAmount>, recipe: RecipeId)
    requires UniqueAmountKeys(amounts)
    ensures UniqueAmountKeys(WithoutRecipe(amounts, recipe))
  {
    if amounts != [] {
      var rest := WithoutRecipe(amounts[1..], recipe);
      UniqueAmountKeysTail(amounts);
      WithoutRecipeUnique(amounts[1..], recipe);
      WithoutRecipeMembers(amounts[1..], recipe);
      if amounts[0].recipe != recipe {
        var r := [amounts[0]] + rest;
        forall i, j | 0 <= i < j < |r|
          ensures (r[i].recipe, r[i].ingredient) != (r[j].recipe, r[j].ingredient)
        {
          if i == 0 {
            assert r[j] == rest[j - 1];
            assert r[j] in amounts[1..];
            var k :| 0 <= k < |amounts[1..]| && amounts[1..][k] == r[j];
            assert amounts[k + 1] == r[j];
          } else {
            assert r[i] == rest[i - 1] && r[j] == rest[j - 1];
          }
        }
        assert WithoutRecipe(amounts, recipe) == r;
      } else {
        assert WithoutRecipe(amounts, recipe) == rest;
      }
    }
  }
}
