/** Recipe and ingredient list filters (backend/api/filters.py). */
module Filters {
  import opened Wrappers
  import opened Text
  import opened Models

  /** A query-parameter value: a bool, None, or any other value given by str(value). */
  datatype Param = BoolParam(b: bool) | NoneParam | OtherParam(text: string)

  const TrueWords: set<string> := {"1", "true", "t", "yes"}

  /** RecipeTagFilter._param_is_true */
  function ParamIsTrue(val: Param): (r: bool)
    ensures val.BoolParam? ==> r == val.b
    ensures val.NoneParam? ==> !r
    ensures val.OtherParam? ==> (r <==> (CaseVariant(val.text, "1") || CaseVariant(val.text, "true")
                                          || CaseVariant(val.text, "t") || CaseVariant(val.text, "yes")))
    ensures val.OtherParam? && r ==> 1 <= |val.text| <= 4
  {
    match val
    case BoolParam(b) => b
    case NoneParam => false
    case OtherParam(text) =>
      LowerIsCaseVariant(text, "1");
      LowerIsCaseVariant(text, "true");
      LowerIsCaseVariant(text, "t");
      LowerIsCaseVariant(text, "yes");
      Lower(text) in TrueWords
  }

  lemma {:induction false} LowerIdempotent(s: string)
    ensures Lower(Lower(s)) == Lower(s)
  {
    if s != [] {
      LowerIdempotent(s[1..]);
      assert Lower(s)[1..] == Lower(s[1..]);
    }
  }

  /** The textual test does not depend on letter case: "TRUE", "Yes", "T" count as true. */
  lemma ParamIsTrueIgnoresCase(s: string)
    ensures ParamIsTrue(OtherParam(s)) == ParamIsTrue(OtherParam(Lower(s)))
  {
    LowerIdempotent(s);
  }

  /** The recipes of the input that the given relation links to the user, in input order. */
  function KeepRelated(recipes: seq<RecipeId>, user: UserId, relation: set<(UserId, RecipeId)>): (r: seq<RecipeId>)
    ensures forall x :: x in r <==> x in recipes && (user, x) in relation
    ensures multiset(r) <= multiset(recipes)
  {
    if recipes == [] then []
    else
      assert recipes == [recipes[0]] + recipes[1..];
      (if (user, recipes[0]) in relation then [recipes[0]] else []) + KeepRelated(recipes[1..], user, relation)
  }

  /** filter_is_favorited */
  function FilterIsFavorited(db: Db, recipes: seq<RecipeId>, user: Requester, value: Param): (r: seq<RecipeId>)
    ensures !ParamIsTrue(value) ==> r == recipes
    ensures ParamIsTrue(value) && user.Anonymous? ==> r == []
    ensures ParamIsTrue(value) && user.Authenticated? ==>
      forall x :: x in r <==> x in recipes && (user.id, x) in db.favorites
    ensures multiset(r) <= multiset(recipes)
  {
    if ParamIsTrue(value) then
      if user.Authenticated? then KeepRelated(recipes, user.id, db.favorites) else []
    else recipes
  }

  /** filter_is_in_shopping_cart, as evidently intended: the same rule over the cart relation. */
  function FilterIsInShoppingCart(db: Db, recipes: seq<RecipeId>, user: Requester, value: Param): (r: seq<RecipeId>)
    ensures !ParamIsTrue(value) ==> r == recipes
    ensures ParamIsTrue(value) && user.Anonymous? ==> r == []
    ensures ParamIsTrue(value) && user.Authenticated? ==>
      forall x :: x in r <==> x in recipes && (user.id, x) in db.carts
    ensures multiset(r) <= multiset(recipes)
  {
    if ParamIsTrue(value) then
      if user.Authenticated? then KeepRelated(recipes, user.id, db.carts) else []
    else recipes
  }

  /**
   * The names a lookup on Recipes may start with: its own fields and the
   * reverse relations, which take their names from default_related_name
   * ('ingredient_amounts' and '%(class)ss', that is 'favorites' and 'shoppingcarts').
   */
  const RecipeLookupNames: set<string> := {
    "id", "name", "text", "cooking_time", "image", "author", "tags", "ingredients",
    "created_at", "ingredient_amounts", "favorites", "shoppingcarts"}

  datatype QueryError = FieldError(keyword: string)

  /** filter(<keyword>__user=user) on recipes: an unknown keyword is a FieldError. */
  function FilterByRelationLookup(keyword: string, recipes: seq<RecipeId>, user: UserId, relation: set<(UserId, RecipeId)>): Result<seq<RecipeId>, QueryError>
  {
    if keyword in RecipeLookupNames then Ok(KeepRelated(recipes, user, relation)) else Err(FieldError(keyword))
  }

  /** filter_is_in_shopping_cart as written: it looks the cart up under 'shoppingcart'. */
  function FilterIsInShoppingCartAsWritten(db: Db, recipes: seq<RecipeId>, user: Requester, value: Param): Result<seq<RecipeId>, QueryError>
  {
    if ParamIsTrue(value) then
      if user.Authenticated? then FilterByRelationLookup("shoppingcart", recipes, user.id, db.carts) else Ok([])
    else Ok(recipes)
  }

  /** For every signed-in user asking for ?is_in_shopping_cart=1 the written lookup fails. */
  lemma CartFilterAsWrittenFails(db: Db, recipes: seq<RecipeId>, user: UserId)
    ensures FilterIsInShoppingCartAsWritten(db, recipes, Authenticated(user), OtherParam("1")) == Err(FieldError("shoppingcart"))
    ensures FilterByRelationLookup("shoppingcarts", recipes, user, db.carts)
         == Ok(FilterIsInShoppingCart(db, recipes, Authenticated(user), OtherParam("1")))
  {
    assert Lower("1") == "1";
  }

  /** IngredientFilter: name__istartswith, skipped when the parameter is absent or empty. */
  function IngredientNameFilter(ingredients: seq<Ingredient>, name: Option<string>): (r: seq<Ingredient>)
    ensures name.None? || name == Some("") ==> r == ingredients
    ensures name.Some? ==> forall x :: x in r <==> x in ingredients && StartsWith(Lower(x.name), Lower(name.value))
    ensures multiset(r) <= multiset(ingredients)
  {
    match name
    case None => ingredients
    case Some(prefix) =>
      if prefix == "" then
        assert forall x: Ingredient :: StartsWith(Lower(x.name), Lower(prefix));
        ingredients
      else KeepPrefixed(ingredients, Lower(prefix))
  }

  function KeepPrefixed(ingredients: seq<Ingredient>, lowered: string): (r: seq<Ingredient>)
    ensures forall x :: x in r <==> x in ingredients && StartsWith(Lower(x.name), lowered)
    ensures multiset(r) <= multiset(ingredients)
  {
    if ingredients == [] then []
    else
      assert ingredients == [ingredients[0]] + ingredients[1..];
      (if StartsWith(Lower(ingredients[0].name), lowered) then [ingredients[0]] else [])
      + KeepPrefixed(ingredients[1..], lowered)
  }
}
