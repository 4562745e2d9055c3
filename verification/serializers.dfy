/**
 * RecipeCreateUpdateSerializer (backend/api/serializers.py): the field
 * checks DRF runs first, the composition checks of validate() in their fixed
 * order, and the junction rows create_ingredients writes.
 */
module Serializers {
  import opened Wrappers
  import opened Models
  import opened ImageValidators

  /** items.count(x) */
  function Count<T(==)>(items: seq<T>, x: T): nat {
    if items == [] then 0 else (if items[0] == x then 1 else 0) + Count(items[1..], x)
  }

  ghost predicate Distinct<T>(items: seq<T>) {
    forall i, j :: 0 <= i < j < |items| ==> items[i] != items[j]
  }

  /** _get_duplicates: the items that occur more than once, each once. */
  function Duplicates<T(==,!new)>(items: seq<T>): (r: set<T>)
    ensures forall x :: x in r <==> x in items && Count(items, x) > 1
  {
    set x | x in items && Count(items, x) > 1
  }

  lemma {:induction false} CountAbsent<T>(items: seq<T>, x: T)
    requires x !in items
    ensures Count(items, x) == 0
  {
    if items != [] {
      assert items == [items[0]] + items[1..];
      CountAbsent(items[1..], x);
    }
  }

  lemma {:induction false} CountPresent<T>(items: seq<T>, x: T)
    requires x in items
    ensures Count(items, x) >= 1
  {
    if items[0] != x {
      assert x in items[1..];
      CountPresent(items[1..], x);
    }
  }

  lemma {:induction false} CountDistinct<T>(items: seq<T>, x: T)
    requires Distinct(items)
    ensures Count(items, x) <= 1
  {
    if items != [] {
      assert Distinct(items[1..]) by {
        forall i, j | 0 <= i < j < |items[1..]| ensures items[1..][i] != items[1..][j] {
          assert items[1..][i] == items[i + 1] && items[1..][j] == items[j + 1];
        }
      }
      CountDistinct(items[1..], x);
      if items[0] == x {
        assert x !in items[1..] by {
          forall k | 0 <= k < |items[1..]| ensures items[1..][k] != x {
            assert items[1..][k] == items[k + 1];
          }
        }
        CountAbsent(items[1..], x);
      }
    }
  }

  lemma {:induction false} CountRepeated<T>(items: seq<T>, i: nat, j: nat)
    requires i < j < |items| && items[i] == items[j]
    ensures Count(items, items[i]) >= 2
  {
    if i == 0 {
      assert items[1..][j - 1] == items[j];
      CountPresent(items[1..], items[j]);
    } else {
      assert items[1..][i - 1] == items[i] && items[1..][j - 1] == items[j];
      CountRepeated(items[1..], i - 1, j - 1);
    }
  }

  /** _get_duplicates finds nothing exactly when no item is repeated. */
  lemma NoDuplicatesIffDistinct<T(!new)>(items: seq<T>)
    ensures Duplicates(items) == {} <==> Distinct(items)
  {
    if Distinct(items) {
      forall x | x in items ensures Count(items, x) <= 1 {
        CountDistinct(items, x);
      }
    } else {
      var i, j :| 0 <= i < j < |items| && items[i] == items[j];
      CountRepeated(items, i, j);
      assert items[i] in Duplicates(items);
    }
  }

  /** One entry of the ingredients payload, after AddIngredientSerializer. */
  datatype IngredientItem = IngredientItem(ingredient: IngredientId, amount: int)

  /** The request body; None is a field the body leaves out. */
  datatype RecipeInput = RecipeInput(
    name: Option<string>,
    text: Option<string>,
    cookingTime: Option<int>,
    image: Option<string>,
    tags: Option<seq<TagId>>,
    ingredients: Option<seq<IngredientItem>>)

  datatype Field = NameField | TextField | CookingTimeField | ImageField | TagsField | IngredientsField

  datatype ValidationError =
    | FieldErrors(fields: set<Field>)
    | NoTags
    | RepeatedTags(tags: set<TagId>)
    | NoIngredients
    | RepeatedIngredients(ingredients: set<IngredientId>)

  function IngredientIds(items: seq<IngredientItem>): (ids: seq<IngredientId>)
    ensures |ids| == |items| && forall i :: 0 <= i < |items| ==> ids[i] == items[i].ingredient
  {
    if items == [] then [] else [items[0].ingredient] + IngredientIds(items[1..])
  }

  /** An ingredient entry passes AddIngredientSerializer: a known id and amount >= MIN_AMOUNT. */
  predicate ItemValid(item: IngredientItem, ingredientCount: nat, minAmount: int) {
    item.ingredient < ingredientCount && item.amount >= minAmount
  }

  /** The image after Base64ImageField: an empty payload becomes None, then validate_image runs. */
  predicate ImageInvalid(image: string) {
    ValidateImage(if image == "" then None else Some(image)).Err?
  }

  /** A field required by a full update (or a create) that the body leaves out, or a bad value. */
  function FieldErrorsOf(data: RecipeInput, partial: bool, tagCount: nat, ingredientCount: nat,
                         minAmount: int, minCookingTime: int): (errs: set<Field>)
    ensures NameField in errs <==> data.name.None? && !partial
    ensures TextField in errs <==> data.text.None? && !partial
    ensures CookingTimeField in errs <==>
      (data.cookingTime.None? && !partial) || (data.cookingTime.Some? && data.cookingTime.value < minCookingTime)
    ensures ImageField in errs <==> (data.image.None? && !partial) || (data.image == Some(""))
    ensures TagsField in errs <==>
      (data.tags.None? && !partial) || (data.tags.Some? && exists t :: t in data.tags.value && t >= tagCount)
    ensures IngredientsField in errs <==>
      (data.ingredients.None? && !partial)
      || (data.ingredients.Some? && exists item :: item in data.ingredients.value && !ItemValid(item, ingredientCount, minAmount))
  {
    (if data.name.None? && !partial then {NameField} else {})
    + (if data.text.None? && !partial then {TextField} else {})
    + (match data.cookingTime
       case None => if partial then {} else {CookingTimeField}
       case Some(t) => if t < minCookingTime then {CookingTimeField} else {})
    + (match data.image
       case None => if partial then {} else {ImageField}
       case Some(s) => if ImageInvalid(s) then {ImageField} else {})
    + (match data.tags
       case None => if partial then {} else {TagsField}
       case Some(ts) => if exists t :: t in ts && t >= tagCount then {TagsField} else {})
    + (match data.ingredients
       case None => if partial then {} else {IngredientsField}
       case Some(items) =>
         if exists item :: item in items && !ItemValid(item, ingredientCount, minAmount)
         then {IngredientsField} else {})
  }

  /** What validate() accepts: tags and ingredients present, non-empty, without repeats. */
  ghost predicate WellComposed(data: RecipeInput) {
    && data.tags.Some? && data.tags.value != [] && Distinct(data.tags.value)
    && data.ingredients.Some? && data.ingredients.value != []
    && Distinct(IngredientIds(data.ingredients.value))
  }

  /** validate(): the four composition checks in their fixed order. */
  function Validate(data: RecipeInput): (r: Result<RecipeInput, ValidationError>)
    ensures r.Ok? <==> WellComposed(data)
    ensures r.Ok? ==> r.value == data
    ensures r == Err(NoTags) <==> data.tags.None? || data.tags.value == []
    ensures r.Err? && r.error.RepeatedTags? ==>
      && data.tags.Some? && data.tags.value != []
      && r.error.tags != {}
      && forall t :: t in r.error.tags <==> t in data.tags.value && Count(data.tags.value, t) > 1
    ensures r == Err(NoIngredients) <==>
      && data.tags.Some? && data.tags.value != [] && Distinct(data.tags.value)
      && (data.ingredients.None? || data.ingredients.value == [])
    ensures r.Err? && r.error.RepeatedIngredients? ==>
      && data.tags.Some? && Distinct(data.tags.value)
      && data.ingredients.Some? && data.ingredients.value != []
      && r.error.ingredients != {}
      && forall i :: i in r.error.ingredients <==>
           i in IngredientIds(data.ingredients.value) && Count(IngredientIds(data.ingredients.value), i) > 1
    ensures r.Err? ==> r.error.NoTags? || r.error.RepeatedTags? || r.error.NoIngredients? || r.error.RepeatedIngredients?
  {
    var tags := data.tags.GetOr([]);
    var ingredients := data.ingredients.GetOr([]);
    NoDuplicatesIffDistinct(tags);
    NoDuplicatesIffDistinct(IngredientIds(ingredients));
    if tags == [] then Err(NoTags)
    else if Duplicates(tags) != {} then Err(RepeatedTags(Duplicates(tags)))
    else if ingredients == [] then Err(NoIngredients)
    else if Duplicates(IngredientIds(ingredients)) != {} then
      Err(RepeatedIngredients(Duplicates(IngredientIds(ingredients))))
    else Ok(data)
  }

  /** is_valid(): field errors first (all of them together), then validate(). */
  function RunValidation(data: RecipeInput, partial: bool, tagCount: nat, ingredientCount: nat,
                         minAmount: int, minCookingTime: int): (r: Result<RecipeInput, ValidationError>)
    ensures FieldErrorsOf(data, partial, tagCount, ingredientCount, minAmount, minCookingTime) != {} ==>
      r == Err(FieldErrors(FieldErrorsOf(data, partial, tagCount, ingredientCount, minAmount, minCookingTime)))
    ensures FieldErrorsOf(data, partial, tagCount, ingredientCount, minAmount, minCookingTime) == {} ==>
      r == Validate(data)
    ensures r.Ok? <==>
      FieldErrorsOf(data, partial, tagCount, ingredientCount, minAmount, minCookingTime) == {} && WellComposed(data)
    ensures r.Ok? ==>
      && r.value == data
      && WellComposed(data)
      && (forall t :: t in data.tags.value ==> t < tagCount)
      && (forall item :: item in data.ingredients.value ==> ItemValid(item, ingredientCount, minAmount))
      && (data.cookingTime.Some? ==> data.cookingTime.value >= minCookingTime)
      && (!partial ==> data.name.Some? && data.text.Some? && data.cookingTime.Some? && data.image.Some?)
      && (data.image.Some? ==> data.image.value != "")
  {
    var errs := FieldErrorsOf(data, partial, tagCount, ingredientCount, minAmount, minCookingTime);
    if errs != {} then Err(FieldErrors(errs)) else Validate(data)
  }

  /** create_ingredients: one junction row per item, in payload order. */
  function IngredientRows(recipe: RecipeId, items: seq<IngredientItem>): (rows: seq<IngredientAmount>)
    ensures |rows| == |items|
    ensures forall i :: 0 <= i < |items| ==>
      rows[i] == IngredientAmount(recipe, items[i].ingredient, items[i].amount)
  {
    if items == [] then []
    else [IngredientAmount(recipe, items[0].ingredient, items[0].amount)] + IngredientRows(recipe, items[1..])
  }

  /** The new rows all belong to the recipe and to no other. */
  lemma {:induction false} IngredientRowsOwner(recipe: RecipeId, items: seq<IngredientItem>, other: RecipeId)
    ensures RowsOf(IngredientRows(recipe, items), recipe) == IngredientRows(recipe, items)
    ensures other != recipe ==> RowsOf(IngredientRows(recipe, items), other) == []
  {
    if items != [] {
      IngredientRowsOwner(recipe, items[1..], other);
      assert IngredientRows(recipe, items)[1..] == IngredientRows(recipe, items[1..]);
    }
  }

  /** The rows of one recipe have unique keys exactly when no ingredient is repeated. */
  lemma IngredientRowsUnique(recipe: RecipeId, items: seq<IngredientItem>)
    ensures UniqueAmountKeys(IngredientRows(recipe, items)) <==> Distinct(IngredientIds(items))
  {
    var rows := IngredientRows(recipe, items);
    var ids := IngredientIds(items);
    if !Distinct(ids) {
      var i, j :| 0 <= i < j < |ids| && ids[i] == ids[j];
      assert (rows[i].recipe, rows[i].ingredient) == (rows[j].recipe, rows[j].ingredient);
    }
  }
}
