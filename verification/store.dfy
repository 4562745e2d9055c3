/**
 * The database behind the API views (backend/api/views.py) and the recipe
 * serializer's save (backend/api/serializers.py): a class whose fields are
 * the tables, whose invariant is the schema's consistency predicate, and
 * whose methods are the handlers that change the tables.
 */
module Store {
  import opened Wrappers
  import opened Models
  import opened Permissions
  import opened Serializers
  import ShoppingList

  /** The HTTP methods the relation actions accept. */
  datatype Verb = Post | Delete

  /** The two user/recipe relations _manage_recipe_list serves. */
  datatype RecipeList = FavoriteList | ShoppingCartList {
    function Other(): RecipeList {
      if FavoriteList? then ShoppingCartList else FavoriteList
    }
  }

  datatype RelationError = NotFound | AlreadyExists | SelfSubscription

  /** 201 with the created object's id, or 204. */
  datatype Response = Created(id: nat) | NoContent

  datatype RecipeError = RecipeNotFound | NotOwner | Invalid(error: ValidationError)

  /** The query with an anonymous user fails: the request ends in a server error, not a document. */
  datatype DownloadError = AnonymousLookup

  /** The recipe the serializer's create builds from validated data. */
  function NewRecipe(author: UserId, data: RecipeInput): (r: Recipe)
    ensures r.author == author
  {
    Recipe(data.name.GetOr(""), data.text.GetOr(""), data.cookingTime.GetOr(0), data.image.GetOr(""),
           author, set t | t in data.tags.GetOr([]))
  }

  /** The created recipe carries every field the payload gives, and exactly the payload's tags. */
  lemma NewRecipeFields(author: UserId, data: RecipeInput)
    ensures var r := NewRecipe(author, data);
      && (data.name.Some? ==> r.name == data.name.value)
      && (data.text.Some? ==> r.text == data.text.value)
      && (data.cookingTime.Some? ==> r.cookingTime == data.cookingTime.value)
      && (data.image.Some? ==> r.image == data.image.value)
      && (forall t :: t in r.tags <==> data.tags.Some? && t in data.tags.value)
  {
  }

  /** update(): the given fields replace the stored ones, and tags.set() replaces the tags. */
  function UpdatedRecipe(old_: Recipe, data: RecipeInput): (r: Recipe)
    ensures r.author == old_.author
    ensures forall t :: t in r.tags <==> data.tags.Some? && t in data.tags.value
  {
    old_.(name := data.name.GetOr(old_.name),
          text := data.text.GetOr(old_.text),
          cookingTime := data.cookingTime.GetOr(old_.cookingTime),
          image := data.image.GetOr(old_.image),
          tags := set t | t in data.tags.GetOr([]))
  }

  /** A PATCH changes exactly the fields it sends; the others keep their stored values. */
  lemma UpdatedRecipeFields(old_: Recipe, data: RecipeInput)
    ensures var r := UpdatedRecipe(old_, data);
      && r.name == (if data.name.Some? then data.name.value else old_.name)
      && r.text == (if data.text.Some? then data.text.value else old_.text)
      && r.cookingTime == (if data.cookingTime.Some? then data.cookingTime.value else old_.cookingTime)
      && r.image == (if data.image.Some? then data.image.value else old_.image)
  {
  }

  /** The cart's junction rows joined with their ingredients, in table order. */
  function CartRows(amounts: seq<IngredientAmount>, ingredients: seq<Ingredient>,
                    carts: set<(UserId, RecipeId)>, user: UserId): (rows: seq<ShoppingList.Row>)
    requires forall i :: 0 <= i < |amounts| ==> amounts[i].ingredient < |ingredients|
    ensures |rows| <= |amounts|
    ensures forall row :: row in rows <==>
      (exists i :: 0 <= i < |amounts| && (user, amounts[i].recipe) in carts
         && row == ShoppingList.Row(ingredients[amounts[i].ingredient].name,
                                    ingredients[amounts[i].ingredient].measurementUnit, amounts[i].amount))
    ensures (forall p :: p in carts ==> p.0 != user) ==> rows == []
  {
    if amounts == [] then []
    else
      var a := amounts[0];
      var head := if (user, a.recipe) in carts
        then [ShoppingList.Row(ingredients[a.ingredient].name, ingredients[a.ingredient].measurementUnit, a.amount)]
        else [];
      var rest := CartRows(amounts[1..], ingredients, carts, user);
      assert forall i :: 1 <= i < |amounts| ==> amounts[i] == amounts[1..][i - 1];
      assert forall i :: 0 <= i < |amounts[1..]| ==> amounts[1..][i] == amounts[i + 1];
      head + rest
  }

  /** The (name, measurement_unit) pair a junction row's ingredient is grouped under. */
  function IngredientKey(ingredients: seq<Ingredient>, a: IngredientAmount): (string, string)
    requires a.ingredient < |ingredients|
  {
    (ingredients[a.ingredient].name, ingredients[a.ingredient].measurementUnit)
  }

  /**
   * Sum('amount') over the user's cart rows whose ingredient has key k,
   * summed from the last row of the table back to the first.
   */
  ghost function CartAmount(amounts: seq<IngredientAmount>, ingredients: seq<Ingredient>,
                            carts: set<(UserId, RecipeId)>, user: UserId, k: (string, string)): int
    requires forall i :: 0 <= i < |amounts| ==> amounts[i].ingredient < |ingredients|
    decreases |amounts|
  {
    if amounts == [] then 0
    else
      var a := amounts[|amounts| - 1];
      CartAmount(amounts[..|amounts| - 1], ingredients, carts, user, k)
      + (if (user, a.recipe) in carts && IngredientKey(ingredients, a) == k then a.amount else 0)
  }

  lemma {:induction false} SumForConcat(a: seq<ShoppingList.Row>, b: seq<ShoppingList.Row>, k: (string, string))
    ensures ShoppingList.SumFor(a + b, k) == ShoppingList.SumFor(a, k) + ShoppingList.SumFor(b, k)
  {
    if a != [] {
      assert (a + b)[1..] == a[1..] + b;
      SumForConcat(a[1..], b, k);
    } else {
      assert a + b == b;
    }
  }

  /** The cart rows of a table with one more row at the end. */
  /** The cart rows of a table: those of its first row, then those of the rest. */
  lemma CartRowsCons(amounts: seq<IngredientAmount>, ingredients: seq<Ingredient>,
                     carts: set<(UserId, RecipeId)>, user: UserId)
    requires amounts != []
    requires forall i :: 0 <= i < |amounts| ==> amounts[i].ingredient < |ingredients|
    ensures CartRows(amounts, ingredients, carts, user)
         == CartRows([amounts[0]], ingredients, carts, user) + CartRows(amounts[1..], ingredients, carts, user)
  {
    assert [amounts[0]][1..] == [];
  }

  lemma {:induction false} CartRowsSnoc(amounts: seq<IngredientAmount>, ingredients: seq<Ingredient>,
                                        carts: set<(UserId, RecipeId)>, user: UserId)
    requires amounts != []
    requires forall i :: 0 <= i < |amounts| ==> amounts[i].ingredient < |ingredients|
    ensures CartRows(amounts, ingredients, carts, user)
         == CartRows(amounts[..|amounts| - 1], ingredients, carts, user) + CartRows([amounts[|amounts| - 1]], ingredients, carts, user)
  {
    if |amounts| > 1 {
      var init := amounts[..|amounts| - 1];
      var rest := amounts[1..];
      assert rest[..|rest| - 1] == init[1..];
      assert rest[|rest| - 1] == amounts[|amounts| - 1];
      assert init[0] == amounts[0];
      CartRowsCons(amounts, ingredients, carts, user);
      CartRowsCons(init, ingredients, carts, user);
      CartRowsSnoc(rest, ingredients, carts, user);
    } else {
      assert amounts[..|amounts| - 1] == [];
      assert amounts == [amounts[|amounts| - 1]];
    }
  }

  /** For every (name, unit), the cart rows sum to what Sum('amount') over the cart gives. */
  lemma {:induction false} CartRowsTotals(amounts: seq<IngredientAmount>, ingredients: seq<Ingredient>,
                                          carts: set<(UserId, RecipeId)>, user: UserId)
    requires forall i :: 0 <= i < |amounts| ==> amounts[i].ingredient < |ingredients|
    ensures forall k :: ShoppingList.SumFor(CartRows(amounts, ingredients, carts, user), k)
                     == CartAmount(amounts, ingredients, carts, user, k)
    decreases |amounts|
  {
    if amounts != [] {
      var init := amounts[..|amounts| - 1];
      var last := [amounts[|amounts| - 1]];
      CartRowsTotals(init, ingredients, carts, user);
      CartRowsSnoc(amounts, ingredients, carts, user);
      forall k ensures ShoppingList.SumFor(CartRows(amounts, ingredients, carts, user), k)
                    == CartAmount(amounts, ingredients, carts, user, k) {
        SumForConcat(CartRows(init, ingredients, carts, user), CartRows(last, ingredients, carts, user), k);
      }
    }
  }

  /** The keys of the cart rows are the keys of the cart's junction rows. */
  lemma CartRowsKeys(amounts: seq<IngredientAmount>, ingredients: seq<Ingredient>,
                     carts: set<(UserId, RecipeId)>, user: UserId)
    requires forall i :: 0 <= i < |amounts| ==> amounts[i].ingredient < |ingredients|
    ensures forall k :: k in ShoppingList.RowKeys(CartRows(amounts, ingredients, carts, user)) <==>
      exists i :: 0 <= i < |amounts| && (user, amounts[i].recipe) in carts && IngredientKey(ingredients, amounts[i]) == k
  {
    var rows := CartRows(amounts, ingredients, carts, user);
    forall k | k in ShoppingList.RowKeys(rows)
      ensures exists i :: 0 <= i < |amounts| && (user, amounts[i].recipe) in carts && IngredientKey(ingredients, amounts[i]) == k
    {
      var j :| 0 <= j < |rows| && ShoppingList.RowKey(rows[j]) == k;
      assert rows[j] in rows;
    }
    forall k | exists i :: 0 <= i < |amounts| && (user, amounts[i].recipe) in carts && IngredientKey(ingredients, amounts[i]) == k
      ensures k in ShoppingList.RowKeys(rows)
    {
      var i :| 0 <= i < |amounts| && (user, amounts[i].recipe) in carts && IngredientKey(ingredients, amounts[i]) == k;
      var a := amounts[i];
      var row := ShoppingList.Row(ingredients[a.ingredient].name, ingredients[a.ingredient].measurementUnit, a.amount);
      assert row in rows;
      var j :| 0 <= j < |rows| && rows[j] == row;
      assert ShoppingList.RowKey(rows[j]) == k;
    }
  }

  /** Ids of the recipes in the user's cart that are below a bound, in increasing order. */
  function CartIds(recipes: map<RecipeId, Recipe>, carts: set<(UserId, RecipeId)>, user: UserId, below: nat): (ids: seq<RecipeId>)
    ensures forall id :: id in ids <==> id < below && id in recipes && (user, id) in carts
    ensures forall i, j :: 0 <= i < j < |ids| ==> ids[i] < ids[j]
  {
    if below == 0 then []
    else
      var id := below - 1;
      var prev := CartIds(recipes, carts, user, id);
      assert forall x :: x in prev ==> x < id;
      assert forall i :: 0 <= i < |prev| ==> prev[i] in prev;
      prev + (if id in recipes && (user, id) in carts then [id] else [])
  }

  /** Names of the recipes in the user's cart: one per cart recipe, in id order. */
  function CartRecipeNames(recipes: map<RecipeId, Recipe>, carts: set<(UserId, RecipeId)>, user: UserId, below: nat): (names: seq<string>)
    ensures |names| <= below
    ensures |names| == |CartIds(recipes, carts, user, below)|
    ensures forall i :: 0 <= i < |names| ==> names[i] == recipes[CartIds(recipes, carts, user, below)[i]].name
    ensures forall name :: name in names <==>
      exists id :: 0 <= id < below && id in recipes && (user, id) in carts && recipes[id].name == name
    ensures (forall p :: p in carts ==> p.0 != user) ==> names == []
  {
    if below == 0 then []
    else
      var id := below - 1;
      CartRecipeNames(recipes, carts, user, id)
      + (if id in recipes && (user, id) in carts then [recipes[id].name] else [])
  }

  /** Some junction row of the user's cart has an ingredient with key k. */
  ghost predicate CartHasKey(amounts: seq<IngredientAmount>, ingredients: seq<Ingredient>,
                             carts: set<(UserId, RecipeId)>, user: UserId, k: (string, string))
    requires forall i :: 0 <= i < |amounts| ==> amounts[i].ingredient < |ingredients|
  {
    exists j :: 0 <= j < |amounts| && (user, amounts[j].recipe) in carts && IngredientKey(ingredients, amounts[j]) == k
  }

  /**
   * The lines of a shopping list against the cart they come from: numbered
   * from 1; one line for each (name, unit) among the user's cart rows and no
   * other; each carrying the Sum('amount') of those rows; no key twice; and
   * ordered by ingredient name.
   */
  ghost predicate LinesMatchCart(lines: seq<ShoppingList.NumberedLine>, amounts: seq<IngredientAmount>,
                                 ingredients: seq<Ingredient>, carts: set<(UserId, RecipeId)>, user: UserId)
    requires forall i :: 0 <= i < |amounts| ==> amounts[i].ingredient < |ingredients|
  {
    && (forall i :: 0 <= i < |lines| ==> lines[i].index == i + 1)
    && (forall j :: 0 <= j < |amounts| && (user, amounts[j].recipe) in carts ==>
          exists i :: 0 <= i < |lines| && ShoppingList.LineKey(lines[i].line) == IngredientKey(ingredients, amounts[j]))
    && (forall i :: 0 <= i < |lines| ==> CartHasKey(amounts, ingredients, carts, user, ShoppingList.LineKey(lines[i].line)))
    && (forall i :: 0 <= i < |lines| ==>
          lines[i].line.total == CartAmount(amounts, ingredients, carts, user, ShoppingList.LineKey(lines[i].line)))
    && (forall i, j :: 0 <= i < j < |lines| ==>
          && ShoppingList.LineKey(lines[i].line) != ShoppingList.LineKey(lines[j].line)
          && !ShoppingList.Before(lines[j].line.name, lines[i].line.name))
  }

  /** The keys of the grouped cart rows are the keys of the cart's junction rows. */
  lemma CartLinesKeys(amounts: seq<IngredientAmount>, ingredients: seq<Ingredient>,
                      carts: set<(UserId, RecipeId)>, user: UserId, lines: seq<ShoppingList.NumberedLine>)
    requires forall i :: 0 <= i < |amounts| ==> amounts[i].ingredient < |ingredients|
    requires forall k :: k in ShoppingList.RowKeys(CartRows(amounts, ingredients, carts, user)) <==>
      exists i :: 0 <= i < |lines| && ShoppingList.LineKey(lines[i].line) == k
    ensures forall j :: 0 <= j < |amounts| && (user, amounts[j].recipe) in carts ==>
      exists i :: 0 <= i < |lines| && ShoppingList.LineKey(lines[i].line) == IngredientKey(ingredients, amounts[j])
    ensures forall i :: 0 <= i < |lines| ==> CartHasKey(amounts, ingredients, carts, user, ShoppingList.LineKey(lines[i].line))
  {
    var rows := CartRows(amounts, ingredients, carts, user);
    CartRowsKeys(amounts, ingredients, carts, user);
    forall j | 0 <= j < |amounts| && (user, amounts[j].recipe) in carts
      ensures exists i :: 0 <= i < |lines| && ShoppingList.LineKey(lines[i].line) == IngredientKey(ingredients, amounts[j])
    {
      assert IngredientKey(ingredients, amounts[j]) in ShoppingList.RowKeys(rows);
    }
    forall i | 0 <= i < |lines| ensures CartHasKey(amounts, ingredients, carts, user, ShoppingList.LineKey(lines[i].line))
    {
      assert ShoppingList.LineKey(lines[i].line) in ShoppingList.RowKeys(rows);
    }
  }

  /** What the shopping list promises, stated over the tables it reads. */
  lemma ShoppingListSpec(amounts: seq<IngredientAmount>, ingredients: seq<Ingredient>, recipes: map<RecipeId, Recipe>,
                         carts: set<(UserId, RecipeId)>, user: UserId, below: nat, date: ShoppingList.Date)
    requires forall i :: 0 <= i < |amounts| ==> amounts[i].ingredient < |ingredients|
    ensures var doc := ShoppingList.Generate(CartRows(amounts, ingredients, carts, user), CartRecipeNames(recipes, carts, user, below), date);
      && LinesMatchCart(doc.lines, amounts, ingredients, carts, user)
      && ShoppingList.NamesSorted(doc.recipes)
      && multiset(doc.recipes) == multiset(CartRecipeNames(recipes, carts, user, below))
  {
    var rows := CartRows(amounts, ingredients, carts, user);
    var names := CartRecipeNames(recipes, carts, user, below);
    var doc := ShoppingList.Generate(rows, names, date);
    ShoppingList.GenerateSpec(rows, names, date);
    CartRowsTotals(amounts, ingredients, carts, user);
    CartLinesKeys(amounts, ingredients, carts, user, doc.lines);
  }

  lemma AppendUnique(a: seq<IngredientAmount>, b: seq<IngredientAmount>)
    requires UniqueAmountKeys(a) && UniqueAmountKeys(b)
    requires forall i, j :: 0 <= i < |a| && 0 <= j < |b| ==> a[i].recipe != b[j].recipe
    ensures UniqueAmountKeys(a + b)
  {
    var c := a + b;
    forall i, j | 0 <= i < j < |c| ensures (c[i].recipe, c[i].ingredient) != (c[j].recipe, c[j].ingredient) {
      if j < |a| {
      } else if i >= |a| {
        assert c[i] == b[i - |a|] && c[j] == b[j - |a|];
      } else {
        assert c[j] == b[j - |a|];
      }
    }
  }

  lemma NoRowsOf(amounts: seq<IngredientAmount>, id: RecipeId)
    requires forall i :: 0 <= i < |amounts| ==> amounts[i].recipe != id
    ensures RowsOf(amounts, id) == []
  {
    RowsOfMembers(amounts, id);
    if RowsOf(amounts, id) != [] {
      assert RowsOf(amounts, id)[0] in RowsOf(amounts, id);
    }
  }

  /** The tables after create(): a new recipe under the next id and its junction rows appended. */
  function CreateDb(db: Db, author: UserId, data: RecipeInput): (db': Db)
    requires data.ingredients.Some?
    ensures db' == db.(recipes := db'.recipes, amounts := db'.amounts, nextRecipeId := db.nextRecipeId + 1)
  {
    db.(recipes := db.recipes[db.nextRecipeId := NewRecipe(author, data)],
        amounts := db.amounts + IngredientRows(db.nextRecipeId, data.ingredients.value),
        nextRecipeId := db.nextRecipeId + 1)
  }

  /** The tables after update(): the recipe's fields replaced, its rows deleted and recreated. */
  function UpdateDb(db: Db, id: RecipeId, data: RecipeInput): (db': Db)
    requires id in db.recipes && data.ingredients.Some?
    ensures db' == db.(recipes := db'.recipes, amounts := db'.amounts)
  {
    db.(recipes := db.recipes[id := UpdatedRecipe(db.recipes[id], data)],
        amounts := WithoutRecipe(db.amounts, id) + IngredientRows(id, data.ingredients.value))
  }

  /** The tables after deleting a recipe, with on_delete=CASCADE on every foreign key to it. */
  function DeleteDb(db: Db, id: RecipeId): (db': Db)
    ensures id !in db'.recipes
    ensures forall p :: p in db'.favorites <==> p in db.favorites && p.1 != id
    ensures forall p :: p in db'.carts <==> p in db.carts && p.1 != id
    ensures db' == db.(recipes := db'.recipes, amounts := db'.amounts, favorites := db'.favorites, carts := db'.carts)
  {
    db.(recipes := db.recipes - {id},
        amounts := WithoutRecipe(db.amounts, id),
        favorites := (set p | p in db.favorites && p.1 != id),
        carts := (set p | p in db.carts && p.1 != id))
  }

  /** Deleting removes exactly that recipe and exactly its junction rows, and keeps every other recipe as it was. */
  lemma DeleteDbRemoves(db: Db, id: RecipeId)
    ensures var db' := DeleteDb(db, id);
      && (forall r :: r in db'.recipes <==> r in db.recipes && r != id)
      && (forall r :: r in db'.recipes ==> db'.recipes[r] == db.recipes[r])
      && (forall a :: a in db'.amounts <==> a in db.amounts && a.recipe != id)
  {
    WithoutRecipeMembers(db.amounts, id);
  }

  /** No junction row refers to an id that is not a recipe. */
  lemma RowsReferenceRecipes(db: Db, minAmount: int, minCookingTime: int, id: RecipeId)
    requires Consistent(db, minAmount, minCookingTime) && id !in db.recipes
    ensures RowsOf(db.amounts, id) == []
  {
    forall i | 0 <= i < |db.amounts| ensures db.amounts[i].recipe != id {
      assert AmountOk(db, db.amounts[i], minAmount);
    }
    NoRowsOf(db.amounts, id);
  }

  /** After create() every recipe row, old and new, is well formed. */
  lemma CreateRecipesOk(db: Db, author: UserId, data: RecipeInput, minAmount: int, minCookingTime: int)
    requires minCookingTime >= 1 && Consistent(db, minAmount, minCookingTime) && author in db.users
    requires RunValidation(data, false, |db.tags|, |db.ingredients|, minAmount, minCookingTime).Ok?
    ensures data.ingredients.Some? && db.nextRecipeId !in db.recipes
    ensures forall other :: other in CreateDb(db, author, data).recipes ==> RecipeOk(CreateDb(db, author, data), other, minCookingTime)
    ensures RowsOf(CreateDb(db, author, data).amounts, db.nextRecipeId) == IngredientRows(db.nextRecipeId, data.ingredients.value)
  {
    var id := db.nextRecipeId;
    var items := data.ingredients.value;
    var rows := IngredientRows(id, items);
    var db' := CreateDb(db, author, data);
    RowsReferenceRecipes(db, minAmount, minCookingTime, id);
    RowsOfConcat(db.amounts, rows, id);
    IngredientRowsOwner(id, items, id);
    forall other | other in db'.recipes ensures RecipeOk(db', other, minCookingTime) {
      if other != id {
        assert RecipeOk(db, other, minCookingTime);
        RowsOfConcat(db.amounts, rows, other);
        IngredientRowsOwner(id, items, other);
      } else {
        assert data.tags.value[0] in db'.recipes[id].tags;
      }
    }
  }

  /** After create() every junction row, old and new, is well formed. */
  lemma CreateAmountsOk(db: Db, author: UserId, data: RecipeInput, minAmount: int, minCookingTime: int)
    requires minAmount >= 1 && Consistent(db, minAmount, minCookingTime)
    requires RunValidation(data, false, |db.tags|, |db.ingredients|, minAmount, minCookingTime).Ok?
    ensures data.ingredients.Some?
    ensures forall i :: 0 <= i < |CreateDb(db, author, data).amounts| ==>
      AmountOk(CreateDb(db, author, data), CreateDb(db, author, data).amounts[i], minAmount)
  {
    var id := db.nextRecipeId;
    var items := data.ingredients.value;
    var rows := IngredientRows(id, items);
    var db' := CreateDb(db, author, data);
    forall i | 0 <= i < |db'.amounts| ensures AmountOk(db', db'.amounts[i], minAmount) {
      if i < |db.amounts| {
        assert AmountOk(db, db.amounts[i], minAmount);
      } else {
        assert db'.amounts[i] == rows[i - |db.amounts|];
        assert items[i - |db.amounts|] in items;
      }
    }
  }

  /** create() keeps the schema consistent, and the new recipe owns exactly the rows built from the payload. */
  lemma CreateConsistent(db: Db, author: UserId, data: RecipeInput, minAmount: int, minCookingTime: int)
    requires minAmount >= 1 && minCookingTime >= 1 && Consistent(db, minAmount, minCookingTime) && author in db.users
    requires RunValidation(data, false, |db.tags|, |db.ingredients|, minAmount, minCookingTime).Ok?
    ensures data.ingredients.Some? && db.nextRecipeId !in db.recipes
    ensures Consistent(CreateDb(db, author, data), minAmount, minCookingTime)
    ensures RowsOf(CreateDb(db, author, data).amounts, db.nextRecipeId) == IngredientRows(db.nextRecipeId, data.ingredients.value)
  {
    var id := db.nextRecipeId;
    var items := data.ingredients.value;
    var rows := IngredientRows(id, items);
    CreateRecipesOk(db, author, data, minAmount, minCookingTime);
    CreateAmountsOk(db, author, data, minAmount, minCookingTime);
    forall i, j | 0 <= i < |db.amounts| && 0 <= j < |rows| ensures db.amounts[i].recipe != rows[j].recipe {
      assert AmountOk(db, db.amounts[i], minAmount);
      assert rows[j].recipe == id;
    }
    IngredientRowsUnique(id, items);
    AppendUnique(db.amounts, rows);
  }

  /** Replacing a recipe's junction rows: its rows become the new ones, the other recipes' rows stay. */
  lemma ReplaceRows(amounts: seq<IngredientAmount>, id: RecipeId, items: seq<IngredientItem>)
    requires UniqueAmountKeys(amounts) && Distinct(IngredientIds(items))
    ensures var replaced := WithoutRecipe(amounts, id) + IngredientRows(id, items);
      && UniqueAmountKeys(replaced)
      && RowsOf(replaced, id) == IngredientRows(id, items)
      && (forall other :: other != id ==> RowsOf(replaced, other) == RowsOf(amounts, other))
      && (forall a :: a in replaced ==> (a in amounts && a.recipe != id) || a in IngredientRows(id, items))
  {
    var kept := WithoutRecipe(amounts, id);
    var rows := IngredientRows(id, items);
    WithoutRecipeMembers(amounts, id);
    WithoutRecipeUnique(amounts, id);
    IngredientRowsUnique(id, items);
    forall i, j | 0 <= i < |kept| && 0 <= j < |rows| ensures kept[i].recipe != rows[j].recipe {
      assert kept[i] in kept;
    }
    AppendUnique(kept, rows);
    RowsOfConcat(kept, rows, id);
    WithoutRecipeRows(amounts, id, id);
    IngredientRowsOwner(id, items, id);
    forall other | other != id ensures RowsOf(kept + rows, other) == RowsOf(amounts, other) {
      RowsOfConcat(kept, rows, other);
      WithoutRecipeRows(amounts, id, other);
      IngredientRowsOwner(id, items, other);
    }
  }

  /** After update() every recipe row is well formed. */
  lemma UpdateRecipesOk(db: Db, id: RecipeId, data: RecipeInput, partial: bool, minAmount: int, minCookingTime: int)
    requires minCookingTime >= 1 && Consistent(db, minAmount, minCookingTime) && id in db.recipes
    requires RunValidation(data, partial, |db.tags|, |db.ingredients|, minAmount, minCookingTime).Ok?
    requires data.ingredients.Some?
    requires RowsOf(UpdateDb(db, id, data).amounts, id) == IngredientRows(id, data.ingredients.value)
    requires forall other :: other != id ==> RowsOf(UpdateDb(db, id, data).amounts, other) == RowsOf(db.amounts, other)
    ensures forall other :: other in UpdateDb(db, id, data).recipes ==> RecipeOk(UpdateDb(db, id, data), other, minCookingTime)
  {
    var db' := UpdateDb(db, id, data);
    forall other | other in db'.recipes ensures RecipeOk(db', other, minCookingTime) {
      assert RecipeOk(db, other, minCookingTime);
      if other == id {
        assert data.tags.value[0] in db'.recipes[id].tags;
      }
    }
  }

  /** After update() every junction row is well formed. */
  lemma UpdateAmountsOk(db: Db, id: RecipeId, data: RecipeInput, partial: bool, minAmount: int, minCookingTime: int)
    requires minAmount >= 1 && Consistent(db, minAmount, minCookingTime) && id in db.recipes
    requires RunValidation(data, partial, |db.tags|, |db.ingredients|, minAmount, minCookingTime).Ok?
    requires data.ingredients.Some?
    requires forall a :: a in UpdateDb(db, id, data).amounts ==>
      (a in db.amounts && a.recipe != id) || a in IngredientRows(id, data.ingredients.value)
    ensures forall i :: 0 <= i < |UpdateDb(db, id, data).amounts| ==>
      AmountOk(UpdateDb(db, id, data), UpdateDb(db, id, data).amounts[i], minAmount)
  {
    var items := data.ingredients.value;
    var rows := IngredientRows(id, items);
    var db' := UpdateDb(db, id, data);
    forall i | 0 <= i < |db'.amounts| ensures AmountOk(db', db'.amounts[i], minAmount) {
      var a := db'.amounts[i];
      assert a in db'.amounts;
      if a in db.amounts {
        var k :| 0 <= k < |db.amounts| && db.amounts[k] == a;
        assert AmountOk(db, db.amounts[k], minAmount);
      } else {
        var k :| 0 <= k < |rows| && rows[k] == a;
        assert items[k] in items;
      }
    }
  }

  /** update() keeps the schema consistent; the recipe's rows become the payload's, other recipes' rows stay. */
  lemma UpdateConsistent(db: Db, id: RecipeId, data: RecipeInput, partial: bool, minAmount: int, minCookingTime: int)
    requires minAmount >= 1 && minCookingTime >= 1 && Consistent(db, minAmount, minCookingTime) && id in db.recipes
    requires RunValidation(data, partial, |db.tags|, |db.ingredients|, minAmount, minCookingTime).Ok?
    ensures data.ingredients.Some?
    ensures Consistent(UpdateDb(db, id, data), minAmount, minCookingTime)
    ensures RowsOf(UpdateDb(db, id, data).amounts, id) == IngredientRows(id, data.ingredients.value)
    ensures forall other :: other != id ==> RowsOf(UpdateDb(db, id, data).amounts, other) == RowsOf(db.amounts, other)
  {
    ReplaceRows(db.amounts, id, data.ingredients.value);
    UpdateRecipesOk(db, id, data, partial, minAmount, minCookingTime);
    UpdateAmountsOk(db, id, data, partial, minAmount, minCookingTime);
  }

  /** Deleting a recipe with its cascades keeps the schema consistent and leaves no row behind. */
  lemma DeleteConsistent(db: Db, id: RecipeId, minAmount: int, minCookingTime: int)
    requires Consistent(db, minAmount, minCookingTime)
    ensures Consistent(DeleteDb(db, id), minAmount, minCookingTime)
    ensures forall i :: 0 <= i < |DeleteDb(db, id).amounts| ==> DeleteDb(db, id).amounts[i].recipe != id
    ensures forall other :: other != id ==> RowsOf(DeleteDb(db, id).amounts, other) == RowsOf(db.amounts, other)
  {
    var db' := DeleteDb(db, id);
    WithoutRecipeMembers(db.amounts, id);
    WithoutRecipeUnique(db.amounts, id);
    forall other | other != id ensures RowsOf(db'.amounts, other) == RowsOf(db.amounts, other) {
      WithoutRecipeRows(db.amounts, id, other);
    }
    forall other | other in db'.recipes ensures RecipeOk(db', other, minCookingTime) {
      assert RecipeOk(db, other, minCookingTime);
    }
    forall i | 0 <= i < |db'.amounts| ensures db'.amounts[i].recipe != id && AmountOk(db', db'.amounts[i], minAmount) {
      assert db'.amounts[i] in db'.amounts;
      var k :| 0 <= k < |db.amounts| && db.amounts[k] == db'.amounts[i];
      assert AmountOk(db, db.amounts[k], minAmount);
    }
  }

  class Database {
    const minAmount: int
    const minCookingTime: int
    var users: set<UserId>
    var ingredients: seq<Ingredient>
    var tags: seq<Tag>
    var recipes: map<RecipeId, Recipe>
    var nextRecipeId: nat
    var amounts: seq<IngredientAmount>
    var favorites: set<(UserId, RecipeId)>
    var carts: set<(UserId, RecipeId)>
    var subscriptions: set<(UserId, UserId)>

    function Snapshot(): Db
      reads this
    {
      Db(users, ingredients, tags, recipes, nextRecipeId, amounts, favorites, carts, subscriptions)
    }

    ghost predicate Valid()
      reads this
    {
      minAmount >= 1 && minCookingTime >= 1 && Consistent(Snapshot(), minAmount, minCookingTime)
    }

    /** An empty database with its accounts and tags (tags are seeded, not created through the API). */
    constructor (minAmount: int, minCookingTime: int, users: set<UserId>, tags: seq<Tag>)
      requires minAmount >= 1 && minCookingTime >= 1
      requires UniqueTagNamesAndSlugs(tags)
      ensures Valid()
      ensures this.minAmount == minAmount && this.minCookingTime == minCookingTime
      ensures Snapshot() == Db(users, [], tags, map[], 0, [], {}, {}, {})
    {
      this.minAmount := minAmount;
      this.minCookingTime := minCookingTime;
      this.users := users;
      this.ingredients := [];
      this.tags := tags;
      this.recipes := map[];
      this.nextRecipeId := 0;
      this.amounts := [];
      this.favorites := {};
      this.carts := {};
      this.subscriptions := {};
    }

    function ListOf(list: RecipeList): set<(UserId, RecipeId)>
      reads this
    {
      if list == FavoriteList then favorites else carts
    }

    /** _manage_recipe_list: POST adds (user, recipe), DELETE removes it. */
    method ManageRecipeList(verb: Verb, user: UserId, pk: RecipeId, list: RecipeList)
      returns (r: Result<Response, RelationError>)
      requires Valid() && user in users
      modifies this
      ensures Valid()
      ensures verb == Delete ==>
        && (r == Err(NotFound) <==> (user, pk) !in old(ListOf(list)))
        && (r.Ok? ==> r.value == NoContent && ListOf(list) == old(ListOf(list)) - {(user, pk)})
      ensures verb == Post ==>
        && (r == Err(NotFound) <==> pk !in old(recipes))
        && (r == Err(AlreadyExists) <==> pk in old(recipes) && (user, pk) in old(ListOf(list)))
        && (r.Ok? ==> r.value == Created(pk) && ListOf(list) == old(ListOf(list)) + {(user, pk)})
      ensures verb == Delete && (user, pk) in old(ListOf(list)) ==> r == Ok(NoContent)
      ensures verb == Post && pk in old(recipes) && (user, pk) !in old(ListOf(list)) ==> r == Ok(Created(pk))
      ensures r.Err? ==> r.error != SelfSubscription && Snapshot() == old(Snapshot())
      ensures ListOf(list.Other()) == old(ListOf(list.Other()))
      ensures Snapshot() == old(Snapshot()).(favorites := favorites, carts := carts)
    {
      if verb == Delete {
        if (user, pk) !in ListOf(list) {
          return Err(NotFound);
        }
        if list == FavoriteList {
          favorites := favorites - {(user, pk)};
        } else {
          carts := carts - {(user, pk)};
        }
        return Ok(NoContent);
      }
      if pk !in recipes {
        return Err(NotFound);
      }
      if (user, pk) in ListOf(list) {
        return Err(AlreadyExists);
      }
      if list == FavoriteList {
        favorites := favorites + {(user, pk)};
      } else {
        carts := carts + {(user, pk)};
      }
      return Ok(Created(pk));
    }

    /** is_subscribed as retrieve sets it: only for a signed-in user, true iff the pair exists. */
    function IsSubscribed(requester: Requester, author: UserId): (subscribed: bool)
      reads this
      ensures subscribed <==> requester.Authenticated? && (requester.id, author) in subscriptions
      ensures Valid() && subscribed ==> requester.id in users && author in users
      ensures requester.Anonymous? ==> !subscribed
    {
      requester.Authenticated? && (requester.id, author) in subscriptions
    }

    /** retrieve: 404 for an unknown account, otherwise the is_subscribed flag. */
    function Retrieve(requester: Requester, author: UserId): (r: Result<bool, RelationError>)
      reads this
      ensures r.Err? <==> author !in users
      ensures r.Ok? ==> (r.value <==> requester.Authenticated? && (requester.id, author) in subscriptions)
    {
      if author !in users then Err(NotFound) else Ok(IsSubscribed(requester, author))
    }

    /** UserViewSet.subscribe: POST subscribes user to author, DELETE unsubscribes. */
    method Subscribe(verb: Verb, user: UserId, author: UserId) returns (r: Result<Response, RelationError>)
      requires Valid() && user in users
      modifies this
      ensures Valid()
      ensures verb == Delete ==>
        && (r == Err(NotFound) <==> (user, author) !in old(subscriptions))
        && (r.Ok? ==> r.value == NoContent && subscriptions == old(subscriptions) - {(user, author)})
        && (r.Ok? ==> !IsSubscribed(Authenticated(user), author))
      ensures verb == Post ==>
        && (r == Err(NotFound) <==> author !in old(users))
        && (author == user ==> r == Err(SelfSubscription))
        && (r == Err(AlreadyExists) <==> author in old(users) && author != user && (user, author) in old(subscriptions))
        && (r.Ok? ==> r.value == Created(author) && subscriptions == old(subscriptions) + {(user, author)})
        && (r.Ok? ==> IsSubscribed(Authenticated(user), author))
      ensures r == Err(SelfSubscription) <==> verb == Post && author in old(users) && author == user
      ensures verb == Post && author in old(users) && author != user && (user, author) !in old(subscriptions) ==>
        r == Ok(Created(author))
      ensures verb == Delete && (user, author) in old(subscriptions) ==> r == Ok(NoContent)
      ensures r.Err? ==> Snapshot() == old(Snapshot())
      ensures Snapshot() == old(Snapshot()).(subscriptions := subscriptions)
    {
      if verb == Delete {
        if (user, author) !in subscriptions {
          return Err(NotFound);
        }
        subscriptions := subscriptions - {(user, author)};
        return Ok(NoContent);
      }
      if author !in users {
        return Err(NotFound);
      }
      if user == author {
        return Err(SelfSubscription);
      }
      if (user, author) in subscriptions {
        return Err(AlreadyExists);
      }
      subscriptions := subscriptions + {(user, author)};
      return Ok(Created(author));
    }

    /** POST /recipes/: validation, then the recipe, its tags and one row per ingredient item. */
    method CreateRecipe(author: UserId, data: RecipeInput) returns (r: Result<RecipeId, RecipeError>)
      requires Valid() && author in users
      modifies this
      ensures Valid()
      ensures var v := RunValidation(data, false, |old(tags)|, |old(ingredients)|, minAmount, minCookingTime);
        && (v.Err? ==> r == Err(Invalid(v.error)) && Snapshot() == old(Snapshot()))
        && (v.Ok? ==>
             && r == Ok(old(nextRecipeId))
             && r.value !in old(recipes)
             && recipes == old(recipes)[r.value := NewRecipe(author, data)]
             && recipes[r.value].tags == set t | t in data.tags.value
             && amounts == old(amounts) + IngredientRows(r.value, data.ingredients.value)
             && RowsOf(amounts, r.value) == IngredientRows(r.value, data.ingredients.value)
             && Snapshot() == old(Snapshot()).(recipes := recipes, amounts := amounts, nextRecipeId := old(nextRecipeId) + 1))
    {
      var v := RunValidation(data, false, |tags|, |ingredients|, minAmount, minCookingTime);
      if v.Err? {
        return Err(Invalid(v.error));
      }
      var id := nextRecipeId;
      CreateConsistent(Snapshot(), author, data, minAmount, minCookingTime);
      recipes := recipes[id := NewRecipe(author, data)];
      amounts := amounts + IngredientRows(id, data.ingredients.value);
      nextRecipeId := nextRecipeId + 1;
      return Ok(id);
    }

    /** PUT/PATCH /recipes/{id}/: 404, then the author check, then validation, then replacement. */
    method UpdateRecipe(requester: UserId, id: RecipeId, data: RecipeInput, partial: bool)
      returns (r: Result<RecipeId, RecipeError>)
      requires Valid() && requester in users
      modifies this
      ensures Valid()
      ensures r.Err? ==> Snapshot() == old(Snapshot())
      ensures r == Err(RecipeNotFound) <==> id !in old(recipes)
      ensures r == Err(NotOwner) <==> id in old(recipes) && old(recipes)[id].author != requester
      ensures var v := RunValidation(data, partial, |old(tags)|, |old(ingredients)|, minAmount, minCookingTime);
        id in old(recipes) && old(recipes)[id].author == requester ==>
        && (v.Err? ==> r == Err(Invalid(v.error)))
        && (v.Ok? ==>
             && r == Ok(id)
             && recipes == old(recipes)[id := UpdatedRecipe(old(recipes)[id], data)]
             && recipes[id].tags == set t | t in data.tags.value
             && RowsOf(amounts, id) == IngredientRows(id, data.ingredients.value)
             && (forall other :: other != id ==> RowsOf(amounts, other) == RowsOf(old(amounts), other))
             && amounts == WithoutRecipe(old(amounts), id) + IngredientRows(id, data.ingredients.value)
             && Snapshot() == old(Snapshot()).(recipes := recipes, amounts := amounts))
    {
      if id !in recipes {
        return Err(RecipeNotFound);
      }
      var verb := if partial then "PATCH" else "PUT";
      if !HasObjectPermission(verb, recipes[id].author, Authenticated(requester)) {
        return Err(NotOwner);
      }
      var v := RunValidation(data, partial, |tags|, |ingredients|, minAmount, minCookingTime);
      if v.Err? {
        return Err(Invalid(v.error));
      }
      UpdateConsistent(Snapshot(), id, data, partial, minAmount, minCookingTime);
      recipes := recipes[id := UpdatedRecipe(recipes[id], data)];
      amounts := WithoutRecipe(amounts, id) + IngredientRows(id, data.ingredients.value);
      return Ok(id);
    }

    /** DELETE /recipes/{id}/: the recipe goes, and CASCADE removes its rows, favorites and cart entries. */
    method DeleteRecipe(requester: UserId, id: RecipeId) returns (r: Result<Response, RecipeError>)
      requires Valid() && requester in users
      modifies this
      ensures Valid()
      ensures r.Err? ==> Snapshot() == old(Snapshot())
      ensures r == Err(RecipeNotFound) <==> id !in old(recipes)
      ensures r == Err(NotOwner) <==> id in old(recipes) && old(recipes)[id].author != requester
      ensures id in old(recipes) && old(recipes)[id].author == requester ==> r == Ok(NoContent)
      ensures r.Ok? ==>
        && r.value == NoContent
        && recipes == old(recipes) - {id}
        && amounts == WithoutRecipe(old(amounts), id)
        && (forall i :: 0 <= i < |amounts| ==> amounts[i].recipe != id)
        && (forall other :: other != id ==> RowsOf(amounts, other) == RowsOf(old(amounts), other))
        && favorites == set p | p in old(favorites) && p.1 != id
        && carts == set p | p in old(carts) && p.1 != id
        && Snapshot() == old(Snapshot()).(recipes := recipes, amounts := amounts, favorites := favorites, carts := carts)
    {
      if id !in recipes {
        return Err(RecipeNotFound);
      }
      if !HasObjectPermission("DELETE", recipes[id].author, Authenticated(requester)) {
        return Err(NotOwner);
      }
      DeleteConsistent(Snapshot(), id, minAmount, minCookingTime);
      recipes := recipes - {id};
      amounts := WithoutRecipe(amounts, id);
      favorites := set p | p in favorites && p.1 != id;
      carts := set p | p in carts && p.1 != id;
      return Ok(NoContent);
    }

    /**
     * generate_shopping_list for a signed-in user: one numbered line per
     * (name, unit) among the cart's junction rows, carrying Sum('amount') of
     * those rows, ordered by name; the header lists the cart's recipes ordered
     * by name.
     */
    function ShoppingListFor(user: UserId, date: ShoppingList.Date): (doc: ShoppingList.Document)
      reads this
      requires Valid()
      ensures doc.date == date
      ensures forall i :: 0 <= i < |amounts| ==> amounts[i].ingredient < |ingredients|
      ensures LinesMatchCart(doc.lines, amounts, ingredients, carts, user)
      ensures ShoppingList.NamesSorted(doc.recipes)
      ensures multiset(doc.recipes) == multiset(CartRecipeNames(recipes, carts, user, nextRecipeId))
      ensures (forall p :: p in carts ==> p.0 != user) ==> doc.lines == [] && doc.recipes == []
    {
      assert forall i :: 0 <= i < |amounts| ==> AmountOk(Snapshot(), amounts[i], minAmount);
      ShoppingListSpec(amounts, ingredients, recipes, carts, user, nextRecipeId, date);
      ShoppingList.Generate(CartRows(amounts, ingredients, carts, user), CartRecipeNames(recipes, carts, user, nextRecipeId), date)
    }

    /**
     * download_shopping_cart: GET is open to anonymous requests, and for one
     * the cart lookup with an anonymous user raises instead of answering.
     */
    function DownloadShoppingCart(requester: Requester, date: ShoppingList.Date): (r: Result<ShoppingList.Document, DownloadError>)
      reads this
      requires Valid()
      ensures r.Err? <==> requester.Anonymous?
      ensures r.Ok? ==> r.value == ShoppingListFor(requester.id, date)
    {
      match requester
      case Anonymous => Err(AnonymousLookup)
      case Authenticated(user) => Ok(ShoppingListFor(user, date))
    }
  }
}
