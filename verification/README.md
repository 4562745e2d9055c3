# Foodgram core, modelled in Dafny

Foodgram is a Django recipe-sharing backend. Users publish recipes built from
ingredients and tags, and they can favourite recipes, put them in a shopping
cart and subscribe to other authors. They can also download a shopping list
that adds up the ingredients of every recipe in their cart. Administrators
browse the data through the Django admin, and a management command seeds the
ingredient table from a JSON or CSV file.

This project models the logic under the REST and ORM glue. The database is a
record of tables (`Models.Db`): sets of pairs for the relations and a sequence
of junction rows for recipe ingredients. The schema's constraints are one
consistency predicate, `Models.Consistent`. Its parts are these:

- ingredient names are unique;
- tag names and slugs are unique;
- the (recipe, ingredient) key is unique;
- amounts and cooking times respect their minimum validators;
- every foreign key resolves, which is what CASCADE keeps true.

The stateful parts are classes:

- `Store.Database` holds those tables. Its handlers keep `Consistent` as the
  class invariant (`Valid`).
- `Admin.CookingTimeFilter` holds the thresholds that `lookups` stores.

The rest is pure functions with lemmas.

| module | file | models |
|---|---|---|
| `Wrappers` | wrappers.dfy | Option / Result |
| `Text` | text.dfy | `lower`, `strip`, `startswith`, `endswith`, `str.join`, `str(int)` |
| `Models` | models.dfy | backend/foodgram/models.py |
| `Permissions` | permissions.dfy | backend/api/permissions.py |
| `UserValidators` | user_validators.dfy | backend/backend/validators.py |
| `ImageValidators` | image_validators.dfy | backend/foodgram/validators.py |
| `Filters` | filters.dfy | backend/api/filters.py |
| `Serializers` | serializers.dfy | `RecipeCreateUpdateSerializer` in backend/api/serializers.py |
| `ShoppingList` | shopping_list.dfy | `generate_shopping_list` in backend/api/views.py |
| `Store` | store.dfy | the view handlers in backend/api/views.py, and the serializer's create/update |
| `Loader` | load_ingredients.dfy | backend/foodgram/management/commands/load_ingredients.py |
| `Admin` | admin.dfy | backend/foodgram/admin.py |

Some inputs are parameters of the model:

- `MIN_AMOUNT`, `MIN_COOKING_TIME` and `STR_LENGTH` are defined in a
  `foodgram/constants` module that is not part of this model.
- The character class `\w` of the username pattern is a predicate `isWord`.
- The shopping list's date is an input, since the source reads it from
  `datetime.now()`.
- The ingredient loader receives the file as the JSON and CSV readers would
  decode it, or `None` when the file does not exist.

## Model

| member | source | states |
|---|---|---|
| Text.Lower | backend/backend/validators.py:12 | the model's lower() (ASCII letters only) keeps the length and maps each character on its own |
| Text.LowerIsCaseVariant | backend/api/filters.py:33 | a string lower-cases to w exactly when, position by position, each of its characters lower-cases to w's character there |
| Text.Strip | backend/foodgram/management/commands/load_ingredients.py:44-45 | strip() is no longer than its input and neither starts nor ends with whitespace |
| Text.TrimStartFacts | backend/foodgram/management/commands/load_ingredients.py:44-45 | the leading part that is dropped is all whitespace; the rest is kept unchanged and does not start with whitespace |
| Text.TrimEndFacts | backend/foodgram/management/commands/load_ingredients.py:44-45 | the trailing part that is dropped is all whitespace; the rest is kept unchanged and does not end with whitespace |
| Text.StripSlice | backend/foodgram/management/commands/load_ingredients.py:44-45 | strip() keeps one contiguous piece of its input, and only whitespace is dropped before and after it |
| Text.Join | backend/foodgram/admin.py:287-291 | joining no parts gives "", one part gives that part, and otherwise the text starts with the first part |
| Text.StripEmpty | backend/foodgram/management/commands/load_ingredients.py:44-47 | strip() yields the empty string exactly when every character is whitespace |
| Text.JoinSnoc | backend/foodgram/admin.py:287-291 | joining one more part appends exactly the separator and that part |
| Text.JoinLength | backend/foodgram/admin.py:287-291 | a join is every part plus one separator between each pair of neighbours |
| Text.NatToDecimalRoundTrip | backend/foodgram/admin.py:288 | the decimal rendering of an amount is non-empty, all digits, has no leading zero and reads back as the amount |
| Models.IngredientStr | backend/foodgram/models.py:104-105 | `__str__` is a prefix of the name: exactly STR_LENGTH characters of a longer name, or the whole name when it fits |
| Models.TagStr | backend/foodgram/models.py:126-127 | `__str__` is a prefix of the name whose length is min(name length, STR_LENGTH) |
| Models.RecipeStr | backend/foodgram/models.py:178-179 | `__str__` is a prefix of the name: exactly STR_LENGTH characters of a longer name, or the whole name |
| Models.RowsOfConcat | backend/foodgram/models.py:182-216 | a recipe's rows in two concatenated tables are its rows in the first followed by its rows in the second |
| Models.WithoutRecipeConcat | backend/foodgram/models.py:188-192 | deleting a recipe's rows distributes over concatenation |
| Models.RowsOfMembers | backend/foodgram/models.py:188-192 | a row is among its recipe's rows exactly when it is in the table |
| Models.WithoutRecipeRows | backend/api/serializers.py:234 | after deleting a recipe's rows that recipe has none, and every other recipe keeps its rows in order |
| Models.WithoutRecipeMembers | backend/api/serializers.py:234 | the rows left are exactly the rows of other recipes |
| Models.WithoutRecipeUnique | backend/foodgram/models.py:211-216 | deleting rows keeps the (recipe, ingredient) key unique |
| Permissions.HasObjectPermission | backend/api/permissions.py:10-13 | safe methods are always allowed; any other method is allowed iff the requester is signed in and is the author |
| Permissions.SafeMethodIgnoresParties | backend/api/permissions.py:11-12 | for a safe method the decision depends on neither the author nor the user |
| Permissions.NonAuthorNeverWrites | backend/api/permissions.py:13 | a non-author or an anonymous visitor is never allowed a non-safe method |
| UserValidators.UsernameAllowed | backend/backend/validators.py:11-15 | a username is refused iff it is "me" in any letter case ("me", "Me", "mE", "ME"); everything else passes |
| UserValidators.LowerTwo | backend/backend/validators.py:12 | the lower-case form is "me" exactly for the four case variants of "me" |
| UserValidators.MatchesUsernamePattern | backend/backend/validators.py:34-37 | the pattern accepts exactly non-empty strings made only of word characters and `. @ + -` |
| UserValidators.AllUsernameCharsSpec | backend/foodgram/validators.py:13-16 | the recursive character check holds iff every character is in the class |
| ImageValidators.ValidateImage | backend/foodgram/validators.py:7-10 | None and the empty string are rejected; every other value is returned unchanged |
| Filters.ParamIsTrue | backend/api/filters.py:27-33 | a bool is returned as is and None is false; any other value is true iff its text is a case variant of "1", "true", "t" or "yes" (so it has 1 to 4 characters) |
| Filters.LowerIdempotent | backend/api/filters.py:33 | lower-casing twice is lower-casing once |
| Filters.ParamIsTrueIgnoresCase | backend/api/filters.py:33 | the textual test gives the same answer for a value and its lower-case form |
| Filters.KeepRelated | backend/api/filters.py:39-41 | the result holds exactly the input recipes that the relation links to the user, and is a sub-multiset of the input |
| Filters.FilterIsFavorited | backend/api/filters.py:35-43 | false parameter: the input unchanged; true and anonymous: empty; true and signed in: exactly the input recipes the user favourited; always a subset of the input |
| Filters.FilterIsInShoppingCart | backend/api/filters.py:45-53 | the same three-way rule over the cart relation (the corrected lookup) |
| Filters.CartFilterAsWrittenFails | backend/api/filters.py:49-51 | with a true parameter and a signed-in user, the lookup as written fails with a FieldError for every input; the lookup under the derived name gives the corrected filter |
| Filters.IngredientNameFilter | backend/api/filters.py:56-61 | no value or an empty one is the identity; otherwise it keeps exactly the ingredients whose lower-cased name starts with the lower-cased value |
| Filters.KeepPrefixed | backend/api/filters.py:58-61 | keeps exactly the ingredients whose lower-cased name starts with the prefix, as a sub-multiset |
| Serializers.Duplicates | backend/api/serializers.py:186-188 | an item is reported iff it occurs in the input more than once; being a set, no item is reported twice |
| Serializers.NoDuplicatesIffDistinct | backend/api/serializers.py:186-188 | nothing is reported exactly when no item is repeated |
| Serializers.CountRepeated | backend/api/serializers.py:188 | an item at two positions has a count of at least 2 |
| Serializers.CountDistinct | backend/api/serializers.py:188 | in a repeat-free list every count is at most 1 |
| Serializers.FieldErrorsOf | backend/api/serializers.py:98-105 | per field, an error iff the field is required and missing, or cooking_time is below MIN_COOKING_TIME, or the image is empty, or a tag or ingredient id is unknown, or an amount is below MIN_AMOUNT |
| Serializers.Validate | backend/api/serializers.py:190-211 | ok iff tags and ingredients are present, non-empty and repeat-free, and then the data comes back unchanged; the no-tags error comes first; repeated tags are reported with their duplicates; no-ingredients is reached only with valid tags; repeated ingredients are compared by ingredient id alone |
| Serializers.RunValidation | backend/api/serializers.py:155-211 | field errors come before validate(), and with none the outcome is exactly validate()'s; success holds iff there are no field errors and the data is well composed; success implies known tags and ingredients, amounts ≥ MIN_AMOUNT, cooking_time ≥ MIN_COOKING_TIME, a non-empty image, and every field present on a full update |
| Serializers.IngredientRows | backend/api/serializers.py:213-220 | one junction row per payload item, in order, with that item's ingredient and amount |
| Serializers.IngredientRowsOwner | backend/api/serializers.py:213-220 | the new rows are exactly the recipe's rows and belong to no other recipe |
| Serializers.IngredientRowsUnique | backend/foodgram/models.py:211-216 | the new rows have unique keys exactly when the payload repeats no ingredient |
| ShoppingList.BeforeTransitive | backend/api/views.py:50 | the name order is transitive |
| ShoppingList.BeforeTotal | backend/api/views.py:50 | any two distinct names are ordered one way |
| ShoppingList.Group | backend/api/views.py:41-49 | there are never more groups than rows, and at least one group when there is a row |
| ShoppingList.GroupFacts | backend/api/views.py:41-49 | the groups are strictly ordered by (name, unit); they have exactly the keys of the rows; each total is the sum of its rows' amounts; the totals add up to all the amounts |
| ShoppingList.InsertTotals | backend/api/views.py:48 | adding a row to the groups adds its amount to its own key's total and to no other |
| ShoppingList.TotalForLine | backend/api/views.py:48 | in ordered groups a line's total is the total recorded for its key |
| ShoppingList.Enumerate | backend/api/views.py:58 | lines are numbered 1, 2, … in order |
| ShoppingList.SortNamesFacts | backend/api/views.py:52-55 | the header is sorted by name and is a permutation of the cart's recipe names |
| ShoppingList.Generate | backend/api/views.py:37-62 | the date is kept; with no cart rows there are no lines, and no error |
| ShoppingList.GenerateSpec | backend/api/views.py:41-59 | there is one line per distinct (name, unit) of the cart rows, with no key twice; each total is the sum of that key's amounts; lines are ordered by name and numbered from 1; the totals add up to all amounts; the header is the sorted recipe names |
| Store.NewRecipe | backend/api/serializers.py:222-228 | the created recipe has the requesting author |
| Store.NewRecipeFields | backend/api/serializers.py:222-228 | the created recipe carries every field the payload gives, and exactly the payload's tags |
| Store.UpdatedRecipe | backend/api/serializers.py:230-236 | the author is kept and the tags become exactly the payload's |
| Store.UpdatedRecipeFields | backend/api/serializers.py:230-236 | each field sent replaces the stored one, and each field not sent keeps its stored value |
| Store.CartRows | backend/api/views.py:42-44 | a (name, unit, amount) row is listed iff it comes from a junction row of a recipe in the user's cart; there are no more rows than junction rows; an empty cart gives no rows |
| Store.CartRowsTotals | backend/api/views.py:41-49 | for every (name, unit), the cart rows' amounts add up to Sum('amount') over the user's cart rows with that key, counting each junction row once |
| Store.CartRowsKeys | backend/api/views.py:41-47 | the (name, unit) keys of the cart rows are exactly the keys of the junction rows of the user's cart |
| Store.CartIds | backend/api/views.py:52-55 | the ids listed are exactly the ids of the recipes in the user's cart, in strictly increasing order, so none twice |
| Store.CartRecipeNames | backend/api/views.py:52-55 | one name per recipe in the user's cart: the i-th name is the name of the i-th cart id; a name is listed iff it names a recipe in the cart |
| Store.CartLinesKeys | backend/api/views.py:41-49 | lines keyed like the cart rows have a line for every junction row in the cart, and only lines whose key some such row has |
| Store.ShoppingListSpec | backend/api/views.py:37-62 | the list built from the tables numbers its lines from 1, has one line per (name, unit) in the cart and no other, gives each line the cart's Sum('amount') for that key, repeats no key, orders lines by name, and heads it with the cart's recipe names sorted |
| Store.AppendUnique | backend/foodgram/models.py:211-216 | two key-unique tables whose recipes differ concatenate to a key-unique table |
| Store.CreateConsistent | backend/api/serializers.py:222-228 | create() keeps the schema consistent; the new id is unused; the new recipe owns exactly the rows built from the payload |
| Store.ReplaceRows | backend/api/serializers.py:233-235 | deleting a recipe's rows and re-inserting the payload keeps keys unique; that recipe's rows become the new ones and every other recipe's rows stay |
| Store.UpdateConsistent | backend/api/serializers.py:230-236 | update() keeps the schema consistent; the recipe's rows become the payload's; other recipes' rows are untouched |
| Store.CreateDb | backend/api/serializers.py:222-228 | create() changes only the recipes, the junction rows and the next id, which grows by one |
| Store.UpdateDb | backend/api/serializers.py:230-236 | update() changes only the recipes and the junction rows |
| Store.DeleteConsistent | backend/foodgram/models.py:188-192 | deleting a recipe with its cascades keeps the schema consistent; no row refers to it afterwards; other recipes keep their rows |
| Store.DeleteDb | backend/foodgram/models.py:188-192 | the recipe is gone; exactly the favourite and cart pairs that referred to it are removed; no table other than recipes, junction rows, favourites and carts changes |
| Store.DeleteDbRemoves | backend/foodgram/models.py:188-192 | exactly that recipe is gone and every other recipe is unchanged; exactly the junction rows that referred to it are removed |
| Store.Database.constructor | backend/foodgram/models.py:58-267 | an empty database with its accounts and tags satisfies the invariant |
| Store.Database.ManageRecipeList | backend/api/views.py:268-292 | DELETE: not-found iff the pair is absent, otherwise the request succeeds with 204 and exactly that pair is removed; POST: not-found iff the recipe does not exist, already-exists iff the pair is present, otherwise the request succeeds with 201 and exactly that pair is added; a failure changes nothing; the other relation and every other table are unchanged; the invariant is kept |
| Store.Database.IsSubscribed | backend/api/views.py:129-133 | the flag is true iff the requester is signed in and the subscription pair exists; both parties then exist |
| Store.Database.Retrieve | backend/api/views.py:122-135 | not-found iff the account does not exist; otherwise is_subscribed is true iff the requester is signed in and the pair exists |
| Store.Database.Subscribe | backend/api/views.py:150-185 | DELETE: not-found iff the pair is absent, otherwise the request succeeds and exactly that pair is removed; POST: not-found iff the author does not exist; the self-subscription error occurs exactly for a POST to an existing author who is the user, whatever the state; already-exists iff the pair is present; otherwise the request succeeds and exactly that pair is added; a failure changes nothing; only the subscription table changes |
| Store.Database.CreateRecipe | backend/api/serializers.py:222-228 | a validation failure returns that error and changes nothing; success adds the recipe under the next id with tags equal to the payload's tags and exactly one row per payload item, and changes no other table |
| Store.Database.UpdateRecipe | backend/api/serializers.py:230-236 | not-found iff the recipe is absent; forbidden iff the requester is not the author; then validation; success sets the recipe's tags to the payload's and its rows to exactly one per payload item, and leaves every other recipe's rows and every other table alone |
| Store.Database.DeleteRecipe | backend/foodgram/models.py:188-192 | not-found, then forbidden for a non-author; the author's request for an existing recipe always succeeds; success removes the recipe, its rows, and the favourite and cart pairs that refer to it, and nothing else |
| Store.Database.ShoppingListFor | backend/api/views.py:37-62 | a read of the tables: the date is kept; the lines match the cart (one per (name, unit) among the cart's junction rows, each with that key's Sum('amount'), numbered from 1, no key twice, ordered by name); the header is the cart's recipe names sorted; an empty cart gives no lines and no recipes |
| Store.Database.DownloadShoppingCart | backend/api/views.py:302-309 | an anonymous GET, which the default IsAuthenticatedOrReadOnly lets through, fails in the cart lookup; a signed-in user gets their shopping list |
| Loader.Keep | backend/foodgram/management/commands/load_ingredients.py:44-47 | a row is skipped iff its name or its unit is all whitespace; a kept row stores the stripped name and unit, both non-empty |
| Loader.Classify | backend/foodgram/management/commands/load_ingredients.py:43-69 | a JSON item is skipped iff its stripped name or unit is empty; a CSV row is skipped iff it has fewer than two fields or its stripped first or second field is empty; a kept row carries the stripped values |
| Loader.GetOrCreate | backend/foodgram/management/commands/load_ingredients.py:49-52 | an existing (name, unit) is found and the table is unchanged; a new one is appended; a new row whose name is already taken is an IntegrityError |
| Loader.GetOrCreateUnique | backend/foodgram/models.py:89-93 | get_or_create keeps ingredient names unique |
| Loader.StepFacts | backend/foodgram/management/commands/load_ingredients.py:43-69 | after an IntegrityError nothing changes; otherwise a row moves exactly one counter (skipped iff the row is classified Skip) or raises on a kept row without counting it; the table only grows, by at most one row |
| Loader.RunBounds | backend/foodgram/management/commands/load_ingredients.py:38-69 | the counters never exceed the number of rows, nor does the table grow by more than that |
| Loader.RunCounts | backend/foodgram/management/commands/load_ingredients.py:38-69 | without a conflict every row bumps exactly one counter, so added + skipped is the number of rows; skipped counts the rows classified Skip; every kept row is in the table; the table only grows |
| Loader.RunUnique | backend/foodgram/management/commands/load_ingredients.py:49-52 | repeated rows never create a second ingredient with the same name |
| Loader.RepeatedRowCounted | backend/foodgram/management/commands/load_ingredients.py:49-53 | a kept row repeated leaves the table unchanged but is counted in added again |
| Loader.RunConflictStops | backend/foodgram/management/commands/load_ingredients.py:49-52 | once an IntegrityError is raised, the rest of the rows change nothing |
| Loader.Plan | backend/foodgram/management/commands/load_ingredients.py:35-72 | a missing file is FileNotFound before anything else; an extension other than .json or .csv is an error; a read error occurs exactly when the reader for the file's extension (.json first) fails; a JSON file yields its items in order; a CSV file yields its rows in order |
| Loader.GrowIngredients | backend/foodgram/models.py:86-97 | adding ingredients with unique names keeps the schema consistent |
| Loader.ImportRows | backend/foodgram/management/commands/load_ingredients.py:38-69 | the loop leaves the table and the counters as the row-by-row specification says, keeps the invariant, and changes no other table |
| Loader.Handle | backend/foodgram/management/commands/load_ingredients.py:24-80 | a non-empty table returns early with its size and nothing loaded; otherwise the pre-loop errors leave the table empty, and the loop result follows the specification |
| Admin.MinTime | backend/foodgram/admin.py:214-217 | the minimum is one of the cooking times and no time is below it |
| Admin.MaxTime | backend/foodgram/admin.py:214-218 | the maximum is one of the cooking times and no time is above it |
| Admin.BordersOrdered | backend/foodgram/admin.py:219-221 | min ≤ short_border ≤ medium_border ≤ max |
| Admin.BucketsCover | backend/foodgram/admin.py:222-226 | every time in [min, max] lies in one of the three inclusive ranges; they start at min, end at max and meet at the borders |
| Admin.InRange | backend/foodgram/admin.py:237 | keeps exactly the recipes whose time lies in the inclusive range |
| Admin.BorderInTwoBuckets | backend/foodgram/admin.py:222-237 | a recipe whose time equals short_border is kept by both the short and the medium bucket |
| Admin.CookingTimeFilter.Lookups | backend/foodgram/admin.py:210-232 | fewer than 3 distinct times: no choices and the thresholds are untouched; otherwise the thresholds are the three ordered ranges, and the short, medium and long choices are offered |
| Admin.CookingTimeFilter.Queryset | backend/foodgram/admin.py:234-238 | a stored label keeps exactly the recipes in its inclusive range; an unknown or absent value returns the input unchanged |
| Admin.KeepWhere | backend/foodgram/admin.py:30-33 | keeps exactly the rows satisfying the predicate |
| Admin.RelatedExistenceQueryset | backend/foodgram/admin.py:26-34 | 'yes' keeps exactly the rows that have related objects; 'no' keeps exactly those that have none; any other value is the identity |
| Admin.RelatedExistencePartition | backend/foodgram/admin.py:30-33 | every row falls in exactly one of 'yes' and 'no' |
| Admin.FullName | backend/foodgram/admin.py:99-101 | first name, one space, then last name |
| Admin.AvatarDisplay | backend/foodgram/admin.py:103-108 | '-' iff there is no avatar file; otherwise a thumbnail of the avatar |
| Admin.IngredientEntry | backend/foodgram/admin.py:288-289 | an entry starts with the name followed by " — ", ends with a space followed by the unit, and has room for exactly str(amount) between them |
| Admin.IngredientEntryShowsAmount | backend/foodgram/admin.py:288-289 | the text between " — " and the unit is str(amount); for an amount that is not negative it is all digits and reads back as the amount |
| Admin.Entries | backend/foodgram/admin.py:287-291 | one entry per ingredient row, in row order |
| Admin.IngredientsList | backend/foodgram/admin.py:283-291 | no rows give "", one row gives its entry, and otherwise the list starts with the first row's entry |
| Admin.IngredientsListSnoc | backend/foodgram/admin.py:283-291 | one more row appends '<br>' and that row's entry |
| Admin.IngredientsListLength | backend/foodgram/admin.py:283-291 | the list is the entries plus one '<br>' between neighbours |
| Admin.TagsList | backend/foodgram/admin.py:293-297 | no tags give "", one tag gives its name, and otherwise the length is every name plus 4 characters per '<br>' |
| Admin.TagsListSnoc | backend/foodgram/admin.py:293-297 | one more tag appends exactly '<br>' and its name; with the two cases above this fixes the text |

## Left out

- HTTP, routing, pagination, token authentication and the Djoser user endpoints are not modelled. The view-level permission classes appear only as preconditions: the relation and recipe handlers require a signed-in user, and the recipe handlers check `IsOwnerOrReadOnly` themselves.
- Reading and decoding the import file are not modelled, because file I/O is outside the model. A reader that fails counts as a failure before the loop, so a CSV file that fails to decode part-way through is not modelled. A JSON value that is not an object, or a null or non-string name, makes the source crash; such values are not modelled.
- Loader.Handle: the messages the command prints are not modelled; the outcome carries their numbers instead.
- The `bulk_create` import commands (`_base_import.py` and its subclasses) are not modelled.
- Image decoding (Base64ImageField), stored files, image URLs, the avatar preview and `avatar_display`'s exact HTML beyond its prefix are not modelled.
- Template rendering and the month names of the shopping-list date are not modelled; the date is an input.
- The name and text checks that DRF derives from the model fields (blank, max_length) are not modelled. The same goes for the varchar limits on every CharField.
- Default orderings (`ordering` in the Meta classes) are not modelled, so list endpoints return rows in table order.
- Tag and author filters on recipes, and the search filters, are not modelled.
- Deleting accounts, tags or ingredients, and the cascades they trigger, are not modelled: no API operation of the core deletes them.
- The admin's counters (recipes_count, favorites_count and the rest), `display_cooking_time`, previews and the admin's HTML markup are not modelled.
- Concurrency is not modelled. `get_or_create` is atomic in the model, so the race between its lookup and its insert is not captured.
- Text.LowerChar maps only ASCII letters. This is exact for every comparison the core makes ("me", "1", "true", "t", "yes"). For the ingredient prefix match it ignores non-ASCII case mapping, which the database performs.
- UserValidators.MatchesUsernamePattern: `\w` is the parameter `isWord` rather than Python's Unicode word class.
- ShoppingList.Generate: the source orders lines by name only. Lines with the same name and different units therefore come in an order the database chooses, and the model fixes it as unit order. The comparison is code-point order, not the database collation.
- Store.CartRows: the multiplicity of repeated rows is stated per (name, unit), through the sums in `Store.CartRowsTotals`, and not row by row.
- Store.Database.CreateRecipe: `amount` and `cooking_time` are 32-bit `PositiveIntegerField` columns (backend/foodgram/models.py:141, 199), and the serializer sets no `max_value` (backend/api/serializers.py:105, 169). A value of 2^31 or more therefore passes validation and then fails in PostgreSQL with a DataError. The model's integers are unbounded, so it lets such a value through.
- Store.Database.UpdateRecipe: has the same 32-bit column gap as `CreateRecipe`.
- Store.Database.DownloadShoppingCart: the failure for an anonymous request is an error value. The exception type and the HTTP 500 it becomes are not modelled.
- Store.Database.IsSubscribed: `UserViewSet.retrieve` leaves the flag unset for anonymous visitors, and the serializer then defaults it; the model returns false in that case.
- Admin.CookingTimeFilter.Lookups: only the labels of the choices are stated; the titles are built but not specified.

## Findings

| source | as written | input that shows it | evidently intended | confidence | as-written member | corrected member |
|---|---|---|---|---|---|---|
| backend/api/filters.py:49-51 | `filter_is_in_shopping_cart` filters on `shoppingcart__user`. The reverse relation from Recipes to ShoppingCart is named `shoppingcarts`, from `default_related_name = '%(class)ss'` at backend/foodgram/models.py:247. That is the name backend/api/views.py:43 uses. | `GET /api/recipes/?is_in_shopping_cart=1` by any signed-in user: the unknown keyword `shoppingcart` raises a FieldError | keep exactly the recipes in the user's cart, like `filter_is_favorited` does with `favorites__user` | not executed | Filters.FilterIsInShoppingCartAsWritten (shown by Filters.CartFilterAsWrittenFails) | Filters.FilterIsInShoppingCart |
