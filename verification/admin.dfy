/**
 * The admin site's list filters and display columns
 * (backend/foodgram/admin.py): the cooking-time buckets, whose borders
 * lookups() stores on the filter object for queryset() to read, the
 * yes/no related-existence filter, and the string builders.
 */
module Admin {
  import opened Wrappers
  import opened Text
  import opened Models

  const ShortLabel: string := "short"
  const MediumLabel: string := "medium"
  const LongLabel: string := "long"

  /** The distinct cooking times among the recipes. */
  function DistinctTimes(recipes: seq<Recipe>): set<int> {
    set r | r in recipes :: r.cookingTime
  }

  /** Min('cooking_time'). */
  function MinTime(recipes: seq<Recipe>): (m: int)
    requires recipes != []
    ensures m in DistinctTimes(recipes)
    ensures forall r :: r in recipes ==> m <= r.cookingTime
  {
    if |recipes| == 1 then recipes[0].cookingTime
    else
      var rest := MinTime(recipes[1..]);
      assert forall r :: r in recipes[1..] ==> r in recipes;
      assert forall r :: r in recipes ==> r == recipes[0] || r in recipes[1..];
      if recipes[0].cookingTime <= rest then recipes[0].cookingTime else rest
  }

  /** Max('cooking_time'). */
  function MaxTime(recipes: seq<Recipe>): (m: int)
    requires recipes != []
    ensures m in DistinctTimes(recipes)
    ensures forall r :: r in recipes ==> r.cookingTime <= m
  {
    if |recipes| == 1 then recipes[0].cookingTime
    else
      var rest := MaxTime(recipes[1..]);
      assert forall r :: r in recipes[1..] ==> r in recipes;
      assert forall r :: r in recipes ==> r == recipes[0] || r in recipes[1..];
      if recipes[0].cookingTime >= rest then recipes[0].cookingTime else rest
  }

  /** The four borders: min, min + range // 3, min + 2 * range // 3, max. */
  datatype Borders = Borders(min: int, short: int, medium: int, max: int)

  function BordersOf(minTime: int, maxTime: int): Borders {
    var range := maxTime - minTime;
    Borders(minTime, minTime + range / 3, minTime + 2 * range / 3, maxTime)
  }

  /** With min <= max the borders are ordered. */
  lemma BordersOrdered(minTime: int, maxTime: int)
    requires minTime <= maxTime
    ensures var b := BordersOf(minTime, maxTime);
      b.min <= b.short <= b.medium <= b.max
  {
    var range := maxTime - minTime;
    assert range / 3 <= 2 * range / 3 <= range;
  }

  function Thresholds(b: Borders): map<string, (int, int)> {
    map[ShortLabel := (b.min, b.short), MediumLabel := (b.short, b.medium), LongLabel := (b.medium, b.max)]
  }

  /** The three inclusive ranges cover [min, max] without a gap, and meet at the borders. */
  lemma BucketsCover(minTime: int, maxTime: int, t: int)
    requires minTime <= maxTime && minTime <= t <= maxTime
    ensures exists key :: (key in Thresholds(BordersOf(minTime, maxTime))
      && Thresholds(BordersOf(minTime, maxTime))[key].0 <= t <= Thresholds(BordersOf(minTime, maxTime))[key].1)
    ensures var th := Thresholds(BordersOf(minTime, maxTime));
      th[ShortLabel].1 == th[MediumLabel].0 && th[MediumLabel].1 == th[LongLabel].0
      && th[ShortLabel].0 == minTime && th[LongLabel].1 == maxTime
  {
    var b := BordersOf(minTime, maxTime);
    var th := Thresholds(b);
    BordersOrdered(minTime, maxTime);
    if t <= b.short {
      assert th[ShortLabel].0 <= t <= th[ShortLabel].1;
    } else if t <= b.medium {
      assert th[MediumLabel].0 <= t <= th[MediumLabel].1;
    } else {
      assert th[LongLabel].0 <= t <= th[LongLabel].1;
    }
  }

  /** cooking_time__range: the recipes whose time lies in [lo, hi], in their order. */
  function InRange(recipes: seq<Recipe>, lo: int, hi: int): (kept: seq<Recipe>)
    ensures |kept| <= |recipes|
    ensures forall r :: r in kept <==> r in recipes && lo <= r.cookingTime <= hi
  {
    if recipes == [] then []
    else (if lo <= recipes[0].cookingTime <= hi then [recipes[0]] else []) + InRange(recipes[1..], lo, hi)
  }

  /** A recipe whose time is a shared border is kept by both buckets that meet there. */
  lemma BorderInTwoBuckets(recipes: seq<Recipe>, minTime: int, maxTime: int, r: Recipe)
    requires minTime <= maxTime && r in recipes
    requires r.cookingTime == BordersOf(minTime, maxTime).short
    ensures var th := Thresholds(BordersOf(minTime, maxTime));
      r in InRange(recipes, th[ShortLabel].0, th[ShortLabel].1)
      && r in InRange(recipes, th[MediumLabel].0, th[MediumLabel].1)
  {
    BordersOrdered(minTime, maxTime);
  }

  class CookingTimeFilter {
    /** The filter object's thresholds attribute; absent (empty) until lookups() sets it. */
    var thresholds: map<string, (int, int)>

    constructor ()
      ensures thresholds == map[]
    {
      thresholds := map[];
    }

    /**
     * lookups(): no choices with fewer than three distinct times; otherwise
     * stores the three ranges and offers the three labels with their titles.
     */
    method Lookups(recipes: seq<Recipe>) returns (choices: seq<(string, string)>)
      modifies this
      ensures |DistinctTimes(recipes)| < 3 ==> choices == [] && thresholds == old(thresholds)
      ensures |DistinctTimes(recipes)| >= 3 ==>
        && recipes != []
        && var b := BordersOf(MinTime(recipes), MaxTime(recipes));
        && b.min <= b.short <= b.medium <= b.max
        && thresholds == Thresholds(b)
        && |choices| == 3
        && choices[0].0 == ShortLabel && choices[1].0 == MediumLabel && choices[2].0 == LongLabel
    {
      if |DistinctTimes(recipes)| < 3 {
        return [];
      }
      var minTime := MinTime(recipes);
      var maxTime := MaxTime(recipes);
      var b := BordersOf(minTime, maxTime);
      BordersOrdered(minTime, maxTime);
      thresholds := Thresholds(b);
      choices := [
        (ShortLabel, "Быстрые (< " + IntToDecimal(b.short) + " мин)"),
        (MediumLabel, "Средние (" + IntToDecimal(b.short) + "–" + IntToDecimal(b.medium) + " мин)"),
        (LongLabel, "Долгие (> " + IntToDecimal(b.medium) + " мин)")
      ];
    }

    /** queryset(): a known label keeps its inclusive range; anything else is the identity. */
    function Queryset(value: Option<string>, recipes: seq<Recipe>): (kept: seq<Recipe>)
      reads this
      ensures value.None? || value.value !in thresholds ==> kept == recipes
      ensures value.Some? && value.value in thresholds ==>
        forall r :: r in kept <==>
          (r in recipes && thresholds[value.value].0 <= r.cookingTime <= thresholds[value.value].1)
    {
      if value.Some? && value.value in thresholds then
        InRange(recipes, thresholds[value.value].0, thresholds[value.value].1)
      else recipes
    }
  }

  /** The rows for which a predicate holds, in their order. */
  function KeepWhere<T(!new)>(rows: seq<T>, keep: T -> bool): (kept: seq<T>)
    ensures |kept| <= |rows|
    ensures forall x :: x in kept <==> x in rows && keep(x)
  {
    if rows == [] then []
    else (if keep(rows[0]) then [rows[0]] else []) + KeepWhere(rows[1..], keep)
  }

  /**
   * RelatedExistenceFilter.queryset: 'yes' keeps rows with related objects,
   * 'no' rows without; any other value is the identity.
   */
  function RelatedExistenceQueryset<T(!new)>(value: Option<string>, rows: seq<T>, hasRelated: T -> bool): (kept: seq<T>)
    ensures value == Some("yes") ==> forall x :: x in kept <==> x in rows && hasRelated(x)
    ensures value == Some("no") ==> forall x :: x in kept <==> x in rows && !hasRelated(x)
    ensures value != Some("yes") && value != Some("no") ==> kept == rows
    ensures |kept| <= |rows|
  {
    if value == Some("yes") then KeepWhere(rows, hasRelated)
    else if value == Some("no") then KeepWhere(rows, x => !hasRelated(x))
    else rows
  }

  /** The 'yes' and 'no' selections split the rows: every row lands in exactly one. */
  lemma RelatedExistencePartition<T(!new)>(rows: seq<T>, hasRelated: T -> bool, x: T)
    requires x in rows
    ensures (x in RelatedExistenceQueryset(Some("yes"), rows, hasRelated))
        != (x in RelatedExistenceQueryset(Some("no"), rows, hasRelated))
  {
  }

  /** full_name: first name, one space, last name. */
  function FullName(account: Account): (name: string)
    ensures |name| == |account.firstName| + 1 + |account.lastName|
    ensures name[..|account.firstName|] == account.firstName
    ensures name[|account.firstName|] == ' '
    ensures name[|account.firstName| + 1..] == account.lastName
  {
    account.firstName + " " + account.lastName
  }

  /** avatar_display: a thumbnail when an avatar file is set, else '-'. */
  function AvatarDisplay(account: Account): (html: string)
    ensures html == "-" <==> account.avatar.None? || account.avatar.value == ""
    ensures html != "-" ==> StartsWith(html, "<img src=\"" + account.avatar.value + "\"")
  {
    match account.avatar
    case Some(url) =>
      if url == "" then "-" else "<img src=\"" + url + "\" width=\"50\" height=\"50\" />"
    case None => "-"
  }

  /** One ingredients_list entry: "name — amount unit". */
  function IngredientEntry(ingredient: Ingredient, amount: int): (entry: string)
    ensures StartsWith(entry, ingredient.name + " — ")
    ensures EndsWith(entry, " " + ingredient.measurementUnit)
    ensures |entry| == |ingredient.name| + 3 + |IntToDecimal(amount)| + 1 + |ingredient.measurementUnit|
  {
    ingredient.name + " — " + IntToDecimal(amount) + " " + ingredient.measurementUnit
  }

  /** Between the name's " — " and the unit's " " the entry shows str(amount);
      for an amount that is not negative those characters are digits that read
      back as the amount. */
  lemma IngredientEntryShowsAmount(ingredient: Ingredient, amount: int)
    ensures var entry := IngredientEntry(ingredient, amount);
      entry[|ingredient.name| + 3 .. |entry| - |ingredient.measurementUnit| - 1] == IntToDecimal(amount)
    ensures amount >= 0 ==>
      var entry := IngredientEntry(ingredient, amount);
      var shown := entry[|ingredient.name| + 3 .. |entry| - |ingredient.measurementUnit| - 1];
      && (forall i :: 0 <= i < |shown| ==> IsDigit(shown[i]))
      && DecimalValue(shown) == amount
  {
    var entry := IngredientEntry(ingredient, amount);
    assert entry[|ingredient.name| + 3 .. |entry| - |ingredient.measurementUnit| - 1] == IntToDecimal(amount);
    if amount >= 0 {
      NatToDecimalRoundTrip(amount);
    }
  }

  /** The entries of a recipe's rows, in row order. */
  function Entries(ingredients: seq<Ingredient>, rows: seq<IngredientAmount>): (entries: seq<string>)
    requires forall i :: 0 <= i < |rows| ==> rows[i].ingredient < |ingredients|
    ensures |entries| == |rows|
    ensures forall i :: 0 <= i < |rows| ==>
      entries[i] == IngredientEntry(ingredients[rows[i].ingredient], rows[i].amount)
  {
    if rows == [] then []
    else [IngredientEntry(ingredients[rows[0].ingredient], rows[0].amount)] + Entries(ingredients, rows[1..])
  }

  /** ingredients_list: the entries joined by '<br>'. */
  function IngredientsList(ingredients: seq<Ingredient>, rows: seq<IngredientAmount>): (html: string)
    requires forall i :: 0 <= i < |rows| ==> rows[i].ingredient < |ingredients|
    ensures rows == [] ==> html == ""
    ensures |rows| == 1 ==> html == IngredientEntry(ingredients[rows[0].ingredient], rows[0].amount)
    ensures rows != [] ==> StartsWith(html, IngredientEntry(ingredients[rows[0].ingredient], rows[0].amount))
  {
    Join(Entries(ingredients, rows), "<br>")
  }

  /** One more row adds '<br>' and that row's entry at the end. */
  lemma IngredientsListSnoc(ingredients: seq<Ingredient>, rows: seq<IngredientAmount>, row: IngredientAmount)
    requires forall i :: 0 <= i < |rows| ==> rows[i].ingredient < |ingredients|
    requires row.ingredient < |ingredients| && rows != []
    ensures forall i :: 0 <= i < |rows + [row]| ==> (rows + [row])[i].ingredient < |ingredients|
    ensures IngredientsList(ingredients, rows + [row])
      == IngredientsList(ingredients, rows) + "<br>" + IngredientEntry(ingredients[row.ingredient], row.amount)
  {
    var extended := rows + [row];
    assert Entries(ingredients, extended) == Entries(ingredients, rows) + [IngredientEntry(ingredients[row.ingredient], row.amount)];
    JoinSnoc(Entries(ingredients, rows), IngredientEntry(ingredients[row.ingredient], row.amount), "<br>");
  }

  /** The list's length: every entry plus one '<br>' between neighbours. */
  lemma IngredientsListLength(ingredients: seq<Ingredient>, rows: seq<IngredientAmount>)
    requires forall i :: 0 <= i < |rows| ==> rows[i].ingredient < |ingredients|
    requires rows != []
    ensures |IngredientsList(ingredients, rows)| == TotalLength(Entries(ingredients, rows)) + 4 * (|rows| - 1)
  {
    JoinLength(Entries(ingredients, rows), "<br>");
  }

  /** tags_list: the tag names joined by '<br>'. */
  function TagsList(names: seq<string>): (html: string)
    ensures names == [] ==> html == ""
    ensures |names| == 1 ==> html == names[0]
    ensures names != [] ==> |html| == TotalLength(names) + 4 * (|names| - 1)
  {
    if names == [] then Join(names, "<br>")
    else
      JoinLength(names, "<br>");
      Join(names, "<br>")
  }

  /** One more tag adds '<br>' and that tag's name at the end; with the cases
      for zero and one name this fixes the whole text. */
  lemma TagsListSnoc(names: seq<string>, last: string)
    requires names != []
    ensures TagsList(names + [last]) == TagsList(names) + "<br>" + last
  {
    JoinSnoc(names, last, "<br>");
  }
}
