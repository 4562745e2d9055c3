/**
 * The load_ingredients management command
 * (backend/foodgram/management/commands/load_ingredients.py): refuse to
 * load into a non-empty table, classify each JSON item or CSV row, and
 * get_or_create an ingredient for every row that is kept, counting the
 * rows added and skipped. Reading and decoding the file are left to the
 * caller: the file arrives as what json.load and csv.reader would yield.
 */
module Loader {
  import opened Wrappers
  import opened Text
  import opened Models
  import Store

  /** One element of the JSON array: a key that is absent reads as the empty string. */
  datatype JsonItem = JsonItem(name: Option<string>, measurementUnit: Option<string>)

  /** One row to import, in the form its reader produced it. */
  datatype RawRow = JsonRow(item: JsonItem) | CsvRow(fields: seq<string>)

  /**
   * The file as the two readers would see it: None for the reader that
   * fails to decode it (JSONDecodeError or UnicodeDecodeError).
   */
  datatype FileContents = FileContents(asJson: Option<seq<JsonItem>>, asCsv: Option<seq<seq<string>>>)

  datatype Decision = Accept(name: string, unit: string) | Skip

  datatype Outcome =
    | AlreadyLoaded(count: nat)
    | FileNotFound
    | UnsupportedExtension
    | ReadError
    | NameConflict(name: string)
    | Loaded(added: nat, skipped: nat)

  /** Keep a row iff both stripped fields are non-empty. */
  function Keep(name: string, unit: string): (d: Decision)
    ensures d.Skip? <==> AllSpace(name) || AllSpace(unit)
    ensures d.Accept? ==> d.name == Strip(name) && d.unit == Strip(unit) && d.name != [] && d.unit != []
  {
    StripEmpty(name);
    StripEmpty(unit);
    var n := Strip(name);
    var u := Strip(unit);
    if n == [] || u == [] then Skip else Accept(n, u)
  }

  /** The loop body's classification: a CSV row also needs at least two fields. */
  function Classify(row: RawRow): (d: Decision)
    ensures row.JsonRow? ==>
      (d.Skip? <==> AllSpace(row.item.name.GetOr("")) || AllSpace(row.item.measurementUnit.GetOr("")))
    ensures row.JsonRow? && d.Accept? ==>
      d.name == Strip(row.item.name.GetOr("")) && d.unit == Strip(row.item.measurementUnit.GetOr(""))
    ensures row.CsvRow? ==> (d.Skip? <==> |row.fields| < 2 || AllSpace(row.fields[0]) || AllSpace(row.fields[1]))
    ensures row.CsvRow? && d.Accept? ==> d.name == Strip(row.fields[0]) && d.unit == Strip(row.fields[1])
    ensures d.Accept? ==> d.name != [] && d.unit != []
  {
    match row
    case JsonRow(item) => Keep(item.name.GetOr(""), item.measurementUnit.GetOr(""))
    case CsvRow(fields) => if |fields| < 2 then Skip else Keep(fields[0], fields[1])
  }

  predicate HasName(table: seq<Ingredient>, name: string) {
    exists i :: 0 <= i < |table| && table[i].name == name
  }

  /**
   * Ingredients.objects.get_or_create(name=..., measurement_unit=...): the
   * existing row, or a new one; a new row whose name is already taken
   * violates unique=True on name (an IntegrityError the command does not catch).
   */
  function GetOrCreate(table: seq<Ingredient>, name: string, unit: string): (r: Result<seq<Ingredient>, string>)
    ensures r.Ok? ==> Ingredient(name, unit) in r.value
    ensures r.Ok? && Ingredient(name, unit) in table ==> r.value == table
    ensures r.Ok? && Ingredient(name, unit) !in table ==> r.value == table + [Ingredient(name, unit)]
    ensures r.Err? <==> Ingredient(name, unit) !in table && HasName(table, name)
    ensures r.Err? ==> r.error == name
  {
    if Ingredient(name, unit) in table then Ok(table)
    else if HasName(table, name) then Err(name)
    else Ok(table + [Ingredient(name, unit)])
  }

  lemma GetOrCreateUnique(table: seq<Ingredient>, name: string, unit: string)
    requires UniqueIngredientNames(table)
    ensures GetOrCreate(table, name, unit).Ok? ==> UniqueIngredientNames(GetOrCreate(table, name, unit).value)
  {
  }

  /** The counters and the table after some rows; a conflict stops the command. */
  datatype RunState = RunState(table: seq<Ingredient>, added: nat, skipped: nat, conflict: Option<string>)

  /** One pass of the loop body. */
  function Step(s: RunState, row: RawRow): RunState {
    if s.conflict.Some? then s
    else
      match Classify(row)
      case Skip => s.(skipped := s.skipped + 1)
      case Accept(name, unit) =>
        match GetOrCreate(s.table, name, unit)
        case Ok(t) => s.(table := t, added := s.added + 1)
        case Err(n) => s.(conflict := Some(n))
  }

  /** The state after the rows, processed first to last. */
  function Run(table: seq<Ingredient>, rows: seq<RawRow>): RunState
    decreases |rows|
  {
    if rows == [] then RunState(table, 0, 0, None)
    else Step(Run(table, rows[..|rows| - 1]), rows[|rows| - 1])
  }

  /** A stopped run stays stopped; otherwise exactly one counter moves or the run stops; the table grows by at most one row. */
  lemma StepFacts(s: RunState, row: RawRow)
    ensures var r := Step(s, row);
      && (s.conflict.Some? ==> r == s)
      && (s.conflict.None? && r.conflict.None? ==>
            r.added + r.skipped == s.added + s.skipped + 1 && (r.skipped == s.skipped + 1 <==> Classify(row).Skip?))
      && (s.conflict.None? && r.conflict.Some? ==> Classify(row).Accept? && r.added == s.added && r.skipped == s.skipped)
      && |s.table| <= |r.table| <= |s.table| + 1 && r.table[..|s.table|] == s.table
  {
  }

  /** The counters never exceed the number of rows, nor does the table grow by more. */
  lemma {:induction false} RunBounds(table: seq<Ingredient>, rows: seq<RawRow>)
    ensures Run(table, rows).added + Run(table, rows).skipped <= |rows|
    ensures |Run(table, rows).table| <= |table| + |rows|
    decreases |rows|
  {
    if rows != [] {
      RunBounds(table, rows[..|rows| - 1]);
      StepFacts(Run(table, rows[..|rows| - 1]), rows[|rows| - 1]);
    }
  }

  function SkipCount(rows: seq<RawRow>): nat {
    if rows == [] then 0
    else SkipCount(rows[..|rows| - 1]) + (if Classify(rows[|rows| - 1]).Skip? then 1 else 0)
  }

  /**
   * Without a conflict every row bumps exactly one counter, the skipped
   * counter counts the rows classified Skip, and each kept row's
   * (name, unit) is in the table, which only grew.
   */
  lemma {:induction false} RunCounts(table: seq<Ingredient>, rows: seq<RawRow>)
    ensures var s := Run(table, rows);
      s.conflict.None? ==>
        && s.added + s.skipped == |rows|
        && s.skipped == SkipCount(rows)
        && (forall i :: 0 <= i < |rows| && Classify(rows[i]).Accept? ==>
              Ingredient(Classify(rows[i]).name, Classify(rows[i]).unit) in s.table)
    ensures |table| <= |Run(table, rows).table| && Run(table, rows).table[..|table|] == table
  {
    if rows != [] {
      var init := rows[..|rows| - 1];
      RunCounts(table, init);
      var s := Run(table, init);
      var last := rows[|rows| - 1];
      if s.conflict.None? && Classify(last).Accept? {
        var d := Classify(last);
        var r := GetOrCreate(s.table, d.name, d.unit);
        if r.Ok? {
          forall x | x in s.table ensures x in r.value {
          }
        }
      }
      assert forall i :: 0 <= i < |init| ==> rows[i] == init[i];
    }
  }

  /** Names stay unique: repeated identical rows never create a second ingredient. */
  lemma {:induction false} RunUnique(table: seq<Ingredient>, rows: seq<RawRow>)
    requires UniqueIngredientNames(table)
    ensures UniqueIngredientNames(Run(table, rows).table)
  {
    if rows != [] {
      var s := Run(table, rows[..|rows| - 1]);
      RunUnique(table, rows[..|rows| - 1]);
      if s.conflict.None? && Classify(rows[|rows| - 1]).Accept? {
        var d := Classify(rows[|rows| - 1]);
        GetOrCreateUnique(s.table, d.name, d.unit);
      }
    }
  }

  /** A kept row repeated right away leaves the table as it was, yet counts as added again. */
  lemma RepeatedRowCounted(table: seq<Ingredient>, rows: seq<RawRow>, row: RawRow)
    requires Run(table, rows + [row]).conflict.None? && Classify(row).Accept?
    ensures Run(table, rows + [row, row]).conflict.None?
    ensures Run(table, rows + [row, row]).table == Run(table, rows + [row]).table
    ensures Run(table, rows + [row, row]).added == Run(table, rows + [row]).added + 1
  {
    assert (rows + [row, row])[..|rows + [row, row]| - 1] == rows + [row];
    assert (rows + [row])[..|rows + [row]| - 1] == rows;
  }

  /** Once a conflict is raised, later rows change nothing. */
  lemma {:induction false} RunConflictStops(table: seq<Ingredient>, rows: seq<RawRow>, n: nat)
    requires n <= |rows| && Run(table, rows[..n]).conflict.Some?
    ensures Run(table, rows) == Run(table, rows[..n])
    decreases |rows| - n
  {
    if n < |rows| {
      assert rows[..n + 1][..n] == rows[..n];
      RunConflictStops(table, rows, n + 1);
    } else {
      assert rows[..n] == rows;
    }
  }

  /** The rows the command will iterate, or the error it raises before the loop. */
  function Plan(path: string, file: Option<FileContents>): (r: Result<seq<RawRow>, Outcome>)
    ensures r.Err? ==> r.error in {FileNotFound, UnsupportedExtension, ReadError}
    ensures file.None? ==> r == Err(FileNotFound)
    ensures r == Err(ReadError) <==>
      file.Some? && ((EndsWith(path, ".json") && file.value.asJson.None?)
                     || (!EndsWith(path, ".json") && EndsWith(path, ".csv") && file.value.asCsv.None?))
    ensures r.Ok? ==> file.Some? && (EndsWith(path, ".json") || EndsWith(path, ".csv"))
    ensures file.Some? && !EndsWith(path, ".json") && !EndsWith(path, ".csv") ==> r == Err(UnsupportedExtension)
    ensures file.Some? && EndsWith(path, ".json") && file.value.asJson.Some? ==>
      r.Ok? && |r.value| == |file.value.asJson.value|
      && forall i :: 0 <= i < |r.value| ==> r.value[i] == JsonRow(file.value.asJson.value[i])
    ensures file.Some? && !EndsWith(path, ".json") && EndsWith(path, ".csv") && file.value.asCsv.Some? ==>
      r.Ok? && |r.value| == |file.value.asCsv.value|
      && forall i :: 0 <= i < |r.value| ==> r.value[i] == CsvRow(file.value.asCsv.value[i])
  {
    if file.None? then Err(FileNotFound)
    else if EndsWith(path, ".json") then
      match file.value.asJson
      case None => Err(ReadError)
      case Some(items) => Ok(seq(|items|, i requires 0 <= i < |items| => JsonRow(items[i])))
    else if EndsWith(path, ".csv") then
      match file.value.asCsv
      case None => Err(ReadError)
      case Some(rows) => Ok(seq(|rows|, i requires 0 <= i < |rows| => CsvRow(rows[i])))
    else Err(UnsupportedExtension)
  }

  function Finish(s: RunState): Outcome {
    match s.conflict
    case Some(n) => NameConflict(n)
    case None => Loaded(s.added, s.skipped)
  }

  /** Growing the ingredient table with unique names keeps the schema consistent. */
  lemma GrowIngredients(db: Db, table: seq<Ingredient>, minAmount: int, minCookingTime: int)
    requires Consistent(db, minAmount, minCookingTime)
    requires |db.ingredients| <= |table| && UniqueIngredientNames(table)
    ensures Consistent(db.(ingredients := table), minAmount, minCookingTime)
  {
    var db' := db.(ingredients := table);
    forall id | id in db'.recipes ensures RecipeOk(db', id, minCookingTime) {
      assert RecipeOk(db, id, minCookingTime);
    }
    forall i | 0 <= i < |db'.amounts| ensures AmountOk(db', db'.amounts[i], minAmount) {
      assert AmountOk(db, db.amounts[i], minAmount);
    }
  }

  /** The row loop: classify, get_or_create, count; an IntegrityError ends it. */
  method ImportRows(db: Store.Database, rows: seq<RawRow>) returns (outcome: Outcome)
    requires db.Valid()
    modifies db
    ensures db.Valid()
    ensures db.ingredients == Run(old(db.ingredients), rows).table
    ensures outcome == Finish(Run(old(db.ingredients), rows))
    ensures db.Snapshot() == old(db.Snapshot()).(ingredients := db.ingredients)
  {
    ghost var start := db.ingredients;
    var added, skipped := 0, 0;
    var i := 0;
    while i < |rows|
      invariant 0 <= i <= |rows|
      invariant db.Valid()
      invariant db.Snapshot() == old(db.Snapshot()).(ingredients := db.ingredients)
      invariant Run(start, rows[..i]) == RunState(db.ingredients, added, skipped, None)
    {
      assert rows[..i + 1][..i] == rows[..i];
      match Classify(rows[i]) {
        case Skip =>
          skipped := skipped + 1;
        case Accept(name, unit) =>
          var r := GetOrCreate(db.ingredients, name, unit);
          if r.Err? {
            RunConflictStops(start, rows, i + 1);
            return NameConflict(r.error);
          }
          GetOrCreateUnique(db.ingredients, name, unit);
          GrowIngredients(db.Snapshot(), r.value, db.minAmount, db.minCookingTime);
          db.ingredients := r.value;
          added := added + 1;
      }
      i := i + 1;
    }
    assert rows[..i] == rows;
    return Loaded(added, skipped);
  }

  /** Command.handle. */
  method Handle(db: Store.Database, path: string, file: Option<FileContents>) returns (outcome: Outcome)
    requires db.Valid()
    modifies db
    ensures db.Valid()
    ensures db.Snapshot() == old(db.Snapshot()).(ingredients := db.ingredients)
    ensures old(db.ingredients) != [] ==> outcome == AlreadyLoaded(|old(db.ingredients)|) && db.ingredients == old(db.ingredients)
    ensures old(db.ingredients) == [] ==>
      var plan := Plan(path, file);
      && (plan.Err? ==> outcome == plan.error && db.ingredients == [])
      && (plan.Ok? ==> db.ingredients == Run([], plan.value).table && outcome == Finish(Run([], plan.value)))
  {
    if db.ingredients != [] {
      return AlreadyLoaded(|db.ingredients|);
    }
    var plan := Plan(path, file);
    if plan.Err? {
      return plan.error;
    }
    outcome := ImportRows(db, plan.value);
  }
}
