/**
 * generate_shopping_list (backend/api/views.py) as a pure computation: the
 * cart's junction rows are grouped by (ingredient name, measurement unit),
 * their amounts summed, the groups ordered by name and numbered from 1; the
 * header lists the cart's recipes ordered by name. The date is an input.
 */
module ShoppingList {

  /** One junction row of a recipe in the cart, joined with its ingredient. */
  datatype Row = Row(name: string, unit: string, amount: int)

  /** One group of the aggregate: values('ingredient__name', ...).annotate(total_amount=Sum(...)). */
  datatype Line = Line(name: string, unit: string, total: int)

  datatype NumberedLine = NumberedLine(index: nat, line: Line)

  datatype Date = Date(day: nat, month: nat, year: nat)

  datatype Document = Document(date: Date, recipes: seq<string>, lines: seq<NumberedLine>)

  // ---- String order (code-point lexicographic) ----

  /** a sorts strictly before b. */
  predicate Before(a: string, b: string) {
    if a == [] then b != []
    else if b == [] then false
    else if a[0] != b[0] then a[0] < b[0]
    else Before(a[1..], b[1..])
  }

  lemma {:induction false} BeforeIrreflexive(a: string)
    ensures !Before(a, a)
  {
    if a != [] {
      BeforeIrreflexive(a[1..]);
    }
  }

  lemma {:induction false} BeforeTransitive(a: string, b: string, c: string)
    requires Before(a, b) && Before(b, c)
    ensures Before(a, c)
  {
    if a != [] && b != [] && c != [] && a[0] == b[0] && b[0] == c[0] {
      BeforeTransitive(a[1..], b[1..], c[1..]);
    }
  }

  lemma {:induction false} BeforeTotal(a: string, b: string)
    ensures a == b || Before(a, b) || Before(b, a)
  {
    if a != [] && b != [] && a[0] == b[0] {
      BeforeTotal(a[1..], b[1..]);
      if a[1..] == b[1..] {
        assert a == [a[0]] + a[1..] && b == [b[0]] + b[1..];
      }
    }
  }

  lemma BeforeAsymmetric(a: string, b: string)
    requires Before(a, b)
    ensures !Before(b, a)
  {
    if Before(b, a) {
      BeforeTransitive(a, b, a);
      BeforeIrreflexive(a);
    }
  }

  // ---- Keys and the grouping ----

  function RowKey(row: Row): (string, string) { (row.name, row.unit) }

  function LineKey(line: Line): (string, string) { (line.name, line.unit) }

  /** Order of the groups: by name, and by unit among equal names. */
  predicate KeyBefore(k1: (string, string), k2: (string, string)) {
    Before(k1.0, k2.0) || (k1.0 == k2.0 && Before(k1.1, k2.1))
  }

  lemma KeyBeforeTransitive(k1: (string, string), k2: (string, string), k3: (string, string))
    requires KeyBefore(k1, k2) && KeyBefore(k2, k3)
    ensures KeyBefore(k1, k3)
  {
    if Before(k1.0, k2.0) && Before(k2.0, k3.0) {
      BeforeTransitive(k1.0, k2.0, k3.0);
    } else if k1.0 == k2.0 && k2.0 == k3.0 {
      BeforeTransitive(k1.1, k2.1, k3.1);
    }
  }

  lemma KeyBeforeTotal(k1: (string, string), k2: (string, string))
    ensures k1 == k2 || KeyBefore(k1, k2) || KeyBefore(k2, k1)
  {
    BeforeTotal(k1.0, k2.0);
    BeforeTotal(k1.1, k2.1);
  }

  lemma KeyBeforeIrreflexive(k: (string, string))
    ensures !KeyBefore(k, k)
  {
    BeforeIrreflexive(k.0);
    BeforeIrreflexive(k.1);
  }

  /** Each line's key strictly before the next: sorted, and no key twice. */
  ghost predicate StrictlySorted(lines: seq<Line>) {
    forall i, j :: 0 <= i < j < |lines| ==> KeyBefore(LineKey(lines[i]), LineKey(lines[j]))
  }

  function Keys(lines: seq<Line>): set<(string, string)> {
    set i | 0 <= i < |lines| :: LineKey(lines[i])
  }

  function RowKeys(rows: seq<Row>): set<(string, string)> {
    set i | 0 <= i < |rows| :: RowKey(rows[i])
  }

  /** The summed amount of the rows with key k. */
  function SumFor(rows: seq<Row>, k: (string, string)): int {
    if rows == [] then 0 else (if RowKey(rows[0]) == k then rows[0].amount else 0) + SumFor(rows[1..], k)
  }

  /** The total of the line with key k, or 0 when there is none. */
  function TotalFor(lines: seq<Line>, k: (string, string)): int {
    if lines == [] then 0 else if LineKey(lines[0]) == k then lines[0].total else TotalFor(lines[1..], k)
  }

  function SumAmounts(rows: seq<Row>): int {
    if rows == [] then 0 else rows[0].amount + SumAmounts(rows[1..])
  }

  function SumTotals(lines: seq<Line>): int {
    if lines == [] then 0 else lines[0].total + SumTotals(lines[1..])
  }

  lemma {:induction false} TotalForAbsent(lines: seq<Line>, k: (string, string))
    requires k !in Keys(lines)
    ensures TotalFor(lines, k) == 0
  {
    if lines != [] {
      assert Keys(lines[1..]) <= Keys(lines) by {
        forall x | x in Keys(lines[1..]) ensures x in Keys(lines) {
          var i :| 0 <= i < |lines[1..]| && LineKey(lines[1..][i]) == x;
          assert lines[i + 1] == lines[1..][i];
        }
      }
      assert LineKey(lines[0]) in Keys(lines);
      TotalForAbsent(lines[1..], k);
    }
  }

  /** Adds one row to sorted groups: into its group, or as a new group in its place. */
  function Insert(lines: seq<Line>, row: Row): (r: seq<Line>)
    ensures |lines| <= |r| <= |lines| + 1
  {
    if lines == [] then [Line(row.name, row.unit, row.amount)]
    else if LineKey(lines[0]) == RowKey(row) then [lines[0].(total := lines[0].total + row.amount)] + lines[1..]
    else if KeyBefore(RowKey(row), LineKey(lines[0])) then [Line(row.name, row.unit, row.amount)] + lines
    else [lines[0]] + Insert(lines[1..], row)
  }

  /** The grouped, summed and ordered lines. */
  function Group(rows: seq<Row>): (lines: seq<Line>)
    ensures |lines| <= |rows|
    ensures rows != [] ==> lines != []
  {
    if rows == [] then [] else Insert(Group(rows[1..]), rows[0])
  }

  lemma KeysCons(line: Line, lines: seq<Line>)
    ensures Keys([line] + lines) == {LineKey(line)} + Keys(lines)
  {
    var r := [line] + lines;
    forall k | k in Keys(r) ensures k in {LineKey(line)} + Keys(lines) {
      var i :| 0 <= i < |r| && LineKey(r[i]) == k;
      if i > 0 { assert r[i] == lines[i - 1]; }
    }
    forall k | k in Keys(lines) ensures k in Keys(r) {
      var i :| 0 <= i < |lines| && LineKey(lines[i]) == k;
      assert r[i + 1] == lines[i];
    }
    assert LineKey(r[0]) == LineKey(line);
  }

  lemma TailStrictlySorted(lines: seq<Line>)
    requires StrictlySorted(lines) && lines != []
    ensures StrictlySorted(lines[1..])
    ensures forall k :: k in Keys(lines[1..]) ==> KeyBefore(LineKey(lines[0]), k)
  {
    var tail := lines[1..];
    forall i, j | 0 <= i < j < |tail| ensures KeyBefore(LineKey(tail[i]), LineKey(tail[j])) {
      assert tail[i] == lines[i + 1] && tail[j] == lines[j + 1];
    }
    forall k | k in Keys(tail) ensures KeyBefore(LineKey(lines[0]), k) {
      var n :| 0 <= n < |tail| && LineKey(tail[n]) == k;
      assert tail[n] == lines[n + 1];
    }
  }

  /** A head whose key is before every other key keeps the lines strictly sorted. */
  lemma ConsStrictlySorted(line: Line, rest: seq<Line>)
    requires StrictlySorted(rest)
    requires forall k :: k in Keys(rest) ==> KeyBefore(LineKey(line), k)
    ensures StrictlySorted([line] + rest)
  {
    var r := [line] + rest;
    forall i, j | 0 <= i < j < |r| ensures KeyBefore(LineKey(r[i]), LineKey(r[j])) {
      assert r[j] == rest[j - 1];
      assert LineKey(rest[j - 1]) in Keys(rest);
      if i > 0 {
        assert r[i] == rest[i - 1];
      }
    }
  }

  lemma {:induction false} InsertKeys(lines: seq<Line>, row: Row)
    ensures Keys(Insert(lines, row)) == Keys(lines) + {RowKey(row)}
  {
    var line := Line(row.name, row.unit, row.amount);
    if lines == [] {
      assert Keys([line]) == {RowKey(row)} by { KeysCons(line, []); }
    } else if LineKey(lines[0]) == RowKey(row) {
      KeysCons(lines[0], lines[1..]);
      KeysCons(lines[0].(total := lines[0].total + row.amount), lines[1..]);
      assert lines == [lines[0]] + lines[1..];
    } else if KeyBefore(RowKey(row), LineKey(lines[0])) {
      KeysCons(line, lines);
    } else {
      InsertKeys(lines[1..], row);
      KeysCons(lines[0], lines[1..]);
      KeysCons(lines[0], Insert(lines[1..], row));
      assert lines == [lines[0]] + lines[1..];
    }
  }

  lemma {:induction false} InsertSorted(lines: seq<Line>, row: Row)
    requires StrictlySorted(lines)
    ensures StrictlySorted(Insert(lines, row))
  {
    var line := Line(row.name, row.unit, row.amount);
    if lines == [] {
    } else if LineKey(lines[0]) == RowKey(row) {
      TailStrictlySorted(lines);
      ConsStrictlySorted(lines[0].(total := lines[0].total + row.amount), lines[1..]);
    } else if KeyBefore(RowKey(row), LineKey(lines[0])) {
      KeysCons(lines[0], lines[1..]);
      assert lines == [lines[0]] + lines[1..];
      TailStrictlySorted(lines);
      forall k | k in Keys(lines) ensures KeyBefore(RowKey(row), k) {
        if k != LineKey(lines[0]) {
          KeyBeforeTransitive(RowKey(row), LineKey(lines[0]), k);
        }
      }
      ConsStrictlySorted(line, lines);
    } else {
      KeyBeforeTotal(RowKey(row), LineKey(lines[0]));
      TailStrictlySorted(lines);
      InsertSorted(lines[1..], row);
      InsertKeys(lines[1..], row);
      ConsStrictlySorted(lines[0], Insert(lines[1..], row));
    }
  }

  lemma {:induction false} InsertTotals(lines: seq<Line>, row: Row, k: (string, string))
    requires StrictlySorted(lines)
    ensures TotalFor(Insert(lines, row), k) == TotalFor(lines, k) + (if k == RowKey(row) then row.amount else 0)
  {
    if lines == [] {
    } else if LineKey(lines[0]) == RowKey(row) {
    } else if KeyBefore(RowKey(row), LineKey(lines[0])) {
      if k == RowKey(row) {
        TailStrictlySorted(lines);
        KeysCons(lines[0], lines[1..]);
        assert lines == [lines[0]] + lines[1..];
        assert k !in Keys(lines) by {
          KeyBeforeIrreflexive(k);
          if k in Keys(lines[1..]) {
            KeyBeforeTransitive(k, LineKey(lines[0]), k);
          }
        }
        TotalForAbsent(lines, k);
      }
    } else {
      TailStrictlySorted(lines);
      InsertTotals(lines[1..], row, k);
    }
  }

  lemma {:induction false} InsertSum(lines: seq<Line>, row: Row)
    ensures SumTotals(Insert(lines, row)) == SumTotals(lines) + row.amount
  {
    if lines != [] && LineKey(lines[0]) != RowKey(row) && !KeyBefore(RowKey(row), LineKey(lines[0])) {
      InsertSum(lines[1..], row);
    }
  }

  /** Grouping yields sorted lines with exactly the row keys, the right totals and the full sum. */
  lemma {:induction false} GroupFacts(rows: seq<Row>)
    ensures StrictlySorted(Group(rows))
    ensures Keys(Group(rows)) == RowKeys(rows)
    ensures forall k :: TotalFor(Group(rows), k) == SumFor(rows, k)
    ensures SumTotals(Group(rows)) == SumAmounts(rows)
  {
    if rows != [] {
      GroupFacts(rows[1..]);
      InsertSorted(Group(rows[1..]), rows[0]);
      InsertKeys(Group(rows[1..]), rows[0]);
      InsertSum(Group(rows[1..]), rows[0]);
      forall k ensures TotalFor(Group(rows), k) == SumFor(rows, k) {
        InsertTotals(Group(rows[1..]), rows[0], k);
      }
      assert RowKeys(rows) == RowKeys(rows[1..]) + {RowKey(rows[0])} by {
        forall k | k in RowKeys(rows) ensures k in RowKeys(rows[1..]) + {RowKey(rows[0])} {
          var i :| 0 <= i < |rows| && RowKey(rows[i]) == k;
          if i > 0 { assert rows[i] == rows[1..][i - 1]; }
        }
        forall k | k in RowKeys(rows[1..]) ensures k in RowKeys(rows) {
          var i :| 0 <= i < |rows[1..]| && RowKey(rows[1..][i]) == k;
          assert rows[i + 1] == rows[1..][i];
        }
      }
    }
  }

  /** In strictly sorted lines, the total of a line is the total recorded for its key. */
  lemma {:induction false} TotalForLine(lines: seq<Line>, i: nat)
    requires StrictlySorted(lines) && i < |lines|
    ensures TotalFor(lines, LineKey(lines[i])) == lines[i].total
  {
    if i > 0 {
      KeyBeforeIrreflexive(LineKey(lines[0]));
      assert KeyBefore(LineKey(lines[0]), LineKey(lines[i]));
      var tail := lines[1..];
      assert StrictlySorted(tail) by {
        forall a, b | 0 <= a < b < |tail| ensures KeyBefore(LineKey(tail[a]), LineKey(tail[b])) {
          assert tail[a] == lines[a + 1] && tail[b] == lines[b + 1];
        }
      }
      TotalForLine(tail, i - 1);
    }
  }

  /** enumerate(lines, start=1) */
  function Enumerate(lines: seq<Line>): (numbered: seq<NumberedLine>)
    ensures |numbered| == |lines|
    ensures forall i :: 0 <= i < |lines| ==> numbered[i] == NumberedLine(i + 1, lines[i])
  {
    seq(|lines|, i requires 0 <= i < |lines| => NumberedLine(i + 1, lines[i]))
  }

  // ---- The header: recipe names ordered by name ----

  ghost predicate NamesSorted(names: seq<string>) {
    forall i, j :: 0 <= i < j < |names| ==> !Before(names[j], names[i])
  }

  function InsertName(sorted: seq<string>, name: string): seq<string> {
    if sorted == [] then [name]
    else if Before(sorted[0], name) then [sorted[0]] + InsertName(sorted[1..], name)
    else [name] + sorted
  }

  /** order_by('name') on the cart's recipes. */
  function SortNames(names: seq<string>): seq<string> {
    if names == [] then [] else InsertName(SortNames(names[1..]), names[0])
  }

  lemma {:induction false} InsertNameMultiset(sorted: seq<string>, name: string)
    ensures multiset(InsertName(sorted, name)) == multiset(sorted) + multiset{name}
  {
    if sorted != [] && Before(sorted[0], name) {
      InsertNameMultiset(sorted[1..], name);
      assert sorted == [sorted[0]] + sorted[1..];
    }
  }

  lemma TailSorted(sorted: seq<string>)
    requires NamesSorted(sorted) && sorted != []
    ensures NamesSorted(sorted[1..])
    ensures forall x :: x in sorted[1..] ==> !Before(x, sorted[0])
  {
    var tail := sorted[1..];
    forall i, j | 0 <= i < j < |tail| ensures !Before(tail[j], tail[i]) {
      assert tail[i] == sorted[i + 1] && tail[j] == sorted[j + 1];
    }
    forall x | x in tail ensures !Before(x, sorted[0]) {
      var n :| 0 <= n < |tail| && tail[n] == x;
      assert tail[n] == sorted[n + 1];
    }
  }

  /** A head that sorts before none of the rest keeps the sequence sorted. */
  lemma ConsSorted(head: string, rest: seq<string>)
    requires NamesSorted(rest)
    requires forall x :: x in rest ==> !Before(x, head)
    ensures NamesSorted([head] + rest)
  {
    var r := [head] + rest;
    forall i, j | 0 <= i < j < |r| ensures !Before(r[j], r[i]) {
      assert r[j] == rest[j - 1];
      if i > 0 {
        assert r[i] == rest[i - 1];
      }
    }
  }

  lemma {:induction false} InsertNameSorted(sorted: seq<string>, name: string)
    requires NamesSorted(sorted)
    ensures NamesSorted(InsertName(sorted, name))
  {
    if sorted == [] {
    } else if Before(sorted[0], name) {
      TailSorted(sorted);
      InsertNameSorted(sorted[1..], name);
      InsertNameMultiset(sorted[1..], name);
      var rest := InsertName(sorted[1..], name);
      forall x | x in rest ensures !Before(x, sorted[0]) {
        assert x in multiset(rest);
        if x == name {
          BeforeAsymmetric(sorted[0], name);
        } else {
          assert x in multiset(sorted[1..]);
        }
      }
      ConsSorted(sorted[0], rest);
    } else {
      TailSorted(sorted);
      forall x | x in sorted ensures !Before(x, name) {
        BeforeTotal(sorted[0], name);
        if x != sorted[0] && Before(x, name) {
          assert x in sorted[1..] by {
            var n :| 0 <= n < |sorted| && sorted[n] == x;
            assert n > 0;
            assert sorted[1..][n - 1] == x;
          }
          if sorted[0] != name {
            BeforeTransitive(x, name, sorted[0]);
          }
        }
      }
      ConsSorted(name, sorted);
    }
  }

  /** The header is the cart's recipe names, each as often as it occurs, in name order. */
  lemma {:induction false} SortNamesFacts(names: seq<string>)
    ensures NamesSorted(SortNames(names))
    ensures multiset(SortNames(names)) == multiset(names)
  {
    if names != [] {
      SortNamesFacts(names[1..]);
      InsertNameSorted(SortNames(names[1..]), names[0]);
      InsertNameMultiset(SortNames(names[1..]), names[0]);
      assert names == [names[0]] + names[1..];
    }
  }

  /** The document the template renders. */
  function Generate(rows: seq<Row>, recipeNames: seq<string>, date: Date): (doc: Document)
    ensures doc.date == date
    ensures rows == [] ==> doc.lines == []
  {
    Document(date, SortNames(recipeNames), Enumerate(Group(rows)))
  }

  /**
   * What the list promises: one line per distinct (name, unit) of the cart's
   * rows, each with the sum of those rows' amounts; lines ordered by name and
   * numbered 1, 2, ...; the totals add up to all the amounts; the header holds
   * the cart's recipe names in order.
   */
  lemma GenerateSpec(rows: seq<Row>, recipeNames: seq<string>, date: Date)
    ensures var doc := Generate(rows, recipeNames, date);
      && (forall i :: 0 <= i < |doc.lines| ==> doc.lines[i].index == i + 1)
      && (forall k :: k in RowKeys(rows) <==> exists i :: 0 <= i < |doc.lines| && LineKey(doc.lines[i].line) == k)
      && (forall i, j :: 0 <= i < j < |doc.lines| ==> LineKey(doc.lines[i].line) != LineKey(doc.lines[j].line))
      && (forall i :: 0 <= i < |doc.lines| ==> doc.lines[i].line.total == SumFor(rows, LineKey(doc.lines[i].line)))
      && (forall i, j :: 0 <= i < j < |doc.lines| ==> !Before(doc.lines[j].line.name, doc.lines[i].line.name))
      && SumTotals(Group(rows)) == SumAmounts(rows)
      && NamesSorted(doc.recipes) && multiset(doc.recipes) == multiset(recipeNames)
  {
    var lines := Group(rows);
    GroupFacts(rows);
    SortNamesFacts(recipeNames);
    var doc := Generate(rows, recipeNames, date);
    forall k | k in RowKeys(rows) ensures exists i :: 0 <= i < |doc.lines| && LineKey(doc.lines[i].line) == k {
      assert k in Keys(lines);
      var i :| 0 <= i < |lines| && LineKey(lines[i]) == k;
      assert doc.lines[i].line == lines[i];
    }
    forall i, j | 0 <= i < j < |doc.lines| ensures LineKey(doc.lines[i].line) != LineKey(doc.lines[j].line) {
      assert KeyBefore(LineKey(lines[i]), LineKey(lines[j]));
      KeyBeforeIrreflexive(LineKey(lines[i]));
    }
    forall i | 0 <= i < |doc.lines| ensures doc.lines[i].line.total == SumFor(rows, LineKey(doc.lines[i].line)) {
      TotalForLine(lines, i);
    }
    forall i, j | 0 <= i < j < |doc.lines| ensures !Before(doc.lines[j].line.name, doc.lines[i].line.name) {
      assert KeyBefore(LineKey(lines[i]), LineKey(lines[j]));
      if Before(lines[j].name, lines[i].name) {
        if lines[i].name == lines[j].name {
          BeforeIrreflexive(lines[i].name);
        } else {
          BeforeAsymmetric(lines[i].name, lines[j].name);
        }
      }
    }
  }
}
