/** A search: its filter on the search keys, its order and its page. */
module Search {
  import opened WordPattern
  import opened SearchPattern
  import opened SortOrder

  // ---------- which field, and which operator ----------

  /** The pattern ^((starts|ends|equals):)?(\w+)$; what does not match it is taken as it is. */
  function SplitField(word: char -> bool, spec: string): (Operator, string) {
    var body := Body(spec);
    if AllWord(word, body) then (Anywhere, body)
    else if "starts:" <= body && AllWord(word, body[7..]) then (Starts, body[7..])
    else if "ends:" <= body && AllWord(word, body[5..]) then (Ends, body[5..])
    else if "equals:" <= body && AllWord(word, body[7..]) then (Equals, body[7..])
    else (Anywhere, spec)
  }

  function Prefix(op: Operator): (prefix: string)
    ensures prefix == match op case Anywhere => "" case Starts => "starts:" case Ends => "ends:" case Equals => "equals:"
  {
    match op case Anywhere => "" case Starts => "starts:" case Ends => "ends:" case Equals => "equals:"
  }

  lemma OnePrefix(word: char -> bool, body: string, op: Operator, field: string, other: Operator)
    requires WordClass(word) && op != Anywhere && body == Prefix(op) + field
    ensures !AllWord(word, body) && Prefix(op) <= body && body[|Prefix(op)|..] == field
    ensures other != op && other != Anywhere ==> !(Prefix(other) <= body)
  {
    assert body[|Prefix(op)| - 1] == ':';
    assert body[0] == Prefix(op)[0] && body[1] == Prefix(op)[1];
    if Prefix(other) <= body && other != Anywhere { assert body[0] == Prefix(other)[0] && body[1] == Prefix(other)[1]; }
  }

  /** The field and the operator are those that the text reads as, if it reads as any. */
  lemma SplitFieldMeans(word: char -> bool, spec: string, op: Operator, field: string)
    requires WordClass(word)
    ensures var prefix := match op case Anywhere => "" case Starts => "starts:" case Ends => "ends:" case Equals => "equals:";
            && (Reads(word, spec, prefix, field) ==> SplitField(word, spec) == (op, field))
            && (SplitField(word, spec) == (op, field) ==> Reads(word, spec, prefix, field) || (op, field) == (Anywhere, spec))
  {
    var body := Body(spec);
    ReadsIffBody(word, spec, Prefix(op), field);
    if op == Anywhere {
      assert Prefix(op) + field == field;
    } else {
      if body == Prefix(op) + field {
        OnePrefix(word, body, op, field, Starts);
        OnePrefix(word, body, op, field, Ends);
        OnePrefix(word, body, op, field, Equals);
      }
      if Prefix(op) <= body { assert body == Prefix(op) + body[|Prefix(op)|..]; }
    }
  }

  // ---------- the filter ----------

  /** The texts of a row's searchable fields; a field that is NULL is missing. */
  type Texts = map<string, string>

  datatype Filter = Filter(field: string, pattern: string)

  predicate Passes(filters: seq<Filter>, row: Texts) {
    filters == [] || exists f :: f in filters && Holds(f, row)
  }

  predicate Holds(f: Filter, row: Texts) {
    f.field in row && Found(f.pattern, row[f.field])
  }

  function FilterFor(word: char -> bool, spec: string, keys: seq<string>): Filter {
    var (op, field) := SplitField(word, spec);
    Filter(field, Compile(op, keys))
  }

  function FiltersFor(word: char -> bool, known: set<string>, specs: seq<string>, keys: seq<string>): seq<Filter> {
    if specs == [] || keys == [] then []
    else
      var rest, last := FiltersFor(word, known, specs[..|specs| - 1], keys), FilterFor(word, specs[|specs| - 1], keys);
      if last.field in known then rest + [last] else rest
  }

  /** One filter, joined by `or`, for each specification of a known field; without keys, none. */
  method SearchKeyFilters(word: char -> bool, known: set<string>, specs: seq<string>, keys: seq<string>) returns (filters: seq<Filter>)
    ensures filters == FiltersFor(word, known, specs, keys)
  {
    filters := [];
    if keys != [] {
      for i := 0 to |specs|
        invariant filters == FiltersFor(word, known, specs[..i], keys)
      {
        assert specs[..i + 1][..i] == specs[..i];
        var (op, field) := SplitField(word, specs[i]);
        if field in known {
          filters := filters + [Filter(field, Compile(op, keys))];
        }
      }
      assert specs[..|specs|] == specs;
    }
  }

  predicate Known(word: char -> bool, known: set<string>, spec: string) {
    SplitField(word, spec).1 in known
  }

  /** A specification that some key meets, in the field it names. */
  predicate Met(word: char -> bool, spec: string, keys: seq<string>, row: Texts) {
    var (op, field) := SplitField(word, spec);
    field in row
    && exists k :: 0 <= k < |keys| && KeyIn(AtStart(op) && k == 0, AtEnd(op) && k == |keys| - 1, keys[k], row[field])
  }

  lemma FilterMeans(word: char -> bool, spec: string, keys: seq<string>, row: Texts)
    requires keys != []
    ensures Holds(FilterFor(word, spec, keys), row) <==> Met(word, spec, keys, row)
  {
    var (op, field) := SplitField(word, spec);
    if field in row { CompiledMeans(op, keys, row[field]); }
  }

  ghost predicate IsFilter(word: char -> bool, known: set<string>, specs: seq<string>, keys: seq<string>, f: Filter) {
    exists i :: 0 <= i < |specs| && Known(word, known, specs[i]) && f == FilterFor(word, specs[i], keys)
  }

  lemma OneMoreSpec(word: char -> bool, known: set<string>, specs: seq<string>, spec: string, keys: seq<string>, f: Filter)
    ensures IsFilter(word, known, specs + [spec], keys, f)
       <==> IsFilter(word, known, specs, keys, f) || (Known(word, known, spec) && f == FilterFor(word, spec, keys))
  {
    var more := specs + [spec];
    assert more[|specs|] == spec;
    assert forall i :: 0 <= i < |specs| ==> more[i] == specs[i];
  }

  /** The filters are those of the known specifications. */
  lemma {:induction false} FiltersAre(word: char -> bool, known: set<string>, specs: seq<string>, keys: seq<string>, f: Filter)
    requires keys != []
    ensures f in FiltersFor(word, known, specs, keys) <==> IsFilter(word, known, specs, keys, f)
  {
    if specs != [] {
      var n := |specs| - 1;
      FiltersAre(word, known, specs[..n], keys, f);
      OneMoreSpec(word, known, specs[..n], specs[n], keys, f);
      assert specs == specs[..n] + [specs[n]];
    }
  }

  /** A row is kept if there are no keys, or if no specification names a known field, or if some
      specification of a known field is met; the others are ignored. */
  lemma SearchMeans(word: char -> bool, known: set<string>, specs: seq<string>, keys: seq<string>, row: Texts)
    ensures Passes(FiltersFor(word, known, specs, keys), row)
       <==> keys == [] || (forall i :: 0 <= i < |specs| ==> !Known(word, known, specs[i]))
            || exists i :: 0 <= i < |specs| && Known(word, known, specs[i]) && Met(word, specs[i], keys, row)
  {
    if keys != [] {
      var filters := FiltersFor(word, known, specs, keys);
      forall f ensures f in filters <==> IsFilter(word, known, specs, keys, f) { FiltersAre(word, known, specs, keys, f); }
      forall i | 0 <= i < |specs| && Known(word, known, specs[i])
        ensures FilterFor(word, specs[i], keys) in filters
        ensures Holds(FilterFor(word, specs[i], keys), row) <==> Met(word, specs[i], keys, row)
      {
        FilterMeans(word, specs[i], keys, row);
        assert IsFilter(word, known, specs, keys, FilterFor(word, specs[i], keys));
      }
      if filters != [] { assert IsFilter(word, known, specs, keys, filters[0]); }
    }
  }

  /** A search for one key in one field, from the text of its specification. */
  lemma OneKeySearch(word: char -> bool, known: set<string>, op: Operator, field: string, key: string, row: Texts)
    requires WordClass(word) && AllWord(word, field) && field in known
    ensures var spec := match op case Anywhere => field case Starts => "starts:" + field case Ends => "ends:" + field case Equals => "equals:" + field;
            Passes(FiltersFor(word, known, [spec], [key]), row)
            <==> field in row && match op
                                 case Starts => key <= row[field]
                                 case Ends => |key| <= |row[field]| && row[field][|row[field]| - |key|..] == key
                                 case Equals => row[field] == key
                                 case Anywhere => exists i :: 0 <= i <= |row[field]| && Occurs(key, row[field], i)
  {
    var spec := Prefix(op) + field;
    assert op == Anywhere ==> spec == field;
    SplitFieldMeans(word, spec, op, field);
    OneFilter(word, known, spec, key, row);
    if field in row { OneKey(op, key, row[field]); }
  }

  lemma OneFilter(word: char -> bool, known: set<string>, spec: string, key: string, row: Texts)
    requires Known(word, known, spec)
    ensures Passes(FiltersFor(word, known, [spec], [key]), row) <==> Holds(FilterFor(word, spec, [key]), row)
  {
    var f := FilterFor(word, spec, [key]);
    assert [spec][..0] == [];
    assert FiltersFor(word, known, [spec], [key]) == [] + [f];
    assert f in [f];
  }

  // ---------- the page ----------

  /** The order the database may answer in: any order of the rows that the comparison allows. */
  ghost predicate Ordering(orders: seq<Order>, rows: set<Row>, answer: seq<Row>) {
    && (forall r :: r in answer <==> r in rows)
    && (forall i, j :: 0 <= i < j < |answer| ==> answer[i] != answer[j] && Before(orders, answer[i], answer[j]))
  }

  /** Skips `offset` rows and, if there is a limit, takes no more than that. */
  function Page(answer: seq<Row>, offset: nat, limit: int): seq<Row> {
    var rest := if offset <= |answer| then answer[offset..] else [];
    if 0 < limit < |rest| then rest[..limit] else rest
  }

  /** Row i of the page is row offset + i of the answer. The page goes on to the end of the answer, or
      until it has as many rows as the limit if there is one: a limit of 0 or less is none. */
  lemma PageRows(answer: seq<Row>, offset: nat, limit: int)
    ensures var page, left := Page(answer, offset, limit), if offset <= |answer| then |answer| - offset else 0;
            && |page| == (if 0 < limit < left then limit else left)
            && forall i :: 0 <= i < |page| ==> page[i] == answer[offset + i]
  {
  }

  /** Pages of one answer, laid end to end, are that answer. */
  lemma {:induction false} PagesCover(answer: seq<Row>, limit: nat, n: nat)
    requires limit > 0
    ensures Pages(answer, limit, n) == answer[..if n * limit <= |answer| then n * limit else |answer|]
  {
    if n > 0 {
      PagesCover(answer, limit, n - 1);
      OneMorePage(answer, limit, (n - 1) * limit);
      assert n * limit == (n - 1) * limit + limit;
    }
  }

  lemma OneMorePage(answer: seq<Row>, limit: nat, from: nat)
    requires limit > 0
    ensures answer[..if from <= |answer| then from else |answer|] + Page(answer, from, limit)
         == answer[..if from + limit <= |answer| then from + limit else |answer|]
  {
  }

  function Pages(answer: seq<Row>, limit: nat, n: nat): seq<Row> {
    if n == 0 then [] else Pages(answer, limit, n - 1) + Page(answer, (n - 1) * limit, limit)
  }

  /** Of two rows that the fields before do not tell apart, the one with the smaller entry comes first
      if the order ascends, the one with the larger if it descends; a missing entry comes last or
      first. */
  lemma AnswerInOrder(orders: seq<Order>, rows: set<Row>, answer: seq<Row>, i: nat, j: nat, k: nat)
    requires Ordering(orders, rows, answer) && i < j < |answer| && k < |orders|
    requires forall h :: 0 <= h < k ==> Alike(orders[h].field, answer[i], answer[j])
    ensures var f, a, b := orders[k].field, answer[i], answer[j];
            && (f in a && f in b && !orders[k].descending ==> a[f] <= b[f])
            && (f in a && f in b && orders[k].descending ==> a[f] >= b[f])
            && (f in a && f !in b ==> !orders[k].descending)
            && (f !in a && f in b ==> orders[k].descending)
  {
    BeforeIff(orders, answer[i], answer[j]);
    assert InTurn(orders, k, answer[i], answer[j]);
  }

  /** And an answer is one that the database may give exactly if it has every row once, and that is so
      of any two of them. */
  lemma OrderingIff(orders: seq<Order>, rows: set<Row>, answer: seq<Row>)
    ensures Ordering(orders, rows, answer)
       <==> (forall r :: r in answer <==> r in rows)
            && forall i, j :: 0 <= i < j < |answer| ==>
                 answer[i] != answer[j] && forall k :: 0 <= k < |orders| ==> InTurn(orders, k, answer[i], answer[j])
  {
    forall i, j | 0 <= i < j < |answer|
      ensures Before(orders, answer[i], answer[j]) <==> forall k :: 0 <= k < |orders| ==> InTurn(orders, k, answer[i], answer[j])
    {
      BeforeIff(orders, answer[i], answer[j]);
    }
  }

  /** A search sorted by one field answers smaller entries first, or larger ones after a minus. */
  lemma SortedByOne(word: char -> bool, known: set<string>, field: string, descending: bool, rows: set<Row>, answer: seq<Row>, i: nat, j: nat)
    requires WordClass(word) && AllWord(word, field) && field in known && i < j < |answer|
    requires Ordering(Used(word, known, [if descending then "-" + field else field]), rows, answer)
    ensures var a, b := answer[i], answer[j];
            if field in a && field in b then (if descending then b[field] <= a[field] else a[field] <= b[field])
            else (field in a ==> !descending) && (field in b ==> descending)
  {
    OneSortSpec(word, known, field, descending, if descending then "-" + field else field);
    AnswerInOrder([Order(field, descending)], rows, answer, i, j, 0);
  }

  /** The fallback answers newest first. */
  lemma FallbackNewestFirst(word: char -> bool, known: set<string>, specs: seq<string>, rows: set<Row>, answer: seq<Row>, i: nat, j: nat)
    requires WordClass(word) && Recognised(word, known, specs) == [] && "created" in known && i < j < |answer|
    requires Ordering(Used(word, known, specs), rows, answer)
    ensures var a, b := answer[i], answer[j];
            if "created" in a && "created" in b then b["created"] <= a["created"] else "created" !in a
  {
    FallbackOrders(word, known, specs, answer[i], answer[j]);
    AnswerInOrder([Order("created", true)], rows, answer, i, j, 0);
  }

  /** Without ties every search answers in the same order, so pages of different searches fit
      together. */
  lemma {:induction false} OrderingUnique(orders: seq<Order>, rows: set<Row>, a: seq<Row>, b: seq<Row>)
    requires Ordering(orders, rows, a) && Ordering(orders, rows, b)
    requires forall r, s :: r in rows && s in rows && r != s ==> Lex(orders, r, s) != Same
    ensures a == b
    decreases |a|
  {
    BothEmpty(a, b);
    if a != [] {
      assert a[0] in a;
      var j :| 0 <= j < |b| && b[j] == a[0];
      assert b[0] in a;
      var i :| 0 <= i < |a| && a[i] == b[0];
      if i != 0 {
        assert Before(orders, a[0], a[i]) && Before(orders, b[0], b[j]);
        LexReverses(orders, a[0], b[0]);
        assert false;
      }
      RestOrdering(orders, rows, a);
      RestOrdering(orders, rows, b);
      OrderingUnique(orders, rows - {a[0]}, a[1..], b[1..]);
      assert a == [a[0]] + a[1..] && b == [b[0]] + b[1..];
    }
  }

  lemma BothEmpty(a: seq<Row>, b: seq<Row>)
    requires forall r :: r in a <==> r in b
    ensures a == [] <==> b == []
  {
    if a != [] { assert a[0] in b; }
    if b != [] { assert b[0] in a; }
  }

  lemma RestOrdering(orders: seq<Order>, rows: set<Row>, a: seq<Row>)
    requires Ordering(orders, rows, a) && a != []
    ensures Ordering(orders, rows - {a[0]}, a[1..])
  {
    assert forall r :: r in a[1..] ==> r in a && r != a[0];
    forall r | r in rows - {a[0]} ensures r in a[1..] {
      var i :| 0 <= i < |a| && a[i] == r;
      assert a[1..][i - 1] == r;
    }
  }

  /** With a tie they need not: two searches may show one of the tied rows twice and the other
      never. In the empty order every two rows are tied. */
  lemma TieMovesBetweenPages(orders: seq<Order>, r: Row, s: Row) returns (first: seq<Row>, second: seq<Row>)
    requires r != s && Lex(orders, r, s) == Same
    ensures Ordering(orders, {r, s}, first) && Ordering(orders, {r, s}, second)
    ensures Page(first, 0, 1) + Page(second, 1, 1) == [r, r]
  {
    LexReverses(orders, r, s);
    first, second := [r, s], [s, r];
  }
}
