/** Sort specifications compiled to an order by columns. */
module SortOrder {
  import opened Wrappers
  import opened WordPattern

  datatype Order = Order(field: string, descending: bool)

  /** A row's value in each column that can be sorted by; a column that is NULL is missing. */
  type Row = map<string, int>

  // ---------- the compilation ----------

  /** The pattern ^([\-\+]?)(\w+)$. */
  function ParseSort(word: char -> bool, spec: string): Option<Order> {
    var body := Body(spec);
    if AllWord(word, body) then Some(Order(body, false))
    else if body != "" && (body[0] == '-' || body[0] == '+') && AllWord(word, body[1..]) then Some(Order(body[1..], body[0] == '-'))
    else None
  }

  /** The specifications that name a known field, in order and with repeats. */
  function Recognised(word: char -> bool, known: set<string>, specs: seq<string>): seq<Order> {
    if specs == [] then []
    else
      var rest, last := Recognised(word, known, specs[..|specs| - 1]), ParseSort(word, specs[|specs| - 1]);
      if last.Some? && last.value.field in known then rest + [last.value] else rest
  }

  function Fields(orders: seq<Order>): (fields: set<string>)
    ensures forall o :: o in orders ==> o.field in fields
    ensures forall f :: f in fields ==> exists i :: 0 <= i < |orders| && orders[i].field == f
  {
    set o | o in orders :: o.field
  }

  lemma FieldsAppend(orders: seq<Order>, o: Order)
    ensures Fields(orders + [o]) == Fields(orders) + {o.field}
  {
    assert forall p :: p in orders + [o] <==> p in orders || p == o;
  }

  /** The first order of each field. */
  function Firsts(orders: seq<Order>): seq<Order> {
    if orders == [] then []
    else
      var rest, last := Firsts(orders[..|orders| - 1]), orders[|orders| - 1];
      if last.field in Fields(rest) then rest else rest + [last]
  }

  function Compiled(word: char -> bool, known: set<string>, specs: seq<string>): seq<Order> {
    Firsts(Recognised(word, known, specs))
  }

  /** One specification more adds an order if it names a known field for the first time. */
  lemma OneMoreSpec(word: char -> bool, known: set<string>, specs: seq<string>, spec: string)
    ensures var exp, m := Compiled(word, known, specs), ParseSort(word, spec);
            Compiled(word, known, specs + [spec])
            == if m.Some? && m.value.field in known && m.value.field !in Fields(exp) then exp + [m.value] else exp
  {
    assert (specs + [spec])[..|specs|] == specs;
    var orders, m := Recognised(word, known, specs), ParseSort(word, spec);
    if m.Some? { assert (orders + [m.value])[..|orders|] == orders; }
  }

  method CreateSortByExp(word: char -> bool, known: set<string>, specs: seq<string>) returns (exp: seq<Order>)
    ensures exp == Compiled(word, known, specs)
  {
    exp := [];
    var used: set<string> := {};
    for i := 0 to |specs|
      invariant exp == Compiled(word, known, specs[..i]) && used == Fields(exp)
    {
      assert specs[..i + 1] == specs[..i] + [specs[i]];
      OneMoreSpec(word, known, specs[..i], specs[i]);
      var m := ParseSort(word, specs[i]);
      if m.Some? && m.value.field in known {
        FieldsAppend(exp, m.value);
        if m.value.field !in used {
          used := used + {m.value.field};
          exp := exp + [m.value];
        }
      }
    }
    assert specs[..|specs|] == specs;
  }

  /** A search without any usable specification falls back on `-created`. */
  method OrderBy(word: char -> bool, known: set<string>, specs: seq<string>) returns (exp: seq<Order>)
    ensures exp == Used(word, known, specs)
  {
    exp := CreateSortByExp(word, known, specs);
    if exp == [] {
      exp := CreateSortByExp(word, known, ["-created"]);
    }
  }

  function Used(word: char -> bool, known: set<string>, specs: seq<string>): seq<Order> {
    var exp := Compiled(word, known, specs);
    if exp == [] then Compiled(word, known, ["-created"]) else exp
  }

  // ---------- what a specification reads as ----------

  lemma ParseSortMeans(word: char -> bool, spec: string, o: Order)
    requires WordClass(word)
    ensures ParseSort(word, spec) == Some(o)
       <==> if o.descending then Reads(word, spec, "-", o.field) else Reads(word, spec, "+", o.field) || Reads(word, spec, "", o.field)
  {
    ReadsIffBody(word, spec, if o.descending then "-" else "+", o.field);
    ReadsIffBody(word, spec, "", o.field);
    assert "" + o.field == o.field;
    SignedIff(Body(spec), o.descending, o.field);
    if AllWord(word, Body(spec)) { assert word(Body(spec)[0]); }
  }

  lemma SignedIff(body: string, descending: bool, field: string)
    ensures body == (if descending then "-" else "+") + field
       <==> body != "" && body[0] == (if descending then '-' else '+') && body[1..] == field
  {
    if body != "" { assert body == [body[0]] + body[1..]; }
    assert ((if descending then "-" else "+") + field)[1..] == field;
  }

  predicate SortsBy(word: char -> bool, spec: string, field: string) {
    ParseSort(word, spec).Some? && ParseSort(word, spec).value.field == field
  }

  /** Each order comes from a specification of a known field that no earlier one names, and they
      keep the sequence of the specifications. */
  ghost predicate InSequence(word: char -> bool, known: set<string>, specs: seq<string>, exp: seq<Order>, at: seq<nat>) {
    && |at| == |exp|
    && (forall k :: 0 <= k < |exp| ==> at[k] < |specs| && ParseSort(word, specs[at[k]]) == Some(exp[k]) && exp[k].field in known)
    && (forall k, j :: 0 <= k < |exp| && 0 <= j < at[k] ==> !SortsBy(word, specs[j], exp[k].field))
    && (forall k, l :: 0 <= k < l < |exp| ==> at[k] < at[l])
  }

  /** And no such field is left out. */
  ghost predicate Complete(word: char -> bool, known: set<string>, specs: seq<string>, exp: seq<Order>) {
    forall i, f :: 0 <= i < |specs| && f in known && SortsBy(word, specs[i], f) ==> exists k :: 0 <= k < |exp| && exp[k].field == f
  }

  lemma {:induction false} CompiledInSequence(word: char -> bool, known: set<string>, specs: seq<string>) returns (at: seq<nat>)
    ensures InSequence(word, known, specs, Compiled(word, known, specs), at)
    ensures Complete(word, known, specs, Compiled(word, known, specs))
  {
    if specs == [] { return []; }
    var init, last := specs[..|specs| - 1], specs[|specs| - 1];
    at := CompiledInSequence(word, known, init);
    assert specs == init + [last];
    OneMoreSpec(word, known, init, last);
    at := NextInSequence(word, known, init, last, Compiled(word, known, init), at);
  }

  lemma NextInSequence(word: char -> bool, known: set<string>, specs: seq<string>, spec: string, exp: seq<Order>, at: seq<nat>) returns (at': seq<nat>)
    requires InSequence(word, known, specs, exp, at) && Complete(word, known, specs, exp)
    ensures var m := ParseSort(word, spec);
            var exp' := if m.Some? && m.value.field in known && m.value.field !in Fields(exp) then exp + [m.value] else exp;
            InSequence(word, known, specs + [spec], exp', at') && Complete(word, known, specs + [spec], exp')
  {
    var m := ParseSort(word, spec);
    if m.Some? && m.value.field in known && m.value.field !in Fields(exp) {
      OneMoreInSequence(word, known, specs, spec, exp, at, m.value);
      OneMoreComplete(word, known, specs, spec, exp, exp + [m.value]);
      at' := at + [|specs|];
    } else {
      SameInSequence(word, known, specs, spec, exp, at);
      OneMoreComplete(word, known, specs, spec, exp, exp);
      at' := at;
    }
  }

  lemma SameInSequence(word: char -> bool, known: set<string>, specs: seq<string>, spec: string, exp: seq<Order>, at: seq<nat>)
    requires InSequence(word, known, specs, exp, at)
    ensures InSequence(word, known, specs + [spec], exp, at)
  {
  }

  lemma OneMoreInSequence(word: char -> bool, known: set<string>, specs: seq<string>, spec: string, exp: seq<Order>, at: seq<nat>, o: Order)
    requires InSequence(word, known, specs, exp, at) && Complete(word, known, specs, exp)
    requires ParseSort(word, spec) == Some(o) && o.field in known && o.field !in Fields(exp)
    ensures InSequence(word, known, specs + [spec], exp + [o], at + [|specs|])
  {
    NotNamed(word, known, specs, exp, o.field);
  }

  lemma NotNamed(word: char -> bool, known: set<string>, specs: seq<string>, exp: seq<Order>, field: string)
    requires Complete(word, known, specs, exp) && field in known && field !in Fields(exp)
    ensures forall j :: 0 <= j < |specs| ==> !SortsBy(word, specs[j], field)
  {
    assert forall k :: 0 <= k < |exp| ==> exp[k] in exp && exp[k].field != field;
  }

  lemma OneMoreComplete(word: char -> bool, known: set<string>, specs: seq<string>, spec: string, exp: seq<Order>, exp': seq<Order>)
    requires Complete(word, known, specs, exp) && exp <= exp'
    requires forall f :: f in known && SortsBy(word, spec, f) ==> f in Fields(exp')
    ensures Complete(word, known, specs + [spec], exp')
  {
    forall i, f | 0 <= i < |specs| + 1 && f in known && SortsBy(word, (specs + [spec])[i], f)
      ensures exists k :: 0 <= k < |exp'| && exp'[k].field == f
    {
      if i < |specs| {
        var k :| 0 <= k < |exp| && exp[k].field == f;
        assert exp'[k].field == f;
      }
    }
  }

  // ---------- what an order compares ----------

  datatype Comparison = Less | Same | More

  function Reverse(c: Comparison): Comparison {
    match c case Less => More case Same => Same case More => Less
  }

  /** NULL comes after every value when ascending, and so before when descending. */
  function Ascending(field: string, a: Row, b: Row): Comparison {
    if field in a && field in b then
      if a[field] < b[field] then Less else if a[field] == b[field] then Same else More
    else if field in a then Less
    else if field in b then More
    else Same
  }

  function By(o: Order, a: Row, b: Row): Comparison {
    if o.descending then Reverse(Ascending(o.field, a, b)) else Ascending(o.field, a, b)
  }

  /** By the first order in which the rows differ. */
  function Lex(orders: seq<Order>, a: Row, b: Row): Comparison {
    if orders == [] then Same
    else if By(orders[0], a, b) != Same then By(orders[0], a, b)
    else Lex(orders[1..], a, b)
  }

  lemma {:induction false} LexAppend(orders: seq<Order>, o: Order, a: Row, b: Row)
    ensures Lex(orders + [o], a, b) == if Lex(orders, a, b) != Same then Lex(orders, a, b) else By(o, a, b)
  {
    if orders == [] {
      assert ([o])[1..] == [];
    } else {
      assert (orders + [o])[1..] == orders[1..] + [o];
      LexAppend(orders[1..], o, a, b);
    }
  }

  lemma {:induction false} SameInAll(orders: seq<Order>, i: nat, a: Row, b: Row)
    requires Lex(orders, a, b) == Same && i < |orders|
    ensures Ascending(orders[i].field, a, b) == Same
  {
    if i > 0 { SameInAll(orders[1..], i - 1, a, b); }
  }

  /** Dropping the later orders of a field, whichever their direction, changes no comparison. */
  lemma {:induction false} FirstsCompareAlike(orders: seq<Order>, a: Row, b: Row)
    ensures Lex(Firsts(orders), a, b) == Lex(orders, a, b)
  {
    if orders != [] {
      var init, last := orders[..|orders| - 1], orders[|orders| - 1];
      FirstsCompareAlike(init, a, b);
      assert orders == init + [last];
      LexAppend(init, last, a, b);
      LexAppend(Firsts(init), last, a, b);
      if last.field in Fields(Firsts(init)) && Lex(init, a, b) == Same {
        var i :| 0 <= i < |Firsts(init)| && Firsts(init)[i].field == last.field;
        SameInAll(Firsts(init), i, a, b);
      }
    }
  }

  /** The compiled order compares as the whole recognised list does, and sorts by no field twice. */
  lemma CompiledComparesAlike(word: char -> bool, known: set<string>, specs: seq<string>, a: Row, b: Row)
    ensures Lex(Compiled(word, known, specs), a, b) == Lex(Recognised(word, known, specs), a, b)
    ensures var exp := Compiled(word, known, specs);
            forall i, j :: 0 <= i < j < |exp| ==> exp[i].field != exp[j].field
    ensures Fields(Compiled(word, known, specs)) <= known
  {
    FirstsCompareAlike(Recognised(word, known, specs), a, b);
    FirstsDistinct(Recognised(word, known, specs));
    RecognisedKnown(word, known, specs);
  }

  lemma {:induction false} FirstsDistinct(orders: seq<Order>)
    ensures forall i, j :: 0 <= i < j < |Firsts(orders)| ==> Firsts(orders)[i].field != Firsts(orders)[j].field
    ensures forall o :: o in Firsts(orders) ==> o in orders
  {
    if orders != [] {
      FirstsDistinct(orders[..|orders| - 1]);
      assert forall o :: o in orders[..|orders| - 1] ==> o in orders;
      assert forall o :: o in Firsts(orders[..|orders| - 1]) ==> o.field in Fields(Firsts(orders[..|orders| - 1]));
    }
  }

  lemma {:induction false} RecognisedKnown(word: char -> bool, known: set<string>, specs: seq<string>)
    ensures forall o :: o in Recognised(word, known, specs) ==> o.field in known
  {
    if specs != [] { RecognisedKnown(word, known, specs[..|specs| - 1]); }
  }

  // ---------- a total preorder ----------

  predicate Before(orders: seq<Order>, a: Row, b: Row) {
    Lex(orders, a, b) != More
  }

  lemma {:induction false} LexReverses(orders: seq<Order>, a: Row, b: Row)
    ensures Lex(orders, b, a) == Reverse(Lex(orders, a, b))
  {
    if orders != [] { LexReverses(orders[1..], a, b); }
  }

  lemma {:induction false} LexTransitive(orders: seq<Order>, a: Row, b: Row, c: Row)
    requires Before(orders, a, b) && Before(orders, b, c)
    ensures Before(orders, a, c)
    ensures Lex(orders, a, c) == Same ==> Lex(orders, a, b) == Same && Lex(orders, b, c) == Same
  {
    if orders != [] && By(orders[0], a, b) == Same && By(orders[0], b, c) == Same {
      LexTransitive(orders[1..], a, b, c);
    }
  }

  lemma TotalPreorder(orders: seq<Order>, a: Row, b: Row, c: Row)
    ensures Before(orders, a, a)
    ensures Before(orders, a, b) || Before(orders, b, a)
    ensures Before(orders, a, b) && Before(orders, b, c) ==> Before(orders, a, c)
  {
    LexReverses(orders, a, a);
    LexReverses(orders, a, b);
    if Before(orders, a, b) && Before(orders, b, c) { LexTransitive(orders, a, b, c); }
  }

  // ---------- what comes first ----------

  /** The entries of two rows in a field are the same, or missing from both. */
  ghost predicate Alike(field: string, a: Row, b: Row) {
    (field in a <==> field in b) && (field in a && field in b ==> a[field] == b[field])
  }

  /** Row a may come before row b in this field: smaller entries first and missing ones last when
      ascending, the other way round when descending. */
  ghost predicate Fits(field: string, descending: bool, a: Row, b: Row) {
    if field in a && field in b then (if descending then a[field] >= b[field] else a[field] <= b[field])
    else (field in a ==> !descending) && (field in b ==> descending)
  }

  ghost predicate InTurn(orders: seq<Order>, k: nat, a: Row, b: Row)
    requires k < |orders|
  {
    (forall h :: 0 <= h < k ==> Alike(orders[h].field, a, b)) ==> Fits(orders[k].field, orders[k].descending, a, b)
  }

  /** One row may come before another exactly if it does in each field in turn, as long as the
      fields before do not tell the rows apart. */
  lemma {:induction false} BeforeIff(orders: seq<Order>, a: Row, b: Row)
    ensures Before(orders, a, b) <==> forall k :: 0 <= k < |orders| ==> InTurn(orders, k, a, b)
  {
    if orders != [] {
      var rest := orders[1..];
      BeforeIff(rest, a, b);
      assert InTurn(orders, 0, a, b) <==> Fits(orders[0].field, orders[0].descending, a, b);
      if Alike(orders[0].field, a, b) {
        forall k | 0 <= k < |rest| ensures InTurn(rest, k, a, b) <==> InTurn(orders, k + 1, a, b) {
          assert forall h :: 0 <= h < k ==> rest[h] == orders[h + 1];
          assert forall h :: 1 <= h < k + 1 ==> orders[h] == rest[h - 1];
        }
        forall k | 1 <= k < |orders| ensures InTurn(orders, k, a, b) <==> InTurn(rest, k - 1, a, b) {}
      }
    }
  }

  // ---------- the fallback ----------

  const YOUR_AGGREGATE_FIELDS := {"created_at"}

  lemma ParseFallback(word: char -> bool)
    requires WordClass(word)
    ensures ParseSort(word, "-created") == Some(Order("created", true))
  {
    ParseSortMeans(word, "-created", Order("created", true));
    assert "-created" == "-" + "created";
  }

  /** A search for one specification answers in the order that its sign asks for. */
  lemma OneSortSpec(word: char -> bool, known: set<string>, field: string, descending: bool, spec: string)
    requires WordClass(word) && AllWord(word, field) && field in known
    requires spec == if descending then "-" + field else field
    ensures Used(word, known, [spec]) == [Order(field, descending)]
  {
    ParseSortMeans(word, spec, Order(field, descending));
    assert "" + field == field;
    OneMoreSpec(word, known, [], spec);
    assert [] + [spec] == [spec];
  }

  /** The fallback sorts by newest first exactly if there is a field `created`; otherwise the order
      is empty, and no row comes before another. For your aggregates that is whenever nothing
      recognised names `created_at`. */
  lemma FallbackOrders(word: char -> bool, known: set<string>, specs: seq<string>, a: Row, b: Row)
    requires WordClass(word) && Recognised(word, known, specs) == []
    ensures Used(word, known, specs) == if "created" in known then [Order("created", true)] else []
    ensures "created" !in known ==> Lex(Used(word, known, specs), a, b) == Same
  {
    assert Compiled(word, known, specs) == [] == Compiled(word, known, []);
    assert Compiled(word, known, ["-created"]) == if "created" in known then [Order("created", true)] else [] by {
      ParseFallback(word);
      OneMoreSpec(word, known, [], "-created");
      assert [] + ["-created"] == ["-created"];
    }
  }

  lemma {:induction false} YourAggregateOrder(word: char -> bool, specs: seq<string>)
    requires WordClass(word)
    ensures Used(word, YOUR_AGGREGATE_FIELDS, specs) == []
       <==> forall i :: 0 <= i < |specs| ==> !SortsBy(word, specs[i], "created_at")
  {
    RecognisedEmpty(word, YOUR_AGGREGATE_FIELDS, specs);
    if Recognised(word, YOUR_AGGREGATE_FIELDS, specs) == [] {
      FallbackOrders(word, YOUR_AGGREGATE_FIELDS, specs, map[], map[]);
    } else {
      FirstsKeepsOne(Recognised(word, YOUR_AGGREGATE_FIELDS, specs));
    }
  }

  lemma {:induction false} RecognisedEmpty(word: char -> bool, known: set<string>, specs: seq<string>)
    ensures Recognised(word, known, specs) == []
       <==> forall i, f :: 0 <= i < |specs| && f in known ==> !SortsBy(word, specs[i], f)
  {
    if specs != [] {
      RecognisedEmpty(word, known, specs[..|specs| - 1]);
      assert forall i :: 0 <= i < |specs| - 1 ==> specs[..|specs| - 1][i] == specs[i];
    }
  }

  lemma {:induction false} FirstsKeepsOne(orders: seq<Order>)
    requires orders != []
    ensures Firsts(orders) != []
  {
    if |orders| > 1 { FirstsKeepsOne(orders[..|orders| - 1]); }
  }
}
