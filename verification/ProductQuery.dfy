/**
 The product listing: List of internal/product/repository_pg.go, which compiles a filter to SQL with
 numbered placeholders, counts the matches, and selects one page of them.
 */
module ProductQuery {
  import opened Basics
  import opened Products
  import Like

  datatype Filter = Filter(
    category: Option<nat>, brand: string, minPrice: Option<real>, maxPrice: Option<real>, search: string,
    limit: int, offset: int)

  // ---------- the SQL that List writes ----------

  datatype Value = Ref(id: nat) | Text(text: string) | Number(x: real) | Count(n: int)

  datatype Column = Category | Brand | Price | Name

  datatype Operator = Equal | AtLeast | AtMost | ILike

  /** A conjunct of the WHERE clause; `at` is the number of its placeholder, counted from one. */
  datatype Clause = IsActive | Compare(column: Column, op: Operator, at: nat)

  datatype Select = Select(conjuncts: seq<Clause>, limitAt: nat, offsetAt: nat)

  /** SQL's truth values, and a statement that cannot be run: an unbound placeholder or operands of the wrong type. */
  datatype Truth = Yes | No | Unknown | Fault

  function FromBool(b: bool): Truth {
    if b then Yes else No
  }

  function And(a: Truth, b: Truth): Truth {
    if a == Fault || b == Fault then Fault
    else if a == No || b == No then No
    else if a == Unknown || b == Unknown then Unknown
    else Yes
  }

  /** A cell of a row; None is NULL. */
  function Cell(p: Product, c: Column): Option<Value> {
    match c
    case Category => if p.category.Some? then Some(Ref(p.category.value)) else None
    case Brand => Some(Text(p.brand))
    case Price => Some(Number(p.price))
    case Name => Some(Text(p.name))
  }

  function Apply(op: Operator, cell: Option<Value>, v: Value): Truth {
    match cell
    case None => Unknown
    case Some(Ref(id)) => if op == Equal && v.Ref? then FromBool(id == v.id) else Fault
    case Some(Text(text)) =>
      if !v.Text? then Fault
      else if op == Equal then FromBool(text == v.text)
      else if op == ILike then FromBool(Like.ILike(text, v.text))
      else Fault
    case Some(Number(x)) =>
      if !v.Number? then Fault
      else (match op
        case Equal => FromBool(x == v.x)
        case AtLeast => FromBool(x >= v.x)
        case AtMost => FromBool(x <= v.x)
        case ILike => Fault)
    case Some(Count(_)) => Fault
  }

  function EvalClause(c: Clause, args: seq<Value>, p: Product): Truth {
    match c
    case IsActive => FromBool(p.active)
    case Compare(column, op, at) =>
      if 1 <= at <= |args| then Apply(op, Cell(p, column), args[at - 1]) else Fault
  }

  /** The clauses joined by AND. */
  function Eval(clauses: seq<Clause>, args: seq<Value>, p: Product): Truth {
    if clauses == [] then Yes
    else And(Eval(clauses[..|clauses| - 1], args, p), EvalClause(clauses[|clauses| - 1], args, p))
  }

  /** Every placeholder is bound. */
  predicate WellBound(clauses: seq<Clause>, args: seq<Value>) {
    forall i :: 0 <= i < |clauses| ==> clauses[i].Compare? ==> 1 <= clauses[i].at <= |args|
  }

  /** Arguments that come after do not matter. */
  lemma {:induction false} MoreArguments(clauses: seq<Clause>, args: seq<Value>, more: seq<Value>, p: Product)
    requires WellBound(clauses, args)
    ensures Eval(clauses, args + more, p) == Eval(clauses, args, p)
  {
    if clauses != [] {
      MoreArguments(clauses[..|clauses| - 1], args, more, p);
      assert clauses[|clauses| - 1].Compare? ==> 1 <= clauses[|clauses| - 1].at <= |args|;
    }
  }

  /** A new clause with its argument is one more conjunct. */
  lemma AddConjunct(clauses: seq<Clause>, args: seq<Value>, column: Column, op: Operator, v: Value)
    requires WellBound(clauses, args)
    ensures WellBound(clauses + [Compare(column, op, |args| + 1)], args + [v])
    ensures forall p :: Eval(clauses + [Compare(column, op, |args| + 1)], args + [v], p) ==
                        And(Eval(clauses, args, p), Apply(op, Cell(p, column), v))
  {
    var c := Compare(column, op, |args| + 1);
    forall p ensures Eval(clauses + [c], args + [v], p) == And(Eval(clauses, args, p), Apply(op, Cell(p, column), v)) {
      MoreArguments(clauses, args, [v], p);
      assert (clauses + [c])[..|clauses|] == clauses;
    }
  }

  // ---------- what the filter asks for ----------

  /** One condition of the filter, in the order List looks at them. */
  datatype Condition = OnCategory | OnBrand | OnMinPrice | OnMaxPrice | OnName

  const CONDITIONS: seq<Condition> := [OnCategory, OnBrand, OnMinPrice, OnMaxPrice, OnName]

  predicate Satisfies(p: Product, f: Filter, c: Condition) {
    match c
    case OnCategory => f.category.Some? ==> p.category == f.category
    case OnBrand => f.brand != "" ==> p.brand == f.brand
    case OnMinPrice => f.minPrice.Some? ==> f.minPrice.value <= p.price
    case OnMaxPrice => f.maxPrice.Some? ==> p.price <= f.maxPrice.value
    case OnName => f.search != "" ==> Like.ILike(p.name, "%" + f.search + "%")
  }

  /** An active product that satisfies every condition of the filter. */
  predicate Wanted(f: Filter, p: Product) {
    p.active && forall c :: Satisfies(p, f, c)
  }

  predicate SatisfiesFirst(p: Product, f: Filter, n: nat)
    requires n <= 5
  {
    forall i :: 0 <= i < n ==> Satisfies(p, f, CONDITIONS[i])
  }

  /**
   The clauses, run on any row, never fail, and hold for exactly the active rows that satisfy the first
   n conditions.
   */
  ghost predicate Means(clauses: seq<Clause>, args: seq<Value>, f: Filter, n: nat)
    requires n <= 5
  {
    && WellBound(clauses, args)
    && forall p :: Eval(clauses, args, p) != Fault &&
                   (Eval(clauses, args, p) == Yes <==> p.active && SatisfiesFirst(p, f, n))
  }

  lemma NoCondition(f: Filter)
    ensures Means([IsActive], [], f, 0)
  {
    assert [IsActive][..0] == [];
    assert forall p :: Eval([IsActive], [], p) == And(Eval([], [], p), FromBool(p.active));
  }

  /** A condition that the filter leaves open adds no clause. */
  lemma SkipCondition(clauses: seq<Clause>, args: seq<Value>, f: Filter, n: nat)
    requires n < 5 && Means(clauses, args, f, n)
    requires forall p :: Satisfies(p, f, CONDITIONS[n])
    ensures Means(clauses, args, f, n + 1)
  {
  }

  /** A condition that the filter sets adds one clause, with the next free placeholder. */
  lemma AddCondition(clauses: seq<Clause>, args: seq<Value>, f: Filter, n: nat, column: Column, op: Operator, v: Value)
    requires n < 5 && Means(clauses, args, f, n)
    requires forall p :: Apply(op, Cell(p, column), v) != Fault &&
                         (Apply(op, Cell(p, column), v) == Yes <==> Satisfies(p, f, CONDITIONS[n]))
    ensures Means(clauses + [Compare(column, op, |args| + 1)], args + [v], f, n + 1)
  {
    AddConjunct(clauses, args, column, op, v);
    hide Apply, Eval, Satisfies;
  }

  lemma CategoryCondition(clauses: seq<Clause>, args: seq<Value>, f: Filter)
    requires Means(clauses, args, f, 0)
    ensures if f.category.Some?
            then Means(clauses + [Compare(Category, Equal, |args| + 1)], args + [Ref(f.category.value)], f, 1)
            else Means(clauses, args, f, 1)
  {
    hide Means;
    if f.category.Some? {
      AddCondition(clauses, args, f, 0, Category, Equal, Ref(f.category.value));
    } else {
      SkipCondition(clauses, args, f, 0);
    }
  }

  lemma BrandCondition(clauses: seq<Clause>, args: seq<Value>, f: Filter)
    requires Means(clauses, args, f, 1)
    ensures if f.brand != "" then Means(clauses + [Compare(Brand, Equal, |args| + 1)], args + [Text(f.brand)], f, 2)
            else Means(clauses, args, f, 2)
  {
    hide Means;
    if f.brand != "" {
      AddCondition(clauses, args, f, 1, Brand, Equal, Text(f.brand));
    } else {
      SkipCondition(clauses, args, f, 1);
    }
  }

  lemma MinPriceCondition(clauses: seq<Clause>, args: seq<Value>, f: Filter)
    requires Means(clauses, args, f, 2)
    ensures if f.minPrice.Some?
            then Means(clauses + [Compare(Price, AtLeast, |args| + 1)], args + [Number(f.minPrice.value)], f, 3)
            else Means(clauses, args, f, 3)
  {
    hide Means;
    if f.minPrice.Some? {
      AddCondition(clauses, args, f, 2, Price, AtLeast, Number(f.minPrice.value));
    } else {
      SkipCondition(clauses, args, f, 2);
    }
  }

  lemma MaxPriceCondition(clauses: seq<Clause>, args: seq<Value>, f: Filter)
    requires Means(clauses, args, f, 3)
    ensures if f.maxPrice.Some?
            then Means(clauses + [Compare(Price, AtMost, |args| + 1)], args + [Number(f.maxPrice.value)], f, 4)
            else Means(clauses, args, f, 4)
  {
    hide Means;
    if f.maxPrice.Some? {
      AddCondition(clauses, args, f, 3, Price, AtMost, Number(f.maxPrice.value));
    } else {
      SkipCondition(clauses, args, f, 3);
    }
  }

  lemma NameCondition(clauses: seq<Clause>, args: seq<Value>, f: Filter)
    requires Means(clauses, args, f, 4)
    ensures if f.search != ""
            then Means(clauses + [Compare(Name, ILike, |args| + 1)], args + [Text("%" + f.search + "%")], f, 5)
            else Means(clauses, args, f, 5)
  {
    hide Means;
    if f.search != "" {
      AddCondition(clauses, args, f, 4, Name, ILike, Text("%" + f.search + "%"));
    } else {
      SkipCondition(clauses, args, f, 4);
    }
  }

  lemma AllConditions(clauses: seq<Clause>, args: seq<Value>, f: Filter)
    requires Means(clauses, args, f, 5)
    ensures Compiled(clauses, args, f)
  {
    forall p | SatisfiesFirst(p, f, 5), c ensures Satisfies(p, f, c) {
      assert CONDITIONS[0] == OnCategory && CONDITIONS[1] == OnBrand && CONDITIONS[2] == OnMinPrice;
      assert CONDITIONS[3] == OnMaxPrice && CONDITIONS[4] == OnName;
      assert exists i :: 0 <= i < 5 && CONDITIONS[i] == c by {
        match c case OnCategory => case OnBrand => case OnMinPrice => case OnMaxPrice => case OnName =>
      }
    }
  }

  /** The WHERE clause, run on any row, never fails, and holds for exactly the rows that the filter asks for. */
  ghost predicate Compiled(clauses: seq<Clause>, args: seq<Value>, f: Filter) {
    && WellBound(clauses, args)
    && forall p :: Eval(clauses, args, p) != Fault && (Eval(clauses, args, p) == Yes <==> Wanted(f, p))
  }

  /** The clauses on category and brand. */
  method BuildExact(filter: Filter, whereClauses0: seq<Clause>, args0: seq<Value>, argIdx0: nat)
    returns (whereClauses: seq<Clause>, args: seq<Value>, argIdx: nat)
    requires Means(whereClauses0, args0, filter, 0) && argIdx0 == |args0| + 1
    ensures Means(whereClauses, args, filter, 2) && argIdx == |args| + 1
  {
    hide *;
    whereClauses, args, argIdx := whereClauses0, args0, argIdx0;
    CategoryCondition(whereClauses, args, filter);
    if filter.category.Some? {
      whereClauses := whereClauses + [Compare(Category, Equal, argIdx)];
      args := args + [Ref(filter.category.value)];
      argIdx := argIdx + 1;
    }
    assert Means(whereClauses, args, filter, 1);
    BrandCondition(whereClauses, args, filter);
    if filter.brand != "" {
      whereClauses := whereClauses + [Compare(Brand, Equal, argIdx)];
      args := args + [Text(filter.brand)];
      argIdx := argIdx + 1;
    }
  }

  /** The clauses on the price. */
  method BuildRange(filter: Filter, whereClauses0: seq<Clause>, args0: seq<Value>, argIdx0: nat)
    returns (whereClauses: seq<Clause>, args: seq<Value>, argIdx: nat)
    requires Means(whereClauses0, args0, filter, 2) && argIdx0 == |args0| + 1
    ensures Means(whereClauses, args, filter, 4) && argIdx == |args| + 1
  {
    hide *;
    whereClauses, args, argIdx := whereClauses0, args0, argIdx0;
    MinPriceCondition(whereClauses, args, filter);
    if filter.minPrice.Some? {
      whereClauses := whereClauses + [Compare(Price, AtLeast, argIdx)];
      args := args + [Number(filter.minPrice.value)];
      argIdx := argIdx + 1;
    }
    assert Means(whereClauses, args, filter, 3);
    MaxPriceCondition(whereClauses, args, filter);
    if filter.maxPrice.Some? {
      whereClauses := whereClauses + [Compare(Price, AtMost, argIdx)];
      args := args + [Number(filter.maxPrice.value)];
      argIdx := argIdx + 1;
    }
  }

  /** The clause on the name. */
  method BuildSearch(filter: Filter, whereClauses0: seq<Clause>, args0: seq<Value>, argIdx0: nat)
    returns (whereClauses: seq<Clause>, args: seq<Value>, argIdx: nat)
    requires Means(whereClauses0, args0, filter, 4) && argIdx0 == |args0| + 1
    ensures Means(whereClauses, args, filter, 5) && argIdx == |args| + 1
  {
    hide *;
    whereClauses, args, argIdx := whereClauses0, args0, argIdx0;
    NameCondition(whereClauses, args, filter);
    if filter.search != "" {
      whereClauses := whereClauses + [Compare(Name, ILike, argIdx)];
      args := args + [Text("%" + filter.search + "%")];
      argIdx := argIdx + 1;
    }
  }

  /** The first part of List: the WHERE clause, its arguments, and the number of the next placeholder. */
  method BuildWhere(filter: Filter) returns (whereClauses: seq<Clause>, args: seq<Value>, argIdx: nat)
    ensures Compiled(whereClauses, args, filter)
    ensures argIdx == |args| + 1
  {
    whereClauses, args, argIdx := [IsActive], [], 1;
    NoCondition(filter);
    whereClauses, args, argIdx := BuildExact(filter, whereClauses, args, argIdx);
    whereClauses, args, argIdx := BuildRange(filter, whereClauses, args, argIdx);
    whereClauses, args, argIdx := BuildSearch(filter, whereClauses, args, argIdx);
    AllConditions(whereClauses, args, filter);
  }

  // ---------- running it ----------

  /** The order in which a statement happens to visit the rows: every ID once. */
  ghost predicate Enumerates(scan: seq<Id>, t: Table) {
    && (forall i, j :: 0 <= i < j < |scan| ==> scan[i] != scan[j])
    && (forall id :: id in scan <==> id in t)
  }

  predicate Keyed(t: Table) {
    forall id :: id in t ==> t[id].id == id
  }

  /** The rows the condition holds for, in the order they are visited; None when it cannot be run. */
  function Rows(t: Table, scan: seq<Id>, clauses: seq<Clause>, args: seq<Value>): Option<seq<Product>>
    requires forall id :: id in scan ==> id in t
  {
    if scan == [] then Some([])
    else
      var before := Rows(t, scan[..|scan| - 1], clauses, args);
      var p := t[scan[|scan| - 1]];
      var truth := Eval(clauses, args, p);
      if before.None? || truth == Fault then None else if truth == Yes then Some(before.value + [p]) else before
  }

  /** Inserted after the rows that are as new or newer. */
  function Place(p: Product, rows: seq<Product>): seq<Product> {
    if rows == [] || rows[|rows| - 1].createdAt >= p.createdAt then rows + [p]
    else Place(p, rows[..|rows| - 1]) + [rows[|rows| - 1]]
  }

  /** ORDER BY created_at DESC; rows of the same time stay as they were visited. */
  function NewestFirst(rows: seq<Product>): seq<Product> {
    if rows == [] then [] else Place(rows[|rows| - 1], NewestFirst(rows[..|rows| - 1]))
  }

  function Min(a: nat, b: nat): nat {
    if a <= b then a else b
  }

  /** LIMIT and OFFSET. */
  function Page<T>(rows: seq<T>, limit: nat, offset: nat): seq<T> {
    rows[Min(offset, |rows|)..Min(offset + limit, |rows|)]
  }

  predicate Bound(at: nat, args: seq<Value>) {
    1 <= at <= |args| && args[at - 1].Count? && args[at - 1].n >= 0
  }

  function RunSelect(t: Table, scan: seq<Id>, q: Select, args: seq<Value>): Option<seq<Product>>
    requires forall id :: id in scan ==> id in t
  {
    var rows := Rows(t, scan, q.conjuncts, args);
    if rows.None? || !Bound(q.limitAt, args) || !Bound(q.offsetAt, args) then None
    else Some(Page(NewestFirst(rows.value), args[q.limitAt - 1].n, args[q.offsetAt - 1].n))
  }

  // ---------- what a listing is ----------

  function MatchIds(t: Table, f: Filter): set<Id> {
    set id | id in t && Wanted(f, t[id])
  }

  /** Every product that the filter asks for, once, the newest first. */
  ghost predicate Listing(t: Table, f: Filter, order: seq<Product>) {
    && (forall i, j :: 0 <= i < j < |order| ==> order[i].id != order[j].id && order[i].createdAt >= order[j].createdAt)
    && (forall p :: p in order <==> p.id in t && t[p.id] == p && Wanted(f, p))
  }

  function Matching(t: Table, scan: seq<Id>, f: Filter): seq<Product>
    requires forall id :: id in scan ==> id in t
  {
    if scan == [] then []
    else
      var p := t[scan[|scan| - 1]];
      var before := Matching(t, scan[..|scan| - 1], f);
      if Wanted(f, p) then before + [p] else before
  }

  lemma {:induction false} RowsAreTheMatches(t: Table, scan: seq<Id>, clauses: seq<Clause>, args: seq<Value>, f: Filter)
    requires (forall id :: id in scan ==> id in t) && Compiled(clauses, args, f)
    ensures Rows(t, scan, clauses, args) == Some(Matching(t, scan, f))
  {
    if scan != [] {
      RowsAreTheMatches(t, scan[..|scan| - 1], clauses, args, f);
    }
  }

  lemma {:induction false} MatchingMembers(t: Table, scan: seq<Id>, f: Filter)
    requires forall id :: id in scan ==> id in t && t[id].id == id
    ensures forall p :: p in Matching(t, scan, f) <==> p.id in scan && t[p.id] == p && Wanted(f, p)
  {
    hide Wanted;
    if scan != [] {
      var front, last := scan[..|scan| - 1], scan[|scan| - 1];
      MatchingMembers(t, front, f);
      assert scan == front + [last];
    }
  }

  lemma {:induction false} MatchingIsDistinct(t: Table, scan: seq<Id>, f: Filter)
    requires forall id :: id in scan ==> id in t && t[id].id == id
    requires forall i, j :: 0 <= i < j < |scan| ==> scan[i] != scan[j]
    ensures Distinct(Matching(t, scan, f))
  {
    hide Wanted;
    if scan != [] {
      var front := scan[..|scan| - 1];
      MatchingIsDistinct(t, front, f);
      MatchingMembers(t, front, f);
      var m := Matching(t, front, f);
      forall i | 0 <= i < |m| ensures m[i].id != scan[|scan| - 1] {
        assert m[i] in m;
      }
    }
  }

  function MatchIdsAmong(t: Table, scan: seq<Id>, f: Filter): set<Id>
    requires forall id :: id in scan ==> id in t
  {
    set id | id in scan && Wanted(f, t[id])
  }

  lemma OneMoreMatchId(t: Table, front: seq<Id>, last: Id, f: Filter)
    requires (forall id :: id in front + [last] ==> id in t) && last !in front
    ensures (forall id :: id in front ==> id in t) && last !in MatchIdsAmong(t, front, f) && last in t
    ensures MatchIdsAmong(t, front + [last], f) ==
              if Wanted(f, t[last]) then MatchIdsAmong(t, front, f) + {last} else MatchIdsAmong(t, front, f)
  {
    hide Wanted;
    assert forall id :: id in front ==> id in front + [last];
    assert last in front + [last];
  }

  lemma {:induction false} MatchingCount(t: Table, scan: seq<Id>, f: Filter)
    requires forall id :: id in scan ==> id in t
    requires forall i, j :: 0 <= i < j < |scan| ==> scan[i] != scan[j]
    ensures |Matching(t, scan, f)| == |MatchIdsAmong(t, scan, f)|
  {
    if scan != [] {
      var front, last := scan[..|scan| - 1], scan[|scan| - 1];
      assert scan == front + [last];
      OneMoreMatchId(t, front, last, f);
      hide Wanted, MatchIdsAmong;
      MatchingCount(t, front, f);
    }
  }

  predicate Distinct(rows: seq<Product>) {
    forall i, j :: 0 <= i < j < |rows| ==> rows[i].id != rows[j].id
  }

  predicate Descending(rows: seq<Product>) {
    forall i, j :: 0 <= i < j < |rows| ==> rows[i].createdAt >= rows[j].createdAt
  }

  lemma {:induction false} PlaceMembers(p: Product, rows: seq<Product>)
    ensures |Place(p, rows)| == |rows| + 1
    ensures forall x :: x in Place(p, rows) <==> x == p || x in rows
  {
    if rows != [] && rows[|rows| - 1].createdAt < p.createdAt {
      var front, last := rows[..|rows| - 1], rows[|rows| - 1];
      assert rows == front + [last];
      PlaceMembers(p, front);
    }
  }

  lemma {:induction false} PlaceKeepsOrder(p: Product, rows: seq<Product>)
    requires Descending(rows) && Distinct(rows) && forall x :: x in rows ==> x.id != p.id
    ensures Descending(Place(p, rows)) && Distinct(Place(p, rows))
  {
    if rows != [] && rows[|rows| - 1].createdAt < p.createdAt {
      var front, last := rows[..|rows| - 1], rows[|rows| - 1];
      assert rows == front + [last];
      PlaceKeepsOrder(p, front);
      PlaceMembers(p, front);
      var placed := Place(p, front);
      hide Place;
      forall i | 0 <= i < |placed| ensures placed[i].createdAt >= last.createdAt && placed[i].id != last.id {
        assert placed[i] in placed;
      }
    }
  }

  lemma {:induction false} NewestFirstSorts(rows: seq<Product>)
    requires Distinct(rows)
    ensures var sorted := NewestFirst(rows);
            && Descending(sorted) && Distinct(sorted) && |sorted| == |rows|
            && forall x :: x in sorted <==> x in rows
  {
    if rows != [] {
      var front, last := rows[..|rows| - 1], rows[|rows| - 1];
      NewestFirstSorts(front);
      assert rows == front + [last];
      PlaceKeepsOrder(last, NewestFirst(front));
      PlaceMembers(last, NewestFirst(front));
    }
  }

  /** What it means to be wanted, condition by condition; a plain search text has to occur in the name. */
  lemma WantedMeans(f: Filter, p: Product)
    ensures Wanted(f, p) <==>
            && p.active
            && (f.category.Some? ==> p.category.Some? && p.category.value == f.category.value)
            && (f.brand != "" ==> p.brand == f.brand)
            && (f.minPrice.Some? ==> f.minPrice.value <= p.price)
            && (f.maxPrice.Some? ==> p.price <= f.maxPrice.value)
            && (f.search != "" ==> Like.ILike(p.name, "%" + f.search + "%"))
    ensures Wanted(f, p) && f.search != "" && Like.Plain(f.search) ==> Like.Contains(p.name, f.search)
  {
    if Satisfies(p, f, OnCategory) && Satisfies(p, f, OnBrand) && Satisfies(p, f, OnMinPrice)
       && Satisfies(p, f, OnMaxPrice) && Satisfies(p, f, OnName) {
      forall c ensures Satisfies(p, f, c) {
        match c case OnCategory => case OnBrand => case OnMinPrice => case OnMaxPrice => case OnName =>
      }
    }
    assert Satisfies(p, f, OnCategory) <==> (f.category.Some? ==> p.category == f.category);
    assert Satisfies(p, f, OnBrand) <==> (f.brand != "" ==> p.brand == f.brand);
    assert Satisfies(p, f, OnMinPrice) <==> (f.minPrice.Some? ==> f.minPrice.value <= p.price);
    assert Satisfies(p, f, OnMaxPrice) <==> (f.maxPrice.Some? ==> p.price <= f.maxPrice.value);
    assert Satisfies(p, f, OnName) <==> (f.search != "" ==> Like.ILike(p.name, "%" + f.search + "%"));
    if Like.Plain(f.search) {
      Like.PlainSearchIsContains(p.name, f.search);
    }
  }

  /** The listing that a statement produces when it visits the rows in the order `scan`. */
  function Listed(t: Table, scan: seq<Id>, f: Filter): seq<Product>
    requires forall id :: id in scan ==> id in t
  {
    NewestFirst(Matching(t, scan, f))
  }

  /** Every match is listed once, as it is stored, and nothing else is; the newest comes first. */
  lemma ListedIsAListing(t: Table, scan: seq<Id>, f: Filter)
    requires Enumerates(scan, t) && Keyed(t)
    ensures Listing(t, f, Listed(t, scan, f)) && |Matching(t, scan, f)| == |MatchIds(t, f)|
    ensures var listed := Listed(t, scan, f);
            && (forall k :: 0 <= k < |listed| ==>
                  listed[k].id in t && t[listed[k].id] == listed[k] && Wanted(f, listed[k]))
            && (forall id :: id in t && Wanted(f, t[id]) ==> t[id] in listed)
            && (forall i, j :: 0 <= i < j < |listed| ==>
                  listed[i].id != listed[j].id && listed[i].createdAt >= listed[j].createdAt)
  {
    MatchingMembers(t, scan, f);
    MatchingIsDistinct(t, scan, f);
    MatchingCount(t, scan, f);
    NewestFirstSorts(Matching(t, scan, f));
    assert MatchIds(t, f) == MatchIdsAmong(t, scan, f);
  }

  // ---------- the call ----------

  /** What other callers do to the table. */
  datatype Write = Create(p: Product) | Update(p: Product)

  function Written(t: Table, writes: seq<Write>): Table {
    if writes == [] then t
    else
      var before := Written(t, writes[..|writes| - 1]);
      match writes[|writes| - 1]
      case Create(p) => Inserted(before, p)
      case Update(p) => Updated(before, p)
  }

  lemma {:induction false} WrittenStaysKeyed(t: Table, writes: seq<Write>)
    requires Keyed(t)
    ensures Keyed(Written(t, writes))
  {
    if writes != [] {
      WrittenStaysKeyed(t, writes[..|writes| - 1]);
    }
  }

  lemma MoreArgumentsStayCompiled(clauses: seq<Clause>, args: seq<Value>, more: seq<Value>, f: Filter)
    requires Compiled(clauses, args, f)
    ensures Compiled(clauses, args + more, f)
  {
    forall p ensures Eval(clauses, args + more, p) == Eval(clauses, args, p) {
      MoreArguments(clauses, args, more, p);
    }
  }

  function Limit(f: Filter): nat {
    if f.limit <= 0 then 20 else f.limit
  }

  function Offset(f: Filter): nat {
    if f.offset < 0 then 0 else f.offset
  }

  /** The select with the limit and the offset behind the other arguments gives a page of the listing. */
  lemma SelectGivesThePage(t: Table, scan: seq<Id>, clauses: seq<Clause>, args: seq<Value>, f: Filter)
    requires (forall id :: id in scan ==> id in t) && Compiled(clauses, args, f)
    ensures RunSelect(t, scan, Select(clauses, |args| + 1, |args| + 2), args + [Count(Limit(f)), Count(Offset(f))]) ==
              Some(Page(Listed(t, scan, f), Limit(f), Offset(f)))
  {
    var more := [Count(Limit(f)), Count(Offset(f))];
    MoreArgumentsStayCompiled(clauses, args, more, f);
    RowsAreTheMatches(t, scan, clauses, args + more, f);
    assert (args + more)[|args|] == more[0] && (args + more)[|args| + 1] == more[1];
  }

  /** The rows of a page that arrive, cut from the listing by the filter's own limit and offset. */
  lemma PageOfTheFilter<T>(listing: seq<T>, f: Filter, arrived: nat)
    ensures var page := Page(listing, Limit(f), Offset(f));
            var limit := if f.limit > 0 then f.limit else 20;
            var offset := if f.offset >= 0 then f.offset else 0;
            var first := if offset < |listing| then offset else |listing|;
            var last := if offset + limit < |listing| then offset + limit else |listing|;
            && |page| == last - first && (f.limit > 0 ==> |page| <= f.limit)
            && page[..Min(arrived, |page|)] ==
               listing[first..if arrived < last - first then first + arrived else last]
  {
  }

  datatype QueryError = CountFailed | SelectFailed | ScanFailed

  class ProductRepository {
    var table: Table

    /**
     List.  Two statements, which visit the rows in the orders `scan` and `scan'`; `others` write in
     between.  `arrived` rows of the page arrive before the connection breaks, and the first `readable`
     rows can be scanned.  The total counts every match, whatever the limit and the offset.  A stream of
     rows that ends early is not an error: the page is cut short.
     */
    method List(filter: Filter, scan: seq<Id>, counted: bool, others: seq<Write>,
                scan': seq<Id>, selected: bool, arrived: nat, readable: nat)
      returns (r: Result<(seq<Product>, nat), QueryError>)
      requires Keyed(table) && Enumerates(scan, table) && Enumerates(scan', Written(table, others))
      modifies this
      ensures table == if counted then Written(old(table), others) else old(table)
      ensures var listing := Listed(Written(old(table), others), scan', filter);
              var limit := if filter.limit > 0 then filter.limit else 20;
              var offset := if filter.offset >= 0 then filter.offset else 0;
              var first := if offset < |listing| then offset else |listing|;
              var last := if offset + limit < |listing| then offset + limit else |listing|;
              && (r == Err(CountFailed) <==> !counted)
              && (r == Err(SelectFailed) <==> counted && !selected)
              && (r == Err(ScanFailed) <==> counted && selected && readable < arrived && readable < last - first)
              && (r.Ok? ==>
                    && r.value.0 == listing[first..if arrived < last - first then first + arrived else last]
                    && r.value.1 == |MatchIds(old(table), filter)|)
      ensures r.Ok? && filter.limit > 0 ==> |r.value.0| <= filter.limit
    {
      var whereClauses, args, argIdx := BuildWhere(filter);

      var total := CountMatches(filter, scan, whereClauses, args, counted);
      if total.None? {
        return Err(CountFailed);
      }
      table := Written(table, others);
      if !selected {
        return Err(SelectFailed);
      }
      hide *;
      var products := SelectPage(filter, scan', whereClauses, args, argIdx, arrived, readable);
      r := if products.None? then Err(ScanFailed) else Ok((products.value, total.value));
    }

    /** The select, with the limit and the offset of the filter or their defaults, and the loop over its rows. */
    method SelectPage(filter: Filter, scan: seq<Id>, whereClauses: seq<Clause>, args0: seq<Value>, argIdx: nat,
                      arrived: nat, readable: nat)
      returns (products: Option<seq<Product>>)
      requires Compiled(whereClauses, args0, filter) && argIdx == |args0| + 1
      requires forall id :: id in scan ==> id in table
      ensures var listing := Listed(table, scan, filter);
              var limit := if filter.limit > 0 then filter.limit else 20;
              var offset := if filter.offset >= 0 then filter.offset else 0;
              var first := if offset < |listing| then offset else |listing|;
              var last := if offset + limit < |listing| then offset + limit else |listing|;
              && (products.None? <==> readable < arrived && readable < last - first)
              && (products.Some? ==>
                    products.value == listing[first..if arrived < last - first then first + arrived else last])
      ensures products.Some? && filter.limit > 0 ==> |products.value| <= filter.limit
    {
      var limit := filter.limit;
      if limit <= 0 {
        limit := 20;
      }
      var offset := filter.offset;
      if offset < 0 {
        offset := 0;
      }
      SelectGivesThePage(table, scan, whereClauses, args0, filter);
      var args := args0 + [Count(limit), Count(offset)];
      var rows := RunSelect(table, scan, Select(whereClauses, argIdx, argIdx + 1), args).value;
      ghost var listing := Listed(table, scan, filter);
      assert rows == Page(listing, Limit(filter), Offset(filter));
      PageOfTheFilter(listing, filter, arrived);
      hide RunSelect, Listed, Page, Compiled;
      products := ScanRows(rows, arrived, readable);
    }

    /** SELECT COUNT(*). */
    method CountMatches(filter: Filter, scan: seq<Id>, whereClauses: seq<Clause>, args: seq<Value>, ok: bool)
      returns (total: Option<nat>)
      requires Compiled(whereClauses, args, filter) && Keyed(table) && Enumerates(scan, table)
      ensures total == if ok then Some(|MatchIds(table, filter)|) else None
    {
      if !ok {
        return None;
      }
      RowsAreTheMatches(table, scan, whereClauses, args, filter);
      ListedIsAListing(table, scan, filter);
      total := Some(|Rows(table, scan, whereClauses, args).value|);
    }

    /** The loop over the rows. */
    method ScanRows(rows: seq<Product>, arrived: nat, readable: nat) returns (products: Option<seq<Product>>)
      ensures products == if readable < Min(arrived, |rows|) then None else Some(rows[..Min(arrived, |rows|)])
    {
      var scanned := [];
      var i := 0;
      while i < |rows| && i < arrived
        invariant i <= |rows| && i <= arrived && i <= readable && scanned == rows[..i]
      {
        if i >= readable {
          return None;
        }
        scanned := scanned + [rows[i]];
        i := i + 1;
      }
      products := Some(scanned);
    }
  }

  // ---------- pages ----------

  /** The pages 0 to n - 1 of size `limit`, page k cut from the listing orders[k] that its statement came to. */
  function Pages<T>(orders: seq<seq<T>>, limit: nat, n: nat): seq<T>
    requires n <= |orders|
  {
    if n == 0 then [] else Pages(orders, limit, n - 1) + Page(orders[n - 1], limit, (n - 1) * limit)
  }

  lemma NextPage<T>(full: seq<T>, limit: nat, offset: nat)
    ensures full[..Min(offset, |full|)] + Page(full, limit, offset) == full[..Min(offset + limit, |full|)]
  {
  }

  lemma {:induction false} PagesTile<T>(orders: seq<seq<T>>, full: seq<T>, limit: nat, n: nat)
    requires n <= |orders| && forall k :: 0 <= k < n ==> orders[k] == full
    ensures Pages(orders, limit, n) == full[..Min(n * limit, |full|)]
  {
    if n > 0 {
      PagesTile(orders, full, limit, n - 1);
      var offset := (n - 1) * limit;
      assert n * limit == offset + limit;
      hide Page;
      NextPage(full, limit, offset);
    }
  }

  ghost predicate TimesDistinct(t: Table, f: Filter) {
    forall a, b :: a in MatchIds(t, f) && b in MatchIds(t, f) && a != b ==> t[a].createdAt != t[b].createdAt
  }

  predicate StrictlyDescending(rows: seq<Product>) {
    forall i, j :: 0 <= i < j < |rows| ==> rows[i].createdAt > rows[j].createdAt
  }

  lemma {:induction false} StrictOrderIsUnique(a: seq<Product>, b: seq<Product>)
    requires StrictlyDescending(a) && StrictlyDescending(b) && forall p :: p in a <==> p in b
    ensures a == b
    decreases |a|
  {
    assert |a| == 0 <==> |b| == 0 by {
      if |a| > 0 { assert a[0] in b; }
      if |b| > 0 { assert b[0] in a; }
    }
    if a != [] {
      assert a[0] in b && b[0] in a;
      assert a[0] == b[0];
      forall p ensures p in a[1..] <==> p in b[1..] {
        assert p in a[1..] <==> p in a && p != a[0] by { assert a == [a[0]] + a[1..]; }
        assert p in b[1..] <==> p in b && p != b[0] by { assert b == [b[0]] + b[1..]; }
      }
      StrictOrderIsUnique(a[1..], b[1..]);
    }
  }

  /** With distinct creation times there is one listing only. */
  lemma ListingIsUnique(t: Table, f: Filter, a: seq<Product>, b: seq<Product>)
    requires TimesDistinct(t, f) && Keyed(t) && Listing(t, f, a) && Listing(t, f, b)
    ensures a == b
  {
    ListingIsStrict(t, f, a);
    ListingIsStrict(t, f, b);
    StrictOrderIsUnique(a, b);
  }

  lemma ListingIsStrict(t: Table, f: Filter, a: seq<Product>)
    requires TimesDistinct(t, f) && Listing(t, f, a)
    ensures StrictlyDescending(a)
  {
    forall i, j | 0 <= i < j < |a| ensures a[i].createdAt > a[j].createdAt {
      assert a[i] in a && a[j] in a;
      assert a[i].id in MatchIds(t, f) && a[j].id in MatchIds(t, f);
    }
  }

  ghost predicate AreListings(t: Table, f: Filter, orders: seq<seq<Product>>) {
    forall k :: 0 <= k < |orders| ==> Listing(t, f, orders[k])
  }

  /** However the statements break ties: enough pages in a row make up a listing. */
  ghost predicate PagesAlwaysTile(t: Table, f: Filter) {
    forall orders, limit: nat :: Tile(t, f, orders, limit)
  }

  ghost predicate Tile(t: Table, f: Filter, orders: seq<seq<Product>>, limit: nat) {
    AreListings(t, f, orders) && |MatchIds(t, f)| <= |orders| * limit ==> Listing(t, f, Pages(orders, limit, |orders|))
  }

  lemma {:induction false} DistinctCount(rows: seq<Product>)
    requires Distinct(rows)
    ensures |set p | p in rows :: p.id| == |rows|
  {
    if rows == [] {
      assert (set p | p in rows :: p.id) == {};
    } else {
      var front, last := rows[..|rows| - 1], rows[|rows| - 1];
      assert rows == front + [last];
      DistinctCount(front);
      assert (set p | p in rows :: p.id) == (set p | p in front :: p.id) + {last.id};
    }
  }

  lemma ListingLength(t: Table, f: Filter, order: seq<Product>)
    requires Keyed(t) && Listing(t, f, order)
    ensures |order| == |MatchIds(t, f)|
  {
    DistinctCount(order);
    forall id ensures id in MatchIds(t, f) <==> id in set p | p in order :: p.id {
      if id in MatchIds(t, f) {
        assert t[id] in order;
      }
    }
    assert MatchIds(t, f) == set p | p in order :: p.id;
  }

  lemma DistinctTimesTile(t: Table, f: Filter, orders: seq<seq<Product>>, limit: nat)
    requires TimesDistinct(t, f) && Keyed(t) && AreListings(t, f, orders)
    requires |MatchIds(t, f)| <= |orders| * limit
    ensures Listing(t, f, Pages(orders, limit, |orders|))
  {
    if orders != [] {
      var full := orders[0];
      forall k | 0 <= k < |orders| ensures orders[k] == full {
        ListingIsUnique(t, f, orders[k], full);
      }
      PagesTile(orders, full, limit, |orders|);
      ListingLength(t, f, full);
      var covered := |orders| * limit;
      hide Pages, Listing, TimesDistinct, MatchIds, Keyed;
      assert full[..Min(covered, |full|)] == full;
    } else {
      assert MatchIds(t, f) == {};
      forall p: Product | p.id in t && t[p.id] == p ensures !Wanted(f, p) {
        assert p.id !in MatchIds(t, f);
      }
    }
  }

  /** The same listing with two neighbours swapped. */
  function Swapped(order: seq<Product>, i: nat): seq<Product>
    requires i + 1 < |order|
  {
    order[i := order[i + 1]][i + 1 := order[i]]
  }

  lemma SwappedIsAListing(t: Table, f: Filter, order: seq<Product>, i: nat)
    requires Listing(t, f, order) && i + 1 < |order| && order[i].createdAt == order[i + 1].createdAt
    ensures Listing(t, f, Swapped(order, i))
  {
    var swapped := Swapped(order, i);
    assert forall k :: 0 <= k < |order| ==> swapped[k] == order[if k == i then i + 1 else if k == i + 1 then i else k];
    forall p ensures p in swapped <==> p in order {
      if p in order {
        var k :| 0 <= k < |order| && order[k] == p;
        assert swapped[if k == i then i + 1 else if k == i + 1 then i else k] == p;
      }
    }
  }

  lemma PageOfOne<T>(order: seq<T>, k: nat)
    requires k < |order|
    ensures Page(order, 1, k) == [order[k]]
  {
  }

  lemma {:induction false} PagesOfOne<T>(orders: seq<seq<T>>, n: nat)
    requires n <= |orders| && forall k :: 0 <= k < |orders| ==> |orders[k]| == |orders|
    ensures |Pages(orders, 1, n)| == n && forall k :: 0 <= k < n ==> Pages(orders, 1, n)[k] == orders[k][k]
  {
    if n > 0 {
      PagesOfOne(orders, n - 1);
      assert (n - 1) * 1 == n - 1;
      PageOfOne(orders[n - 1], n - 1);
      hide Page;
    }
  }

  /** The listings that the statements of successive pages come to: only that of page i breaks the tie the other way. */
  function TieOrders(order: seq<Product>, i: nat): (orders: seq<seq<Product>>)
    requires i + 1 < |order|
    ensures |orders| == |order|
    ensures forall k :: 0 <= k < |order| ==> orders[k] == if k == i then Swapped(order, i) else order
  {
    seq(|order|, (k: nat) => if k == i then Swapped(order, i) else order)
  }

  /** Two neighbours of the same creation time, one of which two pages of one row both show. */
  lemma TiesRepeat(t: Table, f: Filter, order: seq<Product>, i: nat)
    requires Keyed(t) && Listing(t, f, order) && i + 1 < |order| && order[i].createdAt == order[i + 1].createdAt
    ensures !Tile(t, f, TieOrders(order, i), 1)
  {
    SwappedIsAListing(t, f, order, i);
    ListingLength(t, f, order);
    TiesShowTwice(order, i);
    hide TieOrders, Swapped, Pages, Wanted, MatchIds;
    assert AreListings(t, f, TieOrders(order, i));
  }

  lemma TiesShowTwice(order: seq<Product>, i: nat)
    requires i + 1 < |order|
    ensures var pages := Pages(TieOrders(order, i), 1, |order|);
            |pages| == |order| && pages[i] == order[i + 1] == pages[i + 1]
  {
    assert |Swapped(order, i)| == |order| && Swapped(order, i)[i] == order[i + 1];
    hide TieOrders;
    PagesOfOne(TieOrders(order, i), |order|);
  }

  lemma TiedNeighbours(t: Table, f: Filter, order: seq<Product>) returns (i: nat)
    requires !TimesDistinct(t, f) && Keyed(t) && Listing(t, f, order)
    ensures i + 1 < |order| && order[i].createdAt == order[i + 1].createdAt
  {
    hide Wanted;
    var a, b :| a in MatchIds(t, f) && b in MatchIds(t, f) && a != b && t[a].createdAt == t[b].createdAt;
    assert t[a] in order && t[b] in order;
    assert Descending(order);
    hide Listing, MatchIds;
    var j :| 0 <= j < |order| && order[j] == t[a];
    var k :| 0 <= k < |order| && order[k] == t[b];
    i := if j < k then j else k;
  }

  lemma TiesBreakPages(t: Table, f: Filter, scan: seq<Id>)
    requires Keyed(t) && Enumerates(scan, t) && !TimesDistinct(t, f)
    ensures !PagesAlwaysTile(t, f)
  {
    var order := Listed(t, scan, f);
    ListedIsAListing(t, scan, f);
    hide TimesDistinct, Listing, Listed, Pages, Swapped, MatchIds, Tile;
    var i := TiedNeighbours(t, f, order);
    TiesRepeat(t, f, order, i);
  }

  /**
   Pages at the offsets 0, L, 2L and so on, until everything is covered, show every match exactly once and in
   order, however each statement breaks ties, exactly when no two matches were created at the same time.
   */
  lemma PagesTileExactlyWhenTimesAreDistinct(t: Table, f: Filter, scan: seq<Id>)
    requires Keyed(t) && Enumerates(scan, t)
    ensures PagesAlwaysTile(t, f) <==> TimesDistinct(t, f)
  {
    hide Enumerates, Keyed, TimesDistinct, Listing, Listed, Pages, Swapped, MatchIds;
    if TimesDistinct(t, f) {
      forall orders, limit: nat ensures Tile(t, f, orders, limit) {
        if AreListings(t, f, orders) && |MatchIds(t, f)| <= |orders| * limit {
          DistinctTimesTile(t, f, orders, limit);
        }
      }
    } else {
      TiesBreakPages(t, f, scan);
    }
  }
}
