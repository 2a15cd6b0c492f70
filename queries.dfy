/** The reads the handlers issue against the two tables: windowed and
    type-filtered selections of operations, the eager join of an operation
    with its category, and `func.sum(Operation.amount)` with `or 0`.
    Rows come back in table order. */
module Queries {
  import opened Results
  import opened Schemas
  import opened Tables

  /** `created_at >= start`: the window is closed at its start. */
  predicate InWindow(o: Operation, start: int)
  {
    o.createdAt >= start
  }

  /** Whether an operation is selected by the type filter and the window. */
  predicate Matches(cats: seq<Category>, o: Operation, t: CategoryType, start: int)
  {
    InWindow(o, start) && HasType(cats, o.categoryId, t)
  }

  /** Sum of the amounts; 0 for no rows, as `scalar() or 0` gives. */
  function Total(ops: seq<Operation>): (r: int)
    ensures ops == [] ==> r == 0
    ensures (forall o :: o in ops ==> o.amount >= 0) ==> r >= 0
  {
    if ops == [] then 0 else ops[0].amount + Total(ops[1..])
  }

  /** `select(Operation).where(Operation.created_at >= start)`. */
  function Since(ops: seq<Operation>, start: int): (r: seq<Operation>)
    ensures |r| <= |ops|
    ensures forall o :: o in r <==> o in ops && InWindow(o, start)
  {
    if ops == [] then []
    else (if InWindow(ops[0], start) then [ops[0]] else []) + Since(ops[1..], start)
  }

  /** The operations of type t in the window: the join on the category with
      `category_type == t` and `created_at >= start`. */
  function ByType(cats: seq<Category>, ops: seq<Operation>, t: CategoryType, start: int): (r: seq<Operation>)
    ensures |r| <= |ops|
    ensures forall o :: o in r <==> o in ops && Matches(cats, o, t, start)
  {
    if ops == [] then []
    else (if Matches(cats, ops[0], t, start) then [ops[0]] else []) + ByType(cats, ops[1..], t, start)
  }

  /** The operations of one category. */
  function WithCategory(ops: seq<Operation>, id: int): (r: seq<Operation>)
    ensures |r| <= |ops|
    ensures forall o :: o in r <==> o in ops && o.categoryId == id
  {
    if ops == [] then []
    else (if ops[0].categoryId == id then [ops[0]] else []) + WithCategory(ops[1..], id)
  }

  /** The operations of every other category. */
  function WithoutCategory(ops: seq<Operation>, id: int): (r: seq<Operation>)
    ensures |r| <= |ops|
    ensures forall o :: o in r <==> o in ops && o.categoryId != id
  {
    if ops == [] then []
    else (if ops[0].categoryId != id then [ops[0]] else []) + WithoutCategory(ops[1..], id)
  }

  /** The window selection lists each operation of the window as many times
      as the table holds it, and no other: SQL returns every row once. */
  lemma {:induction false} SinceCounts(ops: seq<Operation>, start: int)
    ensures forall o :: multiset(Since(ops, start))[o] == if InWindow(o, start) then multiset(ops)[o] else 0
  {
    if ops != [] {
      SinceCounts(ops[1..], start);
      assert ops == [ops[0]] + ops[1..];
    }
  }

  /** The type selection counts each row as the table does. */
  lemma {:induction false} ByTypeCounts(cats: seq<Category>, ops: seq<Operation>, t: CategoryType, start: int)
    ensures forall o :: multiset(ByType(cats, ops, t, start))[o] == if Matches(cats, o, t, start) then multiset(ops)[o] else 0
  {
    if ops != [] {
      ByTypeCounts(cats, ops[1..], t, start);
      assert ops == [ops[0]] + ops[1..];
    }
  }

  /** One category's group counts each of its rows as the table does. */
  lemma {:induction false} WithCategoryCounts(ops: seq<Operation>, id: int)
    ensures forall o :: multiset(WithCategory(ops, id))[o] == if o.categoryId == id then multiset(ops)[o] else 0
  {
    if ops != [] {
      WithCategoryCounts(ops[1..], id);
      assert ops == [ops[0]] + ops[1..];
    }
  }

  /** The per-type sum of the analytics summary. */
  function SumByType(cats: seq<Category>, ops: seq<Operation>, t: CategoryType, start: int): int
  {
    Total(ByType(cats, ops, t, start))
  }

  lemma {:induction false} TotalConcat(a: seq<Operation>, b: seq<Operation>)
    ensures Total(a + b) == Total(a) + Total(b)
  {
    if a != [] {
      TotalConcat(a[1..], b);
      assert (a + b)[1..] == a[1..] + b;
    } else {
      assert a + b == b;
    }
  }

  lemma {:induction false} ByTypeConcat(cats: seq<Category>, a: seq<Operation>, b: seq<Operation>, t: CategoryType, start: int)
    ensures ByType(cats, a + b, t, start) == ByType(cats, a, t, start) + ByType(cats, b, t, start)
  {
    if a != [] {
      ByTypeConcat(cats, a[1..], b, t, start);
      assert (a + b)[0] == a[0] && (a + b)[1..] == a[1..] + b;
      var head := if Matches(cats, a[0], t, start) then [a[0]] else [];
      var x, y := ByType(cats, a[1..], t, start), ByType(cats, b, t, start);
      assert ByType(cats, a + b, t, start) == head + ByType(cats, a[1..] + b, t, start);
      assert ByType(cats, a, t, start) == head + x;
      assert head + (x + y) == (head + x) + y;
    } else {
      assert a + b == b;
    }
  }

  /** The sum over two tables laid end to end is the sum of the two sums. */
  lemma SumByTypeConcat(cats: seq<Category>, a: seq<Operation>, b: seq<Operation>, t: CategoryType, start: int)
    ensures SumByType(cats, a + b, t, start) == SumByType(cats, a, t, start) + SumByType(cats, b, t, start)
  {
    ByTypeConcat(cats, a, b, t, start);
    TotalConcat(ByType(cats, a, t, start), ByType(cats, b, t, start));
  }

  /** One more operation adds its amount to the sum exactly when it is of
      type t and dated on or after the start; in particular an operation dated
      on the start is counted and one dated the day before is not. */
  lemma SumByTypeAppend(cats: seq<Category>, ops: seq<Operation>, o: Operation, t: CategoryType, start: int)
    ensures SumByType(cats, ops + [o], t, start)
            == SumByType(cats, ops, t, start) + (if Matches(cats, o, t, start) then o.amount else 0)
    ensures o.createdAt == start && HasType(cats, o.categoryId, t)
            ==> SumByType(cats, ops + [o], t, start) == SumByType(cats, ops, t, start) + o.amount
    ensures o.createdAt == start - 1
            ==> SumByType(cats, ops + [o], t, start) == SumByType(cats, ops, t, start)
  {
    SumByTypeConcat(cats, ops, [o], t, start);
    assert [o][1..] == [];
    assert ByType(cats, [o], t, start) == if Matches(cats, o, t, start) then [o] else [];
    assert Total([o]) == o.amount + Total([]);
  }

  /** Coalesce to zero: when nothing matches the sum is 0, not an error. */
  lemma {:induction false} SumByTypeNoMatch(cats: seq<Category>, ops: seq<Operation>, t: CategoryType, start: int)
    requires forall o :: o in ops ==> !Matches(cats, o, t, start)
    ensures SumByType(cats, ops, t, start) == 0
  {
    if ops != [] {
      assert ops[0] in ops;
      SumByTypeNoMatch(cats, ops[1..], t, start);
      assert ByType(cats, ops, t, start) == ByType(cats, ops[1..], t, start);
    }
  }

  lemma {:induction false} SumByTypeRemove(cats: seq<Category>, ops: seq<Operation>, k: nat, t: CategoryType, start: int)
    requires k < |ops|
    ensures SumByType(cats, ops, t, start)
            == SumByType(cats, RemoveAt(ops, k), t, start) + (if Matches(cats, ops[k], t, start) then ops[k].amount else 0)
  {
    assert ops == ops[..k] + [ops[k]] + ops[k + 1..];
    SumByTypeConcat(cats, ops[..k] + [ops[k]], ops[k + 1..], t, start);
    SumByTypeAppend(cats, ops[..k], ops[k], t, start);
    SumByTypeConcat(cats, ops[..k], ops[k + 1..], t, start);
  }

  lemma MultisetRemoveAt(s: seq<Operation>, k: nat)
    requires k < |s|
    ensures multiset(RemoveAt(s, k)) == multiset(s) - multiset{s[k]}
  {
    assert s == s[..k] + [s[k]] + s[k + 1..];
  }

  /** The sum does not depend on the order of the rows. */
  lemma {:induction false} SumByTypePermutation(cats: seq<Category>, a: seq<Operation>, b: seq<Operation>, t: CategoryType, start: int)
    requires multiset(a) == multiset(b)
    ensures SumByType(cats, a, t, start) == SumByType(cats, b, t, start)
    decreases |a|
  {
    if a == [] {
      assert |b| == |multiset(b)| == 0;
    } else {
      assert a[0] in multiset(b);
      var k :| 0 <= k < |b| && b[k] == a[0];
      MultisetRemoveAt(a, 0);
      MultisetRemoveAt(b, k);
      SumByTypePermutation(cats, RemoveAt(a, 0), RemoveAt(b, k), t, start);
      SumByTypeRemove(cats, a, 0, t, start);
      SumByTypeRemove(cats, b, k, t, start);
    }
  }

  /** Splitting rows by one category id splits their sum. */
  lemma {:induction false} TotalSplit(ops: seq<Operation>, id: int)
    ensures Total(ops) == Total(WithCategory(ops, id)) + Total(WithoutCategory(ops, id))
  {
    if ops != [] {
      TotalSplit(ops[1..], id);
      var w := if ops[0].categoryId == id then [ops[0]] else [];
      var v := if ops[0].categoryId != id then [ops[0]] else [];
      TotalConcat(w, WithCategory(ops[1..], id));
      TotalConcat(v, WithoutCategory(ops[1..], id));
    }
  }

  /** Dropping another category's rows leaves a category's rows as they were. */
  lemma {:induction false} WithCategoryWithout(ops: seq<Operation>, a: int, b: int)
    requires a != b
    ensures WithCategory(WithoutCategory(ops, a), b) == WithCategory(ops, b)
  {
    if ops != [] {
      WithCategoryWithout(ops[1..], a, b);
      var v := if ops[0].categoryId != a then [ops[0]] else [];
      WithCategoryConcat(v, WithoutCategory(ops[1..], a), b);
    }
  }

  lemma {:induction false} WithCategoryConcat(x: seq<Operation>, y: seq<Operation>, id: int)
    ensures WithCategory(x + y, id) == WithCategory(x, id) + WithCategory(y, id)
  {
    if x != [] {
      WithCategoryConcat(x[1..], y, id);
      assert (x + y)[1..] == x[1..] + y;
    } else {
      assert x + y == y;
    }
  }

  /** The category of an operation, as the eager load resolves it. */
  function CategoryOf(cats: seq<Category>, id: int): (r: Option<Category>)
    ensures r.Some? ==> r.value in cats && r.value.id == id
    ensures r.None? <==> !HasCategory(cats, id)
  {
    match CategoryIndex(cats, id)
    case None => None
    case Some(k) => Some(cats[k])
  }

  /** An operation with its category loaded (`selectinload(Operation.category)`). */
  datatype OperationWithCategory = OperationWithCategory(operation: Operation, category: Option<Category>)

  /** Whether an operation is among the loaded rows. */
  predicate Listed(rows: seq<OperationWithCategory>, o: Operation)
  {
    exists i :: 0 <= i < |rows| && rows[i].operation == o
  }

  /** The operations of loaded rows, in order. */
  function OperationsOf(rows: seq<OperationWithCategory>): (r: seq<Operation>)
    ensures |r| == |rows| && forall i :: 0 <= i < |rows| ==> r[i] == rows[i].operation
  {
    seq(|rows|, i requires 0 <= i < |rows| => rows[i].operation)
  }

  function LoadCategories(cats: seq<Category>, ops: seq<Operation>): (r: seq<OperationWithCategory>)
    ensures |r| == |ops|
    ensures forall i :: 0 <= i < |r| ==> r[i].operation == ops[i] && r[i].category == CategoryOf(cats, ops[i].categoryId)
  {
    seq(|ops|, i requires 0 <= i < |ops| => OperationWithCategory(ops[i], CategoryOf(cats, ops[i].categoryId)))
  }

  /** Under the foreign-key constraint every loaded category is present and
      is the one the operation refers to. */
  lemma LoadedCategoriesPresent(cats: seq<Category>, ops: seq<Operation>, start: int)
    requires ForeignKeys(cats, ops)
    ensures forall p :: p in LoadCategories(cats, Since(ops, start)) ==>
              p.category.Some? && p.category.value in cats && p.category.value.id == p.operation.categoryId
  {
    var s := Since(ops, start);
    forall p | p in LoadCategories(cats, s)
      ensures p.category.Some?
    {
      var i :| 0 <= i < |s| && LoadCategories(cats, s)[i] == p;
      assert s[i] in ops;
      var j :| 0 <= j < |ops| && ops[j] == s[i];
    }
  }

  /** The type-filtered listing: the matching operations, or "Операций не
      найдено" instead of an empty list. */
  function ListByType(cats: seq<Category>, ops: seq<Operation>, t: CategoryType, start: int): (r: Result<seq<Operation>, Error>)
    ensures r.Ok? ==> r.value != [] && forall o :: o in r.value <==> o in ops && Matches(cats, o, t, start)
    ensures r.Ok? ==> forall o :: multiset(r.value)[o] == if Matches(cats, o, t, start) then multiset(ops)[o] else 0
    ensures r.Err? <==> forall o :: o in ops ==> !Matches(cats, o, t, start)
    ensures r.Err? ==> r.error == NoOperations
  {
    var found := ByType(cats, ops, t, start);
    ByTypeCounts(cats, ops, t, start);
    assert found != [] ==> found[0] in found;
    if found != [] then Ok(found) else Err(NoOperations)
  }

  /** The unfiltered listing: every operation of the window with its
      category, or "Операций не найдено" instead of an empty list. */
  function ListAll(cats: seq<Category>, ops: seq<Operation>, start: int): (r: Result<seq<OperationWithCategory>, Error>)
    ensures r.Ok? ==> r.value != []
    ensures r.Ok? ==> forall o :: Listed(r.value, o) <==> o in ops && InWindow(o, start)
    ensures r.Ok? ==> forall o :: multiset(OperationsOf(r.value))[o] == if InWindow(o, start) then multiset(ops)[o] else 0
    ensures r.Ok? ==> forall p :: p in r.value ==> p.category == CategoryOf(cats, p.operation.categoryId)
    ensures r.Err? <==> forall o :: o in ops ==> !InWindow(o, start)
    ensures r.Err? ==> r.error == NoOperations
  {
    var found := Since(ops, start);
    assert found != [] ==> found[0] in found;
    if found != [] then
      var loaded := LoadCategories(cats, found);
      SinceCounts(ops, start);
      assert OperationsOf(loaded) == found;
      assert forall o :: o in found ==> Listed(loaded, o);
      Ok(loaded)
    else Err(NoOperations)
  }
}
