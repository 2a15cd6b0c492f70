/** The two tables of the store, their keys and constraints, and lookups by
    primary key. The categories table is keyed by `id` with `name` unique per
    category type; every operation's `category_id` must name a category
    (app/database.py). */
module Tables {
  import opened Results
  import opened Schemas

  /** The primary-key column of the categories table. */
  function CategoryIds(cats: seq<Category>): (ids: seq<int>)
    ensures |ids| == |cats| && forall j :: 0 <= j < |cats| ==> ids[j] == cats[j].id
  {
    seq(|cats|, j requires 0 <= j < |cats| => cats[j].id)
  }

  /** The primary-key column of the operations table. */
  function OperationIds(ops: seq<Operation>): (ids: seq<int>)
    ensures |ids| == |ops| && forall j :: 0 <= j < |ops| ==> ids[j] == ops[j].id
  {
    seq(|ops|, j requires 0 <= j < |ops| => ops[j].id)
  }

  /** Position of the first occurrence of an id in a key column, if any. */
  function IndexOf(ids: seq<int>, id: int): (r: Option<nat>)
    ensures r.Some? ==> r.value < |ids| && ids[r.value] == id
    ensures r.Some? ==> forall j :: 0 <= j < r.value ==> ids[j] != id
    ensures r.None? <==> forall j :: 0 <= j < |ids| ==> ids[j] != id
  {
    if ids == [] then None
    else if ids[0] == id then Some(0)
    else match IndexOf(ids[1..], id)
      case None => None
      case Some(k) => Some(k + 1)
  }

  /** Position of the category with this id, if any
      (`select(Category).where(Category.id == id)`). */
  function CategoryIndex(cats: seq<Category>, id: int): (r: Option<nat>)
    ensures r.Some? ==> r.value < |cats| && cats[r.value].id == id
    ensures r.None? <==> forall j :: 0 <= j < |cats| ==> cats[j].id != id
  {
    IndexOf(CategoryIds(cats), id)
  }

  /** Position of the operation with this id, if any
      (`select(Operation).where(Operation.id == id)`). */
  function OperationIndex(ops: seq<Operation>, id: int): (r: Option<nat>)
    ensures r.Some? ==> r.value < |ops| && ops[r.value].id == id
    ensures r.None? <==> forall j :: 0 <= j < |ops| ==> ops[j].id != id
  {
    IndexOf(OperationIds(ops), id)
  }

  predicate HasCategory(cats: seq<Category>, id: int)
  {
    exists j :: 0 <= j < |cats| && cats[j].id == id
  }

  /** SQL `Operation.category.has(category_type=t)`: some category with this
      id has type t. */
  predicate HasType(cats: seq<Category>, id: int, t: CategoryType)
  {
    exists j :: 0 <= j < |cats| && cats[j].id == id && cats[j].categoryType == t
  }

  /** Some category has this name and type. */
  predicate NameInUse(cats: seq<Category>, name: string, t: CategoryType)
  {
    exists j :: 0 <= j < |cats| && cats[j].name == name && cats[j].categoryType == t
  }

  /** Some category other than the one at position k has this name and type. */
  predicate NameInUseElsewhere(cats: seq<Category>, name: string, t: CategoryType, k: nat)
  {
    exists j :: 0 <= j < |cats| && j != k && cats[j].name == name && cats[j].categoryType == t
  }

  /** Some operation refers to the category with this id. */
  predicate Referenced(ops: seq<Operation>, id: int)
  {
    exists j :: 0 <= j < |ops| && ops[j].categoryId == id
  }

  predicate UniqueCategoryIds(cats: seq<Category>)
  {
    forall i, j :: 0 <= i < j < |cats| ==> cats[i].id != cats[j].id
  }

  /** The per-type uniqueness of category names. */
  predicate UniqueNames(cats: seq<Category>)
  {
    forall i, j :: 0 <= i < j < |cats| && cats[i].categoryType == cats[j].categoryType ==> cats[i].name != cats[j].name
  }

  predicate UniqueOperationIds(ops: seq<Operation>)
  {
    forall i, j :: 0 <= i < j < |ops| ==> ops[i].id != ops[j].id
  }

  predicate ForeignKeys(cats: seq<Category>, ops: seq<Operation>)
  {
    forall i :: 0 <= i < |ops| ==> HasCategory(cats, ops[i].categoryId)
  }

  /** Every constraint the database enforces on the two tables. */
  predicate Consistent(cats: seq<Category>, ops: seq<Operation>)
  {
    UniqueCategoryIds(cats) && UniqueNames(cats) && UniqueOperationIds(ops) && ForeignKeys(cats, ops)
  }

  /** With unique ids, "some category with this id has type t" is the same as
      "the category with this id has type t". */
  lemma HasTypeOfIndex(cats: seq<Category>, id: int, t: CategoryType)
    requires UniqueCategoryIds(cats)
    ensures HasType(cats, id, t) <==> CategoryIndex(cats, id).Some? && cats[CategoryIndex(cats, id).value].categoryType == t
  {
    if HasType(cats, id, t) {
      var j :| 0 <= j < |cats| && cats[j].id == id && cats[j].categoryType == t;
      var k := CategoryIndex(cats, id).value;
      assert !(j < k) && !(k < j);
    }
  }

  /** The largest id in a key column, 0 for an empty table. */
  function MaxId(ids: seq<int>): (m: int)
    ensures m >= 0
    ensures forall j :: 0 <= j < |ids| ==> ids[j] <= m
  {
    if ids == [] then 0
    else
      var rest := MaxId(ids[1..]);
      if ids[0] > rest then ids[0] else rest
  }

  /** The id SQLite gives a new row: one more than the largest id in use. */
  function NextCategoryId(cats: seq<Category>): (id: int)
    ensures id > 0 && !HasCategory(cats, id)
  {
    MaxId(CategoryIds(cats)) + 1
  }

  function NextOperationId(ops: seq<Operation>): (id: int)
    ensures id > 0 && OperationIndex(ops, id).None?
  {
    MaxId(OperationIds(ops)) + 1
  }

  /** An id appended to a key column that lacks it is found at the end. */
  lemma {:induction false} IndexOfAppend(ids: seq<int>, id: int)
    requires IndexOf(ids, id).None?
    ensures IndexOf(ids + [id], id) == Some(|ids|)
  {
    if ids != [] {
      assert (ids + [id])[1..] == ids[1..] + [id];
      IndexOfAppend(ids[1..], id);
    }
  }

  /** A row appended under an unused id is found at the end of the table. */
  lemma CategoryIndexAppend(cats: seq<Category>, c: Category)
    requires !HasCategory(cats, c.id)
    ensures CategoryIndex(cats + [c], c.id) == Some(|cats|)
  {
    assert CategoryIds(cats + [c]) == CategoryIds(cats) + [c.id];
    IndexOfAppend(CategoryIds(cats), c.id);
  }

  lemma OperationIndexAppend(ops: seq<Operation>, o: Operation)
    requires OperationIndex(ops, o.id).None?
    ensures OperationIndex(ops + [o], o.id) == Some(|ops|)
  {
    assert OperationIds(ops + [o]) == OperationIds(ops) + [o.id];
    IndexOfAppend(OperationIds(ops), o.id);
  }

  /** The sequence without its element at position k. */
  function RemoveAt<T>(s: seq<T>, k: nat): (r: seq<T>)
    requires k < |s|
    ensures |r| == |s| - 1
    ensures forall i :: 0 <= i < k ==> r[i] == s[i]
    ensures forall i :: k <= i < |r| ==> r[i] == s[i + 1]
  {
    s[..k] + s[k + 1..]
  }

  /** The store: the two tables, updated in place by the repositories. */
  class Store {
    var categories: seq<Category>
    var operations: seq<Operation>

    ghost predicate Valid()
      reads this
    {
      Consistent(categories, operations)
    }

    /** A freshly created, empty database. */
    constructor ()
      ensures Valid()
      ensures categories == [] && operations == []
    {
      categories := [];
      operations := [];
    }
  }
}
