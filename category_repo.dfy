/** `CategoryRepo` (app/categories/repository.py): create, read, update and
    delete of categories. Every write is all or nothing: on a failure the
    session is rolled back and the store is left as it was. */
module CategoryRepo {
  import opened Results
  import opened Schemas
  import opened Tables
  import opened CaseMapping

  /** `create_one`: stores the lowered name under a new id, unless a category
      of that type already has the lowered name. */
  method CreateOne(store: Store, data: CategoryCreate) returns (r: Result<int, Error>)
    requires store.Valid()
    modifies store
    ensures store.Valid()
    ensures store.operations == old(store.operations)
    ensures NameInUse(old(store.categories), Lower(data.name), data.categoryType) ==>
              r == Err(CategoryExists) && store.categories == old(store.categories)
    ensures !NameInUse(old(store.categories), Lower(data.name), data.categoryType) ==>
              r == Ok(NextCategoryId(old(store.categories)))
              && store.categories == old(store.categories) + [Category(r.value, Lower(data.name), data.categoryType)]
  {
    var name := Lower(data.name);
    if NameInUse(store.categories, name, data.categoryType) {
      return Err(CategoryExists);
    }
    var id := NextCategoryId(store.categories);
    var cats := store.categories;
    var extended := cats + [Category(id, name, data.categoryType)];
    assert ForeignKeys(extended, store.operations) by {
      forall i | 0 <= i < |store.operations| ensures HasCategory(extended, store.operations[i].categoryId) {
        var j :| 0 <= j < |cats| && cats[j].id == store.operations[i].categoryId;
        assert extended[j] == cats[j];
      }
    }
    store.categories := extended;
    r := Ok(id);
  }

  /** `get_one`: the category with this id, or "Категория с таким id не существует". */
  function GetOne(cats: seq<Category>, id: int): (r: Result<Category, Error>)
    ensures r.Ok? ==> r.value in cats && r.value.id == id
    ensures r.Err? <==> !HasCategory(cats, id)
    ensures r.Err? ==> r.error == CategoryIdUnknown
  {
    match CategoryIndex(cats, id)
    case None => Err(CategoryIdUnknown)
    case Some(k) => Ok(cats[k])
  }

  /** The id `create_one` returns finds the row it stored, name lowered. */
  lemma CreatedIsRetrievable(cats: seq<Category>, data: CategoryCreate)
    ensures var id := NextCategoryId(cats);
            GetOne(cats + [Category(id, Lower(data.name), data.categoryType)], id)
              == Ok(Category(id, Lower(data.name), data.categoryType))
  {
    CategoryIndexAppend(cats, Category(NextCategoryId(cats), Lower(data.name), data.categoryType));
  }

  /** `get_all`: the whole table. */
  function GetAll(cats: seq<Category>): (r: seq<Category>)
    ensures |r| == |cats|
    ensures forall c :: c in r <==> c in cats
  {
    cats
  }

  /** `update_one`: overwrites the type and the name, the name as given and
      not lowered. A missing id and a clash with another category's name are
      both reported as "Категория с таким именем уже существует". */
  method UpdateOne(store: Store, id: int, data: CategoryCreate) returns (r: Result<int, Error>)
    requires store.Valid()
    modifies store
    ensures store.Valid()
    ensures store.operations == old(store.operations)
    ensures var k := CategoryIndex(old(store.categories), id);
            if k.None? || NameInUseElsewhere(old(store.categories), data.name, data.categoryType, k.value) then
              r == Err(CategoryExists) && store.categories == old(store.categories)
            else
              r == Ok(id) && store.categories == old(store.categories)[k.value := Category(id, data.name, data.categoryType)]
  {
    var k := CategoryIndex(store.categories, id);
    if k.None? || NameInUseElsewhere(store.categories, data.name, data.categoryType, k.value) {
      return Err(CategoryExists);
    }
    var cats := store.categories;
    var updated := cats[k.value := Category(id, data.name, data.categoryType)];
    assert UniqueNames(updated) by {
      forall i, j | 0 <= i < j < |updated| && updated[i].categoryType == updated[j].categoryType
        ensures updated[i].name != updated[j].name
      {
        if i == k.value {
          assert cats[j].name == updated[j].name;
        } else if j == k.value {
          assert cats[i].name == updated[i].name;
        }
      }
    }
    assert ForeignKeys(updated, store.operations) by {
      forall i | 0 <= i < |store.operations| ensures HasCategory(updated, store.operations[i].categoryId) {
        var j :| 0 <= j < |cats| && cats[j].id == store.operations[i].categoryId;
        assert updated[j].id == cats[j].id;
      }
    }
    store.categories := updated;
    r := Ok(id);
  }

  /** `delete_one`: "Категория не найдена" for a missing id, "В этой категории
      есть записи" while an operation refers to it; otherwise removes that
      category alone. */
  method DeleteOne(store: Store, id: int) returns (r: Result<(), Error>)
    requires store.Valid()
    modifies store
    ensures store.Valid()
    ensures store.operations == old(store.operations)
    ensures var k := CategoryIndex(old(store.categories), id);
            if k.None? then
              r == Err(CategoryNotFound) && store.categories == old(store.categories)
            else if Referenced(old(store.operations), id) then
              r == Err(CategoryHasRecords) && store.categories == old(store.categories)
            else
              r == Ok(()) && store.categories == RemoveAt(old(store.categories), k.value)
    ensures r.Ok? ==> !HasCategory(store.categories, id)
  {
    var k := CategoryIndex(store.categories, id);
    if k.None? {
      return Err(CategoryNotFound);
    }
    if Referenced(store.operations, id) {
      return Err(CategoryHasRecords);
    }
    var cats := store.categories;
    var rest := RemoveAt(cats, k.value);
    assert forall i :: 0 <= i < |rest| ==> rest[i] == cats[if i < k.value then i else i + 1];
    assert ForeignKeys(rest, store.operations) by {
      forall i | 0 <= i < |store.operations| ensures HasCategory(rest, store.operations[i].categoryId) {
        var j :| 0 <= j < |cats| && cats[j].id == store.operations[i].categoryId;
        assert j != k.value;
        assert rest[if j < k.value then j else j - 1] == cats[j];
      }
    }
    store.categories := rest;
    r := Ok(());
  }

  /** Creating a name and then the same name in another case, with the same
      type, fails the second time: the stored name is lowered, and lowering is
      idempotent. */
  method CreateCaseVariantTwice(store: Store, first: string, second: string, t: CategoryType)
    returns (r1: Result<int, Error>, r2: Result<int, Error>)
    requires store.Valid()
    requires Lower(first) == Lower(second)
    modifies store
    ensures store.Valid()
    ensures store.operations == old(store.operations)
    ensures r2 == Err(CategoryExists)
    ensures r1.Ok? ==> store.categories == old(store.categories) + [Category(r1.value, Lower(first), t)]
    ensures r1.Err? ==> store.categories == old(store.categories)
  {
    r1 := CreateOne(store, CategoryCreate(t, first));
    if r1.Ok? {
      assert store.categories[|store.categories| - 1].name == Lower(second);
    }
    r2 := CreateOne(store, CategoryCreate(t, second));
  }
}
