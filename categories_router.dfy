/** The category handlers (app/categories/router.py): listing by type and
    creation with a title-cased echo of the stored name. */
module CategoriesRouter {
  import opened Results
  import opened Schemas
  import opened Tables
  import opened CaseMapping
  import CategoryRepo

  /** `get_categories`: the categories of one type, in table order. */
  function GetCategories(cats: seq<Category>, t: CategoryType): (r: seq<Category>)
    ensures |r| <= |cats|
    ensures forall c :: c in r <==> c in cats && c.categoryType == t
  {
    if cats == [] then []
    else (if cats[0].categoryType == t then [cats[0]] else []) + GetCategories(cats[1..], t)
  }

  /** Every category is listed under exactly one of the two types. */
  lemma {:induction false} GetCategoriesPartition(cats: seq<Category>)
    ensures |GetCategories(cats, Income)| + |GetCategories(cats, Expense)| == |cats|
  {
    if cats != [] {
      GetCategoriesPartition(cats[1..]);
    }
  }

  /** The success message of `create_category`. */
  const CreatedMessage: string := "Категория успешно создана"

  /** The answer of `create_category`: `{"message": ..., "category": ...}`. */
  datatype Created = Created(message: string, category: string)

  /** `create_category`: the same insertion as the repository's `create_one`,
      answering with a confirmation and the stored name in title case. */
  method CreateCategory(store: Store, data: CategoryCreate) returns (r: Result<Created, Error>)
    requires store.Valid()
    modifies store
    ensures store.Valid()
    ensures store.operations == old(store.operations)
    ensures NameInUse(old(store.categories), Lower(data.name), data.categoryType) ==>
              r == Err(CategoryExists) && store.categories == old(store.categories)
    ensures !NameInUse(old(store.categories), Lower(data.name), data.categoryType) ==>
              store.categories == old(store.categories) + [Category(NextCategoryId(old(store.categories)), Lower(data.name), data.categoryType)]
              && r == Ok(Created(CreatedMessage, Title(data.name)))
    ensures r.Ok? ==> Lower(r.value.category) == store.categories[|store.categories| - 1].name
  {
    var created := CategoryRepo.CreateOne(store, data);
    match created
    case Err(e) =>
      r := Err(e);
    case Ok(_) =>
      TitleOfLower(data.name);
      LowerTitle(data.name);
      LowerIdempotent(data.name);
      r := Ok(Created(CreatedMessage, Title(Lower(data.name))));
  }
}
