/** The older operation handlers (app/operations/router.py): the same
    listings as the repository, but an absent period means today alone. */
module OperationsRouter {
  import opened Results
  import opened Schemas
  import opened Tables
  import opened Periods
  import opened Queries
  import OperationsRepo

  /** `get_operations`: the operations of the requested type dated on or
      after `today - period`, or on `today` and later when no period is given. */
  function GetOperations(cats: seq<Category>, ops: seq<Operation>, today: int, data: OperationsRepo.OperationGet): (r: Result<seq<Operation>, Error>)
    ensures var start := LegacyWindowStart(today, data.period);
            && (r.Ok? ==> r.value != [] && forall o :: o in r.value <==> o in ops && o.createdAt >= start && HasType(cats, o.categoryId, data.categoryType))
            && (r.Ok? ==> forall o :: multiset(r.value)[o] ==
                                      (if o.createdAt >= start && HasType(cats, o.categoryId, data.categoryType) then multiset(ops)[o] else 0))
            && (r.Err? <==> forall o :: o in ops ==> !(o.createdAt >= start && HasType(cats, o.categoryId, data.categoryType)))
            && (r.Err? ==> r.error == NoOperations)
  {
    ListByType(cats, ops, data.categoryType, LegacyWindowStart(today, data.period))
  }

  /** `get_all_operations`: every operation of the window with its category. */
  function GetAllOperations(cats: seq<Category>, ops: seq<Operation>, today: int, period: Option<Period>): (r: Result<seq<OperationWithCategory>, Error>)
    ensures var start := LegacyWindowStart(today, period);
            && (r.Ok? ==> forall o :: Listed(r.value, o) <==> o in ops && o.createdAt >= start)
            && (r.Ok? ==> forall o :: multiset(OperationsOf(r.value))[o] == if o.createdAt >= start then multiset(ops)[o] else 0)
            && (r.Ok? ==> forall p :: p in r.value ==> p.category == CategoryOf(cats, p.operation.categoryId))
            && (r.Err? <==> forall o :: o in ops ==> o.createdAt < start)
            && (r.Err? ==> r.error == NoOperations)
  {
    ListAll(cats, ops, LegacyWindowStart(today, period))
  }

  /** The older listing never shows an operation the repository's listing
      leaves out, and differs from it only when no period is given. */
  lemma LegacyListingIncluded(cats: seq<Category>, ops: seq<Operation>, today: int, data: OperationsRepo.OperationGet)
    ensures GetOperations(cats, ops, today, data).Ok? ==>
              OperationsRepo.GetOperations(cats, ops, today, data).Ok?
              && forall o :: o in GetOperations(cats, ops, today, data).value ==> o in OperationsRepo.GetOperations(cats, ops, today, data).value
    ensures data.period.Some? ==> GetOperations(cats, ops, today, data) == OperationsRepo.GetOperations(cats, ops, today, data)
  {
    LegacyWindowAgrees(today, data.period);
    var legacy := GetOperations(cats, ops, today, data);
    if legacy.Ok? {
      assert legacy.value[0] in legacy.value;
    }
  }

  /** The success message of `create_operation`. */
  const RecordedMessage: string := "Операция успешно записана"

  /** `create_operation`: the same insertion as the repository's `create_one`,
      answering with a confirmation; on a failure the session is rolled back. */
  method CreateOperation(store: Store, data: OperationCreate, createdAt: int) returns (r: Result<string, Error>)
    requires store.Valid()
    modifies store
    ensures store.Valid()
    ensures store.categories == old(store.categories)
    ensures !HasCategory(old(store.categories), data.categoryId) ==>
              r == Err(ForeignKeyViolation) && store.operations == old(store.operations)
    ensures HasCategory(old(store.categories), data.categoryId) ==>
              r == Ok(RecordedMessage)
              && store.operations == old(store.operations) + [OperationsRepo.NewOperation(NextOperationId(old(store.operations)), data, createdAt)]
  {
    var created := OperationsRepo.CreateOne(store, data, createdAt);
    match created
    case Err(e) =>
      r := Err(e);
    case Ok(_) =>
      r := Ok(RecordedMessage);
  }
}
