/** `OperationsRepo` (app/operations/repository.py): the listings over a
    window, and create, read, update and delete of operations. Every write is
    all or nothing. */
module OperationsRepo {
  import opened Results
  import opened Schemas
  import opened Tables
  import opened Periods
  import opened Queries

  /** `OperationGet`: a category type and an optional period. */
  datatype OperationGet = OperationGet(categoryType: CategoryType, period: Option<Period>)

  /** `get_operations`: the operations of the requested type dated on or after
      `today - period` (364 days when absent); an empty match is an error. */
  function GetOperations(cats: seq<Category>, ops: seq<Operation>, today: int, data: OperationGet): (r: Result<seq<Operation>, Error>)
    ensures var start := WindowStart(today, data.period);
            && (r.Ok? ==> r.value != [] && forall o :: o in r.value <==> o in ops && o.createdAt >= start && HasType(cats, o.categoryId, data.categoryType))
            && (r.Ok? ==> forall o :: multiset(r.value)[o] ==
                                      (if o.createdAt >= start && HasType(cats, o.categoryId, data.categoryType) then multiset(ops)[o] else 0))
            && (r.Err? <==> forall o :: o in ops ==> !(o.createdAt >= start && HasType(cats, o.categoryId, data.categoryType)))
            && (r.Err? ==> r.error == NoOperations)
  {
    ListByType(cats, ops, data.categoryType, WindowStart(today, data.period))
  }

  /** `get_all`: every operation dated on or after `today - period` (any
      number of days, 364 when absent), each with its category. */
  function GetAll(cats: seq<Category>, ops: seq<Operation>, today: int, period: Option<int>): (r: Result<seq<OperationWithCategory>, Error>)
    ensures var start := WindowStartDays(today, period);
            && (r.Ok? ==> forall o :: Listed(r.value, o) <==> o in ops && o.createdAt >= start)
            && (r.Ok? ==> forall o :: multiset(OperationsOf(r.value))[o] == if o.createdAt >= start then multiset(ops)[o] else 0)
            && (r.Ok? ==> forall p :: p in r.value ==> p.category == CategoryOf(cats, p.operation.categoryId))
            && (r.Err? <==> forall o :: o in ops ==> o.createdAt < start)
            && (r.Err? ==> r.error == NoOperations)
  {
    ListAll(cats, ops, WindowStartDays(today, period))
  }

  /** `get_one_operation`: the operation with this id, or "Операция не найдена". */
  function GetOneOperation(ops: seq<Operation>, id: int): (r: Result<Operation, Error>)
    ensures r.Ok? ==> r.value in ops && r.value.id == id
    ensures r.Err? <==> forall o :: o in ops ==> o.id != id
    ensures r.Err? ==> r.error == OperationNotFound
  {
    match OperationIndex(ops, id)
    case None => Err(OperationNotFound)
    case Some(k) => Ok(ops[k])
  }

  /** The row `create_one` inserts; `created_at` is not among the client's
      fields and is supplied by the caller. */
  function NewOperation(id: int, data: OperationCreate, createdAt: int): Operation
  {
    Operation(id, data.amount, data.description, createdAt, data.categoryId)
  }

  /** The operation `create_one` stores is found again under its new id. */
  lemma CreatedIsRetrievable(ops: seq<Operation>, data: OperationCreate, createdAt: int)
    ensures var o := NewOperation(NextOperationId(ops), data, createdAt);
            GetOneOperation(ops + [o], o.id) == Ok(o)
  {
    OperationIndexAppend(ops, NewOperation(NextOperationId(ops), data, createdAt));
  }

  /** `create_one`: appends one operation under a new id; a category id that
      names no category violates the foreign key and nothing is written. */
  method CreateOne(store: Store, data: OperationCreate, createdAt: int) returns (r: Result<Operation, Error>)
    requires store.Valid()
    modifies store
    ensures store.Valid()
    ensures store.categories == old(store.categories)
    ensures !HasCategory(old(store.categories), data.categoryId) ==>
              r == Err(ForeignKeyViolation) && store.operations == old(store.operations)
    ensures HasCategory(old(store.categories), data.categoryId) ==>
              r == Ok(NewOperation(NextOperationId(old(store.operations)), data, createdAt))
              && store.operations == old(store.operations) + [r.value]
  {
    if !HasCategory(store.categories, data.categoryId) {
      return Err(ForeignKeyViolation);
    }
    var created := NewOperation(NextOperationId(store.operations), data, createdAt);
    store.operations := store.operations + [created];
    r := Ok(created);
  }

  /** `update_operation`: replaces the amount, the description and the
      category of one operation, keeping its id and date. A missing id and a
      category id that names no category are both "Запись не найдена". */
  method UpdateOperation(store: Store, id: int, data: OperationCreate) returns (r: Result<Operation, Error>)
    requires store.Valid()
    modifies store
    ensures store.Valid()
    ensures store.categories == old(store.categories)
    ensures var k := OperationIndex(old(store.operations), id);
            if k.None? || !HasCategory(old(store.categories), data.categoryId) then
              r == Err(RecordNotFound) && store.operations == old(store.operations)
            else
              var was := old(store.operations)[k.value];
              r == Ok(Operation(was.id, data.amount, data.description, was.createdAt, data.categoryId))
              && store.operations == old(store.operations)[k.value := r.value]
  {
    var k := OperationIndex(store.operations, id);
    if k.None? || !HasCategory(store.categories, data.categoryId) {
      return Err(RecordNotFound);
    }
    var was := store.operations[k.value];
    var updated := Operation(was.id, data.amount, data.description, was.createdAt, data.categoryId);
    store.operations := store.operations[k.value := updated];
    r := Ok(updated);
  }

  /** `delete_one`: removes the operation with this id, and nothing else; a
      missing id is "Запись не найдена". */
  method DeleteOne(store: Store, id: int) returns (r: Result<(), Error>)
    requires store.Valid()
    modifies store
    ensures store.Valid()
    ensures store.categories == old(store.categories)
    ensures var k := OperationIndex(old(store.operations), id);
            if k.None? then
              r == Err(RecordNotFound) && store.operations == old(store.operations)
            else
              r == Ok(()) && store.operations == RemoveAt(old(store.operations), k.value)
    ensures r.Ok? ==> forall o :: o in store.operations ==> o.id != id
  {
    var k := OperationIndex(store.operations, id);
    if k.None? {
      return Err(RecordNotFound);
    }
    var ops := store.operations;
    var rest := RemoveAt(ops, k.value);
    assert forall i :: 0 <= i < |rest| ==> rest[i] == ops[if i < k.value then i else i + 1];
    store.operations := rest;
    r := Ok(());
  }
}
