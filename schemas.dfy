/** The entities of the store and the request shapes
    (app/categories/schemas.py, app/operations/schemas.py). */
module Schemas {
  import opened Results

  /** `CategoryType`: the closed set {"income", "expense"}. */
  datatype CategoryType = Income | Expense

  /** `PeriodEnum`: a window length in days. */
  datatype Period = Day | Week | Month
  {
    function Days(): (n: nat)
      ensures n == 1 || n == 7 || n == 31
    {
      match this
      case Day => 1
      case Week => 7
      case Month => 31
    }
  }

  /** A row of the categories table. */
  datatype Category = Category(id: int, name: string, categoryType: CategoryType)

  /** A row of the operations table; `createdAt` is a day number and
      `categoryId` refers to a category. */
  datatype Operation = Operation(
    id: int,
    amount: int,
    description: Option<string>,
    createdAt: int,
    categoryId: int)

  /** `CreateCategory`: the fields a client gives to create or update a category. */
  datatype CategoryCreate = CategoryCreate(categoryType: CategoryType, name: string)

  /** `OperationCreate`: the fields a client gives to create or update an operation. */
  datatype OperationCreate = OperationCreate(amount: int, description: Option<string>, categoryId: int)

  /** The failures the handlers report. */
  datatype Error =
    | NoOperations
    | OperationNotFound
    | RecordNotFound
    | CategoryExists
    | CategoryIdUnknown
    | CategoryHasRecords
    | CategoryNotFound
    | ForeignKeyViolation
  {
    /** The detail text the handler writes into its `HTTPException`. A
        foreign-key violation has none: the database's integrity error is
        passed on as it is. */
    function Message(): Option<string>
    {
      match this
      case NoOperations => Some("Операций не найдено")
      case OperationNotFound => Some("Операция не найдена")
      case RecordNotFound => Some("Запись не найдена")
      case CategoryExists => Some("Категория с таким именем уже существует")
      case CategoryIdUnknown => Some("Категория с таким id не существует")
      case CategoryHasRecords => Some("В этой категории есть записи")
      case CategoryNotFound => Some("Категория не найдена")
      case ForeignKeyViolation => None
    }
  }
}
