# MyWalletAPI store and analytics, modelled in Dafny

MyWalletAPI is a personal-finance API. It keeps two tables: categories
(an id, a name, and a type that is income or expense) and operations (an id,
an amount, an optional description, a creation date, and the id of their
category). It offers create, read, update and delete on both. It also
answers analytics questions over a rolling window that ends today: the sum
of incomes and of expenses, the cashflow (their difference), and a
per-category breakdown of one type.

This project models that logic with the web framework and the database
engine taken out:

- `Tables.Store` is a class holding the two tables as sequences.
  `Tables.Consistent` states the constraints the database enforces:
  primary keys, category names unique per type, and the operations'
  foreign key.
- The repositories' write operations (`CategoryRepo`, `OperationsRepo`) and
  the routers' create handlers (`CategoriesRouter`, `OperationsRouter`) are
  methods that update the store in place. Each keeps `Consistent`. Each
  states the whole new state. On every error path the store is unchanged,
  as the rollback leaves it.
- Reads are functions over the two sequences: `Queries` holds the windowed
  and type-filtered selections, the eager load of an operation's category,
  and the sum with its zero default. `Analytics` holds the summary and the
  `group_by` breakdown joined back to the category names.
- `Periods` turns an optional period (1, 7 or 31 days) into the first day of
  the window. The repository and the analytics handlers default to 364 days
  back. The older operation handlers default to today.
- Errors are values of `Schemas.Error`. `Error.Message` gives the detail
  text the handler writes into its `HTTPException`. A foreign-key violation
  has no such text: `create_one` re-raises the database's integrity error and
  `create_operation` passes the exception object itself as the detail.

Dates are whole day numbers. `today` is a parameter. Amounts are integers.
A new row gets SQLite's id: one more than the largest id in use, or 1 in an
empty table.

Where the intended design and the code differ, the model follows the code:

- The older operation handlers use `start = today` when no period is given,
  not 364 days back.
- The repository's `get_all` takes any integer as its period, not only 1, 7
  or 31.
- Category update reports every failure as "already exists", including a
  missing id.
- Operation update may change the operation's category.
- Category update may change the category's type while operations still
  refer to it.

## Model

| member | source | states |
|---|---|---|
| `Schemas.Period.Days` | app/operations/schemas.py:14-17 | the period selector is one of 1, 7 or 31 days |
| `Periods.WindowStart` | app/analytics/router.py:21-24 | start is today − 364 with no period and today − period otherwise, so it always lies in [today − 364, today − 1] |
| `Periods.WindowStartDays` | app/operations/repository.py:39-42 | `get_all`'s start is today − 364 with no period and exactly `period` days before today otherwise |
| `Periods.LegacyWindowStart` | app/operations/router.py:53-56 | the older handlers' start is today itself with no period and today − period otherwise, so it lies in [today − 31, today] |
| `Periods.LegacyWindowAgrees` | app/operations/router.py:75-78 | the older default window never starts before the 364-day one; the two starts are equal exactly when a period is given |
| `CaseMapping.Lower` | app/categories/repository.py:19 | lowering maps each character through the per-letter lower-case map and keeps the length |
| `CaseMapping.LowerHasNoUpper` | app/categories/router.py:43 | a lowered name contains no upper-case letter |
| `CaseMapping.LowerIdempotent` | app/categories/repository.py:19 | lowering an already lowered name changes nothing |
| `CaseMapping.LowerTitle` | app/categories/router.py:49 | lowering the title-cased text gives the lowered text back, so `title()` changes only letter case |
| `CaseMapping.TitleOfLower` | app/categories/router.py:43-49 | the title-cased echo of the stored (lowered) name equals the title case of the name as typed |
| `CaseMapping.TitleFromRule` | app/categories/router.py:49 | position by position, title-casing lowers a character whose left neighbour is cased and upper-cases every other one |
| `CaseMapping.Title` | app/categories/router.py:49 | `str.title()`: same length; the first character is upper-cased, and each later one is lowered when the character before it is cased and upper-cased otherwise |
| `Tables.IndexOf` | app/categories/repository.py:37-39 | finds the first position of a key column holding the id, or reports that no position holds it |
| `Tables.CategoryIndex` | app/categories/repository.py:37-39 | finds the position of the category with a given id, or reports that no category has that id |
| `Tables.OperationIndex` | app/operations/repository.py:80-82 | finds the position of the operation with a given id, or reports that no operation has that id |
| `Tables.HasTypeOfIndex` | app/analytics/router.py:28 | with unique ids, `category.has(category_type=t)` holds iff the category with that id exists and has type t |
| `Tables.NextCategoryId` | app/categories/repository.py:22-27 | the id given to a new category is positive and not used by any category |
| `Tables.NextOperationId` | app/operations/repository.py:65-71 | the id given to a new operation is positive and not used by any operation |
| `Tables.Consistent` | app/database.py:10-12 | the store's constraints: ids are unique in each table, category names are unique within a type, and every operation's category id names a category; it is a definition, kept by every write method |
| `Tables.Store.constructor` | app/database.py:10-12 | the initial state of the two modelled tables: both empty, so the key, unique-name and foreign-key constraints hold from the start |
| `Schemas.Error.Message` | app/operations/repository.py:33-124 | the detail text each failure's `HTTPException` carries, from app/operations/repository.py:33, 58, 87, 111, 124 and app/categories/repository.py:31, 42, 87, 90; none for a foreign-key violation, whose exception is passed on as it is |
| `Queries.Since` | app/operations/repository.py:44-48 | selects exactly the operations with `created_at >= start`, never more rows than the table; how often each row appears is `SinceCounts` |
| `Queries.SinceCounts` | app/operations/repository.py:44-51 | each operation of the window appears as often as the table holds it, and no other operation appears |
| `Queries.ByType` | app/operations/repository.py:22-25 | selects exactly the operations of category type t with `created_at >= start`; how often each row appears is `ByTypeCounts` |
| `Queries.ByTypeCounts` | app/operations/repository.py:22-27 | each operation of type t in the window appears as often as the table holds it, and no other operation appears |
| `Queries.WithCategory` | app/analytics/router.py:75 | selects exactly one category's operations (one group of the `group_by`); how often each row appears is `WithCategoryCounts` |
| `Queries.WithCategoryCounts` | app/analytics/router.py:66-75 | each operation of the category appears in its group as often as the table holds it, and no other operation appears |
| `Queries.Total` | app/analytics/router.py:26-39 | the sum of no rows is 0, as `scalar() or 0` gives, and amounts that are all non-negative never sum to a negative total |
| `Queries.SumByType` | app/analytics/router.py:26-39 | the per-type sum of the summary; it has no contract of its own, and its meaning is fixed by `SumByTypeAppend`, `SumByTypeNoMatch`, `SumByTypeConcat` and `SumByTypePermutation` |
| `Queries.SumByTypeConcat` | app/analytics/router.py:26-29 | the per-type sum over two runs of rows is the sum of the two per-type sums |
| `Queries.SumByTypeAppend` | app/analytics/router.py:27 | one more operation adds its amount exactly when it matches the type and the window; one dated on the start is counted, one dated the day before is not |
| `Queries.SumByTypeNoMatch` | app/analytics/router.py:38-39 | when nothing matches, the sum is 0 rather than missing |
| `Queries.SumByTypePermutation` | app/analytics/router.py:26-32 | the per-type sum does not depend on the order of the rows |
| `Queries.TotalSplit` | app/analytics/router.py:69 | the sum over all rows is one category's sum plus the sum of the rest |
| `Queries.CategoryOf` | app/operations/repository.py:46 | the eager load gives a category with the operation's category id, and nothing only when no such category exists |
| `Queries.LoadCategories` | app/operations/repository.py:44-51 | pairs each selected operation, in order, with its loaded category |
| `Queries.LoadedCategoriesPresent` | app/operations/repository.py:46 | under the foreign key, every loaded category is present and is the one the operation refers to |
| `Queries.ListByType` | app/operations/repository.py:22-34 | returns exactly the matching operations, each as often as the table holds it, and is never empty; fails with "Операций не найдено" exactly when nothing matches |
| `Queries.ListAll` | app/operations/repository.py:44-58 | returns every operation of the window with its category, each as often as the table holds it, and is never empty; fails with "Операций не найдено" exactly when the window is empty |
| `Analytics.Summary` | app/analytics/router.py:18-46 | incomes and expenses are the per-type sums over the resolved window, and cashflow is incomes − expenses, with no clamping |
| `Analytics.SummaryNothingInWindow` | app/analytics/router.py:38-40 | with no operation in the window, and so on an empty store, the summary is {0, 0, 0}, not an error |
| `Analytics.SummaryDefaultWindowBoundary` | app/analytics/router.py:21-27 | with no period, an income dated today − 364 raises incomes and cashflow by its amount, and an operation dated today − 365 changes nothing |
| `Analytics.GroupTotals` | app/analytics/router.py:66-77 | the grouped subquery has one entry per category id that occurs among the rows, never an empty group, each holding that category's sum |
| `Analytics.JoinNames` | app/analytics/router.py:80-87 | every row of the inner join carries the name and group total of a category whose id has a group, every such category has its row, and there are no more rows than categories; exactly one row per grouped category is `JoinNamesRows` |
| `Analytics.Grouped` | app/analytics/router.py:80-82 | keeps exactly the categories whose id appears in the grouped subquery |
| `Analytics.GroupedCounts` | app/analytics/router.py:80-82 | each category whose id has a group is kept as often as the table holds it, and no other |
| `Analytics.JoinNamesRows` | app/analytics/router.py:80-87 | the join has exactly one row per grouped category: as many rows as grouped categories, row i carrying the i-th one's name and its group's total |
| `Analytics.ByCategory` | app/analytics/router.py:66-87 | the breakdown has no more rows than there are categories, and is empty, not an error, when no operation of the type lies in the window |
| `Analytics.AnalyticsByCategory` | app/analytics/router.py:55-87 | with the window resolved as `get_analitics` does, the breakdown has no more rows than categories, and is empty when every operation is older than the window; one row per category is `JoinNamesRows` with `GroupedCounts`, and distinct names `ByCategoryDistinctNames` |
| `Analytics.ByCategoryRowSound` | app/analytics/router.py:66-87 | one breakdown row names a category of the requested type with an operation in the window, and its total is that category's sum |
| `Analytics.ByCategoryRowsSound` | app/analytics/router.py:66-87 | every breakdown row names a category of the requested type that has an operation in the window, and carries the sum of exactly that category's operations |
| `Analytics.ByCategoryComplete` | app/analytics/router.py:80-85 | every category of the requested type with an operation in the window gets its row |
| `Analytics.ByCategoryDistinctNames` | app/analytics/router.py:80-87 | in a consistent store no two breakdown rows share a category name |
| `Analytics.ByCategorySum` | app/analytics/router.py:66-77 | the breakdown totals of type t add up to the per-type sum for t over the same window |
| `Analytics.BreakdownMatchesSummary` | app/analytics/router.py:55-87 | the income and expense breakdowns add up to the summary's incomes and expenses for the same period |
| `Analytics.ExampleSelections` | app/analytics/router.py:26-29 | with salary 100 (income) and rent 40 (expense) dated today, the week's income rows are exactly the salary and the expense rows exactly the rent |
| `Analytics.SalaryAndRentSummary` | app/analytics/router.py:18-46 | that example gives {incomes 100, expenses 40, cashflow 60} over a week |
| `Analytics.SalaryAndRentBreakdown` | app/analytics/router.py:66-87 | that example's weekly income breakdown is the single row ("salary", 100) |
| `CategoryRepo.CreateOne` | app/categories/repository.py:15-31 | stores the lowered name with the given type under a new id and returns the id; an existing (lowered name, type) fails with "already exists" and leaves the store unchanged |
| `CategoryRepo.CreatedIsRetrievable` | app/categories/repository.py:22-43 | the id returned by `create_one` retrieves the stored row, name lowered |
| `CategoryRepo.CreateCaseVariantTwice` | app/categories/repository.py:18-31 | creating "Rent" and then "rent" with the same type fails the second time |
| `CategoryRepo.GetOne` | app/categories/repository.py:34-43 | returns the category with the id, and fails with "Категория с таким id не существует" exactly when there is none |
| `CategoryRepo.GetAll` | app/categories/repository.py:46-52 | returns every category |
| `CategoryRepo.UpdateOne` | app/categories/repository.py:55-75 | overwrites type and name verbatim, not lowered; a missing id or a clash with another category fails with "already exists", store unchanged |
| `CategoryRepo.DeleteOne` | app/categories/repository.py:78-90 | a missing id fails with "Категория не найдена", a referenced category with "В этой категории есть записи"; otherwise only that category is removed and it can no longer be found |
| `CategoriesRouter.GetCategories` | app/categories/router.py:28-35 | returns exactly the categories of the requested type |
| `CategoriesRouter.GetCategoriesPartition` | app/categories/router.py:31 | every category is listed under exactly one of the two types |
| `CategoriesRouter.CreateCategory` | app/categories/router.py:38-52 | inserts the lowered name as `create_one` does and answers with "Категория успешно создана" and the name title-cased; a duplicate fails with "already exists", store unchanged |
| `OperationsRepo.GetOperations` | app/operations/repository.py:14-34 | returns exactly the operations of the type dated on or after today − period (364 by default), each as often as the table holds it, or "Операций не найдено" when there are none |
| `OperationsRepo.GetAll` | app/operations/repository.py:36-58 | returns every operation dated on or after today − period (364 by default) with its category, each as often as the table holds it, or "Операций не найдено" when there are none |
| `OperationsRepo.GetOneOperation` | app/operations/repository.py:76-87 | returns the operation with the id, and fails with "Операция не найдена" exactly when there is none |
| `OperationsRepo.NewOperation` | app/operations/repository.py:64-65 | the row `Operation(**new_data)` inserts: the client's amount, description and category under the new id and date; it is a constructor of values, with no contract |
| `OperationsRepo.CreatedIsRetrievable` | app/operations/repository.py:61-87 | the operation `create_one` stores is found again under its new id |
| `OperationsRepo.CreateOne` | app/operations/repository.py:61-74 | appends exactly one operation with the given fields and date under a new id; an unknown category id violates the foreign key and writes nothing |
| `OperationsRepo.UpdateOperation` | app/operations/repository.py:89-112 | replaces only the amount, description and category of the addressed operation; id, date and every other operation are unchanged; failures report "Запись не найдена", store unchanged |
| `OperationsRepo.DeleteOne` | app/operations/repository.py:114-124 | removes exactly the addressed operation and no category; a missing id reports "Запись не найдена", store unchanged |
| `OperationsRouter.GetOperations` | app/operations/router.py:50-70 | returns exactly the operations of the type dated on or after today − period, or on or after today with no period, each as often as the table holds it; fails with "Операций не найдено" when there are none |
| `OperationsRouter.GetAllOperations` | app/operations/router.py:72-102 | returns every operation dated on or after today − period, or on or after today, with its category, each as often as the table holds it; fails with "Операций не найдено" when there are none |
| `OperationsRouter.LegacyListingIncluded` | app/operations/router.py:53-63 | the older listing never shows an operation the repository listing leaves out, and the two are identical when a period is given |
| `OperationsRouter.CreateOperation` | app/operations/router.py:36-48 | adds exactly one operation as `create_one` does and confirms; on failure the store is unchanged and the error is reported |

## Left out

- HTTP routing, dependency injection, status codes, async sessions, and the
  engine and database URL are left out. Handlers are functions or methods
  over an explicit `Store`. Errors are `Schemas.Error` values instead of
  `HTTPException`s.
- Session mechanics are left out: `selectinload`, `commit`/`flush` ordering,
  and the re-attachment of an object loaded in another session in the two
  update handlers and the two `delete_one` handlers. Only their effects are kept: the category is loaded with
  its operation, and a write either happens completely or not at all.
- The foreign key is assumed to be enforced. SQLite checks it only when the
  connection enables it. The handlers rely on the integrity error, so the
  model raises it.
- The `Category` and `Operation` classes the handlers import are not part of
  this model. Their columns are taken from the schemas and from the
  handlers' use of them. The legacy per-type tables in app/database.py and
  `create_tables` are not modelled. Only the unique-name and foreign-key
  constraints are taken from that file.
- Amounts are integers. Python floats and the rounding of their sums are not
  modelled.
- `date.today()` is the parameter `today`. Dates are day numbers.
- OperationsRepo.GetAll: does not model the `OverflowError` that
  `date.today() - timedelta(days=period)` raises when the period exceeds
  999999999 days or the start date falls outside years 1–9999 (a period of
  roughly 739,000 days or more from today). Day numbers are unbounded, so the
  model answers with a listing or "Операций не найдено" there.
- CaseMapping.Lower: maps only the ASCII letters and the basic Cyrillic block
  (U+0400–U+045F). Python's `lower()` maps every cased Unicode letter.
- CaseMapping.Title: uses the same alphabet. Any other character counts as
  uncased.
- Queries.ByType: keeps the store's order of rows. SQL does not promise any
  row order.
- Analytics.JoinNames: also keeps the store's order. The breakdown's row
  order is unspecified in SQL.
- Database-level failures other than the constraints are not modelled. The
  analytics handlers re-raise these failures or turn them into an error
  response. Examples are a broken connection or a full disk.
- An out-of-range category type or period is not modelled. Request
  validation rejects it before any handler runs, and the datatypes admit
  only valid values.
- Concurrency and transaction isolation are left to the database.
- main.py and app/router.py contain no logic of the core.
- The commented-out code in app/operations/router.py and
  app/categories/router.py is not modelled.
