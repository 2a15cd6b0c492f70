/** The analytics handlers (app/analytics/router.py): income and expense
    totals and the cashflow over a window, and the per-category breakdown of
    one type, a `group_by(category_id)` subquery joined back to the category
    names. */
module Analytics {
  import opened Results
  import opened Schemas
  import opened Tables
  import opened Queries
  import opened Periods

  datatype Totals = Totals(incomes: int, expenses: int, cashflow: int)

  /** `get_analitics`: both per-type sums over the window and their difference. */
  function Summary(cats: seq<Category>, ops: seq<Operation>, today: int, period: Option<Period>): (r: Totals)
    ensures r.incomes == SumByType(cats, ops, Income, WindowStart(today, period))
    ensures r.expenses == SumByType(cats, ops, Expense, WindowStart(today, period))
    ensures r.cashflow == r.incomes - r.expenses
  {
    var start := WindowStart(today, period);
    var incomes := SumByType(cats, ops, Income, start);
    var expenses := SumByType(cats, ops, Expense, start);
    Totals(incomes, expenses, incomes - expenses)
  }

  /** Coalesce to zero: with no operation in the window, in particular on an
      empty store, the summary is all zeros rather than an error. */
  lemma SummaryNothingInWindow(cats: seq<Category>, ops: seq<Operation>, today: int, period: Option<Period>)
    requires forall o :: o in ops ==> o.createdAt < WindowStart(today, period)
    ensures Summary(cats, ops, today, period) == Totals(0, 0, 0)
  {
    var start := WindowStart(today, period);
    SumByTypeNoMatch(cats, ops, Income, start);
    SumByTypeNoMatch(cats, ops, Expense, start);
  }

  /** With no period the window is 364 days back and closed at its start: an
      income dated `today - 364` raises incomes and cashflow by its amount; an
      operation dated `today - 365` changes nothing. */
  lemma SummaryDefaultWindowBoundary(cats: seq<Category>, ops: seq<Operation>, today: int, o: Operation)
    ensures o.createdAt == today - 364 && HasType(cats, o.categoryId, Income) && !HasType(cats, o.categoryId, Expense) ==>
              var before := Summary(cats, ops, today, None);
              var after := Summary(cats, ops + [o], today, None);
              after.incomes == before.incomes + o.amount && after.expenses == before.expenses
              && after.cashflow == before.cashflow + o.amount
    ensures o.createdAt == today - 365 ==> Summary(cats, ops + [o], today, None) == Summary(cats, ops, today, None)
  {
    SumByTypeAppend(cats, ops, o, Income, today - 364);
    SumByTypeAppend(cats, ops, o, Expense, today - 364);
  }

  /** The `group_by(Operation.category_id)` subquery: one entry per category
      id that occurs among the rows, with the sum of that category's rows. */
  function GroupTotals(rows: seq<Operation>): (g: map<int, int>)
    ensures forall id :: id in g <==> WithCategory(rows, id) != []
    ensures forall id :: id in g ==> g[id] == Total(WithCategory(rows, id))
  {
    var ids := set o | o in rows :: o.categoryId;
    assert forall id :: id in ids <==> WithCategory(rows, id) != [] by {
      forall id ensures id in ids <==> WithCategory(rows, id) != [] {
        if WithCategory(rows, id) != [] {
          assert WithCategory(rows, id)[0] in WithCategory(rows, id);
        }
      }
    }
    map id | id in ids :: Total(WithCategory(rows, id))
  }

  /** A row of the breakdown: `{"category": name, "total_amount": total}`. */
  datatype CategoryTotal = CategoryTotal(category: string, totalAmount: int)

  /** The inner join of the categories table with the grouped subquery on the
      category id: a row for each category whose id has a group. */
  function JoinNames(cats: seq<Category>, groups: map<int, int>): (r: seq<CategoryTotal>)
    ensures |r| <= |cats|
    ensures forall row :: row in r ==>
              exists j :: 0 <= j < |cats| && cats[j].id in groups && row == CategoryTotal(cats[j].name, groups[cats[j].id])
    ensures forall j :: 0 <= j < |cats| && cats[j].id in groups ==>
              CategoryTotal(cats[j].name, groups[cats[j].id]) in r
  {
    if cats == [] then []
    else
      var head := if cats[0].id in groups then [CategoryTotal(cats[0].name, groups[cats[0].id])] else [];
      var rest := JoinNames(cats[1..], groups);
      assert forall j :: 1 <= j < |cats| ==> cats[j] == cats[1..][j - 1];
      head + rest
  }

  /** The categories whose id has a group, in table order. */
  function Grouped(cats: seq<Category>, groups: map<int, int>): (r: seq<Category>)
    ensures forall c :: c in r <==> c in cats && c.id in groups
  {
    if cats == [] then []
    else (if cats[0].id in groups then [cats[0]] else []) + Grouped(cats[1..], groups)
  }

  /** Each category row whose id has a group is kept as often as the table
      holds it. */
  lemma {:induction false} GroupedCounts(cats: seq<Category>, groups: map<int, int>)
    ensures forall c :: multiset(Grouped(cats, groups))[c] == if c.id in groups then multiset(cats)[c] else 0
  {
    if cats != [] {
      GroupedCounts(cats[1..], groups);
      assert cats == [cats[0]] + cats[1..];
    }
  }

  /** The join gives exactly one row per grouped category, in table order:
      row i carries the name of the i-th grouped category and its group's total. */
  lemma {:induction false} JoinNamesRows(cats: seq<Category>, groups: map<int, int>)
    ensures var r, g := JoinNames(cats, groups), Grouped(cats, groups);
            |r| == |g| && forall i :: 0 <= i < |r| ==> g[i].id in groups && r[i] == CategoryTotal(g[i].name, groups[g[i].id])
  {
    if cats != [] {
      JoinNamesRows(cats[1..], groups);
      var r, g := JoinNames(cats, groups), Grouped(cats, groups);
      var r', g' := JoinNames(cats[1..], groups), Grouped(cats[1..], groups);
      if cats[0].id in groups {
        assert r == [CategoryTotal(cats[0].name, groups[cats[0].id])] + r';
        assert g == [cats[0]] + g';
      } else {
        assert r == r' && g == g';
      }
    }
  }

  /** The breakdown of type t over the window starting at `start`. */
  function ByCategory(cats: seq<Category>, ops: seq<Operation>, t: CategoryType, start: int): (r: seq<CategoryTotal>)
    ensures |r| <= |cats|
    ensures (forall o :: o in ops ==> !Matches(cats, o, t, start)) ==> r == []
  {
    var rows := ByType(cats, ops, t, start);
    assert rows != [] ==> rows[0] in rows;
    var r := JoinNames(cats, GroupTotals(rows));
    assert r != [] ==> r[0] in r;
    r
  }

  /** `get_analitics_by_category`. */
  function AnalyticsByCategory(cats: seq<Category>, ops: seq<Operation>, today: int, t: CategoryType, period: Option<Period>): (r: seq<CategoryTotal>)
    ensures |r| <= |cats|
    ensures (forall o :: o in ops ==> o.createdAt < WindowStart(today, period)) ==> r == []
  {
    ByCategory(cats, ops, t, WindowStart(today, period))
  }

  lemma ByCategoryRowSound(cats: seq<Category>, ops: seq<Operation>, t: CategoryType, start: int, row: CategoryTotal)
    requires UniqueCategoryIds(cats)
    requires row in ByCategory(cats, ops, t, start)
    ensures exists j :: 0 <= j < |cats| && cats[j].name == row.category && cats[j].categoryType == t
              && (exists o :: o in ops && o.categoryId == cats[j].id && InWindow(o, start))
              && row.totalAmount == Total(WithCategory(ByType(cats, ops, t, start), cats[j].id))
  {
    var rows := ByType(cats, ops, t, start);
    var g := GroupTotals(rows);
    var j :| 0 <= j < |cats| && cats[j].id in g && row == CategoryTotal(cats[j].name, g[cats[j].id]);
    var group := WithCategory(rows, cats[j].id);
    assert group[0] in group;
    var o := group[0];
    assert o in ops && o.categoryId == cats[j].id && InWindow(o, start);
    HasTypeOfIndex(cats, cats[j].id, t);
    assert cats[j].categoryType == t;
  }

  /** Every row names a category of type t that has at least one operation of
      the window, and carries the sum of exactly that category's operations of
      the window: a category with nothing in the window never appears. */
  lemma ByCategoryRowsSound(cats: seq<Category>, ops: seq<Operation>, t: CategoryType, start: int)
    requires UniqueCategoryIds(cats)
    ensures forall row :: row in ByCategory(cats, ops, t, start) ==>
              exists j :: 0 <= j < |cats| && cats[j].name == row.category && cats[j].categoryType == t
                && (exists o :: o in ops && o.categoryId == cats[j].id && InWindow(o, start))
                && row.totalAmount == Total(WithCategory(ByType(cats, ops, t, start), cats[j].id))
  {
    forall row | row in ByCategory(cats, ops, t, start)
      ensures exists j :: 0 <= j < |cats| && cats[j].name == row.category && cats[j].categoryType == t
                && (exists o :: o in ops && o.categoryId == cats[j].id && InWindow(o, start))
                && row.totalAmount == Total(WithCategory(ByType(cats, ops, t, start), cats[j].id))
    {
      ByCategoryRowSound(cats, ops, t, start, row);
    }
  }

  /** Every category of type t with an operation in the window has its row,
      carrying that category's sum. */
  lemma ByCategoryComplete(cats: seq<Category>, ops: seq<Operation>, t: CategoryType, start: int)
    ensures forall j, o :: 0 <= j < |cats| && cats[j].categoryType == t && o in ops && o.categoryId == cats[j].id && InWindow(o, start) ==>
              CategoryTotal(cats[j].name, Total(WithCategory(ByType(cats, ops, t, start), cats[j].id))) in ByCategory(cats, ops, t, start)
  {
    var rows := ByType(cats, ops, t, start);
    forall j, o | 0 <= j < |cats| && cats[j].categoryType == t && o in ops && o.categoryId == cats[j].id && InWindow(o, start)
      ensures CategoryTotal(cats[j].name, Total(WithCategory(rows, cats[j].id))) in ByCategory(cats, ops, t, start)
    {
      assert Matches(cats, o, t, start);
      assert o in WithCategory(rows, cats[j].id);
    }
  }

  lemma {:induction false} JoinNamesDistinct(cats: seq<Category>, groups: map<int, int>, t: CategoryType)
    requires UniqueNames(cats)
    requires forall j :: 0 <= j < |cats| && cats[j].id in groups ==> cats[j].categoryType == t
    ensures forall a, b :: 0 <= a < b < |JoinNames(cats, groups)| ==> JoinNames(cats, groups)[a].category != JoinNames(cats, groups)[b].category
  {
    if cats != [] {
      var rest := JoinNames(cats[1..], groups);
      assert forall j :: 1 <= j < |cats| ==> cats[j] == cats[1..][j - 1];
      JoinNamesDistinct(cats[1..], groups, t);
      if cats[0].id in groups {
        var r := JoinNames(cats, groups);
        assert r == [CategoryTotal(cats[0].name, groups[cats[0].id])] + rest;
        forall b | 0 < b < |r| ensures r[0].category != r[b].category {
          assert r[b] in rest;
          var j :| 0 <= j < |cats[1..]| && cats[1..][j].id in groups && r[b] == CategoryTotal(cats[1..][j].name, groups[cats[1..][j].id]);
          assert cats[1..][j] == cats[j + 1];
        }
      }
    }
  }

  /** In a consistent store the breakdown has one row per category name. */
  lemma ByCategoryDistinctNames(cats: seq<Category>, ops: seq<Operation>, t: CategoryType, start: int)
    requires UniqueCategoryIds(cats) && UniqueNames(cats)
    ensures forall a, b :: 0 <= a < b < |ByCategory(cats, ops, t, start)| ==>
              ByCategory(cats, ops, t, start)[a].category != ByCategory(cats, ops, t, start)[b].category
  {
    var rows := ByType(cats, ops, t, start);
    var g := GroupTotals(rows);
    forall j | 0 <= j < |cats| && cats[j].id in g ensures cats[j].categoryType == t {
      var o := WithCategory(rows, cats[j].id)[0];
      assert o in WithCategory(rows, cats[j].id);
      HasTypeOfIndex(cats, cats[j].id, t);
    }
    JoinNamesDistinct(cats, g, t);
  }

  /** Sum of the totals of a list of breakdown rows. */
  function RowsTotal(rows: seq<CategoryTotal>): int
  {
    if rows == [] then 0 else rows[0].totalAmount + RowsTotal(rows[1..])
  }

  /** Sum, over the categories of a table, of each category's rows. */
  function GroupSum(cats: seq<Category>, rows: seq<Operation>): int
  {
    if cats == [] then 0 else Total(WithCategory(rows, cats[0].id)) + GroupSum(cats[1..], rows)
  }

  lemma {:induction false} RowsTotalConcat(a: seq<CategoryTotal>, b: seq<CategoryTotal>)
    ensures RowsTotal(a + b) == RowsTotal(a) + RowsTotal(b)
  {
    if a != [] {
      RowsTotalConcat(a[1..], b);
      assert (a + b)[1..] == a[1..] + b;
    } else {
      assert a + b == b;
    }
  }

  lemma {:induction false} JoinNamesTotal(cats: seq<Category>, rows: seq<Operation>)
    ensures RowsTotal(JoinNames(cats, GroupTotals(rows))) == GroupSum(cats, rows)
  {
    if cats != [] {
      var g := GroupTotals(rows);
      JoinNamesTotal(cats[1..], rows);
      var head := if cats[0].id in g then [CategoryTotal(cats[0].name, g[cats[0].id])] else [];
      RowsTotalConcat(head, JoinNames(cats[1..], g));
      assert RowsTotal(head) == Total(WithCategory(rows, cats[0].id)) by {
        if cats[0].id in g {
          assert head[1..] == [];
        } else {
          assert WithCategory(rows, cats[0].id) == [];
        }
      }
      assert JoinNames(cats, g) == head + JoinNames(cats[1..], g);
    }
  }

  lemma {:induction false} GroupSumWithout(cats: seq<Category>, rows: seq<Operation>, id: int)
    requires forall j :: 0 <= j < |cats| ==> cats[j].id != id
    ensures GroupSum(cats, WithoutCategory(rows, id)) == GroupSum(cats, rows)
  {
    if cats != [] {
      WithCategoryWithout(rows, id, cats[0].id);
      GroupSumWithout(cats[1..], rows, id);
    }
  }

  /** When every row's category is in a table with unique ids, summing the
      rows category by category gives the sum of all rows. */
  lemma {:induction false} GroupSumTotal(cats: seq<Category>, rows: seq<Operation>)
    requires UniqueCategoryIds(cats)
    requires forall o :: o in rows ==> HasCategory(cats, o.categoryId)
    ensures GroupSum(cats, rows) == Total(rows)
  {
    if cats == [] {
      assert forall o :: o in rows ==> !HasCategory(cats, o.categoryId);
    } else {
      var id := cats[0].id;
      var others := WithoutCategory(rows, id);
      TotalSplit(rows, id);
      forall o | o in others ensures HasCategory(cats[1..], o.categoryId) {
        var j :| 0 <= j < |cats| && cats[j].id == o.categoryId;
        assert cats[1..][j - 1] == cats[j];
      }
      GroupSumTotal(cats[1..], others);
      GroupSumWithout(cats[1..], rows, id);
    }
  }

  /** The breakdown of type t adds up to the summary's sum for t over the same
      window. */
  lemma ByCategorySum(cats: seq<Category>, ops: seq<Operation>, t: CategoryType, start: int)
    requires UniqueCategoryIds(cats)
    ensures RowsTotal(ByCategory(cats, ops, t, start)) == SumByType(cats, ops, t, start)
  {
    var rows := ByType(cats, ops, t, start);
    JoinNamesTotal(cats, rows);
    forall o | o in rows ensures HasCategory(cats, o.categoryId) {
      assert HasType(cats, o.categoryId, t);
    }
    GroupSumTotal(cats, rows);
  }

  /** The two analytics handlers agree: the income breakdown adds up to the
      summary's incomes and the expense breakdown to its expenses. */
  lemma BreakdownMatchesSummary(cats: seq<Category>, ops: seq<Operation>, today: int, period: Option<Period>)
    requires UniqueCategoryIds(cats)
    ensures RowsTotal(AnalyticsByCategory(cats, ops, today, Income, period)) == Summary(cats, ops, today, period).incomes
    ensures RowsTotal(AnalyticsByCategory(cats, ops, today, Expense, period)) == Summary(cats, ops, today, period).expenses
  {
    ByCategorySum(cats, ops, Income, WindowStart(today, period));
    ByCategorySum(cats, ops, Expense, WindowStart(today, period));
  }

  /** The worked example: a salary category and a rent category, and one
      operation of each dated `today`. */
  const ExampleCategories: seq<Category> := [Category(1, "salary", Income), Category(2, "rent", Expense)]

  function ExampleOperations(today: int): seq<Operation>
  {
    [Operation(1, 100, None, today, 1), Operation(2, 40, None, today, 2)]
  }

  lemma ExampleSelections(today: int)
    ensures ByType(ExampleCategories, ExampleOperations(today), Income, today - 7) == [ExampleOperations(today)[0]]
    ensures ByType(ExampleCategories, ExampleOperations(today), Expense, today - 7) == [ExampleOperations(today)[1]]
  {
    var cats, ops := ExampleCategories, ExampleOperations(today);
    assert cats[0].id == 1 && cats[0].categoryType == Income;
    assert cats[1].id == 2 && cats[1].categoryType == Expense;
    assert HasType(cats, 1, Income) && !HasType(cats, 1, Expense);
    assert HasType(cats, 2, Expense) && !HasType(cats, 2, Income);
    assert ops[1..] == [ops[1]] && ops[1..][1..] == [];
  }

  /** Over the last week the example's summary is {100, 40, 60}. */
  lemma SalaryAndRentSummary(today: int)
    ensures Summary(ExampleCategories, ExampleOperations(today), today, Some(Week)) == Totals(100, 40, 60)
  {
    var ops := ExampleOperations(today);
    ExampleSelections(today);
    assert Total([ops[0]]) == 100 + Total([]);
    assert Total([ops[1]]) == 40 + Total([]);
  }

  lemma ExampleIncomeGroups(today: int)
    ensures GroupTotals([ExampleOperations(today)[0]]) == map[1 := 100]
  {
    var o := ExampleOperations(today)[0];
    var g := GroupTotals([o]);
    assert WithCategory([o], 1) == [o];
    assert Total([o]) == 100 + Total([]);
    forall id | id != 1 ensures id !in g {
      assert WithCategory([o], id) == [];
    }
    assert g.Keys == {1};
  }

  lemma ExampleJoin()
    ensures JoinNames(ExampleCategories, map[1 := 100]) == [CategoryTotal("salary", 100)]
  {
    var cats := ExampleCategories;
    assert cats[1..] == [cats[1]] && cats[1..][1..] == [];
    assert JoinNames(cats[1..], map[1 := 100]) == [];
  }

  /** Over the last week the example's income breakdown is the single row
      ("salary", 100). */
  lemma SalaryAndRentBreakdown(today: int)
    ensures AnalyticsByCategory(ExampleCategories, ExampleOperations(today), today, Income, Some(Week))
            == [CategoryTotal("salary", 100)]
  {
    var cats, ops := ExampleCategories, ExampleOperations(today);
    calc {
      AnalyticsByCategory(cats, ops, today, Income, Some(Week));
      { assert WindowStart(today, Some(Week)) == today - 7; }
      ByCategory(cats, ops, Income, today - 7);
      JoinNames(cats, GroupTotals(ByType(cats, ops, Income, today - 7)));
      { ExampleSelections(today); }
      JoinNames(cats, GroupTotals([ops[0]]));
      { ExampleIncomeGroups(today); }
      JoinNames(cats, map[1 := 100]);
      { ExampleJoin(); }
      [CategoryTotal("salary", 100)];
    }
  }
}
