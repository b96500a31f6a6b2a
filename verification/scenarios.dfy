/** The repository's test cases, restated as facts about the model. Every
    database starts as the test fixture does: a fresh in-memory database on
    which `create_tables` has run. */
module Scenarios {
  import opened Wrappers
  import opened Strings
  import opened Values
  import opened Database
  import opened Messages
  import opened Logic

  /** The fixture database. */
  function Fixture(): (db: Db)
    ensures db.hasBudgets && db.hasTransactions && db.budgets == [] && db.transactions == []
  {
    CreateTables(Empty)
  }

  /** `test_create_budget_category`, valid case. */
  lemma ValidCategoryConfirmed()
    ensures CreateBudgetCategory(Fixture(), "Entertainment", 200.0, false).message == BudgetAdded("Entertainment", 200.0)
  {
    assert !IsSpace("Entertainment"[0]);
  }

  /** `test_create_budget_category`, blank names. */
  lemma BlankCategoryNamesRejected()
    ensures CreateBudgetCategory(Fixture(), "", 100.0, false).message == EmptyBudgetName
    ensures CreateBudgetCategory(Fixture(), "   ", 100.0, false).message == EmptyBudgetName
  {
    assert IsBlank("   ");
  }

  /** `test_create_budget_category`, zero and negative amounts. */
  lemma NonPositiveAmountsRejected()
    ensures CreateBudgetCategory(Fixture(), "Utilities", 0.0, false).message == NonPositiveBudgetAmount
    ensures CreateBudgetCategory(Fixture(), "Rent", -500.0, false).message == NonPositiveBudgetAmount
  {
    assert !IsSpace("Utilities"[0]);
    assert !IsSpace("Rent"[0]);
  }

  /** The fixture with the category "Groceries" (300.0) added. */
  function WithGroceries(): (db: Db)
    ensures db.hasBudgets && db.hasTransactions && db.transactions == []
    ensures |db.budgets| == 1 && db.budgets[0].name == "Groceries" && db.budgets[0].amount == 300.0
  {
    assert !IsSpace("Groceries"[0]);
    CreateBudgetCategory(Fixture(), "Groceries", 300.0, false).db
  }

  /** `test_add_single_transaction`, valid case: the row is stored under the
      category's id. */
  lemma ValidTransactionConfirmed()
    ensures
      var r := AddSingleTransaction(WithGroceries(), "Groceries", Num(50.0), "2024-01-15", "Weekly groceries", false);
      && r.message == TransactionAdded("Groceries", "2024-01-15", Num(50.0))
      && r.db.transactions == [Transaction(1, WithGroceries().budgets[0].id, Num(50.0), "2024-01-15", "Weekly groceries")]
  {
    var db := WithGroceries();
    assert !IsSpace("Groceries"[0]);
    assert !IsSpace("2024-01-15"[0]);
    assert !IsSpace("Weekly groceries"[0]);
    assert IsFirstNamed(db.budgets, "Groceries", 0);
  }

  /** `test_add_single_transaction`, a blank category name. */
  lemma BlankTransactionBudgetRejected()
    ensures AddSingleTransaction(WithGroceries(), "", Num(50.0), "2024-01-15", "Weekly groceries", false).message == EmptyBudgetName
  {
  }

  /** `test_add_single_transaction`, an amount that is not a number. */
  lemma TextAmountRejected()
    ensures AddSingleTransaction(WithGroceries(), "Groceries", Str("fifty"), "2024-01-15", "Weekly groceries", false).message == InvalidAmount
  {
    assert !IsSpace("Groceries"[0]);
    FiftyIsNotANumber();
  }

  /** `test_add_single_transaction`, blank date and description. */
  lemma BlankDateAndDescriptionRejected()
    ensures AddSingleTransaction(WithGroceries(), "Groceries", Num(50.0), "", "Weekly groceries", false).message == EmptyDate
    ensures AddSingleTransaction(WithGroceries(), "Groceries", Num(50.0), "2024-01-15", "", false).message == EmptyDescription
  {
    assert !IsSpace("Groceries"[0]);
    assert !IsSpace("2024-01-15"[0]);
  }

  /** `test_add_single_transaction`, a category that does not exist. */
  lemma UnknownCategoryRejected()
    ensures AddSingleTransaction(WithGroceries(), "NonExistingBudget", Num(50.0), "2024-01-15", "Some description", false).message
            == UnknownBudget("NonExistingBudget")
  {
    assert !IsSpace("NonExistingBudget"[0]);
    assert !IsSpace("2024-01-15"[0]);
    assert !IsSpace("Some description"[0]);
    assert WithGroceries().budgets[0].name != "NonExistingBudget";
  }

  /** The fixture with "Groceries" (300.0) and "Entertainment" (150.0). */
  function WithTwoCategories(): (db: Db)
    ensures db.hasBudgets && db.hasTransactions && db.transactions == []
    ensures |db.budgets| == 2
    ensures db.budgets[0].name == "Groceries" && db.budgets[1].name == "Entertainment"
  {
    assert !IsSpace("Entertainment"[0]);
    CreateBudgetCategory(WithGroceries(), "Entertainment", 150.0, false).db
  }

  /** One admissible row naming an existing category, inserted without a
      storage error, is confirmed and appended. */
  lemma RowAdded(db: Db, x: TransactionInput)
    requires db.hasBudgets && db.hasTransactions
    requires Admits(x) && HasName(db.budgets, x.budgetName)
    ensures var r := AddRow(db, x, false);
      && r.message == TransactionAdded(x.budgetName, x.date, x.amount)
      && r.db.budgets == db.budgets && r.db.hasBudgets && r.db.hasTransactions
      && |r.db.transactions| == |db.transactions| + 1
      && r.db.transactions[..|db.transactions|] == db.transactions
      && r.db.transactions[|db.transactions|].amount == x.amount
      && r.db.transactions[|db.transactions|].date == x.date
      && r.db.transactions[|db.transactions|].description == x.description
  {
  }

  /** Two admissible rows naming existing categories, without storage
      errors, are both stored in order and the import is confirmed. */
  lemma TwoRowsImported(db: Db, x1: TransactionInput, x2: TransactionInput)
    requires db.hasBudgets && db.hasTransactions
    requires Admits(x1) && HasName(db.budgets, x1.budgetName)
    requires Admits(x2) && HasName(db.budgets, x2.budgetName)
    ensures
      var r := ImportRows(db, [x1, x2], []);
      var n := |db.transactions|;
      && r.message == AllTransactionsAdded
      && |r.db.transactions| == n + 2
      && r.db.transactions[n].amount == x1.amount && r.db.transactions[n].date == x1.date
      && r.db.transactions[n].description == x1.description
      && r.db.transactions[n + 1].amount == x2.amount && r.db.transactions[n + 1].date == x2.date
      && r.db.transactions[n + 1].description == x2.description
  {
    RowAdded(db, x1);
    var r1 := AddRow(db, x1, false);
    RowAdded(r1.db, x2);
    var r2 := AddRow(r1.db, x2, false);
    ImportStep(db, [x1, x2], []);
    assert [x1, x2][1..] == [x2];
    ImportStep(r1.db, [x2], []);
    assert ImportRows(db, [x1, x2], []) == Reply(AllTransactionsAdded, r2.db) by {
      assert Rest([]) == [];
      assert [x2][1..] == [];
    }
  }

  /** A text whose first character is not whitespace is not blank. */
  lemma NotBlank(s: string)
    requires s != [] && !IsSpace(s[0])
    ensures !IsBlank(s)
  {
  }

  /** The rows of the file in `test_add_transactions_from_file`. */
  function TestFileRows(): (xs: seq<TransactionInput>)
    ensures |xs| == 2
  {
    [TransactionInput("Groceries", Num(75.0), "2024-02-01", "Grocery shopping"),
     TransactionInput("Entertainment", Num(120.0), "2024-02-02", "Concert tickets")]
  }

  /** Both rows of the test file pass validation, so by `TwoRowsImported`
      the import on the test's database stores both and is confirmed. */
  lemma TestFileRowsAdmissible()
    ensures Admits(TestFileRows()[0]) && Admits(TestFileRows()[1])
  {
    NotBlank("Groceries");
    NotBlank("2024-02-01");
    NotBlank("Grocery shopping");
    NotBlank("Entertainment");
    NotBlank("2024-02-02");
    NotBlank("Concert tickets");
  }

  /** The fixture of the import test meets the requirements above. */
  lemma ImportFixtureReady()
    ensures var db := WithTwoCategories();
      db.hasBudgets && db.hasTransactions && db.transactions == []
      && HasName(db.budgets, "Groceries") && HasName(db.budgets, "Entertainment")
  {
    var db := WithTwoCategories();
    assert db.budgets[0].name == "Groceries";
    assert db.budgets[1].name == "Entertainment";
  }

  /** `test_add_transactions_from_file` on its own data: with "Groceries" and
      "Entertainment" created, importing the test file's two rows is
      confirmed and stores both, in file order, with their amounts, dates
      and descriptions. */
  lemma ImportTestFileConfirmed()
    ensures
      var r := ImportRows(WithTwoCategories(), TestFileRows(), []);
      && r.message == AllTransactionsAdded
      && |r.db.transactions| == 2
      && r.db.transactions[0].amount == Num(75.0) && r.db.transactions[0].date == "2024-02-01"
      && r.db.transactions[0].description == "Grocery shopping"
      && r.db.transactions[1].amount == Num(120.0) && r.db.transactions[1].date == "2024-02-02"
      && r.db.transactions[1].description == "Concert tickets"
  {
    ImportFixtureReady();
    TestFileRowsAdmissible();
    TwoRowsImported(WithTwoCategories(), TestFileRows()[0], TestFileRows()[1]);
    assert TestFileRows() == [TestFileRows()[0], TestFileRows()[1]];
  }

  /** The file of `test_add_transactions_from_file` as read: the four
      required columns and its two rows. */
  function TestFile(): (f: Frame)
    ensures f.columns == RequiredColumns && |f.rows| == 2
  {
    Frame(RequiredColumns, [
      map["budget_name" := Str("Groceries"), "amount" := Num(75.0),
          "date" := Str("2024-02-01"), "description" := Str("Grocery shopping")],
      map["budget_name" := Str("Entertainment"), "amount" := Num(120.0),
          "date" := Str("2024-02-02"), "description" := Str("Concert tickets")]])
  }

  /** `test_add_transactions_from_file` through the file entry point: the
      column check passes, and the import is confirmed whatever order the
      column names would be listed in. */
  lemma TestFileImportConfirmed(order: seq<string>)
    requires ListsRequiredColumns(order)
    ensures Readable(TestFile()) && HasRequiredColumns(TestFile())
    ensures AddTransactionsFromFile(WithTwoCategories(), TestFile(), order, []).message == AllTransactionsAdded
  {
    assert Readable(TestFile());
    assert Inputs(TestFile()) == TestFileRows();
    ImportFixtureReady();
    ImportTestFileConfirmed();
  }
}
