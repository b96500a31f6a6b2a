/** The logic layer: validation, then insertion through the storage layer.

    Every operation takes the database and returns its reply together with
    the database afterwards. A storage error on an insert is an oracle flag:
    `fail` for a single call, `fails[k]` for row `k` of an imported file. */
module Logic {
  import opened Wrappers
  import opened Strings
  import opened Values
  import opened Database
  import opened Messages

  datatype Reply = Reply(message: Message, db: Db)

  /** `create_budget_category`: the name check comes first, then the amount
      check, then the insert. Every error leaves the database unchanged; a
      success appends exactly the row `(name, amount)`. */
  function CreateBudgetCategory(db: Db, name: string, amount: real, fail: bool): (r: Reply)
    ensures IsBlank(name) ==> r == Reply(EmptyBudgetName, db)
    ensures !IsBlank(name) && amount <= 0.0 ==> r == Reply(NonPositiveBudgetAmount, db)
    ensures !IsBlank(name) && amount > 0.0 && (fail || !db.hasBudgets) ==> r == Reply(BudgetInsertFailed, db)
    ensures r.message.IsError() ==> r.db == db
    ensures !r.message.IsError() <==> !IsBlank(name) && amount > 0.0 && db.hasBudgets && !fail
    ensures !r.message.IsError() ==> r.message == BudgetAdded(name, amount) && BudgetAppended(db, r.db, name, amount)
  {
    if IsBlank(name) then Reply(EmptyBudgetName, db)
    else if amount <= 0.0 then Reply(NonPositiveBudgetAmount, db)
    else
      var w := InsertBudget(db, name, amount, fail);
      if w.ok then Reply(BudgetAdded(name, amount), w.db)
      else Reply(BudgetInsertFailed, w.db)
  }

  /** The four field checks of `add_single_transaction` all pass. */
  predicate Admissible(budgetName: string, amount: Value, date: string, description: string) {
    !IsBlank(budgetName) && ParsesAsFloat(amount) && !IsBlank(date) && !IsBlank(description)
  }

  /** `add_single_transaction`. The checks run in the order budget name,
      amount, date, description, and the first failure is the reply; then
      the name must resolve to a budget; then the insert. Every error leaves
      the database unchanged; a success appends one row that carries the id
      of the first budget with that name and the other fields verbatim.
      The lookup reads the budgets table, which must exist once it is reached
      (SQLite raises otherwise). */
  function AddSingleTransaction(db: Db, budgetName: string, amount: Value, date: string, description: string, fail: bool): (r: Reply)
    requires Admissible(budgetName, amount, date, description) ==> db.hasBudgets
    ensures IsBlank(budgetName) ==> r == Reply(EmptyBudgetName, db)
    ensures !IsBlank(budgetName) && !ParsesAsFloat(amount) ==> r == Reply(InvalidAmount, db)
    ensures !IsBlank(budgetName) && ParsesAsFloat(amount) && IsBlank(date) ==> r == Reply(EmptyDate, db)
    ensures !IsBlank(budgetName) && ParsesAsFloat(amount) && !IsBlank(date) && IsBlank(description) ==>
      r == Reply(EmptyDescription, db)
    ensures Admissible(budgetName, amount, date, description) && !HasName(db.budgets, budgetName) ==>
      r == Reply(UnknownBudget(budgetName), db)
    ensures (Admissible(budgetName, amount, date, description) && HasName(db.budgets, budgetName)
             && (fail || !db.hasTransactions)) ==> r == Reply(TransactionInsertFailed, db)
    ensures r.message.IsError() ==> r.db == db
    ensures !r.message.IsError() <==>
      Admissible(budgetName, amount, date, description) && HasName(db.budgets, budgetName) && db.hasTransactions && !fail
    ensures !r.message.IsError() ==>
      && r.message == TransactionAdded(budgetName, date, amount)
      && exists i :: IsFirstNamed(db.budgets, budgetName, i)
           && TransactionAppended(db, r.db, db.budgets[i].id, amount, date, description)
  {
    if IsBlank(budgetName) then Reply(EmptyBudgetName, db)
    else if !ParsesAsFloat(amount) then Reply(InvalidAmount, db)
    else if IsBlank(date) then Reply(EmptyDate, db)
    else if IsBlank(description) then Reply(EmptyDescription, db)
    else match GetBudgetIdByName(db, budgetName)
      case None => Reply(UnknownBudget(budgetName), db)
      case Some(id) =>
        var w := InsertTransaction(db, id, amount, date, description, fail);
        if w.ok then Reply(TransactionAdded(budgetName, date, amount), w.db)
        else Reply(TransactionInsertFailed, w.db)
  }

  // ---------------------------------------------------------------------
  // Bulk import from a CSV file

  /** The columns a transactions file must have; others are allowed. */
  const RequiredColumns: set<string> := {"budget_name", "amount", "date", "description"}

  /** A CSV file as read: its column set and its rows in file order, each row
      a map from column name to cell. */
  datatype Frame = Frame(columns: set<string>, rows: seq<map<string, Value>>)

  predicate HasRequiredColumns(f: Frame) {
    RequiredColumns <= f.columns
  }

  /** What reading a file guarantees: every row has exactly the file's
      columns. When the required columns are present, the name, date and
      description cells hold text (a cell of another type would make
      `strip()` raise). */
  predicate Readable(f: Frame) {
    && (forall i :: 0 <= i < |f.rows| ==> f.rows[i].Keys == f.columns)
    && (HasRequiredColumns(f) ==>
          forall i :: 0 <= i < |f.rows| ==>
            f.rows[i]["budget_name"].Str? && f.rows[i]["date"].Str? && f.rows[i]["description"].Str?)
  }

  /** One row's arguments to `add_single_transaction`. */
  datatype TransactionInput = TransactionInput(budgetName: string, amount: Value, date: string, description: string)

  predicate Admits(x: TransactionInput) {
    Admissible(x.budgetName, x.amount, x.date, x.description)
  }

  /** The lookup for `x` can run against `db`: the budgets table exists or
      `x` is rejected before the lookup. */
  predicate CanLookUp(db: Db, x: TransactionInput) {
    db.hasBudgets || !Admits(x)
  }

  function AddRow(db: Db, x: TransactionInput, fail: bool): (r: Reply)
    requires CanLookUp(db, x)
  {
    AddSingleTransaction(db, x.budgetName, x.amount, x.date, x.description, fail)
  }

  /** Whether the insert of row `k` hits a storage error. */
  function FailsAt(fails: seq<bool>, k: nat): bool {
    k < |fails| && fails[k]
  }

  function Rest(fails: seq<bool>): seq<bool> {
    if fails == [] then [] else fails[1..]
  }

  /** Transaction row `t` stores input `x`: verbatim amount, date and
      description, and the id of the first budget in `bs` named as `x` says. */
  predicate Stores(bs: seq<Budget>, t: Transaction, x: TransactionInput) {
    && t.amount == x.amount
    && t.date == x.date
    && t.description == x.description
    && IdOfFirstNamed(bs, x.budgetName) == Some(t.budgetId)
  }

  /** The loop of `add_transactions_from_file`: rows go to
      `add_single_transaction` in order, and the first reply starting with
      "Error" aborts the loop with that reply wrapped. Rows inserted before
      the abort stay inserted. When every row succeeds, exactly one
      transaction per row is appended, in row order. */
  function ImportRows(db: Db, inputs: seq<TransactionInput>, fails: seq<bool>): (r: Reply)
    requires inputs == [] || CanLookUp(db, inputs[0])
    ensures r.message == AllTransactionsAdded || (r.message.FileRowFailed? && r.message.cause.IsError())
    ensures r.db.budgets == db.budgets
    ensures r.db.hasBudgets == db.hasBudgets && r.db.hasTransactions == db.hasTransactions
    ensures db.transactions <= r.db.transactions
    ensures r.message == AllTransactionsAdded ==> |r.db.transactions| == |db.transactions| + |inputs|
    ensures r.message.FileRowFailed? ==> |r.db.transactions| < |db.transactions| + |inputs|
    decreases |inputs|
  {
    if inputs == [] then Reply(AllTransactionsAdded, db)
    else
      var r0 := AddRow(db, inputs[0], FailsAt(fails, 0));
      if StartsWith(Render(r0.message), "Error") then Reply(FileRowFailed(r0.message), r0.db)
      else
        ImportRows(r0.db, inputs[1..], Rest(fails))
  }

  /** A completed import appended exactly one transaction per row, in row
      order, each storing its row. */
  lemma {:induction false} ImportStoresEveryRow(db: Db, inputs: seq<TransactionInput>, fails: seq<bool>)
    requires inputs == [] || CanLookUp(db, inputs[0])
    requires ImportRows(db, inputs, fails).message == AllTransactionsAdded
    ensures var r := ImportRows(db, inputs, fails);
      && |r.db.transactions| == |db.transactions| + |inputs|
      && forall k :: 0 <= k < |inputs| ==> Stores(db.budgets, r.db.transactions[|db.transactions| + k], inputs[k])
    decreases |inputs|
  {
    if inputs != [] {
      CompletedImportStep(db, inputs, fails);
      var db1 := AddRow(db, inputs[0], FailsAt(fails, 0)).db;
      ImportStoresEveryRow(db1, inputs[1..], Rest(fails));
      StoresShift(db, db1, ImportRows(db1, inputs[1..], Rest(fails)).db, inputs);
    }
  }

  /** One step of a completed import: the first row succeeded, stored
      itself, and the import continued from there. */
  lemma CompletedImportStep(db: Db, inputs: seq<TransactionInput>, fails: seq<bool>)
    requires inputs != [] && CanLookUp(db, inputs[0])
    requires ImportRows(db, inputs, fails).message == AllTransactionsAdded
    ensures var db1 := AddRow(db, inputs[0], FailsAt(fails, 0)).db;
      && db1.budgets == db.budgets
      && |db1.transactions| == |db.transactions| + 1
      && Stores(db.budgets, db1.transactions[|db.transactions|], inputs[0])
      && (inputs[1..] == [] || CanLookUp(db1, inputs[1..][0]))
      && ImportRows(db, inputs, fails) == ImportRows(db1, inputs[1..], Rest(fails))
  {
    var r0 := AddRow(db, inputs[0], FailsAt(fails, 0));
    assert !r0.message.IsError();
    AddRowStores(db, inputs[0], FailsAt(fails, 0));
  }

  /** A successful row appends one transaction that stores it. */
  lemma AddRowStores(db: Db, x: TransactionInput, fail: bool)
    requires CanLookUp(db, x)
    requires !AddRow(db, x, fail).message.IsError()
    ensures var db2 := AddRow(db, x, fail).db;
      && db2.budgets == db.budgets
      && db2.hasBudgets == db.hasBudgets && db2.hasTransactions == db.hasTransactions
      && |db2.transactions| == |db.transactions| + 1
      && db.transactions <= db2.transactions
      && Stores(db.budgets, db2.transactions[|db.transactions|], x)
  {
    var db2 := AddRow(db, x, fail).db;
    var i :| IsFirstNamed(db.budgets, x.budgetName, i)
      && TransactionAppended(db, db2, db.budgets[i].id, x.amount, x.date, x.description);
    assert db.transactions == db2.transactions[..|db.transactions|];
  }

  /** The index bookkeeping behind `ImportRows`: the first new row stores the
      first input, and the rows after it store the remaining inputs. */
  lemma StoresShift(db: Db, db1: Db, db2: Db, inputs: seq<TransactionInput>)
    requires inputs != []
    requires db1.budgets == db.budgets
    requires |db1.transactions| == |db.transactions| + 1
    requires db1.transactions <= db2.transactions
    requires Stores(db.budgets, db1.transactions[|db.transactions|], inputs[0])
    requires |db2.transactions| == |db1.transactions| + |inputs[1..]|
    requires forall k :: 0 <= k < |inputs[1..]| ==>
      Stores(db1.budgets, db2.transactions[|db1.transactions| + k], inputs[1..][k])
    ensures forall k :: 0 <= k < |inputs| ==> Stores(db.budgets, db2.transactions[|db.transactions| + k], inputs[k])
  {
    forall k | 0 <= k < |inputs|
      ensures Stores(db.budgets, db2.transactions[|db.transactions| + k], inputs[k])
    {
      if k > 0 {
        assert inputs[1..][k - 1] == inputs[k];
        assert |db1.transactions| + (k - 1) == |db.transactions| + k;
      }
    }
  }

  /** One step of `ImportRows`: the first row's reply decides between
      stopping and continuing with the remaining rows. */
  lemma ImportStep(db: Db, inputs: seq<TransactionInput>, fails: seq<bool>)
    requires inputs != [] && CanLookUp(db, inputs[0])
    ensures var r0 := AddRow(db, inputs[0], FailsAt(fails, 0));
      && (r0.message.IsError() ==> ImportRows(db, inputs, fails) == Reply(FileRowFailed(r0.message), r0.db))
      && (!r0.message.IsError() ==>
            && (inputs[1..] == [] || CanLookUp(r0.db, inputs[1..][0]))
            && ImportRows(db, inputs, fails) == ImportRows(r0.db, inputs[1..], Rest(fails)))
  {
  }

  /** The failure characterised: an aborted import stopped at some row `k`.
      Rows `0 .. k-1` were imported successfully and produced exactly the
      final database, and row `k`'s own error reply is the one reported. */
  lemma {:induction false} ImportAbortsAtFirstFailure(db: Db, inputs: seq<TransactionInput>, fails: seq<bool>)
    requires inputs == [] || CanLookUp(db, inputs[0])
    requires ImportRows(db, inputs, fails).message.FileRowFailed?
    ensures var r := ImportRows(db, inputs, fails);
      exists k :: 0 <= k < |inputs|
        && ImportRows(db, inputs[..k], fails) == Reply(AllTransactionsAdded, r.db)
        && |r.db.transactions| == |db.transactions| + k
        && CanLookUp(r.db, inputs[k])
        && AddRow(r.db, inputs[k], FailsAt(fails, k)).message.IsError()
        && r.message == FileRowFailed(AddRow(r.db, inputs[k], FailsAt(fails, k)).message)
    decreases |inputs|
  {
    var r := ImportRows(db, inputs, fails);
    var r0 := AddRow(db, inputs[0], FailsAt(fails, 0));
    ImportStep(db, inputs, fails);
    if r0.message.IsError() {
      assert inputs[..0] == [];
      assert ImportRows(db, inputs[..0], fails) == Reply(AllTransactionsAdded, r.db);
    } else {
      var tail := inputs[1..];
      ImportAbortsAtFirstFailure(r0.db, tail, Rest(fails));
      var k :| 0 <= k < |tail|
        && ImportRows(r0.db, tail[..k], Rest(fails)) == Reply(AllTransactionsAdded, r.db)
        && |r.db.transactions| == |r0.db.transactions| + k
        && CanLookUp(r.db, tail[k])
        && AddRow(r.db, tail[k], FailsAt(Rest(fails), k)).message.IsError()
        && r.message == FileRowFailed(AddRow(r.db, tail[k], FailsAt(Rest(fails), k)).message);
      PrefixStep(db, inputs, fails, k);
      assert FailsAt(Rest(fails), k) == FailsAt(fails, k + 1);
      assert tail[k] == inputs[k + 1];
    }
  }

  /** Importing the first `k + 1` rows, when the first row succeeds, is
      importing the next `k` rows from the state after it. */
  lemma PrefixStep(db: Db, inputs: seq<TransactionInput>, fails: seq<bool>, k: nat)
    requires k < |inputs| && CanLookUp(db, inputs[0])
    requires !AddRow(db, inputs[0], FailsAt(fails, 0)).message.IsError()
    ensures var db1 := AddRow(db, inputs[0], FailsAt(fails, 0)).db;
      && (inputs[1..][..k] == [] || CanLookUp(db1, inputs[1..][..k][0]))
      && ImportRows(db, inputs[..k + 1], fails) == ImportRows(db1, inputs[1..][..k], Rest(fails))
  {
    var p := inputs[..k + 1];
    assert p[0] == inputs[0];
    assert p[1..] == inputs[1..][..k];
    ImportStep(db, p, fails);
  }

  /** The rows of a readable file with the required columns, as arguments. */
  function Inputs(f: Frame): (xs: seq<TransactionInput>)
    requires Readable(f) && HasRequiredColumns(f)
    ensures |xs| == |f.rows|
  {
    seq(|f.rows|, i requires 0 <= i < |f.rows| =>
      TransactionInput(
        f.rows[i]["budget_name"].str, f.rows[i]["amount"], f.rows[i]["date"].str, f.rows[i]["description"].str))
  }

  /** `order` lists each required column once: the order in which Python
      iterates the set of required columns, which varies between runs. */
  predicate ListsRequiredColumns(order: seq<string>) {
    multiset(order) == multiset(RequiredColumns)
  }

  /** `add_transactions_from_file` on an already read file. A file missing a
      required column is rejected before any row is processed; otherwise the
      rows are imported by `ImportRows`. */
  function AddTransactionsFromFile(db: Db, f: Frame, columnOrder: seq<string>, fails: seq<bool>): (r: Reply)
    requires Readable(f)
    requires ListsRequiredColumns(columnOrder)
    requires HasRequiredColumns(f) && f.rows != [] ==> CanLookUp(db, Inputs(f)[0])
    ensures !HasRequiredColumns(f) ==> r == Reply(MissingColumns(columnOrder), db)
    ensures HasRequiredColumns(f) ==> r == ImportRows(db, Inputs(f), fails)
    ensures r.db.budgets == db.budgets
    ensures db.transactions <= r.db.transactions
    ensures r.message == AllTransactionsAdded ==>
      && |r.db.transactions| == |db.transactions| + |f.rows|
      && forall k :: 0 <= k < |f.rows| ==> Stores(db.budgets, r.db.transactions[|db.transactions| + k], Inputs(f)[k])
    ensures r.message.FileRowFailed? ==> |r.db.transactions| < |db.transactions| + |f.rows|
  {
    if !HasRequiredColumns(f) then Reply(MissingColumns(columnOrder), db)
    else
      var r := ImportRows(db, Inputs(f), fails);
      if r.message == AllTransactionsAdded then
        ImportStoresEveryRow(db, Inputs(f), fails);
        r
      else r
  }

  /** A file import that reports a row failure stopped at the first failing
      row `k` of the file: rows `0 .. k-1` were imported and produced exactly
      the final database, and the reply wraps row `k`'s own error reply. */
  lemma FileImportAbortsAtFirstFailure(db: Db, f: Frame, columnOrder: seq<string>, fails: seq<bool>)
    requires Readable(f)
    requires ListsRequiredColumns(columnOrder)
    requires HasRequiredColumns(f) && f.rows != [] ==> CanLookUp(db, Inputs(f)[0])
    requires AddTransactionsFromFile(db, f, columnOrder, fails).message.FileRowFailed?
    ensures var r := AddTransactionsFromFile(db, f, columnOrder, fails);
      && HasRequiredColumns(f)
      && (exists k :: 0 <= k < |f.rows|
            && ImportRows(db, Inputs(f)[..k], fails) == Reply(AllTransactionsAdded, r.db)
            && CanLookUp(r.db, Inputs(f)[k])
            && AddRow(r.db, Inputs(f)[k], FailsAt(fails, k)).message.IsError()
            && r.message == FileRowFailed(AddRow(r.db, Inputs(f)[k], FailsAt(fails, k)).message))
  {
    ImportAbortsAtFirstFailure(db, Inputs(f), fails);
  }

  // ---------------------------------------------------------------------
  // The invariant the logic layer keeps

  predicate HasBudgetId(bs: seq<Budget>, id: int) {
    exists i :: 0 <= i < |bs| && bs[i].id == id
  }

  /** What the logic layer maintains beyond the schema: every budget has a
      non-blank name and a positive amount, and every transaction refers to
      an existing budget and has a number, a date and a description. */
  predicate Consistent(db: Db) {
    && (forall i :: 0 <= i < |db.budgets| ==> !IsBlank(db.budgets[i].name) && db.budgets[i].amount > 0.0)
    && (forall j :: 0 <= j < |db.transactions| ==>
          && HasBudgetId(db.budgets, db.transactions[j].budgetId)
          && ParsesAsFloat(db.transactions[j].amount)
          && !IsBlank(db.transactions[j].date)
          && !IsBlank(db.transactions[j].description))
  }

  lemma CreateBudgetCategoryKeepsConsistent(db: Db, name: string, amount: real, fail: bool)
    requires Valid(db) && Consistent(db)
    ensures Valid(CreateBudgetCategory(db, name, amount, fail).db)
    ensures Consistent(CreateBudgetCategory(db, name, amount, fail).db)
  {
    var r := CreateBudgetCategory(db, name, amount, fail);
    if !r.message.IsError() {
      BudgetAppendedKeepsValid(db, r.db, name, amount);
      forall j | 0 <= j < |r.db.transactions|
        ensures HasBudgetId(r.db.budgets, r.db.transactions[j].budgetId)
      {
        var i :| 0 <= i < |db.budgets| && db.budgets[i].id == db.transactions[j].budgetId;
        assert r.db.budgets[i] == db.budgets[i];
      }
    }
  }

  /** Appending a transaction that refers to an existing budget and passed
      the field checks keeps the invariant. */
  lemma TransactionAppendedKeepsConsistent(db: Db, db2: Db, budgetId: int, amount: Value, date: string, description: string)
    requires Consistent(db) && TransactionAppended(db, db2, budgetId, amount, date, description)
    requires HasBudgetId(db.budgets, budgetId)
    requires ParsesAsFloat(amount) && !IsBlank(date) && !IsBlank(description)
    ensures Consistent(db2)
  {
    forall j | 0 <= j < |db2.transactions|
      ensures HasBudgetId(db2.budgets, db2.transactions[j].budgetId)
      ensures ParsesAsFloat(db2.transactions[j].amount)
      ensures !IsBlank(db2.transactions[j].date) && !IsBlank(db2.transactions[j].description)
    {
      if j < |db.transactions| {
        assert db2.transactions[j] == db.transactions[j];
      }
    }
  }

  lemma AddSingleTransactionKeepsConsistent(db: Db, x: TransactionInput, fail: bool)
    requires Valid(db) && Consistent(db) && CanLookUp(db, x)
    ensures Valid(AddRow(db, x, fail).db)
    ensures Consistent(AddRow(db, x, fail).db)
  {
    var r := AddRow(db, x, fail);
    if !r.message.IsError() {
      var i: int :| IsFirstNamed(db.budgets, x.budgetName, i)
        && TransactionAppended(db, r.db, db.budgets[i].id, x.amount, x.date, x.description);
      assert Admits(x);
      TransactionAppendedKeepsValid(db, r.db, db.budgets[i].id, x.amount, x.date, x.description);
      TransactionAppendedKeepsConsistent(db, r.db, db.budgets[i].id, x.amount, x.date, x.description);
    }
  }

  /** A bulk import keeps the invariant, whether it completes or aborts. */
  lemma {:induction false} ImportKeepsConsistent(db: Db, inputs: seq<TransactionInput>, fails: seq<bool>)
    requires Valid(db) && Consistent(db)
    requires inputs == [] || CanLookUp(db, inputs[0])
    ensures Valid(ImportRows(db, inputs, fails).db)
    ensures Consistent(ImportRows(db, inputs, fails).db)
    decreases |inputs|
  {
    if inputs != [] {
      var r0 := AddRow(db, inputs[0], FailsAt(fails, 0));
      AddSingleTransactionKeepsConsistent(db, inputs[0], FailsAt(fails, 0));
      if !StartsWith(Render(r0.message), "Error") {
        ImportKeepsConsistent(r0.db, inputs[1..], Rest(fails));
      }
    }
  }

  /** Without the logic layer's check the storage layer alone accepts a
      transaction for a budget that does not exist: the foreign key is not
      enforced. */
  lemma InsertTransactionAllowsOrphans()
    ensures var db := InsertTransaction(CreateTables(Empty), 7, Num(1.0), "2024-01-01", "x", false).db;
      db.transactions != [] && !Consistent(db)
  {
  }
}
