/** The storage layer: two SQLite tables modelled as an immutable value.

    A table is an ordered sequence of rows in rowid order, which is the order
    an unindexed `SELECT` scans them in. A table that has not been created yet
    is marked by a flag and holds no rows. A storage error that SQLite could
    raise on an insert is an oracle flag `fail` supplied by the caller. */
module Database {
  import opened Wrappers
  import opened Values

  /** A row of `budgets (id INTEGER PRIMARY KEY, name TEXT, amount REAL)`. */
  datatype Budget = Budget(id: int, name: string, amount: real)

  /** A row of `transactions (id INTEGER PRIMARY KEY, budget_id, amount,
      date, description)`. The amount is kept exactly as it was handed in. */
  datatype Transaction = Transaction(id: int, budgetId: int, amount: Value, date: string, description: string)

  /** The `(amount, date, description)` columns a transaction query returns. */
  datatype TransactionView = TransactionView(amount: Value, date: string, description: string)

  datatype Db = Db(hasBudgets: bool, hasTransactions: bool, budgets: seq<Budget>, transactions: seq<Transaction>)

  /** What an insert returns (`True` or `False`) and the database after it. */
  datatype Write = Write(ok: bool, db: Db)

  /** A fresh database file: no tables yet. */
  const Empty := Db(false, false, [], [])

  function BudgetIds(bs: seq<Budget>): (ids: seq<int>)
    ensures |ids| == |bs| && forall i :: 0 <= i < |bs| ==> ids[i] == bs[i].id
  {
    seq(|bs|, i requires 0 <= i < |bs| => bs[i].id)
  }

  function TransactionIds(ts: seq<Transaction>): (ids: seq<int>)
    ensures |ids| == |ts| && forall i :: 0 <= i < |ts| ==> ids[i] == ts[i].id
  {
    seq(|ts|, i requires 0 <= i < |ts| => ts[i].id)
  }

  /** Ids strictly increase along the table: they are unique, and storage
      order is rowid order. */
  predicate Ascending(ids: seq<int>) {
    forall i, j :: 0 <= i < j < |ids| ==> ids[i] < ids[j]
  }

  /** What SQLite keeps true of every database: a missing table has no rows,
      and `INTEGER PRIMARY KEY` ids are unique within each table and, since
      rows are kept in rowid order, increase along it. */
  predicate Valid(db: Db) {
    && (!db.hasBudgets ==> db.budgets == [])
    && (!db.hasTransactions ==> db.transactions == [])
    && Ascending(BudgetIds(db.budgets))
    && Ascending(TransactionIds(db.transactions))
  }

  function Max(ids: seq<int>): (m: int)
    requires ids != []
    ensures forall i :: 0 <= i < |ids| ==> ids[i] <= m
    ensures m in ids
  {
    if |ids| == 1 then ids[0]
    else
      var rest := Max(ids[1..]);
      if ids[0] >= rest then ids[0] else rest
  }

  /** The rowid SQLite gives a new row: 1 in an empty table, otherwise one
      more than the largest id present, so it is larger than every id. */
  function NextRowId(ids: seq<int>): (r: int)
    ensures forall i :: 0 <= i < |ids| ==> ids[i] < r
    ensures ids == [] ==> r == 1
    ensures ids != [] ==> r - 1 in ids
  {
    if ids == [] then 1 else Max(ids) + 1
  }

  /** `create_tables`: `CREATE TABLE IF NOT EXISTS` for both tables. Both
      tables exist afterwards and the rows already present are untouched. */
  function CreateTables(db: Db): (r: Db)
    ensures r.hasBudgets && r.hasTransactions
    ensures r.budgets == db.budgets && r.transactions == db.transactions
  {
    db.(hasBudgets := true, hasTransactions := true)
  }

  /** Running `create_tables` twice is the same as running it once, and it
      keeps a valid database valid. */
  lemma CreateTablesIdempotent(db: Db)
    ensures CreateTables(CreateTables(db)) == CreateTables(db)
    ensures Valid(db) ==> Valid(CreateTables(db))
  {
  }

  /** `db2` is `db` with one budget row `(next rowid, name, amount)` appended
      to its existing budgets table, and nothing else changed. */
  predicate BudgetAppended(db: Db, db2: Db, name: string, amount: real) {
    && db.hasBudgets
    && db2.hasBudgets == db.hasBudgets
    && db2.hasTransactions == db.hasTransactions
    && db2.transactions == db.transactions
    && |db2.budgets| == |db.budgets| + 1
    && db2.budgets[..|db.budgets|] == db.budgets
    && db2.budgets[|db.budgets|].name == name
    && db2.budgets[|db.budgets|].amount == amount
    && db2.budgets[|db.budgets|].id == NextRowId(BudgetIds(db.budgets))
  }

  /** `db2` is `db` with one transaction row `(next rowid, budgetId, amount,
      date, description)` appended to its existing transactions table, and
      nothing else changed. */
  predicate TransactionAppended(db: Db, db2: Db, budgetId: int, amount: Value, date: string, description: string) {
    && db.hasTransactions
    && db2.hasBudgets == db.hasBudgets
    && db2.hasTransactions == db.hasTransactions
    && db2.budgets == db.budgets
    && |db2.transactions| == |db.transactions| + 1
    && db2.transactions[..|db.transactions|] == db.transactions
    && var t := db2.transactions[|db.transactions|];
    && t.budgetId == budgetId && t.amount == amount && t.date == date && t.description == description
    && t.id == NextRowId(TransactionIds(db.transactions))
  }

  /** `insert_budget`: succeeds unless the table is missing or the storage
      fails; a failed insert leaves the database as it was. */
  function InsertBudget(db: Db, name: string, amount: real, fail: bool): (w: Write)
    ensures w.ok <==> db.hasBudgets && !fail
    ensures w.ok ==> BudgetAppended(db, w.db, name, amount)
    ensures !w.ok ==> w.db == db
  {
    if !db.hasBudgets || fail then Write(false, db)
    else
      var row := Budget(NextRowId(BudgetIds(db.budgets)), name, amount);
      Write(true, db.(budgets := db.budgets + [row]))
  }

  /** `insert_transaction`: as `InsertBudget`. SQLite does not enforce the
      foreign key by default, so any `budgetId` is accepted. */
  function InsertTransaction(db: Db, budgetId: int, amount: Value, date: string, description: string, fail: bool): (w: Write)
    ensures w.ok <==> db.hasTransactions && !fail
    ensures w.ok ==> TransactionAppended(db, w.db, budgetId, amount, date, description)
    ensures !w.ok ==> w.db == db
  {
    if !db.hasTransactions || fail then Write(false, db)
    else
      var row := Transaction(NextRowId(TransactionIds(db.transactions)), budgetId, amount, date, description);
      Write(true, db.(transactions := db.transactions + [row]))
  }

  /** Appending an id that exceeds all others keeps the ids ascending. */
  lemma AppendLargerKeepsAscending(ids: seq<int>, id: int)
    requires Ascending(ids)
    requires forall i :: 0 <= i < |ids| ==> ids[i] < id
    ensures Ascending(ids + [id])
  {
  }

  /** Appending a budget row with the next rowid keeps a database valid. */
  lemma BudgetAppendedKeepsValid(db: Db, db2: Db, name: string, amount: real)
    requires Valid(db) && BudgetAppended(db, db2, name, amount)
    ensures Valid(db2)
  {
    var b := db2.budgets[|db.budgets|];
    assert db2.budgets == db.budgets + [b];
    assert BudgetIds(db2.budgets) == BudgetIds(db.budgets) + [b.id];
    AppendLargerKeepsAscending(BudgetIds(db.budgets), b.id);
  }

  /** Appending a transaction row with the next rowid keeps a database valid. */
  lemma TransactionAppendedKeepsValid(db: Db, db2: Db, budgetId: int, amount: Value, date: string, description: string)
    requires Valid(db) && TransactionAppended(db, db2, budgetId, amount, date, description)
    ensures Valid(db2)
  {
    var t := db2.transactions[|db.transactions|];
    assert db2.transactions == db.transactions + [t];
    assert TransactionIds(db2.transactions) == TransactionIds(db.transactions) + [t.id];
    AppendLargerKeepsAscending(TransactionIds(db.transactions), t.id);
  }

  /** Both inserts keep a valid database valid: ids stay unique and ascending. */
  lemma InsertsKeepValid(db: Db, name: string, amount: real, budgetId: int, value: Value, date: string, description: string, fail: bool)
    requires Valid(db)
    ensures Valid(InsertBudget(db, name, amount, fail).db)
    ensures Valid(InsertTransaction(db, budgetId, value, date, description, fail).db)
  {
    var w := InsertBudget(db, name, amount, fail);
    if w.ok {
      BudgetAppendedKeepsValid(db, w.db, name, amount);
    }
    var v := InsertTransaction(db, budgetId, value, date, description, fail);
    if v.ok {
      TransactionAppendedKeepsValid(db, v.db, budgetId, value, date, description);
    }
  }

  // ---------------------------------------------------------------------
  // Lookups by name: `SELECT ... FROM budgets WHERE name=?` + `fetchone()`

  predicate HasName(bs: seq<Budget>, name: string) {
    exists i :: 0 <= i < |bs| && bs[i].name == name
  }

  /** Row `i` is the first row, in storage order, whose name is exactly `name`. */
  predicate IsFirstNamed(bs: seq<Budget>, name: string, i: int) {
    && 0 <= i < |bs|
    && bs[i].name == name
    && forall j :: 0 <= j < i ==> bs[j].name != name
  }

  /** The index `fetchone()` would return the row of. */
  function FirstNamed(bs: seq<Budget>, name: string): (r: Option<nat>)
    ensures r.Some? ==> IsFirstNamed(bs, name, r.value)
    ensures r.None? ==> forall i :: 0 <= i < |bs| ==> bs[i].name != name
  {
    if bs == [] then None
    else if bs[0].name == name then Some(0)
    else match FirstNamed(bs[1..], name)
      case None => None
      case Some(i) => Some(i + 1)
  }

  /** There is only one first match. */
  lemma FirstNamedUnique(bs: seq<Budget>, name: string, i: int, j: int)
    requires IsFirstNamed(bs, name, i) && IsFirstNamed(bs, name, j)
    ensures i == j
  {
  }

  /** The id of the first row named exactly `name`, if any. */
  function IdOfFirstNamed(bs: seq<Budget>, name: string): (r: Option<int>)
    ensures r.None? <==> !HasName(bs, name)
    ensures r.Some? ==> exists i :: IsFirstNamed(bs, name, i) && bs[i].id == r.value
  {
    match FirstNamed(bs, name)
    case None => None
    case Some(i) => Some(bs[i].id)
  }

  /** `get_budget_id_by_name`: the id of the first row named exactly `name`,
      or None when no row has that name. */
  function GetBudgetIdByName(db: Db, name: string): (r: Option<int>)
    requires db.hasBudgets
    ensures r.None? <==> !HasName(db.budgets, name)
    ensures r.Some? ==> exists i :: IsFirstNamed(db.budgets, name, i) && db.budgets[i].id == r.value
  {
    IdOfFirstNamed(db.budgets, name)
  }

  /** `get_budget_amount_by_name`: the amount of the first row named exactly
      `name`, or None when no row has that name. */
  function GetBudgetAmountByName(db: Db, name: string): (r: Option<real>)
    requires db.hasBudgets
    ensures r.None? <==> !HasName(db.budgets, name)
    ensures r.Some? ==> exists i :: IsFirstNamed(db.budgets, name, i) && db.budgets[i].amount == r.value
  {
    match FirstNamed(db.budgets, name)
    case None => None
    case Some(i) => Some(db.budgets[i].amount)
  }

  /** The two lookups read the same row: both are None, or both come from the
      one first match. */
  lemma LookupsReadSameRow(db: Db, name: string)
    requires db.hasBudgets
    ensures GetBudgetIdByName(db, name).Some? <==> GetBudgetAmountByName(db, name).Some?
    ensures GetBudgetIdByName(db, name).Some? ==>
      exists i :: IsFirstNamed(db.budgets, name, i)
        && db.budgets[i].id == GetBudgetIdByName(db, name).value
        && db.budgets[i].amount == GetBudgetAmountByName(db, name).value
  {
  }

  /** Appending a row leaves an existing first match in place; otherwise the
      new row is the first match exactly when it carries the name. */
  lemma {:induction false} FirstNamedAppend(bs: seq<Budget>, b: Budget, name: string)
    ensures FirstNamed(bs + [b], name) ==
      if FirstNamed(bs, name).Some? then FirstNamed(bs, name)
      else if b.name == name then Some(|bs|)
      else None
  {
    if bs == [] {
      assert bs + [b] == [b];
    } else {
      assert (bs + [b])[1..] == bs[1..] + [b];
      FirstNamedAppend(bs[1..], b, name);
    }
  }

  /** After a budget insert, a name that was already present still resolves to
      its old row (duplicates are shadowed), and a new name resolves to the
      new row. */
  lemma LookupAfterInsertBudget(db: Db, name: string, amount: real, fail: bool, query: string)
    requires InsertBudget(db, name, amount, fail).ok
    ensures var db2 := InsertBudget(db, name, amount, fail).db;
      GetBudgetIdByName(db2, query) ==
        if HasName(db.budgets, query) then GetBudgetIdByName(db, query)
        else if query == name then Some(db2.budgets[|db.budgets|].id)
        else None
  {
    var db2 := InsertBudget(db, name, amount, fail).db;
    assert db2.budgets == db.budgets + [db2.budgets[|db.budgets|]];
    FirstNamedAppend(db.budgets, db2.budgets[|db.budgets|], query);
  }

  // ---------------------------------------------------------------------
  // Listing queries

  /** `get_all_budget_names`: one name per row, in storage order. */
  function GetAllBudgetNames(db: Db): (names: seq<string>)
    requires db.hasBudgets
    ensures |names| == |db.budgets|
    ensures forall i :: 0 <= i < |names| ==> names[i] == db.budgets[i].name
  {
    seq(|db.budgets|, i requires 0 <= i < |db.budgets| => db.budgets[i].name)
  }

  /** A name is listed exactly when looking it up finds a row. */
  lemma ListedIffFound(db: Db, name: string)
    requires db.hasBudgets
    ensures name in GetAllBudgetNames(db) <==> GetBudgetIdByName(db, name).Some?
  {
    var names := GetAllBudgetNames(db);
    if name in names {
      var i :| 0 <= i < |names| && names[i] == name;
      assert db.budgets[i].name == name;
    }
  }

  /** A successful budget insert adds its name at the end of the listing. */
  lemma NamesAfterInsertBudget(db: Db, name: string, amount: real, fail: bool)
    requires InsertBudget(db, name, amount, fail).ok
    ensures GetAllBudgetNames(InsertBudget(db, name, amount, fail).db) == GetAllBudgetNames(db) + [name]
  {
  }

  function View(t: Transaction): TransactionView {
    TransactionView(t.amount, t.date, t.description)
  }

  /** Reference definition of the `WHERE budget_id=?` scan: the views of the
      rows with that budget id, in storage order. */
  function Filter(ts: seq<Transaction>, budgetId: int): seq<TransactionView> {
    if ts == [] then []
    else (if ts[0].budgetId == budgetId then [View(ts[0])] else []) + Filter(ts[1..], budgetId)
  }

  /** The filter distributes over concatenation: it keeps storage order. */
  lemma {:induction false} FilterAppend(a: seq<Transaction>, b: seq<Transaction>, budgetId: int)
    ensures Filter(a + b, budgetId) == Filter(a, budgetId) + Filter(b, budgetId)
  {
    if a == [] {
      assert a + b == b;
    } else {
      assert (a + b)[1..] == a[1..] + b;
      FilterAppend(a[1..], b, budgetId);
    }
  }

  /** A view is returned exactly when some row with that budget id has it. */
  lemma {:induction false} FilterMembership(ts: seq<Transaction>, budgetId: int, v: TransactionView)
    ensures v in Filter(ts, budgetId) <==> exists i :: 0 <= i < |ts| && ts[i].budgetId == budgetId && View(ts[i]) == v
  {
    if ts != [] {
      FilterMembership(ts[1..], budgetId, v);
      if exists i :: 0 <= i < |ts| && ts[i].budgetId == budgetId && View(ts[i]) == v {
        var i :| 0 <= i < |ts| && ts[i].budgetId == budgetId && View(ts[i]) == v;
        if i > 0 {
          assert ts[1..][i - 1] == ts[i];
        }
      }
      if v in Filter(ts[1..], budgetId) {
        var i :| 0 <= i < |ts| - 1 && ts[1..][i].budgetId == budgetId && View(ts[1..][i]) == v;
        assert ts[i + 1] == ts[1..][i];
      }
    }
  }

  /** `select_transactions_by_budget_id`: scans the table in storage order and
      collects `(amount, date, description)` of the matching rows. */
  method SelectTransactionsByBudgetId(db: Db, budgetId: int) returns (rows: seq<TransactionView>)
    requires db.hasTransactions
    ensures rows == Filter(db.transactions, budgetId)
  {
    var ts := db.transactions;
    rows := [];
    var i := 0;
    while i < |ts|
      invariant 0 <= i <= |ts|
      invariant rows == Filter(ts[..i], budgetId)
    {
      assert ts[..i + 1] == ts[..i] + [ts[i]];
      FilterAppend(ts[..i], [ts[i]], budgetId);
      if ts[i].budgetId == budgetId {
        rows := rows + [View(ts[i])];
      }
      i := i + 1;
    }
    assert ts[..i] == ts;
  }

  /** A successful transaction insert adds its view at the end of its own
      budget's listing and leaves every other budget's listing unchanged. */
  lemma SelectAfterInsertTransaction(db: Db, budgetId: int, amount: Value, date: string, description: string, fail: bool, query: int)
    requires InsertTransaction(db, budgetId, amount, date, description, fail).ok
    ensures var db2 := InsertTransaction(db, budgetId, amount, date, description, fail).db;
      Filter(db2.transactions, query) ==
        if query == budgetId then Filter(db.transactions, query) + [TransactionView(amount, date, description)]
        else Filter(db.transactions, query)
  {
    var db2 := InsertTransaction(db, budgetId, amount, date, description, fail).db;
    var t := db2.transactions[|db.transactions|];
    assert db2.transactions == db.transactions + [t];
    FilterAppend(db.transactions, [t], query);
    assert [t][1..] == [];
  }
}
