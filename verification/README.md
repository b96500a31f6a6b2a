# budget_manager — a Dafny model of the storage and logic core

budget_manager keeps budget categories and the transactions booked against
them in a SQLite database with two tables. This project models:

- the storage layer (`src/budget_manager/database.py`). This is the schema, the
  two inserts, the lookups by exact name and the two listing queries.
- the three operations of the logic layer (`src/budget_manager/logic.py`):
  - `create_budget_category`;
  - `add_single_transaction`;
  - `add_transactions_from_file`, the row-by-row bulk import from a CSV file
    that stops at the first failing row.

It then proves what these promise: the exact validation order and error
replies, that errors change nothing, how rows get their ids, first-match
lookups, storage order, how imports abort, and a consistency invariant that
the logic layer keeps and the storage layer alone does not.

Layout, one module per file:

| file | module | contents |
|---|---|---|
| `wrappers.dfy` | `Wrappers` | `Option` |
| `strings.dfy` | `Strings` | Python `str.isspace`, `strip`, `startswith`, `", ".join` |
| `values.dfy` | `Values` | amounts as number-or-text; the text Python `float()` accepts |
| `database.dfy` | `Database` | the two tables as an immutable value, and every function of `database.py` |
| `messages.dfy` | `Messages` | the reply strings, as a datatype rendered to the exact text |
| `logic.dfy` | `Logic` | the three operations, the import loop, and the invariant |
| `scenarios.dfy` | `Scenarios` | the repository's unit tests, stated about the model |

Modelling choices:

- **Tables.** A table is a sequence of rows in rowid order. That is the order an
  unindexed `SELECT` returns them in and the order `fetchone()` picks from.
- **Missing tables.** `CREATE TABLE IF NOT EXISTS` is modelled by two flags. An
  insert into a missing table fails: SQLite raises `OperationalError`, which
  `insert_*` catch and turn into `False`. A query on a missing table raises an
  exception nobody catches, so the query functions require the table. The logic
  functions require it only when their control flow actually reaches the lookup.
- **Storage errors.** Any other `sqlite3.Error` is an oracle argument: `fail` for
  one call, and `fails[k]` for row `k` of an import.
- **Row ids.** A new row gets SQLite's rowid: one more than the largest id in
  the table, or 1 in an empty table.
- **Amounts.** `Value` is `Num(real) | Str(string)`. It is stored exactly as
  handed in, and it is checked with Python's `float()` grammar (`Values.IsFloatText`):
  surrounding whitespace is allowed, except the separators U+001C..U+001F, which
  `float()` does not strip although `str.strip()` does.
- **Replies.** Replies are `Messages.Message` values. `Messages.Render` gives
  the exact strings. The import loop tests `Render(m)` for the prefix `"Error"`,
  as the code does.

## Model

| member | source | states |
|---|---|---|
| Database.CreateTables | src/budget_manager/database.py:19-38 | both tables exist afterwards and the rows already present are kept (`IF NOT EXISTS`) |
| Database.CreateTablesIdempotent | src/budget_manager/database.py:21-37 | creating the tables twice equals creating them once, and validity (ids ascending in each table, no rows in a missing table) is kept |
| Database.NextRowId | src/budget_manager/database.py:23 | the id an `INTEGER PRIMARY KEY` insert receives is larger than every existing id, is 1 in an empty table, and otherwise is one more than an existing id |
| Database.InsertBudget | src/budget_manager/database.py:61-70 | returns True exactly when the table exists and storage does not fail; on True exactly one row `(next rowid, name, amount)` is appended at the end and nothing else changes; on False the database is unchanged |
| Database.InsertTransaction | src/budget_manager/database.py:73-84 | the same for transactions; any budget id is accepted, because the foreign key is not enforced |
| Database.InsertsKeepValid | src/budget_manager/database.py:61-84 | both inserts keep ids unique and ascending within each table, so storage order stays rowid order |
| Database.FirstNamed | src/budget_manager/database.py:43-48 | the index of the first row, in storage order, whose name equals the query exactly, or None when no row has that name |
| Database.FirstNamedUnique | src/budget_manager/database.py:45 | the first match is a single row |
| Database.GetBudgetIdByName | src/budget_manager/database.py:41-48 | None exactly when no budget has that name; otherwise the id of the first row with that name |
| Database.GetBudgetAmountByName | src/budget_manager/database.py:51-58 | None exactly when no budget has that name; otherwise the amount of the first row with that name |
| Database.LookupsReadSameRow | src/budget_manager/database.py:41-58 | the id lookup and the amount lookup both find a row or both find none, and when they find one it is the same row |
| Database.FirstNamedAppend | src/budget_manager/database.py:45 | appending a row leaves an existing first match in place; otherwise the new row is the match exactly when it has the name |
| Database.LookupAfterInsertBudget | src/budget_manager/database.py:41-70 | after a budget insert, a name already present still resolves to its old row (a duplicate is shadowed), the new name resolves to the new row, and any other name resolves to nothing |
| Database.GetAllBudgetNames | src/budget_manager/database.py:87-92 | one name per budget row, in storage order |
| Database.ListedIffFound | src/budget_manager/database.py:41-92 | a name is in the listing exactly when the id lookup finds it |
| Database.NamesAfterInsertBudget | src/budget_manager/database.py:61-92 | a successful budget insert adds its name to the end of the listing |
| Database.FilterAppend | src/budget_manager/database.py:97-100 | the `WHERE budget_id=?` selection distributes over concatenation, so it keeps storage order |
| Database.FilterMembership | src/budget_manager/database.py:97-100 | a row view is selected exactly when some transaction with that budget id has it |
| Database.SelectTransactionsByBudgetId | src/budget_manager/database.py:95-100 | the loop returns `(amount, date, description)` of exactly the rows with the given budget id, in storage order |
| Database.SelectAfterInsertTransaction | src/budget_manager/database.py:73-100 | a transaction insert adds its view to the end of its own budget's selection and leaves every other budget's selection unchanged |
| Strings.BlankIffStripsToEmpty | src/budget_manager/logic.py:12 | `name.strip()` is empty exactly when every character is Python whitespace |
| Values.DigitsParse | src/budget_manager/logic.py:42-45 | a numeral made only of digits passes the `float()` check |
| Values.DecimalParses | src/budget_manager/logic.py:42-45 | digits, a point and digits (such as `50.0`) pass the `float()` check |
| Values.WordIsNotAFloat | src/budget_manager/logic.py:42-45 | a word with no digits and no leading sign that is not `inf`, `infinity` or `nan` in any letter case fails the `float()` check |
| Values.FloatTextShape | src/budget_manager/logic.py:42-45 | text that `float(amount)` accepts (`Values.IsFloatText`) is not blank and holds none of the separators U+001C..U+001F anywhere |
| Values.HasSeparatorIff | src/budget_manager/logic.py:42-45 | the recursive separator test used by the `float()` check holds exactly when some character of the text is U+001C..U+001F |
| Values.SeparatorIsNotStripped | src/budget_manager/logic.py:42-45 | `"\x1c1"` is rejected as an amount although `"1"` is a valid numeral, because `float()` keeps the separator |
| Values.FiftyIsNotANumber | tests/test_logic.py:48-52 | `"fifty"` is rejected as an amount |
| Messages.Render | src/budget_manager/logic.py:13-105 | a reply starts with "Error" exactly when it is an error reply; both single-insert confirmations end in " added successfully." |
| Logic.CreateBudgetCategory | src/budget_manager/logic.py:10-33 | the blank-name check comes first, then the amount check (amount > 0), then the insert; every error leaves the database unchanged; it succeeds exactly when the name is non-blank, the amount is positive, the table exists and storage does not fail; on success the reply is the confirmation for `(name, amount)` and that single row is appended |
| Logic.AddSingleTransaction | src/budget_manager/logic.py:36-78 | the checks run in order (blank name, amount not accepted by `float()`, blank date, blank description), then an unknown name gives the "does not exist" error naming it, then a failed insert gives the "Failed to add transaction" error; errors change nothing; it succeeds exactly when all checks pass, the name exists, the table exists and storage does not fail; on success one row is appended with the first matching budget's id and the amount, date and description verbatim |
| Logic.ImportRows | src/budget_manager/logic.py:93-105 | the result is the completion reply or a file-row failure wrapping an error; budgets never change; rows inserted earlier stay; a completed import appends one row per input and an aborted one appends fewer |
| Logic.ImportStep | src/budget_manager/logic.py:99-103 | the first row's reply decides: an error stops the import with that reply wrapped, and a success continues with the remaining rows |
| Logic.ImportStoresEveryRow | src/budget_manager/logic.py:93-105 | a completed import stores row k of the file as the k-th new transaction, with its amount, date, description and the id of the first budget with its name |
| Logic.ImportAbortsAtFirstFailure | src/budget_manager/logic.py:99-103 | an aborted import stopped at some row k: rows 0..k-1 were imported successfully and produced exactly the final database, and row k's own error reply is the reply that is wrapped |
| Logic.AddTransactionsFromFile | src/budget_manager/logic.py:81-105 | a file missing a required column is rejected with the column list and nothing changes; otherwise the reply and the database are those of the row-by-row import loop over the file's rows; budgets are untouched, earlier transactions stay, and a confirmed import stored every row in file order |
| Logic.FileImportAbortsAtFirstFailure | src/budget_manager/logic.py:88-103 | a file import that reports a row failure had all required columns and stopped at some row k: rows 0..k-1 were imported and produced exactly the final database, and the reply wraps row k's own error reply |
| Logic.CreateBudgetCategoryKeepsConsistent | src/budget_manager/logic.py:10-33 | creating a category keeps the database valid and consistent: names non-blank, amounts positive, every transaction pointing at an existing budget |
| Logic.AddSingleTransactionKeepsConsistent | src/budget_manager/logic.py:36-78 | adding a transaction keeps the database valid and consistent: every transaction refers to an existing budget and has a float amount, a date and a description |
| Logic.ImportKeepsConsistent | src/budget_manager/logic.py:93-105 | an import keeps validity and consistency whether it completes or aborts |
| Logic.InsertTransactionAllowsOrphans | src/budget_manager/database.py:28-84 | without the logic layer's lookup, the storage layer alone accepts a transaction for a budget id that does not exist |
| Scenarios.ValidCategoryConfirmed | tests/test_logic.py:10-13 | creating "Entertainment" with 200.0 on the fixture database is confirmed |
| Scenarios.BlankCategoryNamesRejected | tests/test_logic.py:15-21 | empty and all-space category names get the empty-name error |
| Scenarios.NonPositiveAmountsRejected | tests/test_logic.py:23-29 | amounts 0.0 and -500.0 get the amount error |
| Scenarios.ValidTransactionConfirmed | tests/test_logic.py:32-40 | a valid transaction for "Groceries" is confirmed and stored as row 1 under the category's id |
| Scenarios.BlankTransactionBudgetRejected | tests/test_logic.py:42-46 | a blank category name is rejected first |
| Scenarios.TextAmountRejected | tests/test_logic.py:48-52 | the amount "fifty" gets the invalid-amount error |
| Scenarios.BlankDateAndDescriptionRejected | tests/test_logic.py:54-64 | a blank date and a blank description get their errors |
| Scenarios.UnknownCategoryRejected | tests/test_logic.py:66-70 | an unknown category gets the "does not exist" error naming it |
| Scenarios.TwoRowsImported | tests/test_logic.py:73-108 | two valid rows for existing categories are both stored, in file order, and the import is confirmed |
| Scenarios.TestFileRowsAdmissible | tests/test_logic.py:79-87 | both rows of the test file pass the field checks |
| Scenarios.ImportTestFileConfirmed | tests/test_logic.py:73-108 | with "Groceries" and "Entertainment" created, importing the test file is confirmed and stores exactly its two rows, in file order, with their amounts, dates and descriptions |
| Scenarios.TestFileImportConfirmed | tests/test_logic.py:73-93 | the test file, read as its four columns and two rows, passes the column check, and `add_transactions_from_file` on it is confirmed whatever order the column names would be listed in |

## Left out

- `main.py` and `io.py`: the command line and the one-line CSV reader over polars. A file is modelled as already read (`Logic.Frame`): a column set and rows in file order.
- The `df is None` branch of `add_transactions_from_file` (logic.py:83-84) is unreachable: `read_csv_to_dataframe` raises instead of returning None. So its "Failed to read" reply is not modelled. Read errors propagate as exceptions, which are outside the model.
- `generate_report` (logic.py:108-110) is a placeholder that returns a constant string.
- `main.py` imports `create_budget_categories_from_file`, which logic.py does not define. There is no category import to model.
- `get_connection` and `initialise_database` are not modelled: the database path, opening, committing and closing connections. The model's database is one value passed in and returned. The leaked connection on the unknown-budget path of `add_single_transaction` (it returns before closing) is not visible in the model.
- The `print` of a storage error in `insert_budget` and `insert_transaction` is console output only.
- SQLite type affinity is not modelled: a REAL column converts text that looks like a number. Amounts are stored exactly as handed in.
- Floating point is modelled by `real`. `Messages.ShowReal` prints positional decimals (up to 17 fractional digits). Python's repr switches to exponent notation for very large or small values and prints the shortest round-trip digits. An integer amount would print without ".0".
- `Values.IsFloatText` accepts ASCII digits only, while Python's `float()` also accepts other Unicode decimal digits.
- Logic.AddTransactionsFromFile: the order of the column names in the missing-columns reply follows Python's set iteration order, which varies between runs. So it is a parameter (any ordering of the four names), not a fixed list.
- Logic.AddTransactionsFromFile: polars column typing is summarised by `Logic.Readable`. Amount cells are numbers or text. polars reads a column of number-like cells as numbers; a name, date or description column like that makes `strip()` raise AttributeError, and `Readable` excludes such files, so in the model those cells are text. A null cell is not modelled. On a null name, date or description, `strip()` raises AttributeError. On a null amount, `float(None)` raises TypeError, which `except ValueError` does not catch. polars reads an empty text cell as null, so an empty date or description cell in a file raises rather than giving the "cannot be empty" reply.
- Queries on a missing table raise `OperationalError`, which nobody catches. The query functions therefore require the table instead of modelling the exception.
- Row ids beyond SQLite's 64-bit limit (where it picks a random unused id) are not modelled.
