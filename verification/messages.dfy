/** The text replies of the logic layer, kept as a datatype and rendered to
    the exact strings the program returns. */
module Messages {
  import opened Strings
  import opened Values

  datatype Message =
    | BudgetAdded(name: string, amount: real)
    | EmptyBudgetName
    | NonPositiveBudgetAmount
    | BudgetInsertFailed
    | TransactionAdded(budgetName: string, date: string, value: Value)
    | InvalidAmount
    | EmptyDate
    | EmptyDescription
    | UnknownBudget(unknown: string)
    | TransactionInsertFailed
    | MissingColumns(listed: seq<string>)
    | FileRowFailed(cause: Message)
    | AllTransactionsAdded
  {
    /** Every reply but the three confirmations is an error. */
    predicate IsError() {
      !(BudgetAdded? || TransactionAdded? || AllTransactionsAdded?)
    }
  }

  function DigitChar(d: nat): char
    requires d < 10
  {
    "0123456789"[d]
  }

  function ShowNat(n: nat): string {
    if n < 10 then [DigitChar(n)] else ShowNat(n / 10) + [DigitChar(n % 10)]
  }

  /** Up to `places` decimal digits of a fraction in [0, 1), stopping once the
      remaining fraction is zero. */
  function FractionDigits(f: real, places: nat): string
    requires 0.0 <= f < 1.0
    decreases places
  {
    if f == 0.0 || places == 0 then ""
    else
      var d := (f * 10.0).Floor;
      [DigitChar(d)] + FractionDigits(f * 10.0 - d as real, places - 1)
  }

  /** A float as an f-string shows it, in positional notation: `200.0`,
      `50.5`, `-3.25`. */
  function ShowReal(x: real): string {
    var a := if x < 0.0 then -x else x;
    var whole := a.Floor;
    var frac := a - whole as real;
    (if x < 0.0 then "-" else "")
      + ShowNat(whole) + "." + (if frac == 0.0 then "0" else FractionDigits(frac, 17))
  }

  /** An amount as an f-string shows it: text verbatim, numbers as floats. */
  function ShowValue(v: Value): string {
    match v
    case Num(x) => ShowReal(x)
    case Str(s) => s
  }

  /** A reply that starts with "Error". */
  function Error(rest: string): (r: string)
    ensures StartsWith(r, "Error")
  {
    "Error" + rest
  }

  /** A reply that reports success: `head` followed by " added successfully.". */
  function Confirmation(head: string): (r: string)
    requires head != [] && head[0] != 'E'
    ensures !StartsWith(r, "Error")
    ensures EndsWith(r, " added successfully.")
  {
    var r := head + " added successfully.";
    assert r[0] == head[0];
    r
  }

  /** The returned string. The bulk import tells failure from success by the
      prefix "Error", and that prefix marks exactly the error replies;
      both confirmations of a single insert end in "added successfully.". */
  function Render(m: Message): (r: string)
    ensures StartsWith(r, "Error") <==> m.IsError()
    ensures m.BudgetAdded? || m.TransactionAdded? ==> EndsWith(r, " added successfully.")
    decreases m, 1
  {
    if m.IsError() then Error(ErrorDetail(m)) else Confirmation(ConfirmationHead(m))
  }

  /** What follows "Error" in an error reply. */
  function ErrorDetail(m: Message): string
    requires m.IsError()
    decreases m, 0
  {
    match m
    case EmptyBudgetName => ": Budget name cannot be empty."
    case NonPositiveBudgetAmount => ": Budget amount must be greater than zero."
    case BudgetInsertFailed => ": Failed to add budget."
    case InvalidAmount => ": Amount must be a valid number."
    case EmptyDate => ": Date cannot be empty."
    case EmptyDescription => ": Description cannot be empty."
    case UnknownBudget(name) => ": Budget category '" + name + "' does not exist."
    case TransactionInsertFailed => ": Failed to add transaction."
    case MissingColumns(listed) => ": CSV file must contain the following columns: " + Join(", ", listed) + "."
    case FileRowFailed(cause) => " adding transaction from file: " + Render(cause)
  }

  /** What precedes " added successfully." in a confirmation. */
  function ConfirmationHead(m: Message): (head: string)
    requires !m.IsError()
    ensures head != [] && head[0] != 'E'
  {
    match m
    case BudgetAdded(name, amount) =>
      var head := "Budget '" + name + "' with amount " + ShowReal(amount);
      assert head[0] == 'B';
      head
    case TransactionAdded(budgetName, date, value) =>
      var head := "Transaction for budget '" + budgetName + "' on date " + date + " with amount " + ShowValue(value);
      assert head[0] == 'T';
      head
    case AllTransactionsAdded =>
      var head := "All transactions from the file";
      assert head[0] == 'A';
      head
  }
}
