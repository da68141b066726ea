/**
 * The finance tool: an account whose balance each transaction debits, a
 * savings account that refuses a transaction larger than its balance, and
 * the fixed run of three transactions in the tool's entry point.
 *
 * Amounts are decimal in the tool; here they are whole cents, which is
 * exact for every amount the tool uses.
 */
module Finance {

  /** Dates are opaque here: a day number supplied by the caller. */
  type Date = int

  /** `amount` in cents. */
  datatype Transaction = Transaction(id: int, date: Date, amount: int, category: string)

  /** The base account, or the sealed savings account that overrides ApplyTransaction. */
  datatype AccountKind = Plain | Savings

  /** The balance after one transaction, for either kind of account. */
  function Applied(kind: AccountKind, balance: int, amount: int): (b: int)
    ensures kind == Plain ==> b == balance - amount
    ensures kind == Savings && amount > balance ==> b == balance
    ensures kind == Savings && amount <= balance ==> b == balance - amount
    ensures kind == Savings && balance >= 0 ==> b >= 0
  {
    if kind == Savings && amount > balance then balance else balance - amount
  }

  /** The balance after applying `ts` in order. */
  function Settle(kind: AccountKind, balance: int, ts: seq<Transaction>): int
    decreases |ts|
  {
    if ts == [] then balance
    else Applied(kind, Settle(kind, balance, ts[..|ts| - 1]), ts[|ts| - 1].amount)
  }

  /** A savings account that starts non-negative never goes negative, whatever the transactions. */
  lemma {:induction false} SavingsNeverNegative(balance: int, ts: seq<Transaction>)
    requires balance >= 0
    ensures Settle(Savings, balance, ts) >= 0
    decreases |ts|
  {
    if ts != [] {
      SavingsNeverNegative(balance, ts[..|ts| - 1]);
    }
  }

  /** A plain account deducts every amount: the final balance is the start minus the sum. */
  function Total(ts: seq<Transaction>): int
    decreases |ts|
  {
    if ts == [] then 0 else Total(ts[..|ts| - 1]) + ts[|ts| - 1].amount
  }

  lemma {:induction false} PlainDeductsAll(balance: int, ts: seq<Transaction>)
    ensures Settle(Plain, balance, ts) == balance - Total(ts)
    decreases |ts|
  {
    if ts != [] {
      PlainDeductsAll(balance, ts[..|ts| - 1]);
    }
  }

  /**
   * When every transaction fits the balance at its turn, a savings account
   * ends where a plain account would.
   */
  lemma {:induction false} SavingsMatchesPlainWhenFunded(balance: int, ts: seq<Transaction>)
    requires forall i | 0 <= i < |ts| :: ts[i].amount <= Settle(Plain, balance, ts[..i])
    ensures Settle(Savings, balance, ts) == Settle(Plain, balance, ts)
    decreases |ts|
  {
    if ts != [] {
      var front := ts[..|ts| - 1];
      forall i | 0 <= i < |front|
        ensures front[i].amount <= Settle(Plain, balance, front[..i])
      {
        assert front[..i] == ts[..i];
      }
      SavingsMatchesPlainWhenFunded(balance, front);
      assert ts[..|ts| - 1] == front;
    }
  }

  class Account {
    const accountNumber: string
    const kind: AccountKind
    var balance: int

    constructor (kind: AccountKind, accountNumber: string, initialBalance: int)
      ensures this.kind == kind && this.accountNumber == accountNumber && balance == initialBalance
    {
      this.kind := kind;
      this.accountNumber := accountNumber;
      balance := initialBalance;
    }

    /**
     * Account.ApplyTransaction deducts unconditionally; the savings override
     * refuses (and reports) an amount above the balance. `applied` tells
     * which happened.
     */
    method ApplyTransaction(t: Transaction) returns (applied: bool)
      modifies this
      ensures applied <==> !(kind == Savings && t.amount > old(balance))
      ensures applied ==> balance == old(balance) - t.amount
      ensures !applied ==> balance == old(balance)
      ensures balance == Applied(kind, old(balance), t.amount)
    {
      if kind == Savings && t.amount > balance {
        applied := false;
        return;
      }
      balance := balance - t.amount;
      applied := true;
    }
  }

  /** The three transactions of the sample run: 150.00, 75.50 and 200.00. */
  function SampleTransactions(today: Date): seq<Transaction> {
    [Transaction(1, today, 15000, "Groceries"),
     Transaction(2, today, 7550, "Utilities"),
     Transaction(3, today, 20000, "Entertainment")]
  }

  /** Settling the sample: 1000.00 - 150.00 - 75.50 - 200.00, each step funded. */
  lemma SampleSettles(today: Date)
    ensures Settle(Savings, 100000, SampleTransactions(today)) == 57450
  {
    var ts := SampleTransactions(today);
    assert ts[..2][..1] == ts[..1];
    assert ts[..1][..0] == [];
    assert Settle(Savings, 100000, ts[..1]) == 85000;
    assert Settle(Savings, 100000, ts[..2]) == 77450;
  }

  /** The entry point's run: a savings account opened with 1000.00 ends at 574.50. */
  method RunSample(today: Date) returns (accountNumber: string, final: int)
    ensures accountNumber == "ACC-123456"
    ensures final == 57450
  {
    var account := new Account(Savings, "ACC-123456", 100000);
    var ts := SampleTransactions(today);
    for i := 0 to |ts|
      invariant account.balance == Settle(Savings, 100000, ts[..i])
    {
      var _ := account.ApplyTransaction(ts[i]);
      assert ts[..i + 1][..i] == ts[..i];
    }
    assert ts[..|ts|] == ts;
    SampleSettles(today);
    accountNumber, final := account.accountNumber, account.balance;
  }
}
