/**
  Worked sessions against the ledger, stated with the contracts of the
  account rules and the registry alone.
 */
module Scenarios {
  import opened Accounts
  import opened Registry

  /** Savings: 1000, withdraw 200 leaves 800; withdraw 900 is refused and leaves 800. */
  lemma SavingsSession()
    ensures Withdrawn(Ledger(1000.0, Savings), 200.0) == Ledger(800.0, Savings)
    ensures Withdrawn(Ledger(800.0, Savings), 900.0) == Ledger(800.0, Savings)
  {
  }

  /** Checking with overdraft 300: 500, withdraw 700 leaves -200; a further 150 is refused. */
  lemma CheckingSession()
    ensures Withdrawn(Ledger(500.0, Checking(300.0)), 700.0) == Ledger(-200.0, Checking(300.0))
    ensures Withdrawn(Ledger(-200.0, Checking(300.0)), 150.0) == Ledger(-200.0, Checking(300.0))
    ensures Withdrawn(Ledger(-200.0, Checking(300.0)), 100.0) == Ledger(-300.0, Checking(300.0))
  {
  }

  /** Fixed deposit of 10000 for 12 months: the first query gives 10700, and so does the second. */
  lemma FixedDepositSession()
    ensures Queried(Ledger(10000.0, FixedDeposit(12, false))) == Ledger(10700.0, FixedDeposit(12, true))
    ensures Queried(Ledger(10700.0, FixedDeposit(12, true))) == Ledger(10700.0, FixedDeposit(12, true))
  {
  }

  /** Two accounts created with the same number 7: a deposit to 7 reaches only the first. */
  method DuplicateNumberSession() returns (first: real, second: real)
    ensures first == 150.0 && second == 50.0
  {
    var bank := new BankingSystem();
    var s1 := bank.CreateAccount(1, 7, "Asha\0", 100.0, 0.0, 0);
    var s2 := bank.CreateAccount(1, 7, "Ravi\0", 50.0, 0.0, 0);
    assert s1 == Created && s2 == Created && bank.Slot(7) == Some(0);
    ghost var a, b := bank.Contents[0], bank.Contents[1];
    assert a.balance == 100.0 && b.balance == 50.0 && a != b;
    var deposited := bank.DepositToAccount(7, 50.0);
    assert a.balance == 150.0 && b.balance == 50.0;
    first, second := bank.accounts[0].balance, bank.accounts[1].balance;
  }

  /** An unknown number is not found and changes nothing; a negative deposit is refused. */
  method RefusedRequestsSession() returns (balance: real, unknown: Outcome, negative: Outcome)
    ensures unknown == NotFound && negative == Refused && balance == 100.0
  {
    var bank := new BankingSystem();
    var s := bank.CreateAccount(1, 1, "Asha\0", 100.0, 0.0, 0);
    assert s == Created && bank.Slot(1) == Some(0) && bank.Slot(999).None?;
    unknown := bank.DepositToAccount(999, 10.0);
    negative := bank.DepositToAccount(1, -50.0);
    balance := bank.accounts[0].balance;
  }
}
