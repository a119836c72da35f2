/**
  The accounts of the ledger: a base account (number, holder name, balance)
  and its three variants, Savings, Checking and FixedDeposit.

  The variants form a closed set, so they are the constructors of `Kind`.
  Everything a variant adds to the base account lives in its `Kind` value,
  including the fixed deposit's "interest already added" flag, which a
  balance query flips.
 */
module Accounts {

  /** Size of the holder-name buffer, terminator included. */
  const NameBufferSize: nat := 50
  /** Longest holder name the account keeps; the last cell holds the terminator. */
  const MaxNameLength: nat := 49
  /** Yearly interest rate of a fixed deposit, in percent. */
  const InterestRate: real := 7.0
  /** The character that ends a C string. */
  const Nul: char := '\0'

  datatype Kind =
    | Savings
    | Checking(overdraftLimit: real)
    | FixedDeposit(term: int, interestAdded: bool)

  /** The part of an account that its operations change. */
  datatype Ledger = Ledger(balance: real, kind: Kind)

  // ---------------------------------------------------------------------------
  // Holder names
  // ---------------------------------------------------------------------------

  /** The characters of `s` before its first NUL, at most `cap` of them. */
  function Prefix(s: seq<char>, cap: nat): (r: seq<char>)
    ensures |r| <= cap && |r| <= |s|
    ensures r == s[..|r|]
    ensures Nul !in r
    ensures |r| < cap && |r| < |s| ==> s[|r|] == Nul
  {
    if cap == 0 || |s| == 0 || s[0] == Nul then [] else [s[0]] + Prefix(s[1..], cap - 1)
  }

  /** Any NUL-free prefix of `s` that stops at the cap, the end of `s` or a NUL is `Prefix(s, cap)`. */
  lemma {:induction false} PrefixIsMaximal(s: seq<char>, cap: nat, k: nat)
    requires k <= cap && k <= |s|
    requires Nul !in s[..k]
    requires k == cap || k == |s| || s[k] == Nul
    ensures Prefix(s, cap) == s[..k]
  {
    if k > 0 {
      assert s[0] == s[..k][0];
      assert s[1..][..k - 1] == s[..k][1..];
      PrefixIsMaximal(s[1..], cap - 1, k - 1);
      assert s[..k] == [s[0]] + s[1..k];
    }
  }

  /**
    A C string the constructor can read: the copy loop looks at `name[i]`
    before it tests `i < 49`, so it reads up to the first NUL or up to
    index 49, whichever comes first.
   */
  predicate Readable(name: seq<char>)
  {
    Nul in name || |name| >= NameBufferSize
  }

  /** A name that ends within the first 49 characters is kept whole. */
  lemma ShortNameKept(t: seq<char>, rest: seq<char>)
    requires Nul !in t && |t| <= MaxNameLength
    ensures Readable(t + [Nul] + rest)
    ensures Prefix(t + [Nul] + rest, MaxNameLength) == t
  {
    var s := t + [Nul] + rest;
    assert s[|t|] == Nul;
    assert s[..|t|] == t;
    PrefixIsMaximal(s, MaxNameLength, |t|);
  }

  /** A name of 49 or more characters before its NUL is cut to its first 49. */
  lemma LongNameCut(name: seq<char>)
    requires |name| >= MaxNameLength && Nul !in name[..MaxNameLength]
    ensures Prefix(name, MaxNameLength) == name[..MaxNameLength]
  {
    PrefixIsMaximal(name, MaxNameLength, MaxNameLength);
  }

  /**
    Reading back a buffer written by `CopyName`: a NUL-free `t`
    followed by a NUL reads as `t`.
   */
  lemma NameReadsBack(buf: seq<char>, t: seq<char>)
    requires |t| < |buf| && buf[..|t|] == t && buf[|t|] == Nul && Nul !in t
    ensures Prefix(buf, |buf|) == t
  {
    PrefixIsMaximal(buf, |buf|, |t|);
  }

  /**
    The base constructor's copy loop: copies the name into a fresh buffer
    of 50 characters, up to the first NUL and at most 49 characters, and
    terminates it.
   */
  method CopyName(name: seq<char>) returns (buf: array<char>)
    requires Readable(name)
    ensures fresh(buf) && buf.Length == NameBufferSize
    ensures buf[..|Prefix(name, MaxNameLength)|] == Prefix(name, MaxNameLength)
    ensures buf[|Prefix(name, MaxNameLength)|] == Nul
  {
    buf := new char[NameBufferSize];
    var i := 0;
    while name[i] != Nul && i < MaxNameLength
      invariant i <= MaxNameLength && i < |name|
      invariant Nul !in name[..i]
      invariant buf[..i] == name[..i]
      decreases MaxNameLength - i
    {
      buf[i] := name[i];
      assert name[..i + 1] == name[..i] + [name[i]];
      i := i + 1;
    }
    PrefixIsMaximal(name, MaxNameLength, i);
    buf[i] := Nul;
  }

  // ---------------------------------------------------------------------------
  // Balance rules
  // ---------------------------------------------------------------------------

  /**
    Interest a fixed deposit of `term` months earns on `balance` at
    `InterestRate`: over one year it is 7% of the balance, and it is never
    negative for a nonnegative balance and term.
   */
  function Interest(balance: real, term: int): (r: real)
    ensures term == 12 ==> r == balance * 7.0 / 100.0
    ensures balance >= 0.0 && term >= 0 ==> r >= 0.0
  {
    var perYear := balance * (InterestRate / 100.0);
    var years := term as real / 12.0;
    assert balance >= 0.0 && term >= 0 ==> perYear >= 0.0 && years >= 0.0;
    perYear * years
  }

  /** The lowest balance a successful withdrawal may leave behind. */
  function Floor(kind: Kind): real
  {
    if kind.Checking? then -kind.overdraftLimit else 0.0
  }

  /** The account's balance is at or above its variant's floor. */
  predicate AboveFloor(s: Ledger)
  {
    s.balance >= Floor(s.kind)
  }

  /**
    The withdrawal rule of each variant, as banking.cpp:35 (base) and
    banking.cpp:80 (checking) test it: a withdrawal is allowed exactly when
    it is positive and leaves the balance at or above the variant's floor.
   */
  predicate MayWithdraw(kind: Kind, balance: real, amount: real)
    ensures MayWithdraw(kind, balance, amount) <==> amount > 0.0 && balance - amount >= Floor(kind)
  {
    match kind
    case Checking(limit) => amount > 0.0 && amount <= balance + limit
    case _ => amount > 0.0 && amount <= balance
  }

  /**
    State after a deposit: the variant is kept, a refused deposit (amount
    not positive) changes nothing, and an accepted one raises the balance
    by exactly the amount.
   */
  function Deposited(s: Ledger, amount: real): (r: Ledger)
    ensures r.kind == s.kind && r.balance >= s.balance
    ensures r == s <==> amount <= 0.0
    ensures r != s ==> r.balance == s.balance + amount
  {
    if amount > 0.0 then s.(balance := s.balance + amount) else s
  }

  /**
    State after a withdrawal under the variant's rule: the variant is kept,
    a refused withdrawal changes nothing, and an allowed one debits exactly
    the amount and lands at or above the floor.
   */
  function Withdrawn(s: Ledger, amount: real): (r: Ledger)
    ensures r.kind == s.kind
    ensures r == s <==> !MayWithdraw(s.kind, s.balance, amount)
    ensures r != s ==> amount > 0.0 && r.balance == s.balance - amount && AboveFloor(r)
  {
    if MayWithdraw(s.kind, s.balance, amount) then s.(balance := s.balance - amount) else s
  }

  /**
    State after a balance query: only a fixed deposit whose interest is
    pending changes, by exactly the interest on its balance at that moment,
    and after any query a fixed deposit's interest is marked added.
   */
  function Queried(s: Ledger): (r: Ledger)
    ensures r != s <==> s.kind.FixedDeposit? && !s.kind.interestAdded
    ensures r != s ==>
      r.balance == s.balance + Interest(s.balance, s.kind.term) && r.kind == s.kind.(interestAdded := true)
    ensures r.kind.FixedDeposit? ==> r.kind.interestAdded
  {
    match s.kind
    case FixedDeposit(term, false) =>
      Ledger(s.balance + Interest(s.balance, term), FixedDeposit(term, true))
    case _ => s
  }

  /** Deposits and withdrawals keep an account at or above its floor. */
  lemma MovesKeepFloor(s: Ledger, amount: real)
    requires AboveFloor(s)
    ensures AboveFloor(Deposited(s, amount)) && AboveFloor(Withdrawn(s, amount))
  {
  }

  /** Withdrawing what was just deposited restores the account, as long as it was at or above its floor. */
  lemma DepositThenWithdraw(s: Ledger, amount: real)
    requires AboveFloor(s) && amount > 0.0
    ensures Withdrawn(Deposited(s, amount), amount) == s
  {
  }

  /** A second balance query changes nothing: interest is added at most once. */
  lemma QueryAtMostOnce(s: Ledger)
    ensures Queried(Queried(s)) == Queried(s)
    ensures Queried(s).kind.FixedDeposit? ==> Queried(s).kind.interestAdded
  {
  }

  /** Interest on a nonnegative balance over a nonnegative term keeps a fixed deposit at or above its floor. */
  lemma QueryKeepsFloor(s: Ledger)
    requires AboveFloor(s)
    requires s.kind.FixedDeposit? ==> s.kind.term >= 0
    ensures AboveFloor(Queried(s))
  {
  }

  /** The term is not checked: a negative one yields negative interest that can take a fixed deposit below zero. */
  lemma NegativeTermBreaksFloor()
    ensures AboveFloor(Ledger(100.0, FixedDeposit(-200, false)))
    ensures !AboveFloor(Queried(Ledger(100.0, FixedDeposit(-200, false))))
  {
  }

  // ---------------------------------------------------------------------------
  // What the display shows
  // ---------------------------------------------------------------------------

  datatype Details =
    | SavingsDetails
    | CheckingDetails(overdraftLimit: real)
    | FixedDepositDetails(term: int, interestRate: real, interestEarned: real)

  /** The content of an account's display: number, holder, balance and the variant's lines. */
  datatype Summary = Summary(accountNumber: int, holderName: seq<char>, balance: real, details: Details)

  // ---------------------------------------------------------------------------
  // The account object
  // ---------------------------------------------------------------------------

  class Account {
    const accountNumber: int
    const holderName: array<char>
    var balance: real
    var kind: Kind

    /** The account's changing state as a value. */
    function State(): Ledger
      reads this
    {
      Ledger(balance, kind)
    }

    /** The stored holder name, read as a C string. */
    function Name(): seq<char>
      reads this, holderName
    {
      Prefix(holderName[..], holderName.Length)
    }

    constructor SavingsAccount(accNum: int, name: seq<char>, bal: real)
      requires Readable(name)
      ensures accountNumber == accNum && State() == Ledger(bal, Savings)
      ensures fresh(holderName) && holderName.Length == NameBufferSize
      ensures Name() == Prefix(name, MaxNameLength) && holderName[|Name()|] == Nul
    {
      var buf := CopyName(name);
      NameReadsBack(buf[..], Prefix(name, MaxNameLength));
      accountNumber, holderName := accNum, buf;
      balance, kind := bal, Savings;
    }

    constructor CheckingAccount(accNum: int, name: seq<char>, bal: real, limit: real)
      requires Readable(name)
      ensures accountNumber == accNum && State() == Ledger(bal, Checking(limit))
      ensures fresh(holderName) && holderName.Length == NameBufferSize
      ensures Name() == Prefix(name, MaxNameLength) && holderName[|Name()|] == Nul
    {
      var buf := CopyName(name);
      NameReadsBack(buf[..], Prefix(name, MaxNameLength));
      accountNumber, holderName := accNum, buf;
      balance, kind := bal, Checking(limit);
    }

    constructor FixedDepositAccount(accNum: int, name: seq<char>, bal: real, term: int)
      requires Readable(name)
      ensures accountNumber == accNum && State() == Ledger(bal, FixedDeposit(term, false))
      ensures fresh(holderName) && holderName.Length == NameBufferSize
      ensures Name() == Prefix(name, MaxNameLength) && holderName[|Name()|] == Nul
    {
      var buf := CopyName(name);
      NameReadsBack(buf[..], Prefix(name, MaxNameLength));
      accountNumber, holderName := accNum, buf;
      balance, kind := bal, FixedDeposit(term, false);
    }

    /** Adds a positive amount; any other amount is refused and changes nothing. */
    method Deposit(amount: real) returns (ok: bool)
      modifies this
      ensures ok <==> amount > 0.0
      ensures State() == Deposited(old(State()), amount)
      ensures ok ==> balance == old(balance) + amount
    {
      ok := amount > 0.0;
      if ok {
        balance := balance + amount;
      }
    }

    /** The base withdrawal, used by savings and fixed deposits: the balance must cover the amount. */
    method BaseWithdraw(amount: real) returns (ok: bool)
      requires !kind.Checking?
      modifies this
      ensures ok <==> 0.0 < amount <= old(balance)
      ensures State() == Withdrawn(old(State()), amount)
      ensures ok ==> balance >= 0.0
    {
      ok := amount > 0.0 && amount <= balance;
      if ok {
        balance := balance - amount;
      }
    }

    /** The checking withdrawal: the balance may go down to minus the overdraft limit. */
    method CheckingWithdraw(amount: real) returns (ok: bool)
      requires kind.Checking?
      modifies this
      ensures kind == old(kind)
      ensures ok <==> 0.0 < amount <= old(balance) + kind.overdraftLimit
      ensures State() == Withdrawn(old(State()), amount)
      ensures ok ==> balance >= -kind.overdraftLimit
    {
      ok := amount > 0.0 && amount <= balance + kind.overdraftLimit;
      if ok {
        balance := balance - amount;
      }
    }

    /** Withdrawal dispatched on the variant. */
    method Withdraw(amount: real) returns (ok: bool)
      modifies this
      ensures ok <==> MayWithdraw(old(kind), old(balance), amount)
      ensures State() == Withdrawn(old(State()), amount)
      ensures ok ==> balance >= Floor(kind)
    {
      if kind.Checking? {
        ok := CheckingWithdraw(amount);
      } else {
        ok := BaseWithdraw(amount);
      }
    }

    /**
      The balance query. Savings and checking accounts return the balance;
      a fixed deposit first adds its interest if it has not done so yet.
     */
    method GetBalance() returns (b: real)
      modifies this
      ensures State() == Queried(old(State()))
      ensures b == balance
    {
      if kind.FixedDeposit? && !kind.interestAdded {
        balance := balance + Interest(balance, kind.term);
        kind := kind.(interestAdded := true);
      }
      b := balance;
    }

    /**
      What the display shows. The fixed deposit's "interest earned" is
      recomputed on the current balance and is not applied: before the
      first query it is exactly what that query will add.
     */
    function DisplayInfo(): (r: Summary)
      reads this, holderName
      ensures r.accountNumber == accountNumber && r.holderName == Name() && r.balance == balance
      ensures r.details.SavingsDetails? <==> kind.Savings?
      ensures r.details.CheckingDetails? <==> kind.Checking?
      ensures kind.Checking? ==> r.details.overdraftLimit == kind.overdraftLimit
      ensures kind.FixedDeposit? ==>
        r.details == FixedDepositDetails(kind.term, InterestRate, Interest(balance, kind.term))
      ensures kind.FixedDeposit? && !kind.interestAdded ==>
        Queried(State()).balance == r.balance + r.details.interestEarned
    {
      var details := match kind
        case Savings => SavingsDetails
        case Checking(limit) => CheckingDetails(limit)
        case FixedDeposit(term, _) => FixedDepositDetails(term, InterestRate, Interest(balance, term));
      Summary(accountNumber, Name(), balance, details)
    }
  }
}
