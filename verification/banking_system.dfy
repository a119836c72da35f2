/**
  The registry of the ledger: a fixed array of 100 account slots filled in
  insertion order, a linear lookup by account number, and the operations
  that look an account up and hand the request to it.

  The console prompts of the source become parameters, and its messages
  become the results below.
 */
module Registry {
  import opened Accounts

  /** Number of account slots. */
  const Capacity: nat := 100

  datatype Option<T> = None | Some(value: T)

  /** How an account creation ended. */
  datatype CreateStatus = RegistryFull | InvalidType | Created

  /** How a deposit or withdrawal routed through the registry ended. */
  datatype Outcome = NotFound | Refused | Done

  /** The account numbers of `s`, in order. */
  function Numbers(s: seq<Account>): seq<int>
  {
    seq(|s|, i requires 0 <= i < |s| => s[i].accountNumber)
  }

  /** The position of the first occurrence of `n` in `ids`, if any. */
  function FirstIndex(ids: seq<int>, n: int): (r: Option<nat>)
    ensures r.Some? ==> r.value < |ids| && ids[r.value] == n
    ensures r.Some? ==> forall j :: 0 <= j < r.value ==> ids[j] != n
    ensures r.None? <==> n !in ids
  {
    if ids == [] then None
    else if ids[0] == n then Some(0)
    else match FirstIndex(ids[1..], n)
      case None => None
      case Some(k) => Some(k + 1)
  }

  /** A match preceded by no other match is the one found. */
  lemma {:induction false} FirstIndexAt(ids: seq<int>, n: int, i: nat)
    requires i < |ids| && ids[i] == n
    requires forall j :: 0 <= j < i ==> ids[j] != n
    ensures FirstIndex(ids, n) == Some(i)
  {
    if i > 0 {
      assert ids[0] != n;
      FirstIndexAt(ids[1..], n, i - 1);
    }
  }

  /** An account number present exactly once is found at its position. */
  lemma FirstIndexOfUnique(ids: seq<int>, n: int, i: nat)
    requires i < |ids| && ids[i] == n
    requires forall j :: 0 <= j < |ids| && j != i ==> ids[j] != n
    ensures FirstIndex(ids, n) == Some(i)
  {
    FirstIndexAt(ids, n, i);
  }

  /** Of two accounts with the same number, the later one is never found. */
  lemma LaterDuplicateShadowed(ids: seq<int>, i: nat, j: nat)
    requires i < j < |ids| && ids[i] == ids[j]
    ensures FirstIndex(ids, ids[j]) != Some(j)
  {
  }

  /**
    Appending an account number leaves every lookup that already succeeded
    as it was; only a number seen for the first time finds the new slot.
   */
  lemma {:induction false} FirstIndexAfterAppend(ids: seq<int>, m: int, n: int)
    ensures FirstIndex(ids + [m], n) ==
      if n in ids then FirstIndex(ids, n) else if m == n then Some(|ids|) else None
  {
    if ids == [] {
      assert ids + [m] == [m];
    } else {
      assert (ids + [m])[1..] == ids[1..] + [m];
      FirstIndexAfterAppend(ids[1..], m, n);
      assert n in ids <==> ids[0] == n || n in ids[1..];
    }
  }

  /**
    The account a creation request builds: savings for 1, checking for 2,
    a fixed deposit for 3, and none for any other choice.
   */
  method OpenAccount(choice: int, accNum: int, name: seq<char>, bal: real, limit: real, term: int)
    returns (a: Account?)
    requires Readable(name)
    ensures a == null <==> !(1 <= choice <= 3)
    ensures a != null ==>
      fresh(a) && fresh(a.holderName) &&
      a.accountNumber == accNum && a.balance == bal &&
      a.Name() == Prefix(name, MaxNameLength) &&
      a.kind == (if choice == 1 then Savings else if choice == 2 then Checking(limit) else FixedDeposit(term, false))
  {
    if choice == 1 {
      a := new Account.SavingsAccount(accNum, name, bal);
    } else if choice == 2 {
      a := new Account.CheckingAccount(accNum, name, bal, limit);
    } else if choice == 3 {
      a := new Account.FixedDepositAccount(accNum, name, bal, term);
    } else {
      a := null;
    }
  }

  class BankingSystem {
    const accounts: array<Account?>
    var accountCount: nat
    /** The accounts in the occupied slots, in insertion order. */
    ghost var Contents: seq<Account>

    ghost predicate Valid()
      reads this, accounts
    {
      accounts.Length == Capacity &&
      accountCount <= Capacity &&
      |Contents| == accountCount &&
      (forall i :: 0 <= i < accountCount ==> accounts[i] == Contents[i]) &&
      (forall i, j :: 0 <= i < j < |Contents| ==> Contents[i] != Contents[j])
    }

    /** The slot a lookup of `accNum` lands on. */
    ghost function Slot(accNum: int): (r: Option<nat>)
      reads this
      ensures r.Some? ==> r.value < |Contents|
    {
      FirstIndex(Numbers(Contents), accNum)
    }

    constructor ()
      ensures Valid() && fresh(accounts)
      ensures Contents == [] && accountCount == 0
    {
      accounts := new Account?[Capacity];
      accountCount := 0;
      Contents := [];
    }

    /** Writes a new account into the next free slot. */
    method Append(a: Account)
      requires Valid() && accountCount < Capacity && a !in Contents
      modifies this, accounts
      ensures Valid()
      ensures accountCount == old(accountCount) + 1 && Contents == old(Contents) + [a]
      ensures forall i :: 0 <= i < Capacity && i != old(accountCount) ==> accounts[i] == old(accounts[i])
      ensures Slot(a.accountNumber) ==
        if old(Slot(a.accountNumber)).Some? then old(Slot(a.accountNumber)) else Some(old(accountCount))
    {
      ghost var ids := Numbers(Contents);
      ghost var grown := Contents + [a];
      assert Numbers(grown) == ids + [a.accountNumber];
      FirstIndexAfterAppend(ids, a.accountNumber, a.accountNumber);
      assert forall i, j :: 0 <= i < j < |grown| ==> grown[i] != grown[j];
      accounts[accountCount] := a;
      Contents := grown;
      accountCount := accountCount + 1;
    }

    /**
      Creates an account of type `choice` (1 savings, 2 checking, 3 fixed
      deposit) in the next free slot. `limit` is used by checking accounts
      and `term` by fixed deposits only.
     */
    method CreateAccount(choice: int, accNum: int, name: seq<char>, bal: real, limit: real, term: int)
      returns (status: CreateStatus)
      requires Valid() && Readable(name)
      modifies this, accounts
      ensures Valid()
      ensures status == RegistryFull <==> old(accountCount) >= Capacity
      ensures status == InvalidType <==> old(accountCount) < Capacity && !(1 <= choice <= 3)
      ensures status != Created ==>
        accountCount == old(accountCount) && Contents == old(Contents) && accounts[..] == old(accounts[..])
      ensures status == Created ==>
        accountCount == old(accountCount) + 1 &&
        Contents[..old(accountCount)] == old(Contents) &&
        (forall i :: 0 <= i < Capacity && i != old(accountCount) ==> accounts[i] == old(accounts[i]))
      ensures status == Created ==>
        var a := Contents[old(accountCount)];
        fresh(a) && fresh(a.holderName) &&
        a.accountNumber == accNum && a.balance == bal &&
        a.Name() == Prefix(name, MaxNameLength) &&
        a.kind == (if choice == 1 then Savings else if choice == 2 then Checking(limit) else FixedDeposit(term, false))
      ensures status == Created ==>
        Slot(accNum) == if old(Slot(accNum)).Some? then old(Slot(accNum)) else Some(old(accountCount))
    {
      if accountCount >= Capacity {
        return RegistryFull;
      }
      var a := OpenAccount(choice, accNum, name, bal, limit, term);
      if a == null {
        return InvalidType;
      }
      Append(a);
      status := Created;
    }

    /** Linear scan of the occupied slots for the first account numbered `accNum`. */
    method FindAccount(accNum: int) returns (acc: Account?)
      requires Valid()
      ensures acc == null <==> Slot(accNum).None?
      ensures acc != null ==> acc == Contents[Slot(accNum).value] && acc.accountNumber == accNum
      ensures acc == null <==> forall i :: 0 <= i < accountCount ==> Contents[i].accountNumber != accNum
    {
      ghost var ids := Numbers(Contents);
      assert forall j :: 0 <= j < accountCount ==> ids[j] == Contents[j].accountNumber;
      for i := 0 to accountCount
        invariant forall j :: 0 <= j < i ==> ids[j] != accNum
      {
        if accounts[i].accountNumber == accNum {
          FirstIndexAt(ids, accNum, i);
          return accounts[i];
        }
      }
      return null;
    }

    /** Deposits into the first account numbered `accNum`. */
    method DepositToAccount(accNum: int, amount: real) returns (outcome: Outcome)
      requires Valid()
      modifies Contents
      ensures Valid()
      ensures Slot(accNum).None? ==> outcome == NotFound
      ensures Slot(accNum).Some? ==>
        var a := Contents[Slot(accNum).value];
        a.State() == Deposited(old(a.State()), amount) &&
        outcome == if amount > 0.0 then Done else Refused
      ensures forall i :: 0 <= i < |Contents| && Slot(accNum) != Some(i) ==> unchanged(Contents[i])
    {
      var acc := FindAccount(accNum);
      if acc == null {
        return NotFound;
      }
      var ok := acc.Deposit(amount);
      outcome := if ok then Done else Refused;
    }

    /** Withdraws from the first account numbered `accNum` under that account's rule. */
    method WithdrawFromAccount(accNum: int, amount: real) returns (outcome: Outcome)
      requires Valid()
      modifies Contents
      ensures Valid()
      ensures Slot(accNum).None? ==> outcome == NotFound
      ensures Slot(accNum).Some? ==>
        var a := Contents[Slot(accNum).value];
        a.State() == Withdrawn(old(a.State()), amount) &&
        (outcome == Done <==> MayWithdraw(old(a.kind), old(a.balance), amount)) &&
        outcome != NotFound
      ensures forall i :: 0 <= i < |Contents| && Slot(accNum) != Some(i) ==> unchanged(Contents[i])
    {
      var acc := FindAccount(accNum);
      if acc == null {
        return NotFound;
      }
      var ok := acc.Withdraw(amount);
      outcome := if ok then Done else Refused;
    }

    /** The balance of the first account numbered `accNum`, after any pending fixed-deposit interest. */
    method CheckBalance(accNum: int) returns (b: Option<real>)
      requires Valid()
      modifies Contents
      ensures Valid()
      ensures b.None? <==> Slot(accNum).None?
      ensures Slot(accNum).Some? ==>
        var a := Contents[Slot(accNum).value];
        a.State() == Queried(old(a.State())) && b == Some(a.balance)
      ensures forall i :: 0 <= i < |Contents| && Slot(accNum) != Some(i) ==> unchanged(Contents[i])
    {
      var acc := FindAccount(accNum);
      if acc == null {
        return None;
      }
      var x := acc.GetBalance();
      b := Some(x);
    }

    /** What the display of the first account numbered `accNum` shows; nothing changes. */
    method DisplayAccountInfo(accNum: int) returns (info: Option<Summary>)
      requires Valid()
      ensures info.None? <==> Slot(accNum).None?
      ensures Slot(accNum).Some? ==> info == Some(Contents[Slot(accNum).value].DisplayInfo())
    {
      var acc := FindAccount(accNum);
      if acc == null {
        return None;
      }
      info := Some(acc.DisplayInfo());
    }
  }
}
