# Banking ledger in Dafny

A model of `banking.cpp`, an in-memory console banking ledger. It has two parts.

- **Accounts** (`accounts.dfy`, module `Accounts`). There is a base account with an account number, a holder name and a balance. The name is kept in a 50-character buffer: at most 49 characters, then a terminating NUL. There are three variants. A **savings** account uses the base withdrawal rule: the balance must cover the amount. A **checking** account may go down to minus its overdraft limit. A **fixed deposit** adds 7% yearly interest over its term (`balance * 7/100 * term/12`) the first time its balance is queried, and never again.
  - The variants form a closed set, so they are the constructors of the datatype `Kind`. The fixed deposit's "interest added" flag is part of `Kind`.
  - Each account is an object of class `Account`. Its number and name buffer are constants; `balance` and `kind` are the fields its methods update.
  - The class has one named constructor per C++ subclass.
  - `getAccountNumber` (banking.cpp:55-57) is the constant field `accountNumber`. Reading it changes nothing, and nothing changes it.
  - Every state change is stated against a function on the value `Ledger(balance, kind)`: `Deposited`, `Withdrawn` or `Queried`. The lemmas about those functions give the promised properties: the floor each variant keeps, at-most-once interest, and withdraw undoing deposit.
- **Registry** (`banking_system.dfy`, module `Registry`). Class `BankingSystem` holds a fixed array of 100 account slots and a count. Accounts are appended in insertion order.
  - The capacity is checked first, then the type choice (1-3).
  - Lookup is a linear scan that returns the FIRST account with the given number. Duplicate numbers are not rejected, and the model keeps this: a later account with a repeated number can never be reached.
  - Deposit, withdraw, balance and display look the account up and then hand over to it. If the lookup fails, they report "not found" and change no account.
  - The ghost sequence `Contents` is the list of occupied slots. `Slot(n)`, the first index of `n` among their numbers (`FirstIndex`), states which account an operation reaches.
- **Scenarios** (`scenarios.dfy`) states example sessions of the ledger and proves each from the contracts above.

Prompts read from the console become method parameters. Printed messages become results:
- `CreateStatus`: `RegistryFull`, `InvalidType` or `Created`;
- `Outcome`: `NotFound`, `Refused` or `Done`;
- `Option` for a balance or a display.

Amounts are exact `real`s.

Three behaviours of the code shape the model:
- `createAccount` does not reject a repeated account number (banking.cpp:141-185). Duplicates are accepted, and lookup returns the first.
- Only `getBalance` applies interest (banking.cpp:110-116). The `const` display only recomputes "interest earned" on the current balance (banking.cpp:118-124). So `DisplayInfo` is a function, and it changes nothing.
- Nothing validates the initial balance, the overdraft limit or the term. The model accepts any value. `NegativeTermBreaksFloor` shows that a negative term makes the interest negative and can push a fixed deposit below zero.

## Model

| member | source | states |
|---|---|---|
| `Accounts.Prefix` | banking.cpp:13-18 | the stored name is the input's characters before its first NUL, at most 49 of them, NUL-free; it stops early only at a NUL |
| `Accounts.PrefixIsMaximal` | banking.cpp:13-18 | any NUL-free prefix that stops at the cap, the end of the input or a NUL is exactly the stored name (the name is uniquely determined) |
| `Accounts.ShortNameKept` | banking.cpp:14-18 | a name of at most 49 characters followed by NUL is stored whole |
| `Accounts.LongNameCut` | banking.cpp:14-18 | a name with no NUL among its first 49 characters is cut to those 49 |
| `Accounts.NameReadsBack` | banking.cpp:18 | a buffer holding a NUL-free name followed by NUL reads back (as a C string) as that name |
| `Accounts.CopyName` | banking.cpp:11-18 | the copy loop fills a fresh 50-character buffer with the truncated name and writes the terminator right after it |
| `Accounts.Account.SavingsAccount` | banking.cpp:62-63 | a savings account with the given number and balance, its name truncated and terminated |
| `Accounts.Account.CheckingAccount` | banking.cpp:76-77 | a checking account with the given number, balance and overdraft limit, its name truncated and terminated |
| `Accounts.Account.FixedDepositAccount` | banking.cpp:103-104 | a fixed deposit with the given number, balance and term, interest not yet added, its name truncated and terminated |
| `Accounts.Account.Deposit` | banking.cpp:24-32 | succeeds iff the amount is positive; then the balance rises by exactly the amount, otherwise nothing changes |
| `Accounts.Account.BaseWithdraw` | banking.cpp:34-42 | succeeds iff 0 < amount <= balance; on success the balance falls by exactly the amount and stays nonnegative, otherwise nothing changes |
| `Accounts.Account.CheckingWithdraw` | banking.cpp:79-87 | succeeds iff 0 < amount <= balance + overdraft limit; on success the balance is at least minus the limit, otherwise nothing changes |
| `Accounts.Account.Withdraw` | banking.cpp:220 | virtual dispatch: checking accounts use the overdraft rule, the others the base rule; a success never leaves the balance below the variant's floor |
| `Accounts.Account.GetBalance` | banking.cpp:110-116 | a fixed deposit with interest pending adds interest on its current balance and marks it added; every other call returns the balance and changes nothing |
| `Accounts.Account.DisplayInfo` | banking.cpp:118-124 | shows number, name, balance and the variant's lines; a fixed deposit's "interest earned" is recomputed on the current balance, and before the first query it equals what that query adds |
| `Accounts.Interest` | banking.cpp:106-108 | balance × 7/100 × term/12, computed exactly; over 12 months it is 7% of the balance, and it is nonnegative for a nonnegative balance and term |
| `Accounts.MayWithdraw` | banking.cpp:34-42 | the base rule (0 < amount <= balance) and the checking rule at banking.cpp:80 (0 < amount <= balance + limit) allow exactly the positive amounts that leave the balance at or above 0 (savings, fixed deposit) or minus the overdraft limit (checking) |
| `Accounts.Deposited` | banking.cpp:24-32 | a deposit keeps the variant; it changes nothing iff the amount is not positive, and otherwise raises the balance by exactly the amount |
| `Accounts.Withdrawn` | banking.cpp:79-87 | a withdrawal keeps the variant; it changes nothing exactly when the variant's rule refuses it, and otherwise debits the exact amount and lands at or above the floor |
| `Accounts.Queried` | banking.cpp:110-116 | a query changes an account iff it is a fixed deposit with interest pending, and then adds exactly the interest on the balance at that moment and marks it added; afterwards a fixed deposit's interest is always marked added |
| `Accounts.MovesKeepFloor` | banking.cpp:24-42 | deposits and withdrawals preserve "balance at or above the floor" |
| `Accounts.DepositThenWithdraw` | banking.cpp:24-42 | withdrawing what was just deposited restores the account, if it was at or above its floor |
| `Accounts.QueryAtMostOnce` | banking.cpp:110-116 | a second balance query changes nothing: interest is added at most once, and after a query the flag is set |
| `Accounts.QueryKeepsFloor` | banking.cpp:106-116 | with a nonnegative term, a query keeps every account at or above its floor |
| `Accounts.NegativeTermBreaksFloor` | banking.cpp:176-180 | the term is not checked: a fixed deposit of 100 with term -200 goes below zero at its first query |
| `Registry.FirstIndex` | banking.cpp:187-194 | the lookup result is the lowest position holding the number, with none before it, or none iff the number is absent |
| `Registry.FirstIndexAt` | banking.cpp:187-194 | a match with no earlier match is the one found |
| `Registry.FirstIndexOfUnique` | banking.cpp:187-194 | a number present exactly once is found at its position |
| `Registry.LaterDuplicateShadowed` | banking.cpp:187-194 | of two accounts sharing a number, the later is never found |
| `Registry.FirstIndexAfterAppend` | banking.cpp:167-180 | appending an account keeps every successful lookup as it was; only a new number finds the new slot |
| `Registry.OpenAccount` | banking.cpp:167-184 | choice 1, 2 or 3 builds a fresh savings, checking or fixed-deposit account from the given details; any other choice builds none |
| `Registry.BankingSystem.Append` | banking.cpp:168 | writes the account into slot count and raises count by one; other slots stay as they were; a repeated number stays shadowed by its first holder |
| `Registry.BankingSystem.constructor` | banking.cpp:133 | an empty registry of 100 slots |
| `Registry.BankingSystem.CreateAccount` | banking.cpp:141-185 | full iff 100 accounts exist; an invalid type iff not full and the choice is outside 1-3; both change nothing; otherwise exactly one fresh account of the chosen variant is written at index count, count rises by one, other slots are unchanged, and a repeated number stays shadowed |
| `Registry.BankingSystem.FindAccount` | banking.cpp:187-194 | returns the first account among the occupied slots with the number, or null iff none has it |
| `Registry.BankingSystem.DepositToAccount` | banking.cpp:196-209 | not found changes nothing; otherwise only the first matching account changes, as a deposit does |
| `Registry.BankingSystem.WithdrawFromAccount` | banking.cpp:211-224 | not found changes nothing; otherwise only the first matching account changes, under its variant's withdrawal rule |
| `Registry.BankingSystem.CheckBalance` | banking.cpp:226-236 | none iff not found; otherwise the first matching account is queried (interest applied at most once) and its balance returned; no other account changes |
| `Registry.BankingSystem.DisplayAccountInfo` | banking.cpp:238-248 | none iff not found; otherwise the first matching account's display content; nothing changes |
| `Scenarios.SavingsSession` | banking.cpp:34-42 | savings 1000: withdraw 200 gives 800; withdraw 900 is refused |
| `Scenarios.CheckingSession` | banking.cpp:79-87 | checking 500 with overdraft 300: withdraw 700 gives -200; then 150 is refused, 100 is allowed |
| `Scenarios.FixedDepositSession` | banking.cpp:110-116 | fixed deposit 10000 for 12 months: the first query gives 10700, and so does the second |
| `Scenarios.DuplicateNumberSession` | banking.cpp:196-209 | with two accounts numbered 7 holding 100 and 50, a deposit of 50 to number 7 leaves them at 150 and 50 |
| `Scenarios.RefusedRequestsSession` | banking.cpp:196-209 | a deposit to an unknown number is not found and a negative deposit is refused; the one account keeps its 100 |

## Left out

- Console input and output, the menu loop (banking.cpp:251-283) and the text layout of the messages and of the display. Prompts are parameters; messages are the returned statuses; the display is the `Summary` value.
- Non-numeric console input, which would put the input stream into its failure state. This is host stream behaviour.
- `cin >> name` into a 50-character buffer can overflow it on a long word. The model takes any name the copy loop can read (`Readable`): one with a NUL, or at least 50 characters long.
- Names are Dafny `char`s, while C counts bytes, so a multi-byte character counts as several of the 49.
- The destructors and `new`/`delete` ownership (banking.cpp:22, 135-139); Dafny's heap stands in for them.
- IEEE `double` rounding of balances and of `term / 12.0`: amounts and the interest formula are exact reals.
- The 32-bit width of account numbers, terms and the count. The only arithmetic on them is the count's increment, and the count stays at or below 100.
