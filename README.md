# Bank account kata, modelled in Dafny

A single bank account holds a Java `long` balance and a history of
operations. Each operation is a value record: a timestamp, an amount and a
type, either `DEPOSIT` or `WITHDRAWAL`. The account is a lazily created
singleton. The account service has one public operation, `makeDeposit(amount)`.
It rejects a non-positive amount with an exception and leaves everything as it
was. Otherwise it calls the private `updateAccount`. That method adds the
amount to the balance when the type is `DEPOSIT`, and it always appends a
new operation, stamped with the current time, to the end of the history.

Files and modules:

- `java_long.dfy` (`JavaLong`): the `long` type as a newtype `Long`. It also
  holds `Wrap`, the two's-complement narrowing, and `AddLong`, Java's `+` on
  `long`s, which wraps around.
- `operation.dfy` (`Operations`): `OperationType` and `Operation` as
  datatypes, with the setters and the field-wise `equals`. `ListEquals` is
  `List.equals` over histories.
- `account.dfy` (`Accounts`): the `Account` class with its `balance` and
  `history` fields, setters and `equals`. `AccountHolder` is the static
  `uniqueInstance` field together with `getInstance`.
- `account_service.dfy` (`AccountService`): the pure meaning of one call on an
  account value (`ApplyUpdate`, `ApplyDeposit`). It also holds the two
  service methods, proved against those functions, and lemmas about
  sequences of calls (`Replay`). `DepositAll` runs a sequence of calls on the
  shared account and is proved to end where `Replay` says, so the lemmas
  about `Replay` hold for runs of the methods too.

The invariant of the ledger is `Ledger`. It says that the balance is the sum
of the history's `DEPOSIT` amounts, narrowed to a `long`, and that every
recorded deposit is positive. Every call keeps it. From a fresh account,
while that sum fits in a `long`, the balance equals the sum exactly and is
not negative. `OverflowWrapsNegative` shows why the bound is needed:
`Long.MAX_VALUE` followed by `1` leaves the balance at `Long.MIN_VALUE`.

The code has no `withdraw` operation. Its `updateAccount` never subtracts, so
a `WITHDRAWAL`-typed update would leave the balance unchanged
(`ApplyUpdate`). The balance invariant therefore counts deposits only.

The clock (`Instant.now()`) is a parameter `now` of every call. The
ordering lemmas (`RecordedChronological`, `FreshAccountDates`) assume that
successive readings never go back; `RecordedNotBefore` does not. The
exception is a `DepositError` value that carries the rejected amount.

## Model

| member | source | states |
|---|---|---|
| `Operations.Operation.WithDate` | src/main/java/com/exteam/bankaccount/model/Operation.java:11-18 | the `date` setter sets `date` and leaves `amount` and `type` as they were; the record changes exactly when the new date differs |
| `Operations.Operation.WithAmount` | src/main/java/com/exteam/bankaccount/model/Operation.java:11-18 | the `amount` setter changes only `amount` |
| `Operations.Operation.WithKind` | src/main/java/com/exteam/bankaccount/model/Operation.java:11-18 | the `type` setter changes only `type` |
| `Operations.Operation.Equals` | src/main/java/com/exteam/bankaccount/model/Operation.java:13-18 | two operations are equal if and only if their date, amount and type are all equal |
| `Operations.ListEquals` | src/main/java/com/exteam/bankaccount/model/Account.java:16-22 | element-wise comparison of two histories with the operations' `equals` holds if and only if the histories are the same sequence |
| `Accounts.Account.constructor` | src/main/java/com/exteam/bankaccount/model/Account.java:21-24 | a new account has balance 0 and an empty history |
| `Accounts.Account.SetBalance` | src/main/java/com/exteam/bankaccount/model/Account.java:15-21 | sets the balance and leaves the history as it was |
| `Accounts.Account.SetHistory` | src/main/java/com/exteam/bankaccount/model/Account.java:15-22 | replaces the history and leaves the balance as it was |
| `Accounts.Account.AddToHistory` | src/main/java/com/exteam/bankaccount/service/AccountService.java:41 | `getHistory().add(op)`: the history gains `op` at its end and the balance is left as it was |
| `Accounts.Account.Equals` | src/main/java/com/exteam/bankaccount/model/Account.java:16-22 | two accounts are equal if and only if their balances and histories are equal |
| `Accounts.AccountHolder.constructor` | src/main/java/com/exteam/bankaccount/model/Account.java:19 | before the first `getInstance` no account exists |
| `Accounts.AccountHolder.GetInstance` | src/main/java/com/exteam/bankaccount/model/Account.java:26-31 | allocates a fresh account only when none exists, otherwise returns the existing one; stores and returns that account; the account value seen by callers does not change |
| `Accounts.GetInstanceTwice` | src/main/java/com/exteam/bankaccount/model/Account.java:26-31 | two successive `getInstance` calls return the same object, which is the existing account if there was one and a newly allocated one otherwise |
| `JavaLong.Wrap` | src/main/java/com/exteam/bankaccount/service/AccountService.java:39 | the narrowed value is congruent to the exact value modulo 2^64, and equals it when the exact value fits in a `long` |
| `JavaLong.AddLong` | src/main/java/com/exteam/bankaccount/service/AccountService.java:39 | `long` addition gives the one `long` congruent to the exact sum modulo 2^64: the exact sum when it fits; adding two positive values past `Long.MAX_VALUE` gives a negative result |
| `JavaLong.WrapAdd` | src/main/java/com/exteam/bankaccount/service/AccountService.java:39 | adding to an already wrapped sum gives the same `long` as adding to the exact sum |
| `AccountService.ApplyUpdate` | src/main/java/com/exteam/bankaccount/service/AccountService.java:36-42 | appends exactly one `Operation(now, amount, type)` at the end and keeps the earlier entries; a withdrawal-typed update leaves the balance unchanged; a deposit raises the balance by exactly `amount` when no overflow occurs, and modulo 2^64 otherwise |
| `AccountService.ApplyDeposit` | src/main/java/com/exteam/bankaccount/service/AccountService.java:27-34 | fails if and only if `amount <= 0`; the failure carries the rejected amount and leaves the account value unchanged; otherwise the call performs the deposit update |
| `AccountService.UpdateAccount` | src/main/java/com/exteam/bankaccount/service/AccountService.java:36-42 | after the call the singleton exists; it is the same object as before if one existed, and a newly allocated one otherwise; its value is `ApplyUpdate` of the old value |
| `AccountService.MakeDeposit` | src/main/java/com/exteam/bankaccount/service/AccountService.java:16-34 | returns the outcome and leaves the account value that `ApplyDeposit` gives; on failure neither the holder nor the account is touched; the singleton is never replaced, and one created by the call is newly allocated |
| `AccountService.ResetAccount` | src/test/java/com/exteam/bankaccount/service/AccountServiceTest.java:97-101 | resetting the balance to 0 and the history to empty through the setters gives a value equal to a fresh account's; an existing singleton object is kept and changed in place, otherwise a new one is allocated |
| `AccountService.DepositAll` | src/test/java/com/exteam/bankaccount/service/AccountServiceTest.java:53-71 | successive `makeDeposit` calls on the shared account: one outcome per call, which is a failure carrying the rejected amount exactly for a non-positive amount and success otherwise; the account ends at `Replay` of its old value; the singleton is kept, or newly allocated if none existed |
| `AccountService.SuccessiveDepositsTest` | src/test/java/com/exteam/bankaccount/service/AccountServiceTest.java:53-71 | on a new holder, deposits of 500 and then 200 leave balance 700 and the two deposits in call order |
| `AccountService.Recorded` | src/main/java/com/exteam/bankaccount/service/AccountService.java:27-42 | a sequence of calls records only positive deposits, at most one per call; when every amount is positive it records exactly one `Operation(now, amount, DEPOSIT)` per call, in call order |
| `AccountService.ApplyUpdateKeepsBalanced` | src/main/java/com/exteam/bankaccount/service/AccountService.java:36-42 | every update, deposit or withdrawal, keeps the balance equal to the narrowed sum of the history's deposit amounts |
| `AccountService.ApplyDepositKeepsLedger` | src/main/java/com/exteam/bankaccount/service/AccountService.java:27-42 | `makeDeposit`, accepted or rejected, keeps the ledger invariant: the balance is the narrowed deposit sum and every recorded deposit is positive |
| `AccountService.ReplayHistory` | src/main/java/com/exteam/bankaccount/service/AccountService.java:41 | a sequence of calls leaves the earlier history as it was and appends exactly the recorded operations |
| `AccountService.ReplayKeepsLedger` | src/main/java/com/exteam/bankaccount/service/AccountService.java:27-42 | any sequence of calls keeps the ledger invariant |
| `AccountService.LedgerBalance` | src/main/java/com/exteam/bankaccount/service/AccountService.java:39 | under the ledger invariant, while the deposit sum fits in a `long`, the balance equals that sum and is not negative |
| `AccountService.FreshAccountLedger` | src/main/java/com/exteam/bankaccount/service/AccountService.java:27-42 | from a fresh account, after any calls the history is exactly the accepted deposits in call order; the balance is their narrowed sum, and while that sum fits in a `long` it is the exact sum and is not negative |
| `AccountService.RecordedTotal` | src/main/java/com/exteam/bankaccount/service/AccountService.java:36-42 | when every amount is positive, the recorded deposits add up to the sum of the amounts |
| `AccountService.SuccessiveDeposits` | src/test/java/com/exteam/bankaccount/service/AccountServiceTest.java:53-71 | successive positive deposits into a fresh account give a balance equal to their sum (when it fits) and a history of one deposit per call, in call order |
| `AccountService.RecordedNotBefore` | src/main/java/com/exteam/bankaccount/service/AccountService.java:41 | when every clock reading is at or after `before`, every recorded date is too |
| `AccountService.RecordedChronological` | src/main/java/com/exteam/bankaccount/service/AccountService.java:41 | with a clock that never goes back, the recorded operations are in date order and none is later than the last reading |
| `AccountService.FreshAccountDates` | src/test/java/com/exteam/bankaccount/service/AccountServiceTest.java:46-48 | from a fresh account and a monotone clock, every recorded date is at or after a reading taken before the first call, and the history is in date order |
| `AccountService.OverflowWrapsNegative` | src/main/java/com/exteam/bankaccount/service/AccountService.java:39 | depositing `Long.MAX_VALUE` and then 1 into a fresh account wraps the balance to `Long.MIN_VALUE` |

## Left out

- The exception message: `String.format` of the deposit template is not modelled. The error value `NonPositiveAmount` carries the rejected amount, which is all that the template is filled with. `AccountServiceException` is not part of this model.
- The clock: `Instant.now()` is the parameter `now`. An `Instant` is an integer, without the seconds/nanoseconds split. A clock that never goes back is an assumption of the ordering lemmas `RecordedChronological` and `FreshAccountDates` only.
- Static global state: the static `uniqueInstance` field is the object `AccountHolder`, passed to the service methods explicitly.
- Accounts.Account.constructor: Dafny has no private constructors, so nothing stops other code from allocating an `Account`. Within this model only `GetInstance` does.
- Aliasing of the history list: `getHistory()` returns the live `ArrayList`, so callers can change it in place. Here `history` is a sequence value that only the account's own methods `SetHistory` and `AddToHistory` reassign. `getHistory().add(op)` becomes a call of `AddToHistory(op)`.
- Getters: the generated getters of `Account` are reads of its fields, and those of `Operation` are the datatype's destructors. The all-args constructor is the datatype constructor, which stores its three arguments as given. Neither kind is written out as a separate member.
- Operations.Operation.WithDate, Operations.Operation.WithAmount, Operations.Operation.WithKind: the Java setters change the record in place. Here they return a changed copy, because the record is a value and no code in the repository calls them.
- `hashCode`, and the `canEqual`, null and class checks of the generated `equals`: not modelled. `Equals` compares two objects of the same type only.
- Withdrawal and listing operations: the code has none. The `WITHDRAWAL` type appears only as an enum value and as a possible argument of the private `updateAccount`.
