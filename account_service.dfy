/**
 * The account service: `makeDeposit` guards the amount and delegates to the
 * private `updateAccount`, which changes the singleton account in place.
 * The pure functions below give the meaning of one call on an account value;
 * the methods are proved against them and the lemmas prove what sequences of
 * calls do.
 */
module AccountService {
  import opened JavaLong
  import opened Operations
  import opened Accounts

  /** The rejection of `makeDeposit`; its message is the deposit template filled in with `amount`. */
  datatype DepositError = NonPositiveAmount(amount: Long)

  /** A call either returns normally or throws. */
  datatype Outcome = Pass | Fail(error: DepositError)

  /** What one `makeDeposit` call returns together with the account value it leaves. */
  datatype Step = Step(outcome: Outcome, state: AccountState)

  /** One `makeDeposit(amount)` call, with the reading of the clock it takes. */
  datatype Call = Call(amount: Long, now: Instant)

  // ---------------------------------------------------------------------------
  // Meaning of a single call

  /**
   * `updateAccount` on an account value: the balance grows by `amount` (with
   * `long` wrap-around) only for a deposit, and one operation is always
   * appended at the end of the history.
   */
  function ApplyUpdate(s: AccountState, amount: Long, kind: OperationType, now: Instant): (t: AccountState)
    ensures |t.history| == |s.history| + 1
    ensures t.history[..|s.history|] == s.history
    ensures t.history[|s.history|] == Operation(now, amount, kind)
    ensures kind == Withdrawal ==> t.balance == s.balance
    ensures kind == Deposit && InLongRange(s.balance as int + amount as int) ==>
              t.balance as int == s.balance as int + amount as int
    ensures kind == Deposit ==> (s.balance as int + amount as int - t.balance as int) % TWO_TO_64 == 0
  {
    var balance := if kind == Deposit then AddLong(s.balance, amount) else s.balance;
    AccountState(balance, s.history + [Operation(now, amount, kind)])
  }

  /**
   * `makeDeposit` on an account value: a non-positive amount is rejected
   * with an error carrying it and the account is untouched; any other amount
   * is recorded as a deposit.
   */
  function ApplyDeposit(s: AccountState, amount: Long, now: Instant): (r: Step)
    ensures r.outcome.Fail? <==> amount <= 0
    ensures r.outcome.Fail? ==> r.outcome.error == NonPositiveAmount(amount) && r.state == s
    ensures r.outcome.Pass? ==> r.state == ApplyUpdate(s, amount, Deposit, now)
  {
    if amount <= 0 then Step(Fail(NonPositiveAmount(amount)), s)
    else Step(Pass, ApplyUpdate(s, amount, Deposit, now))
  }

  // ---------------------------------------------------------------------------
  // The service's methods on the shared account

  /** The private `updateAccount`: fetches the singleton, adjusts the balance for a deposit, appends the operation. */
  method UpdateAccount(holder: AccountHolder, amount: Long, kind: OperationType, now: Instant)
    modifies holder, holder.uniqueInstance
    ensures holder.uniqueInstance != null
    ensures old(holder.uniqueInstance) != null ==> holder.uniqueInstance == old(holder.uniqueInstance)
    ensures old(holder.uniqueInstance) == null ==> fresh(holder.uniqueInstance)
    ensures holder.State() == ApplyUpdate(old(holder.State()), amount, kind, now)
  {
    var account := holder.GetInstance();
    if kind == Deposit {
      account.SetBalance(AddLong(account.balance, amount));
    }
    account.AddToHistory(Operation(now, amount, kind));
  }

  /** `makeDeposit`: throws for a non-positive amount before touching anything, otherwise records a deposit. */
  method MakeDeposit(holder: AccountHolder, amount: Long, now: Instant) returns (r: Outcome)
    modifies holder, holder.uniqueInstance
    ensures r == ApplyDeposit(old(holder.State()), amount, now).outcome
    ensures holder.State() == ApplyDeposit(old(holder.State()), amount, now).state
    ensures r.Fail? ==> unchanged(holder) && (holder.uniqueInstance != null ==> unchanged(holder.uniqueInstance))
    ensures r.Pass? ==> holder.uniqueInstance != null
    ensures old(holder.uniqueInstance) != null ==> holder.uniqueInstance == old(holder.uniqueInstance)
    ensures old(holder.uniqueInstance) == null && holder.uniqueInstance != null ==> fresh(holder.uniqueInstance)
  {
    if amount <= 0 {
      return Fail(NonPositiveAmount(amount));
    }
    UpdateAccount(holder, amount, Deposit, now);
    r := Pass;
  }

  /** The test teardown: reset the singleton's balance and history through its setters. */
  method ResetAccount(holder: AccountHolder)
    modifies holder, holder.uniqueInstance
    ensures holder.uniqueInstance != null && holder.State() == Fresh
    ensures old(holder.uniqueInstance) != null ==> holder.uniqueInstance == old(holder.uniqueInstance)
    ensures old(holder.uniqueInstance) == null ==> fresh(holder.uniqueInstance)
  {
    var account := holder.GetInstance();
    account.SetBalance(0);
    account.SetHistory([]);
  }

  // ---------------------------------------------------------------------------
  // Sequences of calls

  /**
   * A caller that makes the given `makeDeposit` calls one after another on
   * the shared account, as the successive-deposit test does; every outcome
   * is kept and the account ends where `Replay` says.
   */
  method DepositAll(holder: AccountHolder, calls: seq<Call>) returns (outcomes: seq<Outcome>)
    modifies holder, holder.uniqueInstance
    ensures |outcomes| == |calls|
    ensures forall i :: 0 <= i < |calls| ==>
              outcomes[i] == (if calls[i].amount <= 0 then Fail(NonPositiveAmount(calls[i].amount)) else Pass)
    ensures holder.State() == Replay(old(holder.State()), calls)
    ensures old(holder.uniqueInstance) != null ==> holder.uniqueInstance == old(holder.uniqueInstance)
    ensures old(holder.uniqueInstance) == null && holder.uniqueInstance != null ==> fresh(holder.uniqueInstance)
  {
    outcomes := [];
    var i := 0;
    while i < |calls|
      invariant 0 <= i <= |calls|
      invariant |outcomes| == i
      invariant forall j :: 0 <= j < i ==>
                  outcomes[j] == (if calls[j].amount <= 0 then Fail(NonPositiveAmount(calls[j].amount)) else Pass)
      invariant holder.State() == Replay(old(holder.State()), calls[..i])
      invariant old(holder.uniqueInstance) != null ==> holder.uniqueInstance == old(holder.uniqueInstance)
      invariant old(holder.uniqueInstance) == null && holder.uniqueInstance != null ==> fresh(holder.uniqueInstance)
    {
      assert calls[..i + 1][..i] == calls[..i];
      var r := MakeDeposit(holder, calls[i].amount, calls[i].now);
      outcomes := outcomes + [r];
      i := i + 1;
    }
    assert calls[..i] == calls;
  }

  /** The successive-deposit test on a new holder: 500 then 200 leave a balance of 700 and two deposits, in order. */
  method SuccessiveDepositsTest(t1: Instant, t2: Instant) returns (holder: AccountHolder)
    ensures holder.uniqueInstance != null
    ensures holder.State() == AccountState(700, [Operation(t1, 500, Deposit), Operation(t2, 200, Deposit)])
  {
    holder := new AccountHolder();
    var r1 := MakeDeposit(holder, 500, t1);
    var r2 := MakeDeposit(holder, 200, t2);
    assert r1 == Pass && r2 == Pass;
  }

  /** The account value after a sequence of `makeDeposit` calls; a rejected call changes nothing. */
  function Replay(s: AccountState, calls: seq<Call>): AccountState
  {
    if calls == [] then s
    else
      var last := calls[|calls| - 1];
      ApplyDeposit(Replay(s, calls[..|calls| - 1]), last.amount, last.now).state
  }

  /** The operations that a sequence of calls records: one deposit per accepted call, in call order. */
  function Recorded(calls: seq<Call>): (ops: seq<Operation>)
    ensures |ops| <= |calls|
    ensures forall i :: 0 <= i < |ops| ==> ops[i].kind == Deposit && ops[i].amount > 0
    ensures (forall j :: 0 <= j < |calls| ==> calls[j].amount > 0) ==>
              |ops| == |calls| &&
              forall i :: 0 <= i < |ops| ==> ops[i] == Operation(calls[i].now, calls[i].amount, Deposit)
  {
    if calls == [] then []
    else
      var last := calls[|calls| - 1];
      var earlier := Recorded(calls[..|calls| - 1]);
      if last.amount > 0 then earlier + [Operation(last.now, last.amount, Deposit)] else earlier
  }

  /** What the deposits of a history add up to, exactly; withdrawals count for nothing. */
  function DepositTotal(h: seq<Operation>): int
  {
    if h == [] then 0
    else
      var last := h[|h| - 1];
      DepositTotal(h[..|h| - 1]) + (if last.kind == Deposit then last.amount as int else 0)
  }

  /** The sum of the amounts of a sequence of calls. */
  function AmountTotal(calls: seq<Call>): int
  {
    if calls == [] then 0 else AmountTotal(calls[..|calls| - 1]) + calls[|calls| - 1].amount as int
  }

  /** Every deposit in the history is of a positive amount. */
  predicate PositiveDeposits(h: seq<Operation>) {
    forall i :: 0 <= i < |h| && h[i].kind == Deposit ==> h[i].amount > 0
  }

  /** The balance is the deposit total narrowed to a `long`. */
  predicate Balanced(s: AccountState) {
    s.balance == Wrap(DepositTotal(s.history))
  }

  /** The invariant that every account value reached through `makeDeposit` keeps. */
  predicate Ledger(s: AccountState) {
    Balanced(s) && PositiveDeposits(s.history)
  }

  /** History entries are in non-decreasing order of their dates. */
  predicate Chronological(h: seq<Operation>) {
    forall i, j :: 0 <= i < j < |h| ==> h[i].date <= h[j].date
  }

  /** Successive clock readings never go back. */
  predicate MonotoneClock(calls: seq<Call>) {
    forall i, j :: 0 <= i < j < |calls| ==> calls[i].now <= calls[j].now
  }

  // ---------------------------------------------------------------------------
  // Lemmas

  lemma {:induction false} DepositTotalAppend(h: seq<Operation>, op: Operation)
    ensures DepositTotal(h + [op]) == DepositTotal(h) + (if op.kind == Deposit then op.amount as int else 0)
  {
    assert (h + [op])[..|h|] == h;
  }

  /** A history of positive deposits has a non-negative total. */
  lemma {:induction false} DepositTotalNonNegative(h: seq<Operation>)
    requires PositiveDeposits(h)
    ensures DepositTotal(h) >= 0
  {
    if h != [] {
      DepositTotalNonNegative(h[..|h| - 1]);
    }
  }

  /**
   * `updateAccount` keeps the balance equal to the narrowed deposit total,
   * whatever the kind: a withdrawal-typed entry changes neither side.
   */
  lemma {:induction false} ApplyUpdateKeepsBalanced(s: AccountState, amount: Long, kind: OperationType, now: Instant)
    requires Balanced(s)
    ensures Balanced(ApplyUpdate(s, amount, kind, now))
  {
    var op := Operation(now, amount, kind);
    DepositTotalAppend(s.history, op);
    if kind == Deposit {
      WrapAdd(DepositTotal(s.history), amount as int);
    }
  }

  /** `makeDeposit` keeps the ledger invariant, whether it accepts or rejects. */
  lemma {:induction false} ApplyDepositKeepsLedger(s: AccountState, amount: Long, now: Instant)
    requires Ledger(s)
    ensures Ledger(ApplyDeposit(s, amount, now).state)
  {
    if amount > 0 {
      ApplyUpdateKeepsBalanced(s, amount, Deposit, now);
    }
  }

  /** Replaying calls appends exactly the recorded operations and leaves earlier entries alone. */
  lemma {:induction false} ReplayHistory(s: AccountState, calls: seq<Call>)
    ensures Replay(s, calls).history == s.history + Recorded(calls)
  {
    if calls != [] {
      ReplayHistory(s, calls[..|calls| - 1]);
    }
  }

  /** The ledger invariant survives any sequence of calls. */
  lemma {:induction false} ReplayKeepsLedger(s: AccountState, calls: seq<Call>)
    requires Ledger(s)
    ensures Ledger(Replay(s, calls))
  {
    if calls != [] {
      var last := calls[|calls| - 1];
      ReplayKeepsLedger(s, calls[..|calls| - 1]);
      ApplyDepositKeepsLedger(Replay(s, calls[..|calls| - 1]), last.amount, last.now);
    }
  }

  /** While the deposit total fits in a `long`, the balance is that total and is not negative. */
  lemma LedgerBalance(s: AccountState)
    requires Ledger(s)
    requires DepositTotal(s.history) <= LONG_MAX
    ensures s.balance as int == DepositTotal(s.history)
    ensures s.balance >= 0
  {
    DepositTotalNonNegative(s.history);
  }

  /**
   * From a fresh account, any sequence of calls leaves exactly the accepted
   * deposits in the history, in call order, and a balance equal to their
   * narrowed total; that balance is the exact total, and not negative,
   * whenever the total fits in a `long`.
   */
  lemma FreshAccountLedger(calls: seq<Call>)
    ensures Replay(Fresh, calls).history == Recorded(calls)
    ensures Replay(Fresh, calls).balance == Wrap(DepositTotal(Recorded(calls)))
    ensures DepositTotal(Recorded(calls)) <= LONG_MAX ==>
              Replay(Fresh, calls).balance as int == DepositTotal(Recorded(calls)) &&
              Replay(Fresh, calls).balance >= 0
  {
    ReplayHistory(Fresh, calls);
    assert Fresh.history + Recorded(calls) == Recorded(calls);
    ReplayKeepsLedger(Fresh, calls);
    if DepositTotal(Recorded(calls)) <= LONG_MAX {
      LedgerBalance(Replay(Fresh, calls));
    }
  }

  /** The recorded deposits of calls with positive amounts add up to the sum of those amounts. */
  lemma {:induction false} RecordedTotal(calls: seq<Call>)
    requires forall j :: 0 <= j < |calls| ==> calls[j].amount > 0
    ensures DepositTotal(Recorded(calls)) == AmountTotal(calls)
  {
    if calls != [] {
      var last := calls[|calls| - 1];
      RecordedTotal(calls[..|calls| - 1]);
      DepositTotalAppend(Recorded(calls[..|calls| - 1]), Operation(last.now, last.amount, Deposit));
    }
  }

  /**
   * Successive deposits of positive amounts from a fresh account: the
   * balance is the sum of the amounts (when it fits in a `long`) and the
   * history lists one deposit per call, in call order.
   */
  lemma SuccessiveDeposits(calls: seq<Call>)
    requires forall j :: 0 <= j < |calls| ==> calls[j].amount > 0
    requires AmountTotal(calls) <= LONG_MAX
    ensures Replay(Fresh, calls).balance as int == AmountTotal(calls)
    ensures |Replay(Fresh, calls).history| == |calls|
    ensures forall i :: 0 <= i < |calls| ==>
              Replay(Fresh, calls).history[i] == Operation(calls[i].now, calls[i].amount, Deposit)
  {
    FreshAccountLedger(calls);
    RecordedTotal(calls);
  }

  /** Every recorded date is a clock reading taken at or after `before` when every call's reading is. */
  lemma {:induction false} RecordedNotBefore(calls: seq<Call>, before: Instant)
    requires forall j :: 0 <= j < |calls| ==> calls[j].now >= before
    ensures forall i :: 0 <= i < |Recorded(calls)| ==> Recorded(calls)[i].date >= before
  {
    if calls != [] {
      RecordedNotBefore(calls[..|calls| - 1], before);
    }
  }

  /** With a clock that never goes back, the recorded history is in date order. */
  lemma {:induction false} RecordedChronological(calls: seq<Call>)
    requires MonotoneClock(calls)
    ensures Chronological(Recorded(calls))
    ensures calls != [] ==> forall i :: 0 <= i < |Recorded(calls)| ==> Recorded(calls)[i].date <= calls[|calls| - 1].now
  {
    if calls != [] {
      var earlier := calls[..|calls| - 1];
      RecordedChronological(earlier);
      if earlier != [] {
        assert earlier[|earlier| - 1] == calls[|calls| - 2];
      }
    }
  }

  /**
   * From a fresh account and a clock that never goes back, every recorded
   * date is at or after any reading `before` taken ahead of the first call,
   * and the history is in date order.
   */
  lemma FreshAccountDates(calls: seq<Call>, before: Instant)
    requires MonotoneClock(calls)
    requires calls != [] ==> before <= calls[0].now
    ensures Chronological(Replay(Fresh, calls).history)
    ensures forall i :: 0 <= i < |Replay(Fresh, calls).history| ==> Replay(Fresh, calls).history[i].date >= before
  {
    FreshAccountLedger(calls);
    RecordedChronological(calls);
    RecordedNotBefore(calls, before);
  }

  /**
   * Why the balance bound needs the total to fit: depositing `Long.MAX_VALUE`
   * and then 1 into a fresh account leaves a negative balance.
   */
  lemma OverflowWrapsNegative(t1: Instant, t2: Instant)
    ensures Replay(Fresh, [Call(LONG_MAX as Long, t1)] + [Call(1, t2)]).balance as int == LONG_MIN
  {
    var first := [Call(LONG_MAX as Long, t1)];
    var calls := first + [Call(1, t2)];
    assert calls[..1] == first && first[..0] == [];
    var s1 := ApplyDeposit(Fresh, LONG_MAX as Long, t1).state;
    assert Replay(Fresh, first) == s1;
    assert s1.balance as int == LONG_MAX;
    assert Replay(Fresh, calls).balance == AddLong(s1.balance, 1);
    assert Wrap(LONG_MAX + 1) as int == LONG_MIN;
  }
}
