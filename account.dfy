/** The account state and the holder of its single, lazily created instance. */
module Accounts {
  import opened JavaLong
  import opened Operations

  /** The value of an account: what its generated `equals` compares. */
  datatype AccountState = AccountState(balance: Long, history: seq<Operation>)

  /** The state of a newly constructed account: balance 0, empty history. */
  const Fresh: AccountState := AccountState(0, [])

  /** The account: a `long` balance and a history list that grows in place. */
  class Account {
    var balance: Long
    var history: seq<Operation>

    /** The (private) constructor: field initialisers give balance 0 and an empty list. */
    constructor ()
      ensures State() == Fresh
    {
      balance := 0;
      history := [];
    }

    /** The account's current value. */
    function State(): AccountState
      reads this
    {
      AccountState(balance, history)
    }

    /** The generated setter of `balance`; the history is left as it was. */
    method SetBalance(b: Long)
      modifies this`balance
      ensures State() == old(State()).(balance := b)
    {
      balance := b;
    }

    /** The generated setter of `history`; the balance is left as it was. */
    method SetHistory(h: seq<Operation>)
      modifies this`history
      ensures State() == old(State()).(history := h)
    {
      history := h;
    }

    /** `getHistory().add(op)`: the history gains one entry at its end; the balance is left as it was. */
    method AddToHistory(op: Operation)
      modifies this`history
      ensures State() == old(State()).(history := old(history) + [op])
    {
      history := history + [op];
    }

    /** The generated `equals`: equal balances and equal histories. */
    function Equals(other: Account): (r: bool)
      reads this, other
      ensures r <==> State() == other.State()
    {
      balance == other.balance && ListEquals(history, other.history)
    }
  }

  /**
   * The static field that holds the unique account. It is `null` until the
   * first `GetInstance`; the service reaches the account only through it.
   */
  class AccountHolder {
    var uniqueInstance: Account?

    /** Class initialisation: no instance exists yet. */
    constructor ()
      ensures uniqueInstance == null
    {
      uniqueInstance := null;
    }

    /** The account's value as a caller of `GetInstance` would find it. */
    function State(): AccountState
      reads this, uniqueInstance
    {
      if uniqueInstance == null then Fresh else uniqueInstance.State()
    }

    /**
     * The lazy singleton: creates the account on the first call only and
     * returns that same object on every call.
     */
    method GetInstance() returns (a: Account)
      modifies this
      ensures uniqueInstance == a
      ensures old(uniqueInstance) != null ==> a == old(uniqueInstance)
      ensures old(uniqueInstance) == null ==> fresh(a)
      ensures State() == old(State())
    {
      if uniqueInstance == null {
        uniqueInstance := new Account();
      }
      a := uniqueInstance;
    }
  }

  /** Two calls of `GetInstance` in a row give the same object, and the second creates nothing. */
  method GetInstanceTwice(holder: AccountHolder) returns (first: Account, second: Account)
    modifies holder
    ensures first == second && holder.uniqueInstance == first
    ensures old(holder.uniqueInstance) != null ==> first == old(holder.uniqueInstance)
    ensures old(holder.uniqueInstance) == null ==> fresh(first)
    ensures holder.State() == old(holder.State())
  {
    first := holder.GetInstance();
    second := holder.GetInstance();
  }
}
