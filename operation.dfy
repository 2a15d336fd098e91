/** The `Operation` record of the ledger: when, how much, and which kind. */
module Operations {
  import opened JavaLong

  /** A point in time (`java.time.Instant`), taken as an integer count of time units. */
  type Instant = int

  /** All available operation types; there are exactly two. */
  datatype OperationType = Deposit | Withdrawal

  /**
   * One entry of an account's history. The datatype constructor is the
   * all-args constructor and its destructors are the getters; the Java
   * field `type` is called `kind` here.
   */
  datatype Operation = Operation(date: Instant, amount: Long, kind: OperationType) {

    /** The setter of `date`: a copy that differs at most in `date`. */
    function WithDate(d: Instant): (r: Operation)
      ensures r.date == d && r.amount == amount && r.kind == kind
      ensures r == this <==> d == date
    {
      this.(date := d)
    }

    /** The setter of `amount`: a copy that differs at most in `amount`. */
    function WithAmount(a: Long): (r: Operation)
      ensures r.date == date && r.amount == a && r.kind == kind
      ensures r == this <==> a == amount
    {
      this.(amount := a)
    }

    /** The setter of `type`: a copy that differs at most in `kind`. */
    function WithKind(t: OperationType): (r: Operation)
      ensures r.date == date && r.amount == amount && r.kind == t
      ensures r == this <==> t == kind
    {
      this.(kind := t)
    }

    /** The generated `equals`: field by field, which is exactly value equality. */
    function Equals(other: Operation): (r: bool)
      ensures r <==> this == other
    {
      date == other.date && amount == other.amount && kind == other.kind
    }
  }

  /**
   * `List.equals` over histories: same length and pairwise `Equals`.
   * It holds exactly when the two histories are the same sequence.
   */
  function ListEquals(a: seq<Operation>, b: seq<Operation>): (r: bool)
    ensures r <==> a == b
  {
    if a == [] || b == [] then a == b
    else
      assert a == [a[0]] + a[1..] && b == [b[0]] + b[1..];
      a[0].Equals(b[0]) && ListEquals(a[1..], b[1..])
  }
}
