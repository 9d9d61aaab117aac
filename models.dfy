/**
 * The two ORM records of the fund, `CharityProject` and `Donation`
 * (app/models/charity_project.py, app/models/donation.py).
 *
 * Both share the funding columns `full_amount`, `invested_amount`,
 * `fully_invested` and `close_date`; `Funding` is the value view of those
 * columns, used by the specifications of the investment pass and of the
 * project validators.
 */
module Models {
  import opened Wrappers

  /** An instant read from the clock; the clock itself is a parameter of every operation that reads it. */
  type Time = int

  /** The length of the `name` column of the project table, `String(100)`. */
  const NameMaxLength := 100

  /** A name the `name` column can store: at most `NameMaxLength` characters. */
  predicate NameFitsColumn(name: string) {
    |name| <= NameMaxLength
  }

  /** The funding columns shared by projects and donations. */
  datatype Funding = Funding(fullAmount: int, investedAmount: int, fullyInvested: bool, closeDate: Option<Time>)

  /** What is still missing (project) or still unspent (donation). */
  function Remainder(f: Funding): int {
    f.fullAmount - f.investedAmount
  }

  /** The value effect of assigning `value` to `fully_invested` through the `validate_fully_invested` hook. */
  function AssignFullyInvested(f: Funding, value: bool, now: Time): (r: Funding)
    ensures r.fullAmount == f.fullAmount && r.investedAmount == f.investedAmount
    ensures r.fullyInvested == value
    ensures value ==> r.closeDate == Some(now)
    ensures !value ==> r.closeDate == f.closeDate
  {
    f.(fullyInvested := value, closeDate := if value then Some(now) else f.closeDate)
  }

  /** The two check constraints of each table: a positive target and a non-negative invested amount. */
  predicate SatisfiesChecks(f: Funding)
    ensures SatisfiesChecks(f) ==> Remainder(f) <= f.fullAmount
  {
    f.fullAmount > 0 && f.investedAmount >= 0
  }

  /**
   * The state every record is kept in: the check constraints, never more invested than the target,
   * the flag set exactly when the target is reached, and a closing date exactly when the flag is set.
   */
  predicate Consistent(f: Funding)
    ensures Consistent(f) ==> 0 <= Remainder(f) <= f.fullAmount
    ensures Consistent(f) ==> (f.fullyInvested <==> Remainder(f) == 0)
  {
    && SatisfiesChecks(f)
    && f.investedAmount <= f.fullAmount
    && (f.fullyInvested <==> f.investedAmount == f.fullAmount)
    && (f.fullyInvested <==> f.closeDate.Some?)
  }

  /** The funding columns of a freshly inserted record: the column defaults. */
  function Opened(fullAmount: int): Funding {
    Funding(fullAmount, 0, false, None)
  }

  /** A record inserted with a positive target satisfies the checks and is in the consistent state. */
  lemma OpenedIsConsistent(fullAmount: int)
    requires fullAmount > 0
    ensures Consistent(Opened(fullAmount)) && Remainder(Opened(fullAmount)) == fullAmount
  {
  }

  /** Assigning the flag its consistent value (True exactly when the target is reached) keeps the record consistent. */
  lemma AssignKeepsConsistent(f: Funding, value: bool, now: Time)
    requires Consistent(f)
    requires value <==> f.investedAmount == f.fullAmount
    ensures Consistent(AssignFullyInvested(f, value, now))
  {
  }

  /** The sum of the invested amounts of a table. */
  function TotalInvested(table: seq<Funding>): int {
    if table == [] then 0 else TotalInvested(table[..|table| - 1]) + table[|table| - 1].investedAmount
  }

  /** Replacing one row changes the total by the difference of the two invested amounts. */
  lemma {:induction false} TotalInvestedUpdate(table: seq<Funding>, j: nat, f: Funding)
    requires j < |table|
    ensures TotalInvested(table[j := f]) == TotalInvested(table) - table[j].investedAmount + f.investedAmount
    decreases |table|
  {
    var n := |table| - 1;
    if j < n {
      TotalInvestedUpdate(table[..n], j, f);
      assert table[j := f][..n] == table[..n][j := f];
    } else {
      assert table[j := f][..n] == table[..n];
    }
  }

  /** The invested total of a concatenation is the sum of the totals. */
  lemma {:induction false} TotalInvestedConcat(a: seq<Funding>, b: seq<Funding>)
    ensures TotalInvested(a + b) == TotalInvested(a) + TotalInvested(b)
    decreases |b|
  {
    if b == [] {
      assert a + b == a;
    } else {
      var n := |b| - 1;
      TotalInvestedConcat(a, b[..n]);
      assert (a + b)[..|a + b| - 1] == a + b[..n];
    }
  }

  /** A charity project row. */
  class CharityProject {
    var id: int
    var name: string
    var description: string
    var fullAmount: int
    var investedAmount: int
    var fullyInvested: bool
    var createDate: Time
    var closeDate: Option<Time>

    /** A project as inserted: the column defaults for the funding columns and `create_date` from the clock. */
    constructor (id: int, name: string, description: string, fullAmount: int, now: Time)
      ensures this.id == id && this.name == name && this.description == description
      ensures View() == Opened(fullAmount) && createDate == now
    {
      this.id := id;
      this.name := name;
      this.description := description;
      this.fullAmount := fullAmount;
      investedAmount := 0;
      fullyInvested := false;
      createDate := now;
      closeDate := None;
    }

    /** The funding columns of this row. */
    function View(): Funding
      reads this
    {
      Funding(fullAmount, investedAmount, fullyInvested, closeDate)
    }

    /** Assignment to `fully_invested` through the `validate_fully_invested` hook. */
    method SetFullyInvested(value: bool, now: Time)
      modifies this`fullyInvested, this`closeDate
      ensures fullyInvested == value
      ensures closeDate == if value then Some(now) else old(closeDate)
      ensures View() == AssignFullyInvested(old(View()), value, now)
    {
      if value {
        closeDate := Some(now);
      }
      fullyInvested := value;
    }
  }

  /** A donation row. */
  class Donation {
    var id: int
    var userId: int
    var comment: Option<string>
    var fullAmount: int
    var investedAmount: int
    var fullyInvested: bool
    var createDate: Time
    var closeDate: Option<Time>

    /** A donation as inserted: the column defaults for the funding columns and `create_date` from the clock. */
    constructor (id: int, userId: int, comment: Option<string>, fullAmount: int, now: Time)
      ensures this.id == id && this.userId == userId && this.comment == comment
      ensures View() == Opened(fullAmount) && createDate == now
    {
      this.id := id;
      this.userId := userId;
      this.comment := comment;
      this.fullAmount := fullAmount;
      investedAmount := 0;
      fullyInvested := false;
      createDate := now;
      closeDate := None;
    }

    /** The funding columns of this row. */
    function View(): Funding
      reads this
    {
      Funding(fullAmount, investedAmount, fullyInvested, closeDate)
    }

    /** Assignment to `fully_invested` through the `validate_fully_invested` hook. */
    method SetFullyInvested(value: bool, now: Time)
      modifies this`fullyInvested, this`closeDate
      ensures fullyInvested == value
      ensures closeDate == if value then Some(now) else old(closeDate)
      ensures View() == AssignFullyInvested(old(View()), value, now)
    {
      if value {
        closeDate := Some(now);
      }
      fullyInvested := value;
    }
  }

  /** The funding columns of every row of a project table, in table order. */
  function ProjectViews(table: seq<CharityProject>): (views: seq<Funding>)
    reads table
    ensures |views| == |table|
    ensures forall j :: 0 <= j < |table| ==> views[j] == table[j].View()
  {
    if table == [] then [] else ProjectViews(table[..|table| - 1]) + [table[|table| - 1].View()]
  }

  /**
   * The funding columns of every row of a donation table, in table order.
   * `Donation` and `CharityProject` share no supertype, so this repeats `ProjectViews` for the other class.
   */
  function DonationViews(table: seq<Donation>): (views: seq<Funding>)
    reads table
    ensures |views| == |table|
    ensures forall j :: 0 <= j < |table| ==> views[j] == table[j].View()
  {
    if table == [] then [] else DonationViews(table[..|table| - 1]) + [table[|table| - 1].View()]
  }

  /** A table holds each row object once (the session's identity map). */
  predicate Distinct<T(==)>(table: seq<T>) {
    forall j, k :: 0 <= j < k < |table| ==> table[j] != table[k]
  }
}
