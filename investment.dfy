/**
 * The investment pass of app/services/investment.py: after each project or
 * donation is created, donations that are not fully invested are moved into
 * projects that are not fully invested.
 *
 * The pass reads the donations through a result cursor whose fetch call,
 * `first()`, is SQLAlchemy's `Result.first()`: it returns the first row (or
 * None) and closes the result. `FetchContract` names that contract
 * (`FirstCloses`) beside the "next row" reading of the same call that the
 * shape of the loop suggests (`FetchNext`), so that the loop is modelled
 * line by line and the difference between the two readings is a theorem.
 *
 * `Investment` works on the row objects; its postcondition ties the new
 * rows to `Run`, a state machine over `Funding` values whose functions
 * mirror the loops: `Outer` the `for` over projects, `Inner` the `while`,
 * `Advance` the test after the `while`.
 */
module Investment {
  import opened Wrappers
  import opened Models

  /** How the cursor's fetch call behaves. */
  datatype FetchContract =
    | FirstCloses   // returns the first remaining row or None, then closes the result and discards the rest
    | FetchNext     // returns the next row; returns None and closes once no row is left

  /** The cursor as a position in the loaded rows and the `closed` flag. */
  datatype CursorState = CursorState(next: nat, closed: bool)

  /** One fetch from a cursor over `count` rows: the position of the row returned, if any, and the new cursor. */
  function Fetch(c: CursorState, count: nat, contract: FetchContract): (r: (Option<nat>, CursorState))
    requires c.next <= count
    ensures r.1.next <= count
    ensures r.0 == (if c.next < count then Some(c.next) else None)
    ensures contract == FirstCloses ==> r.1.closed
    ensures contract == FetchNext ==> (r.1.closed <==> c.closed || c.next == count)
  {
    match contract
    case FirstCloses => (if c.next < count then Some(c.next) else None, CursorState(count, true))
    case FetchNext =>
      if c.next < count then (Some(c.next), CursorState(c.next + 1, c.closed))
      else (None, CursorState(c.next, true))
  }

  /** The donation cursor of the pass: the rows the query returned and what is left of them. */
  class DonationCursor {
    const contract: FetchContract
    const loaded: seq<Donation>
    var rows: seq<Donation>
    var closed: bool
    ghost var next: nat

    ghost predicate Valid()
      reads this
    {
      next <= |loaded| && rows == loaded[next..]
    }

    ghost function State(): CursorState
      reads this
    {
      CursorState(next, closed)
    }

    constructor (loaded: seq<Donation>, contract: FetchContract)
      ensures Valid() && this.loaded == loaded && this.contract == contract
      ensures State() == CursorState(0, false)
    {
      this.contract := contract;
      this.loaded := loaded;
      rows := loaded;
      closed := false;
      next := 0;
    }

    /** `first()`: a closed result cannot be fetched from. */
    method First() returns (d: Option<Donation>)
      requires Valid() && !closed
      modifies this
      ensures Valid()
      ensures State() == Fetch(old(State()), |loaded|, contract).1
      ensures d == match Fetch(old(State()), |loaded|, contract).0
                   case Some(k) => Some(loaded[k])
                   case None => None
    {
      d := if rows == [] then None else Some(rows[0]);
      match contract {
        case FirstCloses =>
          rows, next, closed := [], |loaded|, true;
        case FetchNext =>
          if rows == [] {
            closed := true;
          } else {
            rows, next := rows[1..], next + 1;
          }
      }
    }
  }

  /**
   * The positions, in table order, of the rows whose `fully_invested` is False:
   * the rows `select(...).where(... fully_invested.is_(False))` returns.
   */
  function SelectUnfunded(table: seq<Funding>): (ix: seq<nat>)
    ensures forall k :: 0 <= k < |ix| ==> ix[k] < |table| && !table[ix[k]].fullyInvested
  {
    if table == [] then []
    else
      var rest := SelectUnfunded(table[..|table| - 1]);
      if table[|table| - 1].fullyInvested then rest else rest + [|table| - 1]
  }

  /** The selection holds every unfunded row exactly once, in table order. */
  lemma {:induction false} SelectUnfundedComplete(table: seq<Funding>)
    ensures forall j :: 0 <= j < |table| && !table[j].fullyInvested ==> j in SelectUnfunded(table)
    ensures forall k, l :: 0 <= k < l < |SelectUnfunded(table)| ==> SelectUnfunded(table)[k] < SelectUnfunded(table)[l]
  {
    if table != [] {
      var init := table[..|table| - 1];
      SelectUnfundedComplete(init);
      forall j | 0 <= j < |table| - 1 && !table[j].fullyInvested
        ensures j in SelectUnfunded(table)
      {
        assert init[j] == table[j];
      }
    }
  }

  /** The rows of `table` at the positions `ix`. */
  function Pick<T>(table: seq<T>, ix: seq<nat>): (rows: seq<T>)
    requires forall k :: 0 <= k < |ix| ==> ix[k] < |table|
    ensures |rows| == |ix| && forall k :: 0 <= k < |ix| ==> rows[k] == table[ix[k]]
  {
    if ix == [] then [] else [table[ix[0]]] + Pick(table, ix[1..])
  }

  /** The smaller of two amounts. */
  function Min(a: int, b: int): int {
    if a <= b then a else b
  }

  /**
   * One transfer (lines 22-35) between project `p` and donation `d`, where
   * `projectAmount` is the project's remainder as computed at line 17:
   * both rows gain the smaller of `projectAmount` and the donation's
   * remainder, and exactly the sides that amount uses up are flagged and
   * stamped with the clock.
   */
  function Transfer(p: Funding, d: Funding, projectAmount: int, now: Time): (r: (Funding, Funding))
    ensures r.0.fullAmount == p.fullAmount && r.1.fullAmount == d.fullAmount
    ensures r.0.investedAmount - p.investedAmount == Min(projectAmount, Remainder(d))
    ensures r.1.investedAmount - d.investedAmount == Min(projectAmount, Remainder(d))
    ensures r.0.fullyInvested <==> p.fullyInvested || projectAmount <= Remainder(d)
    ensures r.1.fullyInvested <==> d.fullyInvested || projectAmount >= Remainder(d)
    ensures r.0.closeDate == if projectAmount <= Remainder(d) then Some(now) else p.closeDate
    ensures r.1.closeDate == if projectAmount >= Remainder(d) then Some(now) else d.closeDate
  {
    var donationAmount := Remainder(d);
    if projectAmount > donationAmount then
      (p.(investedAmount := p.investedAmount + donationAmount),
       AssignFullyInvested(d.(investedAmount := d.investedAmount + donationAmount), true, now))
    else if projectAmount == donationAmount then
      (AssignFullyInvested(p.(investedAmount := p.investedAmount + donationAmount), true, now),
       AssignFullyInvested(d.(investedAmount := d.investedAmount + donationAmount), true, now))
    else
      (AssignFullyInvested(p.(investedAmount := p.investedAmount + projectAmount), true, now),
       d.(investedAmount := d.investedAmount + projectAmount))
  }

  /**
   * The state of the pass: both tables, the position `current` of the
   * project the `for` loop is at (among the unfunded ones), and the cursor.
   */
  datatype PassState = PassState(projects: seq<Funding>, donations: seq<Funding>, current: nat, cursor: CursorState)

  /** The pass's fixed inputs: the unfunded positions in each table, the fetch contract and the clock. */
  datatype Loaded = Loaded(pix: seq<nat>, dix: seq<nat>, contract: FetchContract, now: Time)

  /** Every position in `ix` is below `n`. */
  predicate Within(ix: seq<nat>, n: nat) {
    forall k :: 0 <= k < |ix| ==> ix[k] < n
  }

  /** `s` is a state of a pass over `q`. */
  ghost predicate Fits(s: PassState, q: Loaded) {
    && Within(q.pix, |s.projects|) && Within(q.dix, |s.donations|)
    && s.current <= |q.pix|
    && s.cursor.next <= |q.dix|
  }

  /** The `while not project.fully_invested` loop (lines 19-38) with the donation fetched last. */
  ghost function Inner(s: PassState, q: Loaded, projectAmount: int, donation: Option<nat>): (r: PassState)
    requires Fits(s, q) && s.current < |q.pix|
    requires donation.Some? ==> donation.value < |q.dix|
    ensures |r.projects| == |s.projects| && |r.donations| == |s.donations|
    ensures r.current == s.current && r.cursor.next <= |q.dix|
    decreases |q.dix| - s.cursor.next + (if s.cursor.closed then 0 else 1)
  {
    var pj := q.pix[s.current];
    if s.projects[pj].fullyInvested then s
    else if donation.None? then s
    else
      var dj := q.dix[donation.value];
      var (p, d) := Transfer(s.projects[pj], s.donations[dj], projectAmount, q.now);
      var t := s.(projects := s.projects[pj := p], donations := s.donations[dj := d]);
      if t.cursor.closed then t
      else
        var (fetched, c) := Fetch(t.cursor, |q.dix|, q.contract);
        Inner(t.(cursor := c), q, projectAmount, fetched)
  }

  /** The `for` loop over the unfunded projects (lines 16-40), at a project boundary. */
  ghost function Outer(s: PassState, q: Loaded): (r: PassState)
    requires Fits(s, q) && !s.cursor.closed
    ensures |r.projects| == |s.projects| && |r.donations| == |s.donations|
    decreases |q.pix| - s.current, 1
  {
    if s.current == |q.pix| then s
    else
      var projectAmount := Remainder(s.projects[q.pix[s.current]]);
      var (donation, c) := Fetch(s.cursor, |q.dix|, q.contract);
      Advance(Inner(s.(cursor := c), q, projectAmount, donation), q)
  }

  /** After the `while`: `if donations.closed: break` (lines 39-40), else the next project. */
  ghost function Advance(t: PassState, q: Loaded): (r: PassState)
    requires Fits(t, q) && t.current < |q.pix|
    ensures |r.projects| == |t.projects| && |r.donations| == |t.donations|
    decreases |q.pix| - t.current, 0
  {
    if t.cursor.closed then t else Outer(t.(current := t.current + 1), q)
  }

  /** With every project visited, the pass is over. */
  lemma OuterDone(s: PassState, q: Loaded)
    requires Fits(s, q) && !s.cursor.closed && s.current == |q.pix|
    ensures Outer(s, q) == s
  {
  }

  /** The positions the pass loads from the two tables. */
  function Load(projects: seq<Funding>, donations: seq<Funding>, contract: FetchContract, now: Time): (q: Loaded)
    ensures q.contract == contract && q.now == now
    ensures forall k :: 0 <= k < |q.pix| ==> q.pix[k] < |projects| && !projects[q.pix[k]].fullyInvested
    ensures forall k :: 0 <= k < |q.dix| ==> q.dix[k] < |donations| && !donations[q.dix[k]].fullyInvested
  {
    Loaded(SelectUnfunded(projects), SelectUnfunded(donations), contract, now)
  }

  /** The state the pass starts in. */
  function Start(projects: seq<Funding>, donations: seq<Funding>): PassState {
    PassState(projects, donations, 0, CursorState(0, false))
  }

  /** The whole pass over two tables. */
  ghost function Run(projects: seq<Funding>, donations: seq<Funding>, contract: FetchContract, now: Time): (r: PassState)
    ensures |r.projects| == |projects| && |r.donations| == |donations|
  {
    Outer(Start(projects, donations), Load(projects, donations, contract, now))
  }

  /** Lines 22-35: one transfer between two rows, with the project remainder computed at line 17. */
  method MoveFunds(project: CharityProject, donation: Donation, projectAmount: int, now: Time)
    modifies project`investedAmount, project`fullyInvested, project`closeDate
    modifies donation`investedAmount, donation`fullyInvested, donation`closeDate
    ensures (project.View(), donation.View()) == Transfer(old(project.View()), old(donation.View()), projectAmount, now)
  {
    var donationAmount := donation.fullAmount - donation.investedAmount;
    if projectAmount > donationAmount {
      project.investedAmount := project.investedAmount + donationAmount;
      donation.investedAmount := donation.investedAmount + donationAmount;
      donation.SetFullyInvested(true, now);
    } else if projectAmount == donationAmount {
      project.investedAmount := project.investedAmount + donationAmount;
      donation.investedAmount := donation.investedAmount + donationAmount;
      project.SetFullyInvested(true, now);
      donation.SetFullyInvested(true, now);
    } else {
      project.investedAmount := project.investedAmount + projectAmount;
      donation.investedAmount := donation.investedAmount + projectAmount;
      project.SetFullyInvested(true, now);
    }
  }

  /** The rows of both tables have the values of state `s`. */
  ghost predicate Mirrors(projectTable: seq<CharityProject>, donationTable: seq<Donation>, s: PassState)
    reads projectTable, donationTable
  {
    && |s.projects| == |projectTable| && |s.donations| == |donationTable|
    && (forall j {:trigger projectTable[j]} :: 0 <= j < |projectTable| ==> projectTable[j].View() == s.projects[j])
    && (forall j {:trigger donationTable[j]} :: 0 <= j < |donationTable| ==> donationTable[j].View() == s.donations[j])
  }

  /** `MoveFunds` on the rows at positions `pj` and `dj` of the tables, with the state `s` they mirror. */
  method MoveFundsAt(projectTable: seq<CharityProject>, donationTable: seq<Donation>,
                     project: CharityProject, donation: Donation, projectAmount: int, now: Time,
                     ghost s: PassState, ghost pj: nat, ghost dj: nat)
    returns (ghost t: PassState)
    requires Distinct(projectTable) && Distinct(donationTable) && Mirrors(projectTable, donationTable, s)
    requires pj < |projectTable| && projectTable[pj] == project
    requires dj < |donationTable| && donationTable[dj] == donation
    modifies project`investedAmount, project`fullyInvested, project`closeDate
    modifies donation`investedAmount, donation`fullyInvested, donation`closeDate
    ensures t == (var (p, d) := Transfer(s.projects[pj], s.donations[dj], projectAmount, now);
                  s.(projects := s.projects[pj := p], donations := s.donations[dj := d]))
    ensures Mirrors(projectTable, donationTable, t)
  {
    MoveFunds(project, donation, projectAmount, now);
    t := s.(projects := s.projects[pj := project.View()], donations := s.donations[dj := donation.View()]);
  }

  /** The heap rows mirror `s`, and `donations` is the cursor over the loaded donation rows in state `s.cursor`. */
  ghost predicate Ready(projectTable: seq<CharityProject>, donationTable: seq<Donation>, donations: DonationCursor,
                        q: Loaded, s: PassState)
    reads projectTable, donationTable, donations
  {
    && Distinct(projectTable) && Distinct(donationTable)
    && Fits(s, q) && Mirrors(projectTable, donationTable, s)
    && donations.Valid() && donations.loaded == Pick(donationTable, q.dix) && donations.contract == q.contract
    && donations.State() == s.cursor
  }

  /** `donation` is the row fetched at position `at` of the loaded donations, or none. */
  ghost predicate Holds(donationTable: seq<Donation>, q: Loaded, donation: Option<Donation>, at: Option<nat>) {
    && (at.Some? ==> at.value < |q.dix| && q.dix[at.value] < |donationTable|)
    && donation == match at case Some(k) => Some(donationTable[q.dix[k]]) case None => None
  }

  /** One unfolding of `Inner` at a fetched donation `k` while the project is open. */
  lemma InnerTransfers(s: PassState, q: Loaded, projectAmount: int, k: nat)
    requires Fits(s, q) && s.current < |q.pix| && k < |q.dix|
    requires !s.projects[q.pix[s.current]].fullyInvested
    ensures var pj, dj := q.pix[s.current], q.dix[k];
            var (p, d) := Transfer(s.projects[pj], s.donations[dj], projectAmount, q.now);
            var t := s.(projects := s.projects[pj := p], donations := s.donations[dj := d]);
            && (t.cursor.closed ==> Inner(s, q, projectAmount, Some(k)) == t)
            && (!t.cursor.closed ==>
                  Inner(s, q, projectAmount, Some(k))
                  == Inner(t.(cursor := Fetch(t.cursor, |q.dix|, q.contract).1), q, projectAmount, Fetch(t.cursor, |q.dix|, q.contract).0))
  {
  }

  /** Lines 22-35 inside the `while` loop, as one step of `Inner`. */
  method TransferAt(projectTable: seq<CharityProject>, donationTable: seq<Donation>, donations: DonationCursor,
                    project: CharityProject, donation: Donation, projectAmount: int, now: Time,
                    ghost q: Loaded, ghost s: PassState, ghost k: nat)
    returns (ghost t: PassState)
    requires Ready(projectTable, donationTable, donations, q, s) && q.now == now
    requires s.current < |q.pix| && k < |q.dix|
    requires project == projectTable[q.pix[s.current]] && donation == donationTable[q.dix[k]]
    requires !project.fullyInvested
    modifies project`investedAmount, project`fullyInvested, project`closeDate
    modifies donation`investedAmount, donation`fullyInvested, donation`closeDate
    ensures Ready(projectTable, donationTable, donations, q, t) && t.current == s.current
    ensures t.cursor.closed ==> Inner(s, q, projectAmount, Some(k)) == t
    ensures !t.cursor.closed ==>
              Inner(s, q, projectAmount, Some(k))
              == Inner(t.(cursor := Fetch(t.cursor, |q.dix|, q.contract).1), q, projectAmount, Fetch(t.cursor, |q.dix|, q.contract).0)
  {
    InnerTransfers(s, q, projectAmount, k);
    t := MoveFundsAt(projectTable, donationTable, project, donation, projectAmount, now, s, q.pix[s.current], q.dix[k]);
  }

  /** `donations.first()` (lines 18 and 38), with the position of the row it returns. */
  method FetchAt(projectTable: seq<CharityProject>, donationTable: seq<Donation>, donations: DonationCursor,
                 ghost q: Loaded, ghost s: PassState)
    returns (donation: Option<Donation>, ghost at: Option<nat>, ghost t: PassState)
    requires Ready(projectTable, donationTable, donations, q, s) && !donations.closed
    modifies donations
    ensures t == s.(cursor := Fetch(s.cursor, |q.dix|, q.contract).1) && at == Fetch(s.cursor, |q.dix|, q.contract).0
    ensures Ready(projectTable, donationTable, donations, q, t) && Holds(donationTable, q, donation, at)
  {
    donation := donations.First();
    at, t := Fetch(s.cursor, |q.dix|, q.contract).0, s.(cursor := donations.State());
  }

  /**
   * Lines 19-38, the `while` loop, entered with `donation` fetched as the
   * row at position `at0` of the loaded donations (or none).
   */
  method InvestWhile(projectTable: seq<CharityProject>, donationTable: seq<Donation>, donations: DonationCursor,
                     project: CharityProject, projectAmount: int, donation: Option<Donation>, now: Time,
                     ghost q: Loaded, ghost s0: PassState, ghost at0: Option<nat>)
    returns (ghost s: PassState)
    requires Ready(projectTable, donationTable, donations, q, s0) && q.now == now && s0.current < |q.pix|
    requires project == projectTable[q.pix[s0.current]]
    requires Holds(donationTable, q, donation, at0)
    modifies projectTable`investedAmount, projectTable`fullyInvested, projectTable`closeDate
    modifies donationTable`investedAmount, donationTable`fullyInvested, donationTable`closeDate
    modifies donations
    ensures s == Inner(s0, q, projectAmount, at0)
    ensures Ready(projectTable, donationTable, donations, q, s)
  {
    var donation := donation;
    ghost var at: Option<nat> := at0;
    s := s0;
    while !project.fullyInvested
      invariant Ready(projectTable, donationTable, donations, q, s) && s.current == s0.current
      invariant Holds(donationTable, q, donation, at)
      invariant Inner(s, q, projectAmount, at) == Inner(s0, q, projectAmount, at0)
      decreases |q.dix| - s.cursor.next + (if s.cursor.closed then 0 else 1)
    {
      if donation == None {
        break;
      }
      s := TransferAt(projectTable, donationTable, donations, project, donation.value, projectAmount, now, q, s, at.value);
      if donations.closed {
        break;
      }
      donation, at, s := FetchAt(projectTable, donationTable, donations, q, s);
    }
  }

  /** How one turn of the `for` loop continues the pass. */
  lemma TurnContinues(s: PassState, q: Loaded, t: PassState)
    requires Fits(s, q) && !s.cursor.closed && s.current < |q.pix|
    requires t == Inner(s.(cursor := Fetch(s.cursor, |q.dix|, q.contract).1), q,
                        Remainder(s.projects[q.pix[s.current]]), Fetch(s.cursor, |q.dix|, q.contract).0)
    ensures Fits(t, q) && t.current == s.current
    ensures t.cursor.closed ==> Outer(s, q) == t
    ensures !t.cursor.closed ==> Outer(s, q) == Outer(t.(current := t.current + 1), q)
  {
    assert Outer(s, q) == Advance(t, q);
  }

  lemma RunIsOuter(projects: seq<Funding>, donations: seq<Funding>, contract: FetchContract, now: Time)
    ensures Run(projects, donations, contract, now) == Outer(Start(projects, donations), Load(projects, donations, contract, now))
  {
  }

  lemma StartMirrors(projectTable: seq<CharityProject>, donationTable: seq<Donation>)
    ensures Mirrors(projectTable, donationTable, Start(ProjectViews(projectTable), DonationViews(donationTable)))
  {
  }

  lemma MirrorsViews(projectTable: seq<CharityProject>, donationTable: seq<Donation>, s: PassState)
    requires Mirrors(projectTable, donationTable, s)
    ensures ProjectViews(projectTable) == s.projects && DonationViews(donationTable) == s.donations
  {
  }

  /**
   * Lines 17-38, one turn of the `for` loop: the remainder of project
   * `project` (line 17), the fetch at line 18, then the `while` loop.
   */
  method InvestTurn(projectTable: seq<CharityProject>, donationTable: seq<Donation>, donations: DonationCursor,
                    project: CharityProject, now: Time, ghost q: Loaded, ghost s0: PassState)
    returns (ghost s: PassState)
    requires Ready(projectTable, donationTable, donations, q, s0) && q.now == now
    requires s0.current < |q.pix| && project == projectTable[q.pix[s0.current]] && !donations.closed
    modifies projectTable`investedAmount, projectTable`fullyInvested, projectTable`closeDate
    modifies donationTable`investedAmount, donationTable`fullyInvested, donationTable`closeDate
    modifies donations
    ensures Ready(projectTable, donationTable, donations, q, s)
    ensures s.cursor.closed ==> Outer(s0, q) == s
    ensures !s.cursor.closed ==> Outer(s0, q) == Outer(s, q) && s.current == s0.current + 1
  {
    var projectAmount := project.fullAmount - project.investedAmount;
    var donation, at, s1 := FetchAt(projectTable, donationTable, donations, q, s0);
    assert projectAmount == Remainder(s0.projects[q.pix[s0.current]]);
    s := InvestWhile(projectTable, donationTable, donations, project, projectAmount, donation, now, q, s1, at);
    TurnContinues(s0, q, s);
    if !donations.closed {
      s := s.(current := s.current + 1);
    }
  }

  /** Lines 16-40, the `for` loop over the loaded projects, from the first. */
  method InvestFor(projectTable: seq<CharityProject>, donationTable: seq<Donation>, donations: DonationCursor,
                   pix: seq<nat>, now: Time, ghost q: Loaded, ghost s0: PassState)
    returns (ghost s: PassState)
    requires Ready(projectTable, donationTable, donations, q, s0) && q.now == now && q.pix == pix
    requires s0.current == 0 && !donations.closed
    modifies projectTable`investedAmount, projectTable`fullyInvested, projectTable`closeDate
    modifies donationTable`investedAmount, donationTable`fullyInvested, donationTable`closeDate
    modifies donations
    ensures s == Outer(s0, q)
    ensures Mirrors(projectTable, donationTable, s)
    ensures unchanged(projectTable`id)
    ensures unchanged(projectTable`name)
    ensures unchanged(projectTable`description)
    ensures unchanged(projectTable`createDate)
    ensures unchanged(donationTable`id)
    ensures unchanged(donationTable`userId)
    ensures unchanged(donationTable`comment)
    ensures unchanged(donationTable`createDate)
  {
    s := s0;
    var i := 0;
    while i < |pix|
      invariant Ready(projectTable, donationTable, donations, q, s) && s.current == i && !donations.closed
      invariant Outer(s, q) == Outer(s0, q)
      decreases |pix| - i
    {
      s := InvestTurn(projectTable, donationTable, donations, projectTable[pix[i]], now, q, s);
      if donations.closed {
        break;
      }
      i := i + 1;
    }
    if !donations.closed {
      OuterDone(s, q);
    }
  }

  /**
   * `investment(session)`: the tables are the rows of the session, each row
   * object once; the rows change as `Run` says.
   */
  method Invest(projectTable: seq<CharityProject>, donationTable: seq<Donation>, contract: FetchContract, now: Time)
    requires Distinct(projectTable) && Distinct(donationTable)
    modifies projectTable`investedAmount, projectTable`fullyInvested, projectTable`closeDate
    modifies donationTable`investedAmount, donationTable`fullyInvested, donationTable`closeDate
    ensures ProjectViews(projectTable) == Run(old(ProjectViews(projectTable)), old(DonationViews(donationTable)), contract, now).projects
    ensures DonationViews(donationTable) == Run(old(ProjectViews(projectTable)), old(DonationViews(donationTable)), contract, now).donations
    ensures unchanged(projectTable`id)
    ensures unchanged(projectTable`name)
    ensures unchanged(projectTable`description)
    ensures unchanged(projectTable`createDate)
    ensures unchanged(donationTable`id)
    ensures unchanged(donationTable`userId)
    ensures unchanged(donationTable`comment)
    ensures unchanged(donationTable`createDate)
  {
    var dix := SelectUnfunded(DonationViews(donationTable));
    var pix := SelectUnfunded(ProjectViews(projectTable));
    var donations := new DonationCursor(Pick(donationTable, dix), contract);
    ghost var ps0, ds0 := ProjectViews(projectTable), DonationViews(donationTable);
    ghost var q := Load(ps0, ds0, contract, now);
    StartMirrors(projectTable, donationTable);
    ghost var s := InvestFor(projectTable, donationTable, donations, pix, now, q, Start(ps0, ds0));
    RunIsOuter(ps0, ds0, contract, now);
    MirrorsViews(projectTable, donationTable, s);
  }
}
