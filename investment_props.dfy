/**
 * What the investment pass of app/services/investment.py does to the two
 * tables, proved about the specification `Investment.Run`.
 *
 * Under the cursor contract the code actually runs with (`FirstCloses`,
 * SQLAlchemy's `Result.first()`), a pass is a single transfer between the
 * first unfunded project and the first unfunded donation (`OneTransfer`).
 * Under any contract, rows that were fully invested when the pass loaded
 * the tables are left alone and money is conserved. Under the "next row"
 * reading (`FetchNext`) the remainder computed once per project is stale
 * and a project can be funded past its target.
 */
module InvestmentProperties {
  import opened Wrappers
  import opened Models
  import opened Investment

  // ---------------------------------------------------------------------
  // One transfer
  // ---------------------------------------------------------------------

  /**
   * Lines 22-35: with the project's fresh remainder, a transfer moves the
   * smaller of the two remainders, adds the same amount to both rows and
   * changes no target.
   */
  lemma TransferMovesMinimum(p: Funding, d: Funding, now: Time)
    ensures var (p', d') := Transfer(p, d, Remainder(p), now);
            && p'.fullAmount == p.fullAmount && d'.fullAmount == d.fullAmount
            && p'.investedAmount - p.investedAmount == Min(Remainder(p), Remainder(d))
            && d'.investedAmount - d.investedAmount == Min(Remainder(p), Remainder(d))
  {
  }

  /**
   * Lines 23-35: the side whose remainder is used up is flagged, with the
   * closing date from the clock: the donation when the project needs at
   * least as much as the donation holds, the project when it needs at most
   * that much, both on equality. Consistent open rows stay consistent.
   */
  lemma TransferFlagsExhaustedSides(p: Funding, d: Funding, now: Time)
    requires Consistent(p) && Consistent(d) && !p.fullyInvested && !d.fullyInvested
    ensures var (p', d') := Transfer(p, d, Remainder(p), now);
            && (p'.fullyInvested <==> Remainder(p) <= Remainder(d))
            && (d'.fullyInvested <==> Remainder(p) >= Remainder(d))
            && (p'.fullyInvested ==> p'.closeDate == Some(now))
            && (d'.fullyInvested ==> d'.closeDate == Some(now))
            && Consistent(p') && Consistent(d')
            && p'.investedAmount > p.investedAmount && d'.investedAmount > d.investedAmount
  {
  }

  // ---------------------------------------------------------------------
  // The pass under SQLAlchemy's contract: one transfer
  // ---------------------------------------------------------------------

  /** The position of the first row whose `fully_invested` is False, if any. */
  function FirstUnfunded(table: seq<Funding>): (r: Option<nat>)
    ensures r.Some? ==> r.value < |table| && !table[r.value].fullyInvested
    ensures r.Some? ==> forall i :: 0 <= i < r.value ==> table[i].fullyInvested
    ensures r.None? ==> forall i :: 0 <= i < |table| ==> table[i].fullyInvested
  {
    if table == [] then None
    else if !table[0].fullyInvested then Some(0)
    else
      match FirstUnfunded(table[1..])
      case None => None
      case Some(j) => Some(j + 1)
  }

  /** The query's first row is the first unfunded row of the table. */
  lemma SelectUnfundedHead(table: seq<Funding>)
    ensures SelectUnfunded(table) == [] <==> FirstUnfunded(table).None?
    ensures SelectUnfunded(table) != [] ==> SelectUnfunded(table)[0] == FirstUnfunded(table).value
  {
    var ix := SelectUnfunded(table);
    SelectUnfundedComplete(table);
    match FirstUnfunded(table)
    case None =>
    case Some(j) =>
      assert j in ix;
      var k :| 0 <= k < |ix| && ix[k] == j;
      assert ix[0] <= ix[k] && !table[ix[0]].fullyInvested;
  }

  /**
   * One transfer between the first unfunded project and the first unfunded
   * donation in table order, the project's remainder being its own; no
   * change when either side has no unfunded row.
   */
  function OneTransfer(projects: seq<Funding>, donations: seq<Funding>, now: Time): (r: (seq<Funding>, seq<Funding>))
    ensures |r.0| == |projects| && |r.1| == |donations|
  {
    match (FirstUnfunded(projects), FirstUnfunded(donations))
    case (Some(pj), Some(dj)) =>
      var (p, d) := Transfer(projects[pj], donations[dj], Remainder(projects[pj]), now);
      (projects[pj := p], donations[dj := d])
    case _ => (projects, donations)
  }

  /**
   * Lines 18 and 36-40: because `first()` closes the result, a pass makes at
   * most one transfer, between the first unfunded project and the first
   * unfunded donation the store returns.
   */
  lemma FirstClosesIsOneTransfer(projects: seq<Funding>, donations: seq<Funding>, now: Time)
    ensures var r := Run(projects, donations, FirstCloses, now);
            (r.projects, r.donations) == OneTransfer(projects, donations, now)
  {
    var q := Load(projects, donations, FirstCloses, now);
    var s := Start(projects, donations);
    SelectUnfundedHead(projects);
    SelectUnfundedHead(donations);
    if q.pix != [] {
      var (fetched, c) := Fetch(s.cursor, |q.dix|, FirstCloses);
      var t := Inner(s.(cursor := c), q, Remainder(projects[q.pix[0]]), fetched);
      assert t.cursor.closed;
      assert Outer(s, q) == t;
    }
  }

  /** Lines 22-34: a pass keeps every consistent row consistent. */
  lemma OnePassKeepsConsistent(projects: seq<Funding>, donations: seq<Funding>, now: Time)
    requires forall j :: 0 <= j < |projects| ==> Consistent(projects[j])
    requires forall j :: 0 <= j < |donations| ==> Consistent(donations[j])
    ensures var r := Run(projects, donations, FirstCloses, now);
            && (forall j :: 0 <= j < |r.projects| ==> Consistent(r.projects[j]))
            && (forall j :: 0 <= j < |r.donations| ==> Consistent(r.donations[j]))
  {
    FirstClosesIsOneTransfer(projects, donations, now);
    match (FirstUnfunded(projects), FirstUnfunded(donations))
    case (Some(pj), Some(dj)) =>
      TransferFlagsExhaustedSides(projects[pj], donations[dj], now);
    case _ =>
  }

  /** Lines 22-34: a pass never lowers an invested amount. */
  lemma OnePassNeverDecreases(projects: seq<Funding>, donations: seq<Funding>, now: Time)
    requires forall j :: 0 <= j < |projects| ==> Consistent(projects[j])
    requires forall j :: 0 <= j < |donations| ==> Consistent(donations[j])
    ensures var r := Run(projects, donations, FirstCloses, now);
            && (forall j :: 0 <= j < |projects| ==> r.projects[j].investedAmount >= projects[j].investedAmount)
            && (forall j :: 0 <= j < |donations| ==> r.donations[j].investedAmount >= donations[j].investedAmount)
  {
    FirstClosesIsOneTransfer(projects, donations, now);
    match (FirstUnfunded(projects), FirstUnfunded(donations))
    case (Some(pj), Some(dj)) =>
      TransferFlagsExhaustedSides(projects[pj], donations[dj], now);
    case _ =>
  }

  // ---------------------------------------------------------------------
  // The pass under any fetch contract
  // ---------------------------------------------------------------------

  /** No position in `ix` is `j`. */
  predicate Avoids(ix: seq<nat>, j: nat) {
    forall k :: 0 <= k < |ix| ==> ix[k] != j
  }

  /**
   * From state `s` to state `r` of a pass over `q`, only rows at loaded
   * positions change, and both tables gain the same invested total.
   */
  ghost predicate Keeps(s: PassState, r: PassState, q: Loaded) {
    && |r.projects| == |s.projects| && |r.donations| == |s.donations|
    && (forall j :: 0 <= j < |s.projects| && Avoids(q.pix, j) ==> r.projects[j] == s.projects[j])
    && (forall j :: 0 <= j < |s.donations| && Avoids(q.dix, j) ==> r.donations[j] == s.donations[j])
    && TotalInvested(r.projects) - TotalInvested(s.projects) == TotalInvested(r.donations) - TotalInvested(s.donations)
  }

  /** `Keeps` composes. */
  lemma KeepsTrans(s: PassState, t: PassState, r: PassState, q: Loaded)
    requires Keeps(s, t, q) && Keeps(t, r, q)
    ensures Keeps(s, r, q)
  {
  }

  /** One transfer of the `while` loop (lines 22-35) changes only the loaded rows and conserves money. */
  lemma TransferKeeps(s: PassState, q: Loaded, projectAmount: int, k: nat)
    requires Fits(s, q) && s.current < |q.pix| && k < |q.dix|
    ensures var pj, dj := q.pix[s.current], q.dix[k];
            var (p, d) := Transfer(s.projects[pj], s.donations[dj], projectAmount, q.now);
            Keeps(s, s.(projects := s.projects[pj := p], donations := s.donations[dj := d]), q)
  {
    var pj, dj := q.pix[s.current], q.dix[k];
    var (p, d) := Transfer(s.projects[pj], s.donations[dj], projectAmount, q.now);
    TotalInvestedUpdate(s.projects, pj, p);
    TotalInvestedUpdate(s.donations, dj, d);
  }

  /** The `while` loop (lines 19-38) changes only the loaded rows and conserves money. */
  lemma {:induction false} InnerKeeps(s: PassState, q: Loaded, projectAmount: int, donation: Option<nat>)
    requires Fits(s, q) && s.current < |q.pix|
    requires donation.Some? ==> donation.value < |q.dix|
    ensures Keeps(s, Inner(s, q, projectAmount, donation), q)
    decreases |q.dix| - s.cursor.next + (if s.cursor.closed then 0 else 1)
  {
    var pj := q.pix[s.current];
    if !s.projects[pj].fullyInvested && donation.Some? {
      var dj := q.dix[donation.value];
      var (p, d) := Transfer(s.projects[pj], s.donations[dj], projectAmount, q.now);
      var t := s.(projects := s.projects[pj := p], donations := s.donations[dj := d]);
      TransferKeeps(s, q, projectAmount, donation.value);
      if !t.cursor.closed {
        var (fetched, c) := Fetch(t.cursor, |q.dix|, q.contract);
        InnerKeeps(t.(cursor := c), q, projectAmount, fetched);
        KeepsTrans(s, t.(cursor := c), Inner(t.(cursor := c), q, projectAmount, fetched), q);
      }
    }
  }

  /** The `for` loop (lines 16-40) from a project boundary changes only the loaded rows and conserves money. */
  lemma {:induction false} OuterKeeps(s: PassState, q: Loaded)
    requires Fits(s, q) && !s.cursor.closed
    ensures Keeps(s, Outer(s, q), q)
    decreases |q.pix| - s.current, 1
  {
    if s.current < |q.pix| {
      var projectAmount := Remainder(s.projects[q.pix[s.current]]);
      var (donation, c) := Fetch(s.cursor, |q.dix|, q.contract);
      var t := Inner(s.(cursor := c), q, projectAmount, donation);
      InnerKeeps(s.(cursor := c), q, projectAmount, donation);
      AdvanceKeeps(t, q);
      KeepsTrans(s.(cursor := c), t, Advance(t, q), q);
    }
  }

  /** Lines 39-40 and the rest of the `for` loop. */
  lemma {:induction false} AdvanceKeeps(t: PassState, q: Loaded)
    requires Fits(t, q) && t.current < |q.pix|
    ensures Keeps(t, Advance(t, q), q)
    decreases |q.pix| - t.current, 0
  {
    if !t.cursor.closed {
      OuterKeeps(t.(current := t.current + 1), q);
    }
  }

  /**
   * Lines 10-15: only rows whose `fully_invested` is False are loaded, so a
   * row that was fully invested when the pass started is not changed,
   * whatever the fetch contract.
   */
  lemma RunLeavesClosedRows(projects: seq<Funding>, donations: seq<Funding>, contract: FetchContract, now: Time)
    ensures var r := Run(projects, donations, contract, now);
            && (forall j :: 0 <= j < |projects| && projects[j].fullyInvested ==> r.projects[j] == projects[j])
            && (forall j :: 0 <= j < |donations| && donations[j].fullyInvested ==> r.donations[j] == donations[j])
  {
    var q := Load(projects, donations, contract, now);
    OuterKeeps(Start(projects, donations), q);
    forall j | 0 <= j < |projects| && projects[j].fullyInvested
      ensures Avoids(q.pix, j)
    {
    }
    forall j | 0 <= j < |donations| && donations[j].fullyInvested
      ensures Avoids(q.dix, j)
    {
    }
  }

  /**
   * Lines 23-35: every transfer adds the same amount to a project and to a
   * donation, so the projects gain exactly what the donations give, whatever
   * the fetch contract.
   */
  lemma RunConservesMoney(projects: seq<Funding>, donations: seq<Funding>, contract: FetchContract, now: Time)
    ensures var r := Run(projects, donations, contract, now);
            TotalInvested(r.projects) - TotalInvested(projects) == TotalInvested(r.donations) - TotalInvested(donations)
  {
    OuterKeeps(Start(projects, donations), Load(projects, donations, contract, now));
  }

  /**
   * Lines 16-21 and 39-40: with no unfunded project, or no unfunded
   * donation, a pass changes nothing, whatever the fetch contract.
   */
  lemma NothingToMatchChangesNothing(projects: seq<Funding>, donations: seq<Funding>, contract: FetchContract, now: Time)
    requires (forall j :: 0 <= j < |projects| ==> projects[j].fullyInvested)
          || (forall j :: 0 <= j < |donations| ==> donations[j].fullyInvested)
    ensures Run(projects, donations, contract, now).projects == projects
    ensures Run(projects, donations, contract, now).donations == donations
  {
    var q := Load(projects, donations, contract, now);
    var s := Start(projects, donations);
    SelectUnfundedHead(projects);
    SelectUnfundedHead(donations);
    if q.pix != [] {
      var (fetched, c) := Fetch(s.cursor, |q.dix|, contract);
      assert fetched.None? && c.closed;
      assert Outer(s, q) == s.(cursor := c);
    }
  }

  // ---------------------------------------------------------------------
  // Why the stale remainder does not matter, and what it would do
  // ---------------------------------------------------------------------

  /** The positions loaded from one unfunded project and two unfunded donations. */
  lemma LoadOneTwo(p: Funding, d: Funding, contract: FetchContract, now: Time)
    requires !p.fullyInvested && !d.fullyInvested
    ensures Load([p], [d, d], contract, now) == Loaded([0], [0, 1], contract, now)
  {
    assert [d, d][..1] == [d] && [d][..0] == [] && [p][..0] == [];
    assert SelectUnfunded([p]) == SelectUnfunded([]) + [0];
    assert SelectUnfunded([d]) == SelectUnfunded([]) + [0];
    assert SelectUnfunded([d, d]) == SelectUnfunded([d]) + [1];
  }

  /** The first turn of the `while` loop of `FetchNextRunsBothDonations`: 60 from the first donation. */
  lemma FetchNextFirstStep(q: Loaded, p: Funding, d: Funding, used: Funding)
    requires q == Loaded([0], [0, 1], FetchNext, 0)
    requires p == Funding(100, 0, false, None) && d == Funding(60, 0, false, None) && used == Funding(60, 60, true, Some(0))
    ensures Inner(PassState([p], [d, d], 0, CursorState(1, false)), q, 100, Some(0))
            == Inner(PassState([p.(investedAmount := 60)], [used, d], 0, CursorState(2, false)), q, 100, Some(1))
  {
    assert [p][0 := p.(investedAmount := 60)] == [p.(investedAmount := 60)];
    assert [d, d][0 := used] == [used, d];
  }

  /** The second turn: the stale remainder 100 takes all 60 of the second donation. */
  lemma FetchNextSecondStep(q: Loaded, p: Funding, d: Funding, used: Funding)
    requires q == Loaded([0], [0, 1], FetchNext, 0)
    requires p == Funding(100, 0, false, None) && d == Funding(60, 0, false, None) && used == Funding(60, 60, true, Some(0))
    ensures Inner(PassState([p.(investedAmount := 60)], [used, d], 0, CursorState(2, false)), q, 100, Some(1))
            == PassState([p.(investedAmount := 120)], [used, used], 0, CursorState(2, true))
  {
    var s3 := PassState([p.(investedAmount := 120)], [used, used], 0, CursorState(2, true));
    assert [p.(investedAmount := 60)][0 := p.(investedAmount := 120)] == [p.(investedAmount := 120)];
    assert [used, d][1 := used] == [used, used];
    assert Inner(s3, q, 100, None) == s3;
  }

  /** The "next row" reading of `first()` on a project of 100 and two donations of 60. */
  lemma FetchNextRunsBothDonations(p: Funding, d: Funding)
    requires p == Funding(100, 0, false, None) && d == Funding(60, 0, false, None)
    ensures Run([p], [d, d], FetchNext, 0).projects == [p.(investedAmount := 120)]
  {
    var used := Funding(60, 60, true, Some(0));
    LoadOneTwo(p, d, FetchNext, 0);
    var q := Loaded([0], [0, 1], FetchNext, 0);
    FetchNextFirstStep(q, p, d, used);
    FetchNextSecondStep(q, p, d, used);
    assert Outer(Start([p], [d, d]), q) == PassState([p.(investedAmount := 120)], [used, used], 0, CursorState(2, true));
  }

  /**
   * Line 17 computes `project_amount` once per project and the `while` loop
   * never recomputes it. Read `first()` as "next row" and a project of 100
   * meeting two donations of 60 is funded 120; under the contract
   * `first()` actually has, the same tables get a single transfer of 60.
   */
  lemma StaleAmountOverfundsUnderFetchNext(p: Funding, d: Funding)
    requires p == Funding(100, 0, false, None) && d == Funding(60, 0, false, None)
    ensures Consistent(p) && Consistent(d)
    ensures Run([p], [d, d], FetchNext, 0).projects[0].investedAmount == 120
    ensures !Consistent(Run([p], [d, d], FetchNext, 0).projects[0])
    ensures Run([p], [d, d], FirstCloses, 0).projects == [Funding(100, 60, false, None)]
  {
    FetchNextRunsBothDonations(p, d);
    FirstClosesIsOneTransfer([p], [d, d], 0);
    assert FirstUnfunded([p]) == Some(0) && FirstUnfunded([d, d]) == Some(0);
    assert [p][0 := Funding(100, 60, false, None)] == [Funding(100, 60, false, None)];
  }

  /**
   * What the one-transfer pass leaves behind: a project of 100 created while
   * two donations of 50 wait receives only the first one. The project stays
   * open beside an unfunded donation, and running the pass again moves more
   * money, so a pass is not the complete distribution the loops are shaped
   * for.
   */
  lemma OnePassLeavesMatchablePair(p: Funding, d: Funding, now: Time)
    requires p == Funding(100, 0, false, None) && d == Funding(50, 0, false, None)
    ensures var r := Run([p], [d, d], FirstCloses, now);
            && r.projects == [Funding(100, 50, false, None)]
            && r.donations == [Funding(50, 50, true, Some(now)), d]
            && Run(r.projects, r.donations, FirstCloses, now).projects != r.projects
  {
    var half := Funding(100, 50, false, None);
    var used := Funding(50, 50, true, Some(now));
    FirstClosesIsOneTransfer([p], [d, d], now);
    assert FirstUnfunded([p]) == Some(0) && FirstUnfunded([d, d]) == Some(0);
    assert [p][0 := half] == [half];
    assert [d, d][0 := used] == [used, d];
    FirstClosesIsOneTransfer([half], [used, d], now);
    assert FirstUnfunded([half]) == Some(0);
    assert [used, d][1..] == [d];
    assert FirstUnfunded([used, d]) == Some(1);
    assert [half][0 := Funding(100, 100, true, Some(now))] == [Funding(100, 100, true, Some(now))];
  }
}
