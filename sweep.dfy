/**
 * The distribution the loops of app/services/investment.py are shaped for:
 * projects and donations that are not fully invested are paired in store
 * order, each transfer moving the smaller of the two fresh remainders, and
 * the side that is used up is left behind, until one of the two sides has
 * nothing left. Under SQLAlchemy's `Result.first()` the code stops after one
 * transfer instead (`InvestmentProperties.FirstClosesIsOneTransfer`); this
 * module is the corrected definition, with the properties the pass is meant
 * to have proved about it.
 */
module InvestmentSweep {
  import opened Wrappers
  import opened Models
  import opened Investment
  import opened InvestmentProperties

  /** The positions are strictly increasing, so no position occurs twice. */
  predicate Increasing(ix: seq<nat>) {
    forall k, l :: 0 <= k < l < |ix| ==> ix[k] < ix[l]
  }

  /** Every row at a position of `ix` is not fully invested. */
  predicate OpenAt(table: seq<Funding>, ix: seq<nat>)
    requires Within(ix, |table|)
  {
    forall k :: 0 <= k < |ix| ==> !table[ix[k]].fullyInvested
  }

  /**
   * Pair the project at `pix[0]` with the donation at `dix[0]`, transfer
   * with the project's fresh remainder, drop whichever side is used up and
   * go on until one side runs out of positions.
   */
  function SweepFrom(ps: seq<Funding>, ds: seq<Funding>, pix: seq<nat>, dix: seq<nat>, now: Time): (r: (seq<Funding>, seq<Funding>))
    requires Within(pix, |ps|) && Within(dix, |ds|)
    ensures |r.0| == |ps| && |r.1| == |ds|
    decreases |pix| + |dix|
  {
    if pix == [] || dix == [] then (ps, ds)
    else
      var pj, dj := pix[0], dix[0];
      var (p, d) := Transfer(ps[pj], ds[dj], Remainder(ps[pj]), now);
      SweepFrom(ps[pj := p], ds[dj := d],
                if p.fullyInvested then pix[1..] else pix,
                if d.fullyInvested then dix[1..] else dix, now)
  }

  /** The complete distribution over every unfunded row of both tables. */
  function Sweep(ps: seq<Funding>, ds: seq<Funding>, now: Time): (r: (seq<Funding>, seq<Funding>))
    ensures |r.0| == |ps| && |r.1| == |ds|
  {
    SweepFrom(ps, ds, SelectUnfunded(ps), SelectUnfunded(ds), now)
  }

  // ---------------------------------------------------------------------
  // Lemmas about one sweep from given positions
  // ---------------------------------------------------------------------

  /** Rows at positions the sweep is not given are left alone, and money is conserved. */
  lemma {:induction false} SweepFromKeeps(ps: seq<Funding>, ds: seq<Funding>, pix: seq<nat>, dix: seq<nat>, now: Time)
    requires Within(pix, |ps|) && Within(dix, |ds|)
    ensures var r := SweepFrom(ps, ds, pix, dix, now);
            && (forall j :: 0 <= j < |ps| && Avoids(pix, j) ==> r.0[j] == ps[j])
            && (forall j :: 0 <= j < |ds| && Avoids(dix, j) ==> r.1[j] == ds[j])
            && TotalInvested(r.0) - TotalInvested(ps) == TotalInvested(r.1) - TotalInvested(ds)
    decreases |pix| + |dix|
  {
    if pix != [] && dix != [] {
      var pj, dj := pix[0], dix[0];
      var (p, d) := Transfer(ps[pj], ds[dj], Remainder(ps[pj]), now);
      var pix' := if p.fullyInvested then pix[1..] else pix;
      var dix' := if d.fullyInvested then dix[1..] else dix;
      SweepFromKeeps(ps[pj := p], ds[dj := d], pix', dix', now);
      TotalInvestedUpdate(ps, pj, p);
      TotalInvestedUpdate(ds, dj, d);
      forall j | 0 <= j < |ps| && Avoids(pix, j)
        ensures Avoids(pix', j) && j != pj
      {
        assert pix[0] != j;
      }
      forall j | 0 <= j < |ds| && Avoids(dix, j)
        ensures Avoids(dix', j) && j != dj
      {
        assert dix[0] != j;
      }
    }
  }

  /** A fully invested row stays fully invested. */
  lemma {:induction false} SweepFromKeepsFlags(ps: seq<Funding>, ds: seq<Funding>, pix: seq<nat>, dix: seq<nat>, now: Time)
    requires Within(pix, |ps|) && Within(dix, |ds|)
    ensures var r := SweepFrom(ps, ds, pix, dix, now);
            && (forall j :: 0 <= j < |ps| && ps[j].fullyInvested ==> r.0[j].fullyInvested)
            && (forall j :: 0 <= j < |ds| && ds[j].fullyInvested ==> r.1[j].fullyInvested)
    decreases |pix| + |dix|
  {
    if pix != [] && dix != [] {
      var pj, dj := pix[0], dix[0];
      var (p, d) := Transfer(ps[pj], ds[dj], Remainder(ps[pj]), now);
      SweepFromKeepsFlags(ps[pj := p], ds[dj := d],
                          if p.fullyInvested then pix[1..] else pix,
                          if d.fullyInvested then dix[1..] else dix, now);
    }
  }

  /**
   * After the row at the first position is replaced by `f`, the positions
   * still to visit (without the first when `f` is used up) are increasing
   * positions of open rows.
   */
  lemma UsedRowLeavesOpenRows(table: seq<Funding>, ix: seq<nat>, f: Funding)
    requires ix != [] && Within(ix, |table|) && Increasing(ix) && OpenAt(table, ix)
    ensures var rest := if f.fullyInvested then ix[1..] else ix;
            && Within(rest, |table|) && Increasing(rest) && OpenAt(table[ix[0] := f], rest)
  {
    var rest := if f.fullyInvested then ix[1..] else ix;
    forall k | 0 <= k < |rest|
      ensures !table[ix[0] := f][rest[k]].fullyInvested
    {
      if f.fullyInvested || k > 0 {
        assert rest[k] != ix[0];
      }
    }
  }

  /**
   * Given strictly increasing positions of open rows, consistent rows stay
   * consistent and no invested amount goes down.
   */
  lemma {:induction false} SweepFromKeepsConsistent(ps: seq<Funding>, ds: seq<Funding>, pix: seq<nat>, dix: seq<nat>, now: Time)
    requires Within(pix, |ps|) && Within(dix, |ds|)
    requires Increasing(pix) && Increasing(dix) && OpenAt(ps, pix) && OpenAt(ds, dix)
    requires forall j :: 0 <= j < |ps| ==> Consistent(ps[j])
    requires forall j :: 0 <= j < |ds| ==> Consistent(ds[j])
    ensures var r := SweepFrom(ps, ds, pix, dix, now);
            && (forall j :: 0 <= j < |ps| ==> Consistent(r.0[j]) && r.0[j].investedAmount >= ps[j].investedAmount)
            && (forall j :: 0 <= j < |ds| ==> Consistent(r.1[j]) && r.1[j].investedAmount >= ds[j].investedAmount)
    decreases |pix| + |dix|
  {
    if pix != [] && dix != [] {
      var pj, dj := pix[0], dix[0];
      var (p, d) := Transfer(ps[pj], ds[dj], Remainder(ps[pj]), now);
      TransferFlagsExhaustedSides(ps[pj], ds[dj], now);
      var ps', ds' := ps[pj := p], ds[dj := d];
      var pix' := if p.fullyInvested then pix[1..] else pix;
      var dix' := if d.fullyInvested then dix[1..] else dix;
      UsedRowLeavesOpenRows(ps, pix, p);
      UsedRowLeavesOpenRows(ds, dix, d);
      SweepFromKeepsConsistent(ps', ds', pix', dix', now);
    }
  }

  /**
   * The sweep stops only when one side is used up: every row at a project
   * position, or every row at a donation position, ends fully invested.
   */
  lemma {:induction false} SweepFromExhaustsOneSide(ps: seq<Funding>, ds: seq<Funding>, pix: seq<nat>, dix: seq<nat>, now: Time)
    requires Within(pix, |ps|) && Within(dix, |ds|)
    ensures var r := SweepFrom(ps, ds, pix, dix, now);
            || (forall k :: 0 <= k < |pix| ==> r.0[pix[k]].fullyInvested)
            || (forall k :: 0 <= k < |dix| ==> r.1[dix[k]].fullyInvested)
    decreases |pix| + |dix|
  {
    if pix != [] && dix != [] {
      var pj, dj := pix[0], dix[0];
      var (p, d) := Transfer(ps[pj], ds[dj], Remainder(ps[pj]), now);
      var ps', ds' := ps[pj := p], ds[dj := d];
      var pix' := if p.fullyInvested then pix[1..] else pix;
      var dix' := if d.fullyInvested then dix[1..] else dix;
      SweepFromExhaustsOneSide(ps', ds', pix', dix', now);
      SweepFromKeepsFlags(ps', ds', pix', dix', now);
      var r := SweepFrom(ps', ds', pix', dix', now);
      assert r == SweepFrom(ps, ds, pix, dix, now);
      if forall k :: 0 <= k < |pix'| ==> r.0[pix'[k]].fullyInvested {
        if p.fullyInvested {
          assert ps'[pj].fullyInvested;
          assert forall k :: 1 <= k < |pix| ==> r.0[pix[k]].fullyInvested by {
            forall k | 1 <= k < |pix|
              ensures r.0[pix[k]].fullyInvested
            {
              assert pix[k] == pix'[k - 1];
            }
          }
        }
      } else {
        if d.fullyInvested {
          assert ds'[dj].fullyInvested;
          assert forall k :: 1 <= k < |dix| ==> r.1[dix[k]].fullyInvested by {
            forall k | 1 <= k < |dix|
              ensures r.1[dix[k]].fullyInvested
            {
              assert dix[k] == dix'[k - 1];
            }
          }
        }
      }
    }
  }

  // ---------------------------------------------------------------------
  // Lemmas about the complete distribution
  // ---------------------------------------------------------------------

  /** A table whose rows are all fully invested selects nothing. */
  lemma AllFundedSelectsNothing(table: seq<Funding>)
    requires forall j :: 0 <= j < |table| ==> table[j].fullyInvested
    ensures SelectUnfunded(table) == []
  {
    SelectUnfundedHead(table);
  }

  /** Rows fully invested before the distribution are not changed, and money is conserved. */
  lemma SweepLeavesClosedRowsAndConserves(ps: seq<Funding>, ds: seq<Funding>, now: Time)
    ensures var r := Sweep(ps, ds, now);
            && (forall j :: 0 <= j < |ps| && ps[j].fullyInvested ==> r.0[j] == ps[j])
            && (forall j :: 0 <= j < |ds| && ds[j].fullyInvested ==> r.1[j] == ds[j])
            && TotalInvested(r.0) - TotalInvested(ps) == TotalInvested(r.1) - TotalInvested(ds)
  {
    var pix, dix := SelectUnfunded(ps), SelectUnfunded(ds);
    SweepFromKeeps(ps, ds, pix, dix, now);
    forall j | 0 <= j < |ps| && ps[j].fullyInvested
      ensures Avoids(pix, j)
    {
    }
    forall j | 0 <= j < |ds| && ds[j].fullyInvested
      ensures Avoids(dix, j)
    {
    }
  }

  /** Consistent rows stay consistent, and no invested amount goes down. */
  lemma SweepKeepsConsistent(ps: seq<Funding>, ds: seq<Funding>, now: Time)
    requires forall j :: 0 <= j < |ps| ==> Consistent(ps[j])
    requires forall j :: 0 <= j < |ds| ==> Consistent(ds[j])
    ensures var r := Sweep(ps, ds, now);
            && (forall j :: 0 <= j < |ps| ==> Consistent(r.0[j]) && r.0[j].investedAmount >= ps[j].investedAmount)
            && (forall j :: 0 <= j < |ds| ==> Consistent(r.1[j]) && r.1[j].investedAmount >= ds[j].investedAmount)
  {
    SelectUnfundedComplete(ps);
    SelectUnfundedComplete(ds);
    SweepFromKeepsConsistent(ps, ds, SelectUnfunded(ps), SelectUnfunded(ds), now);
  }

  /**
   * After the distribution no open project and open donation are left
   * side by side: every project or every donation is fully invested.
   */
  lemma SweepLeavesNoMatchablePair(ps: seq<Funding>, ds: seq<Funding>, now: Time)
    ensures var r := Sweep(ps, ds, now);
            || (forall j :: 0 <= j < |ps| ==> r.0[j].fullyInvested)
            || (forall j :: 0 <= j < |ds| ==> r.1[j].fullyInvested)
  {
    var pix, dix := SelectUnfunded(ps), SelectUnfunded(ds);
    var r := Sweep(ps, ds, now);
    SelectUnfundedComplete(ps);
    SelectUnfundedComplete(ds);
    SweepFromExhaustsOneSide(ps, ds, pix, dix, now);
    SweepFromKeepsFlags(ps, ds, pix, dix, now);
    if forall k :: 0 <= k < |pix| ==> r.0[pix[k]].fullyInvested {
      forall j | 0 <= j < |ps|
        ensures r.0[j].fullyInvested
      {
        if !ps[j].fullyInvested {
          var k :| 0 <= k < |pix| && pix[k] == j;
        }
      }
    } else {
      forall j | 0 <= j < |ds|
        ensures r.1[j].fullyInvested
      {
        if !ds[j].fullyInvested {
          var k :| 0 <= k < |dix| && dix[k] == j;
        }
      }
    }
  }

  /** Distributing again after a distribution changes nothing. */
  lemma SweepIdempotent(ps: seq<Funding>, ds: seq<Funding>, now: Time, later: Time)
    ensures var r := Sweep(ps, ds, now);
            Sweep(r.0, r.1, later) == r
  {
    var r := Sweep(ps, ds, now);
    SweepLeavesNoMatchablePair(ps, ds, now);
    if forall j :: 0 <= j < |r.0| ==> r.0[j].fullyInvested {
      AllFundedSelectsNothing(r.0);
    } else {
      AllFundedSelectsNothing(r.1);
    }
  }

  // ---------------------------------------------------------------------
  // The pass as written is the first step of the distribution
  // ---------------------------------------------------------------------

  /**
   * Replacing the first unfunded row by `f` drops it from the selection when
   * `f` is fully invested and leaves the selection as it was otherwise.
   */
  lemma {:induction false} SelectUnfundedReplaceFirst(table: seq<Funding>, f: Funding)
    requires SelectUnfunded(table) != []
    ensures SelectUnfunded(table)[0] < |table|
    ensures SelectUnfunded(table[SelectUnfunded(table)[0] := f])
            == if f.fullyInvested then SelectUnfunded(table)[1..] else SelectUnfunded(table)
    decreases |table|
  {
    var n := |table| - 1;
    var init := table[..n];
    var j := SelectUnfunded(table)[0];
    var updated := table[j := f];
    if SelectUnfunded(init) == [] {
      assert j == n && !table[n].fullyInvested;
      assert updated[..n] == init;
    } else {
      SelectUnfundedReplaceFirst(init, f);
      assert SelectUnfunded(init)[0] == j;
      assert updated[..n] == init[j := f];
      assert updated[n] == table[n];
    }
  }

  /**
   * Running the pass as written and then distributing gives the same tables
   * as distributing at once: the pass's single transfer is the first step of
   * the distribution.
   */
  lemma OneTransferBeginsSweep(ps: seq<Funding>, ds: seq<Funding>, now: Time)
    ensures Sweep(OneTransfer(ps, ds, now).0, OneTransfer(ps, ds, now).1, now) == Sweep(ps, ds, now)
  {
    SelectUnfundedHead(ps);
    SelectUnfundedHead(ds);
    match (FirstUnfunded(ps), FirstUnfunded(ds))
    case (Some(pj), Some(dj)) =>
      var (p, d) := Transfer(ps[pj], ds[dj], Remainder(ps[pj]), now);
      SelectUnfundedReplaceFirst(ps, p);
      SelectUnfundedReplaceFirst(ds, d);
    case _ =>
  }

  /**
   * A pass under `Result.first()`'s contract never moves money the
   * distribution would not: distributing after it gives the same tables as
   * distributing instead of it.
   */
  lemma PassThenSweepIsSweep(ps: seq<Funding>, ds: seq<Funding>, now: Time)
    ensures var r := Run(ps, ds, FirstCloses, now);
            Sweep(r.projects, r.donations, now) == Sweep(ps, ds, now)
  {
    FirstClosesIsOneTransfer(ps, ds, now);
    OneTransferBeginsSweep(ps, ds, now);
  }

  // ---------------------------------------------------------------------
  // The case the one-transfer pass leaves half done
  // ---------------------------------------------------------------------

  /** First transfer: the project takes the whole first donation and stays open. */
  lemma SweepFirstStep(p: Funding, d: Funding, now: Time)
    requires p == Funding(100, 0, false, None) && d == Funding(50, 0, false, None)
    ensures SweepFrom([p], [d, d], [0], [0, 1], now)
         == SweepFrom([Funding(100, 50, false, None)], [Funding(50, 50, true, Some(now)), d], [0], [1], now)
  {
    assert [p][0 := Funding(100, 50, false, None)] == [Funding(100, 50, false, None)];
    assert [d, d][0 := Funding(50, 50, true, Some(now))] == [Funding(50, 50, true, Some(now)), d];
    assert [0, 1][1..] == [1];
  }

  /** Second transfer: the second donation completes the project and both sides run out. */
  lemma SweepSecondStep(half: Funding, used: Funding, d: Funding, now: Time)
    requires half == Funding(100, 50, false, None) && used == Funding(50, 50, true, Some(now))
    requires d == Funding(50, 0, false, None)
    ensures SweepFrom([half], [used, d], [0], [1], now) == ([Funding(100, 100, true, Some(now))], [used, used])
  {
    assert [half][0 := Funding(100, 100, true, Some(now))] == [Funding(100, 100, true, Some(now))];
    assert [used, d][1 := used] == [used, used];
  }

  /**
   * A project of 100 created while two donations of 50 wait is funded by
   * both: the project and both donations end fully invested, where the
   * one-transfer pass leaves the project at 50.
   */
  lemma SweepFundsProjectFromTwoDonations(p: Funding, d: Funding, now: Time)
    requires p == Funding(100, 0, false, None) && d == Funding(50, 0, false, None)
    ensures Sweep([p], [d, d], now)
         == ([Funding(100, 100, true, Some(now))], [Funding(50, 50, true, Some(now)), Funding(50, 50, true, Some(now))])
  {
    LoadOneTwo(p, d, FirstCloses, now);
    SweepFirstStep(p, d, now);
    SweepSecondStep(Funding(100, 50, false, None), Funding(50, 50, true, Some(now)), d, now);
  }
}
