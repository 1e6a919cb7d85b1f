/** What the posting check undoes: `_reopen_recons`, `_reopen_flux` and the end of
    `check_posted` in backend/modules/adjustments/router.py. */
module PostingCheck {
  import opened Prelude
  import opened Adjustments

  datatype Sign = Pending | Reviewed | Approved | Flagged

  /** One reconciliation's review row. */
  datatype Recon = Recon(
    account: string, period: int, status: Sign, subledger: Option<int>, items: seq<int>,
    commentary: Option<string>, reviewedBy: Option<int>, preparedBy: Option<int>, approvedBy: Option<int>)

  /** One variance of a flux analysis, joined to its account and trial balance. */
  datatype Variance = Variance(account: string, tb: int, status: Sign, approvedBy: Option<int>,
      commentary: Option<string>)

  datatype Analysis = Analysis(period: int, approvedBy: Option<int>)

  // ---- Resetting one row -------------------------------------------------

  function ResetRecon(r: Recon): Recon {
    r.(status := Pending, subledger := None, items := [], commentary := None,
       reviewedBy := None, preparedBy := None, approvedBy := None)
  }

  predicate ReconHit(r: Recon, ids: set<string>, period: int) {
    r.account != "" && r.account in ids && r.period == period && r.status != Pending
  }

  function ReopenedRecons(rows: seq<Recon>, ids: set<string>, period: int): (r: seq<Recon>)
    ensures |r| == |rows|
    ensures forall i :: 0 <= i < |rows| ==>
        r[i] == if ReconHit(rows[i], ids, period) then ResetRecon(rows[i]) else rows[i]
  {
    seq(|rows|, i requires 0 <= i < |rows| => if ReconHit(rows[i], ids, period) then ResetRecon(rows[i]) else rows[i])
  }

  function ReconAccounts(rows: seq<Recon>, ids: set<string>, period: int): seq<string> {
    if rows == [] then []
    else
      var r := rows[|rows| - 1];
      ReconAccounts(rows[..|rows| - 1], ids, period) + (if ReconHit(r, ids, period) then [r.account] else [])
  }

  /** Work to undo: prepared, approved or commented, on an analysis of the period. */
  predicate FluxHit(v: Variance, tbs: map<int, Analysis>, ids: set<string>, period: int) {
    && v.account != "" && v.account in ids && v.tb in tbs && tbs[v.tb].period == period
    && !(v.status == Pending && v.approvedBy.None? && v.commentary.None?)
  }

  function ResetVariance(v: Variance): Variance {
    v.(status := Pending, approvedBy := None, commentary := None)
  }

  function ReopenedFlux(rows: seq<Variance>, tbs: map<int, Analysis>, ids: set<string>, period: int): (r: seq<Variance>)
    ensures |r| == |rows|
    ensures forall i :: 0 <= i < |rows| ==>
        r[i] == if FluxHit(rows[i], tbs, ids, period) then ResetVariance(rows[i]) else rows[i]
  {
    seq(|rows|, i requires 0 <= i < |rows| =>
      if FluxHit(rows[i], tbs, ids, period) then ResetVariance(rows[i]) else rows[i])
  }

  predicate TbTouched(rows: seq<Variance>, tbs: map<int, Analysis>, ids: set<string>, period: int, tb: int) {
    exists v :: v in rows && v.tb == tb && FluxHit(v, tbs, ids, period)
  }

  /** The analyses, un-signed where a variance was reset. */
  function Unsigned(rows: seq<Variance>, tbs: map<int, Analysis>, ids: set<string>, period: int): map<int, Analysis> {
    map tb | tb in tbs :: if TbTouched(rows, tbs, ids, period, tb) then tbs[tb].(approvedBy := None) else tbs[tb]
  }

  // ---- The whole check ---------------------------------------------------

  /** The accounts the saved entries of a period touch. */
  function Affected(s: State, period: int): set<string> {
    set id, ln | id in s.entries && IsSaved(s.entries[id], period) && ln in s.entries[id].lines
        && ln.account != "" :: ln.account
  }

  ghost predicate AllSavedPosted(s: State, period: int) {
    forall id :: id in s.entries && IsSaved(s.entries[id], period) ==> s.entries[id].status.Posted?
  }

  class CloseDb {
    var recons: seq<Recon>
    var variances: seq<Variance>
    var analyses: map<int, Analysis>

    method ReopenRecons(accounts: set<string>, period: int) returns (reopened: seq<string>)
      modifies this`recons
      ensures recons == ReopenedRecons(old(recons), accounts, period)
      ensures reopened == ReconAccounts(old(recons), accounts, period)
    {
      var rows := recons;
      reopened := [];
      for i := 0 to |rows|
        invariant |recons| == |rows|
        invariant forall k :: 0 <= k < i ==> recons[k] == ReopenedRecons(rows, accounts, period)[k]
        invariant forall k :: i <= k < |rows| ==> recons[k] == rows[k]
        invariant reopened == ReconAccounts(rows[..i], accounts, period)
      {
        assert rows[..i + 1][..i] == rows[..i];
        var r := rows[i];
        if r.account != "" && r.account in accounts && r.period == period {
          if r.status == Pending { continue; }
          r := r.(status := Pending);
          r := r.(subledger := None, items := [], commentary := None);
          r := r.(reviewedBy := None, preparedBy := None, approvedBy := None);
          recons := recons[i := r];
          reopened := reopened + [r.account];
        }
      }
      assert rows[..|rows|] == rows;
    }

    method ReopenFlux(accounts: set<string>, period: int)
      modifies this`variances, this`analyses
      ensures variances == ReopenedFlux(old(variances), old(analyses), accounts, period)
      ensures analyses == Unsigned(old(variances), old(analyses), accounts, period)
    {
      var rows, tbs := variances, analyses;
      var touched: set<int> := {};
      for i := 0 to |rows|
        invariant |variances| == |rows|
        invariant forall k :: 0 <= k < i ==> variances[k] == ReopenedFlux(rows, tbs, accounts, period)[k]
        invariant forall k :: i <= k < |rows| ==> variances[k] == rows[k]
        invariant forall tb :: tb in touched <==> TbTouched(rows[..i], tbs, accounts, period, tb)
      {
        var v := rows[i];
        ghost var before := touched;
        if v.account != "" && v.account in accounts && v.tb in tbs && tbs[v.tb].period == period {
          if v.status != Pending || v.approvedBy.Some? || v.commentary.Some? {
            variances := variances[i := v.(status := Pending, approvedBy := None, commentary := None)];
            touched := touched + {v.tb};
          }
        }
        forall tb ensures tb in touched <==> TbTouched(rows[..i + 1], tbs, accounts, period, tb) {
          TouchedSnoc(rows, i, tbs, accounts, period, tb);
        }
      }
      assert rows[..|rows|] == rows;
      analyses := map tb | tb in tbs :: if tb in touched then tbs[tb].(approvedBy := None) else tbs[tb];
    }

    /** The posting check of a period: mark what QuickBooks holds; only when every saved entry
        is posted, reset the review work on the accounts those entries touch. */
    method CheckPosted(store: AdjustmentStore, user: User, period: int, now: int, found: map<nat, string>)
      returns (code: int)
      modifies store`entries, this
      ensures code == Code(old(store.Abstract()), Action.CheckPosted(user, period, now, found))
      ensures store.Abstract() == Step(old(store.Abstract()), Action.CheckPosted(user, period, now, found))
      ensures var after := store.Abstract();
              var resets := code == 200 && AllSavedPosted(after, period);
              var ids := Affected(after, period);
              && recons == (if resets then ReopenedRecons(old(recons), ids, period) else old(recons))
              && variances ==
                   (if resets then ReopenedFlux(old(variances), old(analyses), ids, period) else old(variances))
              && analyses == (if resets then Unsigned(old(variances), old(analyses), ids, period) else old(analyses))
    {
      code := store.CheckPostedEntries(user, period, now, found);
      if code != 200 { return; }
      var rows := store.entries;
      var pending := set id | id in rows && IsSaved(rows[id], period) && rows[id].status != Posted;
      if pending != {} {
        var one :| one in pending;
        assert !AllSavedPosted(store.Abstract(), period);
        return;
      }
      assert AllSavedPosted(store.Abstract(), period) by {
        forall id | id in rows && IsSaved(rows[id], period) ensures rows[id].status.Posted? { assert id !in pending; }
      }
      var affected := set id, ln | id in rows && IsSaved(rows[id], period) && ln in rows[id].lines
          && ln.account != "" :: ln.account;
      assert affected == Affected(store.Abstract(), period);
      var reopened := ReopenRecons(affected, period);
      ReopenFlux(affected, period);
    }
  }

  lemma TouchedSnoc(rows: seq<Variance>, i: nat, tbs: map<int, Analysis>, ids: set<string>, period: int, tb: int)
    requires i < |rows|
    ensures TbTouched(rows[..i + 1], tbs, ids, period, tb) <==>
              TbTouched(rows[..i], tbs, ids, period, tb) || (rows[i].tb == tb && FluxHit(rows[i], tbs, ids, period))
  {
    assert rows[..i + 1] == rows[..i] + [rows[i]];
    assert rows[i] in rows[..i + 1];
  }

  // ---- What a reset means ------------------------------------------------

  predicate OfPeriod(v: Variance, tbs: map<int, Analysis>, period: int) {
    v.tb in tbs && tbs[v.tb].period == period
  }

  /** The analysis has a variance on one of the accounts. */
  predicate HasAccount(variances: seq<Variance>, ids: set<string>, tb: int) {
    exists v :: v in variances && v.tb == tb && v.account in ids
  }

  /** A reset touches only rows of the named accounts and the period, and analyses of that
      period that have such a row; a second one finds nothing to do. */
  lemma ResetOnce(recons: seq<Recon>, variances: seq<Variance>, tbs: map<int, Analysis>, ids: set<string>, period: int)
    ensures var r, v, t :=
        ReopenedRecons(recons, ids, period), ReopenedFlux(variances, tbs, ids, period),
        Unsigned(variances, tbs, ids, period);
            && ReopenedRecons(r, ids, period) == r && ReconAccounts(r, ids, period) == []
            && ReopenedFlux(v, t, ids, period) == v && Unsigned(v, t, ids, period) == t
            && (forall i :: 0 <= i < |recons| && !(recons[i].account in ids && recons[i].period == period) ==>
                r[i] == recons[i])
            && (forall i ::
                  0 <= i < |variances| && !(variances[i].account in ids && OfPeriod(variances[i], tbs, period)) ==>
                    v[i] == variances[i])
            && (forall tb :: tb in tbs && !(tbs[tb].period == period && HasAccount(variances, ids, tb)) ==>
                t[tb] == tbs[tb])
  {
    var r, v, t :=
        ReopenedRecons(recons, ids, period), ReopenedFlux(variances, tbs, ids, period),
        Unsigned(variances, tbs, ids, period);
    NoHits(r, ids, period);
    forall w | w in v ensures !FluxHit(w, t, ids, period) {
      var i :| 0 <= i < |v| && v[i] == w;
    }
  }

  lemma {:induction false} NoHits(rows: seq<Recon>, ids: set<string>, period: int)
    requires forall i :: 0 <= i < |rows| ==> !ReconHit(rows[i], ids, period)
    ensures ReconAccounts(rows, ids, period) == [] && ReopenedRecons(rows, ids, period) == rows
  {
    if rows != [] {
      NoHits(rows[..|rows| - 1], ids, period);
    }
  }

  // ---- What the check leaves -----------------------------------------------

  /** After a reset no review work is left on a reconciliation of the named accounts: it is pending,
      and one that was past it has lost everything but its account and period. */
  lemma ReconsAreClear(rows: seq<Recon>, ids: set<string>, period: int, i: nat)
    requires i < |rows| && rows[i].account != "" && rows[i].account in ids && rows[i].period == period
    ensures var r := ReopenedRecons(rows, ids, period)[i];
            && r.status == Pending && r.account == rows[i].account && r.period == period
            && (if rows[i].status == Pending then r == rows[i]
                else r == Recon(rows[i].account, period, Pending, None, [], None, None, None, None))
  {
  }

  /** Nor on a variance of those accounts in an analysis of the period, whose sign-off is withdrawn
      if there was any work to undo. */
  lemma VariancesAreClear(rows: seq<Variance>, tbs: map<int, Analysis>, ids: set<string>, period: int, i: nat)
    requires i < |rows| && rows[i].account != "" && rows[i].account in ids && OfPeriod(rows[i], tbs, period)
    ensures ReopenedFlux(rows, tbs, ids, period)[i] == Variance(rows[i].account, rows[i].tb, Pending, None, None)
    ensures rows[i] != Variance(rows[i].account, rows[i].tb, Pending, None, None) ==>
              Unsigned(rows, tbs, ids, period)[rows[i].tb] == Analysis(period, None)
  {
    var v := rows[i];
    if FluxHit(v, tbs, ids, period) {
      assert v in rows;
      assert TbTouched(rows, tbs, ids, period, v.tb);
    }
  }

  /** The accounts reported as reopened are, in order, those of the rows that were reset. */
  lemma {:induction false} ReopenedAre(rows: seq<Recon>, more: seq<Recon>, ids: set<string>, period: int)
    ensures ReconAccounts(rows + more, ids, period) ==
              ReconAccounts(rows, ids, period) + ReconAccounts(more, ids, period)
    ensures |rows| == 1 ==>
              ReconAccounts(rows, ids, period) ==
                if ReopenedRecons(rows, ids, period) == rows then [] else [rows[0].account]
  {
    if |rows| == 1 {
      assert rows[..0] == [] && (rows[0].status != Pending ==> ResetRecon(rows[0]) != rows[0]);
    }
    if more == [] {
      assert rows + more == rows;
    } else {
      var front, last := more[..|more| - 1], more[|more| - 1];
      ReopenedAre(rows, front, ids, period);
      assert (rows + more)[..|rows + more| - 1] == rows + front;
    }
  }

  /** An account is affected exactly when a saved entry of the period has a line on it. */
  lemma AffectedExactly(s: State, period: int, account: string)
    ensures account in Affected(s, period) <==> account != "" && exists id, k :: HasLine(s, period, id, k, account)
  {
    if account in Affected(s, period) {
      var id, ln :|
        id in s.entries && IsSaved(s.entries[id], period) && ln in s.entries[id].lines && ln.account == account;
      var k :| 0 <= k < |s.entries[id].lines| && s.entries[id].lines[k] == ln;
      assert HasLine(s, period, id, k, account);
    }
  }

  predicate HasLine(s: State, period: int, id: nat, k: nat, account: string) {
    && id in s.entries && IsSavedEntry(s.entries[id], period)
    && k < |s.entries[id].lines| && s.entries[id].lines[k].account == account
  }

  /** The check resets review work only when every saved entry of the period is posted. */
  lemma PostedExactly(s: State, period: int)
    ensures AllSavedPosted(s, period) <==>
              forall id :: id in s.entries && IsSavedEntry(s.entries[id], period) ==> s.entries[id].status == Posted
  {
  }

  predicate IsSavedEntry(e: Entry, period: int) {
    e.source != "allocation" && e.period == period && e.savedAt.Some?
  }
}
