/** Who may do what to an adjusting entry, and what it does: the requests of
    backend/modules/adjustments/router.py one by one, and segregation of duties over whole runs. */
module AdjustmentDuties {
  import opened Prelude
  import opened Text
  import opened Adjustments

  // ---- Who may -------------------------------------------------------------

  /** The entry is one of the close's, in a period that is open. */
  predicate Reachable(s: State, id: nat) {
    id in s.entries && s.entries[id].source != "allocation" && s.entries[id].period !in s.closed
  }

  /** An approval needs a reviewer or an admin, an open period, and, but for an admin, somebody else
      than the entry's preparer. */
  lemma AcceptExactly(s: State, u: User, id: nat)
    ensures Code(s, Accept(u, id)) == 200 <==>
              && u.role != Preparer && Reachable(s, id)
              && (u.role == Admin || s.entries[id].preparedBy != Some(u.id))
  {
  }

  /** A dismissal needs a reviewer or an admin, a reason of three characters behind the spaces, and
      an entry that is not saved. */
  lemma DismissExactly(s: State, u: User, id: nat, raw: string)
    ensures Code(s, Dismiss(u, id, raw)) == 200 <==>
              u.role != Preparer && |Strip(raw)| >= 3 && Reachable(s, id) && s.entries[id].savedAt.None?
  {
  }

  /** Posting and reopening need a reviewer or an admin; only accepted entries are reopened, and
      only open ones edited, by anybody, with lines that balance. */
  lemma OthersExactly(s: State, u: User, id: nat, lines: Option<seq<JeLine>>)
    ensures Code(s, MarkPosted(u, id)) == 200 <==> u.role != Preparer && Reachable(s, id)
    ensures Code(s, Reopen(u, id)) == 200 <==>
              u.role != Preparer && Reachable(s, id) && s.entries[id].status == Status.Accepted
    ensures Code(s, Edit(u, id, lines)) == 200 <==>
              Reachable(s, id) && s.entries[id].status == Open && (lines.None? || Balanced(lines.value))
  {
  }

  /** An entry of the period that is still in play. */
  predicate InPlay(e: Entry, period: int) {
    e.source != "allocation" && e.period == period && e.status != Dismissed
  }

  /** A batch is saved by a reviewer or an admin when the period is open and has entries in play, all
      of them decided. */
  lemma SaveExactly(s: State, u: User, period: int, now: int)
    ensures Code(s, Save(u, period, now)) == 200 <==>
              && u.role != Preparer && period !in s.closed
              && (exists id :: id in s.entries && InPlay(s.entries[id], period))
              && (forall id :: id in s.entries && InPlay(s.entries[id], period) ==> s.entries[id].status != Open)
  {
  }

  /** What is missing comes before what is locked, and a role before both. */
  lemma RefusalsInOrder(s: State, u: User, id: nat, raw: string, lines: Option<seq<JeLine>>)
    ensures u.role == Preparer ==>
              && Code(s, Accept(u, id)) == 403 && Code(s, Dismiss(u, id, raw)) == 403
              && Code(s, MarkPosted(u, id)) == 403 && Code(s, Reopen(u, id)) == 403
    ensures u.role != Preparer && !Loads(s, id) ==>
              && Code(s, Accept(u, id)) == 404 && Code(s, MarkPosted(u, id)) == 404 && Code(s, Reopen(u, id)) == 404
              && Code(s, Edit(u, id, lines)) == 404
    ensures u.role != Preparer && |Strip(raw)| < 3 ==> Code(s, Dismiss(u, id, raw)) == 422
    ensures u.role != Preparer && Loads(s, id) && s.entries[id].period in s.closed ==>
              && Code(s, Accept(u, id)) == 423 && Code(s, MarkPosted(u, id)) == 423
              && (|Strip(raw)| >= 3 ==> Code(s, Dismiss(u, id, raw)) == 423)
    ensures Loads(s, id) && s.entries[id].status != Open ==> Code(s, Edit(u, id, lines)) == 409
  {
  }

  // ---- What it does --------------------------------------------------------

  /** An approval is stamped with its reviewer, a dismissal with the stripped reason cut at 500
      characters, and posting changes the status only; no other entry or field changes. */
  lemma DecisionEffects(s: State, u: User, id: nat, raw: string)
    ensures Code(s, Accept(u, id)) == 200 ==>
              Step(s, Accept(u, id)) == s.(entries := s.entries[id := s.entries[id].(
                status := Status.Accepted, approvedBy := Some(u.id), approvedAs := Some(u.role))])
    ensures Code(s, Dismiss(u, id, raw)) == 200 ==>
              var reason := if |Strip(raw)| <= 500 then Strip(raw) else Strip(raw)[..500];
              Step(s, Dismiss(u, id, raw)) == s.(entries := s.entries[id := s.entries[id].(
                status := Dismissed, dismissReason := Some(reason))])
    ensures Code(s, MarkPosted(u, id)) == 200 ==>
              Step(s, MarkPosted(u, id)) == s.(entries := s.entries[id := s.entries[id].(status := Status.Posted)])
  {
  }

  /** Reopening withdraws the approval, the reason and the place in the saved batch, but not the
      preparer; an edit replaces the lines, if new ones are given, and records its user. */
  lemma ChangeEffects(s: State, u: User, id: nat, lines: Option<seq<JeLine>>)
    ensures Code(s, Reopen(u, id)) == 200 ==>
              Step(s, Reopen(u, id)) == s.(entries := s.entries[id := s.entries[id].(
                status := Open, savedAt := None, approvedBy := None, approvedAs := None, dismissReason := None)])
    ensures Code(s, Edit(u, id, lines)) == 200 ==>
              Step(s, Edit(u, id, lines)) == s.(entries := s.entries[id := s.entries[id].(
                lines := if lines.Some? then lines.value else s.entries[id].lines, preparedBy := Some(u.id))])
  {
  }

  /** Saving a batch leaves every entry in play saved, at the instant it was first saved, and
      changes nothing else. */
  lemma SaveEffects(s: State, u: User, period: int, now: int, id: nat)
    requires Code(s, Save(u, period, now)) == 200
    ensures Step(s, Save(u, period, now)).entries.Keys == s.entries.Keys
    ensures id in s.entries ==>
              var e, f := s.entries[id], Step(s, Save(u, period, now)).entries[id];
              && f == e.(savedAt := f.savedAt)
              && f.savedAt == (if InPlay(e, period) && e.savedAt.None? then Some(now) else e.savedAt)
              && (InPlay(e, period) ==> f.savedAt.Some?)
  {
  }

  /** The posting check confirms exactly the saved entries of the period that were found, with the
      first hundred characters of the document. */
  lemma CheckEffects(s: State, u: User, period: int, now: int, found: map<nat, string>, id: nat)
    requires Code(s, CheckPosted(u, period, now, found)) == 200
    ensures Step(s, CheckPosted(u, period, now, found)).entries.Keys == s.entries.Keys
    ensures id in s.entries ==>
              var e, f := s.entries[id], Step(s, CheckPosted(u, period, now, found)).entries[id];
              if e.source != "allocation" && e.period == period && e.savedAt.Some? && id in found
              then f == e.(status := Status.Posted, confirmedAt := Some(now),
                           postedDoc := Some(if |found[id]| <= 100 then found[id] else found[id][..100]))
              else f == e
  {
  }

  /** The export takes the saved, accepted entries of the period and no others. */
  lemma ExportedExactly(s: State, period: int, id: nat)
    ensures Exported(s, period, id) <==>
              && id in s.entries && s.entries[id].source != "allocation" && s.entries[id].period == period
              && s.entries[id].savedAt.Some? && s.entries[id].status == Status.Accepted
  {
  }

  /** Totals add up line by line. */
  lemma {:induction false} TotalsAdd(a: seq<JeLine>, b: seq<JeLine>)
    ensures DebitTotal(a + b) == DebitTotal(a) + DebitTotal(b)
    ensures CreditTotal(a + b) == CreditTotal(a) + CreditTotal(b)
    ensures |a| == 1 ==> DebitTotal(a) == a[0].debit && CreditTotal(a) == a[0].credit
  {
    if a == [] {
      assert a + b == b;
    } else {
      assert (a + b)[1..] == a[1..] + b;
      TotalsAdd(a[1..], b);
    }
  }

  /** Two lines balance when the debits are positive and within a cent of the credits; one line, or
      none, never does. */
  lemma TwoLinesBalance(l: JeLine, m: JeLine)
    ensures Balanced([l, m]) <==>
              && l.debit + m.debit > 0
              && -1 <= (l.debit + m.debit) - (l.credit + m.credit) <= 1
    ensures !Balanced([]) && !Balanced([l])
  {
    assert [l, m] == [l] + [m];
    TotalsAdd([l], [m]);
    TotalsAdd([m], []);
  }

  // ---- Segregation of duties over runs -------------------------------------

  /** Whoever edits an entry cannot then approve it, unless an admin. */
  lemma EditorCannotAccept(s: State, u: User, id: nat, lines: Option<seq<JeLine>>)
    requires u.role != Admin && Code(s, Edit(u, id, lines)) == 200
    ensures Code(Step(s, Edit(u, id, lines)), Accept(u, id)) == 403
  {
  }

  /** The request edits this entry and is let through. */
  predicate Edits(s: State, a: Action, id: nat) {
    a.Edit? && a.id == id && Code(s, a) == 200
  }

  /** The request adds this entry, or takes it out. */
  predicate Replaces(s: State, a: Action, id: nat) {
    (a.Draft? || a.Discard?) && a.id == id && Code(s, a) == 200
  }

  /** An edit records its user, a new entry has no preparer, and every other request leaves the
      preparer as it is. */
  lemma PreparerStep(s: State, a: Action, id: nat)
    requires id in Step(s, a).entries
    ensures Edits(s, a, id) ==> Step(s, a).entries[id].preparedBy == Some(a.user.id)
    ensures Replaces(s, a, id) ==> Step(s, a).entries[id].preparedBy == None
    ensures !Edits(s, a, id) && !Replaces(s, a, id) ==>
              id in s.entries && Step(s, a).entries[id].preparedBy == s.entries[id].preparedBy
  {
  }

  predicate EditsAt(actions: seq<Action>, i: nat, id: nat)
    requires i < |actions|
  {
    Edits(Run(EMPTY, actions[..i]), actions[i], id)
  }

  predicate TouchesAt(actions: seq<Action>, i: nat, id: nat)
    requires i < |actions|
  {
    EditsAt(actions, i, id) || Replaces(Run(EMPTY, actions[..i]), actions[i], id)
  }

  ghost predicate Untouched(actions: seq<Action>, i: nat, id: nat) {
    forall j :: i < j < |actions| ==> !TouchesAt(actions, j, id)
  }

  /** Action i is the last successful edit of the entry as it now stands. */
  ghost predicate LastEdit(actions: seq<Action>, i: nat, id: nat) {
    i < |actions| && EditsAt(actions, i, id) && Untouched(actions, i, id)
  }

  lemma AtSnoc(front: seq<Action>, a: Action, i: nat, id: nat)
    requires i <= |front|
    ensures EditsAt(front + [a], i, id) ==
              if i == |front| then Edits(Run(EMPTY, front), a, id) else EditsAt(front, i, id)
    ensures TouchesAt(front + [a], i, id) ==
              if i == |front| then Edits(Run(EMPTY, front), a, id) || Replaces(Run(EMPTY, front), a, id)
              else TouchesAt(front, i, id)
  {
    var actions := front + [a];
    if i == |front| {
      assert actions[..i] == front && actions[i] == a;
    } else {
      assert actions[..i] == front[..i] && actions[i] == front[i];
    }
  }

  lemma UntouchedSnoc(front: seq<Action>, a: Action, i: nat, id: nat)
    requires i < |front|
    ensures Untouched(front + [a], i, id) <==> Untouched(front, i, id) && !TouchesAt(front + [a], |front|, id)
  {
    forall j | 0 <= j < |front| ensures TouchesAt(front + [a], j, id) == TouchesAt(front, j, id) {
      AtSnoc(front, a, j, id);
    }
  }

  lemma LastEditSnoc(front: seq<Action>, a: Action, i: nat, id: nat)
    ensures LastEdit(front + [a], i, id) <==>
              if i == |front| then Edits(Run(EMPTY, front), a, id)
              else LastEdit(front, i, id) && !Edits(Run(EMPTY, front), a, id) && !Replaces(Run(EMPTY, front), a, id)
  {
    AtSnoc(front, a, |front|, id);
    if i < |front| {
      AtSnoc(front, a, i, id);
      UntouchedSnoc(front, a, i, id);
    }
  }

  /** In every state any run reaches, an entry's preparer is the user of the last edit of it that was
      let through, and nobody if there was none. */
  lemma {:induction false} PreparerIsLastEditor(actions: seq<Action>, id: nat)
    requires id in Run(EMPTY, actions).entries
    ensures forall i: nat {:trigger LastEdit(actions, i, id)} ::
              LastEdit(actions, i, id) ==> Run(EMPTY, actions).entries[id].preparedBy == Some(actions[i].user.id)
    ensures Run(EMPTY, actions).entries[id].preparedBy.Some? ==> exists i: nat :: LastEdit(actions, i, id)
  {
    if actions != [] {
      var n := |actions| - 1;
      var front, a := actions[..n], actions[n];
      var before := Run(EMPTY, front);
      assert actions == front + [a];
      PreparerStep(before, a, id);
      forall i: nat ensures LastEdit(actions, i, id) <==>
        if i == n then Edits(before, a, id)
        else LastEdit(front, i, id) && !Edits(before, a, id) && !Replaces(before, a, id)
      {
        LastEditSnoc(front, a, i, id);
      }
      if Edits(before, a, id) {
        assert LastEdit(actions, n, id);
      } else if !Replaces(before, a, id) {
        PreparerIsLastEditor(front, id);
        if before.entries[id].preparedBy.Some? {
          var i: nat :| LastEdit(front, i, id);
          assert LastEdit(actions, i, id);
        }
      }
    }
  }

  /** So in every run an approval is let through only when somebody other than the last editor gives
      it, or an admin; and the refusal of the last editor lasts until somebody else edits. */
  lemma LastEditorIsRefused(actions: seq<Action>, i: nat, id: nat, u: User)
    requires LastEdit(actions, i, id) && actions[i].user.id == u.id && u.role != Admin
    ensures Code(Run(EMPTY, actions), Accept(u, id)) != 200
    ensures Reachable(Run(EMPTY, actions), id) ==> Code(Run(EMPTY, actions), Accept(u, id)) == 403
  {
    if id in Run(EMPTY, actions).entries {
      PreparerIsLastEditor(actions, id);
    }
  }

  /** An entry nobody has edited may be approved by any reviewer. */
  lemma UneditedIsApprovable(actions: seq<Action>, id: nat, u: User)
    requires u.role != Preparer && Reachable(Run(EMPTY, actions), id)
    requires forall i: nat {:trigger LastEdit(actions, i, id)} :: !LastEdit(actions, i, id)
    ensures Code(Run(EMPTY, actions), Accept(u, id)) == 200
  {
    PreparerIsLastEditor(actions, id);
  }

  // ---- The rest of the requests --------------------------------------------

  /** A batch that cannot be saved or checked is refused for its user, its period, for being empty
      and for being undecided, in this order. */
  lemma BatchRefusals(s: State, u: User, period: int, now: int, found: map<nat, string>)
    ensures u.role == Preparer ==> Code(s, Save(u, period, now)) == 403
    ensures u.role != Preparer && period in s.closed ==> Code(s, Save(u, period, now)) == 423
    ensures u.role != Preparer && period !in s.closed ==>
              (Code(s, Save(u, period, now)) == 400 <==>
                forall id :: id in s.entries ==> !InPlay(s.entries[id], period))
    ensures Code(s, Save(u, period, now)) in {200, 400, 403, 409, 423}
    ensures period in s.closed ==> Code(s, CheckPosted(u, period, now, found)) == 423
    ensures period !in s.closed ==>
              Code(s, CheckPosted(u, period, now, found)) ==
                if exists id :: id in s.entries && IsSaved(s.entries[id], period) then 200 else 400
  {
  }

  /** Saved entries are not dismissed, only approved ones reopened, one's own not approved, and
      unbalanced lines not accepted: each has its own answer. */
  lemma EntryRefusals(s: State, u: User, id: nat, raw: string, lines: Option<seq<JeLine>>)
    requires u.role != Preparer && Loads(s, id)
    ensures Reachable(s, id) && s.entries[id].savedAt.Some? && |Strip(raw)| >= 3 ==> Code(s, Dismiss(u, id, raw)) == 409
    ensures s.entries[id].status != Status.Accepted ==> Code(s, Reopen(u, id)) == 409
    ensures s.entries[id].status == Status.Accepted && !Reachable(s, id) ==> Code(s, Reopen(u, id)) == 423
    ensures Reachable(s, id) && u.role == Reviewer && s.entries[id].preparedBy == Some(u.id) ==>
              Code(s, Accept(u, id)) == 403
    ensures s.entries[id].status == Open && !Reachable(s, id) ==> Code(s, Edit(u, id, lines)) == 423
    ensures s.entries[id].status == Open && Reachable(s, id) && lines.Some? && !Balanced(lines.value) ==>
              Code(s, Edit(u, id, lines)) == 422
  {
  }

  /** What the environment does: drafts come as open, unprepared entries, open ones may be taken out
      again, and periods are closed and reopened. */
  lemma EnvironmentEffects(s: State, id: nat, source: string, period: int, lines: seq<JeLine>)
    ensures Step(s, Draft(id, source, period, lines)) ==
              if id in s.entries then s
              else
                var draft := Entry(source, period, lines, Open, None, None, None, None, None, None, None);
                s.(entries := s.entries[id := draft])
    ensures Step(s, Discard(id)) ==
              if id in s.entries && s.entries[id].status == Open then s.(entries := s.entries - {id}) else s
    ensures Step(s, ClosePeriod(period)) == s.(closed := s.closed + {period})
    ensures Step(s, ReopenPeriod(period)) == s.(closed := s.closed - {period})
  {
  }

  /** The booked entries and their parts stand in the order of the rows. */
  lemma {:induction false} PartsInOrder(a: seq<Entry>, b: seq<Entry>, capturedAt: Option<int>, d: Disposition)
    ensures Booked(a + b) == Booked(a) + Booked(b)
    ensures Having(a + b, capturedAt, d) == Having(a, capturedAt, d) + Having(b, capturedAt, d)
  {
    if b == [] {
      assert a + b == a;
    } else {
      var front, all := b[..|b| - 1], a + b;
      PartsInOrder(a, front, capturedAt, d);
      assert all[..|all| - 1] == a + front && all[|all| - 1] == b[|b| - 1];
    }
  }
}
