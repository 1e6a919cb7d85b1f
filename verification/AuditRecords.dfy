/** That every audit event reaches the log: the writers of backend/core/audit/log.py, seen from
    the entries they were given. */
module AuditRecords {
  import opened Prelude
  import opened Canonical
  import opened AuditChain
  import opened AuditLog

  /** A row without its hashes: what the event says. */
  function Content(r: Row): Row {
    r.(prevHash := None, rowHash := None)
  }

  function Contents(rows: seq<Row>): seq<Option<Row>> {
    seq(|rows|, i requires 0 <= i < |rows| => Some(Content(rows[i])))
  }

  // ---- One step ------------------------------------------------------------

  /** A failed hashing loses nothing: the entry is written, unhashed, behind the rows before it. */
  lemma FailWritesUnhashed(h: Hasher, s: State, t: nat, prev: Option<string>)
    requires Enabled(s, Fail(t, prev))
    ensures var s' := Step(h, s, Fail(t, prev));
            && t in s'.txns && s'.txns[t].stamped.None? && s'.txns[t].pending != []
            && var row := Last(s'.txns[t].pending);
            && s'.txns[t].pending == s.txns[t].pending + [row]
            && Content(row) == Content(s.txns[t].stamped.value) && !IsHashed(row)
            && s.txns[t].stamped.value.id in RowIds(s'.txns[t].pending)
  {
    assert Last(Step(h, s, Fail(t, prev)).txns[t].pending) in Step(h, s, Fail(t, prev)).txns[t].pending;
  }

  /** A chained entry is written with its content, linked to the head and hashed over that link. */
  lemma ChainWritesHashed(h: Hasher, s: State, t: nat)
    requires Enabled(s, Chain(t))
    ensures var s' := Step(h, s, Chain(t));
            && t in s'.txns && s'.txns[t].stamped.None? && s'.txns[t].pending != []
            && var row := Last(s'.txns[t].pending);
            && s'.txns[t].pending == s.txns[t].pending + [row]
            && Content(row) == Content(s.txns[t].stamped.value)
            && row.prevHash == HeadHash(s.committed + s.txns[t].pending) && Rehashes(h, row)
  {
  }

  /** The end of a transaction frees its lock and nobody else's; a commit publishes its rows, a
      rollback none. */
  lemma EndFreesLock(h: Hasher, s: State, t: nat, commits: bool)
    requires Enabled(s, if commits then Commit(t) else Rollback(t))
    ensures var s' := Step(h, s, if commits then Commit(t) else Rollback(t));
            && s'.lock != Some(t) && (s.lock != Some(t) ==> s'.lock == s.lock)
            && t !in s'.txns && (forall u :: u in s.txns && u != t ==> u in s'.txns && s'.txns[u] == s.txns[u])
            && s'.committed == s.committed + (if commits && t in s.txns then s.txns[t].pending else [])
  {
  }

  // ---- Whole runs ----------------------------------------------------------

  predicate Stamps(a: Action, t: nat) { a.Stamp? && a.t == t }

  predicate Writes(a: Action, t: nat) { (a.Chain? || a.Fail?) && a.t == t }

  predicate Ends(a: Action, t: nat) { (a.Commit? || a.Rollback?) && a.t == t }

  /** The stamp the transaction has not written yet, as the number of the action that made it. */
  function StampOf(actions: seq<Action>, t: nat): Option<nat> {
    if actions == [] then None
    else
      var front, a := actions[..|actions| - 1], Last(actions);
      if Stamps(a, t) then Some(|front|) else if Writes(a, t) || Ends(a, t) then None else StampOf(front, t)
  }

  /** The stamps the transaction has written, in order, until it ends. */
  function PendingOf(actions: seq<Action>, t: nat): seq<nat> {
    if actions == [] then []
    else
      var front, a := actions[..|actions| - 1], Last(actions);
      if Ends(a, t) then []
      else if Writes(a, t) && StampOf(front, t).Some? then PendingOf(front, t) + [StampOf(front, t).value]
      else PendingOf(front, t)
  }

  /** The stamps whose transactions have committed, in commit order. */
  function CommittedOf(actions: seq<Action>): seq<nat> {
    if actions == [] then []
    else
      var front, a := actions[..|actions| - 1], Last(actions);
      if a.Commit? then CommittedOf(front) + PendingOf(front, a.t) else CommittedOf(front)
  }

  function EntryAt(actions: seq<Action>, i: nat): Option<Row> {
    if i < |actions| && actions[i].Stamp? then Some(Content(actions[i].entry)) else None
  }

  function Entries(actions: seq<Action>, idx: seq<nat>): seq<Option<Row>> {
    seq(|idx|, k requires 0 <= k < |idx| => EntryAt(actions, idx[k]))
  }

  ghost predicate Below(idx: seq<nat>, n: nat) {
    forall k :: 0 <= k < |idx| ==> idx[k] < n
  }

  lemma {:induction false} AllBelow(actions: seq<Action>, t: nat)
    ensures Below(PendingOf(actions, t), |actions|) && Below(CommittedOf(actions), |actions|)
    ensures StampOf(actions, t).Some? ==> StampOf(actions, t).value < |actions|
  {
    if actions != [] {
      var front, a := actions[..|actions| - 1], Last(actions);
      AllBelow(front, t);
      if a.Commit? {
        AllBelow(front, a.t);
      }
    }
  }

  lemma EntriesStay(front: seq<Action>, a: Action, idx: seq<nat>)
    requires Below(idx, |front|)
    ensures Entries(front + [a], idx) == Entries(front, idx)
  {
  }

  lemma EntriesAppend(actions: seq<Action>, x: seq<nat>, y: seq<nat>)
    ensures Entries(actions, x + y) == Entries(actions, x) + Entries(actions, y)
  {
  }

  lemma ContentsAppend(x: seq<Row>, y: seq<Row>)
    ensures Contents(x + y) == Contents(x) + Contents(y)
  {
  }

  /** A transaction holds what it stamped and wrote. */
  ghost predicate Keeps(s: State, actions: seq<Action>, t: nat) {
    && Contents(TxnOf(s, t).pending) == Entries(actions, PendingOf(actions, t))
    && (if TxnOf(s, t).stamped.None? then StampOf(actions, t).None?
        else StampOf(actions, t).Some?
             && EntryAt(actions, StampOf(actions, t).value) == Some(Content(TxnOf(s, t).stamped.value)))
  }

  lemma OtherKeeps(h: Hasher, s: State, a: Action, front: seq<Action>, t: nat)
    requires Enabled(s, a) && Keeps(s, front, t) && !Stamps(a, t) && !Writes(a, t) && !Ends(a, t)
    ensures Keeps(Step(h, s, a), front + [a], t)
  {
    var actions := front + [a];
    assert actions[..|actions| - 1] == front && Last(actions) == a;
    AllBelow(front, t);
    EntriesStay(front, a, PendingOf(front, t));
    assert TxnOf(Step(h, s, a), t) == TxnOf(s, t);
  }

  lemma StampKeeps(h: Hasher, s: State, a: Action, front: seq<Action>, t: nat)
    requires Enabled(s, a) && Keeps(s, front, t) && Stamps(a, t)
    ensures Keeps(Step(h, s, a), front + [a], t)
  {
    var actions := front + [a];
    assert actions[..|actions| - 1] == front && Last(actions) == a && actions[|front|] == a;
    AllBelow(front, t);
    EntriesStay(front, a, PendingOf(front, t));
  }

  lemma WriteKeeps(h: Hasher, s: State, a: Action, front: seq<Action>, t: nat)
    requires Enabled(s, a) && Keeps(s, front, t) && Writes(a, t)
    ensures Keeps(Step(h, s, a), front + [a], t)
  {
    var actions := front + [a];
    assert actions[..|actions| - 1] == front && Last(actions) == a;
    AllBelow(front, t);
    var idx, i := PendingOf(front, t), StampOf(front, t).value;
    EntriesStay(front, a, idx + [i]);
    EntriesAppend(front, idx, [i]);
    var s' := Step(h, s, a);
    if a.Chain? {
      ChainWritesHashed(h, s, t);
    } else {
      FailWritesUnhashed(h, s, t, a.prev);
    }
    ContentsAppend(s.txns[t].pending, [Last(s'.txns[t].pending)]);
    assert PendingOf(actions, t) == idx + [i];
    assert Contents([Last(s'.txns[t].pending)]) == Entries(front, [i]);
  }

  lemma EndKeeps(h: Hasher, s: State, a: Action, front: seq<Action>, t: nat)
    requires Enabled(s, a) && Ends(a, t)
    ensures Keeps(Step(h, s, a), front + [a], t)
  {
    var actions := front + [a];
    assert actions[..|actions| - 1] == front && Last(actions) == a;
    EndFreesLock(h, s, t, a.Commit?);
  }

  lemma StepKeepsRecords(h: Hasher, s: State, a: Action, front: seq<Action>, t: nat)
    requires Enabled(s, a) && Keeps(s, front, t)
    ensures Keeps(Step(h, s, a), front + [a], t)
  {
    if Stamps(a, t) {
      StampKeeps(h, s, a, front, t);
    } else if Writes(a, t) {
      WriteKeeps(h, s, a, front, t);
    } else if Ends(a, t) {
      EndKeeps(h, s, a, front, t);
    } else {
      OtherKeeps(h, s, a, front, t);
    }
  }

  lemma CommittedStep(h: Hasher, s: State, a: Action, front: seq<Action>)
    requires Enabled(s, a) && Contents(s.committed) == Entries(front, CommittedOf(front))
    requires a.Commit? ==> Keeps(s, front, a.t)
    ensures Contents(Step(h, s, a).committed) == Entries(front + [a], CommittedOf(front + [a]))
  {
    var actions := front + [a];
    assert actions[..|actions| - 1] == front && Last(actions) == a;
    AllBelow(front, if a.Commit? then a.t else 0);
    EntriesStay(front, a, CommittedOf(actions));
    if a.Commit? {
      EntriesAppend(front, CommittedOf(front), PendingOf(front, a.t));
      ContentsAppend(s.committed, TxnOf(s, a.t).pending);
    }
  }

  /** Over every run the committed log is, entry for entry and in commit order, what was stamped
      and written in the transactions that committed; hashing failures change no content and lose
      no entry. */
  lemma {:induction false} LogIsWhatWasWritten(
    h: Hasher, states: seq<State>, actions: seq<Action>, n: nat, t: nat)
    requires IsRun(h, states, actions) && n <= |actions|
    ensures Contents(states[n].committed) == Entries(actions[..n], CommittedOf(actions[..n]))
    ensures Keeps(states[n], actions[..n], t)
  {
    if n == 0 {
      assert actions[..0] == [];
    } else {
      var front, a := actions[..n - 1], actions[n - 1];
      assert actions[..n] == front + [a];
      LogIsWhatWasWritten(h, states, actions, n - 1, t);
      if a.Commit? {
        LogIsWhatWasWritten(h, states, actions, n - 1, a.t);
      }
      StepKeepsRecords(h, states[n - 1], a, front, t);
      CommittedStep(h, states[n - 1], a, front);
    }
  }

  // ---- Which entries those are ---------------------------------------------

  /** Stamp i of the transaction is still waiting to be written. */
  ghost predicate Waits(actions: seq<Action>, t: nat, i: nat) {
    && i < |actions| && Stamps(actions[i], t)
    && forall k :: i < k < |actions| ==> !Stamps(actions[k], t) && !Writes(actions[k], t) && !Ends(actions[k], t)
  }

  /** It was written by action w, and the transaction has not ended since. */
  ghost predicate WrittenAt(actions: seq<Action>, t: nat, i: nat, w: nat) {
    && w < |actions| && Waits(actions[..w], t, i) && Writes(actions[w], t)
    && forall k :: w < k < |actions| ==> !Ends(actions[k], t)
  }

  ghost predicate Pends(actions: seq<Action>, t: nat, i: nat) {
    exists w :: WrittenAt(actions, t, i, w)
  }

  /** It was written in a transaction that then committed with action j. */
  ghost predicate LandsAt(actions: seq<Action>, i: nat, j: nat) {
    j < |actions| && actions[j].Commit? && Pends(actions[..j], actions[j].t, i)
  }

  lemma {:induction false} StampOfIs(actions: seq<Action>, t: nat, i: nat)
    ensures StampOf(actions, t) == Some(i) <==> Waits(actions, t, i)
  {
    if actions != [] {
      var front, a := actions[..|actions| - 1], Last(actions);
      StampOfIs(front, t, i);
      AllBelow(front, t);
      assert i < |front| ==> actions[i] == front[i];
      assert forall k :: 0 <= k < |front| ==> front[k] == actions[k];
      assert actions[|front|] == a;
    }
  }

  lemma PendsSnoc(front: seq<Action>, a: Action, t: nat, i: nat)
    ensures Pends(front + [a], t, i) <==>
              !Ends(a, t) && (Pends(front, t, i) || (Writes(a, t) && Waits(front, t, i)))
  {
    var actions := front + [a];
    assert actions[..|front|] == front;
    forall w | 0 <= w < |front|
      ensures WrittenAt(actions, t, i, w) <==> WrittenAt(front, t, i, w) && !Ends(a, t)
    {
      assert actions[..w] == front[..w] && actions[w] == front[w] && actions[|front|] == a;
      assert forall k :: w < k < |front| ==> actions[k] == front[k];
    }
    assert WrittenAt(actions, t, i, |front|) <==> Waits(front, t, i) && Writes(a, t);
    if Pends(actions, t, i) {
      var w :| WrittenAt(actions, t, i, w);
      assert w == |front| || WrittenAt(front, t, i, w);
    }
    if Pends(front, t, i) && !Ends(a, t) {
      var w :| WrittenAt(front, t, i, w);
      assert WrittenAt(actions, t, i, w);
    }
  }

  lemma {:induction false} PendingOfIs(actions: seq<Action>, t: nat, i: nat)
    ensures i in PendingOf(actions, t) <==> Pends(actions, t, i)
  {
    if actions != [] {
      var front, a := actions[..|actions| - 1], Last(actions);
      assert front + [a] == actions;
      PendingOfIs(front, t, i);
      StampOfIs(front, t, i);
      PendsSnoc(front, a, t, i);
    }
  }

  /** An entry is in the committed log exactly when it was stamped, written, hashed or not, and its
      transaction committed before it ended in any other way. */
  lemma {:induction false} CommittedOfIs(actions: seq<Action>, i: nat)
    ensures i in CommittedOf(actions) <==> exists j :: LandsAt(actions, i, j)
  {
    if actions != [] {
      var front, a := actions[..|actions| - 1], Last(actions);
      assert front + [a] == actions;
      CommittedOfIs(front, i);
      if a.Commit? {
        PendingOfIs(front, a.t, i);
      }
      forall j | 0 <= j < |front| ensures LandsAt(actions, i, j) <==> LandsAt(front, i, j) {
        assert actions[..j] == front[..j] && actions[j] == front[j];
      }
      assert actions[..|front|] == front && actions[|front|] == a;
      assert LandsAt(actions, i, |front|) <==> a.Commit? && Pends(front, a.t, i);
      if j :| LandsAt(front, i, j) {
        assert LandsAt(actions, i, j);
      }
    }
  }

  /** And each of them is there once. */
  lemma CommittedOnce(h: Hasher, states: seq<State>, actions: seq<Action>, n: nat, i: nat, j: nat)
    requires Digests(h) && IsRun(h, states, actions) && n <= |actions| && i < j < |CommittedOf(actions[..n])|
    ensures CommittedOf(actions[..n])[i] != CommittedOf(actions[..n])[j]
  {
    var idx, rows := CommittedOf(actions[..n]), states[n].committed;
    LogIsWhatWasWritten(h, states, actions, n, 0);
    RunKeeps(h, states, actions, n);
    assert |idx| == |Entries(actions[..n], idx)| == |Contents(rows)| == |rows|;
    assert Contents(rows)[i] == Some(Content(rows[i])) && Contents(rows)[j] == Some(Content(rows[j]));
    assert rows[i].id != rows[j].id;
  }

  /** The order in which the head and the verifier read rows: by instant, and by id within one. */
  lemma BeforeMeans(a: Row, b: Row)
    ensures a.createdAt < b.createdAt ==> Before(a, b) && !Before(b, a)
    ensures a.createdAt == b.createdAt ==> (Before(a, b) <==> Le(a.id, b.id) && a.id != b.id)
  {
    LeTotal(a.id, b.id);
  }

  /** The head a writer reads is the hash of the hashed row behind all others in that order. */
  lemma HeadIsLast(rows: seq<Row>, r: Row)
    requires r in Hashed(rows) && DistinctIds(Hashed(rows))
    requires forall q :: q in Hashed(rows) && q != r ==> Before(q, r)
    ensures HeadHash(rows) == r.rowHash
    ensures r in rows && IsHashed(r)
  {
    HashedSubset(rows);
    TopIsLast(Hashed(rows), r);
  }

  lemma {:induction false} TopIsLast(c: seq<Row>, r: Row)
    requires r in c && forall q :: q in c && q != r ==> Before(q, r)
    ensures Top(c) == r
  {
    if |c| > 1 {
      var front := c[..|c| - 1];
      assert c == front + [Last(c)];
      TopInside(front);
      BeforeOrder(Top(front), r, r);
      if r in front {
        TopIsLast(front, r);
        BeforeOrder(r, Last(c), r);
      } else {
        assert Top(front) in c && Top(front) != r;
      }
    }
  }

  lemma {:induction false} TopInside(c: seq<Row>)
    requires c != []
    ensures Top(c) in c
  {
    if |c| > 1 {
      TopInside(c[..|c| - 1]);
    }
  }
}
