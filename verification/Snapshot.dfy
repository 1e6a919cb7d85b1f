/** Capturing the trial balance into the snapshot table: backend/core/gl_snapshot.py. */
module Snapshot {
  import opened Prelude
  import opened Text
  import opened TrialBalance

  /** One account of the chart as QuickBooks lists it. */
  datatype Account = Account(id: string, name: string, acctNum: string, acctType: string, fullName: string)

  /** The unique key of a snapshot row: tenant, account, period. */
  datatype Key = Key(tenant: int, account: string, period: int)
  datatype Snap = Snap(number: Option<string>, name: string, acctType: string, balance: int)

  predicate IsBalanceSheet(acctType: string) {
    acctType in ["Bank", "Accounts Receivable", "Other Current Asset", "Fixed Asset", "Other Asset",
                 "Accounts Payable", "Credit Card", "Other Current Liability", "Long Term Liability", "Equity"]
  }

  // ---- The chart ---------------------------------------------------------

  /** Assigning into a dictionary: a new key goes last, a known one keeps its place. */
  function Put(chart: seq<Account>, a: Account): (r: seq<Account>)
    ensures |r| <= |chart| + 1
  {
    if chart == [] then [a]
    else if chart[0].id == a.id then [a] + chart[1..]
    else [chart[0]] + Put(chart[1..], a)
  }

  /** `{str(a.get("Id")): a for a in accounts if a.get("Id")}`. */
  function ChartOf(accounts: seq<Account>): seq<Account> {
    if accounts == [] then []
    else
      var a := accounts[|accounts| - 1];
      var before := ChartOf(accounts[..|accounts| - 1]);
      if a.id == "" then before else Put(before, a)
  }

  ghost predicate DistinctAccounts(chart: seq<Account>) {
    forall i, j :: 0 <= i < j < |chart| ==> chart[i].id != chart[j].id
  }

  function AccountIds(chart: seq<Account>): set<string> {
    set a | a in chart :: a.id
  }

  lemma {:induction false} PutKeeps(chart: seq<Account>, a: Account)
    requires DistinctAccounts(chart)
    ensures DistinctAccounts(Put(chart, a)) && AccountIds(Put(chart, a)) == AccountIds(chart) + {a.id}
  {
    if chart != [] {
      var rest := chart[1..];
      assert chart == [chart[0]] + rest;
      IdsCons(chart[0], rest);
      if chart[0].id == a.id {
        IdsCons(a, rest);
      } else {
        PutKeeps(rest, a);
        IdsCons(chart[0], Put(rest, a));
        assert chart[0].id !in AccountIds(rest) by {
          forall i | 0 <= i < |rest| ensures rest[i].id != chart[0].id { assert rest[i] == chart[i + 1]; }
        }
        DistinctCons(chart[0], Put(rest, a));
      }
    }
  }

  lemma DistinctCons(a: Account, rest: seq<Account>)
    requires DistinctAccounts(rest) && a.id !in AccountIds(rest)
    ensures DistinctAccounts([a] + rest)
  {
    forall i | 0 <= i < |rest| ensures rest[i].id != a.id { assert rest[i] in rest; }
  }

  lemma IdsCons(a: Account, rest: seq<Account>)
    ensures AccountIds([a] + rest) == {a.id} + AccountIds(rest)
  {
    forall i ensures i in AccountIds([a] + rest) <==> i in {a.id} + AccountIds(rest) {
      assert a in [a] + rest;
      if i in AccountIds(rest) {
        var q :| q in rest && q.id == i;
        assert q in [a] + rest;
      }
    }
  }

  lemma {:induction false} ChartIsDistinct(accounts: seq<Account>)
    ensures DistinctAccounts(ChartOf(accounts))
  {
    if accounts != [] {
      ChartIsDistinct(accounts[..|accounts| - 1]);
      PutKeeps(ChartOf(accounts[..|accounts| - 1]), accounts[|accounts| - 1]);
    }
  }

  lemma {:induction false} PutHolds(chart: seq<Account>, a: Account, x: Account)
    requires DistinctAccounts(chart)
    ensures x in Put(chart, a) <==> x == a || (x in chart && x.id != a.id)
  {
    if chart != [] {
      var rest := chart[1..];
      assert chart == [chart[0]] + rest;
      assert forall y :: y in rest ==> y.id != chart[0].id;
      if chart[0].id != a.id {
        PutHolds(rest, a, x);
      }
    }
  }

  /** No later account of the list has this one's id. */
  ghost predicate IsLast(accounts: seq<Account>, i: nat)
    requires i < |accounts|
  {
    forall j :: i < j < |accounts| ==> accounts[j].id != accounts[i].id
  }

  /** The chart holds, once, the last account listed under each id, and no account without one. */
  lemma {:induction false} ChartHolds(accounts: seq<Account>, x: Account)
    ensures x in ChartOf(accounts) <==>
              x.id != "" && exists i :: 0 <= i < |accounts| && accounts[i] == x && IsLast(accounts, i)
    ensures DistinctAccounts(ChartOf(accounts))
  {
    ChartIsDistinct(accounts);
    if accounts != [] {
      var n, front := |accounts| - 1, accounts[..|accounts| - 1];
      var a := accounts[n];
      ChartHolds(front, x);
      PutHolds(ChartOf(front), a, x);
      assert IsLast(accounts, n);
      forall i | 0 <= i < n ensures IsLast(accounts, i) <==> IsLast(front, i) && accounts[i].id != a.id {
        assert IsLast(front, i) <==> forall j :: i < j < n ==> accounts[j].id != accounts[i].id;
      }
    }
  }

  // ---- One account -------------------------------------------------------

  function Found(tb: Tb, a: Account): Option<int> {
    LookupBalance(tb, a.id, Strip(a.acctNum), Strip(a.name), Strip(a.fullName))
  }

  /** The balance stored: what the resolver finds, or zero. */
  function Stored(tb: Tb, a: Account): int {
    if Found(tb, a).Some? then Found(tb, a).value else 0
  }

  function SnapOf(tb: Tb, a: Account): Snap {
    var num := Strip(a.acctNum);
    Snap(if num != "" then Some(num) else None, Strip(a.name), Strip(a.acctType), Stored(tb, a))
  }

  predicate IsMiss(tb: Tb, a: Account) {
    Strip(a.name) != "" && Found(tb, a).None? && IsBalanceSheet(Strip(a.acctType))
  }

  function MissLabel(a: Account): string {
    (if Strip(a.acctNum) != "" then Strip(a.acctNum) + " " else "")
    + (if Strip(a.fullName) != "" then Strip(a.fullName) else Strip(a.name))
  }

  // ---- The whole chart ---------------------------------------------------

  function CaptureOne(table: map<Key, Snap>, tenant: int, period: int, tb: Tb, a: Account): map<Key, Snap> {
    if Strip(a.name) == "" then table else table[Key(tenant, a.id, period) := SnapOf(tb, a)]
  }

  /** The table after the accounts of the chart have been written. */
  function Captured(table: map<Key, Snap>, tenant: int, period: int, tb: Tb, chart: seq<Account>): map<Key, Snap> {
    if chart == [] then table
    else CaptureOne(Captured(table, tenant, period, tb, chart[..|chart| - 1]), tenant, period, tb, chart[|chart| - 1])
  }

  function MissOf(tb: Tb, a: Account): seq<string> {
    if IsMiss(tb, a) then [MissLabel(a)] else []
  }

  function Misses(tb: Tb, chart: seq<Account>): seq<string> {
    if chart == [] then [] else Misses(tb, chart[..|chart| - 1]) + MissOf(tb, chart[|chart| - 1])
  }

  function Counts(a: Account): nat {
    if Strip(a.name) == "" then 0 else 1
  }

  function WrittenCount(chart: seq<Account>): nat {
    if chart == [] then 0 else WrittenCount(chart[..|chart| - 1]) + Counts(chart[|chart| - 1])
  }

  /** The snapshot table, updated in place. */
  class SnapshotDb {
    var table: map<Key, Snap>

    /** One account: look it up, note a balance-sheet miss, update or add its row. */
    method CaptureAccount(tenant: int, period: int, tb: Tb, a: Account) returns (wrote: nat, missed: seq<string>)
      modifies this
      ensures table == CaptureOne(old(table), tenant, period, tb, a)
      ensures wrote == Counts(a) && missed == MissOf(tb, a)
    {
      var name, num, acctType, full := Strip(a.name), Strip(a.acctNum), Strip(a.acctType), Strip(a.fullName);
      wrote, missed := 0, [];
      if name == "" { return; }
      var bal := LookupBalance(tb, a.id, num, name, full);
      if bal.None? {
        if IsBalanceSheet(acctType) {
          missed := [(if num != "" then num + " " else "") + (if full != "" then full else name)];
        }
        bal := Some(0);
      }
      var key := Key(tenant, a.id, period);
      if key !in table {
        table := table[key := Snap(if num != "" then Some(num) else None, name, acctType, bal.value)];
      } else {
        var row := table[key];
        row := row.(number := if num != "" then Some(num) else None);
        row := row.(name := name);
        row := row.(acctType := acctType);
        row := row.(balance := bal.value);
        table := table[key := row];
      }
      wrote := 1;
    }

    /** Without a connection nothing is written; a failed pull or commit leaves the table as it
        was and marks the result stale. */
    method CaptureSnapshot(
      tenant: int, period: int, connected: bool, parsed: Option<Tb>, accounts: seq<Account>, commits: bool)
      returns (written: int, bsMisses: seq<string>)
      modifies this
      ensures connected && parsed.Some? && commits ==>
                && table == Captured(old(table), tenant, period, parsed.value, ChartOf(accounts))
                && written == WrittenCount(ChartOf(accounts)) && bsMisses == Misses(parsed.value, ChartOf(accounts))
      ensures !(connected && parsed.Some? && commits) ==>
                table == old(table) && bsMisses == [] && written == if connected then -1 else 0
    {
      if !connected {
        return 0, [];
      }
      if parsed.None? {
        return -1, [];
      }
      var tb := parsed.value;
      var chart := ChartOf(accounts);
      var committed := table;
      written, bsMisses := 0, [];
      for i := 0 to |chart|
        invariant table == Captured(committed, tenant, period, tb, chart[..i])
        invariant written == WrittenCount(chart[..i]) && bsMisses == Misses(tb, chart[..i])
      {
        assert chart[..i + 1][..i] == chart[..i];
        var wrote, missed := CaptureAccount(tenant, period, tb, chart[i]);
        written := written + wrote;
        bsMisses := bsMisses + missed;
      }
      assert chart[..|chart|] == chart;
      if !commits {
        table := committed;
        return -1, [];
      }
    }
  }

  predicate Writes(tenant: int, period: int, a: Account, k: Key) {
    Strip(a.name) != "" && k == Key(tenant, a.id, period)
  }

  /** Under a listed account's key stands the row of that account; every other row is untouched. */
  lemma CapturedAt(
      table: map<Key, Snap>, tenant: int, period: int, tb: Tb, chart: seq<Account>, k: Key)
    requires DistinctAccounts(chart)
    ensures var t := Captured(table, tenant, period, tb, chart);
            && (forall a :: a in chart && Writes(tenant, period, a, k) ==> k in t && t[k] == SnapOf(tb, a))
            && ((forall a :: a in chart ==> !Writes(tenant, period, a, k)) ==>
                  (k in t <==> k in table) && (k in t && k in table ==> t[k] == table[k]))
  {
    var t := Captured(table, tenant, period, tb, chart);
    forall a | a in chart && Writes(tenant, period, a, k) ensures k in t && t[k] == SnapOf(tb, a) {
      CapturedHere(table, tenant, period, tb, chart, a, k);
    }
    if forall a :: a in chart ==> !Writes(tenant, period, a, k) {
      CapturedElsewhere(table, tenant, period, tb, chart, k);
    }
  }

  lemma {:induction false} CapturedHere(
      table: map<Key, Snap>, tenant: int, period: int, tb: Tb, chart: seq<Account>, a: Account, k: Key)
    requires DistinctAccounts(chart) && a in chart && Writes(tenant, period, a, k)
    ensures var t := Captured(table, tenant, period, tb, chart); k in t && t[k] == SnapOf(tb, a)
  {
    var n := |chart| - 1;
    var front, last := chart[..n], chart[n];
    CaptureOneAt(Captured(table, tenant, period, tb, front), tenant, period, tb, last, k);
    if a != last {
      var i :| 0 <= i < |chart| && chart[i] == a;
      assert front[i] == a && chart[i].id != chart[n].id;
      CapturedHere(table, tenant, period, tb, front, a, k);
    }
  }

  lemma {:induction false} CapturedElsewhere(
      table: map<Key, Snap>, tenant: int, period: int, tb: Tb, chart: seq<Account>, k: Key)
    requires forall a :: a in chart ==> !Writes(tenant, period, a, k)
    ensures var t := Captured(table, tenant, period, tb, chart);
            (k in t <==> k in table) && (k in t && k in table ==> t[k] == table[k])
  {
    if chart != [] {
      var front, last := chart[..|chart| - 1], chart[|chart| - 1];
      CapturedElsewhere(table, tenant, period, tb, front, k);
      CaptureOneAt(Captured(table, tenant, period, tb, front), tenant, period, tb, last, k);
    }
  }

  lemma CaptureOneAt(table: map<Key, Snap>, tenant: int, period: int, tb: Tb, a: Account, k: Key)
    ensures var t := CaptureOne(table, tenant, period, tb, a);
            if Writes(tenant, period, a, k) then k in t && t[k] == SnapOf(tb, a)
            else (k in t <==> k in table) && (k in t && k in table ==> t[k] == table[k])
  {
  }

  /** A second capture of the same report changes nothing. */
  lemma RecaptureChangesNothing(table: map<Key, Snap>, tenant: int, period: int, tb: Tb, accounts: seq<Account>)
    ensures var once := Captured(table, tenant, period, tb, ChartOf(accounts));
            Captured(once, tenant, period, tb, ChartOf(accounts)) == once
  {
    var chart := ChartOf(accounts);
    ChartIsDistinct(accounts);
    var once := Captured(table, tenant, period, tb, chart);
    var twice := Captured(once, tenant, period, tb, chart);
    forall k ensures (k in twice <==> k in once) && (k in twice && k in once ==> twice[k] == once[k]) {
      CapturedAt(table, tenant, period, tb, chart, k);
      CapturedAt(once, tenant, period, tb, chart, k);
    }
  }

  // ---- Conservation ------------------------------------------------------

  function StoredSum(tb: Tb, chart: seq<Account>): int {
    if chart == [] then 0 else StoredSum(tb, chart[..|chart| - 1]) + Stored(tb, chart[|chart| - 1])
  }

  /** The accounts of the chart whose id the report does not carry. */
  function Extra(lines: seq<Line>, chart: seq<Account>): seq<Account> {
    if chart == [] then []
    else
      var a := chart[|chart| - 1];
      Extra(lines, chart[..|chart| - 1]) + (if a.id in Ids(lines) then [] else [a])
  }

  /** Every row of the report carries an id, and no id twice. */
  ghost predicate IdsDistinct(lines: seq<Line>) {
    && (forall l :: l in lines ==> l.id != "")
    && (forall i, j :: 0 <= i < j < |lines| ==> lines[i].id != lines[j].id)
  }

  /** The total of a set of accounts under a balance per id. */
  ghost function Total(ids: set<string>, m: map<string, int>): int
    requires ids <= m.Keys
  {
    if ids == {} then 0
    else
      var i :| i in ids;
      m[i] + Total(ids - {i}, m)
  }

  lemma {:induction false} TotalSplit(ids: set<string>, m: map<string, int>, i: string)
    requires ids <= m.Keys && i in ids
    ensures Total(ids, m) == m[i] + Total(ids - {i}, m)
    decreases ids
  {
    var j :| j in ids && Total(ids, m) == m[j] + Total(ids - {j}, m);
    if i != j {
      TotalSplit(ids - {j}, m, i);
      TotalSplit(ids - {i}, m, j);
      assert ids - {j} - {i} == ids - {i} - {j};
    }
  }

  lemma {:induction false} TotalSame(ids: set<string>, m: map<string, int>, n: map<string, int>)
    requires ids <= m.Keys && ids <= n.Keys && forall i :: i in ids ==> m[i] == n[i]
    ensures Total(ids, m) == Total(ids, n)
    decreases ids
  {
    if ids != {} {
      var i :| i in ids;
      TotalSplit(ids, m, i);
      TotalSplit(ids, n, i);
      TotalSame(ids - {i}, m, n);
    }
  }

  /** The balances by id add up to the debits less the credits. */
  lemma {:induction false} LinesTotal(lines: seq<Line>)
    requires IdsDistinct(lines)
    ensures Total(Ids(lines), ById(lines)) == Debits(lines) - Credits(lines)
  {
    if lines != [] {
      var front, l := lines[..|lines| - 1], lines[|lines| - 1];
      assert lines == front + [l] && l in lines;
      LinesTotal(front);
      IdsSnoc(front, l);
      assert l.id !in Ids(front);
      assert Ids(lines) == ById(lines).Keys && Ids(front) == ById(front).Keys;
      assert Ids(lines) - {l.id} == Ids(front);
      TotalSplit(Ids(lines), ById(lines), l.id);
      TotalSame(Ids(front), ById(lines), ById(front));
    }
  }

  /** The accounts with a row of their own store exactly those balances. */
  lemma {:induction false} ChartTotal(lines: seq<Line>, tb: Tb, chart: seq<Account>)
    requires tb == Meaning(lines) && DistinctAccounts(chart)
    ensures StoredSum(tb, chart) ==
              Total(AccountIds(chart) * Ids(lines), ById(lines)) + StoredSum(tb, Extra(lines, chart))
  {
    if chart == [] {
      assert AccountIds(chart) * Ids(lines) == {};
    } else {
      var front, a := chart[..|chart| - 1], chart[|chart| - 1];
      assert chart == front + [a];
      ChartTotal(lines, tb, front);
      AccountIdsSnoc(front, a);
      forall b | b in front ensures b.id != a.id {}
      assert a.id !in AccountIds(front);
      OneMore(lines, tb, AccountIds(front), a);
      ExtraSum(lines, tb, chart);
    }
  }

  lemma OneMore(lines: seq<Line>, tb: Tb, ids: set<string>, a: Account)
    requires tb == Meaning(lines) && a.id !in ids
    ensures Total((ids + {a.id}) * Ids(lines), ById(lines)) ==
              Total(ids * Ids(lines), ById(lines)) + (if a.id in Ids(lines) then Stored(tb, a) else 0)
  {
    var all := (ids + {a.id}) * Ids(lines);
    if a.id in Ids(lines) {
      assert all - {a.id} == ids * Ids(lines);
      TotalSplit(all, ById(lines), a.id);
      FoundById(lines, tb, a);
    } else {
      assert all == ids * Ids(lines);
    }
  }

  lemma FoundById(lines: seq<Line>, tb: Tb, a: Account)
    requires tb == Meaning(lines) && a.id in Ids(lines)
    ensures Stored(tb, a) == ById(lines)[a.id]
  {
  }

  lemma ExtraSum(lines: seq<Line>, tb: Tb, chart: seq<Account>)
    requires chart != []
    ensures var a := chart[|chart| - 1];
            StoredSum(tb, Extra(lines, chart)) ==
              StoredSum(tb, Extra(lines, chart[..|chart| - 1])) + (if a.id in Ids(lines) then 0 else Stored(tb, a))
  {
    var e, a := Extra(lines, chart[..|chart| - 1]), chart[|chart| - 1];
    assert (e + [a])[..|e|] == e && e + [] == e;
  }

  lemma AccountIdsSnoc(front: seq<Account>, a: Account)
    ensures AccountIds(front + [a]) == AccountIds(front) + {a.id}
  {
    forall i ensures i in AccountIds(front + [a]) <==> i in AccountIds(front) + {a.id} {
      assert a in front + [a];
      if i in AccountIds(front) {
        var q :| q in front && q.id == i;
        assert q in front + [a];
      }
    }
  }

  // ---- The sum of the table ----------------------------------------------

  /** The balance stored for an account, if a row is there. */
  function RowBalance(table: map<Key, Snap>, tenant: int, period: int, a: Account): int {
    var k := Key(tenant, a.id, period);
    if k in table then table[k].balance else 0
  }

  /** What the table's rows of the listed accounts add up to. */
  function TableSum(table: map<Key, Snap>, tenant: int, period: int, chart: seq<Account>): int {
    if chart == [] then 0
    else
      TableSum(table, tenant, period, chart[..|chart| - 1]) + RowBalance(table, tenant, period, chart[|chart| - 1])
  }

  predicate Named(a: Account) {
    Strip(a.name) != ""
  }

  ghost predicate AllNamed(chart: seq<Account>) {
    forall a :: a in chart ==> Named(a)
  }

  /** What nameless accounts change: they are never written, so their old rows stay and their
      balances in the report are lost. */
  function Unwritten(table: map<Key, Snap>, tenant: int, period: int, tb: Tb, chart: seq<Account>): int {
    if chart == [] then 0
    else
      var a := chart[|chart| - 1];
      Unwritten(table, tenant, period, tb, chart[..|chart| - 1])
      + (if Named(a) then 0 else RowBalance(table, tenant, period, a) - Stored(tb, a))
  }

  lemma {:induction false} SumRows(
    table: map<Key, Snap>, after: map<Key, Snap>, tenant: int, period: int, tb: Tb, chart: seq<Account>)
    requires forall a :: a in chart ==>
               RowBalance(after, tenant, period, a) ==
                 if Named(a) then Stored(tb, a) else RowBalance(table, tenant, period, a)
    ensures TableSum(after, tenant, period, chart) ==
              StoredSum(tb, chart) + Unwritten(table, tenant, period, tb, chart)
  {
    if chart != [] {
      SumRows(table, after, tenant, period, tb, chart[..|chart| - 1]);
    }
  }

  lemma {:induction false} NothingUnwritten(
    table: map<Key, Snap>, tenant: int, period: int, tb: Tb, chart: seq<Account>)
    requires AllNamed(chart)
    ensures Unwritten(table, tenant, period, tb, chart) == 0
  {
    if chart != [] {
      NothingUnwritten(table, tenant, period, tb, chart[..|chart| - 1]);
    }
  }

  /** After a capture each listed account's row holds what the resolver found for it, or zero. */
  lemma RowsAreStored(table: map<Key, Snap>, tenant: int, period: int, tb: Tb, chart: seq<Account>, a: Account)
    requires DistinctAccounts(chart) && a in chart
    ensures RowBalance(Captured(table, tenant, period, tb, chart), tenant, period, a) ==
              if Named(a) then Stored(tb, a) else RowBalance(table, tenant, period, a)
  {
    var k := Key(tenant, a.id, period);
    CapturedAt(table, tenant, period, tb, chart, k);
    if !Named(a) {
      forall b | b in chart ensures !Writes(tenant, period, b, k) {
        assert b.id == a.id ==> b == a;
      }
    } else {
      assert Writes(tenant, period, a, k);
    }
  }

  lemma TableSumIs(table: map<Key, Snap>, tenant: int, period: int, tb: Tb, chart: seq<Account>)
    requires DistinctAccounts(chart)
    ensures TableSum(Captured(table, tenant, period, tb, chart), tenant, period, chart) ==
              StoredSum(tb, chart) + Unwritten(table, tenant, period, tb, chart)
  {
    var after := Captured(table, tenant, period, tb, chart);
    forall a | a in chart
      ensures RowBalance(after, tenant, period, a) ==
                if Named(a) then Stored(tb, a) else RowBalance(table, tenant, period, a)
    {
      RowsAreStored(table, tenant, period, tb, chart, a);
    }
    SumRows(table, after, tenant, period, tb, chart);
  }

  /** From the report to the table: when the chart covers the report, the rows of the listed
      accounts add up to the report's imbalance, plus what accounts outside the report picked up
      by name, plus the nameless accounts' correction. With names for all and nothing picked up
      the table conserves the report. */
  lemma SnapshotConserves(
    dec: string -> int, report: seq<Row>, tb: Tb, accounts: seq<Account>,
    table: map<Key, Snap>, tenant: int, period: int)
    requires tb == Meaning(Lines(dec, report)) && IdsDistinct(Lines(dec, report))
    requires Ids(Lines(dec, report)) <= AccountIds(ChartOf(accounts))
    ensures var chart := ChartOf(accounts);
            var extra := Extra(Lines(dec, report), chart);
            var sum := TableSum(Captured(table, tenant, period, tb, chart), tenant, period, chart);
            && sum == Imbalance(tb) + StoredSum(tb, extra) + Unwritten(table, tenant, period, tb, chart)
            && (AllNamed(chart) ==> sum == Imbalance(tb) + StoredSum(tb, extra))
            && (AllNamed(chart) && Unresolved(tb, extra) ==> sum == Imbalance(tb))
            && (AccountIds(chart) == Ids(Lines(dec, report)) ==> extra == [])
  {
    var chart := ChartOf(accounts);
    ChartIsDistinct(accounts);
    LinesConserve(Lines(dec, report), chart, table, tenant, period);
    if AllNamed(chart) {
      NothingUnwritten(table, tenant, period, tb, chart);
    }
    if Unresolved(tb, Extra(Lines(dec, report), chart)) {
      UnresolvedIsZero(tb, Extra(Lines(dec, report), chart));
    }
    if AccountIds(chart) == Ids(Lines(dec, report)) {
      NoExtra(Lines(dec, report), chart);
    }
  }

  lemma LinesConserve(lines: seq<Line>, chart: seq<Account>, table: map<Key, Snap>, tenant: int, period: int)
    requires IdsDistinct(lines) && DistinctAccounts(chart) && Ids(lines) <= AccountIds(chart)
    ensures var tb := Meaning(lines);
            TableSum(Captured(table, tenant, period, tb, chart), tenant, period, chart) ==
              Imbalance(tb) + StoredSum(tb, Extra(lines, chart)) + Unwritten(table, tenant, period, tb, chart)
  {
    var tb := Meaning(lines);
    ChartTotal(lines, tb, chart);
    LinesTotal(lines);
    assert AccountIds(chart) * Ids(lines) == Ids(lines);
    TableSumIs(table, tenant, period, tb, chart);
  }

  /** No account among these resolves to a balance. */
  ghost predicate Unresolved(tb: Tb, accounts: seq<Account>) {
    forall a :: a in accounts ==> Found(tb, a).None?
  }

  lemma {:induction false} UnresolvedIsZero(tb: Tb, accounts: seq<Account>)
    requires Unresolved(tb, accounts)
    ensures StoredSum(tb, accounts) == 0
  {
    if accounts != [] {
      UnresolvedIsZero(tb, accounts[..|accounts| - 1]);
    }
  }

  // ---- Exactly when the table conserves every report -----------------------

  /** The same rows with other amounts. */
  ghost predicate SameShape(lines: seq<Line>, other: seq<Line>) {
    |lines| == |other| && forall i :: 0 <= i < |lines| ==> lines[i].name == other[i].name && lines[i].id == other[i].id
  }

  lemma ShapeNames(lines: seq<Line>, other: seq<Line>)
    requires SameShape(lines, other)
    ensures Names(lines) <= Names(other) && Ids(lines) <= Ids(other)
  {
    forall l | l in lines ensures exists m :: m in other && m.name == l.name && m.id == l.id {
      var i :| 0 <= i < |lines| && lines[i] == l;
      assert other[i] in other;
    }
  }

  /** Whether an account resolves does not depend on the amounts. */
  lemma ShapeResolves(lines: seq<Line>, other: seq<Line>, a: Account)
    requires SameShape(lines, other)
    ensures Names(lines) == Names(other) && Ids(lines) == Ids(other)
    ensures Found(Meaning(lines), a).None? <==> Found(Meaning(other), a).None?
  {
    ShapeNames(lines, other);
    ShapeNames(other, lines);
    forall k ensures Resolves(lines, k) <==> Resolves(other, k) {
      forall n ensures OnlyDeriver(lines, k, n) <==> OnlyDeriver(other, k, n) {
        assert forall m :: DerivedBy(lines, k, m) <==> DerivedBy(other, k, m);
      }
    }
    var num, name, full := Strip(a.acctNum), Strip(a.name), Strip(a.fullName);
    LookupIsSound(lines, Meaning(lines), a.id, num, name, full);
    LookupIsSound(other, Meaning(other), a.id, num, name, full);
  }

  lemma {:induction false} ShapeExtra(lines: seq<Line>, other: seq<Line>, chart: seq<Account>)
    requires Ids(lines) == Ids(other)
    ensures Extra(lines, chart) == Extra(other, chart)
  {
    if chart != [] {
      ShapeExtra(lines, other, chart[..|chart| - 1]);
    }
  }

  /** One in every debit column. */
  function Ones(lines: seq<Line>): (r: seq<Line>)
    ensures |r| == |lines|
    ensures forall i :: 0 <= i < |lines| ==> r[i] == Line(lines[i].name, lines[i].id, 1, 0)
  {
    seq(|lines|, i requires 0 <= i < |lines| => Line(lines[i].name, lines[i].id, 1, 0))
  }

  lemma {:induction false} LastByIdIsALine(lines: seq<Line>, i: string) returns (l: Line)
    requires i in Ids(lines)
    ensures l in lines && LastById(lines, i) == l.Balance()
  {
    l := lines[|lines| - 1];
    if l.id != i {
      assert lines == lines[..|lines| - 1] + [l];
      l := LastByIdIsALine(lines[..|lines| - 1], i);
    }
  }

  lemma OnesAreFound(lines: seq<Line>, a: Account)
    ensures var tb := Meaning(Ones(lines));
            Stored(tb, a) == if Found(tb, a).Some? then 1 else 0
  {
    var ones := Ones(lines);
    var tb := Meaning(ones);
    LookupIsSound(ones, tb, a.id, Strip(a.acctNum), Strip(a.name), Strip(a.fullName));
    forall i | i in Ids(ones) ensures LastById(ones, i) == 1 {
      var l := LastByIdIsALine(ones, i);
    }
    forall n | n in Names(ones) ensures LastBalance(ones, n) == 1 {
      var l := LastBalanceIsALine(ones, n);
    }
  }

  lemma {:induction false} OnesAddUp(lines: seq<Line>, accounts: seq<Account>)
    ensures StoredSum(Meaning(Ones(lines)), accounts) >= 0
    ensures StoredSum(Meaning(Ones(lines)), accounts) == 0 ==> Unresolved(Meaning(Ones(lines)), accounts)
  {
    if accounts != [] {
      var front, a := accounts[..|accounts| - 1], accounts[|accounts| - 1];
      OnesAddUp(lines, front);
      OnesAreFound(lines, a);
      assert accounts == front + [a];
    }
  }

  /** With a name for every listed account, the table conserves the report for every choice of
      its amounts exactly when no listed account outside the report resolves. */
  lemma ConservesExactly(lines: seq<Line>, chart: seq<Account>, table: map<Key, Snap>, tenant: int, period: int)
    requires IdsDistinct(lines) && DistinctAccounts(chart) && Ids(lines) <= AccountIds(chart) && AllNamed(chart)
    ensures Unresolved(Meaning(lines), Extra(lines, chart)) <==>
              forall w {:trigger SameShape(lines, w)} :: SameShape(lines, w) ==>
                TableSum(Captured(table, tenant, period, Meaning(w), chart), tenant, period, chart)
                  == Imbalance(Meaning(w))
  {
    if Unresolved(Meaning(lines), Extra(lines, chart)) {
      forall w | SameShape(lines, w)
        ensures TableSum(Captured(table, tenant, period, Meaning(w), chart), tenant, period, chart)
                  == Imbalance(Meaning(w))
      {
        ShapeConserves(lines, w, chart, table, tenant, period);
      }
    } else {
      var w := Ones(lines);
      assert SameShape(lines, w);
      ShapeSum(lines, w, chart, table, tenant, period);
      OnesAddUp(lines, Extra(lines, chart));
      forall a | a in Extra(lines, chart)
        ensures Found(Meaning(lines), a).None? <==> Found(Meaning(w), a).None?
      {
        ShapeResolves(lines, w, a);
      }
    }
  }

  lemma ShapeSum(
    lines: seq<Line>, w: seq<Line>, chart: seq<Account>, table: map<Key, Snap>, tenant: int, period: int)
    requires IdsDistinct(lines) && DistinctAccounts(chart) && Ids(lines) <= AccountIds(chart) && AllNamed(chart)
    requires SameShape(lines, w)
    ensures TableSum(Captured(table, tenant, period, Meaning(w), chart), tenant, period, chart)
              == Imbalance(Meaning(w)) + StoredSum(Meaning(w), Extra(lines, chart))
  {
    ShapeNames(lines, w);
    ShapeNames(w, lines);
    ShapeExtra(lines, w, chart);
    forall l | l in w ensures l.id != "" {
      var i :| 0 <= i < |w| && w[i] == l;
      assert lines[i] in lines;
    }
    LinesConserve(w, chart, table, tenant, period);
    NothingUnwritten(table, tenant, period, Meaning(w), chart);
  }

  lemma ShapeConserves(
    lines: seq<Line>, w: seq<Line>, chart: seq<Account>, table: map<Key, Snap>, tenant: int, period: int)
    requires IdsDistinct(lines) && DistinctAccounts(chart) && Ids(lines) <= AccountIds(chart) && AllNamed(chart)
    requires SameShape(lines, w) && Unresolved(Meaning(lines), Extra(lines, chart))
    ensures TableSum(Captured(table, tenant, period, Meaning(w), chart), tenant, period, chart)
              == Imbalance(Meaning(w))
  {
    ShapeSum(lines, w, chart, table, tenant, period);
    forall a | a in Extra(lines, chart) ensures Found(Meaning(w), a).None? {
      ShapeResolves(lines, w, a);
    }
    UnresolvedIsZero(Meaning(w), Extra(lines, chart));
  }

  /** A nameless account of the report is missing from the table, and the sum with it. */
  lemma NamelessIsDropped(tenant: int, period: int)
    ensures var lines, chart := [Line("Cash", "1", 100, 0)], [Account("1", "", "", "Bank", "")];
            var tb := Meaning(lines);
            && Imbalance(tb) == 100 && Stored(tb, chart[0]) == 100
            && TableSum(Captured(map[], tenant, period, tb, chart), tenant, period, chart) == 0
  {
    var lines, chart := [Line("Cash", "1", 100, 0)], [Account("1", "", "", "Bank", "")];
    assert lines[..0] == [] && chart[..0] == [] && lines[0] in lines;
    assert LastById(lines, "1") == 100;
    assert Debits(lines) == 100 && Credits(lines) == 0;
    assert Captured(map[], tenant, period, Meaning(lines), chart) == map[];
  }

  lemma {:induction false} NoExtra(lines: seq<Line>, chart: seq<Account>)
    requires AccountIds(chart) <= Ids(lines)
    ensures Extra(lines, chart) == []
  {
    if chart != [] {
      var front, a := chart[..|chart| - 1], chart[|chart| - 1];
      assert chart == front + [a];
      AccountIdsSnoc(front, a);
      NoExtra(lines, front);
    }
  }

  /** An account without a row in the report takes the balance of another account rendered
      under its leaf name, which is then counted twice. */
  lemma LeafTakesAnother(lines: seq<Line>, tb: Tb, a: Account)
    requires tb == Meaning(lines) && a.id !in Ids(lines) && Strip(a.acctNum) == ""
    requires Strip(a.name) != "" && Strip(a.name) in Names(lines) && !Resolves(lines, Strip(a.fullName))
    ensures Stored(tb, a) == LastBalance(lines, Strip(a.name))
  {
    var name, full := Strip(a.name), Strip(a.fullName);
    ResolvesIsKey(lines, name);
    assert full == "" || full !in tb.byName;
    var leaf := if ':' in name then Strip(AfterLast(name, ':')) else "";
    var rest := [name, "", leaf];
    assert Candidates("", name, full) == ["", full, name, name, "", leaf];
    assert [""] + Candidates("", name, full) == [""] + ([""] + ([full] + ([name] + rest)));
    FirstHitCons(tb.byName, "", [""] + ([full] + ([name] + rest)));
    FirstHitCons(tb.byName, "", [full] + ([name] + rest));
    FirstHitCons(tb.byName, full, [name] + rest);
    FirstHitCons(tb.byName, name, rest);
  }

  // ---- What a row says -----------------------------------------------------

  /** A row carries the account's number, if it has one, its name and its type, each stripped, and
      the balance found for it. */
  lemma SnapSays(table: map<Key, Snap>, tenant: int, period: int, tb: Tb, a: Account)
    requires Strip(a.name) != ""
    ensures Key(tenant, a.id, period) in CaptureOne(table, tenant, period, tb, a)
    ensures var row := CaptureOne(table, tenant, period, tb, a)[Key(tenant, a.id, period)];
            && row.number == (if Strip(a.acctNum) == "" then None else Some(Strip(a.acctNum)))
            && row.name == Strip(a.name) && row.acctType == Strip(a.acctType)
            && row.balance == (var found := LookupBalance(tb, a.id, Strip(a.acctNum), Strip(a.name), Strip(a.fullName));
                               if found.Some? then found.value else 0)
  {
  }

  /** The misses are, in the chart's order, the labels of the named balance-sheet accounts that the
      report does not resolve; profit and loss accounts, which may have been quiet, are not among
      them. */
  lemma {:induction false} MissesAre(tb: Tb, chart: seq<Account>, more: seq<Account>)
    ensures Misses(tb, chart + more) == Misses(tb, chart) + Misses(tb, more)
    ensures WrittenCount(chart + more) == WrittenCount(chart) + WrittenCount(more)
    ensures |chart| == 1 ==>
              var a := chart[0];
              && WrittenCount(chart) == (if Strip(a.name) == "" then 0 else 1)
              && Misses(tb, chart) ==
                   (if Strip(a.name) != "" && Found(tb, a).None? && OnBalanceSheet(Strip(a.acctType))
                    then [MissLabel(a)] else [])
  {
    if |chart| == 1 {
      assert chart[..0] == [];
      BalanceSheetExactly(Strip(chart[0].acctType));
    }
    if more == [] {
      assert chart + more == chart;
    } else {
      var front := more[..|more| - 1];
      MissesAre(tb, chart, front);
      assert (chart + more)[..|chart + more| - 1] == chart + front;
    }
  }

  /** Assets, liabilities and equity, by QuickBooks' names for them. */
  predicate OnBalanceSheet(acctType: string) {
    IsAsset(acctType) || IsLiability(acctType) || acctType == "Equity"
  }

  predicate IsAsset(acctType: string) {
    acctType == "Bank" || acctType == "Accounts Receivable" || acctType == "Other Current Asset"
    || acctType == "Fixed Asset" || acctType == "Other Asset"
  }

  predicate IsLiability(acctType: string) {
    acctType == "Accounts Payable" || acctType == "Credit Card" || acctType == "Other Current Liability"
    || acctType == "Long Term Liability"
  }

  lemma BalanceSheetExactly(acctType: string)
    ensures IsBalanceSheet(acctType) <==> OnBalanceSheet(acctType)
  {
  }

  /** A label is the number, if there is one, and the most specific name. */
  lemma LabelSays(a: Account)
    ensures Strip(a.acctNum) == "" && Strip(a.fullName) == "" ==> MissLabel(a) == Strip(a.name)
    ensures Strip(a.acctNum) == "" && Strip(a.fullName) != "" ==> MissLabel(a) == Strip(a.fullName)
    ensures Strip(a.acctNum) != "" && Strip(a.fullName) == "" ==>
              MissLabel(a) == Strip(a.acctNum) + " " + Strip(a.name)
    ensures Strip(a.acctNum) != "" && Strip(a.fullName) != "" ==>
              MissLabel(a) == Strip(a.acctNum) + " " + Strip(a.fullName)
  {
  }

  /** An account listed again takes over the place of the first; a new one goes last. */
  lemma {:induction false} PutInPlace(chart: seq<Account>, a: Account, i: nat)
    requires i <= |chart| && forall j :: 0 <= j < i ==> chart[j].id != a.id
    ensures i == |chart| ==> Put(chart, a) == chart + [a]
    ensures i < |chart| && chart[i].id == a.id ==> Put(chart, a) == chart[i := a]
  {
    if i > 0 {
      PutInPlace(chart[1..], a, i - 1);
      assert chart == [chart[0]] + chart[1..];
    }
  }
}
