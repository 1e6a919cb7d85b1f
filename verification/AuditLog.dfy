/** Concurrent writers of one tenant's audit log: backend/core/audit/log.py.
    A writer stamps its entry, takes the tenant's advisory lock, reads the head, hashes,
    flushes, and holds the lock until its transaction commits or rolls back. */
module AuditLog {
  import opened Prelude
  import opened Canonical
  import opened AuditChain

  // ---- Order by (created_at, id) -----------------------------------------

  predicate Before(a: Row, b: Row) {
    a.createdAt < b.createdAt || (a.createdAt == b.createdAt && Lt(a.id, b.id))
  }

  lemma BeforeOrder(a: Row, b: Row, c: Row)
    ensures !Before(a, a)
    ensures a.id != b.id ==> Before(a, b) || Before(b, a)
    ensures Before(a, b) && Before(b, c) ==> Before(a, c)
    ensures !(Before(a, b) && Before(b, a))
  {
    LeTotal(a.id, b.id);
    LeTotal(a.id, c.id);
    LeTotal(b.id, c.id);
    if Le(a.id, b.id) && Le(b.id, c.id) {
      LeTransitive(a.id, b.id, c.id);
    }
  }

  /** The last of some rows in (created_at, id) order: ORDER BY ... DESC LIMIT 1. */
  function Top(c: seq<Row>): (r: Row)
    requires c != []
  {
    if |c| == 1 then c[0]
    else
      var t := Top(c[..|c| - 1]);
      if Before(t, Last(c)) then Last(c) else t
  }

  /** What the head query returns. */
  function HeadHash(rows: seq<Row>): Option<string> {
    var c := Hashed(rows);
    if c == [] then None else Top(c).rowHash
  }

  // ---- The protocol ------------------------------------------------------

  /** An open transaction: the entry stamped but not yet chained, and the rows it has added. */
  datatype Txn = Txn(stamped: Option<Row>, pending: seq<Row>)

  datatype State = State(now: int, committed: seq<Row>, txns: map<nat, Txn>, lock: Option<nat>)

  datatype Action =
    | Tick(elapsed: nat)
    | Stamp(t: nat, entry: Row)
    | Lock(t: nat)
    | Chain(t: nat)
    | Fail(t: nat, prev: Option<string>)
    | Commit(t: nat)
    | Rollback(t: nat)

  function TxnOf(s: State, t: nat): Txn {
    if t in s.txns then s.txns[t] else Txn(None, [])
  }

  function Unchained(e: Row, prev: Option<string>): Row {
    e.(prevHash := prev, rowHash := None)
  }

  function Chained(h: Hasher, e: Row, prev: Option<string>): Row {
    e.(prevHash := prev, rowHash := Some(ComputeRowHash(h, prev, e)))
  }

  function RowIds(rows: seq<Row>): set<string> {
    set r | r in rows :: r.id
  }

  function TxnIds(x: Txn): set<string> {
    RowIds(x.pending) + (if x.stamped.Some? then {x.stamped.value.id} else {})
  }

  /** No row anywhere carries this id: what a fresh UUID gives. */
  ghost predicate FreshId(s: State, id: string) {
    id !in RowIds(s.committed) && forall t :: t in s.txns ==> id !in TxnIds(s.txns[t])
  }

  ghost predicate Enabled(s: State, a: Action) {
    match a
    case Tick(_) => true
    case Stamp(t, e) => TxnOf(s, t).stamped.None? && FreshId(s, e.id) && e.createdAt == s.now
    case Lock(t) => TxnOf(s, t).stamped.Some? && (s.lock == None || s.lock == Some(t))
    case Chain(t) => TxnOf(s, t).stamped.Some? && s.lock == Some(t)
    case Fail(t, _) => TxnOf(s, t).stamped.Some?
    case Commit(t) => TxnOf(s, t).stamped.None?
    case Rollback(_) => true
  }

  function Release(s: State, t: nat): Option<nat> {
    if s.lock == Some(t) then None else s.lock
  }

  function Step(h: Hasher, s: State, a: Action): State
    requires Enabled(s, a)
  {
    match a
    case Tick(d) => s.(now := s.now + d)
    case Stamp(t, e) => s.(txns := s.txns[t := TxnOf(s, t).(stamped := Some(Unchained(e, None)))])
    case Lock(t) => s.(lock := Some(t))
    case Chain(t) =>
      var x := s.txns[t];
      var row := Chained(h, x.stamped.value, HeadHash(s.committed + x.pending));
      s.(txns := s.txns[t := Txn(None, x.pending + [row])])
    case Fail(t, prev) =>
      var x := s.txns[t];
      s.(txns := s.txns[t := Txn(None, x.pending + [Unchained(x.stamped.value, prev)])])
    case Commit(t) =>
      s.(committed := s.committed + TxnOf(s, t).pending, txns := s.txns - {t}, lock := Release(s, t))
    case Rollback(t) => s.(txns := s.txns - {t}, lock := Release(s, t))
  }

  const EMPTY := State(0, [], map[], None)

  /** The states a run passes through. */
  ghost predicate IsRun(h: Hasher, states: seq<State>, actions: seq<Action>) {
    && |states| == |actions| + 1
    && states[0] == EMPTY
    && forall i {:trigger actions[i]} :: 0 <= i < |actions| ==>
         Enabled(states[i], actions[i]) && states[i + 1] == Step(h, states[i], actions[i])
  }

  /** The database and its sessions, updated in place. */
  class AuditDb {
    var now: int
    var committed: seq<Row>
    var txns: map<nat, Txn>
    var lock: Option<nat>

    ghost function Abstract(): State
      reads this
    {
      State(now, committed, txns, lock)
    }

    constructor ()
      ensures Abstract() == EMPTY
    {
      now, committed, txns, lock := 0, [], map[], None;
    }

    /** `write_audit_event` up to the first await: the entry exists, stamped with the clock. */
    method StampEntry(t: nat, entry: Row)
      requires Enabled(Abstract(), Stamp(t, entry))
      modifies this
      ensures forall h :: Abstract() == Step(h, old(Abstract()), Stamp(t, entry))
    {
      var x := if t in txns then txns[t] else Txn(None, []);
      txns := txns[t := Txn(Some(Unchained(entry, None)), x.pending)];
    }

    method TakeLock(t: nat)
      requires Enabled(Abstract(), Lock(t))
      modifies this
      ensures forall h :: Abstract() == Step(h, old(Abstract()), Lock(t))
    {
      lock := Some(t);
    }

    /** `_chain` after the lock: read the head, link, hash, flush. */
    method ChainEntry(h: Hasher, t: nat)
      requires Enabled(Abstract(), Chain(t))
      modifies this
      ensures Abstract() == Step(h, old(Abstract()), Chain(t))
    {
      var entry := txns[t].stamped.value;
      var head := HeadHash(committed + txns[t].pending);
      entry := entry.(prevHash := head);
      entry := entry.(rowHash := Some(ComputeRowHash(h, head, entry)));
      txns := txns[t := Txn(None, txns[t].pending + [entry])];
    }

    /** The `except` branch: the row is written without a hash. */
    method WriteUnchained(t: nat, prev: Option<string>)
      requires Enabled(Abstract(), Fail(t, prev))
      modifies this
      ensures forall h :: Abstract() == Step(h, old(Abstract()), Fail(t, prev))
    {
      var entry := txns[t].stamped.value.(prevHash := prev, rowHash := None);
      txns := txns[t := Txn(None, txns[t].pending + [entry])];
    }

    method CommitTxn(t: nat)
      requires Enabled(Abstract(), Commit(t))
      modifies this
      ensures forall h :: Abstract() == Step(h, old(Abstract()), Commit(t))
    {
      if t in txns {
        committed := committed + txns[t].pending;
      }
      txns := txns - {t};
      if lock == Some(t) { lock := None; }
    }

    method RollbackTxn(t: nat)
      modifies this
      ensures forall h :: Abstract() == Step(h, old(Abstract()), Rollback(t))
    {
      txns := txns - {t};
      if lock == Some(t) { lock := None; }
    }
  }

  // ---- What every run keeps ----------------------------------------------

  /** The hashed rows as the lock holder sees them, in the order they were hashed. */
  function Visible(s: State): seq<Row> {
    if s.lock.Some? then Hashed(s.committed + TxnOf(s, s.lock.value).pending) else Hashed(s.committed)
  }

  ghost predicate DistinctIds(rows: seq<Row>) {
    forall i, j :: 0 <= i < j < |rows| ==> rows[i].id != rows[j].id
  }

  /** Row `i` rehashes, and links to the head of the rows hashed before it. */
  predicate LinksToHead(h: Hasher, c: seq<Row>, i: nat)
    requires i < |c|
  {
    Rehashes(h, c[i]) && c[i].prevHash == (if i == 0 then None else Top(c[..i]).rowHash)
  }

  ghost predicate AllLinkToHead(h: Hasher, c: seq<Row>) {
    forall i {:trigger LinksToHead(h, c, i)} :: 0 <= i < |c| ==> LinksToHead(h, c, i)
  }

  /** Every row, committed, pending or stamped, has an id of its own. */
  ghost predicate IdInv(s: State) {
    && DistinctIds(s.committed)
    && (forall t :: t in s.txns ==> TxnIdsOk(s.committed, s.txns[t]))
    && (forall t, u :: t in s.txns && u in s.txns && t != u ==> TxnIds(s.txns[t]) !! TxnIds(s.txns[u]))
  }

  ghost predicate TxnIdsOk(committed: seq<Row>, x: Txn) {
    && DistinctIds(x.pending)
    && (x.stamped.Some? ==> x.stamped.value.id !in RowIds(x.pending))
    && TxnIds(x) !! RowIds(committed)
  }

  /** Only the lock holder has hashed rows pending. */
  ghost predicate LockInv(s: State) {
    forall t :: t in s.txns && s.lock != Some(t) ==> Hashed(s.txns[t].pending) == []
  }

  ghost predicate Inv(h: Hasher, s: State) {
    IdInv(s) && LockInv(s) && AllLinkToHead(h, Visible(s))
  }

  lemma {:induction false} HashedSubset(rows: seq<Row>)
    ensures forall r :: r in Hashed(rows) <==> r in rows && IsHashed(r)
  {
    if rows != [] {
      HashedSubset(rows[..|rows| - 1]);
      assert rows == rows[..|rows| - 1] + [Last(rows)];
    }
  }

  lemma DistinctAppend(a: seq<Row>, b: seq<Row>)
    requires DistinctIds(a) && DistinctIds(b)
    requires forall r, q :: r in a && q in b ==> r.id != q.id
    ensures DistinctIds(a + b)
  {
    forall i, j | 0 <= i < j < |a + b| ensures (a + b)[i].id != (a + b)[j].id {
      if i < |a| <= j {
        assert a[i] in a && b[j - |a|] in b;
      }
    }
  }

  lemma LinksExtend(h: Hasher, c: seq<Row>, r: Row)
    requires AllLinkToHead(h, c)
    requires Rehashes(h, r) && r.prevHash == (if c == [] then None else Top(c).rowHash)
    ensures AllLinkToHead(h, c + [r])
  {
    var d := c + [r];
    forall i | 0 <= i < |d| ensures LinksToHead(h, d, i) {
      assert d[..i] == if i == |c| then c else c[..i];
      assert i == |c| || LinksToHead(h, c, i);
    }
  }

  lemma LinksPrefix(h: Hasher, c: seq<Row>, d: seq<Row>)
    requires AllLinkToHead(h, c + d)
    ensures AllLinkToHead(h, c)
  {
    forall i | 0 <= i < |c| ensures LinksToHead(h, c, i) {
      assert (c + d)[..i] == c[..i] && LinksToHead(h, c + d, i);
    }
  }

  lemma DistinctSnoc(rows: seq<Row>, r: Row)
    requires DistinctIds(rows) && r.id !in RowIds(rows)
    ensures DistinctIds(rows + [r])
    ensures RowIds(rows + [r]) == RowIds(rows) + {r.id}
  {
    forall i | 0 <= i < |rows| ensures rows[i].id != r.id {
      assert rows[i] in rows;
    }
    forall id ensures id in RowIds(rows + [r]) <==> id in RowIds(rows) + {r.id} {
      if id in RowIds(rows) {
        var q :| q in rows && q.id == id;
        assert q in rows + [r];
      }
      assert r in rows + [r];
    }
  }

  /** Replacing one transaction keeps the ids apart when its ids are old ones or fresh. */
  lemma TouchKeepsIds(s: State, t: nat, y: Txn, added: set<string>)
    requires IdInv(s) && TxnIdsOk(s.committed, y)
    requires TxnIds(y) <= TxnIds(TxnOf(s, t)) + added
    requires forall id :: id in added ==> FreshId(s, id)
    ensures IdInv(s.(txns := s.txns[t := y]))
  {
    forall u | u in s.txns && u != t ensures TxnIds(y) !! TxnIds(s.txns[u]) {
      assert TxnIds(TxnOf(s, t)) !! TxnIds(s.txns[u]);
    }
  }

  lemma StampKeeps(h: Hasher, s: State, t: nat, e: Row)
    requires Inv(h, s) && Enabled(s, Stamp(t, e))
    ensures Inv(h, Step(h, s, Stamp(t, e)))
  {
    var s', x := Step(h, s, Stamp(t, e)), TxnOf(s, t);
    assert TxnIds(x) == RowIds(x.pending);
    assert TxnIdsOk(s.committed, s'.txns[t]) by {
      assert t in s.txns ==> TxnIdsOk(s.committed, x);
      assert t in s.txns ==> e.id !in TxnIds(x);
    }
    TouchKeepsIds(s, t, s'.txns[t], {e.id});
    assert Visible(s') == Visible(s);
  }

  lemma LockKeeps(h: Hasher, s: State, t: nat)
    requires Inv(h, s) && Enabled(s, Lock(t))
    ensures Inv(h, Step(h, s, Lock(t)))
  {
    HashedAppend(s.committed, s.txns[t].pending);
    assert Visible(Step(h, s, Lock(t))) == Visible(s);
  }

  /** Appending the stamped entry to its transaction's rows keeps the ids apart. */
  lemma AppendKeepsIds(s: State, t: nat, row: Row)
    requires IdInv(s) && t in s.txns && s.txns[t].stamped.Some? && row.id == s.txns[t].stamped.value.id
    ensures IdInv(s.(txns := s.txns[t := Txn(None, s.txns[t].pending + [row])]))
  {
    var x := s.txns[t];
    assert TxnIdsOk(s.committed, x);
    DistinctSnoc(x.pending, row);
    TouchKeepsIds(s, t, Txn(None, x.pending + [row]), {});
  }

  lemma ChainKeeps(h: Hasher, s: State, t: nat)
    requires Digests(h) && Inv(h, s) && Enabled(s, Chain(t))
    ensures Inv(h, Step(h, s, Chain(t)))
  {
    var x := s.txns[t];
    var row := Chained(h, x.stamped.value, HeadHash(s.committed + x.pending));
    AppendKeepsIds(s, t, row);
    ChainedIsHashed(h, x.stamped.value, HeadHash(s.committed + x.pending));
    ChainVisible(h, s, t);
    LinksExtend(h, Visible(s), row);
  }

  /** Chaining an entry puts it at the end of the hashed rows. */
  lemma ChainVisible(h: Hasher, s: State, t: nat)
    requires Digests(h) && Enabled(s, Chain(t))
    ensures Visible(Step(h, s, Chain(t))) ==
              Visible(s) + [Chained(h, s.txns[t].stamped.value, HeadHash(s.committed + s.txns[t].pending))]
  {
    var x := s.txns[t];
    var row := Chained(h, x.stamped.value, HeadHash(s.committed + x.pending));
    ChainedIsHashed(h, x.stamped.value, HeadHash(s.committed + x.pending));
    assert s.committed + (x.pending + [row]) == (s.committed + x.pending) + [row];
    HashedSnoc(s.committed + x.pending, row);
  }

  lemma ChainedIsHashed(h: Hasher, e: Row, prev: Option<string>)
    requires Digests(h)
    ensures IsHashed(Chained(h, e, prev)) && Rehashes(h, Chained(h, e, prev))
  {
    var row := Chained(h, e, prev);
    assert PayloadOf(h, row) == PayloadOf(h, e);
    assert |row.rowHash.value| == 64;
  }

  lemma FailKeeps(h: Hasher, s: State, t: nat, prev: Option<string>)
    requires Inv(h, s) && Enabled(s, Fail(t, prev))
    ensures Inv(h, Step(h, s, Fail(t, prev)))
  {
    AppendKeepsIds(s, t, Unchained(s.txns[t].stamped.value, prev));
    FailVisible(h, s, t, prev);
    HashedSnoc(s.txns[t].pending, Unchained(s.txns[t].stamped.value, prev));
  }

  lemma FailVisible(h: Hasher, s: State, t: nat, prev: Option<string>)
    requires Enabled(s, Fail(t, prev))
    ensures Visible(Step(h, s, Fail(t, prev))) == Visible(s)
  {
    var p, row := s.txns[t].pending, Unchained(s.txns[t].stamped.value, prev);
    HashedSnoc(s.committed + p, row);
    assert s.committed + (p + [row]) == (s.committed + p) + [row];
  }

  lemma CommitKeepsIds(h: Hasher, s: State, t: nat)
    requires IdInv(s) && Enabled(s, Commit(t)) && t in s.txns
    ensures IdInv(Step(h, s, Commit(t)))
  {
    var s', x := Step(h, s, Commit(t)), s.txns[t];
    assert TxnIdsOk(s.committed, x);
    forall r, q | r in s.committed && q in x.pending ensures r.id != q.id {
      assert r.id in RowIds(s.committed) && q.id in TxnIds(x);
    }
    DistinctAppend(s.committed, x.pending);
    assert RowIds(s'.committed) == RowIds(s.committed) + RowIds(x.pending);
    forall u | u in s'.txns ensures TxnIdsOk(s'.committed, s'.txns[u]) {
      assert TxnIdsOk(s.committed, s.txns[u]) && TxnIds(x) !! TxnIds(s.txns[u]);
    }
  }

  lemma CommitKeeps(h: Hasher, s: State, t: nat)
    requires Inv(h, s) && Enabled(s, Commit(t))
    ensures Inv(h, Step(h, s, Commit(t)))
  {
    if t in s.txns {
      CommitKeepsIds(h, s, t);
    } else {
      var s' := Step(h, s, Commit(t));
      assert s'.committed == s.committed && s'.txns == s.txns;
    }
    CommitVisible(h, s, t);
  }

  lemma CommitVisible(h: Hasher, s: State, t: nat)
    requires LockInv(s) && Enabled(s, Commit(t))
    ensures Visible(Step(h, s, Commit(t))) == Visible(s)
  {
    var p := TxnOf(s, t).pending;
    if s.lock.Some? && s.lock.value != t {
      var q := TxnOf(s, s.lock.value).pending;
      assert Hashed(p) == [];
      HashedAppend(s.committed, p);
      HashedAppend(s.committed, q);
      HashedAppend(s.committed + p, q);
      assert Hashed(s.committed) + [] == Hashed(s.committed);
    } else if s.lock.None? {
      assert Hashed(p) == [];
      HashedAppend(s.committed, p);
    }
  }

  lemma RollbackKeeps(h: Hasher, s: State, t: nat)
    requires Inv(h, s)
    ensures Inv(h, Step(h, s, Rollback(t)))
  {
    if s.lock.Some? {
      var q := TxnOf(s, s.lock.value).pending;
      HashedAppend(s.committed, q);
      LinksPrefix(h, Hashed(s.committed), Hashed(q));
    }
  }

  lemma StepKeeps(h: Hasher, s: State, a: Action)
    requires Digests(h) && Inv(h, s) && Enabled(s, a)
    ensures Inv(h, Step(h, s, a))
  {
    match a
    case Tick(_) =>
    case Stamp(t, e) => StampKeeps(h, s, t, e);
    case Lock(t) => LockKeeps(h, s, t);
    case Chain(t) => ChainKeeps(h, s, t);
    case Fail(t, prev) => FailKeeps(h, s, t, prev);
    case Commit(t) => CommitKeeps(h, s, t);
    case Rollback(t) => RollbackKeeps(h, s, t);
  }

  lemma {:induction false} RunKeeps(h: Hasher, states: seq<State>, actions: seq<Action>, i: nat)
    requires Digests(h) && IsRun(h, states, actions) && i < |states|
    ensures Inv(h, states[i])
  {
    if i > 0 {
      RunKeeps(h, states, actions, i - 1);
      var a := actions[i - 1];
      StepKeeps(h, states[i - 1], a);
    }
  }

  // ---- When the verifier calls the log intact -----------------------------

  /** Strictly increasing in (created_at, id). */
  ghost predicate InOrder(c: seq<Row>) {
    forall i, j :: 0 <= i < j < |c| ==> Before(c[i], c[j])
  }

  /** `log` holds the rows of `rows` in the order the verifier reads them. */
  ghost predicate Arranged(log: seq<Row>, rows: seq<Row>) {
    InOrder(log) && forall r :: r in log <==> r in rows
  }

  lemma {:induction false} HashedInOrder(rows: seq<Row>)
    requires InOrder(rows)
    ensures InOrder(Hashed(rows))
  {
    if rows != [] {
      HashedInOrder(rows[..|rows| - 1]);
      HashedSubset(rows[..|rows| - 1]);
      var c := Hashed(rows[..|rows| - 1]);
      forall i | 0 <= i < |c| ensures Before(c[i], Last(rows)) {
        assert c[i] in c;
      }
    }
  }

  lemma {:induction false} TopInOrder(c: seq<Row>)
    requires c != [] && InOrder(c)
    ensures Top(c) == Last(c)
  {
    if |c| > 1 {
      TopInOrder(c[..|c| - 1]);
    }
  }

  /** Two ordered lists of the same rows are one list. */
  lemma {:induction false} OrderedUnique(s: seq<Row>, t: seq<Row>)
    requires InOrder(s) && InOrder(t) && forall r :: r in s <==> r in t
    ensures s == t
  {
    assert s == [] || s[0] in s;
    assert t == [] || t[0] in t;
    if s != [] {
      BeforeOrder(s[0], t[0], s[0]);
      assert s[0] == t[0];
      assert s == [s[0]] + s[1..] && t == [t[0]] + t[1..];
      assert s[0] !in s[1..] && t[0] !in t[1..] by {
        BeforeOrder(s[0], s[0], s[0]);
      }
      forall r ensures r in s[1..] <==> r in t[1..] {
        assert r in s <==> r == s[0] || r in s[1..];
        assert r in t <==> r == t[0] || r in t[1..];
      }
      OrderedUnique(s[1..], t[1..]);
    }
  }

  /** Rows that link to the head in stamp order form an honest chain. */
  lemma InOrderIsHonest(h: Hasher, c: seq<Row>)
    requires AllLinkToHead(h, c) && InOrder(c)
    ensures Honest(h, c)
  {
    forall i | 0 <= i < |c| ensures Rehashes(h, c[i]) {
      assert LinksToHead(h, c, i);
    }
    forall i | 0 < i < |c| ensures Linked(c, i) {
      assert LinksToHead(h, c, i);
      TopInOrder(c[..i]);
    }
    if c != [] {
      assert LinksToHead(h, c, 0);
    }
  }

  /** If the ordered rows pass, they agree, from the front, with the order of hashing. */
  lemma {:induction false} IntactAgrees(h: Hasher, blobs: set<string>, c: seq<Row>, s: seq<Row>, n: nat)
    requires Sound(h, blobs) && CoversAll(h, blobs, s)
    requires AllLinkToHead(h, c) && DistinctIds(c) && ChainOk(h, s) && InOrder(s)
    requires (forall r :: r in s <==> r in c) && n <= |c|
    ensures n <= |s| && c[..n] == s[..n]
  {
    if n > 0 {
      IntactAgrees(h, blobs, c, s, n - 1);
      var i := n - 1;
      var j := PlaceOf(c, s, i);
      assert LinksToHead(h, c, i);
      SamePlace(h, blobs, c, s, i, j);
      assert c[..n] == c[..i] + [c[i]] && s[..n] == s[..i] + [s[i]];
    }
  }

  lemma PlaceOf(c: seq<Row>, s: seq<Row>, i: nat) returns (j: nat)
    requires DistinctIds(c) && i < |c| && i <= |s| && c[..i] == s[..i] && forall r :: r in s <==> r in c
    ensures i <= j < |s| && s[j] == c[i]
  {
    assert c[i] in s;
    j :| 0 <= j < |s| && s[j] == c[i];
    forall k | 0 <= k < i ensures s[k] != c[i] {
      assert s[k] == s[..i][k] == c[..i][k] == c[k];
    }
  }

  lemma OrderedAt(s: seq<Row>, i: nat, j: nat)
    requires InOrder(s) && i < |s| && j < |s|
    ensures i < j ==> Before(s[i], s[j])
  {
  }

  /** A row that links to the head of the rows hashed before it stands right after them. */
  lemma SamePlace(h: Hasher, blobs: set<string>, c: seq<Row>, s: seq<Row>, i: nat, j: nat)
    requires Sound(h, blobs) && CoversAll(h, blobs, s)
    requires DistinctIds(c) && ChainOk(h, s) && InOrder(s) && (forall r :: r in s ==> r in c)
    requires i <= j < |s| && i < |c| && s[j] == c[i] && c[..i] == s[..i] && LinksToHead(h, c, i)
    ensures i == j
  {
    assert j == 0 || (Linked(s, j) && Rehashes(h, s[j - 1]));
    if i > 0 {
      var p, q := s[i - 1], s[j - 1];
      TopInOrder(s[..i]);
      assert Rehashes(h, p) && p.rowHash == q.rowHash;
      assert Covers(h, blobs, p) && Covers(h, blobs, q);
      EqualHashes(h, blobs, q, p);
      assert p.id == q.id && p in c && q in c;
      BeforeOrder(p, q, p);
      OrderedAt(s, i - 1, j - 1);
    }
  }

  /** In every reachable state the verifier, reading the committed log in (created_at, id)
      order, calls it intact exactly when the hashed rows were committed in that order. */
  lemma IntactIffInOrder(h: Hasher, states: seq<State>, actions: seq<Action>, n: nat, log: seq<Row>)
    requires IsRun(h, states, actions) && n < |states| && Arranged(log, states[n].committed)
    requires Sound(h, Blobs(h, log))
    ensures ChainOk(h, Hashed(log)) <==> InOrder(Hashed(states[n].committed))
    ensures InOrder(Hashed(states[n].committed)) ==>
              Hashed(log) == Hashed(states[n].committed) && Honest(h, Hashed(log))
  {
    RunKeeps(h, states, actions, n);
    CommittedLinks(h, states[n]);
    var c, s := Hashed(states[n].committed), Hashed(log);
    HashedSubset(states[n].committed);
    HashedSubset(log);
    HashedInOrder(log);
    if InOrder(c) {
      OrderedUnique(s, c);
      InOrderIsHonest(h, c);
    }
    if ChainOk(h, s) {
      var blobs := Blobs(h, log);
      BlobsOfHashed(h, log);
      BlobsCover(h, s, blobs);
      IntactAgrees(h, blobs, c, s, |c|);
      assert c == s[..|c|];
    }
  }

  lemma BlobsOfHashed(h: Hasher, rows: seq<Row>)
    ensures Blobs(h, Hashed(rows)) <= Blobs(h, rows)
  {
    HashedSubset(rows);
  }

  lemma CommittedLinks(h: Hasher, s: State)
    requires Inv(h, s)
    ensures AllLinkToHead(h, Hashed(s.committed)) && DistinctIds(Hashed(s.committed))
  {
    if s.lock.Some? {
      var q := TxnOf(s, s.lock.value).pending;
      HashedAppend(s.committed, q);
      LinksPrefix(h, Hashed(s.committed), Hashed(q));
    }
    HashedDistinct(s.committed);
  }

  lemma {:induction false} HashedDistinct(rows: seq<Row>)
    requires DistinctIds(rows)
    ensures DistinctIds(Hashed(rows))
  {
    if rows != [] {
      HashedDistinct(rows[..|rows| - 1]);
      HashedSubset(rows[..|rows| - 1]);
      var c := Hashed(rows[..|rows| - 1]);
      forall i | 0 <= i < |c| ensures c[i].id != Last(rows).id {
        assert c[i] in c;
      }
    }
  }

  // ---- Stamp order and lock order ----------------------------------------

  /** The entry about to be hashed was stamped after every hashed row its writer can see. */
  ghost predicate StampedInTurn(s: State, t: nat)
    requires t in s.txns && s.txns[t].stamped.Some?
  {
    forall r :: r in Visible(s) ==> Before(r, s.txns[t].stamped.value)
  }

  /** If every entry is stamped in turn, the lock order is the stamp order throughout. */
  lemma {:induction false} TurnsKeepOrder(h: Hasher, states: seq<State>, actions: seq<Action>, n: nat)
    requires Digests(h) && IsRun(h, states, actions) && n < |states|
    requires forall i :: 0 <= i < n && actions[i].Chain? ==> StampedInTurn(states[i], actions[i].t)
    ensures InOrder(Visible(states[n])) && InOrder(Hashed(states[n].committed))
  {
    if n > 0 {
      TurnsKeepOrder(h, states, actions, n - 1);
      RunKeeps(h, states, actions, n - 1);
      var a := actions[n - 1];
      TurnKeepsOrder(h, states[n - 1], a);
    }
    CommittedIsPrefix(states[n]);
    PrefixInOrder(Hashed(states[n].committed), Visible(states[n]));
  }

  lemma TurnKeepsOrder(h: Hasher, s: State, a: Action)
    requires Digests(h) && Inv(h, s) && Enabled(s, a) && InOrder(Visible(s))
    requires a.Chain? ==> StampedInTurn(s, a.t)
    ensures InOrder(Visible(Step(h, s, a)))
  {
    VisibleAfter(h, s, a);
    CommittedIsPrefix(s);
    if a.Chain? {
      var e := s.txns[a.t].stamped.value;
      SnocInOrder(Visible(s), e, Chained(h, e, HeadHash(s.committed + s.txns[a.t].pending)));
    } else {
      PrefixInOrder(Hashed(s.committed), Visible(s));
    }
  }

  lemma SnocInOrder(v: seq<Row>, e: Row, r: Row)
    requires InOrder(v) && (forall q :: q in v ==> Before(q, e)) && r.createdAt == e.createdAt && r.id == e.id
    ensures InOrder(v + [r])
  {
    forall i | 0 <= i < |v| ensures Before(v[i], r) { assert v[i] in v; }
  }

  /** A step extends the hashed rows by at most the entry being chained; a rollback cuts
      them back to the committed ones. */
  lemma VisibleAfter(h: Hasher, s: State, a: Action)
    requires Digests(h) && Inv(h, s) && Enabled(s, a)
    ensures var v := Visible(Step(h, s, a));
            if a.Chain?
            then v == Visible(s) + [Chained(h, s.txns[a.t].stamped.value, HeadHash(s.committed + s.txns[a.t].pending))]
            else if a.Rollback? then v == Visible(s) || v == Hashed(s.committed)
            else v == Visible(s)
  {
    match a
    case Tick(_) =>
    case Stamp(t, e) =>
    case Lock(t) => HashedAppend(s.committed, s.txns[t].pending);
    case Chain(t) => ChainVisible(h, s, t);
    case Fail(t, prev) => FailVisible(h, s, t, prev);
    case Commit(t) => CommitVisible(h, s, t);
    case Rollback(t) =>
  }

  lemma CommittedIsPrefix(s: State)
    ensures Hashed(s.committed) <= Visible(s)
  {
    if s.lock.Some? {
      HashedAppend(s.committed, TxnOf(s, s.lock.value).pending);
    }
  }

  lemma PrefixInOrder(c: seq<Row>, d: seq<Row>)
    requires InOrder(d) && c <= d
    ensures InOrder(c)
  {
  }

  /** Writers whose stamps follow the order of the lock never fork the chain: with any
      number of writers, interleaving, rollbacks and unhashed rows, the committed log passes. */
  lemma NeverForks(h: Hasher, states: seq<State>, actions: seq<Action>, n: nat, log: seq<Row>)
    requires IsRun(h, states, actions) && n < |states| && Arranged(log, states[n].committed)
    requires Sound(h, Blobs(h, log))
    requires forall i :: 0 <= i < n && actions[i].Chain? ==> StampedInTurn(states[i], actions[i].t)
    ensures ChainOk(h, Hashed(log)) && Honest(h, Hashed(log))
  {
    TurnsKeepOrder(h, states, actions, n);
    IntactIffInOrder(h, states, actions, n, log);
  }

  /** Without that order the alarm is false: the first writer stamps, the second stamps, locks
      and commits, then the first locks and commits. Nobody altered anything. */
  lemma FalseAlarm(h: Hasher, a: Row, b: Row) returns (states: seq<State>, actions: seq<Action>)
    requires Digests(h) && a.id != b.id && a.createdAt == 0 && b.createdAt == 1
    ensures IsRun(h, states, actions)
    ensures |Hashed(Last(states).committed)| == 2
    ensures forall log :: Arranged(log, Last(states).committed) ==> !ChainOk(h, Hashed(log))
  {
    states, actions := FirstCommits(h, a, b);
    var b1 := Chained(h, Unchained(b, None), None);
    var a1 := Chained(h, Unchained(a, None), b1.rowHash);
    ChainedIsHashed(h, Unchained(b, None), None);
    ChainedIsHashed(h, Unchained(a, None), b1.rowHash);
    PairIsHashed(b1, a1);
    forall log | Arranged(log, Last(states).committed) ensures !ChainOk(h, Hashed(log)) {
      SwappedFails(h, log, a1, b1);
    }
  }

  lemma FirstCommits(h: Hasher, a: Row, b: Row) returns (states: seq<State>, actions: seq<Action>)
    requires Digests(h) && a.id != b.id && a.createdAt == 0 && b.createdAt == 1
    ensures IsRun(h, states, actions)
    ensures var b1 := Chained(h, Unchained(b, None), None);
            Last(states).committed == [b1, Chained(h, Unchained(a, None), b1.rowHash)]
  {
    states, actions := SecondCommits(h, a, b);
    var b1 := Chained(h, Unchained(b, None), None);
    var a1 := Chained(h, Unchained(a, None), b1.rowHash);
    states, actions := Extend(h, states, actions, Lock(0));
    assert HeadHash([b1] + []) == b1.rowHash by {
      ChainedIsHashed(h, Unchained(b, None), None);
      HashedSnoc([], b1);
      assert [] + [b1] == [b1] && [b1] + [] == [b1];
    }
    states, actions := Extend(h, states, actions, Chain(0));
    assert [] + [a1] == [a1];
    assert Last(states).txns[0] == Txn(None, [a1]);
    states, actions := Extend(h, states, actions, Commit(0));
    assert [b1] + [a1] == [b1, a1];
  }

  lemma SecondCommits(h: Hasher, a: Row, b: Row) returns (states: seq<State>, actions: seq<Action>)
    requires Digests(h) && a.id != b.id && a.createdAt == 0 && b.createdAt == 1
    ensures IsRun(h, states, actions)
    ensures Last(states) ==
              State(1, [Chained(h, Unchained(b, None), None)], map[0 := Txn(Some(Unchained(a, None)), [])], None)
  {
    var b0 := Unchained(b, None);
    var t0 := Txn(Some(Unchained(a, None)), []);
    var b1 := Chained(h, b0, None);
    states, actions := [EMPTY], [];
    states, actions := Extend(h, states, actions, Stamp(0, a));
    states, actions := Extend(h, states, actions, Tick(1));
    assert Last(states) == State(1, [], map[0 := t0], None);
    assert TxnIds(t0) == {a.id};
    states, actions := Extend(h, states, actions, Stamp(1, b));
    states, actions := Extend(h, states, actions, Lock(1));
    assert Last(states) == State(1, [], map[0 := t0, 1 := Txn(Some(b0), [])], Some(1));
    states, actions := Extend(h, states, actions, Chain(1));
    assert [] + [b1] == [b1];
    assert Last(states) == State(1, [], map[0 := t0, 1 := Txn(None, [b1])], Some(1));
    states, actions := Extend(h, states, actions, Commit(1));
  }

  lemma Extend(h: Hasher, states: seq<State>, actions: seq<Action>, a: Action)
    returns (states': seq<State>, actions': seq<Action>)
    requires IsRun(h, states, actions) && Enabled(Last(states), a)
    ensures IsRun(h, states', actions') && Last(states') == Step(h, Last(states), a)
  {
    states', actions' := states + [Step(h, Last(states), a)], actions + [a];
  }

  lemma SwappedFails(h: Hasher, log: seq<Row>, a: Row, b: Row)
    requires Arranged(log, [b, a]) && Before(a, b) && IsHashed(a) && IsHashed(b) && b.prevHash == None
    ensures !ChainOk(h, Hashed(log))
  {
    BeforeOrder(a, b, a);
    var pair := [a, b];
    OrderedUnique(log, pair);
    PairIsHashed(a, b);
    assert !Linked(pair, 1);
  }

  lemma PairIsHashed(a: Row, b: Row)
    requires IsHashed(a) && IsHashed(b)
    ensures Hashed([a, b]) == [a, b]
  {
    HashedSnoc([], a);
    HashedSnoc([a], b);
    assert [] + [a] == [a] && [a] + [b] == [a, b];
  }
}
