/** Serialized OAuth token refresh: backend/core/qbo_auth.py, as interleaved callers.
    The code between two awaits is one step. Several callers may share a connection object;
    others hold objects of their own for the same database row. The server follows section 6
    of RFC 6749: it accepts its current refresh token only, and may issue a new one. */
module TokenRefresh {
  import opened Prelude

  const EXPIRY_BUFFER := 300

  datatype Tokens = Tokens(refresh: nat, access: nat, expires: Option<int>)
  datatype Conn = Conn(realm: string, tok: Tokens)
  datatype Reply = Reply(access: nat, refresh: Option<nat>, lifetime: int)

  /** Where a call of `refresh_access_token` stands. */
  datatype Pc =
    | Waiting
    | Holding
    | Ready(reloaded: bool)
    | Sent(at: int, token: nat)
    | Answered(at: int, reply: Reply)
    | Committing
    | Done(access: nat)
    | Failed

  datatype Caller = Caller(conn: nat, pc: Pc)

  /** `rows` is the database, `locks` the registry of per-realm locks with their holders. */
  datatype State = State(
    now: int, server: map<string, nat>, rows: map<string, Tokens>, conns: map<nat, Conn>,
    callers: map<nat, Caller>, locks: map<string, Option<nat>>)

  datatype Action =
    | Tick(elapsed: nat)
    | Enter(c: nat, k: nat)
    | Acquire(c: nat)
    | Reload(c: nat, ok: bool)
    | Post(c: nat)
    | Serve(c: nat, reply: Reply)
    | Refuse(c: nat)
    | Receive(c: nat)
    | Commit(c: nat)
    | Abort(c: nat)
    | ServeOrphan(realm: string, issued: nat)

  predicate IsFresh(tok: Tokens, now: int) {
    tok.expires.Some? && tok.expires.value > now + EXPIRY_BUFFER
  }

  predicate Holds(pc: Pc) {
    pc.Holding? || pc.Ready? || InWindow(pc)
  }

  /** Between sending the refresh request and committing its result. */
  predicate InWindow(pc: Pc) {
    pc.Sent? || pc.Answered? || pc.Committing?
  }

  function RealmOf(s: State, c: nat): string
    requires c in s.callers && s.callers[c].conn in s.conns
  {
    s.conns[s.callers[c].conn].realm
  }

  /** Every connection object belongs to a realm the server and the database know. */
  ghost predicate Typed(s: State) {
    && s.server.Keys == s.rows.Keys
    && (forall k :: k in s.conns ==> s.conns[k].realm in s.rows)
    && (forall c :: c in s.callers ==> s.callers[c].conn in s.conns)
    && (forall c :: c in s.callers && s.callers[c].pc != Failed && !s.callers[c].pc.Done? ==> RealmOf(s, c) in s.locks)
  }

  function At(s: State, c: nat): Pc
    requires c in s.callers
  {
    s.callers[c].pc
  }

  ghost predicate Enabled(s: State, a: Action)
    requires Typed(s)
  {
    match a
    case Tick(_) => true
    case Enter(c, k) => c !in s.callers && k in s.conns
    case Acquire(c) => c in s.callers && At(s, c).Waiting? && s.locks[RealmOf(s, c)] == None
    case Reload(c, _) => c in s.callers && At(s, c).Holding?
    case Post(c) => c in s.callers && At(s, c).Ready?
    case Serve(c, reply) =>
      && c in s.callers && At(s, c).Sent? && At(s, c).token == s.server[RealmOf(s, c)]
      && (reply.refresh.Some? ==> reply.refresh.value > s.server[RealmOf(s, c)])
    case Refuse(c) => c in s.callers && At(s, c).Sent?
    case Receive(c) => c in s.callers && At(s, c).Answered?
    case Commit(c) => c in s.callers && At(s, c).Committing?
    case Abort(c) => c in s.callers && !At(s, c).Done? && !At(s, c).Failed?
    case ServeOrphan(r, n) => r in s.server && n > s.server[r]
  }

  function Goto(s: State, c: nat, pc: Pc): State
    requires c in s.callers
  {
    s.(callers := s.callers[c := s.callers[c].(pc := pc)])
  }

  /** Leave `async with lock`: the call ends and the lock, if held, is free. */
  function Leave(s: State, c: nat, pc: Pc): State
    requires Typed(s) && c in s.callers
  {
    var t := Goto(s, c, pc);
    if Holds(At(s, c)) then t.(locks := s.locks[RealmOf(s, c) := None]) else t
  }

  function SetConn(s: State, c: nat, tok: Tokens): State
    requires Typed(s) && c in s.callers
  {
    s.(conns := s.conns[s.callers[c].conn := s.conns[s.callers[c].conn].(tok := tok)])
  }

  function TokOf(s: State, c: nat): Tokens
    requires Typed(s) && c in s.callers
  {
    s.conns[s.callers[c].conn].tok
  }

  /** `_lock_for`: a realm's lock is made once and then kept. */
  function Register(locks: map<string, Option<nat>>, r: string): map<string, Option<nat>> {
    if r in locks then locks else locks[r := None]
  }

  /** `data.get("refresh_token", conn.refresh_token)` and the new expiry. */
  function Received(held: Tokens, at: int, reply: Reply): Tokens {
    Tokens(if reply.refresh.Some? then reply.refresh.value else held.refresh, reply.access, Some(at + reply.lifetime))
  }

  function Step(s: State, a: Action): State
    requires Typed(s) && Enabled(s, a)
  {
    match a
    case Tick(d) => s.(now := s.now + d)
    case Enter(c, k) =>
      if IsFresh(s.conns[k].tok, s.now) then s.(callers := s.callers[c := Caller(k, Done(s.conns[k].tok.access))])
      else s.(callers := s.callers[c := Caller(k, Waiting)], locks := Register(s.locks, s.conns[k].realm))
    case Acquire(c) =>
      if IsFresh(TokOf(s, c), s.now) then Goto(s, c, Done(TokOf(s, c).access))
      else Goto(s, c, Holding).(locks := s.locks[RealmOf(s, c) := Some(c)])
    case Reload(c, ok) =>
      if !ok then Goto(s, c, Ready(false))
      else
        var row := s.rows[RealmOf(s, c)];
        if IsFresh(row, s.now) then Leave(SetConn(s, c, row), c, Done(row.access))
        else Goto(SetConn(s, c, row), c, Ready(true))
    case Post(c) => Goto(s, c, Sent(s.now, TokOf(s, c).refresh))
    case Serve(c, reply) =>
      var r := RealmOf(s, c);
      Goto(s, c, Answered(At(s, c).at, reply)).(
        server := s.server[r := if reply.refresh.Some? then reply.refresh.value else s.server[r]])
    case Refuse(c) => Leave(s, c, Failed)
    case Receive(c) => Goto(SetConn(s, c, Received(TokOf(s, c), At(s, c).at, At(s, c).reply)), c, Committing)
    case Commit(c) => Leave(s, c, Done(TokOf(s, c).access)).(rows := s.rows[RealmOf(s, c) := TokOf(s, c)])
    case Abort(c) => Leave(s, c, Failed)
    case ServeOrphan(r, n) => s.(server := s.server[r := n])
  }

  // ---- What every step keeps ---------------------------------------------

  /** A call inside the lock is the lock's holder, and every held lock has such a call. */
  ghost predicate LockInv(s: State)
    requires Typed(s)
  {
    && (forall c :: c in s.callers && Holds(At(s, c)) ==> s.locks[RealmOf(s, c)] == Some(c))
    && (forall r :: r in s.locks && s.locks[r].Some? ==>
          var c := s.locks[r].value; c in s.callers && Holds(At(s, c)) && RealmOf(s, c) == r)
  }

  /** A request carries the token its connection object still holds; after a successful
      reload the object equals the row, and the row is not fresh. */
  ghost predicate ConnInv(s: State)
    requires Typed(s)
  {
    forall c :: c in s.callers ==> ConnOk(s, c)
  }

  ghost predicate ConnOk(s: State, d: nat)
    requires Typed(s) && d in s.callers
  {
    && (At(s, d).Sent? ==> At(s, d).token == TokOf(s, d).refresh)
    && (At(s, d) == Ready(true) ==> TokOf(s, d) == s.rows[RealmOf(s, d)] && !IsFresh(s.rows[RealmOf(s, d)], s.now))
  }

  ghost predicate Inv(s: State) {
    Typed(s) && LockInv(s) && ConnInv(s)
  }

  /** The connection objects keep their realms; all callers but `c` stay where they are. */
  ghost predicate OnlyMoves(s: State, t: State, c: nat) {
    && t.conns.Keys == s.conns.Keys
    && (forall k :: k in s.conns ==> t.conns[k].realm == s.conns[k].realm)
    && c in s.callers && c in t.callers && t.callers[c].conn == s.callers[c].conn
    && t.callers.Keys == s.callers.Keys
    && (forall d :: d in s.callers && d != c ==> t.callers[d] == s.callers[d])
  }

  /** A call that stays inside its lock keeps the lock discipline. */
  lemma StaysInside(s: State, t: State, c: nat)
    requires Typed(s) && LockInv(s) && OnlyMoves(s, t, c) && t.locks == s.locks
    requires t.server.Keys == s.server.Keys && t.rows.Keys == s.rows.Keys
    requires Holds(At(s, c)) && Holds(At(t, c))
    ensures Typed(t) && LockInv(t)
  {
    forall d | d in t.callers ensures t.callers[d].conn in t.conns && RealmOf(t, d) == RealmOf(s, d) {}
  }

  /** A call that leaves frees exactly its own lock. */
  lemma LeaveKeeps(s: State, t: State, c: nat)
    requires Typed(s) && LockInv(s) && OnlyMoves(s, t, c)
    requires t.server.Keys == s.server.Keys && t.rows.Keys == s.rows.Keys
    requires t.locks == if Holds(At(s, c)) then s.locks[RealmOf(s, c) := None] else s.locks
    requires At(t, c).Done? || At(t, c).Failed?
    ensures Typed(t) && LockInv(t)
  {
    forall d | d in t.callers ensures t.callers[d].conn in t.conns && RealmOf(t, d) == RealmOf(s, d) {}
    forall d | d in t.callers && Holds(At(t, d)) ensures d != c && t.locks[RealmOf(t, d)] == Some(d) {
      assert Holds(At(s, d)) && s.locks[RealmOf(s, d)] == Some(d);
    }
  }

  lemma EnterKeeps(s: State, c: nat, k: nat)
    requires Typed(s) && LockInv(s) && Enabled(s, Enter(c, k))
    ensures Typed(Step(s, Enter(c, k))) && LockInv(Step(s, Enter(c, k)))
  {
    var t := Step(s, Enter(c, k));
    NewcomerKeeps(s, t, c, k);
  }

  /** A new call outside every lock, and possibly a new free lock for its realm. */
  lemma NewcomerKeeps(s: State, t: State, c: nat, k: nat)
    requires Typed(s) && LockInv(s) && c !in s.callers && k in s.conns
    requires t.now == s.now && t.server == s.server && t.rows == s.rows && t.conns == s.conns
    requires exists pc :: t.callers == s.callers[c := Caller(k, pc)] && !Holds(pc)
                          && (pc.Done? || pc.Waiting?)
                          && t.locks == if pc.Done? then s.locks else Register(s.locks, s.conns[k].realm)
    ensures Typed(t) && LockInv(t)
  {
    forall d | d in t.callers && d != c ensures d in s.callers && t.callers[d] == s.callers[d] {}
  }

  lemma AcquireKeeps(s: State, c: nat)
    requires Typed(s) && LockInv(s) && Enabled(s, Acquire(c))
    ensures Typed(Step(s, Acquire(c))) && LockInv(Step(s, Acquire(c)))
  {
    var t := Step(s, Acquire(c));
    if !IsFresh(TokOf(s, c), s.now) {
      assert OnlyMoves(s, t, c);
      forall d | d in t.callers ensures t.callers[d].conn in t.conns && RealmOf(t, d) == RealmOf(s, d) {}
    } else {
      LeaveKeeps(s, t, c);
    }
  }

  predicate ByCaller(a: Action) {
    !a.Tick? && !a.Enter? && !a.ServeOrphan?
  }

  /** A caller's step moves that caller only. */
  lemma MovesOne(s: State, a: Action)
    requires Typed(s) && Enabled(s, a) && ByCaller(a)
    ensures OnlyMoves(s, Step(s, a), a.c) && Step(s, a).now == s.now
  {
    KeepsRealms(s, a);
    MovesCaller(s, a);
  }

  /** Only tokens of connection objects are assigned. */
  lemma KeepsRealms(s: State, a: Action)
    requires Typed(s) && Enabled(s, a) && ByCaller(a)
    ensures Step(s, a).conns.Keys == s.conns.Keys && Step(s, a).now == s.now
    ensures forall k :: k in s.conns ==> Step(s, a).conns[k].realm == s.conns[k].realm
  {
    match a
    case Reload(c, ok) => SetConnKeeps(s, c, s.rows[RealmOf(s, c)]);
    case Receive(c) => SetConnKeeps(s, c, Received(TokOf(s, c), At(s, c).at, At(s, c).reply));
    case _ =>
  }

  lemma SetConnKeeps(s: State, c: nat, tok: Tokens)
    requires Typed(s) && c in s.callers
    ensures SetConn(s, c, tok).conns.Keys == s.conns.Keys
    ensures forall k :: k in s.conns ==> SetConn(s, c, tok).conns[k].realm == s.conns[k].realm
  {
  }

  lemma MovesCaller(s: State, a: Action)
    requires Typed(s) && Enabled(s, a) && ByCaller(a)
    ensures exists pc :: Step(s, a).callers == s.callers[a.c := s.callers[a.c].(pc := pc)]
  {
    var t := Step(s, a);
    assert t.callers == s.callers[a.c := s.callers[a.c].(pc := t.callers[a.c].pc)];
  }

  /** It touches, if it holds the lock, its own connection object and its realm's row. */
  lemma TouchesOwn(s: State, a: Action)
    requires Typed(s) && Enabled(s, a) && ByCaller(a)
    ensures var t, c := Step(s, a), a.c;
            && t.rows.Keys == s.rows.Keys && t.server.Keys == s.server.Keys
            && (forall k :: k in s.conns && k != s.callers[c].conn ==> k in t.conns && t.conns[k] == s.conns[k])
            && (forall r :: r in s.rows && r != RealmOf(s, c) ==> t.rows[r] == s.rows[r])
            && (Holds(At(s, c)) || (t.conns == s.conns && t.rows == s.rows))
  {
    TouchesOwnConn(s, a);
    TouchesOwnRow(s, a);
  }

  lemma TouchesOwnConn(s: State, a: Action)
    requires Typed(s) && Enabled(s, a) && ByCaller(a)
    ensures var t, c := Step(s, a), a.c;
            && (forall k :: k in s.conns && k != s.callers[c].conn ==> k in t.conns && t.conns[k] == s.conns[k])
            && (Holds(At(s, c)) || t.conns == s.conns)
  {
  }

  lemma TouchesOwnRow(s: State, a: Action)
    requires Typed(s) && Enabled(s, a) && ByCaller(a)
    ensures var t, c := Step(s, a), a.c;
            && t.rows.Keys == s.rows.Keys && t.server.Keys == s.server.Keys
            && (forall r :: r in s.rows && r != RealmOf(s, c) ==> t.rows[r] == s.rows[r])
            && (Holds(At(s, c)) || t.rows == s.rows)
  {
  }

  /** What a caller's step, other than taking the lock, does to the locks. */
  lemma LockEffect(s: State, a: Action)
    requires Typed(s) && Enabled(s, a) && ByCaller(a) && !a.Acquire?
    ensures var t, c := Step(s, a), a.c;
            && c in t.callers
            && (Holds(At(t, c)) ==> Holds(At(s, c)) && t.locks == s.locks)
            && (!Holds(At(t, c)) ==> At(t, c).Done? || At(t, c).Failed?)
            && (!Holds(At(t, c)) ==> t.locks == if Holds(At(s, c)) then s.locks[RealmOf(s, c) := None] else s.locks)
  {
  }

  lemma StepKeepsLocks(s: State, a: Action)
    requires Typed(s) && LockInv(s) && Enabled(s, a)
    ensures Typed(Step(s, a)) && LockInv(Step(s, a))
  {
    if a.Enter? {
      EnterKeeps(s, a.c, a.k);
    } else if a.Acquire? {
      AcquireKeeps(s, a.c);
    } else if ByCaller(a) {
      CallerKeepsLocks(s, a);
    }
  }

  lemma CallerKeepsLocks(s: State, a: Action)
    requires Typed(s) && LockInv(s) && Enabled(s, a) && ByCaller(a) && !a.Acquire?
    ensures Typed(Step(s, a)) && LockInv(Step(s, a))
  {
    MovesOne(s, a);
    TouchesOwn(s, a);
    LockEffect(s, a);
    var t := Step(s, a);
    if Holds(At(t, a.c)) { StaysInside(s, t, a.c); } else { LeaveKeeps(s, t, a.c); }
  }

  /** Two calls inside locks of one realm are one call. */
  lemma OneInside(s: State, c: nat, d: nat)
    requires Typed(s) && LockInv(s) && c in s.callers && d in s.callers
    requires Holds(At(s, c)) && Holds(At(s, d)) && RealmOf(s, c) == RealmOf(s, d)
    ensures c == d
  {
    assert s.locks[RealmOf(s, c)] == Some(c) && s.locks[RealmOf(s, d)] == Some(d);
  }

  /** A call inside another realm's lock, or outside any, touches neither this call's object
      nor its row. */
  lemma OthersKeep(s: State, t: State, c: nat, d: nat)
    requires Inv(s) && Typed(t) && OnlyMoves(s, t, c) && d in s.callers && d != c
    requires t.now == s.now && t.rows.Keys == s.rows.Keys
    requires forall k :: k in s.conns && k != s.callers[c].conn ==> t.conns[k] == s.conns[k]
    requires forall r :: r in s.rows && r != RealmOf(s, c) ==> t.rows[r] == s.rows[r]
    requires Holds(At(s, c)) || (t.conns == s.conns && t.rows == s.rows)
    ensures ConnOk(t, d)
  {
    assert ConnOk(s, d);
    if Holds(At(s, d)) && Holds(At(s, c)) && RealmOf(s, c) == RealmOf(s, d) {
      OneInside(s, c, d);
    }
  }

  lemma OwnKeeps(s: State, a: Action)
    requires Inv(s) && Enabled(s, a) && ByCaller(a) && Typed(Step(s, a)) && a.c in Step(s, a).callers
    ensures ConnOk(Step(s, a), a.c)
  {
    assert ConnOk(s, a.c);
  }

  lemma StepKeepsConns(s: State, a: Action)
    requires Inv(s) && Enabled(s, a)
    requires Typed(Step(s, a))
    ensures ConnInv(Step(s, a))
  {
    var t := Step(s, a);
    if ByCaller(a) {
      MovesOne(s, a);
      TouchesOwn(s, a);
      OwnKeeps(s, a);
      forall d | d in t.callers ensures ConnOk(t, d) {
        if d != a.c { OthersKeep(s, t, a.c, d); }
      }
    } else {
      forall d | d in t.callers ensures ConnOk(t, d) {
        assert d in s.callers ==> ConnOk(s, d);
      }
    }
  }

  /** One step of any caller, the server or the clock keeps the invariant. */
  lemma StepKeeps(s: State, a: Action)
    requires Inv(s) && Enabled(s, a)
    ensures Inv(Step(s, a))
  {
    StepKeepsLocks(s, a);
    StepKeepsConns(s, a);
  }

  // ---- The stored token and the server's ----------------------------------

  /** The refresh token the row of `r` will hold once the call in the window, if any, commits. */
  function Latest(s: State, r: string): nat
    requires Typed(s) && LockInv(s) && r in s.rows
  {
    if r in s.locks && s.locks[r].Some? then
      var c := s.locks[r].value;
      match At(s, c)
      case Answered(at, reply) => Received(TokOf(s, c), at, reply).refresh
      case Committing => TokOf(s, c).refresh
      case _ => s.rows[r].refresh
    else s.rows[r].refresh
  }

  /** The server's current token of `r` is the stored one, or is on its way to the row. */
  ghost predicate SyncedAt(s: State, r: string)
    requires Typed(s) && LockInv(s) && r in s.rows
  {
    Latest(s, r) == s.server[r]
  }

  ghost predicate Synced(s: State)
    requires Typed(s) && LockInv(s)
  {
    forall r :: r in s.rows ==> SyncedAt(s, r)
  }

  /** The step throws away a token the server has issued: a call gives up after the server
      answered, its commit fails, or a request is served after its caller gave up. */
  ghost predicate LosesToken(s: State, a: Action)
    requires Typed(s) && LockInv(s) && Enabled(s, a)
  {
    match a
    case Abort(c) =>
      Holds(At(s, c)) && Latest(s, RealmOf(s, c)) != s.rows[RealmOf(s, c)].refresh
    case ServeOrphan(r, n) => true
    case _ => false
  }

  lemma LatestElsewhere(s: State, a: Action, r: string)
    requires Inv(s) && Enabled(s, a) && ByCaller(a) && r in s.rows && r != RealmOf(s, a.c)
    requires Typed(Step(s, a)) && LockInv(Step(s, a))
    ensures Latest(Step(s, a), r) == Latest(s, r) && Step(s, a).server[r] == s.server[r]
  {
    MovesOne(s, a);
    TouchesOwn(s, a);
    LocksElsewhere(s, a, r);
    LatestSame(s, Step(s, a), a.c, r);
  }

  lemma LatestSame(s: State, t: State, c: nat, r: string)
    requires Typed(s) && LockInv(s) && Typed(t) && LockInv(t) && OnlyMoves(s, t, c)
    requires r in s.rows && r in t.rows && r != RealmOf(s, c) && t.rows[r] == s.rows[r]
    requires (r in t.locks <==> r in s.locks) && (r in s.locks ==> t.locks[r] == s.locks[r])
    requires forall k :: k in s.conns && k != s.callers[c].conn ==> k in t.conns && t.conns[k] == s.conns[k]
    ensures Latest(t, r) == Latest(s, r)
  {
    if r in s.locks && s.locks[r].Some? {
      var d := s.locks[r].value;
      assert Holds(At(s, d)) && RealmOf(s, d) == r;
      StandsElsewhere(s, t, c, d);
    }
  }

  lemma StandsElsewhere(s: State, t: State, c: nat, d: nat)
    requires Typed(s) && Typed(t) && OnlyMoves(s, t, c) && d in s.callers && RealmOf(s, d) != RealmOf(s, c)
    requires forall k :: k in s.conns && k != s.callers[c].conn ==> k in t.conns && t.conns[k] == s.conns[k]
    ensures d in t.callers && At(t, d) == At(s, d) && TokOf(t, d) == TokOf(s, d)
  {
  }

  lemma LocksElsewhere(s: State, a: Action, r: string)
    requires Typed(s) && Enabled(s, a) && ByCaller(a) && r in s.rows && r != RealmOf(s, a.c)
    ensures r in Step(s, a).locks <==> r in s.locks
    ensures r in s.locks ==> Step(s, a).locks[r] == s.locks[r]
    ensures r in Step(s, a).server && Step(s, a).server[r] == s.server[r]
  {
  }

  /** In its own realm a caller's step keeps the tokens in step, or loses one. */
  lemma LatestOwn(s: State, a: Action)
    requires Inv(s) && Enabled(s, a) && ByCaller(a) && SyncedAt(s, RealmOf(s, a.c))
    requires Typed(Step(s, a)) && LockInv(Step(s, a))
    ensures SyncedAt(Step(s, a), RealmOf(s, a.c)) <==> !LosesToken(s, a)
  {
    assert ConnOk(s, a.c);
  }

  /** A step from a state in sync stays in sync exactly when it loses no token. */
  lemma SyncLostExactly(s: State, a: Action)
    requires Inv(s) && Enabled(s, a) && Synced(s)
    ensures Inv(Step(s, a)) && (Synced(Step(s, a)) <==> !LosesToken(s, a))
  {
    StepKeeps(s, a);
    var t := Step(s, a);
    if ByCaller(a) {
      TouchesOwn(s, a);
      LatestOwn(s, a);
      forall r | r in s.rows && r != RealmOf(s, a.c) ensures SyncedAt(t, r) {
        LatestElsewhere(s, a, r);
        assert SyncedAt(s, r);
      }
      assert SyncedAt(t, RealmOf(s, a.c)) || !Synced(t);
    } else {
      OutsideKeepsLatest(s, a);
    }
  }

  lemma OutsideKeepsLatest(s: State, a: Action)
    requires Inv(s) && Enabled(s, a) && Synced(s) && !ByCaller(a)
    requires Typed(Step(s, a)) && LockInv(Step(s, a))
    ensures Synced(Step(s, a)) <==> !LosesToken(s, a)
  {
    var t := Step(s, a);
    forall r | r in s.rows ensures Latest(t, r) == Latest(s, r) {
      if a.Enter? && r in s.locks && s.locks[r].Some? {
        assert s.locks[r].value != a.c;
      }
    }
    forall r | r in s.rows ensures Latest(s, r) == s.server[r] { assert SyncedAt(s, r); }
    if a.ServeOrphan? {
      assert !SyncedAt(t, a.realm);
    }
  }

  // ---- Whole runs ---------------------------------------------------------

  ghost predicate IsRun(states: seq<State>, actions: seq<Action>) {
    && |states| == |actions| + 1
    && Inv(states[0])
    && forall i {:trigger StepsAt(states, actions, i)} :: 0 <= i < |actions| ==> StepsAt(states, actions, i)
  }

  ghost predicate StepsAt(states: seq<State>, actions: seq<Action>, i: nat)
    requires i < |actions| && |states| == |actions| + 1
  {
    Typed(states[i]) && Enabled(states[i], actions[i]) && states[i + 1] == Step(states[i], actions[i])
  }

  lemma {:induction false} RunKeeps(states: seq<State>, actions: seq<Action>, n: nat)
    requires IsRun(states, actions) && n < |states|
    ensures Inv(states[n])
  {
    if n > 0 {
      RunKeeps(states, actions, n - 1);
      assert StepsAt(states, actions, n - 1);
      StepKeeps(states[n - 1], actions[n - 1]);
    }
  }

  /** At most one call of a realm is between POST and commit, in every reachable state. */
  lemma AtMostOneRefreshing(states: seq<State>, actions: seq<Action>, n: nat, c: nat, d: nat)
    requires IsRun(states, actions) && n < |states|
    requires Typed(states[n]) && c in states[n].callers && d in states[n].callers
    requires InWindow(At(states[n], c)) && InWindow(At(states[n], d))
    requires RealmOf(states[n], c) == RealmOf(states[n], d)
    ensures c == d
  {
    RunKeeps(states, actions, n);
    OneInside(states[n], c, d);
  }

  ghost predicate LosesNothing(s: State, a: Action) {
    Inv(s) && Enabled(s, a) && !LosesToken(s, a)
  }

  /** None of the first `n` steps throws a token away. */
  ghost predicate NoneLost(states: seq<State>, actions: seq<Action>, n: nat)
    requires n <= |actions| && n <= |states|
  {
    forall i {:trigger LosesNothing(states[i], actions[i])} :: 0 <= i < n ==> LosesNothing(states[i], actions[i])
  }

  lemma {:induction false} RunSynced(states: seq<State>, actions: seq<Action>, n: nat)
    requires IsRun(states, actions) && n < |states| && Synced(states[0])
    requires NoneLost(states, actions, n)
    ensures Inv(states[n]) && Synced(states[n])
  {
    if n > 0 {
      RunSynced(states, actions, n - 1);
      var s, a := states[n - 1], actions[n - 1];
      assert LosesNothing(s, a) && StepsAt(states, actions, n - 1);
      SyncLostExactly(s, a);
    }
  }

  /** As long as no issued token is thrown away, the stored refresh token equals the server's
      whenever no call of the realm is between POST and commit. */
  lemma StoredIsCurrent(states: seq<State>, actions: seq<Action>, n: nat, r: string)
    requires IsRun(states, actions) && n < |states| && Synced(states[0])
    requires NoneLost(states, actions, n)
    requires r in states[n].rows && Typed(states[n])
    requires forall c :: c in states[n].callers && RealmOf(states[n], c) == r ==> !InWindow(At(states[n], c))
    ensures states[n].rows[r].refresh == states[n].server[r]
  {
    RunSynced(states, actions, n);
    assert SyncedAt(states[n], r);
  }

  /** Of a state in sync: a POST sends the server's current token exactly when the caller's
      object agrees with the row, which a successful reload guarantees; and after a successful
      reload no POST is sent while the stored token is fresh. */
  lemma PostSendsCurrent(s: State, c: nat)
    requires Inv(s) && Synced(s) && Enabled(s, Post(c))
    ensures At(Step(s, Post(c)), c).token == s.server[RealmOf(s, c)] <==>
              TokOf(s, c).refresh == s.rows[RealmOf(s, c)].refresh
    ensures At(s, c).reloaded ==> At(Step(s, Post(c)), c).token == s.server[RealmOf(s, c)]
    ensures At(s, c).reloaded ==> !IsFresh(s.rows[RealmOf(s, c)], s.now)
  {
    assert ConnOk(s, c) && SyncedAt(s, RealmOf(s, c));
    assert Holds(At(s, c));
  }

  /** No call of the realm is about to POST or between POST and commit. */
  ghost predicate Quiet(s: State, r: string)
    requires Typed(s)
  {
    forall c :: c in s.callers && RealmOf(s, c) == r ==> !At(s, c).Ready? && !InWindow(At(s, c))
  }

  predicate ReloadsWork(a: Action) {
    a.Reload? ==> a.ok
  }

  /** Every caller about to POST has reloaded its object. */
  ghost predicate AllReloaded(s: State) {
    forall c :: c in s.callers && s.callers[c].pc.Ready? ==> s.callers[c].pc.reloaded
  }

  lemma {:induction false} ReloadedThroughout(states: seq<State>, actions: seq<Action>, n: nat)
    requires IsRun(states, actions) && n < |states| && AllReloaded(states[0])
    requires forall k :: 0 <= k < n ==> ReloadsWork(actions[k])
    ensures AllReloaded(states[n])
  {
    if n > 0 {
      ReloadedThroughout(states, actions, n - 1);
      assert StepsAt(states, actions, n - 1) && ReloadsWork(actions[n - 1]);
      ReloadedStays(states[n - 1], actions[n - 1]);
    }
  }

  lemma ReloadedStays(s: State, a: Action)
    requires Typed(s) && Enabled(s, a)
    ensures AllReloaded(s) && ReloadsWork(a) ==> AllReloaded(Step(s, a))
  {
  }

  /** While reloads work and no issued token is thrown away, every POST of a run sends the
      server's current token, and none is sent while the stored token is fresh. */
  lemma EveryPostIsCurrent(states: seq<State>, actions: seq<Action>, n: nat, c: nat)
    requires IsRun(states, actions) && n < |actions| && actions[n] == Post(c)
    requires Synced(states[0]) && AllReloaded(states[0]) && NoneLost(states, actions, n)
    requires forall k :: 0 <= k < n ==> ReloadsWork(actions[k])
    requires Typed(states[n]) && Typed(states[n + 1]) && c in states[n].callers && c in states[n + 1].callers
    ensures RealmOf(states[n], c) in states[n].rows && At(states[n + 1], c).Sent?
    ensures At(states[n + 1], c).token == states[n].server[RealmOf(states[n], c)]
    ensures !IsFresh(states[n].rows[RealmOf(states[n], c)], states[n].now)
  {
    RunSynced(states, actions, n);
    ReloadedThroughout(states, actions, n);
    assert StepsAt(states, actions, n);
    PostSendsCurrent(states[n], c);
  }

  ghost predicate PostsFor(s: State, a: Action, r: string)
    requires Typed(s)
  {
    a.Post? && a.c in s.callers && RealmOf(s, a.c) == r
  }

  lemma StaysQuiet(s: State, a: Action, r: string)
    requires Inv(s) && Enabled(s, a) && ReloadsWork(a)
    requires r in s.rows && Quiet(s, r) && IsFresh(s.rows[r], s.now)
    requires Typed(Step(s, a))
    ensures Quiet(Step(s, a), r) && r in Step(s, a).rows && Step(s, a).rows[r] == s.rows[r]
  {
    if ByCaller(a) {
      MovesOne(s, a);
      TouchesOwn(s, a);
      QuietElsewhere(s, Step(s, a), a.c, r);
      if RealmOf(s, a.c) == r { QuietHere(s, a, r); }
    }
  }

  lemma QuietElsewhere(s: State, t: State, c: nat, r: string)
    requires Typed(s) && Typed(t) && OnlyMoves(s, t, c) && Quiet(s, r)
    ensures forall d :: d in t.callers && d != c && RealmOf(t, d) == r ==> !At(t, d).Ready? && !InWindow(At(t, d))
    ensures RealmOf(t, c) == RealmOf(s, c)
  {
  }

  lemma QuietHere(s: State, a: Action, r: string)
    requires Inv(s) && Enabled(s, a) && ByCaller(a) && ReloadsWork(a)
    requires r in s.rows && Quiet(s, r) && IsFresh(s.rows[r], s.now) && RealmOf(s, a.c) == r
    requires Typed(Step(s, a)) && a.c in Step(s, a).callers
    ensures !At(Step(s, a), a.c).Ready? && !InWindow(At(Step(s, a), a.c))
    ensures Step(s, a).rows == s.rows && !a.Post?
  {
  }

  lemma TimeStep(s: State, a: Action)
    requires Typed(s) && Enabled(s, a)
    ensures s.now <= Step(s, a).now
  {
  }

  lemma {:induction false} NoPostWhileFresh(states: seq<State>, actions: seq<Action>, i: nat, j: nat, r: string)
    requires IsRun(states, actions) && i <= j < |states| && Inv(states[i]) && Inv(states[j])
    requires r in states[i].rows && Quiet(states[i], r) && IsFresh(states[i].rows[r], states[j].now)
    requires forall k :: i <= k < j ==> ReloadsWork(actions[k])
    ensures r in states[j].rows && Quiet(states[j], r) && states[j].rows[r] == states[i].rows[r]
  {
    if i < j {
      RunKeeps(states, actions, j - 1);
      var a := actions[j - 1];
      assert StepsAt(states, actions, j - 1);
      TimeStep(states[j - 1], a);
      NoPostWhileFresh(states, actions, i, j - 1, r);
      StaysQuiet(states[j - 1], a, r);
    }
  }

  lemma CommitIsQuiet(s: State, c: nat)
    requires Inv(s) && Enabled(s, Commit(c))
    ensures Typed(Step(s, Commit(c))) && Quiet(Step(s, Commit(c)), RealmOf(s, c))
    ensures Step(s, Commit(c)).rows[RealmOf(s, c)] == TokOf(s, c)
  {
    StepKeepsLocks(s, Commit(c));
    MovesOne(s, Commit(c));
    var t := Step(s, Commit(c));
    forall d | d in t.callers && RealmOf(t, d) == RealmOf(s, c) ensures !At(t, d).Ready? && !InWindow(At(t, d)) {
      if d != c && Holds(At(s, d)) {
        OneInside(s, c, d);
      }
    }
  }

  /** However many callers there are, a committed refresh is the only one until its token is
      within the buffer of its expiry, provided reloads work. */
  lemma RefreshedOnce(states: seq<State>, actions: seq<Action>, i: nat, j: nat, c: nat)
    requires IsRun(states, actions) && i < j < |actions| && actions[i] == Commit(c)
    requires Inv(states[i]) && Enabled(states[i], Commit(c)) && Inv(states[j])
    requires IsFresh(TokOf(states[i], c), states[j].now)
    requires forall k :: i < k < j ==> ReloadsWork(actions[k])
    ensures !PostsFor(states[j], actions[j], RealmOf(states[i], c))
  {
    assert StepsAt(states, actions, i) && StepsAt(states, actions, j);
    CommitIsQuiet(states[i], c);
    RunKeeps(states, actions, i + 1);
    NoPostWhileFresh(states, actions, i + 1, j, RealmOf(states[i], c));
  }

  // ---- A reload that fails --------------------------------------------------

  /** When the reload fails, a caller that loaded its object before another call refreshed
      posts a token the server has rotated away, although the stored one is fresh and current. */
  lemma FailedReloadPostsStale(r: string, loaded: Tokens, stored: Tokens)
    returns (states: seq<State>, actions: seq<Action>)
    requires loaded.refresh < stored.refresh && !IsFresh(loaded, 0) && IsFresh(stored, 0)
    ensures IsRun(states, actions) && Synced(states[0]) && |actions| == 4 && NoneLost(states, actions, 4)
    ensures var s := states[4];
            && Typed(s) && 0 in s.callers && At(s, 0).Sent? && RealmOf(s, 0) == r && r in s.rows
            && s.rows[r] == stored && s.server[r] == stored.refresh && At(s, 0).token == loaded.refresh
  {
    states, actions := StaleRun(r, loaded, stored);
    LoadedIsSynced(r, loaded, stored);
    CallersLoseNothing(states, actions);
  }

  lemma LoadedIsSynced(r: string, loaded: Tokens, stored: Tokens)
    ensures Inv(Loaded(r, loaded, stored)) && Synced(Loaded(r, loaded, stored))
  {
  }

  lemma StaleRun(r: string, loaded: Tokens, stored: Tokens) returns (states: seq<State>, actions: seq<Action>)
    requires !IsFresh(loaded, 0)
    ensures IsRun(states, actions) && actions == [Enter(0, 0), Acquire(0), Reload(0, false), Post(0)]
    ensures states[0] == Loaded(r, loaded, stored)
    ensures states[4] == InStale(Loaded(r, loaded, stored), r, Some(0), Sent(0, loaded.refresh))
  {
    StaleEnters(r, loaded, stored);
    StalePosts(r, loaded, stored);
    var s0, locked := Loaded(r, loaded, stored), Some(0);
    states := [s0, InStale(s0, r, None, Waiting), InStale(s0, r, locked, Holding), InStale(s0, r, locked, Ready(false)),
               InStale(s0, r, locked, Sent(0, loaded.refresh))];
    actions := [Enter(0, 0), Acquire(0), Reload(0, false), Post(0)];
    forall i | 0 <= i < 4 ensures StepsAt(states, actions, i) {
      assert i == 0 || i == 1 || i == 2 || i == 3;
    }
  }

  /** The state of that run with the caller at some point. */
  function InStale(s: State, r: string, holder: Option<nat>, pc: Pc): State {
    s.(callers := map[0 := Caller(0, pc)], locks := map[r := holder])
  }

  lemma StaleEnters(r: string, loaded: Tokens, stored: Tokens)
    requires !IsFresh(loaded, 0)
    ensures var s0 := Loaded(r, loaded, stored);
            var s1 := InStale(s0, r, None, Waiting);
            && Inv(s0) && Typed(s0) && Typed(s1) && Enabled(s0, Enter(0, 0)) && Step(s0, Enter(0, 0)) == s1
            && Enabled(s1, Acquire(0)) && Step(s1, Acquire(0)) == InStale(s0, r, Some(0), Holding)
  {
    LoadedIsSynced(r, loaded, stored);
  }

  lemma StalePosts(r: string, loaded: Tokens, stored: Tokens)
    requires !IsFresh(loaded, 0)
    ensures var s0 := Loaded(r, loaded, stored);
            var s2, s3 := InStale(s0, r, Some(0), Holding), InStale(s0, r, Some(0), Ready(false));
            && Typed(s2) && Typed(s3) && Enabled(s2, Reload(0, false)) && Step(s2, Reload(0, false)) == s3
            && Enabled(s3, Post(0)) && Step(s3, Post(0)) == InStale(s0, r, Some(0), Sent(0, loaded.refresh))
  {
  }

  /** Only giving up, or a late request, can throw a token away. */
  lemma CallersLoseNothing(states: seq<State>, actions: seq<Action>)
    requires IsRun(states, actions)
    requires forall i {:trigger actions[i]} :: 0 <= i < |actions| ==> !actions[i].Abort? && !actions[i].ServeOrphan?
    ensures NoneLost(states, actions, |actions|)
  {
    forall i | 0 <= i < |actions|
      ensures LosesNothing(states[i], actions[i])
    {
      assert StepsAt(states, actions, i);
      RunKeeps(states, actions, i);
    }
  }

  /** One connection object, loaded before the stored token was last refreshed. */
  function Loaded(r: string, loaded: Tokens, stored: Tokens): State {
    State(0, map[r := stored.refresh], map[r := stored], map[0 := Conn(r, loaded)], map[], map[])
  }

  // ---- The code, segment by segment ------------------------------------------

  /** The process's shared objects and the database it talks to, updated in place. */
  class AuthService {
    var now: int
    var server: map<string, nat>
    var rows: map<string, Tokens>
    var conns: map<nat, Conn>
    var callers: map<nat, Caller>
    var locks: map<string, Option<nat>>

    ghost function Abstract(): State
      reads this
    {
      State(now, server, rows, conns, callers, locks)
    }

    /** From the call to its first await: return at once, or make sure the realm has a lock. */
    method EnterCall(c: nat, k: nat)
      requires Typed(Abstract()) && Enabled(Abstract(), Enter(c, k))
      modifies this`callers, this`locks
      ensures Abstract() == Step(old(Abstract()), Enter(c, k))
    {
      var conn := conns[k];
      if IsFresh(conn.tok, now) {
        callers := callers[c := Caller(k, Done(conn.tok.access))];
        return;
      }
      callers := callers[c := Caller(k, Waiting)];
      if conn.realm !in locks {
        locks := locks[conn.realm := None];
      }
    }

    /** Entering `async with lock`: the in-memory double check. */
    method EnterLock(c: nat)
      requires Typed(Abstract()) && Enabled(Abstract(), Acquire(c))
      modifies this`callers, this`locks
      ensures Abstract() == Step(old(Abstract()), Acquire(c))
    {
      var k := callers[c].conn;
      var conn := conns[k];
      if IsFresh(conn.tok, now) {
        callers := callers[c := Caller(k, Done(conn.tok.access))];
        return;
      }
      callers := callers[c := Caller(k, Holding)];
      locks := locks[conn.realm := Some(c)];
    }

    /** `db.refresh`, which may fail and is then skipped, and the check after it. */
    method ReloadConn(c: nat, ok: bool)
      requires Typed(Abstract()) && Enabled(Abstract(), Reload(c, ok))
      modifies this`callers, this`conns, this`locks
      ensures Abstract() == Step(old(Abstract()), Reload(c, ok))
    {
      var k := callers[c].conn;
      if !ok {
        callers := callers[c := Caller(k, Ready(false))];
        return;
      }
      var row := rows[conns[k].realm];
      conns := conns[k := conns[k].(tok := row)];
      if IsFresh(row, now) {
        callers := callers[c := Caller(k, Done(row.access))];
        locks := locks[conns[k].realm := None];
      } else {
        callers := callers[c := Caller(k, Ready(true))];
      }
    }

    method PostRefresh(c: nat)
      requires Typed(Abstract()) && Enabled(Abstract(), Post(c))
      modifies this`callers
      ensures Abstract() == Step(old(Abstract()), Post(c))
    {
      var k := callers[c].conn;
      callers := callers[c := Caller(k, Sent(now, conns[k].tok.refresh))];
    }

    /** A status of 200: the shared object takes the new tokens before the commit. */
    method ReceiveReply(c: nat)
      requires Typed(Abstract()) && Enabled(Abstract(), Receive(c))
      modifies this`callers, this`conns
      ensures Abstract() == Step(old(Abstract()), Receive(c))
    {
      var k, at, reply := callers[c].conn, callers[c].pc.at, callers[c].pc.reply;
      var conn := conns[k];
      conn := conn.(tok := conn.tok.(access := reply.access));
      if reply.refresh.Some? {
        conn := conn.(tok := conn.tok.(refresh := reply.refresh.value));
      }
      conn := conn.(tok := conn.tok.(expires := Some(at + reply.lifetime)));
      conns := conns[k := conn];
      callers := callers[c := Caller(k, Committing)];
    }

    method CommitConn(c: nat)
      requires Typed(Abstract()) && Enabled(Abstract(), Commit(c))
      modifies this`callers, this`rows, this`locks
      ensures Abstract() == Step(old(Abstract()), Commit(c))
    {
      var k := callers[c].conn;
      var conn := conns[k];
      rows := rows[conn.realm := conn.tok];
      callers := callers[c := Caller(k, Done(conn.tok.access))];
      locks := locks[conn.realm := None];
    }

    /** Any other status raises; leaving the block frees the lock. */
    method RefuseCall(c: nat)
      requires Typed(Abstract()) && Enabled(Abstract(), Refuse(c))
      modifies this`callers, this`locks
      ensures Abstract() == Step(old(Abstract()), Refuse(c))
    {
      var k := callers[c].conn;
      callers := callers[c := Caller(k, Failed)];
      locks := locks[conns[k].realm := None];
    }
  }
}
